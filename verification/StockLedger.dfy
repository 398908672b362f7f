/** The append-only ledger determines the stock, up to the sign that `adjustStock` does not record. */
module StockLedger {
  import opened Sums
  import opened Store
  import opened Machine
  import opened Effects
  import Purchasing
  import Sales
  import Returns
  import Inventory
  import BulkInputs

  function Direction(kind: TransactionType): int {
    if kind == OUT then -1 else 1
  }

  /** A row as a reader of the ledger sees it: OUT takes away, the other three types add. */
  function SignedFor(product: Id): Entry -> int {
    (e: Entry) => if e.product == product then Direction(e.kind) * e.quantity else 0
  }

  function Replay(ledger: seq<Entry>, product: Id): int {
    SumOver(ledger, SignedFor(product))
  }

  /** The rows whose true sign a reader cannot see. */
  function AmbiguousFor(product: Id): Entry -> int {
    (e: Entry) => if e.product == product && (e.kind == ADJUSTMENT || e.kind == RETURN) then e.quantity else 0
  }

  function Ambiguous(ledger: seq<Entry>, product: Id): int {
    SumOver(ledger, AmbiguousFor(product))
  }

  /** The quantity a negative ADJUSTMENT or a negative manual RETURN really took out. */
  function LostSign(s: State, op: Op, product: Id): nat {
    if op.AdjustStock? && op.product == product && (op.kind == ADJUSTMENT || op.kind == RETURN)
       && op.change < 0 && Try(s, op).Done?
    then Inventory.Magnitude(op.change) else 0
  }

  /** The stock a product is born with: no ledger row records it. */
  function Opened(before: State, after: State, product: Id): int {
    if product !in before.products then Stock(after.products, product) else 0
  }

  /** One transition: the ledger grows, and replaying the new rows gives the change of stock,
      twice the lost sign too much. */
  ghost predicate Accounted(before: State, after: State, product: Id, lost: nat) {
    && before.ledger <= after.ledger
    && Replay(after.ledger, product) - Replay(before.ledger, product)
         == Stock(after.products, product) - Stock(before.products, product) - Opened(before, after, product) + 2 * lost
    && lost <= Ambiguous(after.ledger, product) - Ambiguous(before.ledger, product)
  }

  lemma {:induction false} ReplayRows(kind: TransactionType, moves: seq<Move>, tenant: Id, reference: string, p: Id)
    ensures Replay(Rows(kind, moves, tenant, reference), p) == Direction(kind) * Units(moves, p)
    ensures Ambiguous(Rows(kind, moves, tenant, reference), p)
              == (if kind == ADJUSTMENT || kind == RETURN then Units(moves, p) else 0)
    decreases |moves|
  {
    if moves != [] {
      assert Rows(kind, moves, tenant, reference)[1..] == Rows(kind, moves[1..], tenant, reference);
      ReplayRows(kind, moves[1..], tenant, reference, p);
      UnitsOfHead(moves, p);
    }
  }

  /** A batch of movements and the rows it writes are accounted for. */
  lemma RowsAccounted(before: State, after: State, kind: TransactionType, moves: seq<Move>, tenant: Id,
                      reference: string, p: Id)
    requires after.ledger == before.ledger + Rows(kind, moves, tenant, reference)
    requires after.products.Keys == before.products.Keys
    requires AllOwned(before.products, tenant, moves)
    requires p in before.products ==>
               after.products[p].stock
                 == before.products[p].stock + Direction(kind) * Units(moves, p)
    ensures Accounted(before, after, p, 0)
  {
    var rows := Rows(kind, moves, tenant, reference);
    ReplayRows(kind, moves, tenant, reference, p);
    SumConcat(before.ledger, rows, SignedFor(p));
    SumConcat(before.ledger, rows, AmbiguousFor(p));
    UnitsPositive(moves, p);
  }

  lemma StockOutAccounted(s: State, tenant: Id, number: string, moves: seq<Move>, p: Id)
    ensures var r := Sales.ProcessStockOut(s, tenant, number, moves);
            r.Done? ==> Accounted(s, r.value, p, 0)
  {
    StockOutShift(s.products, tenant, moves);
    StockOutSucceeds(s.products, tenant, moves);
    var r := Sales.ProcessStockOut(s, tenant, number, moves);
    if r.Done? {
      RowsAccounted(s, r.value, OUT, moves, tenant, number, p);
    }
  }

  lemma ReceiptAccounted(s: State, tenant: Id, number: string, items: seq<PurchaseItem>, p: Id)
    ensures var r := Purchasing.ProcessReceivedItems(s, tenant, number, items);
            r.Done? ==> Accounted(s, r.value, p, 0)
  {
    ReceiveEffect(s.products, s.products, tenant, items);
    var r := Purchasing.ProcessReceivedItems(s, tenant, number, items);
    if r.Done? {
      forall m | m in Bought(items) ensures Owned(s.products, m.product, tenant) {
        var i :| 0 <= i < |items| && Bought(items)[i] == m;
        assert items[i] in items;
      }
      RowsAccounted(s, r.value, IN, Bought(items), tenant, number, p);
    }
  }

  lemma CommitReceiveAccounted(s: State, ticket: Purchasing.ReceiveTicket, p: Id)
    ensures Accounted(s, Commit(s, Purchasing.CommitReceive(s, ticket)), p, 0)
  {
    if ticket.order in s.purchases {
      var order := s.purchases[ticket.order];
      ReceiptAccounted(s.(purchases := s.purchases[ticket.order := order.(status := PurchaseReceived)]),
                       ticket.tenant, order.number, ticket.items, p);
    }
  }

  lemma CommitReturnAccounted(s: State, number: string, ticket: Returns.ReturnTicket, p: Id)
    ensures Accounted(s, Commit(s, Returns.CommitReturn(s, number, ticket)), p, 0)
  {
    PutBackEffect(s.products, ticket.tenant, Brought(ticket.lines));
    var r := Returns.CommitReturn(s, number, ticket);
    if r.Done? {
      RowsAccounted(s, r.value, RETURN, Brought(ticket.lines), ticket.tenant, number, p);
    }
  }

  lemma AdjustAccounted(s: State, op: Op, p: Id)
    requires op.AdjustStock?
    ensures Accounted(s, Step(s, op), p, LostSign(s, op, p))
  {
    var r := Try(s, op);
    if r.Done? {
      var row := Entry(op.kind, op.product, op.tenant, Inventory.Magnitude(op.change), op.reference);
      SumSnoc(s.ledger, row, SignedFor(p));
      SumSnoc(s.ledger, row, AmbiguousFor(p));
    }
  }

  lemma CreatePurchaseAccounted(s: State, op: Op, p: Id)
    requires op.CreatePurchase?
    ensures Accounted(s, Step(s, op), p, 0)
  {
    var o := PurchaseOrder(op.tenant, op.number, op.supplier, PurchaseReceived, op.bought,
                           Purchasing.TotalPrice(op.bought));
    var inserted := Purchasing.InsertOrder(s, op.id, o);
    if inserted.Done? {
      ReceiptAccounted(inserted.value, op.tenant, op.number, op.bought, p);
    }
  }

  lemma CreateSaleAccounted(s: State, op: Op, p: Id)
    requires op.CreateSale?
    ensures Accounted(s, Step(s, op), p, 0)
  {
    var items := Sales.BuildItems(s.products, op.tenant, op.lines);
    if items.Done? {
      var inserted :=
          Sales.InsertOrder(s, op.id, Sales.NewOrder(op.tenant, op.number, SalesCompleted, op.now, items.value));
      if inserted.Done? {
        StockOutAccounted(inserted.value, op.tenant, op.number, Sales.Requested(op.lines), p);
      }
    }
  }

  lemma CompleteSaleAccounted(s: State, op: Op, p: Id)
    requires op.CompleteSale?
    ensures Accounted(s, Step(s, op), p, 0)
  {
    if op.id in s.sales {
      var o := s.sales[op.id];
      StockOutAccounted(s.(sales := s.sales[op.id := o.(status := SalesCompleted)]), op.tenant, o.number, Sold(o.items),
                        p);
    }
  }

  /** The calls that only file an order touch neither stock nor ledger. */
  lemma FilingAccounted(s: State, op: Op, p: Id)
    requires op.CreatePendingPurchase? || op.CancelPurchase? || op.CreatePendingSale? || op.CancelSale?
    ensures Accounted(s, Step(s, op), p, 0)
  {
    assert Step(s, op).products == s.products && Step(s, op).ledger == s.ledger;
  }

  lemma StepAccounted(s: State, op: Op, p: Id)
    ensures Accounted(s, Step(s, op), p, LostSign(s, op, p))
  {
    match op
    case CreatePurchase(_, _, _, _, _) => CreatePurchaseAccounted(s, op, p);
    case ReceivePurchase(t, id) =>
      var ticket := Purchasing.ReadReceive(s, t, id);
      if ticket.Done? { CommitReceiveAccounted(s, ticket.value, p); }
    case CreateSale(_, _, _, _, _) => CreateSaleAccounted(s, op, p);
    case CompleteSale(_, _) => CompleteSaleAccounted(s, op, p);
    case CreateReturn(t, n, id, lines) =>
      var ticket := Returns.ReadReturn(s, t, id, lines);
      if ticket.Done? { CommitReturnAccounted(s, n, ticket.value, p); }
    case AdjustStock(_, _, _, _, _) => AdjustAccounted(s, op, p);
    case BulkInput(t, lines) => BulkInputs.BulkKeepsProducts(s.products, t, lines);
    case _ => FilingAccounted(s, op, p);
  }

  // ------------------------------------------------------------------ runs

  function LostAt(c: Config, e: Event, product: Id): nat {
    if e.Atomic? then LostSign(c.state, e.op, product) else 0
  }

  function LostIn(c: Config, es: seq<Event>, product: Id): nat
    decreases |es|
  {
    if es == [] then 0 else LostAt(c, es[0], product) + LostIn(Next(c, es[0]), es[1..], product)
  }

  function OpenedIn(c: Config, es: seq<Event>, product: Id): int
    decreases |es|
  {
    if es == [] then 0 else
      Opened(c.state, Next(c, es[0]).state, product) + OpenedIn(Next(c, es[0]), es[1..], product)
  }

  lemma NextAccounted(c: Config, e: Event, p: Id)
    ensures Accounted(c.state, Next(c, e).state, p, LostAt(c, e, p))
  {
    match e
    case Atomic(op) => StepAccounted(c.state, op, p);
    case BeginReceive(k, t, id) =>
    case CommitReceive(k) =>
      if k in c.receiving { CommitReceiveAccounted(c.state, c.receiving[k], p); }
    case BeginReturn(k, t, n, id, lines) =>
    case CommitReturn(k) =>
      if k in c.returning { CommitReturnAccounted(c.state, c.returning[k].number, c.returning[k].ticket, p); }
  }

  /** Main result. Over every interleaving, stale reads included, replaying the rows the run wrote gives the
      change of stock plus exactly twice what the negative adjustments took out, an amount the
      ambiguous rows bound. */
  lemma {:induction false} LedgerDeterminesStock(c: Config, es: seq<Event>, p: Id)
    ensures var before, after, lost := c.state, Play(c, es).state, LostIn(c, es, p);
            && before.ledger <= after.ledger
            && Replay(after.ledger, p) - Replay(before.ledger, p)
                 == Stock(after.products, p) - Stock(before.products, p) - OpenedIn(c, es, p) + 2 * lost
            && 0 <= lost <= Ambiguous(after.ledger, p) - Ambiguous(before.ledger, p)
    decreases |es|
  {
    if es != [] {
      NextAccounted(c, es[0], p);
      LedgerDeterminesStock(Next(c, es[0]), es[1..], p);
    }
  }

  ghost predicate NegativeAdjustment(e: Event, p: Id) {
    e.Atomic? && e.op.AdjustStock? && e.op.product == p && (e.op.kind == ADJUSTMENT || e.op.kind == RETURN)
        && e.op.change < 0
  }

  lemma {:induction false} NothingLost(c: Config, es: seq<Event>, p: Id)
    requires forall e :: e in es ==> !NegativeAdjustment(e, p)
    ensures LostIn(c, es, p) == 0
    decreases |es|
  {
    if es != [] {
      assert es[0] in es;
      assert forall e :: e in es[1..] ==> e in es;
      NothingLost(Next(c, es[0]), es[1..], p);
    }
  }

  /** From the empty store: the difference is even, twice the lost sign; it is bounded by the ambiguous rows, and nil
      without negative adjustments. */
  lemma StockFromLedger(es: seq<Event>, p: Id)
    ensures var start := Config(EMPTY, map[], map[]);
            var end := Play(start, es).state;
            var difference := OpenedIn(start, es, p) + Replay(end.ledger, p) - Stock(end.products, p);
            && difference == 2 * LostIn(start, es, p)
            && 0 <= difference <= 2 * Ambiguous(end.ledger, p)
            && ((forall e :: e in es ==> !NegativeAdjustment(e, p)) ==> difference == 0)
  {
    var start := Config(EMPTY, map[], map[]);
    LedgerDeterminesStock(start, es, p);
    if forall e :: e in es ==> !NegativeAdjustment(e, p) {
      NothingLost(start, es, p);
    }
  }

  // ------------------------------------------------------------------ stock never goes below zero

  ghost predicate NonNegative(products: Products) {
    forall p :: p in products ==> products[p].stock >= 0
  }

  /** A batch line that will be created with a negative opening stock. */
  ghost predicate OpensNegative(s: State, op: Op) {
    op.BulkInput? && exists k | 0 <= k < |op.batch| ::
                        && BulkInputs.Creates(s.products, op.tenant, op.batch, k)
                        && Inventory.Opening(op.tenant, op.batch[k]).stock < 0
  }

  ghost predicate FreshBatch(s: State, op: Op) {
    op.BulkInput? ==> BulkInputs.FreshIds(s.products, op.batch)
  }

  lemma StockOutNonNegative(products: Products, tenant: Id, moves: seq<Move>)
    requires NonNegative(products)
    ensures var r := Sales.StockOut(products, tenant, moves); r.Done? ==> NonNegative(r.value)
  {
  }

  lemma CommitReceiveNonNegative(s: State, ticket: Purchasing.ReceiveTicket)
    requires NonNegative(s.products)
    ensures NonNegative(Commit(s, Purchasing.CommitReceive(s, ticket)).products)
  {
    ReceiveEffect(s.products, s.products, ticket.tenant, ticket.items);
  }

  lemma CommitReturnNonNegative(s: State, number: string, ticket: Returns.ReturnTicket)
    requires NonNegative(s.products)
    ensures NonNegative(Commit(s, Returns.CommitReturn(s, number, ticket)).products)
  {
    PutBackEffect(s.products, ticket.tenant, Brought(ticket.lines));
  }

  lemma BulkNonNegative(s: State, tenant: Id, lines: seq<Inventory.BulkLine>)
    requires NonNegative(s.products) && BulkInputs.FreshIds(s.products, lines)
    ensures NonNegative(Inventory.BulkInput(s.products, tenant, lines).products) <==>
              !OpensNegative(s, BulkInput(tenant, lines))
  {
    BulkInputs.BulkKeepsProducts(s.products, tenant, lines);
    forall k | 0 <= k < |lines|
      ensures var after := Inventory.BulkInput(s.products, tenant, lines).products;
              && (lines[k].id in after <==> BulkInputs.Creates(s.products, tenant, lines, k))
              && (lines[k].id in after ==> after[lines[k].id] == Inventory.Opening(tenant, lines[k]))
    {
      BulkInputs.FirstOccurrenceWins(s.products, tenant, lines, k);
    }
  }

  lemma PurchaseCallNonNegative(s: State, op: Op)
    requires NonNegative(s.products)
    requires op.CreatePurchase? || op.CreatePendingPurchase? || op.ReceivePurchase? || op.CancelPurchase?
    ensures NonNegative(Step(s, op).products)
  {
    if op.CreatePurchase? {
      ReceiveEffect(s.products, s.products, op.tenant, op.bought);
    } else if op.ReceivePurchase? {
      var ticket := Purchasing.ReadReceive(s, op.tenant, op.id);
      if ticket.Done? { CommitReceiveNonNegative(s, ticket.value); }
    }
  }

  lemma SaleCallNonNegative(s: State, op: Op)
    requires NonNegative(s.products)
    requires op.CreateSale? || op.CreatePendingSale? || op.CompleteSale? || op.CancelSale?
    ensures NonNegative(Step(s, op).products)
  {
    if op.CreateSale? {
      StockOutNonNegative(s.products, op.tenant, Sales.Requested(op.lines));
    } else if op.CompleteSale? && op.id in s.sales {
      StockOutNonNegative(s.products, op.tenant, Sold(s.sales[op.id].items));
    }
  }

  lemma AdjustNonNegative(s: State, op: Op)
    requires NonNegative(s.products) && op.AdjustStock?
    ensures NonNegative(Step(s, op).products)
  {
  }

  /** Every call keeps stock non-negative, but for a bulk line created below zero: exactly then it does not. */
  lemma StepKeepsStockNonNegative(s: State, op: Op)
    requires NonNegative(s.products) && FreshBatch(s, op)
    ensures NonNegative(Step(s, op).products) <==> !OpensNegative(s, op)
  {
    if op.BulkInput? {
      BulkNonNegative(s, op.tenant, op.batch);
    } else if op.CreateReturn? {
      var ticket := Returns.ReadReturn(s, op.tenant, op.id, op.returned);
      if ticket.Done? { CommitReturnNonNegative(s, op.number, ticket.value); }
    } else if op.AdjustStock? {
      AdjustNonNegative(s, op);
    } else if op.CreateSale? || op.CreatePendingSale? || op.CompleteSale? || op.CancelSale? {
      SaleCallNonNegative(s, op);
    } else {
      PurchaseCallNonNegative(s, op);
    }
  }

  ghost predicate NoNegativeOpening(e: Event) {
    e.Atomic? && e.op.BulkInput? ==> forall l :: l in e.op.batch ==> Inventory.Opening(e.op.tenant, l).stock >= 0
  }

  lemma NextKeepsStockNonNegative(c: Config, e: Event)
    requires NonNegative(c.state.products) && NoNegativeOpening(e)
    ensures NonNegative(Next(c, e).state.products)
  {
    match e
    case Atomic(op) =>
      if op.BulkInput? {
        BulkInputs.BulkKeepsProducts(c.state.products, op.tenant, op.batch);
      } else {
        StepKeepsStockNonNegative(c.state, op);
      }
    case BeginReceive(k, t, id) =>
    case CommitReceive(k) =>
      if k in c.receiving { CommitReceiveNonNegative(c.state, c.receiving[k]); }
    case BeginReturn(k, t, n, id, lines) =>
    case CommitReturn(k) =>
      if k in c.returning { CommitReturnNonNegative(c.state, c.returning[k].number, c.returning[k].ticket); }
  }

  /** Over every interleaving with stale reads, stock stays non-negative. */
  lemma {:induction false} StockStaysNonNegative(c: Config, es: seq<Event>)
    requires NonNegative(c.state.products)
    requires forall e :: e in es ==> NoNegativeOpening(e)
    ensures NonNegative(Play(c, es).state.products)
    decreases |es|
  {
    if es != [] {
      assert es[0] in es;
      assert forall e :: e in es[1..] ==> e in es;
      NextKeepsStockNonNegative(c, es[0]);
      StockStaysNonNegative(Next(c, es[0]), es[1..]);
    }
  }
}
