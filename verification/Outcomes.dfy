/** When each call succeeds, how it fails, and what it leaves: exact conditions on the state before it. */
module Outcomes {
  import opened Sums
  import opened Store
  import opened Machine
  import opened Effects
  import opened Orders
  import opened AverageCost
  import Purchasing
  import Sales
  import Returns

  // ------------------------------------------------------------------ the order of the lines of a sale

  lemma UnitsPermuted(a: seq<Move>, b: seq<Move>, p: Id)
    requires multiset(a) == multiset(b)
    ensures Units(a, p) == Units(b, p)
  {
    SumPermuted(a, b, UnitsFor(p));
  }

  lemma CoveredPermuted(products: Products, tenant: Id, a: seq<Move>, b: seq<Move>)
    requires multiset(a) == multiset(b) && Covered(products, tenant, a)
    ensures Covered(products, tenant, b)
  {
    forall m | m in b
      ensures Owned(products, m.product, tenant) && Units(b, m.product) <= products[m.product].stock
    {
      assert m in multiset(a);
      UnitsPermuted(a, b, m.product);
    }
  }

  /** Every permutation of the lines has the same outcome and leaves the same stock. */
  lemma StockOutPermuted(products: Products, tenant: Id, a: seq<Move>, b: seq<Move>)
    requires multiset(a) == multiset(b)
    ensures Sales.StockOut(products, tenant, a) == Sales.StockOut(products, tenant, b)
  {
    StockOutShift(products, tenant, a);
    StockOutShift(products, tenant, b);
    StockOutSucceeds(products, tenant, a);
    StockOutSucceeds(products, tenant, b);
    if Covered(products, tenant, a) {
      CoveredPermuted(products, tenant, a, b);
      var x, y := Sales.StockOut(products, tenant, a).value, Sales.StockOut(products, tenant, b).value;
      forall p | p in products ensures x[p] == y[p] {
        UnitsPermuted(a, b, p);
      }
      assert x == y;
    } else if Covered(products, tenant, b) {
      CoveredPermuted(products, tenant, b, a);
    }
  }

  // ------------------------------------------------------------------ sales

  ghost predicate LinesOwned(products: Products, tenant: Id, lines: seq<Sales.SaleLine>) {
    forall l :: l in lines ==> Owned(products, l.product, tenant)
  }

  /** The item of a line: as requested, at today's average, with nothing returned. */
  ghost predicate ItemFor(item: OrderItem, line: Sales.SaleLine, average: int) {
    && item.product == line.product && item.quantity == line.quantity && item.unitPrice == line.unitPrice
    && item.cogs == average * line.quantity && item.profitMargin == (line.unitPrice - average) * line.quantity
    && item.returned == 0
  }

  /** The order a sales call inserts: one item for each line, frozen at the averages of `products`. */
  ghost predicate OrderFor(products: Products, o: SalesOrder, tenant: Id, number: string, status: SalesStatus, now: int,
                           lines: seq<Sales.SaleLine>) {
    && o.tenant == tenant && o.number == number && o.status == status && o.createdAt == now
    && |o.items| == |lines|
    && forall k :: 0 <= k < |lines| ==>
         lines[k].product in products && ItemFor(o.items[k], lines[k], products[lines[k].product].averageCost)
  }

  /** No order has the key, and none of the tenant's has the number. */
  ghost predicate SaleKeysFree(s: State, id: Id, tenant: Id, number: string) {
    id !in s.sales && forall x :: x in s.sales && s.sales[x].tenant == tenant ==> s.sales[x].number != number
  }

  lemma CoveredIsOwned(products: Products, tenant: Id, lines: seq<Sales.SaleLine>)
    requires Covered(products, tenant, Sales.Requested(lines))
    ensures LinesOwned(products, tenant, lines)
  {
    forall l | l in lines ensures Owned(products, l.product, tenant) {
      var k :| 0 <= k < |lines| && lines[k] == l;
      assert Sales.Requested(lines)[k] in Sales.Requested(lines);
    }
  }

  /** A direct sale: it commits if and only if its keys are free and every product covers its summed demand;
      it then inserts the order and takes exactly that demand out. */
  lemma DirectSaleOutcome(s: State, tenant: Id, id: Id, number: string, now: int, lines: seq<Sales.SaleLine>)
    ensures var r := Try(s, CreateSale(tenant, id, number, now, lines));
            var moves := Sales.Requested(lines);
            && (r == Failed(NotFoundException) <==> !LinesOwned(s.products, tenant, lines))
            && (r == Failed(UniqueViolation) <==>
                LinesOwned(s.products, tenant, lines) && !SaleKeysFree(s, id, tenant, number))
            && (r.Done? <==> SaleKeysFree(s, id, tenant, number) && Covered(s.products, tenant, moves))
            && (r.Done? ==>
                  && id in r.value.sales && r.value.sales == s.sales[id := r.value.sales[id]]
                  && OrderFor(s.products, r.value.sales[id], tenant, number, SalesCompleted, now, lines)
                  && StockShifted(s.products, r.value.products, moves, -1))
            && (r.Failed? ==> r.error in {NotFoundException, UniqueViolation, BadRequestException})
  {
    BuildItemsEffect(s.products, tenant, lines);
    StockOutShift(s.products, tenant, Sales.Requested(lines));
    StockOutSucceeds(s.products, tenant, Sales.Requested(lines));
    if Covered(s.products, tenant, Sales.Requested(lines)) { CoveredIsOwned(s.products, tenant, lines); }
  }

  /** A pending sale looks at no stock: its products need only exist in the tenant. */
  lemma PendingSaleOutcome(s: State, tenant: Id, id: Id, number: string, now: int, lines: seq<Sales.SaleLine>)
    ensures var r := Try(s, CreatePendingSale(tenant, id, number, now, lines));
            && (r.Done? <==> LinesOwned(s.products, tenant, lines) && SaleKeysFree(s, id, tenant, number))
            && (r.Done? ==>
                  && id in r.value.sales && r.value == s.(sales := s.sales[id := r.value.sales[id]])
                  && OrderFor(s.products, r.value.sales[id], tenant, number, SalesPending, now, lines))
            && (r.Failed? ==> r.error == if LinesOwned(s.products, tenant, lines) then UniqueViolation
                else NotFoundException)
  {
    BuildItemsEffect(s.products, tenant, lines);
  }

  /** Filing a sale leaves ownership of products as it was. */
  lemma SaleKeepsOwners(s: State, op: Op)
    requires (op.CreateSale? || op.CreatePendingSale?) && Try(s, op).Done?
    ensures forall p, t :: Owned(Step(s, op).products, p, t) <==> Owned(s.products, p, t)
    ensures op.id in Step(s, op).sales && Step(s, op).sales == s.sales[op.id := Step(s, op).sales[op.id]]
    ensures Step(s, op).sales[op.id].tenant == op.tenant && Step(s, op).sales[op.id].number == op.number
  {
    if op.CreateSale? {
      DirectSaleOutcome(s, op.tenant, op.id, op.number, op.now, op.lines);
    } else {
      PendingSaleOutcome(s, op.tenant, op.id, op.number, op.now, op.lines);
    }
  }

  lemma KeysAfterSale(s: State, s': State, id: Id, o: SalesOrder, next: Id, tenant: Id, number: string)
    requires id !in s.sales && s'.sales == s.sales[id := o]
    ensures SaleKeysFree(s', next, tenant, number) <==>
              SaleKeysFree(s, next, tenant, number) && next != id && !(tenant == o.tenant && number == o.number)
  {
    if SaleKeysFree(s', next, tenant, number) {
      forall x | x in s.sales && s.sales[x].tenant == tenant ensures s.sales[x].number != number {
        assert x in s'.sales && s'.sales[x] == s.sales[x];
      }
      assert id in s'.sales;
    }
  }

  /** After a committed sale, direct or pending, the next one of whatever tenant is refused for its keys exactly when it
      repeats the key of an order or the number of one of its tenant's, the sale just made included. */
  lemma NextSaleRefusedIffRepeated(s: State, first: Op, next: Op)
    requires (first.CreateSale? || first.CreatePendingSale?) && Try(s, first).Done?
    requires next.CreateSale? || next.CreatePendingSale?
    requires forall l :: l in next.lines ==> Owned(s.products, l.product, next.tenant)
    ensures Try(Step(s, first), next) == Failed(UniqueViolation) <==>
              || next.id == first.id || next.id in s.sales
              || (next.tenant == first.tenant && next.number == first.number)
              || (exists x :: x in s.sales && s.sales[x].tenant == next.tenant && s.sales[x].number == next.number)
  {
    var s' := Step(s, first);
    SaleKeepsOwners(s, first);
    SaleWasNew(s, first);
    KeysAfterSale(s, s', first.id, s'.sales[first.id], next.id, next.tenant, next.number);
    if next.CreateSale? {
      DirectSaleOutcome(s', next.tenant, next.id, next.number, next.now, next.lines);
    } else {
      PendingSaleOutcome(s', next.tenant, next.id, next.number, next.now, next.lines);
    }
  }

  lemma SaleWasNew(s: State, op: Op)
    requires (op.CreateSale? || op.CreatePendingSale?) && Try(s, op).Done?
    ensures op.id !in s.sales
  {
  }

  /** Completing commits if and only if the order is PENDING and every product covers its summed demand. */
  lemma CompletionOutcome(s: State, tenant: Id, id: Id)
    ensures var op := CompleteSale(tenant, id);
            && (Try(s, op).Done? <==>
                  && id in s.sales && s.sales[id].tenant == tenant && s.sales[id].status == SalesPending
                  && Covered(s.products, tenant, Sold(s.sales[id].items)))
            && (Try(s, op).Done? ==> StockShifted(s.products, Step(s, op).products, Sold(s.sales[id].items), -1))
            && (Try(s, op).Failed? ==> Step(s, op) == s && Try(s, op).error == BadRequestException)
  {
    if id in s.sales {
      StockOutShift(s.products, tenant, Sold(s.sales[id].items));
      StockOutSucceeds(s.products, tenant, Sold(s.sales[id].items));
    }
  }

  predicate OwnSale(s: State, tenant: Id, id: Id) {
    id in s.sales && s.sales[id].tenant == tenant
  }

  /** The units of a product that a sale has taken out of stock: its lines once it is COMPLETED, none before. */
  function TakenOut(o: SalesOrder, p: Id): nat {
    if o.status == SalesCompleted then Units(Sold(o.items), p) else 0
  }

  /** Cancelling gives back what the sale took out. */
  ghost predicate CancellingReverses(s: State, tenant: Id, id: Id)
    requires id in s.sales
  {
    forall p :: Stock(Step(s, CancelSale(tenant, id)).products, p) == Stock(s.products, p) + TakenOut(s.sales[id], p)
  }

  /** Exactly: cancelling a sale reverses the stock it took out if and only if it took out none, because it is not
      COMPLETED or has no line. Only a PENDING order is cancelled; a COMPLETED one is turned away. */
  lemma SaleCancellationOutcome(s: State, tenant: Id, id: Id)
    ensures var r := Try(s, CancelSale(tenant, id));
            && (r.Done? <==> OwnSale(s, tenant, id) && s.sales[id].status == SalesPending)
            && (r.Done? ==> r.value == s.(sales := s.sales[id := s.sales[id].(status := SalesCancelled)]))
            && (r.Failed? ==> r.error == if OwnSale(s, tenant, id) then BadRequestException else NotFoundException)
    ensures id in s.sales ==>
              (CancellingReverses(s, tenant, id) <==>
               !(s.sales[id].status == SalesCompleted && s.sales[id].items != []))
  {
    if id in s.sales && s.sales[id].status == SalesCompleted && s.sales[id].items != [] {
      var moves, p := Sold(s.sales[id].items), s.sales[id].items[0].product;
      assert moves[0] in moves;
      UnitsPositive(moves, p);
      assert TakenOut(s.sales[id], p) > 0 && Step(s, CancelSale(tenant, id)) == s;
    } else if id in s.sales && s.sales[id].status == SalesCompleted {
      forall p ensures TakenOut(s.sales[id], p) == 0 {
        UnitsPositive(Sold(s.sales[id].items), p);
      }
    }
  }

  // ------------------------------------------------------------------ adjustments

  /** The change of stock a manual adjustment asks for. */
  function Delta(change: Change, kind: TransactionType): int {
    var size: int := if change < 0 then -(change as int) else change;
    match kind
    case IN => size
    case OUT => -size
    case ADJUSTMENT => change
    case RETURN => change
  }

  /** A manual adjustment commits if and only if the product is the tenant's and a decrease leaves it at or above
      zero; it then changes that stock by what was asked and appends one row with the absolute quantity. */
  lemma AdjustmentOutcome(s: State, tenant: Id, product: Id, change: Change, kind: TransactionType,
                          reference: Option<string>)
    ensures var r := Try(s, AdjustStock(tenant, product, change, kind, reference));
            var delta := Delta(change, kind);
            && (r.Done? <==>
                Owned(s.products, product, tenant) && (delta > 0 || s.products[product].stock + delta >= 0))
            && (r.Done? ==>
                  && r.value.products
                      == s.products[product := s.products[product].(stock := s.products[product].stock + delta)]
                  && |r.value.ledger| == |s.ledger| + 1
                  && var row := r.value.ledger[|s.ledger|];
                  && r.value.ledger == s.ledger + [row]
                  && row.kind == kind && row.product == product && row.tenant == tenant && row.reference == reference
                  && row.quantity == if delta < 0 then -delta else delta)
            && (r.Failed? ==> r.error == if delta < 0 then BadRequestException else RecordNotFound)
  {
  }

  // ------------------------------------------------------------------ purchases

  predicate OwnPurchase(s: State, tenant: Id, id: Id) {
    id in s.purchases && s.purchases[id].tenant == tenant
  }

  /** No order has the key, and none of the tenant's has the number. */
  ghost predicate PurchaseKeysFree(s: State, id: Id, tenant: Id, number: string) {
    && id !in s.purchases
    && forall x :: x in s.purchases && s.purchases[x].tenant == tenant ==> s.purchases[x].number != number
  }

  ghost predicate ItemsExist(products: Products, items: seq<PurchaseItem>) {
    forall i :: i in items ==> i.product in products
  }

  /** A direct purchase commits if and only if its keys are free and every product is the tenant's; a product that
      does not exist and one of another tenant fail differently. */
  lemma DirectPurchaseOutcome(s: State, tenant: Id, id: Id, number: string, supplier: Id, items: seq<PurchaseItem>)
    ensures var r := Try(s, CreatePurchase(tenant, id, number, supplier, items));
            var price := SumOver(items, Purchasing.ItemCost);
            && (r.Done? <==> PurchaseKeysFree(s, id, tenant, number) && ItemsOwned(s.products, tenant, items))
            && (r.Failed? ==>
                  r.error == if !PurchaseKeysFree(s, id, tenant, number) then UniqueViolation
                             else if !ItemsExist(s.products, items) then ForeignKeyViolation
                             else UndefinedProduct)
            && (r.Done? ==>
                  && r.value.purchases
                      == s.purchases[id := PurchaseOrder(tenant, number, supplier, PurchaseReceived, items, price)]
                  && Received(s.products, s.products, r.value.products, items))
  {
    ReceiveEffect(s.products, s.products, tenant, items);
    if ItemsOwned(s.products, tenant, items) {
      assert ItemsExist(s.products, items);
    }
  }

  /** A pending purchase asks only that its products exist, in whatever tenant: it may then never be receivable. */
  lemma PendingPurchaseOutcome(s: State, tenant: Id, id: Id, number: string, supplier: Id, items: seq<PurchaseItem>)
    ensures var r := Try(s, CreatePendingPurchase(tenant, id, number, supplier, items));
            && (r.Done? <==> PurchaseKeysFree(s, id, tenant, number) && ItemsExist(s.products, items))
            && (r.Done? ==>
                  r.value == s.(purchases :=
                                s.purchases[id := PurchaseOrder(tenant, number, supplier, PurchasePending, items,
                                                                             SumOver(items, Purchasing.ItemCost))]))
            && (r.Done? ==>
                  (Try(r.value, ReceivePurchase(tenant, id)).Done? <==> ItemsOwned(s.products, tenant, items)))
            && (r.Failed? ==> r.error == if PurchaseKeysFree(s, id, tenant, number) then ForeignKeyViolation
                else UniqueViolation)
  {
    ReceiveEffect(s.products, s.products, tenant, items);
  }

  /** Receiving: the order must be the tenant's and not RECEIVED, and all its products the tenant's too; a line
      with a foreign product makes the order unreceivable. */
  lemma ReceiptOutcome(s: State, tenant: Id, id: Id)
    ensures var r := Try(s, ReceivePurchase(tenant, id));
            && (r == Failed(NotFoundException) <==> !OwnPurchase(s, tenant, id))
            && (r == Failed(BadRequestException) <==>
                OwnPurchase(s, tenant, id) && s.purchases[id].status == PurchaseReceived)
            && (r == Failed(UndefinedProduct) <==>
                  && OwnPurchase(s, tenant, id) && s.purchases[id].status != PurchaseReceived
                  && !ItemsOwned(s.products, tenant, s.purchases[id].items))
            && (r.Failed? ==> r.error in {NotFoundException, BadRequestException, UndefinedProduct})
            && (r.Done? ==>
                  && r.value.purchases == s.purchases[id := s.purchases[id].(status := PurchaseReceived)]
                  && Received(s.products, s.products, r.value.products, s.purchases[id].items))
  {
    if OwnPurchase(s, tenant, id) {
      ReceiveEffect(s.products, s.products, tenant, s.purchases[id].items);
    }
  }

  /** Only a PENDING purchase can be cancelled, and cancelling it does not settle it: it can still be received exactly
      when it could before. */
  lemma PurchaseCancellationOutcome(s: State, tenant: Id, id: Id)
    ensures var r := Try(s, CancelPurchase(tenant, id));
            && (r.Done? <==> OwnPurchase(s, tenant, id) && s.purchases[id].status == PurchasePending)
            && (r.Done? ==>
                r.value == s.(purchases := s.purchases[id := s.purchases[id].(status := PurchaseCancelled)]))
            && (r.Done? ==>
                (Try(r.value, ReceivePurchase(tenant, id)).Done? <==> Try(s, ReceivePurchase(tenant, id)).Done?))
            && (r.Done? ==>
                (Try(s, ReceivePurchase(tenant, id)).Done? <==> ItemsOwned(s.products, tenant, s.purchases[id].items)))
            && (r.Failed? ==> r.error == if OwnPurchase(s, tenant, id) then BadRequestException else NotFoundException)
  {
    if OwnPurchase(s, tenant, id) {
      ReceiveEffect(s.products, s.products, tenant, s.purchases[id].items);
    }
  }

  // ------------------------------------------------------------------ returns

  /** Every order item names a product of its order's tenant. */
  ghost predicate ItemsStocked(s: State) {
    forall id :: id in s.sales ==>
      forall i :: i in s.sales[id].items ==> Owned(s.products, i.product, s.sales[id].tenant)
  }

  lemma NewItemsStocked(s: State, op: Op)
    requires op.CreateSale? || op.CreatePendingSale?
    requires Try(s, op).Done?
    ensures op.id in Step(s, op).sales && Step(s, op).sales == s.sales[op.id := Step(s, op).sales[op.id]]
    ensures forall i :: i in Step(s, op).sales[op.id].items ==>
              Owned(s.products, i.product, Step(s, op).sales[op.id].tenant)
  {
    BuildItemsEffect(s.products, op.tenant, op.lines);
    var items := Sales.BuildItems(s.products, op.tenant, op.lines).value;
    assert Step(s, op).sales[op.id].items == items;
    forall i | i in items ensures Owned(s.products, i.product, op.tenant) {
      var k :| 0 <= k < |items| && items[k] == i;
      assert op.lines[k] in op.lines;
    }
  }

  lemma KeptItemsStocked(s: State, s': State, id: Id)
    requires ItemsStocked(s) && OrdersAdvance(s, s') && id in s.sales
    requires forall p :: p in s.products ==> p in s'.products && s'.products[p].tenant == s.products[p].tenant
    ensures forall i :: i in s'.sales[id].items ==> Owned(s'.products, i.product, s'.sales[id].tenant)
  {
  }

  lemma OnlySalesCallsAddOrders(c: Config, e: Event)
    requires !(e.Atomic? && (e.op.CreateSale? || e.op.CreatePendingSale?) && Try(c.state, e.op).Done?)
    ensures Next(c, e).state.sales.Keys == c.state.sales.Keys
  {
    match e
    case Atomic(op) => StepAddsNoOrder(c.state, op);
    case CommitReturn(k) =>
      if k in c.returning { CommitReturnAddsNoOrder(c.state, c.returning[k].number, c.returning[k].ticket); }
    case CommitReceive(k) =>
      if k in c.receiving { assert Next(c, e).state.sales == c.state.sales; }
    case _ =>
  }

  lemma NextKeepsItemsStocked(c: Config, e: Event)
    requires ItemsStocked(c.state) && TicketsSound(c)
    ensures ItemsStocked(Next(c, e).state)
  {
    NextMoves(c, e);
    NextAdvances(c, e);
    var s, s' := c.state, Next(c, e).state;
    var creates := e.Atomic? && (e.op.CreateSale? || e.op.CreatePendingSale?) && Try(c.state, e.op).Done?;
    if creates { NewItemsStocked(s, e.op); } else { OnlySalesCallsAddOrders(c, e); }
    forall id | id in s'.sales
      ensures forall i :: i in s'.sales[id].items ==> Owned(s'.products, i.product, s'.sales[id].tenant)
    {
      if id in s.sales { KeptItemsStocked(s, s', id); }
    }
  }

  /** Over every interleaving, order items keep naming products of their own tenant. */
  lemma {:induction false} ItemsStayStocked(c: Config, es: seq<Event>)
    requires ItemsStocked(c.state) && TicketsSound(c)
    ensures ItemsStocked(Play(c, es).state)
    decreases |es|
  {
    if es != [] {
      NextKeepsItemsStocked(c, es[0]);
      NextKeepsTickets(c, es[0]);
      ItemsStayStocked(Next(c, es[0]), es[1..]);
    }
  }

  /** Every requested line names an item of the order and asks for no more than is left of it. */
  ghost predicate LinesAcceptable(items: seq<OrderItem>, lines: seq<Returns.ReturnLine>) {
    forall l :: l in lines ==> l.item < |items| && l.quantity <= items[l.item].quantity - items[l.item].returned
  }

  lemma {:induction false} CheckLinesOutcome(items: seq<OrderItem>, lines: seq<Returns.ReturnLine>)
    ensures var r := Returns.CheckLines(items, lines);
            (r.Done? <==> LinesAcceptable(items, lines)) && (r.Failed? ==> r.error == BadRequestException)
  {
    if lines != [] {
      assert lines == [lines[0]] + lines[1..];
      assert lines[0] in lines;
      CheckLinesOutcome(items, lines[1..]);
    }
  }

  ghost predicate ReturnAcceptable(s: State, tenant: Id, id: Id, lines: seq<Returns.ReturnLine>) {
    OwnSale(s, tenant, id) && s.sales[id].status == SalesCompleted && LinesAcceptable(s.sales[id].items, lines)
  }

  /** Reading and checking, before the transaction. */
  lemma ReadReturnOutcome(s: State, tenant: Id, id: Id, lines: seq<Returns.ReturnLine>)
    ensures var t := Returns.ReadReturn(s, tenant, id, lines);
            && (t.Done? <==> ReturnAcceptable(s, tenant, id, lines))
            && (t.Failed? ==> t.error == if OwnSale(s, tenant, id) then BadRequestException else NotFoundException)
  {
    if OwnSale(s, tenant, id) && s.sales[id].status == SalesCompleted {
      CheckLinesOutcome(s.sales[id].items, lines);
    }
  }

  /** The transaction, on what was read: in a stocked state it never misses an order item or a product. */
  lemma CommitOfReadOutcome(s: State, tenant: Id, number: string, id: Id, lines: seq<Returns.ReturnLine>)
    requires ItemsStocked(s) && Returns.ReadReturn(s, tenant, id, lines).Done?
    ensures var r := Returns.CommitReturn(s, number, Returns.ReadReturn(s, tenant, id, lines).value);
            && (r.Done? <==> !Returns.NumberTaken(s.salesReturns, tenant, number))
            && (r.Failed? ==> r.error == UniqueViolation)
  {
    var items, t := s.sales[id].items, Returns.ReadReturn(s, tenant, id, lines).value;
    CheckedLinesAgree(items, lines);
    MarkReturnedEffect(items, t.lines);
    PutBackEffect(s.products, tenant, Brought(t.lines));
    forall m | m in Brought(t.lines) ensures Owned(s.products, m.product, tenant) {
      var k :| 0 <= k < |t.lines| && Brought(t.lines)[k] == m;
      assert LineAgrees(items, t.lines[k]) && items[t.lines[k].item] in items;
    }
  }

  /** A return that passes validation in a reachable state always commits, but for a return number already used:
      its transaction never misses an order item or a product. */
  lemma ReturnOutcome(s: State, tenant: Id, number: string, id: Id, lines: seq<Returns.ReturnLine>)
    requires ItemsStocked(s)
    ensures var r := Try(s, CreateReturn(tenant, number, id, lines));
            var taken := exists x :: x in s.salesReturns && x.tenant == tenant && x.number == number;
            && (r.Done? <==> ReturnAcceptable(s, tenant, id, lines) && !taken)
            && (r.Failed? ==>
                  r.error == if !OwnSale(s, tenant, id) then NotFoundException
                             else if !ReturnAcceptable(s, tenant, id, lines) then BadRequestException
                             else UniqueViolation)
  {
    ReadReturnOutcome(s, tenant, id, lines);
    if Returns.ReadReturn(s, tenant, id, lines).Done? {
      CommitOfReadOutcome(s, tenant, number, id, lines);
    }
  }
}
