/** Tenants do not see each other: a run restricted to one tenant is that tenant's run. */
module Isolation {
  import opened Sums
  import opened Store
  import opened Machine
  import opened Orders
  import Purchasing
  import Sales
  import Returns
  import Inventory
  import BulkInputs

  // ------------------------------------------------------------------ one tenant's rows

  function OwnProducts(m: Products, t: Id): Products {
    map id | id in m && m[id].tenant == t :: m[id]
  }

  function OwnSales(m: map<Id, SalesOrder>, t: Id): map<Id, SalesOrder> {
    map id | id in m && m[id].tenant == t :: m[id]
  }

  function OwnPurchases(m: map<Id, PurchaseOrder>, t: Id): map<Id, PurchaseOrder> {
    map id | id in m && m[id].tenant == t :: m[id]
  }

  function OwnReturns(rs: seq<SalesReturn>, t: Id): seq<SalesReturn> {
    if rs == [] then [] else (if rs[0].tenant == t then [rs[0]] else []) + OwnReturns(rs[1..], t)
  }

  function OwnRows(ledger: seq<Entry>, t: Id): seq<Entry> {
    if ledger == [] then [] else (if ledger[0].tenant == t then [ledger[0]] else []) + OwnRows(ledger[1..], t)
  }

  /** The store as one tenant sees it, ledger order included. */
  function View(s: State, t: Id): State {
    State(OwnProducts(s.products, t), OwnSales(s.sales, t), OwnPurchases(s.purchases, t),
          OwnReturns(s.salesReturns, t), OwnRows(s.ledger, t))
  }

  lemma {:induction false} OwnRowsConcat(a: seq<Entry>, b: seq<Entry>, t: Id)
    ensures OwnRows(a + b, t) == OwnRows(a, t) + OwnRows(b, t)
  {
    if a == [] {
      assert a + b == b;
    } else {
      assert (a + b)[1..] == a[1..] + b;
      OwnRowsConcat(a[1..], b, t);
      var head := if a[0].tenant == t then [a[0]] else [];
      assert head + (OwnRows(a[1..], t) + OwnRows(b, t)) == (head + OwnRows(a[1..], t)) + OwnRows(b, t);
    }
  }

  lemma {:induction false} OwnReturnsSnoc(a: seq<SalesReturn>, r: SalesReturn, t: Id)
    ensures OwnReturns(a + [r], t) == OwnReturns(a, t) + if r.tenant == t then [r] else []
  {
    if a == [] {
      assert a + [r] == [r];
    } else {
      assert (a + [r])[1..] == a[1..] + [r];
      OwnReturnsSnoc(a[1..], r, t);
      var head := if a[0].tenant == t then [a[0]] else [];
      var tail := if r.tenant == t then [r] else [];
      assert head + (OwnReturns(a[1..], t) + tail) == (head + OwnReturns(a[1..], t)) + tail;
    }
  }

  lemma {:induction false} RowsAreOwn(kind: TransactionType, moves: seq<Move>, tenant: Id, reference: string, t: Id)
    ensures OwnRows(Rows(kind, moves, tenant, reference), t) == if tenant == t then Rows(kind, moves, tenant, reference)
              else []
    decreases |moves|
  {
    if moves != [] {
      var rows := Rows(kind, moves, tenant, reference);
      assert rows[1..] == Rows(kind, moves[1..], tenant, reference);
      RowsAreOwn(kind, moves[1..], tenant, reference, t);
      assert rows == [rows[0]] + rows[1..];
    }
  }

  lemma AppendOwnRows(ledger: seq<Entry>, kind: TransactionType, moves: seq<Move>, tenant: Id, reference: string, t: Id)
    ensures OwnRows(ledger + Rows(kind, moves, tenant, reference), t)
         == OwnRows(ledger, t) + if tenant == t then Rows(kind, moves, tenant, reference) else []
  {
    OwnRowsConcat(ledger, Rows(kind, moves, tenant, reference), t);
    RowsAreOwn(kind, moves, tenant, reference, t);
  }

  // ------------------------------------------------------------------ the loops look at one tenant only

  /** A change to the products is local to tenant t: it is the same change on t's rows, and nobody else's. */
  ghost predicate Local(products: Products, full: Attempt<Products>, own: Attempt<Products>, t: Id) {
    && (full.Done? <==> own.Done?)
    && (full.Failed? ==> own.error == full.error)
    && (full.Done? ==> own.value == OwnProducts(full.value, t))
    && (full.Done? ==> forall u :: u != t ==> OwnProducts(full.value, u) == OwnProducts(products, u))
  }

  lemma OwnUpdate(products: Products, id: Id, p: Product, t: Id)
    requires Owned(products, id, t) && p.tenant == t
    ensures OwnProducts(products[id := p], t) == OwnProducts(products, t)[id := p]
    ensures forall u :: u != t ==> OwnProducts(products[id := p], u) == OwnProducts(products, u)
  {
  }

  lemma OwnSaleUpdate(sales: map<Id, SalesOrder>, id: Id, o: SalesOrder)
    requires id in sales ==> sales[id].tenant == o.tenant
    ensures OwnSales(sales[id := o], o.tenant) == OwnSales(sales, o.tenant)[id := o]
    ensures forall u :: u != o.tenant ==> OwnSales(sales[id := o], u) == OwnSales(sales, u)
  {
  }

  lemma OwnPurchaseUpdate(purchases: map<Id, PurchaseOrder>, id: Id, o: PurchaseOrder)
    requires id in purchases ==> purchases[id].tenant == o.tenant
    ensures OwnPurchases(purchases[id := o], o.tenant) == OwnPurchases(purchases, o.tenant)[id := o]
    ensures forall u :: u != o.tenant ==> OwnPurchases(purchases[id := o], u) == OwnPurchases(purchases, u)
  {
  }

  lemma {:induction false} StockOutLocal(products: Products, t: Id, moves: seq<Move>)
    ensures Local(products, Sales.StockOut(products, t, moves), Sales.StockOut(OwnProducts(products, t), t, moves), t)
    decreases |moves|
  {
    if moves != [] && Owned(products, moves[0].product, t) && products[moves[0].product].stock >= moves[0].quantity {
      var taken := Sales.TakeOut(products, moves[0]);
      OwnUpdate(products, moves[0].product, taken[moves[0].product], t);
      StockOutLocal(taken, t, moves[1..]);
      assert OwnProducts(taken, t) == Sales.TakeOut(OwnProducts(products, t), moves[0]);
    }
  }

  lemma {:induction false} PutBackLocal(products: Products, t: Id, moves: seq<Move>)
    ensures Local(products, Returns.PutBack(products, t, moves), Returns.PutBack(OwnProducts(products, t), t, moves), t)
    decreases |moves|
  {
    if moves != [] && Owned(products, moves[0].product, t) {
      var after := Returns.PutIn(products, moves[0]);
      OwnUpdate(products, moves[0].product, after[moves[0].product], t);
      PutBackLocal(after, t, moves[1..]);
      assert OwnProducts(after, t) == Returns.PutIn(OwnProducts(products, t), moves[0]);
    }
  }

  lemma {:induction false} ReceiveLocal(snapshot: Products, products: Products, t: Id, items: seq<PurchaseItem>)
    ensures Local(products, Purchasing.ReceiveItems(snapshot, products, t, items),
                  Purchasing.ReceiveItems(OwnProducts(snapshot, t), OwnProducts(products, t), t, items), t)
    decreases |items|
  {
    if items != [] && Owned(snapshot, items[0].product, t) && Owned(products, items[0].product, t) {
      var after := Purchasing.Receive(snapshot, products, items[0]);
      OwnUpdate(products, items[0].product, after[items[0].product], t);
      ReceiveLocal(snapshot, after, t, items[1..]);
      assert OwnProducts(after, t) == Purchasing.Receive(OwnProducts(snapshot, t), OwnProducts(products, t), items[0]);
    }
  }

  lemma {:induction false} BuildItemsLocal(products: Products, t: Id, lines: seq<Sales.SaleLine>)
    ensures Sales.BuildItems(products, t, lines) == Sales.BuildItems(OwnProducts(products, t), t, lines)
  {
    if lines != [] {
      BuildItemsLocal(products, t, lines[1..]);
    }
  }

  lemma SkuTakenLocal(products: Products, t: Id, sku: string)
    ensures Inventory.SkuTaken(products, t, sku) <==> Inventory.SkuTaken(OwnProducts(products, t), t, sku)
  {
    if Inventory.SkuTaken(products, t, sku) {
      var id :| id in products && products[id].tenant == t && products[id].sku == sku;
      assert id in OwnProducts(products, t);
    }
  }

  /** No generated product key belongs to another tenant. */
  ghost predicate FreshLines(products: Products, t: Id, lines: seq<Inventory.BulkLine>) {
    forall l :: l in lines && l.id in products ==> products[l.id].tenant == t
  }

  lemma {:induction false} BulkOthers(products: Products, t: Id, lines: seq<Inventory.BulkLine>, u: Id)
    requires u != t
    ensures OwnProducts(Inventory.BulkInput(products, t, lines).products, u) == OwnProducts(products, u)
    decreases |lines|
  {
    if lines != [] {
      if Inventory.SkuTaken(products, t, lines[0].sku) {
        BulkOthers(products, t, lines[1..], u);
      } else if lines[0].id !in products {
        BulkOthers(products[lines[0].id := Inventory.Opening(t, lines[0])], t, lines[1..], u);
      }
    }
  }

  lemma {:induction false} BulkOwn(products: Products, t: Id, lines: seq<Inventory.BulkLine>)
    requires FreshLines(products, t, lines)
    ensures var full := Inventory.BulkInput(products, t, lines);
            Inventory.BulkInput(OwnProducts(products, t), t, lines) == full.(products := OwnProducts(full.products, t))
    decreases |lines|
  {
    if lines != [] {
      assert lines[0] in lines && forall l :: l in lines[1..] ==> l in lines;
      SkuTakenLocal(products, t, lines[0].sku);
      if Inventory.SkuTaken(products, t, lines[0].sku) {
        BulkOwn(products, t, lines[1..]);
      } else if lines[0].id !in products {
        var after := products[lines[0].id := Inventory.Opening(t, lines[0])];
        assert OwnProducts(after, t) == OwnProducts(products, t)[lines[0].id := Inventory.Opening(t, lines[0])];
        BulkOwn(after, t, lines[1..]);
      }
    }
  }

  // ------------------------------------------------------------------ a step and the other tenants

  /** What a call of tenant t commits leaves every other tenant's view alone. */
  lemma StockOutOthers(s: State, t: Id, number: string, moves: seq<Move>, u: Id)
    requires u != t
    ensures var r := Sales.ProcessStockOut(s, t, number, moves); r.Done? ==> View(r.value, u) == View(s, u)
  {
    StockOutLocal(s.products, t, moves);
    AppendOwnRows(s.ledger, OUT, moves, t, number, u);
  }

  lemma ReceiptOthers(s: State, t: Id, number: string, items: seq<PurchaseItem>, u: Id)
    requires u != t
    ensures var r := Purchasing.ProcessReceivedItems(s, t, number, items); r.Done? ==> View(r.value, u) == View(s, u)
  {
    ReceiveLocal(s.products, s.products, t, items);
    AppendOwnRows(s.ledger, IN, Bought(items), t, number, u);
  }

  /** A committed return, table by table. */
  lemma CommitReturnShape(s: State, number: string, t: Returns.ReturnTicket)
    requires Returns.CommitReturn(s, number, t).Done?
    ensures var s' := Returns.CommitReturn(s, number, t).value;
            && !Returns.NumberTaken(s.salesReturns, t.tenant, number)
            && t.order in s.sales && s.sales[t.order].tenant == t.tenant
            && t.order in s'.sales && s'.sales == s.sales[t.order := s'.sales[t.order]]
                && s'.sales[t.order].tenant == t.tenant
            && Returns.PutBack(s.products, t.tenant, Brought(t.lines)) == Done(s'.products)
            && s'.purchases == s.purchases
            && s'.salesReturns
                == s.salesReturns
                    + [SalesReturn(t.tenant, number, t.order, SumOver(t.lines, Returns.RefundOf), t.lines)]
            && s'.ledger == s.ledger + Rows(RETURN, Brought(t.lines), t.tenant, number)
  {
  }

  lemma ReturnOthers(s: State, number: string, ticket: Returns.ReturnTicket, u: Id)
    requires u != ticket.tenant
    ensures View(Commit(s, Returns.CommitReturn(s, number, ticket)), u) == View(s, u)
  {
    var r := Returns.CommitReturn(s, number, ticket);
    if r.Done? {
      CommitReturnShape(s, number, ticket);
      OwnSaleUpdate(s.sales, ticket.order, r.value.sales[ticket.order]);
      PutBackLocal(s.products, ticket.tenant, Brought(ticket.lines));
      AppendOwnRows(s.ledger, RETURN, Brought(ticket.lines), ticket.tenant, number, u);
      OwnReturnsSnoc(s.salesReturns, r.value.salesReturns[|s.salesReturns|], u);
    }
  }

  lemma CommitReceiveOthers(s: State, ticket: Purchasing.ReceiveTicket, u: Id)
    requires u != ticket.tenant && ReceiptSound(s, ticket)
    ensures View(Commit(s, Purchasing.CommitReceive(s, ticket)), u) == View(s, u)
  {
    var o := s.purchases[ticket.order];
    var received := s.(purchases := s.purchases[ticket.order := o.(status := PurchaseReceived)]);
    OwnPurchaseUpdate(s.purchases, ticket.order, o.(status := PurchaseReceived));
    ReceiptOthers(received, ticket.tenant, o.number, ticket.items, u);
  }

  lemma AdjustedViews(s: State, product: Id, stock: int, row: Entry, u: Id)
    requires Owned(s.products, product, row.tenant)
    ensures var s' := Inventory.SetStock(s, product, stock, row);
            if u == row.tenant then View(s', u) == Inventory.SetStock(View(s, u), product, stock, row)
                else View(s', u) == View(s, u)
  {
    OwnRowsConcat(s.ledger, [row], u);
    assert [row][1..] == [] && OwnRows([row], u) == if row.tenant == u then [row] else [];
    OwnUpdate(s.products, product, s.products[product].(stock := stock), row.tenant);
  }

  lemma AdjustOthers(s: State, op: Op, u: Id)
    requires op.AdjustStock? && u != op.tenant
    ensures View(Step(s, op), u) == View(s, u)
  {
    if Try(s, op).Done? {
      var row := Entry(op.kind, op.product, op.tenant, Inventory.Magnitude(op.change), op.reference);
      AdjustedViews(s, op.product, Step(s, op).products[op.product].stock, row, u);
    }
  }

  lemma CreateSaleOthers(s: State, op: Op, u: Id)
    requires op.CreateSale? && Try(s, op).Done? && u != op.tenant
    ensures View(Step(s, op), u) == View(s, u)
  {
    var items := Sales.BuildItems(s.products, op.tenant, op.lines).value;
    var o := Sales.NewOrder(op.tenant, op.number, SalesCompleted, op.now, items);
    var inserted := Sales.InsertOrder(s, op.id, o).value;
    OwnSaleUpdate(s.sales, op.id, o);
    StockOutOthers(inserted, op.tenant, op.number, Sales.Requested(op.lines), u);
  }

  lemma CompleteSaleOthers(s: State, op: Op, u: Id)
    requires op.CompleteSale? && Try(s, op).Done? && u != op.tenant
    ensures View(Step(s, op), u) == View(s, u)
  {
    var o := s.sales[op.id];
    var completed := s.(sales := s.sales[op.id := o.(status := SalesCompleted)]);
    OwnSaleUpdate(s.sales, op.id, o.(status := SalesCompleted));
    StockOutOthers(completed, op.tenant, o.number, Sold(o.items), u);
  }

  lemma SaleOthers(s: State, op: Op, u: Id)
    requires (op.CreateSale? || op.CreatePendingSale? || op.CompleteSale? || op.CancelSale?) && u != op.tenant
    ensures View(Step(s, op), u) == View(s, u)
  {
    if Try(s, op).Done? {
      if op.CreateSale? {
        CreateSaleOthers(s, op, u);
      } else if op.CompleteSale? {
        CompleteSaleOthers(s, op, u);
      } else {
        assert OwnSales(Step(s, op).sales, u) == OwnSales(s.sales, u);
      }
    }
  }

  lemma CreatePurchaseOthers(s: State, op: Op, u: Id)
    requires op.CreatePurchase? && Try(s, op).Done? && u != op.tenant
    ensures View(Step(s, op), u) == View(s, u)
  {
    var o := PurchaseOrder(op.tenant, op.number, op.supplier, PurchaseReceived, op.bought,
                           Purchasing.TotalPrice(op.bought));
    var inserted := Purchasing.InsertOrder(s, op.id, o).value;
    ReceiptOthers(inserted, op.tenant, op.number, op.bought, u);
    assert OwnPurchases(inserted.purchases, u) == OwnPurchases(s.purchases, u);
  }

  lemma ReceivePurchaseOthers(s: State, op: Op, u: Id)
    requires op.ReceivePurchase? && Try(s, op).Done? && u != op.tenant
    ensures View(Step(s, op), u) == View(s, u)
  {
    CommitReceiveOthers(s, Purchasing.ReadReceive(s, op.tenant, op.id).value, u);
  }

  lemma PurchaseOthers(s: State, op: Op, u: Id)
    requires (op.CreatePurchase? || op.CreatePendingPurchase? || op.ReceivePurchase? || op.CancelPurchase?)
               && u != op.tenant
    ensures View(Step(s, op), u) == View(s, u)
  {
    if Try(s, op).Done? {
      if op.CreatePurchase? {
        CreatePurchaseOthers(s, op, u);
      } else if op.ReceivePurchase? {
        ReceivePurchaseOthers(s, op, u);
      } else {
        assert OwnPurchases(Step(s, op).purchases, u) == OwnPurchases(s.purchases, u);
      }
    }
  }

  /** No call changes what another tenant sees, whatever it is given. */
  lemma StepLeavesOthersAlone(s: State, op: Op, u: Id)
    requires u != op.tenant
    ensures View(Step(s, op), u) == View(s, u)
  {
    if op.CreatePurchase? || op.CreatePendingPurchase? || op.ReceivePurchase? || op.CancelPurchase? {
      PurchaseOthers(s, op, u);
    } else if op.CreateSale? || op.CreatePendingSale? || op.CompleteSale? || op.CancelSale? {
      SaleOthers(s, op, u);
    } else if op.CreateReturn? {
      var ticket := Returns.ReadReturn(s, op.tenant, op.id, op.returned);
      if ticket.Done? { ReturnOthers(s, op.number, ticket.value, u); }
    } else if op.AdjustStock? {
      AdjustOthers(s, op, u);
    } else {
      BulkOthers(s.products, op.tenant, op.batch, u);
    }
  }

  // ------------------------------------------------------------------ a step and its own tenant

  /** Keys the database generates do not collide with another tenant's. */
  ghost predicate FreshKeys(s: State, op: Op) {
    match op
    case CreatePurchase(t, id, _, _, _) => id in s.purchases ==> s.purchases[id].tenant == t
    case CreatePendingPurchase(t, id, _, _, _) => id in s.purchases ==> s.purchases[id].tenant == t
    case CreateSale(t, id, _, _, _) => id in s.sales ==> s.sales[id].tenant == t
    case CreatePendingSale(t, id, _, _, _) => id in s.sales ==> s.sales[id].tenant == t
    case BulkInput(t, lines) => FreshLines(s.products, t, lines)
    case _ => true
  }

  /** A purchase with free keys whose products all exist, but not all in the tenant: the foreign key does not mind. */
  ghost predicate NamesForeignProduct(s: State, op: Op) {
    && (op.CreatePurchase? || op.CreatePendingPurchase?)
    && op.id !in s.purchases && !Purchasing.NumberTaken(s.purchases, op.tenant, op.number)
    && (forall i :: i in op.bought ==> i.product in s.products)
    && (exists i :: i in op.bought && !Owned(s.products, i.product, op.tenant))
  }

  /** A pending one is then stored; a direct one fails when it is received. */
  ghost predicate StoresForeignProduct(s: State, op: Op) {
    op.CreatePendingPurchase? && NamesForeignProduct(s, op)
  }

  lemma PurchaseNumberLocal(s: State, t: Id, number: string)
    ensures Purchasing.NumberTaken(s.purchases, t, number) <==>
              Purchasing.NumberTaken(OwnPurchases(s.purchases, t), t, number)
  {
    if Purchasing.NumberTaken(s.purchases, t, number) {
      var id :| id in s.purchases && s.purchases[id].tenant == t && s.purchases[id].number == number;
      assert id in OwnPurchases(s.purchases, t);
    }
  }

  lemma SaleNumberLocal(s: State, t: Id, number: string)
    ensures Sales.NumberTaken(s.sales, t, number) <==> Sales.NumberTaken(OwnSales(s.sales, t), t, number)
  {
    if Sales.NumberTaken(s.sales, t, number) {
      var id :| id in s.sales && s.sales[id].tenant == t && s.sales[id].number == number;
      assert id in OwnSales(s.sales, t);
    }
  }

  lemma {:induction false} ReturnNumberLocal(rs: seq<SalesReturn>, t: Id, number: string)
    ensures Returns.NumberTaken(rs, t, number) <==> Returns.NumberTaken(OwnReturns(rs, t), t, number)
  {
    if rs != [] {
      ReturnNumberLocal(rs[1..], t, number);
      assert rs == [rs[0]] + rs[1..];
      assert Returns.NumberTaken(rs, t, number) <==>
          (rs[0].tenant == t && rs[0].number == number) || Returns.NumberTaken(rs[1..], t, number);
      var own := OwnReturns(rs[1..], t);
      if rs[0].tenant == t {
        assert [rs[0]] + own == OwnReturns(rs, t);
        assert Returns.NumberTaken([rs[0]] + own, t, number) <==>
            rs[0].number == number || Returns.NumberTaken(own, t, number);
      } else {
        assert OwnReturns(rs, t) == own;
      }
    }
  }

  /** The same call on the tenant's own rows commits the tenant's part of the result. */
  ghost predicate SameRows(full: Attempt<State>, own: Attempt<State>, t: Id) {
    (full.Done? <==> own.Done?) && (full.Done? ==> own.value == View(full.value, t))
  }

  /** Or it raises the same exception. */
  ghost predicate Same(full: Attempt<State>, own: Attempt<State>, t: Id) {
    SameRows(full, own, t) && (full.Failed? ==> own.error == full.error)
  }

  lemma StockOutOwn(s: State, t: Id, number: string, moves: seq<Move>)
    ensures Same(Sales.ProcessStockOut(s, t, number, moves), Sales.ProcessStockOut(View(s, t), t, number, moves), t)
  {
    StockOutLocal(s.products, t, moves);
    AppendOwnRows(s.ledger, OUT, moves, t, number, t);
  }

  lemma ReceiptOwn(s: State, t: Id, number: string, items: seq<PurchaseItem>)
    ensures Same(Purchasing.ProcessReceivedItems(s, t, number, items),
                 Purchasing.ProcessReceivedItems(View(s, t), t, number, items), t)
  {
    ReceiveLocal(s.products, s.products, t, items);
    AppendOwnRows(s.ledger, IN, Bought(items), t, number, t);
  }

  /** A return of t commits on t's rows if and only if it commits. */
  lemma CommitReturnSucceedsOwn(s: State, number: string, ticket: Returns.ReturnTicket)
    requires ticket.order in s.sales && s.sales[ticket.order].tenant == ticket.tenant
    ensures Raised(Returns.CommitReturn(s, number, ticket))
              == Raised(Returns.CommitReturn(View(s, ticket.tenant), number, ticket))
    ensures Returns.CommitReturn(s, number, ticket).Done? ==>
              Returns.CommitReturn(View(s, ticket.tenant), number, ticket).value.sales[ticket.order]
                == Returns.CommitReturn(s, number, ticket).value.sales[ticket.order]
  {
    ReturnNumberLocal(s.salesReturns, ticket.tenant, number);
    PutBackLocal(s.products, ticket.tenant, Brought(ticket.lines));
  }

  lemma CommitReturnOwn(s: State, number: string, ticket: Returns.ReturnTicket)
    requires ticket.order in s.sales && s.sales[ticket.order].tenant == ticket.tenant
    ensures Same(Returns.CommitReturn(s, number, ticket), Returns.CommitReturn(View(s, ticket.tenant), number, ticket),
                 ticket.tenant)
  {
    var t := ticket.tenant;
    CommitReturnSucceedsOwn(s, number, ticket);
    var r := Returns.CommitReturn(s, number, ticket);
    if r.Done? {
      CommitReturnShape(s, number, ticket);
      CommitReturnShape(View(s, t), number, ticket);
      PutBackLocal(s.products, t, Brought(ticket.lines));
      AppendOwnRows(s.ledger, RETURN, Brought(ticket.lines), t, number, t);
      OwnReturnsSnoc(s.salesReturns, r.value.salesReturns[|s.salesReturns|], t);
      OwnSaleUpdate(s.sales, ticket.order, r.value.sales[ticket.order]);
    }
  }

  /** Inserting a sales order with a key of its own looks at one tenant only. */
  lemma InsertSaleOwn(s: State, id: Id, o: SalesOrder)
    requires id in s.sales ==> s.sales[id].tenant == o.tenant
    ensures Same(Sales.InsertOrder(s, id, o), Sales.InsertOrder(View(s, o.tenant), id, o), o.tenant)
  {
    SaleNumberLocal(s, o.tenant, o.number);
    assert id !in s.sales ==> OwnSales(s.sales[id := o], o.tenant) == OwnSales(s.sales, o.tenant)[id := o];
  }

  lemma CreateSaleOwn(s: State, op: Op)
    requires op.CreateSale? && FreshKeys(s, op)
    ensures Same(Try(s, op), Try(View(s, op.tenant), op), op.tenant)
  {
    BuildItemsLocal(s.products, op.tenant, op.lines);
    var items := Sales.BuildItems(s.products, op.tenant, op.lines);
    if items.Done? {
      var o := Sales.NewOrder(op.tenant, op.number, SalesCompleted, op.now, items.value);
      InsertSaleOwn(s, op.id, o);
      var inserted := Sales.InsertOrder(s, op.id, o);
      if inserted.Done? {
        StockOutOwn(inserted.value, op.tenant, op.number, Sales.Requested(op.lines));
      }
    }
  }

  lemma CreatePendingSaleOwn(s: State, op: Op)
    requires op.CreatePendingSale? && FreshKeys(s, op)
    ensures Same(Try(s, op), Try(View(s, op.tenant), op), op.tenant)
  {
    BuildItemsLocal(s.products, op.tenant, op.lines);
    var items := Sales.BuildItems(s.products, op.tenant, op.lines);
    if items.Done? {
      InsertSaleOwn(s, op.id, Sales.NewOrder(op.tenant, op.number, SalesPending, op.now, items.value));
    }
  }

  lemma CompleteSaleOwn(s: State, op: Op)
    requires op.CompleteSale?
    ensures Same(Try(s, op), Try(View(s, op.tenant), op), op.tenant)
  {
    var t := op.tenant;
    if op.id in s.sales && s.sales[op.id].tenant == t && s.sales[op.id].status == SalesPending {
      var o := s.sales[op.id];
      var completed := s.(sales := s.sales[op.id := o.(status := SalesCompleted)]);
      assert OwnSales(completed.sales, t) == OwnSales(s.sales, t)[op.id := o.(status := SalesCompleted)];
      StockOutOwn(completed, t, o.number, Sold(o.items));
    }
  }

  lemma CancelSaleOwn(s: State, op: Op)
    requires op.CancelSale?
    ensures Same(Try(s, op), Try(View(s, op.tenant), op), op.tenant)
  {
    if Try(s, op).Done? { OwnSaleUpdate(s.sales, op.id, s.sales[op.id].(status := SalesCancelled)); }
  }

  lemma CancelPurchaseOwn(s: State, op: Op)
    requires op.CancelPurchase?
    ensures Same(Try(s, op), Try(View(s, op.tenant), op), op.tenant)
  {
    if Try(s, op).Done? { OwnPurchaseUpdate(s.purchases, op.id, s.purchases[op.id].(status := PurchaseCancelled)); }
  }

  lemma ReadReceiveOwn(s: State, t: Id, id: Id)
    ensures Purchasing.ReadReceive(View(s, t), t, id) == Purchasing.ReadReceive(s, t, id)
  {
  }

  lemma ReadReturnOwn(s: State, t: Id, id: Id, lines: seq<Returns.ReturnLine>)
    ensures Returns.ReadReturn(View(s, t), t, id, lines) == Returns.ReadReturn(s, t, id, lines)
  {
  }

  lemma CommitReceiveOwn(s: State, ticket: Purchasing.ReceiveTicket)
    requires ReceiptSound(s, ticket)
    ensures Same(Purchasing.CommitReceive(s, ticket), Purchasing.CommitReceive(View(s, ticket.tenant), ticket),
                 ticket.tenant)
  {
    var o := s.purchases[ticket.order];
    var received := s.(purchases := s.purchases[ticket.order := o.(status := PurchaseReceived)]);
    OwnPurchaseUpdate(s.purchases, ticket.order, o.(status := PurchaseReceived));
    ReceiptOwn(received, ticket.tenant, o.number, ticket.items);
  }

  lemma ReceivePurchaseOwn(s: State, op: Op)
    requires op.ReceivePurchase?
    ensures Same(Try(s, op), Try(View(s, op.tenant), op), op.tenant)
  {
    ReadReceiveOwn(s, op.tenant, op.id);
    var ticket := Purchasing.ReadReceive(s, op.tenant, op.id);
    if ticket.Done? { CommitReceiveOwn(s, ticket.value); }
  }

  /** Inserting a purchase order looks at one tenant only, but for products it names that are not the tenant's. */
  lemma InsertPurchaseOwn(s: State, id: Id, o: PurchaseOrder)
    requires id in s.purchases ==> s.purchases[id].tenant == o.tenant
    ensures var full, own := Purchasing.InsertOrder(s, id, o), Purchasing.InsertOrder(View(s, o.tenant), id, o);
            && (own.Done? ==> full.Done?)
            && (full.Failed? ==> own == full)
            && (own.Failed? && full.Done? ==> own.error == ForeignKeyViolation)
            && (full.Done? ==> (own.Done? <==> forall i :: i in o.items ==> Owned(s.products, i.product, o.tenant)))
            && (full.Done? ==>
                id in full.value.purchases && full.value.purchases[id] == o && id !in View(s, o.tenant).purchases)
            && (own.Done? ==> own.value == View(full.value, o.tenant))
  {
    PurchaseNumberLocal(s, o.tenant, o.number);
    assert id !in s.purchases ==>
        OwnPurchases(s.purchases[id := o], o.tenant) == OwnPurchases(s.purchases, o.tenant)[id := o];
  }

  lemma CreatePurchaseOwn(s: State, op: Op)
    requires op.CreatePurchase? && FreshKeys(s, op)
    ensures SameRows(Try(s, op), Try(View(s, op.tenant), op), op.tenant)
    ensures Raised(Try(s, op)) == Raised(Try(View(s, op.tenant), op)) <==> !NamesForeignProduct(s, op)
  {
    var o := PurchaseOrder(op.tenant, op.number, op.supplier, PurchaseReceived, op.bought,
                           Purchasing.TotalPrice(op.bought));
    InsertPurchaseOwn(s, op.id, o);
    var full := Purchasing.InsertOrder(s, op.id, o);
    if full.Done? {
      ReceiptOwn(full.value, op.tenant, op.number, op.bought);
      if i :| i in op.bought && !Owned(s.products, i.product, op.tenant) {
        ForeignReceiptFails(s.products, s.products, op.tenant, op.bought, i);
      }
    }
  }

  lemma {:induction false} ForeignReceiptFails(snapshot: Products, products: Products, t: Id, items: seq<PurchaseItem>,
                                               i: PurchaseItem)
    requires i in items && !Owned(snapshot, i.product, t)
    requires products.Keys == snapshot.Keys && forall p :: p in products ==> products[p].tenant == snapshot[p].tenant
    ensures Purchasing.ReceiveItems(snapshot, products, t, items) == Failed(UndefinedProduct)
    decreases |items|
  {
    if Owned(snapshot, items[0].product, t) && Owned(products, items[0].product, t) {
      assert i in items[1..];
      ForeignReceiptFails(snapshot, Purchasing.Receive(snapshot, products, items[0]), t, items[1..], i);
    }
  }

  lemma AdjustOwn(s: State, op: Op)
    requires op.AdjustStock?
    ensures Same(Try(s, op), Try(View(s, op.tenant), op), op.tenant)
  {
    if Try(s, op).Done? {
      var row := Entry(op.kind, op.product, op.tenant, Inventory.Magnitude(op.change), op.reference);
      AdjustedViews(s, op.product, Step(s, op).products[op.product].stock, row, op.tenant);
    }
  }

  lemma CreatePendingPurchaseOwn(s: State, op: Op)
    requires op.CreatePendingPurchase? && FreshKeys(s, op)
    ensures View(Step(s, op), op.tenant) == Step(View(s, op.tenant), op) <==> !NamesForeignProduct(s, op)
    ensures Raised(Try(s, op)) == Raised(Try(View(s, op.tenant), op)) <==> !NamesForeignProduct(s, op)
  {
    var o := PurchaseOrder(op.tenant, op.number, op.supplier, PurchasePending, op.bought,
                           Purchasing.TotalPrice(op.bought));
    InsertPurchaseOwn(s, op.id, o);
    if Try(s, op).Done? {
      assert op.id in View(Step(s, op), op.tenant).purchases;
    }
  }

  /** Exactly when a call depends on its own tenant only. What it does to the tenant's rows: unless it is a pending
      purchase naming a foreign product. What it raises: unless it is any purchase doing so. */
  lemma StepIsLocalUnlessForeign(s: State, op: Op)
    requires FreshKeys(s, op)
    ensures View(Step(s, op), op.tenant) == Step(View(s, op.tenant), op) <==> !StoresForeignProduct(s, op)
    ensures Raised(Try(s, op)) == Raised(Try(View(s, op.tenant), op)) <==> !NamesForeignProduct(s, op)
  {
    match op
    case CreatePurchase(_, _, _, _, _) => CreatePurchaseOwn(s, op);
    case CreatePendingPurchase(_, _, _, _, _) => CreatePendingPurchaseOwn(s, op);
    case ReceivePurchase(_, _) => ReceivePurchaseOwn(s, op);
    case CancelPurchase(_, _) => CancelPurchaseOwn(s, op);
    case CreateSale(_, _, _, _, _) => CreateSaleOwn(s, op);
    case CreatePendingSale(_, _, _, _, _) => CreatePendingSaleOwn(s, op);
    case CompleteSale(_, _) => CompleteSaleOwn(s, op);
    case CancelSale(_, _) => CancelSaleOwn(s, op);
    case CreateReturn(t, n, id, lines) =>
      var ticket := Returns.ReadReturn(s, t, id, lines);
      ReadReturnOwn(s, t, id, lines);
      if ticket.Done? { CommitReturnOwn(s, n, ticket.value); }
    case AdjustStock(_, _, _, _, _) => AdjustOwn(s, op);
    case BulkInput(t, lines) => BulkOwn(s.products, t, lines);
  }

  /** The two cases, after another tenant opens a product: a direct purchase of it raises another exception than it
      would if the product were nowhere, and a pending one is stored where it would be refused. */
  lemma ForeignProductShows(t: Id, u: Id, p: Id, sku: string, order: Id, number: string, supplier: Id, price: int)
    requires t != u
    ensures var s := Step(EMPTY, BulkInput(u, [Inventory.BulkLine(p, sku, None)]));
            var items := [PurchaseItem(p, 1, price)];
            var direct, pending := CreatePurchase(t, order, number, supplier, items),
                CreatePendingPurchase(t, order, number, supplier, items);
            && FreshKeys(s, direct) && FreshKeys(s, pending) && StoresForeignProduct(s, pending)
            && Raised(Try(s, direct)) == Some(UndefinedProduct)
            && Raised(Try(View(s, t), direct)) == Some(ForeignKeyViolation)
            && Raised(Try(s, pending)) == None
            && Raised(Try(View(s, t), pending)) == Some(ForeignKeyViolation)
            && View(Step(s, pending), t) != Step(View(s, t), pending)
  {
    var s := Step(EMPTY, BulkInput(u, [Inventory.BulkLine(p, sku, None)]));
    BulkInputs.OneLineOpens(u, Inventory.BulkLine(p, sku, None));
    assert s.products == map[p := Product(u, sku, 0, 0)];
    var items := [PurchaseItem(p, 1, price)];
    assert items[0] in items && forall i :: i in items ==> i == items[0];
    ForeignReceiptFails(s.products, s.products, t, items, items[0]);
    StepIsLocalUnlessForeign(s, CreatePendingPurchase(t, order, number, supplier, items));
  }

  // ------------------------------------------------------------------ runs

  function OpsOf(ops: seq<Op>, t: Id): seq<Op> {
    if ops == [] then [] else (if ops[0].tenant == t then [ops[0]] else []) + OpsOf(ops[1..], t)
  }

  /** Along the run, the calls of t use fresh keys and name no foreign product. */
  ghost predicate KeepsToItself(s: State, ops: seq<Op>, t: Id)
    decreases |ops|
  {
    ops != [] ==>
      && (ops[0].tenant == t ==> FreshKeys(s, ops[0]) && !StoresForeignProduct(s, ops[0]))
      && KeepsToItself(Step(s, ops[0]), ops[1..], t)
  }

  /** Main result. What t sees after an interleaved run over all tenants is what its own calls alone would have left. */
  lemma {:induction false} RunIsProjection(s: State, ops: seq<Op>, t: Id)
    requires KeepsToItself(s, ops, t)
    ensures View(Run(s, ops), t) == Run(View(s, t), OpsOf(ops, t))
    decreases |ops|
  {
    if ops != [] {
      RunIsProjection(Step(s, ops[0]), ops[1..], t);
      if ops[0].tenant == t {
        StepIsLocalUnlessForeign(s, ops[0]);
        assert ([ops[0]] + OpsOf(ops[1..], t))[1..] == OpsOf(ops[1..], t);
      } else {
        StepLeavesOthersAlone(s, ops[0], t);
        assert [] + OpsOf(ops[1..], t) == OpsOf(ops[1..], t);
      }
    }
  }

  // ------------------------------------------------------------------ runs with calls in flight

  function OwnReceiving(m: map<nat, Purchasing.ReceiveTicket>, t: Id): map<nat, Purchasing.ReceiveTicket> {
    map k | k in m && m[k].tenant == t :: m[k]
  }

  function OwnReturning(m: map<nat, PendingReturn>, t: Id): map<nat, PendingReturn> {
    map k | k in m && m[k].ticket.tenant == t :: m[k]
  }

  /** The store and the calls in flight as one tenant sees them. */
  function OwnConfig(c: Config, t: Id): Config {
    Config(View(c.state, t), OwnReceiving(c.receiving, t), OwnReturning(c.returning, t))
  }

  lemma OwnReceivingBegun(m: map<nat, Purchasing.ReceiveTicket>, k: nat, x: Purchasing.ReceiveTicket, t: Id)
    requires k in m ==> m[k].tenant == x.tenant
    ensures OwnReceiving(m[k := x], t) == if x.tenant == t then OwnReceiving(m, t)[k := x] else OwnReceiving(m, t)
  {
  }

  lemma OwnReturningBegun(m: map<nat, PendingReturn>, k: nat, x: PendingReturn, t: Id)
    requires k in m ==> m[k].ticket.tenant == x.ticket.tenant
    ensures OwnReturning(m[k := x], t) == if x.ticket.tenant == t then OwnReturning(m, t)[k := x]
              else OwnReturning(m, t)
  {
  }

  lemma OwnReceivingEnded(m: map<nat, Purchasing.ReceiveTicket>, k: nat, t: Id)
    requires k in m
    ensures OwnReceiving(m - {k}, t) == if m[k].tenant == t then OwnReceiving(m, t) - {k} else OwnReceiving(m, t)
  {
  }

  lemma OwnReturningEnded(m: map<nat, PendingReturn>, k: nat, t: Id)
    requires k in m
    ensures OwnReturning(m - {k}, t) == if m[k].ticket.tenant == t then OwnReturning(m, t) - {k} else OwnReturning(m, t)
  {
  }

  /** Whose event it is: a commit belongs to the tenant of the call in flight. */
  predicate Belongs(c: Config, e: Event, t: Id) {
    match e
    case Atomic(op) => op.tenant == t
    case BeginReceive(_, u, _) => u == t
    case CommitReceive(k) => k in c.receiving && c.receiving[k].tenant == t
    case BeginReturn(_, u, _, _, _) => u == t
    case CommitReturn(k) => k in c.returning && c.returning[k].ticket.tenant == t
  }

  function EventsOf(c: Config, es: seq<Event>, t: Id): seq<Event>
    decreases |es|
  {
    if es == [] then [] else (if Belongs(c, es[0], t) then [es[0]] else []) + EventsOf(Next(c, es[0]), es[1..], t)
  }

  /** The event is local to t, and no call takes the place of another tenant's call in flight. */
  ghost predicate EventKeepsToItself(c: Config, e: Event, t: Id) {
    match e
    case Atomic(op) => op.tenant == t ==> FreshKeys(c.state, op) && !StoresForeignProduct(c.state, op)
    case BeginReceive(k, u, _) => k in c.receiving ==> c.receiving[k].tenant == u
    case BeginReturn(k, u, _, _, _) => k in c.returning ==> c.returning[k].ticket.tenant == u
    case _ => true
  }

  ghost predicate PlayKeepsToItself(c: Config, es: seq<Event>, t: Id)
    decreases |es|
  {
    es != [] ==> EventKeepsToItself(c, es[0], t) && PlayKeepsToItself(Next(c, es[0]), es[1..], t)
  }

  lemma BeginReceiveIsLocal(c: Config, k: nat, u: Id, id: Id, t: Id)
    requires k in c.receiving ==> c.receiving[k].tenant == u
    ensures var e := BeginReceive(k, u, id);
            OwnConfig(Next(c, e), t) == if u == t then Next(OwnConfig(c, t), e) else OwnConfig(c, t)
  {
    ReadReceiveOwn(c.state, u, id);
    var ticket := Purchasing.ReadReceive(c.state, u, id);
    if ticket.Done? { OwnReceivingBegun(c.receiving, k, ticket.value, t); }
  }

  lemma BeginReturnIsLocal(c: Config, k: nat, u: Id, number: string, id: Id, lines: seq<Returns.ReturnLine>, t: Id)
    requires k in c.returning ==> c.returning[k].ticket.tenant == u
    ensures var e := BeginReturn(k, u, number, id, lines);
            OwnConfig(Next(c, e), t) == if u == t then Next(OwnConfig(c, t), e) else OwnConfig(c, t)
  {
    ReadReturnOwn(c.state, u, id, lines);
    var ticket := Returns.ReadReturn(c.state, u, id, lines);
    if ticket.Done? { OwnReturningBegun(c.returning, k, PendingReturn(number, ticket.value), t); }
  }

  lemma CommitReceiveIsLocal(c: Config, k: nat, t: Id)
    requires TicketsSound(c)
    ensures OwnConfig(Next(c, CommitReceive(k)), t)
         == if Belongs(c, CommitReceive(k), t) then Next(OwnConfig(c, t), CommitReceive(k)) else OwnConfig(c, t)
  {
    if k in c.receiving {
      OwnReceivingEnded(c.receiving, k, t);
      if c.receiving[k].tenant == t {
        CommitReceiveOwn(c.state, c.receiving[k]);
      } else {
        CommitReceiveOthers(c.state, c.receiving[k], t);
      }
    }
  }

  lemma CommitReturnIsLocal(c: Config, k: nat, t: Id)
    requires TicketsSound(c)
    ensures OwnConfig(Next(c, CommitReturn(k)), t)
         == if Belongs(c, CommitReturn(k), t) then Next(OwnConfig(c, t), CommitReturn(k)) else OwnConfig(c, t)
  {
    if k in c.returning {
      var number, ticket := c.returning[k].number, c.returning[k].ticket;
      OwnReturningEnded(c.returning, k, t);
      assert TicketSound(c.state, ticket);
      if ticket.tenant == t {
        CommitReturnOwn(c.state, number, ticket);
      } else {
        ReturnOthers(c.state, number, ticket, t);
      }
    }
  }

  lemma AtomicIsLocal(c: Config, op: Op, t: Id)
    requires EventKeepsToItself(c, Atomic(op), t)
    ensures OwnConfig(Next(c, Atomic(op)), t) == if op.tenant == t then Next(OwnConfig(c, t), Atomic(op))
              else OwnConfig(c, t)
  {
    if op.tenant == t {
      StepIsLocalUnlessForeign(c.state, op);
    } else {
      StepLeavesOthersAlone(c.state, op, t);
    }
  }

  lemma NextIsLocal(c: Config, e: Event, t: Id)
    requires TicketsSound(c) && EventKeepsToItself(c, e, t)
    ensures OwnConfig(Next(c, e), t) == if Belongs(c, e, t) then Next(OwnConfig(c, t), e) else OwnConfig(c, t)
  {
    match e
    case Atomic(op) => AtomicIsLocal(c, op, t);
    case CommitReceive(k) => CommitReceiveIsLocal(c, k, t);
    case CommitReturn(k) => CommitReturnIsLocal(c, k, t);
    case BeginReceive(k, u, id) => BeginReceiveIsLocal(c, k, u, id, t);
    case BeginReturn(k, u, n, id, lines) => BeginReturnIsLocal(c, k, u, n, id, lines, t);
  }

  /** Main result, calls in flight included. What t sees after an interleaving of all tenants' calls and half-calls is
      what its own calls and half-calls alone would have left. */
  lemma {:induction false} PlayIsProjection(c: Config, es: seq<Event>, t: Id)
    requires TicketsSound(c) && PlayKeepsToItself(c, es, t)
    ensures OwnConfig(Play(c, es), t) == Play(OwnConfig(c, t), EventsOf(c, es, t))
    decreases |es|
  {
    if es != [] {
      var next := Next(c, es[0]);
      NextIsLocal(c, es[0], t);
      NextKeepsTickets(c, es[0]);
      PlayIsProjection(next, es[1..], t);
      if Belongs(c, es[0], t) {
        assert ([es[0]] + EventsOf(next, es[1..], t))[1..] == EventsOf(next, es[1..], t);
      } else {
        assert [] + EventsOf(next, es[1..], t) == EventsOf(next, es[1..], t);
      }
    }
  }

  // ------------------------------------------------------------------ what a tenant's calls raise

  /** The exception a call or a half-call raises, if it does. */
  function RaisedBy(c: Config, e: Event): Option<Error> {
    match e
    case Atomic(op) => Raised(Try(c.state, op))
    case BeginReceive(_, t, id) =>
      var ticket := Purchasing.ReadReceive(c.state, t, id);
      if ticket.Failed? then Some(ticket.error) else None
    case CommitReceive(k) =>
      if k in c.receiving then Raised(Purchasing.CommitReceive(c.state, c.receiving[k])) else None
    case BeginReturn(_, t, _, id, lines) =>
      var ticket := Returns.ReadReturn(c.state, t, id, lines);
      if ticket.Failed? then Some(ticket.error) else None
    case CommitReturn(k) =>
      if k in c.returning then Raised(Returns.CommitReturn(c.state, c.returning[k].number, c.returning[k].ticket))
          else None
  }

  function RaisedIn(c: Config, es: seq<Event>): seq<Option<Error>>
    decreases |es|
  {
    if es == [] then [] else [RaisedBy(c, es[0])] + RaisedIn(Next(c, es[0]), es[1..])
  }

  /** The same for the events of one tenant among all. */
  function RaisedTo(c: Config, es: seq<Event>, t: Id): seq<Option<Error>>
    decreases |es|
  {
    if es == [] then [] else
      (if Belongs(c, es[0], t) then [RaisedBy(c, es[0])] else []) + RaisedTo(Next(c, es[0]), es[1..], t)
  }

  /** No purchase of t, direct or pending, names a foreign product. */
  ghost predicate PlayNamesNoForeign(c: Config, es: seq<Event>, t: Id)
    decreases |es|
  {
    es != [] ==>
      && (es[0].Atomic? && es[0].op.tenant == t ==> !NamesForeignProduct(c.state, es[0].op))
      && PlayNamesNoForeign(Next(c, es[0]), es[1..], t)
  }

  lemma NextRaisesAlike(c: Config, e: Event, t: Id)
    requires TicketsSound(c) && EventKeepsToItself(c, e, t) && Belongs(c, e, t)
    requires e.Atomic? ==> !NamesForeignProduct(c.state, e.op)
    ensures RaisedBy(OwnConfig(c, t), e) == RaisedBy(c, e)
  {
    match e
    case Atomic(op) => StepIsLocalUnlessForeign(c.state, op);
    case BeginReceive(_, _, id) => ReadReceiveOwn(c.state, t, id);
    case CommitReceive(k) => CommitReceiveOwn(c.state, c.receiving[k]);
    case BeginReturn(_, _, _, id, lines) => ReadReturnOwn(c.state, t, id, lines);
    case CommitReturn(k) => CommitReturnOwn(c.state, c.returning[k].number, c.returning[k].ticket);
  }

  /** Main result for exceptions. Where its purchases name no foreign product, t's calls and half-calls raise what they
      would have raised had no other tenant been there. */
  lemma {:induction false} PlayRaisesProjection(c: Config, es: seq<Event>, t: Id)
    requires TicketsSound(c) && PlayKeepsToItself(c, es, t) && PlayNamesNoForeign(c, es, t)
    ensures RaisedTo(c, es, t) == RaisedIn(OwnConfig(c, t), EventsOf(c, es, t))
    decreases |es|
  {
    if es != [] {
      var e, next, own := es[0], Next(c, es[0]), EventsOf(Next(c, es[0]), es[1..], t);
      NextIsLocal(c, e, t);
      NextKeepsTickets(c, e);
      PlayRaisesProjection(next, es[1..], t);
      if Belongs(c, e, t) {
        NextRaisesAlike(c, e, t);
        assert ([e] + own)[1..] == own;
      } else {
        assert [] + own == own && [] + RaisedTo(next, es[1..], t) == RaisedTo(next, es[1..], t);
      }
    }
  }

  lemma RunOfTwo(s: State, a: Op, b: Op)
    ensures Run(s, [a, b]) == Step(Step(s, a), b)
  {
    assert [a, b][1..] == [b] && [b][1..] == [];
    assert Run(Step(s, a), [b]) == Run(Step(Step(s, a), b), []);
  }

  /** Calls of different tenants commute: every tenant sees the same either way. */
  lemma TenantsCommute(s: State, a: Op, b: Op, t: Id)
    requires a.tenant != b.tenant
    requires t == a.tenant || t == b.tenant ==> KeepsToItself(s, [a, b], t) && KeepsToItself(s, [b, a], t)
    ensures View(Step(Step(s, a), b), t) == View(Step(Step(s, b), a), t)
  {
    if t == a.tenant || t == b.tenant {
      RunOfTwo(s, a, b);
      RunOfTwo(s, b, a);
      RunIsProjection(s, [a, b], t);
      RunIsProjection(s, [b, a], t);
      assert [a, b][1..] == [b] && [b][1..] == [] && [b, a][1..] == [a] && [a][1..] == [];
      assert OpsOf([a], t) == if a.tenant == t then [a] else [];
      assert OpsOf([b], t) == if b.tenant == t then [b] else [];
    } else {
      StepLeavesOthersAlone(s, a, t);
      StepLeavesOthersAlone(Step(s, a), b, t);
      StepLeavesOthersAlone(s, b, t);
      StepLeavesOthersAlone(Step(s, b), a, t);
    }
  }
}
