/** The closed form of a sales order's totals, through every sale, completion and return, stale ones included. */
module Totals {
  import opened Cents
  import opened Sums
  import opened Store
  import opened Machine
  import opened Effects
  import opened Orders
  import opened Arithmetic
  import Sales
  import Returns

  // ------------------------------------------------------------------ per-unit rates of an order item

  /** The unit cost in whole cents; `ExactItem` says the division leaves no remainder. */
  function UnitCost(item: OrderItem): int {
    item.cogs / item.quantity
  }

  function UnitMargin(item: OrderItem): int {
    item.unitPrice - UnitCost(item)
  }

  function UnitPrice(item: OrderItem): int {
    item.unitPrice
  }

  predicate ExactItem(item: OrderItem) {
    && item.cogs == UnitCost(item) * item.quantity
    && item.profitMargin == UnitMargin(item) * item.quantity
  }

  /** A per-unit rate over the units of an item that the customer kept. */
  function KeptAt(rate: OrderItem -> int): OrderItem -> int {
    (i: OrderItem) => rate(i) * (i.quantity - i.returned)
  }

  function Kept(items: seq<OrderItem>, rate: OrderItem -> int): int {
    SumOver(items, KeptAt(rate))
  }

  function RefundedItem(i: OrderItem): int {
    i.unitPrice * i.returned
  }

  /** The same rate over the units a list of return lines brings back. */
  function BackAt(items: seq<OrderItem>, rate: OrderItem -> int): ReturnItem -> int {
    (l: ReturnItem) => if l.item < |items| then rate(items[l.item]) * l.quantity else 0
  }

  function Back(items: seq<OrderItem>, rate: OrderItem -> int, lines: seq<ReturnItem>): int {
    SumOver(lines, BackAt(items, rate))
  }

  function RefundAgainst(order: Id): SalesReturn -> int {
    (r: SalesReturn) => if r.order == order then r.totalRefund else 0
  }

  /** All refunds ever made against an order. */
  function Refunds(s: State, order: Id): int {
    SumOver(s.salesReturns, RefundAgainst(order))
  }

  // ------------------------------------------------------------------ the invariant

  ghost predicate OrderSound(o: SalesOrder, refunds: int) {
    && (forall i :: i in o.items ==> ExactItem(i))
    && o.totalCogs == Kept(o.items, UnitCost)
    && o.totalProfit == Kept(o.items, UnitMargin)
    && o.totalPrice == SumOver(o.items, Sales.ItemPrice)
    && refunds == SumOver(o.items, RefundedItem)
  }

  ghost predicate Sound(s: State) {
    && (forall id :: id in s.sales ==> OrderSound(s.sales[id], Refunds(s, id)))
    && (forall r :: r in s.salesReturns ==> r.order in s.sales)
  }

  /** Price is what the customer kept, at cost and at margin, plus what was paid back. */
  lemma PriceSplits(items: seq<OrderItem>)
    ensures SumOver(items, Sales.ItemPrice) == Kept(items, UnitPrice) + SumOver(items, RefundedItem)
    ensures Kept(items, UnitPrice) == Kept(items, UnitCost) + Kept(items, UnitMargin)
  {
    forall i: OrderItem
      ensures Sales.ItemPrice(i) == KeptAt(UnitPrice)(i) + RefundedItem(i)
      ensures KeptAt(UnitPrice)(i) == KeptAt(UnitCost)(i) + KeptAt(UnitMargin)(i)
    {
      Distribute(i.unitPrice, i.quantity - i.returned, i.returned);
      Distribute(i.quantity - i.returned, UnitCost(i), UnitMargin(i));
    }
    SumSplit(items, Sales.ItemPrice, KeptAt(UnitPrice), RefundedItem);
    SumSplit(items, KeptAt(UnitPrice), KeptAt(UnitCost), KeptAt(UnitMargin));
  }

  /** The accounting identity of a sound order. */
  lemma PriceIsCogsPlusProfitPlusRefunds(s: State, id: Id)
    requires Sound(s) && id in s.sales
    ensures s.sales[id].totalPrice == s.sales[id].totalCogs + s.sales[id].totalProfit + Refunds(s, id)
  {
    PriceSplits(s.sales[id].items);
  }

  // ------------------------------------------------------------------ creation

  /** Dividing the frozen cost by the quantity gives back the average it was priced at, exactly. */
  lemma PricedItemIsExact(product: Product, line: Sales.SaleLine)
    ensures var i := Sales.PriceLine(product, line);
            ExactItem(i) && UnitCost(i) == product.averageCost && Returns.UnitCogs(i) == product.averageCost as real
  {
    ExactQuotient(product.averageCost, line.quantity);
    RealProduct(product.averageCost, line.quantity);
    RealQuotient(product.averageCost as real, line.quantity as real);
  }

  /** While nothing came back, the frozen amounts are the kept amounts. */
  lemma UntouchedItem(i: OrderItem)
    requires ExactItem(i) && i.returned == 0
    ensures Sales.ItemCogs(i) == KeptAt(UnitCost)(i)
    ensures Sales.ItemProfit(i) == KeptAt(UnitMargin)(i)
    ensures RefundedItem(i) == 0
  {
  }

  lemma UntouchedOrderSound(o: SalesOrder)
    requires forall i :: i in o.items ==> ExactItem(i) && i.returned == 0
    requires o.totalPrice == SumOver(o.items, Sales.ItemPrice)
    requires o.totalCogs == SumOver(o.items, Sales.ItemCogs)
    requires o.totalProfit == SumOver(o.items, Sales.ItemProfit)
    ensures OrderSound(o, 0)
  {
    forall i | i in o.items
      ensures Sales.ItemCogs(i) == KeptAt(UnitCost)(i)
      ensures Sales.ItemProfit(i) == KeptAt(UnitMargin)(i)
      ensures RefundedItem(i) == 0
    {
      UntouchedItem(i);
    }
    SumCongruent(o.items, Sales.ItemCogs, KeptAt(UnitCost));
    SumCongruent(o.items, Sales.ItemProfit, KeptAt(UnitMargin));
    SumZero(o.items, RefundedItem);
  }

  lemma NewOrderSound(products: Products, tenant: Id, number: string, status: SalesStatus, now: int,
                      lines: seq<Sales.SaleLine>)
    requires Sales.BuildItems(products, tenant, lines).Done?
    ensures OrderSound(Sales.NewOrder(tenant, number, status, now, Sales.BuildItems(products, tenant, lines).value), 0)
  {
    BuildItemsEffect(products, tenant, lines);
    var items := Sales.BuildItems(products, tenant, lines).value;
    forall i | i in items ensures ExactItem(i) && i.returned == 0 {
      var k :| 0 <= k < |items| && items[k] == i;
      PricedItemIsExact(products[lines[k].product], lines[k]);
    }
    UntouchedOrderSound(Sales.NewOrder(tenant, number, status, now, items));
  }

  // ------------------------------------------------------------------ return

  /** A rate is frozen when it does not look at what came back. */
  ghost predicate FrozenRate(rate: OrderItem -> int) {
    forall a: OrderItem, b: OrderItem :: SameFrozen(a, b) ==> rate(a) == rate(b)
  }

  lemma BackCongruent(a: seq<OrderItem>, b: seq<OrderItem>, rate: OrderItem -> int, lines: seq<ReturnItem>)
    requires SameItems(a, b) && FrozenRate(rate)
    ensures Back(a, rate, lines) == Back(b, rate, lines)
  {
    forall l | l in lines ensures BackAt(a, rate)(l) == BackAt(b, rate)(l) {
      if l.item < |a| { assert SameFrozen(a[l.item], b[l.item]); }
    }
    SumCongruent(lines, BackAt(a, rate), BackAt(b, rate));
  }

  lemma MarkedItemsSame(items: seq<OrderItem>, lines: seq<ReturnItem>)
    requires forall l :: l in lines ==> l.item < |items|
    ensures var r := Returns.MarkReturned(items, lines); r.Done? && SameItems(items, r.value)
  {
    MarkReturnedEffect(items, lines);
  }

  lemma MarkOneTakesBack(items: seq<OrderItem>, line: ReturnItem, rate: OrderItem -> int)
    requires FrozenRate(rate) && line.item < |items|
    ensures SameItems(items, Returns.Mark(items, line))
    ensures Kept(Returns.Mark(items, line), rate) == Kept(items, rate) - BackAt(items, rate)(line)
  {
    var marked := Returns.Mark(items, line);
    var before, after := items[line.item], marked[line.item];
    SumUpdate(items, line.item, after, KeptAt(rate));
    assert SameFrozen(before, after);
    Distribute(rate(before), before.quantity - before.returned, line.quantity);
  }

  /** What comes back is taken from what was kept, at any frozen rate. */
  lemma {:induction false} MarkTakesBack(items: seq<OrderItem>, lines: seq<ReturnItem>, rate: OrderItem -> int)
    requires FrozenRate(rate) && forall l :: l in lines ==> l.item < |items|
    ensures var r := Returns.MarkReturned(items, lines);
            r.Done? && Kept(r.value, rate) == Kept(items, rate) - Back(items, rate, lines)
    decreases |lines|
  {
    if lines != [] {
      assert lines[0] in lines && forall l :: l in lines[1..] ==> l in lines;
      var marked := Returns.Mark(items, lines[0]);
      MarkOneTakesBack(items, lines[0], rate);
      MarkTakesBack(marked, lines[1..], rate);
      BackCongruent(items, marked, rate, lines[1..]);
    }
  }

  lemma UnitCogsIsWhole(item: OrderItem)
    requires ExactItem(item)
    ensures Returns.UnitCogs(item) == UnitCost(item) as real
    ensures Returns.UnitProfit(item) == UnitMargin(item) as real
  {
  }

  /** A quotient that is whole on every item is whole over any list of lines. */
  lemma {:induction false} ReversalIsWhole(items: seq<OrderItem>, lines: seq<ReturnItem>,
                                           unit: OrderItem -> real, rate: OrderItem -> int)
    requires forall i :: i in items ==> unit(i) == rate(i) as real
    requires forall l :: l in lines ==> l.item < |items|
    ensures Returns.Reversed(items, lines, unit) == Back(items, rate, lines) as real
  {
    if lines != [] {
      assert lines[0] in lines && forall l :: l in lines[1..] ==> l in lines;
      ReversalIsWhole(items, lines[1..], unit, rate);
      RealProduct(rate(items[lines[0].item]), lines[0].quantity);
    }
  }

  lemma RatesAreFrozen()
    ensures FrozenRate(UnitCost) && FrozenRate(UnitMargin) && FrozenRate(UnitPrice)
  {
  }

  lemma SnapshotExact(snapshot: seq<OrderItem>, items: seq<OrderItem>)
    requires SameItems(snapshot, items) && forall i :: i in items ==> ExactItem(i)
    ensures forall i :: i in snapshot ==> ExactItem(i)
  {
    forall i | i in snapshot ensures ExactItem(i) {
      var k :| 0 <= k < |snapshot| && snapshot[k] == i;
      assert SameFrozen(snapshot[k], items[k]) && items[k] in items;
    }
  }

  lemma RefundIsBack(snapshot: seq<OrderItem>, lines: seq<ReturnItem>)
    requires forall l :: l in lines ==> LineAgrees(snapshot, l)
    ensures SumOver(lines, Returns.RefundOf) == Back(snapshot, UnitPrice, lines)
  {
    SumCongruent(lines, Returns.RefundOf, BackAt(snapshot, UnitPrice));
  }

  /** The two stored totals after a reversal, in whole cents. */
  lemma ReversedTotals(o: SalesOrder, refunds: int, t: Returns.ReturnTicket)
    requires OrderSound(o, refunds) && SameItems(t.snapshot, o.items)
    ensures ToCents(o.totalProfit as real - Returns.Reversed(t.snapshot, t.lines, Returns.UnitProfit))
         == o.totalProfit - Back(o.items, UnitMargin, t.lines)
    ensures ToCents(o.totalCogs as real - Returns.Reversed(t.snapshot, t.lines, Returns.UnitCogs))
         == o.totalCogs - Back(o.items, UnitCost, t.lines)
  {
    RatesAreFrozen();
    SnapshotExact(t.snapshot, o.items);
    forall i | i in t.snapshot
      ensures Returns.UnitCogs(i) == UnitCost(i) as real && Returns.UnitProfit(i) == UnitMargin(i) as real
    {
      UnitCogsIsWhole(i);
    }
    ReversalIsWhole(t.snapshot, t.lines, Returns.UnitCogs, UnitCost);
    ReversalIsWhole(t.snapshot, t.lines, Returns.UnitProfit, UnitMargin);
    BackCongruent(t.snapshot, o.items, UnitCost, t.lines);
    BackCongruent(t.snapshot, o.items, UnitMargin, t.lines);
    ToCentsOnGrid(o.totalProfit - Back(o.items, UnitMargin, t.lines));
    ToCentsOnGrid(o.totalCogs - Back(o.items, UnitCost, t.lines));
  }

  /** Returned units grow the refunded amount by what the lines refund. */
  lemma RefundsGrow(items: seq<OrderItem>, t: Returns.ReturnTicket)
    requires SameItems(t.snapshot, items) && forall l :: l in t.lines ==> LineAgrees(t.snapshot, l)
    ensures var marked := Returns.MarkReturned(items, t.lines);
            && marked.Done? && SumOver(marked.value, Sales.ItemPrice) == SumOver(items, Sales.ItemPrice)
            && SumOver(marked.value, RefundedItem) == SumOver(items, RefundedItem) + SumOver(t.lines, Returns.RefundOf)
  {
    RatesAreFrozen();
    RefundIsBack(t.snapshot, t.lines);
    BackCongruent(t.snapshot, items, UnitPrice, t.lines);
    MarkTakesBack(items, t.lines, UnitPrice);
    MarkedItemsSame(items, t.lines);
    var marked := Returns.MarkReturned(items, t.lines).value;
    SamePrice(items, marked);
    PriceSplits(items);
    PriceSplits(marked);
  }

  /** A return, its read stale or not, leaves its order in closed form. */
  lemma ReversedOrderSound(o: SalesOrder, refunds: int, t: Returns.ReturnTicket)
    requires OrderSound(o, refunds) && SameItems(t.snapshot, o.items)
    requires forall l :: l in t.lines ==> LineAgrees(t.snapshot, l)
    ensures var items := Returns.MarkReturned(o.items, t.lines);
            var profit := Returns.Reversed(t.snapshot, t.lines, Returns.UnitProfit);
            var cogs := Returns.Reversed(t.snapshot, t.lines, Returns.UnitCogs);
            && items.Done?
            && OrderSound(o.(items := items.value,
                             totalProfit := ToCents(o.totalProfit as real - profit),
                             totalCogs := ToCents(o.totalCogs as real - cogs)),
                          refunds + SumOver(t.lines, Returns.RefundOf))
  {
    ReversedTotals(o, refunds, t);
    RefundsGrow(o.items, t);
    KeptShrinks(o.items, t.lines);
  }

  lemma KeptShrinks(items: seq<OrderItem>, lines: seq<ReturnItem>)
    requires forall i :: i in items ==> ExactItem(i)
    requires forall l :: l in lines ==> l.item < |items|
    ensures var marked := Returns.MarkReturned(items, lines);
            && marked.Done? && (forall i :: i in marked.value ==> ExactItem(i))
            && Kept(marked.value, UnitCost) == Kept(items, UnitCost) - Back(items, UnitCost, lines)
            && Kept(marked.value, UnitMargin) == Kept(items, UnitMargin) - Back(items, UnitMargin, lines)
  {
    RatesAreFrozen();
    MarkTakesBack(items, lines, UnitCost);
    MarkTakesBack(items, lines, UnitMargin);
    MarkedItemsSame(items, lines);
    MarkedItemsExact(items, Returns.MarkReturned(items, lines).value);
  }

  lemma MarkedItemsExact(a: seq<OrderItem>, b: seq<OrderItem>)
    requires SameItems(a, b) && forall i :: i in a ==> ExactItem(i)
    ensures forall i :: i in b ==> ExactItem(i)
  {
    forall i | i in b ensures ExactItem(i) {
      var k :| 0 <= k < |b| && b[k] == i;
      assert SameFrozen(a[k], b[k]) && a[k] in a;
    }
  }

  lemma {:induction false} SamePrice(a: seq<OrderItem>, b: seq<OrderItem>)
    requires SameItems(a, b)
    ensures SumOver(a, Sales.ItemPrice) == SumOver(b, Sales.ItemPrice)
  {
    if a != [] {
      assert SameFrozen(a[0], b[0]);
      forall k | 0 <= k < |a| - 1 ensures SameFrozen(a[1..][k], b[1..][k]) {
        assert SameFrozen(a[k + 1], b[k + 1]);
      }
      SamePrice(a[1..], b[1..]);
    }
  }

  // ------------------------------------------------------------------ every step, every interleaving

  lemma CommitReturnSound(s: State, number: string, t: Returns.ReturnTicket)
    requires Sound(s) && TicketSound(s, t)
    ensures Sound(Commit(s, Returns.CommitReturn(s, number, t)))
  {
    var r := Returns.CommitReturn(s, number, t);
    if r.Done? {
      var s' := r.value;
      var row := SalesReturn(t.tenant, number, t.order, SumOver(t.lines, Returns.RefundOf), t.lines);
      ReversedOrderSound(s.sales[t.order], Refunds(s, t.order), t);
      assert s'.salesReturns == s.salesReturns + [row];
      RefundsAfter(s, s', row, t.order);
      forall id | id in s'.sales ensures OrderSound(s'.sales[id], Refunds(s', id)) {
        RefundsAfter(s, s', row, id);
        if id != t.order { assert s'.sales[id] == s.sales[id]; }
      }
    }
  }

  lemma RefundsAfter(s: State, s': State, row: SalesReturn, id: Id)
    requires s'.salesReturns == s.salesReturns + [row]
    ensures Refunds(s', id) == Refunds(s, id) + if row.order == id then row.totalRefund else 0
  {
    SumSnoc(s.salesReturns, row, RefundAgainst(id));
  }

  lemma NewOrderKeepsSound(s: State, s': State, id: Id, o: SalesOrder)
    requires Sound(s) && id !in s.sales && OrderSound(o, 0)
    requires s'.sales == s.sales[id := o] && s'.salesReturns == s.salesReturns
    ensures Sound(s')
  {
    forall r | r in s.salesReturns ensures RefundAgainst(id)(r) == 0 {
    }
    SumZero(s.salesReturns, RefundAgainst(id));
  }

  lemma StatusKeepsSound(s: State, s': State, id: Id, status: SalesStatus)
    requires Sound(s) && id in s.sales
    requires s'.sales == s.sales[id := s.sales[id].(status := status)] && s'.salesReturns == s.salesReturns
    ensures Sound(s')
  {
  }

  lemma NewSaleSound(s: State, op: Op)
    requires Sound(s) && (op.CreateSale? || op.CreatePendingSale?) && Try(s, op).Done?
    ensures Sound(Step(s, op))
  {
    var status := if op.CreateSale? then SalesCompleted else SalesPending;
    NewOrderSound(s.products, op.tenant, op.number, status, op.now, op.lines);
    NewOrderKeepsSound(s, Step(s, op), op.id, Step(s, op).sales[op.id]);
  }

  lemma RestatusedSaleSound(s: State, op: Op)
    requires Sound(s) && (op.CompleteSale? || op.CancelSale?) && Try(s, op).Done?
    ensures Sound(Step(s, op))
  {
    StatusKeepsSound(s, Step(s, op), op.id, if op.CompleteSale? then SalesCompleted else SalesCancelled);
  }

  lemma ReturnSound(s: State, op: Op)
    requires Sound(s) && op.CreateReturn? && Try(s, op).Done?
    ensures Sound(Step(s, op))
  {
    ReadReturnSound(s, op.tenant, op.id, op.returned);
    CommitReturnSound(s, op.number, Returns.ReadReturn(s, op.tenant, op.id, op.returned).value);
  }

  lemma OtherCallsKeepSales(s: State, op: Op)
    requires op.CreatePurchase? || op.CreatePendingPurchase? || op.ReceivePurchase? || op.CancelPurchase?
          || op.AdjustStock? || op.BulkInput?
    ensures Step(s, op).sales == s.sales && Step(s, op).salesReturns == s.salesReturns
  {
  }

  lemma StepSound(s: State, op: Op)
    requires Sound(s)
    ensures Sound(Step(s, op))
  {
    if Try(s, op).Failed? {
    } else if op.CreateSale? || op.CreatePendingSale? {
      NewSaleSound(s, op);
    } else if op.CompleteSale? || op.CancelSale? {
      RestatusedSaleSound(s, op);
    } else if op.CreateReturn? {
      ReturnSound(s, op);
    } else {
      OtherCallsKeepSales(s, op);
    }
  }

  lemma NextSound(c: Config, e: Event)
    requires Sound(c.state) && TicketsSound(c)
    ensures Sound(Next(c, e).state)
  {
    match e
    case Atomic(op) => StepSound(c.state, op);
    case CommitReturn(k) =>
      if k in c.returning { CommitReturnSound(c.state, c.returning[k].number, c.returning[k].ticket); }
    case CommitReceive(k) =>
      if k in c.receiving {
        var after := Next(c, e).state;
        assert after.sales == c.state.sales && after.salesReturns == c.state.salesReturns;
      }
    case _ =>
  }

  /** Main result. Through any interleaving of calls and half-calls, every order keeps the closed form of its totals. */
  lemma {:induction false} TotalsKeepClosedForm(c: Config, es: seq<Event>)
    requires Sound(c.state) && TicketsSound(c)
    ensures Sound(Play(c, es).state) && TicketsSound(Play(c, es))
    decreases |es|
  {
    if es != [] {
      NextSound(c, es[0]);
      NextKeepsTickets(c, es[0]);
      TotalsKeepClosedForm(Next(c, es[0]), es[1..]);
    }
  }

  /** From the empty store: price = COGS + profit + refunds for every order, and the totals are the kept units at frozen
      rates. */
  lemma ReachableTotals(es: seq<Event>, id: Id)
    ensures var s := Play(Config(EMPTY, map[], map[]), es).state;
            id in s.sales ==>
              var o := s.sales[id];
              && o.totalCogs == Kept(o.items, UnitCost)
              && o.totalProfit == Kept(o.items, UnitMargin)
              && Refunds(s, id) == SumOver(o.items, RefundedItem)
              && o.totalPrice == o.totalCogs + o.totalProfit + Refunds(s, id)
              && forall i :: i in o.items ==> i.cogs % i.quantity == 0
  {
    var start := Config(EMPTY, map[], map[]);
    TotalsKeepClosedForm(start, es);
    var s := Play(start, es).state;
    if id in s.sales {
      PriceIsCogsPlusProfitPlusRefunds(s, id);
      forall i | i in s.sales[id].items ensures i.cogs % i.quantity == 0 {
        ExactQuotient(UnitCost(i), i.quantity);
      }
    }
  }
}
