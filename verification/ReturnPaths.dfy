/** Returns are path-independent, bounded by what was sold, and complete reversals. */
module ReturnPaths {
  import opened Sums
  import opened Store
  import opened Machine
  import opened Effects
  import opened Orders
  import opened Totals
  import Purchasing
  import Sales
  import Returns

  // ------------------------------------------------------------------ one return

  /** The units of a product that came back on some order items. */
  function ReturnedFor(p: Id): OrderItem -> int {
    (i: OrderItem) => if i.product == p then i.returned else 0
  }

  function ReturnedUnits(items: seq<OrderItem>, p: Id): int {
    SumOver(items, ReturnedFor(p))
  }

  lemma {:induction false} MarkCountsUnits(items: seq<OrderItem>, lines: seq<ReturnItem>, p: Id)
    requires forall l :: l in lines ==> l.item < |items| && l.product == items[l.item].product
    ensures var r := Returns.MarkReturned(items, lines);
            r.Done? && ReturnedUnits(r.value, p) == ReturnedUnits(items, p) + Units(Brought(lines), p)
    decreases |lines|
  {
    if lines != [] {
      assert lines[0] in lines && forall l :: l in lines[1..] ==> l in lines;
      var marked := Returns.Mark(items, lines[0]);
      MarkCountsUnits(marked, lines[1..], p);
      SumUpdate(items, lines[0].item, marked[lines[0].item], ReturnedFor(p));
      assert Brought(lines)[1..] == Brought(lines[1..]);
      UnitsOfHead(Brought(lines), p);
    }
  }

  lemma {:induction false} CheckedTotals(snapshot: seq<OrderItem>, lines: seq<Returns.ReturnLine>, k: nat)
    requires Returns.CheckLines(snapshot, lines).Done?
    ensures SumOver(Returns.CheckLines(snapshot, lines).value, MarkedOf(k)) == SumOver(lines, ReturnedOf(k))
  {
    if lines != [] {
      CheckedTotals(snapshot, lines[1..], k);
    }
  }

  /** What a successful return does to its order and to stock. */
  ghost predicate ReturnDone(s: State, s': State, order: Id, lines: seq<Returns.ReturnLine>) {
    && order in s.sales && s'.sales.Keys == s.sales.Keys
    && (forall o :: o in s.sales && o != order ==> s'.sales[o] == s.sales[o])
    && |s'.sales[order].items| == |s.sales[order].items|
    && (forall k :: 0 <= k < |s.sales[order].items| ==>
          s'.sales[order].items[k]
            == s.sales[order].items[k].(returned := s.sales[order].items[k].returned + SumOver(lines, ReturnedOf(k))))
    && s'.sales[order].status == s.sales[order].status
    && s'.products.Keys == s.products.Keys
    && forall p :: p in s.products ==>
         s'.products[p] == s.products[p].(stock := s.products[p].stock
             + ReturnedUnits(s'.sales[order].items, p) - ReturnedUnits(s.sales[order].items, p))
  }

  lemma CreateReturnEffect(s: State, tenant: Id, number: string, order: Id, lines: seq<Returns.ReturnLine>)
    requires Returns.CreateReturn(s, tenant, number, order, lines).Done?
    ensures ReturnDone(s, Returns.CreateReturn(s, tenant, number, order, lines).value, order, lines)
  {
    var items := s.sales[order].items;
    var t := Returns.ReadReturn(s, tenant, order, lines).value;
    CheckedLinesAgree(items, lines);
    MarkReturnedEffect(items, t.lines);
    PutBackEffect(s.products, tenant, Brought(t.lines));
    forall k | 0 <= k < |items| ensures SumOver(t.lines, MarkedOf(k)) == SumOver(lines, ReturnedOf(k)) {
      CheckedTotals(items, lines, k);
    }
    var s' := Returns.CreateReturn(s, tenant, number, order, lines).value;
    forall p | p in s.products
      ensures s'.products[p].stock
           == s.products[p].stock + ReturnedUnits(s'.sales[order].items, p) - ReturnedUnits(items, p)
    {
      MarkCountsUnits(items, t.lines, p);
    }
  }

  // ------------------------------------------------------------------ sequences of returns

  datatype Request = Request(number: string, order: Id, lines: seq<Returns.ReturnLine>)

  function Attempted(s: State, tenant: Id, r: Request): Attempt<State> {
    Try(s, CreateReturn(tenant, r.number, r.order, r.lines))
  }

  /** The state after a sequence of returns, if every one of them succeeds. */
  function ReturnAll(s: State, tenant: Id, rs: seq<Request>): Attempt<State>
    decreases |rs|
  {
    if rs == [] then Done(s) else
      var next :- Attempted(s, tenant, rs[0]);
      ReturnAll(next, tenant, rs[1..])
  }

  function AskedOf(order: Id, k: nat): Request -> int {
    (r: Request) => if r.order == order then SumOver(r.lines, ReturnedOf(k)) else 0
  }

  /** The total a sequence of requests returns of one order line. */
  function Asked(rs: seq<Request>, order: Id, k: nat): int {
    SumOver(rs, AskedOf(order, k))
  }

  function ReturnedIn(s: State, p: Id): Id -> int {
    (o: Id) => if o in s.sales then ReturnedUnits(s.sales[o].items, p) else 0
  }

  ghost predicate Distinct(ids: seq<Id>) {
    forall i, j :: 0 <= i < j < |ids| ==> ids[i] != ids[j]
  }

  /** Sums over a list without repetition that differ at one element only. */
  lemma {:induction false} SumDiffersAt(ids: seq<Id>, o: Id, f: Id -> int, g: Id -> int)
    requires Distinct(ids) && forall x :: x in ids && x != o ==> f(x) == g(x)
    ensures SumOver(ids, g) - SumOver(ids, f) == if o in ids then g(o) - f(o) else 0
  {
    if ids != [] {
      assert ids == [ids[0]] + ids[1..];
      assert forall x :: x in ids[1..] ==> x in ids;
      assert ids[0] !in ids[1..];
      SumDiffersAt(ids[1..], o, f, g);
    }
  }

  /** From one state to a later one by returns alone, given the totals they brought back. */
  ghost predicate Restored(s: State, s': State, ids: seq<Id>, rs: seq<Request>) {
    && s'.sales.Keys == s.sales.Keys && s'.products.Keys == s.products.Keys
    && (forall o :: o in s.sales ==>
          && s'.sales[o].status == s.sales[o].status
          && |s'.sales[o].items| == |s.sales[o].items|
          && forall k :: 0 <= k < |s.sales[o].items| ==>
               s'.sales[o].items[k] == s.sales[o].items[k].(returned := s.sales[o].items[k].returned + Asked(rs, o, k)))
    && forall p :: p in s.products ==>
         s'.products[p] == s.products[p].(stock := s.products[p].stock
             + SumOver(ids, ReturnedIn(s', p)) - SumOver(ids, ReturnedIn(s, p)))
  }

  lemma OneReturnCounts(s: State, s': State, r: Request, ids: seq<Id>, p: Id)
    requires ReturnDone(s, s', r.order, r.lines) && Distinct(ids) && r.order in ids
    requires p in s.products
    ensures s'.products[p] == s.products[p].(stock := s.products[p].stock
              + SumOver(ids, ReturnedIn(s', p)) - SumOver(ids, ReturnedIn(s, p)))
  {
    SumDiffersAt(ids, r.order, ReturnedIn(s, p), ReturnedIn(s', p));
  }

  lemma {:induction false} ReturnAllSound(s: State, tenant: Id, rs: seq<Request>)
    requires Sound(s) && ReturnAll(s, tenant, rs).Done?
    ensures var s' := ReturnAll(s, tenant, rs).value; Sound(s') && OrdersAdvance(s, s')
    decreases |rs|
  {
    if rs != [] {
      var op := CreateReturn(tenant, rs[0].number, rs[0].order, rs[0].lines);
      StepSound(s, op);
      StepAdvances(s, op);
      ReturnAllSound(Step(s, op), tenant, rs[1..]);
      AdvanceTransitive(s, Step(s, op), ReturnAll(s, tenant, rs).value);
    }
  }

  lemma StockCompose(s: State, next: State, final: State, rs: seq<Request>, ids: seq<Id>, p: Id)
    requires rs != [] && Distinct(ids) && rs[0].order in ids && p in s.products
    requires ReturnDone(s, next, rs[0].order, rs[0].lines) && Restored(next, final, ids, rs[1..])
    ensures p in final.products
    ensures final.products[p] == s.products[p].(stock := s.products[p].stock
              + SumOver(ids, ReturnedIn(final, p)) - SumOver(ids, ReturnedIn(s, p)))
  {
    OneReturnCounts(s, next, rs[0], ids, p);
  }

  lemma RestoredCompose(s: State, next: State, final: State, rs: seq<Request>, ids: seq<Id>)
    requires rs != [] && Distinct(ids) && rs[0].order in ids
    requires ReturnDone(s, next, rs[0].order, rs[0].lines) && Restored(next, final, ids, rs[1..])
    ensures Restored(s, final, ids, rs)
  {
    forall p | p in s.products
      ensures final.products[p] == s.products[p].(stock := s.products[p].stock
                + SumOver(ids, ReturnedIn(final, p)) - SumOver(ids, ReturnedIn(s, p)))
    {
      StockCompose(s, next, final, rs, ids, p);
    }
    ItemsAfter(s, next, final, rs, ids);
  }

  lemma {:induction false} ReturnAllEffect(s: State, tenant: Id, rs: seq<Request>, ids: seq<Id>)
    requires ReturnAll(s, tenant, rs).Done?
    requires Distinct(ids) && forall r :: r in rs ==> r.order in ids
    ensures Restored(s, ReturnAll(s, tenant, rs).value, ids, rs)
    decreases |rs|
  {
    if rs != [] {
      var r := rs[0];
      assert r in rs && forall x :: x in rs[1..] ==> x in rs;
      CreateReturnEffect(s, tenant, r.number, r.order, r.lines);
      var next := Attempted(s, tenant, r).value;
      ReturnAllEffect(next, tenant, rs[1..], ids);
      RestoredCompose(s, next, ReturnAll(s, tenant, rs).value, rs, ids);
    }
  }

  lemma ItemsAfter(s: State, next: State, final: State, rs: seq<Request>, ids: seq<Id>)
    requires rs != [] && ReturnDone(s, next, rs[0].order, rs[0].lines) && Restored(next, final, ids, rs[1..])
    ensures forall o :: o in s.sales ==>
              && final.sales[o].status == s.sales[o].status
              && |final.sales[o].items| == |s.sales[o].items|
              && forall k :: 0 <= k < |s.sales[o].items| ==>
                   final.sales[o].items[k]
                       == s.sales[o].items[k].(returned := s.sales[o].items[k].returned + Asked(rs, o, k))
  {
  }

  /** Every finite set of orders can be listed without repetition. */
  lemma {:induction false} ListSet(s: set<Id>) returns (ids: seq<Id>)
    ensures Distinct(ids) && forall x :: x in ids <==> x in s
    decreases |s|
  {
    if s == {} {
      ids := [];
    } else {
      var x :| x in s;
      var rest := ListSet(s - {x});
      ids := [x] + rest;
    }
  }

  lemma SameTotalsSameOrder(a: SalesOrder, b: SalesOrder, refundsA: int, refundsB: int)
    requires OrderSound(a, refundsA) && OrderSound(b, refundsB) && a.items == b.items && a.status == b.status
    requires a.tenant == b.tenant && a.number == b.number && a.createdAt == b.createdAt
    ensures a == b && refundsA == refundsB
  {
  }

  lemma SameAskedSameItems(s: State, x: State, y: State, ids: seq<Id>, a: seq<Request>, b: seq<Request>, o: Id)
    requires Restored(s, x, ids, a) && Restored(s, y, ids, b) && o in s.sales
    requires forall k: nat :: Asked(a, o, k) == Asked(b, o, k)
    ensures x.sales[o].items == y.sales[o].items
  {
  }

  lemma SameAskedSameSales(s: State, x: State, y: State, ids: seq<Id>, a: seq<Request>, b: seq<Request>)
    requires Sound(x) && Sound(y) && OrdersAdvance(s, x) && OrdersAdvance(s, y)
    requires Restored(s, x, ids, a) && Restored(s, y, ids, b)
    requires forall o, k: nat :: Asked(a, o, k) == Asked(b, o, k)
    ensures x.sales == y.sales && forall o :: o in s.sales ==> Refunds(x, o) == Refunds(y, o)
  {
    forall o | o in s.sales ensures x.sales[o] == y.sales[o] && Refunds(x, o) == Refunds(y, o) {
      SameAskedSameItems(s, x, y, ids, a, b, o);
      SameTotalsSameOrder(x.sales[o], y.sales[o], Refunds(x, o), Refunds(y, o));
    }
  }

  lemma SameItemsSameStock(s: State, x: State, y: State, ids: seq<Id>, a: seq<Request>, b: seq<Request>)
    requires Restored(s, x, ids, a) && Restored(s, y, ids, b) && x.sales == y.sales
    ensures x.products == y.products
  {
  }

  /** Main result. Two sequences of successful returns with the same total for each line, in any order and
      however divided, leave the same products, the same orders with the same totals, and the same refunds. */
  lemma ReturnsArePathIndependent(s: State, tenant: Id, a: seq<Request>, b: seq<Request>)
    requires Sound(s)
    requires ReturnAll(s, tenant, a).Done? && ReturnAll(s, tenant, b).Done?
    requires forall o, k: nat :: Asked(a, o, k) == Asked(b, o, k)
    ensures var x, y := ReturnAll(s, tenant, a).value, ReturnAll(s, tenant, b).value;
            x.products == y.products && x.sales == y.sales && forall o :: o in s.sales ==>
                Refunds(x, o) == Refunds(y, o)
  {
    var ids := ListSet((set r | r in a :: r.order) + (set r | r in b :: r.order));
    ReturnAllSound(s, tenant, a);
    ReturnAllSound(s, tenant, b);
    ReturnAllEffect(s, tenant, a, ids);
    ReturnAllEffect(s, tenant, b, ids);
    var x, y := ReturnAll(s, tenant, a).value, ReturnAll(s, tenant, b).value;
    SameAskedSameSales(s, x, y, ids, a, b);
    SameItemsSameStock(s, x, y, ids, a, b);
  }

  // ------------------------------------------------------------------ bounds

  ghost predicate WithinSold(items: seq<OrderItem>) {
    forall i :: i in items ==> 0 <= i.returned <= i.quantity
  }

  ghost predicate AllWithinSold(s: State) {
    forall o :: o in s.sales ==> WithinSold(s.sales[o].items)
  }

  /** For each order line, the lines of one request add up to at most what is left of it. */
  ghost predicate Fits(items: seq<OrderItem>, lines: seq<ReturnItem>) {
    forall k :: 0 <= k < |items| ==> SumOver(lines, MarkedOf(k)) <= items[k].quantity - items[k].returned
  }

  /** A committed return keeps the bound exactly when its lines, added up, fit what is left at that moment. */
  lemma CommitKeepsBoundIffFits(s: State, number: string, t: Returns.ReturnTicket)
    requires TicketSound(s, t) && Returns.CommitReturn(s, number, t).Done?
    requires WithinSold(s.sales[t.order].items)
    ensures WithinSold(Returns.CommitReturn(s, number, t).value.sales[t.order].items) <==>
              Fits(s.sales[t.order].items, t.lines)
  {
    var items := s.sales[t.order].items;
    var after := Returns.CommitReturn(s, number, t).value.sales[t.order].items;
    MarkReturnedEffect(items, t.lines);
    forall k | 0 <= k < |items| ensures SumOver(t.lines, MarkedOf(k)) >= 0 {
      SumNonNegative(t.lines, MarkedOf(k));
    }
    if WithinSold(after) {
      forall k | 0 <= k < |items| ensures SumOver(t.lines, MarkedOf(k)) <= items[k].quantity - items[k].returned {
        assert after[k] in after;
      }
    }
    if Fits(items, t.lines) {
      forall i | i in after ensures 0 <= i.returned <= i.quantity {
        var k :| 0 <= k < |after| && after[k] == i;
        assert items[k] in items;
      }
    }
  }

  ghost predicate DistinctLines(lines: seq<Returns.ReturnLine>) {
    forall i, j :: 0 <= i < j < |lines| ==> lines[i].item != lines[j].item
  }

  /** A request that names no line twice fits, because each line was checked against what is left. */
  lemma {:induction false} DistinctLinesFit(items: seq<OrderItem>, lines: seq<Returns.ReturnLine>, k: nat)
    requires DistinctLines(lines) && Returns.CheckLines(items, lines).Done? && k < |items| && WithinSold(items)
    ensures SumOver(lines, ReturnedOf(k)) <= items[k].quantity - items[k].returned
    ensures (forall l :: l in lines ==> l.item != k) ==> SumOver(lines, ReturnedOf(k)) == 0
  {
    assert items[k] in items;
    if lines != [] {
      assert lines == [lines[0]] + lines[1..];
      DistinctLinesFit(items, lines[1..], k);
      if lines[0].item == k {
        forall l | l in lines[1..] ensures l.item != k {
          var j :| 0 <= j < |lines[1..]| && lines[1..][j] == l;
          assert lines[j + 1] == l;
        }
      }
    }
  }

  ghost predicate DistinctReturn(op: Op) {
    op.CreateReturn? ==> DistinctLines(op.returned)
  }

  lemma ReturnKeepsBound(s: State, op: Op)
    requires AllWithinSold(s) && op.CreateReturn? && DistinctLines(op.returned) && Try(s, op).Done?
    ensures AllWithinSold(Step(s, op))
  {
    var items := s.sales[op.id].items;
    var t := Returns.ReadReturn(s, op.tenant, op.id, op.returned).value;
    ReadReturnSound(s, op.tenant, op.id, op.returned);
    forall k | 0 <= k < |items| ensures SumOver(t.lines, MarkedOf(k)) <= items[k].quantity - items[k].returned {
      DistinctLinesFit(items, op.returned, k);
      CheckedTotals(items, op.returned, k);
    }
    CommitKeepsBoundIffFits(s, op.number, t);
  }

  lemma NewSaleKeepsBound(s: State, op: Op)
    requires AllWithinSold(s) && (op.CreateSale? || op.CreatePendingSale?) && Try(s, op).Done?
    ensures AllWithinSold(Step(s, op))
  {
    BuildItemsEffect(s.products, op.tenant, op.lines);
  }

  lemma RestatusedSaleKeepsBound(s: State, op: Op)
    requires AllWithinSold(s) && (op.CompleteSale? || op.CancelSale?)
    ensures AllWithinSold(Step(s, op))
  {
  }

  lemma StepKeepsBound(s: State, op: Op)
    requires AllWithinSold(s) && DistinctReturn(op)
    ensures AllWithinSold(Step(s, op))
  {
    if Try(s, op).Failed? {
    } else if op.CreateReturn? {
      ReturnKeepsBound(s, op);
    } else if op.CreateSale? || op.CreatePendingSale? {
      NewSaleKeepsBound(s, op);
    } else if op.CompleteSale? || op.CancelSale? {
      RestatusedSaleKeepsBound(s, op);
    } else {
      OtherCallsKeepSales(s, op);
    }
  }

  /** Over whole sequential runs of requests that name no line twice, no line returns more than it sold. */
  lemma {:induction false} NeverMoreThanSold(s: State, ops: seq<Op>)
    requires AllWithinSold(s) && forall op :: op in ops ==> DistinctReturn(op)
    ensures AllWithinSold(Run(s, ops))
    decreases |ops|
  {
    if ops != [] {
      assert ops[0] in ops;
      assert forall op :: op in ops[1..] ==> op in ops;
      StepKeepsBound(s, ops[0]);
      NeverMoreThanSold(Step(s, ops[0]), ops[1..]);
    }
  }

  // ------------------------------------------------------------------ complete reversal

  lemma {:induction false} FullyReturnedUnits(items: seq<OrderItem>, p: Id)
    requires forall i :: i in items ==> i.returned == i.quantity
    ensures ReturnedUnits(items, p) == Units(Sold(items), p)
  {
    if items != [] {
      assert items[0] in items && forall i :: i in items[1..] ==> i in items;
      assert Sold(items)[1..] == Sold(items[1..]);
      UnitsOfHead(Sold(items), p);
      FullyReturnedUnits(items[1..], p);
    }
  }

  /** Once every line is fully returned, COGS and profit are nil and the refunds are the price. */
  lemma FullReturnReversesTotals(s: State, id: Id)
    requires Sound(s) && id in s.sales
    requires forall i :: i in s.sales[id].items ==> i.returned == i.quantity
    ensures s.sales[id].totalCogs == 0 && s.sales[id].totalProfit == 0 && Refunds(s, id) == s.sales[id].totalPrice
  {
    var items := s.sales[id].items;
    SumZero(items, KeptAt(UnitCost));
    SumZero(items, KeptAt(UnitMargin));
    SumCongruent(items, RefundedItem, Sales.ItemPrice);
  }

  /** And the units the sale took out are all back, however the returns were divided. */
  lemma FullReturnRestoresStock(s: State, tenant: Id, id: Id, rs: seq<Request>, p: Id)
    requires ReturnAll(s, tenant, rs).Done? && forall r :: r in rs ==> r.order == id
    requires id in s.sales && p in s.products && forall i :: i in s.sales[id].items ==> i.returned == 0
    requires id in ReturnAll(s, tenant, rs).value.sales
    requires forall i :: i in ReturnAll(s, tenant, rs).value.sales[id].items ==> i.returned == i.quantity
    ensures Stock(ReturnAll(s, tenant, rs).value.products, p) == s.products[p].stock + Units(Sold(s.sales[id].items), p)
  {
    var s' := ReturnAll(s, tenant, rs).value;
    var before, after := s.sales[id].items, s'.sales[id].items;
    ReturnAllEffect(s, tenant, rs, [id]);
    SumZero(before, ReturnedFor(p));
    FullyReturnedUnits(after, p);
    assert Sold(after) == Sold(before);
    SumOfOne(id, ReturnedIn(s, p));
    SumOfOne(id, ReturnedIn(s', p));
  }

  lemma SumOfOne(id: Id, f: Id -> int)
    ensures SumOver([id], f) == f(id)
  {
  }

  // ------------------------------------------------------------------ every return of every order, stale ones included

  function BroughtAgainst(order: Id, p: Id): SalesReturn -> int {
    (r: SalesReturn) => if r.order == order then Units(Brought(r.items), p) else 0
  }

  /** The units of a product that the returns against an order ever put back. */
  function BroughtBack(s: State, order: Id, p: Id): int {
    SumOver(s.salesReturns, BroughtAgainst(order, p))
  }

  /** What the returns of each order brought back is what its lines say came back, product by product. */
  ghost predicate ReturnsCounted(s: State) {
    && (forall o, p :: o in s.sales ==> BroughtBack(s, o, p) == ReturnedUnits(s.sales[o].items, p))
    && (forall r :: r in s.salesReturns ==> r.order in s.sales)
  }

  lemma BroughtAfter(s: State, s': State, row: SalesReturn, o: Id, p: Id)
    requires s'.salesReturns == s.salesReturns + [row]
    ensures BroughtBack(s', o, p) == BroughtBack(s, o, p) + if row.order == o then Units(Brought(row.items), p) else 0
  {
    SumSnoc(s.salesReturns, row, BroughtAgainst(o, p));
  }

  lemma LinesNameTheirProducts(items: seq<OrderItem>, t: Returns.ReturnTicket)
    requires SameItems(t.snapshot, items) && forall l :: l in t.lines ==> LineAgrees(t.snapshot, l)
    ensures forall l :: l in t.lines ==> l.item < |items| && l.product == items[l.item].product
  {
  }

  lemma CommitReturnCounted(s: State, number: string, t: Returns.ReturnTicket)
    requires ReturnsCounted(s) && TicketSound(s, t)
    ensures ReturnsCounted(Commit(s, Returns.CommitReturn(s, number, t)))
  {
    var r := Returns.CommitReturn(s, number, t);
    if r.Done? {
      var s', items := r.value, s.sales[t.order].items;
      var row := SalesReturn(t.tenant, number, t.order, SumOver(t.lines, Returns.RefundOf), t.lines);
      assert s'.salesReturns == s.salesReturns + [row] && s'.sales.Keys == s.sales.Keys;
      LinesNameTheirProducts(items, t);
      forall o, p | o in s'.sales ensures BroughtBack(s', o, p) == ReturnedUnits(s'.sales[o].items, p) {
        BroughtAfter(s, s', row, o, p);
        if o == t.order {
          MarkCountsUnits(items, t.lines, p);
        } else {
          assert s'.sales[o] == s.sales[o];
        }
      }
    }
  }

  lemma NewOrderCounted(s: State, s': State, id: Id, o: SalesOrder)
    requires ReturnsCounted(s) && id !in s.sales && forall i :: i in o.items ==> i.returned == 0
    requires s'.sales == s.sales[id := o] && s'.salesReturns == s.salesReturns
    ensures ReturnsCounted(s')
  {
    forall x, p | x in s'.sales ensures BroughtBack(s', x, p) == ReturnedUnits(s'.sales[x].items, p) {
      if x == id {
        SumZero(s.salesReturns, BroughtAgainst(id, p));
        SumZero(o.items, ReturnedFor(p));
      }
    }
  }

  lemma RestatusedCounted(s: State, s': State, id: Id, status: SalesStatus)
    requires ReturnsCounted(s) && id in s.sales
    requires s'.sales == s.sales[id := s.sales[id].(status := status)] && s'.salesReturns == s.salesReturns
    ensures ReturnsCounted(s')
  {
    forall o, p | o in s'.sales ensures BroughtBack(s', o, p) == ReturnedUnits(s'.sales[o].items, p) {
      assert s'.sales[o].items == s.sales[o].items;
    }
  }

  lemma NewSaleCounted(s: State, op: Op)
    requires ReturnsCounted(s) && (op.CreateSale? || op.CreatePendingSale?) && Try(s, op).Done?
    ensures ReturnsCounted(Step(s, op))
  {
    BuildItemsEffect(s.products, op.tenant, op.lines);
    NewOrderCounted(s, Step(s, op), op.id, Step(s, op).sales[op.id]);
  }

  lemma RestatusedSaleCounted(s: State, op: Op)
    requires ReturnsCounted(s) && (op.CompleteSale? || op.CancelSale?) && Try(s, op).Done?
    ensures ReturnsCounted(Step(s, op))
  {
    RestatusedCounted(s, Step(s, op), op.id, if op.CompleteSale? then SalesCompleted else SalesCancelled);
  }

  lemma StepCounted(s: State, op: Op)
    requires ReturnsCounted(s)
    ensures ReturnsCounted(Step(s, op))
  {
    if Try(s, op).Failed? {
    } else if op.CreateSale? || op.CreatePendingSale? {
      NewSaleCounted(s, op);
    } else if op.CompleteSale? || op.CancelSale? {
      RestatusedSaleCounted(s, op);
    } else if op.CreateReturn? {
      ReadReturnSound(s, op.tenant, op.id, op.returned);
      CommitReturnCounted(s, op.number, Returns.ReadReturn(s, op.tenant, op.id, op.returned).value);
    } else {
      OtherCallsKeepSales(s, op);
    }
  }

  lemma CommitReceiveKeepsSales(s: State, t: Purchasing.ReceiveTicket)
    ensures var s' := Commit(s, Purchasing.CommitReceive(s, t));
            s'.sales == s.sales && s'.salesReturns == s.salesReturns
  {
  }

  lemma NextCounted(c: Config, e: Event)
    requires ReturnsCounted(c.state) && TicketsSound(c)
    ensures ReturnsCounted(Next(c, e).state)
  {
    match e
    case Atomic(op) => StepCounted(c.state, op);
    case CommitReceive(k) =>
      if k in c.receiving { CommitReceiveKeepsSales(c.state, c.receiving[k]); }
    case CommitReturn(k) =>
      if k in c.returning { CommitReturnCounted(c.state, c.returning[k].number, c.returning[k].ticket); }
    case _ =>
  }

  /** Main result. Over every interleaving: the returns of an order have put back, of each product, exactly the units
      that its lines say came back. */
  lemma {:induction false} ReturnsStayCounted(c: Config, es: seq<Event>)
    requires ReturnsCounted(c.state) && TicketsSound(c)
    ensures ReturnsCounted(Play(c, es).state)
    decreases |es|
  {
    if es != [] {
      NextCounted(c, es[0]);
      NextKeepsTickets(c, es[0]);
      ReturnsStayCounted(Next(c, es[0]), es[1..]);
    }
  }

  lemma {:induction false} UnitsWithinSold(items: seq<OrderItem>, p: Id)
    requires WithinSold(items)
    ensures ReturnedUnits(items, p) <= Units(Sold(items), p)
    decreases |items|
  {
    if items != [] {
      assert items[0] in items && forall i :: i in items[1..] ==> i in items;
      assert Sold(items)[1..] == Sold(items[1..]);
      UnitsOfHead(Sold(items), p);
      UnitsWithinSold(items[1..], p);
    }
  }

  lemma {:induction false} AllUnitsAllReturned(items: seq<OrderItem>)
    requires WithinSold(items) && forall p :: ReturnedUnits(items, p) == Units(Sold(items), p)
    ensures forall i :: i in items ==> i.returned == i.quantity
    decreases |items|
  {
    if items != [] {
      var head, rest := items[0], items[1..];
      assert items == [head] + rest;
      assert head in items && forall i :: i in rest ==> i in items;
      forall p
        ensures ReturnedUnits(items, p) == ReturnedFor(p)(head) + ReturnedUnits(rest, p)
        ensures Units(Sold(items), p) == (if head.product == p then head.quantity else 0) + Units(Sold(rest), p)
        ensures ReturnedUnits(rest, p) <= Units(Sold(rest), p)
      {
        assert Sold(items)[1..] == Sold(rest);
        UnitsOfHead(Sold(items), p);
        UnitsWithinSold(rest, p);
      }
      assert ReturnedUnits(items, head.product) == Units(Sold(items), head.product);
      forall p ensures ReturnedUnits(rest, p) == Units(Sold(rest), p) {
        assert ReturnedUnits(items, p) == Units(Sold(items), p);
      }
      AllUnitsAllReturned(rest);
    }
  }

  /** In every state reachable from the empty store, and for every order none of whose lines is over-returned: its
      returns have put all it sold of every product back into stock if and only if every line is fully returned. */
  lemma AllUnitsAreBackIff(es: seq<Event>, id: Id)
    requires var s := Play(Config(EMPTY, map[], map[]), es).state; id in s.sales && WithinSold(s.sales[id].items)
    ensures var s := Play(Config(EMPTY, map[], map[]), es).state;
            (forall p :: BroughtBack(s, id, p) == Units(Sold(s.sales[id].items), p))
            <==> forall i :: i in s.sales[id].items ==> i.returned == i.quantity
  {
    var s := Play(Config(EMPTY, map[], map[]), es).state;
    ReturnsStayCounted(Config(EMPTY, map[], map[]), es);
    var items := s.sales[id].items;
    forall p ensures BroughtBack(s, id, p) == ReturnedUnits(items, p) {}
    if forall i :: i in items ==> i.returned == i.quantity {
      forall p ensures BroughtBack(s, id, p) == Units(Sold(items), p) {
        FullyReturnedUnits(items, p);
      }
    }
    if forall p :: BroughtBack(s, id, p) == Units(Sold(items), p) {
      forall p ensures ReturnedUnits(items, p) == Units(Sold(items), p) {
        assert BroughtBack(s, id, p) == Units(Sold(items), p);
      }
      AllUnitsAllReturned(items);
    }
  }
}
