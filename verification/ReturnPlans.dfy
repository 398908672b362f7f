/** Which sequences of returns go through: those that ask of each order line no more, in all, than is left of it. */
module ReturnPlans {
  import opened Sums
  import opened Store
  import opened Machine
  import opened Effects
  import opened Orders
  import opened ReturnPaths
  import opened Outcomes
  import Returns

  ghost predicate DistinctRequests(rs: seq<Request>) {
    forall r :: r in rs ==> DistinctLines(r.lines)
  }

  ghost predicate OrdersReturnable(s: State, tenant: Id, rs: seq<Request>) {
    forall r :: r in rs ==> OwnSale(s, tenant, r.order) && s.sales[r.order].status == SalesCompleted
  }

  /** No return number is in use, or used twice. */
  ghost predicate NumbersFree(s: State, tenant: Id, rs: seq<Request>) {
    && (forall r :: r in rs ==> !Returns.NumberTaken(s.salesReturns, tenant, r.number))
    && forall i, j :: 0 <= i < j < |rs| ==> rs[i].number != rs[j].number
  }

  /** An order line with at least `asked` units left to return. */
  ghost predicate HasLeft(s: State, order: Id, k: nat, asked: int) {
    && order in s.sales && k < |s.sales[order].items|
    && asked <= s.sales[order].items[k].quantity - s.sales[order].items[k].returned
  }

  /** Every line named has left what the whole sequence asks of it. */
  ghost predicate TotalsFit(s: State, rs: seq<Request>) {
    forall r, l :: r in rs && l in r.lines ==> HasLeft(s, r.order, l.item, Asked(rs, r.order, l.item))
  }

  // ------------------------------------------------------------------ totals

  lemma AskedOfHead(rs: seq<Request>, order: Id, k: nat)
    requires rs != []
    ensures Asked(rs, order, k) == AskedOf(order, k)(rs[0]) + Asked(rs[1..], order, k)
  {
  }

  lemma {:induction false} AskedNonNegative(rs: seq<Request>, order: Id, k: nat)
    ensures Asked(rs, order, k) >= 0
  {
    if rs != [] {
      SumNonNegative(rs[0].lines, ReturnedOf(k));
      AskedNonNegative(rs[1..], order, k);
    }
  }

  lemma {:induction false} NotNamedNotAsked(rs: seq<Request>, order: Id, k: nat)
    requires forall r, l :: r in rs && l in r.lines ==> !(r.order == order && l.item == k)
    ensures Asked(rs, order, k) == 0
  {
    if rs != [] {
      assert rs[0] in rs && forall r :: r in rs[1..] ==> r in rs;
      if rs[0].order == order { SumZero(rs[0].lines, ReturnedOf(k)); }
      NotNamedNotAsked(rs[1..], order, k);
    }
  }

  lemma {:induction false} LineIsCounted(lines: seq<Returns.ReturnLine>, l: Returns.ReturnLine)
    requires l in lines
    ensures SumOver(lines, ReturnedOf(l.item)) >= l.quantity
    ensures DistinctLines(lines) ==> SumOver(lines, ReturnedOf(l.item)) == l.quantity
  {
    assert lines == [lines[0]] + lines[1..];
    if lines[0] == l {
      SumNonNegative(lines[1..], ReturnedOf(l.item));
      if DistinctLines(lines) {
        forall x | x in lines[1..] ensures x.item != l.item {
          var k :| 0 <= k < |lines[1..]| && lines[1..][k] == x;
          assert lines[k + 1] == x;
        }
        SumZero(lines[1..], ReturnedOf(l.item));
      }
    } else {
      LineIsCounted(lines[1..], l);
      if DistinctLines(lines) {
        var k :| 0 <= k < |lines| && lines[k] == l;
        assert lines[0].item != lines[k].item;
      }
    }
  }

  // ------------------------------------------------------------------ one return of a sequence

  /** What a return leaves of a line is what was left, less what it asked. */
  lemma LeftAfter(s: State, next: State, rs: seq<Request>, order: Id, k: nat)
    requires rs != [] && ReturnDone(s, next, rs[0].order, rs[0].lines)
    ensures HasLeft(next, order, k, Asked(rs[1..], order, k)) <==> HasLeft(s, order, k, Asked(rs, order, k))
  {
    AskedOfHead(rs, order, k);
  }

  lemma HeadFits(s: State, rs: seq<Request>)
    requires rs != [] && TotalsFit(s, rs) && rs[0].order in s.sales
    ensures LinesAcceptable(s.sales[rs[0].order].items, rs[0].lines)
  {
    var r := rs[0];
    forall l | l in r.lines ensures HasLeft(s, r.order, l.item, l.quantity) {
      AskedOfHead(rs, r.order, l.item);
      LineIsCounted(r.lines, l);
      AskedNonNegative(rs[1..], r.order, l.item);
      assert HasLeft(s, r.order, l.item, Asked(rs, r.order, l.item));
    }
  }

  lemma RestFits(s: State, next: State, rs: seq<Request>)
    requires rs != [] && ReturnDone(s, next, rs[0].order, rs[0].lines) && TotalsFit(s, rs)
    ensures TotalsFit(next, rs[1..])
  {
    forall r, l | r in rs[1..] && l in r.lines ensures HasLeft(next, r.order, l.item, Asked(rs[1..], r.order, l.item)) {
      assert r in rs;
      LeftAfter(s, next, rs, r.order, l.item);
    }
  }

  /** A line of the first request fits if the later requests fit, or do not name it. */
  lemma HeadLineFits(s: State, next: State, rs: seq<Request>, l: Returns.ReturnLine)
    requires rs != [] && ReturnDone(s, next, rs[0].order, rs[0].lines) && TotalsFit(next, rs[1..])
    requires DistinctLines(rs[0].lines) && LinesAcceptable(s.sales[rs[0].order].items, rs[0].lines) && l in rs[0].lines
    ensures HasLeft(s, rs[0].order, l.item, Asked(rs, rs[0].order, l.item))
  {
    var order := rs[0].order;
    LeftAfter(s, next, rs, order, l.item);
    if r, x :| r in rs[1..] && x in r.lines && r.order == order && x.item == l.item {
      assert HasLeft(next, r.order, x.item, Asked(rs[1..], r.order, x.item));
    } else {
      NotNamedNotAsked(rs[1..], order, l.item);
      AskedOfHead(rs, order, l.item);
      LineIsCounted(rs[0].lines, l);
    }
  }

  lemma WholeFits(s: State, next: State, rs: seq<Request>)
    requires rs != [] && ReturnDone(s, next, rs[0].order, rs[0].lines) && TotalsFit(next, rs[1..])
    requires DistinctLines(rs[0].lines) && LinesAcceptable(s.sales[rs[0].order].items, rs[0].lines)
    ensures TotalsFit(s, rs)
  {
    assert rs == [rs[0]] + rs[1..];
    forall r, l | r in rs && l in r.lines ensures HasLeft(s, r.order, l.item, Asked(rs, r.order, l.item)) {
      if r in rs[1..] {
        LeftAfter(s, next, rs, r.order, l.item);
      } else {
        HeadLineFits(s, next, rs, l);
      }
    }
  }

  lemma OrdersStayReturnable(s: State, next: State, tenant: Id, rs: seq<Request>)
    requires OrdersAdvance(s, next) && next.sales.Keys == s.sales.Keys
    requires forall o :: o in s.sales ==> next.sales[o].status == s.sales[o].status
    ensures OrdersReturnable(next, tenant, rs) <==> OrdersReturnable(s, tenant, rs)
  {
  }

  /** A return adds its own number to those in use. */
  lemma NumbersAfter(s: State, next: State, tenant: Id, rs: seq<Request>, row: SalesReturn)
    requires rs != [] && next.salesReturns == s.salesReturns + [row] && row.tenant == tenant
               && row.number == rs[0].number
    requires !Returns.NumberTaken(s.salesReturns, tenant, rs[0].number)
    ensures NumbersFree(next, tenant, rs[1..]) <==> NumbersFree(s, tenant, rs)
  {
    assert rs == [rs[0]] + rs[1..];
    forall n
      ensures Returns.NumberTaken(next.salesReturns, tenant, n) <==>
                Returns.NumberTaken(s.salesReturns, tenant, n) || n == row.number
    {
      assert row in next.salesReturns && forall r :: r in s.salesReturns ==> r in next.salesReturns;
    }
    if NumbersFree(next, tenant, rs[1..]) {
      forall i, j | 0 <= i < j < |rs| ensures rs[i].number != rs[j].number {
        assert rs[j] == rs[1..][j - 1] && rs[1..][j - 1] in rs[1..];
        if i > 0 { assert rs[i] == rs[1..][i - 1]; }
      }
    }
    if NumbersFree(s, tenant, rs) {
      forall r | r in rs[1..] ensures r.number != row.number {
        var j :| 0 <= j < |rs[1..]| && rs[1..][j] == r;
        assert rs[j + 1] == r;
      }
      forall i, j | 0 <= i < j < |rs[1..]| ensures rs[1..][i].number != rs[1..][j].number {
        assert rs[1..][i] == rs[i + 1] && rs[1..][j] == rs[j + 1];
      }
    }
  }

  /** What the rest of the sequence finds after its first return. */
  lemma AfterFirst(s: State, tenant: Id, rs: seq<Request>)
    requires rs != [] && ItemsStocked(s) && Attempted(s, tenant, rs[0]).Done?
    ensures var next := Attempted(s, tenant, rs[0]).value;
            && ItemsStocked(next) && ReturnDone(s, next, rs[0].order, rs[0].lines)
            && (OrdersReturnable(next, tenant, rs[1..]) <==> OrdersReturnable(s, tenant, rs[1..]))
            && (NumbersFree(next, tenant, rs[1..]) <==> NumbersFree(s, tenant, rs))
  {
    var r := rs[0];
    var op := CreateReturn(tenant, r.number, r.order, r.lines);
    var next := Attempted(s, tenant, r).value;
    assert Step(s, op) == next;
    NextKeepsItemsStocked(Config(s, map[], map[]), Atomic(op));
    CreateReturnEffect(s, tenant, r.number, r.order, r.lines);
    StepAdvances(s, op);
    OrdersStayReturnable(s, next, tenant, rs[1..]);
    var t := Returns.ReadReturn(s, tenant, r.order, r.lines).value;
    NumbersAfter(s, next, tenant, rs,
                 SalesReturn(tenant, r.number, r.order, SumOver(t.lines, Returns.RefundOf), t.lines));
  }

  /** Main result. In a stocked state, a sequence of returns whose requests name no line twice goes through if and only
      if its orders are COMPLETED orders of the tenant, its numbers are free and all different, and every line has left
      what the sequence asks of it in all. */
  lemma {:induction false} PlanSucceedsIff(s: State, tenant: Id, rs: seq<Request>)
    requires ItemsStocked(s) && DistinctRequests(rs)
    ensures ReturnAll(s, tenant, rs).Done? <==>
              OrdersReturnable(s, tenant, rs) && NumbersFree(s, tenant, rs) && TotalsFit(s, rs)
    decreases |rs|
  {
    if rs != [] {
      var r, rest := rs[0], rs[1..];
      assert rs == [r] + rest && r in rs && forall x :: x in rest ==> x in rs;
      ReturnOutcome(s, tenant, r.number, r.order, r.lines);
      if Attempted(s, tenant, r).Done? {
        var next := Attempted(s, tenant, r).value;
        AfterFirst(s, tenant, rs);
        PlanSucceedsIff(next, tenant, rest);
        if TotalsFit(s, rs) { RestFits(s, next, rs); }
        if TotalsFit(next, rest) { WholeFits(s, next, rs); }
      } else if OrdersReturnable(s, tenant, rs) && TotalsFit(s, rs) {
        HeadFits(s, rs);
      }
    }
  }

  /** Success is path-independent too: only the totals count. */
  lemma SameTotalsSucceedTogether(s: State, tenant: Id, a: seq<Request>, b: seq<Request>)
    requires ItemsStocked(s) && DistinctRequests(a) && DistinctRequests(b)
    requires OrdersReturnable(s, tenant, a) && NumbersFree(s, tenant, a)
    requires OrdersReturnable(s, tenant, b) && NumbersFree(s, tenant, b)
    requires forall o, k: nat :: Asked(a, o, k) == Asked(b, o, k)
    ensures ReturnAll(s, tenant, a).Done? <==> ReturnAll(s, tenant, b).Done?
  {
    PlanSucceedsIff(s, tenant, a);
    PlanSucceedsIff(s, tenant, b);
    if TotalsFit(s, a) { SameTotalsFit(s, a, b); }
    if TotalsFit(s, b) { SameTotalsFit(s, b, a); }
  }

  lemma SameTotalsFit(s: State, a: seq<Request>, b: seq<Request>)
    requires TotalsFit(s, a) && forall o, k: nat :: Asked(a, o, k) == Asked(b, o, k)
    ensures TotalsFit(s, b)
  {
    forall r, l | r in b && l in r.lines ensures HasLeft(s, r.order, l.item, Asked(b, r.order, l.item)) {
      NamedIsAsked(b, r, l);
      if forall x, y :: x in a && y in x.lines ==> !(x.order == r.order && y.item == l.item) {
        NotNamedNotAsked(a, r.order, l.item);
      } else {
        var x, y :| x in a && y in x.lines && x.order == r.order && y.item == l.item;
        assert HasLeft(s, x.order, y.item, Asked(a, x.order, y.item));
      }
    }
  }

  lemma {:induction false} NamedIsAsked(rs: seq<Request>, r: Request, l: Returns.ReturnLine)
    requires r in rs && l in r.lines
    ensures Asked(rs, r.order, l.item) > 0
  {
    assert rs == [rs[0]] + rs[1..];
    AskedOfHead(rs, r.order, l.item);
    SumNonNegative(rs[0].lines, ReturnedOf(l.item));
    AskedNonNegative(rs[1..], r.order, l.item);
    if r == rs[0] {
      LineIsCounted(r.lines, l);
    } else {
      NamedIsAsked(rs[1..], r, l);
    }
  }
}
