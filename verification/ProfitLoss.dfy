/** `getProfitLoss`: the report's folds over completed orders, and their agreement with the returns table. */
module ProfitLoss {
  import opened Cents
  import opened Sums
  import opened Store
  import opened Totals
  import opened Database
  import opened Arithmetic
  import Sales

  /** The date filter: either end may be missing. */
  predicate InPeriod(createdAt: int, from: Option<int>, to: Option<int>) {
    && (from.Some? ==> from.value <= createdAt)
    && (to.Some? ==> createdAt <= to.value)
  }

  predicate Selected(o: SalesOrder, tenant: Id, from: Option<int>, to: Option<int>) {
    o.tenant == tenant && o.status == SalesCompleted && InPeriod(o.createdAt, from, to)
  }

  ghost predicate NoRepeats(ids: seq<Id>) {
    forall i, j :: 0 <= i < j < |ids| ==> ids[i] != ids[j]
  }

  /** The rows the query returns, each order once and nothing else, in whatever order: the tenant's COMPLETED orders
      made at the start or later and at the end or earlier, where there is a start or an end. */
  ghost predicate IsSelection(sales: map<Id, SalesOrder>, ids: seq<Id>, tenant: Id, from: Option<int>,
                              to: Option<int>) {
    && NoRepeats(ids)
    && (forall id :: id in ids <==>
          && id in sales && sales[id].tenant == tenant && sales[id].status == SalesCompleted
          && (from.Some? ==> from.value <= sales[id].createdAt)
          && (to.Some? ==> sales[id].createdAt <= to.value))
  }

  // ------------------------------------------------------------------ periods add up

  lemma {:induction false} CountOfDistinct(ids: seq<Id>, x: Id)
    requires NoRepeats(ids)
    ensures multiset(ids)[x] == if x in ids then 1 else 0
  {
    if ids != [] {
      assert ids == [ids[0]] + ids[1..];
      CountOfDistinct(ids[1..], x);
      assert ids[0] !in ids[1..];
    }
  }

  lemma SameElementsSameSum(a: seq<Id>, b: seq<Id>, f: Id -> int)
    requires NoRepeats(a) && NoRepeats(b) && forall x :: x in a <==> x in b
    ensures |a| == |b| && SumOver(a, f) == SumOver(b, f)
  {
    forall x ensures multiset(a)[x] == multiset(b)[x] {
      CountOfDistinct(a, x);
      CountOfDistinct(b, x);
    }
    assert multiset(a) == multiset(b);
    assert |a| == |multiset(a)| == |multiset(b)| == |b|;
    SumPermuted(a, b, f);
  }

  /** The orders of a period are those of its two parts: up to an instant, and from the next one on. So every count and
      every total of the report adds up. */
  lemma PeriodsAddUp(sales: map<Id, SalesOrder>, tenant: Id, from: Option<int>, middle: int, to: Option<int>,
                     early: seq<Id>, late: seq<Id>, all: seq<Id>, f: Id -> int)
    requires from.Some? ==> from.value <= middle + 1
    requires to.Some? ==> middle <= to.value
    requires IsSelection(sales, early, tenant, from, Some(middle))
               && IsSelection(sales, late, tenant, Some(middle + 1), to)
    requires IsSelection(sales, all, tenant, from, to)
    ensures |all| == |early| + |late| && SumOver(all, f) == SumOver(early, f) + SumOver(late, f)
  {
    forall x | x in early ensures x !in late {}
    forall x ensures x in early + late <==> x in all {
      assert x in early + late <==> x in early || x in late;
    }
    forall i, j | 0 <= i < j < |early + late| ensures (early + late)[i] != (early + late)[j] {
      if i < |early| <= j {
        assert early[i] in early && late[j - |early|] in late;
      }
    }
    SameElementsSameSum(all, early + late, f);
    SumConcat(early, late, f);
  }

  // ------------------------------------------------------------------ what the totals are made of

  /** The order's price, and what the customer kept at the frozen unit cost and unit margin. */
  function PriceOfLines(sales: map<Id, SalesOrder>): Id -> int {
    (id: Id) => if id in sales then SumOver(sales[id].items, Sales.ItemPrice) else 0
  }

  function KeptCost(sales: map<Id, SalesOrder>): Id -> int {
    (id: Id) => if id in sales then Kept(sales[id].items, UnitCost) else 0
  }

  function KeptMargin(sales: map<Id, SalesOrder>): Id -> int {
    (id: Id) => if id in sales then Kept(sales[id].items, UnitMargin) else 0
  }

  /** In a sound state the three totals are the prices of the lines, and the kept units at frozen cost and margin. */
  lemma TotalsOfKeptUnits(s: State, ids: seq<Id>)
    requires Sound(s) && forall id :: id in ids ==> id in s.sales
    ensures SumOver(ids, RevenueIn(s.sales)) == SumOver(ids, PriceOfLines(s.sales))
    ensures SumOver(ids, CogsIn(s.sales)) == SumOver(ids, KeptCost(s.sales))
    ensures SumOver(ids, ProfitIn(s.sales)) == SumOver(ids, KeptMargin(s.sales))
  {
    SumCongruent(ids, RevenueIn(s.sales), PriceOfLines(s.sales));
    SumCongruent(ids, CogsIn(s.sales), KeptCost(s.sales));
    SumCongruent(ids, ProfitIn(s.sales), KeptMargin(s.sales));
  }

  function RevenueIn(sales: map<Id, SalesOrder>): Id -> int {
    (id: Id) => if id in sales then sales[id].totalPrice else 0
  }

  function CogsIn(sales: map<Id, SalesOrder>): Id -> int {
    (id: Id) => if id in sales then sales[id].totalCogs else 0
  }

  function ProfitIn(sales: map<Id, SalesOrder>): Id -> int {
    (id: Id) => if id in sales then sales[id].totalProfit else 0
  }

  function RefundIn(ids: seq<Id>): SalesReturn -> int {
    (r: SalesReturn) => if r.order in ids then r.totalRefund else 0
  }

  function RefundsOf(s: State): Id -> int {
    (id: Id) => Refunds(s, id)
  }

  /** Exchanging the sums: refunds by order, and refunds of the returns table against a list of distinct orders. */
  lemma {:induction false} RefundsByOrder(s: State, ids: seq<Id>)
    requires NoRepeats(ids)
    ensures SumOver(ids, RefundsOf(s)) == SumOver(s.salesReturns, RefundIn(ids))
  {
    if ids == [] {
      SumZero(s.salesReturns, RefundIn(ids));
    } else {
      RefundsByOrder(s, ids[1..]);
      assert ids == [ids[0]] + ids[1..];
      forall r: SalesReturn ensures RefundIn(ids)(r) == RefundAgainst(ids[0])(r) + RefundIn(ids[1..])(r) {
        assert r.order in ids <==> r.order == ids[0] || r.order in ids[1..];
        assert ids[0] !in ids[1..];
      }
      SumSplit(s.salesReturns, RefundIn(ids), RefundAgainst(ids[0]), RefundIn(ids[1..]));
    }
  }

  function CogsAndProfitIn(sales: map<Id, SalesOrder>): Id -> int {
    (id: Id) => if id in sales then sales[id].totalCogs + sales[id].totalProfit else 0
  }

  lemma RevenueByOrder(s: State, ids: seq<Id>)
    requires Sound(s) && forall id :: id in ids ==> id in s.sales
    ensures SumOver(ids, RevenueIn(s.sales))
         == SumOver(ids, CogsIn(s.sales)) + SumOver(ids, ProfitIn(s.sales)) + SumOver(ids, RefundsOf(s))
  {
    forall id | id in ids
      ensures RevenueIn(s.sales)(id) == CogsAndProfitIn(s.sales)(id) + RefundsOf(s)(id)
    {
      PriceIsCogsPlusProfitPlusRefunds(s, id);
    }
    SumSplit(ids, RevenueIn(s.sales), CogsAndProfitIn(s.sales), RefundsOf(s));
    SumSplit(ids, CogsAndProfitIn(s.sales), CogsIn(s.sales), ProfitIn(s.sales));
  }

  /** Main result. For every sound state and every date filter, revenue is COGS plus profit plus every refund
      ever made against the selected orders. */
  lemma RevenueAgreesWithLedger(s: State, ids: seq<Id>, tenant: Id, from: Option<int>, to: Option<int>)
    requires Sound(s) && IsSelection(s.sales, ids, tenant, from, to)
    ensures SumOver(ids, RevenueIn(s.sales))
         == SumOver(ids, CogsIn(s.sales)) + SumOver(ids, ProfitIn(s.sales))
            + SumOver(s.salesReturns, RefundIn(ids))
  {
    RevenueByOrder(s, ids);
    RefundsByOrder(s, ids);
  }

  lemma MarginTimesRevenue(profit: real, revenue: real)
    requires revenue > 0.0
    ensures profit / revenue * 100.0 * revenue == 100.0 * profit
  {
  }

  datatype Report = Report(totalOrders: nat, totalRevenue: Cents, totalCogs: Cents, totalProfit: Cents,
                           profitMargin: real, averageOrderValue: real)

  class Service {
    const prisma: Prisma

    constructor (prisma: Prisma)
      ensures this.prisma == prisma
    {
      this.prisma := prisma;
    }

    /** `salesOrder.findMany` through the tenant client. */
    method FindCompleted(tenant: Id, from: Option<int>, to: Option<int>) returns (ids: seq<Id>)
      ensures IsSelection(prisma.sales, ids, tenant, from, to)
      ensures forall id :: id in ids <==>
                && id in prisma.sales && prisma.sales[id].tenant == tenant && prisma.sales[id].status == SalesCompleted
                && (from.Some? ==> from.value <= prisma.sales[id].createdAt)
                && (to.Some? ==> prisma.sales[id].createdAt <= to.value)
    {
      ids := [];
      var left := prisma.sales.Keys;
      while left != {}
        invariant left <= prisma.sales.Keys
        invariant forall i, j :: 0 <= i < j < |ids| ==> ids[i] != ids[j]
        invariant forall id :: id in ids <==>
                    id in prisma.sales && id !in left && Selected(prisma.sales[id], tenant, from, to)
        decreases |left|
      {
        var id :| id in left;
        if Selected(prisma.sales[id], tenant, from, to) {
          assert id !in ids;
          ids := ids + [id];
        }
        left := left - {id};
      }
    }

    /** The two ratios, zero where their divisor would not be positive. */
    method Ratios(revenue: Cents, profit: Cents, orders: nat) returns (margin: real, average: real)
      ensures if revenue > 0 then margin * revenue as real == 100.0 * profit as real else margin == 0.0
      ensures if orders > 0 then average * orders as real == revenue as real else average == 0.0
    {
      margin, average := 0.0, 0.0;
      if revenue > 0 {
        MarginTimesRevenue(profit as real, revenue as real);
        margin := profit as real / revenue as real * 100.0;
      }
      if orders > 0 {
        DivideBack(revenue as real, orders as real);
        average := revenue as real / orders as real;
      }
    }

    /** The folds over the rows, and the ratios. */
    method Summary(orders: seq<Id>) returns (report: Report)
      ensures report.totalOrders == |orders|
      ensures report.totalRevenue == SumOver(orders, RevenueIn(prisma.sales))
      ensures report.totalCogs == SumOver(orders, CogsIn(prisma.sales))
      ensures report.totalProfit == SumOver(orders, ProfitIn(prisma.sales))
      ensures if report.totalRevenue > 0
              then report.profitMargin * report.totalRevenue as real == 100.0 * report.totalProfit as real
              else report.profitMargin == 0.0
      ensures if report.totalOrders > 0
              then report.averageOrderValue * report.totalOrders as real == report.totalRevenue as real
              else report.averageOrderValue == 0.0
    {
      var revenue := SumOver(orders, RevenueIn(prisma.sales));
      var cogs := SumOver(orders, CogsIn(prisma.sales));
      var profit := SumOver(orders, ProfitIn(prisma.sales));
      var margin, average := Ratios(revenue, profit, |orders|);
      report := Report(|orders|, revenue, cogs, profit, margin, average);
    }

    method GetProfitLoss(tenant: Id, from: Option<int>, to: Option<int>) returns (report: Report, ghost ids: seq<Id>)
      ensures IsSelection(prisma.sales, ids, tenant, from, to) && report.totalOrders == |ids|
      ensures forall id :: id in ids <==>
                && id in prisma.sales && prisma.sales[id].tenant == tenant && prisma.sales[id].status == SalesCompleted
                && (from.Some? ==> from.value <= prisma.sales[id].createdAt)
                && (to.Some? ==> prisma.sales[id].createdAt <= to.value)
      ensures report.totalRevenue == SumOver(ids, RevenueIn(prisma.sales))
      ensures report.totalCogs == SumOver(ids, CogsIn(prisma.sales))
      ensures report.totalProfit == SumOver(ids, ProfitIn(prisma.sales))
      ensures Sound(prisma.Snapshot()) ==>
                report.totalRevenue
                    == report.totalCogs + report.totalProfit + SumOver(prisma.salesReturns, RefundIn(ids))
      ensures Sound(prisma.Snapshot()) ==>
                && report.totalRevenue == SumOver(ids, PriceOfLines(prisma.sales))
                && report.totalCogs == SumOver(ids, KeptCost(prisma.sales))
                && report.totalProfit == SumOver(ids, KeptMargin(prisma.sales))
      ensures if report.totalRevenue > 0
              then report.profitMargin * report.totalRevenue as real == 100.0 * report.totalProfit as real
              else report.profitMargin == 0.0
      ensures if report.totalOrders > 0
              then report.averageOrderValue * report.totalOrders as real == report.totalRevenue as real
              else report.averageOrderValue == 0.0
    {
      var orders := FindCompleted(tenant, from, to);
      ids := orders;
      report := Summary(orders);
      if Sound(prisma.Snapshot()) {
        RevenueAgreesWithLedger(prisma.Snapshot(), orders, tenant, from, to);
        TotalsOfKeptUnits(prisma.Snapshot(), orders);
      }
    }
  }
}
