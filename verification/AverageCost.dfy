/** The moving average: its batch form in exact arithmetic, and exactly when its stored value keeps within the old
    average and the prices paid. */
module AverageCost {
  import opened Cents
  import opened Sums
  import opened Arithmetic
  import opened Store
  import opened Machine
  import opened Effects
  import opened StockLedger
  import Purchasing
  import Sales
  import Returns
  import Inventory
  import BulkInputs

  // ------------------------------------------------------------------ incremental form = batch form

  function ItemUnits(i: PurchaseItem): int {
    i.quantity
  }

  /** The moving average over receipts of one product, nothing rounded and nothing sold in between. */
  function Incremental(average: real, stock: int, receipts: seq<PurchaseItem>): real
    decreases |receipts|
  {
    if receipts == [] then average else
      Incremental(Purchasing.WeightedAverage(average, stock, receipts[0].unitPrice, receipts[0].quantity),
                  stock + receipts[0].quantity, receipts[1..])
  }

  function UnitsIn(receipts: seq<PurchaseItem>): int {
    SumOver(receipts, ItemUnits)
  }

  lemma {:induction false} UnitsInAtLeast(receipts: seq<PurchaseItem>)
    ensures UnitsIn(receipts) >= |receipts|
  {
    if receipts != [] { UnitsInAtLeast(receipts[1..]); }
  }

  /** Adding the value of one receipt to the value of the rest: only the products count here. */
  lemma OneMoreReceipt(final: real, next: real, average: real, stock: int, quantity: int, units: int, cost: int,
                       costs: int)
    requires final * (stock + quantity + units) as real == next * (stock + quantity) as real + costs as real
    requires next * (stock + quantity) as real == average * stock as real + cost as real
    ensures final * (stock + (quantity + units)) as real == average * stock as real + (cost + costs) as real
  {
    assert (cost + costs) as real == cost as real + costs as real;
    assert stock + (quantity + units) == stock + quantity + units;
  }

  lemma MulByTotal(average: real, stock: int, price: Cents, quantity: Quantity)
    requires stock + quantity > 0
    ensures Purchasing.WeightedAverage(average, stock, price, quantity) * (stock + quantity) as real
         == average * stock as real + (price * quantity) as real
  {
    DivideBack(average * stock as real + (price * quantity) as real, (stock + quantity) as real);
  }

  /** Receiving one by one gives the average of the whole, times the whole, if the first receipt leaves stock above
      zero. */
  lemma {:induction false} IncrementalTimesStock(average: real, stock: int, receipts: seq<PurchaseItem>)
    requires receipts != [] ==> stock + receipts[0].quantity > 0
    ensures Incremental(average, stock, receipts) * (stock + UnitsIn(receipts)) as real
         == average * stock as real + SumOver(receipts, Purchasing.ItemCost) as real
    decreases |receipts|
  {
    if receipts != [] {
      var head, rest := receipts[0], receipts[1..];
      var next := Purchasing.WeightedAverage(average, stock, head.unitPrice, head.quantity);
      IncrementalTimesStock(next, stock + head.quantity, rest);
      MulByTotal(average, stock, head.unitPrice, head.quantity);
      OneMoreReceipt(Incremental(next, stock + head.quantity, rest), next, average, stock, head.quantity, UnitsIn(rest),
                     Purchasing.ItemCost(head), SumOver(rest, Purchasing.ItemCost));
      assert UnitsIn(receipts) == head.quantity + UnitsIn(rest);
      assert SumOver(receipts, Purchasing.ItemCost) == Purchasing.ItemCost(head) + SumOver(rest, Purchasing.ItemCost);
    }
  }

  /** The incremental average is the batch average. */
  lemma IncrementalIsBatch(average: real, stock: int, receipts: seq<PurchaseItem>)
    requires receipts != [] && stock + receipts[0].quantity > 0
    ensures stock + UnitsIn(receipts) > 0
    ensures Incremental(average, stock, receipts)
         == (average * stock as real + SumOver(receipts, Purchasing.ItemCost) as real)
            / (stock + UnitsIn(receipts)) as real
  {
    UnitsInAtLeast(receipts[1..]);
    IncrementalTimesStock(average, stock, receipts);
    QuotientIs(Incremental(average, stock, receipts), (stock + UnitsIn(receipts)) as real,
               average * stock as real + SumOver(receipts, Purchasing.ItemCost) as real);
  }

  /** A first receipt that leaves no stock above zero forgets the average before it. */
  lemma AverageForgotten(x: real, y: real, stock: int, receipts: seq<PurchaseItem>)
    requires receipts != [] && stock + receipts[0].quantity <= 0
    ensures Incremental(x, stock, receipts) == Incremental(y, stock, receipts)
  {
  }

  ghost predicate BatchHolds(average: real, stock: int, receipts: seq<PurchaseItem>) {
    Incremental(average, stock, receipts) * (stock + UnitsIn(receipts)) as real
      == average * stock as real + SumOver(receipts, Purchasing.ItemCost) as real
  }

  /** Exactly: the batch form holds from every average if and only if the first receipt leaves stock above zero. */
  lemma IncrementalIsBatchIff(stock: int, receipts: seq<PurchaseItem>)
    requires receipts != []
    ensures (forall average :: BatchHolds(average, stock, receipts)) <==> stock + receipts[0].quantity > 0
  {
    if stock + receipts[0].quantity > 0 {
      forall average ensures BatchHolds(average, stock, receipts) {
        IncrementalTimesStock(average, stock, receipts);
      }
    } else {
      AverageForgotten(0.0, 1.0, stock, receipts);
      assert !(BatchHolds(0.0, stock, receipts) && BatchHolds(1.0, stock, receipts));
    }
  }

  // ------------------------------------------------------------------ the order of receipts

  /** The order of receipts does not matter, as long as the first one leaves stock above zero. */
  lemma IncrementalPermuted(average: real, stock: int, a: seq<PurchaseItem>, b: seq<PurchaseItem>)
    requires multiset(a) == multiset(b)
    requires a != [] && b != [] ==> stock + a[0].quantity > 0 && stock + b[0].quantity > 0
    ensures Incremental(average, stock, a) == Incremental(average, stock, b)
  {
    assert |a| == |multiset(a)| == |multiset(b)| == |b|;
    if a != [] {
      SumPermuted(a, b, ItemUnits);
      SumPermuted(a, b, Purchasing.ItemCost);
      IncrementalIsBatch(average, stock, a);
      IncrementalIsBatch(average, stock, b);
    }
  }

  lemma {:induction false} IncrementalConcat(average: real, stock: int, a: seq<PurchaseItem>, b: seq<PurchaseItem>)
    ensures Incremental(average, stock, a + b) == Incremental(Incremental(average, stock, a), stock + UnitsIn(a), b)
    decreases |a|
  {
    if a == [] {
      assert a + b == b;
    } else {
      assert (a + b)[1..] == a[1..] + b;
      IncrementalConcat(Purchasing.WeightedAverage(average, stock, a[0].unitPrice, a[0].quantity),
                        stock + a[0].quantity, a[1..], b);
    }
  }

  lemma DividedSign(n: real, d: real)
    requires d > 0.0
    ensures n <= 0.0 ==> n / d <= 0.0
    ensures n > 0.0 ==> n / d > 0.0
  {
  }

  lemma SignedProduct(x: real, n: real)
    ensures (x <= 0.0 && n >= 0.0) || (x >= 0.0 && n <= 0.0) ==> x * n <= 0.0
  {
  }

  ghost predicate AllFree(receipts: seq<PurchaseItem>) {
    forall r :: r in receipts ==> r.unitPrice == 0
  }

  /** An average at zero, or at or below it over stock that is there: free receipts keep it so. */
  predicate IsLow(average: real, stock: int) {
    average == 0.0 || (average <= 0.0 && stock > 0)
  }

  /** A free receipt makes an average low, unless it meets a positive one over stock, or a negative one over stock
      owed. */
  lemma FreeReceiptIsLow(average: real, stock: int, quantity: Quantity)
    requires IsLow(average, stock) || (average >= 0.0 && stock <= 0)
    ensures IsLow(Purchasing.WeightedAverage(average, stock, 0, quantity), stock + quantity)
    ensures average == 0.0 ==> Purchasing.WeightedAverage(average, stock, 0, quantity) == 0.0
  {
    SignedProduct(average, stock as real);
    if stock + quantity > 0 { DividedSign(average * stock as real, (stock + quantity) as real); }
  }

  lemma {:induction false} FreeReceiptsStayLow(average: real, stock: int, receipts: seq<PurchaseItem>)
    requires AllFree(receipts) && IsLow(average, stock)
    ensures Incremental(average, stock, receipts) <= 0.0
    ensures average == 0.0 ==> Incremental(average, stock, receipts) == 0.0
    decreases |receipts|
  {
    if receipts != [] {
      var head := receipts[0];
      assert head in receipts && forall r :: r in receipts[1..] ==> r in receipts;
      FreeReceiptIsLow(average, stock, head.quantity);
      FreeReceiptsStayLow(Purchasing.WeightedAverage(average, stock, 0, head.quantity), stock + head.quantity,
                          receipts[1..]);
    }
  }

  /** One line at one cent, the others free: the average ends above zero if it comes last, and not if it comes first and
      leaves no stock above zero. */
  lemma PricedLineMatters(stock: int, one: PurchaseItem, free: seq<PurchaseItem>)
    requires stock + one.quantity <= 0 && one.unitPrice == 1 && AllFree(free) && free != []
    ensures Incremental(0.0, stock, [one] + free) <= 0.0 < Incremental(0.0, stock, free + [one])
  {
    assert ([one] + free)[0] == one && ([one] + free)[1..] == free;
    assert free[0] in free && AllFree(free[1..]);
    FreeReceiptIsLow(1.0, stock + one.quantity, free[0].quantity);
    FreeReceiptsStayLow(Purchasing.WeightedAverage(1.0, stock + one.quantity, 0, free[0].quantity),
                        stock + one.quantity + free[0].quantity, free[1..]);
    IncrementalConcat(0.0, stock, free, [one]);
    FreeReceiptsStayLow(0.0, stock, free);
    PricedAverageIsPositive(stock + UnitsIn(free), one);
  }

  lemma PricedAverageIsPositive(stock: int, one: PurchaseItem)
    requires one.unitPrice == 1
    ensures Incremental(0.0, stock, [one]) > 0.0
  {
    assert [one][1..] == [];
    if stock + one.quantity > 0 { DividedSign(one.quantity as real, (stock + one.quantity) as real); }
  }

  ghost predicate OrderIrrelevant(stock: int, moves: seq<Move>) {
    forall average, a, b :: multiset(Bought(a)) == multiset(moves) && multiset(a) == multiset(b) ==>
      Incremental(average, stock, a) == Incremental(average, stock, b)
  }

  lemma BoughtOf(items: seq<PurchaseItem>, i: PurchaseItem)
    requires i in items
    ensures Move(i.product, i.quantity) in Bought(items)
  {
    var k :| 0 <= k < |items| && items[k] == i;
    assert Bought(items)[k] == Move(i.product, i.quantity);
  }

  lemma FirstLeavesStock(stock: int, moves: seq<Move>, items: seq<PurchaseItem>, first: PurchaseItem)
    requires multiset(Bought(items)) == multiset(moves) && first in items
    requires forall m :: m in moves ==> stock + m.quantity > 0
    ensures stock + first.quantity > 0
  {
    BoughtOf(items, first);
    assert Move(first.product, first.quantity) in multiset(Bought(items));
  }

  function FreeOf(moves: seq<Move>): seq<PurchaseItem> {
    seq(|moves|, n requires 0 <= n < |moves| => PurchaseItem(moves[n].product, moves[n].quantity, 0))
  }

  lemma OneAndRest(moves: seq<Move>, k: nat)
    requires k < |moves|
    ensures var one, rest := PurchaseItem(moves[k].product, moves[k].quantity, 1), moves[..k] + moves[k + 1..];
            multiset(Bought([one] + FreeOf(rest))) == multiset(moves)
  {
    var one, rest := PurchaseItem(moves[k].product, moves[k].quantity, 1), moves[..k] + moves[k + 1..];
    assert Bought([one] + FreeOf(rest)) == [moves[k]] + rest;
    assert moves == moves[..k] + [moves[k]] + moves[k + 1..];
  }

  lemma SomeOrderMatters(stock: int, moves: seq<Move>, k: nat)
    requires k < |moves| && |moves| > 1 && stock + moves[k].quantity <= 0
    ensures !OrderIrrelevant(stock, moves)
  {
    var one, free := PurchaseItem(moves[k].product, moves[k].quantity, 1), FreeOf(moves[..k] + moves[k + 1..]);
    OneAndRest(moves, k);
    PricedLineMatters(stock, one, free);
    var a, b := [one] + free, free + [one];
    assert multiset(a) == multiset(b);
    assert Incremental(0.0, stock, a) != Incremental(0.0, stock, b);
  }

  /** Exactly: the order of receipts never matters, at any prices and from any average, if and only if there is at most
      one, or every one of them would alone leave stock above zero. */
  lemma IncrementalPermutedIff(stock: int, moves: seq<Move>)
    ensures OrderIrrelevant(stock, moves) <==> |moves| <= 1 || forall m :: m in moves ==> stock + m.quantity > 0
  {
    if |moves| <= 1 || forall m :: m in moves ==> stock + m.quantity > 0 {
      forall average: real, a, b | multiset(Bought(a)) == multiset(moves) && multiset(a) == multiset(b)
        ensures Incremental(average, stock, a) == Incremental(average, stock, b)
      {
        assert |a| == |multiset(Bought(a))| == |multiset(moves)| == |moves|;
        assert |b| == |multiset(b)| == |multiset(a)|;
        if |moves| <= 1 {
          assert a != [] ==> a[0] in multiset(b);
          assert a == b;
        } else {
          assert b[0] in multiset(a);
          FirstLeavesStock(stock, moves, a, a[0]);
          FirstLeavesStock(stock, moves, a, b[0]);
          IncrementalPermuted(average, stock, a, b);
        }
      }
    } else {
      var m :| m in moves && stock + m.quantity <= 0;
      var k :| 0 <= k < |moves| && moves[k] == m;
      SomeOrderMatters(stock, moves, k);
    }
  }

  // ------------------------------------------------------------------ how a receipt is split

  lemma SameProductSameFactor(x: real, y: real, n: real)
    requires n != 0.0 && x * n == y * n
    ensures x == y
  {
  }

  lemma SameSumSameFactor(x: real, y: real, n: real, c: real)
    requires n != 0.0 && x * n + c == y * n + c
    ensures x == y
  {
    SameProductSameFactor(x, y, n);
  }

  lemma WeightedInjective(x: real, y: real, stock: int, price: Cents, quantity: Quantity)
    requires stock > 0 && x != y
    ensures Purchasing.WeightedAverage(x, stock, price, quantity)
         != Purchasing.WeightedAverage(y, stock, price, quantity)
  {
    MulByTotal(x, stock, price, quantity);
    MulByTotal(y, stock, price, quantity);
    if Purchasing.WeightedAverage(x, stock, price, quantity) == Purchasing.WeightedAverage(y, stock, price, quantity) {
      SameSumSameFactor(x, y, stock as real, (price * quantity) as real);
    }
  }

  /** Over stock that is there, receipts tell every two averages apart. */
  lemma {:induction false} IncrementalInjective(x: real, y: real, stock: int, receipts: seq<PurchaseItem>)
    requires stock > 0 && x != y
    ensures Incremental(x, stock, receipts) != Incremental(y, stock, receipts)
    decreases |receipts|
  {
    if receipts != [] {
      var price, quantity := receipts[0].unitPrice, receipts[0].quantity;
      WeightedInjective(x, y, stock, price, quantity);
      IncrementalInjective(Purchasing.WeightedAverage(x, stock, price, quantity),
                           Purchasing.WeightedAverage(y, stock, price, quantity), stock + quantity, receipts[1..]);
    }
  }

  /** A receipt of `q1 + q2` units, and the same in two, each at `price`. */
  function Whole(average: real, stock: int, price: Cents, q1: Quantity, q2: Quantity): real {
    Purchasing.WeightedAverage(average, stock, price, q1 + q2)
  }

  function InTwo(average: real, stock: int, price: Cents, q1: Quantity, q2: Quantity): real {
    Purchasing.WeightedAverage(Purchasing.WeightedAverage(average, stock, price, q1), stock + q1, price, q2)
  }

  lemma Mix(x: real, n: real, p: real, q1: real, q2: real)
    ensures x * n + p * (q1 + q2) == (x * n + p * q1) + p * q2
    ensures p * (n + (q1 + q2)) == p * n + p * (q1 + q2)
    ensures p * (n + q1) + p * q2 == p * (n + (q1 + q2))
  {
  }

  /** If the first part leaves stock above zero, splitting changes nothing. */
  lemma SplitAboveZero(average: real, stock: int, price: Cents, q1: Quantity, q2: Quantity)
    requires stock + q1 > 0
    ensures Whole(average, stock, price, q1, q2) == InTwo(average, stock, price, q1, q2)
  {
    var part := Purchasing.WeightedAverage(average, stock, price, q1);
    MulByTotal(average, stock, price, q1);
    MulByTotal(average, stock, price, q1 + q2);
    MulByTotal(part, stock + q1, price, q2);
    Distribute(price, q1, q2);
    SameProductSameFactor(Whole(average, stock, price, q1, q2), InTwo(average, stock, price, q1, q2),
                          (stock + q1 + q2) as real);
  }

  /** If it does not but the whole does, the two parts end at the price, and the whole only from the price. */
  lemma SplitAcrossZero(average: real, stock: int, price: Cents, q1: Quantity, q2: Quantity)
    requires stock + q1 <= 0 < stock + q1 + q2
    ensures Whole(average, stock, price, q1, q2) == InTwo(average, stock, price, q1, q2) <==> average == price as real
  {
    var x, n, p := average, stock as real, price as real;
    MulByTotal(x, stock, price, q1 + q2);
    MulByTotal(p, stock + q1, price, q2);
    RealProduct(price, q1 + q2);
    RealProduct(price, q2);
    Mix(x, n, p, q1 as real, q2 as real);
    var two, whole := InTwo(x, stock, price, q1, q2), Whole(x, stock, price, q1, q2);
    var total := n + (q1 as real + q2 as real);
    assert two * total == p * total;
    SameProductSameFactor(two, p, total);
    assert whole * total == x * n + p * (q1 as real + q2 as real);
    if whole == two { SameProductSameFactor(x, p, n); }
  }

  lemma SplitIff(average: real, stock: int, price: Cents, q1: Quantity, q2: Quantity)
    ensures Whole(average, stock, price, q1, q2) == InTwo(average, stock, price, q1, q2)
       <==> stock + q1 > 0 || stock + q1 + q2 <= 0 || average == price as real
  {
    if stock + q1 > 0 {
      SplitAboveZero(average, stock, price, q1, q2);
    } else if stock + q1 + q2 > 0 {
      SplitAcrossZero(average, stock, price, q1, q2);
    }
  }

  lemma IncrementalOfTwo(average: real, stock: int, a: PurchaseItem, b: PurchaseItem, after: seq<PurchaseItem>)
    ensures Incremental(average, stock, [a, b] + after)
         == Incremental(Purchasing.WeightedAverage(Purchasing.WeightedAverage(average, stock, a.unitPrice, a.quantity),
                                                   stock + a.quantity, b.unitPrice, b.quantity),
                        stock + a.quantity + b.quantity, after)
  {
    assert ([a, b] + after)[1..] == [b] + after && ([b] + after)[1..] == after;
  }

  /** Exactly: where a receipt is split in two, anywhere among others, changes the final average unless the first part
      leaves stock above zero, or the whole leaves none, or the average was the price already. */
  lemma IncrementalSplit(average: real, stock: int, before: seq<PurchaseItem>, product: Id, price: Cents,
                         q1: Quantity, q2: Quantity, after: seq<PurchaseItem>)
    ensures var whole := PurchaseItem(product, q1 + q2, price);
            var first, second := PurchaseItem(product, q1, price), PurchaseItem(product, q2, price);
            var reached := stock + UnitsIn(before);
            Incremental(average, stock, before + [whole] + after)
                == Incremental(average, stock, before + [first, second] + after)
            <==> reached + q1 > 0 || reached + q1 + q2 <= 0 || Incremental(average, stock, before) == price as real
  {
    var whole := PurchaseItem(product, q1 + q2, price);
    var first, second := PurchaseItem(product, q1, price), PurchaseItem(product, q2, price);
    var x, reached := Incremental(average, stock, before), stock + UnitsIn(before);
    assert before + [whole] + after == before + ([whole] + after);
    assert before + [first, second] + after == before + ([first, second] + after);
    IncrementalConcat(average, stock, before, [whole] + after);
    IncrementalConcat(average, stock, before, [first, second] + after);
    assert ([whole] + after)[1..] == after;
    IncrementalOfTwo(x, reached, first, second, after);
    SplitIff(x, reached, price, q1, q2);
    var one, two := Whole(x, reached, price, q1, q2), InTwo(x, reached, price, q1, q2);
    if reached + q1 + q2 > 0 && one != two {
      IncrementalInjective(one, two, reached + q1 + q2, after);
    }
  }


  // ------------------------------------------------------------------ what a step receives

  /** The purchase items an event puts into stock: none if it fails or is no receipt. */
  function ReceivedBy(c: Config, e: Event): seq<PurchaseItem> {
    match e
    case Atomic(op) =>
      if Try(c.state, op).Failed? then []
      else if op.CreatePurchase? then op.bought
      else if op.ReceivePurchase? && op.id in c.state.purchases then c.state.purchases[op.id].items
      else []
    case CommitReceive(k) =>
      if k in c.receiving && Purchasing.CommitReceive(c.state, c.receiving[k]).Done? then c.receiving[k].items else []
    case _ => []
  }

  /** Products stay, and an average moves only when the product is received, by its last line alone. */
  ghost predicate AveragesMove(before: Products, after: Products, items: seq<PurchaseItem>) {
    && before.Keys <= after.Keys
    && (forall p :: p in before ==> after[p].tenant == before[p].tenant && after[p].sku == before[p].sku)
    && (forall p :: p in before && Mentions(items, p) ==>
          && after[p].stock == before[p].stock + Units(Bought(items), p)
          && after[p].averageCost == Purchasing.NewAverage(before[p], LastFor(items, p)))
    && (forall p :: p in before && !Mentions(items, p) ==> after[p].averageCost == before[p].averageCost)
    && (forall p :: p in after && p !in before ==> after[p].averageCost == 0)
  }

  lemma ShiftMoves(before: Products, after: Products, moves: seq<Move>, sign: int)
    requires StockShifted(before, after, moves, sign)
    ensures AveragesMove(before, after, [])
  {
  }

  lemma StockOutMoves(s: State, tenant: Id, number: string, moves: seq<Move>)
    ensures var r := Sales.ProcessStockOut(s, tenant, number, moves); r.Done? ==>
              AveragesMove(s.products, r.value.products, [])
  {
    StockOutShift(s.products, tenant, moves);
    var r := Sales.ProcessStockOut(s, tenant, number, moves);
    if r.Done? { ShiftMoves(s.products, r.value.products, moves, -1); }
  }

  lemma CommitReturnMoves(s: State, number: string, t: Returns.ReturnTicket)
    ensures var r := Returns.CommitReturn(s, number, t); r.Done? ==> AveragesMove(s.products, r.value.products, [])
  {
    PutBackEffect(s.products, t.tenant, Brought(t.lines));
    var r := Returns.CommitReturn(s, number, t);
    if r.Done? { ShiftMoves(s.products, r.value.products, Brought(t.lines), 1); }
  }

  lemma ReceiptMoves(s: State, tenant: Id, number: string, items: seq<PurchaseItem>)
    ensures var r := Purchasing.ProcessReceivedItems(s, tenant, number, items);
            r.Done? ==> AveragesMove(s.products, r.value.products, items)
  {
    ReceiveEffect(s.products, s.products, tenant, items);
  }

  lemma CommitReceiveMoves(s: State, t: Purchasing.ReceiveTicket)
    ensures var r := Purchasing.CommitReceive(s, t); r.Done? ==> AveragesMove(s.products, r.value.products, t.items)
  {
    if t.order in s.purchases {
      var order := s.purchases[t.order];
      ReceiptMoves(s.(purchases := s.purchases[t.order := order.(status := PurchaseReceived)]), t.tenant, order.number,
                   t.items);
    }
  }

  lemma SaleMoves(c: Config, op: Op)
    requires (op.CreateSale? || op.CompleteSale?) && Try(c.state, op).Done?
    ensures AveragesMove(c.state.products, Step(c.state, op).products, [])
  {
    var s := c.state;
    if op.CreateSale? {
      var items := Sales.BuildItems(s.products, op.tenant, op.lines).value;
      var inserted :=
          Sales.InsertOrder(s, op.id, Sales.NewOrder(op.tenant, op.number, SalesCompleted, op.now, items)).value;
      StockOutMoves(inserted, op.tenant, op.number, Sales.Requested(op.lines));
    } else {
      var o := s.sales[op.id];
      StockOutMoves(s.(sales := s.sales[op.id := o.(status := SalesCompleted)]), op.tenant, o.number, Sold(o.items));
    }
  }

  lemma PurchaseMoves(c: Config, op: Op)
    requires (op.CreatePurchase? || op.ReceivePurchase?) && Try(c.state, op).Done?
    ensures AveragesMove(c.state.products, Step(c.state, op).products, ReceivedBy(c, Atomic(op)))
  {
    var s := c.state;
    if op.CreatePurchase? {
      var o := PurchaseOrder(op.tenant, op.number, op.supplier, PurchaseReceived, op.bought,
                             Purchasing.TotalPrice(op.bought));
      ReceiptMoves(Purchasing.InsertOrder(s, op.id, o).value, op.tenant, op.number, op.bought);
    } else {
      CommitReceiveMoves(s, Purchasing.ReadReceive(s, op.tenant, op.id).value);
    }
  }

  /** The calls that only file an order leave the products alone. */
  lemma FilingMoves(s: State, op: Op)
    requires op.CreatePendingPurchase? || op.CancelPurchase? || op.CreatePendingSale? || op.CancelSale?
    ensures AveragesMove(s.products, Step(s, op).products, [])
  {
    assert Step(s, op).products == s.products;
  }

  lemma RestockedMoves(before: Products, p: Id, stock: int)
    requires p in before
    ensures AveragesMove(before, before[p := before[p].(stock := stock)], [])
  {
  }

  lemma AdjustMoves(s: State, op: Op)
    requires op.AdjustStock? && Try(s, op).Done?
    ensures AveragesMove(s.products, Step(s, op).products, [])
  {
    RestockedMoves(s.products, op.product, Step(s, op).products[op.product].stock);
  }

  lemma StepMoves(c: Config, op: Op)
    ensures AveragesMove(c.state.products, Step(c.state, op).products, ReceivedBy(c, Atomic(op)))
  {
    var s := c.state;
    if Try(s, op).Failed? {
      assert Step(s, op) == s;
    } else if op.AdjustStock? {
      AdjustMoves(s, op);
    } else if op.CreatePendingPurchase? || op.CancelPurchase? || op.CreatePendingSale? || op.CancelSale? {
      FilingMoves(s, op);
    } else if op.CreatePurchase? || op.ReceivePurchase? {
      PurchaseMoves(c, op);
    } else if op.CreateSale? || op.CompleteSale? {
      SaleMoves(c, op);
    } else if op.CreateReturn? {
      CommitReturnMoves(s, op.number, Returns.ReadReturn(s, op.tenant, op.id, op.returned).value);
    } else if op.BulkInput? {
      BulkInputs.BulkKeepsProducts(s.products, op.tenant, op.batch);
    }
  }

  lemma NextMoves(c: Config, e: Event)
    ensures AveragesMove(c.state.products, Next(c, e).state.products, ReceivedBy(c, e))
  {
    match e
    case Atomic(op) => StepMoves(c, op);
    case CommitReceive(k) =>
      if k in c.receiving { CommitReceiveMoves(c.state, c.receiving[k]); }
    case CommitReturn(k) =>
      if k in c.returning { CommitReturnMoves(c.state, c.returning[k].number, c.returning[k].ticket); }
    case _ =>
  }

  // ------------------------------------------------------------------ the hull

  function Average(products: Products, p: Id): Cents {
    if p in products then products[p].averageCost else 0
  }

  function ReceivedIn(c: Config, es: seq<Event>): seq<PurchaseItem>
    decreases |es|
  {
    if es == [] then [] else ReceivedBy(c, es[0]) + ReceivedIn(Next(c, es[0]), es[1..])
  }

  lemma NonNegativeFactor(x: real, d: real)
    requires d > 0.0 && x * d >= 0.0
    ensures x >= 0.0
  {
  }

  lemma QuotientWithin(n: real, d: real, lo: real, hi: real)
    requires d > 0.0 && lo * d <= n <= hi * d
    ensures lo <= n / d <= hi
  {
    DivideBack(n, d);
    NonNegativeFactor(n / d - lo, d);
    NonNegativeFactor(hi - n / d, d);
  }

  lemma RealMulMonotone(a: real, b: real, q: real)
    requires a <= b && 0.0 <= q
    ensures a * q <= b * q
  {
  }

  /** The stock a line is averaged into: not below zero before it, or still not above zero after it. */
  predicate KeepsHull(stock: int, quantity: Quantity) {
    stock >= 0 || stock + quantity <= 0
  }

  lemma RealSplit(x: real, s: real, q: real)
    ensures x * (s + q) == x * s + x * q
  {
  }

  lemma MixAbove(a: real, s: real, p: real, q: real, lo: real)
    requires lo <= a && lo <= p && 0.0 <= s && 0.0 <= q
    ensures lo * (s + q) <= a * s + p * q
  {
    RealMulMonotone(lo, a, s);
    RealMulMonotone(lo, p, q);
    RealSplit(lo, s, q);
  }

  lemma MixBelow(a: real, s: real, p: real, q: real, hi: real)
    requires a <= hi && p <= hi && 0.0 <= s && 0.0 <= q
    ensures a * s + p * q <= hi * (s + q)
  {
    RealMulMonotone(a, hi, s);
    RealMulMonotone(p, hi, q);
    RealSplit(hi, s, q);
  }

  lemma WeightedWithin(average: Cents, stock: int, price: Cents, quantity: Quantity, lo: Cents, hi: Cents)
    requires KeepsHull(stock, quantity)
    requires lo <= average <= hi && lo <= price <= hi
    ensures lo as real <= Purchasing.WeightedAverage(average as real, stock, price, quantity) <= hi as real
  {
    if stock >= 0 {
      var s, q := stock as real, quantity as real;
      RealProduct(price, quantity);
      MixAbove(average as real, s, price as real, q, lo as real);
      MixBelow(average as real, s, price as real, q, hi as real);
      var n := average as real * s + (price * quantity) as real;
      QuotientWithin(n, s + q, lo as real, hi as real);
      assert Purchasing.WeightedAverage(average as real, stock, price, quantity) == n / (s + q);
    }
  }

  lemma NewAverageWithin(product: Product, item: PurchaseItem, lo: Cents, hi: Cents)
    requires KeepsHull(product.stock, item.quantity)
    requires lo <= product.averageCost <= hi && lo <= item.unitPrice <= hi
    ensures lo <= Purchasing.NewAverage(product, item) <= hi
  {
    WeightedWithin(product.averageCost, product.stock, item.unitPrice, item.quantity, lo, hi);
    ToCentsWithin(Purchasing.WeightedAverage(product.averageCost as real, product.stock, item.unitPrice, item.quantity),
                  lo, hi);
  }

  lemma Overshoot(a: int, stock: int, quantity: int)
    requires stock + quantity > 0
    ensures a * stock + (a + (stock + quantity)) * quantity == (a + quantity) * (stock + quantity)
  {
  }

  /** Received at this price into stock below zero, a line that brings it above zero overshoots its own price. */
  lemma NegativeStockOvershoots(product: Product, item: PurchaseItem)
    requires !KeepsHull(product.stock, item.quantity)
    requires item.unitPrice == product.averageCost + (product.stock + item.quantity)
    ensures product.averageCost < item.unitPrice < Purchasing.NewAverage(product, item)
  {
    var a, s, q := product.averageCost, product.stock, item.quantity;
    Overshoot(a, s, q);
    RealProduct(a, s);
    RealProduct(a + q, s + q);
    RealQuotient((a + q) as real, (s + q) as real);
    assert Purchasing.WeightedAverage(a as real, s, item.unitPrice, q) == (a + q) as real;
  }

  predicate Between(x: Cents, a: Cents, b: Cents) {
    a <= x <= b || b <= x <= a
  }

  /** Exactly: one line keeps the average between itself and the price, whatever the price, if and only if the
      stock is not below zero before it or not above zero after it. Otherwise a price above the average breaks it. */
  lemma ReceiptKeepsHullIff(product: Product, name: Id, quantity: Quantity)
    ensures KeepsHull(product.stock, quantity) <==>
            forall price: Cents ::
              Between(Purchasing.NewAverage(product, PurchaseItem(name, quantity, price)), product.averageCost, price)
  {
    if KeepsHull(product.stock, quantity) {
      forall price: Cents
        ensures Between(Purchasing.NewAverage(product, PurchaseItem(name, quantity, price)), product.averageCost, price)
      {
        var a := product.averageCost;
        var lo, hi := if a <= price then a else price, if a <= price then price else a;
        NewAverageWithin(product, PurchaseItem(name, quantity, price), lo, hi);
      }
    } else {
      var item := PurchaseItem(name, quantity, product.averageCost + (product.stock + quantity));
      NegativeStockOvershoots(product, item);
      assert !Between(Purchasing.NewAverage(product, item), product.averageCost, item.unitPrice);
    }
  }

  // ------------------------------------------------------------------ the same for a whole order

  /** An interval that holds a product's average and every price the list pays for it. */
  ghost predicate PaysWithin(products: Products, items: seq<PurchaseItem>, p: Id, lo: Cents, hi: Cents) {
    && p in products && Mentions(items, p) && lo <= products[p].averageCost <= hi
    && forall i :: i in items && i.product == p ==> lo <= i.unitPrice <= hi
  }

  /** The receiving loop leaves each product within its old average and the prices paid for it. */
  ghost predicate HullHolds(products: Products, tenant: Id, items: seq<PurchaseItem>) {
    var r := Purchasing.ReceiveItems(products, products, tenant, items);
    r.Done? ==> forall p, lo, hi :: PaysWithin(products, items, p, lo, hi) ==> lo <= Average(r.value, p) <= hi
  }

  ghost predicate LastLinesKeepHull(products: Products, items: seq<PurchaseItem>) {
    forall p :: p in products && Mentions(items, p) ==> KeepsHull(products[p].stock, LastFor(items, p).quantity)
  }

  /** Whether a list names a product, and how much its last line for it asks, does not depend on the prices. */
  lemma {:induction false} SameLinesSameLast(items: seq<PurchaseItem>, other: seq<PurchaseItem>, p: Id)
    requires Bought(other) == Bought(items)
    ensures Mentions(other, p) <==> Mentions(items, p)
    ensures Mentions(items, p) ==> LastFor(other, p).quantity == LastFor(items, p).quantity
    decreases |items|
  {
    assert |other| == |Bought(other)| == |items|;
    if items != [] {
      assert Bought(other)[0] == Bought(items)[0];
      assert Bought(other[1..]) == Bought(other)[1..] && Bought(items[1..]) == Bought(items)[1..];
      assert items == [items[0]] + items[1..] && other == [other[0]] + other[1..];
      SameLinesSameLast(items[1..], other[1..], p);
    }
  }

  lemma LastLinesKeepTheHull(products: Products, tenant: Id, items: seq<PurchaseItem>)
    requires LastLinesKeepHull(products, items)
    ensures HullHolds(products, tenant, items)
  {
    ReceiveEffect(products, products, tenant, items);
    var r := Purchasing.ReceiveItems(products, products, tenant, items);
    if r.Done? {
      forall p, lo, hi | PaysWithin(products, items, p, lo, hi) ensures lo <= Average(r.value, p) <= hi {
        NewAverageWithin(products[p], LastFor(items, p), lo, hi);
      }
    }
  }

  /** The same lines, all at one price. */
  function AllAt(items: seq<PurchaseItem>, price: Cents): seq<PurchaseItem> {
    seq(|items|, k requires 0 <= k < |items| => items[k].(unitPrice := price))
  }

  lemma SomePriceLeavesTheHull(products: Products, tenant: Id, items: seq<PurchaseItem>, p: Id) returns (price: Cents)
    requires ItemsOwned(products, tenant, items) && p in products && Mentions(items, p)
    requires !KeepsHull(products[p].stock, LastFor(items, p).quantity)
    ensures !HullHolds(products, tenant, AllAt(items, price))
  {
    price := products[p].averageCost + (products[p].stock + LastFor(items, p).quantity);
    var other := AllAt(items, price);
    assert Bought(other) == Bought(items);
    SameLinesSameLast(items, other, p);
    ReceiveEffect(products, products, tenant, other);
    forall i | i in other ensures Owned(products, i.product, tenant) && i.unitPrice == price {
      var k :| 0 <= k < |other| && other[k] == i;
      assert items[k] in items;
    }
    NegativeStockOvershoots(products[p], LastFor(other, p));
    assert PaysWithin(products, other, p, products[p].averageCost, price);
  }

  /** Exactly, for an order: its lines keep every product in its hull at every price if and only if they are turned
      away whole, or the last line for each product goes into stock not below zero, or leaves it not above zero. */
  lemma OrderKeepsHullIff(products: Products, tenant: Id, items: seq<PurchaseItem>)
    ensures (forall other :: Bought(other) == Bought(items) ==> HullHolds(products, tenant, other))
       <==> !ItemsOwned(products, tenant, items) || LastLinesKeepHull(products, items)
  {
    if LastLinesKeepHull(products, items) {
      forall other | Bought(other) == Bought(items) ensures HullHolds(products, tenant, other) {
        forall p ensures Mentions(other, p) <==> Mentions(items, p)
                 ensures Mentions(items, p) ==> LastFor(other, p).quantity == LastFor(items, p).quantity
        {
          SameLinesSameLast(items, other, p);
        }
        LastLinesKeepTheHull(products, tenant, other);
      }
    } else if ItemsOwned(products, tenant, items) {
      var p :| p in products && Mentions(items, p) && !KeepsHull(products[p].stock, LastFor(items, p).quantity);
      var price := SomePriceLeavesTheHull(products, tenant, items, p);
      assert Bought(AllAt(items, price)) == Bought(items);
    } else {
      forall other | Bought(other) == Bought(items) ensures HullHolds(products, tenant, other) {
        ForeignLinesTurnedAway(products, tenant, items, other);
      }
    }
  }

  lemma ForeignLinesTurnedAway(products: Products, tenant: Id, items: seq<PurchaseItem>, other: seq<PurchaseItem>)
    requires Bought(other) == Bought(items) && !ItemsOwned(products, tenant, items)
    ensures Purchasing.ReceiveItems(products, products, tenant, other).Failed?
  {
    assert |other| == |Bought(other)| == |items|;
    var i :| i in items && !Owned(products, i.product, tenant);
    var k :| 0 <= k < |items| && items[k] == i;
    assert Bought(other)[k] == Bought(items)[k];
    assert other[k] in other;
    ReceiveEffect(products, products, tenant, other);
  }

  /** A product opened by bulk input with no cost, and the first receipt into it. */
  lemma FirstReceipt(t: Id, p: Id, sku: string, opening: int, order: Id, number: string, supplier: Id,
                     item: PurchaseItem)
    requires item.product == p
    ensures var born := Step(EMPTY, BulkInput(t, [Inventory.BulkLine(p, sku, Some(opening))]));
            var c, receipt := Config(born, map[], map[]), Atomic(CreatePurchase(t, order, number, supplier, [item]));
            && born.products == map[p := Product(t, sku, opening, 0)]
            && ReceivedBy(c, receipt) == [item]
            && Next(c, receipt).state.products
               == map[p := Product(t, sku, opening + item.quantity,
                                   Purchasing.NewAverage(Product(t, sku, opening, 0), item))]
  {
    var line := Inventory.BulkLine(p, sku, Some(opening));
    BulkInputs.OneLineOpens(t, line);
    var born := Step(EMPTY, BulkInput(t, [line]));
    var own := map[p := Product(t, sku, opening, 0)];
    assert born.products == own;
    assert [item][1..] == [];
    assert Purchasing.ReceiveItems(own, own, t, [item]) == Done(Purchasing.Receive(own, own, item));
    var o := PurchaseOrder(t, number, supplier, PurchaseReceived, [item], Purchasing.TotalPrice([item]));
    assert Purchasing.InsertOrder(born, order, o).Done?;
    assert Purchasing.Receive(own, own, item)
        == map[p := Product(t, sku, opening + item.quantity, Purchasing.NewAverage(own[p], item))];
  }

  /** A run on which it happens: bulk input opens a product below zero, and a receipt carries it above zero. The
      average lands on twice the only price ever paid. */
  lemma NegativeOpeningLeavesTheHull(t: Id, p: Id, sku: string, order: Id, number: string, supplier: Id)
    ensures var born := Step(EMPTY, BulkInput(t, [Inventory.BulkLine(p, sku, Some(-1))]));
            var c := Config(born, map[], map[]);
            var receipt := Atomic(CreatePurchase(t, order, number, supplier, [PurchaseItem(p, 2, 100)]));
            && ReceivedBy(c, receipt) == [PurchaseItem(p, 2, 100)]
            && Average(born.products, p) == 0
            && Average(Next(c, receipt).state.products, p) == 200
  {
    FirstReceipt(t, p, sku, -1, order, number, supplier, PurchaseItem(p, 2, 100));
  }

  /** What the hull asks of an event: the line of `p` that sets its average goes into stock that keeps it. */
  ghost predicate ReceivesWithinHull(c: Config, e: Event, p: Id) {
    p in c.state.products && Mentions(ReceivedBy(c, e), p) ==>
      KeepsHull(c.state.products[p].stock, LastFor(ReceivedBy(c, e), p).quantity)
  }

  ghost predicate RunReceivesWithinHull(c: Config, es: seq<Event>, p: Id)
    decreases |es|
  {
    es != [] ==> ReceivesWithinHull(c, es[0], p) && RunReceivesWithinHull(Next(c, es[0]), es[1..], p)
  }

  /** Stock that is never negative meets that condition on every run. */
  lemma {:induction false} NonNegativeKeepsHull(c: Config, es: seq<Event>, p: Id)
    requires NonNegative(c.state.products) && forall e :: e in es ==> NoNegativeOpening(e)
    ensures RunReceivesWithinHull(c, es, p)
    decreases |es|
  {
    if es != [] {
      assert es[0] in es;
      assert forall e :: e in es[1..] ==> e in es;
      NextKeepsStockNonNegative(c, es[0]);
      NonNegativeKeepsHull(Next(c, es[0]), es[1..], p);
    }
  }

  lemma NextWithin(c: Config, e: Event, p: Id, lo: Cents, hi: Cents)
    requires ReceivesWithinHull(c, e, p)
    requires lo <= Average(c.state.products, p) <= hi
    requires forall i :: i in ReceivedBy(c, e) && i.product == p ==> lo <= i.unitPrice <= hi
    ensures lo <= Average(Next(c, e).state.products, p) <= hi
  {
    NextMoves(c, e);
    var items, before := ReceivedBy(c, e), c.state.products;
    if p in before && Mentions(items, p) {
      NewAverageWithin(before[p], LastFor(items, p), lo, hi);
    }
  }

  /** Main result. Over every interleaving, and after every rounding, a stored average stays within any interval
      that holds the opening average and the unit prices received, as long as each receipt meets the exact
      condition of `ReceiptKeepsHullIff`. */
  lemma {:induction false} AverageStaysInHull(c: Config, es: seq<Event>, p: Id, lo: Cents, hi: Cents)
    requires RunReceivesWithinHull(c, es, p)
    requires lo <= Average(c.state.products, p) <= hi
    requires forall i :: i in ReceivedIn(c, es) && i.product == p ==> lo <= i.unitPrice <= hi
    ensures lo <= Average(Play(c, es).state.products, p) <= hi
    decreases |es|
  {
    if es != [] {
      NextWithin(c, es[0], p, lo, hi);
      AverageStaysInHull(Next(c, es[0]), es[1..], p, lo, hi);
    }
  }
}
