/** Stock at average cost is conserved up to the rounding of the stored average. */
module ValueConservation {
  import opened Cents
  import opened Sums
  import opened Arithmetic
  import opened Store
  import opened Machine
  import opened Effects
  import opened StockLedger
  import opened AverageCost
  import Purchasing
  import Sales
  import Inventory

  function CogsFor(p: Id): OrderItem -> int {
    (i: OrderItem) => if i.product == p then i.cogs else 0
  }

  predicate IsDirectSale(c: Config, e: Event) {
    e.Atomic? && e.op.CreateSale? && Try(c.state, e.op).Done?
  }

  /** Receipts of a product at what they cost. */
  function Paid(c: Config, e: Event, p: Id): int {
    SumOver(ReceivedBy(c, e), CostFor(p))
  }

  /** Cost of goods a direct sale charges for a product, as stored on the new order's items. */
  function Charged(c: Config, e: Event, p: Id): int {
    if IsDirectSale(c, e) && e.op.id in Next(c, e).state.sales
    then SumOver(Next(c, e).state.sales[e.op.id].items, CogsFor(p))
    else 0
  }

  /** Stock that any other event moves (completions, returns, adjustments), at the average of the moment. */
  function Moved(c: Config, e: Event, p: Id): int {
    if IsDirectSale(c, e) || ReceivedBy(c, e) != [] then 0
    else (Stock(Next(c, e).state.products, p) - Stock(c.state.products, p)) * Average(c.state.products, p)
  }

  /** The stock just after an event that received the product, zero after any other. */
  function Slack(c: Config, e: Event, p: Id): int {
    if exists i | i in ReceivedBy(c, e) :: i.product == p then Stock(Next(c, e).state.products, p) else 0
  }

  /** The change of book value an event leaves unexplained. */
  function Unexplained(c: Config, e: Event, p: Id): int {
    Value(Next(c, e).state.products, p) - Value(c.state.products, p) - Paid(c, e, p) + Charged(c, e, p) - Moved(c, e, p)
  }

  predicate WithinHalfCent(off: int, units: int) {
    -units <= 2 * off <= units
  }

  // ------------------------------------------------------------------ one receipt

  lemma HalfCentPerUnit(d: real, n: real, y: real)
    requires -0.5 <= d <= 0.5 && n >= 0.0 && y == d * n
    ensures -n <= 2.0 * y <= n
  {
  }

  lemma WithinIfReal(y: real, m: int, t: int, n: nat)
    requires -(n as real) <= 2.0 * y <= n as real && y == t as real - m as real
    ensures WithinHalfCent(m - t, n)
  {
  }

  /** `d` is what one unit was rounded by, `m` and `t` the value after and before rounding. */
  lemma RoundedValue(d: real, m: int, n: nat, t: int)
    requires -0.5 <= d <= 0.5 && t as real - m as real == d * n as real
    ensures WithinHalfCent(m - t, n)
  {
    var y := t as real - m as real;
    HalfCentPerUnit(d, n as real, y);
    WithinIfReal(y, m, t, n);
  }

  lemma RealDistribute(n: real, x: real, c: real)
    ensures (x - c) * n == x * n - n * c
  {
  }

  lemma RoundingTimesUnits(x: real, c: int, n: nat, t: int)
    requires -0.5 <= x - c as real <= 0.5 && x * n as real == t as real
    ensures WithinHalfCent(n * c - t, n)
  {
    RealProduct(n, c);
    RealDistribute(n as real, x, c as real);
    RoundedValue(x - c as real, n * c, n, t);
  }

  lemma WeightedTimesUnits(average: int, stock: int, price: int, quantity: Quantity)
    requires stock + quantity > 0
    ensures Purchasing.WeightedAverage(average as real, stock, price, quantity) * (stock + quantity) as real
         == (average * stock + price * quantity) as real
  {
    RealProduct(average, stock);
    DivideBack(average as real * stock as real + (price * quantity) as real, (stock + quantity) as real);
  }

  /** The book value one line is off by, once it is in stock. */
  function ReceiptOff(product: Product, item: PurchaseItem): int {
    (product.stock + item.quantity) * Purchasing.NewAverage(product, item)
    - product.stock * product.averageCost - Purchasing.ItemCost(item)
  }

  lemma RoundedReceipt(product: Product, item: PurchaseItem)
    requires product.stock + item.quantity > 0
    ensures WithinHalfCent(ReceiptOff(product, item), product.stock + item.quantity)
  {
    WeightedTimesUnits(product.averageCost, product.stock, item.unitPrice, item.quantity);
    RoundingTimesUnits(Purchasing.WeightedAverage(product.averageCost as real, product.stock, item.unitPrice,
                                                  item.quantity),
                       Purchasing.NewAverage(product, item), product.stock + item.quantity,
                       product.averageCost * product.stock + item.unitPrice * item.quantity);
  }

  /** With no positive total the price becomes the average, and what was owed is revalued at it: one cent more
      misstates the value by a cent a unit. */
  lemma RevaluedStock(product: Product, item: PurchaseItem)
    requires product.stock + item.quantity <= 0 && item.unitPrice == product.averageCost + 1
    ensures ReceiptOff(product, item) == product.stock
    ensures !WithinHalfCent(ReceiptOff(product, item), product.stock + item.quantity)
  {
    ToCentsOnGrid(item.unitPrice);
    Distribute(item.unitPrice, product.stock, item.quantity);
    Distribute(product.stock, product.averageCost, 1);
  }

  /** Exactly: one line books its value within half a cent per unit, at every price, if and only if it leaves a
      stock above zero. */
  lemma ReceiptConservesIff(product: Product, name: Id, quantity: Quantity)
    ensures product.stock + quantity > 0 <==>
            forall price: Cents ::
                WithinHalfCent(ReceiptOff(product, PurchaseItem(name, quantity, price)), product.stock + quantity)
  {
    if product.stock + quantity > 0 {
      forall price: Cents
        ensures WithinHalfCent(ReceiptOff(product, PurchaseItem(name, quantity, price)), product.stock + quantity)
      {
        RoundedReceipt(product, PurchaseItem(name, quantity, price));
      }
    } else {
      var item := PurchaseItem(name, quantity, product.averageCost + 1);
      RevaluedStock(product, item);
    }
  }

  lemma {:induction false} OnlyLineSums(items: seq<PurchaseItem>, p: Id)
    requires NamedOnce(items, p) && Mentions(items, p)
    ensures var last := LastFor(items, p);
            Units(Bought(items), p) == last.quantity && SumOver(items, CostFor(p)) == Purchasing.ItemCost(last)
    decreases |items|
  {
    var head, rest := items[0], items[1..];
    assert items == [head] + rest;
    assert Bought(items)[1..] == Bought(rest);
    UnitsOfHead(Bought(items), p);
    if head.product == p {
      HeadIsOnly(items);
      NotMentioned(rest, p);
    } else {
      assert Mentions(rest, p);
      OnlyLineSums(rest, p);
    }
  }

  lemma HeadIsOnly(items: seq<PurchaseItem>)
    requires items != [] && NamedOnce(items, items[0].product)
    ensures !Mentions(items[1..], items[0].product)
  {
  }

  lemma NotMentioned(items: seq<PurchaseItem>, p: Id)
    requires !Mentions(items, p)
    ensures Units(Bought(items), p) == 0 && SumOver(items, CostFor(p)) == 0
  {
    UnitsPositive(Bought(items), p);
    assert !Names(Bought(items), p) by {
      forall m | m in Bought(items) ensures m.product != p {
        var k :| 0 <= k < |items| && Bought(items)[k] == m;
        assert items[k] in items;
      }
    }
    SumZero(items, CostFor(p));
  }

  /** The value a received list of items is off by, for one product. */
  function OffBy(before: Products, after: Products, items: seq<PurchaseItem>, p: Id): int {
    Value(after, p) - Value(before, p) - SumOver(items, CostFor(p))
  }

  lemma OnlyLineWithin(before: Products, after: Products, items: seq<PurchaseItem>, p: Id)
    requires AveragesMove(before, after, items)
    requires p in before && NamedOnce(items, p) && Mentions(items, p) && after[p].stock > 0
    ensures WithinHalfCent(OffBy(before, after, items, p), after[p].stock)
  {
    OnlyLineSums(items, p);
    RoundedReceipt(before[p], LastFor(items, p));
  }

  // ------------------------------------------------------------------ one direct sale

  lemma {:induction false} ChargedIsAverage(items: seq<OrderItem>, average: int, p: Id)
    requires forall i :: i in items && i.product == p ==> i.cogs == average * i.quantity
    ensures SumOver(items, CogsFor(p)) == average * Units(Sold(items), p)
  {
    if items != [] {
      assert items[0] in items && forall i :: i in items[1..] ==> i in items;
      assert Sold(items)[1..] == Sold(items[1..]);
      UnitsOfHead(Sold(items), p);
      ChargedIsAverage(items[1..], average, p);
      Distribute(average, if items[0].product == p then items[0].quantity else 0, Units(Sold(items[1..]), p));
    }
  }

  lemma BuiltItemsCharge(products: Products, tenant: Id, lines: seq<Sales.SaleLine>, p: Id)
    requires p in products && Sales.BuildItems(products, tenant, lines).Done?
    ensures SumOver(Sales.BuildItems(products, tenant, lines).value, CogsFor(p))
         == products[p].averageCost * Units(Sales.Requested(lines), p)
  {
    BuildItemsEffect(products, tenant, lines);
    var items := Sales.BuildItems(products, tenant, lines).value;
    forall i | i in items && i.product == p ensures i.cogs == products[p].averageCost * i.quantity {
      var k :| 0 <= k < |items| && items[k] == i;
      assert i == Sales.PriceLine(products[lines[k].product], lines[k]);
    }
    ChargedIsAverage(items, products[p].averageCost, p);
  }

  lemma DirectSaleCommits(c: Config, e: Event)
    requires IsDirectSale(c, e)
    ensures var s, op := c.state, e.op;
            && Sales.BuildItems(s.products, op.tenant, op.lines).Done?
            && op.id in Step(s, op).sales
            && Step(s, op).sales[op.id].items == Sales.BuildItems(s.products, op.tenant, op.lines).value
            && StockShifted(s.products, Step(s, op).products, Sales.Requested(op.lines), -1)
  {
    StockOutShift(c.state.products, e.op.tenant, Sales.Requested(e.op.lines));
  }

  lemma DirectSaleExplained(c: Config, e: Event, p: Id)
    requires IsDirectSale(c, e) && p in c.state.products
    ensures Unexplained(c, e, p) == 0
  {
    DirectSaleCommits(c, e);
    BuiltItemsCharge(c.state.products, e.op.tenant, e.op.lines, p);
    var before := c.state.products[p];
    Distribute(before.averageCost, before.stock, Units(Sales.Requested(e.op.lines), p));
  }

  // ------------------------------------------------------------------ every event

  lemma OtherExplained(c: Config, e: Event, p: Id)
    requires !IsDirectSale(c, e) && ReceivedBy(c, e) == []
    ensures Unexplained(c, e, p) == 0
  {
    NextMoves(c, e);
    if p in c.state.products {
      var before, after := c.state.products[p], Next(c, e).state.products[p];
      Distribute(before.averageCost, after.stock, before.stock);
    }
  }

  lemma ReceiptTouchesItsProducts(c: Config, e: Event, p: Id)
    requires ReceivedBy(c, e) != []
    ensures Next(c, e).state.products.Keys == c.state.products.Keys
    ensures p in c.state.products && !Mentions(ReceivedBy(c, e), p) ==>
              Next(c, e).state.products[p] == c.state.products[p]
  {
    var s, items := c.state, ReceivedBy(c, e);
    var tenant := if e.Atomic? then e.op.tenant else c.receiving[e.call].tenant;
    ReceiveEffect(s.products, s.products, tenant, items);
    assert Next(c, e).state.products == Purchasing.ReceiveItems(s.products, s.products, tenant, items).value;
    if !Mentions(items, p) {
      NotMentioned(items, p);
    }
  }

  /** What conservation asks of an event: if it receives `p`, then on one line, and into a stock above zero. */
  ghost predicate BooksInFull(c: Config, e: Event, p: Id) {
    Mentions(ReceivedBy(c, e), p) ==> NamedOnce(ReceivedBy(c, e), p) && Stock(Next(c, e).state.products, p) > 0
  }

  /** One event leaves at most half a cent per unit of the stock it received into. */
  lemma EventConserves(c: Config, e: Event, p: Id)
    requires BooksInFull(c, e, p)
    ensures WithinHalfCent(Unexplained(c, e, p), Slack(c, e, p))
  {
    var items := ReceivedBy(c, e);
    if items == [] {
      if IsDirectSale(c, e) && p in c.state.products {
        DirectSaleExplained(c, e, p);
      } else if IsDirectSale(c, e) {
        UnknownProductNotCharged(c, e, p);
      } else {
        OtherExplained(c, e, p);
      }
    } else {
      ReceiptTouchesItsProducts(c, e, p);
      NextMoves(c, e);
      if !Mentions(items, p) {
        NotMentioned(items, p);
      } else {
        ReceivedIsOwned(c, e, p);
        OnlyLineWithin(c.state.products, Next(c, e).state.products, items, p);
      }
    }
  }

  lemma UnknownProductNotCharged(c: Config, e: Event, p: Id)
    requires IsDirectSale(c, e) && p !in c.state.products
    ensures Unexplained(c, e, p) == 0
  {
    var s, op := c.state, e.op;
    DirectSaleCommits(c, e);
    BuildItemsEffect(s.products, op.tenant, op.lines);
    var items := Sales.BuildItems(s.products, op.tenant, op.lines).value;
    forall i | i in items ensures CogsFor(p)(i) == 0 {
      var k :| 0 <= k < |items| && items[k] == i;
    }
    SumZero(items, CogsFor(p));
  }

  lemma ReceivedIsOwned(c: Config, e: Event, p: Id)
    requires Mentions(ReceivedBy(c, e), p)
    ensures p in c.state.products
  {
    var s, items := c.state, ReceivedBy(c, e);
    var tenant := if e.Atomic? then e.op.tenant else c.receiving[e.call].tenant;
    ReceiveEffect(s.products, s.products, tenant, items);
    var i :| i in items && i.product == p;
  }

  // ------------------------------------------------------------------ runs

  function PaidIn(c: Config, es: seq<Event>, p: Id): int
    decreases |es|
  {
    if es == [] then 0 else Paid(c, es[0], p) + PaidIn(Next(c, es[0]), es[1..], p)
  }

  function ChargedIn(c: Config, es: seq<Event>, p: Id): int
    decreases |es|
  {
    if es == [] then 0 else Charged(c, es[0], p) + ChargedIn(Next(c, es[0]), es[1..], p)
  }

  function MovedIn(c: Config, es: seq<Event>, p: Id): int
    decreases |es|
  {
    if es == [] then 0 else Moved(c, es[0], p) + MovedIn(Next(c, es[0]), es[1..], p)
  }

  function SlackIn(c: Config, es: seq<Event>, p: Id): int
    decreases |es|
  {
    if es == [] then 0 else Slack(c, es[0], p) + SlackIn(Next(c, es[0]), es[1..], p)
  }

  ghost predicate RunBooksInFull(c: Config, es: seq<Event>, p: Id)
    decreases |es|
  {
    es != [] ==> BooksInFull(c, es[0], p) && RunBooksInFull(Next(c, es[0]), es[1..], p)
  }

  /** No order names `p` twice when it is received. */
  ghost predicate RunNamesOnce(c: Config, es: seq<Event>, p: Id)
    decreases |es|
  {
    es != [] ==> NamedOnce(ReceivedBy(c, es[0]), p) && RunNamesOnce(Next(c, es[0]), es[1..], p)
  }

  lemma ReceivedStockIsPositive(c: Config, e: Event, p: Id)
    requires NonNegative(c.state.products) && Mentions(ReceivedBy(c, e), p)
    ensures Stock(Next(c, e).state.products, p) > 0
  {
    var items := ReceivedBy(c, e);
    ReceivedIsOwned(c, e, p);
    NextMoves(c, e);
    UnitsPositive(Bought(items), p);
    var i :| i in items && i.product == p;
    var k :| 0 <= k < |items| && items[k] == i;
    assert Bought(items)[k] in Bought(items);
  }

  /** Where stock is never negative, naming `p` once is all it takes. */
  lemma {:induction false} NonNegativeBooksInFull(c: Config, es: seq<Event>, p: Id)
    requires NonNegative(c.state.products) && forall e :: e in es ==> NoNegativeOpening(e)
    requires RunNamesOnce(c, es, p)
    ensures RunBooksInFull(c, es, p)
    decreases |es|
  {
    if es != [] {
      assert es[0] in es;
      assert forall e :: e in es[1..] ==> e in es;
      if Mentions(ReceivedBy(c, es[0]), p) { ReceivedStockIsPositive(c, es[0], p); }
      NextKeepsStockNonNegative(c, es[0]);
      NonNegativeBooksInFull(Next(c, es[0]), es[1..], p);
    }
  }

  /** Main result. Over every interleaving, the book value of a product is what it was, plus receipts at cost,
      minus the cost of goods charged by direct sales, plus the other movements at the average of their moment,
      off by at most half a cent for each unit in stock just after each receipt. */
  lemma {:induction false} ValueIsConserved(c: Config, es: seq<Event>, p: Id)
    requires RunBooksInFull(c, es, p)
    ensures WithinHalfCent(Value(Play(c, es).state.products, p) - Value(c.state.products, p)
                           - PaidIn(c, es, p) + ChargedIn(c, es, p) - MovedIn(c, es, p),
                           SlackIn(c, es, p))
    decreases |es|
  {
    if es != [] {
      EventConserves(c, es[0], p);
      ValueIsConserved(Next(c, es[0]), es[1..], p);
    }
  }

  /** An event of a run of purchase receipts and direct sales. */
  predicate IsReceiptOrSale(e: Event) {
    || e.CommitReceive? || e.BeginReceive?
    || (e.Atomic?
        && (e.op.CreatePurchase? || e.op.CreatePendingPurchase? || e.op.ReceivePurchase? || e.op.CancelPurchase?
                      || e.op.CreateSale? || e.op.CreatePendingSale? || e.op.CancelSale?))
  }

  lemma ReceiptOrSaleMovesNothingElse(c: Config, e: Event, p: Id)
    requires IsReceiptOrSale(e)
    ensures Moved(c, e, p) == 0
  {
  }

  /** On runs of receipts and direct sales the value is opening value plus receipts minus COGS, up to rounding. */
  lemma {:induction false} ReceiptsMinusCogs(c: Config, es: seq<Event>, p: Id)
    requires RunBooksInFull(c, es, p)
    requires forall e :: e in es ==> IsReceiptOrSale(e)
    ensures WithinHalfCent(Value(Play(c, es).state.products, p)
                           - (Value(c.state.products, p) + PaidIn(c, es, p) - ChargedIn(c, es, p)),
                           SlackIn(c, es, p))
    decreases |es|
  {
    ValueIsConserved(c, es, p);
    OnlyReceiptsAndSales(c, es, p);
  }

  lemma {:induction false} OnlyReceiptsAndSales(c: Config, es: seq<Event>, p: Id)
    requires forall e :: e in es ==> IsReceiptOrSale(e)
    ensures MovedIn(c, es, p) == 0
    decreases |es|
  {
    if es != [] {
      assert es[0] in es;
      assert forall e :: e in es[1..] ==> e in es;
      ReceiptOrSaleMovesNothingElse(c, es[0], p);
      OnlyReceiptsAndSales(Next(c, es[0]), es[1..], p);
    }
  }

  // ------------------------------------------------------------------ exactly when an order conserves value

  /** The receiving loop keeps the bound for this list of items. */
  ghost predicate BoundHolds(products: Products, tenant: Id, items: seq<PurchaseItem>) {
    var r := Purchasing.ReceiveItems(products, products, tenant, items);
    r.Done? ==> forall p :: p in products && Mentions(items, p) ==>
                  WithinHalfCent(OffBy(products, r.value, items, p), Stock(r.value, p))
  }

  ghost predicate DistinctMoves(moves: seq<Move>) {
    forall i, j :: 0 <= i < j < |moves| ==> moves[i].product != moves[j].product
  }

  /** The same lines with a price on line `i` alone. */
  function PricedOnlyAt(moves: seq<Move>, i: nat, price: Cents): seq<PurchaseItem> {
    seq(|moves|, k requires 0 <= k < |moves| =>
      PurchaseItem(moves[k].product, moves[k].quantity, if k == i then price else 0))
  }

  lemma CostOfOnlyLine(moves: seq<Move>, i: nat, price: Cents, p: Id)
    requires i < |moves| && moves[i].product == p
    ensures SumOver(PricedOnlyAt(moves, i, price), CostFor(p)) == price * moves[i].quantity
  {
    var items := PricedOnlyAt(moves, i, price);
    var free := items[i := PurchaseItem(p, moves[i].quantity, 0)];
    SumUpdate(items, i, free[i], CostFor(p));
    SumZero(free, CostFor(p));
  }

  /** The last line of a product that has a line after `i` is priced nil, and does not depend on line `i`. */
  lemma {:induction false} LastOfUnpriced(items: seq<PurchaseItem>, other: seq<PurchaseItem>, i: nat, j: nat, p: Id)
    requires i < j < |items| && items[j].product == p && LikeOffLine(items, other, i)
    requires forall k :: 0 <= k < |items| && k != i ==> items[k].unitPrice == 0
    ensures Mentions(items, p) && LastFor(items, p).unitPrice == 0
    ensures Mentions(other, p) && LastFor(other, p) == LastFor(items, p)
    decreases |items|
  {
    assert items[j] in items && other[j] in other;
    assert items[j] in items[1..] && other[j] in other[1..];
    if i > 0 {
      LastOfUnpriced(items[1..], other[1..], i - 1, j - 1, p);
    } else {
      assert other[1..] == items[1..];
    }
  }

  ghost predicate LikeOffLine(items: seq<PurchaseItem>, other: seq<PurchaseItem>, i: nat) {
    |other| == |items| && forall k :: 0 <= k < |items| && k != i ==> other[k] == items[k]
  }

  /** What a list priced on line `i` alone leaves of that line's product: its value does not depend on the price. */
  lemma UnpricedValue(products: Products, tenant: Id, moves: seq<Move>, i: nat, j: nat, price: Cents)
    requires AllOwned(products, tenant, moves) && i < j < |moves| && moves[i].product == moves[j].product
    ensures moves[i].product in products
    ensures var p, items := moves[i].product, PricedOnlyAt(moves, i, price);
            var r := Purchasing.ReceiveItems(products, products, tenant, items);
            var free := PricedOnlyAt(moves, i, 0);
            && r.Done? && p in r.value && Mentions(free, p) && Mentions(items, p)
            && r.value[p].stock == products[p].stock + Units(moves, p)
            && r.value[p].averageCost == Purchasing.NewAverage(products[p], LastFor(free, p))
  {
    var free, items := PricedOnlyAt(moves, i, 0), PricedOnlyAt(moves, i, price);
    assert moves[i] in moves;
    LastOfUnpriced(free, items, i, j, moves[i].product);
    assert Bought(items) == moves;
    forall x | x in items ensures Owned(products, x.product, tenant) {
      var k :| 0 <= k < |items| && items[k] == x;
      assert moves[k] in moves;
    }
    ReceiveEffect(products, products, tenant, items);
  }

  /** If a product repeats, some price on its earlier line breaks the bound: that price never reaches the average. */
  lemma RepeatedProductBreaksBound(products: Products, tenant: Id, moves: seq<Move>, i: nat, j: nat)
          returns (price: Cents)
    requires AllOwned(products, tenant, moves)
    requires i < j < |moves| && moves[i].product == moves[j].product
    ensures !BoundHolds(products, tenant, PricedOnlyAt(moves, i, price))
  {
    var p := moves[i].product;
    UnpricedValue(products, tenant, moves, i, j, 0);
    var stock := products[p].stock + Units(moves, p);
    var value := stock * Purchasing.NewAverage(products[p], LastFor(PricedOnlyAt(moves, i, 0), p));
    var off := value - Value(products, p);
    price := (if off < 0 then -off else off) + (if stock < 0 then -stock else stock) + 1;
    UnpricedValue(products, tenant, moves, i, j, price);
    CostOfOnlyLine(moves, i, price, p);
    MulMonotone(1, moves[i].quantity, price);
    var items := PricedOnlyAt(moves, i, price);
    var after := Purchasing.ReceiveItems(products, products, tenant, items).value;
    assert Value(after, p) == value;
    assert !WithinHalfCent(OffBy(products, after, items, p), stock);
  }

  lemma ItemsOfOwnedMoves(products: Products, tenant: Id, items: seq<PurchaseItem>)
    ensures ItemsOwned(products, tenant, items) <==> AllOwned(products, tenant, Bought(items))
  {
    forall k | 0 <= k < |items| ensures items[k] in items && Bought(items)[k] in Bought(items) {}
  }

  /** Every product is left with a stock above zero by its line. */
  ghost predicate LeavesStock(products: Products, moves: seq<Move>) {
    forall m :: m in moves ==> Stock(products, m.product) + m.quantity > 0
  }

  lemma OnlyPricedLine(moves: seq<Move>, i: nat, price: Cents)
    requires i < |moves| && DistinctMoves(moves)
    ensures var p, items := moves[i].product, PricedOnlyAt(moves, i, price);
            && NamedOnce(items, p) && Mentions(items, p)
            && LastFor(items, p) == PurchaseItem(p, moves[i].quantity, price)
  {
    var p, items := moves[i].product, PricedOnlyAt(moves, i, price);
    assert items[i] in items;
    forall x | x in items && x.product == p ensures x == items[i] {
      var k :| 0 <= k < |items| && items[k] == x;
    }
  }

  /** A line that leaves no stock above zero is off at the price next to the average. */
  lemma NoStockIsOff(before: Products, after: Products, items: seq<PurchaseItem>, p: Id)
    requires AveragesMove(before, after, items)
    requires p in before && NamedOnce(items, p) && Mentions(items, p) && after[p].stock <= 0
    requires LastFor(items, p).unitPrice == before[p].averageCost + 1
    ensures !WithinHalfCent(OffBy(before, after, items, p), after[p].stock)
  {
    var last := LastFor(items, p);
    OnlyLineSums(items, p);
    assert after[p].stock == before[p].stock + last.quantity
        && after[p].averageCost == Purchasing.NewAverage(before[p], last);
    assert OffBy(before, after, items, p) == ReceiptOff(before[p], last);
    RevaluedStock(before[p], last);
  }

  /** If a line leaves no stock above zero, some price on it breaks the bound: it revalues what was owed. */
  lemma NoStockBreaksBound(products: Products, tenant: Id, moves: seq<Move>, i: nat) returns (price: Cents)
    requires AllOwned(products, tenant, moves) && DistinctMoves(moves)
    requires i < |moves| && Stock(products, moves[i].product) + moves[i].quantity <= 0
    ensures !BoundHolds(products, tenant, PricedOnlyAt(moves, i, price))
  {
    var p := moves[i].product;
    assert moves[i] in moves;
    price := products[p].averageCost + 1;
    var items := PricedOnlyAt(moves, i, price);
    assert Bought(items) == moves;
    ItemsOfOwnedMoves(products, tenant, items);
    ReceiveEffect(products, products, tenant, items);
    OnlyPricedLine(moves, i, price);
    OnlyLineSums(items, p);
    NoStockIsOff(products, Purchasing.ReceiveItems(products, products, tenant, items).value, items, p);
  }

  lemma DistinctKeepsBound(products: Products, tenant: Id, items: seq<PurchaseItem>)
    requires DistinctMoves(Bought(items)) && LeavesStock(products, Bought(items))
    ensures BoundHolds(products, tenant, items)
  {
    ReceiveEffect(products, products, tenant, items);
    var r := Purchasing.ReceiveItems(products, products, tenant, items);
    if r.Done? {
      forall p | p in products && Mentions(items, p)
        ensures WithinHalfCent(OffBy(products, r.value, items, p), Stock(r.value, p))
      {
        forall i, j | 0 <= i < j < |items| ensures !(items[i].product == p && items[j].product == p) {
          assert Bought(items)[i].product != Bought(items)[j].product;
        }
        OnlyLineSums(items, p);
        var k :| 0 <= k < |items| && items[k] == LastFor(items, p);
        assert Bought(items)[k] in Bought(items);
        OnlyLineWithin(products, r.value, items, p);
      }
    }
  }

  lemma BreakingPrice(products: Products, tenant: Id, moves: seq<Move>) returns (items: seq<PurchaseItem>)
    requires AllOwned(products, tenant, moves) && !(DistinctMoves(moves) && LeavesStock(products, moves))
    ensures Bought(items) == moves && !BoundHolds(products, tenant, items)
  {
    var i, price;
    if DistinctMoves(moves) {
      var m :| m in moves && Stock(products, m.product) + m.quantity <= 0;
      i :| 0 <= i < |moves| && moves[i] == m;
      price := NoStockBreaksBound(products, tenant, moves, i);
    } else {
      var j;
      i, j :| 0 <= i < j < |moves| && moves[i].product == moves[j].product;
      price := RepeatedProductBreaksBound(products, tenant, moves, i, j);
    }
    items := PricedOnlyAt(moves, i, price);
  }

  /** Exactly, for any products and any list of movements: the receiving loop keeps the bound at every price if and
      only if it turns the list away, or no product repeats and every line leaves a stock above zero. */
  lemma OrderConservesIff(products: Products, tenant: Id, moves: seq<Move>)
    ensures (forall items :: Bought(items) == moves ==> BoundHolds(products, tenant, items))
       <==> !AllOwned(products, tenant, moves) || (DistinctMoves(moves) && LeavesStock(products, moves))
  {
    if DistinctMoves(moves) && LeavesStock(products, moves) {
      forall items | Bought(items) == moves ensures BoundHolds(products, tenant, items) {
        DistinctKeepsBound(products, tenant, items);
      }
    } else if AllOwned(products, tenant, moves) {
      var items := BreakingPrice(products, tenant, moves);
    } else {
      forall items | Bought(items) == moves ensures BoundHolds(products, tenant, items) {
        ItemsOfOwnedMoves(products, tenant, items);
        ReceiveEffect(products, products, tenant, items);
      }
    }
  }

  /** A run on which it happens though every order names a product once: bulk input opens a product at -5, two units
      come in at 100, and the book says -300 where 200 was paid. */
  lemma NegativeOpeningBreaksBound(t: Id, p: Id, sku: string, order: Id, number: string, supplier: Id)
    ensures var born := Step(EMPTY, BulkInput(t, [Inventory.BulkLine(p, sku, Some(-5))]));
            var c, items := Config(born, map[], map[]), [PurchaseItem(p, 2, 100)];
            var receipt := Atomic(CreatePurchase(t, order, number, supplier, items));
            && ReceivedBy(c, receipt) == items && DistinctMoves(Bought(items))
            && !BoundHolds(born.products, t, items)
            && Value(born.products, p) == 0 && Paid(c, receipt, p) == 200
            && Value(Next(c, receipt).state.products, p) == -300
  {
    var items := [PurchaseItem(p, 2, 100)];
    FirstReceipt(t, p, sku, -5, order, number, supplier, items[0]);
    var owing := map[p := Product(t, sku, -5, 0)];
    assert items[0] in items && items[1..] == [];
    assert SumOver(items, CostFor(p)) == 200 + SumOver(items[1..], CostFor(p));
    assert Purchasing.ReceiveItems(owing, owing, t, items) == Done(map[p := Product(t, sku, -3, 100)]);
    assert OffBy(owing, map[p := Product(t, sku, -3, 100)], items, p) == -500;
  }
}
