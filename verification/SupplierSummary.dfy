/** `getSupplierPurchaseSummary`: a fold over order totals and a grouped double sum over order lines, which must agree,
    and how far both count what was never received. */
module SupplierSummary {
  import opened Cents
  import opened Sums
  import opened Store
  import opened Effects
  import opened Machine
  import opened Database
  import Purchasing
  import Inventory
  import BulkInputs

  /** One entry of the map of products; entries keep their insertion order. */
  datatype Grouped = Grouped(product: Id, quantity: int, total: Cents)

  /** All the lines of a list of orders. */
  function Lines(orders: seq<PurchaseOrder>): seq<PurchaseItem> {
    if orders == [] then [] else orders[0].items + Lines(orders[1..])
  }

  function OrderTotal(o: PurchaseOrder): int {
    o.totalPrice
  }

  function GroupTotal(g: Grouped): int {
    g.total
  }

  function QuantityFor(p: Id): PurchaseItem -> int {
    (i: PurchaseItem) => if i.product == p then i.quantity else 0
  }

  ghost predicate OneEntryEach(groups: seq<Grouped>) {
    forall i, j :: 0 <= i < j < |groups| ==> groups[i].product != groups[j].product
  }

  ghost predicate HasEntry(groups: seq<Grouped>, p: Id) {
    exists g :: g in groups && g.product == p
  }

  /** The map holds, for each product of the lines, its summed quantity and cost, once. */
  ghost predicate Groups(groups: seq<Grouped>, lines: seq<PurchaseItem>) {
    && OneEntryEach(groups)
    && (forall g :: g in groups ==>
          && g.quantity == SumOver(lines, QuantityFor(g.product))
          && g.total == SumOver(lines, CostFor(g.product)))
    && (forall p :: Mentions(lines, p) <==> HasEntry(groups, p))
  }

  /** `map.get`: the place of a product's entry, the length if there is none. */
  method Find(groups: seq<Grouped>, product: Id) returns (k: nat)
    ensures k <= |groups|
    ensures k < |groups| ==> groups[k].product == product
    ensures k == |groups| ==> forall g :: g in groups ==> g.product != product
  {
    k := 0;
    while k < |groups|
      invariant 0 <= k <= |groups|
      invariant forall j :: 0 <= j < k ==> groups[j].product != product
    {
      if groups[k].product == product { return; }
      k := k + 1;
    }
  }

  /** `map.set` after `map.get`: the entry at `k` grows, or a new one is appended. */
  function Set(groups: seq<Grouped>, k: nat, item: PurchaseItem): seq<Grouped>
    requires k <= |groups|
  {
    if k < |groups|
    then groups[k :=
                Grouped(item.product, groups[k].quantity + item.quantity, groups[k].total + Purchasing.ItemCost(item))]
    else groups + [Grouped(item.product, item.quantity, Purchasing.ItemCost(item))]
  }

  ghost predicate IsPlaceOf(groups: seq<Grouped>, k: nat, product: Id) {
    && k <= |groups|
    && (k < |groups| ==> groups[k].product == product)
    && (k == |groups| ==> forall g :: g in groups ==> g.product != product)
  }

  lemma NoLinesNoSum(lines: seq<PurchaseItem>, p: Id)
    requires forall i :: i in lines ==> i.product != p
    ensures SumOver(lines, QuantityFor(p)) == 0 && SumOver(lines, CostFor(p)) == 0
  {
  }

  lemma SetSums(groups: seq<Grouped>, lines: seq<PurchaseItem>, k: nat, item: PurchaseItem, g: Grouped)
    requires Groups(groups, lines) && IsPlaceOf(groups, k, item.product) && g in Set(groups, k, item)
    ensures g.quantity == SumOver(lines + [item], QuantityFor(g.product))
    ensures g.total == SumOver(lines + [item], CostFor(g.product))
  {
    SumSnoc(lines, item, QuantityFor(g.product));
    SumSnoc(lines, item, CostFor(g.product));
    var after := Set(groups, k, item);
    var n :| 0 <= n < |after| && after[n] == g;
    if n == k {
      if k == |groups| {
        assert !HasEntry(groups, item.product);
        assert forall i :: i in lines && i.product == item.product ==> Mentions(lines, item.product);
        NoLinesNoSum(lines, item.product);
      } else {
        assert groups[k] in groups;
      }
    } else {
      assert groups[n] in groups && after[n] == groups[n];
      if k < |groups| { assert groups[n].product != groups[k].product; }
    }
  }

  lemma MentionsAfter(lines: seq<PurchaseItem>, item: PurchaseItem, p: Id)
    ensures Mentions(lines + [item], p) <==> Mentions(lines, p) || item.product == p
  {
  }

  lemma EntryAfter(groups: seq<Grouped>, k: nat, item: PurchaseItem, p: Id)
    requires IsPlaceOf(groups, k, item.product)
    ensures HasEntry(Set(groups, k, item), p) <==> HasEntry(groups, p) || item.product == p
  {
    var after := Set(groups, k, item);
    assert after[k] in after && after[k].product == item.product;
    if HasEntry(groups, p) {
      var g :| g in groups && g.product == p;
      var n :| 0 <= n < |groups| && groups[n] == g;
      assert after[n] in after && after[n].product == p;
    }
    if HasEntry(after, p) {
      var g :| g in after && g.product == p;
      var n :| 0 <= n < |after| && after[n] == g;
      if n < |groups| { assert groups[n] in groups && groups[n].product == p; }
    }
  }

  lemma SetGroups(groups: seq<Grouped>, lines: seq<PurchaseItem>, k: nat, item: PurchaseItem)
    requires Groups(groups, lines) && IsPlaceOf(groups, k, item.product)
    ensures Groups(Set(groups, k, item), lines + [item])
  {
    var after := Set(groups, k, item);
    forall g | g in after
      ensures g.quantity == SumOver(lines + [item], QuantityFor(g.product))
                && g.total == SumOver(lines + [item], CostFor(g.product))
    {
      SetSums(groups, lines, k, item, g);
    }
    forall p ensures Mentions(lines + [item], p) <==> HasEntry(after, p) {
      MentionsAfter(lines, item, p);
      EntryAfter(groups, k, item, p);
    }
  }

  /** The products of a list of lines, each where it is first named. */
  function FirstMentions(lines: seq<PurchaseItem>): seq<Id> {
    if lines == [] then [] else
      var before, p := FirstMentions(lines[..|lines| - 1]), lines[|lines| - 1].product;
      if p in before then before else before + [p]
  }

  function ProductsOf(groups: seq<Grouped>): seq<Id> {
    seq(|groups|, i requires 0 <= i < |groups| => groups[i].product)
  }

  lemma SetKeepsOrder(groups: seq<Grouped>, lines: seq<PurchaseItem>, k: nat, item: PurchaseItem)
    requires ProductsOf(groups) == FirstMentions(lines) && IsPlaceOf(groups, k, item.product)
    ensures ProductsOf(Set(groups, k, item)) == FirstMentions(lines + [item])
  {
    assert (lines + [item])[..|lines|] == lines;
    if k < |groups| {
      assert ProductsOf(groups)[k] == item.product;
    } else {
      forall i | 0 <= i < |groups| ensures ProductsOf(groups)[i] != item.product {
        assert groups[i] in groups;
      }
    }
  }

  /** The body of the inner loop: one line goes into the map. */
  method PutLine(before: seq<Grouped>, item: PurchaseItem, ghost done: seq<PurchaseItem>) returns (groups: seq<Grouped>)
    requires Groups(before, done) && ProductsOf(before) == FirstMentions(done)
    ensures Groups(groups, done + [item]) && ProductsOf(groups) == FirstMentions(done + [item])
  {
    var k := Find(before, item.product);
    SetGroups(before, done, k, item);
    SetKeepsOrder(before, done, k, item);
    groups := Set(before, k, item);
  }

  /** The inner loop: the lines of one order go into the map. */
  method GroupOrder(before: seq<Grouped>, items: seq<PurchaseItem>, ghost done: seq<PurchaseItem>)
          returns (groups: seq<Grouped>)
    requires Groups(before, done) && ProductsOf(before) == FirstMentions(done)
    ensures Groups(groups, done + items) && ProductsOf(groups) == FirstMentions(done + items)
  {
    groups := before;
    assert done + items[..0] == done;
    var i := 0;
    while i < |items|
      invariant 0 <= i <= |items|
      invariant Groups(groups, done + items[..i]) && ProductsOf(groups) == FirstMentions(done + items[..i])
    {
      groups := PutLine(groups, items[i], done + items[..i]);
      assert done + items[..i] + [items[i]] == done + items[..i + 1];
      i := i + 1;
    }
    assert items[..|items|] == items;
  }

  lemma OneMoreOrder(done: seq<PurchaseItem>, orders: seq<PurchaseOrder>, o: nat)
    requires o < |orders|
    ensures done + Lines(orders[o..]) == done + orders[o].items + Lines(orders[o + 1..])
  {
    assert orders[o..][0] == orders[o] && orders[o..][1..] == orders[o + 1..];
  }

  /** The grouping loops. */
  method GroupProducts(orders: seq<PurchaseOrder>) returns (groups: seq<Grouped>)
    ensures Groups(groups, Lines(orders)) && ProductsOf(groups) == FirstMentions(Lines(orders))
  {
    groups := [];
    ghost var done: seq<PurchaseItem> := [];
    var o := 0;
    while o < |orders|
      invariant 0 <= o <= |orders|
      invariant done + Lines(orders[o..]) == Lines(orders)
      invariant Groups(groups, done) && ProductsOf(groups) == FirstMentions(done)
    {
      groups := GroupOrder(groups, orders[o].items, done);
      OneMoreOrder(done, orders, o);
      done := done + orders[o].items;
      o := o + 1;
    }
    assert orders[|orders|..] == [] && done + [] == done;
  }

  // ------------------------------------------------------------------ the double sum

  ghost predicate Priced(o: PurchaseOrder) {
    o.totalPrice == Purchasing.TotalPrice(o.items)
  }

  lemma {:induction false} SpentIsCostOfLines(orders: seq<PurchaseOrder>)
    requires forall o :: o in orders ==> Priced(o)
    ensures SumOver(orders, OrderTotal) == SumOver(Lines(orders), Purchasing.ItemCost)
  {
    if orders != [] {
      assert orders[0] in orders && forall o :: o in orders[1..] ==> o in orders;
      SpentIsCostOfLines(orders[1..]);
      SumConcat(orders[0].items, Lines(orders[1..]), Purchasing.ItemCost);
    }
  }

  /** The lines of every product but one. */
  function Without(lines: seq<PurchaseItem>, p: Id): seq<PurchaseItem> {
    if lines == [] then [] else (if lines[0].product == p then [] else [lines[0]]) + Without(lines[1..], p)
  }

  lemma {:induction false} WithoutSums(lines: seq<PurchaseItem>, p: Id, q: Id)
    ensures SumOver(lines, Purchasing.ItemCost)
              == SumOver(lines, CostFor(p)) + SumOver(Without(lines, p), Purchasing.ItemCost)
    ensures q != p ==> SumOver(Without(lines, p), CostFor(q)) == SumOver(lines, CostFor(q))
    ensures forall i :: i in Without(lines, p) <==> i in lines && i.product != p
  {
    if lines != [] {
      WithoutSums(lines[1..], p, q);
      assert lines == [lines[0]] + lines[1..];
      if lines[0].product == p {
        assert Without(lines, p) == Without(lines[1..], p);
      } else {
        assert Without(lines, p)[1..] == Without(lines[1..], p);
      }
    }
  }

  /** Summing the entries of the map is summing the lines. */
  lemma {:induction false} GroupedCostIsCostOfLines(groups: seq<Grouped>, lines: seq<PurchaseItem>)
    requires OneEntryEach(groups)
    requires forall g :: g in groups ==> g.total == SumOver(lines, CostFor(g.product))
    requires forall p :: Mentions(lines, p) ==> HasEntry(groups, p)
    ensures SumOver(groups, GroupTotal) == SumOver(lines, Purchasing.ItemCost)
    decreases |groups|
  {
    if groups == [] {
      assert forall i :: i in lines ==> Mentions(lines, i.product);
      SumZero(lines, Purchasing.ItemCost);
    } else {
      var head, rest := groups[0], groups[1..];
      assert groups == [head] + rest;
      assert head in groups;
      var others := Without(lines, head.product);
      WithoutSums(lines, head.product, head.product);
      forall g | g in rest ensures g.total == SumOver(others, CostFor(g.product)) {
        assert g in groups;
        var n :| 0 <= n < |rest| && rest[n] == g;
        assert groups[n + 1] == g;
        WithoutSums(lines, head.product, g.product);
      }
      forall p | Mentions(others, p) ensures HasEntry(rest, p) {
        assert Mentions(lines, p);
        var g :| g in groups && g.product == p;
      }
      GroupedCostIsCostOfLines(rest, others);
    }
  }

  /** Every stored order is priced: creation prices it and nothing changes it after. */
  ghost predicate AllPriced(s: State) {
    forall id :: id in s.purchases ==> Priced(s.purchases[id])
  }

  lemma StepKeepsPriced(s: State, op: Op)
    requires AllPriced(s)
    ensures AllPriced(Step(s, op))
  {
  }

  lemma NextKeepsPriced(c: Config, e: Event)
    requires AllPriced(c.state)
    ensures AllPriced(Next(c, e).state)
  {
    if e.Atomic? { StepKeepsPriced(c.state, e.op); }
  }

  /** Over every interleaving, stored order totals stay the sums of their lines. */
  lemma {:induction false} PlayKeepsPriced(c: Config, es: seq<Event>)
    requires AllPriced(c.state)
    ensures AllPriced(Play(c, es).state)
    decreases |es|
  {
    if es != [] {
      NextKeepsPriced(c, es[0]);
      PlayKeepsPriced(Next(c, es[0]), es[1..]);
    }
  }

  /** Main result. The total spent, a fold over stored order totals, is the sum of the grouped totals. */
  lemma SpentIsSumOfGroups(orders: seq<PurchaseOrder>, groups: seq<Grouped>)
    requires forall o :: o in orders ==> Priced(o)
    requires Groups(groups, Lines(orders))
    ensures SumOver(orders, OrderTotal) == SumOver(groups, GroupTotal)
  {
    SpentIsCostOfLines(orders);
    GroupedCostIsCostOfLines(groups, Lines(orders));
  }

  // ------------------------------------------------------------------ what was received, and what only ordered

  /** What an order has to do with the goods that came in: all of it if RECEIVED, nothing if not. */
  function ReceivedQuantity(p: Id): PurchaseOrder -> int {
    (o: PurchaseOrder) => if o.status == PurchaseReceived then SumOver(o.items, QuantityFor(p)) else 0
  }

  function ReceivedCost(p: Id): PurchaseOrder -> int {
    (o: PurchaseOrder) => if o.status == PurchaseReceived then SumOver(o.items, CostFor(p)) else 0
  }

  function OrderedCost(p: Id): PurchaseOrder -> int {
    (o: PurchaseOrder) => if o.status == PurchaseReceived then 0 else SumOver(o.items, CostFor(p))
  }

  function ReceivedTotal(o: PurchaseOrder): int {
    if o.status == PurchaseReceived then o.totalPrice else 0
  }

  function OrderedTotal(o: PurchaseOrder): int {
    if o.status == PurchaseReceived then 0 else o.totalPrice
  }

  /** No order that was not received, be it PENDING or CANCELLED, names the product. */
  ghost predicate OnlyReceivedName(orders: seq<PurchaseOrder>, p: Id) {
    forall o :: o in orders && o.status != PurchaseReceived ==> !Mentions(o.items, p)
  }

  lemma {:induction false} QuantityIffMentioned(items: seq<PurchaseItem>, p: Id)
    ensures SumOver(items, QuantityFor(p)) >= 0
    ensures SumOver(items, QuantityFor(p)) > 0 <==> Mentions(items, p)
  {
    if items != [] {
      QuantityIffMentioned(items[1..], p);
      assert items == [items[0]] + items[1..];
      assert items[0] in items;
    }
  }

  lemma {:induction false} OrderedIsAtLeastReceived(orders: seq<PurchaseOrder>, p: Id)
    ensures SumOver(Lines(orders), QuantityFor(p)) >= SumOver(orders, ReceivedQuantity(p))
    ensures SumOver(Lines(orders), QuantityFor(p)) == SumOver(orders, ReceivedQuantity(p)) <==>
              OnlyReceivedName(orders, p)
  {
    if orders != [] {
      var head, rest := orders[0], orders[1..];
      assert orders == [head] + rest;
      assert head in orders && forall o :: o in rest ==> o in orders;
      OrderedIsAtLeastReceived(rest, p);
      SumConcat(head.items, Lines(rest), QuantityFor(p));
      QuantityIffMentioned(head.items, p);
    }
  }

  lemma {:induction false} CostSplitsByStatus(orders: seq<PurchaseOrder>, p: Id)
    ensures SumOver(Lines(orders), CostFor(p)) == SumOver(orders, ReceivedCost(p)) + SumOver(orders, OrderedCost(p))
  {
    if orders != [] {
      CostSplitsByStatus(orders[1..], p);
      SumConcat(orders[0].items, Lines(orders[1..]), CostFor(p));
    }
  }

  /** Exactly: an entry of the summary counts the received units alone if and only if no order that was not received
      names its product. Its total is too high by what those orders would have cost. */
  lemma EntryIsReceivedIff(orders: seq<PurchaseOrder>, groups: seq<Grouped>, g: Grouped)
    requires Groups(groups, Lines(orders)) && g in groups
    ensures g.quantity >= SumOver(orders, ReceivedQuantity(g.product))
    ensures g.quantity == SumOver(orders, ReceivedQuantity(g.product)) <==> OnlyReceivedName(orders, g.product)
    ensures g.total == SumOver(orders, ReceivedCost(g.product)) + SumOver(orders, OrderedCost(g.product))
  {
    OrderedIsAtLeastReceived(orders, g.product);
    CostSplitsByStatus(orders, g.product);
  }

  /** The amount spent is too high by the totals of the orders that were not received: at totals that are not negative,
      it is the amount received if and only if each of those orders is free. */
  lemma {:induction false} SpentIsReceivedIff(orders: seq<PurchaseOrder>)
    ensures SumOver(orders, OrderTotal) == SumOver(orders, ReceivedTotal) + SumOver(orders, OrderedTotal)
    ensures (forall o :: o in orders ==> o.totalPrice >= 0) ==>
              SumOver(orders, OrderTotal) >= SumOver(orders, ReceivedTotal)
              && (SumOver(orders, OrderTotal) == SumOver(orders, ReceivedTotal) <==>
                    forall o :: o in orders && o.status != PurchaseReceived ==> o.totalPrice == 0)
  {
    if orders != [] {
      assert orders == [orders[0]] + orders[1..];
      assert orders[0] in orders && forall o :: o in orders[1..] ==> o in orders;
      SpentIsReceivedIff(orders[1..]);
    }
  }

  // ------------------------------------------------------------------ the call

  /** A listing of the supplier's orders in the tenant: each once, in some order. */
  ghost predicate IsListing(purchases: map<Id, PurchaseOrder>, ids: seq<Id>, tenant: Id, supplier: Id) {
    && (forall i, j :: 0 <= i < j < |ids| ==> ids[i] != ids[j])
    && (forall id :: id in ids <==>
        id in purchases && purchases[id].tenant == tenant && purchases[id].supplier == supplier)
  }

  function RowsOf(purchases: map<Id, PurchaseOrder>, ids: seq<Id>): seq<PurchaseOrder>
    requires forall id :: id in ids ==> id in purchases
  {
    seq(|ids|, i requires 0 <= i < |ids| => assert ids[i] in ids; purchases[ids[i]])
  }

  /** The calls of a tenant that opens a product, orders two units of it at 100 and cancels the order. */
  function OrderedAndCancelled(t: Id, p: Id, sku: string, order: Id, number: string, supplier: Id): seq<Op> {
    [BulkInput(t, [Inventory.BulkLine(p, sku, None)]),
     CreatePendingPurchase(t, order, number, supplier, [PurchaseItem(p, 2, 100)]),
     CancelPurchase(t, order)]
  }

  lemma CancelledOrderAlone(t: Id, p: Id, sku: string, order: Id, number: string, supplier: Id)
    ensures var s := Run(EMPTY, OrderedAndCancelled(t, p, sku, order, number, supplier));
            var o := PurchaseOrder(t, number, supplier, PurchaseCancelled, [PurchaseItem(p, 2, 100)], 200);
            && s.purchases == map[order := o] && s.ledger == [] && Stock(s.products, p) == 0
  {
    var ops := OrderedAndCancelled(t, p, sku, order, number, supplier);
    assert ops[1..] == [ops[1], ops[2]] && ops[1..][1..] == [ops[2]] && ops[1..][1..][1..] == [];
    var born := Step(EMPTY, ops[0]);
    BulkInputs.OneLineOpens(t, Inventory.BulkLine(p, sku, None));
    assert born.products == map[p := Product(t, sku, 0, 0)];
    var items := [PurchaseItem(p, 2, 100)];
    assert items[1..] == [] && Purchasing.TotalPrice(items) == 200 + Purchasing.TotalPrice([]);
    var filed := Step(born, ops[1]);
    assert filed.purchases == map[order := PurchaseOrder(t, number, supplier, PurchasePending, items, 200)];
    var cancelled := Step(filed, ops[2]);
    assert Run(EMPTY, ops) == Run(born, ops[1..]) == Run(filed, [ops[2]]);
    assert [ops[2]][1..] == [] && Run(filed, [ops[2]]) == Run(cancelled, []) == cancelled;
  }

  /** A run on which it happens: nothing ever came in, and the summary reports one order, 200 spent, and two units. */
  lemma CancelledOrderIsCounted(t: Id, p: Id, sku: string, order: Id, number: string, supplier: Id,
                                ids: seq<Id>, groups: seq<Grouped>)
    requires var s := Run(EMPTY, OrderedAndCancelled(t, p, sku, order, number, supplier));
             && IsListing(s.purchases, ids, t, supplier)
             && Groups(groups, Lines(RowsOf(s.purchases, ids)))
    ensures var s := Run(EMPTY, OrderedAndCancelled(t, p, sku, order, number, supplier));
            && s.ledger == [] && Stock(s.products, p) == 0
            && |ids| == 1 && SumOver(RowsOf(s.purchases, ids), OrderTotal) == 200
            && groups == [Grouped(p, 2, 200)]
  {
    CancelledOrderAlone(t, p, sku, order, number, supplier);
    var s := Run(EMPTY, OrderedAndCancelled(t, p, sku, order, number, supplier));
    assert order in ids;
    OnlyListed(ids, order);
    var o := s.purchases[order];
    assert RowsOf(s.purchases, ids) == [o] && [o][1..] == [];
    assert Lines([o]) == o.items + Lines([]) == o.items;
    OneLineOneEntry(groups, PurchaseItem(p, 2, 100));
  }

  lemma OnlyListed(ids: seq<Id>, id: Id)
    requires forall i, j :: 0 <= i < j < |ids| ==> ids[i] != ids[j]
    requires id in ids && forall x :: x in ids ==> x == id
    ensures ids == [id]
  {
    forall k | 0 <= k < |ids| ensures ids[k] == id {
      assert ids[k] in ids;
    }
    assert ids[0] == ids[|ids| - 1];
  }

  lemma OneLineOneEntry(groups: seq<Grouped>, item: PurchaseItem)
    requires Groups(groups, [item])
    ensures groups == [Grouped(item.product, item.quantity, Purchasing.ItemCost(item))]
  {
    var p := item.product;
    assert item in [item] && Mentions([item], p);
    assert [item][1..] == [] && SumOver([item], QuantityFor(p)) == item.quantity
        && SumOver([item], CostFor(p)) == Purchasing.ItemCost(item);
    forall k | 0 <= k < |groups| ensures groups[k] == Grouped(p, item.quantity, Purchasing.ItemCost(item)) {
      assert groups[k] in groups && HasEntry(groups, groups[k].product);
      assert Mentions([item], groups[k].product);
    }
    assert groups[0].product == groups[|groups| - 1].product;
  }

  class Service {
    const prisma: Prisma

    constructor (prisma: Prisma)
      ensures this.prisma == prisma
    {
      this.prisma := prisma;
    }

    /** `purchaseOrder.findMany({ where: { supplierId } })` through the tenant client. */
    method FindOrders(tenant: Id, supplier: Id) returns (ids: seq<Id>)
      ensures IsListing(prisma.purchases, ids, tenant, supplier)
      ensures forall id :: id in ids <==>
                id in prisma.purchases && prisma.purchases[id].tenant == tenant
                    && prisma.purchases[id].supplier == supplier
    {
      ids := [];
      var left := prisma.purchases.Keys;
      while left != {}
        invariant left <= prisma.purchases.Keys
        invariant forall i, j :: 0 <= i < j < |ids| ==> ids[i] != ids[j]
        invariant forall id :: id in ids <==>
                    && id in prisma.purchases && id !in left
                    && prisma.purchases[id].tenant == tenant && prisma.purchases[id].supplier == supplier
        decreases |left|
      {
        var id :| id in left;
        if prisma.purchases[id].tenant == tenant && prisma.purchases[id].supplier == supplier {
          assert id !in ids;
          ids := ids + [id];
        }
        left := left - {id};
      }
    }

    method GetSupplierPurchaseSummary(tenant: Id, supplier: Id)
      returns (totalOrders: nat, totalSpent: Cents, productsPurchased: seq<Grouped>, ghost ids: seq<Id>)
      ensures IsListing(prisma.purchases, ids, tenant, supplier)
      ensures totalOrders == |ids|
      ensures totalSpent == SumOver(RowsOf(prisma.purchases, ids), OrderTotal)
      ensures forall id :: id in ids <==>
                id in prisma.purchases && prisma.purchases[id].tenant == tenant
                    && prisma.purchases[id].supplier == supplier
      ensures Groups(productsPurchased, Lines(RowsOf(prisma.purchases, ids)))
      ensures ProductsOf(productsPurchased) == FirstMentions(Lines(RowsOf(prisma.purchases, ids)))
      ensures AllPriced(prisma.Snapshot()) ==> totalSpent == SumOver(productsPurchased, GroupTotal)
      ensures var orders := RowsOf(prisma.purchases, ids);
              && totalSpent == SumOver(orders, ReceivedTotal) + SumOver(orders, OrderedTotal)
              && forall g :: g in productsPurchased ==>
                   (g.quantity == SumOver(orders, ReceivedQuantity(g.product)) <==> OnlyReceivedName(orders, g.product))
    {
      var found := FindOrders(tenant, supplier);
      ids := found;
      var orders := RowsOf(prisma.purchases, found);
      totalOrders := |orders|;
      totalSpent := SumOver(orders, OrderTotal);
      productsPurchased := GroupProducts(orders);
      SpentIsReceivedIff(orders);
      forall g | g in productsPurchased
        ensures g.quantity == SumOver(orders, ReceivedQuantity(g.product)) <==> OnlyReceivedName(orders, g.product)
      {
        EntryIsReceivedIff(orders, productsPurchased, g);
      }
      if AllPriced(prisma.Snapshot()) {
        SpentIsSumOfGroups(orders, productsPurchased);
      }
    }
  }
}
