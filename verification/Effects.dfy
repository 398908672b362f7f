/** What each per-line loop does as a whole: when it succeeds, and the one update it amounts to. */
module Effects {
  import opened Sums
  import opened Store
  import Purchasing
  import Sales
  import Returns

  ghost predicate AllOwned(products: Products, tenant: Id, moves: seq<Move>) {
    forall m :: m in moves ==> Owned(products, m.product, tenant)
  }

  // ------------------------------------------------------------------ stock out

  /** Every product has enough stock for everything the list asks of it, repeated lines added up. */
  ghost predicate Covered(products: Products, tenant: Id, moves: seq<Move>) {
    forall m :: m in moves ==>
      Owned(products, m.product, tenant) && Units(moves, m.product) <= products[m.product].stock
  }

  ghost predicate StockShifted(before: Products, after: Products, moves: seq<Move>, sign: int) {
    && after.Keys == before.Keys
    && forall p :: p in before ==> after[p] == before[p].(stock := before[p].stock + sign * Units(moves, p))
  }

  lemma {:induction false} StockOutShift(products: Products, tenant: Id, moves: seq<Move>)
    ensures var r := Sales.StockOut(products, tenant, moves);
            && (r.Done? ==> StockShifted(products, r.value, moves, -1))
            && (r.Failed? ==> r.error == BadRequestException)
    decreases |moves|
  {
    if moves != [] {
      var head := moves[0];
      if Owned(products, head.product, tenant) && products[head.product].stock >= head.quantity {
        StockOutShift(Sales.TakeOut(products, head), tenant, moves[1..]);
        forall p ensures Units(moves, p) == (if head.product == p then head.quantity else 0) + Units(moves[1..], p) {
          UnitsOfHead(moves, p);
        }
      }
    }
  }

  /** One decrement moves the head of the list from the demand to the stock. */
  lemma CoveredStep(products: Products, tenant: Id, moves: seq<Move>)
    requires moves != [] && Owned(products, moves[0].product, tenant)
    requires moves[0].quantity <= products[moves[0].product].stock
    ensures Covered(Sales.TakeOut(products, moves[0]), tenant, moves[1..]) <==> Covered(products, tenant, moves)
  {
    var head, rest := moves[0], moves[1..];
    var taken := Sales.TakeOut(products, head);
    assert moves == [head] + rest;
    forall p ensures Units(moves, p) == (if head.product == p then head.quantity else 0) + Units(rest, p) {
      UnitsOfHead(moves, p);
    }
    if Covered(taken, tenant, rest) {
      forall m | m in moves
        ensures Owned(products, m.product, tenant) && Units(moves, m.product) <= products[m.product].stock
      {
        UnitsPositive(rest, m.product);
        if Names(rest, m.product) {
          var n :| n in rest && n.product == m.product;
          assert Units(rest, n.product) <= taken[n.product].stock;
        } else {
          assert m == head;
        }
      }
    }
    if Covered(products, tenant, moves) {
      forall m | m in rest
        ensures Owned(taken, m.product, tenant) && Units(rest, m.product) <= taken[m.product].stock
      {
        assert m in moves;
      }
    }
  }

  lemma {:induction false} StockOutSucceeds(products: Products, tenant: Id, moves: seq<Move>)
    ensures Sales.StockOut(products, tenant, moves).Done? <==> Covered(products, tenant, moves)
    decreases |moves|
  {
    if moves != [] {
      var head := moves[0];
      assert head in moves;
      if Owned(products, head.product, tenant) && products[head.product].stock >= head.quantity {
        StockOutSucceeds(Sales.TakeOut(products, head), tenant, moves[1..]);
        CoveredStep(products, tenant, moves);
      } else {
        UnitsOfHead(moves, head.product);
      }
    }
  }

  // ------------------------------------------------------------------ put back

  lemma {:induction false} PutBackEffect(products: Products, tenant: Id, moves: seq<Move>)
    ensures var r := Returns.PutBack(products, tenant, moves);
            && (r.Done? <==> AllOwned(products, tenant, moves))
            && (r.Done? ==> StockShifted(products, r.value, moves, 1))
            && (r.Failed? ==> r.error == RecordNotFound)
    decreases |moves|
  {
    if moves != [] {
      var head := moves[0];
      assert moves == [head] + moves[1..];
      assert head in moves;
      if Owned(products, head.product, tenant) {
        var after := Returns.PutIn(products, head);
        PutBackEffect(after, tenant, moves[1..]);
        assert AllOwned(products, tenant, moves) <==> AllOwned(after, tenant, moves[1..]);
        forall p ensures Units(moves, p) == (if head.product == p then head.quantity else 0) + Units(moves[1..], p) {
          UnitsOfHead(moves, p);
        }
      }
    }
  }

  // ------------------------------------------------------------------ receive

  ghost predicate Mentions(items: seq<PurchaseItem>, p: Id) {
    exists i :: i in items && i.product == p
  }

  /** What a list pays for a product. */
  function CostFor(p: Id): PurchaseItem -> int {
    (i: PurchaseItem) => if i.product == p then Purchasing.ItemCost(i) else 0
  }

  /** The last line that names the product: the only one whose price reaches the average. */
  ghost function LastFor(items: seq<PurchaseItem>, p: Id): (last: PurchaseItem)
    requires Mentions(items, p)
    ensures last in items && last.product == p
  {
    assert items == [items[0]] + items[1..];
    if Mentions(items[1..], p) then LastFor(items[1..], p) else items[0]
  }

  ghost predicate Received(snapshot: Products, before: Products, after: Products, items: seq<PurchaseItem>) {
    && after.Keys == before.Keys
    && forall p :: p in before ==>
         && after[p].tenant == before[p].tenant
         && after[p].sku == before[p].sku
         && after[p].stock == before[p].stock + Units(Bought(items), p)
         && (!Mentions(items, p) ==> after[p].averageCost == before[p].averageCost)
         && (Mentions(items, p) && p in snapshot ==>
               after[p].averageCost == Purchasing.NewAverage(snapshot[p], LastFor(items, p)))
  }

  ghost predicate ItemsOwned(products: Products, tenant: Id, items: seq<PurchaseItem>) {
    forall i :: i in items ==> Owned(products, i.product, tenant)
  }

  /** One receipt followed by the receipt of the rest. */
  lemma ReceivedStep(snapshot: Products, before: Products, after: Products, items: seq<PurchaseItem>)
    requires items != [] && items[0].product in snapshot && items[0].product in before
    requires Received(snapshot, Purchasing.Receive(snapshot, before, items[0]), after, items[1..])
    ensures Received(snapshot, before, after, items)
  {
    var head, rest := items[0], items[1..];
    assert items == [head] + rest;
    assert head in items;
    forall p | p in before
      ensures after[p].stock == before[p].stock + Units(Bought(items), p)
      ensures !Mentions(items, p) ==> after[p].averageCost == before[p].averageCost
      ensures Mentions(items, p) && p in snapshot ==>
                after[p].averageCost == Purchasing.NewAverage(snapshot[p], LastFor(items, p))
    {
      assert Bought(items)[1..] == Bought(rest);
      UnitsOfHead(Bought(items), p);
      assert Mentions(items, p) <==> head.product == p || Mentions(rest, p);
    }
  }

  lemma {:induction false} ReceiveEffect(snapshot: Products, products: Products, tenant: Id, items: seq<PurchaseItem>)
    requires products.Keys == snapshot.Keys
    requires forall p :: p in products ==> products[p].tenant == snapshot[p].tenant
    ensures var r := Purchasing.ReceiveItems(snapshot, products, tenant, items);
            && (r.Done? <==> ItemsOwned(products, tenant, items))
            && (r.Done? ==> Received(snapshot, products, r.value, items))
            && (r.Failed? ==> r.error == UndefinedProduct)
    decreases |items|
  {
    if items == [] {
      forall p ensures Units(Bought(items), p) == 0 {}
    } else {
      assert items == [items[0]] + items[1..];
      assert items[0] in items;
      if Owned(products, items[0].product, tenant) {
        var mid := Purchasing.Receive(snapshot, products, items[0]);
        ReceiveEffect(snapshot, mid, tenant, items[1..]);
        assert ItemsOwned(products, tenant, items) <==> ItemsOwned(mid, tenant, items[1..]);
        var r := Purchasing.ReceiveItems(snapshot, products, tenant, items);
        if r.Done? {
          ReceivedStep(snapshot, products, r.value, items);
        }
      }
    }
  }

  /** A list that names the product at most once: its line for it is the last one. */
  ghost predicate NamedOnce(items: seq<PurchaseItem>, p: Id) {
    forall i, j :: 0 <= i < j < |items| ==> !(items[i].product == p && items[j].product == p)
  }

  // ------------------------------------------------------------------ returned quantities

  function ReturnedOf(k: nat): Returns.ReturnLine -> int {
    (l: Returns.ReturnLine) => if l.item == k then l.quantity else 0
  }

  function MarkedOf(k: nat): ReturnItem -> int {
    (l: ReturnItem) => if l.item == k then l.quantity else 0
  }

  lemma {:induction false} MarkReturnedEffect(items: seq<OrderItem>, lines: seq<ReturnItem>)
    ensures var r := Returns.MarkReturned(items, lines);
            && (r.Done? <==> forall l :: l in lines ==> l.item < |items|)
            && (r.Failed? ==> r.error == RecordNotFound)
            && (r.Done? ==>
                  && |r.value| == |items|
                  && forall k :: 0 <= k < |items| ==>
                       r.value[k] == items[k].(returned := items[k].returned + SumOver(lines, MarkedOf(k))))
    decreases |lines|
  {
    if lines != [] {
      assert lines == [lines[0]] + lines[1..];
      assert lines[0] in lines;
      if lines[0].item < |items| {
        MarkReturnedEffect(Returns.Mark(items, lines[0]), lines[1..]);
      }
    }
  }

  // ------------------------------------------------------------------ priced order items

  lemma {:induction false} BuildItemsEffect(products: Products, tenant: Id, lines: seq<Sales.SaleLine>)
    ensures var r := Sales.BuildItems(products, tenant, lines);
            && (r.Done? <==> forall l :: l in lines ==> Owned(products, l.product, tenant))
            && (r.Done? ==>
                  && |r.value| == |lines|
                  && Sold(r.value) == Sales.Requested(lines)
                  && forall k :: 0 <= k < |lines| ==>
                       && lines[k].product in products
                       && r.value[k] == Sales.PriceLine(products[lines[k].product], lines[k]))
            && (r.Failed? ==> r.error == NotFoundException)
  {
    if lines != [] {
      assert lines == [lines[0]] + lines[1..];
      assert lines[0] in lines;
      if Owned(products, lines[0].product, tenant) {
        BuildItemsEffect(products, tenant, lines[1..]);
        var r := Sales.BuildItems(products, tenant, lines);
        if r.Done? {
          assert r.value[1..] == Sales.BuildItems(products, tenant, lines[1..]).value;
          forall k | 0 <= k < |lines|
            ensures lines[k].product in products
            ensures r.value[k] == Sales.PriceLine(products[lines[k].product], lines[k])
          {
            if k > 0 { assert lines[k] == lines[1..][k - 1] && r.value[k] == r.value[1..][k - 1]; }
          }
        }
      }
    }
  }
}
