/** Bulk product input is an idempotent set union of SKUs in which the first occurrence wins. */
module BulkInputs {
  import opened Store
  import opened Inventory

  /** Existing products are untouched, and a new one is the opening row of some line. */
  lemma {:induction false} BulkKeepsProducts(products: Products, tenant: Id, lines: seq<BulkLine>)
    ensures var after := BulkInput(products, tenant, lines).products;
            && products.Keys <= after.Keys
            && (forall p :: p in products ==> after[p] == products[p])
            && (forall p :: p in after && p !in products ==>
                  exists l :: l in lines && l.id == p && after[p] == Opening(tenant, l))
    decreases |lines|
  {
    if lines != [] {
      var head, rest := lines[0], lines[1..];
      assert head in lines;
      assert forall l :: l in rest ==> l in lines;
      if SkuTaken(products, tenant, head.sku) {
        BulkKeepsProducts(products, tenant, rest);
      } else if head.id !in products {
        var mid := products[head.id := Opening(tenant, head)];
        BulkKeepsProducts(mid, tenant, rest);
        var after := BulkInput(products, tenant, lines).products;
        assert after == BulkInput(mid, tenant, rest).products;
        forall p | p in after && p !in products
          ensures exists l :: l in lines && l.id == p && after[p] == Opening(tenant, l)
        {
          if p in mid {
            assert head.id == p && after[p] == Opening(tenant, head);
          }
        }
      }
    }
  }

  /** Every line is created or skipped unless an error ends the loop; what was created before it stays. */
  lemma {:induction false} BulkAccountsForLines(products: Products, tenant: Id, lines: seq<BulkLine>)
    ensures var r := BulkInput(products, tenant, lines);
            && (r.error == None ==> |r.created| + r.skipped == |lines|)
            && (r.error != None ==> |r.created| + r.skipped < |lines| && r.error == Some(UniqueViolation))
            && r.skipped == |r.warnings|
            && |r.products| == |products| + |r.created|
            && forall id :: id in r.created ==> id in r.products && id !in products
    decreases |lines|
  {
    if lines != [] {
      if SkuTaken(products, tenant, lines[0].sku) {
        BulkAccountsForLines(products, tenant, lines[1..]);
      } else if lines[0].id !in products {
        BulkAccountsForLines(products[lines[0].id := Opening(tenant, lines[0])], tenant, lines[1..]);
        BulkKeepsProducts(products[lines[0].id := Opening(tenant, lines[0])], tenant, lines[1..]);
      }
    }
  }

  // ------------------------------------------------------------------ what is created, exactly

  /** The database generates keys that are in use nowhere. */
  ghost predicate FreshIds(products: Products, lines: seq<BulkLine>) {
    && (forall l :: l in lines ==> l.id !in products)
    && (forall i, j :: 0 <= i < j < |lines| ==> lines[i].id != lines[j].id)
  }

  /** Line `k` is the first of its SKU, and the tenant does not have that SKU yet. */
  ghost predicate Creates(products: Products, tenant: Id, lines: seq<BulkLine>, k: nat)
    requires k < |lines|
  {
    && !SkuTaken(products, tenant, lines[k].sku)
    && forall j :: 0 <= j < k ==> lines[j].sku != lines[k].sku
  }

  ghost function Skus(products: Products, tenant: Id): set<string> {
    set id | id in products && products[id].tenant == tenant :: products[id].sku
  }

  ghost function BatchSkus(lines: seq<BulkLine>): set<string> {
    set l | l in lines :: l.sku
  }

  lemma SkuTakenIsMembership(products: Products, tenant: Id, sku: string)
    ensures SkuTaken(products, tenant, sku) <==> sku in Skus(products, tenant)
  {
  }

  lemma SkusAfterCreate(products: Products, tenant: Id, line: BulkLine)
    requires line.id !in products
    ensures Skus(products[line.id := Opening(tenant, line)], tenant) == Skus(products, tenant) + {line.sku}
  {
    var after := products[line.id := Opening(tenant, line)];
    forall sku ensures sku in Skus(after, tenant) <==> sku in Skus(products, tenant) + {line.sku} {
      if sku in Skus(products, tenant) {
        var id :| id in products && products[id].tenant == tenant && products[id].sku == sku;
        assert id in after && after[id] == products[id];
      }
      if sku == line.sku {
        assert after[line.id].tenant == tenant && after[line.id].sku == sku;
      }
    }
  }

  /** (tenant, SKU) names at most one product. */
  ghost predicate SkusUnique(products: Products) {
    forall a, b | a in products && b in products ::
      products[a].tenant == products[b].tenant && products[a].sku == products[b].sku ==> a == b
  }

  /** The set union, the uniqueness of SKUs, and the count of the response. */
  lemma {:induction false} BulkIsSetUnion(products: Products, tenant: Id, lines: seq<BulkLine>)
    requires FreshIds(products, lines)
    ensures var r := BulkInput(products, tenant, lines);
            && r.error == None
            && Skus(r.products, tenant) == Skus(products, tenant) + BatchSkus(lines)
            && |r.created| + r.skipped == |lines|
            && |r.warnings| == r.skipped
            && (SkusUnique(products) ==> SkusUnique(r.products))
    decreases |lines|
  {
    if lines != [] {
      var head, rest := lines[0], lines[1..];
      assert lines == [head] + rest;
      assert head in lines;
      assert BatchSkus(lines) == {head.sku} + BatchSkus(rest);
      SkuTakenIsMembership(products, tenant, head.sku);
      if SkuTaken(products, tenant, head.sku) {
        BulkIsSetUnion(products, tenant, rest);
      } else {
        SkusAfterCreate(products, tenant, head);
        BulkIsSetUnion(products[head.id := Opening(tenant, head)], tenant, rest);
      }
    }
  }

  /** The products before the second line is looked at. */
  function AfterHead(products: Products, tenant: Id, lines: seq<BulkLine>): Products
    requires lines != []
  {
    if SkuTaken(products, tenant, lines[0].sku) then products else products[lines[0].id := Opening(tenant, lines[0])]
  }

  lemma HeadOccurrence(products: Products, tenant: Id, lines: seq<BulkLine>)
    requires FreshIds(products, lines) && lines != []
    ensures var after := BulkInput(products, tenant, lines).products;
            && (lines[0].id in after <==> Creates(products, tenant, lines, 0))
            && (lines[0].id in after ==> after[lines[0].id] == Opening(tenant, lines[0]))
  {
    var head, rest := lines[0], lines[1..];
    assert lines == [head] + rest;
    assert head in lines;
    assert forall l :: l in rest ==> l.id != head.id;
    BulkKeepsProducts(AfterHead(products, tenant, lines), tenant, rest);
  }

  lemma FreshTail(products: Products, tenant: Id, lines: seq<BulkLine>)
    requires FreshIds(products, lines) && lines != []
    ensures FreshIds(AfterHead(products, tenant, lines), lines[1..]) && lines[0].id !in products
    ensures Skus(AfterHead(products, tenant, lines), tenant) == Skus(products, tenant) + {lines[0].sku}
  {
    assert lines == [lines[0]] + lines[1..];
    assert lines[0] in lines;
    SkuTakenIsMembership(products, tenant, lines[0].sku);
    SkusAfterCreate(products, tenant, lines[0]);
  }

  /** The first occurrence wins: a line becomes a product, with its own opening row, exactly when it creates. */
  lemma {:induction false} FirstOccurrenceWins(products: Products, tenant: Id, lines: seq<BulkLine>, k: nat)
    requires FreshIds(products, lines) && k < |lines|
    ensures var after := BulkInput(products, tenant, lines).products;
            && (lines[k].id in after <==> Creates(products, tenant, lines, k))
            && (lines[k].id in after ==> after[lines[k].id] == Opening(tenant, lines[k]))
    decreases |lines|
  {
    if k == 0 {
      HeadOccurrence(products, tenant, lines);
    } else {
      var mid := AfterHead(products, tenant, lines);
      FreshTail(products, tenant, lines);
      FirstOccurrenceWins(mid, tenant, lines[1..], k - 1);
      CreatesInTail(products, mid, tenant, lines, k);
    }
  }

  /** What a creating line leaves: its SKU, the stock it asked for or none, and no cost yet. */
  lemma CreatedProduct(products: Products, tenant: Id, lines: seq<BulkLine>, k: nat)
    requires FreshIds(products, lines) && k < |lines| && Creates(products, tenant, lines, k)
    ensures var after := BulkInput(products, tenant, lines).products;
            var stock := match lines[k].stockQuantity case Some(n) => n case None => 0;
            lines[k].id in after && after[lines[k].id] == Product(tenant, lines[k].sku, stock, 0)
  {
    FirstOccurrenceWins(products, tenant, lines, k);
  }

  lemma CreatesInTail(products: Products, mid: Products, tenant: Id, lines: seq<BulkLine>, k: nat)
    requires 0 < k < |lines|
    requires Skus(mid, tenant) == Skus(products, tenant) + {lines[0].sku}
    ensures Creates(mid, tenant, lines[1..], k - 1) <==> Creates(products, tenant, lines, k)
  {
    SkuTakenIsMembership(products, tenant, lines[k].sku);
    SkuTakenIsMembership(mid, tenant, lines[k].sku);
    if Creates(mid, tenant, lines[1..], k - 1) {
      forall j | 0 <= j < k ensures lines[j].sku != lines[k].sku {
        if j > 0 { assert lines[1..][j - 1] == lines[j]; }
      }
    }
  }

  // ------------------------------------------------------------------ the response, in batch order

  /** The keys of the lines that create, among the first `n`, as they come. */
  ghost function CreatedIds(products: Products, tenant: Id, lines: seq<BulkLine>, n: nat): seq<Id>
    requires n <= |lines|
  {
    if n == 0 then [] else
      CreatedIds(products, tenant, lines, n - 1)
      + if Creates(products, tenant, lines, n - 1) then [lines[n - 1].id] else []
  }

  /** The SKUs of the others, as they come. */
  ghost function SkippedSkus(products: Products, tenant: Id, lines: seq<BulkLine>, n: nat): seq<string>
    requires n <= |lines|
  {
    if n == 0 then [] else
      SkippedSkus(products, tenant, lines, n - 1)
      + if Creates(products, tenant, lines, n - 1) then [] else [lines[n - 1].sku]
  }

  /** Reading the response of the tail after that of the head. */
  lemma {:induction false} ResponseOfTail(products: Products, mid: Products, tenant: Id, lines: seq<BulkLine>, n: nat)
    requires 0 < n <= |lines| && Skus(mid, tenant) == Skus(products, tenant) + {lines[0].sku}
    ensures CreatedIds(products, tenant, lines, n)
         == (if Creates(products, tenant, lines, 0) then [lines[0].id] else [])
             + CreatedIds(mid, tenant, lines[1..], n - 1)
    ensures SkippedSkus(products, tenant, lines, n)
         == (if Creates(products, tenant, lines, 0) then [] else [lines[0].sku])
             + SkippedSkus(mid, tenant, lines[1..], n - 1)
    decreases n
  {
    if n > 1 {
      ResponseOfTail(products, mid, tenant, lines, n - 1);
      CreatesInTail(products, mid, tenant, lines, n - 1);
      assert lines[1..][n - 2] == lines[n - 1];
    } else {
      assert CreatedIds(products, tenant, lines, 0) == [] && SkippedSkus(products, tenant, lines, 0) == [];
    }
  }

  /** The lines up to the one that ends the loop are answered in their order, the created keys in one list and the
      skipped SKUs in the other; and a line ends it exactly if it creates under a key that is in use by then. */
  ghost predicate Answers(products: Products, tenant: Id, lines: seq<BulkLine>, r: BulkResult) {
    var n := |r.created| + r.skipped;
    && n <= |lines| && (r.error == None <==> n == |lines|)
    && r.created == CreatedIds(products, tenant, lines, n)
    && r.warnings == SkippedSkus(products, tenant, lines, n)
    && (r.error != None ==> Creates(products, tenant, lines, n) && lines[n].id in r.products)
  }

  /** Unless the head ends the loop, the response is its own part followed by that of the tail. */
  lemma ResponseOfHead(products: Products, tenant: Id, lines: seq<BulkLine>)
    requires lines != [] && (SkuTaken(products, tenant, lines[0].sku) || lines[0].id !in products)
    ensures var mid := AfterHead(products, tenant, lines);
            var r, tail := BulkInput(products, tenant, lines), BulkInput(mid, tenant, lines[1..]);
            var creates := Creates(products, tenant, lines, 0);
            && Skus(mid, tenant) == Skus(products, tenant) + {lines[0].sku}
            && r.products == tail.products && r.error == tail.error
            && r.created == (if creates then [lines[0].id] else []) + tail.created
            && r.warnings == (if creates then [] else [lines[0].sku]) + tail.warnings
            && r.skipped == (if creates then 0 else 1) + tail.skipped
  {
    SkuTakenIsMembership(products, tenant, lines[0].sku);
    if !SkuTaken(products, tenant, lines[0].sku) { SkusAfterCreate(products, tenant, lines[0]); }
  }

  lemma AnswersFromTail(products: Products, mid: Products, tenant: Id, lines: seq<BulkLine>, r: BulkResult,
                        tail: BulkResult)
    requires lines != [] && Skus(mid, tenant) == Skus(products, tenant) + {lines[0].sku}
    requires Answers(mid, tenant, lines[1..], tail) && r.products == tail.products && r.error == tail.error
    requires var creates := Creates(products, tenant, lines, 0);
             && r.created == (if creates then [lines[0].id] else []) + tail.created
             && r.warnings == (if creates then [] else [lines[0].sku]) + tail.warnings
             && r.skipped == (if creates then 0 else 1) + tail.skipped
    ensures Answers(products, tenant, lines, r)
  {
    var n := |r.created| + r.skipped;
    assert n == |tail.created| + tail.skipped + 1;
    ResponseOfTail(products, mid, tenant, lines, n);
    if r.error != None {
      CreatesInTail(products, mid, tenant, lines, n);
      assert lines[1..][n - 1] == lines[n];
    }
  }

  /** For any batch, key collisions included: the response answers the lines in batch order. */
  lemma {:induction false} ResponseInBatchOrder(products: Products, tenant: Id, lines: seq<BulkLine>)
    ensures Answers(products, tenant, lines, BulkInput(products, tenant, lines))
    decreases |lines|
  {
    if lines != [] && (SkuTaken(products, tenant, lines[0].sku) || lines[0].id !in products) {
      var mid := AfterHead(products, tenant, lines);
      ResponseInBatchOrder(mid, tenant, lines[1..]);
      ResponseOfHead(products, tenant, lines);
      AnswersFromTail(products, mid, tenant, lines, BulkInput(products, tenant, lines),
                      BulkInput(mid, tenant, lines[1..]));
    }
  }

  /** A batch whose SKUs the tenant already has creates nothing and skips everything. */
  lemma {:induction false} KnownBatchIsSkipped(products: Products, tenant: Id, lines: seq<BulkLine>)
    requires BatchSkus(lines) <= Skus(products, tenant)
    ensures var r := BulkInput(products, tenant, lines);
            r.products == products && r.created == [] && r.skipped == |lines| && r.error == None &&
            r.warnings == seq(|lines|, i requires 0 <= i < |lines| => lines[i].sku)
    decreases |lines|
  {
    if lines != [] {
      assert lines == [lines[0]] + lines[1..];
      assert lines[0] in lines && lines[0].sku in BatchSkus(lines);
      SkuTakenIsMembership(products, tenant, lines[0].sku);
      assert BatchSkus(lines[1..]) <= BatchSkus(lines);
      KnownBatchIsSkipped(products, tenant, lines[1..]);
    }
  }

  /** Running the same batch again, whatever keys the database would generate this time, changes nothing. */
  lemma BulkIsIdempotent(products: Products, tenant: Id, lines: seq<BulkLine>, again: seq<BulkLine>)
    requires FreshIds(products, lines)
    requires |again| == |lines| && forall i :: 0 <= i < |lines| ==> again[i].sku == lines[i].sku
    ensures var once := BulkInput(products, tenant, lines).products;
            var r := BulkInput(once, tenant, again);
            r.products == once && r.created == [] && r.skipped == |again| && r.error == None
  {
    BulkIsSetUnion(products, tenant, lines);
    var once := BulkInput(products, tenant, lines).products;
    forall sku | sku in BatchSkus(again) ensures sku in Skus(once, tenant) {
      var l :| l in again && l.sku == sku;
      var i :| 0 <= i < |again| && again[i] == l;
      assert lines[i] in lines;
    }
    KnownBatchIsSkipped(once, tenant, again);
  }

  /** One line into an empty store is one product. */
  lemma OneLineOpens(tenant: Id, line: Inventory.BulkLine)
    ensures Inventory.BulkInput(map[], tenant, [line]).products == map[line.id := Inventory.Opening(tenant, line)]
  {
    assert !Inventory.SkuTaken(map[], tenant, line.sku);
    assert [line][1..] == [];
  }
}
