/** `InventoryService`: manual adjustment and bulk input as they run against the tables. */
module InventoryService {
  import opened Store
  import opened Machine
  import opened Database
  import I = Inventory

  class Service {
    const prisma: Prisma

    constructor (prisma: Prisma)
      ensures this.prisma == prisma
    {
      this.prisma := prisma;
    }

    method AdjustStock(tenant: Id, product: Id, change: Change, kind: TransactionType, reference: Option<string>)
      returns (error: Option<Error>)
      modifies prisma
      ensures var op := Op.AdjustStock(tenant, product, change, kind, reference);
              && prisma.Snapshot() == Step(old(prisma.Snapshot()), op)
              && error == Raised(Try(old(prisma.Snapshot()), op))
    {
      var decrement := false;
      var absoluteChange := I.Magnitude(change);
      if kind == OUT {
        decrement := true;
      } else if kind == IN {
        decrement := false;
      } else {
        decrement := change < 0;
      }
      if decrement {
        var ok := prisma.MoveStock(product, tenant, -(absoluteChange as int), absoluteChange);
        if !ok {
          return Some(BadRequestException);
        }
      } else {
        var ok := prisma.AddStock(product, tenant, absoluteChange);
        if !ok {
          return Some(RecordNotFound);
        }
      }
      prisma.CreateStockTransaction(Entry(kind, product, tenant, absoluteChange, reference));
      return None;
    }

    /** The bulk loop with its three running results; what it created before an error stays. */
    method AiProductInput(lines: seq<I.BulkLine>, tenant: Id)
      returns (created: seq<Id>, skipped: nat, warnings: seq<string>, error: Option<Error>)
      modifies prisma
      ensures prisma.Snapshot() == Step(old(prisma.Snapshot()), BulkInput(tenant, lines))
      ensures I.BulkInput(old(prisma.products), tenant, lines)
                == I.BulkResult(prisma.products, created, warnings, skipped, error)
    {
      created, skipped, warnings, error := [], 0, [], None;
      ghost var products := prisma.products;
      ghost var all := I.BulkInput(products, tenant, lines);
      var i := 0;
      while i < |lines|
        invariant 0 <= i <= |lines|
        invariant prisma.Snapshot() == old(prisma.Snapshot()).(products := prisma.products)
        invariant var rest := I.BulkInput(prisma.products, tenant, lines[i..]);
                  all == I.BulkResult(rest.products, created + rest.created, warnings + rest.warnings,
                                      skipped + rest.skipped, rest.error)
      {
        var line := lines[i];
        assert lines[i..][0] == line && lines[i..][1..] == lines[i + 1..];
        ghost var rest := I.BulkInput(prisma.products, tenant, lines[i + 1..]);
        if I.SkuTaken(prisma.products, tenant, line.sku) {
          assert warnings + ([line.sku] + rest.warnings) == (warnings + [line.sku]) + rest.warnings;
          warnings := warnings + [line.sku];
          skipped := skipped + 1;
        } else if line.id in prisma.products {
          return created, skipped, warnings, Some(UniqueViolation);
        } else {
          var stock := if line.stockQuantity.Some? then line.stockQuantity.value else 0;
          prisma.products := prisma.products[line.id := Product(tenant, line.sku, stock, 0)];
          rest := I.BulkInput(prisma.products, tenant, lines[i + 1..]);
          assert created + ([line.id] + rest.created) == (created + [line.id]) + rest.created;
          created := created + [line.id];
        }
        i := i + 1;
      }
    }
  }
}
