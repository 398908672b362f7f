/** `src/inventory/inventory.service.ts`: manual adjustment and bulk product input. */
module Inventory {
  import opened Store

  /** IN and OUT fix the direction; the other two types take it from the sign. */
  predicate IsDecrement(kind: TransactionType, change: Change) {
    kind == OUT || (kind != IN && change < 0)
  }

  function Magnitude(change: Change): Quantity {
    var n: int := change;
    if n < 0 then -n else n
  }

  function AdjustStock(s: State, tenant: Id, product: Id, change: Change, kind: TransactionType,
                       reference: Option<string>): Attempt<State>
  {
    var amount := Magnitude(change);
    if IsDecrement(kind, change) then
      if Owned(s.products, product, tenant) && s.products[product].stock >= amount then
        Done(SetStock(s, product, s.products[product].stock - amount, Entry(kind, product, tenant, amount, reference)))
      else
        Failed(BadRequestException)
    else if Owned(s.products, product, tenant) then
      Done(SetStock(s, product, s.products[product].stock + amount, Entry(kind, product, tenant, amount, reference)))
    else
      Failed(RecordNotFound)
  }

  function SetStock(s: State, product: Id, stock: int, row: Entry): State
    requires product in s.products
  {
    s.(products := s.products[product := s.products[product].(stock := stock)], ledger := s.ledger + [row])
  }

  /** One bulk line; `id` is the key the database generates if the product is created. */
  datatype BulkLine = BulkLine(id: Id, sku: string, stockQuantity: Option<int>)

  /** The response, and the error that ended the loop early if there was one. */
  datatype BulkResult = BulkResult(products: Products, created: seq<Id>, warnings: seq<string>, skipped: nat,
                                   error: Option<Error>)

  predicate SkuTaken(products: Products, tenant: Id, sku: string) {
    exists id | id in products :: products[id].tenant == tenant && products[id].sku == sku
  }

  function Opening(tenant: Id, line: BulkLine): Product {
    Product(tenant, line.sku, if line.stockQuantity.Some? then line.stockQuantity.value else 0, 0)
  }

  /** The bulk loop. It is not a transaction: what was created before an error stays. */
  function BulkInput(products: Products, tenant: Id, lines: seq<BulkLine>): BulkResult
    decreases |lines|
  {
    if lines == [] then
      BulkResult(products, [], [], 0, None)
    else if SkuTaken(products, tenant, lines[0].sku) then
      var rest := BulkInput(products, tenant, lines[1..]);
      rest.(warnings := [lines[0].sku] + rest.warnings, skipped := rest.skipped + 1)
    else if lines[0].id in products then
      BulkResult(products, [], [], 0, Some(UniqueViolation))
    else
      var rest := BulkInput(products[lines[0].id := Opening(tenant, lines[0])], tenant, lines[1..]);
      rest.(created := [lines[0].id] + rest.created)
  }
}
