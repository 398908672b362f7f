/** The tables behind the Prisma client, and the row operations the services call on them. */
module Database {
  import opened Cents
  import opened Store
  import Purchasing
  import Sales

  class Prisma {
    var products: Products
    var sales: map<Id, SalesOrder>
    var purchases: map<Id, PurchaseOrder>
    var salesReturns: seq<SalesReturn>
    var ledger: seq<Entry>

    /** The value of the whole store. */
    function Snapshot(): State
      reads this
    {
      State(products, sales, purchases, salesReturns, ledger)
    }

    constructor ()
      ensures Snapshot() == EMPTY
    {
      products, sales, purchases, salesReturns, ledger := map[], map[], map[], [], [];
    }

    /** Rolling a transaction back. */
    method Restore(s: State)
      modifies this
      ensures Snapshot() == s
    {
      products, sales, purchases, salesReturns, ledger := s.products, s.sales, s.purchases, s.salesReturns, s.ledger;
    }

    /** `product.findMany({ where: { id: { in: ids }, tenantId } })`, keyed by id. */
    method FindProducts(ids: set<Id>, tenant: Id) returns (found: Products)
      ensures found == map id | id in products && id in ids && products[id].tenant == tenant :: products[id]
    {
      found := map id | id in products && id in ids && products[id].tenant == tenant :: products[id];
    }

    /** `product.update({ where: { id, tenantId }, ... })`: stock incremented, average overwritten. */
    method ReceiveProduct(id: Id, tenant: Id, quantity: Quantity, averageCost: Cents) returns (ok: bool)
      modifies this`products
      ensures ok == Owned(old(products), id, tenant)
      ensures products == if ok
                then old(products)[id :=
                           old(products)[id].(stock := old(products)[id].stock + quantity, averageCost := averageCost)]
                else old(products)
    {
      ok := Owned(products, id, tenant);
      if ok {
        var p := products[id];
        products := products[id := p.(stock := p.stock + quantity, averageCost := averageCost)];
      }
    }

    /** `product.update` with an increment or a decrement of the stock, guarded by a least stock. */
    method MoveStock(id: Id, tenant: Id, change: int, least: int) returns (ok: bool)
      modifies this`products
      ensures ok == (Owned(old(products), id, tenant) && old(products)[id].stock >= least)
      ensures products == if ok
                then old(products)[id := old(products)[id].(stock := old(products)[id].stock + change)]
                else old(products)
    {
      ok := Owned(products, id, tenant) && products[id].stock >= least;
      if ok {
        products := products[id := products[id].(stock := products[id].stock + change)];
      }
    }

    /** `product.update` with an unguarded increment. */
    method AddStock(id: Id, tenant: Id, quantity: Quantity) returns (ok: bool)
      modifies this`products
      ensures ok == Owned(old(products), id, tenant)
      ensures products == if ok
                then old(products)[id := old(products)[id].(stock := old(products)[id].stock + quantity)]
                else old(products)
    {
      ok := Owned(products, id, tenant);
      if ok {
        products := products[id := products[id].(stock := products[id].stock + quantity)];
      }
    }

    method CreateStockTransaction(row: Entry)
      modifies this`ledger
      ensures ledger == old(ledger) + [row]
    {
      ledger := ledger + [row];
    }

    method CreatePurchaseOrder(id: Id, order: PurchaseOrder) returns (error: Option<Error>)
      modifies this`purchases
      ensures var r := Purchasing.InsertOrder(old(Snapshot()), id, order);
              if r.Done? then error == None && Snapshot() == r.value
                  else error == Some(r.error) && Snapshot() == old(Snapshot())
    {
      if id in purchases || Purchasing.NumberTaken(purchases, order.tenant, order.number) {
        return Some(UniqueViolation);
      }
      if exists item | item in order.items :: item.product !in products {
        return Some(ForeignKeyViolation);
      }
      purchases := purchases[id := order];
      return None;
    }

    method CreateSalesOrder(id: Id, order: SalesOrder) returns (error: Option<Error>)
      modifies this`sales
      ensures var r := Sales.InsertOrder(old(Snapshot()), id, order);
              if r.Done? then error == None && Snapshot() == r.value
                  else error == Some(r.error) && Snapshot() == old(Snapshot())
    {
      if id in sales || Sales.NumberTaken(sales, order.tenant, order.number) {
        return Some(UniqueViolation);
      }
      sales := sales[id := order];
      return None;
    }
  }
}
