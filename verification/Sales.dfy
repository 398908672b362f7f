/** `src/sales/sales.service.ts`: what each sales call does to the store. */
module Sales {
  import opened Cents
  import opened Sums
  import opened Store

  datatype SaleLine = SaleLine(product: Id, quantity: Quantity, unitPrice: Cents)

  function ItemPrice(item: OrderItem): int {
    item.unitPrice * item.quantity
  }

  function ItemCogs(item: OrderItem): int {
    item.cogs
  }

  function ItemProfit(item: OrderItem): int {
    item.profitMargin
  }

  /** An order item with the cost frozen at the product's present average. */
  function PriceLine(product: Product, line: SaleLine): OrderItem {
    OrderItem(line.product, line.quantity, line.unitPrice,
              product.averageCost * line.quantity,
              (line.unitPrice - product.averageCost) * line.quantity,
              0)
  }

  function BuildItems(products: Products, tenant: Id, lines: seq<SaleLine>): Attempt<seq<OrderItem>> {
    if lines == [] then
      Done([])
    else if !Owned(products, lines[0].product, tenant) then
      Failed(NotFoundException)
    else
      var rest :- BuildItems(products, tenant, lines[1..]);
      Done([PriceLine(products[lines[0].product], lines[0])] + rest)
  }

  function Requested(lines: seq<SaleLine>): seq<Move> {
    seq(|lines|, i requires 0 <= i < |lines| => Move(lines[i].product, lines[i].quantity))
  }

  /** The stock-out loop: a guarded decrement for each movement, none of them kept if one fails. */
  function StockOut(products: Products, tenant: Id, moves: seq<Move>): Attempt<Products> {
    if moves == [] then
      Done(products)
    else if !Owned(products, moves[0].product, tenant) || products[moves[0].product].stock < moves[0].quantity then
      Failed(BadRequestException)
    else
      StockOut(TakeOut(products, moves[0]), tenant, moves[1..])
  }

  function TakeOut(products: Products, m: Move): Products
    requires m.product in products
  {
    products[m.product := products[m.product].(stock := products[m.product].stock - m.quantity)]
  }

  predicate NumberTaken(sales: map<Id, SalesOrder>, tenant: Id, number: string) {
    exists id | id in sales :: sales[id].tenant == tenant && sales[id].number == number
  }

  function InsertOrder(s: State, id: Id, order: SalesOrder): Attempt<State> {
    if id in s.sales || NumberTaken(s.sales, order.tenant, order.number) then
      Failed(UniqueViolation)
    else
      Done(s.(sales := s.sales[id := order]))
  }

  function NewOrder(tenant: Id, number: string, status: SalesStatus, now: int, items: seq<OrderItem>): SalesOrder {
    SalesOrder(tenant, number, status, now, items,
               SumOver(items, ItemPrice), SumOver(items, ItemCogs), SumOver(items, ItemProfit))
  }

  /** `processStockOut`: the decrements and the OUT rows. */
  function ProcessStockOut(s: State, tenant: Id, number: string, moves: seq<Move>): Attempt<State> {
    var products :- StockOut(s.products, tenant, moves);
    Done(s.(products := products, ledger := s.ledger + Rows(OUT, moves, tenant, number)))
  }

  function CreateSale(s: State, tenant: Id, id: Id, number: string, now: int, lines: seq<SaleLine>): Attempt<State> {
    var items :- BuildItems(s.products, tenant, lines);
    var inserted :- InsertOrder(s, id, NewOrder(tenant, number, SalesCompleted, now, items));
    ProcessStockOut(inserted, tenant, number, Requested(lines))
  }

  function CreatePendingSale(s: State, tenant: Id, id: Id, number: string, now: int,
                             lines: seq<SaleLine>): Attempt<State> {
    var items :- BuildItems(s.products, tenant, lines);
    InsertOrder(s, id, NewOrder(tenant, number, SalesPending, now, items))
  }

  /** A missing order and an order that is not PENDING are both bad requests here. */
  function CompleteSale(s: State, tenant: Id, id: Id): Attempt<State> {
    if id !in s.sales || s.sales[id].tenant != tenant || s.sales[id].status != SalesPending then
      Failed(BadRequestException)
    else
      var order := s.sales[id];
      ProcessStockOut(s.(sales := s.sales[id := order.(status := SalesCompleted)]),
                      tenant, order.number, Sold(order.items))
  }

  function CancelSale(s: State, tenant: Id, id: Id): Attempt<State> {
    if id !in s.sales || s.sales[id].tenant != tenant then
      Failed(NotFoundException)
    else if s.sales[id].status != SalesPending then
      Failed(BadRequestException)
    else
      Done(s.(sales := s.sales[id := s.sales[id].(status := SalesCancelled)]))
  }
}
