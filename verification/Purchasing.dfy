/** `src/purchase/purchase.service.ts`: what each purchase call does to the store. */
module Purchasing {
  import opened Cents
  import opened Sums
  import opened Store

  function ItemCost(item: PurchaseItem): int {
    item.unitPrice * item.quantity
  }

  function TotalPrice(items: seq<PurchaseItem>): Cents {
    SumOver(items, ItemCost)
  }

  /** The moving average after one receipt, before it is stored. */
  function WeightedAverage(average: real, stock: int, unitPrice: Cents, quantity: Quantity): real {
    if stock + quantity > 0 then
      (average * stock as real + (unitPrice * quantity) as real) / (stock + quantity) as real
    else
      unitPrice as real
  }

  /** The stored average after one receipt of a product. */
  function NewAverage(product: Product, item: PurchaseItem): Cents {
    ToCents(WeightedAverage(product.averageCost as real, product.stock, item.unitPrice, item.quantity))
  }

  /** The receiving loop. Averages come from `snapshot`, read once before the loop; stock is incremented in place. */
  function ReceiveItems(snapshot: Products, products: Products, tenant: Id,
                        items: seq<PurchaseItem>): Attempt<Products> {
    if items == [] then
      Done(products)
    else if !Owned(snapshot, items[0].product, tenant) then
      Failed(UndefinedProduct)
    else if !Owned(products, items[0].product, tenant) then
      Failed(RecordNotFound)
    else
      ReceiveItems(snapshot, Receive(snapshot, products, items[0]), tenant, items[1..])
  }

  function Receive(snapshot: Products, products: Products, item: PurchaseItem): Products
    requires item.product in snapshot && item.product in products
  {
    var p := products[item.product];
    products[item.product := p.(stock := p.stock + item.quantity,
                                averageCost := NewAverage(snapshot[item.product], item))]
  }

  predicate NumberTaken(purchases: map<Id, PurchaseOrder>, tenant: Id, number: string) {
    exists id | id in purchases :: purchases[id].tenant == tenant && purchases[id].number == number
  }

  /** Inserting an order with its items: primary key, order number and product references are checked. */
  function InsertOrder(s: State, id: Id, order: PurchaseOrder): Attempt<State> {
    if id in s.purchases || NumberTaken(s.purchases, order.tenant, order.number) then
      Failed(UniqueViolation)
    else if exists item | item in order.items :: item.product !in s.products then
      Failed(ForeignKeyViolation)
    else
      Done(s.(purchases := s.purchases[id := order]))
  }

  /** `processReceivedItems`: stock, averages and the IN rows. */
  function ProcessReceivedItems(s: State, tenant: Id, number: string, items: seq<PurchaseItem>): Attempt<State> {
    var products :- ReceiveItems(s.products, s.products, tenant, items);
    Done(s.(products := products, ledger := s.ledger + Rows(IN, Bought(items), tenant, number)))
  }

  function CreatePurchase(s: State, tenant: Id, id: Id, number: string, supplier: Id,
                          items: seq<PurchaseItem>): Attempt<State> {
    var inserted :- InsertOrder(s, id,
                                PurchaseOrder(tenant, number, supplier, PurchaseReceived, items, TotalPrice(items)));
    ProcessReceivedItems(inserted, tenant, number, items)
  }

  function CreatePendingPurchase(s: State, tenant: Id, id: Id, number: string, supplier: Id,
                                 items: seq<PurchaseItem>): Attempt<State> {
    InsertOrder(s, id, PurchaseOrder(tenant, number, supplier, PurchasePending, items, TotalPrice(items)))
  }

  /** What `receivePurchaseOrder` carries from its read into its transaction. */
  datatype ReceiveTicket = ReceiveTicket(tenant: Id, order: Id, items: seq<PurchaseItem>)

  /** The read before the transaction: only an order already RECEIVED is turned away. */
  function ReadReceive(s: State, tenant: Id, id: Id): Attempt<ReceiveTicket> {
    if id !in s.purchases || s.purchases[id].tenant != tenant then
      Failed(NotFoundException)
    else if s.purchases[id].status == PurchaseReceived then
      Failed(BadRequestException)
    else
      Done(ReceiveTicket(tenant, id, s.purchases[id].items))
  }

  /** The transaction: the status is overwritten without looking at it again. */
  function CommitReceive(s: State, ticket: ReceiveTicket): Attempt<State> {
    if ticket.order !in s.purchases then
      Failed(RecordNotFound)
    else
      var order := s.purchases[ticket.order];
      ProcessReceivedItems(s.(purchases := s.purchases[ticket.order := order.(status := PurchaseReceived)]),
                           ticket.tenant, order.number, ticket.items)
  }

  function ReceivePurchase(s: State, tenant: Id, id: Id): Attempt<State> {
    var ticket :- ReadReceive(s, tenant, id);
    CommitReceive(s, ticket)
  }

  function CancelPurchase(s: State, tenant: Id, id: Id): Attempt<State> {
    if id !in s.purchases || s.purchases[id].tenant != tenant then
      Failed(NotFoundException)
    else if s.purchases[id].status != PurchasePending then
      Failed(BadRequestException)
    else
      Done(s.(purchases := s.purchases[id := s.purchases[id].(status := PurchaseCancelled)]))
  }
}
