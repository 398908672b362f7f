/** The rows the four ledger services share, and the vocabulary of their outcomes. */
module Store {
  import opened Cents
  import opened Sums

  type Id = string

  /** Units of a product in a request: at least one, as every request validator demands. */
  type Quantity = q: int | 1 <= q witness 1

  /** A manual adjustment is never zero. */
  type Change = n: int | n != 0 witness 1

  datatype Option<+T> = None | Some(value: T)

  /** How a call fails: the two HTTP exceptions the services raise, the constraint
      violations of the database, and a property read on `undefined`. */
  datatype Error =
    | NotFoundException
    | BadRequestException
    | UniqueViolation
    | ForeignKeyViolation
    | RecordNotFound
    | UndefinedProduct

  datatype Attempt<+T> = Done(value: T) | Failed(error: Error) {
    predicate IsFailure() { Failed? }
    function PropagateFailure<U>(): Attempt<U>
      requires Failed?
    {
      Failed(error)
    }
    function Extract(): T
      requires Done?
    {
      value
    }
  }

  datatype Product = Product(tenant: Id, sku: string, stock: int, averageCost: Cents)

  type Products = map<Id, Product>

  /** The `where: { id, tenantId }` test every product update carries. */
  predicate Owned(products: Products, product: Id, tenant: Id) {
    product in products && products[product].tenant == tenant
  }

  datatype TransactionType = IN | OUT | ADJUSTMENT | RETURN

  /** A stock transaction: one row of the append-only ledger. */
  datatype Entry = Entry(kind: TransactionType, product: Id, tenant: Id, quantity: Quantity, reference: Option<string>)

  datatype SalesStatus = SalesPending | SalesCompleted | SalesCancelled

  datatype OrderItem = OrderItem(product: Id, quantity: Quantity, unitPrice: Cents,
                                 cogs: Cents, profitMargin: Cents, returned: int)

  /** `createdAt` is the instant the report filter looks at. */
  datatype SalesOrder = SalesOrder(tenant: Id, number: string, status: SalesStatus, createdAt: int,
                                   items: seq<OrderItem>, totalPrice: Cents, totalCogs: Cents, totalProfit: Cents)

  datatype PurchaseStatus = PurchasePending | PurchaseReceived | PurchaseCancelled

  datatype PurchaseItem = PurchaseItem(product: Id, quantity: Quantity, unitPrice: Cents)

  datatype PurchaseOrder = PurchaseOrder(tenant: Id, number: string, supplier: Id, status: PurchaseStatus,
                                         items: seq<PurchaseItem>, totalPrice: Cents)

  /** One line of a return; `item` is the position of the order item in its order. */
  datatype ReturnItem = ReturnItem(item: nat, quantity: Quantity, refund: Cents, product: Id)

  datatype SalesReturn = SalesReturn(tenant: Id, number: string, order: Id, totalRefund: Cents, items: seq<ReturnItem>)

  datatype State = State(products: Products,
                         sales: map<Id, SalesOrder>,
                         purchases: map<Id, PurchaseOrder>,
                         salesReturns: seq<SalesReturn>,
                         ledger: seq<Entry>)

  const EMPTY := State(map[], map[], map[], [], [])

  /** The stored stock of a product, zero when there is no such row. */
  function Stock(products: Products, product: Id): int {
    if product in products then products[product].stock else 0
  }

  /** The book value of a product: stock at average cost. */
  function Value(products: Products, product: Id): int {
    if product in products then products[product].stock * products[product].averageCost else 0
  }

  // ------------------------------------------------------------------ movements and ledger rows

  datatype Move = Move(product: Id, quantity: Quantity)

  function UnitsFor(product: Id): Move -> int {
    (m: Move) => if m.product == product then m.quantity else 0
  }

  /** The units of `product` a list of movements moves in all. */
  function Units(moves: seq<Move>, product: Id): nat {
    SumNonNegative(moves, UnitsFor(product));
    SumOver(moves, UnitsFor(product))
  }

  ghost predicate Names(moves: seq<Move>, product: Id) {
    exists m :: m in moves && m.product == product
  }

  lemma UnitsOfHead(moves: seq<Move>, product: Id)
    requires moves != []
    ensures Units(moves, product)
              == (if moves[0].product == product then moves[0].quantity else 0) + Units(moves[1..], product)
  {
  }

  lemma {:induction false} UnitsPositive(moves: seq<Move>, product: Id)
    ensures Units(moves, product) > 0 <==> Names(moves, product)
  {
    if moves != [] {
      UnitsPositive(moves[1..], product);
      UnitsOfHead(moves, product);
      assert moves == [moves[0]] + moves[1..];
      assert moves[0] in moves;
    }
  }

  /** The ledger rows a service call writes, one for each movement. */
  function Rows(kind: TransactionType, moves: seq<Move>, tenant: Id, reference: string): seq<Entry> {
    seq(|moves|, i requires 0 <= i < |moves| =>
      Entry(kind, moves[i].product, tenant, moves[i].quantity, Some(reference)))
  }

  function Sold(items: seq<OrderItem>): seq<Move> {
    seq(|items|, i requires 0 <= i < |items| => Move(items[i].product, items[i].quantity))
  }

  function Bought(items: seq<PurchaseItem>): seq<Move> {
    seq(|items|, i requires 0 <= i < |items| => Move(items[i].product, items[i].quantity))
  }

  function Brought(items: seq<ReturnItem>): seq<Move> {
    seq(|items|, i requires 0 <= i < |items| => Move(items[i].product, items[i].quantity))
  }
}
