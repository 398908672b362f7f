/** `src/returns/returns.service.ts`: a partial return, read and checked first, committed after. */
module Returns {
  import opened Cents
  import opened Sums
  import opened Store

  datatype ReturnLine = ReturnLine(item: nat, quantity: Quantity)

  /** What `createReturn` carries from its read and validation into its transaction:
      the order items as they were read, and the checked lines. */
  datatype ReturnRead = ReturnRead(tenant: Id, order: Id, snapshot: seq<OrderItem>, lines: seq<ReturnItem>)

  type ReturnTicket = t: ReturnRead | forall r :: r in t.lines ==> r.item < |t.snapshot|
    witness ReturnRead("", "", [], [])

  function RefundOf(r: ReturnItem): int {
    r.refund
  }

  /** The validation loop. Every line is checked against the same snapshot. */
  function CheckLines(snapshot: seq<OrderItem>, lines: seq<ReturnLine>): (checked: Attempt<seq<ReturnItem>>)
    ensures checked.Done? ==> forall r :: r in checked.value ==> r.item < |snapshot|
  {
    if lines == [] then
      Done([])
    else if lines[0].item >= |snapshot| then
      Failed(BadRequestException)
    else
      var item := snapshot[lines[0].item];
      if lines[0].quantity > item.quantity - item.returned then
        Failed(BadRequestException)
      else
        var rest :- CheckLines(snapshot, lines[1..]);
        Done([Checked(item, lines[0])] + rest)
  }

  function Checked(item: OrderItem, line: ReturnLine): ReturnItem {
    ReturnItem(line.item, line.quantity, item.unitPrice * line.quantity, item.product)
  }

  function ReadReturn(s: State, tenant: Id, order: Id, lines: seq<ReturnLine>): Attempt<ReturnTicket> {
    if order !in s.sales || s.sales[order].tenant != tenant then
      Failed(NotFoundException)
    else if s.sales[order].status != SalesCompleted then
      Failed(BadRequestException)
    else
      var checked :- CheckLines(s.sales[order].items, lines);
      Done(ReturnRead(tenant, order, s.sales[order].items, checked))
  }

  /** Incrementing `returnedQuantity`, line by line. */
  function MarkReturned(items: seq<OrderItem>, lines: seq<ReturnItem>): Attempt<seq<OrderItem>>
    decreases |lines|
  {
    if lines == [] then
      Done(items)
    else if lines[0].item >= |items| then
      Failed(RecordNotFound)
    else
      MarkReturned(Mark(items, lines[0]), lines[1..])
  }

  function Mark(items: seq<OrderItem>, line: ReturnItem): seq<OrderItem>
    requires line.item < |items|
  {
    items[line.item := items[line.item].(returned := items[line.item].returned + line.quantity)]
  }

  /** Putting the units back, line by line. */
  function PutBack(products: Products, tenant: Id, moves: seq<Move>): Attempt<Products> {
    if moves == [] then
      Done(products)
    else if !Owned(products, moves[0].product, tenant) then
      Failed(RecordNotFound)
    else
      PutBack(PutIn(products, moves[0]), tenant, moves[1..])
  }

  function PutIn(products: Products, m: Move): Products
    requires m.product in products
  {
    products[m.product := products[m.product].(stock := products[m.product].stock + m.quantity)]
  }

  /** `cogs.div(quantity)`: a quotient, not yet known to be a whole number of cents. */
  function UnitCogs(item: OrderItem): real {
    item.cogs as real / item.quantity as real
  }

  function UnitProfit(item: OrderItem): real {
    item.unitPrice as real - UnitCogs(item)
  }

  /** The reversal loop for one of the two totals: a per-unit amount times the returned units. */
  function Reversed(snapshot: seq<OrderItem>, lines: seq<ReturnItem>, unit: OrderItem -> real): real
    requires forall r :: r in lines ==> r.item < |snapshot|
  {
    if lines == [] then 0.0 else
      unit(snapshot[lines[0].item]) * lines[0].quantity as real + Reversed(snapshot, lines[1..], unit)
  }

  predicate NumberTaken(salesReturns: seq<SalesReturn>, tenant: Id, number: string) {
    exists r | r in salesReturns :: r.tenant == tenant && r.number == number
  }

  /** The transaction: the return row, the increments, the RETURN rows, and the reversal of the order totals. */
  function CommitReturn(s: State, number: string, ticket: ReturnTicket): Attempt<State> {
    if NumberTaken(s.salesReturns, ticket.tenant, number) then
      Failed(UniqueViolation)
    else if ticket.order !in s.sales then
      Failed(ForeignKeyViolation)
    else
      var order := s.sales[ticket.order];
      var items :- MarkReturned(order.items, ticket.lines);
      var products :- PutBack(s.products, ticket.tenant, Brought(ticket.lines));
      if order.tenant != ticket.tenant then
        Failed(RecordNotFound)
      else
        var profit := Reversed(ticket.snapshot, ticket.lines, UnitProfit);
        var cogs := Reversed(ticket.snapshot, ticket.lines, UnitCogs);
        var reversed := order.(items := items,
                               totalProfit := ToCents(order.totalProfit as real - profit),
                               totalCogs := ToCents(order.totalCogs as real - cogs));
        var row := SalesReturn(ticket.tenant, number, ticket.order, SumOver(ticket.lines, RefundOf), ticket.lines);
        Done(s.(products := products,
                sales := s.sales[ticket.order := reversed],
                salesReturns := s.salesReturns + [row],
                ledger := s.ledger + Rows(RETURN, Brought(ticket.lines), ticket.tenant, number)))
  }

  function CreateReturn(s: State, tenant: Id, number: string, order: Id, lines: seq<ReturnLine>): Attempt<State> {
    var ticket :- ReadReturn(s, tenant, order, lines);
    CommitReturn(s, number, ticket)
  }
}
