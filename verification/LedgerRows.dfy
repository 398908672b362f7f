/** The rows a call writes to the ledger: which they are, how many match, and which order or return they carry. */
module LedgerRows {
  import opened Sums
  import opened Store
  import opened Machine
  import opened Effects
  import opened Orders
  import Purchasing
  import Sales
  import Returns
  import Inventory

  /** A row looked for: of this kind, for this tenant, carrying this order number, moving these units. */
  datatype RowKey = RowKey(kind: TransactionType, tenant: Id, number: string, move: Move)

  function Matches(key: RowKey): Entry -> int {
    (e: Entry) =>
      if e.kind == key.kind && e.tenant == key.tenant && e.reference == Some(key.number)
         && Move(e.product, e.quantity) == key.move
      then 1 else 0
  }

  function RowCount(ledger: seq<Entry>, key: RowKey): int {
    SumOver(ledger, Matches(key))
  }

  /** How many lines of a list ask for exactly the movement looked for. */
  function LineCount(moves: seq<Move>, key: RowKey): int {
    multiset(moves)[key.move]
  }

  lemma {:induction false} RowCountOfRows(kind: TransactionType, moves: seq<Move>, tenant: Id, number: string,
                                          key: RowKey)
    ensures RowCount(Rows(kind, moves, tenant, number), key)
         == if kind == key.kind && tenant == key.tenant && number == key.number then LineCount(moves, key) else 0
    decreases |moves|
  {
    if moves != [] {
      assert Rows(kind, moves, tenant, number)[1..] == Rows(kind, moves[1..], tenant, number);
      RowCountOfRows(kind, moves[1..], tenant, number, key);
      assert moves == [moves[0]] + moves[1..];
    }
  }

  /** Appending what one call writes adds its lines to the rows it carries, and to no others. */
  lemma AppendRows(before: seq<Entry>, kind: TransactionType, moves: seq<Move>, tenant: Id, number: string, key: RowKey)
    ensures RowCount(before + Rows(kind, moves, tenant, number), key)
         == RowCount(before, key)
            + if kind == key.kind && tenant == key.tenant && number == key.number then LineCount(moves, key) else 0
  {
    SumConcat(before, Rows(kind, moves, tenant, number), Matches(key));
    RowCountOfRows(kind, moves, tenant, number, key);
  }

  /** The row a manual adjustment writes: it may carry any reference, an order number included. */
  function ManualRow(s: State, op: Op): seq<Entry> {
    if op.AdjustStock? && Try(s, op).Done?
    then [Entry(op.kind, op.product, op.tenant, Inventory.Magnitude(op.change), op.reference)] else []
  }

  function ManualAt(c: Config, e: Event): seq<Entry> {
    if e.Atomic? then ManualRow(c.state, e.op) else []
  }

  /** The matching rows that manual adjustments write over a run. */
  function ManualIn(c: Config, es: seq<Event>, key: RowKey): int
    decreases |es|
  {
    if es == [] then 0 else RowCount(ManualAt(c, es[0]), key) + ManualIn(Next(c, es[0]), es[1..], key)
  }

  // ------------------------------------------------------------------ whose rows they are

  predicate SaleMatches(o: SalesOrder, key: RowKey) {
    o.tenant == key.tenant && o.number == key.number
  }

  function SaleRows(o: SalesOrder, key: RowKey): int {
    if o.status == SalesCompleted then LineCount(Sold(o.items), key) else 0
  }

  predicate PurchaseMatches(o: PurchaseOrder, key: RowKey) {
    o.tenant == key.tenant && o.number == key.number
  }

  predicate ReturnMatches(r: SalesReturn, key: RowKey) {
    r.tenant == key.tenant && r.number == key.number
  }

  // ------------------------------------------------------------------ what each call writes

  lemma AdjustWrites(s: State, op: Op, key: RowKey)
    requires op.AdjustStock?
    ensures RowCount(Step(s, op).ledger, key) == RowCount(s.ledger, key) + RowCount(ManualRow(s, op), key)
  {
    if Try(s, op).Done? {
      assert Step(s, op).ledger == s.ledger + ManualRow(s, op);
      SumConcat(s.ledger, ManualRow(s, op), Matches(key));
    }
  }

  lemma CreateSaleWrites(s: State, op: Op, key: RowKey)
    requires op.CreateSale? && Try(s, op).Done?
    ensures var s' := Step(s, op);
            && op.id !in s.sales && !Sales.NumberTaken(s.sales, op.tenant, op.number)
            && op.id in s'.sales && s'.sales == s.sales[op.id := s'.sales[op.id]]
            && s'.sales[op.id].tenant == op.tenant && s'.sales[op.id].number == op.number
            && RowCount(s'.ledger, key) - RowCount(s.ledger, key)
               == if SaleMatches(s'.sales[op.id], key) && key.kind == OUT then SaleRows(s'.sales[op.id], key) else 0
  {
    BuildItemsEffect(s.products, op.tenant, op.lines);
    AppendRows(s.ledger, OUT, Sales.Requested(op.lines), op.tenant, op.number, key);
  }

  lemma CompleteSaleWrites(s: State, op: Op, key: RowKey)
    requires op.CompleteSale? && Try(s, op).Done?
    ensures op.id in s.sales
    ensures RowCount(Step(s, op).ledger, key) - RowCount(s.ledger, key)
         == if SaleMatches(s.sales[op.id], key) && key.kind == OUT then LineCount(Sold(s.sales[op.id].items), key)
             else 0
  {
    AppendRows(s.ledger, OUT, Sold(s.sales[op.id].items), op.tenant, s.sales[op.id].number, key);
  }

  lemma CreatePurchaseWrites(s: State, op: Op, key: RowKey)
    requires op.CreatePurchase? && Try(s, op).Done?
    ensures var s' := Step(s, op);
            && op.id !in s.purchases && !Purchasing.NumberTaken(s.purchases, op.tenant, op.number)
            && op.id in s'.purchases && s'.purchases == s.purchases[op.id := s'.purchases[op.id]]
            && s'.purchases[op.id].tenant == op.tenant && s'.purchases[op.id].number == op.number
            && s'.purchases[op.id].status == PurchaseReceived
            && RowCount(s'.ledger, key) - RowCount(s.ledger, key)
               == if PurchaseMatches(s'.purchases[op.id], key) && key.kind == IN
                  then LineCount(Bought(s'.purchases[op.id].items), key) else 0
  {
    AppendRows(s.ledger, IN, Bought(op.bought), op.tenant, op.number, key);
  }

  lemma CommitReceiveWrites(s: State, ticket: Purchasing.ReceiveTicket, key: RowKey)
    requires ReceiptSound(s, ticket) && Purchasing.CommitReceive(s, ticket).Done?
    ensures var s' := Purchasing.CommitReceive(s, ticket).value;
            && s'.purchases == s.purchases[ticket.order := s.purchases[ticket.order].(status := PurchaseReceived)]
            && RowCount(s'.ledger, key) - RowCount(s.ledger, key)
               == if PurchaseMatches(s.purchases[ticket.order], key) && key.kind == IN
                  then LineCount(Bought(s.purchases[ticket.order].items), key) else 0
  {
    AppendRows(s.ledger, IN, Bought(ticket.items), ticket.tenant, s.purchases[ticket.order].number, key);
  }

  /** A committed return appends one return and the rows of its lines. */
  ghost predicate ReturnWritten(s: State, s': State, key: RowKey) {
    && s'.salesReturns != [] && s'.salesReturns[..|s'.salesReturns| - 1] == s.salesReturns
    && var row := s'.salesReturns[|s'.salesReturns| - 1];
    && !Returns.NumberTaken(s.salesReturns, row.tenant, row.number)
    && RowCount(s'.ledger, key) - RowCount(s.ledger, key)
       == if ReturnMatches(row, key) && key.kind == RETURN then LineCount(Brought(row.items), key) else 0
  }

  lemma CommitReturnWrites(s: State, number: string, t: Returns.ReturnTicket, key: RowKey)
    ensures var r := Returns.CommitReturn(s, number, t);
            r.Done? ==> ReturnWritten(s, r.value, key) && r.value.purchases == s.purchases
  {
    AppendRows(s.ledger, RETURN, Brought(t.lines), t.tenant, number, key);
  }

  lemma PurchaseCallsWriteNoOther(s: State, op: Op, key: RowKey)
    requires op.CreatePurchase? || op.CreatePendingPurchase? || op.ReceivePurchase? || op.CancelPurchase?
    requires Try(s, op).Done? && key.kind != IN
    ensures Step(s, op).sales == s.sales && Step(s, op).salesReturns == s.salesReturns
    ensures RowCount(Step(s, op).ledger, key) == RowCount(s.ledger, key)
  {
    if op.CreatePurchase? {
      CreatePurchaseWrites(s, op, key);
    } else if op.ReceivePurchase? {
      CommitReceiveWrites(s, Purchasing.ReadReceive(s, op.tenant, op.id).value, key);
    }
  }

  lemma SaleCallsWriteNoOther(s: State, op: Op, key: RowKey)
    requires op.CreateSale? || op.CreatePendingSale? || op.CompleteSale? || op.CancelSale?
    requires Try(s, op).Done? && key.kind != OUT
    ensures Step(s, op).purchases == s.purchases && Step(s, op).salesReturns == s.salesReturns
    ensures RowCount(Step(s, op).ledger, key) == RowCount(s.ledger, key)
  {
    if op.CreateSale? {
      CreateSaleWrites(s, op, key);
    } else if op.CompleteSale? {
      CompleteSaleWrites(s, op, key);
    }
  }
}
