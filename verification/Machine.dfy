/** The store as a state machine: one step for each service call, and runs of them. */
module Machine {
  import opened Store
  import Purchasing
  import Sales
  import Returns
  import Inventory

  datatype Op =
    | CreatePurchase(tenant: Id, id: Id, number: string, supplier: Id, bought: seq<PurchaseItem>)
    | CreatePendingPurchase(tenant: Id, id: Id, number: string, supplier: Id, bought: seq<PurchaseItem>)
    | ReceivePurchase(tenant: Id, id: Id)
    | CancelPurchase(tenant: Id, id: Id)
    | CreateSale(tenant: Id, id: Id, number: string, now: int, lines: seq<Sales.SaleLine>)
    | CreatePendingSale(tenant: Id, id: Id, number: string, now: int, lines: seq<Sales.SaleLine>)
    | CompleteSale(tenant: Id, id: Id)
    | CancelSale(tenant: Id, id: Id)
    | CreateReturn(tenant: Id, number: string, id: Id, returned: seq<Returns.ReturnLine>)
    | AdjustStock(tenant: Id, product: Id, change: Change, kind: TransactionType, reference: Option<string>)
    | BulkInput(tenant: Id, batch: seq<Inventory.BulkLine>)

  /** The state a call would commit, or why it fails. */
  function Try(s: State, op: Op): Attempt<State> {
    match op
    case CreatePurchase(t, id, n, sup, items) => Purchasing.CreatePurchase(s, t, id, n, sup, items)
    case CreatePendingPurchase(t, id, n, sup, items) => Purchasing.CreatePendingPurchase(s, t, id, n, sup, items)
    case ReceivePurchase(t, id) => Purchasing.ReceivePurchase(s, t, id)
    case CancelPurchase(t, id) => Purchasing.CancelPurchase(s, t, id)
    case CreateSale(t, id, n, now, lines) => Sales.CreateSale(s, t, id, n, now, lines)
    case CreatePendingSale(t, id, n, now, lines) => Sales.CreatePendingSale(s, t, id, n, now, lines)
    case CompleteSale(t, id) => Sales.CompleteSale(s, t, id)
    case CancelSale(t, id) => Sales.CancelSale(s, t, id)
    case CreateReturn(t, n, id, lines) => Returns.CreateReturn(s, t, n, id, lines)
    case AdjustStock(t, p, change, kind, ref) => Inventory.AdjustStock(s, t, p, change, kind, ref)
    case BulkInput(t, lines) => Done(s.(products := Inventory.BulkInput(s.products, t, lines).products))
  }

  /** All or nothing: a failed transaction leaves the state as it was. */
  function Commit(s: State, attempt: Attempt<State>): State {
    if attempt.Done? then attempt.value else s
  }

  /** The exception a caller sees. */
  function Raised(attempt: Attempt<State>): Option<Error> {
    if attempt.Failed? then Some(attempt.error) else None
  }

  function Step(s: State, op: Op): State {
    Commit(s, Try(s, op))
  }

  function Run(s: State, ops: seq<Op>): State
    decreases |ops|
  {
    if ops == [] then s else Run(Step(s, ops[0]), ops[1..])
  }

  // ------------------------------------------------------------------ interleavings with stale reads

  datatype PendingReturn = PendingReturn(number: string, ticket: Returns.ReturnTicket)

  /** The store together with the calls that have read but not yet committed. */
  datatype Config = Config(state: State, receiving: map<nat, Purchasing.ReceiveTicket>,
                           returning: map<nat, PendingReturn>)

  /** An atomic call, or one half of a call that reads before its transaction. */
  datatype Event =
    | Atomic(op: Op)
    | BeginReceive(call: nat, tenant: Id, id: Id)
    | CommitReceive(call: nat)
    | BeginReturn(call: nat, tenant: Id, number: string, id: Id, returned: seq<Returns.ReturnLine>)
    | CommitReturn(call: nat)

  function Next(c: Config, e: Event): Config {
    match e
    case Atomic(op) => c.(state := Step(c.state, op))
    case BeginReceive(k, t, id) =>
      var ticket := Purchasing.ReadReceive(c.state, t, id);
      if ticket.Done? then c.(receiving := c.receiving[k := ticket.value]) else c
    case CommitReceive(k) =>
      if k !in c.receiving then c else
        Config(Commit(c.state, Purchasing.CommitReceive(c.state, c.receiving[k])), c.receiving - {k}, c.returning)
    case BeginReturn(k, t, n, id, lines) =>
      var ticket := Returns.ReadReturn(c.state, t, id, lines);
      if ticket.Done? then c.(returning := c.returning[k := PendingReturn(n, ticket.value)]) else c
    case CommitReturn(k) =>
      if k !in c.returning then c else
        Config(Commit(c.state, Returns.CommitReturn(c.state, c.returning[k].number, c.returning[k].ticket)),
               c.receiving, c.returning - {k})
  }

  function Play(c: Config, es: seq<Event>): Config
    decreases |es|
  {
    if es == [] then c else Play(Next(c, es[0]), es[1..])
  }

  /** An atomic call is its two halves played back to back. */
  lemma AtomicReceiveIsItsHalves(c: Config, k: nat, t: Id, id: Id)
    requires k !in c.receiving
    ensures Next(Next(c, BeginReceive(k, t, id)), CommitReceive(k)) == Next(c, Atomic(ReceivePurchase(t, id)))
  {
  }

  lemma AtomicReturnIsItsHalves(c: Config, k: nat, t: Id, n: string, id: Id, lines: seq<Returns.ReturnLine>)
    requires k !in c.returning
    ensures Next(Next(c, BeginReturn(k, t, n, id, lines)), CommitReturn(k))
              == Next(c, Atomic(CreateReturn(t, n, id, lines)))
  {
  }
}
