/** What no call ever changes in an order, and the statuses an order cannot leave. */
module Orders {
  import opened Store
  import opened Machine
  import opened Effects
  import Purchasing
  import Sales
  import Returns

  /** Two versions of an order item that differ at most in what came back. */
  predicate SameFrozen(a: OrderItem, b: OrderItem) {
    a == b.(returned := a.returned)
  }

  ghost predicate SameItems(a: seq<OrderItem>, b: seq<OrderItem>) {
    |a| == |b| && forall k :: 0 <= k < |a| ==> SameFrozen(a[k], b[k])
  }

  /** From one state of a sales order to a later one: number, date, price and frozen costs stay, only a PENDING
      order changes status, and nothing but the status changes before completion. */
  ghost predicate SalesAdvance(a: SalesOrder, b: SalesOrder) {
    && a.tenant == b.tenant && a.number == b.number && a.createdAt == b.createdAt && a.totalPrice == b.totalPrice
    && SameItems(a.items, b.items)
    && (a.status == b.status || a.status == SalesPending)
    && (b.status != SalesCompleted ==> b == a.(status := b.status))
  }

  /** A purchase order changes in its status only; RECEIVED is final, CANCELLED is not, and PENDING is never
      re-entered. */
  ghost predicate PurchaseAdvance(a: PurchaseOrder, b: PurchaseOrder) {
    && b == a.(status := b.status)
    && (a.status == PurchaseReceived ==> b.status == PurchaseReceived)
    && (b.status == PurchasePending ==> a.status == PurchasePending)
  }

  ghost predicate OrdersAdvance(s: State, s': State) {
    && (forall id :: id in s.sales ==> id in s'.sales && SalesAdvance(s.sales[id], s'.sales[id]))
    && (forall id :: id in s.purchases ==> id in s'.purchases && PurchaseAdvance(s.purchases[id], s'.purchases[id]))
  }

  lemma AdvanceTransitive(a: State, b: State, c: State)
    requires OrdersAdvance(a, b) && OrdersAdvance(b, c)
    ensures OrdersAdvance(a, c)
  {
  }

  // ------------------------------------------------------------------ tickets of calls in flight

  /** A checked line agrees with the order item it names. */
  predicate LineAgrees(items: seq<OrderItem>, l: ReturnItem) {
    l.item < |items| && l.product == items[l.item].product && l.refund == items[l.item].unitPrice * l.quantity
  }

  /** A return in flight still names a COMPLETED order with the same frozen items, however stale its read. */
  ghost predicate TicketSound(s: State, t: Returns.ReturnTicket) {
    && t.order in s.sales
    && s.sales[t.order].tenant == t.tenant
    && s.sales[t.order].status == SalesCompleted
    && SameItems(t.snapshot, s.sales[t.order].items)
    && forall l :: l in t.lines ==> LineAgrees(t.snapshot, l)
  }

  /** A receipt in flight carries exactly the items of its order. */
  ghost predicate ReceiptSound(s: State, t: Purchasing.ReceiveTicket) {
    t.order in s.purchases && s.purchases[t.order].tenant == t.tenant && s.purchases[t.order].items == t.items
  }

  ghost predicate TicketsSound(c: Config) {
    && (forall k :: k in c.returning ==> TicketSound(c.state, c.returning[k].ticket))
    && (forall k :: k in c.receiving ==> ReceiptSound(c.state, c.receiving[k]))
  }

  lemma {:induction false} CheckedLinesAgree(snapshot: seq<OrderItem>, lines: seq<Returns.ReturnLine>)
    ensures var r := Returns.CheckLines(snapshot, lines);
            r.Done? ==>
              && |r.value| == |lines|
              && (forall l :: l in r.value ==> LineAgrees(snapshot, l))
              && (forall k :: 0 <= k < |lines| ==>
                  r.value[k].item == lines[k].item && r.value[k].quantity == lines[k].quantity)
  {
    if lines != [] && lines[0].item < |snapshot| {
      CheckedLinesAgree(snapshot, lines[1..]);
    }
  }

  lemma ReadReturnSound(s: State, tenant: Id, order: Id, lines: seq<Returns.ReturnLine>)
    ensures var t := Returns.ReadReturn(s, tenant, order, lines); t.Done? ==> TicketSound(s, t.value)
  {
    if order in s.sales {
      CheckedLinesAgree(s.sales[order].items, lines);
    }
  }

  lemma TicketStaysSound(s: State, s': State, t: Returns.ReturnTicket)
    requires TicketSound(s, t) && OrdersAdvance(s, s')
    ensures TicketSound(s', t)
  {
  }

  // ------------------------------------------------------------------ every step advances

  lemma CommitReturnAdvances(s: State, number: string, t: Returns.ReturnTicket)
    requires TicketSound(s, t)
    ensures OrdersAdvance(s, Commit(s, Returns.CommitReturn(s, number, t)))
  {
    MarkReturnedEffect(s.sales[t.order].items, t.lines);
  }

  lemma CommitReceiveAdvances(s: State, t: Purchasing.ReceiveTicket)
    ensures OrdersAdvance(s, Commit(s, Purchasing.CommitReceive(s, t)))
  {
  }

  lemma NewPurchaseAdvances(s: State, op: Op)
    requires op.CreatePurchase? || op.CreatePendingPurchase?
    ensures OrdersAdvance(s, Step(s, op))
  {
  }

  lemma PurchaseCancellationAdvances(s: State, op: Op)
    requires op.CancelPurchase?
    ensures OrdersAdvance(s, Step(s, op))
  {
  }

  lemma ReceiptAdvances(s: State, op: Op)
    requires op.ReceivePurchase?
    ensures OrdersAdvance(s, Step(s, op))
  {
    var ticket := Purchasing.ReadReceive(s, op.tenant, op.id);
    if ticket.Done? { CommitReceiveAdvances(s, ticket.value); }
  }

  lemma ReturnAdvances(s: State, op: Op)
    requires op.CreateReturn?
    ensures OrdersAdvance(s, Step(s, op))
  {
    ReadReturnSound(s, op.tenant, op.id, op.returned);
    var ticket := Returns.ReadReturn(s, op.tenant, op.id, op.returned);
    if ticket.Done? { CommitReturnAdvances(s, op.number, ticket.value); }
  }

  lemma InventoryCallAdvances(s: State, op: Op)
    requires op.AdjustStock? || op.BulkInput?
    ensures OrdersAdvance(s, Step(s, op))
  {
  }

  lemma NewSaleAdvances(s: State, op: Op)
    requires op.CreateSale? || op.CreatePendingSale?
    ensures OrdersAdvance(s, Step(s, op))
  {
  }

  lemma CompletionAdvances(s: State, op: Op)
    requires op.CompleteSale?
    ensures OrdersAdvance(s, Step(s, op))
  {
  }

  lemma SaleCancellationAdvances(s: State, op: Op)
    requires op.CancelSale?
    ensures OrdersAdvance(s, Step(s, op))
  {
  }

  lemma StepAdvances(s: State, op: Op)
    ensures OrdersAdvance(s, Step(s, op))
  {
    match op
    case CreatePurchase(_, _, _, _, _) => NewPurchaseAdvances(s, op);
    case CreatePendingPurchase(_, _, _, _, _) => NewPurchaseAdvances(s, op);
    case ReceivePurchase(_, _) => ReceiptAdvances(s, op);
    case CancelPurchase(_, _) => PurchaseCancellationAdvances(s, op);
    case CreateSale(_, _, _, _, _) => NewSaleAdvances(s, op);
    case CreatePendingSale(_, _, _, _, _) => NewSaleAdvances(s, op);
    case CompleteSale(_, _) => CompletionAdvances(s, op);
    case CancelSale(_, _) => SaleCancellationAdvances(s, op);
    case CreateReturn(_, _, _, _) => ReturnAdvances(s, op);
    case _ => InventoryCallAdvances(s, op);
  }

  lemma NextAdvances(c: Config, e: Event)
    requires TicketsSound(c)
    ensures OrdersAdvance(c.state, Next(c, e).state)
  {
    match e
    case Atomic(op) => StepAdvances(c.state, op);
    case BeginReceive(k, t, id) =>
    case CommitReceive(k) =>
      if k in c.receiving { CommitReceiveAdvances(c.state, c.receiving[k]); }
    case BeginReturn(k, t, n, id, lines) =>
    case CommitReturn(k) =>
      if k in c.returning { CommitReturnAdvances(c.state, c.returning[k].number, c.returning[k].ticket); }
  }

  lemma ReceiptStaysSound(s: State, s': State, t: Purchasing.ReceiveTicket)
    requires ReceiptSound(s, t) && OrdersAdvance(s, s')
    ensures ReceiptSound(s', t)
  {
  }

  /** The calls in flight of `d` are among those of `c`. */
  lemma FewerTicketsStaySound(c: Config, d: Config)
    requires TicketsSound(c) && OrdersAdvance(c.state, d.state)
    requires forall k :: k in d.returning ==> k in c.returning && d.returning[k] == c.returning[k]
    requires forall k :: k in d.receiving ==> k in c.receiving && d.receiving[k] == c.receiving[k]
    ensures TicketsSound(d)
  {
    forall k | k in d.returning ensures TicketSound(d.state, d.returning[k].ticket) {
      TicketStaysSound(c.state, d.state, d.returning[k].ticket);
    }
    forall k | k in d.receiving ensures ReceiptSound(d.state, d.receiving[k]) {
      ReceiptStaysSound(c.state, d.state, d.receiving[k]);
    }
  }

  lemma NextKeepsTickets(c: Config, e: Event)
    requires TicketsSound(c)
    ensures TicketsSound(Next(c, e))
  {
    if e.BeginReturn? {
      ReadReturnSound(c.state, e.tenant, e.id, e.returned);
    } else if !e.BeginReceive? {
      NextAdvances(c, e);
      FewerTicketsStaySound(c, Next(c, e));
    }
  }

  lemma CommitReturnAddsNoOrder(s: State, number: string, t: Returns.ReturnTicket)
    ensures var r := Returns.CommitReturn(s, number, t); r.Done? ==> r.value.sales.Keys == s.sales.Keys
  {
  }

  /** Only the two creating calls add sales orders. */
  lemma StepAddsNoOrder(s: State, op: Op)
    requires op.CreateSale? || op.CreatePendingSale? ==> Try(s, op).Failed?
    ensures Step(s, op).sales.Keys == s.sales.Keys
  {
  }

  /** Over every interleaving: COMPLETED and CANCELLED are final for sales, RECEIVED is final for purchases,
      and what was frozen at creation stays frozen. */
  lemma {:induction false} PlayAdvances(c: Config, es: seq<Event>)
    requires TicketsSound(c)
    ensures OrdersAdvance(c.state, Play(c, es).state) && TicketsSound(Play(c, es))
    decreases |es|
  {
    if es != [] {
      NextAdvances(c, es[0]);
      NextKeepsTickets(c, es[0]);
      PlayAdvances(Next(c, es[0]), es[1..]);
      AdvanceTransitive(c.state, Next(c, es[0]).state, Play(c, es).state);
    }
  }

  /** Completing a pending sale touches its status alone, whatever the averages have become. */
  lemma CompletionKeepsFrozenTotals(s: State, tenant: Id, id: Id)
    ensures var r := Sales.CompleteSale(s, tenant, id);
            r.Done? ==> id in s.sales && r.value.sales == s.sales[id := s.sales[id].(status := SalesCompleted)]
  {
  }

  /** However late it is completed, a pending sale becomes COMPLETED with the price, COGS and profit frozen when it was
      made. */
  lemma LateCompletionKeepsFrozenTotals(c: Config, es: seq<Event>, tenant: Id, id: Id)
    requires TicketsSound(c) && id in c.state.sales && c.state.sales[id].status == SalesPending
    requires Try(Play(c, es).state, CompleteSale(tenant, id)).Done?
    ensures var after := Step(Play(c, es).state, CompleteSale(tenant, id));
            id in after.sales && after.sales[id] == c.state.sales[id].(status := SalesCompleted)
  {
    PlayAdvances(c, es);
    CompletionKeepsFrozenTotals(Play(c, es).state, tenant, id);
  }

  /** A CANCELLED purchase order can still be received: only RECEIVED is checked. */
  lemma CancelledCanBeReceived(s: State, tenant: Id, id: Id)
    requires id in s.purchases && s.purchases[id].tenant == tenant && s.purchases[id].status == PurchaseCancelled
    requires ItemsOwned(s.products, tenant, s.purchases[id].items)
    ensures Try(s, ReceivePurchase(tenant, id)).Done?
    ensures Step(s, ReceivePurchase(tenant, id)).purchases[id].status == PurchaseReceived
  {
    ReceiveEffect(s.products, s.products, tenant, s.purchases[id].items);
  }
}
