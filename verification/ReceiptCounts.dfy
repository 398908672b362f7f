/** Each receipt of a purchase writes its lines once more: the IN rows of an order count its receipts, and only a stale
    commit can receive it again. */
module ReceiptCounts {
  import opened Store
  import opened Machine
  import opened Orders
  import opened LedgerRows
  import Purchasing
  import Returns

  // ------------------------------------------------------------------ purchases

  ghost predicate PurchaseNumbersUnique(purchases: map<Id, PurchaseOrder>) {
    forall a, b | a in purchases && b in purchases ::
      purchases[a].tenant == purchases[b].tenant && purchases[a].number == purchases[b].number ==> a == b
  }

  /** One if the event commits a receipt of the order the key names. */
  function Receives(c: Config, e: Event, key: RowKey): (made: nat)
    ensures made <= 1
  {
    match e
    case Atomic(op) =>
      if Try(c.state, op).Done?
         && ((op.CreatePurchase? && op.tenant == key.tenant && op.number == key.number)
             || (op.ReceivePurchase? && op.id in c.state.purchases && PurchaseMatches(c.state.purchases[op.id], key)))
      then 1 else 0
    case CommitReceive(k) =>
      if k in c.receiving && Purchasing.CommitReceive(c.state, c.receiving[k]).Done?
         && c.receiving[k].order in c.state.purchases && PurchaseMatches(c.state.purchases[c.receiving[k].order], key)
      then 1 else 0
    case _ => 0
  }

  function PurchaseRows(o: PurchaseOrder, key: RowKey): int {
    if o.status == PurchaseReceived then LineCount(Bought(o.items), key) else 0
  }

  /** The IN rows that match are the manual ones and, exactly when the order with that number is RECEIVED, one for each
      of its lines. */
  ghost predicate PurchaseSettled(s: State, manual: int, key: RowKey) {
    && (forall id :: id in s.purchases && PurchaseMatches(s.purchases[id], key) ==>
          RowCount(s.ledger, key) == manual + PurchaseRows(s.purchases[id], key))
    && ((forall id :: id in s.purchases ==> !PurchaseMatches(s.purchases[id], key)) ==>
        RowCount(s.ledger, key) == manual)
  }

  function ReceiptsIn(c: Config, es: seq<Event>, key: RowKey): nat
    decreases |es|
  {
    if es == [] then 0 else Receives(c, es[0], key) + ReceiptsIn(Next(c, es[0]), es[1..], key)
  }

  // The rows: each receipt writes the lines of its order, whatever its status.

  /** The order with that number, if there is one, has `lines` lines that ask for the movement. */
  ghost predicate LinesAre(s: State, lines: int, key: RowKey) {
    forall id :: id in s.purchases && PurchaseMatches(s.purchases[id], key) ==>
        LineCount(Bought(s.purchases[id].items), key) == lines
  }

  lemma EarlierLinesAre(s: State, s': State, lines: int, key: RowKey)
    requires OrdersAdvance(s, s') && LinesAre(s', lines, key)
    ensures LinesAre(s, lines, key)
  {
  }

  lemma CommitReceiveRows(s: State, t: Purchasing.ReceiveTicket, lines: int, key: RowKey)
    requires ReceiptSound(s, t) && Purchasing.CommitReceive(s, t).Done? && LinesAre(s, lines, key) && key.kind == IN
    ensures RowCount(Purchasing.CommitReceive(s, t).value.ledger, key)
         == RowCount(s.ledger, key) + if PurchaseMatches(s.purchases[t.order], key) then lines else 0
  {
    CommitReceiveWrites(s, t, key);
  }

  lemma CreatePurchaseRows(s: State, op: Op, lines: int, key: RowKey)
    requires op.CreatePurchase? && Try(s, op).Done? && LinesAre(Step(s, op), lines, key) && key.kind == IN
    ensures RowCount(Step(s, op).ledger, key)
         == RowCount(s.ledger, key) + if op.tenant == key.tenant && op.number == key.number then lines else 0
  {
    CreatePurchaseWrites(s, op, key);
  }

  lemma StepReceiptRows(c: Config, op: Op, lines: int, key: RowKey)
    requires LinesAre(c.state, lines, key) && LinesAre(Step(c.state, op), lines, key) && key.kind == IN
    ensures RowCount(Step(c.state, op).ledger, key)
         == RowCount(c.state.ledger, key) + RowCount(ManualRow(c.state, op), key)
            + if Receives(c, Atomic(op), key) == 1 then lines else 0
  {
    var s := c.state;
    if Try(s, op).Failed? || op.BulkInput? || op.CreatePendingPurchase? || op.CancelPurchase? {
    } else if op.CreatePurchase? {
      CreatePurchaseRows(s, op, lines, key);
    } else if op.ReceivePurchase? {
      CommitReceiveRows(s, Purchasing.ReadReceive(s, op.tenant, op.id).value, lines, key);
    } else if op.AdjustStock? {
      AdjustWrites(s, op, key);
    } else if op.CreateReturn? {
      CommitReturnWrites(s, op.number, Returns.ReadReturn(s, op.tenant, op.id, op.returned).value, key);
    } else {
      SaleCallsWriteNoOther(s, op, key);
    }
  }

  lemma NextReceiptRows(c: Config, e: Event, lines: int, key: RowKey)
    requires TicketsSound(c) && LinesAre(Next(c, e).state, lines, key) && key.kind == IN
    ensures RowCount(Next(c, e).state.ledger, key)
         == RowCount(c.state.ledger, key) + RowCount(ManualAt(c, e), key) + if Receives(c, e, key) == 1 then lines
             else 0
  {
    NextAdvances(c, e);
    EarlierLinesAre(c.state, Next(c, e).state, lines, key);
    match e
    case Atomic(op) => StepReceiptRows(c, op, lines, key);
    case CommitReceive(k) =>
      if k in c.receiving && Purchasing.CommitReceive(c.state, c.receiving[k]).Done? {
        CommitReceiveRows(c.state, c.receiving[k], lines, key);
      }
    case CommitReturn(k) =>
      if k in c.returning { CommitReturnWrites(c.state, c.returning[k].number, c.returning[k].ticket, key); }
    case _ =>
  }

  /** What the receipts of a run write, one by one. */
  function ReceiptRowsIn(c: Config, es: seq<Event>, lines: int, key: RowKey): int
    decreases |es|
  {
    if es == [] then 0 else
      (if Receives(c, es[0], key) == 1 then lines else 0) + ReceiptRowsIn(Next(c, es[0]), es[1..], lines, key)
  }

  lemma OneMore(made: nat, rest: int, lines: int)
    requires made <= 1
    ensures (made + rest) * lines == (if made == 1 then lines else 0) + rest * lines
  {
  }

  lemma {:induction false} ReceiptRowsAreLines(c: Config, es: seq<Event>, lines: int, key: RowKey)
    ensures ReceiptRowsIn(c, es, lines, key) == ReceiptsIn(c, es, key) * lines
    decreases |es|
  {
    if es != [] {
      ReceiptRowsAreLines(Next(c, es[0]), es[1..], lines, key);
      OneMore(Receives(c, es[0], key), ReceiptsIn(Next(c, es[0]), es[1..], key), lines);
    }
  }

  lemma OneReceiptRows(c: Config, es: seq<Event>, lines: int, key: RowKey)
    requires ReceiptsIn(c, es, key) <= 1
    ensures ReceiptRowsIn(c, es, lines, key) == if ReceiptsIn(c, es, key) == 1 then lines else 0
  {
    ReceiptRowsAreLines(c, es, lines, key);
  }

  lemma {:induction false} RunReceiptRows(c: Config, es: seq<Event>, lines: int, key: RowKey)
    requires TicketsSound(c) && LinesAre(Play(c, es).state, lines, key) && key.kind == IN
    ensures RowCount(Play(c, es).state.ledger, key)
         == RowCount(c.state.ledger, key) + ManualIn(c, es, key) + ReceiptRowsIn(c, es, lines, key)
    decreases |es|
  {
    if es != [] {
      var next := Next(c, es[0]);
      NextKeepsTickets(c, es[0]);
      PlayAdvances(next, es[1..]);
      EarlierLinesAre(next.state, Play(next, es[1..]).state, lines, key);
      NextReceiptRows(c, es[0], lines, key);
      RunReceiptRows(next, es[1..], lines, key);
    }
  }

  // The receipts: an order is RECEIVED if and only if it was received.

  /** The order with that number, if there is one, has been received `n` times. */
  ghost predicate ReceivedTimes(s: State, n: nat, key: RowKey) {
    && (forall id :: id in s.purchases && PurchaseMatches(s.purchases[id], key) ==>
          (s.purchases[id].status == PurchaseReceived <==> n > 0))
    && ((forall id :: id in s.purchases ==> !PurchaseMatches(s.purchases[id], key)) ==> n == 0)
  }

  lemma CreatedTimes(s: State, s': State, id: Id, o: PurchaseOrder, n: nat, made: nat, key: RowKey)
    requires ReceivedTimes(s, n, key) && PurchaseNumbersUnique(s.purchases)
    requires id !in s.purchases && !Purchasing.NumberTaken(s.purchases, o.tenant, o.number)
    requires s'.purchases == s.purchases[id := o]
    requires made == if PurchaseMatches(o, key) && o.status == PurchaseReceived then 1 else 0
    ensures ReceivedTimes(s', n + made, key) && PurchaseNumbersUnique(s'.purchases)
    ensures made == 1 ==> n == 0
  {
    assert forall x :: x in s.purchases ==> s'.purchases[x] == s.purchases[x];
    assert id in s'.purchases;
  }

  lemma RestatusedTimes(s: State, s': State, id: Id, status: PurchaseStatus, n: nat, made: nat, key: RowKey)
    requires ReceivedTimes(s, n, key) && PurchaseNumbersUnique(s.purchases) && id in s.purchases
    requires s'.purchases == s.purchases[id := s.purchases[id].(status := status)]
    requires status != PurchaseReceived ==> s.purchases[id].status != PurchaseReceived
    requires made == if PurchaseMatches(s.purchases[id], key) && status == PurchaseReceived then 1 else 0
    ensures ReceivedTimes(s', n + made, key) && PurchaseNumbersUnique(s'.purchases)
  {
    assert forall x :: x in s.purchases && x != id ==> s'.purchases[x] == s.purchases[x];
    assert id in s'.purchases;
  }

  lemma CreatePurchaseTimes(c: Config, op: Op, n: nat, key: RowKey)
    requires ReceivedTimes(c.state, n, key) && PurchaseNumbersUnique(c.state.purchases)
    requires op.CreatePurchase? && Try(c.state, op).Done?
    ensures var s', made := Step(c.state, op), Receives(c, Atomic(op), key);
            ReceivedTimes(s', n + made, key) && PurchaseNumbersUnique(s'.purchases) && (made == 1 ==> n == 0)
  {
    CreatePurchaseWrites(c.state, op, key);
    CreatedTimes(c.state, Step(c.state, op), op.id, Step(c.state, op).purchases[op.id], n, Receives(c, Atomic(op), key),
                 key);
  }

  lemma CreatePendingPurchaseTimes(s: State, op: Op, n: nat, key: RowKey)
    requires ReceivedTimes(s, n, key) && PurchaseNumbersUnique(s.purchases)
    requires op.CreatePendingPurchase? && Try(s, op).Done?
    ensures ReceivedTimes(Step(s, op), n, key) && PurchaseNumbersUnique(Step(s, op).purchases)
  {
    CreatedTimes(s, Step(s, op), op.id, Step(s, op).purchases[op.id], n, 0, key);
  }

  lemma CommitReceiveTimes(s: State, t: Purchasing.ReceiveTicket, n: nat, key: RowKey)
    requires ReceivedTimes(s, n, key) && PurchaseNumbersUnique(s.purchases)
    requires ReceiptSound(s, t) && Purchasing.CommitReceive(s, t).Done?
    ensures var s' := Purchasing.CommitReceive(s, t).value;
            var made := if PurchaseMatches(s.purchases[t.order], key) then 1 else 0;
            ReceivedTimes(s', n + made, key) && PurchaseNumbersUnique(s'.purchases)
  {
    CommitReceiveWrites(s, t, key);
    RestatusedTimes(s, Purchasing.CommitReceive(s, t).value, t.order, PurchaseReceived, n,
                    if PurchaseMatches(s.purchases[t.order], key) then 1 else 0, key);
  }

  lemma CancelPurchaseTimes(s: State, op: Op, n: nat, key: RowKey)
    requires ReceivedTimes(s, n, key) && PurchaseNumbersUnique(s.purchases)
    requires op.CancelPurchase? && Try(s, op).Done?
    ensures ReceivedTimes(Step(s, op), n, key) && PurchaseNumbersUnique(Step(s, op).purchases)
  {
    RestatusedTimes(s, Step(s, op), op.id, PurchaseCancelled, n, 0, key);
  }

  lemma OtherCallsKeepPurchases(s: State, op: Op)
    requires !op.CreatePurchase? && !op.CreatePendingPurchase? && !op.ReceivePurchase? && !op.CancelPurchase?
    ensures Step(s, op).purchases == s.purchases
  {
  }

  lemma StepReceivedTimes(c: Config, op: Op, n: nat, key: RowKey)
    requires ReceivedTimes(c.state, n, key) && PurchaseNumbersUnique(c.state.purchases)
    ensures var s', made := Step(c.state, op), Receives(c, Atomic(op), key);
            ReceivedTimes(s', n + made, key) && PurchaseNumbersUnique(s'.purchases) && (made == 1 ==> n == 0)
  {
    var s := c.state;
    if Try(s, op).Failed? {
    } else if op.CreatePurchase? {
      CreatePurchaseTimes(c, op, n, key);
    } else if op.CreatePendingPurchase? {
      CreatePendingPurchaseTimes(s, op, n, key);
    } else if op.ReceivePurchase? {
      CommitReceiveTimes(s, Purchasing.ReadReceive(s, op.tenant, op.id).value, n, key);
    } else if op.CancelPurchase? {
      CancelPurchaseTimes(s, op, n, key);
    } else {
      OtherCallsKeepPurchases(s, op);
    }
  }

  /** Only a stale commit can receive an order again. */
  lemma NextReceivedTimes(c: Config, e: Event, n: nat, key: RowKey)
    requires TicketsSound(c) && ReceivedTimes(c.state, n, key) && PurchaseNumbersUnique(c.state.purchases)
    ensures var s', made := Next(c, e).state, Receives(c, e, key);
            ReceivedTimes(s', n + made, key) && PurchaseNumbersUnique(s'.purchases)
                && (made == 1 && !e.CommitReceive? ==> n == 0)
  {
    match e
    case Atomic(op) => StepReceivedTimes(c, op, n, key);
    case CommitReceive(k) =>
      if k in c.receiving && Purchasing.CommitReceive(c.state, c.receiving[k]).Done? {
        CommitReceiveTimes(c.state, c.receiving[k], n, key);
      }
    case CommitReturn(k) =>
      if k in c.returning { CommitReturnWrites(c.state, c.returning[k].number, c.returning[k].ticket, key); }
    case _ =>
  }

  lemma {:induction false} RunReceivedTimes(c: Config, es: seq<Event>, n: nat, key: RowKey)
    requires TicketsSound(c) && ReceivedTimes(c.state, n, key) && PurchaseNumbersUnique(c.state.purchases)
    ensures var s := Play(c, es).state;
            ReceivedTimes(s, n + ReceiptsIn(c, es, key), key) && PurchaseNumbersUnique(s.purchases)
    ensures n <= 1 && (forall e :: e in es ==> !e.CommitReceive?) ==> n + ReceiptsIn(c, es, key) <= 1
    decreases |es|
  {
    if es != [] {
      NextReceivedTimes(c, es[0], n, key);
      NextKeepsTickets(c, es[0]);
      RunReceivedTimes(Next(c, es[0]), es[1..], n + Receives(c, es[0], key), key);
      if forall e :: e in es ==> !e.CommitReceive? {
        assert es[0] in es && forall e :: e in es[1..] ==> e in es;
      }
    }
  }

  /** Main result for purchases. Over every interleaving: beside manual rows, the IN rows a run writes for an order are
      its lines times the number of its receipts; it is RECEIVED if and only if there was one, then or before; and
      where receipts are not split there is one at most. */
  lemma PurchasesMoveStockPerReceipt(c: Config, es: seq<Event>, n: nat, id: Id, move: Move)
    requires TicketsSound(c) && PurchaseNumbersUnique(c.state.purchases) && id in Play(c, es).state.purchases
    requires var o := Play(c, es).state.purchases[id]; ReceivedTimes(c.state, n, RowKey(IN, o.tenant, o.number, move))
    ensures var s := Play(c, es).state;
            var o := s.purchases[id];
            var key := RowKey(IN, o.tenant, o.number, move);
            var receipts := ReceiptsIn(c, es, key);
            && RowCount(s.ledger, key)
               == RowCount(c.state.ledger, key) + ManualIn(c, es, key) + receipts * multiset(Bought(o.items))[move]
            && (o.status == PurchaseReceived <==> n + receipts > 0)
            && (n <= 1 && (forall e :: e in es ==> !e.CommitReceive?) ==> n + receipts <= 1)
  {
    var s := Play(c, es).state;
    var o := s.purchases[id];
    var key := RowKey(IN, o.tenant, o.number, move);
    RunReceivedTimes(c, es, n, key);
    assert PurchaseMatches(o, key);
    RunReceiptRows(c, es, LineCount(Bought(o.items), key), key);
    ReceiptRowsAreLines(c, es, LineCount(Bought(o.items), key), key);
  }

  /** The one order with that number: its lines, and whether it was received. */
  lemma OnlyOrder(s: State, id: Id, key: RowKey)
    requires PurchaseNumbersUnique(s.purchases) && id in s.purchases && PurchaseMatches(s.purchases[id], key)
    ensures LinesAre(s, LineCount(Bought(s.purchases[id].items), key), key)
    ensures ReceivedTimes(s, if s.purchases[id].status == PurchaseReceived then 1 else 0, key)
  {
  }

  /** Settled, and received `n` times with `n` at most one: the rows are the manual ones and `n` times the lines. */
  lemma SettledIffCounted(s: State, manual: int, n: nat, lines: int, key: RowKey)
    requires n <= 1 && ReceivedTimes(s, n, key) && LinesAre(s, lines, key)
    ensures PurchaseSettled(s, manual, key) <==> RowCount(s.ledger, key) == manual + if n == 1 then lines else 0
  {
  }

  lemma TimesReceived(s: State, key: RowKey) returns (n: nat)
    requires PurchaseNumbersUnique(s.purchases)
    ensures n <= 1 && ReceivedTimes(s, n, key)
  {
    n := 0;
    if id :| id in s.purchases && PurchaseMatches(s.purchases[id], key) {
      OnlyOrder(s, id, key);
      n := if s.purchases[id].status == PurchaseReceived then 1 else 0;
    }
  }

  lemma LinesOf(s: State, key: RowKey) returns (lines: int)
    requires PurchaseNumbersUnique(s.purchases)
    ensures LinesAre(s, lines, key)
  {
    lines := 0;
    if id :| id in s.purchases && PurchaseMatches(s.purchases[id], key) {
      OnlyOrder(s, id, key);
      lines := LineCount(Bought(s.purchases[id].items), key);
    }
  }

  /** Where receipts are not split: beside manual rows, one IN row for each line if and only if RECEIVED. */
  lemma PurchasesMoveStockOnce(c: Config, es: seq<Event>, manual: int, key: RowKey)
    requires TicketsSound(c) && forall e :: e in es ==> !e.CommitReceive?
    requires PurchaseSettled(c.state, manual, key) && PurchaseNumbersUnique(c.state.purchases) && key.kind == IN
    ensures var s := Play(c, es).state;
            PurchaseSettled(s, manual + ManualIn(c, es, key), key) && PurchaseNumbersUnique(s.purchases)
  {
    var s := Play(c, es).state;
    var n := TimesReceived(c.state, key);
    RunReceivedTimes(c, es, n, key);
    var lines := LinesOf(s, key);
    PlayAdvances(c, es);
    EarlierLinesAre(c.state, s, lines, key);
    RunReceiptRows(c, es, lines, key);
    OneReceiptRows(c, es, lines, key);
    SettledIffCounted(c.state, manual, n, lines, key);
    SettledIffCounted(s, manual + ManualIn(c, es, key), n + ReceiptsIn(c, es, key), lines, key);
  }

  // ------------------------------------------------------------------ cancelled purchases

  lemma JustCancelledPurchase(c: Config, tenant: Id, id: Id, key: RowKey)
    requires TicketsSound(c) && PurchaseNumbersUnique(c.state.purchases)
    requires Try(c.state, CancelPurchase(tenant, id)).Done? && id in c.state.purchases
               && PurchaseMatches(c.state.purchases[id], key)
    ensures var next := Next(c, Atomic(CancelPurchase(tenant, id)));
            && TicketsSound(next) && PurchaseNumbersUnique(next.state.purchases) && ReceivedTimes(next.state, 0, key)
            && next.state.ledger == c.state.ledger
            && id in next.state.purchases
                && next.state.purchases[id] == c.state.purchases[id].(status := PurchaseCancelled)
  {
    NextKeepsTickets(c, Atomic(CancelPurchase(tenant, id)));
    OnlyOrder(c.state, id, key);
    CancelPurchaseTimes(c.state, CancelPurchase(tenant, id), 0, key);
  }

  /** A cancelled purchase is not settled for good: it stays CANCELLED unless it is received all the same, and then it
      moves stock. */
  lemma CancelledPurchaseMovesIfReceived(c: Config, es: seq<Event>, tenant: Id, id: Id, move: Move)
    requires TicketsSound(c) && PurchaseNumbersUnique(c.state.purchases)
    requires Try(c.state, CancelPurchase(tenant, id)).Done? && id in c.state.purchases
    ensures var o, next := c.state.purchases[id], Next(c, Atomic(CancelPurchase(tenant, id)));
            var s, key := Play(next, es).state, RowKey(IN, o.tenant, o.number, move);
            var receipts := ReceiptsIn(next, es, key);
            && id in s.purchases
            && s.purchases[id] == o.(status := if receipts > 0 then PurchaseReceived else PurchaseCancelled)
            && RowCount(s.ledger, key)
               == RowCount(c.state.ledger, key) + ManualIn(next, es, key) + receipts * multiset(Bought(o.items))[move]
  {
    var o, next := c.state.purchases[id], Next(c, Atomic(CancelPurchase(tenant, id)));
    JustCancelledPurchase(c, tenant, id, RowKey(IN, o.tenant, o.number, move));
    PlayAdvances(next, es);
    PurchasesMoveStockPerReceipt(next, es, 0, id, move);
  }

  // ------------------------------------------------------------------ what a stale read costs

  /** Committing a receipt in flight settles its order if and only if the order was not RECEIVED in the meantime. */
  lemma CommitSettlesUnlessReceived(s: State, ticket: Purchasing.ReceiveTicket, manual: int, key: RowKey)
    requires ReceiptSound(s, ticket) && Purchasing.CommitReceive(s, ticket).Done?
    requires PurchaseNumbersUnique(s.purchases) && PurchaseSettled(s, manual, key)
    requires key.kind == IN && PurchaseMatches(s.purchases[ticket.order], key) && key.move in Bought(ticket.items)
    ensures PurchaseSettled(Purchasing.CommitReceive(s, ticket).value, manual, key)
       <==> s.purchases[ticket.order].status != PurchaseReceived
  {
    CommitReceiveWrites(s, ticket, key);
    var s' := Purchasing.CommitReceive(s, ticket).value;
    assert key.move in multiset(Bought(ticket.items));
    assert ticket.order in s'.purchases && PurchaseMatches(s'.purchases[ticket.order], key);
    assert forall x :: x in s.purchases && x != ticket.order ==> s'.purchases[x] == s.purchases[x];
  }
}
