/** What each order and return has in the ledger, over every interleaving: a sale its lines once if COMPLETED, a
    purchase its lines once for each committed receipt, a return its lines once. */
module ExactlyOnce {
  import opened Store
  import opened Machine
  import opened Effects
  import opened Orders
  import opened LedgerRows
  import opened ReceiptCounts
  import Purchasing
  import Sales
  import Returns

  // ------------------------------------------------------------------ sales

  ghost predicate SaleNumbersUnique(sales: map<Id, SalesOrder>) {
    forall a, b | a in sales && b in sales ::
      sales[a].tenant == sales[b].tenant && sales[a].number == sales[b].number ==> a == b
  }

  /** The OUT rows that match are the manual ones and, exactly when the order with that number is COMPLETED,
      one for each of its lines. */
  ghost predicate SaleSettled(s: State, manual: int, key: RowKey) {
    && (forall id :: id in s.sales && SaleMatches(s.sales[id], key) ==>
          RowCount(s.ledger, key) == manual + SaleRows(s.sales[id], key))
    && ((forall id :: id in s.sales ==> !SaleMatches(s.sales[id], key)) ==> RowCount(s.ledger, key) == manual)
  }

  lemma SameItemsSold(a: seq<OrderItem>, b: seq<OrderItem>)
    requires SameItems(a, b)
    ensures Sold(a) == Sold(b)
  {
  }

  /** The same orders as far as stock is concerned. */
  ghost predicate SalesAlike(a: map<Id, SalesOrder>, b: map<Id, SalesOrder>) {
    && a.Keys == b.Keys
    && forall id :: id in a ==>
         && b[id].tenant == a[id].tenant && b[id].number == a[id].number && SameItems(a[id].items, b[id].items)
         && (b[id].status == SalesCompleted <==> a[id].status == SalesCompleted)
  }

  lemma QuietForSales(s: State, s': State, manual: int, manual': int, key: RowKey)
    requires SaleSettled(s, manual, key) && SaleNumbersUnique(s.sales)
    requires RowCount(s'.ledger, key) - RowCount(s.ledger, key) == manual' - manual
    requires SalesAlike(s.sales, s'.sales)
    ensures SaleSettled(s', manual', key) && SaleNumbersUnique(s'.sales)
  {
    forall id | id in s.sales ensures SaleRows(s'.sales[id], key) == SaleRows(s.sales[id], key) {
      SameItemsSold(s.sales[id].items, s'.sales[id].items);
    }
  }

  lemma CreatedSaleSettled(s: State, s': State, id: Id, o: SalesOrder, manual: int, key: RowKey)
    requires SaleSettled(s, manual, key) && SaleNumbersUnique(s.sales)
    requires id !in s.sales && !Sales.NumberTaken(s.sales, o.tenant, o.number) && s'.sales == s.sales[id := o]
    requires RowCount(s'.ledger, key) - RowCount(s.ledger, key) == if SaleMatches(o, key) then SaleRows(o, key) else 0
    ensures SaleSettled(s', manual, key) && SaleNumbersUnique(s'.sales)
  {
    assert forall x :: x in s.sales ==> s'.sales[x] == s.sales[x];
    assert id in s'.sales;
  }

  lemma CompletedSaleSettled(s: State, s': State, id: Id, manual: int, key: RowKey)
    requires SaleSettled(s, manual, key) && SaleNumbersUnique(s.sales)
    requires id in s.sales && s.sales[id].status == SalesPending
    requires s'.sales == s.sales[id := s.sales[id].(status := SalesCompleted)]
    requires RowCount(s'.ledger, key) - RowCount(s.ledger, key)
          == if SaleMatches(s.sales[id], key) then LineCount(Sold(s.sales[id].items), key) else 0
    ensures SaleSettled(s', manual, key) && SaleNumbersUnique(s'.sales)
  {
    assert forall x :: x in s.sales && x != id ==> s'.sales[x] == s.sales[x];
    assert id in s'.sales;
  }

  // ------------------------------------------------------------------ sales over runs

  lemma CreateSaleSettled(s: State, op: Op, manual: int, key: RowKey)
    requires SaleSettled(s, manual, key) && SaleNumbersUnique(s.sales) && key.kind == OUT
    requires op.CreateSale? && Try(s, op).Done?
    ensures SaleSettled(Step(s, op), manual, key) && SaleNumbersUnique(Step(s, op).sales)
  {
    CreateSaleWrites(s, op, key);
    CreatedSaleSettled(s, Step(s, op), op.id, Step(s, op).sales[op.id], manual, key);
  }

  lemma CreatePendingSaleSettled(s: State, op: Op, manual: int, key: RowKey)
    requires SaleSettled(s, manual, key) && SaleNumbersUnique(s.sales)
    requires op.CreatePendingSale? && Try(s, op).Done?
    ensures SaleSettled(Step(s, op), manual, key) && SaleNumbersUnique(Step(s, op).sales)
  {
    CreatedSaleSettled(s, Step(s, op), op.id, Step(s, op).sales[op.id], manual, key);
  }

  lemma CompleteSaleSettled(s: State, op: Op, manual: int, key: RowKey)
    requires SaleSettled(s, manual, key) && SaleNumbersUnique(s.sales) && key.kind == OUT
    requires op.CompleteSale? && Try(s, op).Done?
    ensures SaleSettled(Step(s, op), manual, key) && SaleNumbersUnique(Step(s, op).sales)
  {
    CompleteSaleWrites(s, op, key);
    CompletedSaleSettled(s, Step(s, op), op.id, manual, key);
  }

  lemma CancelSaleAlike(s: State, op: Op)
    requires op.CancelSale? && Try(s, op).Done?
    ensures SalesAlike(s.sales, Step(s, op).sales) && Step(s, op).ledger == s.ledger
  {
  }

  lemma CancelSaleSettled(s: State, op: Op, manual: int, key: RowKey)
    requires SaleSettled(s, manual, key) && SaleNumbersUnique(s.sales)
    requires op.CancelSale? && Try(s, op).Done?
    ensures SaleSettled(Step(s, op), manual, key) && SaleNumbersUnique(Step(s, op).sales)
  {
    CancelSaleAlike(s, op);
    QuietForSales(s, Step(s, op), manual, manual, key);
  }

  lemma CommitReturnAlike(s: State, number: string, t: Returns.ReturnTicket)
    requires TicketSound(s, t)
    ensures var r := Returns.CommitReturn(s, number, t); r.Done? ==> SalesAlike(s.sales, r.value.sales)
  {
    MarkReturnedEffect(s.sales[t.order].items, t.lines);
  }

  lemma CommitReturnSettledForSales(s: State, number: string, t: Returns.ReturnTicket, manual: int, key: RowKey)
    requires SaleSettled(s, manual, key) && SaleNumbersUnique(s.sales) && key.kind == OUT && TicketSound(s, t)
    ensures var s' := Commit(s, Returns.CommitReturn(s, number, t));
            SaleSettled(s', manual, key) && SaleNumbersUnique(s'.sales)
  {
    CommitReturnWrites(s, number, t, key);
    CommitReturnAlike(s, number, t);
    var r := Returns.CommitReturn(s, number, t);
    if r.Done? { QuietForSales(s, r.value, manual, manual, key); }
  }

  lemma AdjustSettledForSales(s: State, op: Op, manual: int, key: RowKey)
    requires SaleSettled(s, manual, key) && SaleNumbersUnique(s.sales) && op.AdjustStock?
    ensures SaleSettled(Step(s, op), manual + RowCount(ManualRow(s, op), key), key)
              && SaleNumbersUnique(Step(s, op).sales)
  {
    AdjustWrites(s, op, key);
    QuietForSales(s, Step(s, op), manual, manual + RowCount(ManualRow(s, op), key), key);
  }

  lemma SaleStepSettled(s: State, op: Op, manual: int, key: RowKey)
    requires SaleSettled(s, manual, key) && SaleNumbersUnique(s.sales) && key.kind == OUT
    ensures SaleSettled(Step(s, op), manual + RowCount(ManualRow(s, op), key), key)
              && SaleNumbersUnique(Step(s, op).sales)
  {
    if Try(s, op).Failed? || op.BulkInput? {
    } else if op.CreateSale? {
      CreateSaleSettled(s, op, manual, key);
    } else if op.CreatePendingSale? {
      CreatePendingSaleSettled(s, op, manual, key);
    } else if op.CompleteSale? {
      CompleteSaleSettled(s, op, manual, key);
    } else if op.CancelSale? {
      CancelSaleSettled(s, op, manual, key);
    } else if op.CreateReturn? {
      ReadReturnSound(s, op.tenant, op.id, op.returned);
      CommitReturnSettledForSales(s, op.number, Returns.ReadReturn(s, op.tenant, op.id, op.returned).value, manual,
                                  key);
    } else if op.AdjustStock? {
      AdjustSettledForSales(s, op, manual, key);
    } else {
      PurchaseCallsWriteNoOther(s, op, key);
    }
  }

  lemma CommitReceiveSettledForSales(s: State, t: Purchasing.ReceiveTicket, manual: int, key: RowKey)
    requires SaleSettled(s, manual, key) && SaleNumbersUnique(s.sales) && key.kind == OUT && ReceiptSound(s, t)
    ensures var s' := Commit(s, Purchasing.CommitReceive(s, t));
            SaleSettled(s', manual, key) && SaleNumbersUnique(s'.sales)
  {
    var r := Purchasing.CommitReceive(s, t);
    if r.Done? {
      CommitReceiveWrites(s, t, key);
      assert r.value.sales == s.sales;
    }
  }

  /** A half-call writes no manual row. */
  lemma HalvesSettledForSales(c: Config, e: Event, manual: int, key: RowKey)
    requires TicketsSound(c) && !e.Atomic? && key.kind == OUT
    requires SaleSettled(c.state, manual, key) && SaleNumbersUnique(c.state.sales)
    ensures var s' := Next(c, e).state; SaleSettled(s', manual, key) && SaleNumbersUnique(s'.sales)
  {
    if e.CommitReceive? {
      if e.call in c.receiving { CommitReceiveSettledForSales(c.state, c.receiving[e.call], manual, key); }
    } else if e.CommitReturn? && e.call in c.returning {
      var p := c.returning[e.call];
      CommitReturnSettledForSales(c.state, p.number, p.ticket, manual, key);
    }
  }

  lemma SaleNextSettled(c: Config, e: Event, manual: int, key: RowKey)
    requires TicketsSound(c) && key.kind == OUT
    requires SaleSettled(c.state, manual, key) && SaleNumbersUnique(c.state.sales)
    ensures var s' := Next(c, e).state;
            SaleSettled(s', manual + RowCount(ManualAt(c, e), key), key) && SaleNumbersUnique(s'.sales)
  {
    if e.Atomic? {
      SaleStepSettled(c.state, e.op, manual, key);
    } else {
      HalvesSettledForSales(c, e, manual, key);
      assert manual + RowCount(ManualAt(c, e), key) == manual;
    }
  }

  /** Main result for sales. Over every interleaving, stale halves included: beside manual rows, one OUT row for each
      line of an order if and only if it is COMPLETED. */
  lemma {:induction false} SalesMoveStockOnce(c: Config, es: seq<Event>, manual: int, key: RowKey)
    requires TicketsSound(c) && SaleSettled(c.state, manual, key) && SaleNumbersUnique(c.state.sales) && key.kind == OUT
    ensures var s := Play(c, es).state;
            SaleSettled(s, manual + ManualIn(c, es, key), key) && SaleNumbersUnique(s.sales)
    decreases |es|
  {
    if es != [] {
      SaleNextSettled(c, es[0], manual, key);
      NextKeepsTickets(c, es[0]);
      SalesMoveStockOnce(Next(c, es[0]), es[1..], manual + RowCount(ManualAt(c, es[0]), key), key);
    }
  }

  // ------------------------------------------------------------------ returns

  /** The RETURN rows that match are the manual ones and, if there is a return with that number, one for each of its
      lines. */
  ghost predicate ReturnSettled(s: State, manual: int, key: RowKey) {
    && (forall r :: r in s.salesReturns && ReturnMatches(r, key) ==>
          RowCount(s.ledger, key) == manual + LineCount(Brought(r.items), key))
    && (!Returns.NumberTaken(s.salesReturns, key.tenant, key.number) ==> RowCount(s.ledger, key) == manual)
  }

  lemma WrittenReturnSettled(s: State, s': State, manual: int, key: RowKey)
    requires ReturnSettled(s, manual, key) && ReturnWritten(s, s', key) && key.kind == RETURN
    ensures ReturnSettled(s', manual, key)
  {
    var row := s'.salesReturns[|s'.salesReturns| - 1];
    assert s'.salesReturns == s.salesReturns + [row];
    assert row in s'.salesReturns && forall r :: r in s.salesReturns ==> r in s'.salesReturns;
  }

  lemma CommitReturnSettled(s: State, number: string, t: Returns.ReturnTicket, manual: int, key: RowKey)
    requires ReturnSettled(s, manual, key) && key.kind == RETURN
    ensures ReturnSettled(Commit(s, Returns.CommitReturn(s, number, t)), manual, key)
  {
    CommitReturnWrites(s, number, t, key);
    var r := Returns.CommitReturn(s, number, t);
    if r.Done? { WrittenReturnSettled(s, r.value, manual, key); }
  }

  lemma CommitReceiveSettledForReturns(s: State, t: Purchasing.ReceiveTicket, manual: int, key: RowKey)
    requires ReceiptSound(s, t) && ReturnSettled(s, manual, key) && key.kind == RETURN
    ensures ReturnSettled(Commit(s, Purchasing.CommitReceive(s, t)), manual, key)
  {
    if Purchasing.CommitReceive(s, t).Done? { CommitReceiveWrites(s, t, key); }
  }

  lemma QuietForReturns(s: State, op: Op, key: RowKey)
    requires !op.CreateReturn? && !op.AdjustStock? && key.kind == RETURN
    ensures Step(s, op).salesReturns == s.salesReturns && RowCount(Step(s, op).ledger, key) == RowCount(s.ledger, key)
  {
    if Try(s, op).Failed? || op.BulkInput? {
    } else if op.CreateSale? || op.CreatePendingSale? || op.CompleteSale? || op.CancelSale? {
      SaleCallsWriteNoOther(s, op, key);
    } else {
      PurchaseCallsWriteNoOther(s, op, key);
    }
  }

  lemma AdjustSettledForReturns(s: State, op: Op, manual: int, key: RowKey)
    requires op.AdjustStock? && ReturnSettled(s, manual, key)
    ensures ReturnSettled(Step(s, op), manual + RowCount(ManualRow(s, op), key), key)
  {
    AdjustWrites(s, op, key);
    assert Step(s, op).salesReturns == s.salesReturns;
  }

  lemma ReturnStepSettled(s: State, op: Op, manual: int, key: RowKey)
    requires ReturnSettled(s, manual, key) && key.kind == RETURN
    ensures ReturnSettled(Step(s, op), manual + RowCount(ManualRow(s, op), key), key)
  {
    if op.AdjustStock? {
      AdjustSettledForReturns(s, op, manual, key);
    } else if op.CreateReturn? {
      var ticket := Returns.ReadReturn(s, op.tenant, op.id, op.returned);
      if ticket.Done? { CommitReturnSettled(s, op.number, ticket.value, manual, key); }
    } else {
      QuietForReturns(s, op, key);
    }
  }

  lemma HalvesSettledForReturns(c: Config, e: Event, manual: int, key: RowKey)
    requires TicketsSound(c) && !e.Atomic? && ReturnSettled(c.state, manual, key) && key.kind == RETURN
    ensures ReturnSettled(Next(c, e).state, manual, key)
  {
    if e.CommitReceive? {
      if e.call in c.receiving { CommitReceiveSettledForReturns(c.state, c.receiving[e.call], manual, key); }
    } else if e.CommitReturn? && e.call in c.returning {
      CommitReturnSettled(c.state, c.returning[e.call].number, c.returning[e.call].ticket, manual, key);
    }
  }

  lemma ReturnNextSettled(c: Config, e: Event, manual: int, key: RowKey)
    requires TicketsSound(c) && ReturnSettled(c.state, manual, key) && key.kind == RETURN
    ensures ReturnSettled(Next(c, e).state, manual + RowCount(ManualAt(c, e), key), key)
  {
    if e.Atomic? {
      ReturnStepSettled(c.state, e.op, manual, key);
    } else {
      HalvesSettledForReturns(c, e, manual, key);
      assert manual + RowCount(ManualAt(c, e), key) == manual;
    }
  }

  /** Main result for returns. Over every interleaving: beside manual rows, one RETURN row for each line of each
      return. */
  lemma {:induction false} ReturnsMoveStockOnce(c: Config, es: seq<Event>, manual: int, key: RowKey)
    requires TicketsSound(c) && ReturnSettled(c.state, manual, key) && key.kind == RETURN
    ensures ReturnSettled(Play(c, es).state, manual + ManualIn(c, es, key), key)
    decreases |es|
  {
    if es != [] {
      ReturnNextSettled(c, es[0], manual, key);
      NextKeepsTickets(c, es[0]);
      ReturnsMoveStockOnce(Next(c, es[0]), es[1..], manual + RowCount(ManualAt(c, es[0]), key), key);
    }
  }

  // ------------------------------------------------------------------ from the empty store

  /** Over every interleaving from the empty store, and beside what manual adjustments wrote: a sale has its lines in
      the ledger once if COMPLETED; a purchase has them once for each receipt, and once at most if receipts are not
      split. */
  lemma EveryOrderMovesStockOnce(es: seq<Event>, id: Id, move: Move)
    ensures var c := Config(EMPTY, map[], map[]);
            var s := Play(c, es).state;
            && (id in s.sales ==>
                  var o := s.sales[id];
                  var key := RowKey(OUT, o.tenant, o.number, move);
                  RowCount(s.ledger, key) - ManualIn(c, es, key)
                    == if o.status == SalesCompleted then multiset(Sold(o.items))[move] else 0)
            && (id in s.purchases ==>
                  var o := s.purchases[id];
                  var key := RowKey(IN, o.tenant, o.number, move);
                  var receipts := ReceiptsIn(c, es, key);
                  && RowCount(s.ledger, key) - ManualIn(c, es, key) == receipts * multiset(Bought(o.items))[move]
                  && (o.status == PurchaseReceived <==> receipts > 0)
                  && ((forall e :: e in es ==> !e.CommitReceive?) ==> receipts <= 1))
  {
    var c := Config(EMPTY, map[], map[]);
    var s := Play(c, es).state;
    if id in s.sales {
      SalesMoveStockOnce(c, es, 0, RowKey(OUT, s.sales[id].tenant, s.sales[id].number, move));
      assert SaleMatches(s.sales[id], RowKey(OUT, s.sales[id].tenant, s.sales[id].number, move));
    }
    if id in s.purchases {
      PurchasesMoveStockPerReceipt(c, es, 0, id, move);
    }
  }

  // ------------------------------------------------------------------ cancelled orders

  lemma CancelledStays(c: Config, es: seq<Event>, id: Id)
    requires TicketsSound(c) && id in c.state.sales && c.state.sales[id].status == SalesCancelled
    ensures id in Play(c, es).state.sales && Play(c, es).state.sales[id] == c.state.sales[id]
  {
    PlayAdvances(c, es);
  }

  lemma SettledWithoutRows(s: State, id: Id, manual: int, key: RowKey)
    requires SaleSettled(s, manual, key) && id in s.sales && SaleMatches(s.sales[id], key)
               && s.sales[id].status == SalesCancelled
    ensures RowCount(s.ledger, key) == manual
  {
  }

  lemma JustCancelled(c: Config, tenant: Id, id: Id, manual: int, key: RowKey)
    requires TicketsSound(c) && SaleNumbersUnique(c.state.sales) && SaleSettled(c.state, manual, key)
    requires Try(c.state, CancelSale(tenant, id)).Done? && id in c.state.sales
    ensures var next := Next(c, Atomic(CancelSale(tenant, id)));
            && TicketsSound(next) && SaleNumbersUnique(next.state.sales) && SaleSettled(next.state, manual, key)
            && id in next.state.sales && next.state.sales[id] == c.state.sales[id].(status := SalesCancelled)
  {
    NextKeepsTickets(c, Atomic(CancelSale(tenant, id)));
    CancelSaleSettled(c.state, CancelSale(tenant, id), manual, key);
  }

  /** A cancelled sale is settled for good: whatever follows, it stays as it was cancelled, and writes no row. */
  lemma CancelledSaleNeverMoves(c: Config, es: seq<Event>, tenant: Id, id: Id, manual: int, key: RowKey)
    requires TicketsSound(c) && SaleNumbersUnique(c.state.sales) && SaleSettled(c.state, manual, key)
    requires Try(c.state, CancelSale(tenant, id)).Done?
    requires key.kind == OUT && id in c.state.sales && SaleMatches(c.state.sales[id], key)
    ensures var next := Next(c, Atomic(CancelSale(tenant, id)));
            var s := Play(next, es).state;
            && id in s.sales && s.sales[id] == c.state.sales[id].(status := SalesCancelled)
            && RowCount(s.ledger, key) == manual + ManualIn(next, es, key)
  {
    var next := Next(c, Atomic(CancelSale(tenant, id)));
    JustCancelled(c, tenant, id, manual, key);
    SalesMoveStockOnce(next, es, manual, key);
    CancelledStays(next, es, id);
    SettledWithoutRows(Play(next, es).state, id, manual + ManualIn(next, es, key), key);
  }
}
