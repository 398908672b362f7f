/** `ReturnsService`: validation against one read, then the transaction, refining the step of the machine. */
module ReturnsService {
  import opened Cents
  import opened Sums
  import opened Store
  import opened Machine
  import opened Database
  import opened Effects
  import R = Returns

  /** The validated return, with the refund the loop added up. */
  datatype Validated = Validated(ticket: R.ReturnTicket, totalRefund: Cents)

  lemma OneMoreRow(lines: seq<ReturnItem>, i: nat, tenant: Id, number: string)
    requires i < |lines|
    ensures Rows(RETURN, Brought(lines[..i + 1]), tenant, number)
         == Rows(RETURN, Brought(lines[..i]), tenant, number)
            + [Entry(RETURN, lines[i].product, tenant, lines[i].quantity, Some(number))]
  {
  }

  lemma Regroup(items: seq<ReturnItem>, item: ReturnItem, rest: seq<ReturnItem>)
    ensures items + ([item] + rest) == (items + [item]) + rest
  {
  }

  /** Past the two keys, a return commits or a row is not found. */
  lemma OnlyRecordNotFound(s: State, number: string, ticket: R.ReturnTicket)
    requires !R.NumberTaken(s.salesReturns, ticket.tenant, number) && ticket.order in s.sales
    ensures var r, order := R.CommitReturn(s, number, ticket), s.sales[ticket.order];
            var items, products := R.MarkReturned(order.items, ticket.lines),
                R.PutBack(s.products, ticket.tenant, Brought(ticket.lines));
            if items.Done? && products.Done? && order.tenant == ticket.tenant then
              var reversed := order.(items := items.value,
                totalProfit :=
                    ToCents(order.totalProfit as real - R.Reversed(ticket.snapshot, ticket.lines, R.UnitProfit)),
                totalCogs := ToCents(order.totalCogs as real - R.Reversed(ticket.snapshot, ticket.lines, R.UnitCogs)));
              var row := SalesReturn(ticket.tenant, number, ticket.order, SumOver(ticket.lines, R.RefundOf),
                                     ticket.lines);
              r == Done(s.(products := products.value, sales := s.sales[ticket.order := reversed],
                           salesReturns := s.salesReturns + [row],
                           ledger := s.ledger + Rows(RETURN, Brought(ticket.lines), ticket.tenant, number)))
            else r == Failed(RecordNotFound)
  {
    MarkReturnedEffect(s.sales[ticket.order].items, ticket.lines);
    PutBackEffect(s.products, ticket.tenant, Brought(ticket.lines));
  }

  class Service {
    const prisma: Prisma

    constructor (prisma: Prisma)
      ensures this.prisma == prisma
    {
      this.prisma := prisma;
    }

    /** The validation loop: every line against the same snapshot, refunds added up on the way. */
    method Validate(snapshot: seq<OrderItem>, lines: seq<R.ReturnLine>)
      returns (checked: Attempt<seq<ReturnItem>>, totalRefund: Cents)
      ensures checked == R.CheckLines(snapshot, lines)
      ensures checked.Done? ==> totalRefund == SumOver(checked.value, R.RefundOf)
    {
      var toCreate: seq<ReturnItem> := [];
      totalRefund := 0;
      assert lines[0..] == lines;
      if R.CheckLines(snapshot, lines).Done? {
        assert toCreate + R.CheckLines(snapshot, lines).value == R.CheckLines(snapshot, lines).value;
      }
      var i := 0;
      while i < |lines|
        invariant 0 <= i <= |lines|
        invariant totalRefund == SumOver(toCreate, R.RefundOf)
        invariant var rest := R.CheckLines(snapshot, lines[i..]);
                  var all := R.CheckLines(snapshot, lines);
                  if rest.Done? then all == Done(toCreate + rest.value) else all == rest
      {
        var line := lines[i];
        assert lines[i..][0] == line && lines[i..][1..] == lines[i + 1..];
        if line.item >= |snapshot| {
          return Failed(BadRequestException), 0;
        }
        var item := snapshot[line.item];
        var remainingReturnable := item.quantity - item.returned;
        if line.quantity > remainingReturnable {
          return Failed(BadRequestException), 0;
        }
        var refund := item.unitPrice * line.quantity;
        var row := ReturnItem(line.item, line.quantity, refund, item.product);
        SumSnoc(toCreate, row, R.RefundOf);
        ghost var rest := R.CheckLines(snapshot, lines[i + 1..]);
        if rest.Done? { Regroup(toCreate, row, rest.value); }
        totalRefund := totalRefund + refund;
        toCreate := toCreate + [row];
        i := i + 1;
      }
      assert toCreate + [] == toCreate;
      return Done(toCreate), totalRefund;
    }

    /** Everything `createReturn` does before its transaction. */
    method ReadAndValidate(tenant: Id, order: Id, lines: seq<R.ReturnLine>) returns (validated: Attempt<Validated>)
      ensures var r := R.ReadReturn(prisma.Snapshot(), tenant, order, lines);
              if r.Done? then validated == Done(Validated(r.value, SumOver(r.value.lines, R.RefundOf)))
              else validated == Failed(r.error)
    {
      if order !in prisma.sales || prisma.sales[order].tenant != tenant {
        return Failed(NotFoundException);
      }
      if prisma.sales[order].status != SalesCompleted {
        return Failed(BadRequestException);
      }
      var snapshot := prisma.sales[order].items;
      var checked, totalRefund := Validate(snapshot, lines);
      if checked.Failed? {
        return Failed(checked.error);
      }
      return Done(Validated(R.ReturnRead(tenant, order, snapshot, checked.value), totalRefund));
    }

    /** One line of the transaction: its returned quantity, its product's stock and its RETURN row. */
    method PutBackLine(order: Id, line: ReturnItem, tenant: Id, number: string) returns (error: Option<Error>)
      requires order in prisma.sales
      modifies prisma`products, prisma`sales, prisma`ledger
      ensures order in prisma.sales
      ensures var items := old(prisma.sales)[order].items;
              if line.item < |items| && Owned(old(prisma.products), line.product, tenant) then
                && error == None
                && prisma.sales == old(prisma.sales)[order := old(prisma.sales)[order].(items := R.Mark(items, line))]
                && prisma.products == R.PutIn(old(prisma.products), Move(line.product, line.quantity))
                && prisma.ledger
                    == old(prisma.ledger) + [Entry(RETURN, line.product, tenant, line.quantity, Some(number))]
              else error == Some(RecordNotFound)
    {
      var current := prisma.sales[order];
      if line.item >= |current.items| {
        return Some(RecordNotFound);
      }
      var item := current.items[line.item];
      var items := current.items[line.item := item.(returned := item.returned + line.quantity)];
      prisma.sales := prisma.sales[order := current.(items := items)];
      var ok := prisma.AddStock(line.product, tenant, line.quantity);
      if !ok {
        return Some(RecordNotFound);
      }
      prisma.CreateStockTransaction(Entry(RETURN, line.product, tenant, line.quantity, Some(number)));
      return None;
    }

    /** The first loop of the transaction: returned quantities, stock and RETURN rows, line by line. */
    method PutBackLines(ticket: R.ReturnTicket, number: string) returns (error: Option<Error>)
      requires ticket.order in prisma.sales
      modifies prisma`products, prisma`sales, prisma`ledger
      ensures ticket.order in prisma.sales
      ensures var items := R.MarkReturned(old(prisma.sales)[ticket.order].items, ticket.lines);
              var products := R.PutBack(old(prisma.products), ticket.tenant, Brought(ticket.lines));
              if items.Done? && products.Done? then
                && error == None
                && prisma.products == products.value
                && prisma.sales
                    == old(prisma.sales)[ticket.order := old(prisma.sales)[ticket.order].(items := items.value)]
                && prisma.ledger == old(prisma.ledger) + Rows(RETURN, Brought(ticket.lines), ticket.tenant, number)
              else error == Some(RecordNotFound)
    {
      var lines := ticket.lines;
      ghost var order, products, sales, rows := prisma.sales[ticket.order], prisma.products, prisma.sales,
          prisma.ledger;
      var i := 0;
      while i < |lines|
        invariant 0 <= i <= |lines|
        invariant ticket.order in prisma.sales
        invariant prisma.sales == sales[ticket.order := order.(items := prisma.sales[ticket.order].items)]
        invariant R.MarkReturned(prisma.sales[ticket.order].items, lines[i..]) == R.MarkReturned(order.items, lines)
        invariant R.PutBack(prisma.products, ticket.tenant, Brought(lines[i..]))
                    == R.PutBack(products, ticket.tenant, Brought(lines))
        invariant prisma.ledger == rows + Rows(RETURN, Brought(lines[..i]), ticket.tenant, number)
      {
        var line := lines[i];
        assert lines[i..][0] == line && lines[i..][1..] == lines[i + 1..];
        assert Brought(lines[i..])[1..] == Brought(lines[i + 1..]);
        error := PutBackLine(ticket.order, line, ticket.tenant, number);
        if error != None {
          return;
        }
        OneMoreRow(lines, i, ticket.tenant, number);
        i := i + 1;
      }
      assert lines[..|lines|] == lines && lines[|lines|..] == [];
      return None;
    }

    /** One line of the reversal, by its unit cost and margin. */
    method ReversalOf(item: OrderItem, quantity: Quantity) returns (profit: real, cogs: real)
      ensures profit == R.UnitProfit(item) * quantity as real
      ensures cogs == R.UnitCogs(item) * quantity as real
    {
      var unitCogs := item.cogs as real / item.quantity as real;
      var unitProfitMargin := item.unitPrice as real - unitCogs;
      profit := unitProfitMargin * quantity as real;
      cogs := unitCogs * quantity as real;
    }

    /** The second loop: COGS and profit of what came back, by exact quotients. */
    method Reversal(ticket: R.ReturnTicket) returns (returnedProfitMargin: real, returnedCogs: real)
      ensures returnedProfitMargin == R.Reversed(ticket.snapshot, ticket.lines, R.UnitProfit)
      ensures returnedCogs == R.Reversed(ticket.snapshot, ticket.lines, R.UnitCogs)
    {
      returnedProfitMargin, returnedCogs := 0.0, 0.0;
      var lines := ticket.lines;
      var i := 0;
      while i < |lines|
        invariant 0 <= i <= |lines|
        invariant returnedProfitMargin + R.Reversed(ticket.snapshot, lines[i..], R.UnitProfit)
               == R.Reversed(ticket.snapshot, lines, R.UnitProfit)
        invariant returnedCogs + R.Reversed(ticket.snapshot, lines[i..], R.UnitCogs)
               == R.Reversed(ticket.snapshot, lines, R.UnitCogs)
      {
        assert lines[i..][0] == lines[i] && lines[i..][1..] == lines[i + 1..];
        var profit, cogs := ReversalOf(ticket.snapshot[lines[i].item], lines[i].quantity);
        returnedProfitMargin, returnedCogs := returnedProfitMargin + profit, returnedCogs + cogs;
        i := i + 1;
      }
    }

    /** `salesOrder.update({ where: { id, tenantId }, ... })`: the two totals decremented and stored. */
    method ReverseTotals(ticket: R.ReturnTicket) returns (error: Option<Error>)
      requires ticket.order in prisma.sales
      modifies prisma`sales
      ensures var order := old(prisma.sales)[ticket.order];
              if order.tenant != ticket.tenant then error == Some(RecordNotFound) else
                && error == None
                && prisma.sales == old(prisma.sales)[ticket.order := order.(
                     totalProfit :=
                         ToCents(order.totalProfit as real - R.Reversed(ticket.snapshot, ticket.lines, R.UnitProfit)),
                     totalCogs :=
                         ToCents(order.totalCogs as real - R.Reversed(ticket.snapshot, ticket.lines, R.UnitCogs)))]
    {
      var returnedProfitMargin, returnedCogs := Reversal(ticket);
      var order := prisma.sales[ticket.order];
      if order.tenant != ticket.tenant {
        return Some(RecordNotFound);
      }
      prisma.sales := prisma.sales[ticket.order := order.(
        totalProfit := ToCents(order.totalProfit as real - returnedProfitMargin),
        totalCogs := ToCents(order.totalCogs as real - returnedCogs))];
      return None;
    }

    /** What the transaction writes once its keys are found: the return, its lines, and the totals of its order. */
    method WriteReturn(number: string, v: Validated) returns (error: Option<Error>)
      requires v.totalRefund == SumOver(v.ticket.lines, R.RefundOf)
      requires !R.NumberTaken(prisma.salesReturns, v.ticket.tenant, number) && v.ticket.order in prisma.sales
      modifies prisma
      ensures var r := R.CommitReturn(old(prisma.Snapshot()), number, v.ticket);
              error == Raised(r) && (r.Done? ==> prisma.Snapshot() == r.value)
    {
      OnlyRecordNotFound(prisma.Snapshot(), number, v.ticket);
      prisma.salesReturns := prisma.salesReturns
        + [SalesReturn(v.ticket.tenant, number, v.ticket.order, v.totalRefund, v.ticket.lines)];
      error := PutBackLines(v.ticket, number);
      if error == None {
        error := ReverseTotals(v.ticket);
        assert error == None ==> prisma.sales == old(prisma.sales)[v.ticket.order := prisma.sales[v.ticket.order]];
      }
    }

    /** The transaction, however long after the read. */
    method CommitReturn(number: string, v: Validated) returns (error: Option<Error>)
      requires v.totalRefund == SumOver(v.ticket.lines, R.RefundOf)
      modifies prisma
      ensures var r := R.CommitReturn(old(prisma.Snapshot()), number, v.ticket);
              prisma.Snapshot() == Commit(old(prisma.Snapshot()), r) && error == Raised(r)
    {
      var before := prisma.Snapshot();
      if R.NumberTaken(prisma.salesReturns, v.ticket.tenant, number) {
        return Some(UniqueViolation);
      }
      if v.ticket.order !in prisma.sales {
        return Some(ForeignKeyViolation);
      }
      error := WriteReturn(number, v);
      if error != None {
        prisma.Restore(before);
      }
    }

    method CreateReturn(tenant: Id, number: string, order: Id, lines: seq<R.ReturnLine>) returns (error: Option<Error>)
      modifies prisma
      ensures var op := Op.CreateReturn(tenant, number, order, lines);
              && prisma.Snapshot() == Step(old(prisma.Snapshot()), op)
              && error == Raised(Try(old(prisma.Snapshot()), op))
    {
      var validated := ReadAndValidate(tenant, order, lines);
      if validated.Failed? {
        return Some(validated.error);
      }
      error := CommitReturn(number, validated.value);
    }
  }
}
