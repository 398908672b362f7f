/** What a read before the transaction costs: the two bounds that stale reads break, each from any state that
    allows it. */
module StaleReads {
  import opened Sums
  import opened Store
  import opened Machine
  import opened Effects
  import Purchasing
  import Returns

  lemma PlayFour(c: Config, a: Event, b: Event, d: Event, e: Event)
    ensures Play(c, [a, b, d, e]) == Next(Next(Next(Next(c, a), b), d), e)
  {
    var last := Next(Next(Next(c, a), b), d);
    assert [a, b, d, e][1..] == [b, d, e] && Play(c, [a, b, d, e]) == Play(Next(c, a), [b, d, e]);
    assert [b, d, e][1..] == [d, e] && Play(Next(c, a), [b, d, e]) == Play(Next(Next(c, a), b), [d, e]);
    assert [d, e][1..] == [e] && Play(Next(Next(c, a), b), [d, e]) == Play(last, [e]);
    assert [e][1..] == [] && Play(last, [e]) == Play(Next(last, e), []);
  }

  /** A receipt in flight of an order whose products are all the tenant's puts its goods into stock. */
  lemma CommitPutsIn(s: State, ticket: Purchasing.ReceiveTicket, p: Id)
    requires ticket.order in s.purchases && ItemsOwned(s.products, ticket.tenant, ticket.items) && p in s.products
    ensures var s' := Commit(s, Purchasing.CommitReceive(s, ticket));
            && ticket.order in s'.purchases && ItemsOwned(s'.products, ticket.tenant, ticket.items) && p in s'.products
            && s'.products[p].stock == s.products[p].stock + Units(Bought(ticket.items), p)
  {
    ReceiveEffect(s.products, s.products, ticket.tenant, ticket.items);
  }

  /** Two receipts of one order that read before either commits both put its goods into stock. */
  lemma OverlappingReceiptsDoubleTheStock(c: Config, tenant: Id, id: Id, p: Id)
    requires id in c.state.purchases && c.state.purchases[id].tenant == tenant
    requires c.state.purchases[id].status != PurchaseReceived
    requires ItemsOwned(c.state.products, tenant, c.state.purchases[id].items) && p in c.state.products
    ensures var after :=
            Play(c, [BeginReceive(0, tenant, id), BeginReceive(1, tenant, id), CommitReceive(0),
                     CommitReceive(1)]).state;
            Stock(after.products, p) == c.state.products[p].stock + 2 * Units(Bought(c.state.purchases[id].items), p)
  {
    var items := c.state.purchases[id].items;
    var ticket := Purchasing.ReceiveTicket(tenant, id, items);
    PlayFour(c, BeginReceive(0, tenant, id), BeginReceive(1, tenant, id), CommitReceive(0), CommitReceive(1));
    var read := Next(Next(c, BeginReceive(0, tenant, id)), BeginReceive(1, tenant, id));
    assert read.state == c.state && read.receiving == c.receiving[0 := ticket][1 := ticket];
    var once := Next(read, CommitReceive(0));
    assert once.receiving[1] == ticket;
    CommitPutsIn(c.state, ticket, p);
    CommitPutsIn(once.state, ticket, p);
  }

  /** The sequential calls do not: the second is turned away. */
  lemma SequentialReceiptIsTurnedAway(s: State, tenant: Id, id: Id)
    ensures var op := ReceivePurchase(tenant, id); Try(s, op).Done? ==> Step(Step(s, op), op) == Step(s, op)
  {
  }

  /** An order line with units left to return, whose return the store can take. */
  ghost predicate Returnable(s: State, tenant: Id, id: Id, k: nat) {
    && id in s.sales && s.sales[id].tenant == tenant && s.sales[id].status == SalesCompleted
    && k < |s.sales[id].items|
    && s.sales[id].items[k].returned < s.sales[id].items[k].quantity
    && Owned(s.products, s.sales[id].items[k].product, tenant)
  }

  function AllThatIsLeft(item: OrderItem, k: nat): Returns.ReturnLine
    requires item.returned < item.quantity
  {
    Returns.ReturnLine(k, item.quantity - item.returned)
  }

  lemma CheckOne(items: seq<OrderItem>, line: Returns.ReturnLine)
    requires line.item < |items| && line.quantity <= items[line.item].quantity - items[line.item].returned
    ensures Returns.CheckLines(items, [line]) == Done([Returns.Checked(items[line.item], line)])
    ensures Returns.CheckLines(items, [line, line])
         == Done([Returns.Checked(items[line.item], line), Returns.Checked(items[line.item], line)])
  {
    var row := Returns.Checked(items[line.item], line);
    assert [line][1..] == [] && [line, line][1..] == [line];
    assert Returns.CheckLines(items, []) == Done([]);
    assert [row] + [] == [row] && [row] + [row] == [row, row];
  }

  lemma MarkedTwice(row: ReturnItem)
    ensures SumOver([row], MarkedOf(row.item)) == row.quantity
    ensures SumOver([row, row], MarkedOf(row.item)) == 2 * row.quantity
  {
  }

  /** A request that names one line twice is checked line by line, so it can bring back more than was sold. */
  lemma RepeatedLineOverReturns(s: State, tenant: Id, number: string, id: Id, k: nat)
    requires Returnable(s, tenant, id, k) && !Returns.NumberTaken(s.salesReturns, tenant, number)
    ensures var item := s.sales[id].items[k];
            var line := AllThatIsLeft(item, k);
            var after := Returns.CreateReturn(s, tenant, number, id, [line, line]);
            && after.Done? && id in after.value.sales && k < |after.value.sales[id].items|
            && after.value.sales[id].items[k].returned == item.quantity + line.quantity
  {
    var items := s.sales[id].items;
    var line := AllThatIsLeft(items[k], k);
    var row := Returns.Checked(items[k], line);
    CheckOne(items, line);
    MarkReturnedEffect(items, [row, row]);
    PutBackEffect(s.products, tenant, Brought([row, row]));
    MarkedTwice(row);
  }

  lemma CommitOne(s: State, number: string, t: Returns.ReturnTicket, k: nat, row: ReturnItem)
    requires t.order in s.sales && s.sales[t.order].tenant == t.tenant && t.lines == [row] && row.item == k
    requires k < |s.sales[t.order].items| && Owned(s.products, row.product, t.tenant)
    requires !Returns.NumberTaken(s.salesReturns, t.tenant, number)
    ensures var after := Returns.CommitReturn(s, number, t);
            && after.Done? && t.order in after.value.sales && k < |after.value.sales[t.order].items|
            && after.value.sales[t.order].tenant == t.tenant
            && after.value.sales[t.order].items[k].returned == s.sales[t.order].items[k].returned + row.quantity
            && Owned(after.value.products, row.product, t.tenant)
            && after.value.salesReturns == s.salesReturns + [SalesReturn(t.tenant, number, t.order, row.refund, [row])]
  {
    MarkReturnedEffect(s.sales[t.order].items, [row]);
    PutBackEffect(s.products, t.tenant, Brought([row]));
    MarkedTwice(row);
    assert [row][1..] == [] && SumOver([row], Returns.RefundOf) == row.refund;
  }

  /** Two returns of all that is left of a line, both read before either commits, bring it back twice. */
  lemma OverlappingReturnsOverReturn(c: Config, tenant: Id, n0: string, n1: string, id: Id, k: nat)
    requires Returnable(c.state, tenant, id, k) && n0 != n1
    requires !Returns.NumberTaken(c.state.salesReturns, tenant, n0)
               && !Returns.NumberTaken(c.state.salesReturns, tenant, n1)
    ensures var item := c.state.sales[id].items[k];
            var line := AllThatIsLeft(item, k);
            var after := Play(c, [BeginReturn(0, tenant, n0, id, [line]), BeginReturn(1, tenant, n1, id, [line]),
                                  CommitReturn(0), CommitReturn(1)]).state;
            && id in after.sales && k < |after.sales[id].items|
            && after.sales[id].items[k].returned == item.quantity + line.quantity
  {
    var items := c.state.sales[id].items;
    var line := AllThatIsLeft(items[k], k);
    var row := Returns.Checked(items[k], line);
    var t: Returns.ReturnTicket := Returns.ReturnRead(tenant, id, items, [row]);
    PlayFour(c, BeginReturn(0, tenant, n0, id, [line]), BeginReturn(1, tenant, n1, id, [line]), CommitReturn(0),
             CommitReturn(1));
    BothRead(c, tenant, n0, n1, id, k, t);
    CommitOne(c.state, n0, t, k, row);
    CommitOne(Returns.CommitReturn(c.state, n0, t).value, n1, t, k, row);
    BothCommit(c, n0, n1, t);
  }

  lemma BothCommit(c: Config, n0: string, n1: string, t: Returns.ReturnTicket)
    requires Returns.CommitReturn(c.state, n0, t).Done?
    requires Returns.CommitReturn(Returns.CommitReturn(c.state, n0, t).value, n1, t).Done?
    ensures var read := c.(returning := c.returning[0 := PendingReturn(n0, t)][1 := PendingReturn(n1, t)]);
            var once := Returns.CommitReturn(c.state, n0, t).value;
            Next(Next(read, CommitReturn(0)), CommitReturn(1)).state == Returns.CommitReturn(once, n1, t).value
  {
  }

  lemma BothRead(c: Config, tenant: Id, n0: string, n1: string, id: Id, k: nat, t: Returns.ReturnTicket)
    requires Returnable(c.state, tenant, id, k)
    requires var items := c.state.sales[id].items;
             t == Returns.ReturnRead(tenant, id, items, [Returns.Checked(items[k], AllThatIsLeft(items[k], k))])
    ensures var line := AllThatIsLeft(c.state.sales[id].items[k], k);
            Next(Next(c, BeginReturn(0, tenant, n0, id, [line])), BeginReturn(1, tenant, n1, id, [line]))
              == c.(returning := c.returning[0 := PendingReturn(n0, t)][1 := PendingReturn(n1, t)])
  {
    CheckOne(c.state.sales[id].items, AllThatIsLeft(c.state.sales[id].items[k], k));
  }
}
