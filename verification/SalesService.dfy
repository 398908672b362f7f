/** `SalesService`: the calls as they run against the tables, each refining its step of the machine. */
module SalesService {
  import opened Cents
  import opened Sums
  import opened Store
  import opened Machine
  import opened Database
  import S = Sales

  /** What the pricing loop hands to the order: the items and the three running totals. */
  datatype OrderItems = OrderItems(items: seq<OrderItem>, totalCogs: Cents, totalProfit: Cents, totalPrice: Cents)

  ghost predicate Totalled(b: OrderItems) {
    && b.totalCogs == SumOver(b.items, S.ItemCogs)
    && b.totalProfit == SumOver(b.items, S.ItemProfit)
    && b.totalPrice == SumOver(b.items, S.ItemPrice)
  }

  lemma OneMoreRow(moves: seq<Move>, i: nat, tenant: Id, number: string)
    requires i < |moves|
    ensures Rows(OUT, moves[..i + 1], tenant, number)
         == Rows(OUT, moves[..i], tenant, number)
             + [Entry(OUT, moves[i].product, tenant, moves[i].quantity, Some(number))]
  {
  }

  lemma OneMoreItem(b: OrderItems, item: OrderItem)
    requires Totalled(b)
    ensures Totalled(OrderItems(b.items + [item], b.totalCogs + item.cogs, b.totalProfit + item.profitMargin,
                                b.totalPrice + item.unitPrice * item.quantity))
  {
    SumSnoc(b.items, item, S.ItemCogs);
    SumSnoc(b.items, item, S.ItemProfit);
    SumSnoc(b.items, item, S.ItemPrice);
  }

  lemma Regroup(items: seq<OrderItem>, item: OrderItem, rest: seq<OrderItem>)
    ensures items + ([item] + rest) == (items + [item]) + rest
  {
  }

  class Service {
    const prisma: Prisma

    constructor (prisma: Prisma)
      ensures this.prisma == prisma
    {
      this.prisma := prisma;
    }

    /** The pricing loop: items priced at today's averages, and the running totals. */
    method BuildOrderItemsData(lines: seq<S.SaleLine>, tenant: Id) returns (built: Attempt<OrderItems>)
      ensures var r := S.BuildItems(prisma.products, tenant, lines);
              if r.Done? then built.Done? && built.value.items == r.value && Totalled(built.value)
                  else built == Failed(r.error)
    {
      var ids := set line | line in lines :: line.product;
      var productMap := prisma.FindProducts(ids, tenant);
      var b := OrderItems([], 0, 0, 0);
      var i := 0;
      assert lines[0..] == lines;
      if S.BuildItems(prisma.products, tenant, lines).Done? {
        assert b.items + S.BuildItems(prisma.products, tenant, lines).value
            == S.BuildItems(prisma.products, tenant, lines).value;
      }
      while i < |lines|
        invariant 0 <= i <= |lines|
        invariant Totalled(b)
        invariant var rest := S.BuildItems(prisma.products, tenant, lines[i..]);
                  var all := S.BuildItems(prisma.products, tenant, lines);
                  if rest.Done? then all == Done(b.items + rest.value) else all == rest
      {
        var line := lines[i];
        assert lines[i..][0] == line && lines[i..][1..] == lines[i + 1..];
        assert line.product in ids;
        if line.product !in productMap {
          return Failed(NotFoundException);
        }
        var unitCost := productMap[line.product].averageCost;
        var itemCogs := unitCost * line.quantity;
        var itemProfitMargin := (line.unitPrice - unitCost) * line.quantity;
        var item := OrderItem(line.product, line.quantity, line.unitPrice, itemCogs, itemProfitMargin, 0);
        OneMoreItem(b, item);
        ghost var rest := S.BuildItems(prisma.products, tenant, lines[i + 1..]);
        if rest.Done? { Regroup(b.items, item, rest.value); }
        b := OrderItems(b.items + [item], b.totalCogs + itemCogs, b.totalProfit + itemProfitMargin,
                        b.totalPrice + line.unitPrice * line.quantity);
        i := i + 1;
      }
      assert b.items + [] == b.items;
      return Done(b);
    }

    /** The stock-out loop, inside the caller's transaction: what a failing line leaves behind is rolled back there. */
    method ProcessStockOut(moves: seq<Move>, number: string, tenant: Id) returns (error: Option<Error>)
      modifies prisma`products, prisma`ledger
      ensures var r := S.ProcessStockOut(old(prisma.Snapshot()), tenant, number, moves);
              if r.Done? then error == None && prisma.Snapshot() == r.value else error == Some(r.error)
    {
      ghost var products, rows := prisma.products, prisma.ledger;
      var i := 0;
      while i < |moves|
        invariant 0 <= i <= |moves|
        invariant S.StockOut(prisma.products, tenant, moves[i..]) == S.StockOut(products, tenant, moves)
        invariant prisma.ledger == rows + Rows(OUT, moves[..i], tenant, number)
      {
        var item := moves[i];
        assert moves[i..][0] == item && moves[i..][1..] == moves[i + 1..];
        var ok := prisma.MoveStock(item.product, tenant, -(item.quantity as int), item.quantity);
        if !ok {
          return Some(BadRequestException);
        }
        prisma.CreateStockTransaction(Entry(OUT, item.product, tenant, item.quantity, Some(number)));
        OneMoreRow(moves, i, tenant, number);
        i := i + 1;
      }
      assert moves[..|moves|] == moves && moves[|moves|..] == [];
      return None;
    }

    method CreateSalesOrder(tenant: Id, id: Id, number: string, now: int, lines: seq<S.SaleLine>)
            returns (error: Option<Error>)
      modifies prisma
      ensures var op := CreateSale(tenant, id, number, now, lines);
              && prisma.Snapshot() == Step(old(prisma.Snapshot()), op)
              && error == Raised(Try(old(prisma.Snapshot()), op))
    {
      var before := prisma.Snapshot();
      var built := BuildOrderItemsData(lines, tenant);
      if built.Failed? {
        return Some(built.error);
      }
      var b := built.value;
      error := prisma.CreateSalesOrder(id,
        SalesOrder(tenant, number, SalesCompleted, now, b.items, b.totalPrice, b.totalCogs, b.totalProfit));
      if error == None {
        error := ProcessStockOut(S.Requested(lines), number, tenant);
      }
      if error != None {
        prisma.Restore(before);
      }
    }

    method CreatePendingSalesOrder(tenant: Id, id: Id, number: string, now: int, lines: seq<S.SaleLine>)
            returns (error: Option<Error>)
      modifies prisma
      ensures var op := CreatePendingSale(tenant, id, number, now, lines);
              && prisma.Snapshot() == Step(old(prisma.Snapshot()), op)
              && error == Raised(Try(old(prisma.Snapshot()), op))
    {
      var built := BuildOrderItemsData(lines, tenant);
      if built.Failed? {
        return Some(built.error);
      }
      var b := built.value;
      error := prisma.CreateSalesOrder(id,
        SalesOrder(tenant, number, SalesPending, now, b.items, b.totalPrice, b.totalCogs, b.totalProfit));
    }

    method CompleteSalesOrder(tenant: Id, id: Id) returns (error: Option<Error>)
      modifies prisma
      ensures var op := CompleteSale(tenant, id);
              && prisma.Snapshot() == Step(old(prisma.Snapshot()), op)
              && error == Raised(Try(old(prisma.Snapshot()), op))
    {
      var before := prisma.Snapshot();
      if id !in prisma.sales || prisma.sales[id].tenant != tenant || prisma.sales[id].status != SalesPending {
        return Some(BadRequestException);
      }
      var order := prisma.sales[id];
      prisma.sales := prisma.sales[id := order.(status := SalesCompleted)];
      error := ProcessStockOut(Sold(order.items), order.number, tenant);
      if error != None {
        prisma.Restore(before);
      }
    }

    method CancelSalesOrder(tenant: Id, id: Id) returns (error: Option<Error>)
      modifies prisma
      ensures var op := CancelSale(tenant, id);
              && prisma.Snapshot() == Step(old(prisma.Snapshot()), op)
              && error == Raised(Try(old(prisma.Snapshot()), op))
    {
      var count := 0;
      if id in prisma.sales && prisma.sales[id].tenant == tenant && prisma.sales[id].status == SalesPending {
        prisma.sales := prisma.sales[id := prisma.sales[id].(status := SalesCancelled)];
        count := 1;
      }
      if count == 0 {
        if id !in prisma.sales || prisma.sales[id].tenant != tenant {
          return Some(NotFoundException);
        }
        return Some(BadRequestException);
      }
      return None;
    }
  }
}
