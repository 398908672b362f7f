/** `PurchaseService`: the calls as they run against the tables, each refining its step of the machine. */
module PurchaseService {
  import opened Cents
  import opened Store
  import opened Machine
  import opened Database
  import P = Purchasing

  lemma OneMoreRow(items: seq<PurchaseItem>, i: nat, tenant: Id, number: string)
    requires i < |items|
    ensures Rows(IN, Bought(items[..i + 1]), tenant, number)
         == Rows(IN, Bought(items[..i]), tenant, number)
             + [Entry(IN, items[i].product, tenant, items[i].quantity, Some(number))]
  {
  }

  class Service {
    const prisma: Prisma

    constructor (prisma: Prisma)
      ensures this.prisma == prisma
    {
      this.prisma := prisma;
    }

    /** The stored average after one receipt, computed as the service does. */
    method AverageAfter(product: Product, item: PurchaseItem) returns (averageCost: Cents)
      ensures averageCost == P.NewAverage(product, item)
    {
      var totalValueOld := product.averageCost as real * product.stock as real;
      var totalValueNew := (item.unitPrice * item.quantity) as real;
      var newTotalStock := product.stock + item.quantity;
      var newAverageCost := if newTotalStock > 0 then (totalValueOld + totalValueNew) / newTotalStock as real
                            else item.unitPrice as real;
      assert newAverageCost
          == P.WeightedAverage(product.averageCost as real, product.stock, item.unitPrice, item.quantity);
      averageCost := ToCents(newAverageCost);
    }

    /** The body of the receiving loop for one item: the IN row, then the product. */
    method ReceiveOne(item: PurchaseItem, snapshot: Products, number: string, tenant: Id) returns (error: Option<Error>)
      modifies prisma`products, prisma`ledger
      ensures error == if item.product !in snapshot then Some(UndefinedProduct)
                       else if !Owned(old(prisma.products), item.product, tenant) then Some(RecordNotFound) else None
      ensures error == None ==>
                && prisma.products == P.Receive(snapshot, old(prisma.products), item)
                && prisma.ledger == old(prisma.ledger) + [Entry(IN, item.product, tenant, item.quantity, Some(number))]
    {
      if item.product !in snapshot {
        return Some(UndefinedProduct);
      }
      var newAverageCost := AverageAfter(snapshot[item.product], item);
      prisma.CreateStockTransaction(Entry(IN, item.product, tenant, item.quantity, Some(number)));
      var ok := prisma.ReceiveProduct(item.product, tenant, item.quantity, newAverageCost);
      return if ok then None else Some(RecordNotFound);
    }

    /** The loop over received items, inside the caller's transaction. */
    method ProcessReceivedItems(items: seq<PurchaseItem>, number: string, tenant: Id) returns (error: Option<Error>)
      modifies prisma`products, prisma`ledger
      ensures var r := P.ProcessReceivedItems(old(prisma.Snapshot()), tenant, number, items);
              if r.Done? then error == None && prisma.Snapshot() == r.value else error == Some(r.error)
    {
      var ids := set item | item in items :: item.product;
      var productMap := prisma.FindProducts(ids, tenant);
      ghost var snapshot, rows := prisma.products, prisma.ledger;
      var i := 0;
      while i < |items|
        invariant 0 <= i <= |items|
        invariant P.ReceiveItems(snapshot, prisma.products, tenant, items[i..])
                    == P.ReceiveItems(snapshot, snapshot, tenant, items)
        invariant prisma.ledger == rows + Rows(IN, Bought(items[..i]), tenant, number)
      {
        var item := items[i];
        assert items[i..][0] == item && items[i..][1..] == items[i + 1..];
        assert item.product in ids;
        error := ReceiveOne(item, productMap, number, tenant);
        if error != None {
          return;
        }
        OneMoreRow(items, i, tenant, number);
        i := i + 1;
      }
      assert items[..|items|] == items && items[|items|..] == [];
      return None;
    }

    method CreatePurchaseOrder(tenant: Id, id: Id, number: string, supplier: Id, items: seq<PurchaseItem>)
      returns (error: Option<Error>)
      modifies prisma
      ensures var op := CreatePurchase(tenant, id, number, supplier, items);
              && prisma.Snapshot() == Step(old(prisma.Snapshot()), op)
              && error == Raised(Try(old(prisma.Snapshot()), op))
    {
      var before := prisma.Snapshot();
      error := prisma.CreatePurchaseOrder(id,
                                PurchaseOrder(tenant, number, supplier, PurchaseReceived, items, P.TotalPrice(items)));
      if error == None {
        error := ProcessReceivedItems(items, number, tenant);
      }
      if error != None {
        prisma.Restore(before);
      }
    }

    method CreatePendingPurchaseOrder(tenant: Id, id: Id, number: string, supplier: Id, items: seq<PurchaseItem>)
      returns (error: Option<Error>)
      modifies prisma
      ensures var op := CreatePendingPurchase(tenant, id, number, supplier, items);
              && prisma.Snapshot() == Step(old(prisma.Snapshot()), op)
              && error == Raised(Try(old(prisma.Snapshot()), op))
    {
      error := prisma.CreatePurchaseOrder(id,
                                  PurchaseOrder(tenant, number, supplier, PurchasePending, items, P.TotalPrice(items)));
    }

    /** The read before the transaction. */
    method ReadPurchaseOrder(tenant: Id, id: Id) returns (ticket: Attempt<P.ReceiveTicket>)
      ensures ticket == P.ReadReceive(prisma.Snapshot(), tenant, id)
    {
      if id !in prisma.purchases || prisma.purchases[id].tenant != tenant {
        return Failed(NotFoundException);
      }
      if prisma.purchases[id].status == PurchaseReceived {
        return Failed(BadRequestException);
      }
      return Done(P.ReceiveTicket(tenant, id, prisma.purchases[id].items));
    }

    /** The transaction, however long after the read. */
    method CommitReceipt(ticket: P.ReceiveTicket) returns (error: Option<Error>)
      modifies prisma
      ensures var r := P.CommitReceive(old(prisma.Snapshot()), ticket);
              prisma.Snapshot() == Commit(old(prisma.Snapshot()), r) && error == Raised(r)
    {
      var before := prisma.Snapshot();
      if ticket.order !in prisma.purchases {
        return Some(RecordNotFound);
      }
      var order := prisma.purchases[ticket.order].(status := PurchaseReceived);
      prisma.purchases := prisma.purchases[ticket.order := order];
      error := ProcessReceivedItems(ticket.items, order.number, ticket.tenant);
      if error != None {
        prisma.Restore(before);
      }
    }

    method ReceivePurchaseOrder(tenant: Id, id: Id) returns (error: Option<Error>)
      modifies prisma
      ensures var op := ReceivePurchase(tenant, id);
              && prisma.Snapshot() == Step(old(prisma.Snapshot()), op)
              && error == Raised(Try(old(prisma.Snapshot()), op))
    {
      var ticket := ReadPurchaseOrder(tenant, id);
      if ticket.Failed? {
        return Some(ticket.error);
      }
      error := CommitReceipt(ticket.value);
    }

    method CancelPurchaseOrder(tenant: Id, id: Id) returns (error: Option<Error>)
      modifies prisma
      ensures var op := CancelPurchase(tenant, id);
              && prisma.Snapshot() == Step(old(prisma.Snapshot()), op)
              && error == Raised(Try(old(prisma.Snapshot()), op))
    {
      var count := 0;
      if id in prisma.purchases && prisma.purchases[id].tenant == tenant
          && prisma.purchases[id].status == PurchasePending {
        prisma.purchases := prisma.purchases[id := prisma.purchases[id].(status := PurchaseCancelled)];
        count := 1;
      }
      if count == 0 {
        if id !in prisma.purchases || prisma.purchases[id].tenant != tenant {
          return Some(NotFoundException);
        }
        return Some(BadRequestException);
      }
      return None;
    }
  }
}
