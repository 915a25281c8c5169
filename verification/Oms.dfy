/** The order book: a map from ids to records whose status moves New -> Accepted/Rejected, Accepted -> Cancelled. */
module OrderManagement {
  import opened Prelude
  import opened Orders

  type Book = map<nat, Order>

  function Submitted(b: Book, o: Order): Book {
    if o.id in b then b else b[o.id := o]
  }

  predicate Has(b: Book, id: nat, status: Status) {
    id in b && b[id].status == status
  }

  function AcceptedIn(b: Book, id: nat): Book {
    if Has(b, id, New) then b[id := b[id].(status := Accepted)] else b
  }

  function RejectedIn(b: Book, id: nat, reason: Reason): Book {
    if Has(b, id, New) then b[id := b[id].(status := Rejected, reason := reason)] else b
  }

  function CancelledIn(b: Book, id: nat): Book {
    if Has(b, id, Accepted) then b[id := b[id].(status := Cancelled)] else b
  }

  class OMS {
    var orders: Book

    constructor ()
      ensures orders == map[]
    {
      orders := map[];
    }

    method Submit(o: Order) returns (ok: bool)
      modifies this
      ensures orders == Submitted(old(orders), o) && ok == (o.id !in old(orders))
    {
      if o.id in orders { return false; }
      orders := orders[o.id := o];
      return true;
    }

    method Accept(id: nat) returns (ok: bool)
      modifies this
      ensures orders == AcceptedIn(old(orders), id) && ok == Has(old(orders), id, New)
    {
      if id !in orders { return false; }
      if orders[id].status != New { return false; }
      orders := orders[id := orders[id].(status := Accepted)];
      return true;
    }

    method Reject(id: nat, reason: Reason) returns (ok: bool)
      modifies this
      ensures orders == RejectedIn(old(orders), id, reason) && ok == Has(old(orders), id, New)
    {
      if id !in orders { return false; }
      if orders[id].status != New { return false; }
      orders := orders[id := orders[id].(status := Rejected)];
      orders := orders[id := orders[id].(reason := reason)];
      return true;
    }

    method Cancel(id: nat) returns (ok: bool)
      modifies this
      ensures orders == CancelledIn(old(orders), id) && ok == Has(old(orders), id, Accepted)
    {
      if id !in orders { return false; }
      if orders[id].status != Accepted { return false; }
      orders := orders[id := orders[id].(status := Cancelled)];
      return true;
    }

    method Get(id: nat) returns (o: Option<Order>)
      ensures o == if id in orders then Some(orders[id]) else None
    {
      if id !in orders { return None; }
      return Some(orders[id]);
    }
  }
}
