/**
 * The freelancer's side of a service on the web site: the public listing,
 * editing and deleting one's own service, and the engagement state machine
 * over the orders placed on it: accepting one order (which rejects all the
 * others), rejecting or completing one order, withdrawing the service
 * (which rejects all its orders) and putting it back on offer.
 */
module WebServices {
  import opened Domain
  import opened Data
  import Listing
  import WebOrders

  // ------------------------------------------------------------ listing

  /** The public catalogue, filtered and ordered as the query string asks. */
  method Index(db: Db, q: Listing.ListQuery) returns (r: seq<(int, Service)>)
    ensures forall x :: x in r <==> x.0 in db.services && db.services[x.0] == x.1 && Listing.ServiceMatches(q, x.1)
    ensures q.sort == Some("budget_desc") ==> forall i, j :: 0 <= i < j < |r| ==> r[i].1.price >= r[j].1.price
    ensures q.sort == Some("budget_asc") ==> forall i, j :: 0 <= i < j < |r| ==> r[i].1.price <= r[j].1.price
    ensures !Listing.SortsByAmount(q) ==> forall i, j :: 0 <= i < j < |r| ==> r[i].1.createdAt >= r[j].1.createdAt
    ensures forall i, j :: 0 <= i < j < |r| ==> r[i].0 != r[j].0
  {
    var rows := Rows(db.services);
    r := Listing.ServicesQuery(rows, q);
  }

  // ------------------------------------------------------------ owner-scoped edit and delete

  /** The lookup of Edit, Delete, CancelService and ResumeService: the service with that id, if the caller offers it. */
  predicate OwnsService(services: map<int, Service>, id: int, userId: UserId) {
    id in services && services[id].freelancerId == userId
  }

  /** The edit form, filled from the caller's service. */
  method EditForm(db: Db, id: int, userId: UserId) returns (r: Result<UpdateServiceDto>)
    ensures !OwnsService(db.services, id, userId) ==> r == Err(NotFound)
    ensures OwnsService(db.services, id, userId) ==>
      var s := db.services[id]; r == Ok(UpdateServiceDto(s.title, s.description, s.price, s.status))
  {
    if !OwnsService(db.services, id, userId) {
      return Err(NotFound);
    }
    var s := db.services[id];
    r := Ok(UpdateServiceDto(s.title, s.description, s.price, s.status));
  }

  /**
   * Overwrites title, description, price and status of the caller's
   * service; any status may be set. A Price that does not convert to an int
   * makes validation throw.
   */
  method Edit(db: Db, id: int, dto: UpdateServiceDto, userId: UserId) returns (r: Result<Unit>)
    requires db.Valid()
    modifies db
    ensures db.Valid()
    ensures UpdateServiceThrows(dto) ==> r == Err(ServerError)
    ensures !UpdateServiceThrows(dto) && !ValidUpdateService(dto) ==> r == Err(InvalidModel)
    ensures ValidUpdateService(dto) && !OwnsService(old(db.services), id, userId) ==> r == Err(NotFound)
    ensures r.Err? ==> db.State() == old(db.State())
    ensures r.Ok? <==> ValidUpdateService(dto) && OwnsService(old(db.services), id, userId)
    ensures r.Ok? ==> db.State() == old(db.State()).(services := old(db.services)[id :=
      old(db.services)[id].(title := dto.title, description := dto.description, price := dto.price, status := dto.status)])
  {
    if UpdateServiceThrows(dto) {
      return Err(ServerError);
    }
    if !ValidUpdateService(dto) {
      return Err(InvalidModel);
    }
    if !OwnsService(db.services, id, userId) {
      return Err(NotFound);
    }
    db.services := db.services[id := db.services[id].(title := dto.title, description := dto.description, price := dto.price, status := dto.status)];
    r := Ok(());
  }

  /** Removes the caller's service with that id, and only that row. */
  method Delete(db: Db, id: int, userId: UserId) returns (r: Result<Unit>)
    requires db.Valid()
    modifies db
    ensures db.Valid()
    ensures !OwnsService(old(db.services), id, userId) ==> r == Err(NotFound) && db.State() == old(db.State())
    ensures OwnsService(old(db.services), id, userId) ==> r.Ok? && db.State() == old(db.State()).(services := old(db.services) - {id})
  {
    if !OwnsService(db.services, id, userId) {
      return Err(NotFound);
    }
    db.services := db.services - {id};
    r := Ok(());
  }

  function ServiceCreatedAt(r: (int, Service)): real {
    r.1.createdAt as real
  }

  /** The caller's services, newest first. */
  method MyServices(db: Db, userId: UserId) returns (r: seq<(int, Service)>)
    ensures forall x :: x in r <==> x.0 in db.services && db.services[x.0] == x.1 && x.1.freelancerId == userId
    ensures forall i, j :: 0 <= i < j < |r| ==> r[i].1.createdAt >= r[j].1.createdAt
    ensures forall i, j :: 0 <= i < j < |r| ==> r[i].0 != r[j].0
  {
    var rows := Rows(db.services);
    r := Listing.Query(rows, (x: (int, Service)) => x.1.freelancerId == userId, ServiceCreatedAt, true);
    Listing.SelectionKeepsKeysDistinct(rows, r);
  }

  // ------------------------------------------------------------ the order cascade

  /**
   * Every order of the service except `keep` becomes Rejected, whatever its
   * status was; `keep` and the orders of other services are left as they are.
   */
  function RejectOrdersOf(orders: map<int, Order>, serviceId: int, keep: Option<int>): (r: map<int, Order>)
    ensures r.Keys == orders.Keys
    ensures forall k :: k in orders ==> r[k] == if orders[k].serviceId == serviceId && keep != Some(k)
                                               then orders[k].(status := OrderStatus.Rejected) else orders[k]
  {
    map k | k in orders :: if orders[k].serviceId == serviceId && keep != Some(k)
                           then orders[k].(status := OrderStatus.Rejected) else orders[k]
  }

  /** The `foreach` over the service's orders that rejects each one but `keep`. */
  method RejectEach(db: Db, serviceId: int, keep: Option<int>)
    requires db.Valid()
    modifies db
    ensures db.Valid()
    ensures db.State() == old(db.State()).(orders := RejectOrdersOf(old(db.orders), serviceId, keep))
  {
    var ids := set k | k in db.orders && db.orders[k].serviceId == serviceId && keep != Some(k);
    var ks := Enumerate(ids);
    ghost var before := db.orders;
    var i := 0;
    while i < |ks|
      invariant 0 <= i <= |ks|
      invariant db.Valid()
      invariant db.State() == old(db.State()).(orders := db.orders)
      invariant db.orders.Keys == before.Keys
      invariant forall k :: k in before ==> db.orders[k] == if k in ks[..i] then before[k].(status := OrderStatus.Rejected) else before[k]
    {
      var k := ks[i];
      assert k in ids;
      db.orders := db.orders[k := db.orders[k].(status := OrderStatus.Rejected)];
      i := i + 1;
      assert forall j :: 0 <= j < i - 1 ==> ks[j] != k;
    }
    assert ks[..i] == ks;
    forall k | k in before ensures db.orders[k] == RejectOrdersOf(before, serviceId, keep)[k] {
      assert k in ks <==> k in ids;
    }
    assert db.orders == RejectOrdersOf(before, serviceId, keep);
  }

  /** Whether `orderId` is one of the orders placed on the service. */
  predicate OrderOf(orders: map<int, Order>, serviceId: int, orderId: int) {
    orderId in orders && orders[orderId].serviceId == serviceId
  }

  /** Why AcceptOrder refuses, in the order it checks, or None when it goes ahead. */
  function AcceptFailure(t: Tables, serviceId: int, orderId: int, userId: UserId): (r: Option<Code>)
    ensures r.None? <==> serviceId in t.services && t.services[serviceId].freelancerId == userId && OrderOf(t.orders, serviceId, orderId)
    ensures r == Some(NotFound) <==> serviceId !in t.services || (t.services[serviceId].freelancerId == userId && !OrderOf(t.orders, serviceId, orderId))
    ensures r == Some(Forbid) <==> serviceId in t.services && t.services[serviceId].freelancerId != userId
  {
    if serviceId !in t.services then Some(NotFound)
    else if t.services[serviceId].freelancerId != userId then Some(Forbid)
    else if !OrderOf(t.orders, serviceId, orderId) then Some(NotFound)
    else None
  }

  /**
   * The state after the freelancer accepts an order: it becomes Accepted,
   * its client becomes the service's selected client, and every other
   * order of the service is Rejected.
   */
  function AcceptEffect(t: Tables, serviceId: int, orderId: int): (r: Tables)
    requires serviceId in t.services && OrderOf(t.orders, serviceId, orderId)
    ensures r == t.(services := r.services, orders := r.orders)
    ensures r.services == t.services[serviceId := t.services[serviceId].(selectedClientId := Some(t.orders[orderId].clientId))]
    ensures r.orders == RejectOrdersOf(t.orders[orderId := t.orders[orderId].(status := OrderStatus.Accepted)], serviceId, Some(orderId))
  {
    var accepted := t.orders[orderId := t.orders[orderId].(status := OrderStatus.Accepted)];
    t.(services := t.services[serviceId := t.services[serviceId].(selectedClientId := Some(t.orders[orderId].clientId))],
       orders := RejectOrdersOf(accepted, serviceId, Some(orderId)))
  }

  /** Accepts one order of the caller's service and rejects all the others. */
  method AcceptOrder(db: Db, serviceId: int, orderId: int, userId: UserId) returns (r: Result<Unit>)
    requires db.Valid()
    modifies db
    ensures db.Valid()
    ensures AcceptFailure(old(db.State()), serviceId, orderId, userId).Some? ==>
      r == Err(AcceptFailure(old(db.State()), serviceId, orderId, userId).value) && db.State() == old(db.State())
    ensures AcceptFailure(old(db.State()), serviceId, orderId, userId).None? ==>
      r.Ok? && db.State() == AcceptEffect(old(db.State()), serviceId, orderId)
  {
    var failure := AcceptFailure(db.State(), serviceId, orderId, userId);
    if failure.Some? {
      return Err(failure.value);
    }
    ghost var before := db.State();
    var order := db.orders[orderId];
    db.orders := db.orders[orderId := order.(status := OrderStatus.Accepted)];
    db.services := db.services[serviceId := db.services[serviceId].(selectedClientId := Some(order.clientId))];
    RejectEach(db, serviceId, Some(orderId));
    assert db.State() == AcceptEffect(before, serviceId, orderId);
    r := Ok(());
  }

  /** After an accept, the chosen order is the one and only Accepted order of its service. */
  lemma AcceptLeavesOneAccepted(t: Tables, serviceId: int, orderId: int, k: int)
    requires serviceId in t.services && OrderOf(t.orders, serviceId, orderId)
    requires OrderOf(AcceptEffect(t, serviceId, orderId).orders, serviceId, k)
    ensures AcceptEffect(t, serviceId, orderId).orders[k].status.Accepted? <==> k == orderId
  {
  }

  /** Orders of other services are untouched by an accept. */
  lemma AcceptKeepsOtherServices(t: Tables, serviceId: int, orderId: int, k: int)
    requires serviceId in t.services && OrderOf(t.orders, serviceId, orderId)
    requires k in t.orders && t.orders[k].serviceId != serviceId
    ensures AcceptEffect(t, serviceId, orderId).orders[k] == t.orders[k]
  {
  }

  /** Accepting the same order again changes nothing. */
  lemma AcceptIdempotent(t: Tables, serviceId: int, orderId: int)
    requires serviceId in t.services && OrderOf(t.orders, serviceId, orderId)
    ensures var t1 := AcceptEffect(t, serviceId, orderId);
      serviceId in t1.services && OrderOf(t1.orders, serviceId, orderId) && AcceptEffect(t1, serviceId, orderId) == t1
  {
    var t1 := AcceptEffect(t, serviceId, orderId);
    var t2 := AcceptEffect(t1, serviceId, orderId);
    assert t2.orders == t1.orders;
    assert t2.services == t1.services;
  }

  /** Rejects one order of a service the caller offers; the order's service must still exist. */
  method RejectOrder(db: Db, orderId: int, userId: UserId) returns (r: Result<Unit>)
    requires db.Valid()
    modifies db
    ensures db.Valid()
    ensures orderId !in old(db.orders) ==> r == Err(NotFound)
    ensures orderId in old(db.orders) && old(db.orders)[orderId].serviceId !in old(db.services) ==> r == Err(ServerError)
    ensures (orderId in old(db.orders) && old(db.orders)[orderId].serviceId in old(db.services)
             && old(db.services)[old(db.orders)[orderId].serviceId].freelancerId != userId) ==> r == Err(Forbid)
    ensures r.Err? ==> db.State() == old(db.State())
    ensures r.Ok? <==> orderId in old(db.orders) && OwnsService(old(db.services), old(db.orders)[orderId].serviceId, userId)
    ensures r.Ok? ==> db.State() == old(db.State()).(orders := old(db.orders)[orderId := old(db.orders)[orderId].(status := OrderStatus.Rejected)])
  {
    if orderId !in db.orders {
      return Err(NotFound);
    }
    var order := db.orders[orderId];
    if order.serviceId !in db.services {
      return Err(ServerError);
    }
    if db.services[order.serviceId].freelancerId != userId {
      return Err(Forbid);
    }
    db.orders := db.orders[orderId := order.(status := OrderStatus.Rejected)];
    r := Ok(());
  }

  /** The same action as the order controller's: the client marks the order Completed. */
  method CompleteOrder(db: Db, id: int, userId: UserId) returns (r: Result<Unit>)
    requires db.Valid()
    modifies db
    ensures db.Valid()
    ensures id !in old(db.orders) ==> r == Err(NotFound)
    ensures id in old(db.orders) && old(db.orders)[id].clientId != userId ==> r == Err(Forbid)
    ensures r.Err? ==> db.State() == old(db.State())
    ensures r.Ok? <==> WebOrders.OwnsOrder(old(db.orders), id, userId)
    ensures r.Ok? ==> db.State() == old(db.State()).(orders := old(db.orders)[id := old(db.orders)[id].(status := OrderStatus.Completed)])
  {
    r := WebOrders.CompleteOrder(db, id, userId);
  }

  /** The state after the freelancer withdraws a service: Unavailable, and every order of it Rejected. */
  function CancelEffect(t: Tables, id: int): (r: Tables)
    requires id in t.services
    ensures r == t.(services := r.services, orders := r.orders)
    ensures r.services == t.services[id := t.services[id].(status := ServiceStatus.Unavailable)]
    ensures r.orders == RejectOrdersOf(t.orders, id, None)
  {
    t.(services := t.services[id := t.services[id].(status := ServiceStatus.Unavailable)],
       orders := RejectOrdersOf(t.orders, id, None))
  }

  /** Withdraws the caller's service from any status; someone else's service is reported missing, not forbidden. */
  method CancelService(db: Db, id: int, userId: UserId) returns (r: Result<Unit>)
    requires db.Valid()
    modifies db
    ensures db.Valid()
    ensures !OwnsService(old(db.services), id, userId) ==> r == Err(NotFound) && db.State() == old(db.State())
    ensures OwnsService(old(db.services), id, userId) ==> r.Ok? && db.State() == CancelEffect(old(db.State()), id)
  {
    if !OwnsService(db.services, id, userId) {
      return Err(NotFound);
    }
    ghost var before := db.State();
    db.services := db.services[id := db.services[id].(status := ServiceStatus.Unavailable)];
    RejectEach(db, id, None);
    assert db.State() == CancelEffect(before, id);
    r := Ok(());
  }

  /** After a withdrawal no order of the service is left Pending, Accepted, Completed or Paid. */
  lemma CancelRejectsEveryOrder(t: Tables, id: int, k: int)
    requires id in t.services && OrderOf(t.orders, id, k)
    ensures CancelEffect(t, id).orders[k].status == OrderStatus.Rejected
  {
  }

  /** Puts the caller's withdrawn service back on offer; its orders stay as they are. */
  method ResumeService(db: Db, id: int, userId: UserId) returns (r: Result<Unit>)
    requires db.Valid()
    modifies db
    ensures db.Valid()
    ensures !OwnsService(old(db.services), id, userId) ==> r == Err(NotFound)
    ensures OwnsService(old(db.services), id, userId) && !old(db.services)[id].status.Unavailable? ==> r == Err(BadRequest)
    ensures r.Err? ==> db.State() == old(db.State())
    ensures r.Ok? <==> OwnsService(old(db.services), id, userId) && old(db.services)[id].status.Unavailable?
    ensures r.Ok? ==> db.State() == old(db.State()).(services := old(db.services)[id := old(db.services)[id].(status := ServiceStatus.Available)])
  {
    if !OwnsService(db.services, id, userId) {
      return Err(NotFound);
    }
    if !db.services[id].status.Unavailable? {
      return Err(BadRequest);
    }
    db.services := db.services[id := db.services[id].(status := ServiceStatus.Available)];
    r := Ok(());
  }

  /**
   * Withdrawing a service and putting it back restores its status but not
   * its orders: every order it had stays Rejected.
   */
  lemma CancelThenResume(t: Tables, id: int, k: int)
    requires id in t.services && OrderOf(t.orders, id, k)
    ensures var c := CancelEffect(t, id);
      && c.services[id].status.Unavailable?
      && c.services[id].(status := ServiceStatus.Available) == t.services[id].(status := ServiceStatus.Available)
      && c.orders[k].status.Rejected?
  {
  }
}
