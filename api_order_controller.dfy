/**
 * The JSON API over orders. Its duplicate check refuses a second order on
 * the same service whatever the status of the first, where the web page
 * refuses only while the first is still Pending or Accepted.
 */
module ApiOrders {
  import opened Domain
  import opened Data
  import Listing
  import WebOrders

  /** The listing filter: by service when given, by client when non-empty. */
  predicate OrderListed(o: Order, serviceId: Option<int>, clientId: Option<string>) {
    (serviceId.None? || o.serviceId == serviceId.value) && (IsNullOrEmpty(clientId) || o.clientId == clientId.value)
  }

  /** The orders matching the optional filters, in the order the store returns them. */
  method ListOrders(db: Db, serviceId: Option<int>, clientId: Option<string>) returns (r: seq<(int, Order)>)
    ensures forall x :: x in r <==> x.0 in db.orders && db.orders[x.0] == x.1 && OrderListed(x.1, serviceId, clientId)
    ensures forall i, j :: 0 <= i < j < |r| ==> r[i].0 != r[j].0
  {
    var rows := Rows(db.orders);
    r := Listing.Filter(rows, (x: (int, Order)) => OrderListed(x.1, serviceId, clientId));
    Listing.SelectionKeepsKeysDistinct(rows, r);
  }

  /** One order by id; a missing id is answered with BadRequest, not NotFound. */
  method GetOrder(db: Db, id: int) returns (r: Result<Order>)
    ensures id !in db.orders ==> r == Err(BadRequest)
    ensures id in db.orders ==> r == Ok(db.orders[id])
  {
    if id !in db.orders {
      return Err(BadRequest);
    }
    r := Ok(db.orders[id]);
  }

  /** The API's duplicate check: the caller has any order on the service at all. */
  predicate HasOrder(orders: map<int, Order>, serviceId: int, userId: UserId) {
    exists k :: k in orders && orders[k].serviceId == serviceId && orders[k].clientId == userId
  }

  /** The order CreateOrder inserts: Pending, for the caller. */
  function NewOrder(dto: CreateOrderDto, userId: UserId, now: int): (o: Order)
    ensures o.serviceId == dto.serviceId && o.clientId == userId && o.status == OrderStatus.Pending
    ensures o.comment == dto.comment && o.durationInDays == dto.durationInDays && o.createdAt == now
  {
    Order(dto.serviceId, userId, dto.comment, dto.durationInDays, OrderStatus.Pending, now)
  }

  /**
   * Orders a service. A token without a user id is an unhandled exception;
   * a missing service is NotFound; any earlier order of the caller on the
   * service is Conflict.
   */
  method CreateOrder(db: Db, dto: CreateOrderDto, userId: Option<UserId>, now: int) returns (r: Result<int>)
    requires db.Valid()
    modifies db
    ensures db.Valid()
    ensures !ValidCreateOrder(dto) ==> r == Err(BadRequest)
    ensures ValidCreateOrder(dto) && userId.None? ==> r == Err(ServerError)
    ensures ValidCreateOrder(dto) && userId.Some? && dto.serviceId !in old(db.services) ==> r == Err(NotFound)
    ensures (ValidCreateOrder(dto) && userId.Some? && dto.serviceId in old(db.services)
             && HasOrder(old(db.orders), dto.serviceId, userId.value)) ==> r == Err(Conflict)
    ensures r.Err? ==> db.State() == old(db.State())
    ensures r.Ok? <==> && ValidCreateOrder(dto) && userId.Some? && dto.serviceId in old(db.services)
                       && !HasOrder(old(db.orders), dto.serviceId, userId.value)
    ensures r.Ok? ==>
      && r.value > 0 && r.value !in old(db.orders)
      && db.State() == old(db.State()).(orders := old(db.orders)[r.value := NewOrder(dto, userId.value, now)])
  {
    if !ValidCreateOrder(dto) {
      return Err(BadRequest);
    }
    if userId.None? {
      return Err(ServerError);
    }
    if dto.serviceId !in db.services {
      return Err(NotFound);
    }
    if HasOrder(db.orders, dto.serviceId, userId.value) {
      return Err(Conflict);
    }
    var id := db.NewOrderId();
    db.orders := db.orders[id := NewOrder(dto, userId.value, now)];
    r := Ok(id);
  }

  /** Whatever the web page refuses as a duplicate, the API refuses too. */
  lemma ApiCheckCoversWebCheck(t: Tables, serviceId: int, userId: UserId)
    requires WebOrders.HasActiveOrder(t, serviceId, userId)
    ensures HasOrder(t.orders, serviceId, userId)
  {
    var k :| k in t.orders && WebOrders.IsActiveOrderOf(t.orders[k], serviceId, userId);
  }

  /**
   * ... but not the other way round: when the caller has ordered the service
   * before, the web page lets a new order through exactly when every earlier
   * one is Rejected, Completed or Paid, while the API refuses it in any case.
   */
  lemma ApiCheckStricterThanWeb(t: Tables, serviceId: int, userId: UserId)
    requires serviceId in t.services && HasOrder(t.orders, serviceId, userId)
    ensures !WebOrders.HasActiveOrder(t, serviceId, userId) <==>
      forall k :: k in t.orders && t.orders[k].serviceId == serviceId && t.orders[k].clientId == userId ==>
        t.orders[k].status.Rejected? || t.orders[k].status.Completed? || t.orders[k].status.Paid?
  {
    if !WebOrders.HasActiveOrder(t, serviceId, userId) {
      forall k | k in t.orders && t.orders[k].serviceId == serviceId && t.orders[k].clientId == userId
        ensures t.orders[k].status.Rejected? || t.orders[k].status.Completed? || t.orders[k].status.Paid?
      {
        assert !WebOrders.IsActiveOrderOf(t.orders[k], serviceId, userId);
      }
    }
  }

  /** Whether the caller may change the order: NotFound when missing, Forbid when someone else's. */
  function OwnerGate(orders: map<int, Order>, id: int, userId: UserId): (r: Option<Code>)
    ensures r.None? <==> WebOrders.OwnsOrder(orders, id, userId)
    ensures r == Some(NotFound) <==> id !in orders
    ensures r == Some(Forbid) <==> id in orders && orders[id].clientId != userId
  {
    if id !in orders then Some(NotFound)
    else if orders[id].clientId != userId then Some(Forbid)
    else None
  }

  /** `UpdateBid` of the order API: overwrites comment and duration of the caller's order and answers with it. */
  method UpdateOrder(db: Db, id: int, dto: UpdateOrderDto, userId: UserId) returns (r: Result<Order>)
    requires db.Valid()
    modifies db
    ensures db.Valid()
    ensures !ValidUpdateOrder(dto) ==> r == Err(BadRequest)
    ensures ValidUpdateOrder(dto) && OwnerGate(old(db.orders), id, userId).Some? ==> r == Err(OwnerGate(old(db.orders), id, userId).value)
    ensures r.Err? ==> db.State() == old(db.State())
    ensures r.Ok? <==> ValidUpdateOrder(dto) && WebOrders.OwnsOrder(old(db.orders), id, userId)
    ensures r.Ok? ==>
      && r.value == old(db.orders)[id].(comment := dto.comment, durationInDays := dto.durationInDays)
      && db.State() == old(db.State()).(orders := old(db.orders)[id := r.value])
  {
    if !ValidUpdateOrder(dto) {
      return Err(BadRequest);
    }
    var gate := OwnerGate(db.orders, id, userId);
    if gate.Some? {
      return Err(gate.value);
    }
    var o := db.orders[id].(comment := dto.comment, durationInDays := dto.durationInDays);
    db.orders := db.orders[id := o];
    r := Ok(o);
  }

  /** Removes the caller's order, and only that row. */
  method DeleteOrder(db: Db, id: int, userId: UserId) returns (r: Result<Unit>)
    requires db.Valid()
    modifies db
    ensures db.Valid()
    ensures OwnerGate(old(db.orders), id, userId).Some? ==>
      r == Err(OwnerGate(old(db.orders), id, userId).value) && db.State() == old(db.State())
    ensures OwnerGate(old(db.orders), id, userId).None? ==> r.Ok? && db.State() == old(db.State()).(orders := old(db.orders) - {id})
  {
    var gate := OwnerGate(db.orders, id, userId);
    if gate.Some? {
      return Err(gate.value);
    }
    db.orders := db.orders - {id};
    r := Ok(());
  }
}
