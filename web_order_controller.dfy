/**
 * The client's side of ordering a service on the web site: placing an
 * order, editing or withdrawing one's own order, listing one's orders, and
 * marking an order completed.
 */
module WebOrders {
  import opened Domain
  import opened Data
  import Listing

  /**
   * The duplicate check of Create: the caller already has an order on the
   * service that is still Pending or Accepted. An order that was Rejected,
   * Completed or Paid does not count, and neither does any order when the
   * service itself is missing.
   */
  predicate HasActiveOrder(t: Tables, serviceId: int, userId: UserId) {
    && serviceId in t.services
    && exists k :: k in t.orders && IsActiveOrderOf(t.orders[k], serviceId, userId)
  }

  predicate IsActiveOrderOf(o: Order, serviceId: int, userId: UserId) {
    o.serviceId == serviceId && o.clientId == userId && (o.status.Pending? || o.status.Accepted?)
  }

  /**
   * Places an order: an invalid form, an active order of the caller on the
   * same service, or a missing user id stops it; otherwise one Pending order
   * is inserted for the caller. The service is not required to exist.
   */
  method Create(db: Db, dto: CreateOrderDto, userId: Option<UserId>, now: int) returns (r: Result<int>)
    requires db.Valid()
    modifies db
    ensures db.Valid()
    ensures !ValidCreateOrder(dto) ==> r == Err(InvalidModel)
    ensures ValidCreateOrder(dto) && userId.Some? && HasActiveOrder(old(db.State()), dto.serviceId, userId.value) ==> r == Err(InvalidModel)
    ensures ValidCreateOrder(dto) && userId.None? ==> r == Err(Unauthorized)
    ensures r.Err? ==> db.State() == old(db.State())
    ensures r.Ok? <==> ValidCreateOrder(dto) && userId.Some? && !HasActiveOrder(old(db.State()), dto.serviceId, userId.value)
    ensures r.Ok? ==>
      && r.value > 0 && r.value !in old(db.orders)
      && db.State() == old(db.State()).(orders := old(db.orders)[r.value :=
           Order(dto.serviceId, userId.value, dto.comment, dto.durationInDays, OrderStatus.Pending, now)])
  {
    if !ValidCreateOrder(dto) {
      return Err(InvalidModel);
    }
    if userId.Some? && HasActiveOrder(db.State(), dto.serviceId, userId.value) {
      return Err(InvalidModel);
    }
    if userId.None? {
      return Err(Unauthorized);
    }
    var id := db.NewOrderId();
    db.orders := db.orders[id := Order(dto.serviceId, userId.value, dto.comment, dto.durationInDays, OrderStatus.Pending, now)];
    r := Ok(id);
  }

  /** A finished or refused order never blocks a new one on the same service. */
  lemma InactiveOrdersDoNotBlock(t: Tables, serviceId: int, userId: UserId)
    requires forall k :: k in t.orders && t.orders[k].serviceId == serviceId && t.orders[k].clientId == userId ==>
      t.orders[k].status.Rejected? || t.orders[k].status.Completed? || t.orders[k].status.Paid?
    ensures !HasActiveOrder(t, serviceId, userId)
  {
  }

  /** An order placed by Create is active, so the caller cannot place a second one on the same service. */
  lemma CreatedOrderBlocksAnother(t: Tables, id: int, dto: CreateOrderDto, userId: UserId, now: int)
    requires dto.serviceId in t.services
    ensures HasActiveOrder(t.(orders := t.orders[id := Order(dto.serviceId, userId, dto.comment, dto.durationInDays, OrderStatus.Pending, now)]),
                           dto.serviceId, userId)
  {
    var t' := t.(orders := t.orders[id := Order(dto.serviceId, userId, dto.comment, dto.durationInDays, OrderStatus.Pending, now)]);
    assert IsActiveOrderOf(t'.orders[id], dto.serviceId, userId);
  }

  /** The lookup of Edit and Delete: the order with that id, if the caller placed it. */
  predicate OwnsOrder(orders: map<int, Order>, id: int, userId: UserId) {
    id in orders && orders[id].clientId == userId
  }

  /** The edit form, filled from the caller's order. */
  method EditForm(db: Db, id: int, userId: UserId) returns (r: Result<UpdateOrderDto>)
    ensures !OwnsOrder(db.orders, id, userId) ==> r == Err(NotFound)
    ensures OwnsOrder(db.orders, id, userId) ==> r == Ok(UpdateOrderDto(db.orders[id].comment, db.orders[id].durationInDays))
  {
    if !OwnsOrder(db.orders, id, userId) {
      return Err(NotFound);
    }
    var order := db.orders[id];
    r := Ok(UpdateOrderDto(order.comment, order.durationInDays));
  }

  /** Overwrites the comment and the duration of the caller's order and nothing else. */
  method Edit(db: Db, id: int, dto: UpdateOrderDto, userId: UserId) returns (r: Result<Unit>)
    requires db.Valid()
    modifies db
    ensures db.Valid()
    ensures !ValidUpdateOrder(dto) ==> r == Err(InvalidModel)
    ensures ValidUpdateOrder(dto) && !OwnsOrder(old(db.orders), id, userId) ==> r == Err(NotFound)
    ensures r.Err? ==> db.State() == old(db.State())
    ensures r.Ok? <==> ValidUpdateOrder(dto) && OwnsOrder(old(db.orders), id, userId)
    ensures r.Ok? ==> db.State() == old(db.State()).(orders := old(db.orders)[id :=
      old(db.orders)[id].(comment := dto.comment, durationInDays := dto.durationInDays)])
  {
    if !ValidUpdateOrder(dto) {
      return Err(InvalidModel);
    }
    if !OwnsOrder(db.orders, id, userId) {
      return Err(NotFound);
    }
    db.orders := db.orders[id := db.orders[id].(comment := dto.comment, durationInDays := dto.durationInDays)];
    r := Ok(());
  }

  /** Removes the caller's order with that id, and only that row. */
  method Delete(db: Db, id: int, userId: UserId) returns (r: Result<Unit>)
    requires db.Valid()
    modifies db
    ensures db.Valid()
    ensures !OwnsOrder(old(db.orders), id, userId) ==> r == Err(NotFound) && db.State() == old(db.State())
    ensures OwnsOrder(old(db.orders), id, userId) ==> r.Ok? && db.State() == old(db.State()).(orders := old(db.orders) - {id})
  {
    if !OwnsOrder(db.orders, id, userId) {
      return Err(NotFound);
    }
    db.orders := db.orders - {id};
    r := Ok(());
  }

  function OrderCreatedAt(r: (int, Order)): real {
    r.1.createdAt as real
  }

  /** The caller's orders, newest first. */
  method MyOrders(db: Db, userId: UserId) returns (r: seq<(int, Order)>)
    ensures forall x :: x in r <==> x.0 in db.orders && db.orders[x.0] == x.1 && x.1.clientId == userId
    ensures forall i, j :: 0 <= i < j < |r| ==> r[i].1.createdAt >= r[j].1.createdAt
    ensures forall i, j :: 0 <= i < j < |r| ==> r[i].0 != r[j].0
  {
    var rows := Rows(db.orders);
    r := Listing.Query(rows, (x: (int, Order)) => x.1.clientId == userId, OrderCreatedAt, true);
    Listing.SelectionKeepsKeysDistinct(rows, r);
  }

  /** The client who placed an order marks it Completed, whatever its status was. */
  method CompleteOrder(db: Db, id: int, userId: UserId) returns (r: Result<Unit>)
    requires db.Valid()
    modifies db
    ensures db.Valid()
    ensures id !in old(db.orders) ==> r == Err(NotFound)
    ensures id in old(db.orders) && old(db.orders)[id].clientId != userId ==> r == Err(Forbid)
    ensures r.Err? ==> db.State() == old(db.State())
    ensures r.Ok? <==> OwnsOrder(old(db.orders), id, userId)
    ensures r.Ok? ==> db.State() == old(db.State()).(orders := old(db.orders)[id := old(db.orders)[id].(status := OrderStatus.Completed)])
  {
    if id !in db.orders {
      return Err(NotFound);
    }
    if db.orders[id].clientId != userId {
      return Err(Forbid);
    }
    db.orders := db.orders[id := db.orders[id].(status := OrderStatus.Completed)];
    r := Ok(());
  }
}
