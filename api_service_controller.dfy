/**
 * The JSON API over services: the filtered and ordered listing, lookup by
 * id, and the freelancer's create, update and delete. An update may set any
 * status directly, without the cascade of the web page's withdrawal.
 */
module ApiServices {
  import opened Domain
  import opened Data
  import Listing
  import WebServices

  /** The listing, filtered and ordered as the query string asks. */
  method ListServices(db: Db, q: Listing.ListQuery) returns (r: seq<(int, Service)>)
    ensures forall x :: x in r <==> x.0 in db.services && db.services[x.0] == x.1 && Listing.ServiceMatches(q, x.1)
    ensures q.sort == Some("budget_desc") ==> forall i, j :: 0 <= i < j < |r| ==> r[i].1.price >= r[j].1.price
    ensures q.sort == Some("budget_asc") ==> forall i, j :: 0 <= i < j < |r| ==> r[i].1.price <= r[j].1.price
    ensures !Listing.SortsByAmount(q) ==> forall i, j :: 0 <= i < j < |r| ==> r[i].1.createdAt >= r[j].1.createdAt
    ensures forall i, j :: 0 <= i < j < |r| ==> r[i].0 != r[j].0
  {
    var rows := Rows(db.services);
    r := Listing.ServicesQuery(rows, q);
  }

  /** One service by id; a missing id is answered with BadRequest, not NotFound. */
  method GetService(db: Db, id: int) returns (r: Result<Service>)
    ensures id !in db.services ==> r == Err(BadRequest)
    ensures id in db.services ==> r == Ok(db.services[id])
  {
    if id !in db.services {
      return Err(BadRequest);
    }
    r := Ok(db.services[id]);
  }

  /** The service CreateService inserts: the request's fields, the caller as freelancer, no selected client. */
  function NewService(dto: CreateServiceDto, userId: UserId, now: int): (s: Service)
    ensures s.freelancerId == userId && s.createdAt == now && s.selectedClientId.None?
    ensures s.title == dto.title && s.description == dto.description && s.price == dto.price && s.status == dto.status
  {
    Service(dto.title, dto.description, dto.price, userId, dto.status, None, now)
  }

  /**
   * Creates a service for the caller. `modelValid` is the outcome of the
   * request's validation, whose rules are not part of this model; a token
   * without a user id is an unhandled exception.
   */
  method CreateService(db: Db, dto: CreateServiceDto, modelValid: bool, userId: Option<UserId>, now: int) returns (r: Result<int>)
    requires db.Valid()
    modifies db
    ensures db.Valid()
    ensures !modelValid ==> r == Err(BadRequest)
    ensures modelValid && userId.None? ==> r == Err(ServerError)
    ensures r.Err? ==> db.State() == old(db.State())
    ensures r.Ok? <==> modelValid && userId.Some?
    ensures r.Ok? ==>
      && r.value > 0 && r.value !in old(db.services)
      && db.State() == old(db.State()).(services := old(db.services)[r.value := NewService(dto, userId.value, now)])
  {
    if !modelValid {
      return Err(BadRequest);
    }
    if userId.None? {
      return Err(ServerError);
    }
    var id := db.NewServiceId();
    db.services := db.services[id := NewService(dto, userId.value, now)];
    r := Ok(id);
  }

  /** Whether the caller may change the service: NotFound when missing, Forbid when someone else's. */
  function OwnerGate(services: map<int, Service>, id: int, userId: UserId): (r: Option<Code>)
    ensures r.None? <==> WebServices.OwnsService(services, id, userId)
    ensures r == Some(NotFound) <==> id !in services
    ensures r == Some(Forbid) <==> id in services && services[id].freelancerId != userId
  {
    if id !in services then Some(NotFound)
    else if services[id].freelancerId != userId then Some(Forbid)
    else None
  }

  /**
   * Overwrites title, description, price and status of the caller's
   * service and answers with it; a Price that does not convert to an int
   * makes validation throw.
   */
  method UpdateService(db: Db, id: int, dto: UpdateServiceDto, userId: UserId) returns (r: Result<Service>)
    requires db.Valid()
    modifies db
    ensures db.Valid()
    ensures UpdateServiceThrows(dto) ==> r == Err(ServerError)
    ensures !UpdateServiceThrows(dto) && !ValidUpdateService(dto) ==> r == Err(BadRequest)
    ensures ValidUpdateService(dto) && OwnerGate(old(db.services), id, userId).Some? ==>
      r == Err(OwnerGate(old(db.services), id, userId).value)
    ensures r.Err? ==> db.State() == old(db.State())
    ensures r.Ok? <==> ValidUpdateService(dto) && WebServices.OwnsService(old(db.services), id, userId)
    ensures r.Ok? ==>
      && r.value == old(db.services)[id].(title := dto.title, description := dto.description, price := dto.price, status := dto.status)
      && db.State() == old(db.State()).(services := old(db.services)[id := r.value])
  {
    if UpdateServiceThrows(dto) {
      return Err(ServerError);
    }
    if !ValidUpdateService(dto) {
      return Err(BadRequest);
    }
    var gate := OwnerGate(db.services, id, userId);
    if gate.Some? {
      return Err(gate.value);
    }
    var s := db.services[id].(title := dto.title, description := dto.description, price := dto.price, status := dto.status);
    db.services := db.services[id := s];
    r := Ok(s);
  }

  /** Removes the caller's service, and only that row. */
  method DeleteService(db: Db, id: int, userId: UserId) returns (r: Result<Unit>)
    requires db.Valid()
    modifies db
    ensures db.Valid()
    ensures OwnerGate(old(db.services), id, userId).Some? ==>
      r == Err(OwnerGate(old(db.services), id, userId).value) && db.State() == old(db.State())
    ensures OwnerGate(old(db.services), id, userId).None? ==> r.Ok? && db.State() == old(db.State()).(services := old(db.services) - {id})
  {
    var gate := OwnerGate(db.services, id, userId);
    if gate.Some? {
      return Err(gate.value);
    }
    db.services := db.services - {id};
    r := Ok(());
  }
}
