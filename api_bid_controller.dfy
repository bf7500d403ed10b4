/**
 * The JSON API over bids. Unlike the web pages, the API checks that the
 * project exists, answers a duplicate application with Conflict, and looks
 * a bid up by id first and only then checks whose it is (Forbid rather than
 * NotFound). The automatic model validation of the API rejects an invalid
 * body with BadRequest before the action runs.
 */
module ApiBids {
  import opened Domain
  import opened Data
  import Listing
  import WebBids

  /** The listing filter: by project when given, by freelancer when non-empty. */
  predicate BidListed(b: Bid, projectId: Option<int>, freelancerId: Option<string>) {
    (projectId.None? || b.projectId == projectId.value) && (IsNullOrEmpty(freelancerId) || b.freelancerId == freelancerId.value)
  }

  /** The bids matching the optional filters, in the order the store returns them. */
  method ListBids(db: Db, projectId: Option<int>, freelancerId: Option<string>) returns (r: seq<(int, Bid)>)
    ensures forall x :: x in r <==> x.0 in db.bids && db.bids[x.0] == x.1 && BidListed(x.1, projectId, freelancerId)
    ensures forall i, j :: 0 <= i < j < |r| ==> r[i].0 != r[j].0
    ensures projectId.None? && IsNullOrEmpty(freelancerId) ==> |r| == |db.bids|
  {
    var rows := Rows(db.bids);
    r := Listing.Filter(rows, (x: (int, Bid)) => BidListed(x.1, projectId, freelancerId));
    Listing.SelectionKeepsKeysDistinct(rows, r);
    if projectId.None? && IsNullOrEmpty(freelancerId) {
      assert multiset(r) == multiset(rows);
      assert |r| == |multiset(r)|;
    }
  }

  /** One bid by id; a missing id is answered with BadRequest, not NotFound. */
  method GetBid(db: Db, id: int) returns (r: Result<Bid>)
    ensures id !in db.bids ==> r == Err(BadRequest)
    ensures id in db.bids ==> r == Ok(db.bids[id])
  {
    if id !in db.bids {
      return Err(BadRequest);
    }
    r := Ok(db.bids[id]);
  }

  /**
   * Applies to a project. An Amount that does not convert to an int makes
   * validation throw; an invalid request is BadRequest. A token without a user id is an unhandled
   * exception; a missing project is NotFound; an earlier bid of the caller
   * on the project, in any status, is Conflict.
   */
  method CreateBid(db: Db, dto: CreateBidDto, userId: Option<UserId>, now: int) returns (r: Result<int>)
    requires db.Valid()
    modifies db
    ensures db.Valid()
    ensures CreateBidThrows(dto) ==> r == Err(ServerError)
    ensures !CreateBidThrows(dto) && !ValidCreateBid(dto) ==> r == Err(BadRequest)
    ensures ValidCreateBid(dto) && userId.None? ==> r == Err(ServerError)
    ensures ValidCreateBid(dto) && userId.Some? && dto.projectId !in old(db.projects) ==> r == Err(NotFound)
    ensures (ValidCreateBid(dto) && userId.Some? && dto.projectId in old(db.projects)
             && WebBids.HasBid(old(db.bids), dto.projectId, userId.value)) ==> r == Err(Conflict)
    ensures r.Err? ==> db.State() == old(db.State())
    ensures r.Ok? <==> && ValidCreateBid(dto) && userId.Some? && dto.projectId in old(db.projects)
                       && !WebBids.HasBid(old(db.bids), dto.projectId, userId.value)
    ensures r.Ok? ==>
      && r.value > 0 && r.value !in old(db.bids)
      && db.State() == old(db.State()).(bids := old(db.bids)[r.value := WebBids.NewBid(dto, userId.value, now)])
  {
    if CreateBidThrows(dto) {
      return Err(ServerError);
    }
    if !ValidCreateBid(dto) {
      return Err(BadRequest);
    }
    if userId.None? {
      return Err(ServerError);
    }
    if dto.projectId !in db.projects {
      return Err(NotFound);
    }
    if WebBids.HasBid(db.bids, dto.projectId, userId.value) {
      return Err(Conflict);
    }
    var id := db.NewBidId();
    db.bids := db.bids[id := WebBids.NewBid(dto, userId.value, now)];
    r := Ok(id);
  }

  /** Whether the caller may change the bid: NotFound when missing, Forbid when someone else's. */
  function OwnerGate(bids: map<int, Bid>, id: int, userId: UserId): (r: Option<Code>)
    ensures r.None? <==> WebBids.OwnsBid(bids, id, userId)
    ensures r == Some(NotFound) <==> id !in bids
    ensures r == Some(Forbid) <==> id in bids && bids[id].freelancerId != userId
  {
    if id !in bids then Some(NotFound)
    else if bids[id].freelancerId != userId then Some(Forbid)
    else None
  }

  /** Overwrites amount, comment and duration of the caller's bid, and answers with the updated bid. */
  method UpdateBid(db: Db, id: int, dto: UpdateBidDto, modelValid: bool, userId: UserId) returns (r: Result<Bid>)
    requires db.Valid()
    modifies db
    ensures db.Valid()
    ensures !modelValid ==> r == Err(BadRequest)
    ensures modelValid && OwnerGate(old(db.bids), id, userId).Some? ==> r == Err(OwnerGate(old(db.bids), id, userId).value)
    ensures r.Err? ==> db.State() == old(db.State())
    ensures r.Ok? <==> modelValid && WebBids.OwnsBid(old(db.bids), id, userId)
    ensures r.Ok? ==>
      && r.value == WebBids.EditBid(old(db.bids)[id], dto)
      && db.State() == old(db.State()).(bids := old(db.bids)[id := r.value])
  {
    if !modelValid {
      return Err(BadRequest);
    }
    var gate := OwnerGate(db.bids, id, userId);
    if gate.Some? {
      return Err(gate.value);
    }
    var b := WebBids.EditBid(db.bids[id], dto);
    db.bids := db.bids[id := b];
    r := Ok(b);
  }

  /** Removes the caller's bid, and only that row. */
  method DeleteBid(db: Db, id: int, userId: UserId) returns (r: Result<Unit>)
    requires db.Valid()
    modifies db
    ensures db.Valid()
    ensures OwnerGate(old(db.bids), id, userId).Some? ==>
      r == Err(OwnerGate(old(db.bids), id, userId).value) && db.State() == old(db.State())
    ensures OwnerGate(old(db.bids), id, userId).None? ==> r.Ok? && db.State() == old(db.State()).(bids := old(db.bids) - {id})
  {
    var gate := OwnerGate(db.bids, id, userId);
    if gate.Some? {
      return Err(gate.value);
    }
    db.bids := db.bids - {id};
    r := Ok(());
  }
}
