/**
 * The freelancer's side of bidding on a project on the web site: applying,
 * editing or withdrawing one's own bid, and listing one's bids.
 */
module WebBids {
  import opened Domain
  import opened Data
  import Listing

  /** The caller has already applied to the project, whatever became of that bid. */
  predicate HasBid(bids: map<int, Bid>, projectId: int, userId: UserId) {
    exists k :: k in bids && bids[k].projectId == projectId && bids[k].freelancerId == userId
  }

  /** The bid Create inserts: the form's fields, the caller as freelancer, Pending. */
  function NewBid(dto: CreateBidDto, userId: UserId, now: int): (b: Bid)
    ensures b.projectId == dto.projectId && b.freelancerId == userId && b.status == BidStatus.Pending
    ensures b.amount == dto.amount && b.comment == dto.comment && b.durationInDays == dto.durationInDays && b.createdAt == now
  {
    Bid(dto.projectId, userId, dto.amount, dto.comment, dto.durationInDays, BidStatus.Pending, now)
  }

  /**
   * Applies to a project: an Amount that does not convert to an int makes
   * validation throw; an invalid form, a missing user id or an earlier
   * bid of the caller on the project stops it; otherwise one bid is
   * inserted. The project is not required to exist.
   */
  method Create(db: Db, dto: CreateBidDto, userId: Option<UserId>, now: int) returns (r: Result<int>)
    requires db.Valid()
    modifies db
    ensures db.Valid()
    ensures CreateBidThrows(dto) ==> r == Err(ServerError)
    ensures !CreateBidThrows(dto) && !ValidCreateBid(dto) ==> r == Err(InvalidModel)
    ensures ValidCreateBid(dto) && userId.None? ==> r == Err(Unauthorized)
    ensures ValidCreateBid(dto) && userId.Some? && HasBid(old(db.bids), dto.projectId, userId.value) ==> r == Err(InvalidModel)
    ensures r.Err? ==> db.State() == old(db.State())
    ensures r.Ok? <==> ValidCreateBid(dto) && userId.Some? && !HasBid(old(db.bids), dto.projectId, userId.value)
    ensures r.Ok? ==>
      && r.value > 0 && r.value !in old(db.bids)
      && db.State() == old(db.State()).(bids := old(db.bids)[r.value := NewBid(dto, userId.value, now)])
  {
    if CreateBidThrows(dto) {
      return Err(ServerError);
    }
    if !ValidCreateBid(dto) {
      return Err(InvalidModel);
    }
    if userId.None? {
      return Err(Unauthorized);
    }
    if HasBid(db.bids, dto.projectId, userId.value) {
      return Err(InvalidModel);
    }
    var id := db.NewBidId();
    db.bids := db.bids[id := NewBid(dto, userId.value, now)];
    r := Ok(id);
  }

  /** Once a bid is in, the same freelancer can never apply to that project again, whatever its status becomes. */
  lemma BidBlocksReapplying(bids: map<int, Bid>, id: int, dto: CreateBidDto, userId: UserId, now: int, st: BidStatus)
    ensures HasBid(bids[id := NewBid(dto, userId, now).(status := st)], dto.projectId, userId)
  {
    var b := bids[id := NewBid(dto, userId, now).(status := st)];
    assert b[id].projectId == dto.projectId && b[id].freelancerId == userId;
  }

  /** The lookup of Edit and Delete: the bid with that id, if the caller made it. */
  predicate OwnsBid(bids: map<int, Bid>, id: int, userId: UserId) {
    id in bids && bids[id].freelancerId == userId
  }

  /** The edit form, filled from the caller's bid. */
  method EditForm(db: Db, id: int, userId: UserId) returns (r: Result<UpdateBidDto>)
    ensures !OwnsBid(db.bids, id, userId) ==> r == Err(NotFound)
    ensures OwnsBid(db.bids, id, userId) ==>
      var b := db.bids[id]; r == Ok(UpdateBidDto(b.amount, b.comment, b.durationInDays))
  {
    if !OwnsBid(db.bids, id, userId) {
      return Err(NotFound);
    }
    var b := db.bids[id];
    r := Ok(UpdateBidDto(b.amount, b.comment, b.durationInDays));
  }

  /** What an edit writes: amount, comment and duration; project, freelancer, status and creation time stay. */
  function EditBid(b: Bid, dto: UpdateBidDto): (r: Bid)
    ensures r.amount == dto.amount && r.comment == dto.comment && r.durationInDays == dto.durationInDays
    ensures r.projectId == b.projectId && r.freelancerId == b.freelancerId && r.status == b.status && r.createdAt == b.createdAt
  {
    b.(amount := dto.amount, comment := dto.comment, durationInDays := dto.durationInDays)
  }

  /** Editing twice with the same form is editing once. */
  lemma EditBidIdempotent(b: Bid, dto: UpdateBidDto)
    ensures EditBid(EditBid(b, dto), dto) == EditBid(b, dto)
  {
  }

  /**
   * Overwrites the caller's bid with the form. `modelValid` is the outcome
   * of the form's validation, whose rules are not part of this model.
   */
  method Edit(db: Db, id: int, dto: UpdateBidDto, modelValid: bool, userId: UserId) returns (r: Result<Unit>)
    requires db.Valid()
    modifies db
    ensures db.Valid()
    ensures !modelValid ==> r == Err(InvalidModel)
    ensures modelValid && !OwnsBid(old(db.bids), id, userId) ==> r == Err(NotFound)
    ensures r.Err? ==> db.State() == old(db.State())
    ensures r.Ok? <==> modelValid && OwnsBid(old(db.bids), id, userId)
    ensures r.Ok? ==> db.State() == old(db.State()).(bids := old(db.bids)[id := EditBid(old(db.bids)[id], dto)])
  {
    if !modelValid {
      return Err(InvalidModel);
    }
    if !OwnsBid(db.bids, id, userId) {
      return Err(NotFound);
    }
    db.bids := db.bids[id := EditBid(db.bids[id], dto)];
    r := Ok(());
  }

  /** Removes the caller's bid with that id, and only that row. */
  method Delete(db: Db, id: int, userId: UserId) returns (r: Result<Unit>)
    requires db.Valid()
    modifies db
    ensures db.Valid()
    ensures !OwnsBid(old(db.bids), id, userId) ==> r == Err(NotFound) && db.State() == old(db.State())
    ensures OwnsBid(old(db.bids), id, userId) ==> r.Ok? && db.State() == old(db.State()).(bids := old(db.bids) - {id})
  {
    if !OwnsBid(db.bids, id, userId) {
      return Err(NotFound);
    }
    db.bids := db.bids - {id};
    r := Ok(());
  }

  /** Withdrawing a bid frees the freelancer to apply to the project again, if it was their only one there. */
  lemma DeleteAllowsReapplying(bids: map<int, Bid>, id: int, userId: UserId)
    requires OwnsBid(bids, id, userId)
    requires forall k :: k in bids && k != id ==> bids[k].projectId != bids[id].projectId || bids[k].freelancerId != userId
    ensures !HasBid(bids - {id}, bids[id].projectId, userId)
  {
  }

  function BidCreatedAt(r: (int, Bid)): real {
    r.1.createdAt as real
  }

  /** The caller's bids, newest first. */
  method MyBids(db: Db, userId: UserId) returns (r: seq<(int, Bid)>)
    ensures forall x :: x in r <==> x.0 in db.bids && db.bids[x.0] == x.1 && x.1.freelancerId == userId
    ensures forall i, j :: 0 <= i < j < |r| ==> r[i].1.createdAt >= r[j].1.createdAt
    ensures forall i, j :: 0 <= i < j < |r| ==> r[i].0 != r[j].0
  {
    var rows := Rows(db.bids);
    r := Listing.Query(rows, (x: (int, Bid)) => x.1.freelancerId == userId, BidCreatedAt, true);
    Listing.SelectionKeepsKeysDistinct(rows, r);
  }
}
