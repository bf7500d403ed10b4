/**
 * Freelancer profiles: the public profile page, which gathers the user's
 * name, "about me" text and services with their order counts, and the
 * owner's create-if-absent and edit actions. Profiles are keyed by user id,
 * so a user has at most one. Users come from the identity store, given here
 * as a map from user id to user.
 */
module Profiles {
  import opened Domain
  import opened Data
  import Listing

  /** The name shown for a user who has none. */
  const NoName: string := "(Без имени)"

  /** One service on the profile page. */
  datatype ServiceInfo = ServiceInfo(
    id: int,
    title: string,
    description: string,
    freelancerId: UserId,
    price: real,
    status: string,
    ordersCount: nat)

  datatype PublicProfile = PublicProfile(userId: UserId, userName: string, aboutMe: string, services: seq<ServiceInfo>)

  /** `ServiceStatus.ToString()`: the member's name, which the listings' status filter parses back. */
  function StatusName(s: ServiceStatus): (r: string)
    ensures Listing.ParseServiceStatus(r) == Some(s)
  {
    match s
    case Available => "Available"
    case Unavailable => "Unavailable"
  }

  /** `s.Orders.Count`: the orders that name the service. */
  function OrdersCount(orders: map<int, Order>, serviceId: int): nat {
    |set k | k in orders && orders[k].serviceId == serviceId|
  }

  /** Placing an order on a service raises that service's count by one and no other's. */
  lemma OrdersCountAfterInsert(orders: map<int, Order>, k: int, o: Order, serviceId: int)
    requires k !in orders
    ensures OrdersCount(orders[k := o], serviceId) == OrdersCount(orders, serviceId) + (if o.serviceId == serviceId then 1 else 0)
  {
    var m := orders[k := o];
    var before := set j | j in orders && orders[j].serviceId == serviceId;
    var after := set j | j in m && m[j].serviceId == serviceId;
    if o.serviceId == serviceId {
      assert after == before + {k};
    } else {
      assert after == before;
    }
  }

  function InfoOf(orders: map<int, Order>, row: (int, Service)): ServiceInfo {
    ServiceInfo(row.0, row.1.title, row.1.description, row.1.freelancerId, row.1.price,
                StatusName(row.1.status), OrdersCount(orders, row.0))
  }

  /**
   * The public profile: NotFound for an empty or unknown user id; otherwise
   * the user's name (or a placeholder), the profile text (or "" without a
   * profile) and exactly the user's services, each with its order count.
   */
  method Public(db: Db, users: map<UserId, IdentityUser>, userId: Option<string>) returns (r: Result<PublicProfile>)
    ensures r.Err? ==> r == Err(NotFound)
    ensures r.Ok? <==> !IsNullOrEmpty(userId) && userId.value in users
    ensures r.Ok? ==>
      && r.value.userId == userId.value
      && r.value.userName == (if users[userId.value].userName.Some? then users[userId.value].userName.value else NoName)
      && r.value.aboutMe == (if userId.value in db.profiles then db.profiles[userId.value].aboutMe else "")
    ensures r.Ok? ==> forall d :: d in r.value.services <==>
      d.id in db.services && db.services[d.id].freelancerId == userId.value && d == InfoOf(db.orders, (d.id, db.services[d.id]))
    ensures r.Ok? ==> forall i, j :: 0 <= i < j < |r.value.services| ==> r.value.services[i].id != r.value.services[j].id
  {
    if IsNullOrEmpty(userId) {
      return Err(NotFound);
    }
    var id := userId.value;
    if id !in users {
      return Err(NotFound);
    }
    var rows := Rows(db.services);
    var mine := Listing.Filter(rows, (x: (int, Service)) => x.1.freelancerId == id);
    var orders := db.orders;
    var infos := seq(|mine|, i requires 0 <= i < |mine| => InfoOf(orders, mine[i]));
    Listing.SelectionKeepsKeysDistinct(rows, mine);
    forall d | d in infos
      ensures d.id in db.services && db.services[d.id].freelancerId == id && d == InfoOf(db.orders, (d.id, db.services[d.id]))
    {
      var i :| 0 <= i < |infos| && infos[i] == d;
      assert mine[i] in mine;
      assert mine[i] in rows && mine[i].1.freelancerId == id;
    }
    forall d: ServiceInfo | d.id in db.services && db.services[d.id].freelancerId == id && d == InfoOf(db.orders, (d.id, db.services[d.id]))
      ensures d in infos
    {
      var x := (d.id, db.services[d.id]);
      assert x in mine;
      var i :| 0 <= i < |mine| && mine[i] == x;
      assert infos[i] == d;
    }
    var name := if users[id].userName.Some? then users[id].userName.value else NoName;
    var about := if id in db.profiles then db.profiles[id].aboutMe else "";
    r := Ok(PublicProfile(id, name, about, infos));
  }

  /** The profiles after My: the user's profile kept if present, otherwise an empty one added. */
  function EnsureProfile(profiles: map<UserId, UserProfile>, userId: UserId): (r: map<UserId, UserProfile>)
    ensures r.Keys == profiles.Keys + {userId}
    ensures r[userId] == if userId in profiles then profiles[userId] else UserProfile("")
    ensures forall u :: u in profiles ==> r[u] == profiles[u]
  {
    if userId in profiles then profiles else profiles[userId := UserProfile("")]
  }

  /** Opening "my profile" twice creates nothing the second time. */
  lemma EnsureProfileIdempotent(profiles: map<UserId, UserProfile>, userId: UserId)
    ensures EnsureProfile(EnsureProfile(profiles, userId), userId) == EnsureProfile(profiles, userId)
  {
  }

  /**
   * "My profile": creates an empty profile for the caller when there is none
   * and leaves an existing one untouched. A request without a user fails
   * with an unhandled exception.
   */
  method My(db: Db, userId: Option<UserId>) returns (r: Result<UserId>)
    requires db.Valid()
    modifies db
    ensures db.Valid()
    ensures userId.None? ==> r == Err(ServerError) && db.State() == old(db.State())
    ensures userId.Some? ==> r == Ok(userId.value) && db.State() == old(db.State()).(profiles := EnsureProfile(old(db.profiles), userId.value))
  {
    if userId.None? {
      return Err(ServerError);
    }
    var id := userId.value;
    if id !in db.profiles {
      db.profiles := db.profiles[id := UserProfile("")];
    }
    r := Ok(id);
  }

  /** The profile the edit form shows: the stored one, or a fresh empty one that is not saved. */
  function FormOf(profiles: map<UserId, UserProfile>, userId: UserId): (p: UserProfile)
    ensures userId in profiles ==> p == profiles[userId]
    ensures userId !in profiles ==> p.aboutMe == ""
  {
    if userId in profiles then profiles[userId] else UserProfile("")
  }

  /** The edit form: Unauthorized without a user; it never inserts a profile. */
  method EditForm(db: Db, userId: Option<UserId>) returns (r: Result<UserProfile>)
    ensures userId.None? ==> r == Err(Unauthorized)
    ensures userId.Some? ==> r == Ok(FormOf(db.profiles, userId.value))
  {
    if userId.None? {
      return Err(Unauthorized);
    }
    r := Ok(FormOf(db.profiles, userId.value));
  }

  /** The text Edit stores: an absent text becomes "". */
  function AboutMeOf(aboutMe: Option<string>): string {
    if aboutMe.Some? then aboutMe.value else ""
  }

  /**
   * Saves the caller's profile text, inserting the profile when there is
   * none and updating it otherwise; Unauthorized without a user.
   */
  method Edit(db: Db, userId: Option<UserId>, aboutMe: Option<string>) returns (r: Result<UserId>)
    requires db.Valid()
    modifies db
    ensures db.Valid()
    ensures userId.None? ==> r == Err(Unauthorized) && db.State() == old(db.State())
    ensures userId.Some? ==>
      r == Ok(userId.value) && db.State() == old(db.State()).(profiles := old(db.profiles)[userId.value := UserProfile(AboutMeOf(aboutMe))])
  {
    if userId.None? {
      return Err(Unauthorized);
    }
    var id := userId.value;
    var text := if aboutMe.Some? then aboutMe.value else "";
    if id !in db.profiles {
      db.profiles := db.profiles[id := UserProfile(text)];
    } else {
      db.profiles := db.profiles[id := db.profiles[id].(aboutMe := text)];
    }
    r := Ok(id);
  }

  /**
   * After Edit the user has exactly one profile, the form and the public page
   * show the saved text, and a later "my profile" changes nothing.
   */
  lemma EditIsUpsert(profiles: map<UserId, UserProfile>, userId: UserId, aboutMe: Option<string>)
    ensures var after := profiles[userId := UserProfile(AboutMeOf(aboutMe))];
      && after.Keys == profiles.Keys + {userId}
      && FormOf(after, userId).aboutMe == AboutMeOf(aboutMe)
      && EnsureProfile(after, userId) == after
      && (forall u :: u in profiles && u != userId ==> after[u] == profiles[u])
  {
  }
}
