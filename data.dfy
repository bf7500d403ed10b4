/**
 * The application's store (AppDbContext): one table per entity, each a map
 * from the row's id to the row, and an identity counter per integer-keyed
 * table from which inserts take their id. Profiles are keyed by user id.
 *
 * The store enforces no foreign keys: a row may name a parent that is not
 * there, and the actions deal with that as the source does.
 */
module Data {
  import opened Domain

  /** A snapshot of every table, so that an action can state its whole effect. */
  datatype Tables = Tables(
    projects: map<int, Project>,
    bids: map<int, Bid>,
    services: map<int, Service>,
    orders: map<int, Order>,
    payments: map<int, Payment>,
    chats: map<int, Chat>,
    profiles: map<UserId, UserProfile>)

  class Db {
    var projects: map<int, Project>
    var bids: map<int, Bid>
    var services: map<int, Service>
    var orders: map<int, Order>
    var payments: map<int, Payment>
    var chats: map<int, Chat>
    var profiles: map<UserId, UserProfile>

    var nextProjectId: int
    var nextBidId: int
    var nextServiceId: int
    var nextOrderId: int
    var nextPaymentId: int

    /** Every integer id in use is positive and below its table's counter. */
    ghost predicate Valid()
      reads this
    {
      && (forall k :: k in projects ==> 0 < k < nextProjectId)
      && (forall k :: k in bids ==> 0 < k < nextBidId)
      && (forall k :: k in services ==> 0 < k < nextServiceId)
      && (forall k :: k in orders ==> 0 < k < nextOrderId)
      && (forall k :: k in payments ==> 0 < k < nextPaymentId)
      && nextProjectId > 0 && nextBidId > 0 && nextServiceId > 0 && nextOrderId > 0 && nextPaymentId > 0
    }

    function State(): Tables
      reads this
    {
      Tables(projects, bids, services, orders, payments, chats, profiles)
    }

    constructor Empty()
      ensures Valid()
      ensures State() == Tables(map[], map[], map[], map[], map[], map[], map[])
    {
      projects, bids, services, orders := map[], map[], map[], map[];
      payments, chats, profiles := map[], map[], map[];
      nextProjectId, nextBidId, nextServiceId, nextOrderId, nextPaymentId := 1, 1, 1, 1, 1;
    }

    /** The identity column hands out the next project id. */
    method NewProjectId() returns (id: int)
      requires Valid()
      modifies this`nextProjectId
      ensures Valid() && 0 < id < nextProjectId && id !in projects
    {
      id := nextProjectId;
      nextProjectId := nextProjectId + 1;
    }

    method NewBidId() returns (id: int)
      requires Valid()
      modifies this`nextBidId
      ensures Valid() && 0 < id < nextBidId && id !in bids
    {
      id := nextBidId;
      nextBidId := nextBidId + 1;
    }

    method NewServiceId() returns (id: int)
      requires Valid()
      modifies this`nextServiceId
      ensures Valid() && 0 < id < nextServiceId && id !in services
    {
      id := nextServiceId;
      nextServiceId := nextServiceId + 1;
    }

    method NewOrderId() returns (id: int)
      requires Valid()
      modifies this`nextOrderId
      ensures Valid() && 0 < id < nextOrderId && id !in orders
    {
      id := nextOrderId;
      nextOrderId := nextOrderId + 1;
    }

    method NewPaymentId() returns (id: int)
      requires Valid()
      modifies this`nextPaymentId
      ensures Valid() && 0 < id < nextPaymentId && id !in payments
    {
      id := nextPaymentId;
      nextPaymentId := nextPaymentId + 1;
    }
  }

  /**
   * Lists the members of a finite set in some order, each exactly once: how
   * the database hands back the rows a query selects.
   */
  method Enumerate<K>(s: set<K>) returns (xs: seq<K>)
    ensures forall k :: k in s <==> k in xs
    ensures |xs| == |s|
    ensures forall i, j :: 0 <= i < j < |xs| ==> xs[i] != xs[j]
  {
    xs := [];
    var rest := s;
    while rest != {}
      invariant rest <= s
      invariant forall k :: k in s <==> k in xs || k in rest
      invariant forall k :: k in xs ==> k !in rest
      invariant |xs| + |rest| == |s|
      invariant forall i, j :: 0 <= i < j < |xs| ==> xs[i] != xs[j]
      decreases rest
    {
      var k :| k in rest;
      xs := xs + [k];
      rest := rest - {k};
    }
  }

  /**
   * The rows of an integer-keyed table, each with its id, in some order: what
   * a query over the whole table hands back before any filtering.
   */
  method Rows<T>(m: map<int, T>) returns (rows: seq<(int, T)>)
    ensures forall r :: r in rows <==> r.0 in m && m[r.0] == r.1
    ensures |rows| == |m|
    ensures forall i, j :: 0 <= i < j < |rows| ==> rows[i].0 != rows[j].0
  {
    var ks := Enumerate(m.Keys);
    rows := seq(|ks|, i requires 0 <= i < |ks| => (ks[i], m[ks[i]]));
    assert forall r :: r in rows ==> r.0 in m && m[r.0] == r.1 by {
      forall r | r in rows ensures r.0 in m && m[r.0] == r.1 {
        var i :| 0 <= i < |rows| && rows[i] == r;
      }
    }
    forall r: (int, T) | r.0 in m && m[r.0] == r.1 ensures r in rows {
      var i :| 0 <= i < |ks| && ks[i] == r.0;
      assert rows[i] == r;
    }
  }

  /** `m` is at least every member of `s`. */
  predicate Bounds(s: set<int>, m: int) {
    forall k :: k in s ==> k <= m
  }

  /** Every finite non-empty set of ids has a largest member. */
  lemma {:induction false} LargestExists(s: set<int>)
    requires s != {}
    ensures exists m :: m in s && Bounds(s, m)
    decreases |s|
  {
    if forall m :: m !in s {
      assert false;
    }
    var x :| x in s;
    if !Bounds(s, x) {
      var y :| y in s && y > x;
      var rest := s - {x};
      assert y in rest;
      LargestExists(rest);
      var m :| m in rest && Bounds(rest, m);
      assert x < y <= m;
      forall k | k in s ensures k <= m {
        if k != x {
          assert k in rest;
        }
      }
    }
  }

  /** The largest id in a non-empty set of ids. */
  function Largest(s: set<int>): (m: int)
    requires s != {}
    ensures m in s && Bounds(s, m)
  {
    LargestExists(s);
    var m :| m in s && Bounds(s, m);
    m
  }
}
