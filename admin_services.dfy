/**
 * The administrator's service page: make any service available or
 * unavailable, or delete it. Unlike the freelancer's withdrawal, making a
 * service unavailable here leaves its orders as they are.
 */
module AdminServices {
  import opened Domain
  import opened Data
  import WebServices

  /** The whole effect of the administrator's Close: only the service's status changes. */
  function CloseEffect(t: Tables, id: int): (r: Tables)
    requires id in t.services
    ensures r.orders == t.orders && r.services.Keys == t.services.Keys
    ensures r.services[id].status == ServiceStatus.Unavailable
  {
    t.(services := t.services[id := t.services[id].(status := ServiceStatus.Unavailable)])
  }

  /** Sets the service's status to Available from any status. */
  method Open(db: Db, id: int) returns (r: Result<Unit>)
    requires db.Valid()
    modifies db
    ensures db.Valid()
    ensures id !in old(db.services) ==> r == Err(NotFound) && db.State() == old(db.State())
    ensures id in old(db.services) ==>
      r.Ok? && db.State() == old(db.State()).(services := old(db.services)[id := old(db.services)[id].(status := ServiceStatus.Available)])
  {
    if id !in db.services {
      return Err(NotFound);
    }
    db.services := db.services[id := db.services[id].(status := ServiceStatus.Available)];
    r := Ok(());
  }

  /** Sets the service's status to Unavailable from any status, leaving its orders alone. */
  method Close(db: Db, id: int) returns (r: Result<Unit>)
    requires db.Valid()
    modifies db
    ensures db.Valid()
    ensures id !in old(db.services) ==> r == Err(NotFound) && db.State() == old(db.State())
    ensures id in old(db.services) ==> r.Ok? && db.State() == CloseEffect(old(db.State()), id)
  {
    if id !in db.services {
      return Err(NotFound);
    }
    db.services := db.services[id := db.services[id].(status := ServiceStatus.Unavailable)];
    r := Ok(());
  }

  /**
   * The administrator's Close and the freelancer's withdrawal leave the
   * service in the same state, but only the withdrawal rejects its orders:
   * they agree exactly when no order of the service is left to reject.
   */
  lemma CloseDiffersFromCancel(t: Tables, id: int)
    requires id in t.services
    ensures CloseEffect(t, id).services == WebServices.CancelEffect(t, id).services
    ensures CloseEffect(t, id) == WebServices.CancelEffect(t, id) <==>
      forall k :: k in t.orders && t.orders[k].serviceId == id ==> t.orders[k].status.Rejected?
  {
    var c := WebServices.CancelEffect(t, id);
    if forall k :: k in t.orders && t.orders[k].serviceId == id ==> t.orders[k].status.Rejected? {
      assert c.orders == t.orders by {
        forall k | k in t.orders ensures c.orders[k] == t.orders[k] {
          if t.orders[k].serviceId == id {
            assert t.orders[k].status == OrderStatus.Rejected;
          }
        }
      }
    } else {
      var k :| k in t.orders && t.orders[k].serviceId == id && !t.orders[k].status.Rejected?;
      assert c.orders[k] != t.orders[k];
    }
  }

  /** Removes exactly that service row; the database's cascade to its orders is not part of this model. */
  method Delete(db: Db, id: int) returns (r: Result<Unit>)
    requires db.Valid()
    modifies db
    ensures db.Valid()
    ensures id !in old(db.services) ==> r == Err(NotFound) && db.State() == old(db.State())
    ensures id in old(db.services) ==> r.Ok? && db.State() == old(db.State()).(services := old(db.services) - {id})
  {
    if id !in db.services {
      return Err(NotFound);
    }
    db.services := db.services - {id};
    r := Ok(());
  }
}
