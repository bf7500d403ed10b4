/**
 * The administrator's project page: reopen, close or delete any project,
 * whoever owns it and whatever its status. Closing touches only the
 * project's status; its bids stay as they are.
 */
module AdminProjects {
  import opened Domain
  import opened Data

  /** Sets the project's status to Open from any status. */
  method Open(db: Db, id: int) returns (r: Result<Unit>)
    requires db.Valid()
    modifies db
    ensures db.Valid()
    ensures id !in old(db.projects) ==> r == Err(NotFound) && db.State() == old(db.State())
    ensures id in old(db.projects) ==>
      r.Ok? && db.State() == old(db.State()).(projects := old(db.projects)[id := old(db.projects)[id].(status := ProjectStatus.Open)])
  {
    if id !in db.projects {
      return Err(NotFound);
    }
    db.projects := db.projects[id := db.projects[id].(status := ProjectStatus.Open)];
    r := Ok(());
  }

  /** Sets the project's status to Cancelled from any status; bids are not touched. */
  method Close(db: Db, id: int) returns (r: Result<Unit>)
    requires db.Valid()
    modifies db
    ensures db.Valid()
    ensures id !in old(db.projects) ==> r == Err(NotFound) && db.State() == old(db.State())
    ensures id in old(db.projects) ==>
      r.Ok? && db.State() == old(db.State()).(projects := old(db.projects)[id := old(db.projects)[id].(status := ProjectStatus.Cancelled)])
  {
    if id !in db.projects {
      return Err(NotFound);
    }
    db.projects := db.projects[id := db.projects[id].(status := ProjectStatus.Cancelled)];
    r := Ok(());
  }

  /** Removes exactly that project. */
  method Delete(db: Db, id: int) returns (r: Result<Unit>)
    requires db.Valid()
    modifies db
    ensures db.Valid()
    ensures id !in old(db.projects) ==> r == Err(NotFound) && db.State() == old(db.State())
    ensures id in old(db.projects) ==> r.Ok? && db.State() == old(db.State()).(projects := old(db.projects) - {id})
  {
    if id !in db.projects {
      return Err(NotFound);
    }
    db.projects := db.projects - {id};
    r := Ok(());
  }
}
