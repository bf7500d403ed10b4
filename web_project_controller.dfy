/** The public project catalogue of the web site. */
module WebProjects {
  import opened Domain
  import opened Data
  import Listing

  /** The catalogue, filtered and ordered as the query string asks: the same query as the API listing. */
  method Index(db: Db, q: Listing.ListQuery) returns (r: seq<(int, Project)>)
    ensures forall x :: x in r <==> x.0 in db.projects && db.projects[x.0] == x.1 && Listing.ProjectMatches(q, x.1)
    ensures q.sort == Some("budget_desc") ==> forall i, j :: 0 <= i < j < |r| ==> r[i].1.budget >= r[j].1.budget
    ensures q.sort == Some("budget_asc") ==> forall i, j :: 0 <= i < j < |r| ==> r[i].1.budget <= r[j].1.budget
    ensures !Listing.SortsByAmount(q) ==> forall i, j :: 0 <= i < j < |r| ==> r[i].1.createdAt >= r[j].1.createdAt
    ensures forall i, j :: 0 <= i < j < |r| ==> r[i].0 != r[j].0
  {
    var rows := Rows(db.projects);
    r := Listing.ProjectsQuery(rows, q);
  }
}
