/**
 * The listing queries: a filter over a table's rows followed by an ordering.
 * A table's rows are given as the sequence the database returns them in,
 * each paired with its id. The database does not promise an order among rows
 * with equal sort keys, so the queries promise only that the result is
 * ordered by the key and holds exactly the matching rows.
 */
module Listing {
  import opened Domain

  // ------------------------------------------------------------ filter

  /** `Where`: the rows satisfying `p`, in their original order. */
  function Filter<T(!new)>(rows: seq<T>, p: T -> bool): (r: seq<T>)
    ensures forall x :: x in r <==> x in rows && p(x)
    ensures forall x :: multiset(r)[x] == if p(x) then multiset(rows)[x] else 0
    ensures |r| <= |rows|
  {
    if rows == [] then []
    else
      assert rows == [rows[0]] + rows[1..];
      var rest := Filter(rows[1..], p);
      if p(rows[0]) then [rows[0]] + rest else rest
  }

  // ------------------------------------------------------------ ids

  /** No id occurs twice among the rows: each row of the table is listed once. */
  predicate DistinctKeys<T>(rows: seq<(int, T)>) {
    forall i, j :: 0 <= i < j < |rows| ==> rows[i].0 != rows[j].0
  }

  /** A row occurs at most once where no id repeats. */
  lemma {:induction false} AtMostOnce<T>(rows: seq<(int, T)>, x: (int, T))
    requires DistinctKeys(rows)
    ensures multiset(rows)[x] <= 1
  {
    if rows != [] {
      assert rows == [rows[0]] + rows[1..];
      assert DistinctKeys(rows[1..]) by {
        forall i, j | 0 <= i < j < |rows[1..]| ensures rows[1..][i].0 != rows[1..][j].0 {
          assert rows[1..][i] == rows[i + 1] && rows[1..][j] == rows[j + 1];
        }
      }
      AtMostOnce(rows[1..], x);
      if rows[0] == x {
        assert x !in rows[1..] by {
          forall k | 0 <= k < |rows[1..]| ensures rows[1..][k] != x {
            assert rows[1..][k] == rows[k + 1];
          }
        }
      }
    }
  }

  /** A value at two positions is counted at least twice. */
  lemma Twice<T>(s: seq<T>, i: int, j: int)
    requires 0 <= i < j < |s|
    ensures s[i] == s[j] ==> multiset(s)[s[i]] >= 2
  {
    assert s == s[..j] + [s[j]] + s[j + 1..];
    assert s[i] in s[..j];
  }

  /** Where no id repeats, two rows with one id are one row. */
  lemma KeyDeterminesRow<T>(rows: seq<(int, T)>, x: (int, T), y: (int, T))
    requires DistinctKeys(rows) && x in rows && y in rows
    ensures x.0 == y.0 ==> x == y
  {
    var a :| 0 <= a < |rows| && rows[a] == x;
    var b :| 0 <= b < |rows| && rows[b] == y;
  }

  /**
   * Rows selected from `rows` without repeating any of them (a filter, a
   * reordering) keep every id distinct.
   */
  lemma SelectionKeepsKeysDistinct<T>(rows: seq<(int, T)>, r: seq<(int, T)>)
    requires forall x :: multiset(r)[x] <= multiset(rows)[x]
    ensures DistinctKeys(rows) ==> DistinctKeys(r)
  {
    if DistinctKeys(rows) {
      forall i, j | 0 <= i < j < |r| ensures r[i].0 != r[j].0 {
        assert r[i] in multiset(r) && r[j] in multiset(r);
        assert multiset(rows)[r[i]] > 0 && multiset(rows)[r[j]] > 0;
        KeyDeterminesRow(rows, r[i], r[j]);
        Twice(r, i, j);
        AtMostOnce(rows, r[i]);
      }
    }
  }

  // ------------------------------------------------------------ ordering

  /** `a` may come before `b`: not smaller when descending, not larger when ascending. */
  predicate Before(a: real, b: real, descending: bool) {
    if descending then a >= b else a <= b
  }

  predicate SortedBy<T>(s: seq<T>, key: T -> real, descending: bool) {
    forall i, j :: 0 <= i < j < |s| ==> Before(key(s[i]), key(s[j]), descending)
  }

  function Insert<T>(x: T, s: seq<T>, key: T -> real, descending: bool): (r: seq<T>)
    requires SortedBy(s, key, descending)
    ensures SortedBy(r, key, descending)
    ensures multiset(r) == multiset(s) + multiset{x}
  {
    if s == [] || Before(key(x), key(s[0]), descending) then
      [x] + s
    else
      assert s == [s[0]] + s[1..];
      var rest := Insert(x, s[1..], key, descending);
      assert forall y :: y in rest ==> Before(key(s[0]), key(y), descending) by {
        forall y | y in rest ensures Before(key(s[0]), key(y), descending) {
          assert y in multiset(rest);
          if y != x {
            assert y in multiset(s[1..]);
          }
        }
      }
      [s[0]] + rest
  }

  /** `OrderBy` / `OrderByDescending` on `key`. */
  function SortBy<T>(s: seq<T>, key: T -> real, descending: bool): (r: seq<T>)
    ensures SortedBy(r, key, descending)
    ensures multiset(r) == multiset(s)
  {
    if s == [] then []
    else
      assert s == [s[0]] + s[1..];
      Insert(s[0], SortBy(s[1..], key, descending), key, descending)
  }

  /** A filter followed by an ordering: the shape of every listing action. */
  function Query<T(!new)>(rows: seq<T>, p: T -> bool, key: T -> real, descending: bool): (r: seq<T>)
    ensures forall x :: x in r <==> x in rows && p(x)
    ensures multiset(r) == multiset(Filter(rows, p))
    ensures SortedBy(r, key, descending)
  {
    var f := Filter(rows, p);
    var r := SortBy(f, key, descending);
    assert forall x :: x in r <==> x in f by {
      forall x ensures x in r <==> x in f {
        assert x in r <==> x in multiset(r);
        assert x in f <==> x in multiset(f);
      }
    }
    r
  }

  // ------------------------------------------------------------ search parameters

  /** `a.Contains(b)`: ordinal substring test. */
  predicate Contains(a: string, b: string) {
    exists i :: 0 <= i <= |a| - |b| && OccursAt(a, b, i)
  }

  predicate OccursAt(a: string, b: string, i: int) {
    0 <= i <= |a| - |b| && a[i..i + |b|] == b
  }

  /** `Enum.TryParse<ProjectStatus>` on a member name. */
  function ParseProjectStatus(s: string): Option<ProjectStatus> {
    match s
    case "Open" => Some(ProjectStatus.Open)
    case "InProgress" => Some(ProjectStatus.InProgress)
    case "Paid" => Some(ProjectStatus.Paid)
    case "Completed" => Some(ProjectStatus.Completed)
    case "Cancelled" => Some(ProjectStatus.Cancelled)
    case _ => None
  }

  /** `Enum.TryParse<ServiceStatus>` on a member name. */
  function ParseServiceStatus(s: string): Option<ServiceStatus> {
    match s
    case "Available" => Some(ServiceStatus.Available)
    case "Unavailable" => Some(ServiceStatus.Unavailable)
    case _ => None
  }

  /** The query string of the project and service listings. */
  datatype ListQuery = ListQuery(
    search: Option<string>,
    status: Option<string>,
    minBudget: Option<real>,
    maxBudget: Option<real>,
    sort: Option<string>)

  predicate SearchMatches(q: ListQuery, title: string, description: string) {
    IsBlank(q.search) || Contains(title, q.search.value) || Contains(description, q.search.value)
  }

  /** Inclusive budget bounds, each applied only when given. */
  predicate WithinBudget(q: ListQuery, amount: real) {
    (q.minBudget.None? || amount >= q.minBudget.value) && (q.maxBudget.None? || amount <= q.maxBudget.value)
  }

  /** The status filter applies only when the text is present and parses. */
  predicate ProjectMatches(q: ListQuery, p: Project) {
    && SearchMatches(q, p.title, p.description)
    && (IsBlank(q.status) || ParseProjectStatus(q.status.value).None? || p.status == ParseProjectStatus(q.status.value).value)
    && WithinBudget(q, p.budget)
  }

  predicate ServiceMatches(q: ListQuery, s: Service) {
    && SearchMatches(q, s.title, s.description)
    && (IsBlank(q.status) || ParseServiceStatus(q.status.value).None? || s.status == ParseServiceStatus(q.status.value).value)
    && WithinBudget(q, s.price)
  }

  /** "budget_desc" sorts by amount descending, "budget_asc" ascending, anything else newest first. */
  predicate SortsByAmount(q: ListQuery) {
    q.sort == Some("budget_desc") || q.sort == Some("budget_asc")
  }

  predicate SortDescending(q: ListQuery) {
    q.sort != Some("budget_asc")
  }

  function ProjectKey(q: ListQuery): ((int, Project)) -> real {
    if SortsByAmount(q) then (r: (int, Project)) => r.1.budget else (r: (int, Project)) => r.1.createdAt as real
  }

  function ServiceKey(q: ListQuery): ((int, Service)) -> real {
    if SortsByAmount(q) then (r: (int, Service)) => r.1.price else (r: (int, Service)) => r.1.createdAt as real
  }

  /** The project listing: exactly the matching projects, in the requested order. */
  function ProjectsQuery(rows: seq<(int, Project)>, q: ListQuery): (r: seq<(int, Project)>)
    ensures forall x :: x in r <==> x in rows && ProjectMatches(q, x.1)
    ensures forall x :: multiset(r)[x] == if ProjectMatches(q, x.1) then multiset(rows)[x] else 0
    ensures |r| <= |rows|
    ensures DistinctKeys(rows) ==> DistinctKeys(r)
    ensures q.sort == Some("budget_desc") ==> forall i, j :: 0 <= i < j < |r| ==> r[i].1.budget >= r[j].1.budget
    ensures q.sort == Some("budget_asc") ==> forall i, j :: 0 <= i < j < |r| ==> r[i].1.budget <= r[j].1.budget
    ensures !SortsByAmount(q) ==> forall i, j :: 0 <= i < j < |r| ==> r[i].1.createdAt >= r[j].1.createdAt
  {
    var p := (x: (int, Project)) => ProjectMatches(q, x.1);
    var r := Query(rows, p, ProjectKey(q), SortDescending(q));
    assert |r| == |Filter(rows, p)| by {
      assert |multiset(r)| == |multiset(Filter(rows, p))|;
    }
    SelectionKeepsKeysDistinct(rows, r);
    r
  }

  /** The service listing: exactly the matching services, in the requested order. */
  function ServicesQuery(rows: seq<(int, Service)>, q: ListQuery): (r: seq<(int, Service)>)
    ensures forall x :: x in r <==> x in rows && ServiceMatches(q, x.1)
    ensures forall x :: multiset(r)[x] == if ServiceMatches(q, x.1) then multiset(rows)[x] else 0
    ensures |r| <= |rows|
    ensures DistinctKeys(rows) ==> DistinctKeys(r)
    ensures q.sort == Some("budget_desc") ==> forall i, j :: 0 <= i < j < |r| ==> r[i].1.price >= r[j].1.price
    ensures q.sort == Some("budget_asc") ==> forall i, j :: 0 <= i < j < |r| ==> r[i].1.price <= r[j].1.price
    ensures !SortsByAmount(q) ==> forall i, j :: 0 <= i < j < |r| ==> r[i].1.createdAt >= r[j].1.createdAt
  {
    var p := (x: (int, Service)) => ServiceMatches(q, x.1);
    var r := Query(rows, p, ServiceKey(q), SortDescending(q));
    assert |r| == |Filter(rows, p)| by {
      assert |multiset(r)| == |multiset(Filter(rows, p))|;
    }
    SelectionKeepsKeysDistinct(rows, r);
    r
  }

  /** A status text that does not parse filters nothing out. */
  lemma UnparsedStatusIgnored(rows: seq<(int, Project)>, q: ListQuery)
    requires q.status.Some? && ParseProjectStatus(q.status.value).None?
    ensures ProjectsQuery(rows, q) == ProjectsQuery(rows, q.(status := None))
  {
    var q' := q.(status := None);
    var p := (x: (int, Project)) => ProjectMatches(q, x.1);
    var p' := (x: (int, Project)) => ProjectMatches(q', x.1);
    FilterSame(rows, p, p');
    assert ProjectKey(q) == ProjectKey(q');
  }

  lemma {:induction false} FilterSame<T(!new)>(rows: seq<T>, p: T -> bool, p': T -> bool)
    requires forall x :: p(x) == p'(x)
    ensures Filter(rows, p) == Filter(rows, p')
  {
    if rows != [] {
      FilterSame(rows[1..], p, p');
    }
  }

  /** Both budget bounds are inclusive: a project priced exactly at a bound is listed. */
  lemma BudgetBoundsInclusive(rows: seq<(int, Project)>, q: ListQuery, x: (int, Project))
    requires x in rows && IsBlank(q.search) && IsBlank(q.status)
    requires q.minBudget == Some(x.1.budget) && q.maxBudget == Some(x.1.budget)
    ensures x in ProjectsQuery(rows, q)
  {
  }

  /** Every listed service has the status asked for, when the status text parses. */
  lemma ServicesWithParsedStatus(rows: seq<(int, Service)>, q: ListQuery, st: ServiceStatus)
    requires q.status.Some? && ParseServiceStatus(q.status.value) == Some(st)
    ensures forall x :: x in ServicesQuery(rows, q) ==> x.1.status == st
  {
    assert !IsBlank(q.status) by {
      assert q.status.value != [] && !IsWhiteSpace(q.status.value[0]);
    }
  }
}
