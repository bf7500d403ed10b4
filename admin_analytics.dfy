/**
 * The administrator's dashboard: the size of each table and, for the six
 * calendar months ending with the current one, the month and its revenue.
 * Revenue is the price of every completed order's service plus the amount
 * of every accepted bid, each counted in the month it was created.
 *
 * Months are numbered consecutively (year * 12 + month - 1); which month a
 * timestamp falls in is the calendar's business and is given as a function.
 */
module Analytics {
  import opened Domain
  import opened Data

  /** Number of months on the dashboard. */
  const Slots: nat := 6

  /** The sum of `f` over the rows of a table (a database SUM, which is 0 over no rows). */
  function SumOf<T>(m: map<int, T>, f: T -> real): real
    decreases m.Keys
  {
    if m.Keys == {} then 0.0
    else
      var k := Largest(m.Keys);
      f(m[k]) + SumOf(m - {k}, f)
  }

  /** A sum does not depend on the order rows are added in: any one row can be taken out first. */
  lemma {:induction false} SumOfRemove<T>(m: map<int, T>, f: T -> real, k: int)
    requires k in m
    ensures SumOf(m, f) == f(m[k]) + SumOf(m - {k}, f)
    decreases m.Keys
  {
    var j := Largest(m.Keys);
    if k != j {
      SumOfRemove(m - {j}, f, k);
      var rest := m - {k};
      assert j in rest.Keys && Bounds(rest.Keys, j);
      assert Largest(rest.Keys) == j;
      assert rest - {j} == (m - {j}) - {k};
    }
  }

  /** Rows that contribute nothing leave the sum at 0. */
  lemma {:induction false} SumOfZero<T>(m: map<int, T>, f: T -> real)
    requires forall k :: k in m ==> f(m[k]) == 0.0
    ensures SumOf(m, f) == 0.0
    decreases m.Keys
  {
    if m.Keys != {} {
      SumOfZero(m - {Largest(m.Keys)}, f);
    }
  }

  /** What an order adds to a month: its service's price if it was completed and created that month. */
  function OrderRevenue(services: map<int, Service>, monthOf: int -> int, month: int): Order -> real {
    (o: Order) =>
      if o.status.Completed? && monthOf(o.createdAt) == month && o.serviceId in services
      then services[o.serviceId].price else 0.0
  }

  /** What a bid adds to a month: its amount if it was accepted and created that month. */
  function BidRevenue(monthOf: int -> int, month: int): Bid -> real {
    (b: Bid) => if b.status.Accepted? && monthOf(b.createdAt) == month then b.amount else 0.0
  }

  function Revenue(t: Tables, monthOf: int -> int, month: int): real {
    SumOf(t.orders, OrderRevenue(t.services, monthOf, month)) + SumOf(t.bids, BidRevenue(monthOf, month))
  }

  /** A month with no completed order and no accepted bid has no revenue. */
  lemma EmptyMonthHasNoRevenue(t: Tables, monthOf: int -> int, month: int)
    requires forall k :: k in t.orders && t.orders[k].status.Completed? ==> monthOf(t.orders[k].createdAt) != month
    requires forall k :: k in t.bids && t.bids[k].status.Accepted? ==> monthOf(t.bids[k].createdAt) != month
    ensures Revenue(t, monthOf, month) == 0.0
  {
    SumOfZero(t.orders, OrderRevenue(t.services, monthOf, month));
    SumOfZero(t.bids, BidRevenue(monthOf, month));
  }

  /** A new order that is not completed, or a new bid that is not accepted, changes no month's revenue. */
  lemma OtherStatusesAddNothing(t: Tables, monthOf: int -> int, month: int, k: int, o: Order, b: Bid)
    requires k !in t.orders && k !in t.bids
    requires !o.status.Completed? && !b.status.Accepted?
    ensures Revenue(t.(orders := t.orders[k := o]), monthOf, month) == Revenue(t, monthOf, month)
    ensures Revenue(t.(bids := t.bids[k := b]), monthOf, month) == Revenue(t, monthOf, month)
  {
    SumOfRemove(t.orders[k := o], OrderRevenue(t.services, monthOf, month), k);
    assert t.orders[k := o] - {k} == t.orders;
    SumOfRemove(t.bids[k := b], BidRevenue(monthOf, month), k);
    assert t.bids[k := b] - {k} == t.bids;
  }

  /** Completing an order adds its service's price to the month the order was created in. */
  lemma CompletingAddsPrice(t: Tables, monthOf: int -> int, k: int)
    requires k in t.orders && !t.orders[k].status.Completed? && t.orders[k].serviceId in t.services
    ensures var t' := t.(orders := t.orders[k := t.orders[k].(status := OrderStatus.Completed)]);
      Revenue(t', monthOf, monthOf(t.orders[k].createdAt))
      == Revenue(t, monthOf, monthOf(t.orders[k].createdAt)) + t.services[t.orders[k].serviceId].price
  {
    var o := t.orders[k];
    var month := monthOf(o.createdAt);
    var f := OrderRevenue(t.services, monthOf, month);
    var after := t.orders[k := o.(status := OrderStatus.Completed)];
    SumOfRemove(t.orders, f, k);
    SumOfRemove(after, f, k);
    assert after - {k} == t.orders - {k};
  }

  /** The dashboard page and the figures it shows. */
  class Dashboard {
    var projectCount: int
    var serviceCount: int
    var applicationCount: int
    var orderCount: int
    var months: array<int>
    var projectsByMonth: array<int>
    var revenueByMonth: array<real>

    /** Six slots each; the per-month project counts are never filled in and stay 0. */
    ghost predicate Valid()
      reads this, projectsByMonth
    {
      && months.Length == Slots && projectsByMonth.Length == Slots && revenueByMonth.Length == Slots
      && months != projectsByMonth
      && forall i :: 0 <= i < Slots ==> projectsByMonth[i] == 0
    }

    constructor ()
      ensures Valid()
      ensures fresh(months) && fresh(projectsByMonth) && fresh(revenueByMonth)
    {
      months := new int[Slots](i => 0);
      projectsByMonth := new int[Slots](i => 0);
      revenueByMonth := new real[Slots](i => 0.0);
    }

    /**
     * Loads the dashboard: the table sizes, then for each slot i the month
     * 5 - i months before the current one and that month's revenue.
     */
    method Load(db: Db, monthOf: int -> int, now: int)
      requires Valid()
      modifies this, months, revenueByMonth
      ensures Valid()
      ensures months == old(months) && projectsByMonth == old(projectsByMonth) && revenueByMonth == old(revenueByMonth)
      ensures projectCount == |db.projects| && serviceCount == |db.services|
      ensures applicationCount == |db.bids| && orderCount == |db.orders|
      ensures months[Slots - 1] == monthOf(now)
      ensures forall i :: 0 <= i < Slots - 1 ==> months[i + 1] == months[i] + 1
      ensures forall i :: 0 <= i < Slots ==> revenueByMonth[i] == Revenue(db.State(), monthOf, months[i])
    {
      var t := db.State();
      projectCount := |t.projects|;
      serviceCount := |t.services|;
      applicationCount := |t.bids|;
      orderCount := |t.orders|;
      var current := monthOf(now);
      for i := 0 to Slots
        invariant Valid()
        invariant months == old(months) && projectsByMonth == old(projectsByMonth) && revenueByMonth == old(revenueByMonth)
        invariant projectCount == |t.projects| && serviceCount == |t.services|
        invariant applicationCount == |t.bids| && orderCount == |t.orders|
        invariant forall j :: 0 <= j < i ==> months[j] == current - (Slots - 1 - j)
        invariant forall j :: 0 <= j < i ==> revenueByMonth[j] == Revenue(t, monthOf, months[j])
      {
        var month := current - (Slots - 1 - i);
        months[i] := month;
        var fromOrders := SumOf(t.orders, OrderRevenue(t.services, monthOf, month));
        var fromBids := SumOf(t.bids, BidRevenue(monthOf, month));
        revenueByMonth[i] := fromOrders + fromBids;
      }
    }
  }
}
