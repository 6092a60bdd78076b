/**
 * MerchantController::orderStats: count, revenue and commission figures
 * over the orders created in a date range.
 */
module MerchantController {
  import opened Wrappers
  import opened Tables
  import opened Money
  import opened Records

  /** `whereBetween('created_at', [from, to])`: both ends included. */
  predicate InRange(o: Order, from: int, to: int)
  {
    from <= o.createdAt <= to
  }

  /** The affiliate refinement of a query: none, `whereNull('affiliate_id')`, or its complement. */
  datatype Scope = AllOrders | WithoutAffiliate | WithAffiliate

  predicate InScope(o: Order, scope: Scope)
  {
    match scope
    case AllOrders => true
    case WithoutAffiliate => o.affiliateId.None?
    case WithAffiliate => o.affiliateId.Some?
  }

  /** A summed column. */
  datatype Column = SubtotalColumn | CommissionColumn

  function ValueOf(o: Order, column: Column): real
  {
    match column
    case SubtotalColumn => o.subtotal
    case CommissionColumn => o.commissionOwed
  }

  /** Whether the row with id `k` is selected by the range and scope. */
  predicate Selected(t: Table<Order>, k: nat, from: int, to: int, scope: Scope)
  {
    k in t.rows && InRange(t.rows[k], from, to) && InScope(t.rows[k], scope)
  }

  /** `->sum(column)` over the selected rows with id below `n`. */
  function SumBelow(t: Table<Order>, from: int, to: int, scope: Scope, column: Column, n: nat): real
  {
    if n == 0 then 0.0
    else SumBelow(t, from, to, scope, column, n - 1)
         + (if Selected(t, n - 1, from, to, scope) then ValueOf(t.rows[n - 1], column) else 0.0)
  }

  /** `->count()` over the in-range rows with id below `n`. */
  function CountBelow(t: Table<Order>, from: int, to: int, n: nat): nat
  {
    if n == 0 then 0
    else CountBelow(t, from, to, n - 1) + (if Selected(t, n - 1, from, to, AllOrders) then 1 else 0)
  }

  /** `->sum(column)` over the whole table. */
  function Sum(t: Table<Order>, from: int, to: int, scope: Scope, column: Column): real
  {
    SumBelow(t, from, to, scope, column, t.next)
  }

  /** The ids of the orders created in the range. */
  function InRangeIds(t: Table<Order>, from: int, to: int): set<nat>
  {
    set k | k in t.rows && InRange(t.rows[k], from, to)
  }

  /** The response figures; `commissionsOwed` is the value before `number_format`. */
  datatype Stats = Stats(count: nat, revenue: real, commissionsOwed: real)

  /**
   * orderStats(from, to): the number of orders in the range, their rounded
   * subtotal sum, and the rounded commission sum minus the rounded
   * commission sum of those without an affiliate. No merchant or payout
   * status filter applies.
   */
  function OrderStats(s: Store, from: int, to: int): (r: Stats)
    ensures r.count == |InRangeIds(s.orders, from, to)|
    ensures WholeCents(r.revenue)
    ensures r.revenue - Sum(s.orders, from, to, AllOrders, SubtotalColumn) <= 0.005
    ensures Sum(s.orders, from, to, AllOrders, SubtotalColumn) - r.revenue <= 0.005
    ensures r.commissionsOwed - Sum(s.orders, from, to, WithAffiliate, CommissionColumn) <= 0.01
    ensures Sum(s.orders, from, to, WithAffiliate, CommissionColumn) - r.commissionsOwed <= 0.01
  {
    var count := CountBelow(s.orders, from, to, s.orders.next);
    var revenue := Sum(s.orders, from, to, AllOrders, SubtotalColumn);
    var commissionsOwed := Sum(s.orders, from, to, AllOrders, CommissionColumn);
    var noAffiliate := Sum(s.orders, from, to, WithoutAffiliate, CommissionColumn);
    CountIsInRangeIds(s.orders, from, to);
    CommissionSplit(s.orders, from, to, s.orders.next);
    Stats(count, Round2(revenue), Round2(commissionsOwed) - Round2(noAffiliate))
  }

  /** The count is the number of in-range orders with such ids. */
  lemma CountIsInRangeIds(t: Table<Order>, from: int, to: int)
    ensures CountBelow(t, from, to, t.next) == |InRangeIds(t, from, to)|
  {
    CountBelowIsSetSize(t, from, to, t.next);
    assert InRangeIdsBelow(t, from, to, t.next) == InRangeIds(t, from, to);
  }

  function InRangeIdsBelow(t: Table<Order>, from: int, to: int, n: nat): set<nat>
  {
    set k | k in t.rows && k < n && InRange(t.rows[k], from, to)
  }

  lemma {:induction false} CountBelowIsSetSize(t: Table<Order>, from: int, to: int, n: nat)
    ensures CountBelow(t, from, to, n) == |InRangeIdsBelow(t, from, to, n)|
  {
    if n > 0 {
      CountBelowIsSetSize(t, from, to, n - 1);
      var before := InRangeIdsBelow(t, from, to, n - 1);
      if Selected(t, n - 1, from, to, AllOrders) {
        assert InRangeIdsBelow(t, from, to, n) == before + {n - 1};
      } else {
        assert InRangeIdsBelow(t, from, to, n) == before;
      }
    }
  }

  /**
   * Before rounding, all in-range commission minus the in-range commission
   * of orders without an affiliate is the in-range commission of orders
   * with one.
   */
  lemma {:induction false} CommissionSplit(t: Table<Order>, from: int, to: int, n: nat)
    ensures SumBelow(t, from, to, AllOrders, CommissionColumn, n)
            - SumBelow(t, from, to, WithoutAffiliate, CommissionColumn, n)
            == SumBelow(t, from, to, WithAffiliate, CommissionColumn, n)
  {
    if n > 0 {
      CommissionSplit(t, from, to, n - 1);
    }
  }

  /** What the figures read of an order in the range: subtotal, commission, and whether it has an affiliate. */
  datatype Figures = Figures(subtotal: real, commissionOwed: real, attributed: bool)

  /** What the figures see of row `k`: nothing when it is absent or out of range. */
  function Seen(t: Table<Order>, k: nat, from: int, to: int): Option<Figures>
  {
    if k in t.rows && InRange(t.rows[k], from, to) then
      var o := t.rows[k];
      Some(Figures(o.subtotal, o.commissionOwed, o.affiliateId.Some?))
    else None
  }

  /** Two tables whose rows in the range agree on every figure the statistics read. */
  ghost predicate AgreeInRange(t1: Table<Order>, t2: Table<Order>, from: int, to: int)
  {
    forall k: nat :: Seen(t1, k, from, to) == Seen(t2, k, from, to)
  }

  lemma {:induction false} SumsAgree(t1: Table<Order>, t2: Table<Order>, from: int, to: int, scope: Scope, column: Column, n: nat)
    requires AgreeInRange(t1, t2, from, to)
    ensures SumBelow(t1, from, to, scope, column, n) == SumBelow(t2, from, to, scope, column, n)
    ensures CountBelow(t1, from, to, n) == CountBelow(t2, from, to, n)
  {
    if n > 0 {
      SumsAgree(t1, t2, from, to, scope, column, n - 1);
      assert Seen(t1, n - 1, from, to) == Seen(t2, n - 1, from, to);
    }
  }

  /** Ids at or past `next` hold no row, so scanning further adds nothing. */
  lemma {:induction false} ScanPastEnd(t: Table<Order>, from: int, to: int, scope: Scope, column: Column, n: nat)
    requires n >= t.next
    ensures SumBelow(t, from, to, scope, column, n) == SumBelow(t, from, to, scope, column, t.next)
    ensures CountBelow(t, from, to, n) == CountBelow(t, from, to, t.next)
  {
    if n > t.next {
      ScanPastEnd(t, from, to, scope, column, n - 1);
    }
  }

  /**
   * The statistics are a function of the in-range orders' figures alone:
   * orders outside the range, payout status, merchant, discount code and
   * every other table play no part.
   */
  lemma StatsDependOnRangeOnly(s1: Store, s2: Store, from: int, to: int)
    requires AgreeInRange(s1.orders, s2.orders, from, to)
    ensures OrderStats(s1, from, to) == OrderStats(s2, from, to)
  {
    var n := if s1.orders.next < s2.orders.next then s2.orders.next else s1.orders.next;
    forall scope, column
      ensures Sum(s1.orders, from, to, scope, column) == Sum(s2.orders, from, to, scope, column)
      ensures CountBelow(s1.orders, from, to, s1.orders.next) == CountBelow(s2.orders, from, to, s2.orders.next)
    {
      SumsAgree(s1.orders, s2.orders, from, to, scope, column, n);
      ScanPastEnd(s1.orders, from, to, scope, column, n);
      ScanPastEnd(s2.orders, from, to, scope, column, n);
    }
  }

  /**
   * Two orders in range, one attributed (subtotal 100, commission 10) and
   * one not (subtotal 50, commission 5, already paid).
   */
  function ExampleOrders(): Table<Order>
  {
    RawTable(map[0 := Order("A", "A", 1, Some(1), 100.0, 10.0, "", Unpaid, 5),
                 1 := Order("B", "B", 1, None, 50.0, 5.0, "", Paid, 7)], 2)
  }

  /**
   * For the two example orders: count 2, revenue 150, and commission
   * 15 - 5 = 10, exactly the attributed order's commission.
   */
  lemma TwoOrderExample()
    ensures OrderStats(EmptyStore().(orders := ExampleOrders()), 0, 10) == Stats(2, 150.0, 10.0)
  {
  }
}
