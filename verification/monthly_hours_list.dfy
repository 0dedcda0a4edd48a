/**
 * components/dashboard/MonthlyHoursList.tsx: the admin's monthly list,
 * a copy of the per-user totals sorted by hours, largest first, and the
 * grand total of all hours. The input list is a value and is never changed.
 */
module MonthlyHoursList {
  import opened Reports

  predicate SortedByHoursDesc(xs: seq<UserHours>) {
    forall i, j :: 0 <= i < j < |xs| ==> xs[i].totalHours >= xs[j].totalHours
  }

  /** Inserts `x` after the trailing entries with at least as many hours. */
  function Insert(x: UserHours, sorted: seq<UserHours>): (r: seq<UserHours>)
    requires SortedByHoursDesc(sorted)
    ensures SortedByHoursDesc(r)
    ensures multiset(r) == multiset(sorted) + multiset{x}
    ensures |r| == |sorted| + 1
    ensures forall i :: 0 <= i < |r| ==> r[i] == x || r[i] in sorted
  {
    if sorted == [] then [x]
    else
      var last := sorted[|sorted| - 1];
      if last.totalHours >= x.totalHours then
        AppendBelow(sorted, x);
        sorted + [x]
      else
        var init := sorted[..|sorted| - 1];
        SortedPrefix(sorted);
        var front := Insert(x, init);
        AboveLast(front, x, sorted);
        AppendBelow(front, last);
        MembersAfterAppend(front, x, sorted);
        assert sorted == init + [last];
        front + [last]
  }

  lemma SortedPrefix(sorted: seq<UserHours>)
    requires sorted != [] && SortedByHoursDesc(sorted)
    ensures SortedByHoursDesc(sorted[..|sorted| - 1])
    ensures forall i :: 0 <= i < |sorted| - 1 ==> sorted[i].totalHours >= sorted[|sorted| - 1].totalHours
  {
  }

  /** What `x` and the entries before the last one are put in front of the last entry has at least its hours. */
  lemma AboveLast(front: seq<UserHours>, x: UserHours, sorted: seq<UserHours>)
    requires sorted != [] && SortedByHoursDesc(sorted)
    requires x.totalHours > sorted[|sorted| - 1].totalHours
    requires forall i :: 0 <= i < |front| ==> front[i] == x || front[i] in sorted[..|sorted| - 1]
    ensures forall i :: 0 <= i < |front| ==> front[i].totalHours >= sorted[|sorted| - 1].totalHours
  {
    SortedPrefix(sorted);
    forall i | 0 <= i < |front|
      ensures front[i].totalHours >= sorted[|sorted| - 1].totalHours
    {
      if front[i] != x {
        var k :| 0 <= k < |sorted| - 1 && sorted[..|sorted| - 1][k] == front[i];
        assert sorted[k] == front[i];
      }
    }
  }

  lemma MembersAfterAppend(front: seq<UserHours>, x: UserHours, sorted: seq<UserHours>)
    requires sorted != []
    requires forall i :: 0 <= i < |front| ==> front[i] == x || front[i] in sorted[..|sorted| - 1]
    ensures var r := front + [sorted[|sorted| - 1]];
      forall i :: 0 <= i < |r| ==> r[i] == x || r[i] in sorted
  {
    var r := front + [sorted[|sorted| - 1]];
    forall i | 0 <= i < |r|
      ensures r[i] == x || r[i] in sorted
    {
      if i < |front| {
        assert r[i] == front[i];
        if front[i] != x {
          var k :| 0 <= k < |sorted| - 1 && sorted[..|sorted| - 1][k] == front[i];
          assert sorted[k] == front[i];
        }
      }
    }
  }

  /** An entry with no more hours than any entry of a sorted list can follow it. */
  lemma AppendBelow(front: seq<UserHours>, last: UserHours)
    requires SortedByHoursDesc(front)
    requires forall i :: 0 <= i < |front| ==> front[i].totalHours >= last.totalHours
    ensures SortedByHoursDesc(front + [last])
  {
    var r := front + [last];
    forall i, j | 0 <= i < j < |r|
      ensures r[i].totalHours >= r[j].totalHours
    {
      assert r[i] == front[i];
      if j < |front| {
        assert r[j] == front[j];
      }
    }
  }

  /** `[...usersHours].sort((a, b) => b.totalHours - a.totalHours)`: sorted by hours, largest first. */
  function SortByHours(xs: seq<UserHours>): (r: seq<UserHours>)
    ensures SortedByHoursDesc(r)
    ensures multiset(r) == multiset(xs)
    ensures |r| == |xs|
  {
    if xs == [] then []
    else
      var init := xs[..|xs| - 1];
      assert xs == init + [xs[|xs| - 1]];
      Insert(xs[|xs| - 1], SortByHours(init))
  }

  /** `usersHours.reduce((sum, u) => sum + u.totalHours, 0)`. */
  function GrandTotal(xs: seq<UserHours>): (total: real)
    ensures xs == [] ==> total == 0.0
  {
    if xs == [] then 0.0 else GrandTotal(xs[..|xs| - 1]) + xs[|xs| - 1].totalHours
  }

  lemma GrandTotalSnoc(xs: seq<UserHours>, x: UserHours)
    ensures GrandTotal(xs + [x]) == GrandTotal(xs) + x.totalHours
  {
    assert (xs + [x])[..|xs|] == xs;
  }

  lemma {:induction false} GrandTotalInsert(x: UserHours, sorted: seq<UserHours>)
    requires SortedByHoursDesc(sorted)
    ensures GrandTotal(Insert(x, sorted)) == GrandTotal(sorted) + x.totalHours
    decreases |sorted|
  {
    if sorted != [] {
      var last := sorted[|sorted| - 1];
      var init := sorted[..|sorted| - 1];
      if last.totalHours >= x.totalHours {
        assert Insert(x, sorted) == sorted + [x];
        GrandTotalSnoc(sorted, x);
      } else {
        SortedPrefix(sorted);
        assert Insert(x, sorted) == Insert(x, init) + [last];
        GrandTotalInsert(x, init);
        GrandTotalSnoc(Insert(x, init), last);
        assert sorted == init + [last];
        GrandTotalSnoc(init, last);
      }
    }
  }

  /** The grand total does not depend on the order: sorting keeps it. */
  lemma {:induction false} GrandTotalSortInvariant(xs: seq<UserHours>)
    ensures GrandTotal(SortByHours(xs)) == GrandTotal(xs)
    decreases |xs|
  {
    if xs != [] {
      var init := xs[..|xs| - 1];
      GrandTotalSortInvariant(init);
      GrandTotalInsert(xs[|xs| - 1], SortByHours(init));
    }
  }

  /** An already sorted list is left as it is. */
  lemma {:induction false} SortKeepsSorted(xs: seq<UserHours>)
    requires SortedByHoursDesc(xs)
    ensures SortByHours(xs) == xs
    decreases |xs|
  {
    if xs != [] {
      var init := xs[..|xs| - 1];
      assert SortedByHoursDesc(init);
      SortKeepsSorted(init);
      assert init != [] ==> init[|init| - 1].totalHours >= xs[|xs| - 1].totalHours;
      assert xs == init + [xs[|xs| - 1]];
    }
  }
}
