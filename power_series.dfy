/**
  The dashboard's power series: one reading per time label, kept in the order
  `Array.prototype.sort` leaves it in when given the comparator
  `(a, b) => a.time.localeCompare(b.time)`. That sort is stable, so its result
  is fully determined (see `StableSortUnique`); the model computes it by
  insertion, which is how `SortByTime` works in place on an array.
*/
module PowerSeries {
  import opened Wrappers
  import opened TimeOrder

  /** One sample of the series after the numeric fields have been coerced. */
  datatype PowerReading = PowerReading(time: string, generation: int, consumption: int, battery: int)

  /** What the data-entry form hands over: every field is the text of an input. */
  datatype RawPoint = RawPoint(time: string, generation: string, consumption: string, battery: string)

  /**
    The seed series the dashboard starts with: twelve readings, with no negative
    power and every battery level a percentage.
  */
  function InitialPowerData(): (r: seq<PowerReading>)
    ensures |r| == 12
    ensures forall i :: 0 <= i < |r| ==>
      r[i].generation >= 0 && r[i].consumption >= 0 && 0 <= r[i].battery <= 100
  {
    [ PowerReading("00:00", 0, 300, 85),
      PowerReading("02:00", 0, 250, 80),
      PowerReading("04:00", 0, 200, 75),
      PowerReading("06:00", 100, 400, 70),
      PowerReading("08:00", 800, 500, 78),
      PowerReading("10:00", 1500, 600, 90),
      PowerReading("12:00", 2200, 750, 100),
      PowerReading("14:00", 2100, 800, 100),
      PowerReading("16:00", 1600, 900, 95),
      PowerReading("18:00", 500, 1200, 85),
      PowerReading("20:00", 0, 1000, 70),
      PowerReading("22:00", 0, 600, 60) ]
  }

  // ---------------------------------------------------------------------------
  // Coercion of the form's text fields

  /**
    `n || 0` for the result `n` of JavaScript's `Number(...)`: `None` stands for
    NaN. Both NaN and 0 are falsy, so both give 0; any other number is kept.
  */
  function OrZero(n: Option<int>): (r: int)
    ensures r == 0 <==> (n == None || n == Some(0))
    ensures r != 0 ==> n == Some(r)
  {
    match n
    case None => 0
    case Some(v) => v
  }

  /**
    The reading `handleAddData` builds from a form point: `time` is passed
    through and each numeric field becomes `Number(field) || 0`, where `number`
    is the text-to-number conversion.
  */
  function Formatted(p: RawPoint, number: string -> Option<int>): (r: PowerReading)
    ensures r.time == p.time
    ensures r.generation == OrZero(number(p.generation))
    ensures r.consumption == OrZero(number(p.consumption))
    ensures r.battery == OrZero(number(p.battery))
  {
    PowerReading(p.time, OrZero(number(p.generation)), OrZero(number(p.consumption)), OrZero(number(p.battery)))
  }

  // ---------------------------------------------------------------------------
  // Order, grouping by time, and the stable sort

  /** `x` may stand before `y`: the comparator does not ask to swap them. */
  predicate NoLater(x: PowerReading, y: PowerReading)
  {
    Compare(x.time, y.time) <= 0
  }

  /** Non-decreasing by time, stated on neighbours. */
  predicate Sorted(s: seq<PowerReading>)
  {
    forall i :: 0 < i < |s| ==> NoLater(s[i - 1], s[i])
  }

  /** The readings of `s` whose time is exactly `k`, in their order in `s`. */
  function WithTime(s: seq<PowerReading>, k: string): seq<PowerReading>
  {
    if s == [] then [] else WithTime(s[..|s| - 1], k) + Group(s[|s| - 1], k)
  }

  /** `[x]` when `x` has time `k`, else nothing. */
  function Group(x: PowerReading, k: string): seq<PowerReading>
  {
    if x.time == k then [x] else []
  }

  /** Every reading `WithTime` keeps comes from the series and has the time asked for. */
  lemma {:induction false} WithTimeMembers(s: seq<PowerReading>, k: string, x: PowerReading)
    requires x in WithTime(s, k)
    ensures x in s && x.time == k
    decreases |s|
  {
    var u := s[..|s| - 1];
    if x in WithTime(u, k) {
      WithTimeMembers(u, k, x);
      assert u == s[..|s| - 1];
    }
  }

  /**
    Places `x` into `t` scanning from the right, past every reading that
    sorts strictly after it: one step of insertion sort.
  */
  function Insert(t: seq<PowerReading>, x: PowerReading): (r: seq<PowerReading>)
    ensures |r| == |t| + 1
  {
    if t == [] || NoLater(t[|t| - 1], x) then t + [x]
    else Insert(t[..|t| - 1], x) + [t[|t| - 1]]
  }

  /** The stable sort of `s` by time. */
  function StableSort(s: seq<PowerReading>): (r: seq<PowerReading>)
    ensures |r| == |s|
  {
    if s == [] then [] else Insert(StableSort(s[..|s| - 1]), s[|s| - 1])
  }

  /** Where `Insert` puts `x`: just after the rightmost reading not later than it. */
  function InsertionPoint(t: seq<PowerReading>, x: PowerReading): (j: nat)
    ensures j <= |t|
  {
    if t == [] || NoLater(t[|t| - 1], x) then |t| else InsertionPoint(t[..|t| - 1], x)
  }

  // ---------------------------------------------------------------------------
  // Lemmas about Insert

  lemma {:induction false} InsertShape(t: seq<PowerReading>, x: PowerReading)
    ensures Insert(t, x) == t[..InsertionPoint(t, x)] + [x] + t[InsertionPoint(t, x)..]
    ensures forall i :: InsertionPoint(t, x) <= i < |t| ==> !NoLater(t[i], x)
    ensures InsertionPoint(t, x) > 0 ==> NoLater(t[InsertionPoint(t, x) - 1], x)
    decreases |t|
  {
    if t == [] || NoLater(t[|t| - 1], x) {
      assert t[..|t|] == t;
    } else {
      var u := t[..|t| - 1];
      var j := InsertionPoint(u, x);
      InsertShape(u, x);
      assert InsertionPoint(t, x) == j;
      assert u[..j] == t[..j];
      assert u[j..] + [t[|t| - 1]] == t[j..];
      forall i | j <= i < |t| ensures !NoLater(t[i], x) {
        if i < |t| - 1 { assert t[i] == u[i]; }
      }
    }
  }

  lemma {:induction false} InsertPermutation(t: seq<PowerReading>, x: PowerReading)
    ensures multiset(Insert(t, x)) == multiset(t) + multiset{x}
    decreases |t|
  {
    if t == [] || NoLater(t[|t| - 1], x) {
    } else {
      var u := t[..|t| - 1];
      InsertPermutation(u, x);
      assert t == u + [t[|t| - 1]];
    }
  }

  lemma {:induction false} InsertKeepsSorted(t: seq<PowerReading>, x: PowerReading)
    requires Sorted(t)
    ensures Sorted(Insert(t, x))
    ensures |Insert(t, x)| == |t| + 1
    ensures Insert(t, x)[|t|] == x || Insert(t, x)[|t|] == t[|t| - 1]
    decreases |t|
  {
    if t == [] || NoLater(t[|t| - 1], x) {
    } else {
      var u := t[..|t| - 1];
      var last := t[|t| - 1];
      InsertKeepsSorted(u, x);
      var v := Insert(u, x);
      assert Insert(t, x) == v + [last];
      assert NoLater(v[|u|], last) by {
        if v[|u|] == x {
          CompareFlip(x.time, last.time);
        } else {
          assert NoLater(t[|u| - 1], t[|u|]);
        }
      }
    }
  }

  lemma WithTimeSnoc(s: seq<PowerReading>, y: PowerReading, k: string)
    ensures WithTime(s + [y], k) == WithTime(s, k) + Group(y, k)
  {
    assert (s + [y])[..|s|] == s;
  }

  /** Readings of different times never land in the same group. */
  lemma GroupsCommute(w: seq<PowerReading>, x: PowerReading, y: PowerReading, k: string)
    requires x.time != y.time
    ensures w + Group(x, k) + Group(y, k) == w + Group(y, k) + Group(x, k)
  {
  }

  lemma {:induction false} InsertGroups(t: seq<PowerReading>, x: PowerReading, k: string)
    ensures WithTime(Insert(t, x), k) == WithTime(t, k) + Group(x, k)
    decreases |t|
  {
    if t == [] || NoLater(t[|t| - 1], x) {
      WithTimeSnoc(t, x, k);
    } else {
      var u := t[..|t| - 1];
      var last := t[|t| - 1];
      var v := Insert(u, x);
      assert Insert(t, x) == v + [last];
      InsertGroups(u, x, k);
      WithTimeSnoc(v, last, k);
      assert last.time != x.time by {
        CompareZeroIffEqual(last.time, x.time);
      }
      var wu := WithTime(u, k);
      assert WithTime(t, k) == wu + Group(last, k);
      assert WithTime(Insert(t, x), k) == wu + Group(x, k) + Group(last, k);
      GroupsCommute(wu, x, last, k);
    }
  }

  // ---------------------------------------------------------------------------
  // Lemmas about the sorted series

  lemma {:induction false} SortedPrefix(s: seq<PowerReading>, n: nat)
    requires Sorted(s) && n <= |s|
    ensures Sorted(s[..n])
  {
    forall i | 0 < i < n ensures NoLater(s[..n][i - 1], s[..n][i]) {
      assert NoLater(s[i - 1], s[i]);
    }
  }

  /** Sortedness on neighbours gives it on every pair. */
  lemma {:induction false} SortedAllPairs(s: seq<PowerReading>, i: nat, j: nat)
    requires Sorted(s) && i <= j < |s|
    ensures NoLater(s[i], s[j])
    decreases j - i
  {
    if i == j {
      CompareZeroIffEqual(s[i].time, s[j].time);
    } else {
      SortedAllPairs(s, i, j - 1);
      assert NoLater(s[j - 1], s[j]);
      CompareTransitive(s[i].time, s[j - 1].time, s[j].time);
    }
  }

  lemma {:induction false} StableSortSorted(s: seq<PowerReading>)
    ensures Sorted(StableSort(s))
    ensures |StableSort(s)| == |s|
    decreases |s|
  {
    if s != [] {
      StableSortSorted(s[..|s| - 1]);
      InsertKeepsSorted(StableSort(s[..|s| - 1]), s[|s| - 1]);
    }
  }

  lemma {:induction false} StableSortPermutation(s: seq<PowerReading>)
    ensures multiset(StableSort(s)) == multiset(s)
    decreases |s|
  {
    if s != [] {
      var u, y := s[..|s| - 1], s[|s| - 1];
      StableSortPermutation(u);
      InsertPermutation(StableSort(u), y);
      SplitLast(s);
      MultisetSnoc(u, y);
    }
  }

  lemma MultisetSnoc(u: seq<PowerReading>, y: PowerReading)
    ensures multiset(u + [y]) == multiset(u) + multiset{y}
  {
  }

  /** Readings with the same time keep the order they had in the input. */
  lemma {:induction false} StableSortStable(s: seq<PowerReading>, k: string)
    ensures WithTime(StableSort(s), k) == WithTime(s, k)
    decreases |s|
  {
    if s != [] {
      var u := s[..|s| - 1];
      StableSortStable(u, k);
      InsertGroups(StableSort(u), s[|s| - 1], k);
    }
  }

  /** A series that is already sorted is left as it is. */
  lemma {:induction false} StableSortOfSorted(s: seq<PowerReading>)
    requires Sorted(s)
    ensures StableSort(s) == s
    decreases |s|
  {
    if s != [] {
      var u, y := s[..|s| - 1], s[|s| - 1];
      SortedPrefix(s, |s| - 1);
      StableSortOfSorted(u);
      if |u| > 0 {
        assert u[|u| - 1] == s[|s| - 2];
        assert NoLater(u[|u| - 1], y);
      }
      assert Insert(u, y) == u + [y];
      SplitLast(s);
    }
  }

  /**
    Two sorted series that hold, time by time, the same readings in the same
    order are the same series.
  */
  lemma {:induction false} SortedSameGroupsEqual(r: seq<PowerReading>, q: seq<PowerReading>)
    requires Sorted(r) && Sorted(q)
    requires forall k :: WithTime(r, k) == WithTime(q, k)
    ensures r == q
    decreases |r|
  {
    if r != [] && q == [] {
      LastGroupNonEmpty(r);
      assert false;
    } else if r == [] && q != [] {
      LastGroupNonEmpty(q);
      assert false;
    } else if r != [] && q != [] {
      var r', q' := r[..|r| - 1], q[..|q| - 1];
      LastTimesAgree(r, q);
      DropLastGroups(r, q, r', q');
      SortedPrefix(r, |r| - 1);
      SortedPrefix(q, |q| - 1);
      SortedSameGroupsEqual(r', q');
      SplitLast(r);
      SplitLast(q);
    }
  }

  lemma SplitLast(s: seq<PowerReading>)
    requires s != []
    ensures s == s[..|s| - 1] + [s[|s| - 1]]
  {
  }

  /** The group of the last reading's time is never empty. */
  lemma LastGroupNonEmpty(s: seq<PowerReading>)
    requires s != []
    ensures WithTime(s, s[|s| - 1].time) != []
  {
  }

  /**
    When two series agree group by group and end in readings of the same
    time, they end in the same reading and their prefixes agree group by group.
  */
  lemma DropLastGroups(r: seq<PowerReading>, q: seq<PowerReading>, r': seq<PowerReading>, q': seq<PowerReading>)
    requires r != [] && q != [] && r[|r| - 1].time == q[|q| - 1].time
    requires r' == r[..|r| - 1] && q' == q[..|q| - 1]
    requires forall k :: WithTime(r, k) == WithTime(q, k)
    ensures r[|r| - 1] == q[|q| - 1]
    ensures forall k :: WithTime(r', k) == WithTime(q', k)
  {
    DropLastGroup(r, q, r[|r| - 1].time);
    forall t ensures WithTime(r', t) == WithTime(q', t) {
      DropLastGroup(r, q, t);
    }
  }

  /** The same, for the group of one time `t`. */
  lemma DropLastGroup(r: seq<PowerReading>, q: seq<PowerReading>, t: string)
    requires r != [] && q != [] && r[|r| - 1].time == q[|q| - 1].time
    requires WithTime(r, t) == WithTime(q, t)
    ensures t == r[|r| - 1].time ==> r[|r| - 1] == q[|q| - 1]
    ensures WithTime(r[..|r| - 1], t) == WithTime(q[..|q| - 1], t)
  {
    var a, b := r[|r| - 1], q[|q| - 1];
    var xr, xq := WithTime(r[..|r| - 1], t), WithTime(q[..|q| - 1], t);
    assert WithTime(r, t) == xr + Group(a, t);
    assert WithTime(q, t) == xq + Group(b, t);
    if t == a.time {
      assert Group(a, t) == [a] && Group(b, t) == [b];
      SameLastGroup(xr, xq, a, b);
    } else {
      assert Group(a, t) == [] && Group(b, t) == [];
      assert xr + [] == xr && xq + [] == xq;
    }
  }

  /** Equal sequences that end in `a` and `b` have `a == b` and equal prefixes. */
  lemma SameLastGroup(xr: seq<PowerReading>, xq: seq<PowerReading>, a: PowerReading, b: PowerReading)
    requires xr + [a] == xq + [b]
    ensures a == b && xr == xq
  {
    assert |xr| == |xq|;
    assert xr == (xr + [a])[..|xr|];
    assert xq == (xq + [b])[..|xq|];
  }

  /** In two such series the last readings have the same time. */
  lemma LastTimesAgree(r: seq<PowerReading>, q: seq<PowerReading>)
    requires Sorted(r) && Sorted(q) && r != [] && q != []
    requires forall k :: WithTime(r, k) == WithTime(q, k)
    ensures r[|r| - 1].time == q[|q| - 1].time
  {
    var a, b := r[|r| - 1], q[|q| - 1];
    LastIsLatest(r, q, a.time);
    LastIsLatest(q, r, b.time);
    AtOrBeforeBothWaysEqual(a.time, b.time);
  }

  /** The time of any reading of `r` is at or before the last time of sorted `q`. */
  lemma LastIsLatest(r: seq<PowerReading>, q: seq<PowerReading>, k: string)
    requires Sorted(q) && q != [] && r != [] && k == r[|r| - 1].time
    requires WithTime(r, k) == WithTime(q, k)
    ensures Compare(k, q[|q| - 1].time) <= 0
  {
    assert WithTime(r, k) == WithTime(r[..|r| - 1], k) + [r[|r| - 1]];
    var e := WithTime(q, k)[|WithTime(q, k)| - 1];
    WithTimeMembers(q, k, e);
    var m :| 0 <= m < |q| && q[m] == e;
    SortedAllPairs(q, m, |q| - 1);
  }

  /**
    Any sorted arrangement that keeps every time group in input order is the
    stable sort: the sort the source calls cannot produce anything else.
  */
  lemma StableSortUnique(s: seq<PowerReading>, r: seq<PowerReading>)
    requires Sorted(r)
    requires forall k :: WithTime(r, k) == WithTime(s, k)
    ensures r == StableSort(s)
  {
    StableSortSorted(s);
    forall k ensures WithTime(r, k) == WithTime(StableSort(s), k) {
      StableSortStable(s, k);
    }
    SortedSameGroupsEqual(r, StableSort(s));
  }

  /**
    Adding `p` and sorting: the result is sorted, holds exactly the old
    readings plus `p`, keeps each time group in order, and puts `p` after
    every reading with the same time.
  */
  lemma AddToSeries(series: seq<PowerReading>, p: PowerReading)
    ensures Sorted(StableSort(series + [p]))
    ensures multiset(StableSort(series + [p])) == multiset(series) + multiset{p}
    ensures |StableSort(series + [p])| == |series| + 1
    ensures forall k :: k != p.time ==> WithTime(StableSort(series + [p]), k) == WithTime(series, k)
    ensures WithTime(StableSort(series + [p]), p.time) == WithTime(series, p.time) + [p]
  {
    var s := series + [p];
    assert s[..|s| - 1] == series;
    StableSortSorted(s);
    StableSortPermutation(s);
    forall k ensures WithTime(StableSort(s), k) == WithTime(series, k) + Group(p, k) {
      StableSortStable(s, k);
    }
  }

  /**
    When the series is sorted, adding `p` inserts it at one position and
    leaves every series reading where it was relative to the others.
  */
  lemma AddToSortedSeries(series: seq<PowerReading>, p: PowerReading)
    requires Sorted(series)
    ensures StableSort(series + [p]) == series[..InsertionPoint(series, p)] + [p] + series[InsertionPoint(series, p)..]
    ensures forall i :: 0 <= i < InsertionPoint(series, p) ==> NoLater(series[i], p)
    ensures forall i :: InsertionPoint(series, p) <= i < |series| ==> !NoLater(series[i], p)
  {
    var s := series + [p];
    assert s[..|s| - 1] == series;
    StableSortOfSorted(series);
    InsertShape(series, p);
    var j := InsertionPoint(series, p);
    forall i | 0 <= i < j ensures NoLater(series[i], p) {
      SortedAllPairs(series, i, j - 1);
      CompareTransitive(series[i].time, series[j - 1].time, p.time);
    }
  }

  /** The seed series is in time order. */
  lemma InitialPowerDataSorted()
    ensures Sorted(InitialPowerData())
  {
    var s := InitialPowerData();
    forall i | 0 < i < |s| ensures NoLater(s[i - 1], s[i]) {
      HourBefore(s[i - 1].time, s[i].time);
    }
  }

  /** A label whose two-digit hour is smaller sorts first. */
  lemma HourBefore(a: string, b: string)
    requires |a| >= 2 && |b| >= 2
    requires a[0] < b[0] || (a[0] == b[0] && a[1] < b[1])
    ensures Compare(a, b) < 0
  {
    if a[0] == b[0] {
      assert Compare(a[1..], b[1..]) < 0;
    }
  }

  // ---------------------------------------------------------------------------
  // The sort as the source runs it: in place on a fresh array

  /**
    Moves `a[i]` left past every reading of the sorted prefix `a[..i]` that
    sorts strictly after it.
  */
  method InsertAt(a: array<PowerReading>, i: nat)
    requires i < a.Length
    modifies a
    ensures a[..i + 1] == Insert(old(a[..i]), old(a[i]))
    ensures a[i + 1..] == old(a[i + 1..])
  {
    var x := a[i];
    ghost var orig := a[..];
    ghost var done := a[..i];
    var j := i;
    while j > 0 && !NoLater(a[j - 1], x)
      invariant 0 <= j <= i
      invariant forall m :: 0 <= m < j ==> a[m] == done[m]
      invariant forall m :: j < m <= i ==> a[m] == done[m - 1]
      invariant forall m :: i < m < a.Length ==> a[m] == orig[m]
      invariant forall m :: j <= m < i ==> !NoLater(done[m], x)
    {
      a[j] := a[j - 1];
      j := j - 1;
    }
    ghost var pre := a[..];
    a[j] := x;
    assert a[..] == pre[j := x];
    InsertAtFinish(pre, done, i, j, x);
  }

  /** The final write of `InsertAt` completes the insertion step. */
  lemma InsertAtFinish(s: seq<PowerReading>, done: seq<PowerReading>, i: nat, j: nat, x: PowerReading)
    requires j <= i == |done| < |s|
    requires forall m :: 0 <= m < j ==> s[m] == done[m]
    requires forall m :: j < m <= i ==> s[m] == done[m - 1]
    requires j == 0 || NoLater(done[j - 1], x)
    requires forall m :: j <= m < i ==> !NoLater(done[m], x)
    ensures s[j := x][..i + 1] == Insert(done, x)
    ensures s[j := x][i + 1..] == s[i + 1..]
  {
    ShiftedInsert(s, done, i, j, x);
    InsertAtPoint(done, j, x);
  }

  /** The array after the inner loop of `InsertAt` and its final write, on values. */
  lemma ShiftedInsert(s: seq<PowerReading>, done: seq<PowerReading>, i: nat, j: nat, x: PowerReading)
    requires j <= i == |done| < |s|
    requires forall m :: 0 <= m < j ==> s[m] == done[m]
    requires forall m :: j < m <= i ==> s[m] == done[m - 1]
    ensures s[j := x][..i + 1] == done[..j] + [x] + done[j..]
    ensures s[j := x][i + 1..] == s[i + 1..]
  {
  }

  /**
    Where the inner loop of `InsertAt` stops, `x` goes: after a reading not
    later than it (or at the front) and before readings all strictly later.
  */
  lemma {:induction false} InsertAtPoint(done: seq<PowerReading>, j: nat, x: PowerReading)
    requires j <= |done| && (j == 0 || NoLater(done[j - 1], x))
    requires forall m :: j <= m < |done| ==> !NoLater(done[m], x)
    ensures Insert(done, x) == done[..j] + [x] + done[j..]
    decreases |done|
  {
    if j == |done| {
      assert done[..j] == done && done[j..] == [];
    } else {
      var u := done[..|done| - 1];
      var last := done[|done| - 1];
      assert !NoLater(last, x);
      assert Insert(done, x) == Insert(u, x) + [last];
      InsertAtPoint(u, j, x);
      AppendLast(u, j, x, last);
      assert u + [last] == done;
    }
  }

  lemma AppendLast(u: seq<PowerReading>, j: nat, x: PowerReading, last: PowerReading)
    requires j <= |u|
    ensures u[..j] + [x] + u[j..] + [last] == (u + [last])[..j] + [x] + (u + [last])[j..]
  {
    assert (u + [last])[..j] == u[..j];
    assert (u + [last])[j..] == u[j..] + [last];
  }

  /** Sorts `a` by time, stably, by insertion. */
  method SortByTime(a: array<PowerReading>)
    modifies a
    ensures a[..] == StableSort(old(a[..]))
    ensures Sorted(a[..]) && multiset(a[..]) == multiset(old(a[..]))
  {
    ghost var input := a[..];
    var i := 0;
    while i < a.Length
      invariant 0 <= i <= a.Length
      invariant a[..i] == StableSort(input[..i])
      invariant a[i..] == input[i..]
    {
      ghost var before := a[..];
      assert before[..i] == StableSort(input[..i]) && before[i] == input[i];
      assert before[i + 1..] == input[i + 1..] by {
        assert before[i + 1..] == before[i..][1..];
      }
      InsertAt(a, i);
      StableSortSnoc(input, i);
      i := i + 1;
    }
    assert input[..a.Length] == input;
    StableSortSorted(input);
    StableSortPermutation(input);
  }

  /** Sorting one more element of the input is one more insertion step. */
  lemma StableSortSnoc(s: seq<PowerReading>, i: nat)
    requires i < |s|
    ensures StableSort(s[..i + 1]) == Insert(StableSort(s[..i]), s[i])
  {
    assert s[..i + 1][..i] == s[..i];
  }
}
