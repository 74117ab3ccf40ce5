/**
 * The scroll-depth tracker of analytics.js (`trackScrollDepth`): on each
 * (throttled) scroll the markers 25, 50, 75 and 100 are checked in order, and
 * each one reached and not yet fired is appended to `firedMarkers` and reported.
 */
module ScrollDepth {

  const Markers: seq<int> := [25, 50, 75, 100]

  /** The marker loop from position `i` on, for the rounded scroll percentage `percent`. */
  function FireFrom(fired: seq<int>, i: nat, percent: int): (r: seq<int>)
    requires i <= |Markers|
    ensures |fired| <= |r| && r[..|fired|] == fired
    decreases |Markers| - i
  {
    if i == |Markers| then fired
    else
      var m := Markers[i];
      FireFrom(if percent >= m && m !in fired then fired + [m] else fired, i + 1, percent)
  }

  /** One scroll event: the whole marker loop. */
  function ScrollStep(fired: seq<int>, percent: int): (r: seq<int>)
    ensures Reports(fired, r, percent)
    ensures AllReachedFired(r, percent)
  {
    FireFromReports(fired, 0, percent);
    FireFromComplete(fired, 0, percent);
    FireFrom(fired, 0, percent)
  }

  /** Every marker at or below `p` is in `fired`. */
  predicate AllReachedFired(fired: seq<int>, p: int)
  {
    forall j :: 0 <= j < |Markers| && Markers[j] <= p ==> Markers[j] in fired
  }

  /** Scroll events in order. */
  function ScrollAll(fired: seq<int>, percents: seq<int>): seq<int>
    decreases |percents|
  {
    if percents == [] then fired else ScrollAll(ScrollStep(fired, percents[0]), percents[1..])
  }

  /** The markers at or below `p`, in order, by filtering Markers. */
  function ReachedFrom(i: nat, p: int): seq<int>
    requires i <= |Markers|
    decreases |Markers| - i
  {
    if i == |Markers| then [] else (if Markers[i] <= p then [Markers[i]] else []) + ReachedFrom(i + 1, p)
  }

  function Reached(p: int): seq<int>
  {
    ReachedFrom(0, p)
  }

  /** The highest of `start` and the percentages. */
  function Highest(start: int, percents: seq<int>): int
    decreases |percents|
  {
    if percents == [] then start else Highest(if percents[0] > start then percents[0] else start, percents[1..])
  }

  /** How many markers are at or below `p`. */
  function ReachedCount(p: int): (k: nat)
    ensures k <= |Markers|
  {
    if p >= 100 then 4 else if p >= 75 then 3 else if p >= 50 then 2 else if p >= 25 then 1 else 0
  }

  predicate NoDuplicates(s: seq<int>)
  {
    forall i, j :: 0 <= i < j < |s| ==> s[i] != s[j]
  }

  /** The markers are increasing, so marker `i` is reached exactly when `i` is below the count. */
  lemma MarkerReached(i: nat, p: int)
    requires i < |Markers|
    ensures Markers[i] <= p <==> i < ReachedCount(p)
  {
  }

  /** Marker `i` is among the first `c` markers exactly when `i < c`. */
  lemma MarkerInPrefix(i: nat, c: nat)
    requires i < |Markers| && c <= |Markers|
    ensures Markers[i] in Markers[..c] <==> i < c
  {
    if i < c {
      assert Markers[..c][i] == Markers[i];
    }
  }

  lemma ReachedIsPrefix(p: int)
    ensures Reached(p) == Markers[..ReachedCount(p)]
  {
    var m := Markers;
    assert ReachedFrom(4, p) == [];
    assert ReachedFrom(3, p) == (if 100 <= p then [100] else []);
    assert ReachedFrom(2, p) == (if 75 <= p then [75] else []) + ReachedFrom(3, p);
    assert ReachedFrom(1, p) == (if 50 <= p then [50] else []) + ReachedFrom(2, p);
    assert m[..0] == [] && m[..1] == [25] && m[..2] == [25, 50] && m[..3] == [25, 50, 75] && m[..4] == m;
  }

  function Max(a: int, b: int): int
  {
    if a < b then b else a
  }

  /**
   * The loop's invariant: when the first `k` markers had fired before the
   * event and the loop is at position `i`, the fired list is the first
   * `max(k, min(i, count))` markers, and the loop ends with the first
   * `max(k, count)`.
   */
  lemma {:induction false} FireFromPrefix(k: nat, i: nat, p: int)
    requires k <= |Markers| && i <= |Markers|
    ensures var c := Max(k, if i < ReachedCount(p) then i else ReachedCount(p));
      FireFrom(Markers[..c], i, p) == Markers[..Max(k, ReachedCount(p))]
    decreases |Markers| - i
  {
    var K := ReachedCount(p);
    var c := Max(k, if i < K then i else K);
    if i < |Markers| {
      var m := Markers[i];
      MarkerReached(i, p);
      MarkerInPrefix(i, c);
      var c' := Max(k, if i + 1 < K then i + 1 else K);
      if p >= m && m !in Markers[..c] {
        assert c == i && c' == i + 1;
        assert Markers[..c] + [m] == Markers[..c'];
      } else {
        assert c == c';
      }
      FireFromPrefix(k, i + 1, p);
    }
  }

  /** One scroll event from the first `k` markers fired leaves the first `max(k, count)` fired. */
  lemma ScrollStepPrefix(k: nat, p: int)
    requires k <= |Markers|
    ensures ScrollStep(Markers[..k], p) == Markers[..Max(k, ReachedCount(p))]
  {
    FireFromPrefix(k, 0, p);
  }

  /** Starting from the markers reached by `a`, a scroll to `p` leaves the markers reached by the higher of the two. */
  lemma ScrollStepReached(a: int, p: int)
    ensures ScrollStep(Reached(a), p) == Reached(Max(a, p))
  {
    ReachedIsPrefix(a);
    ReachedIsPrefix(Max(a, p));
    ScrollStepPrefix(ReachedCount(a), p);
    assert Max(ReachedCount(a), ReachedCount(p)) == ReachedCount(Max(a, p));
  }

  /**
   * After any scroll events, the fired markers are exactly the markers at or
   * below the highest percentage seen, in ascending order.
   */
  lemma {:induction false} ScrollAllReached(a: int, percents: seq<int>)
    ensures ScrollAll(Reached(a), percents) == Reached(Highest(a, percents))
    decreases |percents|
  {
    if percents != [] {
      ScrollStepReached(a, percents[0]);
      assert Max(a, percents[0]) == if percents[0] > a then percents[0] else a;
      ScrollAllReached(Max(a, percents[0]), percents[1..]);
    }
  }

  /** A prefix of the (increasing) markers repeats no marker. */
  lemma PrefixNoDuplicates(c: nat)
    requires c <= |Markers|
    ensures NoDuplicates(Markers[..c])
  {
    forall i, j | 0 <= i < j < c
      ensures Markers[..c][i] != Markers[..c][j]
    {
      assert Markers[..c][i] == Markers[i] && Markers[..c][j] == Markers[j];
    }
  }

  /** On a fresh page nothing has fired, and afterwards the fired list is a prefix of the markers without repeats. */
  lemma FromFreshPage(percents: seq<int>)
    ensures ScrollAll([], percents) == Reached(Highest(0, percents))
    ensures var f := ScrollAll([], percents);
      f == Markers[..|f|] && NoDuplicates(f)
  {
    ReachedIsPrefix(0);
    assert Reached(0) == [];
    ScrollAllReached(0, percents);
    var h := Highest(0, percents);
    ReachedIsPrefix(h);
    var c := ReachedCount(h);
    PrefixNoDuplicates(c);
    assert ScrollAll([], percents) == Markers[..c];
  }

  /** `r` extends `fired`, and every added entry was reached, had not fired before and is not repeated. */
  predicate Reports(fired: seq<int>, r: seq<int>, p: int)
  {
    |fired| <= |r| && r[..|fired|] == fired
    && forall j :: |fired| <= j < |r| ==> r[j] <= p && r[j] !in fired && r[j] !in r[|fired|..j]
  }

  /** Firing a reached, unfired marker `m` first keeps the reports fresh. */
  lemma ReportsExtend(fired: seq<int>, m: int, r: seq<int>, p: int)
    requires m <= p && m !in fired
    requires Reports(fired + [m], r, p)
    ensures Reports(fired, r, p)
  {
    var next := fired + [m];
    assert r[..|fired|] == r[..|next|][..|fired|];
    forall j | |fired| <= j < |r|
      ensures r[j] <= p && r[j] !in fired && r[j] !in r[|fired|..j]
    {
      if j == |fired| {
        assert r[j] == r[..|next|][j] == m;
        assert r[|fired|..j] == [];
      } else {
        assert r[|fired|..j] == [m] + r[|next|..j];
        assert r[..|next|][|fired|] == m;
        assert forall x :: x in fired ==> x in next;
      }
    }
  }

  /** A scroll event reports only markers it reached and that had not fired before, each once. */
  lemma {:induction false} FireFromReports(fired: seq<int>, i: nat, p: int)
    requires i <= |Markers|
    ensures Reports(fired, FireFrom(fired, i, p), p)
    decreases |Markers| - i
  {
    if i < |Markers| {
      var m := Markers[i];
      var next := if p >= m && m !in fired then fired + [m] else fired;
      FireFromReports(next, i + 1, p);
      assert FireFrom(next, i + 1, p) == FireFrom(fired, i, p);
      if next != fired {
        ReportsExtend(fired, m, FireFrom(next, i + 1, p), p);
      }
    } else {
      assert FireFrom(fired, i, p) == fired;
    }
  }

  /** Every marker from `i` on that the percentage reaches is in the fired list afterwards. */
  lemma {:induction false} FireFromComplete(fired: seq<int>, i: nat, p: int)
    requires i <= |Markers|
    ensures forall j :: i <= j < |Markers| && Markers[j] <= p ==> Markers[j] in FireFrom(fired, i, p)
    decreases |Markers| - i
  {
    if i < |Markers| {
      var m := Markers[i];
      var next := if p >= m && m !in fired then fired + [m] else fired;
      FireFromComplete(next, i + 1, p);
      var r := FireFrom(next, i + 1, p);
      assert r == FireFrom(fired, i, p);
      if m <= p {
        assert m in next;
        assert m in r[..|next|];
      }
    }
  }

  /** The tracker's closure state: the `firedMarkers` array. */
  class ScrollTracker {
    var firedMarkers: seq<int>

    constructor ()
      ensures firedMarkers == []
    {
      firedMarkers := [];
    }

    /** One throttled scroll callback, for its rounded percentage; returns the markers it reports, in order. */
    method Scrolled(percent: int) returns (reported: seq<int>)
      modifies this
      ensures firedMarkers == ScrollStep(old(firedMarkers), percent)
      ensures firedMarkers == old(firedMarkers) + reported
    {
      reported := [];
      ghost var start := firedMarkers;
      for i := 0 to |Markers|
        invariant firedMarkers == start + reported
        invariant FireFrom(firedMarkers, i, percent) == FireFrom(start, 0, percent)
      {
        var marker := Markers[i];
        if percent >= marker && marker !in firedMarkers {
          firedMarkers := firedMarkers + [marker];
          reported := reported + [marker];
        }
      }
      assert firedMarkers == FireFrom(start, 0, percent);
    }
  }
}
