/**
  The trace timeline: an interval sweep that splits the axis of one interaction into exclusive,
  overlapping and uncovered milliseconds, and an independent union of intervals per kind.

  The reference is pointwise: `Mix(spans, axis, t)` is the set of kinds at work during the
  millisecond `t`, and every figure is the number of milliseconds whose mix has some shape.
*/
module TraceTimeline {
  import opened Sorting

  datatype Kind = Mes | Llm | Cache | Duckdb

  /** A span of the timeline. Offsets and durations are clamped at zero by the span readers. */
  datatype Span = Span(kind: Kind, offset: nat, duration: nat, leaf: bool) {
    function End(): nat { offset + duration }
  }

  datatype Interval = Interval(start: int, stop: int)

  datatype Event = Event(moment: int, kind: Kind, change: int)

  const TimedKinds: seq<Kind> := [Mes, Llm, Cache, Duckdb]

  const Kinds: set<Kind> := {Mes, Llm, Cache, Duckdb}

  function Max(a: int, b: int): int { if a < b then b else a }

  function Min(a: int, b: int): int { if a < b then a else b }

  // ---------------------------------------------------------------- pointwise reference

  ghost predicate Covers(span: Span, axis: int, t: int) {
    0 <= t < axis && span.offset <= t < span.End()
  }

  ghost predicate KindAt(spans: seq<Span>, axis: int, k: Kind, t: int) {
    exists i :: 0 <= i < |spans| && spans[i].kind == k && Covers(spans[i], axis, t)
  }

  ghost function Mix(spans: seq<Span>, axis: int, t: int): set<Kind> {
    set k: Kind | k in Kinds && KindAt(spans, axis, k, t)
  }

  /** The three shapes of a mix the summary tells apart, and the per-kind union beside them. */
  datatype Shape = Busy | Contended | Only(k: Kind) | Involving(k: Kind)

  ghost predicate Fits(shape: Shape, mix: set<Kind>) {
    match shape
    case Busy => mix != {}
    case Contended => |mix| > 1
    case Only(k) => mix == {k}
    case Involving(k) => k in mix
  }

  /** Number of milliseconds before `hi` whose mix has the given shape. */
  ghost function Tally(spans: seq<Span>, axis: int, shape: Shape, hi: int): nat {
    if hi <= 0 then 0
    else Tally(spans, axis, shape, hi - 1) + (if Fits(shape, Mix(spans, axis, hi - 1)) then 1 else 0)
  }

  /** Number of milliseconds of the axis whose mix has the given shape. */
  ghost function Measure(spans: seq<Span>, axis: int, shape: Shape): nat {
    Tally(spans, axis, shape, axis)
  }

  lemma {:induction false} TallyExtend(spans: seq<Span>, axis: int, shape: Shape, lo: int, hi: int, fits: bool)
    requires 0 <= lo <= hi
    requires forall t :: lo <= t < hi ==> Fits(shape, Mix(spans, axis, t)) == fits
    ensures Tally(spans, axis, shape, hi) == Tally(spans, axis, shape, lo) + (if fits then hi - lo else 0)
    decreases hi - lo
  {
    if lo < hi {
      TallyExtend(spans, axis, shape, lo, hi - 1, fits);
    }
  }

  // ---------------------------------------------------------------- span intervals

  function Clipped(span: Span, axis: int): Interval {
    var start := Min(axis, Max(0, span.offset));
    Interval(start, Min(axis, Max(start, span.offset + span.duration)))
  }

  function Intervals(spans: seq<Span>, axis: int): seq<Interval> {
    if spans == [] then []
    else
      var rest := Intervals(spans[..|spans| - 1], axis);
      var last := Clipped(spans[|spans| - 1], axis);
      if last.stop > last.start then rest + [last] else rest
  }

  method SpanIntervals(spans: seq<Span>, axis: int) returns (intervals: seq<Interval>)
    ensures intervals == Intervals(spans, axis)
  {
    intervals := [];
    for i := 0 to |spans|
      invariant intervals == Intervals(spans[..i], axis)
    {
      assert spans[..i + 1][..i] == spans[..i];
      var start := Min(axis, Max(0, spans[i].offset));
      var end := Min(axis, Max(start, spans[i].offset + spans[i].duration));
      if end > start {
        intervals := intervals + [Interval(start, end)];
      }
    }
    assert spans[..|spans|] == spans;
  }

  ghost predicate InInterval(x: Interval, t: int) { x.start <= t < x.stop }

  ghost predicate InSome(xs: seq<Interval>, t: int) {
    exists i :: 0 <= i < |xs| && InInterval(xs[i], t)
  }

  ghost predicate OnAxis(xs: seq<Interval>, axis: int) {
    forall i :: 0 <= i < |xs| ==> 0 <= xs[i].start < xs[i].stop <= axis
  }

  /** Clipping loses nothing on the axis: a millisecond lies in an interval iff a span covers it. */
  lemma {:induction false} IntervalsCoverExactly(spans: seq<Span>, axis: int, t: int)
    ensures OnAxis(Intervals(spans, axis), axis)
    ensures InSome(Intervals(spans, axis), t) <==> exists i :: 0 <= i < |spans| && Covers(spans[i], axis, t)
  {
    if spans != [] {
      var n := |spans| - 1;
      IntervalsCoverExactly(spans[..n], axis, t);
      var rest, last := Intervals(spans[..n], axis), Clipped(spans[n], axis);
      var all := Intervals(spans, axis);
      assert InInterval(last, t) <==> Covers(spans[n], axis, t);
      if InSome(all, t) && !Covers(spans[n], axis, t) {
        var i :| 0 <= i < |all| && InInterval(all[i], t);
        assert i < |rest| && InInterval(rest[i], t);
        var j :| 0 <= j < |spans[..n]| && Covers(spans[..n][j], axis, t);
        assert Covers(spans[j], axis, t);
      }
      if exists i :: 0 <= i < |spans| && Covers(spans[i], axis, t) {
        var i :| 0 <= i < |spans| && Covers(spans[i], axis, t);
        if i < n {
          assert Covers(spans[..n][i], axis, t);
          var j :| 0 <= j < |rest| && InInterval(rest[j], t);
          assert InInterval(all[j], t);
        } else {
          assert InInterval(all[|all| - 1], t);
        }
      }
    }
  }

  // ---------------------------------------------------------------- union of intervals

  predicate IntervalLe(a: Interval, b: Interval) {
    a.start < b.start || (a.start == b.start && a.stop <= b.stop)
  }

  ghost predicate StartsAscend(xs: seq<Interval>) {
    forall i, j :: 0 <= i < j < |xs| ==> xs[i].start <= xs[j].start
  }

  lemma SortedIntervals(xs: seq<Interval>, axis: int)
    requires OnAxis(xs, axis)
    ensures multiset(Sort(xs, IntervalLe)) == multiset(xs)
    ensures StartsAscend(Sort(xs, IntervalLe)) && OnAxis(Sort(xs, IntervalLe), axis)
  {
    SortKeeps(xs, IntervalLe);
    SortSorts(xs, IntervalLe);
    var sorted := Sort(xs, IntervalLe);
    forall i | 0 <= i < |sorted|
      ensures sorted[i] in xs
    {
      assert sorted[i] in multiset(xs);
    }
  }

  /** Number of milliseconds before `hi` that lie in some interval. */
  ghost function CoveredMs(xs: seq<Interval>, hi: int): nat {
    if hi <= 0 then 0 else CoveredMs(xs, hi - 1) + (if InSome(xs, hi - 1) then 1 else 0)
  }

  lemma InSomePermutes(xs: seq<Interval>, ys: seq<Interval>, t: int)
    requires multiset(xs) == multiset(ys) && InSome(xs, t)
    ensures InSome(ys, t)
  {
    var i :| 0 <= i < |xs| && InInterval(xs[i], t);
    assert xs[i] in multiset(ys);
    var j :| 0 <= j < |ys| && ys[j] == xs[i];
    assert InInterval(ys[j], t);
  }

  lemma {:induction false} CoveredMsPermutes(xs: seq<Interval>, ys: seq<Interval>, hi: int)
    requires multiset(xs) == multiset(ys)
    ensures CoveredMs(xs, hi) == CoveredMs(ys, hi)
    decreases hi
  {
    if hi > 0 {
      CoveredMsPermutes(xs, ys, hi - 1);
      if InSome(xs, hi - 1) {
        InSomePermutes(xs, ys, hi - 1);
      }
      if InSome(ys, hi - 1) {
        InSomePermutes(ys, xs, hi - 1);
      }
    }
  }

  lemma InSomeAppend(xs: seq<Interval>, x: Interval, t: int)
    ensures InSome(xs + [x], t) <==> InSome(xs, t) || InInterval(x, t)
  {
    if InSome(xs, t) {
      var i :| 0 <= i < |xs| && InInterval(xs[i], t);
      assert InInterval((xs + [x])[i], t);
    }
    if InInterval(x, t) {
      assert InInterval((xs + [x])[|xs|], t);
    }
    if InSome(xs + [x], t) && !InInterval(x, t) {
      var i :| 0 <= i < |xs + [x]| && InInterval((xs + [x])[i], t);
      assert InInterval(xs[i], t);
    }
  }

  /** What one more interval adds when everything seen so far starts no later and reaches `end`. */
  lemma {:induction false} UnionStep(xs: seq<Interval>, x: Interval, end: int, hi: int)
    requires 0 <= x.start < x.stop && 0 <= end
    requires forall t :: InSome(xs, t) ==> t < end
    requires forall t :: x.start <= t < end ==> InSome(xs, t)
    ensures CoveredMs(xs + [x], hi) == CoveredMs(xs, hi) + Max(0, Min(hi, x.stop) - Max(x.start, end))
    decreases hi
  {
    if hi > 0 {
      UnionStep(xs, x, end, hi - 1);
      InSomeAppend(xs, x, hi - 1);
    }
  }

  lemma {:induction false} CoveredMsEmpty(hi: int)
    ensures CoveredMs([], hi) == 0
    decreases hi
  {
    if hi > 0 {
      CoveredMsEmpty(hi - 1);
    }
  }

  /** The fold over intervals in order counts every covered millisecond once. */
  method UnionMs(intervals: seq<Interval>, ghost axis: int) returns (total: int)
    requires OnAxis(intervals, axis)
    ensures total == CoveredMs(intervals, axis)
  {
    var sorted := Sort(intervals, IntervalLe);
    SortedIntervals(intervals, axis);
    total := 0;
    var end := 0;
    CoveredMsEmpty(axis);
    for i := 0 to |sorted|
      invariant 0 <= end
      invariant forall j :: 0 <= j < i ==> sorted[j].stop <= end
      invariant end > 0 ==> exists j :: 0 <= j < i && sorted[j].stop == end
      invariant total == CoveredMs(sorted[..i], axis)
    {
      var start, stop := sorted[i].start, sorted[i].stop;
      forall t | start <= t < end
        ensures InSome(sorted[..i], t)
      {
        var j :| 0 <= j < i && sorted[j].stop == end;
        assert InInterval(sorted[..i][j], t);
      }
      UnionStep(sorted[..i], sorted[i], end, axis);
      assert sorted[..i + 1] == sorted[..i] + [sorted[i]];
      total := total + Max(0, stop - Max(start, end));
      end := Max(end, stop);
    }
    assert sorted[..|sorted|] == sorted;
    CoveredMsPermutes(sorted, intervals, axis);
  }

  // ---------------------------------------------------------------- sweep events

  function OfKind(spans: seq<Span>, k: Kind): seq<Span> {
    if spans == [] then []
    else if spans[0].kind == k then [spans[0]] + OfKind(spans[1..], k)
    else OfKind(spans[1..], k)
  }

  lemma {:induction false} OfKindMembers(spans: seq<Span>, k: Kind, s: Span)
    ensures s in OfKind(spans, k) <==> s in spans && s.kind == k
  {
    if spans != [] {
      OfKindMembers(spans[1..], k, s);
      assert spans == [spans[0]] + spans[1..];
    }
  }

  function EventsOf(xs: seq<Interval>, k: Kind): seq<Event> {
    if xs == [] then []
    else
      var last := xs[|xs| - 1];
      EventsOf(xs[..|xs| - 1], k) + [Event(last.start, k, 1), Event(last.stop, k, -1)]
  }

  function EventsFor(spans: seq<Span>, axis: int, kinds: seq<Kind>): seq<Event> {
    if kinds == [] then []
    else
      var k := kinds[|kinds| - 1];
      EventsFor(spans, axis, kinds[..|kinds| - 1]) + EventsOf(Intervals(OfKind(spans, k), axis), k)
  }

  method AddEvents(before: seq<Event>, intervals: seq<Interval>, kind: Kind) returns (events: seq<Event>)
    ensures events == before + EventsOf(intervals, kind)
  {
    events := before;
    for j := 0 to |intervals|
      invariant events == before + EventsOf(intervals[..j], kind)
    {
      assert intervals[..j + 1][..j] == intervals[..j];
      events := events + [Event(intervals[j].start, kind, 1), Event(intervals[j].stop, kind, -1)];
    }
    assert intervals[..|intervals|] == intervals;
  }

  lemma EventsForNext(spans: seq<Span>, axis: int, kinds: seq<Kind>, i: nat)
    requires i < |kinds|
    ensures EventsFor(spans, axis, kinds[..i + 1]) ==
            EventsFor(spans, axis, kinds[..i]) + EventsOf(Intervals(OfKind(spans, kinds[i]), axis), kinds[i])
  {
    assert kinds[..i + 1][..i] == kinds[..i];
  }

  method BuildEvents(spans: seq<Span>, axis: int) returns (events: seq<Event>)
    ensures events == EventsFor(spans, axis, TimedKinds)
  {
    var kinds := TimedKinds;
    events := [];
    for i := 0 to |kinds|
      invariant events == EventsFor(spans, axis, kinds[..i])
    {
      EventsForNext(spans, axis, kinds, i);
      var intervals := SpanIntervals(OfKind(spans, kinds[i]), axis);
      events := AddEvents(events, intervals, kinds[i]);
    }
    assert kinds[..|kinds|] == kinds;
  }

  function KindRank(k: Kind): nat {
    match k
    case Cache => 0
    case Duckdb => 1
    case Llm => 2
    case Mes => 3
  }

  /** Tuple order of (moment, kind, change); kinds compare as their names. */
  predicate EventLe(a: Event, b: Event) {
    a.moment < b.moment ||
    (a.moment == b.moment &&
     (KindRank(a.kind) < KindRank(b.kind) || (a.kind == b.kind && a.change <= b.change)))
  }

  ghost predicate MomentsAscend(es: seq<Event>) {
    forall i, j :: 0 <= i < j < |es| ==> es[i].moment <= es[j].moment
  }

  // ---------------------------------------------------------------- net counts

  /** How an event weighs in a count of kind `k`: openings before `a`, closings before `b`. */
  function Weight(e: Event, k: Kind, a: int, b: int): int {
    if e.kind != k then 0
    else if e.change > 0 then (if e.moment < a then 1 else 0)
    else (if e.moment < b then -1 else 0)
  }

  function Net(es: seq<Event>, k: Kind, a: int, b: int): int {
    if es == [] then 0 else Net(es[..|es| - 1], k, a, b) + Weight(es[|es| - 1], k, a, b)
  }

  lemma {:induction false} NetConcat(xs: seq<Event>, ys: seq<Event>, k: Kind, a: int, b: int)
    ensures Net(xs + ys, k, a, b) == Net(xs, k, a, b) + Net(ys, k, a, b)
  {
    if ys == [] {
      assert xs + ys == xs;
    } else {
      NetConcat(xs, ys[..|ys| - 1], k, a, b);
      assert (xs + ys)[..|xs + ys| - 1] == xs + ys[..|ys| - 1];
    }
  }

  lemma {:induction false} NetInsert(e: Event, es: seq<Event>, k: Kind, a: int, b: int)
    ensures Net(Insert(e, es, EventLe), k, a, b) == Net(es, k, a, b) + Weight(e, k, a, b)
  {
    assert Net([e], k, a, b) == Weight(e, k, a, b) by { assert [e][..0] == []; }
    if es == [] || EventLe(e, es[0]) {
      NetConcat([e], es, k, a, b);
    } else {
      NetInsert(e, es[1..], k, a, b);
      NetConcat([es[0]], Insert(e, es[1..], EventLe), k, a, b);
      NetConcat([es[0]], es[1..], k, a, b);
      assert es == [es[0]] + es[1..];
    }
  }

  lemma {:induction false} NetSort(es: seq<Event>, k: Kind, a: int, b: int)
    ensures Net(Sort(es, EventLe), k, a, b) == Net(es, k, a, b)
  {
    if es != [] {
      NetSort(es[1..], k, a, b);
      NetInsert(es[0], Sort(es[1..], EventLe), k, a, b);
      NetConcat([es[0]], es[1..], k, a, b);
      assert es == [es[0]] + es[1..];
      assert Net([es[0]], k, a, b) == Weight(es[0], k, a, b) by { assert [es[0]][..0] == []; }
    }
  }

  /** Intervals that start before `a` and have not stopped before `b`. */
  function Open(xs: seq<Interval>, a: int, b: int): nat {
    if xs == [] then 0
    else Open(xs[..|xs| - 1], a, b) + (if xs[|xs| - 1].start < a && b <= xs[|xs| - 1].stop then 1 else 0)
  }

  lemma {:induction false} NetEventsOf(xs: seq<Interval>, k: Kind, other: Kind, a: int, b: int, axis: int)
    requires OnAxis(xs, axis) && a <= b <= a + 1
    ensures Net(EventsOf(xs, k), other, a, b) == if other == k then Open(xs, a, b) else 0
  {
    if xs != [] {
      var n := |xs| - 1;
      NetEventsOf(xs[..n], k, other, a, b, axis);
      var pair := [Event(xs[n].start, k, 1), Event(xs[n].stop, k, -1)];
      NetConcat(EventsOf(xs[..n], k), pair, other, a, b);
      var first := [pair[0]];
      assert pair[..1] == first && first[..0] == [];
      assert Net(first, other, a, b) == Weight(pair[0], other, a, b);
      assert Net(pair, other, a, b) == Weight(pair[0], other, a, b) + Weight(pair[1], other, a, b);
    }
  }

  lemma NewKind(kinds: seq<Kind>, k: Kind)
    requires kinds != [] && forall i, j :: 0 <= i < j < |kinds| ==> kinds[i] != kinds[j]
    ensures kinds[|kinds| - 1] !in kinds[..|kinds| - 1]
    ensures k in kinds <==> k in kinds[..|kinds| - 1] || k == kinds[|kinds| - 1]
  {
    assert kinds == kinds[..|kinds| - 1] + [kinds[|kinds| - 1]];
  }

  lemma NetOfKind(spans: seq<Span>, axis: int, own: Kind, k: Kind, a: int, b: int)
    requires a <= b <= a + 1
    ensures Net(EventsOf(Intervals(OfKind(spans, own), axis), own), k, a, b) ==
            if k == own then Open(Intervals(OfKind(spans, k), axis), a, b) else 0
  {
    IntervalsCoverExactly(OfKind(spans, own), axis, 0);
    NetEventsOf(Intervals(OfKind(spans, own), axis), own, k, a, b, axis);
  }

  lemma {:induction false} NetEventsFor(spans: seq<Span>, axis: int, kinds: seq<Kind>, k: Kind, a: int, b: int)
    requires a <= b <= a + 1
    requires forall i, j :: 0 <= i < j < |kinds| ==> kinds[i] != kinds[j]
    ensures Net(EventsFor(spans, axis, kinds), k, a, b) ==
            if k in kinds then Open(Intervals(OfKind(spans, k), axis), a, b) else 0
  {
    if kinds != [] {
      var n := |kinds| - 1;
      NetEventsFor(spans, axis, kinds[..n], k, a, b);
      NetOfKind(spans, axis, kinds[n], k, a, b);
      NetConcat(EventsFor(spans, axis, kinds[..n]), EventsOf(Intervals(OfKind(spans, kinds[n]), axis), kinds[n]), k, a,
                b);
      NewKind(kinds, k);
    }
  }

  lemma {:induction false} OpenIffInSome(xs: seq<Interval>, t: int)
    ensures Open(xs, t + 1, t + 1) > 0 <==> InSome(xs, t)
  {
    if xs != [] {
      var n := |xs| - 1;
      OpenIffInSome(xs[..n], t);
      if InSome(xs[..n], t) {
        var i :| 0 <= i < n && InInterval(xs[..n][i], t);
        assert InInterval(xs[i], t);
      }
      if InSome(xs, t) && !InInterval(xs[n], t) {
        var i :| 0 <= i < |xs| && InInterval(xs[i], t);
        assert InInterval(xs[..n][i], t);
      }
      if InInterval(xs[n], t) {
        assert InSome(xs, t);
      }
    }
  }

  /** The counter of a kind after the first `n` events. */
  function Running(es: seq<Event>, n: nat, k: Kind): int
    requires n <= |es|
  {
    if n == 0 then 0 else Running(es, n - 1, k) + (if es[n - 1].kind == k then es[n - 1].change else 0)
  }

  ghost predicate UnitChanges(es: seq<Event>) {
    forall i :: 0 <= i < |es| ==> es[i].change == 1 || es[i].change == -1
  }

  ghost predicate WithinAxis(es: seq<Event>, axis: int) {
    forall i :: 0 <= i < |es| ==> 0 <= es[i].moment <= axis
  }

  lemma {:induction false} EventsOfShape(xs: seq<Interval>, k: Kind, axis: int)
    requires OnAxis(xs, axis)
    ensures UnitChanges(EventsOf(xs, k)) && WithinAxis(EventsOf(xs, k), axis)
  {
    if xs != [] {
      EventsOfShape(xs[..|xs| - 1], k, axis);
    }
  }

  lemma {:induction false} EventsForShape(spans: seq<Span>, axis: int, kinds: seq<Kind>)
    ensures UnitChanges(EventsFor(spans, axis, kinds)) && WithinAxis(EventsFor(spans, axis, kinds), axis)
  {
    if kinds != [] {
      var n := |kinds| - 1;
      EventsForShape(spans, axis, kinds[..n]);
      var own := OfKind(spans, kinds[n]);
      IntervalsCoverExactly(own, axis, 0);
      EventsOfShape(Intervals(own, axis), kinds[n], axis);
    }
  }

  /**
    What makes a list of events a faithful account of the spans: it is in order of time, and the
    events up to any moment add up to the number of spans of each kind at work then.
  */
  ghost predicate Faithful(es: seq<Event>, spans: seq<Span>, axis: int) {
    && MomentsAscend(es) && UnitChanges(es) && WithinAxis(es, axis)
    && (forall k, a :: Net(es, k, a, a) > 0 <==> k in Mix(spans, axis, a - 1))
    && (forall k, a, b :: b == a + 1 ==> Net(es, k, a, b) >= 0)
  }

  lemma PresenceIsCoverage(spans: seq<Span>, axis: int, k: Kind, t: int)
    ensures InSome(Intervals(OfKind(spans, k), axis), t) <==> k in Mix(spans, axis, t)
  {
    var own := OfKind(spans, k);
    IntervalsCoverExactly(own, axis, t);
    if exists i :: 0 <= i < |own| && Covers(own[i], axis, t) {
      var i :| 0 <= i < |own| && Covers(own[i], axis, t);
      OfKindMembers(spans, k, own[i]);
      var j :| 0 <= j < |spans| && spans[j] == own[i];
      assert KindAt(spans, axis, k, t);
    }
    if KindAt(spans, axis, k, t) {
      var j :| 0 <= j < |spans| && spans[j].kind == k && Covers(spans[j], axis, t);
      OfKindMembers(spans, k, spans[j]);
      var i :| 0 <= i < |own| && own[i] == spans[j];
    }
  }

  /** The events the sweep builds and sorts are a faithful account, for every list of spans. */
  lemma SortedEventsFaithful(spans: seq<Span>, axis: int, kinds: seq<Kind>)
    requires forall i, j :: 0 <= i < j < |kinds| ==> kinds[i] != kinds[j]
    requires forall k: Kind :: k in kinds
    ensures Faithful(Sort(EventsFor(spans, axis, kinds), EventLe), spans, axis)
  {
    var built := EventsFor(spans, axis, kinds);
    var es := Sort(built, EventLe);
    EventsForShape(spans, axis, kinds);
    SortKeeps(built, EventLe);
    SortSorts(built, EventLe);
    forall i | 0 <= i < |es|
      ensures (es[i].change == 1 || es[i].change == -1) && 0 <= es[i].moment <= axis
    {
      assert es[i] in multiset(built);
    }
    forall k, a
      ensures Net(es, k, a, a) > 0 <==> k in Mix(spans, axis, a - 1)
    {
      NetSort(built, k, a, a);
      NetEventsFor(spans, axis, kinds, k, a, a);
      OpenIffInSome(Intervals(OfKind(spans, k), axis), a - 1);
      PresenceIsCoverage(spans, axis, k, a - 1);
    }
    forall k, a, b | b == a + 1
      ensures Net(es, k, a, b) >= 0
    {
      NetSort(built, k, a, b);
      NetEventsFor(spans, axis, kinds, k, a, b);
    }
  }

  lemma {:induction false} RunningPrefix(es: seq<Event>, m: nat, n: nat, k: Kind)
    requires n <= m <= |es|
    ensures Running(es[..m], n, k) == Running(es, n, k)
  {
    if n > 0 {
      RunningPrefix(es, m, n - 1, k);
    }
  }

  /** Split a count at position `n`: what was swept, and what is still to come. */
  lemma {:induction false} NetFromPrefix(es: seq<Event>, n: nat, k: Kind, a: int, b: int)
    requires n <= |es| && UnitChanges(es) && a <= b
    requires forall i :: 0 <= i < n ==> es[i].moment < b
    requires forall i :: n <= i < |es| ==> a <= es[i].moment
    ensures Net(es, k, a, b) <= Running(es, n, k)
    ensures a == b ==> Net(es, k, a, b) == Running(es, n, k)
    decreases |es|
  {
    if es != [] {
      var m := |es| - 1;
      NetFromPrefix(es[..m], Min(n, m), k, a, b);
      RunningPrefix(es, m, Min(n, m), k);
    }
  }

  /** No counter is ever negative, after any number of events of any trace. */
  lemma ActiveNeverNegative(es: seq<Event>, spans: seq<Span>, axis: int, n: nat, k: Kind)
    requires Faithful(es, spans, axis) && n <= |es|
    ensures Running(es, n, k) >= 0
  {
    if n > 0 {
      NetFromPrefix(es, n, k, es[n - 1].moment, es[n - 1].moment + 1);
    }
  }

  /** Between two consecutive event moments the counters and the pointwise mix agree. */
  lemma CountersAreMix(es: seq<Event>, spans: seq<Span>, axis: int, n: nat, t: int, k: Kind)
    requires Faithful(es, spans, axis) && n <= |es|
    requires n > 0 ==> es[n - 1].moment <= t
    requires n < |es| ==> t < es[n].moment
    ensures k in Mix(spans, axis, t) <==> Running(es, n, k) > 0
  {
    NetFromPrefix(es, n, k, t + 1, t + 1);
  }

  // ---------------------------------------------------------------- the sweep

  /** A number for each timed kind. */
  datatype PerKind = PerKind(mes: int, llm: int, cache: int, duckdb: int) {
    function Of(k: Kind): int {
      match k
      case Mes => mes
      case Llm => llm
      case Cache => cache
      case Duckdb => duckdb
    }

    function Plus(k: Kind, n: int): (r: PerKind)
      ensures forall j :: r.Of(j) == this.Of(j) + (if j == k then n else 0)
    {
      match k
      case Mes => this.(mes := mes + n)
      case Llm => this.(llm := llm + n)
      case Cache => this.(cache := cache + n)
      case Duckdb => this.(duckdb := duckdb + n)
    }

    function Sum(): int { mes + llm + cache + duckdb }
  }

  function IfActive(active: PerKind, k: Kind): seq<Kind> {
    if active.Of(k) > 0 then [k] else []
  }

  /** The kinds with a positive counter, in the order of the counters. */
  function Present(active: PerKind): seq<Kind> {
    IfActive(active, Mes) + IfActive(active, Llm) + IfActive(active, Cache) + IfActive(active, Duckdb)
  }

  ghost predicate Segment(shape: Shape, present: seq<Kind>) {
    match shape
    case Busy => present != []
    case Contended => |present| > 1
    case Only(k) => |present| == 1 && present[0] == k
    case Involving(k) => k in present
  }

  lemma PresentMembers(active: PerKind, k: Kind)
    ensures k in Present(active) <==> active.Of(k) > 0
  {
    assert k in IfActive(active, k) <==> active.Of(k) > 0;
    forall j | j != k
      ensures k !in IfActive(active, j)
    {
    }
  }

  /** The test the sweep makes on its counters is the shape of the mix. */
  lemma PresentFits(active: PerKind, mix: set<Kind>, shape: Shape)
    requires forall k :: k in mix <==> active.Of(k) > 0
    ensures Fits(shape, mix) <==> Segment(shape, Present(active))
  {
    var present := Present(active);
    forall k: Kind
      ensures k in mix <==> k in present
    {
      PresentMembers(active, k);
    }
    if |present| == 0 {
      assert mix == {};
    } else if |present| == 1 {
      assert mix == {present[0]};
    } else {
      var rest := mix - {present[0], present[1]};
      assert present[0] != present[1];
      assert present[0] in mix && present[1] in mix;
      assert mix == {present[0], present[1]} + rest;
    }
  }

  ghost function Share(shape: Shape, present: seq<Kind>, elapsed: int): int {
    if Segment(shape, present) then elapsed else 0
  }

  /** One stretch between consecutive moments adds its whole length to the segments it fits. */
  lemma SweepStretch(es: seq<Event>, spans: seq<Span>, axis: int, i: nat, active: PerKind, previous: int, shape: Shape)
    requires Faithful(es, spans, axis) && i < |es|
    requires forall k :: active.Of(k) == Running(es, i, k)
    requires previous == if i == 0 then 0 else es[i - 1].moment
    ensures 0 <= previous <= es[i].moment <= axis
    ensures Tally(spans, axis, shape, es[i].moment) ==
            Tally(spans, axis, shape, previous) + Share(shape, Present(active), es[i].moment - previous)
  {
    var present := Present(active);
    forall t | previous <= t < es[i].moment
      ensures Fits(shape, Mix(spans, axis, t)) == Segment(shape, present)
    {
      forall k: Kind
        ensures k in Mix(spans, axis, t) <==> active.Of(k) > 0
      {
        CountersAreMix(es, spans, axis, i, t, k);
      }
      PresentFits(active, Mix(spans, axis, t), shape);
    }
    TallyExtend(spans, axis, shape, previous, es[i].moment, Segment(shape, present));
  }

  lemma MixEmptyPast(spans: seq<Span>, axis: int, t: int)
    requires axis <= t
    ensures Mix(spans, axis, t) == {}
  {
  }

  /** Nothing is at work after the last event. */
  lemma SweepTail(es: seq<Event>, spans: seq<Span>, axis: nat, shape: Shape)
    requires Faithful(es, spans, axis)
    ensures var last := if es == [] then 0 else es[|es| - 1].moment;
            Tally(spans, axis, shape, last) == Measure(spans, axis, shape)
  {
    var last := if es == [] then 0 else es[|es| - 1].moment;
    forall t | last <= t < axis
      ensures Fits(shape, Mix(spans, axis, t)) == false
    {
      forall k: Kind
        ensures k !in Mix(spans, axis, t)
      {
        CountersAreMix(es, spans, axis, |es|, t, k);
        CountersAreMix(es, spans, axis, |es|, axis, k);
        MixEmptyPast(spans, axis, axis);
      }
      assert Mix(spans, axis, t) == {};
    }
    TallyExtend(spans, axis, shape, last, axis, false);
  }

  lemma EveryKindIsTimed()
    ensures forall k: Kind :: k in TimedKinds && k in Kinds
  {
    forall k: Kind
      ensures k in TimedKinds && k in Kinds
    {
      match k
      case Mes => assert TimedKinds[0] == k;
      case Llm => assert TimedKinds[1] == k;
      case Cache => assert TimedKinds[2] == k;
      case Duckdb => assert TimedKinds[3] == k;
    }
  }

  ghost predicate Accounts(spans: seq<Span>, axis: int, hi: int, occupancy: int, overlap: int, exclusive: PerKind) {
    && occupancy == Tally(spans, axis, Busy, hi)
    && overlap == Tally(spans, axis, Contended, hi)
    && forall k :: exclusive.Of(k) == Tally(spans, axis, Only(k), hi)
  }

  /**
    The sweep. Every figure it returns is a pointwise measure: milliseconds with some kind at
    work, with more than one kind at work, and with exactly one given kind at work.
  */
  method IntervalOccupancy(spans: seq<Span>, axis: nat)
    returns (occupancy: int, overlap: int, exclusive: PerKind)
    ensures occupancy == Measure(spans, axis, Busy)
    ensures overlap == Measure(spans, axis, Contended)
    ensures forall k :: exclusive.Of(k) == Measure(spans, axis, Only(k))
  {
    EveryKindIsTimed();
    var events := BuildEvents(spans, axis);
    SortedEventsFaithful(spans, axis, TimedKinds);
    events := Sort(events, EventLe);
    occupancy, overlap, exclusive := Sweep(events, spans, axis);
    SweepTail(events, spans, axis, Busy);
    SweepTail(events, spans, axis, Contended);
    forall k
      ensures exclusive.Of(k) == Measure(spans, axis, Only(k))
    {
      SweepTail(events, spans, axis, Only(k));
    }
  }

  method Sweep(events: seq<Event>, ghost spans: seq<Span>, ghost axis: int)
    returns (occupancy: int, overlap: int, exclusive: PerKind)
    requires Faithful(events, spans, axis)
    ensures var end := if events == [] then 0 else events[|events| - 1].moment;
            Accounts(spans, axis, end, occupancy, overlap, exclusive)
  {
    var active := PerKind(0, 0, 0, 0);
    exclusive := PerKind(0, 0, 0, 0);
    occupancy, overlap := 0, 0;
    var previous := 0;
    for i := 0 to |events|
      invariant forall k :: active.Of(k) == Running(events, i, k)
      invariant previous == if i == 0 then 0 else events[i - 1].moment
      invariant Accounts(spans, axis, previous, occupancy, overlap, exclusive)
    {
      var Event(moment, kind, change) := events[i];
      var elapsed := moment - previous;
      var present := Present(active);
      StretchAccounts(events, spans, axis, i, active, previous, occupancy, overlap, exclusive);
      if present != [] {
        occupancy := occupancy + elapsed;
        if |present| > 1 {
          overlap := overlap + elapsed;
        } else {
          exclusive := exclusive.Plus(present[0], elapsed);
        }
      }
      active := active.Plus(kind, change);
      previous := moment;
    }
  }

  lemma StretchAccounts(es: seq<Event>, spans: seq<Span>, axis: int, i: nat, active: PerKind, previous: int,
                        occupancy: int, overlap: int, exclusive: PerKind)
    requires Faithful(es, spans, axis) && i < |es|
    requires forall k :: active.Of(k) == Running(es, i, k)
    requires previous == if i == 0 then 0 else es[i - 1].moment
    requires Accounts(spans, axis, previous, occupancy, overlap, exclusive)
    ensures var present, elapsed := Present(active), es[i].moment - previous;
            && Tally(spans, axis, Busy, es[i].moment) == occupancy + Share(Busy, present, elapsed)
            && Tally(spans, axis, Contended, es[i].moment) == overlap + Share(Contended, present, elapsed)
            && (forall k ::
                  Tally(spans, axis, Only(k), es[i].moment) == exclusive.Of(k) + Share(Only(k), present, elapsed))
  {
    SweepStretch(es, spans, axis, i, active, previous, Busy);
    SweepStretch(es, spans, axis, i, active, previous, Contended);
    forall k
      ensures Tally(spans, axis, Only(k), es[i].moment) ==
              exclusive.Of(k) + Share(Only(k), Present(active), es[i].moment - previous)
    {
      SweepStretch(es, spans, axis, i, active, previous, Only(k));
    }
  }

  // ---------------------------------------------------------------- laws of the measures

  lemma {:induction false} TallyPartition(spans: seq<Span>, axis: int, hi: int)
    ensures Tally(spans, axis, Busy, hi) ==
            Tally(spans, axis, Contended, hi) + Tally(spans, axis, Only(Mes), hi) + Tally(spans, axis, Only(Llm), hi) +
            Tally(spans, axis, Only(Cache), hi) + Tally(spans, axis, Only(Duckdb), hi)
    decreases hi
  {
    if hi > 0 {
      TallyPartition(spans, axis, hi - 1);
      MixSplits(Mix(spans, axis, hi - 1));
    }
  }

  /** A mix is empty, has one member, or has more. */
  lemma MixSplits(mix: set<Kind>)
    ensures mix == {} ==> |mix| == 0
    ensures |mix| == 1 <==> exists k :: mix == {k}
    ensures mix != {} ==> |mix| > 1 || mix == {Mes} || mix == {Llm} || mix == {Cache} || mix == {Duckdb}
  {
    if mix != {} {
      var k :| k in mix;
      var rest := mix - {k};
      assert mix == rest + {k};
      if rest == {} {
        assert mix == {k};
        assert k == Mes || k == Llm || k == Cache || k == Duckdb;
      } else {
        var j :| j in rest;
        assert mix == (rest - {j}) + {j, k};
      }
    }
  }

  lemma {:induction false} TallyMonotone(spans: seq<Span>, axis: int, k: Kind, hi: int)
    ensures Tally(spans, axis, Only(k), hi) <= Tally(spans, axis, Involving(k), hi) <= Tally(spans, axis, Busy, hi)
    ensures Tally(spans, axis, Busy, hi) <= Max(0, hi)
    decreases hi
  {
    if hi > 0 {
      TallyMonotone(spans, axis, k, hi - 1);
    }
  }

  /** The union of one kind's intervals is the time that kind is at work. */
  lemma {:induction false} UnionOfKind(spans: seq<Span>, axis: int, k: Kind, hi: int)
    ensures CoveredMs(Intervals(OfKind(spans, k), axis), hi) == Tally(spans, axis, Involving(k), hi)
    decreases hi
  {
    if hi > 0 {
      UnionOfKind(spans, axis, k, hi - 1);
      PresenceIsCoverage(spans, axis, k, hi - 1);
    }
  }

  /** The union of all intervals, folded independently of the sweep, is the sweep's occupancy. */
  lemma {:induction false} UnionOfAll(spans: seq<Span>, axis: int, hi: int)
    ensures CoveredMs(Intervals(spans, axis), hi) == Tally(spans, axis, Busy, hi)
    decreases hi
  {
    if hi > 0 {
      UnionOfAll(spans, axis, hi - 1);
      IntervalsCoverExactly(spans, axis, hi - 1);
      if exists i :: 0 <= i < |spans| && Covers(spans[i], axis, hi - 1) {
        var i :| 0 <= i < |spans| && Covers(spans[i], axis, hi - 1);
        assert KindAt(spans, axis, spans[i].kind, hi - 1);
        EveryKindIsTimed();
        assert spans[i].kind in Mix(spans, axis, hi - 1);
      }
      if Mix(spans, axis, hi - 1) != {} {
        var k :| k in Mix(spans, axis, hi - 1);
        assert KindAt(spans, axis, k, hi - 1);
      }
    }
  }

  function Lengths(xs: seq<Interval>): int {
    if xs == [] then 0 else Lengths(xs[..|xs| - 1]) + xs[|xs| - 1].stop - xs[|xs| - 1].start
  }

  function Durations(spans: seq<Span>): nat {
    if spans == [] then 0 else Durations(spans[..|spans| - 1]) + spans[|spans| - 1].duration
  }

  lemma {:induction false} AppendCoversAtMost(xs: seq<Interval>, x: Interval, hi: int)
    requires x.start <= x.stop
    ensures CoveredMs(xs + [x], hi) <= CoveredMs(xs, hi) + Max(0, Min(hi, x.stop) - x.start)
    decreases hi
  {
    if hi > 0 {
      AppendCoversAtMost(xs, x, hi - 1);
      InSomeAppend(xs, x, hi - 1);
    }
  }

  lemma {:induction false} CoveredAtMostLengths(xs: seq<Interval>, axis: int, hi: int)
    requires OnAxis(xs, axis)
    ensures CoveredMs(xs, hi) <= Lengths(xs)
  {
    if xs == [] {
      CoveredMsEmpty(hi);
    } else {
      var n := |xs| - 1;
      CoveredAtMostLengths(xs[..n], axis, hi);
      AppendCoversAtMost(xs[..n], xs[n], hi);
      assert xs == xs[..n] + [xs[n]];
    }
  }

  lemma {:induction false} LengthsAtMostDurations(spans: seq<Span>, axis: int)
    ensures Lengths(Intervals(spans, axis)) <= Durations(spans)
  {
    if spans != [] {
      var n := |spans| - 1;
      LengthsAtMostDurations(spans[..n], axis);
      var rest, last := Intervals(spans[..n], axis), Clipped(spans[n], axis);
      if last.stop > last.start {
        assert (rest + [last])[..|rest|] == rest;
      }
    }
  }

  // ---------------------------------------------------------------- the processing summary

  datatype KindTimes = KindTimes(cumulative: int, occupancy: int, exclusive: int)

  datatype Timing = Timing(occupancy: int, overlap: int, uncovered: int, exclusive: PerKind)

  function Leaves(spans: seq<Span>): seq<Span> {
    if spans == [] then []
    else if spans[0].leaf then [spans[0]] + Leaves(spans[1..])
    else Leaves(spans[1..])
  }

  /** Exactly the leaves are counted, each as often as it was recorded. */
  lemma {:induction false} LeavesMeant(spans: seq<Span>, span: Span)
    ensures multiset(Leaves(spans))[span] == if span.leaf then multiset(spans)[span] else 0
  {
    if spans != [] {
      LeavesMeant(spans[1..], span);
      assert spans == [spans[0]] + spans[1..];
    }
  }

  /** A span lasts as many milliseconds as it covers of an axis that holds it. */
  lemma LoneSpan(span: Span, axis: nat)
    requires span.End() <= axis
    ensures Measure([span], axis, Involving(span.kind)) == Durations([span])
  {
    assert [span][..0] == [];
    forall t | 0 <= t < span.offset
      ensures !Fits(Involving(span.kind), Mix([span], axis, t))
    {
      assert !Covers(span, axis, t);
    }
    forall t | span.offset <= t < span.End()
      ensures Fits(Involving(span.kind), Mix([span], axis, t))
    {
      assert Covers([span][0], axis, t) && KindAt([span], axis, span.kind, t);
    }
    forall t | span.End() <= t < axis
      ensures !Fits(Involving(span.kind), Mix([span], axis, t))
    {
      assert !Covers(span, axis, t);
    }
    TallyExtend([span], axis, Involving(span.kind), 0, span.offset, false);
    TallyExtend([span], axis, Involving(span.kind), span.offset, span.End(), true);
    TallyExtend([span], axis, Involving(span.kind), span.End(), axis, false);
  }

  /** Cumulative times of spans add up. */
  lemma {:induction false} DurationsAdd(a: seq<Span>, b: seq<Span>)
    ensures Durations(a + b) == Durations(a) + Durations(b)
  {
    if b == [] {
      assert a + b == a;
    } else {
      var n := |b| - 1;
      assert (a + b)[..|a| + n] == a + b[..n];
      DurationsAdd(a, b[..n]);
    }
  }

  method Cumulative(spans: seq<Span>) returns (total: nat)
    ensures total == Durations(spans)
  {
    total := 0;
    for i := 0 to |spans|
      invariant total == Durations(spans[..i])
    {
      assert spans[..i + 1][..i] == spans[..i];
      total := total + spans[i].duration;
    }
    assert spans[..|spans|] == spans;
  }

  ghost predicate KindAccounts(leaves: seq<Span>, axis: nat, k: Kind, times: KindTimes) {
    && times.cumulative == Durations(OfKind(leaves, k))
    && times.occupancy == Measure(leaves, axis, Involving(k))
    && times.exclusive == Measure(leaves, axis, Only(k))
    && 0 <= times.exclusive <= times.occupancy <= times.cumulative
    && times.occupancy <= Measure(leaves, axis, Busy)
  }

  method KindSummary(leaves: seq<Span>, axis: nat, kind: Kind, exclusive: int) returns (times: KindTimes)
    requires exclusive == Measure(leaves, axis, Only(kind))
    ensures KindAccounts(leaves, axis, kind, times)
  {
    var measured := OfKind(leaves, kind);
    var cumulative := Cumulative(measured);
    var intervals := SpanIntervals(measured, axis);
    IntervalsCoverExactly(measured, axis, 0);
    var occupancy := UnionMs(intervals, axis);
    UnionOfKind(leaves, axis, kind, axis);
    CoveredAtMostLengths(intervals, axis, axis);
    LengthsAtMostDurations(measured, axis);
    TallyMonotone(leaves, axis, kind, axis);
    times := KindTimes(cumulative, occupancy, exclusive);
  }

  /**
    The timing section. Segments are disjoint and exhaust the axis; a kind's exclusive time is
    within its occupancy, its occupancy within its cumulative time and within the whole.
  */
  method ProcessingTimes(spans: seq<Span>, axis: nat) returns (timing: Timing, kinds: map<Kind, KindTimes>)
    ensures timing.occupancy == Measure(Leaves(spans), axis, Busy)
    ensures timing.overlap == Measure(Leaves(spans), axis, Contended)
    ensures timing.occupancy == timing.overlap + timing.exclusive.Sum()
    ensures timing.occupancy + timing.uncovered == axis && timing.uncovered >= 0
    ensures forall k: Kind :: k in kinds && KindAccounts(Leaves(spans), axis, k, kinds[k])
  {
    var leaves := Leaves(spans);
    var occupancy, overlap, exclusive := IntervalOccupancy(leaves, axis);
    TallyMonotone(leaves, axis, Mes, axis);
    TallyPartition(leaves, axis, axis);
    timing := Timing(occupancy, overlap, Max(0, axis - occupancy), exclusive);
    kinds := map[];
    for i := 0 to |TimedKinds|
      invariant forall k :: k in TimedKinds[..i] ==> k in kinds && KindAccounts(leaves, axis, k, kinds[k])
    {
      var kind := TimedKinds[i];
      var times := KindSummary(leaves, axis, kind, exclusive.Of(kind));
      kinds := kinds[kind := times];
      assert TimedKinds[..i + 1] == TimedKinds[..i] + [kind];
    }
    EveryKindIsTimed();
    assert TimedKinds[..|TimedKinds|] == TimedKinds;
  }

  // ---------------------------------------------------------------- the axis and the phases

  /** The length of the axis: the least one that holds the ledger, the wall clock and every span. */
  method TotalMs(ledger: nat, wallClock: nat, spans: seq<Span>) returns (total: nat)
    ensures ledger <= total && wallClock <= total
    ensures forall i :: 0 <= i < |spans| ==> spans[i].End() <= total
    ensures total == ledger || total == wallClock || exists i :: 0 <= i < |spans| && spans[i].End() == total
  {
    total := Max(ledger, wallClock);
    for i := 0 to |spans|
      invariant ledger <= total && wallClock <= total
      invariant forall j :: 0 <= j < i ==> spans[j].End() <= total
      invariant total == ledger || total == wallClock || exists j :: 0 <= j < i && spans[j].End() == total
    {
      total := Max(total, spans[i].End());
    }
  }

  lemma WholeSpan(span: Span, axis: nat)
    requires span.End() <= axis
    ensures Clipped(span, axis).stop - Clipped(span, axis).start == span.duration
  {
  }

  lemma LengthsAppend(xs: seq<Interval>, x: Interval)
    ensures Lengths(xs + [x]) == Lengths(xs) + x.stop - x.start
  {
    assert (xs + [x])[..|xs|] == xs;
  }

  /** On an axis that holds every span nothing is clipped: the intervals are the spans themselves. */
  lemma {:induction false} NothingClipped(spans: seq<Span>, axis: nat)
    requires forall span :: span in spans ==> span.End() <= axis
    ensures Lengths(Intervals(spans, axis)) == Durations(spans)
  {
    if spans != [] {
      var n := |spans| - 1;
      var rest, last := Intervals(spans[..n], axis), Clipped(spans[n], axis);
      NothingClipped(spans[..n], axis);
      WholeSpan(spans[n], axis);
      LengthsAppend(rest, last);
    }
  }

  datatype PhaseRow = PhaseRow(name: string, offset: nat)

  datatype Phase = Phase(name: string, offset: nat, duration: nat)

  /** Consecutive announcements of one state collapse into the first. */
  function Collapse(rows: seq<PhaseRow>): seq<PhaseRow> {
    if rows == [] then []
    else
      var n := |rows| - 1;
      if n > 0 && rows[n].name == rows[n - 1].name then Collapse(rows[..n])
      else Collapse(rows[..n]) + [rows[n]]
  }

  lemma {:induction false} CollapseShape(rows: seq<PhaseRow>)
    ensures var c := Collapse(rows);
            && (rows != [] ==> c != [] && c[0] == rows[0] && c[|c| - 1].name == rows[|rows| - 1].name)
            && (forall i :: 0 < i < |c| ==> c[i].name != c[i - 1].name)
            && (forall r :: r in c ==> r in rows)
  {
    if rows != [] {
      var n := |rows| - 1;
      CollapseShape(rows[..n]);
      if n > 0 {
        assert rows[..n][n - 1] == rows[n - 1];
      }
    }
  }

  function EndOf(rows: seq<PhaseRow>, i: nat, total: nat): nat
    requires i < |rows|
  {
    if i + 1 < |rows| then rows[i + 1].offset else total
  }

  method BuildPhases(rows: seq<PhaseRow>, total: nat) returns (phases: seq<Phase>)
    ensures |phases| == |Collapse(rows)|
    ensures forall i :: 0 <= i < |phases| ==>
              var row := Collapse(rows)[i];
              phases[i] == Phase(row.name, row.offset, Max(0, EndOf(Collapse(rows), i, total) - row.offset))
  {
    var collapsed: seq<PhaseRow> := [];
    for i := 0 to |rows|
      invariant collapsed == Collapse(rows[..i])
    {
      assert rows[..i + 1][..i] == rows[..i];
      if i > 0 && rows[i].name == rows[i - 1].name {
      } else {
        collapsed := collapsed + [rows[i]];
      }
    }
    assert rows[..|rows|] == rows;
    phases := [];
    for i := 0 to |collapsed|
      invariant |phases| == i
      invariant forall j :: 0 <= j < i ==>
                  phases[j] == Phase(collapsed[j].name, collapsed[j].offset,
                                     Max(0, EndOf(collapsed, j, total) - collapsed[j].offset))
    {
      var end := if i + 1 < |collapsed| then collapsed[i + 1].offset else total;
      phases := phases + [Phase(collapsed[i].name, collapsed[i].offset, Max(0, end - collapsed[i].offset))];
    }
  }

  function Spent(rows: seq<PhaseRow>, total: nat): nat {
    if rows == [] then 0 else Max(0, EndOf(rows, 0, total) - rows[0].offset) + Spent(rows[1..], total)
  }

  /**
    The phase bar accounts for exactly the time from the first announcement to the end of the axis
    if and only if no phase was announced before its predecessor; a clock step makes it longer.
  */
  lemma {:induction false} PhasesTile(rows: seq<PhaseRow>, total: nat)
    requires rows != []
    ensures Spent(rows, total) >= total - rows[0].offset
    ensures Spent(rows, total) == total - rows[0].offset <==>
            forall i :: 0 <= i < |rows| ==> rows[i].offset <= EndOf(rows, i, total)
  {
    if |rows| > 1 {
      var rest := rows[1..];
      PhasesTile(rest, total);
      forall i | 0 <= i < |rest|
        ensures rest[i].offset <= EndOf(rest, i, total) <==> rows[i + 1].offset <= EndOf(rows, i + 1, total)
      {
      }
      if forall i :: 0 <= i < |rows| ==> rows[i].offset <= EndOf(rows, i, total) {
        assert forall i :: 0 <= i < |rest| ==> rest[i].offset <= EndOf(rest, i, total);
      } else if forall i :: 0 <= i < |rest| ==> rest[i].offset <= EndOf(rest, i, total) {
        assert forall i :: 0 < i < |rows| ==> rest[i - 1].offset == rows[i].offset;
      }
    } else {
      assert rows[1..] == [];
    }
  }
}
