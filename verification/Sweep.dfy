/**
 The sweep line over note starts and ends in `_compute_track_metrics`, against the definition it stands for:
 how many notes are sounding at each instant. Times are integers in the grid the beats are rounded to
 (ten-thousandths), so the measure of a set of instants is a count of unit steps.
 */
module Sweep {
  import opened Sorting

  datatype Interval = Interval(start: int, end: int)

  datatype Event = Event(t: int, delta: int)

  predicate Proper(notes: seq<Interval>) {
    forall i :: 0 <= i < |notes| ==> notes[i].start <= notes[i].end
  }

  // ---- The pointwise definition ----

  /** How many notes sound at instant `x`; a note has left its end instant. */
  function Active(notes: seq<Interval>, x: int): nat {
    if notes == [] then 0
    else (if notes[0].start <= x < notes[0].end then 1 else 0) + Active(notes[1..], x)
  }

  /** The length of the part of `lo..hi` where the number of sounding notes satisfies `p`. */
  function TimeWhere(notes: seq<Interval>, lo: int, hi: int, p: nat -> bool): nat
    decreases hi - lo
  {
    if hi <= lo then 0
    else TimeWhere(notes, lo, hi - 1, p) + if p(Active(notes, hi - 1)) then 1 else 0
  }

  function ActiveSum(notes: seq<Interval>, lo: int, hi: int): nat
    decreases hi - lo
  {
    if hi <= lo then 0 else ActiveSum(notes, lo, hi - 1) + Active(notes, hi - 1)
  }

  function TotalDuration(notes: seq<Interval>): int {
    if notes == [] then 0 else notes[0].end - notes[0].start + TotalDuration(notes[1..])
  }

  function Silent(): nat -> bool { (n: nat) => n == 0 }
  function Mono(): nat -> bool { (n: nat) => n == 1 }
  function Poly(): nat -> bool { (n: nat) => n >= 2 }

  // ---- Events ----

  function Events(notes: seq<Interval>): seq<Event> {
    if notes == [] then []
    else [Event(notes[0].start, 1), Event(notes[0].end, -1)] + Events(notes[1..])
  }

  /** Tuple order: by time, ends before starts at the same time. */
  function ByTime(): Event -> Rank { (e: Event) => Rank(e.t, e.delta) }

  function Balance(s: seq<Event>): int {
    if s == [] then 0 else s[0].delta + Balance(s[1..])
  }

  function BalanceUpTo(s: seq<Event>, x: int): int {
    if s == [] then 0 else (if s[0].t <= x then s[0].delta else 0) + BalanceUpTo(s[1..], x)
  }

  lemma {:induction false} BalanceSnoc(s: seq<Event>, i: nat)
    requires i < |s|
    ensures Balance(s[..i + 1]) == Balance(s[..i]) + s[i].delta
    decreases i
  {
    if i == 0 {
      assert s[..1][1..] == [];
    } else {
      assert s[..i + 1][1..] == s[1..][..i] && s[..i][1..] == s[1..][..i - 1];
      BalanceSnoc(s[1..], i - 1);
    }
  }

  /** A cut of the list at instant `x` collects exactly the events up to `x`. */
  lemma {:induction false} BalanceOfPrefix(s: seq<Event>, i: nat, x: int)
    requires i <= |s|
    requires forall j :: 0 <= j < i ==> s[j].t <= x
    requires forall j :: i <= j < |s| ==> s[j].t > x
    ensures BalanceUpTo(s, x) == Balance(s[..i])
    decreases |s|
  {
    if s != [] {
      if i > 0 {
        assert s[..i][1..] == s[1..][..i - 1];
        BalanceOfPrefix(s[1..], i - 1, x);
      } else {
        BalanceOfPrefix(s[1..], 0, x);
        assert s[..0] == [] && s[1..][..0] == [];
      }
    }
  }

  lemma {:induction false} InsertBalance(e: Event, s: seq<Event>, x: int)
    ensures BalanceUpTo(Insert(e, s, ByTime()), x) == BalanceUpTo([e], x) + BalanceUpTo(s, x)
  {
    assert [e][1..] == [];
    if s == [] || Le(ByTime()(e), ByTime()(s[0])) {
      assert ([e] + s)[1..] == s;
    } else {
      InsertBalance(e, s[1..], x);
      assert ([s[0]] + Insert(e, s[1..], ByTime()))[1..] == Insert(e, s[1..], ByTime());
    }
  }

  lemma {:induction false} SortBalance(s: seq<Event>, x: int)
    ensures BalanceUpTo(Sort(s, ByTime()), x) == BalanceUpTo(s, x)
  {
    if s != [] {
      SortBalance(s[1..], x);
      InsertBalance(s[0], Sort(s[1..], ByTime()), x);
      assert [s[0]][1..] == [];
    }
  }

  lemma {:induction false} EventsBalance(notes: seq<Interval>, x: int)
    requires Proper(notes)
    ensures BalanceUpTo(Events(notes), x) == Active(notes, x)
  {
    if notes != [] {
      EventsBalance(notes[1..], x);
      var s := Events(notes);
      assert s[1..][0] == Event(notes[0].end, -1) && s[1..][1..] == Events(notes[1..]);
    }
  }

  /** Between two event times the running count is the number of sounding notes. */
  lemma {:induction false} CountIsActive(notes: seq<Interval>, i: nat, x: int)
    requires Proper(notes) && i <= |Sort(Events(notes), ByTime())|
    requires i > 0 ==> Sort(Events(notes), ByTime())[i - 1].t <= x
    requires i < |Sort(Events(notes), ByTime())| ==> x < Sort(Events(notes), ByTime())[i].t
    ensures Balance(Sort(Events(notes), ByTime())[..i]) == Active(notes, x)
  {
    var s := Sort(Events(notes), ByTime());
    SortSorts(Events(notes), ByTime());
    forall j | 0 <= j < i ensures s[j].t <= x {
      if j < i - 1 {
        assert Le(ByTime()(s[j]), ByTime()(s[i - 1]));
      }
    }
    forall j | i <= j < |s| ensures s[j].t > x {
      if j > i {
        assert Le(ByTime()(s[i]), ByTime()(s[j]));
      }
    }
    BalanceOfPrefix(s, i, x);
    SortBalance(Events(notes), x);
    EventsBalance(notes, x);
  }

  // ---- Measures ----

  /** Over a stretch with a constant count the measures grow by its length, or not at all. */
  lemma {:induction false} ConstantStretch(notes: seq<Interval>, lo: int, mid: int, hi: int, n: nat, p: nat -> bool)
    requires lo <= mid <= hi && forall x :: mid <= x < hi ==> Active(notes, x) == n
    ensures TimeWhere(notes, lo, hi, p) == TimeWhere(notes, lo, mid, p) + if p(n) then hi - mid else 0
    ensures ActiveSum(notes, lo, hi) == ActiveSum(notes, lo, mid) + n * (hi - mid)
    decreases hi - mid
  {
    if mid < hi {
      ConstantStretch(notes, lo, mid, hi - 1, n, p);
      assert n * (hi - mid) == n * (hi - 1 - mid) + n;
    }
  }

  /** Silence, one voice and several voices divide the span. */
  lemma {:induction false} SpanIsDivided(notes: seq<Interval>, lo: int, hi: int)
    requires lo <= hi
    ensures TimeWhere(notes, lo, hi, Silent()) + TimeWhere(notes, lo, hi, Mono()) + TimeWhere(notes, lo, hi, Poly())
         == hi - lo
    decreases hi - lo
  {
    if lo < hi {
      SpanIsDivided(notes, lo, hi - 1);
    }
  }

  lemma {:induction false} ActiveOne(n: Interval, x: int)
    ensures Active([n], x) == if n.start <= x < n.end then 1 else 0
  {
    assert [n][1..] == [];
    assert Active([], x) == 0;
  }

  lemma {:induction false} SumOverNotes(n: Interval, rest: seq<Interval>, lo: int, hi: int)
    ensures ActiveSum([n] + rest, lo, hi) == ActiveSum([n], lo, hi) + ActiveSum(rest, lo, hi)
    decreases hi - lo
  {
    if lo < hi {
      SumOverNotes(n, rest, lo, hi - 1);
      assert ([n] + rest)[1..] == rest;
      ActiveOne(n, hi - 1);
    }
  }

  lemma {:induction false} OneNoteSum(n: Interval, lo: int, hi: int)
    requires lo <= n.start <= n.end
    ensures ActiveSum([n], lo, hi) == if hi <= n.start then 0 else if hi <= n.end then hi - n.start else n.end - n.start
    decreases hi - lo
  {
    if lo < hi {
      OneNoteSum(n, lo, hi - 1);
      ActiveOne(n, hi - 1);
    }
  }

  /** Counting by instants or by notes gives the same total. */
  lemma {:induction false} SumIsDuration(notes: seq<Interval>, lo: int, hi: int)
    requires forall i :: 0 <= i < |notes| ==> lo <= notes[i].start <= notes[i].end <= hi
    ensures ActiveSum(notes, lo, hi) == TotalDuration(notes)
  {
    if notes == [] {
      EmptySum(lo, hi);
    } else {
      var n, rest := notes[0], notes[1..];
      SumIsDuration(rest, lo, hi);
      SumOverNotes(n, rest, lo, hi);
      OneNoteSum(n, lo, hi);
      assert notes == [n] + rest;
    }
  }

  lemma {:induction false} EmptySum(lo: int, hi: int)
    ensures ActiveSum([], lo, hi) == 0
    decreases hi - lo
  {
    if lo < hi {
      EmptySum(lo, hi - 1);
    }
  }

  lemma {:induction false} SilentOutside(notes: seq<Interval>, x: int)
    requires forall i :: 0 <= i < |notes| ==> x < notes[i].start || notes[i].end <= x
    ensures Active(notes, x) == 0
  {
    if notes != [] {
      SilentOutside(notes[1..], x);
    }
  }

  // ---- The span ----

  lemma {:induction false} EventsContain(notes: seq<Interval>, i: nat)
    requires i < |notes|
    ensures Event(notes[i].start, 1) in Events(notes) && Event(notes[i].end, -1) in Events(notes)
  {
    if i > 0 {
      EventsContain(notes[1..], i - 1);
    }
  }

  lemma {:induction false} EventsLength(notes: seq<Interval>)
    ensures |Events(notes)| == 2 * |notes|
  {
    if notes != [] {
      EventsLength(notes[1..]);
    }
  }

  /** Every note lies between the first and the last event. */
  lemma {:induction false} SpanCovers(notes: seq<Interval>)
    requires Proper(notes) && notes != []
    ensures |Sort(Events(notes), ByTime())| == 2 * |notes|
    ensures var s := Sort(Events(notes), ByTime());
            forall i :: 0 <= i < |notes| ==> s[0].t <= notes[i].start && notes[i].end <= s[|s| - 1].t
  {
    var s := Sort(Events(notes), ByTime());
    SortSorts(Events(notes), ByTime());
    SortPermutes(Events(notes), ByTime());
    EventsLength(notes);
    forall i | 0 <= i < |notes| ensures s[0].t <= notes[i].start && notes[i].end <= s[|s| - 1].t {
      EventsContain(notes, i);
      SortMember(Events(notes), ByTime(), Event(notes[i].start, 1));
      SortMember(Events(notes), ByTime(), Event(notes[i].end, -1));
      InSpan(s, Event(notes[i].start, 1));
      InSpan(s, Event(notes[i].end, -1));
    }
  }

  lemma {:induction false} InSpan(s: seq<Event>, e: Event)
    requires Sorted(s, ByTime()) && e in s
    ensures s[0].t <= e.t <= s[|s| - 1].t
  {
    var j: nat :| j < |s| && s[j] == e;
    if 0 < j {
      assert Le(ByTime()(s[0]), ByTime()(s[j]));
    }
    if j < |s| - 1 {
      assert Le(ByTime()(s[j]), ByTime()(s[|s| - 1]));
    }
  }

  /** The span of a track, from its first event to its last. */
  function SpanOf(notes: seq<Interval>): (int, int) {
    var s := Sort(Events(notes), ByTime());
    if s == [] then (0, 0) else (s[0].t, s[|s| - 1].t)
  }

  /** `m` is the largest number of notes sounding at one instant. */
  ghost predicate IsMaxActive(notes: seq<Interval>, m: int) {
    (forall x :: Active(notes, x) <= m) && exists x :: Active(notes, x) == m
  }

  // ---- The sweep ----

  /**
   One event. Ends come before starts at the same time, so a count that exceeds the running maximum is never
   above the true count at that instant.
   */
  lemma {:induction false} CountAfterStart(notes: seq<Interval>, i: nat)
    requires Proper(notes) && i < |Sort(Events(notes), ByTime())| && Sort(Events(notes), ByTime())[i].delta > 0
    ensures Balance(Sort(Events(notes), ByTime())[..i + 1]) <= Active(notes, Sort(Events(notes), ByTime())[i].t)
  {
    var s := Sort(Events(notes), ByTime());
    SortSorts(Events(notes), ByTime());
    var x := s[i].t;
    var k := LastAt(s, i);
    forall j | i < j < k ensures s[j].delta > 0 {
      assert Le(ByTime()(s[i]), ByTime()(s[j]));
      assert Le(ByTime()(s[j]), ByTime()(s[k - 1]));
    }
    BalanceGrows(s, i + 1, k);
    CountIsActive(notes, k, x);
  }

  /** The end of the group of events that share the time of event `i`. */
  lemma {:induction false} LastAt(s: seq<Event>, i: nat) returns (k: nat)
    requires i < |s| && Sorted(s, ByTime())
    ensures i < k <= |s| && s[k - 1].t == s[i].t && (k < |s| ==> s[k].t > s[i].t)
  {
    k := i + 1;
    while k < |s| && s[k].t == s[i].t
      invariant i < k <= |s| && s[k - 1].t == s[i].t
    {
      k := k + 1;
    }
    if k < |s| {
      assert Le(ByTime()(s[i]), ByTime()(s[k]));
    }
  }

  lemma {:induction false} BalanceGrows(s: seq<Event>, a: nat, b: nat)
    requires a <= b <= |s| && forall j :: a <= j < b ==> s[j].delta > 0
    ensures Balance(s[..a]) <= Balance(s[..b])
    decreases b
  {
    if a < b {
      BalanceGrows(s, a, b - 1);
      BalanceSnoc(s, b - 1);
    }
  }

  // ---- The measures, told from the notes ----

  /** As many notes sound as have begun and not ended. */
  lemma {:induction false} ActiveCounts(notes: seq<Interval>, x: int)
    ensures Active(notes, x) == |set i | 0 <= i < |notes| && notes[i].start <= x < notes[i].end|
    decreases |notes|
  {
    if notes != [] {
      var n := |notes| - 1;
      ActiveCounts(notes[..n], x);
      ActiveSnoc(notes[..n], notes[n], x);
      assert notes == notes[..n] + [notes[n]];
      var before := set i | 0 <= i < n && notes[..n][i].start <= x < notes[..n][i].end;
      var all := set i | 0 <= i < |notes| && notes[i].start <= x < notes[i].end;
      assert all == if notes[n].start <= x < notes[n].end then before + {n} else before;
    }
  }

  lemma {:induction false} ActiveSnoc(notes: seq<Interval>, n: Interval, x: int)
    ensures Active(notes + [n], x) == Active(notes, x) + if n.start <= x < n.end then 1 else 0
  {
    if notes == [] {
      assert notes + [n] == [n];
      ActiveOne(n, x);
    } else {
      assert (notes + [n])[1..] == notes[1..] + [n];
      ActiveSnoc(notes[1..], n, x);
    }
  }

  /** The two notes share a stretch of time. */
  predicate Overlap(a: Interval, b: Interval) {
    a.start < b.end && b.start < a.end && a.start < a.end && b.start < b.end
  }

  predicate Apart(notes: seq<Interval>) {
    forall i, j :: 0 <= i < j < |notes| ==> !Overlap(notes[i], notes[j])
  }

  /** Somewhere several notes sound if and only if two of them overlap. */
  lemma {:induction false} SeveralExactly(notes: seq<Interval>)
    ensures (exists x :: Active(notes, x) >= 2) <==> !Apart(notes)
  {
    if x :| Active(notes, x) >= 2 {
      var i, j := TwoSound(notes, x);
    }
    if i, j :| 0 <= i < j < |notes| && Overlap(notes[i], notes[j]) {
      var x := if notes[i].start < notes[j].start then notes[j].start else notes[i].start;
      ActiveCounts(notes, x);
      var all := set k | 0 <= k < |notes| && notes[k].start <= x < notes[k].end;
      assert {i, j} <= all;
      SubsetSize({i, j}, all);
      assert Active(notes, x) >= 2;
    }
  }

  lemma SubsetSize(a: set<int>, b: set<int>)
    requires a <= b
    ensures |a| <= |b|
  {
    assert b == a + (b - a);
  }

  lemma {:induction false} TwoSound(notes: seq<Interval>, x: int) returns (i: nat, j: nat)
    requires Active(notes, x) >= 2
    ensures i < j < |notes| && Overlap(notes[i], notes[j])
  {
    if notes[0].start <= x < notes[0].end {
      j := OneSounds(notes[1..], x);
      i, j := 0, j + 1;
    } else {
      i, j := TwoSound(notes[1..], x);
      i, j := i + 1, j + 1;
    }
  }

  lemma {:induction false} OneSounds(notes: seq<Interval>, x: int) returns (i: nat)
    requires Active(notes, x) >= 1
    ensures i < |notes| && notes[i].start <= x < notes[i].end
  {
    i := 0;
    if !(notes[0].start <= x < notes[0].end) {
      i := OneSounds(notes[1..], x);
      i := i + 1;
    }
  }

  ghost predicate Nowhere(notes: seq<Interval>, lo: int, hi: int, p: nat -> bool) {
    forall x :: lo <= x < hi ==> !p(Active(notes, x))
  }

  lemma {:induction false} TimeIsNone(notes: seq<Interval>, lo: int, hi: int, p: nat -> bool)
    ensures TimeWhere(notes, lo, hi, p) == 0 <==> Nowhere(notes, lo, hi, p)
    decreases hi - lo
  {
    if lo < hi {
      TimeIsNone(notes, lo, hi - 1, p);
      if Nowhere(notes, lo, hi - 1, p) && !p(Active(notes, hi - 1)) {
        forall x | lo <= x < hi ensures !p(Active(notes, x)) {
          assert x == hi - 1 || x < hi - 1;
        }
      }
    }
  }

  /** The span goes from the first start to the last end. */
  lemma {:induction false} SpanIsTight(notes: seq<Interval>)
    requires Proper(notes) && notes != []
    ensures forall i :: 0 <= i < |notes| ==> SpanOf(notes).0 <= notes[i].start && notes[i].end <= SpanOf(notes).1
    ensures exists i :: 0 <= i < |notes| && notes[i].start == SpanOf(notes).0
    ensures exists i :: 0 <= i < |notes| && notes[i].end == SpanOf(notes).1
  {
    SpanCovers(notes);
    var s := Sort(Events(notes), ByTime());
    SortMember(Events(notes), ByTime(), s[0]);
    SortMember(Events(notes), ByTime(), s[|s| - 1]);
    var i := EventOf(notes, s[0]);
    var j := EventOf(notes, s[|s| - 1]);
    assert notes[i].start == SpanOf(notes).0 && notes[j].end == SpanOf(notes).1;
  }

  lemma {:induction false} EventOf(notes: seq<Interval>, e: Event) returns (i: nat)
    requires e in Events(notes)
    ensures i < |notes| && (e.t == notes[i].start || e.t == notes[i].end)
  {
    i := 0;
    if e != Event(notes[0].start, 1) && e != Event(notes[0].end, -1) {
      i := EventOf(notes[1..], e);
      i := i + 1;
    }
  }

  /**
   No time with several voices passes if and only if no two notes overlap; the time with one voice is then the sum of
   all durations.
   */
  lemma {:induction false} PolyExactly(notes: seq<Interval>)
    requires Proper(notes)
    ensures var (lo, hi) := SpanOf(notes);
            (TimeWhere(notes, lo, hi, Poly()) == 0 <==> Apart(notes))
            && (Apart(notes) ==> TimeWhere(notes, lo, hi, Mono()) == TotalDuration(notes))
  {
    var (lo, hi) := SpanOf(notes);
    SeveralExactly(notes);
    TimeIsNone(notes, lo, hi, Poly());
    forall x ensures Poly()(Active(notes, x)) <==> Active(notes, x) >= 2 {
    }
    forall x | Active(notes, x) >= 1 ensures lo <= x < hi {
      var i := OneSounds(notes, x);
      SpanCovers(notes);
    }
    if Nowhere(notes, lo, hi, Poly()) {
      forall x ensures Active(notes, x) < 2 {
        assert Poly()(Active(notes, x)) ==> !(lo <= x < hi);
      }
      MonoIsSum(notes, lo, hi);
      if notes != [] {
        SpanCovers(notes);
      }
      SumIsDuration(notes, lo, hi);
    } else {
      var x :| lo <= x < hi && Poly()(Active(notes, x));
      assert Active(notes, x) >= 2;
    }
  }

  lemma {:induction false} MonoIsSum(notes: seq<Interval>, lo: int, hi: int)
    requires forall x :: Active(notes, x) < 2
    ensures TimeWhere(notes, lo, hi, Mono()) == ActiveSum(notes, lo, hi)
    decreases hi - lo
  {
    if lo < hi {
      MonoIsSum(notes, lo, hi - 1);
    }
  }

  method SweepLine(notes: seq<Interval>)
    returns (maxPoly: int, monoTime: int, polyTime: int, silentTime: int, weightedSum: int, currentPoly: int)
    requires Proper(notes)
    ensures IsMaxActive(notes, maxPoly)
    ensures var (lo, hi) := SpanOf(notes);
            && monoTime == TimeWhere(notes, lo, hi, Mono()) && polyTime == TimeWhere(notes, lo, hi, Poly())
            && silentTime == TimeWhere(notes, lo, hi, Silent())
            && silentTime + monoTime + polyTime == hi - lo
    ensures weightedSum == TotalDuration(notes)
    ensures currentPoly == 0
  {
    var events := Sort(Events(notes), ByTime());
    currentPoly, maxPoly, monoTime, polyTime, silentTime, weightedSum := 0, 0, 0, 0, 0, 0;
    var prevT := if events != [] then events[0].t else 0;
    ghost var lo := prevT;
    SpanFacts(notes);
    ghost var peak := lo - 1;
    for i := 0 to |events|
      invariant currentPoly == Balance(events[..i]) <= maxPoly
      invariant prevT == if i == 0 then lo else events[i - 1].t
      invariant lo <= prevT
      invariant Measured(notes, lo, prevT, monoTime, polyTime, silentTime, weightedSum)
      invariant PeakBefore(notes, i, maxPoly, peak)
    {
      var t, delta := events[i].t, events[i].delta;
      TimesAscend(notes, i);
      if t > prevT {
        var dt := t - prevT;
        StretchBefore(notes, i, lo, prevT, currentPoly, monoTime, polyTime, silentTime, weightedSum);
        if currentPoly == 0 {
          silentTime := silentTime + dt;
        } else if currentPoly == 1 {
          monoTime := monoTime + dt;
        } else {
          polyTime := polyTime + dt;
        }
        weightedSum := weightedSum + currentPoly * dt;
      }
      peak := PeakAfter(notes, i, maxPoly, peak);
      currentPoly := currentPoly + delta;
      if currentPoly > maxPoly {
        maxPoly := currentPoly;
      }
      prevT := t;
    }
    assert events[..|events|] == events;
    SweepEnd(notes);
    assert Active(notes, peak) == maxPoly;
  }

  lemma {:induction false} SpanFacts(notes: seq<Interval>)
    requires Proper(notes)
    ensures Balance([]) == 0
    ensures forall x :: (Sort(Events(notes), ByTime()) != [] ==> x < Sort(Events(notes), ByTime())[0].t) ==>
                          Active(notes, x) == 0
  {
    var s := Sort(Events(notes), ByTime());
    forall x | s != [] ==> x < s[0].t ensures Active(notes, x) == 0 {
      CountIsActive(notes, 0, x);
      assert s[..0] == [];
    }
  }

  lemma {:induction false} TimesAscend(notes: seq<Interval>, i: nat)
    requires i < |Sort(Events(notes), ByTime())|
    ensures i > 0 ==> Sort(Events(notes), ByTime())[i - 1].t <= Sort(Events(notes), ByTime())[i].t
  {
    var s := Sort(Events(notes), ByTime());
    SortSorts(Events(notes), ByTime());
    if i > 0 {
      assert Le(ByTime()(s[i - 1]), ByTime()(s[i]));
    }
  }

  /** The four measures up to an instant. */
  ghost predicate Measured(notes: seq<Interval>, lo: int, t: int, mono: int, poly: int, silent: int, weighted: int) {
    && mono == TimeWhere(notes, lo, t, Mono()) && poly == TimeWhere(notes, lo, t, Poly())
    && silent == TimeWhere(notes, lo, t, Silent()) && weighted == ActiveSum(notes, lo, t)
  }

  /** Between two events the count is constant, and one of the measures grows. */
  lemma {:induction false} StretchBefore(notes: seq<Interval>, i: nat, lo: int, prevT: int, n: int,
                                         mono: int, poly: int, silent: int, weighted: int)
    requires Proper(notes) && i < |Sort(Events(notes), ByTime())|
    requires i > 0 ==> prevT == Sort(Events(notes), ByTime())[i - 1].t
    requires i == 0 ==> prevT == Sort(Events(notes), ByTime())[i].t
    requires lo <= prevT < Sort(Events(notes), ByTime())[i].t
    requires n == Balance(Sort(Events(notes), ByTime())[..i])
    requires Measured(notes, lo, prevT, mono, poly, silent, weighted)
    ensures n >= 0
    ensures var t := Sort(Events(notes), ByTime())[i].t;
            var dt := t - prevT;
            Measured(notes, lo, t, mono + (if n == 1 then dt else 0), poly + (if n >= 2 then dt else 0),
                        silent + (if n == 0 then dt else 0), weighted + n * dt)
  {
    var s := Sort(Events(notes), ByTime());
    forall x | prevT <= x < s[i].t ensures Active(notes, x) == n {
      CountIsActive(notes, i, x);
    }
    assert n == Active(notes, prevT);
    ConstantStretch(notes, lo, prevT, s[i].t, n, Silent());
    ConstantStretch(notes, lo, prevT, s[i].t, n, Mono());
    ConstantStretch(notes, lo, prevT, s[i].t, n, Poly());
  }

  /** No more than `m` notes sound before event `i`, and as many do at `peak`. */
  ghost predicate PeakBefore(notes: seq<Interval>, i: nat, m: int, peak: int) {
    && m <= Active(notes, peak)
    && forall x :: (i < |Sort(Events(notes), ByTime())| ==> x < Sort(Events(notes), ByTime())[i].t) ==>
                     Active(notes, x) <= m
  }

  /** One event adds to the count, and the running maximum follows. */
  lemma {:induction false} PeakAfter(notes: seq<Interval>, i: nat, m: int, peak: int) returns (newPeak: int)
    requires Proper(notes) && i < |Sort(Events(notes), ByTime())| && PeakBefore(notes, i, m, peak)
    requires Balance(Sort(Events(notes), ByTime())[..i]) <= m
    ensures var s := Sort(Events(notes), ByTime()); var count := Balance(s[..i]) + s[i].delta;
            Balance(s[..i + 1]) == count && PeakBefore(notes, i + 1, if count > m then count else m, newPeak)
  {
    var s := Sort(Events(notes), ByTime());
    BalanceSnoc(s, i);
    newPeak := peak;
    if Balance(s[..i + 1]) > m {
      CountAfterStart(notes, i);
      newPeak := s[i].t;
    }
    AfterEvent(notes, i, if Balance(s[..i + 1]) > m then Balance(s[..i + 1]) else m);
  }

  lemma {:induction false} AfterEvent(notes: seq<Interval>, i: nat, m: int)
    requires Proper(notes) && i < |Sort(Events(notes), ByTime())|
    requires Balance(Sort(Events(notes), ByTime())[..i + 1]) <= m
    requires forall x :: x < Sort(Events(notes), ByTime())[i].t ==> Active(notes, x) <= m
    ensures var s := Sort(Events(notes), ByTime());
            forall x :: (i + 1 < |s| ==> x < s[i + 1].t) ==> Active(notes, x) <= m
  {
    var s := Sort(Events(notes), ByTime());
    forall x | i + 1 < |s| ==> x < s[i + 1].t ensures Active(notes, x) <= m {
      if x >= s[i].t {
        CountIsActive(notes, i + 1, x);
      }
    }
  }

  lemma {:induction false} SweepEnd(notes: seq<Interval>)
    requires Proper(notes)
    ensures Balance(Sort(Events(notes), ByTime())) == 0
    ensures var (lo, hi) := SpanOf(notes); lo <= hi && ActiveSum(notes, lo, hi) == TotalDuration(notes)
    ensures var (lo, hi) := SpanOf(notes);
            TimeWhere(notes, lo, hi, Silent()) + TimeWhere(notes, lo, hi, Mono()) + TimeWhere(notes, lo, hi, Poly())
            == hi - lo
  {
    var s := Sort(Events(notes), ByTime());
    var (lo, hi) := SpanOf(notes);
    if notes != [] {
      SpanCovers(notes);
      SilentOutside(notes, hi);
      CountIsActive(notes, |s|, hi);
      assert s[..|s|] == s;
      SpanForward(notes);
    }
    SumIsDuration(notes, lo, hi);
    SpanIsDivided(notes, lo, hi);
  }

  lemma {:induction false} SpanForward(notes: seq<Interval>)
    requires Proper(notes) && notes != []
    ensures SpanOf(notes).0 <= SpanOf(notes).1
  {
    SpanCovers(notes);
    assert SpanOf(notes).0 <= notes[0].start <= notes[0].end <= SpanOf(notes).1;
  }
}
