/**
 The sentinel matcher on notes of one channel and pitch that may overlap: exactly when it gives every note its
 own end.

 All note-offs of one tick are the same message, so they may be told apart in any order. In `Schedule` the
 latest note is closed first, which is also what the matcher does. Its state is then right after every message
 up to the first note that does not `Fit`, and never again after that.
 */
module Overlap {
  import opened Sequences
  import opened Smf
  import opened Sorting
  import opened Tokens
  import opened Compile
  import opened Matchers

  function BeatDur(e: Event, beat: Clock): int { beat(e.tick + e.dur) - beat(e.tick) }

  /** The note a parser should report for a decoded one. */
  function Reported(e: Event, beat: Clock): Note { Note(e.note, beat(e.tick), BeatDur(e, beat), e.vel) }

  function AllReported(events: seq<Event>, beat: Clock): seq<Note> {
    seq(|events|, i requires 0 <= i < |events| => Reported(events[i], beat))
  }

  ghost predicate Ascending(beat: Clock) {
    forall a: nat, b: nat :: a < b ==> beat(a) < beat(b)
  }

  /** At the given tick the note still sounds, or its finished duration is that of an open note. */
  predicate LooksOpen(e: Event, tick: nat, open: int, beat: Clock) {
    e.tick + e.dur > tick || BeatDur(e, beat) == open
  }

  /**
   No note that began after `a` and before its end looks open at its end, or closing the wrong one does no
   harm: both began together and `a` has the duration of an open note anyway.
   */
  predicate Fits(a: Event, b: Event, open: int, beat: Clock) {
    b.tick < a.tick + a.dur && LooksOpen(b, a.tick + a.dur, open, beat) ==>
      b.tick == a.tick && BeatDur(a, beat) == open
  }

  /** The notes of one channel and pitch, in time order. */
  predicate OneKey(es: seq<Event>, ch: int, pitch: int) {
    && (forall i :: 0 <= i < |es| ==> ValidEvent(es[i]) && es[i].ch == ch && es[i].note == pitch)
    && (forall i, j :: 0 <= i < j < |es| ==> es[i].tick <= es[j].tick)
  }

  // ---- Starts and ends by note ----

  datatype Mark = Opens(k: nat) | Closes(k: nat)

  /** By tick, ends first; of the ends at one tick that of the latest note first. */
  function RankOf(es: seq<Event>, m: Mark): Rank {
    if m.k >= |es| then Rank(0, 0)
    else match m
      case Opens(k) => Rank(es[k].tick, k)
      case Closes(k) => Rank(es[k].tick + es[k].dur, -1 - k)
  }

  function ByRank(es: seq<Event>): Mark -> Rank { (m: Mark) => RankOf(es, m) }

  function Marks(n: nat): seq<Mark> {
    seq(2 * n, i requires 0 <= i < 2 * n => if i % 2 == 0 then Opens(i / 2) else Closes(i / 2))
  }

  function Schedule(es: seq<Event>): seq<Mark> { Sort(Marks(|es|), ByRank(es)) }

  predicate Marked(es: seq<Event>, ms: seq<Mark>) {
    forall i :: 0 <= i < |ms| ==> ms[i].k < |es|
  }

  function MsgOf(es: seq<Event>, m: Mark): Timed
    requires m.k < |es|
  {
    if m.Opens? then On(es[m.k]) else Off(es[m.k])
  }

  function Msgs(es: seq<Event>, ms: seq<Mark>): seq<Timed>
    requires Marked(es, ms)
  {
    seq(|ms|, i requires 0 <= i < |ms| => MsgOf(es, ms[i]))
  }

  lemma {:induction false} MarksDistinct(n: nat)
    ensures Distinct(Marks(n))
    ensures forall m: Mark :: m in Marks(n) <==> m.k < n
  {
    forall m: Mark | m.k < n ensures m in Marks(n) {
      var i := if m.Opens? then 2 * m.k else 2 * m.k + 1;
      assert Marks(n)[i] == m;
    }
  }

  lemma {:induction false} ScheduleMarks(es: seq<Event>)
    ensures Distinct(Schedule(es)) && Marked(es, Schedule(es)) && |Schedule(es)| == 2 * |es|
    ensures forall m: Mark :: m in Schedule(es) <==> m.k < |es|
  {
    MarksDistinct(|es|);
    SortDistinct(Marks(|es|), ByRank(es));
    SortPermutes(Marks(|es|), ByRank(es));
    forall m: Mark ensures m in Schedule(es) <==> m.k < |es| {
      SortMember(Marks(|es|), ByRank(es), m);
    }
    assert forall i :: 0 <= i < |Schedule(es)| ==> Schedule(es)[i] in Schedule(es);
  }

  predicate Lt(a: Rank, b: Rank) { Le(a, b) && a != b }

  /** What has been done before a position is what ranks below it. */
  lemma {:induction false} DoneBefore(es: seq<Event>, p: nat, m: Mark)
    requires p < |Schedule(es)| && m.k < |es|
    ensures Schedule(es)[p].k < |es|
    ensures m in Schedule(es)[..p] <==> Lt(RankOf(es, m), RankOf(es, Schedule(es)[p]))
  {
    var s := Schedule(es);
    ScheduleMarks(es);
    SortSorts(Marks(|es|), ByRank(es));
    assert m in s;
    var q: nat :| q < |s| && s[q] == m;
    if q < p {
      assert s[..p][q] == m;
      assert Le(ByRank(es)(s[q]), ByRank(es)(s[p]));
      assert s[q] != s[p];
    } else if q > p {
      assert Le(ByRank(es)(s[p]), ByRank(es)(s[q]));
      assert m !in s[..p];
      assert s[q] != s[p];
    } else {
      assert m !in s[..p];
    }
  }

  // ---- The sorted stream is the schedule ----

  /** Ends before starts at one tick. */
  function ClassOf(x: Timed): Rank { Rank(x.tick, if x.msg.NoteOn? then 1 else 0) }

  function EndsFirst(): Timed -> Rank { (x: Timed) => ClassOf(x) }

  lemma {:induction false} FilterMsgs(es: seq<Event>, ms: seq<Mark>, p: Timed -> bool, q: Mark -> bool)
    requires Marked(es, ms) && forall m: Mark :: m.k < |es| ==> q(m) == p(MsgOf(es, m))
    ensures Marked(es, Filter(ms, q)) && Msgs(es, Filter(ms, q)) == Filter(Msgs(es, ms), p)
  {
    if ms != [] {
      FilterMsgs(es, ms[1..], p, q);
      assert Msgs(es, ms) == [MsgOf(es, ms[0])] + Msgs(es, ms[1..]);
      FilterCons(MsgOf(es, ms[0]), Msgs(es, ms[1..]), p);
      MsgsCons(es, ms[0], Filter(ms[1..], q));
    }
  }

  lemma FilterCons<T>(x: T, s: seq<T>, p: T -> bool)
    ensures Filter([x] + s, p) == (if p(x) then [x] else []) + Filter(s, p)
  {
    assert ([x] + s)[1..] == s;
  }

  lemma MsgsCons(es: seq<Event>, m: Mark, f: seq<Mark>)
    requires m.k < |es| && Marked(es, f)
    ensures Msgs(es, [m] + f) == [MsgOf(es, m)] + Msgs(es, f)
    ensures [] + f == f
  {
  }

  lemma {:induction false} MarksMsgs(es: seq<Event>)
    ensures Marked(es, Marks(|es|)) && Msgs(es, Marks(|es|)) == NoteMsgs(es)
  {
    NoteMsgsLength(es);
    forall i | 0 <= i < 2 * |es| ensures NoteMsgs(es)[i] == Msgs(es, Marks(|es|))[i] {
      NoteMsgsAt(es, i / 2);
    }
  }

  /** No end after a start. */
  predicate StartsLast(f: seq<Timed>) {
    forall x, y :: 0 <= x < y < |f| && f[x].msg.NoteOn? ==> f[y].msg.NoteOn?
  }

  /** So it is among the messages of one tick. */
  lemma {:induction false} EndsBeforeStarts(es: seq<Event>, ch: int, pitch: int, tick: nat)
    requires OneKey(es, ch, pitch)
    ensures StartsLast(Filter(NoteMsgs(es), OfRank(ByTick(), Rank(tick, 0))))
  {
    if es != [] {
      var rest, p := es[1..], OfRank(ByTick(), Rank(tick, 0));
      EndsBeforeStarts(rest, ch, pitch, tick);
      FilterPair(On(es[0]), Off(es[0]), NoteMsgs(rest), p);
      assert ValidEvent(es[0]);
      if es[0].tick == tick {
        StartsOnly(rest, tick);
      }
      HeadFirst(es[0], Filter(NoteMsgs(rest), p), tick);
    }
  }

  lemma {:induction false} HeadFirst(e: Event, f: seq<Timed>, tick: nat)
    requires e.dur >= 1 && StartsLast(f)
    requires e.tick == tick ==> forall x :: x in f ==> x.msg.NoteOn?
    ensures StartsLast((if e.tick == tick then [On(e)] else [])
                       + ((if e.tick + e.dur == tick then [Off(e)] else []) + f))
  {
    if e.tick == tick {
      assert [On(e)] + ([] + f) == [On(e)] + f;
    } else if e.tick + e.dur == tick {
      assert [] + ([Off(e)] + f) == [Off(e)] + f;
    } else {
      assert [] + ([] + f) == f;
    }
  }

  /** Notes that begin at a tick or later all end after it. */
  lemma {:induction false} StartsOnly(es: seq<Event>, tick: nat)
    requires forall i :: 0 <= i < |es| ==> ValidEvent(es[i]) && es[i].tick >= tick
    ensures forall x :: x in Filter(NoteMsgs(es), OfRank(ByTick(), Rank(tick, 0))) ==> x.msg.NoteOn?
  {
    if es != [] {
      StartsOnly(es[1..], tick);
      FilterPair(On(es[0]), Off(es[0]), NoteMsgs(es[1..]), OfRank(ByTick(), Rank(tick, 0)));
      assert ValidEvent(es[0]);
    }
  }

  lemma FilterPair<T>(a: T, b: T, rest: seq<T>, p: T -> bool)
    ensures Filter([a, b] + rest, p) == (if p(a) then [a] else []) + ((if p(b) then [b] else []) + Filter(rest, p))
  {
    assert ([a, b] + rest)[1..] == [b] + rest && ([b] + rest)[1..] == rest;
  }

  lemma {:induction false} StreamEndsFirst(es: seq<Event>, ch: int, pitch: int)
    requires OneKey(es, ch, pitch)
    ensures Sorted(Sort(NoteMsgs(es), ByTick()), EndsFirst())
  {
    var a := Sort(NoteMsgs(es), ByTick());
    SortSorts(NoteMsgs(es), ByTick());
    forall i, j | 0 <= i < j < |a| ensures Le(EndsFirst()(a[i]), EndsFirst()(a[j])) {
      assert Le(ByTick()(a[i]), ByTick()(a[j]));
      if a[i].tick == a[j].tick {
        var r := Rank(a[i].tick, 0);
        var x, y := FilterOrder(a, OfRank(ByTick(), r), i, j);
        SortIsStable(NoteMsgs(es), ByTick(), r);
        EndsBeforeStarts(es, ch, pitch, a[i].tick);
        assert a[i].msg.NoteOn? ==> a[j].msg.NoteOn?;
      }
    }
  }

  lemma {:induction false} ScheduleEndsFirst(es: seq<Event>)
    requires Marked(es, Schedule(es))
    ensures Sorted(Msgs(es, Schedule(es)), EndsFirst())
  {
    var s := Schedule(es);
    SortSorts(Marks(|es|), ByRank(es));
    forall i, j | 0 <= i < j < |s| ensures Le(EndsFirst()(MsgOf(es, s[i])), EndsFirst()(MsgOf(es, s[j]))) {
      assert Le(ByRank(es)(s[i]), ByRank(es)(s[j]));
    }
  }

  predicate InClass(es: seq<Event>, m: Mark, r: Rank) { m.k < |es| && ClassOf(MsgOf(es, m)) == r }

  function ClassMark(es: seq<Event>, r: Rank): Mark -> bool { (m: Mark) => InClass(es, m, r) }

  /** Sorting the messages of one class, all of one tick, changes nothing. */
  lemma {:induction false} ClassOfStream(es: seq<Event>, r: Rank)
    ensures Filter(Sort(NoteMsgs(es), ByTick()), OfRank(EndsFirst(), r)) == Filter(NoteMsgs(es), OfRank(EndsFirst(), r))
  {
    var p := OfRank(EndsFirst(), r);
    FilterSort(NoteMsgs(es), ByTick(), p);
    var f := Filter(NoteMsgs(es), p);
    forall i | 0 <= i < |f| ensures f[i].tick == r.major {
      FilterMember(NoteMsgs(es), p, f[i]);
    }
    SortFixesSorted(f, ByTick());
  }

  lemma {:induction false} ClassOfSchedule(es: seq<Event>, ch: int, pitch: int, r: Rank)
    requires OneKey(es, ch, pitch) && Marked(es, Schedule(es))
    ensures Filter(Msgs(es, Schedule(es)), OfRank(EndsFirst(), r)) == Filter(NoteMsgs(es), OfRank(EndsFirst(), r))
  {
    var p, q, marks := OfRank(EndsFirst(), r), ClassMark(es, r), Marks(|es|);
    MarksMsgs(es);
    FilterMsgs(es, Schedule(es), p, q);
    FilterMsgs(es, marks, p, q);
    FilterSort(marks, ByRank(es), q);
    if r.minor == 1 {
      StartsAscend(es, r);
      SortFixesSorted(Filter(marks, q), ByRank(es));
    } else {
      SortPermutes(Filter(marks, q), ByRank(es));
      var a, b := Filter(Msgs(es, Schedule(es)), p), Filter(NoteMsgs(es), p);
      assert |a| == |b|;
      forall i | 0 <= i < |a| ensures a[i] == b[i] {
        FilterMember(Msgs(es, Schedule(es)), p, a[i]);
        FilterMember(NoteMsgs(es), p, b[i]);
        EndsAlike(es, ch, pitch, Schedule(es), a[i], r);
        EndsAlike(es, ch, pitch, marks, b[i], r);
      }
    }
  }

  /** All note-offs of one tick are the same message. */
  lemma {:induction false} EndsAlike(es: seq<Event>, ch: int, pitch: int, ms: seq<Mark>, x: Timed, r: Rank)
    requires OneKey(es, ch, pitch) && Marked(es, ms) && x in Msgs(es, ms) && ClassOf(x) == r && r.minor != 1
    ensures x.tick == r.major && x.msg == NoteOff(ch, pitch, 0)
  {
    var i: nat :| i < |ms| && Msgs(es, ms)[i] == x;
    assert ValidEvent(es[ms[i].k]);
  }

  lemma {:induction false} StartsAscend(es: seq<Event>, r: Rank)
    requires r.minor == 1
    ensures Sorted(Filter(Marks(|es|), ClassMark(es, r)), ByRank(es))
  {
    FilterAscends(es, Marks(|es|), r);
  }

  lemma {:induction false} FilterAscends(es: seq<Event>, ms: seq<Mark>, r: Rank)
    requires r.minor == 1 && Marked(es, ms) && forall i, j :: 0 <= i < j < |ms| ==> ms[i].k <= ms[j].k
    ensures Sorted(Filter(ms, ClassMark(es, r)), ByRank(es))
  {
    if ms != [] {
      var q, rest := ClassMark(es, r), ms[1..];
      FilterAscends(es, rest, r);
      var f := Filter(rest, q);
      if q(ms[0]) {
        forall j | 0 <= j < |f| ensures Le(ByRank(es)(ms[0]), ByRank(es)(f[j])) {
          FilterMember(rest, q, f[j]);
          var i: nat :| i < |rest| && rest[i] == f[j];
          assert ms[i + 1] == f[j] && InClass(es, ms[0], r) && InClass(es, f[j], r);
        }
      }
    }
  }

  lemma {:induction false} StreamIsSchedule(es: seq<Event>, ch: int, pitch: int)
    requires OneKey(es, ch, pitch)
    ensures Marked(es, Schedule(es)) && Sort(NoteMsgs(es), ByTick()) == Msgs(es, Schedule(es))
  {
    ScheduleMarks(es);
    StreamEndsFirst(es, ch, pitch);
    ScheduleEndsFirst(es);
    var a, b := Sort(NoteMsgs(es), ByTick()), Msgs(es, Schedule(es));
    forall r ensures Filter(a, OfRank(EndsFirst(), r)) == Filter(b, OfRank(EndsFirst(), r)) {
      ClassOfStream(es, r);
      ClassOfSchedule(es, ch, pitch, r);
    }
    SameClassesSameList(a, b, EndsFirst());
  }

  lemma {:induction false} NoteMsgsAt(events: seq<Event>, k: nat)
    requires k < |events|
    ensures |NoteMsgs(events)| == 2 * |events|
    ensures NoteMsgs(events)[2 * k] == On(events[k]) && NoteMsgs(events)[2 * k + 1] == Off(events[k])
  {
    NoteMsgsLength(events);
    if k > 0 {
      NoteMsgsAt(events[1..], k - 1);
      assert NoteMsgs(events)[2 * k] == NoteMsgs(events[1..])[2 * (k - 1)];
      assert NoteMsgs(events)[2 * k + 1] == NoteMsgs(events[1..])[2 * (k - 1) + 1];
    }
  }

  lemma {:induction false} NoteMsgsLength(events: seq<Event>)
    ensures |NoteMsgs(events)| == 2 * |events|
  {
    if events != [] {
      NoteMsgsLength(events[1..]);
    }
  }

  // ---- The matcher's state while all is well ----

  function NoteNow(es: seq<Event>, done: seq<Mark>, k: nat, open: int, beat: Clock): Note
    requires k < |es|
  {
    Reported(es[k], beat).(dur := if Closes(k) in done then BeatDur(es[k], beat) else open)
  }

  /** The first `n` notes: finished ones with their duration, the others open. */
  function Now(es: seq<Event>, done: seq<Mark>, n: nat, open: int, beat: Clock): seq<Note>
    requires n <= |es|
  {
    seq(n, k requires 0 <= k < n => NoteNow(es, done, k, open, beat))
  }

  ghost predicate Begun(done: seq<Mark>, n: nat) {
    forall k: nat :: Opens(k) in done <==> k < n
  }

  lemma {:induction false} StartStep(es: seq<Event>, ch: int, pitch: int, open: int, beat: Clock, p: nat, n: nat)
    requires OneKey(es, ch, pitch) && p < |Schedule(es)| && Schedule(es)[p].Opens?
    requires n <= |es| && Begun(Schedule(es)[..p], n)
    ensures Schedule(es)[p] == Opens(n) && n < |es| && Begun(Schedule(es)[..p + 1], n + 1)
    ensures Now(es, Schedule(es)[..p + 1], n + 1, open, beat)
         == Now(es, Schedule(es)[..p], n, open, beat) + [Opened(On(es[n]), open, beat)]
  {
    var s := Schedule(es);
    var m := s[p].k;
    ScheduleMarks(es);
    assert Opens(n) !in s[..p];
    if n < |es| {
      DoneBefore(es, p, Opens(n));
    }
    DoneBefore(es, p, s[p]);
    assert ValidEvent(es[m]);
    assert Opens(m) !in s[..p];
    assert m == n;
    forall k: nat | k < |es| ensures Opens(k) in s[..p] <==> k < n {
      DoneBefore(es, p, Opens(k));
    }
    DoneBefore(es, p, Closes(n));
    assert s[..p + 1] == s[..p] + [Opens(n)];
    StartNow(es, ch, pitch, s[..p], n, open, beat);
  }

  lemma {:induction false} StartNow(es: seq<Event>, ch: int, pitch: int, done: seq<Mark>, n: nat, open: int,
                                    beat: Clock)
    requires OneKey(es, ch, pitch) && n < |es| && Closes(n) !in done
    ensures Now(es, done + [Opens(n)], n + 1, open, beat)
         == Now(es, done, n, open, beat) + [Opened(On(es[n]), open, beat)]
  {
    assert ValidEvent(es[n]);
    forall k: nat ensures Closes(k) in done + [Opens(n)] <==> Closes(k) in done {
    }
  }

  /** Where things stand when note `k` ends. */
  lemma {:induction false} EndPlace(es: seq<Event>, ch: int, pitch: int, p: nat, n: nat, k: nat, j: nat)
    requires OneKey(es, ch, pitch) && p < |Schedule(es)| && Schedule(es)[p] == Closes(k) && j < |es|
    requires n <= |es| && Begun(Schedule(es)[..p], n)
    ensures k < |es| && (j < n <==> es[j].tick < es[k].tick + es[k].dur)
    ensures Closes(j) in Schedule(es)[..p] <==>
            es[j].tick + es[j].dur < es[k].tick + es[k].dur
            || (es[j].tick + es[j].dur == es[k].tick + es[k].dur && j > k)
  {
    ScheduleMarks(es);
    DoneBefore(es, p, Opens(j));
    DoneBefore(es, p, Closes(j));
  }

  lemma {:induction false} CloseAt(ns: seq<Note>, pitch: int, now: int, open: int, m: nat)
    requires m < |ns| && ns[m].dur == open && forall j :: 0 <= j < |ns| ==> ns[j].pitch == pitch
    requires forall j :: m < j < |ns| ==> ns[j].dur != open
    ensures CloseLatest(ns, pitch, now, open) == ns[m := ns[m].(dur := now - ns[m].start)]
  {
    if m < |ns| - 1 {
      CloseAt(ns[..|ns| - 1], pitch, now, open, m);
    }
  }

  /** A later note is open in the list exactly if it looks open. */
  lemma {:induction false} OpenNow(es: seq<Event>, ch: int, pitch: int, open: int, beat: Clock, p: nat, n: nat,
                                   k: nat, j: nat)
    requires OneKey(es, ch, pitch) && p < |Schedule(es)| && Schedule(es)[p] == Closes(k)
    requires n <= |es| && Begun(Schedule(es)[..p], n) && k <= j < n
    ensures k < |es|
    ensures Now(es, Schedule(es)[..p], n, open, beat)[j].dur == open
            <==> j == k || LooksOpen(es[j], es[k].tick + es[k].dur, open, beat)
  {
    EndPlace(es, ch, pitch, p, n, k, j);
    assert Now(es, Schedule(es)[..p], n, open, beat)[j] == NoteNow(es, Schedule(es)[..p], j, open, beat);
  }

  /** The latest note that looks open when note `k` ends. */
  lemma {:induction false} LatestNow(es: seq<Event>, ch: int, pitch: int, open: int, beat: Clock, p: nat, n: nat, k: nat)
    returns (m: nat)
    requires OneKey(es, ch, pitch) && p < |Schedule(es)| && Schedule(es)[p] == Closes(k)
    requires n <= |es| && Begun(Schedule(es)[..p], n)
    ensures k <= m < n && (m > k ==> LooksOpen(es[m], es[k].tick + es[k].dur, open, beat))
    ensures forall j :: m < j < n ==> !LooksOpen(es[j], es[k].tick + es[k].dur, open, beat)
    ensures var ns := Now(es, Schedule(es)[..p], n, open, beat);
            && ns[m].dur == open && ns[k].dur == open
            && (forall j :: m < j < n ==> ns[j].dur != open)
            && (forall j :: 0 <= j < n ==> ns[j].pitch == pitch)
  {
    ScheduleMarks(es);
    assert ValidEvent(es[k]);
    EndPlace(es, ch, pitch, p, n, k, k);
    m := n - 1;
    while m > k && !LooksOpen(es[m], es[k].tick + es[k].dur, open, beat)
      invariant k <= m < n
      invariant forall j :: m < j < n ==> !LooksOpen(es[j], es[k].tick + es[k].dur, open, beat)
      decreases m
    {
      m := m - 1;
    }
    forall j: nat | k <= j < n
      ensures Now(es, Schedule(es)[..p], n, open, beat)[j].dur == open
              <==> j == k || LooksOpen(es[j], es[k].tick + es[k].dur, open, beat)
    {
      OpenNow(es, ch, pitch, open, beat, p, n, k, j);
    }
  }

  /** Which note the end of note `k` goes to, the latest that looks open, and the duration it gets. */
  lemma {:induction false} EndGoesTo(es: seq<Event>, ch: int, pitch: int, open: int, beat: Clock, p: nat, n: nat,
                                     k: nat)
    returns (ns: seq<Note>, m: nat, dur: int)
    requires OneKey(es, ch, pitch) && p < |Schedule(es)| && Schedule(es)[p] == Closes(k)
    requires n <= |es| && Begun(Schedule(es)[..p], n)
    ensures ns == Now(es, Schedule(es)[..p], n, open, beat) && k <= m < n == |ns|
    ensures dur == beat(es[k].tick + es[k].dur) - beat(es[m].tick)
    ensures m > k ==> LooksOpen(es[m], es[k].tick + es[k].dur, open, beat)
    ensures forall j :: m < j < n ==> !LooksOpen(es[j], es[k].tick + es[k].dur, open, beat)
    ensures ns[m].dur == open && ns[k].dur == open
    ensures CloseLatest(ns, pitch, beat(es[k].tick + es[k].dur), open) == ns[m := ns[m].(dur := dur)]
  {
    ns := Now(es, Schedule(es)[..p], n, open, beat);
    m := LatestNow(es, ch, pitch, open, beat, p, n, k);
    dur := beat(es[k].tick + es[k].dur) - beat(es[m].tick);
    CloseAt(ns, pitch, beat(es[k].tick + es[k].dur), open, m);
  }

  /** An end that fits finishes its own note. */
  lemma {:induction false} GoodEnd(es: seq<Event>, ch: int, pitch: int, open: int, beat: Clock, p: nat, n: nat, k: nat)
    requires OneKey(es, ch, pitch) && p < |Schedule(es)| && Schedule(es)[p] == Closes(k)
    requires n <= |es| && Begun(Schedule(es)[..p], n)
    requires forall j :: k < j < |es| ==> Fits(es[k], es[j], open, beat)
    ensures k < |es| && Begun(Schedule(es)[..p + 1], n)
    ensures CloseLatest(Now(es, Schedule(es)[..p], n, open, beat), pitch, beat(es[k].tick + es[k].dur), open)
         == Now(es, Schedule(es)[..p + 1], n, open, beat)
  {
    var s := Schedule(es);
    assert s[..p + 1] == s[..p] + [Closes(k)];
    var ns, m, dur := EndGoesTo(es, ch, pitch, open, beat, p, n, k);
    if m > k {
      EndPlace(es, ch, pitch, p, n, k, m);
      assert Fits(es[k], es[m], open, beat);
    }
  }

  /** One that does not fit goes to another note: a wrong duration for that one, or no change at all. */
  lemma {:induction false} BadEnd(es: seq<Event>, ch: int, pitch: int, open: int, beat: Clock, p: nat, n: nat, k: nat,
                                  j: nat)
    returns (ns: seq<Note>, w: nat, dur: int)
    requires OneKey(es, ch, pitch) && Ascending(beat) && p < |Schedule(es)| && Schedule(es)[p] == Closes(k)
    requires n <= |es| && Begun(Schedule(es)[..p], n)
    requires k < j < |es| && !Fits(es[k], es[j], open, beat)
    ensures ns == Now(es, Schedule(es)[..p], n, open, beat) && k <= w < n == |ns|
    ensures ns[w].dur == open && ns[k].dur == open
    ensures CloseLatest(ns, pitch, beat(es[k].tick + es[k].dur), open) == ns[w := ns[w].(dur := dur)]
    ensures if dur == open then BeatDur(es[k], beat) != open else BeatDur(es[w], beat) != dur
  {
    ns, w, dur := EndGoesTo(es, ch, pitch, open, beat, p, n, k);
    EndPlace(es, ch, pitch, p, n, k, j);
    assert w >= j;
    WrongNote(es[k], es[j], es[w], open, beat);
  }

  /** The end of `a` given to `c` is a wrong end for `c`, or it makes no difference and `a` misses its own. */
  lemma {:induction false} WrongNote(a: Event, b: Event, c: Event, open: int, beat: Clock)
    requires Ascending(beat) && a.tick <= b.tick <= c.tick
    requires !Fits(a, b, open, beat) && LooksOpen(c, a.tick + a.dur, open, beat)
    ensures var given := beat(a.tick + a.dur) - beat(c.tick);
            if given == open then BeatDur(a, beat) != open else BeatDur(c, beat) != given
  {
    var end := a.tick + a.dur;
    assert c.tick > a.tick ==> beat(c.tick) > beat(a.tick);
    assert c.tick + c.dur > end ==> beat(c.tick + c.dur) > beat(end);
  }

  // ---- Once wrong, always wrong ----

  lemma {:induction false} CloseShape(ns: seq<Note>, pitch: int, now: int, open: int)
    ensures |CloseLatest(ns, pitch, now, open)| == |ns|
    ensures forall i :: 0 <= i < |ns| ==>
              var after := CloseLatest(ns, pitch, now, open)[i];
              after == ns[i] || (ns[i].dur == open && after == ns[i].(dur := now - ns[i].start))
  {
    if ns != [] {
      CloseShape(ns[..|ns| - 1], pitch, now, open);
    }
  }

  lemma ScanNext(s: seq<Timed>, p: nat, ch: int, open: int, beat: Clock)
    requires p < |s|
    ensures ScanNotes(s[..p + 1], ch, open, beat) == ScanStep(ScanNotes(s[..p], ch, open, beat), s[p], ch, open, beat)
  {
    assert s[..p + 1] == s[..p] + [s[p]];
    ScanSnoc(s[..p], s[p], ch, open, beat);
  }

  /** The scan continued from position `p`. */
  function ScanOn(ns: seq<Note>, s: seq<Timed>, p: nat, ch: int, open: int, beat: Clock): seq<Note>
    decreases |s| - p
  {
    if p >= |s| then ns else ScanOn(ScanStep(ns, s[p], ch, open, beat), s, p + 1, ch, open, beat)
  }

  lemma {:induction false} ScanOnIs(s: seq<Timed>, p: nat, ch: int, open: int, beat: Clock)
    requires p <= |s|
    ensures ScanOn(ScanNotes(s[..p], ch, open, beat), s, p, ch, open, beat) == ScanNotes(s, ch, open, beat)
    decreases |s| - p
  {
    if p == |s| {
      assert s[..p] == s;
    } else {
      ScanNext(s, p, ch, open, beat);
      ScanOnIs(s, p + 1, ch, open, beat);
    }
  }

  lemma {:induction false} ClosedStays(ns: seq<Note>, s: seq<Timed>, p: nat, ch: int, open: int, beat: Clock, w: nat)
    requires w < |ns| && ns[w].dur != open
    ensures w < |ScanOn(ns, s, p, ch, open, beat)| && ScanOn(ns, s, p, ch, open, beat)[w] == ns[w]
    decreases |s| - p
  {
    if p < |s| {
      if !s[p].msg.Program? {
        CloseShape(ns, s[p].msg.note, beat(s[p].tick), open);
      }
      ClosedStays(ScanStep(ns, s[p], ch, open, beat), s, p + 1, ch, open, beat, w);
    }
  }

  /** The messages of one key in time order, ends first. */
  ghost predicate KeyStream(s: seq<Timed>, ch: int, pitch: int) {
    && Sorted(s, EndsFirst())
    && forall q :: 0 <= q < |s| ==> IsKey(s[q], ch, pitch) && (s[q].msg.NoteOn? ==> IsOn(s[q].msg))
  }

  /** What remains comes at the tick or later, and at the tick itself no end can change the list. */
  ghost predicate TooLate(s: seq<Timed>, p: nat, ns: seq<Note>, pitch: int, open: int, beat: Clock, end: nat) {
    && (forall q :: p <= q < |s| ==> s[q].tick >= end)
    && (CloseLatest(ns, pitch, beat(end), open) == ns
        || forall q :: p <= q < |s| && s[q].tick == end ==> s[q].msg.NoteOn?)
  }

  /** A close that comes too late gives the note a wrong duration, or leaves it as it is. */
  lemma {:induction false} LateClose(ns: seq<Note>, pitch: int, now: int, open: int, w: nat, due: int)
    requires w < |ns| && ns[w].dur != due - ns[w].start && due < now
    ensures w < |CloseLatest(ns, pitch, now, open)|
    ensures var after := CloseLatest(ns, pitch, now, open)[w];
            after.start == ns[w].start && after.dur != due - after.start
  {
    CloseShape(ns, pitch, now, open);
  }

  lemma {:induction false} LateStep(s: seq<Timed>, p: nat, ch: int, pitch: int, open: int, beat: Clock, w: nat,
                                    end: nat,
                                    ns: seq<Note>)
    requires KeyStream(s, ch, pitch) && Ascending(beat) && p < |s| && TooLate(s, p, ns, pitch, open, beat, end)
    requires w < |ns| && ns[w].dur != beat(end) - ns[w].start
    ensures var after := ScanStep(ns, s[p], ch, open, beat);
            && TooLate(s, p + 1, after, pitch, open, beat, end)
            && w < |after| && after[w].start == ns[w].start && after[w].dur != beat(end) - ns[w].start
  {
    var x := s[p];
    LaterInOrder(s, p);
    if !x.msg.NoteOn? && x.tick != end {
      assert beat(end) < beat(x.tick);
      LateClose(ns, pitch, beat(x.tick), open, w, beat(end));
    }
  }

  /** A note that is open when its end is past can be closed too late, or not at all. */
  lemma {:induction false} NeverRight(ns: seq<Note>, s: seq<Timed>, p: nat, ch: int, pitch: int, open: int, beat: Clock,
                                      w: nat, end: nat)
    requires KeyStream(s, ch, pitch) && Ascending(beat)
    requires w < |ns| && ns[w].dur != beat(end) - ns[w].start && TooLate(s, p, ns, pitch, open, beat, end)
    ensures w < |ScanOn(ns, s, p, ch, open, beat)|
    ensures ScanOn(ns, s, p, ch, open, beat)[w].dur != beat(end) - ns[w].start
    decreases |s| - p
  {
    if p < |s| {
      LateStep(s, p, ch, pitch, open, beat, w, end, ns);
      NeverRight(ScanStep(ns, s[p], ch, open, beat), s, p + 1, ch, pitch, open, beat, w, end);
    }
  }

  lemma {:induction false} LaterInOrder(s: seq<Timed>, p: nat)
    requires Sorted(s, EndsFirst()) && p < |s|
    ensures forall q :: p < q < |s| ==> s[q].tick >= s[p].tick
    ensures forall q :: p < q < |s| && s[q].tick == s[p].tick && s[p].msg.NoteOn? ==> s[q].msg.NoteOn?
  {
    forall q | p < q < |s| ensures Le(ClassOf(s[p]), ClassOf(s[q])) {
      assert Le(EndsFirst()(s[p]), EndsFirst()(s[q]));
    }
  }

  // ---- The whole stream ----

  ghost predicate AllFit(es: seq<Event>, open: int, beat: Clock) {
    forall k, j :: 0 <= k < j < |es| ==> Fits(es[k], es[j], open, beat)
  }

  /** The ends from position `p` on all fit. */
  ghost predicate RestFits(es: seq<Event>, p: nat, open: int, beat: Clock)
    requires p <= |Schedule(es)|
  {
    forall k: nat, j: nat :: Closes(k) in Schedule(es)[p..] && k < j < |es| ==> Fits(es[k], es[j], open, beat)
  }

  lemma {:induction false} ScheduleKeyStream(es: seq<Event>, ch: int, pitch: int)
    requires OneKey(es, ch, pitch)
    ensures Marked(es, Schedule(es)) && KeyStream(Msgs(es, Schedule(es)), ch, pitch)
  {
    ScheduleMarks(es);
    ScheduleEndsFirst(es);
    forall q | 0 <= q < |Schedule(es)| ensures IsKey(Msgs(es, Schedule(es))[q], ch, pitch) {
      assert ValidEvent(es[Schedule(es)[q].k]);
    }
  }

  lemma {:induction false} BadEndRuins(es: seq<Event>, ch: int, pitch: int, open: int, beat: Clock, p: nat, n: nat,
                                       k: nat,
                                       j: nat)
    requires OneKey(es, ch, pitch) && Ascending(beat) && p < |Schedule(es)| && Schedule(es)[p] == Closes(k)
    requires n <= |es| && Begun(Schedule(es)[..p], n) && Marked(es, Schedule(es))
    requires ScanNotes(Msgs(es, Schedule(es))[..p], ch, open, beat) == Now(es, Schedule(es)[..p], n, open, beat)
    requires k < j < |es| && !Fits(es[k], es[j], open, beat)
    ensures ScanNotes(Msgs(es, Schedule(es)), ch, open, beat) != AllReported(es, beat)
  {
    var s := Msgs(es, Schedule(es));
    var ns, w, dur := BadEnd(es, ch, pitch, open, beat, p, n, k, j);
    EndMessage(es, ch, pitch, open, beat, p, k);
    if dur == open {
      assert ns[w := ns[w].(dur := open)] == ns;
      NowStart(es, Schedule(es)[..p], n, open, beat, k);
      MissedInStream(es, ch, pitch, open, beat, p, ns, k);
    } else {
      ScanOnIs(s, p + 1, ch, open, beat);
      ClosedStays(ScanNotes(s[..p + 1], ch, open, beat), s, p + 1, ch, open, beat, w);
      assert AllReported(es, beat)[w].dur == BeatDur(es[w], beat);
    }
  }

  lemma {:induction false} NowStart(es: seq<Event>, done: seq<Mark>, n: nat, open: int, beat: Clock, k: nat)
    requires k < n <= |es|
    ensures AllReported(es, beat)[k].dur == BeatDur(es[k], beat)
    ensures BeatDur(es[k], beat) == beat(es[k].tick + es[k].dur) - Now(es, done, n, open, beat)[k].start
  {
  }

  lemma {:induction false} MissedInStream(es: seq<Event>, ch: int, pitch: int, open: int, beat: Clock, p: nat,
                                          ns: seq<Note>, k: nat)
    requires OneKey(es, ch, pitch) && Ascending(beat) && p < |Schedule(es)| && Marked(es, Schedule(es)) && k < |es|
    requires Schedule(es)[p] == Closes(k) && k < |ns| && ns[k].dur == open
    requires ns == ScanNotes(Msgs(es, Schedule(es))[..p], ch, open, beat)
    requires CloseLatest(ns, pitch, beat(es[k].tick + es[k].dur), open) == ns
    requires beat(es[k].tick + es[k].dur) - ns[k].start == BeatDur(es[k], beat) != open
    ensures k < |ScanNotes(Msgs(es, Schedule(es)), ch, open, beat)|
    ensures ScanNotes(Msgs(es, Schedule(es)), ch, open, beat)[k].dur != BeatDur(es[k], beat)
  {
    ScheduleKeyStream(es, ch, pitch);
    var x := Msgs(es, Schedule(es))[p];
    assert x.tick == es[k].tick + es[k].dur && !x.msg.NoteOn?;
    MissedForGood(Msgs(es, Schedule(es)), p, ch, pitch, open, beat, ns, k);
  }

  /** An end that changed nothing: an open note whose end it was will not get that end. */
  lemma {:induction false} MissedForGood(s: seq<Timed>, p: nat, ch: int, pitch: int, open: int, beat: Clock,
                                         ns: seq<Note>,
                                         w: nat)
    requires KeyStream(s, ch, pitch) && Ascending(beat) && p < |s| && !s[p].msg.NoteOn?
    requires ScanNotes(s[..p], ch, open, beat) == ns && w < |ns|
    requires CloseLatest(ns, pitch, beat(s[p].tick), open) == ns && ns[w].dur == open != beat(s[p].tick) - ns[w].start
    ensures w < |ScanNotes(s, ch, open, beat)|
    ensures ScanNotes(s, ch, open, beat)[w].dur != beat(s[p].tick) - ns[w].start
  {
    ScanNext(s, p, ch, open, beat);
    assert ScanNotes(s[..p + 1], ch, open, beat) == ns by {
      assert IsKey(s[p], ch, pitch);
    }
    LaterInOrder(s, p);
    ScanOnIs(s, p + 1, ch, open, beat);
    NeverRight(ns, s, p + 1, ch, pitch, open, beat, w, s[p].tick);
  }

  lemma {:induction false} EndMessage(es: seq<Event>, ch: int, pitch: int, open: int, beat: Clock, p: nat, k: nat)
    requires OneKey(es, ch, pitch) && p < |Schedule(es)| && Schedule(es)[p] == Closes(k) && Marked(es, Schedule(es))
    ensures var x := Msgs(es, Schedule(es))[p];
            k < |es| && x.tick == es[k].tick + es[k].dur && !x.msg.NoteOn?
    ensures ScanNotes(Msgs(es, Schedule(es))[..p + 1], ch, open, beat)
         == CloseLatest(ScanNotes(Msgs(es, Schedule(es))[..p], ch, open, beat), pitch,
                        beat(es[k].tick + es[k].dur), open)
  {
    ScanNext(Msgs(es, Schedule(es)), p, ch, open, beat);
    assert ValidEvent(es[k]);
  }

  lemma {:induction false} RestStep(es: seq<Event>, p: nat, open: int, beat: Clock)
    requires p < |Schedule(es)|
    ensures RestFits(es, p, open, beat) <==>
            RestFits(es, p + 1, open, beat)
            && (Schedule(es)[p].Closes? ==>
                  forall j: nat :: Schedule(es)[p].k < j < |es| ==> Fits(es[Schedule(es)[p].k], es[j], open, beat))
  {
    var m := Schedule(es);
    assert m[p..] == [m[p]] + m[p + 1..];
    assert m[p] in m[p..] && forall x :: x in m[p..] <==> x == m[p] || x in m[p + 1..];
  }

  /** The next message keeps the state right, unless it is an end that does not fit. */
  lemma {:induction false} RightStep(es: seq<Event>, ch: int, pitch: int, open: int, beat: Clock, p: nat, n: nat)
    returns (next: nat)
    requires OneKey(es, ch, pitch) && p < |Schedule(es)|
    requires n <= |es| && Begun(Schedule(es)[..p], n) && Marked(es, Schedule(es))
    requires ScanNotes(Msgs(es, Schedule(es))[..p], ch, open, beat) == Now(es, Schedule(es)[..p], n, open, beat)
    requires Schedule(es)[p].Closes? ==>
               forall j: nat :: Schedule(es)[p].k < j < |es| ==> Fits(es[Schedule(es)[p].k], es[j], open, beat)
    ensures next <= |es| && Begun(Schedule(es)[..p + 1], next)
    ensures ScanNotes(Msgs(es, Schedule(es))[..p + 1], ch, open, beat) == Now(es, Schedule(es)[..p + 1], next, open, beat)
  {
    var m := Schedule(es)[p];
    ScanNext(Msgs(es, Schedule(es)), p, ch, open, beat);
    assert ValidEvent(es[m.k]);
    if m.Opens? {
      StartStep(es, ch, pitch, open, beat, p, n);
      next := n + 1;
    } else {
      GoodEnd(es, ch, pitch, open, beat, p, n, m.k);
      next := n;
    }
  }

  lemma {:induction false} RunsRight(es: seq<Event>, ch: int, pitch: int, open: int, beat: Clock, p: nat, n: nat)
    requires OneKey(es, ch, pitch) && Ascending(beat) && p <= |Schedule(es)|
    requires n <= |es| && Begun(Schedule(es)[..p], n) && Marked(es, Schedule(es))
    requires ScanNotes(Msgs(es, Schedule(es))[..p], ch, open, beat) == Now(es, Schedule(es)[..p], n, open, beat)
    ensures ScanNotes(Msgs(es, Schedule(es)), ch, open, beat) == AllReported(es, beat) <==> RestFits(es, p, open, beat)
    decreases |Schedule(es)| - p
  {
    var m, s := Schedule(es), Msgs(es, Schedule(es));
    if p == |m| {
      assert s[..p] == s && m[..p] == m;
      AllDone(es, n, open, beat);
    } else {
      RestStep(es, p, open, beat);
      if j: nat :| m[p].Closes? && m[p].k < j < |es| && !Fits(es[m[p].k], es[j], open, beat) {
        BadEndRuins(es, ch, pitch, open, beat, p, n, m[p].k, j);
      } else {
        var next := RightStep(es, ch, pitch, open, beat, p, n);
        RunsRight(es, ch, pitch, open, beat, p + 1, next);
      }
    }
  }

  lemma {:induction false} AllDone(es: seq<Event>, n: nat, open: int, beat: Clock)
    requires n <= |es| && Begun(Schedule(es), n)
    ensures Now(es, Schedule(es), n, open, beat) == AllReported(es, beat)
  {
    ScheduleMarks(es);
    assert n < |es| ==> Opens(n) in Schedule(es);
    forall k | 0 <= k < n ensures NoteNow(es, Schedule(es), k, open, beat) == Reported(es[k], beat) {
      assert Closes(k) in Schedule(es);
    }
  }

  /** On one channel and pitch the matcher gives every note its own end exactly if every two notes fit. */
  lemma {:induction false} KeyExactly(es: seq<Event>, ch: int, pitch: int, open: int, beat: Clock)
    requires OneKey(es, ch, pitch) && Ascending(beat)
    ensures ScanNotes(Sort(NoteMsgs(es), ByTick()), ch, open, beat) == AllReported(es, beat) <==> AllFit(es, open, beat)
  {
    var m := Schedule(es);
    StreamIsSchedule(es, ch, pitch);
    ScheduleMarks(es);
    assert m[..0] == [] && m[0..] == m && Msgs(es, m)[..0] == [];
    RunsRight(es, ch, pitch, open, beat, 0, 0);
    forall k: nat, j: nat | RestFits(es, 0, open, beat) && k < j < |es| ensures Fits(es[k], es[j], open, beat) {
      assert Closes(k) in m[0..];
    }
  }
}
