/**
 Exactly when the two matchers find the same notes in a track that may hold anything: notes that overlap, notes
 that are never closed, and stray note-offs.

 The analyser pairs an on with an off only if the off is the next message of the key. So must the parser, which
 it does for the first off after an on; any further off is stray, and harmless unless a finished note looks
 open to it.
 */
module Agreement {
  import opened Options
  import opened Smf
  import opened Sorting
  import opened Matchers

  // ---- One channel and pitch ----

  /** The last message closes the one before it. */
  predicate EndsPaired(f: seq<Timed>) {
    |f| >= 2 && IsOn(f[|f| - 2].msg) && IsOff(f[|f| - 1].msg)
  }

  predicate EndsOn(f: seq<Timed>) { f != [] && IsOn(f[|f| - 1].msg) }

  function PairNote(on: Timed, off: Timed, beat: Clock): Note
    requires on.msg.NoteOn?
  {
    Opened(on, beat(off.tick) - beat(on.tick), beat)
  }

  /** Each on with the off directly behind it. */
  function Pairs(f: seq<Timed>, beat: Clock): seq<Note> {
    if f == [] then []
    else Pairs(f[..|f| - 1], beat) + if EndsPaired(f) then [PairNote(f[|f| - 2], f[|f| - 1], beat)] else []
  }

  /** Every on is directly followed by an off. */
  predicate Closed(f: seq<Timed>) {
    forall i :: 0 <= i < |f| && IsOn(f[i].msg) ==> i + 1 < |f| && IsOff(f[i + 1].msg)
  }

  /** An off that is not directly preceded by an on. */
  predicate Stray(f: seq<Timed>, q: nat)
    requires q < |f|
  {
    IsOff(f[q].msg) && (q == 0 || !IsOn(f[q - 1].msg))
  }

  /** Where the latest pair that has the duration of an open note ended. */
  function LastOpenEnd(f: seq<Timed>, open: int, beat: Clock): Option<int> {
    if f == [] then None
    else if EndsPaired(f) && PairNote(f[|f| - 2], f[|f| - 1], beat).dur == open then Some(beat(f[|f| - 1].tick))
    else LastOpenEnd(f[..|f| - 1], open, beat)
  }

  /** A stray off finds no finished note that looks open, or one that has just ended. */
  predicate StraysHarmless(f: seq<Timed>, open: int, beat: Clock) {
    forall q: nat :: q < |f| && Stray(f, q) ==>
      LastOpenEnd(f[..q], open, beat).None? || LastOpenEnd(f[..q], open, beat) == Some(beat(f[q].tick))
  }

  predicate KeyAgrees(f: seq<Timed>, open: int, beat: Clock) { Closed(f) && StraysHarmless(f, open, beat) }

  ghost predicate KeyOnly(f: seq<Timed>, ch: int, pitch: int) { forall x :: x in f ==> IsKey(x, ch, pitch) }

  /** The clock never goes back along the list. */
  predicate Ordered(f: seq<Timed>, beat: Clock) {
    forall i, j :: 0 <= i < j < |f| ==> beat(f[i].tick) <= beat(f[j].tick)
  }

  lemma PairsSnoc(g: seq<Timed>, x: Timed, beat: Clock)
    ensures Pairs(g + [x], beat)
         == Pairs(g, beat) + if EndsOn(g) && IsOff(x.msg) then [PairNote(g[|g| - 1], x, beat)] else []
  {
    assert (g + [x])[..|g + [x]| - 1] == g;
  }

  // ---- How many ----

  /** Every on but a last one is directly followed by an off. */
  predicate ClosedButLast(f: seq<Timed>) {
    forall i :: 0 <= i < |f| - 1 && IsOn(f[i].msg) ==> IsOff(f[i + 1].msg)
  }

  /** The parser lists every on, the analyser the paired ones only. */
  lemma {:induction false} OnsAndPairs(f: seq<Timed>, ch: int, pitch: int, open: int, beat: Clock)
    requires KeyOnly(f, ch, pitch)
    ensures |ScanNotes(f, ch, open, beat)| >= |Pairs(f, beat)| + if EndsOn(f) then 1 else 0
    ensures |ScanNotes(f, ch, open, beat)| == |Pairs(f, beat)| + (if EndsOn(f) then 1 else 0) <==> ClosedButLast(f)
  {
    if f != [] {
      var g, x := f[..|f| - 1], f[|f| - 1];
      assert f == g + [x];
      OnsAndPairs(g, ch, pitch, open, beat);
      ScanLength(g, x, ch, pitch, open, beat);
      PairsSnoc(g, x, beat);
      ClosedSnoc(g, x);
    }
  }

  lemma {:induction false} ScanLength(g: seq<Timed>, x: Timed, ch: int, pitch: int, open: int, beat: Clock)
    requires IsKey(x, ch, pitch)
    ensures |ScanNotes(g + [x], ch, open, beat)| == |ScanNotes(g, ch, open, beat)| + if IsOn(x.msg) then 1 else 0
  {
    ScanSnoc(g, x, ch, open, beat);
    CloseOnly(ScanNotes(g, ch, open, beat), pitch, beat(x.tick), open);
  }

  lemma {:induction false} ClosedSnoc(g: seq<Timed>, x: Timed)
    requires IsOn(x.msg) || IsOff(x.msg)
    ensures ClosedButLast(g + [x]) <==> ClosedButLast(g) && (EndsOn(g) ==> IsOff(x.msg))
  {
    var f := g + [x];
    assert forall i :: 0 <= i < |g| ==> f[i] == g[i];
    if ClosedButLast(f) {
      assert EndsOn(g) ==> IsOn(f[|g| - 1].msg) && f[|g|] == x;
    } else if ClosedButLast(g) {
      var i :| 0 <= i < |f| - 1 && IsOn(f[i].msg) && !IsOff(f[i + 1].msg);
      assert i == |g| - 1 && f[|g|] == x;
    }
  }

  /** Closing changes durations only, and only of notes that look open. */
  lemma {:induction false} CloseOnly(ns: seq<Note>, pitch: int, now: int, open: int)
    ensures |CloseLatest(ns, pitch, now, open)| == |ns|
    ensures forall i :: 0 <= i < |ns| ==>
              var after := CloseLatest(ns, pitch, now, open)[i];
              after == ns[i] || (ns[i].dur == open && after == ns[i].(dur := now - ns[i].start))
  {
    if ns != [] {
      CloseOnly(ns[..|ns| - 1], pitch, now, open);
    }
  }

  // ---- Which ----

  /** The parser's note is the pair, or it looked open and was stretched. */
  predicate Drifts(a: Note, b: Note, open: int) {
    a.(dur := b.dur) == b && (a.dur == b.dur || (b.dur == open && a.dur > open))
  }

  /** Note by note; and every pair has ended by now. */
  predicate Follows(s: seq<Note>, p: seq<Note>, pitch: int, open: int, now: int) {
    |s| == |p| && forall i :: 0 <= i < |s| ==>
      Drifts(s[i], p[i], open) && p[i].pitch == pitch && p[i].start + p[i].dur <= now
  }

  lemma {:induction false} StrayFollows(s: seq<Note>, p: seq<Note>, pitch: int, open: int, before: int, now: int)
    requires Follows(s, p, pitch, open, before) && before <= now
    ensures Follows(CloseLatest(s, pitch, now, open), p, pitch, open, now)
    ensures s != p ==> CloseLatest(s, pitch, now, open) != p
  {
    CloseOnly(s, pitch, now, open);
    if s != p {
      var i :| 0 <= i < |s| && s[i] != p[i];
      assert Drifts(s[i], p[i], open) && s[i].dur != open;
    }
  }

  /** A stray off changes nothing exactly if the latest finished note that looks open has just ended. */
  lemma {:induction false} StrayExactly(f: seq<Timed>, ch: int, pitch: int, open: int, beat: Clock, now: int)
    requires KeyOnly(f, ch, pitch)
    ensures CloseLatest(Pairs(f, beat), pitch, now, open) == Pairs(f, beat)
            <==> LastOpenEnd(f, open, beat).None? || LastOpenEnd(f, open, beat) == Some(now)
  {
    if f != [] {
      var g := f[..|f| - 1];
      StrayExactly(g, ch, pitch, open, beat, now);
      if EndsPaired(f) {
        assert IsKey(f[|f| - 2], ch, pitch);
        StrayOnPair(Pairs(g, beat), PairNote(f[|f| - 2], f[|f| - 1], beat), pitch, now, open);
      } else {
        assert Pairs(f, beat) == Pairs(g, beat);
      }
    }
  }

  lemma {:induction false} StrayOnPair(p: seq<Note>, n: Note, pitch: int, now: int, open: int)
    requires n.pitch == pitch
    ensures n.dur == open ==> (CloseLatest(p + [n], pitch, now, open) == p + [n] <==> now == n.start + n.dur)
    ensures n.dur != open ==>
              (CloseLatest(p + [n], pitch, now, open) == p + [n] <==> CloseLatest(p, pitch, now, open) == p)
  {
    ClosePush(p, n, pitch, now, open);
    CloseOnly(p, pitch, now, open);
    var c := CloseLatest(p, pitch, now, open);
    assert (p + [n])[|p|] == n && (p + [n])[..|p|] == p && (c + [n])[..|p|] == c;
    assert (p + [n.(dur := now - n.start)])[|p|] == n.(dur := now - n.start);
  }

  lemma {:induction false} PairedKey(g: seq<Timed>, on: Timed, off: Timed, ch: int, pitch: int, open: int, beat: Clock)
    requires IsKey(on, ch, pitch) && IsOn(on.msg) && IsKey(off, ch, pitch) && IsOff(off.msg)
    ensures ScanNotes(g + [on] + [off], ch, open, beat) == ScanNotes(g, ch, open, beat) + [PairNote(on, off, beat)]
    ensures Pairs(g + [on] + [off], beat) == Pairs(g, beat) + [PairNote(on, off, beat)]
  {
    ScanSnoc(g, on, ch, open, beat);
    ScanSnoc(g + [on], off, ch, open, beat);
    ClosePush(ScanNotes(g, ch, open, beat), Opened(on, open, beat), pitch, beat(off.tick), open);
    PairsSnoc(g, on, beat);
    PairsSnoc(g + [on], off, beat);
  }

  lemma {:induction false} PairedStrays(g: seq<Timed>, on: Timed, off: Timed, open: int, beat: Clock)
    requires IsOn(on.msg) && IsOff(off.msg)
    ensures StraysHarmless(g + [on] + [off], open, beat) <==> StraysHarmless(g, open, beat)
  {
    var f := g + [on] + [off];
    forall q: nat | q < |g| ensures Stray(f, q) == Stray(g, q) && f[..q] == g[..q] && f[q] == g[q] {
    }
    assert !Stray(f, |g|) && !Stray(f, |g| + 1);
  }

  lemma {:induction false} OneMoreStray(g: seq<Timed>, x: Timed, open: int, beat: Clock)
    requires IsOff(x.msg) && !EndsOn(g)
    ensures StraysHarmless(g + [x], open, beat) <==>
            StraysHarmless(g, open, beat)
            && (LastOpenEnd(g, open, beat).None? || LastOpenEnd(g, open, beat) == Some(beat(x.tick)))
  {
    var f := g + [x];
    forall q: nat | q < |g| ensures Stray(f, q) == Stray(g, q) && f[..q] == g[..q] && f[q] == g[q] {
    }
    assert Stray(f, |g|) && f[..|g|] == g && f[|g|] == x;
  }

  /** The beat of the last message, or of `x` if there is none. */
  function Last(f: seq<Timed>, x: Timed, beat: Clock): int { beat((if f == [] then x else f[|f| - 1]).tick) }

  /** The parser follows the pairs, and leaves them only at a harmful stray. */
  predicate Followed(f: seq<Timed>, ch: int, pitch: int, open: int, beat: Clock, now: int) {
    && Follows(ScanNotes(f, ch, open, beat), Pairs(f, beat), pitch, open, now)
    && (ScanNotes(f, ch, open, beat) == Pairs(f, beat) <==> StraysHarmless(f, open, beat))
  }

  lemma {:induction false} PairFollows(g: seq<Timed>, on: Timed, off: Timed, ch: int, pitch: int, open: int,
                                       beat: Clock)
    requires IsKey(on, ch, pitch) && IsOn(on.msg) && IsKey(off, ch, pitch) && IsOff(off.msg)
    requires Followed(g, ch, pitch, open, beat, Last(g, off, beat)) && Last(g, off, beat) <= beat(off.tick)
    ensures Followed(g + [on] + [off], ch, pitch, open, beat, beat(off.tick))
  {
    PairedKey(g, on, off, ch, pitch, open, beat);
    PairedStrays(g, on, off, open, beat);
    var s, p, n := ScanNotes(g, ch, open, beat), Pairs(g, beat), PairNote(on, off, beat);
    assert (s + [n])[..|s|] == s && (p + [n])[..|p|] == p;
  }

  lemma {:induction false} StrayIsFollowed(g: seq<Timed>, x: Timed, ch: int, pitch: int, open: int, beat: Clock)
    requires KeyOnly(g, ch, pitch) && IsKey(x, ch, pitch) && !IsOn(x.msg) && !EndsOn(g)
    requires Followed(g, ch, pitch, open, beat, Last(g, x, beat)) && Last(g, x, beat) <= beat(x.tick)
    ensures Followed(g + [x], ch, pitch, open, beat, beat(x.tick))
  {
    ScanSnoc(g, x, ch, open, beat);
    PairsSnoc(g, x, beat);
    OneMoreStray(g, x, open, beat);
    StrayExactly(g, ch, pitch, open, beat, beat(x.tick));
    StrayFollows(ScanNotes(g, ch, open, beat), Pairs(g, beat), pitch, open, Last(g, x, beat), beat(x.tick));
  }

  lemma {:induction false} ScanFollows(f: seq<Timed>, x: Timed, ch: int, pitch: int, open: int, beat: Clock)
    requires KeyOnly(f, ch, pitch) && Ordered(f, beat) && Closed(f)
    ensures Followed(f, ch, pitch, open, beat, Last(f, x, beat))
    decreases |f|
  {
    if EndsPaired(f) {
      var g, on, off := PairApart(f, ch, pitch, beat);
      ScanFollows(g, off, ch, pitch, open, beat);
      PairFollows(g, on, off, ch, pitch, open, beat);
    } else if f != [] {
      var g, y := StrayApart(f, ch, pitch, beat);
      ScanFollows(g, y, ch, pitch, open, beat);
      StrayIsFollowed(g, y, ch, pitch, open, beat);
    }
  }

  lemma PairApart(f: seq<Timed>, ch: int, pitch: int, beat: Clock) returns (g: seq<Timed>, on: Timed, off: Timed)
    requires KeyOnly(f, ch, pitch) && Ordered(f, beat) && Closed(f) && EndsPaired(f)
    ensures f == g + [on] + [off] && f[|f| - 1] == off
    ensures KeyOnly(g, ch, pitch) && Ordered(g, beat) && Closed(g) && Last(g, off, beat) <= beat(off.tick)
    ensures IsKey(on, ch, pitch) && IsOn(on.msg) && IsKey(off, ch, pitch) && IsOff(off.msg)
  {
    var n := |f| - 2;
    g, on, off := f[..n], f[n], f[n + 1];
    assert on in f && off in f;
    assert n > 0 && IsOn(f[n - 1].msg) ==> IsOff(f[n].msg);
  }

  lemma StrayApart(f: seq<Timed>, ch: int, pitch: int, beat: Clock) returns (g: seq<Timed>, x: Timed)
    requires KeyOnly(f, ch, pitch) && Ordered(f, beat) && Closed(f) && !EndsPaired(f) && f != []
    ensures f == g + [x] && f[|f| - 1] == x
    ensures KeyOnly(g, ch, pitch) && Ordered(g, beat) && Closed(g) && Last(g, x, beat) <= beat(x.tick)
    ensures IsKey(x, ch, pitch) && !IsOn(x.msg) && !EndsOn(g)
  {
    g, x := f[..|f| - 1], f[|f| - 1];
    assert x in f;
  }

  // ---- As multisets ----

  function Total(ns: seq<Note>): int { if ns == [] then 0 else Total(ns[1..]) + ns[0].dur }

  lemma {:induction false} TotalConcat(a: seq<Note>, b: seq<Note>)
    ensures Total(a + b) == Total(a) + Total(b)
  {
    if a == [] {
      assert a + b == b;
    } else {
      assert (a + b)[1..] == a[1..] + b;
      TotalConcat(a[1..], b);
    }
  }

  lemma {:induction false} TotalWithout(b: seq<Note>, k: nat)
    requires k < |b|
    ensures Total(b) == Total(b[..k] + b[k + 1..]) + b[k].dur
    ensures multiset(b[..k] + b[k + 1..]) == multiset(b) - multiset{b[k]}
  {
    var front, back := b[..k], b[k + 1..];
    assert b == front + [b[k]] + back;
    TotalConcat(front, [b[k]]);
    TotalConcat(front + [b[k]], back);
    TotalConcat(front, back);
  }

  lemma {:induction false} TotalOfBag(a: seq<Note>, b: seq<Note>)
    requires multiset(a) == multiset(b)
    ensures Total(a) == Total(b)
  {
    if a == [] {
      assert multiset(b) == multiset{};
    } else {
      assert a[0] in multiset(b);
      var k :| 0 <= k < |b| && b[k] == a[0];
      TotalWithout(a, 0);
      TotalWithout(b, k);
      TotalOfBag(a[..0] + a[1..], b[..k] + b[k + 1..]);
    }
  }

  /** Stretched durations show in their sum. */
  lemma {:induction false} DriftShows(s: seq<Note>, p: seq<Note>, open: int)
    requires |s| == |p| && forall i :: 0 <= i < |s| ==> Drifts(s[i], p[i], open)
    ensures Total(s) >= Total(p)
    ensures Total(s) == Total(p) ==> s == p
  {
    if s != [] {
      DriftShows(s[1..], p[1..], open);
      assert s == [s[0]] + s[1..] && p == [p[0]] + p[1..];
    }
  }

  /** One channel and pitch: the parser's notes are the pairs exactly if the messages meet the condition. */
  lemma {:induction false} KeyAgreesExactly(f: seq<Timed>, ch: int, pitch: int, open: int, beat: Clock)
    requires KeyOnly(f, ch, pitch) && Ordered(f, beat)
    ensures multiset(ScanNotes(f, ch, open, beat)) == multiset(Pairs(f, beat)) <==> KeyAgrees(f, open, beat)
  {
    var s, p := ScanNotes(f, ch, open, beat), Pairs(f, beat);
    OnsAndPairs(f, ch, pitch, open, beat);
    if multiset(s) == multiset(p) {
      assert |s| == |multiset(s)| && |p| == |multiset(p)|;
      ScanFollows(f, Timed(0, Program(0, 0)), ch, pitch, open, beat);
      TotalOfBag(s, p);
      DriftShows(s, p, open);
    } else if KeyAgrees(f, open, beat) {
      ScanFollows(f, Timed(0, Program(0, 0)), ch, pitch, open, beat);
    }
  }

  // ---- The analyser ----

  /** The pairs are listed; a last on is in the dictionary. */
  ghost predicate Holds(p: Pending, f: seq<Timed>, ch: int, pitch: int, beat: Clock) {
    && Filter(ChannelNotes(p.notes, ch), OfPitch(pitch)) == Pairs(f, beat)
    && ((ch, pitch) in p.open <==> EndsOn(f))
    && (EndsOn(f) ==> p.open[(ch, pitch)] == (beat(f[|f| - 1].tick), f[|f| - 1].msg.vel))
  }

  lemma OtherKeyHolds(p: Pending, x: Timed, f: seq<Timed>, ch: int, pitch: int, beat: Clock)
    requires Holds(p, f, ch, pitch, beat) && !OfKey(ch, pitch)(x)
    ensures Holds(PendingStep(p, x, beat), f, ch, pitch, beat)
  {
    if IsOff(x.msg) && (x.msg.ch, x.msg.note) in p.open {
      var (start, vel) := p.open[(x.msg.ch, x.msg.note)];
      ChannelNotesSnoc(p.notes, (x.msg.ch, Note(x.msg.note, start, beat(x.tick) - start, vel)), ch, pitch);
    }
  }

  lemma SameKeyHolds(p: Pending, g: seq<Timed>, x: Timed, ch: int, pitch: int, beat: Clock)
    requires Holds(p, g, ch, pitch, beat) && OfKey(ch, pitch)(x) && KeyOnly(g, ch, pitch)
    ensures Holds(PendingStep(p, x, beat), g + [x], ch, pitch, beat)
  {
    PairsSnoc(g, x, beat);
    if IsOff(x.msg) && EndsOn(g) {
      var on := g[|g| - 1];
      assert on in g && PairNote(on, x, beat) == Note(pitch, beat(on.tick), beat(x.tick) - beat(on.tick), on.msg.vel);
      ChannelNotesSnoc(p.notes, (ch, Note(pitch, beat(on.tick), beat(x.tick) - beat(on.tick), on.msg.vel)), ch, pitch);
    }
  }

  lemma OfKeyOnly(s: seq<Timed>, ch: int, pitch: int)
    ensures KeyOnly(Filter(s, OfKey(ch, pitch)), ch, pitch)
  {
    forall x | x in Filter(s, OfKey(ch, pitch)) ensures IsKey(x, ch, pitch) {
      FilterMember(s, OfKey(ch, pitch), x);
    }
  }

  /** On every stream the analyser pairs an on with an off only if the off is the next message of the key. */
  lemma {:induction false} PendingOnPitch(s: seq<Timed>, ch: int, pitch: int, beat: Clock)
    ensures Holds(PendingRun(s, beat), Filter(s, OfKey(ch, pitch)), ch, pitch, beat)
  {
    if s != [] {
      var init, x := s[..|s| - 1], s[|s| - 1];
      assert s == init + [x];
      PendingOnPitch(init, ch, pitch, beat);
      FilterPush(init, x, OfKey(ch, pitch));
      OfKeyOnly(init, ch, pitch);
      if OfKey(ch, pitch)(x) {
        SameKeyHolds(PendingRun(init, beat), Filter(init, OfKey(ch, pitch)), x, ch, pitch, beat);
      } else {
        assert Filter(s, OfKey(ch, pitch)) == Filter(init, OfKey(ch, pitch));
        OtherKeyHolds(PendingRun(init, beat), x, Filter(init, OfKey(ch, pitch)), ch, pitch, beat);
      }
    }
  }

  // ---- A channel ----

  function ByBeat(beat: Clock): Timed -> Rank { (x: Timed) => Rank(beat(x.tick), 0) }

  lemma OrderedOnKey(s: seq<Timed>, ch: int, pitch: int, beat: Clock)
    requires Ordered(s, beat)
    ensures Ordered(Filter(s, OfKey(ch, pitch)), beat)
  {
    FilterKeepsSorted(s, OfKey(ch, pitch), ByBeat(beat));
    var f := Filter(s, OfKey(ch, pitch));
    forall i, j | 0 <= i < j < |f| ensures beat(f[i].tick) <= beat(f[j].tick) {
      assert Le(ByBeat(beat)(f[i]), ByBeat(beat)(f[j]));
    }
  }

  /** Two lists are equal up to order exactly if they are on every pitch. */
  lemma {:induction false} BagsByPitch(a: seq<Note>, b: seq<Note>)
    ensures multiset(a) == multiset(b) <==>
            forall pitch :: multiset(Filter(a, OfPitch(pitch))) == multiset(Filter(b, OfPitch(pitch)))
  {
    if multiset(a) == multiset(b) {
      forall pitch ensures multiset(Filter(a, OfPitch(pitch))) == multiset(Filter(b, OfPitch(pitch))) {
        SameOnPitch(a, b, pitch);
      }
    } else if forall pitch :: multiset(Filter(a, OfPitch(pitch))) == multiset(Filter(b, OfPitch(pitch))) {
      forall x ensures multiset(a)[x] == multiset(b)[x] {
        CountOnPitch(a, x.pitch, x);
        CountOnPitch(b, x.pitch, x);
      }
    }
  }

  lemma SameOnPitch(a: seq<Note>, b: seq<Note>, pitch: int)
    requires multiset(a) == multiset(b)
    ensures multiset(Filter(a, OfPitch(pitch))) == multiset(Filter(b, OfPitch(pitch)))
  {
    forall x ensures multiset(Filter(a, OfPitch(pitch)))[x] == multiset(Filter(b, OfPitch(pitch)))[x] {
      CountOnPitch(a, pitch, x);
      CountOnPitch(b, pitch, x);
    }
  }

  lemma CountOnPitch(a: seq<Note>, pitch: int, x: Note)
    ensures multiset(Filter(a, OfPitch(pitch)))[x] == if x.pitch == pitch then multiset(a)[x] else 0
  {
    if x.pitch == pitch {
      FilterCount(a, OfPitch(pitch), x);
    } else {
      FilterMember(a, OfPitch(pitch), x);
    }
  }

  /**
   In a track that holds anything, on a clock that does not go back, the matchers find the same notes of a
   channel exactly if on every pitch each on is directly followed by an off and every stray off is harmless.
   */
  lemma {:induction false} MatchersAgreeExactly(s: seq<Timed>, ch: int, open: int, beat: Clock)
    requires Ordered(s, beat)
    ensures multiset(ScanNotes(s, ch, open, beat)) == multiset(ChannelNotes(PendingRun(s, beat).notes, ch)) <==>
            forall pitch :: KeyAgrees(Filter(s, OfKey(ch, pitch)), open, beat)
  {
    var a, b := ScanNotes(s, ch, open, beat), ChannelNotes(PendingRun(s, beat).notes, ch);
    BagsByPitch(a, b);
    forall pitch ensures multiset(Filter(a, OfPitch(pitch))) == multiset(Filter(b, OfPitch(pitch)))
                         <==> KeyAgrees(Filter(s, OfKey(ch, pitch)), open, beat) {
      ScanOnPitch(s, ch, pitch, open, beat);
      PendingOnPitch(s, ch, pitch, beat);
      OfKeyOnly(s, ch, pitch);
      OrderedOnKey(s, ch, pitch, beat);
      KeyAgreesExactly(Filter(s, OfKey(ch, pitch)), ch, pitch, open, beat);
    }
  }

  /** A well-formed track meets the condition: it has no strays. */
  lemma {:induction false} WellFormedAgrees(s: seq<Timed>, ch: int, pitch: int, open: int, beat: Clock)
    requires WellFormed(s)
    ensures KeyAgrees(Filter(s, OfKey(ch, pitch)), open, beat)
  {
    var f := Filter(s, OfKey(ch, pitch));
    assert Alternating(f) && |f| % 2 == 0;
    assert forall q: nat :: q < |f| ==> !Stray(f, q);
  }
}
