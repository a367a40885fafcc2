/**
 What `analyze_midi._parse_midi` finds in the file that `tokens_to_midi_bytes` wrote, and where the two parsers
 part on other files.
 */
module Analyser {
  import opened Arithmetic
  import opened Options
  import opened Smf
  import opened Sorting
  import opened Sequences
  import opened Tokens
  import opened Compile
  import opened Matchers
  import opened Overlap
  import opened Agreement
  import opened RoundTrip

  /** No two notes of the channel and of one pitch share an instant. */
  predicate DisjointOn(events: seq<Event>, ch: int) {
    forall i, j :: 0 <= i < j < |events| && events[i].ch == events[j].ch == ch && events[i].note == events[j].note ==>
                     events[i].tick + events[i].dur <= events[j].tick
                     || events[j].tick + events[j].dur <= events[i].tick
  }

  // ---- One channel and pitch ----

  /** Half as many pairs as messages: all of them are paired. */
  lemma {:induction false} AllPaired(f: seq<Timed>, ch: int, pitch: int, beat: Clock)
    requires KeyOnly(f, ch, pitch)
    ensures 2 * |Pairs(f, beat)| <= |f|
    ensures 2 * |Pairs(f, beat)| == |f| ==> Alternating(f)
    decreases |f|
  {
    if EndsPaired(f) {
      var g, on, off := f[..|f| - 2], f[|f| - 2], f[|f| - 1];
      assert f == g + [on] + [off] && on in f && off in f;
      AllPaired(g, ch, pitch, beat);
      OnePairMore(g, on, off, ch, pitch, beat);
    } else if f != [] {
      AllPaired(f[..|f| - 1], ch, pitch, beat);
    }
  }

  lemma {:induction false} OnePairMore(g: seq<Timed>, on: Timed, off: Timed, ch: int, pitch: int, beat: Clock)
    requires IsKey(on, ch, pitch) && IsOn(on.msg) && IsKey(off, ch, pitch) && IsOff(off.msg)
    requires 2 * |Pairs(g, beat)| <= |g| && (2 * |Pairs(g, beat)| == |g| ==> Alternating(g))
    ensures var f := g + [on] + [off];
            2 * |Pairs(f, beat)| <= |f| && (2 * |Pairs(f, beat)| == |f| ==> Alternating(f))
  {
    PairedKey(g, on, off, ch, pitch, 0, beat);
  }

  function Turn(p: nat): Mark { if p % 2 == 0 then Opens(p / 2) else Closes(p / 2) }

  lemma {:induction false} OpensDone(es: seq<Event>, p: nat, k: nat)
    requires p <= |Schedule(es)| && forall q: nat :: q < p ==> Schedule(es)[q] == Turn(q)
    ensures Opens(k) in Schedule(es)[..p] ==> 2 * k < p
  {
    if Opens(k) in Schedule(es)[..p] {
      var q: nat :| q < p && Schedule(es)[..p][q] == Opens(k);
      assert Schedule(es)[q] == Turn(q);
    }
  }

  lemma {:induction false} TurnStep(es: seq<Event>, ch: int, pitch: int, p: nat)
    requires OneKey(es, ch, pitch) && p < |Schedule(es)|
    requires forall q: nat :: q < p ==> Schedule(es)[q] == Turn(q)
    requires Schedule(es)[p].Opens? <==> p % 2 == 0
    ensures Schedule(es)[p] == Turn(p)
  {
    var m := Schedule(es);
    ScheduleMarks(es);
    var k := m[p].k;
    assert m[p] in m && k < |es| && ValidEvent(es[k]);
    assert forall q: nat :: q < p ==> Turn(q) != m[p];
    assert Turn(if p % 2 == 0 then 2 * k else 2 * k + 1) == m[p];
    var early := if p % 2 == 0 then p / 2 else k;
    DoneBefore(es, p, Opens(early));
    OpensDone(es, p, early);
  }

  lemma {:induction false} TurnsUpTo(es: seq<Event>, ch: int, pitch: int, p: nat)
    requires OneKey(es, ch, pitch) && p <= |Schedule(es)|
    requires forall q: nat :: q < |Schedule(es)| ==> (Schedule(es)[q].Opens? <==> q % 2 == 0)
    ensures forall q: nat :: q < p ==> Schedule(es)[q] == Turn(q)
  {
    if p > 0 {
      TurnsUpTo(es, ch, pitch, p - 1);
      TurnStep(es, ch, pitch, p - 1);
    }
  }

  /** If starts and ends take turns, so do the notes. */
  lemma {:induction false} AlternatingInTurn(es: seq<Event>, ch: int, pitch: int)
    requires OneKey(es, ch, pitch) && Alternating(Sort(NoteMsgs(es), ByTick()))
    ensures InTurn(es)
  {
    var m := Schedule(es);
    StreamIsSchedule(es, ch, pitch);
    ScheduleMarks(es);
    forall q: nat | q < |m| ensures m[q].Opens? <==> q % 2 == 0 {
      var x := Msgs(es, m)[q];
      assert x == MsgOf(es, m[q]) && ValidEvent(es[m[q].k]);
    }
    TurnsUpTo(es, ch, pitch, |m|);
    SortSorts(Marks(|es|), ByRank(es));
    forall i, j | 0 <= i < j < |es| ensures es[i].tick + es[i].dur <= es[j].tick {
      assert m[2 * i + 1] == Closes(i) && m[2 * j] == Opens(j);
      assert Le(ByRank(es)(m[2 * i + 1]), ByRank(es)(m[2 * j]));
    }
  }

  lemma {:induction false} AlternatingPaired(f: seq<Timed>, ch: int, pitch: int, beat: Clock)
    requires KeyOnly(f, ch, pitch) && Ordered(f, beat) && Alternating(f) && |f| % 2 == 0
    ensures ScanNotes(f, ch, 0, beat) == Pairs(f, beat)
  {
    assert Closed(f) && forall q: nat :: q < |f| ==> !Stray(f, q);
    ScanFollows(f, Timed(0, Program(0, 0)), ch, pitch, 0, beat);
  }

  /** Notes in turn are the pairs of their messages. */
  lemma {:induction false} InTurnPaired(es: seq<Event>, ch: int, pitch: int, beat: Clock)
    requires OneKey(es, ch, pitch) && InTurn(es) && Ascending(beat)
    ensures Pairs(Sort(NoteMsgs(es), ByTick()), beat) == AllReported(es, beat)
  {
    KeyMsgs(es, ch, pitch, beat);
    TurnsAlternate(es, ch, pitch);
    AlternatingPaired(Sort(NoteMsgs(es), ByTick()), ch, pitch, beat);
    assert AllFit(es, 0, beat);
    KeyExactly(es, ch, pitch, 0, beat);
  }

  lemma TurnsAlternate(es: seq<Event>, ch: int, pitch: int)
    requires OneKey(es, ch, pitch) && InTurn(es)
    ensures Alternating(Sort(NoteMsgs(es), ByTick())) && |Sort(NoteMsgs(es), ByTick())| % 2 == 0
  {
    InTurnSorted(es);
    SortFixesSorted(NoteMsgs(es), ByTick());
    InTurnAlternates(es);
  }

  lemma {:induction false} NoteMsgsKey(es: seq<Event>, ch: int, pitch: int)
    requires forall i :: 0 <= i < |es| ==> ValidEvent(es[i]) && es[i].ch == ch && es[i].note == pitch
    ensures forall x :: x in NoteMsgs(es) ==> IsKey(x, ch, pitch)
  {
    if es != [] {
      NoteMsgsKey(es[1..], ch, pitch);
      assert ValidEvent(es[0]);
    }
  }

  lemma {:induction false} KeyMsgs(es: seq<Event>, ch: int, pitch: int, beat: Clock)
    requires OneKey(es, ch, pitch) && Ascending(beat)
    ensures KeyOnly(Sort(NoteMsgs(es), ByTick()), ch, pitch) && Ordered(Sort(NoteMsgs(es), ByTick()), beat)
    ensures |Sort(NoteMsgs(es), ByTick())| == 2 * |es|
  {
    NoteMsgsLength(es);
    NoteMsgsKey(es, ch, pitch);
    SortedKey(NoteMsgs(es), ch, pitch, beat);
  }

  lemma {:induction false} SortedKey(s: seq<Timed>, ch: int, pitch: int, beat: Clock)
    requires Ascending(beat) && KeyOnly(s, ch, pitch)
    ensures KeyOnly(Sort(s, ByTick()), ch, pitch) && Ordered(Sort(s, ByTick()), beat)
    ensures |Sort(s, ByTick())| == |s|
  {
    var f := Sort(s, ByTick());
    SortPermutes(s, ByTick());
    SortSorts(s, ByTick());
    forall x | x in f ensures IsKey(x, ch, pitch) {
      SortMember(s, ByTick(), x);
    }
    forall i, j | 0 <= i < j < |f| ensures beat(f[i].tick) <= beat(f[j].tick) {
      assert Le(ByTick()(f[i]), ByTick()(f[j]));
    }
  }

  lemma {:induction false} KeyPairedExactly(es: seq<Event>, ch: int, pitch: int, beat: Clock)
    requires OneKey(es, ch, pitch) && Ascending(beat)
    ensures multiset(Pairs(Sort(NoteMsgs(es), ByTick()), beat)) == multiset(AllReported(es, beat)) <==> InTurn(es)
  {
    var f := Sort(NoteMsgs(es), ByTick());
    if multiset(Pairs(f, beat)) == multiset(AllReported(es, beat)) {
      assert |Pairs(f, beat)| == |multiset(Pairs(f, beat))| && |es| == |multiset(AllReported(es, beat))|;
      KeyMsgs(es, ch, pitch, beat);
      AllPaired(f, ch, pitch, beat);
      AlternatingInTurn(es, ch, pitch);
    } else if InTurn(es) {
      InTurnPaired(es, ch, pitch, beat);
    }
  }

  // ---- A channel ----

  lemma {:induction false} DisjointByPitch(events: seq<Event>, ch: int)
    requires Playable(events)
    ensures DisjointOn(events, ch) <==> forall pitch :: InTurn(Filter(events, EventKey(ch, pitch)))
  {
    forall pitch, a: nat, b: nat | DisjointOn(events, ch) && a < b < |Filter(events, EventKey(ch, pitch))|
      ensures Filter(events, EventKey(ch, pitch))[a].tick + Filter(events, EventKey(ch, pitch))[a].dur
           <= Filter(events, EventKey(ch, pitch))[b].tick
    {
      var i, j := FilterOrigin(events, EventKey(ch, pitch), a, b);
      assert ValidEvent(events[j]);
    }
    forall i: nat, j: nat | i < j < |events| && events[i].ch == events[j].ch == ch && events[i].note == events[j].note
                            && forall pitch :: InTurn(Filter(events, EventKey(ch, pitch)))
      ensures events[i].tick + events[i].dur <= events[j].tick
    {
      var a, b := FilterOrder(events, EventKey(ch, events[i].note), i, j);
      assert InTurn(Filter(events, EventKey(ch, events[i].note)));
    }
  }

  /**
   On a compiled stream the analyser finds the decoded notes of a channel exactly if no two of one pitch share
   an instant: the on of a second note replaces the first in its dictionary.
   */
  lemma {:induction false} AnalyserExactly(progs: seq<Timed>, events: seq<Event>, ch: int, beat: Clock)
    requires Playable(events) && Ascending(beat)
    requires forall x :: x in progs ==> x.msg.Program?
    ensures multiset(ChannelNotes(PendingRun(Sort(progs + NoteMsgs(events), ByTick()), beat).notes, ch))
            == multiset(NotesOn(events, ch, beat))
            <==> DisjointOn(events, ch)
  {
    var s := Sort(progs + NoteMsgs(events), ByTick());
    var got, want := ChannelNotes(PendingRun(s, beat).notes, ch), NotesOn(events, ch, beat);
    BagsByPitch(got, want);
    DisjointByPitch(events, ch);
    forall pitch ensures multiset(Filter(got, OfPitch(pitch))) == multiset(Filter(want, OfPitch(pitch)))
                         <==> InTurn(Filter(events, EventKey(ch, pitch))) {
      StreamOfKey(progs, events, ch, pitch);
      PendingOnPitch(s, ch, pitch, beat);
      NotesOnPitch(events, ch, pitch, beat);
      KeyEvents(events, ch, pitch);
      KeyPairedExactly(Filter(events, EventKey(ch, pitch)), ch, pitch, beat);
    }
  }

  /** So it does on disjoint notes. */
  lemma AnalyserAgrees(progs: seq<Timed>, events: seq<Event>, ch: int, beat: Clock)
    requires Playable(events) && Disjoint(events) && Ascending(beat)
    requires forall x :: x in progs ==> x.msg.Program?
    ensures multiset(ChannelNotes(PendingRun(Sort(progs + NoteMsgs(events), ByTick()), beat).notes, ch))
         == multiset(NotesOn(events, ch, beat))
  {
    AnalyserExactly(progs, events, ch, beat);
  }

  /** What the analyser finds on a channel of a file. */
  function AnalysedNotes(file: seq<byte>, ch: int, beat: Clock): Option<seq<Note>> {
    match ReadFile(file)
    case None => None
    case Some(f) => Some(ChannelNotes(PendingRun(Messages(f.items), beat).notes, ch))
  }

  /** From tokens to the notes the analyser reads back. */
  lemma {:induction false} TokensAnalysed(tokens: seq<int>, tempo: nat, toTicks: nat -> nat, ch: int, beat: Clock)
    requires 1 <= tempo <= 60_000_000 && Monotone(toTicks) && Ascending(beat)
    ensures Compiled(tokens, tempo, toTicks).Some? ==>
              var notes := AnalysedNotes(Compiled(tokens, tempo, toTicks).value, ch, beat);
              var events := Played(Decode(tokens, toTicks));
              notes.Some? && (multiset(notes.value) == multiset(NotesOn(events, ch, beat)) <==> DisjointOn(events, ch))
  {
    DecodeValid(tokens, toTicks);
    StreamWritable(tokens, toTicks);
    if Compiled(tokens, tempo, toTicks).Some? {
      FileMessages(60_000_000 / tempo, Stream(tokens, toTicks));
    }
    AnalyserExactly(Decode(tokens, toTicks).progs, Played(Decode(tokens, toTicks)), ch, beat);
  }

  // ---- Where the parsers part ----

  const FIRST_ON := Timed(0, NoteOn(0, 60, 15))
  const ITS_OFF := Timed(240, NoteOff(0, 60, 0))
  const STRAY_OFF := Timed(480, NoteOff(0, 60, 0))

  function WithStray(): seq<Timed> { [FIRST_ON, ITS_OFF, STRAY_OFF] }

  function ParserBeats(): Clock { RoundedBeats(1000, TICKS_PER_BEAT) }

  lemma StrayBeats()
    ensures ParserBeats()(0) == 0 && ParserBeats()(240) == 500 && ParserBeats()(480) == 1000
  {
    assert RoundHalfEven(240 * 1000, 480) == 500 && RoundHalfEven(480 * 1000, 480) == 1000;
  }

  lemma {:induction false} StrayScanned(beat: Clock)
    requires beat(0) == 0 && beat(240) == 500 && beat(480) == 1000
    ensures ScanNotes(WithStray(), 0, 500, beat) == [Note(60, 0, 1000, 15)]
  {
    var open, whole := Note(60, 0, 500, 15), Note(60, 0, 1000, 15);
    ClosePush([], open, 60, 500, 500);
    ClosePush([], open, 60, 1000, 500);
    assert [] + [open] == [open] && [] + [whole] == [whole];
    ScanReads([], FIRST_ON, [FIRST_ON], [], [open], 500, beat);
    ScanReads([FIRST_ON], ITS_OFF, [FIRST_ON, ITS_OFF], [open], [open], 500, beat);
    ScanReads([FIRST_ON, ITS_OFF], STRAY_OFF, WithStray(), [open], [whole], 500, beat);
  }

  lemma {:induction false} StrayPaired(beat: Clock)
    requires beat(0) == 0 && beat(240) == 500 && beat(480) == 1000
    ensures Pairs(WithStray(), beat) == [Note(60, 0, 500, 15)]
  {
    PairsSnoc([], FIRST_ON, beat);
    PairsSnoc([FIRST_ON], ITS_OFF, beat);
    PairsSnoc([FIRST_ON, ITS_OFF], STRAY_OFF, beat);
    assert [] + [FIRST_ON] == [FIRST_ON] && [FIRST_ON] + [ITS_OFF] == [FIRST_ON, ITS_OFF];
    assert [FIRST_ON, ITS_OFF] + [STRAY_OFF] == WithStray();
  }

  lemma {:induction false} StrayIsKey()
    ensures Filter(WithStray(), OfKey(0, 60)) == WithStray()
    ensures Closed(WithStray())
  {
    FilterAll(WithStray(), OfKey(0, 60));
    assert WithStray()[1] == ITS_OFF;
  }

  /**
   A note of half a beat, closed, and one more note-off half a beat later. The analyser ignores the latter. To
   the parser the finished note looks open, and is stretched to a beat.
   */
  lemma {:induction false} StrayTakesNote()
    ensures Closed(WithStray()) && !WellFormed(WithStray())
    ensures ScanNotes(WithStray(), 0, 500, ParserBeats()) == [Note(60, 0, 1000, 15)]
    ensures Filter(ChannelNotes(PendingRun(WithStray(), ParserBeats()).notes, 0), OfPitch(60)) == [Note(60, 0, 500, 15)]
    ensures !KeyAgrees(WithStray(), 500, ParserBeats())
  {
    StrayBeats();
    StrayIsKey();
    StrayScanned(ParserBeats());
    StrayPaired(ParserBeats());
    PendingOnPitch(WithStray(), 0, 60, ParserBeats());
    assert |Filter(WithStray(), OfKey(0, 60))| % 2 == 1;
    StrayHarms();
  }

  lemma {:induction false} StrayHarms()
    ensures !KeyAgrees(WithStray(), 500, ParserBeats())
  {
    var f := WithStray();
    StrayBeats();
    assert Stray(f, 2) && f[..2] == [FIRST_ON, ITS_OFF];
    assert EndsPaired(f[..2]) && PairNote(FIRST_ON, ITS_OFF, ParserBeats()).dur == 500;
    assert LastOpenEnd(f[..2], 500, ParserBeats()) == Some(500) && f[2].tick == 480;
  }

  /** A note that begins in one track and is ended in the next. */
  function TwoTracks(): seq<seq<Timed>> { [[FIRST_ON], [STRAY_OFF]] }

  /** The parser goes on with its notes from track to track; the analyser starts anew and finds none. */
  lemma {:induction false} TracksApart()
    ensures ScanNotes(Flatten(TwoTracks()), 0, 500, ParserBeats()) == [Note(60, 0, 1000, 15)]
    ensures PendingNotes(TwoTracks(), ParserBeats()) == [TrackNotes(0, []), TrackNotes(1, [])]
  {
    StrayBeats();
    CarriedOver(ParserBeats());
    NoneInTracks(ParserBeats());
  }

  lemma {:induction false} CarriedOver(beat: Clock)
    requires beat(0) == 0 && beat(480) == 1000
    ensures ScanNotes(Flatten(TwoTracks()), 0, 500, beat) == [Note(60, 0, 1000, 15)]
  {
    var open, whole, t := Note(60, 0, 500, 15), Note(60, 0, 1000, 15), TwoTracks();
    assert t[..|t| - 1] == [[FIRST_ON]] && [[FIRST_ON]][..0] == [];
    assert Flatten([[FIRST_ON]]) == Flatten([]) + [FIRST_ON];
    assert Flatten(t) == [FIRST_ON] + [STRAY_OFF];
    ClosePush([], open, 60, 1000, 500);
    assert [] + [open] == [open] && [] + [whole] == [whole];
    ScanReads([], FIRST_ON, [FIRST_ON], [], [open], 500, beat);
    ScanReads([FIRST_ON], STRAY_OFF, Flatten(t), [open], [whole], 500, beat);
  }

  lemma {:induction false} NoneInTracks(beat: Clock)
    ensures PendingNotes(TwoTracks(), beat) == [TrackNotes(0, []), TrackNotes(1, [])]
  {
    assert [FIRST_ON][..0] == [] && [STRAY_OFF][..0] == [];
    assert PendingRun([FIRST_ON], beat) == PendingStep(PendingRun([], beat), FIRST_ON, beat);
    assert PendingRun([STRAY_OFF], beat) == PendingStep(PendingRun([], beat), STRAY_OFF, beat);
  }
}
