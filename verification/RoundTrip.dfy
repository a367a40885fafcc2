/**
 Tokens to bytes and back to notes: what `parse_midi_to_notes` collects from the file that
 `tokens_to_midi_bytes` wrote, and exactly when it is what the tokens said.
 */
module RoundTrip {
  import opened Arithmetic
  import opened Options
  import opened Smf
  import opened Sorting
  import opened Tokens
  import opened Compile
  import opened Matchers
  import opened Overlap

  /** The decoded notes of one channel, in order, on a parser's clock. */
  function NotesOn(events: seq<Event>, ch: int, beat: Clock): seq<Note> {
    if events == [] then []
    else (if events[0].ch == ch then [Reported(events[0], beat)] else []) + NotesOn(events[1..], ch, beat)
  }

  /** On one channel and pitch no two notes share an instant; a note may start where another ends. */
  predicate Disjoint(events: seq<Event>) {
    forall i, j :: 0 <= i < j < |events| && events[i].ch == events[j].ch && events[i].note == events[j].note ==>
                     events[i].tick + events[i].dur <= events[j].tick
                     || events[j].tick + events[j].dur <= events[i].tick
  }

  predicate Playable(events: seq<Event>) {
    && (forall i :: 0 <= i < |events| ==> ValidEvent(events[i]))
    && (forall i, j :: 0 <= i < j < |events| ==> events[i].tick <= events[j].tick)
  }

  /** Every two notes of the channel that have one pitch fit: no end is given to the wrong note. */
  predicate FitOn(events: seq<Event>, ch: int, open: int, beat: Clock) {
    forall i, j :: 0 <= i < j < |events| && events[i].ch == events[j].ch == ch && events[i].note == events[j].note ==>
                     Fits(events[i], events[j], open, beat)
  }

  /** One after the other, none starting before the previous one has ended. */
  predicate InTurn(events: seq<Event>) {
    forall i, j :: 0 <= i < j < |events| ==> events[i].tick + events[i].dur <= events[j].tick
  }

  function EventKey(ch: int, pitch: int): Event -> bool { (e: Event) => e.ch == ch && e.note == pitch }

  // ---- The stream seen on one channel and pitch ----

  lemma {:induction false} KeyOfNotes(events: seq<Event>, ch: int, pitch: int)
    requires forall i :: 0 <= i < |events| ==> ValidEvent(events[i])
    ensures Filter(NoteMsgs(events), OfKey(ch, pitch)) == NoteMsgs(Filter(events, EventKey(ch, pitch)))
  {
    if events != [] {
      var e, rest := events[0], events[1..];
      KeyOfNotes(rest, ch, pitch);
      FilterConcat([On(e), Off(e)], NoteMsgs(rest), OfKey(ch, pitch));
      var pair := [On(e), Off(e)];
      assert pair[1..] == [Off(e)] && [Off(e)][1..] == [];
      var f := Filter(rest, EventKey(ch, pitch));
      if EventKey(ch, pitch)(e) {
        assert ([e] + f)[1..] == f;
      } else {
        assert Filter(events, EventKey(ch, pitch)) == f;
      }
    }
  }

  /** The sorted stream, seen on one channel and pitch, is that of its notes alone. */
  lemma {:induction false} StreamOfKey(progs: seq<Timed>, events: seq<Event>, ch: int, pitch: int)
    requires forall i :: 0 <= i < |events| ==> ValidEvent(events[i])
    requires forall x :: x in progs ==> x.msg.Program?
    ensures Filter(Sort(progs + NoteMsgs(events), ByTick()), OfKey(ch, pitch))
         == Sort(NoteMsgs(Filter(events, EventKey(ch, pitch))), ByTick())
  {
    FilterSort(progs + NoteMsgs(events), ByTick(), OfKey(ch, pitch));
    UnseenFront(progs, NoteMsgs(events), OfKey(ch, pitch));
    KeyOfNotes(events, ch, pitch);
  }

  lemma {:induction false} KeyEvents(events: seq<Event>, ch: int, pitch: int)
    requires Playable(events)
    ensures OneKey(Filter(events, EventKey(ch, pitch)), ch, pitch)
  {
    if events != [] {
      var e, rest := events[0], events[1..];
      KeyEvents(rest, ch, pitch);
      var f := Filter(rest, EventKey(ch, pitch));
      if EventKey(ch, pitch)(e) {
        forall j | 0 <= j < |f| ensures e.tick <= f[j].tick {
          FilterMember(rest, EventKey(ch, pitch), f[j]);
          var i: nat :| i < |rest| && rest[i] == f[j];
          assert events[i + 1] == f[j];
        }
        assert Filter(events, EventKey(ch, pitch)) == [e] + f;
      } else {
        assert Filter(events, EventKey(ch, pitch)) == f;
      }
    }
  }

  lemma {:induction false} InTurnSorted(events: seq<Event>)
    requires InTurn(events)
    ensures Sorted(NoteMsgs(events), ByTick())
  {
    NoteMsgsLength(events);
    forall i, j | 0 <= i < j < |NoteMsgs(events)|
      ensures Le(ByTick()(NoteMsgs(events)[i]), ByTick()(NoteMsgs(events)[j]))
    {
      NoteMsgsAt(events, i / 2);
      NoteMsgsAt(events, j / 2);
      if i / 2 < j / 2 {
        assert events[i / 2].tick + events[i / 2].dur <= events[j / 2].tick;
      }
    }
  }

  lemma {:induction false} InTurnAlternates(events: seq<Event>)
    requires forall i :: 0 <= i < |events| ==> ValidEvent(events[i])
    ensures Alternating(NoteMsgs(events)) && |NoteMsgs(events)| == 2 * |events|
  {
    NoteMsgsLength(events);
    var s := NoteMsgs(events);
    forall i | 0 <= i < |s| ensures if i % 2 == 0 then IsOn(s[i].msg) else IsOff(s[i].msg) {
      NoteMsgsAt(events, i / 2);
      assert ValidEvent(events[i / 2]);
    }
  }

  lemma {:induction false} KeyInTurn(events: seq<Event>, ch: int, pitch: int)
    requires Playable(events) && Disjoint(events)
    ensures InTurn(Filter(events, EventKey(ch, pitch)))
    ensures forall i :: 0 <= i < |Filter(events, EventKey(ch, pitch))| ==>
                          ValidEvent(Filter(events, EventKey(ch, pitch))[i])
  {
    var f := Filter(events, EventKey(ch, pitch));
    forall a: nat, b: nat | a < b < |f| ensures f[a].tick + f[a].dur <= f[b].tick {
      var i, j := FilterOrigin(events, EventKey(ch, pitch), a, b);
      assert ValidEvent(events[j]);
    }
    KeyEvents(events, ch, pitch);
  }

  /** On one channel and pitch the sorted stream is on, off, on, off, in the order of the notes. */
  lemma {:induction false} StreamOnKey(progs: seq<Timed>, events: seq<Event>, ch: int, pitch: int)
    requires Playable(events) && Disjoint(events)
    requires forall x :: x in progs ==> x.msg.Program?
    ensures Filter(Sort(progs + NoteMsgs(events), ByTick()), OfKey(ch, pitch))
         == NoteMsgs(Filter(events, EventKey(ch, pitch)))
  {
    KeyOfNotes(events, ch, pitch);
    KeyInTurn(events, ch, pitch);
    InTurnSorted(Filter(events, EventKey(ch, pitch)));
    SortedRestSurvives(progs, NoteMsgs(events), ByTick(), OfKey(ch, pitch));
  }

  // ---- The order of the notes of a channel ----

  function Pitches(ns: seq<Note>): seq<int> {
    if ns == [] then [] else Pitches(ns[..|ns| - 1]) + [ns[|ns| - 1].pitch]
  }

  function OnsOf(ch: int): Timed -> bool { (x: Timed) => x.msg.NoteOn? && x.msg.vel > 0 && x.msg.ch == ch }

  function OnPitches(s: seq<Timed>): seq<int> {
    seq(|s|, i requires 0 <= i < |s| => if s[i].msg.NoteOn? then s[i].msg.note else -1)
  }

  lemma {:induction false} CloseKeepsPitches(ns: seq<Note>, pitch: int, now: int, open: int)
    ensures Pitches(CloseLatest(ns, pitch, now, open)) == Pitches(ns)
  {
    if ns != [] {
      var init, last := ns[..|ns| - 1], ns[|ns| - 1];
      CloseKeepsPitches(init, pitch, now, open);
      assert (init + [last.(dur := now - last.start)])[..|init|] == init;
      var c := CloseLatest(init, pitch, now, open);
      assert (c + [last])[..|c|] == c;
    }
  }

  /** The matcher lists a channel's notes in the order of their note-ons. */
  lemma {:induction false} ScanInOnOrder(s: seq<Timed>, ch: int, open: int, beat: Clock)
    ensures Pitches(ScanNotes(s, ch, open, beat)) == OnPitches(Filter(s, OnsOf(ch)))
  {
    if s != [] {
      var n, x := |s| - 1, s[|s| - 1];
      ScanInOnOrder(s[..n], ch, open, beat);
      FilterSnoc(s, n, OnsOf(ch));
      assert s[..n + 1] == s;
      var before := ScanNotes(s[..n], ch, open, beat);
      if x.msg.ch == ch && IsOn(x.msg) {
        assert (before + [Opened(x, open, beat)])[..|before|] == before;
      } else if x.msg.ch == ch && IsOff(x.msg) {
        CloseKeepsPitches(before, x.msg.note, beat(x.tick), open);
      }
    }
  }

  function Ons(events: seq<Event>, ch: int): seq<Timed> {
    if events == [] then [] else (if events[0].ch == ch then [On(events[0])] else []) + Ons(events[1..], ch)
  }

  lemma {:induction false} OnsOfNotes(events: seq<Event>, ch: int)
    requires forall i :: 0 <= i < |events| ==> ValidEvent(events[i])
    ensures Filter(NoteMsgs(events), OnsOf(ch)) == Ons(events, ch)
  {
    if events != [] {
      var e, rest := events[0], events[1..];
      OnsOfNotes(rest, ch);
      FilterConcat([On(e), Off(e)], NoteMsgs(rest), OnsOf(ch));
      var pair := [On(e), Off(e)];
      assert pair[1..] == [Off(e)] && [Off(e)][1..] == [];
      assert Filter(pair, OnsOf(ch)) == if e.ch == ch then [On(e)] else [];
    }
  }

  lemma {:induction false} OnsSorted(events: seq<Event>, ch: int, from: nat)
    requires forall i, j :: 0 <= i < j < |events| ==> events[i].tick <= events[j].tick
    requires events != [] ==> from <= events[0].tick
    ensures Sorted(Ons(events, ch), ByTick())
    ensures forall i :: 0 <= i < |Ons(events, ch)| ==> from <= Ons(events, ch)[i].tick
  {
    if events != [] {
      OnsSorted(events[1..], ch, events[0].tick);
    }
  }

  lemma {:induction false} OnsMatchNotes(events: seq<Event>, ch: int, beat: Clock)
    requires forall i :: 0 <= i < |events| ==> ValidEvent(events[i])
    ensures |Ons(events, ch)| == |NotesOn(events, ch, beat)|
    ensures forall i :: 0 <= i < |Ons(events, ch)| ==>
                          IsOn(Ons(events, ch)[i].msg)
                          && Ons(events, ch)[i].msg.note == NotesOn(events, ch, beat)[i].pitch
  {
    if events != [] {
      OnsMatchNotes(events[1..], ch, beat);
    }
  }

  lemma {:induction false} PitchesAt(ns: seq<Note>, i: nat)
    requires i < |ns|
    ensures |Pitches(ns)| == |ns| && Pitches(ns)[i] == ns[i].pitch
  {
    PitchesLength(ns);
    if i < |ns| - 1 {
      PitchesAt(ns[..|ns| - 1], i);
    } else {
      PitchesLength(ns[..|ns| - 1]);
    }
  }

  lemma {:induction false} PitchesLength(ns: seq<Note>)
    ensures |Pitches(ns)| == |ns|
  {
    if ns != [] {
      PitchesLength(ns[..|ns| - 1]);
    }
  }

  /** The note-ons of a channel leave the sort in the order the tokens gave them. */
  lemma {:induction false} StreamOns(progs: seq<Timed>, events: seq<Event>, ch: int)
    requires Playable(events)
    requires forall x :: x in progs ==> x.msg.Program?
    ensures Filter(Sort(progs + NoteMsgs(events), ByTick()), OnsOf(ch)) == Ons(events, ch)
  {
    OnsOfNotes(events, ch);
    OnsSorted(events, ch, 0);
    SortedRestSurvives(progs, NoteMsgs(events), ByTick(), OnsOf(ch));
  }

  // ---- Assembling a channel from its pitches ----

  lemma {:induction false} SamePitchOrderSameList(a: seq<Note>, b: seq<Note>)
    requires |a| == |b| && forall i :: 0 <= i < |a| ==> a[i].pitch == b[i].pitch
    requires forall pitch :: Filter(a, OfPitch(pitch)) == Filter(b, OfPitch(pitch))
    ensures a == b
  {
    if a != [] {
      assert Filter(a, OfPitch(a[0].pitch))[0] == a[0];
      assert Filter(b, OfPitch(a[0].pitch))[0] == b[0];
      forall pitch ensures Filter(a[1..], OfPitch(pitch)) == Filter(b[1..], OfPitch(pitch)) {
        var h := if a[0].pitch == pitch then [a[0]] else [];
        assert Filter(a, OfPitch(pitch)) == h + Filter(a[1..], OfPitch(pitch));
        assert Filter(b, OfPitch(pitch)) == h + Filter(b[1..], OfPitch(pitch));
        assert (h + Filter(a[1..], OfPitch(pitch)))[|h|..] == Filter(a[1..], OfPitch(pitch));
        assert (h + Filter(b[1..], OfPitch(pitch)))[|h|..] == Filter(b[1..], OfPitch(pitch));
      }
      SamePitchOrderSameList(a[1..], b[1..]);
    }
  }

  lemma {:induction false} NotesOnPitch(events: seq<Event>, ch: int, pitch: int, beat: Clock)
    ensures Filter(NotesOn(events, ch, beat), OfPitch(pitch)) == AllReported(Filter(events, EventKey(ch, pitch)), beat)
  {
    if events != [] {
      var e, rest := events[0], events[1..];
      NotesOnPitch(rest, ch, pitch, beat);
      var head := if e.ch == ch then [Reported(e, beat)] else [];
      FilterConcat(head, NotesOn(rest, ch, beat), OfPitch(pitch));
    }
  }

  /** Two places of the filtered list come from two places of the list, in the same order. */
  lemma {:induction false} FilterOrigin(events: seq<Event>, p: Event -> bool, a: nat, b: nat) returns (i: nat, j: nat)
    requires a < b < |Filter(events, p)|
    ensures i < j < |events| && events[i] == Filter(events, p)[a] && events[j] == Filter(events, p)[b]
    ensures p(events[i]) && p(events[j])
  {
    var rest, f := events[1..], Filter(events[1..], p);
    if !p(events[0]) {
      assert Filter(events, p) == f;
      i, j := FilterOrigin(rest, p, a, b);
      i, j := i + 1, j + 1;
    } else if a > 0 {
      i, j := FilterOrigin(rest, p, a - 1, b - 1);
      i, j := i + 1, j + 1;
    } else {
      FilterMember(rest, p, f[b - 1]);
      var k: nat :| k < |rest| && rest[k] == f[b - 1];
      i, j := 0, k + 1;
    }
  }

  lemma {:induction false} FitByPitch(events: seq<Event>, ch: int, open: int, beat: Clock)
    ensures FitOn(events, ch, open, beat) <==>
            forall pitch :: AllFit(Filter(events, EventKey(ch, pitch)), open, beat)
  {
    forall pitch, a: nat, b: nat | FitOn(events, ch, open, beat) && a < b < |Filter(events, EventKey(ch, pitch))|
      ensures Fits(Filter(events, EventKey(ch, pitch))[a], Filter(events, EventKey(ch, pitch))[b], open, beat)
    {
      var i, j := FilterOrigin(events, EventKey(ch, pitch), a, b);
    }
    forall i: nat, j: nat | i < j < |events| && events[i].ch == events[j].ch == ch && events[i].note == events[j].note
                            && forall pitch :: AllFit(Filter(events, EventKey(ch, pitch)), open, beat)
      ensures Fits(events[i], events[j], open, beat)
    {
      var a, b := FilterOrder(events, EventKey(ch, events[i].note), i, j);
      assert AllFit(Filter(events, EventKey(ch, events[i].note)), open, beat);
    }
  }

  lemma {:induction false} KeyRoundTrip(progs: seq<Timed>, events: seq<Event>, ch: int, pitch: int, open: int,
                                        beat: Clock)
    requires Playable(events) && Ascending(beat)
    requires forall x :: x in progs ==> x.msg.Program?
    ensures Filter(ScanNotes(Sort(progs + NoteMsgs(events), ByTick()), ch, open, beat), OfPitch(pitch))
            == Filter(NotesOn(events, ch, beat), OfPitch(pitch))
            <==> AllFit(Filter(events, EventKey(ch, pitch)), open, beat)
  {
    StreamOfKey(progs, events, ch, pitch);
    ScanOnPitch(Sort(progs + NoteMsgs(events), ByTick()), ch, pitch, open, beat);
    NotesOnPitch(events, ch, pitch, beat);
    KeyEvents(events, ch, pitch);
    KeyExactly(Filter(events, EventKey(ch, pitch)), ch, pitch, open, beat);
  }

  lemma {:induction false} SameNotesByPitch(progs: seq<Timed>, events: seq<Event>, ch: int, open: int, beat: Clock)
    requires Playable(events)
    requires forall x :: x in progs ==> x.msg.Program?
    ensures var got := ScanNotes(Sort(progs + NoteMsgs(events), ByTick()), ch, open, beat);
            got == NotesOn(events, ch, beat)
            <==> forall pitch :: Filter(got, OfPitch(pitch)) == Filter(NotesOn(events, ch, beat), OfPitch(pitch))
  {
    var s := Sort(progs + NoteMsgs(events), ByTick());
    var got, want := ScanNotes(s, ch, open, beat), NotesOn(events, ch, beat);
    ScanInOnOrder(s, ch, open, beat);
    StreamOns(progs, events, ch);
    OnsMatchNotes(events, ch, beat);
    PitchesLength(got);
    forall i | 0 <= i < |got| ensures got[i].pitch == want[i].pitch {
      PitchesAt(got, i);
    }
    if forall pitch :: Filter(got, OfPitch(pitch)) == Filter(want, OfPitch(pitch)) {
      SamePitchOrderSameList(got, want);
    }
  }

  /**
   The matcher, run on the sorted stream, returns the notes of a channel exactly if they fit: at the end of
   each no later note of its pitch looks open, or the two began together and it makes no difference.
   */
  lemma {:induction false} ChannelExactly(progs: seq<Timed>, events: seq<Event>, ch: int, open: int, beat: Clock)
    requires Playable(events) && Ascending(beat)
    requires forall x :: x in progs ==> x.msg.Program?
    ensures ScanNotes(Sort(progs + NoteMsgs(events), ByTick()), ch, open, beat) == NotesOn(events, ch, beat)
            <==> FitOn(events, ch, open, beat)
  {
    SameNotesByPitch(progs, events, ch, open, beat);
    FitByPitch(events, ch, open, beat);
    forall pitch
      ensures Filter(ScanNotes(Sort(progs + NoteMsgs(events), ByTick()), ch, open, beat), OfPitch(pitch))
              == Filter(NotesOn(events, ch, beat), OfPitch(pitch))
              <==> AllFit(Filter(events, EventKey(ch, pitch)), open, beat)
    {
      KeyRoundTrip(progs, events, ch, pitch, open, beat);
    }
  }

  /** Disjoint notes fit. */
  lemma {:induction false} ChannelRoundTrip(progs: seq<Timed>, events: seq<Event>, ch: int, open: int, beat: Clock)
    requires Playable(events) && Disjoint(events) && Ascending(beat)
    requires forall x :: x in progs ==> x.msg.Program?
    ensures ScanNotes(Sort(progs + NoteMsgs(events), ByTick()), ch, open, beat) == NotesOn(events, ch, beat)
  {
    forall i, j | 0 <= i < j < |events| && events[i].ch == events[j].ch == ch && events[i].note == events[j].note
      ensures Fits(events[i], events[j], open, beat) {
      assert ValidEvent(events[j]);
    }
    ChannelExactly(progs, events, ch, open, beat);
  }

  // ---- The whole way ----

  /** The channel messages of a file, as the parser meets them. */
  function Messages(items: seq<Item>): seq<Timed> {
    if items == [] then []
    else (if items[0].ev.Voice? then [Timed(items[0].tick, items[0].ev.msg)] else []) + Messages(items[1..])
  }

  lemma {:induction false} MessagesOfVoices(evs: seq<Timed>)
    ensures Messages(Voices(evs)) == evs
  {
    if evs != [] {
      MessagesOfVoices(evs[1..]);
      assert Voices(evs)[1..] == Voices(evs[1..]);
    }
  }

  lemma {:induction false} MessagesSkipMeta(item: Item, items: seq<Item>)
    requires item.ev.Meta?
    ensures Messages([item] + items) == Messages(items)
  {
    assert ([item] + items)[1..] == items;
  }

  lemma {:induction false} FileMessages(us: nat, evs: seq<Timed>)
    requires Writable(evs) && FileBytes(us, evs).Some?
    ensures ReadFile(FileBytes(us, evs).value).Some?
    ensures Messages(ReadFile(FileBytes(us, evs).value).value.items) == evs
  {
    ReadsBack(us, evs);
    MessagesSkipMeta(Item(0, Meta(0x51, BigEndian(us, 4)[1..])), Voices(evs));
    MessagesOfVoices(evs);
  }

  /** What the parser finds on a channel of a file. */
  function ParsedNotes(file: seq<byte>, ch: int, open: int, beat: Clock): Option<seq<Note>> {
    match ReadFile(file)
    case None => None
    case Some(f) => Some(ScanNotes(Messages(f.items), ch, open, beat))
  }

  /** The parser finds in the file what its matcher finds in the stream. */
  lemma {:induction false} ParsedIsScanned(tokens: seq<int>, tempo: nat, toTicks: nat -> nat, ch: int, open: int,
                                           beat: Clock)
    requires 1 <= tempo <= 60_000_000 && Monotone(toTicks)
    ensures Compiled(tokens, tempo, toTicks).Some? ==>
              ParsedNotes(Compiled(tokens, tempo, toTicks).value, ch, open, beat)
              == Some(ScanNotes(Stream(tokens, toTicks), ch, open, beat))
  {
    StreamWritable(tokens, toTicks);
    if Compiled(tokens, tempo, toTicks).Some? {
      FileMessages(60_000_000 / tempo, Stream(tokens, toTicks));
    }
  }

  /**
   Round trip, exactly: reading the file back and matching its note-ons and note-offs gives, on a channel, the
   decoded notes in their order if and only if they fit.
   */
  lemma {:induction false} TokensExactly(tokens: seq<int>, tempo: nat, toTicks: nat -> nat, ch: int, open: int,
                                         beat: Clock)
    requires 1 <= tempo <= 60_000_000 && Monotone(toTicks) && Ascending(beat)
    ensures Compiled(tokens, tempo, toTicks).Some? ==>
              var events := Played(Decode(tokens, toTicks));
              ParsedNotes(Compiled(tokens, tempo, toTicks).value, ch, open, beat) == Some(NotesOn(events, ch, beat))
              <==> FitOn(events, ch, open, beat)
  {
    DecodeValid(tokens, toTicks);
    ParsedIsScanned(tokens, tempo, toTicks, ch, open, beat);
    ChannelExactly(Decode(tokens, toTicks).progs, Played(Decode(tokens, toTicks)), ch, open, beat);
  }

  /** So it does whenever the notes do not overlap on a channel and pitch, whatever marks an open note. */
  lemma {:induction false} TokensRoundTrip(tokens: seq<int>, tempo: nat, toTicks: nat -> nat, ch: int, open: int,
                                           beat: Clock)
    requires 1 <= tempo <= 60_000_000 && Monotone(toTicks) && Ascending(beat)
    requires Disjoint(Decode(tokens, toTicks).events)
    ensures Compiled(tokens, tempo, toTicks).Some? ==>
              ParsedNotes(Compiled(tokens, tempo, toTicks).value, ch, open, beat)
              == Some(NotesOn(Played(Decode(tokens, toTicks)), ch, beat))
  {
    DecodeValid(tokens, toTicks);
    ParsedIsScanned(tokens, tempo, toTicks, ch, open, beat);
    ChannelRoundTrip(Decode(tokens, toTicks).progs, Played(Decode(tokens, toTicks)), ch, open, beat);
  }

  // ---- The clocks of the parsers ----

  /** Beats rounded to `1 / units`, of a file with `division` ticks to a beat. */
  function RoundedBeats(units: nat, division: nat): Clock
    requires division > 0
  {
    (tick: nat) => RoundHalfEven(tick * units, division)
  }

  /** Two ticks never share a beat as long as the grid is finer than the ticks. */
  lemma {:induction false} RoundedBeatsAscend(units: nat, division: nat)
    requires 0 < division < units
    ensures Ascending(RoundedBeats(units, division))
  {
    forall a: nat, b: nat | a < b ensures RoundHalfEven(a * units, division) < RoundHalfEven(b * units, division) {
      RoundIsNear(a * units, division);
      RoundIsNear(b * units, division);
      ProductOrder(a + 1, b, units);
      assert (a + 1) * units == a * units + units;
      MulOrder(RoundHalfEven(b * units, division), RoundHalfEven(a * units, division), division);
    }
  }

  // ---- Where it fails ----

  /** At 125 beats a minute a tick is a millisecond. */
  function Millis(): nat -> nat { (ms: nat) => ms }

  /** A patch token for pitch 60, then two notes, the second after a time token. */
  function TwoNotes(dur1: nat, wait: nat, dur2: nat): seq<int> {
    [PATCH_BASE + 60, DUR_BASE + 8 * dur1, wait, DUR_BASE + 8 * dur2]
  }

  function TwoEvents(dur1: nat, wait: nat, dur2: nat): seq<Event> {
    [Event(0, 0, 60, 15, 16 * dur1, 0), Event(16 * wait, 0, 60, 15, 16 * dur2, 0)]
  }

  lemma {:induction false} TwoNotesDecoded(dur1: nat, wait: nat, dur2: nat)
    requires 1 <= dur1 < 256 && 1 <= dur2 < 256 && wait < 256
    ensures Decode(TwoNotes(dur1, wait, dur2), Millis()).events == TwoEvents(dur1, wait, dur2)
    ensures |Decode(TwoNotes(dur1, wait, dur2), Millis()).progs| == 1
    ensures Decode(TwoNotes(dur1, wait, dur2), Millis()).progs[0] == Timed(0, Program(0, 0))
  {
    var t := TwoNotes(dur1, wait, dur2);
    assert t[..3] == [t[0], t[1], t[2]] && t[..2] == [t[0], t[1]] && t[..1] == [t[0]];
    assert t[..3][..2] == t[..2] && t[..2][..1] == t[..1] && t[..1][..0] == [];
    var d1 := Decode(t[..1], Millis());
    assert t[..1][|t[..1]| - 1] == PATCH_BASE + 60 && t[..1][..|t[..1]| - 1] == [];
    assert Decode([], Millis()) == Start();
    assert d1 == PatchStep(Start(), PATCH_BASE + 60, Millis());
    FirstPatch();
    var d2 := Decode(t[..2], Millis());
    assert d2 == Step(d1, DUR_BASE + 8 * dur1, Millis());
    var d3 := Decode(t[..3], Millis());
    assert d3 == Step(d2, wait, Millis());
    assert Decode(t, Millis()) == Step(d3, DUR_BASE + 8 * dur2, Millis());
  }

  lemma {:induction false} FirstPatch()
    ensures var d := PatchStep(Start(), PATCH_BASE + 60, Millis());
            d.channel == 0 && d.pitch == 60 && d.patch == 0 && d.timeMs == 0 && d.events == []
            && d.progs == [Timed(0, Program(0, 0))]
  {
    assert Start().channels[0] == 0 && Start().patches[0] == -1;
    assert forall i :: 0 <= i < 16 ==> Start().patches[i] == -1;
  }

  lemma {:induction false} TwoNotesCompiled(dur1: nat, wait: nat, dur2: nat)
    requires 1 <= dur1 < 256 && 1 <= dur2 < 256 && wait < 256
    ensures Compiled(TwoNotes(dur1, wait, dur2), 125, Millis()).Some?
  {
    var t := TwoNotes(dur1, wait, dur2);
    var d := Decode(t, Millis());
    TwoNotesDecoded(dur1, wait, dur2);
    StreamWritable(t, Millis());
    SortPermutes(Unsorted(d), ByTick());
    NoteMsgsLength(d.events);
    forall i | 0 <= i < |Stream(t, Millis())| ensures Stream(t, Millis())[i].tick < 0x1000_0000 {
      SortMember(Unsorted(d), ByTick(), Stream(t, Millis())[i]);
      TwoNotesTicks(dur1, wait, dur2, Stream(t, Millis())[i]);
    }
    FileFits(60_000_000 / 125, Stream(t, Millis()));
  }

  lemma {:induction false} TwoNotesTicks(dur1: nat, wait: nat, dur2: nat, x: Timed)
    requires 1 <= dur1 < 256 && 1 <= dur2 < 256 && wait < 256
    requires x in Unsorted(Decode(TwoNotes(dur1, wait, dur2), Millis()))
    ensures x.tick < 10_000
  {
    TwoNotesDecoded(dur1, wait, dur2);
    var e := TwoEvents(dur1, wait, dur2);
    assert e[1..] == [e[1]] && e[1..][1..] == [];
    assert NoteMsgs(e) == [On(e[0]), Off(e[0])] + ([On(e[1]), Off(e[1])] + NoteMsgs([]));
  }

  /** Two notes of one pitch come back from the file exactly if they fit. */
  lemma {:induction false} TwoNotesExactly(dur1: nat, wait: nat, dur2: nat, open: int, beat: Clock)
    requires 1 <= dur1 < 256 && 1 <= dur2 < 256 && wait < 256 && Ascending(beat)
    ensures var t := TwoNotes(dur1, wait, dur2);
            var e := TwoEvents(dur1, wait, dur2);
            Compiled(t, 125, Millis()).Some?
            && (ParsedNotes(Compiled(t, 125, Millis()).value, 0, open, beat) == Some(NotesOn(e, 0, beat))
                <==> Fits(e[0], e[1], open, beat))
  {
    TwoNotesDecoded(dur1, wait, dur2);
    TwoNotesCompiled(dur1, wait, dur2);
    TokensExactly(TwoNotes(dur1, wait, dur2), 125, Millis(), 0, open, beat);
  }

  /** Two notes of 128 ticks that cross, the second 80 ticks after the first: each gets the other's end. */
  lemma {:induction false} OverlapSwapsEnds(open: int, beat: Clock)
    requires Ascending(beat) && open != beat(128) - beat(80)
    ensures Compiled(TwoNotes(8, 5, 8), 125, Millis()).Some?
    ensures ParsedNotes(Compiled(TwoNotes(8, 5, 8), 125, Millis()).value, 0, open, beat)
         == Some([Note(60, beat(0), beat(208) - beat(0), 15), Note(60, beat(80), beat(128) - beat(80), 15)])
    ensures NotesOn(TwoEvents(8, 5, 8), 0, beat)
         == [Note(60, beat(0), beat(128) - beat(0), 15), Note(60, beat(80), beat(208) - beat(80), 15)]
  {
    TwoNotesCompiled(8, 5, 8);
    ParsedIsScanned(TwoNotes(8, 5, 8), 125, Millis(), 0, open, beat);
    CrossingStream();
    CrossingScan(open, beat);
    CrossingNotes(beat);
  }

  /** The same in the beats of the parser, in thousandths: the notes are said to last 433 and 100, not 267 and 266. */
  lemma {:induction false} OverlapInBeats(beat: Clock)
    requires beat == RoundedBeats(1000, TICKS_PER_BEAT)
    ensures Compiled(TwoNotes(8, 5, 8), 125, Millis()).Some?
    ensures ParsedNotes(Compiled(TwoNotes(8, 5, 8), 125, Millis()).value, 0, 500, beat)
         == Some([Note(60, 0, 433, 15), Note(60, 167, 100, 15)])
    ensures NotesOn(TwoEvents(8, 5, 8), 0, beat) == [Note(60, 0, 267, 15), Note(60, 167, 266, 15)]
  {
    CrossingBeats(beat);
    OverlapSwapsEnds(500, beat);
  }

  lemma {:induction false} CrossingBeats(beat: Clock)
    requires beat == RoundedBeats(1000, TICKS_PER_BEAT)
    ensures Ascending(beat) && beat(128) - beat(80) == 100
    ensures [Note(60, beat(0), beat(208) - beat(0), 15), Note(60, beat(80), beat(128) - beat(80), 15)]
         == [Note(60, 0, 433, 15), Note(60, 167, 100, 15)]
    ensures [Note(60, beat(0), beat(128) - beat(0), 15), Note(60, beat(80), beat(208) - beat(80), 15)]
         == [Note(60, 0, 267, 15), Note(60, 167, 266, 15)]
  {
    RoundedBeatsAscend(1000, TICKS_PER_BEAT);
    assert RoundHalfEven(80 * 1000, 480) == 167 && RoundHalfEven(128 * 1000, 480) == 267;
    assert RoundHalfEven(208 * 1000, 480) == 433;
  }

  lemma {:induction false} CrossingNotes(beat: Clock)
    ensures NotesOn(TwoEvents(8, 5, 8), 0, beat)
         == [Note(60, beat(0), beat(128) - beat(0), 15), Note(60, beat(80), beat(208) - beat(80), 15)]
  {
    var e := TwoEvents(8, 5, 8);
    assert e[1..] == [e[1]] && e[1..][1..] == [];
    assert NotesOn(e[1..], 0, beat) == [Reported(e[1], beat)];
  }

  const TUNE := Timed(0, Program(0, 0))
  const ON_1 := Timed(0, NoteOn(0, 60, 15))
  const ON_2 := Timed(80, NoteOn(0, 60, 15))
  const OFF_1 := Timed(128, NoteOff(0, 60, 0))
  const OFF_2 := Timed(208, NoteOff(0, 60, 0))

  lemma {:induction false} CrossingStream()
    ensures Stream(TwoNotes(8, 5, 8), Millis()) == [TUNE, ON_1, ON_2, OFF_1, OFF_2]
  {
    TwoNotesDecoded(8, 5, 8);
    CrossingMsgs();
    CrossingSorted();
    assert [TUNE] + [ON_1, OFF_1, ON_2, OFF_2] == [TUNE, ON_1, OFF_1, ON_2, OFF_2];
  }

  lemma {:induction false} CrossingMsgs()
    ensures NoteMsgs(TwoEvents(8, 5, 8)) == [ON_1, OFF_1, ON_2, OFF_2]
  {
    var e := TwoEvents(8, 5, 8);
    assert e[1..] == [e[1]] && e[1..][1..] == [];
    assert NoteMsgs(e[1..]) == [ON_2, OFF_2] + NoteMsgs([]);
  }

  lemma {:induction false} CrossingSorted()
    ensures Sort([TUNE, ON_1, OFF_1, ON_2, OFF_2], ByTick()) == [TUNE, ON_1, ON_2, OFF_1, OFF_2]
  {
    assert [TUNE, ON_1, OFF_1, ON_2, OFF_2][1..] == [ON_1, OFF_1, ON_2, OFF_2];
    assert [ON_1, OFF_1, ON_2, OFF_2][1..] == [OFF_1, ON_2, OFF_2] && [OFF_1, ON_2, OFF_2][1..] == [ON_2, OFF_2];
    SortFixesSorted([ON_2, OFF_2], ByTick());
    assert [ON_2, OFF_2][1..] == [OFF_2];
    assert Insert(OFF_1, [OFF_2], ByTick()) == [OFF_1, OFF_2];
    assert Insert(OFF_1, [ON_2, OFF_2], ByTick()) == [ON_2, OFF_1, OFF_2];
    assert Sort([OFF_1, ON_2, OFF_2], ByTick()) == [ON_2, OFF_1, OFF_2];
    assert Sort([ON_1, OFF_1, ON_2, OFF_2], ByTick()) == [ON_1] + [ON_2, OFF_1, OFF_2];
    assert [TUNE] + ([ON_1] + [ON_2, OFF_1, OFF_2]) == [TUNE, ON_1, ON_2, OFF_1, OFF_2];
  }

  /** The list of notes before and after a message is read. */
  lemma ScanReads(s: seq<Timed>, x: Timed, t: seq<Timed>, before: seq<Note>, after: seq<Note>, open: int, beat: Clock)
    requires t == s + [x] && ScanNotes(s, 0, open, beat) == before && ScanStep(before, x, 0, open, beat) == after
    ensures ScanNotes(t, 0, open, beat) == after
  {
    ScanSnoc(s, x, 0, open, beat);
  }

  lemma {:induction false} CrossingScan(open: int, beat: Clock)
    requires open != beat(128) - beat(80)
    ensures ScanNotes([TUNE, ON_1, ON_2, OFF_1, OFF_2], 0, open, beat)
         == [Note(60, beat(0), beat(208) - beat(0), 15), Note(60, beat(80), beat(128) - beat(80), 15)]
  {
    var a, b := Note(60, beat(0), open, 15), Note(60, beat(80), open, 15);
    var closed := Note(60, beat(80), beat(128) - beat(80), 15);
    ScanReads([], TUNE, [TUNE], [], [], open, beat);
    ScanReads([TUNE], ON_1, [TUNE, ON_1], [], [a], open, beat);
    ScanReads([TUNE, ON_1], ON_2, [TUNE, ON_1, ON_2], [a], [a, b], open, beat);
    CloseSecond(a, b, beat(128), open);
    ScanReads([TUNE, ON_1, ON_2], OFF_1, [TUNE, ON_1, ON_2, OFF_1], [a, b], [a, closed], open, beat);
    CloseFirst(a, closed, beat(208), open);
    ScanReads([TUNE, ON_1, ON_2, OFF_1], OFF_2, [TUNE, ON_1, ON_2, OFF_1, OFF_2], [a, closed],
              [a.(dur := beat(208) - beat(0)), closed], open, beat);
  }

  lemma CloseSecond(a: Note, b: Note, now: int, open: int)
    requires b.pitch == 60 && b.dur == open
    ensures CloseLatest([a, b], 60, now, open) == [a, b.(dur := now - b.start)]
  {
    ClosePush([a], b, 60, now, open);
    assert [a] + [b] == [a, b];
  }

  lemma CloseFirst(a: Note, b: Note, now: int, open: int)
    requires a.pitch == 60 && a.dur == open && b.dur != open
    ensures CloseLatest([a, b], 60, now, open) == [a.(dur := now - a.start), b]
  {
    ClosePush([a], b, 60, now, open);
    ClosePush([], a, 60, now, open);
    assert [a] + [b] == [a, b] && [] + [a] == [a];
  }

  /**
   A note of half a beat inside a longer one: finished it looks open, and takes the end of the longer one. The
   beats are those of the parser, in thousandths.
   */
  lemma {:induction false} SentinelSteals()
    ensures var e := TwoEvents(32, 1, 15);
            e[0].tick < e[1].tick && e[1].tick + e[1].dur < e[0].tick + e[0].dur
    ensures Compiled(TwoNotes(32, 1, 15), 125, Millis()).Some?
    ensures ParsedNotes(Compiled(TwoNotes(32, 1, 15), 125, Millis()).value, 0, 500, RoundedBeats(1000, TICKS_PER_BEAT))
         != Some(NotesOn(TwoEvents(32, 1, 15), 0, RoundedBeats(1000, TICKS_PER_BEAT)))
  {
    RoundedBeatsAscend(1000, TICKS_PER_BEAT);
    TwoNotesExactly(32, 1, 15, 500, RoundedBeats(1000, TICKS_PER_BEAT));
    assert RoundHalfEven(16 * 1000, 480) == 33 && RoundHalfEven(256 * 1000, 480) == 533;
  }
}
