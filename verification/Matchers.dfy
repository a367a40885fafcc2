/**
 The two ways the repository pairs note-ons with note-offs.

 `parse_midi_to_notes` gives an open note the duration `open` (half a beat) and lets a note-off close the
 latest note of its pitch that has this duration, so a finished note of that length looks open too.
 `analyze_midi._parse_midi` keeps the open notes in a dictionary. `PairUp` is what both should compute.

 A clock turns ticks into the rounded beats of a parser: thousandths in the one, ten-thousandths in the other.
 */
module Matchers {
  import opened Smf
  import opened Sorting

  datatype Note = Note(pitch: int, start: int, dur: int, vel: int)

  /** The beat of a tick, as an integer on the grid the parser rounds to. */
  type Clock = nat -> int

  predicate IsOn(m: Msg) { m.NoteOn? && m.vel > 0 }

  predicate IsOff(m: Msg) { m.NoteOff? || (m.NoteOn? && m.vel == 0) }

  function Opened(x: Timed, dur: int, beat: Clock): Note
    requires x.msg.NoteOn?
  {
    Note(x.msg.note, beat(x.tick), dur, x.msg.vel)
  }

  // ---- The sentinel matcher ----

  /** Closes the latest note of this pitch that looks open; nothing happens when there is none. */
  function CloseLatest(ns: seq<Note>, pitch: int, now: int, open: int): seq<Note> {
    if ns == [] then []
    else
      var init, last := ns[..|ns| - 1], ns[|ns| - 1];
      if last.pitch == pitch && last.dur == open then init + [last.(dur := now - last.start)]
      else CloseLatest(init, pitch, now, open) + [last]
  }

  function ScanStep(ns: seq<Note>, x: Timed, ch: int, open: int, beat: Clock): seq<Note> {
    if x.msg.ch != ch then ns
    else if IsOn(x.msg) then ns + [Opened(x, open, beat)]
    else if IsOff(x.msg) then CloseLatest(ns, x.msg.note, beat(x.tick), open)
    else ns
  }

  /** The notes `parse_midi_to_notes` collects for one channel. */
  function ScanNotes(s: seq<Timed>, ch: int, open: int, beat: Clock): seq<Note> {
    if s == [] then []
    else ScanStep(ScanNotes(s[..|s| - 1], ch, open, beat), s[|s| - 1], ch, open, beat)
  }

  lemma ScanSnoc(s: seq<Timed>, x: Timed, ch: int, open: int, beat: Clock)
    ensures ScanNotes(s + [x], ch, open, beat) == ScanStep(ScanNotes(s, ch, open, beat), x, ch, open, beat)
  {
    assert (s + [x])[..|s + [x]| - 1] == s;
  }

  /** The reversed search loop. */
  method CloseInList(ns: seq<Note>, pitch: int, now: int, open: int) returns (r: seq<Note>)
    ensures r == CloseLatest(ns, pitch, now, open)
  {
    var j := |ns|;
    assert ns[..j] == ns;
    while j > 0
      invariant 0 <= j <= |ns|
      invariant CloseLatest(ns, pitch, now, open) == CloseLatest(ns[..j], pitch, now, open) + ns[j..]
    {
      var note := ns[j - 1];
      assert ns[..j][..j - 1] == ns[..j - 1];
      if note.pitch == pitch && note.dur == open {
        return ns[j - 1 := note.(dur := now - note.start)];
      }
      j := j - 1;
    }
    return ns;
  }

  /** The tracks of a file one after the other. Ticks start again with each track. */
  function Flatten(tracks: seq<seq<Timed>>): seq<Timed> {
    if tracks == [] then [] else Flatten(tracks[..|tracks| - 1]) + tracks[|tracks| - 1]
  }

  /** The dictionary of notes holds what was scanned so far. */
  ghost predicate Collected(notes: map<int, seq<Note>>, s: seq<Timed>, open: int, beat: Clock) {
    forall ch :: (if ch in notes then notes[ch] else []) == ScanNotes(s, ch, open, beat)
  }

  /** One message, filed under its channel. */
  method ParseMessage(notes: map<int, seq<Note>>, x: Timed, open: int, beat: Clock) returns (r: map<int, seq<Note>>)
    ensures forall ch :: (if ch in r then r[ch] else [])
                      == ScanStep(if ch in notes then notes[ch] else [], x, ch, open, beat)
  {
    r := notes;
    var ch := x.msg.ch;
    if IsOn(x.msg) {
      r := r[ch := (if ch in r then r[ch] else []) + [Opened(x, open, beat)]];
    } else if IsOff(x.msg) {
      if ch in r {
        var closed := CloseInList(r[ch], x.msg.note, beat(x.tick), open);
        r := r[ch := closed];
      }
    }
  }

  /** The parser's loops over tracks and messages: the dictionary lives on from track to track. */
  method ParseNotes(tracks: seq<seq<Timed>>, open: int, beat: Clock) returns (notes: map<int, seq<Note>>)
    ensures Collected(notes, Flatten(tracks), open, beat)
  {
    notes := map[];
    for t := 0 to |tracks|
      invariant Collected(notes, Flatten(tracks[..t]), open, beat)
    {
      var track := tracks[t];
      ghost var before := Flatten(tracks[..t]);
      assert before + track[..0] == before;
      for i := 0 to |track|
        invariant Collected(notes, before + track[..i], open, beat)
      {
        notes := ParseMessage(notes, track[i], open, beat);
        assert before + track[..i + 1] == (before + track[..i]) + [track[i]];
        forall ch {
          ScanSnoc(before + track[..i], track[i], ch, open, beat);
        }
      }
      assert track[..|track|] == track && tracks[..t + 1][..t] == tracks[..t];
    }
    assert tracks[..|tracks|] == tracks;
  }

  // ---- The pending matcher ----

  datatype Pending = Pending(open: map<(int, int), (int, int)>, notes: seq<(int, Note)>)

  function PendingStep(p: Pending, x: Timed, beat: Clock): Pending {
    if IsOn(x.msg) then p.(open := p.open[(x.msg.ch, x.msg.note) := (beat(x.tick), x.msg.vel)])
    else if IsOff(x.msg) && (x.msg.ch, x.msg.note) in p.open then
      var key := (x.msg.ch, x.msg.note);
      var (start, vel) := p.open[key];
      Pending(p.open - {key}, p.notes + [(x.msg.ch, Note(x.msg.note, start, beat(x.tick) - start, vel))])
    else p
  }

  /** The dictionary and the notes of `_parse_midi` after the messages of one track. */
  function PendingRun(s: seq<Timed>, beat: Clock): Pending {
    if s == [] then Pending(map[], []) else PendingStep(PendingRun(s[..|s| - 1], beat), s[|s| - 1], beat)
  }

  datatype TrackNotes = TrackNotes(track: nat, notes: seq<(int, Note)>)

  /** The notes of a file: those of each track, with its index. Notes still open at its end are dropped. */
  function PendingNotes(tracks: seq<seq<Timed>>, beat: Clock): seq<TrackNotes> {
    seq(|tracks|, t requires 0 <= t < |tracks| => TrackNotes(t, PendingRun(tracks[t], beat).notes))
  }

  method ParsePending(tracks: seq<seq<Timed>>, beat: Clock) returns (notes: seq<TrackNotes>)
    ensures notes == PendingNotes(tracks, beat)
  {
    notes := [];
    for t := 0 to |tracks|
      invariant notes == PendingNotes(tracks, beat)[..t]
    {
      var trackNotes := ParsePendingTrack(tracks[t], beat);
      notes := notes + [TrackNotes(t, trackNotes)];
    }
  }

  /** One track, with a dictionary of its own. */
  method ParsePendingTrack(s: seq<Timed>, beat: Clock) returns (notes: seq<(int, Note)>)
    ensures notes == PendingRun(s, beat).notes
  {
    var pending: map<(int, int), (int, int)> := map[];
    notes := [];
    for i := 0 to |s|
      invariant Pending(pending, notes) == PendingRun(s[..i], beat)
    {
      var x := s[i];
      assert s[..i + 1][..i] == s[..i];
      if IsOn(x.msg) {
        pending := pending[(x.msg.ch, x.msg.note) := (beat(x.tick), x.msg.vel)];
      } else if IsOff(x.msg) {
        var key := (x.msg.ch, x.msg.note);
        if key in pending {
          var (start, vel) := pending[key];
          pending := pending - {key};
          notes := notes + [(x.msg.ch, Note(x.msg.note, start, beat(x.tick) - start, vel))];
        }
      }
    }
    assert s[..|s|] == s;
  }

  function ChannelNotes(notes: seq<(int, Note)>, ch: int): seq<Note> {
    if notes == [] then []
    else ChannelNotes(notes[..|notes| - 1], ch) +
         if notes[|notes| - 1].0 == ch then [notes[|notes| - 1].1] else []
  }

  // ---- A note-on of velocity 0 ----

  function AsOff(x: Timed): Timed {
    match x.msg
    case NoteOn(ch, note, vel) => if vel == 0 then Timed(x.tick, NoteOff(ch, note, 0)) else x
    case NoteOff(_, _, _) => x
    case Program(_, _) => x
  }

  function AllAsOffs(s: seq<Timed>): (r: seq<Timed>)
    ensures |r| == |s|
  {
    seq(|s|, i requires 0 <= i < |s| => AsOff(s[i]))
  }

  /** Both matchers take it for a note-off. */
  lemma {:induction false} SilentOnIsOff(s: seq<Timed>, ch: int, open: int, beat: Clock)
    requires forall x :: x in s && x.msg.NoteOn? ==> x.msg.vel >= 0
    ensures ScanNotes(AllAsOffs(s), ch, open, beat) == ScanNotes(s, ch, open, beat)
    ensures PendingRun(AllAsOffs(s), beat) == PendingRun(s, beat)
  {
    if s != [] {
      var n := |s| - 1;
      SilentOnIsOff(s[..n], ch, open, beat);
      assert AllAsOffs(s)[..n] == AllAsOffs(s[..n]) && s[n] in s;
    }
  }

  // ---- What they should compute ----

  /** The note messages of one channel and pitch. */
  predicate IsKey(x: Timed, ch: int, pitch: int) {
    (IsOn(x.msg) || IsOff(x.msg)) && x.msg.ch == ch && x.msg.note == pitch
  }

  function OfKey(ch: int, pitch: int): Timed -> bool { (x: Timed) => IsKey(x, ch, pitch) }

  function OfPitch(pitch: int): Note -> bool { (n: Note) => n.pitch == pitch }

  /** On, off, on, off: on one channel and pitch no note starts before the previous one has ended. */
  predicate Alternating(s: seq<Timed>) {
    forall i :: 0 <= i < |s| ==> if i % 2 == 0 then IsOn(s[i].msg) else IsOff(s[i].msg)
  }

  /** Each on with the off that follows it; a last on without an off is still open. */
  function PairUp(s: seq<Timed>, open: int, beat: Clock): seq<Note>
    requires Alternating(s)
  {
    seq((|s| + 1) / 2, k requires 0 <= k < (|s| + 1) / 2 =>
      Opened(s[2 * k], if 2 * k + 1 < |s| then beat(s[2 * k + 1].tick) - beat(s[2 * k].tick) else open, beat))
  }

  lemma AlternatingPrefix(s: seq<Timed>, n: nat)
    requires Alternating(s) && n <= |s|
    ensures Alternating(s[..n])
  {
  }

  /** A further on is one more open note. */
  lemma {:induction false} PairUpOn(s: seq<Timed>, open: int, beat: Clock)
    requires s != [] && Alternating(s) && IsOn(s[|s| - 1].msg)
    ensures Alternating(s[..|s| - 1])
    ensures PairUp(s, open, beat) == PairUp(s[..|s| - 1], open, beat) + [Opened(s[|s| - 1], open, beat)]
  {
    AlternatingPrefix(s, |s| - 1);
    assert (|s| - 1) % 2 == 0;
  }

  /** A further off finishes the open note. */
  lemma {:induction false} PairUpOff(s: seq<Timed>, open: int, beat: Clock) returns (before: seq<Note>, n: Note)
    requires s != [] && Alternating(s) && !IsOn(s[|s| - 1].msg)
    ensures Alternating(s[..|s| - 1])
    ensures PairUp(s[..|s| - 1], open, beat) == before + [n] && n.dur == open
    ensures PairUp(s, open, beat) == before + [n.(dur := beat(s[|s| - 1].tick) - n.start)]
    ensures |s| >= 2 && n.pitch == s[|s| - 2].msg.note
  {
    AlternatingPrefix(s, |s| - 1);
    assert (|s| - 1) % 2 == 1;
    var all := PairUp(s[..|s| - 1], open, beat);
    before, n := all[..|all| - 1], all[|all| - 1];
    assert n == Opened(s[|s| - 2], open, beat);
    assert PairUp(s, open, beat)[|all| - 1] == n.(dur := beat(s[|s| - 1].tick) - n.start);
    assert PairUp(s, open, beat)[..|all| - 1] == before;
  }

  // ---- The sentinel matcher works on each pitch by itself ----

  lemma {:induction false} CloseOther(ns: seq<Note>, pitch: int, now: int, open: int, q: int)
    requires q != pitch
    ensures Filter(CloseLatest(ns, pitch, now, open), OfPitch(q)) == Filter(ns, OfPitch(q))
  {
    if ns != [] {
      var init, last := ns[..|ns| - 1], ns[|ns| - 1];
      assert ns == init + [last];
      FilterPush(init, last, OfPitch(q));
      FilterPush(init, last.(dur := now - last.start), OfPitch(q));
      CloseOther(init, pitch, now, open, q);
      FilterPush(CloseLatest(init, pitch, now, open), last, OfPitch(q));
    }
  }

  lemma ClosePush(ns: seq<Note>, last: Note, pitch: int, now: int, open: int)
    ensures CloseLatest(ns + [last], pitch, now, open)
         == if last.pitch == pitch && last.dur == open then ns + [last.(dur := now - last.start)]
            else CloseLatest(ns, pitch, now, open) + [last]
  {
    assert (ns + [last])[..|ns + [last]| - 1] == ns;
  }

  lemma {:induction false} CloseSameStep(init: seq<Note>, last: Note, pitch: int, now: int, open: int)
    requires Filter(CloseLatest(init, pitch, now, open), OfPitch(pitch))
          == CloseLatest(Filter(init, OfPitch(pitch)), pitch, now, open)
    ensures Filter(CloseLatest(init + [last], pitch, now, open), OfPitch(pitch))
         == CloseLatest(Filter(init + [last], OfPitch(pitch)), pitch, now, open)
  {
    ClosePush(init, last, pitch, now, open);
    ClosePush(Filter(init, OfPitch(pitch)), last, pitch, now, open);
    FilterPush(init, last, OfPitch(pitch));
    if last.pitch != pitch {
      assert Filter(init, OfPitch(pitch)) + [] == Filter(init, OfPitch(pitch));
      FilterPush(CloseLatest(init, pitch, now, open), last, OfPitch(pitch));
    } else if last.dur == open {
      FilterPush(init, last.(dur := now - last.start), OfPitch(pitch));
    } else {
      FilterPush(CloseLatest(init, pitch, now, open), last, OfPitch(pitch));
    }
  }

  lemma {:induction false} CloseSame(ns: seq<Note>, pitch: int, now: int, open: int)
    ensures Filter(CloseLatest(ns, pitch, now, open), OfPitch(pitch))
         == CloseLatest(Filter(ns, OfPitch(pitch)), pitch, now, open)
  {
    if ns != [] {
      CloseSame(ns[..|ns| - 1], pitch, now, open);
      CloseSameStep(ns[..|ns| - 1], ns[|ns| - 1], pitch, now, open);
      assert ns == ns[..|ns| - 1] + [ns[|ns| - 1]];
    }
  }

  /** The notes of one pitch are what the matcher makes of the messages of that pitch. */
  lemma {:induction false} ScanOnPitch(s: seq<Timed>, ch: int, pitch: int, open: int, beat: Clock)
    ensures Filter(ScanNotes(s, ch, open, beat), OfPitch(pitch))
         == ScanNotes(Filter(s, OfKey(ch, pitch)), ch, open, beat)
  {
    if s != [] {
      var init, x := s[..|s| - 1], s[|s| - 1];
      var before := ScanNotes(init, ch, open, beat);
      assert s == init + [x];
      FilterPush(init, x, OfKey(ch, pitch));
      ScanOnPitch(init, ch, pitch, open, beat);
      if OfKey(ch, pitch)(x) {
        ScanSnoc(Filter(init, OfKey(ch, pitch)), x, ch, open, beat);
        if IsOn(x.msg) {
          FilterPush(before, Opened(x, open, beat), OfPitch(pitch));
        } else {
          CloseSame(before, pitch, beat(x.tick), open);
        }
      } else {
        assert Filter(init, OfKey(ch, pitch)) + [] == Filter(init, OfKey(ch, pitch));
        OtherKeyKeeps(before, x, ch, pitch, open, beat);
      }
    }
  }

  lemma OtherKeyKeeps(before: seq<Note>, x: Timed, ch: int, pitch: int, open: int, beat: Clock)
    requires !OfKey(ch, pitch)(x)
    ensures Filter(ScanStep(before, x, ch, open, beat), OfPitch(pitch)) == Filter(before, OfPitch(pitch))
  {
    if x.msg.ch == ch && IsOn(x.msg) {
      FilterPush(before, Opened(x, open, beat), OfPitch(pitch));
    } else if x.msg.ch == ch && IsOff(x.msg) {
      CloseOther(before, x.msg.note, beat(x.tick), open, pitch);
    }
  }

  /** On, off, on, off: the latest note is the open one, so each off finishes the on before it. */
  lemma {:induction false} ScanPairs(f: seq<Timed>, ch: int, pitch: int, open: int, beat: Clock)
    requires Alternating(f) && forall x :: x in f ==> IsKey(x, ch, pitch)
    ensures ScanNotes(f, ch, open, beat) == PairUp(f, open, beat)
  {
    if f != [] {
      var init, x := f[..|f| - 1], f[|f| - 1];
      AlternatingPrefix(f, |f| - 1);
      ScanPairs(init, ch, pitch, open, beat);
      PairsStep(init, x, f, ch, pitch, open, beat);
    }
  }

  lemma {:induction false} PairsStep(init: seq<Timed>, x: Timed, f: seq<Timed>, ch: int, pitch: int, open: int,
                                     beat: Clock)
    requires f == init + [x] && Alternating(f) && Alternating(init) && IsKey(x, ch, pitch)
    requires init != [] ==> IsKey(init[|init| - 1], ch, pitch)
    requires ScanNotes(init, ch, open, beat) == PairUp(init, open, beat)
    ensures ScanNotes(f, ch, open, beat) == PairUp(f, open, beat)
  {
    assert f[..|f| - 1] == init;
    if IsOn(x.msg) {
      PairUpOn(f, open, beat);
    } else {
      var before, n := PairUpOff(f, open, beat);
      ClosePush(before, n, pitch, beat(x.tick), open);
    }
  }

  lemma {:induction false} SentinelPairs(s: seq<Timed>, ch: int, pitch: int, open: int, beat: Clock)
    requires Alternating(Filter(s, OfKey(ch, pitch)))
    ensures Filter(ScanNotes(s, ch, open, beat), OfPitch(pitch)) == PairUp(Filter(s, OfKey(ch, pitch)), open, beat)
  {
    var f := Filter(s, OfKey(ch, pitch));
    forall x | x in f ensures IsKey(x, ch, pitch) {
      FilterMember(s, OfKey(ch, pitch), x);
    }
    ScanOnPitch(s, ch, pitch, open, beat);
    ScanPairs(f, ch, pitch, open, beat);
  }

  // ---- The pending matcher computes it ----

  lemma ChannelNotesSnoc(notes: seq<(int, Note)>, x: (int, Note), ch: int, pitch: int)
    ensures Filter(ChannelNotes(notes + [x], ch), OfPitch(pitch))
         == Filter(ChannelNotes(notes, ch), OfPitch(pitch)) + if x.0 == ch && x.1.pitch == pitch then [x.1] else []
  {
    assert (notes + [x])[..|notes|] == notes;
    FilterConcat(ChannelNotes(notes, ch), if x.0 == ch then [x.1] else [], OfPitch(pitch));
  }

  /** Finished notes are in the list, the one unfinished note, if any, is in the dictionary. */
  ghost predicate PendingHolds(p: Pending, f: seq<Timed>, ch: int, pitch: int, beat: Clock) {
    && Alternating(f)
    && var done := |f| / 2 * 2;
       && Alternating(f[..done])
       && Filter(ChannelNotes(p.notes, ch), OfPitch(pitch)) == PairUp(f[..done], 0, beat)
       && ((ch, pitch) in p.open <==> done < |f|)
       && (done < |f| ==> f[done].msg.NoteOn? && f[done].msg.note == pitch)
       && (done < |f| ==> p.open[(ch, pitch)] == (beat(f[done].tick), f[done].msg.vel))
  }

  lemma PendingOther(p: Pending, x: Timed, f: seq<Timed>, ch: int, pitch: int, beat: Clock)
    requires PendingHolds(p, f, ch, pitch, beat) && !OfKey(ch, pitch)(x)
    ensures PendingHolds(PendingStep(p, x, beat), f, ch, pitch, beat)
  {
    if IsOff(x.msg) && (x.msg.ch, x.msg.note) in p.open {
      var (start, vel) := p.open[(x.msg.ch, x.msg.note)];
      ChannelNotesSnoc(p.notes, (x.msg.ch, Note(x.msg.note, start, beat(x.tick) - start, vel)), ch, pitch);
    }
  }

  lemma PendingSame(p: Pending, g: seq<Timed>, x: Timed, ch: int, pitch: int, beat: Clock)
    requires PendingHolds(p, g, ch, pitch, beat) && OfKey(ch, pitch)(x) && Alternating(g + [x])
    ensures PendingHolds(PendingStep(p, x, beat), g + [x], ch, pitch, beat)
  {
    var f := g + [x];
    assert f[|g|] == x;
    if IsOn(x.msg) {
      assert f[..|g|] == g[..|g|];
    } else {
      var on := g[|g| - 1];
      ChannelNotesSnoc(p.notes, (ch, Note(pitch, beat(on.tick), beat(x.tick) - beat(on.tick), on.msg.vel)), ch, pitch);
      assert f[..|f| / 2 * 2] == f && f[..|f| - 2] == g[..|g| / 2 * 2];
      PairUpDone(f, beat);
      assert f[|f| - 2] == on && f[|f| - 1] == x;
    }
  }

  lemma PairUpDone(f: seq<Timed>, beat: Clock)
    requires |f| >= 2 && |f| % 2 == 0 && Alternating(f)
    ensures Alternating(f[..|f| - 2])
    ensures PairUp(f, 0, beat)
         == PairUp(f[..|f| - 2], 0, beat) + [Opened(f[|f| - 2], beat(f[|f| - 1].tick) - beat(f[|f| - 2].tick), beat)]
  {
    AlternatingPrefix(f, |f| - 2);
  }

  lemma {:induction false} PendingPairs(s: seq<Timed>, ch: int, pitch: int, beat: Clock)
    requires Alternating(Filter(s, OfKey(ch, pitch)))
    ensures PendingHolds(PendingRun(s, beat), Filter(s, OfKey(ch, pitch)), ch, pitch, beat)
  {
    if s != [] {
      var n, x := |s| - 1, s[|s| - 1];
      FilterSnoc(s, n, OfKey(ch, pitch));
      assert s[..n + 1] == s;
      var f, g := Filter(s, OfKey(ch, pitch)), Filter(s[..n], OfKey(ch, pitch));
      if OfKey(ch, pitch)(x) {
        assert f == g + [x] && f[..|g|] == g;
        AlternatingPrefix(f, |g|);
        PendingPairs(s[..n], ch, pitch, beat);
        PendingSame(PendingRun(s[..n], beat), g, x, ch, pitch, beat);
      } else {
        assert f == g;
        PendingPairs(s[..n], ch, pitch, beat);
        PendingOther(PendingRun(s[..n], beat), x, f, ch, pitch, beat);
      }
    }
  }

  // ---- They agree ----

  /** Every note is closed, on no channel and pitch do two notes overlap, and every note-off closes a note. */
  ghost predicate WellFormed(s: seq<Timed>) {
    forall ch, pitch :: Alternating(Filter(s, OfKey(ch, pitch))) && |Filter(s, OfKey(ch, pitch))| % 2 == 0
  }

  lemma SamePitchesSameNotes(a: seq<Note>, b: seq<Note>)
    requires forall pitch :: Filter(a, OfPitch(pitch)) == Filter(b, OfPitch(pitch))
    ensures multiset(a) == multiset(b)
  {
    forall x ensures multiset(a)[x] == multiset(b)[x] {
      FilterCount(a, OfPitch(x.pitch), x);
      FilterCount(b, OfPitch(x.pitch), x);
    }
  }

  /** Each parser rounds with its own clock, but they pair the same messages. */
  lemma {:induction false} SamePairs(s: seq<Timed>, ch: int, pitch: int, open: int, coarse: Clock, fine: Clock)
    requires Alternating(Filter(s, OfKey(ch, pitch))) && |Filter(s, OfKey(ch, pitch))| % 2 == 0
    ensures Filter(ScanNotes(s, ch, open, coarse), OfPitch(pitch)) == PairUp(Filter(s, OfKey(ch, pitch)), open, coarse)
    ensures Filter(ChannelNotes(PendingRun(s, fine).notes, ch), OfPitch(pitch))
         == PairUp(Filter(s, OfKey(ch, pitch)), open, fine)
  {
    SentinelPairs(s, ch, pitch, open, coarse);
    PendingPairs(s, ch, pitch, fine);
    var f := Filter(s, OfKey(ch, pitch));
    assert f[..|f| / 2 * 2] == f;
    assert PairUp(f, open, fine) == PairUp(f, 0, fine);
  }

  /**
   On a well-formed track the two matchers find the same notes on every channel, and the same list of them
   on every pitch, whatever clock they share. `Agreement` says exactly when they do on any track.
   */
  lemma MatchersAgree(s: seq<Timed>, ch: int, open: int, beat: Clock)
    requires WellFormed(s)
    ensures forall pitch :: Filter(ScanNotes(s, ch, open, beat), OfPitch(pitch))
                         == Filter(ChannelNotes(PendingRun(s, beat).notes, ch), OfPitch(pitch))
    ensures multiset(ScanNotes(s, ch, open, beat)) == multiset(ChannelNotes(PendingRun(s, beat).notes, ch))
  {
    forall pitch ensures Filter(ScanNotes(s, ch, open, beat), OfPitch(pitch))
                      == Filter(ChannelNotes(PendingRun(s, beat).notes, ch), OfPitch(pitch)) {
      SamePairs(s, ch, pitch, open, beat, beat);
    }
    SamePitchesSameNotes(ScanNotes(s, ch, open, beat), ChannelNotes(PendingRun(s, beat).notes, ch));
  }
}
