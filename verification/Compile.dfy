/**
 `tokens_to_midi_bytes` as a whole: decode, lay out note-ons and note-offs, sort by tick, emit.
 The instrument results are about the sorted stream, the one a player sees.
 */
module Compile {
  import opened Arithmetic
  import opened Options
  import opened Smf
  import opened Sorting
  import opened Tokens

  function On(e: Event): Timed {
    Timed(e.tick, NoteOn(e.ch, Clamp(0, 127, e.note), Clamp(1, 127, e.vel)))
  }

  function Off(e: Event): Timed {
    Timed(e.tick + e.dur, NoteOff(e.ch, Clamp(0, 127, e.note), 0))
  }

  function NoteMsgs(events: seq<Event>): seq<Timed> {
    if events == [] then [] else [On(events[0]), Off(events[0])] + NoteMsgs(events[1..])
  }

  function ByTick(): Timed -> Rank { (x: Timed) => Rank(x.tick, 0) }

  function Unsorted(d: Dec): seq<Timed> { d.progs + NoteMsgs(Played(d)) }

  function Stream(tokens: seq<int>, toTicks: nat -> nat): seq<Timed> {
    Sort(Unsorted(Decode(tokens, toTicks)), ByTick())
  }

  /** The bytes for a token list, if the track fits its length word. */
  function Compiled(tokens: seq<int>, tempo: nat, toTicks: nat -> nat): Option<seq<byte>>
    requires 1 <= tempo <= 60_000_000 && Monotone(toTicks)
  {
    StreamWritable(tokens, toTicks);
    FileBytes(60_000_000 / tempo, Stream(tokens, toTicks))
  }

  method TokensToMidiBytes(tokens: seq<int>, tempo: nat, toTicks: nat -> nat) returns (file: Option<seq<byte>>)
    requires 1 <= tempo <= 60_000_000 && Monotone(toTicks)
    ensures file == Compiled(tokens, tempo, toTicks)
  {
    var progs, events := DecodeTokens(tokens, toTicks);
    var msgs := progs;
    for i := 0 to |events|
      invariant msgs + NoteMsgs(events[i..]) == progs + NoteMsgs(events)
    {
      var e := events[i];
      assert events[i..][1..] == events[i + 1..];
      assert msgs + NoteMsgs(events[i..]) == (msgs + [On(e), Off(e)]) + NoteMsgs(events[i + 1..]);
      msgs := msgs + [On(e), Off(e)];
    }
    assert msgs == msgs + NoteMsgs(events[|events|..]);
    StreamWritable(tokens, toTicks);
    file := EmitFile(60_000_000 / tempo, Sort(msgs, ByTick()));
  }

  lemma {:induction false} NoteMsgsValid(events: seq<Event>)
    requires forall i :: 0 <= i < |events| ==> ValidEvent(events[i])
    ensures forall x :: x in NoteMsgs(events) ==> ValidMsg(x.msg) && !x.msg.Program?
  {
    if events != [] {
      NoteMsgsValid(events[1..]);
    }
  }

  lemma PlayedValid(tokens: seq<int>, toTicks: nat -> nat)
    requires Monotone(toTicks)
    ensures forall i :: 0 <= i < |Played(Decode(tokens, toTicks))| ==> ValidEvent(Played(Decode(tokens, toTicks))[i])
    ensures forall i, j :: 0 <= i < j < |Played(Decode(tokens, toTicks))| ==>
                             Played(Decode(tokens, toTicks))[i].tick <= Played(Decode(tokens, toTicks))[j].tick
  {
    DecodeValid(tokens, toTicks);
  }

  lemma StreamWritable(tokens: seq<int>, toTicks: nat -> nat)
    requires Monotone(toTicks)
    ensures Writable(Stream(tokens, toTicks))
  {
    var d := Decode(tokens, toTicks);
    DecodeValid(tokens, toTicks);
    PlayedValid(tokens, toTicks);
    NoteMsgsValid(Played(d));
    var s := Stream(tokens, toTicks);
    SortSorts(Unsorted(d), ByTick());
    forall i | 0 <= i < |s| ensures ValidMsg(s[i].msg) {
      SortMember(Unsorted(d), ByTick(), s[i]);
    }
    forall i, j | 0 <= i < j < |s| ensures s[i].tick <= s[j].tick {
      assert Le(ByTick()(s[i]), ByTick()(s[j]));
    }
  }

  /** The file reads back as exactly the sorted stream, for every token list and tempo. */
  lemma {:induction false} CompiledReadsBack(tokens: seq<int>, tempo: nat, toTicks: nat -> nat)
    requires 1 <= tempo <= 60_000_000 && Monotone(toTicks)
    ensures Compiled(tokens, tempo, toTicks).Some? ==>
              ReadFile(Compiled(tokens, tempo, toTicks).value)
              == Some(File(0, 1, TICKS_PER_BEAT,
                           [Item(0, Meta(0x51, BigEndian(60_000_000 / tempo, 4)[1..]))]
                           + Voices(Stream(tokens, toTicks))))
  {
    StreamWritable(tokens, toTicks);
    if Compiled(tokens, tempo, toTicks).Some? {
      ReadsBack(60_000_000 / tempo, Stream(tokens, toTicks));
    }
  }

  lemma {:induction false} NotePairs(events: seq<Event>, i: nat)
    requires i < |events|
    ensures On(events[i]) in NoteMsgs(events) && Off(events[i]) in NoteMsgs(events)
  {
    if i > 0 {
      NotePairs(events[1..], i - 1);
    }
  }

  /** Every note is in the stream, and its note-off comes at a strictly later tick. */
  lemma NotesAppear(tokens: seq<int>, toTicks: nat -> nat, i: nat)
    requires Monotone(toTicks) && i < |Played(Decode(tokens, toTicks))|
    ensures On(Played(Decode(tokens, toTicks))[i]) in Stream(tokens, toTicks)
    ensures Off(Played(Decode(tokens, toTicks))[i]) in Stream(tokens, toTicks)
    ensures On(Played(Decode(tokens, toTicks))[i]).tick < Off(Played(Decode(tokens, toTicks))[i]).tick
  {
    var d := Decode(tokens, toTicks);
    PlayedValid(tokens, toTicks);
    NotePairs(Played(d), i);
    SortMember(Unsorted(d), ByTick(), On(Played(d)[i]));
    SortMember(Unsorted(d), ByTick(), Off(Played(d)[i]));
  }

  // ---- Programs in the sorted stream ----

  function OnProg(ch: int): Timed -> bool { (x: Timed) => IsProgOn(x, ch) }

  function OnProgUpTo(ch: int, tick: nat): Timed -> bool { (x: Timed) => IsProgOn(x, ch) && x.tick <= tick }

  lemma {:induction false} LastProgramFilter(s: seq<Timed>, ch: int)
    ensures LastProgram(s, ch) == LastProgram(Filter(s, OnProg(ch)), ch)
  {
    if s != [] {
      var n := |s| - 1;
      LastProgramFilter(s[..n], ch);
      FilterSnoc(s, n, OnProg(ch));
      assert s[..n + 1] == s;
      var f := Filter(s, OnProg(ch));
      if IsProgOn(s[n], ch) {
        assert f[|f| - 1] == s[n] && f[..|f| - 1] == Filter(s[..n], OnProg(ch));
      } else {
        assert f == Filter(s[..n], OnProg(ch));
      }
    }
  }

  /** In the stream no program change at a note's tick comes after the note: the sort is stable. */
  lemma {:induction false} ProgramsFirst(progs: seq<Timed>, msgs: seq<Timed>, k: nat, j: nat)
    requires forall x :: x in progs ==> x.msg.Program?
    requires forall x :: x in msgs ==> !x.msg.Program?
    requires k < j < |Sort(progs + msgs, ByTick())|
    requires !Sort(progs + msgs, ByTick())[k].msg.Program? && Sort(progs + msgs, ByTick())[j].msg.Program?
    ensures Sort(progs + msgs, ByTick())[k].tick < Sort(progs + msgs, ByTick())[j].tick
  {
    var s := Sort(progs + msgs, ByTick());
    SortSorts(progs + msgs, ByTick());
    assert Le(ByTick()(s[k]), ByTick()(s[j]));
    if s[k].tick == s[j].tick {
      var r := ByTick()(s[k]);
      var p := OfRank(ByTick(), r);
      var a, b := FilterOrder(s, p, k, j);
      SortIsStable(progs + msgs, ByTick(), r);
      FilterConcat(progs, msgs, p);
      var f, g := Filter(progs, p), Filter(msgs, p);
      if a < |f| {
        FilterMember(progs, p, f[a]);
      } else {
        FilterMember(msgs, p, g[b - |f|]);
      }
      assert false;
    }
  }

  /**
   At any note of the stream the program in force on a channel is the last one the decoder chose for it
   up to and including the note's tick. This holds for every token list.
   */
  lemma {:induction false} ProgramAtNote(progs: seq<Timed>, msgs: seq<Timed>, k: nat, ch: int, n: nat)
    requires forall x :: x in progs ==> x.msg.Program?
    requires forall x :: x in msgs ==> !x.msg.Program?
    requires forall i, j :: 0 <= i < j < |progs| ==> progs[i].tick <= progs[j].tick
    requires k < |Sort(progs + msgs, ByTick())| && !Sort(progs + msgs, ByTick())[k].msg.Program?
    requires n <= |progs|
    requires forall j :: 0 <= j < n ==> progs[j].tick <= Sort(progs + msgs, ByTick())[k].tick
    requires forall j :: n <= j < |progs| ==> progs[j].tick > Sort(progs + msgs, ByTick())[k].tick
    ensures LastProgram(Sort(progs + msgs, ByTick())[..k], ch) == LastProgram(progs[..n], ch)
  {
    var s := Sort(progs + msgs, ByTick());
    var q := OnProgUpTo(ch, s[k].tick);
    assert forall x :: x in msgs ==> !q(x);
    ProgramsBefore(progs, msgs, k, ch);
    ProgramsUpTo(progs, msgs, n, ch, s[k].tick);
    LastProgramFilter(s[..k], ch);
    LastProgramFilter(progs[..n], ch);
  }

  /** The stream's side: before position `k` lie exactly the program changes up to its tick. */
  lemma {:induction false} ProgramsBefore(progs: seq<Timed>, msgs: seq<Timed>, k: nat, ch: int)
    requires forall x :: x in progs ==> x.msg.Program?
    requires forall x :: x in msgs ==> !x.msg.Program?
    requires k < |Sort(progs + msgs, ByTick())| && !Sort(progs + msgs, ByTick())[k].msg.Program?
    ensures Filter(Sort(progs + msgs, ByTick())[..k], OnProg(ch))
         == Filter(Sort(progs + msgs, ByTick()), OnProgUpTo(ch, Sort(progs + msgs, ByTick())[k].tick))
  {
    var s := Sort(progs + msgs, ByTick());
    var q, r := OnProgUpTo(ch, s[k].tick), OnProg(ch);
    SortSorts(progs + msgs, ByTick());
    forall j | 0 <= j < k ensures q(s[..k][j]) == r(s[..k][j]) {
      assert Le(ByTick()(s[j]), ByTick()(s[k]));
    }
    FilterAgree(s[..k], q, r);
    forall j | 0 <= j < |s[k..]| ensures !q(s[k..][j]) {
      if j > 0 && s[k + j].msg.Program? {
        ProgramsFirst(progs, msgs, k, k + j);
      }
    }
    FilterEmpty(s[k..], q);
    FilterConcat(s[..k], s[k..], q);
    assert s == s[..k] + s[k..];
  }

  /** The decoder's side: sorting keeps those program changes, in order. */
  lemma {:induction false} ProgramsUpTo(progs: seq<Timed>, msgs: seq<Timed>, n: nat, ch: int, tick: nat)
    requires forall x :: x in msgs ==> !OnProgUpTo(ch, tick)(x)
    requires forall i, j :: 0 <= i < j < |progs| ==> progs[i].tick <= progs[j].tick
    requires n <= |progs|
    requires forall j :: 0 <= j < n ==> progs[j].tick <= tick
    requires forall j :: n <= j < |progs| ==> progs[j].tick > tick
    ensures Filter(Sort(progs + msgs, ByTick()), OnProgUpTo(ch, tick)) == Filter(progs[..n], OnProg(ch))
  {
    var q := OnProgUpTo(ch, tick);
    FilterAgree(progs[..n], q, OnProg(ch));
    FilterEmpty(progs[n..], q);
    FilterConcat(progs[..n], progs[n..], q);
    assert progs == progs[..n] + progs[n..];
    SortedPartSurvives(progs, msgs, ByTick(), q);
  }

  /** How many of the program changes are at or before a tick. */
  function CountUpTo(progs: seq<Timed>, tick: nat): (n: nat)
    ensures n <= |progs|
    ensures forall j :: 0 <= j < n ==> progs[j].tick <= tick
    ensures n < |progs| ==> progs[n].tick > tick
  {
    if progs == [] || progs[0].tick > tick then 0 else 1 + CountUpTo(progs[1..], tick)
  }

  lemma {:induction false} LastProgramConcat(a: seq<Timed>, b: seq<Timed>, ch: int)
    ensures LastProgram(a + b, ch) == if LastProgram(b, ch).Some? then LastProgram(b, ch) else LastProgram(a, ch)
  {
    if b == [] {
      assert a + b == a;
    } else {
      assert (a + b)[..|a + b| - 1] == a + b[..|b| - 1];
      LastProgramConcat(a, b[..|b| - 1], ch);
    }
  }

  lemma {:induction false} ProgramEntry(progs: seq<Timed>, ch: int) returns (i: nat)
    requires LastProgram(progs, ch).Some?
    ensures i < |progs| && IsProgOn(progs[i], ch)
  {
    if IsProgOn(progs[|progs| - 1], ch) {
      i := |progs| - 1;
    } else {
      i := ProgramEntry(progs[..|progs| - 1], ch);
    }
  }

  /** Drums are never given a program: channel 9 sees no program change, whatever the tokens. */
  lemma NoDrumProgram(tokens: seq<int>, toTicks: nat -> nat, k: nat)
    requires Monotone(toTicks) && k < |Stream(tokens, toTicks)|
    ensures !IsProgOn(Stream(tokens, toTicks)[k], 9)
  {
    var d := Decode(tokens, toTicks);
    var x := Stream(tokens, toTicks)[k];
    DecodeValid(tokens, toTicks);
    PlayedValid(tokens, toTicks);
    NoteMsgsValid(Played(d));
    SortMember(Unsorted(d), ByTick(), x);
    if x in d.progs {
      var i: nat :| i < |d.progs| && d.progs[i] == x;
    }
  }

  /** After the note was decoded, but still at its tick, its channel went to another patch. */
  ghost predicate Retuned(progs: seq<Timed>, e: Event) {
    exists c: nat :: CoveredAt(e, progs, c) && Overtaken(progs, e, c)
  }

  predicate Overtaken(progs: seq<Timed>, e: Event, c: nat) {
    var n := CountUpTo(progs, e.tick);
    c <= n && LastProgram(progs[c..n], e.ch).Some? && LastProgram(progs[c..n], e.ch) != Some(e.patch)
  }

  /** In a list in time order, no later entry than the counted ones is due by the tick. */
  lemma {:induction false} CountIsLast(progs: seq<Timed>, tick: nat)
    requires forall i, j :: 0 <= i < j < |progs| ==> progs[i].tick <= progs[j].tick
    ensures forall j :: CountUpTo(progs, tick) <= j < |progs| ==> progs[j].tick > tick
  {
  }

  /** The program after the whole tick is the note's own unless the channel was re-tuned within it. */
  lemma {:induction false} CoveredProgram(progs: seq<Timed>, e: Event, c: nat)
    requires forall i, j :: 0 <= i < j < |progs| ==> progs[i].tick <= progs[j].tick
    requires CoveredAt(e, progs, c) && e.patch != 128
    ensures LastProgram(progs[..CountUpTo(progs, e.tick)], e.ch) == Some(e.patch) <==> !Overtaken(progs, e, c)
  {
    var n := CountUpTo(progs, e.tick);
    assert c <= n;
    assert progs[..n] == progs[..c] + progs[c..n];
    LastProgramConcat(progs[..c], progs[c..n], e.ch);
  }

  lemma {:induction false} RetunedMeans(progs: seq<Timed>, e: Event)
    requires forall i, j :: 0 <= i < j < |progs| ==> progs[i].tick <= progs[j].tick
    requires Covered(e, progs) && e.patch != 128
    ensures LastProgram(progs[..CountUpTo(progs, e.tick)], e.ch) == Some(e.patch) <==> !Retuned(progs, e)
  {
    forall c: nat | CoveredAt(e, progs, c)
      ensures LastProgram(progs[..CountUpTo(progs, e.tick)], e.ch) == Some(e.patch) <==> !Overtaken(progs, e, c)
    {
      CoveredProgram(progs, e, c);
    }
  }

  /**
   From the stream to the decoder: a note after a patch token plays with its own patch exactly when the
   decoder did not re-tune its channel after it at the same tick. Drums are on channel 9. This holds for every
   token list, however many patches it uses.
   */
  lemma {:induction false} InstrumentExactly(pre: seq<int>, tok: int, post: seq<int>, toTicks: nat -> nat,
                                             i: nat, k: nat)
    requires Monotone(toTicks) && IsPatchToken(tok)
    requires |Decode(pre, toTicks).events| <= i < |Decode(pre + [tok] + post, toTicks).events|
    requires k < |Stream(pre + [tok] + post, toTicks)|
    requires Stream(pre + [tok] + post, toTicks)[k] == On(Decode(pre + [tok] + post, toTicks).events[i])
    ensures var d := Decode(pre + [tok] + post, toTicks);
      var e := d.events[i];
      if e.patch == 128 then e.ch == 9
      else e.ch != 9 && (LastProgram(Stream(pre + [tok] + post, toTicks)[..k], e.ch) == Some(e.patch)
                         <==> !Retuned(d.progs, e))
  {
    var tokens := pre + [tok] + post;
    var d := Decode(tokens, toTicks);
    var e := d.events[i];
    NotesCovered(pre, tok, post, toTicks);
    DecodeValid(tokens, toTicks);
    PlayedValid(tokens, toTicks);
    NoteMsgsValid(Played(d));
    CountIsLast(d.progs, e.tick);
    ProgramAtNote(d.progs, NoteMsgs(Played(d)), k, e.ch, CountUpTo(d.progs, e.tick));
    if e.patch != 128 {
      RetunedMeans(d.progs, e);
    }
  }

  /** A channel that gets one program only is never re-tuned. */
  lemma {:induction false} NeverRetuned(progs: seq<Timed>, e: Event)
    requires OneProgramPerChannel(progs) && e.patch != 128
    ensures !Retuned(progs, e)
  {
    forall c: nat | CoveredAt(e, progs, c) ensures !Overtaken(progs, e, c) {
      if Overtaken(progs, e, c) {
        var i := ProgramEntry(progs[..c], e.ch);
        var j := ProgramEntry(progs[c..CountUpTo(progs, e.tick)], e.ch);
        assert false;
      }
    }
  }

  /** With at most fifteen melodic patches every note after a patch token plays with its own patch. */
  lemma {:induction false} InstrumentPreserved(pre: seq<int>, tok: int, post: seq<int>, toTicks: nat -> nat,
                                               i: nat, k: nat)
    requires Monotone(toTicks) && IsPatchToken(tok)
    requires |MelodicPatches(pre + [tok] + post)| <= 15
    requires |Decode(pre, toTicks).events| <= i < |Decode(pre + [tok] + post, toTicks).events|
    requires k < |Stream(pre + [tok] + post, toTicks)|
    requires Stream(pre + [tok] + post, toTicks)[k] == On(Decode(pre + [tok] + post, toTicks).events[i])
    ensures var e := Decode(pre + [tok] + post, toTicks).events[i];
      if e.patch == 128 then e.ch == 9
      else e.ch != 9 && LastProgram(Stream(pre + [tok] + post, toTicks)[..k], e.ch) == Some(e.patch)
  {
    var d := Decode(pre + [tok] + post, toTicks);
    InstrumentExactly(pre, tok, post, toTicks, i, k);
    FewPatches(pre + [tok] + post, toTicks, MelodicPatches(pre + [tok] + post));
    if d.events[i].patch != 128 {
      NeverRetuned(d.progs, d.events[i]);
    }
  }

  // ---- One patch more, and a note can play with another's program ----

  /** One token for each of the melodic patches below `n`. */
  function PatchTokens(n: nat): seq<int> {
    if n == 0 then [] else PatchTokens(n - 1) + [PATCH_BASE + 128 * (n - 1)]
  }

  /** The channel that patch `n` gets when patches arrive in ascending order. */
  function ChannelOf(n: nat): nat { if n < 9 then n else n + 1 }

  function PatchTable(n: nat): seq<int> {
    seq(16, c requires 0 <= c < 16 => if c < 9 && c < n then c else if c > 9 && c - 1 < n then c - 1 else -1)
  }

  function ChannelTable(n: nat): seq<int> {
    seq(16, c requires 0 <= c < 16 => if c == 9 || (c < 9 && c < n) || (c > 9 && c - 1 < n) then 1 else 0)
  }

  predicate FilledTo(d: Dec, n: nat) {
    && d.timeMs == 0 && d.events == [] && (n > 0 ==> d.pitch == 0)
    && d.patches == PatchTable(n) && d.channels == ChannelTable(n)
    && (n > 0 ==> d.patch == n - 1 && d.channel == ChannelOf(n - 1))
  }

  lemma {:induction false} FillChannels(n: nat, toTicks: nat -> nat)
    requires n <= 15
    ensures FilledTo(Decode(PatchTokens(n), toTicks), n)
  {
    if n == 0 {
      assert Start().patches == PatchTable(0) && Start().channels == ChannelTable(0);
    } else {
      var t := PatchTokens(n);
      assert t[..|t| - 1] == PatchTokens(n - 1) && t[|t| - 1] == PATCH_BASE + 128 * (n - 1);
      FillChannels(n - 1, toTicks);
      FillNext(Decode(PatchTokens(n - 1), toTicks), n - 1, toTicks);
    }
  }

  lemma {:induction false} IndexOfIs(s: seq<int>, x: int, c: nat)
    requires c < |s| && s[c] == x && forall j :: 0 <= j < c ==> s[j] != x
    ensures x in s && IndexOf(s, x) == c
  {
    var i := IndexOf(s, x);
    forall j | 0 <= j < i ensures s[j] != x {
      assert s[..i][j] == s[j];
    }
  }

  lemma {:induction false} TablesGrow(n: nat)
    requires n < 15
    ensures 0 in ChannelTable(n) && IndexOf(ChannelTable(n), 0) == ChannelOf(n)
    ensures ChannelTable(n)[ChannelOf(n) := 1] == ChannelTable(n + 1)
    ensures n !in PatchTable(n) && PatchTable(n)[ChannelOf(n) := n] == PatchTable(n + 1)
    ensures n in PatchTable(n + 1) && IndexOf(PatchTable(n + 1), n) == ChannelOf(n)
  {
    IndexOfIs(ChannelTable(n), 0, ChannelOf(n));
    IndexOfIs(PatchTable(n + 1), n, ChannelOf(n));
  }

  lemma {:induction false} FillNext(d: Dec, n: nat, toTicks: nat -> nat)
    requires FilledTo(d, n) && n < 15
    ensures FilledTo(Step(d, PATCH_BASE + 128 * n, toTicks), n + 1)
  {
    TablesGrow(n);
    var a := Allocate(d, n, toTicks);
    assert a.patches == PatchTable(n + 1) && a.channels == ChannelTable(n + 1);
  }

  /** Fifteen patches, a note of the last one, then a sixteenth patch at the same instant. */
  function SixteenPatches(): seq<int> { PatchTokens(15) + [DUR_BASE + 8, PATCH_BASE + 128 * 15] }

  /** What the decoder makes of it: one note for patch 14, channel 15 re-programmed at the same tick. */
  lemma {:induction false} SixteenDecoded(toTicks: nat -> nat)
    requires Monotone(toTicks)
    ensures var d := Decode(SixteenPatches(), toTicks);
            && d.events == [Event(toTicks(0), 15, 0, 15, if toTicks(16) < 1 then 1 else toTicks(16), 14)]
            && d.timeMs == 0 && LastProgram(d.progs, 15) == Some(15)
  {
    var t := SixteenPatches();
    var init := t[..|t| - 1];
    assert init[..|init| - 1] == PatchTokens(15);
    FillChannels(15, toTicks);
    var d0 := Decode(PatchTokens(15), toTicks);
    assert Decode(init, toTicks) == Step(d0, DUR_BASE + 8, toTicks);
    SixteenthOverwrites(d0, toTicks);
  }

  lemma {:induction false} SixteenthOverwrites(d0: Dec, toTicks: nat -> nat)
    requires FilledTo(d0, 15)
    ensures var d := Step(Step(d0, DUR_BASE + 8, toTicks), PATCH_BASE + 128 * 15, toTicks);
            && d.events == [Event(toTicks(0), 15, d0.pitch, 15, if toTicks(16) < 1 then 1 else toTicks(16), 14)]
            && d.timeMs == 0 && LastProgram(d.progs, 15) == Some(15)
  {
    var d1 := Step(d0, DUR_BASE + 8, toTicks);
    assert 0 !in d1.channels && 15 !in d1.patches;
    assert Allocate(d1, 15, toTicks).progs == d1.progs + [Timed(toTicks(0), Program(15, 15))];
    LastProgramSnoc(d1.progs, Timed(toTicks(0), Program(15, 15)), 15);
  }

  /** The note is on channel 15 with patch 14, but the program in force there is already 15. */
  lemma {:induction false} SixteenPatchesFail(toTicks: nat -> nat) returns (k: nat)
    requires Monotone(toTicks)
    ensures |Decode(SixteenPatches(), toTicks).events| == 1
    ensures k < |Stream(SixteenPatches(), toTicks)|
    ensures var e := Decode(SixteenPatches(), toTicks).events[0];
            Stream(SixteenPatches(), toTicks)[k] == On(e) && e.patch == 14 && e.ch == 15
            && LastProgram(Stream(SixteenPatches(), toTicks)[..k], 15) == Some(15)
  {
    var t := SixteenPatches();
    var d := Decode(t, toTicks);
    SixteenDecoded(toTicks);
    DecodeValid(t, toTicks);
    PlayedValid(t, toTicks);
    NoteMsgsValid(Played(d));
    NotesAppear(t, toTicks, 0);
    k :| 0 <= k < |Stream(t, toTicks)| && Stream(t, toTicks)[k] == On(d.events[0]);
    assert d.progs[..|d.progs|] == d.progs;
    ProgramAtNote(d.progs, NoteMsgs(Played(d)), k, 15, |d.progs|);
  }
}
