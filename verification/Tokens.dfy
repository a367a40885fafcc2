/**
 The token decoder of `tokens_to_midi_bytes`: time, channel allocation and notes.

 `toTicks` is the conversion from milliseconds to ticks. Nothing is asked of it but that it never
 goes down, so the results hold for whatever rounding the floating-point product does.
 */
module Tokens {
  import opened Options
  import opened Sequences
  import opened Smf

  const SOS := 18816
  const PATCH_BASE := 256
  const DUR_BASE := 16768

  datatype Event = Event(tick: nat, ch: int, note: int, vel: int, dur: nat, patch: int)

  /** The decoder's variables. Program changes are kept as the messages they become. */
  datatype Dec = Dec(timeMs: nat, pitch: int, channel: int, patch: int, patches: seq<int>, channels: seq<int>,
                     progs: seq<Timed>, events: seq<Event>)

  ghost predicate Monotone(toTicks: nat -> nat) {
    forall a: nat, b: nat :: a <= b ==> toTicks(a) <= toTicks(b)
  }

  predicate IsPatchToken(tok: int) { PATCH_BASE <= tok < DUR_BASE }

  predicate IsNoteToken(tok: int) { DUR_BASE <= tok < SOS }

  function IndexOf(s: seq<int>, x: int): (i: nat)
    requires x in s
    ensures i < |s| && s[i] == x && x !in s[..i]
  {
    if s[0] == x then 0 else 1 + IndexOf(s[1..], x)
  }

  function Start(): Dec {
    Dec(0, 60, 0, 0, seq(16, _ => -1), seq(16, i => if i == 9 then 1 else 0), [], [])
  }

  /** A melodic patch not seen before takes the first free channel, or channel 15 when none is free. */
  function Allocate(d: Dec, patch: int, toTicks: nat -> nat): (r: Dec)
    requires |d.patches| == |d.channels| == 16
    ensures |r.patches| == |r.channels| == 16 && patch in r.patches
  {
    var cha := if 0 in d.channels then IndexOf(d.channels, 0) else 15;
    assert d.patches[cha := patch][cha] == patch;
    d.(channels := if 0 in d.channels then d.channels[cha := 1] else d.channels,
       patches := d.patches[cha := patch],
       progs := d.progs + [Timed(toTicks(d.timeMs), Program(cha, patch))])
  }

  function PatchStep(d: Dec, tok: int, toTicks: nat -> nat): Dec
    requires |d.patches| == |d.channels| == 16 && IsPatchToken(tok)
  {
    var patch, pitch := (tok - PATCH_BASE) / 128, (tok - PATCH_BASE) % 128;
    if patch < 128 then
      var a := if patch in d.patches then d else Allocate(d, patch, toTicks);
      a.(patch := patch, pitch := pitch, channel := IndexOf(a.patches, patch))
    else if patch == 128 then d.(patch := patch, pitch := pitch, channel := 9)
    else d.(patch := patch, pitch := pitch)
  }

  function NoteOf(d: Dec, tok: int, toTicks: nat -> nat): Event
    requires IsNoteToken(tok)
  {
    var durMs, vel := (tok - DUR_BASE) / 8 * 16, ((tok - DUR_BASE) % 8 + 1) * 15;
    var dur := toTicks(durMs);
    Event(toTicks(d.timeMs), d.channel, d.pitch, vel, if dur < 1 then 1 else dur, d.patch)
  }

  function Step(d: Dec, tok: int, toTicks: nat -> nat): (r: Dec)
    requires |d.patches| == |d.channels| == 16
    ensures |r.patches| == |r.channels| == 16
  {
    if 0 <= tok < 256 then d.(timeMs := d.timeMs + tok * 16)
    else if IsPatchToken(tok) then PatchStep(d, tok, toTicks)
    else if IsNoteToken(tok) then d.(events := d.events + [NoteOf(d, tok, toTicks)])
    else d
  }

  function Decode(tokens: seq<int>, toTicks: nat -> nat): (r: Dec)
    ensures |r.patches| == |r.channels| == 16
  {
    if tokens == [] then Start()
    else Step(Decode(tokens[..|tokens| - 1], toTicks), tokens[|tokens| - 1], toTicks)
  }

  /** A file is never empty: with no note, one is made up. */
  function Played(d: Dec): seq<Event> {
    if d.events == [] then [Event(0, 0, 60, 80, 240, 0)] else d.events
  }

  /** The allocation inside the loop: a free slot is marked, the last one is overwritten otherwise. */
  method TakeChannel(patches: array<int>, channels: array<int>, patch: int) returns (cha: nat)
    requires patches != channels && patches.Length == channels.Length == 16
    modifies patches, channels
    ensures cha == if 0 in old(channels[..]) then IndexOf(old(channels[..]), 0) else 15
    ensures channels[..] == if 0 in old(channels[..]) then old(channels[..])[cha := 1] else old(channels[..])
    ensures patches[..] == old(patches[..])[cha := patch]
  {
    cha := 15;
    if 0 in channels[..] {
      cha := IndexOf(channels[..], 0);
      channels[cha] := 1;
    }
    patches[cha] := patch;
  }

  /** A melodic patch token: the patch gets a channel if it has none, and its channel becomes current. */
  method TunePatch(patches: array<int>, channels: array<int>, tok: int, ghost d: Dec, toTicks: nat -> nat,
                   timeMs: nat, progs: seq<Timed>)
    returns (channel: int, progs': seq<Timed>)
    requires patches != channels && IsPatchToken(tok) && (tok - PATCH_BASE) / 128 < 128
    requires |d.patches| == |d.channels| == 16
    requires patches[..] == d.patches && channels[..] == d.channels && timeMs == d.timeMs && progs == d.progs
    modifies patches, channels
    ensures patches[..] == PatchStep(d, tok, toTicks).patches && channels[..] == PatchStep(d, tok, toTicks).channels
    ensures channel == PatchStep(d, tok, toTicks).channel && progs' == PatchStep(d, tok, toTicks).progs
  {
    var patch := (tok - PATCH_BASE) / 128;
    progs' := progs;
    if patch !in patches[..] {
      var cha := TakeChannel(patches, channels, patch);
      assert patches[cha] in patches[..];
      progs' := progs + [Timed(toTicks(timeMs), Program(cha, patch))];
    }
    channel := IndexOf(patches[..], patch);
  }

  method FreshTables() returns (patches: array<int>, channels: array<int>)
    ensures fresh(patches) && fresh(channels) && patches != channels && patches.Length == channels.Length == 16
    ensures patches[..] == Start().patches && channels[..] == Start().channels
  {
    patches := new int[16](_ => -1);
    channels := new int[16](_ => 0);
    channels[9] := 1;
  }

  /** The decoding loop, with its two 16-entry tables updated in place. */
  method DecodeTokens(tokens: seq<int>, toTicks: nat -> nat) returns (progs: seq<Timed>, events: seq<Event>)
    ensures progs == Decode(tokens, toTicks).progs && events == Played(Decode(tokens, toTicks))
  {
    var timeMs: nat, pitch, channel, patch := 0, 60, 0, 0;
    var patches, channels := FreshTables();
    progs, events := [], [];
    for i := 0 to |tokens|
      invariant Dec(timeMs, pitch, channel, patch, patches[..], channels[..], progs, events)
             == Decode(tokens[..i], toTicks)
    {
      var tok := tokens[i];
      assert tokens[..i + 1][..i] == tokens[..i];
      ghost var d := Decode(tokens[..i], toTicks);
      assert Decode(tokens[..i + 1], toTicks) == Step(d, tok, toTicks);
      if 0 <= tok < 256 {
        timeMs := timeMs + tok * 16;
      } else if IsPatchToken(tok) {
        patch := (tok - PATCH_BASE) / 128;
        pitch := (tok - PATCH_BASE) % 128;
        if patch < 128 {
          channel, progs := TunePatch(patches, channels, tok, d, toTicks, timeMs, progs);
        } else if patch == 128 {
          channel := 9;
        }
      } else if IsNoteToken(tok) {
        var durMs, vel := (tok - DUR_BASE) / 8 * 16, ((tok - DUR_BASE) % 8 + 1) * 15;
        var dur := toTicks(durMs);
        events := events + [Event(toTicks(timeMs), channel, pitch, vel, if dur < 1 then 1 else dur, patch)];
      }
    }
    assert tokens[..|tokens|] == tokens;
    if events == [] {
      events := [Event(0, 0, 60, 80, 240, 0)];
    }
  }

  // ---- What every prefix of the token list keeps ----

  predicate IsProgOn(x: Timed, ch: int) { x.msg.Program? && x.msg.ch == ch }

  /** The program in force on a channel after a list of messages. */
  function LastProgram(s: seq<Timed>, ch: int): Option<int> {
    if s == [] then None
    else if IsProgOn(s[|s| - 1], ch) then Some(s[|s| - 1].msg.program)
    else LastProgram(s[..|s| - 1], ch)
  }

  predicate ValidTables(patches: seq<int>, channels: seq<int>) {
    && |patches| == |channels| == 16
    && channels[9] == 1 && patches[9] == -1
    && (forall c :: 0 <= c < 16 ==> -1 <= patches[c] < 128 && 0 <= channels[c] <= 1)
    && (forall c :: 0 <= c < 16 && c != 9 ==> (channels[c] == 0 <==> patches[c] == -1))
    && (forall a, b :: 0 <= a < b < 16 && patches[a] == patches[b] ==> patches[a] == -1)
  }

  /** Program changes in time order, up to `now`, on melodic channels only. */
  predicate ValidProgs(progs: seq<Timed>, now: nat) {
    && (forall i :: 0 <= i < |progs| ==> progs[i].msg.Program? && ValidMsg(progs[i].msg) && progs[i].msg.ch != 9)
    && (forall i, j :: 0 <= i < j < |progs| ==> progs[i].tick <= progs[j].tick)
    && (forall i :: 0 <= i < |progs| ==> progs[i].tick <= now)
  }

  predicate ValidEvent(e: Event) {
    0 <= e.ch < 16 && 0 <= e.note < 128 && 1 <= e.vel < 128 && e.dur >= 1
  }

  ghost predicate Valid(d: Dec, toTicks: nat -> nat) {
    && ValidTables(d.patches, d.channels)
    && 0 <= d.channel < 16 && 0 <= d.pitch < 128
    && ValidProgs(d.progs, toTicks(d.timeMs))
    && (forall i :: 0 <= i < |d.events| ==> ValidEvent(d.events[i]) && d.events[i].tick <= toTicks(d.timeMs))
    && (forall i, j :: 0 <= i < j < |d.events| ==> d.events[i].tick <= d.events[j].tick)
    && (forall c :: 0 <= c < 16 ==>
          LastProgram(d.progs, c) == if d.patches[c] == -1 then None else Some(d.patches[c]))
  }

  lemma {:induction false} AllocateValid(d: Dec, patch: int, toTicks: nat -> nat)
    requires Valid(d, toTicks) && 0 <= patch < 128 && patch !in d.patches
    ensures Valid(Allocate(d, patch, toTicks), toTicks)
  {
    var r := Allocate(d, patch, toTicks);
    AllocatedTables(d.patches, d.channels, patch);
    AddedProg(d.progs, r.progs[|d.progs|], toTicks(d.timeMs));
    forall c | 0 <= c < 16
      ensures LastProgram(r.progs, c) == if r.patches[c] == -1 then None else Some(r.patches[c])
    {
      LastProgramSnoc(d.progs, r.progs[|d.progs|], c);
    }
  }

  lemma {:induction false} AddedProg(progs: seq<Timed>, p: Timed, now: nat)
    requires ValidProgs(progs, now) && p.tick == now && p.msg.Program? && ValidMsg(p.msg) && p.msg.ch != 9
    ensures ValidProgs(progs + [p], now)
  {
  }

  lemma {:induction false} LastProgramSnoc(progs: seq<Timed>, p: Timed, c: int)
    ensures LastProgram(progs + [p], c) == if IsProgOn(p, c) then Some(p.msg.program) else LastProgram(progs, c)
  {
    assert (progs + [p])[..|progs|] == progs;
  }

  lemma {:induction false} AllocatedTables(patches: seq<int>, channels: seq<int>, patch: int)
    requires ValidTables(patches, channels) && 0 <= patch < 128 && patch !in patches
    ensures var cha := if 0 in channels then IndexOf(channels, 0) else 15;
            cha != 9 && ValidTables(patches[cha := patch], if 0 in channels then channels[cha := 1] else channels)
  {
    assert 0 !in channels ==> channels[15] in channels;
  }

  lemma {:induction false} StepValid(d: Dec, tok: int, toTicks: nat -> nat)
    requires Valid(d, toTicks) && Monotone(toTicks)
    ensures Valid(Step(d, tok, toTicks), toTicks)
  {
    if IsPatchToken(tok) {
      var patch := (tok - PATCH_BASE) / 128;
      if patch < 128 && patch !in d.patches {
        AllocateValid(d, patch, toTicks);
      }
    }
  }

  lemma {:induction false} DecodeValid(tokens: seq<int>, toTicks: nat -> nat)
    requires Monotone(toTicks)
    ensures Valid(Decode(tokens, toTicks), toTicks)
  {
    if tokens != [] {
      DecodeValid(tokens[..|tokens| - 1], toTicks);
      StepValid(Decode(tokens[..|tokens| - 1], toTicks), tokens[|tokens| - 1], toTicks);
    }
  }

  // ---- Instruments at decoding time ----

  /**
   The channel follows the patch: from the first patch token on, drums are on channel 9 and a melodic
   patch is on the channel that holds it.
   */
  predicate Tuned(d: Dec) {
    && |d.patches| == 16 && 0 <= d.channel < 16 && 0 <= d.patch <= 128
    && (d.patch == 128 ==> d.channel == 9)
    && (d.patch < 128 ==> d.patches[d.channel] == d.patch)
  }

  /** `e` was emitted after `k` program changes, the last of which on its channel named its patch. */
  predicate CoveredAt(e: Event, progs: seq<Timed>, k: nat) {
    && k <= |progs|
    && (forall j :: 0 <= j < k ==> progs[j].tick <= e.tick)
    && (forall j :: k <= j < |progs| ==> progs[j].tick >= e.tick)
    && (if e.patch == 128 then e.ch == 9 else e.ch != 9 && LastProgram(progs[..k], e.ch) == Some(e.patch))
  }

  ghost predicate Covered(e: Event, progs: seq<Timed>) {
    exists k: nat :: CoveredAt(e, progs, k)
  }

  /** `d` continues a decoding in which a patch token came after `n` notes. */
  ghost predicate Tracked(d: Dec, n: nat) {
    n <= |d.events| && Tuned(d) && forall i :: n <= i < |d.events| ==> Covered(d.events[i], d.progs)
  }

  lemma {:induction false} CoverageGrows(e: Event, progs: seq<Timed>, p: Timed)
    requires Covered(e, progs) && p.tick >= e.tick
    ensures Covered(e, progs + [p])
  {
    var k: nat :| CoveredAt(e, progs, k);
    assert (progs + [p])[..k] == progs[..k];
    assert CoveredAt(e, progs + [p], k);
  }

  lemma {:induction false} StepTracked(d: Dec, tok: int, toTicks: nat -> nat, n: nat)
    requires Valid(d, toTicks)
    requires Tracked(d, n) || (IsPatchToken(tok) && n == |d.events|)
    ensures Tracked(Step(d, tok, toTicks), n)
  {
    var r := Step(d, tok, toTicks);
    if IsNoteToken(tok) {
      var e := NoteOf(d, tok, toTicks);
      assert d.progs[..|d.progs|] == d.progs;
      assert CoveredAt(e, d.progs, |d.progs|);
    } else if IsPatchToken(tok) && r.progs != d.progs {
      forall i | n <= i < |r.events| ensures Covered(r.events[i], r.progs) {
        CoverageGrows(d.events[i], d.progs, r.progs[|d.progs|]);
      }
    }
  }

  /** Every note decoded after the first patch token is on a channel that carried its patch then. */
  lemma {:induction false} NotesCovered(pre: seq<int>, tok: int, post: seq<int>, toTicks: nat -> nat)
    requires Monotone(toTicks) && IsPatchToken(tok)
    ensures Tracked(Decode(pre + [tok] + post, toTicks), |Decode(pre, toTicks).events|)
    decreases |post|
  {
    var tokens := pre + [tok] + post;
    var init := tokens[..|tokens| - 1];
    DecodeValid(init, toTicks);
    if post == [] {
      assert init == pre;
    } else {
      assert init == pre + [tok] + post[..|post| - 1];
      NotesCovered(pre, tok, post[..|post| - 1], toTicks);
    }
    StepTracked(Decode(init, toTicks), tokens[|tokens| - 1], toTicks, |Decode(pre, toTicks).events|);
  }

  // ---- At most fifteen melodic patches: no channel is ever taken twice ----

  function MelodicPatches(tokens: seq<int>): set<int> {
    set t | t in tokens && IsPatchToken(t) && (t - PATCH_BASE) / 128 < 128 :: (t - PATCH_BASE) / 128
  }

  predicate OneProgramPerChannel(progs: seq<Timed>) {
    forall i, j :: 0 <= i < j < |progs| && progs[i].msg.Program? && progs[j].msg.Program? ==>
                     progs[i].msg.ch != progs[j].msg.ch
  }

  /** With no free channel, fifteen patches are already in use. */
  lemma {:induction false} FullTables(patches: seq<int>, channels: seq<int>, all: set<int>, patch: int)
    requires ValidTables(patches, channels) && 0 !in channels
    requires patch !in patches && patch in all
    requires forall c :: 0 <= c < 16 && patches[c] != -1 ==> patches[c] in all
    ensures |all| >= 16
  {
    var used := patches[..9] + patches[10..] + [patch];
    forall i | 0 <= i < 15 ensures used[i] in all && used[i] in patches {
      var c := if i < 9 then i else i + 1;
      assert used[i] == patches[c] && channels[c] in channels;
    }
    assert Distinct(used);
    DistinctCount(used, all);
  }

  lemma NoProgramNoEntry(progs: seq<Timed>, ch: int)
    requires LastProgram(progs, ch).None?
    ensures forall i :: 0 <= i < |progs| ==> !IsProgOn(progs[i], ch)
  {
  }

  /** Every patch in the table is one of `all`, and no channel has had two program changes. */
  predicate Few(d: Dec, all: set<int>) {
    && OneProgramPerChannel(d.progs)
    && forall c :: 0 <= c < |d.patches| && d.patches[c] != -1 ==> d.patches[c] in all
  }

  lemma {:induction false} FewStep(d: Dec, tok: int, toTicks: nat -> nat, all: set<int>)
    requires Valid(d, toTicks) && Few(d, all) && |all| <= 15
    requires IsPatchToken(tok) && (tok - PATCH_BASE) / 128 < 128 ==> (tok - PATCH_BASE) / 128 in all
    ensures Few(Step(d, tok, toTicks), all)
  {
    var patch := (tok - PATCH_BASE) / 128;
    if IsPatchToken(tok) && patch < 128 && patch !in d.patches {
      if 0 !in d.channels {
        FullTables(d.patches, d.channels, all, patch);
      }
      NoProgramNoEntry(d.progs, IndexOf(d.channels, 0));
    }
  }

  lemma {:induction false} FewPatches(tokens: seq<int>, toTicks: nat -> nat, all: set<int>)
    requires Monotone(toTicks) && MelodicPatches(tokens) <= all && |all| <= 15
    ensures Few(Decode(tokens, toTicks), all)
  {
    if tokens != [] {
      var init, tok := tokens[..|tokens| - 1], tokens[|tokens| - 1];
      assert tok in tokens;
      assert forall t :: t in init ==> t in tokens;
      FewPatches(init, toTicks, all);
      DecodeValid(init, toTicks);
      if IsPatchToken(tok) && (tok - PATCH_BASE) / 128 < 128 {
        assert (tok - PATCH_BASE) / 128 in MelodicPatches(tokens);
      }
      FewStep(Decode(init, toTicks), tok, toTicks, all);
    }
  }
}
