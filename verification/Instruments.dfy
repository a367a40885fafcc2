/**
 Which notes play with their own instrument, told from the token list alone.

 The first fourteen melodic patches keep their channels for good. All later ones take turns on channel 15, so a
 note of one of them is safe only if no other such patch is named before its tick is over.
 */
module Instruments {
  import opened Options
  import opened Sequences
  import opened Smf
  import opened Tokens
  import opened Compile

  const OWN_CHANNELS := 14

  function PatchOf(tok: int): int { (tok - PATCH_BASE) / 128 }

  predicate IsMelodic(tok: int) { IsPatchToken(tok) && PatchOf(tok) < 128 }

  function TimeMs(tokens: seq<int>): nat {
    if tokens == [] then 0
    else TimeMs(tokens[..|tokens| - 1]) + if 0 <= tokens[|tokens| - 1] < 256 then tokens[|tokens| - 1] * 16 else 0
  }

  /** The patch named by the last patch token. */
  function CurrentPatch(tokens: seq<int>): Option<int> {
    if tokens == [] then None
    else if IsPatchToken(tokens[|tokens| - 1]) then Some(PatchOf(tokens[|tokens| - 1]))
    else CurrentPatch(tokens[..|tokens| - 1])
  }

  /** The melodic patches in the order in which they are first named. */
  function FirstSeen(tokens: seq<int>): seq<int> {
    if tokens == [] then []
    else
      var seen, tok := FirstSeen(tokens[..|tokens| - 1]), tokens[|tokens| - 1];
      if IsMelodic(tok) && PatchOf(tok) !in seen then seen + [PatchOf(tok)] else seen
  }

  function Head(seen: seq<int>): seq<int> {
    if |seen| <= OWN_CHANNELS then seen else seen[..OWN_CHANNELS]
  }

  /** The patches with a channel of their own. */
  function Owners(tokens: seq<int>): seq<int> { Head(FirstSeen(tokens)) }

  /** The last patch named that is none of these. */
  function LastShared(tokens: seq<int>, owners: seq<int>): Option<int> {
    if tokens == [] then None
    else if IsMelodic(tokens[|tokens| - 1]) && PatchOf(tokens[|tokens| - 1]) !in owners then
      Some(PatchOf(tokens[|tokens| - 1]))
    else LastShared(tokens[..|tokens| - 1], owners)
  }

  /** The tokens up to the end of a tick. */
  function UpTo(tokens: seq<int>, tick: nat, toTicks: nat -> nat): seq<int> {
    if tokens == [] || toTicks(TimeMs(tokens)) <= tick then tokens
    else UpTo(tokens[..|tokens| - 1], tick, toTicks)
  }

  /** The note at token `n` has a patch with a channel of its own, or the last to take the shared one in its tick. */
  predicate KeepsPatch(tokens: seq<int>, n: nat, toTicks: nat -> nat)
    requires n < |tokens| && CurrentPatch(tokens[..n]).Some?
  {
    var p := CurrentPatch(tokens[..n]);
    p.value in Owners(tokens) || LastShared(UpTo(tokens, toTicks(TimeMs(tokens[..n])), toTicks), Owners(tokens)) == p
  }

  // ---- The decoder's tables, told from the tokens ----

  lemma {:induction false} TimeIsDecoded(tokens: seq<int>, toTicks: nat -> nat)
    ensures Decode(tokens, toTicks).timeMs == TimeMs(tokens)
  {
    if tokens != [] {
      TimeIsDecoded(tokens[..|tokens| - 1], toTicks);
    }
  }

  lemma {:induction false} PatchIsDecoded(tokens: seq<int>, toTicks: nat -> nat)
    ensures CurrentPatch(tokens).Some? ==> Decode(tokens, toTicks).patch == CurrentPatch(tokens).value
    ensures CurrentPatch(tokens).Some? ==> Tuned(Decode(tokens, toTicks))
  {
    if tokens != [] {
      PatchIsDecoded(tokens[..|tokens| - 1], toTicks);
    }
  }

  lemma {:induction false} SeenPatches(tokens: seq<int>)
    ensures Distinct(FirstSeen(tokens)) && forall p :: p in FirstSeen(tokens) ==> 0 <= p < 128
  {
    if tokens != [] {
      SeenPatches(tokens[..|tokens| - 1]);
    }
  }

  /** Among at most fourteen patches none is shared. */
  lemma {:induction false} AllOwners(tokens: seq<int>, owners: seq<int>)
    requires forall p :: p in FirstSeen(tokens) ==> p in owners
    ensures LastShared(tokens, owners).None?
  {
    if tokens != [] {
      var seen, tok := FirstSeen(tokens[..|tokens| - 1]), tokens[|tokens| - 1];
      assert IsMelodic(tok) && PatchOf(tok) !in seen ==> FirstSeen(tokens)[|seen|] == PatchOf(tok);
      assert forall p :: p in seen ==> p in FirstSeen(tokens);
      AllOwners(tokens[..|tokens| - 1], owners);
    }
  }

  /** The owners' channels hold them, and channel 15 the patch that took it last. */
  ghost predicate Laid(patches: seq<int>, channels: seq<int>, seen: seq<int>, shared: Option<int>) {
    && |patches| == |channels| == 16 && channels[9] == 1 && patches[9] == -1
    && (forall i :: 0 <= i < 15 ==> channels[ChannelOf(i)] == if i < |seen| then 1 else 0)
    && (forall i :: 0 <= i < 14 ==> patches[ChannelOf(i)] == if i < |seen| then seen[i] else -1)
    && patches[15] == (if shared.Some? then shared.value else -1)
    && (shared.Some? <==> |seen| > OWN_CHANNELS)
    && (shared.Some? ==> shared.value !in Head(seen) && 0 <= shared.value < 128)
  }

  /** An owner is found on its own channel. */
  lemma {:induction false} OwnerPlace(patches: seq<int>, channels: seq<int>, seen: seq<int>, shared: Option<int>,
                                      p: int)
    requires Laid(patches, channels, seen, shared) && Distinct(seen) && 0 <= p < 128
    ensures p in Head(seen) ==>
              exists i: nat :: i < |seen| && i < 14 && seen[i] == p
                               && p in patches && IndexOf(patches, p) == ChannelOf(i)
    ensures p !in Head(seen) ==> (p in patches <==> shared == Some(p))
    ensures p !in Head(seen) && p in patches ==> IndexOf(patches, p) == 15
  {
    if p in Head(seen) {
      var i: nat :| i < |Head(seen)| && Head(seen)[i] == p;
      assert patches[ChannelOf(i)] == p;
      var c := IndexOf(patches, p);
      PlaceOf(patches, channels, seen, shared, c);
    } else if p in patches {
      var c := IndexOf(patches, p);
      PlaceOf(patches, channels, seen, shared, c);
    }
    if shared == Some(p) {
      assert patches[15] == p;
    }
  }

  lemma PlaceOf(patches: seq<int>, channels: seq<int>, seen: seq<int>, shared: Option<int>, c: nat)
    requires Laid(patches, channels, seen, shared) && c < 16 && patches[c] >= 0
    ensures c == 15 || (c != 9 && var i := if c < 9 then c else c - 1; i < 14 && i < |seen| && seen[i] == patches[c])
    ensures c == 15 ==> shared == Some(patches[c])
  {
    var i := if c < 9 then c else c - 1;
    if c != 9 && c != 15 {
      assert ChannelOf(i) == c;
    }
  }

  function SeenNext(seen: seq<int>, p: int): seq<int> { if p in seen then seen else seen + [p] }

  function SharedNext(seen: seq<int>, shared: Option<int>, p: int): Option<int> {
    if p in Head(SeenNext(seen, p)) then shared else Some(p)
  }

  /** A free channel is left as long as fewer than fifteen patches were seen: the next one in order. */
  lemma {:induction false} FreeChannel(patches: seq<int>, channels: seq<int>, seen: seq<int>, shared: Option<int>)
    requires Laid(patches, channels, seen, shared)
    ensures 0 in channels <==> |seen| < 15
    ensures |seen| < 15 ==> IndexOf(channels, 0) == ChannelOf(|seen|)
  {
    if |seen| < 15 {
      assert channels[ChannelOf(|seen|)] == 0;
      forall c: nat | c < ChannelOf(|seen|) ensures channels[c] != 0 {
        if c != 9 {
          assert ChannelOf(if c < 9 then c else c - 1) == c;
        }
      }
      IndexOfIs(channels, 0, ChannelOf(|seen|));
    } else {
      forall c: nat | c < 16 ensures channels[c] != 0 {
        if c != 9 {
          assert ChannelOf(if c < 9 then c else c - 1) == c;
        }
      }
    }
  }

  /** A new patch takes its place. */
  lemma {:induction false} AllocateLaid(d: Dec, p: int, toTicks: nat -> nat, seen: seq<int>, shared: Option<int>)
    requires Laid(d.patches, d.channels, seen, shared) && Distinct(seen) && 0 <= p < 128 && p !in d.patches
    ensures var a := Allocate(d, p, toTicks);
            Laid(a.patches, a.channels, SeenNext(seen, p), SharedNext(seen, shared, p))
  {
    FreeChannel(d.patches, d.channels, seen, shared);
    OwnerPlace(d.patches, d.channels, seen, shared, p);
    assert p !in Head(seen);
    if |seen| < OWN_CHANNELS {
      assert SeenNext(seen, p)[|seen|] == p;
    }
  }

  /** A patch that has its place keeps it. */
  lemma {:induction false} KnownLaid(patches: seq<int>, channels: seq<int>, seen: seq<int>, shared: Option<int>, p: int)
    requires Laid(patches, channels, seen, shared) && Distinct(seen) && 0 <= p < 128 && p in patches
    ensures Laid(patches, channels, SeenNext(seen, p), SharedNext(seen, shared, p))
  {
    OwnerPlace(patches, channels, seen, shared, p);
    if p !in Head(seen) {
      assert |seen| > OWN_CHANNELS;
      assert Head(SeenNext(seen, p)) == Head(seen);
    }
  }

  lemma {:induction false} SharedOf(tokens: seq<int>, owners: seq<int>)
    requires Head(FirstSeen(tokens)) == owners
             || (|FirstSeen(tokens)| <= OWN_CHANNELS && forall p :: p in FirstSeen(tokens) ==> p in owners)
    ensures LastShared(tokens, owners) == LastShared(tokens, Owners(tokens))
  {
    if |FirstSeen(tokens)| <= OWN_CHANNELS {
      AllOwners(tokens, owners);
      AllOwners(tokens, Owners(tokens));
    }
  }

  lemma {:induction false} SeenGrows(tokens: seq<int>, n: nat)
    requires n <= |tokens|
    ensures FirstSeen(tokens[..n]) <= FirstSeen(tokens)
    decreases |tokens|
  {
    if n == |tokens| {
      assert tokens[..n] == tokens;
    } else {
      SeenGrows(tokens[..|tokens| - 1], n);
      assert tokens[..|tokens| - 1][..n] == tokens[..n];
    }
  }

  /** The owners among a part of the tokens that has fourteen of them are those of the whole. */
  lemma {:induction false} PartShared(tokens: seq<int>, n: nat)
    requires n <= |tokens|
    ensures LastShared(tokens[..n], Owners(tokens)) == LastShared(tokens[..n], Owners(tokens[..n]))
    ensures Owners(tokens[..n]) <= Owners(tokens)
    ensures |FirstSeen(tokens[..n])| >= OWN_CHANNELS ==> Owners(tokens[..n]) == Owners(tokens)
  {
    SeenGrows(tokens, n);
    var part, all := FirstSeen(tokens[..n]), FirstSeen(tokens);
    assert forall i :: 0 <= i < |part| ==> part[i] == all[i];
    if |part| <= OWN_CHANNELS {
      assert forall i :: 0 <= i < |part| ==> Head(all)[i] == part[i];
    }
    SharedOf(tokens[..n], Owners(tokens));
  }

  lemma {:induction false} LaidStep(d: Dec, tok: int, toTicks: nat -> nat, seen: seq<int>, shared: Option<int>)
    requires Laid(d.patches, d.channels, seen, shared) && Distinct(seen) && IsMelodic(tok)
    ensures var r := Step(d, tok, toTicks);
            Laid(r.patches, r.channels, SeenNext(seen, PatchOf(tok)), SharedNext(seen, shared, PatchOf(tok)))
  {
    if PatchOf(tok) in d.patches {
      KnownLaid(d.patches, d.channels, seen, shared, PatchOf(tok));
    } else {
      AllocateLaid(d, PatchOf(tok), toTicks, seen, shared);
    }
  }

  lemma {:induction false} NamesStep(tokens: seq<int>)
    requires tokens != [] && IsMelodic(tokens[|tokens| - 1])
    ensures var init, p := tokens[..|tokens| - 1], PatchOf(tokens[|tokens| - 1]);
            FirstSeen(tokens) == SeenNext(FirstSeen(init), p)
            && LastShared(tokens, Owners(tokens)) == SharedNext(FirstSeen(init), LastShared(init, Owners(init)), p)
  {
    PartShared(tokens, |tokens| - 1);
  }

  lemma {:induction false} DecodeLaid(tokens: seq<int>, toTicks: nat -> nat)
    ensures Laid(Decode(tokens, toTicks).patches, Decode(tokens, toTicks).channels, FirstSeen(tokens),
                 LastShared(tokens, Owners(tokens)))
  {
    if tokens == [] {
      assert forall i :: 0 <= i < 15 ==> Start().channels[ChannelOf(i)] == 0 && Start().patches[ChannelOf(i)] == -1;
    } else {
      var init, tok := tokens[..|tokens| - 1], tokens[|tokens| - 1];
      DecodeLaid(init, toTicks);
      if IsMelodic(tok) {
        SeenPatches(init);
        NamesStep(tokens);
        LaidStep(Decode(init, toTicks), tok, toTicks, FirstSeen(init), LastShared(init, Owners(init)));
      } else {
        PartShared(tokens, |tokens| - 1);
        OtherToken(Decode(init, toTicks), tok, toTicks);
      }
    }
  }

  lemma OtherToken(d: Dec, tok: int, toTicks: nat -> nat)
    requires |d.patches| == |d.channels| == 16 && !IsMelodic(tok)
    ensures Step(d, tok, toTicks).patches == d.patches && Step(d, tok, toTicks).channels == d.channels
  {
  }

  // ---- The program changes up to the end of a tick ----

  lemma {:induction false} UpToPrefix(tokens: seq<int>, tick: nat, toTicks: nat -> nat)
    ensures |UpTo(tokens, tick, toTicks)| <= |tokens|
    ensures UpTo(tokens, tick, toTicks) == tokens[..|UpTo(tokens, tick, toTicks)|]
    ensures forall n: nat :: n <= |tokens| && toTicks(TimeMs(tokens[..n])) <= tick ==>
                               n <= |UpTo(tokens, tick, toTicks)|
  {
    if tokens == [] || toTicks(TimeMs(tokens)) <= tick {
      assert tokens[..|tokens|] == tokens;
    } else {
      UpToPrefix(tokens[..|tokens| - 1], tick, toTicks);
      forall n: nat | n <= |tokens| && toTicks(TimeMs(tokens[..n])) <= tick ensures n <= |UpTo(tokens, tick, toTicks)| {
        if n == |tokens| {
          assert tokens[..n] == tokens;
        } else {
          assert tokens[..|tokens| - 1][..n] == tokens[..n];
        }
      }
    }
  }

  lemma {:induction false} CountSnoc(progs: seq<Timed>, x: Timed, tick: nat)
    requires x.tick > tick
    ensures CountUpTo(progs + [x], tick) == CountUpTo(progs, tick)
  {
    if progs != [] {
      CountSnoc(progs[1..], x, tick);
      assert (progs + [x])[1..] == progs[1..] + [x];
    }
  }

  lemma {:induction false} CountAll(progs: seq<Timed>, tick: nat)
    requires forall i :: 0 <= i < |progs| ==> progs[i].tick <= tick
    ensures CountUpTo(progs, tick) == |progs|
  {
    if progs != [] {
      CountAll(progs[1..], tick);
    }
  }

  lemma {:induction false} ProgsUpTo(tokens: seq<int>, tick: nat, toTicks: nat -> nat)
    requires Monotone(toTicks)
    ensures Decode(UpTo(tokens, tick, toTicks), toTicks).progs
         == Decode(tokens, toTicks).progs[..CountUpTo(Decode(tokens, toTicks).progs, tick)]
  {
    var progs := Decode(tokens, toTicks).progs;
    TimeIsDecoded(tokens, toTicks);
    DecodeValid(tokens, toTicks);
    if tokens == [] || toTicks(TimeMs(tokens)) <= tick {
      CountAll(progs, tick);
      assert progs[..|progs|] == progs;
    } else {
      var init := tokens[..|tokens| - 1];
      ProgsUpTo(init, tick, toTicks);
      TimeIsDecoded(init, toTicks);
      LateProg(Decode(init, toTicks), tokens[|tokens| - 1], tick, toTicks);
    }
  }

  /** A program change after the tick is not counted. */
  lemma {:induction false} LateProg(d: Dec, tok: int, tick: nat, toTicks: nat -> nat)
    requires |d.patches| == |d.channels| == 16
    requires toTicks(Step(d, tok, toTicks).timeMs) > tick
    ensures Step(d, tok, toTicks).progs[..CountUpTo(Step(d, tok, toTicks).progs, tick)]
         == d.progs[..CountUpTo(d.progs, tick)]
  {
    var progs := Step(d, tok, toTicks).progs;
    if progs != d.progs {
      assert progs == d.progs + [progs[|d.progs|]];
      CountSnoc(d.progs, progs[|d.progs|], tick);
    }
  }

  // ---- The theorem ----

  /** The program of a channel when a tick is over is the patch its table entry then has. */
  lemma {:induction false} ProgramAfterTick(tokens: seq<int>, tick: nat, toTicks: nat -> nat, ch: int)
    requires Monotone(toTicks) && 0 <= ch < 16
    ensures var progs := Decode(tokens, toTicks).progs;
            var patch := Decode(UpTo(tokens, tick, toTicks), toTicks).patches[ch];
            LastProgram(progs[..CountUpTo(progs, tick)], ch) == if patch == -1 then None else Some(patch)
  {
    ProgsUpTo(tokens, tick, toTicks);
    DecodeValid(UpTo(tokens, tick, toTicks), toTicks);
  }

  /** The patch of a note is still in its channel when the tick is over exactly if the tokens keep it there. */
  lemma {:induction false} PatchAfterTick(tokens: seq<int>, n: nat, toTicks: nat -> nat)
    requires Monotone(toTicks) && n < |tokens|
    requires CurrentPatch(tokens[..n]).Some? && CurrentPatch(tokens[..n]).value < 128
    ensures var d := Decode(tokens[..n], toTicks);
            0 <= d.channel < 16
            && (Decode(UpTo(tokens, toTicks(d.timeMs), toTicks), toTicks).patches[d.channel] == d.patch
                <==> KeepsPatch(tokens, n, toTicks))
  {
    var before, p := tokens[..n], CurrentPatch(tokens[..n]).value;
    var tick := toTicks(TimeMs(before));
    var u := UpTo(tokens, tick, toTicks);
    TimeIsDecoded(before, toTicks);
    PatchIsDecoded(before, toTicks);
    UpToPrefix(tokens, tick, toTicks);
    assert u[..n] == before;
    DecodeLaid(before, toTicks);
    DecodeLaid(u, toTicks);
    PlaceKept(tokens, n, |u|, Decode(before, toTicks), Decode(u, toTicks), p);
  }

  lemma {:induction false} PlaceKept(tokens: seq<int>, n: nat, m: nat, d: Dec, later: Dec, p: int)
    requires n <= m <= |tokens| && Tuned(d) && d.patch == p && 0 <= p < 128
    requires Laid(d.patches, d.channels, FirstSeen(tokens[..n]), LastShared(tokens[..n], Owners(tokens[..n])))
    requires Laid(later.patches, later.channels, FirstSeen(tokens[..m]), LastShared(tokens[..m], Owners(tokens[..m])))
    ensures later.patches[d.channel] == p
            <==> p in Owners(tokens) || LastShared(tokens[..m], Owners(tokens)) == Some(p)
  {
    assert tokens[..m][..n] == tokens[..n];
    SeenGrows(tokens[..m], n);
    SeenGrows(tokens, m);
    PartShared(tokens, n);
    PartShared(tokens, m);
    PlaceOf(d.patches, d.channels, FirstSeen(tokens[..n]), LastShared(tokens[..n], Owners(tokens[..n])), d.channel);
    if d.channel != 15 {
      var i := if d.channel < 9 then d.channel else d.channel - 1;
      assert ChannelOf(i) == d.channel;
      assert Owners(tokens[..n])[i] == p;
      assert p in Owners(tokens);
    } else {
      assert p !in Owners(tokens);
    }
  }

  /**
   A melodic note plays with its own patch if and only if that patch is among the first fourteen of the token
   list, or it is the last of the others to be named before the note's tick is over. Drums are on channel 9.
   */
  lemma {:induction false} InstrumentByTokens(tokens: seq<int>, n: nat, toTicks: nat -> nat, k: nat)
    requires Monotone(toTicks) && n < |tokens| && IsNoteToken(tokens[n]) && CurrentPatch(tokens[..n]).Some?
    requires k < |Stream(tokens, toTicks)|
    requires Stream(tokens, toTicks)[k] == On(NoteOf(Decode(tokens[..n], toTicks), tokens[n], toTicks))
    ensures var p, ch := CurrentPatch(tokens[..n]).value, Stream(tokens, toTicks)[k].msg.ch;
            if p == 128 then ch == 9
            else ch != 9
                 && (LastProgram(Stream(tokens, toTicks)[..k], ch) == Some(p) <==> KeepsPatch(tokens, n, toTicks))
  {
    var d := Decode(tokens[..n], toTicks);
    var e := NoteOf(d, tokens[n], toTicks);
    PatchIsDecoded(tokens[..n], toTicks);
    NoteIsDecoded(tokens, n, toTicks);
    var q := PatchToken(tokens[..n]);
    SplitAt(tokens, q);
    EventsGrow(tokens[..n], q, toTicks);
    assert tokens[..n][..q] == tokens[..q];
    InstrumentExactly(tokens[..q], tokens[q], tokens[q + 1..], toTicks, |d.events|, k);
    if e.patch != 128 {
      OwnProgram(tokens, n, toTicks, q);
    }
  }

  lemma {:induction false} OwnProgram(tokens: seq<int>, n: nat, toTicks: nat -> nat, q: nat)
    requires Monotone(toTicks) && n < |tokens| && IsNoteToken(tokens[n]) && CurrentPatch(tokens[..n]).Some?
    requires q < n && IsPatchToken(tokens[q]) && CurrentPatch(tokens[..n]).value < 128
    ensures !Retuned(Decode(tokens, toTicks).progs, NoteOf(Decode(tokens[..n], toTicks), tokens[n], toTicks))
            <==> KeepsPatch(tokens, n, toTicks)
  {
    var d := Decode(tokens[..n], toTicks);
    var e := NoteOf(d, tokens[n], toTicks);
    var progs := Decode(tokens, toTicks).progs;
    PatchIsDecoded(tokens[..n], toTicks);
    NoteIsDecoded(tokens, n, toTicks);
    SplitAt(tokens, q);
    EventsGrow(tokens[..n], q, toTicks);
    assert tokens[..n][..q] == tokens[..q];
    NotesCovered(tokens[..q], tokens[q], tokens[q + 1..], toTicks);
    DecodeValid(tokens, toTicks);
    RetunedMeans(progs, e);
    ProgramAfterTick(tokens, e.tick, toTicks, e.ch);
    PatchAfterTick(tokens, n, toTicks);
  }

  lemma SplitAt(tokens: seq<int>, q: nat)
    requires q < |tokens|
    ensures tokens[..q] + [tokens[q]] + tokens[q + 1..] == tokens
  {
  }

  lemma {:induction false} PatchToken(tokens: seq<int>) returns (q: nat)
    requires CurrentPatch(tokens).Some?
    ensures q < |tokens| && IsPatchToken(tokens[q])
  {
    if IsPatchToken(tokens[|tokens| - 1]) {
      q := |tokens| - 1;
    } else {
      q := PatchToken(tokens[..|tokens| - 1]);
    }
  }

  lemma {:induction false} EventsGrow(tokens: seq<int>, n: nat, toTicks: nat -> nat)
    requires n <= |tokens|
    ensures Decode(tokens[..n], toTicks).events <= Decode(tokens, toTicks).events
    decreases |tokens|
  {
    if n == |tokens| {
      assert tokens[..n] == tokens;
    } else {
      EventsGrow(tokens[..|tokens| - 1], n, toTicks);
      assert tokens[..|tokens| - 1][..n] == tokens[..n];
    }
  }

  /** The note a token stands for is in the decoded list, behind those of the tokens before it. */
  lemma {:induction false} NoteIsDecoded(tokens: seq<int>, n: nat, toTicks: nat -> nat)
    requires n < |tokens| && IsNoteToken(tokens[n])
    ensures var i := |Decode(tokens[..n], toTicks).events|;
            i < |Decode(tokens, toTicks).events|
            && Decode(tokens, toTicks).events[i] == NoteOf(Decode(tokens[..n], toTicks), tokens[n], toTicks)
  {
    EventsGrow(tokens, n + 1, toTicks);
    assert tokens[..n + 1][..n] == tokens[..n];
    assert Decode(tokens[..n + 1], toTicks) == Step(Decode(tokens[..n], toTicks), tokens[n], toTicks);
    var i := |Decode(tokens[..n], toTicks).events|;
    assert Decode(tokens[..n + 1], toTicks).events[i] == Decode(tokens, toTicks).events[i];
  }
}
