/**
 What a note token becomes, told from the token values alone: pitch, velocity, time, length and channel of the
 decoded note, and its two messages in the sorted stream.
 */
module NoteTokens {
  import opened Smf
  import opened Sorting
  import opened Tokens
  import opened Compile
  import opened Instruments

  predicate IsPatch(tok: int) { 256 <= tok < 16768 }

  predicate IsNote(tok: int) { 16768 <= tok < 18816 }

  predicate NoPatches(tokens: seq<int>) { forall i :: 0 <= i < |tokens| ==> !IsPatch(tokens[i]) }

  function NoteCount(tokens: seq<int>): nat {
    if tokens == [] then 0
    else NoteCount(tokens[..|tokens| - 1]) + if IsNote(tokens[|tokens| - 1]) then 1 else 0
  }

  /** The notes are those of the note tokens, one each. */
  lemma {:induction false} EveryNoteToken(tokens: seq<int>, toTicks: nat -> nat)
    ensures |Decode(tokens, toTicks).events| == NoteCount(tokens)
  {
    if tokens != [] {
      EveryNoteToken(tokens[..|tokens| - 1], toTicks);
    }
  }

  /** The last patch token sets pitch and patch, and the channel of drums; other tokens leave them alone. */
  lemma {:induction false} LastPatchHolds(pre: seq<int>, p: int, mid: seq<int>, toTicks: nat -> nat)
    requires IsPatch(p) && NoPatches(mid)
    ensures var d := Decode(pre + [p] + mid, toTicks);
            && d.pitch == (p - 256) % 128 && d.patch == (p - 256) / 128
            && ((p - 256) / 128 == 128 ==> d.channel == 9)
            && ((p - 256) / 128 < 128 ==> d.channel == Decode(pre + [p], toTicks).channel)
    decreases |mid|
  {
    var all := pre + [p] + mid;
    if mid == [] {
      assert all == pre + [p] && all[..|all| - 1] == pre;
    } else {
      var n := |mid| - 1;
      assert all[..|all| - 1] == pre + [p] + mid[..n];
      LastPatchHolds(pre, p, mid[..n], toTicks);
    }
  }

  lemma {:induction false} NoPatchYet(pre: seq<int>, toTicks: nat -> nat)
    requires NoPatches(pre)
    ensures var d := Decode(pre, toTicks); d.pitch == 60 && d.patch == 0 && d.channel == 0
  {
    if pre != [] {
      NoPatchYet(pre[..|pre| - 1], toTicks);
    }
  }

  /** The note of a note token, but for what the patch tokens before it say. */
  lemma {:induction false} NoteOfToken(pre: seq<int>, n: int, post: seq<int>, toTicks: nat -> nat)
    requires IsNote(n)
    ensures NoteCount(pre) < |Decode(pre + [n] + post, toTicks).events|
    ensures var e, d := Decode(pre + [n] + post, toTicks).events[NoteCount(pre)], Decode(pre, toTicks);
            && e.note == d.pitch && e.ch == d.channel && e.patch == d.patch
            && e.vel == ((n - 16768) % 8 + 1) * 15
            && e.tick == toTicks(TimeMs(pre))
            && e.dur == (if toTicks((n - 16768) / 8 * 16) < 1 then 1 else toTicks((n - 16768) / 8 * 16))
  {
    var tokens := pre + [n] + post;
    assert tokens[..|pre|] == pre && tokens[|pre|] == n;
    EveryNoteToken(pre, toTicks);
    NoteIsDecoded(tokens, |pre|, toTicks);
    TimeIsDecoded(pre, toTicks);
  }

  /**
   The note of a note token has the pitch and the patch of the last patch token before it, a velocity and a length
   of its own, and begins when the time tokens before it are over. Drums are on channel 9, a patch among the first
   fourteen melodic ones is on its own channel, and any other melodic one on channel 15.
   */
  lemma {:induction false} NoteByTokens(pre: seq<int>, p: int, mid: seq<int>, n: int, post: seq<int>,
                                        toTicks: nat -> nat)
    requires IsPatch(p) && NoPatches(mid) && IsNote(n)
    ensures var all := pre + [p] + mid + [n] + post;
            NoteCount(pre + [p] + mid) < |Decode(all, toTicks).events|
    ensures var e := Decode(pre + [p] + mid + [n] + post, toTicks).events[NoteCount(pre + [p] + mid)];
            && e.note == (p - 256) % 128 && e.patch == (p - 256) / 128
            && e.vel == ((n - 16768) % 8 + 1) * 15
            && e.tick == toTicks(TimeMs(pre + [p] + mid))
            && e.dur == (if toTicks((n - 16768) / 8 * 16) < 1 then 1 else toTicks((n - 16768) / 8 * 16))
            && (e.patch == 128 ==> e.ch == 9)
            && (e.patch < 128 && e.patch !in Owners(pre + [p]) ==> e.ch == 15)
            && (e.patch < 128 && e.patch in Owners(pre + [p]) ==>
                  exists i: nat :: IsPlace(FirstSeen(pre + [p]), i, e.patch) && e.ch == if i < 9 then i else i + 1)
  {
    LastPatchHolds(pre, p, mid, toTicks);
    NoteOfToken(pre + [p] + mid, n, post, toTicks);
    if (p - 256) / 128 < 128 {
      PatchChannel(pre, p, toTicks);
    }
  }

  predicate IsPlace(seen: seq<int>, i: nat, patch: int) { i < |seen| && i < 14 && seen[i] == patch }

  lemma {:induction false} PatchChannel(pre: seq<int>, p: int, toTicks: nat -> nat)
    requires IsPatch(p) && (p - 256) / 128 < 128
    ensures var patch, ch := (p - 256) / 128, Decode(pre + [p], toTicks).channel;
            && (patch !in Owners(pre + [p]) ==> ch == 15)
            && (patch in Owners(pre + [p]) ==>
                  exists i: nat :: IsPlace(FirstSeen(pre + [p]), i, patch) && ch == if i < 9 then i else i + 1)
  {
    var t, patch := pre + [p], (p - 256) / 128;
    assert t[..|t| - 1] == pre;
    var d := Decode(t, toTicks);
    assert patch in d.patches && d.channel == IndexOf(d.patches, patch);
    DecodeLaid(t, toTicks);
    SeenPatches(t);
    OwnerPlace(d.patches, d.channels, FirstSeen(t), LastShared(t, Owners(t)), patch);
    if patch in Owners(t) {
      var i: nat :| i < |FirstSeen(t)| && i < 14 && FirstSeen(t)[i] == patch
                    && IndexOf(d.patches, patch) == ChannelOf(i);
      assert IsPlace(FirstSeen(t), i, patch);
    }
  }

  /** Before any patch token a note is middle C on channel 0. */
  lemma {:induction false} NoteBeforePatches(pre: seq<int>, n: int, post: seq<int>, toTicks: nat -> nat)
    requires NoPatches(pre) && IsNote(n)
    ensures NoteCount(pre) < |Decode(pre + [n] + post, toTicks).events|
    ensures var e := Decode(pre + [n] + post, toTicks).events[NoteCount(pre)];
            e.note == 60 && e.ch == 0 && e.patch == 0 && e.tick == toTicks(TimeMs(pre))
  {
    NoPatchYet(pre, toTicks);
    NoteOfToken(pre, n, post, toTicks);
  }

  /** A note token is heard: its two messages are in the stream, and so in the file. */
  lemma {:induction false} NoteIsHeard(pre: seq<int>, p: int, mid: seq<int>, n: int, post: seq<int>,
                                       toTicks: nat -> nat)
    requires Monotone(toTicks) && IsPatch(p) && NoPatches(mid) && IsNote(n)
    ensures var all := pre + [p] + mid + [n] + post;
            var pitch, vel, tick := (p - 256) % 128, ((n - 16768) % 8 + 1) * 15, toTicks(TimeMs(pre + [p] + mid));
            var dur := if toTicks((n - 16768) / 8 * 16) < 1 then 1 else toTicks((n - 16768) / 8 * 16);
            exists ch :: (ch == 9 <==> (p - 256) / 128 == 128)
                         && Timed(tick, NoteOn(ch, pitch, vel)) in Stream(all, toTicks)
                         && Timed(tick + dur, NoteOff(ch, pitch, 0)) in Stream(all, toTicks)
  {
    var all := pre + [p] + mid + [n] + post;
    var i := NoteCount(pre + [p] + mid);
    NoteByTokens(pre, p, mid, n, post, toTicks);
    NotesAppear(all, toTicks, i);
    var e := Decode(all, toTicks).events[i];
    assert Played(Decode(all, toTicks))[i] == e;
    assert Timed(e.tick, NoteOn(e.ch, e.note, e.vel)) == On(e);
    assert Timed(e.tick + e.dur, NoteOff(e.ch, e.note, 0)) == Off(e);
  }

  /** Without a note token the file has one made-up note, half a beat of middle C, and no other. */
  lemma {:induction false} NoNotes(tokens: seq<int>, toTicks: nat -> nat)
    requires NoteCount(tokens) == 0
    ensures Timed(0, NoteOn(0, 60, 80)) in Stream(tokens, toTicks)
    ensures Timed(240, NoteOff(0, 60, 0)) in Stream(tokens, toTicks)
    ensures forall x :: x in Stream(tokens, toTicks) ==>
              x in Decode(tokens, toTicks).progs
              || x == Timed(0, NoteOn(0, 60, 80)) || x == Timed(240, NoteOff(0, 60, 0))
  {
    var d := Decode(tokens, toTicks);
    EveryNoteToken(tokens, toTicks);
    var e := Played(d)[0];
    assert Played(d)[1..] == [];
    assert NoteMsgs(Played(d)) == [On(e), Off(e)] + NoteMsgs([]);
    assert On(e) == Timed(0, NoteOn(0, 60, 80)) && Off(e) == Timed(240, NoteOff(0, 60, 0));
    assert On(e) == NoteMsgs(Played(d))[0] && Off(e) == NoteMsgs(Played(d))[1];
    forall x ensures x in Stream(tokens, toTicks) <==> x in d.progs || x == On(e) || x == Off(e) {
      SortMember(Unsorted(d), ByTick(), x);
    }
  }
}
