/**
 The labels under which unified output files the channels of a candidate. Two channels with one label share
 one dictionary entry, and the later one overwrites the other's notes.
 */
module Labels {

  /** A label's text, with the channel number it may carry kept apart. */
  datatype Label = Plain(name: string) | Numbered(name: string, ch: int)

  const FAMILIES: seq<string> :=
    ["piano", "chromatic_perc", "organ", "guitar", "bass", "strings", "ensemble", "brass", "reed", "pipe",
     "synth_lead", "synth_pad", "synth_fx", "ethnic", "percussive", "sfx"]

  /** The family of a General MIDI program: eight programs to a family. */
  function Family(program: int): string {
    if 0 <= program < 128 then FAMILIES[program / 8] else "unknown"
  }

  /** No other melodic channel plays a program of the same family. */
  predicate Alone(programs: map<int, int>, ch: int)
    requires ch in programs
  {
    forall c :: c in programs && c != 9 && c != ch ==> Family(programs[c]) != Family(programs[ch])
  }

  function ChannelLabel(ch: int, programs: map<int, int>): Label {
    if ch == 9 then Plain("drums")
    else if ch in programs then
      if Alone(programs, ch) then Plain(Family(programs[ch])) else Numbered(Family(programs[ch]), ch)
    else if ch == 0 then Plain("bass")
    else if ch == 1 then Plain("keys")
    else if ch > 2 then Numbered("melody", ch)
    else Plain("melody")
  }

  /** Eight programs share a family, and no two families share a name. */
  lemma {:induction false} FamilyOfEight(p: int, q: int)
    requires 0 <= p < 128 && 0 <= q < 128
    ensures Family(p) == Family(q) <==> p / 8 == q / 8
  {
    var f := FAMILIES;
    assert f[0][0] == 'p' && f[1][0] == 'c' && f[2][0] == 'o' && f[3][0] == 'g' && f[4][0] == 'b' && f[6][0] == 'e';
    assert f[7][1] == 'r' && f[8][0] == 'r' && f[13][1] == 't' && f[4][1] == 'a' && f[6][1] == 'n';
    assert f[0][1] == 'i' && f[9] == "pipe" && f[9][2] == 'p' && f[0][2] == 'a' && f[14][1] == 'e' && f[9][1] == 'i';
    assert f[5][1] == 't' && f[15][1] == 'f' && f[10][6] == 'l' && f[11][6] == 'p' && f[12][6] == 'f';
    assert f[10][1] == 'y' && f[11][1] == 'y' && f[12][1] == 'y';
  }

  /**
   A melodic channel with a program has a plain label if and only if no other melodic channel plays a program of the
   same eight; else its label has its number. Drums have a label of their own.
   */
  lemma {:induction false} PlainExactly(ch: int, programs: map<int, int>)
    requires ValidPrograms(programs) && ch in programs
    ensures ch == 9 ==> ChannelLabel(ch, programs) == Plain("drums")
    ensures ch != 9 ==>
              (ChannelLabel(ch, programs).Plain? <==>
               forall c :: c in programs && c != 9 && c != ch ==> programs[c] / 8 != programs[ch] / 8)
              && (ChannelLabel(ch, programs).Numbered? ==> ChannelLabel(ch, programs).ch == ch)
  {
    forall c | c in programs
      ensures Family(programs[c]) == Family(programs[ch]) <==> programs[c] / 8 == programs[ch] / 8
    {
      FamilyOfEight(programs[c], programs[ch]);
    }
  }

  /** Without a program the first two channels have names of their own, and the others are melodies. */
  lemma UnprogrammedLabels(ch: nat, programs: map<int, int>)
    requires ch !in programs && ch != 9
    ensures ch == 0 ==> ChannelLabel(ch, programs) == Plain("bass")
    ensures ch == 1 ==> ChannelLabel(ch, programs) == Plain("keys")
    ensures ch == 2 ==> ChannelLabel(ch, programs) == Plain("melody")
    ensures ch >= 3 ==> ChannelLabel(ch, programs) == Numbered("melody", ch)
  {
  }

  predicate ValidPrograms(programs: map<int, int>) {
    forall c :: c in programs ==> 0 <= programs[c] < 128
  }

  /** Channel 0 has no program, and one other channel alone plays a bass program. */
  predicate Clash(channels: seq<int>, programs: map<int, int>) {
    && 0 in channels && 0 !in programs
    && exists i :: 0 <= i < |channels| && channels[i] in programs && channels[i] != 9
                   && Family(programs[channels[i]]) == "bass" && Alone(programs, channels[i])
  }

  /** No family name starts like a reserved label. */
  lemma {:induction false} FamilyNames(program: int)
    requires 0 <= program < 128
    ensures |Family(program)| > 0 && Family(program)[0] !in ['d', 'k', 'm']
  {
    var f := FAMILIES;
    assert f[0][0] == 'p' && f[1][0] == 'c' && f[2][0] == 'o' && f[3][0] == 'g';
    assert f[4][0] == 'b' && f[5][0] == 's' && f[6][0] == 'e' && f[7][0] == 'b';
    assert f[8][0] == 'r' && f[9][0] == 'p' && f[10][0] == 's' && f[11][0] == 's';
    assert f[12][0] == 's' && f[13][0] == 'e' && f[14][0] == 'p' && f[15][0] == 's';
  }

  /** Two channels get one label only if one is channel 0 without a program and the other sounds the only bass. */
  lemma {:induction false} SameLabel(a: int, b: int, programs: map<int, int>)
    requires ValidPrograms(programs) && 0 <= a && 0 <= b && a != b
    ensures ChannelLabel(a, programs) == ChannelLabel(b, programs) <==>
            LoneBass(a, b, programs) || LoneBass(b, a, programs)
  {
    if a in programs {
      FamilyNames(programs[a]);
    }
    if b in programs {
      FamilyNames(programs[b]);
    }
    assert "drums"[0] == 'd' && "keys"[0] == 'k' && "melody"[0] == 'm' && "bass"[0] == 'b';
  }

  predicate LoneBass(zero: int, c: int, programs: map<int, int>) {
    zero == 0 && 0 !in programs && c in programs && c != 9 && Family(programs[c]) == "bass" && Alone(programs, c)
  }

  lemma {:induction false} LoneBassIsNotZero(c: int, programs: map<int, int>)
    requires LoneBass(0, c, programs)
    ensures c != 0
  {
  }

  ghost predicate DistinctLabels(channels: seq<int>, programs: map<int, int>) {
    forall i, j :: 0 <= i < j < |channels| ==>
                     ChannelLabel(channels[i], programs) != ChannelLabel(channels[j], programs)
  }

  /** The labels tell the channels apart exactly when there is no such clash. */
  lemma {:induction false} LabelsDistinctExactly(channels: seq<int>, programs: map<int, int>)
    requires ValidPrograms(programs) && forall i :: 0 <= i < |channels| ==> 0 <= channels[i] < 16
    requires forall i, j :: 0 <= i < j < |channels| ==> channels[i] != channels[j]
    ensures DistinctLabels(channels, programs) <==> !Clash(channels, programs)
  {
    forall i, j | 0 <= i < j < |channels|
      ensures ChannelLabel(channels[i], programs) == ChannelLabel(channels[j], programs) ==> Clash(channels, programs) {
      SameLabel(channels[i], channels[j], programs);
    }
    if Clash(channels, programs) {
      var z: nat :| z < |channels| && channels[z] == 0;
      var i: nat :| i < |channels| && LoneBass(0, channels[i], programs);
      var c := channels[i];
      assert LoneBass(0, c, programs);
      LoneBassIsNotZero(c, programs);
      SameLabel(0, c, programs);
      assert z < i || i < z;
    }
  }

  /** Among the first `n` channels, `i` is the last with its label. */
  predicate LastWithLabel(channels: seq<int>, programs: map<int, int>, i: nat, n: nat)
    requires n <= |channels|
  {
    i < n && forall j :: i < j < n ==> ChannelLabel(channels[j], programs) != ChannelLabel(channels[i], programs)
  }

  function LabelsOf(channels: seq<int>, programs: map<int, int>): set<Label> {
    set ch | ch in channels :: ChannelLabel(ch, programs)
  }

  /** The dictionary of unified output; `notes` stands for each channel's converted notes. */
  method UnifiedOutput<T>(channels: seq<int>, notes: int -> T, programs: map<int, int>) returns (out: map<Label, T>)
    ensures out.Keys == LabelsOf(channels, programs)
    ensures forall i: nat :: LastWithLabel(channels, programs, i, |channels|) ==>
                               ChannelLabel(channels[i], programs) in out
                               && out[ChannelLabel(channels[i], programs)] == notes(channels[i])
  {
    out := map[];
    for k := 0 to |channels|
      invariant out.Keys == LabelsOf(channels[..k], programs)
      invariant forall i: nat :: LastWithLabel(channels, programs, i, k) ==>
                                   ChannelLabel(channels[i], programs) in out
                                   && out[ChannelLabel(channels[i], programs)] == notes(channels[i])
    {
      var l := ChannelLabel(channels[k], programs);
      forall i: nat | LastWithLabel(channels, programs, i, k + 1)
        ensures i == k || (ChannelLabel(channels[i], programs) != l && LastWithLabel(channels, programs, i, k)) {
      }
      out := out[l := notes(channels[k])];
      assert channels[..k + 1] == channels[..k] + [channels[k]];
    }
    assert channels[..|channels|] == channels;
  }

  /** A clash: channel 0 has no program and channel 1 plays electric bass. Both are labelled as bass. */
  lemma {:induction false} BassClash()
    ensures Clash([0, 1], map[1 := 33]) && !DistinctLabels([0, 1], map[1 := 33])
    ensures ChannelLabel(0, map[1 := 33]) == ChannelLabel(1, map[1 := 33]) == Plain("bass")
  {
    var channels := [0, 1];
    assert channels[0] == 0 && channels[1] == 1 && Family(33) == "bass";
    assert ChannelLabel(channels[0], map[1 := 33]) == ChannelLabel(channels[1], map[1 := 33]);
  }

  /** The output then has one entry, and the notes of channel 0 are lost. */
  method BassClashOutput<T>(notes: int -> T) returns (out: map<Label, T>)
    ensures out == map[Plain("bass") := notes(1)]
  {
    BassClash();
    out := UnifiedOutput([0, 1], notes, map[1 := 33]);
    assert LastWithLabel([0, 1], map[1 := 33], 1, 2);
    assert LabelsOf([0, 1], map[1 := 33]) == {Plain("bass")} by {
      assert 0 in [0, 1] && forall ch :: ch in [0, 1] ==> ch == 0 || ch == 1;
    }
    assert out.Keys == {Plain("bass")};
  }

  /** Without a clash every channel keeps its own notes. */
  lemma {:induction false} NoClashNoLoss(channels: seq<int>, programs: map<int, int>, i: nat)
    requires ValidPrograms(programs) && forall k :: 0 <= k < |channels| ==> 0 <= channels[k] < 16
    requires forall k, l :: 0 <= k < l < |channels| ==> channels[k] != channels[l]
    requires !Clash(channels, programs) && i < |channels|
    ensures LastWithLabel(channels, programs, i, |channels|)
  {
    LabelsDistinctExactly(channels, programs);
  }
}
