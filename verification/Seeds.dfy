/**
 Choosing a seed by key and transposing it: `select_seed_with_key`, `transpose_midi`, and what the detector
 says about the result.
 */
module Seeds {
  import opened Arithmetic
  import opened Options
  import opened Smf
  import opened Sorting
  import opened KeyDetection

  // ---- Transposing a file ----

  /** A note that is moved: all but those of the drum channel, or those too if drums are not skipped. */
  predicate IsMoved(m: Msg, skipDrums: bool) { !m.Program? && !(skipDrums && m.ch == 9) }

  /** Pitches are held to 0..127. */
  function TransposeMsg(m: Msg, k: int, skipDrums: bool): Msg {
    if IsMoved(m, skipDrums) then m.(note := Clamp(0, 127, m.note + k)) else m
  }

  function Transposed(msgs: seq<Msg>, k: int, skipDrums: bool): (r: seq<Msg>)
    ensures |r| == |msgs|
  {
    seq(|msgs|, i requires 0 <= i < |msgs| => TransposeMsg(msgs[i], k, skipDrums))
  }

  function Moves(skipDrums: bool): Msg -> bool { (m: Msg) => IsMoved(m, skipDrums) }

  /** The note would leave the pitch range. */
  function Leaves(k: int, skipDrums: bool): Msg -> bool {
    (m: Msg) => IsMoved(m, skipDrums) && !(0 <= m.note + k <= 127)
  }

  /** The transposed file is a new one; without a shift it is the original itself. */
  method TransposeMidi(original: array<Msg>, semitones: int, skipDrums: bool)
    returns (r: array<Msg>, shifted: nat, clamped: nat)
    ensures original[..] == old(original[..])
    ensures semitones == 0 ==> r == original
    ensures semitones != 0 ==> fresh(r) && r[..] == Transposed(original[..], semitones, skipDrums)
    ensures semitones != 0 ==> shifted == |Filter(original[..], Moves(skipDrums))|
    ensures semitones != 0 ==> clamped == |Filter(original[..], Leaves(semitones, skipDrums))|
  {
    if semitones == 0 {
      return original, 0, 0;
    }
    r := new Msg[original.Length](i requires 0 <= i < original.Length reads original => original[i]);
    assert r[..] == original[..];
    shifted, clamped := MoveNotes(r, semitones, skipDrums);
  }

  /** The in-place loop over the messages of the copy, with its two counters. */
  method MoveNotes(msgs: array<Msg>, semitones: int, skipDrums: bool) returns (shifted: nat, clamped: nat)
    modifies msgs
    ensures msgs[..] == Transposed(old(msgs[..]), semitones, skipDrums)
    ensures shifted == |Filter(old(msgs[..]), Moves(skipDrums))|
    ensures clamped == |Filter(old(msgs[..]), Leaves(semitones, skipDrums))|
  {
    shifted, clamped := 0, 0;
    ghost var before := msgs[..];
    for i := 0 to msgs.Length
      invariant forall j :: 0 <= j < i ==> msgs[j] == TransposeMsg(before[j], semitones, skipDrums)
      invariant forall j :: i <= j < msgs.Length ==> msgs[j] == before[j]
      invariant shifted == |Filter(before[..i], Moves(skipDrums))|
      invariant clamped == |Filter(before[..i], Leaves(semitones, skipDrums))|
    {
      FilterSnoc(before, i, Moves(skipDrums));
      FilterSnoc(before, i, Leaves(semitones, skipDrums));
      var m := msgs[i];
      if !m.Program? && !(skipDrums && m.ch == 9) {
        var p := m.note + semitones;
        if p < 0 {
          p := 0;
          clamped := clamped + 1;
        } else if p > 127 {
          p := 127;
          clamped := clamped + 1;
        }
        msgs[i] := m.(note := p);
        shifted := shifted + 1;
      }
    }
    assert before[..msgs.Length] == before;
  }

  /** The pitches `detect_key` collects: sounding note-ons, off the drum channel if that is skipped. */
  function KeyPitches(msgs: seq<Msg>, skipDrums: bool): seq<int> {
    if msgs == [] then []
    else
      var m := msgs[|msgs| - 1];
      KeyPitches(msgs[..|msgs| - 1], skipDrums) +
      if m.NoteOn? && m.vel > 0 && !(skipDrums && m.ch == 9) then [m.note] else []
  }

  /** A note-on that sounds, and is not a drum if drums are skipped. */
  function Heard(skipDrums: bool): Msg -> bool {
    (m: Msg) => match m
      case NoteOn(ch, _, vel) => vel > 0 && (ch != 9 || !skipDrums)
      case NoteOff(_, _, _) => false
      case Program(_, _) => false
  }

  /** The detector sees the pitches of those messages in order, and nothing of the others. */
  lemma {:induction false} KeyPitchesAre(msgs: seq<Msg>, skipDrums: bool)
    ensures var heard := Filter(msgs, Heard(skipDrums));
            && |KeyPitches(msgs, skipDrums)| == |heard|
            && forall i :: 0 <= i < |heard| ==> heard[i].NoteOn? && KeyPitches(msgs, skipDrums)[i] == heard[i].note
  {
    if msgs != [] {
      var n := |msgs| - 1;
      KeyPitchesAre(msgs[..n], skipDrums);
      FilterSnoc(msgs, n, Heard(skipDrums));
      assert msgs[..n + 1] == msgs;
    }
  }

  /**
   Every note-on and note-off off the drum channel moves by the shift, or to the end of the pitch range it would
   leave; drums move so only if they are not skipped, and program changes never.
   */
  lemma {:induction false} MovedExactly(msgs: seq<Msg>, k: int, skipDrums: bool, i: nat)
    requires i < |msgs|
    ensures var m, after := msgs[i], Transposed(msgs, k, skipDrums)[i];
            if m.Program? || (m.ch == 9 && skipDrums) then after == m
            else
              && after == m.(note := after.note)
              && (0 <= m.note + k <= 127 ==> after.note == m.note + k)
              && (m.note + k > 127 ==> after.note == 127)
              && (m.note + k < 0 ==> after.note == 0)
  {
  }

  predicate InRange(msgs: seq<Msg>, k: int, skipDrums: bool) {
    forall i :: 0 <= i < |msgs| && IsMoved(msgs[i], skipDrums) ==> 0 <= msgs[i].note + k <= 127
  }

  /** The clamp counter tells whether the transposition was exact. */
  lemma {:induction false} NoneClamped(msgs: seq<Msg>, k: int, skipDrums: bool)
    ensures |Filter(msgs, Leaves(k, skipDrums))| == 0 <==> InRange(msgs, k, skipDrums)
  {
    if InRange(msgs, k, skipDrums) {
      FilterEmpty(msgs, Leaves(k, skipDrums));
    }
    forall i | 0 <= i < |msgs| && Leaves(k, skipDrums)(msgs[i]) ensures Filter(msgs, Leaves(k, skipDrums)) != [] {
      FilterMember(msgs, Leaves(k, skipDrums), msgs[i]);
    }
  }

  lemma {:induction false} TransposedPitches(msgs: seq<Msg>, k: int, skipDrums: bool)
    requires InRange(msgs, k, skipDrums)
    ensures KeyPitches(Transposed(msgs, k, skipDrums), skipDrums) == Shift(KeyPitches(msgs, skipDrums), k)
  {
    if msgs != [] {
      var n := |msgs| - 1;
      TransposedPitches(msgs[..n], k, skipDrums);
      assert Transposed(msgs, k, skipDrums)[..n] == Transposed(msgs[..n], k, skipDrums);
      if !msgs[n].Program? {
        ShiftSnoc(KeyPitches(msgs[..n], skipDrums), msgs[n].note, k);
      }
    }
  }

  lemma ShiftSnoc(pitches: seq<int>, p: int, k: int)
    ensures Shift(pitches + [p], k) == Shift(pitches, k) + [p + k]
  {
  }

  /**
   A seed whose best key is unique, moved by the computed distance without hitting the ends of the pitch
   range, has the target tonic and its old mode as its unique best key.
   */
  lemma {:induction false} SeedReachesTarget(c: Profiles, msgs: seq<Msg>, best: nat, target: int, skipDrums: bool)
    requires UniqueBest(c, Histogram(KeyPitches(msgs, skipDrums)), best) && 0 <= target < 12
    requires InRange(msgs, TransposeDistance(best / 2, target), skipDrums)
    ensures var moved := Transposed(msgs, TransposeDistance(best / 2, target), skipDrums);
            UniqueBest(c, Histogram(KeyPitches(moved, skipDrums)), 2 * target + best % 2)
            && |KeyPitches(moved, skipDrums)| == |KeyPitches(msgs, skipDrums)|
  {
    var d := TransposeDistance(best / 2, target);
    TransposedPitches(msgs, d, skipDrums);
    DetectionMoves(c, KeyPitches(msgs, skipDrums), d, best);
    MovedToTarget(best, target);
  }

  /** `detect_key` on the messages of a file. */
  method DetectFileKey(c: Profiles, msgs: seq<Msg>, minNotes: nat, skipDrums: bool) returns (r: Option<(int, Mode)>)
    requires c.Valid()
    ensures r.None? <==> |KeyPitches(msgs, skipDrums)| < minNotes || KeyPitches(msgs, skipDrums) == []
    ensures r.Some? ==> 0 <= r.value.0 < 12
                        && FirstBest(c, Histogram(KeyPitches(msgs, skipDrums)), 24, KeyNumber(r.value.0, r.value.1))
    ensures r.Some? ==> BestKey(c, KeyPitches(msgs, skipDrums), r.value.0, r.value.1)
  {
    var pitches: seq<int> := [];
    for i := 0 to |msgs|
      invariant pitches == KeyPitches(msgs[..i], skipDrums)
    {
      assert msgs[..i + 1][..i] == msgs[..i];
      if msgs[i].NoteOn? && msgs[i].vel > 0 {
        if !(skipDrums && msgs[i].ch == 9) {
          pitches := pitches + [msgs[i].note];
        }
      }
    }
    assert msgs[..|msgs|] == msgs;
    r := DetectKey(c, pitches, minNotes);
  }

  /**
   From detection to detection: if the detector finds a key in the seed and no other key correlates as well,
   then on the transposed seed it finds the target tonic in the same mode.
   */
  lemma {:induction false} SeedIsDetectedAtTarget(c: Profiles, msgs: seq<Msg>, best: nat, target: int, skipDrums: bool,
                                                  found: (int, Mode))
    requires UniqueBest(c, Histogram(KeyPitches(msgs, skipDrums)), best) && 0 <= target < 12
    requires InRange(msgs, TransposeDistance(best / 2, target), skipDrums) && 0 <= found.0 < 12
    requires var moved := Transposed(msgs, TransposeDistance(best / 2, target), skipDrums);
             FirstBest(c, Histogram(KeyPitches(moved, skipDrums)), 24, KeyNumber(found.0, found.1))
    ensures found == (target, KeyOf(best).1)
  {
    var moved := Transposed(msgs, TransposeDistance(best / 2, target), skipDrums);
    SeedReachesTarget(c, msgs, best, target, skipDrums);
    UniqueIsDetected(c, Histogram(KeyPitches(moved, skipDrums)), 2 * target + best % 2, KeyNumber(found.0, found.1));
  }

  lemma {:induction false} MovedToTarget(best: nat, target: int)
    requires best < 24 && 0 <= target < 12
    ensures MovedKey(best, TransposeDistance(best / 2, target)) == 2 * target + best % 2
  {
    DistanceIsShortest(best / 2, target, target - best / 2);
  }

  // ---- Choosing a seed ----

  /** A library entry: its detected tonic, if known and readable, and its score in ten-thousandths. */
  datatype Seed = Seed(file: string, key: Option<int>, score: int)

  /** The requested key: not given, not readable, or a tonic. */
  datatype Target = NoTarget | Unreadable | Tonic(pc: int)

  /** 0..6 for a seed whose key is known, 7 otherwise. */
  function KeyDistance(key: Option<int>, target: Target): nat {
    if key.Some? && target.Tonic? then Abs(TransposeDistance(key.value, target.pc)) else 7
  }

  function ByKeyThenScore(target: Target): Seed -> Rank {
    (s: Seed) => Rank(KeyDistance(s.key, target), -s.score)
  }

  function Transposition(s: Seed, target: Target): int {
    if s.key.Some? && target.Tonic? then TransposeDistance(s.key.value, target.pc) else 0
  }

  function Ranked(seeds: seq<Seed>, target: Target): (r: seq<Seed>)
    ensures |r| == |seeds|
  {
    SortPermutes(seeds, ByKeyThenScore(target));
    Sort(seeds, ByKeyThenScore(target))
  }

  /** The entries at the least distance, in sorted order. */
  function TopTier(sorted: seq<Seed>, target: Target, dist: nat): seq<Seed> {
    Filter(sorted, AtDistance(target, dist))
  }

  function AtDistance(target: Target, dist: nat): Seed -> bool { (s: Seed) => KeyDistance(s.key, target) == dist }

  /** Python's `s[min(rank, len(s) - 1)]`: a negative rank counts from the end, and may leave the list. */
  function AtRank(s: seq<Seed>, rank: int): Option<Seed>
    requires s != []
  {
    var i := if rank < |s| - 1 then rank else |s| - 1;
    if i >= 0 then Some(s[i]) else if i >= -|s| then Some(s[|s| + i]) else None
  }

  /** The entry that is chosen, if the rank is one of the list; `choice` stands for the random draw. */
  function Choice(seeds: seq<Seed>, target: Target, rank: int, randomize: bool, choice: nat): Option<Seed>
    requires seeds != []
  {
    if target == NoTarget then
      if randomize then Some(seeds[choice % |seeds|]) else AtRank(seeds, rank)
    else
      var sorted := Ranked(seeds, target);
      if randomize then
        var tier := TopTier(sorted, target, KeyDistance(sorted[0].key, target));
        TierNotEmpty(sorted, target);
        Some(tier[choice % |tier|])
      else AtRank(sorted, rank)
  }

  lemma {:induction false} TierNotEmpty(sorted: seq<Seed>, target: Target)
    requires sorted != []
    ensures TopTier(sorted, target, KeyDistance(sorted[0].key, target)) != []
  {
    FilterMember(sorted, AtDistance(target, KeyDistance(sorted[0].key, target)), sorted[0]);
  }

  datatype Selection = NoSeed | Selected(seed: Seed, shift: int) | IndexError

  /**
   Nothing comes of an empty library or a missing file, and a rank too far below zero is an error; else the
   choice, with the transposition to the target.
   */
  method SelectSeedWithKey(seeds: seq<Seed>, target: Target, rank: int, randomize: bool, choice: nat,
                           onDisk: string -> bool)
    returns (r: Selection)
    ensures r == if seeds == [] then NoSeed
                 else match Choice(seeds, target, rank, randomize, choice)
                   case None => IndexError
                   case Some(entry) =>
                     if onDisk(entry.file) then Selected(entry, Transposition(entry, target)) else NoSeed
  {
    if seeds == [] {
      return NoSeed;
    }
    var entry;
    if target != NoTarget {
      var sorted := Ranked(seeds, target);
      if randomize {
        var bestDist := KeyDistance(sorted[0].key, target);
        var topTier := TopTier(sorted, target, bestDist);
        TierNotEmpty(sorted, target);
        entry := Some(topTier[choice % |topTier|]);
      } else {
        entry := AtRank(sorted, rank);
      }
    } else if randomize {
      entry := Some(seeds[choice % |seeds|]);
    } else {
      entry := AtRank(seeds, rank);
    }
    if entry.None? {
      return IndexError;
    }
    if !onDisk(entry.value.file) {
      return NoSeed;
    }
    return Selected(entry.value, Transposition(entry.value, target));
  }

  /**
   There is a choice unless a rank counts back past the first seed. With a target the seed at the first rank, or a
   random one of the top tier, is a nearest one, and the former has the highest score among these; the seed at any
   rank of `|seeds| - 1` or more, or at -1, is a farthest one.
   */
  lemma {:induction false} ChoiceIsNearest(seeds: seq<Seed>, target: Target, rank: int, randomize: bool, choice: nat)
    requires seeds != []
    ensures Choice(seeds, target, rank, randomize, choice).None? <==> !randomize && rank < -|seeds|
    ensures var c := Choice(seeds, target, rank, randomize, choice);
      c.Some? ==>
        && c.value in seeds
        && (target != NoTarget && (randomize || rank == 0) ==>
              forall s :: s in seeds ==> KeyDistance(c.value.key, target) <= KeyDistance(s.key, target))
        && (target != NoTarget && !randomize && rank == 0 ==>
              forall s :: s in seeds && KeyDistance(s.key, target) == KeyDistance(c.value.key, target) ==>
                            s.score <= c.value.score)
        && (target != NoTarget && !randomize && (rank == -1 || rank >= |seeds| - 1) ==>
              forall s :: s in seeds ==> KeyDistance(s.key, target) <= KeyDistance(c.value.key, target))
  {
    var c := Choice(seeds, target, rank, randomize, choice);
    if target != NoTarget && c.Some? {
      var sorted := Ranked(seeds, target);
      EndsOfSort(seeds, ByKeyThenScore(target));
      SortMember(seeds, ByKeyThenScore(target), c.value);
      if randomize {
        TierNotEmpty(sorted, target);
        FilterMember(sorted, AtDistance(target, KeyDistance(sorted[0].key, target)), c.value);
      }
    }
  }

  /**
   A seed whose key is not known comes after all others, and is not moved; a known one is moved onto the target. So
   with a target the first choice and a random one have a known key if any seed has one.
   */
  lemma {:induction false} KnownKeysFirst(seeds: seq<Seed>, target: int, rank: int, randomize: bool, choice: nat)
    requires seeds != [] && (randomize || rank == 0)
    ensures var c := Choice(seeds, Tonic(target), rank, randomize, choice);
            && c.Some? && c.value in seeds
            && ((exists s :: s in seeds && s.key.Some?) ==> c.value.key.Some?)
            && (c.value.key.None? ==> Transposition(c.value, Tonic(target)) == 0)
            && (c.value.key.Some? ==> (c.value.key.value + Transposition(c.value, Tonic(target))) % 12 == target % 12)
  {
    ChoiceIsNearest(seeds, Tonic(target), rank, randomize, choice);
    var c := Choice(seeds, Tonic(target), rank, randomize, choice).value;
    if s :| s in seeds && s.key.Some? {
      DistanceIsShortest(s.key.value, target, target - s.key.value);
      assert KeyDistance(s.key, Tonic(target)) <= 6;
      assert KeyDistance(c.key, Tonic(target)) <= KeyDistance(s.key, Tonic(target));
    }
    if c.key.Some? {
      DistanceIsShortest(c.key.value, target, target - c.key.value);
    }
  }

  /** Over the ranks the choices are all the seeds, in the order of distance, then of falling score. */
  lemma {:induction false} RanksInOrder(seeds: seq<Seed>, target: Target, choice: nat) returns (chosen: seq<Seed>)
    requires seeds != [] && target != NoTarget
    ensures |chosen| == |seeds| && multiset(chosen) == multiset(seeds)
    ensures forall r: nat :: r < |seeds| ==> Choice(seeds, target, r, false, choice) == Some(chosen[r])
    ensures forall r: int :: -|seeds| <= r < 0 ==> Choice(seeds, target, r, false, choice) == Some(chosen[|seeds| + r])
    ensures forall q, r :: 0 <= q < r < |chosen| ==> NotWorse(chosen[q], chosen[r], target)
  {
    chosen := Ranked(seeds, target);
    SortSorts(seeds, ByKeyThenScore(target));
    SortPermutes(seeds, ByKeyThenScore(target));
    forall q, r | 0 <= q < r < |chosen| ensures NotWorse(chosen[q], chosen[r], target) {
      assert Le(ByKeyThenScore(target)(chosen[q]), ByKeyThenScore(target)(chosen[r]));
    }
  }

  /** Nearer to the target, or as near and not of a lower score. */
  predicate NotWorse(a: Seed, b: Seed, target: Target) {
    KeyDistance(a.key, target) < KeyDistance(b.key, target)
    || (KeyDistance(a.key, target) == KeyDistance(b.key, target) && a.score >= b.score)
  }

  lemma {:induction false} EndsOfSort<T>(s: seq<T>, key: T -> Rank)
    requires s != []
    ensures |Sort(s, key)| == |s|
    ensures forall x :: x in s ==> Le(key(Sort(s, key)[0]), key(x)) && Le(key(x), key(Sort(s, key)[|s| - 1]))
  {
    SortSorts(s, key);
    SortPermutes(s, key);
    var t := Sort(s, key);
    forall x | x in s ensures Le(key(t[0]), key(x)) && Le(key(x), key(t[|s| - 1])) {
      SortMember(s, key, x);
      var i: nat :| i < |t| && t[i] == x;
      assert i > 0 ==> Le(key(t[0]), key(t[i]));
      assert i < |s| - 1 ==> Le(key(t[i]), key(t[|s| - 1]));
    }
  }

  /**
   Selection and transposition together: a seed chosen for a tonic needs a shift no longer than any other
   seed would, and the shift leads from its own key to the target.
   */
  lemma {:induction false} ChosenSeedNeedsLeastShift(chosen: Seed, other: Seed, target: int)
    requires chosen.key.Some? && other.key.Some?
    requires KeyDistance(chosen.key, Tonic(target)) <= KeyDistance(other.key, Tonic(target))
    ensures (chosen.key.value + Transposition(chosen, Tonic(target))) % 12 == target % 12
    ensures forall k: int :: (other.key.value + k) % 12 == target % 12 ==>
                               Abs(Transposition(chosen, Tonic(target))) <= Abs(k)
  {
    DistanceIsShortest(chosen.key.value, target, target - chosen.key.value);
    forall k: int | (other.key.value + k) % 12 == target % 12
      ensures Abs(Transposition(chosen, Tonic(target))) <= Abs(k) {
      DistanceIsShortest(other.key.value, target, k);
    }
  }
}
