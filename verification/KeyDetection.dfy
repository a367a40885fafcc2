/**
 Krumhansl-Schmuckler key detection and the rotations around it.

 The correlation is any function of the rotated histogram: the results use only that equal histograms
 correlate equally and that no correlation is as low as the detector's starting value of -2.
 */
module KeyDetection {
  import opened Arithmetic
  import opened Options

  datatype Mode = Major | Minor

  /** The two correlation functions of a twelve-bin histogram. */
  datatype Profiles = Profiles(major: seq<nat> -> real, minor: seq<nat> -> real)
  {
    ghost predicate Valid() {
      forall h: seq<nat> :: major(h) > -2.0 && minor(h) > -2.0
    }
  }

  function Rotate<T>(s: seq<T>, n: int): (r: seq<T>)
    requires |s| == 12
    ensures |r| == 12
  {
    s[n % 12..] + s[..n % 12]
  }

  function CountClass(pitches: seq<int>, pc: int): nat {
    if pitches == [] then 0
    else CountClass(pitches[..|pitches| - 1], pc) + if pitches[|pitches| - 1] % 12 == pc then 1 else 0
  }

  function Histogram(pitches: seq<int>): (h: seq<nat>)
    ensures |h| == 12
  {
    seq(12, pc => CountClass(pitches, pc))
  }

  method CountPitchClasses(pitches: seq<int>) returns (counts: seq<nat>)
    ensures counts == Histogram(pitches)
  {
    var a := new nat[12](_ => 0);
    for i := 0 to |pitches|
      invariant forall pc :: 0 <= pc < 12 ==> a[pc] == CountClass(pitches[..i], pc)
    {
      assert pitches[..i + 1][..i] == pitches[..i];
      a[pitches[i] % 12] := a[pitches[i] % 12] + 1;
    }
    assert pitches[..|pitches|] == pitches;
    counts := a[..];
  }

  // ---- The detector ----

  /** The correlation of one of the 24 keys, numbered root by root, major before minor. */
  function Value(c: Profiles, h: seq<nat>, key: nat): real
    requires |h| == 12 && key < 24
  {
    if key % 2 == 0 then c.major(Rotate(h, key / 2)) else c.minor(Rotate(h, key / 2))
  }

  function KeyNumber(root: int, mode: Mode): int { 2 * root + if mode == Major then 0 else 1 }

  function KeyOf(key: nat): (int, Mode) { (key / 2, if key % 2 == 0 then Major else Minor) }

  /** The first of the keys below `n` with the highest correlation. */
  ghost predicate FirstBest(c: Profiles, h: seq<nat>, n: nat, best: nat)
    requires |h| == 12 && n <= 24
  {
    && best < n
    && forall k: nat :: k < n ==>
         Value(c, h, k) <= Value(c, h, best) && (k < best ==> Value(c, h, k) < Value(c, h, best))
  }

  ghost predicate UniqueBest(c: Profiles, h: seq<nat>, best: nat)
    requires |h| == 12
  {
    best < 24 && forall k: nat :: k < 24 && k != best ==> Value(c, h, k) < Value(c, h, best)
  }

  // ---- The detector's answer, told from the notes ----

  /** How many notes are of a pitch class. */
  lemma {:induction false} HistogramCounts(pitches: seq<int>, pc: int)
    requires 0 <= pc < 12
    ensures Histogram(pitches)[pc] == |set i | 0 <= i < |pitches| && pitches[i] % 12 == pc|
  {
    CountIsSize(pitches, pc);
  }

  lemma {:induction false} CountIsSize(pitches: seq<int>, pc: int)
    ensures CountClass(pitches, pc) == |set i | 0 <= i < |pitches| && pitches[i] % 12 == pc|
  {
    if pitches != [] {
      var n := |pitches| - 1;
      CountIsSize(pitches[..n], pc);
      var before := set i | 0 <= i < n && pitches[..n][i] % 12 == pc;
      var all := set i | 0 <= i < |pitches| && pitches[i] % 12 == pc;
      assert all == if pitches[n] % 12 == pc then before + {n} else before;
    }
  }

  /** How well the notes, moved so that `tonic` falls on C, fit the profile of the mode. */
  function Corr(c: Profiles, pitches: seq<int>, tonic: int, mode: Mode): real {
    var h := Histogram(Shift(pitches, -tonic));
    match mode
    case Major => c.major(h)
    case Minor => c.minor(h)
  }

  /** Root by root, major before minor. */
  predicate ScannedEarlier(root: int, mode: Mode, t: int, m: Mode) {
    root < t || (root == t && mode == Major && m == Minor)
  }

  /** No key fits the notes better than this one, and none that is scanned earlier as well. */
  ghost predicate BestKey(c: Profiles, pitches: seq<int>, t: int, m: Mode) {
    && 0 <= t < 12
    && forall root, mode :: 0 <= root < 12 ==>
         Corr(c, pitches, root, mode) <= Corr(c, pitches, t, m)
         && (ScannedEarlier(root, mode, t, m) ==> Corr(c, pitches, root, mode) < Corr(c, pitches, t, m))
  }

  /** The correlation of a key is that of the notes moved down by its root. */
  lemma {:induction false} ValueIsCorr(c: Profiles, pitches: seq<int>, root: int, mode: Mode)
    requires 0 <= root < 12
    ensures Value(c, Histogram(pitches), KeyNumber(root, mode)) == Corr(c, pitches, root, mode)
  {
    ShiftRotates(pitches, -root, 0);
    var g := Histogram(Shift(pitches, -root));
    assert g[0..] + g[..0] == g;
    assert Rotate(g, 0) == g && (0 - (-root)) % 12 == root;
  }

  lemma {:induction false} FirstBestIsBestKey(c: Profiles, pitches: seq<int>, t: int, m: Mode)
    requires 0 <= t < 12
    ensures FirstBest(c, Histogram(pitches), 24, KeyNumber(t, m)) <==> BestKey(c, pitches, t, m)
  {
    ValueIsCorr(c, pitches, t, m);
    forall root, mode | 0 <= root < 12
      ensures Value(c, Histogram(pitches), KeyNumber(root, mode)) == Corr(c, pitches, root, mode) {
      ValueIsCorr(c, pitches, root, mode);
    }
    if BestKey(c, pitches, t, m) {
      forall k: nat | k < 24
        ensures Value(c, Histogram(pitches), k) <= Value(c, Histogram(pitches), KeyNumber(t, m))
        ensures k < KeyNumber(t, m) ==> Value(c, Histogram(pitches), k) < Value(c, Histogram(pitches), KeyNumber(t, m))
      {
        var root, mode := k / 2, if k % 2 == 0 then Major else Minor;
        assert KeyNumber(root, mode) == k;
        assert Corr(c, pitches, root, mode) <= Corr(c, pitches, t, m);
      }
    }
  }

  /** `detect_key_from_pitches`; the key is none when there are too few notes to say. */
  method DetectKey(c: Profiles, pitches: seq<int>, minNotes: nat) returns (r: Option<(int, Mode)>)
    requires c.Valid()
    ensures r.None? <==> |pitches| < minNotes || pitches == []
    ensures r.Some? ==> 0 <= r.value.0 < 12
                        && FirstBest(c, Histogram(pitches), 24, KeyNumber(r.value.0, r.value.1))
    ensures r.Some? ==> BestKey(c, pitches, r.value.0, r.value.1)
  {
    if |pitches| < minNotes || |pitches| == 0 {
      return None;
    }
    var counts := CountPitchClasses(pitches);
    var bestCorr := -2.0;
    var best: Option<(int, Mode)> := None;
    for root := 0 to 12
      invariant root == 0 ==> bestCorr == -2.0
      invariant root > 0 ==> best.Some? && 0 <= best.value.0 < root
      invariant root > 0 ==> FirstBest(c, counts, 2 * root, KeyNumber(best.value.0, best.value.1))
                             && bestCorr == Value(c, counts, KeyNumber(best.value.0, best.value.1))
    {
      var rotated := Rotate(counts, root);
      var corrMajor, corrMinor := c.major(rotated), c.minor(rotated);
      assert Value(c, counts, 2 * root) == corrMajor && Value(c, counts, 2 * root + 1) == corrMinor;
      if corrMajor > bestCorr {
        bestCorr := corrMajor;
        best := Some((root, Major));
      }
      if corrMinor > bestCorr {
        bestCorr := corrMinor;
        best := Some((root, Minor));
      }
    }
    FirstBestIsBestKey(c, pitches, best.value.0, best.value.1);
    return best;
  }

  /** With a unique best key the scan order does not matter: the detector returns it. */
  lemma {:induction false} UniqueIsDetected(c: Profiles, h: seq<nat>, best: nat, found: nat)
    requires |h| == 12 && UniqueBest(c, h, best) && FirstBest(c, h, 24, found)
    ensures found == best
  {
    assert Value(c, h, best) <= Value(c, h, found);
  }

  // ---- Transposition ----

  function Shift(pitches: seq<int>, k: int): seq<int> {
    seq(|pitches|, i requires 0 <= i < |pitches| => pitches[i] + k)
  }

  lemma {:induction false} ModShift(p: int, k: int, pc: int)
    requires 0 <= pc < 12
    ensures (p + k) % 12 == pc <==> p % 12 == (pc - k) % 12
  {
  }

  lemma {:induction false} ShiftCounts(pitches: seq<int>, k: int, pc: int)
    requires 0 <= pc < 12
    ensures CountClass(Shift(pitches, k), pc) == CountClass(pitches, (pc - k) % 12)
  {
    if pitches != [] {
      var n := |pitches| - 1;
      ShiftCounts(pitches[..n], k, pc);
      assert Shift(pitches, k)[..n] == Shift(pitches[..n], k);
      ModShift(pitches[n], k, pc);
    }
  }

  /** Shifting every pitch rotates the histogram, so aligning on a root sees the old one `k` lower. */
  lemma {:induction false} ShiftRotates(pitches: seq<int>, k: int, root: int)
    ensures Rotate(Histogram(Shift(pitches, k)), root) == Rotate(Histogram(pitches), (root - k) % 12)
  {
    var h, g := Histogram(pitches), Histogram(Shift(pitches, k));
    forall j | 0 <= j < 12 ensures Rotate(g, root)[j] == Rotate(h, (root - k) % 12)[j] {
      RotateAt(g, root, j);
      RotateAt(h, (root - k) % 12, j);
      ShiftCounts(pitches, k, (root + j) % 12);
      IndexShift(root, k, j);
    }
  }

  lemma {:induction false} RotateAt<T>(s: seq<T>, n: int, j: int)
    requires |s| == 12 && 0 <= j < 12
    ensures Rotate(s, n)[j] == s[(n + j) % 12]
  {
  }

  lemma {:induction false} IndexShift(root: int, k: int, j: int)
    ensures ((root + j) % 12 - k) % 12 == ((root - k) % 12 + j) % 12
  {
  }

  /** The key `k` semitones higher. */
  function MovedKey(key: nat, k: int): (r: nat)
    requires key < 24
    ensures r < 24
  {
    2 * ((key / 2 + k) % 12) + key % 2
  }

  lemma {:induction false} TableMoves(c: Profiles, pitches: seq<int>, k: int, key: nat)
    requires key < 24
    ensures Value(c, Histogram(Shift(pitches, k)), key) == Value(c, Histogram(pitches), MovedKey(key, -k))
  {
    ShiftRotates(pitches, k, key / 2);
  }

  lemma {:induction false} MovedBack(key: nat, k: int)
    requires key < 24
    ensures MovedKey(MovedKey(key, k), -k) == key
  {
  }

  /** Equivariance: the unique best key of the shifted notes is the old one, shifted, in the same mode. */
  lemma {:induction false} DetectionMoves(c: Profiles, pitches: seq<int>, k: int, best: nat)
    requires UniqueBest(c, Histogram(pitches), best)
    ensures UniqueBest(c, Histogram(Shift(pitches, k)), MovedKey(best, k))
  {
    var h := Histogram(Shift(pitches, k));
    TableMoves(c, pitches, k, MovedKey(best, k));
    MovedBack(best, k);
    forall key: nat | key < 24 && key != MovedKey(best, k)
      ensures Value(c, h, key) < Value(c, h, MovedKey(best, k)) {
      TableMoves(c, pitches, k, key);
      MovedBack(key, -k);
    }
  }

  /** `transpose_distance`, on tonics as pitch classes. */
  function TransposeDistance(source: int, target: int): int {
    var delta := (target - source) % 12;
    if delta > 6 then delta - 12 else delta
  }

  /** It leads to the target tonic, and no other transposition that does is shorter. */
  lemma {:induction false} DistanceIsShortest(source: int, target: int, other: int)
    requires (source + other) % 12 == target % 12
    ensures (source + TransposeDistance(source, target)) % 12 == target % 12
    ensures -5 <= TransposeDistance(source, target) <= 6
    ensures Abs(TransposeDistance(source, target)) <= Abs(other)
  {
    assert other % 12 == (target - source) % 12;
  }

  // ---- The scorer's rotation ----

  /** The slices of `_key_compliance`, for a target tonic. */
  function ComplianceRotation<T>(h: seq<T>, root: int): seq<T>
    requires |h| == 12 && 0 <= root < 12
  {
    if root > 0 then h[12 - root..] + h[..12 - root] else h
  }

  /** They rotate the other way from the detector. */
  lemma {:induction false} ComplianceIsOpposite<T>(h: seq<T>, root: int)
    requires |h| == 12 && 0 <= root < 12
    ensures ComplianceRotation(h, root) == Rotate(h, (12 - root) % 12)
  {
    if root > 0 {
      assert (12 - root) % 12 == 12 - root;
    } else {
      assert h[0..] + h[..0] == h;
    }
  }

  /** One note on the tonic. */
  function Spike(root: int): (h: seq<nat>)
    ensures |h| == 12
  {
    seq(12, i => if i == root then 1 else 0)
  }

  /** So scorer and detector align a target alike exactly for the tonics C and F sharp. */
  lemma {:induction false} ComplianceAgreesExactly(root: int)
    requires 0 <= root < 12
    ensures (forall h: seq<nat> :: |h| == 12 ==> ComplianceRotation(h, root) == Rotate(h, root))
            <==> root == 0 || root == 6
  {
    if root == 0 || root == 6 {
      forall h: seq<nat> | |h| == 12 ensures ComplianceRotation(h, root) == Rotate(h, root) {
        ComplianceIsOpposite(h, root);
      }
    } else {
      var h := Spike(root);
      ComplianceIsOpposite(h, root);
      RotateAt(h, root, 0);
      RotateAt(h, (12 - root) % 12, 0);
      assert ComplianceRotation(h, root)[0] != Rotate(h, root)[0];
    }
  }
}
