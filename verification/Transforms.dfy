/**
 What the five transforms do to a note, said without their formulas: nearest values, limits and whole octaves.
 */
module Transforms {
  import opened Arithmetic
  import opened Options
  import opened Sorting
  import opened PostProcessing

  // ---- Velocity ----

  /** A limit that is absent or 0 has its default. */
  predicate Limit(given: Option<int>, default: int, limit: int) {
    match given
    case None => limit == default
    case Some(v) => (v == 0 && limit == default) || (v != 0 && limit == v)
  }

  /** The softest and the loudest velocity. */
  ghost predicate Extremes(ns: seq<Note>, lo: int, hi: int) {
    && (forall j :: 0 <= j < |ns| ==> lo <= ns[j].vel <= hi)
    && (exists j :: 0 <= j < |ns| && ns[j].vel == lo) && (exists j :: 0 <= j < |ns| && ns[j].vel == hi)
  }

  lemma ExtremesAre(ns: seq<Note>, lo: int, hi: int)
    requires ns != [] && Extremes(ns, lo, hi)
    ensures MinVel(ns) == lo && MaxVel(ns) == hi
  {
    VelBounds(ns);
  }

  /** The velocity nearest to the point that divides the limits as `vel` divides the extremes. */
  predicate IsProportional(v: int, vel: int, lo: int, hi: int, floor: int, ceiling: int) {
    IsRounded(v, floor * (hi - lo) + (vel - lo) * (ceiling - floor), hi - lo)
  }

  predicate HeldTo(v: int, lo: int, hi: int, held: int) {
    (v < lo ==> held == lo) && (v > hi ==> held == hi) && (lo <= v <= hi ==> held == v)
  }

  /** Velocities are spread in proportion between the limits; if all are equal they go to the middle. */
  lemma {:induction false} VelocityExactly(c: Config, ns: seq<Note>, i: nat, floor: int, ceiling: int, lo: int, hi: int)
    returns (v: int)
    requires c.velocityFloor.Some? || c.velocityCeiling.Some?
    requires Limit(c.velocityFloor, 1, floor) && Limit(c.velocityCeiling, 127, ceiling) && floor < ceiling
    requires i < |ns| && Extremes(ns, lo, hi)
    ensures ScaleVelocity(c, ns)[i] == ns[i].(vel := ScaleVelocity(c, ns)[i].vel)
    ensures lo == hi ==> floor + ceiling - 1 <= 2 * ScaleVelocity(c, ns)[i].vel <= floor + ceiling
    ensures lo < hi ==> IsProportional(v, ns[i].vel, lo, hi, floor, ceiling)
                        && HeldTo(v, 1, 127, ScaleVelocity(c, ns)[i].vel)
  {
    ExtremesAre(ns, lo, hi);
    assert ScaleVelocity(c, ns) == WithVelocities(ns, lo, hi, floor, ceiling);
    v := ScaledExactly(ns[i].vel, lo, hi, floor, ceiling);
  }

  lemma {:induction false} ScaledExactly(vel: int, lo: int, hi: int, floor: int, ceiling: int) returns (v: int)
    requires lo <= hi
    ensures lo == hi ==> floor + ceiling - 1 <= 2 * ScaledVel(vel, lo, hi, floor, ceiling) <= floor + ceiling
    ensures lo < hi ==> IsProportional(v, vel, lo, hi, floor, ceiling)
                        && HeldTo(v, 1, 127, ScaledVel(vel, lo, hi, floor, ceiling))
  {
    v := 0;
    if lo < hi {
      v := Linear(vel - lo, hi - lo, floor, ceiling - floor);
      LinearNear(vel, lo, hi, floor, ceiling);
    }
  }

  lemma {:induction false} LinearNear(vel: int, lo: int, hi: int, floor: int, ceiling: int)
    requires lo < hi
    ensures IsProportional(Linear(vel - lo, hi - lo, floor, ceiling - floor), vel, lo, hi, floor, ceiling)
  {
    RoundIsRounded(floor * (hi - lo) + (vel - lo) * (ceiling - floor), hi - lo);
  }

  /** Without limits, or with limits that leave no room, velocities stay. */
  lemma {:induction false} VelocityStays(c: Config, ns: seq<Note>, floor: int, ceiling: int)
    requires Limit(c.velocityFloor, 1, floor) && Limit(c.velocityCeiling, 127, ceiling)
    requires (c.velocityFloor.None? && c.velocityCeiling.None?) || floor >= ceiling
    ensures ScaleVelocity(c, ns) == ns
  {
  }

  // ---- Register ----

  function Below(m: int): int -> bool { (p: int) => p < m }
  function UpTo(m: int): int -> bool { (p: int) => p <= m }

  /** At most half of the values are below it, and more than half are not above it. */
  predicate IsUpperMedian(m: int, ps: seq<int>) {
    m in ps && |Filter(ps, Below(m))| <= |ps| / 2 < |Filter(ps, UpTo(m))|
  }

  lemma {:induction false} FilterShorter<T>(s: seq<T>, p: T -> bool)
    ensures |Filter(s, p)| <= |s|
  {
    if s != [] {
      FilterShorter(s[1..], p);
    }
  }

  lemma {:induction false} SortedFilter(ps: seq<int>, p: int -> bool)
    ensures |Filter(Sort(ps, ByValue()), p)| == |Filter(ps, p)|
  {
    FilterSort(ps, ByValue(), p);
    SortPermutes(Filter(ps, p), ByValue());
  }

  lemma {:induction false} MedianIsUpper(ps: seq<int>)
    requires ps != []
    ensures IsUpperMedian(Median(ps), ps)
  {
    var t, h, m := Sort(ps, ByValue()), |ps| / 2, Median(ps);
    SortPermutes(ps, ByValue());
    SortSorts(ps, ByValue());
    SortMember(ps, ByValue(), m);
    SortedFilter(ps, Below(m));
    SortedFilter(ps, UpTo(m));
    SortedAround(t, h, t[..h + 1], t[h..]);
    FewBelow(t, t[..h], t[h..], m);
    ManyUpTo(t, t[..h + 1], t[h + 1..], m);
  }

  lemma {:induction false} FewBelow(t: seq<int>, front: seq<int>, back: seq<int>, m: int)
    requires t == front + back && forall x :: x in back ==> m <= x
    ensures |Filter(t, Below(m))| <= |front|
  {
    FilterConcat(front, back, Below(m));
    FilterNone(back, Below(m));
    FilterShorter(front, Below(m));
  }

  lemma {:induction false} ManyUpTo(t: seq<int>, front: seq<int>, back: seq<int>, m: int)
    requires t == front + back && forall x :: x in front ==> x <= m
    ensures |Filter(t, UpTo(m))| >= |front|
  {
    FilterConcat(front, back, UpTo(m));
    FilterAll(front, UpTo(m));
  }

  lemma {:induction false} SortedAround(t: seq<int>, h: nat, front: seq<int>, back: seq<int>)
    requires h < |t| && Sorted(t, ByValue()) && front == t[..h + 1] && back == t[h..]
    ensures forall x :: x in back ==> t[h] <= x
    ensures forall x :: x in front ==> x <= t[h]
  {
    forall x | x in back ensures t[h] <= x {
      var i: nat :| i < |back| && back[i] == x;
      assert i > 0 ==> Le(ByValue()(t[h]), ByValue()(t[h + i]));
    }
    forall x | x in front ensures x <= t[h] {
      var i: nat :| i < |front| && front[i] == x;
      assert i < h ==> Le(ByValue()(t[i]), ByValue()(t[h]));
    }
  }

  /** Held to the pitch range, then to the spread around the centre. */
  ghost predicate HeldPitch(p: int, after: int, center: int, spread: Option<int>) {
    exists q :: HeldTo(p, 0, 127, q)
                && if spread.None? then after == q else HeldTo(q, center - spread.value, center + spread.value, after)
  }

  /** Shifted by `k` and held. */
  ghost predicate MovedBy(before: Note, after: Note, k: int, center: int, spread: Option<int>) {
    after == before.(pitch := after.pitch) && HeldPitch(before.pitch + k, after.pitch, center, spread)
  }

  /** All pitches move by the whole octaves that bring the upper median nearest to the centre. */
  lemma {:induction false} RegisterExactly(c: Config, ns: seq<Note>) returns (median: int, k: int)
    requires ValidRegister(c) && c.registerCenter.Some? && ns != []
    ensures IsUpperMedian(median, Pitches(ns)) && k % 12 == 0
    ensures IsRounded(k / 12, c.registerCenter.value - median, 12)
    ensures k == 0 ==> NormalizeRegister(c, ns) == ns
    ensures k != 0 ==> forall i :: 0 <= i < |ns| ==>
                         MovedBy(ns[i], NormalizeRegister(c, ns)[i], k, c.registerCenter.value, c.registerSpread)
  {
    median := Median(Pitches(ns));
    var center := c.registerCenter.value;
    k := OctaveShift(center, median);
    MedianIsUpper(Pitches(ns));
    RoundIsRounded(center - median, 12);
    if k != 0 {
      forall i | 0 <= i < |ns| ensures MovedBy(ns[i], NormalizeRegister(c, ns)[i], k, center, c.registerSpread) {
        assert HeldTo(ns[i].pitch + k, 0, 127, Clamp(0, 127, ns[i].pitch + k));
      }
    }
  }

  // ---- Timing ----

  /** A start goes to the nearest line of the grid of `sub` lines a bar, as near as ten-thousandths allow. */
  lemma {:induction false} QuantizeExactly(c: Config, ns: seq<Note>, i: nat) returns (line: int)
    requires i < |ns|
    ensures Quantize(c, ns)[i] == ns[i].(start := Quantize(c, ns)[i].start)
    ensures c.subdivision.None? || c.subdivision.value <= 0 ==> Quantize(c, ns)[i] == ns[i]
    ensures c.subdivision.Some? && c.subdivision.value > 0 ==>
              && IsRounded(line, ns[i].start * c.subdivision.value, 40000)
              && IsRounded(Quantize(c, ns)[i].start, line * 40000, c.subdivision.value)
  {
    line := 0;
    if Quantizes(c) {
      var sub := c.subdivision.value;
      line := RoundHalfEven(ns[i].start * sub, WHOLE);
      RoundIsRounded(ns[i].start * sub, WHOLE);
      RoundIsRounded(line * WHOLE, sub);
    }
  }

  /** The second and fourth sixteenth of a beat, give or take 0.06 beats. */
  predicate OffBeat(start: int) {
    1900 < start % 10000 < 3100 || 6900 < start % 10000 < 8100
  }

  /** A start on an off-beat sixteenth is delayed by an eighth of a beat times the swing, any other stays. */
  lemma {:induction false} SwingExactly(c: Config, ns: seq<Note>, i: nat)
    requires i < |ns|
    ensures ApplySwing(c, ns)[i] == ns[i].(start := ApplySwing(c, ns)[i].start)
    ensures c.swing > 100 && OffBeat(ns[i].start) ==>
              IsRounded(ApplySwing(c, ns)[i].start, 8 * ns[i].start + c.swing, 8)
    ensures !(c.swing > 100 && OffBeat(ns[i].start)) ==> ApplySwing(c, ns)[i] == ns[i]
  {
    RoundIsRounded(8 * ns[i].start + c.swing, 8);
  }

  // ---- Duration ----

  predicate WithinLimits(c: Config, dur: int) {
    (c.minDur > 0 ==> c.minDur <= dur) && (c.maxDur > 0 ==> dur <= c.maxDur)
  }

  /** A duration becomes the nearest one within the limits. */
  lemma {:induction false} DurationsHeld(c: Config, ns: seq<Note>, i: nat)
    requires i < |ns| && (c.minDur > 0 && c.maxDur > 0 ==> c.minDur <= c.maxDur)
    ensures CleanupDurations(c, ns)[i] == ns[i].(dur := CleanupDurations(c, ns)[i].dur)
    ensures WithinLimits(c, CleanupDurations(c, ns)[i].dur)
    ensures forall d :: WithinLimits(c, d) ==> Abs(CleanupDurations(c, ns)[i].dur - ns[i].dur) <= Abs(d - ns[i].dur)
  {
  }

  /** The transform is recorded if and only if it changed something. */
  lemma {:induction false} DurationRecorded(c: Config, ns: seq<Note>)
    ensures CleansDurations(c, ns) <==> CleanupDurations(c, ns) != ns
  {
    if CleansDurations(c, ns) {
      var i :| 0 <= i < |ns| && ((c.minDur > 0 && ns[i].dur < c.minDur) || (c.maxDur > 0 && ns[i].dur > c.maxDur));
      assert CleanupDurations(c, ns)[i] != ns[i];
    }
  }

  // ---- The pipeline ----

  /** Each field of a note is the work of its own transforms alone. */
  lemma {:induction false} FieldsThroughPipeline(c: Config, ns: seq<Note>, i: nat)
    requires i < |ns| && c.enabled
    ensures Process(c, ns)[i].vel == ScaleVelocity(c, ns)[i].vel
    ensures Process(c, ns)[i].pitch == NormalizeRegister(c, ns)[i].pitch
    ensures Process(c, ns)[i].dur == CleanupDurations(c, ns)[i].dur
    ensures Process(c, ns)[i].start == ApplySwing(c, Quantize(c, ns))[i].start
  {
    var a := ScaleVelocity(c, ns);
    assert Pitches(a) == Pitches(ns);
    var b := NormalizeRegister(c, a);
    assert b[i].vel == a[i].vel && b[i].dur == ns[i].dur && b[i].start == ns[i].start;
    assert b[i].pitch == NormalizeRegister(c, ns)[i].pitch;
    var d := Quantize(c, b);
    assert d[i].start == Quantize(c, ns)[i].start && d[i] == b[i].(start := d[i].start);
    var e := CleanupDurations(c, d);
    assert e[i] == d[i].(dur := e[i].dur);
  }

  /** One after the other, those names whose transform is on. */
  predicate InOrder(names: seq<string>, velocity: bool, register: bool, quantize: bool, duration: bool, swing: bool) {
    names == (if velocity then ["velocity"] else []) + (if register then ["register"] else [])
             + (if quantize then ["quantize"] else []) + (if duration then ["duration"] else [])
             + (if swing then ["swing"] else [])
  }

  /** A transform is recorded, in the order of the pipeline, if and only if it was asked for and had something to do. */
  lemma {:induction false} RecordedExactly(c: Config, ns: seq<Note>, floor: int, ceiling: int)
    requires ns != [] && c.enabled && ValidRegister(c)
    requires Limit(c.velocityFloor, 1, floor) && Limit(c.velocityCeiling, 127, ceiling)
    ensures InOrder(Applied(c, ns), (c.velocityFloor.Some? || c.velocityCeiling.Some?) && floor < ceiling,
                    c.registerCenter.Some? && Shift(c, ns) != 0,
                    c.subdivision.Some? && c.subdivision.value > 0, CleanupDurations(c, ns) != ns, c.swing > 100)
  {
    var scaled := ScaleVelocity(c, ns);
    var moved := NormalizeRegister(c, scaled);
    assert Pitches(scaled) == Pitches(ns);
    var q := Quantize(c, moved);
    DurationRecorded(c, ns);
    forall i | 0 <= i < |ns| ensures q[i].dur == ns[i].dur {
      assert scaled[i].dur == ns[i].dur;
    }
    SameDurations(c, ns, q);
  }

  /** The octaves by which the register is moved. */
  function Shift(c: Config, ns: seq<Note>): int
    requires c.registerCenter.Some? && ns != []
  {
    OctaveShift(c.registerCenter.value, Median(Pitches(ns)))
  }

  lemma {:induction false} SameDurations(c: Config, a: seq<Note>, b: seq<Note>)
    requires |a| == |b| && forall i :: 0 <= i < |a| ==> a[i].dur == b[i].dur
    ensures CleansDurations(c, a) <==> CleansDurations(c, b)
  {
    if i :| 0 <= i < |a| && ((c.minDur > 0 && a[i].dur < c.minDur) || (c.maxDur > 0 && a[i].dur > c.maxDur)) {
      assert b[i].dur == a[i].dur;
    }
    if i :| 0 <= i < |b| && ((c.minDur > 0 && b[i].dur < c.minDur) || (c.maxDur > 0 && b[i].dur > c.maxDur)) {
      assert b[i].dur == a[i].dur;
    }
  }

  /** A disabled pipeline changes nothing. */
  lemma Disabled(c: Config, ns: seq<Note>)
    requires !c.enabled
    ensures Process(c, ns) == ns
  {
  }
}
