/**
 The post-processing pipeline on a note list that is updated in place. Beats are integers in
 ten-thousandths, the grid the source rounds them to.
 */
module PostProcessing {
  import opened Arithmetic
  import opened Options
  import opened Sorting

  datatype Note = Note(pitch: int, start: int, dur: int, vel: int)

  /** `swing` is in ten-thousandths; `minDur` and `maxDur` are off at 0. */
  datatype Config = Config(velocityFloor: Option<int>, velocityCeiling: Option<int>,
                           registerCenter: Option<int>, registerSpread: Option<int>,
                           subdivision: Option<int>, minDur: int, maxDur: int, swing: int, enabled: bool)

  const BEAT := 10000
  const WHOLE := 40000

  // ---- Velocity ----

  /** `value or default`: 0 counts as absent. */
  function OrDefault(v: Option<int>, default: int): int {
    if v.Some? && v.value != 0 then v.value else default
  }

  function MinVel(ns: seq<Note>): int
    requires ns != []
  {
    if |ns| == 1 then ns[0].vel
    else var m := MinVel(ns[..|ns| - 1]); if ns[|ns| - 1].vel < m then ns[|ns| - 1].vel else m
  }

  function MaxVel(ns: seq<Note>): int
    requires ns != []
  {
    if |ns| == 1 then ns[0].vel
    else var m := MaxVel(ns[..|ns| - 1]); if ns[|ns| - 1].vel > m then ns[|ns| - 1].vel else m
  }

  predicate ScalesVelocity(c: Config, ns: seq<Note>) {
    && ns != [] && (c.velocityFloor.Some? || c.velocityCeiling.Some?)
    && OrDefault(c.velocityFloor, 1) < OrDefault(c.velocityCeiling, 127)
  }

  /** `round(floor + v / src * dst)`, as one fraction. */
  function Linear(v: int, src: int, floor: int, dst: int): int
    requires src > 0
  {
    RoundHalfEven(floor * src + v * dst, src)
  }

  function ScaledVel(v: int, lo: int, hi: int, floor: int, ceiling: int): int
    requires lo <= hi
  {
    if lo == hi then (floor + ceiling) / 2 else Clamp(1, 127, Linear(v - lo, hi - lo, floor, ceiling - floor))
  }

  function WithVelocities(ns: seq<Note>, lo: int, hi: int, floor: int, ceiling: int): (r: seq<Note>)
    requires lo <= hi
    ensures |r| == |ns|
    ensures forall i :: 0 <= i < |ns| ==> r[i] == ns[i].(vel := ScaledVel(ns[i].vel, lo, hi, floor, ceiling))
  {
    seq(|ns|, i requires 0 <= i < |ns| => ns[i].(vel := ScaledVel(ns[i].vel, lo, hi, floor, ceiling)))
  }

  function ScaleVelocity(c: Config, ns: seq<Note>): (r: seq<Note>)
    ensures |r| == |ns|
  {
    if ScalesVelocity(c, ns) then
      VelBounds(ns);
      WithVelocities(ns, MinVel(ns), MaxVel(ns), OrDefault(c.velocityFloor, 1), OrDefault(c.velocityCeiling, 127))
    else ns
  }

  lemma {:induction false} VelBounds(ns: seq<Note>)
    requires ns != []
    ensures forall i :: 0 <= i < |ns| ==> MinVel(ns) <= ns[i].vel <= MaxVel(ns)
    ensures exists i :: 0 <= i < |ns| && ns[i].vel == MinVel(ns)
    ensures exists i :: 0 <= i < |ns| && ns[i].vel == MaxVel(ns)
  {
    if |ns| > 1 {
      var init, last := ns[..|ns| - 1], |ns| - 1;
      VelBounds(init);
      var a :| 0 <= a < |init| && init[a].vel == MinVel(init);
      var b :| 0 <= b < |init| && init[b].vel == MaxVel(init);
      assert ns[a].vel == MinVel(init) && ns[b].vel == MaxVel(init);
      var least := if ns[last].vel < MinVel(init) then last else a;
      var most := if ns[last].vel > MaxVel(init) then last else b;
      assert ns[least].vel == MinVel(ns) && ns[most].vel == MaxVel(ns);
      forall i | 0 <= i < |ns| ensures MinVel(ns) <= ns[i].vel <= MaxVel(ns) {
        if i < last {
          assert init[i] == ns[i];
        }
      }
    } else {
      assert ns[0].vel == MinVel(ns) && ns[0].vel == MaxVel(ns);
    }
  }

  lemma {:induction false} LinearOrder(v: int, w: int, src: int, floor: int, dst: int)
    requires v <= w && src > 0 && dst > 0
    ensures Linear(v, src, floor, dst) <= Linear(w, src, floor, dst)
  {
    MulOrder(v, w, dst);
    RoundMonotone(floor * src + v * dst, floor * src + w * dst, src);
  }

  lemma {:induction false} LinearEnds(src: int, floor: int, dst: int)
    requires src > 0
    ensures Linear(0, src, floor, dst) == floor && Linear(src, src, floor, dst) == floor + dst
  {
    RoundOfMultiple(floor, src);
    assert floor * src + src * dst == (floor + dst) * src;
    RoundOfMultiple(floor + dst, src);
  }

  lemma {:induction false} ScaledOrder(v: int, w: int, lo: int, hi: int, floor: int, ceiling: int)
    requires lo <= v <= w <= hi && 1 <= floor < ceiling <= 127
    ensures floor <= ScaledVel(v, lo, hi, floor, ceiling) <= ScaledVel(w, lo, hi, floor, ceiling) <= ceiling
    ensures lo < hi ==> ScaledVel(lo, lo, hi, floor, ceiling) == floor
    ensures lo < hi ==> ScaledVel(hi, lo, hi, floor, ceiling) == ceiling
  {
    if lo < hi {
      var src, dst := hi - lo, ceiling - floor;
      LinearOrder(0, v - lo, src, floor, dst);
      LinearOrder(v - lo, w - lo, src, floor, dst);
      LinearOrder(w - lo, src, src, floor, dst);
      LinearEnds(src, floor, dst);
    }
  }

  /** Scaling keeps the order of velocities, stays within the limits, and reaches both of them. */
  lemma {:induction false} VelocityInLimits(c: Config, ns: seq<Note>, i: nat, j: nat)
    requires ScalesVelocity(c, ns) && i < |ns| && j < |ns| && ns[i].vel <= ns[j].vel
    requires 1 <= OrDefault(c.velocityFloor, 1) && OrDefault(c.velocityCeiling, 127) <= 127
    ensures OrDefault(c.velocityFloor, 1) <= ScaleVelocity(c, ns)[i].vel
         <= ScaleVelocity(c, ns)[j].vel <= OrDefault(c.velocityCeiling, 127)
    ensures MinVel(ns) < MaxVel(ns) && ns[i].vel == MinVel(ns) && ns[j].vel == MaxVel(ns) ==>
              ScaleVelocity(c, ns)[i].vel == OrDefault(c.velocityFloor, 1)
              && ScaleVelocity(c, ns)[j].vel == OrDefault(c.velocityCeiling, 127)
  {
    VelBounds(ns);
    ScaledOrder(ns[i].vel, ns[j].vel, MinVel(ns), MaxVel(ns), OrDefault(c.velocityFloor, 1),
                OrDefault(c.velocityCeiling, 127));
  }

  /** After the first pass the extremes are the limits, so a second pass changes nothing. */
  lemma {:induction false} VelocityTwice(c: Config, ns: seq<Note>)
    requires 1 <= OrDefault(c.velocityFloor, 1) && OrDefault(c.velocityCeiling, 127) <= 127
    ensures ScaleVelocity(c, ScaleVelocity(c, ns)) == ScaleVelocity(c, ns)
  {
    if ScalesVelocity(c, ns) {
      var r := ScaleVelocity(c, ns);
      var floor, ceiling := OrDefault(c.velocityFloor, 1), OrDefault(c.velocityCeiling, 127);
      VelBounds(ns);
      VelBounds(r);
      if MinVel(ns) < MaxVel(ns) {
        ScaledExtremes(ns, floor, ceiling);
        forall i | 0 <= i < |r| ensures ScaledVel(r[i].vel, floor, ceiling, floor, ceiling) == r[i].vel {
          ScaledOrder(ns[i].vel, ns[i].vel, MinVel(ns), MaxVel(ns), floor, ceiling);
          ScaledFixed(r[i].vel, floor, ceiling);
        }
      } else {
        var k :| 0 <= k < |r| && r[k].vel == MinVel(r);
        var l :| 0 <= l < |r| && r[l].vel == MaxVel(r);
      }
      assert ScaleVelocity(c, r) == r;
    }
  }

  lemma {:induction false} ScaledFixed(v: int, floor: int, ceiling: int)
    requires 1 <= floor <= v <= ceiling <= 127 && floor < ceiling
    ensures ScaledVel(v, floor, ceiling, floor, ceiling) == v
  {
    var src := ceiling - floor;
    assert floor * src + (v - floor) * src == v * src;
    RoundOfMultiple(v, src);
    assert Linear(v - floor, src, floor, src) == v;
  }

  lemma {:induction false} ScaledExtremes(ns: seq<Note>, floor: int, ceiling: int)
    requires ns != [] && MinVel(ns) < MaxVel(ns) && 1 <= floor < ceiling <= 127
    ensures var r := WithVelocities(ns, MinVel(ns), MaxVel(ns), floor, ceiling);
            MinVel(r) == floor && MaxVel(r) == ceiling
  {
    var lo, hi := MinVel(ns), MaxVel(ns);
    var r := WithVelocities(ns, lo, hi, floor, ceiling);
    VelBounds(ns);
    VelBounds(r);
    var a :| 0 <= a < |ns| && ns[a].vel == lo;
    var b :| 0 <= b < |ns| && ns[b].vel == hi;
    forall i | 0 <= i < |r| ensures floor <= r[i].vel <= ceiling {
      ScaledOrder(ns[i].vel, ns[i].vel, lo, hi, floor, ceiling);
    }
    ScaledOrder(lo, hi, lo, hi, floor, ceiling);
    assert r[a].vel == floor && r[b].vel == ceiling;
  }

  // ---- Register ----

  function ByValue(): int -> Rank { (p: int) => Rank(p, 0) }

  function Pitches(ns: seq<Note>): (r: seq<int>)
    ensures |r| == |ns|
  {
    seq(|ns|, i requires 0 <= i < |ns| => ns[i].pitch)
  }

  function Median(ps: seq<int>): int
    requires ps != []
  {
    SortPermutes(ps, ByValue());
    Sort(ps, ByValue())[|ps| / 2]
  }

  function OctaveShift(center: int, median: int): int {
    if -2 < center - median < 2 then 0 else RoundHalfEven(center - median, 12) * 12
  }

  /** One pitch: shifted, held to 0..127, then to the spread around the centre. */
  function MovedPitch(center: int, spread: Option<int>, shift: int, p: int): int {
    if spread.None? then Clamp(0, 127, p + shift)
    else Clamp(center - spread.value, center + spread.value, Clamp(0, 127, p + shift))
  }

  function Move(center: int, spread: Option<int>, shift: int): int -> int {
    (p: int) => MovedPitch(center, spread, shift, p)
  }

  function MovedTo(ns: seq<Note>, f: int -> int): (r: seq<Note>)
    ensures |r| == |ns| && forall i :: 0 <= i < |ns| ==> r[i] == ns[i].(pitch := f(ns[i].pitch))
  {
    seq(|ns|, i requires 0 <= i < |ns| => ns[i].(pitch := f(ns[i].pitch)))
  }

  predicate MovesRegister(c: Config, ns: seq<Note>) {
    c.registerCenter.Some? && ns != [] && OctaveShift(c.registerCenter.value, Median(Pitches(ns))) != 0
  }

  function NormalizeRegister(c: Config, ns: seq<Note>): (r: seq<Note>)
    ensures |r| == |ns|
  {
    if !MovesRegister(c, ns) then ns
    else MovedTo(ns, Move(c.registerCenter.value, c.registerSpread,
                          OctaveShift(c.registerCenter.value, Median(Pitches(ns)))))
  }

  ghost predicate Ascending(f: int -> int) {
    forall a, b :: a <= b ==> f(a) <= f(b)
  }

  function Mapped(ps: seq<int>, f: int -> int): (r: seq<int>)
    ensures |r| == |ps|
  {
    seq(|ps|, i requires 0 <= i < |ps| => f(ps[i]))
  }

  lemma {:induction false} InsertMapped(x: int, s: seq<int>, f: int -> int)
    requires Ascending(f) && Sorted(s, ByValue())
    ensures Insert(f(x), Mapped(s, f), ByValue()) == Mapped(Insert(x, s, ByValue()), f)
  {
    if s == [] || x <= s[0] {
      assert Mapped([x] + s, f) == [f(x)] + Mapped(s, f);
    } else {
      var rest := s[1..];
      assert Sorted(rest, ByValue());
      InsertMapped(x, rest, f);
      assert Mapped(s, f)[1..] == Mapped(rest, f);
      assert Mapped([s[0]] + Insert(x, rest, ByValue()), f) == [f(s[0])] + Mapped(Insert(x, rest, ByValue()), f);
      if f(x) == f(s[0]) {
        assert rest != [] ==> Le(ByValue()(s[0]), ByValue()(s[1]));
        assert Insert(f(x), Mapped(rest, f), ByValue()) == [f(x)] + Mapped(rest, f);
      }
    }
  }

  lemma {:induction false} SortMapped(ps: seq<int>, f: int -> int)
    requires Ascending(f)
    ensures Sort(Mapped(ps, f), ByValue()) == Mapped(Sort(ps, ByValue()), f)
  {
    if ps != [] {
      SortMapped(ps[1..], f);
      SortSorts(ps[1..], ByValue());
      InsertMapped(ps[0], Sort(ps[1..], ByValue()), f);
      assert Mapped(ps, f)[1..] == Mapped(ps[1..], f);
    }
  }

  /** The median moves with the notes, whatever the ascending map does to ties. */
  lemma {:induction false} MedianMoves(ns: seq<Note>, f: int -> int)
    requires ns != [] && Ascending(f)
    ensures Median(Pitches(MovedTo(ns, f))) == f(Median(Pitches(ns)))
  {
    assert Pitches(MovedTo(ns, f)) == Mapped(Pitches(ns), f);
    SortMapped(Pitches(ns), f);
    SortPermutes(Pitches(ns), ByValue());
  }

  predicate ValidRegister(c: Config) {
    && (c.registerCenter.Some? ==> 0 <= c.registerCenter.value <= 127)
    && (c.registerSpread.Some? ==> c.registerSpread.value >= 0)
  }

  /** After one call the median is within six semitones of the centre, unless the call changed nothing. */
  lemma {:induction false} MedianNearCenter(c: Config, ns: seq<Note>)
    requires ValidRegister(c) && c.registerCenter.Some? && ns != []
    ensures NormalizeRegister(c, ns) == ns
            || -6 <= c.registerCenter.value - Median(Pitches(NormalizeRegister(c, ns))) <= 6
  {
    var center, median := c.registerCenter.value, Median(Pitches(ns));
    var shift := OctaveShift(center, median);
    if shift != 0 {
      var f := Move(center, c.registerSpread, shift);
      RoundIsNear(center - median, 12);
      MoveAscends(center, c.registerSpread, shift);
      MedianMoves(ns, f);
      MovedPitchNear(center, c.registerSpread, shift, median);
    }
  }

  lemma {:induction false} MoveAscends(center: int, spread: Option<int>, shift: int)
    requires spread.Some? ==> spread.value >= 0
    ensures Ascending(Move(center, spread, shift))
  {
    var f := Move(center, spread, shift);
    forall a: int, b: int | a <= b ensures f(a) <= f(b) {
      MovedPitchAscends(center, spread, shift, a, b);
    }
  }

  lemma {:induction false} MovedPitchAscends(center: int, spread: Option<int>, shift: int, a: int, b: int)
    requires spread.Some? ==> spread.value >= 0
    requires a <= b
    ensures MovedPitch(center, spread, shift, a) <= MovedPitch(center, spread, shift, b)
  {
  }

  /** The clamps only bring a pitch nearer to a centre inside their ranges. */
  lemma {:induction false} MovedPitchNear(center: int, spread: Option<int>, shift: int, p: int)
    requires 0 <= center <= 127 && (spread.Some? ==> spread.value >= 0) && -6 <= center - p - shift <= 6
    ensures -6 <= center - MovedPitch(center, spread, shift, p) <= 6
  {
  }

  /** So a second call is the identity. */
  lemma {:induction false} RegisterTwice(c: Config, ns: seq<Note>)
    requires ValidRegister(c)
    ensures NormalizeRegister(c, NormalizeRegister(c, ns)) == NormalizeRegister(c, ns)
  {
    if c.registerCenter.Some? && ns != [] {
      MedianNearCenter(c, ns);
      if NormalizeRegister(c, ns) != ns {
        NearRoundsToZero(c.registerCenter.value - Median(Pitches(NormalizeRegister(c, ns))));
      }
    }
  }

  lemma {:induction false} NearRoundsToZero(d: int)
    requires -6 <= d <= 6
    ensures RoundHalfEven(d, 12) == 0
  {
  }

  // ---- Timing ----

  /** The nearest line of a grid of `sub` lines per bar, back in ten-thousandths. */
  function Snap(start: int, sub: int): int
    requires sub > 0
  {
    RoundHalfEven(RoundHalfEven(start * sub, WHOLE) * WHOLE, sub)
  }

  predicate Quantizes(c: Config) { c.subdivision.Some? && c.subdivision.value > 0 }

  function Quantize(c: Config, ns: seq<Note>): (r: seq<Note>)
    ensures |r| == |ns|
  {
    if Quantizes(c) then
      seq(|ns|, i requires 0 <= i < |ns| => ns[i].(start := Snap(ns[i].start, c.subdivision.value)))
    else ns
  }

  predicate Swings(start: int) {
    var pos := start % BEAT;
    -600 < pos - 2500 < 600 || -600 < pos - 7500 < 600
  }

  /** Off-beat sixteenths are delayed by an eighth of the swing amount of a beat. */
  function Swung(start: int, swing: int): int {
    if Swings(start) then RoundHalfEven(8 * start + swing, 8) else start
  }

  function ApplySwing(c: Config, ns: seq<Note>): (r: seq<Note>)
    ensures |r| == |ns|
  {
    if c.swing <= 100 then ns
    else seq(|ns|, i requires 0 <= i < |ns| => ns[i].(start := Swung(ns[i].start, c.swing)))
  }

  /** Snapping keeps the order of starts and moves none by more than half a grid step. */
  lemma {:induction false} SnapOrder(a: int, b: int, sub: int)
    requires sub > 0 && a <= b
    ensures Snap(a, sub) <= Snap(b, sub)
  {
    MulOrder(a, b, sub);
    RoundMonotone(a * sub, b * sub, WHOLE);
    MulOrder(RoundHalfEven(a * sub, WHOLE), RoundHalfEven(b * sub, WHOLE), WHOLE);
    RoundMonotone(RoundHalfEven(a * sub, WHOLE) * WHOLE, RoundHalfEven(b * sub, WHOLE) * WHOLE, sub);
  }

  /** Bar lines are grid lines. */
  lemma {:induction false} SnapOfBar(bars: int, sub: int)
    requires sub > 0
    ensures Snap(bars * WHOLE, sub) == bars * WHOLE
  {
    assert bars * WHOLE * sub == (bars * sub) * WHOLE;
    RoundOfMultiple(bars * sub, WHOLE);
    assert (bars * sub) * WHOLE == (bars * WHOLE) * sub;
    RoundOfMultiple(bars * WHOLE, sub);
  }

  /** A grid line stays where it is, as long as the grid is coarser than the rounding. */
  lemma {:induction false} SnapTwice(start: int, sub: int)
    requires 0 < sub < WHOLE
    ensures Snap(Snap(start, sub), sub) == Snap(start, sub)
  {
    var k := RoundHalfEven(start * sub, WHOLE);
    var s := Snap(start, sub);
    RoundIsNear(k * WHOLE, sub);
    NearestLine(s * sub, k);
  }

  lemma {:induction false} NearestLine(x: int, k: int)
    requires -WHOLE < 2 * (x - k * WHOLE) < WHOLE
    ensures RoundHalfEven(x, WHOLE) == k
  {
    if x >= k * WHOLE {
      QuotientIs(x, WHOLE, k, x - k * WHOLE);
    } else {
      QuotientIs(x, WHOLE, k - 1, x - (k - 1) * WHOLE);
    }
  }

  lemma {:induction false} SwingStays(start: int, bars: nat, swing: int)
    requires 0 <= start <= bars * WHOLE && 0 <= swing <= BEAT
    ensures start <= Swung(start, swing) <= bars * WHOLE
  {
    if Swings(start) {
      RoundMonotone(8 * start, 8 * start + swing, 8);
      RoundOfMultiple(start, 8);
      RoundMonotone(8 * start + swing, 8 * (start + 1250), 8);
      RoundOfMultiple(start + 1250, 8);
      assert start % BEAT < 8100;
      assert (bars * WHOLE) % BEAT == 0 by {
        QuotientIs(bars * WHOLE, BEAT, bars * 4, 0);
      }
      assert start + 1250 <= bars * WHOLE;
    }
  }

  // ---- The pipeline ----

  function CleanDur(dur: int, minDur: int, maxDur: int): int {
    var d := if minDur > 0 && dur < minDur then minDur else dur;
    if maxDur > 0 && dur > maxDur then maxDur else d
  }

  function CleanupDurations(c: Config, ns: seq<Note>): (r: seq<Note>)
    ensures |r| == |ns|
  {
    seq(|ns|, i requires 0 <= i < |ns| => ns[i].(dur := CleanDur(ns[i].dur, c.minDur, c.maxDur)))
  }

  predicate CleansDurations(c: Config, ns: seq<Note>) {
    exists i :: 0 <= i < |ns| && ((c.minDur > 0 && ns[i].dur < c.minDur) || (c.maxDur > 0 && ns[i].dur > c.maxDur))
  }

  function Named(applied: bool, name: string): seq<string> {
    if applied then [name] else []
  }

  /** The transforms that act on a list, in order. */
  function Applied(c: Config, ns: seq<Note>): seq<string> {
    var scaled := ScaleVelocity(c, ns);
    var moved := NormalizeRegister(c, scaled);
    Named(ScalesVelocity(c, ns), "velocity") + Named(MovesRegister(c, scaled), "register")
    + Named(Quantizes(c), "quantize") + Named(CleansDurations(c, Quantize(c, moved)), "duration")
    + Named(c.swing > 100, "swing")
  }

  function Process(c: Config, ns: seq<Note>): (r: seq<Note>)
    ensures |r| == |ns|
  {
    if ns == [] || !c.enabled then ns
    else ApplySwing(c, CleanupDurations(c, Quantize(c, NormalizeRegister(c, ScaleVelocity(c, ns)))))
  }

  /** What is applied to one start time on the way through the pipeline. */
  function ProcessedStart(c: Config, start: int): int {
    var s := if Quantizes(c) then Snap(start, c.subdivision.value) else start;
    if c.swing <= 100 then s else Swung(s, c.swing)
  }

  lemma {:induction false} StartsThroughPipeline(c: Config, ns: seq<Note>, i: nat)
    requires i < |ns| && ns != [] && c.enabled
    ensures Process(c, ns)[i].start == ProcessedStart(c, ns[i].start)
  {
    var a := ScaleVelocity(c, ns);
    assert a[i].start == ns[i].start;
    var b := NormalizeRegister(c, a);
    assert b[i].start == a[i].start;
    var d := Quantize(c, b);
    assert CleanupDurations(c, d)[i].start == d[i].start;
  }

  /** Notes that start inside the requested bars still do after the pipeline, the closing bar line included. */
  lemma {:induction false} StartsStayInside(c: Config, ns: seq<Note>, bars: nat, i: nat)
    requires i < |ns| && 0 <= ns[i].start < bars * WHOLE && c.swing <= BEAT
    ensures 0 <= Process(c, ns)[i].start <= bars * WHOLE
  {
    if c.enabled {
      StartsThroughPipeline(c, ns, i);
      var s := ns[i].start;
      if Quantizes(c) {
        var sub := c.subdivision.value;
        SnapOrder(0, s, sub);
        SnapOrder(s, bars * WHOLE, sub);
        SnapOfBar(0, sub);
        SnapOfBar(bars, sub);
        s := Snap(s, sub);
      }
      if c.swing > 100 {
        SwingStays(s, bars, c.swing);
      }
    }
  }

  lemma {:induction false} Composed(c: Config, n0: seq<Note>, n1: seq<Note>, n2: seq<Note>, n3: seq<Note>,
                                    n4: seq<Note>, t: seq<string>)
    requires n0 != [] && c.enabled && n1 == ScaleVelocity(c, n0) && n2 == NormalizeRegister(c, n1)
    requires n3 == Quantize(c, n2) && n4 == CleanupDurations(c, n3)
    ensures ApplySwing(c, n4) == Process(c, n0)
    ensures t + Named(ScalesVelocity(c, n0), "velocity") + Named(MovesRegister(c, n1), "register")
            + Named(Quantizes(c), "quantize") + Named(CleansDurations(c, n3), "duration")
            + Named(c.swing > 100, "swing")
         == t + Applied(c, n0)
  {
    Associate(t, Named(ScalesVelocity(c, n0), "velocity"), Named(MovesRegister(c, n1), "register"),
              Named(Quantizes(c), "quantize"), Named(CleansDurations(c, n3), "duration"),
              Named(c.swing > 100, "swing"));
  }

  lemma {:induction false} Associate(t: seq<string>, a: seq<string>, b: seq<string>, c: seq<string>, d: seq<string>,
                                     e: seq<string>)
    ensures t + a + b + c + d + e == t + (a + b + c + d + e)
  {
  }

  // ---- The processor object ----

  class PostProcessor {
    const config: Config
    var transformsApplied: seq<string>

    constructor (config: Config)
      ensures this.config == config && transformsApplied == []
    {
      this.config := config;
      transformsApplied := [];
    }

    method ProcessNotes(notes: array<Note>)
      modifies this, notes
      ensures notes[..] == Process(config, old(notes[..]))
      ensures transformsApplied ==
              if notes.Length == 0 || !config.enabled then old(transformsApplied) else Applied(config, old(notes[..]))
    {
      if notes.Length == 0 || !config.enabled {
        return;
      }
      transformsApplied := [];
      RunTransforms(notes);
      assert [] + Applied(config, old(notes[..])) == Applied(config, old(notes[..]));
    }

    method RunTransforms(notes: array<Note>)
      requires notes.Length > 0 && config.enabled
      modifies this, notes
      ensures notes[..] == Process(config, old(notes[..]))
      ensures transformsApplied == old(transformsApplied) + Applied(config, old(notes[..]))
    {
      ghost var t, n0 := transformsApplied, notes[..];
      ScaleVelocities(notes);
      ghost var n1 := notes[..];
      NormalizeRegisters(notes);
      ghost var n2 := notes[..];
      QuantizeStarts(notes);
      ghost var n3 := notes[..];
      CleanDurations(notes);
      ghost var n4 := notes[..];
      SwingStarts(notes);
      Composed(config, n0, n1, n2, n3, n4, t);
    }

    method ScaleVelocities(notes: array<Note>)
      modifies this, notes
      ensures notes[..] == ScaleVelocity(config, old(notes[..]))
      ensures transformsApplied == old(transformsApplied) + Named(ScalesVelocity(config, old(notes[..])), "velocity")
    {
      if config.velocityFloor.None? && config.velocityCeiling.None? {
        return;
      }
      var floor, ceiling := OrDefault(config.velocityFloor, 1), OrDefault(config.velocityCeiling, 127);
      if floor >= ceiling || notes.Length == 0 {
        return;
      }
      var lo, hi := VelocityRange(notes);
      VelBounds(notes[..]);
      MapVelocities(notes, lo, hi, floor, ceiling);
      transformsApplied := transformsApplied + ["velocity"];
    }

    static method MapVelocities(notes: array<Note>, lo: int, hi: int, floor: int, ceiling: int)
      requires lo <= hi
      modifies notes
      ensures notes[..] == WithVelocities(old(notes[..]), lo, hi, floor, ceiling)
    {
      for i := 0 to notes.Length
        invariant forall j :: 0 <= j < i ==>
                                notes[j] == old(notes[j]).(vel := ScaledVel(old(notes[j]).vel, lo, hi, floor, ceiling))
        invariant forall j :: i <= j < notes.Length ==> notes[j] == old(notes[j])
      {
        notes[i] := notes[i].(vel := ScaledVel(notes[i].vel, lo, hi, floor, ceiling));
      }
    }

    static method VelocityRange(notes: array<Note>) returns (lo: int, hi: int)
      requires notes.Length > 0
      ensures lo == MinVel(notes[..]) && hi == MaxVel(notes[..])
    {
      lo, hi := notes[0].vel, notes[0].vel;
      for i := 1 to notes.Length
        invariant lo == MinVel(notes[..i]) && hi == MaxVel(notes[..i])
      {
        assert notes[..i + 1][..i] == notes[..i];
        if notes[i].vel < lo {
          lo := notes[i].vel;
        }
        if notes[i].vel > hi {
          hi := notes[i].vel;
        }
      }
      assert notes[..notes.Length] == notes[..];
    }

    method NormalizeRegisters(notes: array<Note>)
      modifies this, notes
      ensures notes[..] == NormalizeRegister(config, old(notes[..]))
      ensures transformsApplied == old(transformsApplied) + Named(MovesRegister(config, old(notes[..])), "register")
    {
      assert transformsApplied + [] == transformsApplied;
      if config.registerCenter.None? || notes.Length == 0 {
        return;
      }
      var center := config.registerCenter.value;
      var sorted := Sort(Pitches(notes[..]), ByValue());
      SortPermutes(Pitches(notes[..]), ByValue());
      var shift := center - sorted[notes.Length / 2];
      if -2 < shift < 2 {
        return;
      }
      var octaveShift := RoundHalfEven(shift, 12) * 12;
      if octaveShift == 0 {
        return;
      }
      MovePitches(notes, center, octaveShift);
      transformsApplied := transformsApplied + ["register"];
    }

    method MovePitches(notes: array<Note>, center: int, octaveShift: int)
      modifies notes
      ensures notes[..] == MovedTo(old(notes[..]), Move(center, config.registerSpread, octaveShift))
    {
      for i := 0 to notes.Length
        invariant forall j :: 0 <= j < i ==>
                                notes[j] == old(notes[j]).(pitch := Clamp(0, 127, old(notes[j]).pitch + octaveShift))
        invariant forall j :: i <= j < notes.Length ==> notes[j] == old(notes[j])
      {
        notes[i] := notes[i].(pitch := Clamp(0, 127, notes[i].pitch + octaveShift));
      }
      if config.registerSpread.Some? {
        HoldToSpread(notes, center - config.registerSpread.value, center + config.registerSpread.value);
      }
    }

    static method HoldToSpread(notes: array<Note>, low: int, high: int)
      modifies notes
      ensures forall j :: 0 <= j < notes.Length ==>
                            notes[j] == old(notes[j]).(pitch := Clamp(low, high, old(notes[j]).pitch))
    {
      for i := 0 to notes.Length
        invariant forall j :: 0 <= j < i ==> notes[j] == old(notes[j]).(pitch := Clamp(low, high, old(notes[j]).pitch))
        invariant forall j :: i <= j < notes.Length ==> notes[j] == old(notes[j])
      {
        notes[i] := notes[i].(pitch := Clamp(low, high, notes[i].pitch));
      }
    }

    method QuantizeStarts(notes: array<Note>)
      modifies this, notes
      ensures notes[..] == Quantize(config, old(notes[..]))
      ensures transformsApplied == old(transformsApplied) + Named(Quantizes(config), "quantize")
    {
      assert transformsApplied + [] == transformsApplied;
      if config.subdivision.None? || config.subdivision.value <= 0 {
        return;
      }
      var sub := config.subdivision.value;
      for i := 0 to notes.Length
        invariant transformsApplied == old(transformsApplied)
        invariant forall j :: 0 <= j < i ==> notes[j] == old(notes[j]).(start := Snap(old(notes[j]).start, sub))
        invariant forall j :: i <= j < notes.Length ==> notes[j] == old(notes[j])
      {
        notes[i] := notes[i].(start := Snap(notes[i].start, sub));
      }
      transformsApplied := transformsApplied + ["quantize"];
    }

    method CleanDurations(notes: array<Note>)
      modifies this, notes
      ensures notes[..] == CleanupDurations(config, old(notes[..]))
      ensures transformsApplied == old(transformsApplied) + Named(CleansDurations(config, old(notes[..])), "duration")
    {
      assert transformsApplied + [] == transformsApplied;
      var minDur, maxDur := config.minDur, config.maxDur;
      if minDur <= 0 && maxDur <= 0 {
        return;
      }
      var changed := false;
      for i := 0 to notes.Length
        invariant transformsApplied == old(transformsApplied)
        invariant forall j :: 0 <= j < i ==>
                                notes[j] == old(notes[j]).(dur := CleanDur(old(notes[j]).dur, minDur, maxDur))
        invariant forall j :: i <= j < notes.Length ==> notes[j] == old(notes[j])
        invariant changed <==> exists j :: 0 <= j < i && ((minDur > 0 && old(notes[j]).dur < minDur)
                                                          || (maxDur > 0 && old(notes[j]).dur > maxDur))
      {
        var dur := notes[i].dur;
        if minDur > 0 && dur < minDur {
          notes[i] := notes[i].(dur := minDur);
          changed := true;
        }
        if maxDur > 0 && dur > maxDur {
          notes[i] := notes[i].(dur := maxDur);
          changed := true;
        }
      }
      if changed {
        transformsApplied := transformsApplied + ["duration"];
      }
    }

    method SwingStarts(notes: array<Note>)
      modifies this, notes
      ensures notes[..] == ApplySwing(config, old(notes[..]))
      ensures transformsApplied == old(transformsApplied) + Named(config.swing > 100, "swing")
    {
      assert transformsApplied + [] == transformsApplied;
      if config.swing <= 100 {
        return;
      }
      for i := 0 to notes.Length
        invariant transformsApplied == old(transformsApplied)
        invariant forall j :: 0 <= j < i ==>
                                notes[j] == old(notes[j]).(start := Swung(old(notes[j]).start, config.swing))
        invariant forall j :: i <= j < notes.Length ==> notes[j] == old(notes[j])
      {
        if Swings(notes[i].start) {
          notes[i] := notes[i].(start := RoundHalfEven(8 * notes[i].start + config.swing, 8));
        }
      }
      transformsApplied := transformsApplied + ["swing"];
    }
  }
}
