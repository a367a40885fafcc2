/**
 The fuzzy lookup over histories: what it answers was written for such a request, and what was written for such a
 request is answered. Also the counts of hits, which both lookups keep.
 */
module FuzzyLookup {
  import opened Options
  import opened Sequences
  import opened ResultCache

  /** The same request but for its five axes. */
  predicate SameButAxes(kd: KeyData, req: KeyData) {
    kd.genre == req.genre && kd.instruments == req.instruments && kd.bars == req.bars && kd.preset == req.preset
  }

  function AxisSum(a: Axes, b: Axes): int {
    (a.energy - b.energy) * (a.energy - b.energy) + (a.valence - b.valence) * (a.valence - b.valence)
    + (a.tension - b.tension) * (a.tension - b.tension) + (a.intimacy - b.intimacy) * (a.intimacy - b.intimacy)
    + (a.motion - b.motion) * (a.motion - b.motion)
  }

  /** The last write to the key gave this result, for such a request, no longer than the time to live ago. */
  ghost predicate WrittenFor(ops: seq<Op>, k: Key, kd: KeyData, result: Result, now: int) {
    exists t :: LastPut(ops, k) == Some((result, t, Some(kd))) && now - t <= 86400
  }

  /** The answer to `req` with distance `dist` is what was written to `k` for `kd`. */
  ghost predicate Explains(ops: seq<Op>, k: Key, kd: KeyData, req: KeyData, now: int, result: Result, dist: int) {
    WrittenFor(ops, k, kd, result, now) && SameButAxes(kd, req) && dist == AxisSum(req.axes, kd.axes)
  }

  /** Over histories: a fuzzy answer was written for such a request, is still fresh, and lies within the radius. */
  lemma {:induction false} FuzzyAnswerWasWritten(ops: seq<Op>, req: KeyData, epsilonSq: int, now: int, result: Result,
                                                 dist: int) returns (k: Key, kd: KeyData)
    requires FuzzyAnswers(Run(ops).cache, req, epsilonSq, now, Some((result, dist)))
    ensures Explains(ops, k, kd, req, now, result, dist) && dist <= epsilonSq
  {
    var c := Run(ops).cache;
    RunAgreesWithWrites(ops);
    var b: nat :| NearestAt(c, |c.order|, req, now, b) && AnswersWith(c, b, req, now, result, dist);
    k := c.order[b];
    kd := c.data[k].keyData.value;
    assert LastPut(ops, k) == Some((result, c.data[k].timestamp, Some(kd)));
  }

  lemma {:induction false} AxisSumNotNegative(a: Axes, b: Axes)
    ensures AxisSum(a, b) >= 0
    ensures AxisSum(a, b) == 0 <==> a == b
  {
    SquareNotNegative(a.energy - b.energy);
    SquareNotNegative(a.valence - b.valence);
    SquareNotNegative(a.tension - b.tension);
    SquareNotNegative(a.intimacy - b.intimacy);
    SquareNotNegative(a.motion - b.motion);
  }

  lemma {:induction false} SquareNotNegative(x: int)
    ensures x * x >= 0 && (x * x == 0 <==> x == 0)
  {
  }

  /** A live entry that was written for such a request is found, or one that is no farther. */
  lemma {:induction false} FuzzyFinds(ops: seq<Op>, k: Key, kd: KeyData, result: Result, req: KeyData, epsilonSq: int,
                                      now: int, r: Option<(Result, int)>)
    requires FuzzyAnswers(Run(ops).cache, req, epsilonSq, now, r)
    requires k in Run(ops).cache.data && WrittenFor(ops, k, kd, result, now) && SameButAxes(kd, req)
    requires AxisSum(req.axes, kd.axes) <= epsilonSq
    ensures r.Some? && r.value.1 <= AxisSum(req.axes, kd.axes)
    ensures kd == req ==> r.value.1 == 0
  {
    var c := Run(ops).cache;
    RunAgreesWithWrites(ops);
    assert k in c.order;
    var i: nat :| i < |c.order| && c.order[i] == k;
    assert c.data[k].keyData == Some(kd);
    assert EligibleAt(c, i, req, now) && DistAt(c, i, req, now) == AxisSum(req.axes, kd.axes);
    if kd == req {
      AxisSumNotNegative(req.axes, kd.axes);
      var k', kd' := FuzzyAnswerWasWritten(ops, req, epsilonSq, now, r.value.0, r.value.1);
      AxisSumNotNegative(req.axes, kd'.axes);
    }
  }

  /** So is a recent write since whose last touch few other keys were touched. */
  lemma {:induction false} RecentWriteIsMatched(ops: seq<Op>, k: Key, kd: KeyData, result: Result, req: KeyData,
                                                epsilonSq: int, now: int, r: Option<(Result, int)>)
    requires FuzzyAnswers(Run(ops).cache, req, epsilonSq, now, r)
    requires InTime(ops, now) && WrittenFor(ops, k, kd, result, now) && SameButAxes(kd, req)
    requires |TouchedAfter(Touches(ops), k)| < 999
    requires AxisSum(req.axes, kd.axes) <= epsilonSq
    ensures r.Some? && r.value.1 <= AxisSum(req.axes, kd.axes)
  {
    RecentWritesAreFound(ops, k, now);
    FuzzyFinds(ops, k, kd, result, req, epsilonSq, now, r);
  }

  // ---- Hits ----

  /** The hits on a key since the last write to it, where a restart has those that were saved. */
  function HitsOf(ops: seq<Op>, k: Key): nat
    decreases |ops|, 0
  {
    if ops == [] then 0
    else
      var init, op := ops[..|ops| - 1], ops[|ops| - 1];
      match op
      case Get(key, now) => HitsOf(init, k) + if key == k && Answer(Run(init).cache, k, now).Some? then 1 else 0
      case Put(key, _, _, _) => if key == k then 0 else HitsOf(init, k)
      case FuzzyHit(key, _) => HitsOf(init, k) + if key == k then 1 else 0
      case Clear(_) => 0
      case Restart(_) => SavedHits(init, k)
  }

  /** The hits on a key when the file was last written. */
  function SavedHits(ops: seq<Op>, k: Key): nat
    decreases |ops|, 1
  {
    if ops == [] || ops[|ops| - 1].Clear? then 0
    else if ops[|ops| - 1].Put? then HitsOf(ops, k)
    else SavedHits(ops[..|ops| - 1], k)
  }

  ghost predicate CountsHits(s: Store, ops: seq<Op>) {
    && (forall k :: k in s.cache.data ==> s.cache.data[k].hits == HitsOf(ops, k))
    && (forall i :: 0 <= i < |s.disk| ==> s.disk[i].1.hits == SavedHits(ops, s.disk[i].0))
  }

  /** Over every history each entry counts the hits on its key since it was written. */
  lemma {:induction false} HitsAreCounted(ops: seq<Op>)
    ensures CountsHits(Run(ops), ops)
  {
    if ops != [] {
      var init, op := ops[..|ops| - 1], ops[|ops| - 1];
      HitsAreCounted(init);
      RunAgreesWithWrites(init);
      if op.Restart? {
        LoadedHits(Run(init).disk, op.now);
      } else if op.Put? {
        RunAgreesWithWrites(ops);
        PutHits(ops);
      }
    }
  }

  lemma {:induction false} LoadedHits(file: seq<(Key, Entry)>, now: int)
    requires DistinctKeys(file)
    ensures forall k :: k in Loaded(file, now).data ==>
              exists i: nat :: FreshAt(file, i, k, now) && Loaded(file, now).data[k] == file[i].1
  {
    LoadedHas(file, now);
    forall k | k in Loaded(file, now).data
      ensures exists i: nat :: FreshAt(file, i, k, now) && Loaded(file, now).data[k] == file[i].1 {
      var i: nat :| FreshAt(file, i, k, now);
    }
  }

  lemma {:induction false} PutHits(ops: seq<Op>)
    requires ops != [] && ops[|ops| - 1].Put? && CountsHits(Run(ops[..|ops| - 1]), ops[..|ops| - 1])
    requires ResultCache.WellFormed(Run(ops).cache)
    ensures CountsHits(Run(ops), ops)
  {
    var c := Run(ops).cache;
    forall i | 0 <= i < |c.order| ensures c.order[i] in c.data {
      assert c.order[i] in c.order;
    }
  }
}
