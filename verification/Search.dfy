/**
 The candidate search of `_do_generate`: cheap batch attempts nested in expensive generate calls, with a
 budget for each. `Flat` is the same search as one loop over attempts with no second budget; the method
 below is proved to do exactly what `Flat` does.
 */
module Search {
  import opened Arithmetic
  import opened Options

  /**
   What an `add_batch` attempt yields: an exception of the call, no file, an exception of parsing or scoring, no
   notes, or a scored candidate.
   */
  datatype BatchResult = CallFailed | NoFile | Broken | NoNotes | Scored(score: real)

  /** A generate call answers, times out or is cancelled, or raises something else. */
  datatype GenerateResult = Answered | TimedOut | Raised

  datatype Stop =
    | FirstGenerateFailed
    | BatchFailedWithNothing
    | BatchFailed
    | Accepted
    | BudgetSpent
    | GoodEnough
    | RegenerateFailed
    | GenerateRaised
    | AttemptRaised
    | GenerateLimit
    | NoIndexLeft

  /** `attempts` counts the tries made, `best` is the attempt that produced the kept candidate. */
  datatype Outcome = Outcome(stop: Stop, attempts: nat, generates: nat, best: Option<nat>)

  const BATCHES_PER_GENERATE := 10

  /**
   The settings and the outside world: what the `i`-th attempt and the `g`-th generate call yield. `Tries` is
   the configured number of attempts per generate call, capped at ten.
   */
  datatype Env = Env(budget: nat, configuredTries: nat, accept: real, regen: real,
                     batch: nat -> BatchResult, generate: nat -> GenerateResult)
  {
    ghost predicate Valid() { budget >= 1 && configuredTries >= 1 }

    function Tries(): (t: nat)
      ensures configuredTries >= 1 ==> 1 <= t <= 10
      ensures t == 10 <==> configuredTries >= 10
      ensures t < 10 ==> t == configuredTries
    {
      if configuredTries < BATCHES_PER_GENERATE then configuredTries else BATCHES_PER_GENERATE
    }

    function MaxGenerates(): nat
      requires configuredTries >= 1
    {
      var n := (budget + Tries() - 1) / Tries();
      if n < 1 then 1 else n
    }
  }

  function Score(e: Env, best: Option<nat>): real {
    if best.Some? && e.batch(best.value).Scored? then e.batch(best.value).score else 0.0
  }

  predicate Improves(e: Env, best: Option<nat>, k: nat) {
    e.batch(k).Scored? && (best.None? || e.batch(k).score > Score(e, best))
  }

  // ---- The simple search ----

  /** After `k` attempts: stop, call generate again if a round is complete, or try the next batch. */
  function Flat(e: Env, k: nat, best: Option<nat>): Outcome
    requires e.Valid() && k <= e.budget
    decreases e.budget - k, 1
  {
    if k == e.budget then Outcome(BudgetSpent, k, (k + e.Tries() - 1) / e.Tries(), best)
    else if k > 0 && k % e.Tries() == 0 then
      if Score(e, best) >= e.regen then Outcome(GoodEnough, k, k / e.Tries(), best)
      else
        match e.generate(k / e.Tries())
        case Answered => Attempt(e, k, best)
        case TimedOut => Outcome(RegenerateFailed, k, k / e.Tries() + 1, best)
        case Raised => Outcome(GenerateRaised, k, k / e.Tries() + 1, best)
    else Attempt(e, k, best)
  }

  function Attempt(e: Env, k: nat, best: Option<nat>): Outcome
    requires e.Valid() && k < e.budget
    decreases e.budget - k, 0
  {
    match e.batch(k)
    case CallFailed =>
      Outcome(if best.None? then BatchFailedWithNothing else BatchFailed, k + 1, k / e.Tries() + 1, best)
    case NoFile => Flat(e, k + 1, best)
    case Broken => Outcome(AttemptRaised, k + 1, k / e.Tries() + 1, best)
    case NoNotes => Flat(e, k + 1, best)
    case Scored(score) =>
      var best' := if Improves(e, best, k) then Some(k) else best;
      if score >= e.accept then Outcome(Accepted, k + 1, k / e.Tries() + 1, best') else Flat(e, k + 1, best')
  }

  function SearchSpec(e: Env): Outcome
    requires e.Valid()
  {
    match e.generate(0)
    case Answered => Flat(e, 0, None)
    case TimedOut => Outcome(FirstGenerateFailed, 0, 1, None)
    case Raised => Outcome(GenerateRaised, 0, 1, None)
  }

  // ---- Its properties ----

  /** `best` is the earliest attempt with the highest score among the first `n`, if any was scored. */
  ghost predicate EarliestBest(e: Env, n: nat, best: Option<nat>) {
    && (best.None? ==> forall i: nat :: i < n ==> !e.batch(i).Scored?)
    && (best.Some? ==> best.value < n && e.batch(best.value).Scored?)
    && (best.Some? ==> forall i: nat :: i < n && e.batch(i).Scored? ==> Beats(e, best.value, i))
  }

  /** `b` scores at least as high as `i`, and higher if `i` came first. */
  ghost predicate Beats(e: Env, b: nat, i: nat)
    requires e.batch(b).Scored? && e.batch(i).Scored?
  {
    e.batch(i).score <= e.batch(b).score && (i < b ==> e.batch(i).score < e.batch(b).score)
  }

  lemma {:induction false} BestStep(e: Env, k: nat, best: Option<nat>)
    requires EarliestBest(e, k, best)
    ensures EarliestBest(e, k + 1, if Improves(e, best, k) then Some(k) else best)
  {
  }

  /** No attempt among the first `n` ended the search by itself. */
  ghost predicate Unfinished(e: Env, n: nat) {
    forall i: nat :: i < n ==>
      !e.batch(i).CallFailed? && !e.batch(i).Broken? && (e.batch(i).Scored? ==> e.batch(i).score < e.accept)
  }

  /** Why a search may stop where it does. */
  ghost predicate StopJustified(e: Env, o: Outcome) {
    match o.stop
    case FirstGenerateFailed => o.attempts == 0 && e.generate(0).TimedOut?
    case BatchFailedWithNothing => o.attempts >= 1 && e.batch(o.attempts - 1).CallFailed? && o.best.None?
    case BatchFailed => o.attempts >= 1 && e.batch(o.attempts - 1).CallFailed? && o.best.Some?
    case Accepted => o.attempts >= 1 && o.best == Some(o.attempts - 1) && Score(e, o.best) >= e.accept
    case BudgetSpent => o.attempts == e.budget && Unfinished(e, o.attempts)
    case GoodEnough => 0 < o.attempts < e.budget && Score(e, o.best) >= e.regen && Unfinished(e, o.attempts)
    case RegenerateFailed =>
      0 < o.attempts < e.budget && o.generates >= 1 && e.generate(o.generates - 1).TimedOut?
      && Unfinished(e, o.attempts)
    case GenerateRaised =>
      o.attempts < e.budget && o.generates >= 1 && e.generate(o.generates - 1).Raised? && Unfinished(e, o.attempts)
    case AttemptRaised => o.attempts >= 1 && e.batch(o.attempts - 1).Broken?
    case GenerateLimit => false
    case NoIndexLeft => false
  }

  lemma {:induction false} CeilStep(k: nat, t: nat)
    requires t >= 1
    ensures (k + 1 + t - 1) / t == k / t + 1
  {
    assert k + 1 + t - 1 == k + t;
    DivPlus(k, t);
  }

  lemma {:induction false} DivPlus(k: nat, t: nat)
    requires t >= 1
    ensures (k + t) / t == k / t + 1
  {
    var q, r := k / t, k % t;
    assert k + t == (q + 1) * t + r;
    QuotientIs(k + t, t, q + 1, r);
  }

  lemma {:induction false} CeilMonotone(a: nat, b: nat, t: nat)
    requires t >= 1 && a <= b
    ensures (a + t - 1) / t <= (b + t - 1) / t
  {
    var qa, qb := (a + t - 1) / t, (b + t - 1) / t;
    MulOrder(qb + 1, qa, t);
  }

  /** Attempts fill whole rounds: the generate calls are the rounds started, plus one that was refused. */
  ghost predicate CallsCounted(e: Env, o: Outcome)
    requires e.Valid()
  {
    o.generates == (o.attempts + e.Tries() - 1) / e.Tries()
                   + (if o.stop.RegenerateFailed? || o.stop.FirstGenerateFailed? || o.stop.GenerateRaised? then 1
                      else 0)
  }

  lemma {:induction false} WholeRounds(k: nat, t: nat)
    requires t >= 1 && k % t == 0
    ensures (k + t - 1) / t == k / t
  {
    QuotientIs(k + t - 1, t, k / t, t - 1);
  }

  /** From any point on, the simple search keeps the earliest best, counts its calls and stops for a reason. */
  lemma {:induction false} FlatCorrect(e: Env, k: nat, best: Option<nat>)
    requires e.Valid() && k <= e.budget && EarliestBest(e, k, best) && Unfinished(e, k)
    ensures var o := Flat(e, k, best);
            o.attempts <= e.budget && EarliestBest(e, o.attempts, o.best) && StopJustified(e, o) && CallsCounted(e, o)
    decreases e.budget - k, 1
  {
    if k == e.budget {
    } else if k > 0 && k % e.Tries() == 0 && (Score(e, best) >= e.regen || !e.generate(k / e.Tries()).Answered?) {
      WholeRounds(k, e.Tries());
    } else {
      AttemptCorrect(e, k, best);
    }
  }

  lemma {:induction false} AttemptCorrect(e: Env, k: nat, best: Option<nat>)
    requires e.Valid() && k < e.budget && EarliestBest(e, k, best) && Unfinished(e, k)
    ensures var o := Attempt(e, k, best);
            o.attempts <= e.budget && EarliestBest(e, o.attempts, o.best) && StopJustified(e, o) && CallsCounted(e, o)
    decreases e.budget - k, 0
  {
    CeilStep(k, e.Tries());
    BestStep(e, k, best);
    match e.batch(k)
    case CallFailed =>
    case NoFile => FlatCorrect(e, k + 1, best);
    case Broken =>
    case NoNotes => FlatCorrect(e, k + 1, best);
    case Scored(score) =>
      if score < e.accept {
        FlatCorrect(e, k + 1, if Improves(e, best, k) then Some(k) else best);
      } else {
        assert best.Some? && Unfinished(e, k) ==> e.batch(best.value).score < e.accept;
      }
  }

  // ---- Told from the attempts and the calls alone ----

  /** None of the first `n` attempts has reached the threshold; with none scored, 0.0 stands for the best. */
  ghost predicate BelowRegen(e: Env, n: nat) {
    && (forall i: nat :: i < n && e.batch(i).Scored? ==> e.batch(i).score < e.regen)
    && ((forall i: nat :: i < n ==> !e.batch(i).Scored?) ==> 0.0 < e.regen)
  }

  /** Attempt `k` was due: at the start of a round the threshold was not reached, and the generate call answered. */
  ghost predicate Due(e: Env, k: nat)
    requires e.Valid()
  {
    k % e.Tries() == 0 ==> (k > 0 ==> BelowRegen(e, k)) && e.generate(k / e.Tries()).Answered?
  }

  /** After `n` attempts none of which ended it, the search stands at the start of a further round. */
  ghost predicate AtRound(e: Env, n: nat)
    requires e.Valid()
  {
    n < e.budget && n % e.Tries() == 0 && Unfinished(e, n)
  }

  /** The one reason for which a search ends after `n` attempts. */
  ghost predicate EndsAfter(e: Env, n: nat, stop: Stop, found: bool)
    requires e.Valid()
  {
    match stop
    case FirstGenerateFailed => n == 0 && e.generate(0).TimedOut?
    case BatchFailedWithNothing => n >= 1 && e.batch(n - 1).CallFailed? && !found
    case BatchFailed => n >= 1 && e.batch(n - 1).CallFailed? && found
    case Accepted => n >= 1 && e.batch(n - 1).Scored? && e.batch(n - 1).score >= e.accept
    case BudgetSpent => n == e.budget && Unfinished(e, n)
    case GoodEnough => n > 0 && AtRound(e, n) && !BelowRegen(e, n)
    case RegenerateFailed => n > 0 && AtRound(e, n) && BelowRegen(e, n) && e.generate(n / e.Tries()).TimedOut?
    case GenerateRaised => AtRound(e, n) && (n > 0 ==> BelowRegen(e, n)) && e.generate(n / e.Tries()).Raised?
    case AttemptRaised => n >= 1 && e.batch(n - 1).Broken?
    case GenerateLimit => false
    case NoIndexLeft => false
  }

  /**
   What the source promises of an outcome: each attempt was due and none but the last ended the search, the reason
   for the end holds, the best is the earliest of the highest score, and the generate calls are those of the rounds.
   */
  ghost predicate Lawful(e: Env, o: Outcome)
    requires e.Valid()
  {
    && o.attempts <= e.budget && EarliestBest(e, o.attempts, o.best) && CallsCounted(e, o)
    && (forall k: nat :: k < o.attempts ==> Due(e, k))
    && Unfinished(e, if o.attempts == 0 then 0 else o.attempts - 1)
    && EndsAfter(e, o.attempts, o.stop, o.best.Some?)
  }

  lemma {:induction false} BestDecides(e: Env, k: nat, best: Option<nat>)
    requires EarliestBest(e, k, best)
    ensures Score(e, best) >= e.regen <==> !BelowRegen(e, k)
  {
  }

  lemma {:induction false} FlatLawful(e: Env, k: nat, best: Option<nat>)
    requires e.Valid() && k <= e.budget && EarliestBest(e, k, best) && Unfinished(e, k)
    requires k > 0 && forall j: nat :: j < k ==> Due(e, j)
    ensures Lawful(e, Flat(e, k, best))
    decreases e.budget - k, 1
  {
    BestDecides(e, k, best);
    if k == e.budget {
    } else if k % e.Tries() == 0 && (Score(e, best) >= e.regen || !e.generate(k / e.Tries()).Answered?) {
      WholeRounds(k, e.Tries());
    } else {
      AttemptLawful(e, k, best);
    }
  }

  lemma {:induction false} AttemptLawful(e: Env, k: nat, best: Option<nat>)
    requires e.Valid() && k < e.budget && EarliestBest(e, k, best) && Unfinished(e, k)
    requires forall j: nat :: j <= k ==> Due(e, j)
    ensures Lawful(e, Attempt(e, k, best))
    decreases e.budget - k, 0
  {
    CeilStep(k, e.Tries());
    BestStep(e, k, best);
    match e.batch(k)
    case CallFailed =>
    case NoFile => FlatLawful(e, k + 1, best);
    case Broken =>
    case NoNotes => FlatLawful(e, k + 1, best);
    case Scored(score) =>
      if score < e.accept {
        FlatLawful(e, k + 1, if Improves(e, best, k) then Some(k) else best);
      }
  }

  lemma {:induction false} BestIsUnique(e: Env, n: nat, a: Option<nat>, b: Option<nat>)
    requires EarliestBest(e, n, a) && EarliestBest(e, n, b)
    ensures a == b
  {
    if a.Some? && b.Some? {
      assert Beats(e, a.value, b.value) && Beats(e, b.value, a.value);
    }
  }

  /** The search cannot have ended where it went on. */
  lemma {:induction false} NoEarlierEnd(e: Env, n: nat, stop: Stop, found: bool, o: Outcome)
    requires e.Valid() && Lawful(e, o) && n < o.attempts
    ensures !EndsAfter(e, n, stop, found)
  {
    assert Due(e, n);
    assert (0 as nat) / e.Tries() == 0;
    assert n >= 1 ==> n - 1 < o.attempts - 1;
  }

  lemma {:induction false} OneReason(e: Env, n: nat, a: Stop, b: Stop, found: bool)
    requires e.Valid() && EndsAfter(e, n, a, found) && EndsAfter(e, n, b, found)
    ensures a == b
  {
    assert (0 as nat) / e.Tries() == 0;
  }

  /** No other outcome is lawful. */
  lemma {:induction false} LawfulIsUnique(e: Env, a: Outcome, b: Outcome)
    requires e.Valid() && Lawful(e, a) && Lawful(e, b)
    ensures a == b
  {
    if a.attempts < b.attempts {
      NoEarlierEnd(e, a.attempts, a.stop, a.best.Some?, b);
    } else if b.attempts < a.attempts {
      NoEarlierEnd(e, b.attempts, b.stop, b.best.Some?, a);
    } else {
      BestIsUnique(e, a.attempts, a.best, b.best);
      OneReason(e, a.attempts, a.stop, b.stop, a.best.Some?);
    }
  }

  /** The search does exactly what is promised of it. */
  lemma {:induction false} SearchExactly(e: Env, o: Outcome)
    requires e.Valid()
    ensures o == SearchSpec(e) <==> Lawful(e, o)
  {
    var t := e.Tries();
    assert (t - 1) / t == 0 && (0 as nat) / t == 0 by {
      QuotientIs(t - 1, t, 0, t - 1);
      QuotientIs(0, t, 0, 0);
    }
    if e.generate(0).Answered? {
      AttemptLawful(e, 0, None);
      assert SearchSpec(e) == Attempt(e, 0, None);
    }
    assert Lawful(e, SearchSpec(e));
    if Lawful(e, o) {
      LawfulIsUnique(e, o, SearchSpec(e));
    }
  }

  /**
   Every generate call but the first was needed: whenever a round was begun, or its call refused, no candidate had
   reached the threshold.
   */
  ghost predicate RegenerationsNeeded(e: Env, o: Outcome)
    requires e.Valid()
  {
    && (forall k: nat :: 0 < k < o.attempts && k % e.Tries() == 0 ==> BelowRegen(e, k))
    && (o.attempts > 0 && (o.stop.RegenerateFailed? || o.stop.GenerateRaised?) ==> BelowRegen(e, o.attempts))
  }

  /**
   The search keeps the earliest candidate of the highest score among all attempts it made, stops only for
   one of the listed reasons, never makes more generate calls than its budget needs, and none that was not needed.
   */
  lemma {:induction false} SearchCorrect(e: Env)
    requires e.Valid()
    ensures var o := SearchSpec(e);
            && EarliestBest(e, o.attempts, o.best) && StopJustified(e, o) && CallsCounted(e, o)
            && o.attempts <= e.budget && o.generates <= e.MaxGenerates() && RegenerationsNeeded(e, o)
  {
    SearchExactly(e, SearchSpec(e));
    NeededIfLawful(e, SearchSpec(e));
    FlatCorrect(e, 0, None);
    var o, t := SearchSpec(e), e.Tries();
    if e.generate(0).Answered? {
      CeilMonotone(o.attempts, e.budget, t);
      if o.stop.RegenerateFailed? || o.stop.GenerateRaised? {
        CallsAtRegenerate(e, 0, None);
        CeilMonotone(o.attempts + 1, e.budget, t);
      }
    } else {
      assert (t - 1) / t == 0 by { QuotientIs(t - 1, t, 0, t - 1); }
    }
  }

  lemma NeededIfLawful(e: Env, o: Outcome)
    requires e.Valid() && Lawful(e, o)
    ensures RegenerationsNeeded(e, o)
  {
    forall k: nat | 0 < k < o.attempts && k % e.Tries() == 0 ensures BelowRegen(e, k) {
      assert Due(e, k);
    }
  }

  /** A refused generate call comes after whole rounds, with budget left for another. */
  lemma {:induction false} CallsAtRegenerate(e: Env, k: nat, best: Option<nat>)
    requires e.Valid() && k <= e.budget
    ensures var o := Flat(e, k, best);
            o.stop.RegenerateFailed? || o.stop.GenerateRaised? ==>
              o.attempts < e.budget && o.generates == (o.attempts + 1 + e.Tries() - 1) / e.Tries()
    ensures var o := Flat(e, k, best);
            o.stop.GoodEnough? || o.stop.RegenerateFailed? || o.stop.GenerateRaised? ==> o.attempts % e.Tries() == 0
    decreases e.budget - k
  {
    if k < e.budget {
      CeilStep(k, e.Tries());
      match e.batch(k)
      case CallFailed =>
      case NoFile => CallsAtRegenerate(e, k + 1, best);
      case Broken =>
      case NoNotes => CallsAtRegenerate(e, k + 1, best);
      case Scored(score) => CallsAtRegenerate(e, k + 1, if Improves(e, best, k) then Some(k) else best);
    }
  }

  // ---- The search as written ----

  /** The indexes still unused, ascending. */
  function Available(used: set<int>, from: nat): seq<int>
    requires from <= BATCHES_PER_GENERATE
    decreases BATCHES_PER_GENERATE - from
  {
    if from == BATCHES_PER_GENERATE then []
    else (if from in used then [] else [from]) + Available(used, from + 1)
  }

  lemma {:induction false} AvailableCorrect(used: set<int>, from: nat)
    requires from <= BATCHES_PER_GENERATE
    ensures forall i :: 0 <= i < |Available(used, from)| ==>
                          from <= Available(used, from)[i] < BATCHES_PER_GENERATE && Available(used, from)[i] !in used
    ensures |Available(used, from)| + |used| >= BATCHES_PER_GENERATE - from
    decreases BATCHES_PER_GENERATE - from
  {
    if from < BATCHES_PER_GENERATE {
      AvailableCorrect(used, from + 1);
      if from in used {
        AvailableCount(used - {from}, used, from + 1);
        AvailableCorrect(used - {from}, from + 1);
      }
    }
  }

  /** Every unused index can be drawn. */
  lemma {:induction false} AvailableAll(used: set<int>, from: nat, i: int)
    requires from <= i < BATCHES_PER_GENERATE && i !in used
    ensures i in Available(used, from)
    decreases BATCHES_PER_GENERATE - from
  {
    if from < i {
      AvailableAll(used, from + 1, i);
    }
  }

  lemma {:induction false} AvailableCount(a: set<int>, b: set<int>, from: nat)
    requires from <= BATCHES_PER_GENERATE && a == b - {from - 1}
    ensures Available(a, from) == Available(b, from)
    decreases BATCHES_PER_GENERATE - from
  {
    AvailableSame(a, b, from);
  }

  lemma {:induction false} AvailableSame(a: set<int>, b: set<int>, from: nat)
    requires from <= BATCHES_PER_GENERATE && forall x :: x >= from ==> (x in a <==> x in b)
    ensures Available(a, from) == Available(b, from)
    decreases BATCHES_PER_GENERATE - from
  {
    if from < BATCHES_PER_GENERATE {
      AvailableSame(a, b, from + 1);
    }
  }

  /** Within one generate call no batch index is used twice. */
  ghost predicate NoRepeats(e: Env, batches: seq<int>)
    requires e.Valid()
  {
    && (forall i :: 0 <= i < |batches| ==> 0 <= batches[i] < BATCHES_PER_GENERATE)
    && (forall i, j :: 0 <= i < j < |batches| && i / e.Tries() == j / e.Tries() ==> batches[i] != batches[j])
  }

  /**
   The two nested loops. `choose` is the random choice among the unused indexes. The result is that of the
   simple search, so the generate limit is never what ends it and an unused index is always there.
   */
  method RunSearch(e: Env, choose: nat -> nat) returns (o: Outcome, batches: seq<int>)
    requires e.Valid()
    ensures o == SearchSpec(e)
    ensures |batches| == o.attempts && NoRepeats(e, batches)
  {
    var tries, maxGenerates := e.Tries(), e.MaxGenerates();
    batches := [];
    var best: Option<nat> := None;
    var total, generates := 0, 1;
    if !e.generate(0).Answered? {
      return Outcome(if e.generate(0).TimedOut? then FirstGenerateFailed else GenerateRaised, 0, 1, None), batches;
    }
    var stop: Option<Stop> := None;
    while stop.None?
      invariant 1 <= generates && total <= e.budget && |batches| == total && NoRepeats(e, batches)
      invariant stop.Some? ==> SearchSpec(e) == Outcome(stop.value, total, generates, best)
      invariant stop.None? ==> total < e.budget && total == (generates - 1) * tries
                               && SearchSpec(e) == Attempt(e, total, best)
      decreases e.budget - total, if stop.None? then 1 else 0
    {
      var round;
      stop, total, best, round := RunRound(e, choose, generates, total, best);
      AppendRound(e, batches, round, generates);
      batches := batches + round;
      RoundEnds(generates, tries);
      if stop.None? {
        if total >= e.budget {
          stop := Some(BudgetSpent);
          CeilOfRounds(total, generates, tries);
        } else {
          RoundDone(e, total, generates, best);
          if Score(e, best) >= e.regen {
            stop := Some(GoodEnough);
          } else if generates >= maxGenerates {
            stop := Some(GenerateLimit);
          } else {
            generates := generates + 1;
            if !e.generate(generates - 1).Answered? {
              stop := Some(if e.generate(generates - 1).TimedOut? then RegenerateFailed else GenerateRaised);
            }
          }
        }
      }
    }
    return Outcome(stop.value, total, generates, best), batches;
  }

  lemma {:induction false} RoundEnds(generates: nat, tries: nat)
    requires generates >= 1
    ensures (generates - 1) * tries + tries == generates * tries
  {
  }

  lemma {:induction false} CeilOfRounds(total: nat, generates: nat, tries: nat)
    requires tries >= 1 && generates >= 1 && (generates - 1) * tries < total <= generates * tries
    ensures (total + tries - 1) / tries == generates
  {
    QuotientIs(total + tries - 1, tries, generates, total + tries - 1 - generates * tries);
  }

  /** A full round with budget left: the round count is the quotient and the generate limit is not reached. */
  lemma {:induction false} RoundDone(e: Env, total: nat, generates: nat, best: Option<nat>)
    requires e.Valid() && generates >= 1 && total == generates * e.Tries() < e.budget
    ensures total / e.Tries() == generates && total % e.Tries() == 0 && total > 0
    ensures generates < e.MaxGenerates()
  {
    var t := e.Tries();
    QuotientIs(total, t, generates, 0);
    CeilMonotone(total + 1, e.budget, t);
    CeilStep(total, t);
    MulOrder(1, generates, t);
  }

  /** Distinct indexes of one round. */
  ghost predicate Round(batches: seq<int>) {
    && (forall i :: 0 <= i < |batches| ==> 0 <= batches[i] < BATCHES_PER_GENERATE)
    && (forall i, j :: 0 <= i < j < |batches| ==> batches[i] != batches[j])
  }

  /** In the middle of a round the simple search just goes on. */
  lemma {:induction false} NextInRound(e: Env, k: nat, start: nat, generates: nat, best: Option<nat>)
    requires e.Valid() && generates >= 1 && start == (generates - 1) * e.Tries()
    requires start <= k < start + e.Tries()
    ensures k / e.Tries() + 1 == generates
    ensures k + 1 - start < e.Tries() && k + 1 < e.budget ==> Flat(e, k + 1, best) == Attempt(e, k + 1, best)
  {
    RoundOf(k, start, generates, e.Tries());
    if k + 1 - start < e.Tries() {
      RoundOf(k + 1, start, generates, e.Tries());
    }
  }

  /** The inner loop: attempts on one generate call until it is used up, the budget is, or the search ends. */
  method RunRound(e: Env, choose: nat -> nat, generates: nat, start: nat, best0: Option<nat>)
    returns (stop: Option<Stop>, total: nat, best: Option<nat>, batches: seq<int>)
    requires e.Valid() && generates >= 1 && start < e.budget && start == (generates - 1) * e.Tries()
    ensures start < total <= e.budget && total - start <= e.Tries() && |batches| == total - start && Round(batches)
    ensures stop.Some? ==> Attempt(e, start, best0) == Outcome(stop.value, total, generates, best)
    ensures stop.None? ==> Attempt(e, start, best0) == Flat(e, total, best)
    ensures stop.None? ==> total - start == e.Tries() || total == e.budget
  {
    var tries := e.Tries();
    ghost var target := Attempt(e, start, best0);
    total, best, stop, batches := start, best0, None, [];
    var used: set<int> := {};
    while total - start < tries && total < e.budget
      invariant stop.None? && start <= total <= e.budget && total - start <= tries
      invariant |batches| == total - start == |used|
      invariant Round(batches) && used == Members(batches)
      invariant total - start < tries && total < e.budget ==> target == Attempt(e, total, best)
      invariant total > start ==> target == Flat(e, total, best)
    {
      // The source only leaves the inner loop here; the mark shows that it never gets here.
      var drawn;
      drawn, batches, used := DrawIndex(batches, used, choose(total));
      if !drawn {
        stop := Some(NoIndexLeft);
        return;
      }
      stop, best := TakeBatch(e, total, best);
      NextInRound(e, total, start, generates, best);
      total := total + 1;
      if stop.Some? {
        return;
      }
    }
  }

  /** One attempt: an exception or an acceptable score ends the search, a better score is kept. */
  method TakeBatch(e: Env, k: nat, best0: Option<nat>) returns (stop: Option<Stop>, best: Option<nat>)
    requires e.Valid() && k < e.budget
    ensures stop.Some? ==> Attempt(e, k, best0) == Outcome(stop.value, k + 1, k / e.Tries() + 1, best)
    ensures stop.None? ==> Attempt(e, k, best0) == Flat(e, k + 1, best)
  {
    best, stop := best0, None;
    var r := e.batch(k);
    if r.CallFailed? {
      stop := Some(if best.None? then BatchFailedWithNothing else BatchFailed);
    } else if r.Broken? {
      stop := Some(AttemptRaised);
    } else if r.Scored? {
      if best.None? || r.score > Score(e, best) {
        best := Some(k);
      }
      if r.score >= e.accept {
        stop := Some(Accepted);
      }
    }
  }

  /** Adds a random index among the unused ones to the round; with fewer than ten used there is one. */
  method DrawIndex(batches0: seq<int>, used0: set<int>, choice: nat)
    returns (drawn: bool, batches: seq<int>, used: set<int>)
    requires Round(batches0) && used0 == Members(batches0) && |used0| == |batches0|
    ensures |batches0| < BATCHES_PER_GENERATE ==> drawn
    ensures drawn ==> |batches| == |batches0| + 1 && batches0 <= batches
    ensures Round(batches) && used == Members(batches) && |used| == |batches|
  {
    batches, used := batches0, used0;
    var available := Available(used, 0);
    AvailableCorrect(used, 0);
    if available == [] {
      return false, batches, used;
    }
    var batch := available[choice % |available|];
    RoundSnoc(batches, batch);
    return true, batches + [batch], used + {batch};
  }

  ghost function Members(s: seq<int>): set<int> { set x | x in s }

  lemma {:induction false} RoundSnoc(batches: seq<int>, batch: int)
    requires Round(batches) && 0 <= batch < BATCHES_PER_GENERATE && batch !in Members(batches)
    ensures Round(batches + [batch]) && Members(batches + [batch]) == Members(batches) + {batch}
  {
    assert forall i :: 0 <= i < |batches| ==> batches[i] in Members(batches);
  }

  lemma {:induction false} RoundOf(k: nat, start: nat, generates: nat, tries: nat)
    requires tries >= 1 && generates >= 1 && start == (generates - 1) * tries && start <= k < start + tries
    ensures k / tries == generates - 1 && k % tries == k - start
  {
    QuotientIs(k, tries, generates - 1, k - start);
  }

  lemma {:induction false} AppendRound(e: Env, batches: seq<int>, round: seq<int>, generates: nat)
    requires e.Valid() && NoRepeats(e, batches) && Round(round) && |round| <= e.Tries()
    requires generates >= 1 && |batches| == (generates - 1) * e.Tries()
    ensures NoRepeats(e, batches + round)
  {
    var n, t, all := |batches|, e.Tries(), batches + round;
    forall i, j | 0 <= i < j < |all| && i / t == j / t ensures all[i] != all[j] {
      if j >= n {
        RoundOf(j, n, generates, t);
        SameRound(i, j, n, generates, t);
      }
    }
  }

  lemma {:induction false} SameRound(i: nat, j: nat, start: nat, generates: nat, t: nat)
    requires t >= 1 && generates >= 1 && start == (generates - 1) * t && i / t == j / t == generates - 1
    ensures i >= start
  {
    assert i == i / t * t + i % t;
  }
}
