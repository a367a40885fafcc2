/**
 The asynchronous job queue as a transition system.

 Between two `await`s the source runs undisturbed, so each such stretch is one step: a submission, a
 cancellation, a worker taking a job, a worker finishing one, a clean-up pass. `Next` says what each step
 does to the state; the class below does it with the queue's own fields.
 */
module Jobs {
  import opened Options
  import opened Sequences

  type Id = nat

  datatype Status = Queued | Running | Complete | Failed | Canceled
  datatype Outcome = Succeeded | Raised

  /** A job record. The empty key stands for no dedupe key: the source treats both alike. */
  datatype Job = Job(status: Status, key: string, position: nat, result: Option<Outcome>,
                     startedAt: Option<int>, completedAt: Option<int>, eventSet: bool)

  /**
   `jobs` holds every job object ever made and `tracked` the identifiers still in the `_jobs` dictionary.
   `held` is what each worker has in hand. `accepted` and `taken` record the order of submission and of
   dequeuing; no step reads them.
   */
  datatype State = State(queue: seq<Id>, jobs: map<Id, Job>, tracked: set<Id>, dedupe: map<string, Id>,
                         held: seq<Option<Id>>, accepted: seq<Id>, taken: seq<Id>)

  datatype Step =
    | Submit(id: Id, key: string)
    | Cancel(job: Id, now: int)
    | Take(worker: nat, now: int)
    | Finish(worker: nat, outcome: Outcome, now: int)
    | Cleanup(now: int)

  const JOB_TTL_SECONDS := 300

  predicate InFlight(j: Job) { j.status == Queued || j.status == Running }

  predicate Terminal(j: Job) { !InFlight(j) }

  function Initial(workers: nat): State {
    State([], map[], {}, map[], seq(workers, _ => None), [], [])
  }

  // ---- Steps ----

  /** The in-flight job the dedupe table names for a key, if any. */
  function Existing(s: State, key: string): Option<Id> {
    if key != "" && key in s.dedupe && s.dedupe[key] in s.tracked && s.dedupe[key] in s.jobs
       && InFlight(s.jobs[s.dedupe[key]])
    then Some(s.dedupe[key]) else None
  }

  /** `asyncio.Queue` with a non-positive bound is never full. */
  predicate QueueFull(s: State, maxQueue: int) { 0 < maxQueue <= |s.queue| }

  function DoSubmit(s: State, maxQueue: int, id: Id, key: string): State {
    if Existing(s, key).Some? || QueueFull(s, maxQueue) then s
    else
      s.(queue := s.queue + [id],
         jobs := s.jobs[id := Job(Queued, key, |s.queue| + 1, None, None, None, false)],
         tracked := s.tracked + {id},
         dedupe := if key != "" then s.dedupe[key := id] else s.dedupe,
         accepted := s.accepted + [id])
  }

  function DoCancel(s: State, id: Id, now: int): State {
    if id !in s.tracked || id !in s.jobs || Terminal(s.jobs[id]) then s
    else
      s.(jobs := s.jobs[id := s.jobs[id].(status := Canceled, completedAt := Some(now), eventSet := true)],
         dedupe := if s.jobs[id].key != "" then s.dedupe - {s.jobs[id].key} else s.dedupe)
  }

  function DoTake(s: State, worker: nat, now: int): State
    requires worker < |s.held| && s.queue != [] && s.queue[0] in s.jobs
  {
    var id := s.queue[0];
    var popped := s.(queue := s.queue[1..], taken := s.taken + [id]);
    if s.jobs[id].status == Canceled then popped
    else popped.(jobs := s.jobs[id := s.jobs[id].(status := Running, startedAt := Some(now))],
                 held := s.held[worker := Some(id)])
  }

  /** The worker does not look at the status again, so a job cancelled while running is completed too. */
  function DoFinish(s: State, worker: nat, outcome: Outcome, now: int): State
    requires worker < |s.held| && s.held[worker].Some? && s.held[worker].value in s.jobs
  {
    var id := s.held[worker].value;
    s.(jobs := s.jobs[id := s.jobs[id].(status := if outcome == Succeeded then Complete else Failed,
                                        result := Some(outcome), completedAt := Some(now), eventSet := true)],
       held := s.held[worker := None])
  }

  predicate Expired(j: Job, now: int) {
    && (j.status == Complete || j.status == Failed)
    && j.completedAt.Some? && j.completedAt.value != 0
    && now - j.completedAt.value > JOB_TTL_SECONDS
  }

  function ExpiredIds(s: State, now: int): set<Id> {
    set id | id in s.tracked && id in s.jobs && Expired(s.jobs[id], now)
  }

  function KeysOf(jobs: map<Id, Job>, ids: set<Id>): set<string> {
    set id | id in ids && id in jobs && jobs[id].key != "" :: jobs[id].key
  }

  /** The clean-up drops the dedupe entry of every expired job, whichever job the entry names by now. */
  function DoCleanup(s: State, now: int): State {
    s.(tracked := s.tracked - ExpiredIds(s, now),
       dedupe := s.dedupe - KeysOf(s.jobs, ExpiredIds(s, now)))
  }

  predicate Enabled(s: State, step: Step) {
    match step
    case Submit(id, _) => id !in s.jobs
    case Cancel(_, _) => true
    case Take(w, _) => w < |s.held| && s.held[w].None? && s.queue != [] && s.queue[0] in s.jobs
    case Finish(w, _, _) => w < |s.held| && s.held[w].Some? && s.held[w].value in s.jobs
    case Cleanup(_) => true
  }

  function Next(s: State, maxQueue: int, step: Step): State
    requires Enabled(s, step)
  {
    match step
    case Submit(id, key) => DoSubmit(s, maxQueue, id, key)
    case Cancel(id, now) => DoCancel(s, id, now)
    case Take(w, now) => DoTake(s, w, now)
    case Finish(w, outcome, now) => DoFinish(s, w, outcome, now)
    case Cleanup(now) => DoCleanup(s, now)
  }

  /** `s'` can be reached from `s` by these steps. */
  ghost predicate Reaches(s: State, maxQueue: int, steps: seq<Step>, s': State)
    decreases |steps|
  {
    if steps == [] then s' == s
    else Enabled(s, steps[0]) && Reaches(Next(s, maxQueue, steps[0]), maxQueue, steps[1..], s')
  }

  // ---- Conservation: every accepted job is in one place ----

  predicate Held(s: State, id: Id) { Some(id) in s.held }

  predicate Retired(s: State, id: Id) { id in s.taken && !Held(s, id) }

  /** First in, first out, nothing lost, nothing twice. */
  ghost predicate Conserved(s: State) {
    && s.accepted == s.taken + s.queue && Distinct(s.accepted)
    && (forall id :: id in s.jobs <==> id in s.accepted)
    && (forall w :: 0 <= w < |s.held| && s.held[w].Some? ==> s.held[w].value in s.taken)
    && (forall v, w :: 0 <= v < w < |s.held| && s.held[v].Some? ==> s.held[v] != s.held[w])
  }

  /** What a job's fields say about where it is. */
  predicate JobAgrees(s: State, id: Id)
    requires id in s.jobs
  {
    var j := s.jobs[id];
    && (id in s.queue ==> j.status in {Queued, Canceled} && j.startedAt.None? && j.result.None?)
    && (Held(s, id) ==> j.status in {Running, Canceled} && j.startedAt.Some?)
    && (Retired(s, id) ==> Terminal(j) && (j.status == Canceled ==> j.startedAt.None? && j.result.None?))
    && (j.eventSet <==> Terminal(j))
    && (j.status in {Complete, Failed} <==> j.result.Some?)
    && (j.status == Complete <==> j.result == Some(Succeeded))
    && (j.status == Failed <==> j.result == Some(Raised))
    && (id !in s.tracked ==> j.status in {Complete, Failed})
  }

  ghost predicate Agrees(s: State) {
    && (forall id :: id in s.jobs ==> JobAgrees(s, id))
    && (forall id :: id in s.tracked ==> id in s.jobs)
  }

  ghost predicate Ranked(s: State, maxQueue: int) {
    && (forall i :: 0 <= i < |s.queue| ==> s.queue[i] in s.jobs && s.jobs[s.queue[i]].position >= i + 1)
    && (0 < maxQueue ==> |s.queue| <= maxQueue)
  }

  ghost predicate Inv(s: State, maxQueue: int) {
    Conserved(s) && Agrees(s) && Ranked(s, maxQueue)
  }

  lemma InitialInv(workers: nat, maxQueue: int)
    ensures Inv(Initial(workers), maxQueue) && DedupeInv(Initial(workers))
  {
  }

  lemma {:induction false} SubmitConserves(s: State, maxQueue: int, id: Id, key: string)
    requires Conserved(s) && id !in s.jobs
    ensures Conserved(DoSubmit(s, maxQueue, id, key))
    ensures id !in s.queue && id !in s.taken && !Held(s, id)
  {
    var t := DoSubmit(s, maxQueue, id, key);
    assert id !in s.accepted && id !in s.taken && id !in s.queue;
    if t != s {
      assert t.accepted == t.taken + t.queue;
      assert forall x :: x in t.accepted <==> x in s.accepted || x == id;
    }
  }

  lemma {:induction false} SubmitAgrees(s: State, maxQueue: int, id: Id, key: string)
    requires Agrees(s) && id !in s.jobs && id !in s.queue && id !in s.taken && !Held(s, id)
    ensures Agrees(DoSubmit(s, maxQueue, id, key))
  {
    var t := DoSubmit(s, maxQueue, id, key);
    forall x | x in t.jobs ensures JobAgrees(t, x) {
      if x != id {
        assert JobAgrees(s, x) && (x in t.queue <==> x in s.queue);
      }
    }
  }

  lemma {:induction false} SubmitKeepsInv(s: State, maxQueue: int, id: Id, key: string)
    requires Inv(s, maxQueue) && id !in s.jobs
    ensures Inv(DoSubmit(s, maxQueue, id, key), maxQueue)
  {
    SubmitConserves(s, maxQueue, id, key);
    SubmitAgrees(s, maxQueue, id, key);
  }

  lemma {:induction false} CancelKeepsInv(s: State, maxQueue: int, id: Id, now: int)
    requires Inv(s, maxQueue)
    ensures Inv(DoCancel(s, id, now), maxQueue)
  {
    var t := DoCancel(s, id, now);
    forall x | x in t.jobs ensures JobAgrees(t, x) {
      assert JobAgrees(s, x);
      PlaceExists(s, x);
    }
  }

  /** An accepted job is queued, held or retired. */
  lemma {:induction false} PlaceExists(s: State, id: Id)
    requires Conserved(s) && id in s.jobs
    ensures id in s.queue || Held(s, id) || Retired(s, id)
  {
    assert id in s.accepted;
  }

  lemma {:induction false} QueueHead(s: State)
    requires Conserved(s) && s.queue != []
    ensures s.queue[0] !in s.queue[1..] && s.queue[0] !in s.taken && !Held(s, s.queue[0])
    ensures forall x :: x in s.queue <==> x == s.queue[0] || x in s.queue[1..]
  {
    var id, n := s.queue[0], |s.taken|;
    assert s.accepted[n] == id;
    forall i | 0 <= i < n ensures s.taken[i] != id {
      assert s.accepted[i] == s.taken[i];
    }
    forall i | 1 <= i < |s.queue| ensures s.queue[i] != id {
      assert s.accepted[n + i] == s.queue[i];
    }
  }

  lemma {:induction false} TakeKeepsInv(s: State, maxQueue: int, w: nat, now: int)
    requires Inv(s, maxQueue) && Enabled(s, Take(w, now))
    ensures Inv(DoTake(s, w, now), maxQueue)
  {
    var t := DoTake(s, w, now);
    QueueHead(s);
    TakeConserves(s, w, now);
    forall x | x in t.jobs ensures JobAgrees(t, x) {
      TakeAgrees(s, w, now, x);
    }
  }

  lemma {:induction false} TakeAgrees(s: State, w: nat, now: int, x: Id)
    requires Conserved(s) && Enabled(s, Take(w, now)) && x in s.jobs
    requires JobAgrees(s, x) && JobAgrees(s, s.queue[0])
    ensures JobAgrees(DoTake(s, w, now), x)
  {
    var id := s.queue[0];
    var t := DoTake(s, w, now);
    QueueHead(s);
    assert x in t.taken <==> x in s.taken || x == id;
    HeldAfter(s.held, w, t.held[w], Some(x));
    assert s.held[w := t.held[w]] == t.held;
  }

  lemma {:induction false} TakeConserves(s: State, w: nat, now: int)
    requires Conserved(s) && Enabled(s, Take(w, now))
    ensures Conserved(DoTake(s, w, now))
  {
    var id := s.queue[0];
    var t := DoTake(s, w, now);
    QueueHead(s);
    assert t.accepted == t.taken + t.queue;
    assert t.taken[|s.taken|] == id && forall x :: x in s.taken ==> x in t.taken;
    forall v | 0 <= v < |s.held| ensures s.held[v] != Some(id) {
      assert s.held[v] in s.held;
    }
  }

  lemma {:induction false} HeldAfter<T>(held: seq<Option<T>>, w: nat, v: Option<T>, x: Option<T>)
    requires w < |held| && x.Some?
    requires forall a, b :: 0 <= a < b < |held| && held[a].Some? ==> held[a] != held[b]
    ensures x in held[w := v] <==> x == v || (x in held && x != held[w])
  {
    var h := held[w := v];
    assert h[w] == v;
    if x in held && x != held[w] {
      var a: nat :| a < |held| && held[a] == x;
      assert h[a] == x;
    }
    if x in h && x != v {
      var a: nat :| a < |h| && h[a] == x;
      assert held[a] == x;
    }
  }

  lemma {:induction false} FinishKeepsInv(s: State, maxQueue: int, w: nat, outcome: Outcome, now: int)
    requires Inv(s, maxQueue) && Enabled(s, Finish(w, outcome, now))
    ensures Inv(DoFinish(s, w, outcome, now), maxQueue)
  {
    var id := s.held[w].value;
    var t := DoFinish(s, w, outcome, now);
    assert Held(s, id) && id in s.taken;
    NotQueued(s, id);
    forall x | x in t.jobs ensures JobAgrees(t, x) {
      assert JobAgrees(s, x);
      HeldAfter(s.held, w, None, Some(x));
    }
  }

  lemma {:induction false} NotQueued(s: State, id: Id)
    requires Conserved(s) && id in s.taken
    ensures id !in s.queue
  {
    var i: nat :| i < |s.taken| && s.taken[i] == id;
    assert s.accepted[i] == id;
    forall k | 0 <= k < |s.queue| ensures s.queue[k] != id {
      assert s.accepted[|s.taken| + k] == s.queue[k];
    }
  }

  lemma {:induction false} CleanupKeepsInv(s: State, maxQueue: int, now: int)
    requires Inv(s, maxQueue)
    ensures Inv(DoCleanup(s, now), maxQueue)
  {
    var t := DoCleanup(s, now);
    forall x | x in t.jobs ensures JobAgrees(t, x) {
      assert JobAgrees(s, x);
    }
  }

  lemma {:induction false} StepKeepsInv(s: State, maxQueue: int, step: Step)
    requires Inv(s, maxQueue) && Enabled(s, step)
    ensures Inv(Next(s, maxQueue, step), maxQueue)
  {
    match step
    case Submit(id, key) => SubmitKeepsInv(s, maxQueue, id, key);
    case Cancel(id, now) => CancelKeepsInv(s, maxQueue, id, now);
    case Take(w, now) => TakeKeepsInv(s, maxQueue, w, now);
    case Finish(w, outcome, now) => FinishKeepsInv(s, maxQueue, w, outcome, now);
    case Cleanup(now) => CleanupKeepsInv(s, maxQueue, now);
  }

  /** The invariant holds in every state of every run. */
  lemma {:induction false} RunsKeepInv(s: State, maxQueue: int, steps: seq<Step>, s': State)
    requires Inv(s, maxQueue) && Reaches(s, maxQueue, steps, s')
    ensures Inv(s', maxQueue)
    decreases |steps|
  {
    if steps != [] {
      StepKeepsInv(s, maxQueue, steps[0]);
      RunsKeepInv(Next(s, maxQueue, steps[0]), maxQueue, steps[1..], s');
    }
  }

  // ---- What conservation means to a caller ----

  /**
   In every reachable state an accepted job is queued once and never started, or held by one worker, or retired
   and finished for good.
   */
  lemma {:induction false} ExactlyOnePlace(workers: nat, maxQueue: int, steps: seq<Step>, s: State, id: Id)
    requires Reaches(Initial(workers), maxQueue, steps, s) && id in s.jobs
    ensures (id in s.queue && !Held(s, id) && !Retired(s, id))
         || (id !in s.queue && Held(s, id) && !Retired(s, id))
         || (id !in s.queue && !Held(s, id) && Retired(s, id))
    ensures Distinct(s.queue)
    ensures forall v, w :: 0 <= v < w < |s.held| && s.held[v] == Some(id) ==> s.held[w] != Some(id)
    ensures id in s.queue ==> s.jobs[id].startedAt.None? && s.jobs[id].result.None? && s.jobs[id].status != Running
    ensures Held(s, id) ==> s.jobs[id].startedAt.Some? && s.jobs[id].status in {Running, Canceled}
    ensures Retired(s, id) ==> Terminal(s.jobs[id]) && s.jobs[id].eventSet
  {
    InitialInv(workers, maxQueue);
    RunsKeepInv(Initial(workers), maxQueue, steps, s);
    OnePlace(s, id);
    assert JobAgrees(s, id);
  }

  lemma {:induction false} OnePlace(s: State, id: Id)
    requires Conserved(s) && id in s.jobs
    ensures (id in s.queue && !Held(s, id) && !Retired(s, id))
         || (id !in s.queue && Held(s, id) && !Retired(s, id))
         || (id !in s.queue && !Held(s, id) && Retired(s, id))
    ensures Distinct(s.queue)
    ensures forall v, w :: 0 <= v < w < |s.held| && s.held[v] == Some(id) ==> s.held[w] != Some(id)
  {
    PlaceExists(s, id);
    if id in s.taken {
      NotQueued(s, id);
    } else {
      assert forall w :: 0 <= w < |s.held| ==> s.held[w] != Some(id);
    }
    forall i, j | 0 <= i < j < |s.queue| ensures s.queue[i] != s.queue[j] {
      assert s.accepted[|s.taken| + i] == s.queue[i] && s.accepted[|s.taken| + j] == s.queue[j];
    }
  }

  function RunningIds(s: State): set<Id> {
    set id | id in s.jobs && s.jobs[id].status == Running
  }

  lemma {:induction false} HeldCount(held: seq<Option<Id>>, ids: set<Id>)
    requires forall id :: id in ids ==> Some(id) in held
    ensures |ids| <= |held|
    decreases |held|
  {
    if held == [] {
      assert forall id :: id !in ids;
      assert ids == {};
    } else if held[0].None? {
      assert held == [held[0]] + held[1..];
      HeldCount(held[1..], ids);
    } else {
      var rest := ids - {held[0].value};
      assert held == [held[0]] + held[1..];
      HeldCount(held[1..], rest);
      assert ids <= rest + {held[0].value};
      assert |ids| <= |rest + {held[0].value}|;
    }
  }

  lemma {:induction false} RunKeepsWorkers(s: State, maxQueue: int, steps: seq<Step>, s': State)
    requires Reaches(s, maxQueue, steps, s')
    ensures |s'.held| == |s.held|
    decreases |steps|
  {
    if steps != [] {
      RunKeepsWorkers(Next(s, maxQueue, steps[0]), maxQueue, steps[1..], s');
    }
  }

  /** Never more jobs running than workers, never more waiting than the bound, no rank above its position. */
  lemma {:induction false} Bounds(workers: nat, maxQueue: int, steps: seq<Step>, s: State)
    requires Reaches(Initial(workers), maxQueue, steps, s)
    ensures |RunningIds(s)| <= workers
    ensures 0 < maxQueue ==> |s.queue| <= maxQueue
    ensures forall i :: 0 <= i < |s.queue| ==> s.queue[i] in s.jobs && s.jobs[s.queue[i]].position >= i + 1
  {
    InitialInv(workers, maxQueue);
    RunsKeepInv(Initial(workers), maxQueue, steps, s);
    RunKeepsWorkers(Initial(workers), maxQueue, steps, s);
    forall id | id in RunningIds(s) ensures Some(id) in s.held {
      PlaceExists(s, id);
      assert JobAgrees(s, id);
    }
    HeldCount(s.held, RunningIds(s));
  }

  function Takes(steps: seq<Step>): nat {
    if steps == [] then 0 else (if steps[0].Take? then 1 else 0) + Takes(steps[1..])
  }

  lemma {:induction false} HistoryGrows(s: State, maxQueue: int, steps: seq<Step>, s': State)
    requires Reaches(s, maxQueue, steps, s')
    ensures s.accepted <= s'.accepted && s.taken <= s'.taken && |s'.taken| == |s.taken| + Takes(steps)
    decreases |steps|
  {
    if steps != [] {
      HistoryGrows(Next(s, maxQueue, steps[0]), maxQueue, steps[1..], s');
    }
  }

  /** No overtaking: the job at rank `i` leaves the queue at the next take but `i`, whatever else happens. */
  lemma {:induction false} LeavesInTurn(s: State, maxQueue: int, steps: seq<Step>, s': State, i: nat)
    requires Inv(s, maxQueue) && Reaches(s, maxQueue, steps, s') && i < |s.queue|
    ensures Takes(steps) > i ==> s.queue[i] in s'.taken && s.queue[i] !in s'.queue
    ensures Takes(steps) <= i ==> |s'.queue| > i - Takes(steps) && s'.queue[i - Takes(steps)] == s.queue[i]
  {
    RunConserves(s, maxQueue, steps, s');
    HistoryGrows(s, maxQueue, steps, s');
    InTurn(s, s', i);
  }

  lemma {:induction false} RunConserves(s: State, maxQueue: int, steps: seq<Step>, s': State)
    requires Inv(s, maxQueue) && Reaches(s, maxQueue, steps, s')
    ensures Conserved(s) && Conserved(s')
  {
    RunsKeepInv(s, maxQueue, steps, s');
  }

  lemma {:induction false} InTurn(s: State, s': State, i: nat)
    requires Conserved(s) && Conserved(s') && i < |s.queue|
    requires s.accepted <= s'.accepted && |s.taken| <= |s'.taken|
    ensures |s'.taken| > |s.taken| + i ==> s.queue[i] in s'.taken && s.queue[i] !in s'.queue
    ensures |s'.taken| <= |s.taken| + i ==>
              var k := |s.taken| + i - |s'.taken|; |s'.queue| > k && s'.queue[k] == s.queue[i]
  {
    var n := |s.taken| + i;
    assert s.accepted[n] == s.queue[i] == s'.accepted[n];
    if |s'.taken| > n {
      assert s'.taken[n] == s'.accepted[n];
      NotQueued(s', s.queue[i]);
    } else {
      assert s'.accepted[n] == s'.queue[n - |s'.taken|];
    }
  }

  // ---- Dedupe safety ----

  /** Every in-flight job with a key is the one its key names. */
  ghost predicate DedupeInv(s: State) {
    forall id :: id in s.jobs && InFlight(s.jobs[id]) && s.jobs[id].key != "" ==>
                   s.jobs[id].key in s.dedupe && s.dedupe[s.jobs[id].key] == id
  }

  /** At most one job in flight for a key. */
  lemma AtMostOne(s: State, a: Id, b: Id)
    requires DedupeInv(s) && a in s.jobs && b in s.jobs
    requires InFlight(s.jobs[a]) && InFlight(s.jobs[b]) && s.jobs[a].key == s.jobs[b].key != ""
    ensures a == b
  {
    assert s.dedupe[s.jobs[a].key] == a;
  }

  /** A clean-up pass is harmless when no expired job shares its key with a job still in flight. */
  ghost predicate CleanupHarmless(s: State, now: int) {
    forall e, f :: e in ExpiredIds(s, now) && f in s.jobs && InFlight(s.jobs[f]) && s.jobs[f].key != "" ==>
                     s.jobs[e].key != s.jobs[f].key
  }

  /** Exactly then the invariant survives the pass. */
  lemma {:induction false} CleanupExactly(s: State, maxQueue: int, now: int)
    requires Inv(s, maxQueue) && DedupeInv(s)
    ensures DedupeInv(DoCleanup(s, now)) <==> CleanupHarmless(s, now)
  {
    var t := DoCleanup(s, now);
    if DedupeInv(t) {
      forall e, f | e in ExpiredIds(s, now) && f in s.jobs && InFlight(s.jobs[f]) && s.jobs[f].key != ""
        ensures s.jobs[e].key != s.jobs[f].key {
        assert s.jobs[f].key in t.dedupe;
        assert s.jobs[e].key != "" ==> s.jobs[e].key in KeysOf(s.jobs, ExpiredIds(s, now));
      }
    }
  }

  lemma {:induction false} SubmitKeepsDedupe(s: State, maxQueue: int, id: Id, key: string)
    requires Agrees(s) && DedupeInv(s) && id !in s.jobs
    ensures DedupeInv(DoSubmit(s, maxQueue, id, key))
  {
    forall x | x in s.jobs && InFlight(s.jobs[x]) ensures x in s.tracked {
      assert JobAgrees(s, x);
    }
  }

  lemma {:induction false} CancelKeepsDedupe(s: State, id: Id, now: int)
    requires DedupeInv(s)
    ensures DedupeInv(DoCancel(s, id, now))
  {
    if id in s.jobs && id in s.tracked && InFlight(s.jobs[id]) {
      forall x | x in s.jobs && x != id && InFlight(s.jobs[x]) && s.jobs[x].key != ""
        ensures s.jobs[x].key != s.jobs[id].key {
        if s.jobs[x].key == s.jobs[id].key {
          AtMostOne(s, x, id);
        }
      }
    }
  }

  lemma {:induction false} StepKeepsDedupe(s: State, maxQueue: int, step: Step)
    requires Inv(s, maxQueue) && DedupeInv(s) && Enabled(s, step)
    requires step.Cleanup? ==> CleanupHarmless(s, step.now)
    ensures DedupeInv(Next(s, maxQueue, step))
  {
    match step
    case Submit(id, key) => SubmitKeepsDedupe(s, maxQueue, id, key);
    case Cancel(id, now) => CancelKeepsDedupe(s, id, now);
    case Take(w, now) => assert JobAgrees(s, s.queue[0]);
    case Finish(_, _, _) =>
    case Cleanup(now) => CleanupExactly(s, maxQueue, now);
  }

  /** Every clean-up pass of the run is harmless. */
  ghost predicate HarmlessRun(s: State, maxQueue: int, steps: seq<Step>)
    decreases |steps|
  {
    steps != [] && Enabled(s, steps[0]) ==>
      (steps[0].Cleanup? ==> CleanupHarmless(s, steps[0].now))
      && HarmlessRun(Next(s, maxQueue, steps[0]), maxQueue, steps[1..])
  }

  /** Over such runs at most one job per key is ever in flight, and the table points at it. */
  lemma {:induction false} DedupeSafety(s: State, maxQueue: int, steps: seq<Step>, s': State)
    requires Inv(s, maxQueue) && DedupeInv(s)
    requires Reaches(s, maxQueue, steps, s') && HarmlessRun(s, maxQueue, steps)
    ensures DedupeInv(s')
    decreases |steps|
  {
    if steps != [] {
      StepKeepsInv(s, maxQueue, steps[0]);
      StepKeepsDedupe(s, maxQueue, steps[0]);
      DedupeSafety(Next(s, maxQueue, steps[0]), maxQueue, steps[1..], s');
    }
  }

  /** The state after the first `n` steps. */
  ghost predicate Passes(s: State, maxQueue: int, steps: seq<Step>, n: nat, t: State) {
    n <= |steps| && Reaches(s, maxQueue, steps[..n], t)
  }

  /** In every state of the run at most one job per key is in flight, and the table points at it. */
  ghost predicate DedupeThroughout(s: State, maxQueue: int, steps: seq<Step>) {
    forall n: nat, t :: Passes(s, maxQueue, steps, n, t) ==> DedupeInv(t)
  }

  lemma {:induction false} PassesOn(s: State, maxQueue: int, steps: seq<Step>, n: nat, t: State)
    requires steps != [] && Enabled(s, steps[0]) && 0 < n <= |steps|
    ensures Passes(s, maxQueue, steps, n, t) <==> Passes(Next(s, maxQueue, steps[0]), maxQueue, steps[1..], n - 1, t)
  {
    assert steps[..n][0] == steps[0] && steps[..n][1..] == steps[1..][..n - 1];
  }

  lemma {:induction false} ThroughoutStep(s: State, maxQueue: int, steps: seq<Step>)
    requires steps != [] && Enabled(s, steps[0])
    ensures DedupeThroughout(s, maxQueue, steps) <==>
            DedupeInv(s) && DedupeThroughout(Next(s, maxQueue, steps[0]), maxQueue, steps[1..])
  {
    var s1, rest := Next(s, maxQueue, steps[0]), steps[1..];
    assert steps[..0] == [] && Passes(s, maxQueue, steps, 0, s);
    forall n: nat, t | DedupeThroughout(s, maxQueue, steps) && Passes(s1, maxQueue, rest, n, t) ensures DedupeInv(t) {
      PassesOn(s, maxQueue, steps, n + 1, t);
    }
    forall n: nat, t | DedupeInv(s) && DedupeThroughout(s1, maxQueue, rest) && Passes(s, maxQueue, steps, n, t)
      ensures DedupeInv(t) {
      if n > 0 {
        PassesOn(s, maxQueue, steps, n, t);
      }
    }
  }

  /** Exactly: a run keeps the keys apart throughout if and only if each of its clean-up passes is harmless. */
  lemma {:induction false} DedupeExactly(s: State, maxQueue: int, steps: seq<Step>, s': State)
    requires Inv(s, maxQueue) && DedupeInv(s) && Reaches(s, maxQueue, steps, s')
    ensures DedupeThroughout(s, maxQueue, steps) <==> HarmlessRun(s, maxQueue, steps)
    decreases |steps|
  {
    if steps == [] {
      assert forall n: nat, t :: Passes(s, maxQueue, steps, n, t) ==> t == s;
    } else {
      var s1 := Next(s, maxQueue, steps[0]);
      ThroughoutStep(s, maxQueue, steps);
      StepKeepsInv(s, maxQueue, steps[0]);
      if steps[0].Cleanup? {
        CleanupExactly(s, maxQueue, steps[0].now);
      } else {
        StepKeepsDedupe(s, maxQueue, steps[0]);
      }
      if DedupeInv(s1) {
        DedupeExactly(s1, maxQueue, steps[1..], s');
      } else {
        assert steps[1..][..0] == [] && Passes(s1, maxQueue, steps[1..], 0, s1);
      }
    }
  }

  // ---- The clean-up with the missing guard ----

  /** As `DoCleanup`, but an entry is dropped only if it still names the expired job. */
  function DoGuardedCleanup(s: State, now: int): State {
    s.(tracked := s.tracked - ExpiredIds(s, now), dedupe := s.dedupe - NamesExpired(s, now))
  }

  function NamesExpired(s: State, now: int): set<string> {
    set key | key in s.dedupe && s.dedupe[key] in ExpiredIds(s, now) && s.dedupe[key] in s.jobs
              && s.jobs[s.dedupe[key]].key == key
  }

  function GuardedNext(s: State, maxQueue: int, step: Step): State
    requires Enabled(s, step)
  {
    if step.Cleanup? then DoGuardedCleanup(s, step.now) else Next(s, maxQueue, step)
  }

  ghost predicate GuardedReaches(s: State, maxQueue: int, steps: seq<Step>, s': State)
    decreases |steps|
  {
    if steps == [] then s' == s
    else Enabled(s, steps[0]) && GuardedReaches(GuardedNext(s, maxQueue, steps[0]), maxQueue, steps[1..], s')
  }

  lemma {:induction false} GuardedCleanupKeeps(s: State, maxQueue: int, now: int)
    requires Inv(s, maxQueue) && DedupeInv(s)
    ensures Inv(DoGuardedCleanup(s, now), maxQueue) && DedupeInv(DoGuardedCleanup(s, now))
  {
    var t := DoGuardedCleanup(s, now);
    forall x | x in t.jobs ensures JobAgrees(t, x) {
      assert JobAgrees(s, x);
    }
  }

  /** With the guard every run is safe: at most one job per key is in flight, and the table points at it. */
  lemma {:induction false} GuardedDedupeSafety(s: State, maxQueue: int, steps: seq<Step>, s': State)
    requires Inv(s, maxQueue) && DedupeInv(s) && GuardedReaches(s, maxQueue, steps, s')
    ensures Inv(s', maxQueue) && DedupeInv(s')
    decreases |steps|
  {
    if steps != [] {
      if steps[0].Cleanup? {
        GuardedCleanupKeeps(s, maxQueue, steps[0].now);
      } else {
        StepKeepsInv(s, maxQueue, steps[0]);
        StepKeepsDedupe(s, maxQueue, steps[0]);
      }
      GuardedDedupeSafety(GuardedNext(s, maxQueue, steps[0]), maxQueue, steps[1..], s');
    }
  }

  // ---- The clean-up as it is ----

  /**
   The run that breaks it: job 0 completes, job 1 takes over its key, job 0 expires, and the clean-up drops
   the entry of job 1; the same request is then accepted a second time while job 1 is still waiting.
   */
  function TwoInFlight(): seq<Step> {
    [Submit(0, "k"), Take(0, 5), Finish(0, Succeeded, 10), Submit(1, "k"), Cleanup(311), Submit(2, "k")]
  }

  function Done(at: int): Job { Job(Complete, "k", 1, Some(Succeeded), Some(5), Some(at), true) }

  function Waiting(position: nat): Job { Job(Queued, "k", position, None, None, None, false) }

  lemma {:induction false} CleanupBreaksDedupe(s: State)
    requires s == State([1, 2], map[0 := Done(10), 1 := Waiting(1), 2 := Waiting(2)], {1, 2}, map["k" := 2],
                        [None], [0, 1, 2], [0])
    ensures Reaches(Initial(1), 20, TwoInFlight(), s)
    ensures InFlight(s.jobs[1]) && InFlight(s.jobs[2]) && s.jobs[1].key == s.jobs[2].key == "k"
  {
    var s3 := State([], map[0 := Done(10)], {0}, map["k" := 0], [None], [0], [0]);
    var rest := [Submit(1, "k"), Cleanup(311), Submit(2, "k")];
    FirstJobDone(s3, rest, s);
    assert TwoInFlight() == [Submit(0, "k"), Take(0, 5), Finish(0, Succeeded, 10)] + rest;
    SecondJobForgotten(s3, rest, s);
  }

  lemma {:induction false} SecondJobForgotten(s3: State, rest: seq<Step>, s: State)
    requires s3 == State([], map[0 := Done(10)], {0}, map["k" := 0], [None], [0], [0])
    requires rest == [Submit(1, "k"), Cleanup(311), Submit(2, "k")]
    requires s == State([1, 2], map[0 := Done(10), 1 := Waiting(1), 2 := Waiting(2)], {1, 2}, map["k" := 2],
                        [None], [0, 1, 2], [0])
    ensures Reaches(s3, 20, rest, s)
  {
    var s4 := State([1], map[0 := Done(10), 1 := Waiting(1)], {0, 1}, map["k" := 1], [None], [0, 1], [0]);
    var s5 := s4.(tracked := {1}, dedupe := map[]);
    CleanedUp(s4);
    assert Next(s3, 20, rest[0]) == s4;
    assert Next(s4, 20, rest[1]) == s5;
    assert Next(s5, 20, rest[2]) == s;
    assert rest[1..][1..] == [rest[2]] && rest[1..][1..][1..] == [];
    assert Reaches(s5, 20, rest[1..][1..], s) <==> Reaches(s, 20, [], s);
    assert Reaches(s4, 20, rest[1..], s) <==> Reaches(s5, 20, rest[1..][1..], s);
    assert Reaches(s3, 20, rest, s) <==> Reaches(s4, 20, rest[1..], s);
  }

  lemma {:induction false} CleanedUp(s: State)
    requires s.jobs == map[0 := Done(10), 1 := Waiting(1)] && s.tracked == {0, 1} && s.dedupe == map["k" := 1]
    ensures DoCleanup(s, 311) == s.(tracked := {1}, dedupe := map[])
  {
    assert ExpiredIds(s, 311) == {0};
    assert KeysOf(s.jobs, {0}) == {"k"} by {
      assert s.jobs[0].key == "k";
    }
  }

  lemma {:induction false} FirstJobDone(s3: State, rest: seq<Step>, s: State)
    requires s3 == State([], map[0 := Done(10)], {0}, map["k" := 0], [None], [0], [0])
    ensures Reaches(Initial(1), 20, [Submit(0, "k"), Take(0, 5), Finish(0, Succeeded, 10)] + rest, s)
            <==> Reaches(s3, 20, rest, s)
  {
    var s0 := State([], map[], {}, map[], [None], [], []);
    var s1 := State([0], map[0 := Waiting(1)], {0}, map["k" := 0], [None], [0], []);
    var s2 := State([], map[0 := Waiting(1).(status := Running, startedAt := Some(5))], {0}, map["k" := 0],
                    [Some(0)], [0], [0]);
    assert Initial(1) == s0;
    assert Next(s0, 20, Submit(0, "k")) == s1;
    assert Next(s1, 20, Take(0, 5)) == s2;
    assert Next(s2, 20, Finish(0, Succeeded, 10)) == s3;
    var t := [Submit(0, "k"), Take(0, 5), Finish(0, Succeeded, 10)] + rest;
    assert t[1..] == [Take(0, 5), Finish(0, Succeeded, 10)] + rest;
    assert t[1..][1..] == [Finish(0, Succeeded, 10)] + rest;
    assert t[1..][1..][1..] == rest;
    assert Reaches(s2, 20, t[1..][1..], s) <==> Reaches(s3, 20, rest, s);
    assert Reaches(s1, 20, t[1..], s) <==> Reaches(s2, 20, t[1..][1..], s);
    assert Reaches(s0, 20, t, s) <==> Reaches(s1, 20, t[1..], s);
  }

  // ---- Cancellation and waiting ----

  /** A cancelled job that no worker holds stays as it is, on every continuation. */
  lemma {:induction false} CanceledStays(s: State, maxQueue: int, steps: seq<Step>, s': State, id: Id)
    requires Inv(s, maxQueue) && Reaches(s, maxQueue, steps, s')
    requires id in s.jobs && s.jobs[id].status == Canceled && !Held(s, id)
    ensures id in s'.jobs && s'.jobs[id] == s.jobs[id] && id in s'.tracked
    ensures s'.jobs[id].result.None? && s'.jobs[id].startedAt.None? && s'.jobs[id].eventSet
    decreases |steps|
  {
    PlaceExists(s, id);
    assert JobAgrees(s, id);
    if steps != [] {
      StepKeepsInv(s, maxQueue, steps[0]);
      CanceledStep(s, maxQueue, steps[0], id);
      CanceledStays(Next(s, maxQueue, steps[0]), maxQueue, steps[1..], s', id);
    }
  }

  lemma {:induction false} CanceledStep(s: State, maxQueue: int, step: Step, id: Id)
    requires Inv(s, maxQueue) && Enabled(s, step)
    requires id in s.jobs && s.jobs[id].status == Canceled && !Held(s, id)
    ensures var t := Next(s, maxQueue, step);
            id in t.jobs && t.jobs[id] == s.jobs[id] && !Held(t, id)
  {
    var t := Next(s, maxQueue, step);
    if step.Take? {
      QueueHead(s);
      HeldAfter(s.held, step.worker, t.held[step.worker], Some(id));
      assert t.held == s.held[step.worker := t.held[step.worker]];
    } else if step.Finish? {
      assert s.held[step.worker] in s.held;
      HeldAfter(s.held, step.worker, None, Some(id));
    }
  }

  /** `Reaches`, named for use under a quantifier. */
  ghost predicate Continues(s: State, maxQueue: int, steps: seq<Step>, s': State) {
    Reaches(s, maxQueue, steps, s')
  }

  /**
   Cancelling sticks exactly when no worker holds the job: a held one is marked complete when its worker
   finishes, although the cancellation promised that the result is dropped.
   */
  lemma {:induction false} CancelSticksExactly(s: State, maxQueue: int, id: Id)
    requires Inv(s, maxQueue) && id in s.jobs && s.jobs[id].status == Canceled
    ensures (forall steps, s' :: Continues(s, maxQueue, steps, s') ==> id in s'.jobs && s'.jobs[id].status == Canceled)
            <==> !Held(s, id)
  {
    if Held(s, id) {
      var steps, s' := HeldIsCompleted(s, maxQueue, id);
      assert Continues(s, maxQueue, steps, s');
    } else {
      forall steps, s' | Continues(s, maxQueue, steps, s')
        ensures id in s'.jobs && s'.jobs[id].status == Canceled {
        CanceledStays(s, maxQueue, steps, s', id);
      }
    }
  }

  /**
   At the call: cancelling a job in flight sticks, whatever happens then, exactly if the job was still queued.
   A running one is completed or failed all the same.
   */
  lemma {:induction false} CancelQueuedExactly(s: State, maxQueue: int, id: Id, now: int)
    requires Inv(s, maxQueue) && id in s.jobs && InFlight(s.jobs[id])
    ensures (forall steps, s' :: Continues(DoCancel(s, id, now), maxQueue, steps, s') ==>
               id in s'.jobs && s'.jobs[id].status == Canceled)
            <==> s.jobs[id].status == Queued
  {
    assert JobAgrees(s, id);
    PlaceExists(s, id);
    CancelKeepsInv(s, maxQueue, id, now);
    CancelSticksExactly(DoCancel(s, id, now), maxQueue, id);
  }

  function CanceledAndCompleted(): seq<Step> {
    [Submit(0, ""), Take(0, 5), Cancel(0, 6), Finish(0, Succeeded, 10)]
  }

  /** A run in which a job is started, cancelled and then completed with its result. */
  lemma {:induction false} CancelIsOverwritten(s: State)
    requires s == State([], map[0 := Job(Complete, "", 1, Some(Succeeded), Some(5), Some(10), true)], {0}, map[],
                        [None], [0], [0])
    ensures Reaches(Initial(1), 20, CanceledAndCompleted()[..3], CanceledState())
    ensures CanceledState().jobs[0].status == Canceled && CanceledState().jobs[0].eventSet
    ensures Reaches(Initial(1), 20, CanceledAndCompleted(), s)
    ensures s.jobs[0].status == Complete && s.jobs[0].result == Some(Succeeded)
  {
    var s0, steps := Initial(1), CanceledAndCompleted();
    var s1 := Next(s0, 20, steps[0]);
    assert s1 == State([0], map[0 := Job(Queued, "", 1, None, None, None, false)], {0}, map[], [None], [0], []);
    var s2 := Next(s1, 20, steps[1]);
    assert s2 == State([], map[0 := Job(Running, "", 1, None, Some(5), None, false)], {0}, map[], [Some(0)], [0], [0]);
    var s3 := Next(s2, 20, steps[2]);
    assert s3 == CanceledState();
    assert Next(s3, 20, steps[3]) == s;
    ReachesInFour(s0, 20, steps, s1, s2, s3, s);
  }

  function CanceledState(): State {
    State([], map[0 := Job(Canceled, "", 1, None, Some(5), Some(6), true)], {0}, map[], [Some(0)], [0], [0])
  }

  lemma {:induction false} ReachesInFour(s0: State, maxQueue: int, steps: seq<Step>, s1: State, s2: State, s3: State,
                                         s4: State)
    requires |steps| == 4
    requires Enabled(s0, steps[0]) && Next(s0, maxQueue, steps[0]) == s1
    requires Enabled(s1, steps[1]) && Next(s1, maxQueue, steps[1]) == s2
    requires Enabled(s2, steps[2]) && Next(s2, maxQueue, steps[2]) == s3
    requires Enabled(s3, steps[3]) && Next(s3, maxQueue, steps[3]) == s4
    ensures Reaches(s0, maxQueue, steps, s4) && Reaches(s0, maxQueue, steps[..3], s3)
  {
    var t, u := steps[1..], steps[..3][1..];
    assert Reaches(s4, maxQueue, t[1..][1..][1..], s4) && Reaches(s3, maxQueue, u[1..][1..], s3);
    assert Reaches(s3, maxQueue, t[1..][1..], s4) && Reaches(s2, maxQueue, u[1..], s3);
    assert Reaches(s2, maxQueue, t[1..], s4) && Reaches(s1, maxQueue, u, s3);
    assert Reaches(s1, maxQueue, t, s4);
  }

  lemma {:induction false} HeldIsCompleted(s: State, maxQueue: int, id: Id) returns (steps: seq<Step>, s': State)
    requires id in s.jobs && Held(s, id)
    ensures Reaches(s, maxQueue, steps, s') && id in s'.jobs && s'.jobs[id].status == Complete
  {
    var w: nat :| w < |s.held| && s.held[w] == Some(id);
    var step := Finish(w, Succeeded, 0);
    steps, s' := [step], Next(s, maxQueue, step);
    assert steps[1..] == [];
    assert Reaches(s', maxQueue, [], s');
  }

  /** Waiters are released exactly by completion, failure or cancellation; clean-up drops only finished jobs. */
  lemma {:induction false} EventsAndCleanup(workers: nat, maxQueue: int, steps: seq<Step>, s: State, id: Id, now: int)
    requires Reaches(Initial(workers), maxQueue, steps, s) && id in s.jobs
    ensures s.jobs[id].eventSet <==> s.jobs[id].status in {Complete, Failed, Canceled}
    ensures s.jobs[id].status == Complete <==> s.jobs[id].result == Some(Succeeded)
    ensures s.jobs[id].status == Failed <==> s.jobs[id].result == Some(Raised)
    ensures InFlight(s.jobs[id]) ==> id in s.tracked && id in DoCleanup(s, now).tracked
  {
    InitialInv(workers, maxQueue);
    RunsKeepInv(Initial(workers), maxQueue, steps, s);
    assert JobAgrees(s, id);
  }

  // ---- What each step does to the jobs ----

  /** All jobs but one keep their records. */
  ghost predicate OnlyChanges(s: State, t: State, id: Id) {
    t.jobs.Keys == s.jobs.Keys && forall x :: x in s.jobs && x != id ==> t.jobs[x] == s.jobs[x]
  }

  /** A job whose generation raised is failed, one whose generation returned is complete; no other job is touched. */
  lemma FinishEffect(s: State, maxQueue: int, w: nat, outcome: Outcome, now: int)
    requires Enabled(s, Finish(w, outcome, now))
    ensures var id, t := s.held[w].value, Next(s, maxQueue, Finish(w, outcome, now));
            && OnlyChanges(s, t, id) && t.held[w].None? && t.queue == s.queue && t.tracked == s.tracked
            && t.dedupe == s.dedupe
            && (outcome == Raised ==> t.jobs[id].status == Failed)
            && (outcome == Succeeded ==> t.jobs[id].status == Complete)
            && t.jobs[id].result == Some(outcome) && t.jobs[id].completedAt == Some(now) && t.jobs[id].eventSet
            && t.jobs[id].startedAt == s.jobs[id].startedAt && t.jobs[id].key == s.jobs[id].key
            && forall v :: 0 <= v < |s.held| && v != w ==> t.held[v] == s.held[v]
  {
  }

  /** A finished record is final. */
  lemma {:induction false} FinishedStays(s: State, maxQueue: int, steps: seq<Step>, s': State, id: Id)
    requires Inv(s, maxQueue) && Reaches(s, maxQueue, steps, s')
    requires id in s.jobs && s.jobs[id].result.Some?
    ensures id in s'.jobs && s'.jobs[id] == s.jobs[id]
    decreases |steps|
  {
    if steps != [] {
      assert JobAgrees(s, id);
      StepKeepsInv(s, maxQueue, steps[0]);
      FinishedStep(s, maxQueue, steps[0], id);
      FinishedStays(Next(s, maxQueue, steps[0]), maxQueue, steps[1..], s', id);
    }
  }

  lemma {:induction false} FinishedStep(s: State, maxQueue: int, step: Step, id: Id)
    requires Inv(s, maxQueue) && Enabled(s, step) && id in s.jobs && s.jobs[id].result.Some?
    ensures id in Next(s, maxQueue, step).jobs && Next(s, maxQueue, step).jobs[id] == s.jobs[id]
  {
    assert JobAgrees(s, id);
    match step
    case Submit(_, _) =>
    case Cancel(_, _) =>
    case Take(_, _) => assert s.queue[0] in s.queue && id !in s.queue;
    case Finish(w, _, _) => assert s.held[w] in s.held && !Held(s, id) && s.held[w] != Some(id);
    case Cleanup(_) =>
  }

  lemma {:induction false} FinishedFirst(s: State, maxQueue: int, step: Step, id: Id)
    requires Enabled(s, step) && id in Next(s, maxQueue, step).jobs && Next(s, maxQueue, step).jobs[id].result.Some?
    requires id in s.jobs ==> s.jobs[id].result.None?
    ensures Finishes([step], 0, Next(s, maxQueue, step).jobs[id])
  {
  }

  /** A step of the run that finished the job with this outcome and at the time its record says. */
  ghost predicate Finishes(steps: seq<Step>, i: nat, j: Job) {
    i < |steps| && steps[i].Finish? && j.result == Some(steps[i].outcome) && j.completedAt == Some(steps[i].now)
  }

  /** Over runs: a job is complete, or failed, because a generation for it returned, or raised, at that time. */
  lemma {:induction false} FinishedBy(s: State, maxQueue: int, steps: seq<Step>, s': State, id: Id) returns (i: nat)
    requires Inv(s, maxQueue) && Reaches(s, maxQueue, steps, s')
    requires id in s.jobs ==> s.jobs[id].result.None?
    requires id in s'.jobs && s'.jobs[id].status in {Complete, Failed}
    ensures Finishes(steps, i, s'.jobs[id])
    ensures steps[i].outcome == if s'.jobs[id].status == Failed then Raised else Succeeded
  {
    i := FinishingStep(s, maxQueue, steps, s', id);
    RunsKeepInv(s, maxQueue, steps, s');
    assert JobAgrees(s', id);
  }

  lemma {:induction false} FinishingStep(s: State, maxQueue: int, steps: seq<Step>, s': State, id: Id) returns (i: nat)
    requires Inv(s, maxQueue) && Reaches(s, maxQueue, steps, s')
    requires id in s.jobs ==> s.jobs[id].result.None?
    requires id in s'.jobs && s'.jobs[id].status in {Complete, Failed}
    ensures Finishes(steps, i, s'.jobs[id])
    decreases |steps|
  {
    RunsKeepInv(s, maxQueue, steps, s');
    assert JobAgrees(s', id);
    assert steps != [];
    var s1 := Next(s, maxQueue, steps[0]);
    StepKeepsInv(s, maxQueue, steps[0]);
    if id in s1.jobs && s1.jobs[id].result.Some? {
      FinishedFirst(s, maxQueue, steps[0], id);
      FinishedStays(s1, maxQueue, steps[1..], s', id);
      i := 0;
    } else {
      i := FinishingStep(s1, maxQueue, steps[1..], s', id);
      i := i + 1;
    }
  }

  /** The first job of the queue leaves it; unless it was cancelled it runs from now on, with this worker. */
  lemma TakeEffect(s: State, maxQueue: int, w: nat, now: int)
    requires Enabled(s, Take(w, now))
    ensures var id, t := s.queue[0], Next(s, maxQueue, Take(w, now));
            && OnlyChanges(s, t, id) && s.queue == [id] + t.queue && t.tracked == s.tracked && t.dedupe == s.dedupe
            && (s.jobs[id].status == Canceled ==> t.jobs[id] == s.jobs[id] && t.held == s.held)
            && (s.jobs[id].status != Canceled ==>
                  t.jobs[id].status == Running && t.jobs[id].startedAt == Some(now) && t.held[w] == Some(id)
                  && t.jobs[id].key == s.jobs[id].key && t.jobs[id].eventSet == s.jobs[id].eventSet)
  {
  }

  /** A job in flight is cancelled, its waiters are released and its key is free; nothing else changes. */
  lemma CancelEffect(s: State, maxQueue: int, id: Id, now: int)
    ensures var t := Next(s, maxQueue, Cancel(id, now));
            && OnlyChanges(s, t, id) && t.queue == s.queue && t.held == s.held && t.tracked == s.tracked
            && (id in s.tracked && id in s.jobs && s.jobs[id].status in {Queued, Running} ==>
                  t.jobs[id].status == Canceled && t.jobs[id].completedAt == Some(now) && t.jobs[id].eventSet
                  && (s.jobs[id].key != "" ==> s.jobs[id].key !in t.dedupe))
            && (id in s.jobs && s.jobs[id].status !in {Queued, Running} ==> t == s)
            && forall key :: key in t.dedupe ==> key in s.dedupe && t.dedupe[key] == s.dedupe[key]
  {
  }

  /** Exactly the jobs that completed or failed more than five minutes ago are forgotten, and no record changes. */
  lemma CleanupEffect(s: State, maxQueue: int, now: int)
    ensures var t := Next(s, maxQueue, Cleanup(now));
            && t.jobs == s.jobs && t.queue == s.queue && t.held == s.held
            && (forall x :: x in t.tracked <==>
                  x in s.tracked
                  && !(x in s.jobs && s.jobs[x].status in {Complete, Failed} && s.jobs[x].completedAt.Some?
                       && s.jobs[x].completedAt.value != 0 && now - s.jobs[x].completedAt.value > 300))
            && (forall key :: key in t.dedupe ==> key in s.dedupe && t.dedupe[key] == s.dedupe[key])
            && (forall key :: key in s.dedupe && key !in t.dedupe ==>
                  exists x :: x in s.tracked && x !in t.tracked && x in s.jobs && s.jobs[x].key == key)
  {
  }

  /** The dedupe table names jobs of that key. */
  ghost predicate Names(s: State) {
    forall key :: key in s.dedupe ==> key != "" && s.dedupe[key] in s.jobs && s.jobs[s.dedupe[key]].key == key
  }

  lemma {:induction false} RunsKeepNames(s: State, maxQueue: int, steps: seq<Step>, s': State)
    requires Names(s) && Reaches(s, maxQueue, steps, s')
    ensures Names(s')
    decreases |steps|
  {
    if steps != [] {
      StepKeepsNames(s, maxQueue, steps[0]);
      RunsKeepNames(Next(s, maxQueue, steps[0]), maxQueue, steps[1..], s');
    }
  }

  lemma StepKeepsNames(s: State, maxQueue: int, step: Step)
    requires Names(s) && Enabled(s, step)
    ensures Names(Next(s, maxQueue, step))
  {
  }

  ghost predicate SharesKey(s: State, key: string, x: Id) {
    x in s.jobs && s.jobs[x].status in {Queued, Running} && s.jobs[x].key == key
  }

  /** The queue and the jobs after a submission that is neither shared nor refused. */
  ghost predicate Admitted(s: State, t: State, id: Id, key: string) {
    && t.queue == s.queue + [id] && t.held == s.held && t.tracked == s.tracked + {id}
    && t.jobs.Keys == s.jobs.Keys + {id} && (forall x :: x in s.jobs ==> t.jobs[x] == s.jobs[x])
    && t.jobs[id].status == Queued && t.jobs[id].key == key
    && 1 <= t.jobs[id].position <= |t.queue| && t.queue[t.jobs[id].position - 1] == id
    && (key != "" ==> key in t.dedupe && t.dedupe[key] == id)
  }

  /**
   Over runs: a submission shares the job in flight that has its key, if there is one; else it is refused by a full
   queue; else it is queued last, and its position is its place in the queue.
   */
  lemma {:induction false} SubmitExactly(workers: nat, maxQueue: int, steps: seq<Step>, s: State, id: Id, key: string)
    requires Reaches(Initial(workers), maxQueue, steps, s) && HarmlessRun(Initial(workers), maxQueue, steps)
    requires id !in s.jobs
    ensures var t := Next(s, maxQueue, Submit(id, key));
            if key != "" && exists x :: SharesKey(s, key, x) then
              t == s && Existing(s, key).Some? && SharesKey(s, key, Existing(s, key).value)
            else
              && Existing(s, key).None?
              && if maxQueue > 0 && |s.queue| == maxQueue then t == s else Admitted(s, t, id, key)
  {
    InitialInv(workers, maxQueue);
    RunsKeepInv(Initial(workers), maxQueue, steps, s);
    DedupeSafety(Initial(workers), maxQueue, steps, s);
    RunsKeepNames(Initial(workers), maxQueue, steps, s);
    ExistingExactly(s, key);
    if Existing(s, key).None? && !QueueFull(s, maxQueue) {
      FreshIsAdmitted(s, maxQueue, id, key);
    }
  }

  lemma FreshIsAdmitted(s: State, maxQueue: int, id: Id, key: string)
    requires id !in s.jobs && Existing(s, key).None? && !QueueFull(s, maxQueue)
    ensures Admitted(s, DoSubmit(s, maxQueue, id, key), id, key)
  {
  }

  lemma {:induction false} ExistingExactly(s: State, key: string)
    requires Agrees(s) && DedupeInv(s) && Names(s)
    ensures Existing(s, key).Some? <==> key != "" && exists x :: SharesKey(s, key, x)
    ensures Existing(s, key).Some? ==> SharesKey(s, key, Existing(s, key).value)
  {
    if Existing(s, key).Some? {
      assert SharesKey(s, key, s.dedupe[key]);
    }
    if x :| key != "" && SharesKey(s, key, x) {
      assert JobAgrees(s, x);
    }
  }

  lemma {:induction false} HeadStatus(s: State, maxQueue: int)
    requires Inv(s, maxQueue) && s.queue != []
    ensures s.queue[0] in s.jobs && s.jobs[s.queue[0]].status in {Queued, Canceled}
  {
    assert s.queue[0] in s.accepted;
    assert JobAgrees(s, s.queue[0]);
  }

  // ---- The queue object ----

  datatype Submitted = Accepted(id: Id) | Deduplicated(id: Id) | QueueIsFull

  class JobQueue {
    const maxQueue: int
    var queue: seq<Id>
    var jobs: map<Id, Job>
    var tracked: set<Id>
    var dedupe: map<string, Id>
    var held: seq<Option<Id>>
    ghost var accepted: seq<Id>
    ghost var taken: seq<Id>

    ghost function View(): State
      reads this
    {
      State(queue, jobs, tracked, dedupe, held, accepted, taken)
    }

    ghost predicate Valid()
      reads this
    {
      Inv(View(), maxQueue)
    }

    constructor (maxQueue: int, workers: nat)
      ensures this.maxQueue == maxQueue && View() == Initial(workers) && Valid()
    {
      this.maxQueue := maxQueue;
      queue, jobs, tracked, dedupe, held := [], map[], {}, map[], seq(workers, _ => None);
      accepted, taken := [], [];
      new;
      InitialInv(workers, maxQueue);
    }

    /** `submit`; the identifier is the fresh one the source draws, unused when the job is a duplicate. */
    method Submit(id: Id, key: string) returns (r: Submitted)
      requires Valid() && id !in jobs
      modifies this
      ensures Valid() && View() == Next(old(View()), maxQueue, Step.Submit(id, key))
      ensures r.Deduplicated? <==> Existing(old(View()), key).Some?
      ensures r.Deduplicated? ==> r.id == Existing(old(View()), key).value && r.id in jobs && InFlight(jobs[r.id])
      ensures r.QueueIsFull? <==> Existing(old(View()), key).None? && 0 < maxQueue <= |old(queue)|
      ensures r.Accepted? ==> r.id == id && queue == old(queue) + [id]
    {
      ghost var before := View();
      r := SubmitOrShare(id, key);
      SubmitKeepsInv(before, maxQueue, id, key);
      if r.Deduplicated? {
        assert View() == before;
      }
    }

    method SubmitOrShare(id: Id, key: string) returns (r: Submitted)
      modifies this
      ensures View() == DoSubmit(old(View()), maxQueue, id, key)
      ensures r == if Existing(old(View()), key).Some? then Deduplicated(Existing(old(View()), key).value)
                   else if QueueFull(old(View()), maxQueue) then QueueIsFull else Accepted(id)
    {
      if key != "" && key in dedupe {
        var existing := dedupe[key];
        if existing in tracked && existing in jobs && InFlight(jobs[existing]) {
          return Deduplicated(existing);
        }
      }
      if 0 < maxQueue <= |queue| {
        return QueueIsFull;
      }
      queue := queue + [id];
      jobs := jobs[id := Job(Queued, key, |queue|, None, None, None, false)];
      tracked := tracked + {id};
      if key != "" {
        dedupe := dedupe[key := id];
      }
      accepted := accepted + [id];
      return Accepted(id);
    }

    method Cancel(id: Id, now: int) returns (r: Option<Job>)
      requires Valid()
      modifies this
      ensures Valid() && View() == Next(old(View()), maxQueue, Step.Cancel(id, now))
      ensures r.None? <==> id !in old(tracked)
      ensures r.Some? ==> id in jobs && r.value == jobs[id] && Terminal(r.value)
      ensures id in old(tracked) && id in old(jobs) && InFlight(old(jobs)[id]) ==> jobs[id].status == Canceled
    {
      CancelKeepsInv(View(), maxQueue, id, now);
      if id !in tracked {
        return None;
      }
      var job := jobs[id];
      if job.status in {Complete, Failed, Canceled} {
        return Some(job);
      }
      jobs := jobs[id := job.(status := Canceled, completedAt := Some(now), eventSet := true)];
      if job.key != "" {
        dedupe := dedupe - {job.key};
      }
      return Some(jobs[id]);
    }

    /** The worker's stretch from the wake-up of `get` to the start of the generation. */
    method WorkerTake(worker: nat, now: int) returns (started: bool)
      requires Valid() && worker < |held| && held[worker].None? && queue != []
      modifies this
      ensures Valid() && Enabled(old(View()), Take(worker, now))
      ensures View() == Next(old(View()), maxQueue, Take(worker, now))
      ensures started <==> old(queue)[0] in old(jobs) && old(jobs)[old(queue)[0]].status == Queued
    {
      ghost var before := View();
      HeadStatus(before, maxQueue);
      started := StartNext(worker, now);
      TakeKeepsInv(before, maxQueue, worker, now);
    }

    method StartNext(worker: nat, now: int) returns (started: bool)
      requires worker < |held| && queue != [] && queue[0] in jobs
      modifies this
      ensures View() == DoTake(old(View()), worker, now)
      ensures started <==> old(jobs)[old(queue)[0]].status != Canceled
    {
      var id := queue[0];
      queue := queue[1..];
      taken := taken + [id];
      if jobs[id].status == Canceled {
        return false;
      }
      jobs := jobs[id := jobs[id].(status := Running, startedAt := Some(now))];
      held := held[worker := Some(id)];
      return true;
    }

    /** The worker's stretch after the generation returned or raised. */
    method WorkerFinish(worker: nat, outcome: Outcome, now: int)
      requires Valid() && worker < |held| && held[worker].Some?
      modifies this
      ensures Valid() && Enabled(old(View()), Finish(worker, outcome, now))
      ensures View() == Next(old(View()), maxQueue, Finish(worker, outcome, now))
      ensures jobs[old(held)[worker].value].completedAt == Some(now) && jobs[old(held)[worker].value].eventSet
      ensures outcome == Raised ==> jobs[old(held)[worker].value].status == Failed
      ensures outcome == Succeeded ==> jobs[old(held)[worker].value].status == Complete
    {
      var id := held[worker].value;
      assert id in taken;
      assert id in accepted;
      FinishKeepsInv(View(), maxQueue, worker, outcome, now);
      jobs := jobs[id := jobs[id].(status := if outcome == Succeeded then Complete else Failed,
                                   result := Some(outcome), completedAt := Some(now), eventSet := true)];
      held := held[worker := None];
    }

    /** One pass of the clean-up loop: the expired jobs are listed, then popped one by one. */
    method CleanupPass(now: int)
      requires Valid()
      modifies this
      ensures Valid() && View() == Next(old(View()), maxQueue, Cleanup(now))
    {
      ghost var before := View();
      PopExpired(now);
      CleanupKeepsInv(before, maxQueue, now);
    }

    method PopExpired(now: int)
      modifies this`tracked, this`dedupe
      ensures View() == DoCleanup(old(View()), now)
    {
      var expired := set id | id in tracked && id in jobs && Expired(jobs[id], now);
      var left := expired;
      while left != {}
        invariant left <= expired
        invariant tracked == old(tracked) - (expired - left)
        invariant dedupe == old(dedupe) - KeysOf(jobs, expired - left)
      {
        var id :| id in left;
        assert expired - (left - {id}) == (expired - left) + {id};
        KeysOfMore(jobs, expired - left, id);
        left := left - {id};
        tracked := tracked - {id};
        if jobs[id].key != "" {
          dedupe := dedupe - {jobs[id].key};
        }
      }
      assert expired - left == expired;
      assert dedupe == old(dedupe) - KeysOf(jobs, expired);
    }
  }

  lemma {:induction false} KeysOfMore(jobs: map<Id, Job>, ids: set<Id>, id: Id)
    requires id in jobs
    ensures KeysOf(jobs, ids + {id}) == KeysOf(jobs, ids) + if jobs[id].key != "" then {jobs[id].key} else {}
  {
  }
}
