/**
 The result cache: an ordered dictionary with least-recently-used eviction, a time to live, a fuzzy lookup
 and a copy on disk, which every write renews and a restart loads.

 The theorems compare a run of operations with its plain history: what was written to a key last
 (`LastPut`) and in which order keys were touched (`Touches`).
 */
module ResultCache {
  import opened Options
  import opened Sequences

  type Key = string
  type Result = string

  /** The cache-relevant fields of a request; the five axes are in ten-thousandths, as rounded there. */
  datatype Axes = Axes(energy: int, valence: int, tension: int, intimacy: int, motion: int)
  datatype KeyData = KeyData(genre: string, instruments: seq<string>, bars: int, preset: string, axes: Axes)

  datatype Entry = Entry(result: Result, timestamp: int, hits: nat, keyData: Option<KeyData>)

  /** `collections.OrderedDict`: the keys in order, and what they map to. */
  datatype Cache = Cache(order: seq<Key>, data: map<Key, Entry>)

  const MAX_CACHE_SIZE: nat := 1000
  const CACHE_TTL_SECONDS := 86400

  const EMPTY := Cache([], map[])

  ghost predicate WellFormed(c: Cache) {
    Distinct(c.order) && forall k :: k in c.order <==> k in c.data
  }

  function Without(s: seq<Key>, k: Key): seq<Key> {
    if s == [] then [] else if s[0] == k then Without(s[1..], k) else [s[0]] + Without(s[1..], k)
  }

  predicate Stale(e: Entry, now: int) { now - e.timestamp > CACHE_TTL_SECONDS }

  // ---- Operations ----

  function DropKey(c: Cache, k: Key): Cache { Cache(Without(c.order, k), c.data - {k}) }

  function DoGet(c: Cache, k: Key, now: int): Cache {
    if k !in c.data then c
    else if Stale(c.data[k], now) then DropKey(c, k)
    else Cache(Without(c.order, k) + [k], c.data[k := c.data[k].(hits := c.data[k].hits + 1)])
  }

  function Answer(c: Cache, k: Key, now: int): Option<Result> {
    if k in c.data && !Stale(c.data[k], now) then Some(c.data[k].result) else None
  }

  /** A full cache drops its oldest key first, even when the write replaces a key it has. */
  function Evict(c: Cache): Cache {
    if |c.order| >= MAX_CACHE_SIZE then Cache(c.order[1..], c.data - {c.order[0]}) else c
  }

  function DoPut(c: Cache, k: Key, result: Result, keyData: Option<KeyData>, now: int): Cache {
    var e := Evict(c);
    Cache(if k in e.data then e.order else e.order + [k], e.data[k := Entry(result, now, 0, keyData)])
  }

  predicate Eligible(e: Entry, req: KeyData, now: int) {
    && !Stale(e, now) && e.keyData.Some?
    && var kd := e.keyData.value;
       kd.genre == req.genre && kd.instruments == req.instruments && kd.bars == req.bars && kd.preset == req.preset
  }

  function Square(x: int): int { x * x }

  function DistSq(a: Axes, b: Axes): int {
    Square(a.energy - b.energy) + Square(a.valence - b.valence) + Square(a.tension - b.tension)
    + Square(a.intimacy - b.intimacy) + Square(a.motion - b.motion)
  }

  function EntryDist(e: Entry, req: KeyData): int
    requires e.keyData.Some?
  {
    DistSq(req.axes, e.keyData.value.axes)
  }

  /** The entry at position `i` can answer the request. */
  predicate EligibleAt(c: Cache, i: nat, req: KeyData, now: int) {
    i < |c.order| && c.order[i] in c.data && Eligible(c.data[c.order[i]], req, now)
  }

  function DistAt(c: Cache, i: nat, req: KeyData, now: int): int
    requires EligibleAt(c, i, req, now)
  {
    EntryDist(c.data[c.order[i]], req)
  }

  /** Among the first `n` entries, `b` is eligible, at the least distance, and the earliest such. */
  predicate NearestAt(c: Cache, n: nat, req: KeyData, now: int, b: nat) {
    && b < n && EligibleAt(c, b, req, now)
    && forall i: nat :: i < n && EligibleAt(c, i, req, now) ==>
         DistAt(c, b, req, now) <= DistAt(c, i, req, now)
         && (i < b ==> DistAt(c, b, req, now) < DistAt(c, i, req, now))
  }

  /**
   A fuzzy answer: the nearest eligible entry, the earliest among equals, if it lies within the radius; else nothing.
   */
  ghost predicate FuzzyAnswers(c: Cache, req: KeyData, epsilonSq: int, now: int, r: Option<(Result, int)>) {
    match r
    case None => forall i: nat :: EligibleAt(c, i, req, now) ==> DistAt(c, i, req, now) > epsilonSq
    case Some((result, dist)) =>
      && dist <= epsilonSq
      && exists b: nat :: NearestAt(c, |c.order|, req, now, b) && AnswersWith(c, b, req, now, result, dist)
  }

  predicate AnswersWith(c: Cache, b: nat, req: KeyData, now: int, result: Result, dist: int)
    requires EligibleAt(c, b, req, now)
  {
    c.data[c.order[b]].result == result && DistAt(c, b, req, now) == dist
  }

  // ---- Disk ----

  /** The file that is written: the entries in order. */
  function Saved(c: Cache): seq<(Key, Entry)> {
    seq(|c.order|, i requires 0 <= i < |c.order| =>
      (c.order[i], if c.order[i] in c.data then c.data[c.order[i]] else NO_ENTRY))
  }

  const NO_ENTRY := Entry("", 0, 0, None)

  function LoadOne(c: Cache, k: Key, e: Entry, now: int): Cache {
    if Stale(e, now) then c
    else Cache(if k in c.data then c.order else c.order + [k], c.data[k := e])
  }

  /** Loading goes on top of what the cache holds. */
  function LoadedInto(c: Cache, file: seq<(Key, Entry)>, now: int): Cache {
    if file == [] then c
    else LoadOne(LoadedInto(c, file[..|file| - 1], now), file[|file| - 1].0, file[|file| - 1].1, now)
  }

  function Loaded(file: seq<(Key, Entry)>, now: int): Cache { LoadedInto(EMPTY, file, now) }

  /** How many entries of a file are young enough to be loaded. */
  function FreshEntries(file: seq<(Key, Entry)>, now: int): nat {
    if file == [] then 0
    else FreshEntries(file[..|file| - 1], now) + if Stale(file[|file| - 1].1, now) then 0 else 1
  }

  // ---- Histories ----

  datatype Op =
    | Get(key: Key, now: int)
    | Put(key: Key, result: Result, keyData: Option<KeyData>, now: int)
    | FuzzyHit(key: Key, now: int)
    | Clear(now: int)
    | Restart(now: int)

  /** A fuzzy hit counts on the entry it found and touches nothing else; a fuzzy miss changes nothing. */
  function DoFuzzyHit(c: Cache, k: Key): Cache {
    if k in c.data then c.(data := c.data[k := c.data[k].(hits := c.data[k].hits + 1)]) else c
  }

  /** The cache in memory and the file on disk. */
  datatype Store = Store(cache: Cache, disk: seq<(Key, Entry)>)

  /** A write saves the cache, a clear removes the file too, and a restart has only the file. */
  function Apply(s: Store, op: Op): Store {
    match op
    case Get(k, now) => s.(cache := DoGet(s.cache, k, now))
    case Put(k, result, keyData, now) =>
      var c := DoPut(s.cache, k, result, keyData, now);
      Store(c, Saved(c))
    case FuzzyHit(k, _) => s.(cache := DoFuzzyHit(s.cache, k))
    case Clear(_) => Store(EMPTY, [])
    case Restart(now) => s.(cache := Loaded(s.disk, now))
  }

  function Run(ops: seq<Op>): Store {
    if ops == [] then Store(EMPTY, []) else Apply(Run(ops[..|ops| - 1]), ops[|ops| - 1])
  }

  // ---- The plain history ----

  /** The last write to a key that was not cleared: what, when, and for which request. */
  function LastPut(ops: seq<Op>, k: Key): Option<(Result, int, Option<KeyData>)> {
    if ops == [] then None
    else
      var op := ops[|ops| - 1];
      if op.Clear? then None
      else if op.Put? && op.key == k then Some((op.result, op.now, op.keyData))
      else LastPut(ops[..|ops| - 1], k)
  }

  /** A hit, or the insertion of a key that is absent, touches the key; nothing else does. */
  function Touched(c: Cache, op: Op): seq<Key> {
    match op
    case Get(k, now) => if Answer(c, k, now).Some? then [k] else []
    case Put(k, _, _, _) => if k in Evict(c).data then [] else [k]
    case FuzzyHit(_, _) => []
    case Clear(_) => []
    case Restart(_) => []
  }

  /** The touches in force: a clear forgets all, a restart those since the last write. */
  function Touches(ops: seq<Op>): seq<Key>
    decreases |ops|, 0
  {
    if ops == [] || ops[|ops| - 1].Clear? then []
    else if ops[|ops| - 1].Restart? then SavedTouches(ops[..|ops| - 1])
    else Touches(ops[..|ops| - 1]) + Touched(Run(ops[..|ops| - 1]).cache, ops[|ops| - 1])
  }

  /** The touches up to the last write, which the order of the file reflects. */
  function SavedTouches(ops: seq<Op>): seq<Key>
    decreases |ops|, 1
  {
    if ops == [] || ops[|ops| - 1].Clear? then []
    else if ops[|ops| - 1].Put? then Touches(ops)
    else SavedTouches(ops[..|ops| - 1])
  }

  /** The keys touched after the last touch of `k`. */
  function TouchedAfter(touches: seq<Key>, k: Key): set<Key> {
    if touches == [] || touches[|touches| - 1] == k then {}
    else TouchedAfter(touches[..|touches| - 1], k) + {touches[|touches| - 1]}
  }

  function StaleOnDisk(disk: seq<(Key, Entry)>, now: int): set<Key> {
    set i | 0 <= i < |disk| && Stale(disk[i].1, now) :: disk[i].0
  }

  /** Keys that a lookup or a restart found too old and dropped, and that were not written since. */
  function DroppedStale(ops: seq<Op>): set<Key> {
    if ops == [] then {}
    else
      var init, op := ops[..|ops| - 1], ops[|ops| - 1];
      match op
      case Get(k, now) =>
        var c := Run(init).cache;
        if k in c.data && Stale(c.data[k], now) then DroppedStale(init) + {k} else DroppedStale(init)
      case Put(k, _, _, _) => DroppedStale(init) - {k}
      case FuzzyHit(_, _) => DroppedStale(init)
      case Clear(_) => {}
      case Restart(now) => DroppedStale(init) + StaleOnDisk(Run(init).disk, now)
  }

  // ---- Order ----

  lemma {:induction false} WithoutMember(s: seq<Key>, k: Key, x: Key)
    ensures x in Without(s, k) <==> x in s && x != k
  {
    if s != [] {
      WithoutMember(s[1..], k, x);
      assert s == [s[0]] + s[1..];
    }
  }

  lemma {:induction false} WithoutDistinct(s: seq<Key>, k: Key)
    requires Distinct(s)
    ensures Distinct(Without(s, k)) && |Without(s, k)| == |s| - if k in s then 1 else 0
  {
    if s != [] {
      assert Distinct(s[1..]) && s[0] !in s[1..];
      WithoutDistinct(s[1..], k);
      WithoutMember(s[1..], k, s[0]);
      assert s == [s[0]] + s[1..];
    }
  }

  lemma {:induction false} DropWellFormed(c: Cache, k: Key)
    requires WellFormed(c)
    ensures WellFormed(DropKey(c, k))
  {
    WithoutDistinct(c.order, k);
    forall x ensures x in DropKey(c, k).order <==> x in DropKey(c, k).data {
      WithoutMember(c.order, k, x);
    }
  }

  lemma {:induction false} EvictWellFormed(c: Cache)
    requires WellFormed(c) && |c.order| <= MAX_CACHE_SIZE
    ensures WellFormed(Evict(c)) && |Evict(c).order| < MAX_CACHE_SIZE
  {
    if |c.order| >= MAX_CACHE_SIZE {
      var e := Evict(c);
      forall x ensures x in e.order <==> x in e.data {
        assert c.order == [c.order[0]] + c.order[1..];
      }
    }
  }

  /** One operation on the cache alone. */
  lemma {:induction false} ApplyWellFormed(s: Store, op: Op)
    requires WellFormed(s.cache) && |s.cache.order| <= MAX_CACHE_SIZE && !op.Restart?
    ensures WellFormed(Apply(s, op).cache) && |Apply(s, op).cache.order| <= MAX_CACHE_SIZE
  {
    var c := s.cache;
    match op
    case Get(k, now) =>
      if k in c.data {
        DropWellFormed(c, k);
        WithoutDistinct(c.order, k);
        WithoutMember(c.order, k, k);
      }
    case Put(k, _, _, _) => EvictWellFormed(c);
    case FuzzyHit(_, _) =>
    case Clear(_) =>
  }

  /** What a write put into an entry. */
  function Written(e: Entry): (Result, int, Option<KeyData>) { (e.result, e.timestamp, e.keyData) }

  predicate DistinctKeys(file: seq<(Key, Entry)>) {
    forall i, j :: 0 <= i < j < |file| ==> file[i].0 != file[j].0
  }

  /** A file lists each key once, with an entry that agrees with the last write to it. */
  ghost predicate GoodFile(file: seq<(Key, Entry)>, ops: seq<Op>) {
    && |file| <= 1000 && DistinctKeys(file)
    && (forall i :: 0 <= i < |file| ==> LastPut(ops, file[i].0) == Some(Written(file[i].1)))
  }

  predicate FreshAt(file: seq<(Key, Entry)>, i: nat, k: Key, now: int) {
    i < |file| && file[i].0 == k && !Stale(file[i].1, now)
  }

  ghost predicate Fresh(file: seq<(Key, Entry)>, k: Key, now: int) { exists i: nat :: FreshAt(file, i, k, now) }

  lemma {:induction false} FreshSnoc(file: seq<(Key, Entry)>, k: Key, now: int)
    requires file != []
    ensures Fresh(file, k, now) <==> Fresh(file[..|file| - 1], k, now) || FreshAt(file, |file| - 1, k, now)
  {
    var n := |file| - 1;
    if i: nat :| FreshAt(file[..n], i, k, now) {
      assert FreshAt(file, i, k, now);
    }
    if i: nat :| FreshAt(file, i, k, now) && i != n {
      assert FreshAt(file[..n], i, k, now);
    }
  }

  /** Loading a file: its entries that are not stale. */
  lemma {:induction false} LoadedHas(file: seq<(Key, Entry)>, now: int)
    requires DistinctKeys(file)
    ensures WellFormed(Loaded(file, now)) && |Loaded(file, now).order| <= |file|
    ensures forall k :: k in Loaded(file, now).data <==> Fresh(file, k, now)
    ensures forall i: nat, k :: FreshAt(file, i, k, now) ==>
              k in Loaded(file, now).data && Loaded(file, now).data[k] == file[i].1
  {
    if file != [] {
      var n := |file| - 1;
      var k := file[n].0;
      LoadedHas(file[..n], now);
      var before := Loaded(file[..n], now);
      assert k !in before.data;
      LoadedNext(before, k, file[n].1, now);
      forall x ensures x in Loaded(file, now).data <==> Fresh(file, x, now) {
        FreshSnoc(file, x, now);
      }
      forall i: nat, x | FreshAt(file, i, x, now)
        ensures x in Loaded(file, now).data && Loaded(file, now).data[x] == file[i].1 {
        if i < n {
          assert FreshAt(file[..n], i, x, now);
        }
      }
    }
  }

  lemma LoadedNext(c: Cache, k: Key, e: Entry, now: int)
    requires WellFormed(c) && k !in c.data
    ensures WellFormed(LoadOne(c, k, e, now)) && |LoadOne(c, k, e, now).order| <= |c.order| + 1
  {
  }

  /** Over every history with clears and restarts: the size bound, and every entry is the last write to its key. */
  lemma {:induction false} RunAgreesWithWrites(ops: seq<Op>)
    ensures WellFormed(Run(ops).cache) && |Run(ops).cache.order| <= 1000
    ensures forall k :: k in Run(ops).cache.data ==>
              LastPut(ops, k) == Some(Written(Run(ops).cache.data[k]))
    ensures GoodFile(Run(ops).disk, ops)
  {
    if ops != [] {
      var init, op := ops[..|ops| - 1], ops[|ops| - 1];
      RunAgreesWithWrites(init);
      if op.Restart? {
        LoadedHas(Run(init).disk, op.now);
      } else {
        ApplyWellFormed(Run(init), op);
        if op.Put? {
          SavedIsGood(Run(ops).cache, ops);
        }
      }
    }
  }

  lemma {:induction false} SavedIsGood(c: Cache, ops: seq<Op>)
    requires WellFormed(c) && |c.order| <= MAX_CACHE_SIZE
    requires forall k :: k in c.data ==> LastPut(ops, k) == Some(Written(c.data[k]))
    ensures GoodFile(Saved(c), ops)
  {
    forall i | 0 <= i < |c.order| ensures c.order[i] in c.data {
      assert c.order[i] in c.order;
    }
  }

  /** A hit returns the latest write to the key, and that write is not older than the time to live. */
  lemma {:induction false} HitIsLatestWrite(ops: seq<Op>, k: Key, now: int)
    requires Answer(Run(ops).cache, k, now).Some?
    ensures LastPut(ops, k).Some? && LastPut(ops, k).value.0 == Answer(Run(ops).cache, k, now).value
    ensures now - LastPut(ops, k).value.1 <= 86400
  {
    RunAgreesWithWrites(ops);
  }

  // ---- Least recently used ----

  /** The order of the cache is the order of last touch. */
  predicate InTouchOrder(order: seq<Key>, touches: seq<Key>) {
    forall i, j :: 0 <= i < j < |order| ==> order[j] in TouchedAfter(touches, order[i])
  }

  lemma {:induction false} TouchSnoc(touches: seq<Key>, k: Key, x: Key)
    ensures TouchedAfter(touches + [k], x) == if x == k then {} else TouchedAfter(touches, x) + {k}
  {
    assert (touches + [k])[..|touches|] == touches;
  }

  lemma {:induction false} WithoutKeepsOrder(order: seq<Key>, touches: seq<Key>, k: Key)
    requires InTouchOrder(order, touches)
    ensures InTouchOrder(Without(order, k), touches)
  {
    if order != [] {
      assert InTouchOrder(order[1..], touches);
      WithoutKeepsOrder(order[1..], touches, k);
      var w := Without(order[1..], k);
      forall j | 0 <= j < |w| ensures w[j] in TouchedAfter(touches, order[0]) {
        WithoutMember(order[1..], k, w[j]);
        var i: nat :| i < |order[1..]| && order[1..][i] == w[j];
        assert order[i + 1] == w[j];
      }
    }
  }

  /** Touching an absent key puts it last. */
  lemma {:induction false} TouchAppends(order: seq<Key>, touches: seq<Key>, k: Key)
    requires InTouchOrder(order, touches) && k !in order
    ensures InTouchOrder(order + [k], touches + [k])
  {
    var o := order + [k];
    forall i, j | 0 <= i < j < |o| ensures o[j] in TouchedAfter(touches + [k], o[i]) {
      TouchSnoc(touches, k, o[i]);
    }
  }

  /** The keys of a file in the order of the touches it was saved with. */
  predicate FileInTouchOrder(file: seq<(Key, Entry)>, touches: seq<Key>) {
    forall i, j :: 0 <= i < j < |file| ==> file[j].0 in TouchedAfter(touches, file[i].0)
  }

  /** What is loaded keeps the order of the file. */
  lemma {:induction false} LoadedInOrder(file: seq<(Key, Entry)>, now: int, touches: seq<Key>)
    requires DistinctKeys(file)
    requires FileInTouchOrder(file, touches)
    ensures InTouchOrder(Loaded(file, now).order, touches)
  {
    if file != [] {
      var n, k, e := |file| - 1, file[|file| - 1].0, file[|file| - 1].1;
      LoadedInOrder(file[..n], now, touches);
      LoadedHas(file[..n], now);
      var before := Loaded(file[..n], now);
      forall i | 0 <= i < |before.order| ensures k in TouchedAfter(touches, before.order[i]) && before.order[i] != k {
        assert before.order[i] in before.data;
        var j: nat :| FreshAt(file[..n], j, before.order[i], now);
        assert file[j].0 == before.order[i];
      }
    }
  }

  lemma {:induction false} OrderIsLastTouch(ops: seq<Op>)
    ensures InTouchOrder(Run(ops).cache.order, Touches(ops))
    ensures FileInTouchOrder(Run(ops).disk, SavedTouches(ops))
  {
    if ops != [] {
      var init, op := ops[..|ops| - 1], ops[|ops| - 1];
      OrderIsLastTouch(init);
      RunAgreesWithWrites(init);
      if op.Restart? {
        LoadedInOrder(Run(init).disk, op.now, SavedTouches(init));
      } else if !op.Clear? {
        StepKeepsOrder(Run(init), Touches(init), op);
      }
    }
  }

  lemma {:induction false} StepKeepsOrder(s: Store, touches: seq<Key>, op: Op)
    requires WellFormed(s.cache) && InTouchOrder(s.cache.order, touches) && |s.cache.order| <= MAX_CACHE_SIZE
    requires !op.Clear? && !op.Restart?
    ensures InTouchOrder(Apply(s, op).cache.order, touches + Touched(s.cache, op))
  {
    var c := s.cache;
    assert touches + [] == touches;
    match op
    case Get(k, now) =>
      WithoutKeepsOrder(c.order, touches, k);
      WithoutMember(c.order, k, k);
      TouchAppends(Without(c.order, k), touches, k);
    case Put(k, _, _, _) =>
      EvictWellFormed(c);
      assert InTouchOrder(Evict(c).order, touches);
      if k !in Evict(c).data {
        TouchAppends(Evict(c).order, touches, k);
      }
    case FuzzyHit(_, _) =>
  }

  /**
   A write evicts a key only from a full cache, and only when 999 other keys, all of them
   present, were touched after it. No other operation but a lookup of the key itself, a clear or a restart
   loses it.
   */
  lemma {:induction false} EvictedKeyIsOldest(ops: seq<Op>, op: Op, k: Key)
    requires k in Run(ops).cache.data && k !in Apply(Run(ops), op).cache.data
    requires !(op.Get? && op.key == k) && !op.Clear? && !op.Restart?
    ensures op.Put? && op.key != k && |Run(ops).cache.order| == 1000 && Run(ops).cache.order[0] == k
    ensures forall x :: x in Run(ops).cache.data && x != k ==> x in TouchedAfter(Touches(ops), k)
    ensures |TouchedAfter(Touches(ops), k)| >= 999
  {
    RunAgreesWithWrites(ops);
    OrderIsLastTouch(ops);
    var order := Run(ops).cache.order;
    assert order[0] == k;
    forall x | x in Run(ops).cache.data && x != k ensures x in TouchedAfter(Touches(ops), k) {
      var j: nat :| j < |order| && order[j] == x;
    }
    assert Distinct(order[1..]);
    DistinctCount(order[1..], TouchedAfter(Touches(ops), k));
  }

  /** The eviction comes before the key is looked for: replacing a key in a full cache drops another one. */
  lemma {:induction false} OverwriteEvictsToo(c: Cache, k: Key, result: Result, keyData: Option<KeyData>, now: int)
    requires WellFormed(c) && |c.order| == MAX_CACHE_SIZE && k in c.data
    ensures |DoPut(c, k, result, keyData, now).order| == MAX_CACHE_SIZE - (if k == c.order[0] then 0 else 1)
    ensures c.order[0] in DoPut(c, k, result, keyData, now).data <==> k == c.order[0]
  {
    EvictWellFormed(c);
    assert c.order == [c.order[0]] + c.order[1..];
  }

  /** Exactly: replacing a key loses no other if and only if the cache is not full or the key is its oldest. */
  lemma {:induction false} OverwriteKeepsExactly(c: Cache, k: Key, result: Result, keyData: Option<KeyData>, now: int)
    requires WellFormed(c) && |c.order| <= MAX_CACHE_SIZE && k in c.data
    ensures (forall x :: x in c.data ==> x in DoPut(c, k, result, keyData, now).data)
            <==> |c.order| < MAX_CACHE_SIZE || c.order[0] == k
  {
    if |c.order| == MAX_CACHE_SIZE {
      assert c.order[0] in c.order;
      OverwriteEvictsToo(c, k, result, keyData, now);
    }
  }

  lemma {:induction false} AfterGrows(touches: seq<Key>, more: seq<Key>, k: Key)
    requires |more| <= 1 && k !in more
    ensures TouchedAfter(touches, k) <= TouchedAfter(touches + more, k)
    ensures |TouchedAfter(touches, k)| <= |TouchedAfter(touches + more, k)|
  {
    if more == [] {
      assert touches + more == touches;
    } else {
      TouchSnoc(touches, more[0], k);
      assert touches + more == touches + [more[0]];
    }
    assert TouchedAfter(touches + more, k)
        == TouchedAfter(touches, k) + (TouchedAfter(touches + more, k) - TouchedAfter(touches, k));
  }

  predicate OnDisk(s: Store, k: Key) { exists i :: 0 <= i < |s.disk| && s.disk[i].0 == k }

  /** Why a written key can be missing: it was dropped as too old, or enough others were touched since. */
  lemma {:induction false} MissingIsExplained(ops: seq<Op>, k: Key)
    requires LastPut(ops, k).Some? && k !in Run(ops).cache.data
    ensures k in DroppedStale(ops) || |TouchedAfter(Touches(ops), k)| >= MAX_CACHE_SIZE - 1
    decreases |ops|, 0
  {
    var init, op := ops[..|ops| - 1], ops[|ops| - 1];
    if op.Restart? {
      RunAgreesWithWrites(init);
      LoadedHas(Run(init).disk, op.now);
      if OnDisk(Run(init), k) {
        var i: nat :| i < |Run(init).disk| && Run(init).disk[i].0 == k;
        assert FreshAt(Run(init).disk, i, k, op.now) || Stale(Run(init).disk[i].1, op.now);
      } else {
        NotSavedIsExplained(init, k);
      }
    } else if k in Run(init).cache.data {
      if !op.Get? || op.key != k {
        EvictedKeyIsOldest(init, op, k);
        AfterGrows(Touches(init), Touched(Run(init).cache, op), k);
      }
    } else if !op.Put? || op.key != k {
      MissingIsExplained(init, k);
      AfterGrows(Touches(init), Touched(Run(init).cache, op), k);
    }
  }

  lemma {:induction false} NotSavedIsExplained(ops: seq<Op>, k: Key)
    requires LastPut(ops, k).Some? && !OnDisk(Run(ops), k)
    ensures k in DroppedStale(ops) || |TouchedAfter(SavedTouches(ops), k)| >= MAX_CACHE_SIZE - 1
    decreases |ops|, 1
  {
    var init, op := ops[..|ops| - 1], ops[|ops| - 1];
    if op.Put? {
      RunAgreesWithWrites(ops);
      SavedKeys(Run(ops).cache);
      MissingIsExplained(ops, k);
    } else {
      NotSavedIsExplained(init, k);
    }
  }

  lemma SavedDistinct(c: Cache)
    requires WellFormed(c)
    ensures DistinctKeys(Saved(c)) && |Saved(c)| == |c.order|
    ensures forall i :: 0 <= i < |c.order| ==> c.order[i] in c.data
  {
    forall i | 0 <= i < |c.order| ensures c.order[i] in c.data {
      assert c.order[i] in c.order;
    }
  }

  lemma SavedKeys(c: Cache)
    requires WellFormed(c)
    ensures forall k :: k in c.data ==> exists i :: 0 <= i < |Saved(c)| && Saved(c)[i].0 == k
  {
    forall k | k in c.data ensures exists i :: 0 <= i < |Saved(c)| && Saved(c)[i].0 == k {
      var i :| 0 <= i < |c.order| && c.order[i] == k;
      assert Saved(c)[i].0 == k;
    }
  }

  /** The clock never goes back during the run, and it has not passed `now`. */
  predicate InTime(ops: seq<Op>, now: int) {
    && (forall i :: 0 <= i < |ops| ==> ops[i].now <= now)
    && (forall i, j :: 0 <= i < j < |ops| ==> ops[i].now <= ops[j].now)
  }

  lemma {:induction false} DroppedWasOld(ops: seq<Op>, k: Key, now: int)
    requires InTime(ops, now) && k in DroppedStale(ops)
    ensures LastPut(ops, k).Some? && now - LastPut(ops, k).value.1 > CACHE_TTL_SECONDS
  {
    var init, op := ops[..|ops| - 1], ops[|ops| - 1];
    assert InTime(init, now);
    if k in DroppedStale(init) {
      DroppedWasOld(init, k, now);
    } else {
      RunAgreesWithWrites(init);
    }
  }

  /**
   The promise of the cache, over every history with clears and restarts: a key written at most a time to live
   ago, since whose last touch in force fewer than 999 other keys were touched, is found, with
   the value written last.
   */
  lemma {:induction false} RecentWritesAreFound(ops: seq<Op>, k: Key, now: int)
    requires InTime(ops, now) && LastPut(ops, k).Some?
    requires now - LastPut(ops, k).value.1 <= 86400
    requires |TouchedAfter(Touches(ops), k)| < 999
    ensures Answer(Run(ops).cache, k, now) == Some(LastPut(ops, k).value.0)
  {
    if k !in Run(ops).cache.data {
      MissingIsExplained(ops, k);
      DroppedWasOld(ops, k, now);
    }
    RunAgreesWithWrites(ops);
  }

  // ---- Restarts ----

  function LiveKeys(c: Cache, order: seq<Key>, now: int): seq<Key>
    requires forall i :: 0 <= i < |order| ==> order[i] in c.data
  {
    if order == [] then []
    else LiveKeys(c, order[..|order| - 1], now) +
         if Stale(c.data[order[|order| - 1]], now) then [] else [order[|order| - 1]]
  }

  lemma {:induction false} LoadedPrefix(c: Cache, now: int, n: nat)
    requires WellFormed(c) && n <= |c.order|
    ensures Loaded(Saved(c)[..n], now).order == LiveKeys(c, c.order[..n], now)
    ensures forall k :: k in Loaded(Saved(c)[..n], now).data <==> k in c.order[..n] && !Stale(c.data[k], now)
    ensures forall k :: k in Loaded(Saved(c)[..n], now).data ==> Loaded(Saved(c)[..n], now).data[k] == c.data[k]
  {
    if n > 0 {
      LoadedPrefix(c, now, n - 1);
      assert Saved(c)[..n][..n - 1] == Saved(c)[..n - 1];
      assert c.order[..n][..n - 1] == c.order[..n - 1];
      assert c.order[..n] == c.order[..n - 1] + [c.order[n - 1]];
      assert c.order[n - 1] !in c.order[..n - 1];
    }
  }

  /** Saving and loading into an empty cache keeps exactly the entries that are not stale, in their order. */
  lemma {:induction false} SaveLoad(c: Cache, now: int)
    requires WellFormed(c)
    ensures Loaded(Saved(c), now).order == LiveKeys(c, c.order, now)
    ensures forall k :: k in Loaded(Saved(c), now).data <==> k in c.data && !Stale(c.data[k], now)
    ensures forall k :: k in Loaded(Saved(c), now).data ==> Loaded(Saved(c), now).data[k] == c.data[k]
  {
    LoadedPrefix(c, now, |c.order|);
    assert Saved(c)[..|c.order|] == Saved(c) && c.order[..|c.order|] == c.order;
  }

  /** Every key of the cache is on disk, and what is only on disk was dropped as too old. */
  lemma {:induction false} DiskHasMore(ops: seq<Op>, k: Key)
    ensures k in Run(ops).cache.data ==> OnDisk(Run(ops), k)
    ensures OnDisk(Run(ops), k) && k !in Run(ops).cache.data ==> k in DroppedStale(ops)
  {
    if ops != [] {
      var init, op := ops[..|ops| - 1], ops[|ops| - 1];
      DiskHasMore(init, k);
      RunAgreesWithWrites(init);
      RunAgreesWithWrites(ops);
      match op
      case Get(key, now) =>
      case Put(_, _, _, _) => SavedKeys(Run(ops).cache);
      case FuzzyHit(_, _) =>
      case Clear(_) =>
      case Restart(now) =>
        LoadedHas(Run(init).disk, now);
        if OnDisk(Run(init), k) && k !in Run(ops).cache.data {
          var i: nat :| i < |Run(init).disk| && Run(init).disk[i].0 == k;
          assert FreshAt(Run(init).disk, i, k, now) || Stale(Run(init).disk[i].1, now);
        }
    }
  }

  /** The next lookup of any key answers as if there had been no restart. */
  lemma {:induction false} RestartIsInvisible(ops: seq<Op>, now: int, k: Key, later: int)
    requires InTime(ops, now) && now <= later
    ensures Answer(Run(ops + [Restart(now)]).cache, k, later) == Answer(Run(ops).cache, k, later)
  {
    var all := ops + [Restart(now)];
    assert all[..|all| - 1] == ops && all[|all| - 1] == Restart(now);
    assert LastPut(all, k) == LastPut(ops, k);
    RunAgreesWithWrites(ops);
    RunAgreesWithWrites(all);
    DiskHasMore(ops, k);
    LoadedHas(Run(ops).disk, now);
    if OnDisk(Run(ops), k) {
      var i: nat :| i < |Run(ops).disk| && Run(ops).disk[i].0 == k;
      assert FreshAt(Run(ops).disk, i, k, now) || Stale(Run(ops).disk[i].1, now);
      if k !in Run(ops).cache.data {
        assert InTime(ops, later);
        DroppedWasOld(ops, k, later);
      }
    }
  }

  /**
   Not so for later ones: a restart drops stale entries, so the next write may evict nothing where it would
   have evicted a live key.
   */
  lemma {:induction false} RestartMakesRoom(c: Cache, a: Key, expired: Key, k: Key, result: Result,
                                            keyData: Option<KeyData>,
                                            now: int)
    requires WellFormed(c) && |c.order| == MAX_CACHE_SIZE && c.order[0] == a && k !in c.data
    requires expired in c.data && Stale(c.data[expired], now) && !Stale(c.data[a], now)
    ensures Answer(DoPut(c, k, result, keyData, now), a, now).None?
    ensures Answer(DoPut(Loaded(Saved(c), now), k, result, keyData, now), a, now) == Some(c.data[a].result)
  {
    var l := Loaded(Saved(c), now);
    SaveLoad(c, now);
    assert a in c.order;
    LiveFewer(c, c.order, now, expired);
  }

  lemma {:induction false} LiveFewer(c: Cache, order: seq<Key>, now: int, expired: Key)
    requires forall i :: 0 <= i < |order| ==> order[i] in c.data
    requires expired in c.data && Stale(c.data[expired], now)
    ensures |LiveKeys(c, order, now)| <= |order| - if expired in order then 1 else 0
  {
    if order != [] {
      LiveFewer(c, order[..|order| - 1], now, expired);
      assert order == order[..|order| - 1] + [order[|order| - 1]];
    }
  }

  // ---- The cache object ----

  class CacheStore {
    var order: seq<Key>
    var data: map<Key, Entry>
    var disk: seq<(Key, Entry)>

    ghost function View(): Store
      reads this
    {
      Store(Cache(order, data), disk)
    }

    ghost predicate Valid()
      reads this
    {
      WellFormed(View().cache) && |order| <= MAX_CACHE_SIZE && DistinctKeys(disk) && |disk| <= MAX_CACHE_SIZE
    }

    constructor ()
      ensures View() == Store(EMPTY, []) && Valid()
    {
      order, data, disk := [], map[], [];
    }

    method GetCachedResult(k: Key, now: int) returns (r: Option<Result>)
      requires Valid()
      modifies this
      ensures Valid() && View() == Apply(old(View()), Get(k, now))
      ensures r == Answer(old(View()).cache, k, now)
    {
      ApplyWellFormed(View(), Get(k, now));
      r := TouchOrDrop(k, now);
    }

    /** A live entry goes last, a stale one out. */
    method TouchOrDrop(k: Key, now: int) returns (r: Option<Result>)
      modifies this`order, this`data
      ensures View().cache == DoGet(old(View()).cache, k, now) && r == Answer(old(View()).cache, k, now)
    {
      if k !in data {
        return None;
      }
      var entry := data[k];
      order := Without(order, k);
      if now - entry.timestamp > CACHE_TTL_SECONDS {
        data := data - {k};
        return None;
      }
      order := order + [k];
      data := data[k := entry.(hits := entry.hits + 1)];
      return Some(entry.result);
    }

    method CacheResult(k: Key, result: Result, keyData: Option<KeyData>, now: int)
      requires Valid()
      modifies this
      ensures Valid() && View() == Apply(old(View()), Put(k, result, keyData, now))
    {
      ApplyWellFormed(View(), Put(k, result, keyData, now));
      InsertResult(k, result, keyData, now);
      SavedDistinct(Cache(order, data));
      SaveCacheToDisk();
    }

    method InsertResult(k: Key, result: Result, keyData: Option<KeyData>, now: int)
      requires Valid()
      modifies this`order, this`data
      ensures View().cache == DoPut(old(View()).cache, k, result, keyData, now)
    {
      if |order| >= MAX_CACHE_SIZE {
        data := data - {order[0]};
        order := order[1..];
      }
      if k !in data {
        order := order + [k];
      }
      data := data[k := Entry(result, now, 0, keyData)];
    }

    /** The scan over all entries, which replaces the best one only by a strictly nearer one. */
    method FindNearest(req: KeyData, now: int) returns (best: Option<nat>)
      requires Valid()
      ensures best.None? ==> forall i: nat :: !EligibleAt(View().cache, i, req, now)
      ensures best.Some? ==> NearestAt(View().cache, |order|, req, now, best.value)
    {
      best := None;
      for i := 0 to |order|
        invariant best.None? ==> forall j: nat :: j < i ==> !EligibleAt(View().cache, j, req, now)
        invariant best.Some? ==> NearestAt(View().cache, i, req, now, best.value)
      {
        var entry := data[order[i]];
        if Eligible(entry, req, now) {
          if best.None? || EntryDist(entry, req) < EntryDist(data[order[best.value]], req) {
            best := Some(i);
          }
        }
      }
    }

    /** The nearest eligible entry, the earliest among equals, if it lies within the radius; else nothing. */
    method FuzzyCacheLookup(req: KeyData, epsilonSq: int, now: int) returns (r: Option<(Result, int)>, ghost b: nat)
      requires Valid()
      modifies this
      ensures Valid() && order == old(order)
      ensures FuzzyAnswers(old(View()).cache, req, epsilonSq, now, r)
      ensures r.None? ==> View() == old(View())
      ensures r.None? ==> forall i: nat :: EligibleAt(old(View()).cache, i, req, now) ==>
                                             DistAt(old(View()).cache, i, req, now) > epsilonSq
      ensures r.Some? ==> NearestAt(old(View()).cache, |order|, req, now, b) && b < |order| && order[b] in old(data)
      ensures r.Some? ==> r.value == (old(data)[order[b]].result, DistAt(old(View()).cache, b, req, now))
                          && r.value.1 <= epsilonSq
      ensures r.Some? ==> View() == Apply(old(View()), FuzzyHit(order[b], now))
    {
      var best := FindNearest(req, now);
      r, b := None, 0;
      if best.Some? {
        b := best.value;
        var k := order[best.value];
        assert EligibleAt(View().cache, b, req, now);
        var dist := EntryDist(data[k], req);
        if dist <= epsilonSq {
          r := Some((data[k].result, dist));
          assert AnswersWith(View().cache, b, req, now, data[k].result, dist);
          data := data[k := data[k].(hits := data[k].hits + 1)];
        }
      }
    }

    /** The file is written anew, entry by entry. */
    method SaveCacheToDisk()
      requires forall i :: 0 <= i < |order| ==> order[i] in data
      modifies this`disk
      ensures disk == Saved(Cache(order, data))
    {
      var file: seq<(Key, Entry)> := [];
      for i := 0 to |order|
        invariant file == Saved(Cache(order, data))[..i]
      {
        file := file + [(order[i], data[order[i]])];
      }
      disk := file;
    }

    /** The entries of the file that are young enough go into the cache. */
    method LoadCacheFromDisk(now: int) returns (loaded: nat)
      modifies this`order, this`data
      ensures View().cache == LoadedInto(old(View()).cache, disk, now) && loaded == FreshEntries(disk, now)
    {
      ghost var before := View().cache;
      loaded := 0;
      for i := 0 to |disk|
        invariant View().cache == LoadedInto(before, disk[..i], now) && loaded == FreshEntries(disk[..i], now)
      {
        var (k, e) := disk[i];
        assert disk[..i + 1][..i] == disk[..i];
        if now - e.timestamp <= CACHE_TTL_SECONDS {
          if k !in data {
            order := order + [k];
          }
          data := data[k := e];
          loaded := loaded + 1;
        }
      }
      assert disk[..|disk|] == disk;
    }

    /** A new process: an empty cache, into which the file is loaded. */
    method Restart(now: int) returns (loaded: nat)
      requires Valid()
      modifies this
      ensures Valid() && View() == Apply(old(View()), Op.Restart(now))
    {
      order, data := [], map[];
      LoadedHas(disk, now);
      loaded := LoadCacheFromDisk(now);
    }

    method ClearCache(now: int)
      modifies this
      ensures Valid() && View() == Apply(old(View()), Clear(now))
    {
      order, data := [], map[];
      disk := [];
    }
  }
}
