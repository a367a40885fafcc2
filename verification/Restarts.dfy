/**
 Exactly when a restart of the result cache can be told from the answers that follow.

 A restart has only the file of the last write. What is missing there are the hits since then, which order the
 cache but not the file; what is dropped are stale entries, which take up room.
 */
module Restarts {
  import opened Options
  import opened Sequences
  import opened ResultCache

  /** A run from any store. */
  function RunOn(s: Store, ops: seq<Op>): Store
    decreases |ops|
  {
    if ops == [] then s else RunOn(Apply(s, ops[0]), ops[1..])
  }

  lemma {:induction false} RunOnConcat(s: Store, a: seq<Op>, b: seq<Op>)
    ensures RunOn(s, a + b) == RunOn(RunOn(s, a), b)
    decreases |a|
  {
    if a == [] {
      assert a + b == b;
    } else {
      assert (a + b)[0] == a[0] && (a + b)[1..] == a[1..] + b;
      RunOnConcat(Apply(s, a[0]), a[1..], b);
    }
  }

  lemma {:induction false} RunMore(ops: seq<Op>, more: seq<Op>)
    ensures Run(ops + more) == RunOn(Run(ops), more)
    decreases |more|
  {
    if more == [] {
      assert ops + more == ops;
    } else {
      var next := ops + [more[0]];
      assert next[..|next| - 1] == ops;
      assert ops + more == next + more[1..];
      RunMore(next, more[1..]);
    }
  }

  /** If the clock goes forward all the way, a lookup after `more` answers the same with and without the restart. */
  ghost predicate SameAnswer(ops: seq<Op>, now: int, more: seq<Op>, k: Key, later: int) {
    InTime(ops + [Restart(now)] + more, later) ==>
      Answer(Run(ops + more).cache, k, later) == Answer(Run(ops + [Restart(now)] + more).cache, k, later)
  }

  // ---- Alike: equal but for the counts of hits ----

  predicate AlikeEntries(e: Entry, f: Entry) { e.(hits := 0) == f.(hits := 0) }

  ghost predicate Alike(c: Cache, d: Cache) {
    c.order == d.order && c.data.Keys == d.data.Keys && forall k :: k in c.data ==> AlikeEntries(c.data[k], d.data[k])
  }

  ghost predicate AlikeFiles(f: seq<(Key, Entry)>, g: seq<(Key, Entry)>) {
    |f| == |g| && forall i :: 0 <= i < |f| ==> f[i].0 == g[i].0 && AlikeEntries(f[i].1, g[i].1)
  }

  ghost predicate AlikeStores(s: Store, t: Store) { Alike(s.cache, t.cache) && AlikeFiles(s.disk, t.disk) }

  lemma {:induction false} AlikeLoaded(f: seq<(Key, Entry)>, g: seq<(Key, Entry)>, now: int)
    requires AlikeFiles(f, g)
    ensures Alike(Loaded(f, now), Loaded(g, now))
  {
    if f != [] {
      AlikeLoaded(f[..|f| - 1], g[..|g| - 1], now);
    }
  }

  lemma {:induction false} AlikeApply(s: Store, t: Store, op: Op)
    requires AlikeStores(s, t)
    ensures AlikeStores(Apply(s, op), Apply(t, op))
  {
    match op
    case Get(k, now) =>
    case Put(k, result, keyData, now) =>
      AlikePut(s.cache, t.cache, k, result, keyData, now);
    case FuzzyHit(k, _) =>
    case Clear(_) =>
    case Restart(now) => AlikeLoaded(s.disk, t.disk, now);
  }

  lemma {:induction false} AlikePut(c: Cache, d: Cache, k: Key, result: Result, keyData: Option<KeyData>, now: int)
    requires Alike(c, d)
    ensures Alike(DoPut(c, k, result, keyData, now), DoPut(d, k, result, keyData, now))
    ensures AlikeFiles(Saved(DoPut(c, k, result, keyData, now)), Saved(DoPut(d, k, result, keyData, now)))
  {
    assert Alike(Evict(c), Evict(d));
  }

  lemma {:induction false} AlikeRun(s: Store, t: Store, more: seq<Op>)
    requires AlikeStores(s, t)
    ensures AlikeStores(RunOn(s, more), RunOn(t, more))
    decreases |more|
  {
    if more != [] {
      AlikeApply(s, t, more[0]);
      AlikeRun(Apply(s, more[0]), Apply(t, more[0]), more[1..]);
    }
  }

  // ---- The cache and its file ----

  /** An entry on disk is the one in the cache, but for its hits. */
  ghost predicate DiskAgrees(s: Store) {
    forall i :: 0 <= i < |s.disk| && s.disk[i].0 in s.cache.data ==>
                  AlikeEntries(s.cache.data[s.disk[i].0], s.disk[i].1)
  }

  lemma {:induction false} RunDiskAgrees(ops: seq<Op>)
    ensures DiskAgrees(Run(ops))
  {
    if ops != [] {
      var init, op := ops[..|ops| - 1], ops[|ops| - 1];
      RunDiskAgrees(init);
      RunAgreesWithWrites(init);
      if op.Restart? {
        LoadedAgrees(Run(init).disk, op.now);
      } else {
        StepDiskAgrees(Run(init), op);
      }
    }
  }

  lemma {:induction false} StepDiskAgrees(s: Store, op: Op)
    requires DiskAgrees(s) && !op.Restart?
    ensures DiskAgrees(Apply(s, op))
  {
    if op.Put? {
      SavedAgrees(DoPut(s.cache, op.key, op.result, op.keyData, op.now));
    }
  }

  lemma SavedAgrees(c: Cache)
    ensures DiskAgrees(Store(c, Saved(c)))
  {
  }

  lemma {:induction false} LoadedAgrees(file: seq<(Key, Entry)>, now: int)
    requires DistinctKeys(file)
    ensures DiskAgrees(Store(Loaded(file, now), file))
  {
    LoadedHas(file, now);
    forall i | 0 <= i < |file| && file[i].0 in Loaded(file, now).data
      ensures Loaded(file, now).data[file[i].0] == file[i].1 {
      var k := file[i].0;
      var j: nat :| FreshAt(file, j, k, now);
      assert i == j;
    }
  }

  /** What is loaded was in the cache: a key dropped as stale is stale still. */
  lemma {:induction false} LoadedWasThere(ops: seq<Op>, now: int, k: Key)
    requires InTime(ops, now) && k in Loaded(Run(ops).disk, now).data
    ensures k in Run(ops).cache.data && AlikeEntries(Run(ops).cache.data[k], Loaded(Run(ops).disk, now).data[k])
  {
    var file := Run(ops).disk;
    RunAgreesWithWrites(ops);
    LoadedHas(file, now);
    var i: nat :| FreshAt(file, i, k, now);
    assert OnDisk(Run(ops), k);
    DiskHasMore(ops, k);
    assert LastPut(ops, file[i].0) == Some(Written(file[i].1));
    if k in DroppedStale(ops) {
      DroppedWasOld(ops, k, now);
    }
    RunDiskAgrees(ops);
  }

  lemma {:induction false} SameOrderAlike(ops: seq<Op>, now: int)
    requires InTime(ops, now) && Run(ops).cache.order == Loaded(Run(ops).disk, now).order
    ensures Alike(Run(ops).cache, Loaded(Run(ops).disk, now))
  {
    var c, l := Run(ops).cache, Loaded(Run(ops).disk, now);
    RunAgreesWithWrites(ops);
    LoadedHas(Run(ops).disk, now);
    forall k ensures k in c.data <==> k in l.data {
      assert k in c.order <==> k in c.data;
      assert k in l.order <==> k in l.data;
    }
    forall k | k in c.data ensures AlikeEntries(c.data[k], l.data[k]) {
      LoadedWasThere(ops, now, k);
    }
  }

  /** If the orders agree, everything that follows is the same but for the counts of hits. */
  lemma {:induction false} AlikeForever(ops: seq<Op>, now: int, more: seq<Op>)
    requires InTime(ops, now) && Run(ops).cache.order == Loaded(Run(ops).disk, now).order
    ensures AlikeStores(Run(ops + more), Run(ops + [Restart(now)] + more))
  {
    var all := ops + [Restart(now)];
    assert all[..|all| - 1] == ops;
    SameOrderAlike(ops, now);
    RunMore(ops, more);
    RunMore(all, more);
    AlikeRun(Run(ops), Run(all), more);
  }

  // ---- Telling two orders apart ----

  /** `x` comes before `y`. */
  predicate Before(s: seq<Key>, x: Key, y: Key) {
    s != [] && ((s[0] == x && y in s[1..]) || Before(s[1..], x, y))
  }

  lemma {:induction false} BeforeWithout(s: seq<Key>, k: Key, x: Key, y: Key)
    requires Before(s, x, y) && x != k && y != k
    ensures Before(Without(s, k), x, y)
  {
    var w := Without(s[1..], k);
    if s[0] == x && y in s[1..] {
      WithoutMember(s[1..], k, y);
      assert ([x] + w)[1..] == w;
    } else {
      BeforeWithout(s[1..], k, x, y);
      assert ([s[0]] + w)[1..] == w;
    }
  }

  lemma TailHas(s: seq<Key>, k: Key)
    requires Distinct(s) && s != []
    ensures k in s[1..] <==> k in s && k != s[0]
  {
    assert s == [s[0]] + s[1..] && s[0] !in s[1..];
  }

  /** Two different orders of the same keys disagree about two of them. */
  lemma {:induction false} TwoSwapped(a: seq<Key>, b: seq<Key>) returns (x: Key, y: Key)
    requires Distinct(a) && Distinct(b) && a != b && forall k :: k in a <==> k in b
    ensures x != y && Before(a, x, y) && Before(b, y, x)
  {
    assert (a != [] ==> a[0] in a) && (b != [] ==> b[0] in b);
    TailHas(a, b[0]);
    TailHas(b, a[0]);
    if a[0] == b[0] {
      assert a == [a[0]] + a[1..] && b == [b[0]] + b[1..];
      forall k ensures k in a[1..] <==> k in b[1..] {
        TailHas(a, k);
        TailHas(b, k);
      }
      x, y := TwoSwapped(a[1..], b[1..]);
    } else {
      x, y := a[0], b[0];
    }
  }

  function WithoutAll(s: seq<Key>, ks: seq<Key>): seq<Key>
    decreases |ks|
  {
    if ks == [] then s else WithoutAll(Without(s, ks[0]), ks[1..])
  }

  lemma {:induction false} WithoutAllHas(s: seq<Key>, ks: seq<Key>, x: Key)
    requires Distinct(s)
    ensures Distinct(WithoutAll(s, ks)) && (x in WithoutAll(s, ks) <==> x in s && x !in ks)
    decreases |ks|
  {
    if ks != [] {
      WithoutDistinct(s, ks[0]);
      WithoutMember(s, ks[0], x);
      WithoutAllHas(Without(s, ks[0]), ks[1..], x);
      assert ks == [ks[0]] + ks[1..];
    }
  }

  lemma {:induction false} BeforeWithoutAll(s: seq<Key>, ks: seq<Key>, x: Key, y: Key)
    requires Before(s, x, y) && x !in ks && y !in ks
    ensures Before(WithoutAll(s, ks), x, y)
    decreases |ks|
  {
    if ks != [] {
      assert ks == [ks[0]] + ks[1..];
      BeforeWithout(s, ks[0], x, y);
      BeforeWithoutAll(Without(s, ks[0]), ks[1..], x, y);
    }
  }

  lemma {:induction false} BeforeMembers(s: seq<Key>, x: Key, y: Key)
    requires Before(s, x, y)
    ensures x in s && y in s
  {
    assert s == [s[0]] + s[1..];
    if !(s[0] == x && y in s[1..]) {
      BeforeMembers(s[1..], x, y);
    }
  }

  lemma LaterNotFirst(s: seq<Key>, x: Key, y: Key)
    requires Distinct(s) && Before(s, x, y)
    ensures s[0] != y
  {
    TailHas(s, y);
    if !(s[0] == x && y in s[1..]) {
      BeforeMembers(s[1..], x, y);
    }
  }

  /** All keys but two are dropped. */
  lemma {:induction false} OnlyTwo(s: seq<Key>, x: Key, y: Key)
    requires Distinct(s) && Before(s, x, y) && forall k :: k in s ==> k == x || k == y
    ensures s == [x, y]
  {
    BeforeMembers(s, x, y);
    LaterNotFirst(s, x, y);
    assert s[0] in s && s == [s[0]] + s[1..];
    forall k ensures k in s[1..] <==> k == y {
      TailHas(s, k);
    }
    OnlyOne(s[1..], y);
  }

  lemma OnlyOne(s: seq<Key>, x: Key)
    requires Distinct(s) && x in s && forall k :: k in s ==> k == x
    ensures s == [x]
  {
    var t := s[1..];
    assert s[0] in s && s == [s[0]] + t && (t == [] || t[0] in t);
    forall k ensures k !in t {
      TailHas(s, k);
    }
  }

  // ---- Lookups that drop stale keys ----

  function Lookups(ks: seq<Key>, t: int): seq<Op> {
    seq(|ks|, i requires 0 <= i < |ks| => Get(ks[i], t))
  }

  ghost predicate AllStale(c: Cache, t: int) { forall k :: k in c.data ==> Stale(c.data[k], t) }

  lemma {:induction false} WithoutAbsent(s: seq<Key>, k: Key)
    requires k !in s
    ensures Without(s, k) == s
  {
    if s != [] {
      assert s == [s[0]] + s[1..];
      WithoutAbsent(s[1..], k);
    }
  }

  lemma {:induction false} LookupsDrop(s: Store, ks: seq<Key>, t: int)
    requires ResultCache.WellFormed(s.cache) && AllStale(s.cache, t)
    ensures var c := RunOn(s, Lookups(ks, t)).cache;
            ResultCache.WellFormed(c) && c.order == WithoutAll(s.cache.order, ks)
    decreases |ks|
  {
    if ks != [] {
      var s1 := Apply(s, Get(ks[0], t));
      assert Lookups(ks, t)[0] == Get(ks[0], t) && Lookups(ks, t)[1..] == Lookups(ks[1..], t);
      DropWellFormed(s.cache, ks[0]);
      if ks[0] !in s.cache.data {
        WithoutAbsent(s.cache.order, ks[0]);
      }
      LookupsDrop(s1, ks[1..], t);
    }
  }

  // ---- Writes ----

  function Write(k: Key, t: int): Op { Put(k, "", None, t) }

  /** Two writes make the keys fresh. Where both are there already they stay in their order. */
  lemma {:induction false} WriteTwo(s: Store, x: Key, y: Key, t: int)
    requires ResultCache.WellFormed(s.cache) && x != y
    requires s.cache.order == [x, y] || s.cache.order == [x] || s.cache.order == [y, x] || s.cache.order == []
    ensures var c := RunOn(s, [Write(y, t), Write(x, t)]).cache;
            && ResultCache.WellFormed(c) && x in c.data && c.data[x].timestamp == t
            && c.order == if s.cache.order == [x, y] || s.cache.order == [x] then [x, y] else [y, x]
  {
    var s1 := Apply(s, Write(y, t));
    var s2 := Apply(s1, Write(x, t));
    assert [Write(y, t), Write(x, t)][1..] == [Write(x, t)] && [Write(x, t)][1..] == [];
    assert RunOn(s1, [Write(x, t)]) == RunOn(s2, []);
    assert y in s.cache.data <==> y in s.cache.order;
    assert x in s1.cache.data <==> x in s.cache.order;
    ApplyWellFormed(s, Write(y, t));
    ApplyWellFormed(s1, Write(x, t));
  }

  /** A key of the given length. */
  function LongKey(n: nat): Key { seq(n, i requires 0 <= i < n => 'x') }

  /** Writes of `n` keys, each longer than the one before. */
  function Fill(length: nat, n: nat, t: int): seq<Op>
    decreases n
  {
    if n == 0 then [] else [Write(LongKey(length), t)] + Fill(length + 1, n - 1, t)
  }

  predicate Shorter(order: seq<Key>, length: nat) { forall k :: k in order ==> |k| < length }

  /** Two keys are the oldest, and all are short. */
  ghost predicate OldestTwo(c: Cache, x: Key, y: Key, length: nat) {
    && ResultCache.WellFormed(c) && 2 <= |c.order| <= MAX_CACHE_SIZE && c.order[0] == x && c.order[1] == y
    && y in c.data && Shorter(c.order, length)
  }

  /** A write of a new key. A full cache drops its oldest key for it. */
  lemma {:induction false} NewKey(c: Cache, x: Key, y: Key, length: nat, t: int)
    requires OldestTwo(c, x, y, length)
    ensures var d := DoPut(c, LongKey(length), "", None, t);
            && y in d.data && d.data[y] == c.data[y]
            && (|c.order| < MAX_CACHE_SIZE ==> OldestTwo(d, x, y, length + 1) && |d.order| == |c.order| + 1)
            && (|c.order| == MAX_CACHE_SIZE ==> x !in d.data)
  {
    EvictWellFormed(c);
    assert |LongKey(length)| == length;
    assert x in c.order && y in c.order && x != y;
  }

  function Filled(c: Cache, length: nat, n: nat, t: int): Cache
    decreases n
  {
    if n == 0 then c else Filled(DoPut(c, LongKey(length), "", None, t), length + 1, n - 1, t)
  }

  /** Just enough new keys to evict the oldest one, and not the next. */
  lemma {:induction false} FillEvicts(c: Cache, x: Key, y: Key, length: nat, n: nat, t: int)
    requires OldestTwo(c, x, y, length) && n >= 1 && |c.order| + n == MAX_CACHE_SIZE + 1
    ensures Evicted(Filled(c, length, n, t), x, y, c.data[y])
    decreases n
  {
    NewKey(c, x, y, length, t);
    if n > 1 {
      FillEvicts(DoPut(c, LongKey(length), "", None, t), x, y, length + 1, n - 1, t);
    } else {
      assert Filled(c, length, n, t) == DoPut(c, LongKey(length), "", None, t);
    }
  }

  predicate Evicted(c: Cache, x: Key, y: Key, e: Entry) { x !in c.data && y in c.data && c.data[y] == e }

  lemma {:induction false} FillRun(s: Store, length: nat, n: nat, t: int)
    ensures RunOn(s, Fill(length, n, t)).cache == Filled(s.cache, length, n, t)
    decreases n
  {
    if n > 0 {
      var k := LongKey(length);
      assert ([Write(k, t)] + Fill(length + 1, n - 1, t))[1..] == Fill(length + 1, n - 1, t);
      FillRun(Apply(s, Write(k, t)), length + 1, n - 1, t);
    }
  }

  // ---- A continuation that tells them apart ----

  /** Drop the given keys, write two others, and fill the cache until one of these is evicted. */
  function Telling(ks: seq<Key>, x: Key, y: Key, t: int): seq<Op> {
    Lookups(ks, t) + [Write(y, t), Write(x, t)] + Fill(|x| + |y| + 1, MAX_CACHE_SIZE - 1, t)
  }

  predicate AllAt(ops: seq<Op>, t: int) { forall i :: 0 <= i < |ops| ==> ops[i].now == t }

  lemma {:induction false} FillAt(length: nat, n: nat, t: int)
    ensures AllAt(Fill(length, n, t), t)
    decreases n
  {
    if n > 0 {
      FillAt(length + 1, n - 1, t);
    }
  }

  lemma {:induction false} TellingInTime(ops: seq<Op>, now: int, ks: seq<Key>, x: Key, y: Key, t: int)
    requires InTime(ops, now) && now <= t
    ensures InTime(ops + [Restart(now)] + Telling(ks, x, y, t), t)
  {
    FillAt(|x| + |y| + 1, MAX_CACHE_SIZE - 1, t);
    assert AllAt(Lookups(ks, t) + [Write(y, t), Write(x, t)], t);
    assert AllAt(Telling(ks, x, y, t), t);
  }

  lemma {:induction false} TellingParts(s: Store, ks: seq<Key>, x: Key, y: Key, t: int)
    ensures RunOn(s, Telling(ks, x, y, t)).cache
         == Filled(RunOn(RunOn(s, Lookups(ks, t)), [Write(y, t), Write(x, t)]).cache,
                   |x| + |y| + 1, MAX_CACHE_SIZE - 1, t)
  {
    var writes, length := [Write(y, t), Write(x, t)], |x| + |y| + 1;
    RunOnConcat(s, Lookups(ks, t), writes);
    RunOnConcat(s, Lookups(ks, t) + writes, Fill(length, MAX_CACHE_SIZE - 1, t));
    FillRun(RunOn(s, Lookups(ks, t) + writes), length, MAX_CACHE_SIZE - 1, t);
  }

  lemma {:induction false} OlderGoes(c: Cache, x: Key, y: Key, t: int)
    requires ResultCache.WellFormed(c) && x != y && (c.order == [x, y] || c.order == [y, x])
    requires x in c.data && c.data[x].timestamp == t
    ensures Answer(Filled(c, |x| + |y| + 1, MAX_CACHE_SIZE - 1, t), x, t).None? <==> c.order == [x, y]
  {
    assert y in c.order && x in c.order;
    if c.order == [x, y] {
      FillEvicts(c, x, y, |x| + |y| + 1, MAX_CACHE_SIZE - 1, t);
    } else {
      FillEvicts(c, y, x, |x| + |y| + 1, MAX_CACHE_SIZE - 1, t);
    }
  }

  /** `x` is evicted where it is the older of the two, and found where it is not. */
  lemma {:induction false} Told(s: Store, ks: seq<Key>, x: Key, y: Key, t: int)
    requires ResultCache.WellFormed(s.cache) && AllStale(s.cache, t) && x != y
    requires var left := WithoutAll(s.cache.order, ks); left == [x, y] || left == [x] || left == [y, x] || left == []
    ensures var left := WithoutAll(s.cache.order, ks);
            Answer(RunOn(s, Telling(ks, x, y, t)).cache, x, t).None? <==> left == [x, y] || left == [x]
  {
    var s1 := RunOn(s, Lookups(ks, t));
    LookupsDrop(s, ks, t);
    WriteTwo(s1, x, y, t);
    OlderGoes(RunOn(s1, [Write(y, t), Write(x, t)]).cache, x, y, t);
    TellingParts(s, ks, x, y, t);
  }

  lemma {:induction false} WriteIsOld(ops: seq<Op>, now: int, k: Key)
    requires InTime(ops, now) && LastPut(ops, k).Some?
    ensures LastPut(ops, k).value.1 <= now
  {
    if !(ops[|ops| - 1].Put? && ops[|ops| - 1].key == k) {
      assert InTime(ops[..|ops| - 1], now);
      WriteIsOld(ops[..|ops| - 1], now, k);
    }
  }

  /** A time to live later every entry is stale. */
  lemma {:induction false} AllOld(ops: seq<Op>, now: int)
    requires InTime(ops, now)
    ensures AllStale(Run(ops).cache, now + CACHE_TTL_SECONDS + 1)
  {
    RunAgreesWithWrites(ops);
    forall k | k in Run(ops).cache.data ensures Stale(Run(ops).cache.data[k], now + CACHE_TTL_SECONDS + 1) {
      WriteIsOld(ops, now, k);
    }
  }

  /** Dropping all other keys leaves two in different orders, or one on one side only. */
  lemma {:induction false} Difference(a: seq<Key>, b: seq<Key>) returns (ks: seq<Key>, x: Key, y: Key)
    requires Distinct(a) && Distinct(b) && a != b && forall k :: k in b ==> k in a
    ensures x != y
    ensures (WithoutAll(a, ks) == [x, y] && WithoutAll(b, ks) == [y, x])
            || (WithoutAll(a, ks) == [x] && WithoutAll(b, ks) == [])
  {
    if forall k :: k in a ==> k in b {
      x, y := TwoSwapped(a, b);
      ks := Without(Without(a, x), y);
      LeftOver(a, a, ks, x, y);
      LeftOver(a, b, ks, x, y);
      BeforeWithoutAll(a, ks, x, y);
      BeforeWithoutAll(b, ks, y, x);
      OnlyTwo(WithoutAll(a, ks), x, y);
      OnlyTwo(WithoutAll(b, ks), y, x);
    } else {
      x :| x in a && x !in b;
      y := LongKey(|x| + 1);
      ks := Without(a, x);
      forall k ensures k in WithoutAll(a, ks) <==> k == x {
        WithoutMember(a, x, k);
        WithoutAllHas(a, ks, k);
      }
      var left := WithoutAll(b, ks);
      assert left == [] || left[0] in left;
      forall k ensures k !in left {
        WithoutMember(a, x, k);
        WithoutAllHas(b, ks, k);
      }
      WithoutAllHas(a, ks, x);
      OnlyOne(WithoutAll(a, ks), x);
    }
  }

  lemma {:induction false} LeftOver(a: seq<Key>, s: seq<Key>, ks: seq<Key>, x: Key, y: Key)
    requires Distinct(s) && ks == Without(Without(a, x), y) && forall k :: k in s ==> k in a
    ensures Distinct(WithoutAll(s, ks)) && x !in ks && y !in ks
    ensures forall k :: k in WithoutAll(s, ks) ==> k == x || k == y
  {
    WithoutAllHas(s, ks, x);
    forall k ensures (k in WithoutAll(s, ks) ==> k == x || k == y) && (k in ks ==> k != x && k != y) {
      WithoutAllHas(s, ks, k);
      WithoutMember(a, x, k);
      WithoutMember(Without(a, x), y, k);
    }
  }

  /** If the orders differ, some lookup after the restart answers otherwise than it would have without it. */
  lemma {:induction false} RestartShows(ops: seq<Op>, now: int) returns (more: seq<Op>, k: Key, later: int)
    requires InTime(ops, now) && Run(ops).cache.order != Loaded(Run(ops).disk, now).order
    ensures !SameAnswer(ops, now, more, k, later)
  {
    var all := ops + [Restart(now)];
    assert all[..|all| - 1] == ops;
    later := now + CACHE_TTL_SECONDS + 1;
    RunAgreesWithWrites(ops);
    RunAgreesWithWrites(all);
    AllOld(ops, now);
    AllOld(all, now);
    var a, b := Run(ops).cache.order, Run(all).cache.order;
    forall x | x in b ensures x in a {
      LoadedWasThere(ops, now, x);
    }
    var ks, x, y := Difference(a, b);
    more, k := Telling(ks, x, y, later), x;
    Told(Run(ops), ks, x, y, later);
    Told(Run(all), ks, x, y, later);
    RunMore(ops, more);
    RunMore(all, more);
    TellingInTime(ops, now, ks, x, y, later);
  }

  /**
   Exactly: on every continuation every lookup answers as if there had been no restart, if and only if the cache
   is as the file orders it: nothing stale is held, and the hits since the last write have left the order as it was.
   */
  lemma {:induction false} RestartHarmlessExactly(ops: seq<Op>, now: int)
    requires InTime(ops, now)
    ensures (forall more, k, later :: SameAnswer(ops, now, more, k, later)) <==>
            Run(ops).cache.order == Loaded(Run(ops).disk, now).order
  {
    if Run(ops).cache.order == Loaded(Run(ops).disk, now).order {
      forall more, k, later ensures SameAnswer(ops, now, more, k, later) {
        AlikeForever(ops, now, more);
      }
    } else {
      var more, k, later := RestartShows(ops, now);
    }
  }

  // ---- A hit that is forgotten ----

  /** Two writes and a lookup of the first key, which makes it the newest. */
  function WriteWriteHit(): seq<Op> { [Put("x", "", None, 0), Put("y", "", None, 1), Get("x", 2)] }

  const E_X := Entry("", 0, 0, None)
  const E_Y := Entry("", 1, 0, None)

  /** The cache and the file after the two writes. */
  function BothWritten(): Store {
    Store(Cache(["x", "y"], map["x" := E_X, "y" := E_Y]), [("x", E_X), ("y", E_Y)])
  }

  lemma {:induction false} TwoWritten()
    ensures Run(WriteWriteHit()[..2]) == BothWritten()
  {
    var t := WriteWriteHit();
    assert t[..2][..1] == t[..1] && t[..1][..0] == [] && t[..2][1] == t[1] && t[..1][0] == t[0];
    var c1 := Cache(["x"], map["x" := E_X]);
    assert [] + ["x"] == ["x"] && ["x"] + ["y"] == ["x", "y"];
    assert DoPut(EMPTY, "x", "", None, 0) == c1;
    assert Run(t[..1]).cache == c1;
    assert DoPut(c1, "y", "", None, 1) == BothWritten().cache;
    assert Saved(BothWritten().cache) == BothWritten().disk;
  }

  lemma {:induction false} HitMoves()
    ensures Run(WriteWriteHit()).cache.order == ["y", "x"] && Run(WriteWriteHit()).disk == BothWritten().disk
  {
    var t, c := WriteWriteHit(), BothWritten().cache;
    TwoWritten();
    assert t[..|t| - 1] == t[..2] && t[2] == Get("x", 2);
    assert c.order[1..] == ["y"] && ["y"][1..] == [];
    assert Without(c.order[1..], "x") == ["y"];
    assert ["y"] + ["x"] == ["y", "x"];
  }

  lemma LoadedSnoc(file: seq<(Key, Entry)>, k: Key, e: Entry, now: int)
    ensures Loaded(file + [(k, e)], now) == LoadOne(Loaded(file, now), k, e, now)
  {
    assert (file + [(k, e)])[..|file|] == file;
  }

  lemma {:induction false} FileOrder()
    ensures Loaded(BothWritten().disk, 3).order == ["x", "y"]
  {
    LoadedSnoc([], "x", E_X, 3);
    LoadedSnoc([("x", E_X)], "y", E_Y, 3);
    assert [] + [("x", E_X)] == [("x", E_X)] && [("x", E_X)] + [("y", E_Y)] == BothWritten().disk;
  }

  lemma {:induction false} HitIsForgotten() returns (more: seq<Op>, k: Key, later: int)
    ensures InTime(WriteWriteHit(), 3)
    ensures Run(WriteWriteHit()).cache.order == ["y", "x"] && Loaded(Run(WriteWriteHit()).disk, 3).order == ["x", "y"]
    ensures !SameAnswer(WriteWriteHit(), 3, more, k, later)
  {
    HitMoves();
    FileOrder();
    more, k, later := RestartShows(WriteWriteHit(), 3);
  }
}
