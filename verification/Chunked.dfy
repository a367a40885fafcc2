/**
 Long compositions: the plan of chunks, the velocity fade at their edges, and the stitched timeline of
 `_generate_chunked`. Beats are integers in ten-thousandths; a bar has four of them.
 */
module Chunked {
  import opened Arithmetic
  import opened Sorting
  import opened PostProcessing

  // ---- The plan ----

  function Plan(total: int, chunk: nat): seq<nat>
    requires chunk >= 1
    decreases if total > 0 then total else 0
  {
    if total <= 0 then []
    else
      var c := if chunk < total then chunk else total;
      [c] + Plan(total - c, chunk)
  }

  function Sum(s: seq<nat>): nat {
    if s == [] then 0 else s[0] + Sum(s[1..])
  }

  method PlanChunks(total: int, chunk: nat) returns (sizes: seq<nat>)
    requires chunk >= 1
    ensures sizes == Plan(total, chunk)
  {
    sizes := [];
    var remaining := total;
    while remaining > 0
      invariant sizes + Plan(remaining, chunk) == Plan(total, chunk)
      decreases if remaining > 0 then remaining else 0
    {
      var c := if chunk < remaining then chunk else remaining;
      assert sizes + Plan(remaining, chunk) == (sizes + [c]) + Plan(remaining - c, chunk);
      sizes := sizes + [c];
      remaining := remaining - c;
    }
  }

  /** The plan covers the request with chunks of the full size, but for a shorter last one. */
  lemma {:induction false} PlanCovers(total: int, chunk: nat)
    requires chunk >= 1 && total >= 0
    ensures Sum(Plan(total, chunk)) == total
    ensures forall i :: 0 <= i < |Plan(total, chunk)| ==> 1 <= Plan(total, chunk)[i] <= chunk
    ensures forall i :: 0 <= i < |Plan(total, chunk)| - 1 ==> Plan(total, chunk)[i] == chunk
    decreases total
  {
    if total > 0 {
      var c := if chunk < total then chunk else total;
      PlanCovers(total - c, chunk);
    }
  }

  /** Where a chunk starts in the final timeline. */
  function Offset(sizes: seq<nat>, i: nat): nat
    requires i <= |sizes|
  {
    WHOLE * Sum(sizes[..i])
  }

  lemma {:induction false} SumSnoc(s: seq<nat>, i: nat)
    requires i < |s|
    ensures Sum(s[..i + 1]) == Sum(s[..i]) + s[i]
    decreases i
  {
    if i == 0 {
      assert s[..1][1..] == [];
    } else {
      assert s[..i + 1][1..] == s[1..][..i] && s[..i][1..] == s[1..][..i - 1];
      SumSnoc(s[1..], i - 1);
    }
  }

  lemma {:induction false} PrefixSumBounded(s: seq<nat>, i: nat)
    requires i <= |s|
    ensures Sum(s[..i]) <= Sum(s)
    decreases |s| - i
  {
    if i < |s| {
      SumSnoc(s, i);
      PrefixSumBounded(s, i + 1);
    } else {
      assert s[..i] == s;
    }
  }

  // ---- The fade ----

  /** Python's `int()` of a quotient: towards zero. */
  function Truncate(num: int, den: int): int
    requires den > 0
  {
    if num >= 0 then num / den else -((-num) / den)
  }

  predicate InFade(start: int, fade: int, fadeIn: bool) { fadeIn && start < fade }

  predicate OutFade(start: int, total: int, fade: int, fadeOut: bool) { fadeOut && start >= total - fade }

  /** The product of the two linear factors, as one fraction. */
  function FadedVel(n: Note, total: int, fade: int, fadeIn: bool, fadeOut: bool): int
    requires fade > 0
  {
    var inside, outside := InFade(n.start, fade, fadeIn), OutFade(n.start, total, fade, fadeOut);
    var v := if inside && outside then
               MulPositive(fade, fade);
               Truncate(n.vel * n.start * (total - n.start), fade * fade)
             else if inside then Truncate(n.vel * n.start, fade)
             else if outside then Truncate(n.vel * (total - n.start), fade)
             else n.vel;
    Clamp(1, 127, v)
  }

  function Fade(ns: seq<Note>, bars: nat, fade: int, fadeIn: bool, fadeOut: bool): (r: seq<Note>)
    ensures |r| == |ns|
  {
    if fade <= 0 then ns
    else seq(|ns|, i requires 0 <= i < |ns| => ns[i].(vel := FadedVel(ns[i], bars * WHOLE, fade, fadeIn, fadeOut)))
  }

  method ApplyVelocityFade(ns: seq<Note>, bars: nat, fade: int, fadeIn: bool, fadeOut: bool) returns (r: seq<Note>)
    ensures r == Fade(ns, bars, fade, fadeIn, fadeOut)
  {
    if |ns| == 0 || fade <= 0 {
      return ns;
    }
    r := [];
    for i := 0 to |ns|
      invariant r == Fade(ns, bars, fade, fadeIn, fadeOut)[..i]
    {
      r := r + [ns[i].(vel := FadedVel(ns[i], bars * WHOLE, fade, fadeIn, fadeOut))];
    }
  }

  /** A fraction of at most one does not raise a number. */
  lemma {:induction false} ScaledDown(v: int, num: int, den: int)
    requires v >= 0 && 0 <= num <= den && den > 0
    ensures 0 <= Truncate(v * num, den) <= v
  {
    ProductOrder(0, num, v);
    ProductOrder(num, den, v);
    QuotientAtMost(v * num, v, den);
  }

  lemma {:induction false} BothFades(v: int, s: int, t: int, fade: int)
    requires v >= 0 && fade > 0 && 0 <= s <= fade && 0 <= t <= fade
    ensures fade * fade > 0 && 0 <= Truncate(v * s * t, fade * fade) <= v
  {
    ProductOrder(0, s, t);
    ProductOrder(s, fade, t);
    ProductOrder(t, fade, fade);
    MulPositive(fade, fade);
    ScaledDown(v, s * t, fade * fade);
    Associative(v, s, t);
  }

  lemma {:induction false} Associative(a: int, b: int, c: int)
    ensures a * b * c == a * (b * c)
  {
  }

  /** A faded velocity is a MIDI velocity, and the fade never raises one that was at least 1. */
  lemma {:induction false} FadeLowers(n: Note, total: int, fade: int, fadeIn: bool, fadeOut: bool)
    requires fade > 0 && 0 <= n.start <= total
    ensures 1 <= FadedVel(n, total, fade, fadeIn, fadeOut) <= 127
    ensures n.vel >= 1 ==> FadedVel(n, total, fade, fadeIn, fadeOut) <= n.vel
  {
    if n.vel >= 1 {
      var inside, outside := InFade(n.start, fade, fadeIn), OutFade(n.start, total, fade, fadeOut);
      if inside && outside {
        BothFades(n.vel, n.start, total - n.start, fade);
      } else if inside {
        ScaledDown(n.vel, n.start, fade);
      } else if outside {
        ScaledDown(n.vel, total - n.start, fade);
      }
    }
  }

  // ---- The timeline ----

  /** What one generation returns: its notes, or an error. */
  datatype Response = Failed | Notes(notes: seq<Note>)

  /** `single(i, bars)` is the `i`-th single-pass generation. */
  datatype Env = Env(threshold: int, chunk: nat, fade: int, single: (nat, nat) -> Response)

  function Shifted(ns: seq<Note>, offset: int): (r: seq<Note>)
    ensures |r| == |ns|
  {
    seq(|ns|, i requires 0 <= i < |ns| => ns[i].(start := ns[i].start + offset))
  }

  /** The faded notes of chunk `i`, at their place in the timeline. */
  function ChunkNotes(e: Env, sizes: seq<nat>, i: nat): seq<Note>
    requires i < |sizes| && e.single(i, sizes[i]).Notes?
  {
    Shifted(Fade(e.single(i, sizes[i]).notes, sizes[i], e.fade, i != 0, i != |sizes| - 1), Offset(sizes, i))
  }

  ghost predicate Succeeds(e: Env, sizes: seq<nat>, n: nat) {
    n <= |sizes| && forall i: nat :: i < n ==> e.single(i, sizes[i]).Notes?
  }

  ghost function Stitched(e: Env, sizes: seq<nat>, n: nat): seq<Note>
    requires Succeeds(e, sizes, n)
  {
    if n == 0 then [] else Stitched(e, sizes, n - 1) + ChunkNotes(e, sizes, n - 1)
  }

  function ByStart(): Note -> Rank { (n: Note) => Rank(n.start, 0) }

  datatype ChunkMeta = ChunkMeta(chunk: nat, bars: nat, notes: nat, offset: nat)

  datatype Result = Result(success: bool, notes: seq<Note>, metadata: seq<ChunkMeta>)

  /**
   The mutual recursion of `_do_generate` and `_generate_chunked`. It terminates because chunks are short
   enough for a single pass.
   */
  method DoGenerate(e: Env, bars: nat, slot: nat) returns (r: Response)
    requires 1 <= e.chunk <= e.threshold
    ensures bars <= e.threshold ==> r == e.single(slot, bars)
    ensures bars > e.threshold ==>
      (r.Notes? <==> Succeeds(e, Plan(bars, e.chunk), |Plan(bars, e.chunk)|))
      && (r.Notes? ==> r.notes == Sort(Stitched(e, Plan(bars, e.chunk), |Plan(bars, e.chunk)|), ByStart()))
    decreases if bars > e.threshold then 1 else 0, 1
  {
    if bars > e.threshold {
      var result := GenerateChunked(e, bars);
      return if result.success then Notes(result.notes) else Failed;
    }
    return e.single(slot, bars);
  }

  method GenerateChunked(e: Env, total: nat) returns (r: Result)
    requires 1 <= e.chunk <= e.threshold < total
    ensures r.success <==> Succeeds(e, Plan(total, e.chunk), |Plan(total, e.chunk)|)
    ensures |r.metadata| <= |Plan(total, e.chunk)| && Succeeds(e, Plan(total, e.chunk), |r.metadata|)
    ensures r.success ==> r.notes == Sort(Stitched(e, Plan(total, e.chunk), |Plan(total, e.chunk)|), ByStart())
    ensures !r.success ==> r.notes == Stitched(e, Plan(total, e.chunk), |r.metadata|)
    ensures forall i :: 0 <= i < |r.metadata| ==>
                          r.metadata[i] == ChunkMeta(i, Plan(total, e.chunk)[i],
                                                     |e.single(i, Plan(total, e.chunk)[i]).notes|,
                                                     Offset(Plan(total, e.chunk), i))
    decreases 1, 0
  {
    var sizes := PlanChunks(total, e.chunk);
    PlanCovers(total, e.chunk);
    var notes: seq<Note>, metadata: seq<ChunkMeta> := [], [];
    var offset: nat := 0;
    for i := 0 to |sizes|
      invariant Succeeds(e, sizes, i) && notes == Stitched(e, sizes, i) && offset == Offset(sizes, i)
      invariant |metadata| == i
      invariant forall j :: 0 <= j < i ==>
                              metadata[j] == ChunkMeta(j, sizes[j], |e.single(j, sizes[j]).notes|, Offset(sizes, j))
    {
      var response := DoGenerate(e, sizes[i], i);
      if response.Failed? {
        return Result(false, notes, metadata);
      }
      var wire := ApplyVelocityFade(response.notes, sizes[i], e.fade, i != 0, i != |sizes| - 1);
      var shifted := ShiftNotes(wire, offset);
      notes := notes + shifted;
      metadata := metadata + [ChunkMeta(i, sizes[i], |wire|, offset)];
      SumSnoc(sizes, i);
      offset := offset + sizes[i] * WHOLE;
    }
    return Result(true, Sort(notes, ByStart()), metadata);
  }

  method ShiftNotes(ns: seq<Note>, offset: int) returns (r: seq<Note>)
    ensures r == Shifted(ns, offset)
  {
    r := [];
    for i := 0 to |ns|
      invariant r == Shifted(ns, offset)[..i]
    {
      r := r + [ns[i].(start := ns[i].start + offset)];
    }
  }

  /** The recursion shrinks, for every request that is split, exactly when a chunk fits the threshold. */
  lemma {:induction false} RecursionShrinksExactly(threshold: nat, chunk: nat)
    requires chunk >= 1
    ensures (forall bars: nat :: bars > threshold ==> forall c :: c in Plan(bars, chunk) ==> c <= threshold)
            <==> chunk <= threshold
  {
    if chunk <= threshold {
      forall bars: nat | bars > threshold ensures forall c :: c in Plan(bars, chunk) ==> c <= threshold {
        PlanCovers(bars, chunk);
      }
    } else {
      OversizedChunk(threshold, chunk);
      assert threshold + 1 in Plan(threshold + 1, chunk);
    }
  }

  /** Otherwise a request one bar over the threshold is split into itself. */
  lemma {:induction false} OversizedChunk(threshold: nat, chunk: nat)
    requires chunk > threshold
    ensures Plan(threshold + 1, chunk) == [threshold + 1]
  {
    assert Plan(0, chunk) == [];
  }

  // ---- What the stitched timeline keeps ----

  /** Every chunk's notes start within its own bars, the closing bar line included. */
  ghost predicate StartsInside(e: Env, sizes: seq<nat>, n: nat)
    requires Succeeds(e, sizes, n)
  {
    forall i: nat, k: nat :: i < n && k < |e.single(i, sizes[i]).notes| ==>
                               0 <= e.single(i, sizes[i]).notes[k].start <= sizes[i] * WHOLE
  }

  /** Each chunk's notes, one for one, lie between its offset and the next. */
  lemma {:induction false} ChunkInItsPlace(e: Env, sizes: seq<nat>, n: nat, i: nat, k: nat)
    requires Succeeds(e, sizes, n) && StartsInside(e, sizes, n) && i < n && k < |ChunkNotes(e, sizes, i)|
    ensures |ChunkNotes(e, sizes, i)| == |e.single(i, sizes[i]).notes|
    ensures var before, after := e.single(i, sizes[i]).notes[k], ChunkNotes(e, sizes, i)[k];
            after.pitch == before.pitch && after.dur == before.dur && after.start == before.start + Offset(sizes, i)
    ensures Offset(sizes, i) <= ChunkNotes(e, sizes, i)[k].start <= Offset(sizes, i + 1) <= WHOLE * Sum(sizes)
  {
    SumSnoc(sizes, i);
    PrefixSumBounded(sizes, i + 1);
    assert Offset(sizes, i + 1) == Offset(sizes, i) + sizes[i] * WHOLE;
  }

  lemma {:induction false} StitchedInside(e: Env, sizes: seq<nat>, n: nat, x: Note)
    requires Succeeds(e, sizes, n) && StartsInside(e, sizes, n) && x in Stitched(e, sizes, n)
    ensures 0 <= x.start <= WHOLE * Sum(sizes)
  {
    if x in Stitched(e, sizes, n - 1) {
      StitchedInside(e, sizes, n - 1, x);
    } else {
      var k: nat :| k < |ChunkNotes(e, sizes, n - 1)| && ChunkNotes(e, sizes, n - 1)[k] == x;
      ChunkInItsPlace(e, sizes, n, n - 1, k);
    }
  }

  lemma {:induction false} ChunkIsStitched(e: Env, sizes: seq<nat>, n: nat, i: nat)
    requires Succeeds(e, sizes, n) && i < n
    ensures multiset(ChunkNotes(e, sizes, i)) <= multiset(Stitched(e, sizes, n))
  {
    if i < n - 1 {
      ChunkIsStitched(e, sizes, n - 1, i);
    }
  }

  function NoteCount(e: Env, sizes: seq<nat>, n: nat): nat
    requires n <= |sizes|
  {
    if n == 0 then 0
    else NoteCount(e, sizes, n - 1)
         + match e.single(n - 1, sizes[n - 1]) { case Failed => 0 case Notes(ns) => |ns| }
  }

  lemma {:induction false} StitchedLength(e: Env, sizes: seq<nat>, n: nat)
    requires Succeeds(e, sizes, n)
    ensures |Stitched(e, sizes, n)| == NoteCount(e, sizes, n)
  {
    if n > 0 {
      StitchedLength(e, sizes, n - 1);
    }
  }

  /**
   The finished timeline is in order, has exactly the notes of the chunks, and stays within the requested bars.
   */
  lemma {:induction false} Timeline(e: Env, total: nat, notes: seq<Note>)
    requires e.chunk >= 1
    requires Succeeds(e, Plan(total, e.chunk), |Plan(total, e.chunk)|)
    requires notes == Sort(Stitched(e, Plan(total, e.chunk), |Plan(total, e.chunk)|), ByStart())
    ensures forall i, j :: 0 <= i < j < |notes| ==> notes[i].start <= notes[j].start
    ensures |notes| == NoteCount(e, Plan(total, e.chunk), |Plan(total, e.chunk)|)
    ensures forall i: nat :: i < |Plan(total, e.chunk)| ==>
                               multiset(ChunkNotes(e, Plan(total, e.chunk), i)) <= multiset(notes)
    ensures StartsInside(e, Plan(total, e.chunk), |Plan(total, e.chunk)|) ==>
              forall i :: 0 <= i < |notes| ==> 0 <= notes[i].start <= total * WHOLE
  {
    var sizes := Plan(total, e.chunk);
    var stitched := Stitched(e, sizes, |sizes|);
    SortSorts(stitched, ByStart());
    SortPermutes(stitched, ByStart());
    StitchedLength(e, sizes, |sizes|);
    forall i, j | 0 <= i < j < |notes| ensures notes[i].start <= notes[j].start {
      assert Le(ByStart()(notes[i]), ByStart()(notes[j]));
    }
    forall i: nat | i < |sizes| ensures multiset(ChunkNotes(e, sizes, i)) <= multiset(notes) {
      ChunkIsStitched(e, sizes, |sizes|, i);
    }
    PlanCovers(total, e.chunk);
    if StartsInside(e, sizes, |sizes|) {
      forall i | 0 <= i < |notes| ensures 0 <= notes[i].start <= total * WHOLE {
        SortMember(stitched, ByStart(), notes[i]);
        StitchedInside(e, sizes, |sizes|, notes[i]);
      }
    }
  }

  /**
   From trimmed candidates to the timeline: when every single pass is the post-processed form of notes that
   start before the end of its bars, every stitched note lies within the requested bars.
   */
  lemma {:induction false} ProcessedTimeline(e: Env, c: Config, raw: (nat, nat) -> seq<Note>, total: nat,
                                             notes: seq<Note>)
    requires e.chunk >= 1 && c.swing <= BEAT
    requires forall i: nat, bars: nat :: e.single(i, bars) == Notes(Process(c, raw(i, bars)))
    requires forall i: nat, bars: nat, k: nat :: k < |raw(i, bars)| ==> 0 <= raw(i, bars)[k].start < bars * WHOLE
    requires Succeeds(e, Plan(total, e.chunk), |Plan(total, e.chunk)|)
    requires notes == Sort(Stitched(e, Plan(total, e.chunk), |Plan(total, e.chunk)|), ByStart())
    ensures forall i :: 0 <= i < |notes| ==> 0 <= notes[i].start <= total * WHOLE
  {
    var sizes := Plan(total, e.chunk);
    forall i: nat, k: nat | i < |sizes| && k < |e.single(i, sizes[i]).notes|
      ensures 0 <= e.single(i, sizes[i]).notes[k].start <= sizes[i] * WHOLE {
      StartsStayInside(c, raw(i, sizes[i]), sizes[i], k);
    }
    Timeline(e, total, notes);
  }
}
