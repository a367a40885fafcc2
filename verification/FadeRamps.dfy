/**
 The velocity fade of chunked generation, said without its formula, and where in a composition it acts.
 */
module FadeRamps {
  import opened Arithmetic
  import opened PostProcessing
  import opened Chunked

  /** `v` is `num / den` cut to an integer, but at least 1. */
  predicate IsCut(v: int, num: int, den: int) {
    (v * den <= num < (v + 1) * den) || (v == 1 && num < den)
  }

  /** Near the beginning the fraction is how far the note is from it, near the end how far from that; both multiply. */
  lemma {:induction false} FadeExactly(n: Note, total: int, fade: int, fadeIn: bool, fadeOut: bool)
    requires fade > 0 && 0 <= n.start <= total && 1 <= n.vel <= 127
    ensures var v := FadedVel(n, total, fade, fadeIn, fadeOut);
            var rising, falling := fadeIn && n.start < fade, fadeOut && n.start >= total - fade;
            && (rising && !falling ==> IsCut(v, n.vel * n.start, fade))
            && (falling && !rising ==> IsCut(v, n.vel * (total - n.start), fade))
            && (rising && falling ==> IsCut(v, n.vel * n.start * (total - n.start), fade * fade))
            && (!rising && !falling ==> v == n.vel)
  {
    FadeLowers(n, total, fade, fadeIn, fadeOut);
    var rising, falling := fadeIn && n.start < fade, fadeOut && n.start >= total - fade;
    if rising && falling {
      MulPositive(fade, fade);
      BothFades(n.vel, n.start, total - n.start, fade);
      CutIs(n.vel * n.start * (total - n.start), fade * fade, n.vel);
    } else if rising {
      ScaledDown(n.vel, n.start, fade);
      CutIs(n.vel * n.start, fade, n.vel);
    } else if falling {
      ScaledDown(n.vel, total - n.start, fade);
      CutIs(n.vel * (total - n.start), fade, n.vel);
    }
  }

  lemma {:induction false} CutIs(num: int, den: int, vel: int)
    requires den > 0 && 0 <= Truncate(num, den) <= vel <= 127
    ensures IsCut(Clamp(1, 127, Truncate(num, den)), num, den)
  {
    if num >= 0 {
      var q := num / den;
      assert num == q * den + num % den;
      assert (q + 1) * den == q * den + den;
    }
  }

  /** Within the fade-in a later note of the same velocity is not softer. */
  lemma {:induction false} FadeInRises(a: Note, b: Note, total: int, fade: int)
    requires fade > 0 && a.vel == b.vel && 1 <= a.vel <= 127 && 0 <= a.start <= b.start < fade && b.start <= total
    ensures FadedVel(a, total, fade, true, false) <= FadedVel(b, total, fade, true, false)
  {
    ProductOrder(a.start, b.start, a.vel);
    DivOrder(a.vel * a.start, b.vel * b.start, fade);
    ScaledDown(a.vel, a.start, fade);
    ScaledDown(b.vel, b.start, fade);
    ProductOrder(0, a.start, a.vel);
    ProductOrder(0, b.start, b.vel);
  }

  /** Within the fade-out it is not louder. */
  lemma {:induction false} FadeOutFalls(a: Note, b: Note, total: int, fade: int)
    requires fade > 0 && a.vel == b.vel && 1 <= a.vel <= 127 && total - fade <= a.start <= b.start <= total
    requires 0 <= a.start
    ensures FadedVel(b, total, fade, false, true) <= FadedVel(a, total, fade, false, true)
  {
    ProductOrder(total - b.start, total - a.start, a.vel);
    DivOrder(b.vel * (total - b.start), a.vel * (total - a.start), fade);
    ProductOrder(0, total - b.start, b.vel);
    ProductOrder(0, total - a.start, a.vel);
  }

  /**
   In the composition: chunk `i` begins four beats later for every bar before it, where all chunks but the last are
   full. Only its seams are faded: the first chunk keeps its beginning and the last one its end.
   */
  lemma {:induction false} SeamsOnly(e: Env, total: nat, i: nat, k: nat)
    requires e.chunk >= 1 && i < |Plan(total, e.chunk)|
    requires e.single(i, Plan(total, e.chunk)[i]).Notes? && k < |e.single(i, Plan(total, e.chunk)[i]).notes|
    requires var n := e.single(i, Plan(total, e.chunk)[i]).notes[k];
             1 <= n.vel <= 127 && 0 <= n.start <= 40000 * Plan(total, e.chunk)[i]
    ensures var sizes := Plan(total, e.chunk);
            var n, m := e.single(i, sizes[i]).notes[k], ChunkNotes(e, sizes, i)[k];
            && m.start == n.start + 40000 * (i * e.chunk) && m.pitch == n.pitch && m.dur == n.dur
            && ((i == 0 || n.start >= e.fade) && (i == |sizes| - 1 || n.start < 40000 * sizes[i] - e.fade) ==>
                  m.vel == n.vel)
            && (i > 0 && n.start == 0 && e.fade > 0 ==> m.vel == 1)
            && (i < |sizes| - 1 && n.start == 40000 * sizes[i] && e.fade > 0 ==> m.vel == 1)
  {
    var sizes := Plan(total, e.chunk);
    var n := e.single(i, sizes[i]).notes[k];
    OffsetOfChunk(total, e.chunk, i);
    if e.fade > 0 {
      FadeExactly(n, sizes[i] * WHOLE, e.fade, i != 0, i != |sizes| - 1);
      MulPositive(e.fade, e.fade);
      assert n.vel * 0 == 0 && n.vel * n.start * 0 == 0;
      AtSeam(n, sizes[i] * WHOLE, e.fade, i != 0, i != |sizes| - 1);
    }
  }

  lemma {:induction false} AtSeam(n: Note, total: int, fade: int, fadeIn: bool, fadeOut: bool)
    requires fade > 0 && 0 <= n.start <= total && 1 <= n.vel <= 127
    ensures fadeIn && n.start == 0 ==> FadedVel(n, total, fade, fadeIn, fadeOut) == 1
    ensures fadeOut && n.start == total ==> FadedVel(n, total, fade, fadeIn, fadeOut) == 1
  {
    MulPositive(fade, fade);
    assert n.vel * 0 * (total - n.start) == 0 && n.vel * n.start * 0 == 0 && n.vel * 0 == 0;
  }

  lemma {:induction false} OffsetOfChunk(total: int, chunk: nat, i: nat)
    requires chunk >= 1 && i < |Plan(total, chunk)|
    ensures Offset(Plan(total, chunk), i) == 40000 * (i * chunk)
    decreases i
  {
    var sizes := Plan(total, chunk);
    if i == 0 {
      assert sizes[..0] == [];
    } else {
      OffsetOfChunk(total, chunk, i - 1);
      SumSnoc(sizes, i - 1);
      PlanCovers(total, chunk);
      assert sizes[i - 1] == chunk && i * chunk == (i - 1) * chunk + chunk;
    }
  }
}
