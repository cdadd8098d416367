/** `margEvolveWithBinary` (marg.cpp): the posterior of a star marginalised over primary mass,
    evaluated on ISO_INCREM points in every isochrone mass interval but the last. */
module MargEvolve {
  import opened Bands
  import opened MargMags
  import opened Marg

  /** Evaluation points per isochrone interval (`isoIncrem`). */
  const ISO_INCREM: nat := 80

  /** The smallest AGB-tip mass taken as set. Its value is set in constants.hpp, which is not
      part of this model; nothing proved here depends on it. */
  const EPS: real

  /** One evaluation: the isochrone interval, the step within it, the primary mass and the mass
      step `dMass` passed to calcPost. */
  datatype Eval = Eval(interval: nat, step: nat, mass0: real, dMass: real)

  /** Interval m is evaluated only when its masses increase. */
  predicate Kept(iso: GlobalIso, m: nat)
    requires m + 1 < |iso.mass|
  {
    iso.mass[m + 1] - iso.mass[m] > 0.0
  }

  /** The evaluations of interval m: ISO_INCREM equally spaced primary masses from mass_iso[m] on,
      or none when the interval does not increase. */
  function IntervalEvals(iso: GlobalIso, m: nat): (r: seq<Eval>)
    requires m + 1 < |iso.mass|
    ensures |r| == if Kept(iso, m) then ISO_INCREM else 0
  {
    var dIsoMass := iso.mass[m + 1] - iso.mass[m];
    if dIsoMass > 0.0 then
      var dMass := dIsoMass / ISO_INCREM as real;
      seq(ISO_INCREM, k requires 0 <= k < ISO_INCREM => Eval(m, k, iso.mass[m] + Repeated(k, dMass), dMass))
    else []
  }

  /** The evaluations of the first n intervals, in the order the loops visit them. */
  function Evals(iso: GlobalIso, n: nat): seq<Eval>
    requires n + 1 <= |iso.mass|
  {
    if n == 0 then [] else Evals(iso, n - 1) + IntervalEvals(iso, n - 1)
  }

  /** Every evaluation of the whole isochrone: intervals 0 .. nEntries - 3, the last one left out. */
  function EvaluationPoints(iso: GlobalIso): seq<Eval>
    requires IsoOk(iso)
  {
    Evals(iso, |iso.mass| - 2)
  }

  predicate PositiveMasses(evals: seq<Eval>)
  {
    forall i :: 0 <= i < |evals| ==> evals[i].mass0 > 0.0
  }

  /** The posterior summed over `evals` in order, with the scratch storage threaded from one
      calcPost call to the next. The companion mass is always 0. */
  function Accumulate(ctx: Context, star: Star, evals: seq<Eval>, sc: Scratch): (r: (real, Scratch))
    requires ContextOk(ctx) && StarOk(star) && ScratchOk(sc) && PositiveMasses(evals)
    ensures ScratchOk(r.1)
    decreases |evals|, 2
  {
    if evals == [] then (0.0, sc) else AccumulateLast(ctx, star, evals, sc)
  }

  /** Accumulate over a non-empty `evals`: the sum over all but the last evaluation, plus the
      last evaluation's calcPost on the storage the earlier ones left. */
  function AccumulateLast(ctx: Context, star: Star, evals: seq<Eval>, sc: Scratch): (r: (real, Scratch))
    requires ContextOk(ctx) && StarOk(star) && ScratchOk(sc) && PositiveMasses(evals) && evals != []
    ensures ScratchOk(r.1)
    decreases |evals|, 1
  {
    var c := LastTerm(ctx, star, evals, sc);
    (Accumulate(ctx, star, evals[..|evals| - 1], sc).0 + c.0, c.1)
  }

  /** calcPost at the last evaluation of `evals`, on the storage the earlier ones left. */
  function LastTerm(ctx: Context, star: Star, evals: seq<Eval>, sc: Scratch): (r: (real, Scratch))
    requires ContextOk(ctx) && StarOk(star) && ScratchOk(sc) && PositiveMasses(evals) && evals != []
    ensures ScratchOk(r.1)
    decreases |evals|, 0
  {
    var e := evals[|evals| - 1];
    CalcPostSpec(ctx, ctx.cluster.abs, e.dMass, e.mass0, 0.0, star, Accumulate(ctx, star, evals[..|evals| - 1], sc).1)
  }

  /** What margEvolveWithBinary returns: the bounds error it throws, or the posterior together
      with the `ltau` and `globalMags` it leaves behind. */
  datatype MargResult = WDBoundsError | Marginal(post: real, ltau: seq<real>, globalMags: seq<real>)

  /** `margEvolveWithBinary` as a function of its inputs. `mag` and `flux` are its uninitialised
      locals, whose initial contents are taken as parameters. */
  function MargSpec(ctx: Context, star: Star, ltau: seq<real>, globalMags: seq<real>,
                    mag: seq<seq<real>>, flux: real): MargResult
    requires ContextOk(ctx) && StarOk(star) && ScratchOk(Scratch(mag, flux, ltau, globalMags))
  {
    if ctx.cluster.AGBt_zmass < EPS then WDBoundsError
    else
      EvaluationPointsPositive(ctx.iso);
      var a := Accumulate(ctx, star, EvaluationPoints(ctx.iso), Scratch(mag, flux, ltau, globalMags));
      Marginal(if a.0 >= 0.0 then a.0 else 0.0, a.1.ltau, a.1.globalMags)
  }

  /** `margEvolveWithBinary`. */
  method MargEvolveWithBinary(ctx: Context, star: Star, ltau: seq<real>, globalMags: seq<real>,
                              mag: seq<seq<real>>, flux: real) returns (r: MargResult)
    requires ContextOk(ctx) && StarOk(star) && ScratchOk(Scratch(mag, flux, ltau, globalMags))
    ensures r == MargSpec(ctx, star, ltau, globalMags, mag, flux)
  {
    var post := 0.0;
    if ctx.cluster.AGBt_zmass < EPS {
      return WDBoundsError;
    }
    var clusterAv := ctx.cluster.abs;
    var sc := Scratch(mag, flux, ltau, globalMags);
    ghost var sc0 := sc;
    EvaluationPointsPositive(ctx.iso);
    var m := 0;
    ghost var done: seq<Eval> := [];
    while m < |ctx.iso.mass| - 2
      invariant 0 <= m <= |ctx.iso.mass| - 2 && ScratchOk(sc)
      invariant done == Evals(ctx.iso, m) && PositiveMasses(done)
      invariant post == Accumulate(ctx, star, done, sc0).0
      invariant sc == Accumulate(ctx, star, done, sc0).1
    {
      post, sc := EvaluateInterval(ctx, clusterAv, star, m, post, sc, done, sc0);
      done := done + IntervalEvals(ctx.iso, m);
      m := m + 1;
    }
    assert done == EvaluationPoints(ctx.iso);
    ghost var a := Accumulate(ctx, star, EvaluationPoints(ctx.iso), sc0);
    assert post == a.0 && sc.ltau == a.1.ltau && sc.globalMags == a.1.globalMags;
    if post >= 0.0 {
      r := Marginal(post, sc.ltau, sc.globalMags);
    } else {
      r := Marginal(0.0, sc.ltau, sc.globalMags);
    }
  }

  /** The inner loop of margEvolveWithBinary over the ISO_INCREM steps of isochrone interval m:
      it adds the posterior of each evaluation of the interval to `post`. */
  method EvaluateInterval(ctx: Context, clusterAv: real, star: Star, m: nat, post: real, sc: Scratch,
                          ghost done: seq<Eval>, ghost sc0: Scratch)
      returns (post': real, sc': Scratch)
    requires ContextOk(ctx) && StarOk(star) && ScratchOk(sc0) && m + 2 < |ctx.iso.mass|
    requires clusterAv == ctx.cluster.abs
    requires PositiveMasses(done)
    requires post == Accumulate(ctx, star, done, sc0).0 && sc == Accumulate(ctx, star, done, sc0).1
    ensures PositiveMasses(done + IntervalEvals(ctx.iso, m))
    ensures post' == Accumulate(ctx, star, done + IntervalEvals(ctx.iso, m), sc0).0
    ensures sc' == Accumulate(ctx, star, done + IntervalEvals(ctx.iso, m), sc0).1
  {
    ghost var evals := IntervalEvals(ctx.iso, m);
    IntervalEvalsPositive(ctx.iso, m);
    post', sc' := post, sc;
    ghost var acc := done;
    var k := 0;
    while k < ISO_INCREM
      invariant 0 <= k <= ISO_INCREM
      invariant Kept(ctx.iso, m) ==> acc == done + evals[..k]
      invariant !Kept(ctx.iso, m) ==> acc == done
      invariant PositiveMasses(acc)
      invariant post' == Accumulate(ctx, star, acc, sc0).0
      invariant sc' == Accumulate(ctx, star, acc, sc0).1
    {
      var dIsoMass := ctx.iso.mass[m + 1] - ctx.iso.mass[m];
      if dIsoMass > 0.0 {
        var dMass := dIsoMass / ISO_INCREM as real;
        var mass0 := ctx.iso.mass[m] + k as real * dMass;
        IntervalEvalAt(ctx.iso, m, k);
        assert evals[k] == Eval(m, k, mass0, dMass);
        post', sc' := AddEvaluation(ctx, clusterAv, star, Eval(m, k, mass0, dMass), post', sc', acc, sc0);
        acc := acc + [evals[k]];
      }
      k := k + 1;
    }
    if Kept(ctx.iso, m) {
      assert evals[..k] == evals;
    } else {
      assert done + evals == done;
    }
  }

  /** One pass of the inner loop body: calcPost at the evaluation's masses, added to `post`. */
  method AddEvaluation(ctx: Context, clusterAv: real, star: Star, e: Eval, post: real, sc: Scratch,
                       ghost done: seq<Eval>, ghost sc0: Scratch)
      returns (post': real, sc': Scratch)
    requires ContextOk(ctx) && StarOk(star) && ScratchOk(sc0) && clusterAv == ctx.cluster.abs
    requires PositiveMasses(done) && e.mass0 > 0.0
    requires post == Accumulate(ctx, star, done, sc0).0 && sc == Accumulate(ctx, star, done, sc0).1
    ensures PositiveMasses(done + [e])
    ensures post' == Accumulate(ctx, star, done + [e], sc0).0
    ensures sc' == Accumulate(ctx, star, done + [e], sc0).1
  {
    AccumulateSnoc(ctx, star, done, e, sc0);
    var p;
    p, sc' := CalcPost(ctx, clusterAv, e.dMass, e.mass0, 0.0, star, sc);
    post' := post + p;
  }

  /** The k-th evaluation of an increasing interval, as the inner loop computes it, and the
      evaluations up to it. */
  lemma IntervalEvalAt(iso: GlobalIso, m: nat, k: nat)
    requires m + 1 < |iso.mass| && Kept(iso, m) && k < ISO_INCREM
    ensures var dMass := (iso.mass[m + 1] - iso.mass[m]) / ISO_INCREM as real;
      IntervalEvals(iso, m)[k] == Eval(m, k, iso.mass[m] + k as real * dMass, dMass)
    ensures IntervalEvals(iso, m)[..k + 1] == IntervalEvals(iso, m)[..k] + [IntervalEvals(iso, m)[k]]
  {
  }

  /** Accumulating one more evaluation adds its calcPost on the storage the earlier ones left. */
  lemma AccumulateSnoc(ctx: Context, star: Star, done: seq<Eval>, e: Eval, sc: Scratch)
    requires ContextOk(ctx) && StarOk(star) && ScratchOk(sc) && PositiveMasses(done) && e.mass0 > 0.0
    ensures PositiveMasses(done + [e])
    ensures var prev := Accumulate(ctx, star, done, sc);
      var c := CalcPostSpec(ctx, ctx.cluster.abs, e.dMass, e.mass0, 0.0, star, prev.1);
      && Accumulate(ctx, star, done + [e], sc).0 == prev.0 + c.0
      && Accumulate(ctx, star, done + [e], sc).1 == c.1
  {
    var s := done + [e];
    assert s[..|s| - 1] == done;
    assert s[|s| - 1] == e;
    var prev := Accumulate(ctx, star, done, sc);
    assert LastTerm(ctx, star, s, sc) == CalcPostSpec(ctx, ctx.cluster.abs, e.dMass, e.mass0, 0.0, star, prev.1);
    assert Accumulate(ctx, star, s, sc) == AccumulateLast(ctx, star, s, sc);
  }

  // ---------------------------------------------------------------------------------------
  // The evaluation grid

  /** k steps of d / ISO_INCREM stay inside an interval of width d. */
  lemma StepInside(k: nat, d: real)
    requires k < ISO_INCREM && d > 0.0
    ensures 0.0 <= Repeated(k, d / ISO_INCREM as real) < d
  {
    var step := d / ISO_INCREM as real;
    assert step > 0.0;
    assert k as real * step <= (ISO_INCREM - 1) as real * step;
    assert ISO_INCREM as real * step == d;
  }

  /** Each evaluation of interval m has its primary mass in [mass_iso[m], mass_iso[m+1]). */
  lemma IntervalEvalsInside(iso: GlobalIso, m: nat, k: nat)
    requires m + 1 < |iso.mass| && k < |IntervalEvals(iso, m)|
    ensures var e := IntervalEvals(iso, m)[k];
      && Kept(iso, m) && e.interval == m && e.step == k
      && e.dMass == (iso.mass[m + 1] - iso.mass[m]) / ISO_INCREM as real
      && e.mass0 == iso.mass[m] + Repeated(k, e.dMass)
      && iso.mass[m] <= e.mass0 < iso.mass[m + 1]
  {
    StepInside(k, iso.mass[m + 1] - iso.mass[m]);
  }

  lemma IntervalEvalsPositive(iso: GlobalIso, m: nat)
    requires IsoOk(iso) && m + 1 < |iso.mass|
    ensures PositiveMasses(IntervalEvals(iso, m))
  {
    forall k | 0 <= k < |IntervalEvals(iso, m)|
      ensures IntervalEvals(iso, m)[k].mass0 > 0.0
    {
      IntervalEvalsInside(iso, m, k);
    }
  }

  /** Every evaluation point lies in an increasing interval other than the last one, with its
      primary mass in [mass_iso[m], mass_iso[m+1]) on a grid of ISO_INCREM equal steps. */
  lemma {:induction false} EvalsInside(iso: GlobalIso, n: nat, j: nat)
    requires n + 1 <= |iso.mass| && j < |Evals(iso, n)|
    ensures var e := Evals(iso, n)[j]; var m := e.interval;
      && m < n && Kept(iso, m) && e.step < ISO_INCREM
      && e.dMass == (iso.mass[m + 1] - iso.mass[m]) / ISO_INCREM as real
      && e.mass0 == iso.mass[m] + Repeated(e.step, e.dMass)
      && iso.mass[m] <= e.mass0 < iso.mass[m + 1]
  {
    var prev := Evals(iso, n - 1);
    if j < |prev| {
      EvalsInside(iso, n - 1, j);
    } else {
      IntervalEvalsInside(iso, n - 1, j - |prev|);
    }
  }

  lemma EvaluationPointsPositive(iso: GlobalIso)
    requires IsoOk(iso)
    ensures PositiveMasses(EvaluationPoints(iso))
  {
    forall j | 0 <= j < |EvaluationPoints(iso)|
      ensures EvaluationPoints(iso)[j].mass0 > 0.0
    {
      EvalsInside(iso, |iso.mass| - 2, j);
    }
  }

  /** The number of increasing intervals among the first n. */
  function KeptCount(iso: GlobalIso, n: nat): nat
    requires n + 1 <= |iso.mass|
  {
    if n == 0 then 0 else KeptCount(iso, n - 1) + (if Kept(iso, n - 1) then 1 else 0)
  }

  /** There are exactly ISO_INCREM evaluations per increasing interval. */
  lemma {:induction false} EvalsCount(iso: GlobalIso, n: nat)
    requires n + 1 <= |iso.mass|
    ensures |Evals(iso, n)| == ISO_INCREM * KeptCount(iso, n)
  {
    if n > 0 {
      EvalsCount(iso, n - 1);
    }
  }

  /** On an isochrone whose masses strictly increase, every interval but the last is evaluated:
      ISO_INCREM * (nEntries - 2) evaluations. */
  lemma IncreasingMassesFullGrid(iso: GlobalIso)
    requires IsoOk(iso)
    requires forall i :: 0 <= i < |iso.mass| - 1 ==> iso.mass[i] < iso.mass[i + 1]
    ensures |EvaluationPoints(iso)| == ISO_INCREM * (|iso.mass| - 2)
  {
    AllKept(iso, |iso.mass| - 2);
    EvalsCount(iso, |iso.mass| - 2);
  }

  lemma {:induction false} AllKept(iso: GlobalIso, n: nat)
    requires n + 1 <= |iso.mass|
    requires forall i :: 0 <= i < |iso.mass| - 1 ==> iso.mass[i] < iso.mass[i + 1]
    ensures KeptCount(iso, n) == n
  {
    if n > 0 {
      AllKept(iso, n - 1);
    }
  }

  // ---------------------------------------------------------------------------------------
  // The result

  /** The bounds error is thrown exactly when the AGB-tip mass was never set (is below EPS);
      otherwise the result is the accumulated posterior clamped at zero, never negative. */
  lemma MargResultShape(ctx: Context, star: Star, ltau: seq<real>, globalMags: seq<real>,
                        mag: seq<seq<real>>, flux: real)
    requires ContextOk(ctx) && StarOk(star) && ScratchOk(Scratch(mag, flux, ltau, globalMags))
    ensures var r := MargSpec(ctx, star, ltau, globalMags, mag, flux);
      && (r.WDBoundsError? <==> ctx.cluster.AGBt_zmass < EPS)
      && (r.Marginal? ==> r.post >= 0.0)
      && (r.Marginal? ==>
            && PositiveMasses(EvaluationPoints(ctx.iso))
            && var a := Accumulate(ctx, star, EvaluationPoints(ctx.iso), Scratch(mag, flux, ltau, globalMags)).0;
               r.post == if a >= 0.0 then a else 0.0)
  {
    EvaluationPointsPositive(ctx.iso);
  }

  /** An isochrone of two entries has only its last interval, which is never evaluated: the
      posterior is zero and ltau and globalMags come back untouched. */
  lemma TwoEntriesGiveZero(ctx: Context, star: Star, ltau: seq<real>, globalMags: seq<real>,
                           mag: seq<seq<real>>, flux: real)
    requires ContextOk(ctx) && StarOk(star) && ScratchOk(Scratch(mag, flux, ltau, globalMags))
    requires |ctx.iso.mass| == 2 && ctx.cluster.AGBt_zmass >= EPS
    ensures MargSpec(ctx, star, ltau, globalMags, mag, flux) == Marginal(0.0, ltau, globalMags)
  {
  }
}
