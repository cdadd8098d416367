/** `calcPost` (marg.cpp): the posterior contribution of one primary mass, first with no
    companion, then with the companions the `okMass` pre-screen lets through. */
module Marg {
  import opened Bands
  import opened MargMags

  const MAX_ENTRIES: nat := 370

  /** Number of standard deviations from the observation that still contribute. */
  const N_SD: real := 4.0

  /** The global isochrone: `nEntries` is |mass|; mag[i] is the magnitude row of entry i. */
  datatype GlobalIso = GlobalIso(mass: seq<real>, mag: seq<seq<real>>)

  /** The isochrone marg.cpp expects: at least two entries (its own assertion), no more than the
      `okMass` buffer covers, a magnitude row per entry and positive masses (calcPost divides by them). */
  predicate IsoOk(iso: GlobalIso)
  {
    && 2 <= |iso.mass| && |iso.mass| - 1 <= MAX_ENTRIES
    && |iso.mag| == |iso.mass|
    && (forall i :: 0 <= i < |iso.mag| ==> RowOk(iso.mag[i]))
    && (forall i :: 0 <= i < |iso.mass| ==> iso.mass[i] > 0.0)
  }

  /** What every call reads and never writes: the models, the cluster, the isochrone and the
      requested bands. The filter priors are only passed on to `logPost1Star`, so they live in
      that collaborator. */
  datatype Context = Context(env: Env, cluster: Cluster, iso: GlobalIso, filters: seq<int>)

  ghost predicate ContextOk(ctx: Context)
  {
    EnvOk(ctx.env) && FiltersOk(ctx.filters) && 0 < |ctx.filters| <= FILTS && IsoOk(ctx.iso)
  }

  /** The storage calcPost writes through its reference parameters and margEvolveWithBinary keeps
      between calls: the 3 x FILTS magnitude matrix, `flux`, `ltau` and `globalMags`. */
  datatype Scratch = Scratch(mag: seq<seq<real>>, flux: real, ltau: seq<real>, globalMags: seq<real>)

  predicate ScratchOk(sc: Scratch)
  {
    && |sc.mag| == 3 && RowOk(sc.mag[0]) && RowOk(sc.mag[1]) && RowOk(sc.mag[2])
    && |sc.ltau| == 2 && RowOk(sc.globalMags)
  }

  /** calcPost's local copy of the star together with the scratch storage. */
  datatype Trial = Trial(star: Star, sc: Scratch)

  predicate TrialOk(t: Trial)
  {
    StarOk(t.star) && ScratchOk(t.sc)
  }

  /** A scored trial: the log posterior of the star as the trial left it. */
  datatype Scored = Scored(logPost: real, trial: Trial)

  // ---------------------------------------------------------------------------------------
  // One trial companion

  /** One companion trial: record the mass ratio, reset the companion's global magnitudes, current
      mass, precursor age and WD temperature, classify the companion of mass `mass1`, combine the
      two components and score the star. */
  function TrialSpec(ctx: Context, clusterAv: real, massRatio: real, mass1: real, t: Trial): (r: Scored)
    requires ContextOk(ctx) && TrialOk(t)
    ensures TrialOk(r.trial)
  {
    var gm := FillBands(t.sc.globalMags, ctx.filters, SENTINEL);
    var s := t.star.(massRatio := massRatio, massNow := t.star.massNow[1 := 0.0],
                     wdLogTeff := t.star.wdLogTeff[1 := 0.0]);
    var o := SetMagsSpec(ctx.env, ctx.cluster, ctx.filters, t.sc.mag[1], 1, mass1, s, 0.0, gm);
    var mag := t.sc.mag[1 := o.mag];
    var c := CombineSpec(ctx.env, ctx.cluster, clusterAv, ctx.filters, mag, t.sc.flux, o.star);
    Scored(ctx.env.logPost1Star(c.star),
           Trial(c.star, Scratch(mag[2 := c.row], c.flux, t.sc.ltau[1 := o.ltau], o.globalMags)))
  }

  method RunTrial(ctx: Context, clusterAv: real, massRatio: real, mass1: real, t: Trial) returns (r: Scored)
    requires ContextOk(ctx) && TrialOk(t)
    ensures r == TrialSpec(ctx, clusterAv, massRatio, mass1, t)
  {
    var star := t.star.(massRatio := massRatio);
    var globalMags := WriteBands(t.sc.globalMags, ctx.filters, SENTINEL);
    star := star.(massNow := star.massNow[1 := 0.0]);
    var ltau := t.sc.ltau[1 := 0.0];
    star := star.(wdLogTeff := star.wdLogTeff[1 := 0.0]);
    var o := SetMags(ctx.env, ctx.cluster, ctx.filters, t.sc.mag[1], 1, mass1, star, ltau[1], globalMags);
    var mag := t.sc.mag[1 := o.mag];
    var c := DeriveCombinedMags(ctx.env, ctx.cluster, clusterAv, ctx.filters, mag, t.sc.flux, o.star);
    var logPost := ctx.env.logPost1Star(c.star);
    r := Scored(logPost, Trial(c.star, Scratch(mag[2 := c.row], c.flux, ltau[1 := o.ltau], o.globalMags)));
  }

  /** A companion of zero mass, the one margEvolveWithBinary always passes, does not exist: its
      status is DNE, its current mass, precursor age and requested magnitudes are reset, and the
      combined magnitudes are the primary's, shifted by distance modulus and extinction. */
  lemma ZeroMassCompanionIsAbsent(ctx: Context, clusterAv: real, massRatio: real, t: Trial)
    requires ContextOk(ctx) && TrialOk(t)
    ensures var r := TrialSpec(ctx, clusterAv, massRatio, 0.0, t);
      && r.trial.star.status[1] == DNE
      && r.trial.star.massNow[1] == 0.0
      && r.trial.star.massRatio == massRatio
      && r.trial.sc.ltau[1] == 0.0
      && (forall f :: f in ctx.filters ==> r.trial.sc.mag[1][f] == SENTINEL)
      && r.trial.sc.mag[0] == t.sc.mag[0]
      && (Distinct(ctx.filters) ==>
            forall q :: 0 <= q < |ctx.filters| ==>
              r.trial.star.photometry[q] == t.sc.mag[0][ctx.filters[q]] + Shift(ctx.env, ctx.cluster, clusterAv, ctx.filters[q]))
  {
    var filters := ctx.filters;
    var gm := FillBands(t.sc.globalMags, filters, SENTINEL);
    var s := t.star.(massRatio := massRatio, massNow := t.star.massNow[1 := 0.0],
                     wdLogTeff := t.star.wdLogTeff[1 := 0.0]);
    var o := SetMagsSpec(ctx.env, ctx.cluster, filters, t.sc.mag[1], 1, 0.0, s, 0.0, gm);
    var mag := t.sc.mag[1 := o.mag];
    assert Classify(0.0, ctx.cluster) == NonExistent;
    SetMagsBranches(ctx.env, ctx.cluster, filters, t.sc.mag[1], 1, 0.0, s, 0.0, gm);
    assert filters[0] in filters;
    assert !HasSecondary(mag[1], filters);
    if Distinct(filters) {
      forall q | 0 <= q < |filters|
        ensures TrialSpec(ctx, clusterAv, massRatio, 0.0, t).trial.star.photometry[q]
                == t.sc.mag[0][filters[q]] + Shift(ctx.env, ctx.cluster, clusterAv, filters[q])
      {
        CombinedOnDistinctBands(ctx.env, ctx.cluster, clusterAv, filters, mag, t.sc.flux, o.star, q);
      }
    }
  }

  // ---------------------------------------------------------------------------------------
  // The okMass pre-screen

  /** `int okMass[MAX_ENTRIES] = { 1 };`: only the first entry starts as a candidate. */
  function InitialMask(): (ok: seq<int>)
    ensures |ok| == MAX_ENTRIES
  {
    seq(MAX_ENTRIES, i => if i == 0 then 1 else 0)
  }

  /** The running state of the pre-screen loop over the requested bands. */
  datatype MaskState = MaskState(ok: seq<int>, isOverlap: bool, obsFilt: int, combined: seq<real>)

  /** `diffLow`: the flux of the observation N_SD standard deviations brighter, less the primary's
      flux; the most light a companion may add in this band. */
  function LowerGap(ctx: Context, star: Star, obsFilt: int, primaryMag: real): real
    requires StarOk(star) && 0 <= obsFilt < FILTS
  {
    ctx.env.exp10((star.obsPhot[obsFilt] - N_SD * ctx.env.sqrt(star.variance[obsFilt])) / -2.5)
    - ctx.env.exp10(primaryMag / -2.5)
  }

  /** `diffUp`: the same with the observation N_SD standard deviations fainter; the least light a
      companion may add. */
  function UpperGap(ctx: Context, star: Star, obsFilt: int, primaryMag: real): real
    requires StarOk(star) && 0 <= obsFilt < FILTS
  {
    ctx.env.exp10((star.obsPhot[obsFilt] + N_SD * ctx.env.sqrt(star.variance[obsFilt])) / -2.5)
    - ctx.env.exp10(primaryMag / -2.5)
  }

  /** The faint or bright edge of the window a companion's magnitude must fall in. */
  function MagEdge(ctx: Context, gap: real): real
  {
    -2.5 * ctx.env.log10(gap)
  }

  /** Whether isochrone entry i survives band f: its magnitude lies in [lower, upper] and its mass
      does not exceed the primary's. */
  predicate Keeps(ctx: Context, i: int, f: int, lower: real, upper: real, mass0: real)
    requires IsoOk(ctx.iso) && 0 <= i < |ctx.iso.mass| && 0 <= f < FILTS
  {
    ctx.iso.mag[i][f] >= lower && ctx.iso.mag[i][f] <= upper && ctx.iso.mass[i] <= mass0
  }

  /** The mask after screening band f: entries below nEntries - 1 that fail are cleared, the
      rest are kept as they were. */
  function Narrowed(ctx: Context, ok: seq<int>, f: int, lower: real, upper: real, mass0: real): (r: seq<int>)
    requires IsoOk(ctx.iso) && |ok| == MAX_ENTRIES && 0 <= f < FILTS
    ensures |r| == MAX_ENTRIES
  {
    seq(MAX_ENTRIES, i requires 0 <= i < MAX_ENTRIES =>
      if i < |ctx.iso.mass| - 1 && !Keeps(ctx, i, f, lower, upper, mass0) then 0 else ok[i])
  }

  /** One iteration of the pre-screen loop, for band f. Once the allowed windows stop overlapping,
      nothing changes any more. */
  function MaskStep(ctx: Context, row0: seq<real>, mass0: real, star: Star, st: MaskState, f: int): (r: MaskState)
    requires ContextOk(ctx) && RowOk(row0) && StarOk(star) && 0 <= f < FILTS
    requires |st.ok| == MAX_ENTRIES && 0 <= st.obsFilt < FILTS && RowOk(st.combined)
    ensures |r.ok| == MAX_ENTRIES && RowOk(r.combined)
  {
    if !st.isOverlap then st
    else
      var diffLow := LowerGap(ctx, star, st.obsFilt, row0[f]);
      var diffUp := UpperGap(ctx, star, st.obsFilt, row0[f]);
      if diffLow <= 0.0 || diffUp <= 0.0 || diffLow == diffUp then
        MaskState(st.ok, false, st.obsFilt + 1, CopyBands(st.combined, row0, ctx.filters))
      else
        MaskState(Narrowed(ctx, st.ok, f, MagEdge(ctx, diffLow), MagEdge(ctx, diffUp), mass0),
                  true, st.obsFilt + 1, st.combined)
  }

  /** The pre-screen state after the first p requested bands. While the windows overlap, the
      observed band index runs in step with the requested band index. */
  function MaskAfter(ctx: Context, row0: seq<real>, mass0: real, star: Star, combined0: seq<real>, p: nat): (r: MaskState)
    requires ContextOk(ctx) && RowOk(row0) && StarOk(star) && RowOk(combined0) && p <= |ctx.filters|
    ensures |r.ok| == MAX_ENTRIES && RowOk(r.combined)
    ensures 0 <= r.obsFilt <= p
    ensures r.isOverlap ==> r.obsFilt == p
  {
    if p == 0 then MaskState(InitialMask(), true, 0, combined0)
    else
      var prev := MaskAfter(ctx, row0, mass0, star, combined0, p - 1);
      MaskStep(ctx, row0, mass0, star, prev, ctx.filters[p - 1])
  }

  /** The inner loop of the pre-screen: clear every entry below nEntries - 1 that band f rejects. */
  method NarrowMask(ctx: Context, okMass: array<int>, f: int, magLower: real, magUpper: real, mass0: real)
    requires IsoOk(ctx.iso) && okMass.Length == MAX_ENTRIES && 0 <= f < FILTS
    modifies okMass
    ensures okMass[..] == Narrowed(ctx, old(okMass[..]), f, magLower, magUpper, mass0)
  {
    var iso := ctx.iso;
    var i := 0;
    while i < |iso.mass| - 1
      invariant 0 <= i <= |iso.mass| - 1
      invariant forall j :: 0 <= j < MAX_ENTRIES ==>
        okMass[j] == if j < i then Narrowed(ctx, old(okMass[..]), f, magLower, magUpper, mass0)[j] else old(okMass[j])
    {
      if iso.mag[i][f] >= magLower && iso.mag[i][f] <= magUpper && iso.mass[i] <= mass0 {
        okMass[i] := okMass[i] * 1;
      } else {
        okMass[i] := 0;
      }
      i := i + 1;
    }
  }

  /** One pass of the pre-screen loop, for band f: the buffer and the loop variables move as
      MaskStep says. */
  method ScreenBand(ctx: Context, row0: seq<real>, mass0: real, star: Star, okMass: array<int>,
                    isOverlap: bool, obsFilt: int, combined: seq<real>, f: int)
    returns (isOverlap': bool, obsFilt': int, combined': seq<real>)
    requires ContextOk(ctx) && RowOk(row0) && StarOk(star) && 0 <= f < FILTS
    requires okMass.Length == MAX_ENTRIES && 0 <= obsFilt < FILTS && RowOk(combined)
    modifies okMass
    ensures var r := MaskStep(ctx, row0, mass0, star, MaskState(old(okMass[..]), isOverlap, obsFilt, combined), f);
      okMass[..] == r.ok && isOverlap' == r.isOverlap && obsFilt' == r.obsFilt && combined' == r.combined
  {
    isOverlap', obsFilt', combined' := isOverlap, obsFilt, combined;
    if isOverlap {
      var diffLow := ctx.env.exp10((star.obsPhot[obsFilt] - N_SD * ctx.env.sqrt(star.variance[obsFilt])) / -2.5)
                     - ctx.env.exp10(row0[f] / -2.5);
      var diffUp := ctx.env.exp10((star.obsPhot[obsFilt] + N_SD * ctx.env.sqrt(star.variance[obsFilt])) / -2.5)
                    - ctx.env.exp10(row0[f] / -2.5);
      assert diffLow == LowerGap(ctx, star, obsFilt, row0[f]) && diffUp == UpperGap(ctx, star, obsFilt, row0[f]);
      if diffLow <= 0.0 || diffUp <= 0.0 || diffLow == diffUp {
        isOverlap' := false;
        combined' := CopyBandsFrom(combined, row0, ctx.filters);
      } else {
        var magLower := -2.5 * ctx.env.log10(diffLow);
        var magUpper := -2.5 * ctx.env.log10(diffUp);
        NarrowMask(ctx, okMass, f, magLower, magUpper, mass0);
      }
      obsFilt' := obsFilt + 1;
    }
  }

  /** The pre-screen loop, on the fixed-size `okMass` buffer. */
  method OkMasses(ctx: Context, row0: seq<real>, mass0: real, star: Star, combined0: seq<real>) returns (st: MaskState)
    requires ContextOk(ctx) && RowOk(row0) && StarOk(star) && RowOk(combined0)
    ensures st == MaskAfter(ctx, row0, mass0, star, combined0, |ctx.filters|)
  {
    var okMass := new int[MAX_ENTRIES](i => if i == 0 then 1 else 0);
    var isOverlap := true;
    var obsFilt := 0;
    var combined := combined0;
    var p := 0;
    assert okMass[..] == InitialMask();
    while p < |ctx.filters|
      invariant 0 <= p <= |ctx.filters| && okMass.Length == MAX_ENTRIES
      invariant okMass[..] == MaskAfter(ctx, row0, mass0, star, combined0, p).ok
      invariant isOverlap == MaskAfter(ctx, row0, mass0, star, combined0, p).isOverlap
      invariant obsFilt == MaskAfter(ctx, row0, mass0, star, combined0, p).obsFilt
      invariant combined == MaskAfter(ctx, row0, mass0, star, combined0, p).combined
    {
      isOverlap, obsFilt, combined := ScreenBand(ctx, row0, mass0, star, okMass, isOverlap, obsFilt, combined, ctx.filters[p]);
      p := p + 1;
    }
    st := MaskState(okMass[..], isOverlap, obsFilt, combined);
  }

  /** The pre-screen only ever clears entries: every entry is 0 or still its initial value, so no
      entry but the first can ever be a candidate companion. */
  lemma {:induction false} MaskOnlyClears(ctx: Context, row0: seq<real>, mass0: real, star: Star, combined0: seq<real>, p: nat)
    requires ContextOk(ctx) && RowOk(row0) && StarOk(star) && RowOk(combined0) && p <= |ctx.filters|
    ensures var ok := MaskAfter(ctx, row0, mass0, star, combined0, p).ok;
      forall i :: 0 <= i < MAX_ENTRIES ==> ok[i] == 0 || ok[i] == InitialMask()[i]
    ensures forall i :: 1 <= i < MAX_ENTRIES ==> MaskAfter(ctx, row0, mass0, star, combined0, p).ok[i] == 0
  {
    if p > 0 {
      MaskOnlyClears(ctx, row0, mass0, star, combined0, p - 1);
    }
  }

  /** The bounds of the window band q imposes, with the observed band index equal to q. */
  predicate InWindow(ctx: Context, row0: seq<real>, mass0: real, star: Star, q: nat, i: nat)
    requires ContextOk(ctx) && RowOk(row0) && StarOk(star) && q < |ctx.filters| && i < |ctx.iso.mass|
  {
    var f := ctx.filters[q];
    Keeps(ctx, i, f, MagEdge(ctx, LowerGap(ctx, star, q, row0[f])), MagEdge(ctx, UpperGap(ctx, star, q, row0[f])), mass0)
  }

  /** An entry still marked after p bands (other than the unscreened last one) lies in the window
      of every band whose windows still overlapped, and is no heavier than the primary whenever
      at least one band was screened. */
  lemma {:induction false} MaskKeepsOnlyWindowed(ctx: Context, row0: seq<real>, mass0: real, star: Star,
                                                 combined0: seq<real>, p: nat, i: nat)
    requires ContextOk(ctx) && RowOk(row0) && StarOk(star) && RowOk(combined0) && p <= |ctx.filters|
    requires i < |ctx.iso.mass| - 1 && MaskAfter(ctx, row0, mass0, star, combined0, p).ok[i] != 0
    ensures forall q :: 0 <= q < p && MaskAfter(ctx, row0, mass0, star, combined0, q + 1).isOverlap ==>
      InWindow(ctx, row0, mass0, star, q, i)
  {
    if p > 0 {
      var prev := MaskAfter(ctx, row0, mass0, star, combined0, p - 1);
      assert prev.ok[i] != 0;
      MaskKeepsOnlyWindowed(ctx, row0, mass0, star, combined0, p - 1, i);
    }
  }

  /** Once the windows stop overlapping, later bands change nothing; the band at which they stop
      leaves the mask as it was, so entries already marked are still evaluated. */
  lemma {:induction false} MaskFrozenAfterFailure(ctx: Context, row0: seq<real>, mass0: real, star: Star,
                                                  combined0: seq<real>, p: nat, q: nat)
    requires ContextOk(ctx) && RowOk(row0) && StarOk(star) && RowOk(combined0) && p <= q <= |ctx.filters|
    requires !MaskAfter(ctx, row0, mass0, star, combined0, p).isOverlap
    ensures MaskAfter(ctx, row0, mass0, star, combined0, q) == MaskAfter(ctx, row0, mass0, star, combined0, p)
    decreases q - p
  {
    if q > p {
      MaskFrozenAfterFailure(ctx, row0, mass0, star, combined0, p, q - 1);
    }
  }

  lemma FailingBandKeepsMask(ctx: Context, row0: seq<real>, mass0: real, star: Star, combined0: seq<real>, q: nat)
    requires ContextOk(ctx) && RowOk(row0) && StarOk(star) && RowOk(combined0) && q < |ctx.filters|
    requires MaskAfter(ctx, row0, mass0, star, combined0, q).isOverlap
    requires !MaskAfter(ctx, row0, mass0, star, combined0, q + 1).isOverlap
    ensures MaskAfter(ctx, row0, mass0, star, combined0, q + 1).ok == MaskAfter(ctx, row0, mass0, star, combined0, q).ok
    ensures MaskAfter(ctx, row0, mass0, star, combined0, q + 1).combined
            == CopyBands(MaskAfter(ctx, row0, mass0, star, combined0, q).combined, row0, ctx.filters)
  {
  }

  // ---------------------------------------------------------------------------------------
  // The posterior terms

  /** The no-companion term: exp(logPost + log dMass + log(mass_iso[0] / mass0)). */
  function BaselineTerm(ctx: Context, dMass: real, mass0: real, logPost: real): real
    requires IsoOk(ctx.iso) && mass0 > 0.0
  {
    ctx.env.exp(logPost + ctx.env.log(dMass) + ctx.env.log(ctx.iso.mass[0] / mass0))
  }

  /** The term of companion entry i: exp(logPost + log dMass + log((mass_iso[i+1] - mass_iso[i]) / mass0)). */
  function CompanionTerm(ctx: Context, dMass: real, mass0: real, i: nat, logPost: real): real
    requires IsoOk(ctx.iso) && mass0 > 0.0 && i + 1 < |ctx.iso.mass|
  {
    ctx.env.exp(logPost + ctx.env.log(dMass) + ctx.env.log((ctx.iso.mass[i + 1] - ctx.iso.mass[i]) / mass0))
  }

  /** The companion loop from entry i on: each marked entry below nEntries - 2 runs a trial with
      mass ratio mass0 / mass_iso[i] on the state the previous trial left, and adds its term. */
  function CompanionsFrom(ctx: Context, clusterAv: real, dMass: real, mass0: real, mass1: real,
                          ok: seq<int>, i: nat, t: Trial): (r: (real, Trial))
    requires ContextOk(ctx) && TrialOk(t) && mass0 > 0.0 && |ok| == MAX_ENTRIES
    ensures TrialOk(r.1)
    decreases |ctx.iso.mass| - i
  {
    if i >= |ctx.iso.mass| - 2 then (0.0, t)
    else if ok[i] != 0 then
      var s := TrialSpec(ctx, clusterAv, mass0 / ctx.iso.mass[i], mass1, t);
      var rest := CompanionsFrom(ctx, clusterAv, dMass, mass0, mass1, ok, i + 1, s.trial);
      (CompanionTerm(ctx, dMass, mass0, i, s.logPost) + rest.0, rest.1)
    else CompanionsFrom(ctx, clusterAv, dMass, mass0, mass1, ok, i + 1, t)
  }

  /** The trial state after classifying the primary (calcPost up to its first setMags). */
  function AfterPrimary(ctx: Context, mass0: real, star: Star, sc: Scratch): (t: Trial)
    requires ContextOk(ctx) && StarOk(star) && ScratchOk(sc)
    ensures TrialOk(t)
  {
    var o := SetMagsSpec(ctx.env, ctx.cluster, ctx.filters, sc.mag[0], 0, mass0, star.(mass1 := mass0),
                         sc.ltau[0], sc.globalMags);
    Trial(o.star, Scratch(sc.mag[0 := o.mag], sc.flux, sc.ltau[0 := o.ltau], o.globalMags))
  }

  /** The mask calcPost computes after its baseline trial. */
  function MaskOf(ctx: Context, mass0: real, b: Scored): (m: MaskState)
    requires ContextOk(ctx) && TrialOk(b.trial)
    ensures |m.ok| == MAX_ENTRIES && RowOk(m.combined)
  {
    MaskAfter(ctx, b.trial.sc.mag[0], mass0, b.trial.star, b.trial.sc.mag[2], |ctx.filters|)
  }

  /** `calcPost` as a function of its inputs: the posterior it returns and the scratch storage it
      leaves. The star is taken by value and its changes are dropped. */
  function CalcPostSpec(ctx: Context, clusterAv: real, dMass: real, mass0: real, mass1: real,
                        star: Star, sc: Scratch): (r: (real, Scratch))
    requires ContextOk(ctx) && StarOk(star) && ScratchOk(sc) && mass0 > 0.0
    ensures ScratchOk(r.1)
  {
    var b := TrialSpec(ctx, clusterAv, 0.0, mass1, AfterPrimary(ctx, mass0, star, sc));
    var m := MaskOf(ctx, mass0, b);
    var t := b.trial.(sc := b.trial.sc.(mag := b.trial.sc.mag[2 := m.combined]));
    var cs := CompanionsFrom(ctx, clusterAv, dMass, mass0, mass1, m.ok, 0, t);
    (0.0 + BaselineTerm(ctx, dMass, mass0, b.logPost) + cs.0, cs.1.sc)
  }

  /** `calcPost`: `mass` is the pair (mass0, mass1); the matrix, `flux`, `ltau` and `globalMags`
      come in as `sc` and go out as the second result. */
  method CalcPost(ctx: Context, clusterAv: real, dMass: real, mass0: real, mass1: real, star: Star, sc: Scratch)
    returns (post: real, sc': Scratch)
    requires ContextOk(ctx) && StarOk(star) && ScratchOk(sc) && mass0 > 0.0
    ensures post == CalcPostSpec(ctx, clusterAv, dMass, mass0, mass1, star, sc).0
    ensures sc' == CalcPostSpec(ctx, clusterAv, dMass, mass0, mass1, star, sc).1
  {
    post := 0.0;
    var s := star.(mass1 := mass0);
    var o := SetMags(ctx.env, ctx.cluster, ctx.filters, sc.mag[0], 0, mass0, s, sc.ltau[0], sc.globalMags);
    var t := Trial(o.star, Scratch(sc.mag[0 := o.mag], sc.flux, sc.ltau[0 := o.ltau], o.globalMags));
    assert t == AfterPrimary(ctx, mass0, star, sc);

    var b := RunTrial(ctx, clusterAv, 0.0, mass1, t);
    var tmpLogPost := b.logPost;
    tmpLogPost := tmpLogPost + ctx.env.log(dMass);
    tmpLogPost := tmpLogPost + ctx.env.log(ctx.iso.mass[0] / mass0);
    post := post + ctx.env.exp(tmpLogPost);

    assert b == TrialSpec(ctx, clusterAv, 0.0, mass1, AfterPrimary(ctx, mass0, star, sc));
    assert post == 0.0 + BaselineTerm(ctx, dMass, mass0, b.logPost);
    var m := OkMasses(ctx, b.trial.sc.mag[0], mass0, b.trial.star, b.trial.sc.mag[2]);
    assert m == MaskOf(ctx, mass0, b);
    t := b.trial.(sc := b.trial.sc.(mag := b.trial.sc.mag[2 := m.combined]));

    post, t := AddCompanions(ctx, clusterAv, dMass, mass0, mass1, m.ok, post, t);
    sc' := t.sc;
  }

  /** The companion loop of calcPost, adding each marked entry's term to the running posterior. */
  method AddCompanions(ctx: Context, clusterAv: real, dMass: real, mass0: real, mass1: real,
                       ok: seq<int>, post0: real, t0: Trial)
    returns (post: real, t: Trial)
    requires ContextOk(ctx) && TrialOk(t0) && mass0 > 0.0 && |ok| == MAX_ENTRIES
    ensures post == post0 + CompanionsFrom(ctx, clusterAv, dMass, mass0, mass1, ok, 0, t0).0
    ensures t == CompanionsFrom(ctx, clusterAv, dMass, mass0, mass1, ok, 0, t0).1
  {
    post := post0;
    t := t0;
    var i := 0;
    ghost var total := CompanionsFrom(ctx, clusterAv, dMass, mass0, mass1, ok, 0, t0);
    while i < |ctx.iso.mass| - 2
      invariant 0 <= i <= |ctx.iso.mass| - 2 && TrialOk(t)
      invariant total.0 == post - post0 + CompanionsFrom(ctx, clusterAv, dMass, mass0, mass1, ok, i, t).0
      invariant total.1 == CompanionsFrom(ctx, clusterAv, dMass, mass0, mass1, ok, i, t).1
    {
      post, t := AddCompanion(ctx, clusterAv, dMass, mass0, mass1, ok, i, post, t);
      i := i + 1;
    }
  }

  /** One pass of the companion loop, for entry i: a marked entry runs its trial and adds its
      term; what is left of the loop then accounts for the rest. */
  method AddCompanion(ctx: Context, clusterAv: real, dMass: real, mass0: real, mass1: real,
                      ok: seq<int>, i: nat, post: real, t: Trial)
    returns (post': real, t': Trial)
    requires ContextOk(ctx) && TrialOk(t) && mass0 > 0.0 && |ok| == MAX_ENTRIES && i < |ctx.iso.mass| - 2
    ensures TrialOk(t')
    ensures post' - post + CompanionsFrom(ctx, clusterAv, dMass, mass0, mass1, ok, i + 1, t').0
            == CompanionsFrom(ctx, clusterAv, dMass, mass0, mass1, ok, i, t).0
    ensures CompanionsFrom(ctx, clusterAv, dMass, mass0, mass1, ok, i + 1, t').1
            == CompanionsFrom(ctx, clusterAv, dMass, mass0, mass1, ok, i, t).1
  {
    post', t' := post, t;
    if ok[i] != 0 {
      var c := RunTrial(ctx, clusterAv, mass0 / ctx.iso.mass[i], mass1, t);
      var tmpLogPost := c.logPost;
      tmpLogPost := tmpLogPost + ctx.env.log(dMass);
      tmpLogPost := tmpLogPost + ctx.env.log((ctx.iso.mass[i + 1] - ctx.iso.mass[i]) / mass0);
      assert ctx.env.exp(tmpLogPost) == CompanionTerm(ctx, dMass, mass0, i, c.logPost);
      post' := post' + ctx.env.exp(tmpLogPost);
      t' := c.trial;
    }
  }

  /** With only the first entry able to pass the pre-screen, the companion loop from entry i >= 1
      adds nothing and leaves the state alone. */
  lemma {:induction false} CompanionsSkipUnmarked(ctx: Context, clusterAv: real, dMass: real, mass0: real, mass1: real,
                                                  ok: seq<int>, i: nat, t: Trial)
    requires ContextOk(ctx) && TrialOk(t) && mass0 > 0.0 && |ok| == MAX_ENTRIES && i >= 1
    requires forall j :: 1 <= j < MAX_ENTRIES ==> ok[j] == 0
    ensures CompanionsFrom(ctx, clusterAv, dMass, mass0, mass1, ok, i, t) == (0.0, t)
    decreases |ctx.iso.mass| - i
  {
    if i < |ctx.iso.mass| - 2 {
      CompanionsSkipUnmarked(ctx, clusterAv, dMass, mass0, mass1, ok, i + 1, t);
    }
  }

  /** The posterior of one primary mass is its no-companion term plus at most one companion term,
      for isochrone entry 0, taken only when that entry passed every screened band. */
  lemma CalcPostHasAtMostOneCompanion(ctx: Context, clusterAv: real, dMass: real, mass0: real, mass1: real,
                                      star: Star, sc: Scratch)
    requires ContextOk(ctx) && StarOk(star) && ScratchOk(sc) && mass0 > 0.0
    ensures var b := TrialSpec(ctx, clusterAv, 0.0, mass1, AfterPrimary(ctx, mass0, star, sc));
      var m := MaskOf(ctx, mass0, b);
      var t := b.trial.(sc := b.trial.sc.(mag := b.trial.sc.mag[2 := m.combined]));
      CalcPostSpec(ctx, clusterAv, dMass, mass0, mass1, star, sc).0
      == BaselineTerm(ctx, dMass, mass0, b.logPost)
         + if |ctx.iso.mass| > 2 && m.ok[0] != 0
           then CompanionTerm(ctx, dMass, mass0, 0, TrialSpec(ctx, clusterAv, mass0 / ctx.iso.mass[0], mass1, t).logPost)
           else 0.0
  {
    var b := TrialSpec(ctx, clusterAv, 0.0, mass1, AfterPrimary(ctx, mass0, star, sc));
    var m := MaskOf(ctx, mass0, b);
    var t := b.trial.(sc := b.trial.sc.(mag := b.trial.sc.mag[2 := m.combined]));
    MaskOnlyClears(ctx, b.trial.sc.mag[0], mass0, b.trial.star, b.trial.sc.mag[2], |ctx.filters|);
    if |ctx.iso.mass| > 2 && m.ok[0] != 0 {
      var s := TrialSpec(ctx, clusterAv, mass0 / ctx.iso.mass[0], mass1, t);
      CompanionsSkipUnmarked(ctx, clusterAv, dMass, mass0, mass1, m.ok, 1, s.trial);
    } else {
      CompanionsSkipUnmarked(ctx, clusterAv, dMass, mass0, mass1, m.ok, 1, t);
    }
  }
}
