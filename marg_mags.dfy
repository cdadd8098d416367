/** The per-component magnitude steps of the binary marginalisation (marg.cpp): `setMags`, which
    classifies one component by mass and fills its magnitude row, and `deriveCombinedMags`, which
    combines the two components and shifts the result by distance modulus and extinction. */
module MargMags {
  import opened Bands

  /** Evolutionary status of one component (Star.hpp is not part of this model). */
  datatype Status = MSRG | WD | NSBH | DNE | BD

  /** The cluster parameters marg.cpp reads. */
  datatype Cluster = Cluster(AGBt_zmass: real, M_wd_up: real, mod: real, abs: real)

  /** The star record marg.cpp reads and writes: `mass1` is what `setMass1` sets, the two-entry
      sequences are per component, the FILTS-entry ones per band. */
  datatype Star = Star(
    mass1: real,
    massRatio: real,
    status: seq<Status>,
    massNow: seq<real>,
    wdLogTeff: seq<real>,
    photometry: seq<real>,
    obsPhot: seq<real>,
    variance: seq<real>)

  predicate StarOk(star: Star)
  {
    && |star.status| == 2 && |star.massNow| == 2 && |star.wdLogTeff| == 2
    && |star.photometry| == FILTS && |star.obsPhot| == FILTS && |star.variance| == FILTS
  }

  /** What `wdEvol` hands back: the precursor age, the global magnitude row it fills and the star
      it updates through its reference parameter (the component's status, current mass and
      white-dwarf temperature are set there, not by setMags). */
  datatype WdOut = WdOut(ltau: real, globalMags: seq<real>, star: Star)

  /** The collaborators whose bodies are not part of this model (`msRgbEvol`, `wdEvol`,
      `calcAbsCoeffs`, `logPost1Star`) and the transcendental functions, as uninterpreted
      total functions. */
  datatype Env = Env(
    msRgbEvol: (seq<int>, real) -> seq<real>,
    wdEvol: (Star, int, seq<real>) -> WdOut,
    absCoeffs: seq<real>,
    logPost1Star: Star -> real,
    exp10: real -> real,
    log10: real -> real,
    exp: real -> real,
    log: real -> real,
    sqrt: real -> real)

  /** The collaborators return rows of the fixed width. */
  ghost predicate EnvOk(env: Env)
  {
    && |env.absCoeffs| == FILTS
    && (forall fs, m :: RowOk(env.msRgbEvol(fs, m)))
    && (forall s, c, g :: RowOk(g) ==> RowOk(env.wdEvol(s, c, g).globalMags))
    && (forall s, c, g :: StarOk(s) ==> StarOk(env.wdEvol(s, c, g).star))
  }

  // ---------------------------------------------------------------------------------------
  // setMags

  /** The five branches of setMags, in increasing order of mass. */
  datatype MassClass = NonExistent | MainSequenceGiant | WhiteDwarf | Remnant | TooMassive

  /** The branch setMags takes: each threshold belongs to the branch below it. */
  function Classify(mass: real, cluster: Cluster): MassClass
  {
    if mass <= 0.0001 then NonExistent
    else if mass <= cluster.AGBt_zmass then MainSequenceGiant
    else if mass <= cluster.M_wd_up then WhiteDwarf
    else if mass <= 100.0 then Remnant
    else TooMassive
  }

  function Rank(c: MassClass): nat
  {
    match c
    case NonExistent => 0
    case MainSequenceGiant => 1
    case WhiteDwarf => 2
    case Remnant => 3
    case TooMassive => 4
  }

  /** A heavier component never falls in an earlier branch. */
  lemma ClassifyMonotone(m1: real, m2: real, cluster: Cluster)
    requires m1 <= m2
    ensures Rank(Classify(m1, cluster)) <= Rank(Classify(m2, cluster))
  {
  }

  /** A mass exactly at the AGB-tip boundary is a main-sequence or giant star, not a white dwarf;
      a mass exactly at the white-dwarf upper limit is still a white dwarf. */
  lemma BoundariesInclusive(cluster: Cluster)
    ensures 0.0001 < cluster.AGBt_zmass ==> Classify(cluster.AGBt_zmass, cluster) == MainSequenceGiant
    ensures cluster.AGBt_zmass < cluster.M_wd_up && 0.0001 < cluster.M_wd_up ==>
      Classify(cluster.M_wd_up, cluster) == WhiteDwarf
  {
  }

  /** A row with every requested slot set to `value` and every other slot kept. */
  function FillBands(row: seq<real>, filters: seq<int>, value: real): (r: seq<real>)
    requires RowOk(row) && FiltersOk(filters)
    ensures RowOk(r)
  {
    seq(FILTS, k requires 0 <= k < FILTS => if k in filters then value else row[k])
  }

  /** A row with every requested slot copied from `src` and every other slot kept. */
  function CopyBands(row: seq<real>, src: seq<real>, filters: seq<int>): (r: seq<real>)
    requires RowOk(row) && RowOk(src) && FiltersOk(filters)
    ensures RowOk(r)
  {
    seq(FILTS, k requires 0 <= k < FILTS => if k in filters then src[k] else row[k])
  }

  /** Everything setMags writes through its reference parameters. */
  datatype SetMagsOut = SetMagsOut(mag: seq<real>, star: Star, ltau: real, globalMags: seq<real>)

  /** `setMags` as a function of its inputs. */
  function SetMagsSpec(env: Env, cluster: Cluster, filters: seq<int>, mag: seq<real>, cmpnt: nat, mass: real,
                       star: Star, ltau: real, globalMags: seq<real>): (out: SetMagsOut)
    requires EnvOk(env) && FiltersOk(filters) && RowOk(mag) && RowOk(globalMags) && StarOk(star) && cmpnt < 2
    ensures RowOk(out.mag) && RowOk(out.globalMags) && StarOk(out.star)
  {
    match Classify(mass, cluster)
    case NonExistent =>
      SetMagsOut(FillBands(mag, filters, SENTINEL),
                 star.(status := star.status[cmpnt := DNE], massNow := star.massNow[cmpnt := 0.0]),
                 ltau, globalMags)
    case MainSequenceGiant =>
      SetMagsOut(env.msRgbEvol(filters, mass),
                 star.(massNow := star.massNow[cmpnt := mass], status := star.status[cmpnt := MSRG]),
                 ltau, globalMags)
    case WhiteDwarf =>
      var w := env.wdEvol(star, cmpnt, globalMags);
      SetMagsOut(CopyBands(mag, w.globalMags, filters), w.star, w.ltau, w.globalMags)
    case Remnant =>
      SetMagsOut(FillBands(mag, filters, SENTINEL), star.(status := star.status[cmpnt := NSBH]), ltau, globalMags)
    case TooMassive =>
      SetMagsOut(FillBands(mag, filters, SENTINEL), star.(status := star.status[cmpnt := DNE]), ltau, globalMags)
  }

  /** The loop `for (auto f : filters) mag[f] = value;`. */
  method WriteBands(row: seq<real>, filters: seq<int>, value: real) returns (r: seq<real>)
    requires RowOk(row) && FiltersOk(filters)
    ensures r == FillBands(row, filters, value)
  {
    r := row;
    var i := 0;
    while i < |filters|
      invariant 0 <= i <= |filters| && RowOk(r)
      invariant forall k :: 0 <= k < FILTS ==> r[k] == if k in filters[..i] then value else row[k]
    {
      assert filters[..i + 1] == filters[..i] + [filters[i]];
      r := r[filters[i] := value];
      i := i + 1;
    }
    assert filters[..i] == filters;
  }

  /** The loop `for (auto f : filters) mag[f] = src[f];`. */
  method CopyBandsFrom(row: seq<real>, src: seq<real>, filters: seq<int>) returns (r: seq<real>)
    requires RowOk(row) && RowOk(src) && FiltersOk(filters)
    ensures r == CopyBands(row, src, filters)
  {
    r := row;
    var i := 0;
    while i < |filters|
      invariant 0 <= i <= |filters| && RowOk(r)
      invariant forall k :: 0 <= k < FILTS ==> r[k] == if k in filters[..i] then src[k] else row[k]
    {
      assert filters[..i + 1] == filters[..i] + [filters[i]];
      r := r[filters[i] := src[filters[i]]];
      i := i + 1;
    }
    assert filters[..i] == filters;
  }

  /** `setMags`: the reference parameters `mag` (one row), `pStar`, `ltau` and `globalMags` are
      passed in and handed back. */
  method SetMags(env: Env, cluster: Cluster, filters: seq<int>, mag: seq<real>, cmpnt: nat, mass: real,
                 star: Star, ltau: real, globalMags: seq<real>) returns (out: SetMagsOut)
    requires EnvOk(env) && FiltersOk(filters) && RowOk(mag) && RowOk(globalMags) && StarOk(star) && cmpnt < 2
    ensures out == SetMagsSpec(env, cluster, filters, mag, cmpnt, mass, star, ltau, globalMags)
  {
    if mass <= 0.0001 {
      var row := WriteBands(mag, filters, SENTINEL);
      var s := star.(status := star.status[cmpnt := DNE]);
      s := s.(massNow := s.massNow[cmpnt := 0.0]);
      out := SetMagsOut(row, s, ltau, globalMags);
    } else if mass <= cluster.AGBt_zmass {
      var s := star.(massNow := star.massNow[cmpnt := mass]);
      var row := env.msRgbEvol(filters, mass);
      s := s.(status := s.status[cmpnt := MSRG]);
      out := SetMagsOut(row, s, ltau, globalMags);
    } else if mass <= cluster.M_wd_up {
      var w := env.wdEvol(star, cmpnt, globalMags);
      var row := CopyBandsFrom(mag, w.globalMags, filters);
      out := SetMagsOut(row, w.star, w.ltau, w.globalMags);
    } else if mass <= 100.0 {
      var row := WriteBands(mag, filters, SENTINEL);
      out := SetMagsOut(row, star.(status := star.status[cmpnt := NSBH]), ltau, globalMags);
    } else {
      var row := WriteBands(mag, filters, SENTINEL);
      out := SetMagsOut(row, star.(status := star.status[cmpnt := DNE]), ltau, globalMags);
    }
  }

  /** The classifier's effect, branch by branch: a non-existent, remnant or over-massive
      component gets 99.999 in every requested band, a white dwarf copies the requested bands
      of the row wdEvol filled, and outside the main-sequence branch no unrequested band is
      touched. Only the non-existent and main-sequence branches set the current mass. In the
      white-dwarf branch the star, ltau and globalMags are whatever wdEvol leaves; every other
      branch keeps ltau and globalMags and touches only the component's own status and mass. */
  lemma SetMagsBranches(env: Env, cluster: Cluster, filters: seq<int>, mag: seq<real>, cmpnt: nat, mass: real,
                        star: Star, ltau: real, globalMags: seq<real>)
    requires EnvOk(env) && FiltersOk(filters) && RowOk(mag) && RowOk(globalMags) && StarOk(star) && cmpnt < 2
    ensures var out := SetMagsSpec(env, cluster, filters, mag, cmpnt, mass, star, ltau, globalMags);
      var c := Classify(mass, cluster);
      && (c in {NonExistent, Remnant, TooMassive} ==>
            forall f :: f in filters ==> out.mag[f] == SENTINEL)
      && (c == WhiteDwarf ==>
            forall f :: f in filters ==> out.mag[f] == env.wdEvol(star, cmpnt, globalMags).globalMags[f])
      && (c != MainSequenceGiant ==>
            forall k :: 0 <= k < FILTS && k !in filters ==> out.mag[k] == mag[k])
      && (c == NonExistent ==> out.star.status[cmpnt] == DNE && out.star.massNow[cmpnt] == 0.0)
      && (c == MainSequenceGiant ==> out.star.status[cmpnt] == MSRG && out.star.massNow[cmpnt] == mass)
      && (c == Remnant ==> out.star.status[cmpnt] == NSBH && out.star.massNow == star.massNow)
      && (c == TooMassive ==> out.star.status[cmpnt] == DNE && out.star.massNow == star.massNow)
      && (c == WhiteDwarf ==>
            var w := env.wdEvol(star, cmpnt, globalMags);
            out.star == w.star && out.ltau == w.ltau && out.globalMags == w.globalMags)
      && (c != WhiteDwarf ==>
            && out.ltau == ltau && out.globalMags == globalMags
            && out.star.status[1 - cmpnt] == star.status[1 - cmpnt]
            && out.star.massNow[1 - cmpnt] == star.massNow[1 - cmpnt]
            && out.star.wdLogTeff == star.wdLogTeff
            && out.star.photometry == star.photometry)
  {
    var out := SetMagsSpec(env, cluster, filters, mag, cmpnt, mass, star, ltau, globalMags);
    forall f | f in filters
      ensures 0 <= f < FILTS
    {
      var i :| 0 <= i < |filters| && filters[i] == f;
    }
  }

  // ---------------------------------------------------------------------------------------
  // deriveCombinedMags

  /** How often x occurs in s. */
  function Occ(s: seq<int>, x: int): nat
  {
    if s == [] then 0 else Occ(s[..|s| - 1], x) + (if s[|s| - 1] == x then 1 else 0)
  }

  /** Whether the secondary counts as present: its magnitude in the FIRST requested band is
      below 99. */
  predicate HasSecondary(mag1: seq<real>, filters: seq<int>)
    requires RowOk(mag1) && FiltersOk(filters) && |filters| > 0
  {
    mag1[filters[0]] < 99.0
  }

  /** The combined magnitude in band f before the shift: the flux sum of both components when a
      secondary is present, otherwise the primary's magnitude. */
  function CombinedBase(env: Env, mag0: seq<real>, mag1: seq<real>, filters: seq<int>, f: int): real
    requires RowOk(mag0) && RowOk(mag1) && FiltersOk(filters) && |filters| > 0 && 0 <= f < FILTS
  {
    if HasSecondary(mag1, filters) then -2.5 * env.log10(env.exp10(mag0[f] / -2.5) + env.exp10(mag1[f] / -2.5))
    else mag0[f]
  }

  /** The extinction added to band f: (A_f - 1) * Av. */
  function Extinction(env: Env, clusterAv: real, f: int): real
    requires EnvOk(env) && 0 <= f < FILTS
  {
    (env.absCoeffs[f] - 1.0) * clusterAv
  }

  /** The whole shift of band f: distance modulus plus extinction. */
  function Shift(env: Env, cluster: Cluster, clusterAv: real, f: int): real
    requires EnvOk(env) && 0 <= f < FILTS
  {
    cluster.mod + Extinction(env, clusterAv, f)
  }

  /** The combined row before the shift: requested bands hold CombinedBase, the rest of mag[2]
      is kept. */
  function BaseRow(env: Env, mag: seq<seq<real>>, filters: seq<int>): (r: seq<real>)
    requires FiltersOk(filters) && 0 < |filters|
    requires |mag| == 3 && RowOk(mag[0]) && RowOk(mag[1]) && RowOk(mag[2])
    ensures RowOk(r)
  {
    seq(FILTS, k requires 0 <= k < FILTS =>
      if k in filters then CombinedBase(env, mag[0], mag[1], filters, k) else mag[2][k])
  }

  /** The row after shifting the bands of `filters` in turn: each entry adds the distance
      modulus and then the extinction term to its band. */
  function ShiftedRow(env: Env, cluster: Cluster, clusterAv: real, filters: seq<int>, base: seq<real>): (r: seq<real>)
    requires EnvOk(env) && FiltersOk(filters) && RowOk(base)
    ensures RowOk(r)
  {
    if filters == [] then base
    else
      var f := filters[|filters| - 1];
      var r := ShiftedRow(env, cluster, clusterAv, filters[..|filters| - 1], base);
      r[f := r[f] + cluster.mod + Extinction(env, clusterAv, f)]
  }

  /** The photometry after the shift loop: entry q < |filters| is band filters[q] right after the
      shift of the q-th entry; later entries are kept. */
  function ShiftedPhotometry(env: Env, cluster: Cluster, clusterAv: real, filters: seq<int>,
                             base: seq<real>, photometry: seq<real>): (r: seq<real>)
    requires EnvOk(env) && FiltersOk(filters) && |filters| <= FILTS && RowOk(base) && RowOk(photometry)
    ensures RowOk(r)
  {
    seq(FILTS, q requires 0 <= q < FILTS =>
      if q < |filters| then ShiftedRow(env, cluster, clusterAv, filters[..q + 1], base)[filters[q]]
      else photometry[q])
  }

  /** What deriveCombinedMags writes: the combined row, the star (its photometry) and `flux`. */
  datatype Combined = Combined(row: seq<real>, star: Star, flux: real)

  /** `deriveCombinedMags` as a function of its inputs. */
  function CombineSpec(env: Env, cluster: Cluster, clusterAv: real, filters: seq<int>,
                       mag: seq<seq<real>>, flux: real, star: Star): (c: Combined)
    requires EnvOk(env) && FiltersOk(filters) && 0 < |filters| <= FILTS && StarOk(star)
    requires |mag| == 3 && RowOk(mag[0]) && RowOk(mag[1]) && RowOk(mag[2])
    ensures RowOk(c.row) && StarOk(c.star)
  {
    var base := BaseRow(env, mag, filters);
    var last := filters[|filters| - 1];
    Combined(
      ShiftedRow(env, cluster, clusterAv, filters, base),
      star.(photometry := ShiftedPhotometry(env, cluster, clusterAv, filters, base, star.photometry)),
      if HasSecondary(mag[1], filters) then env.exp10(mag[0][last] / -2.5) + env.exp10(mag[1][last] / -2.5) else flux)
  }

  /** The first loop of deriveCombinedMags: flux-sum both components, or copy the primary. */
  method CombineBands(env: Env, mag: seq<seq<real>>, filters: seq<int>, flux: real)
    returns (row: seq<real>, fl: real)
    requires FiltersOk(filters) && 0 < |filters|
    requires |mag| == 3 && RowOk(mag[0]) && RowOk(mag[1]) && RowOk(mag[2])
    ensures row == BaseRow(env, mag, filters)
    ensures fl == if HasSecondary(mag[1], filters)
      then env.exp10(mag[0][filters[|filters| - 1]] / -2.5) + env.exp10(mag[1][filters[|filters| - 1]] / -2.5)
      else flux
  {
    row := mag[2];
    fl := flux;
    var i := 0;
    if mag[1][filters[0]] < 99.0 {
      while i < |filters|
        invariant 0 <= i <= |filters| && RowOk(row)
        invariant forall k :: 0 <= k < FILTS ==>
          row[k] == if k in filters[..i] then CombinedBase(env, mag[0], mag[1], filters, k) else mag[2][k]
        invariant fl == if i == 0 then flux
          else env.exp10(mag[0][filters[i - 1]] / -2.5) + env.exp10(mag[1][filters[i - 1]] / -2.5)
      {
        var f := filters[i];
        fl := env.exp10(mag[0][f] / -2.5);
        fl := fl + env.exp10(mag[1][f] / -2.5);
        assert filters[..i + 1] == filters[..i] + [f];
        row := row[f := -2.5 * env.log10(fl)];
        i := i + 1;
      }
    } else {
      while i < |filters|
        invariant 0 <= i <= |filters| && RowOk(row)
        invariant forall k :: 0 <= k < FILTS ==>
          row[k] == if k in filters[..i] then CombinedBase(env, mag[0], mag[1], filters, k) else mag[2][k]
      {
        var f := filters[i];
        assert filters[..i + 1] == filters[..i] + [f];
        row := row[f := mag[0][f]];
        i := i + 1;
      }
    }
    assert filters[..i] == filters;
  }

  /** The second loop of deriveCombinedMags: add the distance modulus and the extinction to each
      requested band and record it in the star's photometry. */
  method ShiftBands(env: Env, cluster: Cluster, clusterAv: real, filters: seq<int>, base: seq<real>,
                    photometry: seq<real>)
    returns (row: seq<real>, phot: seq<real>)
    requires EnvOk(env) && FiltersOk(filters) && |filters| <= FILTS && RowOk(base) && RowOk(photometry)
    ensures row == ShiftedRow(env, cluster, clusterAv, filters, base)
    ensures phot == ShiftedPhotometry(env, cluster, clusterAv, filters, base, photometry)
  {
    row := base;
    phot := photometry;
    var i := 0;
    ShiftedNone(env, cluster, clusterAv, filters, base, photometry);
    while i < |filters|
      invariant 0 <= i <= |filters|
      invariant row == ShiftedRow(env, cluster, clusterAv, filters[..i], base)
      invariant phot == ShiftedPhotometry(env, cluster, clusterAv, filters[..i], base, photometry)
    {
      var f := filters[i];
      assert filters[..i + 1][..i] == filters[..i];
      assert FiltersOk(filters[..i + 1]);
      ShiftedStep(env, cluster, clusterAv, filters, base, photometry, i);
      var v := row[f] + cluster.mod;
      v := v + Extinction(env, clusterAv, f);
      row := row[f := v];
      phot := phot[i := v];
      i := i + 1;
    }
    assert filters[..i] == filters;
  }

  /** Before the loop nothing is shifted. */
  lemma ShiftedNone(env: Env, cluster: Cluster, clusterAv: real, filters: seq<int>, base: seq<real>,
                    photometry: seq<real>)
    requires EnvOk(env) && FiltersOk(filters) && |filters| <= FILTS && RowOk(base) && RowOk(photometry)
    ensures ShiftedRow(env, cluster, clusterAv, filters[..0], base) == base
    ensures ShiftedPhotometry(env, cluster, clusterAv, filters[..0], base, photometry) == photometry
  {
  }

  /** One iteration of the shift loop, stated on the spec functions. */
  lemma ShiftedStep(env: Env, cluster: Cluster, clusterAv: real, filters: seq<int>, base: seq<real>,
                    photometry: seq<real>, i: nat)
    requires EnvOk(env) && FiltersOk(filters) && i < |filters| <= FILTS && RowOk(base) && RowOk(photometry)
    ensures ShiftedPhotometry(env, cluster, clusterAv, filters[..i + 1], base, photometry)
         == ShiftedPhotometry(env, cluster, clusterAv, filters[..i], base, photometry)
              [i := ShiftedRow(env, cluster, clusterAv, filters[..i + 1], base)[filters[i]]]
  {
    var p := ShiftedPhotometry(env, cluster, clusterAv, filters[..i], base, photometry);
    var p' := ShiftedPhotometry(env, cluster, clusterAv, filters[..i + 1], base, photometry);
    forall q | 0 <= q < FILTS
      ensures p'[q] == p[i := ShiftedRow(env, cluster, clusterAv, filters[..i + 1], base)[filters[i]]][q]
    {
      if q < i {
        assert filters[..i + 1][..q + 1] == filters[..i][..q + 1];
      } else if q == i {
        assert filters[..i + 1][..q + 1] == filters[..i + 1];
      }
    }
  }

  /** The shifted row in closed form: every band is shifted once per occurrence in `filters`,
      by mod + (A_f - 1) * Av each time. */
  lemma {:induction false} ShiftedRowClosedForm(env: Env, cluster: Cluster, clusterAv: real, filters: seq<int>,
                                                base: seq<real>, k: int)
    requires EnvOk(env) && FiltersOk(filters) && RowOk(base) && 0 <= k < FILTS
    ensures ShiftedRow(env, cluster, clusterAv, filters, base)[k]
            == base[k] + Repeated(Occ(filters, k), Shift(env, cluster, clusterAv, k))
  {
    if filters != [] {
      var init := filters[..|filters| - 1];
      var f := filters[|filters| - 1];
      assert FiltersOk(init);
      ShiftedRowClosedForm(env, cluster, clusterAv, init, base, k);
      var r := ShiftedRow(env, cluster, clusterAv, init, base);
      var sh := Shift(env, cluster, clusterAv, k);
      assert Occ(filters, k) == Occ(init, k) + (if f == k then 1 else 0);
      if k == f {
        assert ShiftedRow(env, cluster, clusterAv, filters, base)[k] == r[k] + cluster.mod + Extinction(env, clusterAv, k);
        ShiftOnce(r[k], base[k], Occ(init, k), sh, cluster.mod, Extinction(env, clusterAv, k));
      } else {
        assert ShiftedRow(env, cluster, clusterAv, filters, base)[k] == r[k];
      }
    }
  }

  /** n equal steps of size sh. */
  function Repeated(n: nat, sh: real): real
  {
    n as real * sh
  }

  /** One more shift by mod and then by the extinction term adds one more multiple of their sum. */
  lemma ShiftOnce(v: real, b: real, n: nat, sh: real, mod: real, ext: real)
    requires sh == mod + ext && v == b + Repeated(n, sh)
    ensures v + mod + ext == b + Repeated(n + 1, sh)
  {
    assert (n + 1) as real * sh == n as real * sh + sh;
  }

  /** `deriveCombinedMags`: the matrix rows, `flux` and `pStar` are passed in and handed back. */
  method DeriveCombinedMags(env: Env, cluster: Cluster, clusterAv: real, filters: seq<int>,
                            mag: seq<seq<real>>, flux: real, star: Star) returns (c: Combined)
    requires EnvOk(env) && FiltersOk(filters) && 0 < |filters| <= FILTS && StarOk(star)
    requires |mag| == 3 && RowOk(mag[0]) && RowOk(mag[1]) && RowOk(mag[2])
    ensures c == CombineSpec(env, cluster, clusterAv, filters, mag, flux, star)
  {
    var base, fl := CombineBands(env, mag, filters, flux);
    var row, phot := ShiftBands(env, cluster, clusterAv, filters, base, star.photometry);
    c := Combined(row, star.(photometry := phot), fl);
  }

  /** A value absent from a sequence does not occur in it. */
  lemma {:induction false} OccAbsent(s: seq<int>, x: int)
    requires x !in s
    ensures Occ(s, x) == 0
  {
    if s != [] {
      OccAbsent(s[..|s| - 1], x);
    }
  }

  /** Occurrences add up over a concatenation. */
  lemma {:induction false} OccSplit(a: seq<int>, b: seq<int>, x: int)
    ensures Occ(a + b, x) == Occ(a, x) + Occ(b, x)
  {
    if b == [] {
      assert a + b == a;
    } else {
      assert (a + b)[..|a + b| - 1] == a + b[..|b| - 1];
      OccSplit(a, b[..|b| - 1], x);
    }
  }

  predicate Distinct(filters: seq<int>)
  {
    forall i, j :: 0 <= i < j < |filters| ==> filters[i] != filters[j]
  }

  /** In a list of distinct bands every entry occurs exactly once, in the whole list and in the
      prefix that ends with it. */
  lemma OccOnce(filters: seq<int>, q: nat)
    requires Distinct(filters) && q < |filters|
    ensures Occ(filters[..q + 1], filters[q]) == 1
    ensures Occ(filters, filters[q]) == 1
  {
    var f := filters[q];
    assert f !in filters[..q] by {
      forall i | 0 <= i < q ensures filters[..q][i] != f { }
    }
    assert filters[..q + 1][..q] == filters[..q];
    OccAbsent(filters[..q], f);
    var rest := filters[q + 1..];
    assert f !in rest by {
      forall i | 0 <= i < |rest| ensures rest[i] != f {
        assert rest[i] == filters[q + 1 + i];
      }
    }
    OccAbsent(rest, f);
    assert filters == filters[..q + 1] + rest;
    OccSplit(filters[..q + 1], rest, f);
  }

  /** Bands that were not requested keep their value in mag[2]. */
  lemma UnrequestedBandsKept(env: Env, cluster: Cluster, clusterAv: real, filters: seq<int>,
                             mag: seq<seq<real>>, flux: real, star: Star, k: int)
    requires EnvOk(env) && FiltersOk(filters) && 0 < |filters| <= FILTS && StarOk(star)
    requires |mag| == 3 && RowOk(mag[0]) && RowOk(mag[1]) && RowOk(mag[2])
    requires 0 <= k < FILTS && k !in filters
    ensures CombineSpec(env, cluster, clusterAv, filters, mag, flux, star).row[k] == mag[2][k]
  {
    OccAbsent(filters, k);
    ShiftedRowClosedForm(env, cluster, clusterAv, filters, BaseRow(env, mag, filters), k);
  }

  /** With distinct bands, each requested band is shifted exactly once: band filters[q] ends as
      its combined base + mod + (A_f - 1) * Av, and photometry[q] holds that same value. If the
      secondary's FIRST requested magnitude is 99 or more, the base is the primary's magnitude in
      every band, whatever the secondary's other bands hold. */
  lemma CombinedOnDistinctBands(env: Env, cluster: Cluster, clusterAv: real, filters: seq<int>,
                                mag: seq<seq<real>>, flux: real, star: Star, q: nat)
    requires EnvOk(env) && FiltersOk(filters) && 0 < |filters| <= FILTS && StarOk(star)
    requires |mag| == 3 && RowOk(mag[0]) && RowOk(mag[1]) && RowOk(mag[2])
    requires Distinct(filters) && q < |filters|
    ensures var c := CombineSpec(env, cluster, clusterAv, filters, mag, flux, star);
      var f := filters[q];
      var expected := CombinedBase(env, mag[0], mag[1], filters, f) + Shift(env, cluster, clusterAv, f);
      && c.star.photometry[q] == expected
      && c.row[f] == expected
      && (!HasSecondary(mag[1], filters) ==> expected == mag[0][f] + Shift(env, cluster, clusterAv, f))
  {
    var base := BaseRow(env, mag, filters);
    OccOnce(filters, q);
    assert FiltersOk(filters[..q + 1]);
    ShiftedRowClosedForm(env, cluster, clusterAv, filters, base, filters[q]);
    ShiftedRowClosedForm(env, cluster, clusterAv, filters[..q + 1], base, filters[q]);
  }
}
