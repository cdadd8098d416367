/** The Girardi main-sequence/red-giant model: the names of its eight grid files and the
    derivation of one synthetic isochrone from the loaded (metallicity x age x mass) table
    by interpolating first in log age and then in [Fe/H]. */
module Girardi {
  import opened Bands
  import opened Interp

  /** The filter sets the model can be asked about. Every member of the source's
      `FilterSetName` other than UBVRIJHK and ACS is represented by `OtherSet`. */
  datatype FilterSetName = UBVRIJHK | ACS | OtherSet

  /** Metallicity codes of the eight grid files, in load order. */
  const FILE_CODES: seq<string> := ["0", "0001", "0004", "001", "004", "008", "019", "030"]

  /** Bounds of the tabulated log-age span. */
  const MIN_AGE: real := 7.80
  const MAX_AGE: real := 10.25

  /** Number of ages assumed in every grid file, and their spacing in log age. */
  const N_AGES: nat := 50
  const AGE_STEP: real := 0.05

  // ---------------------------------------------------------------------------------------
  // Grid files

  /** The file-name stem for a filter set: ACS files live in their own directory,
      every other set is read from the standard-magnitude directory. */
  function Stem(filterSet: FilterSetName): string
  {
    if filterSet == ACS then "gIsoACS/iso_acs_z" else "gIsoStan/iso_stan_z"
  }

  function FileName(path: string, filterSet: FilterSetName, code: string): string
  {
    path + Stem(filterSet) + code + ".50.dat"
  }

  /** `GirardiMsModel::isSupported`: every filter set the model names except the catch-all. */
  predicate IsSupported(filterSet: FilterSetName): (r: bool)
    ensures r <==> filterSet != OtherSet
  {
    filterSet == UBVRIJHK || filterSet == ACS
  }

  /** `getFileNames`: one path per metallicity code, in the fixed order of FILE_CODES. */
  method GetFileNames(path: string, filterSet: FilterSetName) returns (files: seq<string>)
    ensures |files| == |FILE_CODES| == 8
    ensures forall i :: 0 <= i < |files| ==> files[i] == FileName(path, filterSet, FILE_CODES[i])
  {
    files := [];
    var i := 0;
    while i < |FILE_CODES|
      invariant 0 <= i <= |FILE_CODES|
      invariant |files| == i
      invariant forall k :: 0 <= k < i ==> files[k] == FileName(path, filterSet, FILE_CODES[k])
    {
      var tempFile := path;
      if filterSet == ACS {
        tempFile := tempFile + "gIsoACS/iso_acs_z";
      } else {
        tempFile := tempFile + "gIsoStan/iso_stan_z";
      }
      tempFile := tempFile + FILE_CODES[i];
      tempFile := tempFile + ".50.dat";
      files := files + [tempFile];
      i := i + 1;
    }
  }

  /** Two different strings stay different when the same text is appended to both. */
  lemma SuffixDistinct(a: string, b: string, x: string)
    requires a != b
    ensures a + x != b + x
  {
    if |a| == |b| {
      var k :| 0 <= k < |a| && a[k] != b[k];
      assert (a + x)[k] == a[k] && (b + x)[k] == b[k];
    } else {
      assert |a + x| != |b + x|;
    }
  }

  /** Two different strings stay different when the same text is prepended to both. */
  lemma PrefixDistinct(p: string, a: string, b: string)
    requires a != b
    ensures p + a != p + b
  {
    assert (p + a)[|p|..] == a && (p + b)[|p|..] == b;
  }

  /** The eight files of one filter set are eight different files. */
  lemma FileNamesDistinct(path: string, filterSet: FilterSetName, i: nat, k: nat)
    requires i < k < |FILE_CODES|
    ensures FileName(path, filterSet, FILE_CODES[i]) != FileName(path, filterSet, FILE_CODES[k])
  {
    var p := path + Stem(filterSet);
    assert FILE_CODES[i] != FILE_CODES[k];
    PrefixDistinct(p, FILE_CODES[i], FILE_CODES[k]);
    SuffixDistinct(p + FILE_CODES[i], p + FILE_CODES[k], ".50.dat");
  }

  /** The two supported filter sets never read the same file: their names already differ at
      the fifth character of the stem ("gIsoA…" against "gIsoS…"). Every unsupported set would
      be read from the UBVRIJHK directory. */
  lemma SupportedSetsReadDisjointFiles(path: string, a: FilterSetName, b: FilterSetName, c: string, d: string)
    requires IsSupported(a) && IsSupported(b) && a != b
    ensures FileName(path, a, c) != FileName(path, b, d)
    ensures forall code :: FileName(path, OtherSet, code) == FileName(path, UBVRIJHK, code)
  {
    var n := |path| + 4;
    assert FileName(path, a, c)[n] == Stem(a)[4];
    assert FileName(path, b, d)[n] == Stem(b)[4];
  }

  // ---------------------------------------------------------------------------------------
  // The loaded grid

  /** One tabulated point: its mass and FILTS magnitudes (99.999 where undefined). The source
      also stores an EEP number, always 0 for Girardi, which is not modelled. */
  datatype Eep = Eep(mass: real, mags: seq<real>)

  /** One age node: its log age and its mass-ordered points. */
  datatype Isochrone = Isochrone(logAge: real, eeps: seq<Eep>)

  /** One metallicity node with its age nodes (the single helium curve of a Girardi file). */
  datatype FehCurve = FehCurve(feh: real, isochrones: seq<Isochrone>)

  datatype DeriveError =
    | InvalidCluster      // thrown: age or [Fe/H] outside the grid
    | AssertionFailed     // an `assert` of deriveIsochrone does not hold
    | IndexOutOfRange     // `isochrones.at(iAge + 1)` past the end

  datatype Result<T> = Success(value: T) | Failure(error: DeriveError)

  /** What `loadModel` leaves behind and `deriveIsochrone` relies on without checking: at least
      two metallicity nodes in strictly increasing order, the same age gridding in every node,
      no empty age node, and FILTS magnitudes in every point. */
  predicate WellFormed(curves: seq<FehCurve>)
  {
    && |curves| >= 2
    && (forall i, j :: 0 <= i < j < |curves| ==> curves[i].feh < curves[j].feh)
    && (forall j :: 0 <= j < |curves| ==> |curves[j].isochrones| == |curves[0].isochrones|)
    && (forall j, a :: 0 <= j < |curves| && 0 <= a < |curves[j].isochrones| ==>
          curves[j].isochrones[a].logAge == curves[0].isochrones[a].logAge)
    && (forall j, a :: 0 <= j < |curves| && 0 <= a < |curves[j].isochrones| ==>
          |curves[j].isochrones[a].eeps| > 0)
    && (forall j, a, e :: (0 <= j < |curves| && 0 <= a < |curves[j].isochrones|
          && 0 <= e < |curves[j].isochrones[a].eeps|) ==> RowOk(curves[j].isochrones[a].eeps[e].mags))
  }

  /** The age grid the source assumes: 50 ages, 7.80 to 10.25 in steps of 0.05, held exactly. */
  predicate ExactAgeGrid(curves: seq<FehCurve>)
    requires |curves| > 0
  {
    && |curves[0].isochrones| == N_AGES
    && forall a :: 0 <= a < N_AGES ==> curves[0].isochrones[a].logAge == GridAge(a)
  }

  function GridAge(a: int): real
  {
    MIN_AGE + AGE_STEP * a as real
  }

  predicate OutOfRange(curves: seq<FehCurve>, newFeH: real, newAge: real)
    requires |curves| > 0
  {
    newAge < MIN_AGE || newAge > MAX_AGE || newFeH < curves[0].feh || newFeH > curves[|curves| - 1].feh
  }

  // ---------------------------------------------------------------------------------------
  // Bracketing

  function Ceil(x: real): int
  {
    -((-x).Floor)
  }

  /** `rint` on an argument that is an integer over the reals (ties never arise). */
  function Rint(x: real): int
  {
    (x + 0.5).Floor
  }

  /** `iAge`: round 20 * newAge up, step back one grid step, and count steps from 7.80. */
  function AgeIndex(newAge: real): int
  {
    var roundAge := Ceil(20.0 * newAge) as real / 20.0 - 0.05;
    Rint((roundAge - 7.8) * 20.0)
  }

  /** Over the reals the rounding cancels: iAge = ceil(20 * newAge) - 157. */
  lemma AgeIndexClosedForm(newAge: real)
    ensures AgeIndex(newAge) == Ceil(20.0 * newAge) - 157
  {
    var c := Ceil(20.0 * newAge);
    var roundAge := c as real / 20.0 - 0.05;
    assert (roundAge - 7.8) * 20.0 == (c - 157) as real;
  }

  /** Inside (7.80, 10.25] the index selects the grid interval (ages[iAge], ages[iAge + 1]]
      that holds newAge, and both ends exist in a 50-age grid. */
  lemma AgeIndexBrackets(newAge: real)
    requires MIN_AGE < newAge <= MAX_AGE
    ensures 0 <= AgeIndex(newAge) <= N_AGES - 2
    ensures GridAge(AgeIndex(newAge)) < newAge <= GridAge(AgeIndex(newAge) + 1)
  {
    AgeIndexClosedForm(newAge);
    var c := Ceil(20.0 * newAge);
    assert (c - 1) as real < 20.0 * newAge <= c as real;
    assert 157 <= c <= 205;
  }

  /** At newAge == 7.80 the range check lets the query through but iAge is -1. */
  lemma AgeIndexAtMinimum()
    ensures AgeIndex(MIN_AGE) == -1
  {
    AgeIndexClosedForm(MIN_AGE);
    assert Ceil(20.0 * MIN_AGE) == 156;
  }

  /** `std::lower_bound` over the metallicities: the first node whose [Fe/H] is not below x. */
  function LowerBound(curves: seq<FehCurve>, x: real): (r: nat)
    ensures r <= |curves|
    ensures forall k :: 0 <= k < r ==> curves[k].feh < x
    ensures r < |curves| ==> curves[r].feh >= x
  {
    if |curves| == 0 || curves[0].feh >= x then 0 else 1 + LowerBound(curves[1..], x)
  }

  /** The lower metallicity node of the bracket: lower_bound stepped back by two at the end
      and by one unless at the beginning. */
  function FehBracket(curves: seq<FehCurve>, newFeH: real): (j: nat)
    requires |curves| >= 2
    ensures j <= |curves| - 2
  {
    var lb := LowerBound(curves, newFeH);
    if lb == |curves| then lb - 2 else if lb != 0 then lb - 1 else 0
  }

  /** For an in-range metallicity the bracket encloses the query. */
  lemma FehBracketEncloses(curves: seq<FehCurve>, newFeH: real)
    requires WellFormed(curves)
    ensures curves[0].feh <= newFeH <= curves[|curves| - 1].feh ==>
      curves[FehBracket(curves, newFeH)].feh <= newFeH <= curves[FehBracket(curves, newFeH) + 1].feh
  {
    var lb := LowerBound(curves, newFeH);
    var n := |curves|;
    if curves[0].feh <= newFeH <= curves[n - 1].feh {
      assert curves[n - 1].feh >= newFeH;
      assert lb < n;
      if lb == 0 {
        assert curves[0].feh == newFeH;
        assert curves[0].feh < curves[1].feh;
      }
    }
  }

  // ---------------------------------------------------------------------------------------
  // Interpolation stages

  /** A magnitude row interpolated between two rows: the requested slots hold the line through
      the two nodes read at x, every other slot stays 99.999. */
  function InterpMags(x0: real, x1: real, m0: seq<real>, m1: seq<real>, x: real, filters: seq<int>): (row: seq<real>)
    requires x0 != x1 && RowOk(m0) && RowOk(m1)
    ensures RowOk(row)
  {
    seq(FILTS, k requires 0 <= k < FILTS =>
      if k in filters then LinearTransform(x0, x1, m0[k], m1[k], x) else SENTINEL)
  }

  function MinNat(a: nat, b: nat): nat { if a <= b then a else b }

  predicate RowsOk(s: seq<Eep>)
  {
    forall e :: 0 <= e < |s| ==> RowOk(s[e].mags)
  }

  /** The age step within one metallicity: as many points as the shorter node, each keeping the
      mass of the lower-age node and interpolating the requested magnitudes in log age. */
  function AgeStage(lo: Isochrone, hi: Isochrone, newAge: real, filters: seq<int>): (s: seq<Eep>)
    requires lo.logAge != hi.logAge && RowsOk(lo.eeps) && RowsOk(hi.eeps)
    ensures RowsOk(s)
  {
    seq(MinNat(|lo.eeps|, |hi.eeps|), e requires 0 <= e < MinNat(|lo.eeps|, |hi.eeps|) =>
      Eep(lo.eeps[e].mass,
          InterpMags(lo.logAge, hi.logAge, lo.eeps[e].mags, hi.eeps[e].mags, newAge, filters)))
  }

  /** The metallicity step: as many points as the shorter list, mass and requested magnitudes
      interpolated in [Fe/H]. */
  function FehStage(feh0: real, feh1: real, s0: seq<Eep>, s1: seq<Eep>, newFeH: real, filters: seq<int>): (s: seq<Eep>)
    requires feh0 != feh1 && RowsOk(s0) && RowsOk(s1)
    ensures RowsOk(s)
  {
    seq(MinNat(|s0|, |s1|), e requires 0 <= e < MinNat(|s0|, |s1|) =>
      Eep(LinearTransform(feh0, feh1, s0[e].mass, s1[e].mass, newFeH),
          InterpMags(feh0, feh1, s0[e].mags, s1[e].mags, newFeH, filters)))
  }

  /** `std::is_sorted` on points ordered by mass: no point is lighter than its predecessor. */
  predicate SortedByMass(s: seq<Eep>)
  {
    forall k :: 0 <= k < |s| - 1 ==> s[k].mass <= s[k + 1].mass
  }


  /** Interpolation preserves ascending mass: two ascending lists give an ascending
      metallicity interpolation when the query lies inside the bracket. */
  lemma FehStageAscending(feh0: real, feh1: real, s0: seq<Eep>, s1: seq<Eep>, newFeH: real, filters: seq<int>)
    requires feh0 < feh1 && feh0 <= newFeH <= feh1 && RowsOk(s0) && RowsOk(s1)
    requires SortedByMass(s0) && SortedByMass(s1)
    ensures SortedByMass(FehStage(feh0, feh1, s0, s1, newFeH, filters))
  {
    var out := FehStage(feh0, feh1, s0, s1, newFeH, filters);
    forall k | 0 <= k < |out| - 1
      ensures out[k].mass <= out[k + 1].mass
    {
      Monotone(feh0, feh1, s0[k].mass, s1[k].mass, s0[k + 1].mass, s1[k + 1].mass, newFeH);
    }
  }

  /** The age step keeps the lower-age masses, so it keeps their order. */
  lemma AgeStageAscending(lo: Isochrone, hi: Isochrone, newAge: real, filters: seq<int>)
    requires lo.logAge != hi.logAge && RowsOk(lo.eeps) && RowsOk(hi.eeps)
    requires SortedByMass(lo.eeps)
    ensures SortedByMass(AgeStage(lo, hi, newAge, filters))
  {
    var s := AgeStage(lo, hi, newAge, filters);
    forall k | 0 <= k < |s| - 1
      ensures s[k].mass <= s[k + 1].mass
    {
      assert s[k].mass == lo.eeps[k].mass && s[k + 1].mass == lo.eeps[k + 1].mass;
    }
  }

  // ---------------------------------------------------------------------------------------
  // The loops of deriveIsochrone

  /** One magnitude row: 99.999 everywhere, then each requested slot interpolated. */
  method InterpolateMags(x0: real, x1: real, m0: seq<real>, m1: seq<real>, x: real, filters: seq<int>)
    returns (mags: seq<real>)
    requires x0 != x1 && RowOk(m0) && RowOk(m1) && FiltersOk(filters)
    ensures mags == InterpMags(x0, x1, m0, m1, x, filters)
  {
    mags := SentinelRow();
    var i := 0;
    while i < |filters|
      invariant 0 <= i <= |filters|
      invariant RowOk(mags)
      invariant forall k :: 0 <= k < FILTS ==>
        mags[k] == if k in filters[..i] then LinearTransform(x0, x1, m0[k], m1[k], x) else SENTINEL
    {
      var f := filters[i];
      assert filters[..i + 1] == filters[..i] + [f];
      mags := mags[f := LinearTransform(x0, x1, m0[f], m1[f], x)];
      i := i + 1;
    }
    assert filters[..i] == filters;
  }

  /** The loop over points of one metallicity's age step. */
  method InterpolateInAge(lo: Isochrone, hi: Isochrone, newAge: real, filters: seq<int>)
    returns (interpEeps: seq<Eep>)
    requires lo.logAge != hi.logAge && RowsOk(lo.eeps) && RowsOk(hi.eeps) && FiltersOk(filters)
    ensures interpEeps == AgeStage(lo, hi, newAge, filters)
  {
    var numEeps := MinNat(|lo.eeps|, |hi.eeps|);
    ghost var spec := AgeStage(lo, hi, newAge, filters);
    interpEeps := [];
    var e := 0;
    while e < numEeps
      invariant 0 <= e <= numEeps
      invariant interpEeps == spec[..e]
    {
      var mags := InterpolateMags(lo.logAge, hi.logAge, lo.eeps[e].mags, hi.eeps[e].mags, newAge, filters);
      interpEeps := interpEeps + [Eep(lo.eeps[e].mass, mags)];
      assert spec[..e + 1] == spec[..e] + [spec[e]];
      e := e + 1;
    }
    assert spec[..e] == spec;
  }

  /** The loop over points of the metallicity step. */
  method InterpolateInFeh(feh0: real, feh1: real, s0: seq<Eep>, s1: seq<Eep>, newFeH: real, filters: seq<int>)
    returns (interpEeps: seq<Eep>)
    requires feh0 != feh1 && RowsOk(s0) && RowsOk(s1) && FiltersOk(filters)
    ensures interpEeps == FehStage(feh0, feh1, s0, s1, newFeH, filters)
  {
    var numEeps := MinNat(|s0|, |s1|);
    ghost var spec := FehStage(feh0, feh1, s0, s1, newFeH, filters);
    interpEeps := [];
    var e := 0;
    while e < numEeps
      invariant 0 <= e <= numEeps
      invariant interpEeps == spec[..e]
    {
      var mags := InterpolateMags(feh0, feh1, s0[e].mags, s1[e].mags, newFeH, filters);
      var interpMass := LinearTransform(feh0, feh1, s0[e].mass, s1[e].mass, newFeH);
      interpEeps := interpEeps + [Eep(interpMass, mags)];
      assert spec[..e + 1] == spec[..e] + [spec[e]];
      e := e + 1;
    }
    assert spec[..e] == spec;
  }

  // ---------------------------------------------------------------------------------------
  // deriveIsochrone

  /** The first points of the two age nodes of a metallicity have the same mass. */
  predicate FrontMassesAgree(lo: Isochrone, hi: Isochrone)
  {
    |lo.eeps| > 0 && |hi.eeps| > 0 && lo.eeps[0].mass == hi.eeps[0].mass
  }

  /** The four assertions on the age bracket pass (and `at(iAge + 1)` is in bounds): iAge names
      the interval (ages[iAge], ages[iAge + 1]] of the lower bracket metallicity holding newAge. */
  predicate AgeBracketOk(curves: seq<FehCurve>, newFeH: real, newAge: real)
    requires |curves| >= 2
  {
    var iAge := AgeIndex(newAge);
    var isos := curves[FehBracket(curves, newFeH)].isochrones;
    0 <= iAge && iAge + 1 < |isos| && isos[iAge].logAge < newAge && isos[iAge + 1].logAge >= newAge
  }

  /** Which failure the age-bracket checks raise when they do not all pass: the first three
      assertions come before the bounds-checked access to ages[iAge + 1]. */
  function AgeBracketError(curves: seq<FehCurve>, newFeH: real, newAge: real): DeriveError
    requires |curves| >= 2
  {
    var iAge := AgeIndex(newAge);
    var isos := curves[FehBracket(curves, newFeH)].isochrones;
    if 0 <= iAge < |isos| && isos[iAge].logAge < newAge && |isos| <= iAge + 1 then IndexOutOfRange
    else AssertionFailed
  }

  /** Age node `up` (0 lower, 1 upper) of bracket metallicity `i` (0 lower, 1 upper). */
  function Node(curves: seq<FehCurve>, newFeH: real, newAge: real, i: nat, up: nat): (node: Isochrone)
    requires WellFormed(curves) && AgeBracketOk(curves, newFeH, newAge) && i < 2 && up < 2
    ensures node.logAge == curves[FehBracket(curves, newFeH)].isochrones[AgeIndex(newAge) + up].logAge
    ensures RowsOk(node.eeps)
  {
    var j := FehBracket(curves, newFeH);
    assert curves[j + i].isochrones[AgeIndex(newAge) + up].logAge == curves[0].isochrones[AgeIndex(newAge) + up].logAge;
    assert curves[j].isochrones[AgeIndex(newAge) + up].logAge == curves[0].isochrones[AgeIndex(newAge) + up].logAge;
    curves[j + i].isochrones[AgeIndex(newAge) + up]
  }

  /** The log age recorded for metallicity i: the node ages interpolated in [Fe/H]. */
  function InterpAge(curves: seq<FehCurve>, newFeH: real, newAge: real, i: nat): real
    requires WellFormed(curves) && AgeBracketOk(curves, newFeH, newAge) && i < 2
  {
    var j := FehBracket(curves, newFeH);
    LinearTransform(curves[j].feh, curves[j + 1].feh,
                    Node(curves, newFeH, newAge, i, 0).logAge, Node(curves, newFeH, newAge, i, 1).logAge, newFeH)
  }

  /** The assertions inside the age loop for metallicity i. */
  predicate StageAssertsHold(curves: seq<FehCurve>, newFeH: real, newAge: real, i: nat)
    requires WellFormed(curves) && AgeBracketOk(curves, newFeH, newAge) && i < 2
  {
    var lo, hi := Node(curves, newFeH, newAge, i, 0), Node(curves, newFeH, newAge, i, 1);
    FrontMassesAgree(lo, hi) && lo.logAge <= InterpAge(curves, newFeH, newAge, i) <= hi.logAge
  }

  /** The age step for metallicity i. */
  function AgeStageAt(curves: seq<FehCurve>, filters: seq<int>, newFeH: real, newAge: real, i: nat): seq<Eep>
    requires WellFormed(curves) && AgeBracketOk(curves, newFeH, newAge) && i < 2
  {
    AgeStage(Node(curves, newFeH, newAge, i, 0), Node(curves, newFeH, newAge, i, 1), newAge, filters)
  }

  /** The metallicity step on the two age-interpolated lists. */
  function FehStageAt(curves: seq<FehCurve>, filters: seq<int>, newFeH: real, newAge: real): seq<Eep>
    requires WellFormed(curves) && AgeBracketOk(curves, newFeH, newAge)
  {
    var j := FehBracket(curves, newFeH);
    FehStage(curves[j].feh, curves[j + 1].feh,
             AgeStageAt(curves, filters, newFeH, newAge, 0), AgeStageAt(curves, filters, newFeH, newAge, 1),
             newFeH, filters)
  }

  /** Everything after the age-bracket assertions: the assertions of the age loop, the equal
      recorded ages, the metallicity step and the sortedness assertion. */
  function BracketedIsochrone(curves: seq<FehCurve>, filters: seq<int>, newFeH: real, newAge: real): Result<Isochrone>
    requires WellFormed(curves) && AgeBracketOk(curves, newFeH, newAge)
  {
    if !StageAssertsHold(curves, newFeH, newAge, 0) || !StageAssertsHold(curves, newFeH, newAge, 1) then
      Failure(AssertionFailed)
    else if InterpAge(curves, newFeH, newAge, 0) != InterpAge(curves, newFeH, newAge, 1) then
      Failure(AssertionFailed)
    else if !SortedByMass(FehStageAt(curves, filters, newFeH, newAge)) then
      Failure(AssertionFailed)
    else
      Success(Isochrone(InterpAge(curves, newFeH, newAge, 0), FehStageAt(curves, filters, newFeH, newAge)))
  }

  /** `GirardiMsModel::deriveIsochrone` as a function of the query. */
  function DeriveIsochroneSpec(curves: seq<FehCurve>, filters: seq<int>, newFeH: real, newAge: real): Result<Isochrone>
    requires WellFormed(curves)
  {
    if OutOfRange(curves, newFeH, newAge) then Failure(InvalidCluster)
    else if !AgeBracketOk(curves, newFeH, newAge) then Failure(AgeBracketError(curves, newFeH, newAge))
    else BracketedIsochrone(curves, filters, newFeH, newAge)
  }

  /** `GirardiMsModel::deriveIsochrone`. */
  method DeriveIsochrone(curves: seq<FehCurve>, filters: seq<int>, newFeH: real, newAge: real)
    returns (r: Result<Isochrone>)
    requires WellFormed(curves) && FiltersOk(filters)
    ensures r == DeriveIsochroneSpec(curves, filters, newFeH, newAge)
  {
    if newAge < 7.80 || newAge > 10.25 || newFeH < curves[0].feh || newFeH > curves[|curves| - 1].feh {
      return Failure(InvalidCluster);
    }

    var roundAge := Ceil(20.0 * newAge) as real / 20.0 - 0.05;
    var iAge := Rint((roundAge - 7.8) * 20.0);

    var j := LowerBound(curves, newFeH);
    if j == |curves| {
      j := j - 2;
    } else if j != 0 {
      j := j - 1;
    }
    assert j == FehBracket(curves, newFeH);

    var isos := curves[j].isochrones;
    if iAge < 0 || |isos| <= iAge || !(isos[iAge].logAge < newAge) {
      return Failure(AssertionFailed);
    }
    if |isos| <= iAge + 1 {
      return Failure(IndexOutOfRange);
    }
    if !(isos[iAge + 1].logAge >= newAge) {
      return Failure(AssertionFailed);
    }
    assert AgeBracketOk(curves, newFeH, newAge);
    r := InterpolateBracket(curves, filters, newFeH, newAge, j, iAge);
  }

  /** The interpolation loops of deriveIsochrone, once the age bracket has passed its checks. */
  method InterpolateBracket(curves: seq<FehCurve>, filters: seq<int>, newFeH: real, newAge: real, j: nat, iAge: int)
    returns (r: Result<Isochrone>)
    requires WellFormed(curves) && FiltersOk(filters) && AgeBracketOk(curves, newFeH, newAge)
    requires j == FehBracket(curves, newFeH) && iAge == AgeIndex(newAge)
    ensures r == BracketedIsochrone(curves, filters, newFeH, newAge)
  {
    var interpIso: seq<Isochrone> := [];
    var i := 0;
    while i < 2
      invariant 0 <= i <= 2 && |interpIso| == i
      invariant forall k :: 0 <= k < i ==> StageAssertsHold(curves, newFeH, newAge, k)
      invariant forall k :: 0 <= k < i ==>
        interpIso[k] == Isochrone(InterpAge(curves, newFeH, newAge, k), AgeStageAt(curves, filters, newFeH, newAge, k))
    {
      var ok, iso := InterpolateAgeNodes(curves, filters, newFeH, newAge, j, iAge, i);
      if !ok {
        return Failure(AssertionFailed);
      }
      interpIso := interpIso + [iso];
      i := i + 1;
    }

    if interpIso[0].logAge != interpIso[1].logAge {
      return Failure(AssertionFailed);
    }

    assert interpIso[0].eeps == AgeStageAt(curves, filters, newFeH, newAge, 0);
    var interpEeps := InterpolateInFeh(curves[j].feh, curves[j + 1].feh, interpIso[0].eeps, interpIso[1].eeps, newFeH, filters);
    if !SortedByMass(interpEeps) {
      return Failure(AssertionFailed);
    }
    return Success(Isochrone(interpIso[0].logAge, interpEeps));
  }

  /** One pass of the age loop, for bracket metallicity i: the assertions on the two age nodes,
      then the age step and the recorded log age. `ok` is false when an assertion fails. */
  method InterpolateAgeNodes(curves: seq<FehCurve>, filters: seq<int>, newFeH: real, newAge: real,
                             j: nat, iAge: int, i: nat)
    returns (ok: bool, iso: Isochrone)
    requires WellFormed(curves) && FiltersOk(filters) && AgeBracketOk(curves, newFeH, newAge) && i < 2
    requires j == FehBracket(curves, newFeH) && iAge == AgeIndex(newAge)
    ensures ok == StageAssertsHold(curves, newFeH, newAge, i)
    ensures ok ==> iso == Isochrone(InterpAge(curves, newFeH, newAge, i), AgeStageAt(curves, filters, newFeH, newAge, i))
  {
    var lo, hi := curves[j + i].isochrones[iAge], curves[j + i].isochrones[iAge + 1];
    assert lo == Node(curves, newFeH, newAge, i, 0) && hi == Node(curves, newFeH, newAge, i, 1);
    iso := Isochrone(0.0, []);
    if !FrontMassesAgree(lo, hi) {
      return false, iso;
    }
    var interpEeps := InterpolateInAge(lo, hi, newAge, filters);
    var interpAge := LinearTransform(curves[j].feh, curves[j + 1].feh, lo.logAge, hi.logAge, newFeH);
    if !(lo.logAge <= interpAge <= hi.logAge) {
      return false, iso;
    }
    return true, Isochrone(interpAge, interpEeps);
  }

  // ---------------------------------------------------------------------------------------
  // Properties of deriveIsochrone

  /** `InvalidCluster` is raised exactly for an age outside [7.80, 10.25] or a metallicity
      outside the tabulated span. */
  lemma RangeCheckIsExact(curves: seq<FehCurve>, filters: seq<int>, newFeH: real, newAge: real)
    requires WellFormed(curves)
    ensures DeriveIsochroneSpec(curves, filters, newFeH, newAge) == Failure(InvalidCluster)
            <==> OutOfRange(curves, newFeH, newAge)
  {
  }

  /** newAge == 7.80 passes the range check, but iAge is -1 and the first assertion fails. */
  lemma RejectsMinimumAge(curves: seq<FehCurve>, filters: seq<int>, newFeH: real)
    requires WellFormed(curves)
    requires curves[0].feh <= newFeH <= curves[|curves| - 1].feh
    ensures DeriveIsochroneSpec(curves, filters, newFeH, MIN_AGE) == Failure(AssertionFailed)
  {
    AgeIndexAtMinimum();
  }

  /** On the exact 50-age grid every in-range query above 7.80 passes the age-bracket
      assertions and every interpolated log age lies inside its bracket and is shared by the two
      metallicities. */
  lemma ExactGridBracketsHold(curves: seq<FehCurve>, newFeH: real, newAge: real)
    requires WellFormed(curves) && ExactAgeGrid(curves)
    requires MIN_AGE < newAge <= MAX_AGE && curves[0].feh <= newFeH <= curves[|curves| - 1].feh
    ensures AgeBracketOk(curves, newFeH, newAge)
    ensures forall i :: 0 <= i < 2 ==>
      Node(curves, newFeH, newAge, i, 0).logAge <= InterpAge(curves, newFeH, newAge, i) <= Node(curves, newFeH, newAge, i, 1).logAge
    ensures InterpAge(curves, newFeH, newAge, 0) == InterpAge(curves, newFeH, newAge, 1)
  {
    var iAge := AgeIndex(newAge);
    var j := FehBracket(curves, newFeH);
    AgeIndexBrackets(newAge);
    assert curves[j].isochrones[iAge].logAge == curves[0].isochrones[iAge].logAge == GridAge(iAge);
    assert curves[j].isochrones[iAge + 1].logAge == curves[0].isochrones[iAge + 1].logAge == GridAge(iAge + 1);
    FehBracketEncloses(curves, newFeH);
    assert curves[j].feh < curves[j + 1].feh;
    Between(curves[j].feh, curves[j + 1].feh, GridAge(iAge), GridAge(iAge + 1), newFeH);
  }

  /** The assertion that ends deriveIsochrone cannot fail on a well-formed exact grid: for an
      in-range query above 7.80 whose age nodes start at the same mass and list their masses in
      ascending order, the derivation succeeds and the synthetic isochrone ascends in mass. */
  lemma SucceedsOnExactGrid(curves: seq<FehCurve>, filters: seq<int>, newFeH: real, newAge: real)
    requires WellFormed(curves) && ExactAgeGrid(curves)
    requires MIN_AGE < newAge <= MAX_AGE && curves[0].feh <= newFeH <= curves[|curves| - 1].feh
    requires forall c, a :: 0 <= c < |curves| && 0 <= a < N_AGES ==> SortedByMass(curves[c].isochrones[a].eeps)
    requires forall c, a :: 0 <= c < |curves| && 0 <= a < N_AGES - 1 ==>
      FrontMassesAgree(curves[c].isochrones[a], curves[c].isochrones[a + 1])
    ensures DeriveIsochroneSpec(curves, filters, newFeH, newAge).Success?
    ensures SortedByMass(DeriveIsochroneSpec(curves, filters, newFeH, newAge).value.eeps)
  {
    ExactGridBracketsHold(curves, newFeH, newAge);
    var iAge := AgeIndex(newAge);
    var j := FehBracket(curves, newFeH);
    AgeIndexBrackets(newAge);
    FehBracketEncloses(curves, newFeH);
    forall i | 0 <= i < 2
      ensures StageAssertsHold(curves, newFeH, newAge, i)
      ensures SortedByMass(AgeStageAt(curves, filters, newFeH, newAge, i))
    {
      assert FrontMassesAgree(curves[j + i].isochrones[iAge], curves[j + i].isochrones[iAge + 1]);
      assert SortedByMass(curves[j + i].isochrones[iAge].eeps);
      AgeStageAscending(Node(curves, newFeH, newAge, i, 0), Node(curves, newFeH, newAge, i, 1), newAge, filters);
    }
    FehStageAscending(curves[j].feh, curves[j + 1].feh,
                      AgeStageAt(curves, filters, newFeH, newAge, 0), AgeStageAt(curves, filters, newFeH, newAge, 1),
                      newFeH, filters);
  }

  /** What a successful derivation returns, point by point:
      - as many points as the shortest of the four bracketing nodes;
      - each mass is the [Fe/H] interpolation of the two LOWER-age masses (the age step copies
        mass from the lower age node);
      - each requested magnitude is the [Fe/H] interpolation of the two log-age interpolations;
      - every other magnitude slot is 99.999. */
  lemma DerivedPoints(curves: seq<FehCurve>, filters: seq<int>, newFeH: real, newAge: real)
    requires WellFormed(curves)
    requires DeriveIsochroneSpec(curves, filters, newFeH, newAge).Success?
    ensures AgeBracketOk(curves, newFeH, newAge)
    ensures var iso := DeriveIsochroneSpec(curves, filters, newFeH, newAge).value;
      var lo0, hi0 := Node(curves, newFeH, newAge, 0, 0), Node(curves, newFeH, newAge, 0, 1);
      var lo1, hi1 := Node(curves, newFeH, newAge, 1, 0), Node(curves, newFeH, newAge, 1, 1);
      var j := FehBracket(curves, newFeH);
      && |iso.eeps| == MinNat(MinNat(|lo0.eeps|, |hi0.eeps|), MinNat(|lo1.eeps|, |hi1.eeps|))
      && (forall e :: 0 <= e < |iso.eeps| ==>
            iso.eeps[e].mass == LinearTransform(curves[j].feh, curves[j + 1].feh, lo0.eeps[e].mass, lo1.eeps[e].mass, newFeH))
      && (forall e, k :: 0 <= e < |iso.eeps| && 0 <= k < FILTS && k !in filters ==> iso.eeps[e].mags[k] == SENTINEL)
      && (forall e, k :: 0 <= e < |iso.eeps| && 0 <= k < FILTS && k in filters ==>
            iso.eeps[e].mags[k] == LinearTransform(curves[j].feh, curves[j + 1].feh,
              LinearTransform(lo0.logAge, hi0.logAge, lo0.eeps[e].mags[k], hi0.eeps[e].mags[k], newAge),
              LinearTransform(lo1.logAge, hi1.logAge, lo1.eeps[e].mags[k], hi1.eeps[e].mags[k], newAge), newFeH))
  {
  }

  /** The recorded log age is the [Fe/H] interpolation of the bracketing grid ages, not the
      query age: at the lowest tabulated metallicity it is the lower grid age, which lies
      strictly below newAge. */
  lemma RecordedAgeIsGridAge(curves: seq<FehCurve>, filters: seq<int>, newAge: real)
    requires WellFormed(curves)
    requires DeriveIsochroneSpec(curves, filters, curves[0].feh, newAge).Success?
    ensures AgeBracketOk(curves, curves[0].feh, newAge)
    ensures DeriveIsochroneSpec(curves, filters, curves[0].feh, newAge).value.logAge
            == curves[0].isochrones[AgeIndex(newAge)].logAge < newAge
  {
    var x := curves[0].feh;
    assert LowerBound(curves, x) == 0;
    assert FehBracket(curves, x) == 0;
    AtLower(curves[0].feh, curves[1].feh, Node(curves, x, newAge, 0, 0).logAge, Node(curves, x, newAge, 0, 1).logAge);
  }
}
