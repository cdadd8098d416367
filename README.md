# BASE-9 isochrone interpolation and binary marginalisation, in Dafny

This project models three parts of BASE-9, the Bayesian star-cluster analysis suite, and proves
properties of the model.

- **Girardi grid interpolation** (`girardi.dfy`, `interp.dfy`). `GirardiMsModel` names its eight grid
  files and reports which filter sets it supports. `deriveIsochrone` builds one synthetic isochrone
  from the loaded table of metallicity × age × mass points. It runs a range check, computes the age
  index arithmetically and finds the [Fe/H] bracket with `lower_bound`. It then interpolates in log
  age (magnitudes only; the mass comes from the lower age node) and in [Fe/H] (mass and
  magnitudes), truncating to the shorter list at each stage. Finally it asserts that the result
  ascends in mass.
- **Binary marginalisation** (`marg_mags.dfy`, `marg.dfy`, `marg_evolve.dfy`):
  - `setMags` classifies a component by mass into five branches and fills its magnitude row.
  - `deriveCombinedMags` flux-sums the two components and shifts every requested band by distance
    modulus and extinction.
  - `calcPost` adds a no-companion term, narrows the `okMass` candidate buffer band by band, and adds
    a term per surviving candidate.
  - `margEvolveWithBinary` sums `calcPost` over 80 primary masses in every increasing isochrone
    interval but the last, then clamps the sum at zero.
- **simCluster bookkeeping** (`sim_filters.dfy`, `sim_tally.dfy`):
  - the intersection of the main-sequence and white-dwarf filter lists;
  - the in-place loop that erases filters without an extinction coefficient;
  - the star loop, which draws a primary and perhaps a companion and updates the star, status, mass
    and V-range tallies.

Doubles are modelled as reals. Fixed-width rows have `FILTS` entries, and the sentinel magnitude is
99.999 (`bands.dfy`). Functions whose bodies are not part of this model are function-typed fields of
an environment value. These are the transcendental calls and `msRgbEvol`, `wdEvol`, `calcAbsCoeffs`,
`logPost1Star`, `getStatus`, `wdMassNow`, `setMassRatio` and the stellar system's
`deriveCombinedMags`.

Each loop of the source is a Dafny method with its invariants. Each method is proved equal to a
specification function, and the lemmas state what the source promises about that function:
- `okMass` stays a fixed-size `array`.
- The simCluster tallies are fields of a `Tally` class.
- The reference parameters of marg.cpp are passed in and handed back as values.

Behaviour of the code a reader might not expect, which the model keeps:
- The code rejects an out-of-range [Fe/H] with `InvalidCluster` instead of extrapolating.
- It computes the age index as `rint((ceil(20 age)/20 − 0.05 − 7.8) · 20)` and asserts the bracket;
  it does not round to the nearest step and clamp.
- Its age step copies the lower-age mass instead of interpolating it.
- It asserts sortedness of the result instead of repairing it.
- A component is non-existent at mass ≤ 0.0001, not only at 0.
- `calcPost` can evaluate only isochrone entry 0 as a companion, and always with companion mass 0,
  instead of every isochrone point.

## Model

| member | source | states |
|---|---|---|
| Girardi.IsSupported | base9/MsRgbModels/GirardiMsModel.cpp:64-67 | true exactly for UBVRIJHK and ACS, false for every other filter set |
| Girardi.GetFileNames | base9/MsRgbModels/GirardiMsModel.cpp:34-55 | exactly eight paths, in the fixed metallicity-code order; each is path + ("gIsoACS/iso_acs_z" for ACS, else "gIsoStan/iso_stan_z") + code + ".50.dat" |
| Girardi.FileNamesDistinct | base9/MsRgbModels/GirardiMsModel.cpp:36-52 | the eight files of one filter set are pairwise different |
| Girardi.SupportedSetsReadDisjointFiles | base9/MsRgbModels/GirardiMsModel.cpp:43-67 | the two supported sets (UBVRIJHK, ACS) never read the same file; any unsupported set is read from the standard-magnitude directory |
| Girardi.AgeIndexClosedForm | base9/MsRgbModels/GirardiMsModel.cpp:226-232 | over the reals iAge = ceil(20·newAge) − 157 |
| Girardi.AgeIndexBrackets | base9/MsRgbModels/GirardiMsModel.cpp:226-232 | for 7.80 < newAge ≤ 10.25: 0 ≤ iAge ≤ 48 and the grid ages satisfy ages[iAge] < newAge ≤ ages[iAge+1] |
| Girardi.AgeIndexAtMinimum | base9/MsRgbModels/GirardiMsModel.cpp:226-232 | at newAge = 7.80 the index is −1 |
| Girardi.LowerBound | base9/MsRgbModels/GirardiMsModel.cpp:234 | the first node whose [Fe/H] is not below the query: every earlier node is below it |
| Girardi.FehBracket | base9/MsRgbModels/GirardiMsModel.cpp:236-243 | the stepped-back index is at most n − 2, so both bracket nodes exist |
| Girardi.FehBracketEncloses | base9/MsRgbModels/GirardiMsModel.cpp:234-243 | for an in-range [Fe/H], feh[j] ≤ newFeH ≤ feh[j+1] |
| Girardi.InterpolateMags | base9/MsRgbModels/GirardiMsModel.cpp:271-281 | the magnitude row holds the interpolation in every requested slot and 99.999 in every other slot |
| Girardi.InterpolateInAge | base9/MsRgbModels/GirardiMsModel.cpp:265-285 | the age step has min(|lo|, |hi|) points, each with the lower-age mass and magnitudes interpolated in log age |
| Girardi.InterpolateInFeh | base9/MsRgbModels/GirardiMsModel.cpp:306-331 | the [Fe/H] step has the shorter list's length, with mass and magnitudes interpolated in [Fe/H] |
| Girardi.InterpolateAgeNodes | base9/MsRgbModels/GirardiMsModel.cpp:259-299 | one pass of the age loop succeeds exactly when its equal-front-mass and age-bracket assertions hold, and then yields the age step and the interpolated log age |
| Girardi.InterpolateBracket | base9/MsRgbModels/GirardiMsModel.cpp:252-335 | the two-stage interpolation after the bracket checks, with every assertion failure as an error result |
| Girardi.DeriveIsochrone | base9/MsRgbModels/GirardiMsModel.cpp:213-336 | deriveIsochrone returns exactly what the query's specification gives, errors included |
| Girardi.RangeCheckIsExact | base9/MsRgbModels/GirardiMsModel.cpp:217-223 | InvalidCluster is raised if and only if newAge < 7.80, newAge > 10.25, or newFeH lies outside [first feh, last feh] |
| Girardi.RejectsMinimumAge | base9/MsRgbModels/GirardiMsModel.cpp:217-250 | newAge = 7.80 passes the range check but fails the iAge ≥ 0 assertion |
| Girardi.ExactGridBracketsHold | base9/MsRgbModels/GirardiMsModel.cpp:245-303 | on the exact 50-age grid the age-bracket assertions hold; each interpolated log age lies between its bracket ages and is the same for both metallicities |
| Girardi.AgeStageAscending | base9/MsRgbModels/GirardiMsModel.cpp:269-285 | the age step keeps the lower node's mass order |
| Girardi.FehStageAscending | base9/MsRgbModels/GirardiMsModel.cpp:323-333 | [Fe/H] interpolation of two ascending mass lists, inside the bracket, ascends |
| Girardi.SucceedsOnExactGrid | base9/MsRgbModels/GirardiMsModel.cpp:213-335 | on an exact grid with ascending nodes of equal front mass, every in-range query above 7.80 succeeds and its isochrone ascends in mass (the final assertion holds) |
| Girardi.DerivedPoints | base9/MsRgbModels/GirardiMsModel.cpp:265-331 | a successful result has the minimum of the four node lengths; each mass is the [Fe/H] interpolation of the two lower-age masses; requested magnitudes are the [Fe/H] interpolation of the age interpolations; every other slot is 99.999 |
| Girardi.RecordedAgeIsGridAge | base9/MsRgbModels/GirardiMsModel.cpp:287-335 | the returned log age is interpolated from grid ages, not newAge: at the lowest metallicity it equals ages[iAge], which is below newAge |
| Interp.ConvexForm | base9/MsRgbModels/GirardiMsModel.cpp:276-280 | linearTransform is the convex combination (1 − t)·y0 + t·y1 |
| Interp.WeightInUnit | base9/MsRgbModels/GirardiMsModel.cpp:287-297 | inside the bracket the weight t lies in [0, 1] |
| Interp.Between | base9/MsRgbModels/GirardiMsModel.cpp:287-297 | inside the bracket the interpolated value lies between the two end values |
| Interp.Monotone | base9/MsRgbModels/GirardiMsModel.cpp:323-327 | inside the bracket interpolation preserves the pointwise order of the end values |
| Interp.AtLower | base9/MsRgbModels/GirardiMsModel.cpp:287-291 | interpolation is exact at the lower node |
| Interp.AtUpper | base9/MsRgbModels/GirardiMsModel.cpp:287-291 | interpolation is exact at the upper node |
| MargMags.ClassifyMonotone | base9/marg.cpp:84-117 | a heavier component never falls in an earlier setMags branch |
| MargMags.BoundariesInclusive | base9/marg.cpp:91-100 | a mass equal to AGBt_zmass is main-sequence/giant; a mass equal to M_wd_up is a white dwarf |
| MargMags.WriteBands | base9/marg.cpp:86-87 | the requested slots hold the value and every other slot is kept |
| MargMags.CopyBandsFrom | base9/marg.cpp:102-103 | the requested slots are copied from the source row and every other slot is kept |
| MargMags.SetMags | base9/marg.cpp:82-118 | setMags writes exactly what its five-branch specification gives to the row, star, ltau and globalMags; in the white-dwarf branch the star is the one wdEvol hands back |
| MargMags.SetMagsBranches | base9/marg.cpp:82-118 | per branch: DNE with massNow 0, MSRG with massNow = mass, NSBH, or DNE above 100; 99.999 or the wdEvol row in the requested bands; outside the main-sequence branch unrequested bands untouched; the white-dwarf branch leaves the star, ltau and globalMags wdEvol produced; every other branch keeps ltau, globalMags, wdLogTeff, photometry and the other component |
| MargMags.CombineBands | base9/marg.cpp:127-141 | a secondary present in the first requested band gives flux-summed magnitudes in every requested band, otherwise the primary's; flux is the last band's sum |
| MargMags.ShiftBands | base9/marg.cpp:143-150 | each entry shifts its band by mod and then by (A_f − 1)·Av, and photometry[i] records the band after the i-th shift |
| MargMags.ShiftedRowClosedForm | base9/marg.cpp:143-148 | each band is shifted once per occurrence in the filter list |
| MargMags.DeriveCombinedMags | base9/marg.cpp:120-151 | deriveCombinedMags writes what combine-then-shift gives to the row, photometry and flux |
| MargMags.UnrequestedBandsKept | base9/marg.cpp:129-148 | bands not requested keep their value in mag[2] |
| MargMags.CombinedOnDistinctBands | base9/marg.cpp:127-150 | with distinct bands, band filters[q] and photometry[q] both end as combined base + mod + (A_f − 1)·Av; the base is the primary's magnitude when the secondary's first requested band is ≥ 99 |
| Marg.RunTrial | base9/marg.cpp:167-183 | one companion trial resets the companion's state, classifies it, combines and scores the star |
| Marg.ZeroMassCompanionIsAbsent | base9/marg.cpp:166-178 | the zero companion mass always gives DNE with massNow 0, ltau 0 and 99.999 in its requested bands; with distinct bands the photometry is the shifted primary |
| Marg.MaskAfter | base9/marg.cpp:192-225 | obsFilt never exceeds the number of bands screened, and equals it while the windows overlap |
| Marg.NarrowMask | base9/marg.cpp:211-221 | each entry below nEntries − 1 is kept (×1) when it lies in the window and is no heavier than the primary, otherwise cleared |
| Marg.ScreenBand | base9/marg.cpp:194-224 | one band of the pre-screen changes the buffer, the overlap flag, obsFilt and mag[2] as one mask step says |
| Marg.OkMasses | base9/marg.cpp:187-225 | the pre-screen loop leaves exactly the mask state after all requested bands |
| Marg.MaskOnlyClears | base9/marg.cpp:191-221 | every entry stays 0 or its initial value, so every entry but index 0 is always 0 |
| Marg.MaskKeepsOnlyWindowed | base9/marg.cpp:196-221 | an entry still marked lies in the window of every band screened while the windows overlapped |
| Marg.MaskFrozenAfterFailure | base9/marg.cpp:194-224 | once the windows stop overlapping, later bands change nothing |
| Marg.FailingBandKeepsMask | base9/marg.cpp:198-205 | the failing band leaves the mask unchanged, so surviving entries are still evaluated; it copies the primary into mag[2] |
| Marg.CalcPost | base9/marg.cpp:153-252 | calcPost returns the baseline term plus the companion terms, and leaves the scratch storage as the trials leave it |
| Marg.AddCompanions | base9/marg.cpp:227-249 | the companion loop adds the term of every marked entry below nEntries − 2, with trials run in order |
| Marg.AddCompanion | base9/marg.cpp:229-248 | one pass adds the term exp(logPost + log dMass + log((m[i+1] − m[i]) / mass0)) when entry i is marked |
| Marg.CompanionsSkipUnmarked | base9/marg.cpp:227-249 | when only entry 0 can be marked, the loop from entry 1 on adds nothing |
| Marg.CalcPostHasAtMostOneCompanion | base9/marg.cpp:153-252 | the posterior is the baseline term plus at most the term of entry 0, taken only when it survived the pre-screen |
| MargEvolve.MargEvolveWithBinary | base9/marg.cpp:27-80 | the bounds error when AGBt_zmass < EPS, otherwise the clamped sum of calcPost over all evaluation points, with ltau and globalMags as the last call leaves them |
| MargEvolve.EvaluateInterval | base9/marg.cpp:57-70 | the inner loop adds calcPost at each evaluation of interval m |
| MargEvolve.AddEvaluation | base9/marg.cpp:63-68 | one evaluation adds calcPost on the storage the earlier ones left |
| MargEvolve.AccumulateSnoc | base9/marg.cpp:55-70 | the running sum over evaluations extends by one calcPost term per evaluation |
| MargEvolve.IntervalEvals | base9/marg.cpp:57-66 | an interval has 80 evaluations when its masses increase, none otherwise |
| MargEvolve.IntervalEvalsInside | base9/marg.cpp:60-66 | evaluation k of interval m has mass mass[m] + k·d/80 in [mass[m], mass[m+1]) and dMass d/80 |
| MargEvolve.EvalsInside | base9/marg.cpp:55-70 | every evaluation point lies in an increasing interval other than the last |
| MargEvolve.EvalsCount | base9/marg.cpp:55-70 | there are exactly 80 evaluations per increasing interval |
| MargEvolve.IncreasingMassesFullGrid | base9/marg.cpp:51-70 | with strictly increasing masses there are 80·(nEntries − 2) evaluations |
| MargEvolve.MargResultShape | base9/marg.cpp:39-79 | the bounds error is thrown if and only if AGBt_zmass < EPS; otherwise the result is the accumulated sum clamped at zero, never negative |
| MargEvolve.TwoEntriesGiveZero | base9/marg.cpp:53-79 | a two-entry isochrone gives posterior 0 and leaves ltau and globalMags untouched |
| SimFilters.IntersectFilters | simCluster/simCluster.cpp:67-82 | the intersection is the main-sequence list restricted to names the white-dwarf list has |
| SimFilters.IntersectionContents | simCluster/simCluster.cpp:71-81 | the intersection keeps main-sequence order, holds a name if and only if both lists have it, and holds it as often as the main-sequence list does |
| SimFilters.EraseUnknownAsWritten | simCluster/simCluster.cpp:84-97 | the erase loop as written leaves what its closed form gives: unchecked after an erase at index 0 |
| SimFilters.ErasedAsWrittenKeepsKnown | simCluster/simCluster.cpp:84-97 | the erase loop keeps every filter with a coefficient as often as it occurs, and leaves a subsequence of its input |
| SimFilters.ErasedAsWrittenIsSelectionUnlessTwoUnknownLead | simCluster/simCluster.cpp:92-95 | the loop removes exactly the filters without a coefficient if and only if the list does not start with two of them |
| SimFilters.SecondUnknownFilterSurvives | simCluster/simCluster.cpp:92-95 | on ["X", "Y"] with no coefficients the loop leaves ["Y"] |
| SimFilters.EraseUnknown | simCluster/simCluster.cpp:84-97 | the corrected loop leaves exactly the filters with a coefficient, in order |
| SimFilters.ErasedFiltersAreExactlyKnown | simCluster/simCluster.cpp:84-97 | after the corrected loop a name is present if and only if it was in the list and has a coefficient, with every occurrence kept and the order unchanged |
| SimTally.FirstAccepted | simCluster/simCluster.cpp:168-171 | the do-while loops stop at the first accepted draw |
| SimTally.DrawUntil | simCluster/simCluster.cpp:168-183 | the redraw loop returns the first accepted draw |
| SimTally.SystemDrawRules | simCluster/simCluster.cpp:168-194 | the primary is ≥ minMass; a companion is drawn if and only if the primary is neither NSBH nor WD and the uniform draw is below the binary fraction, from a ratio in [0, 1]; otherwise the secondary mass is 0 |
| SimTally.Tally.constructor | simCluster/simCluster.cpp:137-155 | the tallies start at zero and the V range at (1000, −1000) |
| SimTally.Tally.Count | simCluster/simCluster.cpp:210-238 | one status switch: MSRG and WD add one count and the current mass, NSBH one count, any other status nothing |
| SimTally.Tally.AddSystem | simCluster/simCluster.cpp:166-251 | one pass draws the system as the draw rules say and updates the tallies as one tally step says |
| SimTally.StarLoop | simCluster/simCluster.cpp:166-251 | the loop leaves the tallies of the systems drawn in order |
| SimTally.StarsCounted | simCluster/simCluster.cpp:172-188 | nStars is the number of systems plus the number of companions; massTotal is the mass of exactly those stars |
| SimTally.TalliedCounts | simCluster/simCluster.cpp:210-238 | one system adds to each counter the number of its components with that status |
| SimTally.StatusesCounted | simCluster/simCluster.cpp:210-238 | nMSRG, nWD and nNSBH are the counts of those statuses among the 2·(systems) components |
| SimTally.CountsBounded | simCluster/simCluster.cpp:166-238 | the three counters sum to at most 2·(systems), and systems ≤ nStars ≤ 2·(systems) |
| SimTally.RangeBrackets | simCluster/simCluster.cpp:244-250 | minV ≤ V ≤ maxV for every system with V < 97 and no white dwarf |
| SimTally.RangeAttained | simCluster/simCluster.cpp:244-250 | with no qualifying system the range stays (1000, −1000); otherwise minV is a qualifying V, and maxV is one or still −1000 |

## Findings

| source | as written | input that shows it | evidently intended | confidence | as-written member | corrected member |
|---|---|---|---|---|---|---|
| simCluster/simCluster.cpp:92-95 | after erasing index 0 the index is not stepped back, and the loop then advances it, so the entry that moved into index 0 is never checked | filter list ["X", "Y"] where neither name has an extinction coefficient leaves ["Y"] | every filter without a coefficient is erased | not executed | SimFilters.EraseUnknownAsWritten, SimFilters.SecondUnknownFilterSurvives | SimFilters.EraseUnknown |

## Left out

- Floating point: every double is a real. No rounding, overflow or NaN is modelled, and `ceil`/`rint` in the age index are exact over the reals. Exact grid ages (7.80 + 0.05·a) are assumed where the proofs need them (`ExactAgeGrid`).
- The transcendental functions and the collaborators with no visible body are uninterpreted functions. These are `exp10`, `log10`, `exp`, `log`, `sqrt`, `msRgbEvol`, `wdEvol`, `calcAbsCoeffs`, `logPost1Star`, `getStatus`, `wdMassNow`, `setMassRatio` and the stellar system's `deriveCombinedMags`. The claim that a 99.999 magnitude adds negligible flux is not modelled.
- wdEvol.cpp is not part of this model. `wdEvol` is an uninterpreted function of the star, the component and globalMags that returns ltau, the filled globalMags and the updated star. The model promises only that this star keeps the record's shape; which of its fields wdEvol sets is not known here.
- LinearTransform.hpp is not part of this model. `linearTransform` is the standard two-point formula, and its `.val` is the value.
- FILTS (Matrix.hpp) and EPS (constants.hpp) are not part of this model. Both are declared without a value, and nothing proved depends on their values.
- Star.hpp, Cluster.hpp and the isochrone headers are not part of this model. Only the fields marg.cpp reads or writes are represented.
- `GirardiMsModel::loadModel` and the single-file `getFileName` are left out (file parsing and a throw). The loaded table is an input, with the shape `loadModel` leaves (`WellFormed`).
- The helium-curve layer is dropped: a Girardi file has exactly one helium curve, which the source reads with `.front()`.
- The EEP number of a Girardi point is always 0 and is not modelled.
- Marg.CalcPost: the isochrone masses and mass0 must be positive, because calcPost divides by them. marg.cpp's own assertions (at least two entries, a non-empty filter list) and the MAX_ENTRIES buffer bound are preconditions.
- The filter priors are passed only to `logPost1Star`, so they live inside that collaborator.
- The star passed by value to calcPost keeps no changes; `setMass1` is modelled as setting a `mass1` field.
- MargEvolve.MargEvolveWithBinary: `mag` and `flux` are uninitialised locals in the source, and their first contents are parameters here.
- SimTally.StarLoop: the random engine, `drawFromIMF` and the normal distribution are replaced by draw sequences. Each system's draws are assumed to contain an accepted draw (`Sufficient`), because the source loops until it gets one.
- The secondary's status and current mass come from the same collaborators as the primary's.
- The photometry printing, output file and headers of simCluster are left out (I/O). So are the settings, CLI and model setup around the two modelled blocks.
- `Filters::absCoeffs` lookup is modelled as membership in a set of known filter names. The exception it throws for a missing name is the "unknown" branch.
- `restrictFilters` and the brown-dwarf and field-star blocks of simCluster are outside the modelled lines.
