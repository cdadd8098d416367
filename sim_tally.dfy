/** simCluster's star loop: drawing each system's primary and, for some, a companion, and the
    running tallies of stars, component types, masses and the V range. */
module SimTally {
  import opened MargMags

  /** The collaborators of the star loop for the fixed cluster and isochrone: a component's
      status (`getStatus`) and current mass (`wdMassNow`) from its mass, the secondary mass
      `setMassRatio` gives for a primary mass and a drawn ratio, and the V magnitude
      (combined photometry slot 2) `deriveCombinedMags` gives for the two masses. */
  datatype SimEnv = SimEnv(status: real -> Status, massNow: real -> real,
                           secondaryMass: (real, real) -> real, vMag: (real, real) -> real)

  /** The random draws of one system, in the order they would be taken: IMF masses for the
      primary, the uniform number that decides on a companion, and normal draws for the ratio. */
  datatype Draws = Draws(imf: seq<real>, uniform: real, ratios: seq<real>)

  // ---------------------------------------------------------------------------------------
  // Rejection sampling

  predicate SomeAccepted(s: seq<real>, accept: real -> bool)
  {
    exists k :: 0 <= k < |s| && accept(s[k])
  }

  /** The index of the first draw `accept` takes: the do-while loops redraw until then. */
  function FirstAccepted(s: seq<real>, accept: real -> bool): (i: nat)
    requires SomeAccepted(s, accept)
    ensures i < |s| && accept(s[i])
    ensures forall j :: 0 <= j < i ==> !accept(s[j])
  {
    if accept(s[0]) then 0
    else
      assert SomeAccepted(s[1..], accept) by {
        var k :| 0 <= k < |s| && accept(s[k]);
        assert s[1..][k - 1] == s[k];
      }
      1 + FirstAccepted(s[1..], accept)
  }

  /** A do-while loop drawing from `s` until a draw is accepted. */
  method DrawUntil(s: seq<real>, accept: real -> bool) returns (x: real)
    requires SomeAccepted(s, accept)
    ensures x == s[FirstAccepted(s, accept)]
  {
    var i := 0;
    x := s[i];
    while !accept(x)
      invariant i <= FirstAccepted(s, accept) && x == s[i]
      decreases FirstAccepted(s, accept) - i
    {
      i := i + 1;
      x := s[i];
    }
  }

  /** The primary is redrawn while its mass is below `minMass`. */
  function PrimaryAccepted(minMass: real): real -> bool
  {
    x => !(x < minMass)
  }

  /** The mass ratio is redrawn while it lies outside [0, 1]. */
  function RatioAccepted(): real -> bool
  {
    x => !(x < 0.0 || x > 1.0)
  }

  // ---------------------------------------------------------------------------------------
  // One system

  /** A drawn system: its primary mass, its secondary mass (0 for a single star), and whether
      a companion was drawn. */
  datatype System = System(primary: real, secondary: real, binary: bool)

  /** Only a primary that is neither a neutron star / black hole nor a white dwarf may get a
      companion. */
  predicate MayHaveCompanion(env: SimEnv, primary: real)
  {
    env.status(primary) != NSBH && env.status(primary) != WD
  }

  /** The draws suffice for one system: some IMF draw is accepted, and when the uniform draw
      asks for a companion some ratio draw is accepted. */
  predicate Sufficient(env: SimEnv, minMass: real, fractionBinary: real, d: Draws)
  {
    && SomeAccepted(d.imf, PrimaryAccepted(minMass))
    && ((MayHaveCompanion(env, d.imf[FirstAccepted(d.imf, PrimaryAccepted(minMass))]) && d.uniform < fractionBinary)
        ==> SomeAccepted(d.ratios, RatioAccepted()))
  }

  function SystemOf(env: SimEnv, minMass: real, fractionBinary: real, d: Draws): System
    requires Sufficient(env, minMass, fractionBinary, d)
  {
    var primary := d.imf[FirstAccepted(d.imf, PrimaryAccepted(minMass))];
    if MayHaveCompanion(env, primary) && d.uniform < fractionBinary then
      System(primary, env.secondaryMass(primary, d.ratios[FirstAccepted(d.ratios, RatioAccepted())]), true)
    else System(primary, 0.0, false)
  }

  /** The primary mass is at least `minMass`; a companion is drawn exactly when the primary may
      have one and the uniform draw is below the binary fraction, from a ratio in [0, 1];
      otherwise the secondary mass is 0. */
  lemma SystemDrawRules(env: SimEnv, minMass: real, fractionBinary: real, d: Draws)
    requires Sufficient(env, minMass, fractionBinary, d)
    ensures var sys := SystemOf(env, minMass, fractionBinary, d);
      && sys.primary >= minMass
      && (sys.binary <==> MayHaveCompanion(env, sys.primary) && d.uniform < fractionBinary)
      && (sys.binary ==> exists r :: 0.0 <= r <= 1.0 && sys.secondary == env.secondaryMass(sys.primary, r))
      && (!sys.binary ==> sys.secondary == 0.0)
  {
    var sys := SystemOf(env, minMass, fractionBinary, d);
    assert PrimaryAccepted(minMass)(sys.primary);
    if sys.binary {
      var r := d.ratios[FirstAccepted(d.ratios, RatioAccepted())];
      assert RatioAccepted()(r);
    }
  }

  // ---------------------------------------------------------------------------------------
  // The tallies

  /** The loop's running totals. */
  datatype Totals = Totals(nStars: int, massTotal: real, nMSRG: int, nWD: int, nNSBH: int,
                           msrgMassTotal: real, wdMassTotal: real, minV: real, maxV: real)

  /** The totals before the first system: no stars, and the V range set to (1000, -1000). */
  const START: Totals := Totals(0, 0.0, 0, 0, 0, 0.0, 0.0, 1000.0, -1000.0)

  /** 1 when a component of status `st` counts under `s`, else 0. */
  function Is(st: Status, s: Status): int
  {
    if st == s then 1 else 0
  }

  /** The mass a component of status `st` adds to the mass total kept for `s`. */
  function MassIf(st: Status, s: Status, massNow: real): real
  {
    if st == s then massNow else 0.0
  }

  /** One component counted by its status: a main-sequence/giant star or a white dwarf adds to
      its count and its current mass to its mass total, a neutron star or black hole adds to
      its count; any other status changes nothing. */
  function Counted(t: Totals, st: Status, massNow: real): Totals
  {
    t.(nMSRG := t.nMSRG + Is(st, MSRG), nWD := t.nWD + Is(st, WD), nNSBH := t.nNSBH + Is(st, NSBH),
       msrgMassTotal := t.msrgMassTotal + MassIf(st, MSRG, massNow),
       wdMassTotal := t.wdMassTotal + MassIf(st, WD, massNow))
  }

  /** The system's V magnitude is defined (below 97) and neither component is a white dwarf. */
  predicate InRange(env: SimEnv, sys: System)
  {
    && env.vMag(sys.primary, sys.secondary) < 97.0
    && env.status(sys.primary) != WD && env.status(sys.secondary) != WD
  }

  function V(env: SimEnv, sys: System): real
  {
    env.vMag(sys.primary, sys.secondary)
  }

  /** The stars of a system added to the star count and the mass total. */
  function Drawn(t: Totals, sys: System): Totals
  {
    t.(nStars := t.nStars + (if sys.binary then 2 else 1),
       massTotal := t.massTotal + sys.primary + (if sys.binary then sys.secondary else 0.0))
  }

  /** The V range widened to `v` when the system qualifies. */
  function Ranged(t: Totals, qualifies: bool, v: real): Totals
  {
    t.(minV := if qualifies && v < t.minV then v else t.minV,
       maxV := if qualifies && v > t.maxV then v else t.maxV)
  }

  /** The totals after one more system: its stars and their mass, both components counted by
      status, and the V range widened to the system's V when that is in range. */
  function Tallied(env: SimEnv, t: Totals, sys: System): Totals
  {
    var c := Counted(Counted(Drawn(t, sys), env.status(sys.primary), env.massNow(sys.primary)),
                     env.status(sys.secondary), env.massNow(sys.secondary));
    Ranged(c, InRange(env, sys), V(env, sys))
  }

  /** The totals after the systems in order. */
  function TotalsAfter(env: SimEnv, systems: seq<System>): Totals
  {
    if systems == [] then START
    else Tallied(env, TotalsAfter(env, systems[..|systems| - 1]), systems[|systems| - 1])
  }

  // ---------------------------------------------------------------------------------------
  // Reference counts

  function Binaries(systems: seq<System>): nat
  {
    if systems == [] then 0
    else Binaries(systems[..|systems| - 1]) + (if systems[|systems| - 1].binary then 1 else 0)
  }

  /** The mass of every star drawn: each primary, and each companion's secondary. */
  function MassDrawn(systems: seq<System>): real
  {
    if systems == [] then 0.0
    else
      var sys := systems[|systems| - 1];
      MassDrawn(systems[..|systems| - 1]) + sys.primary + (if sys.binary then sys.secondary else 0.0)
  }

  /** The statuses of all components, primary then secondary, system by system. */
  function Components(env: SimEnv, systems: seq<System>): seq<Status>
  {
    if systems == [] then []
    else
      var sys := systems[|systems| - 1];
      Components(env, systems[..|systems| - 1]) + [env.status(sys.primary), env.status(sys.secondary)]
  }

  // ---------------------------------------------------------------------------------------
  // Properties of the tallies

  /** nStars counts one star per system and one more per companion; massTotal adds up the mass
      of exactly those stars. */
  lemma {:induction false} StarsCounted(env: SimEnv, systems: seq<System>)
    ensures TotalsAfter(env, systems).nStars == |systems| + Binaries(systems)
    ensures TotalsAfter(env, systems).massTotal == MassDrawn(systems)
  {
    if systems != [] {
      StarsCounted(env, systems[..|systems| - 1]);
    }
  }

  /** What one more system adds to the counters. */
  lemma TalliedCounts(env: SimEnv, t: Totals, sys: System)
    ensures var r := Tallied(env, t, sys); var p := env.status(sys.primary); var q := env.status(sys.secondary);
      && r.nMSRG == t.nMSRG + Is(p, MSRG) + Is(q, MSRG)
      && r.nWD == t.nWD + Is(p, WD) + Is(q, WD)
      && r.nNSBH == t.nNSBH + Is(p, NSBH) + Is(q, NSBH)
  {
  }

  /** Every component counts once under its own status, and only MSRG, WD and NSBH count. */
  lemma {:induction false} StatusesCounted(env: SimEnv, systems: seq<System>)
    ensures var t := TotalsAfter(env, systems); var c := multiset(Components(env, systems));
      && t.nMSRG == c[MSRG] && t.nWD == c[WD] && t.nNSBH == c[NSBH]
      && |Components(env, systems)| == 2 * |systems|
  {
    if systems != [] {
      var prefix := systems[..|systems| - 1];
      var sys := systems[|systems| - 1];
      StatusesCounted(env, prefix);
      TalliedCounts(env, TotalsAfter(env, prefix), sys);
      ComponentsSnoc(env, systems, MSRG);
      ComponentsSnoc(env, systems, WD);
      ComponentsSnoc(env, systems, NSBH);
    }
  }

  /** The last system adds its two components' statuses to the component list. */
  lemma ComponentsSnoc(env: SimEnv, systems: seq<System>, x: Status)
    requires systems != []
    ensures var sys := systems[|systems| - 1];
      var prefix := Components(env, systems[..|systems| - 1]);
      && multiset(Components(env, systems))[x]
         == multiset(prefix)[x] + Is(env.status(sys.primary), x) + Is(env.status(sys.secondary), x)
      && |Components(env, systems)| == |prefix| + 2
  {
    var sys := systems[|systems| - 1];
    var prefix := Components(env, systems[..|systems| - 1]);
    var p := env.status(sys.primary);
    var q := env.status(sys.secondary);
    assert Components(env, systems) == prefix + [p, q];
    CountPair(prefix, p, q, x);
  }

  lemma CountPair(a: seq<Status>, p: Status, q: Status, x: Status)
    ensures multiset(a + [p, q])[x] == multiset(a)[x] + Is(p, x) + Is(q, x)
  {
    assert a + [p, q] == (a + [p]) + [q];
    assert multiset((a + [p]) + [q]) == multiset(a + [p]) + multiset{q};
    assert multiset(a + [p]) == multiset(a) + multiset{p};
  }

  /** No more components are counted than stars can have: two per system. */
  lemma {:induction false} CountsBounded(env: SimEnv, systems: seq<System>)
    ensures var t := TotalsAfter(env, systems);
      0 <= t.nMSRG + t.nWD + t.nNSBH <= 2 * |systems| && |systems| <= t.nStars <= 2 * |systems|
  {
    if systems != [] {
      var prefix := systems[..|systems| - 1];
      var sys := systems[|systems| - 1];
      CountsBounded(env, prefix);
      TalliedCounts(env, TotalsAfter(env, prefix), sys);
    }
  }

  /** The V range brackets the V of every system with a defined V and no white dwarf. */
  lemma {:induction false} RangeBrackets(env: SimEnv, systems: seq<System>, j: nat)
    requires j < |systems| && InRange(env, systems[j])
    ensures TotalsAfter(env, systems).minV <= V(env, systems[j]) <= TotalsAfter(env, systems).maxV
  {
    var prefix := systems[..|systems| - 1];
    if j < |systems| - 1 {
      assert prefix[j] == systems[j];
      RangeBrackets(env, prefix, j);
    }
  }

  /** Without such a system the range keeps its start values (1000, -1000); with one, minV is
      the V of one of them, and maxV is the V of one of them unless all of them lie at or
      below -1000. */
  lemma {:induction false} RangeAttained(env: SimEnv, systems: seq<System>)
    ensures var t := TotalsAfter(env, systems);
      && ((forall j :: 0 <= j < |systems| ==> !InRange(env, systems[j])) ==> t.minV == 1000.0 && t.maxV == -1000.0)
      && ((exists j :: 0 <= j < |systems| && InRange(env, systems[j])) ==>
            && (exists j :: 0 <= j < |systems| && InRange(env, systems[j]) && t.minV == V(env, systems[j]))
            && (t.maxV == -1000.0 || exists j :: 0 <= j < |systems| && InRange(env, systems[j]) && t.maxV == V(env, systems[j])))
  {
    if systems != [] {
      var prefix := systems[..|systems| - 1];
      var n := |systems| - 1;
      RangeAttained(env, prefix);
      forall j | 0 <= j < n
        ensures prefix[j] == systems[j]
      {
      }
      var p := TotalsAfter(env, prefix);
      var t := TotalsAfter(env, systems);
      if InRange(env, systems[n]) {
        if exists j :: 0 <= j < n && InRange(env, prefix[j]) {
          var j :| 0 <= j < n && InRange(env, prefix[j]) && p.minV == V(env, prefix[j]);
          assert t.minV == p.minV || t.minV == V(env, systems[n]);
          if p.maxV != -1000.0 {
            var k :| 0 <= k < n && InRange(env, prefix[k]) && p.maxV == V(env, prefix[k]);
            assert t.maxV == p.maxV || t.maxV == V(env, systems[n]);
          }
        }
      } else {
        assert t.minV == p.minV && t.maxV == p.maxV;
        if exists j :: 0 <= j < |systems| && InRange(env, systems[j]) {
          var j :| 0 <= j < |systems| && InRange(env, systems[j]);
          assert InRange(env, prefix[j]);
        }
      }
    }
  }

  // ---------------------------------------------------------------------------------------
  // The loop

  /** The tallies simCluster keeps in file-scope and local variables across its star loop. */
  class Tally {
    var nStars: int
    var massTotal: real
    var nMSRG: int
    var nWD: int
    var nNSBH: int
    var msrgMassTotal: real
    var wdMassTotal: real
    var minV: real
    var maxV: real

    function State(): Totals
      reads this
    {
      Totals(nStars, massTotal, nMSRG, nWD, nNSBH, msrgMassTotal, wdMassTotal, minV, maxV)
    }

    constructor ()
      ensures State() == START
    {
      nStars, massTotal := 0, 0.0;
      nMSRG, nWD, nNSBH := 0, 0, 0;
      msrgMassTotal, wdMassTotal := 0.0, 0.0;
      minV, maxV := 1000.0, -1000.0;
    }

    /** One of the two status switches. */
    method Count(st: Status, massNow: real)
      modifies this
      ensures State() == Counted(old(State()), st, massNow)
    {
      match st
      case MSRG =>
        nMSRG := nMSRG + 1;
        msrgMassTotal := msrgMassTotal + massNow;
      case WD =>
        nWD := nWD + 1;
        wdMassTotal := wdMassTotal + massNow;
      case NSBH =>
        nNSBH := nNSBH + 1;
      case _ =>
    }

    /** One pass of the star loop body. */
    method AddSystem(env: SimEnv, minMass: real, fractionBinary: real, d: Draws) returns (sys: System)
      requires Sufficient(env, minMass, fractionBinary, d)
      modifies this
      ensures sys == SystemOf(env, minMass, fractionBinary, d)
      ensures State() == Tallied(env, old(State()), sys)
    {
      ghost var t0 := State();
      var primary := DrawUntil(d.imf, PrimaryAccepted(minMass));
      nStars := nStars + 1;
      massTotal := massTotal + primary;
      var secondary := 0.0;
      var binary := false;
      if env.status(primary) != NSBH && env.status(primary) != WD {
        if d.uniform < fractionBinary {
          var ratio := DrawUntil(d.ratios, RatioAccepted());
          secondary := env.secondaryMass(primary, ratio);
          binary := true;
          nStars := nStars + 1;
          massTotal := massTotal + secondary;
        }
      }
      sys := System(primary, secondary, binary);
      assert State() == Drawn(t0, sys);
      Count(env.status(primary), env.massNow(primary));
      Count(env.status(secondary), env.massNow(secondary));
      ghost var t1 := State();
      var v := env.vMag(primary, secondary);
      if v < 97.0 && env.status(primary) != WD && env.status(secondary) != WD {
        if v < minV {
          minV := v;
        }
        if v > maxV {
          maxV := v;
        }
      }
      assert State() == Ranged(t1, InRange(env, sys), V(env, sys));
    }
  }

  /** The systems the draws give, in order. */
  function SystemsOf(env: SimEnv, minMass: real, fractionBinary: real, draws: seq<Draws>): (r: seq<System>)
    requires forall i :: 0 <= i < |draws| ==> Sufficient(env, minMass, fractionBinary, draws[i])
    ensures |r| == |draws|
  {
    if draws == [] then []
    else SystemsOf(env, minMass, fractionBinary, draws[..|draws| - 1])
         + [SystemOf(env, minMass, fractionBinary, draws[|draws| - 1])]
  }

  lemma SystemsOfSnoc(env: SimEnv, minMass: real, fractionBinary: real, draws: seq<Draws>, i: nat)
    requires i < |draws|
    requires forall k :: 0 <= k <= i ==> Sufficient(env, minMass, fractionBinary, draws[k])
    ensures SystemsOf(env, minMass, fractionBinary, draws[..i + 1])
         == SystemsOf(env, minMass, fractionBinary, draws[..i]) + [SystemOf(env, minMass, fractionBinary, draws[i])]
  {
    assert draws[..i + 1][..i] == draws[..i];
  }

  lemma TotalsAfterSnoc(env: SimEnv, systems: seq<System>, sys: System)
    ensures TotalsAfter(env, systems + [sys]) == Tallied(env, TotalsAfter(env, systems), sys)
  {
    assert (systems + [sys])[..|systems|] == systems;
  }

  /** The star loop over `nSystems` systems, the i-th drawn from `draws[i]`. */
  method StarLoop(env: SimEnv, nSystems: int, minMass: real, fractionBinary: real, draws: seq<Draws>)
    returns (tally: Tally)
    requires nSystems <= |draws|
    requires forall i :: 0 <= i < nSystems ==> Sufficient(env, minMass, fractionBinary, draws[i])
    ensures fresh(tally)
    ensures var n := if nSystems < 0 then 0 else nSystems;
      tally.State() == TotalsAfter(env, SystemsOf(env, minMass, fractionBinary, draws[..n]))
  {
    tally := new Tally();
    ghost var systems: seq<System> := [];
    var i := 0;
    while i < nSystems
      invariant 0 <= i <= if nSystems < 0 then 0 else nSystems
      invariant systems == SystemsOf(env, minMass, fractionBinary, draws[..i])
      invariant tally.State() == TotalsAfter(env, systems)
    {
      var sys := tally.AddSystem(env, minMass, fractionBinary, draws[i]);
      SystemsOfSnoc(env, minMass, fractionBinary, draws, i);
      TotalsAfterSnoc(env, systems, sys);
      systems := systems + [sys];
      i := i + 1;
    }
    assert i == if nSystems < 0 then 0 else nSystems;
  }
}
