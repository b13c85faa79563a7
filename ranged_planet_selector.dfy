/**
 * RangedPlanetSelector: picks a planet near the campaign's current system at
 * random, weighted by population and distance, from a cumulative-weight table
 * that is cached per faction until the date advances or the system changes.
 *
 * The star map is given as a snapshot: each nearby system carries its faction
 * set at the campaign date and its distance to the current system, each planet
 * its population at the campaign date. The floating-point weight
 * 100 * log10(pop) / (1 + distance * scale) is an abstract function passed in.
 */
module RangedPlanetSelection {
  import opened Wrappers
  import opened WeightTable

  /** A LocalDate as a day number; later dates are larger. */
  type Date = int

  datatype Faction = Faction(shortName: string, isMerc: bool)

  /** A planet with its population at the campaign date (null when unknown). */
  datatype Planet = Planet(id: string, population: Option<int>)

  /** A planetary system as seen from the campaign's date and current system. */
  datatype StarSystem = StarSystem(
    id: string,
    primary: Planet,
    planets: seq<Planet>,
    factions: set<Faction>,
    distance: real)

  /**
   * What the selector reads from the campaign: the date, the campaign's
   * faction, the current system, and the systems within the selector's range
   * of it, in the order the star map lists them.
   */
  datatype Campaign = Campaign(date: Date, faction: Faction, currentSystem: StarSystem, nearby: seq<StarSystem>)

  /** The weight of a planet from its population, its system's distance and the distance scale. */
  type Weigher = (int, real, real) -> real

  /** At the given scale, a populated planet at any non-negative distance weighs nothing negative. */
  ghost predicate NonNegativeAt(w: Weigher, scale: real) {
    forall pop: int, d: real :: pop > 0 && d >= 0.0 ==> w(pop, d, scale) >= 0.0
  }

  /** At the given scale, a populated planet at any non-negative distance weighs more than zero. */
  ghost predicate PositiveAt(w: Weigher, scale: real) {
    forall pop: int, d: real :: pop > 0 && d >= 0.0 ==> w(pop, d, scale) > 0.0
  }

  /**
   * The weight createLookupMap computes, 100 * log10(pop) / (1 + distance * scale),
   * with log10 given as a parameter. A zero divisor, which needs a negative
   * scale, yields 0 here; Java's division would yield an infinity or NaN.
   */
  function Formula(log10: int -> real): Weigher {
    (pop: int, d: real, s: real) => if 1.0 + d * s == 0.0 then 0.0 else 100.0 * log10(pop) / (1.0 + d * s)
  }

  /** For a non-negative scale the formula meets NonNegativeAt, since log10 of a positive population is not negative. */
  lemma FormulaNonNegative(log10: int -> real, scale: real)
    requires scale >= 0.0
    requires forall pop: int :: pop > 0 ==> log10(pop) >= 0.0
    ensures NonNegativeAt(Formula(log10), scale)
  {
    forall pop: int, d: real | pop > 0 && d >= 0.0
      ensures Formula(log10)(pop, d, scale) >= 0.0
    {
      assert d * scale >= 0.0;
      assert 1.0 + d * scale > 0.0;
      assert 100.0 * log10(pop) >= 0.0;
    }
  }

  /** For a negative scale it does not: at distance 1 and scale -2 a population of 10 weighs -100. */
  lemma FormulaNegativeAtNegativeScale(log10: int -> real)
    requires log10(10) == 1.0
    ensures !NonNegativeAt(Formula(log10), -2.0)
  {
    assert Formula(log10)(10, 1.0, -2.0) == -100.0;
  }

  /** The distances of the star map are never negative. */
  ghost predicate DistancesNonNegative(systems: seq<StarSystem>) {
    forall i :: 0 <= i < |systems| ==> systems[i].distance >= 0.0
  }

  /** A mercenary faction may come from anywhere; any other only from systems it holds. */
  predicate Eligible(f: Faction, s: StarSystem) {
    f.isMerc || f in s.factions
  }

  /** The planets of a system that are weighed: all of them with extra randomness, else the primary. */
  function Candidates(s: StarSystem, extraRandom: bool): seq<Planet> {
    if extraRandom then s.planets else [s.primary]
  }

  /** Only a known, positive population is weighed. */
  predicate Populated(p: Planet) {
    p.population.Some? && p.population.value > 0
  }

  /** The loop state of createLookupMap: the running total and the table filled so far. */
  datatype Tally = Tally(total: real, table: Table<Planet>)

  /** One candidate planet: a populated one adds its weight to the total and is put under it. */
  function Visit(a: Tally, p: Planet, distance: real, scale: real, w: Weigher): (r: Tally)
    requires Ascending(a.table)
    ensures Ascending(r.table)
  {
    if Populated(p) then
      var total := a.total + w(p.population.value, distance, scale);
      Tally(total, Put(a.table, total, p))
    else a
  }

  function VisitPlanets(a: Tally, ps: seq<Planet>, distance: real, scale: real, w: Weigher): (r: Tally)
    requires Ascending(a.table)
    ensures Ascending(r.table)
    decreases |ps|
  {
    if ps == [] then a
    else Visit(VisitPlanets(a, ps[..|ps| - 1], distance, scale, w), ps[|ps| - 1], distance, scale, w)
  }

  function VisitSystem(a: Tally, s: StarSystem, f: Faction, extraRandom: bool, scale: real, w: Weigher): (r: Tally)
    requires Ascending(a.table)
    ensures Ascending(r.table)
  {
    if Eligible(f, s) then VisitPlanets(a, Candidates(s, extraRandom), s.distance, scale, w) else a
  }

  /** The loop over the nearby systems, from a zero total and an empty table. */
  function Tabulate(systems: seq<StarSystem>, f: Faction, extraRandom: bool, scale: real, w: Weigher): (r: Tally)
    ensures Ascending(r.table)
    decreases |systems|
  {
    if systems == [] then Tally(0.0, [])
    else VisitSystem(Tabulate(systems[..|systems| - 1], f, extraRandom, scale, w), systems[|systems| - 1], f, extraRandom, scale, w)
  }

  /**
   * The table createLookupMap builds: the tabulated weights, or the single
   * entry 1.0 -> the current system's primary planet when nothing qualified.
   */
  function LookupTable(c: Campaign, f: Faction, extraRandom: bool, scale: real, w: Weigher): (r: Table<Planet>)
    ensures |r| > 0 && Ascending(r)
  {
    var t := Tabulate(c.nearby, f, extraRandom, scale, w).table;
    if t == [] then Put(t, 1.0, c.currentSystem.primary) else t
  }

  /** The system would contribute a planet: the faction may come from it and a candidate is populated. */
  ghost predicate HasCandidate(s: StarSystem, f: Faction, extraRandom: bool) {
    Eligible(f, s) && exists p :: p in Candidates(s, extraRandom) && Populated(p)
  }

  ghost predicate AnyCandidate(systems: seq<StarSystem>, f: Faction, extraRandom: bool) {
    exists i :: 0 <= i < |systems| && HasCandidate(systems[i], f, extraRandom)
  }

  lemma {:induction false} VisitPlanetsEmpty(a: Tally, ps: seq<Planet>, distance: real, scale: real, w: Weigher)
    requires Ascending(a.table)
    ensures VisitPlanets(a, ps, distance, scale, w).table == []
        <==> a.table == [] && forall p :: p in ps ==> !Populated(p)
    decreases |ps|
  {
    if ps != [] {
      var init := ps[..|ps| - 1];
      VisitPlanetsEmpty(a, init, distance, scale, w);
      assert ps == init + [ps[|ps| - 1]];
    }
  }

  /** The table stays empty exactly when no nearby system has a qualifying candidate. */
  lemma {:induction false} TabulateEmpty(systems: seq<StarSystem>, f: Faction, extraRandom: bool, scale: real, w: Weigher)
    ensures Tabulate(systems, f, extraRandom, scale, w).table == [] <==> !AnyCandidate(systems, f, extraRandom)
    decreases |systems|
  {
    if systems != [] {
      var init := systems[..|systems| - 1];
      var last := systems[|systems| - 1];
      TabulateEmpty(init, f, extraRandom, scale, w);
      var a := Tabulate(init, f, extraRandom, scale, w);
      if Eligible(f, last) {
        VisitPlanetsEmpty(a, Candidates(last, extraRandom), last.distance, scale, w);
      }
      assert forall i :: 0 <= i < |init| ==> init[i] == systems[i];
      if AnyCandidate(systems, f, extraRandom) {
        var i :| 0 <= i < |systems| && HasCandidate(systems[i], f, extraRandom);
        if i < |init| {
          assert HasCandidate(init[i], f, extraRandom);
        }
      }
    }
  }

  /**
   * The fallback entry 1.0 -> primary planet of the current system is used
   * exactly when no candidate qualified; otherwise the table is the
   * tabulated one.
   */
  lemma Fallback(c: Campaign, f: Faction, extraRandom: bool, scale: real, w: Weigher)
    ensures !AnyCandidate(c.nearby, f, extraRandom)
        ==> LookupTable(c, f, extraRandom, scale, w) == [(1.0, c.currentSystem.primary)]
    ensures AnyCandidate(c.nearby, f, extraRandom)
        ==> LookupTable(c, f, extraRandom, scale, w) == Tabulate(c.nearby, f, extraRandom, scale, w).table != []
  {
    TabulateEmpty(c.nearby, f, extraRandom, scale, w);
  }

  lemma {:induction false} VisitPlanetsMembers(a: Tally, ps: seq<Planet>, distance: real, scale: real, w: Weigher)
    requires Ascending(a.table)
    ensures forall e :: e in VisitPlanets(a, ps, distance, scale, w).table ==>
      e in a.table || (Populated(e.1) && e.1 in ps)
    decreases |ps|
  {
    if ps != [] {
      var init := ps[..|ps| - 1];
      var last := ps[|ps| - 1];
      VisitPlanetsMembers(a, init, distance, scale, w);
      var b := VisitPlanets(a, init, distance, scale, w);
      var r := Visit(b, last, distance, scale, w);
      assert VisitPlanets(a, ps, distance, scale, w) == r;
      if Populated(last) {
        PutContents(b.table, r.total, last);
      }
      forall e | e in r.table
        ensures e in a.table || (Populated(e.1) && e.1 in ps)
      {
        if e in b.table {
          if e.1 in init {
            assert e.1 in ps;
          }
        }
      }
    }
  }

  /** The planet is a candidate of one of the systems that the faction may come from. */
  ghost predicate FromEligible(p: Planet, systems: seq<StarSystem>, f: Faction, extraRandom: bool) {
    exists i :: 0 <= i < |systems| && Eligible(f, systems[i]) && p in Candidates(systems[i], extraRandom)
  }

  /** Every tabulated planet is populated and a candidate of a nearby system the faction may come from. */
  lemma {:induction false} TabulateMembers(systems: seq<StarSystem>, f: Faction, extraRandom: bool, scale: real, w: Weigher)
    ensures forall e :: e in Tabulate(systems, f, extraRandom, scale, w).table ==>
      Populated(e.1) && FromEligible(e.1, systems, f, extraRandom)
    decreases |systems|
  {
    if systems != [] {
      var init := systems[..|systems| - 1];
      var last := systems[|systems| - 1];
      TabulateMembers(init, f, extraRandom, scale, w);
      var a := Tabulate(init, f, extraRandom, scale, w);
      if Eligible(f, last) {
        VisitPlanetsMembers(a, Candidates(last, extraRandom), last.distance, scale, w);
      }
      forall e | e in Tabulate(systems, f, extraRandom, scale, w).table
        ensures FromEligible(e.1, systems, f, extraRandom)
      {
        if e in a.table {
          var i :| 0 <= i < |init| && Eligible(f, init[i]) && e.1 in Candidates(init[i], extraRandom);
          assert systems[i] == init[i];
        } else {
          assert systems[|systems| - 1] == last;
        }
      }
    }
  }

  /** The planet is what the selector weighs for that system: any of its planets, or only its primary. */
  predicate Offered(p: Planet, s: StarSystem, extraRandom: bool) {
    if extraRandom then p in s.planets else p == s.primary
  }

  /**
   * What the selector can return: the fallback primary planet when nothing
   * qualified, else a populated planet of an eligible nearby system, which
   * is that system's primary unless extra randomness is on.
   */
  lemma LookupTableMembers(c: Campaign, f: Faction, extraRandom: bool, scale: real, w: Weigher)
    ensures forall e :: e in LookupTable(c, f, extraRandom, scale, w) ==>
      || (!AnyCandidate(c.nearby, f, extraRandom) && e == (1.0, c.currentSystem.primary))
      || (Populated(e.1) && exists i :: 0 <= i < |c.nearby| && Eligible(f, c.nearby[i]) && Offered(e.1, c.nearby[i], extraRandom))
  {
    Fallback(c, f, extraRandom, scale, w);
    TabulateMembers(c.nearby, f, extraRandom, scale, w);
  }

  /** The running total is the largest key once anything was put, and zero before. */
  ghost predicate Consistent(a: Tally) {
    && a.total >= 0.0
    && (a.table == [] ==> a.total == 0.0)
    && (a.table != [] ==> LastKey(a.table) == a.total)
  }

  /**
   * One visit under non-negative weights: a populated planet is appended under
   * the new total, or replaces the last entry when its weight is zero (the
   * TreeMap put overwrites an equal key); the totals stay consistent.
   */
  lemma VisitAtEnd(a: Tally, p: Planet, distance: real, scale: real, w: Weigher)
    requires Ascending(a.table) && Consistent(a) && NonNegativeAt(w, scale) && distance >= 0.0
    ensures Consistent(Visit(a, p, distance, scale, w))
    ensures !Populated(p) ==> Visit(a, p, distance, scale, w) == a
    ensures Populated(p) && (a.table == [] || w(p.population.value, distance, scale) > 0.0)
        ==> Visit(a, p, distance, scale, w).table == a.table + [(Visit(a, p, distance, scale, w).total, p)]
    ensures Populated(p) && a.table != [] && w(p.population.value, distance, scale) == 0.0
        ==> Visit(a, p, distance, scale, w).table == a.table[..|a.table| - 1] + [(a.total, p)]
  {
    if Populated(p) {
      var weight := w(p.population.value, distance, scale);
      var total := a.total + weight;
      if a.table == [] || weight > 0.0 {
        PutAppends(a.table, total, p);
      } else {
        PutOverwritesLast(a.table, total, p);
      }
    }
  }

  lemma {:induction false} VisitPlanetsConsistent(a: Tally, ps: seq<Planet>, distance: real, scale: real, w: Weigher)
    requires Ascending(a.table) && Consistent(a) && NonNegativeAt(w, scale) && distance >= 0.0
    ensures Consistent(VisitPlanets(a, ps, distance, scale, w))
    decreases |ps|
  {
    if ps != [] {
      VisitPlanetsConsistent(a, ps[..|ps| - 1], distance, scale, w);
      VisitAtEnd(VisitPlanets(a, ps[..|ps| - 1], distance, scale, w), ps[|ps| - 1], distance, scale, w);
    }
  }

  /** With non-negative weights the largest key is the total weight of everything visited. */
  lemma {:induction false} TabulateConsistent(systems: seq<StarSystem>, f: Faction, extraRandom: bool, scale: real, w: Weigher)
    requires NonNegativeAt(w, scale) && DistancesNonNegative(systems)
    ensures Consistent(Tabulate(systems, f, extraRandom, scale, w))
    decreases |systems|
  {
    if systems != [] {
      var init := systems[..|systems| - 1];
      var last := systems[|systems| - 1];
      TabulateConsistent(init, f, extraRandom, scale, w);
      if Eligible(f, last) {
        VisitPlanetsConsistent(Tabulate(init, f, extraRandom, scale, w), Candidates(last, extraRandom), last.distance, scale, w);
      }
    }
  }

  /** Under positive weights every visit appends, so the earlier table is a prefix and the planet is present. */
  lemma {:induction false} VisitPlanetsComplete(a: Tally, ps: seq<Planet>, distance: real, scale: real, w: Weigher)
    requires Ascending(a.table) && Consistent(a) && PositiveAt(w, scale) && distance >= 0.0
    ensures a.table <= VisitPlanets(a, ps, distance, scale, w).table
    ensures forall p :: p in ps && Populated(p) ==> p in Values(VisitPlanets(a, ps, distance, scale, w).table)
    decreases |ps|
  {
    if ps != [] {
      var init := ps[..|ps| - 1];
      var last := ps[|ps| - 1];
      var b := VisitPlanets(a, init, distance, scale, w);
      VisitPlanetsComplete(a, init, distance, scale, w);
      VisitPlanetsConsistent(a, init, distance, scale, w);
      VisitAtEnd(b, last, distance, scale, w);
      var r := VisitPlanets(a, ps, distance, scale, w);
      assert b.table <= r.table;
      forall p | p in ps && Populated(p)
        ensures p in Values(r.table)
      {
        if p == last {
          assert r.table[|r.table| - 1].1 == p;
        } else {
          assert p in init;
          var e :| e in b.table && e.1 == p;
          assert e in r.table;
        }
      }
    }
  }

  /** Under positive weights the table only grows at its end from one system to the next. */
  lemma TabulateExtends(systems: seq<StarSystem>, f: Faction, extraRandom: bool, scale: real, w: Weigher)
    requires PositiveAt(w, scale) && DistancesNonNegative(systems) && systems != []
    ensures Tabulate(systems[..|systems| - 1], f, extraRandom, scale, w).table <= Tabulate(systems, f, extraRandom, scale, w).table
  {
    var init := systems[..|systems| - 1];
    var last := systems[|systems| - 1];
    TabulateConsistent(init, f, extraRandom, scale, w);
    if Eligible(f, last) {
      VisitPlanetsComplete(Tabulate(init, f, extraRandom, scale, w), Candidates(last, extraRandom), last.distance, scale, w);
    }
  }

  /** Under strictly positive weights every qualifying candidate appears in the table. */
  lemma {:induction false} TabulateComplete(systems: seq<StarSystem>, f: Faction, extraRandom: bool, scale: real, w: Weigher, i: nat, p: Planet)
    requires PositiveAt(w, scale) && DistancesNonNegative(systems)
    requires i < |systems| && Eligible(f, systems[i]) && p in Candidates(systems[i], extraRandom) && Populated(p)
    ensures p in Values(Tabulate(systems, f, extraRandom, scale, w).table)
    decreases |systems|
  {
    var init := systems[..|systems| - 1];
    var last := systems[|systems| - 1];
    var a := Tabulate(init, f, extraRandom, scale, w);
    if i == |systems| - 1 {
      TabulateConsistent(init, f, extraRandom, scale, w);
      VisitPlanetsComplete(a, Candidates(last, extraRandom), last.distance, scale, w);
    } else {
      assert init[i] == systems[i];
      TabulateComplete(init, f, extraRandom, scale, w, i, p);
      TabulateExtends(systems, f, extraRandom, scale, w);
      var e :| e in a.table && e.1 == p;
      assert e in Tabulate(systems, f, extraRandom, scale, w).table;
    }
  }

  /**
   * Drawing from the table fails (the random bound is not positive) exactly
   * when some candidate qualified but all their weights were zero.
   */
  lemma PickFailsOnlyOnZeroTotal(c: Campaign, f: Faction, extraRandom: bool, scale: real, w: Weigher, u: real)
    requires NonNegativeAt(w, scale) && DistancesNonNegative(c.nearby) && 0.0 <= u < 1.0
    ensures Pick(LookupTable(c, f, extraRandom, scale, w), u).None?
        <==> AnyCandidate(c.nearby, f, extraRandom) && Tabulate(c.nearby, f, extraRandom, scale, w).total == 0.0
  {
    Fallback(c, f, extraRandom, scale, w);
    TabulateConsistent(c.nearby, f, extraRandom, scale, w);
  }

  /** A successful draw returns the fallback planet or a populated candidate of an eligible nearby system. */
  lemma SelectionQualifies(c: Campaign, f: Faction, extraRandom: bool, scale: real, w: Weigher, u: real)
    requires 0.0 <= u < 1.0
    ensures Pick(LookupTable(c, f, extraRandom, scale, w), u).Some? ==>
      var p := Pick(LookupTable(c, f, extraRandom, scale, w), u).value;
      || (!AnyCandidate(c.nearby, f, extraRandom) && p == c.currentSystem.primary)
      || (Populated(p) && exists i :: 0 <= i < |c.nearby| && Eligible(f, c.nearby[i]) && Offered(p, c.nearby[i], extraRandom))
  {
    var t := LookupTable(c, f, extraRandom, scale, w);
    LookupTableMembers(c, f, extraRandom, scale, w);
    if Pick(t, u).Some? {
      var k :| CeilingAt(t, Draw(u, LastKey(t)), k) && t[k].1 == Pick(t, u).value;
      assert t[k] in t;
    }
  }

  /**
   * createLookupMap's loop: walks the nearby systems in order, adding each
   * populated candidate's weight to the running total and putting the planet
   * under it; falls back to 1.0 -> the current primary planet.
   */
  method BuildTable(c: Campaign, f: Faction, extraRandom: bool, scale: real, w: Weigher) returns (planets: Table<Planet>)
    ensures planets == LookupTable(c, f, extraRandom, scale, w)
  {
    planets := [];
    var total := 0.0;
    var i := 0;
    while i < |c.nearby|
      invariant 0 <= i <= |c.nearby|
      invariant Tally(total, planets) == Tabulate(c.nearby[..i], f, extraRandom, scale, w)
    {
      total, planets := AddSystem(c.nearby[i], f, extraRandom, scale, w, total, planets);
      assert c.nearby[..i + 1][..i] == c.nearby[..i];
      i := i + 1;
    }
    assert c.nearby[..i] == c.nearby;
    if planets == [] {
      planets := Put(planets, 1.0, c.currentSystem.primary);
    }
  }

  /** The body of createLookupMap's loop for one system. */
  method AddSystem(system: StarSystem, f: Faction, extraRandom: bool, scale: real, w: Weigher,
                   total0: real, planets0: Table<Planet>) returns (total: real, planets: Table<Planet>)
    requires Ascending(planets0)
    ensures Tally(total, planets) == VisitSystem(Tally(total0, planets0), system, f, extraRandom, scale, w)
  {
    total, planets := total0, planets0;
    var distance := system.distance;
    if f.isMerc || f in system.factions {
      if !extraRandom {
        var planet := system.primary;
        total, planets := AddPlanet(planet, distance, scale, w, total, planets);
        assert [planet][..0] == [];
        assert Tally(total, planets) == VisitPlanets(Tally(total0, planets0), [planet], distance, scale, w);
      } else {
        var j := 0;
        while j < |system.planets|
          invariant 0 <= j <= |system.planets|
          invariant Tally(total, planets) == VisitPlanets(Tally(total0, planets0), system.planets[..j], distance, scale, w)
        {
          total, planets := AddPlanet(system.planets[j], distance, scale, w, total, planets);
          assert system.planets[..j + 1][..j] == system.planets[..j];
          j := j + 1;
        }
        assert system.planets[..j] == system.planets;
      }
    }
  }

  /** One planet of that loop: a populated planet adds its weight to the total and is put under it. */
  method AddPlanet(planet: Planet, distance: real, scale: real, w: Weigher,
                   total0: real, planets0: Table<Planet>) returns (total: real, planets: Table<Planet>)
    requires Ascending(planets0)
    ensures Tally(total, planets) == Visit(Tally(total0, planets0), planet, distance, scale, w)
  {
    total, planets := total0, planets0;
    if planet.population.Some? && planet.population.value > 0 {
      total := total + w(planet.population.value, distance, scale);
      planets := Put(planets, total, planet);
    }
  }

  /**
   * The selector with its per-faction cache. The cached date, system and
   * tables are set together by a rebuild and cleared together.
   */
  class RangedPlanetSelector {
    /** The search radius around the current system (used by the star map query). */
    const range: int
    const extraRandom: bool
    /** The weight formula; fixed for the selector's lifetime, only its scale varies. */
    const weigher: Weigher
    var distanceScale: real
    var cachedDate: Option<Date>
    /** The cached system by identity: the same system at another date is the same system. */
    var cachedSystem: Option<string>
    var cachedPlanets: Option<map<Faction, Table<Planet>>>

    ghost predicate Valid()
      reads this
    {
      && (cachedPlanets.Some? <==> cachedDate.Some?)
      && (cachedPlanets.Some? <==> cachedSystem.Some?)
      && (cachedPlanets.Some? ==>
            forall g :: g in cachedPlanets.value ==> |cachedPlanets.value[g]| > 0 && Ascending(cachedPlanets.value[g]))
    }

    constructor (range: int, isExtraRandom: bool, weigher: Weigher)
      ensures this.range == range && extraRandom == isExtraRandom && this.weigher == weigher
      ensures distanceScale == 0.6
      ensures cachedDate.None? && cachedSystem.None? && cachedPlanets.None?
      ensures Valid()
    {
      this.range := range;
      extraRandom := isExtraRandom;
      this.weigher := weigher;
      distanceScale := 0.6;
      cachedDate := None;
      cachedSystem := None;
      cachedPlanets := None;
    }

    /**
     * The table for the faction must be rebuilt: nothing is cached, the
     * faction has no table, the campaign moved, or its date is after the
     * cached one. An earlier date reuses the cache.
     */
    predicate NeedsRebuild(c: Campaign, f: Faction)
      requires Valid()
      reads this
    {
      || cachedPlanets.None?
      || f !in cachedPlanets.value
      || cachedSystem.value != c.currentSystem.id
      || c.date > cachedDate.value
    }

    method ClearCache()
      modifies this`cachedDate, this`cachedSystem, this`cachedPlanets
      ensures cachedDate.None? && cachedSystem.None? && cachedPlanets.None?
      ensures Valid()
    {
      cachedDate := None;
      cachedSystem := None;
      cachedPlanets := None;
    }

    /** A new scale invalidates every cached table. */
    method SetDistanceScale(scale: real)
      modifies this`distanceScale, this`cachedDate, this`cachedSystem, this`cachedPlanets
      ensures distanceScale == scale
      ensures cachedDate.None? && cachedSystem.None? && cachedPlanets.None?
      ensures Valid()
    {
      distanceScale := scale;
      ClearCache();
    }

    /**
     * Rebuilds the faction's table and records the date and system. The
     * other factions' tables are kept as they are, built for whatever date
     * and system they were built for, and from now on they count as fresh
     * for this date and system.
     */
    method CreateLookupMap(c: Campaign, f: Faction)
      requires Valid()
      modifies this`cachedDate, this`cachedSystem, this`cachedPlanets
      ensures Valid()
      ensures cachedDate == Some(c.date) && cachedSystem == Some(c.currentSystem.id)
      ensures cachedPlanets == Some((if old(cachedPlanets).None? then map[] else old(cachedPlanets).value)
                                      [f := LookupTable(c, f, extraRandom, distanceScale, weigher)])
      ensures forall g :: g != f && old(cachedPlanets).Some? && g in old(cachedPlanets).value ==>
        && cachedPlanets.value[g] == old(cachedPlanets).value[g]
        && !NeedsRebuild(c, g)
    {
      var planets := BuildTable(c, f, extraRandom, distanceScale, weigher);
      cachedDate := Some(c.date);
      cachedSystem := Some(c.currentSystem.id);
      if cachedPlanets.None? {
        cachedPlanets := Some(map[]);
      }
      cachedPlanets := Some(cachedPlanets.value[f := planets]);
    }

    /**
     * Rebuilds the faction's table when it is stale, then draws a planet from
     * it with the uniform sample u in [0, 1). None stands for the exception
     * the random generator throws when the table's largest key is not positive.
     */
    method SelectPlanet(c: Campaign, f: Faction, u: real) returns (p: Option<Planet>)
      requires Valid() && 0.0 <= u < 1.0
      modifies this`cachedDate, this`cachedSystem, this`cachedPlanets
      ensures Valid() && !NeedsRebuild(c, f)
      ensures old(NeedsRebuild(c, f)) ==>
        && cachedDate == Some(c.date) && cachedSystem == Some(c.currentSystem.id)
        && cachedPlanets == Some((if old(cachedPlanets).None? then map[] else old(cachedPlanets).value)
                                   [f := LookupTable(c, f, extraRandom, distanceScale, weigher)])
      ensures !old(NeedsRebuild(c, f)) ==>
        cachedDate == old(cachedDate) && cachedSystem == old(cachedSystem) && cachedPlanets == old(cachedPlanets)
      ensures forall c': Campaign :: c'.currentSystem.id == c.currentSystem.id && c'.date <= c.date ==> !NeedsRebuild(c', f)
      ensures p == Pick(cachedPlanets.value[f], u)
    {
      if NeedsRebuild(c, f) {
        CreateLookupMap(c, f);
      }
      var planets := cachedPlanets.value[f];
      p := Pick(planets, u);
    }

    /** selectPlanet(campaign): the campaign's own faction. */
    method SelectCampaignPlanet(c: Campaign, u: real) returns (p: Option<Planet>)
      requires Valid() && 0.0 <= u < 1.0
      modifies this`cachedDate, this`cachedSystem, this`cachedPlanets
      ensures Valid() && !NeedsRebuild(c, c.faction)
      ensures old(NeedsRebuild(c, c.faction)) ==>
        && cachedDate == Some(c.date) && cachedSystem == Some(c.currentSystem.id)
        && cachedPlanets == Some((if old(cachedPlanets).None? then map[] else old(cachedPlanets).value)
                                   [c.faction := LookupTable(c, c.faction, extraRandom, distanceScale, weigher)])
      ensures !old(NeedsRebuild(c, c.faction)) ==>
        cachedDate == old(cachedDate) && cachedSystem == old(cachedSystem) && cachedPlanets == old(cachedPlanets)
      ensures forall c': Campaign :: c'.currentSystem.id == c.currentSystem.id && c'.date <= c.date ==> !NeedsRebuild(c', c.faction)
      ensures p == Pick(cachedPlanets.value[c.faction], u)
    {
      p := SelectPlanet(c, c.faction, u);
    }
  }
}
