/** The emission response evaluator shared by both Taylor-model packages: the
    per-species sensitivity interpolated at the emission altitude (rows of the
    species sorted by altitude, clamped `np.interp`), and the accumulated sum of
    the species' contributions, with its linearity and additivity. */
module EmissionResponse {
  import opened TableModel
  import opened Interpolation

  /** `(Altitude_km, region)` of every row; None when a row lacks the column. */
  function Points(rows: seq<SensitivityRow>, region: ColumnName): (r: Option<seq<Point>>)
    ensures r.Some? <==> forall i :: 0 <= i < |rows| ==> Column(rows[i].cells, region).Some?
    ensures r.Some? ==> |r.value| == |rows|
    ensures r.Some? ==> forall i :: 0 <= i < |rows| ==>
      r.value[i] == Point(rows[i].altitudeKm, Column(rows[i].cells, region).value)
  {
    if rows == [] then Some([])
    else match Column(rows[0].cells, region)
      case None => None
      case Some(v) =>
        match Points(rows[1..], region)
        case None => None
        case Some(rest) => Some([Point(rows[0].altitudeKm, v)] + rest)
  }

  /** The species' rows, as (altitude, region value) points sorted by altitude. */
  function Curve(table: seq<SensitivityRow>, species: string, region: ColumnName): (r: Option<seq<Point>>)
    ensures r.Some? ==> Sorted(r.value) && |r.value| == |RowsOf(table, species)|
    ensures r.Some? ==>
      (Points(RowsOf(table, species), region).Some?
       && multiset(r.value) == multiset(Points(RowsOf(table, species), region).value))
    ensures r.None? <==> Points(RowsOf(table, species), region).None?
  {
    match Points(RowsOf(table, species), region)
    case None => None
    case Some(ps) => Some(SortByX(ps))
  }

  /** The sensitivity of one species at altitude z: ValueError when the species
      is absent, KeyError when its rows lack the region column, otherwise
      `np.interp` over its rows sorted by altitude. */
  function SpeciesSensitivity(table: seq<SensitivityRow>, species: string, region: ColumnName, z: real): (r: Result<real>)
    ensures r == Err(UnknownEmission(species)) <==> !HasSpecies(table, species)
    ensures HasSpecies(table, species) && Curve(table, species, region).None? ==> r == Err(UnknownColumn(ColumnText(region)))
    ensures HasSpecies(table, species) && IsCorridor(region) ==> r.Ok?
    ensures r.Ok? ==> Curve(table, species, region).Some? && r.value == Interp(Curve(table, species, region).value, z)
  {
    RowsOfEmpty(table, species);
    var rows := RowsOf(table, species);
    if rows == [] then Err(UnknownEmission(species))
    else match Curve(table, species, region)
      case None => Err(UnknownColumn(ColumnText(region)))
      case Some(c) => Ok(Interp(c, z))
  }

  /** The species' rows have pairwise distinct altitudes. */
  predicate DistinctAltitudes(table: seq<SensitivityRow>, species: string) {
    var rows := RowsOf(table, species);
    forall i, j :: 0 <= i < j < |rows| ==> rows[i].altitudeKm != rows[j].altitudeKm
  }

  /** At an altitude of one of the species' rows the sensitivity is that row's
      value in the region column. */
  lemma SensitivityAtBreakpoint(table: seq<SensitivityRow>, species: string, region: ColumnName, row: SensitivityRow)
    requires row in table && row.emission == species
    requires forall i :: 0 <= i < |table| ==> Column(table[i].cells, region).Some?
    requires DistinctAltitudes(table, species)
    ensures SpeciesSensitivity(table, species, region, row.altitudeKm) == Ok(Column(row.cells, region).value)
  {
    var rows := RowsOf(table, species);
    assert row in rows;
    assert HasSpecies(table, species) by { RowsOfEmpty(table, species); }
    forall i | 0 <= i < |rows| ensures Column(rows[i].cells, region).Some? {
      assert rows[i] in table;
    }
    var ps := Points(rows, region).value;
    assert DistinctX(ps);
    var i :| 0 <= i < |rows| && rows[i] == row;
    SortedThroughPoints(ps, i);
  }

  /** Outside the species' altitude range the sensitivity is clamped to the
      value of the lowest or the highest row. */
  lemma SensitivityClamps(table: seq<SensitivityRow>, species: string, region: ColumnName, z: real)
    requires Curve(table, species, region).Some? && HasSpecies(table, species)
    requires DistinctAltitudes(table, species)
    ensures var c := Curve(table, species, region).value;
      && |c| > 0
      && (z <= c[0].x ==> SpeciesSensitivity(table, species, region, z) == Ok(c[0].y))
      && (z >= c[|c| - 1].x ==> SpeciesSensitivity(table, species, region, z) == Ok(c[|c| - 1].y))
  {
    RowsOfEmpty(table, species);
    var rows := RowsOf(table, species);
    var ps := Points(rows, region).value;
    assert DistinctX(ps);
    SortStrict(ps);
    var c := SortByX(ps);
    if z <= c[0].x {
      InterpBelow(c, z);
    }
    if z >= c[|c| - 1].x {
      InterpAbove(c, z);
    }
  }

  // ---------------------------------------------------------------------------
  // The accumulated emission term

  /** A per-species sensitivity lookup at a fixed altitude and region. */
  type Lookup = string -> Result<real>

  /** The species sensitivity of the table, as a lookup: the ValueError
      exactly for a species absent from the table, and a value for every
      present species in a corridor region. */
  function SensitivityAt(table: seq<SensitivityRow>, region: ColumnName, z: real): (r: Lookup)
    ensures forall s :: r(s) == Err(UnknownEmission(s)) <==> !HasSpecies(table, s)
    ensures IsCorridor(region) ==> forall s :: HasSpecies(table, s) ==> r(s).Ok?
  {
    species => SpeciesSensitivity(table, species, region, z)
  }

  /** What the accumulator loop computes over the entries, in order: each adds
      its contribution, and the first species whose lookup fails aborts the
      sum, with nothing returned. An error is the lookup error of one of the
      entries. */
  function Accumulate(sens: Lookup, m: Mode, es: Emissions): (r: Result<real>)
    ensures r.Err? ==> exists i :: 0 <= i < |es| && sens(es[i].species) == Err(r.error)
    decreases |es|
  {
    if es == [] then Ok(0.0)
    else
      var prefix := es[..|es| - 1];
      assert forall i :: 0 <= i < |prefix| ==> prefix[i] == es[i];
      var init :- Accumulate(sens, m, prefix);
      var s :- sens(es[|es| - 1].species);
      Ok(init + Contribution(m, es[|es| - 1].magnitude, s))
  }

  /** The emission term of the interpolating engines: an error is the
      sensitivity error of one of the entries' species. */
  function SumContributions(table: seq<SensitivityRow>, region: ColumnName, z: real, m: Mode, es: Emissions): (r: Result<real>)
    ensures r.Err? ==> exists i :: 0 <= i < |es| && SpeciesSensitivity(table, es[i].species, region, z) == Err(r.error)
  {
    Accumulate(SensitivityAt(table, region, z), m, es)
  }

  /** The accumulator loop of the emission terms: for each entry in order,
      the species' sensitivity (an abort when it has none) times the magnitude,
      divided by 1000 in Ozone mode, added to a running total. */
  method SumLoop(sens: Lookup, m: Mode, es: Emissions) returns (r: Result<real>)
    ensures r == Accumulate(sens, m, es)
  {
    var total := 0.0;
    var i := 0;
    while i < |es|
      invariant 0 <= i <= |es|
      invariant Accumulate(sens, m, es[..i]) == Ok(total)
    {
      var s := sens(es[i].species);
      AccumulateStep(sens, m, es, i);
      if s.Err? {
        AccumulatePrefixError(sens, m, es, i + 1);
        return Err(s.error);
      }
      total := total + Contribution(m, es[i].magnitude, s.value);
      i := i + 1;
    }
    assert es[..i] == es;
    return Ok(total);
  }

  /** Two partial results added, the first error winning. */
  function AddResults(a: Result<real>, b: Result<real>): Result<real> {
    if a.Err? then a else if b.Err? then b else Ok(a.value + b.value)
  }

  /** One more entry: its contribution is added, or its failure reported. */
  lemma AccumulateStep(sens: Lookup, m: Mode, es: Emissions, i: nat)
    requires i < |es| && Accumulate(sens, m, es[..i]).Ok?
    ensures sens(es[i].species).Err? ==> Accumulate(sens, m, es[..i + 1]) == Err(sens(es[i].species).error)
    ensures sens(es[i].species).Ok? ==>
      Accumulate(sens, m, es[..i + 1])
        == Ok(Accumulate(sens, m, es[..i]).value + Contribution(m, es[i].magnitude, sens(es[i].species).value))
  {
    assert es[..i + 1][..i] == es[..i];
  }

  /** Once a prefix of the entries fails, the whole sum fails with that error. */
  lemma {:induction false} AccumulatePrefixError(sens: Lookup, m: Mode, es: Emissions, j: nat)
    requires j <= |es|
    requires Accumulate(sens, m, es[..j]).Err?
    ensures Accumulate(sens, m, es) == Accumulate(sens, m, es[..j])
    decreases |es| - j
  {
    if j < |es| {
      var prev := es[..|es| - 1];
      assert prev[..j] == es[..j];
      AccumulatePrefixError(sens, m, prev, j);
    } else {
      assert es[..j] == es;
    }
  }

  /** The sum is additive over a split of the entries. */
  lemma {:induction false} AccumulateAppend(sens: Lookup, m: Mode, e1: Emissions, e2: Emissions)
    ensures Accumulate(sens, m, e1 + e2) == AddResults(Accumulate(sens, m, e1), Accumulate(sens, m, e2))
    decreases |e2|
  {
    if e2 == [] {
      assert e1 + e2 == e1;
    } else {
      var e := e1 + e2;
      var prev := e2[..|e2| - 1];
      assert e[..|e| - 1] == e1 + prev;
      assert e[|e| - 1] == e2[|e2| - 1];
      AccumulateAppend(sens, m, e1, prev);
    }
  }

  /** The sum succeeds exactly when every listed species has a sensitivity. */
  lemma {:induction false} AccumulateDefined(sens: Lookup, m: Mode, es: Emissions)
    ensures Accumulate(sens, m, es).Ok? <==> forall i :: 0 <= i < |es| ==> sens(es[i].species).Ok?
    decreases |es|
  {
    if es != [] {
      var prev := es[..|es| - 1];
      AccumulateDefined(sens, m, prev);
      assert forall i :: 0 <= i < |prev| ==> prev[i] == es[i];
    }
  }

  /** Two lookups that agree on every listed species give the same sum. */
  lemma {:induction false} AccumulateSameLookup(s1: Lookup, s2: Lookup, m: Mode, es: Emissions)
    requires forall i :: 0 <= i < |es| ==> s1(es[i].species) == s2(es[i].species)
    ensures Accumulate(s1, m, es) == Accumulate(s2, m, es)
    decreases |es|
  {
    if es != [] {
      var prev := es[..|es| - 1];
      assert forall i :: 0 <= i < |prev| ==> prev[i] == es[i];
      AccumulateSameLookup(s1, s2, m, prev);
    }
  }

  /** One entry contributes its magnitude times its sensitivity, divided by
      1000 in Ozone mode. */
  lemma AccumulateSingle(sens: Lookup, m: Mode, e: EmissionEntry)
    requires sens(e.species).Ok?
    ensures Accumulate(sens, m, [e]) == Ok(Contribution(m, e.magnitude, sens(e.species).value))
  {
    assert [e][..0] == [];
  }

  /** A contribution is additive in the magnitude. */
  lemma ContributionAdditive(m: Mode, a: real, b: real, s: real)
    ensures Contribution(m, a + b, s) == Contribution(m, a, s) + Contribution(m, b, s)
  {
    assert (a + b) * s == a * s + b * s;
  }

  /** Replacing the magnitude of entry j changes the sum by the difference
      of that entry's two contributions and by nothing else. */
  lemma AccumulateReplace(sens: Lookup, m: Mode, es: Emissions, j: nat, x: real)
    requires j < |es|
    requires Accumulate(sens, m, es).Ok?
    ensures sens(es[j].species).Ok?
    ensures Accumulate(sens, m, es[j := EmissionEntry(es[j].species, x)])
         == Ok(Accumulate(sens, m, es).value
               - Contribution(m, es[j].magnitude, sens(es[j].species).value)
               + Contribution(m, x, sens(es[j].species).value))
  {
    var e := es[j];
    var e' := EmissionEntry(e.species, x);
    AccumulateDefined(sens, m, es);
    var s := sens(e.species).value;
    assert es == (es[..j] + [e]) + es[j + 1..];
    assert es[j := e'] == (es[..j] + [e']) + es[j + 1..];
    assert forall i :: 0 <= i < j ==> es[..j][i] == es[i];
    assert forall i :: j + 1 <= i < |es| ==> es[j + 1..][i - (j + 1)] == es[i];
    AccumulateDefined(sens, m, es[..j]);
    AccumulateDefined(sens, m, es[j + 1..]);
    var a := AccumulateAround(sens, m, es[..j], e, es[j + 1..]);
    var b := AccumulateAround(sens, m, es[..j], e', es[j + 1..]);
    assert a == Accumulate(sens, m, es);
    assert b.Ok?;
  }

  /** The sum over before + [e] + after, from the sums of the two sides. */
  lemma AccumulateAround(sens: Lookup, m: Mode, before: Emissions, e: EmissionEntry, after: Emissions)
    returns (r: Result<real>)
    requires Accumulate(sens, m, before).Ok? && Accumulate(sens, m, after).Ok? && sens(e.species).Ok?
    ensures r == Accumulate(sens, m, (before + [e]) + after)
    ensures r == Ok(Accumulate(sens, m, before).value + Contribution(m, e.magnitude, sens(e.species).value)
                    + Accumulate(sens, m, after).value)
  {
    AccumulateAppend(sens, m, before + [e], after);
    AccumulateAppend(sens, m, before, [e]);
    AccumulateSingle(sens, m, e);
    r := Accumulate(sens, m, (before + [e]) + after);
  }

  /** Linearity in one magnitude: adding d to entry j adds exactly the
      contribution of d at that species' sensitivity, and nothing else. */
  lemma AccumulateAddMagnitude(sens: Lookup, m: Mode, es: Emissions, j: nat, d: real)
    requires j < |es|
    requires Accumulate(sens, m, es).Ok?
    ensures sens(es[j].species).Ok?
    ensures Accumulate(sens, m, es[j := EmissionEntry(es[j].species, es[j].magnitude + d)])
         == Ok(Accumulate(sens, m, es).value + Contribution(m, d, sens(es[j].species).value))
  {
    AccumulateReplace(sens, m, es, j, es[j].magnitude + d);
    ContributionAdditive(m, es[j].magnitude, d, sens(es[j].species).value);
  }

  /** A species absent from the table aborts the emission term: no partial sum. */
  lemma UnknownSpeciesAborts(table: seq<SensitivityRow>, region: ColumnName, z: real, m: Mode, es: Emissions, i: nat)
    requires i < |es| && !HasSpecies(table, es[i].species)
    ensures SumContributions(table, region, z, m, es).Err?
  {
    AccumulateDefined(SensitivityAt(table, region, z), m, es);
  }

  /** With one species at the altitude of one of its rows, the term is that
      row's value times the magnitude, scaled by the mode. */
  lemma SingleSpeciesAtBreakpoint(table: seq<SensitivityRow>, region: ColumnName, m: Mode, row: SensitivityRow, x: real)
    requires row in table
    requires forall i :: 0 <= i < |table| ==> Column(table[i].cells, region).Some?
    requires DistinctAltitudes(table, row.emission)
    ensures SumContributions(table, region, row.altitudeKm, m, [EmissionEntry(row.emission, x)])
         == Ok(Contribution(m, x, Column(row.cells, region).value))
  {
    SensitivityAtBreakpoint(table, row.emission, region, row);
    AccumulateSingle(SensitivityAt(table, region, row.altitudeKm), m, EmissionEntry(row.emission, x));
  }
}
