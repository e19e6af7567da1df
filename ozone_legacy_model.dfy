/** The older ozone-only evaluator: the Taylor polynomial on the absolute
    altitude, coefficients that must match exactly one row, a fatal range
    check, and a sensitivity that needs at least two rows per species. */
module OzoneLegacyModel {
  import opened TableModel
  import opened Interpolation
  import opened Taylor
  import opened EmissionResponse

  /** `float(taylor_df.loc[mask, region])`: KeyError for a column the table
      lacks, whichever rows match; TypeError unless exactly one Parameter
      holds the pattern. */
  function UniqueCoefficient(rows: seq<TaylorRow>, pattern: string, region: ColumnName): (r: Result<real>)
    ensures !TaylorHasColumn(rows, region) ==> r == Err(UnknownColumn(ColumnText(region)))
    ensures TaylorHasColumn(rows, region) && MatchCount(rows, pattern) != 1 ==> r == Err(CoefficientNotUnique(pattern))
    ensures r.Ok? <==> TaylorHasColumn(rows, region) && MatchCount(rows, pattern) == 1
    ensures r.Ok? ==>
      (FirstMatch(rows, pattern).Some?
       && Column(rows[FirstMatch(rows, pattern).value].cells, region) == Some(r.value))
  {
    if !TaylorHasColumn(rows, region) then Err(UnknownColumn(ColumnText(region)))
    else if MatchCount(rows, pattern) != 1 then Err(CoefficientNotUnique(pattern))
    else
      assert FirstMatch(rows, pattern).Some?;
      FirstCoefficient(rows, pattern, region)
  }

  /** When one row matches it is the first match, so the legacy lookup agrees
      with the first-match lookup of the mode-aware engines. */
  lemma UniqueIsFirst(rows: seq<TaylorRow>, pattern: string, region: ColumnName)
    requires MatchCount(rows, pattern) == 1
    ensures UniqueCoefficient(rows, pattern, region) == FirstCoefficient(rows, pattern, region)
  {
  }

  /** The coefficients as calculate_delta_F looks them up: the rows whose
      Parameter contains "1st" and "2nd". */
  function AsWrittenCoefficients(rows: seq<TaylorRow>, region: ColumnName): (r: Result<Coefficients>)
    ensures r.Ok? ==> MatchCount(rows, "1st") == 1 && MatchCount(rows, "2nd") == 1
  {
    var a :- UniqueCoefficient(rows, "1st", region);
    var b :- UniqueCoefficient(rows, "2nd", region);
    Ok(Coefficients(a, b))
  }

  /** Two distinct rows holding the pattern make the match count at least two. */
  lemma {:induction false} MatchCountTwo(rows: seq<TaylorRow>, pattern: string, i: nat, j: nat)
    requires i < j < |rows|
    requires Contains(rows[i].parameter, pattern) && Contains(rows[j].parameter, pattern)
    ensures MatchCount(rows, pattern) >= 2
  {
    var tail := rows[1..];
    if i == 0 {
      assert tail[j - 1] == rows[j];
      assert MatchCount(tail, pattern) != 0;
    } else {
      assert tail[i - 1] == rows[i] && tail[j - 1] == rows[j];
      MatchCountTwo(tail, pattern, i - 1, j - 1);
    }
  }

  /** The coefficient table carries a first-order row for each mode, so the
      as-written lookup matches two rows and fails for every region. */
  lemma AsWrittenAmbiguous(rows: seq<TaylorRow>, region: ColumnName, i: nat, j: nat)
    requires TaylorHasColumn(rows, region)
    requires i < j < |rows|
    requires {rows[i].parameter, rows[j].parameter} == {Pattern("1st", Ozone), Pattern("1st", RadiativeForcing)}
    ensures AsWrittenCoefficients(rows, region) == Err(CoefficientNotUnique("1st"))
  {
    ContainsInfix([], "1st", " order Altitude " + ModeName(Ozone));
    ContainsInfix([], "1st", " order Altitude " + ModeName(RadiativeForcing));
    assert [] + "1st" + (" order Altitude " + ModeName(Ozone)) == Pattern("1st", Ozone);
    assert [] + "1st" + (" order Altitude " + ModeName(RadiativeForcing)) == Pattern("1st", RadiativeForcing);
    assert rows[i].parameter in {Pattern("1st", Ozone), Pattern("1st", RadiativeForcing)};
    assert rows[j].parameter in {Pattern("1st", Ozone), Pattern("1st", RadiativeForcing)};
    MatchCountTwo(rows, "1st", i, j);
  }

  /** The coefficients the ozone-only evaluator evidently means: those of the
      Ozone rows, each of which must match exactly once. */
  function OzoneCoefficients(rows: seq<TaylorRow>, region: ColumnName): (r: Result<Coefficients>)
    ensures r.Ok? ==> MatchCount(rows, Pattern("1st", Ozone)) == 1 && MatchCount(rows, Pattern("2nd", Ozone)) == 1
    ensures r.Ok? <==> (TaylorHasColumn(rows, region) && MatchCount(rows, Pattern("1st", Ozone)) == 1
                        && MatchCount(rows, Pattern("2nd", Ozone)) == 1)
  {
    var a :- UniqueCoefficient(rows, Pattern("1st", Ozone), region);
    var b :- UniqueCoefficient(rows, Pattern("2nd", Ozone), region);
    Ok(Coefficients(a, b))
  }

  /** On a table with one row per order and mode the corrected lookup is the
      mode-aware engines' lookup in Ozone mode. */
  lemma OzoneCoefficientsIntended(rows: seq<TaylorRow>, region: ColumnName)
    requires MatchCount(rows, Pattern("1st", Ozone)) == 1 && MatchCount(rows, Pattern("2nd", Ozone)) == 1
    ensures OzoneCoefficients(rows, region) == ModeCoefficients(rows, region, Ozone)
  {
    UniqueIsFirst(rows, Pattern("1st", Ozone), region);
    UniqueIsFirst(rows, Pattern("2nd", Ozone), region);
  }

  /** `z * (first + (z / 2) * second)` on the absolute altitude. */
  function AbsoluteTerm(c: Coefficients, z: real): (t: real)
    ensures z == 0.0 ==> t == 0.0
  {
    z * (c.first + (z / 2.0) * c.second)
  }

  /** The legacy term is the same polynomial as the mode-aware engines', with
      no baseline shift: their term at z + 18.3 against the 18.3 km reference. */
  lemma AbsoluteIsUnshifted(c: Coefficients, z: real)
    ensures AbsoluteTerm(c, z) == Raw(c, z)
    ensures AbsoluteTerm(c, z) == BiasCorrected(c, z + BaselineKm, BaselineKm)
  {
    assert z * (c.first + (z / 2.0) * c.second) == z * c.first + (z * z / 2.0) * c.second;
  }

  /** The sensitivity of one species: ValueError when it has fewer than two
      rows (an absent species included), KeyError when its rows lack the
      region column, otherwise `np.interp` over its rows sorted by altitude. */
  function LegacySensitivity(table: seq<SensitivityRow>, species: string, region: ColumnName, z: real): (r: Result<real>)
    ensures r == Err(NotEnoughData(species)) <==> |RowsOf(table, species)| < 2
    ensures !HasSpecies(table, species) ==> r == Err(NotEnoughData(species))
    ensures |RowsOf(table, species)| >= 2 ==> r == SpeciesSensitivity(table, species, region, z)
  {
    RowsOfEmpty(table, species);
    if |RowsOf(table, species)| < 2 then Err(NotEnoughData(species))
    else match Curve(table, species, region)
      case None => Err(UnknownColumn(ColumnText(region)))
      case Some(c) => Ok(Interp(c, z))
  }

  /** The legacy sensitivity, as a lookup: "Not enough data" exactly for a
      species with fewer than two rows, and otherwise the engines' sensitivity. */
  function LegacyAt(table: seq<SensitivityRow>, region: ColumnName, z: real): (r: Lookup)
    ensures forall s :: r(s) == Err(NotEnoughData(s)) <==> |RowsOf(table, s)| < 2
    ensures forall s :: |RowsOf(table, s)| >= 2 ==> r(s) == SpeciesSensitivity(table, s, region, z)
  {
    species => LegacySensitivity(table, species, region, z)
  }

  /** What calculate_delta_F computes: the bounds of the table, a fatal
      ValueError outside them, the two unique coefficients, then the emission
      sum, always converted from mDU to DU. */
  function DeltaFSpec(z: real, es: Emissions, region: string, sensitivity: seq<SensitivityRow>, taylor: seq<TaylorRow>): (r: Result<real>)
    ensures sensitivity == [] ==> r == Err(EmptyTable)
    ensures sensitivity != [] && !WithinTable(sensitivity, z) ==> r == Err(AltitudeOutOfRange(z))
    ensures r.Ok? <==>
      && WithinTable(sensitivity, z)
      && OzoneCoefficients(taylor, ColumnNamed(region)).Ok?
      && Accumulate(LegacyAt(sensitivity, ColumnNamed(region), z), Ozone, es).Ok?
    ensures WithinTable(sensitivity, z) && OzoneCoefficients(taylor, ColumnNamed(region)).Err?
            ==> r == Err(OzoneCoefficients(taylor, ColumnNamed(region)).error)
    ensures (WithinTable(sensitivity, z) && OzoneCoefficients(taylor, ColumnNamed(region)).Ok?
             && Accumulate(LegacyAt(sensitivity, ColumnNamed(region), z), Ozone, es).Err?)
            ==> r == Err(Accumulate(LegacyAt(sensitivity, ColumnNamed(region), z), Ozone, es).error)
    ensures r.Ok? ==>
      r.value == AbsoluteTerm(OzoneCoefficients(taylor, ColumnNamed(region)).value, z)
                 + Accumulate(LegacyAt(sensitivity, ColumnNamed(region), z), Ozone, es).value
  {
    var b :- AltitudeBounds(sensitivity);
    BoundsWithin(sensitivity, z);
    if !InBounds(b, z) then Err(AltitudeOutOfRange(z))
    else
      LegacyTotal(z, OzoneCoefficients(taylor, ColumnNamed(region)),
                  Accumulate(LegacyAt(sensitivity, ColumnNamed(region), z), Ozone, es))
  }

  /** The altitude term plus the emission term, the first failure winning. */
  function LegacyTotal(z: real, c: Result<Coefficients>, emissions: Result<real>): (r: Result<real>)
    ensures r.Ok? <==> c.Ok? && emissions.Ok?
    ensures c.Err? ==> r == Err(c.error)
    ensures c.Ok? && emissions.Err? ==> r == Err(emissions.error)
    ensures r.Ok? ==> r.value == AbsoluteTerm(c.value, z) + emissions.value
  {
    var coefficients :- c;
    var e :- emissions;
    Ok(AbsoluteTerm(coefficients, z) + e)
  }

  /** calculate_delta_F. */
  method DeltaF(z: real, es: Emissions, region: string, sensitivity: seq<SensitivityRow>, taylor: seq<TaylorRow>)
    returns (r: Result<real>)
    ensures r == DeltaFSpec(z, es, region, sensitivity, taylor)
  {
    var bounds := AltitudeBounds(sensitivity);
    if bounds.Err? {
      return Err(bounds.error);
    }
    if !InBounds(bounds.value, z) {
      return Err(AltitudeOutOfRange(z));
    }
    var col := ColumnNamed(region);
    var c := OzoneCoefficients(taylor, col);
    if c.Err? {
      return Err(c.error);
    }
    var emissions := SumLoop(LegacyAt(sensitivity, col, z), Ozone, es);
    r := LegacyTotal(z, c, emissions);
  }

  /** With the corrected lookup the legacy altitude term is the mode-aware
      Ozone term at z + 18.3 km against the 18.3 km reference. */
  lemma LegacyAltitudeAgrees(rows: seq<TaylorRow>, region: ColumnName, z: real)
    requires OzoneCoefficients(rows, region).Ok?
    ensures TaylorTerm(rows, region, z + BaselineKm, BaselineKm, Ozone).Ok?
    ensures AbsoluteTerm(OzoneCoefficients(rows, region).value, z)
         == TaylorTerm(rows, region, z + BaselineKm, BaselineKm, Ozone).value
  {
    OzoneCoefficientsIntended(rows, region);
    AbsoluteIsUnshifted(OzoneCoefficients(rows, region).value, z);
  }

  /** When every listed species has at least two rows, the legacy emission
      term is the mode-aware engines' term in Ozone mode. */
  lemma LegacyEmissionsAgree(table: seq<SensitivityRow>, region: ColumnName, z: real, es: Emissions)
    requires forall i :: 0 <= i < |es| ==> |RowsOf(table, es[i].species)| >= 2
    ensures Accumulate(LegacyAt(table, region, z), Ozone, es) == SumContributions(table, region, z, Ozone, es)
  {
    AccumulateSameLookup(LegacyAt(table, region, z), SensitivityAt(table, region, z), Ozone, es);
  }

  /** A species with fewer than two rows, absent ones included, fails the
      call with "not enough data" once the range check and the coefficients
      pass, whatever precedes it in the entries. */
  lemma TooFewRowsFails(z: real, es: Emissions, region: string, sensitivity: seq<SensitivityRow>, taylor: seq<TaylorRow>, i: nat)
    requires i < |es| && |RowsOf(sensitivity, es[i].species)| < 2
    ensures DeltaFSpec(z, es, region, sensitivity, taylor).Err?
  {
    var sens := LegacyAt(sensitivity, ColumnNamed(region), z);
    AccumulateDefined(sens, Ozone, es);
    assert sens(es[i].species).Err?;
  }
}
