/** The ozone package's Taylor model: the altitude and emission terms over
    tables the caller passes, their sum with a fatal range check, and the
    closed-form "single" variant with its per-species breakdown. */
module OzoneTaylorModel {
  import opened TableModel
  import opened Interpolation
  import opened Taylor
  import opened EmissionResponse
  import ReadData
  import OzoneReadData

  /** The three prepared tables the package's load_data is meant to hand back:
      the ozone and radiative-forcing sensitivities and the Taylor parameters. */
  datatype PackageTables = PackageTables(
    sensitivityOzone: seq<SensitivityRow>,
    sensitivityRadiativeForcing: seq<SensitivityRow>,
    taylor: seq<TaylorRow>)

  /** The sensitivity table of a mode. */
  function Selected(t: PackageTables, m: Mode): seq<SensitivityRow> {
    match m
    case Ozone => t.sensitivityOzone
    case RadiativeForcing => t.sensitivityRadiativeForcing
  }

  // ---------------------------------------------------------------------------
  // The two terms

  /** calculate_delta_F_altitude on the Taylor table passed in. */
  function AltitudeTerm(z: real, region: string, taylor: seq<TaylorRow>, ref: real, mode: string): (r: Result<real>)
    ensures ParseMode(mode).Err? ==> r == Err(UnknownMode(mode))
    ensures ParseMode(mode).Ok? ==>
      (r.Ok? <==> ModeCoefficients(taylor, ColumnNamed(region), ParseMode(mode).value).Ok?)
    ensures r.Ok? ==>
      r.value == BiasCorrected(ModeCoefficients(taylor, ColumnNamed(region), ParseMode(mode).value).value, z, ref)
    ensures r.Ok? && z == ref ==> r.value == 0.0
  {
    var m :- ParseMode(mode);
    TaylorTerm(taylor, ColumnNamed(region), z, ref, m)
  }

  /** What calculate_delta_F_emissions computes on the sensitivity table passed in. */
  function EmissionTermSpec(z: real, es: Emissions, region: string, sensitivity: seq<SensitivityRow>, mode: string): (r: Result<real>)
    ensures ParseMode(mode).Err? ==> r == Err(UnknownMode(mode))
    ensures es == [] && ParseMode(mode).Ok? ==> r == Ok(0.0)
  {
    var m :- ParseMode(mode);
    SumContributions(sensitivity, ColumnNamed(region), z, m, es)
  }

  /** calculate_delta_F_emissions, running the accumulator loop. */
  method EmissionTerm(z: real, es: Emissions, region: string, sensitivity: seq<SensitivityRow>, mode: string)
    returns (r: Result<real>)
    ensures r == EmissionTermSpec(z, es, region, sensitivity, mode)
  {
    var m := ParseMode(mode);
    if m.Err? {
      return Err(m.error);
    }
    r := SumLoop(SensitivityAt(sensitivity, ColumnNamed(region), z), m.value, es);
  }

  /** Every entry's species must be in the table; with a corridor region the
      term is then defined, and one absent species fails it. */
  lemma EmissionTermDefined(z: real, es: Emissions, region: string, sensitivity: seq<SensitivityRow>, m: Mode)
    requires IsCorridor(ColumnNamed(region))
    ensures EmissionTermSpec(z, es, region, sensitivity, ModeName(m)).Ok?
        <==> forall i :: 0 <= i < |es| ==> HasSpecies(sensitivity, es[i].species)
  {
    assert ParseMode(ModeName(m)) == Ok(m);
    var sens := SensitivityAt(sensitivity, ColumnNamed(region), z);
    AccumulateDefined(sens, m, es);
    if !forall i :: 0 <= i < |es| ==> HasSpecies(sensitivity, es[i].species) {
      var i :| 0 <= i < |es| && !HasSpecies(sensitivity, es[i].species);
      assert sens(es[i].species).Err?;
    }
  }

  // ---------------------------------------------------------------------------
  // The total

  /** What calculate_delta_F computes: the mode check, the bounds of the passed
      sensitivity table, a fatal Warning outside them, then the altitude term
      on the passed Taylor table plus the emission term on the mode's table. */
  function DeltaFSpec(z: real, es: Emissions, region: string, sensitivity: seq<SensitivityRow>,
                      taylor: seq<TaylorRow>, loaded: PackageTables, ref: real, mode: string): (r: Result<real>)
    ensures ParseMode(mode).Err? ==> r == Err(UnknownMode(mode))
    ensures ParseMode(mode).Ok? && sensitivity == [] ==> r == Err(EmptyTable)
    ensures ParseMode(mode).Ok? && sensitivity != [] && !WithinTable(sensitivity, z) ==> r == Err(RangeWarning(z))
    ensures r.Ok? <==>
      && ParseMode(mode).Ok?
      && WithinTable(sensitivity, z)
      && AltitudeTerm(z, region, taylor, ref, mode).Ok?
      && EmissionTermSpec(z, es, region, Selected(loaded, ParseMode(mode).value), mode).Ok?
    ensures (ParseMode(mode).Ok? && WithinTable(sensitivity, z) && AltitudeTerm(z, region, taylor, ref, mode).Err?)
            ==> r == Err(AltitudeTerm(z, region, taylor, ref, mode).error)
    ensures (ParseMode(mode).Ok? && WithinTable(sensitivity, z) && AltitudeTerm(z, region, taylor, ref, mode).Ok?
             && EmissionTermSpec(z, es, region, Selected(loaded, ParseMode(mode).value), mode).Err?)
            ==> r == Err(EmissionTermSpec(z, es, region, Selected(loaded, ParseMode(mode).value), mode).error)
    ensures r.Ok? ==>
      r.value == AltitudeTerm(z, region, taylor, ref, mode).value
                 + EmissionTermSpec(z, es, region, Selected(loaded, ParseMode(mode).value), mode).value
  {
    var m :- ParseMode(mode);
    var b :- AltitudeBounds(sensitivity);
    BoundsWithin(sensitivity, z);
    if !InBounds(b, z) then Err(RangeWarning(z))
    else Sum(AltitudeTerm(z, region, taylor, ref, mode), EmissionTermSpec(z, es, region, Selected(loaded, m), mode))
  }

  /** The sum of the two terms, the altitude term's error first. */
  function Sum(altitude: Result<real>, emissions: Result<real>): (r: Result<real>)
    ensures r.Ok? <==> altitude.Ok? && emissions.Ok?
    ensures altitude.Err? ==> r == Err(altitude.error)
    ensures altitude.Ok? && emissions.Err? ==> r == Err(emissions.error)
    ensures r.Ok? ==> r.value == altitude.value + emissions.value
  {
    if altitude.Err? then Err(altitude.error)
    else if emissions.Err? then Err(emissions.error)
    else Ok(altitude.value + emissions.value)
  }

  /** calculate_delta_F. */
  method DeltaF(z: real, es: Emissions, region: string, sensitivity: seq<SensitivityRow>,
                taylor: seq<TaylorRow>, loaded: PackageTables, ref: real, mode: string) returns (r: Result<real>)
    ensures r == DeltaFSpec(z, es, region, sensitivity, taylor, loaded, ref, mode)
  {
    var m := ParseMode(mode);
    if m.Err? {
      return Err(m.error);
    }
    var bounds := AltitudeBounds(sensitivity);
    if bounds.Err? {
      return Err(bounds.error);
    }
    if !InBounds(bounds.value, z) {
      return Err(RangeWarning(z));
    }
    var altitude := AltitudeTerm(z, region, taylor, ref, mode);
    if altitude.Err? {
      return Err(altitude.error);
    }
    var emissions := EmissionTerm(z, es, region, Selected(loaded, m.value), mode);
    r := Sum(altitude, emissions);
  }

  // ---------------------------------------------------------------------------
  // The reload as written

  /** `sensitivity_df_o3, sensitivity_df_rf, taylor_df = load_data(prepare=True)`:
      the package's load_data returns the pair of its two tables, and
      unpacking two values into three names raises ValueError, whatever the
      two tables hold. */
  function UnpackLoaded(loaded: ReadData.LoadedTables): (r: Result<PackageTables>)
    ensures r.Err? && r.error == UnpackMismatch(3, 2)
  {
    Err(UnpackMismatch(3, 2))
  }

  /** calculate_delta_F as written: after the altitude term it reloads the
      tables through the three-name unpacking, then adds the emission term of
      the mode's reloaded table. No call returns a value. */
  function AsWrittenDeltaFSpec(z: real, es: Emissions, region: string, sensitivity: seq<SensitivityRow>,
                               taylor: seq<TaylorRow>, store: OzoneReadData.OzoneStore, ref: real, mode: string): (r: Result<real>)
    ensures r.Err?
  {
    var m :- ParseMode(mode);
    var b :- AltitudeBounds(sensitivity);
    if !InBounds(b, z) then Err(RangeWarning(z))
    else
      var altitude :- AltitudeTerm(z, region, taylor, ref, mode);
      match UnpackLoaded(OzoneReadData.LoadData(store, true))
      case Err(e) => Err(e)
      case Ok(loaded) => Sum(Ok(altitude), EmissionTermSpec(z, es, region, Selected(loaded, m), mode))
  }

  /** As written, calculate_delta_F never returns a value: a call that passes
      the mode, range and altitude-term checks fails at the reload, and any
      other call fails exactly as the corrected one does, whatever tables the
      corrected one is given. */
  lemma AsWrittenDeltaFFails(z: real, es: Emissions, region: string, sensitivity: seq<SensitivityRow>,
                             taylor: seq<TaylorRow>, store: OzoneReadData.OzoneStore, loaded: PackageTables,
                             ref: real, mode: string)
    ensures AsWrittenDeltaFSpec(z, es, region, sensitivity, taylor, store, ref, mode).Err?
    ensures (ParseMode(mode).Ok? && WithinTable(sensitivity, z) && AltitudeTerm(z, region, taylor, ref, mode).Ok?)
            ==> AsWrittenDeltaFSpec(z, es, region, sensitivity, taylor, store, ref, mode) == Err(UnpackMismatch(3, 2))
    ensures !(ParseMode(mode).Ok? && WithinTable(sensitivity, z) && AltitudeTerm(z, region, taylor, ref, mode).Ok?)
            ==> AsWrittenDeltaFSpec(z, es, region, sensitivity, taylor, store, ref, mode)
                == DeltaFSpec(z, es, region, sensitivity, taylor, loaded, ref, mode)
  {
    if sensitivity != [] {
      BoundsWithin(sensitivity, z);
    }
  }

  /** At the reference altitude with no emissions the change is zero. */
  lemma DeltaFAtReference(z: real, region: string, sensitivity: seq<SensitivityRow>,
                          taylor: seq<TaylorRow>, loaded: PackageTables, mode: string)
    requires DeltaFSpec(z, [], region, sensitivity, taylor, loaded, z, mode).Ok?
    ensures DeltaFSpec(z, [], region, sensitivity, taylor, loaded, z, mode).value == 0.0
  {
  }

  // ---------------------------------------------------------------------------
  // The closed-form single scenario

  /** The span between the two tabulated altitudes of the closed form. */
  const SpanKm: real := 4.2
  /** The lower of the two tabulated altitudes. */
  const LowerKm: real := 16.2

  /** The hard-coded two-point interpolation: the value at 16.2 km plus the
      slope towards the value at 20.4 km, times the offset from 16.2 km. It
      passes through both tabulated points. */
  function ClosedForm(upper: real, lower: real, d162: real): (v: real)
    ensures d162 == 0.0 ==> v == lower
    ensures d162 == SpanKm ==> v == upper
  {
    lower + (upper - lower) / SpanKm * d162
  }

  /** The closed form is the line through (16.2, lower) and (20.4, upper), the
      extrapolating interpolant of those two points, and within the span the
      clamped one as well. */
  lemma ClosedFormIsLine(upper: real, lower: real, z: real)
    ensures var ps := [Point(LowerKm, lower), Point(LowerKm + SpanKm, upper)];
      && ClosedForm(upper, lower, z - LowerKm) == Lerp(ps[0], ps[1], z)
      && Extrapolate(ps, z) == Ok(ClosedForm(upper, lower, z - LowerKm))
      && (LowerKm <= z <= LowerKm + SpanKm ==> Interp(ps, z) == ClosedForm(upper, lower, z - LowerKm))
  {
    var ps := [Point(LowerKm, lower), Point(LowerKm + SpanKm, upper)];
    assert StrictlyIncreasing(ps);
    if LowerKm <= z <= LowerKm + SpanKm {
      InteriorAgreement(ps, z);
    }
  }

  /** `df.loc[index][region]` of a corridor region, on a row that exists. */
  function At(df: seq<SensitivityRow>, index: nat, region: ColumnName): real
    requires index < |df| && IsCorridor(region)
  {
    Column(df[index].cells, region).value
  }

  /** The `sensitivities` dictionary: NO from rows 1 and 0, SO from rows 3 and
      2, H2O from rows 5 and 4, each pair read odd row first, so the first
      missing odd label is the KeyError. */
  function ClosedForms(df: seq<SensitivityRow>, region: ColumnName, d162: real): (r: Result<map<string, real>>)
    requires IsCorridor(region)
    ensures r.Ok? <==> |df| >= 6
    ensures r.Err? ==> r.error == MissingRow(if |df| < 2 then 1 else if |df| < 4 then 3 else 5)
    ensures r.Ok? ==> r.value.Keys == {"NO", "SO", "H2O"}
    ensures r.Ok? ==>
      && r.value["NO"] == ClosedForm(At(df, 0, region), At(df, 1, region), d162)
      && r.value["SO"] == ClosedForm(At(df, 2, region), At(df, 3, region), d162)
      && r.value["H2O"] == ClosedForm(At(df, 4, region), At(df, 5, region), d162)
  {
    if |df| < 2 then Err(MissingRow(1))
    else if |df| < 4 then Err(MissingRow(3))
    else if |df| < 6 then Err(MissingRow(5))
    else
      Ok(map["NO" := ClosedForm(At(df, 0, region), At(df, 1, region), d162),
             "SO" := ClosedForm(At(df, 2, region), At(df, 3, region), d162),
             "H2O" := ClosedForm(At(df, 4, region), At(df, 5, region), d162)])
  }

  /** A species with one row at 20.4 km and one at 16.2 km has the curve of
      those two points, the lower one first. */
  lemma PairCurve(df: seq<SensitivityRow>, species: string, region: ColumnName,
                  upper: SensitivityRow, lower: SensitivityRow)
    requires IsCorridor(region)
    requires RowsOf(df, species) == [upper, lower]
    requires upper.altitudeKm == LowerKm + SpanKm && lower.altitudeKm == LowerKm
    ensures Curve(df, species, region)
         == Some([Point(LowerKm, Column(lower.cells, region).value), Point(LowerKm + SpanKm, Column(upper.cells, region).value)])
  {
    var p := Point(LowerKm + SpanKm, Column(upper.cells, region).value);
    var q := Point(LowerKm, Column(lower.cells, region).value);
    PairPoints(upper, lower, region);
    SortPair(p, q);
  }

  /** The points of two rows, in row order. */
  lemma PairPoints(upper: SensitivityRow, lower: SensitivityRow, region: ColumnName)
    requires IsCorridor(region)
    ensures Points([upper, lower], region)
         == Some([Point(upper.altitudeKm, Column(upper.cells, region).value),
                  Point(lower.altitudeKm, Column(lower.cells, region).value)])
  {
    var rows := [upper, lower];
    var ps := Points(rows, region);
    assert rows[0] == upper && rows[1] == lower;
    assert ps.Some? && |ps.value| == 2;
    assert ps.value[0] == Point(upper.altitudeKm, Column(upper.cells, region).value);
    assert ps.value[1] == Point(lower.altitudeKm, Column(lower.cells, region).value);
    assert ps.value == [Point(upper.altitudeKm, Column(upper.cells, region).value),
                        Point(lower.altitudeKm, Column(lower.cells, region).value)];
  }

  /** Sorting two points with the second one lower swaps them. */
  lemma SortPair(p: Point, q: Point)
    requires q.x < p.x
    ensures SortByX([p, q]) == [q, p]
  {
    assert [p, q][1..] == [q];
    assert SortByX([q]) == [q];
  }

  /** Between 16.2 and 20.4 km the closed form of a species' two rows, one at
      20.4 km and one at 16.2 km, is the clamped interpolation over its rows
      that the other evaluators use. */
  lemma ClosedFormAgreesWithInterp(df: seq<SensitivityRow>, species: string, region: ColumnName,
                                   upper: SensitivityRow, lower: SensitivityRow, z: real)
    requires IsCorridor(region)
    requires RowsOf(df, species) == [upper, lower]
    requires upper.altitudeKm == LowerKm + SpanKm && lower.altitudeKm == LowerKm
    requires LowerKm <= z <= LowerKm + SpanKm
    ensures SpeciesSensitivity(df, species, region, z)
         == Ok(ClosedForm(Column(upper.cells, region).value, Column(lower.cells, region).value, z - LowerKm))
  {
    var a := Column(upper.cells, region).value;
    var b := Column(lower.cells, region).value;
    PairCurve(df, species, region, upper, lower);
    assert HasSpecies(df, species) by { RowsOfEmpty(df, species); }
    ClosedFormIsLine(a, b, z);
  }

  /** The first dictionary label of the row pair a closed form reads. */
  function PairLabel(key: string): nat {
    if key == "NO" then 0 else if key == "SO" then 2 else 4
  }

  /** On a table whose labels 2k and 2k+1 hold the only rows of species k, at
      20.4 and 16.2 km, each hard-coded sensitivity is the general one between
      those altitudes, the tabulated ends included. */
  lemma ClosedFormsAgreeWithInterp(df: seq<SensitivityRow>, region: ColumnName, key: string, z: real)
    requires IsCorridor(region) && |df| >= 6
    requires key == "NO" || key == "SO" || key == "H2O"
    requires RowsOf(df, key) == [df[PairLabel(key)], df[PairLabel(key) + 1]]
    requires df[PairLabel(key)].altitudeKm == LowerKm + SpanKm && df[PairLabel(key) + 1].altitudeKm == LowerKm
    requires LowerKm <= z <= LowerKm + SpanKm
    ensures SpeciesSensitivity(df, key, region, z).Ok?
    ensures ClosedForms(df, region, z - LowerKm).value[key] == SpeciesSensitivity(df, key, region, z).value
  {
    var j := PairLabel(key);
    ClosedFormAgreesWithInterp(df, key, region, df[j], df[j + 1], z);
  }

  /** The per-species effects and their running total, before any unit conversion. */
  datatype Speciated = Speciated(total: real, bySpecies: map<string, real>)

  /** One pass of the loop body: a species absent from the table is a
      ValueError, one without a closed form a KeyError; otherwise its effect
      is stored under its name and added to the total. */
  function Extend(closed: map<string, real>, df: seq<SensitivityRow>, s: Speciated, e: EmissionEntry): (r: Result<Speciated>)
    ensures r.Err? <==> !HasSpecies(df, e.species) || e.species !in closed
    ensures !HasSpecies(df, e.species) ==> r == Err(UnknownEmission(e.species))
    ensures r.Ok? ==>
      && r.value.bySpecies == s.bySpecies[e.species := Effect(e.magnitude, closed[e.species])]
      && r.value.total == s.total + r.value.bySpecies[e.species]
  {
    if !HasSpecies(df, e.species) then Err(UnknownEmission(e.species))
    else if e.species !in closed then Err(NoClosedForm(e.species))
    else
      var effect := Effect(e.magnitude, closed[e.species]);
      Ok(Speciated(s.total + effect, s.bySpecies[e.species := effect]))
  }

  /** A species that is in the table and has a closed form is stored with its effect. */
  lemma ExtendStored(closed: map<string, real>, df: seq<SensitivityRow>, s: Speciated, e: EmissionEntry)
    requires HasSpecies(df, e.species) && e.species in closed
    ensures Extend(closed, df, s, e).Ok?
    ensures Extend(closed, df, s, e).value.total == s.total + Effect(e.magnitude, closed[e.species])
    ensures Extend(closed, df, s, e).value.bySpecies == s.bySpecies[e.species := Effect(e.magnitude, closed[e.species])]
  {
  }

  /** An entry the loop body accepts: its species is in the table and has a closed form. */
  predicate Resolves(closed: map<string, real>, df: seq<SensitivityRow>, species: string) {
    HasSpecies(df, species) && species in closed
  }

  /** The exception the loop body raises for an entry it does not accept:
      the ValueError of the membership test comes before the KeyError. */
  function EntryError(df: seq<SensitivityRow>, species: string): Error {
    if !HasSpecies(df, species) then UnknownEmission(species) else NoClosedForm(species)
  }

  /** What the loop over the emission changes computes, entry by entry; the
      first failing entry aborts it, so it completes exactly when every entry
      is accepted. */
  function SpeciatedSum(closed: map<string, real>, df: seq<SensitivityRow>, es: Emissions): (r: Result<Speciated>)
    ensures r.Ok? <==> forall i :: 0 <= i < |es| ==> Resolves(closed, df, es[i].species)
    decreases |es|
  {
    if es == [] then Ok(Speciated(0.0, map[]))
    else
      var prefix := es[..|es| - 1];
      assert forall i :: 0 <= i < |prefix| ==> prefix[i] == es[i];
      var init :- SpeciatedSum(closed, df, prefix);
      Extend(closed, df, init, es[|es| - 1])
  }

  /** One step of the loop. */
  lemma SpeciatedStep(closed: map<string, real>, df: seq<SensitivityRow>, es: Emissions, i: nat)
    requires i < |es|
    ensures SpeciatedSum(closed, df, es[..i]).Err? ==>
      SpeciatedSum(closed, df, es[..i + 1]) == SpeciatedSum(closed, df, es[..i])
    ensures SpeciatedSum(closed, df, es[..i]).Ok? ==>
      SpeciatedSum(closed, df, es[..i + 1]) == Extend(closed, df, SpeciatedSum(closed, df, es[..i]).value, es[i])
  {
    assert es[..i + 1][..i] == es[..i];
  }

  /** A step that stores the entry's effect. */
  lemma SpeciatedStored(closed: map<string, real>, df: seq<SensitivityRow>, es: Emissions, i: nat, s: Speciated)
    requires i < |es| && SpeciatedSum(closed, df, es[..i]) == Ok(s)
    requires HasSpecies(df, es[i].species) && es[i].species in closed
    ensures SpeciatedSum(closed, df, es[..i + 1]).Ok?
    ensures SpeciatedSum(closed, df, es[..i + 1]).value.total == s.total + Effect(es[i].magnitude, closed[es[i].species])
    ensures SpeciatedSum(closed, df, es[..i + 1]).value.bySpecies
         == s.bySpecies[es[i].species := Effect(es[i].magnitude, closed[es[i].species])]
  {
    SpeciatedStep(closed, df, es, i);
    ExtendStored(closed, df, s, es[i]);
  }

  /** A failing prefix fails the whole loop with the same error. */
  lemma {:induction false} SpeciatedPrefixError(closed: map<string, real>, df: seq<SensitivityRow>, es: Emissions, j: nat)
    requires j <= |es| && SpeciatedSum(closed, df, es[..j]).Err?
    ensures SpeciatedSum(closed, df, es) == SpeciatedSum(closed, df, es[..j])
    decreases |es| - j
  {
    if j < |es| {
      SpeciatedStep(closed, df, es, j);
      SpeciatedPrefixError(closed, df, es, j + 1);
    } else {
      assert es[..j] == es;
    }
  }

  /** The loop that fills `delta_F_emissions` and bumps the running total. */
  method FillSpeciated(closed: map<string, real>, df: seq<SensitivityRow>, es: Emissions) returns (r: Result<Speciated>)
    ensures r == SpeciatedSum(closed, df, es)
  {
    var bySpecies: map<string, real> := map[];
    var total := 0.0;
    var i := 0;
    while i < |es|
      invariant 0 <= i <= |es|
      invariant SpeciatedSum(closed, df, es[..i]).Ok?
      invariant SpeciatedSum(closed, df, es[..i]).value.total == total
      invariant SpeciatedSum(closed, df, es[..i]).value.bySpecies == bySpecies
    {
      var species := es[i].species;
      SpeciatedStep(closed, df, es, i);
      if !HasSpecies(df, species) {
        SpeciatedPrefixError(closed, df, es, i + 1);
        return Err(UnknownEmission(species));
      }
      if species !in closed {
        SpeciatedPrefixError(closed, df, es, i + 1);
        return Err(NoClosedForm(species));
      }
      var effect := Effect(es[i].magnitude, closed[species]);
      SpeciatedStored(closed, df, es, i, SpeciatedSum(closed, df, es[..i]).value);
      bySpecies := bySpecies[species := effect];
      total := total + effect;
      i := i + 1;
    }
    assert es[..i] == es;
    return Ok(Speciated(total, bySpecies));
  }

  /** The loop fails with the exception of the first entry it does not accept. */
  lemma SpeciatedFirstError(closed: map<string, real>, df: seq<SensitivityRow>, es: Emissions)
    ensures forall k :: 0 <= k < |es| && !Resolves(closed, df, es[k].species)
                        && (forall i :: 0 <= i < k ==> Resolves(closed, df, es[i].species))
                    ==> SpeciatedSum(closed, df, es) == Err(EntryError(df, es[k].species))
  {
    forall k | 0 <= k < |es| && !Resolves(closed, df, es[k].species)
               && (forall i :: 0 <= i < k ==> Resolves(closed, df, es[i].species))
      ensures SpeciatedSum(closed, df, es) == Err(EntryError(df, es[k].species))
    {
      assert forall i :: 0 <= i < k ==> es[..k][i] == es[i];
      SpeciatedStep(closed, df, es, k);
      SpeciatedPrefixError(closed, df, es, k + 1);
    }
  }

  /** The species named by the entries, in order. */
  function SpeciesOf(es: Emissions): (ks: seq<string>)
    ensures |ks| == |es| && forall i :: 0 <= i < |es| ==> ks[i] == es[i].species
  {
    if es == [] then [] else SpeciesOf(es[..|es| - 1]) + [es[|es| - 1].species]
  }

  /** No species occurs twice, as in a Python dict. */
  predicate DistinctSpecies(es: Emissions) {
    forall i, j :: 0 <= i < j < |es| ==> es[i].species != es[j].species
  }

  /** The loop stores exactly one entry per species it meets. */
  lemma {:induction false} SpeciatedKeys(closed: map<string, real>, df: seq<SensitivityRow>, es: Emissions)
    requires SpeciatedSum(closed, df, es).Ok?
    ensures forall k :: k in SpeciatedSum(closed, df, es).value.bySpecies <==> k in SpeciesOf(es)
    decreases |es|
  {
    if es != [] {
      var init := es[..|es| - 1];
      SpeciatedKeys(closed, df, init);
      assert SpeciesOf(es) == SpeciesOf(init) + [es[|es| - 1].species];
    }
  }

  /** For distinct species, each entry's species is stored with the effect of
      its own magnitude and closed form. */
  lemma {:induction false} SpeciatedValues(closed: map<string, real>, df: seq<SensitivityRow>, es: Emissions)
    requires SpeciatedSum(closed, df, es).Ok?
    ensures DistinctSpecies(es) ==> forall i :: 0 <= i < |es| ==>
      && es[i].species in closed
      && es[i].species in SpeciatedSum(closed, df, es).value.bySpecies
      && SpeciatedSum(closed, df, es).value.bySpecies[es[i].species] == Effect(es[i].magnitude, closed[es[i].species])
    decreases |es|
  {
    if es != [] && DistinctSpecies(es) {
      var init := es[..|es| - 1];
      var e := es[|es| - 1];
      DistinctPrefix(es);
      SpeciatedValues(closed, df, init);
      var s0 := SpeciatedSum(closed, df, init).value;
      var d := SpeciatedSum(closed, df, es).value.bySpecies;
      assert d == s0.bySpecies[e.species := Effect(e.magnitude, closed[e.species])];
      forall i | 0 <= i < |es|
        ensures es[i].species in closed && es[i].species in d
        ensures d[es[i].species] == Effect(es[i].magnitude, closed[es[i].species])
      {
        if i < |es| - 1 {
          assert init[i] == es[i];
          assert es[i].species != e.species;
        }
      }
    }
  }

  /** The sum of the values stored under the given keys. */
  function SumOver(d: map<string, real>, ks: seq<string>): real
    requires forall i :: 0 <= i < |ks| ==> ks[i] in d
    decreases |ks|
  {
    if ks == [] then 0.0 else SumOver(d, ks[..|ks| - 1]) + d[ks[|ks| - 1]]
  }

  /** Values under keys other than the one updated are not affected. */
  lemma {:induction false} SumOverUpdate(d: map<string, real>, ks: seq<string>, k: string, v: real)
    requires forall i :: 0 <= i < |ks| ==> ks[i] in d && ks[i] != k
    ensures SumOver(d[k := v], ks) == SumOver(d, ks)
    decreases |ks|
  {
    if ks != [] {
      SumOverUpdate(d, ks[..|ks| - 1], k, v);
    }
  }

  /** One pass of the loop body keeps the entries adding up to the total,
      when the new species is not among the keys summed so far. */
  lemma ExtendAddsUp(closed: map<string, real>, df: seq<SensitivityRow>, s: Speciated, e: EmissionEntry, ks: seq<string>)
    requires forall i :: 0 <= i < |ks| ==> ks[i] in s.bySpecies && ks[i] != e.species
    requires SumOver(s.bySpecies, ks) == s.total
    requires Extend(closed, df, s, e).Ok?
    ensures SumOver(Extend(closed, df, s, e).value.bySpecies, ks + [e.species]) == Extend(closed, df, s, e).value.total
  {
    var effect := Effect(e.magnitude, closed[e.species]);
    ExtendStored(closed, df, s, e);
    SumOverUpdate(s.bySpecies, ks, e.species, effect);
    assert (ks + [e.species])[..|ks|] == ks;
  }

  /** The entries before the last of a dict-like list are dict-like too. */
  lemma DistinctPrefix(es: Emissions)
    requires es != [] && DistinctSpecies(es)
    ensures DistinctSpecies(es[..|es| - 1])
  {
    var init := es[..|es| - 1];
    assert forall i :: 0 <= i < |init| ==> init[i] == es[i];
  }

  /** The last entry keeps the stored effects adding up, given that those
      before it do. */
  lemma AddsUpStep(closed: map<string, real>, df: seq<SensitivityRow>, es: Emissions)
    requires es != [] && SpeciatedSum(closed, df, es).Ok? && DistinctSpecies(es)
    requires var s0 := SpeciatedSum(closed, df, es[..|es| - 1]).value;
      && SpeciatedSum(closed, df, es[..|es| - 1]).Ok?
      && (forall i :: 0 <= i < |es| - 1 ==> es[i].species in s0.bySpecies)
      && SumOver(s0.bySpecies, SpeciesOf(es[..|es| - 1])) == s0.total
    requires forall i :: 0 <= i < |es| ==> es[i].species in SpeciatedSum(closed, df, es).value.bySpecies
    ensures SumOver(SpeciatedSum(closed, df, es).value.bySpecies, SpeciesOf(es)) == SpeciatedSum(closed, df, es).value.total
  {
    var init := es[..|es| - 1];
    var e := es[|es| - 1];
    var ks := SpeciesOf(init);
    var s0 := SpeciatedSum(closed, df, init).value;
    assert SpeciatedSum(closed, df, es) == Extend(closed, df, s0, e);
    assert SpeciesOf(es) == ks + [e.species];
    assert forall i :: 0 <= i < |ks| ==> ks[i] in s0.bySpecies && ks[i] != e.species by {
      assert forall i :: 0 <= i < |ks| ==> ks[i] == es[i].species;
    }
    ExtendAddsUp(closed, df, s0, e, ks);
  }

  /** For distinct species the stored effects add up to the running total. */
  lemma {:induction false} SpeciatedAddsUp(closed: map<string, real>, df: seq<SensitivityRow>, es: Emissions)
    requires SpeciatedSum(closed, df, es).Ok? && DistinctSpecies(es)
    ensures forall i :: 0 <= i < |es| ==> es[i].species in SpeciatedSum(closed, df, es).value.bySpecies
    ensures SumOver(SpeciatedSum(closed, df, es).value.bySpecies, SpeciesOf(es)) == SpeciatedSum(closed, df, es).value.total
    decreases |es|
  {
    SpeciatedKeys(closed, df, es);
    if es != [] {
      DistinctPrefix(es);
      SpeciatedAddsUp(closed, df, es[..|es| - 1]);
      AddsUpStep(closed, df, es);
    }
  }

  /** `delta_F_emissions[k] /= 1000` for every key. */
  function Scaled(d: map<string, real>): (r: map<string, real>)
    ensures r.Keys == d.Keys
  {
    map k | k in d :: d[k] / 1000.0
  }

  /** The in-place conversion loop over the dictionary's keys. */
  method ScaleEntries(d: map<string, real>) returns (r: map<string, real>)
    ensures r.Keys == d.Keys
    ensures forall k :: k in d ==> r[k] == d[k] / 1000.0
  {
    r := d;
    var todo := d.Keys;
    while todo != {}
      invariant todo <= d.Keys && r.Keys == d.Keys
      invariant forall k :: k in todo ==> r[k] == d[k]
      invariant forall k :: k in d && k !in todo ==> r[k] == d[k] / 1000.0
      decreases todo
    {
      var k :| k in todo;
      r := r[k := r[k] / 1000.0];
      todo := todo - {k};
    }
  }

  /** Converting each entry converts their sum. */
  lemma {:induction false} SumOverScaled(d: map<string, real>, ks: seq<string>)
    requires forall i :: 0 <= i < |ks| ==> ks[i] in d
    ensures SumOver(Scaled(d), ks) == SumOver(d, ks) / 1000.0
    decreases |ks|
  {
    if ks != [] {
      SumOverScaled(d, ks[..|ks| - 1]);
    }
  }

  /** The loop's result in output units: in Ozone mode the total and every
      entry are converted from mDU to DU. */
  function InUnits(m: Mode, s: Speciated): (c: Speciated)
    ensures c.bySpecies.Keys == s.bySpecies.Keys
    ensures c.total == Contribution(m, s.total, 1.0)
    ensures forall k :: k in s.bySpecies ==> c.bySpecies[k] == Contribution(m, s.bySpecies[k], 1.0)
  {
    if m == Ozone then Speciated(s.total / 1000.0, Scaled(s.bySpecies)) else s
  }

  /** The `if mode == "Ozone"` conversion, dividing the entries in place. */
  method ConvertUnits(m: Mode, s: Speciated) returns (c: Speciated)
    ensures c == InUnits(m, s)
  {
    c := s;
    if m == Ozone {
      var bySpecies := ScaleEntries(s.bySpecies);
      assert bySpecies == Scaled(s.bySpecies);
      c := Speciated(s.total / 1000.0, bySpecies);
    }
  }

  /** In either unit the entries add up to the total when they did before. */
  lemma InUnitsAddsUp(m: Mode, s: Speciated, ks: seq<string>)
    requires forall i :: 0 <= i < |ks| ==> ks[i] in s.bySpecies
    requires SumOver(s.bySpecies, ks) == s.total
    ensures SumOver(InUnits(m, s).bySpecies, ks) == InUnits(m, s).total
  {
    if m == Ozone {
      SumOverScaled(s.bySpecies, ks);
    }
  }

  /** The output dictionary of calculate_delta_F_single. */
  datatype Breakdown = Breakdown(total: real, altitudeTerm: real, emissionsTerm: real, speciated: map<string, real>)

  /** The dictionary built from the altitude term and the converted effects. */
  function Assemble(altitude: real, c: Speciated): (b: Breakdown)
    ensures b.total == b.altitudeTerm + b.emissionsTerm
  {
    Breakdown(altitude + c.total, altitude, c.total, c.bySpecies)
  }

  /** A species the `sensitivities` dictionary has a closed form for. */
  predicate HasClosedForm(species: string) {
    species == "NO" || species == "SO" || species == "H2O"
  }

  /** An emission species the single variant's loop accepts on a table. */
  predicate SingleAccepts(df: seq<SensitivityRow>, species: string) {
    HasSpecies(df, species) && HasClosedForm(species)
  }

  /** When the terms of calculate_delta_F_single are defined: both Taylor
      coefficients are found, row labels 0 to 5 of the mode's table exist, and
      every emission species is in that table and has a closed form. */
  predicate SingleDefined(tables: PackageTables, es: Emissions, region: ColumnName, m: Mode) {
    && ModeCoefficients(tables.taylor, region, m).Ok?
    && |Selected(tables, m)| >= 6
    && forall i :: 0 <= i < |es| ==> SingleAccepts(Selected(tables, m), es[i].species)
  }

  /** The terms of calculate_delta_F_single once its checks have passed:
      Taylor coefficients, closed forms of the mode's table, the loop, the
      conversion. The first failing step gives the error: the IndexError of
      a missing Taylor row, the KeyError of a missing row label, then the
      first emission entry the loop rejects. */
  function SingleTerms(tables: PackageTables, ref: real, change: real, es: Emissions, region: ColumnName, m: Mode): (r: Result<Breakdown>)
    requires IsCorridor(region)
    ensures r.Ok? <==> SingleDefined(tables, es, region, m)
    ensures ModeCoefficients(tables.taylor, region, m).Err? ==> r == Err(ModeCoefficients(tables.taylor, region, m).error)
    ensures ModeCoefficients(tables.taylor, region, m).Ok? && |Selected(tables, m)| < 6 ==>
      r == Err(MissingRow(if |Selected(tables, m)| < 2 then 1 else if |Selected(tables, m)| < 4 then 3 else 5))
    ensures ModeCoefficients(tables.taylor, region, m).Ok? && |Selected(tables, m)| >= 6 ==>
      forall k :: 0 <= k < |es| && !SingleAccepts(Selected(tables, m), es[k].species)
                  && (forall i :: 0 <= i < k ==> SingleAccepts(Selected(tables, m), es[i].species))
              ==> r == Err(EntryError(Selected(tables, m), es[k].species))
    ensures r.Ok? ==>
      && ModeCoefficients(tables.taylor, region, m).Ok?
      && r.value.altitudeTerm == BiasCorrected(ModeCoefficients(tables.taylor, region, m).value, ref + change, ref)
    ensures r.Ok? && DistinctSpecies(es) ==>
      var closed := ClosedForms(Selected(tables, m), region, change + (ref - LowerKm));
      && closed.Ok?
      && forall i :: 0 <= i < |es| ==>
           && es[i].species in closed.value && es[i].species in r.value.speciated
           && r.value.speciated[es[i].species] == Contribution(m, es[i].magnitude, closed.value[es[i].species])
    ensures r.Ok? && change == 0.0 ==> r.value.altitudeTerm == 0.0
  {
    var c :- ModeCoefficients(tables.taylor, region, m);
    var df := Selected(tables, m);
    var closed :- ClosedForms(df, region, change + (ref - LowerKm));
    assert forall sp :: Resolves(closed, df, sp) <==> SingleAccepts(df, sp);
    SpeciatedFirstError(closed, df, es);
    var s :- SpeciatedSum(closed, df, es);
    SpeciatedValues(closed, df, es);
    ContributionOfEffect(m, closed);
    Ok(Assemble(BiasCorrected(c, ref + change, ref), InUnits(m, s)))
  }

  /** Converting a stored effect gives the species' contribution. */
  lemma ContributionOfEffect(m: Mode, closed: map<string, real>)
    ensures forall x: real, k :: k in closed ==> Contribution(m, Effect(x, closed[k]), 1.0) == Contribution(m, x, closed[k])
  {
  }

  /** What calculate_delta_F_single computes, in its order of checks: mode,
      region, range of the ozone table at the new altitude (a fatal Warning,
      in either mode), then the terms. */
  function SingleSpec(tables: PackageTables, ref: real, change: real, es: Emissions, region: string, mode: string): (r: Result<Breakdown>)
    ensures ParseMode(mode).Err? ==> r == Err(UnknownMode(mode))
    ensures ParseMode(mode).Ok? && !IsCorridor(ColumnNamed(region)) ==> r == Err(InvalidRegion(region))
    ensures ParseMode(mode).Ok? && IsCorridor(ColumnNamed(region)) && tables.sensitivityOzone == [] ==> r == Err(EmptyTable)
    ensures (ParseMode(mode).Ok? && IsCorridor(ColumnNamed(region)) && tables.sensitivityOzone != []
             && !WithinTable(tables.sensitivityOzone, ref + change)) ==> r == Err(RangeWarning(ref + change))
    ensures r.Ok? <==>
      && ParseMode(mode).Ok?
      && IsCorridor(ColumnNamed(region))
      && WithinTable(tables.sensitivityOzone, ref + change)
      && SingleDefined(tables, es, ColumnNamed(region), ParseMode(mode).value)
    ensures ParseMode(mode).Ok? && IsCorridor(ColumnNamed(region)) && WithinTable(tables.sensitivityOzone, ref + change) ==>
      var coefficients := ModeCoefficients(tables.taylor, ColumnNamed(region), ParseMode(mode).value);
      var df := Selected(tables, ParseMode(mode).value);
      && (coefficients.Err? ==> r == Err(coefficients.error))
      && (coefficients.Ok? && |df| < 6 ==> r == Err(MissingRow(if |df| < 2 then 1 else if |df| < 4 then 3 else 5)))
      && (coefficients.Ok? && |df| >= 6 ==>
            forall k :: 0 <= k < |es| && !SingleAccepts(df, es[k].species)
                        && (forall i :: 0 <= i < k ==> SingleAccepts(df, es[i].species))
                    ==> r == Err(EntryError(df, es[k].species)))
    ensures r.Ok? ==> r.value.total == r.value.altitudeTerm + r.value.emissionsTerm
    ensures r.Ok? ==>
      && ModeCoefficients(tables.taylor, ColumnNamed(region), ParseMode(mode).value).Ok?
      && r.value.altitudeTerm
         == BiasCorrected(ModeCoefficients(tables.taylor, ColumnNamed(region), ParseMode(mode).value).value, ref + change, ref)
    ensures r.Ok? && DistinctSpecies(es) ==>
      var m := ParseMode(mode).value;
      var closed := ClosedForms(Selected(tables, m), ColumnNamed(region), change + (ref - LowerKm));
      && closed.Ok?
      && forall i :: 0 <= i < |es| ==>
           && es[i].species in closed.value && es[i].species in r.value.speciated
           && r.value.speciated[es[i].species] == Contribution(m, es[i].magnitude, closed.value[es[i].species])
    ensures r.Ok? && change == 0.0 ==> r.value.altitudeTerm == 0.0
  {
    var m :- ParseMode(mode);
    var col := ColumnNamed(region);
    if !IsCorridor(col) then Err(InvalidRegion(region))
    else
      var b :- AltitudeBounds(tables.sensitivityOzone);
      BoundsWithin(tables.sensitivityOzone, ref + change);
      if !InBounds(b, ref + change) then Err(RangeWarning(ref + change))
      else SingleTerms(tables, ref, change, es, col, m)
  }

  /** The terms, computed by the two loops. */
  method ComputeSingleTerms(tables: PackageTables, ref: real, change: real, es: Emissions, region: ColumnName, m: Mode)
    returns (r: Result<Breakdown>)
    requires IsCorridor(region)
    ensures r == SingleTerms(tables, ref, change, es, region, m)
  {
    var c := ModeCoefficients(tables.taylor, region, m);
    if c.Err? {
      return Err(c.error);
    }
    var altitude := BiasCorrected(c.value, ref + change, ref);
    var df := Selected(tables, m);
    var closed := ClosedForms(df, region, change + (ref - LowerKm));
    if closed.Err? {
      return Err(closed.error);
    }
    var s := FillSpeciated(closed.value, df, es);
    if s.Err? {
      return Err(s.error);
    }
    var converted := ConvertUnits(m, s.value);
    r := Ok(Assemble(altitude, converted));
  }

  /** calculate_delta_F_single. */
  method DeltaFSingle(tables: PackageTables, ref: real, change: real, es: Emissions, region: string, mode: string)
    returns (r: Result<Breakdown>)
    ensures r == SingleSpec(tables, ref, change, es, region, mode)
  {
    var m := ParseMode(mode);
    if m.Err? {
      return Err(m.error);
    }
    var col := ColumnNamed(region);
    if !IsCorridor(col) {
      return Err(InvalidRegion(region));
    }
    var bounds := AltitudeBounds(tables.sensitivityOzone);
    if bounds.Err? {
      return Err(bounds.error);
    }
    if !InBounds(bounds.value, ref + change) {
      return Err(RangeWarning(ref + change));
    }
    r := ComputeSingleTerms(tables, ref, change, es, col, m.value);
  }

  /** calculate_delta_F_single as written: the three-name unpacking of the
      reloaded pair comes first, before any check of the arguments, so every
      call fails there, whatever its arguments and whatever the files hold. */
  function AsWrittenSingleSpec(store: OzoneReadData.OzoneStore, ref: real, change: real, es: Emissions,
                               region: string, mode: string): (r: Result<Breakdown>)
    ensures r == Err(UnpackMismatch(3, 2))
  {
    match UnpackLoaded(OzoneReadData.LoadData(store, true))
    case Err(e) => Err(e)
    case Ok(tables) => SingleSpec(tables, ref, change, es, region, mode)
  }

  /** An emission species absent from the mode's table, or one without a
      closed form, fails the single call once mode and region are valid. */
  lemma SingleRejectsEntry(tables: PackageTables, ref: real, change: real, es: Emissions,
                           region: string, mode: string, k: nat)
    requires ParseMode(mode).Ok? && IsCorridor(ColumnNamed(region)) && k < |es|
    requires !SingleAccepts(Selected(tables, ParseMode(mode).value), es[k].species)
    ensures SingleSpec(tables, ref, change, es, region, mode).Err?
  {
  }

  /** For distinct species, there is one speciated entry per species and the
      entries add up to the emissions term, in either unit. */
  lemma SingleTermsAddUp(tables: PackageTables, ref: real, change: real, es: Emissions, region: ColumnName, m: Mode)
    requires IsCorridor(region) && SingleTerms(tables, ref, change, es, region, m).Ok? && DistinctSpecies(es)
    ensures var b := SingleTerms(tables, ref, change, es, region, m).value;
      && (forall k :: k in b.speciated <==> k in SpeciesOf(es))
      && SumOver(b.speciated, SpeciesOf(es)) == b.emissionsTerm
  {
    var df := Selected(tables, m);
    var closed := ClosedForms(df, region, change + (ref - LowerKm)).value;
    var s := SpeciatedSum(closed, df, es).value;
    SpeciatedKeys(closed, df, es);
    SpeciatedAddsUp(closed, df, es);
    assert forall i :: 0 <= i < |es| ==> SpeciesOf(es)[i] in s.bySpecies;
    InUnitsAddsUp(m, s, SpeciesOf(es));
  }

  /** The same for the whole call. */
  lemma SingleSpeciatedSum(tables: PackageTables, ref: real, change: real, es: Emissions, region: string, mode: string)
    requires SingleSpec(tables, ref, change, es, region, mode).Ok? && DistinctSpecies(es)
    ensures var b := SingleSpec(tables, ref, change, es, region, mode).value;
      && (forall k :: k in b.speciated <==> k in SpeciesOf(es))
      && SumOver(b.speciated, SpeciesOf(es)) == b.emissionsTerm
  {
    SingleTermsAddUp(tables, ref, change, es, ColumnNamed(region), ParseMode(mode).value);
  }
}
