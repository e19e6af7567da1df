/** The mode-aware engine: the altitude term, the emission term and their sum,
    each over the prepared tables the store holds for the requested mode. */
module ResponseModel {
  import opened TableModel
  import opened Taylor
  import opened EmissionResponse
  import ReadData

  /** calculate_delta_F_altitude: the bias-corrected Taylor term of the
      mode's prepared Taylor table. */
  function AltitudeTerm(store: ReadData.Store, z: real, region: string, ref: real, mode: string): (r: Result<real>)
    ensures ParseMode(mode).Err? ==> r == Err(UnknownMode(mode))
    ensures r.Ok? && z == ref ==> r.value == 0.0
  {
    var tables :- ReadData.LoadData(store, true, mode);
    TaylorTerm(tables.taylor, ColumnNamed(region), z, ref, ParseMode(mode).value)
  }

  /** The coefficient of one order, read from the raw Taylor file: no column
      of that name once the derived columns are added, else the region column
      of the first row whose Parameter holds the pattern. Every column name is
      a column of the prepared row, and a corridor value is the raw row's. */
  function FileCoefficient(raw: seq<TaylorRow>, order: string, region: ColumnName, m: Mode): (r: Result<real>)
    ensures r.Ok? <==> IsColumnName(region) && FirstMatch(raw, Pattern(order, m)).Some?
    ensures !IsColumnName(region) ==> r == Err(UnknownColumn(ColumnText(region)))
    ensures IsColumnName(region) && FirstMatch(raw, Pattern(order, m)).None? ==> r == Err(MissingCoefficient(Pattern(order, m)))
    ensures r.Ok? && IsCorridor(region) ==> Column(raw[FirstMatch(raw, Pattern(order, m)).value].cells, region) == Some(r.value)
  {
    if !IsColumnName(region) then Err(UnknownColumn(ColumnText(region)))
    else match FirstMatch(raw, Pattern(order, m))
    case None => Err(MissingCoefficient(Pattern(order, m)))
    case Some(i) =>
      match Column(ReadData.PrepareCells(raw[i].cells), region)
      case None => Err(UnknownColumn(ColumnText(region)))
      case Some(v) => Ok(v)
  }

  /** The altitude term computed from the raw Taylor file: both coefficients,
      the first order's error first, then the bias-corrected polynomial, which
      vanishes at the reference. */
  function FileAltitudeTerm(raw: seq<TaylorRow>, region: ColumnName, z: real, ref: real, m: Mode): (r: Result<real>)
    ensures r.Ok? <==> FileCoefficient(raw, "1st", region, m).Ok? && FileCoefficient(raw, "2nd", region, m).Ok?
    ensures FileCoefficient(raw, "1st", region, m).Err? ==> r == Err(FileCoefficient(raw, "1st", region, m).error)
    ensures FileCoefficient(raw, "1st", region, m).Ok? && FileCoefficient(raw, "2nd", region, m).Err?
            ==> r == Err(FileCoefficient(raw, "2nd", region, m).error)
    ensures r.Ok? ==> r.value == BiasCorrected(Coefficients(FileCoefficient(raw, "1st", region, m).value,
                                                            FileCoefficient(raw, "2nd", region, m).value), z, ref)
    ensures r.Ok? && z == ref ==> r.value == 0.0
  {
    var a :- FileCoefficient(raw, "1st", region, m);
    var b :- FileCoefficient(raw, "2nd", region, m);
    Ok(BiasCorrected(Coefficients(a, b), z, ref))
  }

  /** For any region, the altitude term is the bias-corrected polynomial of
      the coefficients read from the first matching rows of the raw file; it
      fails with KeyError for a name that is no column of the prepared table,
      and with the first missing pattern otherwise. */
  lemma AltitudeTermFromFile(store: ReadData.Store, z: real, region: string, ref: real, m: Mode)
    ensures AltitudeTerm(store, z, region, ref, ModeName(m))
         == FileAltitudeTerm(ReadData.Files(store, m).taylor, ColumnNamed(region), z, ref, m)
  {
    var raw := ReadData.Files(store, m).taylor;
    var prepared := ReadData.PrepareTaylor(raw);
    assert ParseMode(ModeName(m)) == Ok(m);
    assert ReadData.LoadData(store, true, ModeName(m)).value.taylor == prepared;
    if IsColumnName(ColumnNamed(region)) {
      assert TaylorHasColumn(prepared, ColumnNamed(region));
      FirstMatchSameParameters(raw, prepared, Pattern("1st", m));
      FirstMatchSameParameters(raw, prepared, Pattern("2nd", m));
    }
  }

  /** With the default reference of 18.3 km the correction vanishes and the
      term is the plain polynomial at the offset from 18.3 km. */
  lemma AltitudeTermDefaultReference(store: ReadData.Store, z: real, region: string, m: Mode)
    requires KnownHeader(region)
    requires FirstMatch(ReadData.Files(store, m).taylor, Pattern("1st", m)).Some?
    requires FirstMatch(ReadData.Files(store, m).taylor, Pattern("2nd", m)).Some?
    ensures var raw := ReadData.Files(store, m).taylor;
      AltitudeTerm(store, z, region, BaselineKm, ModeName(m))
        == Ok(Raw(Coefficients(FileCoefficient(raw, "1st", ColumnNamed(region), m).value,
                               FileCoefficient(raw, "2nd", ColumnNamed(region), m).value), z - BaselineKm))
  {
    AltitudeTermFromFile(store, z, region, BaselineKm, m);
  }

  /** A coefficient read from the Mean column is the average of the two
      corridor coefficients of the same row. */
  lemma MeanCoefficient(raw: seq<TaylorRow>, order: string, m: Mode)
    ensures var mean := FileCoefficient(raw, order, Mean, m);
      var tac := FileCoefficient(raw, order, TransatlanticCorridor, m);
      var sas := FileCoefficient(raw, order, SouthArabianSea, m);
      && (mean.Ok? <==> tac.Ok?)
      && (mean.Ok? ==> sas.Ok? && mean.value == Average(tac.value, sas.value))
  {
  }

  /** The term of the Mean column is the average of the corridor terms. */
  lemma MeanFileAltitudeTerm(raw: seq<TaylorRow>, z: real, ref: real, m: Mode)
    requires FileAltitudeTerm(raw, TransatlanticCorridor, z, ref, m).Ok?
    ensures FileAltitudeTerm(raw, Mean, z, ref, m)
         == Ok(Average(FileAltitudeTerm(raw, TransatlanticCorridor, z, ref, m).value,
                       FileAltitudeTerm(raw, SouthArabianSea, z, ref, m).value))
  {
    MeanCoefficient(raw, "1st", m);
    MeanCoefficient(raw, "2nd", m);
    var c1 := Coefficients(FileCoefficient(raw, "1st", TransatlanticCorridor, m).value,
                           FileCoefficient(raw, "2nd", TransatlanticCorridor, m).value);
    var c2 := Coefficients(FileCoefficient(raw, "1st", SouthArabianSea, m).value,
                           FileCoefficient(raw, "2nd", SouthArabianSea, m).value);
    assert FileAltitudeTerm(raw, TransatlanticCorridor, z, ref, m) == Ok(BiasCorrected(c1, z, ref));
    assert FileAltitudeTerm(raw, SouthArabianSea, z, ref, m) == Ok(BiasCorrected(c2, z, ref));
    assert FileAltitudeTerm(raw, Mean, z, ref, m) == Ok(BiasCorrected(Midpoint(c1, c2), z, ref));
    BiasCorrectedMidpoint(c1, c2, z, ref);
  }

  /** The Mean column averages the corridors, and the term is linear in the
      coefficients, so the Mean term is the average of the two corridor terms. */
  lemma MeanAltitudeTerm(store: ReadData.Store, z: real, ref: real, m: Mode)
    requires AltitudeTerm(store, z, "Transatlantic_Corridor", ref, ModeName(m)).Ok?
    ensures AltitudeTerm(store, z, "Mean", ref, ModeName(m))
         == Ok(Average(AltitudeTerm(store, z, "Transatlantic_Corridor", ref, ModeName(m)).value,
                       AltitudeTerm(store, z, "South_Arabian_Sea", ref, ModeName(m)).value))
  {
    var raw := ReadData.Files(store, m).taylor;
    assert ColumnNamed("Transatlantic_Corridor") == TransatlanticCorridor;
    assert ColumnNamed("South_Arabian_Sea") == SouthArabianSea;
    assert ColumnNamed("Mean") == Mean;
    AltitudeTermFromFile(store, z, "Transatlantic_Corridor", ref, m);
    AltitudeTermFromFile(store, z, "South_Arabian_Sea", ref, m);
    AltitudeTermFromFile(store, z, "Mean", ref, m);
    MeanFileAltitudeTerm(raw, z, ref, m);
  }

  // ---------------------------------------------------------------------------
  // The emission term

  /** A value with the "altitude within the table" flag in place of the warning. */
  datatype Estimate = Estimate(value: real, inRange: bool)

  /** What calculate_delta_F_emissions computes: the bounds of the prepared
      sensitivity table (a warning, never an abort, when z lies outside), then
      the accumulated contributions. */
  function EmissionTermSpec(store: ReadData.Store, z: real, es: Emissions, region: string, mode: string): (r: Result<Estimate>)
    ensures ParseMode(mode).Err? ==> r == Err(UnknownMode(mode))
    ensures ParseMode(mode).Ok? && ReadData.Files(store, ParseMode(mode).value).sensitivity == [] ==> r == Err(EmptyTable)
  {
    var tables :- ReadData.LoadData(store, true, mode);
    var b :- AltitudeBounds(tables.sensitivity);
    var total :- SumContributions(tables.sensitivity, ColumnNamed(region), z, ParseMode(mode).value, es);
    Ok(Estimate(total, InBounds(b, z)))
  }

  /** The flag is exactly "the altitude lies within the raw table's altitudes". */
  lemma RangeFlag(store: ReadData.Store, z: real, es: Emissions, region: string, mode: string)
    requires EmissionTermSpec(store, z, es, region, mode).Ok?
    ensures EmissionTermSpec(store, z, es, region, mode).value.inRange
        <==> WithinTable(ReadData.Files(store, ParseMode(mode).value).sensitivity, z)
  {
    var raw := ReadData.Files(store, ParseMode(mode).value).sensitivity;
    var table := ReadData.LoadData(store, true, mode).value.sensitivity;
    assert forall i :: 0 <= i < |raw| ==> table[i].altitudeKm == raw[i].altitudeKm;
    BoundsWithin(table, z);
  }

  /** calculate_delta_F_emissions, running the accumulator loop. */
  method EmissionTerm(store: ReadData.Store, z: real, es: Emissions, region: string, mode: string) returns (r: Result<Estimate>)
    ensures r == EmissionTermSpec(store, z, es, region, mode)
  {
    var loaded := ReadData.LoadData(store, true, mode);
    if loaded.Err? {
      return Err(loaded.error);
    }
    var table := loaded.value.sensitivity;
    var bounds := AltitudeBounds(table);
    if bounds.Err? {
      return Err(bounds.error);
    }
    var total := SumLoop(SensitivityAt(table, ColumnNamed(region), z), ParseMode(mode).value, es);
    if total.Err? {
      return Err(total.error);
    }
    return Ok(Estimate(total.value, InBounds(bounds.value, z)));
  }

  /** The warning does not stop the computation: with a valid mode, a
      non-empty table, a corridor and species all present, the term is
      computed at any altitude, inside the table's range or not. */
  lemma OutOfRangeStillComputed(store: ReadData.Store, z: real, es: Emissions, region: string, m: Mode)
    requires ReadData.Files(store, m).sensitivity != [] && IsCorridor(ColumnNamed(region))
    requires forall i :: 0 <= i < |es| ==> HasSpecies(ReadData.Files(store, m).sensitivity, es[i].species)
    ensures EmissionTermSpec(store, z, es, region, ModeName(m)).Ok?
  {
    var raw := ReadData.Files(store, m).sensitivity;
    var table := ReadData.PrepareSensitivity(raw);
    assert ParseMode(ModeName(m)) == Ok(m);
    forall i | 0 <= i < |es| ensures HasSpecies(table, es[i].species) {
      ReadData.PreparedSpecies(raw, table, es[i].species);
    }
    AccumulateDefined(SensitivityAt(table, ColumnNamed(region), z), m, es);
  }

  /** An empty emissions mapping gives an emission term of 0. */
  lemma NoEmissions(store: ReadData.Store, z: real, region: string, m: Mode)
    requires ReadData.Files(store, m).sensitivity != []
    ensures EmissionTermSpec(store, z, [], region, ModeName(m)).Ok?
    ensures EmissionTermSpec(store, z, [], region, ModeName(m)).value.value == 0.0
  {
    assert ParseMode(ModeName(m)) == Ok(m);
  }

  /** A species absent from the table fails the whole term. */
  lemma AbsentSpeciesFails(store: ReadData.Store, z: real, es: Emissions, region: string, m: Mode, i: nat)
    requires i < |es| && !HasSpecies(ReadData.Files(store, m).sensitivity, es[i].species)
    ensures EmissionTermSpec(store, z, es, region, ModeName(m)).Err?
  {
    var raw := ReadData.Files(store, m).sensitivity;
    var table := ReadData.PrepareSensitivity(raw);
    assert ParseMode(ModeName(m)) == Ok(m);
    ReadData.PreparedSpecies(raw, table, es[i].species);
    UnknownSpeciesAborts(table, ColumnNamed(region), z, m, es, i);
  }

  /** With a valid mode and a non-empty table, the term is the accumulated
      sum over the prepared table of that mode, flagged by the raw table's
      altitude range. */
  lemma EmissionTermOf(store: ReadData.Store, z: real, es: Emissions, region: string, m: Mode)
    requires ReadData.Files(store, m).sensitivity != []
    ensures var table := ReadData.PrepareSensitivity(ReadData.Files(store, m).sensitivity);
      var r := EmissionTermSpec(store, z, es, region, ModeName(m));
      && (r.Ok? <==> SumContributions(table, ColumnNamed(region), z, m, es).Ok?)
      && (r.Ok? ==> r.value.value == SumContributions(table, ColumnNamed(region), z, m, es).value)
      && (r.Ok? ==> r.value.inRange == WithinTable(ReadData.Files(store, m).sensitivity, z))
  {
    assert ParseMode(ModeName(m)) == Ok(m);
    assert ReadData.LoadData(store, true, ModeName(m)).value.sensitivity
        == ReadData.PrepareSensitivity(ReadData.Files(store, m).sensitivity);
    if EmissionTermSpec(store, z, es, region, ModeName(m)).Ok? {
      RangeFlag(store, z, es, region, ModeName(m));
    }
  }

  /** Linearity in each magnitude: adding d to one entry adds exactly d times
      that species' sensitivity (over 1000 in Ozone mode) to the term. */
  lemma EmissionTermLinear(store: ReadData.Store, z: real, es: Emissions, region: string, m: Mode, j: nat, d: real)
    requires j < |es| && EmissionTermSpec(store, z, es, region, ModeName(m)).Ok?
    ensures var table := ReadData.PrepareSensitivity(ReadData.Files(store, m).sensitivity);
      var s := SpeciesSensitivity(table, es[j].species, ColumnNamed(region), z);
      var r := EmissionTermSpec(store, z, es, region, ModeName(m));
      var r' := EmissionTermSpec(store, z, es[j := EmissionEntry(es[j].species, es[j].magnitude + d)], region, ModeName(m));
      && s.Ok? && r'.Ok?
      && r'.value.value == r.value.value + Contribution(m, d, s.value)
      && r'.value.inRange == r.value.inRange
  {
    var table := ReadData.PrepareSensitivity(ReadData.Files(store, m).sensitivity);
    var sens := SensitivityAt(table, ColumnNamed(region), z);
    var es' := es[j := EmissionEntry(es[j].species, es[j].magnitude + d)];
    assert ParseMode(ModeName(m)) == Ok(m);
    EmissionTermOf(store, z, es, region, m);
    AccumulateAddMagnitude(sens, m, es, j, d);
    EmissionTermOf(store, z, es', region, m);
    assert sens(es[j].species) == SpeciesSensitivity(table, es[j].species, ColumnNamed(region), z);
  }

  // ---------------------------------------------------------------------------
  // The total

  /** calculate_delta_F: the altitude term plus the emission term, the
      altitude term's error reported first. */
  function DeltaFSpec(store: ReadData.Store, z: real, es: Emissions, region: string, ref: real, mode: string): (r: Result<Estimate>)
    ensures r.Ok? <==> AltitudeTerm(store, z, region, ref, mode).Ok? && EmissionTermSpec(store, z, es, region, mode).Ok?
    ensures AltitudeTerm(store, z, region, ref, mode).Err? ==> r == Err(AltitudeTerm(store, z, region, ref, mode).error)
    ensures AltitudeTerm(store, z, region, ref, mode).Ok? && EmissionTermSpec(store, z, es, region, mode).Err?
            ==> r == Err(EmissionTermSpec(store, z, es, region, mode).error)
    ensures r.Ok? ==> r.value.value == AltitudeTerm(store, z, region, ref, mode).value
                                       + EmissionTermSpec(store, z, es, region, mode).value.value
    ensures r.Ok? ==> r.value.inRange == EmissionTermSpec(store, z, es, region, mode).value.inRange
  {
    Total(AltitudeTerm(store, z, region, ref, mode), EmissionTermSpec(store, z, es, region, mode))
  }

  /** The sum of the two terms, the altitude term's error first; the range
      flag is the emission term's. */
  function Total(altitude: Result<real>, emissions: Result<Estimate>): (r: Result<Estimate>)
    ensures r.Ok? <==> altitude.Ok? && emissions.Ok?
    ensures altitude.Err? ==> r == Err(altitude.error)
    ensures altitude.Ok? && emissions.Err? ==> r == Err(emissions.error)
    ensures r.Ok? ==> r.value.value == altitude.value + emissions.value.value && r.value.inRange == emissions.value.inRange
  {
    if altitude.Err? then Err(altitude.error)
    else if emissions.Err? then Err(emissions.error)
    else Ok(Estimate(altitude.value + emissions.value.value, emissions.value.inRange))
  }

  method DeltaF(store: ReadData.Store, z: real, es: Emissions, region: string, ref: real, mode: string) returns (r: Result<Estimate>)
    ensures r == DeltaFSpec(store, z, es, region, ref, mode)
  {
    var altitude := AltitudeTerm(store, z, region, ref, mode);
    if altitude.Err? {
      return Err(altitude.error);
    }
    var emissions := EmissionTerm(store, z, es, region, mode);
    r := Total(altitude, emissions);
  }

  /** At the reference altitude with no emissions the change is zero. */
  lemma NoChangeAtReference(store: ReadData.Store, z: real, region: string, m: Mode)
    requires DeltaFSpec(store, z, [], region, z, ModeName(m)).Ok?
    ensures DeltaFSpec(store, z, [], region, z, ModeName(m)).value.value == 0.0
  {
    assert ParseMode(ModeName(m)) == Ok(m);
  }
}
