/** The stand-alone ozone script: its own preparation of the sensitivity
    table, a sensitivity curve that skips rows without an altitude and is
    extended linearly beyond the data, and the combined or individual ozone
    change evaluated element by element over arrays of altitudes. */
module MainScript {
  import opened TableModel
  import opened Interpolation
  import opened EmissionResponse
  import ReadData

  /** An `Altitude_km` cell: a number, or the '-' placeholder of rows that do
      not depend on altitude. */
  datatype AltitudeCell = Placeholder | Km(km: real)

  /** A row of the script's sensitivity table. */
  datatype ScriptRow = ScriptRow(emission: string, altitude: AltitudeCell, cells: Cells)

  // ---------------------------------------------------------------------------
  // Table preparation

  /** prepare_data: every row gains the Mean, Range, Max_val and Min_val
      columns computed from its two corridor values; nothing else changes. */
  function PrepareData(rows: seq<ScriptRow>): (r: seq<ScriptRow>)
    ensures |r| == |rows|
    ensures forall i :: 0 <= i < |r| ==>
      && r[i].emission == rows[i].emission
      && r[i].altitude == rows[i].altitude
      && r[i].cells.transatlantic == rows[i].cells.transatlantic
      && r[i].cells.southArabian == rows[i].cells.southArabian
      && r[i].cells.derived == Some(ReadData.Derive(rows[i].cells.transatlantic, rows[i].cells.southArabian))
  {
    seq(|rows|, i requires 0 <= i < |rows| => rows[i].(cells := ReadData.PrepareCells(rows[i].cells)))
  }

  /** After preparation every column the script may name is present. */
  lemma PreparedColumns(rows: seq<ScriptRow>, i: nat, name: ColumnName)
    requires i < |rows| && IsColumnName(name)
    ensures Column(PrepareData(rows)[i].cells, name).Some?
  {
  }

  // ---------------------------------------------------------------------------
  // Sensitivity curve

  /** The rows of the species whose altitude is a number, with that number as
      their altitude (the filter on Emission, the filter on '-', astype(float)). */
  function Measured(table: seq<ScriptRow>, species: string): (r: seq<SensitivityRow>)
    ensures |r| <= |table|
    ensures forall k :: 0 <= k < |r| ==> r[k].emission == species
  {
    if table == [] then []
    else
      var rest := Measured(table[1..], species);
      if table[0].emission == species && table[0].altitude.Km? then
        [SensitivityRow(species, table[0].altitude.km, table[0].cells)] + rest
      else rest
  }

  /** Measured distributes over concatenation. */
  lemma {:induction false} MeasuredAppend(a: seq<ScriptRow>, b: seq<ScriptRow>, species: string)
    ensures Measured(a + b, species) == Measured(a, species) + Measured(b, species)
  {
    if a != [] {
      assert (a + b)[0] == a[0];
      assert (a + b)[1..] == a[1..] + b;
      MeasuredAppend(a[1..], b, species);
    } else {
      assert a + b == b;
    }
  }

  /** Conversely, every row of the species with a numeric altitude is kept. */
  lemma MeasuredKeeps(table: seq<ScriptRow>, species: string, i: nat)
    requires i < |table| && table[i].emission == species && table[i].altitude.Km?
    ensures SensitivityRow(species, table[i].altitude.km, table[i].cells) in Measured(table, species)
  {
    var row := table[i];
    assert table == table[..i] + ([row] + table[i + 1..]);
    MeasuredAppend(table[..i], [row] + table[i + 1..], species);
    MeasuredAppend([row], table[i + 1..], species);
    assert [row][1..] == [];
  }

  /** A placeholder row never reaches the interpolation, wherever it sits. */
  lemma PlaceholderIgnored(a: seq<ScriptRow>, b: seq<ScriptRow>, row: ScriptRow, species: string)
    requires row.altitude.Placeholder?
    ensures Measured(a + [row] + b, species) == Measured(a + b, species)
  {
    MeasuredAppend(a + [row], b, species);
    MeasuredAppend(a, [row], species);
    MeasuredAppend(a, b, species);
    assert Measured([row], species) == [];
  }

  /** `corridor in df.columns`: pandas decides column existence for the whole
      frame, before and whatever the filters on Emission and '-' keep. The
      two corridor columns exist in every table. */
  predicate HasColumn(table: seq<ScriptRow>, region: ColumnName): (b: bool)
    ensures IsCorridor(region) ==> b
  {
    IsColumnName(region) && forall i :: 0 <= i < |table| ==> Column(table[i].cells, region).Some?
  }

  /** The measured rows keep their cells, so a column of the whole table is a
      column of every measured row. */
  lemma {:induction false} MeasuredColumns(table: seq<ScriptRow>, species: string, region: ColumnName)
    requires HasColumn(table, region)
    ensures Points(Measured(table, species), region).Some?
  {
    if table != [] {
      assert forall i :: 0 <= i < |table| - 1 ==> table[1..][i] == table[i + 1];
      MeasuredColumns(table[1..], species, region);
      var rest := Measured(table[1..], species);
      if table[0].emission == species && table[0].altitude.Km? {
        var ms := Measured(table, species);
        assert ms == [SensitivityRow(species, table[0].altitude.km, table[0].cells)] + rest;
        forall k | 0 <= k < |ms| ensures Column(ms[k].cells, region).Some? {
          if k > 0 {
            assert ms[k] == rest[k - 1];
          }
        }
      }
    }
  }

  /** The points interp1d is built from, sorted by altitude: KeyError for a
      column the table lacks, ValueError for fewer than two points. */
  function SensitivityCurve(table: seq<ScriptRow>, species: string, region: ColumnName): (r: Result<seq<Point>>)
    ensures !HasColumn(table, region) ==> r == Err(UnknownColumn(ColumnText(region)))
    ensures HasColumn(table, region) ==> Points(Measured(table, species), region).Some?
    ensures IsCorridor(region) ==> HasColumn(table, region)
    ensures HasColumn(table, region) && |Measured(table, species)| < 2
            ==> r == Err(TooFewPoints(|Measured(table, species)|))
    ensures r.Ok? <==> HasColumn(table, region) && |Measured(table, species)| >= 2
    ensures r.Ok? ==> |r.value| == |Measured(table, species)| && Sorted(r.value)
  {
    if !HasColumn(table, region) then Err(UnknownColumn(ColumnText(region)))
    else
      MeasuredColumns(table, species, region);
      var ps := Points(Measured(table, species), region).value;
      if |ps| < 2 then Err(TooFewPoints(|ps|)) else Ok(SortByX(ps))
  }

  /** The extrapolating interpolation at every altitude of an array; a
      non-finite element spoils the whole result. */
  function EvaluateAll(ps: seq<Point>, zs: seq<real>): (r: Result<seq<real>>)
    requires |ps| >= 2
    ensures r.Ok? <==> forall i :: 0 <= i < |zs| ==> Extrapolate(ps, zs[i]).Ok?
    ensures r.Ok? ==> |r.value| == |zs| && forall i :: 0 <= i < |zs| ==> Extrapolate(ps, zs[i]) == Ok(r.value[i])
  {
    if zs == [] then Ok([])
    else
      var rest := EvaluateAll(ps, zs[1..]);
      assert forall i :: 0 <= i < |zs| - 1 ==> zs[1..][i] == zs[i + 1];
      match Extrapolate(ps, zs[0])
      case Err(e) => Err(e)
      case Ok(v) =>
        match rest
        case Err(e) => Err(e)
        case Ok(vs) => Ok([v] + vs)
  }

  /** interpolate_sensitivity on an array of altitudes. */
  function InterpolateSensitivity(table: seq<ScriptRow>, species: string, zs: seq<real>, region: ColumnName): (r: Result<seq<real>>)
    ensures SensitivityCurve(table, species, region).Err? ==> r == Err(SensitivityCurve(table, species, region).error)
    ensures r.Ok? <==>
      && SensitivityCurve(table, species, region).Ok?
      && forall i :: 0 <= i < |zs| ==> Extrapolate(SensitivityCurve(table, species, region).value, zs[i]).Ok?
    ensures r.Ok? ==>
      && |r.value| == |zs|
      && forall i :: 0 <= i < |zs| ==> Extrapolate(SensitivityCurve(table, species, region).value, zs[i]) == Ok(r.value[i])
  {
    var curve :- SensitivityCurve(table, species, region);
    EvaluateAll(curve, zs)
  }

  /** A curve that can be built holds exactly the measured points. */
  lemma CurveHoldsRows(table: seq<ScriptRow>, species: string, region: ColumnName)
    requires SensitivityCurve(table, species, region).Ok?
    ensures Points(Measured(table, species), region).Some?
    ensures multiset(SensitivityCurve(table, species, region).value)
         == multiset(Points(Measured(table, species), region).value)
  {
  }

  /** A single altitude evaluates to its one extrapolated value. */
  lemma EvaluateOne(ps: seq<Point>, z: real)
    requires |ps| >= 2 && Extrapolate(ps, z).Ok?
    ensures EvaluateAll(ps, [z]) == Ok([Extrapolate(ps, z).value])
  {
    assert [z][0] == z && [z][1..] == [];
    assert EvaluateAll(ps, [z][1..]) == Ok([]);
    assert [Extrapolate(ps, z).value] + [] == [Extrapolate(ps, z).value];
  }

  /** With distinct altitudes the curve passes through every measured row. */
  lemma CurveThroughRows(table: seq<ScriptRow>, species: string, region: ColumnName, k: nat)
    requires IsCorridor(region)
    requires |Measured(table, species)| >= 2 && k < |Measured(table, species)|
    requires DistinctX(Points(Measured(table, species), region).value)
    ensures InterpolateSensitivity(table, species, [Measured(table, species)[k].altitudeKm], region)
         == Ok([Column(Measured(table, species)[k].cells, region).value])
  {
    var ps := Points(Measured(table, species), region).value;
    SortedThroughPoints(ps, k);
    EvaluateOne(SortByX(ps), ps[k].x);
  }

  /** Beyond the last altitude the script extends the last segment's line,
      where np.interp would hold the last value. */
  lemma ExtendsLastSegment(table: seq<ScriptRow>, species: string, region: ColumnName, z: real)
    requires SensitivityCurve(table, species, region).Ok?
    requires StrictlyIncreasing(SensitivityCurve(table, species, region).value)
    requires var c := SensitivityCurve(table, species, region).value; z >= c[|c| - 1].x
    ensures var c := SensitivityCurve(table, species, region).value;
      InterpolateSensitivity(table, species, [z], region) == Ok([Lerp(c[|c| - 2], c[|c| - 1], z)])
  {
    var c := SensitivityCurve(table, species, region).value;
    ExtrapolateAbove(c, z);
    EvaluateOne(c, z);
  }

  // ---------------------------------------------------------------------------
  // Case dispatch

  /** `str.lower` on ASCII letters. */
  function Lower(s: string): (r: string)
    ensures |r| == |s|
    ensures forall i :: 0 <= i < |s| ==>
      r[i] == (if 'A' <= s[i] <= 'Z' then (s[i] as int + 32) as char else s[i])
  {
    seq(|s|, i requires 0 <= i < |s| => if 'A' <= s[i] <= 'Z' then (s[i] as int + 32) as char else s[i])
  }

  /** Lowering twice is lowering once, so the dispatch is case-insensitive. */
  lemma LowerIdempotent(s: string)
    ensures Lower(Lower(s)) == Lower(s)
  {
  }

  /** The two cases the script knows, and everything else. */
  datatype CaseKind = Combined | Individual | OtherCase

  /** The case a `case` argument selects, compared after lowering. */
  function ParseCase(caseName: string): (k: CaseKind)
    ensures k == Combined <==> Lower(caseName) == "combined"
    ensures k == Individual <==> Lower(caseName) == "individual"
  {
    var lowered := Lower(caseName);
    if lowered == "combined" then Combined
    else if lowered == "individual" then Individual
    else OtherCase
  }

  /** Element-wise product of two arrays of one shape. */
  function Times(a: seq<real>, b: seq<real>): (r: seq<real>)
    requires |a| == |b|
    ensures |r| == |a|
  {
    seq(|a|, i requires 0 <= i < |a| => Effect(b[i], a[i]))
  }

  /** Element-wise sum of two arrays of one shape. */
  function Plus(a: seq<real>, b: seq<real>): (r: seq<real>)
    requires |a| == |b|
    ensures |r| == |a|
  {
    seq(|a|, i requires 0 <= i < |a| => a[i] + b[i])
  }

  /** np.zeros_like. */
  function Zeros(n: nat): (r: seq<real>)
    ensures |r| == n
  {
    seq(n, _ => 0.0)
  }

  /** The species of the combined case and of the individual case. */
  const CombinedSpecies: string := "Generalized Fuel"
  const IndividualSpecies: seq<string> := ["NOx", "SOx", "H2O"]

  /** A species' sensitivity over the whole array of altitudes. */
  type ArrayLookup = string -> Result<seq<real>>

  /** A species' sensitivity at one altitude. */
  type PointLookup = string -> Result<real>

  /** Every array a lookup yields has n elements. */
  ghost predicate Shaped(sens: ArrayLookup, n: nat) {
    forall s :: sens(s).Ok? ==> |sens(s).value| == n
  }

  /** The running `ozone_change += sensitivity * emission_magnitude` over the
      species, the first failing species aborting the call. */
  function IndividualSum(sens: ArrayLookup, mags: seq<real>, species: seq<string>): (r: Result<seq<real>>)
    requires Shaped(sens, |mags|)
    ensures r.Ok? ==> |r.value| == |mags|
    decreases |species|
  {
    if species == [] then Ok(Zeros(|mags|))
    else
      var sum :- IndividualSum(sens, mags, species[..|species| - 1]);
      var s :- sens(species[|species| - 1]);
      Ok(Plus(sum, Times(s, mags)))
  }

  /** The sensitivities of several species at one altitude, added up; the sum
      exists exactly when every species has a sensitivity there. */
  function SensitivitySum(at: PointLookup, species: seq<string>): (r: Result<real>)
    ensures r.Ok? <==> forall i :: 0 <= i < |species| ==> at(species[i]).Ok?
    decreases |species|
  {
    if species == [] then Ok(0.0)
    else
      var prefix := species[..|species| - 1];
      assert forall i :: 0 <= i < |prefix| ==> prefix[i] == species[i];
      var sum :- SensitivitySum(at, prefix);
      var v :- at(species[|species| - 1]);
      Ok(sum + v)
  }

  /** Once a prefix of the species has failed, the whole sum fails with it. */
  lemma {:induction false} IndividualPrefixError(sens: ArrayLookup, mags: seq<real>, species: seq<string>, i: nat)
    requires Shaped(sens, |mags|) && i <= |species|
    requires IndividualSum(sens, mags, species[..i]).Err?
    ensures IndividualSum(sens, mags, species) == IndividualSum(sens, mags, species[..i])
    decreases |species|
  {
    if i < |species| {
      var prefix := species[..|species| - 1];
      assert prefix[..i] == species[..i];
      IndividualPrefixError(sens, mags, prefix, i);
    } else {
      assert species[..i] == species;
    }
  }

  /** The next species' array, added to the running sum of those before it. */
  lemma IndividualSumStep(sens: ArrayLookup, mags: seq<real>, species: seq<string>, i: nat, sum: seq<real>)
    requires Shaped(sens, |mags|) && i < |species|
    requires IndividualSum(sens, mags, species[..i]) == Ok(sum)
    ensures sens(species[i]).Err? ==> IndividualSum(sens, mags, species[..i + 1]) == Err(sens(species[i]).error)
    ensures sens(species[i]).Ok? ==>
      IndividualSum(sens, mags, species[..i + 1]) == Ok(Plus(sum, Times(sens(species[i]).value, mags)))
  {
    assert species[..i + 1][..i] == species[..i];
  }

  /** Element i of the individual sum is the magnitude at i times the summed
      sensitivities at element i, whenever the point lookup agrees with
      element i of the array lookup. */
  lemma {:induction false} IndividualPointwise(sens: ArrayLookup, at: PointLookup, mags: seq<real>, species: seq<string>, i: nat)
    requires Shaped(sens, |mags|) && i < |mags|
    requires forall s :: sens(s).Ok? ==> at(s) == Ok(sens(s).value[i])
    requires IndividualSum(sens, mags, species).Ok?
    ensures SensitivitySum(at, species).Ok?
    ensures IndividualSum(sens, mags, species).value[i] == Effect(mags[i], SensitivitySum(at, species).value)
    decreases |species|
  {
    if species != [] {
      var prefix := species[..|species| - 1];
      IndividualPointwise(sens, at, mags, prefix, i);
      var before := SensitivitySum(at, prefix).value;
      var v := sens(species[|species| - 1]).value[i];
      assert IndividualSum(sens, mags, species).value[i] == IndividualSum(sens, mags, prefix).value[i] + Effect(mags[i], v);
      assert Effect(mags[i], before) + Effect(mags[i], v) == Effect(mags[i], before + v);
    }
  }

  /** A species whose lookup fails makes the individual sum fail. */
  lemma {:induction false} IndividualSumFails(sens: ArrayLookup, mags: seq<real>, species: seq<string>, k: nat)
    requires Shaped(sens, |mags|) && k < |species|
    requires sens(species[k]).Err?
    ensures IndividualSum(sens, mags, species).Err?
    decreases |species|
  {
    if k < |species| - 1 {
      var prefix := species[..|species| - 1];
      assert prefix[k] == species[k];
      IndividualSumFails(sens, mags, prefix, k);
    }
  }

  /** The script's interpolate_sensitivity as an array lookup. */
  function ArrayAt(table: seq<ScriptRow>, zs: seq<real>, region: ColumnName): (sens: ArrayLookup)
    ensures Shaped(sens, |zs|)
  {
    s => InterpolateSensitivity(table, s, zs, region)
  }

  /** The script's sensitivity of a species at one altitude. */
  function SpeciesAt(table: seq<ScriptRow>, region: ColumnName, z: real): PointLookup {
    s => (var curve :- SensitivityCurve(table, s, region); Extrapolate(curve, z))
  }

  /** Element i of the array sensitivity is the sensitivity at altitude i. */
  lemma ArrayAtElement(table: seq<ScriptRow>, zs: seq<real>, region: ColumnName, i: nat)
    requires i < |zs|
    ensures forall s :: ArrayAt(table, zs, region)(s).Ok? ==>
      SpeciesAt(table, region, zs[i])(s) == Ok(ArrayAt(table, zs, region)(s).value[i])
  {
  }

  /** The combined case: the "Generalized Fuel" sensitivity times the
      magnitude, element by element. */
  function CombinedChange(table: seq<ScriptRow>, zs: seq<real>, mags: seq<real>, region: ColumnName): (r: Result<seq<real>>)
    requires |zs| == |mags|
    ensures SensitivityCurve(table, CombinedSpecies, region).Err? ==> r == Err(SensitivityCurve(table, CombinedSpecies, region).error)
    ensures r.Ok? <==>
      && SensitivityCurve(table, CombinedSpecies, region).Ok?
      && forall i :: 0 <= i < |zs| ==> Extrapolate(SensitivityCurve(table, CombinedSpecies, region).value, zs[i]).Ok?
    ensures r.Ok? ==>
      && |r.value| == |zs|
      && SensitivityCurve(table, CombinedSpecies, region).Ok?
      && forall i :: 0 <= i < |zs| ==>
           Extrapolate(SensitivityCurve(table, CombinedSpecies, region).value, zs[i]).Ok?
           && r.value[i] == Effect(mags[i], Extrapolate(SensitivityCurve(table, CombinedSpecies, region).value, zs[i]).value)
  {
    var s :- InterpolateSensitivity(table, CombinedSpecies, zs, region);
    assert |s| == |mags|;
    Ok(Times(s, mags))
  }

  /** calculate_ozone_change: ValueError for arrays of different shapes, the
      combined case on "Generalized Fuel", the individual case summed over
      NOx, SOx and H2O with the same magnitudes, ValueError for any other case. */
  function OzoneChangeSpec(table: seq<ScriptRow>, zs: seq<real>, mags: seq<real>, caseName: string, region: string): (r: Result<seq<real>>)
    ensures |zs| != |mags| ==> r == Err(ShapeMismatch)
    ensures (|zs| == |mags| && ParseCase(caseName) == OtherCase) ==> r == Err(InvalidCase(caseName))
    ensures r.Ok? ==> |r.value| == |zs| == |mags|
    ensures (r.Ok? && ParseCase(caseName) == Combined) ==>
      && SensitivityCurve(table, CombinedSpecies, ColumnNamed(region)).Ok?
      && forall i :: 0 <= i < |zs| ==>
           Extrapolate(SensitivityCurve(table, CombinedSpecies, ColumnNamed(region)).value, zs[i]).Ok?
           && r.value[i] == Effect(mags[i], Extrapolate(SensitivityCurve(table, CombinedSpecies, ColumnNamed(region)).value, zs[i]).value)
    ensures (|zs| == |mags| && ParseCase(caseName) == Combined) ==>
      (r.Ok? <==>
        && SensitivityCurve(table, CombinedSpecies, ColumnNamed(region)).Ok?
        && forall i :: 0 <= i < |zs| ==> Extrapolate(SensitivityCurve(table, CombinedSpecies, ColumnNamed(region)).value, zs[i]).Ok?)
    ensures (|zs| == |mags| && ParseCase(caseName) == Individual) ==>
      r == IndividualSum(ArrayAt(table, zs, ColumnNamed(region)), mags, IndividualSpecies)
  {
    if |zs| != |mags| then Err(ShapeMismatch)
    else match ParseCase(caseName)
      case Combined => CombinedChange(table, zs, mags, ColumnNamed(region))
      case Individual => IndividualSum(ArrayAt(table, zs, ColumnNamed(region)), mags, IndividualSpecies)
      case OtherCase => Err(InvalidCase(caseName))
  }

  /** The individual case, element by element. */
  lemma IndividualCase(table: seq<ScriptRow>, zs: seq<real>, mags: seq<real>, caseName: string, region: string, i: nat)
    requires ParseCase(caseName) == Individual && i < |zs|
    requires OzoneChangeSpec(table, zs, mags, caseName, region).Ok?
    ensures SensitivitySum(SpeciesAt(table, ColumnNamed(region), zs[i]), IndividualSpecies).Ok?
    ensures OzoneChangeSpec(table, zs, mags, caseName, region).value[i]
         == Effect(mags[i], SensitivitySum(SpeciesAt(table, ColumnNamed(region), zs[i]), IndividualSpecies).value)
  {
    var sens := ArrayAt(table, zs, ColumnNamed(region));
    var at := SpeciesAt(table, ColumnNamed(region), zs[i]);
    assert |zs| == |mags|;
    assert OzoneChangeSpec(table, zs, mags, caseName, region) == IndividualSum(sens, mags, IndividualSpecies);
    ArrayAtElement(table, zs, ColumnNamed(region), i);
    IndividualPointwise(sens, at, mags, IndividualSpecies, i);
  }

  /** The individual case's loop: `ozone_change += sensitivity * emission_magnitude`
      for NOx, SOx and H2O in turn. */
  method IndividualChange(table: seq<ScriptRow>, zs: seq<real>, mags: seq<real>, region: ColumnName)
    returns (r: Result<seq<real>>)
    requires |zs| == |mags|
    ensures r == IndividualSum(ArrayAt(table, zs, region), mags, IndividualSpecies)
  {
    var change := Zeros(|zs|);
    var species := IndividualSpecies;
    ghost var sens := ArrayAt(table, zs, region);
    for i := 0 to |species|
      invariant |change| == |zs|
      invariant IndividualSum(sens, mags, species[..i]) == Ok(change)
    {
      var sensitivity := InterpolateSensitivity(table, species[i], zs, region);
      assert sens(species[i]) == sensitivity;
      IndividualSumStep(sens, mags, species, i, change);
      if sensitivity.Err? {
        IndividualPrefixError(sens, mags, species, i + 1);
        return Err(sensitivity.error);
      }
      change := Plus(change, Times(sensitivity.value, mags));
    }
    assert species[..|species|] == species;
    return Ok(change);
  }

  /** calculate_ozone_change. */
  method CalculateOzoneChange(table: seq<ScriptRow>, zs: seq<real>, mags: seq<real>, caseName: string, region: string)
    returns (r: Result<seq<real>>)
    ensures r == OzoneChangeSpec(table, zs, mags, caseName, region)
  {
    if |zs| != |mags| {
      return Err(ShapeMismatch);
    }
    var col := ColumnNamed(region);
    var kind := ParseCase(caseName);
    if kind == Combined {
      r := CombinedChange(table, zs, mags, col);
    } else if kind == Individual {
      r := IndividualChange(table, zs, mags, col);
    } else {
      r := Err(InvalidCase(caseName));
    }
  }
}
