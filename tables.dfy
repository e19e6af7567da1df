/** The data model shared by every evaluator: the two modes, the error causes,
    the rows of the sensitivity and Taylor-parameter tables, their columns,
    and the emission mapping a caller passes in. */
module TableModel {

  datatype Option<+T> = None | Some(value: T)

  /** One constructor per exception the evaluators raise. */
  datatype Error =
    | UnknownMode(mode: string)              // ValueError: mode is neither Ozone nor Radiative_Forcing
    | UnknownColumn(column: string)          // KeyError: the table has no such column
    | InvalidRegion(region: string)          // ValueError: region is not one of the two corridors
    | MissingCoefficient(pattern: string)    // IndexError: no Parameter contains the pattern
    | CoefficientNotUnique(pattern: string)  // TypeError: float() of a selection that is not one row
    | UnknownEmission(species: string)       // ValueError: species absent from the table
    | NotEnoughData(species: string)         // ValueError: fewer than two rows to interpolate
    | NoClosedForm(species: string)          // KeyError: species without a hard-coded sensitivity
    | MissingRow(rowLabel: nat)              // KeyError: .loc[label] on a table that is too short
    | EmptyTable                             // ValueError: min() or max() of no altitudes
    | AltitudeOutOfRange(altitudeKm: real)   // ValueError: altitude outside the table
    | RangeWarning(altitudeKm: real)         // Warning raised as an exception
    | TooFewPoints(count: nat)               // ValueError from interp1d: fewer than two points
    | NotFinite                              // a zero-width segment, where interp1d yields NaN or inf
    | ShapeMismatch                          // ValueError: altitude and magnitude shapes differ
    | InvalidCase(caseName: string)          // ValueError: case is neither combined nor individual
    | UnpackMismatch(expected: nat, got: nat) // ValueError: unpacking a tuple into the wrong number of names

  /** A value, or the error that aborted the computation; usable with `:-`. */
  datatype Result<+T> = Ok(value: T) | Err(error: Error) {
    predicate IsFailure() { Err? }
    function PropagateFailure<U>(): Result<U> requires Err? { Err(error) }
    function Extract(): T requires Ok? { value }
  }

  /** Ozone column change (DU) or radiative forcing change (mW/m2). */
  datatype Mode = Ozone | RadiativeForcing

  function ModeName(m: Mode): string {
    match m
    case Ozone => "Ozone"
    case RadiativeForcing => "Radiative_Forcing"
  }

  /** The `mode not in ["Ozone", "Radiative_Forcing"]` check: the inverse of ModeName. */
  function ParseMode(s: string): (r: Result<Mode>)
    ensures r.Ok? <==> s == "Ozone" || s == "Radiative_Forcing"
    ensures r.Ok? ==> ModeName(r.value) == s
    ensures r.Err? ==> r.error == UnknownMode(s)
  {
    if s == "Ozone" then Ok(Ozone)
    else if s == "Radiative_Forcing" then Ok(RadiativeForcing)
    else Err(UnknownMode(s))
  }

  /** The effect of an emission change of the given magnitude on a species
      with the given sensitivity. */
  function Effect(magnitude: real, sensitivity: real): real {
    magnitude * sensitivity
  }

  /** Emission-term contribution of one species: mDU are converted to DU in Ozone mode. */
  function Contribution(m: Mode, magnitude: real, sensitivity: real): real {
    if m == Ozone then Effect(magnitude, sensitivity) / 1000.0 else Effect(magnitude, sensitivity)
  }

  // ---------------------------------------------------------------------------
  // Columns

  /** A column a region argument can name: the two corridors, the four
      columns prepare_data adds, or any other text (no such column). */
  datatype ColumnName =
    | TransatlanticCorridor | SouthArabianSea
    | Mean | Range | MaxVal | MinVal
    | NoSuchColumn(text: string)

  /** The column header as written in the tables. */
  function ColumnText(c: ColumnName): string {
    match c
    case TransatlanticCorridor => "Transatlantic_Corridor"
    case SouthArabianSea => "South_Arabian_Sea"
    case Mean => "Mean"
    case Range => "Range"
    case MaxVal => "Max_val"
    case MinVal => "Min_val"
    case NoSuchColumn(t) => t
  }

  predicate KnownHeader(s: string) {
    s == "Transatlantic_Corridor" || s == "South_Arabian_Sea"
    || s == "Mean" || s == "Range" || s == "Max_val" || s == "Min_val"
  }

  /** The column a region string names; the inverse of ColumnText. */
  function ColumnNamed(s: string): (c: ColumnName)
    ensures ColumnText(c) == s
    ensures c.NoSuchColumn? <==> !KnownHeader(s)
  {
    if s == "Transatlantic_Corridor" then TransatlanticCorridor
    else if s == "South_Arabian_Sea" then SouthArabianSea
    else if s == "Mean" then Mean
    else if s == "Range" then Range
    else if s == "Max_val" then MaxVal
    else if s == "Min_val" then MinVal
    else NoSuchColumn(s)
  }

  lemma ColumnNamedText(c: ColumnName)
    requires c.NoSuchColumn? ==> !KnownHeader(c.text)
    ensures ColumnNamed(ColumnText(c)) == c
  {
  }

  predicate IsCorridor(name: ColumnName) {
    name.TransatlanticCorridor? || name.SouthArabianSea?
  }

  predicate IsDerivedColumn(name: ColumnName) {
    name.Mean? || name.Range? || name.MaxVal? || name.MinVal?
  }

  /** The numeric columns a table can have. */
  predicate IsColumnName(name: ColumnName) {
    !name.NoSuchColumn?
  }

  /** The four columns that prepare_data adds. */
  datatype Derived = Derived(mean: real, range: real, maxVal: real, minVal: real)

  /** The numeric part of a row: the two corridor values, and the derived
      columns once the table has been prepared. */
  datatype Cells = Cells(transatlantic: real, southArabian: real, derived: Option<Derived>)

  /** `row[name]`: None where pandas raises KeyError. */
  function Column(c: Cells, name: ColumnName): (v: Option<real>)
    ensures v.Some? <==> IsCorridor(name) || (IsDerivedColumn(name) && c.derived.Some?)
  {
    match name
    case TransatlanticCorridor => Some(c.transatlantic)
    case SouthArabianSea => Some(c.southArabian)
    case NoSuchColumn(_) => None
    case _ =>
      match c.derived
      case None => None
      case Some(d) =>
        Some(match name
             case Mean => d.mean
             case Range => d.range
             case MaxVal => d.maxVal
             case _ => d.minVal)
  }

  // ---------------------------------------------------------------------------
  // Rows and tables

  /** One row of a sensitivity table: species, altitude (km) and values per corridor. */
  datatype SensitivityRow = SensitivityRow(emission: string, altitudeKm: real, cells: Cells)

  /** One row of a Taylor-parameter table, keyed by its Parameter text. */
  datatype TaylorRow = TaylorRow(parameter: string, cells: Cells)

  /** `region in taylor_df.columns`: pandas decides whether a column exists for
      the whole frame, whatever rows a mask selects. A table is built with the
      same columns in every row, so the column exists when every row has it.
      The two corridor columns exist in every table. */
  predicate TaylorHasColumn(rows: seq<TaylorRow>, name: ColumnName): (b: bool)
    ensures IsCorridor(name) ==> b
  {
    IsColumnName(name) && forall i :: 0 <= i < |rows| ==> Column(rows[i].cells, name).Some?
  }

  /** One entry of the emissions dictionary, in insertion order. */
  datatype EmissionEntry = EmissionEntry(species: string, magnitude: real)

  type Emissions = seq<EmissionEntry>

  /** `df[df["Emission"] == species]`, in table order. */
  function RowsOf(rows: seq<SensitivityRow>, species: string): (r: seq<SensitivityRow>)
    ensures |r| <= |rows|
    ensures forall row :: row in r <==> row in rows && row.emission == species
  {
    if rows == [] then []
    else if rows[0].emission == species then [rows[0]] + RowsOf(rows[1..], species)
    else RowsOf(rows[1..], species)
  }

  /** `species in df["Emission"].unique()` */
  predicate HasSpecies(rows: seq<SensitivityRow>, species: string) {
    exists i :: 0 <= i < |rows| && rows[i].emission == species
  }

  lemma RowsOfEmpty(rows: seq<SensitivityRow>, species: string)
    ensures RowsOf(rows, species) == [] <==> !HasSpecies(rows, species)
  {
    if HasSpecies(rows, species) {
      var i :| 0 <= i < |rows| && rows[i].emission == species;
      assert rows[i] in RowsOf(rows, species);
    }
  }

  /** The smallest Altitude_km of a non-empty table. */
  function MinAltitude(rows: seq<SensitivityRow>): (m: real)
    requires |rows| > 0
    ensures forall i :: 0 <= i < |rows| ==> m <= rows[i].altitudeKm
  {
    if |rows| == 1 then rows[0].altitudeKm
    else
      var rest := MinAltitude(rows[1..]);
      assert forall i :: 1 <= i < |rows| ==> rows[i] == rows[1..][i - 1];
      if rows[0].altitudeKm <= rest then rows[0].altitudeKm else rest
  }

  /** The largest Altitude_km of a non-empty table. */
  function MaxAltitude(rows: seq<SensitivityRow>): (m: real)
    requires |rows| > 0
    ensures forall i :: 0 <= i < |rows| ==> rows[i].altitudeKm <= m
  {
    if |rows| == 1 then rows[0].altitudeKm
    else
      var rest := MaxAltitude(rows[1..]);
      assert forall i :: 1 <= i < |rows| ==> rows[i] == rows[1..][i - 1];
      if rows[0].altitudeKm >= rest then rows[0].altitudeKm else rest
  }

  /** `z_min, z_max` of the Altitude_km column. */
  datatype Bounds = Bounds(lo: real, hi: real)

  /** The supported altitude range of a table; `min()` of an empty column raises. */
  function AltitudeBounds(rows: seq<SensitivityRow>): (r: Result<Bounds>)
    ensures r.Err? <==> rows == []
    ensures r.Err? ==> r.error == EmptyTable
    ensures r.Ok? ==> forall i :: 0 <= i < |rows| ==> r.value.lo <= rows[i].altitudeKm <= r.value.hi
  {
    if rows == [] then Err(EmptyTable) else Ok(Bounds(MinAltitude(rows), MaxAltitude(rows)))
  }

  /** The bounds are altitudes of the table, so they are tight. */
  lemma {:induction false} BoundsAttained(rows: seq<SensitivityRow>)
    requires rows != []
    ensures exists i :: 0 <= i < |rows| && rows[i].altitudeKm == MinAltitude(rows)
    ensures exists i :: 0 <= i < |rows| && rows[i].altitudeKm == MaxAltitude(rows)
  {
    if |rows| > 1 {
      BoundsAttained(rows[1..]);
      var i :| 0 <= i < |rows| - 1 && rows[1..][i].altitudeKm == MinAltitude(rows[1..]);
      var k :| 0 <= k < |rows| - 1 && rows[1..][k].altitudeKm == MaxAltitude(rows[1..]);
      assert rows[i + 1].altitudeKm == MinAltitude(rows[1..]);
      assert rows[k + 1].altitudeKm == MaxAltitude(rows[1..]);
    } else {
      assert rows[0].altitudeKm == MinAltitude(rows);
    }
  }

  /** The `z_min <= z <= z_max` test. */
  predicate InBounds(b: Bounds, z: real) {
    b.lo <= z <= b.hi
  }

  /** The altitude lies between the lowest and the highest Altitude_km. */
  predicate WithinTable(rows: seq<SensitivityRow>, z: real) {
    && (exists i :: 0 <= i < |rows| && rows[i].altitudeKm <= z)
    && (exists i :: 0 <= i < |rows| && z <= rows[i].altitudeKm)
  }

  /** The range test on the bounds holds exactly when some row lies at or
      below the altitude and some row at or above it. */
  lemma BoundsWithin(rows: seq<SensitivityRow>, z: real)
    requires rows != []
    ensures InBounds(AltitudeBounds(rows).value, z) <==> WithinTable(rows, z)
  {
    BoundsAttained(rows);
  }
}
