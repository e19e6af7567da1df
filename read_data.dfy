/** The coefficient table store of the mode-aware engine: the derived columns
    that prepare_data adds, and the mode / prepare dispatch of load_data.
    The CSV files themselves are parameters (a Store). */
module ReadData {
  import opened TableModel

  function Abs(x: real): real {
    if x < 0.0 then -x else x
  }

  function Min2(a: real, b: real): real {
    if a <= b then a else b
  }

  function Max2(a: real, b: real): real {
    if a <= b then b else a
  }

  /** The four columns prepare_data computes from the two corridor values, in
      the order the source assigns them (Max_val and Min_val read the new
      Mean and Range columns). */
  function Derive(tac: real, sas: real): (d: Derived)
    ensures d.mean - Min2(tac, sas) == Max2(tac, sas) - d.mean
    ensures d.range == Max2(tac, sas) - Min2(tac, sas) && d.range >= 0.0
    ensures d.minVal <= Min2(tac, sas) <= d.mean <= Max2(tac, sas) <= d.maxVal
    ensures d.maxVal - d.minVal == 2.0 * d.range
    ensures d.maxVal - d.mean == d.range == d.mean - d.minVal
  {
    var mean := (tac + sas) / 2.0;
    var range := Abs(sas - tac);
    var maxVal := mean + range;
    var minVal := mean - range;
    Derived(mean, range, maxVal, minVal)
  }

  /** One row's cells after prepare_data. */
  function PrepareCells(c: Cells): (p: Cells)
    ensures p.transatlantic == c.transatlantic && p.southArabian == c.southArabian
    ensures forall name :: IsColumnName(name) ==> Column(p, name).Some?
    ensures Column(p, Mean) == Some(Derive(c.transatlantic, c.southArabian).mean)
    ensures Column(p, Range) == Some(Derive(c.transatlantic, c.southArabian).range)
    ensures Column(p, MaxVal) == Some(Derive(c.transatlantic, c.southArabian).maxVal)
    ensures Column(p, MinVal) == Some(Derive(c.transatlantic, c.southArabian).minVal)
  {
    c.(derived := Some(Derive(c.transatlantic, c.southArabian)))
  }

  /** `prepared` is `raw` with the four derived columns added to every row and
      nothing else changed. */
  predicate SensitivityPrepared(raw: seq<SensitivityRow>, prepared: seq<SensitivityRow>) {
    && |prepared| == |raw|
    && forall i :: 0 <= i < |raw| ==>
         && prepared[i].emission == raw[i].emission
         && prepared[i].altitudeKm == raw[i].altitudeKm
         && prepared[i].cells == PrepareCells(raw[i].cells)
  }

  predicate TaylorPrepared(raw: seq<TaylorRow>, prepared: seq<TaylorRow>) {
    && |prepared| == |raw|
    && forall i :: 0 <= i < |raw| ==>
         && prepared[i].parameter == raw[i].parameter
         && prepared[i].cells == PrepareCells(raw[i].cells)
  }

  /** prepare_data on a sensitivity table. */
  function PrepareSensitivity(rows: seq<SensitivityRow>): (r: seq<SensitivityRow>)
    ensures SensitivityPrepared(rows, r)
    ensures forall i, name :: 0 <= i < |r| && IsColumnName(name) ==> Column(r[i].cells, name).Some?
  {
    seq(|rows|, i requires 0 <= i < |rows| => rows[i].(cells := PrepareCells(rows[i].cells)))
  }

  /** Preparing a table keeps the species it lists. */
  lemma PreparedSpecies(raw: seq<SensitivityRow>, prepared: seq<SensitivityRow>, species: string)
    requires SensitivityPrepared(raw, prepared)
    ensures HasSpecies(prepared, species) <==> HasSpecies(raw, species)
  {
    if HasSpecies(raw, species) {
      var j :| 0 <= j < |raw| && raw[j].emission == species;
      assert prepared[j].emission == species;
    }
    if HasSpecies(prepared, species) {
      var j :| 0 <= j < |prepared| && prepared[j].emission == species;
      assert raw[j].emission == species;
    }
  }

  /** prepare_data on a Taylor-parameter table. */
  function PrepareTaylor(rows: seq<TaylorRow>): (r: seq<TaylorRow>)
    ensures TaylorPrepared(rows, r)
    ensures forall i, name :: 0 <= i < |r| && IsColumnName(name) ==> Column(r[i].cells, name).Some?
  {
    seq(|rows|, i requires 0 <= i < |rows| => rows[i].(cells := PrepareCells(rows[i].cells)))
  }

  /** The four CSV files the store reads, as parsed: one sensitivity and one
      Taylor-parameter table per mode. */
  datatype Store = Store(
    sensitivityOzone: seq<SensitivityRow>,
    taylorOzone: seq<TaylorRow>,
    sensitivityRadiativeForcing: seq<SensitivityRow>,
    taylorRadiativeForcing: seq<TaylorRow>)

  /** The pair `(df, df_t)` load_data returns. */
  datatype LoadedTables = LoadedTables(sensitivity: seq<SensitivityRow>, taylor: seq<TaylorRow>)

  /** The raw tables of one mode. */
  function Files(store: Store, m: Mode): LoadedTables {
    match m
    case Ozone => LoadedTables(store.sensitivityOzone, store.taylorOzone)
    case RadiativeForcing => LoadedTables(store.sensitivityRadiativeForcing, store.taylorRadiativeForcing)
  }

  /** load_data: the tables of the requested mode, prepared or raw. */
  function LoadData(store: Store, prepare: bool, mode: string): (r: Result<LoadedTables>)
    ensures r.Ok? <==> mode == "Ozone" || mode == "Radiative_Forcing"
    ensures r.Err? ==> r.error == UnknownMode(mode)
    ensures r.Ok? && !prepare ==> r.value == Files(store, ParseMode(mode).value)
    ensures r.Ok? && prepare ==>
      && SensitivityPrepared(Files(store, ParseMode(mode).value).sensitivity, r.value.sensitivity)
      && TaylorPrepared(Files(store, ParseMode(mode).value).taylor, r.value.taylor)
  {
    var m :- ParseMode(mode);
    var files := Files(store, m);
    if prepare then Ok(LoadedTables(PrepareSensitivity(files.sensitivity), PrepareTaylor(files.taylor)))
    else Ok(files)
  }
}

/** The store of the older ozone-only package: two files, no mode. */
module OzoneReadData {
  import opened TableModel
  import ReadData

  /** sensitivity_ozone.csv and taylor_param.csv, as parsed. */
  datatype OzoneStore = OzoneStore(sensitivity: seq<SensitivityRow>, taylor: seq<TaylorRow>)

  /** load_data: always the two tables, prepared when asked, raw otherwise. */
  function LoadData(store: OzoneStore, prepare: bool): (r: ReadData.LoadedTables)
    ensures prepare ==> ReadData.SensitivityPrepared(store.sensitivity, r.sensitivity)
    ensures prepare ==> ReadData.TaylorPrepared(store.taylor, r.taylor)
    ensures !prepare ==> r.sensitivity == store.sensitivity && r.taylor == store.taylor
  {
    if prepare then
      ReadData.LoadedTables(ReadData.PrepareSensitivity(store.sensitivity), ReadData.PrepareTaylor(store.taylor))
    else
      ReadData.LoadedTables(store.sensitivity, store.taylor)
  }
}
