/** The altitude response evaluator: the lookup of the first- and second-order
    Taylor coefficients by their Parameter text, and the second-order Taylor
    polynomial fitted around 18.3 km with its reference-altitude bias correction. */
module Taylor {
  import opened TableModel

  /** The altitude around which the Taylor expansion was fitted. */
  const BaselineKm: real := 18.3

  predicate IsPrefix(p: string, s: string) {
    |p| <= |s| && s[..|p|] == p
  }

  /** pandas `str.contains(pattern)`. The patterns used hold no regular-expression
      metacharacters, so this is a plain substring test. */
  predicate Contains(s: string, sub: string)
    decreases |s|
  {
    IsPrefix(sub, s) || (|s| > 0 && Contains(s[1..], sub))
  }

  /** A Parameter text holding the pattern anywhere matches it. */
  lemma {:induction false} ContainsInfix(before: string, sub: string, after: string)
    ensures Contains(before + sub + after, sub)
  {
    var s := before + sub + after;
    if before == [] {
      assert s[..|sub|] == sub;
    } else {
      assert s[1..] == before[1..] + sub + after;
      ContainsInfix(before[1..], sub, after);
    }
  }

  /** The index of the first row whose Parameter contains the pattern
      (the row `.iloc[0]` picks from the selection). */
  function FirstMatch(rows: seq<TaylorRow>, pattern: string): (r: Option<nat>)
    ensures r.Some? ==> r.value < |rows| && Contains(rows[r.value].parameter, pattern)
    ensures r.Some? ==> forall j :: 0 <= j < r.value ==> !Contains(rows[j].parameter, pattern)
    ensures r.None? <==> forall j :: 0 <= j < |rows| ==> !Contains(rows[j].parameter, pattern)
  {
    if rows == [] then None
    else if Contains(rows[0].parameter, pattern) then Some(0)
    else match FirstMatch(rows[1..], pattern)
      case None => None
      case Some(i) => Some(i + 1)
  }

  /** The first match depends on the Parameter texts alone, so tables that
      differ only in their numeric cells select the same row. */
  lemma {:induction false} FirstMatchSameParameters(a: seq<TaylorRow>, b: seq<TaylorRow>, pattern: string)
    requires |a| == |b| && forall i :: 0 <= i < |a| ==> a[i].parameter == b[i].parameter
    ensures FirstMatch(a, pattern) == FirstMatch(b, pattern)
  {
    if a != [] {
      assert forall i :: 0 <= i < |a| - 1 ==> a[1..][i] == a[i + 1] && b[1..][i] == b[i + 1];
      FirstMatchSameParameters(a[1..], b[1..], pattern);
    }
  }

  /** The number of rows whose Parameter contains the pattern. */
  function MatchCount(rows: seq<TaylorRow>, pattern: string): (n: nat)
    ensures n <= |rows|
    ensures n == 0 <==> forall j :: 0 <= j < |rows| ==> !Contains(rows[j].parameter, pattern)
  {
    if rows == [] then 0
    else (if Contains(rows[0].parameter, pattern) then 1 else 0) + MatchCount(rows[1..], pattern)
  }

  /** `taylor_df.loc[mask, region].iloc[0]`: KeyError for a column the table
      lacks, whichever rows match; IndexError when no Parameter matches; else
      the region's value in the first matching row. */
  function FirstCoefficient(rows: seq<TaylorRow>, pattern: string, region: ColumnName): (r: Result<real>)
    ensures !TaylorHasColumn(rows, region) ==> r == Err(UnknownColumn(ColumnText(region)))
    ensures TaylorHasColumn(rows, region) && FirstMatch(rows, pattern).None? ==> r == Err(MissingCoefficient(pattern))
    ensures r.Ok? <==> TaylorHasColumn(rows, region) && FirstMatch(rows, pattern).Some?
    ensures r.Ok? ==> Column(rows[FirstMatch(rows, pattern).value].cells, region) == Some(r.value)
    ensures IsCorridor(region) && FirstMatch(rows, pattern).Some? ==> r.Ok?
  {
    if !TaylorHasColumn(rows, region) then Err(UnknownColumn(ColumnText(region)))
    else match FirstMatch(rows, pattern)
      case None => Err(MissingCoefficient(pattern))
      case Some(i) => Ok(Column(rows[i].cells, region).value)
  }

  /** The Parameter text of the coefficient of the given order for a mode:
      it starts with the order and ends with the mode's name, which reads back
      as that mode. */
  function Pattern(order: string, m: Mode): (p: string)
    ensures |p| > |order| + |ModeName(m)|
    ensures p[..|order|] == order
    ensures p[|p| - |ModeName(m)|..] == ModeName(m) && ParseMode(p[|p| - |ModeName(m)|..]) == Ok(m)
  {
    var p := order + " order Altitude " + ModeName(m);
    assert p[..|order|] == order;
    assert p[|p| - |ModeName(m)|..] == ModeName(m);
    p
  }

  datatype Coefficients = Coefficients(first: real, second: real)

  /** The first- and second-order coefficients of a mode in one region: the
      KeyError of an unknown column, then the IndexError of the first order's
      missing row, then the second's; otherwise the region values of the first
      rows matching each pattern. */
  function ModeCoefficients(rows: seq<TaylorRow>, region: ColumnName, m: Mode): (r: Result<Coefficients>)
    ensures r.Ok? <==>
      TaylorHasColumn(rows, region) && FirstMatch(rows, Pattern("1st", m)).Some? && FirstMatch(rows, Pattern("2nd", m)).Some?
    ensures !TaylorHasColumn(rows, region) ==> r == Err(UnknownColumn(ColumnText(region)))
    ensures TaylorHasColumn(rows, region) && FirstMatch(rows, Pattern("1st", m)).None?
            ==> r == Err(MissingCoefficient(Pattern("1st", m)))
    ensures TaylorHasColumn(rows, region) && FirstMatch(rows, Pattern("1st", m)).Some? && FirstMatch(rows, Pattern("2nd", m)).None?
            ==> r == Err(MissingCoefficient(Pattern("2nd", m)))
    ensures r.Ok? ==>
      && Column(rows[FirstMatch(rows, Pattern("1st", m)).value].cells, region) == Some(r.value.first)
      && Column(rows[FirstMatch(rows, Pattern("2nd", m)).value].cells, region) == Some(r.value.second)
  {
    var a :- FirstCoefficient(rows, Pattern("1st", m), region);
    var b :- FirstCoefficient(rows, Pattern("2nd", m), region);
    Ok(Coefficients(a, b))
  }

  /** The fitted Taylor polynomial at an offset x from its baseline. */
  function Raw(c: Coefficients, x: real): real {
    x * c.first + (x * x / 2.0) * c.second
  }

  /** The altitude term with the bias correction: the polynomial taken at
      the altitude's offset from 18.3 km, minus its value at the reference's
      offset, so that the reference altitude itself gives zero. */
  function BiasCorrected(c: Coefficients, z: real, ref: real): (t: real)
    ensures z == ref ==> t == 0.0
    ensures ref == BaselineKm ==> t == Raw(c, z - BaselineKm)
    ensures t == Raw(c, z - BaselineKm) - Raw(c, ref - BaselineKm)
  {
    var altitudeChange := z - ref;
    var relative183 := ref - BaselineKm;
    var delta183 := altitudeChange + relative183;
    Raw(c, delta183) - Raw(c, relative183)
  }

  /** A change of reference altitude only shifts the curve by a constant:
      the term is the difference of the two baseline-referenced terms. */
  lemma Rebase(c: Coefficients, z: real, ref: real)
    ensures BiasCorrected(c, z, ref) == BiasCorrected(c, z, BaselineKm) - BiasCorrected(c, ref, BaselineKm)
  {
  }

  /** The corrected term factors through the altitude change, which is why it
      vanishes at the reference altitude for any coefficients. */
  lemma Factored(c: Coefficients, z: real, ref: real)
    ensures BiasCorrected(c, z, ref) == (z - ref) * (c.first + c.second * ((z + ref) / 2.0 - BaselineKm))
  {
    var d1 := z - BaselineKm;
    var d0 := ref - BaselineKm;
    calc {
      BiasCorrected(c, z, ref);
      Raw(c, d1) - Raw(c, d0);
      (d1 - d0) * c.first + ((d1 * d1 - d0 * d0) / 2.0) * c.second;
      { assert d1 * d1 - d0 * d0 == (d1 - d0) * (d1 + d0); }
      (d1 - d0) * c.first + ((d1 - d0) * (d1 + d0) / 2.0) * c.second;
      (z - ref) * (c.first + c.second * ((z + ref) / 2.0 - BaselineKm));
    }
  }

  function Average(a: real, b: real): real {
    (a + b) / 2.0
  }

  /** The coefficients halfway between two sets, as the Mean column holds them. */
  function Midpoint(c1: Coefficients, c2: Coefficients): Coefficients {
    Coefficients((c1.first + c2.first) / 2.0, (c1.second + c2.second) / 2.0)
  }

  /** The corrected term is linear in the coefficients: the term of the
      midpoint coefficients is the mean of the two terms. */
  lemma BiasCorrectedMidpoint(c1: Coefficients, c2: Coefficients, z: real, ref: real)
    ensures BiasCorrected(Midpoint(c1, c2), z, ref) == Average(BiasCorrected(c1, z, ref), BiasCorrected(c2, z, ref))
  {
    var k := (z + ref) / 2.0 - BaselineKm;
    var d := z - ref;
    Factored(c1, z, ref);
    Factored(c2, z, ref);
    Factored(Midpoint(c1, c2), z, ref);
    assert d * ((c1.first + c2.first) / 2.0 + (c1.second + c2.second) / 2.0 * k)
        == (d * (c1.first + c1.second * k) + d * (c2.first + c2.second * k)) / 2.0;
  }

  /** calculate_delta_F_altitude on a given Taylor table and a validated mode. */
  function TaylorTerm(rows: seq<TaylorRow>, region: ColumnName, z: real, ref: real, m: Mode): (r: Result<real>)
    ensures r.Ok? <==> ModeCoefficients(rows, region, m).Ok?
    ensures r.Err? ==> r.error == ModeCoefficients(rows, region, m).error
    ensures r.Ok? ==> r.value == BiasCorrected(ModeCoefficients(rows, region, m).value, z, ref)
    ensures r.Ok? && z == ref ==> r.value == 0.0
  {
    var c :- ModeCoefficients(rows, region, m);
    Ok(BiasCorrected(c, z, ref))
  }
}
