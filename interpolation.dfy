/** Piecewise-linear interpolation over (altitude, value) points: the clamped
    form of `np.interp` and the extrapolating form of scipy's `interp1d` with
    `fill_value='extrapolate'`, plus the sort by altitude both rely on. */
module Interpolation {
  import opened TableModel

  /** One breakpoint: an altitude x and the tabulated value y there. */
  datatype Point = Point(x: real, y: real)

  predicate Sorted(ps: seq<Point>) {
    forall i, j :: 0 <= i < j < |ps| ==> ps[i].x <= ps[j].x
  }

  predicate StrictlyIncreasing(ps: seq<Point>) {
    forall i, j :: 0 <= i < j < |ps| ==> ps[i].x < ps[j].x
  }

  /** No two points share an altitude. */
  predicate DistinctX(ps: seq<Point>) {
    forall i, j :: 0 <= i < j < |ps| ==> ps[i].x != ps[j].x
  }

  // ---------------------------------------------------------------------------
  // Sorting by altitude

  function Insert(p: Point, s: seq<Point>): (r: seq<Point>)
    ensures |r| == |s| + 1
    ensures multiset(r) == multiset(s) + multiset{p}
  {
    if s == [] || p.x <= s[0].x then [p] + s
    else
      assert s == [s[0]] + s[1..];
      [s[0]] + Insert(p, s[1..])
  }

  lemma {:induction false} InsertSorted(p: Point, s: seq<Point>)
    requires Sorted(s)
    ensures Sorted(Insert(p, s))
  {
    if s != [] && p.x > s[0].x {
      InsertSorted(p, s[1..]);
      var t := Insert(p, s[1..]);
      forall k | 0 <= k < |t| ensures s[0].x <= t[k].x {
        assert t[k] in multiset(s[1..]) + multiset{p} by { assert t[k] in multiset(t); }
      }
    }
  }

  /** `sort_values("Altitude_km")`: a sorted permutation of the points. */
  function SortByX(s: seq<Point>): (r: seq<Point>)
    ensures |r| == |s|
    ensures multiset(r) == multiset(s)
    ensures Sorted(r)
  {
    if s == [] then []
    else
      assert s == [s[0]] + s[1..];
      var t := SortByX(s[1..]);
      InsertSorted(s[0], t);
      Insert(s[0], t)
  }

  lemma {:induction false} InsertStrict(p: Point, s: seq<Point>)
    requires StrictlyIncreasing(s)
    requires forall q :: q in s ==> q.x != p.x
    ensures StrictlyIncreasing(Insert(p, s))
  {
    if s == [] || p.x <= s[0].x {
    } else {
      InsertStrict(p, s[1..]);
      var t := Insert(p, s[1..]);
      forall k | 0 <= k < |t| ensures s[0].x < t[k].x {
        assert t[k] in multiset(s[1..]) + multiset{p} by { assert t[k] in multiset(t); }
      }
    }
  }

  /** Points with pairwise distinct altitudes sort into a strictly increasing sequence. */
  lemma {:induction false} SortStrict(s: seq<Point>)
    requires DistinctX(s)
    ensures StrictlyIncreasing(SortByX(s))
  {
    if s != [] {
      SortStrict(s[1..]);
      var t := SortByX(s[1..]);
      forall q | q in t ensures q.x != s[0].x {
        assert q in multiset(t);
        assert q in s[1..];
      }
      InsertStrict(s[0], t);
    }
  }

  // ---------------------------------------------------------------------------
  // Clamped interpolation (np.interp)

  /** The straight line through p and q, evaluated at x: `slope * (x - p.x) + p.y`. */
  function Lerp(p: Point, q: Point, x: real): real
    requires p.x != q.x
  {
    p.y + (q.y - p.y) / (q.x - p.x) * (x - p.x)
  }

  /** `np.interp(x, xp, fp)` on points sorted by x: the segment is the last
      breakpoint at or below x; outside the range the edge value is returned.
      The value never leaves the range of the tabulated values. */
  function Interp(ps: seq<Point>, x: real): (r: real)
    requires |ps| >= 1
    ensures exists i :: 0 <= i < |ps| && ps[i].y <= r
    ensures exists j :: 0 <= j < |ps| && r <= ps[j].y
    decreases |ps|
  {
    if x < ps[0].x || |ps| == 1 then ps[0].y
    else if x < ps[1].x then
      LerpWithin(ps[0], ps[1], x);
      Lerp(ps[0], ps[1], x)
    else
      var v := Interp(ps[1..], x);
      assert forall i :: 0 <= i < |ps| - 1 ==> ps[1..][i] == ps[i + 1];
      v
  }

  /** At a breakpoint the interpolant returns that point's value. */
  lemma {:induction false} InterpAtBreakpoint(ps: seq<Point>, k: nat)
    requires StrictlyIncreasing(ps)
    requires k < |ps|
    ensures Interp(ps, ps[k].x) == ps[k].y
  {
    if k > 0 {
      InterpAtBreakpoint(ps[1..], k - 1);
    }
  }

  /** At or below the first breakpoint the value is clamped to the first value. */
  lemma InterpBelow(ps: seq<Point>, x: real)
    requires StrictlyIncreasing(ps) && |ps| >= 1
    requires x <= ps[0].x
    ensures Interp(ps, x) == ps[0].y
  {
    if x == ps[0].x {
      InterpAtBreakpoint(ps, 0);
    }
  }

  /** At or above the last breakpoint the value is clamped to the last value. */
  lemma {:induction false} InterpAbove(ps: seq<Point>, x: real)
    requires Sorted(ps) && |ps| >= 1
    requires x >= ps[|ps| - 1].x
    ensures Interp(ps, x) == ps[|ps| - 1].y
  {
    if |ps| > 1 {
      assert ps[0].x <= ps[1].x <= ps[|ps| - 1].x;
      InterpAbove(ps[1..], x);
    }
  }

  /** Between two neighbouring breakpoints the interpolant is the straight line through them. */
  lemma {:induction false} InterpBetween(ps: seq<Point>, k: nat, x: real)
    requires StrictlyIncreasing(ps)
    requires k + 1 < |ps|
    requires ps[k].x <= x <= ps[k + 1].x
    ensures Interp(ps, x) == Lerp(ps[k], ps[k + 1], x)
  {
    if x == ps[k + 1].x {
      InterpAtBreakpoint(ps, k + 1);
      LerpAtEnds(ps[k], ps[k + 1]);
    } else if k > 0 {
      assert ps[0].x < ps[1].x <= ps[k].x;
      InterpBetween(ps[1..], k - 1, x);
    }
  }

  lemma LerpAtEnds(p: Point, q: Point)
    requires p.x != q.x
    ensures Lerp(p, q, p.x) == p.y
    ensures Lerp(p, q, q.x) == q.y
  {
    var d := q.x - p.x;
    assert (q.y - p.y) / d * d == q.y - p.y;
  }

  /** On a segment the straight line stays between the segment's two values. */
  lemma LerpWithin(p: Point, q: Point, x: real)
    requires p.x < q.x
    requires p.x <= x <= q.x
    ensures p.y <= q.y ==> p.y <= Lerp(p, q, x) <= q.y
    ensures q.y <= p.y ==> q.y <= Lerp(p, q, x) <= p.y
  {
    var d := q.x - p.x;
    var t := (x - p.x) / d;
    assert 0.0 <= t <= 1.0;
    assert (q.y - p.y) / d * (x - p.x) == (q.y - p.y) * t;
    if p.y <= q.y {
      assert 0.0 <= (q.y - p.y) * t <= q.y - p.y;
    } else {
      assert p.y - q.y >= (p.y - q.y) * t >= 0.0;
    }
  }

  // ---------------------------------------------------------------------------
  // Extrapolating interpolation (interp1d with fill_value='extrapolate')

  /** scipy's `interp1d(xs, ys, fill_value='extrapolate')(x)` on points sorted
      by x: the segment ends at the first breakpoint (from the second on) at
      or above x, or is the last segment; its line is extended outside the
      range. A zero-width segment yields a non-finite value in scipy (NotFinite
      here): a failure always comes from a segment of zero width. */
  function Extrapolate(ps: seq<Point>, x: real): (r: Result<real>)
    requires |ps| >= 2
    ensures r.Err? ==> r.error == NotFinite && exists k :: 0 <= k < |ps| - 1 && ps[k].x == ps[k + 1].x
    decreases |ps|
  {
    if |ps| == 2 || x <= ps[1].x then
      if ps[0].x == ps[1].x then Err(NotFinite) else Ok(Lerp(ps[0], ps[1], x))
    else
      var v := Extrapolate(ps[1..], x);
      assert forall i :: 0 <= i < |ps| - 1 ==> ps[1..][i] == ps[i + 1];
      v
  }

  /** Strictly increasing breakpoints never give a non-finite value. */
  lemma {:induction false} ExtrapolateDefined(ps: seq<Point>, x: real)
    requires StrictlyIncreasing(ps) && |ps| >= 2
    ensures Extrapolate(ps, x).Ok?
  {
    if !(|ps| == 2 || x <= ps[1].x) {
      ExtrapolateDefined(ps[1..], x);
    }
  }

  /** Between two neighbouring breakpoints (ends included) the value is the line through them. */
  lemma {:induction false} ExtrapolateBetween(ps: seq<Point>, k: nat, x: real)
    requires StrictlyIncreasing(ps)
    requires k + 1 < |ps|
    requires ps[k].x <= x <= ps[k + 1].x
    ensures Extrapolate(ps, x) == Ok(Lerp(ps[k], ps[k + 1], x))
  {
    if k > 0 {
      if x == ps[k].x {
        // scipy takes the segment ending at ps[k]; both lines pass through ps[k]
        ExtrapolateBetween(ps, k - 1, x);
        LerpAtEnds(ps[k - 1], ps[k]);
        LerpAtEnds(ps[k], ps[k + 1]);
      } else {
        assert ps[1].x <= ps[k].x < x;
        ExtrapolateBetween(ps[1..], k - 1, x);
      }
    }
  }

  /** At a breakpoint the extrapolating interpolant returns that point's value. */
  lemma ExtrapolateAtBreakpoint(ps: seq<Point>, k: nat)
    requires StrictlyIncreasing(ps) && |ps| >= 2
    requires k < |ps|
    ensures Extrapolate(ps, ps[k].x) == Ok(ps[k].y)
  {
    if k + 1 < |ps| {
      var p, q := ps[k], ps[k + 1];
      assert p.x < q.x;
      ExtrapolateBetween(ps, k, p.x);
      LerpAtEnds(p, q);
    } else {
      var p, q := ps[k - 1], ps[k];
      assert p.x < q.x;
      ExtrapolateBetween(ps, k - 1, q.x);
      LerpAtEnds(p, q);
    }
  }

  /** Above the last breakpoint the last segment's line is extended. */
  lemma {:induction false} ExtrapolateAbove(ps: seq<Point>, x: real)
    requires StrictlyIncreasing(ps) && |ps| >= 2
    requires x >= ps[|ps| - 1].x
    ensures Extrapolate(ps, x) == Ok(Lerp(ps[|ps| - 2], ps[|ps| - 1], x))
  {
    if |ps| > 2 {
      var rest := ps[1..];
      assert ps[1].x < ps[|ps| - 1].x <= x;
      assert Extrapolate(ps, x) == Extrapolate(rest, x);
      ExtrapolateAbove(rest, x);
      assert rest[|rest| - 2] == ps[|ps| - 2] && rest[|rest| - 1] == ps[|ps| - 1];
    }
  }

  /** Below the first breakpoint the first segment's line is extended, so the
      value differs from np.interp's clamp whenever that line is not flat. */
  lemma ExtrapolateBelow(ps: seq<Point>, x: real)
    requires StrictlyIncreasing(ps) && |ps| >= 2
    requires x < ps[0].x
    ensures Extrapolate(ps, x) == Ok(Lerp(ps[0], ps[1], x))
    ensures ps[0].y != ps[1].y ==> Extrapolate(ps, x).value != Interp(ps, x)
  {
    assert Interp(ps, x) == ps[0].y;
    assert Extrapolate(ps, x) == Ok(Lerp(ps[0], ps[1], x));
    if ps[0].y != ps[1].y {
      LerpLeavesStart(ps[0], ps[1], x);
    }
  }

  /** A line that is not flat leaves its first point's value anywhere else. */
  lemma LerpLeavesStart(p: Point, q: Point, x: real)
    requires p.x != q.x && p.y != q.y && x != p.x
    ensures Lerp(p, q, x) != p.y
  {
    var slope := (q.y - p.y) / (q.x - p.x);
    assert slope != 0.0;
    assert slope * (x - p.x) != 0.0;
  }

  /** Inside the range of the breakpoints the two interpolants agree. */
  lemma {:induction false} InteriorAgreement(ps: seq<Point>, x: real)
    requires StrictlyIncreasing(ps) && |ps| >= 2
    requires ps[0].x <= x <= ps[|ps| - 1].x
    ensures Extrapolate(ps, x) == Ok(Interp(ps, x))
  {
    var k := Segment(ps, x);
    InterpBetween(ps, k, x);
    ExtrapolateBetween(ps, k, x);
  }

  /** After sorting points of distinct abscissae, the clamped and the
      extrapolating interpolation both pass through each original point. */
  lemma SortedThroughPoints(ps: seq<Point>, k: nat)
    requires DistinctX(ps) && k < |ps|
    ensures Interp(SortByX(ps), ps[k].x) == ps[k].y
    ensures |ps| >= 2 ==> Extrapolate(SortByX(ps), ps[k].x) == Ok(ps[k].y)
  {
    var c := SortByX(ps);
    SortStrict(ps);
    assert ps[k] in multiset(c) by { assert ps[k] in multiset(ps); }
    var j :| 0 <= j < |c| && c[j] == ps[k];
    InterpAtBreakpoint(c, j);
    if |ps| >= 2 {
      ExtrapolateAtBreakpoint(c, j);
    }
  }

  /** The index of a segment that contains x. */
  function Segment(ps: seq<Point>, x: real): (k: nat)
    requires Sorted(ps) && |ps| >= 2
    requires ps[0].x <= x <= ps[|ps| - 1].x
    ensures k + 1 < |ps| && ps[k].x <= x <= ps[k + 1].x
    decreases |ps|
  {
    if x <= ps[1].x then 0 else 1 + Segment(ps[1..], x)
  }
}
