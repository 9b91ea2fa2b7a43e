/** The validation get_relgains applies to a non-linearity table before
    interpolating it. Row 0 (after its first cell) is the EM-gain axis,
    column 0 (after its first cell) is the DN-count axis, and the rest holds
    one relative-gain curve per gain, as a column. */
module RelGains {
  import opened Base

  /** ValueError from get_relgains (Malformed: IndexError on a table with no row or no column). */
  datatype TableError =
    | Malformed
    | GainAxisNotIncreasing
    | CountAxisNotIncreasing
    | EmptyCurves            // min over the zero-length count axis of the curves
    | CurveMissesUnity

  /** data[0, 1:] */
  function GainAxis(t: seq<seq<real>>, h: nat, w: nat): seq<real>
    requires IsRect(t, h, w) && h > 0 && w > 0
  {
    t[0][1..]
  }

  /** data[1:, 0] */
  function CountAxis(t: seq<seq<real>>, h: nat, w: nat): seq<real>
    requires IsRect(t, h, w) && h > 0 && w > 0
  {
    seq(h - 1, i requires 0 <= i < h - 1 => t[i + 1][0])
  }

  /** Column c of data[1:, 1:]: the relative-gain curve of the c-th gain. */
  function Curve(t: seq<seq<real>>, h: nat, w: nat, c: nat): seq<real>
    requires IsRect(t, h, w) && h > 0 && c + 1 < w
  {
    seq(h - 1, i requires 0 <= i < h - 1 => t[i + 1][c + 1])
  }

  /** np.any(np.diff(a) <= 0) is false. */
  predicate DiffsPositive(a: seq<real>) {
    forall i :: 0 <= i < |a| - 1 ==> a[i + 1] - a[i] > 0.0
  }

  predicate StrictlyIncreasing(a: seq<real>) {
    forall i, j :: 0 <= i < j < |a| ==> a[i] < a[j]
  }

  lemma {:induction false} AdjacentChain(a: seq<real>, i: nat, j: nat)
    requires DiffsPositive(a) && i < j < |a|
    ensures a[i] < a[j]
    decreases j - i
  {
    if i + 1 < j {
      AdjacentChain(a, i + 1, j);
      assert a[i + 1] - a[i] > 0.0;
    } else {
      assert a[i + 1] - a[i] > 0.0;
    }
  }

  /** The adjacent-difference test is exactly strict increase. */
  lemma DiffsPositiveIsStrict(a: seq<real>)
    ensures DiffsPositive(a) <==> StrictlyIncreasing(a)
  {
    if DiffsPositive(a) {
      forall i, j | 0 <= i < j < |a|
        ensures a[i] < a[j]
      {
        AdjacentChain(a, i, j);
      }
    }
    if StrictlyIncreasing(a) {
      forall i | 0 <= i < |a| - 1
        ensures a[i + 1] - a[i] > 0.0
      {
        assert a[i] < a[i + 1];
      }
    }
  }

  function SeqMin(a: seq<real>): (m: real)
    requires |a| > 0
    ensures forall k :: 0 <= k < |a| ==> m <= a[k]
    ensures exists k :: 0 <= k < |a| && a[k] == m
  {
    if |a| == 1 then a[0]
    else
      var rest := SeqMin(a[1..]);
      assert exists k :: 0 <= k < |a| && a[k] == rest by {
        var k :| 0 <= k < |a[1..]| && a[1..][k] == rest;
        assert a[k + 1] == rest;
      }
      if a[0] <= rest then a[0] else rest
  }

  function SeqMax(a: seq<real>): (m: real)
    requires |a| > 0
    ensures forall k :: 0 <= k < |a| ==> a[k] <= m
    ensures exists k :: 0 <= k < |a| && a[k] == m
  {
    if |a| == 1 then a[0]
    else
      var rest := SeqMax(a[1..]);
      assert exists k :: 0 <= k < |a| && a[k] == rest by {
        var k :| 0 <= k < |a[1..]| && a[1..][k] == rest;
        assert a[k + 1] == rest;
      }
      if a[0] >= rest then a[0] else rest
  }

  /** A curve contains or straddles 1.0: some value is at most 1 and some
      value is at least 1. */
  predicate ReachesUnity(a: seq<real>) {
    (exists k :: 0 <= k < |a| && a[k] <= 1.0) && (exists k :: 0 <= k < |a| && a[k] >= 1.0)
  }

  /** The min/max test of a curve is the contain-or-straddle property. */
  lemma MinMaxStraddle(a: seq<real>)
    requires |a| > 0
    ensures (SeqMin(a) <= 1.0 && SeqMax(a) >= 1.0) <==> ReachesUnity(a)
  {
    if ReachesUnity(a) {
      var k1 :| 0 <= k1 < |a| && a[k1] <= 1.0;
      var k2 :| 0 <= k2 < |a| && a[k2] >= 1.0;
      assert SeqMin(a) <= a[k1] && a[k2] <= SeqMax(a);
    }
  }

  /** The validation part of get_relgains. */
  function CheckRelgainTable(t: seq<seq<real>>, h: nat, w: nat): (r: Result<(), TableError>)
    requires IsRect(t, h, w)
    ensures (h == 0 || w == 0) <==> r == Err(Malformed)
    ensures h > 0 && w > 0 ==>
      && (!StrictlyIncreasing(GainAxis(t, h, w)) <==> r == Err(GainAxisNotIncreasing))
      && ((StrictlyIncreasing(GainAxis(t, h, w)) && !StrictlyIncreasing(CountAxis(t, h, w)))
          <==> r == Err(CountAxisNotIncreasing))
    ensures r.Ok? <==>
      && h > 0 && w > 0
      && StrictlyIncreasing(GainAxis(t, h, w))
      && StrictlyIncreasing(CountAxis(t, h, w))
      && h > 1
      && forall c :: 0 <= c < w - 1 ==> ReachesUnity(Curve(t, h, w, c))
    ensures h == 1 && w > 0 && StrictlyIncreasing(GainAxis(t, h, w)) ==> r == Err(EmptyCurves)
  {
    if h == 0 || w == 0 then Err(Malformed)
    else
      DiffsPositiveIsStrict(GainAxis(t, h, w));
      DiffsPositiveIsStrict(CountAxis(t, h, w));
      if !DiffsPositive(GainAxis(t, h, w)) then Err(GainAxisNotIncreasing)
      else if !DiffsPositive(CountAxis(t, h, w)) then Err(CountAxisNotIncreasing)
      else if h == 1 then Err(EmptyCurves)
      else if exists c :: 0 <= c < w - 1 && !CurveStraddles(t, h, w, c) then Err(CurveMissesUnity)
      else
        assert forall c :: 0 <= c < w - 1 ==> ReachesUnity(Curve(t, h, w, c)) by {
          forall c | 0 <= c < w - 1
            ensures ReachesUnity(Curve(t, h, w, c))
          {
            assert CurveStraddles(t, h, w, c);
          }
        }
        Ok(())
  }

  /** (np.min(curve) > 1) or (np.max(curve) < 1) is false for column c. */
  predicate CurveStraddles(t: seq<seq<real>>, h: nat, w: nat, c: nat)
    requires IsRect(t, h, w) && h > 1 && c + 1 < w
    ensures CurveStraddles(t, h, w, c) <==> ReachesUnity(Curve(t, h, w, c))
  {
    MinMaxStraddle(Curve(t, h, w, c));
    !(SeqMin(Curve(t, h, w, c)) > 1.0) && !(SeqMax(Curve(t, h, w, c)) < 1.0)
  }
}
