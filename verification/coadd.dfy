/** Masked co-addition of a photon-counted stack: at every pixel, frames whose
    quality (DQ) value is nonzero are left out of both the valid-frame count
    and the co-added count. */
module CoAdd {
  import opened Base
  import opened Digitizer

  /** A stack of frames, each of height h and width w. */
  predicate IsStack<T>(s: seq<seq<seq<T>>>, h: nat, w: nat) {
    forall k :: 0 <= k < |s| ==> IsRect(s[k], h, w)
  }

  /** The values of one pixel across the stack. */
  function Series<T>(s: seq<seq<seq<T>>>, i: nat, j: nat, h: nat, w: nat): (p: seq<T>)
    requires IsStack(s, h, w) && i < h && j < w
    ensures |p| == |s|
    ensures forall k :: 0 <= k < |s| ==> p[k] == s[k][i][j]
  {
    seq(|s|, k requires 0 <= k < |s| => s[k][i][j])
  }

  /** nframes at one pixel: the nan-sum of the validity map along the stack. */
  function ValidCount(dq: seq<int>): (n: nat)
    ensures n <= |dq|
  {
    if |dq| == 0 then 0
    else ValidCount(dq[..|dq| - 1]) + (if dq[|dq| - 1] == 0 then 1 else 0)
  }

  /** The co-added count at one pixel: the nan-sum of the masked digitized values. */
  function CoaddCount(vals: seq<real>, dq: seq<int>, thresh: real): (c: nat)
    requires |vals| == |dq|
    ensures c <= ValidCount(dq)
  {
    if |dq| == 0 then 0
    else
      CoaddCount(vals[..|vals| - 1], dq[..|dq| - 1], thresh)
      + (if dq[|dq| - 1] == 0 then Digit(vals[|vals| - 1], thresh) else 0)
  }

  /** Indices of the frames not flagged at a pixel. */
  function ValidFrames(dq: seq<int>): set<nat> {
    set k: nat | k < |dq| && dq[k] == 0
  }

  /** Indices of the unflagged frames whose value is above the threshold. */
  function CountedFrames(vals: seq<real>, dq: seq<int>, thresh: real): set<nat>
    requires |vals| == |dq|
  {
    set k: nat | k < |dq| && dq[k] == 0 && vals[k] > thresh
  }

  lemma {:induction false} ValidCountIsCardinality(dq: seq<int>)
    ensures ValidCount(dq) == |ValidFrames(dq)|
  {
    if |dq| > 0 {
      var n := |dq| - 1;
      var p := dq[..n];
      ValidCountIsCardinality(p);
      var before := ValidFrames(p);
      assert n !in before;
      if dq[n] == 0 {
        assert ValidFrames(dq) == before + {n} by {
          forall k: nat | k in ValidFrames(dq) ensures k in before + {n} {
            if k < n { assert p[k] == dq[k]; }
          }
        }
      } else {
        assert ValidFrames(dq) == before by {
          forall k: nat | k in ValidFrames(dq) ensures k in before {
            assert p[k] == dq[k];
          }
        }
      }
    }
  }

  lemma {:induction false} CoaddCountIsCardinality(vals: seq<real>, dq: seq<int>, thresh: real)
    requires |vals| == |dq|
    ensures CoaddCount(vals, dq, thresh) == |CountedFrames(vals, dq, thresh)|
  {
    if |dq| > 0 {
      var n := |dq| - 1;
      var p := dq[..n];
      var q := vals[..n];
      CoaddCountIsCardinality(q, p, thresh);
      var before := CountedFrames(q, p, thresh);
      assert n !in before;
      if dq[n] == 0 && vals[n] > thresh {
        assert CountedFrames(vals, dq, thresh) == before + {n} by {
          forall k: nat | k in CountedFrames(vals, dq, thresh) ensures k in before + {n} {
            if k < n { assert p[k] == dq[k] && q[k] == vals[k]; }
          }
        }
      } else {
        assert CountedFrames(vals, dq, thresh) == before by {
          forall k: nat | k in CountedFrames(vals, dq, thresh) ensures k in before {
            assert p[k] == dq[k] && q[k] == vals[k];
          }
        }
      }
    }
  }

  /** The stack shifted by `sign` times its error plane (the +1 sigma and
      -1 sigma brackets). */
  function Shifted(data: seq<seq<seq<real>>>, err: seq<seq<seq<real>>>, sign: real, h: nat, w: nat)
    : (s: seq<seq<seq<real>>>)
    requires IsStack(data, h, w) && IsStack(err, h, w) && |data| == |err|
    ensures |s| == |data| && IsStack(s, h, w)
    ensures forall k, i, j :: 0 <= k < |s| && 0 <= i < h && 0 <= j < w ==>
      s[k][i][j] == data[k][i][j] + sign * err[k][i][j]
  {
    seq(|data|, k requires 0 <= k < |data| =>
      seq(h, i requires 0 <= i < h =>
        seq(w, j requires 0 <= j < w => data[k][i][j] + sign * err[k][i][j])))
  }

  /** The valid-frame count map nframes. */
  function NFramesMap(dq: seq<seq<seq<int>>>, h: nat, w: nat): (m: seq<seq<nat>>)
    requires IsStack(dq, h, w)
    ensures IsRect(m, h, w)
    ensures forall i, j :: 0 <= i < h && 0 <= j < w ==> m[i][j] == ValidCount(Series(dq, i, j, h, w))
  {
    seq(h, i requires 0 <= i < h =>
      seq(w, j requires 0 <= j < w => ValidCount(Series(dq, i, j, h, w))))
  }

  /** The co-added photon-count map of a stack digitized at `thresh`. */
  function CoaddMap(data: seq<seq<seq<real>>>, dq: seq<seq<seq<int>>>, thresh: real, h: nat, w: nat)
    : (m: seq<seq<nat>>)
    requires IsStack(data, h, w) && IsStack(dq, h, w) && |data| == |dq|
    ensures IsRect(m, h, w)
    ensures forall i, j :: 0 <= i < h && 0 <= j < w ==>
      m[i][j] == CoaddCount(Series(data, i, j, h, w), Series(dq, i, j, h, w), thresh)
  {
    seq(h, i requires 0 <= i < h =>
      seq(w, j requires 0 <= j < w =>
        CoaddCount(Series(data, i, j, h, w), Series(dq, i, j, h, w), thresh)))
  }

  /** At every pixel, nframes counts exactly the frames whose DQ value is 0,
      the co-added count counts exactly those of them above the threshold,
      and 0 <= coadd <= nframes <= number of frames. */
  lemma CoAddIsMaskedCount(data: seq<seq<seq<real>>>, dq: seq<seq<seq<int>>>, thresh: real,
                           h: nat, w: nat, i: nat, j: nat)
    requires IsStack(data, h, w) && IsStack(dq, h, w) && |data| == |dq|
    requires i < h && j < w
    ensures CoaddMap(data, dq, thresh, h, w)[i][j] <= NFramesMap(dq, h, w)[i][j] <= |dq|
    ensures NFramesMap(dq, h, w)[i][j] == |set k: nat | k < |dq| && dq[k][i][j] == 0|
    ensures CoaddMap(data, dq, thresh, h, w)[i][j]
         == |set k: nat | k < |dq| && dq[k][i][j] == 0 && data[k][i][j] > thresh|
  {
    var vs := Series(data, i, j, h, w);
    var ds := Series(dq, i, j, h, w);
    ValidCountIsCardinality(ds);
    CoaddCountIsCardinality(vs, ds, thresh);
    assert ValidFrames(ds) == set k: nat | k < |dq| && dq[k][i][j] == 0;
    assert CountedFrames(vs, ds, thresh)
        == set k: nat | k < |dq| && dq[k][i][j] == 0 && data[k][i][j] > thresh;
  }

  /** A pixel flagged in every frame has no valid frame and a zero co-add. */
  lemma FullyFlaggedPixel(data: seq<seq<seq<real>>>, dq: seq<seq<seq<int>>>, thresh: real,
                          h: nat, w: nat, i: nat, j: nat)
    requires IsStack(data, h, w) && IsStack(dq, h, w) && |data| == |dq|
    requires i < h && j < w
    ensures NFramesMap(dq, h, w)[i][j] == 0 <==> forall k :: 0 <= k < |dq| ==> dq[k][i][j] != 0
    ensures NFramesMap(dq, h, w)[i][j] == 0 ==> CoaddMap(data, dq, thresh, h, w)[i][j] == 0
  {
    CoAddIsMaskedCount(data, dq, thresh, h, w, i, j);
    var valid := set k: nat | k < |dq| && dq[k][i][j] == 0;
    if exists k :: 0 <= k < |dq| && dq[k][i][j] == 0 {
      var k :| 0 <= k < |dq| && dq[k][i][j] == 0;
      assert k in valid;
    } else {
      assert valid == {};
    }
  }
}
