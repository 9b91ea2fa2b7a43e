/** get_pc_mean: photon count an illuminated stack and a dark stack, correct
    each for thresholding and coincidence loss, and return the
    dark-subtracted mean expected count with its error and quality maps. */
module PcMean {
  import opened Base
  import opened CoAdd
  import opened CoincidenceLoss

  /** The header keywords get_pc_mean reads. EMGAIN_M and EMGAIN_A may be
      absent; the others are always present. */
  datatype Header = Header(exptime: real, cmdgain: real, kgain: real, rn: real,
                           emgainM: Option<real>, emgainA: Option<real>, vistype: string)

  /** One frame: its data, its first error plane, its DQ flags and header. */
  datatype Frame = Frame(data: seq<seq<real>>, err: seq<seq<real>>, dq: seq<seq<int>>, hdr: Header)

  /** The fatal errors of get_pc_mean. */
  datatype PcError =
    | NoFrames           // an empty dataset has no first group
    | MixedConfig        // frames differ in EXPTIME, CMDGAIN, KGAIN or RN
    | NotTwoStacks       // the VISTYPE split does not give exactly two groups
    | NoDarkStack        // neither group has VISTYPE 'DARK'
    | NegativeThreshold  // T_factor * RN < 0
    | BadNiter           // niter < 1
    | Corr(e: CorrError) // raised by corr_photon_count

  /** The advisory warnings; they never abort processing. */
  datatype Advisory =
    | ThreshNotBelowGain
    | HighMeanCounts
    | NonPositiveReadNoise
    | ThreshBelowFourReadNoise

  /** The processing-history fields: input frame count, T_factor, niter. */
  datatype History = History(frames: nat, tFactor: real, niter: int)

  /** The photon-counted image: rate map, error map, DQ map, history entry,
      and the advisories raised on the way. */
  datatype PcImage = PcImage(rate: seq<seq<real>>, err: seq<seq<Float>>, dq: seq<seq<int>>,
                             history: History, advisories: seq<Advisory>)

  /** Every frame's arrays are h x w. */
  predicate FramesShaped(ds: seq<Frame>, h: nat, w: nat) {
    forall f :: f in ds ==> IsRect(f.data, h, w) && IsRect(f.err, h, w) && IsRect(f.dq, h, w)
  }

  /** The keywords all frames must agree on. */
  datatype ConfigKey = ConfigKey(exptime: real, cmdgain: real, kgain: real, rn: real)

  function KeyOf(hdr: Header): ConfigKey {
    ConfigKey(hdr.exptime, hdr.cmdgain, hdr.kgain, hdr.rn)
  }

  /** Splitting on EXPTIME, CMDGAIN, KGAIN and RN gives one group. */
  predicate UniformConfig(ds: seq<Frame>) {
    forall f, f' :: f in ds && f' in ds ==> KeyOf(f.hdr) == KeyOf(f'.hdr)
  }

  /** The distinct VISTYPE values of the dataset. */
  function VisTypes(ds: seq<Frame>): set<string> {
    set f | f in ds :: f.hdr.vistype
  }

  /** Whether a frame belongs to the 'DARK' group (dark) or to the other. */
  predicate InGroup(f: Frame, dark: bool) {
    (f.hdr.vistype == "DARK") == dark
  }

  /** The positions of one group's frames in the dataset: increasing, and
      exactly the positions whose frame is in the group. */
  function GroupIndices(ds: seq<Frame>, dark: bool): (idx: seq<nat>)
    ensures forall m :: 0 <= m < |idx| ==> idx[m] < |ds| && InGroup(ds[idx[m]], dark)
    ensures forall m, m' :: 0 <= m < m' < |idx| ==> idx[m] < idx[m']
    ensures forall k :: 0 <= k < |ds| && InGroup(ds[k], dark) ==> k in idx
  {
    if |ds| == 0 then []
    else
      var n := |ds| - 1;
      var before := GroupIndices(ds[..n], dark);
      assert forall m :: 0 <= m < |before| ==> ds[..n][before[m]] == ds[before[m]];
      assert forall k :: 0 <= k < n ==> ds[..n][k] == ds[k];
      before + (if InGroup(ds[n], dark) then [n] else [])
  }

  /** The frames of one VISTYPE group, in input order: the 'DARK' group when
      `dark` holds, the other group otherwise. */
  function Frames(ds: seq<Frame>, dark: bool): (s: seq<Frame>)
    ensures forall f :: f in s ==> f in ds && InGroup(f, dark)
    ensures forall f :: f in ds && InGroup(f, dark) ==> f in s
  {
    if |ds| == 0 then []
    else
      var n := |ds| - 1;
      assert forall f :: f in ds ==> f in ds[..n] || f == ds[n] by {
        forall f | f in ds ensures f in ds[..n] || f == ds[n] {
          var k :| 0 <= k < |ds| && ds[k] == f;
          if k < n {
            assert ds[..n][k] == f;
          }
        }
      }
      Frames(ds[..n], dark) + (if InGroup(ds[n], dark) then [ds[n]] else [])
  }

  /** The group's frames are the dataset's frames at the group's positions,
      taken in increasing order. */
  lemma {:induction false} FramesFollowGroupIndices(ds: seq<Frame>, dark: bool)
    ensures |Frames(ds, dark)| == |GroupIndices(ds, dark)|
    ensures forall m :: 0 <= m < |Frames(ds, dark)| ==> Frames(ds, dark)[m] == ds[GroupIndices(ds, dark)[m]]
  {
    if |ds| > 0 {
      var n := |ds| - 1;
      FramesFollowGroupIndices(ds[..n], dark);
      var before := GroupIndices(ds[..n], dark);
      assert forall m :: 0 <= m < |before| ==> ds[..n][before[m]] == ds[before[m]];
    }
  }

  /** The dataset splits into exactly two groups, one of them 'DARK'. */
  predicate Splits(ds: seq<Frame>) {
    |ds| > 0 && UniformConfig(ds) && |VisTypes(ds)| == 2 && "DARK" in VisTypes(ds)
  }

  /** The illuminated and the dark stack of a dataset that splits; both
      hold at least one frame. */
  function Stacks(ds: seq<Frame>): (st: (seq<Frame>, seq<Frame>))
    requires Splits(ds)
    ensures st == (Frames(ds, false), Frames(ds, true))
    ensures |st.0| > 0 && |st.1| > 0
    ensures st.0[0].hdr.rn == ds[0].hdr.rn && st.1[0].hdr.rn == ds[0].hdr.rn
  {
    assert |Frames(ds, false)| > 0 && |Frames(ds, true)| > 0 by {
      OtherVisType(VisTypes(ds));
      var v :| v in VisTypes(ds) && v != "DARK";
      var f :| f in ds && f.hdr.vistype == v;
      assert f in Frames(ds, false);
      var d :| d in ds && d.hdr.vistype == "DARK";
      assert d in Frames(ds, true);
    }
    assert Frames(ds, false)[0] in ds && Frames(ds, true)[0] in ds && ds[0] in ds;
    (Frames(ds, false), Frames(ds, true))
  }

  /** EMGAIN_M if present, else EMGAIN_A if present, else CMDGAIN. */
  function ResolveGain(hdr: Header): (g: real)
    ensures hdr.emgainM.Some? ==> g == hdr.emgainM.value
    ensures hdr.emgainM.None? && hdr.emgainA.Some? ==> g == hdr.emgainA.value
    ensures hdr.emgainM.None? && hdr.emgainA.None? ==> g == hdr.cmdgain
  {
    match hdr.emgainM
    case Some(m) => m
    case None =>
      match hdr.emgainA
      case Some(a) => a
      case None => hdr.cmdgain
  }

  function Sum(xs: seq<real>): real {
    if |xs| == 0 then 0.0 else xs[0] + Sum(xs[1..])
  }

  function SumRows(m: seq<seq<real>>): real {
    if |m| == 0 then 0.0 else Sum(m[0]) + SumRows(m[1..])
  }

  function SumStack(s: seq<seq<seq<real>>>): real {
    if |s| == 0 then 0.0 else SumRows(s[0]) + SumStack(s[1..])
  }

  /** np.average over a stack of h x w frames (NaN when it is empty). */
  function StackMean(s: seq<seq<seq<real>>>, h: nat, w: nat): Float {
    var n := |s| * h * w;
    if n == 0 then NaN else Fin(SumStack(s) / n as real)
  }

  /** The advisory warnings of one stack, in the order they are issued. */
  function Advisories(thresh: real, g: real, rn: real, mean: Float): (a: seq<Advisory>)
    ensures ThreshNotBelowGain in a <==> thresh >= g
    ensures HighMeanCounts in a <==> mean.Fin? && mean.v > 0.1
    ensures NonPositiveReadNoise in a <==> rn <= 0.0
    ensures ThreshBelowFourReadNoise in a <==> thresh < 4.0 * rn
  {
    (if thresh >= g then [ThreshNotBelowGain] else [])
    + (if mean.Fin? && mean.v > 0.1 then [HighMeanCounts] else [])
    + (if rn <= 0.0 then [NonPositiveReadNoise] else [])
    + (if thresh < 4.0 * rn then [ThreshBelowFourReadNoise] else [])
  }

  function Datas(s: seq<Frame>, h: nat, w: nat): (d: seq<seq<seq<real>>>)
    requires FramesShaped(s, h, w)
    ensures |d| == |s| && IsStack(d, h, w)
    ensures forall k :: 0 <= k < |s| ==> d[k] == s[k].data
  {
    seq(|s|, k requires 0 <= k < |s| => s[k].data)
  }

  function Errs(s: seq<Frame>, h: nat, w: nat): (d: seq<seq<seq<real>>>)
    requires FramesShaped(s, h, w)
    ensures |d| == |s| && IsStack(d, h, w)
    ensures forall k :: 0 <= k < |s| ==> d[k] == s[k].err
  {
    seq(|s|, k requires 0 <= k < |s| => s[k].err)
  }

  function Dqs(s: seq<Frame>, h: nat, w: nat): (d: seq<seq<seq<int>>>)
    requires FramesShaped(s, h, w)
    ensures |d| == |s| && IsStack(d, h, w)
    ensures forall k :: 0 <= k < |s| ==> d[k] == s[k].dq
  {
    seq(|s|, k requires 0 <= k < |s| => s[k].dq)
  }

  /** No frame of the stack is unflagged at pixel (i, j). */
  predicate NoValidFrame(s: seq<Frame>, h: nat, w: nat, i: nat, j: nat)
    requires FramesShaped(s, h, w) && i < h && j < w
  {
    forall k :: 0 <= k < |s| ==> s[k].dq[i][j] != 0
  }

  /** The per-stack error: the larger of (up - mean) and (mean - low), with
      up = mean_up + var and low = mean_low - var. This bracket is an
      empirical heuristic, not a derived variance. */
  function BracketError(mean: real, meanUp: real, meanLow: real, variance: real): (e: real)
    ensures e >= (meanUp + variance) - mean && e >= mean - (meanLow - variance)
    ensures e == (meanUp + variance) - mean || e == mean - (meanLow - variance)
    ensures (meanUp >= mean || meanLow <= mean) ==> e >= variance
  {
    Max((meanUp + variance) - mean, mean - (meanLow - variance))
  }

  /** The error of one pixel: NaN where var_L23 is NaN, since np.max
      propagates it, and the bracket otherwise. */
  function PixelError(mean: real, meanUp: real, meanLow: real, variance: Float): (e: Float)
    ensures e.NaN? <==> variance.NaN?
    ensures e.Fin? ==> e.v == BracketError(mean, meanUp, meanLow, variance.v)
  {
    if variance.NaN? then NaN else Fin(BracketError(mean, meanUp, meanLow, variance.v))
  }

  lemma CubicAtLeastSix(lam: real)
    requires lam >= 0.0
    ensures Cubic(lam) >= 6.0
  {
    assert lam * (3.0 + lam) >= 0.0;
    assert lam * (6.0 + lam * (3.0 + lam)) >= 0.0;
  }

  /** eThresh of var_L23 at mean count lam: the fraction of frames
      expected above the threshold t. The factor lam is taken out of the
      numerator, which is the same real number. */
  function EThresh(g: real, lam: real, t: real, el: Elementary): (e: real)
    requires g != 0.0 && lam >= 0.0
    ensures lam == 0.0 ==> e == 0.0
  {
    CubicAtLeastSix(lam);
    lam * ((6.0 / Cubic(lam)) * (el.exp(-t / g) * Numer(lam, t, g)) / (12.0 * g * g))
  }

  /** The squared bracket of var_L23 that propagates the binomial spread of
      the above-threshold count through the correction. */
  function Propagation(g: real, t: real, n: nat, e: real, el: Elementary): (p: real)
    requires g != 0.0 && n > 0
    ensures p >= 0.0
  {
    var nr := n as real;
    var b := el.exp(t / g) / nr
             + 2.0 * ((el.exp(2.0 * t / g) * (g - t)) / (2.0 * g * nr * nr)) * (nr * e)
             + 3.0 * ((el.exp(3.0 * t / g) * (4.0 * g * g - 8.0 * g * t + 5.0 * t * t))
                      / (12.0 * g * g * nr * nr * nr)) * ((nr * e) * (nr * e));
    b * b
  }

  lemma NonNegativeProduct(a: real, b: real)
    requires a >= 0.0 && b >= 0.0
    ensures a * b >= 0.0
  {
  }

  /** var_L23 at one pixel, with mean count lam and n valid frames. With no
      valid frame the result is NaN: e^(T/g) / N is infinite there and the
      infinity meets a zero factor. Where the binomial spread
      N eThresh (1 - eThresh) is negative, np.sqrt gives NaN. */
  function VarL23(g: real, lam: real, t: real, n: nat, el: Elementary): (v: Float)
    requires g != 0.0 && lam >= 0.0 && Lawful(el)
    ensures v.NaN? <==>
      n == 0 || n as real * EThresh(g, lam, t, el) * (1.0 - EThresh(g, lam, t, el)) < 0.0
    ensures v.Fin? ==> v.v >= 0.0
    ensures n > 0 && lam == 0.0 ==> v == Fin(0.0)
  {
    if n == 0 then NaN
    else
      var e := EThresh(g, lam, t, el);
      var spread := n as real * e * (1.0 - e);
      if spread < 0.0 then NaN
      else
        var sd := el.sqrt(spread);
        assert sd * sd == spread;
        NonNegativeProduct(spread, Propagation(g, t, n, e, el));
        Fin(sd * sd * Propagation(g, t, n, e, el))
  }

  /** The finite values of a map known to hold no NaN. */
  function Reals(m: seq<seq<Float>>, h: nat, w: nat): (r: seq<seq<real>>)
    requires IsRect(m, h, w)
    requires forall i, j :: 0 <= i < h && 0 <= j < w ==> m[i][j].Fin?
    ensures IsRect(r, h, w)
    ensures forall i, j :: 0 <= i < h && 0 <= j < w ==> m[i][j] == Fin(r[i][j])
  {
    seq(h, i requires 0 <= i < h => seq(w, j requires 0 <= j < w => m[i][j].v))
  }

  /** The result of one stack. */
  datatype StackResult = StackResult(mean: seq<seq<real>>, err: seq<seq<Float>>, dq: seq<seq<int>>,
                                     advisories: seq<Advisory>)

  /** What a processed stack guarantees at every pixel: a non-negative mean,
      a DQ flag of 1 exactly where no frame is valid, and there a mean of 0
      and a NaN error. */
  predicate StackOk(s: seq<Frame>, res: StackResult, h: nat, w: nat)
    requires FramesShaped(s, h, w)
  {
    && IsRect(res.mean, h, w) && IsRect(res.err, h, w) && IsRect(res.dq, h, w)
    && forall i, j :: 0 <= i < h && 0 <= j < w ==>
         && res.mean[i][j] >= 0.0
         && (res.dq[i][j] == 0 || res.dq[i][j] == 1)
         && (res.dq[i][j] == 1 <==> NoValidFrame(s, h, w, i, j))
         && (res.dq[i][j] == 1 ==> res.mean[i][j] == 0.0 && res.err[i][j].NaN?)
  }

  /** Two h x w maps with the same entries are equal. */
  lemma RectExtensional<T>(a: seq<seq<T>>, b: seq<seq<T>>, h: nat, w: nat)
    requires IsRect(a, h, w) && IsRect(b, h, w)
    requires forall i, j :: 0 <= i < h && 0 <= j < w ==> a[i][j] == b[i][j]
    ensures a == b
  {
    forall i | 0 <= i < h ensures a[i] == b[i] {
    }
  }

  /** The corrected mean of one stack (its data, or its data shifted by one
      error plane), pixel by pixel: corr_photon_count's closed form at the
      pixel's co-added count and valid-frame count. */
  function MeanMap(data: seq<seq<seq<real>>>, dqs: seq<seq<seq<int>>>, thresh: real, g: real,
                   el: Elementary, niter: int, h: nat, w: nat): (m: seq<seq<real>>)
    requires IsStack(data, h, w) && IsStack(dqs, h, w) && |data| == |dqs|
    requires g != 0.0 && Lawful(el) && niter >= 1
    ensures IsRect(m, h, w)
  {
    var nobs := CoaddMap(data, dqs, thresh, h, w);
    var nfr := NFramesMap(dqs, h, w);
    seq(h, i requires 0 <= i < h => seq(w, j requires 0 <= j < w =>
      CorrectedPixel(nobs[i][j], nfr[i][j], thresh, g, el, niter).v))
  }

  /** The corrected mean at each pixel is corr_photon_count's finite value
      there; it is 0 where no frame is valid, and non-negative when no pixel
      of the stack raises. */
  lemma MeanMapMeaning(data: seq<seq<seq<real>>>, dqs: seq<seq<seq<int>>>, thresh: real, g: real,
                       el: Elementary, niter: int, h: nat, w: nat)
    requires IsStack(data, h, w) && IsStack(dqs, h, w) && |data| == |dqs|
    requires g != 0.0 && Lawful(el) && niter >= 1
    ensures forall i, j :: 0 <= i < h && 0 <= j < w ==>
      Fin(MeanMap(data, dqs, thresh, g, el, niter, h, w)[i][j]) ==
      CorrectedPixel(CoaddMap(data, dqs, thresh, h, w)[i][j], NFramesMap(dqs, h, w)[i][j], thresh, g, el, niter)
    ensures forall i, j :: 0 <= i < h && 0 <= j < w && (forall k :: 0 <= k < |dqs| ==> dqs[k][i][j] != 0) ==>
      MeanMap(data, dqs, thresh, g, el, niter, h, w)[i][j] == 0.0
    ensures !StackNegative(data, dqs, thresh, g, el, niter, h, w) ==>
      forall i, j :: 0 <= i < h && 0 <= j < w ==> MeanMap(data, dqs, thresh, g, el, niter, h, w)[i][j] >= 0.0
  {
    var nobs := CoaddMap(data, dqs, thresh, h, w);
    var nfr := NFramesMap(dqs, h, w);
    forall i, j | 0 <= i < h && 0 <= j < w
      ensures CorrectedPixel(nobs[i][j], nfr[i][j], thresh, g, el, niter).Fin?
      ensures !PixelEndsNegative(nobs[i][j], nfr[i][j], thresh, g, el, niter) ==>
        CorrectedPixel(nobs[i][j], nfr[i][j], thresh, g, el, niter).v >= 0.0
      ensures (forall k :: 0 <= k < |dqs| ==> dqs[k][i][j] != 0) ==>
        CorrectedPixel(nobs[i][j], nfr[i][j], thresh, g, el, niter) == Fin(0.0)
    {
      FullyFlaggedPixel(data, dqs, thresh, h, w, i, j);
      CorrectedPixelMeaning(nobs[i][j], nfr[i][j], thresh, g, el, niter);
    }
  }

  /** Some pixel of the stack makes corr_photon_count raise. */
  predicate StackNegative(data: seq<seq<seq<real>>>, dqs: seq<seq<seq<int>>>, thresh: real, g: real,
                          el: Elementary, niter: int, h: nat, w: nat)
    requires IsStack(data, h, w) && IsStack(dqs, h, w) && |data| == |dqs|
    requires g != 0.0 && Lawful(el)
  {
    var nobs := CoaddMap(data, dqs, thresh, h, w);
    var nfr := NFramesMap(dqs, h, w);
    exists i, j :: 0 <= i < h && 0 <= j < w && PixelEndsNegative(nobs[i][j], nfr[i][j], thresh, g, el, niter)
  }

  /** corr_photon_count applied to the co-added counts of one stack, as
      real values. */
  method CorrectedMean(data: seq<seq<seq<real>>>, dqs: seq<seq<seq<int>>>, thresh: real, g: real,
                       el: Elementary, niter: int, h: nat, w: nat)
    returns (r: Result<seq<seq<real>>, CorrError>)
    requires IsStack(data, h, w) && IsStack(dqs, h, w) && |data| == |dqs|
    requires Lawful(el) && niter >= 1
    ensures r == Err(ZeroGain) <==> g == 0.0
    ensures g != 0.0 && (h == 0 || w == 0) ==> r == Err(EmptyReduction)
    ensures g != 0.0 && h > 0 && w > 0 ==>
      (r == Err(NegativeCounts) <==> StackNegative(data, dqs, thresh, g, el, niter, h, w))
    ensures g != 0.0 && h > 0 && w > 0 && r.Err? ==> r.error == NegativeCounts
    ensures r.Ok? ==> g != 0.0 && r.value == MeanMap(data, dqs, thresh, g, el, niter, h, w)
    ensures r.Ok? ==> IsRect(r.value, h, w) && forall i, j :: 0 <= i < h && 0 <= j < w ==>
      && r.value[i][j] >= 0.0
      && ((forall k :: 0 <= k < |dqs| ==> dqs[k][i][j] != 0) ==> r.value[i][j] == 0.0)
  {
    var nframes := NFramesMap(dqs, h, w);
    var coadd := CoaddMap(data, dqs, thresh, h, w);
    var m := CorrPhotonCount(coadd, nframes, thresh, g, el, niter, h, w);
    if m.Err? {
      return Err(m.error);
    }
    var mean := Reals(m.value, h, w);
    MeanMapMeaning(data, dqs, thresh, g, el, niter, h, w);
    RectExtensional(mean, MeanMap(data, dqs, thresh, g, el, niter, h, w), h, w);
    r := Ok(mean);
  }

  /** The error map of a stack: PixelError at every pixel, with var_L23
      evaluated at the pixel's mean and valid-frame count. */
  function ErrorMap(mean: seq<seq<real>>, meanUp: seq<seq<real>>, meanLow: seq<seq<real>>,
                    nframes: seq<seq<nat>>, g: real, thresh: real, el: Elementary, h: nat, w: nat)
    : (e: seq<seq<Float>>)
    requires IsRect(mean, h, w) && IsRect(meanUp, h, w) && IsRect(meanLow, h, w) && IsRect(nframes, h, w)
    requires g != 0.0 && Lawful(el)
    requires forall i, j :: 0 <= i < h && 0 <= j < w ==> mean[i][j] >= 0.0
    ensures IsRect(e, h, w)
    ensures forall i, j :: 0 <= i < h && 0 <= j < w ==>
      e[i][j] == PixelError(mean[i][j], meanUp[i][j], meanLow[i][j],
                            VarL23(g, mean[i][j], thresh, nframes[i][j], el))
  {
    seq(h, i requires 0 <= i < h => seq(w, j requires 0 <= j < w =>
      PixelError(mean[i][j], meanUp[i][j], meanLow[i][j], VarL23(g, mean[i][j], thresh, nframes[i][j], el))))
  }

  /** The DQ map of a stack: 1 where no frame is valid, 0 elsewhere. */
  function DqMap(s: seq<Frame>, h: nat, w: nat): (dq: seq<seq<int>>)
    requires FramesShaped(s, h, w)
    ensures IsRect(dq, h, w)
    ensures forall i, j :: 0 <= i < h && 0 <= j < w ==>
      && (dq[i][j] == 0 || dq[i][j] == 1)
      && (dq[i][j] == 1 <==> NoValidFrame(s, h, w, i, j))
  {
    var dqs := Dqs(s, h, w);
    var nframes := NFramesMap(dqs, h, w);
    var dq := seq(h, i requires 0 <= i < h => seq(w, j requires 0 <= j < w =>
      if nframes[i][j] == 0 then 1 else 0));
    assert forall i, j :: 0 <= i < h && 0 <= j < w ==> (dq[i][j] == 1 <==> NoValidFrame(s, h, w, i, j)) by {
      forall i, j | 0 <= i < h && 0 <= j < w
        ensures dq[i][j] == 1 <==> NoValidFrame(s, h, w, i, j)
      {
        FullyFlaggedPixel(Datas(s, h, w), dqs, 0.0, h, w, i, j);
      }
    }
    dq
  }

  /** The three corrections of a stack that passed the checks (its data,
      data + err and data - err), any of which may raise, then its mean,
      error and DQ maps and its advisories. */
  function CorrectedStack(s: seq<Frame>, thresh: real, g: real, niter: int, el: Elementary, h: nat, w: nat)
    : (r: Result<StackResult, PcError>)
    requires |s| > 0 && FramesShaped(s, h, w) && Lawful(el) && g != 0.0 && niter >= 1
    ensures r.Err? ==> r.error == Corr(NegativeCounts)
    ensures r.Ok? ==> IsRect(r.value.mean, h, w) && IsRect(r.value.err, h, w) && IsRect(r.value.dq, h, w)
  {
    var data := Datas(s, h, w);
    var errs := Errs(s, h, w);
    var dqs := Dqs(s, h, w);
    var up := Shifted(data, errs, 1.0, h, w);
    var low := Shifted(data, errs, -1.0, h, w);
    if || StackNegative(data, dqs, thresh, g, el, niter, h, w)
       || StackNegative(up, dqs, thresh, g, el, niter, h, w)
       || StackNegative(low, dqs, thresh, g, el, niter, h, w)
    then Err(Corr(NegativeCounts))
    else
      MeanMapMeaning(data, dqs, thresh, g, el, niter, h, w);
      var mean := MeanMap(data, dqs, thresh, g, el, niter, h, w);
      var err := ErrorMap(mean, MeanMap(up, dqs, thresh, g, el, niter, h, w),
                          MeanMap(low, dqs, thresh, g, el, niter, h, w), NFramesMap(dqs, h, w),
                          g, thresh, el, h, w);
      Ok(StackResult(mean, err, DqMap(s, h, w), Advisories(thresh, g, s[0].hdr.rn, StackMean(data, h, w))))
  }

  /** The outcome of one pass of the loop of get_pc_mean over a stack with
      photon-counting threshold thresh (T_factor times the stack's read
      noise), stated pixel by pixel: the checks in the order the loop makes
      them, then the corrections. */
  function StackOutcome(s: seq<Frame>, thresh: real, niter: int, el: Elementary, h: nat, w: nat)
    : (r: Result<StackResult, PcError>)
    requires |s| > 0 && FramesShaped(s, h, w) && Lawful(el)
    ensures r.Ok? ==> IsRect(r.value.mean, h, w) && IsRect(r.value.err, h, w) && IsRect(r.value.dq, h, w)
  {
    var g := ResolveGain(s[0].hdr);
    if thresh < 0.0 then Err(NegativeThreshold)
    else if niter < 1 then Err(BadNiter)
    else if g == 0.0 then Err(Corr(ZeroGain))
    else if h == 0 || w == 0 then Err(Corr(EmptyReduction))
    else CorrectedStack(s, thresh, g, niter, el, h, w)
  }

  /** Which error a stack raises: a negative threshold first, then a bad
      iteration count, then a zero gain; every other error comes from
      corr_photon_count. */
  lemma StackOutcomeChecks(s: seq<Frame>, thresh: real, niter: int, el: Elementary, h: nat, w: nat)
    requires |s| > 0 && FramesShaped(s, h, w) && Lawful(el)
    ensures thresh < 0.0 <==> StackOutcome(s, thresh, niter, el, h, w) == Err(NegativeThreshold)
    ensures thresh >= 0.0 ==> (niter < 1 <==> StackOutcome(s, thresh, niter, el, h, w) == Err(BadNiter))
    ensures thresh >= 0.0 && niter >= 1 ==>
      (ResolveGain(s[0].hdr) == 0.0 <==> StackOutcome(s, thresh, niter, el, h, w) == Err(Corr(ZeroGain)))
    ensures thresh >= 0.0 && niter >= 1 && StackOutcome(s, thresh, niter, el, h, w).Err? ==>
      StackOutcome(s, thresh, niter, el, h, w).error.Corr?
  {
  }

  /** A stack that passes the checks and the corrections meets StackOk. */
  lemma StackOutcomeOk(s: seq<Frame>, thresh: real, niter: int, el: Elementary, h: nat, w: nat)
    requires |s| > 0 && FramesShaped(s, h, w) && Lawful(el)
    requires StackOutcome(s, thresh, niter, el, h, w).Ok?
    ensures StackOk(s, StackOutcome(s, thresh, niter, el, h, w).value, h, w)
  {
    var g := ResolveGain(s[0].hdr);
    var data := Datas(s, h, w);
    var dqs := Dqs(s, h, w);
    MeanMapMeaning(data, dqs, thresh, g, el, niter, h, w);
    var mean := MeanMap(data, dqs, thresh, g, el, niter, h, w);
    var nframes := NFramesMap(dqs, h, w);
    forall i, j | 0 <= i < h && 0 <= j < w && NoValidFrame(s, h, w, i, j)
      ensures mean[i][j] == 0.0 && nframes[i][j] == 0
    {
      FullyFlaggedPixel(data, dqs, thresh, h, w, i, j);
    }
  }

  /** One pass of the loop of get_pc_mean over a stack: the checks, then
      corr_photon_count of the data, of data + err and of data - err, the
      first of which to raise ending the pass. On success the mean is the
      corrected data, the error is the bracket of the three corrected maps
      widened by var_L23, the DQ map flags the pixels with no valid frame,
      and the advisories are those of the stack's threshold, gain, read
      noise and average. */
  method ProcessStack(s: seq<Frame>, thresh: real, niter: int, el: Elementary, h: nat, w: nat)
    returns (r: Result<StackResult, PcError>)
    requires |s| > 0 && FramesShaped(s, h, w) && Lawful(el)
    ensures r == StackOutcome(s, thresh, niter, el, h, w)
    ensures thresh < 0.0 <==> r == Err(NegativeThreshold)
    ensures thresh >= 0.0 ==> (niter < 1 <==> r == Err(BadNiter))
    ensures thresh >= 0.0 && niter >= 1 ==> (ResolveGain(s[0].hdr) == 0.0 <==> r == Err(Corr(ZeroGain)))
    ensures thresh >= 0.0 && niter >= 1 && ResolveGain(s[0].hdr) != 0.0 ==>
      ((h == 0 || w == 0) <==> r == Err(Corr(EmptyReduction)))
    ensures thresh >= 0.0 && niter >= 1 && ResolveGain(s[0].hdr) != 0.0 && h > 0 && w > 0 ==>
      var g := ResolveGain(s[0].hdr);
      var data := Datas(s, h, w);
      var dqs := Dqs(s, h, w);
      (r == Err(Corr(NegativeCounts)) <==>
         || StackNegative(data, dqs, thresh, g, el, niter, h, w)
         || StackNegative(Shifted(data, Errs(s, h, w), 1.0, h, w), dqs, thresh, g, el, niter, h, w)
         || StackNegative(Shifted(data, Errs(s, h, w), -1.0, h, w), dqs, thresh, g, el, niter, h, w))
    ensures r.Ok? ==>
      var g := ResolveGain(s[0].hdr);
      var data := Datas(s, h, w);
      var dqs := Dqs(s, h, w);
      && thresh >= 0.0 && niter >= 1 && g != 0.0
      && r.value.mean == MeanMap(data, dqs, thresh, g, el, niter, h, w)
      && (MeanMapMeaning(data, dqs, thresh, g, el, niter, h, w);
          r.value.err == ErrorMap(r.value.mean,
                                  MeanMap(Shifted(data, Errs(s, h, w), 1.0, h, w), dqs, thresh, g, el, niter, h, w),
                                  MeanMap(Shifted(data, Errs(s, h, w), -1.0, h, w), dqs, thresh, g, el, niter, h, w),
                                  NFramesMap(dqs, h, w), g, thresh, el, h, w))
      && r.value.dq == DqMap(s, h, w)
      && r.value.advisories == Advisories(thresh, g, s[0].hdr.rn, StackMean(data, h, w))
  {
    if thresh < 0.0 {
      return Err(NegativeThreshold);
    }
    if niter < 1 {
      return Err(BadNiter);
    }
    var g := ResolveGain(s[0].hdr);
    var data := Datas(s, h, w);
    var errs := Errs(s, h, w);
    var dqs := Dqs(s, h, w);
    var advisories := Advisories(thresh, g, s[0].hdr.rn, StackMean(data, h, w));
    var mean := CorrectedMean(data, dqs, thresh, g, el, niter, h, w);
    if mean.Err? {
      return Err(Corr(mean.error));
    }
    var meanUp := CorrectedMean(Shifted(data, errs, 1.0, h, w), dqs, thresh, g, el, niter, h, w);
    if meanUp.Err? {
      return Err(Corr(meanUp.error));
    }
    var meanLow := CorrectedMean(Shifted(data, errs, -1.0, h, w), dqs, thresh, g, el, niter, h, w);
    if meanLow.Err? {
      return Err(Corr(meanLow.error));
    }
    var err := ErrorMap(mean.value, meanUp.value, meanLow.value, NFramesMap(dqs, h, w),
                        g, thresh, el, h, w);
    var dq := DqMap(s, h, w);
    r := Ok(StackResult(mean.value, err, dq, advisories));
  }

  /** The combined image of the two stacks. */
  datatype Combined = Combined(rate: seq<seq<real>>, err: seq<seq<Float>>, dq: seq<seq<int>>)

  /** The error of two stacks added in quadrature, NaN when either is. */
  function Quadrature(a: Float, b: Float, el: Elementary): (e: Float)
    requires Lawful(el)
    ensures e.Fin? <==> a.Fin? && b.Fin?
    ensures e.Fin? ==> e.v >= 0.0 && e.v * e.v == a.v * a.v + b.v * b.v
  {
    if a.NaN? || b.NaN? then NaN
    else
      assert a.v * a.v + b.v * b.v >= 0.0;
      Fin(el.sqrt(a.v * a.v + b.v * b.v))
  }

  /** Dark subtraction clipped at 0, errors added in quadrature, DQ flags OR-ed. */
  function Combine(ill: StackResult, dark: StackResult, el: Elementary, h: nat, w: nat): (c: Combined)
    requires Lawful(el)
    requires IsRect(ill.mean, h, w) && IsRect(ill.err, h, w) && IsRect(ill.dq, h, w)
    requires IsRect(dark.mean, h, w) && IsRect(dark.err, h, w) && IsRect(dark.dq, h, w)
    ensures IsRect(c.rate, h, w) && IsRect(c.err, h, w) && IsRect(c.dq, h, w)
    ensures forall i, j :: 0 <= i < h && 0 <= j < w ==>
      && c.rate[i][j] >= 0.0
      && (ill.mean[i][j] >= dark.mean[i][j] ==> c.rate[i][j] == ill.mean[i][j] - dark.mean[i][j])
      && (ill.mean[i][j] <= dark.mean[i][j] ==> c.rate[i][j] == 0.0)
      && (c.err[i][j].Fin? <==> ill.err[i][j].Fin? && dark.err[i][j].Fin?)
      && (c.err[i][j].Fin? ==>
            && c.err[i][j].v >= 0.0
            && c.err[i][j].v * c.err[i][j].v ==
               ill.err[i][j].v * ill.err[i][j].v + dark.err[i][j].v * dark.err[i][j].v)
      && (c.dq[i][j] == 0 || c.dq[i][j] == 1)
      && (c.dq[i][j] == 1 <==> ill.dq[i][j] != 0 || dark.dq[i][j] != 0)
  {
    Combined(
      seq(h, i requires 0 <= i < h => seq(w, j requires 0 <= j < w =>
        Max(ill.mean[i][j] - dark.mean[i][j], 0.0))),
      seq(h, i requires 0 <= i < h => seq(w, j requires 0 <= j < w =>
        Quadrature(ill.err[i][j], dark.err[i][j], el))),
      seq(h, i requires 0 <= i < h => seq(w, j requires 0 <= j < w =>
        if ill.dq[i][j] != 0 || dark.dq[i][j] != 0 then 1 else 0)))
  }

  /** With two values in the set and 'DARK' one of them, the other exists. */
  lemma OtherVisType(vs: set<string>)
    requires |vs| == 2 && "DARK" in vs
    ensures exists v :: v in vs && v != "DARK"
  {
    var rest := vs - {"DARK"};
    assert |rest| == 1;
    var v :| v in rest;
  }

  /** What the photon-counted maps guarantee at every pixel: a
      non-negative rate that is 0 wherever the illuminated stack has no
      valid frame, an error that is non-negative where it is a number, and
      a flag of 1 exactly where either stack has no valid frame, with a NaN
      error there. */
  predicate MapsOk(ill: seq<Frame>, dark: seq<Frame>, rate: seq<seq<real>>, err: seq<seq<Float>>,
                   dq: seq<seq<int>>, h: nat, w: nat)
    requires FramesShaped(ill, h, w) && FramesShaped(dark, h, w)
  {
    && IsRect(rate, h, w) && IsRect(err, h, w) && IsRect(dq, h, w)
    && forall i, j :: 0 <= i < h && 0 <= j < w ==>
         && rate[i][j] >= 0.0
         && (err[i][j].Fin? ==> err[i][j].v >= 0.0)
         && (dq[i][j] == 0 || dq[i][j] == 1)
         && (dq[i][j] == 1 <==> NoValidFrame(ill, h, w, i, j) || NoValidFrame(dark, h, w, i, j))
         && (dq[i][j] == 1 ==> err[i][j].NaN?)
         && (NoValidFrame(ill, h, w, i, j) ==> rate[i][j] == 0.0)
  }

  /** The rate map is the corrected mean of the illuminated stack less that
      of the dark stack, clipped at 0, pixel by pixel. */
  predicate DarkSubtracted(ill: seq<Frame>, dark: seq<Frame>, thresh: real, niter: int, el: Elementary,
                           rate: seq<seq<real>>, h: nat, w: nat)
    requires |ill| > 0 && |dark| > 0 && FramesShaped(ill, h, w) && FramesShaped(dark, h, w) && Lawful(el)
  {
    && niter >= 1 && ResolveGain(ill[0].hdr) != 0.0 && ResolveGain(dark[0].hdr) != 0.0 && IsRect(rate, h, w)
    && var il := MeanMap(Datas(ill, h, w), Dqs(ill, h, w), thresh, ResolveGain(ill[0].hdr), el, niter, h, w);
       var dk := MeanMap(Datas(dark, h, w), Dqs(dark, h, w), thresh, ResolveGain(dark[0].hdr), el, niter, h, w);
       forall i, j :: 0 <= i < h && 0 <= j < w ==> rate[i][j] == Max(il[i][j] - dk[i][j], 0.0)
  }

  /** Combining two processed stacks gives maps that meet MapsOk. */
  lemma CombinedStacksOk(sIll: seq<Frame>, sDark: seq<Frame>, ill: StackResult, dark: StackResult,
                         el: Elementary, h: nat, w: nat)
    requires Lawful(el) && FramesShaped(sIll, h, w) && FramesShaped(sDark, h, w)
    requires StackOk(sIll, ill, h, w) && StackOk(sDark, dark, h, w)
    ensures var c := Combine(ill, dark, el, h, w); MapsOk(sIll, sDark, c.rate, c.err, c.dq, h, w)
  {
  }

  /** Combining the corrected means of two stacks gives their clipped
      difference as the rate. */
  lemma CombinedRate(sIll: seq<Frame>, sDark: seq<Frame>, ill: StackResult, dark: StackResult,
                     thresh: real, niter: int, el: Elementary, h: nat, w: nat)
    requires |sIll| > 0 && |sDark| > 0 && FramesShaped(sIll, h, w) && FramesShaped(sDark, h, w) && Lawful(el)
    requires niter >= 1 && ResolveGain(sIll[0].hdr) != 0.0 && ResolveGain(sDark[0].hdr) != 0.0
    requires IsRect(ill.mean, h, w) && IsRect(ill.err, h, w) && IsRect(ill.dq, h, w)
    requires IsRect(dark.mean, h, w) && IsRect(dark.err, h, w) && IsRect(dark.dq, h, w)
    requires ill.mean == MeanMap(Datas(sIll, h, w), Dqs(sIll, h, w), thresh, ResolveGain(sIll[0].hdr), el, niter, h, w)
    requires dark.mean == MeanMap(Datas(sDark, h, w), Dqs(sDark, h, w), thresh, ResolveGain(sDark[0].hdr), el, niter, h, w)
    ensures DarkSubtracted(sIll, sDark, thresh, niter, el, Combine(ill, dark, el, h, w).rate, h, w)
  {
    var c := Combine(ill, dark, el, h, w);
    forall i, j | 0 <= i < h && 0 <= j < w
      ensures c.rate[i][j] == Max(ill.mean[i][j] - dark.mean[i][j], 0.0)
    {
    }
  }

  /** The loop of get_pc_mean over the illuminated stack, then the dark
      stack, with one threshold for both: the first stack to raise ends it,
      and otherwise the two results are combined and their advisories
      joined. */
  function StacksOutcome(ill: seq<Frame>, dark: seq<Frame>, thresh: real, niter: int, el: Elementary,
                         h: nat, w: nat): Result<(Combined, seq<Advisory>), PcError>
    requires |ill| > 0 && |dark| > 0 && FramesShaped(ill, h, w) && FramesShaped(dark, h, w) && Lawful(el)
  {
    var il := StackOutcome(ill, thresh, niter, el, h, w);
    var dk := StackOutcome(dark, thresh, niter, el, h, w);
    if il.Err? then Err(il.error)
    else if dk.Err? then Err(dk.error)
    else Ok((Combine(il.value, dk.value, el, h, w), il.value.advisories + dk.value.advisories))
  }

  /** What get_pc_mean returns for an illuminated and a dark stack with one
      threshold: a negative threshold, then niter < 1 raise exactly; the
      first stack to raise ends the loop; otherwise the image holds the
      combined maps, the history entry and both stacks' advisories, its maps
      meet MapsOk, and its rate is the clipped difference of the corrected
      means. */
  predicate PcOutcome(ill: seq<Frame>, dark: seq<Frame>, thresh: real, niter: int, el: Elementary,
                      h: nat, w: nat, history: History, r: Result<PcImage, PcError>)
    requires |ill| > 0 && |dark| > 0 && FramesShaped(ill, h, w) && FramesShaped(dark, h, w) && Lawful(el)
  {
    && (thresh < 0.0 <==> r == Err(NegativeThreshold))
    && (thresh >= 0.0 ==> (niter < 1 <==> r == Err(BadNiter)))
    && (var o := StacksOutcome(ill, dark, thresh, niter, el, h, w);
        && (o.Err? ==> r == Err(o.error))
        && (o.Ok? ==> r == Ok(PcImage(o.value.0.rate, o.value.0.err, o.value.0.dq, history, o.value.1))))
    && (r.Ok? ==>
          && thresh >= 0.0 && niter >= 1 && r.value.history == history
          && MapsOk(ill, dark, r.value.rate, r.value.err, r.value.dq, h, w)
          && DarkSubtracted(ill, dark, thresh, niter, el, r.value.rate, h, w))
  }

  /** The loop of get_pc_mean over the illuminated stack, then the dark
      stack, with one threshold for both, and the combination of the two
      results into the photon-counted image. */
  method PcMeanOfStacks(ill: seq<Frame>, dark: seq<Frame>, thresh: real, niter: int, history: History,
                        el: Elementary, h: nat, w: nat)
    returns (r: Result<PcImage, PcError>)
    requires |ill| > 0 && |dark| > 0 && FramesShaped(ill, h, w) && FramesShaped(dark, h, w) && Lawful(el)
    ensures PcOutcome(ill, dark, thresh, niter, el, h, w, history, r)
  {
    var illRes := ProcessStack(ill, thresh, niter, el, h, w);
    if illRes.Err? {
      return Err(illRes.error);
    }
    var darkRes := ProcessStack(dark, thresh, niter, el, h, w);
    if darkRes.Err? {
      return Err(darkRes.error);
    }
    StackOutcomeOk(ill, thresh, niter, el, h, w);
    StackOutcomeOk(dark, thresh, niter, el, h, w);
    CombinedStacksOk(ill, dark, illRes.value, darkRes.value, el, h, w);
    CombinedRate(ill, dark, illRes.value, darkRes.value, thresh, niter, el, h, w);
    var c := Combine(illRes.value, darkRes.value, el, h, w);
    r := Ok(PcImage(c.rate, c.err, c.dq, history, illRes.value.advisories + darkRes.value.advisories));
  }

  /** The dataset checks of get_pc_mean, in the order the source makes
      them, and the two stacks when they all pass. */
  function SplitDataset(ds: seq<Frame>): (r: Result<(seq<Frame>, seq<Frame>), PcError>)
    ensures |ds| == 0 <==> r == Err(NoFrames)
    ensures |ds| > 0 ==> (!UniformConfig(ds) <==> r == Err(MixedConfig))
    ensures |ds| > 0 && UniformConfig(ds) ==> (|VisTypes(ds)| != 2 <==> r == Err(NotTwoStacks))
    ensures |ds| > 0 && UniformConfig(ds) && |VisTypes(ds)| == 2 ==>
      ("DARK" !in VisTypes(ds) <==> r == Err(NoDarkStack))
    ensures r.Ok? <==> Splits(ds)
    ensures r.Ok? ==> r.value == Stacks(ds)
  {
    if |ds| == 0 then Err(NoFrames)
    else if !UniformConfig(ds) then Err(MixedConfig)
    else if |VisTypes(ds)| != 2 then Err(NotTwoStacks)
    else if "DARK" !in VisTypes(ds) then Err(NoDarkStack)
    else Ok(Stacks(ds))
  }

  /** get_pc_mean. Both stacks share the dataset's read noise, so the
      threshold T_factor * RN the loop computes per stack is computed once. */
  method GetPcMean(ds: seq<Frame>, tFactor: real, niter: int, el: Elementary, h: nat, w: nat)
    returns (r: Result<PcImage, PcError>)
    requires FramesShaped(ds, h, w) && Lawful(el)
    ensures SplitDataset(ds).Err? ==> r == Err(SplitDataset(ds).error)
    ensures r.Ok? ==> Splits(ds)
    ensures Splits(ds) ==>
      PcOutcome(Stacks(ds).0, Stacks(ds).1, tFactor * ds[0].hdr.rn, niter, el, h, w,
                History(|ds|, tFactor, niter), r)
  {
    var split := SplitDataset(ds);
    if split.Err? {
      return Err(split.error);
    }
    var st := split.value;
    assert st == Stacks(ds);
    var thresh := tFactor * ds[0].hdr.rn;
    r := PcMeanOfStacks(st.0, st.1, thresh, niter, History(|ds|, tFactor, niter), el, h, w);
  }
}
