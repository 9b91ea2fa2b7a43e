/** Correction of co-added photon counts for thresholding and coincidence
    loss: a first guess for the mean expected count lambda, refined by a
    fixed number of Newton steps under numpy's masked-array rules.

    All maps here are 2-D (row, column); nobs is the co-added count map and
    nfr the valid-frame count map of one stack. */
module CoincidenceLoss {
  import opened Base

  /** The exceptions corr_photon_count can raise. */
  datatype CorrError =
    | ZeroGain        // t / g with g == 0 (ZeroDivisionError)
    | EmptyReduction  // nanmin of a zero-size map (ValueError)
    | NegativeCounts  // a negative estimate after iteration (PhotonCountException)

  /** The smallest positive normal double, 2^-1022: numpy's tolerance for
      masked division. */
  const Tiny: real := 1.0 / 44942328371557897693232629769725618340449424473557664318357520289433168951375240783177119330601884005280028469967848339414697442203604155623211857659868531094441973356216371319075554900311523529863270738021251442209537670585615720368478277635206809290837627671146574559986811484619929076208839082406056034304.0

  /** Masked-array division: the quotient is masked (None) where
      |a| * Tiny >= |b|, in particular wherever b == 0. */
  function MaDiv(a: real, b: real): (q: Option<real>)
    ensures q.Some? <==> Abs(a) * Tiny < Abs(b)
    ensures q.Some? ==> b != 0.0 && q.value * b == a
    ensures a == 0.0 && b != 0.0 ==> q == Some(0.0)
  {
    if Abs(a) * Tiny >= Abs(b) then None else Some(a / b)
  }

  /** Threshold, EM gain, and e == exp(t / g). */
  datatype Params = Params(t: real, g: real, e: real)

  /** The argument of the logarithm in the first-order guess. */
  function Init(nobs: nat, nfr: nat, e: real): real
    requires nfr > 0
  {
    1.0 - (nobs as real / nfr as real) * e
  }

  /** calc_lam_approx at one pixel: the first-order guess -log(init) where
      init = 1 - (nobs / nfr) * e is positive, the zeroth-order guess
      nobs / nfr elsewhere, and NaN (0 / 0) where no frame is valid. */
  function LamApprox(nobs: nat, nfr: nat, e: real, el: Elementary): (l: Float)
    requires e > 0.0 && Lawful(el)
    requires nfr > 0 || nobs == 0
    ensures l.NaN? <==> nfr == 0
    ensures nfr > 0 ==> l.Fin? && l.v >= 0.0
    ensures nfr > 0 && nobs == 0 ==> l == Fin(0.0)
    ensures nfr > 0 && Init(nobs, nfr, e) > 0.0 ==> l == Fin(-el.log(Init(nobs, nfr, e)))
    ensures nfr > 0 && Init(nobs, nfr, e) <= 0.0 ==> l == Fin(nobs as real / nfr as real)
  {
    if nfr == 0 then NaN
    else if Init(nobs, nfr, e) > 0.0 then Fin(-el.log(Init(nobs, nfr, e)))
    else Fin(nobs as real / nfr as real)
  }

  function Cubic(lam: real): real {
    6.0 + lam * (6.0 + lam * (3.0 + lam))
  }

  function Numer(lam: real, t: real, g: real): real {
    2.0 * g * g * (6.0 + lam * (3.0 + lam)) + 2.0 * g * lam * (3.0 + lam) * t + lam * lam * t * t
  }

  /** 2 e^(t/g) g^2 c: the shape of every denominator in the objective. */
  function Scale(p: Params, c: real): real {
    2.0 * p.e * p.g * p.g * c
  }

  /** epsilon_prime of _calc_func: the expected above-threshold fraction. */
  function Eps(p: Params, lam: real): Option<real> {
    MaDiv(lam * Numer(lam, p.t, p.g), Scale(p, Cubic(lam)))
  }

  /** _calc_func: nfr * epsilon_prime - nobs, masked where nobs == 0. */
  function Func(nobs: nat, nfr: nat, p: Params, lam: real): Option<real> {
    if nobs == 0 then None
    else
      match Eps(p, lam)
      case None => None
      case Some(eps) => Some(nfr as real * eps - nobs as real)
  }

  /** _calc_dfunc, term by term. */
  function DFunc(nfr: nat, p: Params, lam: real): Option<real> {
    var n := nfr as real;
    var t := p.t;
    var g := p.g;
    var a := MaDiv(lam * n * (2.0 * g * g * (3.0 + 2.0 * lam) + 2.0 * g * lam * t
                              + 2.0 * g * (3.0 + lam) * t + 2.0 * lam * t * t),
                   Scale(p, Cubic(lam)));
    var b := MaDiv(lam * (6.0 + lam * (3.0 + lam) + lam * (3.0 + 2.0 * lam)) * n * Numer(lam, t, g),
                   Scale(p, Cubic(lam) * Cubic(lam)));
    var c := MaDiv(n * Numer(lam, t, g), Scale(p, Cubic(lam)));
    if a.Some? && b.Some? && c.Some? then Some(a.value - b.value + c.value) else None
  }

  /** The objective is masked wherever no count passed the threshold, and
      elsewhere exactly where epsilon_prime is; a root of it is a pixel
      whose expected above-threshold count nfr * epsilon_prime equals the
      observed count nobs. */
  lemma RootMeaning(nobs: nat, nfr: nat, p: Params, lam: real)
    ensures nobs == 0 ==> Func(nobs, nfr, p, lam).None?
    ensures nobs > 0 ==> (Func(nobs, nfr, p, lam).Some? <==> Eps(p, lam).Some?)
    ensures Func(nobs, nfr, p, lam) == Some(0.0) ==> nfr as real * Eps(p, lam).value == nobs as real
  {
  }

  /** The denominators are positive for positive e and c and nonzero g. */
  lemma PositiveScale(p: Params, c: real)
    requires p.e > 0.0 && p.g != 0.0 && c > 0.0
    ensures Scale(p, c) > 0.0
  {
    var x := 2.0 * p.e * p.g;
    if p.g > 0.0 {
      assert x > 0.0;
      assert x * p.g > 0.0;
    } else {
      assert x < 0.0;
      assert x * p.g > 0.0;
    }
    var y := x * p.g;
    assert y * c > 0.0;
  }

  /** At lam == 0 nothing is expected above the threshold: epsilon_prime
      is 0 and the objective is -nobs. */
  lemma ObjectiveAtZero(nobs: nat, nfr: nat, p: Params)
    requires p.e > 0.0 && p.g != 0.0
    ensures Eps(p, 0.0) == Some(0.0)
    ensures nobs > 0 ==> Func(nobs, nfr, p, 0.0) == Some(-(nobs as real))
  {
    PositiveScale(p, Cubic(0.0));
  }

  /** The slope at lam == 0 is nfr / e, that is nfr e^(-t/g), where numpy
      leaves it unmasked. */
  lemma SlopeAtZero(nfr: nat, p: Params)
    requires p.e > 0.0 && p.g != 0.0
    ensures DFunc(nfr, p, 0.0).Some? <==> nfr as real * Tiny < p.e
    ensures DFunc(nfr, p, 0.0).Some? ==> DFunc(nfr, p, 0.0).value * p.e == nfr as real
  {
    PositiveScale(p, Cubic(0.0));
    PositiveScale(p, Cubic(0.0) * Cubic(0.0));
    var n := nfr as real;
    var k := 12.0 * (p.g * p.g);
    assert Scale(p, Cubic(0.0)) == k * p.e;
    assert n * Numer(0.0, p.t, p.g) == k * n;
    var c := MaDiv(k * n, k * p.e);
    CommonFactor(k, n, p.e);
    var ta := 0.0 * n * (2.0 * p.g * p.g * (3.0 + 2.0 * 0.0) + 2.0 * p.g * 0.0 * p.t
                         + 2.0 * p.g * (3.0 + 0.0) * p.t + 2.0 * 0.0 * p.t * p.t);
    assert ta == 0.0;
    assert MaDiv(ta, Scale(p, Cubic(0.0))) == Some(0.0);
    var tb := 0.0 * (6.0 + 0.0 * (3.0 + 0.0) + 0.0 * (3.0 + 2.0 * 0.0)) * n * Numer(0.0, p.t, p.g);
    assert tb == 0.0;
    assert MaDiv(tb, Scale(p, Cubic(0.0) * Cubic(0.0))) == Some(0.0);
    assert DFunc(nfr, p, 0.0) == (if c.Some? then Some(0.0 - 0.0 + c.value) else None);
  }

  /** A positive common factor cancels in a masked quotient. */
  lemma CommonFactor(k: real, a: real, b: real)
    requires k > 0.0 && b > 0.0
    ensures MaDiv(k * a, k * b).Some? <==> Abs(a) * Tiny < b
    ensures MaDiv(k * a, k * b).Some? ==> MaDiv(k * a, k * b).value * b == a
  {
    var q := MaDiv(k * a, k * b);
    assert Abs(k * a) == k * Abs(a);
    assert Abs(k * b) == k * b;
    assert (k * Abs(a)) * Tiny == k * (Abs(a) * Tiny);
    if q.Some? {
      assert k * (q.value * b) == k * a;
    }
  }

  /** lambda - f / df on masked values: defined exactly when f and df are
      and the masked quotient is. A defined step lands on the root of the
      tangent line through (lambda, f) with slope df, so a root of F is a
      fixed point. */
  function NewtonStep(lam: real, f: Option<real>, df: Option<real>): (r: Option<real>)
    ensures r.Some? <==> f.Some? && df.Some? && Abs(f.value) * Tiny < Abs(df.value)
    ensures r.Some? ==> df.value != 0.0 && f.value + df.value * (r.value - lam) == 0.0
    ensures f == Some(0.0) && df.Some? && df.value != 0.0 ==> r == Some(lam)
  {
    match (f, df)
    case (Some(fv), Some(dv)) =>
      (match MaDiv(fv, dv)
       case None => None
       case Some(q) => Some(lam - q))
    case _ => None
  }

  /** One Newton update of lam_newton_fit at one pixel, with the objective
      of _calc_func and the derivative of _calc_dfunc. */
  function Update(nobs: nat, nfr: nat, p: Params, lam: real): Option<real> {
    NewtonStep(lam, Func(nobs, nfr, p, lam), DFunc(nfr, p, lam))
  }

  /** The state of one pixel of the masked estimate: its raw data value and
      whether it is masked. */
  datatype Est = Est(raw: Float, masked: bool)

  /** One iteration of the loop body at one pixel: `-=` ORs the quotient's
      mask into the estimate and leaves masked data unchanged. */
  function Step(nobs: nat, nfr: nat, p: Params, s: Est): Est {
    if s.masked then s
    else
      match s.raw
      case NaN => Est(NaN, true)
      case Fin(l) =>
        (match Update(nobs, nfr, p, l)
         case None => Est(s.raw, true)
         case Some(l2) => Est(Fin(l2), false))
  }

  /** The pixel after k iterations, starting from lam0 masked where it is 0. */
  function Fit(nobs: nat, nfr: nat, p: Params, lam0: Float, k: nat): Est
    decreases k
  {
    if k == 0 then Est(lam0, lam0 == Fin(0.0))
    else Step(nobs, nfr, p, Fit(nobs, nfr, p, lam0, k - 1))
  }

  /** Plain Newton iteration, with no masking: k updates from lam. */
  function Newton(nobs: nat, nfr: nat, p: Params, lam: real, k: nat): Option<real>
    decreases k
  {
    if k == 0 then Some(lam)
    else
      match Newton(nobs, nfr, p, lam, k - 1)
      case None => None
      case Some(l) => Update(nobs, nfr, p, l)
  }

  /** filled(0): masked pixels read 0. */
  function Filled(s: Est): Float {
    if s.masked then Fin(0.0) else s.raw
  }

  /** range(niter) has max(niter, 0) elements. */
  function Iterations(niter: int): nat {
    if niter < 0 then 0 else niter
  }

  /** A pixel starting from a nonzero finite guess stays unmasked exactly
      when all k plain Newton updates are defined, and then holds the
      result of exactly k updates. */
  lemma {:induction false} UnmaskedPixelsTakeEveryStep(nobs: nat, nfr: nat, p: Params, lam0: real, k: nat)
    requires lam0 != 0.0
    ensures !Fit(nobs, nfr, p, Fin(lam0), k).masked <==> Newton(nobs, nfr, p, lam0, k).Some?
    ensures !Fit(nobs, nfr, p, Fin(lam0), k).masked ==>
      Fit(nobs, nfr, p, Fin(lam0), k).raw == Fin(Newton(nobs, nfr, p, lam0, k).value)
  {
    if k > 0 {
      UnmaskedPixelsTakeEveryStep(nobs, nfr, p, lam0, k - 1);
      var prev := Fit(nobs, nfr, p, Fin(lam0), k - 1);
      if !prev.masked {
        assert prev.raw == Fin(Newton(nobs, nfr, p, lam0, k - 1).value);
      }
    }
  }

  /** A pixel whose guess is 0, or (once an iteration has run) whose co-added
      count is 0, is masked throughout and keeps its initial data. */
  lemma {:induction false} MaskedPixelsAreFrozen(nobs: nat, nfr: nat, p: Params, lam0: Float, k: nat)
    requires lam0 == Fin(0.0) || (nobs == 0 && k >= 1)
    ensures Fit(nobs, nfr, p, lam0, k) == Est(lam0, true)
  {
    if k > 0 {
      if k - 1 == 0 {
        assert Fit(nobs, nfr, p, lam0, 0) == Est(lam0, lam0 == Fin(0.0));
      } else {
        MaskedPixelsAreFrozen(nobs, nfr, p, lam0, k - 1);
      }
    }
  }

  /** After at least one iteration an unmasked pixel holds a finite value. */
  lemma UnmaskedIsFinite(nobs: nat, nfr: nat, p: Params, lam0: Float, k: nat)
    requires k >= 1
    ensures !Fit(nobs, nfr, p, lam0, k).masked ==> Fit(nobs, nfr, p, lam0, k).raw.Fin?
  {
  }

  /** np.fmin: the smaller value, ignoring NaN. */
  function FMin(a: Float, b: Float): Float {
    if a.NaN? then b
    else if b.NaN? then a
    else if a.v <= b.v then a
    else b
  }

  /** nanmin of a vector: NaN when every entry is NaN, else the least
      non-NaN entry. numpy refuses an empty vector; every caller here rules
      that case out first, and the empty case reads NaN only to keep the
      function total. */
  function NanMin(xs: seq<Float>): (m: Float)
    ensures m.NaN? <==> forall k :: 0 <= k < |xs| ==> xs[k].NaN?
    ensures m.Fin? ==> forall k :: 0 <= k < |xs| && xs[k].Fin? ==> m.v <= xs[k].v
    ensures m.Fin? ==> exists k :: 0 <= k < |xs| && xs[k] == m
  {
    if |xs| == 0 then NaN
    else
      var rest := NanMin(xs[1..]);
      assert rest.Fin? ==> exists k :: 0 <= k < |xs| && xs[k] == rest by {
        if rest.Fin? {
          var k :| 0 <= k < |xs[1..]| && xs[1..][k] == rest;
          assert xs[k + 1] == rest;
        }
      }
      FMin(xs[0], rest)
  }

  /** The raw data of an estimate map. */
  function RawMap(est: seq<seq<Est>>, h: nat, w: nat): (m: seq<seq<Float>>)
    requires IsRect(est, h, w)
    ensures IsRect(m, h, w)
    ensures forall i, j :: 0 <= i < h && 0 <= j < w ==> m[i][j] == est[i][j].raw
  {
    seq(h, i requires 0 <= i < h => seq(w, j requires 0 <= j < w => est[i][j].raw))
  }

  /** nanmin of a 2-D map, taken as the nanmin of the row nanmins. */
  function NanMin2(m: seq<seq<Float>>): Float {
    NanMin(seq(|m|, i requires 0 <= i < |m| => NanMin(m[i])))
  }

  predicate NegativeEntry(m: seq<seq<Float>>, i: int, j: int)
    requires 0 <= i < |m| && 0 <= j < |m[i]|
  {
    m[i][j].Fin? && m[i][j].v < 0.0
  }

  /** The nanmin of a map is negative exactly when some non-NaN entry is. */
  lemma NanMin2Negative(m: seq<seq<Float>>)
    ensures (NanMin2(m).Fin? && NanMin2(m).v < 0.0) <==>
      exists i, j :: 0 <= i < |m| && 0 <= j < |m[i]| && NegativeEntry(m, i, j)
  {
    var rows := seq(|m|, i requires 0 <= i < |m| => NanMin(m[i]));
    if exists i, j :: 0 <= i < |m| && 0 <= j < |m[i]| && NegativeEntry(m, i, j) {
      var i, j :| 0 <= i < |m| && 0 <= j < |m[i]| && NegativeEntry(m, i, j);
      assert rows[i] == NanMin(m[i]);
    }
    if NanMin2(m).Fin? && NanMin2(m).v < 0.0 {
      var i :| 0 <= i < |rows| && rows[i] == NanMin2(m);
      var j :| 0 <= j < |m[i]| && m[i][j] == rows[i];
      assert NegativeEntry(m, i, j);
    }
  }

  /** The loop body over a whole map. */
  function StepMap(nobs: seq<seq<nat>>, nfr: seq<seq<nat>>, p: Params, est: seq<seq<Est>>, h: nat, w: nat)
    : (r: seq<seq<Est>>)
    requires IsRect(nobs, h, w) && IsRect(nfr, h, w) && IsRect(est, h, w)
    ensures IsRect(r, h, w)
    ensures forall i, j :: 0 <= i < h && 0 <= j < w ==> r[i][j] == Step(nobs[i][j], nfr[i][j], p, est[i][j])
  {
    seq(h, i requires 0 <= i < h =>
      seq(w, j requires 0 <= j < w => Step(nobs[i][j], nfr[i][j], p, est[i][j])))
  }

  /** Whether the raw value of pixel (i, j) is negative after the iterations. */
  predicate EndsNegative(nobs: seq<seq<nat>>, nfr: seq<seq<nat>>, p: Params, lam0: seq<seq<Float>>,
                         niter: int, i: int, j: int)
    requires 0 <= i < |nobs| && 0 <= i < |nfr| && 0 <= i < |lam0|
    requires 0 <= j < |nobs[i]| && 0 <= j < |nfr[i]| && 0 <= j < |lam0[i]|
  {
    var s := Fit(nobs[i][j], nfr[i][j], p, lam0[i][j], Iterations(niter));
    s.raw.Fin? && s.raw.v < 0.0
  }

  /** lam_newton_fit: iterate the whole map, raise on a negative raw value
      (masked positions included), and fill masked pixels with 0. */
  method LamNewtonFit(nobs: seq<seq<nat>>, nfr: seq<seq<nat>>, p: Params, lam0: seq<seq<Float>>,
                      niter: int, h: nat, w: nat)
    returns (r: Result<seq<seq<Float>>, CorrError>)
    requires IsRect(nobs, h, w) && IsRect(nfr, h, w) && IsRect(lam0, h, w)
    ensures (h == 0 || w == 0) ==> r == Err(EmptyReduction)
    ensures h > 0 && w > 0 ==>
      (r == Err(NegativeCounts) <==>
       exists i, j :: 0 <= i < h && 0 <= j < w && EndsNegative(nobs, nfr, p, lam0, niter, i, j))
    ensures h > 0 && w > 0 && r.Err? ==> r.error == NegativeCounts
    ensures r.Ok? ==> IsRect(r.value, h, w)
    ensures r.Ok? ==> forall i, j :: 0 <= i < h && 0 <= j < w ==>
      r.value[i][j] == Filled(Fit(nobs[i][j], nfr[i][j], p, lam0[i][j], Iterations(niter)))
  {
    var est := seq(h, i requires 0 <= i < h =>
      seq(w, j requires 0 <= j < w => Est(lam0[i][j], lam0[i][j] == Fin(0.0))));
    var k := 0;
    while k < niter
      invariant 0 <= k <= Iterations(niter)
      invariant IsRect(est, h, w)
      invariant forall i, j :: 0 <= i < h && 0 <= j < w ==>
        est[i][j] == Fit(nobs[i][j], nfr[i][j], p, lam0[i][j], k)
    {
      est := StepMap(nobs, nfr, p, est, h, w);
      k := k + 1;
    }
    assert k == Iterations(niter);
    if h == 0 || w == 0 {
      return Err(EmptyReduction);
    }
    var raw := RawMap(est, h, w);
    var lowest := NanMin2(raw);
    NanMin2Negative(raw);
    assert (exists i, j :: 0 <= i < |raw| && 0 <= j < |raw[i]| && NegativeEntry(raw, i, j)) <==>
           (exists i, j :: 0 <= i < h && 0 <= j < w && EndsNegative(nobs, nfr, p, lam0, niter, i, j)) by {
      forall i, j | 0 <= i < h && 0 <= j < w
        ensures NegativeEntry(raw, i, j) <==> EndsNegative(nobs, nfr, p, lam0, niter, i, j)
      {
      }
    }
    if lowest.Fin? && lowest.v < 0.0 {
      return Err(NegativeCounts);
    }
    r := Ok(seq(h, i requires 0 <= i < h => seq(w, j requires 0 <= j < w => Filled(est[i][j]))));
  }

  /** The parameters corr_photon_count derives from threshold t and gain g. */
  function ParamsOf(t: real, g: real, el: Elementary): (p: Params)
    requires g != 0.0 && Lawful(el)
    ensures p.t == t && p.g == g && p.e == el.exp(t / g) && p.e > 0.0
  {
    Params(t, g, el.exp(t / g))
  }

  /** One pixel of corr_photon_count, as a closed form: the first guess from
      calc_lam_approx followed by max(niter, 0) masked Newton updates. */
  function PixelFit(nobs: nat, nfr: nat, t: real, g: real, el: Elementary, niter: int): Est
    requires g != 0.0 && Lawful(el) && (nfr > 0 || nobs == 0)
  {
    var p := ParamsOf(t, g, el);
    Fit(nobs, nfr, p, LamApprox(nobs, nfr, p.e, el), Iterations(niter))
  }

  /** The pixel raises PhotonCountException: its raw estimate ends negative. */
  predicate PixelEndsNegative(nobs: nat, nfr: nat, t: real, g: real, el: Elementary, niter: int)
    requires g != 0.0 && Lawful(el) && (nfr > 0 || nobs == 0)
  {
    var s := PixelFit(nobs, nfr, t, g, el, niter);
    s.raw.Fin? && s.raw.v < 0.0
  }

  /** The value corr_photon_count reports at a pixel: the fit, masked
      pixels filled with 0. */
  function CorrectedPixel(nobs: nat, nfr: nat, t: real, g: real, el: Elementary, niter: int): Float
    requires g != 0.0 && Lawful(el) && (nfr > 0 || nobs == 0)
  {
    Filled(PixelFit(nobs, nfr, t, g, el, niter))
  }

  /** What a reported pixel means once an iteration has run: a finite value,
      non-negative unless the pixel raises, and 0 where nothing was counted
      or no frame is valid. */
  lemma CorrectedPixelMeaning(nobs: nat, nfr: nat, t: real, g: real, el: Elementary, niter: int)
    requires g != 0.0 && Lawful(el) && (nfr > 0 || nobs == 0) && niter >= 1
    ensures CorrectedPixel(nobs, nfr, t, g, el, niter).Fin?
    ensures !PixelEndsNegative(nobs, nfr, t, g, el, niter) ==> CorrectedPixel(nobs, nfr, t, g, el, niter).v >= 0.0
    ensures nobs == 0 ==> CorrectedPixel(nobs, nfr, t, g, el, niter) == Fin(0.0)
  {
    var p := ParamsOf(t, g, el);
    var lam0 := LamApprox(nobs, nfr, p.e, el);
    UnmaskedIsFinite(nobs, nfr, p, lam0, Iterations(niter));
    if nobs == 0 {
      MaskedPixelsAreFrozen(nobs, nfr, p, lam0, Iterations(niter));
    }
  }

  /** corr_photon_count: first guess, then the Newton fit. */
  method CorrPhotonCount(nobs: seq<seq<nat>>, nfr: seq<seq<nat>>, t: real, g: real, el: Elementary,
                         niter: int, h: nat, w: nat)
    returns (r: Result<seq<seq<Float>>, CorrError>)
    requires Lawful(el) && IsRect(nobs, h, w) && IsRect(nfr, h, w)
    requires forall i, j :: 0 <= i < h && 0 <= j < w ==> nfr[i][j] > 0 || nobs[i][j] == 0
    ensures r == Err(ZeroGain) <==> g == 0.0
    ensures g != 0.0 && (h == 0 || w == 0) ==> r == Err(EmptyReduction)
    ensures g != 0.0 && h > 0 && w > 0 ==>
      (r == Err(NegativeCounts) <==>
       exists i, j :: 0 <= i < h && 0 <= j < w && PixelEndsNegative(nobs[i][j], nfr[i][j], t, g, el, niter))
    ensures g != 0.0 && h > 0 && w > 0 && r.Err? ==> r.error == NegativeCounts
    ensures r.Ok? ==> IsRect(r.value, h, w)
    ensures r.Ok? ==> forall i, j :: 0 <= i < h && 0 <= j < w ==>
      r.value[i][j] == CorrectedPixel(nobs[i][j], nfr[i][j], t, g, el, niter)
    ensures r.Ok? ==> forall i, j :: 0 <= i < h && 0 <= j < w ==>
      r.value[i][j].NaN? || r.value[i][j].v >= 0.0
    ensures r.Ok? && niter >= 1 ==> forall i, j :: 0 <= i < h && 0 <= j < w ==>
      r.value[i][j].Fin? && (nobs[i][j] == 0 ==> r.value[i][j].v == 0.0)
  {
    if g == 0.0 {
      return Err(ZeroGain);
    }
    var p := ParamsOf(t, g, el);
    var lam0 := seq(h, i requires 0 <= i < h =>
      seq(w, j requires 0 <= j < w => LamApprox(nobs[i][j], nfr[i][j], p.e, el)));
    r := LamNewtonFit(nobs, nfr, p, lam0, niter, h, w);
    assert forall i, j :: 0 <= i < h && 0 <= j < w ==>
      (EndsNegative(nobs, nfr, p, lam0, niter, i, j) <==> PixelEndsNegative(nobs[i][j], nfr[i][j], t, g, el, niter));
    if r.Ok? {
      forall i, j | 0 <= i < h && 0 <= j < w
        ensures r.value[i][j].NaN? || r.value[i][j].v >= 0.0
        ensures niter >= 1 ==> r.value[i][j].Fin? && (nobs[i][j] == 0 ==> r.value[i][j].v == 0.0)
      {
        assert !EndsNegative(nobs, nfr, p, lam0, niter, i, j);
        if niter >= 1 {
          UnmaskedIsFinite(nobs[i][j], nfr[i][j], p, lam0[i][j], Iterations(niter));
          if nobs[i][j] == 0 {
            MaskedPixelsAreFrozen(nobs[i][j], nfr[i][j], p, lam0[i][j], Iterations(niter));
          }
        }
      }
    }
  }
}
