/** Photon counting of an analog image: every pixel becomes 1 when its value
    strictly exceeds the threshold and 0 otherwise. */
module Digitizer {
  import opened Base

  /** A numpy array of any dimension: a 0-d scalar, or an axis of sub-arrays. */
  datatype NdArray<T> = Scalar(value: T) | Axis(items: seq<NdArray<T>>)

  /** PhotonCountException: the input is a 0-dimensional array. */
  datatype PhotonCountError = ZeroDimensional

  /** The digitization of one pixel. */
  function Digit(x: real, thresh: real): int {
    if x > thresh then 1 else 0
  }

  predicate SameShape<A, B>(a: NdArray<A>, b: NdArray<B>)
    decreases a
  {
    if a.Scalar? then b.Scalar?
    else
      && b.Axis?
      && |a.items| == |b.items|
      && forall k :: 0 <= k < |a.items| ==> SameShape(a.items[k], b.items[k])
  }

  /** `d` is `e` photon-counted at `thresh`: same shape, every entry of `d`
      is 0 or 1, and it is 1 exactly where `e` is strictly above `thresh`. */
  predicate CountedFrom(e: NdArray<real>, d: NdArray<int>, thresh: real)
    decreases e
  {
    if e.Scalar? then
      && d.Scalar?
      && (d.value == 0 || d.value == 1)
      && (d.value == 1 <==> e.value > thresh)
    else
      && d.Axis?
      && |e.items| == |d.items|
      && forall k :: 0 <= k < |e.items| ==> CountedFrom(e.items[k], d.items[k], thresh)
  }

  function DigitizeAll(e: NdArray<real>, thresh: real): (d: NdArray<int>)
    ensures CountedFrom(e, d, thresh)
    ensures SameShape(e, d)
    decreases e
  {
    match e
    case Scalar(x) => Scalar(Digit(x, thresh))
    case Axis(items) =>
      Axis(seq(|items|, k requires 0 <= k < |items| => DigitizeAll(items[k], thresh)))
  }

  /** photon_count: raises only for a 0-d input; an empty array is counted. */
  function PhotonCount(e: NdArray<real>, thresh: real): (r: Result<NdArray<int>, PhotonCountError>)
    ensures r.Err? <==> e.Scalar?
    ensures r.Ok? ==> SameShape(e, r.value) && CountedFrom(e, r.value, thresh)
  {
    if e.Scalar? then Err(ZeroDimensional) else Ok(DigitizeAll(e, thresh))
  }

  /** A stack of frames (frame, row, column) as a 3-d array. */
  function StackArray(s: seq<seq<seq<real>>>): NdArray<real> {
    Axis(seq(|s|, k requires 0 <= k < |s| =>
      Axis(seq(|s[k]|, i requires 0 <= i < |s[k]| =>
        Axis(seq(|s[k][i]|, j requires 0 <= j < |s[k][i]| => Scalar(s[k][i][j])))))))
  }

  /** Photon counting a stack never raises, and pixel (k, i, j) of the result
      is the digitization of that pixel: the per-pixel form the co-add uses. */
  lemma PhotonCountStack(s: seq<seq<seq<real>>>, thresh: real, k: nat, i: nat, j: nat)
    requires k < |s| && i < |s[k]| && j < |s[k][i]|
    ensures PhotonCount(StackArray(s), thresh).Ok?
    ensures var d := PhotonCount(StackArray(s), thresh).value;
      && d.Axis? && k < |d.items|
      && d.items[k].Axis? && i < |d.items[k].items|
      && d.items[k].items[i].Axis? && j < |d.items[k].items[i].items|
      && d.items[k].items[i].items[j] == Scalar(Digit(s[k][i][j], thresh))
  {
    var e := StackArray(s);
    var d := PhotonCount(e, thresh).value;
    assert CountedFrom(e, d, thresh);
    assert CountedFrom(e.items[k], d.items[k], thresh);
    assert CountedFrom(e.items[k].items[i], d.items[k].items[i], thresh);
    assert CountedFrom(e.items[k].items[i].items[j], d.items[k].items[i].items[j], thresh);
  }
}
