/** Shared value types: optional values, results carrying the pipeline's
    fatal errors, IEEE doubles restricted to finite values and NaN, and the
    elementary real functions the pipeline treats as given. */
module Base {

  datatype Option<+T> = None | Some(value: T)

  /** A computation that either yields a value or raises one of the
      pipeline's exceptions. */
  datatype Result<+T, +E> = Ok(value: T) | Err(error: E) {
    predicate IsFailure() {
      Err?
    }

    function PropagateFailure<U>(): Result<U, E>
      requires Err?
    {
      Err(error)
    }

    function Extract(): T
      requires Ok?
    {
      value
    }
  }

  /** A double-precision value that is either finite (a real) or NaN.
      Infinities are not part of the model. */
  datatype Float = Fin(v: real) | NaN

  function Abs(x: real): real {
    if x < 0.0 then -x else x
  }

  function Max(a: real, b: real): real {
    if a >= b then a else b
  }

  /** exp, log and sqrt as opaque real functions. */
  datatype Elementary = Elementary(exp: real -> real, log: real -> real, sqrt: real -> real)

  /** The only facts about exp, log and sqrt the pipeline relies on. */
  ghost predicate Lawful(el: Elementary) {
    && (forall x :: el.exp(x) > 0.0)
    && el.log(1.0) == 0.0
    && (forall x :: 0.0 < x <= 1.0 ==> el.log(x) <= 0.0)
    && (forall x :: x >= 0.0 ==> el.sqrt(x) >= 0.0)
    && (forall x :: x >= 0.0 ==> el.sqrt(x) * el.sqrt(x) == x)
  }

  /** A 2-D array of height h and width w. */
  predicate IsRect<T>(m: seq<seq<T>>, h: nat, w: nat) {
    |m| == h && forall i :: 0 <= i < h ==> |m[i]| == w
  }
}
