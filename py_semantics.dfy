/** The few pieces of Python, pandas and numpy behaviour that the stock-app
    route and its value-at-risk functions rely on, stated over Dafny values. */
module PySemantics {

  datatype Option<T> = None | Some(value: T)

  /** The exceptions the modelled code can raise (and does not catch). */
  datatype PyError =
    | KeyError(key: string)            // a missing dict key or DataFrame column
    | IndexError                       // a numpy index outside the array
    | ValueError(message: string)      // e.g. a column list of the wrong length
    | UnboundLocalError(name: string)  // reading a local that no branch assigned

  datatype Result<T> = Ok(value: T) | Err(error: PyError)

  /** A Python float as far as the model needs one: a real number, or the NaN
      that `np.sqrt` returns for a negative argument. */
  datatype PyFloat = Real(r: real) | NaN

  /** Float multiplication; NaN absorbs everything. */
  function Times(a: PyFloat, b: PyFloat): PyFloat
  {
    if a.Real? && b.Real? then Real(a.r * b.r) else NaN
  }

  /** The sign facts about `np.sqrt(n)` for the integer `n`: NaN when `n` is
      negative, otherwise a non-negative number that is zero only for zero. */
  predicate NumpySqrtShape(n: int, s: PyFloat)
  {
    if n < 0 then s == NaN else s.Real? && s.r >= 0.0 && (s.r == 0.0 <==> n == 0)
  }

  /** `s` is what `np.sqrt(n)` returns: NaN for a negative `n`, otherwise the
      non-negative square root. */
  predicate IsNumpySqrt(n: int, s: PyFloat)
  {
    NumpySqrtShape(n, s) && (n >= 0 ==> s.r * s.r == n as real)
  }

  /** Python's `int(x)` on a float: truncation toward zero. */
  function TruncToInt(x: real): (n: int)
    ensures 0.0 <= x ==> n as real <= x < n as real + 1.0
    ensures x < 0.0 ==> n as real - 1.0 < x <= n as real
  {
    if x >= 0.0 then x.Floor else -((-x).Floor)
  }

  /** Python's `s[:stop]`: the prefix up to `stop`, clamped to the length, where
      a negative `stop` counts from the end. */
  function PrefixSlice<T>(s: seq<T>, stop: int): (w: seq<T>)
    ensures |w| <= |s| && w == s[..|w|]
    ensures stop >= 0 ==> |w| == if stop <= |s| then stop else |s|
    ensures stop < 0 ==> |w| == if -stop <= |s| then |s| + stop else 0
  {
    if stop >= |s| then s
    else if stop >= 0 then s[..stop]
    else if -stop <= |s| then s[..|s| + stop]
    else []
  }

  /** The position that numpy's `a[i]` reads, for an `i` inside `-n <= i < n`. */
  function WrapIndex(i: int, n: nat): (p: nat)
    requires -(n as int) <= i < n
    ensures p < n
    ensures i >= 0 ==> p == i
    ensures i < 0 ==> p + (-i) == n
  {
    if i >= 0 then i else n + i
  }

  /** numpy's `a[i]` on a one-dimensional array: negative indices count from
      the end, and anything outside `-len(a) <= i < len(a)` is an IndexError
      (None here). */
  function NumpyIndex<T>(a: seq<T>, i: int): (x: Option<T>)
    ensures x.Some? <==> -|a| <= i < |a|
    ensures x.Some? ==> x.value == a[WrapIndex(i, |a|)]
  {
    if 0 <= i < |a| then Some(a[i])
    else if -|a| <= i < 0 then Some(a[|a| + i])
    else None
  }
}
