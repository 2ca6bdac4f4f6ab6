/** The few Python list and number built-ins the renderer and the loader rely on,
    written out with their exact semantics. */
module PyList {
  import opened Wrappers

  /** Normalises one bound of a slice `s[lo:hi]` of a list of length `n`. */
  function SliceBound(i: int, n: nat): (r: nat)
    ensures r <= n
  {
    if i < 0 then (if i + n < 0 then 0 else i + n)
    else if i > n then n else i
  }

  /** Python's `s[lo:hi]`: negative bounds count from the end, bounds past either
      end are clamped, and an empty range gives the empty list. */
  function Slice<T>(s: seq<T>, lo: int, hi: int): (r: seq<T>)
    ensures |r| <= |s|
    ensures 0 <= lo <= hi <= |s| ==> r == s[lo..hi]
    ensures -|s| <= lo <= hi < 0 ==> r == s[|s| + lo..|s| + hi]
    ensures 0 <= lo <= |s| <= hi ==> r == s[lo..]
    ensures -|s| <= lo < 0 && |s| <= hi ==> r == s[|s| + lo..]
  {
    var a := SliceBound(lo, |s|);
    var b := SliceBound(hi, |s|);
    if a < b then s[a..b] else []
  }

  /** Python's `s[k]`: defined for `-|s| <= k < |s|`, negative `k` counting from
      the end; anything else raises IndexError, here `None`. */
  function At<T>(s: seq<T>, k: int): (r: Option<T>)
    ensures r.Some? <==> -|s| <= k < |s|
    ensures 0 <= k < |s| ==> r == Some(s[k])
    ensures -|s| <= k < 0 ==> r == Some(s[|s| + k])
  {
    if 0 <= k < |s| then Some(s[k])
    else if -|s| <= k < 0 then Some(s[|s| + k])
    else None
  }

  /** Python's `int(x)` on a float: truncation toward zero. */
  function Trunc(x: real): (r: int)
    ensures 0.0 <= x ==> r as real <= x < r as real + 1.0
    ensures x < 0.0 ==> r as real - 1.0 < x <= r as real
  {
    if x >= 0.0 then x.Floor else -((-x).Floor)
  }

  /** Python's `x % 1` on a float: the floored remainder, always in [0, 1). */
  function Frac(x: real): (r: real)
    ensures 0.0 <= r < 1.0
    ensures x - r == (x - r).Floor as real
  {
    x - x.Floor as real
  }

  /** Wrapping is periodic: shifting by a whole number does not change `x % 1`. */
  lemma FracPeriodic(x: real, k: int)
    ensures Frac(x + k as real) == Frac(x)
  {
    assert (x + k as real).Floor == x.Floor + k;
  }

  /** `min` on three floats. */
  function Min3(a: real, b: real, c: real): (r: real)
    ensures r <= a && r <= b && r <= c
    ensures r == a || r == b || r == c
  {
    if a <= b && a <= c then a else if b <= c then b else c
  }

  /** `max` on three floats. */
  function Max3(a: real, b: real, c: real): (r: real)
    ensures r >= a && r >= b && r >= c
    ensures r == a || r == b || r == c
  {
    if a >= b && a >= c then a else if b >= c then b else c
  }

  /** `min` on three integers. */
  function IMin3(a: int, b: int, c: int): (r: int)
    ensures r <= a && r <= b && r <= c
    ensures r == a || r == b || r == c
  {
    if a <= b && a <= c then a else if b <= c then b else c
  }

  /** `max` on three integers. */
  function IMax3(a: int, b: int, c: int): (r: int)
    ensures r >= a && r >= b && r >= c
    ensures r == a || r == b || r == c
  {
    if a >= b && a >= c then a else if b >= c then b else c
  }

  /** On integers the integer `min` and `max` agree with the float ones. */
  lemma IntMinMaxAgree(a: int, b: int, c: int)
    ensures IMin3(a, b, c) as real == Min3(a as real, b as real, c as real)
    ensures IMax3(a, b, c) as real == Max3(a as real, b as real, c as real)
  {
  }
}
