/** Shared vocabulary of the model: optional values (JavaScript's `null` /
    `undefined`), JavaScript truthiness of an optional timestamp, the real
    number helpers the source gets from `Math`, and "keep the last n". */
module Common {

  /** A value that may be absent (`null` or `undefined` in the source). */
  datatype Option<T> = None | Some(value: T)

  /** `!x` in JavaScript holds for `null` and also for `0`: an optional
      timestamp counts as set only when it is present and non-zero. */
  predicate Truthy(o: Option<int>) {
    o.Some? && o.value != 0
  }

  /** `Math.abs` on reals. */
  function Abs(x: real): (r: real)
    ensures r >= 0.0
    ensures r == x || r == -x
  {
    if x < 0.0 then -x else x
  }

  /** `Math.round`: the nearest integer, halves rounded towards +infinity. */
  function Round(x: real): (r: int)
    ensures x - 0.5 < r as real <= x + 0.5
  {
    (x + 0.5).Floor
  }

  /** `Math.trunc`: the integer part, rounded towards zero. */
  function Trunc(x: real): (r: int)
    ensures x >= 0.0 ==> r == x.Floor
    ensures x < 0.0 ==> r == -((-x).Floor)
  {
    if x >= 0.0 then x.Floor else -((-x).Floor)
  }

  /** JavaScript's `x % m` for a positive modulus: the remainder of
      truncating division, which takes the sign of `x`. */
  function JsRem(x: real, m: real): real
    requires m > 0.0
  {
    x - m * Trunc(x / m) as real
  }

  /** The same `%` on integer operands, written with integer arithmetic. */
  function TruncRem(a: int, b: int): (r: int)
    requires b > 0
    ensures a >= 0 ==> 0 <= r < b && r == a % b
    ensures a < 0 ==> -b < r <= 0
  {
    if a >= 0 then a % b else -((-a) % b)
  }

  /** Dividing naturals as reals and flooring is integer division. */
  lemma FloorOfQuotient(n: nat, b: int)
    requires b > 0
    ensures ((n as real) / (b as real)).Floor == n / b
  {
    var q := n / b;
    var r := n % b;
    assert n == q * b + r && 0 <= r < b;
    var f := (r as real) / (b as real);
    assert 0.0 <= f < 1.0;
    assert (n as real) == (q as real) * (b as real) + r as real;
    assert (n as real) / (b as real) == (q as real) + f;
  }

  /** The integer `%` is JavaScript's `%` on the same values. */
  lemma TruncRemIsJsRem(a: int, b: int)
    requires b > 0
    ensures TruncRem(a, b) as real == JsRem(a as real, b as real)
  {
    var n: nat := if a >= 0 then a else -a;
    FloorOfQuotient(n, b);
    if a < 0 {
      assert (a as real) / (b as real) == -((n as real) / (b as real));
    }
  }

  /** `Math.max(lo, Math.min(hi, x))` on integers. */
  function Clamp(x: int, lo: int, hi: int): (r: int)
    requires lo <= hi
    ensures lo <= r <= hi
    ensures lo <= x <= hi ==> r == x
    ensures x < lo ==> r == lo
    ensures hi < x ==> r == hi
  {
    if x < lo then lo else if hi < x then hi else x
  }

  /** The last `n` elements of `s` (all of `s` when it is short enough). */
  function KeepLast<T>(s: seq<T>, n: nat): (r: seq<T>)
  {
    if |s| > n then s[|s| - n..] else s
  }

  /** KeepLast yields a suffix of its input, of the expected length. */
  lemma KeepLastIsSuffix<T>(s: seq<T>, n: nat)
    ensures |KeepLast(s, n)| == (if |s| <= n then |s| else n)
    ensures KeepLast(s, n) == s[|s| - |KeepLast(s, n)|..]
  {
  }

  /** Trimming early does not change what a later trim keeps: the last `n`
      of (the last `n` of a) followed by b are the last `n` of a + b. */
  lemma KeepLastAbsorbs<T>(a: seq<T>, b: seq<T>, n: nat)
    ensures KeepLast(KeepLast(a, n) + b, n) == KeepLast(a + b, n)
  {
    if |a| > n {
      var k := |a| - n;
      assert a + b == a[..k] + (a[k..] + b);
      assert (a + b)[k..] == a[k..] + b;
      var c := a[k..] + b;
      if |c| > n {
        assert (a + b)[|a + b| - n..] == c[|c| - n..];
      }
    }
  }
}
