/** Small vocabulary shared by every engine: optional values, extrema of reals and
    "the last n entries", the shape of every bounded history in the program. */
module Common {
  datatype Option<+T> = None | Some(value: T)

  function Max(x: real, y: real): (m: real)
    ensures x <= m && y <= m && (m == x || m == y)
  {
    if x < y then y else x
  }

  function Min(x: real, y: real): (m: real)
    ensures m <= x && m <= y && (m == x || m == y)
  {
    if y < x then y else x
  }

  function Abs(x: real): (a: real)
    ensures 0.0 <= a && (a == x || a == -x)
  {
    if x < 0.0 then -x else x
  }

  /** The nearest integer, the even one of two: what round() does before scaling back. */
  function Nearest(y: real): (n: int)
    ensures -0.5 <= n as real - y <= 0.5
    ensures n as real - y == 0.5 || y - n as real == 0.5 ==> n % 2 == 0
  {
    var f := y.Floor;
    var d := y - f as real;
    if d < 0.5 || (d == 0.5 && f % 2 == 0) then f else f + 1
  }

  /** x to the nearest multiple of 1 / scale. */
  function RoundTo(x: real, scale: real): real
    requires 0.0 < scale
  {
    Nearest(x * scale) as real / scale
  }

  function Round2(x: real): real {
    RoundTo(x, 100.0)
  }

  function Round6(x: real): real {
    RoundTo(x, 1000000.0)
  }

  function Round8(x: real): real {
    RoundTo(x, 100000000.0)
  }

  /** The longest suffix of s with at most n entries: s[-n:] for n >= 1, deque(maxlen=n). */
  function LastN<T>(s: seq<T>, n: nat): (r: seq<T>)
    ensures |r| == if |s| <= n then |s| else n
  {
    if |s| <= n then s else s[|s| - n..]
  }

  /** Trimming after every append keeps the suffix of the untrimmed history. */
  lemma {:induction false} LastNAppend<T>(s: seq<T>, e: T, n: nat)
    ensures LastN(LastN(s, n) + [e], n) == LastN(s + [e], n)
  {
    assert |LastN(LastN(s, n) + [e], n)| == |LastN(s + [e], n)|;
  }

  // ----- quotients -----

  lemma {:induction false} QuotientTimes(x: real, y: real)
    requires y != 0.0
    ensures x / y * y == x
  {}

  lemma {:induction false} ProductOver(x: real, y: real)
    requires y != 0.0
    ensures x * y / y == x
  {}

  // ----- rounding -----

  /** x has no more decimals than the scale and is nearest to y, with the even one on a tie. */
  predicate IsRounded(x: real, y: real, scale: real) {
    var n := (x * scale).Floor;
    && x * scale == n as real && -0.5 <= x * scale - y * scale <= 0.5
    && (x * scale - y * scale == 0.5 || y * scale - x * scale == 0.5 ==> n % 2 == 0)
  }

  lemma {:induction false} Rounds(x: real, scale: real)
    requires 0.0 < scale
    ensures IsRounded(RoundTo(x, scale), x, scale)
  {
    var n := Nearest(x * scale);
    QuotientTimes(n as real, scale);
    assert RoundTo(x, scale) * scale == n as real;
    assert (RoundTo(x, scale) * scale).Floor == n;
  }
}
