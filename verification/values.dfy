/**
 * Small value-level helpers shared by every module: an Option type for the
 * nullable columns and optional fields of the application, JavaScript's
 * truthiness of numbers and strings (which the source relies on through
 * `a || b`), and `Math.round` on exact reals.
 */
module Values {

  datatype Option<+T> = None | Some(value: T)

  /** An optional number is truthy when it is present and not 0 (NaN is not modelled). */
  predicate TruthyNum(n: Option<real>) {
    n.Some? && n.value != 0.0
  }

  /** `n || fallback` for an optional number. */
  function OrNum(n: Option<real>, fallback: real): (r: real)
    ensures TruthyNum(n) ==> r == n.value
    ensures !TruthyNum(n) ==> r == fallback
  {
    if TruthyNum(n) then n.value else fallback
  }

  /** An optional string is truthy when it is present and not empty. */
  predicate TruthyText(s: Option<string>) {
    s.Some? && s.value != ""
  }

  /** `s || fallback` for an optional string. */
  function OrText(s: Option<string>, fallback: string): (r: string)
    ensures TruthyText(s) ==> r == s.value
    ensures !TruthyText(s) ==> r == fallback
  {
    if TruthyText(s) then s.value else fallback
  }

  /** `b || false` for an optional flag. */
  function OrFalse(b: Option<bool>): (r: bool)
    ensures r <==> b == Some(true)
  {
    b.Some? && b.value
  }

  /** `Math.round`: the nearest integer, halves rounded towards +infinity. */
  function Round(x: real): (r: int)
    ensures r as real <= x + 0.5 < r as real + 1.0
  {
    (x + 0.5).Floor
  }

  /** Round is monotone, so it keeps a value inside integer bounds. */
  lemma RoundWithin(x: real, lo: int, hi: int)
    requires lo as real <= x <= hi as real
    ensures lo <= Round(x) <= hi
  {
  }
}
