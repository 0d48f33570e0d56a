/** Small shared vocabulary. */
module Prelude {
  datatype Option<+T> = None | Some(value: T)

  function Min(a: int, b: int): (r: int)
    ensures r <= a && r <= b && (r == a || r == b)
  {
    if a < b then a else b
  }

  function Max(a: int, b: int): (r: int)
    ensures a <= r && b <= r && (r == a || r == b)
  {
    if a < b then b else a
  }

  /** Text is a sequence of code points, lone surrogates included, as Python strings are. */
  type Code = c: int | 0 <= c < 0x11_0000 witness 0
  type Text = seq<Code>

  predicate IsDigit(c: Code) { 48 <= c <= 57 }

  /** Lower-case hexadecimal of a fixed length: digests and signatures. */
  predicate IsHexText(t: Text, n: nat) {
    |t| == n && forall i :: 0 <= i < n ==> IsDigit(t[i]) || 97 <= t[i] <= 102
  }

  /** The end of the audit clock, 2100-01-01T00:00:00Z. */
  const MAX_TIME := 4102444800

  lemma SubsetIsFewer<T>(a: set<T>, b: set<T>)
    requires a <= b
    ensures |a| <= |b|
  {
    assert b == a + (b - a);
  }

  /** A string literal as text; anything outside ASCII becomes a question mark. */
  function Ascii(s: string): (t: Text)
    ensures |t| == |s|
    ensures forall i :: 0 <= i < |t| ==> t[i] < 128
    ensures forall i :: 0 <= i < |s| && s[i] as int < 128 ==> t[i] == s[i] as int
  {
    seq(|s|, i requires 0 <= i < |s| => if s[i] as int < 128 then s[i] as int else 63)
  }
}
