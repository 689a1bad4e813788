/** Small shared vocabulary: optional values, outcomes, machine-word bounds and ASCII case folding. */
module Prelude {

  datatype Option<+T> = None | Some(value: T) {
    function GetOr(default: T): T {
      if Some? then value else default
    }
  }

  datatype Result<+T, +E> = Ok(value: T) | Err(error: E)

  const NANOS: nat := 1_000_000_000

  const U32_MAX: nat := 0xFFFF_FFFF
  const U64_MAX: nat := 0xFFFF_FFFF_FFFF_FFFF
  const U128_MAX: nat := 0xFFFF_FFFF_FFFF_FFFF_FFFF_FFFF_FFFF_FFFF

  function Max(a: int, b: int): int {
    if a < b then b else a
  }

  function Min(a: int, b: int): int {
    if a < b then a else b
  }

  function LowerChar(c: char): char {
    if 'A' <= c <= 'Z' then (c as int + 32) as char else c
  }

  /** ASCII lower case, character by character. */
  function Lower(s: string): (r: string)
    ensures |r| == |s|
  {
    seq(|s|, i requires 0 <= i < |s| => LowerChar(s[i]))
  }

  predicate EqIgnoreCase(a: string, b: string) {
    Lower(a) == Lower(b)
  }

  /** The same character, or the same letter of the alphabet. */
  predicate SameLetter(c: char, d: char) {
    c == d || ('A' <= c <= 'Z' && d as int == c as int + 32) || ('A' <= d <= 'Z' && c as int == d as int + 32)
  }

  lemma EqualUpToCase(a: string, b: string)
    ensures EqIgnoreCase(a, b) <==> |a| == |b| && forall i :: 0 <= i < |a| ==> SameLetter(a[i], b[i])
  {
    var x, y := Lower(a), Lower(b);
    assert |x| == |a| && |y| == |b|;
    assert forall i :: 0 <= i < |a| ==> x[i] == LowerChar(a[i]);
    assert forall i :: 0 <= i < |b| ==> y[i] == LowerChar(b[i]);
  }

  /** ASCII white space. */
  predicate IsSpace(c: char) {
    c == ' ' || ('\t' <= c && c <= '\r')
  }

  predicate Blank(s: string) {
    forall i :: 0 <= i < |s| ==> IsSpace(s[i])
  }
}
