/** Values shared by several modules: optional results, bytes, the n/m/y lattice. */
module Basics {

  datatype Option<+T> = None | Some(value: T) {
    predicate IsFailure() { None? }

    function PropagateFailure<U>(): Option<U>
      requires None?
    {
      None
    }

    function Extract(): T
      requires Some?
    {
      value
    }
  }

  type Byte = b: int | 0 <= b < 256

  /** The tristate values n, m and y, held as 0, 1 and 2. */
  type Tri = t: int | 0 <= t <= 2

  function Min(a: Tri, b: Tri): Tri { if a < b then a else b }

  function Max(a: Tri, b: Tri): Tri { if a < b then b else a }

  function TriToStr(t: Tri): string { if t == 0 then "n" else if t == 1 then "m" else "y" }

  lemma {:induction false} TriToStrInjective(a: Tri, b: Tri)
    requires TriToStr(a) == TriToStr(b)
    ensures a == b
  {
    assert TriToStr(a)[0] == TriToStr(b)[0];
  }

  /** The characters that str.strip() and str.rstrip() remove. */
  predicate IsSpace(c: char) {
    var n := c as int;
    9 <= n <= 13 || 28 <= n <= 32 || n == 0x85 || n == 0xA0 || n == 0x1680 || 0x2000 <= n <= 0x200A
    || n == 0x2028 || n == 0x2029 || n == 0x202F || n == 0x205F || n == 0x3000
  }

  function RStrip(s: string): string {
    if s != [] && IsSpace(s[|s| - 1]) then RStrip(s[..|s| - 1]) else s
  }

  function Strip(s: string): string {
    if s != [] && IsSpace(s[0]) then Strip(s[1..]) else RStrip(s)
  }

  /** Three-way comparison of strings by code point, shorter prefixes first. */
  function StrCmp(a: string, b: string): int {
    if a == [] then (if b == [] then 0 else -1)
    else if b == [] then 1
    else if a[0] < b[0] then -1
    else if a[0] > b[0] then 1
    else StrCmp(a[1..], b[1..])
  }
}
