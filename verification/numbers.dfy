/** Decimal and hexadecimal text, as read by int(s, base) and written by str() and hex(). */
module Numbers {
  import opened Basics

  function DigitVal(c: char): int {
    if '0' <= c <= '9' then c as int - '0' as int
    else if 'a' <= c <= 'z' then c as int - 'a' as int + 10
    else if 'A' <= c <= 'Z' then c as int - 'A' as int + 10
    else 99
  }

  function DigitChar(d: nat): (c: char)
    requires d < 16
    ensures DigitVal(c) == d
    ensures c != '-' && c != '+'
  {
    if d < 10 then ('0' as int + d) as char else ('a' as int + (d - 10)) as char
  }

  function ParseDigits(s: string, radix: nat): Option<nat>
    requires 2 <= radix <= 16
  {
    if s == [] then None
    else
      var d := DigitVal(s[|s| - 1]);
      if d >= radix then None
      else if |s| == 1 then Some(d)
      else
        var hi :- ParseDigits(s[..|s| - 1], radix);
        Some(hi * radix + d)
  }

  function HasPrefix(s: string, lower: char, upper: char): bool {
    |s| >= 2 && s[0] == '0' && (s[1] == lower || s[1] == upper)
  }

  function ParseMagnitude(s: string, base: nat): Option<nat>
    requires base == 0 || base == 10 || base == 16
  {
    if base == 10 then ParseDigits(s, 10)
    else if HasPrefix(s, 'x', 'X') then ParseDigits(s[2..], 16)
    else if base == 16 then ParseDigits(s, 16)
    else if HasPrefix(s, 'o', 'O') then ParseDigits(s[2..], 8)
    else if HasPrefix(s, 'b', 'B') then ParseDigits(s[2..], 2)
    else if |s| > 1 && s[0] == '0' then
      (if forall i :: 0 <= i < |s| ==> s[i] == '0' then Some(0) else None)
    else ParseDigits(s, 10)
  }

  /** int(s, base), with None for the ValueError case. */
  function ParseInt(s: string, base: nat): Option<int>
    requires base == 0 || base == 10 || base == 16
  {
    if s != [] && s[0] == '-' then
      var m: int :- ParseMagnitude(s[1..], base); Some(-m)
    else if s != [] && s[0] == '+' then
      var m :- ParseMagnitude(s[1..], base); Some(m)
    else
      var m :- ParseMagnitude(s, base); Some(m)
  }

  function Digits(n: nat, radix: nat): string
    requires 2 <= radix <= 16
  {
    if n < radix then [DigitChar(n)] else Digits(n / radix, radix) + [DigitChar(n % radix)]
  }

  /** str(n) for base 10 and hex(n) for base 16. */
  function FormatInt(n: int, base: nat): string
    requires base == 10 || base == 16
  {
    var sign := if n < 0 then "-" else "";
    var m: nat := if n < 0 then -n else n;
    sign + (if base == 10 then Digits(m, 10) else "0x" + Digits(m, 16))
  }

  lemma {:induction false} ParseSnoc(s: string, hi: nat, d: nat, radix: nat)
    requires 2 <= radix <= 16 && d < radix && s != [] && ParseDigits(s, radix) == Some(hi)
    ensures ParseDigits(s + [DigitChar(d)], radix) == Some(hi * radix + d)
  {
    var t := s + [DigitChar(d)];
    assert t[..|t| - 1] == s;
  }

  lemma {:induction false} DigitsRoundTrip(n: nat, radix: nat)
    requires 2 <= radix <= 16
    ensures Digits(n, radix) != [] && ParseDigits(Digits(n, radix), radix) == Some(n)
    ensures Digits(n, radix)[0] != '-' && Digits(n, radix)[0] != '+'
  {
    if n >= radix {
      hide ParseDigits;
      var q, d := n / radix, n % radix;
      assert n == q * radix + d;
      DigitsRoundTrip(q, radix);
      ParseSnoc(Digits(q, radix), q, d, radix);
    }
  }

  lemma {:induction false} FormatRoundTrip(n: int, base: nat)
    requires base == 10 || base == 16
    ensures ParseInt(FormatInt(n, base), base) == Some(n)
  {
    hide Digits;
    var m: nat := if n < 0 then -n else n;
    DigitsRoundTrip(m, base);
    var mag := if base == 10 then Digits(m, 10) else "0x" + Digits(m, 16);
    assert mag[0] != '-' && mag[0] != '+';
    assert ParseMagnitude(mag, base) == Some(m) by {
      if base == 16 { assert mag[2..] == Digits(m, 16); }
    }
    if n < 0 {
      assert FormatInt(n, base)[1..] == mag;
    } else {
      assert FormatInt(n, base) == mag;
    }
  }

  const LOWER := "0123456789abcdef"
  const UPPER := "0123456789ABCDEF"

  /** The digits, in either case; no other character is one in any base up to 16. */
  lemma {:induction false} DigitsAre(c: char, d: nat)
    requires d < 16
    ensures DigitVal(LOWER[d]) == d && DigitVal(UPPER[d]) == d && DigitChar(d) == LOWER[d]
    ensures c !in LOWER && c !in UPPER ==> DigitVal(c) >= 16
  {
    var v := DigitVal(c);
    if v < 16 {
      assert LOWER[v] == c || UPPER[v] == c;
    }
  }

  /** Positional notation: appending a digit multiplies by the base; anything else makes the text no number. */
  lemma {:induction false} ParseDigitsMeaning(s: string, c: char, radix: nat)
    requires 2 <= radix <= 16
    ensures ParseDigits([], radix) == None
    ensures ParseDigits([c], radix) == if DigitVal(c) < radix then Some(DigitVal(c)) else None
    ensures s != [] ==>
      ParseDigits(s + [c], radix) ==
      if DigitVal(c) < radix && ParseDigits(s, radix).Some? then Some(radix * ParseDigits(s, radix).value + DigitVal(c)) else None
  {
    assert (s + [c])[..|s|] == s;
  }

  /** Signs and prefixes. */
  lemma {:induction false} DecimalForms()
    ensures ParseInt("-17", 10) == Some(-17) && ParseInt("+17", 10) == Some(17) && ParseInt("0x1F", 10) == None
    ensures ParseInt("17", 0) == Some(17) && ParseInt("017", 0) == None && FormatInt(-17, 10) == "-17"
  {
    assert "-17"[1..] == "17" && "+17"[1..] == "17" && "017"[1] == '1';
    assert "17"[..1] == "1" && "0x1F"[..3] == "0x1" && "0x1"[..2] == "0x";
    assert ParseDigits("1", 10) == Some(1) && ParseDigits("17", 10) == Some(17);
    assert ParseDigits("0x", 10) == None && ParseDigits("0x1", 10) == None && ParseDigits("0x1F", 10) == None;
    assert Digits(1, 10) == "1" && Digits(17, 10) == "1" + "7";
  }

  lemma {:induction false} HexForms()
    ensures ParseInt("0x1F", 16) == Some(31) && ParseInt("1f", 16) == Some(31) && ParseInt("", 16) == None
    ensures ParseInt("0x11", 0) == Some(17) && FormatInt(31, 16) == "0x1f"
  {
    assert "0x1F"[2..] == "1F" && "0x11"[2..] == "11";
    assert "1F"[..1] == "1" && "1f"[..1] == "1" && "11"[..1] == "1";
    assert ParseDigits("1", 16) == Some(1) && ParseDigits("1F", 16) == Some(31) && ParseDigits("1f", 16) == Some(31) && ParseDigits("11", 16) == Some(17);
    assert Digits(1, 16) == "1" && Digits(31, 16) == "1" + "f";
  }
}
