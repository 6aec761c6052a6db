/** Decimal text as Rust's formatter writes it and `str::parse::<u64>` reads it,
    plus `str::trim`.  The configfs transport talks to the kernel in this form. */
module Decimal {
  import opened Bytes

  predicate IsDigit(c: char) {
    '0' <= c <= '9'
  }

  predicate AllDigits(s: string) {
    forall i :: 0 <= i < |s| ==> IsDigit(s[i])
  }

  function DigitChar(d: nat): (c: char)
    requires d < 10
    ensures IsDigit(c) && DigitValue(c) == d
  {
    ('0' as int + d) as char
  }

  function DigitValue(c: char): nat
    requires IsDigit(c)
  {
    c as int - '0' as int
  }

  /** `n.to_string()`. */
  function Render(n: nat): (s: string)
    ensures |s| > 0 && AllDigits(s)
  {
    if n < 10 then [DigitChar(n)] else Render(n / 10) + [DigitChar(n % 10)]
  }

  function DigitsValue(s: string): nat
    requires AllDigits(s)
  {
    if s == [] then 0 else 10 * DigitsValue(s[..|s| - 1]) + DigitValue(s[|s| - 1])
  }

  lemma {:induction false} DigitsValueOfRender(n: nat)
    ensures DigitsValue(Render(n)) == n
  {
    if n >= 10 {
      DigitsValueOfRender(n / 10);
      assert Render(n)[..|Render(n)| - 1] == Render(n / 10);
    }
  }

  lemma RenderInjective(a: nat, b: nat)
    requires Render(a) == Render(b)
    ensures a == b
  {
    DigitsValueOfRender(a);
    DigitsValueOfRender(b);
  }

  /** The Unicode White_Space property that `str::trim` strips. */
  predicate IsSpace(c: char) {
    var x := c as int;
    || 0x09 <= x <= 0x0D || x == 0x20 || x == 0x85 || x == 0xA0 || x == 0x1680
    || 0x2000 <= x <= 0x200A || x == 0x2028 || x == 0x2029 || x == 0x202F
    || x == 0x205F || x == 0x3000
  }

  function TrimStart(s: string): string {
    if s != [] && IsSpace(s[0]) then TrimStart(s[1..]) else s
  }

  function TrimEnd(s: string): string {
    if s != [] && IsSpace(s[|s| - 1]) then TrimEnd(s[..|s| - 1]) else s
  }

  function Trim(s: string): string {
    TrimEnd(TrimStart(s))
  }

  /** `s.parse::<u64>()`: an optional plus sign, at least one digit, no overflow. */
  function ParseU64(s: string): Option<u64>
  {
    var digits := if s != [] && s[0] == '+' then s[1..] else s;
    if digits == [] || !AllDigits(digits) then None
    else
      var v := DigitsValue(digits);
      if v < 0x1_0000_0000_0000_0000 then Some(v) else None
  }

  /** A number printed by the kernel with a trailing newline comes back unchanged,
      unless it is too wide for a u64, in which case nothing comes back. */
  lemma ParseOfPrinted(n: nat)
    ensures ParseU64(Trim(Render(n) + "\n"))
         == if n < 0x1_0000_0000_0000_0000 then Some(n) else None
  {
    var s := Render(n);
    assert (s + "\n")[..|s|] == s;
    assert TrimStart(s + "\n") == s + "\n";
    assert TrimEnd(s + "\n") == TrimEnd(s) == s;
    DigitsValueOfRender(n);
  }

  /** Text between its outermost non-spaces. */
  predicate Tight(s: string) {
    s == [] || (!IsSpace(s[0]) && !IsSpace(s[|s| - 1]))
  }

  predicate AllSpaces(s: string) {
    forall i :: 0 <= i < |s| ==> IsSpace(s[i])
  }

  /** The twenty-five characters that are White_Space. */
  lemma SpacesAre(c: char)
    ensures IsSpace(c) <==>
            (c as int) in {0x09, 0x0A, 0x0B, 0x0C, 0x0D, 0x20, 0x85, 0xA0, 0x1680,
                           0x2000, 0x2001, 0x2002, 0x2003, 0x2004, 0x2005, 0x2006, 0x2007, 0x2008, 0x2009, 0x200A,
                           0x2028, 0x2029, 0x202F, 0x205F, 0x3000}
  {
  }

  lemma {:induction false} TrimStartOfPadded(pad: string, s: string)
    requires AllSpaces(pad) && (s == [] || !IsSpace(s[0]))
    ensures TrimStart(pad + s) == s
    decreases pad
  {
    if pad == [] {
      assert pad + s == s;
    } else {
      assert (pad + s)[0] == pad[0] && (pad + s)[1..] == pad[1..] + s;
      TrimStartOfPadded(pad[1..], s);
    }
  }

  lemma {:induction false} TrimEndOfPadded(s: string, pad: string)
    requires AllSpaces(pad) && (s == [] || !IsSpace(s[|s| - 1]))
    ensures TrimEnd(s + pad) == s
    decreases pad
  {
    if pad == [] {
      assert s + pad == s;
    } else {
      var most := pad[..|pad| - 1];
      assert (s + pad)[|s + pad| - 1] == pad[|pad| - 1] && (s + pad)[..|s + pad| - 1] == s + most;
      TrimEndOfPadded(s, most);
    }
  }

  /** Trimming removes all padding and nothing else, so text has one trimmed form. */
  lemma TrimOfPadded(before: string, s: string, after: string)
    requires AllSpaces(before) && AllSpaces(after) && Tight(s)
    ensures Trim(before + s + after) == s
  {
    if s == [] {
      assert before + s + after == (before + after) + [];
      TrimStartOfPadded(before + after, []);
    } else {
      assert before + s + after == before + (s + after);
      TrimStartOfPadded(before, s + after);
      TrimEndOfPadded(s, after);
    }
  }

  function ZeroDigits(n: nat): (s: string)
    ensures |s| == n && AllDigits(s)
  {
    seq(n, i => '0')
  }

  lemma {:induction false} DigitsOfPadded(zeros: nat, n: nat)
    ensures DigitsValue(ZeroDigits(zeros) + Render(n)) == n
    decreases n
  {
    var s := ZeroDigits(zeros) + Render(n);
    if n < 10 {
      assert s[..|s| - 1] == ZeroDigits(zeros);
      DigitsOfZeros(zeros);
    } else {
      assert s[..|s| - 1] == ZeroDigits(zeros) + Render(n / 10);
      DigitsOfPadded(zeros, n / 10);
    }
  }

  lemma {:induction false} DigitsOfZeros(zeros: nat)
    ensures DigitsValue(ZeroDigits(zeros)) == 0
  {
    if zeros > 0 {
      assert ZeroDigits(zeros)[..zeros - 1] == ZeroDigits(zeros - 1);
      DigitsOfZeros(zeros - 1);
    }
  }

  /** Any digits are the shortest form of their value behind some zeros. */
  lemma {:induction false} DigitsArePadded(s: string) returns (zeros: nat)
    requires s != [] && AllDigits(s)
    ensures s == ZeroDigits(zeros) + Render(DigitsValue(s))
  {
    var most, last := s[..|s| - 1], s[|s| - 1];
    assert s == most + [last];
    assert DigitChar(DigitValue(last)) == last;
    if DigitsValue(most) == 0 {
      zeros := |most|;
      if most != [] {
        var z := DigitsArePadded(most);
        assert most == ZeroDigits(|most|);
      }
    } else {
      zeros := DigitsArePadded(most);
    }
  }

  function Signed(plus: bool, digits: string): string {
    if plus then "+" + digits else digits
  }

  /** How a client may write the number v: an optional plus sign, any zeros, the shortest form. */
  predicate Spells(s: string, plus: bool, zeros: nat, v: nat) {
    s == Signed(plus, ZeroDigits(zeros) + Render(v))
  }

  /** Parsing accepts exactly the spellings of the numbers a u64 holds. */
  lemma ParseIsExact(s: string, v: nat)
    ensures ParseU64(s) == Some(v) <==>
            v < 0x1_0000_0000_0000_0000 && exists plus, zeros: nat :: Spells(s, plus, zeros, v)
  {
    if ParseU64(s) == Some(v) {
      var plus, zeros := ParsedIsSpelling(s, v);
      assert Spells(s, plus, zeros, v);
    }
    if v < 0x1_0000_0000_0000_0000 && exists plus, zeros: nat :: Spells(s, plus, zeros, v) {
      var plus, zeros: nat :| Spells(s, plus, zeros, v);
      SpellingIsParsed(s, plus, zeros, v);
    }
  }

  lemma ParsedIsSpelling(s: string, v: nat) returns (plus: bool, zeros: nat)
    requires ParseU64(s) == Some(v)
    ensures Spells(s, plus, zeros, v)
  {
    plus := s[0] == '+';
    zeros := DigitsArePadded(if plus then s[1..] else s);
    assert plus ==> s == "+" + s[1..];
  }

  lemma SpellingIsParsed(s: string, plus: bool, zeros: nat, v: nat)
    requires Spells(s, plus, zeros, v) && v < 0x1_0000_0000_0000_0000
    ensures ParseU64(s) == Some(v)
  {
    DigitsOfPadded(zeros, v);
    ParseOfDigits(ZeroDigits(zeros) + Render(v));
  }

  lemma ParseOfDigits(digits: string)
    requires digits != [] && AllDigits(digits) && DigitsValue(digits) < 0x1_0000_0000_0000_0000
    ensures forall plus :: ParseU64(Signed(plus, digits)) == Some(DigitsValue(digits))
  {
    assert IsDigit(digits[0]);
    assert ("+" + digits)[1..] == digits;
  }

  // ----- Names of configfs entries -----

  const PREFIX := "sev-snp-rs-"

  /** `format!("sev-snp-rs-{}-{}", pid, n)` */
  function EntryName(pid: nat, n: nat): string {
    PREFIX + Render(pid) + "-" + Render(n)
  }

  /** Different (process, counter) pairs never share a name: the dash between the
      numbers cannot be confused with a digit. */
  lemma EntryNameInjective(p: nat, n: nat, q: nat, m: nat)
    requires EntryName(p, n) == EntryName(q, m)
    ensures p == q && n == m
  {
    var a, b := Render(p), Render(q);
    var x, y := a + "-" + Render(n), b + "-" + Render(m);
    assert EntryName(p, n) == PREFIX + x && EntryName(q, m) == PREFIX + y;
    assert x == (PREFIX + x)[|PREFIX|..] == (PREFIX + y)[|PREFIX|..] == y;
    assert x[|a|] == '-' && forall i :: 0 <= i < |b| ==> IsDigit(y[i]);
    assert y[|b|] == '-' && forall i :: 0 <= i < |a| ==> IsDigit(x[i]);
    assert |a| == |b|;
    assert a == x[..|a|] == y[..|b|] == b;
    assert Render(n) == x[|a| + 1..] == y[|b| + 1..] == Render(m);
    RenderInjective(p, q);
    RenderInjective(n, m);
  }
}
