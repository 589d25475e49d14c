/** The number printers of `src/kernel.c` and the printer and parser of `test/printing.cpp`. */
module Printing {
  import opened Words
  import opened Division
  import opened Semaphores

  /* ---- numerals ---- */

  const DIGITS: string := "0123456789ABCDEF"

  function Digit(d: nat): char
    requires d < 16
  {
    DIGITS[d]
  }

  /** The numeral of n in base b: its digits, the highest first. */
  function Numeral(n: nat, b: nat): string
    requires 2 <= b <= 16
  {
    if n < b then [Digit(n)] else Numeral(n / b, b) + [Digit(n % b)]
  }

  /** The last k digits of n. */
  function Padded(n: nat, k: nat, b: nat): (s: string)
    requires 2 <= b <= 16
    ensures |s| == k
  {
    if k == 0 then "" else Padded(n / b, k - 1, b) + [Digit(n % b)]
  }

  predicate IsDigit(c: char) { '0' <= c <= '9' || 'A' <= c <= 'F' }

  function DigitValue(c: char): nat
    requires IsDigit(c)
  {
    if c <= '9' then (c - '0') as nat else 10 + (c - 'A') as nat
  }

  predicate AllDigits(s: string, b: nat) { forall i :: 0 <= i < |s| ==> IsDigit(s[i]) && DigitValue(s[i]) < b }

  /** What a string of digits means. */
  function Value(s: string, b: nat): nat
    requires AllDigits(s, b)
  {
    if s == "" then 0 else Value(s[..|s| - 1], b) * b + DigitValue(s[|s| - 1])
  }

  function Pow(b: nat, k: nat): nat { if k == 0 then 1 else b * Pow(b, k - 1) }

  lemma DigitMeans(d: nat)
    requires d < 16
    ensures IsDigit(Digit(d)) && DigitValue(Digit(d)) == d && (Digit(d) == '0' <==> d == 0)
    ensures d < 10 ==> Digit(d) == '0' + d as char
  {
  }

  lemma ValueStep(s: string, d: nat, b: nat)
    requires AllDigits(s, b) && d < b <= 16
    ensures AllDigits(s + [Digit(d)], b) && Value(s + [Digit(d)], b) == Value(s, b) * b + d
  {
    DigitMeans(d);
    var t := s + [Digit(d)];
    assert t[..|t| - 1] == s;
  }

  /** A numeral consists of digits, starts with no zero unless it is zero, and means its number. */
  lemma {:induction false} NumeralMeans(n: nat, b: nat)
    requires 2 <= b <= 16
    ensures AllDigits(Numeral(n, b), b) && Value(Numeral(n, b), b) == n
    ensures Numeral(n, b) != "" && (Numeral(n, b)[0] == '0' <==> n == 0)
    decreases n
  {
    if n < b {
      DigitMeans(n);
      ValueStep("", n, b);
      assert "" + [Digit(n)] == [Digit(n)];
    } else {
      Smaller(n, b);
      NumeralMeans(n / b, b);
      Split(n, b);
      ValueStep(Numeral(n / b, b), n % b, b);
    }
  }

  lemma Smaller(n: nat, b: nat)
    requires 2 <= b <= n
    ensures 1 <= n / b < n && n == n / b * b + n % b
  {
  }

  lemma PowStep(b: nat, k: nat)
    requires k >= 1
    ensures Pow(b, k) == b * Pow(b, k - 1)
  {
  }

  lemma NoDigits(b: nat)
    ensures Pow(b, 0) == 1 && AllDigits("", b) && Value("", b) == 0
  {
  }

  /** Padding keeps the value of what fits. */
  lemma {:induction false} PaddedMeans(n: nat, k: nat, b: nat)
    requires 2 <= b <= 16 && n < Pow(b, k)
    ensures AllDigits(Padded(n, k, b), b) && Value(Padded(n, k, b), b) == n
    decreases k
  {
    hide Pow, Value, AllDigits, Digit;
    if k == 0 {
      NoDigits(b);
    } else {
      PowStep(b, k);
      DivBelow(n, b, Pow(b, k - 1));
      Split(n, b);
      PaddedMeans(n / b, k - 1, b);
      ValueStep(Padded(n / b, k - 1, b), n % b, b);
    }
  }

  /** How long a numeral is. */
  lemma {:induction false} NumeralLength(n: nat, b: nat, k: nat)
    requires 2 <= b <= 16 && k >= 1
    ensures |Numeral(n, b)| <= k <==> n < Pow(b, k)
    decreases n
  {
    assert Pow(b, 1) == b;
    if n < b {
      PowGrows(b, 1, k);
    } else if k == 1 {
      Smaller(n, b);
      NumeralMeans(n / b, b);
    } else {
      Smaller(n, b);
      NumeralLength(n / b, b, k - 1);
      DivBelow(n, b, Pow(b, k - 1));
    }
  }

  lemma DivBelow(n: nat, b: nat, p: nat)
    requires b > 0
    ensures n / b < p <==> n < b * p
  {
    if n / b < p {
      assert b * (n / b) <= b * (p - 1);
      assert b * (p - 1) == b * p - b;
    } else {
      assert b * (n / b) >= b * p;
    }
  }

  lemma {:induction false} PowGrows(b: nat, j: nat, k: nat)
    requires b >= 1 && j <= k
    ensures 1 <= Pow(b, j) <= Pow(b, k)
    decreases k
  {
    if k > j {
      PowGrows(b, j, k - 1);
      assert b * Pow(b, k - 1) >= Pow(b, k - 1);
    } else if k > 0 {
      PowGrows(b, j - 1, k - 1);
      assert b * Pow(b, k - 1) >= Pow(b, k - 1);
    }
  }

  /* ---- src/kernel.c ---- */

  lemma DecimalDigit(d: nat)
    requires d < 10
    ensures '0' + d as char == Digit(d)
  {
    DigitMeans(d);
  }

  /** The first loop of both decimal printers: the weight of the first digit. */
  method FirstWeight(v: nat, start: nat, ghost top: nat) returns (mod: nat, ghost k: nat)
    requires v >= 1 && start == Pow(10, top) && v < 10 * start
    ensures mod == Pow(10, k) && mod <= v < 10 * mod
  {
    mod, k := start, top;
    while v / mod == 0
      invariant mod == Pow(10, k) >= 1 && v < 10 * mod
      decreases k
    {
      assert k > 0;
      PowStep(10, k);
      mod, k := mod / 10, k - 1;
    }
  }

  /** The digits of v down to weight p are out, and rest is what they leave. */
  ghost predicate Shown(v: nat, p: nat, rest: nat, out: string) {
    p >= 1 && rest == v % p && out == if v < p then "" else Numeral(v / p, 10)
  }

  lemma ShowFirst(v: nat, p: nat)
    requires v < p
    ensures Shown(v, p, v, "")
  {
  }

  lemma ShowNext(v: nat, p: nat, m: nat, rest: nat, out: string)
    requires Shown(v, p, rest, out) && p == m * 10 && 1 <= m <= v
    ensures rest / m < 10 && Shown(v, m, rest % m, out + ['0' + (rest / m) as char])
  {
    DigitAt(v, m, 10);
    DecimalDigit(rest / m);
    Split(v, m);
    DivBelow(v, m, 10);
  }

  lemma ShowAll(v: nat, p: nat, rest: nat, out: string)
    requires Shown(v, p, rest, out)
    ensures p == 1 && v >= 1 ==> out == Numeral(v, 10)
  {
  }

  /** The second loop of both: digit by digit down from weight `first`. */
  method Emit(v: nat, first: nat, ghost top: nat) returns (out: string)
    requires first == Pow(10, top) && 1 <= first <= v < 10 * first
    ensures out == Numeral(v, 10)
  {
    hide Shown, Numeral, Pow;
    var rest: nat, mod: nat := v, first;
    ghost var p: nat := first * 10;
    ghost var k: nat := top + 1;
    ShowFirst(v, p);
    out := "";
    while mod != 0
      invariant Shown(v, p, rest, out) && mod <= v
      invariant if k == 0 then mod == 0 && p == 1 else mod == Pow(10, k - 1) && mod >= 1 && p == mod * 10
      decreases k
    {
      ShowNext(v, p, mod, rest, out);
      out := out + ['0' + (rest / mod) as char];
      rest := rest % mod;
      p := mod;
      WeightDown(10, k - 1, mod);
      mod, k := mod / 10, k - 1;
    }
    ShowAll(v, p, rest, out);
  }

  /** Dividing a weight by the base gives the next weight, and in the end nothing. */
  lemma WeightDown(b: nat, k: nat, m: nat)
    requires m == Pow(b, k) && b >= 2
    ensures if k == 0 then m == 1 && m / b == 0 else m / b == Pow(b, k - 1) && m / b >= 1 && m == m / b * b
    ensures m / b <= m
  {
    hide Pow;
    NoDigits(b);
    if k == 0 {
      DivModIs(1, b, 0, 1);
    } else {
      PowStep(b, k);
      PowGrows(b, 0, k - 1);
      Divides(m, b, Pow(b, k - 1));
    }
  }

  lemma Divides(m: nat, b: nat, q: nat)
    requires b >= 1 && m == b * q
    ensures m / b == q && m == m / b * b && m / b <= m
  {
    DivModIs(m, b, q, 0);
    MulMono(q, 1, b);
  }

  /** `__print_u64`. */
  method PrintU64(v: nat) returns (out: string)
    requires v < TWO64
    ensures out == Numeral(v, 10)
  {
    if v == 0 { return "0"; }
    assert Pow(10, 19) == 10000000000000000000 by { TenTo19(); }
    var mod, k := FirstWeight(v, 10000000000000000000, 19);
    out := Emit(v, mod, k);
  }

  lemma TenTo19()
    ensures Pow(10, 9) == 1000000000 && Pow(10, 19) == 10000000000000000000
  {
    assert Pow(10, 5) == 100000;
    assert Pow(10, 9) == 1000000000;
    assert Pow(10, 14) == 100000000000000;
  }

  lemma NegateWraps(v: int)
    requires -TWO31 <= v < TWO31
    ensures Wrap32(-v) == if v == -TWO31 then v else -v
  {
  }

  /** `__print_i32`, on every 32-bit value: the least one negates to itself and is then read as
      unsigned. */
  method PrintI32(v: int) returns (out: string)
    requires -TWO31 <= v < TWO31
    ensures out == if v < 0 then "-" + Numeral(-v, 10) else Numeral(v, 10)
  {
    if v == 0 { return "0"; }
    hide Numeral, Pow, Wrap32;
    var x := v;
    var sign := "";
    NegateWraps(v);
    if v < 0 {
      sign := "-";
      x := Wrap32(-x - 1 + 1);
    }
    var u: nat := if x < 0 then x + TWO32 else x;
    TenTo19();
    var mod, k := FirstWeight(u, 1000000000, 9);
    var digits := Emit(u, mod, k);
    out := sign + digits;
  }

  /** The first j hexadecimal digits of v are out, down to weight p. */
  ghost predicate ShownHex(v: nat, p: nat, j: nat, rest: nat, out: string) {
    p >= 1 && rest == v % p && out == Padded(v / p, j, 16)
  }

  lemma ShowHexFirst(v: nat, p: nat)
    requires v < p
    ensures ShownHex(v, p, 0, v, "")
  {
  }

  lemma ShowHexNext(v: nat, p: nat, m: nat, j: nat, rest: nat, out: string)
    requires ShownHex(v, p, j, rest, out) && p == m * 16 && m >= 1
    ensures rest / m < 16 && ShownHex(v, m, j + 1, rest % m, out + [DIGITS[rest / m]])
  {
    DigitAt(v, m, 16);
  }

  lemma ShowHexAll(v: nat, p: nat, j: nat, rest: nat, out: string)
    requires ShownHex(v, p, j, rest, out)
    ensures p == 1 ==> out == Padded(v, j, 16)
  {
  }

  /** The loop of both hexadecimal printers, from weight 16^(top - 1) down. */
  method EmitHex(v: nat, first: nat, ghost top: nat) returns (out: string)
    requires top >= 1 && first == Pow(16, top - 1) >= 1 && v < first * 16
    ensures out == Padded(v, top, 16)
  {
    hide ShownHex, Padded, Pow;
    var rest: nat, mod: nat := v, first;
    ghost var p: nat, k: nat := first * 16, top;
    ShowHexFirst(v, p);
    out := "";
    while mod != 0
      invariant k <= top && ShownHex(v, p, top - k, rest, out)
      invariant if k == 0 then mod == 0 && p == 1 else mod == Pow(16, k - 1) && mod >= 1 && p == mod * 16
      decreases k
    {
      ShowHexNext(v, p, mod, top - k, rest, out);
      out := out + [DIGITS[rest / mod]];
      rest := rest % mod;
      p := mod;
      WeightDown(16, k - 1, mod);
      mod, k := mod / 16, k - 1;
    }
    ShowHexAll(v, p, top, rest, out);
  }

  lemma SixteenTo15()
    ensures Pow(16, 7) == 0x1000_0000 && Pow(16, 8) == TWO32
    ensures Pow(16, 15) == 0x1000_0000_0000_0000 && Pow(16, 16) == TWO64
  {
    assert Pow(16, 4) == 0x1_0000;
    assert Pow(16, 7) == 0x1000_0000;
    assert Pow(16, 11) == 0x1000_0000_0000;
    assert Pow(16, 15) == 0x1000_0000_0000_0000;
  }

  /** `__print_h64`: always sixteen digits. */
  method PrintH64(v: nat) returns (out: string)
    requires v < TWO64
    ensures |out| == 16 && AllDigits(out, 16) && Value(out, 16) == v
  {
    SixteenTo15();
    out := EmitHex(v, 0x1000_0000_0000_0000, 16);
    PaddedMeans(v, 16, 16);
  }

  /** `__print_h32`: always eight. */
  method PrintH32(v: nat) returns (out: string)
    requires v < TWO32
    ensures |out| == 8 && AllDigits(out, 16) && Value(out, 16) == v
  {
    SixteenTo15();
    out := EmitHex(v, 0x1000_0000, 8);
    PaddedMeans(v, 8, 16);
  }

  /* ---- test/printing.cpp ---- */

  const BUFFER: nat := 16

  function Reversed(s: string): (r: string)
    ensures |r| == |s|
  {
    if s == "" then "" else [s[|s| - 1]] + Reversed(s[..|s| - 1])
  }

  lemma ReversedPush(s: string, c: char)
    ensures Reversed(s + [c]) == [c] + Reversed(s)
  {
    assert (s + [c])[..|s|] == s;
  }

  /** The magnitude printed and whether a sign is. */
  function IsNegative(xx: int, sgn: bool): bool { sgn && xx < 0 }

  function Magnitude(xx: int, sgn: bool): nat
    requires -TWO31 <= xx < TWO31
  {
    if IsNegative(xx, sgn) then -xx else if xx < 0 then xx + TWO32 else xx
  }

  /** `printInt`: false if it writes past its 16-character buffer. */
  method PrintInt(xx: int, base: nat, sgn: bool) returns (out: string, fits: bool)
    requires -TWO31 <= xx < TWO31 && 2 <= base <= 16
    ensures fits <==> Magnitude(xx, sgn) < Pow(base, if IsNegative(xx, sgn) then 15 else 16)
    ensures fits ==> out == (if IsNegative(xx, sgn) then "-" else "") + Numeral(Magnitude(xx, sgn), base)
  {
    hide Numeral, Reversed, Pow;
    var neg := sgn && xx < 0;
    var x: nat := if neg then Unsigned(Wrap32(-xx)) else Unsigned(xx);
    ghost var all := Numeral(x, base);
    NumeralLength(x, base, if neg then 15 else 16);
    var buf := new char[BUFFER];
    var i := DigitsInto(buf, x, base);
    if i > BUFFER { return "", false; }
    if neg {
      if i == BUFFER { return "", false; }
      buf[i] := '-';
      ReversedPush(buf[..i], '-');
      assert buf[..i + 1] == buf[..i] + ['-'];
      i := i + 1;
    }
    out := Backwards(buf, i);
    return out, true;
  }

  function Unsigned(x: int): nat
    requires -TWO31 <= x < TWO31
  {
    if x < 0 then x + TWO32 else x
  }

  /** The digit loop of `printInt`, lowest digit first; more than 16 if the buffer is too small. */
  method DigitsInto(buf: array<char>, x0: nat, base: nat) returns (i: nat)
    requires buf.Length == BUFFER && 2 <= base <= 16
    modifies buf
    ensures i > BUFFER <==> |Numeral(x0, base)| > BUFFER
    ensures i <= BUFFER ==> i == |Numeral(x0, base)| && Reversed(buf[..i]) == Numeral(x0, base)
  {
    hide Numeral, Reversed, Low, Rest;
    var x: nat := x0;
    i := 0;
    StartReversed(buf[..0], Numeral(x0, base));
    while true
      invariant i <= BUFFER && Numeral(x0, base) == Numeral(x, base) + Reversed(buf[..i])
      decreases x
    {
      NumeralStep(x, base);
      if i == BUFFER { return BUFFER + 1; }
      var c, rest := Low(x, base), Rest(x, base);
      ghost var before := buf[..i];
      Regroup(Numeral(rest, base), c, Reversed(before));
      ReversedPush(before, c);
      buf[i] := c;
      assert buf[..i + 1] == before + [c];
      i, x := i + 1, rest;
      if x == 0 { break; }
    }
  }

  lemma Regroup(a: string, c: char, r: string)
    ensures a + [c] + r == a + ([c] + r) && [c] + r == "" + ([c] + r)
  {
  }

  lemma StartReversed(s: string, t: string)
    requires s == ""
    ensures t == t + Reversed(s)
  {
  }

  /** The digit that `x % base` picks. */
  function Low(x: nat, b: nat): char
    requires 2 <= b <= 16
  {
    DIGITS[x % b]
  }

  function Rest(x: nat, b: nat): nat
    requires 2 <= b <= 16
  {
    x / b
  }

  lemma NumeralStep(x: nat, b: nat)
    requires 2 <= b <= 16
    ensures |Numeral(x, b)| >= 1
    ensures if Rest(x, b) == 0 then Numeral(x, b) == [Low(x, b)]
            else Numeral(x, b) == Numeral(Rest(x, b), b) + [Low(x, b)] && Rest(x, b) < x
  {
    if x >= b { Smaller(x, b); }
    Split(x, b);
  }

  /** The output loop of `printInt`. */
  method Backwards(buf: array<char>, n: nat) returns (out: string)
    requires n <= buf.Length
    ensures out == Reversed(buf[..n])
  {
    hide Reversed;
    out := "";
    var i: int := n - 1;
    while i >= 0
      invariant -1 <= i < n && out + Reversed(buf[..i + 1]) == Reversed(buf[..n])
    {
      Regroup(out, buf[i], Reversed(buf[..i]));
      assert buf[..i + 1] == buf[..i] + [buf[i]];
      ReversedPush(buf[..i], buf[i]);
      out := out + [buf[i]];
      i := i - 1;
    }
    StartReversed(buf[..0], out);
  }

  /** From base 5 on the buffer is always large enough; in base 4 it is too small for exactly the
      signed numbers up to -2^30. */
  lemma BufferSuffices(xx: int, base: nat, sgn: bool)
    requires -TWO31 <= xx < TWO31 && 4 <= base <= 16
    ensures Magnitude(xx, sgn) < Pow(base, if IsNegative(xx, sgn) then 15 else 16)
            <==> !(base == 4 && sgn && xx <= -0x4000_0000)
  {
    var k := if IsNegative(xx, sgn) then 15 else 16;
    FourAndFive();
    if base >= 5 { BaseGrows(5, base, k); PowGrows(5, 15, k); }
  }

  lemma FourAndFive()
    ensures Pow(4, 15) == 0x4000_0000 && Pow(4, 16) == TWO32 && Pow(5, 15) >= TWO32
  {
    assert Pow(4, 8) == 65536;
    assert Pow(4, 12) == 16777216;
    assert Pow(4, 15) == 0x4000_0000;
    assert Pow(5, 8) == 390625;
    assert Pow(5, 12) == 244140625;
  }

  lemma {:induction false} BaseGrows(a: nat, b: nat, k: nat)
    requires a <= b
    ensures Pow(a, k) <= Pow(b, k)
  {
    if k > 0 {
      BaseGrows(a, b, k - 1);
      MulMono(a, Pow(a, k - 1), Pow(b, k - 1));
      MulMono(Pow(b, k - 1), a, b);
    }
  }

  /* ---- stringToInt ---- */

  predicate IsDecimal(c: char) { '0' <= c <= '9' }

  /** The decimal digits a string starts with. */
  function Prefix(s: string): (p: string)
    ensures AllDigits(p, 10)
  {
    if s != "" && IsDecimal(s[0]) then [s[0]] + Prefix(s[1..]) else ""
  }

  const PARSE_MAX: nat := 2147483599

  /** `stringToInt` on a zero-terminated string: the value of the leading digits, wrapped to 32
      bits; `overflow` tells whether any intermediate result left the range of an int. */
  method StringToInt(s: string) returns (n: int, overflow: bool)
    requires s != "" && s[|s| - 1] == 0 as char
    ensures n == Wrap32(Value(Prefix(s), 10))
    ensures overflow <==> Value(Prefix(s), 10) > PARSE_MAX
  {
    n, overflow := 0, false;
    var i := 0;
    ghost var done := "";
    StartParse(s);
    while '0' <= s[i] <= '9'
      invariant i < |s| && AllDigits(done, 10) && done + Prefix(s[i..]) == Prefix(s)
      invariant n == Wrap32(Value(done, 10)) && (overflow <==> Value(done, 10) > PARSE_MAX)
      decreases |s| - i
    {
      hide Value, AllDigits, Prefix, Wrap32;
      var c := s[i] as int;
      ParseStep(done, s[i]);
      PrefixStep(s, i, done);
      ParseArith(n, Value(done, 10), c);
      if n * 10 != Wrap32(n * 10) || Wrap32(n * 10) + c != Wrap32(Wrap32(n * 10) + c) { overflow := true; }
      n := Wrap32(Wrap32(Wrap32(n * 10) + c) - 48);
      done := done + [s[i]];
      i := i + 1;
    }
    EndParse(s, i, done);
  }

  lemma WrapShift(x: int, k: int)
    ensures Wrap32(x + TWO32 * k) == Wrap32(x)
  {
  }

  lemma WrapIs(x: int) returns (k: int)
    ensures Wrap32(x) == x + TWO32 * k
  {
    k := -((x + MAX32 + 1) / TWO32);
  }

  /** Three wrapped steps make one wrapped result; the first overflow comes with the first prefix
      that is too large. */
  lemma ParseArith(n: int, v: nat, c: int)
    requires n == Wrap32(v) && 48 <= c <= 57
    ensures Wrap32(Wrap32(Wrap32(n * 10) + c) - 48) == Wrap32(v * 10 + (c - 48))
    ensures v > PARSE_MAX || n * 10 != Wrap32(n * 10) || Wrap32(n * 10) + c != Wrap32(Wrap32(n * 10) + c)
            <==> v * 10 + (c - 48) > PARSE_MAX
  {
    hide Wrap32;
    var j := WrapIs(v);
    var k := WrapIs(n * 10);
    var l := WrapIs(Wrap32(n * 10) + c);
    WrapShift(v * 10 + (c - 48), 10 * j + k + l);
  }

  lemma StartParse(s: string)
    ensures "" + Prefix(s[0..]) == Prefix(s) && AllDigits("", 10) && Value("", 10) == 0
  {
    assert s[0..] == s;
  }

  lemma PrefixStep(s: string, i: nat, done: string)
    requires i < |s| && IsDecimal(s[i])
    ensures done + Prefix(s[i..]) == done + [s[i]] + Prefix(s[i + 1..])
  {
    assert s[i..][1..] == s[i + 1..];
    assert done + ([s[i]] + Prefix(s[i + 1..])) == done + [s[i]] + Prefix(s[i + 1..]);
  }

  lemma EndParse(s: string, i: nat, done: string)
    requires i < |s| && !IsDecimal(s[i]) && done + Prefix(s[i..]) == Prefix(s)
    ensures done == Prefix(s)
  {
    assert done + "" == done;
  }

  lemma ParseStep(done: string, c: char)
    requires AllDigits(done, 10) && IsDecimal(c)
    ensures AllDigits(done + [c], 10) && Value(done + [c], 10) == Value(done, 10) * 10 + (c as int - 48)
  {
    assert (done + [c])[..|done|] == done;
  }

  /* ---- printing and parsing undo each other ---- */

  lemma {:induction false} PrefixAll(a: string)
    requires forall i :: 0 <= i < |a| ==> IsDecimal(a[i])
    ensures Prefix(a + [0 as char]) == a
  {
    if a == "" {
      assert a + [0 as char] == [0 as char];
    } else {
      assert (a + [0 as char])[1..] == a[1..] + [0 as char];
      PrefixAll(a[1..]);
    }
  }

  /** Parsing what was printed finds the number: the value of the leading digits of a printed
      non-negative number is that number. */
  lemma PrintThenParse(n: nat)
    ensures Prefix(Numeral(n, 10) + [0 as char]) == Numeral(n, 10)
    ensures AllDigits(Numeral(n, 10), 10) && Value(Prefix(Numeral(n, 10) + [0 as char]), 10) == n
    ensures n < TWO31 ==> Wrap32(Value(Prefix(Numeral(n, 10) + [0 as char]), 10)) == n
  {
    NumeralMeans(n, 10);
    PrefixAll(Numeral(n, 10));
  }

  lemma NumeralCons(v: nat, d: nat, b: nat)
    requires 2 <= b <= 16 && d < b
    ensures Numeral(v * b + d, b) == (if v == 0 then "" else Numeral(v, b)) + [Digit(d)]
  {
    assert v * b + d == b * v + d;
    DivModIs(v * b + d, b, v, d);
    if v >= 1 { MulMono(b, 1, v); }
  }

  lemma LastDigit(s: string, b: nat) returns (d: nat)
    requires 2 <= b <= 16 && s != "" && AllDigits(s, b)
    ensures var t := s[..|s| - 1]; AllDigits(t, b) && d < b && Value(s, b) == Value(t, b) * b + d && s == t + [Digit(d)]
  {
    d := DigitValue(s[|s| - 1]);
  }

  /** And there is only one way to print a number: any digits without a leading zero are the
      numeral of their value. */
  lemma {:induction false} ParseThenPrint(s: string, b: nat)
    requires 2 <= b <= 16 && s != "" && AllDigits(s, b) && (s[0] == '0' ==> |s| == 1)
    ensures Numeral(Value(s, b), b) == s
  {
    hide Numeral, Value, Digit, DigitValue, AllDigits;
    var t := s[..|s| - 1];
    var d := LastDigit(s, b);
    NumeralCons(Value(t, b), d, b);
    if t == "" {
      NoDigits(b);
    } else {
      ParseThenPrint(t, b);
      NotZero(t, b);
    }
  }

  lemma {:induction false} NotZero(s: string, b: nat)
    requires 2 <= b <= 16 && s != "" && AllDigits(s, b) && s[0] != '0'
    ensures Value(s, b) >= 1
  {
    if |s| > 1 {
      NotZero(s[..|s| - 1], b);
      MulMono(b, 1, Value(s[..|s| - 1], b));
    } else {
      assert s[..0] == "";
    }
  }
}
