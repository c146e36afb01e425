/** Signed 64-bit integers and their decimal text, as strconv.Atoi and strconv.Itoa read and
    write it. */
module Decimal {
  import opened Bytes

  const TWO63: int := 0x8000_0000_0000_0000
  const TWO64: int := 0x1_0000_0000_0000_0000

  predicate FitsInt64(n: int) {
    -TWO63 <= n < TWO63
  }

  /** Two's-complement wrap-around of a 64-bit result. */
  function Wrap64(n: int): (w: int)
    ensures FitsInt64(w)
    ensures FitsInt64(n) ==> w == n
  {
    (n + TWO63) % TWO64 - TWO63
  }

  /** Wrapping at every step is wrapping once at the end. */
  lemma WrapAdd(a: int, b: int)
    ensures Wrap64(Wrap64(a) + b) == Wrap64(a + b)
  {
    var q := (a + TWO63) / TWO64;
    assert Wrap64(a) == a - q * TWO64;
    assert (Wrap64(a) + b + TWO63) + q * TWO64 == a + b + TWO63;
    ModShift(Wrap64(a) + b + TWO63, q);
  }

  lemma ModShift(x: int, q: int)
    ensures (x + q * TWO64) % TWO64 == x % TWO64
  {
  }

  lemma WrapShift(n: int, o: int)
    requires FitsInt64(n) && FitsInt64(o)
    ensures Wrap64(n + o) == n <==> o == 0
  {
  }

  predicate IsDigit(c: Byte) {
    '0' <= c <= '9'
  }

  predicate AllDigits(s: Bytes) {
    forall i :: 0 <= i < |s| ==> IsDigit(s[i])
  }

  function Value(s: Bytes): nat
    requires AllDigits(s)
  {
    if s == [] then 0 else 10 * Value(s[..|s| - 1]) + (s[|s| - 1] as int - '0' as int)
  }

  function Digit(n: nat): (c: Byte)
    requires n < 10
    ensures IsDigit(c)
  {
    (n + '0' as int) as char
  }

  function Digits(n: nat): (s: Bytes)
    ensures s != [] && AllDigits(s)
  {
    if n < 10 then [Digit(n)] else Digits(n / 10) + [Digit(n % 10)]
  }

  predicate Signed(s: Bytes) {
    s != [] && (s[0] == '-' || s[0] == '+')
  }

  function Magnitude(s: Bytes): Bytes {
    if Signed(s) then s[1..] else s
  }

  function Atoi(s: Bytes): (r: Option<int>)
    ensures r.Some? ==> FitsInt64(r.value)
  {
    var m := Magnitude(s);
    if m == [] || !AllDigits(m) then None
    else
      var v: int := Value(m);
      var n := if s[0] == '-' then -v else v;
      if FitsInt64(n) then Some(n) else None
  }

  function Itoa(n: int): (s: Bytes)
    ensures s != []
  {
    if n < 0 then ['-'] + Digits(-n) else Digits(n)
  }

  lemma {:induction false} ValueDigits(n: nat)
    ensures Value(Digits(n)) == n
  {
    if n >= 10 {
      ValueDigits(n / 10);
      assert Digits(n)[..|Digits(n)| - 1] == Digits(n / 10);
    } else {
      assert Digits(n)[..0] == [];
    }
  }

  /** Parsing undoes printing, for every 64-bit integer. */
  lemma AtoiItoa(n: int)
    requires FitsInt64(n)
    ensures Atoi(Itoa(n)) == Some(n)
  {
    hide Digits, Value;
    var m := if n < 0 then -n else n;
    ValueDigits(m);
    if n < 0 {
      assert Itoa(n)[1..] == Digits(m);
    } else {
      assert IsDigit(Digits(m)[0]);
    }
  }

  /** The texts that Itoa writes: no plus sign, no leading zero, no minus zero. */
  predicate Canonical(s: Bytes) {
    var m := Magnitude(s);
    m != [] && (s[0] != '+') && (m[0] == '0' ==> |s| == 1)
  }

  lemma {:induction false} DigitsHead(n: nat)
    ensures Digits(n)[0] == '0' ==> n == 0 && Digits(n) == ['0']
  {
    if n >= 10 {
      DigitsHead(n / 10);
    }
  }

  lemma {:induction false} ValueOfTail(s: Bytes)
    requires AllDigits(s) && s != [] && s[0] != '0'
    ensures Value(s) > 0 && Digits(Value(s)) == s
  {
    var init, last := s[..|s| - 1], s[|s| - 1];
    assert s == init + [last];
    if init == [] {
      assert Value(init) == 0;
      DigitsOf(0, last);
    } else {
      hide Digits;
      ValueOfTail(init);
      DigitsOf(Value(init), last);
    }
  }

  lemma DigitsOf(v: nat, c: Byte)
    requires IsDigit(c)
    ensures var n := 10 * v + (c as int - '0' as int); Digits(n) == if v == 0 then [c] else Digits(v) + [c]
  {
    var d := c as int - '0' as int;
    assert Digit(d) == c && (10 * v + d) / 10 == v && (10 * v + d) % 10 == d;
  }

  lemma ValueZero(s: Bytes)
    requires s == ['0']
    ensures Value(s) == 0 && Digits(0) == s
  {
    assert s[..0] == [];
  }

  /** Printing undoes parsing exactly on canonical text. */
  lemma ItoaAtoi(s: Bytes)
    requires Atoi(s).Some?
    ensures Itoa(Atoi(s).value) == s <==> Canonical(s)
  {
    var m, n := Magnitude(s), Atoi(s).value;
    hide Value, Digits;
    if Canonical(s) {
      if m[0] == '0' {
        ValueZero(m);
      } else {
        ValueOfTail(m);
        assert n < 0 ==> s == ['-'] + m;
      }
    } else if Itoa(n) == s {
      if n < 0 {
        assert s[1..] == Digits(-n);
        DigitsHead(-n);
      } else {
        assert IsDigit(Digits(n)[0]);
        DigitsHead(n);
      }
    }
  }

  lemma ItoaInjective(m: int, n: int)
    requires FitsInt64(m) && FitsInt64(n) && Itoa(m) == Itoa(n)
    ensures m == n
  {
    AtoiItoa(m);
    AtoiItoa(n);
  }

  // ------------------------------------------------------------------ in plain figures

  lemma Int64Range(n: int)
    ensures FitsInt64(n) <==> -9_223_372_036_854_775_808 <= n <= 9_223_372_036_854_775_807
  {
  }

  /** Wrapping around is adding or taking away 2^64 until the result fits. */
  lemma Wrap64Is(n: int)
    ensures -9_223_372_036_854_775_808 <= Wrap64(n) <= 9_223_372_036_854_775_807
    ensures exists q: int :: Wrap64(n) == n - q * 18_446_744_073_709_551_616
  {
    var q := (n + TWO63) / TWO64;
    assert Wrap64(n) == n - q * 18_446_744_073_709_551_616;
  }

  /** The decimal text of an integer, digit by digit. */
  lemma TextOfInteger(n: int, d: int)
    requires 0 <= n && 0 <= d < 10
    ensures Itoa(d) == [('0' as int + d) as char]
    ensures n > 0 ==> Itoa(10 * n + d) == Itoa(n) + [('0' as int + d) as char] && Itoa(-n) == ['-'] + Itoa(n)
  {
    assert (10 * n + d) / 10 == n && (10 * n + d) % 10 == d;
  }

  function Padding(z: nat): Bytes {
    seq(z, _ => '0')
  }

  lemma {:induction false} ValuePadded(z: nat, s: Bytes)
    requires AllDigits(s)
    ensures AllDigits(Padding(z) + s) && Value(Padding(z) + s) == Value(s)
    decreases |s|, z
  {
    var t := Padding(z) + s;
    if s != [] {
      ValuePadded(z, s[..|s| - 1]);
      assert t[..|t| - 1] == Padding(z) + s[..|s| - 1];
    } else if z > 0 {
      ValuePadded(z - 1, []);
      assert t[..z - 1] == Padding(z - 1) + [];
    }
  }

  lemma AtoiOf(m: Bytes, n: int)
    requires m != [] && AllDigits(m) && Value(m) == n && n <= 9_223_372_036_854_775_807
    ensures Atoi(m) == Some(n) && Atoi(['+'] + m) == Some(n) && Atoi(['-'] + m) == Some(-n)
  {
    hide Value;
    assert IsDigit(m[0]);
    assert (['+'] + m)[1..] == m && (['-'] + m)[1..] == m;
  }

  /** Zeros in front do not matter, nor does a plus sign; a minus sign negates. */
  lemma AtoiPadded(n: int, z: nat)
    requires 0 <= n <= 9_223_372_036_854_775_807
    ensures Atoi(Padding(z) + Itoa(n)) == Some(n)
    ensures Atoi(['+'] + (Padding(z) + Itoa(n))) == Some(n)
    ensures Atoi(['-'] + (Padding(z) + Itoa(n))) == Some(-n)
  {
    ValueDigits(n);
    ValuePadded(z, Digits(n));
    hide Digits, Value, Atoi;
    AtoiOf(Padding(z) + Digits(n), n);
  }

  /** Only a sign and digits make an integer text. */
  lemma AtoiRefuses(s: Bytes, i: nat)
    requires i < |s| && !('0' <= s[i] <= '9') && (i > 0 || (s[0] != '-' && s[0] != '+') || |s| == 1)
    ensures Atoi(s) == None && Atoi([]) == None
  {
    if i > 0 && Signed(s) {
      assert s[1..][i - 1] == s[i];
    }
  }
}
