/** Unsigned decimal numbers, as Go's `strconv` and `fmt` read and write them. */
module Decimals {
  import opened Wrappers

  function Digit(d: nat): (c: char)
    requires d < 10
    ensures '0' <= c <= '9' && c as int - '0' as int == d
  {
    ('0' as int + d) as char
  }

  predicate IsDecimal(s: string) {
    s != "" && forall i :: 0 <= i < |s| ==> '0' <= s[i] <= '9'
  }

  /** `%v` of an unsigned number. */
  function Decimal(n: nat): (s: string)
    ensures IsDecimal(s)
  {
    if n < 10 then [Digit(n)] else Decimal(n / 10) + [Digit(n % 10)]
  }

  function Value(s: string): nat
    requires forall i :: 0 <= i < |s| ==> '0' <= s[i] <= '9'
  {
    if s == "" then 0 else 10 * Value(s[..|s| - 1]) + (s[|s| - 1] as int - '0' as int)
  }

  /** `strconv.ParseUint(s, 10, bits)`, for `limit == 1 << bits`; `None` for a syntax or a range error. */
  function ParseUint(s: string, limit: nat): (n: Option<nat>)
    ensures n.Some? ==> n.value < limit
  {
    if IsDecimal(s) && Value(s) < limit then Some(Value(s)) else None
  }

  lemma {:induction false} ValueOfDecimal(n: nat)
    ensures Value(Decimal(n)) == n
  {
    var s := Decimal(n);
    if n >= 10 {
      ValueOfDecimal(n / 10);
      assert s[..|s| - 1] == Decimal(n / 10);
    } else {
      assert Value(s[..|s| - 1]) == 0;
    }
  }

  function Power(base: nat, n: nat): nat {
    if n == 0 then 1 else base * Power(base, n - 1)
  }

  /** A digit is worth ten times what it is worth one place further to the right. */
  lemma {:induction false} ValueConcat(a: string, b: string)
    requires forall i :: 0 <= i < |a| ==> '0' <= a[i] <= '9'
    requires forall i :: 0 <= i < |b| ==> '0' <= b[i] <= '9'
    ensures Value(a + b) == Value(a) * Power(10, |b|) + Value(b)
  {
    if b == "" {
      assert a + b == a;
    } else {
      var n := |b| - 1;
      ValueConcat(a, b[..n]);
      assert (a + b)[..|a + b| - 1] == a + b[..n];
      Regroup(Value(a), Power(10, n));
    }
  }

  lemma Regroup(x: nat, y: nat)
    ensures 10 * (x * y) == x * (10 * y)
  {
  }

  lemma ValueOfDigit(c: char)
    requires '0' <= c <= '9'
    ensures Value([c]) == c as int - '0' as int
  {
    assert [c][..0] == "";
  }

  lemma ValueHere()
    ensures Value("8080") == 8080 && Value("443") == 443
  {
    assert "8080"[..3] == "808" && "808"[..2] == "80" && "80"[..1] == "8";
    assert "443"[..2] == "44" && "44"[..1] == "4";
    ValueOfDigit('8');
    ValueOfDigit('4');
  }

  /** The only text of digits without a leading zero that has the value `n` is the one that is printed. */
  lemma DecimalIsOnly(s: string, n: nat)
    ensures s == Decimal(n) <==> IsDecimal(s) && Value(s) == n && (|s| > 1 ==> s[0] != '0')
  {
    ValueOfDecimal(n);
    NoLeadingZero(n);
    if IsDecimal(s) && (|s| > 1 ==> s[0] != '0') { DecimalOfValue(s); }
  }

  lemma {:induction false} DecimalOfValue(s: string)
    requires IsDecimal(s) && (|s| > 1 ==> s[0] != '0')
    ensures Decimal(Value(s)) == s
  {
    var k := |s| - 1;
    var d := s[k] as int - '0' as int;
    assert s == s[..k] + [s[k]] && s[k] == Digit(d);
    hide Value, Decimal;
    if k == 0 {
      ValueOfDigit(s[0]);
      DecimalOfDigit(d);
    } else {
      DecimalOfValue(s[..k]);
      ValuePositive(s[..k]);
      ValueLast(s);
      DecimalLast(Value(s[..k]), d);
    }
  }

  lemma ValueLast(s: string)
    requires IsDecimal(s)
    ensures Value(s) == 10 * Value(s[..|s| - 1]) + (s[|s| - 1] as int - '0' as int)
  {
  }

  lemma DecimalOfDigit(d: nat)
    requires d < 10
    ensures Decimal(d) == [Digit(d)]
  {
  }

  lemma DecimalLast(n: nat, d: nat)
    requires n > 0 && d < 10
    ensures Decimal(10 * n + d) == Decimal(n) + [Digit(d)]
  {
  }

  lemma {:induction false} ValuePositive(s: string)
    requires IsDecimal(s) && s[0] != '0'
    ensures Value(s) > 0
  {
    if |s| > 1 {
      ValuePositive(s[..|s| - 1]);
    } else {
      assert s[..0] == "";
    }
  }

  lemma {:induction false} NoLeadingZero(n: nat)
    ensures n > 0 ==> Decimal(n)[0] != '0'
    ensures n < 10 <==> |Decimal(n)| == 1
  {
    if n >= 10 { NoLeadingZero(n / 10); }
  }

  /** What is printed is read back, unless it is out of range. */
  lemma ParseOfDecimal(n: nat, limit: nat)
    ensures ParseUint(Decimal(n), limit) == if n < limit then Some(n) else None
  {
    ValueOfDecimal(n);
  }

  lemma {:induction false} ZerosAreZero(s: string)
    requires forall i :: 0 <= i < |s| ==> s[i] == '0'
    ensures Value(s) == 0
  {
    if s != "" { ZerosAreZero(s[..|s| - 1]); }
  }

  lemma {:induction false} StripZeros(s: string) returns (k: nat)
    requires IsDecimal(s)
    ensures k < |s| && s[k..] == Decimal(Value(s)) && forall i :: 0 <= i < k ==> s[i] == '0'
  {
    hide Value, Decimal, Power;
    k := 0;
    if |s| == 1 || s[0] != '0' {
      DecimalOfValue(s);
    } else {
      var j := StripZeros(s[1..]);
      assert s == s[..1] + s[1..] && s[j + 1..] == s[1..][j..];
      ZerosInFront(s[..1], s[1..]);
      k := j + 1;
    }
  }

  lemma ZerosInFront(zeros: string, s: string)
    requires IsDecimal(s) && forall i :: 0 <= i < |zeros| ==> zeros[i] == '0'
    ensures IsDecimal(zeros + s) && Value(zeros + s) == Value(s)
  {
    hide Value, Power;
    ZerosAreZero(zeros);
    ValueConcat(zeros, s);
  }

  /** Exactly what is read as a number: the number in range as it is printed, with any zeros in front. */
  lemma ParseAccepts(s: string, limit: nat, n: nat)
    ensures ParseUint(s, limit) == Some(n) <==>
            n < limit && exists k :: 0 <= k < |s| && s[k..] == Decimal(n) && forall i :: 0 <= i < k ==> s[i] == '0'
  {
    hide Value, Decimal, IsDecimal;
    if ParseUint(s, limit) == Some(n) { var k := StripZeros(s); }
    if k :| 0 <= k < |s| && s[k..] == Decimal(n) && forall i :: 0 <= i < k ==> s[i] == '0' {
      assert s == s[..k] + s[k..];
      ZerosInFront(s[..k], s[k..]);
      ValueOfDecimal(n);
    }
  }
}
