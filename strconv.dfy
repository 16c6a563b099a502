/** The two integer conversions of Go that the send path depends on:
    `strconv.Atoi` (base-10 text to a 64-bit `int`) and the narrowing
    conversion `int32(x)`. `FormatInt` is the decimal rendering that `Atoi`
    inverts; it is the reference the round-trip lemma is stated against. */
module GoStrconv {
  import opened OscTypes

  predicate IsDigit(c: char) { '0' <= c <= '9' }

  predicate IsSign(c: char) { c == '+' || c == '-' }

  predicate AllDigits(s: string) {
    forall i :: 0 <= i < |s| ==> IsDigit(s[i])
  }

  function DigitValue(c: char): (d: nat)
    requires IsDigit(c)
    ensures d < 10
  {
    (c as int) - ('0' as int)
  }

  function DigitChar(d: nat): (c: char)
    requires d < 10
    ensures IsDigit(c) && DigitValue(c) == d
  {
    (('0' as int) + d) as char
  }

  /** The value of a run of decimal digits, most significant digit first. */
  function DigitsValue(s: string): nat
    requires AllDigits(s)
  {
    if s == [] then 0 else DigitsValue(s[..|s| - 1]) * 10 + DigitValue(s[|s| - 1])
  }

  /** `strconv.Atoi` with a 64-bit `int`: an optional `+` or `-`, then one or
      more decimal digits (no underscores, no base prefix, leading zeros
      allowed), and a value inside the int64 range. Anything else is an
      error (a syntax error or a range error; both are `None` here). */
  function Atoi(s: string): (r: Option<Int64>)
    ensures r.Some? ==> |s| > 0
    ensures r.Some? ==> forall i :: 0 <= i < |s| ==> IsDigit(s[i]) || (i == 0 && IsSign(s[i]))
    ensures r.Some? ==> IsDigit(s[|s| - 1])
  {
    var body := if |s| > 0 && IsSign(s[0]) then s[1..] else s;
    if body == [] || !AllDigits(body) then None
    else
      var d: int := DigitsValue(body);
      var v := if s[0] == '-' then -d else d;
      if Int64Min <= v <= Int64Max then Some(v) else None
  }

  /** The shortest decimal rendering of a natural number. */
  function FormatNat(n: nat): (s: string)
    ensures |s| > 0 && AllDigits(s)
  {
    if n < 10 then [DigitChar(n)] else FormatNat(n / 10) + [DigitChar(n % 10)]
  }

  /** `strconv.Itoa`: a `-` in front of negative numbers, no `+`. */
  function FormatInt(n: int): (s: string)
    ensures |s| > 0
    ensures s[0] == '-' <==> n < 0
  {
    if n < 0 then "-" + FormatNat(-n) else FormatNat(n)
  }

  lemma {:induction false} DigitsValueOfFormatNat(n: nat)
    ensures DigitsValue(FormatNat(n)) == n
  {
    var s := FormatNat(n);
    if n < 10 {
      assert s[..|s| - 1] == [];
    } else {
      var p := FormatNat(n / 10);
      assert s[..|s| - 1] == p;
      DigitsValueOfFormatNat(n / 10);
    }
  }

  /** `Atoi` inverts `FormatInt` on exactly the int64 range and rejects every
      rendering outside it (Go reports a range error there). */
  lemma AtoiFormatInt(n: int)
    ensures Atoi(FormatInt(n)) == if Int64Min <= n <= Int64Max then Some(n) else None
  {
    var s := FormatInt(n);
    if n < 0 {
      assert s[1..] == FormatNat(-n);
      DigitsValueOfFormatNat(-n);
    } else {
      DigitsValueOfFormatNat(n);
    }
  }

  lemma {:induction false} DigitsValueLeadingZero(d: string)
    requires AllDigits(d)
    ensures AllDigits("0" + d) && DigitsValue("0" + d) == DigitsValue(d)
  {
    var z := "0" + d;
    if d != [] {
      var p := d[..|d| - 1];
      assert z[..|z| - 1] == "0" + p;
      DigitsValueLeadingZero(p);
    } else {
      assert z[..|z| - 1] == [];
    }
  }

  /** Leading zeros change nothing, after a sign or without one. The value
      of every accepted token is given by `AtoiUnsignedValue` and
      `AtoiNegativeValue`. */
  lemma AtoiLeadingZero(d: string)
    requires AllDigits(d) && d != []
    ensures Atoi("0" + d) == Atoi(d)
    ensures Atoi("-0" + d) == Atoi("-" + d)
    ensures Atoi("+0" + d) == Atoi("+" + d)
  {
    DigitsValueLeadingZero(d);
    assert ("-0" + d)[1..] == "0" + d;
    assert ("+0" + d)[1..] == "0" + d;
    assert ("-" + d)[1..] == d;
    assert ("+" + d)[1..] == d;
  }

  /** An unsigned or `+`-signed digit string is read at its value when that
      value fits in an int64, and is a range error otherwise. */
  lemma AtoiUnsignedValue(d: string)
    requires AllDigits(d) && d != []
    ensures Atoi(d) == if DigitsValue(d) <= Int64Max then Some(DigitsValue(d)) else None
    ensures Atoi("+" + d) == Atoi(d)
  {
    assert ("+" + d)[1..] == d;
  }

  /** A `-`-signed digit string is read as the negated value when that fits
      in an int64, down to -2^63, and is a range error otherwise. */
  lemma AtoiNegativeValue(d: string)
    requires AllDigits(d) && d != []
    ensures Atoi("-" + d) ==
      if DigitsValue(d) <= -Int64Min then Some(0 - DigitsValue(d) as int) else None
  {
    assert ("-" + d)[1..] == d;
  }

  /** Minus zero is zero, and zero-padded tokens are read at their value. */
  lemma AtoiZeroPaddedExamples()
    ensures Atoi("-0") == Some(0)
    ensures Atoi("007") == Some(7) && Atoi("-007") == Some(-7)
    ensures Atoi("08") == Some(8) && Atoi("-08") == Some(-8)
  {
    assert "-0"[1..] == "0" && "-007"[1..] == "007" && "-08"[1..] == "08";
    assert "007"[..2] == "00" && "00"[..1] == "0";
    assert "08"[..1] == "0";
    assert "0"[..0] == [];
  }

  /** A token beyond int32 but inside int64 is accepted. */
  lemma AtoiWideToken()
    ensures Atoi("3000000000") == Some(3000000000)
  {
    assert "3000000000"[..9] == "300000000";
    assert "300000000"[..8] == "30000000";
    assert "30000000"[..7] == "3000000";
    assert "3000000"[..6] == "300000";
    assert "300000"[..5] == "30000";
    assert "30000"[..4] == "3000";
    assert "3000"[..3] == "300";
    assert "300"[..2] == "30";
    assert "30"[..1] == "3";
    assert "3"[..0] == [];
  }

  /** A leading `+` changes nothing. */
  lemma AtoiPlusSign(d: string)
    requires AllDigits(d)
    ensures Atoi("+" + d) == Atoi(d)
  {
    assert ("+" + d)[1..] == d;
  }

  /** Go's conversion `int32(x)`: keep the low 32 bits of the two's complement
      representation. The result is the one int32 congruent to `x` modulo 2^32. */
  function Wrap32(x: int): (r: Int32)
    ensures (r - x) % 0x1_0000_0000 == 0
  {
    var m := x % 0x1_0000_0000;
    if m <= Int32Max then m else m - 0x1_0000_0000
  }

  /** Narrowing leaves every value that already fits untouched. */
  lemma Wrap32Identity(x: int)
    requires Int32Min <= x <= Int32Max
    ensures Wrap32(x) == x
  {
    var r := Wrap32(x);
    assert -0x1_0000_0000 < r - x < 0x1_0000_0000;
  }
}
