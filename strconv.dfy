/**
 * Go's `strconv.Atoi` on a 64-bit platform: an optional sign followed by one or more
 * decimal digits, whose value must fit in a signed 64-bit integer. `Itoa` is its
 * inverse and serves as the reference the round trip is proved against.
 */
module Strconv {
  import opened Wrappers

  const MinInt64: int := -0x8000_0000_0000_0000
  const MaxInt64: int := 0x7fff_ffff_ffff_ffff

  /** The error Atoi reports, carrying the rejected input as Go's NumError does. */
  datatype NumError = NumError(num: string)

  predicate IsDigit(c: char) { '0' <= c <= '9' }

  predicate AllDigits(s: string) { forall i | 0 <= i < |s| :: IsDigit(s[i]) }

  /** The value of a run of decimal digits, most significant first. */
  function DigitsValue(ds: string): nat
    requires AllDigits(ds)
  {
    if ds == [] then 0
    else 10 * DigitsValue(ds[..|ds| - 1]) + (ds[|ds| - 1] as int - '0' as int)
  }

  predicate HasSign(s: string) { |s| > 0 && (s[0] == '+' || s[0] == '-') }

  /** The digits after an optional leading sign. */
  function Magnitude(s: string): string
  {
    if HasSign(s) then s[1..] else s
  }

  /** The shape Atoi accepts: an optional sign and at least one digit, nothing else. */
  predicate IsDecimal(s: string)
  {
    var m := Magnitude(s);
    |m| > 0 && AllDigits(m)
  }

  /** The value a decimal string denotes: its digits, negated after a '-'. */
  function SignedValue(s: string): int
    requires IsDecimal(s)
  {
    var v: int := DigitsValue(Magnitude(s));
    if s[0] == '-' then -v else v
  }

  function Atoi(s: string): (r: Result<int, NumError>)
    ensures r.Ok? ==> IsDecimal(s) && r.value == SignedValue(s)
    ensures r.Ok? ==> MinInt64 <= r.value <= MaxInt64
    ensures r.Ok? && r.value < 0 ==> s[0] == '-'
    ensures r.Err? ==> r.error == NumError(s)
  {
    if !IsDecimal(s) then Err(NumError(s))
    else
      var n := SignedValue(s);
      if MinInt64 <= n <= MaxInt64 then Ok(n) else Err(NumError(s))
  }

  function DigitChar(d: nat): char
    requires d < 10
  {
    ('0' as int + d) as char
  }

  /** The shortest decimal rendering of a natural number. */
  function Digits(n: nat): (ds: string)
    ensures |ds| > 0 && AllDigits(ds)
  {
    if n < 10 then [DigitChar(n)] else Digits(n / 10) + [DigitChar(n % 10)]
  }

  /** `strconv.Itoa`: a leading '-' for negative numbers, then the digits. */
  function Itoa(n: int): string
  {
    if n < 0 then "-" + Digits(-n) else Digits(n)
  }

  lemma {:induction false} DigitsValueOfDigits(n: nat)
    ensures DigitsValue(Digits(n)) == n
  {
    if n >= 10 {
      DigitsValueOfDigits(n / 10);
      var ds := Digits(n);
      assert ds[..|ds| - 1] == Digits(n / 10);
    }
  }

  /** Atoi reads back every 64-bit integer Itoa writes. */
  lemma AtoiItoa(n: int)
    requires MinInt64 <= n <= MaxInt64
    ensures Atoi(Itoa(n)) == Ok(n)
  {
    var s := Itoa(n);
    if n < 0 {
      DigitsValueOfDigits(-n);
      assert s[0] == '-' && s[1..] == Digits(-n);
      assert Magnitude(s) == Digits(-n);
    } else {
      DigitsValueOfDigits(n);
      assert IsDigit(s[0]);
      assert Magnitude(s) == Digits(n);
    }
  }

  /** Any character other than a digit, or a sign in first position, makes Atoi fail;
      so does the empty string and a lone sign. */
  lemma AtoiRejects(s: string)
    requires s == [] || s == "+" || s == "-" || exists i | 0 <= i < |s| :: !IsDigit(s[i]) && !(i == 0 && HasSign(s))
    ensures Atoi(s) == Err(NumError(s))
  {
    if s != [] && s != "+" && s != "-" {
      var i :| 0 <= i < |s| && !IsDigit(s[i]) && !(i == 0 && HasSign(s));
      if HasSign(s) {
        assert Magnitude(s)[i - 1] == s[i];
      } else {
        assert Magnitude(s)[i] == s[i];
      }
    }
  }

  /** Every well-formed number inside the signed 64-bit range is accepted with its value. */
  lemma AtoiAccepts(s: string)
    requires IsDecimal(s) && MinInt64 <= SignedValue(s) <= MaxInt64
    ensures Atoi(s) == Ok(SignedValue(s))
  {
  }

  /** Atoi fails on a well-formed number outside the signed 64-bit range, on either side. */
  lemma AtoiRange(s: string)
    requires IsDecimal(s) && !(MinInt64 <= SignedValue(s) <= MaxInt64)
    ensures Atoi(s) == Err(NumError(s))
  {
  }

  /** A leading zero does not change the value of a run of digits. */
  lemma {:induction false} DigitsValueLeadingZero(ds: string)
    requires AllDigits(ds)
    ensures AllDigits("0" + ds) && DigitsValue("0" + ds) == DigitsValue(ds)
    decreases |ds|
  {
    var zs := "0" + ds;
    assert AllDigits(zs) by {
      forall i | 0 <= i < |zs| ensures IsDigit(zs[i]) {
        if i > 0 {
          assert zs[i] == ds[i - 1];
        }
      }
    }
    if ds != [] {
      var init := ds[..|ds| - 1];
      assert zs[..|zs| - 1] == "0" + init;
      assert zs[|zs| - 1] == ds[|ds| - 1];
      DigitsValueLeadingZero(init);
    }
  }

  /** Zero-padded fields such as "09" read as the unpadded number. */
  lemma AtoiLeadingZero(ds: string)
    requires |ds| > 0 && AllDigits(ds)
    ensures Atoi("0" + ds).Ok? <==> Atoi(ds).Ok?
    ensures Atoi(ds).Ok? ==> Atoi("0" + ds).value == Atoi(ds).value
  {
    var zs := "0" + ds;
    DigitsValueLeadingZero(ds);
    assert !HasSign(zs) && !HasSign(ds);
    assert Magnitude(zs) == zs && Magnitude(ds) == ds;
  }

  /** A leading '+' is accepted and changes nothing but the input an error carries. */
  lemma AtoiPlusSign(ds: string)
    requires |ds| > 0 && AllDigits(ds)
    ensures Atoi("+" + ds).Ok? <==> Atoi(ds).Ok?
    ensures Atoi(ds).Ok? ==> Atoi("+" + ds).value == Atoi(ds).value
  {
    var ps := "+" + ds;
    assert HasSign(ps) && ps[1..] == ds && !HasSign(ds);
  }
}
