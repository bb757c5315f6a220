/**
  The JavaScript values a Next.js handler receives in `req.body` and `req.query`,
  and the three JavaScript conversions the handlers apply to them: truthiness
  (`!v`), `parseInt(v, 10)` and the numeric conversion behind `v < 1`.
  Numbers are integers here; text is ASCII-decimal.
 */
module Js {
  import opened Wrappers

  /** A decoded JSON or query value. */
  datatype JsValue = Undefined | Null | Bool(b: bool) | Num(n: int) | Str(s: string)

  /** `!!v`: false exactly for undefined, null, false, 0 and the empty string. */
  predicate Truthy(v: JsValue)
    ensures Truthy(v) ==> !v.Undefined? && !v.Null?
    ensures v.Num? || v.Bool? ==> (Truthy(v) <==> ToNumber(v) != Some(0))
    ensures v.Str? ==> (Truthy(v) <==> |v.s| > 0)
  {
    match v
    case Undefined => false
    case Null => false
    case Bool(b) => b
    case Num(n) => n != 0
    case Str(s) => s != ""
  }

  /** A query-string parameter of `req.query`: missing, a string, or a string array. */
  datatype Query = Absent | Single(value: string) | Repeated(values: seq<string>)

  /** `if (Array.isArray(q)) q = q[0];` -- the value the handlers go on with. */
  function QueryValue(q: Query): (v: JsValue)
    ensures v.Undefined? || v.Str?
    ensures v.Str? <==> q.Single? || (q.Repeated? && |q.values| > 0)
    ensures q.Single? ==> v == Str(q.value)
    ensures q.Repeated? && |q.values| > 0 ==> v == Str(q.values[0])
  {
    match q
    case Absent => Undefined
    case Single(s) => Str(s)
    case Repeated(ss) => if |ss| > 0 then Str(ss[0]) else Undefined
  }

  // ---------------------------------------------------------------- digits

  predicate IsDigit(c: char) { '0' <= c <= '9' }

  predicate AllDigits(s: string) { forall i :: 0 <= i < |s| ==> IsDigit(s[i]) }

  function DigitValue(c: char): (d: int)
    requires IsDigit(c)
    ensures 0 <= d < 10
  {
    c as int - '0' as int
  }

  function DigitChar(d: int): (c: char)
    requires 0 <= d < 10
    ensures IsDigit(c) && DigitValue(c) == d
  {
    ('0' as int + d) as char
  }

  /** The number the digits `ds` make when written after the digits of `acc`: `Accumulate(0, "305") == 305`. */
  function Accumulate(acc: int, ds: string): int
    requires AllDigits(ds)
    decreases ds
  {
    if ds == [] then acc else Accumulate(acc * 10 + DigitValue(ds[0]), ds[1..])
  }

  /** The decimal digits of a natural number, without leading zeros. */
  function Digits(n: nat): (r: string)
    ensures |r| > 0
    decreases n
  {
    if n < 10 then [DigitChar(n)] else Digits(n / 10) + [DigitChar(n % 10)]
  }

  /** `String(n)` for an integer. */
  function ToDecimal(n: int): string
  {
    if n < 0 then "-" + Digits(-n) else Digits(n)
  }

  /** From this magnitude on, `String(n)` writes a number in exponent notation. */
  const ExponentFrom: int := 1_000_000_000_000_000_000_000

  /** Drops the trailing zeros of a run of digits, keeping at least its first digit. */
  function TrimZeros(ds: string): (r: string)
    ensures |ds| > 0 ==> 0 < |r| <= |ds| && r == ds[..|r|]
  {
    if |ds| > 1 && ds[|ds| - 1] == '0' then TrimZeros(ds[..|ds| - 1]) else ds
  }

  /** `String(m)` for `m >= 10^21`: the significant digits as `d` or `d.ddd`, then "e+" and the exponent. */
  function ExponentForm(m: nat): string
  {
    var ds := Digits(m);
    var sig := TrimZeros(ds);
    [sig[0]] + (if |sig| > 1 then "." + sig[1..] else "") + "e+" + Digits(|ds| - 1)
  }

  /** `String(n)` for an integer: decimal below 10^21 in magnitude, exponent notation from there on. */
  function NumberText(n: int): string
  {
    if n >= ExponentFrom then ExponentForm(n)
    else if n <= -ExponentFrom then "-" + ExponentForm(-n)
    else ToDecimal(n)
  }

  /** The first decimal digit of `m`. */
  function LeadingDigit(m: nat): (d: nat)
    ensures d < 10
  {
    if m < 10 then m else LeadingDigit(m / 10)
  }

  /** `String(v)`, the text `parseInt` reads. */
  function ToText(v: JsValue): string
  {
    match v
    case Undefined => "undefined"
    case Null => "null"
    case Bool(b) => if b then "true" else "false"
    case Num(n) => NumberText(n)
    case Str(s) => s
  }

  // ---------------------------------------------------------------- scanning text

  /** The ASCII white-space characters JavaScript skips when converting text to a number. */
  predicate IsSpace(c: char)
  {
    c == ' ' || c == '\t' || c == '\n' || c == '\r' || c as int == 11 || c as int == 12
  }

  function TrimStart(s: string): string
  {
    if s != [] && IsSpace(s[0]) then TrimStart(s[1..]) else s
  }

  function TrimEnd(s: string): string
  {
    if s != [] && IsSpace(s[|s| - 1]) then TrimEnd(s[..|s| - 1]) else s
  }

  /** Splits an optional leading sign off `s`: (is it '-', the rest). */
  function SplitSign(s: string): (bool, string)
  {
    if s != [] && (s[0] == '-' || s[0] == '+') then (s[0] == '-', s[1..]) else (false, s)
  }

  /**
    Reads the run of digits that starts `s` onto `acc` and stops at the first
    character that is not a digit; None when no digit was read at all.
   */
  function ScanDigits(s: string, acc: int, seen: bool): Option<int>
  {
    if s != [] && IsDigit(s[0]) then ScanDigits(s[1..], acc * 10 + DigitValue(s[0]), true)
    else if seen then Some(acc)
    else None
  }

  /** Reads all of `s` as digits onto `acc`; None when some character is not a digit. */
  function WholeDigits(s: string, acc: int): Option<int>
  {
    if s == [] then Some(acc)
    else if IsDigit(s[0]) then WholeDigits(s[1..], acc * 10 + DigitValue(s[0]))
    else None
  }

  function Signed(negative: bool, m: Option<int>): Option<int>
  {
    match m
    case None => None
    case Some(k) => Some(if negative then -k else k)
  }

  // ---------------------------------------------------------------- conversions

  /**
    `parseInt(text, 10)`: skip leading white space, read an optional sign and the
    longest run of digits that follows; the rest of the text is ignored. None is NaN.
   */
  function ParseIntText(text: string): Option<int>
  {
    var (negative, body) := SplitSign(TrimStart(text));
    Signed(negative, ScanDigits(body, 0, false))
  }

  /** `parseInt(v, 10)`, which converts its argument with `String(v)` first: undefined, null and the booleans are NaN. */
  function ParseInt(v: JsValue): (r: Option<int>)
    ensures v.Undefined? || v.Null? || v.Bool? ==> r.None?
  {
    ParseIntText(ToText(v))
  }

  /** `Number(text)` for text that is blank or a signed run of decimal digits; None is NaN. */
  function TextToNumber(text: string): Option<int>
  {
    var s := TrimEnd(TrimStart(text));
    if s == [] then Some(0)
    else
      var (negative, body) := SplitSign(s);
      if body == [] then None else Signed(negative, WholeDigits(body, 0))
  }

  /** `Number(v)`, the conversion behind a relational comparison with a number: the empty text is 0, undefined is NaN. */
  function ToNumber(v: JsValue): (r: Option<int>)
    ensures v == Str("") ==> r == Some(0)
    ensures v.Undefined? ==> r.None?
  {
    match v
    case Undefined => None
    case Null => Some(0)
    case Bool(b) => Some(if b then 1 else 0)
    case Num(n) => Some(n)
    case Str(s) => TextToNumber(s)
  }

  /** `v < k`; every comparison with NaN is false. */
  predicate LessThan(v: JsValue, k: int)
  {
    ToNumber(v).Some? && ToNumber(v).value < k
  }

  /** `v > k`; every comparison with NaN is false. */
  predicate GreaterThan(v: JsValue, k: int)
  {
    ToNumber(v).Some? && ToNumber(v).value > k
  }

  // ---------------------------------------------------------------- lemmas

  /** Digits written after `a` and then `b` make the same number as `a + b` written at once. */
  lemma {:induction false} AccumulateAppend(acc: int, a: string, b: string)
    requires AllDigits(a) && AllDigits(b)
    ensures AllDigits(a + b) && Accumulate(acc, a + b) == Accumulate(Accumulate(acc, a), b)
    decreases a
  {
    if a != [] {
      assert (a + b)[0] == a[0] && (a + b)[1..] == a[1..] + b;
      AccumulateAppend(acc * 10 + DigitValue(a[0]), a[1..], b);
    } else {
      assert a + b == b;
    }
  }

  /** `Digits(n)` is a non-empty run of digits that reads back as `n`. */
  lemma {:induction false} DigitsRoundTrip(n: nat)
    ensures Digits(n) != [] && AllDigits(Digits(n)) && Accumulate(0, Digits(n)) == n
  {
    if n >= 10 {
      DigitsRoundTrip(n / 10);
      var c := DigitChar(n % 10);
      AccumulateAppend(0, Digits(n / 10), [c]);
    }
  }

  /**
    `parseInt` reads a run of digits up to the first character that is not a
    digit, onto what it has read so far.
   */
  lemma {:induction false} ScanDigitRun(ds: string, rest: string, acc: int, seen: bool)
    requires AllDigits(ds)
    requires rest == [] || !IsDigit(rest[0])
    ensures ScanDigits(ds + rest, acc, seen) == if ds == [] && !seen then None else Some(Accumulate(acc, ds))
  {
    if ds != [] {
      assert (ds + rest)[1..] == ds[1..] + rest;
      ScanDigitRun(ds[1..], rest, acc * 10 + DigitValue(ds[0]), true);
    } else {
      assert ds + rest == rest;
    }
  }

  /** A text made only of digits is read whole by `Number`. */
  lemma {:induction false} WholeDigitRun(ds: string, acc: int)
    requires AllDigits(ds)
    ensures WholeDigits(ds, acc) == Some(Accumulate(acc, ds))
  {
    if ds != [] {
      WholeDigitRun(ds[1..], acc * 10 + DigitValue(ds[0]));
    }
  }

  /**
    `parseInt` stops at the first character that is not a digit: a text that
    begins with digits is read as those digits, whatever follows them ("12abc" is 12).
   */
  lemma ParseIntStopsAtNonDigit(ds: string, rest: string)
    requires ds != [] && AllDigits(ds)
    requires rest == [] || !IsDigit(rest[0])
    ensures ParseIntText(ds + rest) == Some(Accumulate(0, ds))
  {
    var s := ds + rest;
    assert s[0] == ds[0] && IsDigit(s[0]);
    assert TrimStart(s) == s && SplitSign(s) == (false, s);
    ScanDigitRun(ds, rest, 0, false);
  }

  /** `String(n)` is the digits of `|n|`, after a '-' when `n` is negative. */
  lemma DecimalShape(n: int)
    ensures var m: nat := if n < 0 then -n else n;
      && TrimStart(ToDecimal(n)) == ToDecimal(n)
      && TrimEnd(ToDecimal(n)) == ToDecimal(n)
      && ToDecimal(n) != []
      && SplitSign(ToDecimal(n)) == (n < 0, Digits(m))
      && AllDigits(Digits(m)) && Accumulate(0, Digits(m)) == m
  {
    var m: nat := if n < 0 then -n else n;
    var ds := Digits(m);
    DigitsRoundTrip(m);
    assert IsDigit(ds[0]) && IsDigit(ds[|ds| - 1]);
    var text := ToDecimal(n);
    assert text[|text| - 1] == ds[|ds| - 1];
    if n < 0 {
      assert text[0] == '-' && text[1..] == ds;
    }
  }

  /** `parseInt(n, 10) === n` for every integer `n` that `String` writes in decimal. */
  lemma ParseIntOfNumber(n: int)
    requires -ExponentFrom < n < ExponentFrom
    ensures ParseInt(Num(n)) == Some(n)
  {
    var m: nat := if n < 0 then -n else n;
    DecimalShape(n);
    ScanDigitRun(Digits(m), [], 0, false);
    assert Digits(m) + [] == Digits(m);
  }

  /** `Number(String(n)) === n`: the comparison conversion reads a decimal back exactly. */
  lemma NumberOfDecimal(n: int)
    ensures TextToNumber(ToDecimal(n)) == Some(n)
  {
    var m: nat := if n < 0 then -n else n;
    DecimalShape(n);
    WholeDigitRun(Digits(m), 0);
  }

  /** The decimal digits of `m` begin with its leading digit. */
  lemma {:induction false} DigitsStartWithLeadingDigit(m: nat)
    ensures Digits(m)[0] == DigitChar(LeadingDigit(m))
  {
    if m >= 10 {
      DigitsStartWithLeadingDigit(m / 10);
    }
  }

  /** Exponent notation starts with the leading digit followed by a character that is not a digit. */
  lemma ExponentFormShape(m: nat)
    ensures var e := ExponentForm(m);
      && |e| > 1 && e[0] == DigitChar(LeadingDigit(m)) && !IsDigit(e[1])
      && e == [e[0]] + e[1..]
  {
    var ds := Digits(m);
    var sig := TrimZeros(ds);
    assert sig[0] == ds[0];
    DigitsStartWithLeadingDigit(m);
  }

  /** `parseInt` reads exponent notation as its leading digit. */
  lemma ParseIntOfExponentForm(m: nat)
    ensures ScanDigits(ExponentForm(m), 0, false) == Some(LeadingDigit(m))
    ensures ParseIntText(ExponentForm(m)) == Some(LeadingDigit(m))
  {
    var e := ExponentForm(m);
    ExponentFormShape(m);
    ParseIntStopsAtNonDigit([e[0]], e[1..]);
    assert TrimStart(e) == e && SplitSign(e) == (false, e);
  }

  /**
    From 10^21 on, `String(n)` is in exponent notation, so `parseInt(n, 10)` reads
    only the leading digit, with the sign: `parseInt(1e21, 10)` is 1.
   */
  lemma ParseIntOfLargeNumber(n: int)
    requires n <= -ExponentFrom || ExponentFrom <= n
    ensures ParseInt(Num(n)) == Some(if n < 0 then -(LeadingDigit(-n) as int) else LeadingDigit(n) as int)
  {
    if n < 0 {
      ParseIntOfExponentForm(-n);
      var text := "-" + ExponentForm(-n);
      assert text[0] == '-' && text[1..] == ExponentForm(-n);
      assert TrimStart(text) == text;
    } else {
      ParseIntOfExponentForm(n);
    }
  }

  function Pow10(k: nat): nat
  {
    if k == 0 then 1 else 10 * Pow10(k - 1)
  }

  lemma {:induction false} LeadingDigitOfPow10(k: nat)
    ensures LeadingDigit(Pow10(k)) == 1
  {
    if k > 0 {
      LeadingDigitOfPow10(k - 1);
      assert Pow10(k) / 10 == Pow10(k - 1);
    }
  }

  lemma {:induction false} Pow10Adds(a: nat, b: nat)
    ensures Pow10(a + b) == Pow10(a) * Pow10(b)
  {
    if a > 0 {
      Pow10Adds(a - 1, b);
    }
  }

  lemma Pow10Of21()
    ensures Pow10(21) == ExponentFrom
  {
    assert Pow10(3) == 1000;
    Pow10Adds(3, 3);
    assert Pow10(6) == 1_000_000;
    Pow10Adds(6, 6);
    assert Pow10(12) == 1_000_000_000_000;
    Pow10Adds(12, 6);
    assert Pow10(18) == 1_000_000_000_000_000_000;
    Pow10Adds(18, 3);
  }

  lemma {:induction false} Pow10Grows(k: nat)
    requires k >= 21
    ensures Pow10(k) >= ExponentFrom
  {
    if k > 21 {
      Pow10Grows(k - 1);
    } else {
      Pow10Of21();
    }
  }

  /** `parseInt(1e21, 10)` is 1, and so is `parseInt` of every larger power of ten. */
  lemma ParseIntOfPowerOfTen(k: nat)
    requires k >= 21
    ensures ParseInt(Num(Pow10(k))) == Some(1)
  {
    Pow10Grows(k);
    ParseIntOfLargeNumber(Pow10(k));
    LeadingDigitOfPow10(k);
  }

  /** Text made only of white space trims to nothing. */
  lemma {:induction false} TrimStartOfBlank(s: string)
    requires forall i :: 0 <= i < |s| ==> IsSpace(s[i])
    ensures TrimStart(s) == []
  {
    if s != [] {
      TrimStartOfBlank(s[1..]);
    }
  }

  /** `parseInt` of a blank or empty text is NaN, while `Number` of it is 0. */
  lemma BlankTextConversions(s: string)
    requires forall i :: 0 <= i < |s| ==> IsSpace(s[i])
    ensures ParseIntText(s) == None
    ensures TextToNumber(s) == Some(0)
  {
    TrimStartOfBlank(s);
  }
}
