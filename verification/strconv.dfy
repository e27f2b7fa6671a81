/**
 * Go's strconv.Atoi on a 64-bit platform, as PreFilter uses it to read the
 * minAvailable label: an optional sign, then decimal digits scanned left to
 * right. A syntax error yields 0; a value out of the int64 range yields the
 * nearest bound. Atoi's short-string fast path gives the same results as this
 * general path on every string it accepts, so only the general path is modelled.
 */
module Strconv {
  import opened GoInt

  /** The error Atoi reports beside its value. */
  datatype ErrKind = NoError | ErrSyntax | ErrRange

  /** Atoi's two results: the value and the error kind. */
  datatype IntParse = IntParse(value: int, err: ErrKind)

  /** What ParseUint(s, 10, 64) returns, the error deciding the value. */
  datatype UintParse = Parsed(value: nat) | SyntaxError | RangeError

  predicate IsDigit(c: char) {
    '0' <= c <= '9'
  }

  predicate AllDigits(s: string) {
    forall i :: 0 <= i < |s| ==> IsDigit(s[i])
  }

  function DigitValue(c: char): (d: nat)
    requires IsDigit(c)
    ensures d <= 9
  {
    (c as int) - ('0' as int)
  }

  function DigitChar(d: nat): (c: char)
    requires d <= 9
    ensures IsDigit(c) && DigitValue(c) == d
  {
    (('0' as int) + d) as char
  }

  function Pow10(n: nat): (p: nat)
    ensures p >= 1
  {
    if n == 0 then 1 else 10 * Pow10(n - 1)
  }

  /** The number a string of decimal digits denotes, most significant first. */
  function Value(s: string): nat
    requires AllDigits(s)
  {
    if s == [] then 0 else DigitValue(s[0]) * Pow10(|s| - 1) + Value(s[1..])
  }

  /**
   * ParseUint's digit loop from accumulator acc: a character that is not a
   * digit is a syntax error, and an accumulator that would pass MaxUint64 is a
   * range error at once, before the characters after it are looked at.
   */
  function ScanUint(s: string, acc: nat): (r: UintParse)
    requires acc <= MaxUint64
    ensures r.Parsed? ==> r.value <= MaxUint64
    decreases |s|
  {
    if s == [] then Parsed(acc)
    else if !IsDigit(s[0]) then SyntaxError
    else if acc * 10 + DigitValue(s[0]) > MaxUint64 then RangeError
    else ScanUint(s[1..], acc * 10 + DigitValue(s[0]))
  }

  /**
   * s reaches a character that is not a digit while the digits before it
   * still denote at most MaxUint64.
   */
  predicate HitsNonDigit(s: string) {
    exists k :: 0 <= k < |s| && AllDigits(s[..k]) && Value(s[..k]) <= MaxUint64 && !IsDigit(s[k])
  }

  /**
   * strconv.ParseUint(s, 10, 64), decided by the first of three events: the
   * end of the string (a number, or a syntax error if nothing was read), a
   * character that is not a digit (a syntax error), or digits passing
   * MaxUint64 (a range error).
   */
  function ParseUint(s: string): (r: UintParse)
    ensures r.Parsed? <==> s != [] && AllDigits(s) && Value(s) <= MaxUint64
    ensures r.Parsed? ==> AllDigits(s) && r.value == Value(s)
    ensures r == SyntaxError <==> s == [] || HitsNonDigit(s)
    ensures forall k :: 0 < k <= |s| && AllDigits(s[..k]) && Value(s[..k]) > MaxUint64 ==> r == RangeError
  {
    if s == [] then SyntaxError
    else
      ScanUintFromZero(s);
      ScanUintSyntaxIff(s);
      ScanUintPrefixOverflow(s);
      ScanUint(s, 0)
  }

  /** The part of s after one optional leading sign. */
  function Magnitude(s: string): string {
    if s != [] && (s[0] == '+' || s[0] == '-') then s[1..] else s
  }

  /** A decimal numeral: an optional sign, then one or more digits. */
  predicate Numeral(s: string) {
    Magnitude(s) != [] && AllDigits(Magnitude(s))
  }

  /** The integer a numeral denotes. */
  function Signed(s: string): int
    requires Numeral(s)
  {
    var v: int := Value(Magnitude(s));
    if s[0] == '-' then -v else v
  }

  /**
   * What Atoi rejects as a syntax error: nothing after the sign, or a
   * character that is not a digit reached before the digits overflow.
   */
  predicate Malformed(s: string) {
    Magnitude(s) == [] || HitsNonDigit(Magnitude(s))
  }

  /**
   * strconv.Atoi(s), through ParseInt(s, 10, 0): strip one sign, parse the
   * rest as unsigned, and clamp to the int64 range on overflow.
   */
  function Atoi(s: string): (r: IntParse)
    ensures MinInt64 <= r.value <= MaxInt64
    ensures r.err == ErrSyntax <==> Malformed(s)
    ensures r.err == ErrSyntax ==> r.value == 0
    ensures r.err == NoError <==> Numeral(s) && MinInt64 <= Signed(s) <= MaxInt64
    ensures r.err == NoError ==> Numeral(s) && r.value == Signed(s)
    ensures r.err == ErrRange ==> r.value == (if s != [] && s[0] == '-' then MinInt64 else MaxInt64)
    ensures Numeral(s) && Signed(s) > MaxInt64 ==> r == IntParse(MaxInt64, ErrRange)
    ensures Numeral(s) && Signed(s) < MinInt64 ==> r == IntParse(MinInt64, ErrRange)
  {
    if s == [] then IntParse(0, ErrSyntax)
    else
      var neg := s[0] == '-';
      match ParseUint(Magnitude(s))
      case SyntaxError => IntParse(0, ErrSyntax)
      case RangeError =>
        if neg then IntParse(MinInt64, ErrRange) else IntParse(MaxInt64, ErrRange)
      case Parsed(u) =>
        if !neg && u > MaxInt64 then IntParse(MaxInt64, ErrRange)
        else if neg && u > -MinInt64 then IntParse(MinInt64, ErrRange)
        else if neg then IntParse(-(u as int), NoError)
        else IntParse(u, NoError)
  }

  /** The decimal digits of n, without leading zeros (strconv.Itoa on n >= 0). */
  function Digits(n: nat): (s: string)
    ensures |s| >= 1 && AllDigits(s)
  {
    if n < 10 then [DigitChar(n)] else Digits(n / 10) + [DigitChar(n % 10)]
  }

  /** strconv.Itoa(n): a minus sign before the digits of a negative n. */
  function Itoa(n: int): string {
    if n < 0 then "-" + Digits(-n) else Digits(n)
  }

  /** Appending a digit multiplies the value by ten and adds the digit. */
  lemma {:induction false} ValueAppend(s: string, c: char)
    requires AllDigits(s) && IsDigit(c)
    ensures AllDigits(s + [c])
    ensures Value(s + [c]) == Value(s) * 10 + DigitValue(c)
  {
    var t := s + [c];
    if s != [] {
      assert t[0] == s[0] && t[1..] == s[1..] + [c];
      ValueAppend(s[1..], c);
      var d0, k := DigitValue(s[0]), Pow10(|s| - 1);
      assert Value(t) == d0 * (10 * k) + (Value(s[1..]) * 10 + DigitValue(c));
      ShiftTen(d0, k, Value(s[1..]));
    }
  }

  /** Arithmetic of one appended digit: a * (10 * k) + v * 10 == (a * k + v) * 10. */
  lemma ShiftTen(a: nat, k: nat, v: nat)
    ensures a * (10 * k) + v * 10 == (a * k + v) * 10
  {
  }

  /** The digits Itoa writes denote the number they were written from. */
  lemma {:induction false} ValueDigits(n: nat)
    ensures Value(Digits(n)) == n
  {
    if n < 10 {
      assert Value(Digits(n)) == DigitValue(DigitChar(n)) * Pow10(0) + Value([]);
    } else {
      ValueDigits(n / 10);
      ValueAppend(Digits(n / 10), DigitChar(n % 10));
    }
  }

  /** Arithmetic of one loop step: (acc * 10 + d) * k == acc * (10 * k) + d * k. */
  lemma StepShift(acc: nat, d: nat, k: nat)
    ensures (acc * 10 + d) * k == acc * (10 * k) + d * k
    ensures k >= 1 ==> acc * 10 + d <= (acc * 10 + d) * k
  {
  }

  /** The digit loop yields the value of the digits it reads when nothing overflows. */
  lemma {:induction false} ScanUintValue(s: string, acc: nat)
    requires AllDigits(s) && acc <= MaxUint64
    requires acc * Pow10(|s|) + Value(s) <= MaxUint64
    ensures ScanUint(s, acc) == Parsed(acc * Pow10(|s|) + Value(s))
  {
    if s != [] {
      var d, k := DigitValue(s[0]), Pow10(|s| - 1);
      StepShift(acc, d, k);
      ScanUintValue(s[1..], acc * 10 + d);
    }
  }

  /**
   * Once the digits read so far pass MaxUint64, the scan is a range error
   * whatever follows them, even characters that are not digits.
   */
  lemma {:induction false} ScanUintOverflow(p: string, t: string, acc: nat)
    requires AllDigits(p) && acc <= MaxUint64
    requires acc * Pow10(|p|) + Value(p) > MaxUint64
    ensures ScanUint(p + t, acc) == RangeError
  {
    if p != [] {
      var d, k := DigitValue(p[0]), Pow10(|p| - 1);
      assert (p + t)[0] == p[0] && (p + t)[1..] == p[1..] + t;
      if acc * 10 + d <= MaxUint64 {
        StepShift(acc, d, k);
        ScanUintOverflow(p[1..], t, acc * 10 + d);
      }
    }
  }

  /** A scan that parses has read only digits, and yields their value after acc. */
  lemma {:induction false} ScanUintParsed(s: string, acc: nat)
    requires acc <= MaxUint64 && ScanUint(s, acc).Parsed?
    ensures AllDigits(s) && ScanUint(s, acc).value == acc * Pow10(|s|) + Value(s)
  {
    if s != [] {
      var d, k := DigitValue(s[0]), Pow10(|s| - 1);
      ScanUintParsed(s[1..], acc * 10 + d);
      assert forall i :: 1 <= i < |s| ==> s[i] == s[1..][i - 1];
      StepShift(acc, d, k);
    }
  }

  /**
   * A character that is not a digit, reached while the digits before it stay
   * within MaxUint64, is a syntax error whatever follows it.
   */
  lemma {:induction false} ScanUintSyntax(p: string, c: char, t: string, acc: nat)
    requires AllDigits(p) && !IsDigit(c) && acc <= MaxUint64
    requires acc * Pow10(|p|) + Value(p) <= MaxUint64
    ensures ScanUint(p + [c] + t, acc) == SyntaxError
  {
    var s := p + [c] + t;
    if p == [] {
      assert s[0] == c;
    } else {
      var d, k := DigitValue(p[0]), Pow10(|p| - 1);
      assert s[0] == p[0] && s[1..] == p[1..] + [c] + t;
      StepShift(acc, d, k);
      ScanUintSyntax(p[1..], c, t, acc * 10 + d);
    }
  }

  /** A scan that ends in a syntax error stopped at a character that is not a digit. */
  lemma {:induction false} ScanUintSyntaxAt(s: string, acc: nat)
    requires acc <= MaxUint64 && ScanUint(s, acc) == SyntaxError
    ensures exists k :: 0 <= k < |s| && AllDigits(s[..k]) && acc * Pow10(k) + Value(s[..k]) <= MaxUint64 && !IsDigit(s[k])
  {
    assert s != [];
    if !IsDigit(s[0]) {
      assert s[..0] == [];
      assert AllDigits(s[..0]) && acc * Pow10(0) + Value(s[..0]) <= MaxUint64 && !IsDigit(s[0]);
    } else {
      var d := DigitValue(s[0]);
      ScanUintSyntaxAt(s[1..], acc * 10 + d);
      var j :| 0 <= j < |s[1..]| && AllDigits(s[1..][..j]) && (acc * 10 + d) * Pow10(j) + Value(s[1..][..j]) <= MaxUint64 && !IsDigit(s[1..][j]);
      var q := s[..j + 1];
      assert q[0] == s[0] && q[1..] == s[1..][..j];
      assert AllDigits(q);
      assert Value(q) == d * Pow10(j) + Value(s[1..][..j]);
      StepShift(acc, d, Pow10(j));
      assert acc * Pow10(j + 1) + Value(q) <= MaxUint64 && !IsDigit(s[j + 1]);
    }
  }

  /** The digit loop started at zero, in both directions. */
  lemma ScanUintFromZero(s: string)
    requires s != []
    ensures ScanUint(s, 0).Parsed? <==> AllDigits(s) && Value(s) <= MaxUint64
    ensures ScanUint(s, 0).Parsed? ==> AllDigits(s) && ScanUint(s, 0).value == Value(s)
  {
    if AllDigits(s) && Value(s) <= MaxUint64 {
      ScanUintValue(s, 0);
    }
    if ScanUint(s, 0).Parsed? {
      ScanUintParsed(s, 0);
    }
  }

  /** Digits that pass MaxUint64 make the loop from zero a range error, whatever follows. */
  lemma ScanUintPrefixOverflow(s: string)
    ensures forall k :: 0 < k <= |s| && AllDigits(s[..k]) && Value(s[..k]) > MaxUint64 ==> ScanUint(s, 0) == RangeError
  {
    forall k | 0 < k <= |s| && AllDigits(s[..k]) && Value(s[..k]) > MaxUint64
      ensures ScanUint(s, 0) == RangeError
    {
      ScanUintOverflow(s[..k], s[k..], 0);
      assert s[..k] + s[k..] == s;
    }
  }

  /** The loop from zero is a syntax error exactly when it reaches a non-digit in time. */
  lemma ScanUintSyntaxIff(s: string)
    ensures ScanUint(s, 0) == SyntaxError <==> HitsNonDigit(s)
  {
    if HitsNonDigit(s) {
      var k :| 0 <= k < |s| && AllDigits(s[..k]) && Value(s[..k]) <= MaxUint64 && !IsDigit(s[k]);
      ScanUintSyntax(s[..k], s[k], s[k + 1..], 0);
      assert s[..k] + [s[k]] + s[k + 1..] == s;
    }
    if ScanUint(s, 0) == SyntaxError {
      ScanUintSyntaxAt(s, 0);
    }
  }

  /** Atoi reads back every int64 that Itoa writes, without error. */
  lemma AtoiItoa(n: int)
    requires MinInt64 <= n <= MaxInt64
    ensures Atoi(Itoa(n)) == IntParse(n, NoError)
  {
    var m: nat := if n < 0 then -n else n;
    var s := Digits(m);
    ValueDigits(m);
    ScanUintValue(s, 0);
    assert ParseUint(s) == Parsed(m);
    if n < 0 {
      assert Itoa(n)[0] == '-' && Itoa(n)[1..] == s;
    } else {
      assert !IsDigit('-') && !IsDigit('+');
      assert Itoa(n)[0] != '-' && Itoa(n)[0] != '+';
    }
  }

  /**
   * A string that is empty, a bare sign, or whose first character after an
   * optional sign is not a digit reads as 0 with a syntax error.
   */
  lemma AtoiNotANumber(s: string)
    requires var body := if s != [] && (s[0] == '+' || s[0] == '-') then s[1..] else s;
             body == [] || !IsDigit(body[0])
    ensures Atoi(s) == IntParse(0, ErrSyntax)
  {
  }

  /** Label values as Atoi reads them: a trailing word, a leading zero, a plus sign. */
  lemma AtoiExamples()
    ensures Atoi("3pods") == IntParse(0, ErrSyntax)
    ensures Atoi("03") == IntParse(3, NoError)
    ensures Atoi("+3") == IntParse(3, NoError)
  {
    var s := "3pods";
    assert s[..1] == "3" && Value("3") == 3 && !IsDigit(s[1]);
    assert HitsNonDigit(s);
    assert Magnitude("03") == "03" && Value("03") == 3;
    assert Magnitude("+3") == "3";
  }

  /**
   * Leading digits whose value passes MaxUint64, followed by anything at all,
   * read as MaxInt64 (or MinInt64 after a minus sign) with a range error, not
   * as 0: the overflow is reported before the malformed tail is reached.
   */
  lemma AtoiOverflowBeforeSyntax(p: string, t: string)
    requires AllDigits(p) && Value(p) > MaxUint64
    ensures Atoi(p + t) == IntParse(MaxInt64, ErrRange)
    ensures Atoi("-" + p + t) == IntParse(MinInt64, ErrRange)
  {
    assert p != [];
    ScanUintOverflow(p, t, 0);
    assert (p + t)[0] == p[0];
    assert !IsDigit('-') && !IsDigit('+');
    assert ("-" + p + t)[0] == '-' && ("-" + p + t)[1..] == p + t;
  }
}
