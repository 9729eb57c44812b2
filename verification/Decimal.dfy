/** Printing numbers in decimal, from the last digit to the first, and reversing the result in place. */
module Decimal {
  import opened Machine
  import opened JsonTree

  /** The C string at the start of a buffer. */
  function CString(s: string): string {
    if s == "" || s[0] == '\0' then "" else [s[0]] + CString(s[1..])
  }

  lemma {:induction false} CStringOf(t: string, rest: string)
    requires forall i | 0 <= i < |t| :: t[i] != '\0'
    ensures CString(t + ['\0'] + rest) == t
  {
    var s := t + ['\0'] + rest;
    if t != "" {
      assert s[1..] == t[1..] + ['\0'] + rest;
      CStringOf(t[1..], rest);
    }
  }

  function Digit(d: nat): char
    requires d < 10
  {
    '0' + d as char
  }

  function DigitsOf(n: nat): string {
    if n < 10 then [Digit(n)] else DigitsOf(n / 10) + [Digit(n % 10)]
  }

  /** The value of a digit in the given base, or -1. Letters count in base 16 only. */
  function DigitValue(c: char, base: nat): int {
    if '0' <= c <= '9' then (c - '0') as int
    else if base == 16 && 'a' <= c <= 'f' then (c - 'a') as int + 10
    else -1
  }

  predicate DigitString(s: string, base: nat) {
    forall i | 0 <= i < |s| :: 0 <= DigitValue(s[i], base) < base
  }

  /** The number that a string of digits denotes. */
  function ValueOf(s: string, base: nat): nat
    requires base > 0
  {
    if s == "" then 0
    else
      var d := DigitValue(s[|s| - 1], base);
      ValueOf(s[..|s| - 1], base) * base + if d >= 0 then d else 0
  }

  function Itoa(v: int): string { if v < 0 then "-" + DigitsOf(-v) else DigitsOf(v) }

  function ParseInt(s: string): int {
    if s != "" && s[0] == '-' then 0 - ValueOf(s[1..], 10) else ValueOf(s, 10)
  }

  lemma {:induction false} DigitsRoundTrip(n: nat)
    ensures ValueOf(DigitsOf(n), 10) == n
    ensures DigitsOf(n) != "" && Digits(DigitsOf(n)) && (n > 0 ==> DigitsOf(n)[0] != '0')
  {
    if n >= 10 {
      DigitsRoundTrip(n / 10);
      var s := DigitsOf(n);
      assert s[..|s| - 1] == DigitsOf(n / 10);
    }
  }

  lemma DigitsAreUnsigned(n: nat)
    ensures IsUnsigned(DigitsOf(n))
  {
    DigitsRoundTrip(n);
    var s := DigitsOf(n);
    assert s[..|s|] == s;
    assert n == 0 ==> s == "0";
  }

  /** What is printed for an integer reads back as the integer, and is a JSON number. */
  lemma IntegerRoundTrip(v: int)
    ensures ParseInt(Itoa(v)) == v && IsNumber(Itoa(v))
  {
    DigitsRoundTrip(if v < 0 then -v else v);
    DigitsAreUnsigned(if v < 0 then -v else v);
    if v < 0 { assert Itoa(v)[1..] == DigitsOf(-v); }
  }

  // ---- Reversal ----

  function Reversed(s: string): (r: string)
    ensures |r| == |s|
  {
    if s == "" then "" else Reversed(s[1..]) + [s[0]]
  }

  lemma {:induction false} ReversedAt(s: string, k: nat)
    requires k < |s|
    ensures Reversed(s)[k] == s[|s| - 1 - k]
  {
    if k < |s| - 1 {
      ReversedAt(s[1..], k);
    }
  }

  lemma {:induction false} ReversedAppend(s: string, c: char)
    ensures Reversed(s + [c]) == [c] + Reversed(s)
  {
    if s == "" {
      assert s + [c] == [c] && [c][1..] == "";
    } else {
      assert (s + [c])[1..] == s[1..] + [c];
      ReversedAppend(s[1..], c);
    }
  }

  /** The characters outside `b .. e` have changed places. */
  ghost predicate Swapped(s: string, s': string, begin: nat, end: int, b: nat, e: int) {
    && |s'| == |s| && begin <= b <= e + 1 <= end + 1 <= |s| && b + e == begin + end
    && (forall k | begin <= k < b || e < k <= end :: s'[k] == s[begin + end - k])
    && (forall k | 0 <= k < |s| && (k < begin || b <= k <= e || end < k) :: s'[k] == s[k])
  }

  lemma SwapStep(s: string, s': string, begin: nat, end: int, b: nat, e: int)
    requires Swapped(s, s', begin, end, b, e) && b < e
    ensures Swapped(s, s'[b := s'[e]][e := s'[b]], begin, end, b + 1, e - 1)
  {
    var t := s'[b := s'[e]][e := s'[b]];
    assert s'[b] == s[b] && s'[e] == s[e];
    forall k | begin <= k < b + 1 || e - 1 < k <= end
      ensures t[k] == s[begin + end - k]
    {
      if k != b && k != e { assert t[k] == s'[k]; }
    }
  }

  lemma SwappedAll(s: string, s': string, begin: nat, end: int, b: nat, e: int)
    requires Swapped(s, s', begin, end, b, e) && e <= b
    ensures s' == s[..begin] + Reversed(s[begin..end + 1]) + s[end + 1..]
  {
    hide Reversed;
    var mid, mid' := s[begin..end + 1], s'[begin..end + 1];
    forall k | 0 <= k < |mid|
      ensures mid'[k] == Reversed(mid)[k]
    {
      ReversedAt(mid, k);
      SwappedChar(s, s', begin, end, b, e, begin + k);
    }
    assert mid' == Reversed(mid);
    assert s'[..begin] == s[..begin] && s'[end + 1..] == s[end + 1..];
    assert s' == s'[..begin] + mid' + s'[end + 1..];
  }

  lemma SwappedChar(s: string, s': string, begin: nat, end: int, b: nat, e: int, k: nat)
    requires Swapped(s, s', begin, end, b, e) && e <= b && begin <= k <= end
    ensures s'[k] == s[begin + end - k]
  {
  }

  /** Reverses the characters from `begin` to `end`, both included. */
  method StrReverse(a: array<char>, begin: nat, end: int)
    requires -1 <= end < a.Length && begin <= end + 1
    modifies a
    ensures a[..] == old(a[..begin]) + Reversed(old(a[begin..end + 1])) + old(a[end + 1..])
  {
    ghost var s := a[..];
    var b: nat, e := begin, end;
    while e > b
      invariant e < a.Length && Swapped(s, a[..], begin, end, b, e)
    {
      SwapStep(s, a[..], begin, end, b, e);
      a[b], a[e] := a[e], a[b];
      b, e := b + 1, e - 1;
    }
    SwappedAll(s, a[..], begin, end, b, e);
    assert s[..begin] == old(a[..begin]) && s[begin..end + 1] == old(a[begin..end + 1]) &&
        s[end + 1..] == old(a[end + 1..]);
  }

  function Pow10(n: nat): (p: nat)
    ensures p > 0
  {
    if n == 0 then 1 else 10 * Pow10(n - 1)
  }

  // ---- Digits, last one first ----

  /** The digits of `n` written so far from position `at` on; `u` is what is left. */
  ghost predicate Writing(s: string, at: nat, w: nat, n: nat, u: nat) {
    && at <= w <= |s|
    && (if u == 0 then "" else DigitsOf(u)) + Reversed(s[at..w]) == DigitsOf(n)
  }

  lemma WritingFirst(s: string, at: nat, n: nat)
    requires at < |s| && s[at] == Digit(n % 10)
    ensures Writing(s, at, at + 1, n, n / 10)
  {
    assert s[at..at + 1] == [s[at]];
    assert Reversed([s[at]]) == [s[at]];
  }

  lemma WritingStep(s: string, s': string, at: nat, w: nat, n: nat, u: nat)
    requires Writing(s, at, w, n, u) && u > 0 && w < |s| && s' == s[w := Digit(u % 10)]
    ensures Writing(s', at, w + 1, n, u / 10)
  {
    assert s'[at..w + 1] == s[at..w] + [Digit(u % 10)];
    ReversedAppend(s[at..w], Digit(u % 10));
    assert (if u / 10 == 0 then "" else DigitsOf(u / 10)) + ([Digit(u % 10)] + Reversed(s[at..w])) ==
           (if u == 0 then "" else DigitsOf(u)) + Reversed(s[at..w]);
  }

  lemma RoomForDigit(u: nat, k: nat)
    requires 0 < u < Pow10(k)
    ensures 0 < k && u / 10 < Pow10(k - 1)
  {
  }

  /** Nothing before position `at`, and nothing from `w` on, has changed. */
  predicate OnlyBetween(s: string, s': string, at: nat, w: nat) {
    at <= w <= |s| == |s'| && s'[..at] == s[..at] && s'[w..] == s[w..]
  }

  lemma OnlyBetweenStep(s: string, s': string, at: nat, w: nat, c: char)
    requires OnlyBetween(s, s', at, w) && w < |s|
    ensures OnlyBetween(s, s'[w := c], at, w + 1)
  {
    assert s'[w + 1..] == s'[w..][1..] && s[w + 1..] == s[w..][1..];
  }

  /** Writes the digits of a number from position `at` on, last one first. */
  method PutDigits(str: array<char>, at: nat, n: nat) returns (w: nat)
    requires n < Pow10(10) && at + 10 <= str.Length
    modifies str
    ensures at < w <= at + 10
    ensures Reversed(str[at..w]) == DigitsOf(n) && OnlyBetween(old(str[..]), str[..], at, w)
  {
    hide OnlyBetween, Writing, Pow10;
    ghost var s := str[..];
    var u: nat := n;
    w := at;
    OnlyBetweenSelf(s, at);
    RoomForDigits(n);
    OnlyBetweenStep(s, str[..], at, w, Digit(u % 10));
    str[w] := Digit(u % 10);
    WritingFirst(str[..], at, n);
    w, u := w + 1, u / 10;
    while u != 0
      invariant at < w <= at + 10 && (u != 0 ==> u < Pow10(10 - (w - at)))
      invariant Writing(str[..], at, w, n, u) && OnlyBetween(s, str[..], at, w)
    {
      RoomForDigit(u, 10 - (w - at));
      WritingStep(str[..], str[..][w := Digit(u % 10)], at, w, n, u);
      OnlyBetweenStep(s, str[..], at, w, Digit(u % 10));
      str[w] := Digit(u % 10);
      w, u := w + 1, u / 10;
    }
    WritingEnd(str[..], at, w, n);
    assert str[..][at..w] == str[at..w];
  }

  lemma OnlyBetweenSelf(s: string, at: nat)
    requires at <= |s|
    ensures OnlyBetween(s, s, at, at)
  {
  }

  lemma RoomForDigits(n: nat)
    requires n < Pow10(10)
    ensures n / 10 < Pow10(9)
  {
  }

  lemma WritingEnd(s: string, at: nat, w: nat, n: nat)
    requires Writing(s, at, w, n, 0)
    ensures at <= w <= |s| && Reversed(s[at..w]) == DigitsOf(n)
  {
    assert "" + Reversed(s[at..w]) == Reversed(s[at..w]);
  }

  lemma Pow10Ten()
    ensures Pow10(9) == 1_000_000_000 && Pow10(10) == 10_000_000_000
  {
    assert Pow10(5) == 100_000;
  }

  lemma {:induction false} ReversedConcat(a: string, b: string)
    ensures Reversed(a + b) == Reversed(b) + Reversed(a)
  {
    if a == "" {
      assert a + b == b && Reversed(b) + "" == Reversed(b);
    } else {
      assert (a + b)[1..] == a[1..] + b;
      ReversedConcat(a[1..], b);
    }
  }

  /** Terminates the `w` characters written so far and turns them round. */
  method Finish(str: array<char>, w: nat, ghost text: string)
    requires w < str.Length && Reversed(str[..w]) == text
    requires forall i | 0 <= i < |text| :: text[i] != '\0'
    modifies str
    ensures CString(str[..]) == text
  {
    str[w] := '\0';
    ghost var s := str[..];
    assert s[..w] == old(str[..w]) && s[w..] == ['\0'] + s[w + 1..];
    StrReverse(str, 0, w - 1);
    assert str[..] == text + ['\0'] + s[w + 1..];
    CStringOf(text, s[w + 1..]);
  }

  /** Prints a 32-bit integer. Negating the smallest one wraps round, and gives its absolute value as unsigned. */
  method ModpItoa10(value: int, str: array<char>)
    requires -INT_MAX - 1 <= value <= INT_MAX && 16 <= str.Length
    modifies str
    ensures CString(str[..]) == Itoa(value)
    ensures ParseInt(CString(str[..])) == value && IsNumber(CString(str[..]))
  {
    hide Pow10, CString, Reversed, ParseInt, IsNumber;
    var uvalue: nat := (if value < 0 then AsInt(-value) else value) % TWO_TO_32;
    assert uvalue == if value < 0 then -value else value;
    Pow10Ten();
    DigitsRoundTrip(uvalue);
    var w := PutDigits(str, 0, uvalue);
    ghost var digits := str[..w];
    assert str[0..w] == digits;
    if value < 0 {
      str[w] := '-';
      ReversedAppend(digits, '-');
      assert str[..w + 1] == digits + ['-'];
      w := w + 1;
    }
    Finish(str, w, Itoa(value));
    IntegerRoundTrip(value);
  }

  // ---- Fractions ----

  /** What is going to be printed: a whole number and a fraction, counted in units of the last place. */
  datatype Rounded = Rounded(whole: nat, frac: nat)

  /** The fraction in units of the last place. */
  function Scaled(value: real, prec: nat): real {
    (value - value.Floor as real) * Pow10(prec) as real
  }

  /**
   Rounding a fraction of `q` units to the nearest unit, with a carry; exact halves go up if the
   number of units is odd or zero.
   */
  function RoundUnits(tmp: real, q: nat): (nat, nat)
    requires 0.0 <= tmp < q as real
  {
    var frac: nat := tmp.Floor;
    var diff := tmp - frac as real;
    if diff > 0.5 then
      if frac + 1 >= q then (1, 0) else (0, frac + 1)
    else if diff == 0.5 && (frac == 0 || frac % 2 == 1) then (0, frac + 1)
    else (0, frac)
  }

  function RoundFraction(value: real, prec: nat): Rounded
    requires value >= 0.0
  {
    ScaledBounds(value, prec);
    var (carry, frac) := RoundUnits(Scaled(value, prec), Pow10(prec));
    Rounded(value.Floor + carry, frac)
  }

  lemma ScaledBounds(value: real, prec: nat)
    requires value >= 0.0
    ensures value.Floor >= 0 && 0.0 <= Scaled(value, prec) < Pow10(prec) as real
    ensures 0 <= Scaled(value, prec).Floor < Pow10(prec)
  {
    var d, q := value - value.Floor as real, Pow10(prec) as real;
    assert 0.0 <= d < 1.0 && q > 0.0;
    assert 0.0 <= d * q;
    assert d * q < 1.0 * q;
  }

  /** Without a fraction, exact halves go to the even neighbour. */
  function RoundWhole(value: real, whole: nat): nat {
    var diff := value - whole as real;
    if diff > 0.5 then whole + 1
    else if diff == 0.5 && whole % 2 == 1 then whole + 1
    else whole
  }

  function Rounding(value: real, prec: nat): Rounded
    requires value >= 0.0
  {
    var r := RoundFraction(value, prec);
    if prec == 0 then Rounded(RoundWhole(value, r.whole), 0) else r
  }

  function Clamped(prec: int): nat { if prec < 0 then 0 else if prec > 9 then 9 else prec }

  /** Trailing zeros are not printed; `count` is the number of places that are left. */
  function Stripped(frac: nat, count: int): (nat, int)
    decreases frac
  {
    if frac > 0 && frac % 10 == 0 then Stripped(frac / 10, count - 1) else (frac, count)
  }

  function Zeros(n: int): string
    decreases n
  {
    if n <= 0 then "" else "0" + Zeros(n - 1)
  }

  function FractionText(frac: nat, prec: nat): string {
    if frac == 0 then ""
    else
      var (f, count) := Stripped(frac, prec);
      "." + Zeros(count - |DigitsOf(f)|) + DigitsOf(f)
  }

  function Dtoa(value: real, prec: int): string {
    var v := if value < 0.0 then -value else value;
    var r := Rounding(v, Clamped(prec));
    (if value < 0.0 then "-" else "") + DigitsOf(r.whole) + FractionText(r.frac, Clamped(prec))
  }

  lemma {:induction false} Pow10Monotone(a: nat, b: nat)
    requires a <= b
    ensures Pow10(a) <= Pow10(b)
    decreases b
  {
    if a < b { Pow10Monotone(a, b - 1); }
  }

  lemma RoundingBounds(value: real, prec: nat)
    requires 0.0 <= value <= INT_MAX as real && prec <= 9
    ensures RoundFraction(value, prec).whole <= INT_MAX + 1 &&
        RoundFraction(value, prec).frac <= Pow10(prec) < Pow10(10)
    ensures Rounding(value, prec).whole <= INT_MAX + 2
  {
    ScaledBounds(value, prec);
    Pow10Monotone(prec, 9);
    Pow10Ten();
  }

  lemma {:induction false} StrippedBounds(frac: nat, count: int)
    ensures Stripped(frac, count).0 <= frac && Stripped(frac, count).1 <= count
    ensures frac > 0 ==> Stripped(frac, count).0 > 0 && Stripped(frac, count).0 % 10 != 0
    decreases frac
  {
    if frac > 0 && frac % 10 == 0 { StrippedBounds(frac / 10, count - 1); }
  }

  /** The rounding that the printing of fractions begins with. */
  method RoundIt(value: real, prec: nat) returns (whole: nat, frac: nat)
    requires 0.0 <= value <= INT_MAX as real && prec <= 9
    ensures Rounding(value, prec).whole == whole && (prec > 0 ==> Rounding(value, prec).frac == frac)
  {
    ScaledBounds(value, prec);
    whole := value.Floor;
    var tmp := (value - whole as real) * Pow10(prec) as real;
    assert tmp == Scaled(value, prec);
    frac := tmp.Floor;
    var diff := tmp - frac as real;
    if diff > 0.5 {
      frac := frac + 1;
      if frac >= Pow10(prec) {
        frac, whole := 0, whole + 1;
      }
    } else if diff == 0.5 && (frac == 0 || frac % 2 == 1) {
      frac := frac + 1;
    }
    assert RoundFraction(value, prec) == Rounded(whole, frac);
    if prec == 0 {
      diff := value - whole as real;
      if diff > 0.5 {
        whole := whole + 1;
      } else if diff == 0.5 && whole % 2 == 1 {
        whole := whole + 1;
      }
    }
  }

  /** One more character behind those written so far: in front of the text. */
  method PutChar(str: array<char>, w: nat, c: char, ghost text: string)
    requires w < str.Length && Reversed(str[..w]) == text
    modifies str
    ensures Reversed(str[..w + 1]) == [c] + text
  {
    hide Reversed;
    ReversedAppend(str[..w], c);
    str[w] := c;
    assert str[..w + 1] == old(str[..w]) + [c];
  }

  lemma ZerosNext(n: nat, text: string)
    ensures ['0'] + (Zeros(n) + text) == Zeros(n + 1) + text
    ensures Zeros(0) + text == text
  {
    assert Zeros(n + 1) == "0" + Zeros(n);
  }

  /** Writes `count` zeros, if that is positive. */
  method PutZeros(str: array<char>, n: nat, count: int, ghost text: string) returns (w: nat)
    requires n + (if count > 0 then count else 0) <= str.Length && Reversed(str[..n]) == text
    modifies str
    ensures w == n + (if count > 0 then count else 0) && Reversed(str[..w]) == Zeros(count) + text
  {
    hide Reversed;
    w := n;
    var left := count;
    ZerosNext(0, text);
    while left > 0
      invariant n <= w && w - n + (if left > 0 then left else 0) == (if count > 0 then count else 0)
      invariant w <= str.Length && Reversed(str[..w]) == Zeros(w - n) + text
    {
      ZerosNext(w - n, text);
      PutChar(str, w, '0', Zeros(w - n) + text);
      w, left := w + 1, left - 1;
    }
  }

  /** Writes a fraction, last digit first, with the point behind it. */
  method PutFraction(str: array<char>, frac0: nat, prec: nat) returns (w: nat)
    requires 32 <= str.Length && 0 < frac0 < Pow10(10) && prec <= 9
    modifies str
    ensures w <= 11 && Reversed(str[..w]) == FractionText(frac0, prec)
  {
    hide Pow10, Reversed, OnlyBetween, Zeros;
    var frac, count: int := frac0, prec;
    StrippedBounds(frac0, prec);
    while frac % 10 == 0
      invariant 0 < frac <= frac0 && Stripped(frac, count) == Stripped(frac0, prec)
      decreases frac
    {
      count, frac := count - 1, frac / 10;
    }
    w := PutDigits(str, 0, frac);
    ghost var digits := DigitsOf(frac);
    assert str[..w] == str[0..w];
    ReversedLength(str[..w], digits);
    count := count - w;
    ghost var places := count;
    w := PutZeros(str, w, count, digits);
    PutChar(str, w, '.', Zeros(places) + digits);
    w := w + 1;
    assert "." + Zeros(places) + digits == ['.'] + (Zeros(places) + digits);
  }

  lemma ReversedLength(s: string, r: string)
    ensures Reversed(s) == r ==> |r| == |s|
  {
  }

  lemma {:induction false} FractionChars(frac: nat, prec: nat)
    ensures forall i | 0 <= i < |FractionText(frac, prec)| ::
              IsDigit(FractionText(frac, prec)[i]) || FractionText(frac, prec)[i] == '.'
  {
    var (f, count) := Stripped(frac, prec);
    DigitsRoundTrip(f);
    ZerosAreDigits(count - |DigitsOf(f)|);
  }

  lemma {:induction false} ZerosAreDigits(n: int)
    ensures Digits(Zeros(n)) && |Zeros(n)| == (if n > 0 then n else 0) && ValueOf(Zeros(n), 10) == 0
    decreases n
  {
    if n > 0 {
      ZerosAreDigits(n - 1);
      ZerosBack(n - 1);
      var s := Zeros(n);
      assert s[..|s| - 1] == Zeros(n - 1) && s[|s| - 1] == '0';
    }
  }

  lemma {:induction false} ZerosBack(n: nat)
    ensures "0" + Zeros(n) == Zeros(n) + "0"
  {
    if n > 0 {
      ZerosBack(n - 1);
      assert "0" + (Zeros(n - 1) + "0") == ("0" + Zeros(n - 1)) + "0";
    }
  }

  method PutText(str: array<char>, text: string)
    requires |text| < str.Length && '\0' !in text
    modifies str
    ensures CString(str[..]) == text
  {
    forall k | 0 <= k < |text| {
      str[k] := text[k];
    }
    str[|text|] := '\0';
    assert str[..] == text + ['\0'] + str[|text| + 1..];
    CStringOf(text, str[|text| + 1..]);
  }

  /** The numbers whose whole part is an int. */
  method PutDouble(value: real, str: array<char>, prec: int)
    requires -(INT_MAX as real) <= value <= INT_MAX as real && 32 <= str.Length
    modifies str
    ensures CString(str[..]) == Dtoa(value, prec)
  {
    hide Pow10, CString, Reversed, Rounding, OnlyBetween, FractionText;
    var p := Clamped(prec);
    var neg := value < 0.0;
    var v := if neg then -value else value;
    var whole, frac := RoundIt(v, p);
    RoundingBounds(v, p);
    RoundingSmall(v, p, frac);
    ghost var fraction := if p == 0 || frac == 0 then "" else FractionText(frac, p);
    var w := 0;
    if p > 0 && frac != 0 {
      w := PutFraction(str, frac, p);
    } else {
      ReversedEmpty(str[..0]);
    }
    ghost var start, before := str[..w], str[..];
    var w' := PutDigits(str, w, whole);
    OnlyBetweenHead(before, str[..], w, w');
    ghost var text := DigitsOf(whole) + fraction;
    assert str[..w'] == start + str[w..w'] by { OnlyBetweenPrefix(start, str[..], w, w'); }
    ReversedConcat(start, str[w..w']);
    DigitsRoundTrip(whole);
    FractionChars(frac, p);
    if neg {
      PutChar(str, w', '-', text);
      w' := w' + 1;
      text := ['-'] + text;
    }
    DtoaText(value, prec, whole, frac, fraction);
    Finish(str, w', text);
  }

  lemma ReversedEmpty(s: string)
    requires s == ""
    ensures Reversed(s) == ""
  {
  }

  lemma OnlyBetweenHead(s: string, s': string, at: nat, w: nat)
    requires OnlyBetween(s, s', at, w)
    ensures at <= w <= |s| == |s'| && s'[..at] == s[..at]
  {
  }

  lemma OnlyBetweenPrefix(start: string, s: string, w: nat, w': nat)
    requires w <= w' <= |s| && |start| == w && s[..w] == start
    ensures s[..w'] == start + s[w..w']
  {
  }

  lemma RoundingSmall(value: real, prec: nat, frac: nat)
    requires 0.0 <= value <= INT_MAX as real && prec <= 9 && (prec > 0 ==> Rounding(value, prec).frac == frac)
    ensures prec > 0 ==> frac < Pow10(10)
    ensures INT_MAX + 2 < Pow10(10)
  {
    RoundingBounds(value, prec);
    Pow10Ten();
  }

  lemma DtoaText(value: real, prec: int, whole: nat, frac: nat, fraction: string)
    requires var r := Rounding(if value < 0.0 then -value else value, Clamped(prec));
      r.whole == whole && (Clamped(prec) > 0 ==> r.frac == frac)
    requires fraction == if Clamped(prec) == 0 || frac == 0 then "" else FractionText(frac, Clamped(prec))
    ensures Dtoa(value, prec) ==
      if value < 0.0 then ['-'] + (DigitsOf(whole) + fraction) else DigitsOf(whole) + fraction
  {
  }

  // ---- What a decimal text denotes ----

  /** The position of the decimal point, or the end. */
  function PointAt(s: string): (i: nat)
    ensures i <= |s| && (i < |s| ==> s[i] == '.')
  {
    if s == "" || s[0] == '.' then 0 else 1 + PointAt(s[1..])
  }

  function ParseUnsigned(s: string): real {
    var i := PointAt(s);
    ValueOf(s[..i], 10) as real +
    if i < |s| then ValueOf(s[i + 1..], 10) as real / Pow10(|s| - i - 1) as real else 0.0
  }

  function ParseReal(s: string): real {
    if s != "" && s[0] == '-' then 0.0 - ParseUnsigned(s[1..]) else ParseUnsigned(s)
  }

  lemma {:induction false} PointBehind(digits: string, rest: string)
    requires Digits(digits) && (rest == "" || rest[0] == '.')
    ensures PointAt(digits + rest) == |digits|
  {
    if digits == "" {
      assert digits + rest == rest;
    } else {
      assert (digits + rest)[1..] == digits[1..] + rest;
      PointBehind(digits[1..], rest);
    }
  }

  lemma {:induction false} ValueOfConcat(a: string, b: string)
    ensures ValueOf(a + b, 10) == ValueOf(a, 10) * Pow10(|b|) + ValueOf(b, 10)
    decreases |b|
  {
    if b == "" {
      assert a + b == a;
    } else {
      hide ValueOf, IsDigit;
      var b', c := b[..|b| - 1], b[|b| - 1];
      ValueOfConcat(a, b');
      TimesTen(ValueOf(a, 10), Pow10(|b'|));
      assert b == b' + [c] && a + b == (a + b') + [c];
      ValueOfLast(a + b', c);
      ValueOfLast(b', c);
    }
  }

  lemma ValueOfLast(s: string, c: char)
    ensures ValueOf(s + [c], 10) == ValueOf(s, 10) * 10 + if DigitValue(c, 10) >= 0 then DigitValue(c, 10) else 0
  {
    assert (s + [c])[..|s|] == s;
  }

  lemma {:induction false} DigitsLength(n: nat, c: nat)
    requires 0 < n < Pow10(c)
    ensures |DigitsOf(n)| <= c
    decreases n
  {
    if n >= 10 { DigitsLength(n / 10, c - 1); }
  }

  lemma {:induction false} StrippedValue(frac: nat, count: nat)
    requires 0 < frac < Pow10(count)
    ensures var (f, c) := Stripped(frac, count);
      0 < c <= count && 0 < f < Pow10(c) && f * Pow10(count - c) == frac
    decreases frac
  {
    if frac % 10 == 0 {
      StrippedValue(frac / 10, count - 1);
      var (f, c) := Stripped(frac, count);
      assert (f, c) == Stripped(frac / 10, count - 1);
      hide Stripped;
      assert Pow10(count - c) == 10 * Pow10(count - 1 - c);
      TimesTen(f, Pow10(count - 1 - c));
    }
  }

  lemma TimesTen(f: nat, p: nat)
    ensures f * (10 * p) == 10 * (f * p)
  {
  }

  lemma {:induction false} Pow10Add(a: nat, b: nat)
    ensures Pow10(a + b) == Pow10(a) * Pow10(b)
  {
    if a > 0 {
      Pow10Add(a - 1, b);
      assert Pow10(a) * Pow10(b) == 10 * (Pow10(a - 1) * Pow10(b));
    }
  }

  lemma DivideBoth(f: real, p: real, q: real)
    requires p > 0.0 && q > 0.0
    ensures f / p == (f * q) / (p * q)
  {
  }

  /** The text behind the point: the fraction with zeros in front, but none at the end. */
  function Places(frac: nat, prec: nat): string {
    var (f, count) := Stripped(frac, prec);
    Zeros(count - |DigitsOf(f)|) + DigitsOf(f)
  }

  lemma PlacesText(frac: nat, prec: nat)
    requires frac > 0
    ensures FractionText(frac, prec) == "." + Places(frac, prec)
    ensures Digits(Places(frac, prec)) && Places(frac, prec) != ""
    ensures Places(frac, prec)[|Places(frac, prec)| - 1] != '0'
  {
    StrippedBounds(frac, prec);
    var (f, count) := Stripped(frac, prec);
    ZerosAreDigits(count - |DigitsOf(f)|);
    DigitsRoundTrip(f);
    LastDigit(f);
    hide Stripped, Zeros, DigitsOf;
    var z, d := Zeros(count - |DigitsOf(f)|), DigitsOf(f);
    assert "." + z + d == "." + (z + d);
  }

  lemma LastDigit(n: nat)
    ensures DigitsOf(n) != "" && DigitsOf(n)[|DigitsOf(n)| - 1] == Digit(n % 10)
  {
  }

  lemma PaddedDigits(f: nat, z: nat)
    ensures ValueOf(Zeros(z) + DigitsOf(f), 10) == f && |Zeros(z) + DigitsOf(f)| == z + |DigitsOf(f)|
  {
    DigitsRoundTrip(f);
    ZerosAreDigits(z);
    hide Zeros, DigitsOf, Pow10;
    ValueOfConcat(Zeros(z), DigitsOf(f));
    assert 0 * Pow10(|DigitsOf(f)|) == 0;
  }

  lemma PlacesDigits(frac: nat, prec: nat)
    requires 0 < frac < Pow10(prec)
    ensures var (f, c) := Stripped(frac, prec);
      0 < c <= prec && ValueOf(Places(frac, prec), 10) == f && |Places(frac, prec)| == c && f * Pow10(prec - c) == frac
  {
    StrippedValue(frac, prec);
    hide Stripped, Zeros, DigitsOf, Pow10, ValueOf;
    var (f, c) := Stripped(frac, prec);
    DigitsLength(f, c);
    PaddedDigits(f, c - |DigitsOf(f)|);
  }

  lemma Quotient(f: nat, frac: nat, p: nat, q: nat, r: nat)
    requires p > 0 && q > 0 && f * q == frac && p * q == r
    ensures f as real / p as real == frac as real / r as real
  {
    DivideBoth(f as real, p as real, q as real);
    assert f as real * q as real == (f * q) as real;
    assert p as real * q as real == (p * q) as real;
  }

  lemma PlacesValue(frac: nat, prec: nat)
    requires 0 < frac < Pow10(prec)
    ensures ValueOf(Places(frac, prec), 10) as real / Pow10(|Places(frac, prec)|) as real ==
        frac as real / Pow10(prec) as real
  {
    hide Stripped, Places, Pow10;
    PlacesDigits(frac, prec);
    var (f, c) := Stripped(frac, prec);
    Pow10Add(c, prec - c);
    Quotient(f, frac, Pow10(c), Pow10(prec - c), Pow10(prec));
  }

  /** A fraction that was rounded up to a whole is printed as one tenth. */
  lemma {:induction false} StrippedWhole(n: nat)
    ensures Stripped(Pow10(n), n) == (1, 0)
  {
    if n > 0 {
      assert Pow10(n) / 10 == Pow10(n - 1);
      StrippedWhole(n - 1);
    }
  }

  lemma TextValue(whole: nat, fraction: string)
    requires fraction == "" || (fraction[0] == '.' && fraction[1..] != "")
    ensures ParseUnsigned(DigitsOf(whole) + fraction) ==
      whole as real + if fraction == "" then 0.0 else ValueOf(fraction[1..], 10) as real / Pow10(|fraction| - 1) as real
    ensures DigitsOf(whole) + fraction != "" && (DigitsOf(whole) + fraction)[0] != '-'
  {
    var d := DigitsOf(whole);
    var s := d + fraction;
    DigitsRoundTrip(whole);
    PointBehind(d, fraction);
    assert s[..|d|] == d;
    if fraction != "" { assert s[|d| + 1..] == fraction[1..]; }
  }

  // ---- How close the printed number is ----

  /** The fraction lies exactly half a unit below the next whole number: its places are all nines and a half. */
  predicate NinesTie(value: real, prec: nat) {
    prec > 0 && Scaled(value, prec) == Pow10(prec) as real - 0.5
  }

  function Distance(a: real, b: real): real { if a >= b then a - b else b - a }

  lemma {:induction false} Pow10Even(n: nat)
    ensures n > 0 ==> Pow10(n) % 2 == 0 && Pow10(n) >= 10
  {
    if n > 1 { Pow10Even(n - 1); }
  }

  /** Rounding is off by half a unit at most; the units reach a whole without a carry only in the tie. */
  lemma RoundUnitsClose(tmp: real, q: nat)
    requires 0.0 <= tmp < q as real && q >= 10 && q % 2 == 0
    ensures var (carry, frac) := RoundUnits(tmp, q);
      && carry <= 1 && frac <= q
      && Distance((if carry == 1 then q as real else 0.0) + frac as real, tmp) <= 0.5
      && (frac == q <==> tmp == q as real - 0.5)
      && (frac == q ==> carry == 0)
  {
    var frac := tmp.Floor;
    assert frac as real <= tmp < frac as real + 1.0;
  }

  /** A rounded number, in units above the whole part of `value`. */
  function UnitsAbove(r: Rounded, value: real, prec: nat): real {
    (r.whole as real - value.Floor as real) * Pow10(prec) as real + r.frac as real
  }

  /** The same for a number: `Scaled` units above its whole part. */
  lemma RoundedUnits(value: real, prec: nat)
    requires value >= 0.0 && prec > 0
    ensures var r := Rounding(value, prec);
      && Distance(UnitsAbove(r, value, prec), Scaled(value, prec)) <= 0.5
      && r.frac <= Pow10(prec)
      && (r.frac == Pow10(prec) <==> NinesTie(value, prec))
      && (NinesTie(value, prec) ==> r.whole == value.Floor)
  {
    ScaledBounds(value, prec);
    Pow10Even(prec);
    hide Scaled, RoundUnits, UnitsAbove, Distance, Pow10;
    var q, tmp := Pow10(prec), Scaled(value, prec);
    RoundUnitsClose(tmp, q);
    var (carry, frac) := RoundUnits(tmp, q);
    assert Rounding(value, prec) == Rounded(value.Floor + carry, frac);
    UnitsOfCarry(value, prec, carry, frac);
  }

  lemma UnitsOfCarry(value: real, prec: nat, carry: nat, frac: nat)
    requires value >= 0.0 && carry <= 1
    ensures UnitsAbove(Rounded(value.Floor + carry, frac), value, prec) ==
      (if carry == 1 then Pow10(prec) as real else 0.0) + frac as real
  {
    var whole := value.Floor + carry;
    CarryTimes(whole as real - value.Floor as real, carry, Pow10(prec) as real);
  }

  lemma CarryTimes(x: real, carry: nat, q: real)
    requires carry <= 1 && x == carry as real
    ensures x * q == if carry == 1 then q else 0.0
  {
  }

  lemma TimesNotNegative(a: real, b: real)
    requires a >= 0.0 && b >= 0.0
    ensures a * b >= 0.0
  {
  }

  lemma DivideBounds(e: real, q: real)
    requires q > 0.0 && -0.5 <= e <= 0.5
    ensures -(0.5 / q) <= e / q <= 0.5 / q
  {
    var inv := 1.0 / q;
    assert inv > 0.0 && e / q == e * inv && 0.5 / q == 0.5 * inv;
    TimesNotNegative(0.5 - e, inv);
    TimesNotNegative(0.5 + e, inv);
    assert (0.5 + e) * inv == 0.5 * inv + e * inv && (0.5 - e) * inv == 0.5 * inv - e * inv;
  }

  lemma UnitsToValue(whole: real, floor: real, frac: real, value: real, q: real)
    requires q > 0.0 && Distance((whole - floor) * q + frac, (value - floor) * q) <= 0.5
    ensures Distance(whole + frac / q, value) <= 0.5 / q
  {
    var e := (whole - floor) * q + frac - (value - floor) * q;
    assert e == (whole - value) * q + frac;
    assert e / q == (whole - value) + frac / q;
    DivideBounds(e, q);
  }

  /** The number in a text that was printed from a whole number and a proper fraction. */
  lemma PrintedValue(whole: nat, frac: nat, prec: nat)
    requires frac < Pow10(prec)
    ensures ParseUnsigned(DigitsOf(whole) + FractionText(frac, prec)) ==
        whole as real + frac as real / Pow10(prec) as real
    ensures DigitsOf(whole) + FractionText(frac, prec) != "" && (DigitsOf(whole) + FractionText(frac, prec))[0] != '-'
  {
    hide Pow10, ParseUnsigned, Places, Stripped;
    if frac > 0 {
      PlacesText(frac, prec);
      PlacesValue(frac, prec);
      assert FractionText(frac, prec)[1..] == Places(frac, prec);
    }
    TextValue(whole, FractionText(frac, prec));
  }

  lemma TieText(prec: nat)
    requires prec > 0
    ensures FractionText(Pow10(prec), prec) == ".1"
  {
    StrippedWhole(prec);
    assert DigitsOf(1) == "1";
  }

  lemma OneTenth()
    ensures ".1"[1..] == "1" && ValueOf("1", 10) == 1 && Pow10(1) == 10
  {
    assert "1"[..0] == "";
  }

  lemma PrintedTie(whole: nat, prec: nat)
    requires prec > 0
    ensures ParseUnsigned(DigitsOf(whole) + FractionText(Pow10(prec), prec)) == whole as real + 0.1
    ensures DigitsOf(whole) + FractionText(Pow10(prec), prec) != "" &&
        (DigitsOf(whole) + FractionText(Pow10(prec), prec))[0] != '-'
  {
    hide Pow10, ParseUnsigned, FractionText, ValueOf, DigitsOf;
    TieText(prec);
    OneTenth();
    TextValue(whole, ".1");
  }

  /** How far the printed text of a non-negative number is from the number. */
  lemma UnsignedIsClose(value: real, prec: nat)
    requires value >= 0.0
    ensures var r := Rounding(value, prec);
      var text := DigitsOf(r.whole) + FractionText(r.frac, prec);
      && text != "" && text[0] != '-'
      && (Distance(ParseUnsigned(text), value) <= 0.5 / Pow10(prec) as real <==> !NinesTie(value, prec))
  {
    hide ParseUnsigned, FractionText, DigitsOf, Rounding, NinesTie, Pow10, Scaled;
    if prec == 0 {
      UnsignedWhole(value);
    } else if NinesTie(value, prec) {
      UnsignedTie(value, prec);
    } else {
      UnsignedFraction(value, prec);
    }
  }

  lemma UnsignedWhole(value: real)
    requires value >= 0.0
    ensures var r := Rounding(value, 0);
      var text := DigitsOf(r.whole) + FractionText(r.frac, 0);
      && text != "" && text[0] != '-' && Pow10(0) == 1 && !NinesTie(value, 0)
      && Distance(ParseUnsigned(text), value) <= 0.5
  {
    WholeIsClose(value);
    hide ParseUnsigned, FractionText, DigitsOf, Rounding, Distance;
    PrintedValue(Rounding(value, 0).whole, 0, 0);
    assert 0 as real / Pow10(0) as real == 0.0;
  }

  lemma UnsignedTie(value: real, prec: nat)
    requires value >= 0.0 && NinesTie(value, prec)
    ensures var r := Rounding(value, prec);
      var text := DigitsOf(r.whole) + FractionText(r.frac, prec);
      && text != "" && text[0] != '-'
      && Distance(ParseUnsigned(text), value) > 0.5 / Pow10(prec) as real
  {
    assert prec > 0;
    hide ParseUnsigned, FractionText, DigitsOf, Rounding, Pow10, Scaled;
    RoundedUnits(value, prec);
    PrintedTie(Rounding(value, prec).whole, prec);
    TieIsFar(value, prec);
  }

  lemma UnsignedFraction(value: real, prec: nat)
    requires value >= 0.0 && prec > 0 && !NinesTie(value, prec)
    ensures var r := Rounding(value, prec);
      var text := DigitsOf(r.whole) + FractionText(r.frac, prec);
      && text != "" && text[0] != '-'
      && Distance(ParseUnsigned(text), value) <= 0.5 / Pow10(prec) as real
  {
    hide ParseUnsigned, FractionText, DigitsOf, Rounding, NinesTie, Pow10;
    RoundedUnits(value, prec);
    var r := Rounding(value, prec);
    assert Scaled(value, prec) == (value - value.Floor as real) * Pow10(prec) as real;
    PrintedValue(r.whole, r.frac, prec);
    UnitsToValue(r.whole as real, value.Floor as real, r.frac as real, value, Pow10(prec) as real);
  }

  lemma WholeIsClose(value: real)
    requires value >= 0.0
    ensures Rounding(value, 0).frac == 0 && Distance(Rounding(value, 0).whole as real, value) <= 0.5
  {
    assert Scaled(value, 0) == value - value.Floor as real;
  }

  lemma TieIsFar(value: real, prec: nat)
    requires value >= 0.0 && NinesTie(value, prec)
    ensures Distance(value.Floor as real + 0.1, value) > 0.5 / Pow10(prec) as real
  {
    Pow10Even(prec);
    var q, d := Pow10(prec) as real, value - value.Floor as real;
    hide Pow10;
    assert d * q == q - 0.5;
    assert (d * q) / q == d;
    assert (q - 0.5) / q == 1.0 - 0.5 / q;
    assert 0.5 / q <= 0.05;
  }

  /**
   How good the printed number is: it lies within half a unit of the last place of the number, except
   for fractions that lie exactly half a unit below the next whole number, where one tenth is printed.
   */
  lemma DtoaIsClose(value: real, prec: int)
    ensures var v := if value < 0.0 then -value else value;
      Distance(ParseReal(Dtoa(value, prec)), value) <= 0.5 / Pow10(Clamped(prec)) as real <==>
          !NinesTie(v, Clamped(prec))
  {
    hide ParseUnsigned, FractionText, DigitsOf, Rounding, NinesTie, Pow10;
    var v, p := if value < 0.0 then -value else value, Clamped(prec);
    UnsignedIsClose(v, p);
    var r := Rounding(v, p);
    var text := DigitsOf(r.whole) + FractionText(r.frac, p);
    if value < 0.0 {
      assert Dtoa(value, prec) == "-" + text;
      assert ("-" + text)[1..] == text;
    } else {
      assert Dtoa(value, prec) == text;
    }
  }

  /** An input that shows the exception: 0.95 with one place is printed as 0.1. */
  lemma NinesTieExample()
    ensures Dtoa(0.95, 1) == "0.1"
  {
    assert Pow10(1) == 10;
    assert (0.95 as real).Floor == 0;
    assert Scaled(0.95, 1) == 9.5 && (9.5 as real).Floor == 9;
    assert Rounding(0.95, 1) == Rounded(0, 10);
    assert Stripped(10, 1) == (1, 0);
    assert DigitsOf(0) == "0" && DigitsOf(1) == "1";
    assert FractionText(10, 1) == ".1";
  }

  lemma FractionShape(frac: nat, prec: nat)
    ensures var f := FractionText(frac, prec);
      f == "" || (f[0] == '.' && |f| > 1 && Digits(f[1..]) && f[|f| - 1] != '0')
  {
    hide Stripped, Places, FractionText;
    if frac > 0 {
      PlacesText(frac, prec);
      assert FractionText(frac, prec)[1..] == Places(frac, prec);
    } else {
      NoFraction(prec);
    }
  }

  lemma UnsignedTextShape(whole: nat, frac: nat, prec: nat)
    ensures var text := DigitsOf(whole) + FractionText(frac, prec);
      && text != "" && IsUnsigned(text) && text[0] != '-'
      && ('.' in text ==> text[|text| - 1] != '0')
  {
    DigitsRoundTrip(whole);
    WholeShape(whole);
    hide FractionText, DigitsOf;
    FractionShape(frac, prec);
    UnsignedShape(DigitsOf(whole), FractionText(frac, prec));
  }

  lemma WholeShape(n: nat)
    ensures |DigitsOf(n)| == 1 || DigitsOf(n)[0] != '0'
  {
    DigitsRoundTrip(n);
  }

  /** No zero is printed at the end of a fraction, and every printed text is a JSON number. */
  lemma DtoaShape(value: real, prec: int)
    ensures var text := Dtoa(value, prec);
      && text != "" && IsNumber(text)
      && ('.' in text ==> text[|text| - 1] != '0')
  {
    hide FractionText, Rounding, DigitsOf, IsUnsigned;
    var v, p := if value < 0.0 then -value else value, Clamped(prec);
    var r := Rounding(v, p);
    UnsignedTextShape(r.whole, r.frac, p);
    var text := DigitsOf(r.whole) + FractionText(r.frac, p);
    if value < 0.0 {
      assert Dtoa(value, prec) == "-" + text;
      assert ("-" + text)[1..] == text;
      assert '.' in "-" + text ==> '.' in text;
    } else {
      assert Dtoa(value, prec) == text;
    }
  }

  lemma NoFraction(prec: nat)
    ensures FractionText(0, prec) == ""
  {
  }

  lemma UnsignedShape(d: string, f: string)
    requires d != "" && Digits(d) && (|d| == 1 || d[0] != '0')
    requires f == "" || (f[0] == '.' && |f| > 1 && Digits(f[1..]) && f[|f| - 1] != '0')
    ensures IsUnsigned(d + f) && (d + f)[0] != '-' && ('.' in d + f ==> (d + f)[|d + f| - 1] != '0')
  {
    var s := d + f;
    assert s[..|d|] == d;
    if f != "" { assert s[|d| + 1..] == f[1..]; }
    if f == "" {
      assert s == d;
      assert forall i | 0 <= i < |d| :: IsDigit(d[i]);
    }
  }

  // ---- What is left in the buffer ----

  /** How far the absolute value of a number is above the whole number below it. */
  function Fraction(value: real): real {
    var v := if value < 0.0 then -value else value;
    v - v.Floor as real
  }

  /**
   The text is a JSON number with at most `places` places and no zero at the end of them. It lies within
   half a unit of the last place of the value, unless the fraction of the value lies half a unit below one.
   */
  ghost predicate Prints(text: string, value: real, places: nat) {
    && IsNumber(text) && ('.' in text ==> text[|text| - 1] != '0')
    && |text| <= PointAt(text) + 1 + places
    && (Distance(ParseReal(text), value) <= 0.5 / Pow10(places) as real <==>
          places == 0 || Fraction(value) != 1.0 - 0.5 / Pow10(places) as real)
  }

  lemma NinesTieMeans(value: real, prec: nat)
    requires value >= 0.0
    ensures NinesTie(value, prec) <==> prec > 0 && Fraction(value) == 1.0 - 0.5 / Pow10(prec) as real
  {
    var q, d := Pow10(prec) as real, Fraction(value);
    hide Pow10;
    assert (d * q) / q == d;
    assert (q - 0.5) / q == 1.0 - 0.5 / q;
    assert (1.0 - 0.5 / q) * q == q - 0.5;
  }

  lemma FractionLength(frac: nat, prec: nat)
    requires frac < Pow10(prec) || (frac == Pow10(prec) && prec > 0)
    ensures |FractionText(frac, prec)| <= prec + 1
  {
    hide Places, Stripped, Pow10;
    if frac == Pow10(prec) {
      TieText(prec);
    } else if frac > 0 {
      PlacesText(frac, prec);
      PlacesDigits(frac, prec);
    }
  }

  lemma RoundingFits(value: real, prec: nat)
    requires value >= 0.0
    ensures var frac := Rounding(value, prec).frac; frac < Pow10(prec) || (frac == Pow10(prec) && prec > 0)
  {
    if prec > 0 {
      RoundedUnits(value, prec);
    } else {
      WholeIsClose(value);
    }
  }

  lemma DtoaLength(value: real, prec: nat)
    requires prec <= 9
    ensures |Dtoa(value, prec)| <= PointAt(Dtoa(value, prec)) + 1 + prec
  {
    hide FractionText, Rounding, DigitsOf, Pow10;
    var v := if value < 0.0 then -value else value;
    var r := Rounding(v, prec);
    RoundingFits(v, prec);
    FractionLength(r.frac, prec);
    FractionShape(r.frac, prec);
    DigitsRoundTrip(r.whole);
    PointBehind(DigitsOf(r.whole), FractionText(r.frac, prec));
    if value < 0.0 {
      assert Dtoa(value, prec)[1..] == DigitsOf(r.whole) + FractionText(r.frac, prec);
    } else {
      assert Dtoa(value, prec) == DigitsOf(r.whole) + FractionText(r.frac, prec);
    }
  }

  /** Every precision beyond nine places counts as nine, every negative one as none. */
  lemma DtoaPrints(value: real, prec: int)
    ensures Prints(Dtoa(value, prec), value, if prec < 0 then 0 else if prec > 9 then 9 else prec)
  {
    var places: nat := if prec < 0 then 0 else if prec > 9 then 9 else prec;
    assert Clamped(prec) == places == Clamped(places) && Dtoa(value, prec) == Dtoa(value, places);
    DtoaIsClose(value, places);
    DtoaShape(value, places);
    DtoaLength(value, places);
    NinesTieMeans(if value < 0.0 then -value else value, places);
  }

  lemma TieUnits(tmp: real, q: nat, k: nat)
    requires tmp == k as real + 0.5 && k < q
    ensures RoundUnits(tmp, q) == (0, if k == 0 || k % 2 == 1 then k + 1 else k)
  {
    assert tmp.Floor == k;
  }

  /** Without places, a half goes to the even neighbour. */
  lemma HalvesGoToEven(value: real)
    requires value >= 0.0 && Fraction(value) == 0.5
    ensures ParseReal(Dtoa(value, 0)) == (if value.Floor % 2 == 0 then value.Floor else value.Floor + 1) as real
  {
    assert Scaled(value, 0) == 0.5 && (0.5 as real).Floor == 0;
    var r := Rounding(value, 0);
    assert r == Rounded(if value.Floor % 2 == 0 then value.Floor else value.Floor + 1, 0);
    assert r.frac as real / Pow10(0) as real == 0.0;
    hide DigitsOf, FractionText, Pow10, ParseUnsigned, Rounding, Fraction;
    PrintedValue(r.whole, r.frac, 0);
    assert Dtoa(value, 0) == DigitsOf(r.whole) + FractionText(r.frac, 0);
  }

  /** With places, `k` units and a half are printed as `k + 1` units if `k` is zero or odd, and as `k` otherwise. */
  lemma TiesAreBroken(value: real, prec: nat, k: nat)
    requires value >= 0.0 && 0 < prec <= 9 && k + 1 < Pow10(prec)
    requires Fraction(value) * Pow10(prec) as real == k as real + 0.5
    ensures ParseReal(Dtoa(value, prec)) ==
      value.Floor as real + (if k == 0 || k % 2 == 1 then k + 1 else k) as real / Pow10(prec) as real
  {
    hide DigitsOf, FractionText, Pow10, ParseUnsigned, RoundUnits;
    ScaledBounds(value, prec);
    assert Scaled(value, prec) == k as real + 0.5;
    TieUnits(Scaled(value, prec), Pow10(prec), k);
    hide Scaled, Fraction;
    var units: nat := if k == 0 || k % 2 == 1 then k + 1 else k;
    var r := Rounding(value, prec);
    assert r == Rounded(value.Floor, units);
    hide Rounding;
    PrintedValue(r.whole, r.frac, prec);
    assert Dtoa(value, prec) == DigitsOf(r.whole) + FractionText(r.frac, prec);
  }

  /** The reading of numbers, on examples. */
  lemma ReadingByExample()
    ensures ParseInt("-120") == -120 && ParseReal("-12.5") == -12.5 && ParseReal("7") == 7.0
  {
    assert "-120"[1..] == "120" && "120"[..2] == "12" && "12"[..1] == "1" && "1"[..0] == "";
    assert "-12.5"[1..] == "12.5" && "12.5"[1..] == "2.5" && "2.5"[1..] == ".5";
    assert PointAt(".5") == 0 && PointAt("2.5") == 1 && PointAt("12.5") == 2;
    assert "12.5"[..2] == "12" && "12.5"[3..] == "5" && "5"[..0] == "";
    assert ValueOf("12", 10) == 12 && ValueOf("5", 10) == 5 && Pow10(1) == 10;
    assert "7"[1..] == "" && PointAt("7") == 1 && "7"[..1] == "7" && "7"[..0] == "";
  }

  /** What printing a number with an exponent may give: a C string for the 32 characters there are. */
  ghost predicate Exponential(sprintf: real -> string) {
    forall v: real :: |sprintf(v)| < 32 && '\0' !in sprintf(v)
  }

  /** The text of a number: large ones are left to the C library, which is `sprintf`. */
  function DoubleText(value: real, prec: int, sprintf: real -> string): string {
    if -(INT_MAX as real) <= value <= INT_MAX as real then Dtoa(value, prec) else sprintf(value)
  }

  /** Prints a number with at most `prec` places, which is cut to at most nine. */
  method ModpDtoa2(value: real, str: array<char>, prec: int, sprintf: real -> string)
    requires Exponential(sprintf) && 32 <= str.Length
    modifies str
    ensures CString(str[..]) == DoubleText(value, prec, sprintf)
    ensures if -2147483647.0 <= value <= 2147483647.0
      then Prints(CString(str[..]), value, if prec < 0 then 0 else if prec > 9 then 9 else prec)
      else CString(str[..]) == sprintf(value)
  {
    hide Prints, Dtoa, CString;
    if value > INT_MAX as real || -value > INT_MAX as real {
      PutText(str, sprintf(value));
      return;
    }
    PutDouble(value, str, prec);
    DtoaPrints(value, prec);
  }

  lemma DoubleTextPrints(value: real, prec: int, sprintf: real -> string)
    ensures var text := DoubleText(value, prec, sprintf);
      if -2147483647.0 <= value <= 2147483647.0
      then Prints(text, value, if prec < 0 then 0 else if prec > 9 then 9 else prec)
      else text == sprintf(value)
  {
    hide Prints, Dtoa;
    DtoaPrints(value, prec);
  }
}
