// The library string operations the proxy code leans on: strings.Split with a
// one-character separator, strings.Join, strconv.Itoa and strconv.Atoi.
module Strings {

  function Split(s: string, sep: char): (parts: seq<string>)
    ensures |parts| >= 1
    ensures forall p :: p in parts ==> sep !in p
  {
    if s == "" then [""]
    else
      var rest := Split(s[1..], sep);
      if s[0] == sep then [""] + rest else [[s[0]] + rest[0]] + rest[1..]
  }

  function Join(parts: seq<string>, sep: char): string
  {
    if |parts| == 0 then ""
    else if |parts| == 1 then parts[0]
    else parts[0] + [sep] + Join(parts[1..], sep)
  }

  function Count(s: string, c: char): nat
  {
    if s == "" then 0 else (if s[0] == c then 1 else 0) + Count(s[1..], c)
  }

  lemma {:induction false} SplitFree(s: string, sep: char)
    requires sep !in s
    ensures Split(s, sep) == [s]
  {
    if s != "" {
      SplitFree(s[1..], sep);
      assert s == [s[0]] + s[1..];
    }
  }

  lemma SplitFront(s: string, sep: char, x: seq<string>, y: seq<string>)
    requires s != "" && x != [] && Split(s[1..], sep) == x + y
    ensures Split(s, sep) == (if s[0] == sep then [""] + x else [[s[0]] + x[0]] + x[1..]) + y
  {
    assert (x + y)[1..] == x[1..] + y;
  }

  /** A separator between two strings splits them independently. */
  lemma {:induction false} SplitConcat(a: string, sep: char, b: string)
    ensures Split(a + [sep] + b, sep) == Split(a, sep) + Split(b, sep)
  {
    var s := a + [sep] + b;
    if a == "" {
      assert s[1..] == b;
      assert Split(s, sep) == [""] + Split(b, sep);
    } else {
      assert s[1..] == a[1..] + [sep] + b && s[0] == a[0];
      SplitConcat(a[1..], sep, b);
      SplitFront(s, sep, Split(a[1..], sep), Split(b, sep));
      SplitFront(a, sep, Split(a[1..], sep), []);
      assert Split(a[1..], sep) + [] == Split(a[1..], sep);
    }
  }

  lemma {:induction false} SplitKeeps(s: string, sep: char, c: char)
    requires c !in s
    ensures forall p :: p in Split(s, sep) ==> c !in p
  {
    if s != "" {
      assert forall x :: x in s[1..] ==> x in s;
      SplitKeeps(s[1..], sep, c);
    }
  }

  lemma {:induction false} JoinSplit(s: string, sep: char)
    ensures Join(Split(s, sep), sep) == s
  {
    if s != "" {
      var rest := Split(s[1..], sep);
      JoinSplit(s[1..], sep);
      if s[0] == sep {
        assert ([""] + rest)[1..] == rest;
      } else {
        assert ([[s[0]] + rest[0]] + rest[1..])[1..] == rest[1..];
      }
    }
  }

  lemma {:induction false} SplitCount(s: string, sep: char)
    ensures |Split(s, sep)| == 1 + Count(s, sep)
    ensures Count(s, sep) == 0 <==> sep !in s
  {
    if s != "" {
      SplitCount(s[1..], sep);
      assert s == [s[0]] + s[1..];
    }
  }

  // ---- decimal numbers -------------------------------------------------

  const MAX_INT := 0x7FFF_FFFF_FFFF_FFFF
  const MIN_INT := -0x8000_0000_0000_0000

  predicate IsDigit(c: char) { '0' <= c <= '9' }

  predicate AllDigits(s: string) { forall i :: 0 <= i < |s| ==> IsDigit(s[i]) }

  function Digits(n: nat): (s: string)
    ensures s != "" && AllDigits(s)
  {
    var last := ['0' + (n % 10) as char];
    if n < 10 then last else Digits(n / 10) + last
  }

  function Itoa(n: int): string
  {
    if n < 0 then "-" + Digits(-n) else Digits(n)
  }

  function DigitsValue(s: string): nat
    requires AllDigits(s)
  {
    if s == "" then 0
    else 10 * DigitsValue(s[..|s| - 1]) + (s[|s| - 1] as int - '0' as int)
  }

  /** strconv.Atoi with its error dropped: a syntax error gives 0 and a value
      outside the 64-bit range gives the nearest end of the range. */
  function Atoi(s: string): int
  {
    var signed := s != "" && (s[0] == '-' || s[0] == '+');
    var body := if signed then s[1..] else s;
    if body == "" || !AllDigits(body) then 0
    else
      var magnitude: int := DigitsValue(body);
      var v := if signed && s[0] == '-' then -magnitude else magnitude;
      if v > MAX_INT then MAX_INT else if v < MIN_INT then MIN_INT else v
  }

  lemma {:induction false} DigitsRoundTrip(n: nat)
    ensures DigitsValue(Digits(n)) == n
  {
    if n >= 10 {
      DigitsRoundTrip(n / 10);
      assert Digits(n)[..|Digits(n)| - 1] == Digits(n / 10);
    } else {
      assert Digits(n)[..0] == "";
    }
  }

  lemma AtoiUnsigned(digits: string)
    requires digits != "" && AllDigits(digits) && DigitsValue(digits) <= MAX_INT
    ensures Atoi(digits) == DigitsValue(digits)
  {
    assert IsDigit(digits[0]);
  }

  lemma AtoiNegative(digits: string)
    requires digits != "" && AllDigits(digits) && DigitsValue(digits) <= MAX_INT + 1
    ensures Atoi("-" + digits) + DigitsValue(digits) == 0
  {
    assert ("-" + digits)[1..] == digits;
  }

  /** What any text is read as: a number with or without a sign is itself, cut off
      at the ends of the 64-bit range, and all else is 0. */
  lemma AtoiReads(s: string)
    ensures s != "" && AllDigits(s) ==>
      Atoi(s) == if DigitsValue(s) <= 0x7FFF_FFFF_FFFF_FFFF then DigitsValue(s) else 0x7FFF_FFFF_FFFF_FFFF
    ensures |s| > 1 && s[0] == '+' && AllDigits(s[1..]) ==> Atoi(s) == Atoi(s[1..])
    ensures |s| > 1 && s[0] == '-' && AllDigits(s[1..]) ==>
      Atoi(s) == -(if DigitsValue(s[1..]) <= 0x8000_0000_0000_0000 then DigitsValue(s[1..]) else 0x8000_0000_0000_0000)
    ensures s == "" || (!AllDigits(s) && (|s| == 1 || (s[0] != '-' && s[0] != '+') || !AllDigits(s[1..]))) ==> Atoi(s) == 0
  {
    if s != "" && AllDigits(s) {
      assert IsDigit(s[0]);
    }
    if |s| > 1 && AllDigits(s[1..]) {
      assert IsDigit(s[1..][0]);
    }
  }

  lemma AtoiItoa(n: int)
    requires MIN_INT <= n <= MAX_INT
    ensures Atoi(Itoa(n)) == n
  {
    if n < 0 {
      DigitsRoundTrip(-n);
      AtoiNegative(Digits(-n));
    } else {
      DigitsRoundTrip(n);
      AtoiUnsigned(Digits(n));
    }
  }
}
