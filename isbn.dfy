/** ISBN validation of the book form: ISBN-10 (modulus 11, weights 10 down to 1, `X`
    standing for 10) and ISBN-13 (modulus 10, weights alternating 1 and 3, the EAN-13
    check digit), as ISO 2108 defines them. */
module Isbn {
  import opened Text

  /** The first `n` characters of `s` are decimal digits (the regular expression `\d`). */
  predicate DigitsUpTo(s: string, n: nat) {
    n <= |s| && forall i :: 0 <= i < n ==> IsDigit(s[i])
  }

  /** Sum of the first `n` digits weighted 10, 9, 8, ... */
  function Weighted10(s: string, n: nat): int
    requires n <= 10 && DigitsUpTo(s, n)
  {
    if n == 0 then 0 else Weighted10(s, n - 1) + DigitValue(s[n - 1]) * (10 - (n - 1))
  }

  /** Value of an ISBN-10 check character: `X` is 10, a digit its value. */
  function CheckValue10(c: char): int
    requires c == 'X' || IsDigit(c)
  {
    if c == 'X' then 10 else DigitValue(c)
  }

  /** What `validateISBN10` accepts: nine digits, then a digit or an upper-case `X`, with a
      weighted sum divisible by 11. */
  predicate ValidIsbn10(s: string) {
    && |s| >= 10
    && DigitsUpTo(s, 9)
    && (s[9] == 'X' || IsDigit(s[9]))
    && (Weighted10(s, 9) + CheckValue10(s[9])) % 11 == 0
  }

  /** Sum of the first `n` digits weighted 1, 3, 1, 3, ... */
  function Weighted13(s: string, n: nat): int
    requires n <= 13 && DigitsUpTo(s, n)
  {
    if n == 0 then 0
    else Weighted13(s, n - 1) + DigitValue(s[n - 1]) * (if (n - 1) % 2 == 0 then 1 else 3)
  }

  /** What `validateISBN13` accepts: twelve digits, then the digit
      `(10 - sum mod 10) mod 10`. */
  predicate ValidIsbn13(s: string) {
    && |s| >= 13
    && DigitsUpTo(s, 12)
    && IsDigit(s[12])
    && (10 - Weighted13(s, 12) % 10) % 10 == DigitValue(s[12])
  }

  /** `validateISBN10`: one pass over the nine leading digits, then the check character. */
  method ValidateIsbn10(isbn: string) returns (ok: bool)
    ensures ok == ValidIsbn10(isbn)
  {
    var sum := 0;
    var i := 0;
    while i < 9
      invariant 0 <= i <= 9
      invariant DigitsUpTo(isbn, i)
      invariant sum == Weighted10(isbn, i)
    {
      if i >= |isbn| || !IsDigit(isbn[i]) {
        return false;
      }
      sum := sum + DigitValue(isbn[i]) * (10 - i);
      i := i + 1;
    }
    if |isbn| < 10 {
      return false;
    }
    var checkDigit := isbn[9];
    if checkDigit == 'X' {
      sum := sum + 10;
    } else if IsDigit(checkDigit) {
      sum := sum + DigitValue(checkDigit);
    } else {
      return false;
    }
    ok := sum % 11 == 0;
  }

  /** `validateISBN13`: one pass over the twelve leading digits, then the check digit. */
  method ValidateIsbn13(isbn: string) returns (ok: bool)
    ensures ok == ValidIsbn13(isbn)
  {
    var sum := 0;
    var i := 0;
    while i < 12
      invariant 0 <= i <= 12
      invariant DigitsUpTo(isbn, i)
      invariant sum == Weighted13(isbn, i)
    {
      if i >= |isbn| || !IsDigit(isbn[i]) {
        return false;
      }
      sum := sum + DigitValue(isbn[i]) * (if i % 2 == 0 then 1 else 3);
      i := i + 1;
    }
    if |isbn| < 13 || !IsDigit(isbn[12]) {
      return false;
    }
    ok := (10 - sum % 10) % 10 == DigitValue(isbn[12]);
  }

  /** `isbn.replace(/[-\s]/g, '')`. */
  function Clean(s: string): (r: string)
    ensures |r| <= |s|
    ensures forall i :: 0 <= i < |r| ==> r[i] != '-' && !IsWhitespace(r[i])
  {
    if s == [] then []
    else if s[0] == '-' || IsWhitespace(s[0]) then Clean(s[1..])
    else [s[0]] + Clean(s[1..])
  }

  /** Cleaning keeps every other character, in order: it distributes over concatenation. */
  lemma {:induction false} CleanConcat(a: string, b: string)
    ensures Clean(a + b) == Clean(a) + Clean(b)
  {
    if a == [] {
      assert a + b == b;
    } else {
      assert (a + b)[0] == a[0] && (a + b)[1..] == a[1..] + b;
      CleanConcat(a[1..], b);
    }
  }

  /** A text without hyphens and white space is already clean. */
  lemma {:induction false} CleanKeeps(s: string)
    requires forall i :: 0 <= i < |s| ==> s[i] != '-' && !IsWhitespace(s[i])
    ensures Clean(s) == s
  {
    if s != [] {
      CleanKeeps(s[1..]);
    }
  }

  /** What `validateISBN` accepts: the cleaned text is a valid ISBN-10 or a valid ISBN-13. */
  predicate ValidIsbn(s: string) {
    var c := Clean(s);
    (|c| == 10 && ValidIsbn10(c)) || (|c| == 13 && ValidIsbn13(c))
  }

  /** `validateISBN`: strips hyphens and white space, then dispatches on the cleaned length. */
  method ValidateIsbn(isbn: string) returns (ok: bool)
    ensures ok == ValidIsbn(isbn)
    ensures ok ==> |Clean(isbn)| == 10 || |Clean(isbn)| == 13
  {
    var cleanIsbn := Clean(isbn);
    if |cleanIsbn| == 10 {
      ok := ValidateIsbn10(cleanIsbn);
    } else if |cleanIsbn| == 13 {
      ok := ValidateIsbn13(cleanIsbn);
    } else {
      ok := false;
    }
  }

  lemma {:induction false} Weighted10Prefix(s: string, t: string, n: nat)
    requires n <= 10 && DigitsUpTo(s, n) && DigitsUpTo(t, n)
    requires forall i :: 0 <= i < n ==> s[i] == t[i]
    ensures Weighted10(s, n) == Weighted10(t, n)
  {
    if n > 0 {
      Weighted10Prefix(s, t, n - 1);
    }
  }

  lemma {:induction false} Weighted13Prefix(s: string, t: string, n: nat)
    requires n <= 13 && DigitsUpTo(s, n) && DigitsUpTo(t, n)
    requires forall i :: 0 <= i < n ==> s[i] == t[i]
    ensures Weighted13(s, n) == Weighted13(t, n)
  {
    if n > 0 {
      Weighted13Prefix(s, t, n - 1);
    }
  }

  /** The check character that completes nine digits into an ISBN-10. */
  function Check10(p: string): (c: char)
    requires |p| == 9 && DigitsUpTo(p, 9)
    ensures c == 'X' || IsDigit(c)
  {
    var v := (11 - Weighted10(p, 9) % 11) % 11;
    if v == 10 then 'X' else DigitChar(v)
  }

  /** Nine digits followed by `c` form a valid ISBN-10 exactly when `c` is their check
      character: every prefix has exactly one completion. */
  lemma Isbn10Completion(p: string, c: char)
    requires |p| == 9 && DigitsUpTo(p, 9)
    ensures ValidIsbn10(p + [c]) <==> c == Check10(p)
  {
    var s := p + [c];
    assert DigitsUpTo(s, 9);
    Weighted10Prefix(p, s, 9);
    var w := Weighted10(p, 9);
    if c == 'X' || IsDigit(c) {
      var v := CheckValue10(c);
      assert 0 <= v <= 10;
      assert c == Check10(p) <==> v == (11 - w % 11) % 11;
    }
  }

  /** Only an upper-case `X` stands for ten: a lower-case `x` makes an ISBN-10 invalid. */
  lemma LowercaseXRejected(s: string)
    requires |s| == 10 && s[9] == 'x'
    ensures !ValidIsbn10(s) && !ValidIsbn(s)
  {
    CleanKeepsAt(s);
  }

  lemma CleanKeepsAt(s: string)
    requires |s| == 10 && s[9] == 'x'
    ensures |Clean(s)| == 10 ==> Clean(s) == s
  {
    if |Clean(s)| == 10 {
      CleanLengthFull(s);
      CleanKeeps(s);
    }
  }

  /** Cleaning that removes nothing leaves only characters that are kept. */
  lemma {:induction false} CleanLengthFull(s: string)
    requires |Clean(s)| == |s|
    ensures forall i :: 0 <= i < |s| ==> s[i] != '-' && !IsWhitespace(s[i])
  {
    if s != [] {
      if s[0] == '-' || IsWhitespace(s[0]) {
        assert false;
      } else {
        CleanLengthFull(s[1..]);
        assert forall i :: 1 <= i < |s| ==> s[i] == s[1..][i - 1];
      }
    }
  }

  /** The check rule of `validateISBN13` is the EAN-13 rule of ISO 2108: all thirteen
      digits, weighted 1, 3, ..., 1, sum to a multiple of 10. */
  lemma Isbn13IsEan13(s: string)
    requires |s| >= 13
    ensures ValidIsbn13(s) <==> DigitsUpTo(s, 13) && Weighted13(s, 13) % 10 == 0
  {
    if DigitsUpTo(s, 12) && IsDigit(s[12]) {
      var w := Weighted13(s, 12);
      var d := DigitValue(s[12]);
      assert Weighted13(s, 13) == w + d;
      assert 0 <= d < 10;
    }
  }

  /** The check digit that completes twelve digits into an ISBN-13. */
  function Check13(p: string): (c: char)
    requires |p| == 12 && DigitsUpTo(p, 12)
    ensures IsDigit(c)
  {
    DigitChar((10 - Weighted13(p, 12) % 10) % 10)
  }

  lemma Isbn13Completion(p: string, c: char)
    requires |p| == 12 && DigitsUpTo(p, 12)
    ensures ValidIsbn13(p + [c]) <==> c == Check13(p)
  {
    var s := p + [c];
    assert DigitsUpTo(s, 12);
    Weighted13Prefix(p, s, 12);
    if IsDigit(c) {
      var v := (10 - Weighted13(p, 12) % 10) % 10;
      assert c == Check13(p) <==> DigitValue(c) == v;
    }
  }

  /** Replacing the digit at position `i` shifts the weighted sum by the change times its weight. */
  lemma {:induction false} Weighted10Change(s: string, t: string, i: nat, n: nat)
    requires n <= 10 && i < n && DigitsUpTo(s, n) && DigitsUpTo(t, n)
    requires forall j :: 0 <= j < n && j != i ==> s[j] == t[j]
    ensures Weighted10(t, n) == Weighted10(s, n) + (DigitValue(t[i]) - DigitValue(s[i])) * (10 - i)
  {
    var w := 10 - i;
    var a: int, b: int := DigitValue(s[i]), DigitValue(t[i]);
    assert b * w == a * w + (b - a) * w;
    if i == n - 1 {
      Weighted10Prefix(s, t, n - 1);
      assert Weighted10(t, n) == Weighted10(t, n - 1) + b * w;
      assert Weighted10(s, n) == Weighted10(s, n - 1) + a * w;
    } else {
      Weighted10Change(s, t, i, n - 1);
      assert s[n - 1] == t[n - 1];
    }
  }

  lemma {:induction false} Weighted13Change(s: string, t: string, i: nat, n: nat)
    requires n <= 13 && i < n && DigitsUpTo(s, n) && DigitsUpTo(t, n)
    requires forall j :: 0 <= j < n && j != i ==> s[j] == t[j]
    ensures Weighted13(t, n)
      == Weighted13(s, n) + (DigitValue(t[i]) - DigitValue(s[i])) * (if i % 2 == 0 then 1 else 3)
  {
    var w := if i % 2 == 0 then 1 else 3;
    var a: int, b: int := DigitValue(s[i]), DigitValue(t[i]);
    assert b * w == a * w + (b - a) * w;
    if i == n - 1 {
      Weighted13Prefix(s, t, n - 1);
      assert Weighted13(t, n) == Weighted13(t, n - 1) + b * w;
      assert Weighted13(s, n) == Weighted13(s, n - 1) + a * w;
    } else {
      Weighted13Change(s, t, i, n - 1);
      assert s[n - 1] == t[n - 1];
    }
  }

  /** 11 is prime: a non-zero digit difference times a weight from 2 to 10 is no multiple of 11. */
  lemma NoMultipleOf11(x: int, w: int)
    requires -9 <= x <= 9 && x != 0 && 2 <= w <= 10
    ensures (x * w) % 11 != 0
  {
    var k := x * w;
    if x == -9 { assert k == -9 * w; } else if x == -8 { assert k == -8 * w; }
    else if x == -7 { assert k == -7 * w; } else if x == -6 { assert k == -6 * w; }
    else if x == -5 { assert k == -5 * w; } else if x == -4 { assert k == -4 * w; }
    else if x == -3 { assert k == -3 * w; } else if x == -2 { assert k == -2 * w; }
    else if x == -1 { assert k == -w; } else if x == 1 { assert k == w; }
    else if x == 2 { assert k == 2 * w; } else if x == 3 { assert k == 3 * w; }
    else if x == 4 { assert k == 4 * w; } else if x == 5 { assert k == 5 * w; }
    else if x == 6 { assert k == 6 * w; } else if x == 7 { assert k == 7 * w; }
    else if x == 8 { assert k == 8 * w; } else { assert k == 9 * w; }
  }

  /** An ISBN-10 in which one of the nine leading digits is mistyped is rejected. */
  lemma Isbn10DetectsSingleError(s: string, t: string, i: nat)
    requires ValidIsbn10(s) && |t| == |s| && i < 9 && DigitsUpTo(t, 9)
    requires forall j :: 0 <= j < |s| && j != i ==> s[j] == t[j]
    requires t[i] != s[i]
    ensures !ValidIsbn10(t)
  {
    Weighted10Change(s, t, i, 9);
    DigitValueInjective(s[i], t[i]);
    var x := DigitValue(t[i]) - DigitValue(s[i]);
    NoMultipleOf11(x, 10 - i);
    assert t[9] == s[9];
    ShiftKeepsNonMultiple(Weighted10(s, 9) + CheckValue10(s[9]), x * (10 - i));
  }

  /** Distinct digit characters have distinct values. */
  lemma DigitValueInjective(c: char, d: char)
    requires IsDigit(c) && IsDigit(d) && c != d
    ensures DigitValue(c) != DigitValue(d)
  {
  }

  /** Adding a non-multiple of 11 to a multiple of 11 gives a non-multiple. */
  lemma ShiftKeepsNonMultiple(a: int, d: int)
    requires a % 11 == 0 && d % 11 != 0
    ensures (a + d) % 11 != 0
  {
  }

  /** An ISBN-13 in which one of the twelve leading digits is mistyped is rejected. */
  lemma Isbn13DetectsSingleError(s: string, t: string, i: nat)
    requires ValidIsbn13(s) && |t| == |s| && i < 12 && DigitsUpTo(t, 12)
    requires forall j :: 0 <= j < |s| && j != i ==> s[j] == t[j]
    requires t[i] != s[i]
    ensures !ValidIsbn13(t)
  {
    Isbn13IsEan13(s);
    Isbn13IsEan13(t);
    assert DigitsUpTo(t, 13);
    Weighted13Change(s, t, i, 13);
    DigitValueInjective(s[i], t[i]);
    var x := DigitValue(t[i]) - DigitValue(s[i]);
    NoMultipleOf10(Weighted13(s, 13), x, if i % 2 == 0 then 1 else 3);
  }

  /** A multiple of 10 shifted by a non-zero digit difference times 1 or 3 is no multiple
      of 10. */
  lemma NoMultipleOf10(a: int, x: int, w: int)
    requires a % 10 == 0 && -9 <= x <= 9 && x != 0 && (w == 1 || w == 3)
    ensures (a + x * w) % 10 != 0
  {
    if w == 3 {
      assert x * w == 3 * x;
    }
  }

  lemma DigitsClean(d: string)
    requires AllDigits(d)
    ensures Clean(d) == d
  {
    forall i | 0 <= i < |d|
      ensures d[i] != '-' && !IsWhitespace(d[i])
    {
      DigitNotWhitespace(d[i]);
    }
    CleanKeeps(d);
  }

  /** The ISBN of the sample record "1984", hyphens removed, passes. */
  lemma SampleIsbnValid()
    ensures ValidIsbn13("9780452284234")
  {
    var c := "9780452284234";
    assert DigitsUpTo(c, 13);
    assert Weighted13(c, 1) == 9;
    assert Weighted13(c, 2) == 30;
    assert Weighted13(c, 3) == 38;
    assert Weighted13(c, 4) == 38;
    assert Weighted13(c, 5) == 42;
    assert Weighted13(c, 6) == 57;
    assert Weighted13(c, 7) == 59;
    assert Weighted13(c, 8) == 65;
    assert Weighted13(c, 9) == 73;
    assert Weighted13(c, 10) == 85;
    assert Weighted13(c, 11) == 87;
    assert Weighted13(c, 12) == 96;
  }

  /** The ISBN of the sample record "Le Petit Prince", hyphens removed, fails its check
      digit: 2 is expected, 8 is written. */
  lemma SampleIsbnInvalid()
    ensures !ValidIsbn13("9782070408098")
  {
    var c := "9782070408098";
    assert DigitsUpTo(c, 13);
    assert Weighted13(c, 1) == 9;
    assert Weighted13(c, 2) == 30;
    assert Weighted13(c, 3) == 38;
    assert Weighted13(c, 4) == 44;
    assert Weighted13(c, 5) == 44;
    assert Weighted13(c, 6) == 65;
    assert Weighted13(c, 7) == 65;
    assert Weighted13(c, 8) == 77;
    assert Weighted13(c, 9) == 77;
    assert Weighted13(c, 10) == 101;
    assert Weighted13(c, 11) == 101;
    assert Weighted13(c, 12) == 128;
  }
}
