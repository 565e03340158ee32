/** The string operations of the Go library that the service's formats rest on. */
module Text {
  import opened Prelude

  predicate IsDigit(c: char) { '0' <= c <= '9' }

  function DigitChar(d: nat): char
    requires d < 10
  {
    '0' + d as char
  }

  /** The decimal rendering of a natural number, as %d prints it. */
  function Digits(n: nat): (s: string)
    ensures s != [] && forall i :: 0 <= i < |s| ==> IsDigit(s[i])
  {
    if n < 10 then [DigitChar(n)] else Digits(n / 10) + [DigitChar(n % 10)]
  }

  /** %d of an integer. */
  function Decimal(n: int): string {
    if n < 0 then "-" + Digits(-n) else Digits(n)
  }

  /** The number a string of digits denotes. */
  function Value(s: string): nat
    requires forall i :: 0 <= i < |s| ==> IsDigit(s[i])
  {
    if s == [] then 0
    else assert IsDigit(s[|s| - 1]); Value(s[..|s| - 1]) * 10 + (s[|s| - 1] - '0') as nat
  }

  lemma {:induction false} DigitsRoundTrip(n: nat)
    ensures Value(Digits(n)) == n
  {
    var s := Digits(n);
    if n >= 10 {
      DigitsRoundTrip(n / 10);
      assert s[..|s| - 1] == Digits(n / 10);
    } else {
      assert s[..|s| - 1] == [];
    }
  }

  lemma DecimalInjective(m: int, n: int)
    requires Decimal(m) == Decimal(n)
    ensures m == n
  {
    assert m < 0 <==> Decimal(m)[0] == '-';
    assert n < 0 <==> Decimal(n)[0] == '-';
    if m < 0 {
      assert Decimal(m)[1..] == Digits(-m) && Decimal(n)[1..] == Digits(-n);
      DigitsRoundTrip(-m);
      DigitsRoundTrip(-n);
    } else {
      DigitsRoundTrip(m);
      DigitsRoundTrip(n);
    }
  }

  /** strings.Split with a one-character separator. */
  function Split(s: string, sep: char): (parts: seq<string>)
    ensures parts != []
  {
    if s == [] then [""]
    else
      var rest := Split(s[1..], sep);
      if s[0] == sep then [""] + rest else [[s[0]] + rest[0]] + rest[1..]
  }

  function Join(parts: seq<string>, sep: char): string
    requires parts != []
  {
    if |parts| == 1 then parts[0] else parts[0] + [sep] + Join(parts[1..], sep)
  }

  /** The parts are what stands between the separators: none contains one, and joined they give the
      string back. */
  lemma {:induction false} SplitExactly(s: string, sep: char)
    ensures Join(Split(s, sep), sep) == s
    ensures forall i :: 0 <= i < |Split(s, sep)| ==> sep !in Split(s, sep)[i]
  {
    if s != [] {
      SplitExactly(s[1..], sep);
      var rest, parts := Split(s[1..], sep), Split(s, sep);
      assert [s[0]] + s[1..] == s;
      if s[0] == sep {
        assert parts[1..] == rest;
      } else {
        assert parts[1..] == rest[1..];
      }
    }
  }

  /** A leading piece without separators is the first part. */
  lemma {:induction false} SplitFirst(a: string, sep: char, b: string)
    requires sep !in a
    ensures Split(a + [sep] + b, sep) == [a] + Split(b, sep)
  {
    var s := a + [sep] + b;
    if a == [] {
      assert s[1..] == b;
    } else {
      assert s[1..] == a[1..] + [sep] + b;
      SplitFirst(a[1..], sep, b);
      assert [a[0]] + a[1..] == a;
    }
  }

  lemma {:induction false} SplitWhole(a: string, sep: char)
    requires sep !in a
    ensures Split(a, sep) == [a]
  {
    if a != [] {
      SplitWhole(a[1..], sep);
      assert [a[0]] + a[1..] == a;
    }
  }

  /** What follows the last separator is the last part, whatever stands before it. */
  lemma {:induction false} SplitLast(a: string, sep: char, b: string)
    requires sep !in b
    ensures var parts := Split(a + [sep] + b, sep);
            |parts| >= 2 && parts[|parts| - 1] == b
  {
    var s := a + [sep] + b;
    if a == [] {
      assert s[1..] == b;
      SplitWhole(b, sep);
    } else {
      assert s[1..] == a[1..] + [sep] + b;
      SplitLast(a[1..], sep, b);
    }
  }

  /** A separator that occurs in neither tail splits a string in one way only. */
  lemma TailsAgree(a: string, b: string, sep: char, x: string, y: string)
    requires a + [sep] + x == b + [sep] + y && sep !in x && sep !in y
    ensures a == b && x == y
  {
    SplitLast(a, sep, x);
    SplitLast(b, sep, y);
    assert (a + [sep] + x)[..|a|] == a && (b + [sep] + y)[..|b|] == b;
  }

  /** unicode.IsSpace. */
  predicate IsSpace(c: char) {
    || '\t' <= c <= '\r' || c == ' ' || c == '\U{85}' || c == '\U{A0}' || c == '\U{1680}'
    || '\U{2000}' <= c <= '\U{200A}' || c == '\U{2028}' || c == '\U{2029}' || c == '\U{202F}'
    || c == '\U{205F}' || c == '\U{3000}'
  }

  /** strings.TrimSpace. */
  function Trim(s: string): string {
    if s == [] then s
    else if IsSpace(s[0]) then Trim(s[1..])
    else if IsSpace(s[|s| - 1]) then Trim(s[..|s| - 1])
    else s
  }

  /** Trimming takes the blanks off both ends, and nothing else. */
  lemma {:induction false} TrimExactly(s: string) returns (a: nat, b: nat)
    ensures a <= b <= |s| && Trim(s) == s[a..b]
    ensures (forall i :: 0 <= i < a ==> IsSpace(s[i])) && (forall i :: b <= i < |s| ==> IsSpace(s[i]))
    ensures a < b ==> !IsSpace(s[a]) && !IsSpace(s[b - 1])
    decreases |s|
  {
    if s == [] {
      a, b := 0, 0;
    } else if IsSpace(s[0]) {
      var t := s[1..];
      var c, d := TrimExactly(t);
      assert t[c..d] == s[c + 1..d + 1];
      assert forall i :: 1 <= i < |s| ==> s[i] == t[i - 1];
      a, b := c + 1, d + 1;
    } else if IsSpace(s[|s| - 1]) {
      var t := s[..|s| - 1];
      a, b := TrimExactly(t);
      assert t[a..b] == s[a..b];
    } else {
      a, b := 0, |s|;
    }
  }

  /** Trimming a blank and then a word without blanks at its ends leaves the word. */
  lemma TrimBlank(word: string)
    requires word != [] && !IsSpace(word[0]) && !IsSpace(word[|word| - 1])
    ensures Trim(" " + word) == word
  {
    assert (" " + word)[1..] == word;
  }
}
