/**
 What trimming, lower case, searching and parsing come to, said about the characters of the text
 itself.
 */
module Spelling {
  import opened Sequences
  import opened Text

  // ---------------------------------------------------------------- trimming

  /** No whitespace at either end. */
  predicate IsTight(s: string) {
    s != "" ==> !IsWhitespace(s[0]) && !IsWhitespace(Last(s))
  }

  /** The part from a to b is what is left of the text once whitespace is taken off both ends. */
  predicate IsCore(s: string, a: nat, b: nat) {
    a <= b <= |s| && IsBlank(s[..a]) && IsBlank(s[b..]) && IsTight(s[a..b])
  }

  lemma {:induction false} TrimStartTakesFront(s: string) returns (a: nat)
    ensures a <= |s| && IsBlank(s[..a]) && TrimStart(s) == s[a..] && (a < |s| ==> !IsWhitespace(s[a]))
  {
    if s != "" && IsWhitespace(s[0]) {
      var rest := TrimStartTakesFront(s[1..]);
      a := rest + 1;
      assert s[..a] == [s[0]] + s[1..][..rest];
      assert s[1..][rest..] == s[a..];
    } else {
      a := 0;
      assert s[0..] == s;
    }
  }

  lemma {:induction false} TrimEndTakesBack(s: string) returns (b: nat)
    ensures b <= |s| && IsBlank(s[b..]) && TrimEnd(s) == s[..b] && (b > 0 ==> !IsWhitespace(s[b - 1]))
  {
    if s != "" && IsWhitespace(s[|s| - 1]) {
      b := TrimEndTakesBack(s[..|s| - 1]);
      assert s[b..] == s[..|s| - 1][b..] + [s[|s| - 1]];
      assert s[..|s| - 1][..b] == s[..b];
    } else {
      b := |s|;
      assert s[..b] == s;
    }
  }

  /** Trimming leaves the part between the whitespace at the ends. */
  lemma TrimIsCore(s: string) returns (a: nat, b: nat)
    ensures IsCore(s, a, b) && Trim(s) == s[a..b]
  {
    a := TrimStartTakesFront(s);
    var n := TrimEndTakesBack(s[a..]);
    b := a + n;
    assert s[a..][n..] == s[b..] && s[a..][..n] == s[a..b];
  }

  /** What is not whitespace lies in the core. */
  lemma OutsideIsWhite(s: string, a: nat, b: nat, i: nat)
    requires IsCore(s, a, b) && i < |s|
    ensures IsWhitespace(s[i]) || a <= i < b
  {
    assert i < a ==> s[..a][i] == s[i];
    assert b <= i ==> s[b..][i - b] == s[i];
  }

  lemma CoreIsWithin(s: string, a: nat, b: nat, c: nat, d: nat)
    requires IsCore(s, a, b) && IsCore(s, c, d) && a < b
    ensures c <= a && b <= d
  {
    var core := s[a..b];
    assert core[0] == s[a] && Last(core) == s[b - 1];
    OutsideIsWhite(s, c, d, a);
    OutsideIsWhite(s, c, d, b - 1);
  }

  /** What is left is the same wherever it is cut out. */
  lemma CoreIsTrimmed(s: string, a: nat, b: nat)
    requires IsCore(s, a, b)
    ensures Trim(s) == s[a..b]
  {
    var c, d := TrimIsCore(s);
    if a < b {
      CoreIsWithin(s, a, b, c, d);
    }
    if c < d {
      CoreIsWithin(s, c, d, a, b);
    }
  }

  /** A text is blank exactly when nothing is left of it. */
  lemma BlankIffTrimmedAway(s: string)
    ensures IsBlank(s) <==> Trim(s) == ""
  {
    var a, b := TrimIsCore(s);
    if a == b {
      assert s == s[..a] + s[b..];
      forall i | 0 <= i < |s| ensures IsWhitespace(s[i]) {
        OutsideIsWhite(s, a, b, i);
      }
    } else {
      assert s[a..b][0] == s[a];
    }
  }

  // ---------------------------------------------------------------- case

  /** The characters agree, not telling a capital from its small letter. */
  predicate SameLetter(c: char, d: char) {
    || c == d
    || ('A' <= c <= 'Z' && d as int == c as int + 32)
    || ('A' <= d <= 'Z' && c as int == d as int + 32)
  }

  predicate SameLetters(s: string, t: string) {
    |s| == |t| && forall i :: 0 <= i < |s| ==> SameLetter(s[i], t[i])
  }

  predicate IsSmall(s: string) {
    forall i :: 0 <= i < |s| ==> !('A' <= s[i] <= 'Z')
  }

  lemma {:induction false} LowerIsPlacewise(s: string)
    ensures |AsciiLower(s)| == |s|
    ensures forall i :: 0 <= i < |s| ==> AsciiLower(s)[i] == LowerChar(s[i])
  {
    if s != "" {
      LowerIsPlacewise(s[1..]);
    }
  }

  /** A text becomes the given small word in lower case exactly when it has the same letters. */
  lemma LowerIsWord(s: string, word: string)
    requires IsSmall(word)
    ensures AsciiLower(s) == word <==> SameLetters(s, word)
  {
    LowerIsPlacewise(s);
    if SameLetters(s, word) {
      forall i | 0 <= i < |s| ensures AsciiLower(s)[i] == word[i] {
        assert SameLetter(s[i], word[i]);
      }
    }
  }

  lemma LowerIsSmall(s: string)
    ensures IsSmall(AsciiLower(s)) && SameLetters(s, AsciiLower(s))
  {
    LowerIsPlacewise(s);
  }

  /** Whitespace around it and the case of its letters aside, the text is the word. */
  ghost predicate Spells(text: string, word: string) {
    exists a: nat, b: nat :: IsCore(text, a, b) && SameLetters(text[a..b], word)
  }

  lemma SpelledIff(text: string, word: string)
    requires IsSmall(word)
    ensures AsciiLower(Trim(text)) == word <==> Spells(text, word)
  {
    var a, b := TrimIsCore(text);
    LowerIsWord(Trim(text), word);
    if Spells(text, word) {
      var c: nat, d: nat :| IsCore(text, c, d) && SameLetters(text[c..d], word);
      CoreIsTrimmed(text, c, d);
    }
  }

  // ---------------------------------------------------------------- searching

  predicate OccursAt(text: string, word: string, i: nat) {
    i + |word| <= |text| && SameLetters(text[i..i + |word|], word)
  }

  /** The word occurs somewhere in the text, in capitals or small letters. */
  ghost predicate Mentions(text: string, word: string) {
    exists i: nat :: OccursAt(text, word, i)
  }

  lemma {:induction false} ContainsAt(s: string, part: string) returns (i: nat)
    requires Contains(s, part)
    ensures i + |part| <= |s| && s[i..i + |part|] == part
  {
    if part <= s {
      i := 0;
    } else {
      var j := ContainsAt(s[1..], part);
      i := j + 1;
      assert s[1..][j..j + |part|] == s[i..i + |part|];
    }
  }

  lemma {:induction false} OccurrenceIsContained(s: string, part: string, i: nat)
    requires i + |part| <= |s| && s[i..i + |part|] == part
    ensures Contains(s, part)
  {
    if i == 0 {
      assert part <= s;
    } else {
      assert s[1..][i - 1..i - 1 + |part|] == s[i..i + |part|];
      OccurrenceIsContained(s[1..], part, i - 1);
    }
  }

  lemma OccursInLower(text: string, word: string, i: nat)
    requires IsSmall(word) && i + |word| <= |text|
    ensures |AsciiLower(text)| == |text|
    ensures OccursAt(text, word, i) <==> AsciiLower(text)[i..i + |word|] == word
  {
    var slice := text[i..i + |word|];
    LowerIsPlacewise(text);
    LowerIsPlacewise(slice);
    assert AsciiLower(text)[i..i + |word|] == AsciiLower(slice);
    LowerIsWord(slice, word);
  }

  lemma MentionedIff(text: string, word: string)
    requires IsSmall(word)
    ensures Contains(AsciiLower(text), word) <==> Mentions(text, word)
  {
    var lower := AsciiLower(text);
    LowerIsPlacewise(text);
    if Contains(lower, word) {
      var i := ContainsAt(lower, word);
      OccursInLower(text, word, i);
    }
    if Mentions(text, word) {
      var i: nat :| OccursAt(text, word, i);
      OccursInLower(text, word, i);
      OccurrenceIsContained(lower, word, i);
    }
  }

  // ---------------------------------------------------------------- numbers

  function Zeros(k: nat): string {
    if k == 0 then "" else Zeros(k - 1) + "0"
  }

  /** The text is the number in decimal, with any number of zeros and at most one plus in front. */
  ghost predicate Denotes(text: string, n: nat) {
    exists k: nat :: text == Zeros(k) + PrintNat(n) || text == "+" + (Zeros(k) + PrintNat(n))
  }

  lemma {:induction false} DigitsDenote(d: string) returns (k: nat)
    requires d != "" && AllDigits(d)
    ensures d == Zeros(k) + PrintNat(DigitsValue(d))
  {
    var front, last := d[..|d| - 1], Last(d);
    var digit := last as int - '0' as int;
    assert d == front + [last] && IsDigit(last);
    assert [last] == [PrintDigit(digit)];
    if front == "" {
      k := 0;
      assert DigitsValue(d) == digit;
    } else {
      var zeros := DigitsDenote(front);
      var high := DigitsValue(front);
      assert DigitsValue(d) == 10 * high + digit;
      PrintLast(high, digit);
      if high == 0 {
        k := zeros + 1;
      } else {
        k := zeros;
        assert Zeros(k) + (PrintNat(high) + [last]) == (Zeros(k) + PrintNat(high)) + [last];
      }
    }
  }

  lemma PrintLast(high: nat, digit: nat)
    requires digit < 10
    ensures PrintNat(0) == "0"
    ensures PrintNat(10 * high + digit) == (if high == 0 then "" else PrintNat(high)) + [PrintDigit(digit)]
  {
  }

  lemma {:induction false} ZerosValue(k: nat, n: nat)
    ensures var d := Zeros(k) + PrintNat(n); AllDigits(d) && DigitsValue(d) == n
    decreases k, n
  {
    var d := Zeros(k) + PrintNat(n);
    DigitsOfNat(n);
    ZerosAreDigits(k);
    if n >= 10 {
      ZerosValue(k, n / 10);
      assert d[..|d| - 1] == Zeros(k) + PrintNat(n / 10);
    } else {
      assert d[..|d| - 1] == Zeros(k);
    }
  }

  lemma {:induction false} ZerosAreDigits(k: nat)
    ensures AllDigits(Zeros(k)) && DigitsValue(Zeros(k)) == 0
  {
    if k > 0 {
      ZerosAreDigits(k - 1);
      assert Zeros(k)[..|Zeros(k)| - 1] == Zeros(k - 1);
    }
  }

  lemma SignedDigits(d: string)
    requires d != "" && AllDigits(d)
    ensures forall max: nat :: ParseUnsigned(d, max) == if DigitsValue(d) <= max then Some(DigitsValue(d)) else None
    ensures forall max: nat :: ParseUnsigned("+" + d, max) == ParseUnsigned(d, max)
  {
    assert IsDigit(d[0]);
    assert ("+" + d)[1..] == d;
  }

  /** A text parses to a number exactly when it denotes it and the number is in range. */
  lemma ParsesIff(text: string, max: nat, n: nat)
    ensures ParseUnsigned(text, max) == Some(n) <==> Denotes(text, n) && n <= max
  {
    if ParseUnsigned(text, max) == Some(n) {
      var digits := if |text| > 1 && text[0] == '+' then text[1..] else text;
      var k := DigitsDenote(digits);
      assert text == digits || text == "+" + digits;
    }
    if Denotes(text, n) && n <= max {
      var k: nat :| text == Zeros(k) + PrintNat(n) || text == "+" + (Zeros(k) + PrintNat(n));
      ZerosValue(k, n);
      SignedDigits(Zeros(k) + PrintNat(n));
    }
  }

  /** And it parses to nothing exactly when it denotes no number in range. */
  lemma ParsesToNothingIff(text: string, max: nat)
    ensures ParseUnsigned(text, max) == None <==> forall n: nat :: Denotes(text, n) ==> n > max
  {
    forall n: nat ensures ParseUnsigned(text, max) == Some(n) <==> Denotes(text, n) && n <= max {
      ParsesIff(text, max, n);
    }
    if ParseUnsigned(text, max).Some? {
      assert Denotes(text, ParseUnsigned(text, max).value);
    }
  }
}
