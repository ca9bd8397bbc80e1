/** Text operations of the Rust standard library that the modelled code relies on. */
module Text {
  import opened Sequences
  import opened Sorting

  /** The Unicode White_Space property. */
  predicate IsWhitespace(c: char) {
    var n := c as int;
    || 0x09 <= n <= 0x0D || n == 0x20 || n == 0x85 || n == 0xA0 || n == 0x1680
    || 0x2000 <= n <= 0x200A || n == 0x2028 || n == 0x2029 || n == 0x202F || n == 0x205F || n == 0x3000
  }

  /** The text is empty once trimmed. */
  predicate IsBlank(s: string) {
    forall i :: 0 <= i < |s| ==> IsWhitespace(s[i])
  }

  function TrimStart(s: string): string {
    if s != "" && IsWhitespace(s[0]) then TrimStart(s[1..]) else s
  }

  function TrimEnd(s: string): string {
    if s != "" && IsWhitespace(s[|s| - 1]) then TrimEnd(s[..|s| - 1]) else s
  }

  function Trim(s: string): string {
    TrimEnd(TrimStart(s))
  }

  function LowerChar(c: char): char {
    if 'A' <= c <= 'Z' then (c as int + 32) as char else c
  }

  function AsciiLower(s: string): string {
    if s == "" then "" else [LowerChar(s[0])] + AsciiLower(s[1..])
  }

  predicate Contains(s: string, part: string) {
    part <= s || (s != "" && Contains(s[1..], part))
  }

  // ---------------------------------------------------------------- ordering

  /** Lexicographic order by code point, which is also the order of the UTF-8 bytes. */
  predicate StrLeq(a: string, b: string) {
    if a == [] then true
    else if b == [] then false
    else if a[0] == b[0] then StrLeq(a[1..], b[1..])
    else a[0] < b[0]
  }

  lemma {:induction false} StrLeqTotal(a: string, b: string)
    ensures StrLeq(a, b) || StrLeq(b, a)
    ensures StrLeq(a, b) && StrLeq(b, a) ==> a == b
  {
    if a != [] && b != [] && a[0] == b[0] {
      StrLeqTotal(a[1..], b[1..]);
      assert a == [a[0]] + a[1..] && b == [b[0]] + b[1..];
    }
  }

  lemma {:induction false} StrLeqTransitive(a: string, b: string, c: string)
    requires StrLeq(a, b) && StrLeq(b, c)
    ensures StrLeq(a, c)
  {
    if a != [] && a[0] == b[0] && b[0] == c[0] {
      StrLeqTransitive(a[1..], b[1..], c[1..]);
    }
  }

  /** The texts agree up to place i, where the first one has the smaller character. */
  predicate SmallerAt(a: string, b: string, i: nat) {
    i < |a| && i < |b| && a[..i] == b[..i] && a[i] < b[i]
  }

  lemma FirstsAgree(a: string, b: string, i: nat)
    ensures SmallerAt(a, b, i) && i > 0 ==> a[0] == b[0]
  {
    if SmallerAt(a, b, i) && i > 0 {
      assert a[..i][0] == b[..i][0];
    }
  }

  /** Either the first text begins the second, or it is smaller where they first differ. */
  lemma {:induction false} StrLeqIsLexicographic(a: string, b: string)
    ensures StrLeq(a, b) <==> a <= b || exists i: nat :: SmallerAt(a, b, i)
  {
    if a != "" && b != "" {
      StrLeqIsLexicographic(a[1..], b[1..]);
      if a[0] == b[0] {
        forall i: nat ensures SmallerAt(a, b, i + 1) <==> SmallerAt(a[1..], b[1..], i) {
          if i < |a| - 1 && i < |b| - 1 {
            assert a[..i + 1] == [a[0]] + a[1..][..i] && b[..i + 1] == [b[0]] + b[1..][..i];
          }
        }
        if i: nat :| SmallerAt(a, b, i) {
          assert i > 0;
          assert SmallerAt(a[1..], b[1..], i - 1);
        }
        if i: nat :| SmallerAt(a[1..], b[1..], i) {
          assert SmallerAt(a, b, i + 1);
        }
      } else {
        assert a[0] < b[0] ==> SmallerAt(a, b, 0);
        forall i: nat ensures SmallerAt(a, b, i) ==> i == 0 {
          FirstsAgree(a, b, i);
        }
      }
    }
  }

  lemma StrLeqIsOrder()
    ensures TotalPreorder(StrLeq) && Antisymmetric(StrLeq)
  {
    forall a, b ensures (StrLeq(a, b) || StrLeq(b, a)) && (StrLeq(a, b) && StrLeq(b, a) ==> a == b) {
      StrLeqTotal(a, b);
    }
    forall a, b, c | StrLeq(a, b) && StrLeq(b, c) ensures StrLeq(a, c) {
      StrLeqTransitive(a, b, c);
    }
  }

  // ---------------------------------------------------------------- joining and splitting

  predicate Free(s: string, sep: char) {
    sep !in s
  }

  ghost predicate AllFree(parts: seq<string>, sep: char) {
    forall i :: 0 <= i < |parts| ==> Free(parts[i], sep)
  }

  function Join(parts: seq<string>, sep: char): string {
    if parts == [] then ""
    else if |parts| == 1 then parts[0]
    else parts[0] + [sep] + Join(parts[1..], sep)
  }

  /** The pieces between separators; never empty. */
  function Split(s: string, sep: char): (r: seq<string>)
    ensures r != []
  {
    if s == "" then [""]
    else
      var rest := Split(s[1..], sep);
      if s[0] == sep then [""] + rest else [[s[0]] + rest[0]] + rest[1..]
  }

  lemma {:induction false} SplitFree(p: string, sep: char)
    requires Free(p, sep)
    ensures Split(p, sep) == [p]
  {
    if p != "" {
      SplitFree(p[1..], sep);
      assert [p[0]] + p[1..] == p;
    }
  }

  lemma {:induction false} SplitAfter(p: string, sep: char, s: string)
    requires Free(p, sep)
    ensures Split(p + [sep] + s, sep) == [p] + Split(s, sep)
  {
    var t := p + [sep] + s;
    if p == "" {
      assert t[1..] == s;
    } else {
      SplitAfter(p[1..], sep, s);
      assert t[1..] == p[1..] + [sep] + s;
      assert [p[0]] + p[1..] == p;
    }
  }

  lemma {:induction false} SplitJoin(parts: seq<string>, sep: char)
    requires parts != [] && AllFree(parts, sep)
    ensures Split(Join(parts, sep), sep) == parts
  {
    if |parts| == 1 {
      SplitFree(parts[0], sep);
    } else {
      SplitJoin(parts[1..], sep);
      SplitAfter(parts[0], sep, Join(parts[1..], sep));
      assert [parts[0]] + parts[1..] == parts;
    }
  }

  /** Lists of separator-free parts are told apart by their joined text. */
  lemma JoinInjective(a: seq<string>, b: seq<string>, sep: char)
    requires a != [] && b != [] && AllFree(a, sep) && AllFree(b, sep)
    requires Join(a, sep) == Join(b, sep)
    ensures a == b
  {
    SplitJoin(a, sep);
    SplitJoin(b, sep);
  }

  lemma {:induction false} JoinAppend(a: seq<string>, b: seq<string>, sep: char)
    requires a != [] && b != []
    ensures Join(a + b, sep) == Join(a, sep) + [sep] + Join(b, sep)
  {
    if |a| == 1 {
      assert (a + b)[1..] == b;
    } else {
      assert (a + b)[1..] == a[1..] + b;
      JoinAppend(a[1..], b, sep);
    }
  }

  lemma {:induction false} SplitPrefixed(p: string, s: string, sep: char)
    requires Free(p, sep)
    ensures Split(p + s, sep) == [p + Split(s, sep)[0]] + Split(s, sep)[1..]
  {
    var pieces := Split(s, sep);
    if p == "" {
      assert p + s == s && "" + pieces[0] == pieces[0];
    } else {
      SplitPrefixed(p[1..], s, sep);
      SplitOneMore(p, s, sep);
      assert [p[0]] + (p[1..] + pieces[0]) == p + pieces[0];
    }
  }

  lemma SplitOneMore(p: string, s: string, sep: char)
    requires p != "" && p[0] != sep
    ensures var rest := Split(p[1..] + s, sep); Split(p + s, sep) == [[p[0]] + rest[0]] + rest[1..]
  {
    assert (p + s)[1..] == p[1..] + s && (p + s)[0] == p[0];
  }

  /** A separator in front makes for more pieces. */
  lemma {:induction false} SplitCounts(p: string, s: string, sep: char)
    ensures |Split(p + s, sep)| == |Split(p, sep)| + |Split(s, sep)| - 1
    ensures Free(p, sep) <==> |Split(p, sep)| == 1
  {
    if p == "" {
      assert p + s == s;
    } else {
      SplitCounts(p[1..], s, sep);
      assert (p + s)[1..] == p[1..] + s;
      assert p == [p[0]] + p[1..];
    }
  }

  lemma {:induction false} JoinFree(parts: seq<string>, sep: char, c: char)
    requires AllFree(parts, c) && c != sep
    ensures Free(Join(parts, sep), c)
  {
    if |parts| > 1 {
      JoinFree(parts[1..], sep, c);
      assert Free(parts[0], c);
    }
  }

  // ---------------------------------------------------------------- lines

  function DropCarriageReturn(line: string): string {
    if line != "" && line[|line| - 1] == '\r' then line[..|line| - 1] else line
  }

  function DropCarriageReturns(parts: seq<string>): seq<string> {
    if parts == [] then []
    else DropCarriageReturns(parts[..|parts| - 1]) + [DropCarriageReturn(parts[|parts| - 1])]
  }

  /** The lines of a text; a final unterminated line counts, an empty one does not. */
  function Lines(content: string): seq<string> {
    var parts := Split(content, '\n');
    var terminated := DropCarriageReturns(parts[..|parts| - 1]);
    if parts[|parts| - 1] == "" then terminated else terminated + [parts[|parts| - 1]]
  }

  /** Every line of the text is terminated. */
  predicate Terminated(content: string) {
    content == "" || content[|content| - 1] == '\n'
  }

  /** The last piece of the text: what a line appended next is written behind. */
  function Remainder(content: string): string {
    var parts := Split(content, '\n');
    parts[|parts| - 1]
  }

  /** The lines of the text that are terminated. */
  function FullLines(content: string): seq<string> {
    var parts := Split(content, '\n');
    DropCarriageReturns(parts[..|parts| - 1])
  }

  lemma LinesAreFullPlusRemainder(content: string)
    ensures Lines(content) == FullLines(content) + if Remainder(content) == "" then [] else [Remainder(content)]
  {
  }

  lemma {:induction false} NothingRemainsIffTerminated(content: string)
    ensures Terminated(content) <==> Remainder(content) == ""
  {
    if content != "" {
      NothingRemainsIffTerminated(content[1..]);
    }
  }

  lemma {:induction false} SplitOfAppended(content: string, line: string)
    requires Free(line, '\n')
    ensures var parts := Split(content, '\n');
            Split(content + (line + "\n"), '\n') == parts[..|parts| - 1] + [parts[|parts| - 1] + line, ""]
  {
    var tail := line + "\n";
    if content == "" {
      SplitAfter(line, '\n', "");
      assert content + tail == line + "\n" + "";
      assert "" + line == line;
    } else {
      SplitOfAppended(content[1..], line);
      SplitStep(content, tail);
      Complete(Split(content[1..], '\n'), [content[0]], line);
    }
  }

  /** Completing the last part commutes with what is done to the first one. */
  lemma Complete(parts: seq<string>, x: string, line: string)
    requires parts != []
    ensures var rest := parts[..|parts| - 1] + [parts[|parts| - 1] + line, ""];
            && (var more := [x + parts[0]] + parts[1..];
                [x + rest[0]] + rest[1..] == more[..|more| - 1] + [more[|more| - 1] + line, ""])
            && (var more := [""] + parts; [""] + rest == more[..|more| - 1] + [more[|more| - 1] + line, ""])
  {
    assert x + (parts[0] + line) == (x + parts[0]) + line;
  }

  lemma SplitStep(content: string, tail: string)
    requires content != ""
    ensures var rest := Split(content[1..] + tail, '\n');
            Split(content + tail, '\n') ==
            if content[0] == '\n' then [""] + rest else [[content[0]] + rest[0]] + rest[1..]
  {
    assert (content + tail)[1..] == content[1..] + tail;
  }

  /** Appending completes the unterminated remainder, if there is one, into a single line. */
  lemma AppendLine(content: string, line: string)
    requires Free(line, '\n') && Free(line, '\r') && line != ""
    ensures Terminated(content + (line + "\n"))
    ensures Lines(content + (line + "\n")) == FullLines(content) + [Remainder(content) + line]
    ensures Terminated(content) ==> Lines(content + (line + "\n")) == Lines(content) + [line]
  {
    SplitOfAppended(content, line);
    NothingRemainsIffTerminated(content);
    var parts := Split(content, '\n');
    var front := parts[..|parts| - 1];
    var more := Split(content + (line + "\n"), '\n');
    assert more[..|more| - 1] == front + [Remainder(content) + line];
    DropSnoc(front, Remainder(content) + line);
    assert "" + line == line;
  }

  lemma DropSnoc(parts: seq<string>, line: string)
    requires line != "" && line[|line| - 1] != '\r'
    ensures DropCarriageReturns(parts + [line]) == DropCarriageReturns(parts) + [line]
  {
    assert (parts + [line])[..|parts|] == parts;
  }

  /** A carriage return in front of the line break is not part of the line. */
  lemma CarriageReturnIsDropped(content: string, line: string)
    requires Terminated(content) && Free(line, '\n') && (line == "" || line[|line| - 1] != '\r')
    ensures Lines(content + (line + "\r" + "\n")) == Lines(content) + [line]
    ensures Lines(content + (line + "\n")) == Lines(content) + [line]
  {
    NothingRemainsIffTerminated(content);
    LineAfterTerminated(content, line);
    LineAfterTerminated(content, line + "\r");
    assert (line + "\r")[..|line|] == line;
  }

  lemma LineAfterTerminated(content: string, line: string)
    requires Remainder(content) == "" && Free(line, '\n')
    ensures Lines(content + (line + "\n")) == Lines(content) + [DropCarriageReturn(line)]
  {
    SplitOfAppended(content, line);
    var parts := Split(content, '\n');
    var front := parts[..|parts| - 1];
    var more := Split(content + (line + "\n"), '\n');
    assert "" + line == line;
    assert more[..|more| - 1] == front + [line];
    assert (front + [line])[..|front|] == front;
  }

  // ---------------------------------------------------------------- decimal numbers

  function PrintDigit(d: nat): char
    requires d < 10
  {
    '0' + d as char
  }

  function PrintNat(n: nat): (r: string)
    ensures r != []
  {
    if n < 10 then [PrintDigit(n)] else PrintNat(n / 10) + [PrintDigit(n % 10)]
  }

  predicate IsDigit(c: char) {
    '0' <= c <= '9'
  }

  predicate AllDigits(s: string) {
    forall i :: 0 <= i < |s| ==> IsDigit(s[i])
  }

  function DigitsValue(s: string): nat
    requires AllDigits(s)
  {
    if s == "" then 0 else 10 * DigitsValue(s[..|s| - 1]) + (s[|s| - 1] as int - '0' as int)
  }

  /** Parses an unsigned number the way Rust does: an optional plus sign, digits, and a range. */
  function ParseUnsigned(s: string, max: nat): Option<nat> {
    var digits := if |s| > 1 && s[0] == '+' then s[1..] else s;
    if digits != "" && AllDigits(digits) && DigitsValue(digits) <= max then Some(DigitsValue(digits)) else None
  }

  lemma {:induction false} DigitsOfNat(n: nat)
    ensures AllDigits(PrintNat(n)) && DigitsValue(PrintNat(n)) == n
  {
    if n >= 10 {
      DigitsOfNat(n / 10);
      assert PrintNat(n)[..|PrintNat(n)| - 1] == PrintNat(n / 10);
    }
  }

  /** A printed number parses back exactly when it is in range. */
  lemma ParsePrinted(n: nat, max: nat)
    ensures ParseUnsigned(PrintNat(n), max) == if n <= max then Some(n) else None
    ensures AllDigits(PrintNat(n))
  {
    DigitsOfNat(n);
    assert IsDigit(PrintNat(n)[0]);
  }

  // ---------------------------------------------------------------- fresh texts

  lemma LongerThanAll(texts: set<string>) returns (n: nat)
    ensures forall t :: t in texts ==> |t| < n
    decreases |texts|
  {
    if texts == {} {
      n := 0;
    } else {
      var t :| t in texts;
      var m := LongerThanAll(texts - {t});
      n := if |t| < m then m else |t| + 1;
    }
  }

  lemma FreshText(texts: set<string>) returns (t: string)
    ensures t !in texts
  {
    var n := LongerThanAll(texts);
    t := seq(n, _ => 'x');
  }
}
