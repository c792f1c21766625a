/**
  `addLineCount`: the shader source listing printed when a shader fails to compile, with every
  line of the source prefixed by its 1-based number, formatted as `(%3d) : `.
*/
module ShaderSource {

  /** The decimal digits of `n`, most significant first, as `%d` prints them. */
  function Decimal(n: nat): (s: string)
    ensures 0 < |s| && '\n' !in s
    decreases n
  {
    if n < 10 then [DigitChar(n)] else Decimal(n / 10) + [DigitChar(n % 10)]
  }

  function DigitChar(d: nat): (c: char)
    requires d < 10
    ensures '0' <= c <= '9'
    ensures c as int - '0' as int == d
  {
    "0123456789"[d]
  }

  /** `%3d`: the decimal digits, padded with spaces on the left to at least three characters. */
  function Format3(n: nat): (s: string)
    ensures '\n' !in s
  {
    var digits := Decimal(n);
    if |digits| == 1 then "  " + digits
    else if |digits| == 2 then " " + digits
    else digits
  }

  /** `%3d` pads to three characters and never truncates: the digits follow the padding spaces. */
  lemma Format3Shape(n: nat)
    ensures |Format3(n)| == if |Decimal(n)| < 3 then 3 else |Decimal(n)|
    ensures Format3(n)[|Format3(n)| - |Decimal(n)|..] == Decimal(n)
    ensures forall i :: 0 <= i < |Format3(n)| - |Decimal(n)| ==> Format3(n)[i] == ' '
  {
  }

  /** The prefix of line `k`: `(%3d) : `. */
  function LinePrefix(k: nat): (s: string)
    ensures '\n' !in s
  {
    "(" + Format3(k) + ") : "
  }

  /** The prefix is the number, padded to at least three characters, in parentheses, then " : ". */
  lemma LinePrefixShape(k: nat)
    ensures |LinePrefix(k)| >= 8 && LinePrefix(k)[..1] == "(" && LinePrefix(k)[|LinePrefix(k)| - 4..] == ") : "
    ensures LinePrefix(k)[1..|LinePrefix(k)| - 4] == Format3(k)
  {
  }

  /** A one-digit line number is padded with two spaces. */
  lemma LinePrefixOneDigit()
    ensures LinePrefix(1) == "(  1) : "
  {
    assert Decimal(1) == "1";
    assert Format3(1) == "  1";
  }

  /** A two-digit line number is padded with one space. */
  lemma LinePrefixTwoDigits()
    ensures LinePrefix(42) == "( 42) : "
  {
    assert Decimal(4) == "4" && Decimal(42) == "42";
    assert Format3(42) == " 42";
  }

  /** A line number wider than three digits is printed in full. */
  lemma LinePrefixWide()
    ensures LinePrefix(1234) == "(1234) : "
  {
    assert Decimal(12) == "12";
    assert Decimal(123) == "123";
    assert Decimal(1234) == "1234";
    assert Format3(1234) == "1234";
  }

  /** The position of the first newline of `s`, or `|s|` when it has none. */
  function NewlineIndex(s: string): (i: nat)
    ensures i <= |s|
  {
    if s == [] then 0
    else if s[0] == '\n' then 0
    else 1 + NewlineIndex(s[1..])
  }

  /** `NewlineIndex(s)` is a newline (unless it is the end) and no character before it is one. */
  lemma {:induction false} NewlineIndexSpec(s: string)
    ensures var i := NewlineIndex(s); (i < |s| ==> s[i] == '\n') && forall j :: 0 <= j < i ==> s[j] != '\n'
  {
    if s != [] && s[0] != '\n' {
      NewlineIndexSpec(s[1..]);
      var i := NewlineIndex(s[1..]);
      assert forall j :: 1 <= j < i + 1 ==> s[j] == s[1..][j - 1];
    }
  }

  /** The first newline is at `i` when there is one at `i` (or `i` is the end) and none before. */
  lemma NewlineIndexIs(s: string, i: nat)
    requires i <= |s| && (i < |s| ==> s[i] == '\n')
    requires forall j :: 0 <= j < i ==> s[j] != '\n'
    ensures NewlineIndex(s) == i
  {
    NewlineIndexSpec(s);
  }

  /** The lines of `s`: the pieces between its newlines (one more piece than there are newlines). */
  function SplitLines(s: string): (lines: seq<string>)
    ensures 0 < |lines|
    decreases |s|
  {
    var i := NewlineIndex(s);
    if i == |s| then [s] else [s[..i]] + SplitLines(s[i + 1..])
  }

  /** The lines of `lines` joined with newlines in between. */
  function JoinLines(lines: seq<string>): string
    requires 0 < |lines|
  {
    if |lines| == 1 then lines[0] else lines[0] + "\n" + JoinLines(lines[1..])
  }

  /** The listing of `lines`, each behind `prefix` of its number, the first one numbered `k`. */
  function NumberLines(lines: seq<string>, k: nat, prefix: nat -> string): string
    requires 0 < |lines|
  {
    if |lines| == 1 then prefix(k) + lines[0]
    else prefix(k) + lines[0] + "\n" + NumberLines(lines[1..], k + 1, prefix)
  }

  /** The lines of `lines`, each behind `prefix` of its number, the first one numbered `k`. */
  function Prefixed(lines: seq<string>, k: nat, prefix: nat -> string): (r: seq<string>)
    ensures |r| == |lines|
    ensures forall i :: 0 <= i < |lines| ==> r[i] == prefix(k + i) + lines[i]
    decreases |lines|
  {
    if lines == [] then []
    else
      var rest := Prefixed(lines[1..], k + 1, prefix);
      assert forall i :: 1 <= i < |lines| ==> lines[1..][i - 1] == lines[i] && k + 1 + (i - 1) == k + i;
      [prefix(k) + lines[0]] + rest
  }

  /** Splitting `a + "\n" + b` where `a` has no newline gives `a` followed by the lines of `b`. */
  lemma SplitAtFirstNewline(a: string, b: string)
    requires '\n' !in a
    ensures SplitLines(a + "\n" + b) == [a] + SplitLines(b)
  {
    var s := a + "\n" + b;
    assert forall j :: 0 <= j < |a| ==> s[j] == a[j];
    assert s[|a|] == '\n';
    NewlineIndexIs(s, |a|);
    assert s[..|a|] == a && s[|a| + 1..] == b;
  }

  lemma SplitNoNewline(a: string)
    requires '\n' !in a
    ensures SplitLines(a) == [a]
  {
    NewlineIndexIs(a, |a|);
  }

  /** No line of a split contains a newline. */
  lemma {:induction false} SplitLinesHaveNoNewline(s: string)
    ensures forall i :: 0 <= i < |SplitLines(s)| ==> '\n' !in SplitLines(s)[i]
    decreases |s|
  {
    var i := NewlineIndex(s);
    NewlineIndexSpec(s);
    if i < |s| {
      SplitLinesHaveNoNewline(s[i + 1..]);
      assert forall c :: c in s[..i] ==> c != '\n';
    } else {
      assert forall c :: c in s ==> c != '\n';
    }
  }

  /** Splitting into lines and joining them again gives back the text. */
  lemma {:induction false} JoinSplitLines(s: string)
    ensures JoinLines(SplitLines(s)) == s
    decreases |s|
  {
    var i := NewlineIndex(s);
    if i < |s| {
      NewlineIndexSpec(s);
      JoinSplitLines(s[i + 1..]);
      assert SplitLines(s) == [s[..i]] + SplitLines(s[i + 1..]);
      assert s == s[..i] + "\n" + s[i + 1..];
    }
  }

  /**
    Each line of the listing is the matching line of the source behind its number: splitting the
    listing at its newlines gives back the source lines with their prefixes, no more and no fewer.
  */
  lemma {:induction false} NumberedLinesArePrefixed(lines: seq<string>, k: nat, prefix: nat -> string)
    requires 0 < |lines|
    requires forall i :: 0 <= i < |lines| ==> '\n' !in lines[i]
    requires forall n :: '\n' !in prefix(n)
    ensures SplitLines(NumberLines(lines, k, prefix)) == Prefixed(lines, k, prefix)
    decreases |lines|
  {
    var head := prefix(k) + lines[0];
    assert '\n' !in head;
    if |lines| == 1 {
      SplitNoNewline(head);
    } else {
      var tail := NumberLines(lines[1..], k + 1, prefix);
      assert NumberLines(lines, k, prefix) == head + "\n" + tail;
      SplitAtFirstNewline(head, tail);
      assert forall i :: 0 <= i < |lines| - 1 ==> lines[1..][i] == lines[i + 1];
      NumberedLinesArePrefixed(lines[1..], k + 1, prefix);
    }
  }

  /** One more character of source, when it is not a newline, extends the last line. */
  lemma {:induction false} SplitSnocChar(s: string, c: char)
    requires c != '\n'
    ensures var lines := SplitLines(s);
      SplitLines(s + [c]) == lines[..|lines| - 1] + [lines[|lines| - 1] + [c]]
    decreases |s|
  {
    var i := NewlineIndex(s);
    NewlineIndexSpec(s);
    var t := s + [c];
    assert forall j :: 0 <= j < |s| ==> t[j] == s[j];
    if i == |s| {
      NewlineIndexIs(t, |t|);
      assert SplitLines(s) == [s];
    } else {
      NewlineIndexIs(t, i);
      assert t[..i] == s[..i] && t[i + 1..] == s[i + 1..] + [c];
      SplitSnocChar(s[i + 1..], c);
      var rest := SplitLines(s[i + 1..]);
      assert SplitLines(s) == [s[..i]] + rest;
      assert SplitLines(t) == [s[..i]] + SplitLines(s[i + 1..] + [c]);
      assert SplitLines(t) == [s[..i]] + (rest[..|rest| - 1] + [rest[|rest| - 1] + [c]]);
      assert ([s[..i]] + rest)[..|rest|] == [s[..i]] + rest[..|rest| - 1];
    }
  }

  /** A newline at the end of the source starts a new, empty line. */
  lemma {:induction false} SplitSnocNewline(s: string)
    ensures SplitLines(s + "\n") == SplitLines(s) + [""]
    decreases |s|
  {
    var i := NewlineIndex(s);
    NewlineIndexSpec(s);
    var t := s + "\n";
    assert forall j :: 0 <= j < |s| ==> t[j] == s[j];
    if i == |s| {
      NewlineIndexIs(t, |s|);
      assert t[..|s|] == s && t[|s| + 1..] == "";
    } else {
      NewlineIndexIs(t, i);
      assert t[..i] == s[..i] && t[i + 1..] == s[i + 1..] + "\n";
      SplitSnocNewline(s[i + 1..]);
    }
  }

  lemma {:induction false} NumberLinesSnocChar(lines: seq<string>, k: nat, c: char, prefix: nat -> string)
    requires 0 < |lines|
    ensures NumberLines(lines[..|lines| - 1] + [lines[|lines| - 1] + [c]], k, prefix) == NumberLines(lines, k, prefix) + [c]
    decreases |lines|
  {
    var lines' := lines[..|lines| - 1] + [lines[|lines| - 1] + [c]];
    var head := prefix(k);
    if |lines| > 1 {
      assert lines'[0] == lines[0];
      assert lines'[1..] == lines[1..][..|lines| - 2] + [lines[1..][|lines| - 2] + [c]];
      NumberLinesSnocChar(lines[1..], k + 1, c, prefix);
      var tail := NumberLines(lines[1..], k + 1, prefix);
      assert NumberLines(lines', k, prefix) == head + lines[0] + "\n" + (tail + [c]);
    } else {
      assert lines' == [lines[0] + [c]];
      assert NumberLines(lines', k, prefix) == head + (lines[0] + [c]);
    }
  }

  lemma {:induction false} NumberLinesSnocEmpty(lines: seq<string>, k: nat, prefix: nat -> string)
    requires 0 < |lines|
    ensures NumberLines(lines + [""], k, prefix) == NumberLines(lines, k, prefix) + "\n" + prefix(k + |lines|)
    decreases |lines|
  {
    var head := prefix(k) + lines[0];
    if |lines| > 1 {
      var tail := NumberLines(lines[1..], k + 1, prefix);
      assert (lines + [""])[1..] == lines[1..] + [""];
      NumberLinesSnocEmpty(lines[1..], k + 1, prefix);
      assert NumberLines(lines + [""], k, prefix) == head + "\n" + (tail + "\n" + prefix(k + |lines|));
    } else {
      assert (lines + [""])[1..] == [""];
      assert NumberLines(lines + [""], k, prefix) == head + "\n" + (prefix(k + 1) + "");
    }
  }

  /** The listing of `text` splits into the lines of `text`, each behind its number. */
  lemma ListingLines(text: string)
    ensures SplitLines(NumberLines(SplitLines(text), 1, LinePrefix)) == Prefixed(SplitLines(text), 1, LinePrefix)
  {
    SplitLinesHaveNoNewline(text);
    NumberedLinesArePrefixed(SplitLines(text), 1, LinePrefix);
  }

  /** A newline read from the source adds a newline and the next line's prefix to the listing. */
  lemma NumberedStepNewline(p: string)
    ensures |SplitLines(p + "\n")| == |SplitLines(p)| + 1
    ensures NumberLines(SplitLines(p + "\n"), 1, LinePrefix) == NumberLines(SplitLines(p), 1, LinePrefix) + "\n" + LinePrefix(|SplitLines(p)| + 1)
  {
    SplitSnocNewline(p);
    NumberLinesSnocEmpty(SplitLines(p), 1, LinePrefix);
  }

  /** Any other character read from the source is copied to the listing. */
  lemma NumberedStepChar(p: string, ch: char)
    requires ch != '\n'
    ensures |SplitLines(p + [ch])| == |SplitLines(p)|
    ensures NumberLines(SplitLines(p + [ch]), 1, LinePrefix) == NumberLines(SplitLines(p), 1, LinePrefix) + [ch]
  {
    SplitSnocChar(p, ch);
    NumberLinesSnocChar(SplitLines(p), 1, ch, LinePrefix);
  }

  /**
    `addLineCount(in)`: starts with the prefix of line 1, copies every character, and after
    each newline writes the prefix of the next line. The result is the numbered listing of
    the lines of `text`.
  */
  method AddLineCount(text: string) returns (out: string)
    ensures out == NumberLines(SplitLines(text), 1, LinePrefix)
    ensures SplitLines(out) == Prefixed(SplitLines(text), 1, LinePrefix)
  {
    out := LinePrefix(1);
    var line := 1;
    var i := 0;
    assert text[..0] == [];
    while i < |text|
      invariant 0 <= i <= |text|
      invariant line == |SplitLines(text[..i])|
      invariant out == NumberLines(SplitLines(text[..i]), 1, LinePrefix)
    {
      var ch := text[i];
      assert text[..i + 1] == text[..i] + [ch];
      if ch == '\n' {
        assert text[..i + 1] == text[..i] + "\n";
        NumberedStepNewline(text[..i]);
        line := line + 1;
        out := out + "\n" + LinePrefix(line);
      } else {
        NumberedStepChar(text[..i], ch);
        out := out + [ch];
      }
      i := i + 1;
    }
    assert text[..i] == text;
    ListingLines(text);
  }
}
