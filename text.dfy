/** The few Python string operations the assembler applies to a source line. */
module Text {

  /** The 29 code points for which str.isspace() holds, the ones str.strip() removes:
      tab to carriage return, the four information separators, space, NEL, no-break
      space, and the Unicode space and line/paragraph separators. */
  predicate IsSpace(c: char) {
    ('\t' <= c <= '\r') || ('\U{001C}' <= c <= '\U{001F}') || c == ' ' ||
    c == '\U{0085}' || c == '\U{00A0}' || c == '\U{1680}' || ('\U{2000}' <= c <= '\U{200A}') ||
    c == '\U{2028}' || c == '\U{2029}' || c == '\U{202F}' || c == '\U{205F}' || c == '\U{3000}'
  }

  function StripLeft(s: string): (r: string)
    ensures |r| <= |s| && r == s[|s| - |r|..]
    ensures |r| > 0 ==> !IsSpace(r[0])
    ensures forall i :: 0 <= i < |s| - |r| ==> IsSpace(s[i])
  {
    if |s| > 0 && IsSpace(s[0]) then StripLeft(s[1..]) else s
  }

  function StripRight(s: string): (r: string)
    ensures |r| <= |s| && r == s[..|r|]
    ensures |r| > 0 ==> !IsSpace(r[|r| - 1])
    ensures forall i :: |r| <= i < |s| ==> IsSpace(s[i])
  {
    if |s| > 0 && IsSpace(s[|s| - 1]) then StripRight(s[..|s| - 1]) else s
  }

  /** str.strip() */
  function Strip(s: string): string {
    StripRight(StripLeft(s))
  }

  /** str.strip() removes an information separator before the newline. */
  lemma StripRemovesSeparator(t: string)
    requires t == "TERM\U{001C}\n"
    ensures Strip(t) == "TERM"
  {
    assert StripLeft(t) == t;
    var t1 := t[..|t| - 1];
    var t2 := t1[..|t1| - 1];
    assert t2 == "TERM";
    assert StripRight(t2) == t2;
    assert StripRight(t1) == t2;
  }

  /** str.strip() removes the non-ASCII spaces. */
  lemma StripRemovesUnicodeSpaces(u: string)
    requires u == "\U{3000}ab\U{00A0}"
    ensures Strip(u) == "ab"
  {
    var u1 := u[1..];
    assert StripLeft(u1) == u1;
    var u2 := u1[..|u1| - 1];
    assert u2 == "ab";
    assert StripRight(u2) == u2;
  }

  /** The position of the first `sep` in `s`. */
  function IndexOf(s: string, sep: char): (i: nat)
    requires sep in s
    ensures i < |s| && s[i] == sep && sep !in s[..i]
  {
    if s[0] == sep then 0 else 1 + IndexOf(s[1..], sep)
  }

  /** str.split(sep) with an explicit one-character separator. */
  function Split(s: string, sep: char): (r: seq<string>)
    ensures |r| >= 1
    ensures forall k :: 0 <= k < |r| ==> sep !in r[k]
    decreases |s|
  {
    if sep !in s then [s] else
      var i := IndexOf(s, sep);
      [s[..i]] + Split(s[i + 1..], sep)
  }

  /** str.split(sep, 1) */
  function SplitOnce(s: string, sep: char): (r: seq<string>)
    ensures 1 <= |r| <= 2 && sep !in r[0]
  {
    if sep !in s then [s] else
      var i := IndexOf(s, sep);
      [s[..i], s[i + 1..]]
  }

  /** Rejoining the fields with the separator gives the string back. */
  function Join(parts: seq<string>, sep: char): string
    requires |parts| >= 1
  {
    if |parts| == 1 then parts[0] else parts[0] + [sep] + Join(parts[1..], sep)
  }

  lemma {:induction false} SplitJoin(s: string, sep: char)
    ensures Join(Split(s, sep), sep) == s
    decreases |s|
  {
    if sep in s {
      var i := IndexOf(s, sep);
      var rest := Split(s[i + 1..], sep);
      SplitJoin(s[i + 1..], sep);
      assert Split(s, sep) == [s[..i]] + rest;
      assert ([s[..i]] + rest)[1..] == rest;
      assert Join(Split(s, sep), sep) == s[..i] + [sep] + Join(rest, sep);
      assert s == s[..i] + [sep] + s[i + 1..];
    }
  }

  /** "c" * n */
  function Repeat(c: char, n: nat): (r: string)
    ensures |r| == n && forall i :: 0 <= i < n ==> r[i] == c
  {
    seq(n, _ => c)
  }

  /** A non-empty run of non-blank characters. */
  predicate IsToken(s: string) {
    |s| > 0 && forall i :: 0 <= i < |s| ==> !IsSpace(s[i])
  }

  /** The first separator after a separator-free field is the one that ends it. */
  lemma {:induction false} IndexOfAfterField(a: string, sep: char, rest: string)
    requires sep !in a
    ensures sep in a + [sep] + rest && IndexOf(a + [sep] + rest, sep) == |a|
    decreases |a|
  {
    var s := a + [sep] + rest;
    assert s[|a|] == sep;
    if |a| > 0 {
      assert s[1..] == a[1..] + [sep] + rest;
      IndexOfAfterField(a[1..], sep, rest);
    }
  }

  /** Splitting a separator-free field followed by the separator ends that field there. */
  lemma SplitAfterField(a: string, sep: char, rest: string)
    requires sep !in a
    ensures Split(a + [sep] + rest, sep) == [a] + Split(rest, sep)
    ensures SplitOnce(a + [sep] + rest, sep)[0] == a
  {
    var s := a + [sep] + rest;
    IndexOfAfterField(a, sep, rest);
    assert s[..|a|] == a;
    assert s[|a| + 1..] == rest;
  }

  /** Splitting separator-free fields joined by the separator gives the fields back;
      splitting once gives the first field. */
  lemma {:induction false} SplitOfJoin(parts: seq<string>, sep: char)
    requires |parts| >= 1 && forall k :: 0 <= k < |parts| ==> sep !in parts[k]
    ensures Split(Join(parts, sep), sep) == parts
    ensures SplitOnce(Join(parts, sep), sep)[0] == parts[0]
    decreases |parts|
  {
    if |parts| > 1 {
      SplitAfterField(parts[0], sep, Join(parts[1..], sep));
      SplitOfJoin(parts[1..], sep);
      assert parts == [parts[0]] + parts[1..];
    }
  }

  /** Tokens joined by a separator begin and end with a non-blank character. */
  lemma {:induction false} JoinOfTokensEnds(parts: seq<string>, sep: char)
    requires |parts| >= 1 && forall k :: 0 <= k < |parts| ==> IsToken(parts[k])
    ensures Trimmed(Join(parts, sep))
    decreases |parts|
  {
    if |parts| > 1 {
      JoinOfTokensEnds(parts[1..], sep);
    }
  }

  /** A non-empty text that neither begins nor ends with whitespace. */
  predicate Trimmed(s: string) {
    |s| > 0 && !IsSpace(s[0]) && !IsSpace(s[|s| - 1])
  }

  /** Stripping a line read with its newline leaves the text, when that text neither
      begins nor ends with whitespace. */
  lemma StripLine(s: string)
    requires Trimmed(s)
    ensures Strip(s + "\n") == s
  {
    var line := s + "\n";
    assert StripLeft(line) == line;
    assert line[..|line| - 1] == s;
    assert StripRight(s) == s;
  }

  /** Fields a stripped line splits into on blanks: none holds a blank, and joined
      they neither begin nor end with whitespace. */
  predicate IsFieldLine(fields: seq<string>) {
    |fields| >= 1 && (forall k :: 0 <= k < |fields| ==> ' ' !in fields[k]) && Trimmed(Join(fields, ' '))
  }

  /** A line of blank-separated fields read with its newline strips to the fields
      joined, which split back into the fields, the first of them alone. */
  lemma FieldsOfLine(fields: seq<string>)
    requires IsFieldLine(fields)
    ensures Strip(Join(fields, ' ') + "\n") == Join(fields, ' ')
    ensures SplitOnce(Strip(Join(fields, ' ') + "\n"), ' ')[0] == fields[0]
    ensures Split(Strip(Join(fields, ' ') + "\n"), ' ') == fields
  {
    StripLine(Join(fields, ' '));
    SplitOfJoin(fields, ' ');
  }

  /** Tokens joined by blanks form a line whose fields are the tokens: none holds the
      separator, and the line neither begins nor ends with whitespace. */
  lemma TokensLine(tokens: seq<string>)
    requires |tokens| >= 1 && forall k :: 0 <= k < |tokens| ==> IsToken(tokens[k])
    ensures IsFieldLine(tokens)
  {
    JoinOfTokensEnds(tokens, ' ');
    forall k | 0 <= k < |tokens|
      ensures ' ' !in tokens[k]
    {
      assert IsSpace(' ');
    }
  }

  lemma JoinTwo(a: string, b: string, sep: char)
    ensures Join([a, b], sep) == a + [sep] + b
  {
    assert [a, b][1..] == [b];
  }

  lemma JoinThree(a: string, b: string, c: string, sep: char)
    ensures Join([a, b, c], sep) == a + [sep] + b + [sep] + c
  {
    assert [a, b, c][1..] == [b, c];
    JoinTwo(b, c, sep);
  }

  lemma TwoTokens(a: string, b: string)
    requires IsToken(a) && IsToken(b)
    ensures forall k :: 0 <= k < 2 ==> IsToken([a, b][k])
  {
  }

  lemma ThreeTokens(a: string, b: string, c: string)
    requires IsToken(a) && IsToken(b) && IsToken(c)
    ensures forall k :: 0 <= k < 3 ==> IsToken([a, b, c][k])
  {
  }
}
