/**
 The Python `str` operations the core relies on: `strip()`, `upper()`,
 `sep.join(...)` and `repr()` of a string (which is how a `(None, msg)`
 pair prints inside an f-string), with `Split` as the inverse of `Join`.
 */
module PyText {

  /** Python's `str.isspace()` for one character: the Unicode white-space
      characters (bidirectional class WS, B or S, or category Zs). */
  predicate IsSpace(c: char) {
    || ('\t' <= c <= '\r')
    || ('\U{1C}' <= c <= '\U{1F}')
    || c == ' '
    || c == '\U{85}'
    || c == '\U{A0}'
    || c == '\U{1680}'
    || ('\U{2000}' <= c <= '\U{200A}')
    || c == '\U{2028}'
    || c == '\U{2029}'
    || c == '\U{202F}'
    || c == '\U{205F}'
    || c == '\U{3000}'
  }

  /** `s.lstrip()`: drops the leading white space. */
  function TrimLeft(s: string): (r: string)
    ensures |r| <= |s| && r == s[|s| - |r|..]
    ensures forall k :: 0 <= k < |s| - |r| ==> IsSpace(s[k])
    ensures r == [] || !IsSpace(r[0])
    decreases |s|
  {
    if s != [] && IsSpace(s[0]) then TrimLeft(s[1..]) else s
  }

  /** `s.rstrip()`: drops the trailing white space. */
  function TrimRight(s: string): (r: string)
    ensures |r| <= |s| && r == s[..|r|]
    ensures forall k :: |r| <= k < |s| ==> IsSpace(s[k])
    ensures r == [] || !IsSpace(r[|r| - 1])
    decreases |s|
  {
    if s != [] && IsSpace(s[|s| - 1]) then TrimRight(s[..|s| - 1]) else s
  }

  /** Neither starts nor ends with white space. */
  predicate Trimmed(s: string) {
    s == [] || (!IsSpace(s[0]) && !IsSpace(s[|s| - 1]))
  }

  /** `s[i..i + |r|] == r` and everything around it is white space. */
  ghost predicate Surrounds(s: string, i: int, r: string) {
    && 0 <= i && i + |r| <= |s|
    && r == s[i..i + |r|]
    && (forall k :: 0 <= k < i ==> IsSpace(s[k]))
    && (forall k :: i + |r| <= k < |s| ==> IsSpace(s[k]))
  }

  /** A white-space prefix cut off `s`, then a white-space suffix cut off
      what is left, leaves an infix surrounded by white space. */
  lemma TrimmedBothEnds(s: string, left: string, r: string)
    requires |left| <= |s| && left == s[|s| - |left|..]
    requires forall k :: 0 <= k < |s| - |left| ==> IsSpace(s[k])
    requires |r| <= |left| && r == left[..|r|]
    requires forall k :: |r| <= k < |left| ==> IsSpace(left[k])
    ensures Surrounds(s, |s| - |left|, r)
  {
    var i := |s| - |left|;
    forall k | i + |r| <= k < |s| ensures IsSpace(s[k]) {
      assert s[k] == left[k - i];
    }
  }

  /** `s.strip()`: the longest infix of `s` that neither starts nor ends
      with white space, everything cut off being white space. */
  function Strip(s: string): (r: string)
    ensures exists i :: Surrounds(s, i, r)
    ensures Trimmed(r)
  {
    var left := TrimLeft(s);
    var r := TrimRight(left);
    TrimmedBothEnds(s, left, r);
    r
  }

  /** `c.upper()` for the characters whose upper case is a single
      character: ASCII, Latin-1 and basic Cyrillic letters. */
  function UpperChar(c: char): char {
    if 'a' <= c <= 'z' then (c as int - 32) as char
    else if c == '\U{B5}' then '\U{039C}'
    else if '\U{E0}' <= c <= '\U{FE}' && c != '\U{F7}' then (c as int - 32) as char
    else if c == '\U{FF}' then '\U{0178}'
    else if '\U{0430}' <= c <= '\U{044F}' then (c as int - 32) as char
    else if '\U{0450}' <= c <= '\U{045F}' then (c as int - 80) as char
    else c
  }

  /** `s.upper()`, character by character. */
  function Upper(s: string): (r: string)
    ensures |r| == |s|
    ensures forall i :: 0 <= i < |s| ==> r[i] == UpperChar(s[i])
    decreases |s|
  {
    if s == [] then [] else [UpperChar(s[0])] + Upper(s[1..])
  }

  /** Upper-casing is idempotent and never turns a character into white
      space or white space into something else. */
  lemma UpperCharFacts(c: char)
    ensures UpperChar(UpperChar(c)) == UpperChar(c)
    ensures IsSpace(UpperChar(c)) <==> IsSpace(c)
  {
  }

  /** Upper-casing twice is upper-casing once. */
  lemma UpperIdempotent(s: string)
    ensures Upper(Upper(s)) == Upper(s)
  {
    forall i | 0 <= i < |s| ensures Upper(Upper(s))[i] == Upper(s)[i] {
      UpperCharFacts(s[i]);
    }
  }

  /** Upper-casing neither adds nor removes white space at the ends. */
  lemma UpperKeepsTrimmed(s: string)
    requires Trimmed(s)
    ensures Trimmed(Upper(s))
  {
    if s != [] {
      UpperCharFacts(s[0]);
      UpperCharFacts(s[|s| - 1]);
    }
  }

  /** Stripping a string that is already trimmed leaves it alone. */
  lemma StripKeepsTrimmed(s: string)
    requires Trimmed(s)
    ensures Strip(s) == s
  {
  }

  /** The upper case of a trimmed text is trimmed and upper case already,
      so stripping and upper-casing it again changes nothing. */
  lemma UpperOfTrimmedIsFixed(s: string)
    requires Trimmed(s)
    ensures Upper(Strip(Upper(s))) == Upper(s)
  {
    var u := Upper(s);
    UpperKeepsTrimmed(s);
    StripKeepsTrimmed(u);
    assert Strip(u) == u;
    UpperIdempotent(s);
    assert Upper(u) == u;
  }

  /** `sep.join(xs)`: empty for no pieces, otherwise it starts with the
      first piece and ends with the last. */
  function Join(xs: seq<string>, sep: string): (r: string)
    ensures xs == [] ==> r == ""
    ensures xs != [] ==> |xs[0]| <= |r| && r[..|xs[0]|] == xs[0]
    ensures xs != [] ==> |xs[|xs| - 1]| <= |r| && r[|r| - |xs[|xs| - 1]|..] == xs[|xs| - 1]
    decreases |xs|
  {
    if xs == [] then ""
    else if |xs| == 1 then xs[0]
    else
      var rest := Join(xs[1..], sep);
      var r := xs[0] + sep + rest;
      assert xs[1..][|xs[1..]| - 1] == xs[|xs| - 1];
      assert r[|r| - |rest|..] == rest;
      r
  }

  /** `s.split(sep)` for a one-character separator: the pieces between the
      separators, always at least one. */
  function Split(s: string, sep: char): (r: seq<string>)
    ensures |r| >= 1
    ensures forall k :: 0 <= k < |r| ==> sep !in r[k]
    decreases |s|
  {
    if s == [] then [""]
    else
      var rest := Split(s[1..], sep);
      if s[0] == sep then [""] + rest
      else [[s[0]] + rest[0]] + rest[1..]
  }

  /** A piece free of the separator, followed by the separator, splits off
      as one piece. */
  lemma {:induction false} SplitPiece(x: string, sep: char, tail: string)
    requires sep !in x
    ensures Split(x + [sep] + tail, sep) == [x] + Split(tail, sep)
    decreases |x|
  {
    if x == [] {
      assert x + [sep] + tail == [sep] + tail;
      assert ([sep] + tail)[1..] == tail;
    } else {
      var s := x + [sep] + tail;
      assert s[0] == x[0];
      assert s[1..] == x[1..] + [sep] + tail;
      SplitPiece(x[1..], sep, tail);
      assert [x[0]] + x[1..] == x;
    }
  }

  /** A separator-free string splits into itself. */
  lemma {:induction false} SplitNoSep(x: string, sep: char)
    requires sep !in x
    ensures Split(x, sep) == [x]
    decreases |x|
  {
    if x != [] {
      SplitNoSep(x[1..], sep);
      assert [x[0]] + x[1..] == x;
    }
  }

  /** `Split` undoes `Join` when no piece contains the separator. */
  lemma {:induction false} SplitJoin(xs: seq<string>, sep: char)
    requires xs != []
    requires forall k :: 0 <= k < |xs| ==> sep !in xs[k]
    ensures Split(Join(xs, [sep]), sep) == xs
    decreases |xs|
  {
    if |xs| == 1 {
      SplitNoSep(xs[0], sep);
    } else {
      SplitJoin(xs[1..], sep);
      SplitPiece(xs[0], sep, Join(xs[1..], [sep]));
      assert [xs[0]] + xs[1..] == xs;
    }
  }

  /** Splitting around one separator splits each side on its own. */
  lemma {:induction false} SplitConcat(a: string, sep: char, b: string)
    ensures Split(a + [sep] + b, sep) == Split(a, sep) + Split(b, sep)
    decreases |a|
  {
    var s := a + [sep] + b;
    if a == [] {
      assert s == [sep] + b;
      assert s[1..] == b;
    } else {
      assert s[0] == a[0];
      assert s[1..] == a[1..] + [sep] + b;
      SplitConcat(a[1..], sep, b);
    }
  }

  /** The lines of every piece, one piece after the other. */
  function SplitAll(xs: seq<string>, sep: char): seq<string>
    decreases |xs|
  {
    if xs == [] then [] else Split(xs[0], sep) + SplitAll(xs[1..], sep)
  }

  /** `Split` of a `Join` gives each piece's own pieces in order, whether
      or not a piece contains the separator. */
  lemma {:induction false} SplitJoinAll(xs: seq<string>, sep: char)
    requires xs != []
    ensures Split(Join(xs, [sep]), sep) == SplitAll(xs, sep)
    decreases |xs|
  {
    if |xs| == 1 {
      assert SplitAll(xs[1..], sep) == [];
    } else {
      SplitJoinAll(xs[1..], sep);
      SplitConcat(xs[0], sep, Join(xs[1..], [sep]));
    }
  }

  /** Pieces free of the separator are their own pieces. */
  lemma {:induction false} SplitAllNoSep(xs: seq<string>, sep: char)
    requires forall k :: 0 <= k < |xs| ==> sep !in xs[k]
    ensures SplitAll(xs, sep) == xs
    decreases |xs|
  {
    if xs != [] {
      SplitNoSep(xs[0], sep);
      SplitAllNoSep(xs[1..], sep);
      assert [xs[0]] + xs[1..] == xs;
    }
  }

  /** Escapes `s` for a Python string literal delimited by `quote`. */
  function Escape(s: string, quote: char): string
    decreases |s|
  {
    if s == [] then ""
    else
      var c := s[0];
      var e :=
        if c == quote || c == '\\' then ['\\', c]
        else if c == '\n' then "\\n"
        else if c == '\r' then "\\r"
        else if c == '\t' then "\\t"
        else [c];
      e + Escape(s[1..], quote)
  }

  /** None of the characters `repr` escapes inside single quotes. */
  predicate PlainText(s: string) {
    forall c <- s :: c !in "'\\\n\r\t"
  }

  /** Text with nothing to escape is copied verbatim. */
  lemma {:induction false} EscapePlain(s: string)
    requires PlainText(s)
    ensures Escape(s, '\'') == s
    decreases |s|
  {
    if s != [] {
      assert s[0] in s;
      assert PlainText(s[1..]) by {
        forall c <- s[1..] ensures c !in "'\\\n\r\t" {
          assert c in s;
        }
      }
      EscapePlain(s[1..]);
      assert [s[0]] + s[1..] == s;
    }
  }

  /** `repr(s)`: single quotes, unless `s` holds a single quote and no
      double quote; text with nothing to escape appears verbatim between
      the quotes. */
  function Repr(s: string): (r: string)
    ensures |r| >= 2 && r[0] == r[|r| - 1] && r[0] in "'\""
    ensures r[0] == '"' <==> ('\'' in s && '"' !in s)
    ensures PlainText(s) ==> r == "'" + s + "'"
  {
    var quote := if '\'' in s && '"' !in s then '"' else '\'';
    assert PlainText(s) ==> Escape(s, quote) == s by {
      if PlainText(s) {
        EscapePlain(s);
      }
    }
    [quote] + Escape(s, quote) + [quote]
  }
}
