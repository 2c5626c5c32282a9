/** The markup stripper `dropHTMLTags` of main.go: a two-state scanner over
    the characters of the text, followed by a pass that turns every newline
    into a space. */
module Markup {

  /** One step of the scanner in state `inTag` on character `c`: the next
      state and the characters the step copies to the output. A `<` outside a
      tag enters a tag, a `>` inside a tag leaves it (and is dropped), and any
      other character is copied exactly when the scanner is outside a tag. */
  function Step(inTag: bool, c: char): (bool, seq<char>)
  {
    if !inTag && c == '<' then (true, [])
    else if inTag && c == '>' then (false, [])
    else if inTag then (true, [])
    else (false, [c])
  }

  /** The characters the scanner copies from `s` when it starts in state `inTag`. */
  function Scan(s: seq<char>, inTag: bool): seq<char>
    decreases |s|
  {
    if s == [] then [] else Step(inTag, s[0]).1 + Scan(s[1..], Step(inTag, s[0]).0)
  }

  /** The scanner's state after reading all of `s` from state `inTag`. */
  function StateAfter(s: seq<char>, inTag: bool): bool
    decreases |s|
  {
    if s == [] then inTag else StateAfter(s[1..], Step(inTag, s[0]).0)
  }

  /** `strings.Replace(x, "\n", " ", -1)`: every newline becomes one space. */
  function ReplaceNewlines(s: seq<char>): (r: seq<char>)
    ensures |r| == |s|
    ensures forall i :: 0 <= i < |s| ==> r[i] == (if s[i] == '\n' then ' ' else s[i])
  {
    if s == [] then [] else [if s[0] == '\n' then ' ' else s[0]] + ReplaceNewlines(s[1..])
  }

  /** What `dropHTMLTags(s)` returns. */
  function Stripped(s: seq<char>): seq<char>
  {
    ReplaceNewlines(Scan(s, false))
  }

  /** `x` can be obtained from `y` by deleting characters. */
  predicate IsSubsequence(x: seq<char>, y: seq<char>)
    decreases |y|
  {
    x == [] || (y != [] && ((x[0] == y[0] && IsSubsequence(x[1..], y[1..])) || IsSubsequence(x, y[1..])))
  }

  /** The loop of `dropHTMLTags`: the flag `inTag` and the buffer `w` are
      updated character by character, then the newline pass runs on the buffer. */
  method DropHtmlTags(s: string) returns (r: string)
    ensures r == Stripped(s)
  {
    var w: seq<char> := [];
    var inTag := false;
    var i := 0;
    while i < |s|
      invariant 0 <= i <= |s|
      invariant w + Scan(s[i..], inTag) == Scan(s, false)
    {
      var c := s[i];
      assert s[i..][1..] == s[i + 1..];
      if !inTag && c == '<' {
        inTag := true;
      } else if inTag && c == '>' {
        inTag := false;
        i := i + 1;
        continue;
      }
      if !inTag {
        w := w + [c];
      }
      i := i + 1;
    }
    r := ReplaceNewlines(w);
  }

  // ---------------------------------------------------------------------
  // Structure of the scanner

  /** Scanning a concatenation scans the second part from the state the
      first part leaves. */
  lemma {:induction false} ScanAppend(a: seq<char>, b: seq<char>, inTag: bool)
    ensures Scan(a + b, inTag) == Scan(a, inTag) + Scan(b, StateAfter(a, inTag))
    ensures StateAfter(a + b, inTag) == StateAfter(b, StateAfter(a, inTag))
    decreases |a|
  {
    if a == [] {
      assert a + b == b;
    } else {
      assert (a + b)[1..] == a[1..] + b;
      ScanAppend(a[1..], b, Step(inTag, a[0]).0);
    }
  }

  /** The newline pass distributes over concatenation. */
  lemma {:induction false} ReplaceNewlinesAppend(x: seq<char>, y: seq<char>)
    ensures ReplaceNewlines(x + y) == ReplaceNewlines(x) + ReplaceNewlines(y)
  {
    var l, r := ReplaceNewlines(x + y), ReplaceNewlines(x) + ReplaceNewlines(y);
    assert |l| == |r|;
    forall i | 0 <= i < |l| ensures l[i] == r[i] {
      if i < |x| {
        assert (x + y)[i] == x[i];
      } else {
        assert (x + y)[i] == y[i - |x|];
      }
    }
  }

  /** No `<` is ever copied: outside a tag it enters one, inside it is dropped. */
  lemma {:induction false} ScanHasNoOpen(s: seq<char>, inTag: bool)
    ensures '<' !in Scan(s, inTag)
    decreases |s|
  {
    if s != [] {
      ScanHasNoOpen(s[1..], Step(inTag, s[0]).0);
    }
  }

  /** Outside a tag, text without `<` is copied verbatim (a stray `>` included),
      and the scanner stays outside. */
  lemma {:induction false} ScanPlainText(s: seq<char>)
    requires '<' !in s
    ensures Scan(s, false) == s
    ensures StateAfter(s, false) == false
    decreases |s|
  {
    if s != [] {
      assert s == [s[0]] + s[1..];
      ScanPlainText(s[1..]);
    }
  }

  /** Inside a tag, text without `>` is dropped entirely and the scanner
      stays inside. */
  lemma {:induction false} ScanInsideTag(s: seq<char>)
    requires '>' !in s
    ensures Scan(s, true) == []
    ensures StateAfter(s, true) == true
    decreases |s|
  {
    if s != [] {
      ScanInsideTag(s[1..]);
    }
  }

  /** Every character the scanner copies comes from the input, in order. */
  lemma {:induction false} ScanIsSubsequence(s: seq<char>, inTag: bool)
    ensures IsSubsequence(Scan(s, inTag), s)
    decreases |s|
  {
    if s != [] {
      var rest := Scan(s[1..], Step(inTag, s[0]).0);
      ScanIsSubsequence(s[1..], Step(inTag, s[0]).0);
      if Step(inTag, s[0]).1 == [] {
        assert Scan(s, inTag) == rest;
      } else {
        assert Scan(s, inTag) == [s[0]] + rest;
        assert ([s[0]] + rest)[1..] == rest;
      }
    }
  }

  /** Deleting characters and then replacing newlines is the same as
      replacing newlines and then deleting the same characters. */
  lemma {:induction false} ReplaceNewlinesKeepsSubsequence(x: seq<char>, y: seq<char>)
    requires IsSubsequence(x, y)
    ensures IsSubsequence(ReplaceNewlines(x), ReplaceNewlines(y))
    decreases |y|
  {
    if x != [] {
      assert ReplaceNewlines(y)[1..] == ReplaceNewlines(y[1..]);
      if x[0] == y[0] && IsSubsequence(x[1..], y[1..]) {
        ReplaceNewlinesKeepsSubsequence(x[1..], y[1..]);
        assert ReplaceNewlines(x)[1..] == ReplaceNewlines(x[1..]);
      } else {
        ReplaceNewlinesKeepsSubsequence(x, y[1..]);
      }
    }
  }

  /** A subsequence is never longer, and holds only characters of the whole. */
  lemma {:induction false} SubsequenceBounds(x: seq<char>, y: seq<char>)
    requires IsSubsequence(x, y)
    ensures |x| <= |y|
    ensures forall c :: c in x ==> c in y
    decreases |y|
  {
    if x != [] {
      if x[0] == y[0] && IsSubsequence(x[1..], y[1..]) {
        SubsequenceBounds(x[1..], y[1..]);
        assert x == [x[0]] + x[1..];
        assert y == [y[0]] + y[1..];
      } else {
        SubsequenceBounds(x, y[1..]);
        assert y == [y[0]] + y[1..];
      }
    }
  }

  // ---------------------------------------------------------------------
  // Properties of dropHTMLTags

  /** The result holds neither a `<` nor a newline. */
  lemma StrippedHasNoOpenOrNewline(s: seq<char>)
    ensures '<' !in Stripped(s)
    ensures '\n' !in Stripped(s)
  {
    var w := Scan(s, false);
    ScanHasNoOpen(s, false);
    var r := ReplaceNewlines(w);
    forall i | 0 <= i < |r| ensures r[i] != '<' && r[i] != '\n' {
      assert w[i] in w;
    }
  }

  /** Text without `<` comes back with only its newlines turned into spaces;
      a stray `>` is kept. */
  lemma StrippedPlainText(s: seq<char>)
    requires '<' !in s
    ensures Stripped(s) == ReplaceNewlines(s)
  {
    ScanPlainText(s);
  }

  /** An unmatched `<` drops everything after it: for `a + "<" + b` with no
      `<` in `a` and no `>` in `b`, only `a` survives. */
  lemma StrippedUnmatchedOpen(a: seq<char>, b: seq<char>)
    requires '<' !in a && '>' !in b
    ensures Stripped(a + ['<'] + b) == ReplaceNewlines(a)
  {
    ScanPlainText(a);
    ScanAppend(a, ['<'] + b, false);
    assert a + ['<'] + b == a + (['<'] + b);
    assert (['<'] + b)[1..] == b;
    ScanInsideTag(b);
    assert Scan(['<'] + b, false) == [];
    assert Scan(a + ['<'] + b, false) == a;
  }

  /** A complete tag `<t>` read outside a tag leaves nothing and ends outside. */
  lemma ScanClosedTag(t: seq<char>)
    requires '>' !in t
    ensures Scan(['<'] + t + ['>'], false) == []
    ensures StateAfter(['<'] + t + ['>'], false) == false
  {
    var tag := ['<'] + t + ['>'];
    assert tag[1..] == t + ['>'];
    ScanInsideTag(t);
    ScanAppend(t, ['>'], true);
    assert Scan(['>'], true) == [] && StateAfter(['>'], true) == false;
  }

  /** Plain text, a complete tag, then anything: the scanner copies the
      plain text and continues after the tag as if from the start. */
  lemma ScanDropsTag(a: seq<char>, t: seq<char>, b: seq<char>)
    requires '<' !in a && '>' !in t
    ensures Scan(a + ['<'] + t + ['>'] + b, false) == a + Scan(b, false)
  {
    var tag := ['<'] + t + ['>'];
    var rest := tag + b;
    ScanClosedTag(t);
    ScanAppend(tag, b, false);
    assert Scan(rest, false) == Scan(b, false);
    ScanPlainText(a);
    ScanAppend(a, rest, false);
    assert a + ['<'] + t + ['>'] + b == a + rest;
  }

  /** A complete tag `<t>` in plain text is removed together with its
      brackets, and scanning resumes outside a tag after it. */
  lemma StrippedDropsTag(a: seq<char>, t: seq<char>, b: seq<char>)
    requires '<' !in a && '>' !in t
    ensures Stripped(a + ['<'] + t + ['>'] + b) == ReplaceNewlines(a) + Stripped(b)
  {
    ScanDropsTag(a, t, b);
    ReplaceNewlinesAppend(a, Scan(b, false));
  }

  /** The result is the input with newlines turned into spaces and some
      characters deleted: never longer, and no character is invented. */
  lemma StrippedIsSubsequence(s: seq<char>)
    ensures IsSubsequence(Stripped(s), ReplaceNewlines(s))
    ensures |Stripped(s)| <= |s|
    ensures forall c :: c in Stripped(s) ==> c in ReplaceNewlines(s)
  {
    ScanIsSubsequence(s, false);
    ReplaceNewlinesKeepsSubsequence(Scan(s, false), s);
    SubsequenceBounds(Stripped(s), ReplaceNewlines(s));
  }

  /** Stripping is idempotent. */
  lemma StrippedIdempotent(s: seq<char>)
    ensures Stripped(Stripped(s)) == Stripped(s)
  {
    var r := Stripped(s);
    StrippedHasNoOpenOrNewline(s);
    StrippedPlainText(r);
    assert ReplaceNewlines(r) == r;
  }

  /** A closed tag pair is removed: `a<b>c</b>d` becomes `acd`. */
  lemma StrippedExampleTags(s: string)
    requires s == "a<b>c</b>d"
    ensures Stripped(s) == "acd"
  {
    var d := "d";
    StrippedPlainText(d);
    var inner := "c" + ['<'] + "/b" + ['>'] + d;
    StrippedDropsTag("c", "/b", d);
    assert Stripped(inner) == "cd";
    assert s == "a" + ['<'] + "b" + ['>'] + inner;
    StrippedDropsTag("a", "b", inner);
  }

  /** A newline becomes a space: `line1\nline2` becomes `line1 line2`. */
  lemma StrippedExampleNewline(s: string)
    requires s == "line1\nline2"
    ensures Stripped(s) == "line1 line2"
  {
    var e := "line1 line2";
    assert ReplaceNewlines(s) == e by {
      var r := ReplaceNewlines(s);
      assert forall i :: 0 <= i < |s| ==> r[i] == e[i];
    }
    assert '<' !in s by {
      assert forall i :: 0 <= i < |s| ==> s[i] != '<';
    }
    StrippedPlainText(s);
  }

  /** An unterminated tag swallows the rest: `x<unterminated` becomes `x`. */
  lemma StrippedExampleUnterminated(s: string)
    requires s == "x<unterminated"
    ensures Stripped(s) == "x"
  {
    var a, b := "x", "unterminated";
    assert s == a + ['<'] + b;
    StrippedUnmatchedOpen(a, b);
  }

  /** A paragraph around plain text: `<p>Hi</p>` becomes `Hi`. */
  lemma StrippedExampleParagraph(s: string)
    requires s == "<p>Hi</p>"
    ensures Stripped(s) == "Hi"
  {
    var hi, empty := "Hi", "";
    StrippedPlainText(empty);
    var inner := hi + ['<'] + "/p" + ['>'] + empty;
    StrippedDropsTag(hi, "/p", empty);
    assert Stripped(inner) == "Hi";
    assert s == empty + ['<'] + "p" + ['>'] + inner;
    StrippedDropsTag(empty, "p", inner);
  }
}
