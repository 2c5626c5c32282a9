/** The publish metadata that `buildAndUpload` derives from an episode, and
    the answer test of `main`. */
module Metadata {
  import Markup
  import Decimal

  /** The text drawn on the title card: `fmt.Sprintf("%d: %s", number, title)`. */
  function CardText(number: int, title: string): string
  {
    Decimal.FormatInt(number) + ": " + title
  }

  /** The default title template `"%s: GCPPodcast %d"` filled with the
      title and the number. */
  function VideoTitle(title: string, number: int): string
  {
    title + ": GCPPodcast " + Decimal.FormatInt(number)
  }

  const DescriptionPrefix: string := "Original post: "

  /** `fmt.Sprintf("Original post: %s\n\n", link) + dropHTMLTags(desc)`. */
  function Description(link: string, desc: string): string
  {
    DescriptionPrefix + link + "\n\n" + Markup.Stripped(desc)
  }

  /** `append(tags, "gcppodcast", "podcast")`. */
  function UploadTags(tags: seq<string>): (r: seq<string>)
    ensures |r| == |tags| + 2
    ensures forall i :: 0 <= i < |tags| ==> r[i] == tags[i]
    ensures r[|tags|] == "gcppodcast" && r[|tags| + 1] == "podcast"
  {
    tags + ["gcppodcast", "podcast"]
  }

  /** The answer to "publish? (Y/n)" that lets the program go on. */
  predicate Proceeds(answer: string)
  {
    answer == "Y" || answer == "y" || answer == ""
  }

  // ---------------------------------------------------------------------
  // Splitting a concatenation at a separator

  /** When a separator character occurs in neither head, the heads of two
      equal concatenations `a + [sep] + b` and `c + [sep] + d` agree. */
  lemma SplitAtFirst(a: string, b: string, c: string, d: string, sep: char)
    requires sep !in a && sep !in c
    requires a + [sep] + b == c + [sep] + d
    ensures a == c && b == d
  {
    var x := a + [sep] + b;
    assert forall i :: 0 <= i < |a| ==> x[i] == a[i] != sep;
    assert forall i :: 0 <= i < |c| ==> x[i] == c[i] != sep;
    assert x[|a|] == sep && x[|c|] == sep;
    assert |a| == |c|;
    assert a == x[..|a|] == c;
    assert b == x[|a| + 1..] == d;
  }

  /** When a separator character occurs in neither tail, the tails of two
      equal concatenations `a + [sep] + b` and `c + [sep] + d` agree. */
  lemma SplitAtLast(a: string, b: string, c: string, d: string, sep: char)
    requires sep !in b && sep !in d
    requires a + [sep] + b == c + [sep] + d
    ensures a == c && b == d
  {
    var x := a + [sep] + b;
    assert forall i :: |a| + 1 <= i < |x| ==> x[i] == b[i - |a| - 1] != sep;
    assert forall i :: |c| + 1 <= i < |x| ==> x[i] == d[i - |c| - 1] != sep;
    assert x[|a|] == sep && x[|c|] == sep;
    assert |a| == |c|;
    assert a == x[..|a|] == c;
    assert b == x[|a| + 1..] == d;
  }

  // ---------------------------------------------------------------------
  // Properties of the derived metadata

  /** The card text is the decimal number, `": "`, then the title, and the
      number is the text before the first colon: distinct (number, title)
      pairs never share a card text. */
  lemma CardTextInjective(n1: int, t1: string, n2: int, t2: string)
    requires CardText(n1, t1) == CardText(n2, t2)
    ensures n1 == n2 && t1 == t2
  {
    var d1, d2 := Decimal.FormatInt(n1), Decimal.FormatInt(n2);
    Decimal.FormatIntCharacters(n1);
    Decimal.FormatIntCharacters(n2);
    assert ':' !in d1 && ':' !in d2;
    assert CardText(n1, t1) == d1 + [':'] + (" " + t1);
    assert CardText(n2, t2) == d2 + [':'] + (" " + t2);
    SplitAtFirst(d1, " " + t1, d2, " " + t2, ':');
    Decimal.FormatIntInjective(n1, n2);
    assert t1 == (" " + t1)[1..];
    assert t2 == (" " + t2)[1..];
  }

  /** The video title ends with `": GCPPodcast "` and the decimal number, and
      title and number can be read back from it. */
  lemma VideoTitleInjective(t1: string, n1: int, t2: string, n2: int)
    requires VideoTitle(t1, n1) == VideoTitle(t2, n2)
    ensures t1 == t2 && n1 == n2
  {
    var d1, d2 := Decimal.FormatInt(n1), Decimal.FormatInt(n2);
    Decimal.FormatIntCharacters(n1);
    Decimal.FormatIntCharacters(n2);
    assert ' ' !in d1 && ' ' !in d2;
    var h1, h2 := t1 + ": GCPPodcast", t2 + ": GCPPodcast";
    assert VideoTitle(t1, n1) == h1 + [' '] + d1;
    assert VideoTitle(t2, n2) == h2 + [' '] + d2;
    SplitAtLast(h1, d1, h2, d2, ' ');
    Decimal.FormatIntInjective(n1, n2);
    assert t1 == h1[..|t1|];
    assert t2 == h2[..|t2|];
  }

  /** The title of the default template on a sample title and number. */
  lemma VideoTitleExample()
    ensures VideoTitle("Launch", 42) == "Launch: GCPPodcast 42"
  {
    assert Decimal.FormatInt(42) == "42";
  }

  /** The description starts with `"Original post: "`, the link and a blank
      line, and ends with the stripped text, which holds no newline and no `<`. */
  lemma DescriptionShape(link: string, desc: string)
    ensures var d := Description(link, desc);
      var head := DescriptionPrefix + link + "\n\n";
      |d| == |head| + |Markup.Stripped(desc)| &&
      d[..|head|] == head &&
      d[|head|..] == Markup.Stripped(desc)
    ensures '\n' !in Markup.Stripped(desc) && '<' !in Markup.Stripped(desc)
  {
    Markup.StrippedHasNoOpenOrNewline(desc);
  }

  /** The body after the blank line is the only newline-free tail of the
      description, so link and stripped text can both be read back from it. */
  lemma DescriptionInjective(l1: string, e1: string, l2: string, e2: string)
    requires Description(l1, e1) == Description(l2, e2)
    ensures l1 == l2 && Markup.Stripped(e1) == Markup.Stripped(e2)
  {
    var b1, b2 := Markup.Stripped(e1), Markup.Stripped(e2);
    Markup.StrippedHasNoOpenOrNewline(e1);
    Markup.StrippedHasNoOpenOrNewline(e2);
    var h1, h2 := DescriptionPrefix + l1 + "\n", DescriptionPrefix + l2 + "\n";
    assert Description(l1, e1) == h1 + ['\n'] + b1;
    assert Description(l2, e2) == h2 + ['\n'] + b2;
    SplitAtLast(h1, b1, h2, b2, '\n');
    assert l1 == h1[|DescriptionPrefix|..|h1| - 1];
    assert l2 == h2[|DescriptionPrefix|..|h2| - 1];
  }

  /** A sample link and summary: a paragraph tag around the summary is removed. */
  lemma DescriptionExample(link: string, desc: string)
    requires link == "http://x/5" && desc == "<p>Hi</p>"
    ensures Description(link, desc) == "Original post: http://x/5\n\nHi"
  {
    Markup.StrippedExampleParagraph(desc);
  }

  /** The upload tags hold the episode's categories and the two fixed labels,
      and nothing else. */
  lemma UploadTagsMembers(tags: seq<string>)
    ensures forall t :: t in UploadTags(tags) <==> t in tags || t == "gcppodcast" || t == "podcast"
    ensures multiset(UploadTags(tags)) == multiset(tags) + multiset{"gcppodcast", "podcast"}
  {
    var r := UploadTags(tags);
    assert r == tags + ["gcppodcast", "podcast"];
  }
}
