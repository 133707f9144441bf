/**
 * The text the scraper produces (main.py): the newline join of the trimmed
 * texts of the selected elements, and the Markdown form `save_data` writes to a
 * `.md` file, where each line of the trimmed output becomes its own paragraph.
 */
module Output {
  import opened Text
  import opened Html

  /** `"\n".join([e.text.strip() for e in elements if self.running])`, with
      `running` read once for the whole list. */
  function ScrapedText(elements: seq<Element>, running: bool): string
  {
    Join("\n", if running then Trimmed(elements) else [])
  }

  /** The trimmed texts of the elements, in order. */
  function Trimmed(elements: seq<Element>): (r: seq<string>)
    ensures |r| == |elements|
    ensures forall i :: 0 <= i < |r| ==> r[i] == Strip(elements[i].text)
  {
    seq(|elements|, i requires 0 <= i < |elements| => Strip(elements[i].text))
  }

  /** Splitting the scraped text at newlines gives back each element's trimmed
      text, one per element, when no trimmed text itself spans lines. */
  lemma ScrapedTextLines(elements: seq<Element>)
    requires elements != []
    requires forall i :: 0 <= i < |elements| ==> '\n' !in Strip(elements[i].text)
    ensures Split(ScrapedText(elements, true), '\n') == Trimmed(elements)
    ensures ScrapedText(elements, false) == ""
  {
    JoinSplitRoundTrip(Trimmed(elements), '\n');
  }

  /** `"\n\n".join(data.strip().split('\n'))`. */
  function Markdown(data: string): string
  {
    Join("\n\n", Split(Strip(data), '\n'))
  }

  /** What `save_data` writes: the Markdown form for a `.md` path, the text as is otherwise. */
  function SavedText(path: string, data: string): string
  {
    if |path| >= 3 && path[|path| - 3..] == ".md" then Markdown(data) else data
  }

  /** The number of occurrences of `c` in `s`. */
  function Count(s: string, c: char): nat
    decreases |s|
  {
    if s == [] then 0 else (if s[0] == c then 1 else 0) + Count(s[1..], c)
  }

  /** The Markdown text is the trimmed text with every line break doubled: it is one
      character longer per line break, and a single line is left as it is. */
  lemma MarkdownDoublesLineBreaks(data: string)
    ensures Markdown(data) == Replace(Strip(data), '\n', "\n\n")
    ensures |Markdown(data)| == |Strip(data)| + Count(Strip(data), '\n')
    ensures '\n' !in Strip(data) ==> Markdown(data) == Strip(data)
  {
    JoinSplitIsReplace(Strip(data), '\n', "\n\n");
    ReplaceLength(Strip(data), '\n', "\n\n");
    if '\n' !in Strip(data) {
      SplitNoSeparator(Strip(data), '\n');
    }
  }

  lemma {:induction false} ReplaceLength(s: string, c: char, rep: string)
    ensures |Replace(s, c, rep)| == |s| + Count(s, c) * (|rep| - 1)
    decreases |s|
  {
    if s != [] {
      ReplaceLength(s[1..], c, rep);
    }
  }

  /** Markdown output never begins or ends with white space. */
  lemma MarkdownIsTrimmed(data: string)
    ensures var m := Markdown(data); m != [] ==> !IsSpace(m[0]) && !IsSpace(m[|m| - 1])
  {
    MarkdownDoublesLineBreaks(data);
    DoublingKeepsTrim(Strip(data));
  }

  /** Doubling the line breaks of a text with no white space at its ends adds none there. */
  lemma DoublingKeepsTrim(t: string)
    requires t == [] || (!IsSpace(t[0]) && !IsSpace(t[|t| - 1]))
    ensures var r := Replace(t, '\n', "\n\n"); r != [] ==> !IsSpace(r[0]) && !IsSpace(r[|r| - 1])
  {
    if t != [] {
      ReplaceEnds(t, '\n', "\n\n");
    }
  }

  /** Replacing in a concatenation replaces in each part. */
  lemma {:induction false} ReplaceConcat(a: string, b: string, c: char, rep: string)
    ensures Replace(a + b, c, rep) == Replace(a, c, rep) + Replace(b, c, rep)
    decreases |a|
  {
    if a != [] {
      ReplaceConcat(a[1..], b, c, rep);
      assert (a + b)[1..] == a[1..] + b;
      assert (a + b)[0] == a[0];
    } else {
      assert a + b == b;
    }
  }

  /** Replacing a character that is not at either end keeps both ends. */
  lemma ReplaceEnds(s: string, c: char, rep: string)
    requires s != [] && s[0] != c && s[|s| - 1] != c
    ensures var r := Replace(s, c, rep); r != [] && r[0] == s[0] && r[|r| - 1] == s[|s| - 1]
  {
    var n := |s|;
    ReplaceConcat(s[..n - 1], [s[n - 1]], c, rep);
    assert s[..n - 1] + [s[n - 1]] == s;
    assert Replace([s[n - 1]], c, rep) == [s[n - 1]];
  }
}
