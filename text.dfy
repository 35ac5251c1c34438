/**
 * The text side of `extract_text_from_pdf`: PyMuPDF yields, page by page, the
 * words of the page; the function joins them and then normalises the result
 * with `replace("\n", " ")`, `replace("  ", " ")` and `strip()`.
 */
module TextExtraction {
  import opened Strings

  /** Python's `str.isspace()` on one character. */
  predicate IsSpace(c: char) {
    || c == ' '
    || '\t' <= c <= '\r'
    || '\U{1C}' <= c <= '\U{1F}'
    || c == '\U{85}' || c == '\U{A0}' || c == '\U{1680}'
    || '\U{2000}' <= c <= '\U{200A}'
    || c == '\U{2028}' || c == '\U{2029}' || c == '\U{202F}' || c == '\U{205F}' || c == '\U{3000}'
  }

  /** On ASCII, `isspace()` holds exactly for the blank, `\t \n \v \f \r` and the four separators `\x1c`-`\x1f`. */
  lemma IsSpaceAscii(c: char)
    requires c < '\U{80}'
    ensures IsSpace(c) <==> c in [' ', '\t', '\n', '\U{B}', '\U{C}', '\r', '\U{1C}', '\U{1D}', '\U{1E}', '\U{1F}']
  {
  }

  ghost predicate AllSpace(s: string) {
    forall i :: 0 <= i < |s| ==> IsSpace(s[i])
  }

  /** A string of `k` blanks. */
  function Spaces(k: nat): (s: string)
    ensures |s| == k
  {
    seq(k, _ => ' ')
  }

  /** `" ".join(words)`. */
  function JoinWords(words: seq<string>): string {
    if |words| == 0 then ""
    else if |words| == 1 then words[0]
    else JoinWords(words[..|words| - 1]) + " " + words[|words| - 1]
  }

  /** The text accumulated by the page loop: each page's joined words followed by one blank. */
  function RawText(pages: seq<seq<string>>): string {
    if |pages| == 0 then ""
    else RawText(pages[..|pages| - 1]) + JoinWords(pages[|pages| - 1]) + " "
  }

  /** Every word of a page occurs in the page's joined text. */
  lemma {:induction false} WordInJoin(words: seq<string>, k: nat)
    requires k < |words|
    ensures IsSubstring(words[k], JoinWords(words))
    decreases |words|
  {
    var n := |words| - 1;
    if n == 0 {
      assert OccursAt(words[0], words[0], 0);
    } else {
      var front := JoinWords(words[..n]);
      if k < n {
        WordInJoin(words[..n], k);
        assert words[..n][k] == words[k];
        SubstringInConcat(words[k], front, " ");
        SubstringInConcat(words[k], front + " ", words[n]);
      } else {
        assert OccursAt(words[n], words[n], 0);
        SubstringInConcat(words[k], front + " ", words[n]);
      }
    }
  }

  /** Every word of every page occurs in the text the page loop accumulates. */
  lemma {:induction false} WordInRawText(pages: seq<seq<string>>, p: nat, k: nat)
    requires p < |pages| && k < |pages[p]|
    ensures IsSubstring(pages[p][k], RawText(pages))
    decreases |pages|
  {
    var n := |pages| - 1;
    var front := RawText(pages[..n]);
    var w := pages[p][k];
    if p < n {
      WordInRawText(pages[..n], p, k);
      assert pages[..n][p] == pages[p];
      SubstringInConcat(w, front, JoinWords(pages[n]));
    } else {
      WordInJoin(pages[n], k);
      SubstringInConcat(w, front, JoinWords(pages[n]));
    }
    SubstringInConcat(w, front + JoinWords(pages[n]), " ");
  }

  /** `s.replace("\n", " ")`. */
  function ReplaceNewlines(s: string): (r: string)
    ensures |r| == |s| && '\n' !in r
    ensures forall i :: 0 <= i < |s| && s[i] != '\n' ==> r[i] == s[i]
    ensures forall i :: 0 <= i < |s| && s[i] == '\n' ==> r[i] == ' '
  {
    seq(|s|, i requires 0 <= i < |s| => if s[i] == '\n' then ' ' else s[i])
  }

  /**
   * `s.replace("  ", " ")`: one left-to-right pass over non-overlapping
   * occurrences, so the result never grows and holds no new character.
   */
  function CollapseDoubleSpaces(s: string): (r: string)
    ensures |r| <= |s|
    ensures forall c :: c in r ==> c in s
  {
    if |s| == 0 then ""
    else if |s| >= 2 && s[0] == ' ' && s[1] == ' ' then " " + CollapseDoubleSpaces(s[2..])
    else [s[0]] + CollapseDoubleSpaces(s[1..])
  }

  /** The number of whitespace characters `lstrip()` removes. */
  function LeadingSpaces(s: string): (n: nat)
    ensures n <= |s| && AllSpace(s[..n])
    ensures n < |s| ==> !IsSpace(s[n])
  {
    if |s| > 0 && IsSpace(s[0]) then
      var n := 1 + LeadingSpaces(s[1..]);
      assert s[..n] == [s[0]] + s[1..][..n - 1];
      n
    else 0
  }

  /** The number of whitespace characters `rstrip()` removes. */
  function TrailingSpaces(s: string): (n: nat)
    ensures n <= |s| && AllSpace(s[|s| - n..])
    ensures n < |s| ==> !IsSpace(s[|s| - n - 1])
  {
    if |s| > 0 && IsSpace(s[|s| - 1]) then
      var n := 1 + TrailingSpaces(s[..|s| - 1]);
      assert s[|s| - n..] == s[..|s| - 1][|s| - n..] + [s[|s| - 1]];
      n
    else 0
  }

  /**
   * `s.strip()`: the middle part of `s` between a whitespace prefix and a
   * whitespace suffix, neither starting nor ending with whitespace.
   */
  function Strip(s: string): (r: string)
    ensures exists i, j :: 0 <= i <= j <= |s| && r == s[i..j] && AllSpace(s[..i]) && AllSpace(s[j..])
    ensures r == [] || (!IsSpace(r[0]) && !IsSpace(r[|r| - 1]))
  {
    var i := LeadingSpaces(s);
    if i == |s| then
      assert s[i..i] == [] && s[i..] == [];
      ""
    else
      var j := |s| - TrailingSpaces(s[i..]);
      assert s[i..][|s| - i - (|s| - j)..] == s[j..];
      s[i..j]
  }

  /** The normalisation at the end of `extract_text_from_pdf`. */
  function Normalize(raw: string): (text: string)
    ensures '\n' !in text
    ensures text == [] || (!IsSpace(text[0]) && !IsSpace(text[|text| - 1]))
    ensures |text| <= |raw|
  {
    var collapsed := CollapseDoubleSpaces(ReplaceNewlines(raw));
    var text := Strip(collapsed);
    assert '\n' !in text by {
      var i, j :| 0 <= i <= j <= |collapsed| && text == collapsed[i..j];
      assert forall c :: c in text ==> c in collapsed;
    }
    text
  }

  /**
   * `extract_text_from_pdf` once the PDF has been read: the page loop
   * accumulates the joined words of each page, then the text is normalised.
   */
  method ExtractText(pages: seq<seq<string>>) returns (text: string)
    ensures text == Normalize(RawText(pages))
    ensures '\n' !in text
    ensures text == [] || (!IsSpace(text[0]) && !IsSpace(text[|text| - 1]))
    ensures |text| <= |RawText(pages)|
  {
    text := "";
    for p := 0 to |pages|
      invariant text == RawText(pages[..p])
    {
      assert pages[..p + 1][..p] == pages[..p];
      text := text + JoinWords(pages[p]) + " ";
    }
    assert pages[..|pages|] == pages;
    text := ReplaceNewlines(text);
    text := CollapseDoubleSpaces(text);
    text := Strip(text);
  }

  /**
   * One replacement pass does not collapse long blank runs: a run of `k`
   * blanks becomes a run of `ceil(k / 2)` blanks.
   */
  lemma {:induction false} CollapseRun(k: nat)
    ensures CollapseDoubleSpaces(Spaces(k)) == Spaces((k + 1) / 2)
  {
    if k >= 2 {
      assert Spaces(k)[2..] == Spaces(k - 2);
      CollapseRun(k - 2);
      assert " " + Spaces((k - 1) / 2) == Spaces((k + 1) / 2);
    } else if k == 1 {
      assert Spaces(1)[1..] == [];
    }
  }

  /** `s` with every blank removed. */
  function NonBlanks(s: string): string {
    if |s| == 0 then "" else (if s[0] == ' ' then "" else [s[0]]) + NonBlanks(s[1..])
  }

  lemma {:induction false} NonBlanksAppend(a: string, b: string)
    ensures NonBlanks(a + b) == NonBlanks(a) + NonBlanks(b)
    decreases |a|
  {
    if |a| > 0 {
      assert (a + b)[1..] == a[1..] + b;
      NonBlanksAppend(a[1..], b);
    } else {
      assert a + b == b;
    }
  }

  /**
   * The replacement pass only drops blanks: with the blanks taken out, the
   * text is unchanged, so every word survives in order.
   */
  lemma {:induction false} CollapseKeepsNonBlanks(s: string)
    ensures NonBlanks(CollapseDoubleSpaces(s)) == NonBlanks(s)
    decreases |s|
  {
    if |s| >= 2 && s[0] == ' ' && s[1] == ' ' {
      CollapseKeepsNonBlanks(s[2..]);
      NonBlanksAppend(" ", CollapseDoubleSpaces(s[2..]));
      assert s[1..][1..] == s[2..];
    } else if |s| > 0 {
      CollapseKeepsNonBlanks(s[1..]);
      NonBlanksAppend([s[0]], CollapseDoubleSpaces(s[1..]));
    }
  }

  /** A run of `k` blanks before a non-blank character shrinks to `ceil(k / 2)` blanks; the rest is processed on its own. */
  lemma {:induction false} CollapseRunThen(k: nat, c: char, t: string)
    requires c != ' '
    ensures CollapseDoubleSpaces(Spaces(k) + [c] + t) == Spaces((k + 1) / 2) + [c] + CollapseDoubleSpaces(t)
  {
    if k >= 2 {
      var u := [c] + t;
      assert Spaces(k) + [c] + t == Spaces(k - 2 + 2) + u;
      assert Spaces(k - 2) + [c] + t == Spaces(k - 2) + u;
      CollapsePair(k - 2, u);
      CollapseRunThen(k - 2, c, t);
      var ct := CollapseDoubleSpaces(t);
      assert " " + (Spaces((k - 1) / 2) + [c] + ct) == (" " + Spaces((k - 1) / 2)) + [c] + ct;
      assert " " + Spaces((k - 1) / 2) == Spaces((k + 1) / 2);
    } else {
      CollapseNoPair(k, c, t);
    }
  }

  /** Two leading blanks become one, whatever follows. */
  lemma CollapsePair(k: nat, u: string)
    ensures CollapseDoubleSpaces(Spaces(k + 2) + u) == " " + CollapseDoubleSpaces(Spaces(k) + u)
  {
    var s := Spaces(k + 2) + u;
    assert s[0] == ' ' && s[1] == ' ';
    assert s[2..] == Spaces(k) + u;
  }

  /** Zero or one blank before a non-blank character is kept as it is. */
  lemma CollapseNoPair(k: nat, c: char, t: string)
    requires k < 2 && c != ' '
    ensures CollapseDoubleSpaces(Spaces(k) + [c] + t) == Spaces(k) + [c] + CollapseDoubleSpaces(t)
  {
    var s := Spaces(k) + [c] + t;
    if k == 1 {
      assert s == [' ', c] + t;
      assert s[1..] == [c] + t;
      assert CollapseDoubleSpaces(s) == [' '] + CollapseDoubleSpaces([c] + t);
      assert ([c] + t)[1..] == t;
      assert CollapseDoubleSpaces([c] + t) == [c] + CollapseDoubleSpaces(t);
    } else {
      assert s == [c] + t;
      assert s[1..] == t;
    }
  }

  /** Two empty pages between two words leave a double blank in the normalised text. */
  lemma ThreeBlanksSurvive()
    ensures Normalize(RawText([["a"], [], [], ["b"]])) == "a  b"
  {
    RawTextOfGap();
    var raw := "a   b ";
    assert ReplaceNewlines(raw) == raw;
    CollapseGap();
    StripGap();
    assert Normalize(raw) == Strip(CollapseDoubleSpaces(ReplaceNewlines(raw)));
  }

  lemma RawTextOfGap()
    ensures RawText([["a"], [], [], ["b"]]) == "a   b "
  {
    assert [["a"], [], [], ["b"]][..3] == [["a"], [], []];
    assert [["a"], [], []][..2] == [["a"], []];
    assert [["a"], []][..1] == [["a"]];
    assert [["a"]][..0] == [];
  }

  lemma CollapseGap()
    ensures CollapseDoubleSpaces("a   b ") == "a  b "
  {
    assert "a   b "[1..] == "   b ";
    assert "   b "[2..] == " b ";
    assert " b "[1..] == "b " && "b "[1..] == " " && " "[1..] == "";
  }

  lemma StripGap()
    ensures Strip("a  b ") == "a  b"
  {
    var s := "a  b ";
    assert LeadingSpaces(s) == 0;
    assert TrailingSpaces(s[..4]) == 0;
    assert TrailingSpaces(s) == 1;
    assert s[0..][0..4] == "a  b";
  }
}
