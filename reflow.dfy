/**
  Paragraph reflow (`format_paragraph` and `format_text_with_paragraphs` in
  summarizer.py). `textwrap.fill` with `break_long_words=False` and
  `break_on_hyphens=False` is modelled as a greedy wrap over the
  whitespace-separated words of the text, each line prefixed by the indent.
 */
module Reflow {
  import opened Strings

  predicate IsWord(w: string) {
    |w| > 0 && forall i :: 0 <= i < |w| ==> !IsSpace(w[i])
  }

  /** The length of the run of non-whitespace characters `s` starts with. */
  function WordLen(s: string): (n: nat)
    ensures n <= |s|
    ensures forall i :: 0 <= i < n ==> !IsSpace(s[i])
    ensures n == |s| || IsSpace(s[n])
  {
    if |s| == 0 || IsSpace(s[0]) then 0 else 1 + WordLen(s[1..])
  }

  /** The words of `s`: its maximal runs of non-whitespace characters, in order. */
  function Words(s: string): (ws: seq<string>)
    ensures forall i :: 0 <= i < |ws| ==> IsWord(ws[i])
    decreases |s|
  {
    if |s| == 0 then []
    else if IsSpace(s[0]) then Words(s[1..])
    else
      var n := WordLen(s);
      [s[..n]] + Words(s[n..])
  }

  /** The words of each part, one after the other. */
  function WordsOfAll(parts: seq<string>): seq<string> {
    Concat(seq(|parts|, i requires 0 <= i < |parts| => Words(parts[i])))
  }

  lemma {:induction false} WordLenAppend(a: string, t: string)
    requires t == [] || IsSpace(t[0])
    ensures WordLen(a + t) == WordLen(a)
    decreases |a|
  {
    if |a| > 0 && !IsSpace(a[0]) {
      assert (a + t)[1..] == a[1..] + t;
      WordLenAppend(a[1..], t);
    }
  }

  /** A whitespace character separates words: the words of `a c b` are those of `a`, then those of `b`. */
  lemma {:induction false} WordsAppend(a: string, c: char, b: string)
    requires IsSpace(c)
    ensures Words(a + [c] + b) == Words(a) + Words(b)
    decreases |a|
  {
    var s := a + [c] + b;
    if |a| == 0 {
      assert s[0] == c && s[1..] == b;
    } else if IsSpace(a[0]) {
      assert s[0] == a[0] && s[1..] == a[1..] + [c] + b;
      WordsAppend(a[1..], c, b);
    } else {
      var n := WordLen(a);
      WordLenAppend(a, [c] + b);
      assert s == a + ([c] + b);
      assert s[0] == a[0] && WordLen(s) == n;
      assert s[..n] == a[..n];
      assert s[n..] == a[n..] + [c] + b;
      WordsAppend(a[n..], c, b);
      assert Words(s) == [a[..n]] + Words(a[n..] + [c] + b);
      assert Words(a) == [a[..n]] + Words(a[n..]);
    }
  }

  lemma {:induction false} WordsOfBlank(s: string)
    requires IsBlank(s)
    ensures Words(s) == []
    decreases |s|
  {
    if |s| > 0 {
      WordsOfBlank(s[1..]);
    }
  }

  /** Text that is not whitespace-only has at least one word. */
  lemma {:induction false} WordsOfNonBlank(s: string)
    requires !IsBlank(s)
    ensures Words(s) != []
    decreases |s|
  {
    if IsSpace(s[0]) {
      assert !IsBlank(s[1..]) by {
        var k :| 0 <= k < |s| && !IsSpace(s[k]);
        assert s[1..][k - 1] == s[k];
      }
      WordsOfNonBlank(s[1..]);
    }
  }

  lemma {:induction false} WordsSkipBlank(p: string, s: string)
    requires IsBlank(p)
    ensures Words(p + s) == Words(s)
    decreases |p|
  {
    if |p| > 0 {
      assert (p + s)[0] == p[0];
      assert (p + s)[1..] == p[1..] + s;
      assert IsBlank(p[1..]) by {
        forall i | 0 <= i < |p[1..]| ensures IsSpace(p[1..][i]) {
          assert p[1..][i] == p[i + 1];
        }
      }
      WordsSkipBlank(p[1..], s);
    } else {
      assert p + s == s;
    }
  }

  lemma WordsOfWord(w: string)
    requires IsWord(w)
    ensures Words(w) == [w]
  {
    assert WordLen(w) == |w|;
    assert w[..|w|] == w;
  }

  lemma {:induction false} WordsOfLStrip(s: string)
    ensures Words(LStrip(s)) == Words(s)
    decreases |s|
  {
    if |s| > 0 && IsSpace(s[0]) {
      WordsOfLStrip(s[1..]);
    }
  }

  lemma {:induction false} WordsOfRStrip(s: string)
    ensures Words(RStrip(s)) == Words(s)
    decreases |s|
  {
    if |s| > 0 && IsSpace(s[|s| - 1]) {
      var init := s[..|s| - 1];
      WordsOfRStrip(init);
      assert s == init + [s[|s| - 1]] + [];
      WordsAppend(init, s[|s| - 1], []);
    }
  }

  /** Stripping the text changes none of its words. */
  lemma WordsOfStrip(s: string)
    ensures Words(Strip(s)) == Words(s)
  {
    WordsOfLStrip(s);
    WordsOfRStrip(LStrip(s));
  }

  /** Joining with a whitespace-only separator keeps every part's words, in order. */
  lemma {:induction false} WordsOfJoin(parts: seq<string>, sep: string)
    requires |sep| > 0 && IsBlank(sep)
    ensures Words(JoinWith(parts, sep)) == WordsOfAll(parts)
  {
    var m := seq(|parts|, i requires 0 <= i < |parts| => Words(parts[i]));
    if |parts| == 0 {
    } else if |parts| == 1 {
      assert Concat(m) == m[0] + Concat(m[1..]);
      assert m[1..] == [];
    } else {
      var rest := JoinWith(parts[1..], sep);
      assert JoinWith(parts, sep) == parts[0] + [sep[0]] + (sep[1..] + rest);
      WordsAppend(parts[0], sep[0], sep[1..] + rest);
      assert IsBlank(sep[1..]) by {
        forall i | 0 <= i < |sep[1..]| ensures IsSpace(sep[1..][i]) {
          assert sep[1..][i] == sep[i + 1];
        }
      }
      WordsSkipBlank(sep[1..], rest);
      WordsOfJoin(parts[1..], sep);
      assert m[1..] == seq(|parts[1..]|, i requires 0 <= i < |parts[1..]| => Words(parts[1..][i]));
    }
  }

  lemma WordsOfAllSnoc(parts: seq<string>, last: string)
    ensures WordsOfAll(parts + [last]) == WordsOfAll(parts) + Words(last)
  {
    var m := seq(|parts|, i requires 0 <= i < |parts| => Words(parts[i]));
    var ps := parts + [last];
    var m' := seq(|ps|, i requires 0 <= i < |ps| => Words(ps[i]));
    assert m' == m + [Words(last)];
    ConcatAppend(m, [Words(last)]);
    assert Concat([Words(last)]) == Words(last) + Concat<string>([]);
  }

  /**
    How many words the line holding `ws[..n]`, `len` characters long, ends up
    with: the next word joins it while the line plus a space plus that word
    still fits in `cap`.
   */
  function Fill(ws: seq<string>, cap: int, len: int, n: nat): (m: nat)
    requires 1 <= n <= |ws|
    ensures n <= m <= |ws|
    decreases |ws| - n
  {
    if n < |ws| && len + 1 + |ws[n]| <= cap then Fill(ws, cap, len + 1 + |ws[n]|, n + 1) else n
  }

  /** The greedy wrap: each line takes as many of the following words as fit, and at least one. */
  function Wrap(ws: seq<string>, cap: int): (lines: seq<seq<string>>)
    decreases |ws|
  {
    if ws == [] then []
    else
      var n := Fill(ws, cap, |ws[0]|, 1);
      [ws[..n]] + Wrap(ws[n..], cap)
  }

  lemma {:induction false} FillFits(ws: seq<string>, cap: int, len: int, n: nat)
    requires 1 <= n <= |ws|
    requires len == |JoinWith(ws[..n], " ")|
    ensures var m := Fill(ws, cap, len, n);
      (len <= cap ==> |JoinWith(ws[..m], " ")| <= cap) &&
      (m < |ws| ==> |JoinWith(ws[..m], " ")| + 1 + |ws[m]| > cap) &&
      (len > cap ==> m == n)
    decreases |ws| - n
  {
    if n < |ws| && len + 1 + |ws[n]| <= cap {
      assert ws[..n + 1] == ws[..n] + [ws[n]];
      JoinWithSnoc(ws[..n], ws[n], " ");
      FillFits(ws, cap, len + 1 + |ws[n]|, n + 1);
    }
  }

  /**
    Groups of words as the greedy wrap leaves them: every group holds at least
    one word and fits in `cap` unless it holds a single longer word, and no
    group could have taken the first word of the next one.
   */
  predicate Greedy(groups: seq<seq<string>>, cap: int) {
    (forall i :: 0 <= i < |groups| ==>
      |groups[i]| >= 1 && (|JoinWith(groups[i], " ")| <= cap || |groups[i]| == 1)) &&
    (forall i :: 0 <= i < |groups| - 1 ==> TooFullFor(groups, i, cap))
  }

  /** Group `i` plus a space plus the first word of group `i + 1` would not fit in `cap`. */
  predicate TooFullFor(groups: seq<seq<string>>, i: nat, cap: int)
    requires i + 1 < |groups|
  {
    |groups[i + 1]| >= 1 && |JoinWith(groups[i], " ")| + 1 + |groups[i + 1][0]| > cap
  }

  /** A group that obeys the rule, put in front of greedy groups, keeps them greedy. */
  lemma GreedyCons(first: seq<string>, rest: seq<seq<string>>, cap: int)
    requires Greedy(rest, cap)
    requires |first| >= 1 && (|JoinWith(first, " ")| <= cap || |first| == 1)
    requires rest != [] ==> |JoinWith(first, " ")| + 1 + |rest[0][0]| > cap
    ensures Greedy([first] + rest, cap)
  {
    var gs := [first] + rest;
    forall i | 0 <= i < |gs|
      ensures |gs[i]| >= 1 && (|JoinWith(gs[i], " ")| <= cap || |gs[i]| == 1)
    {
      if i > 0 {
        assert gs[i] == rest[i - 1];
      }
    }
    forall i | 0 <= i < |gs| - 1
      ensures TooFullFor(gs, i, cap)
    {
      if i > 0 {
        assert gs[i] == rest[i - 1] && gs[i + 1] == rest[i];
        assert TooFullFor(rest, i - 1, cap);
      }
    }
  }

  /** The greedy wrap keeps every word, in order, and its groups are `Greedy`. */
  lemma {:induction false} WrapSound(ws: seq<string>, cap: int)
    ensures Concat(Wrap(ws, cap)) == ws
    ensures Greedy(Wrap(ws, cap), cap)
    decreases |ws|
  {
    if ws != [] {
      var n := Fill(ws, cap, |ws[0]|, 1);
      assert ws[..1] == [ws[0]];
      FillFits(ws, cap, |ws[0]|, 1);
      var rest := Wrap(ws[n..], cap);
      WrapSound(ws[n..], cap);
      assert Wrap(ws, cap) == [ws[..n]] + rest;
      assert Concat([ws[..n]] + rest) == ws[..n] + Concat(rest);
      assert ws == ws[..n] + ws[n..];
      if rest != [] {
        assert rest[0] == ws[n..][..Fill(ws[n..], cap, |ws[n..][0]|, 1)];
        assert rest[0][0] == ws[n];
      }
      GreedyCons(ws[..n], rest, cap);
    }
  }

  /** Each group of words as a printed line: the indent, then the words joined by single spaces. */
  function RenderLines(groups: seq<seq<string>>, indent: nat): (lines: seq<string>)
    ensures |lines| == |groups|
  {
    seq(|groups|, i requires 0 <= i < |groups| => Spaces(indent) + JoinWith(groups[i], " "))
  }

  /**
    `format_paragraph(text, width, indent)`: "" for whitespace-only text,
    otherwise `textwrap.fill` of the stripped text with the same indent on
    every line.
   */
  function FormatParagraph(text: string, width: nat, indent: nat): string
    requires width > 0
  {
    if IsBlank(text) then ""
    else JoinWith(ParagraphLines(text, width, indent), "\n")
  }

  /** A line of wrapped output: `indent` spaces, then a word; within `width` unless it holds one longer word. */
  predicate WrappedLine(line: string, width: nat, indent: nat) {
    |line| > indent && line[..indent] == Spaces(indent) && !IsSpace(line[indent]) &&
    (|line| <= width || |Words(line)| == 1)
  }

  lemma RenderedLine(g: seq<string>, indent: nat)
    requires |g| >= 1
    requires forall i :: 0 <= i < |g| ==> IsWord(g[i])
    ensures var line := Spaces(indent) + JoinWith(g, " ");
      Words(line) == g && '\n' !in line &&
      |line| == indent + |JoinWith(g, " ")| &&
      line[..indent] == Spaces(indent) && |line| > indent && !IsSpace(line[indent])
  {
    var j := JoinWith(g, " ");
    var line := Spaces(indent) + j;
    WordsSkipBlank(Spaces(indent), j);
    WordsOfJoin(g, " ");
    assert WordsOfAll(g) == g by {
      var m := seq(|g|, i requires 0 <= i < |g| => Words(g[i]));
      forall i | 0 <= i < |g| ensures m[i] == [g[i]] {
        WordsOfWord(g[i]);
      }
      SingletonsConcat(g, m);
    }
    JoinWithAvoids(g, " ", '\n');
    assert '\n' !in Spaces(indent);
    JoinWithPrefix(g, " ");
    assert line[indent] == j[0] == g[0][0];
  }

  lemma {:induction false} SingletonsConcat(g: seq<string>, m: seq<seq<string>>)
    requires |m| == |g|
    requires forall i :: 0 <= i < |g| ==> m[i] == [g[i]]
    ensures Concat(m) == g
  {
    if g != [] {
      SingletonsConcat(g[1..], m[1..]);
    }
  }

  /** The first word of a line, or "" when it has none. */
  function FirstWord(line: string): string {
    var ws := Words(line);
    if ws == [] then "" else ws[0]
  }

  /** Every word of every group is a word. */
  predicate WordGroups(groups: seq<seq<string>>) {
    forall i, k :: 0 <= i < |groups| && 0 <= k < |groups[i]| ==> IsWord(groups[i][k])
  }

  /**
    Lines as `textwrap.fill` leaves them: none holds a line feed, each is a
    `WrappedLine`, and none could have taken the first word of the next one.
   */
  predicate WrappedLines(lines: seq<string>, width: nat, indent: nat) {
    (forall i :: 0 <= i < |lines| ==> '\n' !in lines[i] && WrappedLine(lines[i], width, indent)) &&
    (forall i :: 0 <= i < |lines| - 1 ==> |lines[i]| + 1 + |FirstWord(lines[i + 1])| > width)
  }

  /** Printing greedy groups of words gives wrapped lines holding the same words. */
  lemma RenderSound(groups: seq<seq<string>>, width: nat, indent: nat)
    requires WordGroups(groups) && Greedy(groups, width - indent)
    ensures WrappedLines(RenderLines(groups, indent), width, indent)
    ensures WordsOfAll(RenderLines(groups, indent)) == Concat(groups)
  {
    var lines := RenderLines(groups, indent);
    forall i | 0 <= i < |groups|
      ensures Words(lines[i]) == groups[i] && '\n' !in lines[i] &&
        |lines[i]| == indent + |JoinWith(groups[i], " ")| &&
        lines[i][..indent] == Spaces(indent) && |lines[i]| > indent && !IsSpace(lines[i][indent])
    {
      RenderedLine(groups[i], indent);
    }
    forall i | 0 <= i < |lines| - 1
      ensures |lines[i]| + 1 + |FirstWord(lines[i + 1])| > width
    {
      assert TooFullFor(groups, i, width - indent);
      assert FirstWord(lines[i + 1]) == groups[i + 1][0];
    }
    var m := seq(|lines|, i requires 0 <= i < |lines| => Words(lines[i]));
    assert m == groups;
  }

  /** The printed lines of a non-blank paragraph, before they are joined by line feeds. */
  function ParagraphLines(text: string, width: nat, indent: nat): seq<string>
    requires width > 0
  {
    RenderLines(Wrap(Words(Strip(text)), width - indent), indent)
  }

  lemma ParagraphLinesSound(text: string, width: nat, indent: nat)
    requires width > 0 && !IsBlank(text)
    ensures |ParagraphLines(text, width, indent)| >= 1
    ensures WrappedLines(ParagraphLines(text, width, indent), width, indent)
    ensures WordsOfAll(ParagraphLines(text, width, indent)) == Words(text)
  {
    WordsOfStrip(text);
    WordsOfNonBlank(text);
    WrapRenderSound(Words(Strip(text)), width, indent);
  }

  /** Wrapping words into greedy groups and printing them gives wrapped lines holding those words. */
  lemma WrapRenderSound(ws: seq<string>, width: nat, indent: nat)
    requires ws != [] && forall k :: 0 <= k < |ws| ==> IsWord(ws[k])
    ensures |RenderLines(Wrap(ws, width - indent), indent)| >= 1
    ensures WrappedLines(RenderLines(Wrap(ws, width - indent), indent), width, indent)
    ensures WordsOfAll(RenderLines(Wrap(ws, width - indent), indent)) == ws
  {
    var groups := Wrap(ws, width - indent);
    WrapSound(ws, width - indent);
    WordGroupsOfConcat(groups, ws);
    assert Concat<string>([]) == [];
    RenderSound(groups, width, indent);
  }

  /**
    The wrapped paragraph, split into its lines: each line is the indent and a
    run of words within the width (or a single overlong word); each line was
    filled greedily; and the words of all lines are the words of the text, in
    order.
   */
  lemma FormatParagraphSound(text: string, width: nat, indent: nat)
    requires width > 0 && !IsBlank(text)
    ensures var lines := Split(FormatParagraph(text, width, indent), '\n');
      |lines| >= 1 && WrappedLines(lines, width, indent) && WordsOfAll(lines) == Words(text)
  {
    var lines := ParagraphLines(text, width, indent);
    ParagraphLinesSound(text, width, indent);
    assert FormatParagraph(text, width, indent) == JoinWith(lines, "\n");
    JoinThenSplit(lines, '\n');
  }

  lemma WordGroupsOfConcat(groups: seq<seq<string>>, ws: seq<string>)
    requires Concat(groups) == ws
    requires forall k :: 0 <= k < |ws| ==> IsWord(ws[k])
    ensures WordGroups(groups)
  {
    forall i | 0 <= i < |groups|
      ensures forall k :: 0 <= k < |groups[i]| ==> IsWord(groups[i][k])
    {
      ConcatMember(groups, i, ws);
    }
  }

  lemma {:induction false} ConcatMember(groups: seq<seq<string>>, i: nat, ws: seq<string>)
    requires i < |groups|
    requires Concat(groups) == ws
    requires forall k :: 0 <= k < |ws| ==> IsWord(ws[k])
    ensures forall k :: 0 <= k < |groups[i]| ==> IsWord(groups[i][k])
  {
    assert Concat(groups) == groups[0] + Concat(groups[1..]);
    if i == 0 {
      forall k | 0 <= k < |groups[0]| ensures IsWord(groups[0][k]) {
        assert groups[0][k] == ws[k];
      }
    } else {
      var tail := Concat(groups[1..]);
      forall k | 0 <= k < |tail| ensures IsWord(tail[k]) {
        assert tail[k] == ws[|groups[0]| + k];
      }
      ConcatMember(groups[1..], i - 1, tail);
    }
  }

  /** Reflowing a paragraph keeps its words, in order; a paragraph with a word is never empty. */
  lemma FormatParagraphWords(text: string, width: nat, indent: nat)
    requires width > 0
    ensures Words(FormatParagraph(text, width, indent)) == Words(text)
    ensures !IsBlank(text) ==> FormatParagraph(text, width, indent) != ""
  {
    if IsBlank(text) {
      WordsOfBlank(text);
    } else {
      var f := FormatParagraph(text, width, indent);
      FormatParagraphSound(text, width, indent);
      SplitThenJoin(f, '\n');
      WordsOfJoin(Split(f, '\n'), "\n");
      WordsOfNonBlank(text);
    }
  }

  /** A reflowed paragraph starts with the indent and then a word. */
  predicate StartsIndented(s: string, indent: nat) {
    |s| > indent && s[..indent] == Spaces(indent) && !IsSpace(s[indent])
  }

  lemma FormatParagraphIndented(text: string, width: nat, indent: nat)
    requires width > 0 && !IsBlank(text)
    ensures StartsIndented(FormatParagraph(text, width, indent), indent)
  {
    var lines := ParagraphLines(text, width, indent);
    var f := JoinWith(lines, "\n");
    ParagraphLinesSound(text, width, indent);
    assert WrappedLine(lines[0], width, indent);
    JoinWithPrefix(lines, "\n");
    assert f[..indent] == lines[0][..indent];
    assert f[indent] == lines[0][indent];
  }

  /**
    The paragraphs the loop of `format_text_with_paragraphs` collects from
    `paras`: each line is stripped, blank ones are skipped, and the others are
    reflowed, in their original order.
   */
  function FormattedParagraphs(paras: seq<string>, width: nat, indent: nat): seq<string>
    requires width > 0
  {
    if paras == [] then []
    else
      var done := FormattedParagraphs(paras[..|paras| - 1], width, indent);
      var para := Strip(paras[|paras| - 1]);
      if para == "" then done
      else
        var formatted := FormatParagraph(para, width, indent);
        if formatted != "" then done + [formatted] else done
  }

  /** `format_text_with_paragraphs(text, width, indent)` */
  function Paragraphs(text: string, width: nat, indent: nat): string
    requires width > 0
  {
    if IsBlank(text) then "" else JoinWith(FormattedParagraphs(Split(text, '\n'), width, indent), "\n\n")
  }

  /** Appending a paragraph after a blank line adds exactly that paragraph's words. */
  lemma WordsOfParagraphSnoc(done: seq<string>, f: string)
    requires done != []
    ensures Words(JoinWith(done + [f], "\n\n")) == Words(JoinWith(done, "\n\n")) + Words(f)
  {
    JoinWithSnoc(done, f, "\n\n");
    assert JoinWith(done + [f], "\n\n") == JoinWith(done, "\n\n") + ['\n'] + (['\n'] + f);
    WordsAppend(JoinWith(done, "\n\n"), '\n', ['\n'] + f);
    WordsSkipBlank(['\n'], f);
  }

  /** The collected paragraphs, joined by blank lines, hold the words of the lines they came from. */
  lemma {:induction false} FormattedParagraphsWords(paras: seq<string>, width: nat, indent: nat)
    requires width > 0
    ensures Words(JoinWith(FormattedParagraphs(paras, width, indent), "\n\n")) == WordsOfAll(paras)
    decreases |paras|
  {
    if paras != [] {
      var init := paras[..|paras| - 1];
      var last := paras[|paras| - 1];
      assert paras == init + [last];
      FormattedParagraphsWords(init, width, indent);
      WordsOfAllSnoc(init, last);
      var done := FormattedParagraphs(init, width, indent);
      var para := Strip(last);
      WordsOfStrip(last);
      if para == "" {
        WordsOfBlank(para);
      } else {
        FormatParagraphWords(para, width, indent);
        StripIdempotent(last);
        if done == [] {
          assert WordsOfAll(init) == [];
        } else {
          WordsOfParagraphSnoc(done, FormatParagraph(para, width, indent));
        }
      }
    }
  }

  /** Every collected paragraph starts with the indent and a word. */
  lemma {:induction false} FormattedParagraphsIndented(paras: seq<string>, width: nat, indent: nat)
    requires width > 0
    ensures forall i :: 0 <= i < |FormattedParagraphs(paras, width, indent)| ==>
      StartsIndented(FormattedParagraphs(paras, width, indent)[i], indent)
    decreases |paras|
  {
    if paras != [] {
      var init := paras[..|paras| - 1];
      FormattedParagraphsIndented(init, width, indent);
      var done := FormattedParagraphs(init, width, indent);
      var para := Strip(paras[|paras| - 1]);
      var all := FormattedParagraphs(paras, width, indent);
      if para != "" {
        StripIdempotent(paras[|paras| - 1]);
        var f := FormatParagraph(para, width, indent);
        FormatParagraphIndented(para, width, indent);
        assert all == if f != "" then done + [f] else done;
        forall i | 0 <= i < |all| ensures StartsIndented(all[i], indent) {
          if i < |done| {
            assert all[i] == done[i];
          } else {
            assert all[i] == f;
          }
        }
      } else {
        assert all == done;
      }
    }
  }

  /** Reflowing the whole text keeps its words, in their original order. */
  lemma ParagraphsWords(text: string, width: nat, indent: nat)
    requires width > 0
    ensures Words(Paragraphs(text, width, indent)) == Words(text)
  {
    if IsBlank(text) {
      WordsOfBlank(text);
    } else {
      var paras := Split(text, '\n');
      FormattedParagraphsWords(paras, width, indent);
      SplitThenJoin(text, '\n');
      WordsOfJoin(paras, "\n");
    }
  }

  /**
    What `format_text_with_paragraphs` promises beyond keeping the words: the
    result is "" exactly when the text is whitespace-only, and otherwise starts
    with the indent and a word.
   */
  lemma ParagraphsShape(text: string, width: nat, indent: nat)
    requires width > 0
    ensures Paragraphs(text, width, indent) == "" <==> IsBlank(text)
    ensures Paragraphs(text, width, indent) == "" || StartsIndented(Paragraphs(text, width, indent), indent)
  {
    if !IsBlank(text) {
      var r := Paragraphs(text, width, indent);
      ParagraphsWords(text, width, indent);
      WordsOfNonBlank(text);
      assert Words(r) != [];
      assert Words("") == [];
      var fs := FormattedParagraphs(Split(text, '\n'), width, indent);
      assert r == JoinWith(fs, "\n\n");
      assert fs != [] by { assert JoinWith([], "\n\n") == ""; }
      FormattedParagraphsIndented(Split(text, '\n'), width, indent);
      assert StartsIndented(fs[0], indent);
      JoinWithPrefix(fs, "\n\n");
      assert r[..|fs[0]|] == fs[0];
      assert r[..indent] == fs[0][..indent];
      assert r[indent] == fs[0][indent];
    }
  }

  /**
    Lines as `format_text_with_paragraphs` lays them out: each is empty or a
    wrapped line with the indent, no two empty lines follow each other, and the
    first and last lines are not empty, so paragraphs are separated by exactly
    one blank line.
   */
  predicate ParagraphLayout(lines: seq<string>, width: nat, indent: nat) {
    |lines| >= 1 && lines[0] != "" && lines[|lines| - 1] != "" &&
    (forall k :: 0 <= k < |lines| ==> lines[k] == "" || WrappedLine(lines[k], width, indent)) &&
    (forall k :: 0 <= k < |lines| - 1 ==> lines[k] != "" || lines[k + 1] != "")
  }

  /** A reflowed paragraph: its lines are wrapped lines. */
  predicate Reflowed(f: string, width: nat, indent: nat) {
    WrappedLines(Split(f, '\n'), width, indent)
  }

  /** The lines of one reflowed paragraph are laid out as one paragraph. */
  lemma ReflowedLayout(f: string, width: nat, indent: nat)
    requires Reflowed(f, width, indent)
    ensures ParagraphLayout(Split(f, '\n'), width, indent)
  {
  }

  /** Two laid-out runs of lines with one empty line between them are laid out. */
  lemma LayoutAppend(a: seq<string>, b: seq<string>, width: nat, indent: nat)
    requires ParagraphLayout(a, width, indent) && ParagraphLayout(b, width, indent)
    ensures ParagraphLayout(a + [""] + b, width, indent)
  {
    var l := a + [""] + b;
    forall k | 0 <= k < |l| - 1
      ensures l[k] != "" || l[k + 1] != ""
    {
      if k < |a| - 1 {
        assert l[k] == a[k] && l[k + 1] == a[k + 1];
      } else if k > |a| {
        assert l[k] == b[k - |a| - 1] && l[k + 1] == b[k - |a|];
      }
    }
  }

  /** Joining one more paragraph adds an empty line and its lines. */
  lemma JoinedLines(init: seq<string>, last: string)
    requires |init| >= 1
    ensures Split(JoinWith(init + [last], "\n\n"), '\n') ==
      Split(JoinWith(init, "\n\n"), '\n') + [""] + Split(last, '\n')
  {
    JoinWithSnoc(init, last, "\n\n");
    var j := JoinWith(init, "\n\n");
    var tail := "\n" + last;
    assert j + "\n\n" + last == j + ['\n'] + tail;
    SplitConcat(j, tail, '\n');
    LeadingBreakLines(last);
  }

  /** Reflowed paragraphs joined by blank lines are laid out. */
  lemma {:induction false} JoinedLayout(fs: seq<string>, width: nat, indent: nat)
    requires |fs| >= 1
    requires forall i :: 0 <= i < |fs| ==> Reflowed(fs[i], width, indent)
    ensures ParagraphLayout(Split(JoinWith(fs, "\n\n"), '\n'), width, indent)
    decreases |fs|
  {
    var last := fs[|fs| - 1];
    ReflowedLayout(last, width, indent);
    if |fs| > 1 {
      var init := fs[..|fs| - 1];
      assert fs == init + [last];
      JoinedLayout(init, width, indent);
      JoinedLines(init, last);
      LayoutAppend(Split(JoinWith(init, "\n\n"), '\n'), Split(last, '\n'), width, indent);
    }
  }

  /** A paragraph the loop keeps is reflowed. */
  lemma KeptParagraphReflowed(line: string, width: nat, indent: nat)
    requires width > 0 && Strip(line) != ""
    ensures Reflowed(FormatParagraph(Strip(line), width, indent), width, indent)
  {
    FormatParagraphSound(Strip(line), width, indent);
  }

  /** Every paragraph the loop collects is reflowed. */
  lemma {:induction false} FormattedParagraphsReflowed(paras: seq<string>, width: nat, indent: nat)
    requires width > 0
    ensures forall i :: 0 <= i < |FormattedParagraphs(paras, width, indent)| ==>
      Reflowed(FormattedParagraphs(paras, width, indent)[i], width, indent)
    decreases |paras|
  {
    if paras != [] {
      var init := paras[..|paras| - 1];
      FormattedParagraphsReflowed(init, width, indent);
      var done := FormattedParagraphs(init, width, indent);
      var para := Strip(paras[|paras| - 1]);
      var all := FormattedParagraphs(paras, width, indent);
      if para != "" {
        var f := FormatParagraph(para, width, indent);
        KeptParagraphReflowed(paras[|paras| - 1], width, indent);
        assert all == if f != "" then done + [f] else done;
        forall i | 0 <= i < |all| ensures Reflowed(all[i], width, indent) {
          if i < |done| {
            assert all[i] == done[i];
          }
        }
      } else {
        assert all == done;
      }
    }
  }

  /**
    The lines of `format_text_with_paragraphs` for a text that is not
    whitespace-only: every line is empty or a line wrapped to `width` with the
    indent, and the paragraphs are separated by exactly one empty line.
   */
  lemma ParagraphsLayout(text: string, width: nat, indent: nat)
    requires width > 0 && !IsBlank(text)
    ensures ParagraphLayout(Split(Paragraphs(text, width, indent), '\n'), width, indent)
  {
    var fs := FormattedParagraphs(Split(text, '\n'), width, indent);
    ParagraphsShape(text, width, indent);
    assert fs != [] by { assert JoinWith([], "\n\n") == ""; }
    FormattedParagraphsReflowed(Split(text, '\n'), width, indent);
    JoinedLayout(fs, width, indent);
  }

  /** The lines that are not whitespace-only, in their original order: the paragraphs of a text. */
  function NonBlankLines(lines: seq<string>): seq<string> {
    if lines == [] then []
    else
      var done := NonBlankLines(lines[..|lines| - 1]);
      if IsBlank(lines[|lines| - 1]) then done else done + [lines[|lines| - 1]]
  }

  /** Stripping a paragraph before reflowing it changes nothing: `format_paragraph` strips it anyway. */
  lemma FormatParagraphStripped(text: string, width: nat, indent: nat)
    requires width > 0
    ensures FormatParagraph(Strip(text), width, indent) == FormatParagraph(text, width, indent)
  {
    StripIdempotent(text);
  }

  /** Each paragraph reflowed on its own, in order: block `k` is paragraph `k`, reflowed. */
  function ReflowEach(paras: seq<string>, width: nat, indent: nat): (bs: seq<string>)
    requires width > 0
    ensures |bs| == |paras|
    ensures forall k :: 0 <= k < |paras| ==> bs[k] == FormatParagraph(paras[k], width, indent)
  {
    if paras == [] then []
    else ReflowEach(paras[..|paras| - 1], width, indent) + [FormatParagraph(paras[|paras| - 1], width, indent)]
  }

  /** Every non-blank line stripped and reflowed on its own, one block per paragraph, in order. */
  function ReflowedBlocks(lines: seq<string>, width: nat, indent: nat): seq<string>
    requires width > 0
  {
    ReflowEach(NonBlankLines(lines), width, indent)
  }

  /** The lines of some blocks, with exactly one empty line between two blocks. */
  function BlockLines(blocks: seq<string>): seq<string> {
    if blocks == [] then []
    else if |blocks| == 1 then Split(blocks[0], '\n')
    else BlockLines(blocks[..|blocks| - 1]) + [""] + Split(blocks[|blocks| - 1], '\n')
  }

  /** A reflowed paragraph is not empty and holds no empty line. */
  lemma ReflowedHasNoEmptyLine(f: string, width: nat, indent: nat)
    requires Reflowed(f, width, indent)
    ensures f != "" && "" !in Split(f, '\n')
  {
    var ls := Split(f, '\n');
    assert forall k :: 0 <= k < |ls| ==> ls[k] != "";
    FirstPartIsPrefix(f, '\n');
  }

  /** One more line adds its reflowed block, unless it is whitespace-only. */
  lemma ReflowedBlocksSnoc(lines: seq<string>, width: nat, indent: nat)
    requires width > 0 && lines != []
    ensures var line := lines[|lines| - 1];
      ReflowedBlocks(lines, width, indent) ==
        ReflowedBlocks(lines[..|lines| - 1], width, indent) +
        (if IsBlank(line) then [] else [FormatParagraph(Strip(line), width, indent)])
  {
    var line := lines[|lines| - 1];
    var nbInit := NonBlankLines(lines[..|lines| - 1]);
    if !IsBlank(line) {
      assert (nbInit + [line])[..|nbInit|] == nbInit;
      FormatParagraphStripped(line, width, indent);
    }
  }

  /**
    The loop keeps one block per paragraph: the blocks it collects are the
    non-blank lines, each stripped and reflowed, in their original order.
   */
  lemma {:induction false} FormattedParagraphsBlocks(paras: seq<string>, width: nat, indent: nat)
    requires width > 0
    ensures FormattedParagraphs(paras, width, indent) == ReflowedBlocks(paras, width, indent)
    decreases |paras|
  {
    if paras != [] {
      var init := paras[..|paras| - 1];
      var line := paras[|paras| - 1];
      FormattedParagraphsBlocks(init, width, indent);
      ReflowedBlocksSnoc(paras, width, indent);
      if IsBlank(line) {
        assert Strip(line) == "";
      } else {
        KeptParagraphReflowed(line, width, indent);
        ReflowedHasNoEmptyLine(FormatParagraph(Strip(line), width, indent), width, indent);
      }
    }
  }

  /** Blocks joined by blank lines split into their lines with one empty line between two blocks. */
  lemma {:induction false} JoinedBlockLines(blocks: seq<string>)
    requires |blocks| >= 1
    ensures Split(JoinWith(blocks, "\n\n"), '\n') == BlockLines(blocks)
    decreases |blocks|
  {
    if |blocks| > 1 {
      var init := blocks[..|blocks| - 1];
      assert blocks == init + [blocks[|blocks| - 1]];
      JoinedBlockLines(init);
      JoinedLines(init, blocks[|blocks| - 1]);
    }
  }

  /**
    `format_text_with_paragraphs` preserves the paragraph breaks: for a text that
    is not whitespace-only, the result is the non-blank lines, each stripped and
    reflowed on its own and in order, joined by blank lines. No block holds an
    empty line, so the empty lines of the result are exactly the breaks between
    paragraphs.
   */
  lemma ParagraphBlocks(text: string, width: nat, indent: nat)
    requires width > 0 && !IsBlank(text)
    ensures var bs := ReflowedBlocks(Split(text, '\n'), width, indent);
      var nb := NonBlankLines(Split(text, '\n'));
      |bs| >= 1 && |bs| == |nb| &&
      (forall k :: 0 <= k < |nb| ==> bs[k] == FormatParagraph(Strip(nb[k]), width, indent)) &&
      Paragraphs(text, width, indent) == JoinWith(bs, "\n\n") &&
      Split(Paragraphs(text, width, indent), '\n') == BlockLines(bs) &&
      (forall k :: 0 <= k < |bs| ==> "" !in Split(bs[k], '\n'))
  {
    var paras := Split(text, '\n');
    var bs := ReflowedBlocks(paras, width, indent);
    FormattedParagraphsBlocks(paras, width, indent);
    ParagraphsShape(text, width, indent);
    assert bs != [] by { assert JoinWith([], "\n\n") == ""; }
    JoinedBlockLines(bs);
    var nb := NonBlankLines(paras);
    forall k | 0 <= k < |nb| ensures bs[k] == FormatParagraph(Strip(nb[k]), width, indent) {
      FormatParagraphStripped(nb[k], width, indent);
    }
    FormattedParagraphsReflowed(paras, width, indent);
    forall k | 0 <= k < |bs| ensures "" !in Split(bs[k], '\n') {
      ReflowedHasNoEmptyLine(bs[k], width, indent);
    }
  }

  /** One more line for the loop: it is stripped, and kept reflowed unless blank. */
  lemma FormattedParagraphsStep(paras: seq<string>, i: nat, width: nat, indent: nat)
    requires i < |paras| && width > 0
    ensures var done := FormattedParagraphs(paras[..i], width, indent);
      var para := Strip(paras[i]);
      FormattedParagraphs(paras[..i + 1], width, indent) ==
        if para != "" && FormatParagraph(para, width, indent) != ""
        then done + [FormatParagraph(para, width, indent)] else done
  {
    assert paras[..i + 1][..i] == paras[..i];
  }

  /** `format_text_with_paragraphs`: the loop over the lines of the text. */
  method FormatTextWithParagraphs(text: string, width: nat, indent: nat) returns (r: string)
    requires width > 0
    ensures r == Paragraphs(text, width, indent)
    ensures r == "" <==> IsBlank(text)
    ensures Words(r) == Words(text)
    ensures !IsBlank(text) ==> ParagraphLayout(Split(r, '\n'), width, indent)
    ensures !IsBlank(text) ==> r == JoinWith(ReflowedBlocks(Split(text, '\n'), width, indent), "\n\n")
    ensures !IsBlank(text) ==> Split(r, '\n') == BlockLines(ReflowedBlocks(Split(text, '\n'), width, indent))
  {
    if Strip(text) == "" {
      r := "";
      ParagraphsWords(text, width, indent);
      ParagraphsShape(text, width, indent);
      return;
    }
    var paragraphs := Split(text, '\n');
    var formattedParagraphs: seq<string> := [];
    for i := 0 to |paragraphs|
      invariant formattedParagraphs == FormattedParagraphs(paragraphs[..i], width, indent)
    {
      FormattedParagraphsStep(paragraphs, i, width, indent);
      var para := Strip(paragraphs[i]);
      if para != "" {
        var formatted := FormatParagraph(para, width, indent);
        if formatted != "" {
          formattedParagraphs := formattedParagraphs + [formatted];
        }
      }
    }
    assert paragraphs[..|paragraphs|] == paragraphs;
    r := JoinWith(formattedParagraphs, "\n\n");
    ParagraphsWords(text, width, indent);
    ParagraphsShape(text, width, indent);
    ParagraphsLayout(text, width, indent);
    ParagraphBlocks(text, width, indent);
  }
}
