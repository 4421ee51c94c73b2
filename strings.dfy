/**
  The Python `str` operations the summariser relies on (`strip`, `lower`,
  `split`, `join`, `in`, `replace(..., 1)`, `center`, `[:n]` and integer
  formatting), restricted to ASCII and written as functions on `string`.
 */
module Strings {

  datatype Option<T> = None | Some(value: T)

  /**
    The six characters `textwrap` treats as whitespace: space, tab, line feed,
    carriage return, vertical tab and form feed. Python's `str.strip` and
    `str.isspace` also count the separators U+001C to U+001F and non-ASCII
    spaces; this model treats those as ordinary characters.
   */
  predicate IsSpace(c: char) {
    c == ' ' || c == '\t' || c == '\n' || c == '\r' || c == '\U{000B}' || c == '\U{000C}'
  }

  /** `not s.strip()`: the string holds only whitespace (or nothing). */
  predicate IsBlank(s: string) {
    forall i :: 0 <= i < |s| ==> IsSpace(s[i])
  }

  function Min(a: int, b: int): int {
    if a <= b then a else b
  }

  function Max(a: int, b: int): int {
    if a <= b then b else a
  }

  /** `s[:n]` */
  function Take(s: string, n: nat): (r: string)
    ensures |r| == Min(|s|, n)
    ensures r == s[..|r|]
  {
    if |s| <= n then s else s[..n]
  }

  /** `c * n` */
  function Repeat(c: char, n: nat): (r: string)
    ensures |r| == n
    ensures forall i :: 0 <= i < n ==> r[i] == c
  {
    seq(n, _ => c)
  }

  function Spaces(n: nat): string {
    Repeat(' ', n)
  }

  /** `str.lstrip()` */
  function LStrip(s: string): (r: string)
    ensures |r| <= |s| && r == s[|s| - |r|..]
    ensures IsBlank(s[..|s| - |r|])
    ensures r == "" || !IsSpace(r[0])
  {
    if |s| > 0 && IsSpace(s[0]) then
      var r := LStrip(s[1..]);
      assert s[..|s| - |r|] == [s[0]] + s[1..][..|s[1..]| - |r|];
      r
    else s
  }

  /** `str.rstrip()` */
  function RStrip(s: string): (r: string)
    ensures |r| <= |s| && r == s[..|r|]
    ensures IsBlank(s[|r|..])
    ensures r == "" || !IsSpace(r[|r| - 1])
  {
    if |s| > 0 && IsSpace(s[|s| - 1]) then
      var r := RStrip(s[..|s| - 1]);
      assert s[|r|..] == s[..|s| - 1][|r|..] + [s[|s| - 1]];
      r
    else s
  }

  /** `str.strip()`: the infix of `s` left once leading and trailing whitespace are removed. */
  function Strip(s: string): (r: string)
    ensures |r| <= |s|
    ensures r == "" || (!IsSpace(r[0]) && !IsSpace(r[|r| - 1]))
    ensures r == "" <==> IsBlank(s)
  {
    var l := LStrip(s);
    var r := RStrip(l);
    assert r == "" ==> IsBlank(s) by {
      if r == "" {
        assert s == s[..|s| - |l|] + l;
        assert IsBlank(l) by { assert l[|r|..] == l; }
      }
    }
    r
  }

  /** Stripping twice is stripping once. */
  lemma StripIdempotent(s: string)
    ensures Strip(Strip(s)) == Strip(s)
  {
    var t := Strip(s);
    assert LStrip(t) == t;
    assert RStrip(t) == t;
  }

  function LowerChar(c: char): char {
    if 'A' <= c <= 'Z' then (c as int + 32) as char else c
  }

  /** `str.lower()` on ASCII letters. */
  function Lower(s: string): (r: string)
    ensures |r| == |s|
    ensures forall i :: 0 <= i < |s| ==> r[i] == LowerChar(s[i])
  {
    seq(|s|, i requires 0 <= i < |s| => LowerChar(s[i]))
  }

  /** `"".join(parts)`, and more generally the flattening of a sequence of sequences. */
  function Concat<T>(parts: seq<seq<T>>): (r: seq<T>)
  {
    if parts == [] then [] else parts[0] + Concat(parts[1..])
  }

  lemma {:induction false} ConcatAppend<T>(a: seq<seq<T>>, b: seq<seq<T>>)
    ensures Concat(a + b) == Concat(a) + Concat(b)
  {
    if a == [] {
      assert a + b == b;
    } else {
      assert (a + b)[1..] == a[1..] + b;
      ConcatAppend(a[1..], b);
    }
  }

  /** `sep.join(parts)` */
  function JoinWith(parts: seq<string>, sep: string): string
  {
    if |parts| == 0 then ""
    else if |parts| == 1 then parts[0]
    else parts[0] + sep + JoinWith(parts[1..], sep)
  }

  /** A join with a separator of two or more parts is the first part, the separator and the join of the rest. */
  lemma {:induction false} JoinWithSnoc(parts: seq<string>, last: string, sep: string)
    requires |parts| >= 1
    ensures JoinWith(parts + [last], sep) == JoinWith(parts, sep) + sep + last
  {
    if |parts| > 1 {
      assert (parts + [last])[1..] == parts[1..] + [last];
      JoinWithSnoc(parts[1..], last, sep);
    }
  }

  /** A join begins with its first part. */
  lemma {:induction false} JoinWithPrefix(parts: seq<string>, sep: string)
    requires |parts| >= 1
    ensures |JoinWith(parts, sep)| >= |parts[0]|
    ensures JoinWith(parts, sep)[..|parts[0]|] == parts[0]
  {
    if |parts| > 1 {
      assert JoinWith(parts, sep) == parts[0] + (sep + JoinWith(parts[1..], sep));
    }
  }

  /** Joining two non-empty runs of parts puts one separator between their joins. */
  lemma {:induction false} JoinWithAppend(a: seq<string>, b: seq<string>, sep: string)
    requires |a| >= 1 && |b| >= 1
    ensures JoinWith(a + b, sep) == JoinWith(a, sep) + sep + JoinWith(b, sep)
  {
    if |a| > 1 {
      assert (a + b)[1..] == a[1..] + b;
      JoinWithAppend(a[1..], b, sep);
    } else {
      assert (a + b)[1..] == b;
    }
  }

  /** Two empty parts between two non-empty runs of parts join to three line feeds. */
  lemma JoinWithBlankPair(a: seq<string>, b: seq<string>)
    requires |a| >= 1 && |b| >= 1
    ensures JoinWith(a + (["", ""] + b), "\n") == JoinWith(a, "\n") + "\n\n\n" + JoinWith(b, "\n")
  {
    JoinWithAppend(a, ["", ""] + b, "\n");
    JoinWithTwoParts("", b, "\n");
    ThreeLineFeeds(JoinWith(a, "\n"), JoinWith(b, "\n"));
  }

  lemma JoinWithTwoParts(e: string, b: seq<string>, sep: string)
    requires |b| >= 1
    ensures JoinWith([e, e] + b, sep) == e + sep + (e + sep + JoinWith(b, sep))
  {
    var u := [e, e] + b;
    assert u[1..][1..] == b;
    assert JoinWith(u[1..], sep) == e + sep + JoinWith(b, sep);
  }

  lemma ThreeLineFeeds(x: string, y: string)
    ensures x + "\n" + ("" + "\n" + ("" + "\n" + y)) == x + "\n\n\n" + y
  {
  }

  /** A line of text: non-empty and without a line feed. */
  predicate SingleLine(s: string) {
    s != "" && '\n' !in s
  }

  /** No two line feeds in a row: the text holds no empty line. */
  predicate NoEmptyLine(s: string) {
    forall k :: 0 <= k < |s| - 1 && s[k] == '\n' ==> s[k + 1] != '\n'
  }

  /** Joining single lines with line feeds leaves no empty line, and the text ends with a line's last character. */
  lemma {:induction false} JoinLinesNoEmptyLine(lines: seq<string>)
    requires |lines| >= 1
    requires forall i :: 0 <= i < |lines| ==> SingleLine(lines[i])
    ensures var t := JoinWith(lines, "\n");
      NoEmptyLine(t) && |t| > 0 && t[|t| - 1] != '\n'
  {
    if |lines| > 1 {
      var first := lines[0];
      var rest := JoinWith(lines[1..], "\n");
      JoinLinesNoEmptyLine(lines[1..]);
      JoinWithPrefix(lines[1..], "\n");
      assert rest[0] == lines[1][0];
      assert lines[1][0] in lines[1];
      var t := JoinWith(lines, "\n");
      assert t == first + "\n" + rest;
      forall k | 0 <= k < |t| - 1 && t[k] == '\n'
        ensures t[k + 1] != '\n'
      {
        if k < |first| {
          assert false;
        } else if k > |first| {
          assert t[k] == rest[k - |first| - 1] && t[k + 1] == rest[k - |first|];
        }
      }
      assert t[|t| - 1] == rest[|rest| - 1];
    } else {
      assert lines[0][|lines[0]| - 1] in lines[0];
    }
  }

  /** A character found neither in the parts nor in the separator is not in their join. */
  lemma {:induction false} JoinWithAvoids(parts: seq<string>, sep: string, c: char)
    requires c !in sep
    requires forall i :: 0 <= i < |parts| ==> c !in parts[i]
    ensures c !in JoinWith(parts, sep)
  {
    if |parts| > 1 {
      JoinWithAvoids(parts[1..], sep, c);
    }
  }

  /** `s.split(c)` for a one-character separator: always at least one part, none holding `c`. */
  function Split(s: string, c: char): (parts: seq<string>)
    ensures |parts| >= 1
    ensures forall i :: 0 <= i < |parts| ==> c !in parts[i]
    decreases |s|
  {
    if |s| == 0 then [""]
    else
      var rest := Split(s[1..], c);
      if s[0] == c then [""] + rest
      else
        var parts := [[s[0]] + rest[0]] + rest[1..];
        assert forall i :: 1 <= i < |parts| ==> parts[i] == rest[i];
        parts
  }

  /** Joining the parts of a split with the separator gives the string back. */
  lemma {:induction false} SplitThenJoin(s: string, c: char)
    ensures JoinWith(Split(s, c), [c]) == s
    decreases |s|
  {
    if |s| > 0 {
      var rest := Split(s[1..], c);
      SplitThenJoin(s[1..], c);
      if s[0] == c {
        assert JoinWith([""] + rest, [c]) == [c] + JoinWith(rest, [c]);
      } else {
        var parts := [[s[0]] + rest[0]] + rest[1..];
        if |rest| == 1 {
          assert JoinWith(parts, [c]) == [s[0]] + rest[0];
        } else {
          assert JoinWith(parts, [c]) == [s[0]] + rest[0] + [c] + JoinWith(rest[1..], [c]);
          assert JoinWith(rest, [c]) == rest[0] + [c] + JoinWith(rest[1..], [c]);
        }
      }
      assert s == [s[0]] + s[1..];
    }
  }

  lemma {:induction false} SplitAppend(p: string, rest: string, c: char)
    requires c !in p
    ensures Split(p + [c] + rest, c) == [p] + Split(rest, c)
    decreases |p|
  {
    if p == [] {
      assert (p + [c] + rest)[1..] == rest;
    } else {
      assert (p + [c] + rest)[1..] == p[1..] + [c] + rest;
      SplitAppend(p[1..], rest, c);
      assert [p[0]] + p[1..] == p;
    }
  }

  /** Splitting at a separator splits the text on each side of it. */
  lemma {:induction false} SplitConcat(a: string, b: string, c: char)
    ensures Split(a + [c] + b, c) == Split(a, c) + Split(b, c)
    decreases |a|
  {
    var s := a + [c] + b;
    if a == [] {
      assert s == [c] + b;
      SplitFirst(s, c);
      assert s[1..] == b;
    } else {
      assert s[0] == a[0];
      assert s[1..] == a[1..] + [c] + b;
      SplitConcat(a[1..], b, c);
      SplitFirst(s, c);
      SplitFirst(a, c);
      PartsAppend(a[0], Split(a[1..], c), Split(b, c));
    }
  }

  /** The parts algebra behind one step of `SplitConcat`. */
  lemma PartsAppend(x: char, r: seq<string>, q: seq<string>)
    requires |r| >= 1
    ensures [""] + (r + q) == ([""] + r) + q
    ensures [[x] + (r + q)[0]] + (r + q)[1..] == ([[x] + r[0]] + r[1..]) + q
  {
    assert (r + q)[0] == r[0];
    assert (r + q)[1..] == r[1..] + q;
  }

  /** One step of a split: a leading separator opens an empty part, any other character joins the first part. */
  lemma SplitFirst(s: string, c: char)
    requires |s| > 0
    ensures var rest := Split(s[1..], c);
      Split(s, c) == if s[0] == c then [""] + rest else [[s[0]] + rest[0]] + rest[1..]
  {
  }

  /** A line feed in front of a text adds one empty line in front of its lines. */
  lemma LeadingBreakLines(t: string)
    ensures Split("\n" + t, '\n') == [""] + Split(t, '\n')
  {
    SplitAppend("", t, '\n');
    assert "" + ['\n'] + t == "\n" + t;
  }

  lemma {:induction false} SplitNoSeparator(p: string, c: char)
    requires c !in p
    ensures Split(p, c) == [p]
    decreases |p|
  {
    if p != [] {
      SplitNoSeparator(p[1..], c);
      assert [p[0]] + p[1..] == p;
    }
  }

  /** Splitting a join of separator-free parts gives the parts back. */
  lemma {:induction false} JoinThenSplit(parts: seq<string>, c: char)
    requires |parts| >= 1
    requires forall i :: 0 <= i < |parts| ==> c !in parts[i]
    ensures Split(JoinWith(parts, [c]), c) == parts
  {
    if |parts| == 1 {
      SplitNoSeparator(parts[0], c);
    } else {
      JoinThenSplit(parts[1..], c);
      SplitAppend(parts[0], JoinWith(parts[1..], [c]), c);
      assert [parts[0]] + parts[1..] == parts;
    }
  }

  /** `s.split('\n')[0]`: the text before the first line feed. */
  function FirstLine(s: string): (r: string)
    ensures |r| <= |s| && r == s[..|r|]
    ensures '\n' !in r
    ensures |r| == |s| || s[|r|] == '\n'
  {
    FirstPartIsPrefix(s, '\n');
    Split(s, '\n')[0]
  }

  lemma {:induction false} FirstPartIsPrefix(s: string, c: char)
    ensures var r := Split(s, c)[0]; |r| <= |s| && r == s[..|r|] && (|r| == |s| || s[|r|] == c)
    decreases |s|
  {
    if |s| > 0 && s[0] != c {
      FirstPartIsPrefix(s[1..], c);
      assert Split(s, c)[0] == [s[0]] + Split(s[1..], c)[0];
    }
  }

  predicate OccursAt(s: string, pat: string, i: nat) {
    i + |pat| <= |s| && s[i..i + |pat|] == pat
  }

  /** `pat in s` */
  predicate Contains(s: string, pat: string) {
    exists i: nat | i <= |s| :: OccursAt(s, pat, i)
  }

  /** `s.find(pat, k)` as an option: the first occurrence at or after `k`. */
  function FindFrom(s: string, pat: string, k: nat): (r: Option<nat>)
    ensures r.Some? ==> k <= r.value && OccursAt(s, pat, r.value)
    ensures r.Some? ==> forall j: nat :: k <= j < r.value ==> !OccursAt(s, pat, j)
    ensures r.None? ==> forall j: nat :: k <= j ==> !OccursAt(s, pat, j)
    decreases |s| - k
  {
    if k + |pat| > |s| then None
    else if s[k..k + |pat|] == pat then Some(k)
    else FindFrom(s, pat, k + 1)
  }

  /** `s.replace(pat, rep, 1)`: only the first occurrence of `pat` is replaced. */
  function ReplaceFirst(s: string, pat: string, rep: string): (r: string)
    ensures !Contains(s, pat) ==> r == s
  {
    match FindFrom(s, pat, 0)
    case None => s
    case Some(i) => s[..i] + rep + s[i + |pat|..]
  }

  /** Where `pat` first occurs at `i`, the replacement swaps exactly that occurrence for `rep`. */
  lemma ReplaceFirstAt(s: string, pat: string, rep: string, i: nat)
    requires OccursAt(s, pat, i)
    requires forall j: nat :: j < i ==> !OccursAt(s, pat, j)
    ensures ReplaceFirst(s, pat, rep) == s[..i] + rep + s[i + |pat|..]
  {
    var found := FindFrom(s, pat, 0);
    assert found.Some?;
    assert found.value <= i;
  }

  function DigitChar(d: nat): char
    requires d < 10
  {
    ('0' as int + d) as char
  }

  /** `str(n)` for a natural number: its decimal digits, most significant first. */
  function NatToString(n: nat): (r: string)
    ensures |r| >= 1
    ensures forall i :: 0 <= i < |r| ==> '0' <= r[i] <= '9'
    decreases n
  {
    if n < 10 then [DigitChar(n)] else NatToString(n / 10) + [DigitChar(n % 10)]
  }

  /** The value of a string of decimal digits. */
  function DigitsValue(s: string): nat
    requires forall i :: 0 <= i < |s| ==> '0' <= s[i] <= '9'
  {
    if s == [] then 0 else 10 * DigitsValue(s[..|s| - 1]) + (s[|s| - 1] as int - '0' as int)
  }

  /** The digits of `n` have no leading zero, and reading them back gives `n`. */
  lemma {:induction false} NatToStringRoundTrip(n: nat)
    ensures var r := NatToString(n); |r| == 1 || r[0] != '0'
    ensures DigitsValue(NatToString(n)) == n
    decreases n
  {
    if n >= 10 {
      NatToStringRoundTrip(n / 10);
      var r := NatToString(n);
      var d := NatToString(n / 10);
      assert r[..|r| - 1] == d;
      assert r[|r| - 1] == DigitChar(n % 10);
      assert 10 * (n / 10) + n % 10 == n;
      assert d[0] != '0' by {
        if |d| == 1 {
          assert n / 10 < 10;
        }
      }
      assert r[0] == d[0];
    }
  }

  /** A string of digits that opens with a digit other than '0' has a value of at least 1. */
  lemma {:induction false} LeadingDigitPositive(s: string)
    requires |s| >= 1 && s[0] != '0'
    requires forall i :: 0 <= i < |s| ==> '0' <= s[i] <= '9'
    ensures DigitsValue(s) >= 1
    decreases |s|
  {
    if |s| > 1 {
      LeadingDigitPositive(s[..|s| - 1]);
    }
  }

  /** Printing the value of a digit string without leading zeros gives the string back. */
  lemma {:induction false} DigitsRoundTrip(s: string)
    requires |s| >= 1 && (|s| == 1 || s[0] != '0')
    requires forall i :: 0 <= i < |s| ==> '0' <= s[i] <= '9'
    ensures NatToString(DigitsValue(s)) == s
    decreases |s|
  {
    var v := DigitsValue(s);
    var init := s[..|s| - 1];
    var last := s[|s| - 1];
    if |s| == 1 {
      assert init == [] && DigitsValue(init) == 0;
      assert v == last as int - '0' as int;
      assert DigitChar(v) == last;
    } else {
      DigitsRoundTrip(init);
      LeadingDigitPositive(init);
      assert v / 10 == DigitsValue(init) && v % 10 == last as int - '0' as int;
      assert s == init + [last];
    }
  }

  /** `f"{n:3d}"`: the digits of `n` right-aligned in a field of three. */
  function Pad3(n: nat): (r: string)
  {
    var d := NatToString(n);
    if |d| < 3 then Spaces(3 - |d|) + d else d
  }

  lemma Pad3Shape(n: nat)
    ensures var d := NatToString(n); var r := Pad3(n);
      |r| == Max(3, |d|) && r[|r| - |d|..] == d && IsBlank(r[..|r| - |d|])
  {
    var d := NatToString(n);
    var r := Pad3(n);
    if |d| < 3 {
      assert r[|r| - |d|..] == d;
      assert r[..|r| - |d|] == Spaces(3 - |d|);
    }
  }

  /** `s.center(width)` as CPython computes it: the odd space goes left only when both the margin and the width are odd. */
  function Center(s: string, width: nat): (r: string)
  {
    if |s| >= width then s
    else
      var marg := width - |s|;
      var left := marg / 2 + (if marg % 2 == 1 && width % 2 == 1 then 1 else 0);
      Spaces(left) + s + Spaces(marg - left)
  }

  /** Centring adds only spaces: a character other than a space is in the centred line only if it is in `s`. */
  lemma CenterAvoids(s: string, width: nat, c: char)
    requires c != ' ' && c !in s
    ensures c !in Center(s, width)
  {
    if |s| < width {
      var marg := width - |s|;
      var left := marg / 2 + (if marg % 2 == 1 && width % 2 == 1 then 1 else 0);
      assert Center(s, width) == Spaces(left) + s + Spaces(marg - left);
    }
  }

  /** A centred line is exactly `width` wide when `s` fits, holds `s` in the middle and is padded with spaces. */
  lemma CenterShape(s: string, width: nat)
    requires |s| <= width
    ensures var r := Center(s, width);
      |r| == width &&
      exists left: nat :: left <= width - |s| && r[left..left + |s|] == s &&
        IsBlank(r[..left]) && IsBlank(r[left + |s|..])
  {
    var r := Center(s, width);
    if |s| == width {
      assert r[0..0 + |s|] == s && r[..0] == [] && r[0 + |s|..] == [];
    } else {
      var marg := width - |s|;
      var left := marg / 2 + (if marg % 2 == 1 && width % 2 == 1 then 1 else 0);
      assert r[left..left + |s|] == s;
      assert r[..left] == Spaces(left);
      assert r[left + |s|..] == Spaces(marg - left);
    }
  }
}
