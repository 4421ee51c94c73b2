/**
  The paginated PDF writer of main.py (`write_summary_pdf`, `chunk_text_for_pdf`).
  The drawing canvas is a log of the operations drawn on it; the page geometry
  (the top line `height - margin`, the margin and the page width) is a
  parameter, and the clock reading is passed in. The cursor `y` falls by a
  fixed step per line; inside the checked loops a page break resets it to the
  top whenever it falls below 50.
 */
module PdfRender {
  import opened Strings
  import opened PageSummaries

  /** `chunk_text_for_pdf(text, max_len)`: hard pieces of `max_len` characters and a shorter last piece. */
  function PdfPieces(text: string, maxLen: nat): seq<string>
    requires maxLen > 0 || text == ""
    decreases |text|
  {
    if |text| > maxLen then [text[..maxLen]] + PdfPieces(text[maxLen..], maxLen)
    else if text != "" then [text]
    else []
  }

  /**
    The pieces put back together are the text; every piece but the last is
    exactly `maxLen` long, the last holds 1 to `maxLen` characters, and only
    the empty text has no pieces.
   */
  lemma {:induction false} PdfPiecesSound(text: string, maxLen: nat)
    requires maxLen > 0
    ensures var ps := PdfPieces(text, maxLen);
      Concat(ps) == text &&
      (forall i :: 0 <= i < |ps| - 1 ==> |ps[i]| == maxLen) &&
      (ps != [] ==> 1 <= |ps[|ps| - 1]| <= maxLen) &&
      (ps == [] <==> text == "")
    decreases |text|
  {
    var ps := PdfPieces(text, maxLen);
    if |text| > maxLen {
      var rest := PdfPieces(text[maxLen..], maxLen);
      PdfPiecesSound(text[maxLen..], maxLen);
      assert ps == [text[..maxLen]] + rest;
      assert Concat(ps) == text[..maxLen] + Concat(rest);
      assert text == text[..maxLen] + text[maxLen..];
      forall i | 0 <= i < |ps| - 1
        ensures |ps[i]| == maxLen
      {
        if i > 0 {
          assert ps[i] == rest[i - 1];
        }
      }
    } else if text != "" {
      assert Concat(ps) == text + Concat<char>([]);
    }
  }

  /** `chunk_text_for_pdf`: the loop that cuts `max_len` characters off the front while the rest is longer. */
  method ChunkTextForPdf(text: string, maxLen: nat) returns (res: seq<string>)
    requires maxLen > 0 || text == ""
    ensures res == PdfPieces(text, maxLen)
  {
    res := [];
    var rest := text;
    while |rest| > maxLen
      invariant maxLen > 0 || rest == ""
      invariant res + PdfPieces(rest, maxLen) == PdfPieces(text, maxLen)
      decreases |rest|
    {
      assert PdfPieces(rest, maxLen) == [rest[..maxLen]] + PdfPieces(rest[maxLen..], maxLen);
      res := res + [rest[..maxLen]];
      rest := rest[maxLen..];
    }
    if rest != "" {
      res := res + [rest];
    }
  }

  /** One recorded canvas operation. */
  datatype Op =
    | Draw(x: real, y: real, text: string)
    | DrawRight(x: real, y: real, text: string)
    | PageBreak

  /** The canvas, reduced to the log of what is drawn on it. */
  class Canvas {
    var ops: seq<Op>

    constructor ()
      ensures ops == []
    {
      ops := [];
    }

    /** `c.drawString(x, y, text)` */
    method DrawString(x: real, y: real, text: string)
      modifies this
      ensures ops == old(ops) + [Draw(x, y, text)]
    {
      ops := ops + [Draw(x, y, text)];
    }

    /** `c.drawRightString(x, y, text)` */
    method DrawRightString(x: real, y: real, text: string)
      modifies this
      ensures ops == old(ops) + [DrawRight(x, y, text)]
    {
      ops := ops + [DrawRight(x, y, text)];
    }

    /** `c.showPage()` */
    method ShowPage()
      modifies this
      ensures ops == old(ops) + [PageBreak]
    {
      ops := ops + [PageBreak];
    }
  }

  /** The cursor height and the operations drawn so far. */
  datatype Pen = Pen(y: real, ops: seq<Op>)

  /** Below this height a checked loop starts a new page. */
  const Cutoff: real := 50.0

  /** The page geometry: the top line `height - margin`, the left margin and the page width. */
  datatype Layout = Layout(top: real, margin: real, width: real)

  /** A line drawn inside a checked loop: draw, step down, and break the page below the cutoff. */
  function Checked(pen: Pen, x: real, text: string, step: real, top: real): Pen {
    var ops := pen.ops + [Draw(x, pen.y, text)];
    if pen.y - step < Cutoff then Pen(top, ops + [PageBreak]) else Pen(pen.y - step, ops)
  }

  /** A checked loop over `pieces`, in order. */
  function CheckedLines(pen: Pen, x: real, pieces: seq<string>, step: real, top: real): Pen
    decreases |pieces|
  {
    if pieces == [] then pen
    else Checked(CheckedLines(pen, x, pieces[..|pieces| - 1], step, top), x, pieces[|pieces| - 1], step, top)
  }

  /** A single line drawn without a page-break check. */
  function Unchecked(pen: Pen, x: real, text: string, step: real): Pen {
    Pen(pen.y - step, pen.ops + [Draw(x, pen.y, text)])
  }

  /** `chunk_text_for_pdf(ln, 100)`: the pieces one line of a section is drawn in. */
  function Pieces100(line: string): seq<string> {
    PdfPieces(line, 100)
  }

  /** The pieces drawn for a text: each of its lines cut into 100-character pieces, line after line. */
  function LinePieces(text: string): seq<string> {
    Concat(MapSeq(Split(text, '\n'), Pieces100))
  }

  /** The pieces drawn for one image description. */
  function DescriptionPieces(img: ImageSummary): seq<string> {
    LinePieces(img.desc)
  }

  /** The pieces drawn for the image descriptions, image after image. */
  function DescPieces(imgs: seq<ImageSummary>): seq<string> {
    Concat(MapSeq(imgs, DescriptionPieces))
  }

  /** The index of the last '/', or -1. */
  function LastSlash(path: string): (r: int)
    ensures -1 <= r < |path|
  {
    if path == [] then -1
    else if path[|path| - 1] == '/' then |path| - 1
    else LastSlash(path[..|path| - 1])
  }

  /** `os.path.basename`: the part after the last '/'. */
  function Basename(path: string): string {
    path[LastSlash(path) + 1..]
  }

  /** The base name is a '/'-free end of the path that follows a '/' or is the whole path. */
  lemma {:induction false} BasenameSound(path: string)
    ensures var r := Basename(path);
      '/' !in r && |r| <= |path| && r == path[|path| - |r|..] &&
      (|r| < |path| ==> path[|path| - |r| - 1] == '/')
    decreases |path|
  {
    if path != [] && path[|path| - 1] != '/' {
      var init := path[..|path| - 1];
      var last := path[|path| - 1];
      BasenameSound(init);
      var ri := Basename(init);
      var r := Basename(path);
      assert LastSlash(path) == LastSlash(init);
      assert r == ri + [last];
      assert path[|path| - |r|..] == init[|init| - |ri|..] + [last];
      if |r| < |path| {
        assert path[|path| - |r| - 1] == init[|init| - |ri| - 1];
      }
    }
  }

  /** The header: title and source on the left, the timestamp on the right, then the table-of-contents title. */
  function HeaderPen(layout: Layout, sourceFilename: string, timestamp: string): Pen {
    var top := layout.top;
    Pen(top - 15.0 - 12.0,
        [Draw(layout.margin, top, "Auto PDF Summary \U{2014} Source: " + Basename(sourceFilename)),
         DrawRight(layout.width - layout.margin, top, timestamp),
         Draw(layout.margin, top - 15.0, "Table of contents (page \U{2014} short summary):")])
  }

  /** `f"Page {rec['page_no']}: {rec['combined_short'][:120]}"` */
  function TocLine(rec: PageSummary): string {
    "Page " + NatToString(rec.pageNo) + ": " + Take(rec.combinedShort, 120)
  }

  /** The page after the table of contents. */
  function TocPen(layout: Layout, sourceFilename: string, timestamp: string, records: seq<PageSummary>): Pen {
    CheckedLines(HeaderPen(layout, sourceFilename, timestamp), layout.margin, MapSeq(records, TocLine), 10.0, layout.top)
  }

  /** The text part of a section: the checked text loop, or the placeholder line. */
  function TextPart(pen: Pen, layout: Layout, textSummary: string): Pen {
    if textSummary != "" then CheckedLines(pen, layout.margin, LinePieces(textSummary), 10.0, layout.top)
    else Unchecked(pen, layout.margin, "(No extractable text on this page)", 12.0)
  }

  /** The image part of a section: the label and the checked description loop, or the placeholder line. */
  function ImagePart(pen: Pen, layout: Layout, imgs: seq<ImageSummary>): Pen {
    if imgs != [] then
      CheckedLines(Unchecked(pen, layout.margin, "Image(s) analysis:", 12.0),
                   layout.margin + 8.0, DescPieces(imgs), 9.0, layout.top)
    else Unchecked(pen, layout.margin, "No images on this page.", 12.0)
  }

  /** `f"Page {rec['page_no']} Summary"` */
  function SectionTitle(rec: PageSummary): string {
    "Page " + NatToString(rec.pageNo) + " Summary"
  }

  /** The page that opens a section: a new page and the section title at the top. */
  function SectionOpen(pen: Pen, layout: Layout, rec: PageSummary): Pen {
    Pen(layout.top - 14.0, pen.ops + [PageBreak, Draw(layout.margin, layout.top, SectionTitle(rec))])
  }

  /** One record's detailed section. */
  function SectionPen(pen: Pen, layout: Layout, rec: PageSummary): Pen {
    ImagePart(TextPart(SectionOpen(pen, layout, rec), layout, rec.textSummary), layout, rec.imageSummaries)
  }

  /** The detailed sections of `records`, in order. */
  function SectionsPen(pen: Pen, layout: Layout, records: seq<PageSummary>): Pen
    decreases |records|
  {
    if records == [] then pen
    else SectionPen(SectionsPen(pen, layout, records[..|records| - 1]), layout, records[|records| - 1])
  }

  /** `write_summary_pdf(summary_records, ..., source_filename)`: every operation drawn, in order. */
  function SummaryPdfOps(records: seq<PageSummary>, sourceFilename: string, timestamp: string, layout: Layout): seq<Op> {
    SectionsPen(TocPen(layout, sourceFilename, timestamp, records), layout, records).ops
  }

  /** The texts drawn with `Draw`, in order. */
  function DrawnTexts(ops: seq<Op>): seq<string> {
    if ops == [] then []
    else DrawnTexts(ops[..|ops| - 1]) + (if ops[|ops| - 1].Draw? then [ops[|ops| - 1].text] else [])
  }

  /** The number of page breaks. */
  function PageBreaks(ops: seq<Op>): nat {
    if ops == [] then 0
    else PageBreaks(ops[..|ops| - 1]) + (if ops[|ops| - 1].PageBreak? then 1 else 0)
  }

  lemma {:induction false} DrawnTextsAppend(a: seq<Op>, b: seq<Op>)
    ensures DrawnTexts(a + b) == DrawnTexts(a) + DrawnTexts(b)
    decreases |b|
  {
    if b == [] {
      assert a + b == a;
    } else {
      assert (a + b)[..|a + b| - 1] == a + b[..|b| - 1];
      DrawnTextsAppend(a, b[..|b| - 1]);
    }
  }

  lemma {:induction false} PageBreaksAppend(a: seq<Op>, b: seq<Op>)
    ensures PageBreaks(a + b) == PageBreaks(a) + PageBreaks(b)
    decreases |b|
  {
    if b == [] {
      assert a + b == a;
    } else {
      assert (a + b)[..|a + b| - 1] == a + b[..|b| - 1];
      PageBreaksAppend(a, b[..|b| - 1]);
    }
  }

  /**
    `after` continues `before`: it keeps the operations drawn so far, then
    draws `texts` in order, with any number of page breaks in between.
   */
  predicate Draws(before: Pen, after: Pen, texts: seq<string>) {
    |after.ops| >= |before.ops| && after.ops[..|before.ops|] == before.ops &&
    DrawnTexts(after.ops) == DrawnTexts(before.ops) + texts &&
    PageBreaks(after.ops) >= PageBreaks(before.ops)
  }

  lemma DrawsTrans(a: Pen, b: Pen, c: Pen, t1: seq<string>, t2: seq<string>)
    requires Draws(a, b, t1) && Draws(b, c, t2)
    ensures Draws(a, c, t1 + t2)
  {
    assert c.ops[..|a.ops|] == c.ops[..|b.ops|][..|a.ops|];
  }

  /** Appending operations adds their drawn texts and page breaks. */
  lemma DrawsAppend(pen: Pen, after: Pen, added: seq<Op>, texts: seq<string>)
    requires after.ops == pen.ops + added && DrawnTexts(added) == texts
    ensures Draws(pen, after, texts) && PageBreaks(after.ops) == PageBreaks(pen.ops) + PageBreaks(added)
  {
    DrawnTextsAppend(pen.ops, added);
    PageBreaksAppend(pen.ops, added);
  }

  /** A checked line draws its text, possibly followed by a page break. */
  lemma CheckedDraws(pen: Pen, x: real, text: string, step: real, top: real)
    ensures Draws(pen, Checked(pen, x, text, step, top), [text])
  {
    var d := Draw(x, pen.y, text);
    assert DrawnTexts([d]) == [text] by {
      assert [d][..0] == [];
    }
    if pen.y - step < Cutoff {
      assert [d, PageBreak][..1] == [d];
      DrawsAppend(pen, Checked(pen, x, text, step, top), [d, PageBreak], [text]);
    } else {
      DrawsAppend(pen, Checked(pen, x, text, step, top), [d], [text]);
    }
  }

  /** An unchecked line draws its text and nothing else. */
  lemma UncheckedDraws(pen: Pen, x: real, text: string, step: real)
    ensures Draws(pen, Unchecked(pen, x, text, step), [text])
  {
    var d := Draw(x, pen.y, text);
    assert DrawnTexts([d]) == [text] by {
      assert [d][..0] == [];
    }
    DrawsAppend(pen, Unchecked(pen, x, text, step), [d], [text]);
  }

  /** A checked loop only appends: it draws exactly its pieces, in order, and breaks pages in between. */
  lemma {:induction false} CheckedLinesDraws(pen: Pen, x: real, pieces: seq<string>, step: real, top: real)
    ensures Draws(pen, CheckedLines(pen, x, pieces, step, top), pieces)
    decreases |pieces|
  {
    if pieces == [] {
      assert pen.ops[..|pen.ops|] == pen.ops;
    } else {
      var init := pieces[..|pieces| - 1];
      var prev := CheckedLines(pen, x, init, step, top);
      CheckedLinesDraws(pen, x, init, step, top);
      CheckedDraws(prev, x, pieces[|pieces| - 1], step, top);
      DrawsTrans(pen, prev, CheckedLines(pen, x, pieces, step, top), init, [pieces[|pieces| - 1]]);
      assert init + [pieces[|pieces| - 1]] == pieces;
    }
  }

  /**
    Inside a checked loop (with the top line above the cutoff) every line after
    the first is drawn at or above the cutoff, and the loop leaves the cursor
    there; the first line is drawn wherever the cursor was.
   */
  lemma {:induction false} CheckedLinesKeepCutoff(pen: Pen, x: real, pieces: seq<string>, step: real, top: real)
    requires top >= Cutoff
    ensures var r := CheckedLines(pen, x, pieces, step, top);
      |r.ops| >= |pen.ops| &&
      (pieces != [] ==> r.y >= Cutoff && |r.ops| > |pen.ops| && r.ops[|pen.ops|] == Draw(x, pen.y, pieces[0])) &&
      (forall k :: |pen.ops| < k < |r.ops| && r.ops[k].Draw? ==> r.ops[k].y >= Cutoff)
    decreases |pieces|
  {
    if pieces != [] {
      var init := pieces[..|pieces| - 1];
      var prev := CheckedLines(pen, x, init, step, top);
      CheckedLinesKeepCutoff(pen, x, init, step, top);
      var r := CheckedLines(pen, x, pieces, step, top);
      assert r.ops[..|prev.ops|] == prev.ops;
      if init == [] {
        assert prev == pen;
      } else {
        assert init[0] == pieces[0];
        assert r.ops[|pen.ops|] == prev.ops[|pen.ops|];
      }
      forall k | |pen.ops| < k < |r.ops| && r.ops[k].Draw?
        ensures r.ops[k].y >= Cutoff
      {
        if k < |prev.ops| {
          assert r.ops[k] == prev.ops[k];
        }
      }
    }
  }

  /** Mapping one more element, then flattening, appends that element's image. */
  lemma ConcatMapSnoc<A>(xs: seq<A>, i: nat, f: A -> seq<string>)
    requires i < |xs|
    ensures Concat(MapSeq(xs[..i + 1], f)) == Concat(MapSeq(xs[..i], f)) + f(xs[i])
  {
    MapSeqSnoc(xs, i, f);
    ConcatAppend(MapSeq(xs[..i], f), [f(xs[i])]);
    assert Concat([f(xs[i])]) == f(xs[i]) + Concat<string>([]);
  }

  /** A checked loop over two runs of pieces is the loop over the first run, then the loop over the second. */
  lemma {:induction false} CheckedLinesAppend(pen: Pen, x: real, a: seq<string>, b: seq<string>, step: real, top: real)
    ensures CheckedLines(pen, x, a + b, step, top) == CheckedLines(CheckedLines(pen, x, a, step, top), x, b, step, top)
    decreases |b|
  {
    if b == [] {
      assert a + b == a;
    } else {
      assert (a + b)[..|a + b| - 1] == a + b[..|b| - 1];
      CheckedLinesAppend(pen, x, a, b[..|b| - 1], step, top);
    }
  }

  /** One more checked line for the loops that draw pieces. */
  lemma CheckedLinesSnoc(pen: Pen, x: real, pieces: seq<string>, p: string, step: real, top: real)
    ensures CheckedLines(pen, x, pieces + [p], step, top) == Checked(CheckedLines(pen, x, pieces, step, top), x, p, step, top)
  {
    assert (pieces + [p])[..|pieces|] == pieces;
  }

  /** Every piece is 1 to 100 characters long. */
  predicate PiecesFit(ps: seq<string>) {
    forall j :: 0 <= j < |ps| ==> 1 <= |ps[j]| <= 100
  }

  lemma PiecesFitAppend(a: seq<string>, b: seq<string>)
    requires PiecesFit(a) && PiecesFit(b)
    ensures PiecesFit(a + b)
  {
    forall j | 0 <= j < |a + b|
      ensures 1 <= |(a + b)[j]| <= 100
    {
      if j < |a| {
        assert (a + b)[j] == a[j];
      } else {
        assert (a + b)[j] == b[j - |a|];
      }
    }
  }

  /** The pieces of one line put together give the line back, and each is 1 to 100 characters long. */
  lemma Pieces100Sound(line: string)
    ensures Concat(Pieces100(line)) == line && PiecesFit(Pieces100(line))
  {
    PdfPiecesSound(line, 100);
  }

  /** The pieces of the first `n` lines put together give those lines put together. */
  lemma {:induction false} PiecesOfLines(lines: seq<string>, n: nat)
    requires n <= |lines|
    ensures Concat(Concat(MapSeq(lines[..n], Pieces100))) == Concat(lines[..n])
    decreases n
  {
    if n == 0 {
      assert MapSeq(lines[..0], Pieces100) == [];
      assert lines[..0] == [];
    } else {
      var prev := Concat(MapSeq(lines[..n - 1], Pieces100));
      var last := Pieces100(lines[n - 1]);
      calc {
        Concat(Concat(MapSeq(lines[..n], Pieces100)));
        { ConcatMapSnoc(lines, n - 1, Pieces100); }
        Concat(prev + last);
        { ConcatAppend(prev, last); }
        Concat(prev) + Concat(last);
        { PiecesOfLines(lines, n - 1); Pieces100Sound(lines[n - 1]); }
        Concat(lines[..n - 1]) + lines[n - 1];
        { assert Concat([lines[n - 1]]) == lines[n - 1] + Concat<char>([]); }
        Concat(lines[..n - 1]) + Concat([lines[n - 1]]);
        { ConcatAppend(lines[..n - 1], [lines[n - 1]]); assert lines[..n] == lines[..n - 1] + [lines[n - 1]]; }
        Concat(lines[..n]);
      }
    }
  }

  /** The pieces of the first `n` lines are each 1 to 100 characters long. */
  lemma {:induction false} PiecesOfLinesFit(lines: seq<string>, n: nat)
    requires n <= |lines|
    ensures PiecesFit(Concat(MapSeq(lines[..n], Pieces100)))
    decreases n
  {
    if n == 0 {
      assert MapSeq(lines[..0], Pieces100) == [];
    } else {
      var prev := Concat(MapSeq(lines[..n - 1], Pieces100));
      var last := Pieces100(lines[n - 1]);
      PiecesOfLinesFit(lines, n - 1);
      ConcatMapSnoc(lines, n - 1, Pieces100);
      assert Concat(MapSeq(lines[..n], Pieces100)) == prev + last;
      Pieces100Sound(lines[n - 1]);
      PiecesFitAppend(prev, last);
    }
  }

  /**
    Each line of a text is drawn as its 100-character pieces: put together the
    pieces of a line give the line back, so the pieces of the whole text give
    the text without its line feeds, and every piece is 1 to 100 characters.
   */
  lemma LinePiecesSound(text: string)
    ensures var lines := Split(text, '\n');
      JoinWith(lines, "\n") == text &&
      (forall i :: 0 <= i < |lines| ==> Concat(Pieces100(lines[i])) == lines[i]) &&
      Concat(LinePieces(text)) == Concat(lines) &&
      PiecesFit(LinePieces(text))
  {
    var lines := Split(text, '\n');
    SplitThenJoin(text, '\n');
    forall i | 0 <= i < |lines|
      ensures Concat(Pieces100(lines[i])) == lines[i]
    {
      Pieces100Sound(lines[i]);
    }
    PiecesOfLines(lines, |lines|);
    PiecesOfLinesFit(lines, |lines|);
    assert lines[..|lines|] == lines;
  }

  /** The table of contents draws, after the two header lines, one line per record in order. */
  lemma TocInOrder(layout: Layout, sourceFilename: string, timestamp: string, records: seq<PageSummary>)
    ensures DrawnTexts(TocPen(layout, sourceFilename, timestamp, records).ops) ==
      ["Auto PDF Summary \U{2014} Source: " + Basename(sourceFilename),
       "Table of contents (page \U{2014} short summary):"] + MapSeq(records, TocLine)
  {
    var h := HeaderPen(layout, sourceFilename, timestamp);
    CheckedLinesDraws(h, layout.margin, MapSeq(records, TocLine), 10.0, layout.top);
    HeaderDrawn(h.ops[0], h.ops[1], h.ops[2]);
  }

  /** Of the three header operations only the two left-aligned lines are `Draw`s. */
  lemma HeaderDrawn(a: Op, b: Op, c: Op)
    requires a.Draw? && b.DrawRight? && c.Draw?
    ensures DrawnTexts([a, b, c]) == [a.text, c.text]
  {
    assert DrawnTexts([a]) == [a.text] by {
      assert [a][..0] == [];
    }
    assert DrawnTexts([a, b]) == [a.text] by {
      assert [a, b][..1] == [a];
    }
    assert [a, b, c][..2] == [a, b];
  }

  /** A table-of-contents line is "Page n: " and at most the first 120 characters of the digest. */
  lemma TocLineShape(rec: PageSummary)
    ensures var p := "Page " + NatToString(rec.pageNo) + ": ";
      var l := TocLine(rec);
      |p| <= |l| <= |p| + 120 && l[..|p|] == p &&
      l[|p|..] == rec.combinedShort[..Min(120, |rec.combinedShort|)]
  {
  }

  /** What a section draws for its text: the text pieces, or the placeholder. */
  function TextDrawn(textSummary: string): seq<string> {
    if textSummary != "" then LinePieces(textSummary) else ["(No extractable text on this page)"]
  }

  /** What a section draws for its images: the label and the description pieces, or the placeholder. */
  function ImagesDrawn(imgs: seq<ImageSummary>): seq<string> {
    if imgs != [] then ["Image(s) analysis:"] + DescPieces(imgs) else ["No images on this page."]
  }

  /**
    A section starts a new page and draws its title at the top; then come the
    text pieces or the "(No extractable text on this page)" placeholder, then
    the "Image(s) analysis:" label and the description pieces, or the
    "No images on this page." placeholder.
   */
  lemma SectionDraws(pen: Pen, layout: Layout, rec: PageSummary)
    ensures Draws(pen, SectionPen(pen, layout, rec),
                  [SectionTitle(rec)] + TextDrawn(rec.textSummary) + ImagesDrawn(rec.imageSummaries))
  {
    var head := SectionOpen(pen, layout, rec);
    var r := SectionPen(pen, layout, rec);
    assert r == ImagePart(TextPart(head, layout, rec.textSummary), layout, rec.imageSummaries);
    SectionOpenDraws(pen, layout, rec);
    SectionBodyDraws(head, layout, rec);
    DrawsTrans(pen, head, r, [SectionTitle(rec)], TextDrawn(rec.textSummary) + ImagesDrawn(rec.imageSummaries));
    TextsRegroup([SectionTitle(rec)], TextDrawn(rec.textSummary), ImagesDrawn(rec.imageSummaries));
  }

  /** Texts drawn in three runs, regrouped (a proof step only). */
  lemma TextsRegroup(a: seq<string>, b: seq<string>, c: seq<string>)
    ensures a + (b + c) == a + b + c
  {
  }

  /** A section starts with a page break and its title at the top, and breaks the page at least once. */
  lemma SectionStartsPage(pen: Pen, layout: Layout, rec: PageSummary)
    ensures var r := SectionPen(pen, layout, rec);
      |r.ops| >= |pen.ops| + 2 &&
      r.ops[..|pen.ops| + 2] == pen.ops + [PageBreak, Draw(layout.margin, layout.top, SectionTitle(rec))] &&
      PageBreaks(r.ops) >= PageBreaks(pen.ops) + 1
  {
    var head := SectionOpen(pen, layout, rec);
    SectionOpenDraws(pen, layout, rec);
    SectionBodyDraws(head, layout, rec);
  }

  /** After the title a section draws its text part, then its image part. */
  lemma SectionBodyDraws(head: Pen, layout: Layout, rec: PageSummary)
    ensures Draws(head, ImagePart(TextPart(head, layout, rec.textSummary), layout, rec.imageSummaries),
                  TextDrawn(rec.textSummary) + ImagesDrawn(rec.imageSummaries))
  {
    var text := TextPart(head, layout, rec.textSummary);
    TextPartDraws(head, layout, rec.textSummary);
    ImagePartDraws(text, layout, rec.imageSummaries);
    DrawsTrans(head, text, ImagePart(text, layout, rec.imageSummaries), TextDrawn(rec.textSummary), ImagesDrawn(rec.imageSummaries));
  }

  /** Opening a section breaks the page once and draws the title. */
  lemma SectionOpenDraws(pen: Pen, layout: Layout, rec: PageSummary)
    ensures var head := SectionOpen(pen, layout, rec);
      |head.ops| == |pen.ops| + 2 && Draws(pen, head, [SectionTitle(rec)]) &&
      PageBreaks(head.ops) == PageBreaks(pen.ops) + 1
  {
    var added := [PageBreak, Draw(layout.margin, layout.top, SectionTitle(rec))];
    assert DrawnTexts(added) == [SectionTitle(rec)] && PageBreaks(added) == 1 by {
      assert added[..1] == [PageBreak];
      assert [PageBreak][..0] == [];
    }
    DrawsAppend(pen, SectionOpen(pen, layout, rec), added, [SectionTitle(rec)]);
  }

  lemma TextPartDraws(pen: Pen, layout: Layout, textSummary: string)
    ensures Draws(pen, TextPart(pen, layout, textSummary), TextDrawn(textSummary))
  {
    if textSummary != "" {
      CheckedLinesDraws(pen, layout.margin, LinePieces(textSummary), 10.0, layout.top);
    } else {
      UncheckedDraws(pen, layout.margin, "(No extractable text on this page)", 12.0);
    }
  }

  lemma ImagePartDraws(pen: Pen, layout: Layout, imgs: seq<ImageSummary>)
    ensures Draws(pen, ImagePart(pen, layout, imgs), ImagesDrawn(imgs))
  {
    if imgs != [] {
      var labelled := Unchecked(pen, layout.margin, "Image(s) analysis:", 12.0);
      UncheckedDraws(pen, layout.margin, "Image(s) analysis:", 12.0);
      CheckedLinesDraws(labelled, layout.margin + 8.0, DescPieces(imgs), 9.0, layout.top);
      DrawsTrans(pen, labelled, ImagePart(pen, layout, imgs), ["Image(s) analysis:"], DescPieces(imgs));
    } else {
      UncheckedDraws(pen, layout.margin, "No images on this page.", 12.0);
    }
  }

  /** Everything one record's section draws: its title, its text part, its image part. */
  function SectionTexts(rec: PageSummary): seq<string> {
    [SectionTitle(rec)] + TextDrawn(rec.textSummary) + ImagesDrawn(rec.imageSummaries)
  }

  /** The texts of the sections of `records`, one section after another in record order. */
  function AllSectionTexts(records: seq<PageSummary>): seq<string> {
    if records == [] then []
    else AllSectionTexts(records[..|records| - 1]) + SectionTexts(records[|records| - 1])
  }

  /** The sections loop keeps what was drawn, then draws every record's section in record order. */
  lemma {:induction false} SectionsDrawn(pen: Pen, layout: Layout, records: seq<PageSummary>)
    ensures Draws(pen, SectionsPen(pen, layout, records), AllSectionTexts(records))
    decreases |records|
  {
    if records == [] {
      assert pen.ops[..|pen.ops|] == pen.ops;
      assert DrawnTexts(pen.ops) + [] == DrawnTexts(pen.ops);
    } else {
      var init := records[..|records| - 1];
      var last := records[|records| - 1];
      var prev := SectionsPen(pen, layout, init);
      SectionsDrawn(pen, layout, init);
      SectionDraws(prev, layout, last);
      DrawsTrans(pen, prev, SectionsPen(pen, layout, records), AllSectionTexts(init), SectionTexts(last));
    }
  }

  /**
    The texts the whole document draws: the title line, the table title, one
    table line per record, then every record's section, in record order.
   */
  lemma DocumentTexts(records: seq<PageSummary>, sourceFilename: string, timestamp: string, layout: Layout)
    ensures DrawnTexts(SummaryPdfOps(records, sourceFilename, timestamp, layout)) ==
      ["Auto PDF Summary \U{2014} Source: " + Basename(sourceFilename),
       "Table of contents (page \U{2014} short summary):"] + MapSeq(records, TocLine) + AllSectionTexts(records)
  {
    var toc := TocPen(layout, sourceFilename, timestamp, records);
    TocInOrder(layout, sourceFilename, timestamp, records);
    SectionsDrawn(toc, layout, records);
  }

  /** Every record's section adds at least one page break: at least one per record after the table of contents. */
  lemma {:induction false} SectionsBreakPages(pen: Pen, layout: Layout, records: seq<PageSummary>)
    ensures var r := SectionsPen(pen, layout, records);
      |r.ops| >= |pen.ops| && r.ops[..|pen.ops|] == pen.ops &&
      PageBreaks(r.ops) >= PageBreaks(pen.ops) + |records|
    decreases |records|
  {
    if records == [] {
      assert pen.ops[..|pen.ops|] == pen.ops;
    } else {
      var prev := SectionsPen(pen, layout, records[..|records| - 1]);
      var r := SectionsPen(pen, layout, records);
      SectionsBreakPages(pen, layout, records[..|records| - 1]);
      SectionStartsPage(prev, layout, records[|records| - 1]);
      SectionDraws(prev, layout, records[|records| - 1]);
      assert r.ops[..|pen.ops|] == r.ops[..|prev.ops|][..|pen.ops|];
    }
  }

  /** The whole document has at least one page break per record, after the table of contents. */
  lemma PageBreakPerRecord(records: seq<PageSummary>, sourceFilename: string, timestamp: string, layout: Layout)
    ensures var toc := TocPen(layout, sourceFilename, timestamp, records).ops;
      var ops := SummaryPdfOps(records, sourceFilename, timestamp, layout);
      |ops| >= |toc| && ops[..|toc|] == toc && PageBreaks(ops) >= PageBreaks(toc) + |records|
  {
    SectionsBreakPages(TocPen(layout, sourceFilename, timestamp, records), layout, records);
  }

  /**
    The placeholder lines are not checked: on a page whose top line is at 74, a
    record with no text and no images draws its second placeholder at 48,
    below the cutoff, and leaves the cursor at 36.
   */
  lemma PlaceholdersPassCutoff()
    ensures var layout := Layout(74.0, 10.0, 200.0);
      var r := SectionPen(Pen(74.0, []), layout, PageSummary(1, "", [], ""));
      r.ops == [PageBreak, Draw(10.0, 74.0, "Page 1 Summary"),
                Draw(10.0, 60.0, "(No extractable text on this page)"),
                Draw(10.0, 48.0, "No images on this page.")] &&
      r.y == 36.0 && r.y < Cutoff
  {
    var layout := Layout(74.0, 10.0, 200.0);
    var rec := PageSummary(1, "", [], "");
    assert NatToString(1) == "1";
    assert SectionTitle(rec) == "Page 1 Summary";
    var head := SectionOpen(Pen(74.0, []), layout, rec);
    assert head == Pen(60.0, [PageBreak, Draw(10.0, 74.0, "Page 1 Summary")]);
    var text := TextPart(head, layout, "");
    assert text == Pen(48.0, head.ops + [Draw(10.0, 60.0, "(No extractable text on this page)")]);
    assert ImagePart(text, layout, []) == Pen(36.0, text.ops + [Draw(10.0, 48.0, "No images on this page.")]);
  }

  /**
    The first line of a checked loop is drawn wherever the cursor is: after a
    text line that leaves the cursor at exactly 50 and the unchecked image
    labelled, the first description line is drawn at 38.
   */
  lemma FirstCheckedLineMayBeLow()
    ensures var layout := Layout(74.0, 10.0, 200.0);
      var rec := PageSummary(1, "x", [ImageSummary(map[], "y")], "x");
      var r := SectionPen(Pen(74.0, []), layout, rec);
      r.ops == [PageBreak, Draw(10.0, 74.0, "Page 1 Summary"), Draw(10.0, 60.0, "x"),
                Draw(10.0, 50.0, "Image(s) analysis:"), Draw(18.0, 38.0, "y"), PageBreak] &&
      r.ops[4].y < Cutoff
  {
    var layout := Layout(74.0, 10.0, 200.0);
    var imgs := [ImageSummary(map[], "y")];
    var rec := PageSummary(1, "x", imgs, "x");
    var text := Pen(50.0, [PageBreak, Draw(10.0, 74.0, "Page 1 Summary"), Draw(10.0, 60.0, "x")]);
    LowExampleText();
    LowExampleImages(text);
  }

  /** The opening and the one text line of the example section leave the cursor at exactly 50. */
  lemma LowExampleText()
    ensures var rec := PageSummary(1, "x", [ImageSummary(map[], "y")], "x");
      TextPart(SectionOpen(Pen(74.0, []), Layout(74.0, 10.0, 200.0), rec), Layout(74.0, 10.0, 200.0), "x") ==
        Pen(50.0, [PageBreak, Draw(10.0, 74.0, "Page 1 Summary"), Draw(10.0, 60.0, "x")])
  {
    var layout := Layout(74.0, 10.0, 200.0);
    var rec := PageSummary(1, "x", [ImageSummary(map[], "y")], "x");
    assert NatToString(1) == "1";
    OneLinePieces("x");
    assert SectionTitle(rec) == "Page 1 Summary";
    var head := SectionOpen(Pen(74.0, []), layout, rec);
    assert head == Pen(60.0, [PageBreak, Draw(10.0, 74.0, "Page 1 Summary")]);
    assert CheckedLines(head, 10.0, [], 10.0, 74.0) == head;
  }

  /** From a cursor at 50, the label goes at 50 and the first description line at 38, then a page break. */
  lemma LowExampleImages(text: Pen)
    requires text.y == 50.0
    ensures ImagePart(text, Layout(74.0, 10.0, 200.0), [ImageSummary(map[], "y")]) ==
      Pen(74.0, text.ops + [Draw(10.0, 50.0, "Image(s) analysis:"), Draw(18.0, 38.0, "y"), PageBreak])
  {
    var imgs := [ImageSummary(map[], "y")];
    OneLinePieces("y");
    assert MapSeq(imgs, DescriptionPieces) == [["y"]];
    assert Concat([["y"]]) == ["y"] + Concat<string>([]);
    var labelled := Unchecked(text, 10.0, "Image(s) analysis:", 12.0);
    assert labelled == Pen(38.0, text.ops + [Draw(10.0, 50.0, "Image(s) analysis:")]);
    assert CheckedLines(labelled, 18.0, [], 9.0, 74.0) == labelled;
    assert CheckedLines(labelled, 18.0, ["y"], 9.0, 74.0) == Pen(74.0, labelled.ops + [Draw(18.0, 38.0, "y"), PageBreak]);
  }

  /** A one-character line without a line feed is drawn as itself. */
  lemma OneLinePieces(s: string)
    requires |s| == 1 && s[0] != '\n'
    ensures LinePieces(s) == [s]
  {
    SplitNoSeparator(s, '\n');
    assert PdfPieces(s, 100) == [s];
    assert MapSeq([s], Pieces100) == [[s]];
    assert Concat([[s]]) == [s] + Concat<string>([]);
  }

  /** One checked line on the canvas. */
  method DrawChecked(c: Canvas, x: real, y0: real, text: string, step: real, top: real) returns (y: real)
    modifies c
    ensures Pen(y, c.ops) == Checked(Pen(y0, old(c.ops)), x, text, step, top)
  {
    c.DrawString(x, y0, text);
    y := y0 - step;
    if y < 50.0 {
      c.ShowPage();
      y := top;
    }
  }

  /** The inner loop over the 100-character pieces of one line, each a checked line. */
  method DrawPieces(c: Canvas, x: real, y0: real, pieces: seq<string>, step: real, top: real) returns (y: real)
    modifies c
    ensures Pen(y, c.ops) == CheckedLines(Pen(y0, old(c.ops)), x, pieces, step, top)
  {
    ghost var pen0 := Pen(y0, c.ops);
    y := y0;
    for j := 0 to |pieces|
      invariant Pen(y, c.ops) == CheckedLines(pen0, x, pieces[..j], step, top)
    {
      CheckedLinesSnoc(pen0, x, pieces[..j], pieces[j], step, top);
      assert pieces[..j + 1] == pieces[..j] + [pieces[j]];
      y := DrawChecked(c, x, y, pieces[j], step, top);
    }
    assert pieces[..|pieces|] == pieces;
  }

  /** The nested loops over the lines of a text and their 100-character pieces, all checked. */
  method DrawTextLines(c: Canvas, x: real, y0: real, text: string, step: real, top: real) returns (y: real)
    modifies c
    ensures Pen(y, c.ops) == CheckedLines(Pen(y0, old(c.ops)), x, LinePieces(text), step, top)
  {
    var pen0 := Pen(y0, c.ops);
    var lines := Split(text, '\n');
    y := y0;
    for i := 0 to |lines|
      invariant Pen(y, c.ops) == CheckedLines(pen0, x, Concat(MapSeq(lines[..i], Pieces100)), step, top)
    {
      var chunks := ChunkTextForPdf(lines[i], 100);
      ghost var done := Concat(MapSeq(lines[..i], Pieces100));
      y := DrawPieces(c, x, y, chunks, step, top);
      CheckedLinesAppend(pen0, x, done, chunks, step, top);
      ConcatMapSnoc(lines, i, Pieces100);
    }
    assert lines[..|lines|] == lines;
  }

  /** The loop over the kept images, each description drawn by the checked text loops. */
  method DrawDescriptions(c: Canvas, x: real, y0: real, imgs: seq<ImageSummary>, top: real) returns (y: real)
    modifies c
    ensures Pen(y, c.ops) == CheckedLines(Pen(y0, old(c.ops)), x, DescPieces(imgs), 9.0, top)
  {
    var pen0 := Pen(y0, c.ops);
    y := y0;
    for k := 0 to |imgs|
      invariant Pen(y, c.ops) == CheckedLines(pen0, x, Concat(MapSeq(imgs[..k], DescriptionPieces)), 9.0, top)
    {
      ghost var done := Concat(MapSeq(imgs[..k], DescriptionPieces));
      y := DrawTextLines(c, x, y, imgs[k].desc, 9.0, top);
      CheckedLinesAppend(pen0, x, done, LinePieces(imgs[k].desc), 9.0, top);
      ConcatMapSnoc(imgs, k, DescriptionPieces);
    }
    assert imgs[..|imgs|] == imgs;
  }

  /** One record's section on the canvas. */
  method DrawSection(c: Canvas, y0: real, layout: Layout, rec: PageSummary) returns (y: real)
    modifies c
    ensures Pen(y, c.ops) == SectionPen(Pen(y0, old(c.ops)), layout, rec)
  {
    var margin := layout.margin;
    ghost var pen0 := Pen(y0, c.ops);
    c.ShowPage();
    y := layout.top;
    c.DrawString(margin, y, SectionTitle(rec));
    y := y - 14.0;
    ghost var head := Pen(y, c.ops);
    assert head == SectionOpen(pen0, layout, rec);
    if rec.textSummary != "" {
      y := DrawTextLines(c, margin, y, rec.textSummary, 10.0, layout.top);
    } else {
      c.DrawString(margin, y, "(No extractable text on this page)");
      y := y - 12.0;
    }
    ghost var text := Pen(y, c.ops);
    assert text == TextPart(head, layout, rec.textSummary);
    if rec.imageSummaries != [] {
      c.DrawString(margin, y, "Image(s) analysis:");
      y := y - 12.0;
      y := DrawDescriptions(c, margin + 8.0, y, rec.imageSummaries, layout.top);
    } else {
      c.DrawString(margin, y, "No images on this page.");
      y := y - 12.0;
    }
  }

  /** The table-of-contents loop: one checked line per record, in order. */
  method DrawToc(c: Canvas, y0: real, layout: Layout, records: seq<PageSummary>) returns (y: real)
    modifies c
    ensures Pen(y, c.ops) == CheckedLines(Pen(y0, old(c.ops)), layout.margin, MapSeq(records, TocLine), 10.0, layout.top)
  {
    ghost var pen0 := Pen(y0, c.ops);
    y := y0;
    for i := 0 to |records|
      invariant Pen(y, c.ops) == CheckedLines(pen0, layout.margin, MapSeq(records[..i], TocLine), 10.0, layout.top)
    {
      var line := "Page " + NatToString(records[i].pageNo) + ": " + Take(records[i].combinedShort, 120);
      MapSeqSnoc(records, i, TocLine);
      CheckedLinesSnoc(pen0, layout.margin, MapSeq(records[..i], TocLine), line, 10.0, layout.top);
      y := DrawChecked(c, layout.margin, y, line, 10.0, layout.top);
    }
    assert records[..|records|] == records;
  }

  /** `write_summary_pdf`: the header, the checked table-of-contents loop, then one section per record. */
  method WriteSummaryPdf(records: seq<PageSummary>, sourceFilename: string, timestamp: string, layout: Layout)
    returns (ops: seq<Op>)
    ensures ops == SummaryPdfOps(records, sourceFilename, timestamp, layout)
    ensures DrawnTexts(ops) ==
      ["Auto PDF Summary \U{2014} Source: " + Basename(sourceFilename),
       "Table of contents (page \U{2014} short summary):"] + MapSeq(records, TocLine) + AllSectionTexts(records)
  {
    var c := new Canvas();
    var margin := layout.margin;
    var y := layout.top;
    c.DrawString(margin, y, "Auto PDF Summary \U{2014} Source: " + Basename(sourceFilename));
    c.DrawRightString(layout.width - margin, y, timestamp);
    y := y - 15.0;
    c.DrawString(margin, y, "Table of contents (page \U{2014} short summary):");
    y := y - 12.0;
    assert Pen(y, c.ops) == HeaderPen(layout, sourceFilename, timestamp);
    y := DrawToc(c, y, layout, records);
    var toc := Pen(y, c.ops);
    assert toc == TocPen(layout, sourceFilename, timestamp, records);
    for i := 0 to |records|
      invariant Pen(y, c.ops) == SectionsPen(toc, layout, records[..i])
    {
      assert records[..i + 1][..i] == records[..i];
      y := DrawSection(c, y, layout, records[i]);
    }
    assert records[..|records|] == records;
    ops := c.ops;
    assert ops == SummaryPdfOps(records, sourceFilename, timestamp, layout);
    DocumentTexts(records, sourceFilename, timestamp, layout);
  }
}
