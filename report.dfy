/**
  The plain-text report of `create_formatted_report` in summarizer.py: a
  header, a table of contents with one entry per page, one section per page
  and a footer, built as a list of lines joined by line feeds. The clock
  reading is a parameter.
 */
module Report {
  import opened Strings
  import opened Reflow
  import opened PageSummaries

  /** `"=" * 100` */
  const Separator: string := Repeat('=', 100)

  /** `"-" * 100` */
  const SubSeparator: string := Repeat('-', 100)

  /** The width the report is laid out to. */
  const ReportWidth: nat := 100

  /** A table-of-contents digest longer than 85 characters keeps its first 82 and gains "...". */
  function Shorten(short: string): string {
    if |short| > 85 then short[..82] + "..." else short
  }

  /** A shortened digest is at most 85 characters: exactly 85 when it was cut, the digest itself otherwise. */
  lemma ShortenSound(short: string)
    ensures |Shorten(short)| <= 85
    ensures |short| <= 85 ==> Shorten(short) == short
    ensures |short| > 85 ==>
      |Shorten(short)| == 85 && Shorten(short)[..82] == short[..82] && Shorten(short)[82..] == "..."
  {
  }

  /** `f"Page {page_no:3d}: {short}"` */
  function TocEntry(s: PageSummary): string {
    "Page " + Pad3(s.pageNo) + ": " + Shorten(s.combinedShort)
  }

  /** The nine header lines, up to the table of contents. */
  function HeaderLines(sourceFile: string, timestamp: string, pages: nat): seq<string> {
    [Separator, Center("PDF SUMMARY REPORT", ReportWidth), Separator,
     "Source File: " + sourceFile, "Generated: " + timestamp, "Total Pages: " + NatToString(pages),
     Separator, "", ""]
  }

  /** The heading of the table of contents. */
  const TocHead: seq<string> := ["TABLE OF CONTENTS", SubSeparator, ""]

  /** The lines closing the table of contents. */
  const TocTail: seq<string> := ["", Separator, "", ""]

  /** The table of contents: one entry per page, in page order. */
  function TocLines(summaries: seq<PageSummary>): seq<string> {
    TocHead + MapSeq(summaries, TocEntry) + TocTail
  }

  /** The five lines that open a page section, with its centred `PAGE n` title. */
  function SectionHead(pageNo: nat): seq<string> {
    ["", Separator, Center("PAGE " + NatToString(pageNo), ReportWidth), Separator, ""]
  }

  /** The text part of a section, present only for a non-empty text summary. */
  function TextLines(textSummary: string): seq<string> {
    if textSummary != "" then
      ["TEXT CONTENT:", SubSeparator, "", Paragraphs(textSummary, 100, 0), "", ""]
    else []
  }

  /** `meta.get(key, 'N/A')` */
  function MetaOr(meta: map<string, string>, key: string): string {
    if key in meta then meta[key] else "N/A"
  }

  /** The eleven lines describing image number `idx`. */
  function ImageBlock(idx: nat, img: ImageSummary): seq<string> {
    ["Image " + NatToString(idx) + ":", "",
     "  Dimensions: " + MetaOr(img.meta, "width") + " x " + MetaOr(img.meta, "height") + " pixels",
     "  Format: " + MetaOr(img.meta, "format"),
     "  Mode: " + MetaOr(img.meta, "mode"),
     "", "  Description:", "",
     Paragraphs(img.desc, 96, 4), "", ""]
  }

  /** `block(i, x)` for the elements `x` of `xs`, numbered from 1, one after another. */
  function NumberedBlocks<T>(xs: seq<T>, block: (nat, T) -> seq<string>): seq<string> {
    if xs == [] then []
    else NumberedBlocks(xs[..|xs| - 1], block) + block(|xs|, xs[|xs| - 1])
  }

  /** The blocks of the kept images, numbered from 1 in their order. */
  function ImageBlocks(imgs: seq<ImageSummary>): seq<string> {
    NumberedBlocks(imgs, ImageBlock)
  }

  /** The image part of a section, present only when some image was kept. */
  function ImageLines(imgs: seq<ImageSummary>): seq<string> {
    if imgs != [] then ["IMAGE ANALYSIS:", SubSeparator, ""] + ImageBlocks(imgs) else []
  }

  /** The lines of one page section. */
  function SectionLines(s: PageSummary): seq<string> {
    SectionHead(s.pageNo) + TextLines(s.textSummary) + ImageLines(s.imageSummaries) + [""]
  }

  /** The page sections, one after another in page order. */
  function Sections(summaries: seq<PageSummary>): seq<string> {
    Concat(MapSeq(summaries, SectionLines))
  }

  /** The three footer lines. */
  const FooterLines: seq<string> := [Separator, Center("END OF REPORT", ReportWidth), Separator]

  /** Every line of the report, in order. */
  function ReportLines(summaries: seq<PageSummary>, sourceFile: string, timestamp: string): seq<string> {
    HeaderLines(sourceFile, timestamp, |summaries|) + TocLines(summaries) + Sections(summaries) + FooterLines
  }

  /** `create_formatted_report(summaries, source_file)` at clock reading `timestamp` */
  function FormattedReport(summaries: seq<PageSummary>, sourceFile: string, timestamp: string): string {
    JoinWith(ReportLines(summaries, sourceFile, timestamp), "\n")
  }

  /**
    The nine header lines: a separator, the centred title, a separator, the
    source file, the timestamp, the page count, a separator and two empty lines.
   */
  lemma ReportHeader(summaries: seq<PageSummary>, sourceFile: string, timestamp: string)
    ensures var lines := ReportLines(summaries, sourceFile, timestamp);
      |lines| >= 9 &&
      lines[..9] == [Separator, Center("PDF SUMMARY REPORT", 100), Separator,
                     "Source File: " + sourceFile, "Generated: " + timestamp,
                     "Total Pages: " + NatToString(|summaries|), Separator, "", ""]
  {
    var header := HeaderLines(sourceFile, timestamp, |summaries|);
    var rest := TocLines(summaries) + Sections(summaries) + FooterLines;
    assert ReportLines(summaries, sourceFile, timestamp) == header + rest;
    assert (header + rest)[..9] == header;
  }

  /** Header and table of contents: the page count on line 5, entry `i` on line `12 + i`, in page order. */
  lemma ReportFront(summaries: seq<PageSummary>, sourceFile: string, timestamp: string)
    ensures var lines := ReportLines(summaries, sourceFile, timestamp);
      var n := |summaries|;
      |lines| >= 19 + n &&
      lines[0] == Separator && lines[5] == "Total Pages: " + NatToString(n) &&
      lines[9] == "TABLE OF CONTENTS" &&
      (forall i :: 0 <= i < n ==> lines[12 + i] == TocEntry(summaries[i])) &&
      lines[12 + n..16 + n] == TocTail
  {
    var lines := ReportLines(summaries, sourceFile, timestamp);
    var n := |summaries|;
    var front := HeaderLines(sourceFile, timestamp, n) + TocHead;
    var entries := MapSeq(summaries, TocEntry);
    assert lines == front + entries + TocTail + (Sections(summaries) + FooterLines);
    assert |front| == 12;
    forall i | 0 <= i < n
      ensures lines[12 + i] == TocEntry(summaries[i])
    {
      assert lines[12 + i] == entries[i];
    }
  }

  /** Every table-of-contents entry starts "Page ", the page number right-aligned in three columns and ": ". */
  lemma TocEntryShape(s: PageSummary)
    ensures var e := TocEntry(s); var p := Pad3(s.pageNo);
      e[..5] == "Page " && e[5..5 + |p|] == p && e[5 + |p|..7 + |p|] == ": " &&
      e[7 + |p|..] == Shorten(s.combinedShort) && |e| <= 92 + |p|
  {
    ShortenSound(s.combinedShort);
  }

  /** The report ends with the footer: separator, centred "END OF REPORT", separator. */
  lemma ReportBack(summaries: seq<PageSummary>, sourceFile: string, timestamp: string)
    ensures var lines := ReportLines(summaries, sourceFile, timestamp);
      |lines| >= 3 && lines[|lines| - 3..] == [Separator, Center("END OF REPORT", 100), Separator] &&
      |lines| == 19 + |summaries| + |Sections(summaries)|
  {
  }

  /** The report text starts and ends with a full separator line. */
  lemma ReportFraming(summaries: seq<PageSummary>, sourceFile: string, timestamp: string)
    ensures var r := FormattedReport(summaries, sourceFile, timestamp);
      |r| >= 200 && r[..100] == Separator && r[|r| - 100..] == Separator
  {
    var lines := ReportLines(summaries, sourceFile, timestamp);
    var init := lines[..|lines| - 1];
    ReportBack(summaries, sourceFile, timestamp);
    JoinWithPrefix(lines, "\n");
    assert lines == init + [Separator];
    JoinWithSnoc(init, Separator, "\n");
    JoinWithPrefix(init, "\n");
  }

  /** With no pages the report is the header, an empty table of contents and the footer: 19 lines. */
  lemma EmptyReport(sourceFile: string, timestamp: string)
    ensures var lines := ReportLines([], sourceFile, timestamp);
      |lines| == 19 && lines[5] == "Total Pages: 0" && lines[12..16] == TocTail && lines[16..] == FooterLines
  {
    assert NatToString(0) == "0";
  }

  /** Sections of consecutive runs of pages follow each other. */
  lemma SectionsAppend(a: seq<PageSummary>, b: seq<PageSummary>)
    ensures Sections(a + b) == Sections(a) + Sections(b)
  {
    assert MapSeq(a + b, SectionLines) == MapSeq(a, SectionLines) + MapSeq(b, SectionLines);
    ConcatAppend(MapSeq(a, SectionLines), MapSeq(b, SectionLines));
  }

  /**
    One section per page, in order: the sections of the pages before page `i`,
    then the section of page `i`, opened by its centred `PAGE n` title, then the
    sections of the pages after it.
   */
  lemma SectionsInOrder(summaries: seq<PageSummary>, i: nat)
    requires i < |summaries|
    ensures Sections(summaries) ==
      Sections(summaries[..i]) + SectionLines(summaries[i]) + Sections(summaries[i + 1..])
    ensures SectionLines(summaries[i])[..5] ==
      ["", Separator, Center("PAGE " + NatToString(summaries[i].pageNo), 100), Separator, ""]
  {
    assert summaries == summaries[..i] + [summaries[i]] + summaries[i + 1..];
    SectionsAppend(summaries[..i] + [summaries[i]], summaries[i + 1..]);
    SectionsAppend(summaries[..i], [summaries[i]]);
    SectionsOne(summaries[i]);
  }

  lemma SectionsOne(s: PageSummary)
    ensures Sections([s]) == SectionLines(s)
  {
    assert MapSeq([s], SectionLines) == [SectionLines(s)];
    assert Concat([SectionLines(s)]) == SectionLines(s) + Concat<string>([]);
  }

  /** Image `k` (from 1) occupies lines `11 * (k - 1)` to `11 * k` of the image blocks. */
  lemma ImageBlocksAt(imgs: seq<ImageSummary>, k: nat)
    requires k < |imgs|
    ensures |ImageBlocks(imgs)| == 11 * |imgs|
    ensures ImageBlocks(imgs)[11 * k..11 * k + 11] == ImageBlock(k + 1, imgs[k])
  {
    ImageBlockLength();
    NumberedBlocksAt(imgs, k, ImageBlock);
  }

  lemma ImageBlocksLength(imgs: seq<ImageSummary>)
    ensures |ImageBlocks(imgs)| == 11 * |imgs|
  {
    ImageBlockLength();
    NumberedBlocksLength(imgs, ImageBlock);
  }

  lemma ImageBlockLength()
    ensures forall i: nat, img: ImageSummary :: |ImageBlock(i, img)| == 11
  {
  }

  /** Blocks of eleven lines each: block `k` (from 0) occupies lines `11 * k` to `11 * k + 11`. */
  lemma {:induction false} NumberedBlocksAt<T>(xs: seq<T>, k: nat, block: (nat, T) -> seq<string>)
    requires k < |xs|
    requires forall i: nat, x: T :: |block(i, x)| == 11
    ensures |NumberedBlocks(xs, block)| == 11 * |xs|
    ensures NumberedBlocks(xs, block)[11 * k..11 * k + 11] == block(k + 1, xs[k])
    decreases |xs|
  {
    var init := xs[..|xs| - 1];
    var prev := NumberedBlocks(init, block);
    var last := block(|xs|, xs[|xs| - 1]);
    NumberedBlocksLength(init, block);
    assert NumberedBlocks(xs, block) == prev + last;
    assert |last| == 11;
    if k < |init| {
      NumberedBlocksAt(init, k, block);
      assert init[k] == xs[k];
      assert (prev + last)[11 * k..11 * k + 11] == prev[11 * k..11 * k + 11];
    } else {
      assert k == |init| && 11 * k == |prev|;
      assert (prev + last)[|prev|..|prev| + 11] == last;
    }
  }

  lemma {:induction false} NumberedBlocksLength<T>(xs: seq<T>, block: (nat, T) -> seq<string>)
    requires forall i: nat, x: T :: |block(i, x)| == 11
    ensures |NumberedBlocks(xs, block)| == 11 * |xs|
    decreases |xs|
  {
    if xs != [] {
      NumberedBlocksLength(xs[..|xs| - 1], block);
    }
  }

  /**
    The block of image `k` is headed `Image k:`, gives the width, height, format
    and mode from the metadata or "N/A" for those missing, and the description
    reflowed to width 96 with a four-space indent; the other lines are empty
    apart from the "  Description:" label.
   */
  lemma ImageBlockShape(k: nat, img: ImageSummary)
    ensures var b := ImageBlock(k, img);
      |b| == 11 && b[0] == "Image " + NatToString(k) + ":" && b[6] == "  Description:" &&
      b[1] == "" && b[5] == "" && b[7] == "" && b[9] == "" && b[10] == "" &&
      b[8] == Paragraphs(img.desc, 96, 4) &&
      b[2] == "  Dimensions: " + MetaOr(img.meta, "width") + " x " + MetaOr(img.meta, "height") + " pixels" &&
      ("width" !in img.meta && "height" !in img.meta ==> b[2] == "  Dimensions: N/A x N/A pixels") &&
      ("width" in img.meta && "height" in img.meta ==>
        b[2] == "  Dimensions: " + img.meta["width"] + " x " + img.meta["height"] + " pixels") &&
      ("format" !in img.meta ==> b[3] == "  Format: N/A") &&
      ("mode" !in img.meta ==> b[4] == "  Mode: N/A") &&
      ("format" in img.meta ==> b[3] == "  Format: " + img.meta["format"]) &&
      ("mode" in img.meta ==> b[4] == "  Mode: " + img.meta["mode"])
  {
  }

  /**
    The parts of a section: "TEXT CONTENT:" opens line 5 exactly when the text
    summary is non-empty, and "IMAGE ANALYSIS:" opens the line after the text
    part exactly when an image was kept, followed by one block per image.
   */
  lemma SectionShape(s: PageSummary)
    ensures var lines := SectionLines(s);
      var t := if s.textSummary != "" then 6 else 0;
      var m := |s.imageSummaries|;
      |lines| == 6 + t + (if m > 0 then 3 + 11 * m else 0) &&
      (lines[5] == "TEXT CONTENT:" <==> s.textSummary != "") &&
      (s.textSummary != "" ==> lines[8] == Paragraphs(s.textSummary, 100, 0)) &&
      (lines[5 + t] == "IMAGE ANALYSIS:" <==> m > 0) &&
      (m > 0 ==> lines[8 + t..8 + t + 11 * m] == ImageBlocks(s.imageSummaries))
  {
    SectionAfterHead(s);
    ImageBlocksLength(s.imageSummaries);
    SectionTextPart(s);
    SectionImagePart(s);
  }

  lemma SectionTextPart(s: PageSummary)
    ensures var lines := SectionLines(s);
      |lines| > 5 &&
      (lines[5] == "TEXT CONTENT:" <==> s.textSummary != "") &&
      (s.textSummary != "" ==> |lines| > 8 && lines[8] == Paragraphs(s.textSummary, 100, 0))
  {
    var lines := SectionLines(s);
    var text := TextLines(s.textSummary);
    var tail := ImageLines(s.imageSummaries) + [""];
    SectionAfterHead(s);
    var rest := lines[5..];
    assert rest == text + tail;
    if s.textSummary != "" {
      assert lines[5] == rest[0] == "TEXT CONTENT:";
      assert lines[8] == rest[3];
    } else {
      assert text == [];
      assert rest == tail;
      assert lines[5] == tail[0];
    }
  }

  lemma SectionImagePart(s: PageSummary)
    ensures var lines := SectionLines(s);
      var t := |TextLines(s.textSummary)|;
      var m := |s.imageSummaries|;
      |lines| > 5 + t &&
      (lines[5 + t] == "IMAGE ANALYSIS:" <==> m > 0) &&
      (m > 0 ==> |lines| >= 8 + t + 11 * m && lines[8 + t..8 + t + 11 * m] == ImageBlocks(s.imageSummaries))
  {
    var lines := SectionLines(s);
    var t := |TextLines(s.textSummary)|;
    var m := |s.imageSummaries|;
    var tail := ImageLines(s.imageSummaries) + [""];
    SectionAfterHead(s);
    ImageBlocksLength(s.imageSummaries);
    assert lines[5 + t..] == tail;
    assert lines[5 + t] == tail[0];
    if m > 0 {
      var blocks := ImageBlocks(s.imageSummaries);
      assert tail == ["IMAGE ANALYSIS:", SubSeparator, ""] + blocks + [""];
      assert tail[3..3 + 11 * m] == blocks;
      assert lines[8 + t..8 + t + 11 * m] == tail[3..3 + 11 * m];
    }
  }

  /** After its five head lines a section holds its text part, its image part and one empty line. */
  lemma SectionAfterHead(s: PageSummary)
    ensures var lines := SectionLines(s);
      |lines| == 5 + |TextLines(s.textSummary)| + |ImageLines(s.imageSummaries)| + 1 &&
      lines[5..] == TextLines(s.textSummary) + (ImageLines(s.imageSummaries) + [""])
  {
    var head := SectionHead(s.pageNo);
    assert |head| == 5;
    assert SectionLines(s) == head + (TextLines(s.textSummary) + (ImageLines(s.imageSummaries) + [""]));
  }

  /** The lines of the first `i` page sections, the shape of the sections loop's invariant. */
  lemma SectionsSnoc(summaries: seq<PageSummary>, i: nat)
    requires i < |summaries|
    ensures Sections(summaries[..i + 1]) == Sections(summaries[..i]) + SectionLines(summaries[i])
  {
    assert summaries[..i + 1] == summaries[..i] + [summaries[i]];
    SectionsAppend(summaries[..i], [summaries[i]]);
    SectionsOne(summaries[i]);
  }

  /** The invariant of the sections loop survives one more page. */
  lemma SectionsStep(lines: seq<string>, out: seq<string>, summaries: seq<PageSummary>, i: nat)
    requires i < |summaries|
    requires out == lines + Sections(summaries[..i])
    ensures out + SectionLines(summaries[i]) == lines + Sections(summaries[..i + 1])
  {
    SectionsSnoc(summaries, i);
  }

  lemma ImageBlocksSnoc(imgs: seq<ImageSummary>, k: nat)
    requires k < |imgs|
    ensures ImageBlocks(imgs[..k + 1]) == ImageBlocks(imgs[..k]) + ImageBlock(k + 1, imgs[k])
  {
    assert imgs[..k + 1][..k] == imgs[..k];
  }

  /** The invariant of the images loop survives one more image. */
  lemma ImageBlocksStep(base: seq<string>, out: seq<string>, imgs: seq<ImageSummary>, k: nat)
    requires k < |imgs|
    requires out == base + ImageBlocks(imgs[..k])
    ensures out + ImageBlock(k + 1, imgs[k]) == base + ImageBlocks(imgs[..k + 1])
  {
    ImageBlocksSnoc(imgs, k);
  }

  /** The lines of one image block, appended as in the source. */
  method AppendImageBlock(lines: seq<string>, idx: nat, imgData: ImageSummary) returns (out: seq<string>)
    ensures out == lines + ImageBlock(idx, imgData)
  {
    var meta := imgData.meta;
    var width := MetaOr(meta, "width");
    var height := MetaOr(meta, "height");
    var imgFormat := MetaOr(meta, "format");
    var mode := MetaOr(meta, "mode");
    var formattedDesc := FormatTextWithParagraphs(imgData.desc, 96, 4);
    out := lines + ["Image " + NatToString(idx) + ":", "",
                    "  Dimensions: " + width + " x " + height + " pixels",
                    "  Format: " + imgFormat, "  Mode: " + mode,
                    "", "  Description:", "",
                    formattedDesc, "", ""];
  }

  /** The image part of one section, appended line by line as in the source. */
  method AppendImageLines(lines: seq<string>, imgs: seq<ImageSummary>) returns (out: seq<string>)
    ensures out == lines + ImageLines(imgs)
  {
    out := lines;
    if imgs != [] {
      out := out + ["IMAGE ANALYSIS:", SubSeparator, ""];
      ghost var base := out;
      assert imgs[..|imgs|] == imgs;
      for idx := 0 to |imgs|
        invariant out == base + ImageBlocks(imgs[..idx])
      {
        ghost var before := out;
        out := AppendImageBlock(out, idx + 1, imgs[idx]);
        ImageBlocksStep(base, before, imgs, idx);
      }
      assert out == lines + (["IMAGE ANALYSIS:", SubSeparator, ""] + ImageBlocks(imgs));
    }
  }

  /** One page section, appended line by line as in the source. */
  method AppendSection(lines: seq<string>, summary: PageSummary) returns (out: seq<string>)
    ensures out == lines + SectionLines(summary)
  {
    var pageNo := summary.pageNo;
    out := lines + ["", Separator, Center("PAGE " + NatToString(pageNo), 100), Separator, ""];
    if summary.textSummary != "" {
      var formattedText := FormatTextWithParagraphs(summary.textSummary, 100, 0);
      out := out + ["TEXT CONTENT:", SubSeparator, "", formattedText, "", ""];
    }
    ghost var textDone := out;
    assert textDone == lines + SectionHead(pageNo) + TextLines(summary.textSummary);
    out := AppendImageLines(out, summary.imageSummaries);
    out := out + [""];
    SectionLinesSplit(lines, textDone, out, summary);
  }

  /** Regrouping the pieces of a section. */
  lemma SectionLinesSplit(lines: seq<string>, textDone: seq<string>, out: seq<string>, s: PageSummary)
    requires textDone == lines + SectionHead(s.pageNo) + TextLines(s.textSummary)
    requires out == textDone + ImageLines(s.imageSummaries) + [""]
    ensures out == lines + SectionLines(s)
  {
  }


  /** The table-of-contents loop: one entry per page, the digest cut to 85 characters. */
  method AppendTocEntries(lines: seq<string>, summaries: seq<PageSummary>) returns (out: seq<string>)
    ensures out == lines + MapSeq(summaries, TocEntry)
  {
    out := lines;
    for i := 0 to |summaries|
      invariant out == lines + MapSeq(summaries[..i], TocEntry)
    {
      var pageNo := summaries[i].pageNo;
      var short := summaries[i].combinedShort;
      if |short| > 85 {
        short := short[..82] + "...";
      }
      MapSeqSnoc(summaries, i, TocEntry);
      out := out + ["Page " + Pad3(pageNo) + ": " + short];
    }
    assert summaries[..|summaries|] == summaries;
  }

  /** The detailed-summaries loop: one section per page, in page order. */
  method AppendSections(lines: seq<string>, summaries: seq<PageSummary>) returns (out: seq<string>)
    ensures out == lines + Sections(summaries)
  {
    out := lines;
    assert summaries[..|summaries|] == summaries;
    for i := 0 to |summaries|
      invariant out == lines + Sections(summaries[..i])
    {
      ghost var before := out;
      out := AppendSection(out, summaries[i]);
      SectionsStep(lines, before, summaries, i);
    }
  }

  /** `create_formatted_report`: the header, then the two loops over the pages, then the footer. */
  method CreateFormattedReport(summaries: seq<PageSummary>, sourceFile: string, timestamp: string)
    returns (report: string)
    ensures report == FormattedReport(summaries, sourceFile, timestamp)
  {
    var separator := Repeat('=', 100);
    var subseparator := Repeat('-', 100);
    var lines: seq<string> := [];
    lines := lines + [separator, Center("PDF SUMMARY REPORT", 100), separator];
    lines := lines + ["Source File: " + sourceFile, "Generated: " + timestamp];
    lines := lines + ["Total Pages: " + NatToString(|summaries|), separator, "", ""];
    lines := lines + ["TABLE OF CONTENTS", subseparator, ""];
    assert lines == HeaderLines(sourceFile, timestamp, |summaries|) + TocHead;
    lines := AppendTocEntries(lines, summaries);
    lines := lines + ["", separator, "", ""];
    assert lines == HeaderLines(sourceFile, timestamp, |summaries|) + TocLines(summaries);
    lines := AppendSections(lines, summaries);
    lines := lines + [separator, Center("END OF REPORT", 100), separator];
    assert lines == ReportLines(summaries, sourceFile, timestamp);
    report := JoinWith(lines, "\n");
  }

  /** `summarize_pdf_pages(..., create_report=True)`: the page records and the report built from them. */
  method SummarizePdfPagesWithReport<Img>(pageRecords: seq<PageRecord<Img>>, summarize: string -> string,
                                          describe: Img -> string, metaOf: Img -> map<string, string>,
                                          sourceFile: string, timestamp: string)
    returns (outputs: seq<PageSummary>, report: string)
    ensures outputs == PageSummariesOf(pageRecords, summarize, describe, metaOf)
    ensures report == FormattedReport(outputs, sourceFile, timestamp)
  {
    outputs := SummarizePdfPages(pageRecords, summarize, describe, metaOf);
    report := CreateFormattedReport(outputs, sourceFile, timestamp);
  }
}
