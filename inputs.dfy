/**
  The two single-record entry points of summarizer.py: `summarize_text_input`,
  which summarises a plain text as page 1, and `summarize_json_input`, which
  does the same for the `content` of a JSON object and splices the `title` and
  `author` of its `metadata` into the report, just after the header.
 */
module Inputs {
  import opened Strings
  import opened PageSummaries
  import opened Report

  /** The title a JSON input has when its metadata names none. */
  const DefaultTitle: string := "JSON Input"

  /** The record `summarize_text_input` builds: page 1, no images, "Text Summary" when the summary is empty. */
  function TextInputRecord(textSummary: string): PageSummary {
    PageSummary(1, textSummary, [], ShortDigest(textSummary, "Text Summary"))
  }

  /** `summarize_text_input`: the single record and its report, attributed to "text_input.txt". */
  method SummarizeTextInput(text: string, summarize: string -> string, timestamp: string)
    returns (summaries: seq<PageSummary>, report: string)
    ensures summaries == [TextInputRecord(TextSummary(text, summarize))]
    ensures report == FormattedReport(summaries, "text_input.txt", timestamp)
  {
    var textSummary := SummarizeText(text, summarize);
    var combinedShort := if textSummary != "" then Take(FirstLine(textSummary), 100) else "Text Summary";
    summaries := [PageSummary(1, textSummary, [], combinedShort)];
    report := CreateFormattedReport(summaries, "text_input.txt", timestamp);
  }

  /** The `metadata` object of a JSON input; an absent key is `None`. */
  datatype JsonMetadata = JsonMetadata(title: Option<string>, author: Option<string>, source: Option<string>)

  /** A JSON input: its `content` and its `metadata`, either of which may be absent. */
  datatype JsonInput = JsonInput(content: Option<string>, metadata: Option<JsonMetadata>)

  /** `d.get(key, default)` */
  function GetOr(o: Option<string>, default: string): string {
    match o
    case Some(v) => v
    case None => default
  }

  function MetadataOf(json: JsonInput): JsonMetadata {
    match json.metadata
    case Some(m) => m
    case None => JsonMetadata(None, None, None)
  }

  function ContentOf(json: JsonInput): string {
    GetOr(json.content, "")
  }

  function TitleOf(json: JsonInput): string {
    GetOr(MetadataOf(json).title, DefaultTitle)
  }

  function AuthorOf(json: JsonInput): string {
    GetOr(MetadataOf(json).author, "")
  }

  function SourceOf(json: JsonInput): string {
    GetOr(MetadataOf(json).source, "json_data.json")
  }

  /** The metadata is reported only when there is an author or a title other than the default. */
  predicate HasMetadata(title: string, author: string) {
    author != "" || title != DefaultTitle
  }

  /** The text spliced in after the header: a blank line, "METADATA:", and the title and author lines between rules. */
  function MetadataSection(title: string, author: string): string {
    "\n\nMETADATA:\n" + SubSeparator + "\n" +
    (if title != DefaultTitle then "Title: " + title + "\n" else "") +
    (if author != "" then "Author: " + author + "\n" else "") +
    SubSeparator + "\n"
  }

  /** The report with the metadata section put in place of the first separator followed by two empty lines. */
  function WithMetadata(report: string, title: string, author: string): string {
    if HasMetadata(title, author) then
      ReplaceFirst(report, Separator + "\n\n\n", Separator + MetadataSection(title, author) + "\n\n")
    else report
  }

  /** `summarize_json_input`: the single record, and its report with the metadata spliced in. */
  method SummarizeJsonInput(json: JsonInput, summarize: string -> string, timestamp: string)
    returns (summaries: seq<PageSummary>, report: string)
    ensures var textSummary := TextSummary(ContentOf(json), summarize);
      summaries == [PageSummary(1, textSummary, [], ShortDigest(textSummary, TitleOf(json)))]
    ensures report == WithMetadata(FormattedReport(summaries, SourceOf(json), timestamp), TitleOf(json), AuthorOf(json))
  {
    var text := GetOr(json.content, "");
    var metadata := MetadataOf(json);
    var sourceTitle := GetOr(metadata.title, "JSON Input");
    var sourceAuthor := GetOr(metadata.author, "");
    var sourceName := GetOr(metadata.source, "json_data.json");
    var textSummary := SummarizeText(text, summarize);
    var combinedShort := if textSummary != "" then Take(FirstLine(textSummary), 100) else sourceTitle;
    summaries := [PageSummary(1, textSummary, [], combinedShort)];
    report := CreateFormattedReport(summaries, sourceName, timestamp);
    if sourceAuthor != "" || sourceTitle != "JSON Input" {
      var metadataSection := BuildMetadataSection(sourceTitle, sourceAuthor);
      report := ReplaceFirst(report, Repeat('=', 100) + "\n\n\n", Repeat('=', 100) + metadataSection + "\n\n");
    }
  }

  /** The metadata section, built line by line as in the source. */
  method BuildMetadataSection(sourceTitle: string, sourceAuthor: string) returns (metadataSection: string)
    ensures metadataSection == MetadataSection(sourceTitle, sourceAuthor)
    ensures '\n' !in sourceTitle && '\n' !in sourceAuthor ==>
      Split(metadataSection, '\n') == MetadataSectionLinesOf(sourceTitle, sourceAuthor)
  {
    metadataSection := "\n\nMETADATA:\n";
    metadataSection := metadataSection + Repeat('-', 100) + "\n";
    ghost var opening := metadataSection;
    ghost var titlePart := if sourceTitle != DefaultTitle then "Title: " + sourceTitle + "\n" else "";
    ghost var authorPart := if sourceAuthor != "" then "Author: " + sourceAuthor + "\n" else "";
    if sourceTitle != "JSON Input" {
      metadataSection := metadataSection + "Title: " + sourceTitle + "\n";
    }
    assert metadataSection == opening + titlePart;
    if sourceAuthor != "" {
      metadataSection := metadataSection + "Author: " + sourceAuthor + "\n";
    }
    assert metadataSection == opening + titlePart + authorPart;
    metadataSection := metadataSection + Repeat('-', 100) + "\n";
    if '\n' !in sourceTitle && '\n' !in sourceAuthor {
      MetadataSectionLines(sourceTitle, sourceAuthor);
    }
  }

  /**
    The lines of the metadata section: two empty lines, the heading and a
    sub-separator, a title line unless the title is the default, an author line
    unless the author is empty, a closing sub-separator, and the empty rest after
    the final line feed.
   */
  function MetadataSectionLinesOf(title: string, author: string): seq<string> {
    ["", "", "METADATA:", SubSeparator] +
    (if title != DefaultTitle then ["Title: " + title] else []) +
    (if author != "" then ["Author: " + author] else []) +
    [SubSeparator, ""]
  }

  /** A line followed by a line feed, when present, adds that line in front of the rest's lines. */
  lemma OptionalLineSplit(present: bool, line: string, rest: string)
    requires '\n' !in line
    ensures Split((if present then line + "\n" else "") + rest, '\n') == (if present then [line] else []) + Split(rest, '\n')
  {
    if present {
      assert (line + "\n") + rest == line + ['\n'] + rest;
      SplitAppend(line, rest, '\n');
    } else {
      assert "" + rest == rest;
    }
  }

  /** The metadata section regrouped line by line, for any sub-separator and optional parts (a proof step only). */
  lemma MetadataRegroup(sub: string, titlePart: string, authorPart: string)
    ensures "\n\nMETADATA:\n" + sub + "\n" + titlePart + authorPart + sub + "\n" ==
      "" + "\n" + ("" + "\n" + ("METADATA:" + "\n" + (sub + "\n" + (titlePart + (authorPart + (sub + "\n" + ""))))))
  {
  }

  /** The metadata lines regrouped as they are split off one by one (a proof step only). */
  lemma MetadataLinesRegroup(sub: string, titleLines: seq<string>, authorLines: seq<string>)
    ensures [""] + ([""] + (["METADATA:"] + ([sub] + (titleLines + (authorLines + ([sub] + [""])))))) ==
      ["", "", "METADATA:", sub] + titleLines + authorLines + [sub, ""]
  {
  }

  /** For a title and author on one line each, the metadata section is split into exactly those lines. */
  lemma MetadataSectionLines(title: string, author: string)
    requires '\n' !in title && '\n' !in author
    ensures Split(MetadataSection(title, author), '\n') == MetadataSectionLinesOf(title, author)
  {
    var sub := SubSeparator;
    assert sub[0] == '-';
    assert '\n' !in sub;
    assert '\n' !in "Author: " && '\n' !in "Title: " && '\n' !in "METADATA:";
    var titlePart := if title != DefaultTitle then "Title: " + title + "\n" else "";
    var authorPart := if author != "" then "Author: " + author + "\n" else "";
    var titleLines := if title != DefaultTitle then ["Title: " + title] else [];
    var authorLines := if author != "" then ["Author: " + author] else [];
    var closing := sub + "\n" + "";
    OptionalLineSplit(true, sub, "");
    var a := authorPart + closing;
    OptionalLineSplit(author != "", "Author: " + author, closing);
    var r := titlePart + a;
    OptionalLineSplit(title != DefaultTitle, "Title: " + title, a);
    var body := sub + "\n" + r;
    OptionalLineSplit(true, sub, r);
    var m := "METADATA:" + "\n" + body;
    OptionalLineSplit(true, "METADATA:", body);
    var e := "" + "\n" + m;
    OptionalLineSplit(true, "", m);
    OptionalLineSplit(true, "", e);
    MetadataRegroup(sub, titlePart, authorPart);
    MetadataLinesRegroup(sub, titleLines, authorLines);
  }

  /** The first seven header lines joined: the report up to the separator that closes the header. */
  function HeaderText(sourceFile: string, timestamp: string, pages: nat): string {
    JoinWith(HeaderLines(sourceFile, timestamp, pages)[..7], "\n")
  }

  /**
    The report opens with the header text, which ends in a separator and holds
    no empty line, followed by three line feeds (the two empty lines before the
    table of contents).
   */
  lemma HeaderTextShape(summaries: seq<PageSummary>, sourceFile: string, timestamp: string)
    requires '\n' !in sourceFile && '\n' !in timestamp
    ensures var report := FormattedReport(summaries, sourceFile, timestamp);
      var head := HeaderText(sourceFile, timestamp, |summaries|);
      |head| >= 100 && head[|head| - 100..] == Separator && NoEmptyLine(head) &&
      |report| >= |head| + 3 && report[..|head| + 3] == head + "\n\n\n"
  {
    HeaderTextEnds(sourceFile, timestamp, |summaries|);
    ReportOpensWithHeader(summaries, sourceFile, timestamp);
  }

  lemma HeaderTextEnds(sourceFile: string, timestamp: string, pages: nat)
    requires '\n' !in sourceFile && '\n' !in timestamp
    ensures var head := HeaderText(sourceFile, timestamp, pages);
      |head| >= 100 && head[|head| - 100..] == Separator && NoEmptyLine(head)
  {
    var first := HeaderLines(sourceFile, timestamp, pages)[..7];
    assert first == first[..6] + [Separator];
    JoinWithSnoc(first[..6], Separator, "\n");
    HeaderLinesAreSingle(sourceFile, timestamp, pages);
    JoinLinesNoEmptyLine(first);
  }

  lemma ReportOpensWithHeader(summaries: seq<PageSummary>, sourceFile: string, timestamp: string)
    ensures var report := FormattedReport(summaries, sourceFile, timestamp);
      var head := HeaderText(sourceFile, timestamp, |summaries|);
      |report| >= |head| + 3 && report[..|head| + 3] == head + "\n\n\n"
  {
    var lines := ReportLines(summaries, sourceFile, timestamp);
    var first := HeaderLines(sourceFile, timestamp, |summaries|)[..7];
    var tail := lines[9..];
    assert lines == first + (["", ""] + tail);
    assert |tail| >= 1 by { ReportBack(summaries, sourceFile, timestamp); }
    JoinWithBlankPair(first, tail);
  }

  /** Each of the first seven header lines is a non-empty single line. */
  lemma HeaderLinesAreSingle(sourceFile: string, timestamp: string, pages: nat)
    requires '\n' !in sourceFile && '\n' !in timestamp
    ensures forall i :: 0 <= i < 7 ==> SingleLine(HeaderLines(sourceFile, timestamp, pages)[i])
  {
    var h := HeaderLines(sourceFile, timestamp, pages);
    assert Separator[0] == '=';
    assert '\n' !in Separator;
    assert '\n' !in "PDF SUMMARY REPORT";
    CenterAvoids("PDF SUMMARY REPORT", ReportWidth, '\n');
    assert |Center("PDF SUMMARY REPORT", ReportWidth)| >= 1;
    assert '\n' !in NatToString(pages);
    assert '\n' !in "Source File: " && '\n' !in "Generated: " && '\n' !in "Total Pages: ";
  }

  /**
    In a text that opens with a line `head` ending in `sep` and holding no empty
    line, followed by three line feeds, the first place `sep` is followed by
    three line feeds is the end of `head`.
   */
  lemma FirstBreakAfterHead(report: string, head: string, sep: string)
    requires |sep| >= 1 && sep[|sep| - 1] != '\n'
    requires |head| >= |sep| && head[|head| - |sep|..] == sep && NoEmptyLine(head)
    requires |report| >= |head| + 3 && report[..|head| + 3] == head + "\n\n\n"
    ensures OccursAt(report, sep + "\n\n\n", |head| - |sep|)
    ensures forall j: nat :: j < |head| - |sep| ==> !OccursAt(report, sep + "\n\n\n", j)
  {
    var k := |sep|;
    var pat := sep + "\n\n\n";
    var i0 := |head| - k;
    assert report[i0..i0 + k + 3] == pat by {
      assert report[i0..i0 + k + 3] == (head + "\n\n\n")[i0..i0 + k + 3];
    }
    assert pat[k] == '\n' && pat[k + 1] == '\n';
    forall j: nat | j < i0
      ensures !OccursAt(report, pat, j)
    {
      var w := report[j..j + k + 3];
      assert w[k] == report[j + k] && w[k + 1] == report[j + k + 1];
      assert report[j + k] == head[j + k];
      if j + k + 1 < |head| {
        assert report[j + k + 1] == head[j + k + 1];
      } else {
        assert head[j + k] == sep[k - 1];
      }
      assert w[k] != '\n' || w[k + 1] != '\n';
    }
  }

  /** Replacing the first `sep` followed by three line feeds, in a text that opens with `head`. */
  lemma SpliceAfterHead(report: string, head: string, sep: string, section: string)
    requires |sep| >= 1 && sep[|sep| - 1] != '\n'
    requires |head| >= |sep| && head[|head| - |sep|..] == sep && NoEmptyLine(head)
    requires |report| >= |head| + 3 && report[..|head| + 3] == head + "\n\n\n"
    ensures ReplaceFirst(report, sep + "\n\n\n", sep + section + "\n\n") ==
      report[..|head|] + section + report[|head| + 1..]
  {
    var h := |head|;
    var i0 := h - |sep|;
    var pat := sep + "\n\n\n";
    FirstBreakAfterHead(report, head, sep);
    ReplaceFirstAt(report, pat, sep + section + "\n\n", i0);
    var rest := report[h + 3..];
    assert report[i0 + |pat|..] == rest;
    assert report[..i0] + sep == report[..h] by {
      assert report[..h] == head;
    }
    assert report[h + 1..] == "\n\n" + rest;
    SpliceRegroup(report[..i0], sep, section, rest);
  }

  /** The replaced text regrouped around the separator (a proof step only). */
  lemma SpliceRegroup(before: string, sep: string, section: string, rest: string)
    ensures before + (sep + section + "\n\n") + rest == (before + sep) + section + ("\n\n" + rest)
  {
  }

  /**
    The metadata splice leaves the report unchanged when there is no author and
    the title is the default. Otherwise it inserts the metadata section right
    after the separator that closes the header (a source file and a timestamp
    are single lines), taking the place of one of the three line feeds there;
    the rest of the report is untouched.
   */
  lemma MetadataSplice(summaries: seq<PageSummary>, sourceFile: string, timestamp: string, title: string, author: string)
    requires '\n' !in sourceFile && '\n' !in timestamp
    ensures var report := FormattedReport(summaries, sourceFile, timestamp);
      var h := |HeaderText(sourceFile, timestamp, |summaries|)|;
      h + 3 <= |report| && report[h..h + 3] == "\n\n\n" &&
      (!HasMetadata(title, author) ==> WithMetadata(report, title, author) == report) &&
      (HasMetadata(title, author) ==>
        WithMetadata(report, title, author) == report[..h] + MetadataSection(title, author) + report[h + 1..])
  {
    var report := FormattedReport(summaries, sourceFile, timestamp);
    var head := HeaderText(sourceFile, timestamp, |summaries|);
    var h := |head|;
    HeaderTextShape(summaries, sourceFile, timestamp);
    assert report[h..h + 3] == (head + "\n\n\n")[h..h + 3];
    if HasMetadata(title, author) {
      SpliceAfterHead(report, head, Separator, MetadataSection(title, author));
    }
  }

  /** A JSON input without metadata reports like the text path does, with the JSON defaults and no splice. */
  lemma JsonWithoutMetadata(json: JsonInput, summarize: string -> string, timestamp: string)
    requires json.metadata.None?
    ensures TitleOf(json) == "JSON Input" && AuthorOf(json) == "" && SourceOf(json) == "json_data.json"
    ensures var textSummary := TextSummary(ContentOf(json), summarize);
      var summaries := [PageSummary(1, textSummary, [], ShortDigest(textSummary, "JSON Input"))];
      WithMetadata(FormattedReport(summaries, SourceOf(json), timestamp), TitleOf(json), AuthorOf(json)) ==
        FormattedReport(summaries, "json_data.json", timestamp)
  {
  }
}
