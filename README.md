# SIH-Summarizer report core, modelled in Dafny

SIH-Summarizer turns the pages of a PDF, a plain text or a JSON object into
summaries and then builds two reports from them. Summaries come from a remote
language model, and image descriptions from a vision model. This project
models the part that does not depend on those services:

- **Chunking** (`Chunker`, chunker.dfy). `chunk_text` cuts a long text into
  windows of at most `max_chars` characters. Where it can, it cuts at the last
  line feed or full stop past the middle of the window.
- **Paragraph reflow** (`Reflow`, reflow.dfy). `format_paragraph` and
  `format_text_with_paragraphs` rewrap every non-blank line of a text greedily
  to a width, with an indent, and separate the paragraphs by blank lines.
- **Page records** (`PageSummaries`, summaries.dfy). `summarize_pdf_pages`
  does four things for each page:
  - joins the stripped chunk summaries of its text;
  - drops the images whose description mentions one of eleven "black image"
    phrases;
  - builds the `combined_short` digest, at most 160 characters long (the
    summary's first line cut to 100, then " | Image: " and at most 50
    characters of the first kept description);
  - records the page.
- **Plain-text report** (`Report`, report.dfy). `create_formatted_report`
  writes:
  - a header;
  - a table of contents with one entry per page (digest cut to 85 characters);
  - one section per page, holding the reflowed text and one eleven-line block
    per kept image;
  - a footer.
- **Text and JSON entry points** (`Inputs`, inputs.dfy).
  `summarize_text_input` and `summarize_json_input` each build a single
  page-1 record, with the fallback digests "Text Summary" or the title. The
  JSON path also splices a METADATA section into the report. It goes right
  after the first separator that is followed by two empty lines, taking the
  place of one of the three line feeds there. The separator stays, and the two
  empty lines now follow the section.
- **PDF writer** (`PdfRender`, render.dfy). `write_summary_pdf` draws on a
  canvas, modelled as a `Canvas` class whose `ops` log records every
  `drawString`, `drawRightString` and `showPage`. It breaks the page when the
  cursor falls below 50. `chunk_text_for_pdf` cuts hard 100-character pieces.
- **Python string operations** (`Strings`, strings.dfy). `strip`, `lower`,
  `split`, `join`, `replace(..., 1)`, `center`, `{:3d}` and `str(int)`, each
  with its properties.

Every loop of the source is a `method` with a `for` or `while` loop. Each is
proved equal to a specification function, and the lemmas state what the
source promises about that function.

The remote summariser, the image describer, the image metadata extractor and
the clock are parameters:

- `summarize: string -> string`;
- `describe: Img -> string`;
- `metaOf: Img -> map<string, string>`;
- the `timestamp` string.

## Model

| member | source | states |
|---|---|---|
| Chunker.LastBreakIsLast | summarizer.py:21 | The chosen index is a line feed or full stop, and no later character of the window is one; -1 when there is none |
| Chunker.ChunkAtSound | summarizer.py:19-26 | The chunk taken at `start` is the text from `start` on. When the window of the next `max_chars` characters has a line feed or full stop past `int(0.5*max_chars)`, the chunk ends just after the last one; otherwise it is the whole window |
| Chunker.CutUnique | summarizer.py:19-26 | The cut rule fixes the chunk: two chunks that both obey it for the same window are equal |
| Chunker.ChunksSound | summarizer.py:16-28 | For text longer than the window: the chunks put back together are the text, there are at least two, each holds 1..`max_chars` characters, and chunk `i` is the cut of the window that starts where chunks 0..i-1 end |
| Chunker.ChunksUnique | summarizer.py:16-28 | Any chunking that concatenates to the text and cuts every window by the rule is the one `chunk_text` returns |
| Chunker.ChunkText | summarizer.py:12-28 | The loop yields exactly the specified chunks, which concatenate back to the text; a text within the window is the single chunk `[text]` |
| Reflow.WrapSound | summarizer.py:40-47 | The greedy wrap keeps every word in order, and no line could have taken the next line's first word |
| Reflow.RenderSound | summarizer.py:40-47 | Printing greedy word groups gives indented lines within the width (or a single overlong word) that hold the same words |
| Reflow.FormatParagraphSound | summarizer.py:30-48 | For a non-blank paragraph, the lines are wrapped lines with the indent, and their words are the paragraph's words in order |
| Reflow.FormatParagraphWords | summarizer.py:35-48 | Reflow keeps the words of the text; it is "" only for a whitespace-only text |
| Reflow.FormatParagraphIndented | summarizer.py:38-47 | A reflowed non-blank paragraph starts with the indent followed by a word |
| Reflow.FormattedParagraphsWords | summarizer.py:58-71 | Joining the reflowed paragraphs with blank lines keeps all the words of the lines, in order |
| Reflow.FormattedParagraphsIndented | summarizer.py:61-68 | Every collected paragraph starts with the indent and a word |
| Reflow.ParagraphsWords | summarizer.py:50-71 | `format_text_with_paragraphs` keeps every word of the text, in order |
| Reflow.ParagraphsShape | summarizer.py:54-71 | The result is "" exactly when the text is whitespace-only; otherwise it starts indented |
| Reflow.ParagraphsLayout | summarizer.py:54-71 | For a text that is not whitespace-only, every output line is empty or a wrapped line with the indent; no two empty lines are adjacent; the first and last lines are not empty |
| Reflow.FormatParagraphStripped | summarizer.py:35-41 | `format_paragraph` strips its text itself, so reflowing an already stripped paragraph gives the same block |
| Reflow.ReflowEach | summarizer.py:58-68 | One block per paragraph, in order: block `k` is paragraph `k` reflowed on its own |
| Reflow.FormattedParagraphsBlocks | summarizer.py:58-68 | The collected blocks are exactly the non-blank lines, each stripped and reflowed on its own, one block per line, in their original order |
| Reflow.JoinedBlockLines | summarizer.py:71 | Blocks joined by blank lines split into the blocks' lines with exactly one empty line between two blocks |
| Reflow.ParagraphBlocks | summarizer.py:50-71 | Paragraph breaks are preserved: for a non-blank text the result is the reflowed non-blank lines, in order, joined by blank lines; no block holds an empty line, so the result's empty lines are exactly the breaks |
| Reflow.FormatTextWithParagraphs | summarizer.py:50-71 | The loop computes the specified text, which is "" iff the input is blank, keeps the words, has the paragraph layout, and is the reflowed non-blank lines joined by blank lines |
| PageSummaries.TextSummaryChunks | summarizer.py:196-206 | Blank text gives ""; text within 35000 characters is summarised in one call; longer text is summarised over at least two well-cut chunks that concatenate to the text |
| PageSummaries.SummarizeText | summarizer.py:196-206 | The chunk loop yields the stripped chunk summaries joined by blank lines |
| PageSummaries.FilterMapSound | summarizer.py:210-229 | A filter keeps exactly the elements passing the test, mapped, in their original order |
| PageSummaries.KeptImagesSound | summarizer.py:210-229 | The kept images are exactly those whose stripped, lower-cased description contains none of the eleven phrases, in order, each with its stripped description |
| PageSummaries.KeptStaysKept | summarizer.py:216-229 | A kept description is already stripped and still passes the filter |
| PageSummaries.SummarizeImages | summarizer.py:209-229 | The image loop yields exactly the kept images |
| PageSummaries.ShortHeadSound | summarizer.py:233-238 | The text half of the digest is the first line of the summary, cut to 100 characters, a prefix of the summary |
| PageSummaries.ShortImageSound | summarizer.py:240-246 | The image half is a bar separator, "Image: " and at most 50 characters of the first description's first line, or "" when there is no kept image or its description is empty |
| PageSummaries.CombinedShortSound | summarizer.py:231-246 | The digest is one line of at most 160 characters: the summary's first line (≤100), then the image part when present |
| PageSummaries.ShortDigestAgrees | summarizer.py:290 | The text and JSON digests equal the page digest of an image-less page unless the summary is empty, when they fall back |
| PageSummaries.BuildCombinedShort | summarizer.py:231-246 | The `+=` steps build exactly the digest |
| PageSummaries.SummarizePdfPages | summarizer.py:190-253 | One record per page, in order: page number, text summary, kept images and digest |
| Report.ShortenSound | summarizer.py:102-104 | A table-of-contents digest is at most 85 characters: its first 82 plus "..." when cut, itself otherwise |
| Report.TocEntryShape | summarizer.py:106 | An entry is "Page ", the right-aligned page number, ": ", then the shortened digest |
| Report.ReportHeader | summarizer.py:82-91 | The first nine lines are a separator, "PDF SUMMARY REPORT" centred in 100 columns, a separator, "Source File: " with the file name, "Generated: " with the timestamp, "Total Pages: " with the page count, a separator and two empty lines |
| Report.ReportFront | summarizer.py:82-111 | The header holds the page count on line 5; entry `i` is on line `12+i`, in page order; the table closes with a separator |
| Report.ReportBack | summarizer.py:168-173 | The last three lines are the footer, and the line count is 19 + pages + section lines |
| Report.ReportFraming | summarizer.py:83-173 | The report text starts and ends with a full 100-character separator |
| Report.EmptyReport | summarizer.py:73-173 | With no pages the report is 19 lines: "Total Pages: 0", an empty table, the footer |
| Report.SectionsInOrder | summarizer.py:114-122 | One section per page in page order, each opened by its centred "PAGE n" title between separators |
| Report.SectionShape | summarizer.py:117-166 | A section's length; "TEXT CONTENT:" is on line 5 iff there is a text summary, with the reflowed text on line 8; "IMAGE ANALYSIS:" follows iff some image was kept, then one block per image |
| Report.SectionTextPart | summarizer.py:124-133 | "TEXT CONTENT:" is on line 5 exactly when the text summary is non-empty, with the reflowed text on line 8 |
| Report.SectionImagePart | summarizer.py:135-164 | "IMAGE ANALYSIS:" follows the text part exactly when an image was kept, followed by the image blocks |
| Report.ImageBlocksAt | summarizer.py:141-164 | Image `k` (numbered from 1) occupies its own 11 lines, in order |
| Report.ImageBlockShape | summarizer.py:141-164 | A block is 11 lines: "Image k:", empty, the width x height line, the format line and the mode line (each value from the metadata or "N/A"), empty, "  Description:", empty, the description reflowed to width 96 with a 4-space indent, and two empty lines |
| Report.AppendImageBlock | summarizer.py:142-164 | Appends exactly one image block |
| Report.AppendImageLines | summarizer.py:136-164 | The images loop appends the image part |
| Report.AppendSection | summarizer.py:114-166 | Appends exactly one page section |
| Report.AppendTocEntries | summarizer.py:98-106 | The table-of-contents loop appends one entry per page |
| Report.AppendSections | summarizer.py:114-166 | The sections loop appends the sections in page order |
| Report.CreateFormattedReport | summarizer.py:73-173 | The built report is the specified report |
| Report.SummarizePdfPagesWithReport | summarizer.py:255-257 | With `create_report`, the records and the report built from them |
| Inputs.SummarizeTextInput | summarizer.py:276-296 | One page-1 record without images, digest falling back to "Text Summary", reported as "text_input.txt" |
| Inputs.BuildMetadataSection | summarizer.py:359-365 | The `+=` steps build the METADATA section, whose lines are those of `MetadataSectionLines` for a one-line title and author |
| Inputs.MetadataSectionLines | summarizer.py:359-365 | For a one-line title and author, the section splits into two empty lines, "METADATA:", a rule, "Title: t" unless the title is "JSON Input", "Author: a" unless the author is empty, a rule and the empty rest after the last line feed |
| Inputs.SummarizeJsonInput | summarizer.py:326-371 | Missing keys take their defaults; one page-1 record with the title as fallback digest; the report with the metadata spliced in |
| Inputs.HeaderTextShape | summarizer.py:83-91 | The report opens with the seven header lines, which end in a separator and hold no empty line, then three line feeds |
| Inputs.SpliceAfterHead | summarizer.py:367-371 | The first separator followed by three line feeds is the one closing the header, so the replacement lands there |
| Inputs.MetadataSplice | summarizer.py:357-371 | Without author and with the default title the report is unchanged; otherwise the section replaces one of the three line feeds after the header and nothing else changes |
| Inputs.JsonWithoutMetadata | summarizer.py:326-332 | Without metadata the title is "JSON Input", author empty, source "json_data.json", and the report is not spliced |
| Strings.StripIdempotent | summarizer.py:62 | Stripping twice equals stripping once |
| Strings.SplitThenJoin | main.py:46 | Joining the parts of a split with the separator gives the text back |
| Strings.JoinThenSplit | summarizer.py:71 | Splitting a join of separator-free parts gives the parts back |
| Strings.ReplaceFirstAt | summarizer.py:367-371 | Replacing the first occurrence replaces exactly the earliest match |
| Strings.NatToStringRoundTrip | summarizer.py:88 | The decimal digits of `n` have no leading zero (unless `n` is 0) and read back as `n` |
| Strings.DigitsRoundTrip | summarizer.py:88 | A digit string without leading zeros is `str` of its value, so `str(n)` is the one such string for `n` |
| Strings.Pad3Shape | summarizer.py:106 | `{:3d}` is the digits right-aligned with spaces to at least 3 columns |
| Strings.CenterShape | summarizer.py:84 | A centred line is exactly `width` wide, with the text in the middle and spaces around it |
| PdfRender.PdfPiecesSound | main.py:79-87 | The pieces concatenate to the text; all but the last are exactly `max_len` long; the last is 1..`max_len`; empty text gives no pieces |
| PdfRender.ChunkTextForPdf | main.py:79-87 | The loop yields exactly the specified pieces |
| PdfRender.Canvas.constructor | main.py:11 | A new canvas has drawn nothing |
| PdfRender.Canvas.DrawString | main.py:18 | Logs one left-aligned draw |
| PdfRender.Canvas.DrawRightString | main.py:20 | Logs one right-aligned draw |
| PdfRender.Canvas.ShowPage | main.py:33 | Logs one page break |
| PdfRender.BasenameSound | main.py:18 | The base name is the '/'-free tail of the path after its last '/' |
| PdfRender.LinePiecesSound | main.py:46-48 | Each line's 100-character pieces give the line back; all pieces hold 1..100 characters |
| PdfRender.CheckedLinesKeepCutoff | main.py:47-53 | In a checked loop every line after the first is drawn at or above 50, and the cursor ends there |
| PdfRender.TocInOrder | main.py:16-34 | The texts drawn up to the sections are the title line, the table title, then one "Page n: digest" line per record, in order |
| PdfRender.TocLineShape | main.py:29 | A table line is "Page n: " and the first 120 characters of the digest |
| PdfRender.SectionDraws | main.py:37-75 | A section draws its title, then the text pieces or the text placeholder, then the image label and description pieces or the image placeholder |
| PdfRender.SectionStartsPage | main.py:38-42 | A section starts with a page break and its title at the top |
| PdfRender.PageBreakPerRecord | main.py:37-39 | The document keeps the table-of-contents drawing as prefix and adds at least one page break per record |
| PdfRender.PlaceholdersPassCutoff | main.py:54-75 | The placeholder lines are not checked: a record can draw below 50 and leave the cursor there |
| PdfRender.FirstCheckedLineMayBeLow | main.py:61-70 | The first line of a checked loop is drawn wherever the cursor is, below 50 included |
| PdfRender.DrawPieces | main.py:48-53 | The inner loop over one line's pieces draws exactly the checked lines of those pieces, in order |
| PdfRender.DrawTextLines | main.py:45-53 | The nested line/piece loop draws exactly the checked lines of the text pieces |
| PdfRender.DrawChecked | main.py:49-53 | One line drawn at the cursor, the cursor lowered by the step, and a page break with the cursor back at the top when it falls below 50 |
| PdfRender.DrawDescriptions | main.py:64-72 | The loop over the kept image descriptions draws exactly the checked lines of their 100-character pieces, description after description, with step 9 |
| PdfRender.DrawSection | main.py:37-75 | One record's section on the canvas is the specified section |
| PdfRender.SectionsDrawn | main.py:37-75 | The sections loop keeps what was drawn and then draws each record's section texts (title, text part, image part) in record order |
| PdfRender.DocumentTexts | main.py:10-77 | The document draws the title line, the table title, one table line per record, then every record's section texts, in record order |
| PdfRender.DrawToc | main.py:28-34 | The table-of-contents loop draws exactly the checked lines `Page N: <first 120 characters of the short summary>`, one per record, in order |
| PdfRender.WriteSummaryPdf | main.py:10-77 | The canvas log is exactly the specified operations, whose drawn texts are those of `DocumentTexts` |

## Left out

- Reflow: `textwrap.fill` keeps the whitespace runs inside a line and turns tabs into spaces. The model joins the words of a line with single spaces, so its contracts speak about words, widths and indents.
- Reflow: only widths above zero are modelled; `textwrap` rejects a width of 0 or less.
- Chunker.ChunkText: requires `max_chars > 0` for text longer than the window. The source loops forever on such input.
- PdfRender.ChunkTextForPdf: requires `max_len > 0` for non-empty text. The source loops forever otherwise.
- Whitespace is the six characters `textwrap` splits on: space, tab, line feed, carriage return, vertical tab and form feed. Python's `strip` and `isspace` also remove or accept U+001C to U+001F and non-ASCII spaces, which the model treats as ordinary characters. Lower-casing is ASCII only, while Python's `lower` also acts on other Unicode letters.
- The remote models (`client.summarize_text`, `client.analyze_image`) are function parameters. So are the metadata extractor and the UTC clock reading.
- PNG re-encoding, the progress bar and the PDF text extraction are not modelled. gemini_client.py, pdf_reader.py and image_ocr.py are not part of this model.
- The metadata map is a parameter. The repository's extractor returns `ocr_text`, `is_chart` and `size`, so with it every "Dimensions", "Format" and "Mode" value reads "N/A". `ImageBlockShape` states that case: the lines are "  Dimensions: N/A x N/A pixels", "  Format: N/A" and "  Mode: N/A".
- `summarize_text_input` and `summarize_json_input` import `write_formatted_summary_pdf` from main.py, which does not define it. They therefore raise `ImportError` before doing anything. The model describes the records and the report they would build past that import, and leaves out the PDF they would write.
- Fonts (`setFont`), `c.save()` and the output path are not modelled. Coordinates are reals, and the page geometry (`height - margin`, margin, width) is a parameter.
- Inputs.MetadataSplice: proved only for a source name and a timestamp without line feeds, and so is `HeaderTextShape`. A JSON `source` such as a 100-character separator followed by two line feeds puts a separator and three line feeds inside the "Source File:" line, and the first-occurrence replace then inserts the section there instead of after the header. `SummarizeJsonInput` still computes that report; no lemma describes where the section lands in that case.
- `os.path.basename` is modelled with '/' as the only separator.
- JSON values and metadata values are strings. A JSON `content` or `title` of another type is not modelled.
- Records are datatypes rather than dictionaries, so a missing key in a record cannot occur.
- `run`, the command-line and web front ends, and the FastAPI app are not part of this model.
