/**
  The per-page records built by `summarize_pdf_pages` in summarizer.py: the
  joined chunk summaries of the page text, the image descriptions that survive
  the blank-image filter, and the short digest used by the table of contents.
  The remote summariser, the image describer and the image metadata extractor
  are function parameters.
 */
module PageSummaries {
  import opened Strings
  import opened Chunker

  /** A kept image: its metadata, as strings, and its stripped description. */
  datatype ImageSummary = ImageSummary(meta: map<string, string>, desc: string)

  /** The record kept for each page (`page_no`, `text_summary`, `image_summaries`, `combined_short`). */
  datatype PageSummary = PageSummary(
    pageNo: nat,
    textSummary: string,
    imageSummaries: seq<ImageSummary>,
    combinedShort: string)

  /** One extracted page: its number, its text and its images. */
  datatype PageRecord<Img> = PageRecord(pageNo: nat, text: string, images: seq<Img>)

  /** The phrases that mark a description as one of a black or empty image. */
  const BlackKeywords: seq<string> := [
    "completely black", "filled black rectangle", "solid black", "uniformly dark",
    "entirely black", "pure black", "devoid of", "no discernible",
    "uniform expanse of darkness", "uniformly black", "solid, uniform expanse"
  ]

  /** `g` applied to every element of `xs`, in order. */
  function MapSeq<A, B>(xs: seq<A>, g: A -> B): (r: seq<B>)
    ensures |r| == |xs|
  {
    seq(|xs|, i requires 0 <= i < |xs| => g(xs[i]))
  }

  /** Mapping one more element appends its image. */
  lemma MapSeqSnoc<A, B>(xs: seq<A>, i: nat, g: A -> B)
    requires i < |xs|
    ensures MapSeq(xs[..i + 1], g) == MapSeq(xs[..i], g) + [g(xs[i])]
  {
  }

  /** The summary of each chunk, stripped, in chunk order. */
  function StrippedSummaries(chunks: seq<string>, summarize: string -> string): seq<string> {
    MapSeq(chunks, c => Strip(summarize(c)))
  }

  /** One more chunk summary for the loop in `SummarizeText`. */
  lemma StrippedSummariesSnoc(chunks: seq<string>, i: nat, summarize: string -> string)
    requires i < |chunks|
    ensures StrippedSummaries(chunks[..i + 1], summarize) ==
      StrippedSummaries(chunks[..i], summarize) + [Strip(summarize(chunks[i]))]
  {
    MapSeqSnoc(chunks, i, c => Strip(summarize(c)));
  }

  /** `text_summary`: "" for whitespace-only text, else the stripped chunk summaries joined by blank lines. */
  function TextSummary(text: string, summarize: string -> string): string {
    if IsBlank(text) then ""
    else JoinWith(StrippedSummaries(Chunks(text, DefaultMaxChars), summarize), "\n\n")
  }

  /**
    Text that fits in one window is summarised in a single call; longer text is
    summarised chunk by chunk, over chunks that together are the text, each
    within the window, and cut at a line or sentence end where one lies past
    the middle of the window.
   */
  lemma TextSummaryChunks(text: string, summarize: string -> string)
    ensures IsBlank(text) ==> TextSummary(text, summarize) == ""
    ensures !IsBlank(text) && |text| <= DefaultMaxChars ==>
      TextSummary(text, summarize) == Strip(summarize(text))
    ensures !IsBlank(text) && |text| > DefaultMaxChars ==>
      var chunks := Chunks(text, DefaultMaxChars);
      Concat(chunks) == text && |chunks| >= 2 && WellCut(chunks, text, DefaultMaxChars) &&
      TextSummary(text, summarize) == JoinWith(StrippedSummaries(chunks, summarize), "\n\n")
  {
    if |text| > DefaultMaxChars {
      ChunksSound(text, DefaultMaxChars);
    } else if !IsBlank(text) {
      assert MapSeq([text], c => Strip(summarize(c)))[0] == Strip(summarize(text));
    }
  }

  /** The text half of the page loop: chunk the text, summarise each chunk and join the stripped summaries. */
  method SummarizeText(text: string, summarize: string -> string) returns (textSummary: string)
    ensures textSummary == TextSummary(text, summarize)
  {
    textSummary := "";
    if Strip(text) != "" {
      var chunks := ChunkText(text, DefaultMaxChars);
      var chunkSummaries: seq<string> := [];
      for i := 0 to |chunks|
        invariant chunkSummaries == StrippedSummaries(chunks[..i], summarize)
      {
        var s := summarize(chunks[i]);
        StrippedSummariesSnoc(chunks, i, summarize);
        chunkSummaries := chunkSummaries + [Strip(s)];
      }
      assert chunks[..|chunks|] == chunks;
      textSummary := JoinWith(chunkSummaries, "\n\n");
    }
  }

  /** `any(keyword in desc.strip().lower() for keyword in black_keywords)` */
  predicate IsBlankImage(desc: string) {
    exists k | 0 <= k < |BlackKeywords| :: Contains(Lower(Strip(desc)), BlackKeywords[k])
  }

  /** The entry an image would get: its metadata and its stripped description. */
  function Described<Img>(img: Img, describe: Img -> string, metaOf: Img -> map<string, string>): ImageSummary {
    ImageSummary(metaOf(img), Strip(describe(img)))
  }

  /** The elements of `xs` that `keep` accepts, each mapped by `f`, in their original order. */
  function FilterMap<T, U>(xs: seq<T>, keep: T -> bool, f: T -> U): seq<U> {
    if xs == [] then []
    else
      var done := FilterMap(xs[..|xs| - 1], keep, f);
      var x := xs[|xs| - 1];
      if keep(x) then done + [f(x)] else done
  }

  /** The positions of the elements of `xs` that `keep` accepts, in increasing order. */
  function KeptIndices<T>(xs: seq<T>, keep: T -> bool): seq<nat> {
    if xs == [] then []
    else
      var done := KeptIndices(xs[..|xs| - 1], keep);
      if keep(xs[|xs| - 1]) then done + [|xs| - 1] else done
  }

  /**
    `FilterMap` keeps the accepted elements and only those, in their original
    order: its `j`-th result is `f` of the element at the `j`-th accepted
    position, those positions increase strictly, and every accepted position
    is among them.
   */
  lemma {:induction false} FilterMapSound<T, U>(xs: seq<T>, keep: T -> bool, f: T -> U)
    ensures var r := FilterMap(xs, keep, f); var idx := KeptIndices(xs, keep);
      |r| == |idx| <= |xs| &&
      (forall j :: 0 <= j < |idx| ==> idx[j] < |xs| && keep(xs[idx[j]]) && r[j] == f(xs[idx[j]])) &&
      (forall a, b :: 0 <= a < b < |idx| ==> idx[a] < idx[b]) &&
      (forall i :: 0 <= i < |xs| && keep(xs[i]) ==> i in idx)
    decreases |xs|
  {
    if xs != [] {
      var init := xs[..|xs| - 1];
      FilterMapSound(init, keep, f);
      var idx := KeptIndices(xs, keep);
      var r := FilterMap(xs, keep, f);
      forall j | 0 <= j < |idx|
        ensures idx[j] < |xs| && keep(xs[idx[j]]) && r[j] == f(xs[idx[j]])
      {
        if j < |KeptIndices(init, keep)| {
          assert xs[idx[j]] == init[idx[j]];
        }
      }
      forall i | 0 <= i < |xs| && keep(xs[i])
        ensures i in idx
      {
        if i < |init| {
          assert xs[i] == init[i];
          assert i in KeptIndices(init, keep);
        }
      }
    }
  }

  /** `image_summaries`: the images whose description is not a blank-image one, described, in order. */
  function KeptImages<Img>(images: seq<Img>, describe: Img -> string, metaOf: Img -> map<string, string>): seq<ImageSummary> {
    FilterMap(images, img => !IsBlankImage(describe(img)), img => Described(img, describe, metaOf))
  }

  /** One more image for the loop in `SummarizeImages`: it is kept, described, unless its description is a blank-image one. */
  lemma KeptImagesSnoc<Img>(images: seq<Img>, i: nat, describe: Img -> string, metaOf: Img -> map<string, string>)
    requires i < |images|
    ensures KeptImages(images[..i + 1], describe, metaOf) ==
      KeptImages(images[..i], describe, metaOf) +
        if IsBlankImage(describe(images[i])) then [] else [Described(images[i], describe, metaOf)]
  {
    assert images[..i + 1][..i] == images[..i];
    assert images[..i + 1][i] == images[i];
  }

  /**
    The filter keeps exactly the images whose description mentions none of the
    blank-image phrases, in their original order: the `j`-th entry is the
    image at the `j`-th such position, described, the positions increase, and
    every such image is kept.
   */
  lemma KeptImagesSound<Img>(images: seq<Img>, describe: Img -> string, metaOf: Img -> map<string, string>)
    ensures var kept := KeptImages(images, describe, metaOf);
      var idx := KeptIndices(images, img => !IsBlankImage(describe(img)));
      |kept| == |idx| <= |images| &&
      (forall j :: 0 <= j < |idx| ==>
        idx[j] < |images| && !IsBlankImage(describe(images[idx[j]])) &&
        kept[j] == Described(images[idx[j]], describe, metaOf)) &&
      (forall a, b :: 0 <= a < b < |idx| ==> idx[a] < idx[b]) &&
      (forall i :: 0 <= i < |images| && !IsBlankImage(describe(images[i])) ==> i in idx)
  {
    FilterMapSound(images, img => !IsBlankImage(describe(img)), img => Described(img, describe, metaOf));
  }

  /** A kept description passes the filter again: stripping it once more changes nothing. */
  lemma KeptStaysKept(desc: string)
    requires !IsBlankImage(desc)
    ensures Strip(desc) == Strip(Strip(desc)) && !IsBlankImage(Strip(desc))
  {
    StripIdempotent(desc);
  }

  /** The image half of the page loop: describe each image and keep the non-blank ones. */
  method SummarizeImages<Img>(images: seq<Img>, describe: Img -> string, metaOf: Img -> map<string, string>)
    returns (imageSummaries: seq<ImageSummary>)
    ensures imageSummaries == KeptImages(images, describe, metaOf)
  {
    imageSummaries := [];
    for i := 0 to |images|
      invariant imageSummaries == KeptImages(images[..i], describe, metaOf)
    {
      KeptImagesSnoc(images, i, describe, metaOf);
      var img := images[i];
      var meta := metaOf(img);
      var desc := describe(img);
      var isBlackImage := IsBlankImage(desc);
      if !isBlackImage {
        imageSummaries := imageSummaries + [ImageSummary(meta, Strip(desc))];
      }
    }
    assert images[..|images|] == images;
  }

  /** The text half of `combined_short`: the first line of the text summary, cut to 100 characters. */
  function ShortHead(textSummary: string): string {
    if textSummary != "" then Take(FirstLine(textSummary), 100) else ""
  }

  /** The image half of `combined_short`: " | Image: " and the first description line, cut to 50 characters. */
  function ShortImage(kept: seq<ImageSummary>): string {
    if kept != [] && kept[0].desc != "" then " | Image: " + Take(FirstLine(kept[0].desc), 50) else ""
  }

  /** `combined_short` */
  function CombinedShort(textSummary: string, kept: seq<ImageSummary>): string {
    ShortHead(textSummary) + ShortImage(kept)
  }

  lemma ShortHeadSound(textSummary: string)
    ensures var r := ShortHead(textSummary);
      |r| == Min(100, |FirstLine(textSummary)|) && r == textSummary[..|r|] && '\n' !in r
  {
  }

  lemma ShortImageSound(kept: seq<ImageSummary>)
    ensures var r := ShortImage(kept);
      '\n' !in r &&
      (kept != [] && kept[0].desc != "" ==>
        var d := kept[0].desc;
        |r| == 10 + Min(50, |FirstLine(d)|) && r[..10] == " | Image: " && r[10..] == d[..|r| - 10]) &&
      (kept == [] || kept[0].desc == "" ==> r == "")
  {
    if kept != [] && kept[0].desc != "" {
      var cut := Take(FirstLine(kept[0].desc), 50);
      FirstLineCut(kept[0].desc, 50);
      LabelledLine(" | Image: ", cut);
    }
  }

  /** The first line of `d` cut to `n` characters is a line-feed-free prefix of `d`. */
  lemma FirstLineCut(d: string, n: nat)
    ensures var cut := Take(FirstLine(d), n);
      |cut| == Min(n, |FirstLine(d)|) && cut == d[..|cut|] && '\n' !in cut
  {
    var line := FirstLine(d);
    var cut := Take(line, n);
    assert line == d[..|line|] && cut == line[..|cut|];
    assert forall k :: 0 <= k < |cut| ==> cut[k] == line[k];
  }

  /** A one-line tag followed by a one-line text is one line, split back at the tag's end. */
  lemma LabelledLine(tag: string, s: string)
    requires '\n' !in tag && '\n' !in s
    ensures var r := tag + s;
      '\n' !in r && |r| == |tag| + |s| && r[..|tag|] == tag && r[|tag|..] == s
  {
    var r := tag + s;
    assert forall k :: 0 <= k < |r| ==> r[k] == if k < |tag| then tag[k] else s[k - |tag|];
  }

  /**
    The digest is at most 160 characters and a single line. It starts with the
    first `h` characters of the text summary, where `h` is the length of its
    first line capped at 100; when the first kept image has a description it
    continues with " | Image: " and the first characters of that description,
    up to its first line and at most 50 of them, and otherwise it ends there.
   */
  lemma CombinedShortSound(textSummary: string, kept: seq<ImageSummary>)
    ensures var r := CombinedShort(textSummary, kept);
      var h := Min(100, |FirstLine(textSummary)|);
      |r| <= 160 && '\n' !in r &&
      h <= |r| && r[..h] == textSummary[..h] &&
      (kept != [] && kept[0].desc != "" ==>
        var d := kept[0].desc;
        |r| == h + 10 + Min(50, |FirstLine(d)|) && r[h..h + 10] == " | Image: " && r[h + 10..] == d[..|r| - h - 10]) &&
      (kept == [] || kept[0].desc == "" ==> |r| == h)
  {
    var head := ShortHead(textSummary);
    var tail := ShortImage(kept);
    ShortHeadSound(textSummary);
    ShortImageSound(kept);
    var r := head + tail;
    assert r[..|head|] == head;
    assert r[|head|..] == tail;
    if kept != [] && kept[0].desc != "" {
      assert r[|head|..|head| + 10] == tail[..10];
      assert r[|head| + 10..] == tail[10..];
    }
  }

  /**
    `combined_short` in the text and JSON paths: the first line of the text
    summary cut to 100 characters, or `fallback` ("Text Summary", or the
    title) when the summary is empty.
   */
  function ShortDigest(textSummary: string, fallback: string): string {
    if textSummary != "" then Take(FirstLine(textSummary), 100) else fallback
  }

  /** The text and JSON digest agrees with the page digest of a page without images, except for the fallback. */
  lemma ShortDigestAgrees(textSummary: string, fallback: string)
    ensures textSummary != "" ==> ShortDigest(textSummary, fallback) == CombinedShort(textSummary, [])
    ensures textSummary == "" ==> ShortDigest(textSummary, fallback) == fallback && CombinedShort(textSummary, []) == ""
  {
    assert ShortImage([]) == "";
    assert ShortHead(textSummary) + "" == ShortHead(textSummary);
  }

  /** The part of the page loop that grows `combined_short`, one half at a time. */
  method BuildCombinedShort(textSummary: string, imageSummaries: seq<ImageSummary>) returns (combinedShort: string)
    ensures combinedShort == CombinedShort(textSummary, imageSummaries)
  {
    combinedShort := "";
    if textSummary != "" {
      var firstLine := FirstLine(textSummary);
      if |firstLine| > 100 {
        firstLine := firstLine[..100];
      }
      assert firstLine == Take(FirstLine(textSummary), 100);
      combinedShort := combinedShort + firstLine;
      assert combinedShort == firstLine;
    }
    assert combinedShort == ShortHead(textSummary);
    if imageSummaries != [] {
      var imgDesc := imageSummaries[0].desc;
      if imgDesc != "" {
        var firstImgLine := FirstLine(imgDesc);
        if |firstImgLine| > 50 {
          firstImgLine := firstImgLine[..50];
        }
        assert firstImgLine == Take(FirstLine(imgDesc), 50);
        assert ShortImage(imageSummaries) == " | Image: " + firstImgLine;
        combinedShort := combinedShort + (" | Image: " + firstImgLine);
      }
    }
    assert combinedShort == ShortHead(textSummary) + ShortImage(imageSummaries);
  }

  /** The record `summarize_pdf_pages` produces for one page. */
  function PageSummaryOf<Img>(rec: PageRecord<Img>, summarize: string -> string,
                              describe: Img -> string, metaOf: Img -> map<string, string>): PageSummary {
    var textSummary := TextSummary(rec.text, summarize);
    var kept := KeptImages(rec.images, describe, metaOf);
    PageSummary(rec.pageNo, textSummary, kept, CombinedShort(textSummary, kept))
  }

  /** `summarize_pdf_pages` without the report: one record per page, in page order. */
  function PageSummariesOf<Img>(pageRecords: seq<PageRecord<Img>>, summarize: string -> string,
                                describe: Img -> string, metaOf: Img -> map<string, string>): seq<PageSummary> {
    MapSeq(pageRecords, rec => PageSummaryOf(rec, summarize, describe, metaOf))
  }

  /** `summarize_pdf_pages`: the loop over the pages. */
  method SummarizePdfPages<Img>(pageRecords: seq<PageRecord<Img>>, summarize: string -> string,
                                describe: Img -> string, metaOf: Img -> map<string, string>)
    returns (outputs: seq<PageSummary>)
    ensures outputs == PageSummariesOf(pageRecords, summarize, describe, metaOf)
  {
    outputs := [];
    for r := 0 to |pageRecords|
      invariant outputs == PageSummariesOf(pageRecords[..r], summarize, describe, metaOf)
    {
      var rec := pageRecords[r];
      var textSummary := SummarizeText(rec.text, summarize);
      var imageSummaries := SummarizeImages(rec.images, describe, metaOf);
      var combinedShort := BuildCombinedShort(textSummary, imageSummaries);
      MapSeqSnoc(pageRecords, r, rec => PageSummaryOf(rec, summarize, describe, metaOf));
      outputs := outputs + [PageSummary(rec.pageNo, textSummary, imageSummaries, combinedShort)];
    }
    assert pageRecords[..|pageRecords|] == pageRecords;
  }
}
