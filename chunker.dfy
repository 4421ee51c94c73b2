/**
  The character-window chunker that keeps each request to the remote
  summariser within its input limit (`chunk_text` in summarizer.py).
 */
module Chunker {
  import opened Strings

  /** The default window, in characters. */
  const DefaultMaxChars: nat := 35000

  /** The characters a window may be cut after: a line feed or a full stop. */
  predicate IsBreak(c: char) {
    c == '\n' || c == '.'
  }

  /** `max(w.rfind("\n"), w.rfind("."))`: the index of the last break character, or -1. */
  function LastBreak(w: string): (r: int)
    ensures -1 <= r < |w|
  {
    if |w| == 0 then -1
    else if IsBreak(w[|w| - 1]) then |w| - 1
    else LastBreak(w[..|w| - 1])
  }

  /** `LastBreak` finds a break character, and none follows it. */
  lemma {:induction false} LastBreakIsLast(w: string)
    ensures var r := LastBreak(w);
      (r >= 0 ==> IsBreak(w[r])) && forall j :: r < j < |w| ==> !IsBreak(w[j])
  {
    if |w| > 0 && !IsBreak(w[|w| - 1]) {
      LastBreakIsLast(w[..|w| - 1]);
    }
  }

  /** `int(0.5 * max_chars)`: a break is used only when it lies past this index. */
  function Midpoint(maxChars: nat): nat {
    maxChars / 2
  }

  /** `text[start:start+max_chars]`: the window the loop inspects. */
  function Window(text: string, start: nat, maxChars: nat): (w: string)
    requires start <= |text|
    ensures |w| == Min(maxChars, |text| - start)
  {
    text[start..Min(start + maxChars, |text|)]
  }

  /**
    The chunk taken at `start`: up to and including the last break of the window
    when that break lies past the midpoint, otherwise the whole window.
   */
  function ChunkAt(text: string, start: nat, maxChars: nat): (c: string)
    requires start < |text| && maxChars > 0
    ensures 0 < |c| <= maxChars && start + |c| <= |text|
  {
    var w := Window(text, start, maxChars);
    var lb := LastBreak(w);
    if lb > Midpoint(maxChars) then w[..lb + 1] else w
  }

  /**
    The chunk taken at `start` is the text from `start` on, cut from the window
    there by the rule: up to and including the window's last break when that
    lies past the midpoint, the whole window otherwise.
   */
  lemma ChunkAtSound(text: string, start: nat, maxChars: nat)
    requires start < |text| && maxChars > 0
    ensures var c := ChunkAt(text, start, maxChars);
      c == text[start..start + |c|] && CutOfWindow(c, Window(text, start, maxChars), maxChars)
  {
    var w := Window(text, start, maxChars);
    var lb := LastBreak(w);
    LastBreakIsLast(w);
    if lb > Midpoint(maxChars) {
      var c := w[..lb + 1];
      assert c == ChunkAt(text, start, maxChars);
      assert c[|c| - 1] == w[lb];
      assert HasLateBreak(w, maxChars);
      assert w == text[start..start + |w|];
      assert c == text[start..start + |c|] by {
        assert |c| == lb + 1 <= |w|;
        assert w[..lb + 1] == text[start..start + |w|][..lb + 1];
      }
      assert Midpoint(maxChars) + 1 < |c| <= |w| && c == w[..|c|] && IsBreak(c[|c| - 1]);
    } else {
      forall j | Midpoint(maxChars) < j < |w|
        ensures !IsBreak(w[j])
      {
      }
    }
  }

  /** The cutting rule leaves one chunk per window. */
  lemma CutUnique(c1: string, c2: string, w: string, maxChars: nat)
    requires CutOfWindow(c1, w, maxChars) && CutOfWindow(c2, w, maxChars)
    ensures c1 == c2
  {
    if HasLateBreak(w, maxChars) {
      assert |c1| == |c2|;
    }
  }

  /** Where the loop's `start` goes next: just past the break, or a full window on. */
  function Advance(text: string, start: nat, maxChars: nat): (next: nat)
    requires start < |text| && maxChars > 0
    ensures var c := ChunkAt(text, start, maxChars);
      next == start + |c| || (start + |c| == |text| && next >= |text|)
  {
    var lb := LastBreak(Window(text, start, maxChars));
    if lb > Midpoint(maxChars) then start + lb + 1 else start + maxChars
  }

  /** The chunks the loop appends from `start` onwards. */
  function ChunksFrom(text: string, start: nat, maxChars: nat): seq<string>
    requires maxChars > 0
    decreases |text| - start
  {
    if start >= |text| then []
    else [ChunkAt(text, start, maxChars)] + ChunksFrom(text, Advance(text, start, maxChars), maxChars)
  }

  /** `chunk_text(text, max_chars)` */
  function Chunks(text: string, maxChars: nat): seq<string>
    requires |text| <= maxChars || maxChars > 0
  {
    if |text| <= maxChars then [text] else ChunksFrom(text, 0, maxChars)
  }

  /** Some break character of the window lies past the midpoint. */
  predicate HasLateBreak(w: string, maxChars: nat) {
    exists j :: Midpoint(maxChars) < j < |w| && IsBreak(w[j])
  }

  /**
    The cutting rule for the window `w`: when some break lies past the
    midpoint, the chunk is the window up to and including its last break;
    otherwise the chunk is the whole window.
   */
  predicate CutOfWindow(c: string, w: string, maxChars: nat) {
    if HasLateBreak(w, maxChars) then
      Midpoint(maxChars) + 1 < |c| <= |w| && c == w[..|c|] && IsBreak(c[|c| - 1]) &&
      forall j :: |c| <= j < |w| ==> !IsBreak(w[j])
    else c == w
  }

  /** Where chunk `i` starts in the text: the total length of the chunks before it. */
  function Offset(chunks: seq<string>, i: nat): nat
    requires i <= |chunks|
  {
    |Concat(chunks[..i])|
  }

  /** Chunk `i` is the cut of the window that starts where the chunk starts, shifted by `start`. */
  predicate CutInPlace(chunks: seq<string>, i: nat, text: string, start: nat, maxChars: nat)
    requires i < |chunks|
  {
    start + Offset(chunks, i) < |text| &&
    CutOfWindow(chunks[i], Window(text, start + Offset(chunks, i), maxChars), maxChars)
  }

  /** Every chunk is the cut of the window that starts where it starts, shifted by `start`. */
  predicate WellCutFrom(chunks: seq<string>, text: string, start: nat, maxChars: nat) {
    forall i :: 0 <= i < |chunks| ==> CutInPlace(chunks, i, text, start, maxChars)
  }

  /** Every chunk is the cut of the window of `maxChars` characters that starts where the chunk starts. */
  predicate WellCut(chunks: seq<string>, text: string, maxChars: nat) {
    WellCutFrom(chunks, text, 0, maxChars)
  }

  /** The chunk taken at `start` is the text from `start` on. */
  lemma ChunkAtIsPrefix(text: string, start: nat, maxChars: nat)
    requires start < |text| && maxChars > 0
    ensures var c := ChunkAt(text, start, maxChars); c == text[start..start + |c|]
  {
    ChunkAtSound(text, start, maxChars);
  }

  /** The chunks taken from `start` on are, together, the text from `start` on. */
  lemma {:induction false} ChunksFromConcat(text: string, start: nat, maxChars: nat)
    requires maxChars > 0
    ensures Concat(ChunksFrom(text, start, maxChars)) == if start <= |text| then text[start..] else ""
    decreases |text| - start
  {
    if start < |text| {
      var c := ChunkAt(text, start, maxChars);
      var next := Advance(text, start, maxChars);
      var rest := ChunksFrom(text, next, maxChars);
      ChunkAtIsPrefix(text, start, maxChars);
      ChunksFromConcat(text, next, maxChars);
      assert ChunksFrom(text, start, maxChars) == [c] + rest;
      assert text[start..] == c + (if next <= |text| then text[next..] else "");
      assert Concat([c] + rest) == c + Concat(rest);
    }
  }

  /** The chunks after the first start where they started, moved on by the first chunk. */
  lemma OffsetCons(c: string, rest: seq<string>, i: nat)
    requires 1 <= i <= |rest| + 1
    ensures Offset([c] + rest, i) == |c| + Offset(rest, i - 1)
  {
    var cs := [c] + rest;
    assert cs[..i] == [c] + rest[..i - 1];
    assert ([c] + rest[..i - 1])[1..] == rest[..i - 1];
  }

  /** Chunk `i` after a first chunk `c` is in place exactly when it is in place among the rest, from where `c` ends. */
  lemma CutInPlaceShift(c: string, rest: seq<string>, i: nat, text: string, start: nat, maxChars: nat)
    requires 1 <= i <= |rest|
    ensures CutInPlace([c] + rest, i, text, start, maxChars) == CutInPlace(rest, i - 1, text, start + |c|, maxChars)
  {
    OffsetCons(c, rest, i);
    assert ([c] + rest)[i] == rest[i - 1];
  }

  /** The first chunk is in place when it is the cut of the window at `start`. */
  lemma CutInPlaceFirst(cs: seq<string>, text: string, start: nat, maxChars: nat)
    requires cs != []
    ensures CutInPlace(cs, 0, text, start, maxChars) ==
      (start < |text| && CutOfWindow(cs[0], Window(text, start, maxChars), maxChars))
  {
    assert Offset(cs, 0) == 0 by { assert cs[..0] == []; }
  }

  /** A chunk cut by the rule, followed by chunks cut by the rule from where it ends. */
  lemma WellCutFromCons(c: string, rest: seq<string>, text: string, start: nat, maxChars: nat)
    requires start < |text| && CutOfWindow(c, Window(text, start, maxChars), maxChars)
    requires WellCutFrom(rest, text, start + |c|, maxChars)
    ensures WellCutFrom([c] + rest, text, start, maxChars)
  {
    var cs := [c] + rest;
    CutInPlaceFirst(cs, text, start, maxChars);
    forall i | 1 <= i < |cs|
      ensures CutInPlace(cs, i, text, start, maxChars)
    {
      CutInPlaceShift(c, rest, i, text, start, maxChars);
    }
  }

  /** Every chunk taken from `start` on is the cut of the window where it starts. */
  lemma {:induction false} ChunksFromWellCut(text: string, start: nat, maxChars: nat)
    requires maxChars > 0
    ensures WellCutFrom(ChunksFrom(text, start, maxChars), text, start, maxChars)
    decreases |text| - start
  {
    if start < |text| {
      var c := ChunkAt(text, start, maxChars);
      var next := Advance(text, start, maxChars);
      var rest := ChunksFrom(text, next, maxChars);
      ChunkAtSound(text, start, maxChars);
      ChunksFromWellCut(text, next, maxChars);
      assert ChunksFrom(text, start, maxChars) == [c] + rest;
      assert rest == [] || next == start + |c|;
      WellCutFromCons(c, rest, text, start, maxChars);
    }
  }

  /** The chunks after the first obey the cutting rule from where the first chunk ends. */
  lemma WellCutFromTail(c: string, rest: seq<string>, text: string, start: nat, maxChars: nat)
    requires WellCutFrom([c] + rest, text, start, maxChars)
    ensures WellCutFrom(rest, text, start + |c|, maxChars)
  {
    var next := start + |c|;
    forall i | 0 <= i < |rest|
      ensures CutInPlace(rest, i, text, next, maxChars)
    {
      assert CutInPlace([c] + rest, i + 1, text, start, maxChars);
      CutInPlaceShift(c, rest, i + 1, text, start, maxChars);
    }
  }

  /** The first of the chunks that obey the cutting rule from `start` is the chunk the loop takes there. */
  lemma WellCutFromHead(cs: seq<string>, text: string, start: nat, maxChars: nat)
    requires maxChars > 0 && cs != [] && WellCutFrom(cs, text, start, maxChars)
    ensures start < |text| && cs[0] == ChunkAt(text, start, maxChars)
  {
    CutInPlaceFirst(cs, text, start, maxChars);
    ChunkAtSound(text, start, maxChars);
    CutUnique(cs[0], ChunkAt(text, start, maxChars), Window(text, start, maxChars), maxChars);
  }

  /** Chunks that cover the text from `start` on and obey the cutting rule are the chunks the loop takes. */
  lemma {:induction false} ChunksFromUnique(text: string, start: nat, maxChars: nat, cs: seq<string>)
    requires maxChars > 0 && start <= |text|
    requires Concat(cs) == text[start..] && WellCutFrom(cs, text, start, maxChars)
    ensures cs == ChunksFrom(text, start, maxChars)
    decreases |cs|
  {
    if cs == [] {
      assert text[start..] == [];
    } else {
      var c := cs[0];
      var rest := cs[1..];
      assert cs == [c] + rest;
      WellCutFromHead(cs, text, start, maxChars);
      WellCutFromTail(c, rest, text, start, maxChars);
      var next := start + |c|;
      RestCoversTail(text, start, maxChars, cs);
      if next < |text| {
        ChunksFromUnique(text, next, maxChars, rest);
        assert Advance(text, start, maxChars) == next;
      } else if rest != [] {
        WellCutFromHead(rest, text, next, maxChars);
      }
      assert ChunksFrom(text, start, maxChars) ==
        [ChunkAt(text, start, maxChars)] + ChunksFrom(text, Advance(text, start, maxChars), maxChars);
    }
  }

  /** Once the first chunk is taken, the other chunks cover the rest of the text. */
  lemma RestCoversTail(text: string, start: nat, maxChars: nat, cs: seq<string>)
    requires maxChars > 0 && start < |text| && cs != []
    requires Concat(cs) == text[start..] && cs[0] == ChunkAt(text, start, maxChars)
    ensures start + |cs[0]| <= |text| && Concat(cs[1..]) == text[start + |cs[0]|..]
  {
    var c := cs[0];
    ChunkAtSound(text, start, maxChars);
    assert text[start..] == c + text[start + |c|..];
  }

  /**
    The chunker's promise for text longer than the window: nothing lost or
    duplicated, at least two chunks, each non-empty and at most `maxChars`
    long, and each the cut of the window where it starts.
   */
  lemma ChunksSound(text: string, maxChars: nat)
    requires |text| > maxChars > 0
    ensures Concat(Chunks(text, maxChars)) == text
    ensures WellCut(Chunks(text, maxChars), text, maxChars)
    ensures |Chunks(text, maxChars)| >= 2
    ensures forall i :: 0 <= i < |Chunks(text, maxChars)| ==> 0 < |Chunks(text, maxChars)[i]| <= maxChars
  {
    ChunksFromConcat(text, 0, maxChars);
    ChunksFromWellCut(text, 0, maxChars);
    var cs := Chunks(text, maxChars);
    assert cs != [] by { assert Concat([]) == ""; }
    forall i | 0 <= i < |cs|
      ensures 0 < |cs[i]| <= maxChars
    {
      assert CutInPlace(cs, i, text, 0, maxChars);
      var w := Window(text, Offset(cs, i), maxChars);
      assert CutOfWindow(cs[i], w, maxChars);
    }
  }

  /**
    The cutting rule determines the chunks: any chunks that put back together
    are the text and each obey the rule at their place are the chunks of `chunk_text`.
   */
  lemma ChunksUnique(text: string, maxChars: nat, cs: seq<string>)
    requires |text| > maxChars > 0
    requires Concat(cs) == text && WellCut(cs, text, maxChars)
    ensures cs == Chunks(text, maxChars)
  {
    assert text[0..] == text;
    ChunksFromUnique(text, 0, maxChars, cs);
  }

  /** One turn of the loop in `ChunkText` takes the chunk `ChunksFrom` starts with. */
  lemma LoopStep(text: string, start: nat, maxChars: nat)
    requires start < |text| && maxChars > 0
    ensures var lb := LastBreak(Window(text, start, maxChars));
      lb > Midpoint(maxChars) ==>
        ChunkAt(text, start, maxChars) == text[start..start + lb + 1] &&
        Advance(text, start, maxChars) == start + lb + 1
    ensures var lb := LastBreak(Window(text, start, maxChars));
      lb <= Midpoint(maxChars) ==>
        ChunkAt(text, start, maxChars) == Window(text, start, maxChars) &&
        Advance(text, start, maxChars) == start + maxChars
  {
    var w := Window(text, start, maxChars);
    var lb := LastBreak(w);
    if lb > Midpoint(maxChars) {
      assert w[..lb + 1] == text[start..start + lb + 1];
    }
  }

  /** The loop invariant of `ChunkText` survives taking the chunk at `start`. */
  lemma InvariantStep(text: string, maxChars: nat, chunks: seq<string>, start: nat)
    requires start < |text| && maxChars > 0
    requires chunks + ChunksFrom(text, start, maxChars) == ChunksFrom(text, 0, maxChars)
    ensures (chunks + [ChunkAt(text, start, maxChars)]) + ChunksFrom(text, Advance(text, start, maxChars), maxChars)
      == ChunksFrom(text, 0, maxChars)
  {
    var c := ChunkAt(text, start, maxChars);
    var rest := ChunksFrom(text, Advance(text, start, maxChars), maxChars);
    assert ChunksFrom(text, start, maxChars) == [c] + rest;
    SnocRegroup(chunks, c, rest);
  }

  /** Moving one chunk from the pending ones to the collected ones keeps the whole (a proof step only). */
  lemma SnocRegroup(chunks: seq<string>, c: string, rest: seq<string>)
    ensures (chunks + [c]) + rest == chunks + ([c] + rest)
  {
  }

  /** `chunk_text(text, max_chars)`: the loop that advances `start` through the text. */
  method ChunkText(text: string, maxChars: nat) returns (chunks: seq<string>)
    requires |text| <= maxChars || maxChars > 0
    ensures chunks == Chunks(text, maxChars)
    ensures Concat(chunks) == text
    ensures |text| <= maxChars ==> chunks == [text]
    ensures |text| > maxChars ==> |chunks| >= 2 && WellCut(chunks, text, maxChars)
  {
    if |text| <= maxChars {
      chunks := [text];
      assert Concat(chunks) == text + Concat([]);
      return;
    }
    chunks := [];
    var start: nat := 0;
    while start < |text|
      invariant chunks + ChunksFrom(text, start, maxChars) == ChunksFrom(text, 0, maxChars)
      decreases |text| - start
    {
      LoopStep(text, start, maxChars);
      var chunk := Window(text, start, maxChars);
      var lastBreak := LastBreak(chunk);
      var next: nat;
      if lastBreak > Midpoint(maxChars) {
        chunk := text[start..start + lastBreak + 1];
        next := start + lastBreak + 1;
      } else {
        next := start + maxChars;
      }
      assert chunk == ChunkAt(text, start, maxChars) && next == Advance(text, start, maxChars);
      InvariantStep(text, maxChars, chunks, start);
      start := next;
      chunks := chunks + [chunk];
    }
    assert chunks == ChunksFrom(text, 0, maxChars);
    ChunksSound(text, maxChars);
  }
}
