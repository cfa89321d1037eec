// The section of a merged document that repeats every source anchor verbatim
// (automatic_report_suggestions.py): greedy packing of anchors into blocks.
module SourceCoverage {
  import opened TextKeys

  const MAX_ANCHORS_PER_BLOCK: nat := 10
  const MAX_PARAGRAPH_LENGTH: nat := 20_000

  datatype Anchor = Anchor(anchorId: nat, text: string)

  datatype Document = Document(title: string, anchors: seq<Anchor>)

  // A paragraph's tag is its title followed by its anchor ids.
  datatype Block = Heading(id: string) | Paragraph(id: string, text: string, title: string, anchorIds: seq<nat>)

  type Chunk = seq<Anchor>

  // ---------- Lengths

  function Texts(chunk: Chunk): seq<string> {
    seq(|chunk|, k requires 0 <= k < |chunk| => chunk[k].text)
  }

  function Ids(chunk: Chunk): seq<nat> {
    seq(|chunk|, k requires 0 <= k < |chunk| => chunk[k].anchorId)
  }

  // The texts with a blank line between them.
  function Paragraphs(texts: seq<string>): string {
    if texts == [] then []
    else if |texts| == 1 then texts[0]
    else Paragraphs(texts[..|texts| - 1]) + "\n\n" + texts[|texts| - 1]
  }

  function TotalLength(texts: seq<string>): nat {
    if texts == [] then 0 else TotalLength(texts[..|texts| - 1]) + |texts[|texts| - 1]|
  }

  // The length the loop computes before it appends one more text.
  function NextLength(texts: seq<string>, next: string): nat {
    TotalLength(texts) + |next| + if texts == [] then 0 else 2 * |texts|
  }

  lemma {:induction false} ParagraphsLength(texts: seq<string>)
    requires texts != []
    ensures |Paragraphs(texts)| == TotalLength(texts) + 2 * (|texts| - 1)
  {
    if |texts| > 1 {
      ParagraphsLength(texts[..|texts| - 1]);
    }
  }

  // The running length is the length of the text the block would have.
  lemma NextLengthIsExact(texts: seq<string>, next: string)
    ensures NextLength(texts, next) == |Paragraphs(texts + [next])|
  {
    ParagraphsLength(texts + [next]);
    assert (texts + [next])[..|texts|] == texts;
  }

  // ---------- Packing

  ghost predicate Fits(chunk: Chunk) {
    |chunk| <= 10 && |Paragraphs(Texts(chunk))| <= 20_000
  }

  // What a block may hold: at least one anchor, and more only within the limits.
  ghost predicate Allowed(chunk: Chunk) {
    |chunk| == 1 || (|chunk| > 1 && Fits(chunk))
  }

  datatype Packing = Packing(full: seq<Chunk>, open: Chunk)

  function Append(p: Packing, a: Anchor): Packing {
    if p.open != [] && (|p.open| >= MAX_ANCHORS_PER_BLOCK || NextLength(Texts(p.open), a.text) > MAX_PARAGRAPH_LENGTH)
    then Packing(p.full + [p.open], [a])
    else Packing(p.full, p.open + [a])
  }

  function Pack(anchors: seq<Anchor>): Packing {
    if anchors == [] then Packing([], [])
    else Append(Pack(anchors[..|anchors| - 1]), anchors[|anchors| - 1])
  }

  function Close(p: Packing): seq<Chunk> {
    if p.open == [] then p.full else p.full + [p.open]
  }

  // The chunks of one document.
  function Chunks(anchors: seq<Anchor>): seq<Chunk> {
    Close(Pack(anchors))
  }

  function Flatten(chunks: seq<Chunk>): seq<Anchor> {
    if chunks == [] then [] else Flatten(chunks[..|chunks| - 1]) + chunks[|chunks| - 1]
  }

  ghost predicate AllAllowed(chunks: seq<Chunk>) {
    forall k :: 0 <= k < |chunks| ==> Allowed(chunks[k])
  }

  lemma FlattenOneMore(chunks: seq<Chunk>, chunk: Chunk)
    ensures Flatten(chunks + [chunk]) == Flatten(chunks) + chunk
  {
    assert (chunks + [chunk])[..|chunks|] == chunks;
  }

  function Packed(p: Packing): seq<Anchor> {
    Flatten(p.full) + p.open
  }

  lemma AppendKeepsAnchors(p: Packing, a: Anchor)
    ensures Packed(Append(p, a)) == Packed(p) + [a]
    ensures Append(p, a).open != []
  {
    FlattenOneMore(p.full, p.open);
    assert Flatten(p.full) + (p.open + [a]) == (Flatten(p.full) + p.open) + [a];
  }

  lemma {:induction false} PackIsLossless(anchors: seq<Anchor>)
    ensures Packed(Pack(anchors)) == anchors
    ensures anchors != [] ==> Pack(anchors).open != []
  {
    if anchors != [] {
      var init, last := anchors[..|anchors| - 1], anchors[|anchors| - 1];
      assert init + [last] == anchors;
      PackIsLossless(init);
      AppendKeepsAnchors(Pack(init), last);
    }
  }

  lemma {:induction false} PackIsAllowed(anchors: seq<Anchor>)
    ensures AllAllowed(Pack(anchors).full)
    ensures Pack(anchors).open == [] || Allowed(Pack(anchors).open)
  {
    if anchors != [] {
      var p, a := Pack(anchors[..|anchors| - 1]), anchors[|anchors| - 1];
      PackIsAllowed(anchors[..|anchors| - 1]);
      NextLengthIsExact(Texts(p.open), a.text);
      assert Texts(p.open + [a]) == Texts(p.open) + [a.text];
    }
  }

  // Concatenated in order the chunks are the anchors, and every chunk is allowed.
  lemma ChunksAreLossless(anchors: seq<Anchor>)
    ensures Flatten(Chunks(anchors)) == anchors
    ensures AllAllowed(Chunks(anchors))
  {
    PackIsLossless(anchors);
    PackIsAllowed(anchors);
    ClosedIsAllowed(Pack(anchors));
  }

  lemma ClosedIsAllowed(p: Packing)
    requires AllAllowed(p.full) && (p.open == [] || Allowed(p.open))
    ensures AllAllowed(Close(p)) && Flatten(Close(p)) == Packed(p)
  {
    FlattenOneMore(p.full, p.open);
  }

  lemma {:induction false} ShorterIsShorter(texts: seq<string>, from: nat)
    requires from < |texts|
    ensures |Paragraphs(texts[from..])| <= |Paragraphs(texts)|
    ensures |texts| > 1 ==> |Paragraphs(texts[..|texts| - 1])| <= |Paragraphs(texts)|
  {
    ParagraphsLength(texts);
    ParagraphsLength(texts[from..]);
    if |texts| > 1 {
      ParagraphsLength(texts[..|texts| - 1]);
    }
    SuffixTotal(texts, from);
  }

  lemma {:induction false} SuffixTotal(texts: seq<string>, from: nat)
    requires from <= |texts|
    ensures TotalLength(texts[from..]) <= TotalLength(texts)
  {
    if from < |texts| {
      SuffixTotal(texts[..|texts| - 1], from);
      assert texts[from..][..|texts| - from - 1] == texts[..|texts| - 1][from..];
    }
  }

  // Any part of an allowed chunk that ends or starts where it does is allowed.
  lemma PartIsAllowed(chunk: Chunk, from: nat)
    requires Allowed(chunk) && from < |chunk|
    ensures Allowed(chunk[from..])
    ensures |chunk| > 1 ==> Fits(chunk[from..]) && Allowed(chunk[..|chunk| - 1])
  {
    ShorterIsShorter(Texts(chunk), from);
    assert Texts(chunk)[from..] == Texts(chunk[from..]);
    assert |chunk| > 1 ==> Texts(chunk)[..|chunk| - 1] == Texts(chunk[..|chunk| - 1]);
  }

  // The open chunk grows unless the grown chunk would not fit.
  lemma GrowsIfFits(p: Packing, a: Anchor)
    requires p.open != [] && Fits(p.open + [a])
    ensures Append(p, a) == Packing(p.full, p.open + [a])
  {
    NextLengthIsExact(Texts(p.open), a.text);
    assert Texts(p.open + [a]) == Texts(p.open) + [a.text];
  }

  // No packing of the same anchors uses fewer chunks, and one that uses as many
  // leaves its last chunk at least as long.
  lemma {:induction false} GreedyStaysAhead(anchors: seq<Anchor>, other: seq<Chunk>)
    requires anchors != [] && AllAllowed(other) && Flatten(other) == anchors
    ensures other != []
    ensures |Pack(anchors).full| + 1 <= |other|
    ensures |Pack(anchors).full| + 1 == |other| ==> |Pack(anchors).open| <= |other[|other| - 1]|
  {
    var q, before := other[|other| - 1], other[..|other| - 1];
    var init, a := anchors[..|anchors| - 1], anchors[|anchors| - 1];
    var p := Pack(init);
    PackIsLossless(init);
    assert anchors == Flatten(before) + q;
    assert q[|q| - 1] == a;
    if |q| == 1 {
      assert Flatten(before) == init;
      if init != [] {
        GreedyStaysAhead(init, before);
      }
    } else {
      ShortenLast(other, anchors);
      GreedyStaysAhead(init, before + [q[..|q| - 1]]);
      if |p.full| + 1 == |other| {
        LastChunkGrows(anchors, p, q);
      }
    }
  }

  lemma ShortenLast(other: seq<Chunk>, anchors: seq<Anchor>)
    requires other != [] && AllAllowed(other) && Flatten(other) == anchors && |other[|other| - 1]| > 1
    ensures var q := other[|other| - 1];
            var shorter := other[..|other| - 1] + [q[..|q| - 1]];
            AllAllowed(shorter) && Flatten(shorter) == anchors[..|anchors| - 1]
  {
    var q, before := other[|other| - 1], other[..|other| - 1];
    PartIsAllowed(q, 0);
    FlattenOneMore(before, q[..|q| - 1]);
    assert Flatten(before) + q == anchors;
    assert Flatten(before) + q[..|q| - 1] == anchors[..|anchors| - 1];
  }

  // When the greedy open chunk lies inside q, the next anchor fits in it.
  lemma LastChunkGrows(anchors: seq<Anchor>, p: Packing, q: Chunk)
    requires anchors != [] && p == Pack(anchors[..|anchors| - 1]) && p.open != []
    requires Allowed(q) && |q| <= |anchors| && q == anchors[|anchors| - |q|..]
    requires |p.open| < |q|
    ensures Pack(anchors) == Packing(p.full, p.open + [anchors[|anchors| - 1]])
  {
    var init, a := anchors[..|anchors| - 1], anchors[|anchors| - 1];
    PackIsLossless(init);
    SuffixesNest(anchors, Flatten(p.full), p.open, q);
    PartIsAllowed(q, |q| - 1 - |p.open|);
    GrowsIfFits(p, a);
  }

  lemma SuffixesNest(anchors: seq<Anchor>, rest: seq<Anchor>, open: Chunk, q: Chunk)
    requires anchors != [] && rest + open == anchors[..|anchors| - 1]
    requires |open| < |q| <= |anchors| && q == anchors[|anchors| - |q|..]
    ensures q[|q| - 1 - |open|..] == open + [anchors[|anchors| - 1]]
  {
    var init := anchors[..|anchors| - 1];
    assert forall k :: 0 <= k < |open| ==> open[k] == init[|rest| + k];
  }

  // The block count of a document is minimal.
  lemma ChunksAreMinimal(anchors: seq<Anchor>, other: seq<Chunk>)
    requires AllAllowed(other) && Flatten(other) == anchors
    ensures |Chunks(anchors)| <= |other|
  {
    if anchors != [] {
      PackIsLossless(anchors);
      GreedyStaysAhead(anchors, other);
    }
  }

  // ---------- Blocks

  const HEADING_ID: string := "source-coverage-heading"

  function BlockId(documentIndex: nat, chunkIndex: nat): string {
    "source-" + Decimal(documentIndex) + "-" + Decimal(chunkIndex)
  }

  // strip trims white space from a title.
  function Title(document: Document, strip: string -> string): string {
    if strip(document.title) == "" then "제목 없는 문서" else strip(document.title)
  }

  function ChunkBlocks(documentIndex: nat, title: string, chunks: seq<Chunk>): seq<Block> {
    seq(|chunks|, k requires 0 <= k < |chunks| =>
      Paragraph(BlockId(documentIndex, k), Paragraphs(Texts(chunks[k])), title, Ids(chunks[k])))
  }

  function CoverageBlocks(documents: seq<Document>, strip: string -> string): seq<Block> {
    if documents == [] then [Heading(HEADING_ID)]
    else
      var last := documents[|documents| - 1];
      CoverageBlocks(documents[..|documents| - 1], strip)
      + ChunkBlocks(|documents| - 1, Title(last, strip), Chunks(last.anchors))
  }

  method BuildSourceCoverageBlocks(documents: seq<Document>, strip: string -> string) returns (blocks: seq<Block>)
    ensures blocks == CoverageBlocks(documents, strip)
  {
    blocks := [Heading(HEADING_ID)];
    var d := 0;
    while d < |documents|
      invariant 0 <= d <= |documents|
      invariant blocks == CoverageBlocks(documents[..d], strip)
    {
      var added := PackDocument(d, documents[d], strip);
      assert documents[..d + 1][..d] == documents[..d];
      blocks := blocks + added;
      d := d + 1;
    }
    assert documents[..d] == documents;
  }

  lemma ChunkBlocksOneMore(documentIndex: nat, title: string, chunks: seq<Chunk>, chunk: Chunk)
    ensures ChunkBlocks(documentIndex, title, chunks + [chunk])
         == ChunkBlocks(documentIndex, title, chunks)
            + [Paragraph(BlockId(documentIndex, |chunks|), Paragraphs(Texts(chunk)), title, Ids(chunk))]
  {
  }

  // The running lists of the loop show a packing.
  ghost predicate Shows(documentIndex: nat, title: string, p: Packing, chunkTexts: seq<string>,
                        chunkAnchorIds: seq<nat>, chunkIndex: nat, blocks: seq<Block>) {
    && chunkTexts == Texts(p.open) && chunkAnchorIds == Ids(p.open)
    && chunkIndex == |p.full| && blocks == ChunkBlocks(documentIndex, title, p.full)
  }

  // Flush the open chunk, if there is one.
  method FlushChunk(documentIndex: nat, title: string, chunkTexts: seq<string>, chunkAnchorIds: seq<nat>,
                    chunkIndex: nat, blocks: seq<Block>, ghost p: Packing)
      returns (nextIndex: nat, nextBlocks: seq<Block>)
    requires Shows(documentIndex, title, p, chunkTexts, chunkAnchorIds, chunkIndex, blocks)
    ensures Shows(documentIndex, title, Packing(Close(p), []), [], [], nextIndex, nextBlocks)
  {
    if chunkTexts == [] {
      return chunkIndex, blocks;
    }
    ChunkBlocksOneMore(documentIndex, title, p.full, p.open);
    nextIndex := chunkIndex + 1;
    nextBlocks := blocks + [Paragraph(BlockId(documentIndex, chunkIndex), Paragraphs(chunkTexts), title,
                                      chunkAnchorIds)];
  }

  lemma ShowsOneMore(documentIndex: nat, title: string, p: Packing, a: Anchor, chunkTexts: seq<string>,
                     chunkAnchorIds: seq<nat>, chunkIndex: nat, blocks: seq<Block>)
    requires Shows(documentIndex, title, p, chunkTexts, chunkAnchorIds, chunkIndex, blocks)
    ensures Shows(documentIndex, title, Packing(p.full, p.open + [a]), chunkTexts + [a.text],
                  chunkAnchorIds + [a.anchorId], chunkIndex, blocks)
  {
  }

  // The loop over the anchors of one document, with its flushes.
  method PackDocument(documentIndex: nat, document: Document, strip: string -> string) returns (blocks: seq<Block>)
    ensures blocks == ChunkBlocks(documentIndex, Title(document, strip), Chunks(document.anchors))
  {
    var title := Title(document, strip);
    var chunkTexts: seq<string> := [];
    var chunkAnchorIds: seq<nat> := [];
    var chunkIndex := 0;
    blocks := [];
    ghost var p := Packing([], []);
    var k := 0;
    while k < |document.anchors|
      invariant 0 <= k <= |document.anchors| && p == Pack(document.anchors[..k])
      invariant Shows(documentIndex, title, p, chunkTexts, chunkAnchorIds, chunkIndex, blocks)
    {
      var anchor := document.anchors[k];
      assert document.anchors[..k + 1][..k] == document.anchors[..k];
      ghost var open := p;
      if |chunkTexts| >= MAX_ANCHORS_PER_BLOCK || NextLength(chunkTexts, anchor.text) > MAX_PARAGRAPH_LENGTH {
        chunkIndex, blocks := FlushChunk(documentIndex, title, chunkTexts, chunkAnchorIds, chunkIndex, blocks, p);
        chunkTexts, chunkAnchorIds := [], [];
        open := Packing(Close(p), []);
      }
      ShowsOneMore(documentIndex, title, open, anchor, chunkTexts, chunkAnchorIds, chunkIndex, blocks);
      chunkTexts := chunkTexts + [anchor.text];
      chunkAnchorIds := chunkAnchorIds + [anchor.anchorId];
      p := Append(p, anchor);
      k := k + 1;
    }
    assert document.anchors[..k] == document.anchors;
    chunkIndex, blocks := FlushChunk(documentIndex, title, chunkTexts, chunkAnchorIds, chunkIndex, blocks, p);
  }

  lemma BlockIdInjective(d: nat, c: nat, e: nat, f: nat)
    requires BlockId(d, c) == BlockId(e, f)
    ensures d == e && c == f
  {
    DecimalUsesDigits(d);
    DecimalUsesDigits(e);
    var s, t := Decimal(d) + ['-'] + Decimal(c), Decimal(e) + ['-'] + Decimal(f);
    assert BlockId(d, c)[7..] == s && BlockId(e, f)[7..] == t;
    FirstPart(Decimal(d), Decimal(e), Decimal(c), Decimal(f), '-');
    DecimalInjective(d, e);
    DecimalInjective(c, f);
  }

  lemma BlockIdIsNotHeading(d: nat, c: nat)
    ensures BlockId(d, c) != HEADING_ID
  {
    DecimalUsesDigits(d);
    assert HEADING_ID[7] == 'c';
    assert BlockId(d, c)[7] == Decimal(d)[0];
  }

  // Every block is the heading or a chunk of an earlier document.
  lemma {:induction false} BlockOrigin(documents: seq<Document>, strip: string -> string, k: nat)
    requires k < |CoverageBlocks(documents, strip)|
    ensures var block := CoverageBlocks(documents, strip)[k];
            || (k == 0 && block.id == HEADING_ID)
            || (k > 0 && exists d, c :: 0 <= d < |documents| && 0 <= c && block.id == BlockId(d, c))
  {
    if documents != [] {
      var earlier := CoverageBlocks(documents[..|documents| - 1], strip);
      HeadingFirst(documents[..|documents| - 1], strip);
      if k < |earlier| {
        BlockOrigin(documents[..|documents| - 1], strip, k);
      } else {
        assert CoverageBlocks(documents, strip)[k].id == BlockId(|documents| - 1, k - |earlier|);
      }
    }
  }

  lemma {:induction false} HeadingFirst(documents: seq<Document>, strip: string -> string)
    ensures CoverageBlocks(documents, strip) != []
  {
    if documents != [] {
      HeadingFirst(documents[..|documents| - 1], strip);
    }
  }

  lemma EarlierIdsDiffer(documents: seq<Document>, strip: string -> string, j: nat, c: nat)
    requires j < |CoverageBlocks(documents, strip)|
    ensures CoverageBlocks(documents, strip)[j].id != BlockId(|documents|, c)
  {
    BlockOrigin(documents, strip, j);
    BlockIdIsNotHeading(|documents|, c);
    if j > 0 {
      var d, e :| 0 <= d < |documents| && 0 <= e && CoverageBlocks(documents, strip)[j].id == BlockId(d, e);
      if BlockId(d, e) == BlockId(|documents|, c) {
        BlockIdInjective(d, e, |documents|, c);
      }
    }
  }

  // No two blocks share an id.
  lemma {:induction false} BlockIdsDistinct(documents: seq<Document>, strip: string -> string, j: nat, k: nat)
    requires j < k < |CoverageBlocks(documents, strip)|
    ensures CoverageBlocks(documents, strip)[j].id != CoverageBlocks(documents, strip)[k].id
  {
    if documents != [] {
      var n := |documents| - 1;
      var earlier := CoverageBlocks(documents[..n], strip);
      if k < |earlier| {
        BlockIdsDistinct(documents[..n], strip, j, k);
      } else if j >= |earlier| {
        if BlockId(n, j - |earlier|) == BlockId(n, k - |earlier|) {
          BlockIdInjective(n, j - |earlier|, n, k - |earlier|);
        }
      } else {
        EarlierIdsDiffer(documents[..n], strip, j, k - |earlier|);
      }
    }
  }

  // ---------- What the blocks say

  // The texts of a chunk from the first on, with a blank line after each but the
  // last.
  function Joined(chunk: Chunk): string {
    if chunk == [] then ""
    else if |chunk| == 1 then chunk[0].text
    else chunk[0].text + "\n\n" + Joined(chunk[1..])
  }

  lemma {:induction false} JoinedFromTheEnd(chunk: Chunk)
    requires |chunk| > 1
    ensures Joined(chunk) == Joined(chunk[..|chunk| - 1]) + "\n\n" + chunk[|chunk| - 1].text
  {
    var rest, init := chunk[1..], chunk[..|chunk| - 1];
    if |chunk| > 2 {
      JoinedFromTheEnd(rest);
      assert rest[..|rest| - 1] == init[1..];
      var head, line, last := chunk[0].text, "\n\n", chunk[|chunk| - 1].text;
      assert head + line + (Joined(init[1..]) + line + last) == (head + line + Joined(init[1..])) + line + last;
    }
  }

  lemma {:induction false} ParagraphsAreJoined(chunk: Chunk)
    ensures Paragraphs(Texts(chunk)) == Joined(chunk)
  {
    if |chunk| > 1 {
      ParagraphsAreJoined(chunk[..|chunk| - 1]);
      JoinedFromTheEnd(chunk);
      assert Texts(chunk)[..|chunk| - 1] == Texts(chunk[..|chunk| - 1]);
    }
  }

  // The block holds the chunk: its texts, its ids, the title, and its number.
  ghost predicate Holds(block: Block, document: Document, strip: string -> string, d: nat, chunk: Chunk, k: nat) {
    && block.Paragraph? && block.id == "source-" + Decimal(d) + "-" + Decimal(k)
    && block.title == (if strip(document.title) != "" then strip(document.title) else "제목 없는 문서")
    && |block.anchorIds| == |chunk| && (forall i :: 0 <= i < |chunk| ==> block.anchorIds[i] == chunk[i].anchorId)
    && block.text == Joined(chunk)
  }

  ghost predicate AllHold(blocks: seq<Block>, document: Document, strip: string -> string, d: nat) {
    && |blocks| == |Chunks(document.anchors)|
    && forall k :: 0 <= k < |blocks| ==> Holds(blocks[k], document, strip, d, Chunks(document.anchors)[k], k)
  }

  lemma DocumentIsHeld(document: Document, strip: string -> string, d: nat)
    ensures AllHold(ChunkBlocks(d, Title(document, strip), Chunks(document.anchors)), document, strip, d)
  {
    var chunks := Chunks(document.anchors);
    var blocks := ChunkBlocks(d, Title(document, strip), chunks);
    forall k | 0 <= k < |blocks|
      ensures Holds(blocks[k], document, strip, d, chunks[k], k)
    {
      ParagraphsAreJoined(chunks[k]);
    }
  }

  // First the heading, and then for each document in order one block for every
  // chunk, in order, that holds it.
  lemma {:induction false} BlocksHoldDocuments(documents: seq<Document>, strip: string -> string)
    returns (parts: seq<seq<Block>>)
    ensures |parts| == |documents|
    ensures forall d :: 0 <= d < |documents| ==> AllHold(parts[d], documents[d], strip, d)
    ensures CoverageBlocks(documents, strip) == Concatenated([Heading("source-coverage-heading")], parts)
  {
    if documents == [] {
      parts := [];
    } else {
      var init, last := documents[..|documents| - 1], documents[|documents| - 1];
      var earlier := BlocksHoldDocuments(init, strip);
      var part := ChunkBlocks(|init|, Title(last, strip), Chunks(last.anchors));
      DocumentIsHeld(last, strip, |init|);
      parts := earlier + [part];
      assert parts[..|init|] == earlier;
    }
  }

  function Concatenated(first: seq<Block>, parts: seq<seq<Block>>): seq<Block> {
    if parts == [] then first else Concatenated(first, parts[..|parts| - 1]) + parts[|parts| - 1]
  }
}
