/** Chunking of detected sections (`DocumentChunker.chunk_section` and
    `chunk_document`): a section short enough is one chunk, a longer one is cut
    by the text splitter; every chunk carries its file, its section and an id
    built from the file stem, the section number and the chunk's position. */
module Chunking {
  import opened PyText
  import opened DocumentChunking

  /** The chunker's settings. The recursive character splitter is library code
      and stays an oracle: `split` maps a section's text to its pieces. */
  datatype Chunker = Chunker(chunkSize: nat, chunkOverlap: nat, split: string -> seq<string>)

  /** The defaults of the constructor: 500 characters, 50 of overlap. */
  function DefaultChunker(split: string -> seq<string>): (c: Chunker)
    ensures c.chunkSize == 500 && c.chunkOverlap == 50 && c.split == split
  {
    Chunker(500, 50, split)
  }

  /** The metadata stored with each chunk (the creation time is left out). */
  datatype ChunkMetadata = ChunkMetadata(
    fileName: string, filePath: string,
    sectionNumber: nat, sectionTitle: string,
    chunkId: string, chunkIndex: nat, totalChunks: nat)

  datatype Chunk = Chunk(text: string, metadata: ChunkMetadata)

  /** The texts a section is cut into. */
  function Pieces(c: Chunker, content: string): seq<string>
  {
    if |content| <= c.chunkSize then [content] else c.split(content)
  }

  /** `{stem}_s{section number}_c{index}` */
  function ChunkId(fileName: string, number: nat, index: nat): string
  {
    Tagged(Stem(fileName), number, index)
  }

  /** `{stem}_s{number}_c{index}` for a given stem. */
  function Tagged(stem: string, number: nat, index: nat): string
  {
    stem + "_s" + NatToString(number) + "_c" + NatToString(index)
  }

  /** The chunk made from piece `index` of `section`. */
  function ChunkAt(pieces: seq<string>, index: nat, section: Section, fileName: string, filePath: string): Chunk
    requires index < |pieces|
  {
    Chunk(pieces[index], ChunkMetadata(fileName, filePath, section.number, section.title,
      ChunkId(fileName, section.number, index), index, |pieces|))
  }

  /** The chunks made from the first `n` pieces, in order. */
  function ChunksOf(pieces: seq<string>, n: nat, section: Section, fileName: string, filePath: string): (chunks: seq<Chunk>)
    requires n <= |pieces|
    ensures |chunks| == n
  {
    if n == 0 then [] else ChunksOf(pieces, n - 1, section, fileName, filePath) + [ChunkAt(pieces, n - 1, section, fileName, filePath)]
  }

  /** The chunks of one section, one per piece, in order. */
  function SectionChunks(c: Chunker, section: Section, fileName: string, filePath: string): seq<Chunk>
  {
    var pieces := Pieces(c, section.content);
    ChunksOf(pieces, |pieces|, section, fileName, filePath)
  }

  /** Chunk `k` is made from piece `k`. */
  lemma ChunksOfIndex(pieces: seq<string>, n: nat, section: Section, fileName: string, filePath: string)
    requires n <= |pieces|
    ensures forall k :: 0 <= k < n ==> ChunksOf(pieces, n, section, fileName, filePath)[k] == ChunkAt(pieces, k, section, fileName, filePath)
  {
    forall k | 0 <= k < n
      ensures ChunksOf(pieces, n, section, fileName, filePath)[k] == ChunkAt(pieces, k, section, fileName, filePath)
    {
      ChunkOfPiece(pieces, n, k, section, fileName, filePath);
    }
  }

  lemma {:induction false} ChunkOfPiece(pieces: seq<string>, n: nat, k: nat, section: Section, fileName: string, filePath: string)
    requires k < n <= |pieces|
    ensures ChunksOf(pieces, n, section, fileName, filePath)[k] == ChunkAt(pieces, k, section, fileName, filePath)
  {
    var init := ChunksOf(pieces, n - 1, section, fileName, filePath);
    assert ChunksOf(pieces, n, section, fileName, filePath) == init + [ChunkAt(pieces, n - 1, section, fileName, filePath)];
    if k < n - 1 {
      ChunkOfPiece(pieces, n - 1, k, section, fileName, filePath);
    }
  }

  lemma SectionChunksAt(c: Chunker, section: Section, fileName: string, filePath: string)
    ensures var pieces, chunks := Pieces(c, section.content), SectionChunks(c, section, fileName, filePath);
      |chunks| == |pieces| && forall k :: 0 <= k < |chunks| ==> chunks[k] == ChunkAt(pieces, k, section, fileName, filePath)
  {
    var pieces := Pieces(c, section.content);
    ChunksOfIndex(pieces, |pieces|, section, fileName, filePath);
  }

  /** `chunk_section`: enumerate the pieces and attach the metadata. */
  method ChunkSection(c: Chunker, section: Section, fileName: string, filePath: string) returns (documents: seq<Chunk>)
    ensures documents == SectionChunks(c, section, fileName, filePath)
  {
    var chunks;
    if |section.content| <= c.chunkSize {
      chunks := [section.content];
    } else {
      chunks := c.split(section.content);
    }
    documents := [];
    for idx := 0 to |chunks|
      invariant documents == ChunksOf(chunks, idx, section, fileName, filePath)
    {
      var chunkId := ChunkId(fileName, section.number, idx);
      var metadata := ChunkMetadata(fileName, filePath, section.number, section.title, chunkId, idx, |chunks|);
      documents := documents + [Chunk(chunks[idx], metadata)];
    }
  }

  /** The chunks of all the sections, section after section. */
  function AllChunks(c: Chunker, sections: seq<Section>, fileName: string, filePath: string): seq<Chunk>
  {
    if sections == [] then []
    else AllChunks(c, sections[..|sections| - 1], fileName, filePath) + SectionChunks(c, sections[|sections| - 1], fileName, filePath)
  }

  /** What `chunk_document` returns for `text`. */
  function DocumentChunks(c: Chunker, text: string, fileName: string, filePath: string): seq<Chunk>
  {
    AllChunks(c, Sections(text), fileName, filePath)
  }

  /** `chunk_document`: detect the sections, then chunk each one in turn. */
  method ChunkDocument(c: Chunker, text: string, fileName: string, filePath: string) returns (allChunks: seq<Chunk>)
    ensures allChunks == DocumentChunks(c, text, fileName, filePath)
  {
    var sections := DetectSections(text);
    allChunks := ChunkSections(c, sections, fileName, filePath);
  }

  /** The loop of `chunk_document`: the chunks of each section, appended in order. */
  method ChunkSections(c: Chunker, sections: seq<Section>, fileName: string, filePath: string) returns (allChunks: seq<Chunk>)
    ensures allChunks == AllChunks(c, sections, fileName, filePath)
  {
    allChunks := [];
    for i := 0 to |sections|
      invariant allChunks == AllChunks(c, sections[..i], fileName, filePath)
    {
      var chunks := ChunkSection(c, sections[i], fileName, filePath);
      AllChunksNext(c, sections, i, fileName, filePath);
      allChunks := allChunks + chunks;
    }
    assert sections[..|sections|] == sections;
  }

  lemma AllChunksNext(c: Chunker, sections: seq<Section>, i: nat, fileName: string, filePath: string)
    requires i < |sections|
    ensures AllChunks(c, sections[..i + 1], fileName, filePath)
      == AllChunks(c, sections[..i], fileName, filePath) + SectionChunks(c, sections[i], fileName, filePath)
  {
    assert sections[..i + 1][..i] == sections[..i];
  }

  /** A section no longer than the chunk size is a single chunk holding all of
      it: index 0 of 1, id ending in `_c0`. */
  lemma ShortSectionIsOneChunk(c: Chunker, section: Section, fileName: string, filePath: string)
    requires |section.content| <= c.chunkSize
    ensures SectionChunks(c, section, fileName, filePath) ==
      [Chunk(section.content, ChunkMetadata(fileName, filePath, section.number, section.title,
        Stem(fileName) + "_s" + NatToString(section.number) + "_c0", 0, 1))]
  {
    var chunks := SectionChunks(c, section, fileName, filePath);
    SectionChunksAt(c, section, fileName, filePath);
    assert |chunks| == 1;
    assert NatToString(0) == "0";
    assert chunks[0].metadata.chunkId == Stem(fileName) + "_s" + NatToString(section.number) + "_c0";
  }

  /** A longer section is cut by the splitter: the chunk texts are its pieces,
      in order, and every chunk knows its position and the section's count. */
  lemma LongSectionFollowsSplitter(c: Chunker, section: Section, fileName: string, filePath: string)
    requires |section.content| > c.chunkSize
    ensures var chunks := SectionChunks(c, section, fileName, filePath);
      && |chunks| == |c.split(section.content)|
      && forall i :: 0 <= i < |chunks| ==>
           && chunks[i].text == c.split(section.content)[i]
           && chunks[i].metadata.chunkIndex == i
           && chunks[i].metadata.totalChunks == |chunks|
           && chunks[i].metadata.sectionNumber == section.number
           && chunks[i].metadata.sectionTitle == section.title
  {
    SectionChunksAt(c, section, fileName, filePath);
  }

  /** Two chunk ids are equal only for the same section number and index:
      digits never contain the `_c` separator, so an id can be read back. */
  lemma ChunkIdInjective(fileName: string, n: nat, i: nat, m: nat, j: nat)
    requires ChunkId(fileName, n, i) == ChunkId(fileName, m, j)
    ensures n == m && i == j
  {
    NumberedTagsInjective(Stem(fileName), n, i, m, j);
  }

  /** The same for any stem, so that the proof never looks inside `Stem`. */
  lemma NumberedTagsInjective(p: string, n: nat, i: nat, m: nat, j: nat)
    requires Tagged(p, n, i) == Tagged(p, m, j)
    ensures n == m && i == j
  {
    var stem := p + "_s";
    var a, b := NatToString(n), NatToString(m);
    var x := Tagged(p, n, i);
    var u, v := "_c" + NatToString(i), "_c" + NatToString(j);
    assert x == stem + (a + u) == stem + (b + v);
    var rest := x[|stem|..];
    assert rest == a + u == b + v;
    assert rest[..|a|] == a && rest[..|b|] == b;
    DigitRunExact(rest, |a|);
    DigitRunExact(rest, |b|);
    NatToStringInjective(n, m);
    assert NatToString(i) == rest[|a| + 2..] == NatToString(j);
    NatToStringInjective(i, j);
  }

  /** No two chunks of a document share an id. */
  predicate DistinctIds(chunks: seq<Chunk>)
  {
    forall k, k' :: 0 <= k < k' < |chunks| ==> chunks[k].metadata.chunkId != chunks[k'].metadata.chunkId
  }

  predicate DistinctNumbers(sections: seq<Section>)
  {
    forall k, k' :: 0 <= k < k' < |sections| ==> sections[k].number != sections[k'].number
  }

  /** Every chunk's id is built from its own section number and index, and its
      section number is that of one of the sections. */
  lemma {:induction false} AllChunksOrigin(c: Chunker, sections: seq<Section>, fileName: string, filePath: string)
    ensures forall chunk :: chunk in AllChunks(c, sections, fileName, filePath) ==>
      && chunk.metadata.chunkId == ChunkId(fileName, chunk.metadata.sectionNumber, chunk.metadata.chunkIndex)
      && exists s :: 0 <= s < |sections| && sections[s].number == chunk.metadata.sectionNumber
  {
    if sections != [] {
      var init := sections[..|sections| - 1];
      AllChunksOrigin(c, init, fileName, filePath);
      var front := AllChunks(c, init, fileName, filePath);
      var chunks := AllChunks(c, sections, fileName, filePath);
      var back := SectionChunks(c, sections[|sections| - 1], fileName, filePath);
      SectionChunksAt(c, sections[|sections| - 1], fileName, filePath);
      assert chunks == front + back;
      forall chunk | chunk in chunks
        ensures chunk.metadata.chunkId == ChunkId(fileName, chunk.metadata.sectionNumber, chunk.metadata.chunkIndex)
        ensures exists s :: 0 <= s < |sections| && sections[s].number == chunk.metadata.sectionNumber
      {
        if chunk in front {
          var s :| 0 <= s < |init| && init[s].number == chunk.metadata.sectionNumber;
          assert sections[s] == init[s];
        } else {
          var k :| 0 <= k < |back| && back[k] == chunk;
          assert sections[|sections| - 1].number == chunk.metadata.sectionNumber;
        }
      }
    }
  }

  /** Within one section the ids are distinct. */
  lemma SectionIdsDistinct(c: Chunker, section: Section, fileName: string, filePath: string)
    ensures DistinctIds(SectionChunks(c, section, fileName, filePath))
  {
    var chunks := SectionChunks(c, section, fileName, filePath);
    SectionChunksAt(c, section, fileName, filePath);
    forall k, k' | 0 <= k < k' < |chunks|
      ensures chunks[k].metadata.chunkId != chunks[k'].metadata.chunkId
    {
      if chunks[k].metadata.chunkId == chunks[k'].metadata.chunkId {
        ChunkIdInjective(fileName, section.number, k, section.number, k');
      }
    }
  }

  /** When the sections have distinct numbers, the chunk ids of the whole
      document are distinct; repeated section numbers are what can make two
      chunks share an id. */
  lemma {:induction false} DocumentIdsDistinct(c: Chunker, sections: seq<Section>, fileName: string, filePath: string)
    requires DistinctNumbers(sections)
    ensures DistinctIds(AllChunks(c, sections, fileName, filePath))
  {
    if sections != [] {
      var init, last := sections[..|sections| - 1], sections[|sections| - 1];
      DocumentIdsDistinct(c, init, fileName, filePath);
      AllChunksOrigin(c, init, fileName, filePath);
      SectionIdsDistinct(c, last, fileName, filePath);
      SectionChunksAt(c, last, fileName, filePath);
      var front, back := AllChunks(c, init, fileName, filePath), SectionChunks(c, last, fileName, filePath);
      var chunks := front + back;
      forall k, k' | 0 <= k < k' < |chunks|
        ensures chunks[k].metadata.chunkId != chunks[k'].metadata.chunkId
      {
        if k < |front| && k' >= |front| {
          assert chunks[k] == front[k] && chunks[k'] == back[k' - |front|];
          assert front[k] in front;
          var s :| 0 <= s < |init| && init[s].number == front[k].metadata.sectionNumber;
          assert sections[s] == init[s];
          if chunks[k].metadata.chunkId == chunks[k'].metadata.chunkId {
            ChunkIdInjective(fileName, front[k].metadata.sectionNumber, front[k].metadata.chunkIndex, last.number, k' - |front|);
          }
        } else if k >= |front| {
          assert chunks[k] == back[k - |front|] && chunks[k'] == back[k' - |front|];
        } else {
          assert chunks[k] == front[k] && chunks[k'] == front[k'];
        }
      }
    }
  }

  /** The number of chunks of a document is the sum of its sections' piece counts. */
  function PieceCount(c: Chunker, sections: seq<Section>): nat
  {
    if sections == [] then 0
    else PieceCount(c, sections[..|sections| - 1]) + |Pieces(c, sections[|sections| - 1].content)|
  }

  lemma {:induction false} ChunkCount(c: Chunker, sections: seq<Section>, fileName: string, filePath: string)
    ensures |AllChunks(c, sections, fileName, filePath)| == PieceCount(c, sections)
    ensures (forall s :: 0 <= s < |sections| ==> |sections[s].content| <= c.chunkSize) ==>
      |AllChunks(c, sections, fileName, filePath)| == |sections|
  {
    if sections != [] {
      var init := sections[..|sections| - 1];
      ChunkCount(c, init, fileName, filePath);
      assert forall s :: 0 <= s < |init| ==> init[s] == sections[s];
    }
  }
}
