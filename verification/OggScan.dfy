/** The hand-written Ogg page scan of common/audio.go (getOpusDuration), against the page layout of section 6 of
    RFC 3533. */
module OggScan {
  import Lists
  import opened Binary

  const MAGIC: Bytes := [0x4F, 0x67, 0x67, 0x53]   // "OggS"
  const HEADER_SIZE := 27
  const TWO63 := 0x8000_0000_0000_0000
  const TWO64 := 0x1_0000_0000_0000_0000

  function LittleEndian(b: Bytes): nat {
    if b == [] then 0 else b[0] + 256 * LittleEndian(b[1..])
  }

  /** int64(uint64) */
  function Signed64(u: nat): int {
    if u % TWO64 < TWO63 then u % TWO64 else u % TWO64 - TWO64
  }

  function Sum(b: Bytes): nat {
    if b == [] then 0 else Sum(b[..|b| - 1]) + b[|b| - 1]
  }

  // ---------- The scan as a function ----------

  datatype Visit = Visit(pos: nat, granule: int)

  function GranuleAt(data: Bytes, pos: nat): int
    requires pos + HEADER_SIZE <= |data|
  {
    Signed64(LittleEndian(data[pos + 6..pos + 14]))
  }

  predicate MagicAt(data: Bytes, pos: nat) {
    pos + 4 <= |data| && data[pos..pos + 4] == MAGIC
  }

  /** Where the page at pos ends, if its segment table is complete. */
  function PageEnd(data: Bytes, pos: nat): nat
    requires pos + HEADER_SIZE <= |data|
    requires pos + HEADER_SIZE + data[pos + 26] <= |data|
  {
    var table := pos + HEADER_SIZE;
    table + data[pos + 26] + Sum(data[table..table + data[pos + 26]])
  }

  /** The headers that the scan takes for pages, in order. */
  function Visits(data: Bytes, pos: nat): seq<Visit>
    decreases |data| - pos
  {
    if pos + HEADER_SIZE > |data| then []
    else if !MagicAt(data, pos) then Visits(data, pos + 1)
    else
      var v := Visit(pos, GranuleAt(data, pos));
      if pos + HEADER_SIZE + data[pos + 26] > |data| then [v]
      else [v] + Visits(data, PageEnd(data, pos))
  }

  /** The largest granule position, and 0 when there is none above it. */
  function MaxGranule(visits: seq<Visit>): int {
    if visits == [] then 0
    else
      var rest := MaxGranule(visits[1..]);
      if visits[0].granule > rest then visits[0].granule else rest
  }

  // ---------- The scan as a loop over a reader ----------

  class ReadSeeker {
    const data: Bytes
    var pos: nat

    constructor (data: Bytes)
      ensures this.data == data && pos == 0
    {
      this.data := data;
      pos := 0;
    }

    /** Reads as much as there is; nothing means the end. */
    method Read(room: nat) returns (chunk: Bytes)
      modifies this
      ensures pos == old(pos) + |chunk|
      ensures |chunk| == (if old(pos) >= |data| then 0 else if old(pos) + room < |data| then room
              else |data| - old(pos))
      ensures old(pos) <= |data| ==> chunk == data[old(pos)..pos]
    {
      if pos >= |data| {
        return [];
      }
      var end := if pos + room < |data| then pos + room else |data|;
      chunk := data[pos..end];
      pos := end;
    }

    method SeekStart()
      modifies this
      ensures pos == 0
    {
      pos := 0;
    }

    method SeekBy(offset: int)
      requires pos + offset >= 0
      modifies this
      ensures pos == old(pos) + offset
    {
      pos := pos + offset;
    }
  }

  /** The byte sum of the segment table. */
  method PageSize(table: Bytes) returns (size: nat)
    ensures size == Sum(table)
  {
    size := 0;
    for i := 0 to |table|
      invariant size == Sum(table[..i])
    {
      assert table[..i + 1][..i] == table[..i];
      size := size + table[i];
    }
    assert table[..|table|] == table;
  }

  /** Reading the segment table and seeking behind the page, unless the table is cut off. */
  method SkipPage(r: ReadSeeker, segments: Byte) returns (complete: bool)
    requires r.pos <= |r.data|
    modifies r
    ensures complete <==> old(r.pos) + segments <= |r.data|
    ensures complete ==> r.pos == old(r.pos) + segments + Sum(r.data[old(r.pos)..old(r.pos) + segments])
  {
    var table := r.Read(segments);
    if |table| < segments {
      return false;
    }
    var size := PageSize(table);
    r.SeekBy(size);
    complete := true;
  }

  /** The position strictly grows in every round, on arbitrary bytes. */
  method ScanGranules(r: ReadSeeker) returns (total: int)
    modifies r
    ensures total == MaxGranule(Visits(r.data, 0)) && total >= 0
  {
    r.SeekStart();
    total := 0;
    ghost var seen: seq<Visit> := [];
    while true
      invariant SoFar(r.data, seen, r.pos, total)
      decreases |r.data| - r.pos
    {
      ghost var start := r.pos;
      var buf := r.Read(HEADER_SIZE);
      if |buf| == 0 {
        EndOfScan(r.data, seen, start, total);
        break;
      }
      if |buf| < HEADER_SIZE {
        EndOfScan(r.data, seen, start, total);
        break;
      }
      assert buf == r.data[start..start + HEADER_SIZE];
      if buf[..4] != MAGIC {
        NoMagic(r.data, seen, start, total);
        r.SeekBy(-26);
        continue;
      }
      var granule := Signed64(LittleEndian(buf[6..14]));
      SubSlice(r.data, start, start + HEADER_SIZE, 6, 14);
      ghost var before := total;
      if granule > total {
        total := granule;
      }
      var complete := SkipPage(r, buf[26]);
      if !complete {
        LastVisit(r.data, seen, start, before);
        break;
      }
      OneVisit(r.data, seen, start, before, Visit(start, granule), r.pos, total);
      seen := seen + [Visit(start, granule)];
    }
  }

  /** What has been seen before pos, and the maximum of it. */
  ghost predicate SoFar(data: Bytes, seen: seq<Visit>, pos: nat, total: int) {
    Visits(data, 0) == seen + Visits(data, pos) && total == MaxGranule(seen) >= 0
  }

  lemma NoMagic(data: Bytes, seen: seq<Visit>, pos: nat, total: int)
    requires SoFar(data, seen, pos, total) && pos + HEADER_SIZE <= |data| && data[pos..pos + HEADER_SIZE][..4] != MAGIC
    ensures SoFar(data, seen, pos + 1, total)
  {
    assert data[pos..pos + HEADER_SIZE][..4] == data[pos..pos + 4];
  }

  lemma EndOfScan(data: Bytes, seen: seq<Visit>, pos: nat, total: int)
    requires SoFar(data, seen, pos, total) && pos + HEADER_SIZE > |data|
    ensures total == MaxGranule(Visits(data, 0))
  {
    assert seen + [] == seen;
  }

  function Larger(granule: int, total: int): int {
    if granule > total then granule else total
  }

  /** A page mark whose segment table is cut off is still counted. */
  lemma LastVisit(data: Bytes, seen: seq<Visit>, pos: nat, total: int)
    requires SoFar(data, seen, pos, total) && pos + HEADER_SIZE <= |data| && data[pos..pos + HEADER_SIZE][..4] == MAGIC
    requires pos + HEADER_SIZE + data[pos + 26] > |data|
    ensures Larger(GranuleAt(data, pos), total) == MaxGranule(Visits(data, 0))
  {
    assert data[pos..pos + HEADER_SIZE][..4] == data[pos..pos + 4];
    MaxAppend(seen, Visit(pos, GranuleAt(data, pos)));
  }

  lemma OneVisit(data: Bytes, seen: seq<Visit>, pos: nat, total: int, v: Visit, next: nat, total': int)
    requires SoFar(data, seen, pos, total) && pos + HEADER_SIZE <= |data| && data[pos..pos + HEADER_SIZE][..4] == MAGIC
    requires pos + HEADER_SIZE + data[pos + 26] <= |data|
    requires v == Visit(pos, GranuleAt(data, pos)) && next == PageEnd(data, pos) && total' == Larger(v.granule, total)
    ensures SoFar(data, seen + [v], next, total')
  {
    var rest := Visits(data, next);
    assert Visits(data, pos) == [v] + rest by {
      assert data[pos..pos + HEADER_SIZE][..4] == data[pos..pos + 4];
    }
    MaxAppend(seen, v);
    Lists.Reassociate(seen, [v], rest);
  }

  lemma {:induction false} MaxAppend(visits: seq<Visit>, v: Visit)
    ensures MaxGranule(visits + [v]) == if v.granule > MaxGranule(visits) then v.granule else MaxGranule(visits)
  {
    if visits == [] {
      assert [v][1..] == [];
    } else {
      assert (visits + [v])[1..] == visits[1..] + [v];
      MaxAppend(visits[1..], v);
    }
  }

  /** getOpusDuration: 48000 samples a second */
  method GetOpusDuration(r: ReadSeeker) returns (seconds: real)
    modifies r
    ensures seconds == MaxGranule(Visits(r.data, 0)) as real / 48000.0
  {
    var total := ScanGranules(r);
    seconds := total as real / 48000.0;
  }

  // ---------- Pages ----------

  /** An Ogg page: `flags` holds the version and the header type, `ids` the serial number, the sequence number and
      the checksum. */
  datatype Page = Page(flags: Bytes, granule: int, ids: Bytes, lacing: Bytes, body: Bytes)

  predicate WellFormed(p: Page) {
    |p.flags| == 2 && -TWO63 <= p.granule < TWO63 && |p.ids| == 12 && |p.lacing| < 256 && |p.body| == Sum(p.lacing)
  }

  function ToLittleEndian(u: nat, width: nat): (b: Bytes)
    ensures |b| == width
  {
    if width == 0 then [] else [u % 256] + ToLittleEndian(u / 256, width - 1)
  }

  function Pow256(n: nat): nat {
    if n == 0 then 1 else 256 * Pow256(n - 1)
  }

  lemma {:induction false} LittleEndianRoundTrip(u: nat, width: nat)
    requires u < Pow256(width)
    ensures LittleEndian(ToLittleEndian(u, width)) == u
  {
    if width > 0 {
      LittleEndianRoundTrip(u / 256, width - 1);
    }
  }

  /** Two's complement. */
  function Unsigned64(g: int): nat
    requires -TWO63 <= g < TWO63
  {
    if g >= 0 then g else g + TWO64
  }

  function Encode(p: Page): Bytes
    requires WellFormed(p)
  {
    MAGIC + p.flags + ToLittleEndian(Unsigned64(p.granule), 8) + p.ids + [|p.lacing|] + p.lacing + p.body
  }

  /** The fields that the scan looks at are where it expects them. */
  ghost predicate LaidOut(e: Bytes, segments: nat, granule: int) {
    && |e| >= HEADER_SIZE + segments && e[26] == segments
    && e[..4] == MAGIC && Signed64(LittleEndian(e[6..14])) == granule
    && |e| == HEADER_SIZE + segments + Sum(e[27..27 + segments])
  }

  lemma EncodeLayout(p: Page)
    requires WellFormed(p)
    ensures LaidOut(Encode(p), |p.lacing|, p.granule)
  {
    var e := Encode(p);
    assert e[6..14] == ToLittleEndian(Unsigned64(p.granule), 8);
    assert Pow256(8) == TWO64 by {
      assert Pow256(4) == 0x1_0000_0000;
      assert Pow256(8) == 256 * (256 * (256 * (256 * Pow256(4))));
    }
    LittleEndianRoundTrip(Unsigned64(p.granule), 8);
    assert e[27..27 + |p.lacing|] == p.lacing;
  }

  lemma VisitAt(data: Bytes, pos: nat, segments: nat, granule: int, next: nat)
    requires pos + HEADER_SIZE + segments <= |data| && data[pos + 26] == segments && MagicAt(data, pos)
    requires GranuleAt(data, pos) == granule
    requires next == pos + HEADER_SIZE + segments + Sum(data[pos + HEADER_SIZE..pos + HEADER_SIZE + segments])
    ensures Visits(data, pos) == [Visit(pos, granule)] + Visits(data, next)
  {
  }

  lemma HeaderMoves(data: Bytes, pos: nat, e: Bytes, segments: nat, granule: int)
    requires LaidOut(e, segments, granule) && pos + |e| <= |data| && data[pos..pos + |e|] == e
    ensures MagicAt(data, pos) && GranuleAt(data, pos) == granule && data[pos + 26] == segments
    ensures data[pos + HEADER_SIZE..pos + HEADER_SIZE + segments] == e[HEADER_SIZE..HEADER_SIZE + segments]
  {
    SubSlice(data, pos, pos + |e|, 0, 4);
    SubSlice(data, pos, pos + |e|, 6, 14);
    SubSlice(data, pos, pos + |e|, HEADER_SIZE, HEADER_SIZE + segments);
    assert data[pos..pos + |e|][26] == data[pos + 26];
  }

  /** Bytes laid out like a page, anywhere in the data, are visited once, and the scan goes on right behind them. */
  lemma LaidOutIsVisited(data: Bytes, pos: nat, e: Bytes, segments: nat, granule: int, next: nat)
    requires LaidOut(e, segments, granule) && next == pos + |e| <= |data| && data[pos..next] == e
    ensures Visits(data, pos) == [Visit(pos, granule)] + Visits(data, next)
  {
    HeaderMoves(data, pos, e, segments, granule);
    VisitAt(data, pos, segments, granule, next);
  }

  /** An encoded page with the two fields that the scan depends on. */
  datatype Block = Block(bytes: Bytes, segments: nat, granule: int)

  ghost predicate LaidOutBlocks(blocks: seq<Block>) {
    forall i | 0 <= i < |blocks| :: LaidOut(blocks[i].bytes, blocks[i].segments, blocks[i].granule)
  }

  function Concat(blocks: seq<Block>): Bytes {
    if blocks == [] then [] else blocks[0].bytes + Concat(blocks[1..])
  }

  /** One visit per page, at the place where the page starts. */
  function Expected(blocks: seq<Block>, pos: nat): seq<Visit> {
    if blocks == [] then [] else [Visit(pos, blocks[0].granule)] + Expected(blocks[1..], pos + |blocks[0].bytes|)
  }

  /** The data from pos on is exactly these blocks. */
  ghost predicate Tiled(data: Bytes, pos: nat, blocks: seq<Block>)
    decreases |blocks|
  {
    if blocks == [] then pos == |data|
    else
      var next := pos + |blocks[0].bytes|;
      next <= |data| && data[pos..next] == blocks[0].bytes && Tiled(data, next, blocks[1..])
  }

  lemma {:induction false} ConcatIsTiled(before: Bytes, blocks: seq<Block>, data: Bytes)
    requires data == before + Concat(blocks)
    ensures Tiled(data, |before|, blocks)
    decreases |blocks|
  {
    if blocks != [] {
      var b, rest := blocks[0].bytes, Concat(blocks[1..]);
      assert before + (b + rest) == before + b + rest;
      assert data[|before|..|before| + |b|] == b;
      ConcatIsTiled(before + b, blocks[1..], data);
    }
  }

  /** From one block to the next. */
  lemma FirstBlockIsVisited(data: Bytes, pos: nat, blocks: seq<Block>) returns (next: nat)
    requires blocks != [] && LaidOutBlocks(blocks) && Tiled(data, pos, blocks)
    ensures next == pos + |blocks[0].bytes| && LaidOutBlocks(blocks[1..]) && Tiled(data, next, blocks[1..])
    ensures Visits(data, pos) == [Visit(pos, blocks[0].granule)] + Visits(data, next)
  {
    var b := blocks[0];
    next := pos + |b.bytes|;
    LaidOutIsVisited(data, pos, b.bytes, b.segments, b.granule, next);
  }

  lemma ExpectedStep(blocks: seq<Block>, pos: nat, next: nat, whole: seq<Visit>, rest: seq<Visit>)
    requires blocks != [] && next == pos + |blocks[0].bytes|
    requires whole == [Visit(pos, blocks[0].granule)] + rest && rest == Expected(blocks[1..], next)
    ensures whole == Expected(blocks, pos)
  {
  }

  lemma {:induction false} BlocksAreVisited(data: Bytes, pos: nat, blocks: seq<Block>)
    requires LaidOutBlocks(blocks) && Tiled(data, pos, blocks)
    ensures Visits(data, pos) == Expected(blocks, pos)
    decreases |blocks|
  {
    if blocks != [] {
      var next := FirstBlockIsVisited(data, pos, blocks);
      BlocksAreVisited(data, next, blocks[1..]);
      ExpectedStep(blocks, pos, next, Visits(data, pos), Visits(data, next));
    }
  }

  function BlockOf(p: Page): Block
    requires WellFormed(p)
  {
    Block(Encode(p), |p.lacing|, p.granule)
  }

  function Blocks(pages: seq<Page>): (r: seq<Block>)
    requires forall i | 0 <= i < |pages| :: WellFormed(pages[i])
    ensures |r| == |pages| && forall i | 0 <= i < |pages| :: r[i] == BlockOf(pages[i])
  {
    seq(|pages|, i requires 0 <= i < |pages| => BlockOf(pages[i]))
  }

  function EncodeAll(pages: seq<Page>): Bytes
    requires forall i | 0 <= i < |pages| :: WellFormed(pages[i])
  {
    Concat(Blocks(pages))
  }

  lemma PagesAreLaidOut(pages: seq<Page>)
    requires forall i | 0 <= i < |pages| :: WellFormed(pages[i])
    ensures LaidOutBlocks(Blocks(pages))
  {
    forall i | 0 <= i < |pages|
      ensures LaidOut(Blocks(pages)[i].bytes, Blocks(pages)[i].segments, Blocks(pages)[i].granule)
    {
      EncodeLayout(pages[i]);
    }
  }

  /** Bytes in front of the first page are skipped one by one. */
  lemma {:induction false} JunkIsSkipped(data: Bytes, from: nat, to: nat)
    requires from <= to <= |data|
    requires forall i | from <= i < to :: !MagicAt(data, i)
    requires to + HEADER_SIZE <= |data| || to == |data|
    ensures Visits(data, from) == Visits(data, to)
    decreases |data| - from
  {
    if from < to {
      JunkIsSkipped(data, from + 1, to);
    }
  }

  /** On any concatenation of well-formed pages, behind bytes that contain no page mark before the first page, the
      scan visits every page exactly once and nothing else. */
  lemma ScanVisitsEveryPageOnce(junk: Bytes, pages: seq<Page>)
    requires forall i | 0 <= i < |pages| :: WellFormed(pages[i])
    requires forall i | 0 <= i < |junk| :: !MagicAt(junk + EncodeAll(pages), i)
    ensures Visits(junk + EncodeAll(pages), 0) == Expected(Blocks(pages), |junk|)
  {
    var data, blocks := junk + EncodeAll(pages), Blocks(pages);
    PagesAreLaidOut(pages);
    if pages != [] {
      assert Concat(blocks) == blocks[0].bytes + Concat(blocks[1..]);
    }
    JunkIsSkipped(data, 0, |junk|);
    ConcatIsTiled(junk, blocks, data);
    BlocksAreVisited(data, |junk|, blocks);
  }

  /** So the reported position is the largest granule position of any page, or 0 when none is above it. */
  lemma {:induction false} MaxOfExpected(blocks: seq<Block>, pos: nat)
    ensures var m := MaxGranule(Expected(blocks, pos));
            && m >= 0 && (forall i | 0 <= i < |blocks| :: blocks[i].granule <= m)
            && (m == 0 || exists i :: 0 <= i < |blocks| && blocks[i].granule == m)
    decreases |blocks|
  {
    if blocks != [] {
      var next := pos + |blocks[0].bytes|;
      MaxOfExpected(blocks[1..], next);
      var rest := MaxGranule(Expected(blocks[1..], next));
      assert Expected(blocks, pos)[1..] == Expected(blocks[1..], next);
      assert forall i | 1 <= i < |blocks| :: blocks[i] == blocks[1..][i - 1];
      if rest != 0 {
        var k :| 0 <= k < |blocks[1..]| && blocks[1..][k].granule == rest;
        assert blocks[k + 1].granule == rest;
      }
    }
  }

  /** The duration is taken from the last sample of the stream: the scan reports the largest granule position of
      any page, and zero when all of them are negative or there are none. */
  lemma ReportsLargestGranule(junk: Bytes, pages: seq<Page>)
    requires forall i | 0 <= i < |pages| :: WellFormed(pages[i])
    requires forall i | 0 <= i < |junk| :: !MagicAt(junk + EncodeAll(pages), i)
    ensures var m := MaxGranule(Visits(junk + EncodeAll(pages), 0));
            && m >= 0 && (forall i | 0 <= i < |pages| :: pages[i].granule <= m)
            && (m == 0 || exists i :: 0 <= i < |pages| && pages[i].granule == m)
  {
    ScanVisitsEveryPageOnce(junk, pages);
    MaxOfExpected(Blocks(pages), |junk|);
    assert forall i | 0 <= i < |pages| :: Blocks(pages)[i].granule == pages[i].granule;
  }

  /** An encoded page starts with the letters "OggS". */
  lemma PageStartsWithMark(p: Page)
    requires WellFormed(p)
    ensures var e := Encode(p);
            |e| >= 27 && e[0] == 'O' as int && e[1] == e[2] == 'g' as int && e[3] == 'S' as int
  {
    EncodeLayout(p);
    MarkIsSpelled(Encode(p), 0);
  }

  lemma MarkIsSpelled(data: Bytes, pos: nat)
    requires pos + 4 <= |data|
    ensures MagicAt(data, pos) <==> data[pos] == 'O' as int && data[pos + 1] == data[pos + 2] == 'g' as int
                                    && data[pos + 3] == 'S' as int
  {
    var mark := data[pos..pos + 4];
    assert mark == [data[pos], data[pos + 1], data[pos + 2], data[pos + 3]];
  }

  /** Data that nowhere holds these letters has no page and no duration. */
  lemma {:induction false} NothingWithoutMark(data: Bytes, pos: nat)
    requires forall i | 0 <= i && i + 4 <= |data| ::
               !(data[i] == 'O' as int && data[i + 1] == data[i + 2] == 'g' as int && data[i + 3] == 'S' as int)
    ensures Visits(data, pos) == [] && MaxGranule(Visits(data, pos)) == 0
    decreases |data| - pos
  {
    if pos + HEADER_SIZE <= |data| {
      MarkIsSpelled(data, pos);
      NothingWithoutMark(data, pos + 1);
    }
  }
}
