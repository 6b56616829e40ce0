/** Collaboration records in pages of characters. */
module RecordPages {
  import opened Basics
  import opened Pieces

  const CHUNK: nat := 4096

  datatype Page = Page(content: string, index: nat, total: nat, nextOffset: Option<nat>,
    nextIndex: Option<nat>) | Invalid

  /** What a record holds from an offset on: a full page or the rest, and where to go on. */
  predicate IsPageOf(record: string, total: int, index: int, offset: int, page: Page) {
    && page.Page? && 0 <= offset && page.index == index && page.total == total
    && var end := offset + |page.content|;
    && end <= |record| && page.content == record[offset..end]
    && 0 < |page.content| <= CHUNK && (end < |record| ==> |page.content| == CHUNK)
    && page.nextOffset == (if end < |record| then Some(end) else None)
    && page.nextIndex == (if end == |record| && index + 1 < total then Some(index + 1) else None)
  }

  /** One page of a record's characters, and where to go on: in this record, in the next, or nowhere. */
  method PageRecord(record: string, total: int, index: int, offset: int) returns (page: Page)
    ensures page.Invalid? <==> !(0 <= index < total && 0 <= offset < |record|)
    ensures page.Page? ==> IsPageOf(record, total, index, offset, page)
  {
    if total < 0 || index < 0 || index >= total || offset < 0 {
      return Invalid;
    }
    if offset >= |record| {
      return Invalid;
    }
    var end: nat := Min(|record|, offset + CHUNK);
    page := Page(record[offset..end], index, total, None, None);
    if end < |record| {
      page := page.(nextOffset := Some(end));
    } else if index + 1 < total {
      page := page.(nextIndex := Some(index + 1));
    }
  }

  /** What PageRecord returns for a position in the records. */
  predicate IsPage(records: seq<string>, p: Position, page: Page) {
    p.index < |records| && IsPageOf(records[p.index], |records|, p.index, p.offset, page)
  }

  /** The pages a reader gets who follows offsets within a record and then indexes, to the end. */
  predicate Read(records: seq<string>, p: Position, pages: seq<Page>)
    decreases |pages|
  {
    && |pages| > 0 && IsPage(records, p, pages[0])
    && if pages[0].nextOffset.Some? then Read(records, Position(p.index, pages[0].nextOffset.value), pages[1..])
       else if pages[0].nextIndex.Some? then Read(records, Position(pages[0].nextIndex.value, 0), pages[1..])
       else |pages| == 1
  }

  function PiecesOf(pages: seq<Page>): seq<Piece<char>> {
    if |pages| == 0 then []
    else if pages[0].Page? then
      [Piece(pages[0].index, pages[0].content)] + PiecesOf(pages[1..])
    else PiecesOf(pages[1..])
  }

  lemma {:induction false} ReadingWalks(records: seq<string>, p: Position, pages: seq<Page>)
    requires Read(records, p, pages)
    ensures Walk(records, p, PiecesOf(pages), Position(|records|, 0))
    decreases |pages|
  {
    var q := Behind(records, p, |pages[0].content|);
    if |pages| > 1 {
      ReadingWalks(records, q, pages[1..]);
    }
    assert PiecesOf(pages)[1..] == PiecesOf(pages[1..]);
  }

  function CeilingOf(length: nat): nat {
    (length + CHUNK - 1) / CHUNK
  }

  /** From a whole multiple of the page size on, a record takes the rounded-up number of pages. */
  lemma {:induction false} PagesOfRecord(records: seq<string>, p: Position, pages: seq<Page>, k: nat)
    requires Read(records, p, pages) && p.offset % CHUNK == 0 && k < |records|
    ensures Times(PiecesOf(pages), k) ==
            if k < p.index then 0
            else if k == p.index then CeilingOf(|records[k]| - p.offset) else CeilingOf(|records[k]|)
    decreases |pages|
  {
    hide CeilingOf, PiecesOf, Times;
    FirstPiece(pages, k);
    if pages[0].nextOffset.Some? {
      PagesOfRecord(records, Position(p.index, p.offset + CHUNK), pages[1..], k);
      CeilingStep(|records[p.index]| - p.offset);
    } else {
      CeilingOne(|records[p.index]| - p.offset);
      if pages[0].nextIndex.Some? {
        PagesOfRecord(records, Position(p.index + 1, 0), pages[1..], k);
      }
    }
  }

  lemma FirstPiece(pages: seq<Page>, k: nat)
    requires |pages| > 0 && pages[0].Page?
    ensures Times(PiecesOf(pages), k) == (if pages[0].index == k then 1 else 0) + Times(PiecesOf(pages[1..]), k)
    ensures |pages| == 1 ==> Times(PiecesOf(pages[1..]), k) == 0
  {
    assert PiecesOf(pages)[1..] == PiecesOf(pages[1..]);
  }

  lemma CeilingStep(length: nat)
    requires length > CHUNK
    ensures CeilingOf(length) == CeilingOf(length - CHUNK) + 1
  {
  }

  lemma CeilingOne(length: nat)
    requires 0 < length <= CHUNK
    ensures CeilingOf(length) == 1
  {
  }

  /** Following the pages from the start reads every record completely, in order, and with as many pages as it takes. */
  lemma RecordsAreComplete(records: seq<string>, pages: seq<Page>, k: nat)
    requires Read(records, Position(0, 0), pages) && k < |records|
    ensures Joined(PiecesOf(pages), k) == records[k]
    ensures Times(PiecesOf(pages), k) == CeilingOf(|records[k]|)
  {
    ReadingWalks(records, Position(0, 0), pages);
    WalkIsLossless(records, Position(0, 0), PiecesOf(pages), k);
    PagesOfRecord(records, Position(0, 0), pages, k);
  }

  /** A reader who follows the pages gets them all, unless it comes to an empty record. */
  method ReadRecords(records: seq<string>, p: Position) returns (pages: seq<Page>)
    ensures |pages| > 0
    ensures pages[|pages| - 1].Invalid? || Read(records, p, pages)
    ensures p.index < |records| && p.offset < |records[p.index]| && (forall record <- records :: record != "") ==>
              Read(records, p, pages)
    decreases |records| - p.index, if p.index < |records| then |records[p.index]| - p.offset else 0
  {
    if p.index >= |records| {
      return [Invalid];
    }
    var page := PageRecord(records[p.index], |records|, p.index, p.offset);
    pages := [page];
    if page.Page? && (page.nextOffset.Some? || page.nextIndex.Some?) {
      var next := if page.nextOffset.Some? then Position(p.index, page.nextOffset.value)
        else Position(page.nextIndex.value, 0);
      assert records[next.index] in records;
      var rest := ReadRecords(records, next);
      pages := pages + rest;
      assert pages[1..] == rest;
    }
  }
}
