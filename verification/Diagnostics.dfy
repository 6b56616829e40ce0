/** Check-run diagnostics, page by page. */
module Diagnostics {
  // Summary, text and annotation messages are handed out in pieces, continued at one cursor.

  import opened Basics
  import opened Utf8
  import opened Pieces

  const SUMMARY_BYTES: nat := 8192
  const TEXT_BYTES: nat := 16384
  const MESSAGE_BYTES: nat := 4096
  const ANNOTATIONS: nat := 20

  /** Drops bytes from the end until what is left is valid. */
  method TrimToValid(text: Bytes) returns (cut: Bytes)
    ensures cut <= text && Valid(cut)
    ensures forall k :: |cut| < k <= |text| ==> !Valid(text[..k])
  {
    hide Valid;
    cut := text;
    assert text[..|text|] == text;
    while |cut| > 0 && !Valid(cut)
      invariant cut <= text
      invariant forall k :: |cut| < k <= |text| ==> !Valid(text[..k])
    {
      assert text[..|cut|] == cut;
      cut := cut[..|cut| - 1];
    }
    if |cut| == 0 {
      NothingIsValid();
    }
  }

  lemma NothingIsValid()
    ensures Valid([])
  {
  }

  /** The next piece of a text, cut between characters, and where it ends. */
  method ChunkDiagnosticText(value: Bytes, offset: int, limit: nat) returns (chunk: Bytes, next: int, more: bool)
    ensures IsNext(value, offset, limit, chunk, next, more) && next >= offset
    ensures Boundary(value, offset) ==> IsChunk(value, offset, limit, chunk, next, more)
  {
    hide Valid, IsChunk, Repaired, Boundary;
    if offset < 0 || offset > |value| {
      assert !Boundary(value, offset) by {
        OutsideIsNoBoundary(value, offset);
      }
      return [], offset, true;
    }
    var rest := value[offset..];
    RepairedIsValid(rest, false);
    if |rest| <= limit {
      if Boundary(value, offset) {
        WholeRest(value, offset, limit);
      }
      if !Valid(rest) {
        return Repaired(rest, false), |value|, false;
      }
      return rest, |value|, false;
    }
    var cut := TrimToValid(rest[..limit]);
    PrefixesOfPrefix(rest, limit);
    if Boundary(value, offset) {
      CutRest(value, offset, limit, cut);
    }
    return cut, offset + |cut|, true;
  }

  /** The rest of the text, repaired, if it is short enough; otherwise its longest valid beginning within the limit. */
  predicate IsNext(value: Bytes, offset: int, limit: nat, chunk: Bytes, next: int, more: bool) {
    if !(0 <= offset <= |value|) then chunk == [] && next == offset && more
    else if |value| - offset <= limit then chunk == Repaired(value[offset..], false) && next == |value| && !more
    else
      && chunk <= value[offset..][..limit] && next == offset + |chunk| && more && Valid(chunk)
      && forall k :: |chunk| < k <= limit ==> !Valid(value[offset..][..k])
  }

  /** There is only one such piece. */
  lemma NextIsUnique(value: Bytes, offset: int, limit: nat, a: Bytes, b: Bytes)
    requires HasNext(value, offset, limit, a) && HasNext(value, offset, limit, b)
    ensures a == b
  {
    hide Valid, Repaired;
    if 0 <= offset <= |value| && |value| - offset > limit {
      var rest := value[offset..];
      PrefixesOfPrefix(rest, limit);
      assert a == rest[..limit][..|a|] && b == rest[..limit][..|b|];
    }
  }

  /** The next piece of a text, wherever it ends. */
  ghost predicate HasNext(value: Bytes, offset: int, limit: nat, chunk: Bytes) {
    exists next: int, more: bool :: IsNext(value, offset, limit, chunk, next, more)
  }

  lemma OutsideIsNoBoundary(value: Bytes, offset: int)
    requires !(0 <= offset <= |value|)
    ensures !Boundary(value, offset)
  {
  }

  lemma PrefixesOfPrefix(text: Bytes, limit: nat)
    requires limit <= |text|
    ensures forall k :: 0 <= k <= limit ==> text[..limit][..k] == text[..k]
  {
    forall k | 0 <= k <= limit ensures text[..limit][..k] == text[..k] {
      PrefixOfPrefix(text, limit, k);
    }
  }

  /** A piece from the offset on: as long as the limit and the characters allow, and never empty without need. */
  predicate IsChunk(value: Bytes, offset: nat, limit: nat, chunk: Bytes, next: int, more: bool) {
    && offset <= next <= |value| && Boundary(value, next)
    && chunk == value[offset..next] && |chunk| <= limit && Valid(chunk)
    && (more <==> next < |value|)
    && (limit >= 4 && offset < |value| ==> offset < next)
    && (more ==> forall k :: next < k <= offset + limit ==> !Boundary(value, k))
  }

  lemma WholeRest(value: Bytes, offset: nat, limit: nat)
    requires Boundary(value, offset) && |value| - offset <= limit
    ensures Valid(value[offset..]) && IsChunk(value, offset, limit, value[offset..], |value|, false)
  {
    hide Valid;
    BoundaryIsOfValid(value, offset);
    NothingIsValid();
    assert value[..|value|] == value && value[|value|..] == [];
    assert value[offset..|value|] == value[offset..];
  }

  lemma CutRest(value: Bytes, offset: nat, limit: nat, cut: Bytes)
    requires Boundary(value, offset) && |value| - offset > limit
    requires cut <= value[offset..][..limit] && Valid(cut)
    requires forall k :: |cut| < k <= limit ==> !Valid(value[offset..][..limit][..k])
    ensures IsChunk(value, offset, limit, cut, offset + |cut|, true)
  {
    hide Valid, Boundary, IsChunk;
    BoundaryIsOfValid(value, offset);
    RestIsValid(value, offset);
    var rest := value[offset..];
    var w := FirstCharacter(rest);
    PrefixesOfPrefix(rest, limit);
    assert |cut| <= limit && cut == rest[..|cut|];
    assert limit >= 4 ==> |cut| >= w by {
      assert w <= limit ==> Valid(rest[..limit][..w]);
    }
    BoundaryLater(value, offset, |cut|);
    NoLaterBoundary(value, offset, limit, |cut|);
    ChunkIs(value, offset, limit, cut);
  }

  lemma PrefixOfPrefix(text: Bytes, limit: nat, k: nat)
    requires k <= limit <= |text|
    ensures text[..limit][..k] == text[..k]
  {
  }

  lemma ChunkIs(value: Bytes, offset: nat, limit: nat, cut: Bytes)
    requires Valid(cut) && offset + limit < |value| && |cut| <= limit && cut == value[offset..offset + |cut|]
    requires Boundary(value, offset + |cut|) && (limit >= 4 ==> |cut| > 0)
    requires forall k :: offset + |cut| < k <= offset + limit ==> !Boundary(value, k)
    ensures IsChunk(value, offset, limit, cut, offset + |cut|, true)
  {
    hide Valid, Boundary;
  }

  lemma NoLaterBoundary(value: Bytes, offset: nat, limit: nat, length: nat)
    requires Valid(value) && Boundary(value, offset) && |value| - offset > limit
    requires forall k :: length < k <= limit ==> !Valid(value[offset..][..k])
    ensures forall k :: offset + length < k <= offset + limit ==> !Boundary(value, k)
  {
    hide Valid, Boundary;
    forall k | offset + length < k <= offset + limit ensures !Boundary(value, k) {
      BoundaryLater(value, offset, k - offset);
    }
  }

  lemma RestIsValid(value: Bytes, offset: nat)
    requires Boundary(value, offset)
    ensures Valid(value[offset..])
  {
  }

  // ----- Annotations -----

  predicate AllValid(messages: seq<Bytes>) {
    forall m <- messages :: Valid(m)
  }

  /** A position between characters; behind a message is before the next one. */
  predicate Clean(messages: seq<Bytes>, p: Position) {
    ValidPosition(messages, p) && (p.index < |messages| ==> Boundary(messages[p.index], p.offset))
  }

  lemma CleanStart(messages: seq<Bytes>, index: nat)
    requires AllValid(messages) && index <= |messages|
    ensures Clean(messages, Position(index, 0))
  {
    if index < |messages| {
      assert messages[index] in messages;
      assert messages[index][0..] == messages[index] && messages[index][..0] == [];
    }
  }

  /** A chunk of a message continues the walk over the messages. */
  lemma ChunkContinues(messages: seq<Bytes>, p: Position, chunk: Bytes, next: nat, more: bool)
    requires AllValid(messages) && Clean(messages, p) && p.index < |messages|
    requires IsChunk(messages[p.index], p.offset, MESSAGE_BYTES, chunk, next, more)
    ensures Continues(messages, p, Piece(p.index, chunk))
    ensures Behind(messages, p, |chunk|) == if more then Position(p.index, next) else Position(p.index + 1, 0)
    ensures Clean(messages, Behind(messages, p, |chunk|))
  {
    hide Valid, Boundary;
    if !more {
      CleanStart(messages, p.index + 1);
    }
  }

  lemma WalkSnoc(messages: seq<Bytes>, p: Position, pieces: seq<Piece<byte>>, q: Position, piece: Piece<byte>)
    requires Walk(messages, p, pieces, q) && Continues(messages, q, piece)
    ensures Walk(messages, p, pieces + [piece], Behind(messages, q, |piece.content|))
  {
    var r := Behind(messages, q, |piece.content|);
    assert [piece][1..] == [];
    assert Walk(messages, q, [piece], r);
    WalkOn(messages, p, pieces, q, [piece], r);
  }

  /** The longest piece of its message that a page may show at this position. */
  ghost predicate IsPiece(messages: seq<Bytes>, p: Position, piece: Piece<byte>) {
    p.index < |messages| && piece.index == p.index &&
    HasNext(messages[p.index], p.offset, MESSAGE_BYTES, piece.content)
  }

  /** Messages of proper text, and a position between their characters. */
  predicate Proper(messages: seq<Bytes>, at: Position) {
    AllValid(messages) && Clean(messages, at)
  }

  /** Fits annotation chunks into one page; a message that goes on ends the page. */
  method PageCheckAnnotations(messages: seq<Bytes>, at: Position, fits: seq<Piece<byte>> -> bool)
    returns (ok: bool, page: seq<Piece<byte>>, next: Position)
    ensures ok && Proper(messages, at) ==> Walk(messages, at, page, next) && Proper(messages, next)
    ensures ok ==>
              |page| <= ANNOTATIONS &&
              if at.index < |messages| then |page| > 0 && fits(page) && fits(page[..1]) else page == []
    ensures ok ==> forall i :: 0 <= i < |page| ==>
            IsPiece(messages, if i == 0 then at else Position(at.index + i, 0), page[i])
    ensures ok && |page| < ANNOTATIONS && next.index < |messages| && next.offset == 0 && Proper(messages, at) ==>
              exists piece :: IsPiece(messages, next, piece) && !fits(page + [piece])
    ensures !ok ==> at.index < |messages| && exists piece: Piece<byte> :: IsPiece(messages, at, piece) && !fits([piece])
  {
    hide Boundary, Valid, Walk, IsNext, IsChunk;
    page, next := [], if at.index < |messages| then at else Position(at.index, 0);
    assert Walk(messages, at, page, at) by {
      NoWalk(messages, at);
    }
    if at.index >= |messages| {
      return true, page, next;
    }
    var idx := at.index;
    while idx < |messages| && |page| < ANNOTATIONS
      invariant at.index <= idx <= |messages| && idx - at.index == |page| <= ANNOTATIONS
      invariant next == if idx == at.index then at else Position(idx, 0)
      invariant Proper(messages, at) ==> Walk(messages, at, page, next) && Clean(messages, next)
      invariant |page| > 0 ==> fits(page) && fits(page[..1])
      invariant forall i :: 0 <= i < |page| ==>
                IsPiece(messages, if i == 0 then at else Position(at.index + i, 0), page[i])
      decreases |messages| - idx
    {
      assert messages[idx] in messages;
      var off := if idx == at.index then at.offset else 0;
      var chunk, chunkNext, more := ChunkDiagnosticText(messages[idx], off, MESSAGE_BYTES);
      var trial := Piece(idx, chunk);
      assert IsPiece(messages, next, trial);
      if !fits(page + [trial]) {
        if |page| == 0 {
          assert [] + [trial] == [trial];
          return false, [], at;
        }
        return true, page, Position(idx, off);
      }
      if Proper(messages, at) {
        ChunkContinues(messages, next, chunk, chunkNext, more);
        WalkSnoc(messages, at, page, next, trial);
      }
      assert (page + [trial])[..1] == if |page| == 0 then page + [trial] else page[..1];
      page := page + [trial];
      if more {
        return true, page, Position(idx, chunkNext);
      }
      idx := idx + 1;
      next := Position(idx, 0);
    }
    return true, page, next;
  }

  lemma NoWalk(messages: seq<Bytes>, p: Position)
    ensures Walk(messages, p, [], p)
  {
  }

  // ----- A page of diagnostics -----

  datatype Content = Content(summary: Bytes, text: Bytes, messages: seq<Bytes>)

  datatype Cursor = Cursor(summary: nat, text: nat, at: Position)

  datatype Response =
    | Page(summary: Bytes, text: Bytes, annotations: seq<Piece<byte>>, more: bool, next: Cursor)
    | Stale
    | TooLarge

  const BEGINNING := Cursor(0, 0, Position(0, 0))

  /** A fully read message is passed over. */
  function Absorbed(messages: seq<Bytes>, p: Position): Position {
    if p.index < |messages| && p.offset == |messages[p.index]| && |messages[p.index]| > 0 then
      Position(p.index + 1, 0)
    else p
  }

  predicate AtEnd(c: Content, at: Cursor) {
    at.at.index == |c.messages| && at.summary >= |c.summary| && at.text >= |c.text|
  }

  /** Offsets between characters of what is there. */
  predicate InContent(c: Content, at: Cursor) {
    && Boundary(c.summary, at.summary) && Boundary(c.text, at.text)
    && at.at.index <= |c.messages|
    && (if at.at.index < |c.messages| then Boundary(c.messages[at.at.index], at.at.offset) else at.at.offset == 0)
  }

  /** A position that a continuation may be issued for. */
  predicate Honest(c: Content, at: Cursor) {
    Boundary(c.summary, at.summary) && Boundary(c.text, at.text) && Clean(c.messages, at.at)
  }

  predicate Accepted(c: Content, cursor: Option<Cursor>) {
    var at := if cursor.Some? then cursor.value else BEGINNING;
    InContent(c, at) && !(cursor.Some? && AtEnd(c, at.(at := Absorbed(c.messages, at.at))))
  }

  /** What a page shows is what comes next in each part, and it says where to go on, if anything is left. */
  predicate Shows(c: Content, from: Cursor, page: Response) {
    && page.Page?
    && from.summary <= page.next.summary <= |c.summary| && page.summary == c.summary[from.summary..page.next.summary]
    && from.text <= page.next.text <= |c.text| && page.text == c.text[from.text..page.next.text]
    && (from.summary < |c.summary| ==> from.summary < page.next.summary)
    && (from.text < |c.text| ==> from.text < page.next.text)
    && Walk(c.messages, from.at, page.annotations, page.next.at)
    && (from.at.index < |c.messages| ==> page.annotations != [])
    && Honest(c, page.next)
    && (page.more <==> !AtEnd(c, page.next))
  }

  /** What comes next of summary and text. */
  ghost predicate IsFirst(c: Content, at: Cursor, summary: Bytes, text: Bytes) {
    HasNext(c.summary, at.summary, SUMMARY_BYTES, summary) && HasNext(c.text, at.text, TEXT_BYTES, text)
  }

  /** Even the smallest page at this position is too large: the next of summary and text, and of one message. */
  ghost predicate NothingFits(c: Content, at: Cursor, fits: (Bytes, Bytes, seq<Piece<byte>>) -> bool) {
    exists summary: Bytes, text: Bytes, piece: Piece<byte> ::
      IsFirst(c, at, summary, text) && IsPiece(c.messages, Absorbed(c.messages, at.at), piece) &&
      !fits(summary, text, [piece])
  }

  /** Where one smallest page fits, every one does: there is only one. */
  lemma SmallestFits(
    c: Content, at: Cursor, fits: (Bytes, Bytes, seq<Piece<byte>>) -> bool, summary: Bytes, text: Bytes,
    page: seq<Piece<byte>>)
    requires IsFirst(c, at, summary, text)
    requires Absorbed(c.messages, at.at).index < |c.messages| ==>
               |page| > 0 && IsPiece(c.messages, Absorbed(c.messages, at.at), page[0]) && fits(summary, text, page[..1])
    ensures !NothingFits(c, at, fits)
  {
    hide HasNext, Absorbed;
    if NothingFits(c, at, fits) {
      assert |page| > 0 ==> page[..1] == [page[0]];
      var p := Absorbed(c.messages, at.at);
      var s: Bytes, t: Bytes, piece: Piece<byte> :|
        IsFirst(c, at, s, t) && IsPiece(c.messages, p, piece) && !fits(s, t, [piece]);
      NextIsUnique(c.summary, at.summary, SUMMARY_BYTES, s, summary);
      NextIsUnique(c.text, at.text, TEXT_BYTES, t, text);
      NextIsUnique(c.messages[p.index], p.offset, MESSAGE_BYTES, piece.content, page[0].content);
    }
  }

  lemma SmallestIsTooLarge(
    c: Content, at: Cursor, fits: (Bytes, Bytes, seq<Piece<byte>>) -> bool, summary: Bytes, text: Bytes,
    piece: Piece<byte>)
    requires IsFirst(c, at, summary, text) && IsPiece(c.messages, Absorbed(c.messages, at.at), piece)
    requires !fits(summary, text, [piece])
    ensures NothingFits(c, at, fits)
  {
    hide IsPiece, IsFirst;
  }

  method GetCheckRunDiagnostics(c: Content, cursor: Option<Cursor>, fits: (Bytes, Bytes, seq<Piece<byte>>) -> bool)
    returns (r: Response)
    ensures r.Stale? <==> !Accepted(c, cursor)
    ensures r.Page? && AllValid(c.messages) ==>
              var at := if cursor.Some? then cursor.value else BEGINNING;
              Shows(c, at.(at := Absorbed(c.messages, at.at)), r)
    ensures r.Page? && r.annotations != [] ==> fits(r.summary, r.text, r.annotations) && |r.annotations| <= ANNOTATIONS
    ensures r.TooLarge? <==>
              Accepted(c, cursor) && NothingFits(c, if cursor.Some? then cursor.value else BEGINNING, fits)
  {
    hide Valid, Boundary, Walk, IsNext, NothingFits, IsPiece, IsChunk, Shows;
    var at := if cursor.Some? then cursor.value else BEGINNING;
    var validSummary := ValidTextOffset(c.summary, at.summary);
    var validText := ValidTextOffset(c.text, at.text);
    if !validSummary || !validText {
      return Stale;
    }
    var summary, summaryNext, summaryMore := ChunkDiagnosticText(c.summary, at.summary, SUMMARY_BYTES);
    var text, textNext, textMore := ChunkDiagnosticText(c.text, at.text, TEXT_BYTES);
    if at.at.index > |c.messages| {
      return Stale;
    }
    var from := at.at;
    if at.at.index < |c.messages| {
      var message := c.messages[at.at.index];
      assert message in c.messages;
      var valid := ValidTextOffset(message, at.at.offset);
      if !valid {
        return Stale;
      }
      if at.at.offset == |message| && |message| > 0 {
        from := Position(at.at.index + 1, 0);
        if AllValid(c.messages) {
          CleanStart(c.messages, at.at.index + 1);
        }
      }
      BoundaryWithin(message, at.at.offset);
    } else if at.at.offset != 0 {
      return Stale;
    }
    if cursor.Some? && from.index == |c.messages| && at.summary >= |c.summary| && at.text >= |c.text| {
      return Stale;
    }
    assert AllValid(c.messages) ==> Clean(c.messages, from);
    var ok, page, next := PageCheckAnnotations(c.messages, from, pieces => fits(summary, text, pieces));
    assert IsFirst(c, at, summary, text) && Absorbed(c.messages, at.at) == from;
    if !ok {
      ghost var piece :| IsPiece(c.messages, from, piece) && !fits(summary, text, [piece]);
      SmallestIsTooLarge(c, at, fits, summary, text, piece);
      return TooLarge;
    }
    var more := next.index < |c.messages| || summaryMore || textMore;
    r := Page(summary, text, page, more, Cursor(summaryNext, textNext, next));
    SmallestFits(c, at, fits, summary, text, page);
    if AllValid(c.messages) {
      PageShows(c, at.(at := from), r, summaryMore, textMore);
    }
  }

  lemma PageShows(c: Content, from: Cursor, page: Response, summaryMore: bool, textMore: bool)
    requires page.Page? && AllValid(c.messages) && Clean(c.messages, from.at) && Clean(c.messages, page.next.at)
    requires IsChunk(c.summary, from.summary, SUMMARY_BYTES, page.summary, page.next.summary, summaryMore)
    requires IsChunk(c.text, from.text, TEXT_BYTES, page.text, page.next.text, textMore)
    requires Walk(c.messages, from.at, page.annotations, page.next.at)
    requires from.at.index < |c.messages| ==> |page.annotations| > 0
    requires page.more == (page.next.at.index < |c.messages| || summaryMore || textMore)
    ensures Shows(c, from, page)
  {
    hide Valid, Boundary, Walk;
  }

  lemma WalkNowhere(messages: seq<Bytes>, p: Position, pieces: seq<Piece<byte>>, q: Position)
    requires Walk(messages, p, pieces, q)
    ensures p.index >= |messages| ==> pieces == []
    ensures pieces == [] ==> p == q
  {
  }

  lemma BoundaryWithin(text: Bytes, offset: nat)
    requires Boundary(text, offset)
    ensures offset <= |text|
  {
  }

  method ValidTextOffset(value: Bytes, offset: int) returns (valid: bool)
    ensures valid == Boundary(value, offset)
  {
    if offset < 0 || offset > |value| {
      return false;
    }
    return Valid(value[..offset]) && Valid(value[offset..]);
  }

  // ----- Following the cursors -----

  /** An issued continuation is accepted again. */
  lemma IssuedIsAccepted(c: Content, from: Cursor, page: Response)
    requires Shows(c, from, page) && page.more
    ensures Accepted(c, Some(page.next))
    ensures Absorbed(c.messages, page.next.at) == page.next.at
  {
    hide Boundary, Valid, Walk;
  }

  /** The pages of a caller who follows every cursor to the end. */
  predicate Followed(c: Content, from: Cursor, pages: seq<Response>)
    decreases |pages|
  {
    && |pages| > 0 && Shows(c, from, pages[0])
    && if pages[0].more then Followed(c, pages[0].next, pages[1..]) else |pages| == 1
  }

  function Summaries(pages: seq<Response>): Bytes {
    if |pages| == 0 then [] else (if pages[0].Page? then pages[0].summary else []) + Summaries(pages[1..])
  }

  function Texts(pages: seq<Response>): Bytes {
    if |pages| == 0 then [] else (if pages[0].Page? then pages[0].text else []) + Texts(pages[1..])
  }

  function AllPieces(pages: seq<Response>): seq<Piece<byte>> {
    if |pages| == 0 then [] else (if pages[0].Page? then pages[0].annotations else []) + AllPieces(pages[1..])
  }

  lemma {:induction false} FollowedWalks(c: Content, from: Cursor, pages: seq<Response>)
    requires Followed(c, from, pages)
    ensures from.summary <= |c.summary| && Summaries(pages) == c.summary[from.summary..]
    ensures from.text <= |c.text| && Texts(pages) == c.text[from.text..]
    ensures Walk(c.messages, from.at, AllPieces(pages), Position(|c.messages|, 0))
    decreases |pages|
  {
    hide Boundary, Valid, Walk, Summaries, Texts, AllPieces;
    var page := pages[0];
    FirstPage(pages);
    if page.more {
      FollowedWalks(c, page.next, pages[1..]);
      Rejoined(c.summary, from.summary, page.next.summary);
      Rejoined(c.text, from.text, page.next.text);
      WalkOn(c.messages, from.at, page.annotations, page.next.at, AllPieces(pages[1..]), Position(|c.messages|, 0));
    } else {
      NoPages();
      assert pages[1..] == [];
      assert page.summary + [] == page.summary && page.text + [] == page.text &&
        page.annotations + [] == page.annotations;
    }
  }

  lemma FirstPage(pages: seq<Response>)
    requires |pages| > 0 && pages[0].Page?
    ensures Summaries(pages) == pages[0].summary + Summaries(pages[1..])
    ensures Texts(pages) == pages[0].text + Texts(pages[1..])
    ensures AllPieces(pages) == pages[0].annotations + AllPieces(pages[1..])
  {
  }

  lemma NoPages()
    ensures Summaries([]) == [] && Texts([]) == [] && AllPieces([]) == []
  {
  }

  lemma Rejoined(text: Bytes, i: nat, j: nat)
    requires i <= j <= |text|
    ensures text[i..] == text[i..j] + text[j..]
  {
  }

  /** Following the cursors gives the whole summary, the whole text, and every annotation's whole message, once and in
      order. */
  lemma DiagnosticsAreComplete(c: Content, pages: seq<Response>)
    requires Followed(c, BEGINNING, pages)
    ensures Summaries(pages) == c.summary && Texts(pages) == c.text
    ensures forall k :: 0 <= k < |c.messages| ==>
              && Joined(AllPieces(pages), k) == c.messages[k]
              && Times(AllPieces(pages), k) >= 1 && (c.messages[k] == [] ==> Times(AllPieces(pages), k) == 1)
    ensures forall i, j :: 0 <= i < j < |AllPieces(pages)| ==> AllPieces(pages)[i].index <= AllPieces(pages)[j].index
  {
    hide Boundary, Valid;
    FollowedWalks(c, BEGINNING, pages);
    assert c.summary[0..] == c.summary && c.text[0..] == c.text;
    var pieces := AllPieces(pages);
    forall k | 0 <= k < |c.messages|
      ensures Joined(pieces, k) == c.messages[k] && Times(pieces, k) >= 1 &&
              (c.messages[k] == [] ==> Times(pieces, k) == 1)
    {
      WalkIsLossless(c.messages, Position(0, 0), pieces, k);
    }
    WalkIsOrdered(c.messages, Position(0, 0), pieces, Position(|c.messages|, 0));
  }

  // ----- Coming to an end -----

  function Unread(messages: seq<Bytes>, p: Position): nat
    decreases if p.index < |messages| then |messages| - p.index else 0
  {
    if p.index >= |messages| then 0
    else 1 + (|messages[p.index]| - Min(p.offset, |messages[p.index]|)) + Unread(messages, Position(p.index + 1, 0))
  }

  lemma {:induction false} WalkReads(messages: seq<Bytes>, p: Position, pieces: seq<Piece<byte>>, q: Position)
    requires Walk(messages, p, pieces, q)
    ensures Unread(messages, q) + |pieces| <= Unread(messages, p)
    decreases |pieces|
  {
    if |pieces| > 0 {
      var r := Behind(messages, p, |pieces[0].content|);
      WalkReads(messages, r, pieces[1..], q);
      assert Unread(messages, r) + 1 <= Unread(messages, p);
    }
  }

  /** What is left to hand out; every page but the last makes it smaller. */
  function Remaining(c: Content, at: Cursor): int {
    (|c.summary| - at.summary) + (|c.text| - at.text) + Unread(c.messages, at.at)
  }

  lemma {:induction false} FollowingEnds(c: Content, from: Cursor, pages: seq<Response>)
    requires Followed(c, from, pages)
    ensures |pages| <= Remaining(c, from) + 1
    decreases |pages|
  {
    hide Boundary, Valid, Walk, Unread;
    WalkReads(c.messages, from.at, pages[0].annotations, pages[0].next.at);
    if pages[0].more {
      FollowingEnds(c, pages[0].next, pages[1..]);
      PageAdvances(c, from, pages[0]);
    }
  }

  lemma PageAdvances(c: Content, from: Cursor, page: Response)
    requires Shows(c, from, page) && page.more
    ensures Remaining(c, page.next) < Remaining(c, from)
  {
    hide Boundary, Valid, Walk, Unread;
    WalkReads(c.messages, from.at, page.annotations, page.next.at);
    WalkNowhere(c.messages, from.at, page.annotations, page.next.at);
  }

  /** The position the last of the pages was requested for. */
  function LastCursor(from: Cursor, pages: seq<Response>): Cursor
    decreases |pages|
  {
    if |pages| > 1 && pages[0].Page? then LastCursor(pages[0].next, pages[1..]) else from
  }

  /** A caller that follows every cursor gets all pages, unless one annotation is too large to show. */
  method ReadDiagnostics(c: Content, cursor: Option<Cursor>, fits: (Bytes, Bytes, seq<Piece<byte>>) -> bool)
    returns (pages: seq<Response>)
    requires AllValid(c.messages)
    requires cursor.Some? ==> Absorbed(c.messages, cursor.value.at) == cursor.value.at
    ensures |pages| > 0
    ensures pages[0].Stale? <==> !Accepted(c, cursor)
    ensures pages[0].Stale? || pages[|pages| - 1].TooLarge? ||
            Followed(c, if cursor.Some? then cursor.value else BEGINNING, pages)
    ensures pages[|pages| - 1].TooLarge? ==>
              NothingFits(c, LastCursor(if cursor.Some? then cursor.value else BEGINNING, pages), fits)
    decreases Remaining(c, if cursor.Some? then cursor.value else BEGINNING)
  {
    hide Boundary, Valid, Walk, Remaining, Accepted, Shows, NothingFits;
    var page := GetCheckRunDiagnostics(c, cursor, fits);
    pages := [page];
    if page.Page? && page.more {
      ghost var from := if cursor.Some? then cursor.value else BEGINNING;
      IssuedIsAccepted(c, from, page);
      PageAdvances(c, from, page);
      RemainingIsLeft(c, from, page);
      var rest := ReadDiagnostics(c, Some(page.next), fits);
      pages := pages + rest;
      assert pages[1..] == rest;
    }
  }

  lemma RemainingIsLeft(c: Content, from: Cursor, page: Response)
    requires Shows(c, from, page)
    ensures Remaining(c, page.next) >= 0 && Remaining(c, from) >= 0
  {
    hide Boundary, Valid, Walk, Unread;
  }
}
