/** Texts handed out piece by piece. */
module Pieces {

  /** A piece of one of several texts. */
  datatype Piece<T> = Piece(index: nat, content: seq<T>)

  /** How far a walk has come: everything of the texts before, and so much of this one. */
  datatype Position = Position(index: nat, offset: nat)

  predicate ValidPosition<T>(texts: seq<seq<T>>, p: Position) {
    || (p.index == |texts| && p.offset == 0)
    || (p.index < |texts| && (p.offset < |texts[p.index]| || p.offset == 0))
  }

  /** Behind a piece: further in its text, or at the start of the next one. */
  function Behind<T>(texts: seq<seq<T>>, p: Position, length: nat): Position
    requires p.index < |texts|
  {
    if p.offset + length >= |texts[p.index]| then Position(p.index + 1, 0) else Position(p.index, p.offset + length)
  }

  /** The piece continues the walk: it is what its text holds next, and empty only if the text is. */
  predicate Continues<T(==)>(texts: seq<seq<T>>, p: Position, piece: Piece<T>) {
    && p.index < |texts| && piece.index == p.index
    && p.offset + |piece.content| <= |texts[p.index]|
    && piece.content == texts[p.index][p.offset..p.offset + |piece.content|]
    && (piece.content == [] ==> texts[p.index] == [])
  }

  /** The pieces lead from one position to another. */
  predicate Walk<T(==)>(texts: seq<seq<T>>, p: Position, pieces: seq<Piece<T>>, q: Position)
    decreases |pieces|
  {
    if |pieces| == 0 then p == q
    else Continues(texts, p, pieces[0]) && Walk(texts, Behind(texts, p, |pieces[0].content|), pieces[1..], q)
  }

  lemma {:induction false} WalkOn<T>(
    texts: seq<seq<T>>, p: Position, a: seq<Piece<T>>, q: Position, b: seq<Piece<T>>, r: Position)
    requires Walk(texts, p, a, q) && Walk(texts, q, b, r)
    ensures Walk(texts, p, a + b, r)
    decreases |a|
  {
    if |a| == 0 {
      assert a + b == b;
    } else {
      assert (a + b)[1..] == a[1..] + b;
      WalkOn(texts, Behind(texts, p, |a[0].content|), a[1..], q, b, r);
    }
  }

  /** What is left of a text at a position. */
  function Left<T>(texts: seq<seq<T>>, p: Position, k: nat): seq<T>
    requires k < |texts|
  {
    if k < p.index then [] else if k == p.index && p.offset <= |texts[k]| then texts[k][p.offset..] else texts[k]
  }

  /** All pieces of a text, joined in order. */
  function Joined<T>(pieces: seq<Piece<T>>, k: nat): seq<T> {
    if |pieces| == 0 then [] else (if pieces[0].index == k then pieces[0].content else []) + Joined(pieces[1..], k)
  }

  function Times<T>(pieces: seq<Piece<T>>, k: nat): nat {
    if |pieces| == 0 then 0 else (if pieces[0].index == k then 1 else 0) + Times(pieces[1..], k)
  }

  /** A walk to the end hands out exactly what was left of every text, in order. */
  lemma {:induction false} WalkIsLossless<T>(texts: seq<seq<T>>, p: Position, pieces: seq<Piece<T>>, k: nat)
    requires ValidPosition(texts, p) && Walk(texts, p, pieces, Position(|texts|, 0)) && k < |texts|
    ensures Joined(pieces, k) == Left(texts, p, k)
    ensures k >= p.index ==> Times(pieces, k) >= 1
    ensures k < p.index ==> Times(pieces, k) == 0
    ensures k >= p.index && texts[k] == [] ==> Times(pieces, k) == 1
    decreases |pieces|
  {
    hide Walk, ValidPosition, Continues, Left, Behind;
    if |pieces| == 0 {
      NothingLeft(texts, p, pieces, k);
    } else {
      var q := TakeFirst(texts, p, pieces, k);
      WalkIsLossless(texts, q, pieces[1..], k);
    }
  }

  lemma NothingLeft<T>(texts: seq<seq<T>>, p: Position, pieces: seq<Piece<T>>, k: nat)
    requires |pieces| == 0 && Walk(texts, p, pieces, Position(|texts|, 0)) && k < |texts|
    ensures k < p.index && Left(texts, p, k) == []
  {
  }

  /** The first piece takes its part of what is left. */
  lemma TakeFirst<T>(texts: seq<seq<T>>, p: Position, pieces: seq<Piece<T>>, k: nat) returns (q: Position)
    requires |pieces| > 0 && ValidPosition(texts, p) && Walk(texts, p, pieces, Position(|texts|, 0)) && k < |texts|
    ensures ValidPosition(texts, q) && Walk(texts, q, pieces[1..], Position(|texts|, 0))
    ensures pieces[0].index == p.index && p.index <= q.index <= p.index + 1
    ensures p.index < |texts| && texts[p.index] == [] ==> q.index == p.index + 1
    ensures Left(texts, p, k) == (if pieces[0].index == k then pieces[0].content else []) + Left(texts, q, k)
  {
    q := Behind(texts, p, |pieces[0].content|);
    assert Walk(texts, q, pieces[1..], Position(|texts|, 0)) && Continues(texts, p, pieces[0]);
    hide Walk;
    if k == p.index {
      assert texts[k][p.offset..] == pieces[0].content + texts[k][p.offset + |pieces[0].content|..];
    }
  }

  /** Pieces come in the order of their texts. */
  lemma {:induction false} WalkIsOrdered<T>(texts: seq<seq<T>>, p: Position, pieces: seq<Piece<T>>, q: Position)
    requires Walk(texts, p, pieces, q)
    ensures forall piece <- pieces :: p.index <= piece.index
    ensures forall i, j :: 0 <= i < j < |pieces| ==> pieces[i].index <= pieces[j].index
    decreases |pieces|
  {
    if |pieces| > 0 {
      WalkIsOrdered(texts, Behind(texts, p, |pieces[0].content|), pieces[1..], q);
      forall i, j | 0 <= i < j < |pieces| ensures pieces[i].index <= pieces[j].index {
        if i == 0 {
          assert pieces[j] == pieces[1..][j - 1] && pieces[1..][j - 1] in pieces[1..];
        } else {
          assert pieces[i] == pieces[1..][i - 1] && pieces[j] == pieces[1..][j - 1];
        }
      }
    }
  }
}
