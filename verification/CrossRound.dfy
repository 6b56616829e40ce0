/** How far the guard reaches across rounds. */
module CrossRound {
  import opened Basics
  import opened Conversation
  import opened Steps

  /** `d` is one of the decisions a new interpretation of `question` in `round` is checked against: the latest of
      that round and, once it has been superseded, of the current round that receives the interpretation. */
  predicate Consulted(s: Snapshot, round: Id, question: Id, d: Resolution) {
    var at := RoundAt(s.rounds, round);
    at >= 0 &&
    (|| Latest(s.rounds[at].resolutions, question) == Some(d)
     || (s.rounds[at].supersededBy != NO_ID &&
         exists j :: 0 <= j < |s.rounds| && Receives(s, s.rounds[at], s.rounds[j], question) &&
                     Latest(s.rounds[j].resolutions, question) == Some(d)))
  }

  /** Some live consulted decision rests on nothing but responses that `g` rests on. */
  ghost predicate Shielded(s: Snapshot, round: Id, question: Id, g: Resolution) {
    exists d :: Consulted(s, round, question, d) && !d.obsolete && forall y :: y in d.responseIds ==> y in g.responseIds
  }

  ghost predicate RevisesSome(s: Snapshot, r: Resolution, g: Resolution) {
    exists x, y :: x in r.responseIds && y in g.responseIds && Revises(s.inputs, s.assessments, x, y)
  }

  /** The decision a shielded question stands on is replaced only with human evidence that revises it. */
  lemma ShieldedIsRevised(s: Snapshot, round: Id, turn: Id, rs: seq<Resolution>, k: nat, g: Resolution)
    requires CanResolve(s, round, turn, rs) && k < |rs| && !rs[k].obsolete
    requires Shielded(s, round, rs[k].questionId, g)
    ensures RevisesSome(s, rs[k], g)
  {
    hide Revises, Citable, Receives;
    var q := rs[k].questionId;
    var d :| Consulted(s, round, q, d) && !d.obsolete && forall y :: y in d.responseIds ==> y in g.responseIds;
    assert Resolvable(s, s.rounds[RoundAt(s.rounds, round)], rs[k]);
    assert CanRevise(s.inputs, s.assessments, Some(d), rs[k]);
    var i :| 0 <= i < |rs[k].responseIds| && RevisesAny(s.inputs, s.assessments, rs[k].responseIds[i], d.responseIds);
    var j :| 0 <= j < |d.responseIds| && Revises(s.inputs, s.assessments, rs[k].responseIds[i], d.responseIds[j]);
    assert rs[k].responseIds[i] in rs[k].responseIds && d.responseIds[j] in d.responseIds;
  }

  /** In particular a consulted decision, governing or not, or one of the two marks the question obsolete. */
  lemma GuardedIsRevised(s: Snapshot, round: Id, turn: Id, rs: seq<Resolution>, k: nat, g: Resolution)
    requires CanResolve(s, round, turn, rs) && k < |rs|
    requires Consulted(s, round, rs[k].questionId, g)
    ensures g.obsolete || rs[k].obsolete || RevisesSome(s, rs[k], g)
  {
    hide CanResolve, Consulted, RevisesSome;
    if !g.obsolete && !rs[k].obsolete {
      assert Shielded(s, round, rs[k].questionId, g);
      ShieldedIsRevised(s, round, turn, rs, k, g);
    }
  }

  /** The same conversation, but for what other rounds than the resolved and the current one decided. */
  predicate OnlyOthersDiffer(s: Snapshot, t: Snapshot, round: Id) {
    && t == s.(rounds := t.rounds) && |t.rounds| == |s.rounds|
    && forall i :: 0 <= i < |s.rounds| ==>
         && t.rounds[i] == s.rounds[i].(resolutions := t.rounds[i].resolutions)
         && (s.rounds[i].id == round || s.rounds[i].id == s.currentRound ==> t.rounds[i] == s.rounds[i])
  }

  lemma {:induction false} SameRoundAt(a: seq<Round>, b: seq<Round>, id: Id)
    requires |a| == |b| && forall i :: 0 <= i < |a| ==> a[i].id == b[i].id
    ensures RoundAt(a, id) == RoundAt(b, id)
  {
    var x, y := RoundAt(a, id), RoundAt(b, id);
    if x >= 0 {
      assert b[x].id == id;
    }
    if y >= 0 {
      assert a[y].id == id;
    }
  }

  /** The guard consults no other round: whether an interpretation is accepted is the same whatever they decided. */
  lemma OtherRoundsAreNotConsulted(s: Snapshot, t: Snapshot, round: Id, turn: Id, rs: seq<Resolution>)
    requires OnlyOthersDiffer(s, t, round)
    ensures CanResolve(s, round, turn, rs) <==> CanResolve(t, round, turn, rs)
  {
    SameRoundAt(s.rounds, t.rounds, round);
    var at := RoundAt(s.rounds, round);
    if at >= 0 {
      forall k | 0 <= k < |rs| ensures Resolvable(s, s.rounds[at], rs[k]) <==> Resolvable(t, t.rounds[at], rs[k]) {
        SameResolvable(s, t, round, rs[k]);
      }
    }
    hide Resolvable, Current;
  }

  lemma SameResolvable(s: Snapshot, t: Snapshot, round: Id, r: Resolution)
    requires OnlyOthersDiffer(s, t, round) && RoundAt(s.rounds, round) >= 0
    ensures var x := s.rounds[RoundAt(s.rounds, round)]; Resolvable(s, x, r) <==> Resolvable(t, x, r)
  {
    var x := s.rounds[RoundAt(s.rounds, round)];
    forall id
      ensures QuestionInRound(s.rounds, id, r.questionId, x.participant) <==>
              QuestionInRound(t.rounds, id, r.questionId, x.participant)
    {
      SameQuestionInRound(s.rounds, t.rounds, id, r.questionId, x.participant);
    }
    hide QuestionInRound, Blank, Delivered, RevisesAny, CanRevise, Asks;
    forall j | 0 <= j < |s.rounds| && Receives(s, x, s.rounds[j], r.questionId)
      ensures t.rounds[j] == s.rounds[j]
    {
    }
    forall j | 0 <= j < |s.rounds|
      ensures Receives(s, x, s.rounds[j], r.questionId) <==> Receives(t, x, t.rounds[j], r.questionId)
    {
    }
  }

  lemma SameQuestionInRound(a: seq<Round>, b: seq<Round>, id: Id, question: Id, participant: Id)
    requires |a| == |b| && forall i :: 0 <= i < |a| ==> b[i] == a[i].(resolutions := b[i].resolutions)
    ensures QuestionInRound(a, id, question, participant) <==> QuestionInRound(b, id, question, participant)
  {
  }
}
