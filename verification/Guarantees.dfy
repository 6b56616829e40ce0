/** What every reachable conversation guarantees. */
module Guarantees {
  import opened Basics
  import opened Conversation
  import opened Steps
  import opened Invariants
  import opened Preservation

  // ----- Interpretations -----

  /** Of the entries for one question, `a` is the last before `b`. */
  predicate Consecutive(rs: seq<Resolution>, a: int, b: int) {
    0 <= a < b < |rs| && rs[a].questionId == rs[b].questionId &&
    forall k :: a < k < b ==> rs[k].questionId != rs[b].questionId
  }

  lemma {:induction false} LatestIsConsecutive(rs: seq<Resolution>, a: int, b: int)
    requires Consecutive(rs, a, b)
    ensures Latest(rs[..b], rs[b].questionId) == Some(rs[a])
  {
    var q := rs[b].questionId;
    assert rs[..b] == rs[..a + 1] + rs[a + 1..b];
    LatestAppend(rs[..a + 1], rs[a + 1..b], q);
    assert rs[..a + 1][|rs[..a + 1]| - 1] == rs[a];
  }

  /** In every reachable state, consecutive live interpretations of a question are linked by human evidence. */
  lemma NoSilentLastAnswerWins(steps: seq<Step>, round: nat, a: int, b: int)
    requires var s := Run(EMPTY, steps);
             round < |s.rounds| && Consecutive(s.rounds[round].resolutions, a, b) &&
             !s.rounds[round].resolutions[a].obsolete && !s.rounds[round].resolutions[b].obsolete
    ensures var s := Run(EMPTY, steps);
            var rs := s.rounds[round].resolutions;
            exists x, y :: x in rs[b].responseIds && y in rs[a].responseIds && Revises(s.inputs, s.assessments, x, y)
  {
    hide Run, Revises;
    var s := Run(EMPTY, steps);
    RunJustified(steps);
    var rs := s.rounds[round].resolutions;
    LatestIsConsecutive(rs, a, b);
    assert Justified(s.inputs, s.assessments, rs);
    assert JustifiedAt(s.inputs, s.assessments, rs, b);
    var k :| 0 <= k < |rs[b].responseIds| &&
      RevisesAny(s.inputs, s.assessments, rs[b].responseIds[k], rs[a].responseIds);
    var m :| 0 <= m < |rs[a].responseIds| &&
      Revises(s.inputs, s.assessments, rs[b].responseIds[k], rs[a].responseIds[m]);
    assert rs[b].responseIds[k] in rs[b].responseIds && rs[a].responseIds[m] in rs[a].responseIds;
  }

  lemma RunJustified(steps: seq<Step>)
    ensures var s := Run(EMPTY, steps); JustifiedRounds(s.inputs, s.assessments, s.rounds)
  {
    hide Extends, Run, JustifiedRounds;
    EmptyGood();
    RunGood(EMPTY, steps);
  }

  lemma {:induction false} OrderedPairs(rs: seq<Resolution>, a: nat, b: nat)
    requires InOrder(rs) && a < b < |rs| && rs[a].questionId == rs[b].questionId
    ensures rs[a].sequence < rs[b].sequence
    decreases b
  {
    var q := rs[b].questionId;
    var k := LastBefore(rs, q, a, b);
    LatestIsConsecutive(rs, k, b);
    assert InOrderAt(rs, b);
    if a < k {
      OrderedPairs(rs, a, k);
    }
  }

  lemma {:induction false} LastBefore(rs: seq<Resolution>, q: Id, a: nat, b: nat) returns (k: nat)
    requires a < b < |rs| && rs[a].questionId == q && rs[b].questionId == q
    ensures a <= k && Consecutive(rs, k, b)
    decreases b - a
  {
    if m :| a < m < b && rs[m].questionId == q {
      k := LastBefore(rs, q, m, b);
    } else {
      k := a;
    }
  }

  /** A sequence number identifies one interpretation everywhere, and grows along each question of a round. */
  lemma InterpretationOrder(steps: seq<Step>, i: nat, j: nat, a: nat, b: nat)
    requires var s := Run(EMPTY, steps);
             i < |s.rounds| && j < |s.rounds| && a < |s.rounds[i].resolutions| && b < |s.rounds[j].resolutions|
    ensures var s := Run(EMPTY, steps);
            var x, y := s.rounds[i].resolutions[a], s.rounds[j].resolutions[b];
            && (x.sequence == y.sequence ==> x == y)
            && (i == j && a < b && x.questionId == y.questionId ==> x.sequence < y.sequence)
            && 1 <= x.sequence <= s.interpretationSequence
  {
    var s := Run(EMPTY, steps);
    EmptyGood();
    RunGood(EMPTY, steps);
    assert SequencesOk(s.rounds, s.interpretationSequence);
    hide Good, Extends, Run, InOrderAt, Asks;
    assert Agree(s.rounds[i].resolutions, s.rounds[j].resolutions);
    assert Within(s.rounds[i].resolutions, s.interpretationSequence, s.rounds[i].questions);
    if i == j && a < b && s.rounds[i].resolutions[a].questionId == s.rounds[j].resolutions[b].questionId {
      OrderedPairs(s.rounds[i].resolutions, a, b);
    }
  }

  /** There is never more than one governing interpretation, whatever the order of the rounds. */
  lemma GoverningIsUnique(s: Snapshot, participant: Id, question: Id, x: Resolution, y: Resolution)
    requires SequencesOk(s.rounds, s.interpretationSequence)
    requires Governs(s.rounds, participant, question, x) && Governs(s.rounds, participant, question, y)
    ensures x == y
  {
    var i :| 0 <= i < |s.rounds| && Opines(s.rounds, participant, question, i) &&
      Latest(s.rounds[i].resolutions, question) == Some(x);
    var j :| 0 <= j < |s.rounds| && Opines(s.rounds, participant, question, j) &&
      Latest(s.rounds[j].resolutions, question) == Some(y);
    LatestIs(s.rounds[i].resolutions, question);
    LatestIs(s.rounds[j].resolutions, question);
    assert Agree(s.rounds[i].resolutions, s.rounds[j].resolutions);
  }

  lemma LatestBounded(s: Snapshot, i: nat, question: Id)
    requires SequencesOk(s.rounds, s.interpretationSequence) && i < |s.rounds|
    requires Latest(s.rounds[i].resolutions, question).Some?
    ensures Latest(s.rounds[i].resolutions, question).value.sequence <= s.interpretationSequence
  {
    LatestIs(s.rounds[i].resolutions, question);
    assert Within(s.rounds[i].resolutions, s.interpretationSequence, s.rounds[i].questions);
  }

  /** The last interpretation of a question in a round that gains `added`. */
  lemma {:induction false} LatestGained(rs: seq<Resolution>, added: seq<Resolution>, g: Resolution)
    requires DistinctTopics(added) && g in added
    ensures Latest(rs + added, g.questionId) == Some(g)
  {
    var k :| 0 <= k < |added| && added[k] == g;
    assert rs + added == (rs + added[..k + 1]) + added[k + 1..];
    LatestAppend(rs + added[..k + 1], added[k + 1..], g.questionId);
    var upTo := rs + added[..k + 1];
    assert upTo[|upTo| - 1] == g;
  }

  /** A recorded interpretation is the latest in its round, and in the current round that carries its question. */
  lemma ResolvedLatest(s: Snapshot, round: Id, turn: Id, rs: seq<Resolution>, k: nat, j: nat)
    requires RoundsOk(s.rounds, s.currentRound) && CanResolve(s, round, turn, rs) && k < |rs| && j < |s.rounds|
    requires var at := RoundAt(s.rounds, round);
             j == at || Receives(s, s.rounds[at], s.rounds[j], rs[k].questionId)
    ensures Latest(AfterResolve(s, round, turn, rs).rounds[j].resolutions, rs[k].questionId) ==
            Some(Sequenced(s, rs)[k])
  {
    var at := RoundAt(s.rounds, round);
    var g := Sequenced(s, rs)[k];
    assert g in Sequenced(s, rs);
    var gains := Gains(s, at, j, Sequenced(s, rs));
    AboutIs(Sequenced(s, rs), s.rounds[j].questions);
    CurrentIsPublished(s.rounds, s.currentRound);
    assert s.rounds[at].supersededBy == NO_ID ==> s.rounds[at].id == s.currentRound by {
      NotSupersededIsCurrent(s.rounds, s.currentRound, at);
    }
    assert g in gains;
    ResolvedAddition(s, round, turn, rs, j);
    hide CanResolve, RoundsOk, Addition, Sequenced;
    assert DistinctTopics(gains) by {
      hide *;
      AdditionDistinct(s, round, turn, rs, j);
    }
    LatestGained(s.rounds[j].resolutions, gains, g);
  }

  lemma AdditionDistinct(s: Snapshot, round: Id, turn: Id, rs: seq<Resolution>, j: nat)
    requires RoundsOk(s.rounds, s.currentRound) && CanResolve(s, round, turn, rs) && j < |s.rounds|
    ensures DistinctTopics(Gains(s, RoundAt(s.rounds, round), j, Sequenced(s, rs)))
  {
    ResolvedAddition(s, round, turn, rs, j);
  }

  /** The unique published round nothing supersedes is the current one. */
  lemma NotSupersededIsCurrent(rounds: seq<Round>, currentRound: Id, i: nat)
    requires RoundsOk(rounds, currentRound) && i < |rounds| && rounds[i].published
    ensures rounds[i].supersededBy == NO_ID <==> rounds[i].id == currentRound
  {
    CurrentIsPublished(rounds, currentRound);
    if NoneBetween(rounds, i, |rounds|) {
    } else {
      var j := NextPublished(rounds, i);
      assert rounds[i].supersededBy == rounds[j].id;
    }
  }

  lemma NextPublished(rounds: seq<Round>, i: nat) returns (j: nat)
    requires i < |rounds| && !NoneBetween(rounds, i, |rounds|)
    ensures i < j < |rounds| && rounds[j].published && NoneBetween(rounds, i, j)
  {
    j := i + 1;
    while j < |rounds| && !rounds[j].published
      invariant i < j <= |rounds| && NoneBetween(rounds, i, j)
    {
      j := j + 1;
    }
  }

  /** Settling a question really settles it: no interpretation just recorded leaves its question blocking. */
  lemma ResolvedDoesNotBlock(s: Snapshot, round: Id, turn: Id, rs: seq<Resolution>, k: nat)
    requires Good(s) && CanResolve(s, round, turn, rs) && k < |rs|
    ensures var at := RoundAt(s.rounds, round);
            !Blocks(AfterResolve(s, round, turn, rs), s.rounds[at].participant, rs[k].questionId)
    ensures var at := RoundAt(s.rounds, round);
            Governs(AfterResolve(s, round, turn, rs).rounds, s.rounds[at].participant, rs[k].questionId,
              Sequenced(s, rs)[k])
  {
    var at := RoundAt(s.rounds, round);
    var later := AfterResolve(s, round, turn, rs);
    var p, q, g := s.rounds[at].participant, rs[k].questionId, Sequenced(s, rs)[k];
    assert SequencesOk(later.rounds, later.interpretationSequence) by {
      hide Extends;
      ResolveGood(s, round, turn, rs);
    }
    assert Current(s.inputs, s.assessments, g) by {
      CoveringCurrent(s, rs, k);
    }
    assert RoundsOk(s.rounds, s.currentRound) && SequencesOk(s.rounds, s.interpretationSequence);
    hide Good, SequencesOk, RoundsOk, Current;
    ResolvedGoverns(s, round, turn, rs, k);
    ResolvedNotOpen(s, round, turn, rs, k);
    hide CanResolve, Governs, OpenIn, AfterResolve;
    forall r | Governs(later.rounds, p, q, r) ensures r == g {
      GoverningIsUnique(later, p, q, r, g);
    }
    assert later.inputs == s.inputs && later.assessments == s.assessments by {
      ResolveKeepsEvidence(s, round, turn, rs);
    }
  }

  lemma ResolveKeepsEvidence(s: Snapshot, round: Id, turn: Id, rs: seq<Resolution>)
    ensures AfterResolve(s, round, turn, rs).inputs == s.inputs
    ensures AfterResolve(s, round, turn, rs).assessments == s.assessments
    ensures AfterResolve(s, round, turn, rs).currentRound == s.currentRound
  {
  }

  lemma ResolvedNotOpen(s: Snapshot, round: Id, turn: Id, rs: seq<Resolution>, k: nat)
    requires RoundsOk(s.rounds, s.currentRound) && CanResolve(s, round, turn, rs) && k < |rs|
    requires Current(s.inputs, s.assessments, Sequenced(s, rs)[k])
    ensures var at := RoundAt(s.rounds, round);
            var later := AfterResolve(s, round, turn, rs);
            forall j :: 0 <= j < |later.rounds| ==> !OpenIn(later, s.rounds[at].participant, rs[k].questionId, j)
  {
    var at := RoundAt(s.rounds, round);
    var later := AfterResolve(s, round, turn, rs);
    hide Current, RoundsOk, Resolvable, Sequenced;
    forall j | 0 <= j < |later.rounds| ensures !OpenIn(later, s.rounds[at].participant, rs[k].questionId, j) {
      if later.rounds[j].id == later.currentRound && later.rounds[j].participant == s.rounds[at].participant &&
         Asks(later.rounds[j].questions, rs[k].questionId)
      {
        assert Receives(s, s.rounds[at], s.rounds[j], rs[k].questionId);
        ResolvedLatest(s, round, turn, rs, k, j);
      }
    }
  }

  lemma CoveringCurrent(s: Snapshot, rs: seq<Resolution>, k: nat)
    requires k < |rs| && Current(s.inputs, s.assessments, Covering(s, rs[k]))
    ensures Current(s.inputs, s.assessments, Sequenced(s, rs)[k])
  {
    var g := Sequenced(s, rs)[k];
    var c := Covering(s, rs[k]);
    assert g.responseIds == c.responseIds && g.considered == c.considered && g.obsolete == c.obsolete;
    CurrentSame(s.inputs, s.assessments, c, g);
  }

  lemma CurrentSame(inputs: seq<Input>, asr: seq<Assessment>, a: Resolution, b: Resolution)
    requires a.responseIds == b.responseIds && a.considered == b.considered && a.obsolete == b.obsolete
    requires Current(inputs, asr, a)
    ensures Current(inputs, asr, b)
  {
    forall id ensures Covers(inputs, a, id) <==> Covers(inputs, b, id) {
    }
  }

  lemma ResolvedGoverns(s: Snapshot, round: Id, turn: Id, rs: seq<Resolution>, k: nat)
    requires RoundsOk(s.rounds, s.currentRound) && SequencesOk(s.rounds, s.interpretationSequence)
    requires CanResolve(s, round, turn, rs) && k < |rs|
    ensures var at := RoundAt(s.rounds, round);
            Governs(AfterResolve(s, round, turn, rs).rounds, s.rounds[at].participant, rs[k].questionId,
              Sequenced(s, rs)[k])
  {
    var at := RoundAt(s.rounds, round);
    var later := AfterResolve(s, round, turn, rs);
    var p, q, g := s.rounds[at].participant, rs[k].questionId, Sequenced(s, rs)[k];
    assert Resolvable(s, s.rounds[at], rs[k]);
    hide Resolvable, RoundsOk, SequencesOk;
    ResolvedLatest(s, round, turn, rs, k, at);
    assert later.rounds[at].questions == s.rounds[at].questions;
    assert Asks(s.rounds[at].questions, q) by {
      ResolvableAsks(s, s.rounds[at], rs[k]);
    }
    assert Opines(later.rounds, p, q, at);
    hide Sequenced;
    forall j | 0 <= j < |later.rounds| && Opines(later.rounds, p, q, j)
      ensures Latest(later.rounds[j].resolutions, q).value.sequence <= g.sequence
    {
      OpinionBounded(s, round, turn, rs, k, j);
    }
  }

  lemma ResolvableAsks(s: Snapshot, round: Round, r: Resolution)
    requires Resolvable(s, round, r)
    ensures Asks(round.questions, r.questionId)
  {
  }

  lemma OpinionBounded(s: Snapshot, round: Id, turn: Id, rs: seq<Resolution>, k: nat, j: nat)
    requires RoundsOk(s.rounds, s.currentRound) && SequencesOk(s.rounds, s.interpretationSequence)
    requires CanResolve(s, round, turn, rs) && k < |rs| && j < |s.rounds|
    requires Latest(AfterResolve(s, round, turn, rs).rounds[j].resolutions, rs[k].questionId).Some?
    ensures Latest(AfterResolve(s, round, turn, rs).rounds[j].resolutions, rs[k].questionId).value.sequence <=
              Sequenced(s, rs)[k].sequence
  {
    var at := RoundAt(s.rounds, round);
    var q := rs[k].questionId;
    var gains := Gains(s, at, j, Sequenced(s, rs));
    assert AfterResolve(s, round, turn, rs).rounds[j].resolutions == s.rounds[j].resolutions + gains;
    ResolvedAddition(s, round, turn, rs, j);
    AdditionDistinct(s, round, turn, rs, j);
    hide Resolvable, RoundsOk, Addition, Gains;
    if x :| x in gains && x.questionId == q {
      var n := SequencedKeeps(s, rs, x);
      LatestGained(s.rounds[j].resolutions, gains, x);
    } else {
      forall m | 0 <= m < |gains| ensures gains[m].questionId != q {
        assert gains[m] in gains;
      }
      LatestAppend(s.rounds[j].resolutions, gains, q);
      LatestBounded(s, j, q);
    }
  }

  /** A refused interpretation changes nothing at all. */
  lemma RefusedResolveChangesNothing(s: Snapshot, round: Id, turn: Id, rs: seq<Resolution>)
    ensures AfterResolve(s, round, turn, rs) == s <==> !CanResolve(s, round, turn, rs) || rs == []
  {
    if CanResolve(s, round, turn, rs) {
      if rs == [] {
        var at := RoundAt(s.rounds, round);
        assert Sequenced(s, rs) == [];
        forall j | 0 <= j < |s.rounds| ensures s.rounds[j].resolutions + Gains(s, at, j, []) == s.rounds[j].resolutions
        {
        }
        assert RecordedRounds(s, at, []) == s.rounds;
      } else {
        assert AfterResolve(s, round, turn, rs).interpretationSequence != s.interpretationSequence;
      }
    }
  }
}
