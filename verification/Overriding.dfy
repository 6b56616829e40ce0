/** When a live decision can be replaced without evidence that revises it. */
module Overriding {
  import opened Basics
  import opened Conversation
  import opened Evidence
  import opened Steps
  import opened Invariants
  import opened Preservation
  import opened Guarantees
  import opened CrossRound
  import opened Citations

  /** An accepted live interpretation none of whose responses revises any response of `g`. */
  ghost predicate Overrides(s: Snapshot, round: Id, turn: Id, r: Resolution, g: Resolution) {
    CanResolve(s, round, turn, [r]) && !r.obsolete && !RevisesSome(s, r, g)
  }

  /** Steps that leave all rounds alone lead to a state in which such an interpretation is accepted. */
  ghost predicate Replaceable(s: Snapshot, round: Id, question: Id, g: Resolution) {
    exists more: seq<Step>, turn: Id, r: Resolution ::
      Run(s, more).rounds == s.rounds && Run(s, more).currentRound == s.currentRound && r.questionId == question &&
      Overrides(Run(s, more), round, turn, r, g)
  }

  /** `round` was published asking `question`, and has interpreted it if it is superseded. */
  predicate Interpretable(s: Snapshot, round: Id, question: Id) {
    var at := RoundAt(s.rounds, round);
    at >= 0 && s.rounds[at].published && Asks(s.rounds[at].questions, question) &&
    (s.rounds[at].supersededBy != NO_ID ==> Latest(s.rounds[at].resolutions, question).Some?)
  }

  /** In every reachable state, a decision can be replaced through a round without being revised if and only if the
      round can interpret the question at all and no live decision consulted there rests on responses of it alone. */
  lemma ReplaceableExactly(steps: seq<Step>, round: Id, question: Id, g: Resolution)
    ensures var s := Run(EMPTY, steps);
            Replaceable(s, round, question, g) <==>
              Interpretable(s, round, question) && !Shielded(s, round, question, g)
  {
    var s := Run(EMPTY, steps);
    hide Run, Overrides, Shielded, Interpretable;
    if Replaceable(s, round, question, g) {
      var more: seq<Step>, turn: Id, r: Resolution :|
        Run(s, more).rounds == s.rounds && Run(s, more).currentRound == s.currentRound && r.questionId == question &&
        Overrides(Run(s, more), round, turn, r, g);
      OverrideNeeds(s, Run(s, more), round, turn, r, g);
    }
    if Interpretable(s, round, question) && !Shielded(s, round, question, g) {
      ReplaceableIf(steps, round, question, g);
    }
  }

  lemma OverrideNeeds(s: Snapshot, t: Snapshot, round: Id, turn: Id, r: Resolution, g: Resolution)
    requires t.rounds == s.rounds && t.currentRound == s.currentRound && Overrides(t, round, turn, r, g)
    ensures Interpretable(s, round, r.questionId) && !Shielded(s, round, r.questionId, g)
  {
    hide RevisesSome, Revises, Citable, CanRevise, Current;
    assert Resolvable(t, t.rounds[RoundAt(t.rounds, round)], [r][0]);
    if Shielded(s, round, r.questionId, g) {
      var d :| Consulted(s, round, r.questionId, d) && !d.obsolete && forall y :: y in d.responseIds ==>
        y in g.responseIds;
      assert Consulted(t, round, r.questionId, d);
      ShieldedIsRevised(t, round, turn, [r], 0, g);
    }
  }

  /** The new interpretation takes the place of the governing one, and still does not revise it. */
  lemma OverriddenIsReplaced(steps: seq<Step>, round: Id, turn: Id, r: Resolution, g: Resolution)
    requires var s := Run(EMPTY, steps);
             Overrides(s, round, turn, r, g) &&
             Governs(s.rounds, s.rounds[RoundAt(s.rounds, round)].participant, r.questionId, g)
    ensures var s := Run(EMPTY, steps);
            var later := AfterResolve(s, round, turn, [r]);
            var participant := s.rounds[RoundAt(s.rounds, round)].participant;
            && Governs(later.rounds, participant, r.questionId, Sequenced(s, [r])[0])
            && !Governs(later.rounds, participant, r.questionId, g)
            && !RevisesSome(later, Sequenced(s, [r])[0], g)
  {
    hide Run, Extends, Resolvable, Revises, Covering;
    var s := Run(EMPTY, steps);
    EmptyGood();
    RunGood(EMPTY, steps);
    var later := AfterResolve(s, round, turn, [r]);
    var p, q, n := s.rounds[RoundAt(s.rounds, round)].participant, r.questionId, Sequenced(s, [r])[0];
    ResolvedDoesNotBlock(s, round, turn, [r], 0);
    ResolveKeepsEvidence(s, round, turn, [r]);
    assert n.responseIds == r.responseIds && n.sequence == s.interpretationSequence + 1 by {
      assert n in Sequenced(s, [r]);
      var k := SequencedKeeps(s, [r], n);
      assert k == 0;
    }
    ResolveGood(s, round, turn, [r]);
    assert SequencesOk(s.rounds, s.interpretationSequence) && SequencesOk(later.rounds, later.interpretationSequence);
    hide Good, AfterResolve, Sequenced, SequencesOk, Governs, CanResolve;
    if Governs(later.rounds, p, q, g) {
      GoverningIsUnique(later, p, q, g, n);
      GoverningIsOld(s, p, q, g);
    }
  }

  lemma GoverningIsOld(s: Snapshot, participant: Id, question: Id, g: Resolution)
    requires SequencesOk(s.rounds, s.interpretationSequence) && Governs(s.rounds, participant, question, g)
    ensures g.sequence <= s.interpretationSequence
  {
    hide SequencesOk;
    var i :| 0 <= i < |s.rounds| && Opines(s.rounds, participant, question, i) &&
             Latest(s.rounds[i].resolutions, question) == Some(g);
    LatestBounded(s, i, question);
  }

  // ----- Runs -----

  lemma RunSnoc(s: Snapshot, steps: seq<Step>, step: Step)
    ensures Run(s, steps + [step]) == Apply(Run(s, steps), step)
  {
    hide Apply;
    assert (steps + [step])[..|steps|] == steps;
  }

  lemma {:induction false} RunJoin(s: Snapshot, steps: seq<Step>, more: seq<Step>)
    ensures Run(s, steps + more) == Run(Run(s, steps), more)
  {
    hide Apply;
    if |more| == 0 {
      assert steps + more == steps;
    } else {
      var last := |more| - 1;
      RunJoin(s, steps, more[..last]);
      assert more == more[..last] + [more[last]] && steps + more == (steps + more[..last]) + [more[last]];
      RunSnoc(s, steps + more[..last], more[last]);
      RunSnoc(Run(s, steps), more[..last], more[last]);
    }
  }

  // ----- A new response that everyone has read -----

  lemma {:induction false} Above(ids: seq<Id>) returns (a: Id)
    ensures a != NO_ID && forall x :: x in ids ==> x < a
  {
    if |ids| == 0 {
      a := 1;
    } else {
      var last := |ids| - 1;
      a := Above(ids[..last]);
      assert ids == ids[..last] + [ids[last]];
      a := if a <= ids[last] then ids[last] + 1 else a;
    }
  }

  /** An identity no input, assessment or channel uses. */
  predicate Unused(s: Snapshot, a: Id) {
    && a != NO_ID
    && (forall i :: 0 <= i < |s.inputs| ==> s.inputs[i].id != a)
    && (forall i :: 0 <= i < |s.assessments| ==> s.assessments[i].inputId != a)
    && (forall i :: 0 <= i < |s.receipts| ==> s.receipts[i].source.channel != a)
  }

  lemma SomeUnused(s: Snapshot) returns (a: Id)
    ensures Unused(s, a)
  {
    var inputs := seq(|s.inputs|, i requires 0 <= i < |s.inputs| => s.inputs[i].id);
    var assessed := seq(|s.assessments|, i requires 0 <= i < |s.assessments| => s.assessments[i].inputId);
    var channels := seq(|s.receipts|, i requires 0 <= i < |s.receipts| => s.receipts[i].source.channel);
    var used := inputs + assessed + channels;
    a := Above(used);
    forall i | 0 <= i < |s.inputs| ensures s.inputs[i].id != a {
      assert inputs[i] in used;
    }
    forall i | 0 <= i < |s.assessments| ensures s.assessments[i].inputId != a {
      assert assessed[i] in used;
    }
    forall i | 0 <= i < |s.receipts| ensures s.receipts[i].source.channel != a {
      assert channels[i] in used;
    }
  }

  lemma SomeTurn(preparations: seq<Preparation>) returns (turn: Id)
    ensures turn != NO_ID && !HasTurn(preparations, turn)
  {
    var turns := seq(|preparations|, i requires 0 <= i < |preparations| => preparations[i].turn);
    turn := Above(turns);
    forall i | 0 <= i < |preparations| ensures preparations[i].turn != turn {
      assert turns[i] in turns;
    }
  }

  /** An instruction of a participant that belongs to no round and amends nothing. */
  predicate Plain(input: Input, id: Id, participant: Id) {
    input.id == id && input.participant == participant && input.roundId == NO_ID && input.amends == NO_ID
  }

  function Steering(id: Id, participant: Id): Step {
    Accept(id, Command(Steer, "", "x"), Admission(1, true, true, participant, 1, Source(id, id, NO_ID), 1))
  }

  lemma SteeringIsAdmitted(s: Snapshot, id: Id, participant: Id)
    requires id != NO_ID && !HasInput(s.inputs, id)
    requires forall i :: 0 <= i < |s.receipts| ==> s.receipts[i].source.channel != id
    ensures var t := Apply(s, Steering(id, participant));
            && t == s.(inputs := t.inputs, receipts := t.receipts, references := t.references)
            && |t.inputs| == |s.inputs| + 1 && t.inputs[..|s.inputs|] == s.inputs
            && Plain(t.inputs[|s.inputs|], id, participant)
            && !Delivered(t.inputs[|s.inputs|])
            && |t.receipts| == |s.receipts| + 1 && t.receipts[..|s.receipts|] == s.receipts
            && t.receipts[|s.receipts|].source.channel == id
  {
    assert !Blank("x") by {
      assert !IsSpace("x"[0]);
    }
  }

  /** `t` is `s` after nothing but deliveries. */
  predicate OnlyDelivers(s: Snapshot, t: Snapshot) {
    t == s.(inputs := t.inputs, preparations := t.preparations) &&
    |t.inputs| == |s.inputs| && InputsGrow(s.inputs, t.inputs)
  }

  predicate AllDelivered(inputs: seq<Input>, n: nat)
    requires n <= |inputs|
  {
    forall i :: 0 <= i < n ==> Delivered(inputs[i])
  }

  lemma {:induction false} DeliverFirst(s: Snapshot, n: nat) returns (more: seq<Step>, turn: Id)
    requires n <= |s.inputs|
    ensures OnlyDelivers(s, Run(s, more)) && AllDelivered(Run(s, more).inputs, n)
    ensures n > 0 ==> HasPreparation(Run(s, more).preparations, s.inputs[n - 1].participant, turn)
  {
    hide Run, Apply;
    if n == 0 {
      more, turn := [], NO_ID;
      RunNothing(s);
    } else {
      more, turn := DeliverFirst(s, n - 1);
      var t := Run(s, more);
      turn := SomeTurn(t.preparations);
      PrepareDelivers(s, t, s.inputs[n - 1].participant, turn, n);
      RunSnoc(s, more, Prepare(s.inputs[n - 1].participant, turn));
      more := more + [Prepare(s.inputs[n - 1].participant, turn)];
    }
  }

  lemma RunNothing(s: Snapshot)
    ensures Run(s, []) == s
  {
  }

  lemma PrepareDelivers(s: Snapshot, t: Snapshot, participant: Id, turn: Id, n: nat)
    requires OnlyDelivers(s, t) && 0 < n <= |s.inputs| && AllDelivered(t.inputs, n - 1)
    requires s.inputs[n - 1].participant == participant && turn != NO_ID && !HasTurn(t.preparations, turn)
    ensures var later := Apply(t, Prepare(participant, turn));
            && OnlyDelivers(s, later) && AllDelivered(later.inputs, n)
            && HasPreparation(later.preparations, participant, turn)
  {
    var later := Apply(t, Prepare(participant, turn));
    assert later.preparations[|t.preparations|] == Preparation(participant, turn);
    assert SameInput(s.inputs[n - 1], t.inputs[n - 1]);
    forall i | 0 <= i < |s.inputs| ensures SameInput(s.inputs[i], later.inputs[i]) {
      assert SameInput(s.inputs[i], t.inputs[i]);
    }
  }

  // ----- Overriding with the new response -----

  /** Everything has been read, and the new response `a` corrects exactly `corrects`. */
  ghost predicate Ready(t: Snapshot, participant: Id, turn: Id, a: Id, corrects: seq<Id>) {
    && HasPreparation(t.preparations, participant, turn)
    && AllDelivered(t.inputs, |t.inputs|)
    && (exists i :: 0 <= i < |t.inputs| && Plain(t.inputs[i], a, participant))
    && (forall i :: 0 <= i < |t.inputs| && t.inputs[i].id == a ==> t.inputs[i].amends == NO_ID)
    && forall y :: Corrects(t.assessments, a, y) <==> y in corrects
  }

  function Override(question: Id, a: Id): Resolution {
    Resolution(0, NO_ID, [], false, question, [a], "x")
  }

  lemma {:induction false} ConsideredRevisers(
    inputs: seq<Input>, asr: seq<Assessment>, all: seq<Input>, cited: seq<Id>, i: nat)
    requires AllDelivered(inputs, |inputs|) && i < |inputs| && RevisesAny(all, asr, inputs[i].id, cited)
    ensures inputs[i].id in Considered(inputs, asr, all, cited)
  {
    hide RevisesAny;
    var last := |inputs| - 1;
    if i < last {
      ConsideredRevisers(inputs[..last], asr, all, cited, i);
    }
  }

  /** When everything has been read, everything has been considered. */
  lemma ReadIsCurrent(t: Snapshot, r: Resolution)
    requires AllDelivered(t.inputs, |t.inputs|)
    ensures Current(t.inputs, t.assessments, Covering(t, r))
  {
    hide RevisesAny, Considered;
    forall i | 0 <= i < |t.inputs| && !Covers(t.inputs, Covering(t, r), t.inputs[i].id)
      ensures !RevisesAny(t.inputs, t.assessments, t.inputs[i].id, r.responseIds)
    {
      if RevisesAny(t.inputs, t.assessments, t.inputs[i].id, r.responseIds) {
        ConsideredRevisers(t.inputs, t.assessments, t.inputs, r.responseIds, i);
      }
    }
  }

  /** The corrections reach every live decision that is consulted. */
  ghost predicate Reaching(t: Snapshot, round: Id, question: Id, corrects: seq<Id>) {
    forall d :: Consulted(t, round, question, d) && !d.obsolete ==> exists y :: y in d.responseIds && y in corrects
  }

  lemma RevisesConsulted(
    t: Snapshot, participant: Id, turn: Id, round: Id, question: Id, a: Id, corrects: seq<Id>, d: Resolution)
    requires Ready(t, participant, turn, a, corrects) && Reaching(t, round, question, corrects)
    requires Consulted(t, round, question, d)
    ensures CanRevise(t.inputs, t.assessments, Some(d), Override(question, a))
  {
    if !d.obsolete {
      var y :| y in d.responseIds && y in corrects;
      var k :| 0 <= k < |d.responseIds| && d.responseIds[k] == y;
      assert Corrects(t.assessments, a, y);
      assert Revises(t.inputs, t.assessments, a, d.responseIds[k]);
      assert RevisesAny(t.inputs, t.assessments, Override(question, a).responseIds[0], d.responseIds);
    }
  }

  lemma OverrideResolvable(t: Snapshot, turn: Id, round: Id, question: Id, a: Id, corrects: seq<Id>)
    requires Interpretable(t, round, question)
    requires Ready(t, t.rounds[RoundAt(t.rounds, round)].participant, turn, a, corrects)
    requires Reaching(t, round, question, corrects)
    ensures Resolvable(t, t.rounds[RoundAt(t.rounds, round)], Override(question, a))
  {
    hide CanRevise, Reaching, Asks, QuestionInRound;
    var x := t.rounds[RoundAt(t.rounds, round)];
    assert !Blank("x") by {
      assert !IsSpace("x"[0]);
    }
    var latest := Latest(x.resolutions, question);
    if latest.Some? {
      RevisesConsulted(t, x.participant, turn, round, question, a, corrects, latest.value);
    } else {
      AnythingFirst(t, Override(question, a));
    }
    forall j | 0 <= j < |t.rounds| && Receives(t, x, t.rounds[j], question) && x.supersededBy != NO_ID
      ensures CanRevise(t.inputs, t.assessments, Latest(t.rounds[j].resolutions, question), Override(question, a))
    {
      if Latest(t.rounds[j].resolutions, question).Some? {
        var d := Latest(t.rounds[j].resolutions, question).value;
        assert Consulted(t, round, question, d);
        RevisesConsulted(t, x.participant, turn, round, question, a, corrects, d);
      } else {
        AnythingFirst(t, Override(question, a));
      }
    }
    assert Citable(t, x, question, a);
  }

  lemma AnythingFirst(t: Snapshot, r: Resolution)
    ensures CanRevise(t.inputs, t.assessments, None, r)
  {
  }

  lemma ReadyOverrides(t: Snapshot, turn: Id, round: Id, question: Id, a: Id, corrects: seq<Id>, g: Resolution)
    requires Interpretable(t, round, question)
    requires Ready(t, t.rounds[RoundAt(t.rounds, round)].participant, turn, a, corrects)
    requires Reaching(t, round, question, corrects)
    requires forall y :: y in corrects ==> y !in g.responseIds
    ensures Overrides(t, round, turn, Override(question, a), g)
  {
    hide Resolvable, Reaching, Current, Covering, SharedLineage;
    OverrideResolvable(t, turn, round, question, a, corrects);
    ReadIsCurrent(t, Override(question, a));
    var rs := [Override(question, a)];
    assert forall k :: 0 <= k < |rs| ==> rs[k] == Override(question, a);
    assert CanResolve(t, round, turn, rs);
    hide CanResolve, Interpretable;
    forall x, y | x in Override(question, a).responseIds && y in g.responseIds
      ensures !Revises(t.inputs, t.assessments, x, y)
    {
      assert !IsAmendment(t.inputs, a) && !Corrects(t.assessments, a, y);
    }
  }

  // ----- Choosing what to correct -----

  /** Of each live consulted decision a response that `g` does not rest on. */
  lemma SomeCorrections(s: Snapshot, round: Id, question: Id, g: Resolution) returns (corrects: seq<Id>)
    requires Cited(s) && RoundIdsOk(s.rounds) && RoundAt(s.rounds, round) >= 0 && !Shielded(s, round, question, g)
    ensures Reaching(s, round, question, corrects)
    ensures forall y :: y in corrects ==>
            y !in g.responseIds && Heard(s.inputs, s.rounds[RoundAt(s.rounds, round)].participant, y)
  {
    hide Heard, Receives, Cited;
    var x := s.rounds[RoundAt(s.rounds, round)];
    corrects := [];
    if d :| Latest(x.resolutions, question) == Some(d) && !d.obsolete {
      var y := OneCorrection(s, round, question, g, d);
      corrects := [y];
    }
    ghost var own := corrects;
    if j, d :| 0 <= j < |s.rounds| && Receives(s, x, s.rounds[j], question) && x.supersededBy != NO_ID &&
               Latest(s.rounds[j].resolutions, question) == Some(d) && !d.obsolete
    {
      var y := OneCorrection(s, round, question, g, d);
      corrects := own + [y];
      forall e | Consulted(s, round, question, e) && !e.obsolete ensures exists z :: z in e.responseIds && z in corrects
      {
        if e == d {
          assert y in e.responseIds && y in corrects;
        } else {
          ReceiverIsUnique(s, round, question, j, d, e);
          var z :| z in e.responseIds && z in own;
          assert z in corrects;
        }
      }
    }
  }

  lemma ReceiverIsUnique(s: Snapshot, round: Id, question: Id, j: nat, d: Resolution, e: Resolution)
    requires RoundIdsOk(s.rounds) && Consulted(s, round, question, e) && j < |s.rounds| && e != d
    requires Receives(s, s.rounds[RoundAt(s.rounds, round)], s.rounds[j], question)
    requires Latest(s.rounds[j].resolutions, question) == Some(d)
    ensures Latest(s.rounds[RoundAt(s.rounds, round)].resolutions, question) == Some(e)
  {
  }

  lemma OneCorrection(s: Snapshot, round: Id, question: Id, g: Resolution, d: Resolution) returns (y: Id)
    requires Cited(s) && !Shielded(s, round, question, g) && Consulted(s, round, question, d) && !d.obsolete
    ensures y in d.responseIds && y !in g.responseIds &&
            Heard(s.inputs, s.rounds[RoundAt(s.rounds, round)].participant, y)
  {
    hide Heard;
    var at := RoundAt(s.rounds, round);
    y :| y in d.responseIds && y !in g.responseIds;
    LatestIs(s.rounds[at].resolutions, question);
    if Latest(s.rounds[at].resolutions, question) == Some(d) {
      assert Backed(s.inputs, s.rounds[at].participant, s.rounds[at].resolutions);
    } else {
      var j :| 0 <= j < |s.rounds| && Receives(s, s.rounds[at], s.rounds[j], question) &&
               Latest(s.rounds[j].resolutions, question) == Some(d);
      LatestIs(s.rounds[j].resolutions, question);
      assert Backed(s.inputs, s.rounds[j].participant, s.rounds[j].resolutions);
    }
  }

  // ----- The run that replaces the decision -----

  function Correcting(a: Id, corrects: seq<Id>): Assessment {
    Assessment(NO_ID, a, [a], Changed, "x", corrects, false)
  }

  lemma ReplaceableIf(steps: seq<Step>, round: Id, question: Id, g: Resolution)
    requires Interpretable(Run(EMPTY, steps), round, question)
    requires !Shielded(Run(EMPTY, steps), round, question, g)
    ensures Replaceable(Run(EMPTY, steps), round, question, g)
  {
    hide Run, Apply, Shielded, Ready, Overrides, Reaching, Heard, Unused, Cited;
    var s := Run(EMPTY, steps);
    RunCited(steps);
    assert RoundIdsOk(s.rounds);
    hide Good;
    var p := s.rounds[RoundAt(s.rounds, round)].participant;
    var corrects := SomeCorrections(s, round, question, g);
    var a := SomeUnused(s);
    var more, turn := MakeReady(s, p, a, corrects);
    var t := Run(s, more);
    assert Interpretable(t, round, question) && t.rounds[RoundAt(t.rounds, round)].participant == p;
    assert Reaching(t, round, question, corrects) by {
      ReachingKept(s, t, round, question, corrects);
    }
    hide Interpretable;
    ReadyOverrides(t, turn, round, question, a, corrects, g);
    assert Override(question, a).questionId == question;
  }

  lemma ReachingKept(s: Snapshot, t: Snapshot, round: Id, question: Id, corrects: seq<Id>)
    requires Reaching(s, round, question, corrects) && t.rounds == s.rounds && t.currentRound == s.currentRound
    ensures Reaching(t, round, question, corrects)
  {
    forall d | Consulted(t, round, question, d) ensures Consulted(s, round, question, d) {
    }
    hide Consulted;
  }

  /** Give everyone the new response to read, and assess it as correcting the chosen ones. */
  lemma MakeReady(s: Snapshot, p: Id, a: Id, corrects: seq<Id>) returns (more: seq<Step>, turn: Id)
    requires Unused(s, a) && forall y :: y in corrects ==> Heard(s.inputs, p, y)
    ensures Ready(Run(s, more), p, turn, a, corrects)
    ensures Run(s, more).rounds == s.rounds && Run(s, more).currentRound == s.currentRound
  {
    hide Run, Apply, Ready, Heard, Steering;
    SteeringIsAdmitted(s, a, p);
    var s1 := Apply(s, Steering(a, p));
    var deliveries, last := DeliverFirst(s1, |s1.inputs|);
    turn := last;
    var s2 := Run(s1, deliveries);
    var assess := Assess(1, p, turn, [Correcting(a, corrects)]);
    AssessedReady(s, s1, s2, p, turn, a, corrects);
    more := [Steering(a, p)] + deliveries + [assess];
    assert Run(s, [Steering(a, p)]) == s1 by {
      RunNothing(s);
      RunSnoc(s, [], Steering(a, p));
      assert [] + [Steering(a, p)] == [Steering(a, p)];
    }
    RunJoin(s, [Steering(a, p)], deliveries);
    RunSnoc(s, [Steering(a, p)] + deliveries, assess);
  }

  lemma AssessedReady(s: Snapshot, s1: Snapshot, s2: Snapshot, p: Id, turn: Id, a: Id, corrects: seq<Id>)
    requires Unused(s, a) && forall y :: y in corrects ==> Heard(s.inputs, p, y)
    requires s1 == s.(inputs := s1.inputs, receipts := s1.receipts, references := s1.references)
    requires |s1.inputs| == |s.inputs| + 1 && s1.inputs[..|s.inputs|] == s.inputs && Plain(s1.inputs[|s.inputs|], a, p)
    requires OnlyDelivers(s1, s2) && AllDelivered(s2.inputs, |s2.inputs|) && HasPreparation(s2.preparations, p, turn)
    ensures var t := Apply(s2, Assess(1, p, turn, [Correcting(a, corrects)]));
            Ready(t, p, turn, a, corrects) && t.rounds == s.rounds && t.currentRound == s.currentRound
  {
    hide HasPreparation, Withdrawn;
    var n := |s.inputs|;
    assert SameInput(s1.inputs[n], s2.inputs[n]);
    assert Plain(s2.inputs[n], a, p);
    forall i | 0 <= i < n ensures SameInput(s.inputs[i], s2.inputs[i]) {
      assert s1.inputs[i] == s.inputs[i] && SameInput(s1.inputs[i], s2.inputs[i]);
    }
    forall y | y in corrects ensures y != a && DeliveredInput(s2.inputs, p, y) {
      var i :| 0 <= i < n && s.inputs[i].id == y && s.inputs[i].participant == p;
      assert SameInput(s.inputs[i], s2.inputs[i]);
    }
    var batch := [Correcting(a, corrects)];
    CorrectingAssessable(s2.inputs, p, a, corrects);
    assert CanAssess(s2, 1, p, turn, batch);
    var t := Apply(s2, Assess(1, p, turn, batch));
    assert t.inputs == s2.inputs && t.assessments == s.assessments + Recorded(1, batch);
    hide CanAssess, Assessable;
    forall y ensures Corrects(t.assessments, a, y) <==> y in corrects {
      assert t.assessments[|s.assessments|] == Recorded(1, batch)[0];
      if y in corrects {
        assert CorrectsIn(t.assessments[|s.assessments|], a, y);
      }
    }
  }

  lemma CorrectingAssessable(inputs: seq<Input>, p: Id, a: Id, corrects: seq<Id>)
    requires DeliveredInput(inputs, p, a)
    requires forall y :: y in corrects ==> y != a && DeliveredInput(inputs, p, y)
    ensures Assessable(inputs, p, Correcting(a, corrects))
  {
    hide DeliveredInput;
    assert !Blank("x") by {
      assert !IsSpace("x"[0]);
    }
  }
}
