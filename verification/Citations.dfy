/** Interpretations only ever cite inputs of their round's participant.

  A new round takes interpretations over from one of the same participant, and a new interpretation is checked
  response by response; no other operation touches interpretations.
 */
module Citations {
  import opened Conversation
  import opened Evidence
  import opened Steps
  import opened Invariants
  import opened Preservation

  /** `id` is an input of `participant`. */
  predicate Heard(inputs: seq<Input>, participant: Id, id: Id) {
    exists i :: 0 <= i < |inputs| && inputs[i].id == id && inputs[i].participant == participant
  }

  predicate Backed(inputs: seq<Input>, participant: Id, rs: seq<Resolution>) {
    forall r, id :: r in rs && id in r.responseIds ==> Heard(inputs, participant, id)
  }

  predicate Cited(s: Snapshot) {
    forall i :: 0 <= i < |s.rounds| ==> Backed(s.inputs, s.rounds[i].participant, s.rounds[i].resolutions)
  }

  lemma HeardGrows(inputs: seq<Input>, later: seq<Input>, participant: Id, id: Id)
    requires InputsGrow(inputs, later) && Heard(inputs, participant, id)
    ensures Heard(later, participant, id)
  {
    var i :| 0 <= i < |inputs| && inputs[i].id == id && inputs[i].participant == participant;
    assert SameInput(inputs[i], later[i]);
  }

  lemma BackedGrows(inputs: seq<Input>, later: seq<Input>, participant: Id, rs: seq<Resolution>)
    requires InputsGrow(inputs, later) && Backed(inputs, participant, rs)
    ensures Backed(later, participant, rs)
  {
    hide Heard, InputsGrow;
    forall r, id | r in rs && id in r.responseIds ensures Heard(later, participant, id) {
      HeardGrows(inputs, later, participant, id);
    }
  }

  /** A round of `later` whose interpretations come from one round of `s` with the same participant. */
  predicate TakenOver(s: Snapshot, round: Round) {
    round.resolutions == [] ||
    exists i :: 0 <= i < |s.rounds| && s.rounds[i].participant == round.participant &&
                forall r :: r in round.resolutions ==> r in s.rounds[i].resolutions
  }

  lemma TakenOverCited(s: Snapshot, later: Snapshot)
    requires Cited(s) && InputsGrow(s.inputs, later.inputs)
    requires forall j :: 0 <= j < |later.rounds| ==> TakenOver(s, later.rounds[j])
    ensures Cited(later)
  {
    hide InputsGrow, Heard;
    forall j | 0 <= j < |later.rounds|
      ensures Backed(later.inputs, later.rounds[j].participant, later.rounds[j].resolutions)
    {
      var rs := later.rounds[j].resolutions;
      assert TakenOver(s, later.rounds[j]);
      if rs != [] {
        var i :| 0 <= i < |s.rounds| && s.rounds[i].participant == later.rounds[j].participant &&
                 forall r :: r in rs ==> r in s.rounds[i].resolutions;
        assert Backed(s.inputs, s.rounds[i].participant, s.rounds[i].resolutions);
        assert Backed(s.inputs, later.rounds[j].participant, rs);
        BackedGrows(s.inputs, later.inputs, later.rounds[j].participant, rs);
      }
    }
  }

  lemma RequestTakesOver(s: Snapshot, id: Id, participant: Id, turn: Id, head: Id, questions: seq<Question>)
    requires CanRequest(s, id, participant, turn, questions)
    ensures TakenOver(s, NewRound(s, id, participant, turn, head, questions))
  {
    hide Settled, SameWording;
    var at := RoundAt(s.rounds, s.currentRound);
    if at >= 0 {
      InheritedFrom(s, s.rounds[at], questions);
    }
  }

  lemma ResolvedCited(s: Snapshot, round: Id, turn: Id, rs: seq<Resolution>)
    requires Cited(s) && CanResolve(s, round, turn, rs)
    ensures Cited(AfterResolve(s, round, turn, rs))
  {
    var at := RoundAt(s.rounds, round);
    var later := AfterResolve(s, round, turn, rs);
    hide Heard, Gains;
    forall j | 0 <= j < |later.rounds|
      ensures Backed(later.inputs, later.rounds[j].participant, later.rounds[j].resolutions)
    {
      assert Backed(s.inputs, s.rounds[j].participant, s.rounds[j].resolutions);
      GainsBacked(s, round, turn, rs, j);
      assert later.rounds[j].resolutions == s.rounds[j].resolutions + Gains(s, at, j, Sequenced(s, rs));
    }
  }

  lemma GainsBacked(s: Snapshot, round: Id, turn: Id, rs: seq<Resolution>, j: nat)
    requires CanResolve(s, round, turn, rs) && j < |s.rounds|
    ensures Backed(s.inputs, s.rounds[j].participant, Gains(s, RoundAt(s.rounds, round), j, Sequenced(s, rs)))
  {
    hide Current, CanRevise, QuestionInRound, Covering;
    var at := RoundAt(s.rounds, round);
    var gains := Gains(s, at, j, Sequenced(s, rs));
    AboutIs(Sequenced(s, rs), s.rounds[j].questions);
    forall g, id | g in gains && id in g.responseIds ensures Heard(s.inputs, s.rounds[j].participant, id) {
      assert s.rounds[j].participant == s.rounds[at].participant && g in Sequenced(s, rs);
      var k := SequencedKeeps(s, rs, g);
      assert Resolvable(s, s.rounds[at], rs[k]);
      var m :| 0 <= m < |rs[k].responseIds| && rs[k].responseIds[m] == id;
      assert Citable(s, s.rounds[at], rs[k].questionId, id);
    }
  }

  predicate SameDecisions(rounds: seq<Round>, later: seq<Round>) {
    |later| == |rounds| &&
    forall j :: 0 <= j < |rounds| ==>
      later[j].participant == rounds[j].participant && later[j].resolutions == rounds[j].resolutions
  }

  lemma OthersKeepDecisions(s: Snapshot, step: Step)
    requires !step.Resolve? && !step.Request?
    ensures SameDecisions(s.rounds, Apply(s, step).rounds)
  {
    hide Screen, CanAssess, Reserve, CanConfirm, CanValidate, CanCommit;
  }

  lemma ApplyTakesOver(s: Snapshot, step: Step, j: nat)
    requires !step.Resolve? && j < |Apply(s, step).rounds|
    ensures TakenOver(s, Apply(s, step).rounds[j])
  {
    hide NewRound, CanRequest, AfterPublish, AfterFail;
    var round := Apply(s, step).rounds[j];
    if step.Request? {
      if j < |s.rounds| {
        assert round == s.rounds[j];
      } else {
        RequestTakesOver(s, step.id, step.participant, step.turn, step.head, step.questions);
      }
    } else {
      OthersKeepDecisions(s, step);
      assert round.participant == s.rounds[j].participant && round.resolutions == s.rounds[j].resolutions;
    }
  }

  lemma ResolveCited(s: Snapshot, round: Id, turn: Id, rs: seq<Resolution>)
    requires Cited(s)
    ensures Cited(AfterResolve(s, round, turn, rs))
  {
    hide Cited, CanResolve;
    if CanResolve(s, round, turn, rs) {
      ResolvedCited(s, round, turn, rs);
    }
  }

  lemma ApplyResolve(s: Snapshot, step: Step)
    requires step.Resolve?
    ensures Apply(s, step) == AfterResolve(s, step.round, step.turn, step.resolutions)
  {
    hide AfterResolve;
  }

  lemma ApplyCited(s: Snapshot, step: Step)
    requires Good(s) && Cited(s)
    ensures Cited(Apply(s, step))
  {
    hide Good, Cited, Apply, TakenOver, InputsGrow, RoundsGrow, PlanningGrows;
    ApplyGood(s, step);
    if step.Resolve? {
      ResolveCited(s, step.round, step.turn, step.resolutions);
      assert Apply(s, step) == AfterResolve(s, step.round, step.turn, step.resolutions) by {
        ApplyResolve(s, step);
      }
    } else {
      forall j | 0 <= j < |Apply(s, step).rounds| ensures TakenOver(s, Apply(s, step).rounds[j]) {
        ApplyTakesOver(s, step, j);
      }
      TakenOverCited(s, Apply(s, step));
    }
  }

  /** In every reachable state an interpretation cites only inputs of its round's participant. */
  lemma {:induction false} RunCited(steps: seq<Step>)
    ensures Good(Run(EMPTY, steps)) && Cited(Run(EMPTY, steps))
  {
    hide Good, Extends, Apply;
    EmptyGood();
    RunGood(EMPTY, steps);
    if |steps| > 0 {
      RunCited(steps[..|steps| - 1]);
      ApplyCited(Run(EMPTY, steps[..|steps| - 1]), steps[|steps| - 1]);
    }
  }
}
