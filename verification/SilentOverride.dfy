/** A run in which a live governing decision is replaced without evidence that revises it.

  Three rounds of one participant are published one after the other.  The first two ask the same question, and the
  third drops it; the decision that governs is held by the second round, and neither the first nor the third shows it.
 */
module SilentOverride {
  import opened Basics
  import opened Conversation
  import opened Names
  import opened Steps
  import opened Preservation
  import opened Overriding

  function Asking(question: Id): Question {
    Question(question, "x", NO_ID)
  }

  function RequestStep(id: Id, question: Id): Step {
    Request(id, 1, 5, NO_ID, [Asking(question)])
  }

  function PublishStep(id: Id): Step {
    Publish(id, Source(id, id, NO_ID))
  }

  function Obsolete(question: Id): Resolution {
    Resolution(0, NO_ID, [], true, question, [], "x")
  }

  /** Two plain responses that have been read, and nothing assessed. */
  predicate Quiet(s: Snapshot) {
    && s.assessments == [] && |s.inputs| == 2
    && Plain(s.inputs[0], 11, 1) && Plain(s.inputs[1], 12, 1) && AllDelivered(s.inputs, 2)
    && HasPreparation(s.preparations, 1, 5)
  }

  lemma NothingRevises(s: Snapshot, x: Id, y: Id)
    requires Quiet(s)
    ensures !Revises(s.inputs, s.assessments, x, y)
  {
    hide SharedLineage;
  }

  lemma EverythingIsCurrent(s: Snapshot, r: Resolution)
    requires Quiet(s)
    ensures Current(s.inputs, s.assessments, r)
  {
    hide Quiet, Revises, Covers;
    forall x, y ensures !Revises(s.inputs, s.assessments, x, y) {
      NothingRevises(s, x, y);
    }
  }

  /** A published round of participant 1 with one question. */
  predicate Stands(r: Round, id: Id, successor: Id, question: Id, rs: seq<Resolution>) {
    && r.id == id && r.supersededBy == successor && r.participant == 1 && r.published && !r.publicationFailed
    && r.questions == [Asking(question)] && r.resolutions == rs
  }

  /** The current round is the last one, and has settled its question. */
  predicate Ended(s: Snapshot, question: Id, rs: seq<Resolution>) {
    var last := |s.rounds| - 1;
    && last >= 0 && s.currentRound != NO_ID && Stands(s.rounds[last], s.currentRound, NO_ID, question, rs)
    && |rs| > 0 && rs[|rs| - 1].questionId == question
    && (forall i :: 0 <= i <= last ==> s.rounds[i].published)
    && forall i :: 0 <= i < last ==> s.rounds[i].id != s.currentRound
  }

  predicate Unasked(s: Snapshot, id: Id) {
    id != NO_ID && forall i :: 0 <= i < |s.rounds| ==>
      s.rounds[i].id != id && s.rounds[i].questions != [] && forall q :: q in s.rounds[i].questions ==>
        q == Asking(q.id)
  }

  /** The published round asked after the current one: it takes the settled answer over if it asks the same. */
  predicate Follows(s: Snapshot, t: Snapshot, id: Id, question: Id, old_: Id, rs: seq<Resolution>)
    requires |s.rounds| > 0 && |rs| > 0
  {
    var n := |s.rounds|;
    && t.currentRound == id && t.interpretationSequence == s.interpretationSequence
    && |t.rounds| == n + 1
    && t.rounds[..n - 1] == s.rounds[..n - 1]
    && Stands(t.rounds[n - 1], s.currentRound, id, old_, rs)
    && Stands(t.rounds[n], id, NO_ID, question, if question == old_ then [rs[|rs| - 1]] else [])
  }

  lemma RequestIsAccepted(s: Snapshot, id: Id, question: Id, old_: Id, rs: seq<Resolution>)
    requires Quiet(s) && Ended(s, old_, rs) && Unasked(s, id) && question != NO_ID
    ensures CanRequest(s, id, 1, 5, [Asking(question)])
  {
    hide Current;
    assert !Blank("x") by {
      assert !IsSpace("x"[0]);
    }
    EverythingIsCurrent(s, rs[|rs| - 1]);
    hide Blank;
  }

  lemma RequestInherits(s: Snapshot, id: Id, question: Id, old_: Id, rs: seq<Resolution>)
    requires Quiet(s) && Ended(s, old_, rs)
    requires question != old_ ==> forall k :: 0 <= k < |rs| ==> rs[k].questionId != question
    ensures NewRound(s, id, 1, 5, NO_ID, [Asking(question)]).resolutions ==
              if question == old_ then [rs[|rs| - 1]] else []
  {
    hide Current;
    EverythingIsCurrent(s, rs[|rs| - 1]);
    LatestIs(rs, question);
    var questions := [Asking(question)];
    assert questions[..0] == [];
    assert Inherited(s, s.rounds[|s.rounds| - 1], questions[..0]) == [];
  }

  lemma FollowingStep(s: Snapshot, id: Id, question: Id, old_: Id, rs: seq<Resolution>)
    requires Quiet(s) && Ended(s, old_, rs) && Unasked(s, id) && question != NO_ID
    requires question != old_ ==> forall k :: 0 <= k < |rs| ==> rs[k].questionId != question
    ensures var t := Apply(Apply(s, RequestStep(id, question)), PublishStep(id));
            Quiet(t) && Follows(s, t, id, question, old_, rs)
  {
    hide CanRequest, NameFor, Allocate, Inherited, Plain, AllDelivered, HasPreparation, Follows, Unasked;
    RequestIsAccepted(s, id, question, old_, rs);
    RequestInherits(s, id, question, old_, rs);
    var asked := Apply(s, RequestStep(id, question));
    var round := NewRound(s, id, 1, 5, NO_ID, [Asking(question)]);
    assert asked == s.(rounds := s.rounds + [round], references := asked.references);
    hide NewRound;
    NewRoundIs(s, id, question);
    PublishedNext(s, asked, round, id, question, old_, rs);
  }

  lemma NewRoundIs(s: Snapshot, id: Id, question: Id)
    ensures var round := NewRound(s, id, 1, 5, NO_ID, [Asking(question)]);
            && round.id == id && round.participant == 1 && round.supersededBy == NO_ID
            && round.questions == [Asking(question)] && !round.published && !round.publicationFailed
  {
  }

  lemma PublishedNext(s: Snapshot, asked: Snapshot, round: Round, id: Id, question: Id, old_: Id, rs: seq<Resolution>)
    requires Ended(s, old_, rs) && Unasked(s, id)
    requires asked == s.(rounds := s.rounds + [round], references := asked.references)
    requires round.id == id && round.participant == 1 && round.supersededBy == NO_ID
    requires round.questions == [Asking(question)] && !round.published && !round.publicationFailed
    requires round.resolutions == if question == old_ then [rs[|rs| - 1]] else []
    ensures var t := Apply(asked, PublishStep(id));
            && t == asked.(rounds := t.rounds, currentRound := id)
            && Follows(s, t, id, question, old_, rs)
  {
    var n := |s.rounds|;
    assert RoundAt(asked.rounds, id) == n;
    var t := Apply(asked, PublishStep(id));
    assert t.rounds == PublishedRounds(asked.rounds, s.currentRound, n, Source(id, id, NO_ID));
    assert t.rounds[..n - 1] == s.rounds[..n - 1];
    assert Stands(t.rounds[n - 1], s.currentRound, id, old_, rs);
    assert t.rounds[n] == round.(published := true, source := Some(Source(id, id, NO_ID)));
  }

  /** The current round `s.rounds[n]` gains an interpretation of its question. */
  predicate Gained(s: Snapshot, t: Snapshot, question: Id, rs: seq<Resolution>, r: Resolution) {
    var n := |s.rounds| - 1;
    && n >= 0 && |t.rounds| == n + 1 && t.rounds[..n] == s.rounds[..n]
    && t.currentRound == s.currentRound && t.interpretationSequence == s.interpretationSequence + 1
    && Stands(t.rounds[n], s.currentRound, NO_ID, question, rs + [Counted(s, r)])
  }

  function Counted(s: Snapshot, r: Resolution): Resolution {
    r.(sequence := s.interpretationSequence + 1, considered := [])
  }

  /** An interpretation that cites one of the two responses, or none and marks its question obsolete. */
  predicate Simple(r: Resolution) {
    r.explanation == "x" && if r.obsolete then r.responseIds == [] else r.responseIds == [11] || r.responseIds == [12]
  }

  lemma NothingIsConsidered(s: Snapshot, inputs: seq<Input>, cited: seq<Id>)
    requires Quiet(s)
    ensures Considered(inputs, s.assessments, s.inputs, cited) == []
  {
    hide Revises, Quiet;
    if |inputs| > 0 {
      NothingIsConsidered(s, inputs[..|inputs| - 1], cited);
      forall k | 0 <= k < |cited| ensures !Revises(s.inputs, s.assessments, inputs[|inputs| - 1].id, cited[k]) {
        NothingRevises(s, inputs[|inputs| - 1].id, cited[k]);
      }
    }
  }

  lemma SimpleIsCitable(s: Snapshot, round: Round, r: Resolution)
    requires Quiet(s) && round.participant == 1 && Simple(r)
    ensures forall k :: 0 <= k < |r.responseIds| ==> Citable(s, round, r.questionId, r.responseIds[k])
  {
    assert CitableInput(s, round, r.questionId, s.inputs[0]) && CitableInput(s, round, r.questionId, s.inputs[1]);
  }

  /** A simple interpretation of a question that was at most marked obsolete before is accepted. */
  lemma SimpleIsAccepted(s: Snapshot, id: Id, r: Resolution)
    requires Quiet(s) && Simple(r) && RoundAt(s.rounds, id) >= 0
    requires var x := s.rounds[RoundAt(s.rounds, id)];
             && x.participant == 1 && x.published && Asks(x.questions, r.questionId)
             && (Latest(x.resolutions, r.questionId).Some? ==> Latest(x.resolutions, r.questionId).value.obsolete)
             && (x.supersededBy != NO_ID ==>
                   && Latest(x.resolutions, r.questionId).Some?
                   && forall j :: 0 <= j < |s.rounds| ==> !Receives(s, x, s.rounds[j], r.questionId))
    ensures CanResolve(s, id, 5, [r])
  {
    hide Current, Citable, Asks, Receives, RevisesAny;
    assert !Blank("x") by {
      assert !IsSpace("x"[0]);
    }
    SimpleIsCitable(s, s.rounds[RoundAt(s.rounds, id)], r);
    EverythingIsCurrent(s, Covering(s, r));
    hide Quiet, Covering;
    assert forall k :: 0 <= k < |[r]| ==> [r][k] == r;
  }

  lemma DecideStep(s: Snapshot, question: Id, rs: seq<Resolution>, r: Resolution)
    requires Quiet(s) && |s.rounds| > 0 && Stands(s.rounds[|s.rounds| - 1], s.currentRound, NO_ID, question, rs)
    requires forall i :: 0 <= i < |s.rounds| - 1 ==> s.rounds[i].id != s.currentRound
    requires Simple(r) && r.questionId == question
    requires Latest(rs, question).Some? ==> Latest(rs, question).value.obsolete
    ensures var t := Apply(s, Resolve(s.currentRound, 5, [r]));
            Quiet(t) && Gained(s, t, question, rs, r)
  {
    hide CanResolve, Considered;
    var n := |s.rounds| - 1;
    assert s.rounds[n].questions[0].id == question;
    SimpleIsAccepted(s, s.currentRound, r);
    NothingIsConsidered(s, s.inputs, r.responseIds);
    var t := Apply(s, Resolve(s.currentRound, 5, [r]));
    var recorded := Sequenced(s, [r]);
    assert recorded == [Counted(s, r)];
    assert t.rounds == RecordedRounds(s, n, recorded);
    forall j | 0 <= j < n ensures t.rounds[j] == s.rounds[j] {
      assert s.rounds[j].resolutions + [] == s.rounds[j].resolutions;
    }
  }

  // ----- The story -----

  /** Both responses are admitted, but not read yet. */
  predicate Waiting(s: Snapshot) {
    && s == EMPTY.(inputs := s.inputs, receipts := s.receipts, references := s.references)
    && |s.inputs| == 2 && Plain(s.inputs[0], 11, 1) && Plain(s.inputs[1], 12, 1)
    && !Delivered(s.inputs[0]) && !Delivered(s.inputs[1])
  }

  lemma BothAdmitted()
    ensures Waiting(Apply(Apply(EMPTY, Steering(11, 1)), Steering(12, 1)))
  {
    hide Steering, Apply, Plain, Delivered;
    SteeringIsAdmitted(EMPTY, 11, 1);
    var s := Apply(EMPTY, Steering(11, 1));
    assert s.inputs[0].id == 11 by {
      PlainId(s.inputs[0], 11, 1);
    }
    SteeringIsAdmitted(s, 12, 1);
    var t := Apply(s, Steering(12, 1));
    assert t.inputs[0] == t.inputs[..1][0];
  }

  lemma PlainId(input: Input, id: Id, participant: Id)
    requires Plain(input, id, participant)
    ensures input.id == id
  {
  }

  lemma BothRead(s: Snapshot)
    requires Waiting(s)
    ensures var t := Apply(s, Prepare(1, 5));
            Quiet(t) && t.rounds == [] && t.currentRound == NO_ID && t.interpretationSequence == 0
  {
    var t := Apply(s, Prepare(1, 5));
    assert t.preparations[0] == Preparation(1, 5);
  }

  lemma FirstIsAccepted(s: Snapshot)
    requires s.rounds == [] && s.currentRound == NO_ID
    ensures CanRequest(s, 21, 1, 5, [Asking(7)])
  {
    hide Settled;
    assert !Blank("x") by {
      assert !IsSpace("x"[0]);
    }
  }

  lemma FirstRound(s: Snapshot)
    requires Quiet(s) && s.rounds == [] && s.currentRound == NO_ID
    ensures var t := Apply(Apply(s, RequestStep(21, 7)), PublishStep(21));
            && Quiet(t) && |t.rounds| == 1 && Stands(t.rounds[0], 21, NO_ID, 7, [])
            && t.currentRound == 21 && t.interpretationSequence == s.interpretationSequence
  {
    hide NameFor, Allocate, CanRequest, Plain, AllDelivered, HasPreparation;
    FirstIsAccepted(s);
    var asked := Apply(s, RequestStep(21, 7));
    assert asked.rounds == [NewRound(s, 21, 1, 5, NO_ID, [Asking(7)])];
    assert RoundAt(asked.rounds, 21) == 0;
  }

  /** The snapshot the story ends in. */
  ghost predicate Told(s: Snapshot) {
    && Quiet(s) && |s.rounds| == 3 && s.currentRound == 23
    && Stands(s.rounds[0], 21, 22, 7, [Marked()])
    && Stands(s.rounds[1], 22, 23, 7, [Marked(), Decided()])
    && Stands(s.rounds[2], 23, NO_ID, 8, [])
  }

  function Marked(): Resolution {
    Obsolete(7).(sequence := 1)
  }

  function Decided(): Resolution {
    Override(7, 12).(sequence := 2)
  }

  /** Two responses, 11 and 12.  Round 21 marks question 7 obsolete, round 22 answers it with 12, and round 23 drops
      it; both are then historical. */
  function Story(): seq<Step> {
    [Steering(11, 1), Steering(12, 1), Prepare(1, 5)] +
    [RequestStep(21, 7), PublishStep(21), Resolve(21, 5, [Obsolete(7)])] +
    [RequestStep(22, 7), PublishStep(22), Resolve(22, 5, [Override(7, 12)])] +
    [RequestStep(23, 8), PublishStep(23)]
  }

  lemma RunTwo(s: Snapshot, a: Step, b: Step)
    ensures Run(s, [a, b]) == Apply(Apply(s, a), b)
  {
    hide Apply, Run;
    RunNothing(s);
    RunSnoc(s, [], a);
    RunSnoc(s, [a], b);
    assert [] + [a] == [a] && [a] + [b] == [a, b];
  }

  lemma RunThree(s: Snapshot, a: Step, b: Step, c: Step)
    ensures Run(s, [a, b, c]) == Apply(Apply(Apply(s, a), b), c)
  {
    hide Apply, Run;
    RunTwo(s, a, b);
    RunSnoc(s, [a, b], c);
    assert [a, b] + [c] == [a, b, c];
  }

  lemma StoryIsTold()
    ensures Told(Run(EMPTY, Story()))
  {
    hide Quiet, Steering, RequestStep, PublishStep, Apply, Stands, Override, Obsolete, Run;
    var heard := [Steering(11, 1), Steering(12, 1), Prepare(1, 5)];
    var first := [RequestStep(21, 7), PublishStep(21), Resolve(21, 5, [Obsolete(7)])];
    var second := [RequestStep(22, 7), PublishStep(22), Resolve(22, 5, [Override(7, 12)])];
    var third := [RequestStep(23, 8), PublishStep(23)];
    RunThree(EMPTY, heard[0], heard[1], heard[2]);
    BothAdmitted();
    BothRead(Apply(Apply(EMPTY, heard[0]), heard[1]));
    var s3 := Run(EMPTY, heard);
    RunThree(s3, first[0], first[1], first[2]);
    FirstRound(s3);
    FirstDecision(Apply(Apply(s3, first[0]), first[1]));
    var s6 := Run(s3, first);
    RunThree(s6, second[0], second[1], second[2]);
    SecondRound(s6);
    SecondDecision(Apply(Apply(s6, second[0]), second[1]));
    var s9 := Run(s6, second);
    RunTwo(s9, third[0], third[1]);
    ThirdRound(s9);
    RunJoin(EMPTY, heard, first);
    RunJoin(EMPTY, heard + first, second);
    RunJoin(EMPTY, heard + first + second, third);
  }

  lemma FirstDecision(s: Snapshot)
    requires Quiet(s) && |s.rounds| == 1 && s.interpretationSequence == 0
    requires Stands(s.rounds[0], 21, NO_ID, 7, []) && s.currentRound == 21
    ensures var t := Apply(s, Resolve(21, 5, [Obsolete(7)]));
            && Quiet(t) && |t.rounds| == 1 && t.interpretationSequence == 1 && t.currentRound == 21
            && Stands(t.rounds[0], 21, NO_ID, 7, [Marked()])
  {
    hide Apply, Quiet;
    DecideStep(s, 7, [], Obsolete(7));
  }

  lemma SecondRound(s: Snapshot)
    requires Quiet(s) && |s.rounds| == 1 && s.interpretationSequence == 1 && s.currentRound == 21
    requires Stands(s.rounds[0], 21, NO_ID, 7, [Marked()])
    ensures var t := Apply(Apply(s, RequestStep(22, 7)), PublishStep(22));
            && Quiet(t) && |t.rounds| == 2 && t.interpretationSequence == 1 && t.currentRound == 22
            && Stands(t.rounds[0], 21, 22, 7, [Marked()]) && Stands(t.rounds[1], 22, NO_ID, 7, [Marked()])
  {
    hide Apply, Quiet;
    FollowingStep(s, 22, 7, 7, [Marked()]);
  }

  lemma SecondDecision(s: Snapshot)
    requires Quiet(s) && |s.rounds| == 2 && s.interpretationSequence == 1 && s.currentRound == 22
    requires Stands(s.rounds[0], 21, 22, 7, [Marked()]) && Stands(s.rounds[1], 22, NO_ID, 7, [Marked()])
    ensures var t := Apply(s, Resolve(22, 5, [Override(7, 12)]));
            && Quiet(t) && |t.rounds| == 2 && t.currentRound == 22
            && Stands(t.rounds[0], 21, 22, 7, [Marked()]) && Stands(t.rounds[1], 22, NO_ID, 7, [Marked(), Decided()])
  {
    hide Apply, Quiet;
    assert Latest([Marked()], 7) == Some(Marked());
    DecideStep(s, 7, [Marked()], Override(7, 12));
    var t := Apply(s, Resolve(22, 5, [Override(7, 12)]));
    assert t.rounds[0] == t.rounds[..1][0] && s.rounds[0] == s.rounds[..1][0];
    assert Counted(s, Override(7, 12)) == Decided();
  }

  lemma ThirdRound(s: Snapshot)
    requires Quiet(s) && |s.rounds| == 2 && s.currentRound == 22
    requires Stands(s.rounds[0], 21, 22, 7, [Marked()]) && Stands(s.rounds[1], 22, NO_ID, 7, [Marked(), Decided()])
    ensures Told(Apply(Apply(s, RequestStep(23, 8)), PublishStep(23)))
  {
    hide Apply, Quiet;
    FollowingStep(s, 23, 8, 7, [Marked(), Decided()]);
    var t := Apply(Apply(s, RequestStep(23, 8)), PublishStep(23));
    assert t.rounds[0] == t.rounds[..1][0] && s.rounds[0] == s.rounds[..1][0];
  }

  /** There the live decision by response 12 governs question 7, and round 21 accepts one by response 11, which
      revises nothing of it, in its place. */
  lemma ReplacedWithoutRevision()
    ensures var s := Run(EMPTY, Story());
            && RoundAt(s.rounds, 21) == 0 && s.rounds[0].participant == 1
            && Governs(s.rounds, 1, 7, Decided()) && !Decided().obsolete && Decided().responseIds == [12]
            && Overrides(s, 21, 5, Override(7, 11), Decided())
            && Governs(AfterResolve(s, 21, 5, [Override(7, 11)]).rounds, 1, 7, Sequenced(s, [Override(7, 11)])[0])
            && !Governs(AfterResolve(s, 21, 5, [Override(7, 11)]).rounds, 1, 7, Decided())
  {
    hide Run, Apply;
    StoryIsTold();
    var s := Run(EMPTY, Story());
    ToldGoverns(s);
    ToldOverrides(s);
    hide *;
    OverriddenIsReplaced(Story(), 21, 5, Override(7, 11), Decided());
  }

  lemma ToldGoverns(s: Snapshot)
    requires Told(s)
    ensures Governs(s.rounds, 1, 7, Decided())
  {
    assert s.rounds[1].questions[0].id == 7;
    assert Opines(s.rounds, 1, 7, 1);
  }

  lemma ToldOverrides(s: Snapshot)
    requires Told(s)
    ensures RoundAt(s.rounds, 21) == 0 && s.rounds[0].participant == 1
    ensures Overrides(s, 21, 5, Override(7, 11), Decided())
  {
    hide CanResolve, Revises;
    assert s.rounds[0].questions[0].id == 7;
    SimpleIsAccepted(s, 21, Override(7, 11));
    forall x, y ensures !Revises(s.inputs, s.assessments, x, y) {
      NothingRevises(s, x, y);
    }
  }
}
