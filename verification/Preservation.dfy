/** Every conversation operation keeps the invariant and extends history.

  There is one lemma per operation (`RequestGood`, `PublishGood`, ... `CommitGood`).  Each is put together from
  lemmas about the parts of the invariant that the operation touches: names, receipts and deliveries, the chain of
  rounds, the interpretations of a round, the planning revisions, and the withdrawal cutoff.  These take only the
  records they need, so that the parts an operation leaves alone cost nothing.  `ApplyGood` and `RunGood` collect them.
 */
module Preservation {
  import opened Basics
  import opened Names
  import opened Conversation
  import opened Evidence
  import opened Steps
  import opened Invariants

  // ----- Growing inputs and assessments -----

  lemma {:induction false} ConfirmationsKept(inputs: seq<Input>, later: seq<Input>, k: nat)
    requires InputsGrow(inputs, later) && k <= |inputs|
    ensures Confirmations(later[..k]) == Confirmations(inputs[..k])
  {
    if k > 0 {
      assert inputs[..k][..k - 1] == inputs[..k - 1] && later[..k][..k - 1] == later[..k - 1];
      assert SameInput(inputs[k - 1], later[k - 1]);
      ConfirmationsKept(inputs, later, k - 1);
    }
  }

  lemma CutoffKept(invalidated: seq<Id>, inputs: seq<Input>, later: seq<Input>)
    requires Cutoff(invalidated, inputs) && InputsGrow(inputs, later)
    ensures Cutoff(invalidated, later)
  {
    var k :| 0 <= k <= |inputs| && invalidated == Confirmations(inputs[..k]);
    ConfirmationsKept(inputs, later, k);
  }

  lemma JustifiedKept(
    inputs: seq<Input>, later: seq<Input>, asr: seq<Assessment>, asr': seq<Assessment>, rs: seq<Resolution>)
    requires InputsGrow(inputs, later) && asr <= asr' && Justified(inputs, asr, rs)
    ensures Justified(later, asr', rs)
  {
    forall k | 0 <= k < |rs| ensures JustifiedAt(later, asr', rs, k) {
      assert JustifiedAt(inputs, asr, rs, k);
      CanReviseGrows(inputs, later, asr, asr', Latest(rs[..k], rs[k].questionId), rs[k]);
    }
  }

  lemma JustifiedRoundsKept(
    inputs: seq<Input>, later: seq<Input>, asr: seq<Assessment>, asr': seq<Assessment>, rounds: seq<Round>)
    requires InputsGrow(inputs, later) && asr <= asr' && JustifiedRounds(inputs, asr, rounds)
    ensures JustifiedRounds(later, asr', rounds)
  {
    forall i | 0 <= i < |rounds| ensures Justified(later, asr', rounds[i].resolutions) {
      JustifiedKept(inputs, later, asr, asr', rounds[i].resolutions);
    }
  }

  lemma InputsKept(inputs: seq<Input>, later: seq<Input>)
    requires InputsGrow(inputs, later) && |later| == |inputs| && DistinctInputs(inputs) && AmendsEarlier(inputs)
    ensures DistinctInputs(later) && AmendsEarlier(later)
    ensures InputIds(later) == InputIds(inputs) && ReceiptsOf(later) == ReceiptsOf(inputs)
    ensures forall i :: 0 <= i < |inputs| ==> later[i].reference == inputs[i].reference
  {
    assert forall i :: 0 <= i < |inputs| ==> SameInput(inputs[i], later[i]);
    forall i | 0 <= i < |later| && later[i].amends != NO_ID
      ensures exists j :: 0 <= j < i && later[j].id == later[i].amends
    {
      assert SameInput(inputs[i], later[i]);
      var j :| 0 <= j < i && inputs[j].id == inputs[i].amends;
      assert SameInput(inputs[j], later[j]);
    }
  }

  /** Delivery bookkeeping touches nothing but the delivery invariant. */
  lemma BookkeepingGood(s: Snapshot, later: seq<Input>, preparations: seq<Preparation>)
    requires Good(s) && InputsGrow(s.inputs, later) && |later| == |s.inputs|
    requires s.preparations <= preparations && DeliveriesOk(later, preparations)
    ensures Good(s.(inputs := later, preparations := preparations))
    ensures Extends(s, s.(inputs := later, preparations := preparations))
  {
    hide DistinctInputs, AmendsEarlier, ReceiptsOf, InputIds, Justified, JustifiedRounds, Cutoff, Numbered, Named,
      Admitted;
    hide RoundsOk, QuestionsOk, SequencesOk, DeliveriesOk, RevisionIdsOk, OnePendingRevision, RevisionChain,
      ValidationsOk, PlanNamed;
    InputsKept(s.inputs, later);
    JustifiedRoundsKept(s.inputs, later, s.assessments, s.assessments, s.rounds);
    if s.planning.Some? {
      CutoffKept(s.planning.value.invalidated, s.inputs, later);
    }
  }

  lemma PreparedDeliveries(inputs: seq<Input>, preparations: seq<Preparation>, participant: Id, turn: Id)
    requires DeliveriesOk(inputs, preparations) && !HasTurn(preparations, turn)
    ensures InputsGrow(inputs, AssignAll(inputs, participant, turn))
    ensures DeliveriesOk(AssignAll(inputs, participant, turn), preparations + [Preparation(participant, turn)])
  {
    var later := AssignAll(inputs, participant, turn);
    var prepared := preparations + [Preparation(participant, turn)];
    assert prepared[|preparations|] == Preparation(participant, turn);
    forall i | 0 <= i < |later| && later[i].deliveredTo != NO_ID
      ensures HasPreparation(prepared, later[i].participant, later[i].deliveredTo)
    {
      if !Awaiting(inputs[i], participant) {
        var k :| 0 <= k < |preparations| && preparations[k] == Preparation(later[i].participant, later[i].deliveredTo);
        assert prepared[k] == preparations[k];
      }
    }
  }

  lemma PrepareGood(s: Snapshot, participant: Id, turn: Id)
    requires Good(s)
    ensures Good(AfterPrepare(s, participant, turn)) && Extends(s, AfterPrepare(s, participant, turn))
  {
    SelfExtends(s);
    if !HasTurn(s.preparations, turn) {
      PreparedDeliveries(s.inputs, s.preparations, participant, turn);
      hide DistinctInputs, AmendsEarlier, NamesOk, ReceiptsOk, RoundsOk, QuestionsOk, SequencesOk, JustifiedRounds,
        PlanningOk;
      BookkeepingGood(s, AssignAll(s.inputs, participant, turn), s.preparations + [Preparation(participant, turn)]);
    }
  }

  /** Changing only whether assigned inputs have been read. */
  lemma ReadingKept(inputs: seq<Input>, later: seq<Input>, preparations: seq<Preparation>)
    requires DeliveriesOk(inputs, preparations) && |later| == |inputs|
    requires forall i :: 0 <= i < |inputs| ==> later[i] == inputs[i].(deliveryPending := later[i].deliveryPending)
    ensures InputsGrow(inputs, later) && DeliveriesOk(later, preparations)
  {
  }

  lemma MarkDeliveredGood(s: Snapshot, participant: Id, turn: Id, id: Id)
    requires Good(s)
    ensures Good(AfterMarkDelivered(s, participant, turn, id)) &&
            Extends(s, AfterMarkDelivered(s, participant, turn, id))
  {
    var later := AfterMarkDelivered(s, participant, turn, id).inputs;
    assert forall i :: 0 <= i < |s.inputs| ==> later[i] == s.inputs[i].(deliveryPending := later[i].deliveryPending);
    ReadingKept(s.inputs, later, s.preparations);
    hide DistinctInputs, AmendsEarlier, NamesOk, ReceiptsOk, RoundsOk, QuestionsOk, SequencesOk, JustifiedRounds,
      PlanningOk;
    BookkeepingGood(s, later, s.preparations);
  }

  lemma ProjectGood(s: Snapshot, participant: Id, turn: Id, oversize: bool)
    requires Good(s)
    ensures Good(AfterProject(s, participant, turn, oversize)) &&
            Extends(s, AfterProject(s, participant, turn, oversize))
  {
    var later := AfterProject(s, participant, turn, oversize).inputs;
    ReadingKept(s.inputs, later, s.preparations);
    hide DistinctInputs, AmendsEarlier, NamesOk, ReceiptsOk, RoundsOk, QuestionsOk, SequencesOk, JustifiedRounds,
      PlanningOk;
    BookkeepingGood(s, later, s.preparations);
  }

  lemma SelfExtends(s: Snapshot)
    ensures Extends(s, s)
  {
  }

  // ----- Accept -----

  lemma ReceiptAdded(s: Snapshot, receipt: Receipt, inputs: seq<Input>)
    requires ReceiptsOk(s.receipts, s.inputs) && ReceiptAt(s.receipts, receipt.source) < 0
    requires if receipt.responseId == NO_ID then inputs == s.inputs
             else
               |inputs| == |s.inputs| + 1 && inputs[..|s.inputs|] == s.inputs &&
               receipt == ReceiptOf(inputs[|s.inputs|])
    ensures ReceiptsOk(s.receipts + [receipt], inputs)
  {
    var longer := s.receipts + [receipt];
    assert longer[..|longer| - 1] == s.receipts;
    if receipt.responseId != NO_ID {
      assert ReceiptsOf(inputs) == ReceiptsOf(s.inputs) + [receipt];
    }
  }

  lemma AcceptGood(s: Snapshot, id: Id, c: Command, a: Admission)
    requires Good(s)
    ensures Good(AfterAccept(s, id, c, a)) && Extends(s, AfterAccept(s, id, c, a))
  {
    SelfExtends(s);
    if ReceiptAt(s.receipts, a.source) < 0 {
      if Screen(s, id, c, a).Some? {
        ReceiptAdded(s, AcceptReceipt(s, id, c, a), s.inputs);
        hide DistinctInputs, AmendsEarlier, NamesOk, ReceiptsOk, RoundsOk, QuestionsOk, SequencesOk, JustifiedRounds,
          PlanningOk;
        hide DeliveriesOk, AcceptReceipt, Screen, InputsGrow, RoundsGrow, PlanningGrows;
      } else {
        AdmitGood(s, id, c, a);
      }
    }
  }

  lemma AdmitGood(s: Snapshot, id: Id, c: Command, a: Admission)
    requires Good(s) && ReceiptAt(s.receipts, a.source) < 0 && Screen(s, id, c, a).None?
    ensures Good(AfterAccept(s, id, c, a)) && Extends(s, AfterAccept(s, id, c, a))
  {
    hide DistinctInputs, AmendsEarlier, NamesOk, ReceiptsOk, RoundsOk, QuestionsOk, SequencesOk, JustifiedRounds,
      PlanningOk, DeliveriesOk, InputsGrow, RoundsGrow, PlanningGrows, NewInput, AcceptReceipt, Allocate, Screen,
      NameFor, Name, ReceiptOf;
    var input := NewInput(s, id, c, a);
    var later := s.inputs + [input];
    NewInputIs(s, id, c, a);
    AdmittedName(s, id);
    ReceiptAdded(s, AcceptReceipt(s, id, c, a), later);
    AdmittedInputs(s, id, c, a);
    AdmittedDeliveries(s.inputs, s.preparations, input);
    JustifiedRoundsKept(s.inputs, later, s.assessments, s.assessments, s.rounds);
    PlanningInputsKept(s.planning, s.inputs, later, s.references, Allocate(s.references, InputRef, id));
    SelfExtends(s);
  }

  lemma NewInputIs(s: Snapshot, id: Id, c: Command, a: Admission)
    requires ReceiptAt(s.receipts, a.source) < 0 && Screen(s, id, c, a).None?
    ensures id != NO_ID && !HasInput(s.inputs, id)
    ensures var input := NewInput(s, id, c, a);
            && input.id == id && input.reference == NameFor(s.references, InputRef, id) && input.deliveredTo == NO_ID
            && AcceptReceipt(s, id, c, a) == ReceiptOf(input) && ReceiptOf(input).responseId == id
            && ReceiptOf(input).source == a.source
  {
    hide HasInput, NameFor, TargetOf, RoundOf, Confirmable, ScreenAnswer, ScreenAmend;
  }

  lemma AdmittedDeliveries(inputs: seq<Input>, preparations: seq<Preparation>, input: Input)
    requires DeliveriesOk(inputs, preparations) && input.deliveredTo == NO_ID
    ensures DeliveriesOk(inputs + [input], preparations)
  {
    hide HasPreparation;
  }

  lemma PlanningInputsKept(
    planning: Option<Planning>, inputs: seq<Input>, later: seq<Input>, references: seq<Reference>,
    references': seq<Reference>)
    requires PlanningOk(planning, inputs, references) && InputsGrow(inputs, later) && references <= references'
    ensures PlanningOk(planning, later, references')
  {
    if planning.Some? {
      CutoffKept(planning.value.invalidated, inputs, later);
      forall i | 0 <= i < |planning.value.revisions|
        ensures Reference(planning.value.revisions[i].reference, planning.value.revisions[i].id, PlanRef) in references'
      {
        var r := Reference(planning.value.revisions[i].reference, planning.value.revisions[i].id, PlanRef);
        assert r in references;
        var k :| 0 <= k < |references| && references[k] == r;
        assert references'[k] == r;
      }
    }
  }

  lemma AdmittedInputs(s: Snapshot, id: Id, c: Command, a: Admission)
    requires DistinctInputs(s.inputs) && AmendsEarlier(s.inputs) && Screen(s, id, c, a).None?
    ensures DistinctInputs(s.inputs + [NewInput(s, id, c, a)]) && AmendsEarlier(s.inputs + [NewInput(s, id, c, a)])
    ensures InputsGrow(s.inputs, s.inputs + [NewInput(s, id, c, a)])
  {
    var input := NewInput(s, id, c, a);
    var later := s.inputs + [input];
    forall i | 0 <= i < |later| && later[i].amends != NO_ID
      ensures exists j :: 0 <= j < i && later[j].id == later[i].amends
    {
      if i < |s.inputs| {
        var j :| 0 <= j < i && s.inputs[j].id == s.inputs[i].amends;
        assert later[j] == s.inputs[j];
      } else {
        var at := InputAt(s.inputs, TargetOf(s, c));
        assert later[at] == s.inputs[at];
      }
    }
  }

  lemma AdmittedName(s: Snapshot, id: Id)
    requires NamesOk(s.references, s.rounds, s.inputs) && !HasInput(s.inputs, id)
    ensures NameFor(s.references, InputRef, id) == Name(InputRef, |s.inputs| + 1)
    ensures forall input: Input :: input.id == id && input.reference == Name(InputRef, |s.inputs| + 1) ==>
              NamesOk(Allocate(s.references, InputRef, id), s.rounds, s.inputs + [input])
    ensures s.references <= Allocate(s.references, InputRef, id)
  {
    hide Numbered, Named, NameFor, Allocate, Name, InputIds, RoundIds, HasInput, RefAt;
    NamedContains(s.references, InputRef, id);
    InputIdsAre(s.inputs, id);
    AllocateExtends(s.references, InputRef, id);
    AllocateNumbered(s.references, InputRef, id);
    AllocateNamed(s.references, InputRef, id, InputRef);
    AllocateNamed(s.references, InputRef, id, RoundRef);
    forall input: Input | input.id == id && input.reference == Name(InputRef, |s.inputs| + 1)
      ensures NamesOk(Allocate(s.references, InputRef, id), s.rounds, s.inputs + [input])
    {
      InputIdsSnoc(s.inputs, input);
    }
  }

  lemma InputIdsAre(inputs: seq<Input>, id: Id)
    ensures id in InputIds(inputs) <==> HasInput(inputs, id)
    ensures |InputIds(inputs)| == |inputs|
  {
    if i :| 0 <= i < |inputs| && inputs[i].id == id {
      assert InputIds(inputs)[i] == id;
    }
  }

  lemma InputIdsSnoc(inputs: seq<Input>, input: Input)
    ensures InputIds(inputs + [input]) == InputIds(inputs) + [input.id]
  {
  }

  lemma RoundIdsAre(rounds: seq<Round>, id: Id)
    ensures id in RoundIds(rounds) <==> exists i :: 0 <= i < |rounds| && rounds[i].id == id
    ensures |RoundIds(rounds)| == |rounds|
  {
    if i :| 0 <= i < |rounds| && rounds[i].id == id {
      assert RoundIds(rounds)[i] == id;
    }
  }

  lemma RoundIdsSnoc(rounds: seq<Round>, round: Round)
    ensures RoundIds(rounds + [round]) == RoundIds(rounds) + [round.id]
  {
  }

  lemma AllocateExtends(references: seq<Reference>, kind: RefKind, id: nat)
    ensures references <= Allocate(references, kind, id)
  {
  }

  // ----- Publish and FailPublication -----

  /** Only the last round can still be published. */
  lemma PendingIsLast(rounds: seq<Round>, at: nat)
    requires OnePending(rounds) && at < |rounds| && !rounds[at].published && !rounds[at].publicationFailed
    ensures at == |rounds| - 1
  {
  }

  lemma NoneBetweenKept(rounds: seq<Round>, later: seq<Round>, i: int, j: int)
    requires |later| == |rounds| && NoneBetween(later, i, j)
    requires forall k :: 0 <= k < |rounds| && rounds[k].published ==> later[k].published
    ensures NoneBetween(rounds, i, j)
  {
    forall k | 0 <= k < |rounds| && i < k < j ensures !rounds[k].published {
      assert !later[k].published;
    }
  }

  lemma PublishedChain(rounds: seq<Round>, currentRound: Id, at: nat, source: Source)
    requires RoundsOk(rounds, currentRound) && at < |rounds|
    requires !rounds[at].published && !rounds[at].publicationFailed
    ensures RoundsOk(PublishedRounds(rounds, currentRound, at, source), rounds[at].id)
  {
    PendingIsLast(rounds, at);
    var later := PublishedRounds(rounds, currentRound, at, source);
    assert RoundIdsOk(later) && OnePending(later);
    PublishedSuperseded(rounds, currentRound, at, source);
    PublishedSupersedes(rounds, currentRound, at, source);
  }

  lemma PublishedSuperseded(rounds: seq<Round>, currentRound: Id, at: nat, source: Source)
    requires RoundIdsOk(rounds) && SupersededOk(rounds, currentRound) && at == |rounds| - 1 && !rounds[at].published
    ensures SupersededOk(PublishedRounds(rounds, currentRound, at, source), rounds[at].id)
  {
    var later := PublishedRounds(rounds, currentRound, at, source);
    CurrentIsPublished(rounds, currentRound);
    hide RoundIdsOk;
    forall i, j | 0 <= i < j < |later| && later[i].published && later[j].published && NoneBetween(later, i, j)
      ensures later[i].supersededBy == later[j].id
    {
      NoneBetweenKept(rounds, later, i, j);
      if j == at {
        assert NoneBetween(rounds, i, |rounds|);
      } else {
        assert rounds[j].published;
        assert !NoneBetween(rounds, i, |rounds|);
      }
    }
    forall i | 0 <= i < |later| && later[i].published && NoneBetween(later, i, |later|)
      ensures later[i].supersededBy == NO_ID && later[i].id == rounds[at].id
    {
      assert later[at].published;
    }
    assert later[at].published && !NoneBetween(later, -1, |later|);
  }

  lemma PublishedSupersedes(rounds: seq<Round>, currentRound: Id, at: nat, source: Source)
    requires SupersedesOk(rounds) && at == |rounds| - 1 && !rounds[at].published
    ensures SupersedesOk(PublishedRounds(rounds, currentRound, at, source))
  {
    var later := PublishedRounds(rounds, currentRound, at, source);
    forall i, j | 0 <= i < j < |later| && later[i].published && NoneBetween(later, i, j)
      ensures later[j].supersedes == later[i].id
    {
      NoneBetweenKept(rounds, later, i, j);
    }
    forall j | 0 <= j < |later| && NoneBetween(later, -1, j) ensures later[j].supersedes == NO_ID {
      NoneBetweenKept(rounds, later, -1, j);
    }
  }

  /** The current round, when there is one, is the last published one. */
  lemma CurrentIsPublished(rounds: seq<Round>, currentRound: Id)
    requires RoundIdsOk(rounds) && SupersededOk(rounds, currentRound)
    ensures currentRound != NO_ID ==>
            exists i :: 0 <= i < |rounds| && rounds[i].published && rounds[i].id == currentRound
    ensures forall i :: 0 <= i < |rounds| && rounds[i].id == currentRound ==>
              rounds[i].published && NoneBetween(rounds, i, |rounds|)
  {
    if !NoneBetween(rounds, -1, |rounds|) {
      var i := LastPublished(rounds, |rounds|);
    }
  }

  lemma {:induction false} LastPublished(rounds: seq<Round>, n: nat) returns (i: nat)
    requires n <= |rounds| && !NoneBetween(rounds, -1, n)
    ensures i < n && rounds[i].published && NoneBetween(rounds, i, n)
  {
    if rounds[n - 1].published {
      i := n - 1;
    } else {
      var k :| 0 <= k < |rounds| && -1 < k < n && rounds[k].published;
      assert !NoneBetween(rounds, -1, n - 1);
      i := LastPublished(rounds, n - 1);
    }
  }

  /** Publication state is no part of a round's name, questions or interpretations. */
  lemma RoundContentsKept(s: Snapshot, later: seq<Round>)
    requires NamesOk(s.references, s.rounds, s.inputs) && QuestionsOk(s.rounds)
    requires SequencesOk(s.rounds, s.interpretationSequence) && JustifiedRounds(s.inputs, s.assessments, s.rounds)
    requires RoundsGrow(s.rounds, later) && |later| == |s.rounds|
    requires forall i :: 0 <= i < |later| ==> later[i].resolutions == s.rounds[i].resolutions
    ensures NamesOk(s.references, later, s.inputs) && QuestionsOk(later)
    ensures SequencesOk(later, s.interpretationSequence) && JustifiedRounds(s.inputs, s.assessments, later)
  {
    assert forall i :: 0 <= i < |later| ==> SameRound(s.rounds[i], later[i]);
    assert RoundIds(later) == RoundIds(s.rounds);
    SequencesKept(s.rounds, later, s.interpretationSequence);
    QuestionsKept(s.rounds, later);
    JustifiedSame(s.inputs, s.assessments, s.rounds, later);
  }

  lemma SequencesKept(rounds: seq<Round>, later: seq<Round>, bound: nat)
    requires SequencesOk(rounds, bound) && |later| == |rounds|
    requires forall i :: 0 <= i < |later| ==>
             later[i].resolutions == rounds[i].resolutions && later[i].questions == rounds[i].questions
    ensures SequencesOk(later, bound)
  {
    hide InOrder, Within, Agree;
    forall i | 0 <= i < |later|
      ensures InOrder(later[i].resolutions) && Within(later[i].resolutions, bound, later[i].questions)
    {
      assert InOrder(rounds[i].resolutions) && Within(rounds[i].resolutions, bound, rounds[i].questions);
    }
    forall i, j | 0 <= i < |later| && 0 <= j < |later| ensures Agree(later[i].resolutions, later[j].resolutions) {
      assert Agree(rounds[i].resolutions, rounds[j].resolutions);
    }
  }

  lemma QuestionsKept(rounds: seq<Round>, later: seq<Round>)
    requires QuestionsOk(rounds) && |later| == |rounds|
    requires forall i :: 0 <= i < |later| ==> later[i].questions == rounds[i].questions
    ensures QuestionsOk(later)
  {
    hide DistinctQuestions, SameWording;
    forall i, j | 0 <= i < |later| && 0 <= j < |later| ensures SameWording(later[i].questions, later[j].questions) {
      assert SameWording(rounds[i].questions, rounds[j].questions);
    }
  }

  lemma JustifiedSame(inputs: seq<Input>, asr: seq<Assessment>, rounds: seq<Round>, later: seq<Round>)
    requires JustifiedRounds(inputs, asr, rounds) && |later| == |rounds|
    requires forall i :: 0 <= i < |later| ==> later[i].resolutions == rounds[i].resolutions
    ensures JustifiedRounds(inputs, asr, later)
  {
    hide Justified;
    forall i | 0 <= i < |later| ensures Justified(inputs, asr, later[i].resolutions) {
      assert Justified(inputs, asr, rounds[i].resolutions);
    }
  }

  lemma PublishGood(s: Snapshot, id: Id, source: Source)
    requires Good(s)
    ensures Good(AfterPublish(s, id, source)) && Extends(s, AfterPublish(s, id, source))
  {
    SelfExtends(s);
    var at := RoundAt(s.rounds, id);
    if CanPublish(s, id, source) && !s.rounds[at].published {
      var later := PublishedRounds(s.rounds, s.currentRound, at, source);
      PublishedChain(s.rounds, s.currentRound, at, source);
      PublishedGrow(s.rounds, s.currentRound, at, source);
      RoundContentsKept(s, later);
      hide DistinctInputs, AmendsEarlier, NamesOk, ReceiptsOk, RoundsOk, QuestionsOk, SequencesOk, JustifiedRounds,
        PlanningOk;
      hide DeliveriesOk, InputsGrow, RoundsGrow, PublishedRounds;
    }
  }

  lemma PublishedGrow(rounds: seq<Round>, currentRound: Id, at: nat, source: Source)
    requires at < |rounds| && !rounds[at].published
    ensures RoundsGrow(rounds, PublishedRounds(rounds, currentRound, at, source))
    ensures forall i :: 0 <= i < |rounds| ==>
              PublishedRounds(rounds, currentRound, at, source)[i].resolutions == rounds[i].resolutions
  {
  }

  lemma FailedChain(rounds: seq<Round>, currentRound: Id, at: nat)
    requires RoundsOk(rounds, currentRound) && at < |rounds| && !rounds[at].published
    ensures RoundsOk(rounds[at := rounds[at].(publicationFailed := true)], currentRound)
  {
    var later := rounds[at := rounds[at].(publicationFailed := true)];
    hide RoundIdsOk, OnePending;
    FailedIds(rounds, at);
    assert forall i :: 0 <= i < |rounds| ==> later[i] == rounds[i].(publicationFailed := later[i].publicationFailed);
    forall i, j {:trigger NoneBetween(later, i, j)} | NoneBetween(later, i, j) ensures NoneBetween(rounds, i, j) {
      NoneBetweenKept(rounds, later, i, j);
    }
    forall i, j {:trigger NoneBetween(rounds, i, j)} | NoneBetween(rounds, i, j) ensures NoneBetween(later, i, j) {
      NoneBetweenKept(later, rounds, i, j);
    }
    hide NoneBetween;
  }

  lemma FailedIds(rounds: seq<Round>, at: nat)
    requires RoundIdsOk(rounds) && OnePending(rounds) && at < |rounds| && !rounds[at].published
    ensures var later := rounds[at := rounds[at].(publicationFailed := true)]; RoundIdsOk(later) && OnePending(later)
  {
  }

  lemma FailGood(s: Snapshot, id: Id)
    requires Good(s)
    ensures Good(AfterFail(s, id)) && Extends(s, AfterFail(s, id))
  {
    SelfExtends(s);
    var at := RoundAt(s.rounds, id);
    if CanFail(s, id) {
      var later := s.rounds[at := s.rounds[at].(publicationFailed := true)];
      FailedChain(s.rounds, s.currentRound, at);
      FailedGrow(s.rounds, at);
      RoundContentsKept(s, later);
      hide DistinctInputs, AmendsEarlier, NamesOk, ReceiptsOk, RoundsOk, QuestionsOk, SequencesOk, JustifiedRounds,
        PlanningOk;
      hide DeliveriesOk, InputsGrow, RoundsGrow;
    }
  }

  lemma FailedGrow(rounds: seq<Round>, at: nat)
    requires at < |rounds|
    ensures RoundsGrow(rounds, rounds[at := rounds[at].(publicationFailed := true)])
  {
  }

  // ----- Request -----

  lemma {:induction false} LatestIs(rs: seq<Resolution>, question: Id)
    ensures Latest(rs, question).None? <==> forall k :: 0 <= k < |rs| ==> rs[k].questionId != question
    ensures Latest(rs, question).Some? ==>
            Latest(rs, question).value in rs && Latest(rs, question).value.questionId == question
  {
    if |rs| > 0 {
      LatestIs(rs[..|rs| - 1], question);
    }
  }

  lemma {:induction false} InheritedFrom(s: Snapshot, round: Round, questions: seq<Question>)
    requires DistinctQuestions(questions)
    ensures forall r :: r in Inherited(s, round, questions) ==> r in round.resolutions && Asks(questions, r.questionId)
    ensures forall j, k :: 0 <= j < k < |Inherited(s, round, questions)| ==>
              Inherited(s, round, questions)[j].questionId != Inherited(s, round, questions)[k].questionId
  {
    if |questions| > 0 {
      var shorter := questions[..|questions| - 1];
      var q := questions[|questions| - 1].id;
      InheritedFrom(s, round, shorter);
      LatestIs(round.resolutions, q);
      hide Settled, Current;
      forall r | r in Inherited(s, round, shorter) ensures Asks(questions, r.questionId) && r.questionId != q {
        var k :| 0 <= k < |shorter| && shorter[k].id == r.questionId;
        assert questions[k] == shorter[k];
      }
    }
  }

  /** A round that starts with at most one interpretation per question has nothing to justify yet. */
  lemma DistinctInOrder(inputs: seq<Input>, asr: seq<Assessment>, rs: seq<Resolution>)
    requires forall j, k :: 0 <= j < k < |rs| ==> rs[j].questionId != rs[k].questionId
    ensures InOrder(rs) && Justified(inputs, asr, rs)
  {
    forall k | 0 <= k < |rs| ensures InOrderAt(rs, k) && JustifiedAt(inputs, asr, rs, k) {
      LatestIs(rs[..k], rs[k].questionId);
    }
  }

  lemma RequestedSequences(rounds: seq<Round>, bound: nat, round: Round, from: nat)
    requires SequencesOk(rounds, bound) && InOrder(round.resolutions)
    requires round.resolutions == [] || from < |rounds|
    requires forall r :: r in round.resolutions ==> r in rounds[from].resolutions && Asks(round.questions, r.questionId)
    ensures SequencesOk(rounds + [round], bound)
  {
    var later := rounds + [round];
    hide InOrder, Asks;
    forall k | 0 <= k < |round.resolutions|
      ensures 1 <= round.resolutions[k].sequence <= bound && Asks(round.questions, round.resolutions[k].questionId)
    {
      assert round.resolutions[k] in rounds[from].resolutions;
      assert Within(rounds[from].resolutions, bound, rounds[from].questions);
    }
    forall i, j | 0 <= i < |later| && 0 <= j < |later| ensures Agree(later[i].resolutions, later[j].resolutions) {
      if round.resolutions != [] {
        var a := if i < |rounds| then i else from;
        var b := if j < |rounds| then j else from;
        assert Agree(rounds[a].resolutions, rounds[b].resolutions);
        AgreeSubset(rounds[a].resolutions, rounds[b].resolutions, later[i].resolutions, later[j].resolutions);
      } else if i < |rounds| && j < |rounds| {
        assert Agree(rounds[i].resolutions, rounds[j].resolutions);
      }
    }
    forall i | 0 <= i < |later|
      ensures InOrder(later[i].resolutions) && Within(later[i].resolutions, bound, later[i].questions)
    {
      if i < |rounds| {
        assert InOrder(rounds[i].resolutions) && Within(rounds[i].resolutions, bound, rounds[i].questions);
      }
    }
  }

  lemma AgreeSubset(a: seq<Resolution>, b: seq<Resolution>, a': seq<Resolution>, b': seq<Resolution>)
    requires Agree(a, b)
    requires (forall r :: r in a' ==> r in a) && forall r :: r in b' ==> r in b
    ensures Agree(a', b')
  {
    forall k, m | 0 <= k < |a'| && 0 <= m < |b'| && a'[k].sequence == b'[m].sequence ensures a'[k] == b'[m] {
      assert a'[k] in a && b'[m] in b;
      var x :| 0 <= x < |a| && a[x] == a'[k];
      var y :| 0 <= y < |b| && b[y] == b'[m];
    }
  }

  lemma RequestedChain(rounds: seq<Round>, currentRound: Id, round: Round)
    requires RoundsOk(rounds, currentRound)
    requires forall i :: 0 <= i < |rounds| ==>
             (rounds[i].published || rounds[i].publicationFailed) && rounds[i].id != round.id
    requires round.id != NO_ID && !round.published && !round.publicationFailed
    requires round.supersedes == currentRound && round.supersededBy == NO_ID
    ensures RoundsOk(rounds + [round], currentRound)
  {
    var later := rounds + [round];
    assert RoundIdsOk(later) && OnePending(later);
    hide RoundIdsOk, OnePending;
    forall i, j {:trigger NoneBetween(later, i, j)} | 0 <= i < j < |later| && later[i].published &&
      NoneBetween(later, i, j)
      ensures later[j].supersedes == later[i].id
      ensures later[j].published ==> later[i].supersededBy == later[j].id
    {
      NoneBetweenPrefix(rounds, round, i, j);
    }
    forall i {:trigger NoneBetween(later, i, |later|)} | 0 <= i < |later| && later[i].published &&
      NoneBetween(later, i, |later|)
      ensures later[i].supersededBy == NO_ID && later[i].id == currentRound
    {
      NoneBetweenPrefix(rounds, round, i, |rounds|);
    }
    forall j {:trigger NoneBetween(later, -1, j)} | 0 <= j < |later| && NoneBetween(later, -1, j)
      ensures later[j].supersedes == NO_ID
    {
      NoneBetweenPrefix(rounds, round, -1, j);
    }
    if NoneBetween(later, -1, |later|) {
      NoneBetweenPrefix(rounds, round, -1, |rounds|);
    }
  }

  lemma NoneBetweenPrefix(rounds: seq<Round>, round: Round, i: int, j: int)
    requires NoneBetween(rounds + [round], i, j) || (j == |rounds| && NoneBetween(rounds + [round], i, j + 1))
    ensures NoneBetween(rounds, i, j)
  {
    forall k | 0 <= k < |rounds| && i < k < j ensures !rounds[k].published {
      assert !(rounds + [round])[k].published;
    }
  }

  lemma RequestedQuestions(rounds: seq<Round>, round: Round)
    requires QuestionsOk(rounds) && |round.questions| > 0 && DistinctQuestions(round.questions)
    requires forall i :: 0 <= i < |rounds| ==> SameWording(rounds[i].questions, round.questions)
    ensures QuestionsOk(rounds + [round])
  {
    var later := rounds + [round];
    forall i, j | 0 <= i < |later| && 0 <= j < |later| ensures SameWording(later[i].questions, later[j].questions) {
      if i < |rounds| && j < |rounds| {
        assert SameWording(rounds[i].questions, rounds[j].questions);
      } else if i < |rounds| {
        assert SameWording(rounds[i].questions, round.questions);
      } else if j < |rounds| {
        assert SameWording(rounds[j].questions, round.questions);
      }
    }
  }

  lemma RequestedName(s: Snapshot, id: Id)
    requires NamesOk(s.references, s.rounds, s.inputs)
    requires forall i :: 0 <= i < |s.rounds| ==> s.rounds[i].id != id
    ensures NameFor(s.references, RoundRef, id) == Name(RoundRef, |s.rounds| + 1)
    ensures forall round: Round :: round.id == id && round.reference == Name(RoundRef, |s.rounds| + 1) ==>
              NamesOk(Allocate(s.references, RoundRef, id), s.rounds + [round], s.inputs)
    ensures s.references <= Allocate(s.references, RoundRef, id)
  {
    hide Numbered, Named, NameFor, Allocate, Name, InputIds, RoundIds, RefAt;
    NamedContains(s.references, RoundRef, id);
    RoundIdsAre(s.rounds, id);
    AllocateExtends(s.references, RoundRef, id);
    AllocateNumbered(s.references, RoundRef, id);
    AllocateNamed(s.references, RoundRef, id, InputRef);
    AllocateNamed(s.references, RoundRef, id, RoundRef);
    forall round: Round | round.id == id && round.reference == Name(RoundRef, |s.rounds| + 1)
      ensures NamesOk(Allocate(s.references, RoundRef, id), s.rounds + [round], s.inputs)
    {
      RoundIdsSnoc(s.rounds, round);
    }
  }

  lemma JustifiedAdded(inputs: seq<Input>, asr: seq<Assessment>, rounds: seq<Round>, round: Round)
    requires JustifiedRounds(inputs, asr, rounds) && Justified(inputs, asr, round.resolutions)
    ensures JustifiedRounds(inputs, asr, rounds + [round])
  {
    hide Justified;
    forall i | 0 <= i < |rounds + [round]| ensures Justified(inputs, asr, (rounds + [round])[i].resolutions) {
      if i < |rounds| {
        assert Justified(inputs, asr, rounds[i].resolutions);
      }
    }
  }

  lemma RequestedRound(s: Snapshot, id: Id, participant: Id, turn: Id, head: Id, questions: seq<Question>)
    requires Good(s) && CanRequest(s, id, participant, turn, questions)
    ensures RoundsOk(s.rounds + [NewRound(s, id, participant, turn, head, questions)], s.currentRound)
    ensures SequencesOk(s.rounds + [NewRound(s, id, participant, turn, head, questions)], s.interpretationSequence)
    ensures JustifiedRounds(s.inputs, s.assessments, s.rounds + [NewRound(s, id, participant, turn, head, questions)])
    ensures QuestionsOk(s.rounds + [NewRound(s, id, participant, turn, head, questions)])
  {
    var round := NewRound(s, id, participant, turn, head, questions);
    var at := RoundAt(s.rounds, s.currentRound);
    if at >= 0 {
      InheritedFrom(s, s.rounds[at], questions);
    }
    DistinctInOrder(s.inputs, s.assessments, round.resolutions);
    RequestedChain(s.rounds, s.currentRound, round);
    RequestedQuestions(s.rounds, round);
    JustifiedAdded(s.inputs, s.assessments, s.rounds, round);
    hide RoundsOk, QuestionsOk, JustifiedRounds, SequencesOk, InOrder, Justified, Settled;
    RequestedSequences(s.rounds, s.interpretationSequence, round, if at >= 0 then at else 0);
  }

  lemma RequestGood(s: Snapshot, id: Id, participant: Id, turn: Id, head: Id, questions: seq<Question>)
    requires Good(s)
    ensures Good(AfterRequest(s, id, participant, turn, head, questions))
    ensures Extends(s, AfterRequest(s, id, participant, turn, head, questions))
  {
    SelfExtends(s);
    if CanRequest(s, id, participant, turn, questions) {
      var round := NewRound(s, id, participant, turn, head, questions);
      RequestedRound(s, id, participant, turn, head, questions);
      RequestedName(s, id);
      PlanningInputsKept(s.planning, s.inputs, s.inputs, s.references, Allocate(s.references, RoundRef, id));
      assert RoundsGrow(s.rounds, s.rounds + [round]);
      hide DistinctInputs, AmendsEarlier, NamesOk, ReceiptsOk, RoundsOk, QuestionsOk, SequencesOk, JustifiedRounds,
        PlanningOk;
      hide DeliveriesOk, InputsGrow, RoundsGrow, Allocate, CanRequest;
    }
  }

  // ----- Assess -----

  lemma {:induction false} ConfirmationsMember(inputs: seq<Input>, id: Id)
    ensures id in Confirmations(inputs) <==> IsConfirmation(inputs, id)
  {
    if |inputs| > 0 {
      var shorter := inputs[..|inputs| - 1];
      ConfirmationsMember(shorter, id);
      if IsConfirmation(shorter, id) {
        var i :| 0 <= i < |shorter| && shorter[i].id == id && shorter[i].kind == ConfirmPlan;
        assert inputs[i] == shorter[i];
      }
    }
  }

  /** Withdrawing through input `n` moves the cutoff there, or leaves it where it already is. */
  lemma {:induction false} InvalidateMovesCutoff(inputs: seq<Input>, k: nat, n: nat)
    requires DistinctInputs(inputs) && k <= |inputs| && n <= |inputs|
    ensures Invalidate(Confirmations(inputs[..k]), inputs, n) == Confirmations(inputs[..Max(k, n)])
  {
    hide Confirmations, IsConfirmation, DistinctInputs;
    if n > 0 {
      InvalidateMovesCutoff(inputs, k, n - 1);
      CutoffStep(inputs, Max(k, n - 1), n);
    }
  }

  lemma CutoffStep(inputs: seq<Input>, reached: nat, n: nat)
    requires DistinctInputs(inputs) && 0 < n <= |inputs| && n - 1 <= reached <= |inputs|
    ensures var last := inputs[n - 1];
            Confirmations(inputs[..Max(reached, n)]) ==
              if last.kind == ConfirmPlan && last.id !in Confirmations(inputs[..reached])
              then Confirmations(inputs[..reached]) + [last.id] else Confirmations(inputs[..reached])
  {
    var before := inputs[..reached];
    ConfirmationsMember(before, inputs[n - 1].id);
    if n - 1 < reached {
      if inputs[n - 1].kind == ConfirmPlan {
        assert before[n - 1] == inputs[n - 1];
      }
    } else {
      assert inputs[..n][..n - 1] == before;
      assert !IsConfirmation(before, inputs[n - 1].id);
    }
  }

  lemma {:induction false} WithdrawnMovesCutoff(invalidated: seq<Id>, inputs: seq<Input>, batch: seq<Assessment>)
    requires DistinctInputs(inputs) && Cutoff(invalidated, inputs)
    ensures Cutoff(Withdrawn(invalidated, inputs, batch), inputs)
  {
    if |batch| > 0 {
      WithdrawnMovesCutoff(invalidated, inputs, batch[..|batch| - 1]);
      var before := Withdrawn(invalidated, inputs, batch[..|batch| - 1]);
      var k :| 0 <= k <= |inputs| && before == Confirmations(inputs[..k]);
      InvalidateMovesCutoff(inputs, k, Reach(inputs, batch[|batch| - 1].inputId));
    }
  }

  lemma {:induction false} InvalidateExtends(invalidated: seq<Id>, inputs: seq<Input>, n: nat)
    requires n <= |inputs|
    ensures invalidated <= Invalidate(invalidated, inputs, n)
  {
    if n > 0 {
      InvalidateExtends(invalidated, inputs, n - 1);
    }
  }

  lemma {:induction false} WithdrawnExtends(invalidated: seq<Id>, inputs: seq<Input>, batch: seq<Assessment>)
    ensures invalidated <= Withdrawn(invalidated, inputs, batch)
  {
    if |batch| > 0 {
      var last := batch[|batch| - 1];
      WithdrawnExtends(invalidated, inputs, batch[..|batch| - 1]);
      InvalidateExtends(Withdrawn(invalidated, inputs, batch[..|batch| - 1]), inputs, Reach(inputs, last.inputId));
    }
  }

  lemma AssessGood(s: Snapshot, operation: Id, participant: Id, turn: Id, batch: seq<Assessment>)
    requires Good(s)
    ensures Good(AfterAssess(s, operation, participant, turn, batch))
    ensures Extends(s, AfterAssess(s, operation, participant, turn, batch))
  {
    hide Good, Extends, CanAssess, Recorded, Withdrawn, PlanningOk, PlanningGrows;
    if CanAssess(s, operation, participant, turn, batch) {
      var assessed := s.(assessments := s.assessments + Recorded(operation, batch));
      AssessedGood(s, Recorded(operation, batch));
      if s.planning.Some? && s.planning.value.readyRevision == NO_ID {
        var p := s.planning.value.(invalidated := Withdrawn(s.planning.value.invalidated, s.inputs, batch));
        WithdrawnPlanning(s, batch);
        NewPlanningGood(assessed, p);
        ExtendsTransitive(s, assessed, assessed.(planning := Some(p)));
      }
    } else {
      SelfExtends(s);
    }
  }

  lemma AssessedGood(s: Snapshot, added: seq<Assessment>)
    requires Good(s)
    ensures Good(s.(assessments := s.assessments + added)) && Extends(s, s.(assessments := s.assessments + added))
  {
    hide DistinctInputs, AmendsEarlier, NamesOk, ReceiptsOk, RoundsOk, QuestionsOk, SequencesOk, JustifiedRounds,
      PlanningOk, DeliveriesOk, InputsGrow, RoundsGrow, PlanningGrows;
    SelfExtends(s);
    JustifiedRoundsKept(s.inputs, s.inputs, s.assessments, s.assessments + added, s.rounds);
  }

  lemma WithdrawnPlanning(s: Snapshot, batch: seq<Assessment>)
    requires Good(s) && s.planning.Some?
    ensures var p := s.planning.value.(invalidated := Withdrawn(s.planning.value.invalidated, s.inputs, batch));
            PlanningOk(Some(p), s.inputs, s.references) && PlanningGrows(s.planning, Some(p))
  {
    hide NamesOk, ReceiptsOk, RoundsOk, QuestionsOk, SequencesOk, JustifiedRounds, DeliveriesOk, AmendsEarlier;
    hide DistinctInputs, Cutoff, RevisionChain, OnePendingRevision, Withdrawn, InputsGrow, RoundsGrow;
    SelfExtends(s);
    WithdrawnMovesCutoff(s.planning.value.invalidated, s.inputs, batch);
    WithdrawnExtends(s.planning.value.invalidated, s.inputs, batch);
  }

  // ----- Resolve -----

  lemma {:induction false} LatestAppend(rs: seq<Resolution>, added: seq<Resolution>, question: Id)
    requires forall k :: 0 <= k < |added| ==> added[k].questionId != question
    ensures Latest(rs + added, question) == Latest(rs, question)
  {
    if |added| > 0 {
      assert (rs + added)[..|rs + added| - 1] == rs + added[..|added| - 1];
      LatestAppend(rs, added[..|added| - 1], question);
    } else {
      assert rs + added == rs;
    }
  }

  /** The interpretations of one operation concern different questions, so each follows what stood before. */
  lemma LatestBefore(rs: seq<Resolution>, added: seq<Resolution>, k: nat)
    requires k < |added| && forall i, j :: 0 <= i < j < |added| ==> added[i].questionId != added[j].questionId
    ensures (rs + added)[|rs| + k] == added[k]
    ensures Latest((rs + added)[..|rs| + k], added[k].questionId) == Latest(rs, added[k].questionId)
  {
    assert (rs + added)[..|rs| + k] == rs + added[..k];
    LatestAppend(rs, added[..k], added[k].questionId);
  }

  predicate DistinctTopics(rs: seq<Resolution>) {
    forall i, j :: 0 <= i < j < |rs| ==> rs[i].questionId != rs[j].questionId
  }

  /** What makes an addition to a round acceptable. */
  ghost predicate Addition(inputs: seq<Input>, asr: seq<Assessment>, round: Round, bound: nat, added: seq<Resolution>) {
    && DistinctTopics(added)
    && (forall g :: g in added ==>
          g.sequence > bound && Asks(round.questions, g.questionId) &&
          CanRevise(inputs, asr, Latest(round.resolutions, g.questionId), g))
  }

  lemma AppendedInOrder(inputs: seq<Input>, asr: seq<Assessment>, round: Round, bound: nat, added: seq<Resolution>)
    requires InOrder(round.resolutions) && Within(round.resolutions, bound, round.questions)
    requires Addition(inputs, asr, round, bound, added)
    ensures InOrder(round.resolutions + added)
  {
    var rs := round.resolutions;
    forall k | 0 <= k < |rs + added| ensures InOrderAt(rs + added, k) {
      if k < |rs| {
        assert InOrderAt(rs, k) && (rs + added)[..k] == rs[..k];
      } else {
        LatestBefore(rs, added, k - |rs|);
        LatestIs(rs, added[k - |rs|].questionId);
        assert added[k - |rs|] in added;
      }
    }
  }

  lemma AppendedJustified(inputs: seq<Input>, asr: seq<Assessment>, round: Round, bound: nat, added: seq<Resolution>)
    requires Justified(inputs, asr, round.resolutions) && Addition(inputs, asr, round, bound, added)
    ensures Justified(inputs, asr, round.resolutions + added)
  {
    var rs := round.resolutions;
    hide CanRevise;
    forall k | 0 <= k < |rs + added| ensures JustifiedAt(inputs, asr, rs + added, k) {
      if k < |rs| {
        assert JustifiedAt(inputs, asr, rs, k) && (rs + added)[..k] == rs[..k];
      } else {
        LatestBefore(rs, added, k - |rs|);
        assert added[k - |rs|] in added;
      }
    }
  }

  lemma {:induction false} AboutIs(rs: seq<Resolution>, questions: seq<Question>)
    ensures forall g :: g in About(rs, questions) <==> g in rs && Asks(questions, g.questionId)
    ensures DistinctTopics(rs) ==> DistinctTopics(About(rs, questions))
  {
    if |rs| > 0 {
      var shorter := rs[..|rs| - 1];
      AboutIs(shorter, questions);
      assert rs == shorter + [rs[|rs| - 1]];
      hide Asks;
    }
  }

  /** An interpretation keeps its standing when coverage and number are filled in. */
  lemma SequencedKeeps(s: Snapshot, rs: seq<Resolution>, g: Resolution) returns (k: nat)
    requires g in Sequenced(s, rs)
    ensures k < |rs| && g == Sequenced(s, rs)[k] && g.sequence == s.interpretationSequence + k + 1
    ensures g.questionId == rs[k].questionId && g.responseIds == rs[k].responseIds && g.obsolete == rs[k].obsolete
  {
    k :| 0 <= k < |Sequenced(s, rs)| && Sequenced(s, rs)[k] == g;
  }

  lemma ResolvedAddition(s: Snapshot, round: Id, turn: Id, rs: seq<Resolution>, j: nat)
    requires RoundsOk(s.rounds, s.currentRound) && CanResolve(s, round, turn, rs) && j < |s.rounds|
    ensures Addition(s.inputs, s.assessments, s.rounds[j], s.interpretationSequence,
                     Gains(s, RoundAt(s.rounds, round), j, Sequenced(s, rs)))
    ensures forall g :: g in Gains(s, RoundAt(s.rounds, round), j, Sequenced(s, rs)) ==> g in Sequenced(s, rs)
  {
    hide RoundsOk, Resolvable, CanRevise, Current, Covering, Sequenced, About, Asks;
    var at := RoundAt(s.rounds, round);
    var recorded := Sequenced(s, rs);
    var gains := Gains(s, at, j, recorded);
    AboutIs(recorded, s.rounds[j].questions);
    SequencedDistinct(s, rs);
    if j == at {
      CurrentIsNotSuperseded(s.rounds, s.currentRound, at);
      assert gains == recorded;
    }
    forall g | g in gains
      ensures g.sequence > s.interpretationSequence && Asks(s.rounds[j].questions, g.questionId)
      ensures CanRevise(s.inputs, s.assessments, Latest(s.rounds[j].resolutions, g.questionId), g)
    {
      var k := SequencedKeeps(s, rs, g);
      assert Resolvable(s, s.rounds[at], rs[k]);
      assert j != at ==> s.rounds[at].supersededBy != NO_ID && Receives(s, s.rounds[at], s.rounds[j], rs[k].questionId);
      ResolvableRevises(s, s.rounds[at], rs[k], if j == at then s.rounds[at] else s.rounds[j]);
      CanReviseSame(s.inputs, s.assessments, Latest(s.rounds[j].resolutions, g.questionId), rs[k], g);
    }
  }

  lemma SequencedDistinct(s: Snapshot, rs: seq<Resolution>)
    requires forall j, k :: 0 <= j < k < |rs| ==> rs[j].questionId != rs[k].questionId
    ensures DistinctTopics(Sequenced(s, rs))
  {
  }

  lemma CurrentIsNotSuperseded(rounds: seq<Round>, currentRound: Id, at: nat)
    requires RoundsOk(rounds, currentRound) && at < |rounds|
    ensures rounds[at].id == currentRound ==> rounds[at].supersededBy == NO_ID
  {
    CurrentIsPublished(rounds, currentRound);
    if rounds[at].id == currentRound {
      assert NoneBetween(rounds, at, |rounds|);
    }
  }

  lemma ResolvableRevises(s: Snapshot, round: Round, r: Resolution, other: Round)
    requires Resolvable(s, round, r)
    requires other == round ||
             (round.supersededBy != NO_ID && other in s.rounds && Receives(s, round, other, r.questionId))
    ensures Asks(other.questions, r.questionId)
    ensures CanRevise(s.inputs, s.assessments, Latest(other.resolutions, r.questionId), r)
  {
    hide CanRevise, Citable, Latest, Asks;
  }

  lemma CanReviseSame(inputs: seq<Input>, asr: seq<Assessment>, old_: Option<Resolution>, a: Resolution, b: Resolution)
    requires a.responseIds == b.responseIds && a.obsolete == b.obsolete
    ensures CanRevise(inputs, asr, old_, a) <==> CanRevise(inputs, asr, old_, b)
  {
  }

  lemma ResolvedRounds(s: Snapshot, round: Id, turn: Id, rs: seq<Resolution>)
    requires RoundsOk(s.rounds, s.currentRound) && SequencesOk(s.rounds, s.interpretationSequence)
    requires JustifiedRounds(s.inputs, s.assessments, s.rounds) && CanResolve(s, round, turn, rs)
    ensures SequencesOk(AfterResolve(s, round, turn, rs).rounds, s.interpretationSequence + |rs|)
    ensures JustifiedRounds(s.inputs, s.assessments, AfterResolve(s, round, turn, rs).rounds)
  {
    var at := RoundAt(s.rounds, round);
    var recorded := Sequenced(s, rs);
    var bound := s.interpretationSequence;
    var later := RecordedRounds(s, at, recorded);
    hide CanResolve, RoundsOk, Sequenced, Gains;
    forall i | 0 <= i < |later|
      ensures InOrder(later[i].resolutions) && Justified(s.inputs, s.assessments, later[i].resolutions)
      ensures Within(later[i].resolutions, bound + |rs|, later[i].questions)
    {
      ResolvedAddition(s, round, turn, rs, i);
      var gains := Gains(s, at, i, recorded);
      assert InOrder(s.rounds[i].resolutions) && Within(s.rounds[i].resolutions, bound, s.rounds[i].questions);
      AppendedInOrder(s.inputs, s.assessments, s.rounds[i], bound, gains);
      AppendedJustified(s.inputs, s.assessments, s.rounds[i], bound, gains);
      AppendedWithin(s, rs, s.rounds[i], gains);
    }
    forall i, j | 0 <= i < |later| && 0 <= j < |later| ensures Agree(later[i].resolutions, later[j].resolutions) {
      ResolvedAddition(s, round, turn, rs, i);
      ResolvedAddition(s, round, turn, rs, j);
      assert Agree(s.rounds[i].resolutions, s.rounds[j].resolutions);
      AppendedAgree(s, rs, s.rounds[i], s.rounds[j], Gains(s, at, i, recorded), Gains(s, at, j, recorded));
    }
  }

  lemma AppendedWithin(s: Snapshot, rs: seq<Resolution>, round: Round, added: seq<Resolution>)
    requires Within(round.resolutions, s.interpretationSequence, round.questions)
    requires Addition(s.inputs, s.assessments, round, s.interpretationSequence, added)
    requires forall g :: g in added ==> g in Sequenced(s, rs)
    ensures Within(round.resolutions + added, s.interpretationSequence + |rs|, round.questions)
  {
    hide Asks, CanRevise, Sequenced;
    var all := round.resolutions + added;
    forall k | 0 <= k < |all|
      ensures 1 <= all[k].sequence <= s.interpretationSequence + |rs| && Asks(round.questions, all[k].questionId)
    {
      if k >= |round.resolutions| {
        assert all[k] in added;
        var n := SequencedKeeps(s, rs, all[k]);
      }
    }
  }

  lemma AppendedAgree(
    s: Snapshot, rs: seq<Resolution>, a: Round, b: Round, added: seq<Resolution>, added': seq<Resolution>)
    requires Agree(a.resolutions, b.resolutions)
    requires Within(a.resolutions, s.interpretationSequence, a.questions)
    requires Within(b.resolutions, s.interpretationSequence, b.questions)
    requires (forall g :: g in added ==> g in Sequenced(s, rs)) && forall g :: g in added' ==> g in Sequenced(s, rs)
    ensures Agree(a.resolutions + added, b.resolutions + added')
  {
    hide Asks, Sequenced;
    var x, y := a.resolutions + added, b.resolutions + added';
    forall k, m | 0 <= k < |x| && 0 <= m < |y| && x[k].sequence == y[m].sequence ensures x[k] == y[m] {
      if k >= |a.resolutions| {
        assert x[k] in added;
        var n := SequencedKeeps(s, rs, x[k]);
      }
      if m >= |b.resolutions| {
        assert y[m] in added';
        var n := SequencedKeeps(s, rs, y[m]);
      }
    }
  }

  lemma ResolvedGrow(s: Snapshot, at: nat, recorded: seq<Resolution>)
    requires at < |s.rounds|
    ensures RoundsGrow(s.rounds, RecordedRounds(s, at, recorded))
  {
    hide Gains;
  }

  lemma ResolvedContents(s: Snapshot, at: nat, recorded: seq<Resolution>)
    requires at < |s.rounds| && RoundsOk(s.rounds, s.currentRound) && QuestionsOk(s.rounds)
    requires NamesOk(s.references, s.rounds, s.inputs)
    ensures RoundsOk(RecordedRounds(s, at, recorded), s.currentRound) && QuestionsOk(RecordedRounds(s, at, recorded))
    ensures NamesOk(s.references, RecordedRounds(s, at, recorded), s.inputs)
  {
    hide Gains;
    var later := RecordedRounds(s, at, recorded);
    assert RoundIds(later) == RoundIds(s.rounds);
    QuestionsKept(s.rounds, later);
    ChainKept(s.rounds, later, s.currentRound);
    hide RoundsOk, QuestionsOk, Numbered, Named;
  }

  /** Interpretations are no part of the chain of rounds. */
  lemma ChainKept(rounds: seq<Round>, later: seq<Round>, currentRound: Id)
    requires RoundsOk(rounds, currentRound) && |later| == |rounds|
    requires forall i :: 0 <= i < |rounds| ==> later[i] == rounds[i].(resolutions := later[i].resolutions)
    ensures RoundsOk(later, currentRound)
  {
    assert RoundIdsOk(later) && OnePending(later);
    hide RoundIdsOk, OnePending;
    forall i, j {:trigger NoneBetween(later, i, j)} | NoneBetween(later, i, j) ensures NoneBetween(rounds, i, j) {
      NoneBetweenKept(rounds, later, i, j);
    }
    forall i, j {:trigger NoneBetween(rounds, i, j)} | NoneBetween(rounds, i, j) ensures NoneBetween(later, i, j) {
      NoneBetweenKept(later, rounds, i, j);
    }
    hide NoneBetween;
  }

  lemma ResolveGood(s: Snapshot, round: Id, turn: Id, rs: seq<Resolution>)
    requires Good(s)
    ensures Good(AfterResolve(s, round, turn, rs)) && Extends(s, AfterResolve(s, round, turn, rs))
  {
    hide DistinctInputs, AmendsEarlier, NamesOk, ReceiptsOk, RoundsOk, QuestionsOk, SequencesOk, JustifiedRounds,
      PlanningOk;
    hide DeliveriesOk, InputsGrow, RoundsGrow, RecordedRounds, Sequenced, Resolvable, PlanningGrows;
    SelfExtends(s);
    if CanResolve(s, round, turn, rs) {
      var at := RoundAt(s.rounds, round);
      ResolvedRounds(s, round, turn, rs);
      ResolvedGrow(s, at, Sequenced(s, rs));
      ResolvedContents(s, at, Sequenced(s, rs));
    }
  }

  // ----- Planning -----

  lemma StartGood(s: Snapshot, original: OriginalRequest)
    requires Good(s)
    ensures Good(AfterStart(s, original)) && Extends(s, AfterStart(s, original))
  {
    SelfExtends(s);
    if CanStart(s, original) && s.planning.None? {
      var p := Planning([], [], original, [], NO_ID, NO_ID, []);
      assert p.invalidated == Confirmations(s.inputs[..0]);
      assert PlanningOk(Some(p), s.inputs, s.references);
      hide DistinctInputs, AmendsEarlier, NamesOk, ReceiptsOk, RoundsOk, QuestionsOk, SequencesOk, JustifiedRounds,
        PlanningOk;
      hide DeliveriesOk, InputsGrow, RoundsGrow;
    }
  }

  lemma NoRevisionBetweenKept(revisions: seq<Revision>, later: seq<Revision>, i: int, j: int)
    requires |revisions| <= |later| && j <= |revisions| && NoRevisionBetween(later, i, j)
    requires forall k :: 0 <= k < |revisions| && revisions[k].published ==> later[k].published
    ensures NoRevisionBetween(revisions, i, j)
  {
    forall k | 0 <= k < |revisions| && i < k < j ensures !revisions[k].published {
      assert !later[k].published;
    }
  }

  lemma ReservedChain(revisions: seq<Revision>, currentRevision: Id, r: Revision)
    requires RevisionChain(revisions, currentRevision) && r.supersedes == currentRevision && !r.published
    ensures RevisionChain(revisions + [r], currentRevision)
  {
    var later := revisions + [r];
    forall i, j {:trigger NoRevisionBetween(later, i, j)} |
      0 <= i < j < |later| && later[i].published && NoRevisionBetween(later, i, j)
      ensures later[j].supersedes == later[i].id
    {
      NoRevisionBetweenKept(revisions, later, i, j);
    }
    forall j {:trigger NoRevisionBetween(later, -1, j)} | 0 <= j < |later| && NoRevisionBetween(later, -1, j)
      ensures later[j].supersedes == NO_ID
    {
      NoRevisionBetweenKept(revisions, later, -1, j);
    }
    forall i {:trigger NoRevisionBetween(later, i, |later|)} |
      0 <= i < |later| && later[i].published && NoRevisionBetween(later, i, |later|)
      ensures later[i].id == currentRevision
    {
      assert NoRevisionBetween(later, i, |revisions|);
      NoRevisionBetweenKept(revisions, later, i, |revisions|);
    }
    if NoRevisionBetween(later, -1, |later|) {
      assert NoRevisionBetween(later, -1, |revisions|);
      NoRevisionBetweenKept(revisions, later, -1, |revisions|);
    }
  }

  lemma ConfirmedChain(revisions: seq<Revision>, currentRevision: Id, at: nat, source: Source)
    requires RevisionChain(revisions, currentRevision) && at == |revisions| - 1 && !revisions[at].published
    ensures RevisionChain(revisions[at := revisions[at].(published := true, source := Some(source))], revisions[at].id)
  {
    var later := revisions[at := revisions[at].(published := true, source := Some(source))];
    forall i, j {:trigger NoRevisionBetween(later, i, j)} |
      0 <= i < j < |later| && later[i].published && NoRevisionBetween(later, i, j)
      ensures later[j].supersedes == later[i].id
    {
      NoRevisionBetweenKept(revisions, later, i, j);
    }
    forall j {:trigger NoRevisionBetween(later, -1, j)} | 0 <= j < |later| && NoRevisionBetween(later, -1, j)
      ensures later[j].supersedes == NO_ID
    {
      NoRevisionBetweenKept(revisions, later, -1, j);
    }
    assert later[at].published;
  }

  lemma FailedRevisionChain(revisions: seq<Revision>, currentRevision: Id, at: nat)
    requires RevisionChain(revisions, currentRevision) && at < |revisions|
    ensures RevisionChain(revisions[at := revisions[at].(publicationFailed := true)], currentRevision)
  {
    var later := revisions[at := revisions[at].(publicationFailed := true)];
    forall i, j {:trigger NoRevisionBetween(later, i, j)} | j <= |later| && NoRevisionBetween(later, i, j)
      ensures NoRevisionBetween(revisions, i, j)
    {
      NoRevisionBetweenKept(revisions, later, i, j);
    }
    hide NoRevisionBetween;
  }

  lemma PublicationsKept(p: Planning, later: Planning)
    requires RevisionIdsOk(p) && ValidationsOk(p) && RevisionsGrow(p.revisions, later.revisions)
    requires |later.revisions| == |p.revisions| && later.nonPublications == p.nonPublications
    requires later.revalidations == p.revalidations && later.readyRevision == p.readyRevision
    requires later.currentRevision == p.currentRevision || !PublishedRevision(p.revisions, later.currentRevision)
    ensures RevisionIdsOk(later) && ValidationsOk(later)
  {
    assert forall i :: 0 <= i < |p.revisions| ==> SameRevision(p.revisions[i], later.revisions[i]);
    forall id | PublishedRevision(p.revisions, id) ensures PublishedRevision(later.revisions, id) {
      var i :| 0 <= i < |p.revisions| && p.revisions[i].id == id && p.revisions[i].published;
      assert later.revisions[i].id == id && later.revisions[i].published;
    }
  }

  lemma PlanNamesKept(references: seq<Reference>, p: Planning, later: Planning)
    requires PlanNamed(references, p) && RevisionsGrow(p.revisions, later.revisions) &&
             |later.revisions| == |p.revisions|
    ensures PlanNamed(references, later)
  {
    assert forall i :: 0 <= i < |p.revisions| ==> SameRevision(p.revisions[i], later.revisions[i]);
  }

  lemma NewPlanningGood(s: Snapshot, p: Planning)
    requires Good(s) && s.planning.Some? && PlanningGrows(s.planning, Some(p)) &&
             PlanningOk(Some(p), s.inputs, s.references)
    ensures Good(s.(planning := Some(p))) && Extends(s, s.(planning := Some(p)))
  {
    SelfExtends(s);
    hide DistinctInputs, AmendsEarlier, NamesOk, ReceiptsOk, RoundsOk, QuestionsOk, SequencesOk, JustifiedRounds,
      PlanningOk;
    hide DeliveriesOk, InputsGrow, RoundsGrow, PlanningGrows;
  }

  lemma ConfirmGood(s: Snapshot, id: Id, source: Source)
    requires Good(s)
    ensures Good(AfterConfirm(s, id, source)) && Extends(s, AfterConfirm(s, id, source))
  {
    if CanConfirm(s, id, source) {
      var p := s.planning.value;
      var at := RevisionAt(p.revisions, id);
      if !p.revisions[at].published {
        ConfirmedPlanning(p, s.inputs, s.references, at, source);
        var later := p.(revisions := p.revisions[at := p.revisions[at].(published := true, source := Some(source))],
                        currentRevision := id);
        hide Good, PlanningOk, PlanningGrows, Extends;
        NewPlanningGood(s, later);
        return;
      }
    }
    SelfExtends(s);
    hide Good;
  }

  lemma ConfirmedPlanning(p: Planning, inputs: seq<Input>, references: seq<Reference>, at: nat, source: Source)
    requires PlanningOk(Some(p), inputs, references) && at < |p.revisions|
    requires !p.revisions[at].published && !p.revisions[at].publicationFailed
    ensures var later := p.(revisions := p.revisions[at := p.revisions[at].(published := true, source := Some(source))],
                            currentRevision := p.revisions[at].id);
            PlanningOk(Some(later), inputs, references) && PlanningGrows(Some(p), Some(later))
  {
    var later := p.(revisions := p.revisions[at := p.revisions[at].(published := true, source := Some(source))],
                    currentRevision := p.revisions[at].id);
    assert at == |p.revisions| - 1;
    assert OnePendingRevision(later.revisions) && RevisionsGrow(p.revisions, later.revisions);
    ConfirmedChain(p.revisions, p.currentRevision, at, source);
    assert !PublishedRevision(p.revisions, p.revisions[at].id);
    PublicationsKept(p, later);
    PlanNamesKept(references, p, later);
    hide RevisionIdsOk, OnePendingRevision, RevisionChain, Cutoff, ValidationsOk, PlanNamed, RevisionsGrow;
  }

  lemma FailCheckpointGood(s: Snapshot, id: Id)
    requires Good(s)
    ensures Good(AfterFailCheckpoint(s, id)) && Extends(s, AfterFailCheckpoint(s, id))
  {
    hide Good, PlanningOk, PlanningGrows, Extends;
    if s.planning.Some? && UnpublishedAt(s.planning.value.revisions, id) >= 0 {
      var p := s.planning.value;
      var at := UnpublishedAt(p.revisions, id);
      GoodPlanning(s);
      FailedPlanning(p, s.inputs, s.references, at);
      NewPlanningGood(s, p.(revisions := p.revisions[at := p.revisions[at].(publicationFailed := true)]));
    } else {
      SelfExtends(s);
    }
  }

  lemma FailedPlanning(p: Planning, inputs: seq<Input>, references: seq<Reference>, at: nat)
    requires PlanningOk(Some(p), inputs, references) && at < |p.revisions| && !p.revisions[at].published
    ensures var later := p.(revisions := p.revisions[at := p.revisions[at].(publicationFailed := true)]);
            PlanningOk(Some(later), inputs, references) && PlanningGrows(Some(p), Some(later))
  {
    var later := p.(revisions := p.revisions[at := p.revisions[at].(publicationFailed := true)]);
    assert OnePendingRevision(later.revisions) && RevisionsGrow(p.revisions, later.revisions);
    FailedRevisionChain(p.revisions, p.currentRevision, at);
    PublicationsKept(p, later);
    PlanNamesKept(references, p, later);
    hide RevisionIdsOk, OnePendingRevision, RevisionChain, Cutoff, ValidationsOk, PlanNamed, RevisionsGrow;
  }

  // ----- Reserving a checkpoint -----

  lemma PlanAllocated(s: Snapshot, id: Id)
    requires NamesOk(s.references, s.rounds, s.inputs)
    ensures NamesOk(Allocate(s.references, PlanRef, id), s.rounds, s.inputs)
    ensures s.references <= Allocate(s.references, PlanRef, id)
    ensures Reference(NameFor(s.references, PlanRef, id), id, PlanRef) in Allocate(s.references, PlanRef, id)
  {
    AllocateNumbered(s.references, PlanRef, id);
    if RefAt(s.references, PlanRef, id) < 0 {
      AllocateNamed(s.references, PlanRef, id, InputRef);
      AllocateNamed(s.references, PlanRef, id, RoundRef);
    } else {
      assert s.references[RefAt(s.references, PlanRef, id)] in s.references;
    }
    hide Numbered, Named;
  }

  lemma ReservedPlanning(p: Planning, inputs: seq<Input>, references: seq<Reference>, r: Revision)
    requires PlanningOk(Some(p), inputs, references) && Reference(r.reference, r.id, PlanRef) in references
    requires r.id != NO_ID && NonPublicationAt(p.nonPublications, r.id) < 0 && RevisionAt(p.revisions, r.id) < 0
    requires forall i :: 0 <= i < |p.revisions| ==> p.revisions[i].published || p.revisions[i].publicationFailed
    requires r.supersedes == p.currentRevision && !r.published && !r.publicationFailed
    ensures PlanningOk(Some(p.(revisions := p.revisions + [r])), inputs, references)
    ensures PlanningGrows(Some(p), Some(p.(revisions := p.revisions + [r])))
  {
    hide RevisionIdsOk, OnePendingRevision, RevisionChain, Cutoff, ValidationsOk;
    var later := p.(revisions := p.revisions + [r]);
    ReservedChain(p.revisions, p.currentRevision, r);
    ReservedValidations(p, r);
    assert RevisionIdsOk(later) && OnePendingRevision(later.revisions) by {
      ReservedIds(p, r);
    }
  }

  lemma ReservedIds(p: Planning, r: Revision)
    requires RevisionIdsOk(p) && OnePendingRevision(p.revisions)
    requires r.id != NO_ID && NonPublicationAt(p.nonPublications, r.id) < 0 && RevisionAt(p.revisions, r.id) < 0
    requires forall i :: 0 <= i < |p.revisions| ==> p.revisions[i].published || p.revisions[i].publicationFailed
    requires !r.published && !r.publicationFailed
    ensures RevisionIdsOk(p.(revisions := p.revisions + [r])) && OnePendingRevision(p.revisions + [r])
  {
  }

  lemma ReservedValidations(p: Planning, r: Revision)
    requires ValidationsOk(p)
    ensures ValidationsOk(p.(revisions := p.revisions + [r]))
  {
    var later := p.revisions + [r];
    forall id | PublishedRevision(p.revisions, id) ensures PublishedRevision(later, id) {
      var i :| 0 <= i < |p.revisions| && p.revisions[i].id == id && p.revisions[i].published;
      assert later[i] == p.revisions[i];
    }
    hide PublishedRevision;
  }

  lemma RefusedPlanning(p: Planning, inputs: seq<Input>, references: seq<Reference>, n: NonPublication)
    requires PlanningOk(Some(p), inputs, references) && RevisionAt(p.revisions, n.operation) < 0
    ensures PlanningOk(Some(p.(nonPublications := p.nonPublications + [n])), inputs, references)
    ensures PlanningGrows(Some(p), Some(p.(nonPublications := p.nonPublications + [n])))
  {
    var later := p.(nonPublications := p.nonPublications + [n]);
    assert later.nonPublications[..|later.nonPublications| - 1] == p.nonPublications;
    assert RevisionIdsOk(later);
    hide OnePendingRevision, RevisionChain, Cutoff;
  }

  lemma ReserveGood(s: Snapshot, id: Id, participant: Id, turn: Id, c: Content)
    requires Good(s)
    ensures Good(AfterReserve(s, id, participant, turn, c)) && Extends(s, AfterReserve(s, id, participant, turn, c))
  {
    hide Reserve, Good, Extends, PlanningOk, PlanningGrows, Allocate;
    var answer := Reserve(s, id, participant, turn, c);
    if answer.Invalid? || NonPublicationAt(s.planning.value.nonPublications, id) >= 0 ||
       RevisionAt(s.planning.value.revisions, id) >= 0
    {
      SelfExtends(s);
    } else {
      var p := s.planning.value;
      var references := Allocate(s.references, PlanRef, id);
      var named := s.(references := references);
      ReservedNames(s, id);
      GoodPlanning(named);
      ReserveFresh(s, id, participant, turn, c);
      if answer.Reserved? {
        ReservedPlanning(p, s.inputs, references, answer.revision);
        NewPlanningGood(named, p.(revisions := p.revisions + [answer.revision]));
        ExtendsTransitive(s, named, named.(planning := Some(p.(revisions := p.revisions + [answer.revision]))));
      } else {
        RefusedPlanning(p, s.inputs, references, answer.evidence);
        NewPlanningGood(named, p.(nonPublications := p.nonPublications + [answer.evidence]));
        ExtendsTransitive(s, named,
          named.(planning := Some(p.(nonPublications := p.nonPublications + [answer.evidence]))));
      }
    }
  }

  lemma ReservedNames(s: Snapshot, id: Id)
    requires Good(s)
    ensures Good(s.(references := Allocate(s.references, PlanRef, id)))
    ensures Extends(s, s.(references := Allocate(s.references, PlanRef, id)))
    ensures Reference(NameFor(s.references, PlanRef, id), id, PlanRef) in Allocate(s.references, PlanRef, id)
  {
    SelfExtends(s);
    PlanAllocated(s, id);
    PlanningInputsKept(s.planning, s.inputs, s.inputs, s.references, Allocate(s.references, PlanRef, id));
    hide DistinctInputs, AmendsEarlier, NamesOk, ReceiptsOk, RoundsOk, QuestionsOk, SequencesOk, JustifiedRounds,
      PlanningOk;
    hide DeliveriesOk, InputsGrow, RoundsGrow, PlanningGrows, Allocate;
  }

  /** What a reservation that is not a replay looks like. */
  lemma ReserveFresh(s: Snapshot, id: Id, participant: Id, turn: Id, c: Content)
    requires !Reserve(s, id, participant, turn, c).Invalid?
    requires NonPublicationAt(s.planning.value.nonPublications, id) < 0 &&
             RevisionAt(s.planning.value.revisions, id) < 0
    ensures s.planning.Some? && id != NO_ID
    ensures forall i :: 0 <= i < |s.planning.value.revisions| ==>
              s.planning.value.revisions[i].published || s.planning.value.revisions[i].publicationFailed
    ensures var answer := Reserve(s, id, participant, turn, c);
            if answer.Reserved? then
              answer.revision.id == id && answer.revision.supersedes == s.planning.value.currentRevision &&
              answer.revision.reference == NameFor(s.references, PlanRef, id) &&
              !answer.revision.published && !answer.revision.publicationFailed
            else answer.evidence.operation == id
  {
    hide WellFormed, Unresolved, AssessmentBlocked, CurrentCheckpoint;
  }

  // ----- Validation and readiness -----

  lemma {:induction false} FindRevisionIs(revisions: seq<Revision>, id: Id)
    ensures FindRevision(revisions, id).Some? ==>
              exists i :: 0 <= i < |revisions| && revisions[i] == FindRevision(revisions, id).value &&
                revisions[i].id == id
    ensures FindRevision(revisions, id).None? ==> forall i :: 0 <= i < |revisions| ==> revisions[i].id != id
  {
    if |revisions| > 0 && revisions[0].id != id {
      FindRevisionIs(revisions[1..], id);
      if FindRevision(revisions, id).Some? {
        var i :| 0 <= i < |revisions[1..]| && revisions[1..][i] == FindRevision(revisions, id).value &&
          revisions[1..][i].id == id;
        assert revisions[i + 1] == revisions[1..][i];
      } else {
        forall i | 0 <= i < |revisions| ensures revisions[i].id != id {
          if i > 0 {
            assert revisions[i] == revisions[1..][i - 1];
          }
        }
      }
    }
  }

  lemma ValidateGood(
    s: Snapshot, operation: Id, revision: Id, participant: Id, turn: Id, commit: string, evidence: string,
    resolved: bool)
    requires Good(s)
    ensures Good(AfterValidate(s, operation, revision, participant, turn, commit, evidence, resolved))
    ensures Extends(s, AfterValidate(s, operation, revision, participant, turn, commit, evidence, resolved))
  {
    if CanValidate(s, operation, revision, participant, turn, commit, evidence, resolved) &&
       ValidationAt(s.planning.value.revalidations, turn) < 0
    {
      var p := s.planning.value;
      FindRevisionIs(p.revisions, p.currentRevision);
      var v := NewValidation(s, operation, revision, participant, turn, commit, evidence);
      assert PublishedRevision(p.revisions, v.revision);
      hide Good, Validatable, NewValidation, Unresolved;
      assert PlanningOk(s.planning, s.inputs, s.references) by {
        hide *;
        GoodPlanning(s);
      }
      ValidatedPlanning(p, s.inputs, s.references, v);
      NewPlanningGood(s, p.(revalidations := p.revalidations + [v]));
    } else {
      SelfExtends(s);
      hide Good, CanValidate;
    }
  }

  lemma GoodPlanning(s: Snapshot)
    requires Good(s)
    ensures PlanningOk(s.planning, s.inputs, s.references)
  {
  }

  lemma ValidatedPlanning(p: Planning, inputs: seq<Input>, references: seq<Reference>, v: Revalidation)
    requires PlanningOk(Some(p), inputs, references) && PublishedRevision(p.revisions, v.revision) &&
             p.readyRevision == NO_ID
    ensures PlanningOk(Some(p.(revalidations := p.revalidations + [v])), inputs, references)
    ensures PlanningGrows(Some(p), Some(p.(revalidations := p.revalidations + [v])))
  {
    hide OnePendingRevision, RevisionChain, Cutoff, PublishedRevision, NonPublicationAt;
  }

  lemma CommitGood(s: Snapshot, participant: Id, turn: Id)
    requires Good(s)
    ensures Good(AfterCommit(s, participant, turn)) && Extends(s, AfterCommit(s, participant, turn))
  {
    if CanCommit(s, participant, turn) {
      var p := s.planning.value;
      var i :| 0 <= i < |p.revalidations| && Commits(s, turn, p.revalidations[i]);
      CommittedPlanning(p, s.inputs, s.references, i);
      hide Good, CanCommit, Commits, PlanningOk, PlanningGrows, Extends;
      NewPlanningGood(s, p.(readyRevision := p.currentRevision));
    } else {
      SelfExtends(s);
      hide Good, CanCommit;
    }
  }

  lemma CommittedPlanning(p: Planning, inputs: seq<Input>, references: seq<Reference>, i: nat)
    requires PlanningOk(Some(p), inputs, references) && i < |p.revalidations| &&
             p.revalidations[i].revision == p.currentRevision
    ensures PlanningOk(Some(p.(readyRevision := p.currentRevision)), inputs, references)
    ensures PlanningGrows(Some(p), Some(p.(readyRevision := p.currentRevision)))
  {
    hide OnePendingRevision, RevisionChain, Cutoff, PublishedRevision, NonPublicationAt;
  }

  // ----- Every step -----

  lemma ApplyGood(s: Snapshot, step: Step)
    requires Good(s)
    ensures Good(Apply(s, step)) && Extends(s, Apply(s, step))
  {
    hide Good, Extends;
    match step {
      case Request(id, participant, turn, head, questions) => RequestGood(s, id, participant, turn, head, questions);
      case Publish(id, source) => PublishGood(s, id, source);
      case FailPublication(id) => FailGood(s, id);
      case Accept(id, c, a) => AcceptGood(s, id, c, a);
      case Prepare(participant, turn) => PrepareGood(s, participant, turn);
      case MarkDelivered(participant, turn, id) => MarkDeliveredGood(s, participant, turn, id);
      case Project(participant, turn, oversize) => ProjectGood(s, participant, turn, oversize);
      case Assess(operation, participant, turn, batch) => AssessGood(s, operation, participant, turn, batch);
      case Resolve(round, turn, rs) => ResolveGood(s, round, turn, rs);
      case StartPlanning(original) => StartGood(s, original);
      case ReserveCheckpoint(id, participant, turn, c) => ReserveGood(s, id, participant, turn, c);
      case ConfirmCheckpoint(id, source) => ConfirmGood(s, id, source);
      case FailCheckpoint(id) => FailCheckpointGood(s, id);
      case ValidatePlanning(operation, revision, participant, turn, commit, evidence, resolved) =>
        ValidateGood(s, operation, revision, participant, turn, commit, evidence, resolved);
      case CommitReadiness(participant, turn) => CommitGood(s, participant, turn);
    }
  }

  /** Whole runs keep the invariant and only add to history. */
  lemma {:induction false} RunGood(s: Snapshot, steps: seq<Step>)
    requires Good(s)
    ensures Good(Run(s, steps)) && Extends(s, Run(s, steps))
  {
    hide Good, Extends, Apply;
    if |steps| == 0 {
      SelfExtends(s);
    } else {
      var before := Run(s, steps[..|steps| - 1]);
      RunGood(s, steps[..|steps| - 1]);
      ApplyGood(before, steps[|steps| - 1]);
      ExtendsTransitive(s, before, Run(s, steps));
    }
  }
}
