/** What every conversation operation keeps, one predicate per group of records. */
module Invariants {
  import opened Basics
  import opened Names
  import opened Conversation
  import opened Evidence
  import opened Steps

  // ----- Names and receipts -----

  function InputIds(inputs: seq<Input>): seq<Id> {
    seq(|inputs|, i requires 0 <= i < |inputs| => inputs[i].id)
  }

  function RoundIds(rounds: seq<Round>): seq<Id> {
    seq(|rounds|, i requires 0 <= i < |rounds| => rounds[i].id)
  }

  /** The i-th input is called A<i> and the i-th round R<i>, and the list says so. */
  ghost predicate NamesOk(references: seq<Reference>, rounds: seq<Round>, inputs: seq<Input>) {
    && Numbered(references)
    && Named(references, InputRef) == InputIds(inputs)
    && Named(references, RoundRef) == RoundIds(rounds)
    && (forall i :: 0 <= i < |inputs| ==> inputs[i].reference == Name(InputRef, i + 1))
    && (forall i :: 0 <= i < |rounds| ==> rounds[i].reference == Name(RoundRef, i + 1))
  }

  /** The receipts of admitted inputs. */
  function Admitted(receipts: seq<Receipt>): seq<Receipt> {
    if |receipts| == 0 then []
    else
      var last := receipts[|receipts| - 1];
      Admitted(receipts[..|receipts| - 1]) + if last.responseId != NO_ID then [last] else []
  }

  function ReceiptOf(input: Input): Receipt {
    Receipt(input.id, input.source, input.id, QueuedAs(input.reference))
  }

  function ReceiptsOf(inputs: seq<Input>): seq<Receipt> {
    seq(|inputs|, i requires 0 <= i < |inputs| => ReceiptOf(inputs[i]))
  }

  /** One receipt per source, and one admitting receipt per input, in the same order. */
  predicate ReceiptsOk(receipts: seq<Receipt>, inputs: seq<Input>) {
    && (forall i, j :: 0 <= i < j < |receipts| ==> !SameSource(receipts[i].source, receipts[j].source))
    && Admitted(receipts) == ReceiptsOf(inputs)
  }

  // ----- Deliveries -----

  predicate DeliveriesOk(inputs: seq<Input>, preparations: seq<Preparation>) {
    && (forall i, j :: 0 <= i < j < |preparations| ==> preparations[i].turn != preparations[j].turn)
    && (forall i :: 0 <= i < |inputs| && inputs[i].deliveredTo != NO_ID ==>
          HasPreparation(preparations, inputs[i].participant, inputs[i].deliveredTo))
  }

  // ----- The chain of published rounds -----

  predicate NoneBetween(rounds: seq<Round>, i: int, j: int) {
    forall k :: 0 <= k < |rounds| && i < k < j ==> !rounds[k].published
  }

  predicate RoundIdsOk(rounds: seq<Round>) {
    (forall i :: 0 <= i < |rounds| ==> rounds[i].id != NO_ID) &&
    forall i, j :: 0 <= i < j < |rounds| ==> rounds[i].id != rounds[j].id
  }

  /** At most one round is pending, and it is the last. */
  predicate OnePending(rounds: seq<Round>) {
    (forall i :: 0 <= i < |rounds| - 1 ==> rounds[i].published || rounds[i].publicationFailed) &&
    forall i :: 0 <= i < |rounds| ==> !(rounds[i].published && rounds[i].publicationFailed)
  }

  predicate SupersededOk(rounds: seq<Round>, currentRound: Id) {
    && (forall i, j {:trigger NoneBetween(rounds, i, j)} ::
          0 <= i < j < |rounds| && rounds[i].published && rounds[j].published && NoneBetween(rounds, i, j) ==>
            rounds[i].supersededBy == rounds[j].id)
    && (forall i {:trigger NoneBetween(rounds, i, |rounds|)} ::
          0 <= i < |rounds| && rounds[i].published && NoneBetween(rounds, i, |rounds|) ==>
            rounds[i].supersededBy == NO_ID && rounds[i].id == currentRound)
    && (forall i :: 0 <= i < |rounds| && !rounds[i].published ==> rounds[i].supersededBy == NO_ID)
    && (NoneBetween(rounds, -1, |rounds|) ==> currentRound == NO_ID)
  }

  predicate SupersedesOk(rounds: seq<Round>) {
    && (forall i, j {:trigger NoneBetween(rounds, i, j)} ::
          0 <= i < j < |rounds| && rounds[i].published && NoneBetween(rounds, i, j) ==>
            rounds[j].supersedes == rounds[i].id)
    && (forall j {:trigger NoneBetween(rounds, -1, j)} ::
          0 <= j < |rounds| && NoneBetween(rounds, -1, j) ==> rounds[j].supersedes == NO_ID)
  }

  predicate RoundsOk(rounds: seq<Round>, currentRound: Id) {
    RoundIdsOk(rounds) && OnePending(rounds) && SupersededOk(rounds, currentRound) && SupersedesOk(rounds)
  }

  predicate QuestionsOk(rounds: seq<Round>) {
    && (forall i :: 0 <= i < |rounds| ==> |rounds[i].questions| > 0 && DistinctQuestions(rounds[i].questions))
    && (forall i, j :: 0 <= i < |rounds| && 0 <= j < |rounds| ==> SameWording(rounds[i].questions, rounds[j].questions))
  }

  // ----- Interpretations -----

  /** Interpretations of one question follow each other in the order of their sequence numbers. */
  predicate InOrder(rs: seq<Resolution>) {
    forall k :: 0 <= k < |rs| ==> InOrderAt(rs, k)
  }

  predicate InOrderAt(rs: seq<Resolution>, k: int)
    requires 0 <= k < |rs|
  {
    var previous := Latest(rs[..k], rs[k].questionId);
    previous.Some? ==> previous.value.sequence < rs[k].sequence
  }

  /** No silent last-answer-wins: each interpretation may revise the one before it. */
  ghost predicate Justified(inputs: seq<Input>, assessments: seq<Assessment>, rs: seq<Resolution>) {
    forall k :: 0 <= k < |rs| ==> JustifiedAt(inputs, assessments, rs, k)
  }

  ghost predicate JustifiedAt(inputs: seq<Input>, assessments: seq<Assessment>, rs: seq<Resolution>, k: int)
    requires 0 <= k < |rs|
  {
    CanRevise(inputs, assessments, Latest(rs[..k], rs[k].questionId), rs[k])
  }

  predicate Within(rs: seq<Resolution>, bound: nat, questions: seq<Question>) {
    forall k :: 0 <= k < |rs| ==> 1 <= rs[k].sequence <= bound && Asks(questions, rs[k].questionId)
  }

  /** A sequence number identifies an interpretation, wherever copies of it are kept. */
  predicate Agree(rs: seq<Resolution>, others: seq<Resolution>) {
    forall k, m :: 0 <= k < |rs| && 0 <= m < |others| && rs[k].sequence == others[m].sequence ==> rs[k] == others[m]
  }

  predicate SequencesOk(rounds: seq<Round>, bound: nat) {
    && (forall i :: 0 <= i < |rounds| ==>
         InOrder(rounds[i].resolutions) && Within(rounds[i].resolutions, bound, rounds[i].questions))
    && (forall i, j :: 0 <= i < |rounds| && 0 <= j < |rounds| ==> Agree(rounds[i].resolutions, rounds[j].resolutions))
  }

  ghost predicate JustifiedRounds(inputs: seq<Input>, assessments: seq<Assessment>, rounds: seq<Round>) {
    forall i :: 0 <= i < |rounds| ==> Justified(inputs, assessments, rounds[i].resolutions)
  }

  // ----- Planning -----

  predicate NoRevisionBetween(revisions: seq<Revision>, i: int, j: int) {
    forall k :: 0 <= k < |revisions| && i < k < j ==> !revisions[k].published
  }

  predicate RevisionIdsOk(p: Planning) {
    && (forall i :: 0 <= i < |p.revisions| ==>
         p.revisions[i].id != NO_ID && NonPublicationAt(p.nonPublications, p.revisions[i].id) < 0)
    && (forall i, j :: 0 <= i < j < |p.revisions| ==> p.revisions[i].id != p.revisions[j].id)
  }

  predicate OnePendingRevision(revisions: seq<Revision>) {
    (forall i :: 0 <= i < |revisions| - 1 ==> revisions[i].published || revisions[i].publicationFailed) &&
    forall i :: 0 <= i < |revisions| ==> !(revisions[i].published && revisions[i].publicationFailed)
  }

  predicate RevisionChain(revisions: seq<Revision>, currentRevision: Id) {
    && (forall i, j {:trigger NoRevisionBetween(revisions, i, j)} ::
          0 <= i < j < |revisions| && revisions[i].published && NoRevisionBetween(revisions, i, j) ==>
            revisions[j].supersedes == revisions[i].id)
    && (forall j {:trigger NoRevisionBetween(revisions, -1, j)} ::
          0 <= j < |revisions| && NoRevisionBetween(revisions, -1, j) ==> revisions[j].supersedes == NO_ID)
    && (forall i {:trigger NoRevisionBetween(revisions, i, |revisions|)} ::
          0 <= i < |revisions| && revisions[i].published && NoRevisionBetween(revisions, i, |revisions|) ==>
            revisions[i].id == currentRevision)
    && (NoRevisionBetween(revisions, -1, |revisions|) ==> currentRevision == NO_ID)
  }

  /** Withdrawn authority is exactly the confirmations admitted up to some point. */
  ghost predicate Cutoff(invalidated: seq<Id>, inputs: seq<Input>) {
    exists k :: 0 <= k <= |inputs| && invalidated == Confirmations(inputs[..k])
  }

  predicate PublishedRevision(revisions: seq<Revision>, id: Id) {
    exists i :: 0 <= i < |revisions| && revisions[i].id == id && revisions[i].published
  }

  predicate ValidationsOk(p: Planning) {
    && (forall k :: 0 <= k < |p.revalidations| ==> PublishedRevision(p.revisions, p.revalidations[k].revision))
    && (p.readyRevision != NO_ID ==>
          PublishedRevision(p.revisions, p.readyRevision) &&
          forall k :: 0 <= k < |p.revalidations| && p.revalidations[k].revision == p.currentRevision ==>
            p.currentRevision == p.readyRevision)
  }

  predicate PlanNamed(references: seq<Reference>, p: Planning) {
    forall i :: 0 <= i < |p.revisions| ==> Reference(p.revisions[i].reference, p.revisions[i].id, PlanRef) in references
  }

  ghost predicate PlanningOk(planning: Option<Planning>, inputs: seq<Input>, references: seq<Reference>) {
    planning.Some? ==>
      var p := planning.value;
      RevisionIdsOk(p) && OnePendingRevision(p.revisions) && RevisionChain(p.revisions, p.currentRevision) &&
      Cutoff(p.invalidated, inputs) && ValidationsOk(p) && PlanNamed(references, p)
  }

  /** The invariant of the conversation aggregate. */
  ghost predicate Good(s: Snapshot) {
    && DistinctInputs(s.inputs) && AmendsEarlier(s.inputs)
    && NamesOk(s.references, s.rounds, s.inputs)
    && ReceiptsOk(s.receipts, s.inputs)
    && DeliveriesOk(s.inputs, s.preparations)
    && RoundsOk(s.rounds, s.currentRound)
    && QuestionsOk(s.rounds)
    && SequencesOk(s.rounds, s.interpretationSequence)
    && JustifiedRounds(s.inputs, s.assessments, s.rounds)
    && PlanningOk(s.planning, s.inputs, s.references)
  }

  // ----- What no operation undoes -----

  predicate SameRound(earlier: Round, later: Round) {
    && later == earlier.(supersededBy := later.supersededBy, resolutions := later.resolutions,
                         published := later.published, publicationFailed := later.publicationFailed,
                         source := later.source)
    && earlier.resolutions <= later.resolutions
    && (earlier.published ==> later.published && later.source == earlier.source)
    && (earlier.publicationFailed ==> later.publicationFailed)
  }

  predicate RoundsGrow(rounds: seq<Round>, later: seq<Round>) {
    |rounds| <= |later| && forall i :: 0 <= i < |rounds| ==> SameRound(rounds[i], later[i])
  }

  predicate SameRevision(earlier: Revision, later: Revision) {
    && later == earlier.(published := later.published, publicationFailed := later.publicationFailed,
                         source := later.source)
    && (earlier.published ==> later.published && later.source == earlier.source)
    && (earlier.publicationFailed ==> later.publicationFailed)
  }

  predicate RevisionsGrow(revisions: seq<Revision>, later: seq<Revision>) {
    |revisions| <= |later| && forall i :: 0 <= i < |revisions| ==> SameRevision(revisions[i], later[i])
  }

  predicate PlanningGrows(planning: Option<Planning>, later: Option<Planning>) {
    planning.Some? ==>
      && later.Some?
      && later.value.originalRequest == planning.value.originalRequest
      && planning.value.invalidated <= later.value.invalidated
      && planning.value.nonPublications <= later.value.nonPublications
      && planning.value.revalidations <= later.value.revalidations
      && RevisionsGrow(planning.value.revisions, later.value.revisions)
      && (planning.value.readyRevision != NO_ID ==> later.value.readyRevision == planning.value.readyRevision)
  }

  /** History is only ever added to. */
  predicate Extends(s: Snapshot, later: Snapshot) {
    && s.interpretationSequence <= later.interpretationSequence
    && s.assessments <= later.assessments
    && s.references <= later.references
    && s.preparations <= later.preparations
    && s.receipts <= later.receipts
    && InputsGrow(s.inputs, later.inputs)
    && RoundsGrow(s.rounds, later.rounds)
    && PlanningGrows(s.planning, later.planning)
  }

  lemma ExtendsTransitive(a: Snapshot, b: Snapshot, c: Snapshot)
    requires Extends(a, b) && Extends(b, c)
    ensures Extends(a, c)
  {
    forall i | 0 <= i < |a.inputs| ensures SameInput(a.inputs[i], c.inputs[i]) {
      assert SameInput(a.inputs[i], b.inputs[i]) && SameInput(b.inputs[i], c.inputs[i]);
    }
    forall i | 0 <= i < |a.rounds| ensures SameRound(a.rounds[i], c.rounds[i]) {
      assert SameRound(a.rounds[i], b.rounds[i]) && SameRound(b.rounds[i], c.rounds[i]);
    }
    if a.planning.Some? {
      var p, q, r := a.planning.value.revisions, b.planning.value.revisions, c.planning.value.revisions;
      forall i | 0 <= i < |p| ensures SameRevision(p[i], r[i]) {
        assert SameRevision(p[i], q[i]) && SameRevision(q[i], r[i]);
      }
    }
  }

  lemma EmptyGood()
    ensures Good(EMPTY)
  {
  }
}
