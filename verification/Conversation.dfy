/** The records of one Work Item conversation, and the questions its rules ask of them.

  Identities are opaque in the program: they are compared only with each other and with
  the empty string.  Here an identity is a natural number and `NO_ID` is the empty string.
  Every function below takes only the records it depends on, so that a step leaving those
  records alone leaves its value alone.
 */
module Conversation {
  import opened Basics
  import opened Names

  type Id = nat

  const NO_ID: Id := 0

  datatype Source = Source(channel: Id, id: Id, url: Id)

  datatype Question = Question(id: Id, body: string, replacing: Id)

  datatype Resolution = Resolution(
    sequence: nat,
    origin: Id,
    considered: seq<Id>,
    obsolete: bool,
    questionId: Id,
    responseIds: seq<Id>,
    explanation: string)

  datatype Round = Round(
    reference: string,
    supersedesReference: string,
    id: Id,
    supersedes: Id,
    supersededBy: Id,
    participant: Id,
    turn: Id,
    head: Id,
    questions: seq<Question>,
    resolutions: seq<Resolution>,
    published: bool,
    publicationFailed: bool,
    source: Option<Source>)

  datatype Kind = Answer | Amend | Steer | ConfirmPlan | UnknownKind

  datatype Input = Input(
    reference: string,
    target: Id,
    route: Id,
    id: Id,
    kind: Kind,
    roundId: Id,
    amends: Id,
    body: string,
    actor: Id,
    source: Source,
    acceptedAt: nat,
    participant: Id,
    deliveredTo: Id,
    deliveryPending: bool)

  datatype Rejection =
    | Unauthorized
    | Inactive
    | Incomplete
    | DuplicateResponse
    | PlanNotConfirmable
    | UnknownRound
    | RoundFailed
    | RoundReplaced
    | RoundOfOtherStage
    | UnknownInput
    | InputOfOtherStage
    | SteerWithTarget
    | MissingTarget
    | EmptyBody

  datatype Feedback = QueuedAs(name: string) | Rejected(reason: Rejection)

  datatype Receipt = Receipt(id: Id, source: Source, responseId: Id, feedback: Feedback)

  datatype Preparation = Preparation(participant: Id, turn: Id)

  datatype Disposition = Changed | Unchanged | Uncertain | Confirmed | UnknownDisposition

  datatype Assessment = Assessment(
    origin: Id,
    inputId: Id,
    evidence: seq<Id>,
    disposition: Disposition,
    explanation: string,
    corrects: seq<Id>,
    invalidateConfirmation: bool)

  datatype Status = Draft | Proposed | UnknownStatus

  datatype Content = Content(
    title: string,
    summary: string,
    changes: string,
    requirementsBrief: string,
    technicalPlan: string,
    status: Status,
    investigatedCommit: string,
    evidence: seq<string>,
    unresolvedDecisions: seq<string>,
    decisionResponseIds: seq<Id>)

  datatype OriginalRequest = OriginalRequest(title: string, body: string, source: Source)

  datatype Revision = Revision(
    reference: string,
    supersedesReference: string,
    id: Id,
    supersedes: Id,
    participant: Id,
    turn: Id,
    content: Content,
    originalRequest: OriginalRequest,
    decisions: seq<Input>,
    published: bool,
    publicationFailed: bool,
    source: Option<Source>)

  datatype Revalidation = Revalidation(
    operation: Id,
    revision: Id,
    participant: Id,
    turn: Id,
    commit: string,
    evidence: string,
    confirmation: Id,
    considered: seq<Id>)

  datatype NonPublicationReason = UnreadInput | LateInput

  datatype NonPublication = NonPublication(
    operation: Id, participant: Id, turn: Id, content: Content, reason: NonPublicationReason)

  datatype Planning = Planning(
    invalidated: seq<Id>,
    nonPublications: seq<NonPublication>,
    originalRequest: OriginalRequest,
    revisions: seq<Revision>,
    currentRevision: Id,
    readyRevision: Id,
    revalidations: seq<Revalidation>)

  /** The value of the whole conversation aggregate. */
  datatype Snapshot = Snapshot(
    interpretationSequence: nat,
    assessments: seq<Assessment>,
    references: seq<Reference>,
    planning: Option<Planning>,
    preparations: seq<Preparation>,
    rounds: seq<Round>,
    inputs: seq<Input>,
    receipts: seq<Receipt>,
    currentRound: Id)

  const EMPTY := Snapshot(0, [], [], None, [], [], [], [], NO_ID)

  // ----- Text -----

  predicate IsSpace(c: char) {
    c == ' ' || '\t' <= c <= '\r' || c == '\U{85}' || c == '\U{A0}' || c == '\U{1680}' ||
    '\U{2000}' <= c <= '\U{200A}' || c == '\U{2028}' || c == '\U{2029}' || c == '\U{202F}' ||
    c == '\U{205F}' || c == '\U{3000}'
  }

  /** `strings.TrimSpace(text) == ""` */
  predicate Blank(text: string) {
    forall i :: 0 <= i < |text| ==> IsSpace(text[i])
  }

  /** The regular expression for a commit: 40 or 64 lower-case hexadecimal digits. */
  predicate IsCommit(text: string) {
    (|text| == 40 || |text| == 64) &&
    forall i :: 0 <= i < |text| ==> '0' <= text[i] <= '9' || 'a' <= text[i] <= 'f'
  }

  // ----- Inputs -----

  predicate Delivered(input: Input) {
    input.deliveredTo != NO_ID && !input.deliveryPending
  }

  /** An input its Participant still has to be given. */
  predicate Awaiting(input: Input, participant: Id) {
    input.participant == participant && (input.deliveredTo == NO_ID || input.deliveryPending)
  }

  predicate Pending(inputs: seq<Input>, participant: Id) {
    exists i :: 0 <= i < |inputs| && Awaiting(inputs[i], participant)
  }

  predicate HasInput(inputs: seq<Input>, id: Id) {
    exists i :: 0 <= i < |inputs| && inputs[i].id == id
  }

  /** What the first input called `id` amends; `NO_ID` when there is no such input. */
  function Parent(inputs: seq<Input>, id: Id): Id {
    if |inputs| == 0 then NO_ID
    else if inputs[0].id == id then inputs[0].amends
    else Parent(inputs[1..], id)
  }

  /** The `n`-th amendment ancestor of `id`. */
  function Ancestor(inputs: seq<Input>, id: Id, n: nat): Id {
    if n == 0 then id
    else
      var closer := Ancestor(inputs, id, n - 1);
      if closer == NO_ID then NO_ID else Parent(inputs, closer)
  }

  /** `id` amends `prior`, directly or through earlier amendments. */
  ghost predicate Amends(inputs: seq<Input>, id: Id, prior: Id) {
    prior != NO_ID && exists n: nat :: n >= 1 && Ancestor(inputs, id, n) == prior
  }

  // ----- Assessments and evidence lineage -----

  /** `assessment` records that `id` changes what `prior` said. */
  predicate CorrectsIn(assessment: Assessment, id: Id, prior: Id) {
    assessment.inputId == id && assessment.disposition == Changed && prior in assessment.corrects
  }

  predicate Corrects(assessments: seq<Assessment>, id: Id, prior: Id) {
    exists i :: 0 <= i < |assessments| && CorrectsIn(assessments[i], id, prior)
  }

  /** One edge of the evidence graph.  The graph may contain cycles. */
  predicate Edge(inputs: seq<Input>, assessments: seq<Assessment>, id: Id, prior: Id) {
    prior != NO_ID && (Parent(inputs, id) == prior || Corrects(assessments, id, prior))
  }

  predicate Path(inputs: seq<Input>, assessments: seq<Assessment>, path: seq<Id>) {
    forall k :: 0 <= k < |path| - 1 ==> Edge(inputs, assessments, path[k], path[k + 1])
  }

  ghost predicate Reaches(inputs: seq<Input>, assessments: seq<Assessment>, from: Id, to: Id) {
    from != NO_ID &&
    exists path :: |path| > 0 && path[0] == from && path[|path| - 1] == to && Path(inputs, assessments, path)
  }

  ghost predicate SharedLineage(inputs: seq<Input>, assessments: seq<Assessment>, id: Id, prior: Id) {
    exists ancestor ::
      Reaches(inputs, assessments, id, ancestor) && Reaches(inputs, assessments, prior, ancestor)
  }

  predicate IsAmendment(inputs: seq<Input>, id: Id) {
    exists i :: 0 <= i < |inputs| && inputs[i].id == id && inputs[i].amends != NO_ID
  }

  /** `id` is an explicit amendment whose evidence lineage meets that of `prior`. */
  ghost predicate AmendsEvidence(inputs: seq<Input>, assessments: seq<Assessment>, id: Id, prior: Id) {
    IsAmendment(inputs, id) && SharedLineage(inputs, assessments, id, prior)
  }

  /** `id` is newer human evidence about what `prior` said: an amendment or an assessed correction. */
  ghost predicate Revises(inputs: seq<Input>, assessments: seq<Assessment>, id: Id, prior: Id) {
    AmendsEvidence(inputs, assessments, id, prior) || Corrects(assessments, id, prior)
  }

  ghost predicate RevisesAny(inputs: seq<Input>, assessments: seq<Assessment>, id: Id, priors: seq<Id>) {
    exists k :: 0 <= k < |priors| && Revises(inputs, assessments, id, priors[k])
  }

  /** The last recorded assessment of an input. */
  function LatestAssessment(assessments: seq<Assessment>, id: Id): Option<Assessment> {
    if |assessments| == 0 then None
    else if assessments[|assessments| - 1].inputId == id then Some(assessments[|assessments| - 1])
    else LatestAssessment(assessments[..|assessments| - 1], id)
  }

  predicate UnsettledInput(assessments: seq<Assessment>, input: Input) {
    var latest := LatestAssessment(assessments, input.id);
    !Delivered(input) || latest.None? || latest.value.disposition == Uncertain
  }

  predicate AssessmentBlocked(inputs: seq<Input>, assessments: seq<Assessment>, participant: Id) {
    exists i :: 0 <= i < |inputs| && inputs[i].participant == participant && UnsettledInput(assessments, inputs[i])
  }

  // ----- Interpretations -----

  /** The last interpretation of a question in a round. */
  function Latest(resolutions: seq<Resolution>, question: Id): Option<Resolution> {
    if |resolutions| == 0 then None
    else if resolutions[|resolutions| - 1].questionId == question then Some(resolutions[|resolutions| - 1])
    else Latest(resolutions[..|resolutions| - 1], question)
  }

  predicate Asks(questions: seq<Question>, question: Id) {
    exists k :: 0 <= k < |questions| && questions[k].id == question
  }

  /** The interpretation already accounts for this input: cited, considered, or an ancestor of a citation. */
  ghost predicate Covers(inputs: seq<Input>, r: Resolution, id: Id) {
    id in r.responseIds || id in r.considered ||
    exists k :: 0 <= k < |r.responseIds| && Amends(inputs, r.responseIds[k], id)
  }

  /** No accepted input outside the interpretation's coverage revises its evidence. */
  ghost predicate Current(inputs: seq<Input>, assessments: seq<Assessment>, r: Resolution) {
    r.obsolete ||
    forall i :: 0 <= i < |inputs| && !Covers(inputs, r, inputs[i].id) ==>
      !RevisesAny(inputs, assessments, inputs[i].id, r.responseIds)
  }

  ghost predicate CanRevise(
    inputs: seq<Input>, assessments: seq<Assessment>, old_: Option<Resolution>, next: Resolution)
  {
    old_.None? || old_.value.obsolete || next.obsolete ||
    exists k :: 0 <= k < |next.responseIds| &&
      RevisesAny(inputs, assessments, next.responseIds[k], old_.value.responseIds)
  }

  /** The delivered inputs that revise the cited evidence, in admission order. */
  ghost function Considered(inputs: seq<Input>, assessments: seq<Assessment>, all: seq<Input>, cited: seq<Id>): seq<Id>
  {
    if |inputs| == 0 then []
    else
      var last := inputs[|inputs| - 1];
      Considered(inputs[..|inputs| - 1], assessments, all, cited) +
      if Delivered(last) && RevisesAny(all, assessments, last.id, cited) then [last.id] else []
  }

  /** Round `i` has an opinion on `question` that counts for `participant`. */
  predicate Opines(rounds: seq<Round>, participant: Id, question: Id, i: int)
    requires 0 <= i < |rounds|
  {
    rounds[i].participant == participant && rounds[i].published &&
    Asks(rounds[i].questions, question) && Latest(rounds[i].resolutions, question).Some?
  }

  /** `r` is the most recently recorded opinion on `question`, whichever round holds it. */
  predicate Governs(rounds: seq<Round>, participant: Id, question: Id, r: Resolution) {
    (exists i :: 0 <= i < |rounds| && Opines(rounds, participant, question, i) &&
                 Latest(rounds[i].resolutions, question) == Some(r)) &&
    forall i :: 0 <= i < |rounds| && Opines(rounds, participant, question, i) ==>
      Latest(rounds[i].resolutions, question).value.sequence <= r.sequence
  }

  /** `question` alone is enough to keep `participant` from finishing. */
  ghost predicate Blocks(s: Snapshot, participant: Id, question: Id) {
    (exists r :: Governs(s.rounds, participant, question, r) && !Current(s.inputs, s.assessments, r)) ||
    exists i :: 0 <= i < |s.rounds| && OpenIn(s, participant, question, i)
  }

  /** Round `i` is the participant's current round and its `question` has no current interpretation. */
  ghost predicate OpenIn(s: Snapshot, participant: Id, question: Id, i: int)
    requires 0 <= i < |s.rounds|
  {
    s.rounds[i].id == s.currentRound && s.rounds[i].participant == participant &&
    Asks(s.rounds[i].questions, question) &&
    var latest := Latest(s.rounds[i].resolutions, question);
    latest.None? || !Current(s.inputs, s.assessments, latest.value)
  }

  ghost predicate Unresolved(s: Snapshot, participant: Id) {
    exists question :: Blocks(s, participant, question)
  }

  predicate QuestionInRound(rounds: seq<Round>, round: Id, question: Id, participant: Id) {
    exists i :: 0 <= i < |rounds| && rounds[i].id == round && rounds[i].participant == participant &&
                Asks(rounds[i].questions, question)
  }

  // ----- Planning -----

  /** The first revision called `id`. */
  function FindRevision(revisions: seq<Revision>, id: Id): Option<Revision> {
    if |revisions| == 0 then None
    else if revisions[0].id == id then Some(revisions[0])
    else FindRevision(revisions[1..], id)
  }

  function CurrentCheckpoint(planning: Option<Planning>): Option<Revision> {
    if planning.None? then None else FindRevision(planning.value.revisions, planning.value.currentRevision)
  }

  predicate Confirmable(planning: Option<Planning>, target: Id, participant: Id) {
    var current := CurrentCheckpoint(planning);
    current.Some? && current.value.published && current.value.content.status == Proposed &&
    current.value.id == target && current.value.participant == participant && planning.value.readyRevision == NO_ID
  }

  predicate HasPreparation(preparations: seq<Preparation>, participant: Id, turn: Id) {
    exists i :: 0 <= i < |preparations| && preparations[i] == Preparation(participant, turn)
  }

  /** The confirm-plan inputs among `inputs`, in admission order. */
  function Confirmations(inputs: seq<Input>): seq<Id> {
    if |inputs| == 0 then []
    else
      Confirmations(inputs[..|inputs| - 1]) +
      if inputs[|inputs| - 1].kind == ConfirmPlan then [inputs[|inputs| - 1].id] else []
  }

  predicate ConfirmedBy(assessments: seq<Assessment>, id: Id) {
    var latest := LatestAssessment(assessments, id);
    latest.Some? && latest.value.disposition == Confirmed
  }

  ghost predicate ValidationCurrent(s: Snapshot, v: Revalidation) {
    s.planning.Some? && s.planning.value.currentRevision == v.revision &&
    !Pending(s.inputs, v.participant) &&
    !AssessmentBlocked(s.inputs, s.assessments, v.participant) &&
    !Unresolved(s, v.participant) &&
    v.confirmation !in s.planning.value.invalidated &&
    ConfirmedBy(s.assessments, v.confirmation) &&
    forall i :: 0 <= i < |s.inputs| && s.inputs[i].participant == v.participant ==> s.inputs[i].id in v.considered
  }
}
