/** Every operation of the conversation: when it is accepted, the state after it, and runs of operations.

  `CanX` says when operation `X` is accepted and `AfterX` what it makes of a snapshot.
 */
module Steps {
  import opened Basics
  import opened Names
  import opened Conversation

  // ----- Finding records -----

  /** The position of the first round called `id`, or -1. */
  function RoundAt(rounds: seq<Round>, id: Id): (at: int)
    ensures -1 <= at < |rounds|
    ensures at >= 0 ==> rounds[at].id == id
    ensures forall i :: 0 <= i < (if at < 0 then |rounds| else at) ==> rounds[i].id != id
  {
    if |rounds| == 0 then -1
    else
      var earlier := RoundAt(rounds[..|rounds| - 1], id);
      if earlier >= 0 then earlier else if rounds[|rounds| - 1].id == id then |rounds| - 1 else -1
  }

  /** The position of the first input called `id`, or -1. */
  function InputAt(inputs: seq<Input>, id: Id): (at: int)
    ensures -1 <= at < |inputs|
    ensures at >= 0 ==> inputs[at].id == id
    ensures forall i :: 0 <= i < (if at < 0 then |inputs| else at) ==> inputs[i].id != id
  {
    if |inputs| == 0 then -1
    else
      var earlier := InputAt(inputs[..|inputs| - 1], id);
      if earlier >= 0 then earlier else if inputs[|inputs| - 1].id == id then |inputs| - 1 else -1
  }

  /** The position of the first revision called `id`, or -1. */
  function RevisionAt(revisions: seq<Revision>, id: Id): (at: int)
    ensures -1 <= at < |revisions|
    ensures at >= 0 ==> revisions[at].id == id
    ensures forall i :: 0 <= i < (if at < 0 then |revisions| else at) ==> revisions[i].id != id
  {
    if |revisions| == 0 then -1
    else
      var earlier := RevisionAt(revisions[..|revisions| - 1], id);
      if earlier >= 0 then earlier else if revisions[|revisions| - 1].id == id then |revisions| - 1 else -1
  }

  // ----- Request -----

  predicate DistinctQuestions(questions: seq<Question>) {
    forall j, k :: 0 <= j < k < |questions| ==> questions[j].id != questions[k].id
  }

  /** No question identity ever stands for two different texts. */
  predicate SameWording(asked: seq<Question>, questions: seq<Question>) {
    forall j, k :: 0 <= j < |asked| && 0 <= k < |questions| && asked[j].id == questions[k].id ==>
      asked[j].body == questions[k].body
  }

  predicate Carried(questions: seq<Question>, old_: Id) {
    exists k :: 0 <= k < |questions| && (questions[k].id == old_ || questions[k].replacing == old_)
  }

  ghost predicate Settled(s: Snapshot, round: Round, question: Id) {
    var latest := Latest(round.resolutions, question);
    latest.Some? && Current(s.inputs, s.assessments, latest.value)
  }

  ghost predicate CanRequest(s: Snapshot, id: Id, participant: Id, turn: Id, questions: seq<Question>) {
    && id != NO_ID && participant != NO_ID && turn != NO_ID && |questions| > 0
    && (forall i :: 0 <= i < |s.rounds| ==>
          (s.rounds[i].published || s.rounds[i].publicationFailed) && s.rounds[i].id != id)
    && (forall k :: 0 <= k < |questions| ==> questions[k].id != NO_ID && !Blank(questions[k].body))
    && DistinctQuestions(questions)
    && (forall i :: 0 <= i < |s.rounds| ==> SameWording(s.rounds[i].questions, questions))
    && (forall i ::
          0 <= i < |s.rounds| && s.rounds[i].id == s.currentRound && s.rounds[i].participant == participant ==>
            forall m :: 0 <= m < |s.rounds[i].questions| ==>
              Settled(s, s.rounds[i], s.rounds[i].questions[m].id) || Carried(questions, s.rounds[i].questions[m].id))
  }

  /** The unchanged current decisions a new round takes over from the one it follows. */
  ghost function Inherited(s: Snapshot, round: Round, questions: seq<Question>): seq<Resolution> {
    if |questions| == 0 then []
    else
      var q := questions[|questions| - 1].id;
      Inherited(s, round, questions[..|questions| - 1]) +
      if Settled(s, round, q) then [Latest(round.resolutions, q).value] else []
  }

  ghost function NewRound(s: Snapshot, id: Id, participant: Id, turn: Id, head: Id, questions: seq<Question>): Round {
    var at := RoundAt(s.rounds, s.currentRound);
    Round(
      NameFor(s.references, RoundRef, id),
      if at >= 0 then s.rounds[at].reference else "",
      id,
      s.currentRound,
      NO_ID,
      participant,
      turn,
      head,
      questions,
      if at >= 0 && s.rounds[at].participant == participant then Inherited(s, s.rounds[at], questions) else [],
      false,
      false,
      None)
  }

  ghost function AfterRequest(
    s: Snapshot, id: Id, participant: Id, turn: Id, head: Id, questions: seq<Question>): Snapshot
  {
    if !CanRequest(s, id, participant, turn, questions) then s
    else s.(rounds := s.rounds + [NewRound(s, id, participant, turn, head, questions)],
            references := Allocate(s.references, RoundRef, id))
  }

  // ----- Publish and FailPublication -----

  predicate CanPublish(s: Snapshot, id: Id, source: Source) {
    var at := RoundAt(s.rounds, id);
    at >= 0 && !s.rounds[at].publicationFailed && (s.rounds[at].published ==> s.rounds[at].source == Some(source))
  }

  function Superseding(round: Round, currentRound: Id, id: Id): Round {
    if currentRound != NO_ID && round.id == currentRound then round.(supersededBy := id) else round
  }

  function PublishedRounds(rounds: seq<Round>, currentRound: Id, at: nat, source: Source): seq<Round>
    requires at < |rounds|
  {
    var id := rounds[at].id;
    seq(|rounds|, j requires 0 <= j < |rounds| =>
      var r := Superseding(rounds[j], currentRound, id);
      if j == at then r.(published := true, source := Some(source)) else r)
  }

  function AfterPublish(s: Snapshot, id: Id, source: Source): Snapshot {
    var at := RoundAt(s.rounds, id);
    if !CanPublish(s, id, source) || s.rounds[at].published then s
    else s.(rounds := PublishedRounds(s.rounds, s.currentRound, at, source), currentRound := id)
  }

  predicate CanFail(s: Snapshot, id: Id) {
    var at := RoundAt(s.rounds, id);
    at >= 0 && !s.rounds[at].published
  }

  function AfterFail(s: Snapshot, id: Id): Snapshot {
    var at := RoundAt(s.rounds, id);
    if !CanFail(s, id) then s
    else s.(rounds := s.rounds[at := s.rounds[at].(publicationFailed := true)])
  }

  // ----- Accept -----

  datatype Command = Command(kind: Kind, target: string, body: string)

  datatype Admission = Admission(
    route: Id, active: bool, authorized: bool, participant: Id, actor: Id, source: Source, at: nat)

  predicate SameSource(a: Source, b: Source) {
    a.channel == b.channel && a.id == b.id
  }

  /** The position of the first receipt for a source, or -1. */
  function ReceiptAt(receipts: seq<Receipt>, source: Source): (at: int)
    ensures -1 <= at < |receipts|
    ensures at >= 0 ==> SameSource(receipts[at].source, source)
    ensures forall i :: 0 <= i < (if at < 0 then |receipts| else at) ==> !SameSource(receipts[i].source, source)
  {
    if |receipts| == 0 then -1
    else
      var earlier := ReceiptAt(receipts[..|receipts| - 1], source);
      if earlier >= 0 then earlier
      else if SameSource(receipts[|receipts| - 1].source, source) then |receipts| - 1 else -1
  }

  /** The identity a command's short target names; commands without targets have none. */
  function TargetOf(s: Snapshot, c: Command): Id {
    match c.kind
    case Answer => Target(s.references, RoundRef, c.target)
    case Amend => Target(s.references, InputRef, c.target)
    case ConfirmPlan => Target(s.references, PlanRef, c.target)
    case _ => NO_ID
  }

  function ScreenAnswer(s: Snapshot, target: Id, participant: Id): Option<Rejection> {
    var at := RoundAt(s.rounds, target);
    if at < 0 then Some(UnknownRound)
    else
      var r := s.rounds[at];
      if r.publicationFailed then Some(RoundFailed)
      else if r.supersededBy != NO_ID || (r.published && s.currentRound != r.id) then Some(RoundReplaced)
      else if r.participant != participant then Some(RoundOfOtherStage)
      else None
  }

  function ScreenAmend(s: Snapshot, target: Id, participant: Id): Option<Rejection> {
    var at := InputAt(s.inputs, target);
    if at < 0 then Some(UnknownInput)
    else if s.inputs[at].participant != participant then Some(InputOfOtherStage)
    else None
  }

  /** Why a command from a source not seen before is refused, if it is. */
  function Screen(s: Snapshot, id: Id, c: Command, a: Admission): Option<Rejection> {
    if !a.authorized then Some(Unauthorized)
    else if !a.active || (a.participant == NO_ID && a.route == NO_ID) then Some(Inactive)
    else if id == NO_ID || a.actor == NO_ID || a.source.id == NO_ID || a.source.channel == NO_ID || a.at == 0 then
      Some(Incomplete)
    else if HasInput(s.inputs, id) then Some(DuplicateResponse)
    else
      var byKind :=
        match c.kind
        case ConfirmPlan =>
          if Confirmable(s.planning, TargetOf(s, c), a.participant) then None else Some(PlanNotConfirmable)
        case Answer => ScreenAnswer(s, TargetOf(s, c), a.participant)
        case Amend => ScreenAmend(s, TargetOf(s, c), a.participant)
        case Steer => if c.target != "" then Some(SteerWithTarget) else None
        case UnknownKind => Some(MissingTarget);
      if byKind.Some? then byKind
      else if Blank(c.body) && c.kind != ConfirmPlan then Some(EmptyBody)
      else None
  }

  /** The round an accepted command speaks about. */
  function RoundOf(s: Snapshot, c: Command): Id {
    match c.kind
    case Answer => TargetOf(s, c)
    case Amend =>
      var at := InputAt(s.inputs, TargetOf(s, c));
      if at >= 0 then s.inputs[at].roundId else NO_ID
    case _ => NO_ID
  }

  function NewInput(s: Snapshot, id: Id, c: Command, a: Admission): Input {
    Input(NameFor(s.references, InputRef, id), TargetOf(s, c), a.route, id, c.kind, RoundOf(s, c),
          if c.kind == Amend then TargetOf(s, c) else NO_ID,
          c.body, a.actor, a.source, a.at, a.participant, NO_ID, false)
  }

  function AcceptReceipt(s: Snapshot, id: Id, c: Command, a: Admission): Receipt {
    var at := ReceiptAt(s.receipts, a.source);
    if at >= 0 then s.receipts[at]
    else
      var refused := Screen(s, id, c, a);
      if refused.Some? then Receipt(id, a.source, NO_ID, Rejected(refused.value))
      else Receipt(id, a.source, id, QueuedAs(NameFor(s.references, InputRef, id)))
  }

  function AfterAccept(s: Snapshot, id: Id, c: Command, a: Admission): Snapshot {
    if ReceiptAt(s.receipts, a.source) >= 0 then s
    else if Screen(s, id, c, a).Some? then s.(receipts := s.receipts + [AcceptReceipt(s, id, c, a)])
    else s.(receipts := s.receipts + [AcceptReceipt(s, id, c, a)],
            inputs := s.inputs + [NewInput(s, id, c, a)],
            references := Allocate(s.references, InputRef, id))
  }

  // ----- Prepare, MarkDelivered and the projection's read fence -----

  predicate HasTurn(preparations: seq<Preparation>, turn: Id) {
    exists i :: 0 <= i < |preparations| && preparations[i].turn == turn
  }

  /** The inputs assigned to a Turn, in admission order. */
  function Assigned(inputs: seq<Input>, turn: Id): seq<Input> {
    if |inputs| == 0 then []
    else
      var last := inputs[|inputs| - 1];
      Assigned(inputs[..|inputs| - 1], turn) + if last.deliveredTo == turn then [last] else []
  }

  /** The inputs a participant is waiting for, in admission order. */
  function Awaited(inputs: seq<Input>, participant: Id): seq<Input> {
    if |inputs| == 0 then []
    else
      var last := inputs[|inputs| - 1];
      Awaited(inputs[..|inputs| - 1], participant) + if Awaiting(last, participant) then [last] else []
  }

  function Assign(input: Input, participant: Id, turn: Id): Input {
    if Awaiting(input, participant) then input.(deliveredTo := turn, deliveryPending := false) else input
  }

  function AssignAll(inputs: seq<Input>, participant: Id, turn: Id): seq<Input> {
    seq(|inputs|, i requires 0 <= i < |inputs| => Assign(inputs[i], participant, turn))
  }

  function PrepareBatch(s: Snapshot, participant: Id, turn: Id): seq<Input> {
    if HasTurn(s.preparations, turn) then Assigned(s.inputs, turn)
    else Assigned(s.inputs, turn) + AssignAll(Awaited(s.inputs, participant), participant, turn)
  }

  function AfterPrepare(s: Snapshot, participant: Id, turn: Id): Snapshot {
    if HasTurn(s.preparations, turn) then s
    else s.(preparations := s.preparations + [Preparation(participant, turn)],
            inputs := AssignAll(s.inputs, participant, turn))
  }

  /** The position of the first input `id` of a participant assigned to a Turn, or -1. */
  function AssignedAt(inputs: seq<Input>, participant: Id, turn: Id, id: Id): (at: int)
    ensures -1 <= at < |inputs|
    ensures at >= 0 ==> inputs[at].id == id && inputs[at].participant == participant && inputs[at].deliveredTo == turn
    ensures forall i :: 0 <= i < (if at < 0 then |inputs| else at) ==>
              !(inputs[i].id == id && inputs[i].participant == participant && inputs[i].deliveredTo == turn)
  {
    if |inputs| == 0 then -1
    else
      var last := inputs[|inputs| - 1];
      var earlier := AssignedAt(inputs[..|inputs| - 1], participant, turn, id);
      if earlier >= 0 then earlier
      else if last.id == id && last.participant == participant && last.deliveredTo == turn then |inputs| - 1
      else -1
  }

  function AfterMarkDelivered(s: Snapshot, participant: Id, turn: Id, id: Id): Snapshot {
    var at := AssignedAt(s.inputs, participant, turn, id);
    if at < 0 then s else s.(inputs := s.inputs[at := s.inputs[at].(deliveryPending := false)])
  }

  function Withhold(input: Input, participant: Id, turn: Id): Input {
    if input.participant == participant && input.deliveredTo == turn then input.(deliveryPending := true) else input
  }

  /** An oversized projection omits the batch, which stays pending until it has been read. */
  function AfterProject(s: Snapshot, participant: Id, turn: Id, oversize: bool): Snapshot {
    if !oversize then s
    else s.(inputs := seq(|s.inputs|, i requires 0 <= i < |s.inputs| => Withhold(s.inputs[i], participant, turn)))
  }

  // ----- Assess -----

  predicate DeliveredInput(inputs: seq<Input>, participant: Id, id: Id) {
    exists i :: 0 <= i < |inputs| && inputs[i].id == id && inputs[i].participant == participant && Delivered(inputs[i])
  }

  predicate IsConfirmation(inputs: seq<Input>, id: Id) {
    exists i :: 0 <= i < |inputs| && inputs[i].id == id && inputs[i].kind == ConfirmPlan
  }

  predicate Assessable(inputs: seq<Input>, participant: Id, a: Assessment) {
    && DeliveredInput(inputs, participant, a.inputId)
    && !Blank(a.explanation)
    && a.inputId in a.evidence
    && a.disposition != UnknownDisposition
    && (forall k :: 0 <= k < |a.evidence| ==> DeliveredInput(inputs, participant, a.evidence[k]))
    && (forall k :: 0 <= k < |a.corrects| ==>
          a.corrects[k] != a.inputId && DeliveredInput(inputs, participant, a.corrects[k]))
    && (a.disposition == Confirmed ==> IsConfirmation(inputs, a.inputId))
  }

  predicate CanAssess(s: Snapshot, operation: Id, participant: Id, turn: Id, batch: seq<Assessment>) {
    && operation != NO_ID && |batch| > 0 && HasPreparation(s.preparations, participant, turn)
    && (forall j, k :: 0 <= j < k < |batch| ==> batch[j].inputId != batch[k].inputId)
    && (forall k :: 0 <= k < |batch| ==> Assessable(s.inputs, participant, batch[k]))
  }

  /** A withdrawal, or a confirm-plan input assessed as anything but a confirmation. */
  predicate Withdraws(inputs: seq<Input>, a: Assessment) {
    a.invalidateConfirmation || (IsConfirmation(inputs, a.inputId) && a.disposition != Confirmed)
  }

  /** Adds the confirm-plan inputs among the first `n` that are not there yet. */
  function Invalidate(invalidated: seq<Id>, inputs: seq<Input>, n: nat): seq<Id>
    requires n <= |inputs|
  {
    if n == 0 then invalidated
    else
      var before := Invalidate(invalidated, inputs, n - 1);
      if inputs[n - 1].kind == ConfirmPlan && inputs[n - 1].id !in before then before + [inputs[n - 1].id] else before
  }

  /** How far into the inputs an assessment's withdrawal reaches: through the assessed input. */
  function Reach(inputs: seq<Input>, id: Id): (n: nat)
    ensures n <= |inputs|
  {
    var at := InputAt(inputs, id);
    if at >= 0 then at + 1 else |inputs|
  }

  function Withdrawn(invalidated: seq<Id>, inputs: seq<Input>, batch: seq<Assessment>): seq<Id> {
    if |batch| == 0 then invalidated
    else
      var last := batch[|batch| - 1];
      var before := Withdrawn(invalidated, inputs, batch[..|batch| - 1]);
      if Withdraws(inputs, last) then Invalidate(before, inputs, Reach(inputs, last.inputId)) else before
  }

  function Recorded(operation: Id, batch: seq<Assessment>): seq<Assessment> {
    seq(|batch|, k requires 0 <= k < |batch| => batch[k].(origin := operation))
  }

  function AfterAssess(s: Snapshot, operation: Id, participant: Id, turn: Id, batch: seq<Assessment>): Snapshot {
    if !CanAssess(s, operation, participant, turn, batch) then s
    else
      s.(assessments := s.assessments + Recorded(operation, batch),
         planning :=
           if s.planning.Some? && s.planning.value.readyRevision == NO_ID then
             Some(s.planning.value.(invalidated := Withdrawn(s.planning.value.invalidated, s.inputs, batch)))
           else s.planning)
  }

  // ----- Resolve -----

  /** A delivered response that may be cited as evidence about `question` in `round`. */
  ghost predicate Citable(s: Snapshot, round: Round, question: Id, id: Id) {
    exists i :: 0 <= i < |s.inputs| && s.inputs[i].id == id && CitableInput(s, round, question, s.inputs[i])
  }

  ghost predicate CitableInput(s: Snapshot, round: Round, question: Id, input: Input) {
    && Delivered(input) && input.participant == round.participant
    && (|| input.roundId == NO_ID
        || QuestionInRound(s.rounds, input.roundId, question, round.participant)
        || exists k :: 0 <= k < |round.resolutions| && round.resolutions[k].questionId == question &&
                       RevisesAny(s.inputs, s.assessments, input.id, round.resolutions[k].responseIds))
  }

  ghost predicate Resolvable(s: Snapshot, round: Round, r: Resolution) {
    && !Blank(r.explanation)
    && (|r.responseIds| == 0 ==> r.obsolete)
    && Asks(round.questions, r.questionId)
    && (round.supersededBy != NO_ID ==> Latest(round.resolutions, r.questionId).Some?)
    && CanRevise(s.inputs, s.assessments, Latest(round.resolutions, r.questionId), r)
    && (round.supersededBy != NO_ID ==>
          forall j :: 0 <= j < |s.rounds| && Receives(s, round, s.rounds[j], r.questionId) ==>
            CanRevise(s.inputs, s.assessments, Latest(s.rounds[j].resolutions, r.questionId), r))
    && (forall k :: 0 <= k < |r.responseIds| ==> Citable(s, round, r.questionId, r.responseIds[k]))
  }

  /** `other` is the current round of the same participant and still carries the question. */
  predicate Receives(s: Snapshot, round: Round, other: Round, question: Id) {
    other.id == s.currentRound && other.participant == round.participant && Asks(other.questions, question)
  }

  /** The interpretation with the competing evidence that had been delivered when it was made. */
  ghost function Covering(s: Snapshot, r: Resolution): Resolution {
    r.(considered := Considered(s.inputs, s.assessments, s.inputs, r.responseIds))
  }

  ghost predicate CanResolve(s: Snapshot, round: Id, turn: Id, rs: seq<Resolution>) {
    var at := RoundAt(s.rounds, round);
    && at >= 0 && s.rounds[at].published
    && HasPreparation(s.preparations, s.rounds[at].participant, turn)
    && (forall j, k :: 0 <= j < k < |rs| ==> rs[j].questionId != rs[k].questionId)
    && (forall k :: 0 <= k < |rs| ==> Resolvable(s, s.rounds[at], rs[k]))
    && (forall k :: 0 <= k < |rs| ==> Current(s.inputs, s.assessments, Covering(s, rs[k])))
  }

  /** The interpretations as recorded: covered, and numbered in the order they were given. */
  ghost function Sequenced(s: Snapshot, rs: seq<Resolution>): seq<Resolution> {
    seq(|rs|, k requires 0 <= k < |rs| => Covering(s, rs[k]).(sequence := s.interpretationSequence + k + 1))
  }

  /** The interpretations of questions that are among `questions`. */
  function About(rs: seq<Resolution>, questions: seq<Question>): seq<Resolution> {
    if |rs| == 0 then []
    else
      About(rs[..|rs| - 1], questions) +
      if Asks(questions, rs[|rs| - 1].questionId) then [rs[|rs| - 1]] else []
  }

  /** What round `j` gains when `recorded` is recorded in round `at`. */
  function Gains(s: Snapshot, at: nat, j: nat, recorded: seq<Resolution>): seq<Resolution>
    requires at < |s.rounds| && j < |s.rounds|
  {
    (if j == at then recorded else []) +
    if s.rounds[at].supersededBy != NO_ID && s.rounds[j].id == s.currentRound &&
       s.rounds[j].participant == s.rounds[at].participant
    then About(recorded, s.rounds[j].questions) else []
  }

  function RecordedRounds(s: Snapshot, at: nat, recorded: seq<Resolution>): seq<Round>
    requires at < |s.rounds|
  {
    seq(|s.rounds|, j requires 0 <= j < |s.rounds| =>
      s.rounds[j].(resolutions := s.rounds[j].resolutions + Gains(s, at, j, recorded)))
  }

  ghost function AfterResolve(s: Snapshot, round: Id, turn: Id, rs: seq<Resolution>): Snapshot {
    if !CanResolve(s, round, turn, rs) then s
    else s.(rounds := RecordedRounds(s, RoundAt(s.rounds, round), Sequenced(s, rs)),
            interpretationSequence := s.interpretationSequence + |rs|)
  }

  // ----- Planning -----

  function CanStart(s: Snapshot, original: OriginalRequest): bool {
    if s.planning.Some? then s.planning.value.originalRequest == original
    else !Blank(original.title) && original.source.channel != NO_ID && original.source.id != NO_ID
  }

  function AfterStart(s: Snapshot, original: OriginalRequest): Snapshot {
    if !CanStart(s, original) || s.planning.Some? then s
    else s.(planning := Some(Planning([], [], original, [], NO_ID, NO_ID, [])))
  }

  predicate Printable(text: string) {
    !Blank(text) && '\0' !in text
  }

  /** The structural requirements on a checkpoint's documents. */
  predicate WellFormed(c: Content) {
    && Printable(c.title) && Printable(c.summary) && Printable(c.changes)
    && Printable(c.requirementsBrief) && Printable(c.technicalPlan)
    && c.status != UnknownStatus && IsCommit(c.investigatedCommit) && |c.evidence| > 0
    && (forall k :: 0 <= k < |c.evidence| ==> !Blank(c.evidence[k]))
    && (forall k :: 0 <= k < |c.unresolvedDecisions| ==> !Blank(c.unresolvedDecisions[k]))
  }

  /** An input a checkpoint of this Turn may cite as a decision. */
  predicate Decides(input: Input, participant: Id, turn: Id, id: Id) {
    input.id == id && input.participant == participant && input.deliveredTo != NO_ID &&
    (!input.deliveryPending || input.deliveredTo == turn) && input.kind != ConfirmPlan
  }

  function DecisionAt(inputs: seq<Input>, participant: Id, turn: Id, id: Id): (at: int)
    ensures -1 <= at < |inputs|
    ensures at >= 0 ==> Decides(inputs[at], participant, turn, id)
    ensures forall i :: 0 <= i < (if at < 0 then |inputs| else at) ==> !Decides(inputs[i], participant, turn, id)
  {
    if |inputs| == 0 then -1
    else
      var earlier := DecisionAt(inputs[..|inputs| - 1], participant, turn, id);
      if earlier >= 0 then earlier
      else if Decides(inputs[|inputs| - 1], participant, turn, id) then |inputs| - 1 else -1
  }

  predicate Cites(inputs: seq<Input>, participant: Id, turn: Id, ids: seq<Id>) {
    && (forall j, k :: 0 <= j < k < |ids| ==> ids[j] != ids[k])
    && (forall k :: 0 <= k < |ids| ==> DecisionAt(inputs, participant, turn, ids[k]) >= 0)
  }

  function Decisions(inputs: seq<Input>, participant: Id, turn: Id, ids: seq<Id>): seq<Input>
    requires forall k :: 0 <= k < |ids| ==> DecisionAt(inputs, participant, turn, ids[k]) >= 0
  {
    seq(|ids|, k requires 0 <= k < |ids| => inputs[DecisionAt(inputs, participant, turn, ids[k])])
  }

  predicate Unread(inputs: seq<Input>, participant: Id) {
    exists i :: 0 <= i < |inputs| && inputs[i].participant == participant && inputs[i].deliveryPending
  }

  /** Why a participant may not publish a checkpoint yet: unread input takes precedence. */
  function InputReason(inputs: seq<Input>, participant: Id): Option<NonPublicationReason> {
    if Unread(inputs, participant) then Some(UnreadInput)
    else if Pending(inputs, participant) then Some(LateInput)
    else None
  }

  datatype Reservation = Reserved(revision: Revision) | NotApplied(evidence: NonPublication) | Invalid

  /** The position of the first non-publication of an operation, or -1. */
  function NonPublicationAt(nonPublications: seq<NonPublication>, id: Id): (at: int)
    ensures -1 <= at < |nonPublications|
    ensures at >= 0 ==> nonPublications[at].operation == id
    ensures forall i :: 0 <= i < (if at < 0 then |nonPublications| else at) ==> nonPublications[i].operation != id
  {
    if |nonPublications| == 0 then -1
    else
      var earlier := NonPublicationAt(nonPublications[..|nonPublications| - 1], id);
      if earlier >= 0 then earlier
      else if nonPublications[|nonPublications| - 1].operation == id then |nonPublications| - 1 else -1
  }

  /** The revision is the first of its name, and no earlier one is still waiting to be published. */
  predicate ReplayableRevision(revisions: seq<Revision>, at: nat)
    requires at < |revisions|
  {
    forall i :: 0 <= i < at ==> revisions[i].published || revisions[i].publicationFailed
  }

  function NewRevision(s: Snapshot, id: Id, participant: Id, turn: Id, c: Content): Revision
    requires s.planning.Some?
    requires forall k :: 0 <= k < |c.decisionResponseIds| ==>
               DecisionAt(s.inputs, participant, turn, c.decisionResponseIds[k]) >= 0
  {
    var current := CurrentCheckpoint(s.planning);
    Revision(NameFor(s.references, PlanRef, id), if current.Some? then current.value.reference else "",
             id, s.planning.value.currentRevision, participant, turn, c, s.planning.value.originalRequest,
             Decisions(s.inputs, participant, turn, c.decisionResponseIds), false, false, None)
  }

  /** The recorded answer to an operation seen before, or that it may not start while a revision is pending. */
  function Replayed(p: Planning, id: Id, participant: Id, turn: Id, c: Content): (answer: Option<Reservation>)
    ensures answer.None? ==> NonPublicationAt(p.nonPublications, id) < 0 && RevisionAt(p.revisions, id) < 0
    ensures answer.Some? && !answer.value.Invalid? ==>
              NonPublicationAt(p.nonPublications, id) >= 0 || RevisionAt(p.revisions, id) >= 0
  {
    var refused := NonPublicationAt(p.nonPublications, id);
    var at := RevisionAt(p.revisions, id);
    if refused >= 0 then
      var old_ := p.nonPublications[refused];
      Some(if old_.participant == participant && old_.turn == turn && old_.content == c then NotApplied(old_)
           else Invalid)
    else if at >= 0 then
      var old_ := p.revisions[at];
      Some(if ReplayableRevision(p.revisions, at) && old_.participant == participant && old_.turn == turn &&
              old_.content == c
           then Reserved(old_) else Invalid)
    else if exists i :: 0 <= i < |p.revisions| && !p.revisions[i].published && !p.revisions[i].publicationFailed
    then Some(Invalid)
    else None
  }

  /** What `ReserveCheckpoint` answers. */
  ghost function Reserve(s: Snapshot, id: Id, participant: Id, turn: Id, c: Content): (answer: Reservation)
    ensures !answer.Invalid? ==> s.planning.Some?
  {
    if s.planning.None? || id == NO_ID || participant == NO_ID || turn == NO_ID ||
      s.planning.value.readyRevision != NO_ID
    then Invalid
    else
      var replay := Replayed(s.planning.value, id, participant, turn, c);
      if replay.Some? then replay.value
      else if !WellFormed(c) || !HasPreparation(s.preparations, participant, turn) ||
              !Cites(s.inputs, participant, turn, c.decisionResponseIds)
      then Invalid
      else
        var reason := InputReason(s.inputs, participant);
        if reason.Some? then NotApplied(NonPublication(id, participant, turn, c, reason.value))
        else if c.status == Proposed &&
                (|c.unresolvedDecisions| > 0 || AssessmentBlocked(s.inputs, s.assessments, participant) ||
                  Unresolved(s, participant))
        then Invalid
        else Reserved(NewRevision(s, id, participant, turn, c))
  }

  ghost function AfterReserve(s: Snapshot, id: Id, participant: Id, turn: Id, c: Content): Snapshot {
    var answer := Reserve(s, id, participant, turn, c);
    if answer.Invalid? || NonPublicationAt(s.planning.value.nonPublications, id) >= 0 ||
       RevisionAt(s.planning.value.revisions, id) >= 0
    then s
    else
      var p := s.planning.value;
      s.(references := Allocate(s.references, PlanRef, id),
         planning := Some(
           if answer.Reserved? then p.(revisions := p.revisions + [answer.revision])
           else p.(nonPublications := p.nonPublications + [answer.evidence])))
  }

  predicate CanConfirm(s: Snapshot, id: Id, source: Source) {
    s.planning.Some? && source.channel != NO_ID && source.id != NO_ID &&
    var at := RevisionAt(s.planning.value.revisions, id);
    at >= 0 && !s.planning.value.revisions[at].publicationFailed &&
    (s.planning.value.revisions[at].published ==> s.planning.value.revisions[at].source == Some(source))
  }

  function AfterConfirm(s: Snapshot, id: Id, source: Source): Snapshot {
    if !CanConfirm(s, id, source) then s
    else
      var p := s.planning.value;
      var at := RevisionAt(p.revisions, id);
      if p.revisions[at].published then s
      else
        s.(planning := Some(p.(
          revisions := p.revisions[at := p.revisions[at].(published := true, source := Some(source))],
          currentRevision := id)))
  }

  /** The position of the first unpublished revision called `id`, or -1. */
  function UnpublishedAt(revisions: seq<Revision>, id: Id): (at: int)
    ensures -1 <= at < |revisions|
    ensures at >= 0 ==> revisions[at].id == id && !revisions[at].published
    ensures forall i :: 0 <= i < (if at < 0 then |revisions| else at) ==>
            !(revisions[i].id == id && !revisions[i].published)
  {
    if |revisions| == 0 then -1
    else
      var last := revisions[|revisions| - 1];
      var earlier := UnpublishedAt(revisions[..|revisions| - 1], id);
      if earlier >= 0 then earlier else if last.id == id && !last.published then |revisions| - 1 else -1
  }

  function AfterFailCheckpoint(s: Snapshot, id: Id): Snapshot {
    if s.planning.None? then s
    else
      var p := s.planning.value;
      var at := UnpublishedAt(p.revisions, id);
      if at < 0 then s
      else s.(planning := Some(p.(revisions := p.revisions[at := p.revisions[at].(publicationFailed := true)])))
  }

  predicate Counts(input: Input, participant: Id) {
    input.participant == participant && Delivered(input)
  }

  /** The delivered inputs of a participant, in admission order. */
  function ConsideredInputs(inputs: seq<Input>, participant: Id): seq<Id> {
    if |inputs| == 0 then []
    else
      var last := inputs[|inputs| - 1];
      ConsideredInputs(inputs[..|inputs| - 1], participant) + if Counts(last, participant) then [last.id] else []
  }

  /** A delivered confirmation of exactly this revision that is assessed as one and was not withdrawn. */
  predicate Authorizes(s: Snapshot, input: Input, revision: Id, participant: Id)
    requires s.planning.Some?
  {
    Counts(input, participant) && input.kind == ConfirmPlan && input.target == revision &&
    input.id !in s.planning.value.invalidated && ConfirmedBy(s.assessments, input.id)
  }

  /** The last authorizing confirmation among `inputs`; `NO_ID` when there is none. */
  function Authority(s: Snapshot, inputs: seq<Input>, revision: Id, participant: Id): Id
    requires s.planning.Some?
  {
    if |inputs| == 0 then NO_ID
    else if Authorizes(s, inputs[|inputs| - 1], revision, participant) then inputs[|inputs| - 1].id
    else Authority(s, inputs[..|inputs| - 1], revision, participant)
  }

  ghost predicate Validatable(
    s: Snapshot, operation: Id, revision: Id, participant: Id, turn: Id, commit: string, evidence: string,
    resolved: bool)
  {
    && operation != NO_ID && resolved && IsCommit(commit) && !Blank(evidence)
    && !Pending(s.inputs, participant) && !Unresolved(s, participant)
    && !AssessmentBlocked(s.inputs, s.assessments, participant)
    && CurrentCheckpoint(s.planning).Some?
    && (var r := CurrentCheckpoint(s.planning).value;
        r.published && r.id == revision && r.participant == participant && r.content.status == Proposed)
    && HasPreparation(s.preparations, participant, turn)
    && Authority(s, s.inputs, revision, participant) != NO_ID
  }

  function NewValidation(
    s: Snapshot, operation: Id, revision: Id, participant: Id, turn: Id, commit: string, evidence: string): Revalidation
    requires s.planning.Some?
  {
    Revalidation(operation, revision, participant, turn, commit, evidence,
                 Authority(s, s.inputs, revision, participant), ConsideredInputs(s.inputs, participant))
  }

  /** The position of the first validation recorded by a Turn, or -1. */
  function ValidationAt(validations: seq<Revalidation>, turn: Id): (at: int)
    ensures -1 <= at < |validations|
    ensures at >= 0 ==> validations[at].turn == turn
    ensures forall i :: 0 <= i < (if at < 0 then |validations| else at) ==> validations[i].turn != turn
  {
    if |validations| == 0 then -1
    else
      var earlier := ValidationAt(validations[..|validations| - 1], turn);
      if earlier >= 0 then earlier
      else if validations[|validations| - 1].turn == turn then |validations| - 1 else -1
  }

  ghost predicate CanValidate(
    s: Snapshot, operation: Id, revision: Id, participant: Id, turn: Id, commit: string, evidence: string,
    resolved: bool)
  {
    Validatable(s, operation, revision, participant, turn, commit, evidence, resolved) &&
    var at := ValidationAt(s.planning.value.revalidations, turn);
    if at >= 0 then s.planning.value.revalidations[at] ==
      NewValidation(s, operation, revision, participant, turn, commit, evidence)
    else s.planning.value.readyRevision == NO_ID
  }

  ghost function AfterValidate(
    s: Snapshot, operation: Id, revision: Id, participant: Id, turn: Id, commit: string, evidence: string,
    resolved: bool): Snapshot
  {
    if !CanValidate(s, operation, revision, participant, turn, commit, evidence, resolved) ||
       ValidationAt(s.planning.value.revalidations, turn) >= 0
    then s
    else
      s.(planning := Some(s.planning.value.(
        revalidations := s.planning.value.revalidations +
          [NewValidation(s, operation, revision, participant, turn, commit, evidence)])))
  }

  /** A validation of this Turn that still holds when the Turn is settled. */
  ghost predicate Commits(s: Snapshot, turn: Id, v: Revalidation)
    requires s.planning.Some?
  {
    v.turn == turn && v.revision == s.planning.value.currentRevision && ValidationCurrent(s, v)
  }

  ghost predicate CanCommit(s: Snapshot, participant: Id, turn: Id) {
    && s.planning.Some?
    && !Pending(s.inputs, participant) && !Unresolved(s, participant)
    && !AssessmentBlocked(s.inputs, s.assessments, participant)
    && exists i :: 0 <= i < |s.planning.value.revalidations| && Commits(s, turn, s.planning.value.revalidations[i])
  }

  ghost function AfterCommit(s: Snapshot, participant: Id, turn: Id): Snapshot {
    if !CanCommit(s, participant, turn) then s
    else s.(planning := Some(s.planning.value.(readyRevision := s.planning.value.currentRevision)))
  }

  // ----- Runs -----

  datatype Step =
    | Request(id: Id, participant: Id, turn: Id, head: Id, questions: seq<Question>)
    | Publish(id: Id, source: Source)
    | FailPublication(id: Id)
    | Accept(id: Id, command: Command, admission: Admission)
    | Prepare(participant: Id, turn: Id)
    | MarkDelivered(participant: Id, turn: Id, id: Id)
    | Project(participant: Id, turn: Id, oversize: bool)
    | Assess(operation: Id, participant: Id, turn: Id, batch: seq<Assessment>)
    | Resolve(round: Id, turn: Id, resolutions: seq<Resolution>)
    | StartPlanning(original: OriginalRequest)
    | ReserveCheckpoint(id: Id, participant: Id, turn: Id, content: Content)
    | ConfirmCheckpoint(id: Id, source: Source)
    | FailCheckpoint(id: Id)
    | ValidatePlanning(operation: Id, revision: Id, participant: Id, turn: Id, commit: string, evidence: string,
      resolved: bool)
    | CommitReadiness(participant: Id, turn: Id)

  ghost function Apply(s: Snapshot, step: Step): Snapshot {
    match step
    case Request(id, participant, turn, head, questions) => AfterRequest(s, id, participant, turn, head, questions)
    case Publish(id, source) => AfterPublish(s, id, source)
    case FailPublication(id) => AfterFail(s, id)
    case Accept(id, c, a) => AfterAccept(s, id, c, a)
    case Prepare(participant, turn) => AfterPrepare(s, participant, turn)
    case MarkDelivered(participant, turn, id) => AfterMarkDelivered(s, participant, turn, id)
    case Project(participant, turn, oversize) => AfterProject(s, participant, turn, oversize)
    case Assess(operation, participant, turn, batch) => AfterAssess(s, operation, participant, turn, batch)
    case Resolve(round, turn, rs) => AfterResolve(s, round, turn, rs)
    case StartPlanning(original) => AfterStart(s, original)
    case ReserveCheckpoint(id, participant, turn, c) => AfterReserve(s, id, participant, turn, c)
    case ConfirmCheckpoint(id, source) => AfterConfirm(s, id, source)
    case FailCheckpoint(id) => AfterFailCheckpoint(s, id)
    case ValidatePlanning(operation, revision, participant, turn, commit, evidence, resolved) =>
      AfterValidate(s, operation, revision, participant, turn, commit, evidence, resolved)
    case CommitReadiness(participant, turn) => AfterCommit(s, participant, turn)
  }

  ghost function Run(s: Snapshot, steps: seq<Step>): Snapshot {
    if |steps| == 0 then s else Apply(Run(s, steps[..|steps| - 1]), steps[|steps| - 1])
  }
}
