/** What no later operation can undo. */
module Permanence {
  import opened Basics
  import opened Names
  import opened Conversation
  import opened Evidence
  import opened Steps
  import opened Invariants
  import opened Preservation
  import opened Guarantees

  // ----- Permanent names -----

  /** The i-th input is A<i>, the i-th round is R<i>, and each name means the same record forever. */
  lemma NamesArePermanent(s: Snapshot, steps: seq<Step>, i: nat)
    requires Good(s)
    ensures var later := Run(s, steps);
            && Extends(s, later)
            && (i < |s.inputs| ==>
                  s.inputs[i].reference == Name(InputRef, i + 1) &&
                  Target(later.references, InputRef, s.inputs[i].reference) == s.inputs[i].id &&
                  SameInput(s.inputs[i], later.inputs[i]))
            && (i < |s.rounds| ==>
                  s.rounds[i].reference == Name(RoundRef, i + 1) &&
                  Target(later.references, RoundRef, s.rounds[i].reference) == s.rounds[i].id &&
                  SameRound(s.rounds[i], later.rounds[i]))
            && (s.planning.Some? && i < |s.planning.value.revisions| ==>
                  var r := s.planning.value.revisions[i];
                  Target(later.references, PlanRef, r.reference) == r.id &&
                  SameRevision(r, later.planning.value.revisions[i]))
  {
    var later := Run(s, steps);
    RunGood(s, steps);
    assert NamesOk(s.references, s.rounds, s.inputs) && NamesOk(later.references, later.rounds, later.inputs);
    assert PlanningOk(s.planning, s.inputs, s.references);
    hide Good, Run;
    if i < |s.inputs| {
      NamedContains(s.references, InputRef, s.inputs[i].id);
      assert InputIds(s.inputs)[i] == s.inputs[i].id;
      InputNamed(s.references, s.rounds, s.inputs, i);
      NameMeans(s.references, later.references, InputRef, s.inputs[i].id, s.inputs[i].reference);
    }
    if i < |s.rounds| {
      RoundNamed(s.references, s.rounds, s.inputs, i);
      NameMeans(s.references, later.references, RoundRef, s.rounds[i].id, s.rounds[i].reference);
    }
    if s.planning.Some? && i < |s.planning.value.revisions| {
      var r := s.planning.value.revisions[i];
      assert PlanNamed(s.references, s.planning.value);
      NameMeans(s.references, later.references, PlanRef, r.id, r.reference);
    }
  }

  lemma NameMeans(references: seq<Reference>, later: seq<Reference>, kind: RefKind, id: Id, name: string)
    requires Reference(name, id, kind) in references && Numbered(later) && references <= later
    ensures Target(later, kind, name) == id
  {
    var k :| 0 <= k < |references| && references[k] == Reference(name, id, kind);
    assert later[k] == references[k];
    var at := NameAt(later, kind, name);
    if at < k {
      NamesDistinct(later, at, k);
    }
  }

  lemma {:induction false} NamedAt(references: seq<Reference>, kind: RefKind, i: nat)
    requires Numbered(references) && i < |Named(references, kind)|
    ensures Reference(Name(kind, i + 1), Named(references, kind)[i], kind) in references
  {
    var shorter := references[..|references| - 1];
    var last := references[|references| - 1];
    assert NumberedAt(references, |references| - 1);
    NumberedPrefix(references);
    if i < |Named(shorter, kind)| {
      NamedAt(shorter, kind, i);
    } else {
      assert last in references;
    }
  }

  lemma NumberedPrefix(references: seq<Reference>)
    requires Numbered(references) && |references| > 0
    ensures Numbered(references[..|references| - 1])
  {
    var shorter := references[..|references| - 1];
    forall i | 0 <= i < |shorter| ensures NumberedAt(shorter, i) {
      assert NumberedAt(references, i) && shorter[..i] == references[..i];
    }
  }

  lemma InputNamed(references: seq<Reference>, rounds: seq<Round>, inputs: seq<Input>, i: nat)
    requires NamesOk(references, rounds, inputs) && i < |inputs|
    ensures Reference(inputs[i].reference, inputs[i].id, InputRef) in references
  {
    NamedAt(references, InputRef, i);
    assert InputIds(inputs)[i] == inputs[i].id;
  }

  lemma RoundNamed(references: seq<Reference>, rounds: seq<Round>, inputs: seq<Input>, i: nat)
    requires NamesOk(references, rounds, inputs) && i < |rounds|
    ensures Reference(rounds[i].reference, rounds[i].id, RoundRef) in references
  {
    NamedAt(references, RoundRef, i);
    assert RoundIds(rounds)[i] == rounds[i].id;
  }

  // ----- Exactly-once admission -----

  /** Whatever happens in between, a source is answered by its first receipt and admits nothing again. */
  lemma AcceptIsExactlyOnce(
    s: Snapshot, id: Id, c: Command, a: Admission, steps: seq<Step>, id': Id, c': Command, a': Admission)
    requires Good(s) && SameSource(a.source, a'.source)
    ensures var later := Run(AfterAccept(s, id, c, a), steps);
            AcceptReceipt(later, id', c', a') == AcceptReceipt(s, id, c, a) && AfterAccept(later, id', c', a') == later
  {
    var first := AfterAccept(s, id, c, a);
    var later := Run(first, steps);
    ReceiptsGrow(s, id, c, a, steps);
    FirstReceipt(s, id, c, a);
    var at := ReceiptAt(first.receipts, a.source);
    hide Screen, Good, Extends, Run;
    assert later.receipts[at] == first.receipts[at];
    var found := ReceiptAt(later.receipts, a'.source);
    assert found == at;
  }

  lemma ReceiptsGrow(s: Snapshot, id: Id, c: Command, a: Admission, steps: seq<Step>)
    requires Good(s)
    ensures AfterAccept(s, id, c, a).receipts <= Run(AfterAccept(s, id, c, a), steps).receipts
  {
    AcceptGood(s, id, c, a);
    hide AfterAccept, Good;
    RunGood(AfterAccept(s, id, c, a), steps);
  }

  lemma FirstReceipt(s: Snapshot, id: Id, c: Command, a: Admission)
    ensures var receipts := AfterAccept(s, id, c, a).receipts;
            ReceiptAt(receipts, a.source) >= 0 && receipts[ReceiptAt(receipts, a.source)] == AcceptReceipt(s, id, c, a)
  {
    var receipts := AfterAccept(s, id, c, a).receipts;
    if ReceiptAt(s.receipts, a.source) < 0 {
      assert receipts[..|receipts| - 1] == s.receipts;
      assert SameSource(receipts[|receipts| - 1].source, a.source);
    }
  }

  /** Admissions are conserved: the admitting receipts list exactly the inputs, in order. */
  lemma AdmissionsAreInputs(steps: seq<Step>, i: nat)
    ensures var s := Run(EMPTY, steps);
            |Admitted(s.receipts)| == |s.inputs| &&
            (i < |s.inputs| ==>
               Admitted(s.receipts)[i] ==
               Receipt(s.inputs[i].id, s.inputs[i].source, s.inputs[i].id, QueuedAs(Name(InputRef, i + 1))))
  {
    EmptyGood();
    RunGood(EMPTY, steps);
    var s := Run(EMPTY, steps);
    assert ReceiptsOk(s.receipts, s.inputs) && NamesOk(s.references, s.rounds, s.inputs);
    hide Good, Extends, Numbered;
  }

  // ----- Turn batches -----

  function Ids(inputs: seq<Input>): seq<Id> {
    seq(|inputs|, i requires 0 <= i < |inputs| => inputs[i].id)
  }

  lemma {:induction false} AssignedNone(inputs: seq<Input>, turn: Id)
    requires forall i :: 0 <= i < |inputs| ==> inputs[i].deliveredTo != turn
    ensures Assigned(inputs, turn) == []
  {
    if |inputs| > 0 {
      AssignedNone(inputs[..|inputs| - 1], turn);
    }
  }

  lemma {:induction false} AssignedAfterAwaited(inputs: seq<Input>, participant: Id, turn: Id)
    requires forall i :: 0 <= i < |inputs| ==> inputs[i].deliveredTo != turn
    ensures Assigned(AssignAll(inputs, participant, turn), turn) ==
            AssignAll(Awaited(inputs, participant), participant, turn)
  {
    if |inputs| > 0 {
      var shorter := inputs[..|inputs| - 1];
      AssignedAfterAwaited(shorter, participant, turn);
      var all := AssignAll(inputs, participant, turn);
      assert all[..|all| - 1] == AssignAll(shorter, participant, turn);
      var before := Awaited(shorter, participant);
      var last := inputs[|inputs| - 1];
      if Awaiting(last, participant) {
        assert AssignAll(before + [last], participant, turn) ==
               AssignAll(before, participant, turn) + [Assign(last, participant, turn)];
      } else {
        assert Awaited(inputs, participant) == before;
      }
    }
  }

  /** The first preparation of a Turn freezes exactly what its participant was waiting for, in admission order. */
  lemma PrepareFreezesPending(s: Snapshot, participant: Id, turn: Id)
    requires Good(s) && turn != NO_ID && !HasTurn(s.preparations, turn)
    ensures var batch := PrepareBatch(s, participant, turn);
            var later := AfterPrepare(s, participant, turn);
            && Ids(batch) == Ids(Awaited(s.inputs, participant))
            && batch == Assigned(later.inputs, turn)
            && !Pending(later.inputs, participant)
  {
    assert DeliveriesOk(s.inputs, s.preparations);
    hide Good;
    NewTurnUnassigned(s.inputs, s.preparations, turn);
    hide DeliveriesOk;
    AssignedNone(s.inputs, turn);
    AssignedAfterAwaited(s.inputs, participant, turn);
    var awaited := Awaited(s.inputs, participant);
    assert [] + AssignAll(awaited, participant, turn) == AssignAll(awaited, participant, turn);
    assert !Pending(AssignAll(s.inputs, participant, turn), participant);
    hide Assigned, Awaited, Pending;
  }

  /** In every reachable state a delivered input belongs to a Turn that was prepared for its own participant,
      and no Turn is prepared twice. */
  lemma DeliveredWasPrepared(steps: seq<Step>)
    ensures var s := Run(EMPTY, steps);
            && (forall input <- s.inputs :: input.deliveredTo != NO_ID ==>
                  Preparation(input.participant, input.deliveredTo) in s.preparations)
            && (forall a, b :: 0 <= a < b < |s.preparations| ==> s.preparations[a].turn != s.preparations[b].turn)
  {
    EmptyGood();
    RunGood(EMPTY, steps);
    var s := Run(EMPTY, steps);
    assert DeliveriesOk(s.inputs, s.preparations);
    hide Good, Run, Extends;
  }

  lemma NewTurnUnassigned(inputs: seq<Input>, preparations: seq<Preparation>, turn: Id)
    requires DeliveriesOk(inputs, preparations) && turn != NO_ID && !HasTurn(preparations, turn)
    ensures forall i :: 0 <= i < |inputs| ==> inputs[i].deliveredTo != turn
  {
  }

  /** The step moves the input to another Turn: it was still to be read when that Turn was first prepared. */
  predicate Takes(s: Snapshot, step: Step, i: nat) {
    step.Prepare? && !HasTurn(s.preparations, step.turn) && i < |s.inputs| && Awaiting(s.inputs[i], step.participant)
  }

  /** Some step of the run does. */
  ghost predicate Lost(s: Snapshot, steps: seq<Step>, i: nat) {
    exists k :: 0 <= k < |steps| && Takes(Run(s, steps[..k]), steps[k], i)
  }

  /** Of the first `n` inputs those assigned to the Turn that no step of the run moves. */
  ghost function Unmoved(s: Snapshot, steps: seq<Step>, turn: Id, n: nat): seq<Id>
    requires n <= |s.inputs|
  {
    if n == 0 then []
    else
      Unmoved(s, steps, turn, n - 1) +
      if s.inputs[n - 1].deliveredTo == turn && !Lost(s, steps, n - 1) then [s.inputs[n - 1].id] else []
  }

  /** The input keeps its identity, and belongs to the prepared Turn as before unless the step moves it. */
  predicate Assigns(s: Snapshot, later: Snapshot, turn: Id, i: nat, moved: bool)
    requires i < |later.inputs|
  {
    && (i < |s.inputs| ==> later.inputs[i].id == s.inputs[i].id)
    && (later.inputs[i].deliveredTo == turn <==> i < |s.inputs| && s.inputs[i].deliveredTo == turn && !moved)
  }

  lemma StepAssigns(s: Snapshot, step: Step, turn: Id)
    requires turn != NO_ID && HasTurn(s.preparations, turn)
    ensures HasTurn(Apply(s, step).preparations, turn) && |s.inputs| <= |Apply(s, step).inputs|
    ensures forall i: nat :: i < |Apply(s, step).inputs| ==> Assigns(s, Apply(s, step), turn, i, Takes(s, step, i))
  {
    hide CanRequest, Reserve, CanValidate, CanResolve, CanCommit, CanAssess, Screen, CanPublish, CanFail, CanConfirm;
    match step {
      case Prepare(participant, t) => PreparedTurns(s, participant, t, turn);
      case _ =>
    }
  }

  lemma PreparedTurns(s: Snapshot, participant: Id, t: Id, turn: Id)
    requires HasTurn(s.preparations, turn)
    ensures HasTurn(AfterPrepare(s, participant, t).preparations, turn)
    ensures t == turn ==> AfterPrepare(s, participant, t) == s
  {
    var k :| 0 <= k < |s.preparations| && s.preparations[k].turn == turn;
    assert AfterPrepare(s, participant, t).preparations[k] == s.preparations[k];
  }

  lemma LostSnoc(s: Snapshot, steps: seq<Step>, step: Step, i: nat)
    ensures Lost(s, steps + [step], i) <==> Lost(s, steps, i) || Takes(Run(s, steps), step, i)
  {
    hide Run, Takes;
    var all := steps + [step];
    assert all[..|steps|] == steps && forall k :: 0 <= k < |steps| ==> all[..k] == steps[..k];
    if k :| 0 <= k < |steps| && Takes(Run(s, steps[..k]), steps[k], i) {
      assert Takes(Run(s, all[..k]), all[k], i);
    }
    if Takes(Run(s, steps), step, i) {
      assert Takes(Run(s, all[..|steps|]), all[|steps|], i);
    }
  }

  lemma {:induction false} RunAssigns(s: Snapshot, steps: seq<Step>, turn: Id)
    requires turn != NO_ID && HasTurn(s.preparations, turn)
    ensures HasTurn(Run(s, steps).preparations, turn) && |s.inputs| <= |Run(s, steps).inputs|
    ensures forall i: nat :: i < |Run(s, steps).inputs| ==> Assigns(s, Run(s, steps), turn, i, Lost(s, steps, i))
  {
    hide Apply, Lost, Takes, HasTurn;
    if |steps| == 0 {
      forall i: nat ensures !Lost(s, [], i) {
        NothingLost(s, i);
      }
    } else {
      var before, last := steps[..|steps| - 1], steps[|steps| - 1];
      RunAssigns(s, before, turn);
      StepAssigns(Run(s, before), last, turn);
      assert steps == before + [last];
      forall i: nat | i < |Run(s, steps).inputs| ensures Assigns(s, Run(s, steps), turn, i, Lost(s, steps, i)) {
        LostSnoc(s, before, last, i);
        assert Assigns(Run(s, before), Run(s, steps), turn, i, Takes(Run(s, before), last, i));
        assert i < |Run(s, before).inputs| ==> Assigns(s, Run(s, before), turn, i, Lost(s, before, i));
      }
    }
  }

  lemma NothingLost(s: Snapshot, i: nat)
    ensures !Lost(s, [], i)
  {
  }

  lemma {:induction false} AssignedIsUnmoved(s: Snapshot, steps: seq<Step>, turn: Id, later: Snapshot, n: nat)
    requires n <= |later.inputs| && |s.inputs| <= |later.inputs|
    requires forall i: nat :: i < |later.inputs| ==> Assigns(s, later, turn, i, Lost(s, steps, i))
    ensures Ids(Assigned(later.inputs[..n], turn)) == Unmoved(s, steps, turn, Min(n, |s.inputs|))
  {
    hide Lost, Assigned, Ids;
    if n == 0 {
      NoneAssigned(turn);
      assert later.inputs[..0] == [];
    } else {
      AssignedIsUnmoved(s, steps, turn, later, n - 1);
      var front, last := later.inputs[..n - 1], later.inputs[n - 1];
      assert later.inputs[..n] == front + [last];
      AssignedSnoc(front, last, turn);
      assert Assigns(s, later, turn, n - 1, Lost(s, steps, n - 1));
    }
  }

  lemma NoneAssigned(turn: Id)
    ensures Ids(Assigned([], turn)) == []
  {
  }

  lemma AssignedSnoc(front: seq<Input>, last: Input, turn: Id)
    ensures Ids(Assigned(front + [last], turn)) ==
            Ids(Assigned(front, turn)) + if last.deliveredTo == turn then [last.id] else []
  {
    var a := Assigned(front, turn);
    assert (front + [last])[..|front|] == front;
    assert Ids(a + [last]) == Ids(a) + [last.id];
  }

  /** Over every run a batch loses exactly the inputs that were still to be read when a later Turn of their participant
      was prepared; what is left stays in order, and preparing the Turn again changes nothing. */
  lemma BatchLosesUnread(s: Snapshot, participant: Id, turn: Id, steps: seq<Step>)
    requires turn != NO_ID && HasTurn(s.preparations, turn)
    ensures var later := Run(s, steps);
            && Ids(PrepareBatch(later, participant, turn)) == Unmoved(s, steps, turn, |s.inputs|)
            && AfterPrepare(later, participant, turn) == later
  {
    hide Run, Lost;
    RunAssigns(s, steps, turn);
    var later := Run(s, steps);
    AssignedIsUnmoved(s, steps, turn, later, |later.inputs|);
    assert later.inputs[..|later.inputs|] == later.inputs;
  }

  /** An operation that does not freeze the batch of another Turn. */
  predicate KeepsTurn(step: Step, turn: Id) {
    step.Prepare? ==> step.turn == turn
  }

  /** So a Turn keeps its batch through every run in which no other Turn is prepared. */
  lemma BatchIsStable(s: Snapshot, participant: Id, turn: Id, steps: seq<Step>)
    requires turn != NO_ID && HasTurn(s.preparations, turn)
    requires forall k :: 0 <= k < |steps| ==> KeepsTurn(steps[k], turn)
    ensures var later := Run(s, steps);
            && HasTurn(later.preparations, turn)
            && Ids(PrepareBatch(later, participant, turn)) == Ids(PrepareBatch(s, participant, turn))
            && AfterPrepare(later, participant, turn) == later
  {
    hide Run, Unmoved;
    BatchLosesUnread(s, participant, turn, steps);
    BatchLosesUnread(s, participant, turn, []);
    assert Run(s, []) == s by {
      NoSteps(s);
    }
    RunAssigns(s, steps, turn);
    forall i: nat ensures !Lost(s, steps, i) && !Lost(s, [], i) {
      forall k | 0 <= k < |steps| ensures !Takes(Run(s, steps[..k]), steps[k], i) {
        RunAssigns(s, steps[..k], turn);
        assert KeepsTurn(steps[k], turn);
      }
    }
    SameUnmoved(s, steps, [], turn, |s.inputs|);
  }

  lemma NoSteps(s: Snapshot)
    ensures Run(s, []) == s
  {
  }

  lemma {:induction false} SameUnmoved(s: Snapshot, steps: seq<Step>, others: seq<Step>, turn: Id, n: nat)
    requires n <= |s.inputs| && forall i: nat :: Lost(s, steps, i) <==> Lost(s, others, i)
    ensures Unmoved(s, steps, turn, n) == Unmoved(s, others, turn, n)
  {
    hide Lost;
    if n > 0 {
      SameUnmoved(s, steps, others, turn, n - 1);
    }
  }

  /** Only preparing the empty Turn can take a delivered input's assignment away, and only from unread input. */
  lemma UnassignedExactlyBy(s: Snapshot, step: Step, i: nat)
    requires i < |s.inputs| && s.inputs[i].deliveredTo != NO_ID
    ensures i < |Apply(s, step).inputs|
    ensures Apply(s, step).inputs[i].deliveredTo == NO_ID <==>
              step.Prepare? && step.turn == NO_ID && step.participant == s.inputs[i].participant &&
              s.inputs[i].deliveryPending && !HasTurn(s.preparations, NO_ID)
  {
    hide CanRequest, Reserve, CanValidate, CanResolve, CanCommit, CanAssess, Screen;
  }

  // ----- Publication chains -----

  /** In every reachable state at most one round is pending, and the published rounds form one doubly linked list,
      in the order of their requests: each is linked to the next published one, the first supersedes nothing, and the
      last is the current one. */
  lemma RoundsFormOneChain(steps: seq<Step>)
    ensures var s := Run(EMPTY, steps);
            && (s.currentRound == NO_ID <==> NoneBetween(s.rounds, -1, |s.rounds|))
            && forall i, j :: 0 <= i < |s.rounds| && 0 <= j < |s.rounds| ==>
                 RoundsLinked(s.rounds, s.currentRound, i, j)
  {
    var s := Run(EMPTY, steps);
    EmptyGood();
    RunGood(EMPTY, steps);
    assert RoundsOk(s.rounds, s.currentRound);
    hide Good, Extends, Run;
    if !NoneBetween(s.rounds, -1, |s.rounds|) {
      var last := LastPublished(s.rounds, |s.rounds|);
      LastLink(s.rounds, s.currentRound, last);
    }
    forall i, j | 0 <= i < |s.rounds| && 0 <= j < |s.rounds| ensures RoundsLinked(s.rounds, s.currentRound, i, j) {
      LinksAre(s.rounds, s.currentRound, i, j);
    }
  }

  /** What one list means for two of its rounds, which may be the same. */
  predicate RoundsLinked(rounds: seq<Round>, currentRound: Id, i: nat, j: nat)
    requires i < |rounds| && j < |rounds|
  {
    var a, b := rounds[i], rounds[j];
    && (!a.published && !a.publicationFailed && !b.published && !b.publicationFailed ==> i == j)
    && (a.published && b.published ==> (a.supersededBy == b.id <==> i < j && NoneBetween(rounds, i, j)))
    && (a.published ==> (b.supersedes == a.id <==> i < j && NoneBetween(rounds, i, j)))
    && (a.supersedes == NO_ID <==> NoneBetween(rounds, -1, i))
    && (a.published ==> (a.supersededBy == NO_ID <==> a.id == currentRound))
    && (a.id == currentRound <==> a.published && NoneBetween(rounds, i, |rounds|))
    && (!a.published ==> a.supersededBy == NO_ID)
  }

  lemma LinksAre(rounds: seq<Round>, currentRound: Id, i: nat, j: nat)
    requires RoundsOk(rounds, currentRound) && i < |rounds| && j < |rounds|
    ensures RoundsLinked(rounds, currentRound, i, j)
  {
    if rounds[i].published {
      BackwardLink(rounds, currentRound, i, j);
      if rounds[j].published {
        ForwardLink(rounds, currentRound, i, j);
      }
    }
    FirstLink(rounds, currentRound, i);
    LastLink(rounds, currentRound, i);
  }

  lemma ForwardLink(rounds: seq<Round>, currentRound: Id, i: nat, j: nat)
    requires RoundsOk(rounds, currentRound) && i < |rounds| && j < |rounds| && rounds[i].published &&
             rounds[j].published
    ensures rounds[i].supersededBy == rounds[j].id <==> i < j && NoneBetween(rounds, i, j)
  {
    if rounds[i].supersededBy == rounds[j].id {
      assert !NoneBetween(rounds, i, |rounds|);
      var next := NextPublished(rounds, i);
      assert rounds[i].supersededBy == rounds[next].id;
    }
  }

  lemma BackwardLink(rounds: seq<Round>, currentRound: Id, i: nat, j: nat)
    requires RoundsOk(rounds, currentRound) && i < |rounds| && j < |rounds| && rounds[i].published
    ensures rounds[j].supersedes == rounds[i].id <==> i < j && NoneBetween(rounds, i, j)
  {
    if rounds[j].supersedes == rounds[i].id {
      assert !NoneBetween(rounds, -1, j);
      var previous := LastPublished(rounds, j);
      assert rounds[j].supersedes == rounds[previous].id;
    }
  }

  lemma FirstLink(rounds: seq<Round>, currentRound: Id, i: nat)
    requires RoundsOk(rounds, currentRound) && i < |rounds|
    ensures rounds[i].supersedes == NO_ID <==> NoneBetween(rounds, -1, i)
  {
    if !NoneBetween(rounds, -1, i) {
      var previous := LastPublished(rounds, i);
      assert rounds[i].supersedes == rounds[previous].id;
    }
  }

  lemma LastLink(rounds: seq<Round>, currentRound: Id, i: nat)
    requires RoundsOk(rounds, currentRound) && i < |rounds|
    ensures rounds[i].published ==> (rounds[i].supersededBy == NO_ID <==> rounds[i].id == currentRound)
    ensures rounds[i].id == currentRound <==> rounds[i].published && NoneBetween(rounds, i, |rounds|)
  {
    if rounds[i].published {
      NotSupersededIsCurrent(rounds, currentRound, i);
    }
    if rounds[i].id == currentRound {
      assert !NoneBetween(rounds, -1, |rounds|);
      var last := LastPublished(rounds, |rounds|);
      assert rounds[last].id == currentRound;
    }
  }

  /** In every reachable state at most one revision is pending, and the published ones form one chain in the order of
      their reservations, from one that supersedes nothing to the current one. */
  lemma RevisionsFormOneChain(steps: seq<Step>)
    requires Run(EMPTY, steps).planning.Some?
    ensures var p := Run(EMPTY, steps).planning.value;
            && (p.currentRevision == NO_ID <==> NoRevisionBetween(p.revisions, -1, |p.revisions|))
            && forall i, j :: 0 <= i < |p.revisions| && 0 <= j < |p.revisions| ==> RevisionsLinked(p, i, j)
  {
    var s := Run(EMPTY, steps);
    EmptyGood();
    RunGood(EMPTY, steps);
    assert PlanningOk(s.planning, s.inputs, s.references);
    hide Good, Extends, Run;
    var p := s.planning.value;
    forall i, j | 0 <= i < |p.revisions| && 0 <= j < |p.revisions| ensures RevisionsLinked(p, i, j) {
      RevisionLinks(p, i, j);
    }
    if !NoRevisionBetween(p.revisions, -1, |p.revisions|) {
      var last := LastPublishedRevision(p.revisions, |p.revisions|);
      assert p.revisions[last].id == p.currentRevision;
    }
  }

  /** What one chain means for two of its revisions, which may be the same. */
  predicate RevisionsLinked(p: Planning, i: nat, j: nat)
    requires i < |p.revisions| && j < |p.revisions|
  {
    var a, b := p.revisions[i], p.revisions[j];
    && (!a.published && !a.publicationFailed && !b.published && !b.publicationFailed ==> i == j)
    && (a.published ==> (b.supersedes == a.id <==> i < j && NoRevisionBetween(p.revisions, i, j)))
    && (a.supersedes == NO_ID <==> NoRevisionBetween(p.revisions, -1, i))
    && (a.id == p.currentRevision <==> a.published && NoRevisionBetween(p.revisions, i, |p.revisions|))
  }

  lemma {:induction false} LastPublishedRevision(revisions: seq<Revision>, n: nat) returns (i: nat)
    requires n <= |revisions| && !NoRevisionBetween(revisions, -1, n)
    ensures i < n && revisions[i].published && NoRevisionBetween(revisions, i, n)
  {
    if revisions[n - 1].published {
      i := n - 1;
    } else {
      var k :| 0 <= k < |revisions| && -1 < k < n && revisions[k].published;
      assert !NoRevisionBetween(revisions, -1, n - 1);
      i := LastPublishedRevision(revisions, n - 1);
    }
  }

  lemma RevisionLinks(p: Planning, i: nat, j: nat)
    requires RevisionIdsOk(p) && OnePendingRevision(p.revisions) && RevisionChain(p.revisions, p.currentRevision)
    requires i < |p.revisions| && j < |p.revisions|
    ensures RevisionsLinked(p, i, j)
  {
    if !NoRevisionBetween(p.revisions, -1, i) {
      var previous := LastPublishedRevision(p.revisions, i);
      assert p.revisions[i].supersedes == p.revisions[previous].id;
    }
    if !NoRevisionBetween(p.revisions, -1, j) {
      var previous := LastPublishedRevision(p.revisions, j);
      assert p.revisions[j].supersedes == p.revisions[previous].id;
    }
    if !NoRevisionBetween(p.revisions, -1, |p.revisions|) {
      var last := LastPublishedRevision(p.revisions, |p.revisions|);
      assert p.revisions[last].id == p.currentRevision;
    }
  }

  // ----- Replayed reservations -----

  /** The same reservation, but for what publication has added to it since. */
  predicate SameAnswer(answer: Reservation, later: Reservation) {
    match answer
    case Reserved(r) => later.Reserved? && SameRevision(r, later.revision)
    case NotApplied(n) => later == answer
    case Invalid => true
  }

  /** Replaying a checkpoint reservation, granted or refused, changes nothing while no plan is ready. */
  lemma ReserveReplayChangesNothing(s: Snapshot, id: Id, participant: Id, turn: Id, c: Content, steps: seq<Step>)
    requires Good(s) && !Reserve(s, id, participant, turn, c).Invalid?
    requires var later := Run(AfterReserve(s, id, participant, turn, c), steps);
             later.planning.Some? && later.planning.value.readyRevision == NO_ID
    ensures var later := Run(AfterReserve(s, id, participant, turn, c), steps);
            && SameAnswer(Reserve(s, id, participant, turn, c), Reserve(later, id, participant, turn, c))
            && !Reserve(later, id, participant, turn, c).Invalid?
            && AfterReserve(later, id, participant, turn, c) == later
  {
    var first := AfterReserve(s, id, participant, turn, c);
    var later := Run(first, steps);
    ReserveGood(s, id, participant, turn, c);
    RunGood(first, steps);
    ReservationRecorded(s, id, participant, turn, c);
    assert PlanningGrows(first.planning, later.planning) && PlanningOk(first.planning, first.inputs, first.references);
    assert PlanningOk(later.planning, later.inputs, later.references);
    hide Good, Extends, Run, AfterReserve;
    ReplayAnswered(first.planning.value, later, id, participant, turn, c, Reserve(s, id, participant, turn, c));
    AnsweredKept(later, id, participant, turn, c);
  }

  /** Where a granted or refused reservation is kept. */
  predicate Kept(p: Planning, id: Id, participant: Id, turn: Id, c: Content, answer: Reservation) {
    match answer
    case Reserved(r) =>
      RevisionAt(p.revisions, id) >= 0 && NonPublicationAt(p.nonPublications, id) < 0 &&
      p.revisions[RevisionAt(p.revisions, id)] == r && r.participant == participant && r.turn == turn && r.content == c
    case NotApplied(n) =>
      NonPublicationAt(p.nonPublications, id) >= 0 && p.nonPublications[NonPublicationAt(p.nonPublications, id)] == n &&
      n.participant == participant && n.turn == turn && n.content == c
    case Invalid => false
  }

  lemma ReservationRecorded(s: Snapshot, id: Id, participant: Id, turn: Id, c: Content)
    requires !Reserve(s, id, participant, turn, c).Invalid?
    ensures var first := AfterReserve(s, id, participant, turn, c);
            first.planning.Some? && id != NO_ID && participant != NO_ID && turn != NO_ID &&
            Kept(first.planning.value, id, participant, turn, c, Reserve(s, id, participant, turn, c))
  {
    ReservationIs(s, id, participant, turn, c);
    hide Reserve, Allocate, RevisionAt, NonPublicationAt;
    var p := s.planning.value;
    var answer := Reserve(s, id, participant, turn, c);
    if NonPublicationAt(p.nonPublications, id) < 0 && RevisionAt(p.revisions, id) < 0 {
      if answer.Reserved? {
        RevisionAppended(p.revisions, answer.revision);
      } else {
        NonPublicationAppended(p.nonPublications, answer.evidence);
      }
    }
  }

  /** What a reservation answers: what is kept under its id, or something new under that id. */
  lemma ReservationIs(s: Snapshot, id: Id, participant: Id, turn: Id, c: Content)
    requires !Reserve(s, id, participant, turn, c).Invalid?
    ensures s.planning.Some? && id != NO_ID && participant != NO_ID && turn != NO_ID
    ensures var p, answer := s.planning.value, Reserve(s, id, participant, turn, c);
            && (answer.Reserved? ==>
                  && NonPublicationAt(p.nonPublications, id) < 0
                  && answer.revision.participant == participant && answer.revision.turn == turn &&
                       answer.revision.content == c
                  && (if RevisionAt(p.revisions, id) >= 0 then
                       p.revisions[RevisionAt(p.revisions, id)] == answer.revision
                      else answer.revision.id == id))
            && (answer.NotApplied? ==>
                  && answer.evidence.participant == participant && answer.evidence.turn == turn &&
                       answer.evidence.content == c
                  && (if NonPublicationAt(p.nonPublications, id) >= 0
                      then p.nonPublications[NonPublicationAt(p.nonPublications, id)] == answer.evidence
                      else RevisionAt(p.revisions, id) < 0 && answer.evidence.operation == id))
  {
    hide WellFormed, Unresolved, AssessmentBlocked, CurrentCheckpoint, Allocate, InputReason, HasPreparation,
      RevisionAt, NonPublicationAt, ReplayableRevision, Cites;
  }

  lemma RevisionAppended(revisions: seq<Revision>, r: Revision)
    requires RevisionAt(revisions, r.id) < 0
    ensures RevisionAt(revisions + [r], r.id) == |revisions|
  {
    assert (revisions + [r])[..|revisions|] == revisions;
  }

  lemma NonPublicationAppended(nonPublications: seq<NonPublication>, n: NonPublication)
    requires NonPublicationAt(nonPublications, n.operation) < 0
    ensures NonPublicationAt(nonPublications + [n], n.operation) == |nonPublications|
  {
    assert (nonPublications + [n])[..|nonPublications|] == nonPublications;
  }

  lemma ReplayAnswered(p: Planning, later: Snapshot, id: Id, participant: Id, turn: Id, c: Content, answer: Reservation)
    requires id != NO_ID && participant != NO_ID && turn != NO_ID && Kept(p, id, participant, turn, c, answer)
    requires PlanningGrows(Some(p), later.planning) && later.planning.value.readyRevision == NO_ID
    requires RevisionIdsOk(later.planning.value) && OnePendingRevision(later.planning.value.revisions)
    ensures var again := Reserve(later, id, participant, turn, c);
            SameAnswer(answer, again) && Kept(later.planning.value, id, participant, turn, c, again)
  {
    hide WellFormed, Unresolved, AssessmentBlocked, CurrentCheckpoint, InputReason, HasPreparation;
    var q := later.planning.value;
    if answer.NotApplied? {
      var at := NonPublicationAt(p.nonPublications, id);
      assert q.nonPublications[at] == p.nonPublications[at];
      assert NonPublicationAt(q.nonPublications, id) == at;
    } else {
      var at := RevisionAt(p.revisions, id);
      assert SameRevision(p.revisions[at], q.revisions[at]);
      assert RevisionAt(q.revisions, id) == at;
      assert NonPublicationAt(q.nonPublications, q.revisions[at].id) < 0;
      assert ReplayableRevision(q.revisions, at);
    }
  }

  lemma AnsweredKept(s: Snapshot, id: Id, participant: Id, turn: Id, c: Content)
    requires s.planning.Some?
    requires Kept(s.planning.value, id, participant, turn, c, Reserve(s, id, participant, turn, c))
    ensures AfterReserve(s, id, participant, turn, c) == s
  {
    hide Reserve;
  }

  // ----- Readiness, validation and withdrawn authority -----

  /** Authority a validation can never regain. */
  predicate Revoked(s: Snapshot, v: Revalidation) {
    s.planning.Some? &&
    (|| s.planning.value.currentRevision != v.revision
     || v.confirmation in s.planning.value.invalidated
     || exists i :: 0 <= i < |s.inputs| && NewerInput(s.inputs[i], v))
  }

  predicate NewerInput(input: Input, v: Revalidation) {
    input.participant == v.participant && input.id !in v.considered
  }

  /** Most steps do not touch the current revision. */
  lemma CurrentUntouched(s: Snapshot, step: Step)
    requires s.planning.Some? && !step.ConfirmCheckpoint?
    ensures Apply(s, step).planning.Some? &&
            Apply(s, step).planning.value.currentRevision == s.planning.value.currentRevision
  {
    hide CanRequest, Reserve, CanValidate, CanResolve, CanCommit, CanAssess, Screen;
  }

  /** The current revision only ever moves to one that was not published before. */
  lemma CurrentMovesForward(s: Snapshot, step: Step)
    requires Good(s) && s.planning.Some?
    ensures Apply(s, step).planning.Some?
    ensures var current := Apply(s, step).planning.value.currentRevision;
            current == s.planning.value.currentRevision || !PublishedRevision(s.planning.value.revisions, current)
  {
    assert RevisionIdsOk(s.planning.value);
    hide Good;
    if step.ConfirmCheckpoint? {
      ConfirmedIsNew(s, step.id, step.source);
    } else {
      hide Apply;
      CurrentUntouched(s, step);
    }
  }

  lemma ConfirmedIsNew(s: Snapshot, id: Id, source: Source)
    requires s.planning.Some? && RevisionIdsOk(s.planning.value)
    ensures var later := AfterConfirm(s, id, source).planning;
            later.Some? && (later.value.currentRevision == s.planning.value.currentRevision ||
                            !PublishedRevision(s.planning.value.revisions, later.value.currentRevision))
  {
    if CanConfirm(s, id, source) {
      var p := s.planning.value;
      var at := RevisionAt(p.revisions, id);
      if !p.revisions[at].published {
        assert !PublishedRevision(p.revisions, id);
      }
    }
  }

  lemma StepExtends(s: Snapshot, step: Step)
    requires Good(s) && s.planning.Some?
    ensures PlanningGrows(s.planning, Apply(s, step).planning) && InputsGrow(s.inputs, Apply(s, step).inputs)
    ensures ValidationsOk(s.planning.value)
  {
    ApplyGood(s, step);
    hide Apply, InputsGrow, PlanningGrows;
  }

  lemma ValidatedIsPublished(p: Planning, v: Revalidation)
    requires ValidationsOk(p) && v in p.revalidations
    ensures PublishedRevision(p.revisions, v.revision)
  {
    hide PublishedRevision;
    var k :| 0 <= k < |p.revalidations| && p.revalidations[k] == v;
  }

  lemma InPrefix<T>(a: seq<T>, b: seq<T>, x: T)
    requires a <= b && x in a
    ensures x in b
  {
    var k :| 0 <= k < |a| && a[k] == x;
    assert b[k] == x;
  }

  lemma RevokedStep(s: Snapshot, step: Step, v: Revalidation)
    requires Good(s) && Revoked(s, v) && v in s.planning.value.revalidations
    ensures Revoked(Apply(s, step), v) && v in Apply(s, step).planning.value.revalidations
  {
    hide Good, Extends, Apply, PublishedRevision, ValidationsOk, RevisionsGrow;
    var later := Apply(s, step);
    StepExtends(s, step);
    CurrentMovesForward(s, step);
    var p, q := s.planning.value, later.planning.value;
    ValidatedIsPublished(p, v);
    InPrefix(p.revalidations, q.revalidations, v);
    if v.confirmation in p.invalidated {
      InPrefix(p.invalidated, q.invalidated, v.confirmation);
    } else if p.currentRevision == v.revision {
      var i :| 0 <= i < |s.inputs| && NewerInput(s.inputs[i], v);
      assert SameInput(s.inputs[i], later.inputs[i]);
      assert NewerInput(later.inputs[i], v);
    }
  }

  /** Once newer input, a newer plan or a withdrawal revokes a validation, no run makes it current again. */
  lemma {:induction false} RevocationIsPermanent(s: Snapshot, steps: seq<Step>, v: Revalidation)
    requires Good(s) && Revoked(s, v) && v in s.planning.value.revalidations
    ensures Revoked(Run(s, steps), v) && !ValidationCurrent(Run(s, steps), v)
    ensures v in Run(s, steps).planning.value.revalidations
  {
    if |steps| == 0 {
      RevokedNotCurrent(s, v);
    } else {
      var before := steps[..|steps| - 1];
      RevocationIsPermanent(s, before, v);
      RunGood(s, before);
      hide Good, Extends, Apply, ValidationCurrent, Revoked;
      RevokedStep(Run(s, before), steps[|steps| - 1], v);
      RevokedNotCurrent(Run(s, steps), v);
    }
  }

  lemma RevokedNotCurrent(s: Snapshot, v: Revalidation)
    requires Revoked(s, v)
    ensures !ValidationCurrent(s, v)
  {
    hide Unresolved, AssessmentBlocked, Pending, ConfirmedBy;
  }

  lemma {:induction false} AllConsidered(inputs: seq<Input>, participant: Id, i: nat)
    requires i < |inputs| && Counts(inputs[i], participant)
    ensures inputs[i].id in ConsideredInputs(inputs, participant)
  {
    if i < |inputs| - 1 {
      assert inputs[..|inputs| - 1][i] == inputs[i];
      AllConsidered(inputs[..|inputs| - 1], participant, i);
    }
  }

  lemma {:induction false} AuthorityIs(s: Snapshot, inputs: seq<Input>, revision: Id, participant: Id) returns (i: nat)
    requires s.planning.Some? && Authority(s, inputs, revision, participant) != NO_ID
    ensures i < |inputs| && inputs[i].id == Authority(s, inputs, revision, participant)
    ensures Authorizes(s, inputs[i], revision, participant)
  {
    if Authorizes(s, inputs[|inputs| - 1], revision, participant) {
      i := |inputs| - 1;
    } else {
      i := AuthorityIs(s, inputs[..|inputs| - 1], revision, participant);
    }
  }

  /** A validation holds at the moment it is recorded, and rests on a confirmation nobody has withdrawn. */
  lemma ValidationIsCurrentWhenRecorded(
    s: Snapshot, operation: Id, revision: Id, participant: Id, turn: Id, commit: string, evidence: string,
    resolved: bool)
    requires CanValidate(s, operation, revision, participant, turn, commit, evidence, resolved)
    ensures var v := NewValidation(s, operation, revision, participant, turn, commit, evidence);
            var later := AfterValidate(s, operation, revision, participant, turn, commit, evidence, resolved);
            && v in later.planning.value.revalidations
            && ValidationCurrent(later, v)
            && exists i :: 0 <= i < |s.inputs| && s.inputs[i].id == v.confirmation &&
                           Authorizes(s, s.inputs[i], revision, participant)
  {
    var v := NewValidation(s, operation, revision, participant, turn, commit, evidence);
    var later := AfterValidate(s, operation, revision, participant, turn, commit, evidence, resolved);
    var p := s.planning.value;
    FindRevisionIs(p.revisions, p.currentRevision);
    assert later.planning.value == p || later.planning.value.revalidations == p.revalidations + [v];
    assert v in later.planning.value.revalidations;
    var i := AuthorityIs(s, s.inputs, revision, participant);
    forall j | 0 <= j < |s.inputs| && s.inputs[j].participant == participant ensures s.inputs[j].id in v.considered {
      assert !Awaiting(s.inputs[j], participant);
      AllConsidered(s.inputs, participant, j);
    }
    UnresolvedIgnoresPlanning(s, later, participant);
    hide Unresolved, ConfirmedBy, AssessmentBlocked, ConsideredInputs, Authority, FindRevision, IsCommit, Blank;
  }

  lemma UnresolvedIgnoresPlanning(s: Snapshot, later: Snapshot, participant: Id)
    requires later == s.(planning := later.planning)
    ensures Unresolved(later, participant) <==> Unresolved(s, participant)
  {
    forall q ensures Blocks(later, participant, q) <==> Blocks(s, participant, q) {
      assert forall i :: 0 <= i < |s.rounds| ==> (OpenIn(later, participant, q, i) <==> OpenIn(s, participant, q, i));
    }
  }

  lemma RunPlanningGrows(s: Snapshot, later: Snapshot)
    requires Extends(s, later) && s.planning.Some?
    ensures later.planning.Some? && s.planning.value.invalidated <= later.planning.value.invalidated
    ensures s.planning.value.revalidations <= later.planning.value.revalidations
  {
    hide InputsGrow, RoundsGrow, RevisionsGrow;
  }

  lemma GoodCutoff(s: Snapshot)
    requires Good(s) && s.planning.Some?
    ensures DistinctInputs(s.inputs) && Cutoff(s.planning.value.invalidated, s.inputs)
  {
    hide Cutoff;
  }

  lemma CutoffIs(invalidated: seq<Id>, inputs: seq<Input>)
    requires Cutoff(invalidated, inputs)
    ensures exists k :: 0 <= k <= |inputs| && invalidated == Confirmations(inputs[..k])
  {
  }

  /** Withdrawn authority is always the confirmations admitted up to one point, and it only grows. */
  lemma WithdrawalIsACutoff(steps: seq<Step>, more: seq<Step>)
    requires Run(EMPTY, steps).planning.Some?
    ensures var s, later := Run(EMPTY, steps), Run(Run(EMPTY, steps), more);
            && later.planning.Some?
            && (exists k :: 0 <= k <= |s.inputs| && s.planning.value.invalidated == Confirmations(s.inputs[..k]))
            && s.planning.value.invalidated <= later.planning.value.invalidated
            && (forall i, j :: 0 <= i < j < |s.planning.value.invalidated| ==>
                  s.planning.value.invalidated[i] != s.planning.value.invalidated[j])
  {
    hide Good, Run, Extends, Confirmations, Cutoff;
    var s := Run(EMPTY, steps);
    EmptyGood();
    RunGood(EMPTY, steps);
    RunGood(s, more);
    RunPlanningGrows(s, Run(s, more));
    GoodCutoff(s);
    hide PlanningGrows;
    CutoffIs(s.planning.value.invalidated, s.inputs);
    var k :| 0 <= k <= |s.inputs| && s.planning.value.invalidated == Confirmations(s.inputs[..k]);
    ConfirmationsDistinct(s.inputs[..k]);
  }

  lemma {:induction false} ConfirmationsDistinct(inputs: seq<Input>)
    requires DistinctInputs(inputs)
    ensures forall i, j :: 0 <= i < j < |Confirmations(inputs)| ==> Confirmations(inputs)[i] != Confirmations(inputs)[j]
  {
    if |inputs| > 0 {
      var shorter := inputs[..|inputs| - 1];
      ConfirmationsDistinct(shorter);
      ConfirmationsMember(shorter, inputs[|inputs| - 1].id);
      assert !IsConfirmation(shorter, inputs[|inputs| - 1].id);
    }
  }

  /** No validation recorded after a withdrawal rests on a confirmation it withdrew. */
  lemma {:induction false} WithdrawnNeverConfirmsAgain(s: Snapshot, steps: seq<Step>, id: Id, k: nat)
    requires Good(s) && s.planning.Some? && id in s.planning.value.invalidated
    requires Run(s, steps).planning.Some? &&
             |s.planning.value.revalidations| <= k < |Run(s, steps).planning.value.revalidations|
    ensures Run(s, steps).planning.value.revalidations[k].confirmation != id
  {
    hide Good, Extends, Apply;
    if |steps| > 0 {
      var before := Run(s, steps[..|steps| - 1]);
      RunGood(s, steps[..|steps| - 1]);
      RunPlanningGrows(s, before);
      InPrefix(s.planning.value.invalidated, before.planning.value.invalidated, id);
      StepConfirms(before, steps[|steps| - 1]);
      if k < |before.planning.value.revalidations| {
        WithdrawnNeverConfirmsAgain(s, steps[..|steps| - 1], id, k);
      }
    }
  }

  lemma StepConfirms(s: Snapshot, step: Step)
    requires s.planning.Some?
    ensures Apply(s, step).planning.Some?
    ensures s.planning.value.revalidations <= Apply(s, step).planning.value.revalidations
    ensures forall k :: |s.planning.value.revalidations| <= k < |Apply(s, step).planning.value.revalidations| ==>
              Apply(s, step).planning.value.revalidations[k].confirmation !in s.planning.value.invalidated
  {
    hide CanRequest, Reserve, CanResolve, CanCommit, CanAssess, Screen, Unresolved, AssessmentBlocked;
    if step.ValidatePlanning? {
      if CanValidate(s, step.operation, step.revision, step.participant, step.turn, step.commit, step.evidence,
        step.resolved)
      {
        var i := AuthorityIs(s, s.inputs, step.revision, step.participant);
      }
    }
  }

  lemma CommittedReady(s: Snapshot, participant: Id, turn: Id)
    requires CanCommit(s, participant, turn)
    ensures var ready := AfterCommit(s, participant, turn);
            ready.planning.Some? && ready.planning.value.readyRevision == s.planning.value.currentRevision
  {
    hide Commits, Unresolved, AssessmentBlocked, Pending;
  }

  /** A plan is declared ready at most once, and only while its validation still holds. */
  lemma ReadinessIsFinal(s: Snapshot, participant: Id, turn: Id, steps: seq<Step>)
    requires Good(s) && CanCommit(s, participant, turn) && s.planning.value.currentRevision != NO_ID
    ensures var ready := AfterCommit(s, participant, turn);
            && (exists v :: v in s.planning.value.revalidations && v.turn == turn && ValidationCurrent(s, v) &&
                            v.revision == ready.planning.value.readyRevision)
            && Run(ready, steps).planning.Some?
            && Run(ready, steps).planning.value.readyRevision == ready.planning.value.readyRevision
  {
    hide Good, ValidationCurrent, Run, InputsGrow, RoundsGrow, RevisionsGrow, AfterCommit;
    var ready := AfterCommit(s, participant, turn);
    CommitGood(s, participant, turn);
    RunGood(ready, steps);
    assert PlanningGrows(ready.planning, Run(ready, steps).planning);
    hide Extends;
    CommittedReady(s, participant, turn);
    var i :| 0 <= i < |s.planning.value.revalidations| && Commits(s, turn, s.planning.value.revalidations[i]);
    assert s.planning.value.revalidations[i] in s.planning.value.revalidations;
  }
}
