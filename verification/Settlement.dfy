/** Finalizing an Agent Turn, call by call. */
module Settlement {
  // The answers to external calls come from a script; when it runs out, the lease is lost.  That
  // bounds the waits that otherwise last as long as the lease.  Every call and its answer is
  // recorded in a trace.

  const ATTEMPTS: nat := 3
  const CLEANUPS: nat := 2

  datatype MutationState = Reserved | InFlight | Unknown | Reconciling | Unexpected

  datatype Mutation = Mutation(id: nat, state: MutationState)

  datatype Error = NoError | FenceLost | DeadlineExceeded | DrainUnresolved | MutationsUnsettled | OtherError

  /** A terminal corroboration failure, as reported during a reconciliation. */
  datatype Corroboration = NotReported | Reported(retryable: bool, prerequisite: bool)

  /** What a call returns: an error, or a listing, an outcome, a pending job; and whether the lease ends meanwhile. */
  datatype Reply = Reply(
    error: Error, leaseEnds: bool, listed: seq<Mutation>, infrastructureFailed: bool, corroboration: Corroboration,
      pending: bool)

  const END_OF_LEASE := Reply(FenceLost, true, [], false, NotReported, false)

  datatype Op =
    | CloseAdmission
    | CloseMCP
    | ListUnsettled
    | FailMutation(id: nat)
    | MarkUnknown(id: nat)
    | CleanUp
    | TerminalCapture
    | Reconcile
    | BeginCorroboration
    | Settle
    | BeginRecovery
    | CleanUpUnfenced
    | Pause(phase: nat)

  datatype Call = Call(op: Op, reply: Reply)

  // ----- Phases -----

  const ADMISSION: nat := 0
  const DRAIN: nat := 1
  const LISTING: nat := 2
  const CLEANUP: nat := 3
  const CAPTURE: nat := 4
  const RECONCILE: nat := 5
  const CHECKPOINT: nat := 6
  const SETTLE: nat := 7
  const RECOVERY: nat := 8
  const UNFENCED: nat := 9

  function Phase(op: Op): nat {
    match op
    case CloseAdmission => ADMISSION
    case CloseMCP => DRAIN
    case ListUnsettled => LISTING
    case FailMutation(_) => LISTING
    case MarkUnknown(_) => LISTING
    case CleanUp => CLEANUP
    case TerminalCapture => CAPTURE
    case Reconcile => RECONCILE
    case BeginCorroboration => CHECKPOINT
    case Settle => SETTLE
    case BeginRecovery => RECOVERY
    case CleanUpUnfenced => UNFENCED
    case Pause(phase) => phase
  }

  /** A call by which its phase comes to the end that settlement needs. */
  predicate Concludes(c: Call) {
    && c.reply.error.NoError?
    && match c.op
       case CloseAdmission => true
       case CloseMCP => true
       case ListUnsettled => c.reply.listed == []
       case CleanUp => true
       case Reconcile => true
       case _ => false
  }

  /** The last call of the phase concludes it. */
  predicate Concluded(t: seq<Call>, phase: nat) {
    exists j :: 0 <= j < |t| && Phase(t[j].op) == phase && Concludes(t[j]) && LastOfPhase(t, j)
  }

  predicate LastOfPhase(t: seq<Call>, j: nat)
    requires j < |t|
  {
    forall k :: j < k < |t| ==> Phase(t[k].op) != Phase(t[j].op)
  }

  /** Everything that must have ended well before an Agent Turn is settled. */
  predicate Ready(t: seq<Call>, runtime: bool) {
    && Concluded(t, ADMISSION)
    && (runtime ==> Concluded(t, DRAIN) && Concluded(t, CLEANUP))
    && Concluded(t, LISTING) && Concluded(t, RECONCILE)
  }

  /** The Agent Turn is settled, or its settlement is left to a pending corroboration. */
  predicate Completes(c: Call) {
    c.reply.error.NoError? && (c.op.Settle? || (c.op.BeginCorroboration? && c.reply.pending))
  }

  predicate Ascending(t: seq<Call>) {
    forall i, j :: 0 <= i < j < |t| ==> Phase(t[i].op) <= Phase(t[j].op)
  }

  predicate UpTo(t: seq<Call>, phase: nat) {
    forall c <- t :: Phase(c.op) <= phase
  }

  predicate OnlyPhase(t: seq<Call>, phase: nat) {
    forall c <- t :: Phase(c.op) == phase
  }

  function Count(t: seq<Call>, op: Op): nat {
    if |t| == 0 then 0 else Count(t[..|t| - 1], op) + if t[|t| - 1].op == op then 1 else 0
  }

  /** The barriers in front of the calls that end a turn, and that a completed turn is not touched again. */
  predicate Barriers(t: seq<Call>, runtime: bool) {
    && Ascending(t)
    && (forall i :: 0 <= i < |t| && (t[i].op.Settle? || t[i].op.BeginCorroboration?) ==> Ready(t[..i], runtime))
    && (forall i :: 0 <= i < |t| && t[i].op.BeginRecovery? ==> Concluded(t[..i], ADMISSION))
    && (forall i :: 0 <= i < |t| && Completes(t[i]) ==> i == |t| - 1)
  }

  predicate RecoversLast(t: seq<Call>) {
    forall i :: 0 <= i < |t| && t[i].op.BeginRecovery? ==>
      Concluded(t[..i], ADMISSION) && forall k :: i < k < |t| ==> Phase(t[k].op) >= RECOVERY
  }

  // ----- When a corroboration checkpoint is due -----

  /** The last call of the operation, if there was one. */
  function LastCall(t: seq<Call>, op: Op): seq<Call> {
    if |t| == 0 then [] else if t[|t| - 1].op == op then [t[|t| - 1]] else LastCall(t[..|t| - 1], op)
  }

  /** The corroboration failure reported last, by whichever attempt. */
  function LastReported(s: seq<Call>, op: Op): Corroboration {
    if |s| == 0 then NotReported
    else
      var c := s[|s| - 1];
      if c.op == op && c.reply.corroboration.Reported? then c.reply.corroboration else LastReported(s[..|s| - 1], op)
  }

  /** The outcome reconciled last is an infrastructure failure that some attempt found worth corroborating. */
  predicate Due(t: seq<Call>, corroborates: bool) {
    var last, reported := LastCall(t, Reconcile), LastReported(t, Reconcile);
    && corroborates && last != [] && last[0].reply.infrastructureFailed
    && reported.Reported? && (reported.retryable || reported.prerequisite)
  }

  predicate Attempted(t: seq<Call>, op: Op) {
    exists c <- t :: c.op == op
  }

  /** A checkpoint is attempted only when it is due, and when it is due no settlement is attempted without it. */
  predicate Checkpointed(t: seq<Call>, corroborates: bool) {
    && (forall i :: 0 <= i < |t| && t[i].op.BeginCorroboration? ==> Due(t[..i], corroborates))
    && (forall i :: 0 <= i < |t| && t[i].op.Settle? && Due(t[..i], corroborates) ==>
         Attempted(t[..i], BeginCorroboration))
  }

  lemma {:induction false} LastAppend(t: seq<Call>, s: seq<Call>, op: Op)
    ensures LastCall(t + s, op) == if LastCall(s, op) != [] then LastCall(s, op) else LastCall(t, op)
    ensures LastReported(t + s, op) == if LastReported(s, op).Reported? then LastReported(s, op)
            else LastReported(t, op)
  {
    if |s| == 0 {
      assert t + s == t;
    } else {
      assert (t + s)[..|t + s| - 1] == t + s[..|s| - 1];
      LastAppend(t, s[..|s| - 1], op);
    }
  }

  lemma {:induction false} LastOther(t: seq<Call>, op: Op)
    requires forall c <- t :: c.op != op
    ensures LastCall(t, op) == [] && LastReported(t, op) == NotReported
  {
    if |t| > 0 {
      assert t[|t| - 1] in t;
      LastOther(t[..|t| - 1], op);
    }
  }

  /** Other phases than reconciliation do not change what is due. */
  lemma DueStays(t: seq<Call>, s: seq<Call>, phase: nat, corroborates: bool)
    requires OnlyPhase(s, phase) && phase != RECONCILE
    ensures Due(t + s, corroborates) == Due(t, corroborates)
  {
    LastAppend(t, s, Reconcile);
    LastOther(s, Reconcile);
  }

  /** A phase is added as the checkpoint rule asks. */
  lemma CheckpointedStep(t: seq<Call>, s: seq<Call>, phase: nat, corroborates: bool)
    requires Checkpointed(t, corroborates) && OnlyPhase(s, phase)
    requires phase == CHECKPOINT ==> Due(t, corroborates)
    requires phase == SETTLE ==> (Due(t, corroborates) ==> Attempted(t, BeginCorroboration))
    ensures Checkpointed(t + s, corroborates)
  {
    hide Due;
    var all := t + s;
    forall i | 0 <= i < |all|
      ensures all[i].op.BeginCorroboration? ==> Due(all[..i], corroborates)
      ensures all[i].op.Settle? && Due(all[..i], corroborates) ==> Attempted(all[..i], BeginCorroboration)
    {
      if i < |t| {
        assert all[..i] == t[..i] && all[i] == t[i];
      } else {
        var part := s[..i - |t|];
        assert all[..i] == t + part && all[i] == s[i - |t|] && s[i - |t|] in s;
        assert OnlyPhase(part, phase);
        if phase == CHECKPOINT || phase == SETTLE {
          DueStays(t, part, phase, corroborates);
        }
        assert Attempted(t, BeginCorroboration) ==> Attempted(t + part, BeginCorroboration) by {
          if c :| c in t && c.op == BeginCorroboration {
            assert c in t + part;
          }
        }
      }
    }
  }

  lemma AttemptedNow(t: seq<Call>, s: seq<Call>, op: Op, error: Error)
    requires Tried(s, op, error)
    ensures Attempted(t + s, op)
  {
    var c :| c in s && c.op == op;
    assert c in t + s;
  }

  /** What the reconciliation phase makes due. */
  lemma DueAfter(t: seq<Call>, s: seq<Call>, observation: Reply, corroborates: bool)
    requires UpTo(t, CAPTURE) && |s| > 0 && s[|s| - 1] == Call(Reconcile, observation)
    ensures var reported := LastReported(s, Reconcile);
            Due(t + s, corroborates) <==>
              corroborates && observation.infrastructureFailed && reported.Reported? &&
                (reported.retryable || reported.prerequisite)
  {
    forall c | c in t ensures c.op != Reconcile {
      assert Phase(c.op) <= CAPTURE;
    }
    LastAppend(t, s, Reconcile);
    LastOther(t, Reconcile);
  }

  lemma ReachedUpTo(t: seq<Call>, phase: nat, runtime: bool)
    requires Reached(t, phase, runtime)
    ensures UpTo(t, phase)
  {
    hide Barriers, Bounded;
  }

  // ----- Traces growing by whole phases -----

  lemma {:induction false} CountAppend(a: seq<Call>, b: seq<Call>, op: Op)
    ensures Count(a + b, op) == Count(a, op) + Count(b, op)
  {
    if |b| == 0 {
      assert a + b == a;
    } else {
      assert (a + b)[..|a + b| - 1] == a + b[..|b| - 1];
      CountAppend(a, b[..|b| - 1], op);
    }
  }

  lemma {:induction false} CountOther(t: seq<Call>, phase: nat, op: Op)
    requires OnlyPhase(t, phase) && Phase(op) != phase
    ensures Count(t, op) == 0
  {
    if |t| > 0 {
      CountOther(t[..|t| - 1], phase, op);
      assert t[|t| - 1] in t;
    }
  }

  lemma AscendingAppend(t: seq<Call>, s: seq<Call>, before: nat, phase: nat)
    requires Ascending(t) && UpTo(t, before) && before <= phase && OnlyPhase(s, phase)
    ensures Ascending(t + s) && UpTo(t + s, phase)
  {
    forall i, j | 0 <= i < j < |t + s| ensures Phase((t + s)[i].op) <= Phase((t + s)[j].op) {
      assert i < |t| ==> (t + s)[i] in t;
      assert j >= |t| ==> (t + s)[j] in s;
      assert i >= |t| ==> (t + s)[i] in s;
    }
  }

  lemma ConcludedGrows(t: seq<Call>, s: seq<Call>, phase: nat, later: nat)
    requires Concluded(t, phase) && OnlyPhase(s, later) && phase != later
    ensures Concluded(t + s, phase)
  {
    var j :| 0 <= j < |t| && Phase(t[j].op) == phase && Concludes(t[j]) && LastOfPhase(t, j);
    assert (t + s)[j] == t[j];
    forall k | j < k < |t + s| ensures Phase((t + s)[k].op) != phase {
      assert k >= |t| ==> (t + s)[k] in s;
    }
    assert LastOfPhase(t + s, j);
  }

  lemma ConcludedBy(t: seq<Call>, s: seq<Call>, phase: nat)
    requires |s| > 0 && Concludes(s[|s| - 1]) && OnlyPhase(s, phase)
    ensures Concluded(t + s, phase)
  {
    assert s[|s| - 1] in s;
    var j := |t + s| - 1;
    assert (t + s)[j] == s[|s| - 1];
    assert LastOfPhase(t + s, j);
  }

  // ----- Repairing mutations -----

  predicate Recoverable(m: Mutation) {
    m.state.Unknown? || m.state.Reconciling?
  }

  /** What is left to recover of unsettled mutations whose reservations are failed and whose flights are given up. */
  function Repaired(mutations: seq<Mutation>): seq<Mutation> {
    if |mutations| == 0 then []
    else
      var m := mutations[|mutations| - 1];
      Repaired(mutations[..|mutations| - 1]) +
      match m.state
      case Reserved => []
      case InFlight => [m.(state := Unknown)]
      case Unknown => [m]
      case Reconciling => [m]
      case Unexpected => []
  }

  function RepairOps(mutations: seq<Mutation>): seq<Op> {
    if |mutations| == 0 then []
    else
      var m := mutations[|mutations| - 1];
      RepairOps(mutations[..|mutations| - 1]) +
      match m.state
      case Reserved => [FailMutation(m.id)]
      case InFlight => [MarkUnknown(m.id)]
      case Unknown => []
      case Reconciling => []
      case Unexpected => []
  }

  function Ops(t: seq<Call>): seq<Op> {
    seq(|t|, i requires 0 <= i < |t| => t[i].op)
  }

  /** A complete repair leaves nothing reserved, in flight or unexpected, and loses no other mutation. */
  lemma {:induction false} RepairedAreRecoverable(mutations: seq<Mutation>)
    ensures forall m <- Repaired(mutations) :: Recoverable(m)
    ensures forall m <- mutations :: Recoverable(m) || m.state.InFlight? ==>
              exists r <- Repaired(mutations) :: r.id == m.id
  {
    if |mutations| > 0 {
      var front, m := mutations[..|mutations| - 1], mutations[|mutations| - 1];
      RepairedAreRecoverable(front);
      var last := Repaired(mutations)[|Repaired(front)|..];
      assert Repaired(mutations) == Repaired(front) + last;
      forall x | x in mutations && (Recoverable(x) || x.state.InFlight?)
        ensures exists r <- Repaired(mutations) :: r.id == x.id
      {
        if x in front {
          var r :| r in Repaired(front) && r.id == x.id;
          assert r in Repaired(mutations);
        } else {
          assert x == m;
          assert last[0].id == m.id && last[0] in Repaired(mutations);
        }
      }
    }
  }

  // ----- The worker -----

  class Finalizer {
    var script: seq<Reply>
    var leaseDone: bool
    ghost var trace: seq<Call>

    constructor (script: seq<Reply>)
      ensures this.script == script && !leaseDone && trace == []
    {
      this.script, leaseDone, trace := script, false, [];
    }

    predicate Lost(error: Error)
      reads this`leaseDone
    {
      leaseDone || error.FenceLost?
    }

    /** Makes one external call. */
    method Attempt(op: Op) returns (reply: Reply)
      modifies this
      ensures trace == old(trace) + [Call(op, reply)]
      ensures reply == if old(script) == [] then END_OF_LEASE else old(script)[0]
      ensures script == if old(script) == [] then [] else old(script)[1..]
      ensures leaseDone == (old(leaseDone) || reply.leaseEnds)
      ensures OneFewer(old(script), old(leaseDone), script, leaseDone)
      ensures Well(old(script), old(leaseDone)) && old(script) != [] ==> Good(reply)
    {
      reply := END_OF_LEASE;
      if script != [] {
        reply, script := script[0], script[1..];
      }
      leaseDone := leaseDone || reply.leaseEnds;
      trace := trace + [Call(op, reply)];
    }

    /** Pauses before a retry; a lost lease ends the pause with an error. */
    method WaitForRetry(phase: nat) returns (ok: bool, ghost c: Call)
      modifies this
      ensures trace == old(trace) + [c] && c.op == Pause(phase)
      ensures |script| <= |old(script)|
      ensures ok == !leaseDone && (old(leaseDone) ==> leaseDone)
    {
      var reply := Attempt(Pause(phase));
      c := Call(Pause(phase), reply);
      ok := !leaseDone;
    }

    /** Retries until the call succeeds or the lease is lost. */
    method RetryFinalization(op: Op) returns (error: Error, ghost s: seq<Call>)
      requires !op.Pause?
      modifies this
      ensures trace == old(trace) + s && Tried(s, op, error)
      ensures !error.NoError? ==> leaseDone || !Kept(s)
      ensures old(leaseDone) ==> leaseDone
      ensures OneFewer(old(script), old(leaseDone), script, leaseDone) &&
              (Well(old(script), old(leaseDone)) && old(script) != [] ==> error.NoError?)
    {
      hide Tried, Failing, Well, Good;
      s := [];
      NoneTried(op);
      while true
        invariant trace == old(trace) + s && Failing(s, op) && (old(leaseDone) ==> leaseDone)
        invariant Well(old(script), old(leaseDone)) && old(script) != [] ==>
                  script == old(script) && leaseDone == old(leaseDone)
        decreases |script|
      {
        var reply := Attempt(op);
        GoodIs(reply);
        TriedBy(s, op, Call(op, reply));
        if reply.error.NoError? || Lost(reply.error) {
          s := s + [Call(op, reply)];
          return reply.error, s;
        }
        s := s + [Call(op, reply)];
        var ok, c := WaitForRetry(Phase(op));
        PausedBy(s, op, c);
        s := s + [c];
        if !ok {
          return OtherError, s;
        }
      }
    }

    /** Tries a few times; a lost lease and unsettled mutations end it at once. */
    method RetryBounded(op: Op) returns (error: Error, last: Reply, reported: Corroboration, ghost s: seq<Call>)
      requires !op.Pause?
      modifies this
      ensures trace == old(trace) + s && Tried(s, op, error) && Count(s, op) <= ATTEMPTS
      ensures error.NoError? ==> s[|s| - 1] == Call(op, last)
      ensures reported == LastReported(s, op)
      ensures Lost(error) ==> leaseDone || !Kept(s)
      ensures old(leaseDone) ==> leaseDone
      ensures OneFewer(old(script), old(leaseDone), script, leaseDone)
      ensures Well(old(script), old(leaseDone)) && old(script) != [] ==> error.NoError? && reported.NotReported?
    {
      hide Tried, Failing, Count, LastReported, Well, Good;
      s := [];
      NoneTried(op);
      error, last, reported := NoError, END_OF_LEASE, NotReported;
      for attempt := 0 to ATTEMPTS
        invariant trace == old(trace) + s && Failing(s, op) && Count(s, op) == attempt
        invariant attempt > 0 ==> |s| > 0 && Tried(s, op, error) && !error.NoError?
        invariant reported == LastReported(s, op)
        invariant error.FenceLost? ==> leaseDone
        invariant old(leaseDone) ==> leaseDone
        invariant Well(old(script), old(leaseDone)) && old(script) != [] ==>
                  attempt == 0 && script == old(script) && leaseDone == old(leaseDone) && reported.NotReported?
      {
        last := Attempt(op);
        GoodIs(last);
        error := last.error;
        if last.corroboration.Reported? {
          reported := last.corroboration;
        }
        TriedBy(s, op, Call(op, last));
        CountSnoc(s, Call(op, last), op);
        s := s + [Call(op, last)];
        if error.NoError? || Lost(error) || error.MutationsUnsettled? {
          return;
        }
        if attempt + 1 < ATTEMPTS {
          var ok, c := WaitForRetry(Phase(op));
          PausedBy(s, op, c);
          CountSnoc(s, c, op);
          s := s + [c];
          if !ok {
            return;
          }
        }
      }
    }

    /** Closes MCP authority; an unresolved drain requires recovery. */
    method DrainRuntime(runtime: bool) returns (required: bool, error: Error, ghost s: seq<Call>)
      modifies this
      ensures trace == old(trace) + s && OnlyPhase(s, DRAIN)
      ensures !runtime ==> s == [] && !required && error.NoError?
      ensures runtime && error.NoError? && !required ==> |s| > 0 && Concludes(s[|s| - 1])
      ensures required ==> error.NoError? && |s| > 0 && s[|s| - 1].reply.error.DrainUnresolved?
      ensures !error.NoError? ==> leaseDone || !Kept(s) || DrainFailed(s)
      ensures old(leaseDone) ==> leaseDone
      ensures OneFewer(old(script), old(leaseDone), script, leaseDone) &&
              (Well(old(script), old(leaseDone)) && old(script) != [] ==> error.NoError? && !required)
    {
      hide Well, Good;
      s := [];
      if !runtime {
        return false, NoError, s;
      }
      while true
        invariant trace == old(trace) + s && OnlyPhase(s, DRAIN) && (old(leaseDone) ==> leaseDone)
        invariant Well(old(script), old(leaseDone)) && old(script) != [] ==>
                  script == old(script) && leaseDone == old(leaseDone)
        decreases |script|
      {
        var reply := Attempt(CloseMCP);
        GoodIs(reply);
        s := s + [Call(CloseMCP, reply)];
        assert s[|s| - 1] in s;
        if reply.error.NoError? {
          return false, NoError, s;
        } else if Lost(reply.error) {
          return false, reply.error, s;
        } else if reply.error.DrainUnresolved? {
          return true, NoError, s;
        } else if !reply.error.DeadlineExceeded? {
          return false, reply.error, s;
        }
        var ok, c := WaitForRetry(DRAIN);
        s := s + [c];
        if !ok {
          return false, OtherError, s;
        }
      }
    }

    method AttemptRepair(op: Op) returns (error: Error, ghost c: Call)
      modifies this
      ensures trace == old(trace) + [c] && c.op == op && c.reply.error == error
      ensures |script| <= |old(script)| && (old(leaseDone) ==> leaseDone)
    {
      var reply := Attempt(op);
      error, c := reply.error, Call(op, reply);
    }

    /** Fails what was only reserved and gives up what is in flight; reports what is left to recover. */
    method RepairResidualMutations(mutations: seq<Mutation>)
      returns (recoverable: seq<Mutation>, error: Error, ghost s: seq<Call>)
      modifies this
      ensures trace == old(trace) + s && Ops(s) == RepairOps(mutations) && OnlyPhase(s, LISTING)
      ensures |script| <= |old(script)| && (old(leaseDone) ==> leaseDone)
      ensures error.FenceLost? ==> !Kept(s)
      ensures error.NoError? ==> recoverable == Repaired(mutations) && AllExpected(mutations) && NoErrors(s)
    {
      hide Kept, NoErrors, OnlyPhase, Ops;
      NothingDone();
      recoverable, error, s := [], NoError, [];
      for i := 0 to |mutations|
        invariant trace == old(trace) + s && Ops(s) == RepairOps(mutations[..i]) && OnlyPhase(s, LISTING)
        invariant |script| <= |old(script)| && (old(leaseDone) ==> leaseDone)
        invariant error.FenceLost? ==> !Kept(s)
        invariant error.NoError? ==>
                    recoverable == Repaired(mutations[..i]) && AllExpected(mutations[..i]) && NoErrors(s)
      {
        var m := mutations[i];
        assert mutations[..i + 1][..i] == mutations[..i] && mutations[..i + 1] == mutations[..i] + [m];
        match m.state {
          case Reserved =>
            var failed, c := AttemptRepair(FailMutation(m.id));
            Snoc(s, c);
            s := s + [c];
            error := Join(error, failed);
          case InFlight =>
            var failed, c := AttemptRepair(MarkUnknown(m.id));
            Snoc(s, c);
            s := s + [c];
            if failed.NoError? {
              recoverable := recoverable + [m.(state := Unknown)];
            }
            error := Join(error, failed);
          case Unknown =>
            recoverable := recoverable + [m];
          case Reconciling =>
            recoverable := recoverable + [m];
          case Unexpected =>
            error := Join(error, OtherError);
        }
      }
      assert mutations[..|mutations|] == mutations;
    }

    method RecoverableMutations(mutations: seq<Mutation>) returns (recoverable: bool)
      ensures recoverable <==> mutations != [] && forall m <- mutations :: Recoverable(m)
    {
      for i := 0 to |mutations|
        invariant forall m <- mutations[..i] :: Recoverable(m)
      {
        assert mutations[..i + 1] == mutations[..i] + [mutations[i]];
        if !mutations[i].state.Unknown? && !mutations[i].state.Reconciling? {
          assert mutations[i] in mutations;
          return false;
        }
      }
      assert mutations[..|mutations|] == mutations;
      return |mutations| != 0;
    }

    /** Waits until nothing is unsettled, or only what recovery can take over. */
    method WaitForRecoverableMutations(repairResidual: bool)
      returns (unsettled: seq<Mutation>, error: Error, ghost s: seq<Call>)
      modifies this
      ensures trace == old(trace) + s && OnlyPhase(s, LISTING)
      ensures error.NoError? ==> forall m <- unsettled :: Recoverable(m)
      ensures error.NoError? && unsettled == [] && !repairResidual ==> |s| > 0 && Concludes(s[|s| - 1])
      ensures !error.NoError? ==> leaseDone || !Kept(s)
      ensures old(leaseDone) ==> leaseDone
      ensures OneFewer(old(script), old(leaseDone), script, leaseDone) &&
              (Well(old(script), old(leaseDone)) && old(script) != [] ==> error.NoError? && unsettled == [])
    {
      hide Well, Good, Repaired, RepairOps, Ops, NoErrors, AllExpected;
      s := [];
      while true
        invariant trace == old(trace) + s && OnlyPhase(s, LISTING) && (old(leaseDone) ==> leaseDone)
        invariant Well(old(script), old(leaseDone)) && old(script) != [] ==>
                  script == old(script) && leaseDone == old(leaseDone)
        decreases |script|
      {
        var reply := Attempt(ListUnsettled);
        GoodIs(reply);
        s := s + [Call(ListUnsettled, reply)];
        assert s[|s| - 1] in s;
        if !reply.error.NoError? {
          if Lost(reply.error) {
            return [], reply.error, s;
          }
        } else if |reply.listed| == 0 {
          return [], NoError, s;
        } else if repairResidual {
          var recoverable, repairError, repair := RepairResidualMutations(reply.listed);
          s := s + repair;
          if repairError.NoError? {
            RepairedAreRecoverable(reply.listed);
            return recoverable, NoError, s;
          }
          if Lost(repairError) {
            return [], repairError, s;
          }
        } else {
          var recoverable := RecoverableMutations(reply.listed);
          if recoverable {
            return reply.listed, NoError, s;
          }
        }
        var ok, c := WaitForRetry(LISTING);
        s := s + [c];
        if !ok {
          return [], OtherError, s;
        }
      }
    }

    method CleanupWithRetry(runtime: bool) returns (error: Error, ghost s: seq<Call>)
      modifies this
      ensures trace == old(trace) + s && OnlyPhase(s, CLEANUP) && Count(s, CleanUp) <= CLEANUPS
      ensures !runtime ==> s == [] && error.NoError?
      ensures runtime && error.NoError? ==> |s| > 0 && Concludes(s[|s| - 1])
      ensures Lost(error) ==> leaseDone || !Kept(s)
      ensures old(leaseDone) ==> leaseDone
      ensures OneFewer(old(script), old(leaseDone), script, leaseDone) &&
              (Well(old(script), old(leaseDone)) && old(script) != [] ==> error.NoError?)
    {
      hide Count, OnlyPhase, Well, Good;
      s := [];
      error := NoError;
      NoneTried(CleanUp);
      assert OnlyPhase(s, CLEANUP) by { NonePhase(CLEANUP); }
      if !runtime {
        return;
      }
      for attempt := 0 to CLEANUPS
        invariant trace == old(trace) + s && OnlyPhase(s, CLEANUP) && Count(s, CleanUp) == attempt
        invariant attempt > 0 ==> !error.NoError?
        invariant (error.FenceLost? ==> leaseDone) && (old(leaseDone) ==> leaseDone)
        invariant Well(old(script), old(leaseDone)) && old(script) != [] ==>
                  attempt == 0 && script == old(script) && leaseDone == old(leaseDone)
      {
        var reply := Attempt(CleanUp);
        GoodIs(reply);
        error := reply.error;
        CountSnoc(s, Call(CleanUp, reply), CleanUp);
        OnlyPhaseSnoc(s, CLEANUP, Call(CleanUp, reply));
        s := s + [Call(CleanUp, reply)];
        assert s[|s| - 1] in s;
        if error.NoError? || Lost(error) {
          return;
        }
        if attempt == 0 {
          var ok, c := WaitForRetry(CLEANUP);
          CountSnoc(s, c, CleanUp);
          OnlyPhaseSnoc(s, CLEANUP, c);
          s := s + [c];
          if !ok {
            return;
          }
        }
      }
    }

    /** Cleans up once, without the lease; nothing follows. */
    method CleanupWithoutFence(runtime: bool) returns (ghost s: seq<Call>)
      modifies this
      ensures trace == old(trace) + s && OnlyPhase(s, UNFENCED) && |s| <= 1
      ensures old(leaseDone) ==> leaseDone
    {
      s := [];
      if runtime {
        var reply := Attempt(CleanUpUnfenced);
        s := [Call(CleanUpUnfenced, reply)];
      }
    }

    /** Begins recovery of a turn that is not completed. */
    method BeginAgentTurnRecovery(ghost before: nat, runtime: bool, ghost corroborates: bool) returns (error: Error)
      requires Reached(trace, before, runtime) && before < RECOVERY && Concluded(trace, ADMISSION)
      requires Checkpointed(trace, corroborates)
      modifies this
      ensures Checkpointed(trace, corroborates)
      ensures Final(trace, runtime, error.NoError?)
      ensures (exists c <- old(trace) :: c.op.Settle?) ==> Final(trace, runtime, true)
      ensures !error.NoError? ==> leaseDone || !Kept(trace)
    {
      hide Reached, Final, Tried, OnlyPhase, Concluded, Bounded, Well, Kept, Checkpointed;
      var result, s := RetryFinalization(BeginRecovery);
      error := result;
      TriedPhase(s, BeginRecovery, error);
      FewOf(s, BeginRecovery, RECOVERY);
      Step(old(trace), s, before, RECOVERY, runtime);
      CheckpointedStep(old(trace), s, RECOVERY, corroborates);
      RecoveryEnds(old(trace), s, runtime, error);
      LostStays(old(trace), s);
    }

    method CloseAdmissionFor(prompted: bool) returns (error: Error, ghost s: seq<Call>)
      modifies this
      ensures trace == old(trace) + s && OnlyPhase(s, ADMISSION)
      ensures error.NoError? ==> |s| > 0 && Concludes(s[|s| - 1])
      ensures !error.NoError? ==> forall c <- s :: !(c.op.CloseAdmission? && c.reply.error.NoError?)
      ensures OneFewer(old(script), old(leaseDone), script, leaseDone)
      ensures Well(old(script), old(leaseDone)) && old(script) != [] ==> error.NoError?
    {
      if prompted {
        var bounded, last, reported, calls := RetryBounded(CloseAdmission);
        error, s := bounded, calls;
      } else {
        var result, calls := RetryFinalization(CloseAdmission);
        error, s := result, calls;
      }
      TriedPhase(s, CloseAdmission, error);
      assert s == s[..|s| - 1] + [s[|s| - 1]];
    }

    method GiveUp(ghost before: nat, runtime: bool, ghost corroborates: bool)
      requires Reached(trace, before, runtime) && before < UNFENCED
      requires Checkpointed(trace, corroborates)
      modifies this
      ensures Checkpointed(trace, corroborates)
      ensures Final(trace, runtime, false)
      ensures !Kept(old(trace)) ==> !Kept(trace)
      ensures Abandoned(old(trace)) ==> Abandoned(trace)
      ensures old(leaseDone) ==> leaseDone
    {
      hide Reached, Final, OnlyPhase, Bounded, Kept, Checkpointed;
      var s := CleanupWithoutFence(runtime);
      LostStays(old(trace), s);
      AbandonedStays(old(trace), s);
      FewOf(s, CleanUpUnfenced, UNFENCED);
      Step(old(trace), s, before, UNFENCED, runtime);
      CheckpointedStep(old(trace), s, UNFENCED, corroborates);
      NotReleased(trace, UNFENCED, runtime);
    }

    /** Closes, drains, lists, cleans up, reconciles and settles, or begins recovery; returns whether the turn is
        released. */
    method Finalize(runtime: bool, prompted: bool, operation: Error, corroborates: bool) returns (released: bool)
      requires trace == []
      modifies this
      ensures Checkpointed(trace, corroborates)
      ensures Final(trace, runtime, released) && RecoversLast(trace)
      ensures !released ==> operation.FenceLost? || leaseDone || !Kept(trace) || Abandoned(trace)
      ensures !operation.FenceLost? && Well(old(script), old(leaseDone)) && |old(script)| >= 7 ==>
              released && Settled(trace)
    {
      hide Reached, Final, Concluded, OnlyPhase, Concludes, Bounded, Well, Kept, Abandoned, Settled, Checkpointed, Due,
        Attempted, RecoversLast;
      WellIs(script, leaseDone);
      Nothing(runtime);
      NothingCheckpointed(corroborates);
      if Lost(operation) {
        GiveUp(ADMISSION, runtime, corroborates);
        RecoveryIsLast(trace, runtime, false);
        return false;
      }
      var closeError, s := CloseAdmissionFor(prompted);
      assert trace == s;
      Admission(s, runtime);
      CheckpointedStep([], s, ADMISSION, corroborates);
      assert [] + s == s;
      if !closeError.NoError? {
        NeverClosed(s);
        GiveUp(ADMISSION, runtime, corroborates);
        RecoveryIsLast(trace, runtime, false);
        return false;
      }
      ConcludedBy([], s, ADMISSION);
      assert [] + s == s;
      released := Drain(runtime, corroborates);
      RecoveryIsLast(trace, runtime, released);
    }

    method Drain(runtime: bool, corroborates: bool) returns (released: bool)
      requires Reached(trace, ADMISSION, runtime) && Concluded(trace, ADMISSION)
      requires Checkpointed(trace, corroborates)
      modifies this
      ensures Checkpointed(trace, corroborates)
      ensures Final(trace, runtime, released)
      ensures !released ==> leaseDone || !Kept(trace) || Abandoned(trace)
      ensures Well(old(script), old(leaseDone)) && |old(script)| >= 6 ==> released && Settled(trace)
    {
      hide Reached, Final, Concluded, OnlyPhase, Concludes, Bounded, Well, Kept, Abandoned, Settled, Checkpointed, Due,
        Attempted;
      WellIs(script, leaseDone);
      var drainRecoveryRequired, drainError, s := DrainRuntime(runtime);
      LostStays(old(trace), s);
      DrainFailedStays(old(trace), s);
      ghost var t := trace;
      FewOf(s, CloseMCP, DRAIN);
      Step(old(trace), s, ADMISSION, DRAIN, runtime);
      CheckpointedStep(old(trace), s, DRAIN, corroborates);
      if !drainError.NoError? {
        GiveUp(DRAIN, runtime, corroborates);
        return false;
      }
      if runtime && !drainRecoveryRequired {
        ConcludedBy(old(trace), s, DRAIN);
      }
      var unsettled, listError, l := WaitForRecoverableMutations(drainRecoveryRequired);
      FewOf(l, ListUnsettled, LISTING);
      Step(t, l, DRAIN, LISTING, runtime);
      CheckpointedStep(t, l, LISTING, corroborates);
      LostStays(t, l);
      if !listError.NoError? {
        GiveUp(LISTING, runtime, corroborates);
        return false;
      }
      if !drainRecoveryRequired && |unsettled| == 0 {
        ConcludedBy(t, l, LISTING);
      }
      released := CleanUpAndReconcile(runtime, corroborates, drainRecoveryRequired || |unsettled| != 0);
    }

    method CleanUpAndReconcile(runtime: bool, corroborates: bool, recover: bool) returns (released: bool)
      requires Reached(trace, LISTING, runtime) && Concluded(trace, ADMISSION)
      requires !recover ==> (runtime ==> Concluded(trace, DRAIN)) && Concluded(trace, LISTING)
      requires Checkpointed(trace, corroborates)
      modifies this
      ensures Checkpointed(trace, corroborates)
      ensures Final(trace, runtime, released)
      ensures !released ==> leaseDone || !Kept(trace) || Abandoned(trace)
      ensures Well(old(script), old(leaseDone)) && |old(script)| >= 4 && !recover ==> released && Settled(trace)
    {
      hide Reached, Final, Concluded, OnlyPhase, Concludes, Bounded, Well, Kept, Abandoned, Settled, Checkpointed, Due,
        Attempted;
      var cleanupError, s := CleanupWithRetry(runtime);
      FewOf(s, CleanUp, CLEANUP);
      Step(old(trace), s, LISTING, CLEANUP, runtime);
      CheckpointedStep(old(trace), s, CLEANUP, corroborates);
      LostStays(old(trace), s);
      WellIs(script, leaseDone);
      if Lost(cleanupError) {
        NotReleased(trace, CLEANUP, runtime);
        return false;
      }
      if !cleanupError.NoError? || recover {
        var recoveryError := BeginAgentTurnRecovery(CLEANUP, runtime, corroborates);
        return recoveryError.NoError?;
      }
      if runtime {
        ConcludedBy(old(trace), s, CLEANUP);
      }
      ghost var t := trace;
      var capture := Attempt(TerminalCapture);
      ghost var c := [Call(TerminalCapture, capture)];
      OneCall(c[0]);
      Step(t, c, CLEANUP, CAPTURE, runtime);
      CheckpointedStep(t, c, CAPTURE, corroborates);
      LostStays(t, c);
      LostCall(t, c[0]);
      GoodIs(capture);
      WellIs(script, leaseDone);
      if Lost(capture.error) {
        NotReleased(trace, CAPTURE, runtime);
        return false;
      }
      released := ReconcileAndSettle(runtime, corroborates);
    }

    method ReconcileAndSettle(runtime: bool, corroborates: bool) returns (released: bool)
      requires Reached(trace, CAPTURE, runtime) && Concluded(trace, ADMISSION) && Concluded(trace, LISTING)
      requires runtime ==> Concluded(trace, DRAIN) && Concluded(trace, CLEANUP)
      requires Checkpointed(trace, corroborates)
      modifies this
      ensures Checkpointed(trace, corroborates)
      ensures Final(trace, runtime, released)
      ensures !released ==> leaseDone || !Kept(trace) || Abandoned(trace)
      ensures Well(old(script), old(leaseDone)) && |old(script)| >= 2 ==> released && Settled(trace)
    {
      hide Reached, Final, Concluded, OnlyPhase, Concludes, Bounded, Tried, Well, Kept, Abandoned, Settled,
        Checkpointed, Due, Attempted;
      var error, observation, reported, s := RetryBounded(Reconcile);
      TriedPhase(s, Reconcile, error);
      FewOf(s, Reconcile, RECONCILE);
      ReachedUpTo(old(trace), CAPTURE, runtime);
      Step(old(trace), s, CAPTURE, RECONCILE, runtime);
      CheckpointedStep(old(trace), s, RECONCILE, corroborates);
      LostStays(old(trace), s);
      if error.MutationsUnsettled? {
        var recoveryError := BeginAgentTurnRecovery(RECONCILE, runtime, corroborates);
        return recoveryError.NoError?;
      }
      if !error.NoError? {
        if Lost(error) {
          NotReleased(trace, RECONCILE, runtime);
          return false;
        }
        var recoveryError := BeginAgentTurnRecovery(RECONCILE, runtime, corroborates);
        return recoveryError.NoError?;
      }
      assert Concludes(s[|s| - 1]) by {
        ReconcileConcludes(s[|s| - 1]);
      }
      ConcludedBy(old(trace), s, RECONCILE);
      IsReady(trace, runtime);
      DueAfter(old(trace), s, observation, corroborates);
      if reported.Reported? && observation.infrastructureFailed && (reported.retryable || reported.prerequisite) &&
        corroborates
      {
        released := CheckpointOrSettle(runtime, corroborates);
      } else {
        released := SettleTurn(RECONCILE, runtime, corroborates);
      }
    }

    method CheckpointOrSettle(runtime: bool, ghost corroborates: bool) returns (released: bool)
      requires Reached(trace, RECONCILE, runtime) && Ready(trace, runtime)
      requires Checkpointed(trace, corroborates) && Due(trace, corroborates)
      modifies this
      ensures Checkpointed(trace, corroborates)
      ensures Final(trace, runtime, released)
      ensures !released ==> leaseDone || !Kept(trace) || Abandoned(trace)
    {
      hide Reached, Final, Concluded, OnlyPhase, Concludes, Bounded, Tried, Ready, Well, Kept, Abandoned, Settled,
        Checkpointed, Due, Attempted;
      var error, pending, reported, s := RetryBounded(BeginCorroboration);
      TriedPhase(s, BeginCorroboration, error);
      FewOf(s, BeginCorroboration, CHECKPOINT);
      Step(old(trace), s, RECONCILE, CHECKPOINT, runtime);
      CheckpointedStep(old(trace), s, CHECKPOINT, corroborates);
      AttemptedNow(old(trace), s, BeginCorroboration, error);
      ReadyGrows(old(trace), s, CHECKPOINT, runtime);
      ReadyHasAdmission(trace, runtime);
      if error.NoError? && pending.pending {
        Ends(old(trace), s, runtime);
        return true;
      }
      NotComplete(s);
      if !error.NoError? {
        var recoveryError := BeginAgentTurnRecovery(CHECKPOINT, runtime, corroborates);
        return recoveryError.NoError?;
      }
      released := SettleTurn(CHECKPOINT, runtime, corroborates);
    }

    method SettleTurn(ghost before: nat, runtime: bool, ghost corroborates: bool) returns (released: bool)
      requires Reached(trace, before, runtime) && before < SETTLE && Ready(trace, runtime)
      requires Checkpointed(trace, corroborates)
      requires Due(trace, corroborates) ==> Attempted(trace, BeginCorroboration)
      modifies this
      ensures Checkpointed(trace, corroborates)
      ensures Final(trace, runtime, released)
      ensures !released ==> leaseDone || !Kept(trace) || Abandoned(trace)
      ensures Well(old(script), old(leaseDone)) && |old(script)| >= 1 ==> released && Settled(trace)
    {
      hide Reached, Final, Concluded, OnlyPhase, Concludes, Bounded, Tried, Ready, Well, Kept, Abandoned, Settled,
        Checkpointed, Due, Attempted;
      var error, last, reported, s := RetryBounded(Settle);
      SettleTried(s, error);
      TriedPhase(s, Settle, error);
      FewOf(s, Settle, SETTLE);
      Step(old(trace), s, before, SETTLE, runtime);
      CheckpointedStep(old(trace), s, SETTLE, corroborates);
      ReadyGrows(old(trace), s, SETTLE, runtime);
      ReadyHasAdmission(trace, runtime);
      SettleAttempted(old(trace), s, runtime, error);
      LostStays(old(trace), s);
      SettledBy(old(trace), s);
      if !error.NoError? {
        if Lost(error) {
          return true;
        }
        var recoveryError := BeginAgentTurnRecovery(SETTLE, runtime, corroborates);
        return recoveryError.NoError? || recoveryError.FenceLost?;
      }
      return true;
    }
  }

  // ----- Losing the lease, and not losing it -----

  /** No call was told that the lease is lost. */
  predicate Kept(t: seq<Call>) {
    forall c <- t :: !c.reply.error.FenceLost?
  }

  /** Why a turn is left alone although the lease holds: its admission never closed, or its drain failed for good. */
  predicate Abandoned(t: seq<Call>) {
    || (forall c <- t :: !(c.op.CloseAdmission? && c.reply.error.NoError?))
    || DrainFailed(t)
  }

  predicate DrainFailed(t: seq<Call>) {
    exists c <- t :: c.op.CloseMCP? && (c.reply.error.MutationsUnsettled? || c.reply.error.OtherError?)
  }

  predicate Good(r: Reply) {
    r.error.NoError? && !r.leaseEnds && r.listed == [] && r.corroboration.NotReported?
  }

  lemma LostStays(t: seq<Call>, s: seq<Call>)
    ensures Kept(t + s) <==> Kept(t) && Kept(s)
  {
    assert forall c :: c in t + s <==> c in t || c in s;
  }

  lemma LostCall(t: seq<Call>, c: Call)
    ensures c.reply.error.FenceLost? ==> !Kept(t + [c])
  {
    assert c in t + [c];
  }

  lemma DrainFailedStays(t: seq<Call>, s: seq<Call>)
    ensures DrainFailed(s) ==> Abandoned(t + s)
  {
    assert forall c <- s :: c in t + s;
  }

  lemma AbandonedStays(t: seq<Call>, s: seq<Call>)
    requires OnlyPhase(s, UNFENCED)
    ensures Abandoned(t) ==> Abandoned(t + s)
  {
    assert forall c :: c in t + s <==> c in t || c in s;
  }

  lemma NeverClosed(s: seq<Call>)
    requires forall c <- s :: !(c.op.CloseAdmission? && c.reply.error.NoError?)
    ensures Abandoned(s)
  {
  }

  lemma SettledBy(t: seq<Call>, s: seq<Call>)
    requires |s| > 0
    ensures s[|s| - 1].op.Settle? && s[|s| - 1].reply.error.NoError? ==> Settled(t + s)
  {
    assert (t + s)[|t + s| - 1] == s[|s| - 1];
  }

  lemma WellIs(script: seq<Reply>, leaseDone: bool)
    ensures Well(script, leaseDone) ==> !leaseDone
  {
  }

  /** All answers still to come are good. */
  predicate Well(script: seq<Reply>, leaseDone: bool) {
    !leaseDone && forall r <- script :: Good(r)
  }

  /** A call that is answered well uses up one answer. */
  predicate OneFewer(was: seq<Reply>, wasDone: bool, script: seq<Reply>, leaseDone: bool) {
    Well(was, wasDone) && was != [] ==> Well(script, leaseDone) && |script| >= |was| - 1
  }

  predicate Settled(t: seq<Call>) {
    |t| > 0 && t[|t| - 1].op.Settle? && t[|t| - 1].reply.error.NoError?
  }

  // ----- Keeping the barriers -----

  predicate NoneComplete(t: seq<Call>) {
    forall c <- t :: !Completes(c)
  }

  /** How often the calls that may be repeated are made. */
  predicate Bounded(t: seq<Call>) {
    && Count(t, Settle) <= ATTEMPTS && Count(t, Reconcile) <= ATTEMPTS
    && Count(t, BeginCorroboration) <= ATTEMPTS && Count(t, CleanUp) <= CLEANUPS
  }

  /** A trace of calls up to a phase, with the barriers kept and the turn not completed. */
  predicate Reached(t: seq<Call>, phase: nat, runtime: bool) {
    Barriers(t, runtime) && NoneComplete(t) && UpTo(t, phase) && Bounded(t)
  }

  predicate Releases(c: Call) {
    Completes(c) || c.op.Settle? || (c.op.BeginRecovery? && c.reply.error.NoError?)
  }

  /** What holds of the trace when Finalize returns whether the turn is released. */
  predicate Final(t: seq<Call>, runtime: bool, released: bool) {
    && Barriers(t, runtime) && Bounded(t)
    && (released ==> exists c <- t :: Releases(c))
    && (!released ==> NoneComplete(t))
  }

  lemma NothingCheckpointed(corroborates: bool)
    ensures Checkpointed([], corroborates)
  {
  }

  lemma Nothing(runtime: bool)
    ensures Reached([], ADMISSION, runtime)
  {
  }

  lemma Admission(s: seq<Call>, runtime: bool)
    requires OnlyPhase(s, ADMISSION)
    ensures Reached(s, ADMISSION, runtime)
  {
    FewOf(s, CloseAdmission, ADMISSION);
    assert [] + s == s;
    Nothing(runtime);
    Extend([], s, ADMISSION, ADMISSION, runtime);
    NeverCompletes(s, ADMISSION);
  }

  /** A single phase makes only its own calls. */
  lemma FewOf(s: seq<Call>, op: Op, phase: nat)
    requires OnlyPhase(s, phase) && Phase(op) == phase
    requires op.Settle? || op.Reconcile? || op.BeginCorroboration? ==> Count(s, op) <= ATTEMPTS
    requires op.CleanUp? ==> Count(s, op) <= CLEANUPS
    requires phase == SETTLE || phase == RECONCILE || phase == CHECKPOINT || phase == CLEANUP ==>
               op.Settle? || op.Reconcile? || op.BeginCorroboration? || op.CleanUp?
    ensures Bounded(s)
  {
    hide Count;
    if phase != SETTLE { CountOther(s, phase, Settle); }
    if phase != RECONCILE { CountOther(s, phase, Reconcile); }
    if phase != CHECKPOINT { CountOther(s, phase, BeginCorroboration); }
    if phase != CLEANUP { CountOther(s, phase, CleanUp); }
  }

  lemma OneCall(c: Call)
    requires c.op.TerminalCapture?
    ensures OnlyPhase([c], CAPTURE) && Bounded([c])
  {
    FewOf([c], TerminalCapture, CAPTURE);
  }

  lemma {:induction false} CountAbove(t: seq<Call>, phase: nat, op: Op)
    requires UpTo(t, phase) && Phase(op) > phase
    ensures Count(t, op) == 0
  {
    if |t| > 0 {
      CountAbove(t[..|t| - 1], phase, op);
      assert t[|t| - 1] in t;
    }
  }

  lemma BoundedAppend(t: seq<Call>, s: seq<Call>, before: nat, phase: nat)
    requires Bounded(t) && Bounded(s) && UpTo(t, before) && before < phase && OnlyPhase(s, phase)
    ensures Bounded(t + s)
  {
    hide Count;
    forall op ensures Count(t + s, op) == if Phase(op) == phase then Count(s, op) else Count(t, op) {
      CountAppend(t, s, op);
      if Phase(op) == phase {
        CountAbove(t, before, op);
      } else {
        CountOther(s, phase, op);
      }
    }
  }

  /** One more phase. */
  lemma Step(t: seq<Call>, s: seq<Call>, before: nat, phase: nat, runtime: bool)
    requires Reached(t, before, runtime) && before < phase && OnlyPhase(s, phase) && Bounded(s)
    requires phase == CHECKPOINT || phase == SETTLE ==> Ready(t, runtime) && |s| > 0 && NoneComplete(s[..|s| - 1])
    requires phase == RECOVERY ==> Concluded(t, ADMISSION)
    ensures Barriers(t + s, runtime) && Bounded(t + s)
    ensures NoneComplete(s) || (phase != CHECKPOINT && phase != SETTLE) ==> Reached(t + s, phase, runtime)
    ensures forall p :: Concluded(t, p) && p != phase ==> Concluded(t + s, p)
  {
    hide Barriers, Concluded, Ready, Completes, Count, Bounded, OnlyPhase, UpTo, NoneComplete;
    Extend(t, s, before, phase, runtime);
    BoundedAppend(t, s, before, phase);
  }

  lemma NotReleased(t: seq<Call>, phase: nat, runtime: bool)
    requires Reached(t, phase, runtime)
    ensures Final(t, runtime, false)
  {
    hide Barriers, Bounded;
  }

  lemma RecoveryEnds(t: seq<Call>, s: seq<Call>, runtime: bool, error: Error)
    requires Reached(t + s, RECOVERY, runtime) && |s| > 0
    requires error.NoError? ==> s[|s| - 1].op.BeginRecovery? && s[|s| - 1].reply.error.NoError?
    ensures Final(t + s, runtime, error.NoError?)
    ensures (exists c <- t :: c.op.Settle?) ==> Final(t + s, runtime, true)
  {
    hide Barriers, Bounded;
    if error.NoError? {
      assert Releases(s[|s| - 1]) && s[|s| - 1] in t + s;
    }
    if c :| c in t && c.op.Settle? {
      assert c in t + s && Releases(c);
    }
  }

  lemma ReconcileConcludes(c: Call)
    requires c.op.Reconcile? && c.reply.error.NoError?
    ensures Concludes(c) && Phase(c.op) == RECONCILE
  {
  }

  lemma IsReady(t: seq<Call>, runtime: bool)
    requires Concluded(t, ADMISSION) && Concluded(t, LISTING) && Concluded(t, RECONCILE)
    requires runtime ==> Concluded(t, DRAIN) && Concluded(t, CLEANUP)
    ensures Ready(t, runtime)
  {
  }

  lemma ReadyHasAdmission(t: seq<Call>, runtime: bool)
    requires Ready(t, runtime)
    ensures Concluded(t, ADMISSION)
  {
  }

  lemma Ends(t: seq<Call>, s: seq<Call>, runtime: bool)
    requires Barriers(t + s, runtime) && Bounded(t + s) && |s| > 0 && Completes(s[|s| - 1])
    ensures Final(t + s, runtime, true)
  {
    hide Barriers, Bounded;
    assert Releases(s[|s| - 1]) && s[|s| - 1] in t + s;
  }

  lemma NotComplete(s: seq<Call>)
    requires |s| > 0 && NoneComplete(s[..|s| - 1]) && !Completes(s[|s| - 1])
    ensures NoneComplete(s)
  {
    assert s == s[..|s| - 1] + [s[|s| - 1]];
  }

  lemma SettleTried(s: seq<Call>, error: Error)
    requires Tried(s, Settle, error)
    ensures exists c <- s :: c.op.Settle?
    ensures error.NoError? ==> Completes(s[|s| - 1])
  {
  }

  lemma SettleAttempted(t: seq<Call>, s: seq<Call>, runtime: bool, error: Error)
    requires Barriers(t + s, runtime) && Bounded(t + s) && |s| > 0
    requires exists c <- s :: c.op.Settle?
    ensures Final(t + s, runtime, true)
  {
    hide Barriers, Bounded;
    var c :| c in s && c.op.Settle?;
    assert Releases(c) && c in t + s;
  }

  lemma TriedPhase(s: seq<Call>, op: Op, error: Error)
    requires Tried(s, op, error) && !op.Pause?
    ensures OnlyPhase(s, Phase(op)) && |s| > 0
    ensures error.NoError? ==> s[|s| - 1].op == op && s[|s| - 1].reply.error.NoError?
    ensures NoneComplete(s[..|s| - 1]) && (!error.NoError? ==> NoneComplete(s))
  {
    var front, last := s[..|s| - 1], s[|s| - 1];
    assert s == front + [last];
    FailingPhase(front, op);
    hide Failing, Phase;
    assert forall c :: c in s <==> c in front || c == last;
  }

  lemma FailingPhase(s: seq<Call>, op: Op)
    requires Failing(s, op)
    ensures OnlyPhase(s, Phase(op)) && NoneComplete(s)
  {
  }

  lemma NeverCompletes(s: seq<Call>, phase: nat)
    requires OnlyPhase(s, phase) && phase != CHECKPOINT && phase != SETTLE
    ensures NoneComplete(s)
  {
  }

  lemma ReadyGrows(t: seq<Call>, s: seq<Call>, phase: nat, runtime: bool)
    requires Ready(t, runtime) && OnlyPhase(s, phase) && phase >= CAPTURE && phase != RECONCILE
    ensures Ready(t + s, runtime)
  {
    hide Concluded, OnlyPhase;
    ConcludedGrows(t, s, ADMISSION, phase);
    ConcludedGrows(t, s, LISTING, phase);
    ConcludedGrows(t, s, RECONCILE, phase);
    if runtime {
      ConcludedGrows(t, s, DRAIN, phase);
      ConcludedGrows(t, s, CLEANUP, phase);
    }
  }

  /** What a phase adds to a trace keeps the barriers. */
  lemma Extend(t: seq<Call>, s: seq<Call>, before: nat, phase: nat, runtime: bool)
    requires Barriers(t, runtime) && UpTo(t, before) && before <= phase && OnlyPhase(s, phase) && NoneComplete(t)
    requires phase == CHECKPOINT || phase == SETTLE ==> Ready(t, runtime) && |s| > 0 && NoneComplete(s[..|s| - 1])
    requires phase == RECOVERY ==> Concluded(t, ADMISSION)
    ensures Barriers(t + s, runtime) && UpTo(t + s, phase)
    ensures NoneComplete(s) || (phase != CHECKPOINT && phase != SETTLE) ==> NoneComplete(t + s)
    ensures forall p :: Concluded(t, p) && p != phase ==> Concluded(t + s, p)
    ensures forall op :: Phase(op) != phase ==> Count(t + s, op) == Count(t, op)
    ensures forall op :: Count(t + s, op) == Count(t, op) + Count(s, op)
  {
    hide Concluded, Ready, Completes, Count;
    AscendingAppend(t, s, before, phase);
    forall p | Concluded(t, p) && p != phase ensures Concluded(t + s, p) {
      ConcludedGrows(t, s, p, phase);
    }
    forall op ensures Count(t + s, op) == Count(t, op) + Count(s, op) {
      CountAppend(t, s, op);
    }
    forall op | Phase(op) != phase ensures Count(t + s, op) == Count(t, op) {
      CountOther(s, phase, op);
    }
    if phase != CHECKPOINT && phase != SETTLE {
      NeverCompletes(s, phase);
    }
    forall i | 0 <= i < |t + s|
      ensures (t + s)[i].op.Settle? || (t + s)[i].op.BeginCorroboration? ==> Ready((t + s)[..i], runtime)
      ensures (t + s)[i].op.BeginRecovery? ==> Concluded((t + s)[..i], ADMISSION)
      ensures Completes((t + s)[i]) ==> i == |t + s| - 1
    {
      if i < |t| {
        assert (t + s)[..i] == t[..i] && (t + s)[i] == t[i] && t[i] in t;
      } else {
        assert (t + s)[..i] == t + s[..i - |t|] && (t + s)[i] == s[i - |t|] && s[i - |t|] in s;
        assert OnlyPhase(s[..i - |t|], phase);
        if phase == CHECKPOINT || phase == SETTLE {
          ReadyGrows(t, s[..i - |t|], phase, runtime);
          assert i < |t + s| - 1 ==> s[i - |t|] in s[..|s| - 1];
        }
        if phase == RECOVERY {
          ConcludedGrows(t, s[..i - |t|], ADMISSION, phase);
        }
      }
    }
  }

  /** An error together with another one; which is kept does not matter to the caller, except for a lost lease. */
  function Join(a: Error, b: Error): Error {
    if a.NoError? || b.FenceLost? then b else a
  }

  lemma NonePhase(phase: nat)
    ensures OnlyPhase([], phase)
  {
  }

  lemma OnlyPhaseSnoc(s: seq<Call>, phase: nat, c: Call)
    requires OnlyPhase(s, phase) && Phase(c.op) == phase
    ensures OnlyPhase(s + [c], phase)
  {
  }

  lemma Snoc(s: seq<Call>, c: Call)
    ensures Ops(s + [c]) == Ops(s) + [c.op]
    ensures Kept(s + [c]) <==> Kept(s) && !c.reply.error.FenceLost?
    ensures NoErrors(s + [c]) <==> NoErrors(s) && c.reply.error.NoError?
    ensures OnlyPhase(s, LISTING) && Phase(c.op) == LISTING ==> OnlyPhase(s + [c], LISTING)
  {
    assert forall d :: d in s + [c] <==> d in s || d == c;
  }

  lemma NothingDone()
    ensures Ops([]) == [] && Kept([]) && NoErrors([]) && OnlyPhase([], LISTING)
  {
  }

  predicate NoErrors(s: seq<Call>) {
    forall c <- s :: c.reply.error.NoError?
  }

  predicate AllExpected(mutations: seq<Mutation>) {
    forall m <- mutations :: !m.state.Unexpected?
  }

  lemma CountSnoc(s: seq<Call>, c: Call, op: Op)
    ensures Count(s + [c], op) == Count(s, op) + if c.op == op then 1 else 0
    ensures LastReported(s + [c], op) ==
            if c.op == op && c.reply.corroboration.Reported? then c.reply.corroboration else LastReported(s, op)
  {
    assert (s + [c])[..|s + [c]| - 1] == s;
  }

  predicate Failing(s: seq<Call>, op: Op) {
    forall c <- s :: (c.op == op && !c.reply.error.NoError?) || c.op == Pause(Phase(op))
  }

  /** Calls of one operation: only the last may succeed, and the error is what the last one returned. */
  predicate Tried(s: seq<Call>, op: Op, error: Error) {
    && |s| > 0 && (exists c <- s :: c.op == op) && Failing(s[..|s| - 1], op)
    && (s[|s| - 1].op == op || s[|s| - 1].op == Pause(Phase(op)))
    && (error.NoError? ==> s[|s| - 1].op == op)
    && (s[|s| - 1].op == op ==> s[|s| - 1].reply.error == error)
  }

  lemma GoodIs(r: Reply)
    ensures Good(r) ==> r.error.NoError? && r.corroboration.NotReported? && r.listed == []
  {
  }

  lemma NoneTried(op: Op)
    ensures Failing([], op) && Count([], op) == 0 && LastReported([], op) == NotReported
  {
  }

  lemma TriedBy(s: seq<Call>, op: Op, c: Call)
    requires Failing(s, op) && c.op == op
    ensures Tried(s + [c], op, c.reply.error) && (!c.reply.error.NoError? ==> Failing(s + [c], op))
  {
    assert (s + [c])[..|s + [c]| - 1] == s;
  }

  lemma PausedBy(s: seq<Call>, op: Op, c: Call)
    requires Failing(s, op) && c.op == Pause(Phase(op)) && !op.Pause? && |s| > 0 && s[|s| - 1].op == op
    ensures Failing(s + [c], op) && forall error: Error :: !error.NoError? ==> Tried(s + [c], op, error)
  {
    assert (s + [c])[..|s + [c]| - 1] == s;
    assert (s + [c])[|s| - 1] in s + [c];
  }

  // ----- What a finalization guarantees -----

  predicate ConcludedAt(t: seq<Call>, i: nat, phase: nat, j: nat) {
    && j < i <= |t| && Phase(t[j].op) == phase && Concludes(t[j])
    && forall k :: j < k < i ==> Phase(t[k].op) != phase
  }

  lemma ConcludedSomewhere(t: seq<Call>, i: nat, phase: nat) returns (j: nat)
    requires i <= |t| && Concluded(t[..i], phase)
    ensures ConcludedAt(t, i, phase, j)
  {
    j :| 0 <= j < |t[..i]| && Phase(t[..i][j].op) == phase && Concludes(t[..i][j]) && LastOfPhase(t[..i], j);
    assert forall k :: 0 <= k < i ==> t[..i][k] == t[k];
  }

  /** Before any attempt to settle, in this order: admission was closed, the drain ended resolved, the last listing of
      unsettled mutations was empty, cleanup succeeded, and reconciliation succeeded. */
  lemma SettlementBarrier(t: seq<Call>, runtime: bool, released: bool, i: nat)
    returns (closed: nat, drained: nat, listed: nat, cleaned: nat, reconciled: nat)
    requires Final(t, runtime, released) && i < |t| && (t[i].op.Settle? || t[i].op.BeginCorroboration?)
    ensures ConcludedAt(t, i, ADMISSION, closed) && ConcludedAt(t, i, LISTING, listed) &&
            ConcludedAt(t, i, RECONCILE, reconciled)
    ensures runtime ==> ConcludedAt(t, i, DRAIN, drained) && ConcludedAt(t, i, CLEANUP, cleaned)
    ensures t[listed].op.ListUnsettled? && t[listed].reply.listed == []
    ensures closed < listed < reconciled < i
    ensures runtime ==> closed < drained < listed < cleaned < reconciled
    ensures forall k :: 0 <= k < i ==> !t[k].op.BeginRecovery?
  {
    hide Bounded, Concluded, NoneComplete;
    closed := ConcludedSomewhere(t, i, ADMISSION);
    listed := ConcludedSomewhere(t, i, LISTING);
    reconciled := ConcludedSomewhere(t, i, RECONCILE);
    drained, cleaned := 0, 0;
    if runtime {
      drained := ConcludedSomewhere(t, i, DRAIN);
      cleaned := ConcludedSomewhere(t, i, CLEANUP);
    }
  }

  /** A settled or corroborating turn is released, and its settlement is the last call: it never begins recovery. */
  lemma CompletedIsNotRecovered(t: seq<Call>, runtime: bool, released: bool, i: nat)
    requires Final(t, runtime, released) && i < |t| && Completes(t[i])
    ensures released && i == |t| - 1
    ensures forall c <- t :: !c.op.BeginRecovery?
    ensures forall j :: 0 <= j < i ==> !Completes(t[j])
  {
    hide Bounded, Ready, Concluded;
    assert t[i] in t;
    forall k | 0 <= k < |t| ensures !t[k].op.BeginRecovery? {
      assert k < i ==> Phase(t[k].op) <= Phase(t[i].op);
    }
  }

  /** Recovery begins only once admission is closed, and nothing but its own retries follows it. */
  lemma RecoveryIsLast(t: seq<Call>, runtime: bool, released: bool)
    requires Final(t, runtime, released)
    ensures RecoversLast(t)
  {
    hide Bounded, Ready, Concluded;
  }
}
