/** Tearing down a Runtime Process. */
module RuntimeCleanup {
  // Any external call may fail, and Cleanup is called again until nothing is left.  The outside
  // world answers the external calls of one Cleanup through a `World`; every attempt is recorded
  // in a trace, whatever came of it.

  import opened Basics

  datatype Exit = Exit(exited: bool, oomKilled: bool, code: int)

  /** How a drain ended; unresolved mutations end the drain too, with an error. */
  datatype Drain = Drained | DrainUnresolved | DrainFailed

  /** What the external calls of one Cleanup, CloseMCP or ObserveOOM return. */
  datatype World = World(
    exit: Option<Exit>, recordOOM: bool, drain: Drain, closeAgent: bool, stop: bool, recordUnprompted: bool,
    admitCapture: bool, capture: bool, adoptCapture: bool, remove: bool, ensureAbsent: bool,
    cleanScratch: bool, discard: bool, closeEngine: bool)

  datatype Event =
    | ObservedExit(exit: Option<Exit>)
    | RecordedOOM(ok: bool)
    | ClosedMCP(drain: Drain)
    | ClosedAgent(ok: bool)
    | Stopped(ok: bool)
    | RecordedUnprompted(ok: bool)
    | AdmittedCapture(ok: bool)
    | Captured(ok: bool)
    | AdoptedCapture(ok: bool)
    | Removed(ok: bool)
    | EnsuredAbsent(ok: bool)
    | CleanedScratch(ok: bool)
    | Discarded(ok: bool)
    | ClosedEngine(ok: bool)

  datatype Fault =
    | ObserveFault | DrainFault | AgentFault | StopFault | ProofFault | CaptureFault | RemoveFault
    | AmbiguousCreation | AbsentFault | ScratchFault | DiscardFault | EngineFault

  /** What a launch leaves behind; it does not change during teardown. */
  datatype Launch = Launch(
    gateway: bool, registered: bool, workspace: bool, sessionPrepared: bool, creationAttempted: bool,
    engine: bool, process: bool, scratchPrepared: bool, discardWorkspace: bool)

  datatype Handle = Handle(
    launch: Launch, agent: bool, exit: Option<Exit>, oomRecorded: bool, observeExit: bool,
    mcpClosed: bool, mcpDrained: bool, processStopped: bool, processRemoved: bool, captured: bool,
    scratchCleaned: bool, workspaceDiscarded: bool, engineClosed: bool, trace: seq<Event>)

  /** A handle as a launch returns it, wherever the launch stopped. */
  function Launched(launch: Launch, agent: bool): Handle {
    Handle(launch, agent, None, false, false, false, false, false, false, false, false, false, false, [])
  }

  // ----- The steps -----

  predicate Conclusive(exit: Exit) {
    exit.exited && (exit.oomKilled || exit.code != 137)
  }

  datatype OOMResult = OOMUnknown | OOMConfirmed | OOMFailed

  function Concluding(exit: Option<Exit>): Option<Exit> {
    if exit.Some? && Conclusive(exit.value) then exit else None
  }

  function ExitSeen(h: Handle, w: World): (r: Handle)
    ensures r.launch == h.launch
  {
    if h.exit.Some? then h.(observeExit := true)
    else h.(observeExit := true, exit := Concluding(w.exit), trace := h.trace + [ObservedExit(w.exit)])
  }

  predicate Killed(h: Handle) {
    h.exit.Some? && h.exit.value.oomKilled
  }

  function OOMRecorded(h: Handle, w: World): (r: (Handle, OOMResult))
    ensures r.0.launch == h.launch
  {
    if !Killed(h) then (h, OOMUnknown)
    else if h.oomRecorded then (h, OOMConfirmed)
    else
      var recorded := h.(oomRecorded := w.recordOOM, trace := h.trace + [RecordedOOM(w.recordOOM)]);
      (recorded, if w.recordOOM then OOMConfirmed else OOMFailed)
  }

  /** Observes the exit until it is conclusive, and records an OOM. */
  function AfterObserveOOM(h: Handle, w: World): (r: (Handle, OOMResult))
    ensures r.0.launch == h.launch
  {
    hide ExitSeen, OOMRecorded;
    if !h.launch.process then (h, OOMUnknown)
    else if h.exit.None? && w.exit.None? then (ExitSeen(h, w), OOMFailed)
    else OOMRecorded(ExitSeen(h, w), w)
  }

  function AfterCloseMCP(h: Handle, w: World): (r: (Handle, bool))
    ensures r.0.launch == h.launch
  {
    if h.mcpDrained || !h.launch.gateway || !h.launch.registered then (h, true)
    else
      (h.(mcpClosed := true, mcpDrained := !w.drain.DrainFailed?, trace := h.trace + [ClosedMCP(w.drain)]),
        w.drain.Drained?)
  }

  datatype Progress = Progress(h: Handle, faults: seq<Fault>)

  function Fail(ok: bool, fault: Fault): seq<Fault> {
    if ok then [] else [fault]
  }

  function CloseAgentStep(p: Progress, w: World): (q: Progress)
    ensures q.h.launch == p.h.launch
  {
    if !p.h.agent then p
    else Progress(p.h.(agent := !w.closeAgent, trace := p.h.trace + [ClosedAgent(w.closeAgent)]),
                  p.faults + Fail(w.closeAgent, AgentFault))
  }

  function StopStep(p: Progress, w: World): (q: Progress)
    ensures q.h.launch == p.h.launch
  {
    if !p.h.launch.process || p.h.processRemoved || p.h.processStopped then p
    else Progress(p.h.(processStopped := w.stop, trace := p.h.trace + [Stopped(w.stop)]),
      p.faults + Fail(w.stop, StopFault))
  }

  /** A confirmed stop and a concluded drain authorize evidence and removal. */
  predicate MayRemove(h: Handle) {
    && h.launch.process && !h.processRemoved
    && h.processStopped && (!h.launch.registered || h.mcpDrained)
  }

  /** The calls of a terminal capture, up to the first that fails. */
  function CaptureEvents(w: World): seq<Event> {
    if !w.admitCapture then [AdmittedCapture(false)]
    else if !w.capture then [AdmittedCapture(true), Captured(false)]
    else [AdmittedCapture(true), Captured(true), AdoptedCapture(w.adoptCapture)]
  }

  predicate Captures(w: World) {
    w.admitCapture && w.capture && w.adoptCapture
  }

  /** Seals the terminal workspace, or records that the session was never prompted. */
  function SealStep(p: Progress, w: World): (r: (Progress, bool))
    ensures r.0.h.launch == p.h.launch
    ensures r.1 ==> !r.0.h.processRemoved
  {
    hide UnpromptedStep, CaptureStep, Captures;
    if !MayRemove(p.h) then (p, false)
    else if !p.h.launch.sessionPrepared then (UnpromptedStep(p, w), p.h.captured || w.recordUnprompted)
    else if p.h.captured then (p, true)
    else (CaptureStep(p, w), Captures(w))
  }

  function UnpromptedStep(p: Progress, w: World): (q: Progress)
    ensures q.h.launch == p.h.launch && q.h.processRemoved == p.h.processRemoved
  {
    Progress(p.h.(trace := p.h.trace + [RecordedUnprompted(w.recordUnprompted)]),
             p.faults + Fail(w.recordUnprompted, ProofFault))
  }

  function CaptureStep(p: Progress, w: World): (q: Progress)
    ensures q.h.launch == p.h.launch && q.h.processRemoved == p.h.processRemoved
  {
    Progress(p.h.(captured := Captures(w), trace := p.h.trace + CaptureEvents(w)),
             p.faults + Fail(Captures(w), CaptureFault))
  }

  function Removal(p: Progress, w: World): (q: Progress)
    ensures q.h.launch == p.h.launch
  {
    Progress(p.h.(processRemoved := w.remove, trace := p.h.trace + [Removed(w.remove)]),
      p.faults + Fail(w.remove, RemoveFault))
  }

  function RemoveStep(p: Progress, w: World): (q: Progress)
    ensures q.h.launch == p.h.launch
  {
    hide SealStep;
    var (r, sealed) := SealStep(p, w);
    if sealed then Removal(r, w) else r
  }

  /** Without a process handle, absence is proven only if no creation was ever attempted. */
  function AbsentStep(p: Progress, w: World): (q: Progress)
    ensures q.h.launch == p.h.launch
  {
    if p.h.launch.process || !p.h.launch.engine || p.h.processRemoved then p
    else if p.h.launch.creationAttempted then Progress(p.h, p.faults + [AmbiguousCreation])
    else Progress(p.h.(processRemoved := w.ensureAbsent, trace := p.h.trace + [EnsuredAbsent(w.ensureAbsent)]),
                  p.faults + Fail(w.ensureAbsent, AbsentFault))
  }

  predicate Gone(h: Handle) {
    h.processRemoved || (!h.launch.process && !h.launch.engine)
  }

  function ScratchStep(p: Progress, w: World): (q: Progress)
    ensures q.h.launch == p.h.launch
  {
    if !Gone(p.h) || !p.h.launch.scratchPrepared || !p.h.launch.workspace || p.h.scratchCleaned then p
    else Progress(p.h.(scratchCleaned := w.cleanScratch, trace := p.h.trace + [CleanedScratch(w.cleanScratch)]),
                  p.faults + Fail(w.cleanScratch, ScratchFault))
  }

  function DiscardStep(p: Progress, w: World): (q: Progress)
    ensures q.h.launch == p.h.launch
  {
    if !Gone(p.h) || !p.h.launch.discardWorkspace || !p.h.launch.workspace || p.h.workspaceDiscarded then p
    else Progress(p.h.(workspaceDiscarded := w.discard, trace := p.h.trace + [Discarded(w.discard)]),
                  p.faults + Fail(w.discard, DiscardFault))
  }

  function EngineStep(p: Progress, w: World): (q: Progress)
    ensures q.h.launch == p.h.launch
  {
    if !Gone(p.h) || !p.h.launch.engine || p.h.engineClosed then p
    else Progress(p.h.(engineClosed := w.closeEngine, trace := p.h.trace + [ClosedEngine(w.closeEngine)]),
                  p.faults + Fail(w.closeEngine, EngineFault))
  }

  function DrainStep(h: Handle, w: World): (q: Progress)
    ensures q.h.launch == h.launch
  {
    var (drained, ok) := AfterCloseMCP(h, w);
    Progress(drained, Fail(ok, DrainFault))
  }

  /** Everything Cleanup does behind a successful observation. */
  function Teardown(h: Handle, w: World): (q: Progress)
    ensures q.h.launch == h.launch
  {
    EngineStep(DiscardStep(ScratchStep(AbsentStep(RemoveStep(StopStep(CloseAgentStep(DrainStep(h, w), w), w), w), w),
      w), w), w)
  }

  function AfterCleanup(h: Handle, w: World): (q: Progress)
    ensures q.h.launch == h.launch
  {
    hide Teardown, AfterObserveOOM;
    if h.observeExit && h.launch.process && !h.processRemoved then
      var (observed, result) := AfterObserveOOM(h, w);
      if result.OOMFailed? then Progress(observed, [ObserveFault]) else Teardown(observed, w)
    else Teardown(h, w)
  }

  // ----- Runs -----

  datatype Call = Cleanup(w: World) | CloseMCP(w: World) | ObserveOOM(w: World)

  function After(h: Handle, call: Call): Handle {
    match call
    case Cleanup(w) => AfterCleanup(h, w).h
    case CloseMCP(w) => AfterCloseMCP(h, w).0
    case ObserveOOM(w) => AfterObserveOOM(h, w).0
  }

  function Run(h: Handle, calls: seq<Call>): Handle {
    if |calls| == 0 then h else After(Run(h, calls[..|calls| - 1]), calls[|calls| - 1])
  }

  // ----- What the trace must look like -----

  predicate Concluded(t: seq<Event>) {
    ClosedMCP(Drained) in t || ClosedMCP(DrainUnresolved) in t
  }

  predicate StoppedAndDrained(launch: Launch, t: seq<Event>) {
    launch.process && Stopped(true) in t && (launch.registered ==> Concluded(t))
  }

  /** A sealed capture, or for a session never prepared the proof that it was never prompted. */
  predicate Sealed(launch: Launch, t: seq<Event>) {
    if launch.sessionPrepared then AdoptedCapture(true) in t else RecordedUnprompted(true) in t
  }

  predicate ObservedOOM(t: seq<Event>) {
    exists e <- t :: e.ObservedExit? && e.exit.Some? && e.exit.value.exited && e.exit.value.oomKilled
  }

  predicate GoneIn(launch: Launch, t: seq<Event>) {
    Removed(true) in t || EnsuredAbsent(true) in t || (!launch.process && !launch.engine)
  }

  /** Whether an event may follow a trace: the barrier in front of it, and that it has not succeeded before. */
  predicate Allowed(launch: Launch, t: seq<Event>, e: Event) {
    match e
    case ObservedExit(_) => launch.process && !ObservedOOM(t)
    case RecordedOOM(_) => ObservedOOM(t) && RecordedOOM(true) !in t
    case ClosedMCP(_) => launch.gateway && launch.registered && !Concluded(t)
    case ClosedAgent(_) => ClosedAgent(true) !in t
    case Stopped(_) => launch.process && Stopped(true) !in t && Removed(true) !in t
    case RecordedUnprompted(_) => StoppedAndDrained(launch, t) && !launch.sessionPrepared && Removed(true) !in t
    case AdmittedCapture(_) =>
      StoppedAndDrained(launch, t) && launch.sessionPrepared && AdoptedCapture(true) !in t && Removed(true) !in t
    case Captured(_) => StoppedAndDrained(launch, t) && |t| > 0 && t[|t| - 1] == AdmittedCapture(true)
    case AdoptedCapture(_) =>
      StoppedAndDrained(launch, t) && |t| > 0 && t[|t| - 1] == Captured(true) && AdoptedCapture(true) !in t
    case Removed(_) =>
      StoppedAndDrained(launch, t) && Sealed(launch, t) && (ObservedOOM(t) ==> RecordedOOM(true) in t) &&
        Removed(true) !in t
    case EnsuredAbsent(_) => !launch.process && launch.engine && !launch.creationAttempted && EnsuredAbsent(true) !in t
    case CleanedScratch(_) => GoneIn(launch, t) && launch.scratchPrepared && CleanedScratch(true) !in t
    case Discarded(_) => GoneIn(launch, t) && launch.discardWorkspace && Discarded(true) !in t
    case ClosedEngine(_) => GoneIn(launch, t) && launch.engine && ClosedEngine(true) !in t
  }

  /** Every event of the trace was allowed where it happened. */
  predicate Ordered(launch: Launch, t: seq<Event>) {
    forall i :: 0 <= i < |t| ==> Allowed(launch, t[..i], t[i])
  }

  /** The flags of the handle are what its trace says. */
  predicate Faithful(h: Handle) {
    && (h.mcpDrained <==> Concluded(h.trace))
    && (ClosedAgent(true) in h.trace ==> !h.agent)
    && (h.processStopped <==> Stopped(true) in h.trace)
    && (h.captured <==> AdoptedCapture(true) in h.trace)
    && (h.captured ==> h.launch.sessionPrepared)
    && (h.processRemoved <==> Removed(true) in h.trace || EnsuredAbsent(true) in h.trace)
    && (h.scratchCleaned <==> CleanedScratch(true) in h.trace)
    && (h.workspaceDiscarded <==> Discarded(true) in h.trace)
    && (h.engineClosed <==> ClosedEngine(true) in h.trace)
    && (h.oomRecorded <==> RecordedOOM(true) in h.trace)
    && (ObservedOOM(h.trace) <==> h.exit.Some? && h.exit.value.oomKilled)
    && (h.exit.Some? ==> Conclusive(h.exit.value))
    && (ObservedOOM(h.trace) ==> h.observeExit)
  }

  /** As long as there is a process to remove, an observed OOM has been recorded. */
  predicate Accounted(h: Handle) {
    ObservedOOM(h.trace) && h.launch.process && !h.processRemoved ==> h.oomRecorded
  }

  predicate Good(h: Handle) {
    Faithful(h) && Ordered(h.launch, h.trace)
  }

  // ----- Adding events -----

  lemma OrderedSnoc(launch: Launch, t: seq<Event>, e: Event)
    requires Ordered(launch, t) && Allowed(launch, t, e)
    ensures Ordered(launch, t + [e])
  {
    hide Allowed;
    forall i | 0 <= i < |t + [e]| ensures Allowed(launch, (t + [e])[..i], (t + [e])[i]) {
      assert i < |t| ==> (t + [e])[..i] == t[..i];
      assert i == |t| ==> (t + [e])[..i] == t;
    }
  }

  lemma InSnoc(t: seq<Event>, e: Event)
    ensures ClosedAgent(true) in t + [e] <==> ClosedAgent(true) in t || e == ClosedAgent(true)
    ensures Stopped(true) in t + [e] <==> Stopped(true) in t || e == Stopped(true)
    ensures AdoptedCapture(true) in t + [e] <==> AdoptedCapture(true) in t || e == AdoptedCapture(true)
    ensures RecordedUnprompted(true) in t + [e] <==> RecordedUnprompted(true) in t || e == RecordedUnprompted(true)
    ensures Removed(true) in t + [e] <==> Removed(true) in t || e == Removed(true)
    ensures EnsuredAbsent(true) in t + [e] <==> EnsuredAbsent(true) in t || e == EnsuredAbsent(true)
    ensures CleanedScratch(true) in t + [e] <==> CleanedScratch(true) in t || e == CleanedScratch(true)
    ensures Discarded(true) in t + [e] <==> Discarded(true) in t || e == Discarded(true)
    ensures ClosedEngine(true) in t + [e] <==> ClosedEngine(true) in t || e == ClosedEngine(true)
    ensures RecordedOOM(true) in t + [e] <==> RecordedOOM(true) in t || e == RecordedOOM(true)
    ensures ObservedOOM(t + [e]) <==>
            ObservedOOM(t) || (e.ObservedExit? && e.exit.Some? && e.exit.value.exited && e.exit.value.oomKilled)
    ensures Concluded(t + [e]) <==> Concluded(t) || e == ClosedMCP(Drained) || e == ClosedMCP(DrainUnresolved)
  {
    assert forall f :: f in t + [e] <==> f in t || f == e;
  }

  // ----- Every step keeps the barriers -----

  lemma ExitSeenGood(h: Handle, w: World)
    requires Good(h) && h.launch.process
    ensures Good(ExitSeen(h, w))
  {
    hide Ordered, ObservedOOM, Allowed, Concluded;
    if h.exit.None? {
      SeenAllowed(h, w.exit);
      OrderedSnoc(h.launch, h.trace, ObservedExit(w.exit));
      SeenFaithful(h, w.exit);
    }
  }

  lemma SeenAllowed(h: Handle, exit: Option<Exit>)
    requires Faithful(h) && h.launch.process && h.exit.None?
    ensures Allowed(h.launch, h.trace, ObservedExit(exit))
  {
    hide ObservedOOM, Concluded;
  }

  lemma SeenFaithful(h: Handle, exit: Option<Exit>)
    requires Faithful(h) && h.exit.None?
    ensures Faithful(h.(observeExit := true, exit := Concluding(exit), trace := h.trace + [ObservedExit(exit)]))
  {
    hide ObservedOOM, Concluded;
    InSnoc(h.trace, ObservedExit(exit));
  }

  lemma OOMRecordedGood(h: Handle, w: World)
    requires Good(h)
    ensures Good(OOMRecorded(h, w).0)
    ensures !OOMRecorded(h, w).1.OOMFailed? ==> Accounted(OOMRecorded(h, w).0)
  {
    hide Ordered, ObservedOOM;
    InSnoc(h.trace, RecordedOOM(w.recordOOM));
    if ObservedOOM(h.trace) && !h.oomRecorded {
      OrderedSnoc(h.launch, h.trace, RecordedOOM(w.recordOOM));
    }
  }

  lemma ObserveOOMGood(h: Handle, w: World)
    requires Good(h)
    ensures Good(AfterObserveOOM(h, w).0)
    ensures h.launch.process && !AfterObserveOOM(h, w).1.OOMFailed? ==> Accounted(AfterObserveOOM(h, w).0)
  {
    hide Good, Accounted;
    if h.launch.process {
      ExitSeenGood(h, w);
      OOMRecordedGood(ExitSeen(h, w), w);
    }
  }

  lemma CloseMCPGood(h: Handle, w: World)
    requires Good(h)
    ensures Good(AfterCloseMCP(h, w).0)
    ensures AfterCloseMCP(h, w).0.launch == h.launch
    ensures Accounted(h) ==> Accounted(AfterCloseMCP(h, w).0)
  {
    hide Ordered, ObservedOOM;
    InSnoc(h.trace, ClosedMCP(w.drain));
    if !(h.mcpDrained || !h.launch.gateway || !h.launch.registered) {
      OrderedSnoc(h.launch, h.trace, ClosedMCP(w.drain));
    }
  }

  lemma CloseAgentGood(p: Progress, w: World)
    requires Good(p.h) && Accounted(p.h)
    ensures Good(CloseAgentStep(p, w).h) && Accounted(CloseAgentStep(p, w).h)
  {
    hide Ordered, ObservedOOM;
    InSnoc(p.h.trace, ClosedAgent(w.closeAgent));
    if p.h.agent {
      OrderedSnoc(p.h.launch, p.h.trace, ClosedAgent(w.closeAgent));
    }
  }

  lemma StopGood(p: Progress, w: World)
    requires Good(p.h) && Accounted(p.h)
    ensures Good(StopStep(p, w).h) && Accounted(StopStep(p, w).h)
  {
    hide Ordered, ObservedOOM, Allowed, Concluded;
    InSnoc(p.h.trace, Stopped(w.stop));
    if StopStep(p, w) != p {
      StopAllowed(p.h, w.stop);
      OrderedSnoc(p.h.launch, p.h.trace, Stopped(w.stop));
    }
  }

  lemma SealGood(p: Progress, w: World)
    requires Good(p.h) && Accounted(p.h)
    ensures var (q, sealed) := SealStep(p, w);
            && Good(q.h) && Accounted(q.h)
            && (sealed ==> MayRemove(q.h) && Sealed(q.h.launch, q.h.trace))
  {
    hide Good, Accounted, CaptureEvents, Captures;
    var h := p.h;
    if MayRemove(h) && !h.launch.sessionPrepared {
      UnpromptedGood(h, w);
    } else if MayRemove(h) && !h.captured {
      CaptureGood(h, w);
    } else if MayRemove(h) {
      CapturedSeals(h);
    }
  }

  lemma CapturedSeals(h: Handle)
    requires Good(h)
    ensures h.captured && h.launch.sessionPrepared ==> Sealed(h.launch, h.trace)
    ensures h.captured ==> h.launch.sessionPrepared
  {
    hide Ordered, ObservedOOM, Concluded;
  }

  lemma UnpromptedGood(h: Handle, w: World)
    requires Good(h) && Accounted(h) && MayRemove(h) && !h.launch.sessionPrepared
    ensures var after := h.(trace := h.trace + [RecordedUnprompted(w.recordUnprompted)]);
            && Good(after) && Accounted(after) && !h.captured
            && (w.recordUnprompted ==> Sealed(after.launch, after.trace))
  {
    hide Ordered, ObservedOOM, Allowed, Concluded, Conclusive;
    InSnoc(h.trace, RecordedUnprompted(w.recordUnprompted));
    EvidenceAllowed(h);
    OrderedSnoc(h.launch, h.trace, RecordedUnprompted(w.recordUnprompted));
  }

  lemma EvidenceAllowed(h: Handle)
    requires Faithful(h) && MayRemove(h)
    ensures StoppedAndDrained(h.launch, h.trace) && Removed(true) !in h.trace
    ensures !h.launch.sessionPrepared ==> forall ok :: Allowed(h.launch, h.trace, RecordedUnprompted(ok))
  {
    hide ObservedOOM, Concluded;
  }

  lemma CaptureOrdered(launch: Launch, t: seq<Event>, w: World)
    requires Ordered(launch, t) && StoppedAndDrained(launch, t) && launch.sessionPrepared
    requires AdoptedCapture(true) !in t && Removed(true) !in t
    ensures Ordered(launch, t + CaptureEvents(w))
  {
    hide Ordered, ObservedOOM;
    var admitted, captured := AdmittedCapture(w.admitCapture), Captured(w.capture);
    InSnoc(t, admitted);
    OrderedSnoc(launch, t, admitted);
    if w.admitCapture {
      InSnoc(t + [admitted], captured);
      OrderedSnoc(launch, t + [admitted], captured);
      assert t + [admitted, captured] == t + [admitted] + [captured];
      if w.capture {
        OrderedSnoc(launch, t + [admitted] + [captured], AdoptedCapture(w.adoptCapture));
        assert t + CaptureEvents(w) == t + [admitted] + [captured] + [AdoptedCapture(w.adoptCapture)];
      }
    }
  }

  lemma InCapture(t: seq<Event>, w: World)
    ensures forall e :: e in t + CaptureEvents(w) <==> e in t || e in CaptureEvents(w)
    ensures AdoptedCapture(true) in CaptureEvents(w) <==> Captures(w)
    ensures forall e :: e in CaptureEvents(w) ==> e.AdmittedCapture? || e.Captured? || e.AdoptedCapture?
    ensures ObservedOOM(t + CaptureEvents(w)) <==> ObservedOOM(t)
    ensures Concluded(t + CaptureEvents(w)) <==> Concluded(t)
  {
    assert forall e :: e in t + CaptureEvents(w) <==> e in t || e in CaptureEvents(w);
  }

  lemma CaptureGood(h: Handle, w: World)
    requires Good(h) && Accounted(h) && MayRemove(h) && h.launch.sessionPrepared && !h.captured
    ensures var after := h.(captured := Captures(w), trace := h.trace + CaptureEvents(w));
            Good(after) && Accounted(after) && (Captures(w) ==> Sealed(after.launch, after.trace))
  {
    hide Ordered, ObservedOOM, CaptureEvents, Captures, Allowed, Concluded, Conclusive;
    EvidenceAllowed(h);
    CaptureOrdered(h.launch, h.trace, w);
    InCapture(h.trace, w);
  }

  lemma RemoveGood(p: Progress, w: World)
    requires Good(p.h) && Accounted(p.h)
    ensures Good(RemoveStep(p, w).h)
  {
    hide SealStep, Good, Accounted, MayRemove, Sealed, Removal;
    SealGood(p, w);
    var (q, sealed) := SealStep(p, w);
    if sealed {
      RemovalGood(q, w);
    }
  }

  lemma RemovalGood(p: Progress, w: World)
    requires Good(p.h) && Accounted(p.h) && MayRemove(p.h) && Sealed(p.h.launch, p.h.trace)
    ensures Good(Removal(p, w).h)
  {
    hide Ordered, ObservedOOM, Allowed, Concluded, MayRemove, Sealed, Conclusive;
    RemovalAllowed(p.h, w.remove);
    NotRemoved(p.h);
    InSnoc(p.h.trace, Removed(w.remove));
    OrderedSnoc(p.h.launch, p.h.trace, Removed(w.remove));
  }

  lemma NotRemoved(h: Handle)
    requires MayRemove(h)
    ensures !h.processRemoved
  {
  }

  lemma RemovalAllowed(h: Handle, ok: bool)
    requires Faithful(h) && Accounted(h) && MayRemove(h) && Sealed(h.launch, h.trace)
    ensures Allowed(h.launch, h.trace, Removed(ok))
  {
    hide ObservedOOM, Concluded, Sealed;
  }

  lemma AbsentGood(p: Progress, w: World)
    requires Good(p.h)
    ensures Good(AbsentStep(p, w).h)
  {
    hide Ordered, ObservedOOM, Allowed, Concluded;
    InSnoc(p.h.trace, EnsuredAbsent(w.ensureAbsent));
    if AbsentStep(p, w).h != p.h {
      AbsentAllowed(p.h, w.ensureAbsent);
      OrderedSnoc(p.h.launch, p.h.trace, EnsuredAbsent(w.ensureAbsent));
    }
  }

  lemma ReleaseAllowed(h: Handle, ok: bool)
    requires Faithful(h) && Gone(h)
    ensures h.launch.scratchPrepared && !h.scratchCleaned ==> Allowed(h.launch, h.trace, CleanedScratch(ok))
    ensures h.launch.discardWorkspace && !h.workspaceDiscarded ==> Allowed(h.launch, h.trace, Discarded(ok))
    ensures h.launch.engine && !h.engineClosed ==> Allowed(h.launch, h.trace, ClosedEngine(ok))
  {
    hide ObservedOOM, Concluded;
  }

  lemma StopAllowed(h: Handle, ok: bool)
    requires Faithful(h) && h.launch.process && !h.processRemoved && !h.processStopped
    ensures Allowed(h.launch, h.trace, Stopped(ok))
  {
    hide ObservedOOM, Concluded;
  }

  lemma AbsentAllowed(h: Handle, ok: bool)
    requires Faithful(h) && !h.launch.process && h.launch.engine && !h.launch.creationAttempted && !h.processRemoved
    ensures Allowed(h.launch, h.trace, EnsuredAbsent(ok))
  {
    hide ObservedOOM, Concluded;
  }

  lemma ScratchGood(p: Progress, w: World)
    requires Good(p.h)
    ensures Good(ScratchStep(p, w).h)
  {
    hide Ordered, ObservedOOM, Allowed, Concluded;
    InSnoc(p.h.trace, CleanedScratch(w.cleanScratch));
    if ScratchStep(p, w).h != p.h {
      ReleaseAllowed(p.h, w.cleanScratch);
      OrderedSnoc(p.h.launch, p.h.trace, CleanedScratch(w.cleanScratch));
    }
  }

  lemma DiscardGood(p: Progress, w: World)
    requires Good(p.h)
    ensures Good(DiscardStep(p, w).h)
  {
    hide Ordered, ObservedOOM, Allowed, Concluded;
    InSnoc(p.h.trace, Discarded(w.discard));
    if DiscardStep(p, w).h != p.h {
      ReleaseAllowed(p.h, w.discard);
      OrderedSnoc(p.h.launch, p.h.trace, Discarded(w.discard));
    }
  }

  lemma EngineGood(p: Progress, w: World)
    requires Good(p.h)
    ensures Good(EngineStep(p, w).h)
  {
    hide Ordered, ObservedOOM, Allowed, Concluded;
    InSnoc(p.h.trace, ClosedEngine(w.closeEngine));
    if EngineStep(p, w).h != p.h {
      ReleaseAllowed(p.h, w.closeEngine);
      OrderedSnoc(p.h.launch, p.h.trace, ClosedEngine(w.closeEngine));
    }
  }

  lemma TeardownGood(h: Handle, w: World)
    requires Good(h) && Accounted(h)
    ensures Good(Teardown(h, w).h)
  {
    hide Good, Accounted, RemoveStep, AbsentStep, ScratchStep, DiscardStep, EngineStep, StopStep, CloseAgentStep;
    CloseMCPGood(h, w);
    var p := DrainStep(h, w);
    CloseAgentGood(p, w);
    p := CloseAgentStep(p, w);
    StopGood(p, w);
    p := StopStep(p, w);
    RemoveGood(p, w);
    p := RemoveStep(p, w);
    AbsentGood(p, w);
    p := AbsentStep(p, w);
    ScratchGood(p, w);
    p := ScratchStep(p, w);
    DiscardGood(p, w);
    p := DiscardStep(p, w);
    EngineGood(p, w);
  }

  lemma AfterGood(h: Handle, call: Call)
    requires Good(h)
    ensures Good(After(h, call))
  {
    hide Ordered, ObservedOOM, Teardown, AfterCloseMCP, AfterObserveOOM;
    match call
    case Cleanup(w) =>
      if h.observeExit && h.launch.process && !h.processRemoved {
        ObserveOOMGood(h, w);
        if !AfterObserveOOM(h, w).1.OOMFailed? {
          TeardownGood(AfterObserveOOM(h, w).0, w);
        }
      } else {
        TeardownGood(h, w);
      }
    case CloseMCP(w) => CloseMCPGood(h, w);
    case ObserveOOM(w) => ObserveOOMGood(h, w);
  }

  // ----- Whole runs -----

  lemma LaunchConstant(h: Handle, call: Call)
    ensures After(h, call).launch == h.launch
  {
    hide AfterCleanup, AfterCloseMCP, AfterObserveOOM;
  }

  lemma LaunchedGood(launch: Launch, agent: bool)
    ensures Good(Launched(launch, agent)) && Launched(launch, agent).launch == launch
  {
    assert !ObservedOOM([]);
  }

  lemma {:induction false} RunGood(launch: Launch, agent: bool, calls: seq<Call>)
    ensures Good(Run(Launched(launch, agent), calls)) && Run(Launched(launch, agent), calls).launch == launch
  {
    hide Good, Launched, After;
    var h := Launched(launch, agent);
    if |calls| == 0 {
      LaunchedGood(launch, agent);
    } else {
      RunGood(launch, agent, calls[..|calls| - 1]);
      AfterGood(Run(h, calls[..|calls| - 1]), calls[|calls| - 1]);
      LaunchConstant(Run(h, calls[..|calls| - 1]), calls[|calls| - 1]);
    }
  }

  /** The trace of any sequence of calls on a launched handle, whatever the external calls returned. */
  function Trace(launch: Launch, agent: bool, calls: seq<Call>): seq<Event> {
    Run(Launched(launch, agent), calls).trace
  }

  lemma TraceOrdered(launch: Launch, agent: bool, calls: seq<Call>, i: nat)
    requires i < |Trace(launch, agent, calls)|
    ensures Allowed(launch, Trace(launch, agent, calls)[..i], Trace(launch, agent, calls)[i])
  {
    hide Allowed, Run;
    RunGood(launch, agent, calls);
  }

  /** The process is removed only behind a confirmed stop, a concluded drain, sealed evidence and a recorded OOM;
      and the evidence is only gathered behind the stop and the drain. */
  lemma RemovalBarrier(launch: Launch, agent: bool, calls: seq<Call>, i: nat)
    requires i < |Trace(launch, agent, calls)|
    ensures var t := Trace(launch, agent, calls);
            && (t[i].Removed? ==>
                  && Stopped(true) in t[..i] && (launch.registered ==> Concluded(t[..i]))
                  && (if launch.sessionPrepared then AdoptedCapture(true) in t[..i]
                       else RecordedUnprompted(true) in t[..i])
                  && (ObservedOOM(t[..i]) ==> RecordedOOM(true) in t[..i]))
            && (t[i].AdmittedCapture? || t[i].Captured? || t[i].AdoptedCapture? || t[i].RecordedUnprompted? ==>
                  Stopped(true) in t[..i] && (launch.registered ==> Concluded(t[..i])) && Removed(true) !in t[..i])
  {
    hide Run, ObservedOOM, Concluded;
    TraceOrdered(launch, agent, calls, i);
    CaptureBeforeRemoval(launch, agent, calls, i);
  }

  /** A transfer follows its admission immediately, and so comes before any removal. */
  lemma CaptureBeforeRemoval(launch: Launch, agent: bool, calls: seq<Call>, i: nat)
    requires i < |Trace(launch, agent, calls)|
    ensures var t := Trace(launch, agent, calls);
            t[i].Captured? || t[i].AdoptedCapture? ==> Removed(true) !in t[..i]
  {
    hide Run, ObservedOOM, Concluded;
    var t := Trace(launch, agent, calls);
    TraceOrdered(launch, agent, calls, i);
    if (t[i].Captured? || t[i].AdoptedCapture?) && i > 0 {
      TraceOrdered(launch, agent, calls, i - 1);
      assert t[..i] == t[..i - 1] + [t[i - 1]];
      if t[i].AdoptedCapture? {
        CaptureBeforeRemoval(launch, agent, calls, i - 1);
      }
    }
  }

  /** Scratch, workspace and engine are released only once the process is removed or proven absent. */
  lemma ReleaseBarrier(launch: Launch, agent: bool, calls: seq<Call>, i: nat)
    requires i < |Trace(launch, agent, calls)|
    ensures var t := Trace(launch, agent, calls);
            t[i].CleanedScratch? || t[i].Discarded? || t[i].ClosedEngine? ==>
              Removed(true) in t[..i] || EnsuredAbsent(true) in t[..i] || (!launch.process && !launch.engine)
  {
    hide Run;
    TraceOrdered(launch, agent, calls, i);
  }

  /** Without a handle on a process that may have been created, nothing is ever removed or released. */
  lemma AmbiguousCreationReleasesNothing(launch: Launch, agent: bool, calls: seq<Call>)
    requires launch.engine && !launch.process && launch.creationAttempted
    ensures forall e <- Trace(launch, agent, calls) :: e.ClosedMCP? || e.ClosedAgent?
  {
    hide Run;
    var t := Trace(launch, agent, calls);
    forall i | 0 <= i < |t| ensures t[i].ClosedMCP? || t[i].ClosedAgent? {
      NothingBut(launch, agent, calls, i);
    }
  }

  lemma {:induction false} NothingBut(launch: Launch, agent: bool, calls: seq<Call>, i: nat)
    requires launch.engine && !launch.process && launch.creationAttempted && i < |Trace(launch, agent, calls)|
    ensures var t := Trace(launch, agent, calls); t[i].ClosedMCP? || t[i].ClosedAgent?
  {
    hide Run;
    var t := Trace(launch, agent, calls);
    TraceOrdered(launch, agent, calls, i);
    forall e | e in t[..i] ensures e.ClosedMCP? || e.ClosedAgent? {
      var j :| 0 <= j < i && t[j] == e;
      NothingBut(launch, agent, calls, j);
    }
    assert !ObservedOOM(t[..i]);
  }

  /** An event that settles its step: Cleanup does not take the step again. */
  predicate Settles(e: Event) {
    match e
    case ObservedExit(_) => false
    case ClosedMCP(drain) => !drain.DrainFailed?
    case RecordedUnprompted(_) => false
    case AdmittedCapture(_) => false
    case Captured(_) => false
    case RecordedOOM(ok) => ok
    case ClosedAgent(ok) => ok
    case Stopped(ok) => ok
    case AdoptedCapture(ok) => ok
    case Removed(ok) => ok
    case EnsuredAbsent(ok) => ok
    case CleanedScratch(ok) => ok
    case Discarded(ok) => ok
    case ClosedEngine(ok) => ok
  }

  predicate SameStep(e: Event, f: Event) {
    match e
    case ObservedExit(_) => f.ObservedExit?
    case RecordedOOM(_) => f.RecordedOOM?
    case ClosedMCP(_) => f.ClosedMCP?
    case ClosedAgent(_) => f.ClosedAgent?
    case Stopped(_) => f.Stopped?
    case RecordedUnprompted(_) => f.RecordedUnprompted?
    case AdmittedCapture(_) => f.AdmittedCapture?
    case Captured(_) => f.Captured?
    case AdoptedCapture(_) => f.AdmittedCapture? || f.AdoptedCapture?
    case Removed(_) => f.Removed? || f.Stopped? || f.RecordedUnprompted? || f.AdmittedCapture?
    case EnsuredAbsent(_) => f.EnsuredAbsent?
    case CleanedScratch(_) => f.CleanedScratch?
    case Discarded(_) => f.Discarded?
    case ClosedEngine(_) => f.ClosedEngine?
  }

  /** What has succeeded is not done again. */
  lemma SuccessIsNotRepeated(launch: Launch, agent: bool, calls: seq<Call>, i: nat, j: nat)
    requires i < j < |Trace(launch, agent, calls)|
    ensures var t := Trace(launch, agent, calls); Settles(t[i]) ==> !SameStep(t[i], t[j])
  {
    hide Run;
    var t := Trace(launch, agent, calls);
    TraceOrdered(launch, agent, calls, j);
    assert t[..j][i] == t[i] && t[i] in t[..j];
  }

  // ----- Completion -----

  predicate Ambiguous(launch: Launch) {
    launch.engine && !launch.process && launch.creationAttempted
  }

  predicate Consistent(launch: Launch) {
    launch.registered ==> launch.gateway
  }

  /** Nothing of the launch is left to tear down. */
  predicate Released(h: Handle) {
    && (h.launch.registered ==> h.mcpDrained) && !h.agent && Gone(h)
    && (h.launch.scratchPrepared && h.launch.workspace ==> h.scratchCleaned)
    && (h.launch.discardWorkspace && h.launch.workspace ==> h.workspaceDiscarded)
    && (h.launch.engine ==> h.engineClosed)
  }

  predicate AllSucceed(w: World) {
    && w.exit.Some? && w.recordOOM && w.drain.Drained? && w.closeAgent && w.stop && w.recordUnprompted
    && w.admitCapture && w.capture && w.adoptCapture && w.remove && w.ensureAbsent
    && w.cleanScratch && w.discard && w.closeEngine
  }

  /** What the teardown has done for the parts that its steps up to removal settle. */
  predicate Detached(h: Handle) {
    (h.launch.registered ==> h.mcpDrained) && !h.agent
  }

  predicate Ended(p: Progress) {
    p.faults == [] && p.h.launch.registered ==> p.h.mcpDrained
  }

  lemma DrainSteps(h: Handle, w: World)
    requires Consistent(h.launch)
    ensures Ended(DrainStep(h, w)) && (AllSucceed(w) ==> DrainStep(h, w).faults == [])
  {
  }

  lemma DetachSteps(p: Progress, w: World)
    requires Ended(p)
    ensures var q := CloseAgentStep(p, w);
            (AllSucceed(w) && p.faults == [] ==> q.faults == []) && (q.faults == [] ==> Detached(q.h))
  {
  }

  lemma StopSteps(p: Progress, w: World)
    requires p.faults == [] ==> Detached(p.h)
    ensures var q := StopStep(p, w);
            && (AllSucceed(w) && p.faults == [] ==> q.faults == [])
            && (q.faults == [] ==> Detached(q.h) && (q.h.launch.process && !q.h.processRemoved ==> q.h.processStopped))
  {
  }

  lemma SealSteps(p: Progress, w: World)
    requires p.faults == [] ==> Detached(p.h) && (p.h.launch.process && !p.h.processRemoved ==> p.h.processStopped)
    ensures var (q, sealed) := SealStep(p, w);
            && (AllSucceed(w) && p.faults == [] ==> q.faults == [])
            && (q.faults == [] ==> Detached(q.h) && (sealed || !q.h.launch.process || q.h.processRemoved))
  {
    hide CaptureEvents;
  }

  lemma RemoveSteps(p: Progress, w: World)
    requires p.faults == [] ==> Detached(p.h) && (p.h.launch.process && !p.h.processRemoved ==> p.h.processStopped)
    ensures var q := RemoveStep(p, w);
            && (AllSucceed(w) && p.faults == [] ==> q.faults == [])
            && (q.faults == [] ==> Detached(q.h) && (q.h.launch.process ==> q.h.processRemoved))
  {
    SealSteps(p, w);
    hide SealStep, MayRemove;
  }

  lemma AbsentSteps(p: Progress, w: World)
    requires !Ambiguous(p.h.launch)
    requires p.faults == [] ==> Detached(p.h) && (p.h.launch.process ==> p.h.processRemoved)
    ensures var q := AbsentStep(p, w);
            && (AllSucceed(w) && p.faults == [] ==> q.faults == [])
            && (q.faults == [] ==> Detached(q.h) && Gone(q.h))
  {
  }

  predicate ScratchReleased(h: Handle) {
    Detached(h) && Gone(h) && (h.launch.scratchPrepared && h.launch.workspace ==> h.scratchCleaned)
  }

  predicate WorkspaceReleased(h: Handle) {
    ScratchReleased(h) && (h.launch.discardWorkspace && h.launch.workspace ==> h.workspaceDiscarded)
  }

  lemma ScratchSteps(p: Progress, w: World)
    requires p.faults == [] ==> Detached(p.h) && Gone(p.h)
    ensures var q := ScratchStep(p, w);
            (AllSucceed(w) && p.faults == [] ==> q.faults == []) && (q.faults == [] ==> ScratchReleased(q.h))
  {
  }

  lemma DiscardSteps(p: Progress, w: World)
    requires p.faults == [] ==> ScratchReleased(p.h)
    ensures var q := DiscardStep(p, w);
            (AllSucceed(w) && p.faults == [] ==> q.faults == []) && (q.faults == [] ==> WorkspaceReleased(q.h))
  {
  }

  lemma EngineSteps(p: Progress, w: World)
    requires p.faults == [] ==> WorkspaceReleased(p.h)
    ensures var q := EngineStep(p, w);
            (AllSucceed(w) && p.faults == [] ==> q.faults == []) && (q.faults == [] ==> Released(q.h))
  {
  }

  lemma TeardownReleases(h: Handle, w: World)
    requires Consistent(h.launch) && !Ambiguous(h.launch)
    ensures Teardown(h, w).faults == [] ==> Released(Teardown(h, w).h)
    ensures AllSucceed(w) ==> Teardown(h, w).faults == []
  {
    hide CloseAgentStep, StopStep, RemoveStep, AbsentStep, ScratchStep, DiscardStep, EngineStep, DrainStep, Detached,
      Released, AllSucceed, ScratchReleased, WorkspaceReleased, Ended, Gone;
    DrainSteps(h, w);
    DetachSteps(DrainStep(h, w), w);
    var p := CloseAgentStep(DrainStep(h, w), w);
    StopSteps(p, w);
    p := StopStep(p, w);
    RemoveSteps(p, w);
    p := RemoveStep(p, w);
    AbsentSteps(p, w);
    p := AbsentStep(p, w);
    ScratchSteps(p, w);
    p := ScratchStep(p, w);
    DiscardSteps(p, w);
    EngineSteps(DiscardStep(p, w), w);
  }

  /** A Cleanup without fault has released everything; and from any state, also after failed calls,
      a Cleanup whose external calls all succeed has no fault. */
  lemma CleanupCompletes(h: Handle, w: World)
    requires Consistent(h.launch) && !Ambiguous(h.launch)
    ensures AfterCleanup(h, w).faults == [] ==> Released(AfterCleanup(h, w).h)
    ensures AllSucceed(w) ==> AfterCleanup(h, w).faults == []
  {
    ObservationSucceeds(h, w);
    hide Teardown, Released, AfterObserveOOM, AllSucceed;
    TeardownReleases(h, w);
    TeardownReleases(AfterObserveOOM(h, w).0, w);
  }

  lemma ObservationSucceeds(h: Handle, w: World)
    ensures AllSucceed(w) ==> !AfterObserveOOM(h, w).1.OOMFailed?
  {
    hide ExitSeen, Killed;
  }

  /** After that, Cleanup makes no external call and has nothing to report. */
  lemma ReleasedIsFinal(h: Handle, w: World)
    requires Released(h) && Consistent(h.launch)
    ensures AfterCleanup(h, w) == Progress(h, [])
  {
  }

  lemma StepsKeepFaults(p: Progress, w: World, fault: Fault)
    ensures fault in p.faults ==> fault in ScratchStep(p, w).faults
    ensures fault in p.faults ==> fault in DiscardStep(p, w).faults
    ensures fault in p.faults ==> fault in EngineStep(p, w).faults
  {
  }

  lemma StepsWithoutProcess(p: Progress, w: World)
    requires !p.h.launch.process && !p.h.processRemoved
    ensures StopStep(p, w) == p && RemoveStep(p, w) == p && !CloseAgentStep(p, w).h.processRemoved
  {
  }

  /** An ambiguous creation is reported by every Cleanup. */
  lemma AmbiguousCreationIsReported(h: Handle, w: World)
    requires Ambiguous(h.launch) && !h.processRemoved
    ensures AmbiguousCreation in AfterCleanup(h, w).faults
  {
    assert !DrainStep(h, w).h.processRemoved;
    hide CloseAgentStep, StopStep, RemoveStep, ScratchStep, DiscardStep, EngineStep, DrainStep;
    StepsWithoutProcess(DrainStep(h, w), w);
    var p := CloseAgentStep(DrainStep(h, w), w);
    StepsWithoutProcess(p, w);
    p := AbsentStep(p, w);
    StepsKeepFaults(p, w, AmbiguousCreation);
    StepsKeepFaults(ScratchStep(p, w), w, AmbiguousCreation);
    StepsKeepFaults(DiscardStep(ScratchStep(p, w), w), w, AmbiguousCreation);
  }

  /** What a Cleanup comes to, from any state of a handle. */
  predicate CleanupKeeps(h: Handle, w: World, after: Progress) {
    && (Good(h) ==> Good(after.h))
    && (Consistent(h.launch) && !Ambiguous(h.launch) ==>
          (after.faults == [] ==> Released(after.h)) && (AllSucceed(w) ==> after.faults == []))
  }

  lemma CleanupIsKept(h: Handle, w: World)
    ensures CleanupKeeps(h, w, AfterCleanup(h, w))
  {
    hide AfterCleanup, Good, Released, AllSucceed, Consistent, Ambiguous;
    if Good(h) {
      AfterGood(h, Call.Cleanup(w));
      CleanupIsACall(h, w);
    }
    if Consistent(h.launch) && !Ambiguous(h.launch) {
      CleanupCompletes(h, w);
    }
  }

  lemma CleanupIsACall(h: Handle, w: World)
    ensures After(h, Call.Cleanup(w)) == AfterCleanup(h, w).h
  {
    hide AfterCleanup;
  }

  // ----- The handle -----

  /** Owns the teardown of one launch.  Each method makes its external calls through `w` and records them. */
  class RuntimeHandle {
    const launch: Launch
    var agent: bool
    var exit: Option<Exit>
    var oomRecorded: bool
    var observeExit: bool
    var mcpClosed: bool
    var mcpDrained: bool
    var processStopped: bool
    var processRemoved: bool
    var captured: bool
    var scratchCleaned: bool
    var workspaceDiscarded: bool
    var engineClosed: bool
    ghost var trace: seq<Event>

    ghost function View(): Handle
      reads this
    {
      Handle(launch, agent, exit, oomRecorded, observeExit, mcpClosed, mcpDrained, processStopped, processRemoved,
             captured, scratchCleaned, workspaceDiscarded, engineClosed, trace)
    }

    constructor (launch: Launch, agent: bool)
      ensures View() == Launched(launch, agent)
    {
      this.launch, this.agent, this.exit, this.trace := launch, agent, None, [];
      oomRecorded, observeExit, mcpClosed, mcpDrained, processStopped, processRemoved := false, false, false, false,
        false, false;
      captured, scratchCleaned, workspaceDiscarded, engineClosed := false, false, false, false;
    }

    method ObserveOOM(w: World) returns (result: OOMResult)
      modifies this
      ensures (View(), result) == AfterObserveOOM(old(View()), w)
    {
      hide ExitSeen, OOMRecorded;
      if !launch.process {
        return OOMUnknown;
      }
      var failed := SeeExit(w);
      if failed {
        return OOMFailed;
      }
      result := RecordOOM(w);
    }

    method SeeExit(w: World) returns (failed: bool)
      modifies this
      ensures View() == ExitSeen(old(View()), w) && failed == (old(exit).None? && w.exit.None?)
    {
      hide Concluding;
      observeExit := true;
      if exit.None? {
        failed := LookAtExit(w);
      } else {
        failed := false;
      }
    }

    method LookAtExit(w: World) returns (failed: bool)
      requires exit.None?
      modifies this`exit, this`trace
      ensures exit == Concluding(w.exit) && trace == old(trace) + [ObservedExit(w.exit)] && failed == w.exit.None?
    {
      trace := trace + [ObservedExit(w.exit)];
      if w.exit.None? {
        return true;
      }
      var observation := w.exit.value;
      if Conclusive(observation) {
        exit := Some(observation);
      }
      return false;
    }

    method RecordOOM(w: World) returns (result: OOMResult)
      modifies this
      ensures (View(), result) == OOMRecorded(old(View()), w)
    {
      if exit.None? || !exit.value.oomKilled {
        return OOMUnknown;
      }
      if !oomRecorded {
        trace := trace + [RecordedOOM(w.recordOOM)];
        if !w.recordOOM {
          return OOMFailed;
        }
        oomRecorded := true;
      }
      return OOMConfirmed;
    }

    method CloseMCP(w: World) returns (ok: bool)
      modifies this
      ensures (View(), ok) == AfterCloseMCP(old(View()), w)
    {
      if mcpDrained || !launch.gateway || !launch.registered {
        return true;
      }
      mcpClosed := true;
      trace := trace + [ClosedMCP(w.drain)];
      if w.drain.Drained? || w.drain.DrainUnresolved? {
        mcpDrained := true;
      }
      return w.drain.Drained?;
    }

    method CloseAgent(w: World, faults: seq<Fault>) returns (faults': seq<Fault>)
      modifies this
      ensures Progress(View(), faults') == CloseAgentStep(Progress(old(View()), faults), w)
    {
      faults' := faults;
      if agent {
        trace := trace + [ClosedAgent(w.closeAgent)];
        if !w.closeAgent {
          faults' := faults' + [AgentFault];
        } else {
          agent := false;
        }
      }
    }

    method StopProcess(w: World, faults: seq<Fault>) returns (faults': seq<Fault>)
      modifies this
      ensures Progress(View(), faults') == StopStep(Progress(old(View()), faults), w)
    {
      faults' := faults;
      if launch.process && !processRemoved && !processStopped {
        trace := trace + [Stopped(w.stop)];
        if !w.stop {
          faults' := faults' + [StopFault];
        } else {
          processStopped := true;
        }
      }
    }

    /** Admission, transfer and adoption of the sealed workspace; the first failure ends it. */
    method CaptureTerminalWorkspace(w: World) returns (ok: bool)
      modifies this`trace
      ensures ok == Captures(w) && trace == old(trace) + CaptureEvents(w)
    {
      trace := trace + [AdmittedCapture(w.admitCapture)];
      if !w.admitCapture {
        return false;
      }
      trace := trace + [Captured(w.capture)];
      if !w.capture {
        return false;
      }
      trace := trace + [AdoptedCapture(w.adoptCapture)];
      return w.adoptCapture;
    }

    method Seal(w: World, faults: seq<Fault>) returns (faults': seq<Fault>, sealed: bool)
      modifies this
      ensures (Progress(View(), faults'), sealed) == SealStep(Progress(old(View()), faults), w)
    {
      faults', sealed := faults, false;
      if launch.process && !processRemoved && processStopped && (!launch.registered || mcpDrained) {
        sealed := captured;
        if !launch.sessionPrepared {
          trace := trace + [RecordedUnprompted(w.recordUnprompted)];
          if !w.recordUnprompted {
            faults' := faults' + [ProofFault];
          } else {
            sealed := true;
          }
        } else if !sealed {
          var ok := CaptureTerminalWorkspace(w);
          if !ok {
            faults' := faults' + [CaptureFault];
          } else {
            captured := true;
            sealed := true;
          }
        }
      }
      ghost var r := SealStep(Progress(old(View()), faults), w);
      assert sealed == r.1 && faults' == r.0.faults && trace == r.0.h.trace && captured == r.0.h.captured;
    }

    method RemoveProcess(w: World, faults: seq<Fault>) returns (faults': seq<Fault>)
      modifies this
      ensures Progress(View(), faults') == RemoveStep(Progress(old(View()), faults), w)
    {
      hide SealStep, Removal;
      ghost var p := Progress(View(), faults);
      var sealed;
      faults', sealed := Seal(w, faults);
      assert Progress(View(), faults') == SealStep(p, w).0;
      if sealed {
        faults' := Remove(w, faults');
      }
    }

    method Remove(w: World, faults: seq<Fault>) returns (faults': seq<Fault>)
      requires !processRemoved
      modifies this
      ensures Progress(View(), faults') == Removal(Progress(old(View()), faults), w)
    {
      faults' := faults;
      trace := trace + [Removed(w.remove)];
      if !w.remove {
        faults' := faults' + [RemoveFault];
      } else {
        processRemoved := true;
      }
    }

    method EnsureAbsent(w: World, faults: seq<Fault>) returns (faults': seq<Fault>)
      modifies this
      ensures Progress(View(), faults') == AbsentStep(Progress(old(View()), faults), w)
    {
      faults' := faults;
      if !launch.process && launch.engine && !processRemoved {
        if launch.creationAttempted {
          faults' := faults' + [AmbiguousCreation];
        } else {
          trace := trace + [EnsuredAbsent(w.ensureAbsent)];
          if !w.ensureAbsent {
            faults' := faults' + [AbsentFault];
          } else {
            processRemoved := true;
          }
        }
      }
    }

    method CleanScratch(w: World, faults: seq<Fault>) returns (faults': seq<Fault>)
      modifies this
      ensures Progress(View(), faults') == ScratchStep(Progress(old(View()), faults), w)
    {
      faults' := faults;
      var removed := processRemoved || (!launch.process && !launch.engine);
      if removed && launch.scratchPrepared && launch.workspace && !scratchCleaned {
        trace := trace + [CleanedScratch(w.cleanScratch)];
        if !w.cleanScratch {
          faults' := faults' + [ScratchFault];
        } else {
          scratchCleaned := true;
        }
      }
    }

    method DiscardWorkspace(w: World, faults: seq<Fault>) returns (faults': seq<Fault>)
      modifies this
      ensures Progress(View(), faults') == DiscardStep(Progress(old(View()), faults), w)
    {
      faults' := faults;
      var removed := processRemoved || (!launch.process && !launch.engine);
      if removed && launch.discardWorkspace && launch.workspace && !workspaceDiscarded {
        trace := trace + [Discarded(w.discard)];
        if !w.discard {
          faults' := faults' + [DiscardFault];
        } else {
          workspaceDiscarded := true;
        }
      }
    }

    method CloseEngine(w: World, faults: seq<Fault>) returns (faults': seq<Fault>)
      modifies this
      ensures Progress(View(), faults') == EngineStep(Progress(old(View()), faults), w)
    {
      faults' := faults;
      var removed := processRemoved || (!launch.process && !launch.engine);
      if removed && launch.engine && !engineClosed {
        trace := trace + [ClosedEngine(w.closeEngine)];
        if !w.closeEngine {
          faults' := faults' + [EngineFault];
        } else {
          engineClosed := true;
        }
      }
    }

    /** Drains MCP authority, stops execution, seals terminal evidence, and then removes resources. */
    method Cleanup(w: World) returns (faults: seq<Fault>)
      modifies this
      ensures Progress(View(), faults) == AfterCleanup(old(View()), w)
      ensures CleanupKeeps(old(View()), w, Progress(View(), faults))
    {
      hide AfterObserveOOM, AfterCloseMCP, CloseAgentStep, StopStep, RemoveStep, AbsentStep, ScratchStep, DiscardStep,
        EngineStep, CleanupKeeps;
      ghost var before := View();
      CleanupIsKept(before, w);
      if observeExit && launch.process && !processRemoved {
        var result := ObserveOOM(w);
        if result.OOMFailed? {
          return [ObserveFault];
        }
      }
      ghost var h := View();
      assert AfterCleanup(before, w) == Teardown(h, w);
      faults := [];
      var ok := CloseMCP(w);
      if !ok {
        faults := faults + [DrainFault];
      }
      assert Progress(View(), faults) == DrainStep(h, w);
      faults := CloseAgent(w, faults);
      faults := StopProcess(w, faults);
      faults := RemoveProcess(w, faults);
      faults := EnsureAbsent(w, faults);
      faults := CleanScratch(w, faults);
      faults := DiscardWorkspace(w, faults);
      faults := CloseEngine(w, faults);
    }
  }
}
