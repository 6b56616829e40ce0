/** The single-flight installation token cache. */
module TokenCache {
  // What runs under the mutex is one step; everything else interleaves freely, and the clock
  // and the answers from outside are arbitrary.

  import opened Basics

  const REFRESH_WINDOW: int := 60

  datatype Token = Token(text: string, expiresAt: int)

  datatype Error = InvalidInstallation | Cancelled | SigningFailed | RequestFailed | InvalidToken

  datatype Fetch = Fetched(token: Token) | Failed(error: Error)

  /** A refresh: it signs, has one token request outstanding, has an answer, has judged it, or is done. */
  datatype Phase = Signing | Requesting | Answered(token: Token) | Judged(result: Fetch) | Done(result: Fetch)

  datatype Flight = Flight(installation: int, phase: Phase)

  /** The maps behind the mutex, and every flight ever started, in order. */
  datatype Cache = Cache(tokens: map<int, Token>, flights: map<int, nat>, log: seq<Flight>)

  predicate Fresh(token: Token, now: int) {
    now + REFRESH_WINDOW < token.expiresAt
  }

  // ----- The two critical sections -----

  datatype Lookup = Hit(token: Token) | Join(flight: nat)

  function LookedUp(c: Cache, installation: int, now: int): (Cache, Lookup) {
    if installation in c.tokens && Fresh(c.tokens[installation], now) then (c, Hit(c.tokens[installation]))
    else if installation in c.flights then (c, Join(c.flights[installation]))
    else
      (c.(flights := c.flights[installation := |c.log|], log := c.log + [Flight(installation, Signing)]), Join(|c.log|))
  }

  predicate Finishing(c: Cache, f: nat) {
    f < |c.log| && c.log[f].phase.Judged?
  }

  function Finished(c: Cache, f: nat): Cache
    requires Finishing(c, f)
  {
    var installation, result := c.log[f].installation, c.log[f].phase.result;
    Cache(if result.Fetched? then c.tokens[installation := result.token] else c.tokens,
          c.flights - {installation},
          c.log[f := Flight(installation, Done(result))])
  }

  class InstallationTokenCache {
    var tokens: map<int, Token>
    var flights: map<int, nat>
    var log: seq<Flight>

    ghost function View(): Cache
      reads this
    {
      Cache(tokens, flights, log)
    }

    constructor ()
      ensures View() == Cache(map[], map[], [])
    {
      tokens, flights, log := map[], map[], [];
    }

    /** The critical section of `Token`: a fresh token, or the flight to wait for. */
    method FindOrJoin(installation: int, now: int) returns (found: Lookup)
      modifies this
      ensures (View(), found) == LookedUp(old(View()), installation, now)
    {
      if installation in tokens && now + REFRESH_WINDOW < tokens[installation].expiresAt {
        return Hit(tokens[installation]);
      }
      if installation !in flights {
        flights := flights[installation := |log|];
        log := log + [Flight(installation, Signing)];
      }
      return Join(flights[installation]);
    }

    /** The critical section of `refresh`: publishes the result and ends the flight. */
    method Finish(f: nat)
      requires Finishing(View(), f)
      modifies this
      ensures View() == Finished(old(View()), f)
    {
      var installation, result := log[f].installation, log[f].phase.result;
      if result.Fetched? {
        tokens := tokens[installation := result.token];
      }
      flights := flights - {installation};
      log := log[f := Flight(installation, Done(result))];
    }
  }

  // ----- Callers and steps -----

  /** A call of `Token`: where it is, or how it returned. */
  datatype Progress =
    | Entering | Admitted | Waiting(flight: nat)
    | Served(token: Token, at: int) | Received(flight: nat, result: Fetch) | Refused(error: Error)

  datatype Caller = Caller(installation: int, cancelled: bool, progress: Progress)

  datatype System = System(cache: Cache, callers: seq<Caller>)

  datatype Step =
    | Call(installation: int)
    | Cancel(caller: nat)
    | Enter(caller: nat)
    | Lock(caller: nat, now: int)
    | Receive(caller: nat)
    | GiveUp(caller: nat)
    | Sign(flight: nat, ok: bool)
    | Answer(flight: nat, answer: Option<Token>)
    | Judge(flight: nat, now: int)
    | FinishFlight(flight: nat)

  const START := System(Cache(map[], map[], []), [])

  predicate Enabled(s: System, step: Step) {
    match step
    case Call(_) => true
    case Cancel(c) => c < |s.callers|
    case Enter(c) => c < |s.callers| && s.callers[c].progress.Entering?
    case Lock(c, _) => c < |s.callers| && s.callers[c].progress.Admitted?
    case Receive(c) =>
      c < |s.callers| && s.callers[c].progress.Waiting? && s.callers[c].progress.flight < |s.cache.log| &&
      s.cache.log[s.callers[c].progress.flight].phase.Done?
    case GiveUp(c) => c < |s.callers| && s.callers[c].progress.Waiting? && s.callers[c].cancelled
    case Sign(f, _) => f < |s.cache.log| && s.cache.log[f].phase.Signing?
    case Answer(f, _) => f < |s.cache.log| && s.cache.log[f].phase.Requesting?
    case Judge(f, _) => f < |s.cache.log| && s.cache.log[f].phase.Answered?
    case FinishFlight(f) => Finishing(s.cache, f)
  }

  function At(s: System, c: nat, progress: Progress): System
    requires c < |s.callers|
  {
    s.(callers := s.callers[c := s.callers[c].(progress := progress)])
  }

  function Phased(s: System, f: nat, phase: Phase): System
    requires f < |s.cache.log|
  {
    s.(cache := s.cache.(log := s.cache.log[f := s.cache.log[f].(phase := phase)]))
  }

  function Looked(s: System, c: nat, now: int): System
    requires c < |s.callers|
  {
    var (cache, found) := LookedUp(s.cache, s.callers[c].installation, now);
    match found
    case Hit(token) => At(s.(cache := cache), c, Served(token, now))
    case Join(f) => At(s.(cache := cache), c, Waiting(f))
  }

  /** A step; one that is not enabled changes nothing. */
  function Next(s: System, step: Step): System {
    if !Enabled(s, step) then s
    else
      match step
      case Call(installation) => s.(callers := s.callers + [Caller(installation, false, Entering)])
      case Cancel(c) => s.(callers := s.callers[c := s.callers[c].(cancelled := true)])
      case Enter(c) =>
        if s.callers[c].installation <= 0 then At(s, c, Refused(InvalidInstallation))
        else if s.callers[c].cancelled then At(s, c, Refused(Cancelled))
        else At(s, c, Admitted)
      case Lock(c, now) => Looked(s, c, now)
      case Receive(c) =>
        var f := s.callers[c].progress.flight;
        At(s, c, Received(f, s.cache.log[f].phase.result))
      case GiveUp(c) => At(s, c, Refused(Cancelled))
      case Sign(f, ok) => Phased(s, f, if ok then Requesting else Judged(Failed(SigningFailed)))
      case Answer(f, answer) =>
        Phased(s, f, if answer.Some? then Answered(answer.value) else Judged(Failed(RequestFailed)))
      case Judge(f, now) =>
        var token := s.cache.log[f].phase.token;
        Phased(s, f, Judged(if token.text == "" || !Fresh(token, now) then Failed(InvalidToken) else Fetched(token)))
      case FinishFlight(f) => s.(cache := Finished(s.cache, f))
  }

  function Run(steps: seq<Step>): System {
    if |steps| == 0 then START else Next(Run(steps[..|steps| - 1]), steps[|steps| - 1])
  }

  // ----- The invariant -----

  /** The map of flights holds exactly the unfinished ones. */
  predicate MapIsUnfinished(c: Cache) {
    && (forall id <- c.flights :: c.flights[id] < |c.log| && c.log[c.flights[id]].installation == id &&
         !c.log[c.flights[id]].phase.Done?)
    && (forall f :: 0 <= f < |c.log| && !c.log[f].phase.Done? ==>
          c.log[f].installation in c.flights && c.flights[c.log[f].installation] == f)
  }

  /** A flight only starts when those of its installation before it are done. */
  predicate OneAtATime(log: seq<Flight>) {
    forall f, g :: 0 <= f < g < |log| && log[f].installation == log[g].installation ==> log[f].phase.Done?
  }

  /** The token of the latest successful flight of an installation. */
  function Newest(log: seq<Flight>, installation: int): Option<Token> {
    if |log| == 0 then None
    else
      var last := log[|log| - 1];
      if last.installation == installation && last.phase.Done? && last.phase.result.Fetched? then
        Some(last.phase.result.token)
      else Newest(log[..|log| - 1], installation)
  }

  ghost predicate TokensAreNewest(c: Cache) {
    forall id :: if id in c.tokens then Newest(c.log, id) == Some(c.tokens[id]) else Newest(c.log, id).None?
  }

  /** What a caller waits for or got belongs to its installation. */
  predicate CallerOk(c: Cache, caller: Caller) {
    match caller.progress
    case Entering => true
    case Admitted => caller.installation > 0
    case Waiting(f) => f < |c.log| && c.log[f].installation == caller.installation && caller.installation > 0
    case Served(token, at) =>
      Fresh(token, at) && caller.installation > 0 &&
      exists f :: 0 <= f < |c.log| && c.log[f] == Flight(caller.installation, Done(Fetched(token)))
    case Received(f, result) =>
      f < |c.log| && c.log[f] == Flight(caller.installation, Done(result)) && caller.installation > 0
    case Refused(error) =>
      if caller.installation <= 0 then error == InvalidInstallation else error == Cancelled && caller.cancelled
  }

  predicate CallersOk(s: System) {
    forall c <- s.callers :: CallerOk(s.cache, c)
  }

  predicate GoodTokens(log: seq<Flight>) {
    forall f <- log :: (f.phase.Judged? || f.phase.Done?) && f.phase.result.Fetched? ==>
      f.phase.result.token.text != ""
  }

  ghost predicate Inv(s: System) {
    MapIsUnfinished(s.cache) && OneAtATime(s.cache.log) && TokensAreNewest(s.cache) && CallersOk(s) &&
      GoodTokens(s.cache.log)
  }

  // ----- Every step keeps the invariant -----

  /** Changing the phase of an unfinished flight, without finishing it, changes no newest token. */
  lemma {:induction false} NewestPhased(log: seq<Flight>, f: nat, flight: Flight, installation: int)
    requires f < |log| && !log[f].phase.Done? && !flight.phase.Done?
    ensures Newest(log[f := flight], installation) == Newest(log, installation)
  {
    var front := log[..|log| - 1];
    if f == |log| - 1 {
      assert log[f := flight][..|log| - 1] == front;
    } else {
      assert log[f := flight][..|log| - 1] == front[f := flight];
      NewestPhased(front, f, flight, installation);
    }
  }

  /** Finishing the last flight of an installation makes its token the newest one. */
  lemma {:induction false} NewestDone(log: seq<Flight>, f: nat, result: Fetch, installation: int)
    requires f < |log| && !log[f].phase.Done?
    requires forall g :: f < g < |log| ==> log[g].installation != log[f].installation
    ensures Newest(log[f := Flight(log[f].installation, Done(result))], installation) ==
            if result.Fetched? && installation == log[f].installation then
              Some(result.token)
            else Newest(log, installation)
  {
    var front, flight := log[..|log| - 1], Flight(log[f].installation, Done(result));
    if f == |log| - 1 {
      assert log[f := flight][..|log| - 1] == front;
    } else {
      assert log[f := flight][..|log| - 1] == front[f := flight];
      NewestDone(front, f, result, installation);
    }
  }

  lemma NewestAppend(log: seq<Flight>, installation: int, id: int)
    ensures Newest(log + [Flight(installation, Signing)], id) == Newest(log, id)
  {
    assert (log + [Flight(installation, Signing)])[..|log|] == log;
  }

  /** Callers whose flights keep their installations and results are as well off as before. */
  lemma CallersKept(s: System, cache: Cache)
    requires CallersOk(s) && |cache.log| >= |s.cache.log|
    requires forall f :: 0 <= f < |s.cache.log| ==> cache.log[f].installation == s.cache.log[f].installation
    requires forall f :: 0 <= f < |s.cache.log| && s.cache.log[f].phase.Done? ==> cache.log[f] == s.cache.log[f]
    ensures CallersOk(s.(cache := cache))
  {
    forall c | c in s.callers ensures CallerOk(cache, c) {
      assert CallerOk(s.cache, c);
      if c.progress.Served? {
        var f :| 0 <= f < |s.cache.log| && s.cache.log[f] == Flight(c.installation, Done(Fetched(c.progress.token)));
        assert cache.log[f] == Flight(c.installation, Done(Fetched(c.progress.token)));
      }
    }
  }

  lemma PhasedInv(s: System, f: nat, phase: Phase)
    requires Inv(s) && f < |s.cache.log| && !s.cache.log[f].phase.Done? && !phase.Done?
    requires phase.Judged? && phase.result.Fetched? ==> phase.result.token.text != ""
    ensures Inv(Phased(s, f, phase))
  {
    hide CallersOk;
    var after := Phased(s, f, phase);
    CallersKept(s, after.cache);
    forall id ensures Newest(after.cache.log, id) == Newest(s.cache.log, id) {
      NewestPhased(s.cache.log, f, s.cache.log[f].(phase := phase), id);
    }
    hide Newest;
    forall g | g in after.cache.log
      ensures (g.phase.Judged? || g.phase.Done?) && g.phase.result.Fetched? ==> g.phase.result.token.text != ""
    {
      assert g in s.cache.log || g == s.cache.log[f].(phase := phase);
    }
  }

  lemma FinishedInv(s: System, f: nat)
    requires Inv(s) && Finishing(s.cache, f)
    ensures Inv(s.(cache := Finished(s.cache, f)))
  {
    hide CallersOk;
    var after := Finished(s.cache, f);
    CallersKept(s, after);
    forall id
      ensures Newest(after.log, id) ==
              if after.log[f].phase.result.Fetched? && id == s.cache.log[f].installation then
                Some(after.log[f].phase.result.token)
              else Newest(s.cache.log, id)
    {
      NewestDone(s.cache.log, f, s.cache.log[f].phase.result, id);
    }
    hide Newest;
    assert s.cache.log[f] in s.cache.log;
    forall g | g in after.log
      ensures (g.phase.Judged? || g.phase.Done?) && g.phase.result.Fetched? ==> g.phase.result.token.text != ""
    {
      assert g in s.cache.log || g == after.log[f];
    }
  }

  lemma CallerInv(s: System, c: nat, caller: Caller)
    requires Inv(s) && c < |s.callers| && CallerOk(s.cache, caller)
    ensures Inv(s.(callers := s.callers[c := caller]))
  {
    hide CallerOk, MapIsUnfinished, OneAtATime, TokensAreNewest, GoodTokens;
    forall d | d in s.callers[c := caller] ensures CallerOk(s.cache, d) {
      assert d in s.callers || d == caller;
    }
  }

  lemma NewestIsDone(log: seq<Flight>, installation: int) returns (f: nat)
    requires Newest(log, installation).Some?
    ensures f < |log| && log[f] == Flight(installation, Done(Fetched(Newest(log, installation).value)))
  {
    f := |log| - 1;
    assert log[..f + 1] == log;
    while !(log[f].installation == installation && log[f].phase.Done? && log[f].phase.result.Fetched?)
      invariant f < |log| && Newest(log[..f + 1], installation) == Newest(log, installation)
      decreases f
    {
      assert log[..f + 1][..f] == log[..f];
      assert Newest(log[..0], installation).None?;
      f := f - 1;
    }
    assert log[..f + 1][..f] == log[..f];
  }

  lemma HitIsServed(s: System, installation: int, now: int)
    requires Inv(s) && installation > 0 && installation in s.cache.tokens && Fresh(s.cache.tokens[installation], now)
    ensures CallerOk(s.cache, Caller(installation, false, Served(s.cache.tokens[installation], now)))
  {
    hide CallersOk, MapIsUnfinished, OneAtATime, GoodTokens, Fresh;
    var f := NewestIsDone(s.cache.log, installation);
    hide Newest;
  }

  lemma StartedInv(s: System, installation: int)
    requires Inv(s) && installation !in s.cache.flights
    ensures var cache := s.cache.(flights := s.cache.flights[installation := |s.cache.log|],
                                  log := s.cache.log + [Flight(installation, Signing)]);
            Inv(s.(cache := cache))
  {
    hide CallersOk, MapIsUnfinished, OneAtATime, TokensAreNewest, GoodTokens;
    var log := s.cache.log + [Flight(installation, Signing)];
    var cache := s.cache.(flights := s.cache.flights[installation := |s.cache.log|], log := log);
    CallersKept(s, cache);
    StartedFlights(s.cache, installation);
    StartedTokens(s.cache, cache, installation);
  }

  lemma StartedFlights(c: Cache, installation: int)
    requires MapIsUnfinished(c) && OneAtATime(c.log) && installation !in c.flights
    ensures MapIsUnfinished(c.(flights := c.flights[installation := |c.log|],
                              log := c.log + [Flight(installation, Signing)]))
    ensures OneAtATime(c.log + [Flight(installation, Signing)])
  {
  }

  lemma StartedTokens(c: Cache, cache: Cache, installation: int)
    requires TokensAreNewest(c) && GoodTokens(c.log)
    requires cache.tokens == c.tokens && cache.log == c.log + [Flight(installation, Signing)]
    ensures TokensAreNewest(cache) && GoodTokens(cache.log)
  {
    hide Newest;
    forall id ensures Newest(cache.log, id) == Newest(c.log, id) {
      NewestAppend(c.log, installation, id);
    }
  }

  lemma LookedUpInv(s: System, installation: int, now: int)
    requires Inv(s) && installation > 0
    ensures var (cache, found) := LookedUp(s.cache, installation, now);
            && Inv(s.(cache := cache))
            && (found.Hit? ==> CallerOk(cache, Caller(installation, false, Served(found.token, now))))
            && (found.Join? ==> CallerOk(cache, Caller(installation, false, Waiting(found.flight))))
  {
    assert MapIsUnfinished(s.cache);
    hide Inv, Fresh;
    if installation in s.cache.tokens && Fresh(s.cache.tokens[installation], now) {
      HitIsServed(s, installation, now);
    } else if installation !in s.cache.flights {
      StartedInv(s, installation);
    }
  }

  lemma LookedInv(s: System, c: nat, now: int)
    requires Inv(s) && c < |s.callers| && s.callers[c].progress.Admitted?
    ensures Inv(Looked(s, c, now))
  {
    hide Inv, LookedUp;
    var caller := s.callers[c];
    assert CallerOk(s.cache, caller) by {
      CallerIn(s, c);
    }
    LookedUpInv(s, caller.installation, now);
    var (cache, found) := LookedUp(s.cache, caller.installation, now);
    match found
    case Hit(token) => CallerInv(s.(cache := cache), c, caller.(progress := Served(token, now)));
    case Join(f) => CallerInv(s.(cache := cache), c, caller.(progress := Waiting(f)));
  }

  lemma CallerIn(s: System, c: nat)
    requires Inv(s) && c < |s.callers|
    ensures CallerOk(s.cache, s.callers[c])
  {
    assert s.callers[c] in s.callers;
  }

  lemma NextInv(s: System, step: Step)
    requires Inv(s)
    ensures Inv(Next(s, step))
  {
    hide Inv, Looked, Finished, Fresh;
    if Enabled(s, step) {
      match step
      case Call(installation) => CalledInv(s, installation);
      case Cancel(c) => CallerIn(s, c); CallerInv(s, c, s.callers[c].(cancelled := true));
      case Enter(c) => CallerIn(s, c); CallerInv(s, c, Next(s, step).callers[c]);
      case Lock(c, now) => LookedInv(s, c, now);
      case Receive(c) => CallerIn(s, c); CallerInv(s, c, Next(s, step).callers[c]);
      case GiveUp(c) => CallerIn(s, c); CallerInv(s, c, s.callers[c].(progress := Refused(Cancelled)));
      case Sign(f, ok) => PhasedInv(s, f, if ok then Requesting else Judged(Failed(SigningFailed)));
      case Answer(f, answer) =>
        PhasedInv(s, f, if answer.Some? then Answered(answer.value) else Judged(Failed(RequestFailed)));
      case Judge(f, now) =>
        var token := s.cache.log[f].phase.token;
        PhasedInv(s, f, Judged(if token.text == "" || !Fresh(token, now) then Failed(InvalidToken)
          else Fetched(token)));
      case FinishFlight(f) => FinishedInv(s, f);
    }
  }

  lemma CalledInv(s: System, installation: int)
    requires Inv(s)
    ensures Inv(s.(callers := s.callers + [Caller(installation, false, Entering)]))
  {
    hide MapIsUnfinished, OneAtATime, TokensAreNewest, GoodTokens;
    var caller := Caller(installation, false, Entering);
    forall d | d in s.callers + [caller] ensures CallerOk(s.cache, d) {
      assert d in s.callers || d == caller;
    }
  }

  lemma {:induction false} RunInv(steps: seq<Step>)
    ensures Inv(Run(steps))
  {
    if |steps| > 0 {
      RunInv(steps[..|steps| - 1]);
      NextInv(Run(steps[..|steps| - 1]), steps[|steps| - 1]);
    }
  }

  // ----- What every interleaving guarantees -----

  /** At most one unfinished flight, and so at most one outstanding token request, per installation. */
  lemma SingleFlight(steps: seq<Step>, f: nat, g: nat)
    requires f < |Run(steps).cache.log| && g < |Run(steps).cache.log|
    requires !Run(steps).cache.log[f].phase.Done? && !Run(steps).cache.log[g].phase.Done?
    requires Run(steps).cache.log[f].installation == Run(steps).cache.log[g].installation
    ensures f == g
  {
    RunInv(steps);
    hide Run;
  }

  /** A flight is in the map exactly while it is unfinished. */
  lemma InMapWhileUnfinished(steps: seq<Step>, f: nat)
    requires f < |Run(steps).cache.log|
    ensures var c := Run(steps).cache;
            !c.log[f].phase.Done? <==> c.log[f].installation in c.flights && c.flights[c.log[f].installation] == f
  {
    RunInv(steps);
    hide Run;
  }

  /** A caller that returned was served a cached token with more than the refresh window left,
      or got the result of the finished flight of its installation, or was refused for cause. */
  lemma ReturnedRightly(steps: seq<Step>, c: nat)
    requires c < |Run(steps).callers|
    ensures var s, caller := Run(steps), Run(steps).callers[c];
            match caller.progress
            case Served(token, at) =>
              at + REFRESH_WINDOW < token.expiresAt && token.text != "" &&
              exists f :: 0 <= f < |s.cache.log| && s.cache.log[f] == Flight(caller.installation, Done(Fetched(token)))
            case Received(f, result) => f < |s.cache.log| && s.cache.log[f] == Flight(caller.installation, Done(result))
            case Refused(error) =>
              (error == InvalidInstallation <==> caller.installation <= 0) &&
                (error == Cancelled <==> caller.installation > 0) &&
              (error == Cancelled ==> caller.cancelled)
            case _ => true
  {
    RunInv(steps);
    hide Run;
    var s, caller := Run(steps), Run(steps).callers[c];
    assert CallerOk(s.cache, caller);
    if caller.progress.Served? {
      var f :| 0 <= f < |s.cache.log| &&
        s.cache.log[f] == Flight(caller.installation, Done(Fetched(caller.progress.token)));
      assert s.cache.log[f] in s.cache.log;
    }
  }

  /** Where a caller that joined a flight can be: still waiting for it, returned with its result, or cancelled. */
  predicate Joined(s: System, c: nat, f: nat) {
    c < |s.callers| &&
    var caller := s.callers[c];
    match caller.progress
    case Waiting(g) => g == f
    case Received(g, result) =>
      g == f && f < |s.cache.log| && s.cache.log[f] == Flight(caller.installation, Done(result))
    case Refused(error) => error == Cancelled && caller.cancelled
    case _ => false
  }

  lemma StaysJoined(s: System, step: Step, c: nat, f: nat)
    requires Inv(s) && Joined(s, c, f)
    ensures Joined(Next(s, step), c, f)
  {
    CallerIn(s, c);
    if f < |s.cache.log| {
      FlightsAdvance(s, step, f);
    }
    hide Inv, CallerOk, Fresh;
  }

  /** A caller that waits for a flight waits for it until it is done and then returns its result, whatever other
      callers and flights do meanwhile; only a cancelled caller gives up. */
  lemma {:induction false} WaiterGetsItsFlight(steps: seq<Step>, more: seq<Step>, c: nat, f: nat)
    requires c < |Run(steps).callers| && Run(steps).callers[c].progress == Waiting(f)
    ensures Joined(Run(steps + more), c, f)
    ensures !Run(steps + more).callers[c].cancelled ==>
              Run(steps + more).callers[c].progress == Waiting(f) ||
              exists result :: Run(steps + more).callers[c].progress == Received(f, result)
  {
    hide Run, Next, Inv;
    if |more| == 0 {
      assert steps + more == steps;
    } else {
      var before := more[..|more| - 1];
      WaiterGetsItsFlight(steps, before, c, f);
      RunInv(steps + before);
      RunSnoc(steps + before, more[|more| - 1]);
      assert steps + more == steps + before + [more[|more| - 1]];
      StaysJoined(Run(steps + before), more[|more| - 1], c, f);
    }
  }

  lemma RunSnoc(steps: seq<Step>, step: Step)
    ensures Run(steps + [step]) == Next(Run(steps), step)
  {
    assert (steps + [step])[..|steps|] == steps;
  }

  /** The cache holds, for every installation, the token of its latest successful flight. */
  lemma CachedIsNewest(steps: seq<Step>, installation: int)
    ensures var c := Run(steps).cache;
            if installation in c.tokens then Newest(c.log, installation) == Some(c.tokens[installation])
            else Newest(c.log, installation).None?
  {
    RunInv(steps);
    hide Run, Newest;
  }

  /** No caller waits in vain: its flight is done and it can return, or the flight has a step to take. */
  lemma WaiterIsNotForgotten(steps: seq<Step>, c: nat)
    requires c < |Run(steps).callers| && Run(steps).callers[c].progress.Waiting?
    ensures var s, f := Run(steps), Run(steps).callers[c].progress.flight;
            || Enabled(s, Receive(c))
            || Enabled(s, Sign(f, true)) || Enabled(s, Answer(f, None)) || Enabled(s, Judge(f, 0)) ||
                 Enabled(s, FinishFlight(f))
  {
    RunInv(steps);
    hide Run;
    assert CallerOk(Run(steps).cache, Run(steps).callers[c]);
  }

  /** How many steps a flight has left. */
  function Left(phase: Phase): nat {
    match phase
    case Signing => 4
    case Requesting => 3
    case Answered(_) => 2
    case Judged(_) => 1
    case Done(_) => 0
  }

  /** Every flight moves towards its end and never back; a finished one keeps its result. */
  lemma FlightsAdvance(s: System, step: Step, f: nat)
    requires f < |s.cache.log|
    ensures var after := Next(s, step).cache.log;
            && f < |after| && after[f].installation == s.cache.log[f].installation
            && (after[f] == s.cache.log[f] || Left(after[f].phase) < Left(s.cache.log[f].phase))
  {
  }
}
