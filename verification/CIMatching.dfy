/** Matching required CI: the latest result per producer. */
module CIMatching {
  import opened Basics

  datatype Availability = Available | Partial | Unavailable

  datatype Requirement = Requirement(context: string, app: int, source: string, ruleset: int, sourceType: string)

  /** A check run; `app` is absent when GitHub names no producer. */
  datatype Check = Check(
    id: int, name: string, app: Option<int>, suite: Option<int>,
    status: string, conclusion: string, completedAt: Option<int>)

  datatype Status = Status(id: int, context: string, state: string, updatedAt: int)

  datatype Failure = Failure(operation: string, code: string)

  datatype Observation = Observation(
    head: string, availability: Availability, checks: seq<Check>, statuses: seq<Status>, failures: seq<Failure>)

  datatype ResultState = Missing | Pending | TerminalSuccess | TerminalNonSuccess | Unresolved | ResultUnavailable

  datatype Result = Result(
    requirement: Requirement, source: string, state: ResultState, id: int, conclusion: string,
    producer: int, suite: int, at: Option<int>, reason: string)

  // ----- What counts for a requirement -----

  predicate Known(c: Check) {
    c.app.Some? && c.app.value > 0
  }

  predicate Counts(required: Requirement, c: Check) {
    c.name == required.context && Known(c) && (required.app == 0 || c.app.value == required.app)
  }

  predicate Anonymous(required: Requirement, c: Check) {
    c.name == required.context && !Known(c)
  }

  predicate From(required: Requirement, app: int, c: Check) {
    Counts(required, c) && c.app.value == app
  }

  function Producers(required: Requirement, checks: seq<Check>): set<int> {
    set c <- checks | Counts(required, c) :: c.app.value
  }

  /** A producer's check with the highest id; of several with that id, the first. */
  function LatestCheck(required: Requirement, checks: seq<Check>, app: int): Option<Check> {
    if |checks| == 0 then None
    else
      var prior, c := LatestCheck(required, checks[..|checks| - 1], app), checks[|checks| - 1];
      if From(required, app, c) && (prior.None? || c.id > prior.value.id) then Some(c) else prior
  }

  function LatestStatus(context: string, statuses: seq<Status>): Option<Status> {
    if |statuses| == 0 then None
    else
      var prior, s := LatestStatus(context, statuses[..|statuses| - 1]), statuses[|statuses| - 1];
      if s.context == context && (prior.None? || s.id > prior.value.id) then Some(s) else prior
  }

  /** The latest check is there exactly for a producer, and no check of that producer has a higher id. */
  lemma {:induction false} LatestCheckIsHighest(required: Requirement, checks: seq<Check>, app: int)
    ensures LatestCheck(required, checks, app).Some? <==> exists c <- checks :: From(required, app, c)
    ensures LatestCheck(required, checks, app).Some? <==> app in Producers(required, checks)
    ensures var latest := LatestCheck(required, checks, app);
            latest.Some? ==>
              && latest.value in checks && From(required, app, latest.value)
              && forall c <- checks :: From(required, app, c) ==> c.id <= latest.value.id
  {
    if |checks| > 0 {
      var front, last := checks[..|checks| - 1], checks[|checks| - 1];
      LatestCheckIsHighest(required, front, app);
      assert checks == front + [last];
      assert forall c :: c in checks <==> c in front || c == last;
    }
  }

  lemma {:induction false} LatestStatusIsHighest(context: string, statuses: seq<Status>)
    ensures LatestStatus(context, statuses).Some? <==> exists s <- statuses :: s.context == context
    ensures var latest := LatestStatus(context, statuses);
            latest.Some? ==>
              && latest.value in statuses && latest.value.context == context
              && forall s <- statuses :: s.context == context ==> s.id <= latest.value.id
  {
    if |statuses| > 0 {
      var front, last := statuses[..|statuses| - 1], statuses[|statuses| - 1];
      LatestStatusIsHighest(context, front);
      assert statuses == front + [last];
      assert forall s :: s in statuses <==> s in front || s == last;
    }
  }

  // ----- The results of one requirement -----

  /** Whether a source could not be observed. */
  predicate Failed(o: Observation, source: string) {
    || o.availability.Unavailable?
    || (o.availability.Partial? && o.failures == [])
    || exists f <- o.failures :: f.operation == source || f.operation == "repository"
  }

  function CheckResult(required: Requirement, c: Check): Result {
    var state := if c.status != "completed" then Pending
                 else if c.conclusion == "success" then TerminalSuccess else TerminalNonSuccess;
    Result(required, "check", state, c.id, c.conclusion, if c.app.Some? then c.app.value else 0,
           if c.suite.Some? then c.suite.value else 0, c.completedAt, "")
  }

  function StatusResult(required: Requirement, s: Status): Result {
    var state := if required.app != 0 then Unresolved
                 else if s.state == "pending" then Pending
                 else if s.state == "success" then TerminalSuccess else TerminalNonSuccess;
    Result(required, "status", state, s.id, s.state, 0, 0, Some(s.updatedAt),
           if required.app != 0 then "status_producer_unprovable" else "")
  }

  function Note(required: Requirement, source: string, state: ResultState, reason: string): Result {
    Result(required, source, state, 0, "", 0, 0, None, reason)
  }

  predicate Least(s: set<int>, least: int) {
    least in s && forall x <- s :: least <= x
  }

  lemma LeastExists(s: set<int>) returns (least: int)
    requires s != {}
    ensures Least(s, least)
  {
    assert (forall x: int :: x !in s) ==> s == {};
    var x :| x in s;
    var others := s - {x};
    if others == {} {
      least := x;
      assert s == {x};
    } else {
      var m := LeastExists(others);
      least := if x < m then x else m;
      assert s == others + {x};
    }
  }

  /** The elements of a set in ascending order. */
  ghost function Ascending(s: set<int>): (r: seq<int>)
    ensures forall x :: x in r <==> x in s
  {
    if s == {} then []
    else
      assert exists least :: Least(s, least) by { var least := LeastExists(s); assert Least(s, least); }
      var least :| Least(s, least);
      [least] + Ascending(s - {least})
  }

  lemma AscendingFrom(s: set<int>, least: int)
    requires Least(s, least)
    ensures Ascending(s) == [least] + Ascending(s - {least})
  {
    assert forall other | Least(s, other) :: other == least;
  }

  ghost function CheckResults(required: Requirement, checks: seq<Check>, producers: seq<int>): seq<Result>
    requires forall app <- producers :: app in Producers(required, checks)
  {
    if |producers| == 0 then []
    else
      LatestCheckIsHighest(required, checks, producers[0]);
      [CheckResult(required, LatestCheck(required, checks, producers[0]).value)] +
      CheckResults(required, checks, producers[1..])
  }

  predicate AnyAnonymous(required: Requirement, checks: seq<Check>) {
    exists c <- checks :: Anonymous(required, c)
  }

  ghost function StatusPart(required: Requirement, o: Observation): seq<Result> {
    var status := LatestStatus(required.context, o.statuses);
    (if status.Some? then [StatusResult(required, status.value)] else []) +
    (if Failed(o, "statuses") then [Note(required, "status", ResultUnavailable, "observation_failed")] else [])
  }

  ghost function CheckPart(required: Requirement, o: Observation): seq<Result> {
    CheckResults(required, o.checks, Ascending(Producers(required, o.checks))) +
    (if AnyAnonymous(required, o.checks) then [Note(required, "check", Unresolved, "producer_identity_unavailable")]
      else []) +
    (if Failed(o, "checks") then [Note(required, "check", ResultUnavailable, "observation_failed")] else [])
  }

  /** The results of a requirement on one commit; `Missing` stands alone. */
  ghost function Matched(required: Requirement, o: Observation): seq<Result> {
    var found := CheckPart(required, o) + StatusPart(required, o);
    if found == [] then [Note(required, "context", Missing, "")] else found
  }

  ghost function MatchedAll(requirements: seq<Requirement>, o: Observation): seq<Result> {
    if |requirements| == 0 then []
    else MatchedAll(requirements[..|requirements| - 1], o) + Matched(requirements[|requirements| - 1], o)
  }

  // ----- The matcher -----

  method TakeLeast(s: set<int>) returns (least: int)
    requires s != {}
    ensures Least(s, least)
  {
    assert (forall x: int :: x !in s) ==> s == {};
    least :| least in s;
    var others := s - {least};
    while others != {}
      invariant least in s && others <= s
      invariant forall x :: x in s ==> x in others || least <= x
      decreases others
    {
      assert (forall y: int :: y !in others) ==> others == {};
      var x: int :| x in others;
      if x < least {
        least := x;
      }
      others := others - {x};
    }
  }

  /** Sorts the keys of a map: repeatedly takes the least one left. */
  method SortedKeys(m: map<int, Check>) returns (keys: seq<int>)
    ensures keys == Ascending(m.Keys)
  {
    keys := [];
    var rest := m.Keys;
    while rest != {}
      invariant Ascending(m.Keys) == keys + Ascending(rest)
      decreases rest
    {
      var least := TakeLeast(rest);
      AscendingFrom(rest, least);
      keys := keys + [least];
      rest := rest - {least};
    }
  }

  method HasFailed(o: Observation, source: string) returns (failed: bool)
    ensures failed == Failed(o, source)
  {
    if o.availability.Unavailable? || (o.availability.Partial? && |o.failures| == 0) {
      return true;
    }
    for i := 0 to |o.failures|
      invariant forall j :: 0 <= j < i ==> o.failures[j].operation != source && o.failures[j].operation != "repository"
    {
      if o.failures[i].operation == source || o.failures[i].operation == "repository" {
        assert o.failures[i] in o.failures;
        return true;
      }
    }
    return false;
  }

  /** `latest` holds every producer's latest check. */
  ghost predicate IsLatest(required: Requirement, checks: seq<Check>, latest: map<int, Check>) {
    forall app :: if app in latest then LatestCheck(required, checks, app) == Some(latest[app])
                  else LatestCheck(required, checks, app).None?
  }

  method CollectChecks(required: Requirement, checks: seq<Check>) returns (latest: map<int, Check>, unknown: bool)
    ensures IsLatest(required, checks, latest) && latest.Keys == Producers(required, checks)
    ensures unknown == AnyAnonymous(required, checks)
  {
    latest, unknown := map[], false;
    for i := 0 to |checks|
      invariant IsLatest(required, checks[..i], latest)
      invariant unknown == AnyAnonymous(required, checks[..i])
    {
      var c := checks[i];
      assert checks[..i + 1][..i] == checks[..i] && checks[..i + 1][i] == c;
      assert checks[..i + 1] == checks[..i] + [c];
      AnonymousSnoc(required, checks[..i], c);
      if c.name != required.context {
        continue;
      }
      if c.app.None? || c.app.value <= 0 {
        unknown := true;
        continue;
      }
      if required.app != 0 && c.app.value != required.app {
        continue;
      }
      if c.app.value !in latest || c.id > latest[c.app.value].id {
        latest := latest[c.app.value := c];
      }
    }
    assert checks[..|checks|] == checks;
    forall app ensures app in latest <==> app in Producers(required, checks) {
      LatestCheckIsHighest(required, checks, app);
    }
  }

  lemma AnonymousSnoc(required: Requirement, checks: seq<Check>, c: Check)
    ensures AnyAnonymous(required, checks + [c]) <==> AnyAnonymous(required, checks) || Anonymous(required, c)
  {
    if Anonymous(required, c) {
      assert c in checks + [c];
    }
    if d :| d in checks && Anonymous(required, d) {
      assert d in checks + [c];
    }
  }

  method CollectStatus(required: Requirement, statuses: seq<Status>) returns (status: Option<Status>)
    ensures status == LatestStatus(required.context, statuses)
  {
    status := None;
    for i := 0 to |statuses|
      invariant status == LatestStatus(required.context, statuses[..i])
    {
      assert statuses[..i + 1][..i] == statuses[..i];
      var item := statuses[i];
      if item.context == required.context && (status.None? || item.id > status.value.id) {
        status := Some(item);
      }
    }
    assert statuses[..|statuses|] == statuses;
  }

  method ReportChecks(required: Requirement, checks: seq<Check>, latest: map<int, Check>) returns (results: seq<Result>)
    requires IsLatest(required, checks, latest) && latest.Keys == Producers(required, checks)
    ensures results == CheckResults(required, checks, Ascending(Producers(required, checks)))
  {
    var producers := SortedKeys(latest);
    results := [];
    for i := 0 to |producers|
      invariant results == CheckResults(required, checks, producers[..i])
    {
      LatestCheckIsHighest(required, checks, producers[i]);
      CheckResultsSnoc(required, checks, producers[..i], producers[i]);
      assert producers[..i + 1] == producers[..i] + [producers[i]];
      results := results + [CheckResult(required, latest[producers[i]])];
    }
    assert producers[..|producers|] == producers;
  }

  lemma {:induction false} CheckResultsSnoc(required: Requirement, checks: seq<Check>, producers: seq<int>, app: int)
    requires app in Producers(required, checks) && forall p <- producers :: p in Producers(required, checks)
    ensures LatestCheck(required, checks, app).Some?
    ensures CheckResults(required, checks, producers + [app]) ==
            CheckResults(required, checks, producers) +
              [CheckResult(required, LatestCheck(required, checks, app).value)]
  {
    LatestCheckIsHighest(required, checks, app);
    if |producers| > 0 {
      assert (producers + [app])[1..] == producers[1..] + [app];
      CheckResultsSnoc(required, checks, producers[1..], app);
    }
  }

  method MatchChecks(required: Requirement, observed: Observation) returns (results: seq<Result>, none: bool)
    ensures results == CheckPart(required, observed) && (none <==> results == [])
  {
    hide Failed, AnyAnonymous, Producers, Ascending, CheckResults, LatestCheck, IsLatest, Note;
    var latest, unknown := CollectChecks(required, observed.checks);
    var failed := HasFailed(observed, "checks");
    results := ReportChecks(required, observed.checks, latest);
    NoProducers(required, observed.checks);
    if unknown {
      results := results + [Note(required, "check", Unresolved, "producer_identity_unavailable")];
    }
    if failed {
      results := results + [Note(required, "check", ResultUnavailable, "observation_failed")];
    }
    assert latest.Keys == {} <==> |latest| == 0;
    none := |latest| == 0 && !unknown && !failed;
  }

  method MatchStatuses(required: Requirement, observed: Observation) returns (results: seq<Result>, none: bool)
    ensures results == StatusPart(required, observed) && (none <==> results == [])
  {
    hide Failed, LatestStatus, Note, StatusResult;
    var status := CollectStatus(required, observed.statuses);
    var failed := HasFailed(observed, "statuses");
    results := [];
    if status.Some? {
      results := results + [StatusResult(required, status.value)];
    }
    if failed {
      results := results + [Note(required, "status", ResultUnavailable, "observation_failed")];
    }
    none := status.None? && !failed;
  }

  method MatchRequired(required: Requirement, observed: Observation) returns (results: seq<Result>)
    ensures results == Matched(required, observed)
  {
    hide CheckPart, StatusPart, Note;
    var checks, noCheck := MatchChecks(required, observed);
    var statuses, noStatus := MatchStatuses(required, observed);
    results := checks + statuses;
    if noCheck && noStatus {
      results := results + [Note(required, "context", Missing, "")];
    }
  }

  method MatchRequiredCI(requirements: seq<Requirement>, observed: Observation) returns (results: seq<Result>)
    ensures results == MatchedAll(requirements, observed)
  {
    results := [];
    for i := 0 to |requirements|
      invariant results == MatchedAll(requirements[..i], observed)
    {
      assert requirements[..i + 1][..i] == requirements[..i];
      var found := MatchRequired(requirements[i], observed);
      results := results + found;
    }
    assert requirements[..|requirements|] == requirements;
  }

  lemma NoProducers(required: Requirement, checks: seq<Check>)
    ensures CheckResults(required, checks, Ascending(Producers(required, checks))) == [] <==>
            Producers(required, checks) == {}
  {
    var p := Producers(required, checks);
    if p != {} {
      var x :| x in p;
      assert x in Ascending(p);
    }
  }

  // ----- What the results say about the evidence -----

  predicate Blocking(state: ResultState) {
    state.Pending? || state.Unresolved? || state.ResultUnavailable?
  }

  predicate Terminal(state: ResultState) {
    state.TerminalSuccess? || state.TerminalNonSuccess?
  }

  /** The observer refuses evidence in which an id occurs twice. */
  predicate DistinctIds(o: Observation) {
    && (forall c <- o.checks, d <- o.checks :: c.id == d.id ==> c == d)
    && (forall s <- o.statuses, t <- o.statuses :: s.id == t.id ==> s == t)
  }

  /** A check that no other check of its producer supersedes. */
  predicate Newest(required: Requirement, checks: seq<Check>, c: Check) {
    c in checks && Counts(required, c) && forall d <- checks :: From(required, c.app.value, d) ==> d.id <= c.id
  }

  predicate NewestStatus(context: string, statuses: seq<Status>, s: Status) {
    s in statuses && s.context == context && forall t <- statuses :: t.context == context ==> t.id <= s.id
  }

  lemma NewestIsLatest(required: Requirement, o: Observation, app: int, c: Check)
    requires DistinctIds(o)
    ensures LatestCheck(required, o.checks, app) == Some(c) <==> Newest(required, o.checks, c) && c.app.value == app
  {
    LatestCheckIsHighest(required, o.checks, app);
    if Newest(required, o.checks, c) && c.app.value == app {
      assert From(required, app, c);
      var latest := LatestCheck(required, o.checks, app).value;
      assert latest.id == c.id;
    }
  }

  lemma NewestStatusIsLatest(context: string, o: Observation, s: Status)
    requires DistinctIds(o)
    ensures LatestStatus(context, o.statuses) == Some(s) <==> NewestStatus(context, o.statuses, s)
  {
    LatestStatusIsHighest(context, o.statuses);
    if NewestStatus(context, o.statuses, s) {
      var latest := LatestStatus(context, o.statuses).value;
      assert latest.id == s.id;
    }
  }

  predicate IsCheckResult(required: Requirement, checks: seq<Check>, app: int, r: Result) {
    LatestCheck(required, checks, app).Some? && r == CheckResult(required, LatestCheck(required, checks, app).value)
  }

  lemma {:induction false} CheckResultsAre(required: Requirement, checks: seq<Check>, producers: seq<int>, r: Result)
    requires forall app <- producers :: app in Producers(required, checks)
    ensures r in CheckResults(required, checks, producers) <==>
            exists app <- producers :: IsCheckResult(required, checks, app, r)
  {
    if |producers| > 0 {
      LatestCheckIsHighest(required, checks, producers[0]);
      CheckResultsAre(required, checks, producers[1..], r);
      hide Producers, CheckResult;
      var first := CheckResult(required, LatestCheck(required, checks, producers[0]).value);
      assert r in CheckResults(required, checks, producers) <==>
        r == first || r in CheckResults(required, checks, producers[1..]);
      assert IsCheckResult(required, checks, producers[0], r) <==> r == first;
      assert producers == [producers[0]] + producers[1..];
    }
  }

  /** The results from check runs: one for every producer's newest check. */
  lemma CheckResultsAreNewest(required: Requirement, o: Observation, r: Result)
    requires DistinctIds(o)
    ensures r in CheckResults(required, o.checks, Ascending(Producers(required, o.checks))) <==>
            exists c <- o.checks :: Newest(required, o.checks, c) && r == CheckResult(required, c)
  {
    var producers := Ascending(Producers(required, o.checks));
    CheckResultsAre(required, o.checks, producers, r);
    hide CheckResult, DistinctIds, Ascending, CheckResults;
    if app :| app in producers && IsCheckResult(required, o.checks, app, r) {
      var c := LatestCheck(required, o.checks, app).value;
      NewestIsLatest(required, o, app, c);
      assert c in o.checks && r == CheckResult(required, c);
    }
    if c :| c in o.checks && Newest(required, o.checks, c) && r == CheckResult(required, c) {
      NewestIsLatest(required, o, c.app.value, c);
      LatestCheckIsHighest(required, o.checks, c.app.value);
      assert c.app.value in producers && IsCheckResult(required, o.checks, c.app.value, r);
    }
  }

  predicate QuietChecks(required: Requirement, o: Observation) {
    && !AnyAnonymous(required, o.checks) && !Failed(o, "checks")
    && (forall c <- o.checks :: Newest(required, o.checks, c) ==> c.status == "completed")
  }

  predicate AnsweredByCheck(required: Requirement, o: Observation) {
    exists c <- o.checks :: Newest(required, o.checks, c) && c.status == "completed"
  }

  predicate QuietStatuses(required: Requirement, o: Observation) {
    && !Failed(o, "statuses")
    && (forall s <- o.statuses :: NewestStatus(required.context, o.statuses, s) ==>
         required.app == 0 && s.state != "pending")
  }

  predicate AnsweredByStatus(required: Requirement, o: Observation) {
    required.app == 0 && exists s <- o.statuses :: NewestStatus(required.context, o.statuses, s) && s.state != "pending"
  }

  /** Nothing on this commit speaks against a requirement being complete. */
  predicate Quiet(required: Requirement, o: Observation) {
    QuietChecks(required, o) && QuietStatuses(required, o)
  }

  /** Some producer's newest result on this commit is final. */
  predicate Answered(required: Requirement, o: Observation) {
    AnsweredByCheck(required, o) || AnsweredByStatus(required, o)
  }

  lemma CheckPartIsNewest(required: Requirement, o: Observation)
    requires DistinctIds(o)
    ensures QuietChecks(required, o) <==> forall r <- CheckPart(required, o) :: !Blocking(r.state)
    ensures AnsweredByCheck(required, o) <==> exists r <- CheckPart(required, o) :: Terminal(r.state)
    ensures forall r <- CheckPart(required, o) :: r.requirement == required
  {
    hide DistinctIds, Ascending, CheckResults, Newest, Failed, AnyAnonymous, Counts;
    var results := CheckResults(required, o.checks, Ascending(Producers(required, o.checks)));
    forall r
      ensures r in results <==> exists c <- o.checks :: Newest(required, o.checks, c) && r == CheckResult(required, c)
    {
      CheckResultsAreNewest(required, o, r);
    }
    var unknown := Note(required, "check", Unresolved, "producer_identity_unavailable");
    var failed := Note(required, "check", ResultUnavailable, "observation_failed");
    assert forall r :: r in CheckPart(required, o) <==>
        r in results || (AnyAnonymous(required, o.checks) && r == unknown) || (Failed(o, "checks") && r == failed);
    hide CheckPart;
    forall c | c in o.checks && Newest(required, o.checks, c)
      ensures CheckResult(required, c) in CheckPart(required, o)
    {
      assert CheckResult(required, c) in results;
    }
    if AnyAnonymous(required, o.checks) {
      assert unknown in CheckPart(required, o);
    }
    if Failed(o, "checks") {
      assert failed in CheckPart(required, o);
    }
  }

  lemma StatusPartIsNewest(required: Requirement, o: Observation)
    requires DistinctIds(o)
    ensures QuietStatuses(required, o) <==> forall r <- StatusPart(required, o) :: !Blocking(r.state)
    ensures AnsweredByStatus(required, o) <==> exists r <- StatusPart(required, o) :: Terminal(r.state)
    ensures forall r <- StatusPart(required, o) :: r.requirement == required
  {
    hide DistinctIds, LatestStatus, NewestStatus, Failed;
    var latest := LatestStatus(required.context, o.statuses);
    forall s ensures latest == Some(s) <==> NewestStatus(required.context, o.statuses, s) {
      NewestStatusIsLatest(required.context, o, s);
    }
    var failed := Note(required, "status", ResultUnavailable, "observation_failed");
    assert forall r :: r in StatusPart(required, o) <==>
        (latest.Some? && r == StatusResult(required, latest.value)) || (Failed(o, "statuses") && r == failed);
    if latest.Some? {
      LatestStatusIsHighest(required.context, o.statuses);
      assert StatusResult(required, latest.value) in StatusPart(required, o);
    }
    if Failed(o, "statuses") {
      assert failed in StatusPart(required, o);
    }
    hide StatusPart;
  }

  /** A requirement's results are quiet and final exactly when the newest evidence is. */
  lemma MatchedIsNewest(required: Requirement, o: Observation)
    requires DistinctIds(o)
    ensures Quiet(required, o) <==> forall r <- Matched(required, o) :: !Blocking(r.state)
    ensures Answered(required, o) <==> exists r <- Matched(required, o) :: Terminal(r.state)
    ensures forall r <- Matched(required, o) :: r.requirement == required
  {
    hide DistinctIds, CheckPart, StatusPart, QuietChecks, QuietStatuses, AnsweredByCheck, AnsweredByStatus;
    CheckPartIsNewest(required, o);
    StatusPartIsNewest(required, o);
    var found := CheckPart(required, o) + StatusPart(required, o);
    assert forall r :: r in found <==> r in CheckPart(required, o) || r in StatusPart(required, o);
    if found == [] {
      assert Matched(required, o) == [Note(required, "context", Missing, "")];
    }
  }

  lemma {:induction false} CheckResultsFor(required: Requirement, checks: seq<Check>, producers: seq<int>)
    requires forall app <- producers :: app in Producers(required, checks)
    ensures forall r <- CheckResults(required, checks, producers) :: r.requirement == required
  {
    if |producers| > 0 {
      CheckResultsFor(required, checks, producers[1..]);
      LatestCheckIsHighest(required, checks, producers[0]);
    }
  }

  /** Every result names the requirement it was matched for. */
  lemma MatchedFor(required: Requirement, o: Observation)
    ensures forall r <- Matched(required, o) :: r.requirement == required
  {
    CheckResultsFor(required, o.checks, Ascending(Producers(required, o.checks)));
  }

  // ----- Order does not matter -----

  predicate SameElements<T(==)>(a: seq<T>, b: seq<T>) {
    (forall x <- a :: x in b) && (forall x <- b :: x in a)
  }

  /** The same evidence about a commit, listed in another order. */
  predicate Reordered(o: Observation, p: Observation) {
    && o.head == p.head && o.availability == p.availability
    && SameElements(o.checks, p.checks) && SameElements(o.statuses, p.statuses) && SameElements(o.failures, p.failures)
  }

  lemma SameProducers(required: Requirement, o: Observation, p: Observation)
    requires Reordered(o, p)
    ensures Producers(required, o.checks) == Producers(required, p.checks)
    ensures AnyAnonymous(required, o.checks) == AnyAnonymous(required, p.checks)
    ensures forall source :: Failed(o, source) == Failed(p, source)
  {
    forall source ensures Failed(o, source) == Failed(p, source) {
      assert o.failures == [] <==> p.failures == [] by {
        assert o.failures != [] ==> o.failures[0] in o.failures;
        assert p.failures != [] ==> p.failures[0] in p.failures;
      }
    }
  }

  lemma SameLatest(required: Requirement, o: Observation, p: Observation, app: int)
    requires Reordered(o, p) && DistinctIds(o) && DistinctIds(p)
    ensures LatestCheck(required, o.checks, app) == LatestCheck(required, p.checks, app)
    ensures LatestStatus(required.context, o.statuses) == LatestStatus(required.context, p.statuses)
  {
    LatestCheckIsHighest(required, o.checks, app);
    LatestCheckIsHighest(required, p.checks, app);
    var c := LatestCheck(required, o.checks, app);
    if c.Some? {
      NewestIsLatest(required, o, app, c.value);
      NewestIsLatest(required, p, app, c.value);
    }
    LatestStatusIsHighest(required.context, o.statuses);
    LatestStatusIsHighest(required.context, p.statuses);
    var s := LatestStatus(required.context, o.statuses);
    if s.Some? {
      NewestStatusIsLatest(required.context, o, s.value);
      NewestStatusIsLatest(required.context, p, s.value);
    }
  }

  lemma {:induction false} SameCheckResults(required: Requirement, o: Observation, p: Observation, producers: seq<int>)
    requires Reordered(o, p) && DistinctIds(o) && DistinctIds(p)
    requires forall app <- producers :: app in Producers(required, o.checks)
    ensures forall app <- producers :: app in Producers(required, p.checks)
    ensures CheckResults(required, o.checks, producers) == CheckResults(required, p.checks, producers)
  {
    SameProducers(required, o, p);
    if |producers| > 0 {
      SameLatest(required, o, p, producers[0]);
      SameCheckResults(required, o, p, producers[1..]);
    }
  }

  /** The results come out the same, and in the same order, however the evidence is listed. */
  lemma MatchedIgnoresOrder(required: Requirement, o: Observation, p: Observation)
    requires Reordered(o, p) && DistinctIds(o) && DistinctIds(p)
    ensures Matched(required, o) == Matched(required, p)
  {
    SameProducers(required, o, p);
    SameLatest(required, o, p, 0);
    SameCheckResults(required, o, p, Ascending(Producers(required, o.checks)));
    hide DistinctIds, Reordered, LatestStatus, LatestCheck, Producers, Failed, AnyAnonymous, CheckResults, Ascending;
  }
}
