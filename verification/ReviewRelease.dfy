/** When a waiting review is released. */
module ReviewRelease {
  import opened CIMatching

  datatype Start = StartImmediately | StartAfterCI

  datatype Selection = GitHubRequired | Explicit

  datatype Policy = Policy(start: Start, selection: Selection, grace: int)

  datatype Inventory = Inventory(
    availability: Availability, requirements: seq<Requirement>, unresolved: seq<string>, failures: seq<Failure>)

  datatype Mapping = Mapping(state: string, failures: seq<Failure>)

  datatype Reason = Waiting | Immediate | CompletedCI | NoCIAfterGrace | TimeoutIncomplete

  datatype Target = Target(head: string, availability: Availability, failures: seq<Failure>, results: seq<Result>)

  datatype Evidence = Evidence(reason: Reason, targets: seq<Target>)

  // ----- Narrowing an observation to a selector -----

  function Operation(required: Requirement): string {
    if required.sourceType == "status" then "statuses" else "checks"
  }

  predicate Concerns(f: Failure, operation: string) {
    f.operation == operation || f.operation == "repository"
  }

  function Concerning(failures: seq<Failure>, operation: string): seq<Failure> {
    if |failures| == 0 then []
    else
      var front, last := Concerning(failures[..|failures| - 1], operation), failures[|failures| - 1];
      if Concerns(last, operation) then front + [last] else front
  }

  /** What of an observation a requirement is matched against. */
  function Selected(required: Requirement, o: Observation): Observation {
    if required.source != "repository_explicit" then o
    else
      var failures := Concerning(o.failures, Operation(required));
      o.(checks := if required.sourceType == "status" then [] else o.checks,
         statuses := if required.sourceType == "check" then [] else o.statuses,
         failures := failures,
         availability :=
           if o.availability.Unavailable? || (!o.availability.Available? && o.failures == []) then Unavailable
           else if failures != [] then Partial else Available)
  }

  method Select(required: Requirement, o: Observation) returns (selected: Observation)
    ensures selected == Selected(required, o)
  {
    selected := o;
    if required.source == "repository_explicit" {
      if required.sourceType == "check" {
        selected := selected.(statuses := []);
      }
      if required.sourceType == "status" {
        selected := selected.(checks := []);
      }
      selected := selected.(failures := [], availability := Available);
      var operation := "checks";
      if required.sourceType == "status" {
        operation := "statuses";
      }
      for i := 0 to |o.failures|
        invariant selected.failures == Concerning(o.failures[..i], operation)
        invariant selected.availability == if selected.failures != [] then Partial else Available
        invariant selected.head == o.head
        invariant selected.checks == if required.sourceType == "status" then [] else o.checks
        invariant selected.statuses == if required.sourceType == "check" then [] else o.statuses
      {
        var failure := o.failures[i];
        assert o.failures[..i + 1][..i] == o.failures[..i];
        if failure.operation == operation || failure.operation == "repository" {
          selected := selected.(failures := selected.failures + [failure], availability := Partial);
        }
      }
      assert o.failures[..|o.failures|] == o.failures;
      if o.availability.Unavailable? || (!o.availability.Available? && |o.failures| == 0) {
        selected := selected.(availability := Unavailable);
      }
    }
  }

  // ----- The requirements that count -----

  /** The policy and the target are known well enough to rely on. */
  predicate Usable(inventory: Inventory, mapping: Mapping) {
    && mapping.failures == [] && inventory.availability.Available? && inventory.failures == [] &&
         inventory.unresolved == []
    && (mapping.state == "verified" || mapping.state == "head_only")
  }

  /** Nothing is required, so everything observed is waited for. */
  predicate Fallback(policy: Policy, inventory: Inventory, mapping: Mapping) {
    Usable(inventory, mapping) && inventory.requirements == [] && policy.selection.GitHubRequired?
  }

  function CheckNames(checks: seq<Check>): seq<string> {
    seq(|checks|, i requires 0 <= i < |checks| => checks[i].name)
  }

  function StatusNames(statuses: seq<Status>): seq<string> {
    seq(|statuses|, i requires 0 <= i < |statuses| => statuses[i].context)
  }

  function AllNames(observations: seq<Observation>): seq<string> {
    if |observations| == 0 then []
    else
      var o := observations[|observations| - 1];
      AllNames(observations[..|observations| - 1]) + (CheckNames(o.checks) + StatusNames(o.statuses))
  }

  function Observed(name: string): Requirement {
    Requirement(name, 0, "all_observed", 0, "")
  }

  /** One requirement per name, in the order of first appearance. */
  function ForNames(names: seq<string>): seq<Requirement> {
    if |names| == 0 then []
    else
      var front, last := names[..|names| - 1], names[|names| - 1];
      ForNames(front) + if last in front then [] else [Observed(last)]
  }

  function Requirements(
    policy: Policy, inventory: Inventory, mapping: Mapping, observations: seq<Observation>): seq<Requirement>
  {
    if Fallback(policy, inventory, mapping) then ForNames(AllNames(observations)) else inventory.requirements
  }

  lemma {:induction false} ForNamesAre(names: seq<string>)
    ensures forall r :: r in ForNames(names) <==> r == Observed(r.context) && r.context in names
  {
    if |names| > 0 {
      var front, last := names[..|names| - 1], names[|names| - 1];
      ForNamesAre(front);
      assert names == front + [last];
    }
  }

  method AddNames(names: seq<string>, seen: set<string>, ghost before: seq<string>, requirements: seq<Requirement>)
    returns (seen': set<string>, requirements': seq<Requirement>)
    requires requirements == ForNames(before) && forall name :: name in seen <==> name in before
    ensures requirements' == ForNames(before + names) && forall name :: name in seen' <==> name in before + names
  {
    seen', requirements' := seen, requirements;
    assert before + names[..0] == before;
    for i := 0 to |names|
      invariant requirements' == ForNames(before + names[..i])
      invariant forall name :: name in seen' <==> name in before + names[..i]
    {
      assert before + names[..i + 1] == (before + names[..i]) + [names[i]];
      if names[i] !in seen' {
        requirements' := requirements' + [Observed(names[i])];
        seen' := seen' + {names[i]};
      }
    }
    assert names[..|names|] == names;
  }

  method ObservedRequirements(observations: seq<Observation>) returns (requirements: seq<Requirement>)
    ensures requirements == ForNames(AllNames(observations))
  {
    hide CheckNames, StatusNames;
    requirements := [];
    var seen := {};
    for i := 0 to |observations|
      invariant requirements == ForNames(AllNames(observations[..i]))
      invariant forall name :: name in seen <==> name in AllNames(observations[..i])
    {
      var o := observations[i];
      ghost var before := AllNames(observations[..i]);
      assert observations[..i + 1][..i] == observations[..i];
      seen, requirements := AddNames(CheckNames(o.checks), seen, before, requirements);
      seen, requirements := AddNames(StatusNames(o.statuses), seen, before + CheckNames(o.checks), requirements);
      assert AllNames(observations[..i + 1]) == before + CheckNames(o.checks) + StatusNames(o.statuses);
    }
    assert observations[..|observations|] == observations;
  }

  // ----- The decision, on the results -----

  ghost function TargetResults(requirements: seq<Requirement>, o: Observation): seq<Result> {
    if |requirements| == 0 then []
    else
      var required := requirements[|requirements| - 1];
      TargetResults(requirements[..|requirements| - 1], o) + Matched(required, Selected(required, o))
  }

  ghost function TargetOf(requirements: seq<Requirement>, o: Observation): Target {
    Target(o.head, o.availability, o.failures, TargetResults(requirements, o))
  }

  ghost function Targets(requirements: seq<Requirement>, observations: seq<Observation>): seq<Target> {
    seq(|observations|, i requires 0 <= i < |observations| => TargetOf(requirements, observations[i]))
  }

  ghost predicate NoneBlocking(required: Requirement, o: Observation) {
    forall r <- Matched(required, Selected(required, o)) :: !Blocking(r.state)
  }

  ghost predicate SomeTerminal(required: Requirement, o: Observation) {
    exists r <- Matched(required, Selected(required, o)) :: Terminal(r.state)
  }

  ghost predicate Settled(required: Requirement, observations: seq<Observation>) {
    (forall o <- observations :: NoneBlocking(required, o)) && exists o <- observations :: SomeTerminal(required, o)
  }

  predicate Complete(o: Observation) {
    o.availability.Available? && o.failures == []
  }

  predicate AllObserved(policy: Policy, observations: seq<Observation>) {
    policy.selection.Explicit? || forall o <- observations :: Complete(o)
  }

  ghost predicate AllComplete(policy: Policy, inventory: Inventory, mapping: Mapping, observations: seq<Observation>) {
    && Usable(inventory, mapping) && observations != [] && AllObserved(policy, observations)
    && forall required <- Requirements(policy, inventory, mapping, observations) :: Settled(required, observations)
  }

  /** Why a review is released, or that it waits. */
  ghost function Decision(
    policy: Policy, inventory: Inventory, mapping: Mapping, observations: seq<Observation>,
    graceAnchor: int, now: int, deadline: int): Reason
  {
    var fallback := Fallback(policy, inventory, mapping);
    if policy.start.StartImmediately? then Immediate
    else if AllComplete(policy, inventory, mapping, observations) &&
      (!fallback || now >= graceAnchor + policy.grace) then
      if fallback && Requirements(policy, inventory, mapping, observations) == [] then NoCIAfterGrace else CompletedCI
    else if now >= deadline then TimeoutIncomplete
    else Waiting
  }

  lemma {:induction false} TargetResultsAre(requirements: seq<Requirement>, o: Observation, r: Result)
    ensures r in TargetResults(requirements, o) <==>
            exists required <- requirements :: r in Matched(required, Selected(required, o))
  {
    hide Matched, Selected;
    if |requirements| > 0 {
      var front, last := requirements[..|requirements| - 1], requirements[|requirements| - 1];
      TargetResultsAre(front, o, r);
      assert forall q :: q in requirements <==> q in front || q == last by {
        assert requirements == front + [last];
      }
      assert r in TargetResults(requirements, o) <==>
             r in TargetResults(front, o) || r in Matched(last, Selected(last, o));
    }
  }

  /** A target's results for a requirement are those matched for it. */
  lemma ResultsFor(requirements: seq<Requirement>, required: Requirement, o: Observation, r: Result)
    requires required in requirements
    ensures r in TargetResults(requirements, o) && r.requirement == required <==>
            r in Matched(required, Selected(required, o))
  {
    hide Matched, TargetResults;
    TargetResultsAre(requirements, o, r);
    if other :| other in requirements && r in Matched(other, Selected(other, o)) {
      MatchedFor(other, Selected(other, o));
    }
    MatchedFor(required, Selected(required, o));
  }

  // ----- The evaluation -----

  /** Looks through all results for one requirement. */
  method Judge(required: Requirement, targets: seq<Target>) returns (found: bool, blocked: bool)
    ensures found <==> exists t <- targets, r <- t.results :: r.requirement == required && Terminal(r.state)
    ensures blocked <==> exists t <- targets, r <- t.results :: r.requirement == required && Blocking(r.state)
  {
    found, blocked := false, false;
    for i := 0 to |targets|
      invariant found <==> exists t <- targets[..i], r <- t.results :: r.requirement == required && Terminal(r.state)
      invariant blocked <==> exists t <- targets[..i], r <- t.results :: r.requirement == required && Blocking(r.state)
    {
      var results := targets[i].results;
      var found', blocked' := false, false;
      for j := 0 to |results|
        invariant found' <==> exists r <- results[..j] :: r.requirement == required && Terminal(r.state)
        invariant blocked' <==> exists r <- results[..j] :: r.requirement == required && Blocking(r.state)
      {
        var result := results[j];
        assert results[..j + 1] == results[..j] + [result];
        if result.requirement != required {
          continue;
        }
        if Terminal(result.state) {
          found' := true;
        } else if !result.state.Missing? {
          blocked' := true;
        }
      }
      assert results[..|results|] == results;
      assert targets[..i + 1] == targets[..i] + [targets[i]];
      found, blocked := found || found', blocked || blocked';
    }
    assert targets[..|targets|] == targets;
  }

  /** What a look through the targets finds is what the matched results say. */
  lemma JudgedIsSettled(requirements: seq<Requirement>, required: Requirement, observations: seq<Observation>)
    requires required in requirements
    ensures (exists t <- Targets(requirements, observations), r <- t.results ::
               r.requirement == required && Terminal(r.state)) <==>
            exists o <- observations :: SomeTerminal(required, o)
    ensures (exists t <- Targets(requirements, observations), r <- t.results ::
               r.requirement == required && Blocking(r.state)) <==>
            exists o <- observations :: !NoneBlocking(required, o)
  {
    hide Matched, Selected, TargetResults;
    var targets := Targets(requirements, observations);
    forall t, r | t in targets && r in t.results && r.requirement == required
      ensures exists o <- observations :: r in Matched(required, Selected(required, o))
    {
      var i :| 0 <= i < |targets| && t == targets[i];
      ResultsFor(requirements, required, observations[i], r);
      assert observations[i] in observations;
    }
    forall o, r | o in observations && r in Matched(required, Selected(required, o))
      ensures exists t <- targets :: r in t.results && r.requirement == required
    {
      ResultsFor(requirements, required, o, r);
      var i :| 0 <= i < |observations| && o == observations[i];
      assert targets[i] in targets;
    }
  }

  method EvaluateReviewCI(
    policy: Policy, inventory: Inventory, mapping: Mapping, observations: seq<Observation>,
    graceAnchor: int, now: int, deadline: int) returns (evidence: Evidence)
    ensures evidence.reason == Decision(policy, inventory, mapping, observations, graceAnchor, now, deadline)
    ensures now >= deadline ==> !evidence.reason.Waiting?
    ensures evidence.targets ==
            if policy.start.StartImmediately? then []
            else Targets(Requirements(policy, inventory, mapping, observations), observations)
  {
    hide Matched, MatchedAll, Selected, TargetResults, Targets, Settled, ForNames, AllNames, TargetOf;
    if now >= deadline {
      NeverWaitsPastDeadline(policy, inventory, mapping, observations, graceAnchor, now, deadline);
    }
    if policy.start.StartImmediately? {
      return Evidence(Immediate, []);
    }
    var available := |mapping.failures| == 0 && inventory.availability.Available? && |inventory.failures| == 0 &&
      |inventory.unresolved| == 0 && (mapping.state == "verified" || mapping.state == "head_only");
    var fallback := available && |inventory.requirements| == 0 && policy.selection.GitHubRequired?;
    var requirements := inventory.requirements;
    if fallback {
      requirements := ObservedRequirements(observations);
    }
    var allObserved, targets := Observe(policy, requirements, observations);
    var allComplete := available && |observations| > 0 && allObserved;
    for i := 0 to |requirements|
      invariant allComplete <==>
        available && |observations| > 0 && allObserved &&
          forall required <- requirements[..i] :: Settled(required, observations)
    {
      var found, blocked := Judge(requirements[i], targets);
      JudgedIsSettled(requirements, requirements[i], observations);
      SettledIs(requirements[i], observations);
      if blocked || !found {
        allComplete := false;
      }
      assert requirements[..i + 1] == requirements[..i] + [requirements[i]];
    }
    assert requirements[..|requirements|] == requirements;
    assert allComplete == AllComplete(policy, inventory, mapping, observations);
    var reason := Waiting;
    var graceDone := now >= graceAnchor + policy.grace;
    if allComplete && (!fallback || graceDone) {
      reason := CompletedCI;
      if fallback && |requirements| == 0 {
        reason := NoCIAfterGrace;
      }
    }
    if reason == Waiting && now >= deadline {
      reason := TimeoutIncomplete;
    }
    evidence := Evidence(reason, targets);
  }

  lemma SettledIs(required: Requirement, observations: seq<Observation>)
    ensures Settled(required, observations) <==>
            !(exists o <- observations :: !NoneBlocking(required, o)) &&
              exists o <- observations :: SomeTerminal(required, o)
  {
    hide NoneBlocking, SomeTerminal;
  }

  /** Matches every requirement against every commit. */
  method Observe(policy: Policy, requirements: seq<Requirement>, observations: seq<Observation>)
    returns (allObserved: bool, targets: seq<Target>)
    ensures allObserved == AllObserved(policy, observations)
    ensures targets == Targets(requirements, observations)
  {
    hide Matched, MatchedAll, Selected;
    allObserved, targets := true, [];
    for i := 0 to |observations|
      invariant allObserved == AllObserved(policy, observations[..i])
      invariant targets == Targets(requirements, observations[..i])
    {
      var o := observations[i];
      assert observations[..i + 1] == observations[..i] + [o];
      AllObservedSnoc(policy, observations[..i], o);
      if !policy.selection.Explicit? && (!o.availability.Available? || |o.failures| > 0) {
        allObserved := false;
      }
      var target := Target(o.head, o.availability, o.failures, []);
      for j := 0 to |requirements|
        invariant target == Target(o.head, o.availability, o.failures, TargetResults(requirements[..j], o))
      {
        var required := requirements[j];
        assert requirements[..j + 1][..j] == requirements[..j];
        var selected := Select(required, o);
        var results := MatchRequiredCI([required], selected);
        assert results == Matched(required, selected) by {
          MatchedOne(required, selected);
        }
        target := target.(results := target.results + results);
      }
      assert requirements[..|requirements|] == requirements;
      targets := targets + [target];
    }
    assert observations[..|observations|] == observations;
  }

  lemma AllObservedSnoc(policy: Policy, observations: seq<Observation>, o: Observation)
    ensures AllObserved(policy, observations + [o]) <==>
            AllObserved(policy, observations) && (policy.selection.Explicit? || Complete(o))
  {
    assert o in observations + [o];
    assert forall p <- observations :: p in observations + [o];
  }

  lemma MatchedOne(required: Requirement, o: Observation)
    ensures MatchedAll([required], o) == Matched(required, o)
  {
    assert [required][..0] == [];
  }

  // ----- What a release means -----

  lemma {:induction false} ConcerningKeeps(failures: seq<Failure>, operation: string)
    ensures forall f :: f in Concerning(failures, operation) <==> f in failures && Concerns(f, operation)
  {
    if |failures| > 0 {
      ConcerningKeeps(failures[..|failures| - 1], operation);
      assert failures == failures[..|failures| - 1] + [failures[|failures| - 1]];
    }
  }

  /** On every commit the newest evidence for the requirement is final, and on one there is some. */
  predicate Concluded(required: Requirement, observations: seq<Observation>) {
    && (forall o <- observations :: Quiet(required, Selected(required, o)))
    && exists o <- observations :: Answered(required, Selected(required, o))
  }

  predicate AllDistinct(observations: seq<Observation>) {
    forall o <- observations :: DistinctIds(o)
  }

  lemma SelectedDistinct(required: Requirement, o: Observation)
    requires DistinctIds(o)
    ensures DistinctIds(Selected(required, o))
  {
  }

  lemma SettledIsConcluded(required: Requirement, observations: seq<Observation>)
    requires AllDistinct(observations)
    ensures Settled(required, observations) <==> Concluded(required, observations)
  {
    hide Matched, Selected, Quiet, Answered, DistinctIds;
    forall o | o in observations
      ensures NoneBlocking(required, o) <==> Quiet(required, Selected(required, o))
      ensures SomeTerminal(required, o) <==> Answered(required, Selected(required, o))
    {
      SelectedDistinct(required, o);
      MatchedIsNewest(required, Selected(required, o));
    }
  }

  /** A name some commit reports a check or a status under. */
  predicate Reports(o: Observation, name: string) {
    (exists c <- o.checks :: c.name == name) || exists s <- o.statuses :: s.context == name
  }

  /** The requirements that a release has to settle, as a set. */
  predicate Required(
    policy: Policy, inventory: Inventory, mapping: Mapping, observations: seq<Observation>, required: Requirement)
  {
    if Fallback(policy, inventory, mapping) then
      required == Observed(required.context) && exists o <- observations :: Reports(o, required.context)
    else required in inventory.requirements
  }

  lemma NamesAreReported(o: Observation, name: string)
    ensures name in CheckNames(o.checks) + StatusNames(o.statuses) <==> Reports(o, name)
  {
    var checks, statuses := CheckNames(o.checks), StatusNames(o.statuses);
    if c :| c in o.checks && c.name == name {
      var i :| 0 <= i < |o.checks| && o.checks[i] == c;
      assert checks[i] == name;
    }
    if s :| s in o.statuses && s.context == name {
      var i :| 0 <= i < |o.statuses| && o.statuses[i] == s;
      assert statuses[i] == name;
    }
    if name in checks {
      var i :| 0 <= i < |checks| && checks[i] == name;
      assert o.checks[i] in o.checks;
    }
    if name in statuses {
      var i :| 0 <= i < |statuses| && statuses[i] == name;
      assert o.statuses[i] in o.statuses;
    }
  }

  lemma {:induction false} AllNamesAre(observations: seq<Observation>, name: string)
    ensures name in AllNames(observations) <==> exists o <- observations :: Reports(o, name)
  {
    hide Reports;
    if |observations| > 0 {
      var front, last := observations[..|observations| - 1], observations[|observations| - 1];
      AllNamesAre(front, name);
      NamesAreReported(last, name);
      assert forall o :: o in observations <==> o in front || o == last by {
        assert observations == front + [last];
      }
      assert AllNames(observations) == AllNames(front) + (CheckNames(last.checks) + StatusNames(last.statuses));
    }
  }

  lemma RequirementsAre(
    policy: Policy, inventory: Inventory, mapping: Mapping, observations: seq<Observation>, required: Requirement)
    ensures required in Requirements(policy, inventory, mapping, observations) <==>
            Required(policy, inventory, mapping, observations, required)
  {
    ForNamesAre(AllNames(observations));
    AllNamesAre(observations, required.context);
    hide AllNames, ForNames, Reports;
  }

  /** A review is released as complete exactly when the newest evidence of every requirement,
      on every commit, is final, identified and observed, and every requirement has some. */
  lemma ReleasedExactly(
    policy: Policy, inventory: Inventory, mapping: Mapping, observations: seq<Observation>,
    graceAnchor: int, now: int, deadline: int)
    requires AllDistinct(observations)
    ensures Decision(policy, inventory, mapping, observations, graceAnchor, now, deadline).CompletedCI? <==>
            && policy.start.StartAfterCI? && Usable(inventory, mapping)
            && observations != [] && AllObserved(policy, observations)
            && (forall required | Required(policy, inventory, mapping, observations, required) ::
                  Concluded(required, observations))
            && (Fallback(policy, inventory, mapping) ==>
                  now >= graceAnchor + policy.grace &&
                  exists required :: Required(policy, inventory, mapping, observations, required))
  {
    hide Settled, Concluded, Fallback, Required, Requirements, Usable, AllObserved;
    var requirements := Requirements(policy, inventory, mapping, observations);
    forall required
      ensures required in requirements <==> Required(policy, inventory, mapping, observations, required)
      ensures Settled(required, observations) <==> Concluded(required, observations)
    {
      RequirementsAre(policy, inventory, mapping, observations, required);
      SettledIsConcluded(required, observations);
    }
    if requirements != [] {
      assert requirements[0] in requirements;
    }
  }

  /** Absence of CI releases only on an empty policy, with every commit fully observed and bare, after the grace. */
  lemma NoCIExactly(
    policy: Policy, inventory: Inventory, mapping: Mapping, observations: seq<Observation>,
    graceAnchor: int, now: int, deadline: int)
    ensures Decision(policy, inventory, mapping, observations, graceAnchor, now, deadline).NoCIAfterGrace? <==>
            && policy.start.StartAfterCI? && Fallback(policy, inventory, mapping)
            && observations != [] && (forall o <- observations :: Complete(o) && o.checks == [] && o.statuses == [])
            && now >= graceAnchor + policy.grace
  {
    hide Settled, Usable;
    var requirements := Requirements(policy, inventory, mapping, observations);
    if Fallback(policy, inventory, mapping) {
      forall o, name | o in observations && Reports(o, name) ensures Observed(name) in requirements {
        RequirementsAre(policy, inventory, mapping, observations, Observed(name));
      }
      forall o | o in observations ensures requirements == [] ==> o.checks == [] && o.statuses == [] {
        if o.checks != [] {
          assert o.checks[0] in o.checks;
          assert Reports(o, o.checks[0].name);
        }
        if o.statuses != [] {
          assert o.statuses[0] in o.statuses;
          assert Reports(o, o.statuses[0].context);
        }
      }
      if requirements != [] {
        assert requirements[0] in requirements;
        RequirementsAre(policy, inventory, mapping, observations, requirements[0]);
      }
    }
  }

  /** Any commit that speaks against a requirement keeps the review waiting until the deadline. */
  lemma UnquietKeepsWaiting(
    policy: Policy, inventory: Inventory, mapping: Mapping, observations: seq<Observation>,
    graceAnchor: int, now: int, deadline: int, required: Requirement, o: Observation)
    requires AllDistinct(observations) && policy.start.StartAfterCI? && o in observations
    requires Required(policy, inventory, mapping, observations, required)
    requires !Quiet(required, Selected(required, o))
    ensures Decision(policy, inventory, mapping, observations, graceAnchor, now, deadline) ==
            if now >= deadline then TimeoutIncomplete else Waiting
  {
    hide Usable, Newest, Selected, Fallback, Required, Requirements, AllObserved, AllComplete, Quiet;
    SettledIsConcluded(required, observations);
    RequirementsAre(policy, inventory, mapping, observations, required);
    assert !AllComplete(policy, inventory, mapping, observations) by {
      NotComplete(policy, inventory, mapping, observations, required);
    }
  }

  /** A newest run that is not finished, on any commit, keeps the review waiting until the deadline. */
  lemma NewerRunKeepsWaiting(
    policy: Policy, inventory: Inventory, mapping: Mapping, observations: seq<Observation>,
    graceAnchor: int, now: int, deadline: int, required: Requirement, o: Observation, c: Check)
    requires AllDistinct(observations) && policy.start.StartAfterCI? && o in observations
    requires Required(policy, inventory, mapping, observations, required)
    requires Newest(required, Selected(required, o).checks, c) && c.status != "completed"
    ensures Decision(policy, inventory, mapping, observations, graceAnchor, now, deadline) ==
            if now >= deadline then TimeoutIncomplete else Waiting
  {
    hide AllDistinct, Newest, Selected, Required, Decision, AnyAnonymous, Failed, QuietStatuses;
    NewestIsMember(required, Selected(required, o).checks, c);
    UnquietKeepsWaiting(policy, inventory, mapping, observations, graceAnchor, now, deadline, required, o);
  }

  /** And so does a newest status that is pending, or that cannot show the application the requirement names. */
  lemma NewerStatusKeepsWaiting(
    policy: Policy, inventory: Inventory, mapping: Mapping, observations: seq<Observation>,
    graceAnchor: int, now: int, deadline: int, required: Requirement, o: Observation, status: Status)
    requires AllDistinct(observations) && policy.start.StartAfterCI? && o in observations
    requires Required(policy, inventory, mapping, observations, required)
    requires NewestStatus(required.context, Selected(required, o).statuses, status)
    requires status.state == "pending" || required.app != 0
    ensures Decision(policy, inventory, mapping, observations, graceAnchor, now, deadline) ==
            if now >= deadline then TimeoutIncomplete else Waiting
  {
    hide AllDistinct, Selected, Required, Decision, Failed, QuietChecks;
    assert status in Selected(required, o).statuses;
    UnquietKeepsWaiting(policy, inventory, mapping, observations, graceAnchor, now, deadline, required, o);
  }

  lemma NewestIsMember(required: Requirement, checks: seq<Check>, c: Check)
    requires Newest(required, checks, c)
    ensures c in checks
  {
  }

  lemma NotComplete(
    policy: Policy, inventory: Inventory, mapping: Mapping, observations: seq<Observation>, required: Requirement)
    requires required in Requirements(policy, inventory, mapping, observations) && !Settled(required, observations)
    ensures !AllComplete(policy, inventory, mapping, observations)
  {
  }

  // ----- Time -----

  /** The wait is over at the deadline, whatever was observed. */
  lemma NeverWaitsPastDeadline(
    policy: Policy, inventory: Inventory, mapping: Mapping, observations: seq<Observation>,
    graceAnchor: int, now: int, deadline: int)
    requires now >= deadline
    ensures !Decision(policy, inventory, mapping, observations, graceAnchor, now, deadline).Waiting?
  {
    hide AllComplete, Fallback, Requirements;
  }

  /** On the same evidence a release is never taken back, and a release by CI keeps its reason. */
  lemma NeverWaitsAgain(
    policy: Policy, inventory: Inventory, mapping: Mapping, observations: seq<Observation>,
    graceAnchor: int, now: int, later: int, deadline: int)
    requires now <= later
    ensures var before := Decision(policy, inventory, mapping, observations, graceAnchor, now, deadline);
            var after := Decision(policy, inventory, mapping, observations, graceAnchor, later, deadline);
            (!before.Waiting? ==> !after.Waiting?) &&
              (!before.Waiting? && !before.TimeoutIncomplete? ==> after == before)
  {
    hide AllComplete, Fallback, Requirements;
  }

  // ----- Order -----

  /** The same commits with the same evidence, in any order of commits, checks, statuses and failures. */
  predicate SameEvidence(a: seq<Observation>, b: seq<Observation>) {
    && (forall o <- a :: exists p <- b :: Reordered(o, p))
    && (forall p <- b :: exists o <- a :: Reordered(o, p))
  }

  lemma SelectedReordered(required: Requirement, o: Observation, p: Observation)
    requires Reordered(o, p)
    ensures Reordered(Selected(required, o), Selected(required, p))
  {
    ConcerningKeeps(o.failures, Operation(required));
    ConcerningKeeps(p.failures, Operation(required));
    EmptyAlike(o.failures, p.failures);
    var a, b := Concerning(o.failures, Operation(required)), Concerning(p.failures, Operation(required));
    assert SameElements(a, b);
    EmptyAlike(a, b);
    hide Concerning;
  }

  lemma EmptyAlike<T>(a: seq<T>, b: seq<T>)
    requires SameElements(a, b)
    ensures a == [] <==> b == []
  {
    assert a != [] ==> a[0] in a;
    assert b != [] ==> b[0] in b;
  }

  lemma SameMatches(required: Requirement, o: Observation, p: Observation)
    requires Reordered(o, p) && DistinctIds(o) && DistinctIds(p)
    ensures NoneBlocking(required, o) == NoneBlocking(required, p)
    ensures SomeTerminal(required, o) == SomeTerminal(required, p)
  {
    hide Matched, Selected, DistinctIds, Reordered;
    SelectedDistinct(required, o);
    SelectedDistinct(required, p);
    SelectedReordered(required, o, p);
    MatchedIgnoresOrder(required, Selected(required, o), Selected(required, p));
  }

  lemma SettledAlike(required: Requirement, a: seq<Observation>, b: seq<Observation>)
    requires SameEvidence(a, b) && AllDistinct(a) && AllDistinct(b) && Settled(required, a)
    ensures Settled(required, b)
  {
    hide NoneBlocking, SomeTerminal, DistinctIds, Reordered;
    TerminalAlike(required, a, b);
    forall p | p in b ensures NoneBlocking(required, p) {
      var o :| o in a && Reordered(o, p);
      assert NoneBlocking(required, o);
      SameMatches(required, o, p);
    }
  }

  lemma TerminalAlike(required: Requirement, a: seq<Observation>, b: seq<Observation>)
    requires SameEvidence(a, b) && AllDistinct(a) && AllDistinct(b)
    requires exists o <- a :: SomeTerminal(required, o)
    ensures exists p <- b :: SomeTerminal(required, p)
  {
    hide SomeTerminal, DistinctIds, Reordered;
    var o :| o in a && SomeTerminal(required, o);
    var p :| p in b && Reordered(o, p);
    SameMatches(required, o, p);
    assert SomeTerminal(required, p);
  }

  lemma ReorderedSymmetric(o: Observation, p: Observation)
    requires Reordered(o, p)
    ensures Reordered(p, o)
  {
  }

  lemma SameEvidenceSymmetric(a: seq<Observation>, b: seq<Observation>)
    requires SameEvidence(a, b)
    ensures SameEvidence(b, a)
  {
    hide Reordered;
    forall o, p | Reordered(o, p) ensures Reordered(p, o) {
      ReorderedSymmetric(o, p);
    }
  }

  lemma ReorderedReports(o: Observation, p: Observation, name: string)
    requires Reordered(o, p) && Reports(o, name)
    ensures Reports(p, name)
  {
  }

  lemma ReorderedComplete(o: Observation, p: Observation)
    requires Reordered(o, p) && Complete(o)
    ensures Complete(p)
  {
    EmptyAlike(o.failures, p.failures);
  }

  lemma ReportsAlike(a: seq<Observation>, b: seq<Observation>, name: string)
    requires SameEvidence(a, b) && exists o <- a :: Reports(o, name)
    ensures exists p <- b :: Reports(p, name)
  {
    hide Reordered, Reports;
    var o :| o in a && Reports(o, name);
    var p :| p in b && Reordered(o, p);
    ReorderedReports(o, p, name);
  }

  lemma RequiredAlike(
    policy: Policy, inventory: Inventory, mapping: Mapping, a: seq<Observation>, b: seq<Observation>,
    required: Requirement)
    requires SameEvidence(a, b) && required in Requirements(policy, inventory, mapping, a)
    ensures required in Requirements(policy, inventory, mapping, b)
  {
    hide Fallback, Requirements, SameEvidence, Reports;
    RequirementsAre(policy, inventory, mapping, a, required);
    RequirementsAre(policy, inventory, mapping, b, required);
    if Fallback(policy, inventory, mapping) {
      ReportsAlike(a, b, required.context);
    }
  }

  lemma ObservedAlike(policy: Policy, a: seq<Observation>, b: seq<Observation>)
    requires SameEvidence(a, b) && AllObserved(policy, a) && a != []
    ensures AllObserved(policy, b) && b != []
  {
    hide Reordered, Complete;
    assert a[0] in a;
    assert b != [] by {
      var p :| p in b && Reordered(a[0], p);
    }
    forall p | p in b && !policy.selection.Explicit? ensures Complete(p) {
      var o :| o in a && Reordered(o, p);
      ReorderedComplete(o, p);
    }
  }

  lemma CompleteAlike(policy: Policy, inventory: Inventory, mapping: Mapping, a: seq<Observation>, b: seq<Observation>)
    requires SameEvidence(a, b) && AllDistinct(a) && AllDistinct(b) && AllComplete(policy, inventory, mapping, a)
    ensures AllComplete(policy, inventory, mapping, b)
  {
    hide Settled, Usable, Requirements, AllDistinct, SameEvidence, AllObserved;
    ObservedAlike(policy, a, b);
    SameEvidenceSymmetric(a, b);
    forall required | required in Requirements(policy, inventory, mapping, b) ensures Settled(required, b) {
      RequiredAlike(policy, inventory, mapping, b, a, required);
      SettledAlike(required, a, b);
    }
  }

  /** The decision does not depend on the order in which commits, checks and statuses are listed. */
  lemma DecisionIgnoresOrder(
    policy: Policy, inventory: Inventory, mapping: Mapping, a: seq<Observation>, b: seq<Observation>,
    graceAnchor: int, now: int, deadline: int)
    requires SameEvidence(a, b) && AllDistinct(a) && AllDistinct(b)
    ensures Decision(policy, inventory, mapping, a, graceAnchor, now, deadline) ==
            Decision(policy, inventory, mapping, b, graceAnchor, now, deadline)
  {
    hide AllComplete, Fallback, Requirements, SameEvidence;
    SameEvidenceSymmetric(a, b);
    if AllComplete(policy, inventory, mapping, a) {
      CompleteAlike(policy, inventory, mapping, a, b);
    }
    if AllComplete(policy, inventory, mapping, b) {
      CompleteAlike(policy, inventory, mapping, b, a);
    }
    var x, y := Requirements(policy, inventory, mapping, a), Requirements(policy, inventory, mapping, b);
    forall required ensures required in x <==> required in y {
      if required in x {
        RequiredAlike(policy, inventory, mapping, a, b, required);
      }
      if required in y {
        RequiredAlike(policy, inventory, mapping, b, a, required);
      }
    }
    assert x == [] <==> y == [] by {
      assert x != [] ==> x[0] in x;
      assert y != [] ==> y[0] in y;
    }
  }
}
