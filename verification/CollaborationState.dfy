/** The conversation aggregate as the program keeps it: an object whose fields its operations update in place.

  `history` records the operations; `Valid()` says that the fields are what these operations make of an empty
  conversation.  Each operation computes the state that `Steps` specifies for it, and each query the specified answer.
 */
module CollaborationState {
  import opened Basics
  import opened Names
  import opened Conversation
  import opened Evidence
  import opened Steps
  import opened Invariants
  import opened Preservation

  /** One more operation of a run. */
  lemma RunStep(steps: seq<Step>, step: Step)
    ensures Run(EMPTY, steps + [step]) == Apply(Run(EMPTY, steps), step)
  {
    assert (steps + [step])[..|steps + [step]| - 1] == steps;
  }

  class State {
    var interpretationSequence: nat
    var assessments: seq<Assessment>
    var references: seq<Reference>
    var planning: Option<Planning>
    var preparations: seq<Preparation>
    var rounds: seq<Round>
    var inputs: seq<Input>
    var receipts: seq<Receipt>
    var currentRound: Id

    /** The operations performed so far, in order. */
    ghost var history: seq<Step>

    ghost function View(): Snapshot
      reads this
    {
      Snapshot(interpretationSequence, assessments, references, planning, preparations, rounds, inputs, receipts,
        currentRound)
    }

    /** The object holds exactly what its history of operations makes of an empty conversation. */
    ghost predicate Valid()
      reads this
    {
      View() == Run(EMPTY, history)
    }

    constructor ()
      ensures Valid() && history == [] && View() == EMPTY
    {
      interpretationSequence := 0;
      assessments := [];
      references := [];
      planning := None;
      preparations := [];
      rounds := [];
      inputs := [];
      receipts := [];
      currentRound := NO_ID;
      history := [];
    }

    lemma ValidGood()
      requires Valid()
      ensures Good(View())
    {
      EmptyGood();
      RunGood(EMPTY, history);
    }

    lemma ValidEvidence()
      requires Valid()
      ensures DistinctInputs(inputs) && AmendsEarlier(inputs)
    {
      ValidGood();
    }

    lemma ValidSequences()
      requires Valid()
      ensures SequencesOk(rounds, interpretationSequence)
    {
      ValidGood();
    }

    // ----- Evidence -----

    method ParentOf(id: Id) returns (parent: Id)
      ensures parent == Parent(inputs, id)
    {
      parent := NO_ID;
      var i := 0;
      while i < |inputs|
        invariant 0 <= i <= |inputs| && Parent(inputs, id) == Parent(inputs[i..], id)
      {
        if inputs[i].id == id {
          return inputs[i].amends;
        }
        assert inputs[i..][1..] == inputs[i + 1..];
        i := i + 1;
      }
    }

    /** Follows amendments upwards; it ends because every amendment names an earlier input. */
    method AmendsTransitively(start: Id, prior: Id) returns (found: bool)
      requires Valid()
      ensures found <==> Amends(inputs, start, prior)
    {
      hide Valid, Ancestor, Parent;
      ValidEvidence();
      var id := start;
      ghost var n: nat := 0;
      AncestorSteps(inputs, start);
      ghost var bound := |inputs|;
      while id != NO_ID
        invariant id == Ancestor(inputs, start, n) && (n > 0 ==> id != NO_ID)
        invariant forall m :: 1 <= m <= n ==> Ancestor(inputs, start, m) != prior
        invariant forall i :: 0 <= i < |inputs| && inputs[i].id == id ==> i < bound
        decreases bound
      {
        var parent := ParentOf(id);
        if parent == NO_ID {
          forall m: nat | m >= 1 && prior != NO_ID ensures Ancestor(inputs, start, m) != prior {
            if m > n {
              AncestorsStop(inputs, start, n, m);
            }
          }
          return false;
        }
        assert Ancestor(inputs, start, n + 1) == parent by {
          AncestorSteps(inputs, start);
        }
        if parent == prior {
          return true;
        }
        if !HasInput(inputs, id) {
          NoParent(inputs, id);
        }
        ghost var i :| 0 <= i < |inputs| && inputs[i].id == id;
        ParentIsAmends(inputs, i);
        bound := i;
        id := parent;
        n := n + 1;
      }
      forall m: nat ensures Ancestor(inputs, start, m) == NO_ID {
        AncestorsOfNone(inputs, m);
      }
      found := false;
    }

    method ExplicitlyCorrects(id: Id, prior: Id) returns (found: bool)
      ensures found <==> Corrects(assessments, id, prior)
    {
      for i := 0 to |assessments|
        invariant forall j :: 0 <= j < i ==> !CorrectsIn(assessments[j], id, prior)
      {
        var a := assessments[i];
        if a.inputId == id && a.disposition == Changed && prior in a.corrects {
          assert CorrectsIn(assessments[i], id, prior);
          return true;
        }
      }
      found := false;
    }

    /** Depth-first search that marks an identity before following its amendment and its corrections. */
    method Visit(id: Id, seen: set<Id>, ghost universe: set<Id>) returns (out: set<Id>)
      requires id != NO_ID ==> id in universe
      requires forall x, y :: x in universe && Edge(inputs, assessments, x, y) ==> y in universe
      ensures seen <= out && out <= seen + universe
      ensures id != NO_ID ==> id in out
      ensures NO_ID in out ==> NO_ID in seen
      ensures forall x, y :: x in out && x !in seen && Edge(inputs, assessments, x, y) ==> y in out
      ensures forall x :: x in out && x !in seen ==> Reaches(inputs, assessments, id, x)
      decreases universe - seen
    {
      out := seen;
      if id == NO_ID || id in seen {
        return;
      }
      out := seen + {id};
      ReachesSelf(inputs, assessments, id);
      var parent := ParentOf(id);
      if parent != NO_ID {
        assert Edge(inputs, assessments, id, parent);
      }
      ghost var marked := out;
      out := Visit(parent, out, universe);
      forall x | x in out && x !in marked ensures Reaches(inputs, assessments, id, x) {
        ReachesVia(inputs, assessments, id, parent, x);
      }
      for i := 0 to |assessments|
        invariant seen + {id} <= out <= seen + universe && parent in out + {NO_ID} && (NO_ID in out ==> NO_ID in seen)
        invariant forall x, y :: x in out && x !in seen && x != id && Edge(inputs, assessments, x, y) ==> y in out
        invariant forall x :: x in out && x !in seen ==> Reaches(inputs, assessments, id, x)
        invariant forall j :: 0 <= j < i ==> Followed(assessments[j], id, out, |assessments[j].corrects|)
      {
        var a := assessments[i];
        if a.inputId == id && a.disposition == Changed {
          for k := 0 to |a.corrects|
            invariant seen + {id} <= out <= seen + universe && parent in out + {NO_ID} &&
                      (NO_ID in out ==> NO_ID in seen)
            invariant forall x, y :: x in out && x !in seen && x != id && Edge(inputs, assessments, x, y) ==> y in out
            invariant forall x :: x in out && x !in seen ==> Reaches(inputs, assessments, id, x)
            invariant forall j :: 0 <= j < i ==> Followed(assessments[j], id, out, |assessments[j].corrects|)
            invariant Followed(a, id, out, k)
          {
            var prior := a.corrects[k];
            assert CorrectsIn(assessments[i], id, prior);
            ghost var before := out;
            out := Visit(prior, out, universe);
            forall x | x in out && x !in before ensures Reaches(inputs, assessments, id, x) {
              ReachesVia(inputs, assessments, id, prior, x);
            }
          }
        }
      }
      forall y | Edge(inputs, assessments, id, y) ensures y in out {
        if Parent(inputs, id) != y {
          var j :| 0 <= j < |assessments| && CorrectsIn(assessments[j], id, y);
          assert Followed(assessments[j], id, out, |assessments[j].corrects|);
        }
      }
    }

    /** The first `n` corrections recorded by an assessment of `id` have been marked. */
    ghost predicate Followed(a: Assessment, id: Id, out: set<Id>, n: nat) {
      a.inputId == id && a.disposition == Changed ==>
        forall m :: 0 <= m < n && m < |a.corrects| ==> a.corrects[m] in out + {NO_ID}
    }

    /** Exactly the inputs whose evidence `id` carries on, even when corrections refer back to each other. */
    method EvidenceLineage(id: Id) returns (lineage: set<Id>)
      ensures forall x :: x in lineage <==> Reaches(inputs, assessments, id, x)
    {
      ghost var universe := {id} + (set i | 0 <= i < |inputs| :: inputs[i].amends) +
        (set i, k | 0 <= i < |assessments| && 0 <= k < |assessments[i].corrects| :: assessments[i].corrects[k]);
      forall x, y | Edge(inputs, assessments, x, y) ensures y in universe {
        if Parent(inputs, x) == y {
          ParentListed(inputs, x);
        } else {
          var i :| 0 <= i < |assessments| && CorrectsIn(assessments[i], x, y);
          var k :| 0 <= k < |assessments[i].corrects| && assessments[i].corrects[k] == y;
        }
      }
      lineage := Visit(id, {}, universe);
      forall x | Reaches(inputs, assessments, id, x) ensures x in lineage {
        var path :| |path| > 0 && path[0] == id && path[|path| - 1] == x && Path(inputs, assessments, path);
        ClosedContains(inputs, assessments, lineage, path);
      }
    }

    method IsAmendmentOfEvidence(id: Id, prior: Id) returns (found: bool)
      ensures found <==> AmendsEvidence(inputs, assessments, id, prior)
    {
      var amendment := false;
      for i := 0 to |inputs|
        invariant amendment <==> exists j :: 0 <= j < i && inputs[j].id == id && inputs[j].amends != NO_ID
      {
        if inputs[i].id == id && inputs[i].amends != NO_ID {
          amendment := true;
        }
      }
      if !amendment {
        return false;
      }
      var lineage := EvidenceLineage(id);
      var rest := EvidenceLineage(prior);
      ghost var all := rest;
      while rest != {}
        invariant rest <= all
        invariant forall x :: x in all && x !in rest ==> x !in lineage
      {
        var ancestor :| ancestor in rest;
        if ancestor in lineage {
          assert Reaches(inputs, assessments, id, ancestor) && Reaches(inputs, assessments, prior, ancestor);
          return true;
        }
        rest := rest - {ancestor};
      }
      found := false;
    }

    method RevisesAnyOf(id: Id, priors: seq<Id>) returns (found: bool)
      ensures found <==> RevisesAny(inputs, assessments, id, priors)
    {
      for k := 0 to |priors|
        invariant forall j :: 0 <= j < k ==> !Revises(inputs, assessments, id, priors[j])
      {
        var amendment := IsAmendmentOfEvidence(id, priors[k]);
        var correction := ExplicitlyCorrects(id, priors[k]);
        if amendment || correction {
          assert Revises(inputs, assessments, id, priors[k]);
          return true;
        }
      }
      found := false;
    }

    // ----- Interpretations -----

    method LatestResolution(rs: seq<Resolution>, question: Id) returns (r: Option<Resolution>)
      ensures r == Latest(rs, question)
    {
      var i := |rs|;
      assert rs[..i] == rs;
      while i > 0
        invariant 0 <= i <= |rs| && Latest(rs, question) == Latest(rs[..i], question)
      {
        i := i - 1;
        assert rs[..i + 1][..i] == rs[..i];
        if rs[i].questionId == question {
          return Some(rs[i]);
        }
      }
      r := None;
    }

    method CoversInput(r: Resolution, id: Id) returns (covered: bool)
      requires Valid()
      ensures covered <==> Covers(inputs, r, id)
    {
      if id in r.responseIds || id in r.considered {
        return true;
      }
      for k := 0 to |r.responseIds|
        invariant forall j :: 0 <= j < k ==> !Amends(inputs, r.responseIds[j], id)
      {
        var amends := AmendsTransitively(r.responseIds[k], id);
        if amends {
          return true;
        }
      }
      covered := false;
    }

    method ResolutionCurrent(r: Resolution) returns (current: bool)
      requires Valid()
      ensures current <==> Current(inputs, assessments, r)
    {
      if r.obsolete {
        return true;
      }
      for i := 0 to |inputs|
        invariant forall j :: 0 <= j < i && !Covers(inputs, r, inputs[j].id) ==>
                    !RevisesAny(inputs, assessments, inputs[j].id, r.responseIds)
      {
        var covered := CoversInput(r, inputs[i].id);
        if !covered {
          var competing := RevisesAnyOf(inputs[i].id, r.responseIds);
          if competing {
            return false;
          }
        }
      }
      current := true;
    }

    method MayRevise(old_: Option<Resolution>, next: Resolution) returns (allowed: bool)
      ensures allowed <==> CanRevise(inputs, assessments, old_, next)
    {
      if old_.None? || old_.value.obsolete || next.obsolete {
        return true;
      }
      for k := 0 to |next.responseIds|
        invariant forall j :: 0 <= j < k ==>
                  !RevisesAny(inputs, assessments, next.responseIds[j], old_.value.responseIds)
      {
        var revises := RevisesAnyOf(next.responseIds[k], old_.value.responseIds);
        if revises {
          return true;
        }
      }
      allowed := false;
    }

    /** The most recently recorded interpretation of each question, found by following sequence numbers. */
    method EffectiveInterpretations(participant: Id) returns (effective: map<Id, Resolution>)
      requires Valid()
      ensures forall q, r :: Governs(rounds, participant, q, r) <==> q in effective && effective[q] == r
    {
      hide Valid, SequencesOk, Effective, Governs, Latest;
      ValidSequences();
      effective := map[];
      EffectiveNone(participant);
      for i := 0 to |rounds|
        invariant Effective(participant, effective, i, 0)
      {
        var round := rounds[i];
        if round.participant == participant && round.published {
          for k := 0 to |round.questions|
            invariant Effective(participant, effective, i, k)
          {
            var q := round.questions[k].id;
            var r := LatestResolution(round.resolutions, q);
            ghost var before := effective;
            if r.Some? && (q !in effective || r.value.sequence >= effective[q].sequence) {
              effective := effective[q := r.value];
            }
            EffectiveExtended(participant, before, effective, i, k);
          }
          EffectiveRoundDone(participant, effective, i);
        } else {
          EffectiveRoundSkipped(participant, effective, i);
        }
      }
      EffectiveGoverns(participant, effective);
    }

    /** The current round of this participant has a question without a current interpretation. */
    method FrontierOpen(participant: Id) returns (open: bool)
      requires Valid()
      ensures open <==> exists q, i :: 0 <= i < |rounds| && OpenIn(View(), participant, q, i)
    {
      hide Current, Valid, Latest;
      for i := 0 to |rounds|
        invariant forall j, q :: 0 <= j < i ==> !OpenIn(View(), participant, q, j)
      {
        if rounds[i].id == currentRound && rounds[i].participant == participant {
          for k := 0 to |rounds[i].questions|
            invariant forall m :: 0 <= m < k ==> !OpenIn(View(), participant, rounds[i].questions[m].id, i)
          {
            var q := rounds[i].questions[k].id;
            assert Asks(rounds[i].questions, q);
            var r := LatestResolution(rounds[i].resolutions, q);
            var current := false;
            if r.Some? {
              current := ResolutionCurrent(r.value);
            }
            if !current {
              assert OpenIn(View(), participant, q, i);
              return true;
            }
          }
        }
      }
      open := false;
    }

    /** The completion fence: some question of the participant lacks a current governing interpretation. */
    method IsUnresolved(participant: Id) returns (unresolved: bool)
      requires Valid()
      ensures unresolved <==> Unresolved(View(), participant)
    {
      hide Current, Governs, OpenIn, Valid;
      var effective := EffectiveInterpretations(participant);
      var rest := effective.Keys;
      while rest != {}
        invariant rest <= effective.Keys
        invariant forall q :: q in effective.Keys && q !in rest ==> Current(inputs, assessments, effective[q])
      {
        var q :| q in rest;
        var current := ResolutionCurrent(effective[q]);
        if !current {
          assert Governs(rounds, participant, q, effective[q]);
          assert Blocks(View(), participant, q);
          return true;
        }
        rest := rest - {q};
      }
      unresolved := FrontierOpen(participant);
      if unresolved {
        ghost var q, i :| 0 <= i < |rounds| && OpenIn(View(), participant, q, i);
        assert Blocks(View(), participant, q);
      }
    }

    /** Round `i`'s opinion on `q` lies before question `k` of round `n` in the scan. */
    ghost predicate Scanned(participant: Id, q: Id, i: int, n: int, k: int)
      reads this
      requires 0 <= i < |rounds|
    {
      Opines(rounds, participant, q, i) &&
        (i < n || (i == n && exists m :: 0 <= m < k && m < |rounds[i].questions| && rounds[i].questions[m].id == q))
    }

    /** The scan so far holds, for each question, the opinion with the highest sequence number. */
    ghost predicate Effective(participant: Id, effective: map<Id, Resolution>, n: int, k: int)
      reads this
    {
      Holds(participant, effective, n, k) && Bounds(participant, effective, n, k)
    }

    ghost predicate Holds(participant: Id, effective: map<Id, Resolution>, n: int, k: int)
      reads this
    {
      forall q :: q in effective ==>
        exists i :: 0 <= i < |rounds| && Scanned(participant, q, i, n, k) &&
                    Latest(rounds[i].resolutions, q) == Some(effective[q])
    }

    ghost predicate Bounds(participant: Id, effective: map<Id, Resolution>, n: int, k: int)
      reads this
    {
      forall i, q :: 0 <= i < |rounds| && Scanned(participant, q, i, n, k) ==>
        q in effective && Latest(rounds[i].resolutions, q).value.sequence <= effective[q].sequence
    }

    lemma EffectiveNone(participant: Id)
      ensures Effective(participant, map[], 0, 0)
    {
    }

    /** `after` takes the opinion of round `n` on the question, unless what is there is more recent. */
    predicate Advances(before: map<Id, Resolution>, after: map<Id, Resolution>, n: nat, q: Id)
      reads this
      requires n < |rounds|
    {
      var r := Latest(rounds[n].resolutions, q);
      after == if r.Some? && (q !in before || r.value.sequence >= before[q].sequence) then before[q := r.value]
               else before
    }

    lemma EffectiveExtended(participant: Id, before: map<Id, Resolution>, after: map<Id, Resolution>, n: nat, k: nat)
      requires n < |rounds| && k < |rounds[n].questions| && Effective(participant, before, n, k)
      requires rounds[n].participant == participant && rounds[n].published
      requires Advances(before, after, n, rounds[n].questions[k].id)
      ensures Effective(participant, after, n, k + 1)
    {
      hide Holds, Bounds, Advances;
      HoldsExtended(participant, before, after, n, k);
      BoundsExtended(participant, before, after, n, k);
    }

    lemma HoldsExtended(participant: Id, before: map<Id, Resolution>, after: map<Id, Resolution>, n: nat, k: nat)
      requires n < |rounds| && k < |rounds[n].questions| && Effective(participant, before, n, k)
      requires rounds[n].participant == participant && rounds[n].published
      requires Advances(before, after, n, rounds[n].questions[k].id)
      ensures Holds(participant, after, n, k + 1)
    {
      hide Bounds;
      var asked := rounds[n].questions[k].id;
      assert Asks(rounds[n].questions, asked);
      forall q | q in after
        ensures exists i :: 0 <= i < |rounds| && Scanned(participant, q, i, n, k + 1) &&
                            Latest(rounds[i].resolutions, q) == Some(after[q])
      {
        if q == asked && after != before {
          assert Scanned(participant, q, n, n, k + 1);
        } else {
          var i :| 0 <= i < |rounds| && Scanned(participant, q, i, n, k) &&
            Latest(rounds[i].resolutions, q) == Some(before[q]);
          assert Scanned(participant, q, i, n, k + 1);
        }
      }
    }

    lemma BoundsExtended(participant: Id, before: map<Id, Resolution>, after: map<Id, Resolution>, n: nat, k: nat)
      requires n < |rounds| && k < |rounds[n].questions| && Effective(participant, before, n, k)
      requires rounds[n].participant == participant && rounds[n].published
      requires Advances(before, after, n, rounds[n].questions[k].id)
      ensures Bounds(participant, after, n, k + 1)
    {
      hide Holds;
      var asked := rounds[n].questions[k].id;
      forall i, q | 0 <= i < |rounds| && Scanned(participant, q, i, n, k + 1)
        ensures q in after && Latest(rounds[i].resolutions, q).value.sequence <= after[q].sequence
      {
        if !Scanned(participant, q, i, n, k) {
          assert i == n && q == asked;
        }
      }
    }

    lemma EffectiveRoundDone(participant: Id, effective: map<Id, Resolution>, n: nat)
      requires n < |rounds| && Effective(participant, effective, n, |rounds[n].questions|)
      ensures Effective(participant, effective, n + 1, 0)
    {
      forall i, q | 0 <= i < |rounds|
        ensures Scanned(participant, q, i, n + 1, 0) <==> Scanned(participant, q, i, n, |rounds[n].questions|)
      {
        if i == n && Opines(rounds, participant, q, i) {
          var m :| 0 <= m < |rounds[n].questions| && rounds[n].questions[m].id == q;
        }
      }
    }

    lemma EffectiveRoundSkipped(participant: Id, effective: map<Id, Resolution>, n: nat)
      requires n < |rounds| && Effective(participant, effective, n, 0)
      requires rounds[n].participant != participant || !rounds[n].published
      ensures Effective(participant, effective, n + 1, 0)
    {
      forall i, q | 0 <= i < |rounds|
        ensures Scanned(participant, q, i, n + 1, 0) <==> Scanned(participant, q, i, n, 0)
      {
      }
    }

    /** At the end of the scan the map holds exactly the governing interpretations. */
    lemma EffectiveGoverns(participant: Id, effective: map<Id, Resolution>)
      requires Effective(participant, effective, |rounds|, 0) && SequencesOk(rounds, interpretationSequence)
      ensures forall q, r :: Governs(rounds, participant, q, r) <==> q in effective && effective[q] == r
    {
      hide Opines, SequencesOk;
      forall q, i | 0 <= i < |rounds|
        ensures Scanned(participant, q, i, |rounds|, 0) <==> Opines(rounds, participant, q, i)
      {
      }
      forall q, r ensures Governs(rounds, participant, q, r) <==> q in effective && effective[q] == r {
        if Governs(rounds, participant, q, r) {
          var i :| 0 <= i < |rounds| && Opines(rounds, participant, q, i) &&
            Latest(rounds[i].resolutions, q) == Some(r);
          assert Scanned(participant, q, i, |rounds|, 0);
          var j :| 0 <= j < |rounds| && Scanned(participant, q, j, |rounds|, 0) &&
            Latest(rounds[j].resolutions, q) == Some(effective[q]);
          SameSequence(q, i, j);
        }
      }
    }

    /** Opinions with the same sequence number are the same interpretation. */
    lemma SameSequence(q: Id, i: nat, j: nat)
      requires SequencesOk(rounds, interpretationSequence) && i < |rounds| && j < |rounds|
      requires Latest(rounds[i].resolutions, q).Some? && Latest(rounds[j].resolutions, q).Some?
      ensures Latest(rounds[i].resolutions, q).value.sequence == Latest(rounds[j].resolutions, q).value.sequence ==>
                Latest(rounds[i].resolutions, q) == Latest(rounds[j].resolutions, q)
    {
      LatestIs(rounds[i].resolutions, q);
      LatestIs(rounds[j].resolutions, q);
      assert Agree(rounds[i].resolutions, rounds[j].resolutions);
    }

    // ----- References -----

    method ReferenceFor(kind: RefKind, id: Id) returns (name: string)
      modifies this`references
      ensures references == Allocate(old(references), kind, id) && name == NameFor(old(references), kind, id)
    {
      hide Count, RefAt, Name;
      var at, count := FindReference(kind, id);
      if at >= 0 {
        return references[at].name;
      }
      name := Name(kind, count + 1);
      references := references + [Reference(name, id, kind)];
    }

    /** Where the reference is, if there is one; otherwise how many of its kind there are. */
    method FindReference(kind: RefKind, id: Id) returns (at: int, count: nat)
      ensures at == RefAt(references, kind, id)
      ensures at < 0 ==> count == Count(references, kind)
    {
      hide RefAt;
      count := 0;
      for i := 0 to |references|
        invariant count == Count(references[..i], kind)
        invariant forall j :: 0 <= j < i ==> !(references[j].kind == kind && references[j].id == id)
      {
        assert references[..i + 1][..i] == references[..i];
        if references[i].kind == kind {
          count := count + 1;
          if references[i].id == id {
            return i, count;
          }
        }
      }
      assert references[..|references|] == references;
      at := -1;
    }

    method TargetNamed(kind: RefKind, name: string) returns (id: Id)
      ensures id == Target(references, kind, name)
    {
      for i := 0 to |references|
        invariant forall j :: 0 <= j < i ==> !(references[j].kind == kind && references[j].name == name)
      {
        if references[i].kind == kind && references[i].name == name {
          assert NameAt(references, kind, name) == i;
          return references[i].id;
        }
      }
      id := NO_ID;
    }

    // ----- Question rounds -----

    method KeepsWording(q: Question) returns (ok: bool)
      ensures ok <==> forall i :: 0 <= i < |rounds| ==> SameWording(rounds[i].questions, [q])
    {
      for i := 0 to |rounds|
        invariant forall j :: 0 <= j < i ==> SameWording(rounds[j].questions, [q])
      {
        for m := 0 to |rounds[i].questions|
          invariant forall n :: 0 <= n < m ==>
                    (rounds[i].questions[n].id == q.id ==> rounds[i].questions[n].body == q.body)
        {
          if rounds[i].questions[m].id == q.id && rounds[i].questions[m].body != q.body {
            assert [q][0] == q;
            return false;
          }
        }
      }
      ok := true;
    }

    method CarriesOver(round: Round, questions: seq<Question>) returns (ok: bool)
      requires Valid()
      ensures ok <==> forall m :: 0 <= m < |round.questions| ==>
                        Settled(View(), round, round.questions[m].id) || Carried(questions, round.questions[m].id)
    {
      hide Current;
      for m := 0 to |round.questions|
        invariant forall n :: 0 <= n < m ==>
                    Settled(View(), round, round.questions[n].id) || Carried(questions, round.questions[n].id)
      {
        var old_ := round.questions[m].id;
        var resolved := IsSettled(round, old_);
        var carried := exists k :: 0 <= k < |questions| && (questions[k].id == old_ || questions[k].replacing == old_);
        if !resolved && !carried {
          return false;
        }
      }
      ok := true;
    }

    method IsSettled(round: Round, question: Id) returns (settled: bool)
      requires Valid()
      ensures settled <==> Settled(View(), round, question)
    {
      settled := false;
      var r := LatestResolution(round.resolutions, question);
      if r.Some? {
        settled := ResolutionCurrent(r.value);
      }
    }

    method MayRequest(id: Id, participant: Id, turn: Id, questions: seq<Question>) returns (ok: bool)
      requires Valid()
      ensures ok <==> CanRequest(View(), id, participant, turn, questions)
    {
      hide Settled, Valid, SameWording, DistinctQuestions, Blank, Carried;
      if id == NO_ID || participant == NO_ID || turn == NO_ID || |questions| == 0 {
        return false;
      }
      for i := 0 to |rounds|
        invariant forall j :: 0 <= j < i ==> (rounds[j].published || rounds[j].publicationFailed) && rounds[j].id != id
      {
        if (!rounds[i].published && !rounds[i].publicationFailed) || rounds[i].id == id {
          return false;
        }
      }
      var proper := AreProper(questions);
      if !proper {
        return false;
      }
      for i := 0 to |rounds|
        invariant forall j :: 0 <= j < i && rounds[j].id == currentRound && rounds[j].participant == participant ==>
                    forall m :: 0 <= m < |rounds[j].questions| ==>
                      Settled(View(), rounds[j], rounds[j].questions[m].id) ||
                        Carried(questions, rounds[j].questions[m].id)
      {
        if rounds[i].id == currentRound && rounds[i].participant == participant {
          var carried := CarriesOver(rounds[i], questions);
          if !carried {
            return false;
          }
        }
      }
      ok := true;
    }

    /** Questions with an identity and a text, none of them twice, and none reworded. */
    method AreProper(questions: seq<Question>) returns (proper: bool)
      ensures proper <==>
              && (forall k :: 0 <= k < |questions| ==> questions[k].id != NO_ID && !Blank(questions[k].body))
              && DistinctQuestions(questions)
              && forall i :: 0 <= i < |rounds| ==> SameWording(rounds[i].questions, questions)
    {
      hide Blank;
      var seen: set<Id> := {};
      for k := 0 to |questions|
        invariant forall m :: 0 <= m < k ==> questions[m].id != NO_ID && !Blank(questions[m].body)
        invariant seen == set m | 0 <= m < k :: questions[m].id
        invariant forall j, m :: 0 <= j < m < k ==> questions[j].id != questions[m].id
        invariant forall m, i :: 0 <= m < k && 0 <= i < |rounds| ==> SameWording(rounds[i].questions, [questions[m]])
      {
        var q := questions[k];
        if q.id == NO_ID || Blank(q.body) || q.id in seen {
          return false;
        }
        seen := seen + {q.id};
        var kept := KeepsWording(q);
        if !kept {
          ghost var i :| 0 <= i < |rounds| && !SameWording(rounds[i].questions, [q]);
          assert !SameWording(rounds[i].questions, questions);
          return false;
        }
      }
      forall i | 0 <= i < |rounds| ensures SameWording(rounds[i].questions, questions) {
        EachKeepsWording(rounds[i].questions, questions);
      }
      proper := true;
    }

    lemma EachKeepsWording(asked: seq<Question>, questions: seq<Question>)
      requires forall m :: 0 <= m < |questions| ==> SameWording(asked, [questions[m]])
      ensures SameWording(asked, questions)
    {
      forall j, m | 0 <= j < |asked| && 0 <= m < |questions| && asked[j].id == questions[m].id
        ensures asked[j].body == questions[m].body
      {
        assert SameWording(asked, [questions[m]]);
        assert [questions[m]][0] == questions[m];
      }
    }

    method PriorReference() returns (name: string)
      requires Valid()
      ensures name == var at := RoundAt(rounds, currentRound); if at >= 0 then rounds[at].reference else ""
    {
      hide RoundAt, Valid, OnePending, SupersededOk, SupersedesOk;
      ValidRounds();
      name := "";
      for i := 0 to |rounds|
        invariant name == var at := RoundAt(rounds, currentRound); if 0 <= at < i then rounds[at].reference else ""
      {
        if rounds[i].id == currentRound {
          name := rounds[i].reference;
        }
      }
    }

    method InheritedResolutions(participant: Id, questions: seq<Question>) returns (rs: seq<Resolution>)
      requires Valid()
      ensures rs == var at := RoundAt(rounds, currentRound);
                    if at >= 0 && rounds[at].participant == participant then
                      Inherited(View(), rounds[at], questions)
                    else []
    {
      ValidRounds();
      hide Settled, Valid;
      rs := [];
      ghost var at := RoundAt(rounds, currentRound);
      for i := 0 to |rounds|
        invariant rs == if 0 <= at < i && rounds[at].participant == participant
                        then Inherited(View(), rounds[at], questions) else []
      {
        if rounds[i].id == currentRound && rounds[i].participant == participant {
          assert i == at;
          for k := 0 to |questions|
            invariant rs == Inherited(View(), rounds[at], questions[..k])
          {
            assert questions[..k + 1][..k] == questions[..k];
            var settled := IsSettled(rounds[i], questions[k].id);
            if settled {
              SettledLatest(rounds[i], questions[k].id);
              var latest := LatestResolution(rounds[i].resolutions, questions[k].id);
              rs := rs + [latest.value];
            }
          }
          assert questions[..|questions|] == questions;
        }
      }
    }

    lemma SettledLatest(round: Round, question: Id)
      requires Settled(View(), round, question)
      ensures Latest(round.resolutions, question).Some?
    {
    }

    lemma ValidRounds()
      requires Valid()
      ensures RoundIdsOk(rounds) && DistinctInputs(inputs)
    {
      ValidGood();
    }

    /** Reserves an immutable question round before publication. */
    method Request(id: Id, participant: Id, turn: Id, head: Id, questions: seq<Question>) returns (r: Option<Round>)
      requires Valid()
      modifies this
      ensures Valid() && history == old(history) + [Step.Request(id, participant, turn, head, questions)]
      ensures View() == AfterRequest(old(View()), id, participant, turn, head, questions)
      ensures r == if CanRequest(old(View()), id, participant, turn, questions)
                   then Some(NewRound(old(View()), id, participant, turn, head, questions)) else None
    {
      ghost var before := View();
      RunStep(history, Step.Request(id, participant, turn, head, questions));
      var ok := MayRequest(id, participant, turn, questions);
      hide CanRequest, Run, RoundAt, Inherited, Allocate, NameFor;
      r := None;
      if ok {
        var prior := PriorReference();
        var inherited := InheritedResolutions(participant, questions);
        var name := ReferenceFor(RoundRef, id);
        var round := Round(name, prior, id, currentRound, NO_ID, participant, turn, head, questions, inherited, false,
          false, None);
        assert round == NewRound(before, id, participant, turn, head, questions);
        rounds := rounds + [round];
        r := Some(round);
      }
      history := history + [Step.Request(id, participant, turn, head, questions)];
    }

    method FindRound(id: Id) returns (at: int)
      ensures at == RoundAt(rounds, id)
    {
      for i := 0 to |rounds|
        invariant forall j :: 0 <= j < i ==> rounds[j].id != id
      {
        if rounds[i].id == id {
          return i;
        }
      }
      at := -1;
    }

    /** Confirms the publication of a round and supersedes the round published before it. */
    method Publish(id: Id, source: Source) returns (ok: bool)
      requires Valid()
      modifies this
      ensures Valid() && history == old(history) + [Step.Publish(id, source)]
      ensures View() == AfterPublish(old(View()), id, source)
      ensures ok <==> CanPublish(old(View()), id, source)
    {
      hide Run;
      ghost var before := View();
      RunStep(history, Step.Publish(id, source));
      var at := FindRound(id);
      ok := at >= 0 && !rounds[at].publicationFailed && (rounds[at].published ==> rounds[at].source == Some(source));
      if ok && !rounds[at].published {
        SupersedeCurrent(id);
        rounds := rounds[at := rounds[at].(published := true, source := Some(source))];
        assert rounds == PublishedRounds(before.rounds, currentRound, at, source);
        currentRound := id;
      }
      history := history + [Step.Publish(id, source)];
    }

    /** Every round that was current is superseded. */
    method SupersedeCurrent(id: Id)
      modifies this`rounds
      ensures |rounds| == |old(rounds)|
      ensures forall k :: 0 <= k < |rounds| ==> rounds[k] == Superseding(old(rounds)[k], currentRound, id)
    {
      if currentRound != NO_ID {
        for j := 0 to |rounds|
          invariant |rounds| == |old(rounds)|
          invariant forall k :: 0 <= k < |rounds| ==>
                      rounds[k] == if k < j then Superseding(old(rounds)[k], currentRound, id) else old(rounds)[k]
        {
          if rounds[j].id == currentRound {
            rounds := rounds[j := rounds[j].(supersededBy := id)];
          }
        }
      }
    }

    /** Records that a publication provably never happened. */
    method FailPublication(id: Id) returns (ok: bool)
      requires Valid()
      modifies this
      ensures Valid() && history == old(history) + [Step.FailPublication(id)]
      ensures View() == AfterFail(old(View()), id)
      ensures ok <==> CanFail(old(View()), id)
    {
      RunStep(history, Step.FailPublication(id));
      hide Run;
      var at := FindRound(id);
      ok := at >= 0 && !rounds[at].published;
      if ok {
        rounds := rounds[at := rounds[at].(publicationFailed := true)];
      }
      history := history + [Step.FailPublication(id)];
    }

    // ----- Admission -----

    method FindInput(id: Id) returns (at: int)
      ensures at == InputAt(inputs, id)
    {
      for i := 0 to |inputs|
        invariant forall j :: 0 <= j < i ==> inputs[j].id != id
      {
        if inputs[i].id == id {
          return i;
        }
      }
      at := -1;
    }

    method CurrentPlan() returns (r: Option<Revision>)
      ensures r == CurrentCheckpoint(planning)
    {
      r := None;
      if planning.Some? {
        var revisions := planning.value.revisions;
        var i := 0;
        while i < |revisions|
          invariant 0 <= i <= |revisions|
          invariant FindRevision(revisions, planning.value.currentRevision) ==
                    FindRevision(revisions[i..], planning.value.currentRevision)
        {
          assert revisions[i..][1..] == revisions[i + 1..];
          if revisions[i].id == planning.value.currentRevision {
            return Some(revisions[i]);
          }
          i := i + 1;
        }
      }
    }

    method ResolveTarget(c: Command) returns (target: Id)
      ensures target == TargetOf(View(), c)
    {
      match c.kind {
        case Answer => target := TargetNamed(RoundRef, c.target);
        case Amend => target := TargetNamed(InputRef, c.target);
        case ConfirmPlan => target := TargetNamed(PlanRef, c.target);
        case _ => target := NO_ID;
      }
    }

    /** Validates authority, lifecycle and explicit target, never the meaning of the text. */
    method Refusal(id: Id, c: Command, a: Admission) returns (refused: Option<Rejection>)
      ensures refused == Screen(View(), id, c, a)
    {
      if !a.authorized {
        return Some(Unauthorized);
      }
      if !a.active || (a.participant == NO_ID && a.route == NO_ID) {
        return Some(Inactive);
      }
      if id == NO_ID || a.actor == NO_ID || a.source.id == NO_ID || a.source.channel == NO_ID || a.at == 0 {
        return Some(Incomplete);
      }
      var duplicate := FindInput(id);
      if duplicate >= 0 {
        return Some(DuplicateResponse);
      }
      var target := ResolveTarget(c);
      match c.kind {
        case ConfirmPlan =>
          var current := CurrentPlan();
          if current.None? || !current.value.published || current.value.content.status != Proposed ||
             current.value.id != target || current.value.participant != a.participant ||
               planning.value.readyRevision != NO_ID
          {
            return Some(PlanNotConfirmable);
          }
        case Answer =>
          var at := FindRound(target);
          if at < 0 {
            return Some(UnknownRound);
          }
          if rounds[at].publicationFailed {
            return Some(RoundFailed);
          }
          if rounds[at].supersededBy != NO_ID || (rounds[at].published && currentRound != rounds[at].id) {
            return Some(RoundReplaced);
          }
          if rounds[at].participant != a.participant {
            return Some(RoundOfOtherStage);
          }
        case Amend =>
          var at := FindInput(target);
          if at < 0 {
            return Some(UnknownInput);
          }
          if inputs[at].participant != a.participant {
            return Some(InputOfOtherStage);
          }
        case Steer =>
          if c.target != "" {
            return Some(SteerWithTarget);
          }
        case UnknownKind =>
          return Some(MissingTarget);
      }
      if Blank(c.body) && c.kind != ConfirmPlan {
        return Some(EmptyBody);
      }
      refused := None;
    }

    method FindReceipt(source: Source) returns (at: int)
      ensures at == ReceiptAt(receipts, source)
    {
      for i := 0 to |receipts|
        invariant forall j :: 0 <= j < i ==> !SameSource(receipts[j].source, source)
      {
        if SameSource(receipts[i].source, source) {
          return i;
        }
      }
      at := -1;
    }

    /** The round a command speaks about: the one it answers, or that of the input it amends. */
    method RoundSpokenOf(c: Command, target: Id) returns (roundId: Id)
      requires target == TargetOf(View(), c)
      ensures roundId == RoundOf(View(), c)
    {
      roundId := NO_ID;
      if c.kind == Answer {
        roundId := target;
      } else if c.kind == Amend {
        var found := FindInput(target);
        roundId := if found >= 0 then inputs[found].roundId else NO_ID;
      }
    }

    /** Admits a human input once per source, and answers every replay with the first receipt. */
    method Accept(id: Id, c: Command, a: Admission) returns (receipt: Receipt)
      requires Valid()
      modifies this
      ensures Valid() && history == old(history) + [Step.Accept(id, c, a)]
      ensures View() == AfterAccept(old(View()), id, c, a)
      ensures receipt == AcceptReceipt(old(View()), id, c, a)
    {
      hide Run, RoundOf, TargetOf, Screen;
      ghost var before := View();
      RunStep(history, Step.Accept(id, c, a));
      var at := FindReceipt(a.source);
      if at >= 0 {
        receipt := receipts[at];
      } else {
        var refused := Refusal(id, c, a);
        if refused.Some? {
          receipt := Receipt(id, a.source, NO_ID, Rejected(refused.value));
        } else {
          var target := ResolveTarget(c);
          var roundId := RoundSpokenOf(c, target);
          var name := ReferenceFor(InputRef, id);
          var input := Input(name, target, a.route, id, c.kind, roundId, if c.kind == Amend then target else NO_ID,
                             c.body, a.actor, a.source, a.at, a.participant, NO_ID, false);
          assert input == NewInput(before, id, c, a);
          inputs := inputs + [input];
          receipt := Receipt(id, a.source, id, QueuedAs(name));
        }
        receipts := receipts + [receipt];
      }
      history := history + [Step.Accept(id, c, a)];
    }

    // ----- Turn boundaries -----

    method IsPending(participant: Id) returns (pending: bool)
      ensures pending <==> Pending(inputs, participant)
    {
      for i := 0 to |inputs|
        invariant forall j :: 0 <= j < i ==> !Awaiting(inputs[j], participant)
      {
        if inputs[i].participant == participant && (inputs[i].deliveredTo == NO_ID || inputs[i].deliveryPending) {
          return true;
        }
      }
      pending := false;
    }

    method AssignedInputs(turn: Id) returns (batch: seq<Input>)
      ensures batch == Assigned(inputs, turn)
    {
      batch := [];
      for i := 0 to |inputs|
        invariant batch == Assigned(inputs[..i], turn)
      {
        assert inputs[..i + 1][..i] == inputs[..i];
        if inputs[i].deliveredTo == turn {
          batch := batch + [inputs[i]];
        }
      }
      assert inputs[..|inputs|] == inputs;
    }

    /** Gives a Turn everything its participant is waiting for, and returns it in admission order. */
    method AssignAwaited(participant: Id, turn: Id) returns (batch: seq<Input>)
      modifies this`inputs
      ensures inputs == AssignAll(old(inputs), participant, turn)
      ensures batch == AssignAll(Awaited(old(inputs), participant), participant, turn)
    {
      ghost var before := inputs;
      batch := [];
      for i := 0 to |inputs|
        invariant |inputs| == |before|
        invariant forall k :: 0 <= k < |inputs| ==>
                    inputs[k] == if k < i then Assign(before[k], participant, turn) else before[k]
        invariant batch == AssignAll(Awaited(before[..i], participant), participant, turn)
      {
        assert before[..i + 1][..i] == before[..i];
        if inputs[i].participant == participant && (inputs[i].deliveredTo == NO_ID || inputs[i].deliveryPending) {
          AssignAllAppend(Awaited(before[..i], participant), before[i], participant, turn);
          inputs := inputs[i := inputs[i].(deliveredTo := turn, deliveryPending := false)];
          batch := batch + [inputs[i]];
        }
      }
      assert before[..|before|] == before;
    }

    /** Freezes all pending input at the next Turn boundary; a replay returns the same batch. */
    method Prepare(participant: Id, turn: Id) returns (batch: seq<Input>)
      requires Valid()
      modifies this
      ensures Valid() && history == old(history) + [Step.Prepare(participant, turn)]
      ensures View() == AfterPrepare(old(View()), participant, turn)
      ensures batch == PrepareBatch(old(View()), participant, turn)
    {
      RunStep(history, Step.Prepare(participant, turn));
      hide Run;
      history := history + [Step.Prepare(participant, turn)];
      batch := AssignedInputs(turn);
      for i := 0 to |preparations|
        modifies {}
        invariant forall j :: 0 <= j < i ==> preparations[j].turn != turn
      {
        if preparations[i].turn == turn {
          return;
        }
      }
      hide Assigned, Awaited, AssignAll;
      preparations := preparations + [Preparation(participant, turn)];
      var more := AssignAwaited(participant, turn);
      batch := batch + more;
    }

    /** Acknowledges that a frozen input has been read in full by its Turn. */
    method MarkDelivered(participant: Id, turn: Id, id: Id) returns (ok: bool)
      requires Valid()
      modifies this
      ensures Valid() && history == old(history) + [Step.MarkDelivered(participant, turn, id)]
      ensures View() == AfterMarkDelivered(old(View()), participant, turn, id)
      ensures ok <==> AssignedAt(old(inputs), participant, turn, id) >= 0
    {
      RunStep(history, Step.MarkDelivered(participant, turn, id));
      hide Run;
      history := history + [Step.MarkDelivered(participant, turn, id)];
      for i := 0 to |inputs|
        modifies this`inputs
        invariant inputs == old(inputs)
        invariant forall j :: 0 <= j < i ==>
                    !(inputs[j].id == id && inputs[j].participant == participant && inputs[j].deliveredTo == turn)
      {
        if inputs[i].id == id && inputs[i].participant == participant && inputs[i].deliveredTo == turn {
          assert AssignedAt(inputs, participant, turn, id) == i;
          inputs := inputs[i := inputs[i].(deliveryPending := false)];
          return true;
        }
      }
      ok := false;
    }

    /** The projection's effect: an oversized batch is withheld until every record has been read. */
    method Project(participant: Id, turn: Id, oversize: bool)
      requires Valid()
      modifies this
      ensures Valid() && history == old(history) + [Step.Project(participant, turn, oversize)]
      ensures View() == AfterProject(old(View()), participant, turn, oversize)
    {
      ghost var before := View();
      RunStep(history, Step.Project(participant, turn, oversize));
      hide Run;
      history := history + [Step.Project(participant, turn, oversize)];
      if oversize {
        for i := 0 to |inputs|
          modifies this`inputs
          invariant |inputs| == |before.inputs|
          invariant forall k :: 0 <= k < |inputs| ==>
                      inputs[k] == if k < i then Withhold(before.inputs[k], participant, turn) else before.inputs[k]
        {
          if inputs[i].participant == participant && inputs[i].deliveredTo == turn {
            inputs := inputs[i := inputs[i].(deliveryPending := true)];
          }
        }
        assert inputs == AfterProject(before, participant, turn, oversize).inputs;
      }
    }

    // ----- Assessments -----

    method LatestAssessmentOf(id: Id) returns (a: Option<Assessment>)
      ensures a == LatestAssessment(assessments, id)
    {
      var i := |assessments|;
      assert assessments[..i] == assessments;
      while i > 0
        invariant 0 <= i <= |assessments| && LatestAssessment(assessments, id) == LatestAssessment(assessments[..i], id)
      {
        i := i - 1;
        assert assessments[..i + 1][..i] == assessments[..i];
        if assessments[i].inputId == id {
          return Some(assessments[i]);
        }
      }
      a := None;
    }

    /** Some input of the participant is undelivered, unassessed or materially uncertain. */
    method IsAssessmentBlocked(participant: Id) returns (blocked: bool)
      ensures blocked <==> AssessmentBlocked(inputs, assessments, participant)
    {
      for i := 0 to |inputs|
        invariant forall j :: 0 <= j < i && inputs[j].participant == participant ==>
                  !UnsettledInput(assessments, inputs[j])
      {
        if inputs[i].participant == participant {
          var a := LatestAssessmentOf(inputs[i].id);
          if !Delivered(inputs[i]) || a.None? || a.value.disposition == Uncertain {
            assert UnsettledInput(assessments, inputs[i]);
            return true;
          }
        }
      }
      blocked := false;
    }

    method WasDelivered(participant: Id, id: Id) returns (delivered: bool)
      ensures delivered <==> DeliveredInput(inputs, participant, id)
    {
      for i := 0 to |inputs|
        invariant forall j :: 0 <= j < i ==>
                    !(inputs[j].id == id && inputs[j].participant == participant && Delivered(inputs[j]))
      {
        if inputs[i].id == id && inputs[i].participant == participant && Delivered(inputs[i]) {
          return true;
        }
      }
      delivered := false;
    }

    method AllDelivered(participant: Id, ids: seq<Id>) returns (all: bool)
      ensures all <==> forall k :: 0 <= k < |ids| ==> DeliveredInput(inputs, participant, ids[k])
    {
      for k := 0 to |ids|
        invariant forall m :: 0 <= m < k ==> DeliveredInput(inputs, participant, ids[m])
      {
        var delivered := WasDelivered(participant, ids[k]);
        if !delivered {
          return false;
        }
      }
      all := true;
    }

    method IsPrepared(participant: Id, turn: Id) returns (prepared: bool)
      ensures prepared <==> HasPreparation(preparations, participant, turn)
    {
      for i := 0 to |preparations|
        invariant forall j :: 0 <= j < i ==> preparations[j] != Preparation(participant, turn)
      {
        if preparations[i].participant == participant && preparations[i].turn == turn {
          return true;
        }
      }
      prepared := false;
    }

    method IsConfirmPlan(id: Id) returns (found: bool)
      ensures found <==> IsConfirmation(inputs, id)
    {
      for i := 0 to |inputs|
        invariant forall j :: 0 <= j < i ==> !(inputs[j].id == id && inputs[j].kind == ConfirmPlan)
      {
        if inputs[i].id == id && inputs[i].kind == ConfirmPlan {
          return true;
        }
      }
      found := false;
    }

    method MayRecord(participant: Id, a: Assessment) returns (ok: bool)
      ensures ok <==> Assessable(inputs, participant, a)
    {
      var delivered := WasDelivered(participant, a.inputId);
      if !delivered || Blank(a.explanation) || a.inputId !in a.evidence || a.disposition == UnknownDisposition {
        return false;
      }
      var evidence := AllDelivered(participant, a.evidence);
      var corrects := AllDelivered(participant, a.corrects);
      var confirms := IsConfirmPlan(a.inputId);
      hide DeliveredInput, Blank, IsConfirmation;
      if a.inputId in a.corrects {
        ghost var k :| 0 <= k < |a.corrects| && a.corrects[k] == a.inputId;
        return false;
      }
      ok := evidence && corrects && (a.disposition == Confirmed ==> confirms);
    }

    method MayAssess(operation: Id, participant: Id, turn: Id, batch: seq<Assessment>) returns (ok: bool)
      ensures ok <==> CanAssess(View(), operation, participant, turn, batch)
    {
      var prepared := IsPrepared(participant, turn);
      hide Assessable, HasPreparation;
      if operation == NO_ID || |batch| == 0 || !prepared {
        return false;
      }
      var seen: set<Id> := {};
      for k := 0 to |batch|
        invariant seen == set m | 0 <= m < k :: batch[m].inputId
        invariant forall j, m :: 0 <= j < m < k ==> batch[j].inputId != batch[m].inputId
        invariant forall m :: 0 <= m < k ==> Assessable(inputs, participant, batch[m])
      {
        var assessable := MayRecord(participant, batch[k]);
        if batch[k].inputId in seen || !assessable {
          return false;
        }
        seen := seen + {batch[k].inputId};
      }
      ok := true;
    }

    /** Withdraws every confirmation admitted up to and including the assessed input. */
    method WithdrawThrough(id: Id)
      requires planning.Some?
      modifies this`planning
      ensures planning == Some(old(planning).value.(
                invalidated := Invalidate(old(planning).value.invalidated, inputs, Reach(inputs, id))))
    {
      ghost var p := planning.value;
      for i := 0 to |inputs|
        invariant planning == Some(p.(invalidated := Invalidate(p.invalidated, inputs, i)))
        invariant forall j :: 0 <= j < i ==> inputs[j].id != id
      {
        if inputs[i].kind == ConfirmPlan && inputs[i].id !in planning.value.invalidated {
          planning := Some(planning.value.(invalidated := planning.value.invalidated + [inputs[i].id]));
        }
        if inputs[i].id == id {
          assert InputAt(inputs, id) == i;
          return;
        }
      }
    }

    /** Records a batch of agent assessments, all of them or none. */
    method Assess(operation: Id, participant: Id, turn: Id, batch: seq<Assessment>) returns (ok: bool)
      requires Valid()
      modifies this
      ensures Valid() && history == old(history) + [Step.Assess(operation, participant, turn, batch)]
      ensures View() == AfterAssess(old(View()), operation, participant, turn, batch)
      ensures ok <==> CanAssess(old(View()), operation, participant, turn, batch)
    {
      hide Run, CanAssess, Withdrawn, Recorded;
      ghost var before := View();
      RunStep(history, Step.Assess(operation, participant, turn, batch));
      ok := MayAssess(operation, participant, turn, batch);
      history := history + [Step.Assess(operation, participant, turn, batch)];
      if ok {
        RecordAssessments(operation, batch);
      }
    }

    /** Records the batch; a withdrawal counts while no plan is ready. */
    method RecordAssessments(operation: Id, batch: seq<Assessment>)
      modifies this`assessments, this`planning
      ensures assessments == old(assessments) + Recorded(operation, batch)
      ensures planning ==
                if old(planning).Some? && old(planning).value.readyRevision == NO_ID then
                  Some(old(planning).value.(invalidated := Withdrawn(old(planning).value.invalidated, inputs, batch)))
                else old(planning)
    {
      hide IsConfirmation, Invalidate, Reach, Recorded, Withdrawn;
      ghost var p := planning;
      ghost var open := p.Some? && p.value.readyRevision == NO_ID;
      BatchNone(operation, inputs, if open then p.value.invalidated else []);
      for k := 0 to |batch|
        invariant assessments == old(assessments) + Recorded(operation, batch[..k])
        invariant planning ==
                    if open then Some(p.value.(invalidated := Withdrawn(p.value.invalidated, inputs, batch[..k])))
                    else p
      {
        var a := batch[k];
        BatchSnoc(operation, inputs, if open then p.value.invalidated else [], batch, k);
        assessments := assessments + [a.(origin := operation)];
        var invalidate := a.invalidateConfirmation;
        var confirms := IsConfirmPlan(a.inputId);
        if confirms && a.disposition != Confirmed {
          invalidate := true;
        }
        if invalidate && planning.Some? && planning.value.readyRevision == NO_ID {
          WithdrawThrough(a.inputId);
        }
      }
      assert batch[..|batch|] == batch;
    }

    // ----- Recording interpretations -----

    method IsQuestionInRound(round: Id, question: Id, participant: Id) returns (found: bool)
      ensures found <==> QuestionInRound(rounds, round, question, participant)
    {
      for i := 0 to |rounds|
        invariant forall j :: 0 <= j < i ==>
                    !(rounds[j].id == round && rounds[j].participant == participant &&
                      Asks(rounds[j].questions, question))
      {
        if rounds[i].id == round && rounds[i].participant == participant && Asks(rounds[i].questions, question) {
          return true;
        }
      }
      found := false;
    }

    method IsCitable(round: Round, question: Id, id: Id) returns (ok: bool)
      ensures ok <==> Citable(View(), round, question, id)
    {
      hide QuestionInRound, RevisesAny;
      for i := 0 to |inputs|
        invariant forall j :: 0 <= j < i ==> !(inputs[j].id == id && CitableInput(View(), round, question, inputs[j]))
      {
        var input := inputs[i];
        if input.id == id && Delivered(input) && input.participant == round.participant {
          if input.roundId == NO_ID {
            return true;
          }
          var asked := IsQuestionInRound(input.roundId, question, round.participant);
          if asked {
            return true;
          }
          for k := 0 to |round.resolutions|
            invariant forall m :: 0 <= m < k && round.resolutions[m].questionId == question ==>
                        !RevisesAny(inputs, assessments, input.id, round.resolutions[m].responseIds)
          {
            if round.resolutions[k].questionId == question {
              var revises := RevisesAnyOf(input.id, round.resolutions[k].responseIds);
              if revises {
                return true;
              }
            }
          }
        }
      }
      ok := false;
    }

    /** The current round that carries the question would accept the interpretation too. */
    method CurrentRoundAllows(round: Round, r: Resolution) returns (ok: bool)
      ensures ok <==> forall j :: 0 <= j < |rounds| && Receives(View(), round, rounds[j], r.questionId) ==>
                        CanRevise(inputs, assessments, Latest(rounds[j].resolutions, r.questionId), r)
    {
      hide CanRevise;
      for j := 0 to |rounds|
        invariant forall m :: 0 <= m < j && Receives(View(), round, rounds[m], r.questionId) ==>
                    CanRevise(inputs, assessments, Latest(rounds[m].resolutions, r.questionId), r)
      {
        if rounds[j].id == currentRound && rounds[j].participant == round.participant &&
          Asks(rounds[j].questions, r.questionId)
        {
          var latest := LatestResolution(rounds[j].resolutions, r.questionId);
          var allowed := MayRevise(latest, r);
          if !allowed {
            return false;
          }
        }
      }
      ok := true;
    }

    method MayInterpret(round: Round, r: Resolution) returns (ok: bool)
      ensures ok <==> Resolvable(View(), round, r)
    {
      hide CanRevise, Citable, Receives;
      if Blank(r.explanation) || (|r.responseIds| == 0 && !r.obsolete) || !Asks(round.questions, r.questionId) {
        return false;
      }
      var latest := LatestResolution(round.resolutions, r.questionId);
      if round.supersededBy != NO_ID && latest.None? {
        return false;
      }
      var allowed := MayRevise(latest, r);
      if !allowed {
        return false;
      }
      if round.supersededBy != NO_ID {
        var current := CurrentRoundAllows(round, r);
        if !current {
          return false;
        }
      }
      for k := 0 to |r.responseIds|
        invariant forall m :: 0 <= m < k ==> Citable(View(), round, r.questionId, r.responseIds[m])
      {
        var citable := IsCitable(round, r.questionId, r.responseIds[k]);
        if !citable {
          return false;
        }
      }
      ok := true;
    }

    /** The delivered evidence that competes with what an interpretation cites. */
    method CompetingDelivered(cited: seq<Id>) returns (ids: seq<Id>)
      ensures ids == Considered(inputs, assessments, inputs, cited)
    {
      hide RevisesAny;
      ids := [];
      for i := 0 to |inputs|
        invariant ids == Considered(inputs[..i], assessments, inputs, cited)
      {
        assert inputs[..i + 1][..i] == inputs[..i];
        if Delivered(inputs[i]) {
          var revises := RevisesAnyOf(inputs[i].id, cited);
          if revises {
            ids := ids + [inputs[i].id];
          }
        }
      }
      assert inputs[..|inputs|] == inputs;
    }

    /** Validates a whole batch and fills in its coverage; nothing is recorded yet. */
    method Interpret(round: Id, turn: Id, rs: seq<Resolution>) returns (ok: bool, covered: seq<Resolution>)
      requires Valid()
      ensures ok <==> CanResolve(View(), round, turn, rs)
      ensures ok ==> |covered| == |rs| && forall k :: 0 <= k < |rs| ==> covered[k] == Covering(View(), rs[k])
    {
      hide Valid, Resolvable, Current, HasPreparation, RoundAt, Considered;
      covered := [];
      var at := FindRound(round);
      if at < 0 || !rounds[at].published {
        return false, covered;
      }
      var prepared := IsPrepared(rounds[at].participant, turn);
      if !prepared {
        return false, covered;
      }
      var seen: set<Id> := {};
      for k := 0 to |rs|
        invariant seen == set m | 0 <= m < k :: rs[m].questionId
        invariant forall j, m :: 0 <= j < m < k ==> rs[j].questionId != rs[m].questionId
        invariant forall m :: 0 <= m < k ==> Resolvable(View(), rounds[at], rs[m])
      {
        if rs[k].questionId in seen {
          return false, covered;
        }
        seen := seen + {rs[k].questionId};
        var allowed := MayInterpret(rounds[at], rs[k]);
        if !allowed {
          return false, covered;
        }
      }
      for k := 0 to |rs|
        invariant |covered| == k && forall m :: 0 <= m < k ==>
                    covered[m] == Covering(View(), rs[m]) && Current(inputs, assessments, Covering(View(), rs[m]))
      {
        var considered := CompetingDelivered(rs[k].responseIds);
        var r := rs[k].(considered := considered);
        assert r == Covering(View(), rs[k]);
        var current := ResolutionCurrent(r);
        if !current {
          return false, covered;
        }
        covered := covered + [r];
      }
      ok := true;
    }

    /** Numbers one interpretation and appends it to its round and to the current round that carries its question. */
    method Record(at: nat, r: Resolution)
      requires at < |rounds|
      modifies this`rounds, this`interpretationSequence
      ensures interpretationSequence == old(interpretationSequence) + 1
      ensures var g := r.(sequence := interpretationSequence);
              rounds == RecordedRounds(old(View()), at, [g])
    {
      ghost var before := View();
      interpretationSequence := interpretationSequence + 1;
      var g := r.(sequence := interpretationSequence);
      var superseded := rounds[at].supersededBy != NO_ID;
      var participant := rounds[at].participant;
      rounds := rounds[at := rounds[at].(resolutions := rounds[at].resolutions + [g])];
      ghost var own := rounds;
      hide Asks;
      if superseded {
        for j := 0 to |rounds|
          modifies this`rounds
          invariant |rounds| == |own|
          invariant forall k :: 0 <= k < |rounds| ==>
                      rounds[k] == if k < j && own[k].id == currentRound && own[k].participant == participant &&
                                      Asks(own[k].questions, g.questionId)
                                   then own[k].(resolutions := own[k].resolutions + [g]) else own[k]
        {
          if rounds[j].id == currentRound && rounds[j].participant == participant &&
            Asks(rounds[j].questions, g.questionId)
          {
            rounds := rounds[j := rounds[j].(resolutions := rounds[j].resolutions + [g])];
          }
        }
      }
      RecordedOne(before, at, g, own, rounds);
    }

    /** Records a validated batch in order. */
    method RecordAll(at: nat, covered: seq<Resolution>, ghost rs: seq<Resolution>)
      requires at < |rounds| && (rounds[at].supersededBy != NO_ID ==> rounds[at].id != currentRound)
      requires |covered| == |rs| && forall k :: 0 <= k < |rs| ==> covered[k] == Covering(View(), rs[k])
      modifies this`rounds, this`interpretationSequence
      ensures interpretationSequence == old(interpretationSequence) + |rs|
      ensures rounds == RecordedRounds(old(View()), at, Sequenced(old(View()), rs))
    {
      ghost var before := View();
      hide Gains, Considered;
      NothingRecorded(before, at);
      for k := 0 to |covered|
        invariant interpretationSequence == before.interpretationSequence + k
        invariant rounds == RecordedRounds(before, at, Sequenced(before, rs)[..k])
      {
        ghost var g := Sequenced(before, rs)[k];
        assert Sequenced(before, rs)[..k + 1] == Sequenced(before, rs)[..k] + [g];
        RecordedMore(before, View(), at, Sequenced(before, rs)[..k], g);
        Record(at, covered[k]);
      }
      assert Sequenced(before, rs)[..|covered|] == Sequenced(before, rs);
    }

    /** Records explicit interpretations backed by delivered responses; a refused batch changes nothing. */
    method Resolve(round: Id, turn: Id, rs: seq<Resolution>) returns (ok: bool)
      requires Valid()
      modifies this
      ensures Valid() && history == old(history) + [Step.Resolve(round, turn, rs)]
      ensures View() == AfterResolve(old(View()), round, turn, rs)
      ensures ok <==> CanResolve(old(View()), round, turn, rs)
    {
      RunStep(history, Step.Resolve(round, turn, rs));
      FrontierNotSuperseded(history);
      var covered;
      ok, covered := Interpret(round, turn, rs);
      history := history + [Step.Resolve(round, turn, rs)];
      var at := FindRound(round);
      hide Run, CanResolve, Sequenced, Covering, RecordedRounds, RoundAt;
      if ok {
        assert at >= 0 by {
          ResolvableRound(View(), round, turn, rs);
        }
        RecordAll(at, covered, rs);
      }
    }

    // ----- Planning -----

    method StartPlanning(original: OriginalRequest) returns (ok: bool)
      requires Valid()
      modifies this
      ensures Valid() && history == old(history) + [Step.StartPlanning(original)]
      ensures View() == AfterStart(old(View()), original)
      ensures ok <==> CanStart(old(View()), original)
    {
      RunStep(history, Step.StartPlanning(original));
      hide Run;
      history := history + [Step.StartPlanning(original)];
      if planning.Some? {
        return planning.value.originalRequest == original;
      }
      if Blank(original.title) || original.source.channel == NO_ID || original.source.id == NO_ID {
        return false;
      }
      planning := Some(Planning([], [], original, [], NO_ID, NO_ID, []));
      ok := true;
    }

    /** Reading the frozen batch takes precedence over yielding to newer input. */
    method CheckpointInputReason(participant: Id) returns (reason: Option<NonPublicationReason>)
      ensures reason == InputReason(inputs, participant)
    {
      for i := 0 to |inputs|
        invariant forall j :: 0 <= j < i ==> !(inputs[j].participant == participant && inputs[j].deliveryPending)
      {
        if inputs[i].participant == participant && inputs[i].deliveryPending {
          return Some(UnreadInput);
        }
      }
      var pending := IsPending(participant);
      reason := if pending then Some(LateInput) else None;
    }

    method FindDecision(participant: Id, turn: Id, id: Id) returns (at: int)
      ensures at == DecisionAt(inputs, participant, turn, id)
    {
      for i := 0 to |inputs|
        invariant forall j :: 0 <= j < i ==> !Decides(inputs[j], participant, turn, id)
      {
        if Decides(inputs[i], participant, turn, id) {
          return i;
        }
      }
      at := -1;
    }

    method CitedDecisions(participant: Id, turn: Id, ids: seq<Id>) returns (ok: bool, decisions: seq<Input>)
      ensures ok <==> Cites(inputs, participant, turn, ids)
      ensures ok ==> decisions == Decisions(inputs, participant, turn, ids)
    {
      hide Decides;
      decisions := [];
      var seen: set<Id> := {};
      for k := 0 to |ids|
        invariant seen == set m | 0 <= m < k :: ids[m]
        invariant forall j, m :: 0 <= j < m < k ==> ids[j] != ids[m]
        invariant |decisions| == k
        invariant forall m :: 0 <= m < k ==>
                    DecisionAt(inputs, participant, turn, ids[m]) >= 0 &&
                    decisions[m] == inputs[DecisionAt(inputs, participant, turn, ids[m])]
      {
        if ids[k] in seen {
          return false, decisions;
        }
        seen := seen + {ids[k]};
        var at := FindDecision(participant, turn, ids[k]);
        if at < 0 {
          return false, decisions;
        }
        decisions := decisions + [inputs[at]];
      }
      ok := true;
    }

    /** The recorded answer to an operation seen before, or that it may not start while a revision is pending. */
    method ReplayReservation(id: Id, participant: Id, turn: Id, c: Content) returns (answer: Option<Reservation>)
      requires planning.Some?
      ensures answer == Replayed(planning.value, id, participant, turn, c)
    {
      var p := planning.value;
      for i := 0 to |p.nonPublications|
        invariant forall j :: 0 <= j < i ==> p.nonPublications[j].operation != id
      {
        var old_ := p.nonPublications[i];
        if old_.operation == id {
          assert NonPublicationAt(p.nonPublications, id) == i;
          return Some(if old_.participant == participant && old_.turn == turn && old_.content == c then NotApplied(old_)
            else Invalid);
        }
      }
      for i := 0 to |p.revisions|
        invariant forall j :: 0 <= j < i ==>
                    p.revisions[j].id != id && (p.revisions[j].published || p.revisions[j].publicationFailed)
      {
        var old_ := p.revisions[i];
        if old_.id == id {
          assert RevisionAt(p.revisions, id) == i;
          return Some(if old_.participant == participant && old_.turn == turn && old_.content == c then Reserved(old_)
            else Invalid);
        }
        if !old_.published && !old_.publicationFailed {
          assert RevisionAt(p.revisions, id) >= 0 ==> !ReplayableRevision(p.revisions, RevisionAt(p.revisions, id));
          return Some(Invalid);
        }
      }
      answer := None;
    }

    /** A checkpoint's structure and provenance are in order. */
    method IsAdmissible(participant: Id, turn: Id, c: Content) returns (ok: bool, decisions: seq<Input>)
      ensures ok <==> WellFormed(c) && HasPreparation(preparations, participant, turn) &&
                      Cites(inputs, participant, turn, c.decisionResponseIds)
      ensures ok ==> decisions == Decisions(inputs, participant, turn, c.decisionResponseIds)
    {
      hide WellFormed, HasPreparation, Cites, Decisions;
      var prepared := IsPrepared(participant, turn);
      var cited;
      cited, decisions := CitedDecisions(participant, turn, c.decisionResponseIds);
      ok := WellFormed(c) && prepared && cited;
    }

    /** A proposal may not leave a decision, an assessment or a question open. */
    method LeavesOpen(participant: Id, c: Content) returns (open: bool)
      requires Valid()
      ensures open <==> (c.status == Proposed &&
                         (|c.unresolvedDecisions| > 0 || AssessmentBlocked(inputs, assessments, participant) ||
                          Unresolved(View(), participant)))
    {
      hide Unresolved, AssessmentBlocked, Valid;
      var uncertain := IsAssessmentBlocked(participant);
      var unresolved := IsUnresolved(participant);
      open := c.status == Proposed && (|c.unresolvedDecisions| > 0 || uncertain || unresolved);
    }

    /** Reserves a planning checkpoint, or records why it may not be published yet. */
    method ReserveCheckpoint(id: Id, participant: Id, turn: Id, c: Content) returns (answer: Reservation)
      requires Valid()
      modifies this
      ensures Valid() && history == old(history) + [Step.ReserveCheckpoint(id, participant, turn, c)]
      ensures View() == AfterReserve(old(View()), id, participant, turn, c)
      ensures answer == Reserve(old(View()), id, participant, turn, c)
    {
      hide Run, WellFormed, HasPreparation, AssessmentBlocked, Unresolved, InputReason, Allocate, NameFor, Decisions;
      hide Replayed, FindRevision, CurrentCheckpoint, Cites;
      RunStep(history, Step.ReserveCheckpoint(id, participant, turn, c));
      var open := LeavesOpen(participant, c);
      history := history + [Step.ReserveCheckpoint(id, participant, turn, c)];
      answer := Invalid;
      if planning.None? || id == NO_ID || participant == NO_ID || turn == NO_ID || planning.value.readyRevision != NO_ID
      {
        return;
      }
      var replay := ReplayReservation(id, participant, turn, c);
      if replay.Some? {
        return replay.value;
      }
      var admissible, decisions := IsAdmissible(participant, turn, c);
      var reason := CheckpointInputReason(participant);
      if admissible && reason.Some? {
        var n := NonPublication(id, participant, turn, c, reason.value);
        RecordRefusal(id, n);
        answer := NotApplied(n);
      } else if admissible && !open {
        var r := RecordRevision(id, participant, turn, c, decisions);
        answer := Reserved(r);
      }
    }

    /** Names the refused checkpoint and keeps why it was not published. */
    method RecordRefusal(id: Id, n: NonPublication)
      requires planning.Some?
      modifies this`references, this`planning
      ensures references == Allocate(old(references), PlanRef, id)
      ensures planning == Some(old(planning).value.(nonPublications := old(planning).value.nonPublications + [n]))
    {
      var name := ReferenceFor(PlanRef, id);
      planning := Some(planning.value.(nonPublications := planning.value.nonPublications + [n]));
    }

    /** Names the checkpoint and adds it as the pending revision. */
    method RecordRevision(id: Id, participant: Id, turn: Id, c: Content, decisions: seq<Input>) returns (r: Revision)
      requires planning.Some? && Cites(inputs, participant, turn, c.decisionResponseIds)
      requires decisions == Decisions(inputs, participant, turn, c.decisionResponseIds)
      modifies this`references, this`planning
      ensures references == Allocate(old(references), PlanRef, id)
      ensures r == NewRevision(old(View()), id, participant, turn, c)
      ensures planning == Some(old(planning).value.(revisions := old(planning).value.revisions + [r]))
    {
      hide Allocate, Decisions, FindRevision;
      var current := CurrentPlan();
      var name := ReferenceFor(PlanRef, id);
      r := Revision(name, if current.Some? then current.value.reference else "", id, planning.value.currentRevision,
                    participant, turn, c, planning.value.originalRequest, decisions, false, false, None);
      planning := Some(planning.value.(revisions := planning.value.revisions + [r]));
    }

    /** Confirms the publication of a checkpoint, which becomes the current one. */
    method ConfirmCheckpoint(id: Id, source: Source) returns (ok: bool)
      requires Valid()
      modifies this
      ensures Valid() && history == old(history) + [Step.ConfirmCheckpoint(id, source)]
      ensures View() == AfterConfirm(old(View()), id, source)
      ensures ok <==> CanConfirm(old(View()), id, source)
    {
      RunStep(history, Step.ConfirmCheckpoint(id, source));
      hide Run;
      history := history + [Step.ConfirmCheckpoint(id, source)];
      if planning.None? || source.channel == NO_ID || source.id == NO_ID {
        return false;
      }
      for i := 0 to |planning.value.revisions|
        modifies this`planning
        invariant planning == old(planning)
        invariant forall j :: 0 <= j < i ==> planning.value.revisions[j].id != id
      {
        var r := planning.value.revisions[i];
        if r.id == id {
          assert RevisionAt(planning.value.revisions, id) == i;
          if r.publicationFailed {
            return false;
          }
          if r.published {
            return r.source == Some(source);
          }
          planning := Some(planning.value.(
            revisions := planning.value.revisions[i := r.(published := true, source := Some(source))],
            currentRevision := id));
          return true;
        }
      }
      ok := false;
    }

    method FailCheckpoint(id: Id) returns (ok: bool)
      requires Valid()
      modifies this
      ensures Valid() && history == old(history) + [Step.FailCheckpoint(id)]
      ensures View() == AfterFailCheckpoint(old(View()), id)
      ensures ok <==> old(planning).Some? && UnpublishedAt(old(planning).value.revisions, id) >= 0
    {
      RunStep(history, Step.FailCheckpoint(id));
      hide Run;
      history := history + [Step.FailCheckpoint(id)];
      if planning.None? {
        return false;
      }
      for i := 0 to |planning.value.revisions|
        modifies this`planning
        invariant planning == old(planning)
        invariant forall j :: 0 <= j < i ==>
                  !(planning.value.revisions[j].id == id && !planning.value.revisions[j].published)
      {
        var r := planning.value.revisions[i];
        if r.id == id && !r.published {
          assert UnpublishedAt(planning.value.revisions, id) == i;
          planning := Some(planning.value.(revisions := planning.value.revisions[i := r.(publicationFailed := true)]));
          return true;
        }
      }
      ok := false;
    }

    /** The delivered inputs a validation takes into account, and the last confirmation that authorizes it. */
    method AuthorityFor(revision: Id, participant: Id) returns (confirmation: Id, considered: seq<Id>)
      requires Valid() && planning.Some?
      ensures confirmation == Authority(View(), inputs, revision, participant)
      ensures considered == ConsideredInputs(inputs, participant)
    {
      ValidRounds();
      hide Valid;
      confirmation := NO_ID;
      considered := [];
      for i := 0 to |inputs|
        invariant confirmation == Authority(View(), inputs[..i], revision, participant)
        invariant considered == ConsideredInputs(inputs[..i], participant)
      {
        assert inputs[..i + 1][..i] == inputs[..i];
        var input := inputs[i];
        if input.participant == participant && Delivered(input) {
          considered := considered + [input.id];
          var latest := LatestAssessmentOf(input.id);
          if input.kind == ConfirmPlan && input.target == revision && input.id !in planning.value.invalidated &&
             latest.Some? && latest.value.disposition == Confirmed
          {
            confirmation := input.id;
          }
        }
      }
      assert inputs[..|inputs|] == inputs;
    }

    /** Records a final validation; readiness itself is committed separately. */
    method ValidatePlanning(
      operation: Id, revision: Id, participant: Id, turn: Id, commit: string, evidence: string, resolved: bool)
      returns (ok: bool)
      requires Valid()
      modifies this
      ensures Valid()
      ensures history == old(history) +
              [Step.ValidatePlanning(operation, revision, participant, turn, commit, evidence, resolved)]
      ensures View() == AfterValidate(old(View()), operation, revision, participant, turn, commit, evidence, resolved)
      ensures ok <==> CanValidate(old(View()), operation, revision, participant, turn, commit, evidence, resolved)
    {
      hide Run, CanValidate, Validatable, NewValidation, ValidationAt;
      ghost var before := View();
      RunStep(history, Step.ValidatePlanning(operation, revision, participant, turn, commit, evidence, resolved));
      var may, v := MayValidate(operation, revision, participant, turn, commit, evidence, resolved);
      history := history + [Step.ValidatePlanning(operation, revision, participant, turn, commit, evidence, resolved)];
      ValidateIs(before, operation, revision, participant, turn, commit, evidence, resolved);
      if !may {
        return false;
      }
      var at := FindValidation(turn);
      if at >= 0 {
        return planning.value.revalidations[at] == v;
      }
      if planning.value.readyRevision != NO_ID {
        return false;
      }
      planning := Some(planning.value.(revalidations := planning.value.revalidations + [v]));
      ok := true;
    }

    method FindValidation(turn: Id) returns (at: int)
      requires planning.Some?
      ensures at == ValidationAt(planning.value.revalidations, turn)
    {
      for i := 0 to |planning.value.revalidations|
        invariant forall j :: 0 <= j < i ==> planning.value.revalidations[j].turn != turn
      {
        if planning.value.revalidations[i].turn == turn {
          return i;
        }
      }
      at := -1;
    }

    method MayValidate(
      operation: Id, revision: Id, participant: Id, turn: Id, commit: string, evidence: string, resolved: bool)
      returns (ok: bool, v: Revalidation)
      requires Valid()
      ensures ok <==> Validatable(View(), operation, revision, participant, turn, commit, evidence, resolved)
      ensures ok ==>
                planning.Some? && v == NewValidation(View(), operation, revision, participant, turn, commit, evidence)
    {
      hide Unresolved, AssessmentBlocked, Pending, HasPreparation, Authority, ConsideredInputs, FindRevision, Blank,
        IsCommit;
      v := Revalidation(operation, revision, participant, turn, commit, evidence, NO_ID, []);
      var pending := IsPending(participant);
      var unresolved := IsUnresolved(participant);
      var blocked := IsAssessmentBlocked(participant);
      if operation == NO_ID || !resolved || !IsCommit(commit) || Blank(evidence) || pending || unresolved || blocked {
        return false, v;
      }
      var r := CurrentPlan();
      if r.None? || !r.value.published || r.value.id != revision || r.value.participant != participant ||
         r.value.content.status != Proposed
      {
        return false, v;
      }
      var prepared := IsPrepared(participant, turn);
      if !prepared {
        return false, v;
      }
      var confirmation, considered := AuthorityFor(revision, participant);
      if confirmation == NO_ID {
        return false, v;
      }
      ok, v := true, v.(confirmation := confirmation, considered := considered);
    }

    /** Rechecks a recorded validation's authority: an old validation is not a current grant. */
    method IsValidationCurrent(v: Revalidation) returns (current: bool)
      requires Valid()
      ensures current <==> ValidationCurrent(View(), v)
    {
      hide Unresolved, AssessmentBlocked, Pending, Valid;
      if planning.None? || planning.value.currentRevision != v.revision || v.confirmation in planning.value.invalidated
      {
        return false;
      }
      var pending := IsPending(v.participant);
      var blocked := IsAssessmentBlocked(v.participant);
      var unresolved := IsUnresolved(v.participant);
      var latest := LatestAssessmentOf(v.confirmation);
      if pending || blocked || unresolved || latest.None? || latest.value.disposition != Confirmed {
        return false;
      }
      for i := 0 to |inputs|
        invariant forall j :: 0 <= j < i && inputs[j].participant == v.participant ==> inputs[j].id in v.considered
      {
        if inputs[i].participant == v.participant && inputs[i].id !in v.considered {
          return false;
        }
      }
      current := true;
    }

    /** Settlement's commit of a ready plan: the Turn's validation must still hold at that moment. */
    method CommitReadiness(participant: Id, turn: Id) returns (ok: bool)
      requires Valid()
      modifies this
      ensures Valid() && history == old(history) + [Step.CommitReadiness(participant, turn)]
      ensures View() == AfterCommit(old(View()), participant, turn)
      ensures ok <==> CanCommit(old(View()), participant, turn)
    {
      hide Run, CanCommit;
      RunStep(history, Step.CommitReadiness(participant, turn));
      ok := MayCommit(participant, turn);
      history := history + [Step.CommitReadiness(participant, turn)];
      if ok {
        assert planning.Some? by {
          CommittablePlan(View(), participant, turn);
        }
        planning := Some(planning.value.(readyRevision := planning.value.currentRevision));
      }
    }

    method MayCommit(participant: Id, turn: Id) returns (ok: bool)
      requires Valid()
      ensures ok <==> CanCommit(View(), participant, turn)
    {
      hide Unresolved, AssessmentBlocked, Pending, Valid, ValidationCurrent;
      if planning.None? {
        return false;
      }
      var pending := IsPending(participant);
      var blocked := IsAssessmentBlocked(participant);
      var unresolved := IsUnresolved(participant);
      if pending || blocked || unresolved {
        return false;
      }
      for i := 0 to |planning.value.revalidations|
        invariant forall j :: 0 <= j < i ==> !Commits(View(), turn, planning.value.revalidations[j])
      {
        var v := planning.value.revalidations[i];
        if v.turn == turn && v.revision == planning.value.currentRevision {
          var current := IsValidationCurrent(v);
          if current {
            assert Commits(View(), turn, planning.value.revalidations[i]);
            return true;
          }
        }
      }
      ok := false;
    }
  }

  lemma CommittablePlan(s: Snapshot, participant: Id, turn: Id)
    requires CanCommit(s, participant, turn)
    ensures s.planning.Some?
  {
  }

  lemma ResolvableRound(s: Snapshot, round: Id, turn: Id, rs: seq<Resolution>)
    requires CanResolve(s, round, turn, rs)
    ensures RoundAt(s.rounds, round) >= 0
  {
  }

  lemma FrontierNotSuperseded(steps: seq<Step>)
    ensures var s := Run(EMPTY, steps);
            forall i :: 0 <= i < |s.rounds| && s.rounds[i].supersededBy != NO_ID ==> s.rounds[i].id != s.currentRound
  {
    var s := Run(EMPTY, steps);
    EmptyGood();
    RunGood(EMPTY, steps);
    assert RoundsOk(s.rounds, s.currentRound);
    hide Good, Extends;
    CurrentIsPublished(s.rounds, s.currentRound);
  }

  lemma AboutOne(g: Resolution)
    ensures forall questions :: About([g], questions) == if Asks(questions, g.questionId) then [g] else []
  {
    assert [g][..0] == [];
    assert forall questions :: About([], questions) == [];
  }

  lemma NothingRecorded(s: Snapshot, at: nat)
    requires at < |s.rounds|
    ensures RecordedRounds(s, at, []) == s.rounds
  {
    assert forall j :: 0 <= j < |s.rounds| ==> s.rounds[j].resolutions + Gains(s, at, j, []) == s.rounds[j].resolutions;
  }

  /** One interpretation: its own round first, then the current round that still asks its question. */
  lemma RecordedOne(s: Snapshot, at: nat, g: Resolution, own: seq<Round>, later: seq<Round>)
    requires at < |s.rounds| && own == s.rounds[at := s.rounds[at].(resolutions := s.rounds[at].resolutions + [g])]
    requires |later| == |own|
    requires forall k :: 0 <= k < |own| ==>
               later[k] == if s.rounds[at].supersededBy != NO_ID && own[k].id == s.currentRound &&
                              own[k].participant == s.rounds[at].participant && Asks(own[k].questions, g.questionId)
                           then own[k].(resolutions := own[k].resolutions + [g]) else own[k]
    ensures later == RecordedRounds(s, at, [g])
  {
    hide Asks, Gains;
    forall k | 0 <= k < |later| ensures later[k] == RecordedRounds(s, at, [g])[k] {
      GainsOne(s, at, k, g);
      var rs := s.rounds[k].resolutions;
      assert (rs + [g]) + [g] == rs + ([g] + [g]);
      assert rs + [] == rs;
    }
  }

  lemma GainsOne(s: Snapshot, at: nat, j: nat, g: Resolution)
    requires at < |s.rounds| && j < |s.rounds|
    ensures var passedOn := s.rounds[at].supersededBy != NO_ID && s.rounds[j].id == s.currentRound &&
                            s.rounds[j].participant == s.rounds[at].participant &&
                            Asks(s.rounds[j].questions, g.questionId);
            Gains(s, at, j, [g]) ==
              if j == at then (if passedOn then [g] + [g] else [g]) else if passedOn then [g] else []
  {
    hide Asks, About;
    AboutOne(g);
    assert [g] + [] == [g] && [] + [g] == [g];
  }

  lemma GainsMore(s: Snapshot, mid: Snapshot, at: nat, rs: seq<Resolution>, g: Resolution, j: nat)
    requires at < |s.rounds| && |mid.rounds| == |s.rounds| && j < |s.rounds| && mid.currentRound == s.currentRound
    requires forall k :: 0 <= k < |s.rounds| ==> mid.rounds[k] == s.rounds[k].(resolutions := mid.rounds[k].resolutions)
    requires s.rounds[at].supersededBy != NO_ID ==> s.rounds[at].id != s.currentRound
    ensures Gains(s, at, j, rs + [g]) == Gains(s, at, j, rs) + Gains(mid, at, j, [g])
  {
    assert (rs + [g])[..|rs + [g]| - 1] == rs;
    AboutOne(g);
    hide Asks;
  }

  /** Recording one interpretation after others is recording them all. */
  lemma RecordedMore(s: Snapshot, mid: Snapshot, at: nat, rs: seq<Resolution>, g: Resolution)
    requires at < |s.rounds| && mid.rounds == RecordedRounds(s, at, rs) && mid.currentRound == s.currentRound
    requires s.rounds[at].supersededBy != NO_ID ==> s.rounds[at].id != s.currentRound
    ensures RecordedRounds(mid, at, [g]) == RecordedRounds(s, at, rs + [g])
  {
    hide Gains;
    forall j | 0 <= j < |s.rounds|
      ensures RecordedRounds(mid, at, [g])[j] == RecordedRounds(s, at, rs + [g])[j]
    {
      var old_ := s.rounds[j].resolutions;
      GainsMore(s, mid, at, rs, g, j);
      assert (old_ + Gains(s, at, j, rs)) + Gains(mid, at, j, [g]) ==
        old_ + (Gains(s, at, j, rs) + Gains(mid, at, j, [g]));
    }
  }

  lemma AssignAllAppend(inputs: seq<Input>, input: Input, participant: Id, turn: Id)
    ensures AssignAll(inputs + [input], participant, turn) ==
            AssignAll(inputs, participant, turn) + [Assign(input, participant, turn)]
  {
  }

  lemma {:induction false} ParentListed(inputs: seq<Input>, id: Id)
    requires Parent(inputs, id) != NO_ID
    ensures exists i :: 0 <= i < |inputs| && inputs[i].amends == Parent(inputs, id)
  {
    if inputs[0].id != id {
      ParentListed(inputs[1..], id);
      var i :| 0 <= i < |inputs[1..]| && inputs[1..][i].amends == Parent(inputs, id);
      assert inputs[i + 1] == inputs[1..][i];
    }
  }

  lemma AncestorSteps(inputs: seq<Input>, start: Id)
    ensures Ancestor(inputs, start, 0) == start
    ensures forall n: nat :: Ancestor(inputs, start, n + 1) ==
              if Ancestor(inputs, start, n) == NO_ID then NO_ID else Parent(inputs, Ancestor(inputs, start, n))
  {
    hide Parent;
  }

  lemma BatchNone(operation: Id, inputs: seq<Input>, invalidated: seq<Id>)
    ensures Recorded(operation, []) == [] && Withdrawn(invalidated, inputs, []) == invalidated
  {
  }

  lemma BatchSnoc(operation: Id, inputs: seq<Input>, invalidated: seq<Id>, batch: seq<Assessment>, k: nat)
    requires k < |batch|
    ensures Recorded(operation, batch[..k + 1]) == Recorded(operation, batch[..k]) + [batch[k].(origin := operation)]
    ensures Withdrawn(invalidated, inputs, batch[..k + 1]) ==
            var before := Withdrawn(invalidated, inputs, batch[..k]);
            if batch[k].invalidateConfirmation ||
              (IsConfirmation(inputs, batch[k].inputId) && batch[k].disposition != Confirmed)
            then Invalidate(before, inputs, Reach(inputs, batch[k].inputId)) else before
  {
    assert batch[..k + 1][..k] == batch[..k];
  }

  /** What the acceptance of a validation comes down to. */
  lemma ValidateIs(
    s: Snapshot, operation: Id, revision: Id, participant: Id, turn: Id, commit: string, evidence: string,
    resolved: bool)
    ensures CanValidate(s, operation, revision, participant, turn, commit, evidence, resolved) <==>
            Validatable(s, operation, revision, participant, turn, commit, evidence, resolved) && s.planning.Some? &&
            var at := ValidationAt(s.planning.value.revalidations, turn);
            var v := NewValidation(s, operation, revision, participant, turn, commit, evidence);
            if at >= 0 then s.planning.value.revalidations[at] == v else s.planning.value.readyRevision == NO_ID
  {
    hide ValidationAt, NewValidation;
  }
}
