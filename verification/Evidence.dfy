/** The evidence graph: how it grows, and what is reachable in it.

  Its nodes are inputs; an edge leads from an input to one that it amends or is assessed as correcting.  Corrections
  may form cycles, amendments do not.
 */
module Evidence {
  import opened Basics
  import opened Conversation

  /** Only delivery bookkeeping may differ between two records of one input. */
  predicate SameInput(earlier: Input, later: Input) {
    later == earlier.(deliveredTo := later.deliveredTo, deliveryPending := later.deliveryPending)
  }

  /** Accepted inputs are never lost, reordered or rewritten. */
  predicate InputsGrow(inputs: seq<Input>, later: seq<Input>) {
    |inputs| <= |later| && forall i :: 0 <= i < |inputs| ==> SameInput(inputs[i], later[i])
  }

  predicate DistinctInputs(inputs: seq<Input>) {
    (forall i :: 0 <= i < |inputs| ==> inputs[i].id != NO_ID) &&
    forall i, j :: 0 <= i < j < |inputs| ==> inputs[i].id != inputs[j].id
  }

  /** Every amendment names a strictly earlier input. */
  predicate AmendsEarlier(inputs: seq<Input>) {
    forall i :: 0 <= i < |inputs| && inputs[i].amends != NO_ID ==>
      exists j :: 0 <= j < i && inputs[j].id == inputs[i].amends
  }

  // ----- Parents -----

  lemma {:induction false} ParentIsAmends(inputs: seq<Input>, i: nat)
    requires i < |inputs| && forall j :: 0 <= j < i ==> inputs[j].id != inputs[i].id
    ensures Parent(inputs, inputs[i].id) == inputs[i].amends
  {
    if i > 0 {
      ParentIsAmends(inputs[1..], i - 1);
    }
  }

  lemma {:induction false} NoParent(inputs: seq<Input>, id: Id)
    requires !HasInput(inputs, id)
    ensures Parent(inputs, id) == NO_ID
  {
    if |inputs| > 0 {
      assert inputs[0].id != id;
      forall j | 0 <= j < |inputs[1..]| ensures inputs[1..][j].id != id {
        assert inputs[1..][j] == inputs[j + 1];
      }
      NoParent(inputs[1..], id);
    }
  }

  lemma {:induction false} ParentGrows(inputs: seq<Input>, later: seq<Input>, id: Id)
    requires InputsGrow(inputs, later) && HasInput(inputs, id)
    ensures Parent(later, id) == Parent(inputs, id)
  {
    assert SameInput(inputs[0], later[0]);
    if inputs[0].id != id {
      var i :| 0 <= i < |inputs| && inputs[i].id == id;
      assert inputs[1..][i - 1].id == id;
      ParentGrows(inputs[1..], later[1..], id);
    }
  }

  lemma ParentKept(inputs: seq<Input>, later: seq<Input>, id: Id)
    requires InputsGrow(inputs, later) && Parent(inputs, id) != NO_ID
    ensures Parent(later, id) == Parent(inputs, id)
  {
    if !HasInput(inputs, id) {
      NoParent(inputs, id);
    }
    ParentGrows(inputs, later, id);
  }

  // ----- Monotone lineage -----

  lemma EdgeGrows(inputs: seq<Input>, later: seq<Input>, asr: seq<Assessment>, asr': seq<Assessment>, id: Id, prior: Id)
    requires InputsGrow(inputs, later) && asr <= asr' && Edge(inputs, asr, id, prior)
    ensures Edge(later, asr', id, prior)
  {
    if Parent(inputs, id) == prior {
      ParentKept(inputs, later, id);
    } else {
      CorrectsGrows(asr, asr', id, prior);
    }
  }

  lemma CorrectsGrows(asr: seq<Assessment>, asr': seq<Assessment>, id: Id, prior: Id)
    requires asr <= asr' && Corrects(asr, id, prior)
    ensures Corrects(asr', id, prior)
  {
    var i :| 0 <= i < |asr| && CorrectsIn(asr[i], id, prior);
    assert asr'[i] == asr[i];
  }

  lemma ReachesGrows(
    inputs: seq<Input>, later: seq<Input>, asr: seq<Assessment>, asr': seq<Assessment>, id: Id, prior: Id)
    requires InputsGrow(inputs, later) && asr <= asr' && Reaches(inputs, asr, id, prior)
    ensures Reaches(later, asr', id, prior)
  {
    var path :| |path| > 0 && path[0] == id && path[|path| - 1] == prior && Path(inputs, asr, path);
    forall k | 0 <= k < |path| - 1 ensures Edge(later, asr', path[k], path[k + 1]) {
      EdgeGrows(inputs, later, asr, asr', path[k], path[k + 1]);
    }
    assert Path(later, asr', path);
  }

  /** Evidence that revises an earlier response keeps doing so whatever is accepted or assessed later. */
  lemma RevisesGrows(
    inputs: seq<Input>, later: seq<Input>, asr: seq<Assessment>, asr': seq<Assessment>, id: Id, prior: Id)
    requires InputsGrow(inputs, later) && asr <= asr' && Revises(inputs, asr, id, prior)
    ensures Revises(later, asr', id, prior)
  {
    if Corrects(asr, id, prior) {
      CorrectsGrows(asr, asr', id, prior);
    } else {
      var i :| 0 <= i < |inputs| && inputs[i].id == id && inputs[i].amends != NO_ID;
      assert SameInput(inputs[i], later[i]);
      var x :| Reaches(inputs, asr, id, x) && Reaches(inputs, asr, prior, x);
      ReachesGrows(inputs, later, asr, asr', id, x);
      ReachesGrows(inputs, later, asr, asr', prior, x);
    }
  }

  lemma RevisesAnyGrows(
    inputs: seq<Input>, later: seq<Input>, asr: seq<Assessment>, asr': seq<Assessment>, id: Id, priors: seq<Id>)
    requires InputsGrow(inputs, later) && asr <= asr' && RevisesAny(inputs, asr, id, priors)
    ensures RevisesAny(later, asr', id, priors)
  {
    var k :| 0 <= k < |priors| && Revises(inputs, asr, id, priors[k]);
    RevisesGrows(inputs, later, asr, asr', id, priors[k]);
  }

  lemma CanReviseGrows(
    inputs: seq<Input>, later: seq<Input>, asr: seq<Assessment>, asr': seq<Assessment>, old_: Option<Resolution>,
    next: Resolution)
    requires InputsGrow(inputs, later) && asr <= asr' && CanRevise(inputs, asr, old_, next)
    ensures CanRevise(later, asr', old_, next)
  {
    if old_.Some? && !old_.value.obsolete && !next.obsolete {
      var k :| 0 <= k < |next.responseIds| && RevisesAny(inputs, asr, next.responseIds[k], old_.value.responseIds);
      RevisesAnyGrows(inputs, later, asr, asr', next.responseIds[k], old_.value.responseIds);
    }
  }

  // ----- Reachability -----

  lemma ReachesSelf(inputs: seq<Input>, asr: seq<Assessment>, id: Id)
    requires id != NO_ID
    ensures Reaches(inputs, asr, id, id)
  {
    assert Path(inputs, asr, [id]) && [id][0] == id;
  }

  lemma ReachesVia(inputs: seq<Input>, asr: seq<Assessment>, from: Id, via: Id, to: Id)
    requires from != NO_ID && Edge(inputs, asr, from, via) && Reaches(inputs, asr, via, to)
    ensures Reaches(inputs, asr, from, to)
  {
    var path :| |path| > 0 && path[0] == via && path[|path| - 1] == to && Path(inputs, asr, path);
    var longer := [from] + path;
    forall k | 0 <= k < |longer| - 1 ensures Edge(inputs, asr, longer[k], longer[k + 1]) {
      if k > 0 {
        assert Edge(inputs, asr, path[k - 1], path[k]);
      }
    }
    assert longer[0] == from && longer[|longer| - 1] == to && Path(inputs, asr, longer);
  }

  /** A set that contains the start and is closed under edges contains everything reachable. */
  lemma {:induction false} ClosedContains(inputs: seq<Input>, asr: seq<Assessment>, closed: set<Id>, path: seq<Id>)
    requires |path| > 0 && Path(inputs, asr, path) && path[0] in closed
    requires forall x, y :: x in closed && Edge(inputs, asr, x, y) ==> y in closed
    ensures path[|path| - 1] in closed
  {
    if |path| > 1 {
      assert Edge(inputs, asr, path[0], path[1]);
      forall k | 0 <= k < |path[1..]| - 1 ensures Edge(inputs, asr, path[1..][k], path[1..][k + 1]) {
        assert Edge(inputs, asr, path[k + 1], path[k + 2]);
      }
      ClosedContains(inputs, asr, closed, path[1..]);
    }
  }

  // ----- Amendment chains -----

  lemma {:induction false} AncestorsStop(inputs: seq<Input>, id: Id, n: nat, m: nat)
    requires n <= m && Ancestor(inputs, id, n) != NO_ID && Parent(inputs, Ancestor(inputs, id, n)) == NO_ID
    ensures m > n ==> Ancestor(inputs, id, m) == NO_ID
  {
    if m > n + 1 {
      AncestorsStop(inputs, id, n, m - 1);
    }
  }

  lemma {:induction false} AncestorsOfNone(inputs: seq<Input>, n: nat)
    ensures Ancestor(inputs, NO_ID, n) == NO_ID
  {
    if n > 0 {
      AncestorsOfNone(inputs, n - 1);
    }
  }

}
