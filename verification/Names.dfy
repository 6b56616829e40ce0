/** Permanent short names such as R3, A7 and P2 for the rounds, inputs and plans of a Work Item. */
module Names {

  datatype RefKind = RoundRef | InputRef | PlanRef

  datatype Reference = Reference(name: string, id: nat, kind: RefKind)

  function Letter(kind: RefKind): char {
    match kind
    case RoundRef => 'R'
    case InputRef => 'A'
    case PlanRef => 'P'
  }

  function Digit(n: nat): char
    requires n < 10
  {
    "0123456789"[n]
  }

  /** Decimal notation, as the `%d` verb prints it. */
  function Decimal(n: nat): (digits: string)
    ensures |digits| >= 1
    ensures n >= 10 ==> |digits| >= 2
  {
    if n < 10 then [Digit(n)] else Decimal(n / 10) + [Digit(n % 10)]
  }

  function Name(kind: RefKind, n: nat): string {
    [Letter(kind)] + Decimal(n)
  }

  lemma {:induction false} DecimalInjective(m: nat, n: nat)
    requires Decimal(m) == Decimal(n)
    ensures m == n
  {
    if m >= 10 && n >= 10 {
      var a, b := Decimal(m), Decimal(n);
      assert a[|a| - 1] == Digit(m % 10) && b[|b| - 1] == Digit(n % 10);
      assert a[..|a| - 1] == Decimal(m / 10) && b[..|b| - 1] == Decimal(n / 10);
      DecimalInjective(m / 10, n / 10);
    }
  }

  /** No two numbers of one kind share a name. */
  lemma NameInjective(kind: RefKind, m: nat, n: nat)
    requires Name(kind, m) == Name(kind, n)
    ensures m == n
  {
    assert Name(kind, m)[1..] == Decimal(m) && Name(kind, n)[1..] == Decimal(n);
    DecimalInjective(m, n);
  }

  // ----- The allocation list -----

  /** How many names of a kind have been allocated. */
  function Count(references: seq<Reference>, kind: RefKind): nat {
    if |references| == 0 then 0
    else Count(references[..|references| - 1], kind) + if references[|references| - 1].kind == kind then 1 else 0
  }

  /** The position of the first reference to `id`, or -1. */
  function RefAt(references: seq<Reference>, kind: RefKind, id: nat): (at: int)
    ensures -1 <= at < |references|
    ensures at >= 0 ==> references[at].kind == kind && references[at].id == id
    ensures forall i :: 0 <= i < (if at < 0 then |references| else at) ==>
              !(references[i].kind == kind && references[i].id == id)
  {
    if |references| == 0 then -1
    else
      var earlier := RefAt(references[..|references| - 1], kind, id);
      if earlier >= 0 then earlier
      else if references[|references| - 1].kind == kind && references[|references| - 1].id == id then |references| - 1
      else -1
  }

  /** The position of the first reference of a kind with this name, or -1. */
  function NameAt(references: seq<Reference>, kind: RefKind, name: string): (at: int)
    ensures -1 <= at < |references|
    ensures at >= 0 ==> references[at].kind == kind && references[at].name == name
    ensures forall i :: 0 <= i < (if at < 0 then |references| else at) ==>
              !(references[i].kind == kind && references[i].name == name)
  {
    if |references| == 0 then -1
    else
      var earlier := NameAt(references[..|references| - 1], kind, name);
      if earlier >= 0 then earlier
      else if references[|references| - 1].kind == kind && references[|references| - 1].name == name then
        |references| - 1
      else -1
  }

  /** The name `id` has, or is about to be given. */
  function NameFor(references: seq<Reference>, kind: RefKind, id: nat): string {
    var at := RefAt(references, kind, id);
    if at >= 0 then references[at].name else Name(kind, Count(references, kind) + 1)
  }

  function Allocate(references: seq<Reference>, kind: RefKind, id: nat): seq<Reference> {
    if RefAt(references, kind, id) >= 0 then references
    else references + [Reference(NameFor(references, kind, id), id, kind)]
  }

  /** The identity a short name stands for; 0 when it stands for nothing. */
  function Target(references: seq<Reference>, kind: RefKind, name: string): nat {
    var at := NameAt(references, kind, name);
    if at >= 0 then references[at].id else 0
  }

  /** The identities of one kind, in the order they were named. */
  function Named(references: seq<Reference>, kind: RefKind): (ids: seq<nat>)
    ensures |ids| == Count(references, kind)
  {
    if |references| == 0 then []
    else
      var last := references[|references| - 1];
      Named(references[..|references| - 1], kind) + if last.kind == kind then [last.id] else []
  }

  // ----- What allocation keeps -----

  /** Each kind is numbered 1, 2, 3, ... and no identity is named twice. */
  ghost predicate Numbered(references: seq<Reference>) {
    (forall i :: 0 <= i < |references| ==> NumberedAt(references, i)) && NamedOnce(references)
  }

  predicate NumberedAt(references: seq<Reference>, i: int)
    requires 0 <= i < |references|
  {
    references[i].name == Name(references[i].kind, Count(references[..i], references[i].kind) + 1)
  }

  predicate NamedOnce(references: seq<Reference>) {
    forall i, j :: 0 <= i < j < |references| && references[i].kind == references[j].kind ==>
      references[i].id != references[j].id
  }

  lemma {:induction false} CountMonotone(references: seq<Reference>, kind: RefKind, i: nat)
    requires i <= |references|
    ensures Count(references[..i], kind) <= Count(references, kind)
  {
    if i < |references| {
      var shorter := references[..|references| - 1];
      CountMonotone(shorter, kind, i);
      assert shorter[..i] == references[..i];
    } else {
      assert references[..i] == references;
    }
  }

  /** Names of one kind are distinct, because each position counts one more than the last. */
  lemma {:induction false} NamesDistinct(references: seq<Reference>, i: nat, j: nat)
    requires Numbered(references) && i < j < |references| && references[i].kind == references[j].kind
    ensures references[i].name != references[j].name
  {
    var kind := references[i].kind;
    assert NumberedAt(references, i) && NumberedAt(references, j);
    assert references[..i + 1][..i] == references[..i];
    assert Count(references[..i + 1], kind) == Count(references[..i], kind) + 1;
    CountMonotone(references[..j], kind, i + 1);
    assert references[..j][..i + 1] == references[..i + 1];
    if references[i].name == references[j].name {
      NameInjective(kind, Count(references[..i], kind) + 1, Count(references[..j], kind) + 1);
    }
  }

  lemma {:induction false} AllocateNumbered(references: seq<Reference>, kind: RefKind, id: nat)
    requires Numbered(references)
    ensures Numbered(Allocate(references, kind, id))
  {
    if RefAt(references, kind, id) < 0 {
      var added := Reference(NameFor(references, kind, id), id, kind);
      var longer := references + [added];
      forall i | 0 <= i < |longer|
        ensures NumberedAt(longer, i)
      {
        if i < |references| {
          assert NumberedAt(references, i);
          assert longer[..i] == references[..i];
        } else {
          assert longer[..i] == references;
        }
      }
      forall i, j | 0 <= i < j < |longer| && longer[i].kind == longer[j].kind
        ensures longer[i].id != longer[j].id
      {
        assert longer[i] == references[i];
      }
    }
  }

  /** A new identity is listed last; an old one changes nothing. */
  lemma {:induction false} AllocateNamed(references: seq<Reference>, kind: RefKind, id: nat, other: RefKind)
    requires RefAt(references, kind, id) < 0
    ensures Named(Allocate(references, kind, id), other) == Named(references, other) + if kind == other then [id]
            else []
    ensures NameFor(references, kind, id) == Name(kind, |Named(references, kind)| + 1)
  {
    var longer := Allocate(references, kind, id);
    assert longer[..|longer| - 1] == references;
  }

  lemma {:induction false} NamedContains(references: seq<Reference>, kind: RefKind, id: nat)
    ensures id in Named(references, kind) <==> RefAt(references, kind, id) >= 0
  {
    if |references| > 0 {
      NamedContains(references[..|references| - 1], kind, id);
    }
  }

  /** `target` undoes `reference`, and keeps undoing it however the list grows. */
  lemma {:induction false} TargetInvertsName(references: seq<Reference>, later: seq<Reference>, kind: RefKind, id: nat)
    requires Numbered(later) && Allocate(references, kind, id) <= later
    ensures Target(later, kind, NameFor(references, kind, id)) == id
  {
    var longer := Allocate(references, kind, id);
    var name := NameFor(references, kind, id);
    var at := if RefAt(references, kind, id) >= 0 then RefAt(references, kind, id) else |references|;
    assert longer[at] == later[at] && later[at].name == name && later[at].kind == kind && later[at].id == id;
    var found := NameAt(later, kind, name);
    if found < at {
      NamesDistinct(later, found, at);
    }
  }
}
