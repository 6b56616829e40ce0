/** CI evidence in pages that share one offset. */
module EvidencePages {
  import opened Basics
  import opened CIMatching
  import R = ReviewRelease

  const PAGE: nat := 20

  /** What was observed on one commit, with the results of the required policy. */
  datatype Target = Target(
    head: string, availability: Availability, checks: seq<Check>, statuses: seq<Status>, failures: seq<Failure>,
    required: seq<Result>)

  datatype Page =
    | Page(checkRuns: seq<Check>, requirements: seq<Requirement>, unresolved: seq<string>, failures: seq<Failure>,
           targets: seq<Target>, more: bool, next: nat)
    | Stale
    | TooLarge

  function Window<T>(items: seq<T>, start: nat, end: nat): seq<T>
    requires start <= end
  {
    if start >= |items| then [] else items[start..Min(end, |items|)]
  }

  function TargetWindow(t: Target, start: nat, end: nat): Target
    requires start <= end
  {
    t.(checks := Window(t.checks, start, end), statuses := Window(t.statuses, start, end),
       failures := Window(t.failures, start, end), required := Window(t.required, start, end))
  }

  function TargetWindows(targets: seq<Target>, start: nat, end: nat): seq<Target>
    requires start <= end
  {
    seq(|targets|, i requires 0 <= i < |targets| => TargetWindow(targets[i], start, end))
  }

  ghost function TargetFor(requirements: seq<Requirement>, o: Observation): Target {
    Target(o.head, o.availability, o.checks, o.statuses, o.failures, MatchedAll(requirements, o))
  }

  ghost function TargetsFor(requirements: seq<Requirement>, observations: seq<Observation>): seq<Target> {
    seq(|observations|, i requires 0 <= i < |observations| => TargetFor(requirements, observations[i]))
  }

  function LongestOf(t: Target): nat {
    Max(Max(|t.checks|, |t.statuses|), Max(|t.failures|, |t.required|))
  }

  /** The length of the longest collection. */
  function Longest(inventory: R.Inventory, targets: seq<Target>): nat {
    if |targets| == 0 then Max(Max(|inventory.requirements|, |inventory.unresolved|), |inventory.failures|)
    else Max(Longest(inventory, targets[..|targets| - 1]), LongestOf(targets[|targets| - 1]))
  }

  /** The checks of the last target that is the reviewed commit. */
  function ReviewedChecks(head: string, targets: seq<Target>): seq<Check> {
    if |targets| == 0 then []
    else if targets[|targets| - 1].head == head then targets[|targets| - 1].checks
    else ReviewedChecks(head, targets[..|targets| - 1])
  }

  /** The page that shows so many items of every collection. */
  function PageAt(head: string, inventory: R.Inventory, targets: seq<Target>, offset: nat, count: nat): Page {
    var windows := TargetWindows(targets, offset, offset + count);
    Page(ReviewedChecks(head, windows),
         Window(inventory.requirements, offset, offset + count),
         Window(inventory.unresolved, offset, offset + count),
         Window(inventory.failures, offset, offset + count),
         windows, offset + count < Longest(inventory, targets), offset + count)
  }

  /** The page with as many items as fit, if it is not behind everything. */
  ghost predicate IsPage(
    head: string, inventory: R.Inventory, targets: seq<Target>, offset: nat, fits: Page -> bool, page: Page)
  {
    if offset > 0 && offset >= Longest(inventory, targets) then page.Stale?
    else if forall count :: 1 <= count <= PAGE ==> !fits(PageAt(head, inventory, targets, offset, count)) then
      page.TooLarge?
    else
      exists count ::
        && 1 <= count <= PAGE && page == PageAt(head, inventory, targets, offset, count) && fits(page)
        && forall larger :: count < larger <= PAGE ==> !fits(PageAt(head, inventory, targets, offset, larger))
  }

  lemma LongestSnoc(inventory: R.Inventory, targets: seq<Target>, target: Target)
    ensures Longest(inventory, targets + [target]) == Max(Longest(inventory, targets), LongestOf(target))
    ensures Longest(inventory, []) == Max(Max(|inventory.requirements|, |inventory.unresolved|), |inventory.failures|)
  {
    assert (targets + [target])[..|targets|] == targets;
  }

  lemma NoneReviewed(head: string)
    ensures ReviewedChecks(head, []) == []
  {
  }

  lemma ReviewedSnoc(head: string, windows: seq<Target>, window: Target)
    ensures ReviewedChecks(head, windows + [window]) == if window.head == head then window.checks
            else ReviewedChecks(head, windows)
  {
    assert (windows + [window])[..|windows|] == windows;
  }

  method ObserveTargets(inventory: R.Inventory, observations: seq<Observation>)
    returns (targets: seq<Target>, longest: nat)
    ensures targets == TargetsFor(inventory.requirements, observations) && longest == Longest(inventory, targets)
  {
    hide MatchedAll, LongestOf;
    targets := [];
    longest := Max(Max(|inventory.requirements|, |inventory.unresolved|), |inventory.failures|);
    for i := 0 to |observations|
      invariant targets == TargetsFor(inventory.requirements, observations[..i]) &&
                longest == Longest(inventory, targets)
    {
      var o := observations[i];
      var matched := MatchRequiredCI(inventory.requirements, o);
      var target := Target(o.head, o.availability, o.checks, o.statuses, o.failures, matched);
      LongestSnoc(inventory, targets, target);
      assert observations[..i + 1][..i] == observations[..i];
      targets := targets + [target];
      longest := Max(longest, LongestOf(target));
    }
    assert observations[..|observations|] == observations;
  }

  method BuildPage(head: string, inventory: R.Inventory, targets: seq<Target>, offset: nat, count: nat, longest: nat)
    returns (page: Page)
    requires longest == Longest(inventory, targets)
    ensures page == PageAt(head, inventory, targets, offset, count)
  {
    hide ReviewedChecks, TargetWindow, Window, Longest;
    var end := offset + count;
    var windows, checkRuns := [], [];
    NoneReviewed(head);
    for i := 0 to |targets|
      invariant windows == TargetWindows(targets[..i], offset, end) && checkRuns == ReviewedChecks(head, windows)
    {
      var window := TargetWindow(targets[i], offset, end);
      ReviewedSnoc(head, windows, window);
      windows := windows + [window];
      if window.head == head {
        checkRuns := window.checks;
      }
      assert windows == TargetWindows(targets[..i + 1], offset, end);
    }
    assert targets[..|targets|] == targets;
    page := Page(checkRuns, Window(inventory.requirements, offset, end), Window(inventory.unresolved, offset, end),
                 Window(inventory.failures, offset, end), windows, end < longest, end);
  }

  method PageCIEvidence(
    inventory: R.Inventory, observations: seq<Observation>, head: string, offset: nat, fits: Page -> bool)
    returns (page: Page)
    ensures IsPage(head, inventory, TargetsFor(inventory.requirements, observations), offset, fits, page)
  {
    hide PageAt, TargetsFor, Longest, IsPage;
    var targets, longest := ObserveTargets(inventory, observations);
    PageIs(head, inventory, targets, offset, fits);
    if offset > 0 && offset >= longest {
      return Stale;
    }
    var count: nat := PAGE;
    while count >= 1
      invariant count <= PAGE
      invariant forall larger :: count < larger <= PAGE ==> !fits(PageAt(head, inventory, targets, offset, larger))
    {
      page := BuildPage(head, inventory, targets, offset, count, longest);
      if fits(page) {
        FittingPage(head, inventory, targets, offset, fits, count);
        return;
      }
      count := count - 1;
    }
    return TooLarge;
  }

  lemma PageIs(head: string, inventory: R.Inventory, targets: seq<Target>, offset: nat, fits: Page -> bool)
    ensures offset > 0 && offset >= Longest(inventory, targets) ==>
            IsPage(head, inventory, targets, offset, fits, Stale)
    ensures !(offset > 0 && offset >= Longest(inventory, targets)) &&
            (forall count :: 1 <= count <= PAGE ==> !fits(PageAt(head, inventory, targets, offset, count))) ==>
              IsPage(head, inventory, targets, offset, fits, TooLarge)
  {
    hide PageAt, Longest;
  }

  lemma FittingPage(
    head: string, inventory: R.Inventory, targets: seq<Target>, offset: nat, fits: Page -> bool, count: nat)
    requires !(offset > 0 && offset >= Longest(inventory, targets)) && 1 <= count <= PAGE
    requires fits(PageAt(head, inventory, targets, offset, count))
    requires forall larger :: count < larger <= PAGE ==> !fits(PageAt(head, inventory, targets, offset, larger))
    ensures IsPage(head, inventory, targets, offset, fits, PageAt(head, inventory, targets, offset, count))
  {
    hide PageAt, Longest;
  }

  // ----- Following the cursors -----

  /** The pages of a caller who follows every continuation to the end; pages may differ in size. */
  predicate Followed(head: string, inventory: R.Inventory, targets: seq<Target>, offset: nat, pages: seq<Page>)
    decreases |pages|
  {
    && |pages| > 0 && pages[0].Page? && offset < pages[0].next
    && pages[0] == PageAt(head, inventory, targets, offset, pages[0].next - offset)
    && if pages[0].more then Followed(head, inventory, targets, pages[0].next, pages[1..]) else |pages| == 1
  }

  /** The pages of PageCIEvidence are such pages. */
  lemma PagesAreFollowed(
    head: string, inventory: R.Inventory, targets: seq<Target>, offset: nat, fits: Page -> bool, page: Page,
      rest: seq<Page>)
    requires IsPage(head, inventory, targets, offset, fits, page) && page.Page?
    requires if page.more then Followed(head, inventory, targets, page.next, rest) else rest == []
    ensures Followed(head, inventory, targets, offset, [page] + rest)
  {
    hide Longest, ReviewedChecks;
    assert ([page] + rest)[1..] == rest;
  }

  function All<T>(pages: seq<Page>, part: Page -> seq<T>): seq<T> {
    if |pages| == 0 then [] else part(pages[0]) + All(pages[1..], part)
  }

  function From<T>(items: seq<T>, offset: nat): seq<T> {
    if offset >= |items| then [] else items[offset..]
  }

  lemma WindowThenFrom<T>(items: seq<T>, start: nat, end: nat)
    requires start <= end
    ensures Window(items, start, end) + From(items, end) == From(items, start)
    ensures end >= |items| ==> Window(items, start, end) == From(items, start)
  {
  }

  lemma {:induction false} LongestBounds(inventory: R.Inventory, targets: seq<Target>)
    ensures |inventory.requirements| <= Longest(inventory, targets)
    ensures |inventory.unresolved| <= Longest(inventory, targets) && |inventory.failures| <= Longest(inventory, targets)
    ensures forall t <- targets :: LongestOf(t) <= Longest(inventory, targets)
  {
    if |targets| > 0 {
      LongestBounds(inventory, targets[..|targets| - 1]);
      assert targets == targets[..|targets| - 1] + [targets[|targets| - 1]];
    }
  }

  /** A collection that every page shows the window of. */
  ghost predicate Sliced<T>(
    head: string, inventory: R.Inventory, targets: seq<Target>, items: seq<T>, part: Page -> seq<T>)
  {
    && |items| <= Longest(inventory, targets)
    && forall offset: nat, count: nat ::
         part(PageAt(head, inventory, targets, offset, count)) == Window(items, offset, offset + count)
  }

  /** The windows of such a collection join up to what it holds from the offset on. */
  lemma {:induction false} SlicesJoin<T>(
    head: string, inventory: R.Inventory, targets: seq<Target>, offset: nat, pages: seq<Page>,
    items: seq<T>, part: Page -> seq<T>)
    requires Followed(head, inventory, targets, offset, pages) && Sliced(head, inventory, targets, items, part)
    ensures All(pages, part) == From(items, offset)
    ensures |pages| <= Max(1, Longest(inventory, targets) - Min(offset, Longest(inventory, targets)))
    decreases |pages|
  {
    hide PageAt, Longest;
    var next := pages[0].next;
    PageEnds(head, inventory, targets, offset, next - offset);
    WindowThenFrom(items, offset, next);
    if pages[0].more {
      SlicesJoin(head, inventory, targets, next, pages[1..], items, part);
    } else {
      assert pages[1..] == [];
      assert part(pages[0]) + [] == part(pages[0]);
    }
  }

  lemma PageEnds(head: string, inventory: R.Inventory, targets: seq<Target>, offset: nat, count: nat)
    ensures PageAt(head, inventory, targets, offset, count).more <==> offset + count < Longest(inventory, targets)
    ensures PageAt(head, inventory, targets, offset, count).next == offset + count
  {
  }

  function TargetPart<T>(i: nat, part: Target -> seq<T>): Page -> seq<T> {
    (page: Page) => if page.Page? && i < |page.targets| then part(page.targets[i]) else []
  }

  /** Every collection of the inventory appears exactly once and in order, and paging ends. */
  lemma InventoryIsComplete(head: string, inventory: R.Inventory, targets: seq<Target>, pages: seq<Page>)
    requires Followed(head, inventory, targets, 0, pages)
    ensures All(pages, (p: Page) => if p.Page? then p.requirements else []) == inventory.requirements
    ensures All(pages, (p: Page) => if p.Page? then p.unresolved else []) == inventory.unresolved
    ensures All(pages, (p: Page) => if p.Page? then p.failures else []) == inventory.failures
    ensures |pages| <= Max(1, Longest(inventory, targets))
  {
    hide Longest, Followed, ReviewedChecks, Sliced;
    LongestBounds(inventory, targets);
    SlicedIs(head, inventory, targets, inventory.requirements, (p: Page) => if p.Page? then p.requirements else []);
    SlicedIs(head, inventory, targets, inventory.unresolved, (p: Page) => if p.Page? then p.unresolved else []);
    SlicedIs(head, inventory, targets, inventory.failures, (p: Page) => if p.Page? then p.failures else []);
    SlicesJoin(head, inventory, targets, 0, pages, inventory.requirements,
      (p: Page) => if p.Page? then p.requirements else []);
    SlicesJoin(head, inventory, targets, 0, pages, inventory.unresolved,
      (p: Page) => if p.Page? then p.unresolved else []);
    SlicesJoin(head, inventory, targets, 0, pages, inventory.failures, (p: Page) => if p.Page? then p.failures else []);
  }

  /** And so does every collection of each commit. */
  lemma TargetsAreComplete(head: string, inventory: R.Inventory, targets: seq<Target>, pages: seq<Page>, i: nat)
    requires Followed(head, inventory, targets, 0, pages) && i < |targets|
    ensures All(pages, TargetPart(i, (t: Target) => t.checks)) == targets[i].checks
    ensures All(pages, TargetPart(i, (t: Target) => t.statuses)) == targets[i].statuses
    ensures All(pages, TargetPart(i, (t: Target) => t.failures)) == targets[i].failures
    ensures All(pages, TargetPart(i, (t: Target) => t.required)) == targets[i].required
  {
    hide Longest, Followed, ReviewedChecks, Sliced;
    LongestBounds(inventory, targets);
    assert targets[i] in targets;
    SlicedIs(head, inventory, targets, targets[i].checks, TargetPart(i, (t: Target) => t.checks));
    SlicedIs(head, inventory, targets, targets[i].statuses, TargetPart(i, (t: Target) => t.statuses));
    SlicedIs(head, inventory, targets, targets[i].failures, TargetPart(i, (t: Target) => t.failures));
    SlicedIs(head, inventory, targets, targets[i].required, TargetPart(i, (t: Target) => t.required));
    SlicesJoin(head, inventory, targets, 0, pages, targets[i].checks, TargetPart(i, (t: Target) => t.checks));
    SlicesJoin(head, inventory, targets, 0, pages, targets[i].statuses, TargetPart(i, (t: Target) => t.statuses));
    SlicesJoin(head, inventory, targets, 0, pages, targets[i].failures, TargetPart(i, (t: Target) => t.failures));
    SlicesJoin(head, inventory, targets, 0, pages, targets[i].required, TargetPart(i, (t: Target) => t.required));
  }

  lemma SlicedIs<T>(head: string, inventory: R.Inventory, targets: seq<Target>, items: seq<T>, part: Page -> seq<T>)
    requires |items| <= Longest(inventory, targets)
    requires forall offset: nat, count: nat ::
               part(PageAt(head, inventory, targets, offset, count)) == Window(items, offset, offset + count)
    ensures Sliced(head, inventory, targets, items, part)
  {
  }

  /** A caller that follows every continuation gets all pages, unless one item of each collection is too large. */
  method ReadEvidence(
    inventory: R.Inventory, observations: seq<Observation>, head: string, offset: nat, fits: Page -> bool)
    returns (pages: seq<Page>)
    ensures |pages| > 0
    ensures var targets := TargetsFor(inventory.requirements, observations);
            && (pages[0].Stale? <==> offset > 0 && offset >= Longest(inventory, targets))
            && (pages[0].Stale? || pages[|pages| - 1].TooLarge? || Followed(head, inventory, targets, offset, pages))
    decreases Longest(inventory, TargetsFor(inventory.requirements, observations)) - offset
  {
    hide Longest, TargetsFor, ReviewedChecks, Followed;
    var page := PageCIEvidence(inventory, observations, head, offset, fits);
    ghost var targets := TargetsFor(inventory.requirements, observations);
    pages := [page];
    if page.Page? && page.more {
      var rest := ReadEvidence(inventory, observations, head, page.next, fits);
      if Followed(head, inventory, targets, page.next, rest) {
        PagesAreFollowed(head, inventory, targets, offset, fits, page, rest);
      }
      pages := pages + rest;
    } else if page.Page? {
      PagesAreFollowed(head, inventory, targets, offset, fits, page, []);
      assert [page] + [] == [page];
    }
  }
}
