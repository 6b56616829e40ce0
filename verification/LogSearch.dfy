/** Searching a job log in bounded pages. */
module LogSearch {
  // A log is a sequence of bytes; a page scans at most `SCAN` of them.  Whether a page of matches
  // fits the response budget is an arbitrary predicate.  The pages must add up to a plain scan.

  import opened Basics

  const SCAN: nat := 8388608
  const MAX_MATCHES: nat := 20
  const MAX_QUERY: nat := 256
  const MAX_CONTEXT: nat := 20

  // ----- Lines -----

  /** The position of the first newline, or the length of the text. */
  function Newline(text: string): (at: nat)
    ensures at <= |text|
    ensures at < |text| ==> text[at] == '\n'
    ensures forall i :: 0 <= i < at ==> text[i] != '\n'
  {
    if |text| == 0 || text[0] == '\n' then 0 else Newline(text[1..]) + 1
  }

  /** The text cut after every newline; the last line is the rest, which may be empty. */
  function Lines(text: string): (lines: seq<string>)
    ensures |lines| >= 1
    decreases |text|
  {
    var at := Newline(text);
    if at == |text| then [text] else [text[..at + 1]] + Lines(text[at + 1..])
  }

  function Total(lines: seq<string>): nat {
    if |lines| == 0 then 0 else |lines[0]| + Total(lines[1..])
  }

  function TrimSuffix(text: string, c: char): string {
    if |text| > 0 && text[|text| - 1] == c then text[..|text| - 1] else text
  }

  function Clean(line: string): (clean: string)
    ensures clean <= line
  {
    TrimSuffix(TrimSuffix(line, '\n'), '\r')
  }

  predicate Contains(text: string, query: string) {
    exists at :: 0 <= at <= |text| - |query| && OccursAt(text, query, at)
  }

  predicate Hit(line: string, query: string) {
    Contains(Clean(line), query)
  }

  /** The byte positions at which the matching lines start: the unpaged answer. */
  function Hits(lines: seq<string>, query: string, base: nat): seq<nat> {
    if |lines| == 0 then []
    else (if Hit(lines[0], query) then [base] else []) + Hits(lines[1..], query, base + |lines[0]|)
  }

  function FullScan(log: string, query: string, from: nat): seq<nat>
    requires from <= |log|
  {
    Hits(Lines(log[from..]), query, from)
  }

  // ----- How lines split -----

  lemma {:induction false} TotalAppend(a: seq<string>, b: seq<string>)
    ensures Total(a + b) == Total(a) + Total(b)
  {
    if |a| > 0 {
      assert (a + b)[1..] == a[1..] + b;
      TotalAppend(a[1..], b);
    } else {
      assert a + b == b;
    }
  }

  lemma LinesStep(text: string)
    ensures Newline(text) == |text| ==> Lines(text) == [text]
    ensures Newline(text) < |text| ==> Lines(text) == [text[..Newline(text) + 1]] + Lines(text[Newline(text) + 1..])
  {
    hide Newline;
  }

  lemma TotalStep(line: string, lines: seq<string>)
    ensures Total([line] + lines) == |line| + Total(lines)
  {
    assert ([line] + lines)[1..] == lines;
  }

  lemma {:induction false} LinesTotal(text: string)
    ensures Total(Lines(text)) == |text|
    decreases |text|
  {
    hide Lines, Newline;
    LinesStep(text);
    var at := Newline(text);
    if at == |text| {
      assert [text] + [] == [text];
      TotalStep(text, []);
    } else {
      LinesTotal(text[at + 1..]);
      TotalStep(text[..at + 1], Lines(text[at + 1..]));
    }
  }

  lemma {:induction false} HitsAppend(a: seq<string>, b: seq<string>, query: string, base: nat)
    ensures Hits(a + b, query, base) == Hits(a, query, base) + Hits(b, query, base + Total(a))
  {
    hide Hit;
    if |a| > 0 {
      assert (a + b)[1..] == a[1..] + b && (a + b)[0] == a[0];
      HitsAppend(a[1..], b, query, base + |a[0]|);
    } else {
      assert a + b == b;
    }
  }

  lemma {:induction false} NewlineAppend(a: string, b: string)
    requires Newline(a) < |a|
    ensures Newline(a + b) == Newline(a)
  {
    assert (a + b)[Newline(a)] == '\n';
  }

  lemma LastNewline(a: string, b: string)
    requires |a| > 0 && Newline(a) == |a| - 1
    ensures Lines(a) == [a, ""] && Lines(a + b) == [a] + Lines(b) && Total([a]) == |a|
  {
    NewlineAppend(a, b);
    assert a[..Newline(a) + 1] == a && a[Newline(a) + 1..] == "";
    assert (a + b)[..Newline(a) + 1] == a && (a + b)[Newline(a) + 1..] == b;
    SingleLine("");
    assert [a][1..] == [];
  }

  lemma FirstLine(a: string, b: string)
    requires Newline(a) < |a|
    ensures var line, rest := a[..Newline(a) + 1], a[Newline(a) + 1..];
            Lines(a) == [line] + Lines(rest) && Lines(a + b) == [line] + Lines(rest + b)
  {
    hide Lines, Newline;
    NewlineAppend(a, b);
    assert (a + b)[..Newline(a) + 1] == a[..Newline(a) + 1];
    assert (a + b)[Newline(a) + 1..] == a[Newline(a) + 1..] + b;
    LinesStep(a);
    LinesStep(a + b);
  }

  /** Text up to and including a newline splits independently of what follows. */
  lemma {:induction false} LinesAppend(a: string, b: string)
    requires |a| > 0 && a[|a| - 1] == '\n'
    ensures Lines(a + b) == Lines(a)[..|Lines(a)| - 1] + Lines(b)
    ensures Total(Lines(a)[..|Lines(a)| - 1]) == |a|
    decreases |a|
  {
    hide Lines, Newline, Total;
    var at := Newline(a);
    if at == |a| - 1 {
      LastNewline(a, b);
      assert [a, ""][..1] == [a];
    } else {
      var line, rest := a[..at + 1], a[at + 1..];
      FirstLine(a, b);
      LinesAppend(rest, b);
      TotalStep(line, Lines(rest)[..|Lines(rest)| - 1]);
      FrontStep(line, Lines(rest), Lines(b));
    }
  }

  lemma FrontStep(line: string, lines: seq<string>, more: seq<string>)
    requires |lines| > 0
    ensures ([line] + lines)[..|[line] + lines| - 1] == [line] + lines[..|lines| - 1]
    ensures [line] + (lines[..|lines| - 1] + more) == ([line] + lines[..|lines| - 1]) + more
  {
  }

  /** Resuming at the start of a line sees the same lines from there on. */
  lemma {:induction false} LinesDrop(text: string, k: nat)
    requires k < |Lines(text)|
    ensures Total(Lines(text)[..k]) <= |text|
    ensures Lines(text[Total(Lines(text)[..k])..]) == Lines(text)[k..]
    decreases k
  {
    hide Lines, Newline;
    var lines := Lines(text);
    LinesStep(text);
    if k == 0 {
      assert lines[..0] == [] && text[0..] == text && lines[0..] == lines;
    } else {
      var first, rest := lines[0], text[Newline(text) + 1..];
      LinesDrop(rest, k - 1);
      var before := Lines(rest)[..k - 1];
      assert lines[..k] == [first] + before;
      TotalStep(first, before);
      assert text[|first| + Total(before)..] == rest[Total(before)..];
      assert lines[k..] == Lines(rest)[k - 1..];
    }
  }

  /** A text without a newline is a single line. */
  lemma SingleLine(text: string)
    requires '\n' !in text
    ensures Lines(text) == [text]
  {
  }

  /** The complete lines of a truncated window, and where its last newline is. */
  lemma WindowLines(window: string, last: nat)
    requires last < |window| && window[last] == '\n' && forall i :: last < i < |window| ==> window[i] != '\n'
    ensures var lines := Lines(window);
            |lines| >= 2 && Total(lines[..|lines| - 1]) == last + 1 &&
            lines[..|lines| - 1] == Lines(window[..last + 1])[..|Lines(window[..last + 1])| - 1] &&
            lines[|lines| - 1] == window[last + 1..]
  {
    var a, b := window[..last + 1], window[last + 1..];
    assert window == a + b;
    LinesAppend(a, b);
    SingleLine(b);
    var front := Lines(a)[..|Lines(a)| - 1];
    assert Lines(window) == front + [b];
    assert Lines(window)[..|Lines(window)| - 1] == front;
    LinesTotal(a);
  }

  // ----- Line positions -----

  /** The byte position, relative to the text, of the line with this 1-based number. */
  function LineStart(text: string, base: nat, number: int): nat {
    if number <= 1 || number - 1 > |Lines(text)| then base else base + Total(Lines(text)[..number - 1])
  }

  /** `queryLineByteOffset`: adds up the lengths of the lines before. */
  method QueryLineByteOffset(text: string, base: nat, number: int) returns (at: nat)
    ensures at == LineStart(text, base, number)
  {
    var lines := Lines(text);
    if number <= 1 || number - 1 > |lines| {
      return base;
    }
    var advance := 0;
    for k := 0 to number - 1
      invariant advance == Total(lines[..k])
    {
      assert lines[..k + 1] == lines[..k] + [lines[k]];
      TotalAppend(lines[..k], [lines[k]]);
      assert [lines[k]][1..] == [];
      advance := advance + |lines[k]|;
    }
    at := base + advance;
  }

  // ----- Matches -----

  /** A reported match: the query line and the context lines around it, 1-based within the window. */
  datatype Match = Match(lineNumber: nat, startLine: nat, endLine: nat, startOffset: nat, endOffset: nat)

  /** Offsets and line numbers of a match agree, and the query line lies within it. */
  predicate Exact(lines: seq<string>, base: nat, m: Match) {
    1 <= m.startLine <= m.lineNumber <= m.endLine <= |lines| &&
    m.startOffset == base + Total(lines[..m.startLine - 1]) && m.endOffset == base + Total(lines[..m.endLine])
  }

  /** Where the query lines of some matches start. */
  function Reported(text: string, base: nat, matches: seq<Match>): (starts: seq<nat>)
    ensures |starts| == |matches|
  {
    seq(|matches|, k requires 0 <= k < |matches| => LineStart(text, base, matches[k].lineNumber))
  }

  /** Every match is exact, and its query line is one of the matching lines. */
  predicate Sound(text: string, query: string, base: nat, matches: seq<Match>) {
    forall k :: 0 <= k < |matches| ==> SoundMatch(text, query, base, matches[k])
  }

  predicate SoundMatch(text: string, query: string, base: nat, m: Match) {
    Exact(Lines(text), base, m) && Hit(Lines(text)[m.lineNumber - 1], query)
  }

  /** The match comes with all the context it asks for. */
  predicate FullContext(text: string, context: nat, m: Match) {
    m.startLine == Max(m.lineNumber - context, 1) && m.endLine == Min(m.lineNumber + context, |Lines(text)|)
  }

  lemma {:induction false} HitsSnoc(lines: seq<string>, query: string, base: nat, k: nat)
    requires k < |lines|
    ensures Hits(lines[..k + 1], query, base) ==
            Hits(lines[..k], query, base) + if Hit(lines[k], query) then [base + Total(lines[..k])] else []
    ensures Total(lines[..k + 1]) == Total(lines[..k]) + |lines[k]|
  {
    assert lines[..k + 1] == lines[..k] + [lines[k]];
    HitsAppend(lines[..k], [lines[k]], query, base);
    TotalAppend(lines[..k], [lines[k]]);
    assert [lines[k]][1..] == [];
  }

  /** Finds the matching lines of a window, stopping one past the number a page may hold. */
  method SearchLogText(text: string, query: string, context: nat, base: nat) returns (matches: seq<Match>)
    ensures Sound(text, query, base, matches)
    ensures var all := Hits(Lines(text), query, base);
            |matches| <= MAX_MATCHES + 1 && |matches| <= |all| && Reported(text, base, matches) == all[..|matches|] &&
            (|matches| <= MAX_MATCHES ==> |matches| == |all|)
    ensures Ascending(matches) && forall m <- matches :: FullContext(text, context, m)
  {
    var lines := Lines(text);
    var offsets := LineOffsets(lines, base);
    hide Lines, Hits, Total, Contains, Clean, Reported, LineStart;
    matches := [];
    assert Reported(text, base, matches) == Hits(lines[..0], query, base) by {
      HitsNone(lines, query, base);
    }
    for k := 0 to |lines|
      invariant Sound(text, query, base, matches) && |matches| <= MAX_MATCHES
      invariant Reported(text, base, matches) == Hits(lines[..k], query, base)
      invariant forall j :: 0 <= j < |matches| ==> matches[j].lineNumber <= k
      invariant forall i, j :: 0 <= i < j < |matches| ==> matches[i].lineNumber < matches[j].lineNumber
      invariant forall m <- matches :: FullContext(text, context, m)
    {
      HitsSnoc(lines, query, base, k);
      if Contains(Clean(lines[k]), query) {
        var start := Max(k - context, 0);
        var end := Min(k + context, |lines| - 1);
        HitsSnoc(lines, query, base, end);
        var m := Match(k + 1, start + 1, end + 1, offsets[start], offsets[end] + |lines[end]|);
        assert SoundMatch(text, query, base, m);
        assert FullContext(text, context, m);
        NumberedLine(text, base, k);
        ReportedAppend(text, base, matches, m);
        matches := matches + [m];
        if |matches| >= MAX_MATCHES + 1 {
          assert lines == lines[..k + 1] + lines[k + 1..];
          HitsAppend(lines[..k + 1], lines[k + 1..], query, base);
          return;
        }
      }
    }
    assert lines[..|lines|] == lines;
  }

  lemma HitsNone(lines: seq<string>, query: string, base: nat)
    ensures Hits(lines[..0], query, base) == []
    ensures forall text :: Reported(text, base, []) == []
  {
  }

  lemma NumberedLine(text: string, base: nat, k: nat)
    requires k < |Lines(text)|
    ensures LineStart(text, base, k + 1) == base + Total(Lines(text)[..k])
  {
    assert k == 0 ==> Lines(text)[..k] == [];
  }

  /** Where each line of a window starts. */
  method LineOffsets(lines: seq<string>, base: nat) returns (offsets: seq<nat>)
    ensures |offsets| == |lines| && forall k :: 0 <= k < |lines| ==> offsets[k] == base + Total(lines[..k])
  {
    offsets := [];
    var offset := base;
    for k := 0 to |lines|
      invariant offset == base + Total(lines[..k])
      invariant |offsets| == k && forall j :: 0 <= j < k ==> offsets[j] == base + Total(lines[..j])
    {
      HitsSnoc(lines, "", base, k);
      offsets := offsets + [offset];
      offset := offset + |lines[k]|;
    }
  }

  lemma ReportedAppend(text: string, base: nat, matches: seq<Match>, m: Match)
    ensures Reported(text, base, matches + [m]) == Reported(text, base, matches) + [LineStart(text, base, m.lineNumber)]
  {
  }

  lemma ShorterOccurs(text: string, query: string)
    requires |query| < |text| && !OccursAt(text, query, |text| - |query|)
    ensures forall i :: OccursAt(text, query, i) <==> OccursAt(text[..|text| - 1], query, i)
  {
    forall i ensures OccursAt(text, query, i) <==> OccursAt(text[..|text| - 1], query, i) {
      if 0 <= i < |text| - |query| {
        assert text[..|text| - 1][i..i + |query|] == text[i..i + |query|];
      }
    }
  }

  /** Where the last occurrence of the query in a text starts, or -1. */
  function LastIndex(text: string, query: string): (at: int)
    ensures -1 <= at <= |text|
    ensures at >= 0 ==> OccursAt(text, query, at)
    ensures forall i :: OccursAt(text, query, i) ==> i <= at
    decreases |text|
  {
    hide OccursAt;
    if |query| <= |text| && OccursAt(text, query, |text| - |query|) then
      assert forall i :: OccursAt(text, query, i) ==> i <= |text| - |query| by { OccursWithin(text, query); }
      |text| - |query|
    else if |text| <= |query| then
      assert forall i :: !OccursAt(text, query, i) by { OccursWithin(text, query); }
      -1
    else
      ShorterOccurs(text, query);
      LastIndex(text[..|text| - 1], query)
  }

  lemma OccursWithin(text: string, query: string)
    ensures forall i :: OccursAt(text, query, i) ==> 0 <= i <= |text| - |query|
  {
  }

  /** Where the last occurrence of the query on a match's line ends. */
  function OccurrenceEnd(text: string, base: nat, query: string, m: Match): int
    requires 1 <= m.lineNumber <= |Lines(text)|
  {
    base + Total(Lines(text)[..m.lineNumber - 1]) + LastIndex(Clean(Lines(text)[m.lineNumber - 1]), query) + |query|
  }

  lemma OccurrenceEndWithin(text: string, base: nat, query: string, m: Match)
    requires SoundMatch(text, query, base, m)
    ensures LastIndex(Clean(Lines(text)[m.lineNumber - 1]), query) >= 0
    ensures LineStart(text, base, m.lineNumber) + |query| <= OccurrenceEnd(text, base, query, m)
                <= base + Total(Lines(text)[..m.lineNumber])
  {
    hide Lines, Total, Exact, LineStart;
    SoundMatchIs(text, query, base, m);
    NumberedLine(text, base, m.lineNumber - 1);
    HitsSnoc(Lines(text), query, base, m.lineNumber - 1);
    var clean := Clean(Lines(text)[m.lineNumber - 1]);
    var at :| 0 <= at <= |clean| - |query| && OccursAt(clean, query, at);
  }

  lemma SoundMatchIs(text: string, query: string, base: nat, m: Match)
    requires SoundMatch(text, query, base, m)
    ensures 1 <= m.lineNumber <= |Lines(text)| && Hit(Lines(text)[m.lineNumber - 1], query)
  {
  }

  lemma {:induction false} TotalMonotone(lines: seq<string>, i: nat, j: nat)
    requires i <= j <= |lines|
    ensures Total(lines[..i]) <= Total(lines[..j])
  {
    assert lines[..j] == lines[..i] + lines[i..j];
    TotalAppend(lines[..i], lines[i..j]);
  }

  method LastOccurrenceEnd(text: string, base: nat, query: string, m: Match) returns (end: int)
    ensures end ==
            if !(1 <= m.lineNumber <= |Lines(text)|) || LastIndex(Clean(Lines(text)[m.lineNumber - 1]), query) < 0
            then -1 else OccurrenceEnd(text, base, query, m)
  {
    var lines := Lines(text);
    var index := m.lineNumber - 1;
    if index < 0 || index >= |lines| {
      return -1;
    }
    var lineStart := QueryLineByteOffset(text, base, m.lineNumber);
    NumberedLine(text, base, index);
    var clean := Clean(lines[index]);
    var last := LastIndex(clean, query);
    if last < 0 {
      return -1;
    }
    end := lineStart + last + |query|;
  }

  predicate Ascending(matches: seq<Match>) {
    forall j, k :: 0 <= j < k < |matches| ==> matches[j].lineNumber < matches[k].lineNumber
  }

  predicate EndsBy(text: string, base: nat, query: string, boundary: int, m: Match) {
    1 <= m.lineNumber <= |Lines(text)| && OccurrenceEnd(text, base, query, m) <= boundary
  }

  lemma EndsInOrder(text: string, base: nat, query: string, boundary: int, m: Match, later: Match)
    requires SoundMatch(text, query, base, m) && SoundMatch(text, query, base, later)
    requires m.lineNumber < later.lineNumber && EndsBy(text, base, query, boundary, later)
    ensures EndsBy(text, base, query, boundary, m)
  {
    OccurrenceEndWithin(text, base, query, m);
    OccurrenceEndWithin(text, base, query, later);
    NumberedLine(text, base, later.lineNumber - 1);
    TotalMonotone(Lines(text), m.lineNumber, later.lineNumber - 1);
    hide Lines, Total;
  }

  /** Drops the matches whose last occurrence reaches past the boundary; these are the last ones. */
  method KeepDecided(text: string, base: nat, query: string, boundary: int, matches: seq<Match>)
    returns (kept: seq<Match>)
    requires Sound(text, query, base, matches) && Ascending(matches)
    ensures kept <= matches
    ensures forall m <- kept :: EndsBy(text, base, query, boundary, m)
    ensures |kept| < |matches| ==> !EndsBy(text, base, query, boundary, matches[|kept|])
  {
    hide Exact, EndsBy, Lines, Total, Hit, OccurrenceEnd, SoundMatch, LastIndex, Clean, Ascending;
    kept := [];
    for k := 0 to |matches|
      invariant |kept| <= k && kept == matches[..|kept|]
      invariant forall m <- kept :: EndsBy(text, base, query, boundary, m)
      invariant |kept| < k ==> !EndsBy(text, base, query, boundary, matches[|kept|])
    {
      var m := matches[k];
      assert SoundMatch(text, query, base, m);
      SoundMatchIs(text, query, base, m);
      OccurrenceEndWithin(text, base, query, m);
      var end := LastOccurrenceEnd(text, base, query, m);
      EndsByIs(text, base, query, boundary, m);
      if end < 0 || end <= boundary {
        if |kept| < k {
          assert SoundMatch(text, query, base, matches[|kept|]) && matches[|kept|].lineNumber < m.lineNumber by {
            InOrder(matches, |kept|, k);
          }
          EndsInOrder(text, base, query, boundary, matches[|kept|], m);
        }
        kept := kept + [m];
      }
    }
  }

  lemma InOrder(matches: seq<Match>, j: nat, k: nat)
    requires Ascending(matches) && j < k < |matches|
    ensures matches[j].lineNumber < matches[k].lineNumber
  {
  }

  lemma EndsByIs(text: string, base: nat, query: string, boundary: int, m: Match)
    requires SoundMatch(text, query, base, m)
    ensures 1 <= m.lineNumber <= |Lines(text)| && OccurrenceEnd(text, base, query, m) >= 0
    ensures EndsBy(text, base, query, boundary, m) <==> OccurrenceEnd(text, base, query, m) <= boundary
  {
    OccurrenceEndWithin(text, base, query, m);
  }

  // ----- The response budget -----

  /** The query line and the first context line are lines of the text, in this order. */
  predicate InRange(lines: seq<string>, m: Match) {
    1 <= m.startLine <= m.lineNumber <= |lines|
  }

  /** The match with this much of its context; offsets are only computed for what is dropped. */
  function Narrowed(text: string, base: nat, m: Match, startLine: nat, endLine: nat): Match {
    var trimmed :=
      if endLine < m.endLine then m.(endLine := endLine, endOffset := LineStart(text, base, endLine + 1)) else m;
    if startLine > m.startLine then trimmed.(startLine := startLine, startOffset := LineStart(text, base, startLine))
    else trimmed
  }

  /** Where the match ends once no trailing context is left to drop. */
  function LeastEnd(lines: seq<string>, m: Match): nat {
    if Min(m.endLine, |lines|) <= m.lineNumber then m.endLine else m.lineNumber
  }

  /** No wider form of the match that drops trailing lines before leading ones fits; the full match is not asked. */
  predicate NothingWiderFits(text: string, base: nat, m: Match, shrunk: Match, fits: Match -> bool) {
    var last := Min(m.endLine, |Lines(text)|);
    && (shrunk.startLine > m.startLine ==> shrunk.endLine == LeastEnd(Lines(text), m))
    && (forall e :: Max(shrunk.endLine + 1, m.lineNumber) <= e < last ==>
         !fits(Narrowed(text, base, m, m.startLine, e)))
    && (shrunk.startLine > m.startLine && m.lineNumber < last ==>
         !fits(Narrowed(text, base, m, m.startLine, m.lineNumber)))
    && (forall b :: m.startLine < b < shrunk.startLine ==> !fits(Narrowed(text, base, m, b, LeastEnd(Lines(text), m))))
  }

  /** Narrowing an exact match leaves it exact. */
  lemma NarrowedIsExact(text: string, base: nat, m: Match, startLine: nat, endLine: nat)
    requires Exact(Lines(text), base, m) && m.startLine <= startLine <= m.lineNumber <= endLine <= m.endLine
    ensures Exact(Lines(text), base, Narrowed(text, base, m, startLine, endLine))
  {
    hide Lines, Total;
  }

  /** Drops context lines from a match that does not fit: trailing ones first, then leading ones. */
  method ShrinkSearchMatch(text: string, base: nat, m: Match, fits: Match -> bool) returns (shrunk: Match)
    ensures !InRange(Lines(text), m) ==> shrunk == m
    ensures InRange(Lines(text), m) ==> IsShrunk(text, base, m, shrunk, fits)
    ensures Exact(Lines(text), base, m) ==>
              && Exact(Lines(text), base, shrunk) && shrunk.lineNumber == m.lineNumber
              && (fits(shrunk) || shrunk.startLine == shrunk.lineNumber == shrunk.endLine)
  {
    hide Lines, Total, LineStart, Narrowed, Exact, IsShrunk, NothingWiderFits;
    ShrunkIsExact(text, base, m, fits);
    var query := m.lineNumber - 1;
    var start := m.startLine - 1;
    if query < 0 || query >= |Lines(text)| || start < 0 || start > query {
      return m;
    }
    var done;
    shrunk, done := DropTrailing(text, base, m, fits);
    if done {
      TrailingDropped(text, base, m, shrunk, fits);
    } else {
      shrunk := DropLeading(text, base, m, shrunk, fits);
    }
  }

  /** Drops trailing lines until the match fits or none is left behind the query line. */
  method DropTrailing(text: string, base: nat, m: Match, fits: Match -> bool) returns (shrunk: Match, done: bool)
    requires InRange(Lines(text), m)
    ensures shrunk == Narrowed(text, base, m, m.startLine, shrunk.endLine)
    ensures if done then fits(shrunk) && m.lineNumber <= shrunk.endLine < Min(m.endLine, |Lines(text)|)
            else shrunk.endLine == LeastEnd(Lines(text), m)
    ensures NoLongerFits(text, base, m, if done then shrunk.endLine + 1 else m.lineNumber, fits)
  {
    hide Lines, LineStart, Narrowed;
    DropsTrailing(text, base, m);
    var query := m.lineNumber - 1;
    var end := m.endLine - 1;
    if end >= |Lines(text)| {
      end := |Lines(text)| - 1;
    }
    shrunk := m;
    ghost var last := end + 1;
    while end > query
      invariant end < last && (query <= end || end == last - 1)
      invariant shrunk == if end + 1 == last then m else Narrowed(text, base, m, m.startLine, end + 1)
      invariant NoLongerFits(text, base, m, Max(end + 1, m.lineNumber), fits)
    {
      end := end - 1;
      var endOffset := QueryLineByteOffset(text, base, end + 2);
      shrunk := shrunk.(endLine := end + 1, endOffset := endOffset);
      if fits(shrunk) {
        return shrunk, true;
      }
    }
    return shrunk, false;
  }

  /** Of the matches without some trailing lines, none that ends at this line or behind fits. */
  predicate NoLongerFits(text: string, base: nat, m: Match, from: nat, fits: Match -> bool) {
    forall e :: from <= e < Min(m.endLine, |Lines(text)|) ==> !fits(Narrowed(text, base, m, m.startLine, e))
  }

  /** Drops leading lines until the match fits or only the query line is left in front. */
  method DropLeading(text: string, base: nat, m: Match, trimmed: Match, fits: Match -> bool) returns (shrunk: Match)
    requires InRange(Lines(text), m) && trimmed.endLine == LeastEnd(Lines(text), m)
    requires trimmed == Narrowed(text, base, m, m.startLine, trimmed.endLine)
    requires NoLongerFits(text, base, m, m.lineNumber, fits)
    ensures IsShrunk(text, base, m, shrunk, fits)
  {
    hide Lines, LineStart, Narrowed, NoLongerFits, IsShrunk, LeastEnd;
    DropsTrailing(text, base, m);
    DropsLeading(text, base, m);
    var query := m.lineNumber - 1;
    var start := m.startLine - 1;
    var least := trimmed.endLine;
    shrunk := trimmed;
    while start < query
      invariant m.startLine - 1 <= start <= query && start == shrunk.startLine - 1
      invariant shrunk == Narrowed(text, base, m, start + 1, least)
      invariant forall b :: m.startLine < b <= shrunk.startLine ==> !fits(Narrowed(text, base, m, b, least))
    {
      start := start + 1;
      var startOffset := QueryLineByteOffset(text, base, start + 1);
      shrunk := shrunk.(startLine := start + 1, startOffset := startOffset);
      if fits(shrunk) {
        LeadingDropped(text, base, m, shrunk, fits);
        return;
      }
    }
    LeadingDropped(text, base, m, shrunk, fits);
  }

  lemma TrailingDropped(text: string, base: nat, m: Match, shrunk: Match, fits: Match -> bool)
    requires InRange(Lines(text), m) && fits(shrunk) && m.lineNumber <= shrunk.endLine < Min(m.endLine, |Lines(text)|)
    requires shrunk == Narrowed(text, base, m, m.startLine, shrunk.endLine)
    requires NoLongerFits(text, base, m, shrunk.endLine + 1, fits)
    ensures IsShrunk(text, base, m, shrunk, fits)
  {
    hide Lines, LineStart, Narrowed;
    DropsTrailing(text, base, m);
  }

  lemma LeadingDropped(text: string, base: nat, m: Match, shrunk: Match, fits: Match -> bool)
    requires InRange(Lines(text), m) && shrunk.endLine == LeastEnd(Lines(text), m)
    requires m.startLine <= shrunk.startLine <= m.lineNumber && (fits(shrunk) || shrunk.startLine == m.lineNumber)
    requires shrunk == Narrowed(text, base, m, shrunk.startLine, shrunk.endLine)
    requires NoLongerFits(text, base, m, m.lineNumber, fits)
    requires forall b :: m.startLine < b < shrunk.startLine ==> !fits(Narrowed(text, base, m, b, shrunk.endLine))
    ensures IsShrunk(text, base, m, shrunk, fits)
  {
    hide Lines, LineStart, Narrowed;
  }

  /** As much context as may stay: no less is kept than fits, unless not even the least fits. */
  predicate IsShrunk(text: string, base: nat, m: Match, shrunk: Match, fits: Match -> bool) {
    && shrunk == Narrowed(text, base, m, shrunk.startLine, shrunk.endLine)
    && m.startLine <= shrunk.startLine <= m.lineNumber
    && (shrunk.endLine == m.endLine || m.lineNumber <= shrunk.endLine < m.endLine)
    && (fits(shrunk) || (shrunk.startLine == m.lineNumber && shrunk.endLine == LeastEnd(Lines(text), m)))
    && NothingWiderFits(text, base, m, shrunk, fits)
  }

  lemma DropsTrailing(text: string, base: nat, m: Match)
    ensures forall e: nat :: Narrowed(text, base, m, m.startLine, e) ==
              if e < m.endLine then m.(endLine := e, endOffset := LineStart(text, base, e + 1)) else m
  {
    hide LineStart;
  }

  lemma DropsLeading(text: string, base: nat, m: Match)
    ensures forall b: nat, e: nat :: b > m.startLine ==>
              Narrowed(text, base, m, b, e) ==
                Narrowed(text, base, m, m.startLine, e).(startLine := b, startOffset := LineStart(text, base, b))
  {
    hide LineStart;
  }

  lemma ShrunkIsExact(text: string, base: nat, m: Match, fits: Match -> bool)
    ensures forall shrunk :: Exact(Lines(text), base, m) && IsShrunk(text, base, m, shrunk, fits) ==>
              && Exact(Lines(text), base, shrunk) && shrunk.lineNumber == m.lineNumber
              && (fits(shrunk) || shrunk.startLine == shrunk.lineNumber == shrunk.endLine)
    ensures Exact(Lines(text), base, m) ==> InRange(Lines(text), m)
  {
    hide Lines, Total, NothingWiderFits;
    forall shrunk | Exact(Lines(text), base, m) && IsShrunk(text, base, m, shrunk, fits)
      ensures Exact(Lines(text), base, shrunk) && shrunk.lineNumber == m.lineNumber
    {
      NarrowedIsExact(text, base, m, shrunk.startLine, shrunk.endLine);
    }
  }

  /** Keeps the leading matches that fit; returns where to resume, or -1 when nothing was cut. */
  method FitSearchPage(text: string, base: nat, query: string, matches: seq<Match>, fits: seq<Match> -> bool)
    returns (kept: seq<Match>, next: int)
    requires Sound(text, query, base, matches)
    ensures Sound(text, query, base, kept)
    ensures |kept| <= |matches| && (|matches| > 0 ==> |kept| > 0)
    ensures forall k :: 0 <= k < |kept| ==> kept[k].lineNumber == matches[k].lineNumber
    ensures kept <= matches || (|kept| == 1 && !fits([matches[0]]))
    ensures |kept| < |matches| ==> !fits(matches[..|kept| + 1]) || !fits([matches[0]])
    ensures next < 0 ==> |kept| == |matches|
    ensures |kept| > 0 ==> fits(kept) || (|kept| == 1 && kept[0].startLine == kept[0].lineNumber == kept[0].endLine)
    ensures next >= 0 ==> |kept| < |matches| && next == LineStart(text, base, matches[|kept|].lineNumber)
  {
    hide Lines, Total, LineStart, Hit;
    kept := [];
    for i := 0 to |matches|
      invariant kept == matches[..i] && (i > 0 ==> fits(kept))
    {
      assert kept + [matches[i]] == matches[..i + 1];
      if fits(kept + [matches[i]]) {
        kept := kept + [matches[i]];
      } else if |kept| == 0 {
        var shrunk := ShrinkSearchMatch(text, base, matches[0], candidate => fits([candidate]));
        assert SoundMatch(text, query, base, matches[0]);
        assert matches[..1] == [matches[0]];
        kept := [shrunk];
        next := -1;
        if 1 < |matches| {
          next := QueryLineByteOffset(text, base, matches[1].lineNumber);
        }
        return;
      } else {
        next := QueryLineByteOffset(text, base, matches[i].lineNumber);
        return;
      }
    }
    next := -1;
  }

  // ----- Hits and positions -----

  lemma {:induction false} HitsRange(lines: seq<string>, query: string, base: nat)
    ensures forall h <- Hits(lines, query, base) :: base <= h && h + |query| <= base + Total(lines)
  {
    if |lines| > 0 {
      HitsRange(lines[1..], query, base + |lines[0]|);
      assert Hit(lines[0], query) ==> |query| <= |lines[0]|;
      hide Hit;
    }
  }

  lemma HitLine(line: string, query: string)
    requires Hit(line, query)
    ensures |query| <= |line|
  {
  }

  /** The hits up to line `d` are those that start before its end. */
  lemma HitsBefore(lines: seq<string>, query: string, base: nat, d: nat, i: nat)
    requires |query| > 0 && d <= |lines| && i < |Hits(lines, query, base)|
    ensures Hits(lines[..d], query, base) <= Hits(lines, query, base)
    ensures i < |Hits(lines[..d], query, base)| <==> Hits(lines, query, base)[i] < base + Total(lines[..d])
  {
    hide Hits, Total;
    assert lines == lines[..d] + lines[d..];
    HitsAppend(lines[..d], lines[d..], query, base);
    HitsRange(lines[..d], query, base);
    HitsRange(lines[d..], query, base + Total(lines[..d]));
    var before, after := Hits(lines[..d], query, base), Hits(lines[d..], query, base + Total(lines[..d]));
    if i < |before| {
      assert Hits(lines, query, base)[i] in before;
    } else {
      assert Hits(lines, query, base)[i] == after[i - |before|];
      assert Hits(lines, query, base)[i] in after;
    }
  }

  /** The hit at a line's start is preceded exactly by the hits of the lines before. */
  lemma HitIndex(lines: seq<string>, query: string, base: nat, i: nat, k: nat)
    requires |query| > 0 && k < |lines| && Hit(lines[k], query)
    requires i < |Hits(lines, query, base)| && Hits(lines, query, base)[i] == base + Total(lines[..k])
    ensures Hits(lines[..k], query, base) == Hits(lines, query, base)[..i]
  {
    HitsSnoc(lines, query, base, k);
    HitLine(lines[k], query);
    hide *;
    HitsBefore(lines, query, base, k, i);
    HitsBefore(lines, query, base, k + 1, i);
  }

  lemma EndsByLine(text: string, base: nat, query: string, d: nat, m: Match)
    requires |query| > 0 && d <= |Lines(text)| && SoundMatch(text, query, base, m)
    ensures EndsBy(text, base, query, base + Total(Lines(text)[..d]), m) <==> m.lineNumber <= d
    ensures LineStart(text, base, m.lineNumber) < base + Total(Lines(text)[..d]) <==> m.lineNumber <= d
  {
    OccurrenceEndWithin(text, base, query, m);
    EndsByIs(text, base, query, base + Total(Lines(text)[..d]), m);
    SoundMatchIs(text, query, base, m);
    NumberedLine(text, base, m.lineNumber - 1);
    hide Lines, Total, EndsBy, OccurrenceEnd, SoundMatch, LineStart, Hit;
    if m.lineNumber <= d {
      TotalMonotone(Lines(text), m.lineNumber, d);
    } else {
      TotalMonotone(Lines(text), d, m.lineNumber - 1);
    }
  }

  /** A match is decided by the end of line `d` exactly when it is among the hits up to there. */
  lemma DecidedIff(text: string, base: nat, query: string, d: nat, i: nat, m: Match)
    requires |query| > 0 && d <= |Lines(text)| && SoundMatch(text, query, base, m)
    requires i < |Hits(Lines(text), query, base)|
    requires Hits(Lines(text), query, base)[i] == LineStart(text, base, m.lineNumber)
    ensures m.lineNumber <= d <==> i < |Hits(Lines(text)[..d], query, base)|
    ensures EndsBy(text, base, query, base + Total(Lines(text)[..d]), m) <==> m.lineNumber <= d
  {
    hide *;
    EndsByLine(text, base, query, d, m);
    HitsBefore(Lines(text), query, base, d, i);
  }

  /** Of the matches found, those kept are the hits up to line `d`, as many of them as were found. */
  lemma KeptAreDecided(text: string, base: nat, query: string, d: nat, matches: seq<Match>, kept: seq<Match>)
    requires |query| > 0 && d <= |Lines(text)|
    requires Sound(text, query, base, matches) && |matches| <= |Hits(Lines(text), query, base)|
    requires Reported(text, base, matches) == Hits(Lines(text), query, base)[..|matches|]
    requires kept <= matches
    requires forall m <- kept :: EndsBy(text, base, query, base + Total(Lines(text)[..d]), m)
    requires |kept| < |matches| ==> !EndsBy(text, base, query, base + Total(Lines(text)[..d]), matches[|kept|])
    ensures |kept| == Min(|matches|, |Hits(Lines(text)[..d], query, base)|)
    ensures Reported(text, base, kept) == Hits(Lines(text)[..d], query, base)[..|kept|]
    ensures forall m <- kept :: m.lineNumber <= d
  {
    var lines := Lines(text);
    var all := Hits(lines, query, base);
    hide Hits, Total, Lines, Hit, Exact, EndsBy, OccurrenceEnd, LineStart, SoundMatch;
    forall i | 0 <= i < |matches|
      ensures EndsBy(text, base, query, base + Total(lines[..d]), matches[i]) <==> matches[i].lineNumber <= d
      ensures matches[i].lineNumber <= d <==> i < |Hits(lines[..d], query, base)|
    {
      assert SoundMatch(text, query, base, matches[i]);
      assert Reported(text, base, matches)[i] == all[..|matches|][i];
      DecidedIff(text, base, query, d, i, matches[i]);
    }
    assert lines == lines[..d] + lines[d..];
    HitsAppend(lines[..d], lines[d..], query, base);
    var decided := Hits(lines[..d], query, base);
    assert all[..|decided|] == decided;
    if |kept| > 0 {
      assert kept[|kept| - 1] in kept && kept[|kept| - 1] == matches[|kept| - 1];
    }
    forall i | 0 <= i < |kept| ensures Reported(text, base, kept)[i] == decided[..|kept|][i] {
      assert kept[i] == matches[i];
      assert Reported(text, base, matches)[i] == all[..|matches|][i];
    }
  }

  lemma ReportedPrefix(text: string, base: nat, matches: seq<Match>, kept: seq<Match>)
    requires |kept| <= |matches| && forall k :: 0 <= k < |kept| ==> kept[k].lineNumber == matches[k].lineNumber
    ensures Reported(text, base, kept) == Reported(text, base, matches)[..|kept|]
  {
  }

  // ----- One page -----

  datatype Page = Page(matches: seq<Match>, more: bool, next: int) | Invalid

  predicate ValidQuery(query: string, context: int) {
    0 < |query| <= MAX_QUERY && '\0' !in query && 0 <= context <= MAX_CONTEXT
  }

  function Window(log: string, offset: nat): string
    requires offset <= |log|
  {
    log[offset..Min(offset + SCAN, |log|)]
  }

  predicate Truncated(log: string, offset: nat)
    requires offset <= |log|
  {
    |log| - offset > SCAN
  }

  /** The page reports a prefix of what is left to report and resumes exactly behind it. */
  predicate PageOk(log: string, query: string, offset: nat, page: Page) {
    offset <= |log| && page.Page? &&
    var all := FullScan(log, query, offset);
    var n := |page.matches|;
    && n <= |all|
    && Reported(Window(log, offset), offset, page.matches) == all[..n]
    && Sound(Window(log, offset), query, offset, page.matches)
    && (!page.more ==> n == |all|)
    && (page.more ==> offset < page.next < |log| && FullScan(log, query, page.next) == all[n..])
  }

  /** Not even a newline to resume at. */
  predicate Unbroken(log: string, offset: nat)
    requires offset <= |log|
  {
    Truncated(log, offset) && '\n' !in Window(log, offset)
  }

  /** Where an unbroken window is resumed. */
  function Overlap(offset: nat): nat {
    offset + SCAN - (MAX_QUERY - 1)
  }

  /** On an unbroken window: the line has no occurrence behind the overlap, and if it has one
      at all, the last one within the window ends before the overlap. */
  predicate EndsEarly(log: string, query: string, offset: nat)
    requires offset <= |log| && Unbroken(log, offset)
  {
    var last := LastIndex(Clean(Window(log, offset)), query);
    && !Hit(Lines(log[Overlap(offset)..])[0], query)
    && (Hit(Lines(log[offset..])[0], query) ==> 0 <= last && offset + last + |query| <= Overlap(offset))
  }

  predicate Resumable(log: string, query: string, offset: nat)
    requires offset <= |log|
  {
    Unbroken(log, offset) ==> EndsEarly(log, query, offset)
  }

  /** The lines a page decides about: all of them, or those complete in a truncated window. */
  function Decided(log: string, offset: nat): seq<string>
    requires offset <= |log|
  {
    var lines := Lines(Window(log, offset));
    if Truncated(log, offset) then lines[..|lines| - 1] else lines
  }

  lemma LastNewlineIn(window: string) returns (last: nat)
    requires '\n' in window
    ensures last < |window| && window[last] == '\n' && forall i :: last < i < |window| ==> window[i] != '\n'
  {
    last := |window| - 1;
    while window[last] != '\n'
      invariant 0 <= last < |window| && forall i :: last < i < |window| ==> window[i] != '\n'
      invariant exists i :: 0 <= i <= last && window[i] == '\n'
      decreases last
    {
      last := last - 1;
    }
  }

  /** What is left of the log is what the page decides about, followed by what lies behind it. */
  lemma LinesOfLog(log: string, offset: nat)
    requires offset <= |log| && (Truncated(log, offset) ==> '\n' in Window(log, offset))
    ensures var decided := Decided(log, offset);
            var after := offset + Total(decided);
            && after <= |log|
            && (!Truncated(log, offset) ==> Lines(log[offset..]) == decided)
            && (Truncated(log, offset) ==>
                  offset < after < |log| && Lines(log[offset..]) == decided + Lines(log[after..]))
  {
    hide Lines, Total;
    var window := Window(log, offset);
    if Truncated(log, offset) {
      var last := LastNewlineIn(window);
      WindowLines(window, last);
      var front := window[..last + 1];
      assert log[offset..] == front + log[offset + last + 1..];
      LinesAppend(front, log[offset + last + 1..]);
    } else {
      assert window == log[offset..];
      LinesTotal(window);
    }
  }

  lemma Split(log: string, query: string, offset: nat)
    requires offset <= |log| && (Truncated(log, offset) ==> '\n' in Window(log, offset))
    ensures offset + Total(Decided(log, offset)) <= |log|
    ensures FullScan(log, query, offset) ==
              Hits(Decided(log, offset), query, offset) +
              (if Truncated(log, offset) then FullScan(log, query, offset + Total(Decided(log, offset))) else [])
  {
    hide Lines, Total, Hits, Decided, Truncated;
    LinesOfLog(log, offset);
    var decided := Decided(log, offset);
    if Truncated(log, offset) {
      HitsAppend(decided, Lines(log[offset + Total(decided)..]), query, offset);
    }
  }

  lemma PrefixLines(lines: seq<string>, more: seq<string>, k: nat)
    requires k <= |lines|
    ensures (lines + more)[..k] == lines[..k] && lines + more == lines[..k] + (lines + more)[k..]
  {
  }

  /** Resuming at a decided line leaves exactly the hits from that line on. */
  lemma Resume(log: string, query: string, offset: nat, k: nat)
    requires offset <= |log| && (Truncated(log, offset) ==> '\n' in Window(log, offset))
    requires k < |Decided(log, offset)|
    ensures var decided := Decided(log, offset);
            var before := Hits(decided[..k], query, offset);
            offset + Total(decided[..k]) <= |log| && |before| <= |FullScan(log, query, offset)| &&
            FullScan(log, query, offset + Total(decided[..k])) == FullScan(log, query, offset)[|before|..]
  {
    hide Lines, Total, Hits, Decided, Truncated;
    LinesOfLog(log, offset);
    var decided := Decided(log, offset);
    var lines := Lines(log[offset..]);
    var more := if Truncated(log, offset) then Lines(log[offset + Total(decided)..]) else [];
    assert lines == decided + more;
    PrefixLines(decided, more, k);
    LinesDrop(log[offset..], k);
    var t := Total(decided[..k]);
    assert log[offset + t..] == log[offset..][t..];
    HitsAppend(lines[..k], lines[k..], query, offset);
  }

  // ----- What a page reports -----

  lemma Broken(log: string, offset: nat)
    requires offset <= |log| && !Unbroken(log, offset)
    ensures Truncated(log, offset) ==> '\n' in Window(log, offset)
  {
  }

  lemma ResumeAtLine(log: string, query: string, offset: nat, i: nat, k: nat)
    requires offset <= |log| && !Unbroken(log, offset) && |query| > 0
    requires k < |Decided(log, offset)| && Hit(Decided(log, offset)[k], query)
    requires i < |Hits(Decided(log, offset), query, offset)|
    requires Hits(Decided(log, offset), query, offset)[i] == offset + Total(Decided(log, offset)[..k])
    ensures var at := offset + Total(Decided(log, offset)[..k]);
            && at < |log| && (i > 0 ==> offset < at) && i <= |FullScan(log, query, offset)|
            && FullScan(log, query, at) == FullScan(log, query, offset)[i..]
  {
    hide *;
    var decided := Decided(log, offset);
    Broken(log, offset);
    HitIndex(decided, query, offset, i, k);
    Resume(log, query, offset, k);
    FirstHit(decided, query, offset, i, k);
    Split(log, query, offset);
    HitsRange(decided, query, offset);
    assert Hits(decided, query, offset)[i] in Hits(decided, query, offset);
  }

  /** The decided hit at a line is where the rest of the answer resumes. */
  lemma ResumeAt(log: string, query: string, offset: nat, i: nat, m: Match)
    requires offset <= |log| && !Unbroken(log, offset) && |query| > 0
    requires SoundMatch(Window(log, offset), query, offset, m) && m.lineNumber <= |Decided(log, offset)|
    requires i < |Hits(Decided(log, offset), query, offset)|
    requires Hits(Decided(log, offset), query, offset)[i] == LineStart(Window(log, offset), offset, m.lineNumber)
    ensures var at := LineStart(Window(log, offset), offset, m.lineNumber);
            && at < |log| && (i > 0 ==> offset < at) && i <= |FullScan(log, query, offset)|
            && FullScan(log, query, at) == FullScan(log, query, offset)[i..]
  {
    hide *;
    SoundMatchIs(Window(log, offset), query, offset, m);
    NumberedLine(Window(log, offset), offset, m.lineNumber - 1);
    DecidedOfWindow(log, offset, m.lineNumber - 1);
    ResumeAtLine(log, query, offset, i, m.lineNumber - 1);
  }

  lemma DecidedOfWindow(log: string, offset: nat, k: nat)
    requires offset <= |log| && k < |Decided(log, offset)|
    ensures k < |Lines(Window(log, offset))|
    ensures Decided(log, offset)[..k] == Lines(Window(log, offset))[..k]
    ensures Decided(log, offset)[k] == Lines(Window(log, offset))[k]
  {
  }

  lemma FirstHit(lines: seq<string>, query: string, base: nat, i: nat, k: nat)
    requires |query| > 0 && k < |lines| && i <= |Hits(lines, query, base)|
    requires Hits(lines[..k], query, base) == Hits(lines, query, base)[..i]
    ensures i > 0 ==> 0 < Total(lines[..k])
  {
    HitsRange(lines[..k], query, base);
    hide Hits, Total;
    if i > 0 {
      assert Hits(lines[..k], query, base)[0] in Hits(lines[..k], query, base);
    }
  }

  /** Matches found in a window: the first decided hits, up to one more than a page may hold. */
  predicate Found(log: string, query: string, offset: nat, matches: seq<Match>)
    requires offset <= |log|
  {
    var decided := Hits(Decided(log, offset), query, offset);
    && Sound(Window(log, offset), query, offset, matches)
    && |matches| <= MAX_MATCHES + 1 && |matches| <= |decided|
    && Reported(Window(log, offset), offset, matches) == decided[..|matches|]
    && (|matches| <= MAX_MATCHES ==> |matches| == |decided|)
    && forall m <- matches :: m.lineNumber <= |Decided(log, offset)|
  }

  lemma DecidedIs(log: string, offset: nat)
    requires offset <= |log|
    ensures Decided(log, offset) ==
            Lines(Window(log, offset))[..|Lines(Window(log, offset))| - if Truncated(log, offset) then 1 else 0]
  {
  }

  lemma AllFound(log: string, query: string, offset: nat, matches: seq<Match>)
    requires offset <= |log| && !Truncated(log, offset)
    requires Sound(Window(log, offset), query, offset, matches)
    requires var all := Hits(Lines(Window(log, offset)), query, offset);
             |matches| <= MAX_MATCHES + 1 && |matches| <= |all| &&
             Reported(Window(log, offset), offset, matches) == all[..|matches|] &&
             (|matches| <= MAX_MATCHES ==> |matches| == |all|)
    ensures Found(log, query, offset, matches)
  {
    DecidedIs(log, offset);
    hide Lines, Hits, Hit, Reported, Exact, Decided;
    var lines := Lines(Window(log, offset));
    assert lines[..|lines|] == lines;
    forall m <- matches ensures m.lineNumber <= |Decided(log, offset)| {
      assert SoundMatch(Window(log, offset), query, offset, m);
      SoundMatchIs(Window(log, offset), query, offset, m);
    }
  }

  lemma KeptFound(log: string, query: string, offset: nat, matches: seq<Match>, kept: seq<Match>)
    requires offset <= |log| && Truncated(log, offset) && |query| > 0
    requires Sound(Window(log, offset), query, offset, matches)
    requires var all := Hits(Lines(Window(log, offset)), query, offset);
             |matches| <= MAX_MATCHES + 1 && |matches| <= |all| &&
             Reported(Window(log, offset), offset, matches) == all[..|matches|] &&
             (|matches| <= MAX_MATCHES ==> |matches| == |all|)
    requires kept <= matches
    requires forall m <- kept :: EndsBy(Window(log, offset), offset, query, offset + Total(Decided(log, offset)), m)
    requires |kept| < |matches| ==>
               !EndsBy(Window(log, offset), offset, query, offset + Total(Decided(log, offset)), matches[|kept|])
    ensures Found(log, query, offset, kept)
  {
    hide Lines, Hits, Hit, Total, Decided, SoundMatch, Window, Truncated, EndsBy, Reported;
    var window := Window(log, offset);
    var lines := Lines(window);
    DecidedOfTruncated(log, offset);
    KeptAreDecided(window, offset, query, |lines| - 1, matches, kept);
    assert lines == lines[..|lines| - 1 + 1];
    HitsSnoc(lines, query, offset, |lines| - 1);
    assert Sound(window, query, offset, kept);
  }

  lemma DecidedOfTruncated(log: string, offset: nat)
    requires offset <= |log| && Truncated(log, offset)
    ensures Decided(log, offset) == Lines(Window(log, offset))[..|Lines(Window(log, offset))| - 1]
  {
  }

  /** The page shows a prefix of the found matches, and resumes at the next one or behind the window. */
  predicate Shows(log: string, query: string, offset: nat, matches: seq<Match>, page: Page)
    requires offset <= |log|
  {
    && page.Page? && |page.matches| <= |matches|
    && Sound(Window(log, offset), query, offset, page.matches)
    && (forall k :: 0 <= k < |page.matches| ==> page.matches[k].lineNumber == matches[k].lineNumber)
    && (|page.matches| < |matches| ==>
          |page.matches| > 0 && page.more &&
          page.next == LineStart(Window(log, offset), offset, matches[|page.matches|].lineNumber))
    && (|page.matches| == |matches| ==> |matches| <= MAX_MATCHES && page.more == Truncated(log, offset))
    && (|page.matches| == |matches| && page.more ==> page.next == offset + Total(Decided(log, offset)))
  }

  lemma CutPage(log: string, query: string, offset: nat, matches: seq<Match>, n: nat)
    requires offset <= |log| && !Unbroken(log, offset) && |query| > 0
    requires Found(log, query, offset, matches) && 0 < n < |matches|
    ensures var at := LineStart(Window(log, offset), offset, matches[n].lineNumber);
            && offset < at < |log| && n <= |FullScan(log, query, offset)|
            && FullScan(log, query, at) == FullScan(log, query, offset)[n..]
  {
    hide Hits, Decided, SoundMatch, Window, Truncated, LineStart, FullScan, Unbroken;
    assert SoundMatch(Window(log, offset), query, offset, matches[n]);
    assert Reported(Window(log, offset), offset, matches)[n] == Hits(Decided(log, offset), query, offset)[n];
    assert matches[n] in matches;
    ResumeAt(log, query, offset, n, matches[n]);
  }

  lemma FoundPrefix(log: string, query: string, offset: nat, matches: seq<Match>)
    requires offset <= |log| && !Unbroken(log, offset) && Found(log, query, offset, matches)
    ensures |matches| <= |FullScan(log, query, offset)|
    ensures Reported(Window(log, offset), offset, matches) == FullScan(log, query, offset)[..|matches|]
  {
    Broken(log, offset);
    Split(log, query, offset);
    hide Hits, Decided, Window, Truncated, FullScan, Reported;
  }

  lemma WholePage(log: string, query: string, offset: nat, matches: seq<Match>)
    requires offset <= |log| && !Unbroken(log, offset) && Found(log, query, offset, matches) && |matches| <= MAX_MATCHES
    ensures !Truncated(log, offset) ==> |matches| == |FullScan(log, query, offset)|
    ensures Truncated(log, offset) ==>
              var at := offset + Total(Decided(log, offset));
              && offset < at < |log| && |matches| <= |FullScan(log, query, offset)|
              && FullScan(log, query, at) == FullScan(log, query, offset)[|matches|..]
  {
    Broken(log, offset);
    Split(log, query, offset);
    LinesOfLog(log, offset);
    hide Hits, Decided, Window, Truncated, FullScan, Reported, Lines, Total;
  }

  lemma PageIsOk(log: string, query: string, offset: nat, matches: seq<Match>, page: Page)
    requires offset <= |log| && !Unbroken(log, offset) && |query| > 0
    requires Found(log, query, offset, matches) && Shows(log, query, offset, matches, page)
    ensures PageOk(log, query, offset, page)
  {
    hide Decided, Window, Truncated, FullScan, Reported, Total, Sound, LineStart, Unbroken, Found, Shows;
    ShownIs(log, query, offset, matches, page);
    var n, all := |page.matches|, FullScan(log, query, offset);
    ReportedPrefix(Window(log, offset), offset, matches, page.matches);
    FoundPrefix(log, query, offset, matches);
    assert Reported(Window(log, offset), offset, page.matches) == all[..n] by {
      assert all[..|matches|][..n] == all[..n];
    }
    if n < |matches| {
      CutPage(log, query, offset, matches, n);
    } else {
      WholePage(log, query, offset, matches);
    }
  }

  lemma ShownIs(log: string, query: string, offset: nat, matches: seq<Match>, page: Page)
    requires offset <= |log| && Shows(log, query, offset, matches, page)
    ensures page.Page? && |page.matches| <= |matches| && Sound(Window(log, offset), query, offset, page.matches)
    ensures forall k :: 0 <= k < |page.matches| ==> page.matches[k].lineNumber == matches[k].lineNumber
    ensures |page.matches| < |matches| ==>
              |page.matches| > 0 && page.more &&
              page.next == LineStart(Window(log, offset), offset, matches[|page.matches|].lineNumber)
    ensures |page.matches| == |matches| ==> |matches| <= MAX_MATCHES && page.more == Truncated(log, offset)
    ensures |page.matches| == |matches| && page.more ==> page.next == offset + Total(Decided(log, offset))
  {
  }

  lemma NewlineAt(text: string, at: nat)
    requires at <= |text| && (at < |text| ==> text[at] == '\n') && forall i :: 0 <= i < at ==> text[i] != '\n'
    ensures Newline(text) == at
  {
  }

  lemma NewlineLater(text: string, k: nat)
    requires k <= |text| && '\n' !in text[..k]
    ensures Newline(text) == k + Newline(text[k..])
  {
    hide Newline;
    var later := text[k..];
    var at := Newline(later);
    forall i | 0 <= i < k + at ensures text[i] != '\n' {
      if i < k {
        assert text[..k][i] in text[..k];
      } else {
        assert later[i - k] == text[i];
      }
    }
    NewlineAt(text, k + at);
  }

  lemma LaterLines(text: string, k: nat)
    requires k <= |text| && '\n' !in text[..k]
    ensures k <= |Lines(text)[0]| && Lines(text[k..])[0] == Lines(text)[0][k..]
    ensures Lines(text[k..])[1..] == Lines(text)[1..]
    ensures text[..k] <= Lines(text)[0] && (k < |text| ==> |Lines(text)[0]| > k)
  {
    hide Lines, Newline;
    NewlineLater(text, k);
    LinesStep(text);
    LinesStep(text[k..]);
    var at := Newline(text);
    if at < |text| {
      assert text[k..][at - k + 1..] == text[at + 1..];
      assert text[k..][..at - k + 1] == text[..at + 1][k..];
      assert text[..k] == text[..at + 1][..k];
    }
  }

  lemma HitsFirst(lines: seq<string>, query: string, base: nat)
    requires |lines| > 0
    ensures Hits(lines, query, base) ==
            (if Hit(lines[0], query) then [base] else []) + Hits(lines[1..], query, base + |lines[0]|)
  {
  }

  lemma ScanIs(log: string, query: string, offset: nat)
    requires offset <= |log|
    ensures FullScan(log, query, offset) == Hits(Lines(log[offset..]), query, offset)
  {
  }

  /** A line resumed in its middle leaves the later lines as they are. */
  lemma MiddleOfLine(log: string, query: string, offset: nat, next: nat) returns (rest: seq<nat>)
    requires offset <= next <= |log| && '\n' !in log[offset..next]
    ensures FullScan(log, query, offset) == (if Hit(Lines(log[offset..])[0], query) then [offset] else []) + rest
    ensures FullScan(log, query, next) == (if Hit(Lines(log[next..])[0], query) then [next] else []) + rest
  {
    hide *;
    var text, k := log[offset..], next - offset;
    assert text[..k] == log[offset..next] && text[k..] == log[next..];
    LaterLines(text, k);
    HitsFirst(Lines(text), query, offset);
    HitsFirst(Lines(text[k..]), query, next);
    rest := Hits(Lines(text)[1..], query, offset + |Lines(text)[0]|);
    ScanIs(log, query, offset);
    ScanIs(log, query, next);
  }

  lemma CleanLength(line: string)
    ensures |Clean(line)| >= |line| - 2
  {
  }

  lemma EarlyHit(line: string, window: string, query: string, at: nat)
    requires window <= line && at + |query| <= |Clean(window)| && at + |query| <= |line| - 2
    requires OccursAt(Clean(window), query, at)
    ensures Hit(line, query)
  {
    CleanLength(line);
    var clean := Clean(line);
    assert OccursAt(clean, query, at) by {
      assert clean[at..at + |query|] == Clean(window)[at..at + |query|];
    }
  }

  lemma LastFits(text: string, query: string)
    ensures var last := LastIndex(text, query); last >= 0 ==> OccursAt(text, query, last) && last + |query| <= |text|
  {
  }

  /** An occurrence well within the window is one of the whole line too. */
  lemma WindowHit(log: string, query: string, offset: nat)
    requires offset <= |log| && Unbroken(log, offset)
    requires var last := LastIndex(Clean(Window(log, offset)), query); 0 <= last && last + |query| <= SCAN - 2
    ensures Hit(Lines(log[offset..])[0], query)
  {
    hide Lines, Hit, Clean, OccursAt;
    var window, text := Window(log, offset), log[offset..];
    assert text[..SCAN] == window;
    LaterLines(text, SCAN);
    var last := LastIndex(Clean(window), query);
    LastFits(Clean(window), query);
    EarlyHit(Lines(text)[0], window, query, last);
  }

  lemma UnbrokenReported(log: string, query: string, offset: nat, page: Page)
    requires offset <= |log| && Unbroken(log, offset) && page.Page? && |page.matches| <= 1
    requires Sound(Window(log, offset), query, offset, page.matches)
    ensures Reported(Window(log, offset), offset, page.matches) == if |page.matches| == 1 then [offset] else []
  {
    var window := Window(log, offset);
    SingleLine(window);
    if |page.matches| == 1 {
      assert SoundMatch(window, query, offset, page.matches[0]);
      SoundMatchIs(window, query, offset, page.matches[0]);
    }
    hide Lines, Window, Unbroken, SoundMatch;
  }

  /** Without a newline the page shows the line if its last occurrence in the window ends by the overlap, where the
      next page begins. */
  predicate UnbrokenShows(log: string, query: string, offset: nat, page: Page)
    requires offset <= |log|
  {
    var last := LastIndex(Clean(Window(log, offset)), query);
    && page.Page? && page.more && page.next == Overlap(offset)
    && |page.matches| == if 0 <= last && offset + last + |query| <= Overlap(offset) then 1 else 0
  }

  /** Without a newline to resume at, the page is right exactly when every occurrence ends early. */
  lemma UnbrokenPage(log: string, query: string, offset: nat, page: Page)
    requires offset <= |log| && Unbroken(log, offset) && 0 < |query|
    requires UnbrokenShows(log, query, offset, page) && Sound(Window(log, offset), query, offset, page.matches)
    ensures PageOk(log, query, offset, page) <==> EndsEarly(log, query, offset)
  {
    hide Lines, Hits, Hit, Reported, FullScan, Sound, Clean, PageOk, EndsEarly, Unbroken;
    var next, n := Overlap(offset), |page.matches|;
    UnbrokenOverlap(log, offset);
    var rest := MiddleOfLine(log, query, offset, next);
    if n == 1 {
      WindowHit(log, query, offset);
    }
    UnbrokenReported(log, query, offset, page);
    var line, tail := Hit(Lines(log[offset..])[0], query), Hit(Lines(log[next..])[0], query);
    var all, later := FullScan(log, query, offset), FullScan(log, query, next);
    ResumedLine(all, later, rest, line, tail, offset, next, n);
    UnbrokenOk(log, query, offset, page);
    EndsEarlyIs(log, query, offset, n);
  }

  lemma UnbrokenOverlap(log: string, offset: nat)
    requires offset <= |log| && Unbroken(log, offset)
    ensures offset < Overlap(offset) < |log| && '\n' !in log[offset..Overlap(offset)]
  {
    forall i | offset <= i < Overlap(offset) ensures log[i] != '\n' {
      assert Window(log, offset)[i - offset] in Window(log, offset);
    }
  }

  lemma UnbrokenOk(log: string, query: string, offset: nat, page: Page)
    requires offset <= |log| && page.Page? && page.more && offset < page.next < |log|
    requires Sound(Window(log, offset), query, offset, page.matches)
    requires |page.matches| <= |FullScan(log, query, offset)|
    requires Reported(Window(log, offset), offset, page.matches) == FullScan(log, query, offset)[..|page.matches|]
    ensures PageOk(log, query, offset, page) <==>
            FullScan(log, query, page.next) == FullScan(log, query, offset)[|page.matches|..]
  {
    hide FullScan, Sound, Reported, Window;
  }

  lemma EndsEarlyIs(log: string, query: string, offset: nat, n: nat)
    requires offset <= |log| && Unbroken(log, offset) && Overlap(offset) <= |log|
    requires var last := LastIndex(Clean(Window(log, offset)), query);
             n == if 0 <= last && offset + last + |query| <= Overlap(offset) then 1 else 0
    ensures EndsEarly(log, query, offset) <==>
            !Hit(Lines(log[Overlap(offset)..])[0], query) && (Hit(Lines(log[offset..])[0], query) ==> n == 1)
  {
    hide Lines, Hit, Clean, Window, Unbroken;
  }

  lemma ResumedLine(
    all: seq<nat>, later: seq<nat>, rest: seq<nat>, line: bool, tail: bool, base: nat, next: nat, n: nat)
    requires n <= 1 && base != next && (n == 1 ==> line)
    requires all == (if line then [base] else []) + rest
    requires later == (if tail then [next] else []) + rest
    ensures n <= |all| && all[..n] == if n == 1 then [base] else []
    ensures later == all[n..] <==> !tail && (line ==> n == 1)
  {
    if line && n == 1 {
      assert all[..1] == [base] && all[1..] == rest;
    } else if !line {
      assert all[..0] == [] && all[0..] == rest;
    } else {
      assert all[0] == base;
    }
    if tail {
      assert later[0] == next && |later| == |rest| + 1;
    }
  }

  /** Where the last newline of a text is, or -1. */
  method LastIndexNewline(text: string) returns (last: int)
    ensures -1 <= last < |text| && (last >= 0 ==> text[last] == '\n')
    ensures forall i :: last < i < |text| ==> text[i] != '\n'
  {
    last := |text| - 1;
    while last >= 0 && text[last] != '\n'
      invariant -1 <= last < |text| && forall i :: last < i < |text| ==> text[i] != '\n'
    {
      last := last - 1;
    }
  }

  /** One request: what of the window from the offset on is reported, and where to go on. */
  method SearchPage(log: string, query: string, context: int, offset: nat, fits: seq<Match> -> bool)
    returns (page: Page)
    ensures page.Invalid? <==> !ValidQuery(query, context)
    ensures page.Page? && offset > |log| ==> page.matches == [] && !page.more
    ensures page.Page? && offset <= |log| ==> (PageOk(log, query, offset, page) <==> Resumable(log, query, offset))
    ensures page.Page? && offset <= |log| && Unbroken(log, offset) ==> UnbrokenShows(log, query, offset, page)
    ensures page.Page? && page.more ==> offset < page.next < |log|
    ensures page.Page? ==> |page.matches| <= MAX_MATCHES
    ensures page.Page? && offset <= |log| && |page.matches| != 1 ==>
              forall m <- page.matches :: FullContext(Window(log, offset), context, m)
    ensures page.Page? && page.matches != [] ==>
              fits(page.matches) ||
              (|page.matches| == 1 &&
                page.matches[0].startLine == page.matches[0].lineNumber == page.matches[0].endLine)
  {
    hide Lines, Hits, Hit, Total, Contains, Clean, Decided, Sound, SoundMatch, EndsBy, FullScan, EndsEarly, PageOk,
      LineStart, Reported, OccurrenceEnd, Ascending, Found, Shows;
    if !ValidQuery(query, context) {
      return Invalid;
    }
    if offset > |log| {
      // A range behind the end of the log is empty.
      return Page([], false, offset);
    }
    var window := Window(log, offset);
    var truncated := |log| - offset > SCAN;
    var matches := SearchLogText(window, query, context, offset);
    var next: int := offset + |window|;
    if truncated {
      var last := LastIndexNewline(window);
      // The overlap never falls back to the offset, as the window is longer than a query.
      next := if last >= 0 then offset + last + 1 else offset + |window| - (MAX_QUERY - 1);
      BoundaryIs(log, offset, last);
      var kept := KeepDecided(window, offset, query, next, matches);
      if last >= 0 {
        KeptFound(log, query, offset, matches, kept);
      } else {
        UnbrokenKept(log, query, offset, matches, kept);
      }
      matches := kept;
    } else {
      AllFound(log, query, offset, matches);
    }
    ghost var found := matches;
    assert Sound(window, query, offset, matches) by {
      if !Unbroken(log, offset) {
        FoundIsSound(log, query, offset, matches);
      }
    }
    var overflow := |matches| > MAX_MATCHES;
    if overflow {
      // The line held back is behind at least one other, so its start is past the offset.
      next := QueryLineByteOffset(window, offset, matches[MAX_MATCHES].lineNumber);
      SoundPrefix(window, query, offset, matches, MAX_MATCHES);
      matches := matches[..MAX_MATCHES];
    }
    var shown, cut := FitSearchPage(window, offset, query, matches, fits);
    if cut >= 0 {
      next := cut;
    }
    page := Page(shown, truncated || overflow || cut >= 0, next);
    if Unbroken(log, offset) {
      assert |found| <= 1 && shown != [] <==> found != [];
      UnbrokenPage(log, query, offset, page);
    } else {
      ShowsIs(log, query, offset, found, page);
      PageIsOk(log, query, offset, found, page);
      PageAdvances(log, query, offset, page);
    }
  }

  lemma FoundIsSound(log: string, query: string, offset: nat, matches: seq<Match>)
    requires offset <= |log| && Found(log, query, offset, matches)
    ensures Sound(Window(log, offset), query, offset, matches) && |matches| <= MAX_MATCHES + 1
  {
  }

  lemma SoundPrefix(text: string, query: string, base: nat, matches: seq<Match>, n: nat)
    requires Sound(text, query, base, matches) && n <= |matches|
    ensures Sound(text, query, base, matches[..n])
  {
  }

  /** The boundary is the end of the lines decided, or the overlap. */
  lemma BoundaryIs(log: string, offset: nat, last: int)
    requires offset <= |log| && Truncated(log, offset)
    requires -1 <= last < |Window(log, offset)| && (last >= 0 ==> Window(log, offset)[last] == '\n')
    requires forall i :: last < i < |Window(log, offset)| ==> Window(log, offset)[i] != '\n'
    ensures Unbroken(log, offset) <==> last < 0
    ensures last >= 0 ==> offset + Total(Decided(log, offset)) == offset + last + 1
  {
    hide Lines, Total;
    if last >= 0 {
      assert Window(log, offset)[last] in Window(log, offset);
      WindowLines(Window(log, offset), last);
    }
  }

  lemma UnbrokenKept(log: string, query: string, offset: nat, matches: seq<Match>, kept: seq<Match>)
    requires offset <= |log| && Unbroken(log, offset) && |query| > 0
    requires Sound(Window(log, offset), query, offset, matches)
    requires var all := Hits(Lines(Window(log, offset)), query, offset);
             |matches| <= MAX_MATCHES + 1 && |matches| <= |all| && (|matches| <= MAX_MATCHES ==> |matches| == |all|)
    requires kept <= matches
    requires forall m <- kept :: EndsBy(Window(log, offset), offset, query, Overlap(offset), m)
    requires |kept| < |matches| ==> !EndsBy(Window(log, offset), offset, query, Overlap(offset), matches[|kept|])
    ensures Sound(Window(log, offset), query, offset, kept)
    ensures var last := LastIndex(Clean(Window(log, offset)), query);
            |kept| == if 0 <= last && offset + last + |query| <= Overlap(offset) then 1 else 0
  {
    var window := Window(log, offset);
    SingleLine(window);
    hide Lines, Clean, Window, Unbroken, Overlap;
    assert [window][1..] == [] && [window][..0] == [];
    var last := LastIndex(Clean(window), query);
    assert Hit(window, query) <==> last >= 0 by {
      if last >= 0 {
        assert OccursAt(Clean(window), query, last);
      }
    }
    assert |Hits(Lines(window), query, offset)| == if Hit(window, query) then 1 else 0;
    if |matches| > 0 {
      assert SoundMatch(window, query, offset, matches[0]);
      assert matches[0].lineNumber == 1;
      assert OccurrenceEnd(window, offset, query, matches[0]) == offset + last + |query|;
      if |kept| > 0 {
        assert kept[0] in kept;
      }
    }
  }

  lemma ShowsIs(log: string, query: string, offset: nat, found: seq<Match>, page: Page)
    requires offset <= |log| && page.Page? && |page.matches| <= |found|
    requires Sound(Window(log, offset), query, offset, page.matches)
    requires forall k :: 0 <= k < |page.matches| ==> page.matches[k].lineNumber == found[k].lineNumber
    requires |page.matches| < |found| ==> |page.matches| > 0 && page.more
    requires |page.matches| < |found| ==>
               page.next == LineStart(Window(log, offset), offset, found[|page.matches|].lineNumber)
    requires |page.matches| == |found| ==> |found| <= MAX_MATCHES && page.more == Truncated(log, offset)
    requires |page.matches| == |found| && page.more ==> page.next == offset + Total(Decided(log, offset))
    ensures Shows(log, query, offset, found, page)
  {
  }

  lemma PageAdvances(log: string, query: string, offset: nat, page: Page)
    requires PageOk(log, query, offset, page)
    ensures page.more ==> offset < page.next < |log|
  {
  }

  // ----- Following the cursors -----

  /** The pages a caller gets who starts at the offset and follows every cursor to the end. */
  predicate Followed(log: string, query: string, offset: nat, pages: seq<Page>)
    decreases |pages|
  {
    && |pages| > 0 && PageOk(log, query, offset, pages[0])
    && if pages[0].more then Followed(log, query, pages[0].next, pages[1..]) else |pages| == 1
  }

  /** Everything these pages report, in the order of the pages. */
  function AllReported(log: string, query: string, offset: nat, pages: seq<Page>): seq<nat>
    requires Followed(log, query, offset, pages)
    decreases |pages|
  {
    Reported(Window(log, offset), offset, pages[0].matches) +
    if pages[0].more then AllReported(log, query, pages[0].next, pages[1..]) else []
  }

  /** Following the cursors reports every matching line once and in order, and comes to an end. */
  lemma {:induction false} FollowingIsAFullScan(log: string, query: string, offset: nat, pages: seq<Page>)
    requires Followed(log, query, offset, pages)
    ensures AllReported(log, query, offset, pages) == FullScan(log, query, offset)
    ensures offset <= |log| && |pages| <= |log| - offset + 1
    decreases |pages|
  {
    hide FullScan, Window, Reported, Sound;
    var all, n := FullScan(log, query, offset), |pages[0].matches|;
    if pages[0].more {
      FollowingIsAFullScan(log, query, pages[0].next, pages[1..]);
      assert all == all[..n] + all[n..];
    } else {
      assert all == all[..n];
    }
  }

  /** Where each of the pages begins. */
  function Offsets(offset: int, pages: seq<Page>): seq<int>
    decreases |pages|
  {
    if |pages| == 0 then []
    else [offset] + if pages[0].Page? && pages[0].more then Offsets(pages[0].next, pages[1..]) else []
  }

  predicate AllResumable(log: string, query: string, offsets: seq<int>) {
    forall i :: 0 <= i < |offsets| ==> 0 <= offsets[i] <= |log| && Resumable(log, query, offsets[i])
  }

  lemma FirstResumable(log: string, query: string, offset: nat, offsets: seq<int>)
    requires offset <= |log|
    ensures AllResumable(log, query, [offset] + offsets) <==>
            Resumable(log, query, offset) && AllResumable(log, query, offsets)
  {
    hide Resumable;
    var all := [offset] + offsets;
    assert all[0] == offset && forall i :: 0 <= i < |offsets| ==> all[i + 1] == offsets[i];
  }

  /** A caller that follows every cursor from the offset on: the pages are right, and so report exactly the full scan,
      if and only if every offset a page was requested at can be resumed. */
  method SearchFrom(log: string, query: string, context: int, offset: nat, fits: seq<Match> -> bool)
    returns (pages: seq<Page>)
    requires offset <= |log|
    ensures !ValidQuery(query, context) ==> pages == [Invalid]
    ensures ValidQuery(query, context) ==>
              (Followed(log, query, offset, pages) <==> AllResumable(log, query, Offsets(offset, pages)))
    ensures Followed(log, query, offset, pages) ==>
              AllReported(log, query, offset, pages) == FullScan(log, query, offset)
    decreases |log| - offset
  {
    hide PageOk, UnbrokenShows, Unbroken, EndsEarly, FullScan, Reported, Window, FullContext, AllResumable;
    hide Resumable;
    var page := SearchPage(log, query, context, offset, fits);
    pages := [page];
    var rest := [];
    if page.Page? && page.more {
      rest := SearchFrom(log, query, context, page.next, fits);
      pages := pages + rest;
      assert pages[1..] == rest;
      FirstResumable(log, query, offset, Offsets(page.next, rest));
    } else {
      FirstResumable(log, query, offset, []);
      NoneToResume(log, query);
    }
    if Followed(log, query, offset, pages) {
      FollowingIsAFullScan(log, query, offset, pages);
    }
  }

  lemma NoneToResume(log: string, query: string)
    ensures AllResumable(log, query, [])
  {
  }

  /** A stretch without a newline lies within one line, which is longer than the stretch if the text goes on. */
  lemma {:induction false} StretchWithinLine(text: string, a: nat, b: nat)
    requires a < b < |text| && '\n' !in text[a..b]
    ensures exists line <- Lines(text) :: |line| > b - a
    decreases |text|
  {
    var at := Newline(text);
    var lines := Lines(text);
    if at < a {
      assert text[at + 1..][a - at - 1..b - at - 1] == text[a..b];
      StretchWithinLine(text[at + 1..], a - at - 1, b - at - 1);
      assert lines[1..] == Lines(text[at + 1..]);
      var line :| line in lines[1..] && |line| > b - a;
      assert line in lines;
    } else {
      forall i | a <= i < b ensures text[i] != '\n' {
        assert text[a..b][i - a] in text[a..b];
      }
      assert lines[0] in lines && |lines[0]| > b - a;
    }
  }

  /** When no line is longer than a scan, every page of the log can be resumed exactly. */
  lemma ShortLinesAreResumable(log: string, query: string, offset: nat)
    requires offset <= |log| && forall line <- Lines(log) :: |line| <= SCAN
    ensures Resumable(log, query, offset)
  {
    hide Lines;
    if Unbroken(log, offset) {
      StretchWithinLine(log, offset, offset + SCAN);
    }
  }

  /** A log that is one long line with a single occurrence across the place where it is resumed. */
  function LongLine(): string {
    seq(SCAN + 1, i => if i == SCAN - MAX_QUERY then 'x' else if i == SCAN - MAX_QUERY + 1 then 'y' else '.')
  }

  lemma LongLineIs()
    ensures var log := LongLine();
            && |log| == SCAN + 1 && '\n' !in log && log[SCAN - 1] == '.' && log[SCAN] == '.'
            && log[SCAN - MAX_QUERY] == 'x' && log[SCAN - MAX_QUERY + 1] == 'y'
            && forall i :: SCAN - MAX_QUERY < i <= SCAN ==> log[i] != 'x'
  {
  }

  lemma Untrimmed(text: string)
    requires |text| > 0 && text[|text| - 1] == '.'
    ensures Clean(text) == text
  {
  }

  lemma OccursThere(text: string, at: nat)
    requires at + 2 <= |text| && text[at] == 'x' && text[at + 1] == 'y'
    ensures OccursAt(text, "xy", at)
  {
    assert text[at..at + 2] == "xy";
  }

  lemma OneLine(line: string, query: string, base: nat)
    ensures Hits([line], query, base) == if Hit(line, query) then [base] else []
  {
    assert [line][1..] == [];
  }

  lemma NoStart(text: string)
    requires 'x' !in text
    ensures !Hit(text, "xy")
  {
    var clean := Clean(text);
    forall at | 0 <= at <= |clean| - 2 ensures !OccursAt(clean, "xy", at) {
      assert clean[at] == text[at] && text[at] in text;
      assert clean[at..at + 2][0] == clean[at] && "xy"[0] == 'x';
    }
  }

  /** Its only matching line is reported by no page: neither by the first nor by those that follow it. */
  lemma LongLineIsLost()
    ensures var log := LongLine();
            && Unbroken(log, 0) && !Resumable(log, "xy", 0)
            && FullScan(log, "xy", 0) == [0]
    ensures var log := LongLine();
            forall page :: UnbrokenShows(log, "xy", 0, page) ==> page.matches == [] && page.next == Overlap(0)
    ensures var log := LongLine();
            forall pages :: Followed(log, "xy", Overlap(0), pages) ==> AllReported(log, "xy", Overlap(0), pages) == []
  {
    hide LongLine, Lines, Clean, LastIndex, Hits, Hit, OccursAt;
    var log := LongLine();
    LongLineIs();
    assert log[0..] == log;
    SingleLine(log);
    Untrimmed(log);
    OccursThere(log, SCAN - MAX_QUERY);
    HitHere(log, "xy", SCAN - MAX_QUERY);
    OneLine(log, "xy", 0);
    var window := Window(log, 0);
    assert window == log[..SCAN];
    Untrimmed(window);
    OccursThere(window, SCAN - MAX_QUERY);
    LostBehind(log, window);
    hide FullScan, Followed, Window;
    forall pages | Followed(log, "xy", Overlap(0), pages)
      ensures AllReported(log, "xy", Overlap(0), pages) == []
    {
      FollowingIsAFullScan(log, "xy", Overlap(0), pages);
    }
  }

  lemma HitHere(text: string, query: string, at: nat)
    requires Clean(text) == text && OccursAt(text, query, at)
    ensures Hit(text, query)
  {
  }

  lemma LostBehind(log: string, window: string)
    requires |log| == SCAN + 1 && '\n' !in log && window == log[..SCAN] && window == Window(log, 0)
    requires Clean(window) == window && OccursAt(window, "xy", SCAN - MAX_QUERY) && Hit(log, "xy") &&
             Lines(log) == [log]
    requires forall i :: SCAN - MAX_QUERY < i <= SCAN ==> log[i] != 'x'
    ensures Unbroken(log, 0) && !Resumable(log, "xy", 0)
    ensures LastIndex(Clean(Window(log, 0)), "xy") + |"xy"| > Overlap(0)
    ensures FullScan(log, "xy", Overlap(0)) == []
  {
    hide Lines, Clean, Hits, Hit, OccursAt;
    var tail := log[Overlap(0)..];
    assert log[0..] == log;
    SingleLine(tail);
    NoStart(tail);
    OneLine(tail, "xy", Overlap(0));
  }
}
