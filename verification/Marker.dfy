/** Hidden markers: printed, found, and added.

  A marker is a comment between `<!--` and `-->`; a text whose comments are nested or not closed is not trusted.
 */
module Marker {
  import opened Basics

  datatype Marker = Marker(workflow: string, participant: string, operation: string)

  /** The markers of a text, and whether some marker-like comment is malformed. */
  datatype Inspection = Inspection(markers: seq<Marker>, untrusted: bool)

  datatype Ensured = Text(text: string) | InvalidMarker | UntrustedText

  const PREFIX := "<!-- omnigrex"
  const CLOSE := "-->"

  // ----- Strings -----

  /** Where a string first occurs in a text, or -1. */
  function Index(text: string, p: string): (at: int)
    ensures at >= 0 ==> OccursAt(text, p, at)
    ensures forall i :: OccursAt(text, p, i) ==> 0 <= at <= i
    decreases |text|
  {
    hide OccursAt;
    if OccursAt(text, p, 0) then
      OccursWithin(text, p);
      0
    else if |text| == 0 then
      OccursWithin(text, p);
      -1
    else
      OccursLater(text, p);
      var at := Index(text[1..], p);
      if at < 0 then -1 else at + 1
  }

  lemma OccursWithin(text: string, p: string)
    ensures forall i :: OccursAt(text, p, i) ==> 0 <= i <= |text|
  {
  }

  lemma OccursLater(text: string, p: string)
    requires |text| > 0 && !OccursAt(text, p, 0)
    ensures forall i :: OccursAt(text, p, i) ==> OccursAt(text[1..], p, i - 1)
    ensures forall i :: OccursAt(text[1..], p, i) ==> OccursAt(text, p, i + 1)
  {
    forall i | OccursAt(text, p, i) ensures OccursAt(text[1..], p, i - 1) {
      assert text[1..][i - 1..i - 1 + |p|] == text[i..i + |p|];
    }
    forall i | OccursAt(text[1..], p, i) ensures OccursAt(text, p, i + 1) {
      assert text[1..][i..i + |p|] == text[i + 1..i + 1 + |p|];
    }
  }

  lemma IndexIs(text: string, p: string, at: nat)
    requires OccursAt(text, p, at) && forall i :: 0 <= i < at ==> !OccursAt(text, p, i)
    ensures Index(text, p) == at
  {
  }

  lemma IndexNone(text: string, p: string, c: char)
    requires c in p && c !in text
    ensures Index(text, p) < 0
  {
    var k :| 0 <= k < |p| && p[k] == c;
    forall i ensures !OccursAt(text, p, i) {
      if 0 <= i <= |text| - |p| {
        assert text[i..i + |p|][k] == text[i + k] && text[i + k] in text;
      }
    }
  }

  /** A line break at the seam keeps a string without line breaks from occurring across it. */
  predicate Seam(t: string, u: string) {
    t == "" || u == "" || t[|t| - 1] == '\n' || u[0] == '\n'
  }

  lemma OccursInBoth(t: string, u: string, p: string, i: nat)
    requires |p| > 0 && '\n' !in p && Seam(t, u)
    ensures OccursAt(t + u, p, i) <==> OccursAt(t, p, i) || (i >= |t| && OccursAt(u, p, i - |t|))
  {
    var all := t + u;
    if OccursAt(t, p, i) {
      assert all[i..i + |p|] == t[i..i + |p|];
    }
    if i >= |t| && i + |p| <= |all| {
      assert all[i..i + |p|] == u[i - |t|..i - |t| + |p|];
    }
    if i < |t| && i + |p| <= |t| {
      assert all[i..i + |p|] == t[i..i + |p|];
    }
    if i < |t| < i + |p| <= |all| {
      var part := all[i..i + |p|];
      assert part[|t| - 1 - i] == t[|t| - 1] && part[|t| - i] == u[0];
      assert '\n' in part;
    }
  }

  /** The first occurrence in a text put together at a seam. */
  lemma IndexAcross(t: string, u: string, p: string)
    requires |p| > 0 && '\n' !in p && Seam(t, u)
    ensures Index(t, p) >= 0 ==> Index(t + u, p) == Index(t, p)
    ensures Index(t, p) < 0 ==> Index(t + u, p) == if Index(u, p) < 0 then -1 else |t| + Index(u, p)
  {
    hide OccursAt;
    forall i: nat ensures OccursAt(t + u, p, i) <==> OccursAt(t, p, i) || (i >= |t| && OccursAt(u, p, i - |t|)) {
      OccursInBoth(t, u, p, i);
    }
    OccursWithin(t + u, p);
    OccursWithin(t, p);
    var at := Index(t + u, p);
    if Index(t, p) >= 0 {
      assert OccursAt(t + u, p, Index(t, p));
      assert OccursAt(t, p, at) || at >= |t|;
    } else if Index(u, p) >= 0 {
      assert OccursAt(t + u, p, |t| + Index(u, p));
    }
  }

  // ----- Splitting at spaces -----

  function Join(fields: seq<string>): string
    requires |fields| > 0
  {
    if |fields| == 1 then fields[0] else fields[0] + " " + Join(fields[1..])
  }

  function Split(text: string): (fields: seq<string>)
    ensures |fields| > 0
    decreases |text|
  {
    if ' ' !in text then [text]
    else if text[0] == ' ' then [""] + Split(text[1..])
    else
      var rest := Split(text[1..]);
      [[text[0]] + rest[0]] + rest[1..]
  }

  lemma {:induction false} SplitFirst(field: string, rest: string)
    requires ' ' !in field
    ensures Split(field + " " + rest) == [field] + Split(rest)
  {
    var text := field + " " + rest;
    assert text[|field|] == ' ' && ' ' in text;
    if |field| == 0 {
      assert text[1..] == rest;
    } else {
      assert text[0] == field[0] && field[0] in field;
      assert text[1..] == field[1..] + " " + rest;
      SplitFirst(field[1..], rest);
      var later := Split(text[1..]);
      assert later[0] == field[1..] && later[1..] == Split(rest);
      assert [field[0]] + field[1..] == field;
    }
  }

  lemma {:induction false} SplitJoin(fields: seq<string>)
    requires |fields| > 0 && forall f <- fields :: ' ' !in f
    ensures Split(Join(fields)) == fields
  {
    if |fields| > 1 {
      SplitJoin(fields[1..]);
      SplitFirst(fields[0], Join(fields[1..]));
    }
  }

  lemma {:induction false} JoinSplit(text: string)
    ensures Join(Split(text)) == text
    decreases |text|
  {
    if ' ' in text {
      assert text == [text[0]] + text[1..];
      JoinSplit(text[1..]);
      var rest := Split(text[1..]);
      if text[0] == ' ' {
        assert ([""] + rest)[1..] == rest;
      } else {
        assert ' ' in text[1..];
        assert ([[text[0]] + rest[0]] + rest[1..])[1..] == rest[1..];
      }
    }
  }

  // ----- Valid markers -----

  predicate AlphaNumeric(c: char) {
    'a' <= c <= 'z' || 'A' <= c <= 'Z' || '0' <= c <= '9'
  }

  predicate ValidToken(s: string) {
    0 < |s| <= 128 && AlphaNumeric(s[0]) && forall i :: 1 <= i < |s| ==> AlphaNumeric(s[i]) || s[i] in "-_.:"
  }

  predicate Valid(m: Marker) {
    ValidToken(m.workflow) && (m.participant == "" || ValidToken(m.participant)) &&
      (m.operation == "" || ValidToken(m.operation))
  }

  // ----- Printing and parsing -----

  function Fields(m: Marker): (fields: seq<string>)
    ensures |fields| >= 2
  {
    ["omnigrex:v1", "workflow=" + m.workflow] +
    (if m.participant != "" then ["assignment=" + m.participant] else []) +
    (if m.operation != "" then ["operation=" + m.operation] else [])
  }

  /** What stands between `<!--` and `-->`. */
  function Comment(m: Marker): string {
    " " + Join(Fields(m)) + " "
  }

  function Rendered(m: Marker): string {
    "<!--" + Comment(m) + CLOSE
  }

  method RenderMarker(m: Marker) returns (rendered: Option<string>)
    ensures rendered == if Valid(m) then Some(Rendered(m)) else None
  {
    hide Join, Fields;
    if !Valid(m) {
      return None;
    }
    var text := "<!-- omnigrex:";
    text := text + "v1";
    text := text + " workflow=";
    assert text == HEAD;
    text := text + m.workflow;
    ghost var named := text;
    if m.participant != "" {
      text := text + " assignment=";
      text := text + m.participant;
    }
    assert text == named + Optional(" assignment=", m.participant);
    if m.operation != "" {
      text := text + " operation=";
      text := text + m.operation;
    }
    assert text == named + Optional(" assignment=", m.participant) + Optional(" operation=", m.operation);
    text := text + " -->";
    RenderedIs(m);
    return Some(text);
  }

  const HEAD := "<!-- omnigrex:v1 workflow="

  function Optional(name: string, value: string): string {
    if value != "" then name + value else ""
  }

  lemma RenderedIs(m: Marker)
    ensures Rendered(m) ==
            HEAD + m.workflow + Optional(" assignment=", m.participant) + Optional(" operation=", m.operation) + " -->"
  {
    hide Join, Fields, Optional;
    JoinedFields(m);
    var a, o := Optional(" assignment=", m.participant), Optional(" operation=", m.operation);
    assert HEAD == "<!--" + " " + "omnigrex:v1 workflow=" && " -->" == " " + CLOSE;
    Around("<!--", " ", "omnigrex:v1 workflow=", m.workflow, a, o, CLOSE);
  }

  lemma Around(open: string, space: string, head: string, w: string, a: string, o: string, close: string)
    ensures open + (space + (head + w + a + o) + space) + close == (open + space + head) + w + a + o + (space + close)
  {
  }

  lemma Prepend(space: string, name: string, value: string)
    ensures space + (name + value) == (space + name) + value
  {
  }

  lemma {:induction false} JoinSnoc(fields: seq<string>, field: string)
    requires |fields| > 0
    ensures Join(fields + [field]) == Join(fields) + " " + field
  {
    assert (fields + [field])[1..] == fields[1..] + [field];
    if |fields| == 1 {
      assert fields + [field] == [fields[0], field];
    } else {
      JoinSnoc(fields[1..], field);
      assert fields[0] + " " + (Join(fields[1..]) + " " + field) == (fields[0] + " " + Join(fields[1..])) + " " + field;
    }
  }

  lemma AddOptional(fields: seq<string>, name: string, value: string)
    requires |fields| > 0
    ensures Join(fields + if value != "" then [name + value] else []) == Join(fields) + Optional(" " + name, value)
  {
    hide Join;
    if value != "" {
      JoinSnoc(fields, name + value);
      Prepend(" ", name, value);
      assert Join(fields) + " " + (name + value) == Join(fields) + (" " + (name + value));
    } else {
      assert fields + [] == fields;
    }
  }

  lemma JoinedFields(m: Marker)
    ensures Join(Fields(m)) ==
            "omnigrex:v1 workflow=" + m.workflow + Optional(" assignment=", m.participant) +
              Optional(" operation=", m.operation)
  {
    hide Join, Optional;
    var base := ["omnigrex:v1", "workflow=" + m.workflow];
    var more := base + if m.participant != "" then ["assignment=" + m.participant] else [];
    JoinOne("omnigrex:v1");
    JoinSnoc(["omnigrex:v1"], "workflow=" + m.workflow);
    assert base == ["omnigrex:v1"] + ["workflow=" + m.workflow];
    assert "omnigrex:v1" + " " + "workflow=" == "omnigrex:v1 workflow=";
    Prepend("omnigrex:v1" + " ", "workflow=", m.workflow);
    AddOptional(base, "assignment=", m.participant);
    AddOptional(more, "operation=", m.operation);
    assert " " + "assignment=" == " assignment=" && " " + "operation=" == " operation=";
  }

  lemma JoinOne(field: string)
    ensures Join([field]) == field
  {
  }

  function Field(field: string, name: string): Option<string> {
    if name + "=" <= field then Some(field[|name| + 1..]) else None
  }

  function ParseFields(fields: seq<string>): Option<Marker> {
    if |fields| < 2 || |fields| > 4 || fields[0] != "omnigrex:v1" || Field(fields[1], "workflow").None? then None
    else
      var assignment := if 2 < |fields| then Field(fields[2], "assignment") else None;
      var index := if assignment.Some? then 3 else 2;
      var operation := if index < |fields| then Field(fields[index], "operation") else None;
      var last := if operation.Some? then index + 1 else index;
      var m := Marker(Field(fields[1], "workflow").value,
                      if assignment.Some? then assignment.value else "",
                      if operation.Some? then operation.value else "");
      if last == |fields| && Valid(m) then Some(m) else None
  }

  function ParseComment(comment: string): Option<Marker> {
    if |comment| < 2 || comment[0] != ' ' || comment[|comment| - 1] != ' ' then None
    else ParseFields(Split(comment[1..|comment| - 1]))
  }

  // ----- Inspecting a text -----

  /** What stands at the first prefix of a text: nothing, a comment that another one begins in,
      one that is never closed, or a closed one with its contents; and where to go on. */
  datatype Next = NoComment | Nested(at: nat) | Unclosed | Closed(comment: string, at: nat)

  function CommentAt(text: string, start: nat): (n: Next)
    requires start + 13 <= |text|
    ensures n.Nested? ==> 0 < n.at <= |text|
    ensures n.Closed? ==> 0 < n.at <= |text|
  {
    hide OccursAt;
    NoLineBreaks();
    var end := Index(text[start + 4..], CLOSE);
    var next := Index(text[start + |PREFIX|..], PREFIX);
    CloseWithin(text[start + 4..]);
    OccursWithin(text[start + |PREFIX|..], PREFIX);
    if next >= 0 && (end < 0 || start + |PREFIX| + next < start + 4 + end) then Nested(start + |PREFIX| + next)
    else if end < 0 then Unclosed
    else Closed(text[start + 4..start + 4 + end], start + 4 + end + 3)
  }

  function NextComment(text: string): (n: Next)
    ensures n.Nested? ==> 0 < n.at <= |text|
    ensures n.Closed? ==> 0 < n.at <= |text|
  {
    PrefixWithin(text);
    if Index(text, PREFIX) < 0 then NoComment else CommentAt(text, Index(text, PREFIX))
  }

  function Shifted(n: Next, k: nat): Next {
    match n
    case NoComment => NoComment
    case Nested(at) => Nested(k + at)
    case Unclosed => Unclosed
    case Closed(comment, at) => Closed(comment, k + at)
  }

  lemma CommentShifted(text: string, k: nat, start: nat)
    requires k + start + 13 <= |text|
    ensures CommentAt(text, k + start) == Shifted(CommentAt(text[k..], start), k)
  {
    hide OccursAt;
    NoLineBreaks();
    var later := text[k..];
    assert later[start + 4..] == text[k + start + 4..] && later[start + 13..] == text[k + start + 13..];
    CloseWithin(later[start + 4..]);
    var end := Index(later[start + 4..], CLOSE);
    assert end >= 0 ==> later[start + 4..start + 4 + end] == text[k + start + 4..k + start + 4 + end];
  }

  /** The markers of a text, comment by comment. */
  function Inspect(text: string): Inspection
    decreases |text|
  {
    hide NextComment, ParseComment;
    match NextComment(text)
    case NoComment => Inspection([], false)
    case Nested(at) => Inspection(Inspect(text[at..]).markers, true)
    case Unclosed => Inspection([], true)
    case Closed(comment, at) =>
      var rest, parsed := Inspect(text[at..]), ParseComment(comment);
      if parsed.Some? then Inspection([parsed.value] + rest.markers, rest.untrusted)
      else Inspection(rest.markers, true)
  }

  lemma PrefixWithin(text: string)
    ensures Index(text, PREFIX) >= 0 ==> Index(text, PREFIX) + 13 <= |text|
    ensures |PREFIX| == 13
  {
  }

  lemma CloseWithin(text: string)
    ensures Index(text, CLOSE) >= 0 ==> Index(text, CLOSE) + 3 <= |text|
  {
  }

  /** Finds the first comment of what follows an offset; positions are those in the whole text. */
  method FindComment(text: string, offset: nat) returns (found: Next)
    requires offset <= |text|
    ensures found == Shifted(NextComment(text[offset..]), offset)
  {
    hide OccursAt;
    PrefixWithin(text[offset..]);
    NoLineBreaks();
    var start := Index(text[offset..], PREFIX);
    if start < 0 {
      return NoComment;
    }
    CommentShifted(text, offset, start);
    start := start + offset;
    var end := Index(text[start + 4..], CLOSE);
    var next := Index(text[start + |PREFIX|..], PREFIX);
    CloseWithin(text[start + 4..]);
    if next >= 0 {
      next := next + start + |PREFIX|;
    }
    if next >= 0 && (end < 0 || next < start + 4 + end) {
      return Nested(next);
    }
    if end < 0 {
      return Unclosed;
    }
    end := end + start + 4;
    return Closed(text[start + 4..end], end + 3);
  }

  /** Walks over the comments of a text, from each offset to the next. */
  method InspectMarkers(text: string) returns (inspection: Inspection)
    ensures inspection == Inspect(text)
  {
    hide NextComment, ParseComment;
    var markers, untrusted := [], false;
    var offset := 0;
    assert text[0..] == text;
    while offset < |text|
      invariant 0 <= offset <= |text|
      invariant Inspect(text) ==
                Inspection(markers + Inspect(text[offset..]).markers, untrusted || Inspect(text[offset..]).untrusted)
      decreases |text| - offset
    {
      var found := FindComment(text, offset);
      match found {
        case NoComment =>
          return Inspection(markers, untrusted);
        case Nested(next) =>
          assert text[offset..][next - offset..] == text[next..];
          untrusted := true;
          offset := next;
        case Unclosed =>
          return Inspection(markers, true);
        case Closed(comment, behind) =>
          assert text[offset..][behind - offset..] == text[behind..];
          var parsed := ParseComment(comment);
          if parsed.Some? {
            markers := markers + [parsed.value];
          } else {
            untrusted := true;
          }
          offset := behind;
      }
    }
    assert text[offset..] == "";
    NothingInNothing();
    return Inspection(markers, untrusted);
  }

  lemma NothingInNothing()
    ensures NextComment("").NoComment?
  {
    PrefixWithin("");
  }

  lemma NoLineBreaks()
    ensures '\n' !in PREFIX && '\n' !in CLOSE && |PREFIX| == 13 && |CLOSE| == 3
  {
  }

  /** Behind a text without a prefix, the first comment is that of the text put after it. */
  lemma NextBehind(t: string, u: string)
    requires Index(t, PREFIX) < 0 && Seam(t, u)
    ensures NextComment(t + u) == Shifted(NextComment(u), |t|)
  {
    hide OccursAt, CommentAt;
    NoLineBreaks();
    IndexAcross(t, u, PREFIX);
    PrefixWithin(u);
    assert (t + u)[|t|..] == u;
    if Index(u, PREFIX) >= 0 {
      CommentShifted(t + u, |t|, Index(u, PREFIX));
    }
  }

  /** A comment closed within a text stays so whatever is put after it. */
  lemma ClosedStays(t: string, u: string)
    requires NextComment(t).Closed? && Seam(t, u)
    ensures NextComment(t + u) == NextComment(t)
  {
    hide OccursAt;
    NoLineBreaks();
    PrefixWithin(t);
    var text, start := t + u, Index(t, PREFIX);
    assert text[start + 4..] == t[start + 4..] + u && text[start + 13..] == t[start + 13..] + u;
    IndexAcross(t, u, PREFIX);
    IndexAcross(t[start + 4..], u, CLOSE);
    IndexAcross(t[start + 13..], u, PREFIX);
    CloseWithin(t[start + 4..]);
    var end := Index(t[start + 4..], CLOSE);
    assert text[start + 4..start + 4 + end] == t[start + 4..start + 4 + end];
  }

  lemma NoneIs(t: string)
    ensures NextComment(t).NoComment? <==> Index(t, PREFIX) < 0
  {
  }

  /** Texts put together at a line break are inspected one after the other, if the first is trusted. */
  lemma {:induction false} InspectAppend(t: string, u: string)
    requires !Inspect(t).untrusted && Seam(t, u)
    ensures Inspect(t + u) == Inspection(Inspect(t).markers + Inspect(u).markers, Inspect(u).untrusted)
    decreases |t|
  {
    hide NextComment, ParseComment;
    NoneIs(t);
    if NextComment(t).NoComment? {
      NextBehind(t, u);
      match NextComment(u)
      case NoComment =>
      case Nested(at) => assert (t + u)[|t| + at..] == u[at..];
      case Unclosed =>
      case Closed(comment, at) => assert (t + u)[|t| + at..] == u[at..];
    } else {
      ClosedStays(t, u);
      var at := NextComment(t).at;
      assert (t + u)[at..] == t[at..] + u;
      assert Seam(t[at..], u);
      InspectAppend(t[at..], u);
    }
  }

  // ----- Print and parse -----

  lemma TokenChars(s: string)
    requires ValidToken(s) || s == ""
    ensures forall c <- s :: AlphaNumeric(c) || c in "-_.:"
  {
    forall c | c in s ensures AlphaNumeric(c) || c in "-_.:" {
      var i :| 0 <= i < |s| && s[i] == c;
    }
  }

  lemma FieldChars(name: string, value: string)
    requires ValidToken(value) || value == ""
    requires forall c <- name :: c != ' ' && c != '<' && c != '>'
    ensures forall c <- name + value :: c != ' ' && c != '<' && c != '>'
  {
    TokenChars(value);
    assert forall c :: c in "-_.:" ==> c != ' ' && c != '<' && c != '>';
  }

  lemma {:induction false} JoinedChars(fields: seq<string>)
    requires |fields| > 0 && forall f <- fields, c <- f :: c != '<' && c != '>'
    ensures forall c <- Join(fields) :: c != '<' && c != '>'
  {
    if |fields| > 1 {
      JoinedChars(fields[1..]);
    }
  }

  lemma FieldsChars(m: Marker)
    requires Valid(m)
    ensures forall f <- Fields(m) :: ' ' !in f
    ensures forall f <- Fields(m), c <- f :: c != '<' && c != '>'
  {
    hide ValidToken;
    FieldChars("workflow=", m.workflow);
    FieldChars("assignment=", m.participant);
    FieldChars("operation=", m.operation);
  }

  lemma FieldOf(name: string, value: string)
    ensures Field(name + "=" + value, name) == Some(value)
  {
    assert (name + "=" + value)[|name| + 1..] == value;
  }

  /** Parsing what was printed gives back the marker. */
  lemma ParsePrinted(m: Marker)
    requires Valid(m)
    ensures ParseComment(Comment(m)) == Some(m)
  {
    hide Split, Valid, ParseFields, Fields;
    FieldsChars(m);
    SplitJoin(Fields(m));
    var comment := Comment(m);
    assert comment[1..|comment| - 1] == Join(Fields(m));
    FieldsParse(m);
  }

  lemma FieldsParse(m: Marker)
    requires Valid(m)
    ensures ParseFields(Fields(m)) == Some(m)
  {
    hide Field, Valid;
    FieldOf("workflow", m.workflow);
    FieldOf("assignment", m.participant);
    FieldOf("operation", m.operation);
    assert "workflow" + "=" == "workflow=" && "assignment" + "=" == "assignment=" && "operation" + "=" == "operation=";
    var operation := "operation=" + m.operation;
    NoAssignment(operation);
  }

  lemma NoAssignment(field: string)
    requires |field| > 0 && field[0] == 'o'
    ensures Field(field, "assignment").None?
  {
    assert "assignment="[0] == 'a' && "assignment" + "=" == "assignment=";
  }

  lemma {:induction false} ParsedIsValid(comment: string)
    ensures ParseComment(comment).Some? ==> Valid(ParseComment(comment).value)
  {
  }

  /** Every marker found is valid. */
  lemma {:induction false} InspectedAreValid(text: string)
    ensures forall m <- Inspect(text).markers :: Valid(m)
    decreases |text|
  {
    hide NextComment, ParseComment, Valid;
    match NextComment(text)
    case NoComment =>
    case Nested(at) => InspectedAreValid(text[at..]);
    case Unclosed =>
    case Closed(comment, at) =>
      InspectedAreValid(text[at..]);
      ParsedIsValid(comment);
  }

  /** A printed marker is a single closed comment. */
  lemma NextRendered(m: Marker)
    requires Valid(m)
    ensures NextComment(Rendered(m)) == Closed(Comment(m), |Rendered(m)|)
  {
    CommentChars(m);
    RenderedStart(m);
    var text, comment := Rendered(m), Comment(m);
    assert text[4..] == comment + CLOSE;
    hide Rendered, Comment, Valid;
    ClosedComment(text, comment);
  }

  lemma CommentChars(m: Marker)
    requires Valid(m)
    ensures forall c <- Comment(m) :: c != '<' && c != '>'
  {
    FieldsChars(m);
    JoinedChars(Fields(m));
    hide Fields, Join, Valid;
  }

  /** A text that is one comment, with no bracket inside, has this comment. */
  lemma ClosedComment(text: string, comment: string)
    requires |text| >= 13 && OccursAt(text, PREFIX, 0) && text[4..] == comment + CLOSE
    requires forall c <- comment :: c != '<' && c != '>'
    ensures NextComment(text) == Closed(comment, |text|)
  {
    NoLineBreaks();
    IndexIs(text, PREFIX, 0);
    FirstClose(comment);
    forall c | c in text[13..] ensures c != '<' {
      var k :| 0 <= k < |text[13..]| && text[13..][k] == c;
      assert text[4..][k + 9] == c;
      assert c in comment || c in CLOSE;
    }
    IndexNone(text[13..], PREFIX, '<');
    assert text[4..4 + |comment|] == comment;
    hide OccursAt, Index;
  }

  lemma FirstClose(comment: string)
    requires forall c <- comment :: c != '>'
    ensures Index(comment + CLOSE, CLOSE) == |comment|
  {
    hide Index, OccursAt;
    forall i: nat | i < |comment| ensures !OccursAt(comment + CLOSE, CLOSE, i) {
      CloseBefore(comment, i);
    }
    OccursBehind(comment, CLOSE);
    IndexIs(comment + CLOSE, CLOSE, |comment|);
  }

  lemma OccursBehind(text: string, p: string)
    ensures OccursAt(text + p, p, |text|)
  {
  }

  /** The end of a comment does not occur earlier: a `>` stands nowhere else. */
  lemma CloseBefore(comment: string, i: nat)
    requires i < |comment| && forall c <- comment :: c != '>'
    ensures !OccursAt(comment + CLOSE, CLOSE, i)
  {
    var text := comment + CLOSE;
    if i + 2 < |comment| {
      assert text[i + 2] in comment;
    } else if i + 3 <= |text| {
      assert text[i + 2] == '-';
    }
    assert CLOSE[2] == '>';
    if i + 3 <= |text| {
      assert text[i..i + 3][2] == text[i + 2];
    }
  }

  lemma RenderedStart(m: Marker)
    ensures |Rendered(m)| >= 13 && OccursAt(Rendered(m), PREFIX, 0)
  {
    RenderedIs(m);
    assert HEAD[..13] == PREFIX;
    assert Rendered(m)[..13] == HEAD[..13];
  }

  /** Inspecting a printed marker finds exactly that marker, and trusts the text. */
  lemma InspectRendered(m: Marker)
    requires Valid(m)
    ensures Inspect(Rendered(m)) == Inspection([m], false)
  {
    hide NextComment, ParseComment, Valid, Rendered, Comment;
    NextRendered(m);
    ParsePrinted(m);
    NothingInNothing();
    assert Rendered(m)[|Rendered(m)|..] == "";
  }

  // ----- Adding a marker -----

  /** The text with a valid marker in it: itself if it has it, or with the marker after an empty line. */
  function Ensure(text: string, m: Marker): Ensured {
    if !Valid(m) then InvalidMarker
    else if Inspect(text).untrusted then UntrustedText
    else if m in Inspect(text).markers then Text(text)
    else Text(text + Separator(text) + Rendered(m))
  }

  function Separator(text: string): string {
    if text == "" then ""
    else if |text| >= 2 && text[|text| - 2..] == "\n\n" then ""
    else if text[|text| - 1] == '\n' then "\n"
    else "\n\n"
  }

  method EnsureMarker(text: string, m: Marker) returns (ensured: Ensured)
    ensures ensured == Ensure(text, m)
  {
    hide Inspect, Valid, Rendered;
    var rendered := RenderMarker(m);
    if rendered.None? {
      return InvalidMarker;
    }
    var inspection := InspectMarkers(text);
    if inspection.untrusted {
      return UntrustedText;
    }
    for i := 0 to |inspection.markers|
      invariant m !in inspection.markers[..i]
    {
      assert inspection.markers[..i + 1] == inspection.markers[..i] + [inspection.markers[i]];
      if inspection.markers[i] == m {
        assert m in inspection.markers;
        return Text(text);
      }
    }
    assert inspection.markers[..|inspection.markers|] == inspection.markers;
    if text == "" {
      return Text(rendered.value);
    }
    var separator := "\n\n";
    if |text| >= 2 && text[|text| - 2..] == "\n\n" {
      separator := "";
    } else if text[|text| - 1] == '\n' {
      separator := "\n";
    }
    return Text(text + separator + rendered.value);
  }

  lemma SeparatorSeams(text: string, u: string)
    ensures Seam(text, Separator(text) + u)
    ensures Seam(Separator(text), u)
    ensures Index(Separator(text), PREFIX) < 0
  {
    IndexNone(Separator(text), PREFIX, '<');
    if text != "" && Separator(text) == "" {
      assert text[|text| - 2..][1] == '\n';
    }
  }

  /** A trusted text keeps its markers and gets the one it lacked, at its end; it stays trusted. */
  lemma EnsureAdds(text: string, m: Marker)
    requires Valid(m) && !Inspect(text).untrusted
    ensures var after := Ensure(text, m);
            && after.Text? && text <= after.text
            && Inspect(after.text) ==
                 Inspection(Inspect(text).markers + (if m in Inspect(text).markers then [] else [m]), false)
  {
    hide Inspect, Valid, Rendered;
    if m !in Inspect(text).markers {
      var separator, rendered := Separator(text), Rendered(m);
      InspectRendered(m);
      SeparatorSeams(text, rendered);
      assert Inspect(separator) == Inspection([], false) by {
        NoneIs(separator);
        NothingToInspect(separator);
      }
      InspectAppend(separator, rendered);
      InspectAppend(text, separator + rendered);
      assert text + separator + rendered == text + (separator + rendered);
    }
  }

  lemma NothingToInspect(text: string)
    requires NextComment(text).NoComment?
    ensures Inspect(text) == Inspection([], false)
  {
  }

  /** Adding a marker twice is adding it once. */
  lemma EnsureIsIdempotent(text: string, m: Marker)
    requires Ensure(text, m).Text?
    ensures Ensure(Ensure(text, m).text, m) == Ensure(text, m)
  {
    EnsureAdds(text, m);
    hide Inspect, Valid, Rendered;
  }

  // ----- Parse and print -----

  predicate EmptyField(comment: string)
    requires |comment| >= 2
  {
    "assignment=" in Split(comment[1..|comment| - 1]) || "operation=" in Split(comment[1..|comment| - 1])
  }

  lemma FieldIs(field: string, name: string)
    ensures Field(field, name).Some? ==> field == name + "=" + Field(field, name).value
  {
  }

  lemma Nonempty(name: string, value: string)
    ensures (value == "") == (name + value == name)
  {
  }

  lemma OtherField(name: string, value: string, other: string)
    requires |name| > 0 && |other| > 1 && (name[0] != other[0] || (|name| > 1 && name[1] != other[1]))
    ensures name + value != other
  {
  }

  /** The fields of a parsed comment: the optional ones it has, in order. */
  predicate Has(fields: seq<string>, m: Marker, assignment: bool, operation: bool) {
    && (!assignment ==> m.participant == "") && (!operation ==> m.operation == "")
    && fields == ["omnigrex:v1", "workflow=" + m.workflow] +
                 (if assignment then ["assignment=" + m.participant] else []) +
                 (if operation then ["operation=" + m.operation] else [])
  }

  lemma ParsedHas(fields: seq<string>) returns (assignment: bool, operation: bool)
    requires ParseFields(fields).Some?
    ensures Has(fields, ParseFields(fields).value, assignment, operation)
  {
    hide Valid, Field;
    assert "workflow" + "=" == "workflow=" && "assignment" + "=" == "assignment=" && "operation" + "=" == "operation=";
    FieldIs(fields[1], "workflow");
    assignment := 2 < |fields| && Field(fields[2], "assignment").Some?;
    var index := if assignment then 3 else 2;
    operation := index < |fields| && Field(fields[index], "operation").Some?;
    if assignment {
      FieldIs(fields[2], "assignment");
    }
    if operation {
      FieldIs(fields[index], "operation");
    }
  }

  lemma HasFields(fields: seq<string>, m: Marker, assignment: bool, operation: bool)
    requires Has(fields, m, assignment, operation)
    ensures Fields(m) == fields <==> !("assignment=" in fields || "operation=" in fields)
  {
    Nonempty("assignment=", m.participant);
    Nonempty("operation=", m.operation);
    assert "omnigrex:v1"[1] == 'm' && "assignment="[0] == 'a' && "operation="[1] == 'p' && "workflow="[0] == 'w' &&
      "operation="[0] == 'o';
    OtherField("workflow=", m.workflow, "assignment=");
    OtherField("workflow=", m.workflow, "operation=");
    OtherField("assignment=", m.participant, "operation=");
    OtherField("operation=", m.operation, "assignment=");
    var w, a, o := "workflow=" + m.workflow, "assignment=" + m.participant, "operation=" + m.operation;
    assert forall f :: f in fields <==>
        f == "omnigrex:v1" || f == w || (assignment && f == a) || (operation && f == o);
    assert |fields| == 2 + (if assignment then 1 else 0) + (if operation then 1 else 0);
    assert |Fields(m)| == 2 + (if m.participant != "" then 1 else 0) + (if m.operation != "" then 1 else 0);
  }

  /** A parsed comment is the printed form of its marker exactly when it has no empty optional field. */
  lemma ParsedPrintsBack(comment: string)
    requires ParseComment(comment).Some?
    ensures Comment(ParseComment(comment).value) == comment <==> !EmptyField(comment)
  {
    hide Join, Split, Valid, Has, Fields, ParseFields;
    var m := ParseComment(comment).value;
    var inner := comment[1..|comment| - 1];
    var assignment, operation := ParsedHas(Split(inner));
    HasFields(Split(inner), m, assignment, operation);
    JoinSplit(inner);
    ParsedIsValid(comment);
    FieldsChars(m);
    SplitJoin(Fields(m));
    if Comment(m) == comment {
      assert Comment(m)[1..|comment| - 1] == Join(Fields(m));
    }
  }

  /** Such comments exist: an empty `assignment=` parses, for every workflow, and is not printed again. */
  lemma EmptyFieldParses(w: string)
    requires ValidToken(w)
    ensures var comment := " " + Join(["omnigrex:v1", "workflow=" + w, "assignment="]) + " ";
            && ParseComment(comment) == Some(Marker(w, "", ""))
            && EmptyField(comment) && Comment(Marker(w, "", "")) != comment
  {
    hide Join, Split, ValidToken;
    var fields := ["omnigrex:v1", "workflow=" + w, "assignment="];
    var comment := " " + Join(fields) + " ";
    FieldChars("workflow=", w);
    SplitJoin(fields);
    assert comment[1..|comment| - 1] == Join(fields);
    assert "workflow" + "=" == "workflow=" && "assignment" + "=" + "" == "assignment=";
    FieldOf("workflow", w);
    FieldOf("assignment", "");
    ParsedPrintsBack(comment);
  }
}
