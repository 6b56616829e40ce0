/** UTF-8 as RFC 3629, section 4, defines it, and cutting a text only between its characters. */
module Utf8 {

  newtype byte = x: int | 0 <= x < 256

  type Bytes = seq<byte>

  /** The length of the character that starts with this byte, or 0 when none does. */
  function Width(lead: byte): (w: nat)
    ensures w <= 4
  {
    if lead < 0x80 then 1
    else if 0xC2 <= lead <= 0xDF then 2
    else if 0xE0 <= lead <= 0xEF then 3
    else if 0xF0 <= lead <= 0xF4 then 4
    else 0
  }

  /** The second byte excludes overlong forms, surrogates and what is beyond the last code point. */
  predicate Second(lead: byte, b: byte) {
    if lead == 0xE0 then 0xA0 <= b <= 0xBF
    else if lead == 0xED then 0x80 <= b <= 0x9F
    else if lead == 0xF0 then 0x90 <= b <= 0xBF
    else if lead == 0xF4 then 0x80 <= b <= 0x8F
    else 0x80 <= b <= 0xBF
  }

  predicate Character(text: Bytes) {
    && |text| > 0 && Width(text[0]) == |text|
    && (|text| > 1 ==> Second(text[0], text[1]))
    && forall i :: 2 <= i < |text| ==> 0x80 <= text[i] <= 0xBF
  }

  predicate Valid(text: Bytes) {
    |text| == 0 ||
    var w := Width(text[0]);
    0 < w <= |text| && Character(text[..w]) && Valid(text[w..])
  }

  lemma {:induction false} ValidAppend(a: Bytes, b: Bytes)
    requires Valid(a)
    ensures Valid(a + b) <==> Valid(b)
  {
    if |a| == 0 {
      assert a + b == b;
    } else {
      var w := Width(a[0]);
      assert (a + b)[..w] == a[..w] && (a + b)[w..] == a[w..] + b;
      ValidAppend(a[w..], b);
    }
  }

  /** A text can be cut at an offset: neither side loses or gains a character. */
  predicate Boundary(text: Bytes, offset: int) {
    0 <= offset <= |text| && Valid(text[..offset]) && Valid(text[offset..])
  }

  lemma BoundaryOfValid(text: Bytes, offset: nat)
    requires Valid(text) && offset <= |text|
    ensures Boundary(text, offset) <==> Valid(text[..offset])
  {
    assert text == text[..offset] + text[offset..];
    if Valid(text[..offset]) {
      ValidAppend(text[..offset], text[offset..]);
    }
  }

  /** Boundaries further on are those of the rest. */
  lemma BoundaryLater(text: Bytes, offset: nat, length: nat)
    requires Valid(text) && Boundary(text, offset) && offset + length <= |text|
    ensures Boundary(text, offset + length) <==> Valid(text[offset..][..length])
    ensures text[offset..][..length] == text[offset..offset + length]
  {
    hide Valid;
    var before, piece := text[..offset], text[offset..][..length];
    assert text[..offset + length] == before + piece;
    ValidAppend(before, piece);
    BoundaryOfValid(text, offset + length);
  }

  /** A valid text that is longer than four bytes has a valid nonempty beginning within them. */
  lemma FirstCharacter(text: Bytes) returns (w: nat)
    requires Valid(text) && |text| > 0
    ensures 0 < w <= 4 && w <= |text| && Valid(text[..w])
  {
    w := Width(text[0]);
    assert text[..w][..w] == text[..w] && text[..w][w..] == [];
  }

  // ----- Text that is not valid -----

  /** U+FFFD */
  const REPLACEMENT: Bytes := [0xEF, 0xBF, 0xBD]

  /** `strings.ToValidUTF8`: every run of bytes that belong to no character is replaced as a whole. */
  function Repaired(text: Bytes, inRun: bool): Bytes {
    if |text| == 0 then []
    else
      var w := Width(text[0]);
      if 0 < w <= |text| && Character(text[..w]) then text[..w] + Repaired(text[w..], false)
      else (if inRun then [] else REPLACEMENT) + Repaired(text[1..], true)
  }

  /** Repairing gives valid text, and leaves valid text alone. */
  lemma {:induction false} RepairedIsValid(text: Bytes, inRun: bool)
    ensures Valid(Repaired(text, inRun))
    ensures Valid(text) ==> Repaired(text, inRun) == text
  {
    if |text| > 0 {
      var w := Width(text[0]);
      if 0 < w <= |text| && Character(text[..w]) {
        RepairedIsValid(text[w..], false);
        OneCharacter(text[..w]);
        ValidAppend(text[..w], Repaired(text[w..], false));
        assert text == text[..w] + text[w..];
      } else {
        RepairedIsValid(text[1..], true);
        OneCharacter(REPLACEMENT);
        ValidAppend(REPLACEMENT, Repaired(text[1..], true));
        assert [] + Repaired(text[1..], true) == Repaired(text[1..], true);
      }
    }
  }

  lemma OneCharacter(text: Bytes)
    requires Character(text)
    ensures Valid(text)
  {
    assert text[..|text|] == text && text[|text|..] == [];
  }

  /** Only a valid text has boundaries. */
  lemma BoundaryIsOfValid(text: Bytes, offset: int)
    requires Boundary(text, offset)
    ensures Valid(text)
  {
    ValidAppend(text[..offset], text[offset..]);
    assert text == text[..offset] + text[offset..];
  }
}
