/** Trimming Unicode white space off UTF-8 bytes, from either end. */
module LyricsTrim {
  import opened LyricsTypes

  /** The w bytes from i on are the encoding of one white-space rune. */
  predicate SpaceAt(s: Bytes, i: nat, w: nat) {
    i + w <= |s| &&
    match w
    case 1 => '\t' <= s[i] <= '\r' || s[i] == ' '
    case 2 => s[i] == '\U{C2}' && (s[i + 1] == '\U{85}' || s[i + 1] == '\U{A0}')
    case 3 => Space3(s[i], s[i + 1], s[i + 2])
    case _ => false
  }

  predicate Space3(a: char, b: char, c: char) {
    || (a == '\U{E1}' && b == '\U{9A}' && c == '\U{80}')
    || (a == '\U{E2}' && b == '\U{80}' && ('\U{80}' <= c <= '\U{8A}' || c in {'\U{A8}', '\U{A9}', '\U{AF}'}))
    || (a == '\U{E2}' && b == '\U{81}' && c == '\U{9F}')
    || (a == '\U{E3}' && b == '\U{80}' && c == '\U{80}')
  }

  /** The width of the white-space rune that starts at i, 0 when none does. */
  function WidthAt(s: Bytes, i: nat): (w: nat)
    ensures w > 0 ==> SpaceAt(s, i, w)
  {
    if SpaceAt(s, i, 1) then 1 else if SpaceAt(s, i, 2) then 2 else if SpaceAt(s, i, 3) then 3 else 0
  }

  /** The width of the white-space rune that ends the bytes of s from lo to hi, 0 when none does. */
  function WidthBefore(s: Bytes, lo: nat, hi: nat): (w: nat)
    ensures w > 0 ==> lo <= hi - w && SpaceAt(s, hi - w, w)
  {
    if lo <= hi - 1 && SpaceAt(s, hi - 1, 1) then 1
    else if lo <= hi - 2 && SpaceAt(s, hi - 2, 2) then 2
    else if lo <= hi - 3 && SpaceAt(s, hi - 3, 3) then 3 else 0
  }

  /** Where the text from i on starts once trimmed on the left. */
  function SkipLeft(s: Bytes, i: nat): (l: nat)
    requires i <= |s|
    ensures i <= l <= |s|
    decreases |s| - i
  {
    var w := WidthAt(s, i);
    if w == 0 then i else SkipLeft(s, i + w)
  }

  /** Where the text from lo to hi ends once trimmed on the right. */
  function SkipRight(s: Bytes, lo: nat, hi: nat): (e: nat)
    requires lo <= hi <= |s|
    ensures lo <= e <= hi
    decreases hi - lo
  {
    var w := WidthBefore(s, lo, hi);
    if w == 0 then hi else SkipRight(s, lo, hi - w)
  }

  /** Left trimming, then right trimming of what is left. */
  function TrimSpace(s: Bytes): Bytes {
    var l := SkipLeft(s, 0);
    s[l..SkipRight(s, l, |s|)]
  }

  /** The bytes the left trim takes off the whole text. */
  function LeftBytes(s: Bytes): (k: nat)
    ensures k <= |s|
  {
    SkipLeft(s, 0)
  }

  /** The end the right trim finds in the whole text, moved to the left end when it lies before it. */
  function TrimmedEnd(s: Bytes): (e: nat)
    ensures LeftBytes(s) <= e <= |s|
  {
    var e := SkipRight(s, 0, |s|);
    if e < LeftBytes(s) then LeftBytes(s) else e
  }

  /** UTF-8 is self-synchronizing: no two white-space runes of different widths end at one place. */
  lemma WidthBeforeIs(s: Bytes, lo: nat, hi: nat, w: nat)
    requires w > 0 && lo <= hi - w && SpaceAt(s, hi - w, w)
    ensures WidthBefore(s, lo, hi) == w
  {
  }

  lemma {:induction false} SkipRightPastLeading(s: Bytes, a: nat, w: nat, hi: nat)
    requires SpaceAt(s, a, w) && a + w <= hi <= |s|
    ensures SkipRight(s, a, hi) == if SkipRight(s, a + w, hi) == a + w then a else SkipRight(s, a + w, hi)
    decreases hi
  {
    if hi == a + w {
      WidthBeforeIs(s, a, hi, w);
    } else {
      var v := WidthBefore(s, a + w, hi);
      if v > 0 { SkipRightPastLeading(s, a, w, hi - v); }
    }
  }

  lemma {:induction false} EndsAgree(s: Bytes, a: nat)
    requires a <= |s|
    ensures SkipRight(s, SkipLeft(s, a), |s|) ==
              if SkipRight(s, a, |s|) < SkipLeft(s, a) then SkipLeft(s, a) else SkipRight(s, a, |s|)
    decreases |s| - a
  {
    var w := WidthAt(s, a);
    if w > 0 {
      EndsAgree(s, a + w);
      SkipRightPastLeading(s, a, w, |s|);
    }
  }

  /** Trimming one end after the other keeps exactly the range between the two ends found
      independently in the whole text: what the parsers compute their offsets from. */
  lemma TrimSpaceIsRange(s: Bytes)
    ensures TrimSpace(s) == s[LeftBytes(s)..TrimmedEnd(s)]
  {
    EndsAgree(s, 0);
  }

  /** Nothing is left to trim at either end. */
  lemma TrimSpaceEnds(s: Bytes)
    ensures forall w: nat :: !SpaceAt(s, LeftBytes(s), w)
    ensures forall i: nat, w: nat :: LeftBytes(s) <= i && i + w == TrimmedEnd(s) ==> !SpaceAt(s, i, w)
  {
    SkipLeftStops(s, 0);
    SkipRightStops(s, LeftBytes(s), |s|);
    EndsAgree(s, 0);
  }

  /** Nothing but white-space runes, one after the other. */
  ghost predicate AllSpace(s: Bytes, from: nat, to: nat)
    decreases to - from
  {
    from == to || exists w: nat :: 0 < w <= to - from && SpaceAt(s, from, w) && AllSpace(s, from + w, to)
  }

  /** The trim takes white space only: what it leaves out at either end is white-space runes. */
  lemma TrimTakesSpace(s: Bytes)
    ensures AllSpace(s, 0, LeftBytes(s)) && AllSpace(s, TrimmedEnd(s), |s|)
  {
    SkipLeftTakesSpace(s, 0);
    EndsAgree(s, 0);
    SkipRightTakesSpace(s, LeftBytes(s), |s|);
  }

  lemma {:induction false} SkipLeftTakesSpace(s: Bytes, i: nat)
    requires i <= |s|
    ensures AllSpace(s, i, SkipLeft(s, i))
    decreases |s| - i
  {
    var w := WidthAt(s, i);
    if w > 0 { SkipLeftTakesSpace(s, i + w); }
  }

  lemma {:induction false} SkipRightTakesSpace(s: Bytes, lo: nat, hi: nat)
    requires lo <= hi <= |s|
    ensures AllSpace(s, SkipRight(s, lo, hi), hi)
    decreases hi - lo
  {
    var w := WidthBefore(s, lo, hi);
    if w > 0 {
      SkipRightTakesSpace(s, lo, hi - w);
      AllSpaceJoin(s, SkipRight(s, lo, hi - w), hi - w, hi);
    }
  }

  lemma {:induction false} AllSpaceJoin(s: Bytes, from: nat, mid: nat, to: nat)
    requires from <= mid < to && AllSpace(s, from, mid) && SpaceAt(s, mid, to - mid)
    ensures AllSpace(s, from, to)
    decreases mid - from
  {
    if from == mid {
      assert AllSpace(s, from + (to - mid), to);
    } else {
      var w: nat :| 0 < w <= mid - from && SpaceAt(s, from, w) && AllSpace(s, from + w, mid);
      AllSpaceJoin(s, from + w, mid, to);
    }
  }

  /** The runes that unicode.IsSpace accepts. */
  ghost predicate IsSpaceRune(rune: nat) {
    || 0x09 <= rune <= 0x0D || rune == 0x20 || rune == 0x85 || rune == 0xA0 || rune == 0x1680
    || 0x2000 <= rune <= 0x200A || rune == 0x2028 || rune == 0x2029 || rune == 0x202F || rune == 0x205F
    || rune == 0x3000
  }

  /** UTF-8, of the runes up to U+FFFF. */
  ghost function Utf8(rune: nat): Bytes
    requires rune < 0x10000
  {
    if rune < 0x80 then [rune as char]
    else if rune < 0x800 then [(0xC0 + rune / 64) as char, (0x80 + rune % 64) as char]
    else [(0xE0 + rune / 4096) as char, (0x80 + rune / 64 % 64) as char, (0x80 + rune % 64) as char]
  }

  /** The white-space bytes are exactly the encodings of the white-space runes. */
  lemma SpaceIffRune(s: Bytes, i: nat, w: nat)
    requires i + w <= |s|
    ensures SpaceAt(s, i, w) <==> exists rune: nat :: rune < 0x10000 && IsSpaceRune(rune) && s[i..i + w] == Utf8(rune)
  {
    if SpaceAt(s, i, w) { var rune := RuneOf(s, i, w); }
    forall rune: nat | rune < 0x10000 && IsSpaceRune(rune) && s[i..i + w] == Utf8(rune) ensures SpaceAt(s, i, w) {
      RuneIsSpace(rune);
      SpaceInside(s, i, w);
    }
  }

  lemma RuneIsSpace(rune: nat)
    requires rune < 0x10000 && IsSpaceRune(rune)
    ensures SpaceAt(Utf8(rune), 0, |Utf8(rune)|)
  {
  }

  lemma SpaceInside(s: Bytes, i: nat, w: nat)
    requires i + w <= |s| && SpaceAt(s[i..i + w], 0, w)
    ensures SpaceAt(s, i, w)
  {
  }

  lemma RuneOf(s: Bytes, i: nat, w: nat) returns (rune: nat)
    requires SpaceAt(s, i, w)
    ensures rune < 0x10000 && IsSpaceRune(rune) && s[i..i + w] == Utf8(rune)
  {
    rune := if w == 1 then s[i] as nat else if w == 2 then s[i + 1] as nat
            else (s[i] as nat - 0xE0) * 4096 + (s[i + 1] as nat - 0x80) * 64 + (s[i + 2] as nat - 0x80);
    assert IsSpaceRune(rune) && |Utf8(rune)| == w;
  }

  lemma {:induction false} SkipLeftStops(s: Bytes, i: nat)
    requires i <= |s|
    ensures WidthAt(s, SkipLeft(s, i)) == 0
    decreases |s| - i
  {
    if WidthAt(s, i) > 0 { SkipLeftStops(s, i + WidthAt(s, i)); }
  }

  lemma {:induction false} SkipRightStops(s: Bytes, lo: nat, hi: nat)
    requires lo <= hi <= |s|
    ensures WidthBefore(s, lo, SkipRight(s, lo, hi)) == 0
    decreases hi - lo
  {
    if WidthBefore(s, lo, hi) > 0 { SkipRightStops(s, lo, hi - WidthBefore(s, lo, hi)); }
  }
}
