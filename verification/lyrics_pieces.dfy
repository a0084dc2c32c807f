/** Timed pieces of a line, cut to the part of the line that survives trimming. */
module LyricsPieces {
  import opened Wrappers
  import opened LyricsTypes
  import opened LyricsTrim
  import opened Sequences

  /** A run of text, and the cue it carries if it is timed. */
  datatype Piece = Piece(text: Bytes, cue: Option<Cue>)

  function Concat(pieces: seq<Piece>): Bytes {
    if pieces == [] then [] else Concat(pieces[..|pieces| - 1]) + pieces[|pieces| - 1].text
  }

  /** Where piece k starts. */
  function Cursor(pieces: seq<Piece>, k: nat): nat
    requires k <= |pieces|
  {
    if k == 0 then 0 else Cursor(pieces, k - 1) + |pieces[k - 1].text|
  }

  function Clamp(x: nat, left: nat, end: nat): (r: nat)
    requires left <= end
    ensures left <= r <= end
  {
    if x < left then left else if x > end then end else x
  }

  /** The cue of a piece that starts at cursor, when some of its bytes lie inside raw[left..end]. */
  function Own(p: Piece, cursor: nat, raw: Bytes, left: nat, end: nat): seq<Cue>
    requires left <= end <= |raw|
  {
    var byteStart := if cursor > left then cursor else left;
    var byteEnd := if cursor + |p.text| < end then cursor + |p.text| else end;
    if p.cue.Some? && byteStart < byteEnd
    then [p.cue.value.(value := raw[byteStart..byteEnd], byteStart := byteStart - left, byteEnd := byteEnd - left - 1)]
    else []
  }

  /** The bytes of the cue are those of the piece inside the range; a timed piece is left without a cue
      only when it has none there. */
  lemma OwnSpan(p: Piece, cursor: nat, raw: Bytes, left: nat, end: nat)
    requires left <= end <= |raw|
    ensures var own := Own(p, cursor, raw, left, end);
            var lo, hi := Clamp(cursor, left, end), Clamp(cursor + |p.text|, left, end);
            && lo <= hi && (own == [] <==> p.cue.None? || lo == hi)
            && (own != [] ==>
                  own == [p.cue.value.(value := raw[lo..hi], byteStart := lo - left, byteEnd := hi - left - 1)])
  {
  }

  /** The cues of the first k pieces. */
  function Clipped(pieces: seq<Piece>, k: nat, raw: Bytes, left: nat, end: nat): seq<Cue>
    requires k <= |pieces| && left <= end <= |raw|
  {
    if k == 0 then []
    else Clipped(pieces, k - 1, raw, left, end) + Own(pieces[k - 1], Cursor(pieces, k - 1), raw, left, end)
  }

  /** The cues of a line whose trimmed text is the line's value. */
  function LineCues(pieces: seq<Piece>, raw: Bytes): seq<Cue> {
    Clipped(pieces, |pieces|, raw, LeftBytes(raw), TrimmedEnd(raw))
  }

  lemma ExactCuesAppend(value: Bytes, cues: seq<Cue>, c: Cue)
    requires ExactCues(value, cues) && Exact(value, c) && EndBefore(cues, c.byteStart)
    ensures ExactCues(value, cues + [c])
  {
  }

  lemma OwnExact(p: Piece, cursor: nat, raw: Bytes, left: nat, end: nat)
    requires left <= end <= |raw| && Own(p, cursor, raw, left, end) != []
    ensures Exact(raw[left..end], Own(p, cursor, raw, left, end)[0])
  {
    var c := Own(p, cursor, raw, left, end)[0];
    SliceOfSlice(raw, left, end, c.byteStart, c.byteEnd + 1);
  }

  predicate EndBefore(cues: seq<Cue>, at: int) { forall i :: 0 <= i < |cues| ==> cues[i].byteEnd < at }

  lemma ExactStep(cues: seq<Cue>, p: Piece, cursor: nat, raw: Bytes, left: nat, end: nat)
    requires left <= end <= |raw| && ExactCues(raw[left..end], cues) && EndBefore(cues, Clamp(cursor, left, end) - left)
    ensures ExactCues(raw[left..end], cues + Own(p, cursor, raw, left, end))
    ensures EndBefore(cues + Own(p, cursor, raw, left, end), Clamp(cursor + |p.text|, left, end) - left)
  {
    OwnSpan(p, cursor, raw, left, end);
    var own := Own(p, cursor, raw, left, end);
    if own == [] {
      assert cues + own == cues;
    } else {
      OwnExact(p, cursor, raw, left, end);
      ExactCuesAppend(raw[left..end], cues, own[0]);
    }
  }

  lemma {:induction false} ClippedExact(pieces: seq<Piece>, k: nat, raw: Bytes, left: nat, end: nat)
    requires k <= |pieces| && left <= end <= |raw|
    ensures ExactCues(raw[left..end], Clipped(pieces, k, raw, left, end))
    ensures EndBefore(Clipped(pieces, k, raw, left, end), Clamp(Cursor(pieces, k), left, end) - left)
  {
    if k > 0 {
      ClippedExact(pieces, k - 1, raw, left, end);
      ExactStep(Clipped(pieces, k - 1, raw, left, end), pieces[k - 1], Cursor(pieces, k - 1), raw, left, end);
    }
  }

  /** Whatever the raw text, every cue names exactly its own bytes of the trimmed line, in order and
      without overlap. */
  lemma LineCuesExact(pieces: seq<Piece>, raw: Bytes)
    ensures ExactCues(TrimSpace(raw), LineCues(pieces, raw))
  {
    TrimSpaceIsRange(raw);
    ClippedExact(pieces, |pieces|, raw, LeftBytes(raw), TrimmedEnd(raw));
  }

  // ---------------------------------------------------------------------------------------------
  // Tiling

  /** The cues cover the bytes from lo to hi, each starting where the one before it ends. */
  predicate Tiled(cues: seq<Cue>, lo: int, hi: int) {
    if cues == [] then lo == hi
    else
      var c := cues[|cues| - 1];
      c.byteStart <= c.byteEnd == hi - 1 && Tiled(cues[..|cues| - 1], lo, c.byteStart)
  }

  lemma TiledStep(cues: seq<Cue>, p: Piece, cursor: nat, raw: Bytes, left: nat, end: nat)
    requires left <= end <= |raw| && p.cue.Some? && Tiled(cues, 0, Clamp(cursor, left, end) - left)
    ensures Tiled(cues + Own(p, cursor, raw, left, end), 0, Clamp(cursor + |p.text|, left, end) - left)
  {
    OwnSpan(p, cursor, raw, left, end);
    var own := Own(p, cursor, raw, left, end);
    if own == [] {
      assert cues + own == cues;
    } else {
      assert (cues + own)[..|cues|] == cues;
    }
  }

  predicate AllTimed(pieces: seq<Piece>) { forall i :: 0 <= i < |pieces| ==> pieces[i].cue.Some? }

  lemma {:induction false} ClippedTiles(pieces: seq<Piece>, k: nat, raw: Bytes, left: nat, end: nat)
    requires k <= |pieces| && left <= end <= |raw| && AllTimed(pieces)
    ensures Tiled(Clipped(pieces, k, raw, left, end), 0, Clamp(Cursor(pieces, k), left, end) - left)
  {
    if k > 0 {
      ClippedTiles(pieces, k - 1, raw, left, end);
      var before, p, cursor := Clipped(pieces, k - 1, raw, left, end), pieces[k - 1], Cursor(pieces, k - 1);
      TiledStep(before, p, cursor, raw, left, end);
      assert Clipped(pieces, k, raw, left, end) == before + Own(p, cursor, raw, left, end);
      assert Cursor(pieces, k) == cursor + |p.text|;
    }
  }

  lemma {:induction false} ConcatLength(pieces: seq<Piece>, k: nat)
    requires k <= |pieces|
    ensures |Concat(pieces[..k])| == Cursor(pieces, k)
  {
    if k > 0 {
      ConcatLength(pieces, k - 1);
      assert pieces[..k][..k - 1] == pieces[..k - 1];
    }
  }

  /** When every piece is timed, the cues of the pieces' own text leave no byte of the line out. */
  lemma LineCuesTile(pieces: seq<Piece>)
    requires AllTimed(pieces)
    ensures Tiled(LineCues(pieces, Concat(pieces)), 0, |TrimSpace(Concat(pieces))|)
  {
    var raw := Concat(pieces);
    TrimSpaceIsRange(raw);
    ConcatLength(pieces, |pieces|);
    assert pieces[..|pieces|] == pieces;
    ClippedTiles(pieces, |pieces|, raw, LeftBytes(raw), TrimmedEnd(raw));
  }

  // ---------------------------------------------------------------------------------------------
  // Whose text a cue holds

  lemma {:induction false} ConcatAt(pieces: seq<Piece>, k: nat)
    requires k < |pieces|
    ensures Cursor(pieces, k) + |pieces[k].text| <= |Concat(pieces)|
    ensures Concat(pieces)[Cursor(pieces, k)..Cursor(pieces, k) + |pieces[k].text|] == pieces[k].text
  {
    var init, last := pieces[..|pieces| - 1], pieces[|pieces| - 1];
    ConcatLength(pieces, |pieces| - 1);
    if k < |pieces| - 1 {
      ConcatAt(init, k);
      CursorOfPrefix(pieces, |pieces| - 1, k);
      var at, to := Cursor(pieces, k), Cursor(pieces, k) + |pieces[k].text|;
      assert Concat(pieces)[at..to] == Concat(init)[at..to];
    }
  }

  lemma {:induction false} CursorOfPrefix(pieces: seq<Piece>, n: nat, k: nat)
    requires k <= n <= |pieces|
    ensures Cursor(pieces[..n], k) == Cursor(pieces, k)
  {
    if k > 0 { CursorOfPrefix(pieces, n, k - 1); }
  }

  /** The cue of a piece at position at, cut to the range from left to end. */
  function CutCue(p: Piece, at: nat, left: nat, end: nat): Cue
    requires left <= end && p.cue.Some?
  {
    p.cue.value.(value := Cut(p.text, at, left, end),
                 byteStart := Clamp(at, left, end) - left, byteEnd := Clamp(at + |p.text|, left, end) - left - 1)
  }

  lemma {:induction false} CursorGrows(pieces: seq<Piece>, i: nat, j: nat)
    requires i <= j <= |pieces|
    ensures Cursor(pieces, i) <= Cursor(pieces, j)
  {
    if i < j { CursorGrows(pieces, i, j - 1); }
  }

  lemma OwnHoldsText(p: Piece, at: nat, raw: Bytes, left: nat, end: nat)
    requires left <= end <= |raw| && at + |p.text| <= |raw| && raw[at..at + |p.text|] == p.text && p.cue.Some?
    ensures Own(p, at, raw, left, end) == if Cut(p.text, at, left, end) == "" then [] else [CutCue(p, at, left, end)]
  {
    OwnSpan(p, at, raw, left, end);
    CutIsRange(p.text, at, raw, left, end);
  }

  /** Cutting the text to the range is taking the range's part of where the text lies. */
  lemma CutIsRange(text: Bytes, at: nat, raw: Bytes, left: nat, end: nat)
    requires left <= end <= |raw| && at + |text| <= |raw| && raw[at..at + |text|] == text
    ensures var lo, hi := Clamp(at, left, end), Clamp(at + |text|, left, end);
            && lo <= hi && (Cut(text, at, left, end) == "" <==> lo == hi)
            && (lo < hi ==> Cut(text, at, left, end) == raw[lo..hi])
  {
    var lo, hi, to := Clamp(at, left, end), Clamp(at + |text|, left, end), at + |text|;
    assert |Cut(text, at, left, end)| == Clamp(end, at, to) - Clamp(left, at, to);
    if lo < hi {
      assert lo == Clamp(left, at, to) && hi == Clamp(end, at, to);
      SliceOfSlice(raw, at, to, lo - at, hi - at);
    }
  }

  /** The cues of the first k pieces come first. */
  lemma {:induction false} ClippedPrefix(pieces: seq<Piece>, k: nat, n: nat, raw: Bytes, left: nat, end: nat)
    requires k <= n <= |pieces| && left <= end <= |raw|
    ensures Clipped(pieces, k, raw, left, end) <= Clipped(pieces, n, raw, left, end)
  {
    if k < n {
      ClippedPrefix(pieces, k, n - 1, raw, left, end);
      var before := Clipped(pieces, n - 1, raw, left, end);
      var own := Own(pieces[n - 1], Cursor(pieces, n - 1), raw, left, end);
      assert Clipped(pieces, n, raw, left, end) == before + own;
    }
  }

  /** Piece k has its cue among the line's, after those of the pieces before it, with its own times and its
      own text less what lies outside the range; it has none only when nothing is left. */
  ghost predicate HasOwnCue(pieces: seq<Piece>, k: nat, raw: Bytes, left: nat, end: nat)
    requires k < |pieces| && pieces[k].cue.Some? && left <= end <= |raw|
  {
    var at, i := Cursor(pieces, k), |Clipped(pieces, k, raw, left, end)|;
    var cues := Clipped(pieces, |pieces|, raw, left, end);
    if Cut(pieces[k].text, at, left, end) == "" then Own(pieces[k], at, raw, left, end) == []
    else i < |cues| && cues[i] == CutCue(pieces[k], at, left, end)
  }

  lemma TextInPlaceHasOwnCue(pieces: seq<Piece>, k: nat, raw: Bytes, left: nat, end: nat)
    requires k < |pieces| && pieces[k].cue.Some? && left <= end <= |raw|
    requires var at := Cursor(pieces, k);
             at + |pieces[k].text| <= |raw| && raw[at..at + |pieces[k].text|] == pieces[k].text
    ensures HasOwnCue(pieces, k, raw, left, end)
  {
    var at := Cursor(pieces, k);
    OwnHoldsText(pieces[k], at, raw, left, end);
    if Cut(pieces[k].text, at, left, end) != "" {
      ClippedPrefix(pieces, k + 1, |pieces|, raw, left, end);
      var before, cue := Clipped(pieces, k, raw, left, end), CutCue(pieces[k], at, left, end);
      assert Clipped(pieces, k + 1, raw, left, end) == before + [cue];
    }
  }

  /** When the raw text is the pieces' own, every timed piece has its own cue. */
  lemma CueHoldsItsPiece(pieces: seq<Piece>, k: nat, left: nat, end: nat)
    requires k < |pieces| && pieces[k].cue.Some? && left <= end <= |Concat(pieces)|
    ensures HasOwnCue(pieces, k, Concat(pieces), left, end)
  {
    ConcatAt(pieces, k);
    TextInPlaceHasOwnCue(pieces, k, Concat(pieces), left, end);
  }

  /** What the range from left to end keeps of a text that starts at position at. */
  function Cut(text: Bytes, at: nat, left: nat, end: nat): Bytes
    requires left <= end
  {
    text[Clamp(left, at, at + |text|) - at..Clamp(end, at, at + |text|) - at]
  }

  // ---------------------------------------------------------------------------------------------
  // Putting texts with cues together

  /** A text and its cues. */
  datatype Sung = Sung(value: Bytes, cues: seq<Cue>)

  predicate SameRanges(a: seq<Cue>, b: seq<Cue>) {
    |a| == |b| && forall i :: 0 <= i < |a| ==>
        a[i].byteStart == b[i].byteStart && a[i].byteEnd == b[i].byteEnd && a[i].value == b[i].value
  }

  lemma ExactBySameRanges(value: Bytes, a: seq<Cue>, b: seq<Cue>)
    requires SameRanges(a, b) && ExactCues(value, a)
    ensures ExactCues(value, b)
  {
  }

  function Offset(c: Cue, offset: int): Cue {
    c.(byteStart := c.byteStart + offset, byteEnd := c.byteEnd + offset)
  }

  function OffsetAll(cues: seq<Cue>, offset: int): seq<Cue> {
    seq(|cues|, i requires 0 <= i < |cues| => Offset(cues[i], offset))
  }

  predicate StartFrom(cues: seq<Cue>, at: int) { forall i :: 0 <= i < |cues| ==> cues[i].byteStart >= at }

  /** Cues of a text stay exact in a longer text once they are moved to where it holds the text. */
  lemma OffsetExact(value: Bytes, part: Bytes, cues: seq<Cue>, offset: nat)
    requires ExactCues(part, cues) && offset + |part| <= |value| && value[offset..offset + |part|] == part
    ensures ExactCues(value, OffsetAll(cues, offset)) && StartFrom(OffsetAll(cues, offset), offset)
  {
    var moved := OffsetAll(cues, offset);
    forall i | 0 <= i < |moved| ensures Exact(value, moved[i]) && moved[i].byteStart >= offset {
      assert Exact(part, cues[i]);
      SliceOfSlice(value, offset, offset + |part|, cues[i].byteStart, cues[i].byteEnd + 1);
    }
  }

}
