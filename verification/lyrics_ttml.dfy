/**
 * TTML lines: white space collapses across the pieces of a logical line, the line is trimmed, and the
 * logical lines are joined by newlines, with every cue's byte range following.  The sanitizer is any
 * function on texts.
 */
module LyricsTtml {
  import opened Wrappers
  import opened LyricsTypes
  import opened LyricsTrim
  import opened LyricsPieces

  type Sanitizer = Bytes -> Bytes

  /** What the XML of a paragraph holds: a <br/>, or text with the cue of a timed span. */
  datatype Node = Break | Text(raw: Bytes, cue: Option<Cue>)

  // ---------------------------------------------------------------------------------------------
  // White space

  predicate XmlSpace(b: char) { b == ' ' || b == '\t' || b == '\n' || b == '\r' }

  /** Every run of white space becomes one space, or none when a space came before it. */
  function Collapse(s: Bytes, spaceBefore: bool): Bytes {
    if s == "" then ""
    else if XmlSpace(s[0]) then (if spaceBefore then "" else " ") + Collapse(s[1..], true)
    else [s[0]] + Collapse(s[1..], false)
  }

  /** Whether white space ends the text, or came before it when it is empty. */
  predicate SpaceAfter(s: Bytes, spaceBefore: bool) {
    if s == "" then spaceBefore else XmlSpace(s[|s| - 1])
  }

  /** Collapsing piece by piece, with the flag carried over, is collapsing the whole. */
  lemma {:induction false} CollapseConcat(a: Bytes, b: Bytes, spaceBefore: bool)
    ensures Collapse(a + b, spaceBefore) == Collapse(a, spaceBefore) + Collapse(b, SpaceAfter(a, spaceBefore))
    decreases |a|
  {
    if a == "" {
      assert a + b == b;
    } else {
      assert (a + b)[0] == a[0] && (a + b)[1..] == a[1..] + b;
      CollapseConcat(a[1..], b, XmlSpace(a[0]));
    }
  }

  /** The leading space a piece loses is the one the carried flag would not have emitted. */
  lemma CollapseAfterSpace(s: Bytes)
    ensures Collapse(s, true) == TrimPrefixSpace(Collapse(s, false))
  {
  }

  function TrimPrefixSpace(s: Bytes): Bytes { if s != "" && s[0] == ' ' then s[1..] else s }

  predicate EndsWithSpace(s: Bytes) { s != "" && s[|s| - 1] == ' ' }

  /** What was emitted shows how the text ended; nothing emitted leaves the flag as it was. */
  lemma {:induction false} FlagAfter(s: Bytes, spaceBefore: bool)
    ensures SpaceAfter(s, spaceBefore) ==
              if Collapse(s, spaceBefore) == "" then spaceBefore else EndsWithSpace(Collapse(s, spaceBefore))
    decreases |s|
  {
    if s != "" { FlagAfter(s[1..], XmlSpace(s[0])); }
  }

  /** Collapsed text is left alone. */
  lemma {:induction false} CollapseIdempotent(s: Bytes, spaceBefore: bool, again: bool)
    requires again ==> spaceBefore
    ensures Collapse(Collapse(s, spaceBefore), again) == Collapse(s, spaceBefore)
    decreases |s|
  {
    if s != "" {
      var rest := Collapse(s[1..], XmlSpace(s[0]));
      CollapseIdempotent(s[1..], XmlSpace(s[0]), if XmlSpace(s[0]) && spaceBefore then again else XmlSpace(s[0]));
      if !XmlSpace(s[0]) {
        assert ([s[0]] + rest)[1..] == rest;
      } else if !spaceBefore {
        assert (" " + rest)[1..] == rest;
      } else {
        assert "" + rest == rest;
      }
    }
  }

  method CollapseTTMLWhitespace(raw: Bytes) returns (out: Bytes)
    ensures out == Collapse(raw, false)
  {
    out := "";
    var prevSpace := false;
    for i := 0 to |raw|
      invariant out == Collapse(raw[..i], false) && prevSpace == SpaceAfter(raw[..i], false)
    {
      assert raw[..i + 1] == raw[..i] + [raw[i]];
      CollapseOneMore(raw[..i], raw[i], false);
      if XmlSpace(raw[i]) {
        if !prevSpace {
          out := out + " ";
          prevSpace := true;
        }
        continue;
      }
      out := out + [raw[i]];
      prevSpace := false;
    }
    assert raw[..|raw|] == raw;
  }

  lemma CollapseOneMore(s: Bytes, b: char, spaceBefore: bool)
    ensures Collapse(s + [b], spaceBefore) ==
            Collapse(s, spaceBefore) + (if !XmlSpace(b) then [b] else if SpaceAfter(s, spaceBefore) then "" else " ")
  {
    CollapseConcat(s, [b], spaceBefore);
    assert [b][1..] == "";
  }

  function Normal(sanitize: Sanitizer, raw: Bytes): Bytes { Collapse(sanitize(raw), false) }

  // ---------------------------------------------------------------------------------------------
  // Logical lines

  /** The texts between breaks, a last one included. */
  function LogicalLines(nodes: seq<Node>): (lines: seq<seq<Node>>)
    ensures lines != [] && forall k, i :: 0 <= k < |lines| && 0 <= i < |lines[k]| ==> lines[k][i].Text?
  {
    if nodes == [] then [[]]
    else
      var lines, node := LogicalLines(nodes[..|nodes| - 1]), nodes[|nodes| - 1];
      if node.Break? then lines + [[]] else lines[..|lines| - 1] + [lines[|lines| - 1] + [node]]
  }

  predicate AllText(line: seq<Node>) { forall i :: 0 <= i < |line| ==> line[i].Text? }

  /** The text of a logical line before white space collapses. */
  function LineText(sanitize: Sanitizer, line: seq<Node>): Bytes
    requires AllText(line)
  {
    if line == [] then "" else LineText(sanitize, line[..|line| - 1]) + sanitize(line[|line| - 1].raw)
  }

  /** The pieces of a logical line: each keeps what collapsing the whole line emits for it, and a piece
      that emits nothing is left out. */
  function Kept(sanitize: Sanitizer, line: seq<Node>): seq<Piece>
    requires AllText(line)
  {
    if line == [] then []
    else
      var init, node := line[..|line| - 1], line[|line| - 1];
      var text := Collapse(sanitize(node.raw), SpaceAfter(LineText(sanitize, init), true));
      if text == "" then Kept(sanitize, init) else Kept(sanitize, init) + [Piece(text, node.cue)]
  }

  lemma ConcatAppend(pieces: seq<Piece>, p: Piece)
    ensures Concat(pieces + [p]) == Concat(pieces) + p.text
  {
  }

  /** However a logical line's text is split into pieces, what they keep is the collapse of the whole
      text with its leading space dropped. */
  lemma {:induction false} KeptIsCollapse(sanitize: Sanitizer, line: seq<Node>)
    requires AllText(line)
    ensures Concat(Kept(sanitize, line)) == Collapse(LineText(sanitize, line), true)
    decreases |line|
  {
    if line != [] {
      var init, node := line[..|line| - 1], line[|line| - 1];
      KeptIsCollapse(sanitize, init);
      var flag := SpaceAfter(LineText(sanitize, init), true);
      CollapseConcat(LineText(sanitize, init), sanitize(node.raw), true);
      ConcatAppend(Kept(sanitize, init), Piece(Collapse(sanitize(node.raw), flag), node.cue));
    }
  }

  /** The step of the splitting loop: one piece's text and the flag after it. */
  method KeepPiece(sanitize: Sanitizer, raw: Bytes, prevEndedWithSpace: bool)
    returns (text: Bytes, endedWithSpace: bool)
    ensures text == Collapse(sanitize(raw), prevEndedWithSpace)
    ensures endedWithSpace == SpaceAfter(sanitize(raw), prevEndedWithSpace)
  {
    FlagAfter(sanitize(raw), prevEndedWithSpace);
    CollapseAfterSpace(sanitize(raw));
    text := CollapseTTMLWhitespace(sanitize(raw));
    if prevEndedWithSpace { text := TrimPrefixSpace(text); }
    endedWithSpace := if text == "" then prevEndedWithSpace else EndsWithSpace(text);
  }

  /** The pieces of every logical line so far, and the flag the last one leaves. */
  predicate SplitAs(sanitize: Sanitizer, lines: seq<seq<Piece>>, logical: seq<seq<Node>>, flag: bool) {
    && |lines| == |logical| > 0
    && (forall k :: 0 <= k < |lines| ==> AllText(logical[k]) && lines[k] == Kept(sanitize, logical[k]))
    && flag == SpaceAfter(LineText(sanitize, logical[|logical| - 1]), true)
  }

  function WithPiece(lines: seq<seq<Piece>>, text: Bytes, cue: Option<Cue>): seq<seq<Piece>>
    requires lines != []
  {
    if text == "" then lines else lines[|lines| - 1 := lines[|lines| - 1] + [Piece(text, cue)]]
  }

  lemma SplitText(sanitize: Sanitizer, lines: seq<seq<Piece>>, logical: seq<seq<Node>>, flag: bool, node: Node)
    requires SplitAs(sanitize, lines, logical, flag) && node.Text?
    ensures SplitAs(sanitize, WithPiece(lines, Collapse(sanitize(node.raw), flag), node.cue),
                    logical[..|logical| - 1] + [logical[|logical| - 1] + [node]], SpaceAfter(sanitize(node.raw), flag))
  {
    var init := logical[|logical| - 1];
    assert (init + [node])[..|init|] == init;
  }

  lemma SplitBreak(sanitize: Sanitizer, lines: seq<seq<Piece>>, logical: seq<seq<Node>>, flag: bool)
    requires SplitAs(sanitize, lines, logical, flag)
    ensures SplitAs(sanitize, lines + [[]], logical + [[]], true)
  {
  }

  lemma LogicalLinesStep(nodes: seq<Node>, i: nat)
    requires i < |nodes|
    ensures var lines := LogicalLines(nodes[..i]);
            LogicalLines(nodes[..i + 1]) ==
            if nodes[i].Break? then lines + [[]] else lines[..|lines| - 1] + [lines[|lines| - 1] + [nodes[i]]]
  {
    assert nodes[..i + 1][..i] == nodes[..i];
  }

  method SplitTTMLPiecesByBreak(sanitize: Sanitizer, nodes: seq<Node>) returns (lines: seq<seq<Piece>>)
    ensures |lines| == |LogicalLines(nodes)|
    ensures forall k :: 0 <= k < |lines| ==>
              AllText(LogicalLines(nodes)[k]) && lines[k] == Kept(sanitize, LogicalLines(nodes)[k])
  {
    lines := [[]];
    var prevEndedWithSpace := true;
    for i := 0 to |nodes|
      invariant SplitAs(sanitize, lines, LogicalLines(nodes[..i]), prevEndedWithSpace)
    {
      ghost var logical := LogicalLines(nodes[..i]);
      LogicalLinesStep(nodes, i);
      if nodes[i].Break? {
        SplitBreak(sanitize, lines, logical, prevEndedWithSpace);
        lines := lines + [[]];
        prevEndedWithSpace := true;
      } else {
        SplitText(sanitize, lines, logical, prevEndedWithSpace, nodes[i]);
        var text;
        text, prevEndedWithSpace := KeepPiece(sanitize, nodes[i].raw, prevEndedWithSpace);
        lines := WithPiece(lines, text, nodes[i].cue);
      }
    }
    assert nodes[..|nodes|] == nodes;
  }

  // ---------------------------------------------------------------------------------------------
  // Trimming a logical line

  /** The text of a line whose pieces are normalized once more. */
  function Renormalized(sanitize: Sanitizer, line: seq<Piece>): Bytes {
    if line == [] then "" else Renormalized(sanitize, line[..|line| - 1]) + Normal(sanitize, line[|line| - 1].text)
  }

  /** Normalizing once more changes no piece. */
  predicate Stable(sanitize: Sanitizer, line: seq<Piece>) {
    forall i :: 0 <= i < |line| ==> Normal(sanitize, line[i].text) == line[i].text
  }

  lemma {:induction false} StableIsConcat(sanitize: Sanitizer, line: seq<Piece>)
    requires Stable(sanitize, line)
    ensures Renormalized(sanitize, line) == Concat(line)
    decreases |line|
  {
    if line != [] { StableIsConcat(sanitize, line[..|line| - 1]); }
  }

  lemma {:induction false} KeptStable(sanitize: Sanitizer, line: seq<Node>)
    requires AllText(line)
    requires forall i :: 0 <= i < |Kept(sanitize, line)| ==>
               sanitize(Kept(sanitize, line)[i].text) == Kept(sanitize, line)[i].text
    ensures Stable(sanitize, Kept(sanitize, line))
    decreases |line|
  {
    if line != [] {
      var init, node := line[..|line| - 1], line[|line| - 1];
      var kept := Kept(sanitize, init);
      assert kept <= Kept(sanitize, line);
      forall i | 0 <= i < |kept| ensures sanitize(kept[i].text) == kept[i].text {
        assert Kept(sanitize, line)[i] == kept[i];
      }
      KeptStable(sanitize, init);
      CollapseIdempotent(sanitize(node.raw), SpaceAfter(LineText(sanitize, init), true), false);
    }
  }

  /** A logical line is the collapse of its text, trimmed, when the sanitizer leaves the pieces alone. */
  lemma LineIsCollapsedText(sanitize: Sanitizer, line: seq<Node>)
    requires AllText(line) && Stable(sanitize, Kept(sanitize, line))
    ensures Renormalized(sanitize, Kept(sanitize, line)) == Collapse(LineText(sanitize, line), true)
  {
    StableIsConcat(sanitize, Kept(sanitize, line));
    KeptIsCollapse(sanitize, line);
  }

  // ---------------------------------------------------------------------------------------------
  // Which cues hold their own text

  /** Where piece k's text starts in the line normalized once more. */
  function Start(sanitize: Sanitizer, line: seq<Piece>, k: nat): nat
    requires k <= |line|
  {
    |Renormalized(sanitize, line[..k])|
  }

  /** Normalizing once more keeps the length of what comes before piece k, and piece k itself. */
  predicate Placed(sanitize: Sanitizer, line: seq<Piece>, k: nat)
    requires k < |line|
  {
    Start(sanitize, line, k) == Cursor(line, k) && Normal(sanitize, line[k].text) == line[k].text
  }

  function NormalPieces(sanitize: Sanitizer, line: seq<Piece>): seq<Piece> {
    seq(|line|, i requires 0 <= i < |line| => line[i].(text := Normal(sanitize, line[i].text)))
  }

  lemma {:induction false} RenormalizedIsConcat(sanitize: Sanitizer, line: seq<Piece>)
    ensures Renormalized(sanitize, line) == Concat(NormalPieces(sanitize, line))
    decreases |line|
  {
    if line != [] {
      var n := |line| - 1;
      RenormalizedIsConcat(sanitize, line[..n]);
      assert NormalPieces(sanitize, line)[..n] == NormalPieces(sanitize, line[..n]);
    }
  }

  lemma StartIsCursor(sanitize: Sanitizer, line: seq<Piece>, k: nat)
    requires k <= |line|
    ensures Start(sanitize, line, k) == Cursor(NormalPieces(sanitize, line), k)
  {
    RenormalizedIsConcat(sanitize, line[..k]);
    assert NormalPieces(sanitize, line[..k]) == NormalPieces(sanitize, line)[..k];
    ConcatLength(NormalPieces(sanitize, line), k);
  }

  /** The text of piece k in the line, normalized once more. */
  lemma TextAtStart(sanitize: Sanitizer, line: seq<Piece>, k: nat)
    requires k < |line|
    ensures Start(sanitize, line, k + 1) == Start(sanitize, line, k) + |Normal(sanitize, line[k].text)|
    ensures Start(sanitize, line, k + 1) <= |Renormalized(sanitize, line)|
    ensures Renormalized(sanitize, line)[Start(sanitize, line, k)..Start(sanitize, line, k + 1)] ==
              Normal(sanitize, line[k].text)
  {
    RenormalizedIsConcat(sanitize, line);
    StartIsCursor(sanitize, line, k);
    StartIsCursor(sanitize, line, k + 1);
    ConcatAt(NormalPieces(sanitize, line), k);
  }

  /** The bytes a cue is cut from are those of its own piece in the line, and they are its text. */
  predicate OverItsOwnText(sanitize: Sanitizer, line: seq<Piece>, k: nat)
    requires k < |line|
  {
    var from, to := Cursor(line, k), Cursor(line, k + 1);
    && from == Start(sanitize, line, k) && to == Start(sanitize, line, k + 1) <= |Renormalized(sanitize, line)|
    && Renormalized(sanitize, line)[from..to] == line[k].text
  }

  lemma OverItsOwnTextIff(sanitize: Sanitizer, line: seq<Piece>, k: nat)
    requires k < |line|
    ensures OverItsOwnText(sanitize, line, k) <==> Placed(sanitize, line, k)
  {
    TextAtStart(sanitize, line, k);
  }

  /** A timed piece in its place has its cue among the line's, with its own times and its own text less
      what the trim took, and none only when the trim took all of it. */
  lemma PlacedCueHoldsItsText(sanitize: Sanitizer, line: seq<Piece>, k: nat)
    requires k < |line| && line[k].cue.Some? && Placed(sanitize, line, k)
    ensures var raw := Renormalized(sanitize, line);
            HasOwnCue(line, k, raw, LeftBytes(raw), TrimmedEnd(raw))
  {
    var raw := Renormalized(sanitize, line);
    OverItsOwnTextIff(sanitize, line, k);
    TextInPlaceHasOwnCue(line, k, raw, LeftBytes(raw), TrimmedEnd(raw));
  }

  /** With every piece stable every timed piece is in its place. */
  lemma StableIsPlaced(sanitize: Sanitizer, line: seq<Piece>, k: nat)
    requires Stable(sanitize, line) && k < |line|
    ensures Placed(sanitize, line, k)
  {
    StableIsConcat(sanitize, line[..k]);
    ConcatLength(line, k);
  }

  /** A sanitizer that leaves the kept pieces of a logical line alone: the line is the collapse of its
      text, and every timed piece has its own cue in it. */
  lemma SanitizedOnceHoldsCues(sanitize: Sanitizer, line: seq<Node>)
    requires AllText(line)
    requires forall i :: 0 <= i < |Kept(sanitize, line)| ==>
               sanitize(Kept(sanitize, line)[i].text) == Kept(sanitize, line)[i].text
    ensures var kept, raw := Kept(sanitize, line), Collapse(LineText(sanitize, line), true);
            && Renormalized(sanitize, kept) == raw
            && forall k :: 0 <= k < |kept| && kept[k].cue.Some? ==>
                 HasOwnCue(kept, k, raw, LeftBytes(raw), TrimmedEnd(raw))
  {
    var kept := Kept(sanitize, line);
    KeptStable(sanitize, line);
    LineIsCollapsedText(sanitize, line);
    var raw := Renormalized(sanitize, kept);
    forall k | 0 <= k < |kept| && kept[k].cue.Some? ensures HasOwnCue(kept, k, raw, LeftBytes(raw), TrimmedEnd(raw)) {
      StableIsPlaced(sanitize, kept, k);
      PlacedCueHoldsItsText(sanitize, kept, k);
    }
  }

  /** What comes after a piece does not move it: an escaped ampersand after a timed word leaves the
      word's cue alone, although the line is not stable. */
  lemma LaterEscapeIsHarmless(cue: Cue)
    ensures var line := [Piece("a", Some(cue)), Piece("&amp;", None)];
            !Stable(Unescape, line) && Renormalized(Unescape, line) == "a&" && Placed(Unescape, line, 0)
  {
    var line := [Piece("a", Some(cue)), Piece("&amp;", None)];
    CollapseNoSpace("&", false);
    CollapseNoSpace("a", false);
    RenormalizedTwo(Unescape, line);
    assert Normal(Unescape, line[1].text) == "&";
  }

  /** One level of unescaping: "&amp;amp;" reads "&amp;", which reads "&". */
  function Unescape(s: Bytes): Bytes {
    if s == "&amp;amp;" then "&amp;" else if s == "&amp;" then "&" else s
  }

  lemma DoubleEscapeKept(cue: Cue)
    ensures Kept(Unescape, [Text("&amp;amp;", None), Text("a", Some(cue))]) ==
              [Piece("&amp;", None), Piece("a", Some(cue))]
  {
    var nodes := [Text("&amp;amp;", None), Text("a", Some(cue))];
    assert nodes[..1] == [nodes[0]] && nodes[..1][..0] == [];
    CollapseNoSpace("&amp;", true);
    CollapseNoSpace("a", false);
    assert Kept(Unescape, nodes[..1]) == [Piece("&amp;", None)];
  }

  /** An ampersand escaped twice before a timed word: the line reads "&a", and the word's cue is lost. */
  lemma DoubleEscapeLosesCue(cue: Cue)
    ensures var line := Kept(Unescape, [Text("&amp;amp;", None), Text("a", Some(cue))]);
            !Stable(Unescape, line) && Renormalized(Unescape, line) == "&a" && LineCues(line, "&a") == []
  {
    DoubleEscapeKept(cue);
    CollapseNoSpace("&", false);
    CollapseNoSpace("a", false);
    var line := [Piece("&amp;", None), Piece("a", Some(cue))];
    RenormalizedTwo(Unescape, line);
    assert Normal(Unescape, line[0].text) == "&";
    NoCuePastTheEnd(line, "&a");
  }

  lemma RenormalizedTwo(sanitize: Sanitizer, line: seq<Piece>)
    requires |line| == 2
    ensures Renormalized(sanitize, line) == Normal(sanitize, line[0].text) + Normal(sanitize, line[1].text)
  {
    assert line[..1] == [line[0]] && line[..1][..0] == [];
    assert Renormalized(sanitize, line[..1]) == "" + Normal(sanitize, line[0].text);
  }

  lemma NoCuePastTheEnd(line: seq<Piece>, raw: Bytes)
    requires |line| == 2 && line[0].cue.None? && |line[0].text| >= |raw|
    ensures LineCues(line, raw) == []
  {
    assert Cursor(line, 1) == |line[0].text|;
    assert Clipped(line, 1, raw, LeftBytes(raw), TrimmedEnd(raw)) == [];
  }

  lemma {:induction false} CollapseNoSpace(s: Bytes, spaceBefore: bool)
    requires forall i :: 0 <= i < |s| ==> !XmlSpace(s[i])
    ensures Collapse(s, spaceBefore) == s
    decreases |s|
  {
    if s != "" {
      CollapseNoSpace(s[1..], false);
      assert s == [s[0]] + s[1..];
    }
  }

  method ConcatTTMLPieceRaw(sanitize: Sanitizer, line: seq<Piece>) returns (raw: Bytes)
    ensures raw == Renormalized(sanitize, line)
  {
    raw := "";
    for i := 0 to |line|
      invariant raw == Renormalized(sanitize, line[..i])
    {
      assert line[..i + 1][..i] == line[..i];
      var text := CollapseTTMLWhitespace(sanitize(line[i].text));
      raw := raw + text;
    }
    assert line[..|line|] == line;
  }

  /** Every cue of a logical line is exact, whatever the sanitizer does. */
  method FinalizeTTMLLogicalLine(sanitize: Sanitizer, line: seq<Piece>) returns (text: Bytes, cues: seq<Cue>)
    ensures text == TrimSpace(Renormalized(sanitize, line)) && cues == LineCues(line, Renormalized(sanitize, line))
    ensures ExactCues(text, cues)
  {
    var raw := ConcatTTMLPieceRaw(sanitize, line);
    LineCuesExact(line, raw);
    if raw == "" {
      NoCuesInNothing(line, |line|);
      return "", [];
    }
    text := TrimSpace(raw);
    cues := ClipPieces(line, raw, LeftBytes(raw), TrimmedEnd(raw));
  }

  method ClipPieces(line: seq<Piece>, raw: Bytes, left: nat, end: nat) returns (cues: seq<Cue>)
    requires left <= end <= |raw|
    ensures cues == Clipped(line, |line|, raw, left, end)
  {
    cues := [];
    var cursor := 0;
    for i := 0 to |line|
      invariant cursor == Cursor(line, i) && cues == Clipped(line, i, raw, left, end)
    {
      var cue := ClipPiece(line[i], cursor, raw, left, end);
      cues := cues + cue;
      cursor := cursor + |line[i].text|;
    }
  }

  method ClipPiece(p: Piece, cursor: nat, raw: Bytes, left: nat, end: nat) returns (cues: seq<Cue>)
    requires left <= end <= |raw|
    ensures cues == Own(p, cursor, raw, left, end)
  {
    cues := [];
    if p.cue.Some? {
      var byteStart := if cursor > left then cursor else left;
      var byteEnd := if cursor + |p.text| < end then cursor + |p.text| else end;
      if byteStart < byteEnd {
        cues := [p.cue.value.(value := raw[byteStart..byteEnd], byteStart := byteStart - left,
                              byteEnd := byteEnd - left - 1)];
      }
    }
  }

  lemma {:induction false} NoCuesInNothing(line: seq<Piece>, k: nat)
    requires k <= |line|
    ensures TrimSpace("") == "" && Clipped(line, k, "", 0, 0) == []
  {
    if k > 0 { NoCuesInNothing(line, k - 1); }
  }

  // ---------------------------------------------------------------------------------------------
  // Joining the logical lines

  predicate Blank(line: Sung) { line.value == "" && line.cues == [] }

  /** The first k lines, separated by newlines, each cue moved to where its line starts. */
  function Joined(lines: seq<Sung>, k: nat): Sung
    requires k <= |lines|
  {
    if k == 0 then Sung("", [])
    else if k == 1 then Sung(lines[0].value, OffsetAll(lines[0].cues, 0))
    else
      var before, line := Joined(lines, k - 1), lines[k - 1];
      Sung(before.value + "\n" + line.value, before.cues + OffsetAll(line.cues, |before.value| + 1))
  }

  predicate AllExact(lines: seq<Sung>) { forall i :: 0 <= i < |lines| ==> ExactCues(lines[i].value, lines[i].cues) }

  lemma {:induction false} JoinedExact(lines: seq<Sung>, k: nat)
    requires AllExact(lines) && k <= |lines|
    ensures ExactCues(Joined(lines, k).value, Joined(lines, k).cues)
  {
    if k == 1 {
      OffsetExact(lines[0].value, lines[0].value, lines[0].cues, 0);
    } else if k > 1 {
      JoinedExact(lines, k - 1);
      JoinedExactStep(Joined(lines, k - 1), lines[k - 1]);
    }
  }

  lemma JoinedExactStep(before: Sung, line: Sung)
    requires ExactCues(before.value, before.cues) && ExactCues(line.value, line.cues)
    ensures ExactCues(before.value + "\n" + line.value, before.cues + OffsetAll(line.cues, |before.value| + 1))
  {
    var value, offset := before.value + "\n" + line.value, |before.value| + 1;
    assert value[offset..offset + |line.value|] == line.value;
    OffsetExact(value, line.value, line.cues, offset);
    assert before.value <= value;
  }

  method FinalizeTTMLLines(sanitize: Sanitizer, lines: seq<seq<Piece>>) returns (finalized: seq<Sung>)
    ensures |finalized| == |lines| && AllExact(finalized)
    ensures forall k :: 0 <= k < |lines| ==> finalized[k] == Final(sanitize, lines[k])
  {
    finalized := [];
    for i := 0 to |lines|
      invariant |finalized| == i && AllExact(finalized)
      invariant forall k :: 0 <= k < i ==> finalized[k] == Final(sanitize, lines[k])
    {
      var text, cues := FinalizeTTMLLogicalLine(sanitize, lines[i]);
      finalized := finalized + [Sung(text, cues)];
    }
  }

  function Final(sanitize: Sanitizer, line: seq<Piece>): Sung {
    Sung(TrimSpace(Renormalized(sanitize, line)), LineCues(line, Renormalized(sanitize, line)))
  }

  /** The finalized logical lines of the nodes. */
  function Finals(sanitize: Sanitizer, nodes: seq<Node>): seq<Sung> {
    var logical := LogicalLines(nodes);
    seq(|logical|, k requires 0 <= k < |logical| => Final(sanitize, Kept(sanitize, logical[k])))
  }

  /** The lines less the blank ones at either end. */
  ghost predicate BlankEnds(lines: seq<Sung>, from: nat, to: nat) {
    && from <= to <= |lines|
    && (forall k :: 0 <= k < from || to <= k < |lines| ==> Blank(lines[k]))
    && (from < to ==> !Blank(lines[from]) && !Blank(lines[to - 1]))
  }

  method DropBlankEnds(lines: seq<Sung>) returns (kept: seq<Sung>, ghost from: nat, ghost to: nat)
    ensures BlankEnds(lines, from, to) && kept == lines[from..to]
  {
    kept, from, to := lines, 0, |lines|;
    while |kept| > 0 && kept[0].value == "" && kept[0].cues == []
      invariant from <= |lines| && kept == lines[from..] && forall k :: 0 <= k < from ==> Blank(lines[k])
      decreases |kept|
    {
      kept := kept[1..];
      from := from + 1;
    }
    while |kept| > 0
      invariant from <= to <= |lines| && kept == lines[from..to]
      invariant forall k :: 0 <= k < from || to <= k < |lines| ==> Blank(lines[k])
      invariant from < to ==> !Blank(lines[from])
      decreases |kept|
    {
      var last := kept[|kept| - 1];
      if last.value != "" || |last.cues| > 0 { break; }
      kept := kept[..|kept| - 1];
      to := to - 1;
    }
  }

  /** A paragraph's value is its logical lines, blank ends dropped, joined by newlines, and every cue
      still names exactly its own bytes. */
  method BuildTTMLLineFromPieces(sanitize: Sanitizer, nodes: seq<Node>)
    returns (value: Bytes, cues: seq<Cue>, ghost from: nat, ghost to: nat)
    ensures BlankEnds(Finals(sanitize, nodes), from, to)
    ensures Sung(value, cues) == Joined(Finals(sanitize, nodes)[from..to], to - from)
    ensures ExactCues(value, cues)
  {
    var finalized := LogicalLinesOf(sanitize, nodes);
    value, cues, from, to := JoinWithoutBlankEnds(finalized);
  }

  method JoinWithoutBlankEnds(lines: seq<Sung>) returns (value: Bytes, cues: seq<Cue>, ghost from: nat, ghost to: nat)
    requires AllExact(lines)
    ensures BlankEnds(lines, from, to) && Sung(value, cues) == Joined(lines[from..to], to - from)
    ensures ExactCues(value, cues)
  {
    var kept;
    kept, from, to := DropBlankEnds(lines);
    assert AllExact(kept);
    value, cues := JoinLines(kept);
  }

  method LogicalLinesOf(sanitize: Sanitizer, nodes: seq<Node>) returns (finalized: seq<Sung>)
    ensures finalized == Finals(sanitize, nodes) && AllExact(finalized)
  {
    var lines := SplitTTMLPiecesByBreak(sanitize, nodes);
    finalized := FinalizeTTMLLines(sanitize, lines);
  }

  method JoinLines(lines: seq<Sung>) returns (value: Bytes, cues: seq<Cue>)
    requires AllExact(lines)
    ensures Sung(value, cues) == Joined(lines, |lines|) && ExactCues(value, cues)
  {
    value, cues := "", [];
    var byteOffset := 0;
    for i := 0 to |lines|
      invariant Sung(value, cues) == Joined(lines, i) && byteOffset == |value|
    {
      ghost var before := Joined(lines, i);
      if i > 0 {
        value := value + "\n";
        byteOffset := byteOffset + 1;
      }
      value := value + lines[i].value;
      cues := AppendMoved(cues, lines[i].cues, byteOffset);
      byteOffset := byteOffset + |lines[i].value|;
      assert Joined(lines, i + 1).value == value;
      assert Joined(lines, i + 1).cues == cues;
    }
    JoinedExact(lines, |lines|);
  }

  method AppendMoved(cues: seq<Cue>, more: seq<Cue>, byteOffset: int) returns (all: seq<Cue>)
    ensures all == cues + OffsetAll(more, byteOffset)
  {
    all := cues;
    for i := 0 to |more|
      invariant all == cues + OffsetAll(more[..i], byteOffset)
    {
      all := all + [Offset(more[i], byteOffset)];
    }
  }
}
