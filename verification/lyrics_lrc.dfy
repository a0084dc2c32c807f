/** Enhanced LRC: inline word markers become byte-exact cues, and background layers are merged into
    the line they follow.  The marker matches of a text are an input. */
module LyricsLrc {
  import opened Wrappers
  import opened LyricsTypes
  import opened LyricsTrim
  import opened LyricsPieces

  /** A marker found in the text, and its time unless the time could not be read. */
  datatype Marker = Marker(from: nat, to: nat, time: Option<int>)

  /** A text and its markers, in order and apart. */
  datatype Marked = Marked(text: Bytes, markers: seq<Marker>)

  predicate Valid(m: Marked) {
    && (forall i :: 0 <= i < |m.markers| ==> m.markers[i].from <= m.markers[i].to <= |m.text|)
    && (forall i, j :: 0 <= i < j < |m.markers| ==> m.markers[i].to <= m.markers[j].from)
  }

  /** The text between marker i and the next one. */
  function WordAfter(m: Marked, i: nat): Bytes
    requires Valid(m) && i < |m.markers|
  {
    m.text[m.markers[i].to..if i + 1 < |m.markers| then m.markers[i + 1].from else |m.text|]
  }

  function WordPiece(word: Bytes, time: int): Piece { Piece(word, Some(Cue(Some(time), None, "", 0, 0, NoAgent))) }

  /** The words of the first k markers: those with a time that has text after it. */
  function Words(m: Marked, k: nat): seq<Piece>
    requires Valid(m) && k <= |m.markers|
  {
    if k == 0 then []
    else if m.markers[k - 1].time.None? || WordAfter(m, k - 1) == "" then Words(m, k - 1)
    else Words(m, k - 1) + [WordPiece(WordAfter(m, k - 1), m.markers[k - 1].time.value)]
  }

  /** A last marker with no text after it says when the last word ends. */
  function TrailingEnd(m: Marked): Option<int>
    requires Valid(m)
  {
    if m.markers == [] || WordAfter(m, |m.markers| - 1) != "" then None else m.markers[|m.markers| - 1].time
  }

  /** The text without its markers. */
  function Stripped(m: Marked, k: nat): Bytes
    requires Valid(m) && k <= |m.markers|
  {
    if k == 0 then m.text[..if m.markers == [] then |m.text| else m.markers[0].from]
    else Stripped(m, k - 1) + WordAfter(m, k - 1)
  }

  ghost function MarkerText(m: Marked, i: nat): Bytes
    requires Valid(m) && i < |m.markers|
  {
    m.text[m.markers[i].from..m.markers[i].to]
  }

  /** The text before the first marker, then each marker with the word after it. */
  ghost function Rebuilt(m: Marked, k: nat): Bytes
    requires Valid(m) && k <= |m.markers|
  {
    if k == 0 then Stripped(m, 0) else Rebuilt(m, k - 1) + MarkerText(m, k - 1) + WordAfter(m, k - 1)
  }

  ghost function MarkerBytes(m: Marked, k: nat): nat
    requires Valid(m) && k <= |m.markers|
  {
    if k == 0 then 0 else MarkerBytes(m, k - 1) + (m.markers[k - 1].to - m.markers[k - 1].from)
  }

  /** The text without its markers is short of their bytes only. */
  lemma {:induction false} StrippedLength(m: Marked, k: nat)
    requires Valid(m) && k <= |m.markers|
    ensures |Rebuilt(m, k)| == |Stripped(m, k)| + MarkerBytes(m, k)
    decreases k
  {
    if k > 0 { StrippedLength(m, k - 1); }
  }

  /** The markers cut the text into the words: put together again, nothing is missing and nothing twice. */
  lemma {:induction false} MarkersCutText(m: Marked, k: nat)
    requires Valid(m) && k <= |m.markers|
    ensures Rebuilt(m, k) == m.text[..if k < |m.markers| then m.markers[k].from else |m.text|]
    decreases k
  {
    if k > 0 {
      MarkersCutText(m, k - 1);
      ThreeSlices(m.text, m.markers[k - 1].from, m.markers[k - 1].to,
                  if k < |m.markers| then m.markers[k].from else |m.text|);
    }
  }

  lemma ThreeSlices(s: Bytes, a: nat, b: nat, c: nat)
    requires a <= b <= c <= |s|
    ensures s[..a] + s[a..b] + s[b..c] == s[..c]
  {
  }

  function EndLast(cues: seq<Cue>, end: Option<int>): seq<Cue> {
    if end.None? || cues == [] then cues
    else cues[|cues| - 1 := cues[|cues| - 1].(end := end)]
  }

  /** The value and the cues of a marked text. */
  function Enhanced(m: Marked): Sung
    requires Valid(m)
  {
    var words := Words(m, |m.markers|);
    if words == [] then Sung(TrimSpace(Stripped(m, |m.markers|)), [])
    else Sung(TrimSpace(Concat(words)), EndLast(LineCues(words, Concat(words)), TrailingEnd(m)))
  }

  // ---------------------------------------------------------------------------------------------
  // What the cues promise

  lemma {:induction false} TiledBySameRanges(a: seq<Cue>, b: seq<Cue>, lo: int, hi: int)
    requires SameRanges(a, b) && Tiled(a, lo, hi)
    ensures Tiled(b, lo, hi)
    decreases |a|
  {
    if a != [] { TiledBySameRanges(a[..|a| - 1], b[..|b| - 1], lo, a[|a| - 1].byteStart); }
  }

  lemma {:induction false} WordsTimed(m: Marked, k: nat)
    requires Valid(m) && k <= |m.markers|
    ensures AllTimed(Words(m, k))
  {
    if k > 0 { WordsTimed(m, k - 1); }
  }

  /** Every cue names exactly its bytes of the value, and the cues tile the value: no byte of it is
      outside a cue. */
  lemma EnhancedTiles(m: Marked)
    requires Valid(m)
    ensures ExactCues(Enhanced(m).value, Enhanced(m).cues)
    ensures Words(m, |m.markers|) != [] ==> Tiled(Enhanced(m).cues, 0, |Enhanced(m).value|)
  {
    var words := Words(m, |m.markers|);
    if words != [] {
      WordsTimed(m, |m.markers|);
      LineCuesExact(words, Concat(words));
      LineCuesTile(words);
      var cues := LineCues(words, Concat(words));
      ExactBySameRanges(Enhanced(m).value, cues, Enhanced(m).cues);
      TiledBySameRanges(cues, Enhanced(m).cues, 0, |Enhanced(m).value|);
    }
  }

  // ---------------------------------------------------------------------------------------------
  // The parser

  datatype Segment = Segment(start: int, rawStart: nat, rawEnd: nat)

  /** The segments are the words, laid end to end. */
  predicate Laid(segments: seq<Segment>, words: seq<Piece>) {
    |segments| == |words| && forall i :: 0 <= i < |segments| ==> LaidAt(segments[i], words, i)
  }

  predicate LaidAt(s: Segment, words: seq<Piece>, i: nat)
    requires i < |words|
  {
    && s.rawStart == Cursor(words, i) && s.rawEnd == Cursor(words, i) + |words[i].text|
    && words[i] == WordPiece(words[i].text, s.start)
  }

  lemma LaidAppend(segments: seq<Segment>, words: seq<Piece>, word: Bytes, time: int)
    requires Laid(segments, words)
    ensures var n := |Concat(words)|;
            Laid(segments + [Segment(time, n, n + |word|)], words + [WordPiece(word, time)])
    ensures Concat(words + [WordPiece(word, time)]) == Concat(words) + word
  {
    var more := words + [WordPiece(word, time)];
    ConcatLength(words, |words|);
    assert words[..|words|] == words == more[..|words|];
    var n := |Concat(words)|;
    var all := segments + [Segment(time, n, n + |word|)];
    forall i | 0 <= i < |all| ensures LaidAt(all[i], more, i) {
      CursorOfPrefix(more, |words|, i);
      assert i < |words| ==> LaidAt(segments[i], words, i);
    }
  }

  method AddWord(raw: Bytes, segments: seq<Segment>, word: Bytes, time: int, ghost words: seq<Piece>)
    returns (raw': Bytes, segments': seq<Segment>)
    requires raw == Concat(words) && Laid(segments, words)
    ensures raw' == Concat(words + [WordPiece(word, time)]) && Laid(segments', words + [WordPiece(word, time)])
  {
    LaidAppend(segments, words, word, time);
    raw' := raw + word;
    segments' := segments + [Segment(time, |raw|, |raw'|)];
  }

  method CollectWords(m: Marked) returns (raw: Bytes, segments: seq<Segment>, trailingEnd: Option<int>)
    requires Valid(m)
    ensures raw == Concat(Words(m, |m.markers|)) && Laid(segments, Words(m, |m.markers|))
    ensures trailingEnd == TrailingEnd(m)
  {
    raw, segments, trailingEnd := "", [], None;
    for i := 0 to |m.markers|
      invariant raw == Concat(Words(m, i)) && Laid(segments, Words(m, i))
      invariant trailingEnd == if i < |m.markers| then None else TrailingEnd(m)
    {
      if m.markers[i].time.None? { continue; }
      var word := WordAfter(m, i);
      if word != "" {
        raw, segments := AddWord(raw, segments, word, m.markers[i].time.value, Words(m, i));
      } else if i == |m.markers| - 1 {
        trailingEnd := m.markers[i].time;
      }
    }
  }

  method ClipSegment(seg: Segment, raw: Bytes, left: nat, end: nat, ghost word: Bytes) returns (cue: seq<Cue>)
    requires left <= end <= |raw| && seg.rawEnd == seg.rawStart + |word|
    ensures cue == Own(WordPiece(word, seg.start), seg.rawStart, raw, left, end)
  {
    var byteStart := if seg.rawStart > left then seg.rawStart else left;
    var byteEnd := if seg.rawEnd < end then seg.rawEnd else end;
    if byteStart >= byteEnd { return []; }
    cue := [Cue(Some(seg.start), None, raw[byteStart..byteEnd], byteStart - left, byteEnd - left - 1, NoAgent)];
  }

  method ClipSegments(raw: Bytes, segments: seq<Segment>, ghost words: seq<Piece>) returns (cues: seq<Cue>)
    requires Laid(segments, words)
    ensures cues == LineCues(words, raw)
  {
    cues := [];
    var left, end := LeftBytes(raw), TrimmedEnd(raw);
    for i := 0 to |segments|
      invariant cues == Clipped(words, i, raw, left, end)
    {
      assert LaidAt(segments[i], words, i);
      var cue := ClipSegment(segments[i], raw, left, end, words[i].text);
      cues := cues + cue;
    }
  }

  method ParseEnhancedLine(m: Marked) returns (value: Bytes, cues: seq<Cue>)
    requires Valid(m)
    ensures value == Enhanced(m).value && cues == Enhanced(m).cues
    ensures ExactCues(value, cues) && (Words(m, |m.markers|) != [] ==> Tiled(cues, 0, |value|))
  {
    EnhancedTiles(m);
    if m.markers == [] {
      assert m.text[..|m.text|] == m.text;
      return TrimSpace(m.text), [];
    }
    var raw, segments, trailingEnd := CollectWords(m);
    if segments == [] { return TrimSpace(Stripped(m, |m.markers|)), []; }
    cues := ClipSegments(raw, segments, Words(m, |m.markers|));
    if trailingEnd.Some? && cues != [] {
      cues := cues[|cues| - 1 := cues[|cues| - 1].(end := trailingEnd)];
    }
    value := TrimSpace(raw);
  }

  // ---------------------------------------------------------------------------------------------
  // Background layers

  function Shifted(cues: seq<Cue>, offset: int): seq<Cue> {
    seq(|cues|, i requires 0 <= i < |cues| => Offset(cues[i], offset).(agent := BackgroundAgent))
  }

  /** A layer goes after the value and one space; a layer without cues is left out. */
  function AddLayer(line: Sung, layer: Sung): Sung {
    if layer.cues == [] then line
    else if line.value == "" then Sung(layer.value, line.cues + Shifted(layer.cues, 0))
    else Sung(line.value + " " + layer.value, line.cues + Shifted(layer.cues, |line.value| + 1))
  }

  predicate AllValid(layers: seq<Marked>) { forall i :: 0 <= i < |layers| ==> Valid(layers[i]) }

  /** The line with its first k layers. */
  function Merged(line: Sung, layers: seq<Marked>, k: nat): Sung
    requires AllValid(layers) && k <= |layers|
  {
    if k == 0 then line else AddLayer(Merged(line, layers, k - 1), Enhanced(layers[k - 1]))
  }

  predicate Sings(layer: Marked) { Valid(layer) && Enhanced(layer).cues != [] }

  /** Some layer has cues. */
  ghost predicate SomeSings(layers: seq<Marked>) { exists layer :: layer in layers && Sings(layer) }

  predicate AnyCues(layers: seq<Marked>, k: nat)
    requires k <= |layers|
  {
    k > 0 && (AnyCues(layers, k - 1) || Sings(layers[k - 1]))
  }

  lemma {:induction false} AnySings(layers: seq<Marked>, k: nat)
    requires k <= |layers|
    ensures AnyCues(layers, k) <==> SomeSings(layers[..k])
  {
    if k > 0 {
      AnySings(layers, k - 1);
      SomeSingsSnoc(layers, k - 1);
    }
  }

  lemma SomeSingsSnoc(layers: seq<Marked>, k: nat)
    requires k < |layers|
    ensures SomeSings(layers[..k + 1]) <==> SomeSings(layers[..k]) || Sings(layers[k])
  {
    assert layers[..k + 1] == layers[..k] + [layers[k]];
  }

  predicate Keeps(line: Sung, longer: Sung) { line.value <= longer.value && line.cues <= longer.cues }

  lemma KeepsTransitive(a: Sung, b: Sung, c: Sung)
    requires Keeps(a, b) && Keeps(b, c)
    ensures Keeps(a, c)
  {
  }

  predicate ExactSung(s: Sung) { ExactCues(s.value, s.cues) }

  lemma OneMoreLayer(line: Sung, before: Sung, layer: Sung)
    requires ExactSung(before) && ExactSung(layer) && Keeps(line, before)
    ensures ExactSung(AddLayer(before, layer)) && Keeps(line, AddLayer(before, layer))
  {
    KeepsTransitive(line, before, AddLayer(before, layer));
  }

  lemma EnhancedExact(m: Marked)
    requires Valid(m)
    ensures ExactSung(Enhanced(m))
  {
    EnhancedTiles(m);
  }

  /** However many layers are merged, every cue stays exact, and the line's own text and cues come
      first, unchanged. */
  lemma {:induction false} MergedExact(line: Sung, layers: seq<Marked>, k: nat)
    requires ExactSung(line) && AllValid(layers) && k <= |layers|
    ensures ExactSung(Merged(line, layers, k)) && Keeps(line, Merged(line, layers, k))
  {
    if k > 0 {
      MergedExact(line, layers, k - 1);
      EnhancedExact(layers[k - 1]);
      OneMoreLayer(line, Merged(line, layers, k - 1), Enhanced(layers[k - 1]));
    }
  }

  method MergeBgLayers(value: Bytes, cues: seq<Cue>, layers: seq<Marked>)
    returns (value': Bytes, cues': seq<Cue>, merged: bool)
    requires AllValid(layers)
    ensures Sung(value', cues') == Merged(Sung(value, cues), layers, |layers|)
    ensures merged <==> SomeSings(layers)
    ensures ExactCues(value, cues) ==> ExactCues(value', cues')
  {
    value', cues', merged := AddLayers(value, cues, layers);
    AnySings(layers, |layers|);
    assert layers[..|layers|] == layers;
    if ExactCues(value, cues) { MergedExact(Sung(value, cues), layers, |layers|); }
  }

  method AddLayers(value: Bytes, cues: seq<Cue>, layers: seq<Marked>)
    returns (value': Bytes, cues': seq<Cue>, merged: bool)
    requires AllValid(layers)
    ensures Sung(value', cues') == Merged(Sung(value, cues), layers, |layers|) && merged == AnyCues(layers, |layers|)
  {
    value', cues', merged := value, cues, false;
    for k := 0 to |layers|
      invariant Sung(value', cues') == Merged(Sung(value, cues), layers, k) && merged == AnyCues(layers, k)
    {
      var sings;
      value', cues', sings := MergeBgLayer(value', cues', layers[k]);
      if sings { merged := true; }
    }
  }

  method MergeBgLayer(value: Bytes, cues: seq<Cue>, layer: Marked) returns (value': Bytes, cues': seq<Cue>, sings: bool)
    requires Valid(layer)
    ensures Sung(value', cues') == AddLayer(Sung(value, cues), Enhanced(layer)) && sings == Sings(layer)
  {
    var bgValue, bgCues := ParseEnhancedLine(layer);
    if bgCues == [] { return value, cues, false; }
    value', cues' := AppendLayer(value, cues, bgValue, bgCues);
    sings := true;
  }

  method AppendLayer(value: Bytes, cues: seq<Cue>, bgValue: Bytes, bgCues: seq<Cue>)
    returns (value': Bytes, cues': seq<Cue>)
    requires bgCues != []
    ensures Sung(value', cues') == AddLayer(Sung(value, cues), Sung(bgValue, bgCues))
  {
    value', cues' := value, cues;
    var offset := 0;
    if value != "" {
      offset := |value| + 1;
      value' := value' + " ";
    }
    value' := value' + bgValue;
    for i := 0 to |bgCues|
      invariant cues' == cues + Shifted(bgCues[..i], offset)
    {
      cues' := cues' + [Offset(bgCues[i], offset).(agent := BackgroundAgent)];
    }
  }

  // ---------------------------------------------------------------------------------------------
  // Repeated lines

  function ShiftTime(t: Option<int>, offsetMs: int): Option<int> { if t.Some? then Some(t.value + offsetMs) else None }

  /** The same cues, moved in time. */
  predicate Moved(cues: seq<Cue>, out: seq<Cue>, offsetMs: int) {
    |out| == |cues| && forall i :: 0 <= i < |cues| ==>
        && out[i] == cues[i].(start := out[i].start, end := out[i].end)
        && (if cues[i].start.None? then out[i].start.None? else out[i].start == Some(cues[i].start.value + offsetMs))
        && (if cues[i].end.None? then out[i].end.None? else out[i].end == Some(cues[i].end.value + offsetMs))
  }

  method ShiftELRCCues(cues: seq<Cue>, offsetMs: int) returns (out: seq<Cue>)
    ensures Moved(cues, out, offsetMs)
  {
    out := [];
    for i := 0 to |cues|
      invariant Moved(cues[..i], out, offsetMs)
    {
      var c := cues[i];
      out := out + [c.(start := ShiftTime(c.start, offsetMs), end := ShiftTime(c.end, offsetMs))];
    }
  }

  /** One line per timestamp: the same exact cues, moved with the line from its first timestamp. */
  method FlushLine(prior: Marked, pendingBg: seq<Marked>, timestamps: seq<int>) returns (lines: seq<Line>, merged: bool)
    requires Valid(prior) && AllValid(pendingBg)
    ensures var sung := Merged(Enhanced(prior), pendingBg, |pendingBg|);
            |lines| == |timestamps| && forall i :: 0 <= i < |lines| ==>
              && lines[i].start == Some(timestamps[i]) && lines[i].value == sung.value
              && Moved(sung.cues, lines[i].cues, timestamps[i] - timestamps[0])
              && ExactCues(lines[i].value, lines[i].cues)
  {
    var value, cues := ParseEnhancedLine(prior);
    value, cues, merged := MergeBgLayers(value, cues, pendingBg);
    lines := RepeatLine(value, cues, timestamps);
  }

  method RepeatLine(value: Bytes, cues: seq<Cue>, timestamps: seq<int>) returns (lines: seq<Line>)
    requires ExactCues(value, cues)
    ensures |lines| == |timestamps| && forall i :: 0 <= i < |lines| ==>
              && lines[i].start == Some(timestamps[i]) && lines[i].value == value
              && Moved(cues, lines[i].cues, timestamps[i] - timestamps[0]) && ExactCues(lines[i].value, lines[i].cues)
  {
    lines := [];
    for i := 0 to |timestamps|
      invariant |lines| == i
      invariant forall j :: 0 <= j < i ==>
                  && lines[j].start == Some(timestamps[j]) && lines[j].value == value
                  && Moved(cues, lines[j].cues, timestamps[j] - timestamps[0])
                  && ExactCues(lines[j].value, lines[j].cues)
    {
      var shifted := ShiftELRCCues(cues, timestamps[i] - timestamps[0]);
      ExactBySameRanges(value, cues, shifted);
      lines := lines + [Line(Some(timestamps[i]), None, value, shifted)];
    }
  }
}
