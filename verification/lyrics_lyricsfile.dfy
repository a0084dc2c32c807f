/** Lyricsfile documents: word timings become byte-exact cues, and overlapping lines are given to
    synthetic voices, each line taking the lowest voice that is free when it starts. */
module LyricsLyricsfile {
  import opened Wrappers
  import opened LyricsTypes
  import LyricsPieces

  type Piece = LyricsPieces.Piece

  datatype Word = Word(text: Bytes, startMs: int, endMs: Option<int>)
  /** text is the entry's line text after sanitizing. */
  datatype Entry = Entry(text: Bytes, startMs: int, endMs: Option<int>, words: seq<Word>)

  datatype Agent = Agent(id: AgentId, main: bool)

  // ---------------------------------------------------------------------------------------------
  // Word cues

  function WordPieces(words: seq<Word>): seq<Piece> {
    seq(|words|, i requires 0 <= i < |words| => LyricsPieces.Piece(words[i].text, None))
  }

  /** The words put together. */
  function LineText(words: seq<Word>): Bytes { LyricsPieces.Concat(WordPieces(words)) }

  /** Where word i starts inside the line. */
  function WordStart(words: seq<Word>, i: nat): nat
    requires i <= |words|
  {
    LyricsPieces.Cursor(WordPieces(words), i)
  }

  /** The cue of word i, before a missing end is filled: its bytes start where the words before it end. */
  function RawCue(words: seq<Word>, i: nat, agent: AgentId): Cue
    requires i < |words|
  {
    var at, size := WordStart(words, i), |words[i].text|;
    Cue(Some(words[i].startMs), words[i].endMs, words[i].text, at, if size > 0 then at + size - 1 else at, agent)
  }

  /** A word without an end lasts until the next one starts. */
  function WordCue(words: seq<Word>, i: nat, agent: AgentId): Cue
    requires i < |words|
  {
    var c := RawCue(words, i, agent);
    if c.end.None? && i + 1 < |words| then c.(end := Some(words[i + 1].startMs)) else c
  }

  method JoinWords(words: seq<Word>) returns (value: Bytes)
    ensures value == LineText(words)
  {
    value := [];
    ghost var pieces := WordPieces(words);
    for i := 0 to |words|
      invariant value == LyricsPieces.Concat(pieces[..i])
    {
      value := value + words[i].text;
      assert pieces[..i + 1][..i] == pieces[..i];
    }
    assert pieces[..|words|] == pieces;
  }

  method PlaceWords(words: seq<Word>, agent: AgentId) returns (cues: seq<Cue>)
    ensures |cues| == |words| && forall k :: 0 <= k < |cues| ==> cues[k] == RawCue(words, k, agent)
  {
    cues := [];
    var cursor := 0;
    for i := 0 to |words|
      invariant |cues| == i && cursor == WordStart(words, i)
      invariant forall k :: 0 <= k < i ==> cues[k] == RawCue(words, k, agent)
    {
      var size := |words[i].text|;
      var bs := cursor;
      var be := bs;
      if size > 0 {
        be := bs + size - 1;
        cursor := be + 1;
      }
      var cue := Cue(Some(words[i].startMs), words[i].endMs, words[i].text, bs, be, agent);
      assert cue == RawCue(words, i, agent);
      cues := cues + [cue];
    }
  }

  method WordsToLineCues(entry: Entry, agent: AgentId) returns (cues: seq<Cue>, value: Bytes)
    ensures value == if entry.words == [] then entry.text else LineText(entry.words)
    ensures |cues| == |entry.words| && forall i :: 0 <= i < |cues| ==> cues[i] == WordCue(entry.words, i, agent)
  {
    if entry.words == [] { return [], entry.text; }
    value := JoinWords(entry.words);
    cues := PlaceWords(entry.words, agent);
    ghost var words := entry.words;
    for i := 0 to |cues| - 1
      invariant |cues| == |words|
      invariant forall k :: 0 <= k < i ==> cues[k] == WordCue(words, k, agent)
      invariant forall k :: i <= k < |cues| ==> cues[k] == RawCue(words, k, agent)
    {
      if cues[i].end.None? && cues[i + 1].start.Some? {
        cues := cues[i := cues[i].(end := cues[i + 1].start)];
      }
    }
  }

  /** The byte range of a word names its text if and only if the word is not empty. */
  lemma WordCueExactIff(words: seq<Word>, i: nat, agent: AgentId)
    requires i < |words|
    ensures Exact(LineText(words), WordCue(words, i, agent)) <==> words[i].text != []
  {
    LyricsPieces.ConcatAt(WordPieces(words), i);
  }

  predicate NoEmptyWord(words: seq<Word>) { forall i :: 0 <= i < |words| ==> words[i].text != [] }

  ghost predicate CuesOf(words: seq<Word>, cues: seq<Cue>, agent: AgentId) {
    |cues| == |words| && forall i :: 0 <= i < |cues| ==> cues[i] == WordCue(words, i, agent)
  }

  /** With no empty word every cue is exact, and the cues tile the whole line. */
  lemma WordCuesTile(words: seq<Word>, cues: seq<Cue>, agent: AgentId)
    requires words != [] && CuesOf(words, cues, agent) && NoEmptyWord(words)
    ensures ExactCues(LineText(words), cues)
    ensures cues[0].byteStart == 0 && cues[|cues| - 1].byteEnd == |LineText(words)| - 1
    ensures forall i :: 0 <= i < |cues| - 1 ==> cues[i].byteEnd + 1 == cues[i + 1].byteStart
  {
    forall i | 0 <= i < |cues| ensures Exact(LineText(words), cues[i]) { WordCueExactIff(words, i, agent); }
    WordCuesOrdered(words, cues, agent);
    LyricsPieces.ConcatLength(WordPieces(words), |words|);
    assert WordPieces(words)[..|words|] == WordPieces(words);
  }

  lemma WordCuesOrdered(words: seq<Word>, cues: seq<Cue>, agent: AgentId)
    requires CuesOf(words, cues, agent) && NoEmptyWord(words)
    ensures forall i :: 0 <= i < |cues| ==>
              cues[i].byteStart == WordStart(words, i) && cues[i].byteEnd + 1 == WordStart(words, i + 1)
    ensures forall i, j :: 0 <= i < j < |cues| ==> cues[i].byteEnd < cues[j].byteStart
  {
    forall i | 0 <= i < |cues|
      ensures cues[i].byteStart == WordStart(words, i) && cues[i].byteEnd + 1 == WordStart(words, i + 1)
    {
    }
    forall i, j | 0 <= i < j < |cues| ensures cues[i].byteEnd < cues[j].byteStart {
      LyricsPieces.CursorGrows(WordPieces(words), i + 1, j);
    }
  }

  // ---------------------------------------------------------------------------------------------
  // Voices

  function LineEnd(entry: Entry, nextStart: Option<int>): Option<int> {
    if entry.endMs.Some? then entry.endMs
    else if |entry.words| > 0 && entry.words[|entry.words| - 1].endMs.Some? then entry.words[|entry.words| - 1].endMs
    else nextStart
  }

  function EndOf(entries: seq<Entry>, i: nat): Option<int>
    requires i < |entries|
  {
    LineEnd(entries[i], if i + 1 < |entries| then Some(entries[i + 1].startMs) else None)
  }

  /** When the line gives its voice back. */
  function Release(entries: seq<Entry>, i: nat): int
    requires i < |entries|
  {
    if EndOf(entries, i).Some? then EndOf(entries, i).value else entries[i].startMs
  }

  /** Line i still sounds at every start after it, up to and including line j's. */
  ghost predicate BusyThrough(entries: seq<Entry>, i: nat, j: nat)
    requires i < |entries| && j < |entries|
  {
    forall k :: i < k <= j ==> Release(entries, i) > entries[k].startMs
  }

  /** The greedy rule: two lines share a voice only if the earlier one was released in between, and
      every lower voice is held by a line that sounds through. */
  ghost predicate LowestFree(entries: seq<Entry>, voices: seq<nat>) {
    && |voices| == |entries|
    && (forall i, j :: 0 <= i < j < |voices| && voices[i] == voices[j] ==> !BusyThrough(entries, i, j))
    && (forall j, v :: 0 <= j < |voices| && 0 <= v < voices[j] ==> Holder(entries, voices, j, v))
  }

  ghost predicate Holder(entries: seq<Entry>, voices: seq<nat>, j: nat, v: nat)
    requires j < |voices| <= |entries|
  {
    exists i :: 0 <= i < j && voices[i] == v && BusyThrough(entries, i, j)
  }

  /** The active map names, for each busy voice, the line that holds it through line j. */
  ghost predicate ActiveVoices(entries: seq<Entry>, voices: seq<nat>, active: map<nat, int>, holder: map<nat, nat>,
                               j: nat)
    requires |voices| <= |entries| && j < |entries|
  {
    && active.Keys == holder.Keys
    && (forall v :: v in active ==>
        holder[v] < |voices| && voices[holder[v]] == v && active[v] == Release(entries, holder[v])
                                    && BusyThrough(entries, holder[v], j))
    && (forall i :: 0 <= i < |voices| ==>
        (voices[i] in active && holder[voices[i]] == i) || !BusyThrough(entries, i, j))
  }

  ghost predicate AssignedSoFar(entries: seq<Entry>, voices: seq<nat>, active: map<nat, int>, holder: map<nat, nat>) {
    && |voices| <= |entries|
    && (forall i, j :: 0 <= i < j < |voices| && voices[i] == voices[j] ==> !BusyThrough(entries, i, j))
    && (forall j, v :: 0 <= j < |voices| && 0 <= v < voices[j] ==> Holder(entries, voices, j, v))
    && if voices == [] then active == map[] && holder == map[]
        else ActiveVoices(entries, voices, active, holder, |voices| - 1)
  }

  method LowestFreeVoice(active: map<nat, int>) returns (v: nat)
    ensures v !in active && forall w :: 0 <= w < v ==> w in active
  {
    v := 0;
    ghost var tried: set<nat> := {};
    while v in active
      invariant forall w :: w in tried <==> 0 <= w < v
      invariant tried <= active.Keys
      decreases |active.Keys - tried|
    {
      tried := tried + {v};
      v := v + 1;
    }
  }

  /** Frees the voices whose line has ended, then takes the lowest free one for line j. */
  method TakeVoice(entries: seq<Entry>, j: nat, active0: map<nat, int>,
                   ghost voices: seq<nat>, ghost holder0: map<nat, nat>)
    returns (voice: nat, active: map<nat, int>, ghost holder: map<nat, nat>)
    requires j == |voices| < |entries| && AssignedSoFar(entries, voices, active0, holder0)
    ensures AssignedSoFar(entries, voices + [voice], active, holder)
  {
    var start := entries[j].startMs;
    active := map v | v in active0 && active0[v] > start :: active0[v];
    holder := map v | v in active :: holder0[v];
    assert ActiveVoices(entries, voices, active, holder, |voices|) by {
      FreeEnded(entries, voices, active0, holder0, active, holder);
    }
    voice := LowestFreeVoice(active);
    VoiceTaken(entries, voices, active, holder, voice);
    active := active[voice := Release(entries, j)];
    holder := holder[voice := j];
  }

  lemma FreeEnded(entries: seq<Entry>, voices: seq<nat>, active0: map<nat, int>, holder0: map<nat, nat>,
                  active: map<nat, int>, holder: map<nat, nat>)
    requires |voices| < |entries| && AssignedSoFar(entries, voices, active0, holder0)
    requires active == map v | v in active0 && active0[v] > entries[|voices|].startMs :: active0[v]
    requires holder == map v | v in active :: holder0[v]
    ensures ActiveVoices(entries, voices, active, holder, |voices|)
  {
    var j := |voices|;
    if j > 0 {
      forall v | v in active
        ensures holder[v] < j && voices[holder[v]] == v && active[v] == Release(entries, holder[v])
        ensures BusyThrough(entries, holder[v], j)
      {
      }
      forall i | 0 <= i < j ensures (voices[i] in active && holder[voices[i]] == i) || !BusyThrough(entries, i, j) {
      }
    }
  }

  lemma VoiceTaken(entries: seq<Entry>, voices: seq<nat>, active: map<nat, int>, holder: map<nat, nat>, voice: nat)
    requires |voices| < |entries| && ActiveVoices(entries, voices, active, holder, |voices|)
    requires forall i, j :: 0 <= i < j < |voices| && voices[i] == voices[j] ==> !BusyThrough(entries, i, j)
    requires forall j, v :: 0 <= j < |voices| && 0 <= v < voices[j] ==> Holder(entries, voices, j, v)
    requires voice !in active && forall w :: 0 <= w < voice ==> w in active
    ensures AssignedSoFar(entries, voices + [voice],
                          active[voice := Release(entries, |voices|)], holder[voice := |voices|])
  {
    var j, next := |voices|, voices + [voice];
    forall b, v | 0 <= b <= j && 0 <= v < next[b] ensures Holder(entries, next, b, v) {
      if b < j {
        assert Holder(entries, voices, b, v);
        var i :| 0 <= i < b && voices[i] == v && BusyThrough(entries, i, b);
        assert next[i] == v;
      } else {
        assert next[holder[v]] == v;
      }
    }
  }

  /** The line built for entry i, its cues all carrying the given agent. */
  ghost predicate LineOf(entries: seq<Entry>, i: nat, agent: AgentId, line: Line)
    requires i < |entries|
  {
    && line.start == Some(entries[i].startMs)
    && line.end == EndOf(entries, i)
    && line.value == (if entries[i].words == [] then entries[i].text else LineText(entries[i].words))
    && |line.cues| == |entries[i].words|
    && forall k :: 0 <= k < |line.cues| ==> line.cues[k] == WordCue(entries[i].words, k, agent)
  }

  ghost predicate MaxVoice(voices: seq<nat>, maxVoice: int) {
    && (forall i :: 0 <= i < |voices| ==> voices[i] <= maxVoice)
    && if voices == [] then maxVoice == -1 else exists i :: 0 <= i < |voices| && voices[i] == maxVoice
  }

  ghost predicate AnyWords(entries: seq<Entry>) { exists i :: 0 <= i < |entries| && entries[i].words != [] }

  method BuildLine(entries: seq<Entry>, j: nat, agent: AgentId) returns (line: Line)
    requires j < |entries|
    ensures LineOf(entries, j, agent, line)
  {
    var cues, value := WordsToLineCues(entries[j], agent);
    line := Line(Some(entries[j].startMs), EndOf(entries, j), value, cues);
  }

  datatype Progress = Progress(active: map<nat, int>, lines: seq<Line>, maxVoice: int, anyCues: bool)

  ghost predicate Built(entries: seq<Entry>, p: Progress, voices: seq<nat>, holder: map<nat, nat>) {
    && AssignedSoFar(entries, voices, p.active, holder)
    && |p.lines| == |voices|
    && MaxVoice(voices, p.maxVoice)
    && (p.anyCues <==> AnyWords(entries[..|voices|]))
    && forall i :: 0 <= i < |voices| ==> LineOf(entries, i, Voice(voices[i]), p.lines[i])
  }

  method AddLine(entries: seq<Entry>, j: nat, p: Progress, ghost voices: seq<nat>, ghost holder0: map<nat, nat>)
    returns (q: Progress, ghost voice: nat, ghost holder: map<nat, nat>)
    requires j == |voices| < |entries| && Built(entries, p, voices, holder0)
    ensures Built(entries, q, voices + [voice], holder)
  {
    var v, active;
    v, active, holder := TakeVoice(entries, j, p.active, voices, holder0);
    voice := v;
    NextMax(voices, p.maxVoice, v);
    AnyWordsNext(entries, j);
    var line := BuildLine(entries, j, Voice(v));
    q := Progress(active, p.lines + [line], if v > p.maxVoice then v else p.maxVoice, p.anyCues || |line.cues| > 0);
    LinesExtend(entries, voices, p.lines, v, line);
  }

  lemma LinesExtend(entries: seq<Entry>, voices: seq<nat>, lines: seq<Line>, voice: nat, line: Line)
    requires |lines| == |voices| < |entries| && LineOf(entries, |voices|, Voice(voice), line)
    requires forall i :: 0 <= i < |voices| ==> LineOf(entries, i, Voice(voices[i]), lines[i])
    ensures forall i :: 0 <= i <= |voices| ==> LineOf(entries, i, Voice((voices + [voice])[i]), (lines + [line])[i])
  {
  }

  method AssignLines(entries: seq<Entry>) returns (p: Progress, ghost voices: seq<nat>)
    ensures LowestFree(entries, voices) && |p.lines| == |entries|
    ensures MaxVoice(voices, p.maxVoice) && (p.anyCues <==> AnyWords(entries))
    ensures forall i :: 0 <= i < |p.lines| ==> LineOf(entries, i, Voice(voices[i]), p.lines[i])
  {
    ghost var holder: map<nat, nat> := map[];
    p, voices := Progress(map[], [], -1, false), [];
    for j := 0 to |entries|
      invariant |voices| == j && Built(entries, p, voices, holder)
    {
      ghost var voice;
      p, voice, holder := AddLine(entries, j, p, voices, holder);
      voices := voices + [voice];
    }
    assert entries[..|entries|] == entries;
  }

  lemma NextMax(voices: seq<nat>, maxVoice: int, voice: nat)
    requires MaxVoice(voices, maxVoice)
    ensures MaxVoice(voices + [voice], if voice > maxVoice then voice else maxVoice)
  {
    var next := voices + [voice];
    assert next[|voices|] == voice;
    if i :| 0 <= i < |voices| && voices[i] == maxVoice { assert next[i] == maxVoice; }
  }

  lemma AnyWordsNext(entries: seq<Entry>, j: nat)
    requires j < |entries|
    ensures AnyWords(entries[..j + 1]) <==> AnyWords(entries[..j]) || entries[j].words != []
  {
  }

  /** Assigns the voices and builds the lines; agents are emitted only when more than one voice is
      used and some cue can carry one. */
  method BuildLyricsfileLines(entries: seq<Entry>)
    returns (lines: seq<Line>, agents: seq<Agent>, ghost voices: seq<nat>)
    ensures LowestFree(entries, voices) && |lines| == |entries|
    ensures agents != [] <==> (exists i :: 0 <= i < |voices| && voices[i] > 0) && AnyWords(entries)
    ensures agents != [] ==> MaxVoice(voices, |agents| - 1)
    ensures forall v :: 0 <= v < |agents| ==> agents[v] == Agent(Voice(v), v == 0)
    ensures forall i :: 0 <= i < |lines| ==>
              LineOf(entries, i, if agents == [] then NoAgent else Voice(voices[i]), lines[i])
    // a line ends at its own end, else at its last word's, else at the next start, if there is one
    ensures forall i :: 0 <= i < |lines| ==>
              var words := entries[i].words;
              lines[i].end == if entries[i].endMs.Some? then entries[i].endMs
                              else if words != [] && words[|words| - 1].endMs.Some? then words[|words| - 1].endMs
                              else if i + 1 < |entries| then Some(entries[i + 1].startMs) else None
    // and gives its voice back then, or at once when it has no end
    ensures forall i :: 0 <= i < |lines| ==>
              Release(entries, i) == if lines[i].end.Some? then lines[i].end.value else entries[i].startMs
  {
    var p;
    p, voices := AssignLines(entries);
    lines, agents := p.lines, [];
    if p.maxVoice <= 0 || !p.anyCues {
      lines := StripLines(entries, lines, voices);
      return;
    }
    agents := ListAgents(p.maxVoice + 1);
  }

  method ListAgents(count: nat) returns (agents: seq<Agent>)
    ensures |agents| == count && forall v :: 0 <= v < count ==> agents[v] == Agent(Voice(v), v == 0)
  {
    agents := [];
    for v := 0 to count
      invariant |agents| == v && forall w :: 0 <= w < v ==> agents[w] == Agent(Voice(w), w == 0)
    {
      agents := agents + [Agent(Voice(v), v == 0)];
    }
  }

  method StripLines(entries: seq<Entry>, lines: seq<Line>, ghost voices: seq<nat>) returns (r: seq<Line>)
    requires |lines| == |entries| == |voices|
    requires forall i :: 0 <= i < |lines| ==> LineOf(entries, i, Voice(voices[i]), lines[i])
    ensures |r| == |lines| && forall i :: 0 <= i < |r| ==> LineOf(entries, i, NoAgent, r[i])
  {
    r := StripAgents(lines);
    forall i | 0 <= i < |r| ensures LineOf(entries, i, NoAgent, r[i]) {
      assert LineOf(entries, i, Voice(voices[i]), lines[i]);
    }
  }

  method StripAgents(lines: seq<Line>) returns (r: seq<Line>)
    ensures |r| == |lines|
    ensures forall i :: 0 <= i < |r| ==> r[i] == lines[i].(cues := r[i].cues) && |r[i].cues| == |lines[i].cues|
    ensures forall i, k :: 0 <= i < |r| && 0 <= k < |r[i].cues| ==> r[i].cues[k] == lines[i].cues[k].(agent := NoAgent)
  {
    r := [];
    for i := 0 to |lines|
      invariant |r| == i
      invariant forall j :: 0 <= j < i ==> r[j] == lines[j].(cues := r[j].cues) && |r[j].cues| == |lines[j].cues|
      invariant forall j, k :: 0 <= j < i && 0 <= k < |r[j].cues| ==>
                  r[j].cues[k] == lines[j].cues[k].(agent := NoAgent)
    {
      var cues: seq<Cue> := [];
      for j := 0 to |lines[i].cues|
        invariant |cues| == j && forall k :: 0 <= k < j ==> cues[k] == lines[i].cues[k].(agent := NoAgent)
      {
        cues := cues + [lines[i].cues[j].(agent := NoAgent)];
      }
      r := r + [lines[i].(cues := cues)];
    }
  }
}
