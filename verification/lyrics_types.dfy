/** Lines, cues and agents shared by the lyrics models.  Texts are byte strings: every offset the
    parsers produce counts UTF-8 bytes. */
module LyricsTypes {
  import opened Wrappers

  /** A text as its UTF-8 bytes, one character a byte. */
  type Bytes = string

  datatype AgentId = NoAgent | Voice(n: nat) | MainAgent | BackgroundAgent

  /** byteStart and byteEnd are both inclusive. */
  datatype Cue = Cue(start: Option<int>, end: Option<int>, value: Bytes, byteStart: int, byteEnd: int, agent: AgentId)

  datatype Line = Line(start: Option<int>, end: Option<int>, value: Bytes, cues: seq<Cue>)

  /** The cue names exactly its own text inside the line. */
  predicate Exact(value: Bytes, c: Cue) {
    0 <= c.byteStart <= c.byteEnd < |value| && value[c.byteStart..c.byteEnd + 1] == c.value
  }

  /** Every cue is exact, and the cues are in order and do not overlap. */
  predicate ExactCues(value: Bytes, cues: seq<Cue>) {
    && (forall i :: 0 <= i < |cues| ==> Exact(value, cues[i]))
    && (forall i, j :: 0 <= i < j < |cues| ==> cues[i].byteEnd < cues[j].byteStart)
  }
}
