/** Cue end times: filled, clamped and made all-or-none, for each agent's cues on their own. */
module LyricsNormalize {
  import opened Wrappers
  import opened LyricsTypes

  function NextStart(cues: seq<Cue>, i: nat): Option<int> { if i + 1 < |cues| then cues[i + 1].start else None }

  /** The end of a cue: its own, else the next cue's start, else the fallback; at most the next start,
      then at least its own start. */
  function ResolvedEnd(c: Cue, next: Option<int>, fallback: Option<int>): Option<int> {
    var end := if c.end.Some? then c.end else if next.Some? then next else fallback;
    var end := if end.Some? && next.Some? && end.value > next.value then next else end;
    if end.Some? && c.start.Some? && end.value < c.start.value then c.start else end
  }

  function EndAt(cues: seq<Cue>, i: nat, fallback: Option<int>): Option<int>
    requires i < |cues|
  {
    ResolvedEnd(cues[i], NextStart(cues, i), fallback)
  }

  /** Nothing can give cue i an end. */
  predicate Endless(cues: seq<Cue>, i: nat, fallback: Option<int>)
    requires i < |cues|
  {
    cues[i].end.None? && NextStart(cues, i).None? && fallback.None?
  }

  predicate AnyEndless(cues: seq<Cue>, fallback: Option<int>) {
    exists i :: 0 <= i < |cues| && Endless(cues, i, fallback)
  }

  function Normalized(cues: seq<Cue>, fallback: Option<int>): (out: seq<Cue>)
    ensures |out| == |cues|
  {
    if AnyEndless(cues, fallback) then seq(|cues|, i requires 0 <= i < |cues| => cues[i].(end := None))
    else seq(|cues|, i requires 0 <= i < |cues| => cues[i].(end := EndAt(cues, i, fallback)))
  }

  // ---------------------------------------------------------------------------------------------
  // What normalizing promises

  /** Only ends change, and they are there for every cue or for none. */
  predicate AllOrNone(cues: seq<Cue>) {
    (forall i :: 0 <= i < |cues| ==> cues[i].end.Some?) || (forall i :: 0 <= i < |cues| ==> cues[i].end.None?)
  }

  lemma NormalizedAllOrNone(cues: seq<Cue>, fallback: Option<int>)
    ensures var out := Normalized(cues, fallback);
            && AllOrNone(out)
            && (cues != [] ==> ((forall i :: 0 <= i < |out| ==> out[i].end.None?) <==> AnyEndless(cues, fallback)))
            && (forall i :: 0 <= i < |cues| ==> out[i] == cues[i].(end := out[i].end))
  {
    forall i | 0 <= i < |cues| ensures EndAt(cues, i, fallback).None? <==> Endless(cues, i, fallback) {}
    if cues != [] && !AnyEndless(cues, fallback) { assert Normalized(cues, fallback)[0].end.Some?; }
  }

  /** An end never precedes its own start; it stays within the next start exactly when the cue's own
      start does. */
  lemma NormalizedOrder(cues: seq<Cue>, fallback: Option<int>, i: nat)
    requires i < |cues| && Normalized(cues, fallback)[i].end.Some?
    ensures var out := Normalized(cues, fallback);
            && (out[i].start.Some? ==> out[i].start.value <= out[i].end.value)
            && (NextStart(out, i).Some? ==>
                  (out[i].end.value <= NextStart(out, i).value <==>
                   (out[i].start.None? || out[i].start.value <= NextStart(out, i).value)))
  {
  }

  /** The value an end is taken from: the cue's own, else the next start, else the fallback. */
  function Wanted(cues: seq<Cue>, i: nat, fallback: Option<int>): Option<int>
    requires i < |cues|
  {
    if cues[i].end.Some? then cues[i].end else if NextStart(cues, i).Some? then NextStart(cues, i) else fallback
  }

  /** An end changes only as far as it must: it is the wanted one when that lies between the cue's start
      and the next start, else the bound it crosses, and the own start where the bounds cross. */
  lemma NormalizedFills(cues: seq<Cue>, fallback: Option<int>, i: nat)
    requires i < |cues| && Normalized(cues, fallback)[i].end.Some?
    ensures Wanted(cues, i, fallback).Some?
    ensures var end, want := Normalized(cues, fallback)[i].end, Wanted(cues, i, fallback);
            var start, next := cues[i].start, NextStart(cues, i);
            && end in {want, start, next}
            && ((start.Some? ==> start.value <= want.value) && (next.Some? ==> want.value <= next.value) ==>
                end == want)
            && (start.Some? && (want.value < start.value || (next.Some? && next.value < start.value)) ==> end == start)
            && (next.Some? && next.value < want.value && (start.Some? ==> start.value <= next.value) ==> end == next)
  {
  }

  lemma ResolvedTwice(c: Cue, next: Option<int>, fallback: Option<int>)
    ensures ResolvedEnd(c.(end := ResolvedEnd(c, next, fallback)), next, fallback) == ResolvedEnd(c, next, fallback)
  {
  }

  /** Normalizing again with the same fallback changes nothing. */
  lemma NormalizedIdempotent(cues: seq<Cue>, fallback: Option<int>)
    ensures Normalized(Normalized(cues, fallback), fallback) == Normalized(cues, fallback)
  {
    var once := Normalized(cues, fallback);
    assert forall i :: 0 <= i < |cues| ==> NextStart(once, i) == NextStart(cues, i);
    if AnyEndless(cues, fallback) {
      var i :| 0 <= i < |cues| && Endless(cues, i, fallback);
      assert Endless(once, i, fallback);
    } else {
      forall i | 0 <= i < |cues| ensures !Endless(once, i, fallback) && EndAt(once, i, fallback) == once[i].end {
        ResolvedTwice(cues[i], NextStart(cues, i), fallback);
        assert !Endless(cues, i, fallback);
      }
    }
  }

  // ---------------------------------------------------------------------------------------------
  // The loop over one group

  method ResolveEnds(cues: seq<Cue>, fallback: Option<int>) returns (out: seq<Cue>)
    ensures |out| == |cues| && forall i :: 0 <= i < |cues| ==> out[i] == cues[i].(end := EndAt(cues, i, fallback))
  {
    out := cues;
    for i := 0 to |out|
      invariant |out| == |cues|
      invariant forall k :: 0 <= k < i ==> out[k] == cues[k].(end := EndAt(cues, k, fallback))
      invariant forall k :: i <= k < |cues| ==> out[k] == cues[k]
    {
      var end := out[i].end;
      if end.None? {
        if i + 1 < |out| && out[i + 1].start.Some? { end := out[i + 1].start; } else { end := fallback; }
      }
      if end.Some? && i + 1 < |out| && out[i + 1].start.Some? && end.value > out[i + 1].start.value {
        end := out[i + 1].start;
      }
      if end.Some? && out[i].start.Some? && end.value < out[i].start.value { end := out[i].start; }
      out := out[i := out[i].(end := end)];
    }
  }

  method ClearEnds(cues: seq<Cue>) returns (out: seq<Cue>)
    ensures |out| == |cues| && forall i :: 0 <= i < |cues| ==> out[i] == cues[i].(end := None)
  {
    out := cues;
    for j := 0 to |out|
      invariant |out| == |cues|
      invariant forall k :: 0 <= k < |cues| ==> out[k] == if k < j then cues[k].(end := None) else cues[k]
    {
      out := out[j := out[j].(end := None)];
    }
  }

  method NormalizeCueEnds(cues: seq<Cue>, fallback: Option<int>) returns (out: seq<Cue>)
    ensures out == Normalized(cues, fallback)
  {
    if |cues| == 0 { return cues; }
    out := ResolveEnds(cues, fallback);
    forall k | 0 <= k < |cues| ensures out[k].end.None? <==> Endless(cues, k, fallback) {}
    for i := 0 to |out|
      invariant forall k :: 0 <= k < i ==> !Endless(cues, k, fallback)
    {
      if out[i].end.None? {
        assert Endless(cues, i, fallback);
        out := ClearEnds(out);
        return;
      }
    }
  }

  // ---------------------------------------------------------------------------------------------
  // Agents

  /** The positions below n of an agent's cues. */
  function Positions(cues: seq<Cue>, agent: AgentId, n: nat): (ps: seq<nat>)
    requires n <= |cues|
    ensures forall k :: 0 <= k < |ps| ==> ps[k] < n && cues[ps[k]].agent == agent
  {
    if n == 0 then []
    else if cues[n - 1].agent == agent then Positions(cues, agent, n - 1) + [n - 1]
    else Positions(cues, agent, n - 1)
  }

  lemma {:induction false} PositionsComplete(cues: seq<Cue>, agent: AgentId, n: nat, p: nat)
    requires p < n <= |cues| && cues[p].agent == agent
    ensures p in Positions(cues, agent, n)
  {
    if p < n - 1 { PositionsComplete(cues, agent, n - 1, p); }
  }

  lemma {:induction false} PositionsIncrease(cues: seq<Cue>, agent: AgentId, n: nat)
    requires n <= |cues|
    ensures forall j, k :: 0 <= j < k < |Positions(cues, agent, n)| ==>
              Positions(cues, agent, n)[j] < Positions(cues, agent, n)[k]
  {
    if n > 0 { PositionsIncrease(cues, agent, n - 1); }
  }

  lemma {:induction false} PositionsSameAgents(a: seq<Cue>, b: seq<Cue>, agent: AgentId, n: nat)
    requires SameAgents(a, b) && n <= |a|
    ensures Positions(a, agent, n) == Positions(b, agent, n)
  {
    if n > 0 { PositionsSameAgents(a, b, agent, n - 1); }
  }

  predicate SameAgents(a: seq<Cue>, b: seq<Cue>) { |a| == |b| && forall i :: 0 <= i < |a| ==> a[i].agent == b[i].agent }

  function Pick(cues: seq<Cue>, ps: seq<nat>): seq<Cue>
    requires forall k :: 0 <= k < |ps| ==> ps[k] < |cues|
  {
    seq(|ps|, k requires 0 <= k < |ps| => cues[ps[k]])
  }

  /** An agent's cues, in document order. */
  function Group(cues: seq<Cue>, agent: AgentId): seq<Cue> { Pick(cues, Positions(cues, agent, |cues|)) }

  /** Restricted to any one agent, the result is that agent's cues normalized alone. */
  ghost predicate NormalizedByAgent(cues: seq<Cue>, fallback: Option<int>, out: seq<Cue>) {
    SameAgents(cues, out) && forall agent :: Group(out, agent) == Normalized(Group(cues, agent), fallback)
  }

  /** The groups say everything: cues with the same agents and the same groups are the same. */
  lemma GroupsDetermine(a: seq<Cue>, b: seq<Cue>)
    requires SameAgents(a, b) && forall agent :: Group(a, agent) == Group(b, agent)
    ensures a == b
  {
    forall i | 0 <= i < |a| ensures a[i] == b[i] {
      var agent := a[i].agent;
      PositionsSameAgents(a, b, agent, |a|);
      PositionsComplete(a, agent, |a|, i);
      var ps := Positions(a, agent, |a|);
      var k :| 0 <= k < |ps| && ps[k] == i;
      assert Group(a, agent)[k] == a[i] && Group(b, agent)[k] == b[i];
    }
  }

  /** No agent's cues affect another's ends. */
  lemma AgentsDoNotInterfere(a: seq<Cue>, b: seq<Cue>, fallback: Option<int>, out: seq<Cue>, out': seq<Cue>,
                             agent: AgentId)
    requires NormalizedByAgent(a, fallback, out) && NormalizedByAgent(b, fallback, out')
    requires Group(a, agent) == Group(b, agent)
    ensures Group(out, agent) == Group(out', agent)
  {
  }

  /** By-agent normalization has one result. */
  lemma ByAgentUnique(cues: seq<Cue>, fallback: Option<int>, a: seq<Cue>, b: seq<Cue>)
    requires NormalizedByAgent(cues, fallback, a) && NormalizedByAgent(cues, fallback, b)
    ensures a == b
  {
    GroupsDetermine(a, b);
  }

  /** Normalizing the result again changes nothing. */
  lemma ByAgentIdempotent(cues: seq<Cue>, fallback: Option<int>, once: seq<Cue>, twice: seq<Cue>)
    requires NormalizedByAgent(cues, fallback, once) && NormalizedByAgent(once, fallback, twice)
    ensures twice == once
  {
    forall agent ensures Group(twice, agent) == Group(once, agent) {
      NormalizedIdempotent(Group(cues, agent), fallback);
    }
    GroupsDetermine(once, twice);
  }

  // ---------------------------------------------------------------------------------------------
  // Grouping by agent

  predicate Distinct(order: seq<AgentId>) { forall i, j :: 0 <= i < j < |order| ==> order[i] != order[j] }

  /** The groups hold the positions below n, and order lists the agents once each. */
  ghost predicate Grouped(cues: seq<Cue>, n: nat, groups: map<AgentId, seq<nat>>, order: seq<AgentId>)
    requires n <= |cues|
  {
    && (forall id :: id in groups <==> id in order)
    && Distinct(order)
    && (forall id :: id in groups ==> groups[id] == Positions(cues, id, n))
    && (forall i :: 0 <= i < n ==> cues[i].agent in groups)
  }

  lemma {:induction false} NoPositions(cues: seq<Cue>, agent: AgentId, n: nat)
    requires n <= |cues| && forall i :: 0 <= i < n ==> cues[i].agent != agent
    ensures Positions(cues, agent, n) == []
  {
    if n > 0 { NoPositions(cues, agent, n - 1); }
  }

  method GroupByAgent(cues: seq<Cue>) returns (groups: map<AgentId, seq<nat>>, order: seq<AgentId>)
    ensures Grouped(cues, |cues|, groups, order)
  {
    groups, order := map[], [];
    for i := 0 to |cues|
      invariant Grouped(cues, i, groups, order)
    {
      var id := cues[i].agent;
      if id !in groups {
        NoPositions(cues, id, i);
        order := order + [id];
        groups := groups[id := [i]];
      } else {
        groups := groups[id := groups[id] + [i]];
      }
    }
  }

  /** The cues at the positions are the group's, and every other cue is as it was. */
  predicate Placed(before: seq<Cue>, out: seq<Cue>, ps: seq<nat>, group: seq<Cue>) {
    && |out| == |before| && |group| == |ps|
    && (forall k :: 0 <= k < |ps| ==> ps[k] < |out| && out[ps[k]] == group[k])
    && (forall p :: 0 <= p < |out| && p !in ps ==> out[p] == before[p])
  }

  method Place(before: seq<Cue>, ps: seq<nat>, group: seq<Cue>) returns (out: seq<Cue>)
    requires |group| == |ps| && forall k :: 0 <= k < |ps| ==> ps[k] < |before|
    requires forall j, k :: 0 <= j < k < |ps| ==> ps[j] < ps[k]
    ensures Placed(before, out, ps, group)
  {
    out := before;
    for gi := 0 to |ps|
      invariant Placed(before, out, ps[..gi], group[..gi])
    {
      out := out[ps[gi] := group[gi]];
    }
    assert ps[..|ps|] == ps && group[..|ps|] == group;
  }

  method NormalizeGroup(cues: seq<Cue>, idxs: seq<nat>, fallback: Option<int>) returns (group: seq<Cue>)
    requires forall k :: 0 <= k < |idxs| ==> idxs[k] < |cues|
    ensures group == Normalized(Pick(cues, idxs), fallback)
  {
    group := [];
    for gi := 0 to |idxs|
      invariant group == Pick(cues, idxs)[..gi]
    {
      group := group + [cues[idxs[gi]]];
    }
    assert group == Pick(cues, idxs);
    group := NormalizeCueEnds(group, fallback);
  }

  /** The groups of the agents listed are normalized, the other cues are as they were. */
  ghost predicate DoneFor(cues: seq<Cue>, fallback: Option<int>, out: seq<Cue>, done: seq<AgentId>) {
    && SameAgents(cues, out)
    && (forall id :: id in done ==> Pick(out, Positions(cues, id, |cues|)) == Normalized(Group(cues, id), fallback))
    && (forall p :: 0 <= p < |cues| && cues[p].agent !in done ==> out[p] == cues[p])
  }

  lemma DoneForOne(cues: seq<Cue>, fallback: Option<int>, before: seq<Cue>, out: seq<Cue>, done: seq<AgentId>,
                   id: AgentId)
    requires DoneFor(cues, fallback, before, done) && id !in done
    requires Placed(before, out, Positions(cues, id, |cues|), Normalized(Group(cues, id), fallback))
    ensures DoneFor(cues, fallback, out, done + [id])
  {
    var ps, group := Positions(cues, id, |cues|), Normalized(Group(cues, id), fallback);
    forall p | 0 <= p < |cues| ensures out[p].agent == cues[p].agent && (cues[p].agent != id ==> out[p] == before[p]) {
      if p in ps {
        var k :| 0 <= k < |ps| && ps[k] == p;
        assert out[p] == group[k] && Group(cues, id)[k] == cues[p];
      } else if cues[p].agent == id {
        PositionsComplete(cues, id, |cues|, p);
      }
    }
    forall a | a in done ensures Pick(out, Positions(cues, a, |cues|)) == Pick(before, Positions(cues, a, |cues|)) {}
    assert Pick(out, ps) == group;
  }

  lemma AllDone(cues: seq<Cue>, fallback: Option<int>, out: seq<Cue>, done: seq<AgentId>)
    requires DoneFor(cues, fallback, out, done) && forall i :: 0 <= i < |cues| ==> cues[i].agent in done
    ensures NormalizedByAgent(cues, fallback, out)
  {
    forall agent ensures Group(out, agent) == Normalized(Group(cues, agent), fallback) {
      PositionsSameAgents(cues, out, agent, |cues|);
      if agent !in done { NoPositions(cues, agent, |cues|); }
    }
  }

  lemma {:induction false} OnlyAgent(cues: seq<Cue>, agent: AgentId, n: nat)
    requires n <= |cues| && forall i :: 0 <= i < n ==> cues[i].agent == agent
    ensures Positions(cues, agent, n) == seq(n, i => i)
  {
    if n > 0 { OnlyAgent(cues, agent, n - 1); }
  }

  lemma OneAgentIsByAgent(cues: seq<Cue>, fallback: Option<int>)
    requires forall i, j :: 0 <= i < |cues| && 0 <= j < |cues| ==> cues[i].agent == cues[j].agent
    ensures NormalizedByAgent(cues, fallback, Normalized(cues, fallback))
  {
    var out := Normalized(cues, fallback);
    forall agent ensures Group(out, agent) == Normalized(Group(cues, agent), fallback) {
      PositionsSameAgents(cues, out, agent, |cues|);
      if cues != [] && cues[0].agent == agent {
        OnlyAgent(cues, agent, |cues|);
        assert Group(cues, agent) == cues && Group(out, agent) == out;
      } else {
        NoPositions(cues, agent, |cues|);
      }
    }
  }

  method NormalizeAgent(cues: seq<Cue>, fallback: Option<int>, before: seq<Cue>, id: AgentId, idxs: seq<nat>,
                        ghost done: seq<AgentId>)
    returns (out: seq<Cue>)
    requires DoneFor(cues, fallback, before, done) && id !in done && idxs == Positions(cues, id, |cues|)
    ensures DoneFor(cues, fallback, out, done + [id])
  {
    PositionsIncrease(cues, id, |cues|);
    var group := NormalizeGroup(cues, idxs, fallback);
    out := Place(before, idxs, group);
    DoneForOne(cues, fallback, before, out, done, id);
  }

  method NormalizeCueEndsByAgent(cues: seq<Cue>, fallback: Option<int>) returns (out: seq<Cue>)
    ensures NormalizedByAgent(cues, fallback, out)
  {
    var groups, order := GroupByAgent(cues);
    if |order| <= 1 {
      OneAgentIsByAgent(cues, fallback);
      out := NormalizeCueEnds(cues, fallback);
    } else {
      out := NormalizeAgents(cues, fallback, groups, order);
    }
  }

  method NormalizeAgents(cues: seq<Cue>, fallback: Option<int>, groups: map<AgentId, seq<nat>>, order: seq<AgentId>)
    returns (out: seq<Cue>)
    requires Grouped(cues, |cues|, groups, order)
    ensures NormalizedByAgent(cues, fallback, out)
  {
    out := cues;
    for k := 0 to |order|
      invariant DoneFor(cues, fallback, out, order[..k])
    {
      out := NormalizeAgent(cues, fallback, out, order[k], groups[order[k]], order[..k]);
    }
    assert order[..|order|] == order;
    AllDone(cues, fallback, out, order);
  }

  // ---------------------------------------------------------------------------------------------
  // Line timing

  function CueEnd(c: Cue): Option<int> { if c.end.Some? then c.end else c.start }

  /** b comes at or after every time of the first n cues, and is one of them. */
  ghost predicate Latest(cues: seq<Cue>, n: nat, b: Option<int>)
    requires n <= |cues|
  {
    && (forall i :: 0 <= i < n && CueEnd(cues[i]).Some? ==> b.Some? && CueEnd(cues[i]).value <= b.value)
    && (b.Some? ==> exists i :: 0 <= i < n && CueEnd(cues[i]) == b)
  }

  ghost predicate Earliest(cues: seq<Cue>, n: nat, a: Option<int>)
    requires n <= |cues|
  {
    && (forall i :: 0 <= i < n && cues[i].start.Some? ==> a.Some? && a.value <= cues[i].start.value)
    && (a.Some? ==> exists i :: 0 <= i < n && cues[i].start == a)
  }

  /** A line without times of its own spans its cues. */
  method NormalizeLineTiming(line: Line) returns (out: Line)
    ensures out.value == line.value && out.cues == line.cues
    ensures line.start.Some? ==> out.start == line.start
    ensures line.end.Some? ==> out.end == line.end
    ensures line.start.None? ==> Earliest(line.cues, |line.cues|, out.start)
    ensures line.end.None? ==> Latest(line.cues, |line.cues|, out.end)
  {
    if |line.cues| == 0 { return line; }
    var earliest, latest: Option<int> := None, None;
    for i := 0 to |line.cues|
      invariant Earliest(line.cues, i, earliest) && Latest(line.cues, i, latest)
    {
      var c := line.cues[i];
      if c.start.Some? && (earliest.None? || c.start.value < earliest.value) { earliest := c.start; }
      var end := if c.end.None? then c.start else c.end;
      if end.Some? && (latest.None? || end.value > latest.value) { latest := end; }
    }
    out := line;
    if out.start.None? && earliest.Some? { out := out.(start := earliest); }
    if out.end.None? && latest.Some? { out := out.(end := latest); }
  }

  // ---------------------------------------------------------------------------------------------
  // Whole documents

  /** The end a cue of line i falls back to: the line's own, else the next line's start. */
  function Fallback(lines: seq<Line>, i: nat): Option<int>
    requires i < |lines|
  {
    if lines[i].end.Some? then lines[i].end else if i + 1 < |lines| then lines[i + 1].start else None
  }

  /** A line normalized: its cues agent by agent, and its own times where it had none. */
  ghost predicate LineNormalized(line: Line, fallback: Option<int>, out: Line) {
    if line.cues == [] then out == line
    else
      && out.value == line.value && NormalizedByAgent(line.cues, fallback, out.cues)
      && (if line.start.Some? then out.start == line.start else Earliest(out.cues, |out.cues|, out.start))
      && (if line.end.Some? then out.end == line.end else Latest(out.cues, |out.cues|, out.end))
  }

  ghost predicate LinesNormalized(lines: seq<Line>, out: seq<Line>) {
    |out| == |lines| && forall i :: 0 <= i < |lines| ==> LineNormalized(lines[i], Fallback(lines, i), out[i])
  }

  method NormalizeCueLine(line: Line, fallback: Option<int>) returns (out: Line)
    ensures LineNormalized(line, fallback, out)
  {
    if |line.cues| == 0 { return line; }
    var cues := NormalizeCueEndsByAgent(line.cues, fallback);
    out := NormalizeLineTiming(line.(cues := cues));
  }

  method NormalizeCueLines(lines: seq<Line>) returns (out: seq<Line>)
    ensures LinesNormalized(lines, out)
    ensures forall i :: 0 <= i < |lines| ==>
              LineNormalized(lines[i], if lines[i].end.Some? then lines[i].end
                                       else if i + 1 < |lines| then lines[i + 1].start else None, out[i])
  {
    out := lines;
    for i := 0 to |lines|
      invariant |out| == |lines|
      invariant forall k :: 0 <= k < i ==> LineNormalized(lines[k], Fallback(lines, k), out[k])
      invariant forall k :: i <= k < |lines| ==> out[k] == lines[k]
    {
      var fallback := out[i].end;
      if fallback.None? && i + 1 < |out| { fallback := out[i + 1].start; }
      var line := NormalizeCueLine(out[i], fallback);
      out := out[i := line];
    }
  }

  /** Some agent's cues lose their ends. */
  ghost predicate SomeAgentEndless(cues: seq<Cue>, fallback: Option<int>) {
    exists agent :: AnyEndless(Group(cues, agent), fallback)
  }

  predicate NoStarts(cues: seq<Cue>) { forall i :: 0 <= i < |cues| ==> cues[i].start.None? }

  /** No cue starts, and every agent's cues lose their ends: nothing is left that has a time. */
  ghost predicate Timeless(cues: seq<Cue>, fallback: Option<int>) {
    NoStarts(cues) && forall i :: 0 <= i < |cues| ==> AnyEndless(Group(cues, cues[i].agent), fallback)
  }

  /** No next line, or one with no start of its own and no cue with a start. */
  predicate NextLineTimeless(lines: seq<Line>, i: nat) {
    i + 1 < |lines| ==> lines[i + 1].start.None? && NoStarts(lines[i + 1].cues)
  }

  /** Line i keeps its cues' ends, or loses them with no time left that a second pass could fall back to. */
  ghost predicate Settles(lines: seq<Line>, i: nat)
    requires i < |lines|
  {
    var cues, fallback := lines[i].cues, Fallback(lines, i);
    !SomeAgentEndless(cues, fallback) || (Timeless(cues, fallback) && NextLineTimeless(lines, i))
  }

  /** A group that has its ends keeps them, whatever the fallback. */
  lemma NormalizedTwice(cues: seq<Cue>, fallback: Option<int>, other: Option<int>)
    ensures var once := Normalized(cues, fallback);
            Normalized(once, other) == once <==> !AnyEndless(cues, fallback) || other.None?
  {
    var once := Normalized(cues, fallback);
    assert forall i :: 0 <= i < |cues| ==> NextStart(once, i) == NextStart(cues, i);
    if AnyEndless(cues, fallback) {
      var i :| 0 <= i < |cues| && Endless(cues, i, fallback);
      if other.None? {
        NormalizedIdempotent(cues, None);
      } else {
        NormalizedAllOrNone(once, other);
        assert !AnyEndless(once, other);
        assert Normalized(once, other)[i].end.Some? && once[i].end.None?;
      }
    } else {
      forall i | 0 <= i < |cues| ensures once[i].end.Some? && EndAt(once, i, other) == once[i].end {
        assert !Endless(cues, i, fallback);
      }
      assert !AnyEndless(once, other);
    }
  }

  /** What by-agent normalization does to one cue. */
  lemma ByAgentAt(cues: seq<Cue>, fallback: Option<int>, once: seq<Cue>, i: nat)
    requires NormalizedByAgent(cues, fallback, once) && i < |cues|
    ensures once[i] == cues[i].(end := once[i].end)
    ensures once[i].end.None? <==> AnyEndless(Group(cues, cues[i].agent), fallback)
  {
    var agent := cues[i].agent;
    var ps := Positions(cues, agent, |cues|);
    PositionsSameAgents(cues, once, agent, |cues|);
    PositionsComplete(cues, agent, |cues|, i);
    var k :| 0 <= k < |ps| && ps[k] == i;
    assert Group(cues, agent)[k] == cues[i] && Group(once, agent)[k] == once[i];
    NormalizedAllOrNone(Group(cues, agent), fallback);
    assert Normalized(Group(cues, agent), fallback)[k] == once[i];
  }

  lemma CuesTwice(cues: seq<Cue>, fallback: Option<int>, once: seq<Cue>, other: Option<int>, twice: seq<Cue>)
    requires NormalizedByAgent(cues, fallback, once) && NormalizedByAgent(once, other, twice)
    ensures twice == once <==> !SomeAgentEndless(cues, fallback) || other.None?
  {
    forall agent
      ensures Group(twice, agent) == Group(once, agent) <==> !AnyEndless(Group(cues, agent), fallback) || other.None?
    {
      NormalizedTwice(Group(cues, agent), fallback, other);
    }
    if !SomeAgentEndless(cues, fallback) || other.None? {
      GroupsDetermine(once, twice);
    }
  }

  lemma EarliestIs(cues: seq<Cue>, others: seq<Cue>, a: Option<int>, b: Option<int>)
    requires |others| == |cues| && forall i :: 0 <= i < |cues| ==> others[i].start == cues[i].start
    requires Earliest(cues, |cues|, a) && Earliest(others, |others|, b)
    ensures a == b
    ensures a.None? <==> NoStarts(cues)
  {
    forall i | 0 <= i < |cues| ensures others[i].start == cues[i].start {}
  }

  /** A line changes on the second pass exactly when its cues do. */
  lemma LineTwice(line: Line, fallback: Option<int>, once: Line, other: Option<int>, twice: Line)
    requires LineNormalized(line, fallback, once) && LineNormalized(once, other, twice) && line.cues != []
    ensures twice == once <==> !SomeAgentEndless(line.cues, fallback) || other.None?
  {
    CuesTwice(line.cues, fallback, once.cues, other, twice.cues);
    forall i | 0 <= i < |once.cues| ensures twice.cues[i].start == once.cues[i].start {
      ByAgentAt(once.cues, other, twice.cues, i);
    }
    if once.start.None? { EarliestIs(once.cues, twice.cues, None, twice.start); }
  }

  lemma EndAfter(line: Line, fallback: Option<int>, out: Line)
    requires LineNormalized(line, fallback, out) && line.end.None? && line.cues != []
    ensures out.end.None? <==> Timeless(line.cues, fallback)
  {
    forall k | 0 <= k < |line.cues|
      ensures out.cues[k].start == line.cues[k].start
      ensures out.cues[k].end.None? <==> AnyEndless(Group(line.cues, line.cues[k].agent), fallback)
    {
      ByAgentAt(line.cues, fallback, out.cues, k);
    }
  }

  /** What a line without ends can fall back to on the second pass. */
  lemma NextFallback(lines: seq<Line>, once: seq<Line>, i: nat)
    requires LinesNormalized(lines, once) && i < |lines| && SomeAgentEndless(lines[i].cues, Fallback(lines, i))
    ensures Fallback(once, i).None? <==> Timeless(lines[i].cues, Fallback(lines, i)) && NextLineTimeless(lines, i)
  {
    assert LineNormalized(lines[i], Fallback(lines, i), once[i]);
    assert Fallback(lines, i).None?;
    EndAfter(lines[i], Fallback(lines, i), once[i]);
    if i + 1 < |lines| { StartAfter(lines, once, i + 1); }
  }

  lemma StartAfter(lines: seq<Line>, once: seq<Line>, i: nat)
    requires LinesNormalized(lines, once) && i < |lines|
    ensures once[i].start.None? <==> lines[i].start.None? && NoStarts(lines[i].cues)
  {
    var line, out := lines[i], once[i];
    assert LineNormalized(line, Fallback(lines, i), out);
    if line.cues != [] && line.start.None? {
      forall k | 0 <= k < |line.cues| ensures out.cues[k].start == line.cues[k].start {
        ByAgentAt(line.cues, Fallback(lines, i), out.cues, k);
      }
      EarliestIs(out.cues, out.cues, out.start, out.start);
    }
  }

  lemma NoCuesNoEndless(fallback: Option<int>)
    ensures !SomeAgentEndless([], fallback)
  {
    forall agent ensures !AnyEndless(Group([], agent), fallback) {}
  }

  /** Normalizing a document again changes nothing if and only if every line settles.  A line without an
      end, whose last cue has none and that no line with a start follows, does not: the first pass sets
      the line's end from its cues, and the second takes that end for the cues. */
  lemma LinesIdempotentIff(lines: seq<Line>, once: seq<Line>, twice: seq<Line>)
    requires LinesNormalized(lines, once) && LinesNormalized(once, twice)
    ensures twice == once <==> forall i :: 0 <= i < |lines| ==> Settles(lines, i)
  {
    forall i | 0 <= i < |lines| ensures twice[i] == once[i] <==> Settles(lines, i) {
      assert LineNormalized(lines[i], Fallback(lines, i), once[i]);
      assert LineNormalized(once[i], Fallback(once, i), twice[i]);
      if lines[i].cues == [] {
        NoCuesNoEndless(Fallback(lines, i));
      } else {
        LineTwice(lines[i], Fallback(lines, i), once[i], Fallback(once, i), twice[i]);
        if SomeAgentEndless(lines[i].cues, Fallback(lines, i)) { NextFallback(lines, once, i); }
      }
    }
  }

  /** A single line whose only cue starts and has no end changes on the second pass. */
  lemma LastCueWithoutEndDoesNotSettle(line: Line, start: int)
    requires line.end.None? && |line.cues| == 1 && line.cues[0].start == Some(start) && line.cues[0].end.None?
    ensures !Settles([line], 0)
  {
    var agent := line.cues[0].agent;
    OnlyAgent(line.cues, agent, 1);
    assert Group(line.cues, agent) == line.cues;
    assert Endless(Group(line.cues, agent), 0, None);
    assert AnyEndless(Group(line.cues, agent), None);
  }
}
