/**
 * Refreshing a smart playlist refreshes the playlists its rules reference first, through a recursion
 * that a visited set cuts.  Every database call may fail, at any point.
 */
module SmartPlaylistRefresh {
  import opened Wrappers
  import opened Sequences

  datatype Id = Id(text: string)

  /** What a refresh reads of a stored playlist. */
  datatype Playlist = Playlist(smart: bool, owner: string, refreshDelay: int)

  predicate ShouldRefresh(p: Playlist, evaluatedAt: Option<int>, user: string, now: int) {
    p.smart && !(evaluatedAt.Some? && now - evaluatedAt.value < p.refreshDelay) && p.owner == user
  }

  /** The stored playlists, visible to the user, that a playlist's rules name by id or path. */
  type References = map<Id, set<Id>>

  ghost predicate Closed(refs: References, stored: set<Id>) {
    refs.Keys == stored && forall id :: id in refs ==> refs[id] <= stored
  }

  /** The tracks of each stored playlist. */
  type Tracks = map<Id, seq<string>>

  /** What the rules of a playlist with these references can see. */
  function Inputs(tracks: Tracks, refs: set<Id>): Tracks { map r | r in refs && r in tracks :: tracks[r] }

  /** How far an attempt came: not at all, the old tracks deleted, the rules evaluated, the new tracks
      inserted, the evaluation time stored. */
  datatype Outcome = Skipped | Deleted | Evaluated | Filled | Stamped(at: int)

  predicate Fills(o: Outcome) { o.Filled? || o.Stamped? }

  predicate Evaluates(o: Outcome) { o.Evaluated? || Fills(o) }

  /** One attempt to refresh a playlist: the clock when it began; and, when the rules were evaluated or the
      attempt ended before that, the attempts that had finished, the chain of those still open, the
      playlist itself last, and the tracks of all playlists. */
  datatype Attempt = Attempt(id: Id, now: int, finished: set<Id>, stack: seq<Id>, tracks: Tracks, outcome: Outcome)

  ghost function Elems(s: seq<Id>): set<Id> { set x | x in s }

  ghost predicate Link(stack: seq<Id>, i: nat, refs: References) {
    i + 1 < |stack| && stack[i] in refs && stack[i + 1] in refs[stack[i]]
  }

  /** Each playlist of the chain is referenced by the one before it. */
  ghost predicate Chain(stack: seq<Id>, refs: References) {
    forall i: nat :: i < |stack| - 1 ==> Link(stack, i, refs)
  }

  ghost predicate EndsWith(stack: seq<Id>, id: Id) { stack != [] && stack[|stack| - 1] == id }

  ghost predicate Extends(stack: seq<Id>, id: Id, refs: References) {
    Chain(stack, refs) && (stack == [] || (stack[|stack| - 1] in refs && id in refs[stack[|stack| - 1]]))
  }

  lemma ChainGrows(stack: seq<Id>, id: Id, refs: References) returns (longer: seq<Id>)
    requires Extends(stack, id, refs)
    ensures EndsWith(longer, id) && Chain(longer, refs) && Elems(longer) == Elems(stack) + {id}
  {
    longer := stack + [id];
    forall i: nat | i < |stack| ensures Link(longer, i, refs) {
      assert i < |stack| - 1 ==> Link(stack, i, refs);
    }
  }

  /** What a run starts from; evaluate gives the tracks that a playlist's rules select, seeing the tracks
      of the playlists it references. */
  datatype Stored = Stored(user: string, playlists: map<Id, Playlist>, refs: References,
                           evaluatedAt: map<Id, Option<int>>, tracks: Tracks, evaluate: (Id, Tracks) -> seq<string>)

  ghost predicate WellFormed(w: Stored) {
    w.evaluatedAt.Keys == w.playlists.Keys && w.tracks.Keys == w.playlists.Keys && Closed(w.refs, w.playlists.Keys)
  }

  /** The playlist is the user's and smart, and was never evaluated or its delay has passed since. */
  ghost predicate DueAt(w: Stored, id: Id, now: int) {
    && id in w.playlists && id in w.evaluatedAt && w.playlists[id].smart && w.playlists[id].owner == w.user
    && (w.evaluatedAt[id].None? || w.evaluatedAt[id].value + w.playlists[id].refreshDelay <= now)
  }

  lemma DueIff(w: Stored, id: Id, now: int)
    requires id in w.playlists && id in w.evaluatedAt
    ensures DueAt(w, id, now) <==> ShouldRefresh(w.playlists[id], w.evaluatedAt[id], w.user, now)
  {
  }

  /** These playlists have no tracks. */
  ghost predicate Emptied(ids: set<Id>, tracks: Tracks) { forall x :: x in ids && x in tracks ==> tracks[x] == [] }

  /** Only a playlist that was due by its evaluation time before the run loses its tracks, and without
      failures each one that was due is filled and stamped.  When the rules were evaluated, every reference
      had finished its attempt, or is on the chain that led here, whose tracks are all deleted. */
  ghost predicate Made(c: Attempt, w: Stored, reliable: bool) {
    && c.id in w.refs && EndsWith(c.stack, c.id) && Chain(c.stack, w.refs)
    && (!c.outcome.Skipped? ==> DueAt(w, c.id, c.now) && Emptied(Elems(c.stack), c.tracks))
    && (Evaluates(c.outcome) ==> w.refs[c.id] <= c.finished + Elems(c.stack))
    && (reliable ==> (c.outcome.Skipped? && !DueAt(w, c.id, c.now)) || c.outcome.Stamped?)
  }

  ghost function Ids(log: seq<Attempt>): set<Id> { set k | 0 <= k < |log| :: log[k].id }

  ghost function StampedIds(log: seq<Attempt>): set<Id> {
    set k | 0 <= k < |log| && log[k].outcome.Stamped? :: log[k].id
  }

  lemma IdsConcat(a: seq<Attempt>, b: seq<Attempt>)
    ensures Ids(a + b) == Ids(a) + Ids(b)
  {
    var c := a + b;
    assert forall k :: 0 <= k < |a| ==> c[k] == a[k];
    assert forall k :: 0 <= k < |b| ==> c[k + |a|] == b[k];
  }

  lemma OneId(log: seq<Attempt>, c: Attempt)
    ensures Ids(log + [c]) == Ids(log) + {c.id}
  {
    IdsConcat(log, [c]);
    assert [c][0] == c;
  }

  ghost predicate OncePerPlaylist(log: seq<Attempt>) {
    forall j, k :: 0 <= j < k < |log| ==> log[j].id != log[k].id
  }

  ghost predicate GoodAt(log: seq<Attempt>, k: nat, w: Stored, reliable: bool, open: set<Id>, visited: set<Id>) {
    k < |log| && Made(log[k], w, reliable) && open <= Elems(log[k].stack) <= visited
  }

  /** At most one attempt per playlist, none on a playlist visited before; the attempts in open were open
      during all of them. */
  ghost predicate GoodLog(log: seq<Attempt>, w: Stored, reliable: bool, open: set<Id>, before: set<Id>) {
    && OncePerPlaylist(log) && Ids(log) !! before
    && forall k: nat :: k < |log| ==> GoodAt(log, k, w, reliable, open, before + Ids(log))
  }

  lemma OnceConcat(a: seq<Attempt>, b: seq<Attempt>)
    requires OncePerPlaylist(a) && OncePerPlaylist(b) && Ids(a) !! Ids(b)
    ensures OncePerPlaylist(a + b)
  {
    assert forall k :: 0 <= k < |a| ==> a[k].id in Ids(a);
    assert forall k :: 0 <= k < |b| ==> b[k].id in Ids(b);
  }

  lemma GoodLogConcat(a: seq<Attempt>, b: seq<Attempt>, w: Stored, reliable: bool, open: set<Id>, more: set<Id>,
                      before: set<Id>)
    requires GoodLog(a, w, reliable, open, before) && GoodLog(b, w, reliable, open + more, before + Ids(a))
    ensures GoodLog(a + b, w, reliable, open, before)
  {
    IdsConcat(a, b);
    OnceConcat(a, b);
    forall k: nat | k < |a + b| ensures GoodAt(a + b, k, w, reliable, open, before + Ids(a + b)) {
      if k < |a| {
        assert GoodAt(a, k, w, reliable, open, before + Ids(a));
      } else {
        assert GoodAt(b, k - |a|, w, reliable, open + more, before + Ids(a) + Ids(b));
      }
    }
  }

  // ---------------------------------------------------------------------------------------------
  // What the attempts leave

  /** The tracks an attempt that came past the deletion leaves its playlist. */
  ghost function Value(w: Stored, c: Attempt): seq<string> {
    if Fills(c.outcome) && c.id in w.refs then w.evaluate(c.id, Inputs(c.tracks, w.refs[c.id])) else []
  }

  /** The tracks of all playlists after the attempts, one by one. */
  ghost function TracksAfter(w: Stored, tracks: Tracks, log: seq<Attempt>): Tracks {
    if log == [] then tracks
    else
      var before, c := TracksAfter(w, tracks, log[..|log| - 1]), log[|log| - 1];
      if c.outcome.Skipped? then before else before[c.id := Value(w, c)]
  }

  /** The evaluation times after the attempts. */
  ghost function TimesAfter(times: map<Id, Option<int>>, log: seq<Attempt>): map<Id, Option<int>> {
    if log == [] then times
    else
      var before, c := TimesAfter(times, log[..|log| - 1]), log[|log| - 1];
      if c.outcome.Stamped? then before[c.id := Some(c.outcome.at)] else before
  }

  lemma {:induction false} AfterConcat(w: Stored, tracks: Tracks, times: map<Id, Option<int>>, a: seq<Attempt>,
                                       b: seq<Attempt>)
    ensures TracksAfter(w, tracks, a + b) == TracksAfter(w, TracksAfter(w, tracks, a), b)
    ensures TimesAfter(times, a + b) == TimesAfter(TimesAfter(times, a), b)
    decreases |b|
  {
    if b == [] {
      assert a + b == a;
    } else {
      AfterConcat(w, tracks, times, a, b[..|b| - 1]);
      assert (a + b)[..|a + b| - 1] == a + b[..|b| - 1];
    }
  }

  /** Attempts change nothing of the playlists they are not on. */
  lemma {:induction false} OthersKept(w: Stored, tracks: Tracks, times: map<Id, Option<int>>, log: seq<Attempt>, x: Id)
    requires x !in Ids(log)
    ensures x in TracksAfter(w, tracks, log) <==> x in tracks
    ensures x in tracks ==> TracksAfter(w, tracks, log)[x] == tracks[x]
    ensures x in TimesAfter(times, log) <==> x in times
    ensures x in times ==> TimesAfter(times, log)[x] == times[x]
    decreases |log|
  {
    if log != [] {
      var init, c := log[..|log| - 1], log[|log| - 1];
      OneId(init, c);
      assert init + [c] == log;
      OthersKept(w, tracks, times, init, x);
    }
  }

  /** A write to a playlist the attempts are not on can wait until after them. */
  lemma {:induction false} WriteLater(w: Stored, tracks: Tracks, log: seq<Attempt>, x: Id, v: seq<string>)
    requires x !in Ids(log)
    ensures TracksAfter(w, tracks[x := v], log) == TracksAfter(w, tracks, log)[x := v]
    decreases |log|
  {
    if log != [] {
      var init, c := log[..|log| - 1], log[|log| - 1];
      OneId(init, c);
      assert init + [c] == log;
      WriteLater(w, tracks, init, x, v);
    }
  }

  /** What each attempt left, when there is one per playlist. */
  lemma {:induction false} LeftByAttempt(w: Stored, tracks: Tracks, times: map<Id, Option<int>>, log: seq<Attempt>,
                                         k: nat)
    requires k < |log| && OncePerPlaylist(log)
    ensures !log[k].outcome.Skipped? ==>
              log[k].id in TracksAfter(w, tracks, log) && TracksAfter(w, tracks, log)[log[k].id] == Value(w, log[k])
    ensures log[k].outcome.Stamped? ==>
              log[k].id in TimesAfter(times, log) && TimesAfter(times, log)[log[k].id] == Some(log[k].outcome.at)
    decreases |log|
  {
    if k < |log| - 1 { LeftByAttempt(w, tracks, times, log[..|log| - 1], k); }
  }

  ghost predicate SameTracks(a: Tracks, b: Tracks, ids: set<Id>) {
    a.Keys == b.Keys && forall x :: x in ids && x in a ==> a[x] == b[x]
  }

  ghost predicate ConsistentAt(log: seq<Attempt>, k: nat, tracks: Tracks, finished: set<Id>) {
    k < |log| && log[k].finished <= finished && SameTracks(log[k].tracks, tracks, log[k].finished)
  }

  /** The tracks of the attempts that had finished are as every later attempt saw them. */
  ghost predicate Consistent(log: seq<Attempt>, tracks: Tracks, finished: set<Id>) {
    forall k: nat :: k < |log| ==> ConsistentAt(log, k, tracks, finished)
  }

  lemma ConsistentLater(log: seq<Attempt>, a: Tracks, b: Tracks, before: set<Id>, after: set<Id>)
    requires Consistent(log, a, before) && SameTracks(a, b, before) && before <= after
    ensures Consistent(log, b, after)
  {
    forall k: nat | k < |log| ensures ConsistentAt(log, k, b, after) {
      assert ConsistentAt(log, k, a, before);
    }
  }

  // ---------------------------------------------------------------------------------------------
  // What one call does

  /** What a run has done so far: the playlists visited, those whose attempt has finished, and the stored
      tracks and evaluation times. */
  datatype Snapshot = Snapshot(visited: set<Id>, finished: set<Id>, tracks: Tracks, evaluatedAt: map<Id, Option<int>>)

  /** The evaluation times of the playlists not visited are those before the run. */
  ghost predicate Untouched(now: map<Id, Option<int>>, before: map<Id, Option<int>>, visited: set<Id>) {
    now.Keys == before.Keys && forall id :: id in now && id !in visited ==> now[id] == before[id]
  }

  ghost predicate Sound(w: Stored, s: Snapshot) {
    && WellFormed(w) && s.finished <= s.visited <= w.playlists.Keys
    && s.tracks.Keys == w.playlists.Keys && Untouched(s.evaluatedAt, w.evaluatedAt, s.visited)
  }

  /** What a call that began in a and ended in b did, all of it in its log; still are the attempts left open,
      and open those that were open during all its attempts. */
  ghost predicate Call(w: Stored, reliable: bool, a: Snapshot, b: Snapshot, open: set<Id>, still: set<Id>,
                       log: seq<Attempt>)
  {
    && b.visited == a.visited + Ids(log) && GoodLog(log, w, reliable, open, a.visited)
    && a.finished <= b.finished && b.visited - b.finished == still
    && Consistent(log, b.tracks, b.finished)
    && b.tracks == TracksAfter(w, a.tracks, log) && b.evaluatedAt == TimesAfter(a.evaluatedAt, log)
  }

  lemma NothingIsCall(w: Stored, reliable: bool, s: Snapshot, open: set<Id>)
    ensures Call(w, reliable, s, s, open, s.visited - s.finished, [])
  {
  }

  /** A call leaves the tracks of the playlists visited before it. */
  lemma VisitedKept(w: Stored, tracks: Tracks, after: Tracks, more: seq<Attempt>, visited: set<Id>)
    requires after == TracksAfter(w, tracks, more) && after.Keys == tracks.Keys && Ids(more) !! visited
    ensures SameTracks(tracks, after, visited)
  {
    forall x | x in visited && x in tracks ensures tracks[x] == after[x] { OthersKept(w, tracks, map[], more, x); }
  }

  /** Two calls after each other, the second on a reference, with the same attempts open. */
  lemma CallsJoin(w: Stored, reliable: bool, a: Snapshot, b: Snapshot, c: Snapshot, open: set<Id>, id: Id,
                  log: seq<Attempt>, more: seq<Attempt>)
    requires Sound(w, b) && Sound(w, c) && Call(w, reliable, a, b, open, open, log)
    requires Call(w, reliable, b, c, open + {id}, open, more)
    ensures Call(w, reliable, a, c, open, open, log + more)
  {
    IdsConcat(log, more);
    UnionAssociates(a.visited, Ids(log), Ids(more));
    GoodLogConcat(log, more, w, reliable, open, {id}, a.visited);
    AfterConcat(w, a.tracks, a.evaluatedAt, log, more);
    VisitedKept(w, b.tracks, c.tracks, more, b.visited);
    ConsistentJoin(log, more, b, c);
  }

  lemma UnionAssociates(a: set<Id>, b: set<Id>, c: set<Id>)
    ensures a + b + c == a + (b + c)
  {
  }

  lemma ConsistentJoin(log: seq<Attempt>, more: seq<Attempt>, b: Snapshot, c: Snapshot)
    requires Consistent(log, b.tracks, b.finished) && Consistent(more, c.tracks, c.finished)
    requires SameTracks(b.tracks, c.tracks, b.visited) && b.finished <= b.visited && b.finished <= c.finished
    ensures Consistent(log + more, c.tracks, c.finished)
  {
    ConsistentLater(log, b.tracks, c.tracks, b.finished, c.finished);
    ConsistentConcat(log, more, c.tracks, c.finished);
  }

  lemma ConsistentConcat(a: seq<Attempt>, b: seq<Attempt>, tracks: Tracks, finished: set<Id>)
    requires Consistent(a, tracks, finished) && Consistent(b, tracks, finished)
    ensures Consistent(a + b, tracks, finished)
  {
    forall k: nat | k < |a + b| ensures ConsistentAt(a + b, k, tracks, finished) {
      if k < |a| {
        assert ConsistentAt(a, k, tracks, finished);
      } else {
        assert ConsistentAt(b, k - |a|, tracks, finished);
      }
    }
  }

  /** The attempt on id has been opened ... */
  ghost function Opened(a: Snapshot, id: Id): Snapshot { a.(visited := a.visited + {id}) }

  /** ... and its old tracks deleted. */
  ghost function Cleared(a: Snapshot, id: Id): Snapshot { Opened(a, id).(tracks := a.tracks[id := []]) }

  lemma OpenedIsSound(w: Stored, a: Snapshot, id: Id)
    requires Sound(w, a) && id in w.playlists
    ensures Sound(w, Opened(a, id)) && Sound(w, Cleared(a, id))
    ensures id !in a.visited ==> a.visited + {id} - a.finished == a.visited - a.finished + {id}
    ensures Emptied(a.visited - a.finished, a.tracks) ==> Emptied(a.visited - a.finished + {id}, a.tracks[id := []])
  {
  }

  /** An attempt that is not due, or cannot delete the old tracks, changes nothing. */
  lemma SkipIsCall(w: Stored, reliable: bool, a: Snapshot, id: Id, now: int, stack: seq<Id>) returns (log: seq<Attempt>)
    requires Sound(w, a) && id in w.playlists && id !in a.visited && (reliable ==> !DueAt(w, id, now))
    requires Elems(stack) == a.visited - a.finished + {id} && Chain(stack, w.refs) && EndsWith(stack, id)
    ensures Call(w, reliable, a, Opened(a, id), Elems(stack), Elems(stack), log) && StampedIds(log) == {}
  {
    var c := Attempt(id, now, a.finished, stack, a.tracks, Skipped);
    log := [c];
    assert [] + [c] == log && log[..0] == [] && log[0] == c;
    OneId([], c);
    assert Made(c, w, reliable);
    assert a.visited + {id} - a.finished == Elems(stack);
  }

  /** What an attempt that deleted the old tracks leaves, s being what its references left. */
  ghost function Ended(w: Stored, s: Snapshot, c: Attempt): Snapshot {
    s.(tracks := s.tracks[c.id := Value(w, c)],
       evaluatedAt := if c.outcome.Stamped? then s.evaluatedAt[c.id := Some(c.outcome.at)] else s.evaluatedAt)
  }

  /** The end of an attempt, after the references have had their calls. */
  lemma AttemptIsCall(w: Stored, reliable: bool, a: Snapshot, s: Snapshot, log: seq<Attempt>, c: Attempt)
    requires Sound(w, a) && Sound(w, s) && c.id !in a.visited && Made(c, w, reliable) && !c.outcome.Skipped?
    requires c.finished == s.finished && c.tracks == s.tracks && Elems(c.stack) == a.visited - a.finished + {c.id}
    requires Call(w, reliable, Cleared(a, c.id), s, Elems(c.stack), Elems(c.stack), log)
    ensures Call(w, reliable, a, Ended(w, s, c), Elems(c.stack), Elems(c.stack), log + [c])
  {
    OneId(log, c);
    assert c.id in Elems(c.stack) && c.id !in s.finished && c.id !in Ids(log);
    LogsOneMore(w, reliable, a.visited, log, c);
    EndedConsistent(w, s, log, c);
    EndedTracks(w, a.tracks, a.evaluatedAt, log, c);
  }

  lemma EndedTracks(w: Stored, tracks: Tracks, times: map<Id, Option<int>>, log: seq<Attempt>, c: Attempt)
    requires c.id !in Ids(log) && !c.outcome.Skipped?
    ensures TracksAfter(w, tracks, log + [c]) == TracksAfter(w, tracks[c.id := []], log)[c.id := Value(w, c)]
    ensures TimesAfter(times, log + [c]) ==
              if c.outcome.Stamped? then TimesAfter(times, log)[c.id := Some(c.outcome.at)] else TimesAfter(times, log)
  {
    assert (log + [c])[..|log|] == log;
    WriteLater(w, tracks, log, c.id, []);
  }

  lemma EndedConsistent(w: Stored, s: Snapshot, log: seq<Attempt>, c: Attempt)
    requires Consistent(log, s.tracks, s.finished) && c.id !in s.finished && c.id in s.tracks
    requires c.finished == s.finished && c.tracks == s.tracks
    ensures Consistent(log + [c], Ended(w, s, c).tracks, s.finished)
  {
    ConsistentLater(log, s.tracks, Ended(w, s, c).tracks, s.finished, s.finished);
    ConsistentConcat(log, [c], Ended(w, s, c).tracks, s.finished);
  }

  lemma LogsOneMore(w: Stored, reliable: bool, before: set<Id>, log: seq<Attempt>, c: Attempt)
    requires Made(c, w, reliable) && c.id !in before && Elems(c.stack) <= before + {c.id}
    requires GoodLog(log, w, reliable, Elems(c.stack), before + {c.id})
    ensures GoodLog(log + [c], w, reliable, Elems(c.stack), before)
  {
    OneId(log, c);
    OneId([], c);
    assert [] + [c] == [c];
    OnceConcat(log, [c]);
    forall k: nat | k < |log + [c]| ensures GoodAt(log + [c], k, w, reliable, Elems(c.stack), before + Ids(log + [c])) {
      if k < |log| { assert GoodAt(log, k, w, reliable, Elems(c.stack), before + {c.id} + Ids(log)); }
    }
  }

  /** Closing the attempt. */
  lemma CloseIsCall(w: Stored, reliable: bool, a: Snapshot, s: Snapshot, id: Id, log: seq<Attempt>)
    requires Sound(w, a) && id !in a.visited && id in s.visited
    requires var open := a.visited - a.finished + {id}; Call(w, reliable, a, s, open, open, log)
    ensures var open := a.visited - a.finished;
            Call(w, reliable, a, s.(finished := s.finished + {id}), open + {id}, open, log)
  {
    ConsistentLater(log, s.tracks, s.tracks, s.finished, s.finished + {id});
    assert s.visited - (s.finished + {id}) == (s.visited - s.finished) - {id};
  }

  // ---------------------------------------------------------------------------------------------
  // Cycles in the references

  /** The references lead from the first playlist of the chain to the last, and from there to the first. */
  ghost predicate Cycle(chain: seq<Id>, refs: References) {
    chain != [] && Chain(chain, refs) && chain[|chain| - 1] in refs && chain[0] in refs[chain[|chain| - 1]]
  }

  ghost predicate OnCycle(id: Id, refs: References) {
    exists chain: seq<Id> :: Cycle(chain, refs) && EndsWith(chain, id)
  }

  /** Only a cycle can leave a reference unfinished: the references lead from it back to the playlist. */
  lemma UnfinishedIsOnCycle(c: Attempt, w: Stored, reliable: bool, child: Id) returns (cycle: seq<Id>)
    requires Made(c, w, reliable) && Evaluates(c.outcome) && child in w.refs[c.id] && child !in c.finished
    ensures Cycle(cycle, w.refs) && cycle[0] == child && EndsWith(cycle, c.id)
  {
    var i :| 0 <= i < |c.stack| && c.stack[i] == child;
    cycle := c.stack[i..];
    forall j: nat | j < |cycle| - 1 ensures Link(cycle, j, w.refs) {
      assert Link(c.stack, i + j, w.refs);
    }
  }

  /** What a whole run from root promises of its log and of the tracks it leaves. */
  ghost predicate LeftByRun(w: Stored, root: Id, reliable: bool, log: seq<Attempt>, tracks: Tracks) {
    && WellFormed(w) && GoodLog(log, w, reliable, {root}, {}) && Consistent(log, tracks, Ids(log))
    && tracks == TracksAfter(w, w.tracks, log)
  }

  lemma AttemptOfRun(w: Stored, root: Id, reliable: bool, log: seq<Attempt>, tracks: Tracks, k: nat)
    requires LeftByRun(w, root, reliable, log, tracks) && k < |log|
    ensures Made(log[k], w, reliable) && root in Elems(log[k].stack) && Elems(log[k].stack) <= Ids(log)
    ensures log[k].finished <= Ids(log) && SameTracks(log[k].tracks, tracks, log[k].finished)
  {
    assert GoodAt(log, k, w, reliable, {root}, {} + Ids(log)) && ConsistentAt(log, k, tracks, Ids(log));
  }

  /** Whenever the rules of a playlist on no cycle are evaluated, every playlist it references has already
      finished its refresh attempt.  Other playlists may be on cycles. */
  lemma AcyclicReferencesFinished(w: Stored, root: Id, reliable: bool, log: seq<Attempt>, tracks: Tracks)
    requires LeftByRun(w, root, reliable, log, tracks)
    ensures forall k :: 0 <= k < |log| && Evaluates(log[k].outcome) && !OnCycle(log[k].id, w.refs) ==>
              log[k].id in w.refs && w.refs[log[k].id] <= log[k].finished
  {
    forall k, child | 0 <= k < |log| && Evaluates(log[k].outcome) && log[k].id in w.refs
                      && child in w.refs[log[k].id] && child !in log[k].finished
      ensures OnCycle(log[k].id, w.refs)
    {
      AttemptOfRun(w, root, reliable, log, tracks, k);
      var cycle := UnfinishedIsOnCycle(log[k], w, reliable, child);
    }
    forall k | 0 <= k < |log| ensures Made(log[k], w, reliable) { AttemptOfRun(w, root, reliable, log, tracks, k); }
  }

  /** The playlist's tracks are what its rules select from the tracks its references have. */
  ghost predicate UpToDate(id: Id, w: Stored, tracks: Tracks) {
    id in w.refs && id in tracks && tracks[id] == w.evaluate(id, Inputs(tracks, w.refs[id]))
  }

  /** What a filling attempt stored is still there when the run is over. */
  lemma StoredInTheEnd(w: Stored, root: Id, reliable: bool, log: seq<Attempt>, tracks: Tracks, k: nat)
    requires LeftByRun(w, root, reliable, log, tracks) && k < |log| && Fills(log[k].outcome)
    ensures log[k].id in w.refs && log[k].id in tracks
    ensures tracks[log[k].id] == w.evaluate(log[k].id, Inputs(log[k].tracks, w.refs[log[k].id]))
  {
    AttemptOfRun(w, root, reliable, log, tracks, k);
    LeftByAttempt(w, w.tracks, w.evaluatedAt, log, k);
  }

  /** When a run is over, the tracks that every attempt on a playlist on no cycle stored are what its rules
      select from the tracks its references have in the end. */
  lemma AcyclicIsConsistent(w: Stored, root: Id, reliable: bool, log: seq<Attempt>, tracks: Tracks)
    requires LeftByRun(w, root, reliable, log, tracks)
    ensures forall k :: 0 <= k < |log| && Fills(log[k].outcome) && !OnCycle(log[k].id, w.refs) ==>
              UpToDate(log[k].id, w, tracks)
  {
    AcyclicReferencesFinished(w, root, reliable, log, tracks);
    forall k | 0 <= k < |log| && Fills(log[k].outcome) && !OnCycle(log[k].id, w.refs)
      ensures UpToDate(log[k].id, w, tracks)
    {
      StoredInTheEnd(w, root, reliable, log, tracks, k);
      AttemptOfRun(w, root, reliable, log, tracks, k);
      assert Inputs(log[k].tracks, w.refs[log[k].id]) == Inputs(tracks, w.refs[log[k].id]);
    }
  }

  /** A world of these references, all its playlists due and empty, in which the rules of id select
      nothing once the playlist first has tracks. */
  function Contrary(refs: References, id: Id, first: Id): Stored {
    Stored("", map x | x in refs :: Playlist(true, "", 0), refs, map x | x in refs :: None, map x | x in refs :: [],
           (x: Id, seen: Tracks) => if x == id && first in seen && seen[first] != [] then [] else ["new"])
  }

  lemma ContraryIsDue(refs: References, id: Id, first: Id)
    requires Closed(refs, refs.Keys)
    ensures WellFormed(Contrary(refs, id, first))
    ensures forall x, now: int :: x in refs ==> DueAt(Contrary(refs, id, first), x, now)
  {
  }

  ghost predicate ClosedUnder(refs: References, ids: set<Id>) { forall x :: x in ids && x in refs ==> refs[x] <= ids }

  ghost predicate AllFilled(log: seq<Attempt>) { forall k :: 0 <= k < |log| ==> Fills(log[k].outcome) }

  /** Without failures every attempt comes to its end, when all playlists are due at any time. */
  lemma AllDueAllFilled(w: Stored, root: Id, log: seq<Attempt>, tracks: Tracks)
    requires LeftByRun(w, root, true, log, tracks) && forall x, now: int :: x in w.refs ==> DueAt(w, x, now)
    ensures AllFilled(log)
  {
    forall k | 0 <= k < |log| ensures Fills(log[k].outcome) {
      AttemptOfRun(w, root, true, log, tracks, k);
    }
  }

  /** When every attempt came to its end, the references of every visited playlist have been visited. */
  lemma VisitedIsClosed(w: Stored, root: Id, reliable: bool, log: seq<Attempt>, tracks: Tracks)
    requires LeftByRun(w, root, reliable, log, tracks) && AllFilled(log)
    ensures ClosedUnder(w.refs, Ids(log))
  {
    forall x | x in Ids(log) && x in w.refs ensures w.refs[x] <= Ids(log) {
      var k :| 0 <= k < |log| && log[k].id == x;
      AttemptOfRun(w, root, reliable, log, tracks, k);
    }
  }

  lemma {:induction false} ChainStaysInside(chain: seq<Id>, i: nat, refs: References, ids: set<Id>)
    requires ClosedUnder(refs, ids) && Chain(chain, refs) && i < |chain| && chain[0] in ids
    ensures chain[i] in ids
    decreases i
  {
    if i > 0 {
      ChainStaysInside(chain, i - 1, refs, ids);
      assert Link(chain, i - 1, refs);
    }
  }

  /** An attempt that stored tracks while the attempt on first was open stored new ones. */
  lemma StoredWhileOpen(refs: References, last: Id, first: Id, log: seq<Attempt>, tracks: Tracks, k: nat)
    requires LeftByRun(Contrary(refs, last, first), first, true, log, tracks) && k < |log| && Fills(log[k].outcome)
    ensures log[k].id in tracks && tracks[log[k].id] == ["new"]
  {
    var w := Contrary(refs, last, first);
    StoredInTheEnd(w, first, true, log, tracks, k);
    AttemptOfRun(w, first, true, log, tracks, k);
  }

  /** While the first playlist of a cycle is open it has no tracks, so what the last one stores then is out
      of date when the first one has been filled. */
  lemma CycleIsStale(refs: References, chain: seq<Id>, log: seq<Attempt>, tracks: Tracks)
    requires Closed(refs, refs.Keys) && Cycle(chain, refs) && chain[0] in Ids(log)
    requires LeftByRun(Contrary(refs, chain[|chain| - 1], chain[0]), chain[0], true, log, tracks)
    ensures !UpToDate(chain[|chain| - 1], Contrary(refs, chain[|chain| - 1], chain[0]), tracks)
  {
    var first, last := chain[0], chain[|chain| - 1];
    var w := Contrary(refs, last, first);
    ContraryIsDue(refs, last, first);
    AllDueAllFilled(w, first, log, tracks);
    VisitedIsClosed(w, first, true, log, tracks);
    ChainStaysInside(chain, |chain| - 1, refs, Ids(log));
    forall x | x == first || x == last ensures x in tracks && tracks[x] == ["new"] {
      var k :| 0 <= k < |log| && log[k].id == x;
      StoredWhileOpen(refs, last, first, log, tracks, k);
    }
    assert Inputs(tracks, refs[last])[first] == ["new"];
  }

  // ---------------------------------------------------------------------------------------------
  // The recursion

  class Refresher {
    const w: Stored
    const reliable: bool       // no database call fails
    var evaluatedAt: map<Id, Option<int>>
    var tracks: Tracks
    var visited: set<Id>
    ghost var finished: set<Id>

    constructor (w: Stored, reliable: bool)
      requires WellFormed(w)
      ensures Valid() && this.w == w && this.reliable == reliable && Now() == Start(w)
    {
      this.w, this.reliable, evaluatedAt, tracks := w, reliable, w.evaluatedAt, w.tracks;
      visited, finished := {}, {};
    }

    ghost function Now(): Snapshot reads this { Snapshot(visited, finished, tracks, evaluatedAt) }

    ghost predicate Valid() reads this { Sound(w, Now()) }

    /** What the caller read with the playlist is its evaluation time before the run, unless visited. */
    ghost predicate Loaded(id: Id, loadedAt: Option<int>) reads this {
      id in w.evaluatedAt && (id !in visited ==> loadedAt == w.evaluatedAt[id])
    }

    /** The chain of the attempts that are open, their tracks deleted. */
    ghost predicate Open(stack: seq<Id>) reads this {
      Elems(stack) == visited - finished && Chain(stack, w.refs) && Emptied(visited - finished, tracks)
    }

    /** What the calls since a have left, the same attempts being open. */
    ghost predicate Since(a: Snapshot, stack: seq<Id>, log: seq<Attempt>) reads this {
      Valid() && Open(stack) && Call(w, reliable, a, Now(), Elems(stack), Elems(stack), log)
    }

    /** Terminates on every reference graph, cycles included, and attempts each playlist at most once.
        loadedAt is the evaluation time the caller read with the playlist. */
    method RefreshTree(id: Id, loadedAt: Option<int>, ghost stack: seq<Id>)
      returns (refreshed: bool, ghost log: seq<Attempt>)
      requires Valid() && Loaded(id, loadedAt) && Open(stack) && Extends(stack, id, w.refs)
      modifies this
      ensures Valid() && Call(w, reliable, old(Now()), Now(), Elems(stack) + {id}, Elems(stack), log)
      ensures id in visited && (refreshed <==> id in StampedIds(log))
      ensures id in old(visited) ==> !refreshed && Now() == old(Now())
      decreases |w.playlists.Keys - visited|, 1
    {
      if id in visited {
        NothingIsCall(w, reliable, Now(), Elems(stack) + {id});
        return false, [];
      }
      refreshed, log := Visit(id, loadedAt, stack);
    }

    method Visit(id: Id, loadedAt: Option<int>, ghost stack: seq<Id>)
      returns (refreshed: bool, ghost log: seq<Attempt>)
      requires Valid() && Loaded(id, loadedAt) && Open(stack) && Extends(stack, id, w.refs) && id !in visited
      modifies this
      ensures Valid() && Call(w, reliable, old(Now()), Now(), Elems(stack) + {id}, Elems(stack), log)
      ensures id in visited && (refreshed <==> id in StampedIds(log))
      decreases |w.playlists.Keys - visited|, 0
    {
      ghost var a := Now();
      ghost var chain := ChainGrows(stack, id, w.refs);
      MarkVisited(id);
      refreshed, log := Refresh(id, loadedAt, chain, a);
      CloseIsCall(w, reliable, a, Now(), id, log);
      Close(id);
    }

    method MarkVisited(id: Id)
      requires Valid() && id in w.playlists && id !in visited
      modifies this`visited
      ensures Valid() && Now() == Opened(old(Now()), id)
      ensures |w.playlists.Keys - visited| < old(|w.playlists.Keys - visited|)
    {
      OpensOne(w.playlists.Keys, visited, id);
      OpenedIsSound(w, Now(), id);
      visited := visited + {id};
    }

    ghost method Close(id: Id)
      requires Valid() && id in visited
      modifies this`finished
      ensures Valid() && Now() == old(Now()).(finished := old(finished) + {id})
    {
      finished := finished + {id};
    }

    /** The body of the visit, between marking the playlist visited and closing its attempt; a is what was
        before the mark. */
    method Refresh(id: Id, loadedAt: Option<int>, ghost stack: seq<Id>, ghost a: Snapshot)
      returns (refreshed: bool, ghost log: seq<Attempt>)
      requires Valid() && Sound(w, a) && id !in a.visited && Now() == Opened(a, id)
      requires id in w.playlists && loadedAt == w.evaluatedAt[id] && Emptied(a.visited - a.finished, tracks)
      requires Elems(stack) == a.visited - a.finished + {id} && Chain(stack, w.refs) && EndsWith(stack, id)
      modifies this
      ensures Valid() && Call(w, reliable, a, Now(), Elems(stack), Elems(stack), log)
      ensures refreshed <==> id in StampedIds(log)
      decreases |w.playlists.Keys - visited|, 6
    {
      var now: int := *;
      var failed := DatabaseError();       // deleting the old tracks failed
      DueIff(w, id, now);
      if !ShouldRefresh(w.playlists[id], loadedAt, w.user, now) || failed {
        log := SkipIsCall(w, reliable, a, id, now, stack);
        return false, log;
      }
      DeleteTracks(id, stack, a);
      refreshed, log := RefreshDue(id, now, stack, a);
    }

    method DeleteTracks(id: Id, ghost stack: seq<Id>, ghost a: Snapshot)
      requires Sound(w, a) && id in w.playlists && id !in a.visited && Now() == Opened(a, id)
      requires Emptied(a.visited - a.finished, tracks)
      requires Elems(stack) == a.visited - a.finished + {id} && Chain(stack, w.refs)
      modifies this`tracks
      ensures Valid() && Now() == Cleared(a, id) && Open(stack)
    {
      OpenedIsSound(w, a, id);
      tracks := tracks[id := []];
    }

    /** A refresh that is due, once the old tracks are deleted. */
    method RefreshDue(id: Id, now: int, ghost stack: seq<Id>, ghost a: Snapshot)
      returns (refreshed: bool, ghost log: seq<Attempt>)
      requires Valid() && Sound(w, a) && id !in a.visited && Now() == Cleared(a, id)
      requires id in w.playlists && DueAt(w, id, now) && Open(stack) && EndsWith(stack, id)
      modifies this
      ensures Valid() && Call(w, reliable, a, Now(), Elems(stack), Elems(stack), log)
      ensures refreshed <==> id in StampedIds(log)
      decreases |w.playlists.Keys - visited|, 5
    {
      var ok, children := RefreshChildPlaylists(id, stack);
      refreshed, log := Complete(id, now, ok, stack, a, children);
    }

    /** The rest, once the references have had their calls. */
    method Complete(id: Id, now: int, ok: bool, ghost stack: seq<Id>, ghost a: Snapshot, ghost children: seq<Attempt>)
      returns (refreshed: bool, ghost log: seq<Attempt>)
      requires Sound(w, a) && id in w.playlists && id !in a.visited && DueAt(w, id, now) && EndsWith(stack, id)
      requires Since(Cleared(a, id), stack, children) && Elems(stack) == a.visited - a.finished + {id}
      requires (reliable ==> ok) && (ok ==> w.refs[id] <= finished + Elems(stack))
      modifies this`tracks, this`evaluatedAt
      ensures Valid() && Call(w, reliable, a, Now(), Elems(stack), Elems(stack), log)
      ensures refreshed <==> id in StampedIds(log)
    {
      ghost var s, outcome := Now(), Deleted;
      assert tracks[id] == [] by { assert id in Elems(stack); }
      refreshed := false;
      var failed := DatabaseError();       // resolving the limit or building the query failed
      if ok && !failed { refreshed, outcome := StoreTracks(id); }
      log := EndAttempt(w, reliable, a, s, children, Attempt(id, now, finished, stack, s.tracks, outcome), Now());
    }

    /** Evaluates the rules and stores the tracks and the evaluation time, as far as no call fails. */
    method StoreTracks(id: Id) returns (refreshed: bool, ghost outcome: Outcome)
      requires Valid() && id in visited && tracks[id] == []
      modifies this`tracks, this`evaluatedAt
      ensures Valid() && Evaluates(outcome) && (reliable ==> outcome.Stamped?) && (refreshed <==> outcome.Stamped?)
      ensures tracks == old(tracks)[id := if Fills(outcome) then w.evaluate(id, Inputs(old(tracks), w.refs[id]))
                                    else []]
      ensures evaluatedAt == if outcome.Stamped? then old(evaluatedAt)[id := Some(outcome.at)] else old(evaluatedAt)
    {
      outcome := Evaluated;
      var failed := DatabaseError();
      if failed { return false, outcome; }     // inserting the tracks failed
      tracks := tracks[id := w.evaluate(id, Inputs(tracks, w.refs[id]))];
      outcome := Filled;
      failed := DatabaseError();
      if failed { return false, outcome; }     // updating the counters or the evaluation time failed
      var stamp: int := *;
      evaluatedAt := evaluatedAt[id := Some(stamp)];
      return true, Stamped(stamp);
    }

    method DatabaseError() returns (failed: bool)
      ensures reliable ==> !failed
    {
      failed := *;
      failed := failed && !reliable;
    }

    method RefreshChildPlaylists(id: Id, ghost stack: seq<Id>) returns (ok: bool, ghost log: seq<Attempt>)
      requires Valid() && id in w.playlists && Open(stack) && EndsWith(stack, id)
      modifies this
      ensures Since(old(Now()), stack, log) && (reliable ==> ok) && (ok ==> w.refs[id] <= finished + Elems(stack))
      decreases |w.playlists.Keys - visited|, 4
    {
      NothingIsCall(w, reliable, Now(), Elems(stack));
      if w.refs[id] == {} { return true, []; }
      var failed := DatabaseError();
      if failed { return false, []; }      // loading the referenced playlists failed
      log := RefreshChildren(id, map c | c in w.refs[id] :: evaluatedAt[c], stack);
      ok := true;
    }

    ghost predicate AllLoaded(id: Id, children: map<Id, Option<int>>) reads this {
      id in w.refs && children.Keys == w.refs[id] && forall c :: c in children ==> Loaded(c, children[c])
    }

    method RefreshChildren(id: Id, children: map<Id, Option<int>>, ghost stack: seq<Id>)
      returns (ghost log: seq<Attempt>)
      requires Valid() && Open(stack) && EndsWith(stack, id) && AllLoaded(id, children)
      modifies this
      ensures Since(old(Now()), stack, log) && w.refs[id] <= visited
      decreases |w.playlists.Keys - visited|, 3
    {
      log := [];
      NothingIsCall(w, reliable, Now(), Elems(stack));
      ghost var a := Now();
      var pending := children.Keys;
      while pending != {}
        invariant Since(a, stack, log) && AllLoaded(id, children) && pending <= children.Keys
        invariant forall c :: c in children ==> c in pending || c in visited
        invariant |w.playlists.Keys - visited| <= old(|w.playlists.Keys - visited|)
        decreases |pending|
      {
        var c :| c in pending;
        log := RefreshChild(c, id, children, stack, a, log);
        pending := pending - {c};
      }
    }

    method RefreshChild(c: Id, id: Id, children: map<Id, Option<int>>, ghost stack: seq<Id>, ghost a: Snapshot,
                        ghost log0: seq<Attempt>)
      returns (ghost log: seq<Attempt>)
      requires Since(a, stack, log0) && AllLoaded(id, children) && c in children && EndsWith(stack, id)
      modifies this
      ensures Since(a, stack, log) && AllLoaded(id, children) && old(visited) + {c} <= visited
      ensures |w.playlists.Keys - visited| <= old(|w.playlists.Keys - visited|)
      decreases |w.playlists.Keys - visited|, 2
    {
      var done, more := RefreshTree(c, children[c], stack);
      VisitedKept(w, old(tracks), tracks, more, old(visited));
      SubsetCard(w.playlists.Keys - visited, old(w.playlists.Keys - visited));
      CallsJoin(w, reliable, a, old(Now()), Now(), Elems(stack), c, log0, more);
      log := log0 + more;
    }
  }

  lemma OpensOne(stored: set<Id>, visited: set<Id>, id: Id)
    requires visited <= stored && id in stored - visited
    ensures visited + {id} <= stored && |stored - (visited + {id})| < |stored - visited|
  {
    assert stored - visited == (stored - (visited + {id})) + {id};
  }

  lemma EndAttempt(w: Stored, reliable: bool, a: Snapshot, s: Snapshot, children: seq<Attempt>, c: Attempt,
                   end: Snapshot)
    returns (log: seq<Attempt>)
    requires Sound(w, a) && Sound(w, s) && c.id !in a.visited && Made(c, w, reliable) && !c.outcome.Skipped?
    requires c.finished == s.finished && c.tracks == s.tracks && Elems(c.stack) == a.visited - a.finished + {c.id}
    requires Call(w, reliable, Cleared(a, c.id), s, Elems(c.stack), Elems(c.stack), children) && end == Ended(w, s, c)
    ensures Call(w, reliable, a, end, Elems(c.stack), Elems(c.stack), log)
    ensures c.id in StampedIds(log) <==> c.outcome.Stamped?
  {
    AttemptIsCall(w, reliable, a, s, children, c);
    LastStamped(children, c);
    log := children + [c];
  }

  lemma LastStamped(log: seq<Attempt>, c: Attempt)
    requires c.id !in Ids(log)
    ensures c.id in StampedIds(log + [c]) <==> c.outcome.Stamped?
  {
    assert (log + [c])[|log|] == c;
    assert forall k :: 0 <= k < |log| ==> log[k].id in Ids(log);
  }

  ghost function Start(w: Stored): Snapshot { Snapshot({}, {}, w.tracks, w.evaluatedAt) }

  /** A whole run from one playlist.  The log holds one attempt for each playlist visited, and says all that
      the run changed.  Without failures exactly the playlists that were due when their attempt began are
      filled and stamped. */
  method RefreshSmartPlaylist(w: Stored, id: Id, reliable: bool)
    returns (refreshed: bool, evaluatedAt: map<Id, Option<int>>, tracks: Tracks, ghost log: seq<Attempt>)
    requires WellFormed(w) && id in w.playlists
    ensures LeftByRun(w, id, reliable, log, tracks) && evaluatedAt == TimesAfter(w.evaluatedAt, log)
    ensures id in Ids(log) && (refreshed <==> id in StampedIds(log))
    ensures forall k :: 0 <= k < |log| && !log[k].outcome.Skipped? ==> DueAt(w, log[k].id, log[k].now)
    ensures reliable ==> forall k :: 0 <= k < |log| ==> (log[k].outcome.Stamped? <==> DueAt(w, log[k].id, log[k].now))
  {
    var r := new Refresher(w, reliable);
    assert Elems([]) == {};
    refreshed, log := r.RefreshTree(id, w.evaluatedAt[id], []);
    evaluatedAt, tracks := r.evaluatedAt, r.tracks;
    RunIsLeft(w, reliable, id, r.Now(), log);
    forall k | 0 <= k < |log| ensures Made(log[k], w, reliable) { AttemptOfRun(w, id, reliable, log, tracks, k); }
  }

  lemma RunIsLeft(w: Stored, reliable: bool, id: Id, end: Snapshot, log: seq<Attempt>)
    requires Sound(w, end) && Call(w, reliable, Start(w), end, {} + {id}, {}, log)
    ensures LeftByRun(w, id, reliable, log, end.tracks) && end.visited == Ids(log)
  {
    assert {} + {id} == {id} && {} + Ids(log) == Ids(log);
    assert end.visited - end.finished == {} && end.finished == Ids(log);
  }

  /** Every run without failures from the first playlist of a cycle, in any reference graph, leaves the
      last one out of date, when its rules depend on the first one as they do in this world. */
  method RefreshCycle(refs: References, chain: seq<Id>) returns (tracks: Tracks)
    requires Closed(refs, refs.Keys) && Cycle(chain, refs)
    ensures !UpToDate(chain[|chain| - 1], Contrary(refs, chain[|chain| - 1], chain[0]), tracks)
  {
    var w := Contrary(refs, chain[|chain| - 1], chain[0]);
    ContraryIsDue(refs, chain[|chain| - 1], chain[0]);
    ghost var log;
    var refreshed, evaluatedAt;
    refreshed, evaluatedAt, tracks, log := RefreshSmartPlaylist(w, chain[0], true);
    CycleIsStale(refs, chain, log, tracks);
  }
}
