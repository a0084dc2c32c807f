/**
 * Every interleaving of enqueuers, purgers and workers on the artwork queue.  Each step is one
 * statement.  An Enqueue carries the clock reading it was stamped with, which may be older than the
 * moment its statement lands; the theorems assume only that no statement writes into a row a retry_at
 * that some worker has read from that row before.
 */
module ArtworkProtocol {
  import opened ArtworkTypes
  import opened ArtworkQueue

  /** A worker's copy of a row: its key and the retry_at it saw. */
  datatype Held = Held(key: Key, seen: int)

  /** The table, every copy a worker has read, and the history the theorems speak of: the time of each
      row's last reading, the failures applied to it since its last fresh start, and the row versions on
      which an outcome has been applied. */
  datatype State = State(now: int, rows: Rows, held: set<Held>, readAt: map<Key, int>, failures: map<Key, nat>,
                         settled: set<Held>)

  datatype Step =
    | Enqueue(mode: OnConflict, items: seq<Item>, stamp: int)
    | Dequeue(batch: set<Key>)
    | Fail(held: Held, retryAt: int, trace: string)
    | Complete(held: Held)
    | Purge(keys: set<Key>)

  /** The keys whose retry_at an insert writes: all of them when it restarts, else only the new ones. */
  ghost function Written(rows: Rows, mode: OnConflict, items: seq<Item>): set<Key> {
    if mode == Restart then KeysOf(items) else KeysOf(items) - rows.Keys
  }

  ghost function Next(s: State, t: int, step: Step): State {
    match step
    case Enqueue(mode, items, stamp) =>
      s.(now := t, rows := UpsertAll(s.rows, mode, items, stamp),
         failures := s.failures + map k | k in Written(s.rows, mode, items) :: 0)
    case Dequeue(batch) =>
      s.(now := t, held := s.held + set k | k in batch && k in s.rows :: Held(k, s.rows[k].retryAt),
         readAt := s.readAt + map k | k in batch && k in s.rows :: t)
    case Fail(h, retryAt, trace) =>
      var applied := Unchanged(s.rows, h.key, h.seen);
      s.(now := t, rows := FailRow(s.rows, h.key, h.seen, retryAt, trace),
         failures := if applied && h.key in s.failures then s.failures[h.key := s.failures[h.key] + 1] else s.failures,
         settled := if applied then s.settled + {h} else s.settled)
    case Complete(h) =>
      s.(now := t, rows := DeleteRow(s.rows, h.key, h.seen),
         settled := if Unchanged(s.rows, h.key, h.seen) then s.settled + {h} else s.settled)
    case Purge(keys) => s.(now := t, rows := s.rows - keys)
  }

  /** The row versions a step writes. */
  ghost function Writes(s: State, step: Step): set<Held> {
    match step
    case Enqueue(mode, items, stamp) => set k | k in Written(s.rows, mode, items) :: Held(k, stamp)
    case Fail(h, retryAt, _) => if Unchanged(s.rows, h.key, h.seen) then {Held(h.key, retryAt)} else {}
    case _ => {}
  }

  /** DequeueBatch returns due rows, and workers settle copies they hold. */
  ghost predicate Possible(s: State, t: int, step: Step) {
    match step
    case Dequeue(batch) => forall k :: k in batch ==> k in s.rows && Due(s.rows, k, t, {})
    case Fail(h, _, _) => h in s.held
    case Complete(h) => h in s.held
    case _ => true
  }

  /** What the actors guarantee: besides, what is written into a row's retry_at has not been read from it. */
  ghost predicate Enabled(s: State, t: int, step: Step) { Possible(s, t, step) && Writes(s, step) !! s.held }

  ghost predicate Inv(s: State) {
    && (forall k :: k in s.rows ==> k in s.failures && s.rows[k].attempts == s.failures[k])
    && (forall h :: h in s.settled ==> h in s.held && !Unchanged(s.rows, h.key, h.seen))
  }

  ghost predicate Initial(s: State) { s.rows == map[] && s.held == {} && s.settled == {} }

  /** The row is no longer the version the copy was read from. */
  ghost predicate Superseded(s: State, h: Held) { h in s.held && !Unchanged(s.rows, h.key, h.seen) }

  lemma {:induction false} UpsertAllAt(rows: Rows, mode: OnConflict, items: seq<Item>, t: int, k: Key)
    ensures var after := UpsertAll(rows, mode, items, t);
            && (k in after <==> k in rows || k in KeysOf(items))
            && (k in Written(rows, mode, items) ==> after[k].retryAt == t && after[k].attempts == 0)
            && (k in rows && k !in Written(rows, mode, items) ==>
                  after[k].retryAt == rows[k].retryAt && after[k].attempts == rows[k].attempts)
            && (k in rows ==> after[k].priority >= rows[k].priority)
  {
    if items != [] {
      UpsertAllAt(rows, mode, items[..|items| - 1], t, k);
      KeysOfSnoc(items);
    }
  }

  lemma {:induction false} UpsertAllEffect(rows: Rows, mode: OnConflict, items: seq<Item>, t: int)
    ensures var after := UpsertAll(rows, mode, items, t);
            && (forall k :: k in after <==> k in rows || k in KeysOf(items))
            && (forall k :: k in Written(rows, mode, items) ==>
                k in after && after[k].retryAt == t && after[k].attempts == 0)
            && (forall k :: k in rows && k !in Written(rows, mode, items) ==>
                  after[k].retryAt == rows[k].retryAt && after[k].attempts == rows[k].attempts)
            && (forall k :: k in rows ==> after[k].priority >= rows[k].priority)
  {
    var after := UpsertAll(rows, mode, items, t);
    forall k
      ensures k in after <==> k in rows || k in KeysOf(items)
      ensures k in Written(rows, mode, items) ==> k in after && after[k].retryAt == t && after[k].attempts == 0
      ensures k in rows && k !in Written(rows, mode, items) ==>
                after[k].retryAt == rows[k].retryAt && after[k].attempts == rows[k].attempts
      ensures k in rows ==> after[k].priority >= rows[k].priority
    {
      UpsertAllAt(rows, mode, items, t, k);
    }
  }

  lemma StepKeepsInv(s: State, t: int, step: Step)
    requires Inv(s) && Enabled(s, t, step)
    ensures Inv(Next(s, t, step))
  {
    if step.Enqueue? { UpsertAllEffect(s.rows, step.mode, step.items, step.stamp); }
    forall h | h in s.settled ensures Superseded(Next(s, t, step), h) { StepSupersededIff(s, t, step, h); }
  }

  /** With no assumption on the step: a superseded copy stays superseded, even through deletion and
      re-insertion of the row, if and only if the step does not write its version again. */
  lemma StepSupersededIff(s: State, t: int, step: Step, h: Held)
    requires Superseded(s, h)
    ensures Superseded(Next(s, t, step), h) <==> h !in Writes(s, step)
  {
    if step.Enqueue? { UpsertAllEffect(s.rows, step.mode, step.items, step.stamp); }
  }

  lemma EnqueueSupersedes(s: State, t: int, items: seq<Item>, stamp: int, h: Held)
    requires Enabled(s, t, Enqueue(Restart, items, stamp)) && h in s.held && h.key in KeysOf(items)
    ensures Superseded(Next(s, t, Enqueue(Restart, items, stamp)), h)
  {
    UpsertAllEffect(s.rows, Restart, items, stamp);
    assert Held(h.key, stamp) in Writes(s, Enqueue(Restart, items, stamp));
  }

  /** Applying an outcome supersedes every copy of that row version, whoever holds it. */
  lemma OutcomeSupersedes(s: State, t: int, step: Step, h: Held)
    requires Enabled(s, t, step) && (step == Complete(h) || (step.Fail? && step.held == h))
    requires Unchanged(s.rows, h.key, h.seen)
    ensures Superseded(Next(s, t, step), h)
  {
  }

  // ---------------------------------------------------------------------------------------------
  // Runs

  ghost function RunFrom(s: State, run: seq<(int, Step)>): State
    decreases |run|
  {
    if run == [] then s else RunFrom(Next(s, run[0].0, run[0].1), run[1..])
  }

  ghost predicate Legal(s: State, run: seq<(int, Step)>)
    decreases |run|
  {
    run == [] || (Enabled(s, run[0].0, run[0].1) && Legal(Next(s, run[0].0, run[0].1), run[1..]))
  }

  /** In every run from an empty queue: attempts counts exactly the failures applied since the last
      fresh start, and no settled version is the current one. */
  lemma {:induction false} RunKeepsInv(s: State, run: seq<(int, Step)>)
    requires Inv(s) && Legal(s, run)
    ensures Inv(RunFrom(s, run))
    decreases |run|
  {
    if run != [] {
      StepKeepsInv(s, run[0].0, run[0].1);
      RunKeepsInv(Next(s, run[0].0, run[0].1), run[1..]);
    }
  }

  lemma {:induction false} RunKeepsSuperseded(s: State, run: seq<(int, Step)>, h: Held)
    requires Legal(s, run) && Superseded(s, h)
    ensures Superseded(RunFrom(s, run), h)
    decreases |run|
  {
    if run != [] {
      StepSupersededIff(s, run[0].0, run[0].1, h);
      RunKeepsSuperseded(Next(s, run[0].0, run[0].1), run[1..], h);
    }
  }

  /** The copy is superseded now and after every step of the run. */
  ghost predicate StaysSuperseded(s: State, run: seq<(int, Step)>, h: Held)
    decreases |run|
  {
    Superseded(s, h) && (run == [] || StaysSuperseded(Next(s, run[0].0, run[0].1), run[1..], h))
  }

  ghost predicate NeverWrites(s: State, run: seq<(int, Step)>, h: Held)
    decreases |run|
  {
    run == [] || (h !in Writes(s, run[0].1) && NeverWrites(Next(s, run[0].0, run[0].1), run[1..], h))
  }

  /** Over every run, legal or not: a stale outcome is without effect at every moment if and only if no
      step writes the retry_at it saw into its row again. */
  lemma {:induction false} RunSupersededIff(s: State, run: seq<(int, Step)>, h: Held)
    requires Superseded(s, h)
    ensures StaysSuperseded(s, run, h) <==> NeverWrites(s, run, h)
    decreases |run|
  {
    if run != [] {
      var next := Next(s, run[0].0, run[0].1);
      StepSupersededIff(s, run[0].0, run[0].1, h);
      if Superseded(next, h) { RunSupersededIff(next, run[1..], h); }
    }
  }

  /** Once Enqueue touches a row after a worker read it, that worker's outcome, however much later and
      whatever happens in between, has no effect: the fresh request survives. */
  lemma FreshRequestSurvives(s: State, t: int, items: seq<Item>, stamp: int, run: seq<(int, Step)>, h: Held)
    requires Enabled(s, t, Enqueue(Restart, items, stamp)) && h in s.held && h.key in KeysOf(items)
    requires Legal(Next(s, t, Enqueue(Restart, items, stamp)), run)
    ensures var later := RunFrom(Next(s, t, Enqueue(Restart, items, stamp)), run);
            && DeleteRow(later.rows, h.key, h.seen) == later.rows
            && forall retryAt, trace :: FailRow(later.rows, h.key, h.seen, retryAt, trace) == later.rows
  {
    var restarted := Next(s, t, Enqueue(Restart, items, stamp));
    EnqueueSupersedes(s, t, items, stamp, h);
    RunKeepsSuperseded(restarted, run, h);
  }

  /** Of all the workers holding one row version, at most one outcome is ever applied. */
  lemma AtMostOneOutcome(s: State, t: int, step: Step, run: seq<(int, Step)>, h: Held)
    requires Enabled(s, t, step) && (step == Complete(h) || (step.Fail? && step.held == h))
    requires Unchanged(s.rows, h.key, h.seen)
    requires Legal(Next(s, t, step), run)
    ensures !Unchanged(RunFrom(Next(s, t, step), run).rows, h.key, h.seen)
  {
    OutcomeSupersedes(s, t, step, h);
    RunKeepsSuperseded(Next(s, t, step), run, h);
  }

  /** In every run from an empty queue no row version is settled twice, by whatever copy. */
  lemma VersionSettledOnce(s: State, run: seq<(int, Step)>, h: Held)
    requires Initial(s) && Legal(s, run) && h in RunFrom(s, run).settled
    ensures !Unchanged(RunFrom(s, run).rows, h.key, h.seen)
  {
    RunKeepsInv(s, run);
  }

  ghost predicate Present(s: State, run: seq<(int, Step)>, k: Key)
    decreases |run|
  {
    k in s.rows && (run == [] || Present(Next(s, run[0].0, run[0].1), run[1..], k))
  }

  /** While a row exists its priority never goes down. */
  lemma {:induction false} PriorityNeverDecreases(s: State, run: seq<(int, Step)>, k: Key)
    requires Present(s, run, k)
    ensures k in RunFrom(s, run).rows && RunFrom(s, run).rows[k].priority >= s.rows[k].priority
    decreases |run|
  {
    if run != [] {
      var step := run[0].1;
      if step.Enqueue? { UpsertAllEffect(s.rows, step.mode, step.items, step.stamp); }
      PriorityNeverDecreases(Next(s, run[0].0, step), run[1..], k);
    }
  }

  // ---------------------------------------------------------------------------------------------
  // Clocks

  /** What workers have read was due when they read it. */
  ghost predicate SeenInPast(s: State) {
    forall h :: h in s.held ==> h.key in s.readAt && h.seen <= s.readAt[h.key] <= s.now
  }

  /** A clock that does not run back, failures put off into the future, and an Enqueue stamped after the
      last reading of every row it writes.  Other steps may lie between the stamp and the statement, as
      they do when one Enqueue takes several statements. */
  ghost predicate Clocked(s: State, t: int, step: Step) {
    && s.now <= t && Possible(s, t, step)
    && (step.Fail? ==> step.retryAt > t)
    && (step.Enqueue? ==>
          forall k :: k in Written(s.rows, step.mode, step.items) && k in s.readAt ==> s.readAt[k] < step.stamp)
  }

  ghost predicate ClockedRun(s: State, run: seq<(int, Step)>)
    decreases |run|
  {
    run == [] || (Clocked(s, run[0].0, run[0].1) && ClockedRun(Next(s, run[0].0, run[0].1), run[1..]))
  }

  /** Such a clock is enough: no retry_at that was read is ever written again. */
  lemma {:induction false} ClockedRunIsLegal(s: State, run: seq<(int, Step)>)
    requires SeenInPast(s) && ClockedRun(s, run)
    ensures Legal(s, run) && SeenInPast(RunFrom(s, run))
    decreases |run|
  {
    if run != [] { ClockedRunIsLegal(Next(s, run[0].0, run[0].1), run[1..]); }
  }

  /** The fresh request survives whatever the workers that read the row before it do, by the clock alone. */
  lemma ClockedRequestSurvives(s: State, t: int, items: seq<Item>, stamp: int, run: seq<(int, Step)>, h: Held)
    requires SeenInPast(s) && h in s.held && h.key in KeysOf(items)
    requires Clocked(s, t, Enqueue(Restart, items, stamp))
    requires ClockedRun(Next(s, t, Enqueue(Restart, items, stamp)), run)
    ensures var later := RunFrom(Next(s, t, Enqueue(Restart, items, stamp)), run);
            && DeleteRow(later.rows, h.key, h.seen) == later.rows
            && forall retryAt, trace :: FailRow(later.rows, h.key, h.seen, retryAt, trace) == later.rows
  {
    ClockedRunIsLegal(Next(s, t, Enqueue(Restart, items, stamp)), run);
    FreshRequestSurvives(s, t, items, stamp, run, h);
  }

  /** Every version that was read or is in the table is among those written. */
  ghost predicate Recorded(s: State, written: set<Held>) {
    s.held <= written && forall k :: k in s.rows ==> Held(k, s.rows[k].retryAt) in written
  }

  /** No step of the run writes a row version that is in written or was written by a step before. */
  ghost predicate WritesOnce(s: State, run: seq<(int, Step)>, written: set<Held>)
    decreases |run|
  {
    run == [] ||
    var step := run[0].1;
    && Possible(s, run[0].0, step) && Writes(s, step) !! written
    && WritesOnce(Next(s, run[0].0, step), run[1..], written + Writes(s, step))
  }

  lemma StepKeepsRecorded(s: State, t: int, step: Step, written: set<Held>)
    requires Recorded(s, written)
    ensures Recorded(Next(s, t, step), written + Writes(s, step))
  {
    if step.Enqueue? { UpsertAllEffect(s.rows, step.mode, step.items, step.stamp); }
  }

  /** Whatever the clock: if no retry_at is ever written into a row twice, the run is legal. */
  lemma {:induction false} WritesOnceIsLegal(s: State, run: seq<(int, Step)>, written: set<Held>)
    requires Recorded(s, written) && WritesOnce(s, run, written)
    ensures Legal(s, run)
    decreases |run|
  {
    if run != [] {
      StepKeepsRecorded(s, run[0].0, run[0].1, written);
      WritesOnceIsLegal(Next(s, run[0].0, run[0].1), run[1..], written + Writes(s, run[0].1));
    }
  }

  /** Without any assumption: a copy can still settle the row right after Enqueue stamped it if and only
      if the stamp is the very retry_at the copy saw. */
  lemma StaleOutcomeIff(rows: Rows, items: seq<Item>, stamp: int, k: Key, seen: int)
    requires k in KeysOf(items)
    ensures Unchanged(UpsertAll(rows, Restart, items, stamp), k, seen) <==> stamp == seen
  {
    UpsertAllEffect(rows, Restart, items, stamp);
  }

  /** A row due since 5 is read at 6, and an Enqueue stamped 5, before that reading, lands after it: the
      fresh row is deleted by the worker that never saw it. */
  lemma RepeatedReadingLosesRequest(k: Key)
    requires k.imageType != ""
    ensures var items := [Item(k, 1)];
            var queued := UpsertAll(map[], Restart, items, 5);
            var requeued := UpsertAll(queued, Restart, items, 5);
            Due(queued, k, 6, {}) && k in requeued && k !in DeleteRow(requeued, k, queued[k].retryAt)
  {
    var items := [Item(k, 1)];
    assert items[..0] == [];
  }
}
