/** The playlist operations: each refines a plain operation on the list of media file ids, and a run
    of any of them keeps a regular playlist's positions exactly 1..n. */
module PlaylistRepository {
  import opened Sequences
  import opened PlaylistPositions
  import opened PlaylistTracks

  function Max(a: int, b: int): int { if a < b then b else a }
  function Min(a: int, b: int): int { if a < b then a else b }

  /** Where ids inserted at a position start: first up to position 1, last past the end. */
  ghost function InsertIndex(position: int, len: nat): (at: nat)
    ensures at <= len
  {
    if position <= 1 then 0 else if position > len then len else position - 1
  }

  /** The position a track is moved to: the nearest one of the list. */
  ghost function MoveTarget(newPosition: int, len: nat): int {
    if newPosition > len then len else if newPosition < 1 && len > 0 then 1 else newPosition
  }

  method Add(t: PlaylistTable, pid: string, ids: seq<string>, access: Access) returns (r: Outcome)
    requires t.Valid() && Regular(t.rows, pid)
    modifies t
    ensures t.Valid() && Others(t.rows, pid) == old(Others(t.rows, pid))
    ensures ids == [] ==> r == Done(0) && t.rows == old(t.rows)
    ensures var s, added := old(Contents(t.rows, pid)), Accessible(ids, access);
            ids != [] ==>
              && (|s| < MAX_INT32 ==> r == Done(|added|) && Listed(t.rows, pid) == ListPairs(s + added))
              && (|s| == MAX_INT32 ==> Wrapped(s, added, t.rows, pid, r))
              && (|s| > MAX_INT32 ==> r == ScanError && t.rows == old(t.rows))
  {
    if |ids| == 0 { return Done(0); }
    ghost var s, added := Contents(t.rows, pid), Accessible(ids, access);
    var last := LastPosition(t, pid, s);
    if last > MAX_INT32 { return ScanError; }
    AppendIsFree(s, added);
    r := t.AddTracks(pid, WrapInt32(last + 1), ids, access);
    if |s| == MAX_INT32 { assert added != [] ==> (MIN_INT32 + 0, added[0]) in Placed(MIN_INT32, added); }
  }

  /** Appending at the 32-bit limit: the tracks land from the least position on, before all others, and
      fail when they reach position 1. */
  ghost predicate Wrapped(s: seq<string>, added: seq<string>, rows: Rows, pid: string, r: Outcome) {
    if |added| <= 1 - MIN_INT32
    then
      && r == Done(|added|) && Listed(rows, pid) == ListPairs(s) + Placed(MIN_INT32, added)
      && (added != [] ==> !Regular(rows, pid))
    else r == ConstraintError
  }

  lemma AppendIsFree(s: seq<string>, added: seq<string>)
    ensures Free(ListPairs(s), |s| + 1, |added|)
    ensures ListPairs(s) + Placed(|s| + 1, added) == ListPairs(s + added)
    ensures |s| > 0 ==> (Free(ListPairs(s), MIN_INT32, |added|) <==> |added| <= 1 - MIN_INT32)
  {
    ListPairsPositions(s);
    assert |s| > 0 ==> 1 in Positions(ListPairs(s));
    PlacedFromOne(s);
    PlacedConcat(1, s, added);
    PlacedFromOne(s + added);
  }

  /** max(id) of a regular playlist, 0 when it is empty. */
  method LastPosition(t: PlaylistTable, pid: string, ghost s: seq<string>) returns (last: int)
    requires t.Valid() && Listed(t.rows, pid) == ListPairs(s)
    ensures last == |s|
  {
    ListPairsPositions(s);
    assert |s| > 0 ==> |s| in Positions(ListPairs(s));
    assert s == [] ==> ListPairs(s) == {};
    var empty;
    empty, last := t.MaxPosition(pid);
    if empty { last := 0; }
  }

  method Insert(t: PlaylistTable, pid: string, ids: seq<string>, position: int, access: Access) returns (r: Outcome)
    requires t.Valid() && Regular(t.rows, pid)
    modifies t
    ensures t.Valid() && Others(t.rows, pid) == old(Others(t.rows, pid))
    ensures ids == [] ==> r == Done(0) && t.rows == old(t.rows)
    ensures var s, added := old(Contents(t.rows, pid)), Accessible(ids, access);
            var at := InsertIndex(position, |s|);
            ids != [] ==>
              && (at < |s| || |s| < MAX_INT32 ==>
                    r == Done(|added|) && Listed(t.rows, pid) == ListPairs(s[..at] + added + s[at..]))
              && (at == |s| == MAX_INT32 ==> Wrapped(s, added, t.rows, pid, r))
              && (at == |s| > MAX_INT32 ==> r == ScanError && Listed(t.rows, pid) == ListPairs(s))
  {
    if |ids| == 0 { return Done(0); }
    ghost var s, added := Contents(t.rows, pid), Accessible(ids, access);
    var pos, n := Max(position, 1), |ids|;
    var ok, shifted := OpenGap(t, pid, pos, n, s);
    if !ok { return ConstraintError; }
    if !shifted {
      ContentsAre(t.rows, pid, s);
      assert s[..|s|] + added + s[|s|..] == s + added;
      r := Add(t, pid, ids, access);
      return;
    }
    RoomIsFree(s, pos, n, |added|);
    AccessibleLength(ids, access);
    FillRoom(s[..pos - 1], added, s[pos - 1..], n);
    r := t.AddTracks(pid, pos, ids, access);
    if !r.Done? || r.n == n { return; }
    ok := t.Renumber(pid);
    if !ok { return ConstraintError; }
  }

  /** Shifts the tracks from pos on n positions down, through the negative numbers. */
  method OpenGap(t: PlaylistTable, pid: string, pos: int, n: nat, ghost s: seq<string>)
    returns (ok: bool, shifted: bool)
    requires t.Valid() && Listed(t.rows, pid) == ListPairs(s) && pos >= 1
    modifies t`rows
    ensures t.Valid() && Others(t.rows, pid) == old(Others(t.rows, pid))
    ensures ok && (shifted <==> pos <= |s|)
    ensures Listed(t.rows, pid) ==
              if shifted then Placed(1, s[..pos - 1]) + Placed(pos + n, s[pos - 1..]) else ListPairs(s)
  {
    GapIsSafe(s, pos, n);
    ok, shifted := t.Update(pid, AtLeast(pos), ShiftedBy(n));
    if pos > |s| { ShiftNothing(s, pos, n); } else { MakeRoom(s, pos, n); ShiftSomething(s, pos, n); }
    ok, shifted := t.Update(pid, Negative(), Negate());
  }

  lemma GapIsSafe(s: seq<string>, pos: int, n: nat)
    requires pos >= 1
    ensures SafeStep(Positions(ListPairs(s)), AtLeast(pos), ShiftedBy(n))
    ensures var middle := PosImage(ListPairs(s), Step(AtLeast(pos), ShiftedBy(n)));
            && SafeStep(Positions(middle), Negative(), Negate())
            && forall p :: p in Positions(middle) && Negative()(p) ==> pos <= |s|
  {
    ListPairsPositions(s);
  }

  lemma ShiftNothing(s: seq<string>, pos: int, n: nat)
    requires pos > |s|
    ensures PosImage(ListPairs(s), Step(AtLeast(pos), ShiftedBy(n))) == ListPairs(s)
    ensures PosImage(ListPairs(s), Step(Negative(), Negate())) == ListPairs(s)
  {
  }

  lemma ShiftSomething(s: seq<string>, pos: int, n: nat)
    requires 1 <= pos <= |s|
    ensures -(pos + n) in Positions(PosImage(ListPairs(s), Step(AtLeast(pos), ShiftedBy(n)))) && Negative()(-(pos + n))
  {
    assert (pos - 1 + 1, s[pos - 1]) in ListPairs(s);
    var x := (Step(AtLeast(pos), ShiftedBy(n))(pos), s[pos - 1]);
    assert x in PosImage(ListPairs(s), Step(AtLeast(pos), ShiftedBy(n)));
  }

  lemma RoomIsFree(s: seq<string>, pos: int, n: nat, m: nat)
    requires 1 <= pos <= |s|
    ensures m <= n ==> Free(Placed(1, s[..pos - 1]) + Placed(pos + n, s[pos - 1..]), pos, m)
  {
  }

  lemma {:induction false} PickLength<T>(s: seq<T>, keep: seq<bool>)
    requires |s| == |keep|
    ensures |Pick(s, keep)| <= |s|
  {
    if s != [] { PickLength(s[..|s| - 1], keep[..|s| - 1]); }
  }

  lemma AccessibleLength(ids: seq<string>, access: Access)
    ensures |Accessible(ids, access)| <= |ids|
  {
    PickLength(ids, seq(|ids|, i requires 0 <= i < |ids| => Allowed(access, ids[i])));
  }

  // ---------------------------------------------------------------------------------------------
  // Reorder

  /** The four statements, with no rollback of their own.  They succeed in every row order unless the
      shift meets the sentinel, and then they fail in every row order. */
  method Reorder(t: PlaylistTable, pid: string, pos: int, newPosition: int) returns (r: Outcome)
    requires t.Valid() && Regular(t.rows, pid)
    modifies t`rows
    ensures t.Valid() && Others(t.rows, pid) == old(Others(t.rows, pid))
    ensures var s := old(Contents(t.rows, pid));
            if |s| > MAX_INT32 then r == ScanError && t.rows == old(t.rows)
            else if !(1 <= pos <= |s|) then r == NotFound && t.rows == old(t.rows)
            else
              var newPos := MoveTarget(newPosition, |s|);
              if pos == newPos then r == Done(0) && t.rows == old(t.rows)
              else if SentinelHit(pos, newPos) then r == ConstraintError
              else r == Done(0) && Listed(t.rows, pid) == ListPairs(Moved(s, pos, newPos))
  {
    ghost var s := Contents(t.rows, pid);
    var last := LastPosition(t, pid, s);
    if last > MAX_INT32 { return ScanError; }
    if pos < 1 || pos > last { return NotFound; }
    var newPos := Min(Max(newPosition, 1), last);
    if pos == newPos { return Done(0); }
    ReorderSafety(s, pos, newPos);
    var ok, affected := t.Update(pid, At(pos), To(SENTINEL));
    if !ok { return ConstraintError; }
    ok, affected := t.Update(pid, InShiftedRange(pos, newPos), ShiftedNegated(pos, newPos));
    if !ok { return ConstraintError; }
    ok, affected := t.Update(pid, NegativeNotSentinel(), Negate());
    if !ok { return ConstraintError; }
    ReorderSteps(s, pos, newPos);
    ok, affected := t.Update(pid, At(SENTINEL), To(newPos));
    if !ok { return ConstraintError; }
    r := Done(0);
  }

  ghost function AfterClear(s: seq<string>, pos: int): Listing { PosImage(ListPairs(s), ClearSource(pos)) }
  ghost function AfterShift(s: seq<string>, pos: int, newPos: int): Listing {
    PosImage(AfterClear(s, pos), ShiftRange(pos, newPos))
  }
  ghost function AfterFlip(s: seq<string>, pos: int, newPos: int): Listing {
    PosImage(AfterShift(s, pos, newPos), FlipBack())
  }

  lemma ClearedPositions(s: seq<string>, pos: int)
    requires 1 <= pos <= |s|
    ensures forall p :: p in Positions(AfterClear(s, pos)) <==> p == SENTINEL || (1 <= p <= |s| && p != pos)
  {
    forall p | 1 <= p <= |s| ensures ClearSource(pos)(p) in Positions(AfterClear(s, pos)) {
      assert (p - 1 + 1, s[p - 1]) in ListPairs(s);
      var x := (ClearSource(pos)(p), s[p - 1]);
      assert x in AfterClear(s, pos);
    }
    forall p ensures p in Positions(AfterClear(s, pos)) <==> p == SENTINEL || (1 <= p <= |s| && p != pos) {
      if p in Positions(AfterClear(s, pos)) {
        var x :| x in AfterClear(s, pos) && x.0 == p;
        var y :| y in ListPairs(s) && x == (ClearSource(pos)(y.0), y.1);
      }
      assert ClearSource(pos)(pos) == SENTINEL;
      assert p >= 1 && p != pos ==> ClearSource(pos)(p) == p;
    }
  }

  lemma SentinelClash(s: seq<string>, pos: int, newPos: int)
    requires 1 <= pos <= |s| && 1 <= newPos <= |s| && pos != newPos && SentinelHit(pos, newPos)
    ensures ClashingStep(Positions(AfterClear(s, pos)), InShiftedRange(pos, newPos), ShiftedNegated(pos, newPos))
  {
    ClearedPositions(s, pos);
    var p := if pos < newPos then 1000000 else 999998;
    assert p in Positions(AfterClear(s, pos)) && SENTINEL in Positions(AfterClear(s, pos));
    assert InShiftedRange(pos, newPos)(p) && !InShiftedRange(pos, newPos)(SENTINEL);
    assert ShiftedNegated(pos, newPos)(p) == SENTINEL;
  }

  lemma ClearIsSafe(s: seq<string>, pos: int)
    requires 1 <= pos <= |s|
    ensures SafeStep(Positions(ListPairs(s)), At(pos), To(SENTINEL))
  {
  }

  lemma ShiftIsSafe(s: seq<string>, pos: int, newPos: int)
    requires 1 <= pos <= |s| && 1 <= newPos <= |s| && pos != newPos && !SentinelHit(pos, newPos)
    ensures SafeStep(Positions(AfterClear(s, pos)), InShiftedRange(pos, newPos), ShiftedNegated(pos, newPos))
  {
  }

  lemma FlipAndPlaceAreSafe(s: seq<string>, pos: int, newPos: int)
    requires 1 <= pos <= |s| && 1 <= newPos <= |s| && pos != newPos && !SentinelHit(pos, newPos)
    ensures SafeStep(Positions(AfterShift(s, pos, newPos)), NegativeNotSentinel(), Negate())
    ensures SafeStep(Positions(AfterFlip(s, pos, newPos)), At(SENTINEL), To(newPos))
  {
  }

  /** Every statement is safe in every row order, or the second one clashes in every row order. */
  lemma ReorderSafety(s: seq<string>, pos: int, newPos: int)
    requires 1 <= pos <= |s| && 1 <= newPos <= |s| && pos != newPos
    ensures SafeStep(Positions(ListPairs(s)), At(pos), To(SENTINEL))
    ensures SentinelHit(pos, newPos) ==>
              ClashingStep(Positions(AfterClear(s, pos)), InShiftedRange(pos, newPos), ShiftedNegated(pos, newPos))
    ensures !SentinelHit(pos, newPos) ==>
              && SafeStep(Positions(AfterClear(s, pos)), InShiftedRange(pos, newPos), ShiftedNegated(pos, newPos))
              && SafeStep(Positions(AfterShift(s, pos, newPos)), NegativeNotSentinel(), Negate())
              && SafeStep(Positions(AfterFlip(s, pos, newPos)), At(SENTINEL), To(newPos))
  {
    ClearIsSafe(s, pos);
    if SentinelHit(pos, newPos) {
      SentinelClash(s, pos, newPos);
    } else {
      ShiftIsSafe(s, pos, newPos);
      FlipAndPlaceAreSafe(s, pos, newPos);
    }
  }

  /** The service call: Reorder inside a transaction, rolled back on error. */
  method ReorderTrack(t: PlaylistTable, pid: string, pos: int, newPosition: int) returns (r: Outcome)
    requires t.Valid() && Regular(t.rows, pid)
    modifies t`rows
    ensures t.Valid() && Others(t.rows, pid) == old(Others(t.rows, pid))
    ensures Listed(t.rows, pid) == ListPairs(ReorderedList(old(Contents(t.rows, pid)), pos, newPosition))
    ensures r.Done? <==> ReorderSucceeds(old(Contents(t.rows, pid)), pos, newPosition)
  {
    var before := t.rows;
    r := Reorder(t, pid, pos, newPosition);
    if !r.Done? { t.rows := before; }
  }

  ghost predicate ReorderSucceeds(s: seq<string>, pos: int, newPosition: int) {
    var newPos := MoveTarget(newPosition, |s|);
    |s| <= MAX_INT32 && 1 <= pos <= |s| && (pos == newPos || !SentinelHit(pos, newPos))
  }

  ghost function ReorderedList(s: seq<string>, pos: int, newPosition: int): seq<string> {
    var newPos := MoveTarget(newPosition, |s|);
    if ReorderSucceeds(s, pos, newPosition) && pos != newPos then Moved(s, pos, newPos) else s
  }

  /** Where an insertion lands: at its position, else at the nearer end; the others keep their order. */
  lemma InsertLands(s: seq<string>, ids: seq<string>, position: int, access: Access)
    ensures var r, added := Apply(s, InsertAt(ids, position), access), Accessible(ids, access);
            && (position <= 1 ==> r == added + s) && (position > |s| ==> r == s + added)
            && (1 <= position <= |s| ==>
                  |r| == |s| + |added| && r[..position - 1] == s[..position - 1]
                  && r[position - 1..position - 1 + |added|] == added &&
                      r[position - 1 + |added|..] == s[position - 1..])
  {
    var r, added := Apply(s, InsertAt(ids, position), access), Accessible(ids, access);
    if position <= 1 {
      assert r == s[..0] + added + s[0..] && s[..0] + added == added && s[0..] == s;
    } else if position > |s| {
      assert r == s[..|s|] + added + s[|s|..] && s[..|s|] == s && s[|s|..] == [];
    }
  }

  /** Where a move lands: at its new position, else at the nearer end. */
  lemma MoveLands(s: seq<string>, pos: int, newPosition: int, access: Access)
    requires ReorderSucceeds(s, pos, newPosition)
    ensures var r := Apply(s, Move(pos, newPosition), access);
            && multiset(r) == multiset(s) && |r| == |s|
            && (newPosition <= 1 ==> r[0] == s[pos - 1]) && (newPosition >= |s| ==> r[|s| - 1] == s[pos - 1])
            && (1 <= newPosition <= |s| ==> r[newPosition - 1] == s[pos - 1])
  {
    var newPos := MoveTarget(newPosition, |s|);
    if pos != newPos { MovedIsPermutation(s, pos, newPos); }
  }

  /** Below 999,999 tracks no move can fail; at 999,999 the move of the last track to the front does. */
  lemma ReorderBound(s: seq<string>, pos: int, newPosition: int)
    ensures |s| <= 999998 && 1 <= pos <= |s| ==> ReorderSucceeds(s, pos, newPosition)
    ensures |s| == 999999 ==> !ReorderSucceeds(s, 999999, 1)
  {
  }

  // ---------------------------------------------------------------------------------------------
  // Deletes and the full replace

  ghost function KeptMask(s: seq<string>, gone: seq<int>): (keep: seq<bool>)
    ensures |keep| == |s| && forall i :: 0 <= i < |s| ==> keep[i] == (i + 1 !in gone)
  {
    seq(|s|, i => i + 1 !in gone)
  }

  method DeletePositions(t: PlaylistTable, pid: string, chunk: seq<int>)
    requires t.Valid()
    modifies t`rows
    ensures t.Valid() && Others(t.rows, pid) == old(Others(t.rows, pid))
    ensures Listed(t.rows, pid) == set x | x in old(Listed(t.rows, pid)) && x.0 !in chunk
  {
    ghost var before := t.rows;
    t.rows := map r | r in t.rows && !(t.rows[r].playlist == pid && t.rows[r].pos in chunk) :: t.rows[r];
    forall x | x in Listed(before, pid) && x.0 !in chunk ensures x in Listed(t.rows, pid) {
      var r :| r in before && before[r].playlist == pid && x == (before[r].pos, before[r].media);
      ListedHas(t.rows, pid, r);
    }
  }

  /** Deleting positions in chunks of 200 and renumbering once equals removing them from the list. */
  method Delete(t: PlaylistTable, pid: string, positions: seq<int>) returns (ok: bool)
    requires t.Valid() && Regular(t.rows, pid)
    modifies t`rows
    ensures t.Valid() && Others(t.rows, pid) == old(Others(t.rows, pid))
    ensures var s := old(Contents(t.rows, pid));
            ok && Listed(t.rows, pid) == ListPairs(Pick(s, KeptMask(s, positions)))
  {
    ghost var s := Contents(t.rows, pid);
    var chunks := Chunks(positions, 200);
    ChunksPartition(positions, 200);
    for k := 0 to |chunks|
      invariant t.Valid() && Others(t.rows, pid) == old(Others(t.rows, pid))
      invariant Listed(t.rows, pid) == set x | x in ListPairs(s) && x.0 !in Flatten(chunks[..k])
    {
      DeletePositions(t, pid, chunks[k]);
      assert chunks[..k + 1] == chunks[..k] + [chunks[k]];
      FlattenAppend(chunks[..k], [chunks[k]]);
      assert Flatten([chunks[k]]) == chunks[k] + Flatten([]) == chunks[k];
    }
    assert chunks[..|chunks|] == chunks;
    DeletedAreMasked(s, positions);
    ok := t.Renumber(pid);
  }

  lemma DeletedAreMasked(s: seq<string>, positions: seq<int>)
    ensures SparseList((set x | x in ListPairs(s) && x.0 !in positions), Pick(s, KeptMask(s, positions)))
  {
    var ps := Count(|s|);
    assert ListPairs(s) == Pairs(ps, s);
    assert IsSparse(ListPairs(s), ps, s);
    SurvivorsAreSparse(ListPairs(s), ps, s, KeptMask(s, positions));
    assert (set x | x in ListPairs(s) && x.0 !in positions) == Masked(ps, s, KeptMask(s, positions));
  }

  /** The table delete and the in-memory RemoveTracks agree, index for position. */
  lemma DeleteIsRemoveTracks(s: seq<string>, idxToRemove: seq<int>, positions: seq<int>)
    requires |positions| == |idxToRemove|
    requires forall k :: 0 <= k < |positions| ==> positions[k] == idxToRemove[k] + 1
    ensures KeptMask(s, positions) == IndexMask(|s|, idxToRemove)
  {
  }

  method DeleteAllRows(t: PlaylistTable, pid: string)
    requires t.Valid()
    modifies t`rows
    ensures t.Valid() && Others(t.rows, pid) == old(Others(t.rows, pid))
    ensures Listed(t.rows, pid) == ListPairs([])
  {
    t.rows := map r | r in t.rows && t.rows[r].playlist != pid :: t.rows[r];
    assert ListPairs([]) == {};
  }

  method DeleteAll(t: PlaylistTable, pid: string) returns (ok: bool)
    requires t.Valid()
    modifies t`rows
    ensures t.Valid() && Others(t.rows, pid) == old(Others(t.rows, pid))
    ensures ok && Listed(t.rows, pid) == ListPairs([])
  {
    DeleteAllRows(t, pid);
    ListIsSparse([]);
    ok := t.Renumber(pid);
  }

  method UpdatePlaylist(t: PlaylistTable, pid: string, ids: seq<string>, access: Access) returns (r: Outcome)
    requires t.Valid()
    modifies t
    ensures t.Valid() && Others(t.rows, pid) == old(Others(t.rows, pid))
    ensures r.Done? && Listed(t.rows, pid) == ListPairs(Accessible(ids, access))
  {
    DeleteAllRows(t, pid);
    assert ListPairs([]) == {};
    PlacedFromOne(Accessible(ids, access));
    r := t.AddTracks(pid, 1, ids, access);
  }

  // ---------------------------------------------------------------------------------------------
  // Orphan removal, over every playlist, gaps or not

  method RemoveOrphansOf(t: PlaylistTable, pid: string, media: set<string>, ghost s: seq<string>) returns (ok: bool)
    requires t.Valid() && SparseList(Listed(t.rows, pid), s)
    modifies t`rows
    ensures t.Valid() && Others(t.rows, pid) == old(Others(t.rows, pid))
    ensures ok && Listed(t.rows, pid) == ListPairs(Existing(s, media))
  {
    OrphansAreMasked(Listed(t.rows, pid), s, media);
    DeleteOrphanRows(t, pid, media);
    ok := t.Renumber(pid);
  }

  method DeleteOrphanRows(t: PlaylistTable, pid: string, media: set<string>)
    requires t.Valid()
    modifies t`rows
    ensures t.Valid() && Others(t.rows, pid) == old(Others(t.rows, pid))
    ensures Listed(t.rows, pid) == set x | x in old(Listed(t.rows, pid)) && x.1 in media
  {
    ghost var before := t.rows;
    t.rows := map r | r in t.rows && !(t.rows[r].playlist == pid && t.rows[r].media !in media) :: t.rows[r];
    forall x | x in Listed(before, pid) && x.1 in media ensures x in Listed(t.rows, pid) {
      var r :| r in before && before[r].playlist == pid && x == (before[r].pos, before[r].media);
      ListedHas(t.rows, pid, r);
    }
  }

  lemma OthersList(a: Rows, b: Rows, pid: string, other: string)
    requires Others(a, pid) == Others(b, pid) && other != pid
    ensures Listed(a, other) == Listed(b, other)
  {
    forall x | x in Listed(a, other) ensures x in Listed(b, other) {
      var r :| r in a && a[r].playlist == other && x == (a[r].pos, a[r].media);
      assert r in Others(a, pid);
    }
    forall x | x in Listed(b, other) ensures x in Listed(a, other) {
      var r :| r in b && b[r].playlist == other && x == (b[r].pos, b[r].media);
      assert r in Others(b, pid);
    }
  }

  ghost predicate AllPositioned(rows: Rows) { forall pid :: Positioned(rows, pid) }

  /** Every playlist has an order if and only if every position is positive. */
  lemma PositionedIffPositive(rows: Rows)
    requires Unique(rows)
    ensures AllPositioned(rows) <==> AllPositive(rows)
  {
    if AllPositive(rows) {
      forall pid ensures Positioned(rows, pid) { PositiveIsPositioned(rows, pid); }
    }
    if AllPositioned(rows) {
      forall r | r in rows ensures rows[r].pos > 0 {
        ListedHas(rows, rows[r].playlist, r);
        SparsePositions(Listed(rows, rows[r].playlist), Tracks(rows, rows[r].playlist));
      }
    }
  }

  /** The playlist holds a track that does not exist. */
  ghost predicate HasOrphans(rows: Rows, pid: string, media: set<string>) {
    exists r :: r in rows && rows[r].playlist == pid && rows[r].media !in media
  }

  /** One playlist after the orphans are gone: numbered from 1 if there were any, else as it was. */
  ghost function Cleaned(rows: Rows, pid: string, media: set<string>): Listing
    requires Positioned(rows, pid)
  {
    if HasOrphans(rows, pid, media) then ListPairs(Existing(Tracks(rows, pid), media)) else Listed(rows, pid)
  }

  /** The playlists still to visit are as they were, the others are clean. */
  ghost predicate PartlyCleaned(before: Rows, media: set<string>, pending: set<string>, now: Rows)
    requires AllPositioned(before)
  {
    forall pid :: Listed(now, pid) == if pid in pending then Listed(before, pid) else Cleaned(before, pid, media)
  }

  method RemoveOrphans(t: PlaylistTable, media: set<string>) returns (ok: bool)
    requires t.Valid() && AllPositioned(t.rows)
    modifies t`rows
    ensures t.Valid() && ok && forall pid :: Listed(t.rows, pid) == old(Cleaned(t.rows, pid, media))
    ensures AllPositioned(t.rows) && forall pid :: Tracks(t.rows, pid) == Existing(old(Tracks(t.rows, pid)), media)
  {
    ghost var before := t.rows;
    var pending := set r | r in t.rows && t.rows[r].media !in media :: t.rows[r].playlist;
    assert forall pid :: pid in pending <==> HasOrphans(before, pid, media);
    while pending != {}
      invariant t.Valid() && PartlyCleaned(before, media, pending, t.rows)
      invariant forall pid :: pid in pending ==> HasOrphans(before, pid, media)
      decreases |pending|
    {
      var pid :| pid in pending;
      ghost var now := t.rows;
      assert Listed(now, pid) == Listed(before, pid);
      ok := RemoveOrphansOf(t, pid, media, Tracks(before, pid));
      OneMoreCleaned(before, media, pending, now, t.rows, pid);
      pending := pending - {pid};
    }
    forall pid ensures Positioned(t.rows, pid) && Tracks(t.rows, pid) == Existing(Tracks(before, pid), media) {
      CleanedTracks(before, t.rows, pid, media);
    }
    ok := true;
  }

  lemma OneMoreCleaned(before: Rows, media: set<string>, pending: set<string>, now: Rows, next: Rows, pid: string)
    requires AllPositioned(before) && PartlyCleaned(before, media, pending, now)
    requires pid in pending && HasOrphans(before, pid, media)
    requires Others(next, pid) == Others(now, pid)
    requires Listed(next, pid) == ListPairs(Existing(Tracks(before, pid), media))
    ensures PartlyCleaned(before, media, pending - {pid}, next)
  {
    forall other
      ensures Listed(next, other) ==
                if other in pending - {pid} then Listed(before, other) else Cleaned(before, other, media)
    {
      if other != pid {
        OthersList(next, now, pid, other);
        assert Listed(now, other) == if other in pending then Listed(before, other) else Cleaned(before, other, media);
      }
    }
  }

  lemma CleanedTracks(before: Rows, now: Rows, pid: string, media: set<string>)
    requires Positioned(before, pid) && Listed(now, pid) == Cleaned(before, pid, media)
    ensures Positioned(now, pid) && Tracks(now, pid) == Existing(Tracks(before, pid), media)
  {
    var s := Tracks(before, pid);
    if HasOrphans(before, pid, media) {
      ListedTracks(now, pid, Existing(s, media));
    } else {
      forall i | 0 <= i < |s| ensures s[i] in media { TrackHasRow(before, pid, i); }
      ExistingAll(s, media);
      TracksAre(now, pid, s);
    }
  }

  lemma TrackHasRow(rows: Rows, pid: string, i: nat)
    requires Positioned(rows, pid) && i < |Tracks(rows, pid)|
    ensures exists r :: r in rows && rows[r].playlist == pid && rows[r].media == Tracks(rows, pid)[i]
  {
    var s := Tracks(rows, pid);
    var ps :| IsSparse(Listed(rows, pid), ps, s);
    assert (ps[i], s[i]) in Listed(rows, pid);
  }

  // ---------------------------------------------------------------------------------------------
  // Runs

  datatype Edit =
    | Replace(ids: seq<string>)
    | Append(ids: seq<string>)
    | InsertAt(ids: seq<string>, position: int)
    | Remove(positions: seq<int>)
    | Clear
    | Move(pos: int, newPosition: int)

  /** An edit of one playlist by a user with some access, or the removal of orphans everywhere. */
  datatype Op = EditOf(pid: string, access: Access, edit: Edit) | Prune(media: set<string>)

  /** What each edit means on the plain list. */
  ghost function Apply(s: seq<string>, edit: Edit, access: Access): seq<string> {
    match edit
    case Replace(ids) => Accessible(ids, access)
    case Append(ids) => s + Accessible(ids, access)
    case InsertAt(ids, position) =>
      var at := InsertIndex(position, |s|);
      s[..at] + Accessible(ids, access) + s[at..]
    case Remove(positions) => Pick(s, KeptMask(s, positions))
    case Clear => []
    case Move(pos, newPosition) => ReorderedList(s, pos, newPosition)
  }

  /** What an operation makes of the list of playlist pid. */
  ghost function Effect(s: seq<string>, op: Op, pid: string): seq<string> {
    match op
    case EditOf(p, access, edit) => if p == pid then Apply(s, edit, access) else s
    case Prune(media) => Existing(s, media)
  }

  ghost function ListAfter(before: Rows, ops: seq<Op>, pid: string): seq<string>
    requires Positioned(before, pid)
  {
    if ops == [] then Tracks(before, pid)
    else Effect(ListAfter(before, ops[..|ops| - 1], pid), ops[|ops| - 1], pid)
  }

  method ExecuteEdit(t: PlaylistTable, pid: string, edit: Edit, access: Access)
    requires t.Valid() && Regular(t.rows, pid) && |Contents(t.rows, pid)| < MAX_INT32
    modifies t
    ensures t.Valid() && Others(t.rows, pid) == old(Others(t.rows, pid))
    ensures Listed(t.rows, pid) == ListPairs(Apply(old(Contents(t.rows, pid)), edit, access))
  {
    ghost var s := Contents(t.rows, pid);
    match edit {
      case Replace(ids) => var _ := UpdatePlaylist(t, pid, ids, access);
      case Append(ids) =>
        if ids == [] { assert s + Accessible(ids, access) == s; }
        var _ := Add(t, pid, ids, access);
      case InsertAt(ids, position) =>
        if ids == [] {
          ghost var at := InsertIndex(position, |s|);
          assert s[..at] + Accessible(ids, access) + s[at..] == s;
        }
        var _ := Insert(t, pid, ids, position, access);
      case Remove(positions) => var _ := Delete(t, pid, positions);
      case Clear => var _ := DeleteAll(t, pid);
      case Move(pos, newPosition) => var _ := ReorderTrack(t, pid, pos, newPosition);
    }
  }

  /** The tracks of every playlist, and which playlists are numbered 1..n, after an operation. */
  ghost predicate Applied(before: Rows, after: Rows, op: Op)
    requires AllPositioned(before)
  {
    && AllPositioned(after)
    && (forall pid :: Tracks(after, pid) == Effect(Tracks(before, pid), op, pid))
    && (forall pid :: Regular(before, pid) ==> Regular(after, pid))
  }

  method Execute(t: PlaylistTable, op: Op)
    requires t.Valid() && AllPositioned(t.rows)
    requires op.EditOf? ==> Regular(t.rows, op.pid) && |Contents(t.rows, op.pid)| < MAX_INT32
    modifies t
    ensures t.Valid() && AllPositioned(t.rows) && Applied(old(t.rows), t.rows, op)
  {
    ghost var before := t.rows;
    match op {
      case EditOf(pid, access, edit) =>
        ExecuteEdit(t, pid, edit, access);
        EditApplied(before, t.rows, pid, access, edit);
      case Prune(media) =>
        var _ := RemoveOrphans(t, media);
        PruneApplied(before, t.rows, media);
    }
  }

  lemma EditApplied(before: Rows, after: Rows, pid: string, access: Access, edit: Edit)
    requires AllPositioned(before) && Regular(before, pid) && Others(after, pid) == Others(before, pid)
    requires Listed(after, pid) == ListPairs(Apply(Contents(before, pid), edit, access))
    ensures Applied(before, after, EditOf(pid, access, edit))
  {
    ListedTracks(before, pid, Contents(before, pid));
    ListedTracks(after, pid, Apply(Contents(before, pid), edit, access));
    forall other | other != pid
      ensures Positioned(after, other) && Tracks(after, other) == Tracks(before, other)
      ensures Regular(before, other) ==> Regular(after, other)
    {
      OthersList(after, before, pid, other);
      TracksAre(after, other, Tracks(before, other));
    }
  }

  lemma PruneApplied(before: Rows, after: Rows, media: set<string>)
    requires AllPositioned(before) && AllPositioned(after)
    requires forall pid :: Listed(after, pid) == Cleaned(before, pid, media)
    requires forall pid :: Tracks(after, pid) == Existing(Tracks(before, pid), media)
    ensures Applied(before, after, Prune(media))
  {
    forall pid | Regular(before, pid) ensures Regular(after, pid) {
      assert Listed(after, pid) == Cleaned(before, pid, media);
    }
  }

  /** The edits of a run act on playlists that are numbered 1..n, and short of the 32-bit limit. */
  ghost predicate Editable(before: Rows, ops: seq<Op>)
    requires AllPositioned(before)
  {
    forall k :: 0 <= k < |ops| && ops[k].EditOf? ==>
      Regular(before, ops[k].pid) && |ListAfter(before, ops[..k], ops[k].pid)| < MAX_INT32
  }

  /** The state a run has reached: every playlist holds its plain list's result. */
  ghost predicate Reached(before: Rows, ops: seq<Op>, now: Rows)
    requires AllPositioned(before)
  {
    && AllPositioned(now)
    && (forall pid :: Tracks(now, pid) == ListAfter(before, ops, pid))
    && (forall pid :: Regular(before, pid) ==> Regular(now, pid))
  }

  lemma ReachedNext(before: Rows, ops: seq<Op>, k: nat, now: Rows, next: Rows)
    requires AllPositioned(before) && k < |ops| && Reached(before, ops[..k], now) && Applied(now, next, ops[k])
    ensures Reached(before, ops[..k + 1], next)
  {
    assert ops[..k + 1][..k] == ops[..k];
    forall pid ensures Tracks(next, pid) == ListAfter(before, ops[..k + 1], pid) {
      assert Tracks(next, pid) == Effect(Tracks(now, pid), ops[k], pid);
    }
  }

  /** Any run, by any users on any playlists, keeps every playlist numbered 1..n that was, and leaves in
      every playlist of the table what the same run makes of plain lists. */
  method Run(t: PlaylistTable, ops: seq<Op>)
    requires t.Valid() && AllPositioned(t.rows) && Editable(t.rows, ops)
    modifies t
    ensures t.Valid() && old(AllPositioned(t.rows)) && Reached(old(t.rows), ops, t.rows)
  {
    ghost var before := t.rows;
    for k := 0 to |ops|
      invariant t.Valid() && Reached(before, ops[..k], t.rows)
    {
      ghost var now := t.rows;
      if ops[k].EditOf? { RegularTracks(now, ops[k].pid); }
      Execute(t, ops[k]);
      ReachedNext(before, ops, k, now, t.rows);
    }
    assert ops[..|ops|] == ops;
  }

  lemma RegularTracks(rows: Rows, pid: string)
    requires Regular(rows, pid)
    ensures Positioned(rows, pid) && Tracks(rows, pid) == Contents(rows, pid)
  {
    ListedTracks(rows, pid, Contents(rows, pid));
  }
}
