/**
 * The playlist_tracks table with its UNIQUE (playlist_id, id) index, and the repository operations
 * on it.  An UPDATE writes its rows one at a time in an arbitrary order, and the index is checked
 * after every row; a statement that violates it has no effect and fails.
 */
module PlaylistTracks {
  import opened Sequences
  import opened PlaylistPositions

  datatype Track = Track(playlist: string, pos: int, media: string)
  type Rows = map<nat, Track>

  datatype Outcome = Done(n: nat) | NotFound | ConstraintError | ScanError

  const MAX_INT32 := 0x7fff_ffff
  const MIN_INT32 := -0x8000_0000

  /** int32 arithmetic, as in res.Max.Int32 + 1. */
  function WrapInt32(x: int): int { (x - MIN_INT32) % 0x1_0000_0000 + MIN_INT32 }

  ghost predicate Unique(rows: Rows) {
    forall r, q :: r in rows && q in rows && r != q && rows[r].playlist == rows[q].playlist ==>
        rows[r].pos != rows[q].pos
  }

  ghost function Listed(rows: Rows, pid: string): Listing {
    set r | r in rows && rows[r].playlist == pid :: (rows[r].pos, rows[r].media)
  }

  ghost function Others(rows: Rows, pid: string): Rows {
    map r | r in rows && rows[r].playlist != pid :: rows[r]
  }

  /** The rows after the given ones have received their new positions. */
  ghost function Moves(rows: Rows, targets: map<nat, int>): Rows {
    map r | r in rows :: if r in targets then rows[r].(pos := targets[r]) else rows[r]
  }

  ghost predicate SafeTargets(rows: Rows, targets: map<nat, int>) {
    forall r, q :: r in targets && r in rows && q in rows && r != q && rows[r].playlist == rows[q].playlist ==>
      targets[r] != rows[q].pos && (q in targets ==> targets[r] != targets[q])
  }

  /** Some row is sent onto a row that the statement does not move. */
  ghost predicate HardClash(rows: Rows, targets: map<nat, int>) {
    exists r, q :: r in targets && r in rows && q in rows && q !in targets && rows[r].playlist == rows[q].playlist
                   && targets[r] == rows[q].pos
  }

  ghost predicate Collides(rows: Rows, r: nat, p: int)
    requires r in rows
  {
    exists q :: q in rows && q != r && rows[q].playlist == rows[r].playlist && rows[q].pos == p
  }

  lemma RowStep(rows: Rows, targets: map<nat, int>, pending: set<nat>, r: nat)
    requires targets.Keys <= rows.Keys && pending <= targets.Keys && r in pending
    requires Unique(Moves(rows, targets - pending)) && !Collides(Moves(rows, targets - pending), r, targets[r])
    ensures var now := Moves(rows, targets - pending);
            var next := now[r := now[r].(pos := targets[r])];
            Unique(next) && next == Moves(rows, targets - (pending - {r}))
  {
  }

  /** Who may read what: the whole library, or the media files a filtered query finds. */
  datatype Access = Access(seesAll: bool, readable: set<string>)

  ghost predicate Allowed(a: Access, id: string) { a.seesAll || id in a.readable }

  ghost function Accessible(ids: seq<string>, a: Access): seq<string> {
    Pick(ids, seq(|ids|, i requires 0 <= i < |ids| => Allowed(a, ids[i])))
  }

  /** A regular playlist: positions exactly 1..n. */
  ghost predicate Regular(rows: Rows, pid: string) { exists s :: Listed(rows, pid) == ListPairs(s) }

  ghost function Contents(rows: Rows, pid: string): seq<string>
    requires Regular(rows, pid)
  {
    var s :| Listed(rows, pid) == ListPairs(s); s
  }

  // A playlist with gaps, as a smart playlist with an offset has.

  ghost predicate Positioned(rows: Rows, pid: string) { exists s :: SparseList(Listed(rows, pid), s) }

  /** The tracks in the order of their positions. */
  ghost function Tracks(rows: Rows, pid: string): seq<string>
    requires Positioned(rows, pid)
  {
    var s :| SparseList(Listed(rows, pid), s); s
  }

  lemma TracksAre(rows: Rows, pid: string, s: seq<string>)
    requires SparseList(Listed(rows, pid), s)
    ensures Positioned(rows, pid) && Tracks(rows, pid) == s
  {
    SparseUnique(Listed(rows, pid), s, Tracks(rows, pid));
  }

  lemma ListedTracks(rows: Rows, pid: string, s: seq<string>)
    requires Listed(rows, pid) == ListPairs(s)
    ensures Positioned(rows, pid) && Tracks(rows, pid) == s
  {
    ListIsSparse(s);
    TracksAre(rows, pid, s);
  }

  ghost predicate AllPositive(rows: Rows) { forall r :: r in rows ==> rows[r].pos > 0 }

  /** Positive positions are all it takes to have an order. */
  lemma PositiveIsPositioned(rows: Rows, pid: string)
    requires Unique(rows) && AllPositive(rows)
    ensures Positioned(rows, pid)
  {
    var s := SparseExists(Listed(rows, pid));
  }

  lemma ContentsAre(rows: Rows, pid: string, s: seq<string>)
    requires Listed(rows, pid) == ListPairs(s)
    ensures Regular(rows, pid) && Contents(rows, pid) == s
  {
    ListPairsInjective(s, Contents(rows, pid));
  }

  class PlaylistTable {
    var rows: Rows
    var nextRowid: nat

    ghost predicate Valid() reads this { Unique(rows) && forall r :: r in rows ==> r < nextRowid }

    constructor ()
      ensures Valid() && rows == map[]
    {
      rows := map[];
      nextRowid := 0;
    }

    /** One row at a time, in any order; a collision undoes the whole statement. */
    method WriteRows(targets: map<nat, int>) returns (ok: bool)
      requires Valid() && targets.Keys <= rows.Keys
      modifies this`rows
      ensures Valid()
      ensures rows == if ok then Moves(old(rows), targets) else old(rows)
      ensures SafeTargets(old(rows), targets) ==> ok
      ensures HardClash(old(rows), targets) ==> !ok
    {
      ghost var rows0 := rows;
      var before := rows;
      var pending := targets.Keys;
      while pending != {}
        invariant pending <= targets.Keys
        invariant rows == Moves(rows0, targets - pending) && Unique(rows)
      {
        var r :| r in pending;
        if exists q :: q in rows && q != r && rows[q].playlist == rows[r].playlist && rows[q].pos == targets[r] {
          rows := before;
          return false;
        }
        RowStep(rows0, targets, pending, r);
        rows := rows[r := rows[r].(pos := targets[r])];
        pending := pending - {r};
      }
      assert targets - {} == targets;
      ok := true;
    }

    /** UPDATE playlist_tracks SET id = f(id) WHERE playlist_id = pid AND where(id) */
    method Update(pid: string, where: int -> bool, f: int -> int) returns (ok: bool, affected: bool)
      requires Valid()
      modifies this`rows
      ensures Valid() && Others(rows, pid) == old(Others(rows, pid))
      ensures ok ==> Listed(rows, pid) == PosImage(old(Listed(rows, pid)), Step(where, f))
      ensures !ok ==> rows == old(rows)
      ensures affected <==> exists p :: p in Positions(old(Listed(rows, pid))) && where(p)
      ensures SafeStep(Positions(old(Listed(rows, pid))), where, f) ==> ok
      ensures ClashingStep(Positions(old(Listed(rows, pid))), where, f) ==> !ok
    {
      var targets := map r | r in rows && rows[r].playlist == pid && where(rows[r].pos) :: f(rows[r].pos);
      affected := targets != map[];
      UpdateListing(rows, pid, where, f);
      UpdateSafety(rows, pid, where, f);
      assert targets == TargetsOf(rows, pid, where, f);
      ok := WriteRows(targets);
    }

    /** SELECT max(id): none on an empty playlist. */
    method MaxPosition(pid: string) returns (empty: bool, max: int)
      ensures empty <==> Listed(rows, pid) == {}
      ensures !empty ==> max in Positions(Listed(rows, pid))
      ensures !empty ==> forall p :: p in Positions(Listed(rows, pid)) ==> p <= max
    {
      empty, max := true, 0;
      var pending := rows.Keys;
      while pending != {}
        invariant pending <= rows.Keys
        invariant empty <==> forall r :: r in rows && rows[r].playlist == pid ==> r in pending
        invariant !empty ==> max in Positions(Listed(rows, pid))
        invariant !empty ==> forall r :: r in rows && rows[r].playlist == pid && r !in pending ==> rows[r].pos <= max
      {
        var r :| r in pending;
        if rows[r].playlist == pid && (empty || rows[r].pos > max) {
          empty, max := false, rows[r].pos;
          ListedHas(rows, pid, r);
        }
        pending := pending - {r};
      }
    }

    method InsertRow(pid: string, media: string, pos: int) returns (ok: bool)
      requires Valid()
      modifies this
      ensures Valid()
      ensures ok <==> pos !in Positions(old(Listed(rows, pid)))
      ensures nextRowid >= old(nextRowid)
      ensures !ok ==> rows == old(rows)
      ensures ok ==> Listed(rows, pid) == old(Listed(rows, pid)) + {(pos, media)}
      ensures ok ==> Others(rows, pid) == old(Others(rows, pid))
    {
      if r :| r in rows && rows[r].playlist == pid && rows[r].pos == pos {
        ListedHas(rows, pid, r);
        return false;
      }
      ghost var rows0 := rows;
      rows := rows[nextRowid := Track(pid, pos, media)];
      assert Listed(rows, pid) == Listed(rows0, pid) + {(pos, media)} by {
        ListedHas(rows, pid, nextRowid);
        forall r | r in rows0 && rows0[r].playlist == pid
          ensures (rows0[r].pos, rows0[r].media) in Listed(rows, pid) { ListedHas(rows, pid, r); }
      }
      nextRowid := nextRowid + 1;
      ok := true;
    }

    /** One multi-row INSERT; a collision undoes all of it. */
    method InsertChunk(pid: string, start: int, chunk: seq<string>) returns (ok: bool)
      requires Valid()
      modifies this
      ensures Valid() && Others(rows, pid) == old(Others(rows, pid))
      ensures !ok ==> rows == old(rows)
      ensures ok ==> Listed(rows, pid) == old(Listed(rows, pid)) + Placed(start, chunk)
      ensures ok <==> Free(old(Listed(rows, pid)), start, |chunk|)
    {
      var before := rows;
      assert Placed(start, []) == {};
      for i := 0 to |chunk|
        invariant Valid() && Others(rows, pid) == Others(before, pid)
        invariant forall r :: r in before ==> r < nextRowid
        invariant Listed(rows, pid) == Listed(before, pid) + Placed(start, chunk[..i])
        invariant Free(Listed(before, pid), start, i)
      {
        PlacedAppend(start, chunk[..i], chunk[i]);
        assert chunk[..i + 1] == chunk[..i] + [chunk[i]];
        FreePast(Listed(before, pid), start, chunk[..i], 1);
        var inserted := InsertRow(pid, chunk[i], start + i);
        if !inserted {
          rows := before;
          return false;
        }
      }
      assert chunk[..|chunk|] == chunk;
      ok := true;
    }

    /** The ids the caller can read, looked up 200 at a time. */
    method ReadableIds(ids: seq<string>, access: Access) returns (accessible: set<string>)
      requires !access.seesAll
      ensures forall id :: id in ids ==> (id in accessible <==> Allowed(access, id))
    {
      accessible := {};
      var unique := UniqueIds(ids);
      var chunks := Chunks(unique, 200);
      ChunksPartition(unique, 200);
      for k := 0 to |chunks|
        invariant forall id :: id in accessible <==> id in access.readable && exists j :: 0 <= j < k && id in chunks[j]
      {
        var found := set id | id in chunks[k] && id in access.readable;
        accessible := accessible + found;
      }
      forall id | id in ids ensures id in accessible <==> Allowed(access, id) {
        InFlatten(chunks, id);
      }
    }

    /** Drops the ids the caller cannot read, keeping order and duplicates. */
    method KeepAccessible(ids: seq<string>, access: Access) returns (kept: seq<string>)
      ensures kept == Accessible(ids, access)
    {
      if access.seesAll {
        PickAll(ids, seq(|ids|, i requires 0 <= i < |ids| => Allowed(access, ids[i])));
        return ids;
      }
      var accessible := ReadableIds(ids, access);
      kept := [];
      ghost var keep := seq(|ids|, i requires 0 <= i < |ids| => Allowed(access, ids[i]));
      for i := 0 to |ids|
        invariant kept == Pick(ids[..i], keep[..i])
      {
        assert ids[..i + 1][..i] == ids[..i] && keep[..i + 1][..i] == keep[..i];
        if ids[i] in accessible {
          kept := kept + [ids[i]];
        }
      }
      assert ids[..|ids|] == ids && keep[..|ids|] == keep;
    }

    method UniqueIds(ids: seq<string>) returns (unique: seq<string>)
      ensures forall id :: id in unique <==> id in ids
      ensures forall i, j :: 0 <= i < j < |unique| ==> unique[i] != unique[j]
    {
      unique := [];
      for i := 0 to |ids|
        invariant forall id :: id in unique <==> id in ids[..i]
        invariant forall i, j :: 0 <= i < j < |unique| ==> unique[i] != unique[j]
      {
        assert ids[..i + 1] == ids[..i] + [ids[i]];
        if ids[i] !in unique {
          unique := unique + [ids[i]];
        }
      }
      assert ids[..|ids|] == ids;
    }

    /** Inserts the accessible ids from startingPos on, 200 to a statement. */
    method AddTracks(pid: string, startingPos: int, ids: seq<string>, access: Access) returns (r: Outcome)
      requires Valid()
      modifies this
      ensures Valid() && Others(rows, pid) == old(Others(rows, pid))
      ensures Added(old(Listed(rows, pid)), Listed(rows, pid), startingPos, Accessible(ids, access), r)
    {
      var kept := KeepAccessible(ids, access);
      r := AddChunks(pid, startingPos, kept);
    }

    method AddChunks(pid: string, startingPos: int, kept: seq<string>) returns (r: Outcome)
      requires Valid()
      modifies this
      ensures Valid() && Others(rows, pid) == old(Others(rows, pid))
      ensures Added(old(Listed(rows, pid)), Listed(rows, pid), startingPos, kept, r)
    {
      var chunks := Chunks(kept, 200);
      ChunksPartition(kept, 200);
      var pos := startingPos;
      ghost var before, done := Listed(rows, pid), [];
      assert Placed(startingPos, []) == {};
      for k := 0 to |chunks|
        invariant Valid() && Others(rows, pid) == old(Others(rows, pid))
        invariant done == Flatten(chunks[..k]) && pos == startingPos + |done|
        invariant Listed(rows, pid) == before + Placed(startingPos, done) && Free(before, startingPos, |done|)
      {
        NextChunk(chunks, k, startingPos, before);
        var ok := InsertChunk(pid, pos, chunks[k]);
        if !ok {
          ChunkClashed(before, startingPos, kept, done, chunks[k]);
          return ConstraintError;
        }
        pos := pos + |chunks[k]|;
        done := done + chunks[k];
      }
      assert chunks[..|chunks|] == chunks;
      r := Done(|kept|);
    }

    /** ROW_NUMBER() OVER (ORDER BY id DESC): numbers the playlist's rows, largest position first. */
    method RowNumbers(pid: string) returns (numbers: map<nat, int>, ghost order: seq<nat>)
      requires Valid()
      ensures Descending(rows, pid, order) && Numbering(numbers, order)
    {
      order, numbers := [], map[];
      var n := 0;
      var pending := set r | r in rows && rows[r].playlist == pid;
      while pending != {}
        invariant n == |order|
        invariant TopDown(rows, pid, order, pending) && Numbering(numbers, order)
      {
        HighestExists(rows, pending);
        var r :| r in pending && forall q :: q in pending ==> rows[q].pos <= rows[r].pos;
        NextHighest(rows, pid, order, pending, r);
        order, numbers, n := order + [r], numbers[r := n + 1], n + 1;
        pending := pending - {r};
      }
    }

    /** The numbering half of Renumber, on rows whose positions have been negated. */
    method NumberRows(pid: string) returns (ok: bool)
      requires Valid()
      modifies this`rows
      ensures Valid() && Others(rows, pid) == old(Others(rows, pid))
      ensures forall before, s :: SparseList(before, s) && NegatedFrom(before, old(Listed(rows, pid))) ==>
                ok && Listed(rows, pid) == ListPairs(s)
    {
      var targets, order := RowNumbers(pid);
      forall before, s | SparseList(before, s) && NegatedFrom(before, Listed(rows, pid))
        ensures SafeTargets(rows, targets) && Listed(Moves(rows, targets), pid) == ListPairs(s)
      {
        Renumbered(before, rows, pid, order, targets, s);
      }
      ok := WriteRows(targets);
    }

    /** Closes every gap: negate all positions, then number the rows 1..n in the original order. */
    method Renumber(pid: string) returns (ok: bool)
      requires Valid()
      modifies this`rows
      ensures Valid() && Others(rows, pid) == old(Others(rows, pid))
      ensures forall s :: SparseList(old(Listed(rows, pid)), s) ==> ok && Listed(rows, pid) == ListPairs(s)
    {
      var affected;
      ghost var before := Listed(rows, pid);
      ok, affected := Update(pid, Positive(), Negate());
      forall s | SparseList(before, s) ensures SafeStep(Positions(before), Positive(), Negate()) {
        SparsePositions(before, s);
      }
      if !ok { return; }
      ok := NumberRows(pid);
    }
  }

  /** The positions start .. start+n-1 are unused. */
  ghost predicate Free(e: Listing, start: int, n: nat) { forall p :: start <= p < start + n ==> p !in Positions(e) }

  /** On free positions everything is placed; otherwise the statements before the collision stay. */
  ghost predicate Added(before: Listing, after: Listing, start: int, kept: seq<string>, r: Outcome) {
    if Free(before, start, |kept|) then r == Done(|kept|) && after == before + Placed(start, kept)
    else r == ConstraintError && exists k :: 0 <= k <= |kept| && after == before + Placed(start, kept[..k])
  }

  lemma ChunkClashed(before: Listing, start: int, kept: seq<string>, done: seq<string>, chunk: seq<string>)
    requires done + chunk <= kept && !Free(before, start + |done|, |chunk|)
    ensures Added(before, before + Placed(start, done), start, kept, ConstraintError)
  {
    assert kept[..|done|] == done;
  }

  /** What was placed before a range does not occupy it. */
  lemma FreePast(e: Listing, start: int, done: seq<string>, n: nat)
    ensures Free(e + Placed(start, done), start + |done|, n) <==> Free(e, start + |done|, n)
  {
    var e1 := e + Placed(start, done);
    forall p | start + |done| <= p < start + |done| + n ensures p in Positions(e1) <==> p in Positions(e) {
      if p in Positions(e) {
        var x :| x in e && x.0 == p;
        assert x in e1;
      }
    }
  }

  lemma NextChunk(chunks: seq<seq<string>>, k: nat, start: int, before: Listing)
    requires k < |chunks|
    ensures Flatten(chunks[..k + 1]) == Flatten(chunks[..k]) + chunks[k] <= Flatten(chunks)
    ensures Placed(start, Flatten(chunks[..k + 1])) ==
            Placed(start, Flatten(chunks[..k])) + Placed(start + |Flatten(chunks[..k])|, chunks[k])
    ensures var n := |Flatten(chunks[..k])|;
            Free(before + Placed(start, Flatten(chunks[..k])), start + n, |chunks[k]|) <==>
              Free(before, start + n, |chunks[k]|)
  {
    FlattenStep(chunks, k);
    FlattenAppend(chunks[..k + 1], chunks[k + 1..]);
    assert chunks == chunks[..k + 1] + chunks[k + 1..];
    PlacedConcat(start, Flatten(chunks[..k]), chunks[k]);
    FreePast(before, start, Flatten(chunks[..k]), |chunks[k]|);
  }

  lemma {:induction false} PickAll<T>(s: seq<T>, keep: seq<bool>)
    requires |keep| == |s| && forall i :: 0 <= i < |keep| ==> keep[i]
    ensures Pick(s, keep) == s
  {
    if s != [] { PickAll(s[..|s| - 1], keep[..|s| - 1]); }
  }

  lemma {:induction false} HighestExists(rows: Rows, pending: set<nat>)
    requires pending != {} && pending <= rows.Keys
    ensures exists r :: r in pending && forall q :: q in pending ==> rows[q].pos <= rows[r].pos
    decreases |pending|
  {
    var r :| r in pending;
    var rest := pending - {r};
    if rest == {} {
      assert pending == {r};
    } else {
      HighestExists(rows, rest);
      var m :| m in rest && forall q :: q in rest ==> rows[q].pos <= rows[m].pos;
      var top := if rows[m].pos < rows[r].pos then r else m;
      assert top in pending && forall q :: q in pending ==> rows[q].pos <= rows[top].pos;
    }
  }

  /** The listing with every positive position negated. */
  ghost predicate NegatedFrom(before: Listing, e: Listing) { e == PosImage(before, Step(Positive(), Negate())) }

  lemma SparsePositions(e: Listing, s: seq<string>)
    requires SparseList(e, s)
    ensures forall p :: p in Positions(e) ==> p > 0
  {
  }

  ghost predicate Descending(rows: Rows, pid: string, order: seq<nat>) {
    && (forall r :: r in order <==> r in rows && rows[r].playlist == pid)
    && (forall j, k :: 0 <= j < k < |order| ==>
        order[j] in rows && order[k] in rows && rows[order[j]].pos > rows[order[k]].pos)
  }

  /** order lists, from the top, the rows that are no longer pending. */
  ghost predicate TopDown(rows: Rows, pid: string, order: seq<nat>, pending: set<nat>) {
    && (forall r :: r in pending || r in order <==> r in rows && rows[r].playlist == pid)
    && (forall j, k :: 0 <= j < k < |order| ==>
        order[j] in rows && order[k] in rows && rows[order[j]].pos > rows[order[k]].pos)
    && (forall q, r :: q in order && r in pending ==> q in rows && r in rows && rows[q].pos > rows[r].pos)
  }

  lemma NextHighest(rows: Rows, pid: string, order: seq<nat>, pending: set<nat>, r: nat)
    requires Unique(rows) && TopDown(rows, pid, order, pending) && r in pending && r in rows
    requires forall q :: q in pending ==> q in rows && rows[q].pos <= rows[r].pos
    ensures TopDown(rows, pid, order + [r], pending - {r}) && r !in order
  {
  }

  ghost predicate Numbering(targets: map<nat, int>, order: seq<nat>) {
    && (forall k :: 0 <= k < |order| ==> order[k] in targets && targets[order[k]] == k + 1)
    && (forall r :: r in targets ==> r in order)
  }

  lemma NegatedRow(before: Listing, rows: Rows, pid: string, ps: seq<int>, s: seq<string>, r: nat) returns (j: nat)
    requires IsSparse(before, ps, s)
    requires NegatedFrom(before, Listed(rows, pid))
    requires r in rows && rows[r].playlist == pid
    ensures j < |ps| && rows[r] == Track(pid, -ps[j], s[j])
  {
    ListedHas(rows, pid, r);
    var x :| x in before && (rows[r].pos, rows[r].media) == (Step(Positive(), Negate())(x.0), x.1);
    j :| 0 <= j < |ps| && x == (ps[j], s[j]);
  }

  lemma NegatedEntry(before: Listing, rows: Rows, pid: string, ps: seq<int>, s: seq<string>, j: nat) returns (r: nat)
    requires IsSparse(before, ps, s) && j < |ps|
    requires NegatedFrom(before, Listed(rows, pid))
    ensures r in rows && rows[r].playlist == pid && rows[r].pos == -ps[j]
  {
    assert (ps[j], s[j]) in before;
    assert (Step(Positive(), Negate())(ps[j]), s[j]) in Listed(rows, pid);
    r :| r in rows && rows[r].playlist == pid && (rows[r].pos, rows[r].media) == (-ps[j], s[j]);
  }

  /** Sorting the negated rows recovers the original order. */
  lemma OrderedRows(before: Listing, rows: Rows, pid: string, order: seq<nat>, ps: seq<int>, s: seq<string>)
    requires IsSparse(before, ps, s)
    requires NegatedFrom(before, Listed(rows, pid))
    requires Descending(rows, pid, order)
    ensures |order| == |s|
    ensures forall k :: 0 <= k < |order| ==> order[k] in rows && rows[order[k]] == Track(pid, -ps[k], s[k])
  {
    assert forall k :: 0 <= k < |order| ==> order[k] in order;
    var a := seq(|order|, k requires 0 <= k < |order| => -rows[order[k]].pos);
    forall k | 0 <= k < |order| ensures a[k] in ps {
      var j := NegatedRow(before, rows, pid, ps, s, order[k]);
    }
    forall j | 0 <= j < |ps| ensures ps[j] in a {
      var r := NegatedEntry(before, rows, pid, ps, s, j);
      var k :| 0 <= k < |order| && order[k] == r;
      assert a[k] == ps[j];
    }
    IncreasingUnique(a, ps);
    forall k | 0 <= k < |order| ensures rows[order[k]] == Track(pid, -ps[k], s[k]) {
      var j := NegatedRow(before, rows, pid, ps, s, order[k]);
      assert a[k] == ps[k];
    }
  }

  lemma NumberingIsSafe(rows: Rows, pid: string, order: seq<nat>, targets: map<nat, int>)
    requires Descending(rows, pid, order)
    requires Numbering(targets, order)
    requires forall k :: 0 <= k < |order| ==> order[k] in rows && rows[order[k]].pos < 0
    ensures SafeTargets(rows, targets)
  {
  }

  lemma NumberedListing(rows: Rows, pid: string, order: seq<nat>, targets: map<nat, int>, s: seq<string>)
    requires Descending(rows, pid, order) && |order| == |s|
    requires Numbering(targets, order)
    requires forall k :: 0 <= k < |order| ==>
               order[k] in rows && rows[order[k]].playlist == pid && rows[order[k]].media == s[k]
    ensures Listed(Moves(rows, targets), pid) == ListPairs(s)
  {
    var after := Moves(rows, targets);
    assert forall k :: 0 <= k < |s| ==> order[k] in after && after[order[k]] == Track(pid, k + 1, s[k]);
    forall x | x in Listed(after, pid) ensures x in ListPairs(s) {
      var r :| r in after && after[r].playlist == pid && x == (after[r].pos, after[r].media);
      assert r in order;
      var k :| 0 <= k < |order| && order[k] == r;
      assert x == (k + 1, s[k]);
    }
    forall k | 0 <= k < |s| ensures (k + 1, s[k]) in Listed(after, pid) {
      ListedHas(after, pid, order[k]);
    }
  }

  lemma Renumbered(before: Listing, rows: Rows, pid: string, order: seq<nat>, targets: map<nat, int>, s: seq<string>)
    requires SparseList(before, s)
    requires NegatedFrom(before, Listed(rows, pid))
    requires Descending(rows, pid, order)
    requires Numbering(targets, order)
    ensures SafeTargets(rows, targets) && Listed(Moves(rows, targets), pid) == ListPairs(s)
  {
    var ps :| IsSparse(before, ps, s);
    OrderedRows(before, rows, pid, order, ps, s);
    NumberingIsSafe(rows, pid, order, targets);
    NumberedListing(rows, pid, order, targets, s);
  }

  ghost function TargetsOf(rows: Rows, pid: string, where: int -> bool, f: int -> int): map<nat, int> {
    map r | r in rows && rows[r].playlist == pid && where(rows[r].pos) :: f(rows[r].pos)
  }

  lemma ListedHas(rows: Rows, pid: string, r: nat)
    requires r in rows && rows[r].playlist == pid
    ensures (rows[r].pos, rows[r].media) in Listed(rows, pid) && rows[r].pos in Positions(Listed(rows, pid))
  {
  }

  lemma UpdateListing(rows: Rows, pid: string, where: int -> bool, f: int -> int)
    ensures var targets := TargetsOf(rows, pid, where, f);
            Others(Moves(rows, targets), pid) == Others(rows, pid) &&
            Listed(Moves(rows, targets), pid) == PosImage(Listed(rows, pid), Step(where, f))
  {
    var targets, g := TargetsOf(rows, pid, where, f), Step(where, f);
    var after := Moves(rows, targets);
    forall x | x in Listed(after, pid) ensures x in PosImage(Listed(rows, pid), g) {
      var r :| r in after && after[r].playlist == pid && x == (after[r].pos, after[r].media);
      ListedHas(rows, pid, r);
      assert x == (g(rows[r].pos), rows[r].media);
    }
    forall x | x in PosImage(Listed(rows, pid), g) ensures x in Listed(after, pid) {
      var y :| y in Listed(rows, pid) && x == (g(y.0), y.1);
      var r :| r in rows && rows[r].playlist == pid && y == (rows[r].pos, rows[r].media);
      assert x == (after[r].pos, after[r].media);
    }
  }

  lemma PositionHasRow(rows: Rows, pid: string, p: int) returns (r: nat)
    requires p in Positions(Listed(rows, pid))
    ensures r in rows && rows[r].playlist == pid && rows[r].pos == p
  {
    var x :| x in Listed(rows, pid) && x.0 == p;
    r :| r in rows && rows[r].playlist == pid && x == (rows[r].pos, rows[r].media);
  }

  lemma UpdateAffects(rows: Rows, pid: string, where: int -> bool, f: int -> int)
    ensures TargetsOf(rows, pid, where, f) != map[] <==> exists p :: p in Positions(Listed(rows, pid)) && where(p)
  {
    var targets := TargetsOf(rows, pid, where, f);
    if p :| p in Positions(Listed(rows, pid)) && where(p) {
      var r := PositionHasRow(rows, pid, p);
      assert r in targets;
    }
    if targets != map[] {
      var r :| r in targets;
      ListedHas(rows, pid, r);
    }
  }

  lemma UpdateClashes(rows: Rows, pid: string, where: int -> bool, f: int -> int)
    requires ClashingStep(Positions(Listed(rows, pid)), where, f)
    ensures HardClash(rows, TargetsOf(rows, pid, where, f))
  {
  }

  lemma UpdateSafety(rows: Rows, pid: string, where: int -> bool, f: int -> int)
    requires Unique(rows)
    ensures var targets := TargetsOf(rows, pid, where, f);
            var ps := Positions(Listed(rows, pid));
            && (targets != map[] <==> exists p :: p in ps && where(p))
            && (SafeStep(ps, where, f) ==> SafeTargets(rows, targets))
            && (ClashingStep(ps, where, f) ==> HardClash(rows, targets))
  {
    UpdateAffects(rows, pid, where, f);
    if ClashingStep(Positions(Listed(rows, pid)), where, f) { UpdateClashes(rows, pid, where, f); }
    forall r | r in rows && rows[r].playlist == pid ensures rows[r].pos in Positions(Listed(rows, pid)) {
      ListedHas(rows, pid, r);
    }
  }
}
