/**
 * The artwork queue: a table of pending items that any number of workers read without marking, and
 * settle later with writes conditional on the retry_at they saw, while other actors enqueue and purge.
 */
module ArtworkQueue {
  import opened Sequences
  import opened ArtworkTypes

  const ENQUEUE_CHUNK_SIZE := 100

  datatype Item = Item(key: Key, priority: int)
  datatype Row = Row(priority: int, attempts: nat, retryAt: int, enqueuedAt: int, trace: string)
  type Rows = map<Key, Row>

  const EMPTY_TRACE := "[]"

  function Max(a: int, b: int): int { if a < b then b else a }

  function KeyOf(it: Item): Key { PrimaryType(it.key) }

  ghost function KeysOf(items: seq<Item>): set<Key> { set i | 0 <= i < |items| :: KeyOf(items[i]) }

  /** The ON CONFLICT clauses of the three kinds of insert. */
  datatype OnConflict = Restart | KeepBackoff | DoNothing

  function Upsert(rows: Rows, mode: OnConflict, it: Item, now: int): Rows {
    var k := KeyOf(it);
    if k !in rows then rows[k := Row(it.priority, 0, now, now, EMPTY_TRACE)]
    else match mode
      case Restart => rows[k := Row(Max(rows[k].priority, it.priority), 0, now, now, EMPTY_TRACE)]
      case KeepBackoff => rows[k := rows[k].(priority := Max(rows[k].priority, it.priority))]
      case DoNothing => rows
  }

  function UpsertAll(rows: Rows, mode: OnConflict, items: seq<Item>, now: int): Rows {
    if items == [] then rows
    else Upsert(UpsertAll(rows, mode, items[..|items| - 1], now), mode, items[|items| - 1], now)
  }

  /** The items without an item_artwork row. */
  function Unresolved(items: seq<Item>, resolved: set<Key>): seq<Item> {
    if items == [] then []
    else
      var init, last := Unresolved(items[..|items| - 1], resolved), items[|items| - 1];
      if KeyOf(last) in resolved then init else init + [last]
  }

  /** Item i is the first of its key. */
  ghost predicate IsFirst(items: seq<Item>, i: int, k: Key) {
    0 <= i < |items| && KeyOf(items[i]) == k && forall j :: 0 <= j < i ==> KeyOf(items[j]) != k
  }

  predicate Unchanged(rows: Rows, k: Key, seen: int) { k in rows && rows[k].retryAt == seen }

  function FailRow(rows: Rows, k: Key, seen: int, retryAt: int, trace: string): Rows {
    if Unchanged(rows, k, seen)
    then rows[k := rows[k].(attempts := rows[k].attempts + 1, retryAt := retryAt, trace := trace)]
    else rows
  }

  function DeleteRow(rows: Rows, k: Key, seen: int): Rows {
    if Unchanged(rows, k, seen) then rows - {k} else rows
  }

  predicate Due(rows: Rows, k: Key, now: int, kinds: set<string>)
    requires k in rows
  {
    rows[k].retryAt <= now && (kinds == {} || k.kind in kinds)
  }

  /** ORDER BY priority DESC, enqueued_at ASC */
  predicate Before(a: Row, b: Row) {
    a.priority > b.priority || (a.priority == b.priority && a.enqueuedAt < b.enqueuedAt)
  }

  /** a is delivered no later than b: a larger priority, or the same and queued no later. */
  ghost predicate ComesFirst(a: Row, b: Row) {
    b.priority <= a.priority && (b.priority == a.priority ==> a.enqueuedAt <= b.enqueuedAt)
  }

  /** Item i is queued under this key: an image type that is not given is the primary one. */
  ghost predicate IsMention(items: seq<Item>, i: int, k: Key) {
    && 0 <= i < |items| && items[i].key.kind == k.kind && items[i].key.id == k.id
    && k.imageType == if items[i].key.imageType == "" then "primary" else items[i].key.imageType
  }

  ghost predicate Mentioned(items: seq<Item>, k: Key) { exists i :: IsMention(items, i, k) }

  /** p is the largest of the row's priority, if it was queued, and those of its mentions. */
  ghost predicate IsTopPriority(rows: Rows, items: seq<Item>, k: Key, p: int) {
    && (k in rows ==> rows[k].priority <= p)
    && (forall i :: IsMention(items, i, k) ==> items[i].priority <= p)
    && ((k in rows && p == rows[k].priority) || exists i :: IsMention(items, i, k) && p == items[i].priority)
  }

  /** What an insert leaves under a key: a row not mentioned stays.  A mentioned one takes the largest
      priority; Enqueue starts it afresh, EnqueuePreservingBackoff changes nothing else.  The third kind
      leaves a queued row alone. */
  ghost predicate InsertedAs(rows: Rows, mode: OnConflict, items: seq<Item>, now: int, k: Key, row: Row) {
    if !Mentioned(items, k) then k in rows && row == rows[k]
    else if k !in rows || mode == Restart then
      && row == Row(row.priority, 0, now, now, "[]")
      && (mode != DoNothing ==> IsTopPriority(rows, items, k, row.priority))
    else if mode == KeepBackoff then
      row == rows[k].(priority := row.priority) && IsTopPriority(rows, items, k, row.priority)
    else row == rows[k]
  }

  lemma MentionIsKey(items: seq<Item>, k: Key)
    ensures forall i :: IsMention(items, i, k) <==> 0 <= i < |items| && KeyOf(items[i]) == k
    ensures Mentioned(items, k) <==> k in KeysOf(items)
  {
    if k in KeysOf(items) {
      var i :| 0 <= i < |items| && KeyOf(items[i]) == k;
      assert IsMention(items, i, k);
    }
  }

  /** One item more. */
  lemma MentionSnoc(rows: Rows, items: seq<Item>, k: Key, p: int)
    requires items != []
    ensures var init, it := items[..|items| - 1], items[|items| - 1];
            && (Mentioned(items, k) <==> Mentioned(init, k) || KeyOf(it) == k)
            && (IsTopPriority(rows, init, k, p) && KeyOf(it) != k ==> IsTopPriority(rows, items, k, p))
            && (IsTopPriority(rows, init, k, p) && KeyOf(it) == k ==>
                  IsTopPriority(rows, items, k, if p < it.priority then it.priority else p))
  {
    var n := |items| - 1;
    MentionIsKey(items, k);
    MentionIsKey(items[..n], k);
    KeysOfSnoc(items);
    forall i | 0 <= i < n ensures IsMention(items, i, k) <==> IsMention(items[..n], i, k) {}
  }

  lemma {:induction false} UpsertedKey(rows: Rows, mode: OnConflict, items: seq<Item>, now: int, k: Key)
    ensures var after := UpsertAll(rows, mode, items, now);
            && (k in after <==> k in rows || Mentioned(items, k))
            && (k in after ==> InsertedAs(rows, mode, items, now, k, after[k]))
    decreases |items|
  {
    if items != [] {
      var init, it := items[..|items| - 1], items[|items| - 1];
      var before := UpsertAll(rows, mode, init, now);
      UpsertedKey(rows, mode, init, now, k);
      MentionSnoc(rows, items, k, if k in before then before[k].priority else it.priority);
      if KeyOf(it) == k && k !in before { OnlyMention(rows, items, k); }
      if KeyOf(it) == k && k in before && !Mentioned(init, k) { FirstMention(rows, items, k); }
    }
  }

  /** A new key's only mention so far gives it its priority. */
  lemma OnlyMention(rows: Rows, items: seq<Item>, k: Key)
    requires items != [] && KeyOf(items[|items| - 1]) == k && k !in rows && !Mentioned(items[..|items| - 1], k)
    ensures IsTopPriority(rows, items, k, items[|items| - 1].priority)
  {
    var n := |items| - 1;
    MentionIsKey(items, k);
    forall i | IsMention(items, i, k) ensures i == n { assert i < n ==> IsMention(items[..n], i, k); }
    assert IsMention(items, n, k);
  }

  /** A queued key's first mention raises its priority or leaves it. */
  lemma FirstMention(rows: Rows, items: seq<Item>, k: Key)
    requires items != [] && KeyOf(items[|items| - 1]) == k && k in rows && !Mentioned(items[..|items| - 1], k)
    ensures var p := items[|items| - 1].priority;
            IsTopPriority(rows, items, k, if rows[k].priority < p then p else rows[k].priority)
  {
    var n := |items| - 1;
    MentionIsKey(items, k);
    forall i | IsMention(items, i, k) ensures i == n { assert i < n ==> IsMention(items[..n], i, k); }
    assert IsMention(items, n, k);
  }

  class QueueTable {
    var rows: Rows

    method InsertChunk(mode: OnConflict, chunk: seq<Item>, now: int)
      modifies this
      ensures rows == UpsertAll(old(rows), mode, chunk, now)
    {
      for i := 0 to |chunk|
        invariant rows == UpsertAll(old(rows), mode, chunk[..i], now)
      {
        rows := Upsert(rows, mode, chunk[i], now);
        assert chunk[..i + 1][..i] == chunk[..i];
      }
      assert chunk[..|chunk|] == chunk;
    }

    /** Enqueue, EnqueuePreservingBackoff and the insert-if-not-queued family, 100 rows a statement. */
    method Insert(mode: OnConflict, items: seq<Item>, now: int)
      modifies this
      ensures rows == UpsertAll(old(rows), mode, items, now)
      ensures forall k :: k in rows <==> k in old(rows) || Mentioned(items, k)
      ensures forall k :: k in rows ==> InsertedAs(old(rows), mode, items, now, k, rows[k])
    {
      var chunks := Chunks(items, ENQUEUE_CHUNK_SIZE);
      ChunksPartition(items, ENQUEUE_CHUNK_SIZE);
      for c := 0 to |chunks|
        invariant rows == UpsertAll(old(rows), mode, Flatten(chunks[..c]), now)
      {
        assert chunks[..c + 1] == chunks[..c] + [chunks[c]];
        FlattenAppend(chunks[..c], [chunks[c]]);
        assert Flatten([chunks[c]]) == chunks[c] + Flatten([]) == chunks[c];
        UpsertAllConcat(old(rows), mode, Flatten(chunks[..c]), chunks[c], now);
        InsertChunk(mode, chunks[c], now);
      }
      assert chunks[..|chunks|] == chunks;
      forall k
        ensures k in rows <==> k in old(rows) || Mentioned(items, k)
        ensures k in rows ==> InsertedAs(old(rows), mode, items, now, k, rows[k])
      {
        UpsertedKey(old(rows), mode, items, now, k);
      }
    }

    /** EnqueueIfMissing: items that already have an item_artwork row are left out, and a queued row
        stays; the new rows are the other items, each with the priority of its first mention. */
    method EnqueueIfMissing(items: seq<Item>, resolved: set<Key>, now: int)
      modifies this
      ensures rows == UpsertAll(old(rows), DoNothing, Unresolved(items, resolved), now)
      ensures forall k :: k in rows <==> k in old(rows) || (k in KeysOf(items) && k !in resolved)
      ensures forall k :: k in old(rows) ==> rows[k] == old(rows)[k]
      ensures forall k, i :: k in rows && k !in old(rows) && IsFirst(items, i, k) ==>
                rows[k] == Row(items[i].priority, 0, now, now, EMPTY_TRACE)
    {
      for i := 0 to |items|
        invariant rows == UpsertAll(old(rows), DoNothing, Unresolved(items[..i], resolved), now)
      {
        assert items[..i + 1][..i] == items[..i];
        if KeyOf(items[i]) !in resolved {
          UpsertAllSnoc(old(rows), DoNothing, Unresolved(items[..i], resolved), items[i], now);
          rows := Upsert(rows, DoNothing, items[i], now);
        }
      }
      assert items[..|items|] == items;
      UnresolvedKeys(items, resolved);
      forall k
        ensures k in rows <==> k in old(rows) || (k in KeysOf(items) && k !in resolved)
        ensures k in old(rows) ==> rows[k] == old(rows)[k]
      {
        InsertedKey(old(rows), Unresolved(items, resolved), now, k);
      }
      forall k, i | k in rows && k !in old(rows) && IsFirst(items, i, k)
        ensures rows[k] == Row(items[i].priority, 0, now, now, EMPTY_TRACE)
      {
        InsertedRow(old(rows), items, resolved, now, k, i);
      }
    }

    method MarkFailedIfUnchanged(k: Key, seen: int, retryAt: int, trace: string)
      modifies this
      ensures rows == FailRow(old(rows), k, seen, retryAt, trace)
      ensures rows.Keys == old(rows).Keys && forall j :: j in rows && j != k ==> rows[j] == old(rows)[j]
      ensures k in rows ==> var row := old(rows)[k];
                            rows[k] == if row.retryAt != seen then row
                                       else Row(row.priority, row.attempts + 1, retryAt, row.enqueuedAt, trace)
    {
      if k in rows && rows[k].retryAt == seen {
        rows := rows[k := Row(rows[k].priority, rows[k].attempts + 1, retryAt, rows[k].enqueuedAt, trace)];
      }
    }

    method DeleteIfUnchanged(k: Key, seen: int)
      modifies this
      ensures rows == DeleteRow(old(rows), k, seen)
      ensures forall j :: j in rows <==> j in old(rows) && (j != k || old(rows)[j].retryAt != seen)
      ensures forall j :: j in rows ==> rows[j] == old(rows)[j]
    {
      rows := map j | j in rows && !(j == k && rows[j].retryAt == seen) :: rows[j];
    }

    /** Up to n due rows; none of the rows left out comes strictly before one returned, and fewer than
        n are returned only when nothing due is left. */
    method DequeueBatch(n: nat, kinds: set<string>, now: int) returns (batch: seq<Key>)
      ensures |batch| <= n
      ensures forall i :: 0 <= i < |batch| ==> batch[i] in rows && Due(rows, batch[i], now, kinds)
      ensures forall i, j :: 0 <= i < j < |batch| ==> batch[i] != batch[j] && !Before(rows[batch[j]], rows[batch[i]])
      ensures forall k, i :: k in rows && Due(rows, k, now, kinds) && k !in batch && 0 <= i < |batch| ==>
                !Before(rows[k], rows[batch[i]])
      ensures |batch| < n ==> forall k :: k in rows && Due(rows, k, now, kinds) ==> k in batch
      // due, of the kinds asked for, largest priority first, then the longest queued
      ensures forall i :: 0 <= i < |batch| ==>
                rows[batch[i]].retryAt <= now && (kinds == {} || batch[i].kind in kinds)
      ensures forall i, j :: 0 <= i < j < |batch| ==> ComesFirst(rows[batch[i]], rows[batch[j]])
      ensures forall k, i ::
                (k in rows && k !in batch && rows[k].retryAt <= now && (kinds == {} || k.kind in kinds)
                 && 0 <= i < |batch|) ==> ComesFirst(rows[batch[i]], rows[k])
    {
      batch := [];
      var rest := set k | k in rows && Due(rows, k, now, kinds);
      while |batch| < n && rest != {}
        invariant |batch| <= n
        invariant forall k :: k in rows && Due(rows, k, now, kinds) <==> k in rest || k in batch
        invariant forall k :: k in batch ==> k !in rest
        invariant forall i, j :: 0 <= i < j < |batch| ==>
                    && batch[i] in rows && batch[j] in rows && batch[i] != batch[j]
                    && !Before(rows[batch[j]], rows[batch[i]])
        invariant forall k, b :: k in rest && b in batch ==> k in rows && b in rows && !Before(rows[k], rows[b])
        decreases |rest|
      {
        FirstExists(rows, rest);
        var k :| k in rest && forall j :: j in rest ==> !Before(rows[j], rows[k]);
        batch := batch + [k];
        rest := rest - {k};
      }
    }
  }

  lemma UpsertAllSnoc(rows: Rows, mode: OnConflict, items: seq<Item>, it: Item, now: int)
    ensures UpsertAll(rows, mode, items + [it], now) == Upsert(UpsertAll(rows, mode, items, now), mode, it, now)
  {
    assert (items + [it])[..|items|] == items;
  }

  lemma {:induction false} UnresolvedKeys(items: seq<Item>, resolved: set<Key>)
    ensures KeysOf(Unresolved(items, resolved)) == KeysOf(items) - resolved
    decreases |items|
  {
    if items != [] {
      var n := |items| - 1;
      UnresolvedKeys(items[..n], resolved);
      KeysOfSnoc(items);
      if KeyOf(items[n]) !in resolved {
        assert Unresolved(items, resolved)[..|Unresolved(items, resolved)| - 1] == Unresolved(items[..n], resolved);
        KeysOfSnoc(Unresolved(items, resolved));
      }
    }
  }

  /** What inserting items without touching queued rows leaves under one key. */
  lemma {:induction false} InsertedKey(rows: Rows, items: seq<Item>, now: int, k: Key)
    ensures var after := UpsertAll(rows, DoNothing, items, now);
            && (k in after <==> k in rows || k in KeysOf(items))
            && (k in rows ==> after[k] == rows[k])
    decreases |items|
  {
    if items != [] {
      InsertedKey(rows, items[..|items| - 1], now, k);
      KeysOfSnoc(items);
    }
  }

  /** A new row has the priority of its key's first mention. */
  lemma {:induction false} InsertedRow(rows: Rows, items: seq<Item>, resolved: set<Key>, now: int, k: Key, i: int)
    requires k !in rows && k !in resolved && IsFirst(items, i, k)
    ensures var after := UpsertAll(rows, DoNothing, Unresolved(items, resolved), now);
            k in after && after[k] == Row(items[i].priority, 0, now, now, EMPTY_TRACE)
    decreases |items|
  {
    var n := |items| - 1;
    var init := items[..n];
    InsertedKey(rows, Unresolved(init, resolved), now, k);
    if i < n {
      assert IsFirst(init, i, k);
      InsertedRow(rows, init, resolved, now, k, i);
    } else {
      assert k !in KeysOf(init);
      UnresolvedKeys(init, resolved);
    }
  }

  lemma KeysOfSnoc(items: seq<Item>)
    requires items != []
    ensures KeysOf(items) == KeysOf(items[..|items| - 1]) + {KeyOf(items[|items| - 1])}
  {
    var n := |items| - 1;
    forall k | k in KeysOf(items) ensures k in KeysOf(items[..n]) + {KeyOf(items[n])} {
      var i :| 0 <= i < |items| && KeyOf(items[i]) == k;
      assert i < n ==> KeyOf(items[..n][i]) == k;
    }
  }

  lemma {:induction false} UpsertAllConcat(rows: Rows, mode: OnConflict, a: seq<Item>, b: seq<Item>, now: int)
    ensures UpsertAll(rows, mode, a + b, now) == UpsertAll(UpsertAll(rows, mode, a, now), mode, b, now)
  {
    if b == [] {
      assert a + b == a;
    } else {
      UpsertAllConcat(rows, mode, a, b[..|b| - 1], now);
      assert (a + b)[..|a + b| - 1] == a + b[..|b| - 1];
    }
  }

  lemma {:induction false} FirstExists(rows: Rows, rest: set<Key>)
    requires rest != {} && rest <= rows.Keys
    ensures exists k :: k in rest && forall j :: j in rest ==> !Before(rows[j], rows[k])
    decreases |rest|
  {
    var k :| k in rest;
    if rest == {k} {
    } else {
      FirstExists(rows, rest - {k});
      var m :| m in rest - {k} && forall j :: j in rest - {k} ==> !Before(rows[j], rows[m]);
      var first := if Before(rows[k], rows[m]) then k else m;
      assert first in rest && forall j :: j in rest ==> !Before(rows[j], rows[first]);
    }
  }
}
