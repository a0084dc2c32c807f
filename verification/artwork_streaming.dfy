/** Streamed rows: a cursor by chunks of ids against one query, and hydration by batches against
    hydration row by row.  Consumers may stop at any row. */
module ArtworkStreaming {
  import opened Wrappers
  import opened Sequences

  const BATCH_SIZE: nat := 200
  const CHUNK_SIZE: nat := BATCH_SIZE * 3

  // ---------------------------------------------------------------------------------------------
  // Delivering to a consumer

  datatype Event<+T, +E> = Row(row: T) | Failed(error: E)

  /** What a consumer has received, and whether the iteration goes on. */
  datatype Delivered<T, E> = Delivered(out: seq<Event<T, E>>, open: bool)

  /** A consumer: whether it wants more after what it has received. */
  type Consumer<!T, !E> = seq<Event<T, E>> -> bool

  function Give<T, E>(d: Delivered<T, E>, e: Event<T, E>, more: Consumer<T, E>): Delivered<T, E> {
    Delivered(d.out + [e], e.Row? && more(d.out + [e]))
  }

  /** The events one by one, until the consumer stops or one is a failure. */
  function Pass<T, E>(events: seq<Event<T, E>>, more: Consumer<T, E>, d: Delivered<T, E>): Delivered<T, E>
    decreases |events|
  {
    if events == [] || !d.open then d else Pass(events[1..], more, Give(d, events[0], more))
  }

  lemma {:induction false} PassConcat<T, E>(
      a: seq<Event<T, E>>, b: seq<Event<T, E>>, more: Consumer<T, E>, d: Delivered<T, E>)
    ensures Pass(a + b, more, d) == Pass(b, more, Pass(a, more, d))
    decreases |a|
  {
    if a == [] {
      assert a + b == b;
    } else if d.open {
      assert (a + b)[1..] == a[1..] + b;
      PassConcat(a[1..], b, more, Give(d, a[0], more));
    }
  }

  lemma {:induction false} PassKeeps<T, E>(events: seq<Event<T, E>>, more: Consumer<T, E>, d: Delivered<T, E>)
    ensures d.out <= Pass(events, more, d).out
    ensures d.open && events != [] ==>
              |d.out| < |Pass(events, more, d).out| && Pass(events, more, d).out[|d.out|] == events[0]
    decreases |events|
  {
    if events != [] && d.open { PassKeeps(events[1..], more, Give(d, events[0], more)); }
  }

  /** After the first k events, the last of them a row, the consumer wants more. */
  ghost predicate WantsMore<T, E>(out: seq<Event<T, E>>, k: int, more: Consumer<T, E>) {
    0 < k <= |out| && out[k - 1].Row? && more(out[..k])
  }

  /** What a consumer receives: the events in order, up to the first after which it wants no more or which
      is a failure; nothing follows that one. */
  lemma {:induction false} PassIs<T, E>(events: seq<Event<T, E>>, more: Consumer<T, E>, d: Delivered<T, E>)
    requires d.open
    ensures var r := Pass(events, more, d);
            && |d.out| <= |r.out| <= |d.out| + |events| && r.out == d.out + events[..|r.out| - |d.out|]
            && (forall k :: |d.out| < k < |r.out| ==> WantsMore(r.out, k, more))
            && (r.open ==> |r.out| == |d.out| + |events| && (events != [] ==> WantsMore(r.out, |r.out|, more)))
            && (!r.open ==> |r.out| > |d.out| && !WantsMore(r.out, |r.out|, more))
    decreases |events|
  {
    if events != [] {
      var next := Give(d, events[0], more);
      assert next.out[..|next.out|] == next.out;
      if next.open {
        PassIs(events[1..], more, next);
        var r := Pass(events, more, d);
        assert r.out[..|next.out|] == next.out;
        assert WantsMore(r.out, |next.out|, more);
        assert events[..|r.out| - |d.out|] == [events[0]] + events[1..][..|r.out| - |next.out|];
      } else {
        assert events[..1] == [events[0]];
      }
    }
  }

  function Rows<T, E>(rows: seq<T>): seq<Event<T, E>> { seq(|rows|, i requires 0 <= i < |rows| => Row(rows[i])) }

  function Nothing<T, E>(): Delivered<T, E> { Delivered([], true) }

  method YieldRows<T, E>(rows: seq<T>, more: Consumer<T, E>, d: Delivered<T, E>) returns (d': Delivered<T, E>)
    requires d.open
    ensures d' == Pass(Rows<T, E>(rows), more, d)
  {
    d' := d;
    for i := 0 to |rows|
      invariant d'.open && Pass(Rows<T, E>(rows), more, d) == Pass(Rows<T, E>(rows[i..]), more, d')
    {
      assert Rows<T, E>(rows[i..])[1..] == Rows<T, E>(rows[i + 1..]);
      d' := Give(d', Row(rows[i]), more);
      if !d'.open { return; }
    }
  }

  // ---------------------------------------------------------------------------------------------
  // Streaming by ids

  function StreamEvents<T, E>(chunks: seq<seq<string>>, fetch: seq<string> -> Result<seq<T>, E>): seq<Event<T, E>> {
    if chunks == [] then []
    else
      match fetch(chunks[0])
      case Err(e) => [Failed(e)]
      case Ok(rows) => Rows(rows) + StreamEvents(chunks[1..], fetch)
  }

  /** The stream of the chunks: their rows in order, and when a chunk fails its error, and nothing more. */
  lemma {:induction false} StreamEventsAre<T, E>(chunks: seq<seq<string>>, fetch: seq<string> -> Result<seq<T>, E>,
                                                 n: nat)
    requires n <= |chunks| && forall k :: 0 <= k < n ==> fetch(chunks[k]).Ok?
    requires n < |chunks| ==> fetch(chunks[n]).Err?
    ensures StreamEvents(chunks, fetch) ==
              Rows<T, E>(Flatten(seq(n, k requires 0 <= k < n => fetch(chunks[k]).value))) +
              (if n < |chunks| then [Failed(fetch(chunks[n]).error)] else [])
    decreases n
  {
    var parts := seq(n, k requires 0 <= k < n => fetch(chunks[k]).value);
    if n > 0 {
      StreamEventsAre(chunks[1..], fetch, n - 1);
      assert parts[1..] == seq(n - 1, k requires 0 <= k < n - 1 => fetch(chunks[1..][k]).value);
    }
  }

  method StreamByIDs<T, E>(ids: seq<string>, fetch: seq<string> -> Result<seq<T>, E>, more: Consumer<T, E>)
    returns (d: Delivered<T, E>)
    ensures d == Pass(StreamEvents(Chunks(ids, CHUNK_SIZE), fetch), more, Nothing())
  {
    d := Nothing();
    var chunks := Chunks(ids, CHUNK_SIZE);
    for k := 0 to |chunks|
      invariant d.open
      invariant Pass(StreamEvents(chunks, fetch), more, Nothing()) == Pass(StreamEvents(chunks[k..], fetch), more, d)
    {
      assert chunks[k..][1..] == chunks[k + 1..];
      match fetch(chunks[k]) {
        case Err(e) =>
          var failed: Event<T, E> := Failed(e);
          assert [failed][1..] == [];
          d := Give(d, failed, more);
          return;
        case Ok(rows) =>
          PassConcat(Rows(rows), StreamEvents(chunks[k + 1..], fetch), more, d);
          d := YieldRows(rows, more, d);
          if !d.open { return; }
      }
    }
  }

  // ---------------------------------------------------------------------------------------------
  // Queries

  predicate Distinct<T(==)>(s: seq<T>) { forall i, j :: 0 <= i < j < |s| ==> s[i] != s[j] }

  predicate Sorted<T>(s: seq<T>, leq: (T, T) -> bool) { forall i, j :: 0 <= i < j < |s| ==> leq(s[i], s[j]) }

  function Elems<T>(s: seq<T>): set<T> { set x | x in s }

  /** A list SQLite may return for an ordered selection: rows that tie come in any order. */
  ghost predicate Answer<T>(rows: seq<T>, selected: set<T>, leq: (T, T) -> bool) {
    Distinct(rows) && Elems(rows) == selected && Sorted(rows, leq)
  }

  /** LIMIT and OFFSET, each ignored when not positive. */
  function Page<T>(rows: seq<T>, offset: int, max: int): seq<T> {
    rows[PageStart(|rows|, offset)..PageEnd(|rows|, offset, max)]
  }

  function PageStart(count: nat, offset: int): (from: nat)
    ensures from <= count
  {
    if offset <= 0 then 0 else if offset < count then offset else count
  }

  function PageEnd(count: nat, offset: int, max: int): (to: nat)
    ensures PageStart(count, offset) <= to <= count
  {
    var from := PageStart(count, offset);
    if max <= 0 || from + max > count then count else from + max
  }

  lemma {:induction false} DistinctLength<T>(s: seq<T>)
    requires Distinct(s)
    ensures |Elems(s)| == |s|
    decreases |s|
  {
    if s != [] {
      var n := |s| - 1;
      DistinctLength(s[..n]);
      assert Elems(s) == Elems(s[..n]) + {s[n]};
      assert s[n] !in s[..n];
    }
  }

  ghost predicate NoTies<T(!new)>(selected: set<T>, leq: (T, T) -> bool) {
    forall x, y :: x in selected && y in selected && leq(x, y) && leq(y, x) ==> x == y
  }

  lemma LastAgrees<T(!new)>(a: seq<T>, b: seq<T>, selected: set<T>, leq: (T, T) -> bool)
    requires Answer(a, selected, leq) && Answer(b, selected, leq) && NoTies(selected, leq) && |a| == |b| > 0
    ensures a[|a| - 1] == b[|b| - 1]
  {
    var n := |a| - 1;
    assert a[n] in Elems(b) && b[n] in Elems(a);
    var i :| 0 <= i < |b| && b[i] == a[n];
    var j :| 0 <= j < |a| && a[j] == b[n];
  }

  lemma AnswerInit<T>(a: seq<T>, selected: set<T>, leq: (T, T) -> bool)
    requires Answer(a, selected, leq) && a != []
    ensures Answer(a[..|a| - 1], selected - {a[|a| - 1]}, leq)
  {
  }

  /** When no two rows tie there is one answer. */
  lemma {:induction false} AnswerUnique<T(!new)>(a: seq<T>, b: seq<T>, selected: set<T>, leq: (T, T) -> bool)
    requires Answer(a, selected, leq) && Answer(b, selected, leq) && NoTies(selected, leq)
    ensures a == b
    decreases |a|
  {
    DistinctLength(a);
    DistinctLength(b);
    if a != [] {
      var n := |a| - 1;
      LastAgrees(a, b, selected, leq);
      AnswerInit(a, selected, leq);
      AnswerInit(b, selected, leq);
      AnswerUnique(a[..n], b[..n], selected - {a[n]}, leq);
      assert a == a[..n] + [a[n]] && b == b[..n] + [b[n]];
    }
  }

  /** Sorting the elements of two consecutive parts of a sorted list again, each on its own, sorts the
      whole. */
  lemma ResortConcat<T>(a: seq<T>, b: seq<T>, x: seq<T>, y: seq<T>, leq: (T, T) -> bool)
    requires Distinct(x + y) && Sorted(x + y, leq) && Answer(a, Elems(x), leq) && Answer(b, Elems(y), leq)
    ensures Answer(a + b, Elems(x + y), leq)
  {
    assert Elems(a + b) == Elems(a) + Elems(b) && Elems(x + y) == Elems(x) + Elems(y);
    forall i, j | 0 <= i < |a| && 0 <= j < |b| ensures a[i] != b[j] && leq(a[i], b[j]) {
      assert a[i] in Elems(x) && b[j] in Elems(y);
      var k :| 0 <= k < |x| && x[k] == a[i];
      var l :| 0 <= l < |y| && y[l] == b[j];
      assert (x + y)[k] == a[i] && (x + y)[|x| + l] == b[j];
    }
  }

  // ---------------------------------------------------------------------------------------------
  // The stream against one query

  /** A query on a table: its filter, its order and the id of a row. */
  datatype Query<!T> = Query(keep: T -> bool, leq: (T, T) -> bool, id: T -> string)

  ghost function Selected<T(!new)>(table: set<T>, q: Query<T>): set<T> { set r | r in table && q.keep(r) }

  ghost predicate IdsUnique<T(!new)>(table: set<T>, q: Query<T>) {
    forall r, s :: r in table && s in table && q.id(r) == q.id(s) ==> r == s
  }

  function Ids<T>(rows: seq<T>, q: Query<T>): seq<string> { seq(|rows|, i requires 0 <= i < |rows| => q.id(rows[i])) }

  ghost function InChunk<T(!new)>(table: set<T>, q: Query<T>, chunk: seq<string>): set<T> {
    set r | r in table && q.keep(r) && q.id(r) in chunk
  }

  /** The fetch narrows the query to a chunk of ids, with the same filter and order and no page. */
  ghost predicate Narrows<T(!new), E>(fetch: seq<string> -> Result<seq<T>, E>, table: set<T>, q: Query<T>) {
    forall chunk :: fetch(chunk).Ok? && Answer(fetch(chunk).value, InChunk(table, q, chunk), q.leq)
  }

  lemma InChunkOfRows<T(!new)>(table: set<T>, q: Query<T>, rows: seq<T>)
    requires IdsUnique(table, q) && Elems(rows) <= Selected(table, q)
    ensures InChunk(table, q, Ids(rows, q)) == Elems(rows)
  {
    var ids := Ids(rows, q);
    forall r | r in Elems(rows) ensures q.id(r) in ids {
      var i :| 0 <= i < |rows| && rows[i] == r;
      assert ids[i] == q.id(r);
    }
    forall r | r in InChunk(table, q, ids) ensures r in Elems(rows) {
      var i :| 0 <= i < |ids| && ids[i] == q.id(r);
      assert rows[i] in Elems(rows);
    }
  }

  /** The chunks bring exactly the rows of the id pre-pass, in an order the query allows. */
  lemma {:induction false} StreamResorts<T(!new), E>(
      rows: seq<T>, table: set<T>, q: Query<T>, fetch: seq<string> -> Result<seq<T>, E>)
    returns (out: seq<T>)
    requires IdsUnique(table, q) && Narrows(fetch, table, q)
    requires Distinct(rows) && Sorted(rows, q.leq) && Elems(rows) <= Selected(table, q)
    ensures StreamEvents(Chunks(Ids(rows, q), CHUNK_SIZE), fetch) == Rows(out)
    ensures Answer(out, Elems(rows), q.leq)
    decreases |rows|
  {
    var ids := Ids(rows, q);
    if |rows| == 0 {
      out := [];
    } else if |rows| <= CHUNK_SIZE {
      out := FetchChunk(rows, table, q, fetch);
      var chunks := Chunks(ids, CHUNK_SIZE);
      assert chunks == [ids] && |chunks[1..]| == 0;
      assert Rows<T, E>(out) + [] == Rows(out);
    } else {
      var x, y := rows[..CHUNK_SIZE], rows[CHUNK_SIZE..];
      assert rows == x + y;
      assert Ids(x, q) == ids[..CHUNK_SIZE] && Ids(y, q) == ids[CHUNK_SIZE..];
      var a := FetchChunk(x, table, q, fetch);
      var b := StreamResorts(y, table, q, fetch);
      ResortConcat(a, b, x, y, q.leq);
      var chunks := Chunks(ids, CHUNK_SIZE);
      assert chunks[0] == ids[..CHUNK_SIZE] && chunks[1..] == Chunks(ids[CHUNK_SIZE..], CHUNK_SIZE);
      out := a + b;
      assert Rows<T, E>(out) == Rows(a) + Rows(b);
    }
  }

  lemma FetchChunk<T(!new), E>(rows: seq<T>, table: set<T>, q: Query<T>, fetch: seq<string> -> Result<seq<T>, E>)
    returns (out: seq<T>)
    requires IdsUnique(table, q) && Narrows(fetch, table, q) && Elems(rows) <= Selected(table, q)
    ensures fetch(Ids(rows, q)) == Ok(out) && Answer(out, Elems(rows), q.leq)
  {
    InChunkOfRows(table, q, rows);
    out := fetch(Ids(rows, q)).value;
  }

  lemma AnswerOfSlice<T>(full: seq<T>, from: nat, to: nat, selected: set<T>, leq: (T, T) -> bool)
    requires Answer(full, selected, leq) && from <= to <= |full|
    ensures Answer(full[from..to], Elems(full[from..to]), leq) && Elems(full[from..to]) <= selected
  {
  }

  /** Streaming a page is one query with the page's options: the stream is the same page of an answer
      to that query, and the very page read first when no two rows tie. */
  lemma StreamIsOneQuery<T(!new), E>(
      full: seq<T>, offset: int, max: int, table: set<T>, q: Query<T>, fetch: seq<string> -> Result<seq<T>, E>)
    returns (out: seq<T>, full': seq<T>)
    requires IdsUnique(table, q) && Narrows(fetch, table, q) && Answer(full, Selected(table, q), q.leq)
    ensures StreamEvents(Chunks(Ids(Page(full, offset, max), q), CHUNK_SIZE), fetch) == Rows(out)
    ensures Answer(full', Selected(table, q), q.leq) && Page(full', offset, max) == out
    ensures Elems(out) == Elems(Page(full, offset, max))
    ensures NoTies(table, q.leq) ==> out == Page(full, offset, max)
  {
    var from, to := PageStart(|full|, offset), PageEnd(|full|, offset, max);
    var page, before, after := full[from..to], full[..from], full[to..];
    AnswerOfSlice(full, from, to, Selected(table, q), q.leq);
    out := StreamResorts(page, table, q, fetch);
    full' := before + out + after;
    assert full == before + page + after;
    ReplaceMiddle(before, page, after, out, q.leq);
    PageReplaced(full, offset, max, out);
    if NoTies(table, q.leq) {
      AnswerUnique(out, page, Elems(page), q.leq);
    }
  }

  /** A page, row by row: row k of it is row offset + k, and is there while that is a row and k is under the
      limit; an offset or a limit that is not positive does not count. */
  lemma PageAt<T>(rows: seq<T>, offset: int, max: int, k: nat)
    ensures var first := if offset > 0 then offset else 0;
            && (k < |Page(rows, offset, max)| <==> first + k < |rows| && (max > 0 ==> k < max))
            && (k < |Page(rows, offset, max)| ==> Page(rows, offset, max)[k] == rows[first + k])
  {
  }

  lemma PageReplaced<T>(full: seq<T>, offset: int, max: int, out: seq<T>)
    requires Distinct(Page(full, offset, max)) && Distinct(out) && Elems(out) == Elems(Page(full, offset, max))
    ensures Page(full[..PageStart(|full|, offset)] + out + full[PageEnd(|full|, offset, max)..], offset, max) == out
  {
    DistinctLength(Page(full, offset, max));
    DistinctLength(out);
    var from, to := PageStart(|full|, offset), PageEnd(|full|, offset, max);
    assert (full[..from] + out + full[to..])[from..to] == out;
  }

  lemma ReplaceMiddle<T>(x: seq<T>, y: seq<T>, z: seq<T>, out: seq<T>, leq: (T, T) -> bool)
    requires Distinct(x + y + z) && Sorted(x + y + z, leq) && Answer(out, Elems(y), leq)
    ensures Answer(x + out + z, Elems(x + y + z), leq)
  {
    var whole := x + y + z;
    assert x == whole[..|x|] && z == whole[|x| + |y|..] && x + y == whole[..|x| + |y|];
    AnswerOfSlice(whole, 0, |x|, Elems(whole), leq);
    AnswerOfSlice(whole, |x| + |y|, |whole|, Elems(whole), leq);
    AnswerOfSlice(whole, 0, |x| + |y|, Elems(whole), leq);
    ResortConcat(x, out, x, y, leq);
    ResortConcat(x + out, z, x + y, z, leq);
  }

  // ---------------------------------------------------------------------------------------------
  // Hydration by batches

  /** Hydrating a batch is hydrating each row of it. */
  ghost predicate RowWise<T(!new)>(hydrate: seq<T> -> seq<T>, one: T -> T) {
    forall batch :: hydrate(batch) == Each(one, batch)
  }

  function Each<T>(one: T -> T, rows: seq<T>): seq<T> { seq(|rows|, i requires 0 <= i < |rows| => one(rows[i])) }

  /** A cursor gives its rows, then an error if it fails. */
  datatype Cursor<T, E> = Cursor(rows: seq<T>, error: Option<E>)

  function Ending<T, E>(error: Option<E>): seq<Event<T, E>> { if error.Some? then [Failed(error.value)] else [] }

  /** What row-by-row hydration gives. */
  function RowByRow<T, E>(c: Cursor<T, E>, one: T -> T): seq<Event<T, E>> { Rows(Each(one, c.rows)) + Ending(c.error) }

  /** What batch hydration gives: the rows buffered when the cursor fails are dropped. */
  function Batched<T, E>(rows: seq<T>, error: Option<E>, hydrate: seq<T> -> seq<T>): seq<Event<T, E>> {
    if |rows| < BATCH_SIZE then
      if error.Some? then [Failed(error.value)] else if rows == [] then [] else Rows(hydrate(rows))
    else Rows(hydrate(rows[..BATCH_SIZE])) + Batched(rows[BATCH_SIZE..], error, hydrate)
  }

  method HydrateCursor<T, E>(c: Cursor<T, E>, hydrate: seq<T> -> seq<T>, more: Consumer<T, E>)
    returns (d: Delivered<T, E>)
    ensures d == Pass(Batched(c.rows, c.error, hydrate), more, Nothing())
  {
    d := Nothing();
    var buf: seq<T> := [];
    assert buf + c.rows[0..] == c.rows;
    for i := 0 to |c.rows|
      invariant |buf| < BATCH_SIZE && d.open
      invariant Pass(Batched(c.rows, c.error, hydrate), more, Nothing()) ==
                  Pass(Batched(buf + c.rows[i..], c.error, hydrate), more, d)
    {
      assert buf + c.rows[i..] == (buf + [c.rows[i]]) + c.rows[i + 1..];
      buf := buf + [c.rows[i]];
      if |buf| == BATCH_SIZE {
        FlushBatch(buf, c.rows[i + 1..], c.error, hydrate, more, d);
        d := YieldRows(hydrate(buf), more, d);
        if !d.open { return; }
        buf := [];
        assert [] + c.rows[i + 1..] == c.rows[i + 1..];
      }
    }
    assert buf + c.rows[|c.rows|..] == buf;
    if c.error.Some? {
      var failed: Event<T, E> := Failed(c.error.value);
      assert [failed][1..] == [];
      d := Give(d, failed, more);
    } else if |buf| > 0 {
      d := YieldRows(hydrate(buf), more, d);
    }
  }

  lemma FlushBatch<T, E>(buf: seq<T>, rest: seq<T>, error: Option<E>, hydrate: seq<T> -> seq<T>, more: Consumer<T, E>,
                         d: Delivered<T, E>)
    requires |buf| == BATCH_SIZE
    ensures Pass(Batched(buf + rest, error, hydrate), more, d) ==
              Pass(Batched(rest, error, hydrate), more, Pass(Rows(hydrate(buf)), more, d))
  {
    assert (buf + rest)[..BATCH_SIZE] == buf && (buf + rest)[BATCH_SIZE..] == rest;
    PassConcat(Rows(hydrate(buf)), Batched(rest, error, hydrate), more, d);
  }

  /** The rows of full batches. */
  function Flushed(count: nat): (n: nat)
    ensures n <= count < n + BATCH_SIZE
    ensures n == count <==> count % BATCH_SIZE == 0
  {
    count - count % BATCH_SIZE
  }

  lemma EachConcat<T, E>(one: T -> T, a: seq<T>, b: seq<T>)
    ensures Rows<T, E>(Each(one, a + b)) == Rows(Each(one, a)) + Rows(Each(one, b))
  {
  }

  lemma {:induction false} BatchedIs<T(!new), E>(rows: seq<T>, error: Option<E>, hydrate: seq<T> -> seq<T>, one: T -> T)
    requires RowWise(hydrate, one)
    ensures Batched(rows, error, hydrate) ==
              Rows(Each(one, if error.Some? then rows[..Flushed(|rows|)] else rows)) + Ending(error)
    decreases |rows|
  {
    if |rows| >= BATCH_SIZE {
      var first, rest := rows[..BATCH_SIZE], rows[BATCH_SIZE..];
      BatchedIs(rest, error, hydrate, one);
      var kept := if error.Some? then rest[..Flushed(|rest|)] else rest;
      assert (if error.Some? then rows[..Flushed(|rows|)] else rows) == first + kept;
      EachConcat<T, E>(one, first, kept);
    }
  }

  /** The consumer stops within the rows of the full batches. */
  ghost predicate StopsWithin<T, E>(c: Cursor<T, E>, one: T -> T, more: Consumer<T, E>) {
    !Pass(Rows(Each(one, c.rows[..Flushed(|c.rows|)])), more, Nothing<T, E>()).open
  }

  /** For every consumer, batch hydration equals row-by-row hydration exactly when the cursor does not
      fail, or fails at a batch boundary, or the consumer has stopped before the rows that were lost. */
  lemma BatchedIffRowByRow<T(!new), E>(c: Cursor<T, E>, hydrate: seq<T> -> seq<T>, one: T -> T, more: Consumer<T, E>)
    requires RowWise(hydrate, one)
    ensures Pass(Batched(c.rows, c.error, hydrate), more, Nothing()) == Pass(RowByRow(c, one), more, Nothing())
            <==> c.error.None? || |c.rows| % BATCH_SIZE == 0 || StopsWithin(c, one, more)
  {
    BatchedIs(c.rows, c.error, hydrate, one);
    var n := Flushed(|c.rows|);
    if c.error.Some? && n < |c.rows| {
      var kept, lost: seq<Event<T, E>> := Rows(Each(one, c.rows[..n])), Rows(Each(one, c.rows[n..]));
      var tail := Ending<T, E>(c.error);
      assert RowByRow(c, one) == kept + (lost + tail);
      PassConcat(kept, tail, more, Nothing());
      PassConcat(kept, lost + tail, more, Nothing());
      var d := Pass(kept, more, Nothing());
      PassKeeps(tail, more, d);
      PassKeeps(lost + tail, more, d);
    } else {
      assert c.rows[..n] == c.rows || c.error.None?;
    }
  }

  // ---------------------------------------------------------------------------------------------
  // Hydrating the rows of a batch

  /** A row of a page: its id and, once hydrated, its image. */
  datatype Item<I> = Item(id: string, image: Option<I>)

  /** The stored image on its own row. */
  function HydrateOne<I>(stored: map<string, I>, item: Item<I>): Item<I> {
    if item.id in stored then item.(image := Some(stored[item.id])) else item
  }

  /** No query for a chunk of the ids fails. */
  predicate NoneFails(ids: seq<string>, fails: seq<string> -> bool) {
    var chunks := Chunks(ids, 200);
    forall k :: 0 <= k < |chunks| ==> !fails(chunks[k])
  }

  /** The images of the ids asked for, one query per 200 of them; there are none if and only if one fails. */
  method GetInfoForItems<I>(stored: map<string, I>, ids: seq<string>, fails: seq<string> -> bool)
    returns (infos: Option<map<string, I>>)
    ensures infos.Some? <==> NoneFails(ids, fails)
    ensures infos.Some? ==> infos.value.Keys == set id | id in ids && id in stored
    ensures infos.Some? ==> forall id :: id in infos.value ==> infos.value[id] == stored[id]
  {
    var found: map<string, I> := map[];
    var chunks := Chunks(ids, BATCH_SIZE);
    for k := 0 to |chunks|
      invariant forall id :: id in found <==> id in stored && id in Flatten(chunks[..k])
      invariant forall id :: id in found ==> found[id] == stored[id]
      invariant forall j :: 0 <= j < k ==> !fails(chunks[j])
    {
      if fails(chunks[k]) { return None; }
      FlattenStep(chunks, k);
      found := found + map id | id in chunks[k] && id in stored :: stored[id];
    }
    ChunksPartition(ids, BATCH_SIZE);
    assert chunks[..|chunks|] == chunks;
    return Some(found);
  }

  /** One lookup for the whole batch gives every row what its own lookup would; when it fails no row is
      touched. */
  method HydrateItems<I>(stored: map<string, I>, items: seq<Item<I>>, fails: seq<string> -> bool)
    returns (out: seq<Item<I>>, failed: bool)
    ensures |out| == |items|
    ensures failed <==> !NoneFails(seq(|items|, i requires 0 <= i < |items| => items[i].id), fails)
    ensures forall i :: 0 <= i < |items| ==> out[i] == if failed then items[i] else HydrateOne(stored, items[i])
  {
    var ids := seq(|items|, i requires 0 <= i < |items| => items[i].id);
    var found := GetInfoForItems(stored, ids, fails);
    failed := found.None?;
    var infos := if failed then map[] else found.value;
    out := items;
    for i := 0 to |items|
      invariant |out| == |items|
      invariant forall k :: 0 <= k < |items| ==>
                  out[k] == if k < i && !failed then HydrateOne(stored, items[k]) else items[k]
    {
      assert ids[i] == items[i].id;
      if items[i].id in infos { out := out[i := out[i].(image := Some(infos[items[i].id]))]; }
    }
  }
}
