/**
 * Image rows and the item rows that name them.  A worker first writes an image and only later links
 * an item to it; the prune removes images no item names, once they are older than a grace period.
 */
module ArtworkPrune {
  import opened Sequences
  import opened ArtworkTypes

  const BATCH_SIZE := 200

  /** created_at of each image. */
  type Images = map<string, int>

  /** The hash each item names; the empty hash names no image. */
  type Items = map<Key, string>

  ghost function Orphans(images: Images, items: Items, createdBefore: int): set<string> {
    set h | h in images && images[h] < createdBefore && (h == "" || h !in items.Values)
  }

  ghost function Purged(images: Images, items: Items, createdBefore: int): Images {
    images - Orphans(images, items, createdBefore)
  }

  /** The item rows of a kind whose ids are listed. */
  ghost function RowsOf(items: Items, kind: string, ids: seq<string>): set<Key> {
    set k | k in items && k.kind == kind && k.id in ids
  }

  /** The item rows whose owner is gone, for the kinds listed. */
  ghost function Dangling(items: Items, kinds: seq<string>, owners: map<string, set<string>>): set<Key> {
    set k | k in items && k.kind in kinds && k.kind in owners && k.id !in owners[k.kind]
  }

  /** The upsert of an image: its age starts again. */
  function Stamped(images: Images, hash: string, at: int): Images { images[hash := at] }

  /** The upsert of an item: under the primary type when none is given. */
  function Linked(items: Items, key: Key, hash: string): Items { items[PrimaryType(key) := hash] }

  class ArtworkTables {
    var images: Images
    var items: Items

    method PutImage(hash: string, now: int)
      modifies this`images
      ensures images == Stamped(old(images), hash, now)
    {
      images := images[hash := now];
    }

    method PutItemArtwork(key: Key, hash: string)
      modifies this`items
      ensures items == Linked(old(items), key, hash)
    {
      var stored := if key.imageType == "" then key.(imageType := IMAGE_TYPE_PRIMARY) else key;
      items := items[stored := hash];
    }

    method PurgeOrphans(createdBefore: int) returns (count: nat)
      modifies this`images
      ensures images == Purged(old(images), items, createdBefore)
      ensures count == |old(images)| - |images|
    {
      var orphans := set h | h in images && images[h] < createdBefore && (h == "" || h !in items.Values);
      count := |orphans|;
      images := images - orphans;
    }

    method DeleteForItems(kind: string, ids: seq<string>)
      modifies this`items
      ensures items == old(items) - RowsOf(old(items), kind, ids)
    {
      var chunks := Chunks(ids, BATCH_SIZE);
      ChunksPartition(ids, BATCH_SIZE);
      for k := 0 to |chunks|
        invariant items == old(items) - RowsOf(old(items), kind, Flatten(chunks[..k]))
      {
        var gone := set x | x in items && x.kind == kind && x.id in chunks[k];
        FlattenStep(chunks, k);
        RowsOfConcat(old(items), kind, Flatten(chunks[..k]), chunks[k]);
        items := items - gone;
      }
      assert chunks[..|chunks|] == chunks;
    }

    /** One statement per kind; owners says which entities exist. */
    method PurgeDanglingItems(kinds: seq<string>, owners: map<string, set<string>>)
      requires forall i :: 0 <= i < |kinds| ==> kinds[i] in owners
      modifies this`items
      ensures items == old(items) - Dangling(old(items), kinds, owners)
    {
      for i := 0 to |kinds|
        invariant items == old(items) - Dangling(old(items), kinds[..i], owners)
      {
        var gone := set k | k in items && k.kind == kinds[i] && k.id !in owners[kinds[i]];
        assert kinds[..i + 1] == kinds[..i] + [kinds[i]];
        items := items - gone;
      }
      assert kinds[..|kinds|] == kinds;
    }
  }

  lemma RowsOfConcat(items: Items, kind: string, a: seq<string>, b: seq<string>)
    ensures items - RowsOf(items, kind, a + b) ==
              items - RowsOf(items, kind, a) - RowsOf(items - RowsOf(items, kind, a), kind, b)
  {
  }

  // ---------------------------------------------------------------------------------------------
  // Every interleaving

  /** One write of an image, and the clock reading it was stamped with before it landed. */
  datatype Write = Write(hash: string, at: int)

  /** The tables, and the writes in the order in which they landed. */
  datatype State = State(now: int, images: Images, items: Items, writes: seq<Write>)

  datatype Step =
    | Put(hash: string, at: int)
    | Link(key: Key, hash: string)
    | Unlink(keys: set<Key>)
    | Prune(cutoff: int)

  ghost function Next(s: State, t: int, step: Step): State {
    match step
    case Put(hash, at) => s.(now := t, images := Stamped(s.images, hash, at), writes := s.writes + [Write(hash, at)])
    case Link(key, hash) => s.(now := t, items := Linked(s.items, key, hash))
    case Unlink(keys) => s.(now := t, items := s.items - keys)
    case Prune(cutoff) => s.(now := t, images := Purged(s.images, s.items, cutoff))
  }

  /** Some write of the image, and every write of it that landed later, is at most a grace period old. */
  ghost predicate RecentlyWritten(s: State, t: int, hash: string, grace: int) {
    exists i :: 0 <= i < |s.writes| && s.writes[i].hash == hash && RecentFrom(s, t, i, grace)
  }

  ghost predicate RecentFrom(s: State, t: int, i: nat, grace: int)
    requires i < |s.writes|
  {
    forall j :: i <= j < |s.writes| && s.writes[j].hash == s.writes[i].hash ==> t - s.writes[j].at <= grace
  }

  /** What the actors guarantee: the clock does not run backwards, a stamp is a reading of it, a link
      follows a write of its image within the grace period, and a prune's cutoff lies at least one grace
      period back.  The writes of one image may land in any order. */
  ghost predicate Enabled(s: State, t: int, step: Step, grace: int) {
    && s.now <= t
    && match step
       case Put(hash, at) => hash != "" && at <= t
       case Link(_, hash) => hash == "" || RecentlyWritten(s, t, hash, grace)
       case Unlink(_) => true
       case Prune(cutoff) => cutoff <= t - grace
  }

  /** No item names an image that is not there. */
  ghost predicate NoDangling(s: State) {
    forall k :: k in s.items && s.items[k] != "" ==> s.items[k] in s.images
  }

  /** No write of the image landed after write i. */
  ghost predicate LandedLast(s: State, i: nat)
    requires i < |s.writes|
  {
    forall j :: i < j < |s.writes| ==> s.writes[j].hash != s.writes[i].hash
  }

  /** The write of an image that landed last has the image with its stamp, while it is young. */
  ghost predicate Kept(s: State, i: nat, grace: int)
    requires i < |s.writes|
  {
    var w := s.writes[i];
    LandedLast(s, i) && s.now - w.at <= grace ==> w.hash in s.images && s.images[w.hash] == w.at
  }

  ghost predicate Inv(s: State, grace: int) {
    NoDangling(s) && forall i :: 0 <= i < |s.writes| ==> Kept(s, i, grace)
  }

  ghost predicate ValidRun(s: State, run: seq<(int, Step)>, grace: int)
    decreases |run|
  {
    run != [] ==> Enabled(s, run[0].0, run[0].1, grace) && ValidRun(Next(s, run[0].0, run[0].1), run[1..], grace)
  }

  ghost function Execute(s: State, run: seq<(int, Step)>): State
    decreases |run|
  {
    if run == [] then s else Execute(Next(s, run[0].0, run[0].1), run[1..])
  }

  /** The last write of the image at or after write i. */
  lemma {:induction false} LastWrite(s: State, i: nat, n: nat) returns (l: nat)
    requires i < n <= |s.writes|
    ensures i <= l < n && s.writes[l].hash == s.writes[i].hash
    ensures forall j :: l < j < n ==> s.writes[j].hash != s.writes[i].hash
    decreases n
  {
    if i == n - 1 || s.writes[n - 1].hash == s.writes[i].hash { return n - 1; }
    l := LastWrite(s, i, n - 1);
  }

  /** A recently written image is there. */
  lemma RecentIsThere(s: State, t: int, hash: string, grace: int)
    requires Inv(s, grace) && s.now <= t && RecentlyWritten(s, t, hash, grace)
    ensures hash in s.images
  {
    var i :| 0 <= i < |s.writes| && s.writes[i].hash == hash && RecentFrom(s, t, i, grace);
    var l := LastWrite(s, i, |s.writes|);
    assert Kept(s, l, grace) && LandedLast(s, l);
  }

  lemma PutKeepsInv(s: State, t: int, hash: string, at: int, grace: int)
    requires Inv(s, grace) && Enabled(s, t, Put(hash, at), grace)
    ensures Inv(Next(s, t, Put(hash, at)), grace)
  {
    var s' := Next(s, t, Put(hash, at));
    forall i | 0 <= i < |s'.writes| ensures Kept(s', i, grace) {
      if i < |s.writes| && LandedLast(s', i) {
        assert s'.writes[|s.writes|].hash == hash;
        forall j | i < j < |s.writes| ensures s.writes[j].hash != s.writes[i].hash {
          assert s'.writes[j] == s.writes[j];
        }
        assert Kept(s, i, grace) && LandedLast(s, i);
      }
    }
  }

  /** The writes are the same and the images changed only as a prune may change them. */
  lemma OthersKeepInv(s: State, t: int, step: Step, grace: int)
    requires Inv(s, grace) && Enabled(s, t, step, grace) && !step.Put?
    ensures Inv(Next(s, t, step), grace)
  {
    if step.Link? && step.hash != "" { RecentIsThere(s, t, step.hash, grace); }
    var s' := Next(s, t, step);
    forall i | 0 <= i < |s'.writes| ensures Kept(s', i, grace) {
      assert Kept(s, i, grace);
      assert LandedLast(s', i) ==> LandedLast(s, i);
    }
  }

  lemma StepKeepsInv(s: State, t: int, step: Step, grace: int)
    requires Inv(s, grace) && Enabled(s, t, step, grace)
    ensures Inv(Next(s, t, step), grace)
  {
    if step.Put? { PutKeepsInv(s, t, step.hash, step.at, grace); } else { OthersKeepInv(s, t, step, grace); }
  }

  /** In every interleaving no item ever names a purged image. */
  lemma {:induction false} NoRunDangles(s: State, run: seq<(int, Step)>, grace: int)
    requires Inv(s, grace) && ValidRun(s, run, grace)
    ensures Inv(Execute(s, run), grace) && NoDangling(Execute(s, run))
    decreases |run|
  {
    if run != [] {
      StepKeepsInv(s, run[0].0, run[0].1, grace);
      NoRunDangles(Next(s, run[0].0, run[0].1), run[1..], grace);
    }
  }

  const NO_ROWS: State := State(0, map[], map[], [])

  /** What has been done so far of a valid run is a valid run. */
  lemma {:induction false} PrefixIsValid(s: State, run: seq<(int, Step)>, n: nat, grace: int)
    requires n <= |run| && ValidRun(s, run, grace)
    ensures ValidRun(s, run[..n], grace)
    decreases n
  {
    if n > 0 {
      PrefixIsValid(Next(s, run[0].0, run[0].1), run[1..], n - 1, grace);
      assert run[..n][1..] == run[1..][..n - 1];
    }
  }

  /** Started on tables without rows, at any time, no run has an item that names no image at any moment. */
  lemma NeverDangles(now: int, run: seq<(int, Step)>, grace: int)
    requires ValidRun(NO_ROWS.(now := now), run, grace)
    ensures forall n :: 0 <= n <= |run| ==> NoDangling(Execute(NO_ROWS.(now := now), run[..n]))
  {
    var s := NO_ROWS.(now := now);
    forall n | 0 <= n <= |run| ensures NoDangling(Execute(s, run[..n])) {
      PrefixIsValid(s, run, n, grace);
      NoRunDangles(s, run[..n], grace);
    }
  }

  /** Exactly when a linked image survives a prune on the way: for an image written and not yet linked,
      if and only if the stamp that landed last is not older than the cutoff. */
  lemma UnlinkedSurvivesIff(s: State, t: int, hash: string, at: int, t': int, cutoff: int, key: Key)
    requires NoDangling(s) && hash != "" && hash !in s.items.Values
    ensures var pruned := Next(Next(s, t, Put(hash, at)), t', Prune(cutoff));
            NoDangling(Next(pruned, t', Link(key, hash))) <==> cutoff <= at
  {
    var written := Next(s, t, Put(hash, at));
    var pruned := Next(written, t', Prune(cutoff));
    var linked := Next(pruned, t', Link(key, hash));
    assert linked.items[PrimaryType(key)] == hash;
    assert hash in pruned.images <==> cutoff <= at;
    forall k | k in s.items && s.items[k] != "" ensures s.items[k] in pruned.images {
      assert s.items[k] in s.items.Values && s.items[k] in s.images;
    }
    if cutoff <= at {
      forall k | k in linked.items && linked.items[k] != "" ensures linked.items[k] in linked.images {
        if k != PrimaryType(key) { assert s.items[k] == linked.items[k]; }
      }
    }
  }

  /** The bound is tight: one tick past the grace period, a prune takes the image before its link. */
  lemma LateLinkDangles(grace: int, key: Key)
    requires grace >= 0
    ensures var late := grace + 1;
            var written := Next(NO_ROWS, 0, Put("h", 0));
            && Enabled(NO_ROWS, 0, Put("h", 0), grace) && Enabled(written, late, Prune(late - grace), grace)
            && !NoDangling(Next(Next(written, late, Prune(late - grace)), late, Link(key, "h")))
  {
    UnlinkedSurvivesIff(NO_ROWS, 0, "h", 0, grace + 1, 1, key);
  }

  /** Two workers write one image, and the older stamp lands last: the younger write's link, within its
      own grace period, can name a purged image. */
  lemma OutOfOrderStampsDangle(grace: int, key: Key)
    requires grace >= 0
    ensures var one := Next(NO_ROWS, 10, Put("h", 10));
            var two := Next(one, 10, Put("h", 9));
            var late := 10 + grace;
            && Enabled(NO_ROWS, 10, Put("h", 10), grace) && Enabled(one, 10, Put("h", 9), grace)
            && Enabled(two, late, Prune(10), grace) && late - 10 <= grace
            && !NoDangling(Next(Next(two, late, Prune(10)), late, Link(key, "h")))
  {
    UnlinkedSurvivesIff(Next(NO_ROWS, 10, Put("h", 10)), 10, "h", 9, 10 + grace, 10, key);
  }

  /** Without the reset of created_at, an image written again just before its link can be purged: the
      row keeps its first stamp, however young the last write. */
  lemma KeptStampDangles(grace: int, key: Key)
    requires grace >= 0
    ensures var late := grace + 1;
            var written := State(late, map["h" := 0], map[], [Write("h", 0), Write("h", late)]);
            && RecentlyWritten(written, late, "h", grace)
            && !NoDangling(Next(Next(written, late, Prune(late - grace)), late, Link(key, "h")))
  {
    var late := grace + 1;
    var written := State(late, map["h" := 0], map[], [Write("h", 0), Write("h", late)]);
    assert RecentFrom(written, late, 1, grace) && written.writes[1].hash == "h";
    var linked := Next(Next(written, late, Prune(late - grace)), late, Link(key, "h"));
    assert linked.items[PrimaryType(key)] == "h";
  }
}
