/**
 * Merging of same-field tag and role conditions.  Inside an OR group the positive conditions of a
 * field are merged, inside an AND group the negated ones; a field with two or more conditions gets
 * batched EXISTS subqueries of at most 350 tests each, appended after the conditions that stay.
 */
module CriteriaMerge {
  import opened Wrappers
  import opened Sequences
  import opened Criteria

  const JSON_COND_BATCH_SIZE := 350

  predicate Mergeable(c: Cond, key: Key, negated: bool) {
    c.Exists? && c.test.Some? && c.negated == negated && KeyOf(c.field) == key
  }

  /** The mergeable conditions of one field: position in the list and test, in order. */
  function Entries(conds: seq<Cond>, key: Key, negated: bool): seq<(nat, Test)> {
    if conds == [] then []
    else
      var n := |conds| - 1;
      var rest := Entries(conds[..n], key, negated);
      if Mergeable(conds[n], key, negated) then rest + [(n, conds[n].test.value)] else rest
  }

  function TestsOf(entries: seq<(nat, Test)>): (r: seq<Test>)
    ensures |r| == |entries|
    ensures forall k :: 0 <= k < |entries| ==> r[k] == entries[k].1
  {
    if entries == [] then [] else [entries[0].1] + TestsOf(entries[1..])
  }

  /** A condition leaves the list when its field has at least two mergeable conditions. */
  predicate Merges(conds: seq<Cond>, key: Key, negated: bool) { |Entries(conds, key, negated)| >= 2 }

  predicate Removed(conds: seq<Cond>, negated: bool, c: Cond) {
    c.Exists? && c.test.Some? && c.negated == negated && Merges(conds, KeyOf(c.field), negated)
  }

  function Kept(part: seq<Cond>, conds: seq<Cond>, negated: bool): seq<Cond> {
    if part == [] then []
    else
      var n := |part| - 1;
      Kept(part[..n], conds, negated) + if Removed(conds, negated, part[n]) then [] else [part[n]]
  }

  function Groups(field: JsonField, chunks: seq<seq<Test>>, negated: bool): (r: seq<Cond>)
    ensures |r| == |chunks|
    ensures forall k :: 0 <= k < |r| ==> r[k] == ExistsAny(field, chunks[k], negated)
  {
    if chunks == [] then []
    else [ExistsAny(field, chunks[0], negated)] + Groups(field, chunks[1..], negated)
  }

  /** The subqueries replacing one field's conditions; the first condition lends its field. */
  function Batches(conds: seq<Cond>, key: Key, negated: bool): seq<Cond>
    requires Merges(conds, key, negated)
  {
    var entries := Entries(conds, key, negated);
    EntriesAreConditions(conds, key, negated);
    assert entries[0] in entries;
    Groups(conds[entries[0].0].field, Chunks(TestsOf(entries), JSON_COND_BATCH_SIZE), negated)
  }

  predicate AllMerge(conds: seq<Cond>, negated: bool, keys: seq<Key>) {
    forall k :: 0 <= k < |keys| ==> Merges(conds, keys[k], negated)
  }

  function Additions(conds: seq<Cond>, negated: bool, keys: seq<Key>): seq<Cond>
    requires AllMerge(conds, negated, keys)
  {
    if keys == [] then []
    else
      var n := |keys| - 1;
      Additions(conds, negated, keys[..n]) + Batches(conds, keys[n], negated)
  }

  ghost predicate KeysSoFar(conds: seq<Cond>, negated: bool, keys: seq<Key>, seen: set<Key>) {
    && AllMerge(conds, negated, keys)
    && (forall k :: 0 <= k < |keys| ==> keys[k] in seen)
    && (forall key :: key in seen && Merges(conds, key, negated) ==> key in keys)
    && (forall j, k :: 0 <= j < k < |keys| ==> keys[j] != keys[k])
  }

  /** keys lists, once each and in any order, exactly the fields that merge. */
  ghost predicate MergingKeys(conds: seq<Cond>, negated: bool, keys: seq<Key>) {
    && AllMerge(conds, negated, keys)
    && (forall key :: Merges(conds, key, negated) ==> key in keys)
    && (forall j, k :: 0 <= j < k < |keys| ==> keys[j] != keys[k])
  }

  lemma {:induction false} EntriesAreConditions(conds: seq<Cond>, key: Key, negated: bool)
    ensures forall e :: e in Entries(conds, key, negated) <==>
              e.0 < |conds| && Mergeable(conds[e.0], key, negated) && e.1 == conds[e.0].test.value
  {
    if conds != [] {
      EntriesAreConditions(conds[..|conds| - 1], key, negated);
    }
  }

  // ---------------------------------------------------------------------------------------------
  // The loops of mergeSameFieldConds

  datatype Group = Group(entries: seq<(nat, Test)>, field: JsonField)

  ghost predicate Collected(groups: map<Key, Group>, conds: seq<Cond>, negated: bool) {
    forall key :: (key in groups <==> Entries(conds, key, negated) != []) &&
      (key in groups ==> IsGroup(groups[key], conds, key, negated))
  }

  ghost predicate IsGroup(g: Group, conds: seq<Cond>, key: Key, negated: bool) {
    && g.entries == Entries(conds, key, negated) != []
    && g.entries[0].0 < |conds|
    && conds[g.entries[0].0].Exists?
    && g.field == conds[g.entries[0].0].field
  }

  method CollectGroups(conds: seq<Cond>, negated: bool) returns (groups: map<Key, Group>)
    ensures Collected(groups, conds, negated)
  {
    groups := map[];
    for i := 0 to |conds|
      invariant Collected(groups, conds[..i], negated)
    {
      assert conds[..i + 1][..i] == conds[..i];
      var c := conds[i];
      if c.Exists? && c.negated == negated && c.test.Some? {
        var key := KeyOf(c.field);
        var g := if key in groups then groups[key] else Group([], c.field);
        groups := groups[key := g.(entries := g.entries + [(i, c.test.value)])];
      }
    }
    assert conds[..|conds|] == conds;
  }

  method TakeEntries(g: Group) returns (remove: set<nat>, tests: seq<Test>)
    ensures remove == (set e | e in g.entries :: e.0) && tests == TestsOf(g.entries)
  {
    remove, tests := {}, [];
    for i := 0 to |g.entries|
      invariant remove == set e | e in g.entries[..i] :: e.0
      invariant |tests| == i && forall k :: 0 <= k < i ==> tests[k] == g.entries[k].1
    {
      assert g.entries[..i + 1] == g.entries[..i] + [g.entries[i]];
      remove := remove + {g.entries[i].0};
      tests := tests + [g.entries[i].1];
    }
    assert g.entries[..|g.entries|] == g.entries;
  }

  method BatchGroup(g: Group, negated: bool) returns (remove: set<nat>, batches: seq<Cond>)
    ensures remove == set e | e in g.entries :: e.0
    ensures batches == Groups(g.field, Chunks(TestsOf(g.entries), JSON_COND_BATCH_SIZE), negated)
  {
    var tests;
    remove, tests := TakeEntries(g);
    var chunks := Chunks(tests, JSON_COND_BATCH_SIZE);
    batches := [];
    for k := 0 to |chunks|
      invariant |batches| == k && forall i :: 0 <= i < k ==> batches[i] == ExistsAny(g.field, chunks[i], negated)
    {
      batches := batches + [ExistsAny(g.field, chunks[k], negated)];
    }
  }

  /** The positions whose condition belongs to one of the given fields. */
  ghost function PositionsOf(conds: seq<Cond>, negated: bool, keys: seq<Key>): set<nat> {
    set i: nat | i < |conds| && conds[i].Exists? && Mergeable(conds[i], KeyOf(conds[i].field), negated)
                 && KeyOf(conds[i].field) in keys
  }

  ghost predicate MergedSoFar(conds: seq<Cond>, negated: bool, keys: seq<Key>, seen: set<Key>,
                              remove: set<nat>, additions: seq<Cond>)
  {
    && KeysSoFar(conds, negated, keys, seen)
    && additions == Additions(conds, negated, keys)
    && remove == PositionsOf(conds, negated, keys)
  }

  method MergeGroup(conds: seq<Cond>, negated: bool, key: Key, g: Group, remove0: set<nat>, additions0: seq<Cond>,
                    ghost keys0: seq<Key>, ghost seen: set<Key>)
    returns (remove: set<nat>, additions: seq<Cond>, ghost keys: seq<Key>)
    requires MergedSoFar(conds, negated, keys0, seen, remove0, additions0)
    requires key !in seen && IsGroup(g, conds, key, negated)
    ensures MergedSoFar(conds, negated, keys, seen + {key}, remove, additions)
    ensures keys == keys0 || keys == keys0 + [key]
  {
    remove, additions, keys := remove0, additions0, keys0;
    if |g.entries| >= 2 {
      var r, batches := BatchGroup(g, negated);
      assert batches == Batches(conds, key, negated);
      assert (keys0 + [key])[..|keys0|] == keys0;
      PositionsGrow(conds, negated, keys0, key);
      KeysGrow(conds, negated, keys0, seen, key);
      remove, additions, keys := remove0 + r, additions0 + batches, keys0 + [key];
    }
  }

  // ---------------------------------------------------------------------------------------------
  // The sorted order of the keys

  /** Byte order of strings. */
  predicate LexLeq(a: string, b: string) {
    a == "" || (b != "" && (a[0] < b[0] || (a[0] == b[0] && LexLeq(a[1..], b[1..]))))
  }

  /** The order of the map keys: "role:" names before "tag:" names. */
  predicate KeyLeq(a: Key, b: Key) {
    (a.RoleKey? && b.TagKey?) || (a.RoleKey? == b.RoleKey? && LexLeq(a.name, b.name))
  }

  lemma {:induction false} LexTotal(a: string, b: string)
    ensures LexLeq(a, b) || LexLeq(b, a)
  {
    if a != "" && b != "" { LexTotal(a[1..], b[1..]); }
  }

  lemma {:induction false} LexTransitive(a: string, b: string, c: string)
    requires LexLeq(a, b) && LexLeq(b, c)
    ensures LexLeq(a, c)
  {
    if a != "" && a[0] == b[0] == c[0] { LexTransitive(a[1..], b[1..], c[1..]); }
  }

  lemma KeyTotal(a: Key, b: Key)
    ensures KeyLeq(a, b) || KeyLeq(b, a)
  {
    LexTotal(a.name, b.name);
  }

  lemma KeyTransitive(a: Key, b: Key, c: Key)
    requires KeyLeq(a, b) && KeyLeq(b, c)
    ensures KeyLeq(a, c)
  {
    if a.RoleKey? == b.RoleKey? == c.RoleKey? { LexTransitive(a.name, b.name, c.name); }
  }

  ghost predicate IsLeast(key: Key, keys: set<Key>) { key in keys && forall k :: k in keys ==> KeyLeq(key, k) }

  lemma {:induction false} LeastKeyExists(keys: set<Key>) returns (least: Key)
    requires keys != {}
    ensures IsLeast(least, keys)
    decreases |keys|
  {
    var x :| x in keys;
    KeyTotal(x, x);
    if keys == {x} { return x; }
    var y := LeastKeyExists(keys - {x});
    KeyTotal(x, y);
    least := if KeyLeq(x, y) then x else y;
    forall k | k in keys ensures KeyLeq(least, k) {
      if k != x && least == x { KeyTransitive(x, y, k); }
    }
  }

  ghost predicate SortedKeys(keys: seq<Key>) { forall i, j :: 0 <= i < j < |keys| ==> KeyLeq(keys[i], keys[j]) }

  ghost predicate AllBefore(keys: seq<Key>, later: set<Key>) {
    forall i, k :: 0 <= i < |keys| && k in later ==> KeyLeq(keys[i], k)
  }

  lemma NextSorted(keys0: seq<Key>, keys: seq<Key>, key: Key, pending: set<Key>)
    requires SortedKeys(keys0) && AllBefore(keys0, pending) && IsLeast(key, pending)
    requires keys == keys0 || keys == keys0 + [key]
    ensures SortedKeys(keys) && AllBefore(keys, pending - {key})
  {
  }

  /** The next key in order, of those not done. */
  method LeastKey(pending: set<Key>) returns (key: Key)
    requires pending != {}
    ensures IsLeast(key, pending)
  {
    ghost var least := LeastKeyExists(pending);
    key :| key in pending && forall k :: k in pending ==> KeyLeq(key, k);
  }

  /** The additions come key by key, in sorted order. */
  method MergeGroups(conds: seq<Cond>, negated: bool, groups: map<Key, Group>)
    returns (remove: set<nat>, additions: seq<Cond>, ghost keys: seq<Key>)
    requires Collected(groups, conds, negated)
    ensures MergedSoFar(conds, negated, keys, groups.Keys, remove, additions) && SortedKeys(keys)
  {
    var pending := groups.Keys;
    remove, additions, keys := {}, [], [];
    while pending != {}
      invariant pending <= groups.Keys
      invariant MergedSoFar(conds, negated, keys, groups.Keys - pending, remove, additions)
      invariant SortedKeys(keys) && AllBefore(keys, pending)
      decreases |pending|
    {
      var key := LeastKey(pending);
      ghost var keys0 := keys;
      remove, additions, keys :=
        MergeGroup(conds, negated, key, groups[key], remove, additions, keys, groups.Keys - pending);
      NextSorted(keys0, keys, key, pending);
      assert groups.Keys - (pending - {key}) == (groups.Keys - pending) + {key};
      pending := pending - {key};
    }
    assert groups.Keys - pending == groups.Keys;
  }

  lemma AllKeysMerged(conds: seq<Cond>, negated: bool, groups: map<Key, Group>, keys: seq<Key>)
    requires Collected(groups, conds, negated) && KeysSoFar(conds, negated, keys, groups.Keys)
    ensures MergingKeys(conds, negated, keys)
  {
    forall key | Merges(conds, key, negated) ensures key in keys { assert key in groups; }
  }

  lemma KeysGrow(conds: seq<Cond>, negated: bool, keys: seq<Key>, seen: set<Key>, key: Key)
    requires KeysSoFar(conds, negated, keys, seen) && key !in seen && Merges(conds, key, negated)
    ensures KeysSoFar(conds, negated, keys + [key], seen + {key})
  {
  }

  lemma PositionsGrow(conds: seq<Cond>, negated: bool, keys: seq<Key>, key: Key)
    ensures PositionsOf(conds, negated, keys + [key]) ==
            PositionsOf(conds, negated, keys) + set e | e in Entries(conds, key, negated) :: e.0
  {
    EntriesAreConditions(conds, key, negated);
    var r := set e | e in Entries(conds, key, negated) :: e.0;
    forall i: nat | i < |conds| && Mergeable(conds[i], key, negated) ensures i in r {
      assert (i, conds[i].test.value) in Entries(conds, key, negated);
    }
  }

  method MergeSameFieldConds(conds: seq<Cond>, negated: bool)
    returns (result: seq<Cond>, merged: bool, ghost keys: seq<Key>)
    ensures MergingKeys(conds, negated, keys) && SortedKeys(keys)
    ensures merged <==> keys != []
    ensures result == Kept(conds, conds, negated) + Additions(conds, negated, keys)
  {
    var groups := CollectGroups(conds, negated);
    var remove, additions;
    remove, additions, keys := MergeGroups(conds, negated, groups);
    AllKeysMerged(conds, negated, groups, keys);
    if remove == {} {
      NothingRemoved(conds, negated, keys);
      return conds, false, keys;
    }
    result := [];
    for i := 0 to |conds|
      invariant result == Kept(conds[..i], conds, negated)
    {
      assert conds[..i + 1][..i] == conds[..i];
      if i !in remove {
        result := result + [conds[i]];
      }
    }
    assert conds[..|conds|] == conds;
    result := result + additions;
    merged := true;
  }

  lemma MergingFieldHasCondition(conds: seq<Cond>, key: Key, negated: bool)
    requires Merges(conds, key, negated)
    ensures exists i :: 0 <= i < |conds| && Mergeable(conds[i], key, negated)
  {
    var entries := Entries(conds, key, negated);
    EntriesAreConditions(conds, key, negated);
    assert entries[0] in entries;
  }

  lemma NothingRemoved(conds: seq<Cond>, negated: bool, keys: seq<Key>)
    requires MergingKeys(conds, negated, keys)
    requires PositionsOf(conds, negated, keys) == {}
    ensures keys == []
    ensures Kept(conds, conds, negated) == conds
  {
    forall i: nat | i < |conds| ensures !Removed(conds, negated, conds[i]) {
      assert i !in PositionsOf(conds, negated, keys);
    }
    if keys != [] {
      MergingFieldHasCondition(conds, keys[0], negated);
    }
    KeptAll(conds, conds, negated);
  }

  lemma {:induction false} KeptAll(part: seq<Cond>, conds: seq<Cond>, negated: bool)
    requires forall i :: 0 <= i < |part| ==> !Removed(conds, negated, part[i])
    ensures Kept(part, conds, negated) == part
  {
    if part != [] {
      KeptAll(part[..|part| - 1], conds, negated);
    }
  }
}
