/** What the merge of same-field conditions preserves: truth values, tests, and batch counts. */
module CriteriaMergeMeaning {
  import opened Wrappers
  import opened Sequences
  import opened Criteria
  import opened CriteriaMerge

  /** All mergeable conditions of one field agree on the whole field, the numeric flag included. */
  ghost predicate UniformFields(conds: seq<Cond>, negated: bool) {
    forall i, j :: 0 <= i < |conds| && 0 <= j < |conds| && conds[i].Exists? && conds[j].Exists?
      && Mergeable(conds[i], KeyOf(conds[i].field), negated) && Mergeable(conds[j], KeyOf(conds[i].field), negated)
      ==> conds[i].field == conds[j].field
  }

  lemma HitAnyIsSomeHit(row: Row, f: JsonField, tests: seq<Test>)
    ensures HitAny(row, f, tests) <==> exists t :: t in tests && Hit(row, f, t)
  {
    if HitAny(row, f, tests) {
      var i :| 0 <= i < |Values(row, f)| && TestsOred(row, f, tests, Values(row, f)[i]) == T;
      var j :| 0 <= j < |tests| && row.holds(tests[j], IsNumericField(f), Values(row, f)[i]) == T;
      assert tests[j] in tests && Hit(row, f, tests[j]);
    }
  }

  /** A batched group hits exactly when one of its tests does. */
  lemma GroupsHit(row: Row, f: JsonField, tests: seq<Test>, negated: bool)
    ensures (exists b :: b in Groups(f, Chunks(tests, JSON_COND_BATCH_SIZE), negated) && Positive(b, row)) <==>
            exists t :: t in tests && Hit(row, f, t)
  {
    var chunks := Chunks(tests, JSON_COND_BATCH_SIZE);
    var groups := Groups(f, chunks, negated);
    ChunksPartition(tests, JSON_COND_BATCH_SIZE);
    if b :| b in groups && Positive(b, row) {
      var k :| 0 <= k < |groups| && groups[k] == b;
      HitAnyIsSomeHit(row, f, chunks[k]);
      var t :| t in chunks[k] && Hit(row, f, t);
      InFlatten(chunks, t);
    }
    if t :| t in tests && Hit(row, f, t) {
      InFlatten(chunks, t);
      var k :| 0 <= k < |chunks| && t in chunks[k];
      HitAnyIsSomeHit(row, f, chunks[k]);
      assert groups[k] in groups;
    }
  }

  ghost predicate AnyPositive(bs: seq<Cond>, row: Row) {
    exists b :: b in bs && b.ExistsAny? && Positive(b, row)
  }

  ghost predicate FieldHit(conds: seq<Cond>, key: Key, negated: bool, row: Row) {
    exists i :: 0 <= i < |conds| && Mergeable(conds[i], key, negated) && Positive(conds[i], row)
  }

  /** Every mergeable condition of the field carries the field of the first one. */
  ghost predicate FieldUniform(conds: seq<Cond>, key: Key, negated: bool)
    requires Merges(conds, key, negated)
  {
    var first := Entries(conds, key, negated)[0].0;
    first < |conds| && conds[first].Exists? &&
    forall i :: 0 <= i < |conds| && Mergeable(conds[i], key, negated) ==> conds[i].field == conds[first].field
  }

  lemma EntryHit(conds: seq<Cond>, key: Key, negated: bool, row: Row, t: Test)
    requires Merges(conds, key, negated) && FieldUniform(conds, key, negated)
    requires t in TestsOf(Entries(conds, key, negated))
    requires forall x :: x in Entries(conds, key, negated) ==> x.0 < |conds| && conds[x.0].Exists?
    requires Hit(row, conds[Entries(conds, key, negated)[0].0].field, t)
    ensures FieldHit(conds, key, negated, row)
  {
    var entries := Entries(conds, key, negated);
    EntriesAreConditions(conds, key, negated);
    assert entries[0] in entries;
    var k :| 0 <= k < |entries| && TestsOf(entries)[k] == t;
    assert entries[k] in entries;
    assert Positive(conds[entries[k].0], row);
  }

  lemma BatchesHit(conds: seq<Cond>, key: Key, negated: bool, row: Row)
    requires Merges(conds, key, negated) && FieldUniform(conds, key, negated)
    ensures AnyPositive(Batches(conds, key, negated), row) <==> FieldHit(conds, key, negated, row)
  {
    var entries := Entries(conds, key, negated);
    EntriesAreConditions(conds, key, negated);
    assert entries[0] in entries;
    var field := conds[entries[0].0].field;
    GroupsHit(row, field, TestsOf(entries), negated);
    if t :| t in TestsOf(entries) && Hit(row, field, t) { EntryHit(conds, key, negated, row, t); }
    if i :| 0 <= i < |conds| && Mergeable(conds[i], key, negated) && Positive(conds[i], row) {
      assert (i, conds[i].test.value) in entries;
      var k :| 0 <= k < |entries| && entries[k] == (i, conds[i].test.value);
      assert TestsOf(entries)[k] in TestsOf(entries);
      assert conds[i].field == field;
    }
  }

  /** The row that tells mixed flags apart: one value, on which only the second reading holds. */
  function FlagWitness(numeric: bool): Row {
    Row(_ => Null, _ => ["x"], _ => [], (_, n, _) => OfBool(n == numeric), (_, _) => U, (_, _, _) => U, _ => false)
  }

  lemma FlagWitnessHits(numeric: bool, f: JsonField, test: Test)
    requires f.Tag?
    ensures Hit(FlagWitness(numeric), f, test) <==> f.numeric == numeric
  {
    var row := FlagWitness(numeric);
    assert Values(row, f) == ["x"];
    assert row.holds(test, f.numeric, "x") == OfBool(f.numeric == numeric);
    if f.numeric == numeric {
      assert row.holds(test, IsNumericField(f), Values(row, f)[0]) == T;
    }
  }

  lemma MixedFlags(conds: seq<Cond>, key: Key, negated: bool) returns (row: Row)
    requires Merges(conds, key, negated) && !FieldUniform(conds, key, negated)
    ensures !AnyPositive(Batches(conds, key, negated), row) && FieldHit(conds, key, negated, row)
  {
    var entries := Entries(conds, key, negated);
    EntriesAreConditions(conds, key, negated);
    assert entries[0] in entries;
    var field := conds[entries[0].0].field;
    var m :| 0 <= m < |conds| && Mergeable(conds[m], key, negated) && conds[m].field != field;
    row := FlagWitness(!field.numeric);
    FlagWitnessHits(!field.numeric, conds[m].field, conds[m].test.value);
    assert Positive(conds[m], row);
    forall t | t in TestsOf(entries) ensures !Hit(row, field, t) { FlagWitnessHits(!field.numeric, field, t); }
    GroupsHit(row, field, TestsOf(entries), negated);
  }

  /** One field's conditions can be merged on every row, for every reading of a test on a value, if and
      only if they agree on the numeric flag: a tag reachable under two names, one numeric and one not,
      changes meaning when merged. */
  lemma BatchesFaithfulIff(conds: seq<Cond>, key: Key, negated: bool)
    requires Merges(conds, key, negated)
    ensures FieldUniform(conds, key, negated) <==>
            forall row: Row :: AnyPositive(Batches(conds, key, negated), row) <==> FieldHit(conds, key, negated, row)
  {
    if FieldUniform(conds, key, negated) {
      forall row: Row ensures AnyPositive(Batches(conds, key, negated), row) <==> FieldHit(conds, key, negated, row) {
        BatchesHit(conds, key, negated, row);
      }
    } else {
      var row := MixedFlags(conds, key, negated);
    }
  }

  // The alias albumtype of the tag releasetype, where releasetype is configured as a numeric tag.

  function AsReal(value: string): real { if value == "07" then 7.0 else 0.0 }

  /** Equality with a text: on a numeric tag of the value cast to a number, else of the text itself. */
  function ReadsTag(test: Test, numeric: bool, value: string): TV {
    if !test.Compares? || !test.value.Text? then U
    else if numeric && test.value.number.Some? then OfBool(AsReal(value) == test.value.number.value)
    else OfBool(value == test.value.s)
  }

  function ReleaseTypeRow(): Row {
    Row(_ => Null, _ => ["07"], _ => [], ReadsTag, (_, _) => U, (_, _, _) => U, _ => false)
  }

  function TagIs(numeric: bool, text: string, number: real): Cond {
    Exists(Tag("releasetype", numeric), Some(Compares(Eq, Text(text, Some(number), None))), false)
  }

  /** "albumtype is 8 or releasetype is 7" on a track whose release type is written 07: the rule selects
      it, the merged subquery, which takes the flag of its first condition, does not. */
  lemma AliasedTagLosesRow()
    ensures var conds := [TagIs(false, "8", 8.0), TagIs(true, "7", 7.0)];
            && Merges(conds, TagKey("releasetype"), false) && Eval(Or(conds), ReleaseTypeRow()) == T
            && !AnyPositive(Batches(conds, TagKey("releasetype"), false), ReleaseTypeRow())
  {
    var conds, key, row := [TagIs(false, "8", 8.0), TagIs(true, "7", 7.0)], TagKey("releasetype"), ReleaseTypeRow();
    var first, second := conds[0].test.value, conds[1].test.value;
    assert conds[..1] == [conds[0]] && conds[..1][..0] == [];
    assert Entries(conds[..1], key, false) == [(0, first)];
    assert Entries(conds, key, false) == [(0, first), (1, second)];
    var entries := Entries(conds, key, false);
    assert TestsOf(entries)[0] == first && TestsOf(entries)[1] == second;
    assert Values(row, conds[1].field)[0] == "07";
    assert Positive(conds[1], row) by { assert row.holds(second, true, "07") == T; }
    assert Eval(conds[1], row) == T;
    forall t | t in TestsOf(entries) ensures !Hit(row, conds[0].field, t) {
      assert t == first || t == second;
    }
    GroupsHit(row, conds[0].field, TestsOf(entries), false);
  }

  lemma BatchesShape(conds: seq<Cond>, key: Key, negated: bool)
    requires Merges(conds, key, negated)
    ensures forall b :: b in Batches(conds, key, negated) ==>
              b.ExistsAny? && b.negated == negated && KeyOf(b.field) == key && 0 < |b.tests| <= 350
  {
    var entries := Entries(conds, key, negated);
    EntriesAreConditions(conds, key, negated);
    assert entries[0] in entries;
  }

  lemma {:induction false} AdditionsShape(conds: seq<Cond>, negated: bool, keys: seq<Key>)
    requires AllMerge(conds, negated, keys)
    ensures forall b :: b in Additions(conds, negated, keys) ==> b.ExistsAny? && b.negated == negated
  {
    if keys != [] {
      AdditionsShape(conds, negated, keys[..|keys| - 1]);
      BatchesShape(conds, keys[|keys| - 1], negated);
    }
  }

  lemma AnyPositiveAppend(a: seq<Cond>, b: seq<Cond>, row: Row)
    ensures AnyPositive(a + b, row) <==> AnyPositive(a, row) || AnyPositive(b, row)
  {
  }

  lemma UniformPerField(conds: seq<Cond>, key: Key, negated: bool)
    requires Merges(conds, key, negated) && UniformFields(conds, negated)
    ensures FieldUniform(conds, key, negated)
  {
    EntriesAreConditions(conds, key, negated);
    assert Entries(conds, key, negated)[0] in Entries(conds, key, negated);
  }

  lemma SplitLast(conds: seq<Cond>, negated: bool, keys: seq<Key>, row: Row)
    requires keys != []
    ensures var n := |keys| - 1;
            (exists k :: 0 <= k < |keys| && FieldHit(conds, keys[k], negated, row)) <==>
            || (exists k :: 0 <= k < n && FieldHit(conds, keys[..n][k], negated, row))
            || FieldHit(conds, keys[n], negated, row)
  {
    var n := |keys| - 1;
    assert forall k :: 0 <= k < n ==> keys[..n][k] == keys[k];
    if k :| 0 <= k < |keys| && FieldHit(conds, keys[k], negated, row) {
      if k < n { assert FieldHit(conds, keys[..n][k], negated, row); }
    }
  }

  lemma {:induction false} AdditionsHit(conds: seq<Cond>, negated: bool, keys: seq<Key>, row: Row)
    requires AllMerge(conds, negated, keys) && UniformFields(conds, negated)
    ensures AnyPositive(Additions(conds, negated, keys), row) <==>
            exists k :: 0 <= k < |keys| && FieldHit(conds, keys[k], negated, row)
  {
    if keys != [] {
      var n := |keys| - 1;
      AdditionsHit(conds, negated, keys[..n], row);
      UniformPerField(conds, keys[n], negated);
      BatchesHit(conds, keys[n], negated, row);
      var front, last := Additions(conds, negated, keys[..n]), Batches(conds, keys[n], negated);
      assert Additions(conds, negated, keys) == front + last;
      AnyPositiveAppend(front, last, row);
      SplitLast(conds, negated, keys, row);
    }
  }

  lemma {:induction false} KeptIs(part: seq<Cond>, conds: seq<Cond>, negated: bool)
    ensures forall c :: c in Kept(part, conds, negated) <==> c in part && !Removed(conds, negated, c)
  {
    if part != [] {
      KeptIs(part[..|part| - 1], conds, negated);
      assert part == part[..|part| - 1] + [part[|part| - 1]];
    }
  }

  ghost predicate RemovedPositive(conds: seq<Cond>, negated: bool, row: Row) {
    exists c :: c in conds && Removed(conds, negated, c) && Positive(c, row)
  }

  /** The subqueries hit exactly when some removed condition hits. */
  lemma RemovedHit(conds: seq<Cond>, negated: bool, keys: seq<Key>, row: Row)
    requires MergingKeys(conds, negated, keys) && UniformFields(conds, negated)
    ensures AnyPositive(Additions(conds, negated, keys), row) <==> RemovedPositive(conds, negated, row)
  {
    AdditionsHit(conds, negated, keys, row);
    if k :| 0 <= k < |keys| && FieldHit(conds, keys[k], negated, row) {
      var i :| 0 <= i < |conds| && Mergeable(conds[i], keys[k], negated) && Positive(conds[i], row);
      assert conds[i] in conds && Removed(conds, negated, conds[i]);
    }
    if c :| c in conds && Removed(conds, negated, c) && Positive(c, row) {
      var i :| 0 <= i < |conds| && conds[i] == c;
      var k :| 0 <= k < |keys| && keys[k] == KeyOf(c.field);
      assert Mergeable(conds[i], keys[k], negated);
      assert FieldHit(conds, keys[k], negated, row);
    }
  }

  ghost predicate Occurs(conds: seq<Cond>, row: Row, v: TV) { exists c :: c in conds && Eval(c, row) == v }

  lemma EvalByOccurrence(conds: seq<Cond>, row: Row)
    ensures Eval(Or(conds), row) == Disj(Occurs(conds, row, T), Occurs(conds, row, U))
    ensures Eval(And(conds), row) == Conj(Occurs(conds, row, F), Occurs(conds, row, U))
  {
  }

  /** The purely combinatorial step: trading the gone conditions for the added ones. */
  lemma TradeOccurrences(conds: seq<Cond>, gone: set<Cond>, kept: seq<Cond>, added: seq<Cond>, val: Cond -> TV, v: TV)
    requires forall c :: c in kept <==> c in conds && c !in gone
    requires forall c :: c in gone ==> c in conds
    requires (exists b :: b in added && val(b) == v) <==> (exists c :: c in gone && val(c) == v)
    ensures (exists c :: c in kept + added && val(c) == v) <==> (exists c :: c in conds && val(c) == v)
  {
  }

  lemma OccursAfterMerge(conds: seq<Cond>, gone: set<Cond>, negated: bool, kept: seq<Cond>, added: seq<Cond>, row: Row)
    requires forall c :: c in kept <==> c in conds && c !in gone
    requires forall c :: c in gone ==> c in conds && c.Exists? && c.negated == negated
    requires forall b :: b in added ==> b.ExistsAny? && b.negated == negated
    requires AnyPositive(added, row) <==> exists c :: c in gone && Positive(c, row)
    ensures Occurs(kept + added, row, U) <==> Occurs(conds, row, U)
    ensures var decisive := if negated then F else T;
            Occurs(kept + added, row, decisive) <==> Occurs(conds, row, decisive)
  {
    var decisive := if negated then F else T;
    var val := (c: Cond) => Eval(c, row);
    forall c | c in gone ensures val(c) != U && (val(c) == decisive <==> Positive(c, row)) {}
    forall b | b in added ensures val(b) != U && (val(b) == decisive <==> Positive(b, row)) {}
    TradeOccurrences(conds, gone, kept, added, val, U);
    assert (exists b :: b in added && val(b) == decisive) <==> (exists c :: c in gone && val(c) == decisive);
    TradeOccurrences(conds, gone, kept, added, val, decisive);
  }

  /** Merging keeps the truth value of the whole group, on every row: positive conditions inside OR,
      and, by De Morgan, negated conditions inside AND. */
  lemma MergePreservesMeaning(conds: seq<Cond>, negated: bool, keys: seq<Key>, row: Row)
    requires MergingKeys(conds, negated, keys) && UniformFields(conds, negated)
    ensures var merged := Kept(conds, conds, negated) + Additions(conds, negated, keys);
            if negated then Eval(And(merged), row) == Eval(And(conds), row)
            else Eval(Or(merged), row) == Eval(Or(conds), row)
  {
    var kept, added := Kept(conds, conds, negated), Additions(conds, negated, keys);
    KeptIs(conds, conds, negated);
    AdditionsShape(conds, negated, keys);
    RemovedHit(conds, negated, keys, row);
    var gone := set c | c in conds && Removed(conds, negated, c);
    OccursAfterMerge(conds, gone, negated, kept, added, row);
    EvalByOccurrence(conds, row);
    EvalByOccurrence(kept + added, row);
  }

  ghost predicate SameTruth(a: Cond, b: Cond) { forall row: Row :: Eval(a, row) == Eval(b, row) }

  /** OR of EXISTS. */
  method MergeJsonConds(conds: seq<Cond>) returns (c: Cond)
    ensures c.Or? && (UniformFields(conds, false) ==> SameTruth(c, Or(conds)))
  {
    var merged, ok, keys := MergeSameFieldConds(conds, false);
    forall row: Row | UniformFields(conds, false) ensures Eval(Or(merged), row) == Eval(Or(conds), row) {
      MergePreservesMeaning(conds, false, keys, row);
    }
    c := Or(merged);
  }

  /** AND of NOT EXISTS, by De Morgan. */
  method MergeNegatedJsonConds(conds: seq<Cond>) returns (c: Cond)
    ensures c.And? && (UniformFields(conds, true) ==> SameTruth(c, And(conds)))
  {
    var merged, ok, keys := MergeSameFieldConds(conds, true);
    forall row: Row | UniformFields(conds, true) ensures Eval(And(merged), row) == Eval(And(conds), row) {
      MergePreservesMeaning(conds, true, keys, row);
    }
    c := And(merged);
  }

  // ---------------------------------------------------------------------------------------------
  // Where each condition goes

  function FieldGroups(conds: seq<Cond>, key: Key): seq<Cond> {
    if conds == [] then []
    else
      var n := |conds| - 1;
      FieldGroups(conds[..n], key) +
      if conds[n].ExistsAny? && KeyOf(conds[n].field) == key then [conds[n]] else []
  }

  function TestsIn(groups: seq<Cond>): seq<Test> {
    if groups == [] then []
    else (if groups[0].ExistsAny? then groups[0].tests else []) + TestsIn(groups[1..])
  }

  lemma {:induction false} FieldGroupsAppend(a: seq<Cond>, b: seq<Cond>, key: Key)
    ensures FieldGroups(a + b, key) == FieldGroups(a, key) + FieldGroups(b, key)
  {
    if b == [] {
      assert a + b == a;
    } else {
      assert (a + b)[..|a + b| - 1] == a + b[..|b| - 1];
      FieldGroupsAppend(a, b[..|b| - 1], key);
    }
  }

  lemma {:induction false} FieldGroupsOfOneField(conds: seq<Cond>, key: Key, of: Key)
    requires forall c :: c in conds ==> c.ExistsAny? && KeyOf(c.field) == of
    ensures FieldGroups(conds, key) == if key == of then conds else []
  {
    if conds != [] {
      var n := |conds| - 1;
      FieldGroupsOfOneField(conds[..n], key, of);
      assert conds[n] in conds && conds == conds[..n] + [conds[n]];
    }
  }

  lemma FieldGroupsOfBatches(conds: seq<Cond>, negated: bool, before: seq<Cond>, of: Key, key: Key)
    requires Merges(conds, of, negated)
    ensures FieldGroups(before + Batches(conds, of, negated), key) ==
            FieldGroups(before, key) + (if key == of then Batches(conds, of, negated) else [])
  {
    BatchesShape(conds, of, negated);
    FieldGroupsAppend(before, Batches(conds, of, negated), key);
    FieldGroupsOfOneField(Batches(conds, of, negated), key, of);
  }

  lemma {:induction false} FieldGroupsOfAdditions(conds: seq<Cond>, negated: bool, keys: seq<Key>, key: Key)
    requires AllMerge(conds, negated, keys)
    requires forall j, k :: 0 <= j < k < |keys| ==> keys[j] != keys[k]
    ensures FieldGroups(Additions(conds, negated, keys), key) ==
            if key in keys then Batches(conds, key, negated) else []
  {
    if keys != [] {
      var n := |keys| - 1;
      FieldGroupsOfAdditions(conds, negated, keys[..n], key);
      FieldGroupsOfBatches(conds, negated, Additions(conds, negated, keys[..n]), keys[n], key);
      assert key in keys <==> key in keys[..n] || key == keys[n];
    }
  }

  lemma {:induction false} TestsInGroups(f: JsonField, chunks: seq<seq<Test>>, negated: bool)
    ensures TestsIn(Groups(f, chunks, negated)) == Flatten(chunks)
  {
    if chunks != [] {
      TestsInGroups(f, chunks[1..], negated);
      assert Groups(f, chunks, negated)[1..] == Groups(f, chunks[1..], negated);
    }
  }

  lemma {:induction false} CeilDivBatchSize(len: nat)
    ensures CeilDiv(len, JSON_COND_BATCH_SIZE) == (len + 349) / 350
  {
    if len > 350 {
      CeilDivBatchSize(len - 350);
    }
  }

  lemma BatchesHoldTheTests(conds: seq<Cond>, key: Key, negated: bool)
    requires Merges(conds, key, negated)
    ensures TestsIn(Batches(conds, key, negated)) == TestsOf(Entries(conds, key, negated))
    ensures |Batches(conds, key, negated)| == (|Entries(conds, key, negated)| + 349) / 350
  {
    var entries := Entries(conds, key, negated);
    EntriesAreConditions(conds, key, negated);
    assert entries[0] in entries;
    var tests := TestsOf(entries);
    var chunks := Chunks(tests, JSON_COND_BATCH_SIZE);
    TestsInGroups(conds[entries[0].0].field, chunks, negated);
    ChunksPartition(tests, JSON_COND_BATCH_SIZE);
    ChunksCount(tests, JSON_COND_BATCH_SIZE);
    CeilDivBatchSize(|tests|);
  }

  /** Each of a field's N >= 2 conditions lands in exactly one batch, in order; there are ceil(N/350)
      batches of at most 350, and a field that does not merge gets none. */
  lemma EachConditionInOneBatch(conds: seq<Cond>, negated: bool, keys: seq<Key>, key: Key)
    requires MergingKeys(conds, negated, keys)
    ensures var groups := FieldGroups(Additions(conds, negated, keys), key);
            var entries := Entries(conds, key, negated);
            if |entries| < 2 then groups == []
            else
              && TestsIn(groups) == TestsOf(entries)
              && |groups| == (|entries| + 349) / 350
              && forall g :: g in groups ==> g.ExistsAny? && 0 < |g.tests| <= 350 && g.negated == negated
  {
    FieldGroupsOfAdditions(conds, negated, keys, key);
    if Merges(conds, key, negated) {
      BatchesShape(conds, key, negated);
      BatchesHoldTheTests(conds, key, negated);
    }
  }
}
