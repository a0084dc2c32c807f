/** Compilation of a whole rule tree, and the theorem that the compiled condition selects exactly the
    rows the rule tree describes. */
module CriteriaCompile {
  import opened Wrappers
  import opened Criteria
  import opened CriteriaMergeMeaning

  // ---------------------------------------------------------------------------------------------
  // Annotation columns: COALESCE dropped

  function ToFloat(v: Value): Option<real> {
    match v
    case Int(n) => Some(n as real)
    case Float(r) => Some(r)
    case Text(_, number, _) => number
    case _ => None
  }

  function ToBool(v: Value): Option<bool> {
    match v
    case Bool(b) => Some(b)
    case Text(_, _, boolean) => boolean
    case Float(r) => if r == 1.0 then Some(true) else if r == 0.0 then Some(false) else None
    case _ => None
  }

  /** None keeps COALESCE; Some(w) allows the bare form, with OR col IS NULL exactly when w. */
  function BareNullInclusion(d: Default, op: Op, v: Value): Option<bool> {
    match d
    case BoolDefault(b) =>
      if IsOrdering(op) || ToBool(v).None? then None
      else Some(Satisfies(op, BoolToFloat(b), BoolToFloat(ToBool(v).value)))
    case NumDefault(r) =>
      if ToFloat(v).None? then None else Some(Satisfies(op, r, ToFloat(v).value))
  }

  function AnnotationCond(col: string, d: Default, op: Op, v: Value): Cond {
    match BareNullInclusion(d, op, v)
    case None => Coalesced(col, d, op, v)
    case Some(wrapNull) => if wrapNull then Or([Bare(col, op, v), IsNull(col)]) else Bare(col, op, v)
  }

  /** Only a text value can break the rewrite: a text that reads as a number, or, on a boolean column
      compared for equality, a text that reads as the default or as a number. */
  predicate ExactValue(d: Default, op: Op, v: Value) {
    v.Text? ==>
      match d
      case NumDefault(_) => v.number.None?
      case BoolDefault(b) => IsOrdering(op) || v.boolean.None? || (v.number.None? && v.boolean.value != b)
  }

  lemma OrNull(col: string, op: Op, v: Value, row: Row)
    ensures Eval(Or([Bare(col, op, v), IsNull(col)]), row) == T <==>
            CompareBare(row, op, row.column(col), v) == T || row.column(col).Null?
  {
    var cs := [Bare(col, op, v), IsNull(col)];
    assert Eval(cs[0], row) == CompareBare(row, op, row.column(col), v);
    assert Eval(cs[1], row) == OfBool(row.column(col).Null?);
  }

  lemma AnnotationCondSelects(col: string, d: Default, op: Op, v: Value, row: Row)
    ensures Eval(AnnotationCond(col, d, op, v), row) == T <==>
            match BareNullInclusion(d, op, v)
            case None => CompareCoalesced(row, op, row.column(col), d, v) == T
            case Some(w) => CompareBare(row, op, row.column(col), v) == T || (w && row.column(col).Null?)
  {
    OrNull(col, op, v, row);
  }

  lemma AnnotationCondExact(col: string, d: Default, op: Op, v: Value, row: Row)
    requires ExactValue(d, op, v)
    ensures Eval(AnnotationCond(col, d, op, v), row) == T <==> CompareCoalesced(row, op, row.column(col), d, v) == T
  {
    AnnotationCondSelects(col, d, op, v, row);
  }

  /** The condition on one defaulted column, for every value: a text that reads as a number is compared as
      that number, NULL included, and any other value as COALESCE would. */
  predicate AnnotationSelects(row: Row, op: Op, x: SqlValue, d: Default, v: Value) {
    match (d, v)
    case (NumDefault(r), Text(_, Some(n), _)) =>
      CompareBare(row, op, x, v) == T || (x.Null? && NumberCompares(op, r, n))
    case (BoolDefault(b), Text(_, _, Some(y))) =>
      if IsOrdering(op) then CompareCoalesced(row, op, x, d, v) == T
      else CompareBare(row, op, x, v) == T || (x.Null? && (op == Eq <==> b == y))
    case _ => CompareCoalesced(row, op, x, d, v) == T
  }

  lemma AnnotationCondMeans(col: string, d: Default, op: Op, v: Value, row: Row)
    ensures Eval(AnnotationCond(col, d, op, v), row) == T <==> AnnotationSelects(row, op, row.column(col), d, v)
  {
    AnnotationCondSelects(col, d, op, v, row);
  }

  /** The comparison of two numbers an operator stands for. */
  predicate NumberCompares(op: Op, a: real, b: real) {
    (a < b && (op == Ne || op == Lt || op == Le)) || (a == b && (op == Eq || op == Ge || op == Le))
    || (b < a && (op == Ne || op == Gt || op == Ge))
  }

  /** The rows a comparison with a number selects from a column of numbers, the default standing for NULL;
      on a column without a default NULL is never selected.  A text that reads as the number is as good. */
  lemma NumberRuleSelects(col: string, d: real, op: Op, v: Value, n: real, row: Row)
    requires v == Float(n) || (v.Int? && n == v.n as real) || (v.Text? && v.number == Some(n))
    requires !row.column(col).Str?
    ensures var x := if row.column(col).Null? then d else row.column(col).r;
            Eval(AnnotationCond(col, NumDefault(d), op, v), row) == T <==> NumberCompares(op, x, n)
    ensures Eval(Bare(col, op, v), row) == T <==> row.column(col).Num? && NumberCompares(op, row.column(col).r, n)
  {
    AnnotationCondMeans(col, NumDefault(d), op, v, row);
  }

  /** "is" and "is not" on a boolean column, false standing for NULL. */
  lemma BooleanRuleSelects(col: string, d: bool, b: bool, v: Value, row: Row)
    requires v == Bool(b) || (v.Float? && v.r == if b then 1.0 else 0.0)
    requires row.column(col) in {Null, Num(0.0), Num(1.0)}
    ensures var x := if row.column(col).Null? then d else row.column(col) == Num(1.0);
            && (Eval(AnnotationCond(col, BoolDefault(d), Eq, v), row) == T <==> x == b)
            && (Eval(AnnotationCond(col, BoolDefault(d), Ne, v), row) == T <==> x != b)
  {
    AnnotationCondMeans(col, BoolDefault(d), Eq, v, row);
    AnnotationCondMeans(col, BoolDefault(d), Ne, v, row);
  }

  /** A row on which one column has the given value and nothing else is known. */
  function Witness(x: SqlValue): Row {
    Row(_ => x, _ => [], _ => [], (_, _, _) => U, (_, _) => U, (_, _, _) => F, _ => false)
  }

  /** A column value on which the bare and the COALESCE form of a numeric text disagree. */
  function Disagreement(op: Op, n: real): real { if op == Gt || op == Le then n + 1.0 else n }

  /** The rewrite selects the same rows whatever the column holds, if and only if the value is exact. */
  lemma AnnotationRewriteIff(col: string, d: Default, op: Op, v: Value)
    ensures ExactValue(d, op, v) <==>
            forall row: Row :: Eval(AnnotationCond(col, d, op, v), row) == T <==>
                               CompareCoalesced(row, op, row.column(col), d, v) == T
  {
    if ExactValue(d, op, v) {
      forall row: Row ensures Eval(AnnotationCond(col, d, op, v), row) == T <==>
                              CompareCoalesced(row, op, row.column(col), d, v) == T
      {
        AnnotationCondExact(col, d, op, v, row);
      }
    } else {
      var row := if v.number.Some? then Witness(Num(Disagreement(op, v.number.value))) else Witness(Null);
      AnnotationCondSelects(col, d, op, v, row);
      assert !(Eval(AnnotationCond(col, d, op, v), row) == T <==>
               CompareCoalesced(row, op, row.column(col), d, v) == T);
    }
  }

  /** Some item of the list is the number c. */
  predicate NumberIn(items: seq<Value>, c: real) {
    exists i :: 0 <= i < |items| && match items[i]
                                    case Int(n) => n as real == c
                                    case Float(r) => r == c
                                    case Bool(b) => BoolToFloat(b) == c
                                    case _ => false
  }

  /** Every text that reads as a number is in the list as that number too. */
  predicate TextNumbersCovered(items: seq<Value>) {
    forall i :: 0 <= i < |items| && items[i].Text? && items[i].number.Some? ==> NumberIn(items, items[i].number.value)
  }

  predicate HasNull(items: seq<Value>) { exists i :: 0 <= i < |items| && (items[i].NullValue? || items[i].List?) }

  /** A rule naming several fields keeps the bare column for all of them, default or not.  That is right
      when the default fails the comparison and no text of a list reads as a number it does not hold. */
  predicate BareIsExact(d: Default, op: Op, v: Value) {
    match v
    case Int(n) => !Satisfies(op, DefaultNumber(d), n as real)
    case Float(r) => !Satisfies(op, DefaultNumber(d), r)
    case Bool(b) => !Satisfies(op, DefaultNumber(d), BoolToFloat(b))
    case Text(_, number, _) => number.None? && NumberBeforeText(op) == F
    case NullValue => IsOrdering(op)
    case List(items) =>
      if IsOrdering(op) then true
      else if op == Eq then !NumberIn(items, DefaultNumber(d)) && TextNumbersCovered(items)
      else items == [] || HasNull(items) || (NumberIn(items, DefaultNumber(d)) && TextNumbersCovered(items))
  }

  /** IN over a number, read off the list. */
  lemma NumberInList(row: Row, c: real, items: seq<Value>)
    ensures InList(row, Num(c), items, false) == Disj(NumberIn(items, c), HasNull(items))
    ensures TextNumbersCovered(items) ==> InList(row, Num(c), items, true) == InList(row, Num(c), items, false)
    ensures forall i :: 0 <= i < |items| && items[i].Text? && items[i].number == Some(c) ==>
              InList(row, Num(c), items, true) == T
  {
    forall i | 0 <= i < |items|
      ensures ItemEquals(row, Num(c), items[i], false) == T ==> NumberIn(items, c)
      ensures ItemEquals(row, Num(c), items[i], true) == U <==> items[i].NullValue? || items[i].List?
      ensures ItemEquals(row, Num(c), items[i], false) == U <==> items[i].NullValue? || items[i].List?
    {
    }
    if NumberIn(items, c) { NumberIsMember(row, c, items); }
  }

  lemma NumberIsMember(row: Row, c: real, items: seq<Value>)
    requires NumberIn(items, c)
    ensures InList(row, Num(c), items, true) == InList(row, Num(c), items, false) == T
  {
    var i :| 0 <= i < |items| && match items[i]
                                 case Int(n) => n as real == c
                                 case Float(r) => r == c
                                 case Bool(b) => BoolToFloat(b) == c
                                 case _ => false;
    assert ItemEquals(row, Num(c), items[i], true) == T && ItemEquals(row, Num(c), items[i], false) == T;
  }

  lemma TextInList(row: Row, s: string, items: seq<Value>)
    ensures InList(row, Str(s), items, true) == InList(row, Str(s), items, false)
  {
    assert forall i :: 0 <= i < |items| ==>
             ItemEquals(row, Str(s), items[i], true) == ItemEquals(row, Str(s), items[i], false);
  }

  lemma NullInList(row: Row, items: seq<Value>)
    ensures InList(row, Null, items, true) == if items == [] then F else U
  {
    assert forall i :: 0 <= i < |items| ==> ItemEquals(row, Null, items[i], true) == U;
    if items != [] { assert ItemEquals(row, Null, items[0], true) == U; }
  }

  lemma BareListExact(row: Row, d: Default, op: Op, items: seq<Value>, x: SqlValue)
    requires BareIsExact(d, op, List(items))
    ensures CompareBare(row, op, x, List(items)) == T <==> CompareCoalesced(row, op, x, d, List(items)) == T
  {
    match x
    case Null =>
      NullInList(row, items);
      NumberInList(row, DefaultNumber(d), items);
    case Num(c) => NumberInList(row, c, items);
    case Str(s) => TextInList(row, s, items);
  }

  /** A column value that tells the bare form from the COALESCE form. */
  ghost function ListDisagreement(items: seq<Value>): SqlValue {
    if TextNumbersCovered(items) then Null
    else
      var i :| 0 <= i < |items| && items[i].Text? && items[i].number.Some? && !NumberIn(items, items[i].number.value);
      Num(items[i].number.value)
  }

  lemma BareListDiffers(row: Row, d: Default, op: Op, items: seq<Value>)
    requires !BareIsExact(d, op, List(items))
    ensures var x := ListDisagreement(items);
            !(CompareBare(row, op, x, List(items)) == T <==> CompareCoalesced(row, op, x, d, List(items)) == T)
  {
    NullInList(row, items);
    NumberInList(row, DefaultNumber(d), items);
    var x := ListDisagreement(items);
    if x.Num? { NumberInList(row, x.r, items); }
  }

  /** Dropping the default without restoring NULL is right, whatever the column holds, if and only if
      the value is exact. */
  lemma BareColumnIff(col: string, d: Default, op: Op, v: Value)
    ensures BareIsExact(d, op, v) <==>
            forall row: Row :: Eval(Bare(col, op, v), row) == T <==>
                               CompareCoalesced(row, op, row.column(col), d, v) == T
  {
    if BareIsExact(d, op, v) {
      forall row: Row
        ensures Eval(Bare(col, op, v), row) == T <==> CompareCoalesced(row, op, row.column(col), d, v) == T
      {
        if v.List? { BareListExact(row, d, op, v.items, row.column(col)); }
      }
    } else {
      var row := Witness(if v.List? then ListDisagreement(v.items)
                         else if v.Text? && v.number.Some? then Num(Disagreement(op, v.number.value)) else Null);
      if v.List? { BareListDiffers(row, d, op, v.items); }
      assert !(Eval(Bare(col, op, v), row) == T <==> CompareCoalesced(row, op, row.column(col), d, v) == T);
    }
  }

  // ---------------------------------------------------------------------------------------------
  // What a rule tree means

  function FieldTruth(row: Row, op: Op, f: Field, v: Value): TV {
    match f
    case Annotation(col, d) => CompareCoalesced(row, op, row.column(col), d, v)
    case Column(col, _, _) => CompareBare(row, op, row.column(col), v)
    case _ => U
  }

  /** LIKE on a column, the default standing for NULL. */
  function LikeTruth(row: Row, f: Field, pattern: string, negate: bool): TV {
    match f
    case Annotation(col, d) =>
      LikeValue(row.like, if row.column(col).Null? then Num(DefaultNumber(d)) else row.column(col), pattern, negate)
    case Column(col, _, _) => LikeValue(row.like, row.column(col), pattern, negate)
    case _ => U
  }

  function DateText(date: string): Value { Text(date, None, None) }

  function PeriodTruth(row: Row, col: string, date: string, negate: bool): TV {
    if negate then OfBool(row.column(col).Null? || CompareBare(row, Lt, row.column(col), DateText(date)) == T)
    else CompareBare(row, Gt, row.column(col), DateText(date))
  }

  predicate Absent(x: SqlValue, empties: seq<string>) { x.Null? || (x.Str? && x.s in empties) }

  ghost function Meaning(r: Rule, row: Row): TV
    decreases r
  {
    match r
    case All(rs) => Conj(exists i :: 0 <= i < |rs| && Meaning(rs[i], row) == F,
                         exists i :: 0 <= i < |rs| && Meaning(rs[i], row) == U)
    case Any(rs) => Disj(exists i :: 0 <= i < |rs| && Meaning(rs[i], row) == T,
                         exists i :: 0 <= i < |rs| && Meaning(rs[i], row) == U)
    case Compare(op, fs) =>
      if |fs| == 1 && fs[0].0.Json? then
        OfBool(if op == Ne then !Hit(row, fs[0].0.json, Compares(Eq, fs[0].1))
               else Hit(row, fs[0].0.json, Compares(op, fs[0].1)))
      else
        Conj(exists i :: 0 <= i < |fs| && FieldTruth(row, op, fs[i].0, fs[i].1) == F,
             exists i :: 0 <= i < |fs| && FieldTruth(row, op, fs[i].0, fs[i].1) == U)
    case Like(fs, neg) =>
      if |fs| == 1 && fs[0].0.Json? then OfBool(Hit(row, fs[0].0.json, Matches(fs[0].1)) != neg)
      else
        Conj(exists i :: 0 <= i < |fs| && LikeTruth(row, fs[i].0, fs[i].1, neg) == F,
             exists i :: 0 <= i < |fs| && LikeTruth(row, fs[i].0, fs[i].1, neg) == U)
    case InTheRange(f, bs) =>
      if |bs| != 2 then U
      else
        var lo, hi := FieldTruth(row, Ge, f, bs[0]), FieldTruth(row, Le, f, bs[1]);
        Conj(lo == F || hi == F, lo == U || hi == U)
    case Missing(Json(j), Bool(b), absence) => OfBool((|Values(row, j)| == 0) == (absence == b))
    case Missing(Column(col, _, empties), Bool(b), absence) =>
      OfBool(Absent(row.column(col), empties) == (absence == b))
    case Period(ds, neg) => if Valid(r) then PeriodTruth(row, ds[0].0.col, ds[0].1.value, neg) else U
    case InPlaylist(Some(ref), neg) => OfBool(row.listed(ref) != neg)
    case _ => U
  }

  /** The rules the compiler accepts. */
  predicate Valid(r: Rule) {
    match r
    case All(rs) => forall i :: 0 <= i < |rs| ==> Valid(rs[i])
    case Any(rs) => forall i :: 0 <= i < |rs| ==> Valid(rs[i])
    case Compare(_, fs) =>
      (|fs| == 1 && fs[0].0.Json?) || forall i :: 0 <= i < |fs| ==> fs[i].0.Annotation? || fs[i].0.Column?
    case Like(fs, _) =>
      (|fs| == 1 && fs[0].0.Json?) || forall i :: 0 <= i < |fs| ==> fs[i].0.Annotation? || fs[i].0.Column?
    case InTheRange(f, bs) => (f.Annotation? || f.Column?) && |bs| == 2
    case Missing(f, v, _) => (f.Json? || (f.Column? && f.nullable)) && v.Bool?
    case Period(ds, _) =>
      // the dates in the order in which the loop over the map meets them: it takes the first
      ds != [] && (forall i :: 0 <= i < |ds| ==> ds[i].0.Annotation? || ds[i].0.Column?) && ds[0].1.Some?
    case InPlaylist(ref, _) => ref.Some?
  }

  predicate ExactField(op: Op, f: Field, v: Value) { f.Annotation? ==> ExactValue(f.dflt, op, v) }

  /** A bare LIKE on a defaulted column is right when the default does not match. */
  predicate LikeIsExact(like: Reading, d: Default, pattern: string, negate: bool) {
    LikeValue(like, Num(DefaultNumber(d)), pattern, negate) != T
  }

  /** No leaf is one of those that lose their default, or that the COALESCE rewrite changes. */
  predicate Exact(r: Rule, like: Reading) {
    match r
    case All(rs) => forall i :: 0 <= i < |rs| ==> Exact(rs[i], like)
    case Any(rs) => forall i :: 0 <= i < |rs| ==> Exact(rs[i], like)
    case Compare(op, fs) =>
      if |fs| == 1 then ExactField(op, fs[0].0, fs[0].1)
      else forall i :: 0 <= i < |fs| && fs[i].0.Annotation? ==> BareIsExact(fs[i].0.dflt, op, fs[i].1)
    case Like(fs, neg) =>
      |fs| != 1 ==>
        forall i :: 0 <= i < |fs| && fs[i].0.Annotation? ==> LikeIsExact(like, fs[i].0.dflt, fs[i].1, neg)
    case InTheRange(f, bs) => |bs| == 2 ==> ExactField(Ge, f, bs[0]) && ExactField(Le, f, bs[1])
    case _ => true
  }

  predicate FieldAgrees(f: Field, flags: string -> bool) {
    f.Json? && f.json.Tag? ==> f.json.numeric == flags(f.json.name)
  }

  /** The field table gives each tag name one numeric flag. */
  predicate FlagsAgree(r: Rule, flags: string -> bool) {
    match r
    case All(rs) => forall i :: 0 <= i < |rs| ==> FlagsAgree(rs[i], flags)
    case Any(rs) => forall i :: 0 <= i < |rs| ==> FlagsAgree(rs[i], flags)
    case Compare(_, fs) => forall i :: 0 <= i < |fs| ==> FieldAgrees(fs[i].0, flags)
    case Like(fs, _) => forall i :: 0 <= i < |fs| ==> FieldAgrees(fs[i].0, flags)
    case Missing(f, _, _) => FieldAgrees(f, flags)
    case _ => true
  }

  predicate CondAgrees(c: Cond, flags: string -> bool) {
    c.Exists? && c.field.Tag? ==> c.field.numeric == flags(c.field.name)
  }

  // ---------------------------------------------------------------------------------------------
  // The compiler

  /** What the comparison of one field selects, for every value. */
  predicate FieldSelects(row: Row, op: Op, f: Field, v: Value) {
    match f
    case Annotation(col, d) => AnnotationSelects(row, op, row.column(col), d, v)
    case Column(col, _, _) => CompareBare(row, op, row.column(col), v) == T
    case _ => false
  }

  /** The bare comparisons of all fields are true. */
  predicate BareSelects(row: Row, op: Op, fs: seq<(Field, Value)>) {
    forall i :: 0 <= i < |fs| ==>
      (fs[i].0.Annotation? || fs[i].0.Column?) && CompareBare(row, op, row.column(fs[i].0.col), fs[i].1) == T
  }

  /** The bare patterns of all fields match. */
  predicate BareLikeSelects(row: Row, fs: seq<(Field, string)>, negate: bool) {
    forall i :: 0 <= i < |fs| ==> (fs[i].0.Annotation? || fs[i].0.Column?)
                                  && LikeValue(row.like, row.column(fs[i].0.col), fs[i].1, negate) == T
  }

  /** The rows the compiled form of a rule selects, whether or not its values are exact: the rule's meaning,
      but for the leaves that lose their default or whose text is read as a number. */
  ghost predicate Selects(r: Rule, row: Row) {
    match r
    case All(rs) => forall i :: 0 <= i < |rs| ==> Selects(rs[i], row)
    case Any(rs) => exists i :: 0 <= i < |rs| && Selects(rs[i], row)
    case Compare(op, fs) =>
      if |fs| != 1 then BareSelects(row, op, fs)
      else if fs[0].0.Json? then Meaning(r, row) == T else FieldSelects(row, op, fs[0].0, fs[0].1)
    case Like(fs, neg) => if |fs| != 1 then BareLikeSelects(row, fs, neg) else Meaning(r, row) == T
    case InTheRange(f, bs) => |bs| == 2 && FieldSelects(row, Ge, f, bs[0]) && FieldSelects(row, Le, f, bs[1])
    case _ => Meaning(r, row) == T
  }

  ghost predicate CompilesTo(r: Rule, c: Cond) { forall row: Row :: Eval(c, row) == T <==> Selects(r, row) }

  /** Wherever the rule is exact, the condition is true on exactly the rows on which the rule is true. */
  ghost predicate MeansTheSame(r: Rule, c: Cond) {
    forall row: Row | Exact(r, row.like) :: Eval(c, row) == T <==> Meaning(r, row) == T
  }

  /** A valid rule selects the rows it describes, wherever it is exact. */
  lemma {:induction false} SelectsMeaning(r: Rule, row: Row)
    requires Valid(r) && Exact(r, row.like)
    ensures Selects(r, row) <==> Meaning(r, row) == T
    decreases r
  {
    match r
    case All(rs) =>
      forall i | 0 <= i < |rs| ensures Selects(rs[i], row) <==> Meaning(rs[i], row) == T { SelectsMeaning(rs[i], row); }
      AllMeans(rs, row);
    case Any(rs) =>
      forall i | 0 <= i < |rs| ensures Selects(rs[i], row) <==> Meaning(rs[i], row) == T { SelectsMeaning(rs[i], row); }
      AnyMeans(rs, row);
    case Compare(op, fs) => ComparisonMeaning(op, fs, row);
    case Like(fs, neg) => LikeMeaning(fs, neg, row);
    case InTheRange(f, bs) => RangeMeaning(f, bs, row);
    case _ =>
  }

  lemma ExactMeans(r: Rule, c: Cond)
    requires Valid(r) && CompilesTo(r, c)
    ensures MeansTheSame(r, c)
  {
    forall row: Row | Exact(r, row.like) ensures Eval(c, row) == T <==> Meaning(r, row) == T { SelectsMeaning(r, row); }
  }

  lemma ExactFieldMeaning(op: Op, f: Field, v: Value, row: Row)
    requires (f.Annotation? || f.Column?) && ExactField(op, f, v)
    ensures FieldSelects(row, op, f, v) <==> FieldTruth(row, op, f, v) == T
  {
    if f.Annotation? {
      AnnotationCondExact(f.col, f.dflt, op, v, row);
      AnnotationCondMeans(f.col, f.dflt, op, v, row);
    }
  }

  lemma ComparisonMeaning(op: Op, fs: seq<(Field, Value)>, row: Row)
    requires Valid(Compare(op, fs)) && Exact(Compare(op, fs), row.like)
    ensures Selects(Compare(op, fs), row) <==> Meaning(Compare(op, fs), row) == T
  {
    if |fs| == 1 && !fs[0].0.Json? {
      ExactFieldMeaning(op, fs[0].0, fs[0].1, row);
    } else if |fs| != 1 {
      forall i | 0 <= i < |fs|
        ensures CompareBare(row, op, row.column(fs[i].0.col), fs[i].1) == T <==>
                FieldTruth(row, op, fs[i].0, fs[i].1) == T
      {
        BareFieldMeaning(op, fs[i].0, fs[i].1, row);
      }
    }
  }

  lemma BareFieldMeaning(op: Op, f: Field, v: Value, row: Row)
    requires f.Column? || (f.Annotation? && BareIsExact(f.dflt, op, v))
    ensures CompareBare(row, op, row.column(f.col), v) == T <==> FieldTruth(row, op, f, v) == T
  {
    if f.Annotation? {
      BareColumnIff(f.col, f.dflt, op, v);
      assert Eval(Bare(f.col, op, v), row) == CompareBare(row, op, row.column(f.col), v);
    }
  }

  lemma LikeMeaning(fs: seq<(Field, string)>, negate: bool, row: Row)
    requires Valid(Like(fs, negate)) && Exact(Like(fs, negate), row.like)
    ensures Selects(Like(fs, negate), row) <==> Meaning(Like(fs, negate), row) == T
  {
    forall i | |fs| != 1 && 0 <= i < |fs|
      ensures LikeValue(row.like, row.column(fs[i].0.col), fs[i].1, negate) == T <==>
              LikeTruth(row, fs[i].0, fs[i].1, negate) == T
    {
    }
  }

  lemma RangeMeaning(f: Field, bounds: seq<Value>, row: Row)
    requires Valid(InTheRange(f, bounds)) && Exact(InTheRange(f, bounds), row.like)
    ensures Selects(InTheRange(f, bounds), row) <==> Meaning(InTheRange(f, bounds), row) == T
  {
    ExactFieldMeaning(Ge, f, bounds[0], row);
    ExactFieldMeaning(Le, f, bounds[1], row);
  }

  method SqlFields(op: Op, fs: seq<(Field, Value)>) returns (r: Result<Cond, string>)
    ensures r.Ok? <==> forall i :: 0 <= i < |fs| ==> fs[i].0.Annotation? || fs[i].0.Column?
    ensures r.Ok? ==> r.value.And? && |r.value.conds| == |fs| &&
                      forall i :: 0 <= i < |fs| ==> r.value.conds[i] == Bare(fs[i].0.col, op, fs[i].1)
  {
    var conds: seq<Cond> := [];
    for k := 0 to |fs|
      invariant |conds| == k
      invariant forall i :: 0 <= i < k ==>
                  (fs[i].0.Annotation? || fs[i].0.Column?) && conds[i] == Bare(fs[i].0.col, op, fs[i].1)
    {
      match fs[k].0 {
        case Unknown => return Err("invalid field in criteria");
        case Json(_) => return Err("tag and role criteria must contain exactly one field");
        case Annotation(col, _) => conds := conds + [Bare(col, op, fs[k].1)];
        case Column(col, _, _) => conds := conds + [Bare(col, op, fs[k].1)];
      }
    }
    return Ok(And(conds));
  }

  method ComparisonExpr(op: Op, fs: seq<(Field, Value)>) returns (r: Result<Cond, string>)
    ensures r.Ok? <==> Valid(Compare(op, fs))
    ensures r.Ok? ==> CompilesTo(Compare(op, fs), r.value) && MeansTheSame(Compare(op, fs), r.value)
    ensures r.Ok? ==> forall flags: string -> bool :: FlagsAgree(Compare(op, fs), flags) ==> CondAgrees(r.value, flags)
  {
    if |fs| == 1 && fs[0].0.Json? {
      // isNot on a multi-valued field means no value equals, not some value differs
      r := Ok(Exists(fs[0].0.json, Some(Compares(if op == Ne then Eq else op, fs[0].1)), op == Ne));
    } else if |fs| == 1 && fs[0].0.Annotation? {
      r := Ok(AnnotationCond(fs[0].0.col, fs[0].0.dflt, op, fs[0].1));
      forall row: Row ensures Eval(r.value, row) == T <==> Selects(Compare(op, fs), row) {
        AnnotationCondMeans(fs[0].0.col, fs[0].0.dflt, op, fs[0].1, row);
      }
    } else {
      r := SqlFields(op, fs);
      if r.Ok? { BareFieldsMean(op, fs, r.value.conds); }
    }
    if r.Ok? { ExactMeans(Compare(op, fs), r.value); }
  }

  lemma BareFieldsMean(op: Op, fs: seq<(Field, Value)>, conds: seq<Cond>)
    requires |conds| == |fs| && forall i :: 0 <= i < |fs| ==>
               (fs[i].0.Annotation? || fs[i].0.Column?) && conds[i] == Bare(fs[i].0.col, op, fs[i].1)
    requires |fs| == 1 ==> fs[0].0.Column?
    ensures CompilesTo(Compare(op, fs), And(conds))
  {
    forall row: Row ensures Eval(And(conds), row) == T <==> Selects(Compare(op, fs), row) {
      BareFieldsSelect(op, fs, conds, row);
    }
  }

  lemma BareFieldsSelect(op: Op, fs: seq<(Field, Value)>, conds: seq<Cond>, row: Row)
    requires |conds| == |fs| && forall i :: 0 <= i < |fs| ==>
               (fs[i].0.Annotation? || fs[i].0.Column?) && conds[i] == Bare(fs[i].0.col, op, fs[i].1)
    ensures Eval(And(conds), row) == T <==> BareSelects(row, op, fs)
  {
    AndSelects(conds, row);
  }

  lemma AndSelects(cs: seq<Cond>, row: Row)
    ensures Eval(And(cs), row) == T <==> forall i :: 0 <= i < |cs| ==> Eval(cs[i], row) == T
  {
  }

  lemma OrSelects(cs: seq<Cond>, row: Row)
    ensures Eval(Or(cs), row) == T <==> exists i :: 0 <= i < |cs| && Eval(cs[i], row) == T
  {
  }

  method LikeFields(fs: seq<(Field, string)>, negate: bool) returns (r: Result<Cond, string>)
    ensures r.Ok? <==> forall i :: 0 <= i < |fs| ==> fs[i].0.Annotation? || fs[i].0.Column?
    ensures r.Ok? ==> r.value.And? && |r.value.conds| == |fs|
    ensures r.Ok? ==> forall i :: 0 <= i < |fs| ==> r.value.conds[i] == LikeColumn(fs[i].0.col, None, fs[i].1, negate)
  {
    var conds: seq<Cond> := [];
    for k := 0 to |fs|
      invariant |conds| == k
      invariant forall i :: 0 <= i < k ==> fs[i].0.Annotation? || fs[i].0.Column?
      invariant forall i :: 0 <= i < k ==> conds[i] == LikeColumn(fs[i].0.col, None, fs[i].1, negate)
    {
      if fs[k].0.Unknown? { return Err("invalid field in criteria"); }
      if fs[k].0.Json? { return Err("tag and role criteria must contain exactly one field"); }
      conds := conds + [LikeColumn(fs[k].0.col, None, fs[k].1, negate)];
    }
    return Ok(And(conds));
  }

  method LikeExpr(fs: seq<(Field, string)>, negate: bool) returns (r: Result<Cond, string>)
    ensures r.Ok? <==> Valid(Like(fs, negate))
    ensures r.Ok? ==> CompilesTo(Like(fs, negate), r.value) && MeansTheSame(Like(fs, negate), r.value)
    ensures r.Ok? ==> forall flags: string -> bool :: FlagsAgree(Like(fs, negate), flags) ==> CondAgrees(r.value, flags)
  {
    if |fs| == 1 && fs[0].0.Json? {
      r := Ok(Exists(fs[0].0.json, Some(Matches(fs[0].1)), negate));
    } else if |fs| == 1 && fs[0].0.Annotation? {
      r := Ok(LikeColumn(fs[0].0.col, Some(fs[0].0.dflt), fs[0].1, negate));
    } else {
      r := LikeFields(fs, negate);
      if r.Ok? { BareLikesMean(fs, negate, r.value.conds); }
    }
    if r.Ok? { ExactMeans(Like(fs, negate), r.value); }
  }

  lemma BareLikesMean(fs: seq<(Field, string)>, negate: bool, conds: seq<Cond>)
    requires |conds| == |fs| && forall i :: 0 <= i < |fs| ==>
               (fs[i].0.Annotation? || fs[i].0.Column?) && conds[i] == LikeColumn(fs[i].0.col, None, fs[i].1, negate)
    requires |fs| == 1 ==> fs[0].0.Column?
    ensures CompilesTo(Like(fs, negate), And(conds))
  {
    forall row: Row ensures Eval(And(conds), row) == T <==> Selects(Like(fs, negate), row) {
      BareLikesSelect(fs, negate, conds, row);
      OneLikeMeans(fs, negate, row);
    }
  }

  lemma BareLikesSelect(fs: seq<(Field, string)>, negate: bool, conds: seq<Cond>, row: Row)
    requires |conds| == |fs| && forall i :: 0 <= i < |fs| ==>
               (fs[i].0.Annotation? || fs[i].0.Column?) && conds[i] == LikeColumn(fs[i].0.col, None, fs[i].1, negate)
    ensures Eval(And(conds), row) == T <==> BareLikeSelects(row, fs, negate)
  {
    AndSelects(conds, row);
  }

  lemma OneLikeMeans(fs: seq<(Field, string)>, negate: bool, row: Row)
    requires |fs| == 1 ==> fs[0].0.Column?
    ensures Selects(Like(fs, negate), row) <==> BareLikeSelects(row, fs, negate)
  {
  }

  /** LIKE and NOT LIKE: a value matches, or does not; NULL does neither, unless a default stands for it. */
  lemma PatternSelects(col: string, fallback: Option<Default>, pattern: string, row: Row)
    ensures var x := if row.column(col).Null? && fallback.Some? then Num(DefaultNumber(fallback.value))
                     else row.column(col);
            && (Eval(LikeColumn(col, fallback, pattern, false), row) == T <==> !x.Null? && row.like(x, pattern) == T)
            && (Eval(LikeColumn(col, fallback, pattern, true), row) == T <==> !x.Null? && row.like(x, pattern) == F)
  {
  }

  /** A tag rule looks at the values of the tag, read as numbers if the tag is numeric; a role rule at the
      names in the role.  Some value passes, or none does; a missing rule asks for no value at all. */
  lemma TagAndRoleSelect(name: string, numeric: bool, test: Test, negated: bool, row: Row)
    ensures Eval(Exists(Tag(name, numeric), Some(test), negated), row) == T <==>
            ((exists v :: v in row.tagValues(name) && row.holds(test, numeric, v) == T) <==> !negated)
    ensures Eval(Exists(Role(name), Some(test), negated), row) == T <==>
            ((exists v :: v in row.roleNames(name) && row.holds(test, false, v) == T) <==> !negated)
    ensures Eval(Exists(Tag(name, numeric), None, negated), row) == T <==> (row.tagValues(name) == [] <==> negated)
    ensures Eval(Exists(Role(name), None, negated), row) == T <==> (row.roleNames(name) == [] <==> negated)
  {
    var tag, role := Tag(name, numeric), Role(name);
    forall v | v in row.tagValues(name) && row.holds(test, numeric, v) == T ensures Hit(row, tag, test) {
      var i :| 0 <= i < |row.tagValues(name)| && row.tagValues(name)[i] == v;
      assert Values(row, tag)[i] == v;
    }
    forall v | v in row.roleNames(name) && row.holds(test, false, v) == T ensures Hit(row, role, test) {
      var i :| 0 <= i < |row.roleNames(name)| && row.roleNames(name)[i] == v;
      assert Values(row, role)[i] == v;
    }
  }

  /** A bare LIKE stands for the defaulted column, whatever the column holds, if and only if the default
      does not match. */
  lemma BareLikeIff(like: Reading, col: string, d: Default, pattern: string, negate: bool)
    ensures LikeIsExact(like, d, pattern, negate) <==>
            forall row: Row :: row.like == like ==> (Eval(LikeColumn(col, None, pattern, negate), row) == T <==>
                                                     Eval(LikeColumn(col, Some(d), pattern, negate), row) == T)
  {
    var row := Witness(Null).(like := like);
    assert Eval(LikeColumn(col, None, pattern, negate), row) == U;
    assert Eval(LikeColumn(col, Some(d), pattern, negate), row) ==
           LikeValue(like, Num(DefaultNumber(d)), pattern, negate);
  }

  /** LIKE on texts: % stands for any text, _ for any character.  Letter case is no matter for digits. */
  predicate LikeText(s: string, pattern: string)
    decreases |pattern|, |s|
  {
    if pattern == "" then s == ""
    else if pattern[0] == '%' then LikeText(s, pattern[1..]) || (s != "" && LikeText(s[1..], pattern))
    else s != "" && (pattern[0] == '_' || pattern[0] == s[0]) && LikeText(s[1..], pattern[1..])
  }

  /** The pattern of a contains rule, for a text without wildcards, matches 0 only for "" and "0". */
  lemma ContainsZero(v: string)
    requires '%' !in v && '_' !in v
    ensures LikeText("0", "%" + v + "%") <==> v == "" || v == "0"
  {
    var p := "%" + v + "%";
    assert p[1..] == v + "%" && "0"[1..] == "";
    assert LikeText("", "");
    assert LikeText("", "%") && LikeText("0", "%");
    if v != "" {
      assert (v + "%")[1..] == v[1..] + "%";
      assert !LikeText("", v + "%");
      if |v| > 1 { assert !LikeText("", v[1..] + "%"); }
    }
  }

  /** "title and playcount contain v", with 0 read as the text 0: the compiled rule selects what the rule
      describes, for every row, if and only if v is neither empty nor "0". */
  lemma ContainsRuleIff(like: Reading, title: string, col: string, v: string)
    requires title != col && '%' !in v && '_' !in v
    requires forall p :: like(Num(0.0), p) == OfBool(LikeText("0", p))
    requires like(Str(v), "%" + v + "%") == T
    ensures var p := "%" + v + "%";
            var fs := [(Column(title, false, []), p), (Annotation(col, NumDefault(0.0)), p)];
            v != "" && v != "0" <==>
            forall row: Row :: row.like == like ==>
              (Eval(And([LikeColumn(title, None, p, false), LikeColumn(col, None, p, false)]), row) == T <==>
               Meaning(Like(fs, false), row) == T)
  {
    var p := "%" + v + "%";
    var fs := [(Column(title, false, []), p), (Annotation(col, NumDefault(0.0)), p)];
    var conds := [LikeColumn(title, None, p, false), LikeColumn(col, None, p, false)];
    ContainsZero(v);
    if v != "" && v != "0" {
      forall row: Row | row.like == like ensures Eval(And(conds), row) == T <==> Meaning(Like(fs, false), row) == T {
        BareLikesMean(fs, false, conds);
        LikeMeaning(fs, false, row);
      }
    } else {
      var row := Witness(Null).(like := like, column := c => if c == title then Str(v) else Null);
      assert Eval(conds[1], row) == U;
      assert LikeTruth(row, fs[0].0, fs[0].1, false) == T && LikeTruth(row, fs[1].0, fs[1].1, false) == T;
      assert Eval(And(conds), row) != T && Meaning(Like(fs, false), row) == T;
    }
  }

  method PeriodExpr(dates: seq<(Field, Option<string>)>, negate: bool) returns (r: Result<Cond, string>)
    ensures r.Ok? <==> Valid(Period(dates, negate))
    ensures r.Ok? ==> !r.value.Exists?
    ensures r.Ok? ==> forall row: Row :: Eval(r.value, row) == T <==> Meaning(Period(dates, negate), row) == T
  {
    for k := 0 to |dates|
      invariant forall i :: 0 <= i < k ==> dates[i].0.Annotation? || dates[i].0.Column?
    {
      if dates[k].0.Unknown? { return Err("invalid field in criteria"); }
      if dates[k].0.Json? { return Err("tag and role criteria must contain exactly one field"); }
    }
    if dates == [] || dates[0].1.None? { return Err("invalid number of days"); }
    var col, date := dates[0].0.col, DateText(dates[0].1.value);
    if !negate { return Ok(Bare(col, Gt, date)); }
    r := Ok(Or([Bare(col, Lt, date), IsNull(col)]));
    forall row: Row ensures Eval(r.value, row) == T <==> Meaning(Period(dates, negate), row) == T {
      OrNull(col, Lt, date, row);
    }
  }

  /** The loop over the map takes whichever field it meets first: two orders of one map select the same
      rows if and only if they start with the same field. */
  lemma PeriodOrderIff(ds: seq<(Field, Option<string>)>, es: seq<(Field, Option<string>)>, negate: bool)
    requires Valid(Period(ds, negate)) && Valid(Period(es, negate))
    requires ds[0].0.col == es[0].0.col ==> ds[0] == es[0]
    ensures ds[0] == es[0] <==>
            forall row: Row :: Meaning(Period(ds, negate), row) == T <==> Meaning(Period(es, negate), row) == T
  {
    if ds[0] != es[0] {
      var date := ds[0].1.value;
      var row := if negate then Witness(Null).(column := c => if c == ds[0].0.col then Null else Str(""))
                 else Witness(Null).(column := c => if c == ds[0].0.col then Str(date + "T") else Null,
                                     other := PrefixFirst);
      assert date < date + "T";
      assert Meaning(Period(ds, negate), row) == T && Meaning(Period(es, negate), row) != T;
    }
  }

  /** A text comes before the longer texts it begins. */
  function PrefixFirst(op: Op, x: SqlValue, v: Value): TV {
    if x.Str? && v.Text? && v.s < x.s then OfBool(op == Gt || op == Ge || op == Ne) else F
  }

  lemma BothSelect(a: Cond, b: Cond, row: Row)
    ensures Eval(And([a, b]), row) == T <==> Eval(a, row) == T && Eval(b, row) == T
  {
    AndSelects([a, b], row);
    assert [a, b][0] == a && [a, b][1] == b;
  }

  method RangeExpr(f: Field, bounds: seq<Value>) returns (r: Result<Cond, string>)
    ensures r.Ok? <==> Valid(InTheRange(f, bounds))
    ensures r.Ok? ==> r.value.And?
    ensures r.Ok? ==> CompilesTo(InTheRange(f, bounds), r.value) && MeansTheSame(InTheRange(f, bounds), r.value)
  {
    if f.Unknown? { return Err("invalid field in criteria"); }
    if f.Json? { return Err("range operator not supported for tag/role field"); }
    if |bounds| != 2 { return Err("range criteria must be a [min, max] pair"); }
    var low := ComparisonExpr(Ge, [(f, bounds[0])]);
    var high := ComparisonExpr(Le, [(f, bounds[1])]);
    if low.Err? { return low; }
    if high.Err? { return high; }
    r := Ok(And([low.value, high.value]));
    forall row: Row ensures Eval(r.value, row) == T <==> Selects(InTheRange(f, bounds), row) {
      BothSelect(low.value, high.value, row);
      assert Selects(Compare(Ge, [(f, bounds[0])]), row) <==> FieldSelects(row, Ge, f, bounds[0]);
      assert Selects(Compare(Le, [(f, bounds[1])]), row) <==> FieldSelects(row, Le, f, bounds[1]);
    }
    ExactMeans(InTheRange(f, bounds), r.value);
  }

  method MissingExpr(f: Field, v: Value, checkAbsence: bool) returns (r: Result<Cond, string>)
    ensures r.Ok? <==> Valid(Missing(f, v, checkAbsence))
    ensures r.Ok? ==> forall row: Row :: Eval(r.value, row) == T <==> Meaning(Missing(f, v, checkAbsence), row) == T
    ensures r.Ok? ==> (f.Json? && r.value == Exists(f.json, None, checkAbsence == v.b)) || r.value.Or? || r.value.And?
  {
    if f.Unknown? { return Err("invalid field in criteria"); }
    if !v.Bool? { return Err("invalid boolean value for 'missing' expression"); }
    var negate := checkAbsence == v.b;
    if f.Json? { return Ok(Exists(f.json, None, negate)); }
    if !f.Column? || !f.nullable { return Err("isMissing/isPresent operator is not supported"); }
    var missing := [IsNull(f.col)];
    var present := [IsNotNull(f.col)];
    for k := 0 to |f.empties|
      invariant |missing| == |present| == k + 1
      invariant missing[0] == IsNull(f.col) && present[0] == IsNotNull(f.col)
      invariant forall i :: 0 <= i < k ==> missing[i + 1] == Bare(f.col, Eq, Text(f.empties[i], None, None))
                                           && present[i + 1] == Bare(f.col, Ne, Text(f.empties[i], None, None))
    {
      missing := missing + [Bare(f.col, Eq, Text(f.empties[k], None, None))];
      present := present + [Bare(f.col, Ne, Text(f.empties[k], None, None))];
    }
    forall row: Row
      ensures Eval(Or(missing), row) == T <==> Absent(row.column(f.col), f.empties)
      ensures Eval(And(present), row) == T <==> !Absent(row.column(f.col), f.empties)
    {
      MissingIsAbsent(f.col, f.empties, missing, present, row);
    }
    r := if negate then Ok(Or(missing)) else Ok(And(present));
  }

  /** The two column forms select complementary rows, NULL included. */
  lemma MissingIsAbsent(col: string, empties: seq<string>, missing: seq<Cond>, present: seq<Cond>, row: Row)
    requires |missing| == |present| == |empties| + 1
    requires missing[0] == IsNull(col) && present[0] == IsNotNull(col)
    requires forall i :: 0 <= i < |empties| ==> missing[i + 1] == Bare(col, Eq, Text(empties[i], None, None))
                                                && present[i + 1] == Bare(col, Ne, Text(empties[i], None, None))
    ensures Eval(Or(missing), row) == T <==> Absent(row.column(col), empties)
    ensures Eval(And(present), row) == T <==> !Absent(row.column(col), empties)
  {
    var x := row.column(col);
    OrSelects(missing, row);
    AndSelects(present, row);
    forall i | 0 <= i < |missing|
      ensures Eval(missing[i], row) == T <==> if i == 0 then x.Null? else x == Str(empties[i - 1])
      ensures Eval(present[i], row) == T <==> !x.Null? && (i > 0 ==> x != Str(empties[i - 1]))
    {
      if i > 0 {
        assert missing[(i - 1) + 1] == Bare(col, Eq, Text(empties[i - 1], None, None));
        EmptyEncoding(col, empties[i - 1], row);
      }
    }
    if Absent(x, empties) && !x.Null? {
      var k :| 0 <= k < |empties| && empties[k] == x.s;
      assert Eval(missing[k + 1], row) == T && Eval(present[k + 1], row) != T;
    }
  }

  lemma EmptyEncoding(col: string, empty: string, row: Row)
    ensures Eval(Bare(col, Eq, Text(empty, None, None)), row) == T <==> row.column(col) == Str(empty)
    ensures Eval(Bare(col, Ne, Text(empty, None, None)), row) == T <==>
              !row.column(col).Null? && row.column(col) != Str(empty)
  {
  }

  /** Every tag condition of the list carries its name's flag, so merged fields are uniform. */
  lemma AgreementIsUniform(conds: seq<Cond>, negated: bool, flags: string -> bool)
    requires forall i :: 0 <= i < |conds| ==> CondAgrees(conds[i], flags)
    ensures UniformFields(conds, negated)
  {
  }

  ghost predicate FlagsConsistent(r: Rule) { exists flags: string -> bool :: FlagsAgree(r, flags) }

  ghost predicate CarriesFlags(r: Rule, c: Cond) {
    forall flags: string -> bool :: FlagsAgree(r, flags) ==> CondAgrees(c, flags)
  }

  ghost predicate SelectsSameRows(r: Rule, c: Cond) { FlagsConsistent(r) ==> CompilesTo(r, c) }

  ghost predicate EachCompiled(rs: seq<Rule>, conds: seq<Cond>) {
    |conds| == |rs| && forall i :: 0 <= i < |rs| ==> CarriesFlags(rs[i], conds[i]) && SelectsSameRows(rs[i], conds[i])
  }

  /** The compiled condition of a valid rule tree selects exactly the rows the tree describes: the
      two rewrites compose at every depth because "is true" is a congruence for AND and OR, although
      they may turn F into U. */
  method ExprSQL(r: Rule) returns (res: Result<Cond, string>)
    ensures res.Ok? <==> Valid(r)
    ensures res.Ok? ==> CarriesFlags(r, res.value) && SelectsSameRows(r, res.value)
    ensures res.Ok? && FlagsConsistent(r) ==> MeansTheSame(r, res.value)
    decreases r
  {
    match r {
      case All(rs) =>
        var conds := ExprSQLs(rs);
        if conds.Err? { return Err(conds.error); }
        var merged := MergeNegatedJsonConds(conds.value);
        AllCompiled(rs, conds.value, merged);
        res := Ok(merged);
      case Any(rs) =>
        var conds := ExprSQLs(rs);
        if conds.Err? { return Err(conds.error); }
        var merged := MergeJsonConds(conds.value);
        AnyCompiled(rs, conds.value, merged);
        res := Ok(merged);
      case Compare(op, fs) => res := ComparisonExpr(op, fs);
      case Like(fs, neg) => res := LikeExpr(fs, neg);
      case InTheRange(f, bounds) => res := RangeExpr(f, bounds);
      case Missing(f, v, absence) => res := MissingExpr(f, v, absence);
      case Period(dates, neg) => res := PeriodExpr(dates, neg);
      case InPlaylist(ref, neg) =>
        res := if ref.Some? then Ok(IdInPlaylist(ref.value, neg)) else Err("playlist id or path not given");
    }
    if res.Ok? && FlagsConsistent(r) { ExactMeans(r, res.value); }
  }

  method ExprSQLs(rs: seq<Rule>) returns (res: Result<seq<Cond>, string>)
    ensures res.Ok? <==> forall i :: 0 <= i < |rs| ==> Valid(rs[i])
    ensures res.Ok? ==> EachCompiled(rs, res.value)
    decreases rs
  {
    var conds: seq<Cond> := [];
    for k := 0 to |rs|
      invariant forall i :: 0 <= i < k ==> Valid(rs[i])
      invariant EachCompiled(rs[..k], conds)
    {
      var c := ExprSQL(rs[k]);
      if c.Err? { return Err(c.error); }
      conds := conds + [c.value];
    }
    assert rs[..|rs|] == rs;
    return Ok(conds);
  }

  lemma AllCompiled(rs: seq<Rule>, conds: seq<Cond>, merged: Cond)
    requires EachCompiled(rs, conds) && (UniformFields(conds, true) ==> SameTruth(merged, And(conds)))
    ensures SelectsSameRows(All(rs), merged)
  {
    forall flags: string -> bool, row: Row | FlagsAgree(All(rs), flags)
      ensures Eval(merged, row) == T <==> Selects(All(rs), row)
    {
      ChildrenAgree(rs, conds, flags, row);
      AgreementIsUniform(conds, true, flags);
      AndSelects(conds, row);
    }
  }

  lemma AnyCompiled(rs: seq<Rule>, conds: seq<Cond>, merged: Cond)
    requires EachCompiled(rs, conds) && (UniformFields(conds, false) ==> SameTruth(merged, Or(conds)))
    ensures SelectsSameRows(Any(rs), merged)
  {
    forall flags: string -> bool, row: Row | FlagsAgree(Any(rs), flags)
      ensures Eval(merged, row) == T <==> Selects(Any(rs), row)
    {
      ChildrenAgree(rs, conds, flags, row);
      AgreementIsUniform(conds, false, flags);
      OrSelects(conds, row);
    }
  }

  lemma ChildrenAgree(rs: seq<Rule>, conds: seq<Cond>, flags: string -> bool, row: Row)
    requires EachCompiled(rs, conds) && forall i :: 0 <= i < |rs| ==> FlagsAgree(rs[i], flags)
    ensures forall i :: 0 <= i < |rs| ==>
              CondAgrees(conds[i], flags) && (Eval(conds[i], row) == T <==> Selects(rs[i], row))
  {
  }

  lemma AnyMeans(rs: seq<Rule>, row: Row)
    ensures Meaning(Any(rs), row) == T <==> exists i :: 0 <= i < |rs| && Meaning(rs[i], row) == T
  {
  }

  lemma AllMeans(rs: seq<Rule>, row: Row)
    ensures Meaning(All(rs), row) == T <==> forall i :: 0 <= i < |rs| ==> Meaning(rs[i], row) == T
  {
  }
}
