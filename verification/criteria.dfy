/**
 * The smart-playlist compiler: a rule tree becomes one SQL condition, with two rewrites on the way.
 * Conditions on the same tag or role are merged into batched EXISTS subqueries, and comparisons on
 * annotation columns drop their COALESCE.  SQL conditions have three truth values; a row is selected
 * when the whole condition is T.
 */
module Criteria {
  import opened Wrappers

  datatype TV = T | F | U

  function OfBool(b: bool): TV { if b then T else F }
  function Not(v: TV): TV { match v case T => F case F => T case U => U }

  /** Every truth value of a list of conditions feeds AND and OR only through which values occur. */
  function Conj(hasF: bool, hasU: bool): TV { if hasF then F else if hasU then U else T }
  function Disj(hasT: bool, hasU: bool): TV { if hasT then T else if hasU then U else F }

  // ---------------------------------------------------------------------------------------------
  // Values and comparisons

  /** A criteria value: Go int, JSON float64, bool, list, null, or a string together with what
      strconv.ParseFloat and strconv.ParseBool read from it. */
  datatype Value =
    | Int(n: int)
    | Float(r: real)
    | Bool(b: bool)
    | Text(s: string, number: Option<real>, boolean: Option<bool>)
    | List(items: seq<Value>)
    | NullValue

  datatype SqlValue = Null | Num(r: real) | Str(s: string)

  datatype Op = Eq | Ne | Gt | Ge | Lt | Le

  predicate Satisfies(op: Op, a: real, b: real) {
    match op
    case Eq => a == b
    case Ne => a != b
    case Gt => a > b
    case Ge => a >= b
    case Lt => a < b
    case Le => a <= b
  }

  predicate IsOrdering(op: Op) { op != Eq && op != Ne }

  function BoolToFloat(b: bool): real { if b then 1.0 else 0.0 }

  /** The two kinds of COALESCE default in the field table: 0 and false. */
  datatype Default = NumDefault(r: real) | BoolDefault(b: bool)

  function DefaultNumber(d: Default): real {
    match d case NumDefault(r) => r case BoolDefault(b) => BoolToFloat(b)
  }

  // ---------------------------------------------------------------------------------------------
  // Fields, rules and compiled conditions

  /** A multi-valued field: a tag inside the tags JSON, or a role in media_file_artists. */
  datatype JsonField = Tag(name: string, numeric: bool) | Role(name: string)

  datatype Key = TagKey(name: string) | RoleKey(name: string)

  function KeyOf(f: JsonField): Key {
    match f case Tag(n, _) => TagKey(n) case Role(n) => RoleKey(n)
  }

  predicate IsNumericField(f: JsonField) { f.Tag? && f.numeric }

  /** What the field lookup answers for one field name. */
  datatype Field =
    | Unknown
    | Json(json: JsonField)
    | Annotation(col: string, dflt: Default)
    | Column(col: string, nullable: bool, empties: seq<string>)

  /** A condition on one value of a tag or role. */
  datatype Test = Compares(op: Op, value: Value) | Matches(pattern: string)

  datatype Rule =
    | All(rules: seq<Rule>)
    | Any(rules: seq<Rule>)
    | Compare(op: Op, fields: seq<(Field, Value)>)
    | Like(patterns: seq<(Field, string)>, negate: bool)
    | InTheRange(field: Field, bounds: seq<Value>)
    | Missing(field: Field, value: Value, checkAbsence: bool)
    | Period(dates: seq<(Field, Option<string>)>, negate: bool)        // None: the days are no number
    | InPlaylist(ref: Option<string>, negate: bool)                    // None: neither id nor path given

  datatype Cond =
    | And(conds: seq<Cond>)
    | Or(conds: seq<Cond>)
    | Bare(col: string, op: Op, value: Value)
    | Coalesced(col: string, dflt: Default, op: Op, value: Value)
    | IsNull(col: string)
    | IsNotNull(col: string)
    | LikeColumn(col: string, fallback: Option<Default>, pattern: string, negate: bool)
    | Exists(field: JsonField, test: Option<Test>, negated: bool)         // tagCond, roleCond
    | ExistsAny(field: JsonField, tests: seq<Test>, negated: bool)        // tagCondGroup, roleCondGroup
    | IdInPlaylist(ref: string, negate: bool)

  // ---------------------------------------------------------------------------------------------
  // Meaning of conditions on one row

  /** The truth value of LIKE on a value that is not NULL. */
  type Reading = (SqlValue, string) -> TV

  /** A row of the joined query, with the database's reading of everything no rewrite looks into. */
  datatype Row = Row(
    column: string -> SqlValue,
    tagValues: string -> seq<string>,
    roleNames: string -> seq<string>,
    holds: (Test, bool, string) -> TV,
    like: Reading,
    other: (Op, SqlValue, Value) -> TV,
    listed: string -> bool)

  /** A number compared with a text: SQLite orders every number before every text. */
  function NumberBeforeText(op: Op): TV { OfBool(op == Ne || op == Lt || op == Le) }

  /** A comparison with one value.  Affinity, which a numeric column has and an expression has not, turns
      a numeric text into a number. */
  function CompareScalar(row: Row, op: Op, x: SqlValue, v: Value, affinity: bool): TV {
    match (x, v)
    case (Null, _) => U
    case (Num(c), Int(n)) => OfBool(Satisfies(op, c, n as real))
    case (Num(c), Float(r)) => OfBool(Satisfies(op, c, r))
    case (Num(c), Bool(b)) => OfBool(Satisfies(op, c, BoolToFloat(b)))
    case (Num(c), Text(_, Some(n), _)) => if affinity then OfBool(Satisfies(op, c, n)) else NumberBeforeText(op)
    case (Num(c), Text(_, None, _)) => NumberBeforeText(op)
    case (Str(s), Text(t, _, _)) =>
      if op == Eq then OfBool(s == t) else if op == Ne then OfBool(s != t) else row.other(op, x, v)
    case _ => row.other(op, x, v)
  }

  /** Equality with one item of a list; NULL, and an argument that cannot be bound, equal nothing. */
  function ItemEquals(row: Row, x: SqlValue, item: Value, affinity: bool): TV {
    if item.NullValue? || item.List? then U else CompareScalar(row, Eq, x, item, affinity)
  }

  function InList(row: Row, x: SqlValue, items: seq<Value>, affinity: bool): TV {
    Disj(exists i :: 0 <= i < |items| && ItemEquals(row, x, items[i], affinity) == T,
         exists i :: 0 <= i < |items| && ItemEquals(row, x, items[i], affinity) == U)
  }

  /** = and <> become IN and NOT IN on a list, IS NULL and IS NOT NULL on a null; the other operators are
      refused on both when the query is rendered, and select nothing. */
  function CompareValue(row: Row, op: Op, x: SqlValue, v: Value, affinity: bool): TV {
    match v
    case NullValue => if op == Eq then OfBool(x.Null?) else if op == Ne then OfBool(!x.Null?) else U
    case List(items) =>
      if op == Eq then InList(row, x, items, affinity)
      else if op == Ne then Not(InList(row, x, items, affinity)) else U
    case _ => CompareScalar(row, op, x, v, affinity)
  }

  /** A bare column comparison. */
  function CompareBare(row: Row, op: Op, x: SqlValue, v: Value): TV { CompareValue(row, op, x, v, true) }

  /** COALESCE(col, default) is an expression: it has no affinity. */
  function CompareCoalesced(row: Row, op: Op, x: SqlValue, d: Default, v: Value): TV {
    CompareValue(row, op, if x.Null? then Num(DefaultNumber(d)) else x, v, false)
  }

  /** LIKE or NOT LIKE; on NULL both are U. */
  function LikeValue(like: Reading, x: SqlValue, pattern: string, negate: bool): TV {
    var v := if x.Null? then U else like(x, pattern);
    if negate then Not(v) else v
  }

  function Values(row: Row, f: JsonField): seq<string> {
    if f.Tag? then row.tagValues(f.name) else row.roleNames(f.name)
  }

  /** EXISTS over one test: some value makes the test T (a U test selects nothing). */
  ghost predicate Hit(row: Row, f: JsonField, test: Test) {
    exists i :: 0 <= i < |Values(row, f)| && row.holds(test, IsNumericField(f), Values(row, f)[i]) == T
  }

  /** The ORed tests of a merged subquery, on one value. */
  ghost function TestsOred(row: Row, f: JsonField, tests: seq<Test>, v: string): TV {
    Disj(exists j :: 0 <= j < |tests| && row.holds(tests[j], IsNumericField(f), v) == T,
         exists j :: 0 <= j < |tests| && row.holds(tests[j], IsNumericField(f), v) == U)
  }

  ghost predicate HitAny(row: Row, f: JsonField, tests: seq<Test>) {
    exists i :: 0 <= i < |Values(row, f)| && TestsOred(row, f, tests, Values(row, f)[i]) == T
  }

  /** The existence a json condition asks about, before its optional NOT. */
  ghost predicate Positive(c: Cond, row: Row)
    requires c.Exists? || c.ExistsAny?
  {
    if c.ExistsAny? then HitAny(row, c.field, c.tests)
    else if c.test.None? then |Values(row, c.field)| > 0
    else Hit(row, c.field, c.test.value)
  }

  ghost function Eval(c: Cond, row: Row): TV
    decreases c
  {
    match c
    case And(cs) => Conj(exists i :: 0 <= i < |cs| && Eval(cs[i], row) == F,
                         exists i :: 0 <= i < |cs| && Eval(cs[i], row) == U)
    case Or(cs) => Disj(exists i :: 0 <= i < |cs| && Eval(cs[i], row) == T,
                        exists i :: 0 <= i < |cs| && Eval(cs[i], row) == U)
    case Bare(col, op, v) => CompareBare(row, op, row.column(col), v)
    case Coalesced(col, d, op, v) => CompareCoalesced(row, op, row.column(col), d, v)
    case IsNull(col) => OfBool(row.column(col).Null?)
    case IsNotNull(col) => OfBool(!row.column(col).Null?)
    case LikeColumn(col, d, p, neg) =>
      var x := if row.column(col).Null? && d.Some? then Num(DefaultNumber(d.value)) else row.column(col);
      LikeValue(row.like, x, p, neg)
    case Exists(_, _, neg) => OfBool(Positive(c, row) != neg)
    case ExistsAny(_, _, neg) => OfBool(Positive(c, row) != neg)
    case IdInPlaylist(ref, neg) => OfBool(row.listed(ref) != neg)
  }
}
