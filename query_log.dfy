/**
 * A database query as the list of operations applied to it, in order.
 * Neither SQLAlchemy, MongoEngine nor peewee is executed: a list query is
 * the log of the calls the view makes on the query object.
 */
module QueryLog {
  datatype Value = Str(s: string) | Bool(b: bool)

  /** A mapped column, identified by its table's name and its own name. */
  datatype Column = Column(table: string, name: string)

  datatype Comparison = Eq | Ne | Gt | Lt

  datatype Criterion =
    | Compare(column: Column, cmp: Comparison, value: Value)
      /** Case-insensitive LIKE (`ilike` in SQLAlchemy, `**` in peewee). */
    | ILike(column: Column, pattern: string)
    | Not(inner: Criterion)
    | AnyOf(options: seq<Criterion>)
      /** MongoEngine `filter(**{key: value})`, the operator spelt in the key. */
    | Keyword(key: string, value: Value)

  datatype SortTarget =
    | ByName(name: string)
    | ByAttribute(table: string, name: string)
    | ByColumn(column: Column)

  datatype Step =
    | Join(target: string)
    | Filter(criterion: Criterion)
    | OrderBy(field: SortTarget, desc: bool)
      /** MongoEngine `order_by('-name')` / `order_by('name')`. */
    | OrderByKey(key: string)
    | Offset(count: int)
    | Limit(count: int)
    | JoinedLoad(relation: string)

  type Query = seq<Step>

  /**
   * Whether a row satisfies a criterion. What a comparison, a LIKE pattern
   * or a MongoEngine keyword means for a stored value belongs to the database,
   * so it is passed in.
   */
  function Holds(c: Criterion, compare: (Column, Comparison, Value) -> bool,
                 like: (Column, string) -> bool, keyword: (string, Value) -> bool): bool
  {
    match c
    case Compare(col, cmp, v) => compare(col, cmp, v)
    case ILike(col, p) => like(col, p)
    case Not(inner) => !Holds(inner, compare, like, keyword)
    case AnyOf(options) => exists i :: 0 <= i < |options| && Holds(options[i], compare, like, keyword)
    case Keyword(k, v) => keyword(k, v)
  }

  /** The steps of a query that join something, in order. */
  function JoinTargets(q: Query): seq<string>
  {
    if q == [] then []
    else (if q[0].Join? then [q[0].target] else []) + JoinTargets(q[1..])
  }

  predicate Distinct(s: seq<string>)
  {
    forall i, j :: 0 <= i < j < |s| ==> s[i] != s[j]
  }

  lemma {:induction false} JoinTargetsAppend(a: Query, b: Query)
    ensures JoinTargets(a + b) == JoinTargets(a) + JoinTargets(b)
  {
    if a == [] {
      assert a + b == b;
    } else {
      JoinTargetsAppend(a[1..], b);
      assert (a + b)[1..] == a[1..] + b;
    }
  }
}
