/** lib/flask_admin/contrib/sqla/filters.py */
module SqlaFilters {
  import opened Wrappers
  import opened Filters
  import Registry
  import QueryLog
  import SqlaTools

  /** The converter methods of `FilterConverter`. */
  datatype Converter = ConvBool | ConvDate | ConvDateTime | ConvEnum | ConvInt | ConvString

  const StringTypes: seq<string> := ["String", "Unicode", "Text", "UnicodeText"]
  const NumericTypes: seq<string> := ["Integer", "SmallInteger", "Numeric", "Float"]

  /** The `convert(...)` tags, in `dir()` order. */
  const Tagged: seq<(Converter, seq<string>)> :=
    [(ConvBool, ["Boolean"]), (ConvDate, ["Date"]), (ConvDateTime, ["DateTime"]),
     (ConvEnum, ["Enum", "ENUM"]), (ConvInt, NumericTypes), (ConvString, StringTypes)]

  /** The map `BaseFilterConverter.__init__` builds for this class. */
  function Converters(): map<string, Converter>
  {
    Registry.Register(map[], Tagged)
  }

  type Filter = ColumnFilter<SqlaTools.SqlaColumn>

  /** `enum`: the operations an Enum column gets. */
  const EnumOps: seq<Operation> := [Equal, NotEqual]

  /** `[(v, v) for v in enums]` */
  function SelfPairs(values: seq<string>): (r: seq<(string, string)>)
    ensures |r| == |values| && forall i :: 0 <= i < |values| ==> r[i] == (values[i], values[i])
  {
    seq(|values|, i requires 0 <= i < |values| => (values[i], values[i]))
  }

  /** A `conv_*` method called as `convert` calls it, with `options=` the view's column choices. */
  function Run(conv: Converter, column: SqlaTools.SqlaColumn, name: string, options: Option<seq<(string, string)>>): Result<seq<Filter>>
  {
    match conv
    case ConvString => Ok(Instantiate(StringOps, column, name, options, None))
    case ConvBool => Ok(BooleanPair(column, name, options))
    case ConvInt => Ok(Instantiate(NumericOps, column, name, options, None))
    case ConvDate => Ok(Instantiate(NumericOps, column, name, options, Some("datepicker")))
    case ConvDateTime => Ok(Instantiate(NumericOps, column, name, options, Some("datetimepicker")))
    case ConvEnum =>
      if options.Some? && |options.value| > 0 then Ok(Instantiate(EnumOps, column, name, options, None))
      else if column.sqlType.enums.None? then Err("AttributeError: type has no attribute 'enums'")
      else Ok(Instantiate(EnumOps, column, name, Some(SelfPairs(column.sqlType.enums.value)), None))
  }

  /** `FilterConverter.convert`: None for a type name no converter is registered for. */
  function Convert(converters: map<string, Converter>, typeName: string, column: SqlaTools.SqlaColumn,
                   name: string, options: Option<seq<(string, string)>>): Result<Option<seq<Filter>>>
  {
    if typeName in converters then
      match Run(converters[typeName], column, name, options)
      case Ok(fs) => Ok(Some(fs))
      case Err(e) => Err(e)
    else Ok(None)
  }

  function Ops(fs: seq<Filter>): seq<Operation>
  {
    seq(|fs|, i requires 0 <= i < |fs| => fs[i].op)
  }

  /** The registered type names. */
  lemma ConverterNames(n: string)
    ensures n in Converters() <==> n in StringTypes || n in NumericTypes || n in ["Boolean", "Date", "DateTime", "Enum", "ENUM"]
  {
    if n in Converters() {
      Registry.RegisterDomain(map[], Tagged, n);
      var i :| 0 <= i < |Tagged| && n in Tagged[i].1;
      TagNames(n, i);
    }
    if n in StringTypes {
      ConverterOfTag(n, 5);
    }
    if n in NumericTypes {
      ConverterOfTag(n, 4);
    }
    if n == "Boolean" {
      ConverterOfTag(n, 0);
    }
    if n == "Date" {
      ConverterOfTag(n, 1);
    }
    if n == "DateTime" {
      ConverterOfTag(n, 2);
    }
    if n == "Enum" || n == "ENUM" {
      ConverterOfTag(n, 3);
    }
  }

  /** The names each tag lists. */
  lemma TagNames(n: string, i: nat)
    requires i < |Tagged| && n in Tagged[i].1
    ensures n in StringTypes || n in NumericTypes || n in ["Boolean", "Date", "DateTime", "Enum", "ENUM"]
  {
    if i == 0 {
      assert n == "Boolean";
    } else if i == 1 {
      assert n == "Date";
    } else if i == 2 {
      assert n == "DateTime";
    } else if i == 3 {
      assert n == "Enum" || n == "ENUM";
    }
  }

  /** The converter each registered type name maps to. */
  lemma ConverterTable(n: string)
    ensures n in StringTypes ==> n in Converters() && Converters()[n] == ConvString
    ensures n in NumericTypes ==> n in Converters() && Converters()[n] == ConvInt
    ensures n == "Boolean" ==> n in Converters() && Converters()[n] == ConvBool
    ensures n == "Date" ==> n in Converters() && Converters()[n] == ConvDate
    ensures n == "DateTime" ==> n in Converters() && Converters()[n] == ConvDateTime
    ensures n == "Enum" || n == "ENUM" ==> n in Converters() && Converters()[n] == ConvEnum
  {
    if n in StringTypes {
      ConverterOfTag(n, 5);
    }
    if n in NumericTypes {
      ConverterOfTag(n, 4);
    }
    if n == "Boolean" {
      ConverterOfTag(n, 0);
    }
    if n == "Date" {
      ConverterOfTag(n, 1);
    }
    if n == "DateTime" {
      ConverterOfTag(n, 2);
    }
    if n == "Enum" || n == "ENUM" {
      ConverterOfTag(n, 3);
    }
  }

  /** A name the `i`-th tag lists maps to that tag's converter: no later tag lists it again. */
  lemma ConverterOfTag(n: string, i: nat)
    requires i < |Tagged| && n in Tagged[i].1
    ensures n in Converters() && Converters()[n] == Tagged[i].0
  {
    if i == 0 {
      ConverterAt(n, 0);
    } else if i == 1 {
      ConverterAt(n, 1);
    } else if i == 2 {
      ConverterAt(n, 2);
    } else if i == 3 {
      ConverterAt(n, 3);
    } else if i == 4 {
      ConverterAt(n, 4);
    } else {
      ConverterAt(n, 5);
    }
  }

  lemma ConverterAt(n: string, i: nat)
    requires i < |Tagged| && n in Tagged[i].1
    requires forall j :: i < j < |Tagged| ==> n !in Tagged[j].1
    ensures n in Converters() && Converters()[n] == Tagged[i].0
  {
    Registry.RegisterLast(map[], Tagged, n, i);
  }

  /** What `convert` returns for each kind of type name. */
  lemma ConvertTable(typeName: string, column: SqlaTools.SqlaColumn, name: string, options: Option<seq<(string, string)>>)
    ensures var r := Convert(Converters(), typeName, column, name, options);
      && (typeName in StringTypes ==> r.Ok? && r.value.Some? && Ops(r.value.value) == [Equal, NotEqual, Like, NotLike])
      && (typeName in NumericTypes ==> r.Ok? && r.value.Some? && Ops(r.value.value) == [Equal, NotEqual, Greater, Smaller])
      && (typeName in StringTypes || typeName in NumericTypes ==>
            forall i :: 0 <= i < |r.value.value| ==> r.value.value[i].base == NewFilter(name, options, None))
      && (typeName == "Boolean" ==>
            r.Ok? && r.value.Some? && Ops(r.value.value) == [Equal, NotEqual]
            && forall i, v :: 0 <= i < 2 ==> (Validate(r.value.value[i].base, v) <==> v == "0" || v == "1"))
      && (typeName == "Date" ==>
            r.Ok? && r.value.Some? && Ops(r.value.value) == NumericOps
            && forall i :: 0 <= i < 4 ==> r.value.value[i].base.dataType == Some("datepicker"))
      && (typeName == "DateTime" ==>
            r.Ok? && r.value.Some? && Ops(r.value.value) == NumericOps
            && forall i :: 0 <= i < 4 ==> r.value.value[i].base.dataType == Some("datetimepicker"))
      && (typeName !in Converters() ==> r == Ok(None))
  {
    ConverterTable(typeName);
    if typeName in Converters() {
      RunTable(Converters()[typeName], column, name, options);
    }
  }

  /** What each converter method returns. */
  lemma RunTable(conv: Converter, column: SqlaTools.SqlaColumn, name: string, options: Option<seq<(string, string)>>)
    ensures var r := Run(conv, column, name, options);
      && (conv == ConvString ==> r.Ok? && Ops(r.value) == [Equal, NotEqual, Like, NotLike])
      && (conv == ConvInt ==> r.Ok? && Ops(r.value) == [Equal, NotEqual, Greater, Smaller])
      && (conv == ConvString || conv == ConvInt ==>
            forall i :: 0 <= i < |r.value| ==> r.value[i].base == NewFilter(name, options, None))
      && (conv == ConvBool ==>
            r.Ok? && Ops(r.value) == [Equal, NotEqual]
            && forall i, v :: 0 <= i < 2 ==> (Validate(r.value[i].base, v) <==> v == "0" || v == "1"))
      && (conv == ConvDate ==>
            r.Ok? && Ops(r.value) == NumericOps
            && forall i :: 0 <= i < 4 ==> r.value[i].base.dataType == Some("datepicker"))
      && (conv == ConvDateTime ==>
            r.Ok? && Ops(r.value) == NumericOps
            && forall i :: 0 <= i < 4 ==> r.value[i].base.dataType == Some("datetimepicker"))
  {
    var r := Run(conv, column, name, options);
    if r.Ok? {
      assert Ops(r.value) == seq(|r.value|, i requires 0 <= i < |r.value| => r.value[i].op);
    }
  }

  /** Enum columns: equals and not equal, with the enum values as options unless options are given. */
  lemma EnumFilters(typeName: string, column: SqlaTools.SqlaColumn, name: string, options: Option<seq<(string, string)>>)
    requires typeName == "Enum" || typeName == "ENUM"
    ensures var r := Convert(Converters(), typeName, column, name, options);
      && ((options.Some? && |options.value| > 0) || column.sqlType.enums.Some? <==> r.Ok?)
      && (r.Ok? ==> r.value.Some? && Ops(r.value.value) == [Equal, NotEqual])
      && (options.Some? && |options.value| > 0 ==> forall i :: 0 <= i < 2 ==> r.value.value[i].base.options == options)
      && (r.Ok? && !(options.Some? && |options.value| > 0) ==>
            forall i :: 0 <= i < 2 ==> r.value.value[i].base.options == Some(SelfPairs(column.sqlType.enums.value)))
      && (column.sqlType.enums.Some? ==>
            forall k :: 0 <= k < |column.sqlType.enums.value| ==>
              SelfPairs(column.sqlType.enums.value)[k] == (column.sqlType.enums.value[k], column.sqlType.enums.value[k]))
  {
    ConverterTable(typeName);
  }

  /** The criterion a filter's `apply` adds for a value. */
  function Criterion(f: Filter, value: string): QueryLog.Criterion
  {
    var col := f.column.column;
    match f.op
    case Equal => QueryLog.Compare(col, QueryLog.Eq, QueryLog.Str(value))
    case NotEqual => QueryLog.Compare(col, QueryLog.Ne, QueryLog.Str(value))
    case Like => QueryLog.ILike(col, SqlaTools.ParseLikeTerm(value))
    case NotLike => QueryLog.Not(QueryLog.ILike(col, SqlaTools.ParseLikeTerm(value)))
    case Greater => QueryLog.Compare(col, QueryLog.Gt, QueryLog.Str(value))
    case Smaller => QueryLog.Compare(col, QueryLog.Lt, QueryLog.Str(value))
  }

  /** `apply(query, value)`: one more filter on the query. */
  function Apply(f: Filter, q: QueryLog.Query, value: string): (r: QueryLog.Query)
    ensures |r| == |q| + 1 && r[..|q|] == q && r[|q|] == QueryLog.Filter(Criterion(f, value))
  {
    q + [QueryLog.Filter(Criterion(f, value))]
  }

  /** Not-like holds for exactly the rows like does not, on the same pattern. */
  lemma NotLikeNegatesLike(column: SqlaTools.SqlaColumn, base: BaseFilter, value: string,
                           compare: (QueryLog.Column, QueryLog.Comparison, QueryLog.Value) -> bool,
                           like: (QueryLog.Column, string) -> bool, keyword: (string, QueryLog.Value) -> bool)
    ensures QueryLog.Holds(Criterion(ColumnFilter(column, NotLike, base), value), compare, like, keyword)
            <==> !QueryLog.Holds(Criterion(ColumnFilter(column, Like, base), value), compare, like, keyword)
    ensures Criterion(ColumnFilter(column, Like, base), value) == QueryLog.ILike(column.column, SqlaTools.ParseLikeTerm(value))
  {
  }
}
