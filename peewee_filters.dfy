/** lib/flask_admin/contrib/peewee/filters.py */
module PeeweeFilters {
  import opened Wrappers
  import opened Filters
  import Registry
  import QueryLog

  /** The converter methods of the peewee `FilterConverter`. */
  datatype Converter = ConvBool | ConvDate | ConvDateTime | ConvInt | ConvString

  const StringTypes: seq<string> := ["CharField", "TextField"]
  const NumericTypes: seq<string> := ["IntegerField", "DecimalField", "FloatField"]

  /** The `convert(...)` tags, in `dir()` order. */
  const Tagged: seq<(Converter, seq<string>)> :=
    [(ConvBool, ["BooleanField"]), (ConvDate, ["DateField"]), (ConvDateTime, ["DateTimeField"]),
     (ConvInt, NumericTypes), (ConvString, StringTypes)]

  function Converters(): map<string, Converter>
  {
    Registry.Register(map[], Tagged)
  }

  type Filter = ColumnFilter<QueryLog.Column>

  function Run(conv: Converter, column: QueryLog.Column, name: string): seq<Filter>
  {
    match conv
    case ConvString => Instantiate(StringOps, column, name, None, None)
    case ConvBool => BooleanPair(column, name, None)
    case ConvInt => Instantiate(NumericOps, column, name, None, None)
    case ConvDate => Instantiate(NumericOps, column, name, None, Some("datepicker"))
    case ConvDateTime => Instantiate(NumericOps, column, name, None, Some("datetimepicker"))
  }

  /** `FilterConverter.convert`: None for a type name no converter is registered for. */
  function Convert(converters: map<string, Converter>, typeName: string, column: QueryLog.Column, name: string): Option<seq<Filter>>
  {
    if typeName in converters then Some(Run(converters[typeName], column, name)) else None
  }

  lemma ConverterAt(n: string, i: nat)
    requires i < |Tagged| && n in Tagged[i].1
    requires forall j :: i < j < |Tagged| ==> n !in Tagged[j].1
    ensures n in Converters() && Converters()[n] == Tagged[i].0
  {
    Registry.RegisterLast(map[], Tagged, n, i);
  }

  /** A name the `i`-th tag lists maps to that tag's converter: no later tag lists it again. */
  lemma ConverterOfTag(n: string, i: nat)
    requires i < |Tagged| && n in Tagged[i].1
    ensures n in Converters() && Converters()[n] == Tagged[i].0
  {
    if i == 0 {
      ConverterAt(n, 0);
    } else if i == 1 {
      ConverterAt(n, 1);
    } else if i == 2 {
      ConverterAt(n, 2);
    } else if i == 3 {
      ConverterAt(n, 3);
    } else {
      ConverterAt(n, 4);
    }
  }

  /** The names each tag lists. */
  lemma TagNames(n: string, i: nat)
    requires i < |Tagged| && n in Tagged[i].1
    ensures n in StringTypes || n in NumericTypes || n in ["BooleanField", "DateField", "DateTimeField"]
  {
    if i == 0 {
      assert n == "BooleanField";
    } else if i == 1 {
      assert n == "DateField";
    } else if i == 2 {
      assert n == "DateTimeField";
    }
  }

  /** The registered field types. */
  lemma ConverterNames(n: string)
    ensures n in Converters() <==> n in StringTypes || n in NumericTypes || n in ["BooleanField", "DateField", "DateTimeField"]
  {
    if n in Converters() {
      Registry.RegisterDomain(map[], Tagged, n);
      var i :| 0 <= i < |Tagged| && n in Tagged[i].1;
      TagNames(n, i);
    }
    if n == "BooleanField" {
      ConverterOfTag(n, 0);
    }
    if n == "DateField" {
      ConverterOfTag(n, 1);
    }
    if n == "DateTimeField" {
      ConverterOfTag(n, 2);
    }
    if n in NumericTypes {
      ConverterOfTag(n, 3);
    }
    if n in StringTypes {
      ConverterOfTag(n, 4);
    }
  }

  function Ops(fs: seq<Filter>): seq<Operation>
  {
    seq(|fs|, i requires 0 <= i < |fs| => fs[i].op)
  }

  /** What `convert` returns for each field type. */
  lemma ConvertTable(typeName: string, column: QueryLog.Column, name: string)
    ensures var r := Convert(Converters(), typeName, column, name);
      && (typeName in StringTypes ==> r.Some? && Ops(r.value) == [Equal, NotEqual, Like, NotLike])
      && (typeName in NumericTypes ==> r.Some? && Ops(r.value) == [Equal, NotEqual, Greater, Smaller])
      && (typeName == "BooleanField" ==>
            r.Some? && Ops(r.value) == [Equal, NotEqual]
            && forall i, v :: 0 <= i < 2 ==> (Validate(r.value[i].base, v) <==> v == "0" || v == "1"))
      && (typeName == "DateField" ==>
            r.Some? && Ops(r.value) == NumericOps
            && forall i :: 0 <= i < 4 ==> r.value[i].base.dataType == Some("datepicker"))
      && (typeName == "DateTimeField" ==>
            r.Some? && Ops(r.value) == NumericOps
            && forall i :: 0 <= i < 4 ==> r.value[i].base.dataType == Some("datetimepicker"))
      && (r.Some? ==> forall i :: 0 <= i < |r.value| ==> r.value[i].column == column && r.value[i].base.name == name)
      && (typeName !in Converters() <==> r.None?)
  {
    if typeName in StringTypes {
      ConverterOfTag(typeName, 4);
    }
    if typeName in NumericTypes {
      ConverterOfTag(typeName, 3);
    }
    if typeName == "BooleanField" {
      ConverterOfTag(typeName, 0);
    }
    if typeName == "DateField" {
      ConverterOfTag(typeName, 1);
    }
    if typeName == "DateTimeField" {
      ConverterOfTag(typeName, 2);
    }
    if typeName in Converters() {
      RunTable(Converters()[typeName], column, name);
    }
  }

  /** What each converter method returns. */
  lemma RunTable(conv: Converter, column: QueryLog.Column, name: string)
    ensures var r := Run(conv, column, name);
      && (conv == ConvString ==> Ops(r) == [Equal, NotEqual, Like, NotLike])
      && (conv == ConvInt ==> Ops(r) == [Equal, NotEqual, Greater, Smaller])
      && (conv == ConvBool ==>
            Ops(r) == [Equal, NotEqual] && forall i, v :: 0 <= i < 2 ==> (Validate(r[i].base, v) <==> v == "0" || v == "1"))
      && (conv == ConvDate ==> Ops(r) == NumericOps && forall i :: 0 <= i < 4 ==> r[i].base.dataType == Some("datepicker"))
      && (conv == ConvDateTime ==> Ops(r) == NumericOps && forall i :: 0 <= i < 4 ==> r[i].base.dataType == Some("datetimepicker"))
      && forall i :: 0 <= i < |r| ==> r[i].column == column && r[i].base.name == name
  {
    var r := Run(conv, column, name);
    assert Ops(r) == seq(|r|, i requires 0 <= i < |r| => r[i].op);
  }

  /**
   * The criterion a filter's `apply` adds; `parseLike` is peewee's
   * `parse_like_term`, and `column ** term` is a case-insensitive LIKE.
   */
  function Criterion(f: Filter, value: string, parseLike: string -> string): QueryLog.Criterion
  {
    match f.op
    case Equal => QueryLog.Compare(f.column, QueryLog.Eq, QueryLog.Str(value))
    case NotEqual => QueryLog.Compare(f.column, QueryLog.Ne, QueryLog.Str(value))
    case Like => QueryLog.ILike(f.column, parseLike(value))
    case NotLike => QueryLog.Not(QueryLog.ILike(f.column, parseLike(value)))
    case Greater => QueryLog.Compare(f.column, QueryLog.Gt, QueryLog.Str(value))
    case Smaller => QueryLog.Compare(f.column, QueryLog.Lt, QueryLog.Str(value))
  }

  /** `apply(query, value)` */
  function Apply(f: Filter, q: QueryLog.Query, value: string, parseLike: string -> string): (r: QueryLog.Query)
    ensures |r| == |q| + 1 && r[..|q|] == q && r[|q|] == QueryLog.Filter(Criterion(f, value, parseLike))
  {
    q + [QueryLog.Filter(Criterion(f, value, parseLike))]
  }

  /** Not-like holds for exactly the rows like does not, on the same term. */
  lemma NotLikeNegatesLike(column: QueryLog.Column, base: BaseFilter, value: string, parseLike: string -> string,
                           compare: (QueryLog.Column, QueryLog.Comparison, QueryLog.Value) -> bool,
                           like: (QueryLog.Column, string) -> bool, keyword: (string, QueryLog.Value) -> bool)
    ensures QueryLog.Holds(Criterion(ColumnFilter(column, NotLike, base), value, parseLike), compare, like, keyword)
            <==> !QueryLog.Holds(Criterion(ColumnFilter(column, Like, base), value, parseLike), compare, like, keyword)
    ensures Criterion(ColumnFilter(column, Like, base), value, parseLike) == QueryLog.ILike(column, parseLike(value))
  {
  }
}
