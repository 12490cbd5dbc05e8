/** lib/flask_admin/contrib/mongoengine/filters.py */
module MongoFilters {
  import opened Wrappers
  import opened Filters
  import opened Text
  import Registry
  import QueryLog

  /** The converter methods of the MongoEngine `FilterConverter`. */
  datatype Converter = ConvBool | ConvDate | ConvDateTime | ConvInt | ConvString

  const NumericTypes: seq<string> := ["IntField", "DecimalField", "FloatField"]

  /** The `convert(...)` tags, in `dir()` order. */
  const Tagged: seq<(Converter, seq<string>)> :=
    [(ConvBool, ["BooleanField"]), (ConvDate, ["DateField"]), (ConvDateTime, ["DateTimeField"]),
     (ConvInt, NumericTypes), (ConvString, ["StringField"])]

  function Converters(): map<string, Converter>
  {
    Registry.Register(map[], Tagged)
  }

  /** A filter bound to a document field, identified by the field's name. */
  type Filter = ColumnFilter<string>

  function Run(conv: Converter, field: string, name: string): seq<Filter>
  {
    match conv
    case ConvString => Instantiate(StringOps, field, name, None, None)
    case ConvBool => BooleanPair(field, name, None)
    case ConvInt => Instantiate(NumericOps, field, name, None, None)
    case ConvDate => Instantiate(NumericOps, field, name, None, Some("datepicker"))
    case ConvDateTime => Instantiate(NumericOps, field, name, None, Some("datetimepicker"))
  }

  /** `FilterConverter.convert`: None for a type name no converter is registered for. */
  function Convert(converters: map<string, Converter>, typeName: string, field: string, name: string): Option<seq<Filter>>
  {
    if typeName in converters then Some(Run(converters[typeName], field, name)) else None
  }

  lemma ConverterAt(n: string, i: nat)
    requires i < |Tagged| && n in Tagged[i].1
    requires forall j :: i < j < |Tagged| ==> n !in Tagged[j].1
    ensures n in Converters() && Converters()[n] == Tagged[i].0
  {
    Registry.RegisterLast(map[], Tagged, n, i);
  }

  /** A name the `i`-th tag lists maps to that tag's converter: no later tag lists it again. */
  lemma ConverterOfTag(n: string, i: nat)
    requires i < |Tagged| && n in Tagged[i].1
    ensures n in Converters() && Converters()[n] == Tagged[i].0
  {
    if i == 0 {
      ConverterAt(n, 0);
    } else if i == 1 {
      ConverterAt(n, 1);
    } else if i == 2 {
      ConverterAt(n, 2);
    } else if i == 3 {
      ConverterAt(n, 3);
    } else {
      ConverterAt(n, 4);
    }
  }

  /** The names each tag lists. */
  lemma TagNames(n: string, i: nat)
    requires i < |Tagged| && n in Tagged[i].1
    ensures n in NumericTypes || n in ["BooleanField", "DateField", "DateTimeField", "StringField"]
  {
    if i == 0 {
      assert n == "BooleanField";
    } else if i == 1 {
      assert n == "DateField";
    } else if i == 2 {
      assert n == "DateTimeField";
    } else if i == 4 {
      assert n == "StringField";
    }
  }

  /** The registered field types. */
  lemma ConverterNames(n: string)
    ensures n in Converters() <==> n in NumericTypes || n in ["BooleanField", "DateField", "DateTimeField", "StringField"]
  {
    if n in Converters() {
      Registry.RegisterDomain(map[], Tagged, n);
      var i :| 0 <= i < |Tagged| && n in Tagged[i].1;
      TagNames(n, i);
    }
    if n == "BooleanField" {
      ConverterOfTag(n, 0);
    }
    if n == "DateField" {
      ConverterOfTag(n, 1);
    }
    if n == "DateTimeField" {
      ConverterOfTag(n, 2);
    }
    if n in NumericTypes {
      ConverterOfTag(n, 3);
    }
    if n == "StringField" {
      ConverterOfTag(n, 4);
    }
  }

  function Ops(fs: seq<Filter>): seq<Operation>
  {
    seq(|fs|, i requires 0 <= i < |fs| => fs[i].op)
  }

  /** What `convert` returns for each field type. */
  lemma ConvertTable(typeName: string, field: string, name: string)
    ensures var r := Convert(Converters(), typeName, field, name);
      && (typeName == "StringField" ==> r.Some? && Ops(r.value) == [Equal, NotEqual, Like, NotLike])
      && (typeName in NumericTypes ==> r.Some? && Ops(r.value) == [Equal, NotEqual, Greater, Smaller])
      && (typeName == "BooleanField" ==>
            r.Some? && Ops(r.value) == [Equal, NotEqual]
            && forall i, v :: 0 <= i < 2 ==> r.value[i].base.cls.BooleanFilter? && (Validate(r.value[i].base, v) <==> v == "0" || v == "1"))
      && (typeName == "DateField" ==>
            r.Some? && Ops(r.value) == NumericOps
            && forall i :: 0 <= i < 4 ==> r.value[i].base.dataType == Some("datepicker"))
      && (typeName == "DateTimeField" ==>
            r.Some? && Ops(r.value) == NumericOps
            && forall i :: 0 <= i < 4 ==> r.value[i].base.dataType == Some("datetimepicker"))
      && (r.Some? ==> forall i :: 0 <= i < |r.value| ==> r.value[i].column == field && r.value[i].base.name == name)
      && (typeName !in Converters() <==> r.None?)
  {
    if typeName == "StringField" {
      ConverterOfTag(typeName, 4);
    }
    if typeName in NumericTypes {
      ConverterOfTag(typeName, 3);
    }
    if typeName == "BooleanField" {
      ConverterOfTag(typeName, 0);
    }
    if typeName == "DateField" {
      ConverterOfTag(typeName, 1);
    }
    if typeName == "DateTimeField" {
      ConverterOfTag(typeName, 2);
    }
    if typeName in Converters() {
      RunTable(Converters()[typeName], field, name);
    }
  }

  /** What each converter method returns. */
  lemma RunTable(conv: Converter, field: string, name: string)
    ensures var r := Run(conv, field, name);
      && (conv == ConvString ==> Ops(r) == [Equal, NotEqual, Like, NotLike])
      && (conv == ConvInt ==> Ops(r) == [Equal, NotEqual, Greater, Smaller])
      && (conv == ConvBool ==>
            Ops(r) == [Equal, NotEqual]
            && forall i, v :: 0 <= i < 2 ==> r[i].base.cls.BooleanFilter? && (Validate(r[i].base, v) <==> v == "0" || v == "1"))
      && (conv == ConvDate ==> Ops(r) == NumericOps && forall i :: 0 <= i < 4 ==> r[i].base.dataType == Some("datepicker"))
      && (conv == ConvDateTime ==> Ops(r) == NumericOps && forall i :: 0 <= i < 4 ==> r[i].base.dataType == Some("datetimepicker"))
      && forall i :: 0 <= i < |r| ==> r[i].column == field && r[i].base.name == name
  {
    var r := Run(conv, field, name);
    assert Ops(r) == seq(|r|, i requires 0 <= i < |r| => r[i].op);
  }

  /**
   * The keyword argument a filter's `apply` passes to `query.filter`;
   * `parseLike` is MongoEngine's `parse_like_term`, which gives the
   * operator and the value for a search term.
   */
  function FilterKeyword(f: Filter, value: string, parseLike: string -> (string, string)): QueryLog.Criterion
  {
    match f.op
    case Equal =>
      if f.base.cls.BooleanFilter? then QueryLog.Keyword(f.column, QueryLog.Bool(value == "1"))
      else QueryLog.Keyword(f.column, QueryLog.Str(value))
    case NotEqual =>
      if f.base.cls.BooleanFilter? then QueryLog.Keyword(f.column, QueryLog.Bool(value != "1"))
      else QueryLog.Keyword(f.column + "__ne", QueryLog.Str(value))
    case Like => QueryLog.Keyword(f.column + "__" + parseLike(value).0, QueryLog.Str(parseLike(value).1))
    case NotLike => QueryLog.Keyword(f.column + "__not__" + parseLike(value).0, QueryLog.Str(parseLike(value).1))
    case Greater => QueryLog.Keyword(f.column + "__gt", QueryLog.Str(value))
    case Smaller => QueryLog.Keyword(f.column + "__lt", QueryLog.Str(value))
  }

  /** `apply(query, value)` */
  function Apply(f: Filter, q: QueryLog.Query, value: string, parseLike: string -> (string, string)): (r: QueryLog.Query)
    ensures |r| == |q| + 1 && r[..|q|] == q && r[|q|] == QueryLog.Filter(FilterKeyword(f, value, parseLike))
  {
    q + [QueryLog.Filter(FilterKeyword(f, value, parseLike))]
  }

  /** The part of a keyword after the field name. */
  function Operator(key: string, field: string): string
    requires StartsWith(key, field)
  {
    key[|field|..]
  }

  /**
   * Every key starts with the field's name; what follows names the
   * operator, and the comparison operators are told apart by it.
   */
  lemma KeywordOperators(field: string, base: BaseFilter, value: string, parseLike: string -> (string, string))
    requires !base.cls.BooleanFilter?
    ensures forall op :: StartsWith(FilterKeyword(ColumnFilter(field, op, base), value, parseLike).key, field)
    ensures Operator(FilterKeyword(ColumnFilter(field, Equal, base), value, parseLike).key, field) == ""
    ensures Operator(FilterKeyword(ColumnFilter(field, NotEqual, base), value, parseLike).key, field) == "__ne"
    ensures Operator(FilterKeyword(ColumnFilter(field, Greater, base), value, parseLike).key, field) == "__gt"
    ensures Operator(FilterKeyword(ColumnFilter(field, Smaller, base), value, parseLike).key, field) == "__lt"
    ensures Operator(FilterKeyword(ColumnFilter(field, Like, base), value, parseLike).key, field) == "__" + parseLike(value).0
    ensures Operator(FilterKeyword(ColumnFilter(field, NotLike, base), value, parseLike).key, field) == "__not__" + parseLike(value).0
    ensures FilterKeyword(ColumnFilter(field, Like, base), value, parseLike).value
            == FilterKeyword(ColumnFilter(field, NotLike, base), value, parseLike).value
  {
    forall op ensures StartsWith(FilterKeyword(ColumnFilter(field, op, base), value, parseLike).key, field) {
      var k := FilterKeyword(ColumnFilter(field, op, base), value, parseLike).key;
      assert k[..|field|] == field;
    }
    var t := parseLike(value).0;
    assert (field + "__ne")[|field|..] == "__ne";
    assert (field + "__gt")[|field|..] == "__gt";
    assert (field + "__lt")[|field|..] == "__lt";
    assert (field + "__" + t)[|field|..] == "__" + t;
    assert (field + "__not__" + t)[|field|..] == "__not__" + t;
  }

  /** Boolean filters compare the field itself with `value == '1'` or its negation. */
  lemma BooleanKeywords(field: string, base: BaseFilter, value: string, parseLike: string -> (string, string))
    requires base.cls.BooleanFilter?
    ensures FilterKeyword(ColumnFilter(field, Equal, base), value, parseLike) == QueryLog.Keyword(field, QueryLog.Bool(value == "1"))
    ensures FilterKeyword(ColumnFilter(field, NotEqual, base), value, parseLike) == QueryLog.Keyword(field, QueryLog.Bool(value != "1"))
    ensures FilterKeyword(ColumnFilter(field, Equal, base), value, parseLike).value.b
            != FilterKeyword(ColumnFilter(field, NotEqual, base), value, parseLike).value.b
  {
  }
}
