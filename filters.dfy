/** lib/flask_admin/model/filters.py */
module Filters {
  import opened Wrappers
  import Registry

  /** Which of the base filter classes a filter derives from. */
  datatype FilterClass = PlainFilter | BooleanFilter | DateFilter | DateTimeFilter

  /** The state a `BaseFilter` constructor leaves. */
  datatype BaseFilter = BaseFilter(
    name: string,
    options: Option<seq<(string, string)>>,
    dataType: Option<string>,
    cls: FilterClass)

  /** `BaseFilter(name, options, data_type)` */
  function NewFilter(name: string, options: Option<seq<(string, string)>>, dataType: Option<string>): (f: BaseFilter)
    ensures f.name == name && f.options == options && f.dataType == dataType && f.cls == PlainFilter
  {
    BaseFilter(name, options, dataType, PlainFilter)
  }

  const YesNo: seq<(string, string)> := [("1", "Yes"), ("0", "No")]

  /** `BaseBooleanFilter(name, options, data_type)`: the options passed are ignored. */
  function NewBooleanFilter(name: string, options: Option<seq<(string, string)>>, dataType: Option<string>): (f: BaseFilter)
    ensures f.name == name && f.options == Some(YesNo) && f.dataType == dataType && f.cls == BooleanFilter
  {
    BaseFilter(name, Some(YesNo), dataType, BooleanFilter)
  }

  /** `BaseDateFilter(name, options)` */
  function NewDateFilter(name: string, options: Option<seq<(string, string)>>): (f: BaseFilter)
    ensures f.name == name && f.options == options && f.dataType == Some("datepicker") && f.cls == DateFilter
  {
    BaseFilter(name, options, Some("datepicker"), DateFilter)
  }

  /** `BaseDateTimeFilter(name, options)` */
  function NewDateTimeFilter(name: string, options: Option<seq<(string, string)>>): (f: BaseFilter)
    ensures f.name == name && f.options == options && f.dataType == Some("datetimepicker") && f.cls == DateTimeFilter
  {
    BaseFilter(name, options, Some("datetimepicker"), DateTimeFilter)
  }

  /** `get_options`: the (value, label) pairs when options are set and non-empty. */
  function GetOptions(f: BaseFilter): (r: Option<seq<(string, string)>>)
    ensures r.Some? <==> f.options.Some? && |f.options.value| > 0
    ensures r.Some? ==> r.value == f.options.value
  {
    if f.options.Some? && |f.options.value| > 0 then Some(f.options.value) else None
  }

  /** `validate`: only boolean filters restrict their values. */
  predicate Validate(f: BaseFilter, value: string)
  {
    f.cls.BooleanFilter? ==> value == "0" || value == "1"
  }

  /** `clean` */
  function Clean(f: BaseFilter, value: string): string
  {
    value
  }

  lemma BooleanOptionsFixed(name: string, options: Option<seq<(string, string)>>, dataType: Option<string>, value: string)
    ensures GetOptions(NewBooleanFilter(name, options, dataType)) == Some([("1", "Yes"), ("0", "No")])
    ensures Validate(NewBooleanFilter(name, options, dataType), value) <==> value == "0" || value == "1"
  {
  }

  lemma OthersAcceptAll(f: BaseFilter, value: string)
    requires !f.cls.BooleanFilter?
    ensures Validate(f, value) && Clean(f, value) == value
  {
  }

  /** The six `Filter*` operation classes every backend defines. */
  datatype Operation = Equal | NotEqual | Like | NotLike | Greater | Smaller

  /** `operation()` */
  function OperationName(op: Operation): string
  {
    match op
    case Equal => "equals"
    case NotEqual => "not equal"
    case Like => "contains"
    case NotLike => "not contains"
    case Greater => "greater than"
    case Smaller => "smaller than"
  }

  lemma OperationNamesDistinct(a: Operation, b: Operation)
    ensures OperationName(a) == OperationName(b) <==> a == b
  {
  }

  /** A backend filter: a `Filter*` class bound to a column, and its base-filter state. */
  datatype ColumnFilter<C> = ColumnFilter(column: C, op: Operation, base: BaseFilter)

  /** The string-column operations, in order. */
  const StringOps: seq<Operation> := [Equal, NotEqual, Like, NotLike]
  /** The numeric-column operations, in order. */
  const NumericOps: seq<Operation> := [Equal, NotEqual, Greater, Smaller]

  /** `[f(column, name, options, data_type) for f in ops]` */
  function Instantiate<C>(ops: seq<Operation>, column: C, name: string,
                          options: Option<seq<(string, string)>>, dataType: Option<string>): (r: seq<ColumnFilter<C>>)
    ensures |r| == |ops|
    ensures forall i :: 0 <= i < |ops| ==> r[i] == ColumnFilter(column, ops[i], NewFilter(name, options, dataType))
  {
    seq(|ops|, i requires 0 <= i < |ops| => ColumnFilter(column, ops[i], NewFilter(name, options, dataType)))
  }

  /** `[BooleanEqualFilter(...), BooleanNotEqualFilter(...)]` */
  function BooleanPair<C>(column: C, name: string, options: Option<seq<(string, string)>>): (r: seq<ColumnFilter<C>>)
    ensures |r| == 2 && r[0].op == Equal && r[1].op == NotEqual
    ensures forall i :: 0 <= i < 2 ==> r[i].column == column && r[i].base == NewBooleanFilter(name, options, None)
  {
    [ColumnFilter(column, Equal, NewBooleanFilter(name, options, None)),
     ColumnFilter(column, NotEqual, NewBooleanFilter(name, options, None))]
  }

  /** `BaseFilterConverter`: the converter map its constructor builds. */
  class FilterConverterBase<M> {
    var converters: map<string, M>

    /** `tagged` lists each method carrying a `convert(...)` tag, in `dir()` order. */
    constructor (tagged: seq<(M, seq<string>)>)
      ensures converters == Registry.Register(map[], tagged)
    {
      var registered := Registry.RegisterAll(map[], tagged);
      converters := registered;
    }
  }
}
