/** lib/flask_admin/model/form.py */
module ModelForm {
  import opened Wrappers
  import Registry

  /** A Python class as the converters see it: `__module__` and `__name__`. */
  datatype PyClass = PyClass(moduleName: string, name: string)

  /** `'%s.%s' % (cls.__module__, cls.__name__)` */
  function QualifiedName(c: PyClass): string
  {
    c.moduleName + "." + c.name
  }

  /** `converts(*names)`: a converter method together with the names it is tagged for. */
  function Converts<M>(conv: M, names: seq<string>): (tag: (M, seq<string>))
    ensures tag.0 == conv && forall n :: n in tag.1 <==> n in names
  {
    (conv, names)
  }

  /** The first class, in order, whose `module.Name` is registered. */
  function FirstQualified<M>(converters: map<string, M>, types: seq<PyClass>): (r: Option<M>)
    ensures r.None? <==> forall i :: 0 <= i < |types| ==> QualifiedName(types[i]) !in converters
    ensures r.Some? ==> exists i :: 0 <= i < |types| && QualifiedName(types[i]) in converters
                                    && r.value == converters[QualifiedName(types[i])]
                                    && forall j :: 0 <= j < i ==> QualifiedName(types[j]) !in converters
  {
    if types == [] then None
    else if QualifiedName(types[0]) in converters then Some(converters[QualifiedName(types[0])])
    else
      var r := FirstQualified(converters, types[1..]);
      assert forall i :: 1 <= i < |types| ==> types[i] == types[1..][i - 1];
      r
  }

  /** The first class, in order, whose bare name is registered. */
  function FirstByName<M>(converters: map<string, M>, types: seq<PyClass>): (r: Option<M>)
    ensures r.None? <==> forall i :: 0 <= i < |types| ==> types[i].name !in converters
    ensures r.Some? ==> exists i :: 0 <= i < |types| && types[i].name in converters
                                    && r.value == converters[types[i].name]
                                    && forall j :: 0 <= j < i ==> types[j].name !in converters
  {
    if types == [] then None
    else if types[0].name in converters then Some(converters[types[0].name])
    else
      var r := FirstByName(converters, types[1..]);
      assert forall i :: 1 <= i < |types| ==> types[i] == types[1..][i - 1];
      r
  }

  /** The classes `get_converter` searches: the whole MRO, or the exact type only. */
  function SearchedTypes(mro: seq<PyClass>, useMro: bool): seq<PyClass>
    requires |mro| >= 1
  {
    if useMro then mro else mro[..1]
  }

  /** `ModelConverterBase`: registered converters and the MRO lookup. */
  class ModelConverterBase<M> {
    const useMro: bool
    var converters: map<string, M>

    /** `tagged` lists each method carrying a `converts(...)` tag, in `dir()` order. */
    constructor (initial: map<string, M>, useMro: bool, tagged: seq<(M, seq<string>)>)
      ensures this.useMro == useMro
      ensures converters == Registry.Register(initial, tagged)
    {
      var registered := Registry.RegisterAll(initial, tagged);
      this.useMro := useMro;
      converters := registered;
    }

    /**
     * `get_converter`: a qualified `module.Name` match anywhere in the
     * searched classes beats a bare-name match; within a pass the first
     * class in MRO order wins.
     */
    function GetConverter(mro: seq<PyClass>): (r: Option<M>)
      requires |mro| >= 1
      reads this
      ensures r.None? <==> forall t :: t in SearchedTypes(mro, useMro) ==>
                             QualifiedName(t) !in converters && t.name !in converters
      ensures (exists t :: t in SearchedTypes(mro, useMro) && QualifiedName(t) in converters) ==>
                r == FirstQualified(converters, SearchedTypes(mro, useMro))
      ensures (forall t :: t in SearchedTypes(mro, useMro) ==> QualifiedName(t) !in converters) ==>
                r == FirstByName(converters, SearchedTypes(mro, useMro))
    {
      var types := SearchedTypes(mro, useMro);
      var q := FirstQualified(converters, types);
      if q.Some? then q else FirstByName(converters, types)
    }
  }

  /** Attribute values an `InlineFormAdmin` can carry. */
  datatype AttrValue = NoneValue | Str(s: string) | Names(names: seq<string>) | Mapping(entries: map<string, string>)
  {
    predicate Truthy()
    {
      match this
      case NoneValue => false
      case Str(s) => s != ""
      case Names(ns) => ns != []
      case Mapping(m) => m != map[]
    }
  }

  /** `InlineFormAdmin`: the model and the attributes the instance ends up with. */
  datatype InlineFormAdmin = InlineFormAdmin(model: string, attrs: map<string, AttrValue>)

  const Defaults: seq<string> := ["form_columns", "form_excluded_columns", "form_args"]

  /**
   * `InlineFormAdmin(model, **kwargs)` for a class defining `classAttrs`:
   * each default the class lacks is set to None, then every keyword
   * argument is set.
   */
  function NewInlineFormAdmin(model: string, classAttrs: map<string, AttrValue>, kwargs: map<string, AttrValue>): (r: InlineFormAdmin)
    ensures r.model == model
    ensures forall k :: k in Defaults ==>
              k in r.attrs && r.attrs[k] == (if k in kwargs then kwargs[k] else if k in classAttrs then classAttrs[k] else NoneValue)
    ensures forall k :: k in kwargs ==> k in r.attrs && r.attrs[k] == kwargs[k]
    ensures forall k :: k in classAttrs && k !in kwargs ==> k in r.attrs && r.attrs[k] == classAttrs[k]
    ensures r.attrs.Keys == classAttrs.Keys + kwargs.Keys + set k | k in Defaults
  {
    var withDefaults := classAttrs + map k | k in Defaults && k !in classAttrs :: NoneValue;
    InlineFormAdmin(model, withDefaults + kwargs)
  }

  /**
   * `get_label`: a truthy `form_label` on the inline settings, else the
   * view's `column_labels` entry for the name, else None.
   */
  function GetLabel(info: InlineFormAdmin, name: string, columnLabels: Option<map<string, string>>): (r: Option<AttrValue>)
    ensures "form_label" in info.attrs && info.attrs["form_label"].Truthy() ==> r == Some(info.attrs["form_label"])
    ensures !("form_label" in info.attrs && info.attrs["form_label"].Truthy()) ==>
              r == (if columnLabels.Some? && name in columnLabels.value then Some(Str(columnLabels.value[name])) else None)
  {
    if "form_label" in info.attrs && info.attrs["form_label"].Truthy() then Some(info.attrs["form_label"])
    else if columnLabels.Some? && |columnLabels.value| > 0 && name in columnLabels.value then Some(Str(columnLabels.value[name]))
    else None
  }

  /** The ways an inline model can be declared on a view. */
  datatype InlineSpec =
    | TupleSpec(model: string, options: map<string, AttrValue>)
    | AdminSpec(info: InlineFormAdmin)
    | ModelClass(model: string)

  /** `get_info`; `InlineFormAdmin` subclasses declared by the user define no extra class attributes here. */
  function GetInfo(p: InlineSpec): (r: Option<InlineFormAdmin>)
    ensures p.TupleSpec? ==> r == Some(NewInlineFormAdmin(p.model, map[], p.options))
    ensures p.AdminSpec? ==> r == Some(p.info)
    ensures p.ModelClass? ==> r.None?
  {
    match p
    case TupleSpec(m, opts) => Some(NewInlineFormAdmin(m, map[], opts))
    case AdminSpec(info) => Some(info)
    case ModelClass(_) => None
  }
}
