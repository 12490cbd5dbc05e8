/**
 * lib/flask_admin/contrib/sqla/form.py: `AdminModelConverter`, which turns a
 * mapped SQLAlchemy property into a form field, and `get_form`, which picks
 * the properties a model form is built from.
 */
module SqlaForm {
  import opened Wrappers
  import opened Text
  import opened FormTypes
  import opened SqlaTools
  import ModelForm
  import ModelHelpers
  import Registry

  /** A `default` keyword: the column default's `arg`, or a callable wrapping it. */
  datatype DefaultValue = Scalar(arg: string) | Callable(arg: string)

  /**
   * The keyword arguments a field is built with. A key missing from the
   * Python dict is `None` here; `label` and `description` can be present
   * with the value None, hence their nested Option.
   */
  datatype Kwargs = Kwargs(
    validators: seq<Validator>,
    fieldLabel: Option<Option<string>>,
    description: Option<Option<string>>,
    allowBlank: Option<bool>,
    widget: Option<Widget>,
    default: Option<DefaultValue>,
    choices: Option<seq<(string, string)>>,
    places: Option<int>,
    saveAsList: bool)

  const NoArgs := Kwargs([], None, None, None, None, None, None, None, false)

  /** An entry of `form_args`: the keys the user gave, each None when absent. */
  datatype FieldArgs = FieldArgs(
    validators: Option<seq<Validator>>,
    fieldLabel: Option<Option<string>>,
    description: Option<Option<string>>,
    allowBlank: Option<bool>,
    widget: Option<Widget>,
    default: Option<DefaultValue>,
    choices: Option<seq<(string, string)>>)

  /** A field class together with the keyword arguments it is created with. */
  datatype Field = Field(kind: FieldKind, args: Kwargs)

  /** What the converter reads from its view; `None` settings are empty maps. */
  datatype FormView = FormView(
    model: string,                                   // the view's model class
    columnLabels: map<string, string>,
    columnDescriptions: map<string, string>,
    formOverrides: map<string, string>,              // name -> field class
    formChoices: map<string, seq<(string, string)>>,
    formColumns: Option<seq<string>>,
    hideBackrefs: bool)                              // column_hide_backrefs, True by default

  /** `{'validators': [], 'filters': []}` updated with the property's `form_args`. */
  function InitialKwargs(fieldArgs: Option<FieldArgs>): Kwargs
  {
    match fieldArgs
    case None => NoArgs
    case Some(a) =>
      Kwargs(a.validators.GetOr([]), a.fieldLabel, a.description, a.allowBlank, a.widget, a.default, a.choices, None, false)
  }

  function AddValidator(kwargs: Kwargs, v: Validator): Kwargs
  {
    kwargs.(validators := kwargs.validators + [v])
  }

  /** `field_args.setdefault('label', label)` */
  function SetDefaultLabel(kwargs: Kwargs, text: string): (r: Kwargs)
    ensures kwargs.fieldLabel.Some? ==> r == kwargs
    ensures kwargs.fieldLabel.None? ==> r.fieldLabel == Some(Some(text))
    ensures r.validators == kwargs.validators
  {
    if kwargs.fieldLabel.Some? then kwargs else kwargs.(fieldLabel := Some(Some(text)))
  }

  // ---------------------------------------------------------------------
  // The type converters

  /** The `conv_*` methods, one constructor per method. */
  datatype Conv =
    | ConvString | ConvText | ConvBoolean | ConvDate | ConvDateTime | ConvTime
    | ConvInteger | ConvDecimal | ConvMSYear | ConvPGInet | ConvPGMacaddr | ConvPGUuid | ConvArray

  /** The `converts(...)` tags of the converter methods, in `dir()` order. */
  const Tagged: seq<(Conv, seq<string>)> := [
    ModelForm.Converts(ConvArray, ["sqlalchemy.dialects.postgresql.base.ARRAY"]),
    ModelForm.Converts(ConvBoolean, ["Boolean"]),
    ModelForm.Converts(ConvMSYear, ["databases.mysql.MSYear"]),
    ModelForm.Converts(ConvPGInet, ["databases.postgres.PGInet", "dialects.postgresql.base.INET"]),
    ModelForm.Converts(ConvPGMacaddr, ["dialects.postgresql.base.MACADDR"]),
    ModelForm.Converts(ConvPGUuid, ["dialects.postgresql.base.UUID"]),
    ModelForm.Converts(ConvString, ["String", "Unicode"]),
    ModelForm.Converts(ConvText, ["Text", "UnicodeText", "sqlalchemy.types.LargeBinary", "sqlalchemy.types.Binary"]),
    ModelForm.Converts(ConvDate, ["Date"]),
    ModelForm.Converts(ConvDateTime, ["DateTime"]),
    ModelForm.Converts(ConvTime, ["Time"]),
    ModelForm.Converts(ConvDecimal, ["Numeric", "Float"]),
    ModelForm.Converts(ConvInteger, ["Integer", "SmallInteger"])
  ]

  /** Validators that restrict the value; the converters add only these. */
  predicate IsConstraint(v: Validator)
  {
    v.Length? || v.AnyOf? || v.NumberRange? || v.IPAddress? || v.MacAddress? || v.Uuid?
  }

  /** `[(f, f) for f in enums]` */
  function SelfPairs(values: seq<string>): (r: seq<(string, string)>)
    ensures |r| == |values| && forall i :: 0 <= i < |values| ==> r[i] == (values[i], values[i])
  {
    seq(|values|, i requires 0 <= i < |values| => (values[i], values[i]))
  }

  /** `_string_common`: a Length check when the type declares a (non-zero) length. */
  function StringCommon(t: SqlaType, kwargs: Kwargs): Kwargs
  {
    if t.length.Some? && t.length.value != 0 then AddValidator(kwargs, Length(t.length.value)) else kwargs
  }

  /** A converter method applied to the arguments `convert` has built. */
  function Apply(conv: Conv, t: SqlaType, kwargs: Kwargs): (r: Field)
    ensures |kwargs.validators| <= |r.args.validators| <= |kwargs.validators| + 1
    ensures r.args.validators[..|kwargs.validators|] == kwargs.validators
    ensures forall i :: |kwargs.validators| <= i < |r.args.validators| ==> IsConstraint(r.args.validators[i])
    ensures kwargs.fieldLabel.Some? ==> r.args.fieldLabel == kwargs.fieldLabel
    ensures conv == ConvString && t.enums.Some? ==>
              r.kind == Select2Field && r.args.validators == kwargs.validators + [AnyOf(t.enums.value)]
              && r.args.choices == Some(SelfPairs(t.enums.value))
    ensures conv == ConvString && t.enums.None? ==>
              r.kind == TextField
              && r.args.validators == kwargs.validators + (if t.length.Some? && t.length.value != 0 then [Length(t.length.value)] else [])
  {
    match conv
    case ConvString =>
      if t.enums.Some? then
        Field(Select2Field, AddValidator(kwargs, AnyOf(t.enums.value)).(choices := Some(SelfPairs(t.enums.value))))
      else Field(TextField, StringCommon(t, kwargs))
    case ConvText => Field(TextAreaField, StringCommon(t, kwargs))
    case ConvBoolean => Field(BooleanField, kwargs)
    case ConvDate => Field(DateField, kwargs.(widget := Some(DatePickerWidget)))
    case ConvDateTime => Field(DateTimeField, kwargs.(widget := Some(DateTimePickerWidget)))
    case ConvTime => Field(TimeField, kwargs)
    case ConvInteger =>
      Field(IntegerField, if t.unsigned then AddValidator(kwargs, NumberRange(Some(0), None)) else kwargs)
    case ConvDecimal =>
      var places := match t.scale
        case NoScaleAttribute => Some(2)
        case ScaleNone => kwargs.places
        case ScaleValue(p) => Some(p);
      Field(DecimalField, kwargs.(places := places))
    case ConvMSYear => Field(TextField, AddValidator(kwargs, NumberRange(Some(1901), Some(2155))))
    case ConvPGInet => Field(TextField, AddValidator(SetDefaultLabel(kwargs, "IP Address"), IPAddress))
    case ConvPGMacaddr => Field(TextField, AddValidator(SetDefaultLabel(kwargs, "MAC Address"), MacAddress))
    case ConvPGUuid => Field(TextField, AddValidator(SetDefaultLabel(kwargs, "UUID"), Uuid))
    case ConvArray => Field(Select2TagsField, kwargs.(saveAsList := true))
  }

  /** `isinstance(column.type, Boolean)` */
  predicate IsBoolean(t: SqlaType)
  {
    exists k :: 0 <= k < |t.mro| && t.mro[k].name == "Boolean"
  }

  /** The default value `convert` passes on, if any. */
  function DefaultValueOf(d: ColumnDefault): (r: Option<DefaultValue>)
    ensures r.Some? <==> d.Default? && d.arg.Some? && (d.isCallable || d.isScalar)
    ensures r.Some? ==> r.value.arg == d.arg.value && (r.value.Callable? <==> d.isCallable)
  {
    match d
    case NoDefault => None
    case Default(arg, isCallable, isScalar) =>
      if arg.None? then None
      else if isCallable then Some(Callable(arg.value))
      else if !isScalar then None
      else Some(Scalar(arg.value))
  }

  /** What `get_form` hands to `convert`: a mapped property, or an extra field standing in for one. */
  datatype FormProp = Mapped(prop: MapperProperty) | Placeholder(field: Field)

  /** `AdminModelConverter(session, view)` */
  class AdminModelConverter {
    const view: FormView
    const base: ModelForm.ModelConverterBase<Conv>

    constructor (view: FormView)
      ensures this.view == view
      ensures base.useMro && base.converters == Registry.Register(map[], Tagged)
    {
      this.view := view;
      base := new ModelForm.ModelConverterBase(map[], true, Tagged);
    }

    /**
     * `_get_label`: an explicit `label` argument wins; otherwise a non-empty
     * `column_labels` decides alone (None for a name it lacks); otherwise
     * the view's `prettify_name`.
     */
    function GetLabel(name: string, kwargs: Kwargs): (r: Option<string>)
      ensures kwargs.fieldLabel.Some? ==> r == kwargs.fieldLabel.value
      ensures kwargs.fieldLabel.None? && view.columnLabels != map[] ==>
                r == (if name in view.columnLabels then Some(view.columnLabels[name]) else None)
      ensures kwargs.fieldLabel.None? && view.columnLabels == map[] ==> r == Some(ModelHelpers.PrettifyName(name))
    {
      if kwargs.fieldLabel.Some? then kwargs.fieldLabel.value
      else if view.columnLabels != map[] then
        if name in view.columnLabels then Some(view.columnLabels[name]) else None
      else Some(ModelHelpers.PrettifyName(name))
    }

    /** `_get_description`: an explicit argument, else the view's `column_descriptions` entry. */
    function GetDescription(name: string, kwargs: Kwargs): (r: Option<string>)
      ensures kwargs.description.Some? ==> r == kwargs.description.value
      ensures kwargs.description.None? ==> (r.Some? <==> name in view.columnDescriptions)
      ensures kwargs.description.None? && r.Some? ==> r.value == view.columnDescriptions[name]
    {
      if kwargs.description.Some? then kwargs.description.value
      else if view.columnDescriptions != map[] then
        if name in view.columnDescriptions then Some(view.columnDescriptions[name]) else None
      else None
    }

    /** `_convert_relation` */
    function ConvertRelation(key: string, direction: Direction, local: SqlaColumn, kwargs: Kwargs): (r: Option<Field>)
      ensures r.Some? ==> (r.value.args.validators ==
                kwargs.validators + (if local.nullable then [Optional] else if direction != ManyToMany then [InputRequired] else []))
      ensures r.Some? ==> r.value.args.fieldLabel == Some(GetLabel(key, kwargs))
      ensures r.Some? ==> r.value.args.allowBlank == Some(kwargs.allowBlank.GetOr(local.nullable))
      ensures r.Some? && kwargs.widget.None? ==>
                r.value.args.widget == Some(if direction == ManyToOne then Select2Widget else Select2MultipleWidget)
      ensures key in view.formOverrides ==> r.Some? && r.value.kind == OverrideField(view.formOverrides[key])
      ensures key !in view.formOverrides ==>
                (r.None? <==> direction == OneToMany && !local.hasForeignKeys && view.hideBackrefs)
      ensures key !in view.formOverrides && r.Some? ==>
                r.value.kind == (if direction == ManyToOne then QuerySelectField else QuerySelectMultipleField)
    {
      var k1 := kwargs.(fieldLabel := Some(GetLabel(key, kwargs)));
      var k2 := k1.(description := Some(GetDescription(key, k1)));
      var k3 := if local.nullable then AddValidator(k2, Optional)
                else if direction != ManyToMany then AddValidator(k2, InputRequired)
                else k2;
      var k4 := if k3.allowBlank.None? then k3.(allowBlank := Some(local.nullable)) else k3;
      var k5 := if k4.widget.Some? then k4
                else k4.(widget := Some(if direction == ManyToOne then Select2Widget else Select2MultipleWidget));
      if key in view.formOverrides then Some(Field(OverrideField(view.formOverrides[key]), k5))
      else match direction
        case ManyToOne => Some(Field(QuerySelectField, k5))
        case OneToMany =>
          if !local.hasForeignKeys && view.hideBackrefs then None else Some(Field(QuerySelectMultipleField, k5))
        case ManyToMany => Some(Field(QuerySelectMultipleField, k5))
    }

    /** `get_converter(column)` */
    function ConverterFor(t: SqlaType): (r: Option<Conv>)
      reads base
    {
      // `type(column.type).__mro__` starts with the type itself, so it is never empty
      if t.mro == [] then None else base.GetConverter(t.mro)
    }

    /** The arguments `convert` builds for a column that it shows. */
    function ColumnKwargs(ownModel: bool, key: string, column: SqlaColumn, kwargs: Kwargs): (r: Kwargs)
      ensures r.validators == kwargs.validators + Added(column)
      ensures ownModel && kwargs.fieldLabel.None? ==> r.fieldLabel == Some(GetLabel(key, kwargs))
      ensures DefaultValueOf(column.default).Some? ==> r.default == DefaultValueOf(column.default)
      ensures DefaultValueOf(column.default).None? ==> r.default == kwargs.default
    {
      // the primary key reaches here only when it is listed in form_columns
      var unique := column.primaryKey;
      var k1 := if column.primaryKey then AddValidator(kwargs, Unique(column.key)) else kwargs;
      var k2 := if column.unique && !unique then AddValidator(k1, Unique(column.key)) else k1;
      var k3 := if !column.nullable && !IsBoolean(column.sqlType) then AddValidator(k2, InputRequired) else k2;
      var k4 := if ownModel then k3.(fieldLabel := Some(GetLabel(key, k3))) else k3;
      var k5 := if ownModel then k4.(description := Some(GetDescription(key, k4))) else k4;
      var value := DefaultValueOf(column.default);
      var k6 := if value.Some? then k5.(default := value) else k5;
      if column.nullable then AddValidator(k6, Optional) else k6
    }

    /** The field for a single-column property, from its column. */
    function ConvertColumn(ownModel: bool, key: string, column: SqlaColumn, kwargs: Kwargs, hiddenPk: bool): (r: Result<Option<Field>>)
      reads base
      ensures column.hasForeignKeys || !column.isRealColumn ==> r == Ok(None)
      ensures !column.hasForeignKeys && column.isRealColumn && column.primaryKey && hiddenPk ==> r == Ok(Some(Field(HiddenField, NoArgs)))
      ensures column.primaryKey && !hiddenPk && (view.formColumns.None? || key !in view.formColumns.value) ==> r == Ok(None)
      ensures r.Err? <==> !column.hasForeignKeys && column.isRealColumn && !(column.primaryKey && (hiddenPk || view.formColumns.None? || key !in view.formColumns.value))
                          && key !in view.formOverrides && ownModel && column.key in view.formChoices && view.formChoices[column.key] != []
                          && (kwargs.choices.Some? || kwargs.allowBlank.Some?)
      ensures !(column.primaryKey && hiddenPk) && ownModel && key !in view.formOverrides && column.key in view.formChoices && view.formChoices[column.key] != [] && r.Ok? && r.value.Some? ==>
                r.value.value.kind == Select2Field && r.value.value.args.choices == Some(view.formChoices[column.key])
                && r.value.value.args.allowBlank == Some(column.nullable)
    {
      if column.hasForeignKeys then Ok(None)
      else if !column.isRealColumn then Ok(None)
      else if column.primaryKey && hiddenPk then Ok(Some(Field(HiddenField, NoArgs)))
      else if column.primaryKey && view.formColumns.None? then Ok(None)
      else if column.primaryKey && key !in view.formColumns.value then Ok(None)
      else
        var k := ColumnKwargs(ownModel, key, column, kwargs);
        if key in view.formOverrides then Ok(Some(Field(OverrideField(view.formOverrides[key]), k)))
        else if ownModel && view.formChoices != map[] && column.key in view.formChoices && view.formChoices[column.key] != [] then
          // the choices and allow_blank keywords would be given twice
          if k.choices.Some? || k.allowBlank.Some? then Err("TypeError")
          else Ok(Some(Field(Select2Field, k.(choices := Some(view.formChoices[column.key]), allowBlank := Some(column.nullable)))))
        else match ConverterFor(column.sqlType)
          case None => Ok(None)
          case Some(conv) => Ok(Some(Apply(conv, column.sqlType, k)))
    }

    /** `convert(model, mapper, prop, field_args, hidden_pk)`; `ownModel` is `view.model == mapper.class_`. */
    function Convert(ownModel: bool, prop: FormProp, fieldArgs: Option<FieldArgs>, hiddenPk: bool): (r: Result<Option<Field>>)
      reads base
      ensures prop.Placeholder? ==> r == Ok(Some(prop.field))
      ensures prop.Mapped? && prop.prop.OtherProperty? ==> r == Ok(None)
      ensures prop.Mapped? && prop.prop.ColumnProperty? && prop.prop.more != [] ==> r == Err("TypeError")
      ensures prop.Mapped? && prop.prop.Relationship? ==> r.Ok?
    {
      match prop
      case Placeholder(f) => Ok(Some(f))
      case Mapped(p) =>
        var kwargs := InitialKwargs(fieldArgs);
        match p
        case Relationship(key, direction, local, _) => Ok(ConvertRelation(key, direction, local, kwargs))
        case ColumnProperty(key, first, more) =>
          if more != [] then Err("TypeError") else ConvertColumn(ownModel, key, first, kwargs, hiddenPk)
        case OtherProperty(_) => Ok(None)
    }
  }

  /** The validators `convert` itself adds to a column it shows. */
  function Added(column: SqlaColumn): seq<Validator>
  {
    (if column.primaryKey || column.unique then [Unique(column.key)] else [])
    + (if !column.nullable && !IsBoolean(column.sqlType) then [InputRequired] else [])
    + (if column.nullable then [Optional] else [])
  }

  lemma AddedCounts(column: SqlaColumn)
    ensures multiset(Added(column))[Unique(column.key)] == (if column.primaryKey || column.unique then 1 else 0)
    ensures forall v :: v in Added(column) && v.Unique? ==> v == Unique(column.key)
    ensures multiset(Added(column))[InputRequired] == (if !column.nullable && !IsBoolean(column.sqlType) then 1 else 0)
    ensures multiset(Added(column))[Optional] == (if column.nullable then 1 else 0)
  {
    var u: seq<Validator> := if column.primaryKey || column.unique then [Unique(column.key)] else [];
    var q: seq<Validator> := if !column.nullable && !IsBoolean(column.sqlType) then [InputRequired] else [];
    var o: seq<Validator> := if column.nullable then [Optional] else [];
    assert Added(column) == u + q + o;
    Count3(u, q, o, Unique(column.key));
    Count3(u, q, o, InputRequired);
    Count3(u, q, o, Optional);
    forall v | v in Added(column) && v.Unique?
      ensures v == Unique(column.key)
    {
      assert v in u + q + o;
      assert v !in q && v !in o;
    }
  }

  lemma Count3<T>(u: seq<T>, q: seq<T>, o: seq<T>, x: T)
    ensures multiset(u + q + o)[x] == multiset(u)[x] + multiset(q)[x] + multiset(o)[x]
  {
  }

  /**
   * A type whose own name is registered, and none of whose classes is
   * registered under its qualified name, gets the converter its name is
   * registered for.
   */
  lemma ConverterByName(c: AdminModelConverter, t: SqlaType, conv: Conv)
    requires c.base.useMro && |t.mro| >= 1
    requires t.mro[0].name in c.base.converters && c.base.converters[t.mro[0].name] == conv
    requires forall k :: 0 <= k < |t.mro| ==> ModelForm.QualifiedName(t.mro[k]) !in c.base.converters
    ensures c.ConverterFor(t) == Some(conv)
  {
    var r := ModelForm.FirstByName(c.base.converters, t.mro);
    var k :| 0 <= k < |t.mro| && t.mro[k].name in c.base.converters && r.value == c.base.converters[t.mro[k].name]
             && forall j :: 0 <= j < k ==> t.mro[j].name !in c.base.converters;
    assert k == 0;
  }

  /**
   * A String or Unicode column that `convert` hands to a converter goes to
   * `conv_String` (see `Apply` for what that makes of it).
   */
  lemma StringColumn(c: AdminModelConverter, ownModel: bool, key: string, column: SqlaColumn, kwargs: Kwargs, hiddenPk: bool)
    requires c.base.useMro && c.base.converters == Registry.Register(map[], Tagged)
    requires |column.sqlType.mro| >= 1 && (column.sqlType.mro[0].name == "String" || column.sqlType.mro[0].name == "Unicode")
    requires forall k :: 0 <= k < |column.sqlType.mro| ==> ModelForm.QualifiedName(column.sqlType.mro[k]) !in c.base.converters
    requires !column.hasForeignKeys && column.isRealColumn && !column.primaryKey
    requires key !in c.view.formOverrides
    requires !(ownModel && column.key in c.view.formChoices && c.view.formChoices[column.key] != [])
    ensures c.ConvertColumn(ownModel, key, column, kwargs, hiddenPk)
              == Ok(Some(Apply(ConvString, column.sqlType, c.ColumnKwargs(ownModel, key, column, kwargs))))
  {
    StringRegistered(map[], column.sqlType.mro[0].name);
    ConverterByName(c, column.sqlType, ConvString);
    ConvertedByType(c, ownModel, key, column, kwargs, hiddenPk, ConvString);
  }

  /**
   * A column that is neither a foreign nor a primary key, has no override
   * and no choices, goes to the converter of its type with the arguments
   * `convert` built.
   */
  lemma ConvertedByType(c: AdminModelConverter, ownModel: bool, key: string, column: SqlaColumn, kwargs: Kwargs,
                        hiddenPk: bool, conv: Conv)
    requires !column.hasForeignKeys && column.isRealColumn && !column.primaryKey
    requires key !in c.view.formOverrides
    requires !(ownModel && column.key in c.view.formChoices && c.view.formChoices[column.key] != [])
    requires c.ConverterFor(column.sqlType) == Some(conv)
    ensures c.ConvertColumn(ownModel, key, column, kwargs, hiddenPk)
              == Ok(Some(Apply(conv, column.sqlType, c.ColumnKwargs(ownModel, key, column, kwargs))))
  {
  }

  /** `conv_String` is registered under String and Unicode, over any initial table. */
  lemma StringRegistered(init: map<string, Conv>, n: string)
    requires n == "String" || n == "Unicode"
    ensures n in Registry.Register(init, Tagged) && Registry.Register(init, Tagged)[n] == ConvString
  {
    var t := Tagged;
    assert 6 < |t| && n in t[6].1 && t[6].0 == ConvString && forall j :: 6 < j < |t| ==> n !in t[j].1 by {
      StringTagLast(n);
    }
    Registry.RegisterLast(init, t, n, 6);
  }

  /** No converter after `conv_String` claims String or Unicode. */
  lemma StringTagLast(n: string)
    requires n == "String" || n == "Unicode"
    ensures Tagged[6].0 == ConvString && n in Tagged[6].1 && forall j :: 6 < j < |Tagged| ==> n !in Tagged[j].1
  {
    assert Tagged[6] == (ConvString, ["String", "Unicode"]);
    assert Tagged[7].1 == ["Text", "UnicodeText", "sqlalchemy.types.LargeBinary", "sqlalchemy.types.Binary"];
    assert Tagged[8].1 == ["Date"] && Tagged[9].1 == ["DateTime"] && Tagged[10].1 == ["Time"];
    assert Tagged[11].1 == ["Numeric", "Float"] && Tagged[12].1 == ["Integer", "SmallInteger"];
  }

  /**
   * The validators `convert` adds for a column it shows, beyond the ones
   * given in `form_args`: exactly one Unique when the column is a primary
   * key or unique, and exactly one of InputRequired (not nullable) and
   * Optional (nullable), except that a non-nullable Boolean gets neither.
   */
  lemma ColumnValidators(c: AdminModelConverter, ownModel: bool, key: string, column: SqlaColumn, kwargs: Kwargs, hiddenPk: bool)
    requires !(column.primaryKey && hiddenPk)
    requires c.ConvertColumn(ownModel, key, column, kwargs, hiddenPk).Ok?
    requires c.ConvertColumn(ownModel, key, column, kwargs, hiddenPk).value.Some?
    ensures var vs := c.ConvertColumn(ownModel, key, column, kwargs, hiddenPk).value.value.args.validators;
            var n := |kwargs.validators|;
            n <= |vs| && vs[..n] == kwargs.validators
            && multiset(vs[n..])[Unique(column.key)] == (if column.primaryKey || column.unique then 1 else 0)
            && (forall v :: v in vs[n..] && v.Unique? ==> v == Unique(column.key))
            && multiset(vs[n..])[InputRequired] == (if !column.nullable && !IsBoolean(column.sqlType) then 1 else 0)
            && multiset(vs[n..])[Optional] == (if column.nullable then 1 else 0)
  {
    var vs := c.ConvertColumn(ownModel, key, column, kwargs, hiddenPk).value.value.args.validators;
    var w := c.ColumnKwargs(ownModel, key, column, kwargs).validators;
    assert w == kwargs.validators + Added(column);
    assert |w| <= |vs| && vs[..|w|] == w && forall i :: |w| <= i < |vs| ==> IsConstraint(vs[i]);
    ValidatorsAfter(kwargs.validators, column, vs);
  }

  /** The validators that follow the given ones, when `Added(column)` and then constraints follow them. */
  lemma ValidatorsAfter(given: seq<Validator>, column: SqlaColumn, vs: seq<Validator>)
    requires |given + Added(column)| <= |vs| && vs[..|given + Added(column)|] == given + Added(column)
    requires forall i :: |given + Added(column)| <= i < |vs| ==> IsConstraint(vs[i])
    ensures var n := |given|;
            n <= |vs| && vs[..n] == given
            && multiset(vs[n..])[Unique(column.key)] == (if column.primaryKey || column.unique then 1 else 0)
            && (forall v :: v in vs[n..] && v.Unique? ==> v == Unique(column.key))
            && multiset(vs[n..])[InputRequired] == (if !column.nullable && !IsBoolean(column.sqlType) then 1 else 0)
            && multiset(vs[n..])[Optional] == (if column.nullable then 1 else 0)
  {
    SuffixCounts(given, Added(column), vs);
    AddedCounts(column);
    assert !IsConstraint(Unique(column.key)) && !IsConstraint(InputRequired) && !IsConstraint(Optional);
  }

  /** What follows a known prefix, when the rest holds constraints only. */
  lemma SuffixCounts(given: seq<Validator>, added: seq<Validator>, vs: seq<Validator>)
    requires |given + added| <= |vs| && vs[..|given + added|] == given + added
    requires forall i :: |given + added| <= i < |vs| ==> IsConstraint(vs[i])
    ensures |given| <= |vs| && vs[..|given|] == given
    ensures forall v :: v in vs[|given|..] && !IsConstraint(v) ==> v in added
    ensures forall v :: !IsConstraint(v) ==> multiset(vs[|given|..])[v] == multiset(added)[v]
  {
    var n := |given|;
    var m := n + |added|;
    var extra := vs[m..];
    assert vs[..n] == (given + added)[..n] == given;
    assert vs[n..] == added + extra by {
      assert vs[n..m] == (given + added)[n..] == added;
      assert vs[n..] == vs[n..m] + vs[m..];
    }
    assert forall v :: v in extra ==> IsConstraint(v);
  }

  // ---------------------------------------------------------------------
  // The form_args list that convert shares, as written

  /** Whether `convert` goes past its key checks for a single-column property and builds the column's arguments. */
  predicate PastKeyChecks(c: AdminModelConverter, key: string, column: SqlaColumn, hiddenPk: bool)
  {
    !column.hasForeignKeys && column.isRealColumn
    && !(column.primaryKey && (hiddenPk || c.view.formColumns.None? || key !in c.view.formColumns.value))
  }

  /**
   * The `validators` list of a `form_args` entry after `convert` has run
   * on it as the code is written. `kwargs.update(field_args)` puts that
   * very list into the field's arguments, so each validator `convert`,
   * `_convert_relation` and the type converters append lands in the view's
   * `form_args` as well. An entry without a `validators` key shares nothing.
   * The rest of this model builds each field on a copy of the list instead.
   */
  function SharedAfter(c: AdminModelConverter, ownModel: bool, prop: FormProp, fieldArgs: FieldArgs, hiddenPk: bool): (r: Option<seq<Validator>>)
    reads c.base
    ensures r.Some? <==> fieldArgs.validators.Some?
  {
    if fieldArgs.validators.None? then None
    else
      var given := fieldArgs.validators.value;
      var kwargs := InitialKwargs(Some(fieldArgs));
      match prop
      case Placeholder(_) => Some(given)
      case Mapped(p) =>
        match p
        case Relationship(_, direction, local, _) =>
          Some(given + if local.nullable then [Optional] else if direction != ManyToMany then [InputRequired] else [])
        case ColumnProperty(key, column, more) =>
          if more != [] || !PastKeyChecks(c, key, column, hiddenPk) then Some(given)
          else
            var conv := c.ConvertColumn(ownModel, key, column, kwargs, hiddenPk);
            if conv.Ok? && conv.value.Some? then Some(conv.value.value.args.validators)
            else Some(c.ColumnKwargs(ownModel, key, column, kwargs).validators)
        case OtherProperty(_) => Some(given)
  }

  /**
   * As written, one conversion of a column that `convert` shows leaves in
   * the shared list the given validators followed by the ones it added:
   * among them one Unique check when the column is a primary key or unique.
   */
  lemma SharedAppends(c: AdminModelConverter, ownModel: bool, key: string, column: SqlaColumn, fieldArgs: FieldArgs, hiddenPk: bool)
    requires fieldArgs.validators.Some? && PastKeyChecks(c, key, column, hiddenPk)
    ensures var r := SharedAfter(c, ownModel, Mapped(ColumnProperty(key, column, [])), fieldArgs, hiddenPk).value;
            var n := |fieldArgs.validators.value|;
            n <= |r| && r[..n] == fieldArgs.validators.value
            && multiset(r[n..])[Unique(column.key)] == if column.primaryKey || column.unique then 1 else 0
  {
    var given := fieldArgs.validators.value;
    var kwargs := InitialKwargs(Some(fieldArgs));
    assert kwargs.validators == given;
    var r := SharedAfter(c, ownModel, Mapped(ColumnProperty(key, column, [])), fieldArgs, hiddenPk).value;
    var conv := c.ConvertColumn(ownModel, key, column, kwargs, hiddenPk);
    if conv.Ok? && conv.value.Some? {
      ColumnValidators(c, ownModel, key, column, kwargs, hiddenPk);
    } else {
      assert r == given + Added(column);
      assert r[|given|..] == Added(column);
      AddedCounts(column);
    }
  }

  /**
   * As written, `get_create_form` and then `get_edit_form` convert a unique
   * column twice over the same `form_args` list: afterwards the list, which
   * the edit form's field holds, carries two more Unique checks for the
   * column than the user gave, where each form should have one.
   */
  lemma ValidatorsPileUp(c: AdminModelConverter, ownModel: bool, key: string, column: SqlaColumn, fieldArgs: FieldArgs, hiddenPk: bool)
    requires fieldArgs.validators.Some? && PastKeyChecks(c, key, column, hiddenPk)
    requires column.primaryKey || column.unique
    ensures var prop := Mapped(ColumnProperty(key, column, []));
            var once := SharedAfter(c, ownModel, prop, fieldArgs, hiddenPk).value;
            var twice := SharedAfter(c, ownModel, prop, fieldArgs.(validators := Some(once)), hiddenPk).value;
            multiset(twice)[Unique(column.key)] == multiset(fieldArgs.validators.value)[Unique(column.key)] + 2
  {
    var prop := Mapped(ColumnProperty(key, column, []));
    var given := fieldArgs.validators.value;
    var once := SharedAfter(c, ownModel, prop, fieldArgs, hiddenPk).value;
    var twice := SharedAfter(c, ownModel, prop, fieldArgs.(validators := Some(once)), hiddenPk).value;
    SharedAppends(c, ownModel, key, column, fieldArgs, hiddenPk);
    SharedAppends(c, ownModel, key, column, fieldArgs.(validators := Some(once)), hiddenPk);
    assert once == once[..|given|] + once[|given|..];
    assert twice == twice[..|once|] + twice[|once|..];
  }

  // ---------------------------------------------------------------------
  // get_form

  /** A mapped model: whether it is mapped at all, its properties, and the
      class attributes carrying a `property` (hybrids and aliases). */
  datatype SqlaModel = SqlaModel(name: string, mapped: bool, props: seq<MapperProperty>, attrs: map<string, MapperProperty>)

  /** The arguments of `get_form`; `extraFields` is the dict in its iteration order. */
  datatype FormOptions = FormOptions(
    only: Option<seq<string>>,
    exclude: Option<seq<string>>,
    fieldArgs: map<string, FieldArgs>,
    hiddenPk: bool,
    ignoreHidden: bool,
    extraFields: seq<(string, Field)>)

  /** The generated form class: its name and its fields in creation order. */
  datatype FormClass = FormClass(name: string, fields: seq<(string, Field)>)

  /** A non-empty list, as `if only:` tests it. */
  predicate Given(names: Option<seq<string>>)
  {
    names.Some? && names.value != []
  }

  function Names<T>(pairs: seq<(string, T)>): set<string>
  {
    set i | 0 <= i < |pairs| :: pairs[i].0
  }

  /** `dict(pairs).get(name)`: the value of the last pair with that name. */
  function DictGet<T(==)>(pairs: seq<(string, T)>, name: string): (r: Option<T>)
    ensures r.None? <==> name !in Names(pairs)
    ensures r.Some? ==> exists i :: 0 <= i < |pairs| && pairs[i] == (name, r.value)
  {
    if pairs == [] then None
    else if pairs[|pairs| - 1].0 == name then Some(pairs[|pairs| - 1].1)
    else
      var r := DictGet(pairs[..|pairs| - 1], name);
      assert Names(pairs) == Names(pairs[..|pairs| - 1]) + {pairs[|pairs| - 1].0} by {
        assert forall i :: 0 <= i < |pairs| - 1 ==> pairs[..|pairs| - 1][i] == pairs[i];
      }
      if r.Some? then
        var i :| 0 <= i < |pairs| - 1 && pairs[..|pairs| - 1][i] == (name, r.value);
        assert pairs[i] == (name, r.value);
        r
      else r
  }

  /** `(p.key, p) for p in mapper.iterate_properties` */
  function KeyedProps(props: seq<MapperProperty>): (r: seq<(string, MapperProperty)>)
    ensures |r| == |props| && forall i :: 0 <= i < |props| ==> r[i] == (props[i].key, props[i])
  {
    seq(|props|, i requires 0 <= i < |props| => (props[i].key, props[i]))
  }

  /**
   * `find(name)`: an extra field of that name first, then the mapped
   * property, then a class attribute with a `property`; anything else is
   * a ValueError.
   */
  function Find(model: SqlaModel, extraFields: seq<(string, Field)>, name: string): (r: Result<FormProp>)
    ensures name in Names(extraFields) ==> r.Ok? && r.value.Placeholder? && (name, r.value.field) in extraFields
    ensures r.Err? <==> name !in Names(extraFields) && name !in Names(KeyedProps(model.props)) && name !in model.attrs
    ensures r.Ok? && r.value.Mapped? && name !in model.attrs ==> exists i :: 0 <= i < |model.props| && model.props[i] == r.value.prop && model.props[i].key == name
  {
    match DictGet(extraFields, name)
    case Some(f) => Ok(Placeholder(f))
    case None =>
      match DictGet(KeyedProps(model.props), name)
      case Some(p) => Ok(Mapped(p))
      case None => if name in model.attrs then Ok(Mapped(model.attrs[name])) else Err("ValueError")
  }

  /** `(x for x in properties if x[0] not in exclude)` */
  function Unexcluded(props: seq<MapperProperty>, exclude: seq<string>): (r: seq<(string, Result<FormProp>)>)
    ensures forall i :: 0 <= i < |r| ==> r[i].0 !in exclude && r[i].1.Ok? && r[i].1.value.Mapped?
                                         && r[i].1.value.prop in props && r[i].1.value.prop.key == r[i].0
    ensures forall p :: p in props && p.key !in exclude ==> (p.key, Ok(Mapped(p))) in r
  {
    if props == [] then []
    else
      var rest := Unexcluded(props[1..], exclude);
      if props[0].key in exclude then rest else [(props[0].key, Ok(Mapped(props[0])))] + rest
  }

  /**
   * The `(name, property)` pairs the field loop walks, with `find`'s outcome
   * for each name of `only`: the generator is lazy, so an unknown name fails
   * only when the loop reaches it.
   */
  function Items(model: SqlaModel, opts: FormOptions): (r: seq<(string, Result<FormProp>)>)
    ensures Given(opts.only) ==>
              |r| == |opts.only.value|
              && forall i :: 0 <= i < |r| ==> r[i] == (opts.only.value[i], Find(model, opts.extraFields, opts.only.value[i]))
    ensures !Given(opts.only) ==>
              forall i :: 0 <= i < |r| ==>
                r[i].1.Ok? && r[i].1.value.Mapped? && r[i].1.value.prop in model.props && r[i].1.value.prop.key == r[i].0
                && (opts.exclude.Some? ==> r[i].0 !in opts.exclude.value)
  {
    if Given(opts.only) then
      var only := opts.only.value;
      seq(|only|, i requires 0 <= i < |only| => (only[i], Find(model, opts.extraFields, only[i])))
    else if Given(opts.exclude) then Unexcluded(model.props, opts.exclude.value)
    else Unexcluded(model.props, [])
  }

  /** `field_dict[name] = field`: the form orders fields by creation, so the new one comes last. */
  function Assign(fields: seq<(string, Field)>, name: string, f: Field): (r: seq<(string, Field)>)
    ensures Names(r) == Names(fields) + {name}
    ensures |r| > 0 && r[|r| - 1] == (name, f)
    ensures forall i :: 0 <= i < |r| - 1 ==> r[i].0 != name && r[i] in fields
    ensures DistinctNames(fields) ==> DistinctNames(r)
  {
    var kept := Remove(fields, name);
    NamesConcat(kept, [(name, f)]);
    assert Names([(name, f)]) == {name} by {
      assert [(name, f)][0].0 == name;
    }
    kept + [(name, f)]
  }

  lemma NamesCons<T>(pairs: seq<(string, T)>)
    requires pairs != []
    ensures Names(pairs) == {pairs[0].0} + Names(pairs[1..])
  {
    assert forall i :: 1 <= i < |pairs| ==> pairs[1..][i - 1] == pairs[i];
  }

  lemma NamesConcat<T>(a: seq<(string, T)>, b: seq<(string, T)>)
    ensures Names(a + b) == Names(a) + Names(b)
  {
    forall n | n in Names(a + b) ensures n in Names(a) + Names(b) {
      var i :| 0 <= i < |a + b| && (a + b)[i].0 == n;
      if i < |a| {
        assert a[i] == (a + b)[i];
      } else {
        assert b[i - |a|] == (a + b)[i];
      }
    }
    forall n | n in Names(a) + Names(b) ensures n in Names(a + b) {
      if n in Names(a) {
        var i :| 0 <= i < |a| && a[i].0 == n;
        assert (a + b)[i] == a[i];
      } else {
        var i :| 0 <= i < |b| && b[i].0 == n;
        assert (a + b)[|a| + i] == b[i];
      }
    }
  }

  predicate DistinctNames<T>(pairs: seq<(string, T)>)
  {
    forall i, j :: 0 <= i < j < |pairs| ==> pairs[i].0 != pairs[j].0
  }

  function Remove(fields: seq<(string, Field)>, name: string): (r: seq<(string, Field)>)
    ensures Names(r) == Names(fields) - {name}
    ensures forall i :: 0 <= i < |r| ==> r[i].0 != name && r[i] in fields
    ensures DistinctNames(fields) ==> DistinctNames(r)
  {
    if fields == [] then []
    else
      var rest := Remove(fields[1..], name);
      assert Names(fields) == {fields[0].0} + Names(fields[1..]) by {
        assert forall i :: 1 <= i < |fields| ==> fields[1..][i - 1] == fields[i];
      }
      if fields[0].0 == name then rest
      else
        var r := [fields[0]] + rest;
        NamesConcat([fields[0]], rest);
        assert Names([fields[0]]) == {fields[0].0} by {
          assert [fields[0]][0].0 == fields[0].0;
        }
        r
  }

  /** The field loop of `get_form`, from the fields collected so far. */
  function Build(c: AdminModelConverter, ownModel: bool, items: seq<(string, Result<FormProp>)>, opts: FormOptions,
                 acc: seq<(string, Field)>): Result<seq<(string, Field)>>
    reads c.base
    decreases |items|
  {
    if items == [] then Ok(acc)
    else
      var name := items[0].0;
      match items[0].1
      case Err(e) => Err(e)
      case Ok(p) =>
        if opts.ignoreHidden && StartsWith(name, "_") then Build(c, ownModel, items[1..], opts, acc)
        else
          var fieldArgs := if name in opts.fieldArgs then Some(opts.fieldArgs[name]) else None;
          match c.Convert(ownModel, p, fieldArgs, opts.hiddenPk)
          case Err(e) => Err(e)
          case Ok(None) => Build(c, ownModel, items[1..], opts, acc)
          case Ok(Some(f)) => Build(c, ownModel, items[1..], opts, Assign(acc, name, f))
  }

  /** The loop over `extra_fields` that follows when no `only` is given. */
  function AddExtra(acc: seq<(string, Field)>, extra: seq<(string, Field)>): seq<(string, Field)>
    decreases |extra|
  {
    if extra == [] then acc else AddExtra(Assign(acc, extra[0].0, extra[0].1), extra[1..])
  }

  /** `get_form`: the form class, or the exception it raises. */
  function FormFor(c: AdminModelConverter, model: SqlaModel, opts: FormOptions): Result<FormClass>
    reads c.base
  {
    if !model.mapped then Err("TypeError")
    else
      match Build(c, c.view.model == model.name, Items(model, opts), opts, [])
      case Err(e) => Err(e)
      case Ok(fields) =>
        var all := if !Given(opts.only) && opts.extraFields != [] then AddExtra(fields, opts.extraFields) else fields;
        Ok(FormClass(model.name + "Form", all))
  }

  /** `get_form` as the source runs it: a loop filling `field_dict`, then one over the extra fields. */
  method GetForm(c: AdminModelConverter, model: SqlaModel, opts: FormOptions) returns (r: Result<FormClass>)
    ensures r == FormFor(c, model, opts)
  {
    if !model.mapped {
      return Err("TypeError");
    }
    var built := FillFieldDict(c, c.view.model == model.name, Items(model, opts), opts);
    if built.Err? {
      return Err(built.error);
    }
    var fieldDict := built.value;
    if !Given(opts.only) && opts.extraFields != [] {
      fieldDict := AddExtraFields(fieldDict, opts.extraFields);
    }
    return Ok(FormClass(model.name + "Form", fieldDict));
  }

  /** The loop of `get_form` over the model's properties, stopping at the first exception. */
  method FillFieldDict(c: AdminModelConverter, ownModel: bool, items: seq<(string, Result<FormProp>)>, opts: FormOptions)
    returns (r: Result<seq<(string, Field)>>)
    ensures r == Build(c, ownModel, items, opts, [])
  {
    var fieldDict: seq<(string, Field)> := [];
    var i := 0;
    while i < |items|
      invariant 0 <= i <= |items|
      invariant Build(c, ownModel, items, opts, []) == Build(c, ownModel, items[i..], opts, fieldDict)
    {
      var (name, p) := items[i];
      assert items[i..][0] == (name, p) && items[i..][1..] == items[i + 1..];
      if p.Err? {
        return Err(p.error);
      }
      if !(opts.ignoreHidden && StartsWith(name, "_")) {
        var fieldArgs := if name in opts.fieldArgs then Some(opts.fieldArgs[name]) else None;
        var field := c.Convert(ownModel, p.value, fieldArgs, opts.hiddenPk);
        if field.Err? {
          return Err(field.error);
        }
        if field.value.Some? {
          fieldDict := Assign(fieldDict, name, field.value.value);
        }
      }
      i := i + 1;
    }
    return Ok(fieldDict);
  }

  /** The loop of `get_form` over `extra_fields`: `field_dict[name] = field` for each in turn. */
  method AddExtraFields(acc: seq<(string, Field)>, extra: seq<(string, Field)>) returns (r: seq<(string, Field)>)
    ensures r == AddExtra(acc, extra)
  {
    r := acc;
    var j := 0;
    while j < |extra|
      invariant 0 <= j <= |extra|
      invariant AddExtra(acc, extra) == AddExtra(r, extra[j..])
    {
      assert extra[j..][1..] == extra[j + 1..];
      r := Assign(r, extra[j].0, extra[j].1);
      j := j + 1;
    }
  }

  /** The names of the items the loop does not skip as hidden. */
  function Visible(items: seq<(string, Result<FormProp>)>, ignoreHidden: bool): set<string>
  {
    set i | 0 <= i < |items| && !(ignoreHidden && StartsWith(items[i].0, "_")) :: items[i].0
  }

  /** The loop only adds visible names, and the fields stay keyed by distinct names. */
  lemma {:induction false} BuildNames(c: AdminModelConverter, ownModel: bool, items: seq<(string, Result<FormProp>)>,
                                      opts: FormOptions, acc: seq<(string, Field)>)
    requires Build(c, ownModel, items, opts, acc).Ok?
    ensures Names(Build(c, ownModel, items, opts, acc).value) <= Names(acc) + Visible(items, opts.ignoreHidden)
    ensures Names(acc) <= Names(Build(c, ownModel, items, opts, acc).value)
    ensures DistinctNames(acc) ==> DistinctNames(Build(c, ownModel, items, opts, acc).value)
    decreases |items|
  {
    if items != [] {
      assert Visible(items[1..], opts.ignoreHidden) <= Visible(items, opts.ignoreHidden) by {
        forall n | n in Visible(items[1..], opts.ignoreHidden) ensures n in Visible(items, opts.ignoreHidden) {
          var i :| 0 <= i < |items[1..]| && !(opts.ignoreHidden && StartsWith(items[1..][i].0, "_")) && items[1..][i].0 == n;
          assert items[i + 1] == items[1..][i];
        }
      }
      var name := items[0].0;
      if !(opts.ignoreHidden && StartsWith(name, "_")) {
        assert name in Visible(items, opts.ignoreHidden) by {
          assert items[0].0 == name;
        }
        var fieldArgs := if name in opts.fieldArgs then Some(opts.fieldArgs[name]) else None;
        var conv := c.Convert(ownModel, items[0].1.value, fieldArgs, opts.hiddenPk);
        if conv.value.Some? {
          BuildNames(c, ownModel, items[1..], opts, Assign(acc, name, conv.value.value));
        } else {
          BuildNames(c, ownModel, items[1..], opts, acc);
        }
      } else {
        BuildNames(c, ownModel, items[1..], opts, acc);
      }
    }
  }

  /** An item `find` failed on makes the whole loop fail. */
  lemma {:induction false} BuildFails(c: AdminModelConverter, ownModel: bool, items: seq<(string, Result<FormProp>)>,
                                      opts: FormOptions, acc: seq<(string, Field)>, k: nat)
    requires k < |items| && items[k].1.Err?
    ensures Build(c, ownModel, items, opts, acc).Err?
    decreases |items|
  {
    if k > 0 && items[0].1.Ok? {
      assert items[1..][k - 1] == items[k];
      var name := items[0].0;
      if opts.ignoreHidden && StartsWith(name, "_") {
        BuildFails(c, ownModel, items[1..], opts, acc, k - 1);
        return;
      }
      var fieldArgs := if name in opts.fieldArgs then Some(opts.fieldArgs[name]) else None;
      var conv := c.Convert(ownModel, items[0].1.value, fieldArgs, opts.hiddenPk);
      if conv.Ok? && conv.value.Some? {
        BuildFails(c, ownModel, items[1..], opts, Assign(acc, name, conv.value.value), k - 1);
      } else if conv.Ok? {
        BuildFails(c, ownModel, items[1..], opts, acc, k - 1);
      }
    }
  }

  lemma {:induction false} AddExtraNames(acc: seq<(string, Field)>, extra: seq<(string, Field)>)
    ensures Names(AddExtra(acc, extra)) == Names(acc) + Names(extra)
    ensures DistinctNames(acc) ==> DistinctNames(AddExtra(acc, extra))
    decreases |extra|
  {
    if extra != [] {
      var next := Assign(acc, extra[0].0, extra[0].1);
      AddExtraNames(next, extra[1..]);
      NamesCons(extra);
      assert Names(next) == Names(acc) + {extra[0].0};
    }
  }

  /**
   * With `only`, the form holds only names listed there, never a hidden
   * one when hidden names are ignored, and each name at most once.
   */
  lemma OnlyFields(c: AdminModelConverter, model: SqlaModel, opts: FormOptions)
    requires Given(opts.only)
    requires FormFor(c, model, opts).Ok?
    ensures var fields := FormFor(c, model, opts).value.fields;
            DistinctNames(fields)
            && forall i :: 0 <= i < |fields| ==> fields[i].0 in opts.only.value
                                                 && !(opts.ignoreHidden && StartsWith(fields[i].0, "_"))
  {
    var items := Items(model, opts);
    var ownModel := c.view.model == model.name;
    BuildNames(c, ownModel, items, opts, []);
    var fields := FormFor(c, model, opts).value.fields;
    forall i | 0 <= i < |fields|
      ensures fields[i].0 in opts.only.value && !(opts.ignoreHidden && StartsWith(fields[i].0, "_"))
    {
      assert fields[i].0 in Names(fields);
      var k :| 0 <= k < |items| && !(opts.ignoreHidden && StartsWith(items[k].0, "_")) && items[k].0 == fields[i].0;
      assert items[k].0 == opts.only.value[k];
    }
  }

  /** The position of the last `x` in `s`, or -1 when there is none. */
  function LastIndex(s: seq<string>, x: string): (r: int)
    ensures -1 <= r < |s|
    ensures r >= 0 <==> x in s
    ensures r >= 0 ==> s[r] == x && forall j :: r < j < |s| ==> s[j] != x
  {
    if s == [] then -1 else if s[|s| - 1] == x then |s| - 1 else LastIndex(s[..|s| - 1], x)
  }

  /** Fields whose names come in the order of their last positions in `s`. */
  predicate OrderedByLast(fields: seq<(string, Field)>, s: seq<string>)
  {
    forall i, j :: 0 <= i < j < |fields| ==> LastIndex(s, fields[i].0) < LastIndex(s, fields[j].0)
  }

  /**
   * What the field loop makes of a name listed in `only`: `find`'s
   * exception, nothing for a hidden name when hidden names are ignored,
   * and otherwise what `convert` returns.
   */
  function Converted(c: AdminModelConverter, ownModel: bool, model: SqlaModel, opts: FormOptions, name: string): Result<Option<Field>>
    reads c.base
  {
    match Find(model, opts.extraFields, name)
    case Err(e) => Err(e)
    case Ok(p) =>
      if opts.ignoreHidden && StartsWith(name, "_") then Ok(None)
      else
        var fieldArgs := if name in opts.fieldArgs then Some(opts.fieldArgs[name]) else None;
        c.Convert(ownModel, p, fieldArgs, opts.hiddenPk)
  }

  /** Whether a name listed in `only` becomes a field. */
  predicate MakesField(c: AdminModelConverter, ownModel: bool, model: SqlaModel, opts: FormOptions, name: string)
    reads c.base
  {
    Converted(c, ownModel, model, opts, name).Ok? && Converted(c, ownModel, model, opts, name).value.Some?
  }

  /** The loop over a sequence of items is the loop over a prefix followed by the loop over the rest. */
  lemma {:induction false} BuildSplit(c: AdminModelConverter, ownModel: bool, items: seq<(string, Result<FormProp>)>,
                                      opts: FormOptions, acc: seq<(string, Field)>, k: nat)
    requires k <= |items|
    ensures var first := Build(c, ownModel, items[..k], opts, acc);
            Build(c, ownModel, items, opts, acc) ==
              if first.Err? then Err(first.error) else Build(c, ownModel, items[k..], opts, first.value)
    decreases k
  {
    if k == 0 {
      assert items[..0] == [] && items[0..] == items;
    } else {
      assert items[..k][0] == items[0] && items[..k][1..] == items[1..][..k - 1];
      assert items[1..][k - 1..] == items[k..];
      var name := items[0].0;
      if items[0].1.Ok? && !(opts.ignoreHidden && StartsWith(name, "_")) {
        var fieldArgs := if name in opts.fieldArgs then Some(opts.fieldArgs[name]) else None;
        var conv := c.Convert(ownModel, items[0].1.value, fieldArgs, opts.hiddenPk);
        if conv.Ok? {
          var next := if conv.value.Some? then Assign(acc, name, conv.value.value) else acc;
          BuildSplit(c, ownModel, items[1..], opts, next, k - 1);
        }
      } else if items[0].1.Ok? {
        BuildSplit(c, ownModel, items[1..], opts, acc, k - 1);
      }
    }
  }

  /** The loop over the single item of a listed name. */
  lemma BuildListed(c: AdminModelConverter, ownModel: bool, model: SqlaModel, opts: FormOptions, name: string,
                    acc: seq<(string, Field)>)
    ensures var r := Converted(c, ownModel, model, opts, name);
            Build(c, ownModel, [(name, Find(model, opts.extraFields, name))], opts, acc) ==
              if r.Err? then Err(r.error) else if r.value.None? then Ok(acc) else Ok(Assign(acc, name, r.value.value))
  {
    assert [(name, Find(model, opts.extraFields, name))][1..] == [];
  }

  /** Removing a name keeps the others in their order. */
  lemma {:induction false} RemoveOrdered(fields: seq<(string, Field)>, name: string, s: seq<string>)
    requires OrderedByLast(fields, s)
    ensures OrderedByLast(Remove(fields, name), s)
    decreases |fields|
  {
    if fields != [] {
      var tail := fields[1..];
      assert OrderedByLast(tail, s) by {
        forall i, j | 0 <= i < j < |tail| ensures LastIndex(s, tail[i].0) < LastIndex(s, tail[j].0) {
          assert tail[i] == fields[i + 1] && tail[j] == fields[j + 1];
        }
      }
      RemoveOrdered(tail, name, s);
      var rest := Remove(tail, name);
      if fields[0].0 != name {
        assert Remove(fields, name) == [fields[0]] + rest;
        forall j | 0 <= j < |rest| ensures LastIndex(s, fields[0].0) < LastIndex(s, rest[j].0) {
          var m :| 0 <= m < |tail| && tail[m] == rest[j];
          assert fields[m + 1] == rest[j];
        }
      }
    }
  }

  /** One more listed name: its last position is the new end, the others' do not move. */
  lemma LastIndexSnoc(s: seq<string>, x: string, n: string)
    ensures LastIndex(s + [x], n) == if n == x then |s| else LastIndex(s, n)
  {
    assert (s + [x])[..|s|] == s;
  }

  /** What the field loop makes of each name listed in `only`. */
  function Outcomes(c: AdminModelConverter, ownModel: bool, model: SqlaModel, opts: FormOptions): (r: map<string, Result<Option<Field>>>)
    reads c.base
    requires opts.only.Some?
    ensures forall n :: n in opts.only.value ==> n in r && r[n] == Converted(c, ownModel, model, opts, n)
  {
    map n | n in opts.only.value :: Converted(c, ownModel, model, opts, n)
  }

  /**
   * Fields collected from the listed names `s`, given what each name makes:
   * exactly the names of `s` that make a field, each with its field, in the
   * order of their last positions in `s`.
   */
  ghost predicate Collected(fields: seq<(string, Field)>, s: seq<string>, out: map<string, Result<Option<Field>>>)
  {
    (forall n :: n in s ==> n in out)
    && (forall n :: n in Names(fields) <==> n in s && out[n].Ok? && out[n].value.Some?)
    && OrderedByLast(fields, s)
    && forall i :: 0 <= i < |fields| ==> fields[i].0 in out && out[fields[i].0] == Ok(Some(fields[i].1))
  }

  /** One more listed name that does not fail keeps the fields collected. */
  lemma CollectedStep(r0: seq<(string, Field)>, s0: seq<string>, x: string, out: map<string, Result<Option<Field>>>)
    requires Collected(r0, s0, out)
    requires x in out && out[x].Ok?
    ensures Collected(if out[x].value.Some? then Assign(r0, x, out[x].value.value) else r0, s0 + [x], out)
  {
    if out[x].value.Some? {
      var f := out[x].value.value;
      AssignOrdered(r0, s0, x, f);
      var r := Assign(r0, x, f);
      forall i | 0 <= i < |r| ensures r[i].0 in out && out[r[i].0] == Ok(Some(r[i].1)) {
        if i < |r| - 1 {
          var m :| 0 <= m < |r0| && r0[m] == r[i];
        }
      }
    } else {
      assert x !in Names(r0);
      SkipOrdered(r0, s0, x);
    }
  }

  /** A new field for a listed name goes last, behind the fields already collected. */
  lemma AssignOrdered(r0: seq<(string, Field)>, s0: seq<string>, x: string, f: Field)
    requires OrderedByLast(r0, s0)
    ensures OrderedByLast(Assign(r0, x, f), s0 + [x])
  {
    var s := s0 + [x];
    var kept := Remove(r0, x);
    var r := Assign(r0, x, f);
    assert r == kept + [(x, f)];
    RemoveOrdered(r0, x, s0);
    forall i | 0 <= i < |kept| ensures LastIndex(s, kept[i].0) == LastIndex(s0, kept[i].0) {
      LastIndexSnoc(s0, x, kept[i].0);
    }
    LastIndexSnoc(s0, x, x);
    forall i, j | 0 <= i < j < |r| ensures LastIndex(s, r[i].0) < LastIndex(s, r[j].0) {
      if j == |r| - 1 {
        assert r[i] == kept[i];
      } else {
        assert r[i] == kept[i] && r[j] == kept[j];
      }
    }
  }

  /** A listed name that makes no field leaves the collected fields in order. */
  lemma SkipOrdered(r0: seq<(string, Field)>, s0: seq<string>, x: string)
    requires OrderedByLast(r0, s0) && x !in Names(r0)
    ensures OrderedByLast(r0, s0 + [x])
  {
    forall i | 0 <= i < |r0| ensures LastIndex(s0 + [x], r0[i].0) == LastIndex(s0, r0[i].0) {
      assert r0[i].0 in Names(r0);
      LastIndexSnoc(s0, x, r0[i].0);
    }
  }

  /** The loop over the first k names of `only` is the loop over the first k - 1 and then the k-th. */
  lemma OnlyNext(c: AdminModelConverter, model: SqlaModel, opts: FormOptions, k: nat)
    requires Given(opts.only) && 0 < k <= |opts.only.value|
    ensures var own := c.view.model == model.name;
            var before := Build(c, own, Items(model, opts)[..k - 1], opts, []);
            var r := Outcomes(c, own, model, opts)[opts.only.value[k - 1]];
            Build(c, own, Items(model, opts)[..k], opts, []) ==
              if before.Err? then Err(before.error)
              else if r.Err? then Err(r.error)
              else if r.value.None? then before
              else Ok(Assign(before.value, opts.only.value[k - 1], r.value.value))
  {
    var own := c.view.model == model.name;
    var items := Items(model, opts);
    var x := opts.only.value[k - 1];
    BuildSplit(c, own, items[..k], opts, [], k - 1);
    assert items[..k][..k - 1] == items[..k - 1];
    assert items[..k][k - 1..] == [(x, Find(model, opts.extraFields, x))];
    var before := Build(c, own, items[..k - 1], opts, []);
    if before.Ok? {
      BuildListed(c, own, model, opts, x, before.value);
    }
  }

  /**
   * The loop over the first k names of `only`: it succeeds exactly when
   * none of them fails, and then it has collected their fields.
   */
  lemma {:induction false} OnlyPrefix(c: AdminModelConverter, model: SqlaModel, opts: FormOptions, k: nat)
    requires Given(opts.only) && k <= |opts.only.value|
    ensures var own := c.view.model == model.name;
            var built := Build(c, own, Items(model, opts)[..k], opts, []);
            var out := Outcomes(c, own, model, opts);
            (built.Ok? <==> forall n :: n in opts.only.value[..k] ==> out[n].Ok?)
            && (built.Ok? ==> Collected(built.value, opts.only.value[..k], out))
    decreases k
  {
    var own := c.view.model == model.name;
    var only := opts.only.value;
    if k == 0 {
      assert Items(model, opts)[..0] == [];
    } else {
      OnlyPrefix(c, model, opts, k - 1);
      OnlyNext(c, model, opts, k);
      assert only[..k] == only[..k - 1] + [only[k - 1]];
      CollectStep(Build(c, own, Items(model, opts)[..k - 1], opts, []), Build(c, own, Items(model, opts)[..k], opts, []),
                  only[..k - 1], only[k - 1], Outcomes(c, own, model, opts));
    }
  }

  /** One step of the loop over `only`, in terms of what each name makes. */
  lemma CollectStep(before: Result<seq<(string, Field)>>, built: Result<seq<(string, Field)>>, s0: seq<string>, x: string,
                    out: map<string, Result<Option<Field>>>)
    requires x in out && forall n :: n in s0 ==> n in out
    requires built == if before.Err? then Err(before.error)
                      else if out[x].Err? then Err(out[x].error)
                      else if out[x].value.None? then before
                      else Ok(Assign(before.value, x, out[x].value.value))
    requires before.Ok? <==> forall n :: n in s0 ==> out[n].Ok?
    requires before.Ok? ==> Collected(before.value, s0, out)
    ensures built.Ok? <==> forall n :: n in s0 + [x] ==> out[n].Ok?
    ensures built.Ok? ==> Collected(built.value, s0 + [x], out)
  {
    if before.Ok? && out[x].Ok? {
      CollectedStep(before.value, s0, x, out);
    }
  }

  /**
   * With `only`, `get_form` fails exactly when a listed name fails, and
   * otherwise the form's fields are exactly the listed names that make a
   * field (never a hidden one when hidden names are ignored), each with its
   * field, in the order of each name's last position in `only`.
   */
  lemma OnlyOrder(c: AdminModelConverter, model: SqlaModel, opts: FormOptions)
    requires Given(opts.only) && model.mapped
    ensures var own := c.view.model == model.name;
            var r := FormFor(c, model, opts);
            (r.Ok? <==> forall n :: n in opts.only.value ==> Converted(c, own, model, opts, n).Ok?)
            && (r.Ok? ==> r.value.name == model.name + "Form" && Collected(r.value.fields, opts.only.value, Outcomes(c, own, model, opts)))
  {
    var only := opts.only.value;
    OnlyPrefix(c, model, opts, |only|);
    assert only[..|only|] == only;
    assert Items(model, opts)[..|only|] == Items(model, opts);
  }

  /** With `only`, a name that is neither an extra field, a property nor a model attribute is a ValueError. */
  lemma OnlyUnknownName(c: AdminModelConverter, model: SqlaModel, opts: FormOptions, name: string)
    requires Given(opts.only) && name in opts.only.value
    requires name !in Names(opts.extraFields) && name !in model.attrs
    requires forall p :: p in model.props ==> p.key != name
    ensures FormFor(c, model, opts).Err?
  {
    if model.mapped {
      var items := Items(model, opts);
      var k :| 0 <= k < |opts.only.value| && opts.only.value[k] == name;
      assert name !in Names(KeyedProps(model.props));
      assert items[k].1.Err?;
      BuildFails(c, c.view.model == model.name, items, opts, [], k);
    }
  }

  /** Without `only`, every extra field ends up in the form, and each name appears once. */
  lemma ExtraFieldsAdded(c: AdminModelConverter, model: SqlaModel, opts: FormOptions)
    requires !Given(opts.only)
    requires FormFor(c, model, opts).Ok?
    ensures DistinctNames(FormFor(c, model, opts).value.fields)
    ensures Names(opts.extraFields) <= Names(FormFor(c, model, opts).value.fields)
  {
    var items := Items(model, opts);
    var ownModel := c.view.model == model.name;
    BuildNames(c, ownModel, items, opts, []);
    if opts.extraFields != [] {
      AddExtraNames(Build(c, ownModel, items, opts, []).value, opts.extraFields);
    }
  }

  /** The names a property of the model can contribute without `only`. */
  predicate Admitted(model: SqlaModel, opts: FormOptions, n: string)
  {
    n in Names(KeyedProps(model.props))
    && (opts.exclude.Some? ==> n !in opts.exclude.value)
    && !(opts.ignoreHidden && StartsWith(n, "_"))
  }

  lemma VisibleAdmitted(model: SqlaModel, opts: FormOptions)
    requires !Given(opts.only)
    ensures forall n :: n in Visible(Items(model, opts), opts.ignoreHidden) ==> Admitted(model, opts, n)
  {
    var items := Items(model, opts);
    forall n | n in Visible(items, opts.ignoreHidden) ensures Admitted(model, opts, n) {
      var k :| 0 <= k < |items| && !(opts.ignoreHidden && StartsWith(items[k].0, "_")) && items[k].0 == n;
      var j :| 0 <= j < |model.props| && model.props[j] == items[k].1.value.prop;
      assert KeyedProps(model.props)[j].0 == n;
    }
  }

  /**
   * Without `only`, every field is an extra field or a property that is not
   * excluded, and not hidden when hidden names are ignored.
   */
  lemma FieldsWithoutOnly(c: AdminModelConverter, model: SqlaModel, opts: FormOptions)
    requires !Given(opts.only)
    requires FormFor(c, model, opts).Ok?
    ensures forall n :: n in Names(FormFor(c, model, opts).value.fields) ==>
              n in Names(opts.extraFields) || Admitted(model, opts, n)
  {
    var items := Items(model, opts);
    var ownModel := c.view.model == model.name;
    BuildNames(c, ownModel, items, opts, []);
    VisibleAdmitted(model, opts);
    if opts.extraFields != [] {
      AddExtraNames(Build(c, ownModel, items, opts, []).value, opts.extraFields);
    }
  }
}
