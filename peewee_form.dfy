/**
 * lib/flask_admin/contrib/peewee/form.py: the inline model list, which
 * writes the child rows of a submitted form back (deleting, creating and
 * saving them), the converter overrides, extra form fields, and the
 * contribution of an inline list to a parent form. Peewee is not executed:
 * the database records the operations made on it.
 */
module PeeweeForm {
  import opened Wrappers
  import ModelFields
  import ModelForm

  /** A form field's data; a blank hidden primary key may be None. */
  type Data = Option<string>

  /** One inline row of the submitted form: its subform's field data, and the delete flag. */
  datatype Entry = Entry(form: seq<(string, Data)>, shouldDelete: bool)

  /** A stored child row: its primary key as `str(pk)`, the parent it points at, and its other attributes. */
  datatype ChildRow = ChildRow(id: string, relation: string, attrs: map<string, Data>)

  /** A child model about to be saved: its key (None for a new one), its forced relation, its attributes. */
  datatype ChildModel = ChildModel(id: Option<string>, relation: string, attrs: map<string, Data>)

  /** What `save_related` does to the database, in order. */
  datatype DbOp =
    | DeleteInstance(id: string)
    | OnModelChange(entry: nat, model: ChildModel)
    | Save(model: ChildModel)

  /** The database's operation log. */
  class Database {
    var log: seq<DbOp>

    constructor()
      ensures log == []
    {
      log := [];
    }
  }

  /** `get_pk()` of an entry: its primary key subfield's data; AttributeError without that subfield. */
  function EntryPk(e: Entry, pk: string): Result<Data>
  {
    ModelFields.FieldData(e.form, pk)
  }

  /** `display_row_controls(field)`: an entry shows row controls iff its primary key is not None. */
  function DisplayRowControls(e: Entry, pk: string): (r: Result<bool>)
    ensures r.Ok? <==> EntryPk(e, pk).Ok?
    ensures r.Ok? ==> (r.value <==> EntryPk(e, pk).value.Some?)
  {
    var id := EntryPk(e, pk);
    if id.Err? then Err(id.error) else Ok(id.value.Some?)
  }

  /** `pk_map`: the children pointing at the parent, keyed by `str(pk)`; a later row of a key wins. */
  function PkMap(rows: seq<ChildRow>, modelId: string): (r: map<string, ChildRow>)
    ensures forall id :: id in r ==> r[id] in rows && r[id].id == id && r[id].relation == modelId
    ensures forall i :: 0 <= i < |rows| && rows[i].relation == modelId ==> rows[i].id in r
  {
    if rows == [] then map[]
    else
      var m := PkMap(rows[..|rows| - 1], modelId);
      var last := rows[|rows| - 1];
      assert forall i :: 0 <= i < |rows| - 1 ==> rows[i] == rows[..|rows| - 1][i];
      if last.relation == modelId then m[last.id := last] else m
  }

  /** Whether an entry names an existing child. */
  predicate Matches(id: Data, pkMap: map<string, ChildRow>)
  {
    id.Some? && id.value in pkMap
  }

  /** The children pointing at `parentId`, in table order. */
  function ChildrenOf(rows: seq<ChildRow>, parentId: string): (r: seq<ChildRow>)
    ensures forall c :: c in r <==> c in rows && c.relation == parentId
    ensures |r| <= |rows|
  {
    if rows == [] then []
    else
      var last := rows[|rows| - 1];
      var before := ChildrenOf(rows[..|rows| - 1], parentId);
      assert rows == rows[..|rows| - 1] + [last];
      if last.relation == parentId then before + [last] else before
  }

  /**
   * `process(formdata, data)`: without form data the rows are loaded from
   * the children of the parent whose key `data` is (the `fa_` property
   * `contribute` puts on the parent model gives its key); with form data
   * there is nothing to load.
   */
  function ProcessData(formdata: set<string>, data: string, children: seq<ChildRow>): (r: Option<seq<ChildRow>>)
    ensures r.None? <==> |formdata| > 0
    ensures r.Some? ==> forall c :: c in r.value <==> c in children && c.relation == data
  {
    if |formdata| == 0 then Some(ChildrenOf(children, data)) else None
  }

  /** What one entry does: delete its child, or populate, relate, announce and save a child. */
  function EntryOps(e: Entry, index: nat, id: Data, pkMap: map<string, ChildRow>, pk: string,
                    modelId: string, defaults: map<string, Data>): seq<DbOp>
  {
    if Matches(id, pkMap) && e.shouldDelete then [DeleteInstance(id.value)]
    else
      var base := if Matches(id, pkMap) then pkMap[id.value].attrs else defaults;
      var model := ChildModel(if Matches(id, pkMap) then id else None, modelId,
                              ModelFields.CopyFields(base, e.form, pk));
      [OnModelChange(index, model), Save(model)]
  }

  /**
   * The operations `save_related` performs for the entries, and the error
   * that stops it (an entry without its primary key subfield); the
   * operations before the error are done.
   */
  function SaveOps(entries: seq<Entry>, pkMap: map<string, ChildRow>, pk: string, modelId: string,
                   defaults: map<string, Data>): (seq<DbOp>, Option<string>)
  {
    if entries == [] then ([], None)
    else
      var n := |entries| - 1;
      var prev := SaveOps(entries[..n], pkMap, pk, modelId, defaults);
      if prev.1.Some? then prev
      else
        var id := EntryPk(entries[n], pk);
        if id.Err? then (prev.0, Some(id.error))
        else (prev.0 + EntryOps(entries[n], n, id.value, pkMap, pk, modelId, defaults), None)
  }

  class InlineModelFormList {
    const pk: string                 // _pk
    const prop: string               // the child's relation to the parent
    const defaults: map<string, Data> // the attributes of a fresh `self.model()`
    var entries: seq<Entry>

    constructor(pk: string, prop: string, defaults: map<string, Data>, entries: seq<Entry>)
      ensures this.pk == pk && this.prop == prop && this.defaults == defaults && this.entries == entries
    {
      this.pk := pk;
      this.prop := prop;
      this.defaults := defaults;
      this.entries := entries;
    }

    /**
     * `save_related(obj)`: `modelId` is the parent's primary key and
     * `children` the child table; the operations are appended to `db`.
     */
    method SaveRelated(modelId: string, children: seq<ChildRow>, db: Database) returns (r: Result<()>)
      modifies db
      ensures var (ops, err) := SaveOps(entries, PkMap(children, modelId), pk, modelId, defaults);
              db.log == old(db.log) + ops && (r.Err? <==> err.Some?) && (r.Err? ==> r.error == err.value)
    {
      var pkMap := PkMap(children, modelId);
      for i := 0 to |entries|
        invariant SaveOps(entries[..i], pkMap, pk, modelId, defaults).1.None?
        invariant db.log == old(db.log) + SaveOps(entries[..i], pkMap, pk, modelId, defaults).0
      {
        var field := entries[i];
        var fieldId := EntryPk(field, pk);
        if fieldId.Err? {
          SaveOpsStops(entries, pkMap, pk, modelId, defaults, i + 1);
          return Err(fieldId.error);
        }
        SaveOpsStep(entries, pkMap, pk, modelId, defaults, i);
        ghost var expected := EntryOps(field, i, fieldId.value, pkMap, pk, modelId, defaults);
        var model: ChildModel;
        if Matches(fieldId.value, pkMap) {
          var existing := pkMap[fieldId.value.value];
          if field.shouldDelete {
            assert expected == [DeleteInstance(fieldId.value.value)];
            db.log := db.log + [DeleteInstance(fieldId.value.value)];
            continue;
          }
          model := ChildModel(fieldId.value, modelId, existing.attrs);
        } else {
          model := ChildModel(None, modelId, defaults);
        }
        var attrs := PopulateChild(model.attrs, field.form, pk);
        model := model.(attrs := attrs);
        assert expected == [OnModelChange(i, model), Save(model)];
        db.log := db.log + [OnModelChange(i, model), Save(model)];
      }
      assert entries[..|entries|] == entries;
      return Ok(());
    }
  }

  /** One more entry whose primary key subfield is readable adds its operations. */
  lemma SaveOpsStep(entries: seq<Entry>, pkMap: map<string, ChildRow>, pk: string, modelId: string,
                    defaults: map<string, Data>, i: nat)
    requires i < |entries| && SaveOps(entries[..i], pkMap, pk, modelId, defaults).1.None?
    requires EntryPk(entries[i], pk).Ok?
    ensures SaveOps(entries[..i + 1], pkMap, pk, modelId, defaults)
            == (SaveOps(entries[..i], pkMap, pk, modelId, defaults).0
                + EntryOps(entries[i], i, EntryPk(entries[i], pk).value, pkMap, pk, modelId, defaults), None)
  {
    assert entries[..i + 1][..i] == entries[..i];
  }

  /** `field.populate_obj(model, None)`: the entry's subfields except the primary key, in order. */
  method PopulateChild(attrs: map<string, Data>, form: seq<(string, Data)>, pk: string) returns (r: map<string, Data>)
    ensures r == ModelFields.CopyFields(attrs, form, pk)
  {
    r := attrs;
    for i := 0 to |form|
      invariant r == ModelFields.CopyFields(attrs, form[..i], pk)
    {
      assert form[..i + 1][..i] == form[..i];
      if form[i].0 != pk {
        r := r[form[i].0 := form[i].1];
      }
    }
    assert form[..|form|] == form;
  }

  /** Once an entry has raised, the later entries change nothing. */
  lemma {:induction false} SaveOpsStops(entries: seq<Entry>, pkMap: map<string, ChildRow>, pk: string, modelId: string,
                                        defaults: map<string, Data>, n: nat)
    requires 0 < n <= |entries|
    requires SaveOps(entries[..n - 1], pkMap, pk, modelId, defaults).1.None?
    requires EntryPk(entries[n - 1], pk).Err?
    ensures SaveOps(entries, pkMap, pk, modelId, defaults).1 == Some(EntryPk(entries[n - 1], pk).error)
    ensures SaveOps(entries, pkMap, pk, modelId, defaults).0 == SaveOps(entries[..n - 1], pkMap, pk, modelId, defaults).0
  {
    if n < |entries| {
      var init := entries[..|entries| - 1];
      assert init[..n - 1] == entries[..n - 1];
      SaveOpsStops(init, pkMap, pk, modelId, defaults, n);
    } else {
      assert entries[..n] == entries;
    }
  }

  /** The operations of a prefix of the entries begin the operations of all of them. */
  lemma {:induction false} SaveOpsPrefix(entries: seq<Entry>, pkMap: map<string, ChildRow>, pk: string, modelId: string,
                                         defaults: map<string, Data>, n: nat)
    requires n <= |entries|
    ensures |Performed(entries[..n], pkMap, pk, modelId, defaults)| <= |Performed(entries, pkMap, pk, modelId, defaults)|
    ensures Performed(entries, pkMap, pk, modelId, defaults)[..|Performed(entries[..n], pkMap, pk, modelId, defaults)|]
            == Performed(entries[..n], pkMap, pk, modelId, defaults)
  {
    if n < |entries| {
      var init := entries[..|entries| - 1];
      assert init[..n] == entries[..n];
      SaveOpsPrefix(init, pkMap, pk, modelId, defaults, n);
    } else {
      assert entries[..n] == entries;
    }
  }

  /** The operations `save_related` performs, up to the error if one is raised. */
  function Performed(entries: seq<Entry>, pkMap: map<string, ChildRow>, pk: string, modelId: string,
                     defaults: map<string, Data>): seq<DbOp>
  {
    SaveOps(entries, pkMap, pk, modelId, defaults).0
  }

  /** An operation `save_related` performs on behalf of entry `e`. */
  ghost predicate OpOf(op: DbOp, e: Entry, pkMap: map<string, ChildRow>, pk: string, modelId: string)
  {
    match op
    case DeleteInstance(id) => id in pkMap && e.shouldDelete && EntryPk(e, pk) == Ok(Some(id))
    case OnModelChange(_, m) =>
      m.relation == modelId && (m.id.Some? ==> m.id.value in pkMap && !e.shouldDelete && EntryPk(e, pk) == Ok(m.id))
    case Save(m) =>
      m.relation == modelId && (m.id.Some? ==> m.id.value in pkMap && !e.shouldDelete && EntryPk(e, pk) == Ok(m.id))
  }

  /** An operation performed on behalf of one of the entries. */
  ghost predicate FromEntry(op: DbOp, entries: seq<Entry>, pkMap: map<string, ChildRow>, pk: string, modelId: string)
  {
    exists i :: 0 <= i < |entries| && OpOf(op, entries[i], pkMap, pk, modelId)
  }

  lemma EntryOpsOf(e: Entry, index: nat, pkMap: map<string, ChildRow>, pk: string, modelId: string, defaults: map<string, Data>)
    requires EntryPk(e, pk).Ok?
    ensures forall op :: op in EntryOps(e, index, EntryPk(e, pk).value, pkMap, pk, modelId, defaults) ==>
              OpOf(op, e, pkMap, pk, modelId)
    ensures (exists id :: EntryOps(e, index, EntryPk(e, pk).value, pkMap, pk, modelId, defaults) == [DeleteInstance(id)])
            || exists m :: EntryOps(e, index, EntryPk(e, pk).value, pkMap, pk, modelId, defaults) == [OnModelChange(index, m), Save(m)]
  {
    var id := EntryPk(e, pk).value;
    var ops := EntryOps(e, index, id, pkMap, pk, modelId, defaults);
    if Matches(id, pkMap) && e.shouldDelete {
      assert ops == [DeleteInstance(id.value)];
      assert OpOf(ops[0], e, pkMap, pk, modelId);
    } else {
      var m := ops[0].model;
      assert ops == [OnModelChange(index, m), Save(m)];
      assert m.relation == modelId;
      assert m.id.Some? ==> Matches(id, pkMap) && m.id == id;
      assert OpOf(ops[0], e, pkMap, pk, modelId) && OpOf(ops[1], e, pkMap, pk, modelId);
    }
  }

  /**
   * Every deletion is of an existing child an entry marks for deletion;
   * every saved child points at the parent, comes right after the
   * `on_model_change` of the same model, and, when it is an existing
   * child, is one an unmarked entry names. So existing children no entry
   * names are never touched.
   */
  lemma {:induction false} SaveOpsSpec(entries: seq<Entry>, pkMap: map<string, ChildRow>, pk: string, modelId: string,
                                       defaults: map<string, Data>)
    ensures forall k :: 0 <= k < |Performed(entries, pkMap, pk, modelId, defaults)| ==>
              FromEntry(Performed(entries, pkMap, pk, modelId, defaults)[k], entries, pkMap, pk, modelId)
    ensures forall k :: 0 <= k < |Performed(entries, pkMap, pk, modelId, defaults)|
                        && Performed(entries, pkMap, pk, modelId, defaults)[k].Save? ==>
              k > 0 && Performed(entries, pkMap, pk, modelId, defaults)[k - 1].OnModelChange?
              && Performed(entries, pkMap, pk, modelId, defaults)[k - 1].model
                 == Performed(entries, pkMap, pk, modelId, defaults)[k].model
  {
    SaveOpsFromEntries(entries, pkMap, pk, modelId, defaults);
    SaveOpsPaired(entries, pkMap, pk, modelId, defaults);
  }

  lemma {:induction false} SaveOpsFromEntries(entries: seq<Entry>, pkMap: map<string, ChildRow>, pk: string, modelId: string,
                                              defaults: map<string, Data>)
    ensures forall k :: 0 <= k < |Performed(entries, pkMap, pk, modelId, defaults)| ==>
              FromEntry(Performed(entries, pkMap, pk, modelId, defaults)[k], entries, pkMap, pk, modelId)
  {
    if entries != [] {
      var n := |entries| - 1;
      var init := entries[..n];
      SaveOpsFromEntries(init, pkMap, pk, modelId, defaults);
      var pre := Performed(init, pkMap, pk, modelId, defaults);
      var ops := Performed(entries, pkMap, pk, modelId, defaults);
      forall k | 0 <= k < |pre|
        ensures FromEntry(pre[k], entries, pkMap, pk, modelId)
      {
        var i :| 0 <= i < |init| && OpOf(pre[k], init[i], pkMap, pk, modelId);
        assert entries[i] == init[i];
      }
      if SaveOps(init, pkMap, pk, modelId, defaults).1.None? && EntryPk(entries[n], pk).Ok? {
        var tail := EntryOps(entries[n], n, EntryPk(entries[n], pk).value, pkMap, pk, modelId, defaults);
        assert ops == pre + tail;
        EntryOpsOf(entries[n], n, pkMap, pk, modelId, defaults);
        forall k | 0 <= k < |ops|
          ensures FromEntry(ops[k], entries, pkMap, pk, modelId)
        {
          if k < |pre| {
            assert ops[k] == pre[k];
          } else {
            assert ops[k] in tail;
          }
        }
      } else {
        assert ops == pre;
      }
    }
  }

  lemma {:induction false} SaveOpsPaired(entries: seq<Entry>, pkMap: map<string, ChildRow>, pk: string, modelId: string,
                                         defaults: map<string, Data>)
    ensures forall k :: 0 <= k < |Performed(entries, pkMap, pk, modelId, defaults)|
                        && Performed(entries, pkMap, pk, modelId, defaults)[k].Save? ==>
              k > 0 && Performed(entries, pkMap, pk, modelId, defaults)[k - 1].OnModelChange?
              && Performed(entries, pkMap, pk, modelId, defaults)[k - 1].model
                 == Performed(entries, pkMap, pk, modelId, defaults)[k].model
  {
    if entries != [] {
      var n := |entries| - 1;
      var init := entries[..n];
      SaveOpsPaired(init, pkMap, pk, modelId, defaults);
      var pre := Performed(init, pkMap, pk, modelId, defaults);
      var ops := Performed(entries, pkMap, pk, modelId, defaults);
      if SaveOps(init, pkMap, pk, modelId, defaults).1.None? && EntryPk(entries[n], pk).Ok? {
        var tail := EntryOps(entries[n], n, EntryPk(entries[n], pk).value, pkMap, pk, modelId, defaults);
        assert ops == pre + tail;
        EntryOpsOf(entries[n], n, pkMap, pk, modelId, defaults);
        forall k | 0 <= k < |ops| && ops[k].Save?
          ensures k > 0 && ops[k - 1].OnModelChange? && ops[k - 1].model == ops[k].model
        {
          if k < |pre| {
            assert ops[k] == pre[k] && ops[k - 1] == pre[k - 1];
          } else {
            assert ops[k] == tail[k - |pre|];
            assert k - |pre| == 1 && ops[k - 1] == tail[0];
          }
        }
      } else {
        assert ops == pre;
      }
    }
  }

  /**
   * An entry that names no existing child is saved as a new child, even
   * when it is marked for deletion, with the subform's data over the
   * defaults; one that names a child and is marked deletes that child.
   */
  lemma EntryOutcome(entries: seq<Entry>, pkMap: map<string, ChildRow>, pk: string, modelId: string,
                     defaults: map<string, Data>, i: nat)
    requires i < |entries| && SaveOps(entries[..i + 1], pkMap, pk, modelId, defaults).1.None?
    ensures EntryPk(entries[i], pk).Ok?
    ensures !Matches(EntryPk(entries[i], pk).value, pkMap) ==>
              Save(ChildModel(None, modelId, ModelFields.CopyFields(defaults, entries[i].form, pk)))
                in Performed(entries, pkMap, pk, modelId, defaults)
    ensures Matches(EntryPk(entries[i], pk).value, pkMap) && entries[i].shouldDelete ==>
              DeleteInstance(EntryPk(entries[i], pk).value.value) in Performed(entries, pkMap, pk, modelId, defaults)
  {
    var pre := entries[..i + 1];
    assert pre[..i] == entries[..i];
    var before := SaveOps(entries[..i], pkMap, pk, modelId, defaults);
    assert before.1.None? && EntryPk(entries[i], pk).Ok?;
    var id := EntryPk(entries[i], pk).value;
    var tail := EntryOps(entries[i], i, id, pkMap, pk, modelId, defaults);
    var preOps := Performed(pre, pkMap, pk, modelId, defaults);
    assert preOps == before.0 + tail;
    SaveOpsPrefix(entries, pkMap, pk, modelId, defaults, i + 1);
    var ops := Performed(entries, pkMap, pk, modelId, defaults);
    assert ops[|preOps| - 1] == tail[|tail| - 1];
  }

  // ---------------------------------------------------------------------
  // CustomModelConverter and get_form

  /** The peewee field classes the converter overrides. */
  datatype PeeweeType = PrimaryKeyField | DateTimeField | DateField | TimeField | ForeignKeyField | OtherType(name: string)

  /** The wtforms field a handler builds, with the keyword arguments it passes. */
  datatype FormField =
    | HiddenField(validators: seq<string>)
    | WtfDateField(widget: string, validators: seq<string>)
    | WtfDateTimeField(widget: string, validators: seq<string>)
    | AdminTimeField(validators: seq<string>)

  /**
   * The handlers `CustomModelConverter` registers: a `(name, field)` pair
   * for the four overridden classes; None means the converter it extends
   * decides, which is not part of this model.
   */
  function Convert(t: PeeweeType, name: string, validators: seq<string>): (r: Option<(string, FormField)>)
    ensures r.Some? <==> t.PrimaryKeyField? || t.DateTimeField? || t.DateField? || t.TimeField?
    ensures r.Some? ==> r.value.0 == name
    ensures t.PrimaryKeyField? ==> r == Some((name, HiddenField([])))
  {
    match t
    case PrimaryKeyField => Some((name, HiddenField([])))
    case DateField => Some((name, WtfDateField("DatePickerWidget", validators)))
    case DateTimeField => Some((name, WtfDateTimeField("DateTimePickerWidget", validators)))
    case TimeField => Some((name, AdminTimeField(validators)))
    case _ => None
  }

  /** Only the primary key handler drops the validators; the others keep them. */
  lemma ConvertKeepsValidators(t: PeeweeType, name: string, validators: seq<string>)
    requires Convert(t, name, validators).Some? && !t.PrimaryKeyField?
    ensures Convert(t, name, validators).value.1.validators == validators
  {
  }

  /** `get_form`: each extra field is set on the generated form class, replacing a generated field of that name. */
  function WithExtraFields<F>(generated: map<string, F>, extra: map<string, F>): (r: map<string, F>)
    ensures r.Keys == generated.Keys + extra.Keys
    ensures forall k :: k in extra ==> r[k] == extra[k]
    ensures forall k :: k in generated && k !in extra ==> r[k] == generated[k]
  {
    generated + extra
  }

  // ---------------------------------------------------------------------
  // InlineModelConverter.contribute

  /** A field of the inline model: its name, its class and, for a foreign key, the model it points at. */
  datatype ModelFieldInfo = ModelFieldInfo(name: string, fieldType: PeeweeType, relModel: string)

  /** The first foreign key of the inline model pointing at the parent; none raises. */
  function ReverseField(fields: seq<ModelFieldInfo>, parent: string, inlineModel: string): (r: Result<ModelFieldInfo>)
    ensures r.Ok? <==> exists i :: 0 <= i < |fields| && fields[i].fieldType.ForeignKeyField? && fields[i].relModel == parent
    ensures r.Ok? ==> exists i :: 0 <= i < |fields| && fields[i] == r.value
                                && r.value.fieldType.ForeignKeyField? && r.value.relModel == parent
                                && forall j :: 0 <= j < i ==> !(fields[j].fieldType.ForeignKeyField? && fields[j].relModel == parent)
    ensures r.Err? ==> r.error == "Cannot find reverse relation for model " + inlineModel
  {
    if fields == [] then Err("Cannot find reverse relation for model " + inlineModel)
    else if fields[0].fieldType.ForeignKeyField? && fields[0].relModel == parent then Ok(fields[0])
    else
      var rest := ReverseField(fields[1..], parent, inlineModel);
      assert forall i :: 1 <= i < |fields| ==> fields[i] == fields[1..][i - 1];
      if rest.Ok? then
        assert exists i :: 1 <= i < |fields| && fields[i] == rest.value
                           && forall j :: 1 <= j < i ==> !(fields[j].fieldType.ForeignKeyField? && fields[j].relModel == parent);
        rest
      else rest
  }

  /** The inline list `contribute` sets on the parent form class. */
  datatype InlineList = InlineList(childModel: string, prop: string, exclude: seq<string>, caption: ModelForm.AttrValue)

  /** An inline model to contribute: how it was declared, and its fields. */
  datatype InlineModel = InlineModel(spec: ModelForm.InlineSpec, fields: seq<ModelFieldInfo>)

  /** Peewee's `get_info`: a model class gets default inline settings. */
  function PeeweeInfo(spec: ModelForm.InlineSpec): (r: ModelForm.InlineFormAdmin)
    ensures spec.ModelClass? ==> r == ModelForm.NewInlineFormAdmin(spec.model, map[], map[])
    ensures !spec.ModelClass? ==> Some(r) == ModelForm.GetInfo(spec)
  {
    match spec
    case ModelClass(model) => ModelForm.NewInlineFormAdmin(model, map[], map[])
    case _ => ModelForm.GetInfo(spec).value
  }

  /** The columns the child form leaves out: the reverse field, then the configured exclusions. */
  function Excluded(info: ModelForm.InlineFormAdmin, reverse: string): (r: seq<string>)
    ensures |r| >= 1 && r[0] == reverse
  {
    var configured := if "form_excluded_columns" in info.attrs then info.attrs["form_excluded_columns"] else ModelForm.NoneValue;
    if configured.Names? && configured.Truthy() then [reverse] + configured.names else [reverse]
  }

  /** The form attribute name `contribute` uses for an inline list of the parent: `'fa_%s' % model.__name__`. */
  function PropName(parent: string): string
  {
    "fa_" + parent
  }

  /** `contribute(converter, model, form_class, inline_model)` on the form class's attributes. */
  function Contribute(parent: string, form: map<string, InlineList>, inline: InlineModel,
                      columnLabels: Option<map<string, string>>): (r: Result<map<string, InlineList>>)
    ensures r.Ok? ==> r.value.Keys == form.Keys + {PropName(parent)}
    ensures r.Ok? ==> forall k :: k in form && k != PropName(parent) ==> r.value[k] == form[k]
  {
    var info := PeeweeInfo(inline.spec);
    var reverse := ReverseField(inline.fields, parent, info.model);
    if reverse.Err? then Err(reverse.error)
    else
      var propName := PropName(parent);
      var given := ModelForm.GetLabel(info, propName, columnLabels);
      var text := if given.Some? && given.value.Truthy() then given.value else ModelForm.Str(info.model);
      Ok(form[propName := InlineList(info.model, reverse.value.name, Excluded(info, reverse.value.name), text)])
  }

  /** Contributing each inline model of a view in turn, as the form scaffolding does. */
  function ContributeAll(parent: string, form: map<string, InlineList>, inlines: seq<InlineModel>,
                         columnLabels: Option<map<string, string>>): Result<map<string, InlineList>>
  {
    if inlines == [] then Ok(form)
    else
      var before := ContributeAll(parent, form, inlines[..|inlines| - 1], columnLabels);
      if before.Err? then before
      else Contribute(parent, before.value, inlines[|inlines| - 1], columnLabels)
  }

  /**
   * As written, two inline models of one parent get the same attribute
   * name, so the second replaces the first and only one inline list is
   * left on the form.
   */
  lemma InlineNameCollision(parent: string, a: InlineModel, b: InlineModel)
    requires a.spec == ModelForm.ModelClass("Comment") && b.spec == ModelForm.ModelClass("Tag")
    requires a.fields == [ModelFieldInfo("post", ForeignKeyField, parent)]
    requires b.fields == [ModelFieldInfo("post", ForeignKeyField, parent)]
    ensures var r := ContributeAll(parent, map[], [a, b], None);
            r.Ok? && r.value.Keys == {PropName(parent)} && r.value[PropName(parent)].childModel == "Tag"
  {
    assert [a, b][..1] == [a];
    assert [a][..0] == [];
    assert ReverseField(a.fields, parent, "Comment") == Ok(a.fields[0]);
    assert ReverseField(b.fields, parent, "Tag") == Ok(b.fields[0]);
    var first := Contribute(parent, map[], a, None);
    assert ContributeAll(parent, map[], [a], None) == first;
    assert first.Ok?;
    var second := Contribute(parent, first.value, b, None);
    assert ContributeAll(parent, map[], [a, b], None) == second;
  }

  /** The attribute name the inline list evidently should get: one per inline model. */
  function InlinePropName(parent: string, child: string): (r: string)
    ensures |r| == |child| + 3 + |parent| + 1 && r[3 + |parent| + 1..] == child
  {
    "fa_" + parent + "_" + child
  }

  /** `contribute` with the attribute named after both models. */
  function ContributeFixed(parent: string, form: map<string, InlineList>, inline: InlineModel,
                           columnLabels: Option<map<string, string>>): (r: Result<map<string, InlineList>>)
    ensures r.Ok? ==> var name := InlinePropName(parent, PeeweeInfo(inline.spec).model);
                      r.value.Keys == form.Keys + {name}
                      && r.value[name].childModel == PeeweeInfo(inline.spec).model
                      && forall k :: k in form && k != name ==> r.value[k] == form[k]
  {
    var info := PeeweeInfo(inline.spec);
    var reverse := ReverseField(inline.fields, parent, info.model);
    if reverse.Err? then Err(reverse.error)
    else
      var propName := InlinePropName(parent, info.model);
      var given := ModelForm.GetLabel(info, propName, columnLabels);
      var text := if given.Some? && given.value.Truthy() then given.value else ModelForm.Str(info.model);
      Ok(form[propName := InlineList(info.model, reverse.value.name, Excluded(info, reverse.value.name), text)])
  }

  function ContributeAllFixed(parent: string, form: map<string, InlineList>, inlines: seq<InlineModel>,
                              columnLabels: Option<map<string, string>>): Result<map<string, InlineList>>
  {
    if inlines == [] then Ok(form)
    else
      var before := ContributeAllFixed(parent, form, inlines[..|inlines| - 1], columnLabels);
      if before.Err? then before
      else ContributeFixed(parent, before.value, inlines[|inlines| - 1], columnLabels)
  }

  lemma InlinePropNameInjective(parent: string, a: string, b: string)
    ensures InlinePropName(parent, a) == InlinePropName(parent, b) <==> a == b
  {
    if InlinePropName(parent, a) == InlinePropName(parent, b) {
      assert a == InlinePropName(parent, a)[3 + |parent| + 1..];
    }
  }

  /** No two inline models share a class name. */
  predicate DistinctModels(inlines: seq<InlineModel>)
  {
    forall i, j :: 0 <= i < j < |inlines| ==> PeeweeInfo(inlines[i].spec).model != PeeweeInfo(inlines[j].spec).model
  }

  /** Every inline model of `inlines` has its own inline list in `form`. */
  predicate KeepsEach(parent: string, form: map<string, InlineList>, inlines: seq<InlineModel>)
  {
    forall i :: 0 <= i < |inlines| ==>
      var name := InlinePropName(parent, PeeweeInfo(inlines[i].spec).model);
      name in form && form[name].childModel == PeeweeInfo(inlines[i].spec).model
  }

  /** Adding the last inline model's list under its own name keeps the lists of the earlier ones. */
  lemma KeepsEachSnoc(parent: string, before: map<string, InlineList>, after: map<string, InlineList>,
                      inlines: seq<InlineModel>)
    requires inlines != []
    requires DistinctModels(inlines)
    requires KeepsEach(parent, before, inlines[..|inlines| - 1])
    requires var last := PeeweeInfo(inlines[|inlines| - 1].spec).model;
             var name := InlinePropName(parent, last);
             after.Keys == before.Keys + {name} && after[name].childModel == last
             && forall k :: k in before && k != name ==> after[k] == before[k]
    ensures KeepsEach(parent, after, inlines)
  {
    var n := |inlines| - 1;
    var init := inlines[..n];
    var last := PeeweeInfo(inlines[n].spec).model;
    forall i | 0 <= i < |inlines|
      ensures var name := InlinePropName(parent, PeeweeInfo(inlines[i].spec).model);
              name in after && after[name].childModel == PeeweeInfo(inlines[i].spec).model
    {
      if i < n {
        assert init[i] == inlines[i];
        InlinePropNameInjective(parent, PeeweeInfo(inlines[i].spec).model, last);
      }
    }
  }

  /**
   * With the fix, every inline model (of distinct names) keeps its own
   * inline list on the form, whatever the form held before under other names.
   */
  lemma {:induction false} ContributeAllKeepsEach(parent: string, form: map<string, InlineList>, inlines: seq<InlineModel>,
                                                  columnLabels: Option<map<string, string>>)
    requires DistinctModels(inlines)
    ensures var r := ContributeAllFixed(parent, form, inlines, columnLabels);
            r.Ok? ==> KeepsEach(parent, r.value, inlines)
  {
    var r := ContributeAllFixed(parent, form, inlines, columnLabels);
    if inlines != [] && r.Ok? {
      var n := |inlines| - 1;
      var init := inlines[..n];
      assert DistinctModels(init) by {
        assert forall i :: 0 <= i < |init| ==> init[i] == inlines[i];
      }
      ContributeAllKeepsEach(parent, form, init, columnLabels);
      var before := ContributeAllFixed(parent, form, init, columnLabels);
      var c := ContributeFixed(parent, before.value, inlines[n], columnLabels);
      assert r == c;
      KeepsEachSnoc(parent, before.value, c.value, inlines);
    }
  }
}
