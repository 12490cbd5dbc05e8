/**
 * lib/flask_admin/contrib/mongoengine/view.py: the MongoEngine model view's
 * column scaffolding, its search set-up, the query plan of `get_list`, its
 * action permission and the count `action_delete` reports. Queries are the
 * logs of the calls made on them (module QueryLog); nothing is executed.
 */
module MongoView {
  import opened Wrappers
  import QueryLog
  import Sorting
  import MongoFilters
  import ModelBase

  type Query = QueryLog.Query

  /** The exact class of a MongoEngine field; `OtherField` is any class not named here, subclasses included. */
  datatype FieldType =
    | StringField | IntField | FloatField | BooleanField | DateTimeField | ComplexDateTimeField
    | ObjectIdField | DecimalField | ReferenceField | EmailField | UUIDField | URLField
    | EmbeddedDocumentField
    | ListField(inner: FieldType)
    | OtherField(className: string)

  /** An entry of `model._fields`. */
  datatype ModelField = ModelField(name: string, fieldType: FieldType, creationCounter: int)

  /** The primary key MongoEngine documents predefine (`scaffold_pk`). */
  const PrimaryKey: string := "id"

  /** What the view is configured with and what its document declares. */
  datatype ViewConfig = ViewConfig(
    fields: seq<ModelField>,                  // model._fields, in dict order
    displayPk: bool,                          // column_display_pk
    searchable: seq<string>,                  // column_searchable_list
    filters: seq<MongoFilters.Filter>,        // _filters
    defaultOrder: Option<(string, bool)>,     // _get_default_order()
    pageSize: int,
    canDelete: bool,
    disallowedActions: seq<string>)           // action_disallowed_list

  /** Orders fields by `creation_counter`. */
  predicate CounterLe(a: ModelField, b: ModelField)
  {
    a.creationCounter <= b.creationCounter
  }

  /** `_get_model_fields`: the document's fields, stably sorted by creation counter. */
  function ModelFields(fields: seq<ModelField>): (r: seq<ModelField>)
    ensures multiset(r) == multiset(fields)
  {
    Sorting.SortBy(fields, CounterLe)
  }

  lemma ModelFieldsSorted(fields: seq<ModelField>)
    ensures Sorting.Sorted(ModelFields(fields), CounterLe)
  {
    Sorting.SortBySorted(fields, CounterLe);
  }

  function Names(fields: seq<ModelField>): (r: seq<string>)
    ensures |r| == |fields| && forall i :: 0 <= i < |fields| ==> r[i] == fields[i].name
  {
    seq(|fields|, i requires 0 <= i < |fields| => fields[i].name)
  }

  // ---------------------------------------------------------------------
  // scaffold_list_columns

  /** Whether `scaffold_list_columns` lists a field. */
  predicate Listed(f: ModelField, displayPk: bool)
  {
    !(f.fieldType.ListField? && f.fieldType.inner == EmbeddedDocumentField)
    && f.fieldType != EmbeddedDocumentField
    && (displayPk || f.fieldType != ObjectIdField)
  }

  function ListedFields(fields: seq<ModelField>, displayPk: bool): (r: seq<ModelField>)
    ensures |r| <= |fields|
  {
    if fields == [] then []
    else
      var last := fields[|fields| - 1];
      ListedFields(fields[..|fields| - 1], displayPk) + (if Listed(last, displayPk) then [last] else [])
  }

  /** A field is listed iff it is one of the fields and `Listed` accepts it. */
  lemma {:induction false} ListedFieldsMembership(fields: seq<ModelField>, displayPk: bool, f: ModelField)
    ensures f in ListedFields(fields, displayPk) <==> f in fields && Listed(f, displayPk)
  {
    if fields != [] {
      var init := fields[..|fields| - 1];
      ListedFieldsMembership(init, displayPk, f);
      assert fields == init + [fields[|fields| - 1]];
    }
  }

  /** Listing keeps the order it is given: from counter-sorted fields, the columns come in counter order. */
  lemma {:induction false} ListedFieldsSorted(fields: seq<ModelField>, displayPk: bool)
    requires Sorting.Sorted(fields, CounterLe)
    ensures Sorting.Sorted(ListedFields(fields, displayPk), CounterLe)
  {
    if fields != [] {
      var init := fields[..|fields| - 1];
      var last := fields[|fields| - 1];
      ListedFieldsSorted(init, displayPk);
      var r := ListedFields(fields, displayPk);
      var before := ListedFields(init, displayPk);
      forall i | 0 <= i < |before|
        ensures CounterLe(before[i], last)
      {
        ListedFieldsMembership(init, displayPk, before[i]);
        var k :| 0 <= k < |init| && init[k] == before[i];
        assert fields[k] == init[k];
      }
    }
  }

  /** An embedded document, a list of them, or (without `column_display_pk`) an ObjectId is never a column. */
  lemma ListedExcludes(f: ModelField, displayPk: bool)
    ensures f.fieldType == EmbeddedDocumentField ==> !Listed(f, displayPk)
    ensures f.fieldType == ListField(EmbeddedDocumentField) ==> !Listed(f, displayPk)
    ensures f.fieldType == ObjectIdField ==> (Listed(f, displayPk) <==> displayPk)
  {
  }

  // ---------------------------------------------------------------------
  // scaffold_sortable_columns

  /** `type(f) in SORTABLE_FIELDS` */
  predicate SortableType(t: FieldType)
  {
    t.StringField? || t.IntField? || t.FloatField? || t.BooleanField? || t.DateTimeField?
    || t.ComplexDateTimeField? || t.ObjectIdField? || t.DecimalField? || t.ReferenceField?
    || t.EmailField? || t.UUIDField? || t.URLField?
  }

  predicate Sortable(f: ModelField, displayPk: bool)
  {
    SortableType(f.fieldType) && (displayPk || f.fieldType != ObjectIdField)
  }

  function SortableMap(fields: seq<ModelField>, displayPk: bool): map<string, ModelField>
  {
    if fields == [] then map[]
    else
      var m := SortableMap(fields[..|fields| - 1], displayPk);
      var last := fields[|fields| - 1];
      if Sortable(last, displayPk) then m[last.name := last] else m
  }

  /** A name is sortable iff some field of that name is; its entry is a sortable field of that name. */
  lemma {:induction false} SortableMapSpec(fields: seq<ModelField>, displayPk: bool, n: string)
    ensures n in SortableMap(fields, displayPk) <==>
              exists i :: 0 <= i < |fields| && fields[i].name == n && Sortable(fields[i], displayPk)
    ensures n in SortableMap(fields, displayPk) ==>
              var f := SortableMap(fields, displayPk)[n];
              f in fields && f.name == n && Sortable(f, displayPk)
  {
    if fields != [] {
      var init := fields[..|fields| - 1];
      SortableMapSpec(init, displayPk, n);
      if exists i :: 0 <= i < |init| && init[i].name == n && Sortable(init[i], displayPk) {
        var i :| 0 <= i < |init| && init[i].name == n && Sortable(init[i], displayPk);
        assert fields[i] == init[i];
      }
    }
  }

  // ---------------------------------------------------------------------
  // init_search

  /** `type(p) in allowed_search_types` */
  predicate SearchableType(t: FieldType)
  {
    t.StringField? || t.URLField? || t.EmailField?
  }

  /** `model._fields.get(name)` */
  function FieldNamed(fields: seq<ModelField>, name: string): (r: Option<ModelField>)
    ensures r.Some? <==> exists i :: 0 <= i < |fields| && fields[i].name == name
    ensures r.Some? ==> r.value in fields && r.value.name == name
  {
    if fields == [] then None
    else if fields[0].name == name then Some(fields[0])
    else
      var rest := FieldNamed(fields[1..], name);
      assert forall i :: 1 <= i < |fields| ==> fields[i] == fields[1..][i - 1];
      rest
  }

  function NotTextError(name: string): string
  {
    "Can only search on text columns. Failed to setup search for \"" + name + "\""
  }

  /** The error `init_search` raises for one searchable name, if any. */
  function SearchError(fields: seq<ModelField>, name: string): Option<string>
  {
    var f := FieldNamed(fields, name);
    if f.None? then Some("Invalid search field")
    else if !SearchableType(f.value.fieldType) then Some(NotTextError(name))
    else None
  }

  /**
   * The fields `init_search` appends for the searchable names, and the
   * error that stops it; the fields found before the error stay appended.
   */
  function SearchSetup(fields: seq<ModelField>, searchable: seq<string>): (seq<ModelField>, Option<string>)
  {
    if searchable == [] then ([], None)
    else
      var (found, err) := SearchSetup(fields, searchable[..|searchable| - 1]);
      var name := searchable[|searchable| - 1];
      if err.Some? then (found, err)
      else if SearchError(fields, name).Some? then (found, SearchError(fields, name))
      else (found + [FieldNamed(fields, name).value], None)
  }

  /**
   * The set-up succeeds iff every name is a field of a text type, and then
   * appends exactly those fields in order; on failure it appends fewer
   * fields than there are names. Every appended field is of a text type.
   */
  lemma {:induction false} SearchSetupSpec(fields: seq<ModelField>, searchable: seq<string>)
    ensures var (found, err) := SearchSetup(fields, searchable);
            (err.None? <==> forall k :: 0 <= k < |searchable| ==> SearchError(fields, searchable[k]).None?)
            && (err.None? ==> |found| == |searchable|
                              && forall k :: 0 <= k < |searchable| ==> Some(found[k]) == FieldNamed(fields, searchable[k]))
            && (err.Some? ==> |found| < |searchable|)
            && forall k :: 0 <= k < |found| ==> SearchableType(found[k].fieldType)
  {
    if searchable != [] {
      var init := searchable[..|searchable| - 1];
      SearchSetupSpec(fields, init);
      var (found, err) := SearchSetup(fields, init);
      if err.None? {
        assert forall k :: 0 <= k < |init| ==> init[k] == searchable[k];
      } else {
        var k :| 0 <= k < |init| && SearchError(fields, init[k]).Some?;
        assert searchable[k] == init[k];
      }
    }
  }

  // ---------------------------------------------------------------------
  // get_list

  /** The filter part: each `(index, value)` argument applies its filter. */
  function FilterSteps(filters: seq<MongoFilters.Filter>, q: Query, args: seq<(nat, string)>,
                       parseLike: string -> (string, string)): Query
    requires forall k :: 0 <= k < |args| ==> args[k].0 < |filters|
  {
    if args == [] then q
    else
      var (idx, value) := args[|args| - 1];
      MongoFilters.Apply(filters[idx], FilterSteps(filters, q, args[..|args| - 1], parseLike), value, parseLike)
  }

  /** One search field's keyword: `<name>__<op>` with the parsed term. */
  function SearchKeyword(f: ModelField, op: string, term: string): QueryLog.Criterion
  {
    QueryLog.Keyword(f.name + "__" + op, QueryLog.Str(term))
  }

  /** The criteria ORed together, one per search field. */
  function SearchCriteria(fields: seq<ModelField>, op: string, term: string): (r: seq<QueryLog.Criterion>)
    ensures |r| == |fields| && forall i :: 0 <= i < |fields| ==> r[i] == SearchKeyword(fields[i], op, term)
  {
    seq(|fields|, i requires 0 <= i < |fields| => SearchKeyword(fields[i], op, term))
  }

  /** The search part: the whole string parsed once, and one filter ORing every search field. */
  function SearchSteps(supported: bool, fields: seq<ModelField>, search: string, parseLike: string -> (string, string)): Query
  {
    if supported && search != "" then
      var (op, term) := parseLike(search);
      [QueryLog.Filter(QueryLog.AnyOf(SearchCriteria(fields, op, term)))]
    else []
  }

  /** Whether the filter arguments index the view's filters, when it has any. */
  predicate ValidFilterArgs(cfg: ViewConfig, args: seq<(nat, string)>)
  {
    |cfg.filters| > 0 ==> forall k :: 0 <= k < |args| ==> args[k].0 < |cfg.filters|
  }

  /** The query whose count `get_list` reports: filters, then search. */
  function CountPlan(cfg: ViewConfig, supported: bool, fields: seq<ModelField>, search: string,
                     args: seq<(nat, string)>, parseLike: string -> (string, string)): Query
    requires ValidFilterArgs(cfg, args)
  {
    var filtered := if |cfg.filters| > 0 then FilterSteps(cfg.filters, [], args, parseLike) else [];
    filtered + SearchSteps(supported, fields, search, parseLike)
  }

  /** `'%s%s' % ('-' if desc else '', column)` */
  function SortKey(column: string, desc: bool): (r: string)
    ensures desc ==> |r| == |column| + 1 && r[0] == '-' && r[1..] == column
    ensures !desc ==> r == column
  {
    (if desc then "-" else "") + column
  }

  /** The ordering: a given sort column, else the default order. */
  function SortSteps(cfg: ViewConfig, sortColumn: string, sortDesc: bool): Query
  {
    if sortColumn != "" then [QueryLog.OrderByKey(SortKey(sortColumn, sortDesc))]
    else if cfg.defaultOrder.Some? then [QueryLog.OrderByKey(SortKey(cfg.defaultOrder.value.0, cfg.defaultOrder.value.1))]
    else []
  }

  /** The skip (when a page is given) and the limit. */
  function Paging(page: Option<int>, pageSize: int): Query
  {
    (if page.Some? then [QueryLog.Offset(page.value * pageSize)] else []) + [QueryLog.Limit(pageSize)]
  }

  /** The list query `get_list` builds. */
  function ListPlan(cfg: ViewConfig, supported: bool, fields: seq<ModelField>, page: Option<int>,
                    sortColumn: string, sortDesc: bool, search: string, args: seq<(nat, string)>,
                    parseLike: string -> (string, string)): Query
    requires ValidFilterArgs(cfg, args)
  {
    CountPlan(cfg, supported, fields, search, args, parseLike) + SortSteps(cfg, sortColumn, sortDesc) + Paging(page, cfg.pageSize)
  }

  /** Reading a sort key back: a leading `-` means descending. */
  function ParseSortKey(key: string): (string, bool)
  {
    if |key| > 0 && key[0] == '-' then (key[1..], true) else (key, false)
  }

  /** A column not starting with `-` is read back from its sort key with its direction. */
  lemma SortKeyRoundTrip(column: string, desc: bool)
    requires column == "" || column[0] != '-'
    ensures ParseSortKey(SortKey(column, desc)) == (column, desc)
  {
  }

  /** Every filter argument adds one filter step, in argument order; nothing else is added. */
  lemma {:induction false} FilterStepsShape(filters: seq<MongoFilters.Filter>, q: Query, args: seq<(nat, string)>,
                                            parseLike: string -> (string, string))
    requires forall k :: 0 <= k < |args| ==> args[k].0 < |filters|
    ensures var r := FilterSteps(filters, q, args, parseLike);
            |r| == |q| + |args| && r[..|q|] == q
            && forall k :: 0 <= k < |args| ==>
                 r[|q| + k] == QueryLog.Filter(MongoFilters.FilterKeyword(filters[args[k].0], args[k].1, parseLike))
  {
    if args != [] {
      var init := args[..|args| - 1];
      FilterStepsShape(filters, q, init, parseLike);
      var before := FilterSteps(filters, q, init, parseLike);
      var r := FilterSteps(filters, q, args, parseLike);
      assert r == before + [QueryLog.Filter(MongoFilters.FilterKeyword(filters[args[|args| - 1].0], args[|args| - 1].1, parseLike))];
      forall k | 0 <= k < |args|
        ensures r[|q| + k] == QueryLog.Filter(MongoFilters.FilterKeyword(filters[args[k].0], args[k].1, parseLike))
      {
        if k < |init| {
          assert r[|q| + k] == before[|q| + k];
          assert args[k] == init[k];
        }
      }
    }
  }

  /**
   * The list query is the count query, then at most one ordering (by the
   * given column, else by the default order), then the paging; the limit
   * is always the page size and the skip is present exactly with a page.
   */
  lemma ListAfterCount(cfg: ViewConfig, supported: bool, fields: seq<ModelField>, page: Option<int>,
                       sortColumn: string, sortDesc: bool, search: string, args: seq<(nat, string)>,
                       parseLike: string -> (string, string))
    requires ValidFilterArgs(cfg, args)
    ensures var count := CountPlan(cfg, supported, fields, search, args, parseLike);
            var list := ListPlan(cfg, supported, fields, page, sortColumn, sortDesc, search, args, parseLike);
            var sorts := if sortColumn != "" || cfg.defaultOrder.Some? then 1 else 0;
            var skips := if page.Some? then 1 else 0;
            |list| == |count| + sorts + skips + 1 && list[..|count|] == count
            && (sortColumn != "" ==> list[|count|] == QueryLog.OrderByKey(SortKey(sortColumn, sortDesc)))
            && (sortColumn == "" && cfg.defaultOrder.Some? ==>
                  list[|count|] == QueryLog.OrderByKey(SortKey(cfg.defaultOrder.value.0, cfg.defaultOrder.value.1)))
            && (page.Some? ==> list[|list| - 2] == QueryLog.Offset(page.value * cfg.pageSize))
            && list[|list| - 1] == QueryLog.Limit(cfg.pageSize)
  {
  }

  /** A search with fields yields one filter whose options name every search field with the parsed operator. */
  lemma SearchNamesEveryField(fields: seq<ModelField>, search: string, parseLike: string -> (string, string))
    requires search != ""
    ensures var steps := SearchSteps(true, fields, search, parseLike);
            var (op, term) := parseLike(search);
            |steps| == 1 && steps[0].Filter? && steps[0].criterion.AnyOf?
            && |steps[0].criterion.options| == |fields|
            && forall i :: 0 <= i < |fields| ==>
                 steps[0].criterion.options[i] == QueryLog.Keyword(fields[i].name + "__" + op, QueryLog.Str(term))
  {
  }

  // ---------------------------------------------------------------------
  // is_action_allowed and action_delete

  /** `is_action_allowed`: `'delete'` needs `can_delete`; then the base view's disallowed list decides. */
  predicate IsActionAllowed(cfg: ViewConfig, name: string)
  {
    !(name == "delete" && !cfg.canDelete) && ModelBase.IsActionAllowed(name, cfg.disallowedActions)
  }

  lemma ActionPermission(cfg: ViewConfig, name: string)
    ensures name == "delete" && !cfg.canDelete ==> !IsActionAllowed(cfg, name)
    ensures name != "delete" || cfg.canDelete ==> (IsActionAllowed(cfg, name) <==> name !in cfg.disallowedActions)
  {
  }

  /** `in_bulk(ids)`: the stored documents among the ids, each once. */
  function InBulk(ids: seq<string>, stored: set<string>): (r: set<string>)
    ensures forall d :: d in r <==> d in ids && d in stored
  {
    set d | d in ids && d in stored
  }

  /** The documents of a collection, by primary key. */
  class Collection {
    var docs: set<string>

    constructor(docs: set<string>)
      ensures this.docs == docs
    {
      this.docs := docs;
    }
  }

  /**
   * `action_delete(ids)`: a malformed id fails the whole action before
   * anything is deleted; otherwise every stored document among the ids
   * is passed to `delete_model`, whose failure (in `failing`) is counted
   * as 0 and keeps the document. The count is the number of deletions.
   */
  method ActionDelete(ids: seq<string>, isObjectId: string -> bool, failing: set<string>, coll: Collection)
    returns (r: Result<nat>)
    modifies coll
    ensures (exists k :: 0 <= k < |ids| && !isObjectId(ids[k])) ==> r.Err? && coll.docs == old(coll.docs)
    ensures (forall k :: 0 <= k < |ids| ==> isObjectId(ids[k])) ==>
              r == Ok(|InBulk(ids, old(coll.docs)) - failing|)
              && coll.docs == old(coll.docs) - (InBulk(ids, old(coll.docs)) - failing)
  {
    var bad := FirstInvalid(ids, isObjectId);
    if bad.Some? {
      return Err("Failed to delete models. " + ids[bad.value] + " is not a valid ObjectId");
    }
    var count := DeleteEach(InBulk(ids, coll.docs), failing, coll);
    return Ok(count);
  }

  /** The position of the first id `ObjectId()` refuses, if any. */
  method FirstInvalid(ids: seq<string>, isObjectId: string -> bool) returns (r: Option<nat>)
    ensures r.None? <==> forall k :: 0 <= k < |ids| ==> isObjectId(ids[k])
    ensures r.Some? ==> r.value < |ids| && !isObjectId(ids[r.value])
  {
    for k := 0 to |ids|
      invariant forall j :: 0 <= j < k ==> isObjectId(ids[j])
    {
      if !isObjectId(ids[k]) {
        return Some(k);
      }
    }
    return None;
  }

  /** Moving one document from the remaining ones to the processed ones. */
  lemma DeleteStep(bulk: set<string>, remaining: set<string>, failing: set<string>, d: string)
    requires remaining <= bulk && d in remaining
    ensures var done := bulk - remaining;
            var after := bulk - (remaining - {d});
            after == done + {d}
            && (d !in failing ==> after - failing == (done - failing) + {d} && |(done - failing) + {d}| == |done - failing| + 1)
            && (d in failing ==> after - failing == done - failing)
  {
    var done := bulk - remaining;
    assert d !in done - failing;
  }

  lemma MinusOneMore(docs: set<string>, deleted: set<string>, d: string)
    ensures docs - (deleted + {d}) == (docs - deleted) - {d}
  {
  }

  /** The deletion loop: every document of `bulk` is deleted unless its deletion fails; the count is of deletions. */
  method DeleteEach(bulk: set<string>, failing: set<string>, coll: Collection) returns (count: nat)
    modifies coll
    ensures count == |bulk - failing|
    ensures coll.docs == old(coll.docs) - (bulk - failing)
  {
    var remaining := bulk;
    var docs := coll.docs;
    ghost var deleted: set<string> := {};
    count := 0;
    while remaining != {}
      invariant remaining <= bulk
      invariant deleted == (bulk - remaining) - failing
      invariant count == |deleted|
      invariant docs == old(coll.docs) - deleted
      decreases |remaining|
    {
      var d :| d in remaining;
      DeleteStep(bulk, remaining, failing, d);
      if d !in failing {
        MinusOneMore(old(coll.docs), deleted, d);
        docs := docs - {d};
        count := count + 1;
        deleted := deleted + {d};
      }
      assert |remaining - {d}| == |remaining| - 1;
      remaining := remaining - {d};
    }
    assert bulk - remaining == bulk;
    coll.docs := docs;
  }

  // ---------------------------------------------------------------------
  // The view

  class ModelView {
    const config: ViewConfig
    var searchSupported: bool          // _search_supported
    var searchFields: seq<ModelField>  // _search_fields

    constructor(config: ViewConfig)
      ensures this.config == config && !searchSupported && searchFields == []
    {
      this.config := config;
      searchSupported := false;
      searchFields := [];
    }

    /** `scaffold_list_columns` */
    method ScaffoldListColumns() returns (columns: seq<string>)
      ensures columns == Names(ListedFields(ModelFields(config.fields), config.displayPk))
    {
      var fields := ModelFields(config.fields);
      ghost var listed: seq<ModelField> := [];
      columns := [];
      for i := 0 to |fields|
        invariant listed == ListedFields(fields[..i], config.displayPk) && columns == Names(listed)
      {
        assert fields[..i + 1][..i] == fields[..i];
        var f := fields[i];
        if f.fieldType.ListField? && f.fieldType.inner == EmbeddedDocumentField {
          continue;
        }
        if f.fieldType == EmbeddedDocumentField {
          continue;
        }
        if config.displayPk || f.fieldType != ObjectIdField {
          columns := columns + [f.name];
          listed := listed + [f];
        }
      }
      assert fields[..|fields|] == fields;
    }

    /** `scaffold_sortable_columns` */
    method ScaffoldSortableColumns() returns (columns: map<string, ModelField>)
      ensures columns == SortableMap(ModelFields(config.fields), config.displayPk)
    {
      var fields := ModelFields(config.fields);
      columns := map[];
      for i := 0 to |fields|
        invariant columns == SortableMap(fields[..i], config.displayPk)
      {
        assert fields[..i + 1][..i] == fields[..i];
        var f := fields[i];
        if SortableType(f.fieldType) {
          if config.displayPk || f.fieldType != ObjectIdField {
            columns := columns[f.name := f];
          }
        }
      }
      assert fields[..|fields|] == fields;
    }

    /**
     * `init_search`: appends the field of each searchable name, raising at
     * the first unknown or non-text one (the fields before it stay
     * appended), and answers whether any search field is registered.
     */
    method InitSearch() returns (r: Result<bool>)
      modifies this
      ensures searchSupported == old(searchSupported)
      ensures searchFields == old(searchFields) + SearchSetup(config.fields, config.searchable).0
      ensures SearchSetup(config.fields, config.searchable).1.Some? ==>
                r == Err(SearchSetup(config.fields, config.searchable).1.value)
      ensures SearchSetup(config.fields, config.searchable).1.None? ==> r == Ok(|searchFields| > 0)
    {
      var searchable := config.searchable;
      var fields := config.fields;
      var found: seq<ModelField> := searchFields;
      for i := 0 to |searchable|
        invariant SearchSetup(fields, searchable[..i]).1.None?
        invariant found == old(searchFields) + SearchSetup(fields, searchable[..i]).0
        invariant searchFields == old(searchFields) && searchSupported == old(searchSupported)
      {
        assert searchable[..i + 1][..i] == searchable[..i];
        var p := searchable[i];
        var f := FieldNamed(fields, p);
        if f.None? {
          SearchSetupStops(fields, searchable, i + 1);
          searchFields := found;
          return Err("Invalid search field");
        }
        if !SearchableType(f.value.fieldType) {
          SearchSetupStops(fields, searchable, i + 1);
          searchFields := found;
          return Err(NotTextError(p));
        }
        found := found + [f.value];
      }
      assert searchable[..|searchable|] == searchable;
      searchFields := found;
      return Ok(|found| > 0);
    }

    /** `get_list` without executing: the count query and the list query. */
    method GetList(page: Option<int>, sortColumn: string, sortDesc: bool, search: string,
                   args: seq<(nat, string)>, parseLike: string -> (string, string))
      returns (countQuery: Query, query: Query)
      requires ValidFilterArgs(config, args)
      ensures countQuery == CountPlan(config, searchSupported, searchFields, search, args, parseLike)
      ensures query == ListPlan(config, searchSupported, searchFields, page, sortColumn, sortDesc, search, args, parseLike)
    {
      query := [];
      if |config.filters| > 0 {
        query := ApplyFilters(config.filters, args, parseLike);
      }
      if searchSupported && search != "" {
        var criterion := SearchCriterion(searchFields, search, parseLike);
        query := query + [QueryLog.Filter(criterion)];
      }
      countQuery := query;
      query := SortAndPage(config, countQuery, page, sortColumn, sortDesc);
    }
  }

  /** The end of `get_list`: the ordering, then the skip and the limit. */
  method SortAndPage(cfg: ViewConfig, countQuery: Query, page: Option<int>, sortColumn: string, sortDesc: bool)
    returns (query: Query)
    ensures query == countQuery + SortSteps(cfg, sortColumn, sortDesc) + Paging(page, cfg.pageSize)
  {
    query := countQuery;
    if sortColumn != "" {
      query := query + [QueryLog.OrderByKey(SortKey(sortColumn, sortDesc))];
    } else if cfg.defaultOrder.Some? {
      var (column, desc) := cfg.defaultOrder.value;
      query := query + [QueryLog.OrderByKey(SortKey(column, desc))];
    }
    if page.Some? {
      query := query + [QueryLog.Offset(page.value * cfg.pageSize)];
    }
    query := query + [QueryLog.Limit(cfg.pageSize)];
  }

  /** Once the set-up has raised for a prefix of the names, it stays raised for every longer prefix. */
  lemma {:induction false} SearchSetupStops(fields: seq<ModelField>, searchable: seq<string>, n: nat)
    requires 0 < n <= |searchable|
    requires SearchSetup(fields, searchable[..n - 1]).1.None?
    requires SearchError(fields, searchable[n - 1]).Some?
    ensures SearchSetup(fields, searchable).1 == SearchError(fields, searchable[n - 1])
    ensures SearchSetup(fields, searchable).0 == SearchSetup(fields, searchable[..n - 1]).0
  {
    if n < |searchable| {
      var init := searchable[..|searchable| - 1];
      assert init[..n] == searchable[..n];
      assert init[..n - 1] == searchable[..n - 1];
      SearchSetupStops(fields, init, n);
    } else {
      assert searchable[..n] == searchable;
    }
  }

  /** The filter loop of `get_list`. */
  method ApplyFilters(filters: seq<MongoFilters.Filter>, args: seq<(nat, string)>, parseLike: string -> (string, string))
    returns (query: Query)
    requires forall k :: 0 <= k < |args| ==> args[k].0 < |filters|
    ensures query == FilterSteps(filters, [], args, parseLike)
  {
    query := [];
    for i := 0 to |args|
      invariant query == FilterSteps(filters, [], args[..i], parseLike)
    {
      assert args[..i + 1][..i] == args[..i];
      var (idx, value) := args[i];
      query := MongoFilters.Apply(filters[idx], query, value, parseLike);
    }
    assert args[..|args|] == args;
  }

  /** The criteria loop of `get_list`: one keyword per search field, ORed. */
  method SearchCriterion(fields: seq<ModelField>, search: string, parseLike: string -> (string, string))
    returns (criterion: QueryLog.Criterion)
    ensures criterion == QueryLog.AnyOf(SearchCriteria(fields, parseLike(search).0, parseLike(search).1))
  {
    var (op, term) := parseLike(search);
    var options: seq<QueryLog.Criterion> := [];
    for i := 0 to |fields|
      invariant options == SearchCriteria(fields[..i], op, term)
    {
      options := options + [QueryLog.Keyword(fields[i].name + "__" + op, QueryLog.Str(term))];
    }
    assert fields[..|fields|] == fields;
    criterion := QueryLog.AnyOf(options);
  }
}
