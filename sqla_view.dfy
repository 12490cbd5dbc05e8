/**
 * lib/flask_admin/contrib/sqla/view.py: the SQLAlchemy model view's column
 * scaffolding, its search set-up, the query plan of `get_list` and its
 * action permission. Queries are the logs of the calls made on them
 * (module QueryLog); nothing is executed.
 */
module SqlaView {
  import opened Wrappers
  import opened Text
  import QueryLog
  import SqlaTools
  import SqlaFilters
  import ModelBase

  type Property = SqlaTools.MapperProperty
  type SqlaColumn = SqlaTools.SqlaColumn
  type Query = QueryLog.Query

  /** What the view is configured with and what its model maps. */
  datatype ViewConfig = ViewConfig(
    props: seq<Property>,                      // mapper.iterate_properties
    attrs: map<string, Property>,              // getattr(model, name).property
    modelTables: set<string>,                  // names of mapper.tables
    displayAllRelations: bool,                 // column_display_all_relations
    displayPk: bool,                           // column_display_pk
    searchable: seq<string>,                   // column_searchable_list
    filters: seq<SqlaFilters.Filter>,          // _filters
    filterJoins: map<string, seq<string>>,     // _filter_joins: table name -> tables to join
    autoJoins: seq<string>,                    // _auto_joins
    sortable: map<string, QueryLog.SortTarget>, // _sortable_columns
    defaultOrder: Option<(QueryLog.SortTarget, bool)>, // _get_default_order(), resolved
    pageSize: int,
    canDelete: bool,
    disallowedActions: seq<string>)            // action_disallowed_list

  // ---------------------------------------------------------------------
  // scaffold_list_columns

  /** Whether `scaffold_list_columns` lists a property. */
  predicate Listed(p: Property, displayAllRelations: bool, displayPk: bool)
  {
    match p
    case Relationship(_, direction, _, _) => displayAllRelations || direction == SqlaTools.ManyToOne
    case ColumnProperty(_, column, _) => !column.hasForeignKeys && (displayPk || !column.primaryKey)
    case OtherProperty(_) => false
  }

  /** The keys of the listed properties, in mapper order. */
  function ListedKeys(props: seq<Property>, displayAllRelations: bool, displayPk: bool): (r: seq<string>)
    ensures |r| <= |props|
  {
    if props == [] then []
    else
      var last := props[|props| - 1];
      ListedKeys(props[..|props| - 1], displayAllRelations, displayPk)
        + (if Listed(last, displayAllRelations, displayPk) then [last.key] else [])
  }

  /** A key is listed iff some listed property has it. */
  lemma {:induction false} ListedKeysMembership(props: seq<Property>, displayAllRelations: bool, displayPk: bool, x: string)
    ensures x in ListedKeys(props, displayAllRelations, displayPk)
            <==> exists i :: 0 <= i < |props| && Listed(props[i], displayAllRelations, displayPk) && props[i].key == x
  {
    if props != [] {
      var init := props[..|props| - 1];
      ListedKeysMembership(init, displayAllRelations, displayPk, x);
      assert forall i :: 0 <= i < |init| ==> init[i] == props[i];
    }
  }

  /** Mapper order is kept: the columns of a longer mapper extend those of its prefix. */
  lemma {:induction false} ListedKeysAppend(a: seq<Property>, b: seq<Property>, displayAllRelations: bool, displayPk: bool)
    ensures ListedKeys(a + b, displayAllRelations, displayPk)
            == ListedKeys(a, displayAllRelations, displayPk) + ListedKeys(b, displayAllRelations, displayPk)
  {
    if b == [] {
      assert a + b == a;
    } else {
      ListedKeysAppend(a, b[..|b| - 1], displayAllRelations, displayPk);
      assert (a + b)[..|a + b| - 1] == a + b[..|b| - 1];
    }
  }

  // ---------------------------------------------------------------------
  // scaffold_sortable_columns

  /** Whether `scaffold_sortable_columns` takes a property: a one-column property, neither FK nor hidden PK. */
  predicate Sortable(p: Property, displayPk: bool)
  {
    p.ColumnProperty? && p.more == [] && !p.first.hasForeignKeys && (displayPk || !p.first.primaryKey)
  }

  /** The sortable map; a later property with the same key replaces an earlier one. */
  function SortableMap(props: seq<Property>, displayPk: bool): (r: map<string, SqlaColumn>)
  {
    if props == [] then map[]
    else
      var m := SortableMap(props[..|props| - 1], displayPk);
      var last := props[|props| - 1];
      if Sortable(last, displayPk) then m[last.key := last.first] else m
  }

  /**
   * A key is sortable iff some sortable property has it: relations,
   * multi-column properties, foreign keys and (unless shown) primary keys
   * never appear.
   */
  lemma {:induction false} SortableMapKeys(props: seq<Property>, displayPk: bool, k: string)
    ensures k in SortableMap(props, displayPk)
            <==> exists i :: 0 <= i < |props| && Sortable(props[i], displayPk) && props[i].key == k
  {
    if props != [] {
      var init := props[..|props| - 1];
      SortableMapKeys(init, displayPk, k);
      assert forall i :: 0 <= i < |init| ==> init[i] == props[i];
    }
  }

  /** A sortable key maps to the column of the last sortable property with that key. */
  lemma {:induction false} SortableMapLast(props: seq<Property>, displayPk: bool, k: string)
    requires k in SortableMap(props, displayPk)
    ensures exists i :: 0 <= i < |props| && Sortable(props[i], displayPk) && props[i].key == k
              && SortableMap(props, displayPk)[k] == props[i].first
              && forall j :: i < j < |props| ==> !(Sortable(props[j], displayPk) && props[j].key == k)
  {
    var init := props[..|props| - 1];
    var last := props[|props| - 1];
    if !(Sortable(last, displayPk) && last.key == k) {
      SortableMapLast(init, displayPk, k);
      var i :| 0 <= i < |init| && Sortable(init[i], displayPk) && init[i].key == k
               && SortableMap(init, displayPk)[k] == init[i].first
               && forall j :: i < j < |init| ==> !(Sortable(init[j], displayPk) && init[j].key == k);
      assert props[i] == init[i];
      assert forall j :: i < j < |init| ==> props[j] == init[j];
    }
  }

  // ---------------------------------------------------------------------
  // init_search

  /** `is_text_column_type` */
  predicate IsTextColumnType(name: string)
  {
    name in ["String", "Unicode", "Text", "UnicodeText"]
  }

  /** `_get_columns_for_field` for a field name: the columns of a column attribute. */
  function ColumnsForField(attrs: map<string, Property>, field: string): (r: Result<seq<SqlaColumn>>)
    ensures r.Ok? <==> field in attrs && attrs[field].ColumnProperty?
    ensures r.Ok? ==> |r.value| >= 1
  {
    if field in attrs && attrs[field].ColumnProperty? then Ok(attrs[field].Columns())
    else Err("Invalid field " + field + ": does not contains any columns.")
  }

  function NotTextError(field: string): string
  {
    "Can only search on text columns. Failed to setup search for \"" + field + "\""
  }

  predicate AllText(cols: seq<SqlaColumn>)
  {
    forall c :: c in cols ==> IsTextColumnType(SqlaTools.TypeName(c))
  }

  lemma PrefixSnoc<T>(start: seq<T>, s: seq<T>, j: nat)
    requires j < |s|
    ensures (start + s[..j]) + [s[j]] == start + s[..j + 1]
  {
    assert s[..j + 1] == s[..j] + [s[j]];
  }

  lemma AllTextSnoc(cols: seq<SqlaColumn>, j: nat)
    requires j < |cols| && AllText(cols[..j]) && IsTextColumnType(SqlaTools.TypeName(cols[j]))
    ensures AllText(cols[..j + 1])
  {
    assert cols[..j + 1] == cols[..j] + [cols[j]];
  }

  /** The search columns of the searchable fields, in order, or the first error. */
  function SearchColumns(attrs: map<string, Property>, fields: seq<string>): (r: Result<seq<SqlaColumn>>)
  {
    if fields == [] then Ok([])
    else
      var field := fields[|fields| - 1];
      match SearchColumns(attrs, fields[..|fields| - 1])
      case Err(e) => Err(e)
      case Ok(cs) =>
        match ColumnsForField(attrs, field)
        case Err(e) => Err(e)
        case Ok(cols) => if AllText(cols) then Ok(cs + cols) else Err(NotTextError(field))
  }

  /** The search succeeds iff every field is a column attribute whose columns are all text. */
  lemma {:induction false} SearchColumnsSpec(attrs: map<string, Property>, fields: seq<string>)
    ensures SearchColumns(attrs, fields).Ok?
            <==> forall i :: 0 <= i < |fields| ==>
                   fields[i] in attrs && attrs[fields[i]].ColumnProperty? && AllText(attrs[fields[i]].Columns())
    ensures SearchColumns(attrs, fields).Ok? ==> AllText(SearchColumns(attrs, fields).value)
    ensures SearchColumns(attrs, fields).Ok? ==> |SearchColumns(attrs, fields).value| >= |fields|
  {
    if fields != [] {
      var init := fields[..|fields| - 1];
      SearchColumnsSpec(attrs, init);
      assert forall i :: 0 <= i < |init| ==> init[i] == fields[i];
    }
  }

  lemma SearchColumnsStep(attrs: map<string, Property>, fields: seq<string>, i: nat,
                          found: seq<SqlaColumn>, cols: seq<SqlaColumn>)
    requires i < |fields| && SearchColumns(attrs, fields[..i]) == Ok(found)
    requires ColumnsForField(attrs, fields[i]) == Ok(cols) && AllText(cols)
    ensures SearchColumns(attrs, fields[..i + 1]) == Ok(found + cols)
  {
    assert fields[..i + 1][..i] == fields[..i];
  }

  /** The `i`-th field failing after a good prefix fails the whole search set-up with its error. */
  lemma SearchColumnsStepErr(attrs: map<string, Property>, fields: seq<string>, i: nat,
                             found: seq<SqlaColumn>, e: string)
    requires i < |fields| && SearchColumns(attrs, fields[..i]) == Ok(found)
    requires ColumnsForField(attrs, fields[i]) == Err(e)
             || (ColumnsForField(attrs, fields[i]).Ok? && !AllText(ColumnsForField(attrs, fields[i]).value)
                 && e == NotTextError(fields[i]))
    ensures SearchColumns(attrs, fields) == Err(e)
  {
    assert fields[..i + 1][..i] == fields[..i];
    assert SearchColumns(attrs, fields[..i + 1]) == Err(e);
    SearchColumnsErrLonger(attrs, fields, i + 1);
  }

  /** Once a prefix of the fields fails, the whole search set-up fails the same way. */
  lemma {:induction false} SearchColumnsErrLonger(attrs: map<string, Property>, fields: seq<string>, n: nat)
    requires n <= |fields| && SearchColumns(attrs, fields[..n]).Err?
    ensures SearchColumns(attrs, fields) == SearchColumns(attrs, fields[..n])
  {
    if n < |fields| {
      var init := fields[..|fields| - 1];
      assert init[..n] == fields[..n];
      SearchColumnsErrLonger(attrs, init, n);
    } else {
      assert fields[..n] == fields;
    }
  }

  /**
   * `_search_joins`: the other tables of the search columns, each once.
   * The model lists them in the order they are first seen; the dict only
   * keeps that order from Python 3.7 on, and under Python 2 its iteration
   * order, and so the order of the joins, is arbitrary.
   */
  function SearchJoins(cols: seq<SqlaColumn>, modelTables: set<string>): (r: seq<string>)
  {
    if cols == [] then []
    else
      var joins := SearchJoins(cols[..|cols| - 1], modelTables);
      var t := cols[|cols| - 1].column.table;
      if t !in modelTables && t !in joins then joins + [t] else joins
  }

  lemma SearchJoinsStep(cols: seq<SqlaColumn>, modelTables: set<string>, c: SqlaColumn)
    ensures SearchJoins(cols + [c], modelTables)
            == if c.column.table !in modelTables && c.column.table !in SearchJoins(cols, modelTables)
               then SearchJoins(cols, modelTables) + [c.column.table] else SearchJoins(cols, modelTables)
  {
    assert (cols + [c])[..|cols|] == cols;
  }

  /** Appending a string the sequence does not hold keeps it free of repeats. */
  lemma DistinctSnoc(s: seq<string>, x: string)
    requires QueryLog.Distinct(s) && x !in s
    ensures QueryLog.Distinct(s + [x])
  {
    var r := s + [x];
    forall i, j | 0 <= i < j < |r|
      ensures r[i] != r[j]
    {
      if j < |s| {
        assert r[i] == s[i] && r[j] == s[j];
      } else {
        assert r[i] == s[i] && r[j] == x;
      }
    }
  }

  /** A table is joined for search iff a search column lives in it and the model does not map it; never twice. */
  lemma SearchJoinsSpec(cols: seq<SqlaColumn>, modelTables: set<string>, t: string)
    ensures QueryLog.Distinct(SearchJoins(cols, modelTables))
    ensures t in SearchJoins(cols, modelTables)
            <==> t !in modelTables && exists i :: 0 <= i < |cols| && cols[i].column.table == t
  {
    SearchJoinsDistinct(cols, modelTables);
    SearchJoinsMember(cols, modelTables, t);
  }

  lemma {:induction false} SearchJoinsDistinct(cols: seq<SqlaColumn>, modelTables: set<string>)
    ensures QueryLog.Distinct(SearchJoins(cols, modelTables))
  {
    if cols != [] {
      var init := cols[..|cols| - 1];
      SearchJoinsDistinct(init, modelTables);
      var joins := SearchJoins(init, modelTables);
      var t := cols[|cols| - 1].column.table;
      if t !in modelTables && t !in joins {
        DistinctSnoc(joins, t);
      }
    }
  }

  lemma {:induction false} SearchJoinsMember(cols: seq<SqlaColumn>, modelTables: set<string>, t: string)
    ensures t in SearchJoins(cols, modelTables)
            <==> t !in modelTables && exists i :: 0 <= i < |cols| && cols[i].column.table == t
  {
    if cols != [] {
      var init := cols[..|cols| - 1];
      SearchJoinsMember(init, modelTables, t);
      var last := cols[|cols| - 1].column.table;
      if t == last {
        assert cols[|cols| - 1].column.table == t;
      }
      assert (exists i :: 0 <= i < |cols| && cols[i].column.table == t)
             <==> (exists i :: 0 <= i < |init| && init[i].column.table == t) || last == t by {
        if exists i :: 0 <= i < |cols| && cols[i].column.table == t {
          var i :| 0 <= i < |cols| && cols[i].column.table == t;
          if i < |init| {
            assert init[i] == cols[i];
          }
        }
        if exists i :: 0 <= i < |init| && init[i].column.table == t {
          var i :| 0 <= i < |init| && init[i].column.table == t;
          assert cols[i] == init[i];
        }
      }
    }
  }

  // ---------------------------------------------------------------------
  // The query plan of get_list

  /** Joins each table not joined yet, and records it. */
  function JoinMissing(q: Query, joins: set<string>, tables: seq<string>): (Query, set<string>)
  {
    if tables == [] then (q, joins)
    else
      var (q1, j1) := JoinMissing(q, joins, tables[..|tables| - 1]);
      var t := tables[|tables| - 1];
      if t in j1 then (q1, j1) else (q1 + [QueryLog.Join(t)], j1 + {t})
  }

  function JoinSteps(tables: seq<string>): (r: Query)
    ensures |r| == |tables| && forall i :: 0 <= i < |tables| ==> r[i] == QueryLog.Join(tables[i])
  {
    seq(|tables|, i requires 0 <= i < |tables| => QueryLog.Join(tables[i]))
  }

  function JoinedLoads(relations: seq<string>): (r: Query)
    ensures |r| == |relations| && forall i :: 0 <= i < |relations| ==> r[i] == QueryLog.JoinedLoad(relations[i])
  {
    seq(|relations|, i requires 0 <= i < |relations| => QueryLog.JoinedLoad(relations[i]))
  }

  /** The clause one search term adds: the term's LIKE pattern on any search column. */
  function SearchClause(fields: seq<SqlaColumn>, term: string): QueryLog.Step
  {
    var pattern := SqlaTools.ParseLikeTerm(term);
    QueryLog.Filter(QueryLog.AnyOf(seq(|fields|, i requires 0 <= i < |fields| => QueryLog.ILike(fields[i].column, pattern))))
  }

  function SearchSteps(fields: seq<SqlaColumn>, terms: seq<string>): Query
  {
    if terms == [] then []
    else
      var term := terms[|terms| - 1];
      SearchSteps(fields, terms[..|terms| - 1]) + (if term == "" then [] else [SearchClause(fields, term)])
  }

  /** The non-empty terms, in order. */
  function NonEmpty(terms: seq<string>): (r: seq<string>)
    ensures forall k :: 0 <= k < |r| ==> r[k] != ""
  {
    if terms == [] then []
    else
      var term := terms[|terms| - 1];
      NonEmpty(terms[..|terms| - 1]) + (if term == "" then [] else [term])
  }

  /** Each non-empty term adds exactly one clause, in the order of the terms. */
  lemma {:induction false} SearchStepsClauses(fields: seq<SqlaColumn>, terms: seq<string>)
    ensures |SearchSteps(fields, terms)| == |NonEmpty(terms)|
    ensures forall k :: 0 <= k < |NonEmpty(terms)| ==> SearchSteps(fields, terms)[k] == SearchClause(fields, NonEmpty(terms)[k])
  {
    if terms != [] {
      SearchStepsClauses(fields, terms[..|terms| - 1]);
    }
  }

  /** Whether the filter arguments index the view's filters, when it has any. */
  predicate ValidFilterArgs(cfg: ViewConfig, args: seq<(nat, string)>)
  {
    |cfg.filters| > 0 ==> forall k :: 0 <= k < |args| ==> args[k].0 < |cfg.filters|
  }

  function FilterJoinTables(cfg: ViewConfig, flt: SqlaFilters.Filter): seq<string>
  {
    var table := flt.column.column.table;
    if table in cfg.filterJoins then cfg.filterJoins[table] else []
  }

  /** The joins and the criterion of each `(index, value)` filter argument. */
  function FilterSteps(cfg: ViewConfig, q: Query, joins: set<string>, args: seq<(nat, string)>): (Query, set<string>)
    requires |cfg.filters| > 0 && ValidFilterArgs(cfg, args)
  {
    if args == [] then (q, joins)
    else
      var (q1, j1) := FilterSteps(cfg, q, joins, args[..|args| - 1]);
      var (idx, value) := args[|args| - 1];
      var flt := cfg.filters[idx];
      var (q2, j2) := JoinMissing(q1, j1, FilterJoinTables(cfg, flt));
      (SqlaFilters.Apply(flt, q2, value), j2)
  }

  /** The search part: the search joins, then one clause per non-empty term. */
  function SearchPlan(supported: bool, fields: seq<SqlaColumn>, searchJoins: seq<string>, search: string): (Query, set<string>)
  {
    if supported && search != "" then
      (JoinSteps(searchJoins) + SearchSteps(fields, Split(search, ' ')), set t | t in searchJoins)
    else ([], {})
  }

  /** The count query, and the joined tables, after search and filters. */
  function CountPlan(cfg: ViewConfig, supported: bool, fields: seq<SqlaColumn>, searchJoins: seq<string>,
                     search: string, args: seq<(nat, string)>): (Query, set<string>)
    requires ValidFilterArgs(cfg, args)
  {
    var (q, joins) := SearchPlan(supported, fields, searchJoins, search);
    if args != [] && cfg.filters != [] then FilterSteps(cfg, q, joins, args) else (q, joins)
  }

  /** The join `_order_by` makes for a sort field, unless that table is joined already. */
  function SortJoin(cfg: ViewConfig, q: Query, joins: set<string>, field: QueryLog.SortTarget): (r: (Query, set<string>))
    ensures r.0 == q || (|r.0| == |q| + 1 && r.0[..|q|] == q && r.0[|q|].Join?)
  {
    match field
    case ByName(s) =>
      var dot := Find(s, '.');
      if dot >= 0 && s[..dot] !in joins then (q + [QueryLog.Join(s[..dot])], joins + {s[..dot]}) else (q, joins)
    case ByAttribute(table, _) =>
      if table !in cfg.modelTables && table !in joins then (q + [QueryLog.Join(table)], joins + {table}) else (q, joins)
    case ByColumn(_) => (q, joins)
  }

  /** `_order_by`: the join a sort field needs, then the ordering. */
  function OrderBy(cfg: ViewConfig, q: Query, joins: set<string>, field: QueryLog.SortTarget, desc: bool): (Query, set<string>)
  {
    var (q1, j1) := SortJoin(cfg, q, joins, field);
    (q1 + [QueryLog.OrderBy(field, desc)], j1)
  }

  /** The ordering: the requested sortable column, else (only with no column) the default order. */
  function SortPlan(cfg: ViewConfig, q: Query, joins: set<string>, sortColumn: Option<string>, sortDesc: bool): (Query, set<string>)
  {
    match sortColumn
    case Some(c) => if c in cfg.sortable then OrderBy(cfg, q, joins, cfg.sortable[c], sortDesc) else (q, joins)
    case None =>
      if cfg.defaultOrder.Some? then OrderBy(cfg, q, joins, cfg.defaultOrder.value.0, cfg.defaultOrder.value.1)
      else (q, joins)
  }

  /** The offset (when a page is given) and the limit. */
  function Paging(page: Option<int>, pageSize: int): Query
  {
    (if page.Some? then [QueryLog.Offset(page.value * pageSize)] else []) + [QueryLog.Limit(pageSize)]
  }

  /** The list query `get_list` builds. */
  function ListPlan(cfg: ViewConfig, supported: bool, fields: seq<SqlaColumn>, searchJoins: seq<string>,
                    page: Option<int>, sortColumn: Option<string>, sortDesc: bool, search: string,
                    args: seq<(nat, string)>): Query
    requires ValidFilterArgs(cfg, args)
  {
    var (count, joins) := CountPlan(cfg, supported, fields, searchJoins, search, args);
    SortPlan(cfg, count + JoinedLoads(cfg.autoJoins), joins, sortColumn, sortDesc).0 + Paging(page, cfg.pageSize)
  }

  lemma ListPlanParts(cfg: ViewConfig, supported: bool, fields: seq<SqlaColumn>, searchJoins: seq<string>,
                      page: Option<int>, sortColumn: Option<string>, sortDesc: bool, search: string,
                      args: seq<(nat, string)>)
    requires ValidFilterArgs(cfg, args)
    ensures var (count, joins) := CountPlan(cfg, supported, fields, searchJoins, search, args);
            ListPlan(cfg, supported, fields, searchJoins, page, sortColumn, sortDesc, search, args)
              == SortPlan(cfg, count + JoinedLoads(cfg.autoJoins), joins, sortColumn, sortDesc).0 + Paging(page, cfg.pageSize)
  {
  }

  // ---------------------------------------------------------------------
  // Properties of the plan

  /** The joined-table set records exactly the joins of the query, each made once. */
  ghost predicate Tracked(q: Query, joins: set<string>)
  {
    QueryLog.Distinct(QueryLog.JoinTargets(q)) && forall t :: t in QueryLog.JoinTargets(q) <==> t in joins
  }

  lemma JoinOne(q: Query, joins: set<string>, t: string)
    requires Tracked(q, joins) && t !in joins
    ensures Tracked(q + [QueryLog.Join(t)], joins + {t})
  {
    QueryLog.JoinTargetsAppend(q, [QueryLog.Join(t)]);
    assert QueryLog.JoinTargets([QueryLog.Join(t)]) == [t];
  }

  lemma {:induction false} JoinFree(steps: Query)
    requires forall i :: 0 <= i < |steps| ==> !steps[i].Join?
    ensures QueryLog.JoinTargets(steps) == []
  {
    if steps != [] {
      JoinFree(steps[1..]);
    }
  }

  /** Steps that join nothing keep the record. */
  lemma NoJoins(q: Query, joins: set<string>, steps: Query)
    requires Tracked(q, joins)
    requires forall i :: 0 <= i < |steps| ==> !steps[i].Join?
    ensures Tracked(q + steps, joins)
  {
    JoinFree(steps);
    QueryLog.JoinTargetsAppend(q, steps);
  }

  lemma {:induction false} JoinMissingTracked(q: Query, joins: set<string>, tables: seq<string>)
    requires Tracked(q, joins)
    ensures Tracked(JoinMissing(q, joins, tables).0, JoinMissing(q, joins, tables).1)
  {
    if tables != [] {
      JoinMissingTracked(q, joins, tables[..|tables| - 1]);
      var (q1, j1) := JoinMissing(q, joins, tables[..|tables| - 1]);
      var t := tables[|tables| - 1];
      if t !in j1 {
        JoinOne(q1, j1, t);
      }
    }
  }

  lemma {:induction false} FilterStepsTracked(cfg: ViewConfig, q: Query, joins: set<string>, args: seq<(nat, string)>)
    requires |cfg.filters| > 0 && ValidFilterArgs(cfg, args)
    requires Tracked(q, joins)
    ensures Tracked(FilterSteps(cfg, q, joins, args).0, FilterSteps(cfg, q, joins, args).1)
  {
    if args != [] {
      var init := args[..|args| - 1];
      FilterStepsTracked(cfg, q, joins, init);
      var (q1, j1) := FilterSteps(cfg, q, joins, init);
      var (idx, value) := args[|args| - 1];
      var flt := cfg.filters[idx];
      JoinMissingTracked(q1, j1, FilterJoinTables(cfg, flt));
      var (q2, j2) := JoinMissing(q1, j1, FilterJoinTables(cfg, flt));
      NoJoins(q2, j2, [QueryLog.Filter(SqlaFilters.Criterion(flt, value))]);
    }
  }

  lemma {:induction false} JoinStepsTargets(tables: seq<string>)
    ensures QueryLog.JoinTargets(JoinSteps(tables)) == tables
  {
    if tables != [] {
      JoinStepsTargets(tables[1..]);
      assert JoinSteps(tables)[1..] == JoinSteps(tables[1..]);
    }
  }

  lemma {:induction false} SearchStepsFilters(fields: seq<SqlaColumn>, terms: seq<string>)
    ensures forall i :: 0 <= i < |SearchSteps(fields, terms)| ==> SearchSteps(fields, terms)[i].Filter?
  {
    if terms != [] {
      SearchStepsFilters(fields, terms[..|terms| - 1]);
    }
  }

  lemma SearchPlanTracked(supported: bool, fields: seq<SqlaColumn>, searchJoins: seq<string>, search: string)
    requires QueryLog.Distinct(searchJoins)
    ensures Tracked(SearchPlan(supported, fields, searchJoins, search).0, SearchPlan(supported, fields, searchJoins, search).1)
  {
    if supported && search != "" {
      var terms := Split(search, ' ');
      JoinStepsTargets(searchJoins);
      SearchStepsFilters(fields, terms);
      NoJoins(JoinSteps(searchJoins), (set t | t in searchJoins), SearchSteps(fields, terms));
    }
  }

  lemma CountPlanTracked(cfg: ViewConfig, supported: bool, fields: seq<SqlaColumn>, searchJoins: seq<string>,
                         search: string, args: seq<(nat, string)>)
    requires ValidFilterArgs(cfg, args) && QueryLog.Distinct(searchJoins)
    ensures Tracked(CountPlan(cfg, supported, fields, searchJoins, search, args).0,
                    CountPlan(cfg, supported, fields, searchJoins, search, args).1)
  {
    SearchPlanTracked(supported, fields, searchJoins, search);
    var (q, joins) := SearchPlan(supported, fields, searchJoins, search);
    if args != [] && cfg.filters != [] {
      FilterStepsTracked(cfg, q, joins, args);
    }
  }

  lemma OrderByTracked(cfg: ViewConfig, q: Query, joins: set<string>, field: QueryLog.SortTarget, desc: bool)
    requires Tracked(q, joins)
    ensures Tracked(OrderBy(cfg, q, joins, field, desc).0, OrderBy(cfg, q, joins, field, desc).1)
  {
    match field {
      case ByName(s) =>
        var dot := Find(s, '.');
        if dot >= 0 && s[..dot] !in joins {
          JoinOne(q, joins, s[..dot]);
        }
      case ByAttribute(table, _) =>
        if table !in cfg.modelTables && table !in joins {
          JoinOne(q, joins, table);
        }
      case ByColumn(_) =>
    }
    var (q1, j1) := SortJoin(cfg, q, joins, field);
    NoJoins(q1, j1, [QueryLog.OrderBy(field, desc)]);
  }

  lemma SortPlanTracked(cfg: ViewConfig, q: Query, joins: set<string>, sortColumn: Option<string>, sortDesc: bool)
    requires Tracked(q, joins)
    ensures Tracked(SortPlan(cfg, q, joins, sortColumn, sortDesc).0, SortPlan(cfg, q, joins, sortColumn, sortDesc).1)
  {
    match sortColumn {
      case Some(c) =>
        if c in cfg.sortable {
          OrderByTracked(cfg, q, joins, cfg.sortable[c], sortDesc);
        }
      case None =>
        if cfg.defaultOrder.Some? {
          OrderByTracked(cfg, q, joins, cfg.defaultOrder.value.0, cfg.defaultOrder.value.1);
        }
    }
  }

  /**
   * Joins are tracked in one set: no table is joined twice, whether by the
   * search, a filter or the sort, in the count query or the list query.
   */
  lemma JoinedOnce(cfg: ViewConfig, supported: bool, fields: seq<SqlaColumn>, searchJoins: seq<string>,
                   page: Option<int>, sortColumn: Option<string>, sortDesc: bool, search: string,
                   args: seq<(nat, string)>)
    requires ValidFilterArgs(cfg, args) && QueryLog.Distinct(searchJoins)
    ensures QueryLog.Distinct(QueryLog.JoinTargets(CountPlan(cfg, supported, fields, searchJoins, search, args).0))
    ensures QueryLog.Distinct(QueryLog.JoinTargets(
              ListPlan(cfg, supported, fields, searchJoins, page, sortColumn, sortDesc, search, args)))
  {
    CountPlanTracked(cfg, supported, fields, searchJoins, search, args);
    var (count, joins) := CountPlan(cfg, supported, fields, searchJoins, search, args);
    NoJoins(count, joins, JoinedLoads(cfg.autoJoins));
    SortPlanTracked(cfg, count + JoinedLoads(cfg.autoJoins), joins, sortColumn, sortDesc);
    var (sorted, j) := SortPlan(cfg, count + JoinedLoads(cfg.autoJoins), joins, sortColumn, sortDesc);
    NoJoins(sorted, j, Paging(page, cfg.pageSize));
  }

  /** The orderings a query applies, in order. */
  function Orderings(q: Query): seq<(QueryLog.SortTarget, bool)>
  {
    if q == [] then []
    else (if q[0].OrderBy? then [(q[0].field, q[0].desc)] else []) + Orderings(q[1..])
  }

  /** The ordering `get_list` asks for. */
  function RequestedOrder(cfg: ViewConfig, sortColumn: Option<string>, sortDesc: bool): seq<(QueryLog.SortTarget, bool)>
  {
    match sortColumn
    case Some(c) => if c in cfg.sortable then [(cfg.sortable[c], sortDesc)] else []
    case None => if cfg.defaultOrder.Some? then [cfg.defaultOrder.value] else []
  }

  lemma {:induction false} OrderingsAppend(a: Query, b: Query)
    ensures Orderings(a + b) == Orderings(a) + Orderings(b)
  {
    if a == [] {
      assert a + b == b;
    } else {
      OrderingsAppend(a[1..], b);
      assert (a + b)[1..] == a[1..] + b;
    }
  }

  lemma {:induction false} NoOrderings(q: Query)
    requires forall i :: 0 <= i < |q| ==> !q[i].OrderBy?
    ensures Orderings(q) == []
  {
    if q != [] {
      NoOrderings(q[1..]);
    }
  }

  /** `_order_by` adds at most one join, then exactly the ordering asked for. */
  lemma OrderByShape(cfg: ViewConfig, q: Query, joins: set<string>, field: QueryLog.SortTarget, desc: bool)
    ensures var r := OrderBy(cfg, q, joins, field, desc).0;
            |q| < |r| && r[..|q|] == q && (forall i :: |q| <= i < |r| ==> r[i].Join? || r[i].OrderBy?)
            && Orderings(r[|q|..]) == [(field, desc)]
  {
    var q1 := SortJoin(cfg, q, joins, field).0;
    var last := [QueryLog.OrderBy(field, desc)];
    var r := q1 + last;
    assert Orderings(last) == [(field, desc)] by {
      assert last[1..] == [];
    }
    if q1 == q {
      assert r[|q|..] == last;
    } else {
      assert r[|q|..] == [q1[|q|]] + last;
      OrderingsAppend([q1[|q|]], last);
      NoOrderings([q1[|q|]]);
    }
  }

  /** What the sort adds: joins and exactly the requested ordering. */
  lemma SortPlanShape(cfg: ViewConfig, q: Query, joins: set<string>, sortColumn: Option<string>, sortDesc: bool)
    ensures var r := SortPlan(cfg, q, joins, sortColumn, sortDesc).0;
            |q| <= |r| && r[..|q|] == q && (forall i :: |q| <= i < |r| ==> r[i].Join? || r[i].OrderBy?)
            && Orderings(r[|q|..]) == RequestedOrder(cfg, sortColumn, sortDesc)
  {
    match sortColumn {
      case Some(c) =>
        if c in cfg.sortable {
          OrderByShape(cfg, q, joins, cfg.sortable[c], sortDesc);
        } else {
          assert q[|q|..] == [];
        }
      case None =>
        if cfg.defaultOrder.Some? {
          OrderByShape(cfg, q, joins, cfg.defaultOrder.value.0, cfg.defaultOrder.value.1);
        } else {
          assert q[|q|..] == [];
        }
    }
  }

  /** Whether a step may follow the count: joins, eager loads, orderings and pagination, never a filter. */
  predicate AfterCount(s: QueryLog.Step)
  {
    s.Join? || s.JoinedLoad? || s.OrderBy? || s.Offset? || s.Limit?
  }

  /** The steps after the count: eager loads, the sort's joins and ordering, then the paging. */
  lemma {:induction false} PlanTail(count: Query, loads: Query, sortTail: Query, page: Option<int>, pageSize: int,
                 order: seq<(QueryLog.SortTarget, bool)>)
    requires forall i :: 0 <= i < |loads| ==> loads[i].JoinedLoad?
    requires forall i :: 0 <= i < |sortTail| ==> sortTail[i].Join? || sortTail[i].OrderBy?
    requires Orderings(sortTail) == order
    ensures var list := count + loads + sortTail + Paging(page, pageSize);
            |count| < |list| && list[..|count|] == count
            && (forall i :: |count| <= i < |list| ==> AfterCount(list[i]))
            && Orderings(list[|count|..]) == order
            && list[|list| - 1] == QueryLog.Limit(pageSize)
            && (page.Some? ==> |count| + 2 <= |list| && list[|list| - 2] == QueryLog.Offset(page.value * pageSize))
            && (page.None? ==> forall i :: |count| <= i < |list| ==> !list[i].Offset?)
  {
    var tail := loads + sortTail + Paging(page, pageSize);
    TailShape(loads, sortTail, page, pageSize, order);
    assert count + loads + sortTail + Paging(page, pageSize) == count + tail;
    Prefixed(count, tail);
  }

  /** The facts of `PlanTail` about the steps after the count, on their own. */
  lemma {:induction false} TailShape(loads: Query, sortTail: Query, page: Option<int>, pageSize: int,
                  order: seq<(QueryLog.SortTarget, bool)>)
    requires forall i :: 0 <= i < |loads| ==> loads[i].JoinedLoad?
    requires forall i :: 0 <= i < |sortTail| ==> sortTail[i].Join? || sortTail[i].OrderBy?
    requires Orderings(sortTail) == order
    ensures var tail := loads + sortTail + Paging(page, pageSize);
            0 < |tail|
            && (forall i :: 0 <= i < |tail| ==> AfterCount(tail[i]))
            && Orderings(tail) == order
            && tail[|tail| - 1] == QueryLog.Limit(pageSize)
            && (page.Some? ==> 2 <= |tail| && tail[|tail| - 2] == QueryLog.Offset(page.value * pageSize))
            && (page.None? ==> forall i :: 0 <= i < |tail| ==> !tail[i].Offset?)
  {
    var paging := Paging(page, pageSize);
    TailOrderings(loads, sortTail, paging, order);
    PagingEnd(loads + sortTail, page, pageSize);
    TailAfterCount(loads, sortTail, paging);
    if page.None? {
      var tail := loads + sortTail + paging;
      forall i | 0 <= i < |tail|
        ensures !tail[i].Offset?
      {
        if i < |loads| + |sortTail| {
          assert tail[i] == (loads + sortTail)[i];
        }
      }
    }
  }

  /** Indexing `count + tail` past the count is indexing `tail`. */
  lemma Prefixed(count: Query, tail: Query)
    requires 0 < |tail|
    ensures var list := count + tail;
            list[..|count|] == count && list[|count|..] == tail
            && list[|list| - 1] == tail[|tail| - 1]
            && (2 <= |tail| ==> list[|list| - 2] == tail[|tail| - 2])
            && forall i :: |count| <= i < |list| ==> list[i] == tail[i - |count|]
  {
  }

  lemma {:induction false} TailAfterCount(loads: Query, sortTail: Query, paging: Query)
    requires forall i :: 0 <= i < |loads| ==> loads[i].JoinedLoad?
    requires forall i :: 0 <= i < |sortTail| ==> sortTail[i].Join? || sortTail[i].OrderBy?
    requires forall i :: 0 <= i < |paging| ==> paging[i].Offset? || paging[i].Limit?
    ensures forall i :: 0 <= i < |loads + sortTail + paging| ==> AfterCount((loads + sortTail + paging)[i])
  {
    var tail := loads + sortTail + paging;
    forall i | 0 <= i < |tail|
      ensures AfterCount(tail[i])
    {
      if i < |loads| {
        assert tail[i] == loads[i];
      } else if i < |loads| + |sortTail| {
        assert tail[i] == sortTail[i - |loads|];
      } else {
        assert tail[i] == paging[i - |loads| - |sortTail|];
      }
    }
  }

  lemma {:induction false} TailOrderings(loads: Query, sortTail: Query, paging: Query, order: seq<(QueryLog.SortTarget, bool)>)
    requires forall i :: 0 <= i < |loads| ==> loads[i].JoinedLoad?
    requires forall i :: 0 <= i < |paging| ==> paging[i].Offset? || paging[i].Limit?
    requires Orderings(sortTail) == order
    ensures Orderings(loads + sortTail + paging) == order
  {
    OrderingsAppend(loads + sortTail, paging);
    OrderingsAppend(loads, sortTail);
    NoOrderings(loads);
    NoOrderings(paging);
  }

  lemma PagingEnd(prefix: Query, page: Option<int>, pageSize: int)
    ensures var list := prefix + Paging(page, pageSize);
            |prefix| < |list| && list[..|prefix|] == prefix
            && (forall i :: |prefix| <= i < |list| ==> list[i].Offset? || list[i].Limit?)
            && list[|list| - 1] == QueryLog.Limit(pageSize)
            && (page.Some? ==> |list| == |prefix| + 2 && list[|list| - 2] == QueryLog.Offset(page.value * pageSize))
            && (page.None? ==> |list| == |prefix| + 1)
  {
  }

  /**
   * The list query is the count query followed by eager loads, the joins and
   * the ordering of the sort, then the paging: the count sees the search and
   * the filters but no sorting or paging; the only ordering is the requested
   * one, so a sort column that is not sortable orders nothing (not even by
   * the default order); the list ends with an offset of page × page_size
   * exactly when a page is given, and always with a limit of page_size.
   */
  lemma ListAfterCount(cfg: ViewConfig, supported: bool, fields: seq<SqlaColumn>, searchJoins: seq<string>,
                       page: Option<int>, sortColumn: Option<string>, sortDesc: bool, search: string,
                       args: seq<(nat, string)>)
    requires ValidFilterArgs(cfg, args)
    ensures var count := CountPlan(cfg, supported, fields, searchJoins, search, args).0;
            var list := ListPlan(cfg, supported, fields, searchJoins, page, sortColumn, sortDesc, search, args);
            |count| < |list| && list[..|count|] == count
            && (forall i :: |count| <= i < |list| ==> AfterCount(list[i]))
            && Orderings(list[|count|..]) == RequestedOrder(cfg, sortColumn, sortDesc)
            && list[|list| - 1] == QueryLog.Limit(cfg.pageSize)
            && (page.Some? ==> |count| + 2 <= |list| && list[|list| - 2] == QueryLog.Offset(page.value * cfg.pageSize))
            && (page.None? ==> forall i :: |count| <= i < |list| ==> !list[i].Offset?)
  {
    ListPlanParts(cfg, supported, fields, searchJoins, page, sortColumn, sortDesc, search, args);
    var (count, joins) := CountPlan(cfg, supported, fields, searchJoins, search, args);
    var loads := JoinedLoads(cfg.autoJoins);
    SortPlanShape(cfg, count + loads, joins, sortColumn, sortDesc);
    var sorted := SortPlan(cfg, count + loads, joins, sortColumn, sortDesc).0;
    var sortTail := sorted[|count + loads|..];
    assert sorted == count + loads + sortTail;
    PlanTail(count, loads, sortTail, page, cfg.pageSize, RequestedOrder(cfg, sortColumn, sortDesc));
  }

  // ---------------------------------------------------------------------
  // is_action_allowed

  /** `is_action_allowed`: `'delete'` needs `can_delete`; then the base view's disallowed list decides. */
  predicate IsActionAllowed(cfg: ViewConfig, name: string)
  {
    !(name == "delete" && !cfg.canDelete) && ModelBase.IsActionAllowed(name, cfg.disallowedActions)
  }

  /** `'delete'` is refused without `can_delete`; every other case follows the disallowed list. */
  lemma ActionPermission(cfg: ViewConfig, name: string)
    ensures name == "delete" && !cfg.canDelete ==> !IsActionAllowed(cfg, name)
    ensures name != "delete" || cfg.canDelete ==> (IsActionAllowed(cfg, name) <==> name !in cfg.disallowedActions)
  {
  }

  // ---------------------------------------------------------------------
  // The view

  class ModelView {
    const config: ViewConfig
    var searchSupported: bool          // _search_supported
    var searchFields: seq<SqlaColumn>  // _search_fields
    var searchJoins: seq<string>       // _search_joins, in first-seen order (see SearchJoins)

    ghost predicate Valid()
      reads this
    {
      QueryLog.Distinct(searchJoins)
    }

    constructor(config: ViewConfig)
      ensures this.config == config
      ensures !searchSupported && searchFields == [] && searchJoins == []
      ensures Valid()
    {
      this.config := config;
      searchSupported := false;
      searchFields := [];
      searchJoins := [];
    }

    /** `scaffold_list_columns` */
    method ScaffoldListColumns() returns (columns: seq<string>)
      ensures columns == ListedKeys(config.props, config.displayAllRelations, config.displayPk)
    {
      var props := config.props;
      columns := [];
      for i := 0 to |props|
        invariant columns == ListedKeys(props[..i], config.displayAllRelations, config.displayPk)
      {
        assert props[..i + 1][..i] == props[..i];
        var p := props[i];
        match p {
          case Relationship(key, direction, _, _) =>
            if config.displayAllRelations || direction == SqlaTools.ManyToOne {
              columns := columns + [key];
            }
          case ColumnProperty(key, column, _) =>
            if !column.hasForeignKeys && (config.displayPk || !column.primaryKey) {
              columns := columns + [key];
            }
          case OtherProperty(_) =>
        }
      }
      assert props[..|props|] == props;
    }

    /** `scaffold_sortable_columns` */
    method ScaffoldSortableColumns() returns (columns: map<string, SqlaColumn>)
      ensures columns == SortableMap(config.props, config.displayPk)
    {
      var props := config.props;
      columns := map[];
      for i := 0 to |props|
        invariant columns == SortableMap(props[..i], config.displayPk)
      {
        assert props[..i + 1][..i] == props[..i];
        var p := props[i];
        if p.ColumnProperty? {
          if |p.Columns()| > 1 {
            continue;
          }
          var column := p.Columns()[0];
          if column.hasForeignKeys {
            continue;
          }
          if !config.displayPk && column.primaryKey {
            continue;
          }
          columns := columns[p.key := column];
        }
      }
      assert props[..|props|] == props;
    }

    /**
     * `init_search`: with searchable fields, it rebuilds the search columns
     * and joins and answers True, or raises for a field that is not a text
     * column attribute; with none, it changes nothing and answers False.
     */
    method InitSearch() returns (r: Result<bool>)
      requires Valid()
      modifies this
      ensures Valid() && searchSupported == old(searchSupported)
      ensures config.searchable == [] ==>
                r == Ok(false) && searchFields == old(searchFields) && searchJoins == old(searchJoins)
      ensures config.searchable != [] ==>
                (r.Ok? <==> SearchColumns(config.attrs, config.searchable).Ok?)
                && (r.Err? ==> SearchColumns(config.attrs, config.searchable) == Err(r.error))
                && (r.Ok? ==> r.value && searchFields == SearchColumns(config.attrs, config.searchable).value
                              && searchJoins == SearchJoins(searchFields, config.modelTables))
    {
      var searchable := config.searchable;
      if searchable == [] {
        return Ok(false);
      }
      searchFields := [];
      searchJoins := [];
      for i := 0 to |searchable|
        invariant SearchColumns(config.attrs, searchable[..i]) == Ok(searchFields)
        invariant searchJoins == SearchJoins(searchFields, config.modelTables)
        invariant Valid() && searchSupported == old(searchSupported)
      {
        var p := searchable[i];
        var found := ColumnsForField(config.attrs, p);
        if found.Err? {
          SearchColumnsStepErr(config.attrs, searchable, i, searchFields, found.error);
          return Err(found.error);
        }
        var cols := found.value;
        ghost var before := searchFields;
        var ok := AddSearchColumns(cols);
        if !ok {
          SearchColumnsStepErr(config.attrs, searchable, i, before, NotTextError(p));
          return Err(NotTextError(p));
        }
        SearchColumnsStep(config.attrs, searchable, i, before, cols);
      }
      assert searchable[..|searchable|] == searchable;
      return Ok(true);
    }

    /** The inner loop of `init_search`: one field's columns, each checked to be text and recorded. */
    method AddSearchColumns(cols: seq<SqlaColumn>) returns (ok: bool)
      requires Valid() && searchJoins == SearchJoins(searchFields, config.modelTables)
      modifies this
      ensures Valid() && searchSupported == old(searchSupported)
      ensures ok <==> AllText(cols)
      ensures ok ==> searchFields == old(searchFields) + cols
                     && searchJoins == SearchJoins(searchFields, config.modelTables)
    {
      var fields, joins, tables := searchFields, searchJoins, config.modelTables;
      ghost var start := fields;
      for j := 0 to |cols|
        invariant fields == start + cols[..j]
        invariant AllText(cols[..j])
        invariant joins == SearchJoins(fields, tables)
        invariant searchSupported == old(searchSupported)
      {
        var column := cols[j];
        if !IsTextColumnType(SqlaTools.TypeName(column)) {
          assert column in cols;
          SearchJoinsDistinct(fields, tables);
          searchFields, searchJoins := fields, joins;
          return false;
        }
        AllTextSnoc(cols, j);
        PrefixSnoc(start, cols, j);
        SearchJoinsStep(fields, tables, column);
        fields := fields + [column];
        var table := column.column.table;
        if table !in tables && table !in joins {
          joins := joins + [table];
        }
      }
      assert cols[..|cols|] == cols;
      SearchJoinsDistinct(fields, tables);
      searchFields, searchJoins := fields, joins;
      return true;
    }

    /** `get_list` without executing: the count query and the list query. */
    method GetList(page: Option<int>, sortColumn: Option<string>, sortDesc: bool, search: string,
                   args: seq<(nat, string)>) returns (countQuery: Query, query: Query)
      requires ValidFilterArgs(config, args)
      ensures countQuery == CountPlan(config, searchSupported, searchFields, searchJoins, search, args).0
      ensures query == ListPlan(config, searchSupported, searchFields, searchJoins, page, sortColumn, sortDesc, search, args)
    {
      var cfg, fields := config, searchFields;
      var joins: set<string> := {};
      query := [];
      countQuery := [];
      if searchSupported && search != "" {
        query, countQuery, joins := ApplySearch(fields, searchJoins, search);
      }
      assert (query, joins) == SearchPlan(searchSupported, fields, searchJoins, search);
      if args != [] && cfg.filters != [] {
        query, countQuery, joins := ApplyFilters(cfg, query, countQuery, joins, args);
      }
      assert (countQuery, joins) == CountPlan(cfg, searchSupported, fields, searchJoins, search, args);
      query := SortAndPage(cfg, countQuery, joins, page, sortColumn, sortDesc);
      ListPlanParts(cfg, searchSupported, fields, searchJoins, page, sortColumn, sortDesc, search, args);
    }
  }

  /** The end of `get_list`: eager loads, the ordering, then the paging. */
  method SortAndPage(cfg: ViewConfig, countQuery: Query, joins0: set<string>, page: Option<int>,
                     sortColumn: Option<string>, sortDesc: bool) returns (query: Query)
    ensures query == SortPlan(cfg, countQuery + JoinedLoads(cfg.autoJoins), joins0, sortColumn, sortDesc).0
                     + Paging(page, cfg.pageSize)
  {
    query := countQuery;
    var joins := joins0;
    for i := 0 to |cfg.autoJoins|
      invariant query == countQuery + JoinedLoads(cfg.autoJoins[..i])
    {
      query := query + [QueryLog.JoinedLoad(cfg.autoJoins[i])];
    }
    assert cfg.autoJoins[..|cfg.autoJoins|] == cfg.autoJoins;
    ghost var loaded := query;
    match sortColumn {
      case Some(c) =>
        if c in cfg.sortable {
          var ordered := OrderBy(cfg, query, joins, cfg.sortable[c], sortDesc);
          query, joins := ordered.0, ordered.1;
        }
      case None =>
        if cfg.defaultOrder.Some? {
          var ordered := OrderBy(cfg, query, joins, cfg.defaultOrder.value.0, cfg.defaultOrder.value.1);
          query, joins := ordered.0, ordered.1;
        }
    }
    assert query == SortPlan(cfg, loaded, joins0, sortColumn, sortDesc).0;
    if page.Some? {
      query := query + [QueryLog.Offset(page.value * cfg.pageSize)];
    }
    query := query + [QueryLog.Limit(cfg.pageSize)];
  }

  /** The search part of `get_list`: the search joins, then one clause per non-empty term, on both queries. */
  method ApplySearch(fields: seq<SqlaColumn>, searchJoins: seq<string>, search: string)
    returns (query: Query, countQuery: Query, joins: set<string>)
    requires search != ""
    ensures countQuery == query && (query, joins) == SearchPlan(true, fields, searchJoins, search)
  {
    query := [];
    countQuery := [];
    for i := 0 to |searchJoins|
      invariant query == countQuery == JoinSteps(searchJoins[..i])
    {
      query := query + [QueryLog.Join(searchJoins[i])];
      countQuery := countQuery + [QueryLog.Join(searchJoins[i])];
    }
    assert searchJoins[..|searchJoins|] == searchJoins;
    joins := set t | t in searchJoins;
    var terms := Split(search, ' ');
    for i := 0 to |terms|
      invariant query == countQuery == JoinSteps(searchJoins) + SearchSteps(fields, terms[..i])
    {
      assert terms[..i + 1][..i] == terms[..i];
      var term := terms[i];
      if term != "" {
        var clause := SearchClause(fields, term);
        query := query + [clause];
        countQuery := countQuery + [clause];
      }
    }
    assert terms[..|terms|] == terms;
  }

  /** The filter part of `get_list`: each filter's missing joins, then its criterion, on both queries. */
  method ApplyFilters(cfg: ViewConfig, query0: Query, countQuery0: Query, joins0: set<string>, args: seq<(nat, string)>)
    returns (query: Query, countQuery: Query, joins: set<string>)
    requires |cfg.filters| > 0 && ValidFilterArgs(cfg, args) && countQuery0 == query0
    ensures countQuery == query && (query, joins) == FilterSteps(cfg, query0, joins0, args)
  {
    query, countQuery, joins := query0, countQuery0, joins0;
    for i := 0 to |args|
      invariant countQuery == query && (query, joins) == FilterSteps(cfg, query0, joins0, args[..i])
    {
      assert args[..i + 1][..i] == args[..i];
      var (idx, value) := args[i];
      var flt := cfg.filters[idx];
      query, countQuery, joins := JoinTables(query, countQuery, joins, FilterJoinTables(cfg, flt));
      query := SqlaFilters.Apply(flt, query, value);
      countQuery := SqlaFilters.Apply(flt, countQuery, value);
    }
    assert args[..|args|] == args;
  }

  /** Joins each of the tables not joined yet, on both queries. */
  method JoinTables(query0: Query, countQuery0: Query, joins0: set<string>, tables: seq<string>)
    returns (query: Query, countQuery: Query, joins: set<string>)
    requires countQuery0 == query0
    ensures countQuery == query && (query, joins) == JoinMissing(query0, joins0, tables)
  {
    query, countQuery, joins := query0, countQuery0, joins0;
    for k := 0 to |tables|
      invariant countQuery == query && (query, joins) == JoinMissing(query0, joins0, tables[..k])
    {
      assert tables[..k + 1][..k] == tables[..k];
      if tables[k] !in joins {
        query := query + [QueryLog.Join(tables[k])];
        countQuery := countQuery + [QueryLog.Join(tables[k])];
        joins := joins + {tables[k]};
      }
    }
    assert tables[..|tables|] == tables;
  }

  /**
   * Building a view (`ModelView.__init__`): the base constructor's search
   * set-up runs first and may raise; then a model without a primary key is
   * refused. The list columns, forms and filters that `_refresh_cache` also
   * builds come already built in the configuration, so their errors are not
   * among this constructor's.
   */
  method NewModelView(config: ViewConfig) returns (r: Result<ModelView>)
    ensures r.Ok? ==> fresh(r.value) && r.value.config == config && r.value.Valid()
    ensures r.Ok? ==> r.value.searchSupported == (config.searchable != [])
    ensures r.Err? <==>
              (config.searchable != [] && SearchColumns(config.attrs, config.searchable).Err?)
              || SqlaTools.GetPrimaryKey(config.props).None?
  {
    var v := new ModelView(config);
    var supported := v.InitSearch();
    if supported.Err? {
      return Err(supported.error);
    }
    v.searchSupported := supported.value;
    var pk := SqlaTools.FindPrimaryKey(config.props);
    if pk.None? {
      return Err("Model does not have primary key.");
    }
    return Ok(v);
  }
}
