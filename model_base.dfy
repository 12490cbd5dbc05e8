/** lib/flask_admin/model/base.py: the list-view decisions of `BaseModelView`. */
module ModelBase {
  import opened Wrappers
  import opened Filters
  import ModelHelpers

  /** `get_column_name`: the configured label, else the prettified field name. */
  function ColumnName(labels: map<string, string>, field: string): (r: string)
    ensures field in labels ==> r == labels[field]
    ensures field !in labels ==> r == ModelHelpers.PrettifyName(field)
  {
    if |labels| > 0 && field in labels then labels[field] else ModelHelpers.PrettifyName(field)
  }

  /** `[c for c in columns if c not in exclude]` */
  function Without(columns: seq<string>, exclude: seq<string>): (r: seq<string>)
    ensures forall c :: c in r <==> c in columns && c !in exclude
    ensures |r| <= |columns|
  {
    if columns == [] then []
    else (if columns[0] in exclude then [] else [columns[0]]) + Without(columns[1..], exclude)
  }

  /** Filtering keeps the order: it distributes over concatenation. */
  lemma {:induction false} WithoutAppend(a: seq<string>, b: seq<string>, exclude: seq<string>)
    ensures Without(a + b, exclude) == Without(a, exclude) + Without(b, exclude)
  {
    if a == [] {
      assert a + b == b;
    } else {
      assert (a + b)[1..] == a[1..] + b;
      WithoutAppend(a[1..], b, exclude);
    }
  }

  lemma {:induction false} WithoutNothing(columns: seq<string>, exclude: seq<string>)
    requires forall i :: 0 <= i < |columns| ==> columns[i] !in exclude
    ensures Without(columns, exclude) == columns
  {
    if columns != [] {
      WithoutNothing(columns[1..], exclude);
    }
  }

  function Labelled(columns: seq<string>, labels: map<string, string>): (r: seq<(string, string)>)
    ensures |r| == |columns|
    ensures forall i :: 0 <= i < |columns| ==> r[i] == (columns[i], ColumnName(labels, columns[i]))
  {
    seq(|columns|, i requires 0 <= i < |columns| => (columns[i], ColumnName(labels, columns[i])))
  }

  /**
   * `get_list_columns`: an explicit `column_list` is used as it is;
   * otherwise the scaffolded columns without the excluded ones.
   */
  function ListColumns(columnList: Option<seq<string>>, scaffolded: seq<string>, exclude: seq<string>,
                       labels: map<string, string>): (r: seq<(string, string)>)
    ensures columnList.Some? ==> r == Labelled(columnList.value, labels)
    ensures columnList.None? ==> r == Labelled(Without(scaffolded, exclude), labels)
  {
    match columnList
    case Some(columns) => Labelled(columns, labels)
    case None =>
      if |exclude| > 0 then Labelled(Without(scaffolded, exclude), labels)
      else WithoutNothing(scaffolded, exclude); Labelled(scaffolded, labels)
  }

  /** An entry of `column_sortable_list`: a name, or a (name, sort field) tuple. */
  datatype SortableEntry = Plain(name: string) | Pair(name: string, field: string)

  /** `get_sortable_columns` for a given `column_sortable_list`: later entries overwrite earlier ones. */
  function SortableFrom(entries: seq<SortableEntry>): (r: map<string, string>)
    ensures r.Keys == set e | e in entries :: e.name
  {
    if entries == [] then map[]
    else
      var last := entries[|entries| - 1];
      var rest := SortableFrom(entries[..|entries| - 1]);
      assert forall e :: e in entries <==> e in entries[..|entries| - 1] || e == last;
      rest[last.name := if last.Pair? then last.field else last.name]
  }

  /** A name maps to the field of the last entry that names it. */
  lemma {:induction false} SortableLast(entries: seq<SortableEntry>, i: nat)
    requires i < |entries|
    requires forall j :: i < j < |entries| ==> entries[j].name != entries[i].name
    ensures SortableFrom(entries)[entries[i].name] == if entries[i].Pair? then entries[i].field else entries[i].name
  {
    if i < |entries| - 1 {
      SortableLast(entries[..|entries| - 1], i);
    }
  }

  /** `get_sortable_columns` */
  function SortableColumns(sortableList: Option<seq<SortableEntry>>, scaffolded: map<string, string>): (r: map<string, string>)
    ensures sortableList.None? ==> r == scaffolded
    ensures sortableList.Some? ==> r == SortableFrom(sortableList.value)
  {
    match sortableList
    case None => if |scaffolded| > 0 then scaffolded else map[]
    case Some(entries) => SortableFrom(entries)
  }

  /** `_get_column_by_idx` */
  function ColumnByIdx(columns: seq<(string, string)>, idx: Option<int>): (r: Option<(string, string)>)
    ensures r.None? <==> idx.None? || idx.value < 0 || idx.value >= |columns|
    ensures r.Some? ==> r.value == columns[idx.value]
  {
    if idx.None? || idx.value < 0 || idx.value >= |columns| then None else Some(columns[idx.value])
  }

  /** `column_default_sort`: unset, a bare field name, or a (field, descending) tuple. */
  datatype DefaultSort = Unset | Field(name: string) | FieldDesc(name: string, desc: bool)

  /** `_get_default_order`: a bare name sorts ascending; an empty name is no order. */
  function DefaultOrder(d: DefaultSort): (r: Option<(string, bool)>)
    ensures d.Field? && d.name != "" ==> r == Some((d.name, false))
    ensures d.FieldDesc? ==> r == Some((d.name, d.desc))
    ensures d.Unset? || (d.Field? && d.name == "") ==> r.None?
  {
    match d
    case Unset => None
    case Field(n) => if n != "" then Some((n, false)) else None
    case FieldDesc(n, desc) => Some((n, desc))
  }

  /** The number of pages in `index_view`. */
  function NumPages(count: nat, pageSize: int): (r: nat)
    requires pageSize > 0
    ensures (r - 1) * pageSize < count <= r * pageSize || (count == 0 && r == 0)
  {
    count / pageSize + (if count % pageSize != 0 then 1 else 0)
  }

  /** `dict(choices)`: for a repeated value the last label wins. */
  function ChoicesMap<V(==,!new)>(choices: seq<(V, string)>): (r: map<V, string>)
    ensures r.Keys == set p | p in choices :: p.0
    ensures forall i :: 0 <= i < |choices| && (forall j :: i < j < |choices| ==> choices[j].0 != choices[i].0) ==>
              r[choices[i].0] == choices[i].1
  {
    if choices == [] then map[]
    else
      var last := choices[|choices| - 1];
      var rest := ChoicesMap(choices[..|choices| - 1]);
      assert forall p :: p in choices <==> p in choices[..|choices| - 1] || p == last;
      assert forall i :: 0 <= i < |choices| - 1 ==> choices[..|choices| - 1][i] == choices[i];
      rest[last.0 := last.1]
  }

  /** What a list cell shows, as `get_list_value` chooses it. */
  datatype Shown<V> = Formatted(text: string) | Caption(caption: string) | Raw(value: V)

  /**
   * `get_list_value`: a column formatter's output, else the choice label
   * when the column has choices and the label is non-empty, else the value
   * passed through its type's formatter, else the raw value. `formatted`
   * is the column formatter's output when one is configured.
   */
  function ListValue<V(==)>(formatted: Option<string>, value: V, choices: map<V, string>,
                            typeFormatter: Option<V -> V>): (r: Shown<V>)
    ensures formatted.Some? ==> r == Formatted(formatted.value)
    ensures formatted.None? && |choices| > 0 ==>
              r == (if value in choices && choices[value] != "" then Caption(choices[value]) else Raw(value))
    ensures formatted.None? && |choices| == 0 && typeFormatter.Some? ==> r == Raw(typeFormatter.value(value))
    ensures formatted.None? && |choices| == 0 && typeFormatter.None? ==> r == Raw(value)
  {
    if formatted.Some? then Formatted(formatted.value)
    else if |choices| > 0 then
      if value in choices && choices[value] != "" then Caption(choices[value]) else Raw(value)
    else if typeFormatter.Some? then Raw(typeFormatter.value(value))
    else Raw(value)
  }

  /** `is_action_allowed` */
  predicate IsActionAllowed(name: string, disallowed: seq<string>)
  {
    name !in disallowed
  }

  /** An entry of `column_filters`: a filter object, or a field name to scaffold filters for. */
  datatype FilterSpec<C> = FilterObject(filter: ColumnFilter<C>) | FieldName(name: string)

  /** A scaffolding result Python treats as false: None or an empty list. */
  predicate Falsy<C>(r: Option<seq<ColumnFilter<C>>>)
  {
    r.None? || r.value == []
  }

  /** The filters `get_filters` collects from a non-empty `column_filters`. */
  function CollectFilters<C>(specs: seq<FilterSpec<C>>, scaffold: string -> Option<seq<ColumnFilter<C>>>): (r: Result<seq<ColumnFilter<C>>>)
    ensures r.Err? <==> exists i :: 0 <= i < |specs| && specs[i].FieldName? && Falsy(scaffold(specs[i].name))
    ensures r.Ok? ==> |r.value| >= |specs|
  {
    if specs == [] then Ok([])
    else
      var rest := CollectFilters(specs[1..], scaffold);
      assert forall i :: 1 <= i < |specs| ==> specs[i] == specs[1..][i - 1];
      match specs[0]
      case FilterObject(f) => if rest.Ok? then Ok([f] + rest.value) else rest
      case FieldName(n) =>
        var flt := scaffold(n);
        if Falsy(flt) then Err("Unsupported filter type " + n)
        else if rest.Ok? then Ok(flt.value + rest.value) else rest
  }

  /** Filter objects are kept, in order, between the scaffolded filters. */
  function Objects<C>(specs: seq<FilterSpec<C>>): (r: seq<ColumnFilter<C>>)
    requires forall i :: 0 <= i < |specs| ==> specs[i].FilterObject?
    ensures |r| == |specs| && forall i :: 0 <= i < |specs| ==> r[i] == specs[i].filter
  {
    seq(|specs|, i requires 0 <= i < |specs| => specs[i].filter)
  }

  /** Filter objects alone are kept as they are, in order. */
  lemma {:induction false} CollectFiltersObjects<C>(specs: seq<FilterSpec<C>>, scaffold: string -> Option<seq<ColumnFilter<C>>>)
    requires forall i :: 0 <= i < |specs| ==> specs[i].FilterObject?
    ensures CollectFilters(specs, scaffold) == Ok(Objects(specs))
  {
    if specs != [] {
      CollectFiltersObjects(specs[1..], scaffold);
      assert Objects(specs) == [specs[0].filter] + Objects(specs[1..]);
    }
  }

  /** `r` with `prefix` in front of its filters. */
  function Prepend<C>(prefix: seq<ColumnFilter<C>>, r: Result<seq<ColumnFilter<C>>>): Result<seq<ColumnFilter<C>>>
  {
    if r.Ok? then Ok(prefix + r.value) else r
  }

  /** `get_filters`: None when `column_filters` is empty, else every filter in order. */
  method GetFilters<C>(columnFilters: seq<FilterSpec<C>>, scaffold: string -> Option<seq<ColumnFilter<C>>>)
    returns (r: Result<Option<seq<ColumnFilter<C>>>>)
    ensures columnFilters == [] ==> r == Ok(None)
    ensures columnFilters != [] ==> match CollectFilters(columnFilters, scaffold)
                                    case Ok(fs) => r == Ok(Some(fs))
                                    case Err(e) => r == Err(e)
  {
    if columnFilters == [] {
      return Ok(None);
    }
    var collection: seq<ColumnFilter<C>> := [];
    var i := 0;
    assert columnFilters[0..] == columnFilters;
    assert CollectFilters(columnFilters, scaffold).Ok? ==> [] + CollectFilters(columnFilters, scaffold).value == CollectFilters(columnFilters, scaffold).value;
    while i < |columnFilters|
      invariant 0 <= i <= |columnFilters|
      invariant CollectFilters(columnFilters, scaffold) == Prepend(collection, CollectFilters(columnFilters[i..], scaffold))
    {
      assert columnFilters[i..][1..] == columnFilters[i + 1..];
      var rest := CollectFilters(columnFilters[i + 1..], scaffold);
      match columnFilters[i] {
        case FilterObject(f) =>
          assert rest.Ok? ==> collection + ([f] + rest.value) == (collection + [f]) + rest.value;
          collection := collection + [f];
        case FieldName(n) =>
          var flt := scaffold(n);
          if Falsy(flt) {
            return Err("Unsupported filter type " + n);
          }
          assert rest.Ok? ==> collection + (flt.value + rest.value) == (collection + flt.value) + rest.value;
          collection := collection + flt.value;
      }
      i := i + 1;
    }
    assert collection + [] == collection;
    return Ok(Some(collection));
  }

  /** The (index, operation) pairs of the filters before `n` that carry `name`, in index order. */
  function Entries<C>(fs: seq<ColumnFilter<C>>, n: nat, name: string): seq<(nat, string)>
    requires n <= |fs|
  {
    if n == 0 then []
    else Entries(fs, n - 1, name) + (if fs[n - 1].base.name == name then [(n - 1, OperationName(fs[n - 1].op))] else [])
  }

  /** The names of the filters before `n`, each once, in order of first appearance. */
  function GroupNames<C>(fs: seq<ColumnFilter<C>>, n: nat): seq<string>
    requires n <= |fs|
  {
    if n == 0 then []
    else
      var p := GroupNames(fs, n - 1);
      if fs[n - 1].base.name in p then p else p + [fs[n - 1].base.name]
  }

  /** A group holds exactly the filters of its name, each once, by increasing index. */
  lemma {:induction false} EntriesFacts<C>(fs: seq<ColumnFilter<C>>, n: nat, name: string)
    requires n <= |fs|
    ensures var r := Entries(fs, n, name);
      && (forall e :: 0 <= e < |r| ==> r[e].0 < n && fs[r[e].0].base.name == name && r[e].1 == OperationName(fs[r[e].0].op))
      && (forall e1, e2 :: 0 <= e1 < e2 < |r| ==> r[e1].0 < r[e2].0)
      && (forall i :: 0 <= i < n && fs[i].base.name == name ==> (i, OperationName(fs[i].op)) in r)
  {
    if n > 0 {
      EntriesFacts(fs, n - 1, name);
    }
  }

  /** The group names are distinct, and they are the names of the filters seen. */
  lemma {:induction false} GroupNamesFacts<C>(fs: seq<ColumnFilter<C>>, n: nat)
    requires n <= |fs|
    ensures var r := GroupNames(fs, n);
      && (forall k1, k2 :: 0 <= k1 < k2 < |r| ==> r[k1] != r[k2])
      && (forall i :: 0 <= i < n ==> fs[i].base.name in r)
      && (forall k :: 0 <= k < |r| ==> exists i :: 0 <= i < n && fs[i].base.name == r[k])
  {
    if n > 0 {
      GroupNamesFacts(fs, n - 1);
      var p := GroupNames(fs, n - 1);
      var r := GroupNames(fs, n);
      forall k | 0 <= k < |r| ensures exists i :: 0 <= i < n && fs[i].base.name == r[k] {
        if k < |p| {
          var i :| 0 <= i < n - 1 && fs[i].base.name == p[k];
        } else {
          assert fs[n - 1].base.name == r[k];
        }
      }
    }
  }

  /** A name without a group has no entries. */
  lemma {:induction false} EntriesOfUnseen<C>(fs: seq<ColumnFilter<C>>, n: nat, x: string)
    requires n <= |fs| && x !in GroupNames(fs, n)
    ensures Entries(fs, n, x) == []
  {
    if n > 0 {
      EntriesOfUnseen(fs, n - 1, x);
    }
  }

  /** `_filter_dict` after the first `n` filters. */
  function DictUpTo<C>(fs: seq<ColumnFilter<C>>, n: nat): (r: map<string, seq<(nat, string)>>)
    requires n <= |fs|
  {
    map x | x in GroupNames(fs, n) :: Entries(fs, n, x)
  }

  /** `_filter_groups`: one (name, entries) group per distinct name. */
  function Groups<C>(fs: seq<ColumnFilter<C>>): (r: seq<(string, seq<(nat, string)>)>)
  {
    var names := GroupNames(fs, |fs|);
    seq(|names|, k requires 0 <= k < |names| => (names[k], Entries(fs, |fs|, names[k])))
  }

  /** `_filter_types`: the data type of every filter that has one. */
  function FilterTypes<C>(fs: seq<ColumnFilter<C>>): (r: map<nat, string>)
    ensures forall i: nat :: i in r <==> i < |fs| && fs[i].base.dataType.Some? && fs[i].base.dataType.value != ""
  {
    map i: nat | i < |fs| && fs[i].base.dataType.Some? && fs[i].base.dataType.value != "" :: fs[i].base.dataType.value
  }

  // The groups partition the filter indices: every filter is in the group
  // of its name, no group holds a filter of another name, and no name has
  // two groups.

  /** Group `k` is the `k`-th name with its entries. */
  lemma GroupAt<C>(fs: seq<ColumnFilter<C>>)
    ensures var names := GroupNames(fs, |fs|);
      |Groups(fs)| == |names|
      && forall k :: 0 <= k < |names| ==> Groups(fs)[k] == (names[k], Entries(fs, |fs|, names[k]))
  {
  }

  /** No name has two groups. */
  lemma GroupsDistinct<C>(fs: seq<ColumnFilter<C>>)
    ensures var g := Groups(fs); forall k1, k2 :: 0 <= k1 < k2 < |g| ==> g[k1].0 != g[k2].0
  {
    GroupAt(fs);
    GroupNamesFacts(fs, |fs|);
  }

  /** Every filter is in the group of its name. */
  lemma GroupsCover<C>(fs: seq<ColumnFilter<C>>)
    ensures var g := Groups(fs);
      forall i :: 0 <= i < |fs| ==>
        exists k :: 0 <= k < |g| && g[k].0 == fs[i].base.name && (i, OperationName(fs[i].op)) in g[k].1
  {
    var g := Groups(fs);
    var names := GroupNames(fs, |fs|);
    GroupAt(fs);
    GroupNamesFacts(fs, |fs|);
    forall i | 0 <= i < |fs|
      ensures exists k :: 0 <= k < |g| && g[k].0 == fs[i].base.name && (i, OperationName(fs[i].op)) in g[k].1
    {
      var k :| 0 <= k < |names| && names[k] == fs[i].base.name;
      EntriesFacts(fs, |fs|, names[k]);
      assert g[k].0 == fs[i].base.name && (i, OperationName(fs[i].op)) in g[k].1;
    }
  }

  /** A group holds only filters of its name, by increasing index. */
  lemma GroupsSound<C>(fs: seq<ColumnFilter<C>>)
    ensures var g := Groups(fs);
      && (forall k, e :: 0 <= k < |g| && 0 <= e < |g[k].1| ==>
            g[k].1[e].0 < |fs| && fs[g[k].1[e].0].base.name == g[k].0 && g[k].1[e].1 == OperationName(fs[g[k].1[e].0].op))
      && (forall k, e1, e2 :: 0 <= k < |g| && 0 <= e1 < e2 < |g[k].1| ==> g[k].1[e1].0 < g[k].1[e2].0)
  {
    var g := Groups(fs);
    var names := GroupNames(fs, |fs|);
    GroupAt(fs);
    forall k | 0 <= k < |g|
      ensures (forall e :: 0 <= e < |g[k].1| ==>
                 g[k].1[e].0 < |fs| && fs[g[k].1[e].0].base.name == g[k].0 && g[k].1[e].1 == OperationName(fs[g[k].1[e].0].op))
      ensures (forall e1, e2 :: 0 <= e1 < e2 < |g[k].1| ==> g[k].1[e1].0 < g[k].1[e2].0)
    {
      EntriesFacts(fs, |fs|, names[k]);
    }
  }

  /** A later `n` only adds entries after the earlier ones. */
  lemma {:induction false} EntriesPrefix<C>(fs: seq<ColumnFilter<C>>, m: nat, n: nat, name: string)
    requires m <= n <= |fs|
    ensures Entries(fs, m, name) <= Entries(fs, n, name)
  {
    if m < n {
      EntriesPrefix(fs, m, n - 1, name);
    }
  }

  /** A name that has appeared has entries. */
  lemma NamesHaveEntries<C>(fs: seq<ColumnFilter<C>>, n: nat, x: string)
    requires n <= |fs| && x in GroupNames(fs, n)
    ensures |Entries(fs, n, x)| > 0
  {
    GroupNamesFacts(fs, n);
    EntriesFacts(fs, n, x);
    var k :| 0 <= k < |GroupNames(fs, n)| && GroupNames(fs, n)[k] == x;
    var i :| 0 <= i < n && fs[i].base.name == x;
    assert (i, OperationName(fs[i].op)) in Entries(fs, n, x);
  }

  /** The index at which a name first appears. */
  function FirstEntry<C>(fs: seq<ColumnFilter<C>>, n: nat, x: string): nat
    requires n <= |fs| && x in GroupNames(fs, n)
  {
    NamesHaveEntries(fs, n, x);
    Entries(fs, n, x)[0].0
  }

  /** A name seen before the `n`-th filter keeps its first entry. */
  lemma FirstEntryStable<C>(fs: seq<ColumnFilter<C>>, n: nat, x: string)
    requires 0 < n <= |fs| && x in GroupNames(fs, n - 1)
    ensures x in GroupNames(fs, n) && FirstEntry(fs, n, x) == FirstEntry(fs, n - 1, x) < n - 1
  {
    EntriesPrefix(fs, n - 1, n, x);
    NamesHaveEntries(fs, n - 1, x);
    EntriesFacts(fs, n - 1, x);
  }

  /** Groups come in order of their names' first appearance. */
  lemma {:induction false} GroupsFirstAppearance<C>(fs: seq<ColumnFilter<C>>, n: nat)
    requires n <= |fs|
    ensures var names := GroupNames(fs, n);
      forall k1, k2 :: 0 <= k1 < k2 < |names| ==> FirstEntry(fs, n, names[k1]) < FirstEntry(fs, n, names[k2])
  {
    if n > 0 {
      GroupsFirstAppearance(fs, n - 1);
      var p := GroupNames(fs, n - 1);
      var names := GroupNames(fs, n);
      var x := fs[n - 1].base.name;
      assert names == if x in p then p else p + [x];
      forall k1, k2 | 0 <= k1 < k2 < |names|
        ensures FirstEntry(fs, n, names[k1]) < FirstEntry(fs, n, names[k2])
      {
        assert names[k1] == p[k1];
        FirstEntryStable(fs, n, p[k1]);
        if k2 < |p| {
          assert names[k2] == p[k2];
          FirstEntryStable(fs, n, p[k2]);
        } else {
          FirstEntryNew(fs, n);
        }
      }
    }
  }

  /** A name first seen at the `n`-th filter has its first entry there. */
  lemma FirstEntryNew<C>(fs: seq<ColumnFilter<C>>, n: nat)
    requires 0 < n <= |fs| && fs[n - 1].base.name !in GroupNames(fs, n - 1)
    ensures var x := fs[n - 1].base.name;
      GroupNames(fs, n) == GroupNames(fs, n - 1) + [x] && FirstEntry(fs, n, x) == n - 1
  {
    var x := fs[n - 1].base.name;
    EntriesOfUnseen(fs, n - 1, x);
    assert Entries(fs, n, x) == [(n - 1, OperationName(fs[n - 1].op))];
  }

  /** One more filter: its entry joins its name's group, created if new. */
  lemma DictStep<C>(fs: seq<ColumnFilter<C>>, i: nat)
    requires i < |fs|
    ensures var x := fs[i].base.name;
      var d := DictUpTo(fs, i);
      DictUpTo(fs, i + 1) == d[x := (if x in d then d[x] else []) + [(i, OperationName(fs[i].op))]]
  {
    var x := fs[i].base.name;
    var d := DictUpTo(fs, i);
    var step := d[x := (if x in d then d[x] else []) + [(i, OperationName(fs[i].op))]];
    if x !in GroupNames(fs, i) {
      EntriesOfUnseen(fs, i, x);
    }
    var next := DictUpTo(fs, i + 1);
    var names := GroupNames(fs, i + 1);
    assert forall y :: y in names <==> y in GroupNames(fs, i) || y == x;
    assert next.Keys == step.Keys;
    forall y | y in next ensures next[y] == step[y] {
      assert next[y] == Entries(fs, i + 1, y);
      if y != x {
        assert Entries(fs, i + 1, y) == Entries(fs, i, y);
      }
    }
  }

  /** No filters, no groups: the grouping runs only when there are filters. */
  predicate Truthy<C>(fs: Option<seq<ColumnFilter<C>>>)
  {
    fs.Some? && fs.value != []
  }

  /** The groups of `names`, each read through `dict` (an absent name reads as no filters). */
  function GroupsThrough(names: seq<string>, dict: map<string, seq<(nat, string)>>): (r: seq<(string, seq<(nat, string)>)>)
  {
    seq(|names|, k requires 0 <= k < |names| => (names[k], if names[k] in dict then dict[names[k]] else []))
  }

  /** Reading the group names through the dictionary the loop builds gives `_filter_groups`. */
  lemma GroupsThroughDict<C>(fs: seq<ColumnFilter<C>>)
    ensures GroupsThrough(GroupNames(fs, |fs|), DictUpTo(fs, |fs|)) == Groups(fs)
  {
    var names, dict := GroupNames(fs, |fs|), DictUpTo(fs, |fs|);
    assert forall k :: 0 <= k < |names| ==> names[k] in dict && dict[names[k]] == Entries(fs, |fs|, names[k]);
  }

  /**
   * The filter state `_refresh_cache` keeps. Python's `_filter_groups`
   * holds the very lists stored in `_filter_dict`; here the groups are
   * the names in order, each read through the dictionary.
   */
  class FilterCache<C> {
    var filters: Option<seq<ColumnFilter<C>>>
    var groupNames: Option<seq<string>>
    var filterDict: map<string, seq<(nat, string)>>
    var filterTypes: Option<map<nat, string>>

    constructor ()
      ensures filters.None? && groupNames.None? && filterDict == map[] && filterTypes.None?
    {
      filters := None;
      groupNames := None;
      filterDict := map[];
      filterTypes := None;
    }

    /** `_filter_groups` */
    function FilterGroups(): Option<seq<(string, seq<(nat, string)>)>>
      reads this
    {
      match groupNames
      case None => None
      case Some(names) => Some(GroupsThrough(names, filterDict))
    }

    /** The filter part of `_refresh_cache`, given what `get_filters` returned. */
    method Refresh(fs: Option<seq<ColumnFilter<C>>>)
      modifies this
      ensures filters == fs
      ensures !Truthy(fs) ==> groupNames.None? && filterTypes.None? && filterDict == old(filterDict)
      ensures !Truthy(fs) ==> FilterGroups().None?
      ensures Truthy(fs) ==>
                groupNames == Some(GroupNames(fs.value, |fs.value|))
                && filterDict == DictUpTo(fs.value, |fs.value|)
                && filterTypes == Some(FilterTypes(fs.value))
      ensures Truthy(fs) ==> FilterGroups() == Some(Groups(fs.value))
    {
      if !Truthy(fs) {
        filters := fs;
        groupNames := None;
        filterTypes := None;
        return;
      }
      var all := fs.value;
      var names: seq<string> := [];
      var dict: map<string, seq<(nat, string)>> := map[];
      var i := 0;
      while i < |all|
        invariant 0 <= i <= |all|
        invariant names == GroupNames(all, i) && dict == DictUpTo(all, i)
      {
        var name := all[i].base.name;
        var entry: (nat, string) := (i, OperationName(all[i].op));
        DictStep(all, i);
        if name !in dict {
          assert name !in GroupNames(all, i);
          assert [] + [entry] == [entry];
          dict := dict[name := [entry]];
          names := names + [name];
        } else {
          dict := dict[name := dict[name] + [entry]];
        }
        i := i + 1;
      }
      filters := fs;
      groupNames := Some(names);
      filterDict := dict;
      filterTypes := Some(FilterTypes(all));
      GroupsThroughDict(all);
    }
  }
}
