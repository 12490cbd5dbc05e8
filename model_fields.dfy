/**
 * lib/flask_admin/model/fields.py: the inline field list, which marks the
 * rows a submitted form deletes and writes the remaining rows back onto the
 * model's list attribute, and the inline model form field, which copies its
 * subfields onto an object except for the primary key.
 */
module ModelFields {
  import opened Wrappers

  /** `'del-%s' % f.id` */
  function DeleteKey(id: string): (r: string)
    ensures |r| == |id| + 4 && r[4..] == id
  {
    "del-" + id
  }

  /** One row of an inline list; `shouldDelete` is None until `process` sets the flag. */
  class EntryField {
    const id: string
    var shouldDelete: Option<bool>

    constructor(id: string)
      ensures this.id == id && shouldDelete.None?
    {
      this.id := id;
      shouldDelete := None;
    }
  }

  /** A list attribute of the model object: its items, or a value `iter()` refuses. */
  datatype Attr<V> = Items(items: seq<V>) | NotIterable

  /** The object `populate_obj` writes to, holding the list attribute it reads and replaces. */
  class Holder<V> {
    var value: Attr<V>

    constructor(value: Attr<V>)
      ensures this.value == value
    {
      this.value := value;
    }
  }

  /** The existing values `populate_obj` pairs with the rows; a non-iterable attribute counts as empty. */
  function Existing<V>(a: Attr<V>): (r: seq<V>)
    ensures a.NotIterable? ==> r == []
  {
    match a
    case Items(items) => items
    case NotIterable => []
  }

  /** The value paired with row `i`: the existing value at that position, then None for ever. */
  function Candidate<V>(existing: seq<V>, i: nat): (r: Option<V>)
    ensures r.Some? <==> i < |existing|
    ensures r.Some? ==> r.value == existing[i]
  {
    if i < |existing| then Some(existing[i]) else None
  }

  /** A row as `populate_obj` sees it: its id and whether it is deleted. */
  datatype Row = Row(id: string, deleted: bool)

  /**
   * The list `populate_obj` assigns: for each row not deleted, in order,
   * what the row's own `populate_obj` leaves given the paired value.
   */
  function Populated<V>(rows: seq<Row>, existing: seq<V>, populate: (string, Option<V>) -> V): seq<V>
  {
    if rows == [] then []
    else
      var i := |rows| - 1;
      Populated(rows[..i], existing, populate)
        + (if rows[i].deleted then [] else [populate(rows[i].id, Candidate(existing, i))])
  }

  /** The number of rows marked for deletion. */
  function DeletedCount(rows: seq<Row>): (n: nat)
    ensures n <= |rows|
  {
    if rows == [] then 0
    else DeletedCount(rows[..|rows| - 1]) + (if rows[|rows| - 1].deleted then 1 else 0)
  }

  class InlineFieldList<V> {
    var entries: seq<EntryField>

    constructor(entries: seq<EntryField>)
      ensures this.entries == entries
    {
      this.entries := entries;
    }

    /** `should_delete(field)`: the flag `process` set, False when it never ran. */
    predicate ShouldDelete(field: EntryField)
      reads field
    {
      field.shouldDelete.GetOr(false)
    }

    /** The rows as `populate_obj` reads them. */
    function Rows(): (r: seq<Row>)
      reads this, set e | e in entries
      ensures |r| == |entries|
      ensures forall i :: 0 <= i < |entries| ==> r[i] == Row(entries[i].id, ShouldDelete(entries[i]))
    {
      seq(|entries|, i reads this, set e | e in entries requires 0 <= i < |entries| =>
        Row(entries[i].id, ShouldDelete(entries[i])))
    }

    /**
     * `process(formdata)`: the base `FieldList.process` first rebuilds the
     * entries (wtforms is not part of this model, so the entries it builds
     * are the parameter `rebuilt`); then, with form data present, every
     * entry is marked for deletion iff its `del-<id>` key was submitted,
     * and empty form data leaves the flags alone.
     */
    method Process(formdata: set<string>, rebuilt: seq<EntryField>)
      modifies this, set e | e in rebuilt
      ensures entries == rebuilt
      ensures forall e :: e in rebuilt ==>
                e.shouldDelete == (if |formdata| > 0 then Some(DeleteKey(e.id) in formdata) else old(e.shouldDelete))
    {
      entries := rebuilt;
      if |formdata| == 0 {
        return;
      }
      for i := 0 to |entries|
        invariant entries == rebuilt
        invariant forall k :: 0 <= k < i ==> entries[k].shouldDelete == Some(DeleteKey(entries[k].id) in formdata)
        invariant forall e :: e in entries && e !in entries[..i] ==> e.shouldDelete == old(e.shouldDelete)
      {
        entries[i].shouldDelete := Some(DeleteKey(entries[i].id) in formdata);
      }
    }

    /**
     * `populate_obj(obj, name)`: the rows are paired with the attribute's
     * existing values (padded with None), the deleted rows are skipped,
     * and the rest, in row order, become the attribute's new list.
     */
    method PopulateObj(obj: Holder<V>, populate: (string, Option<V>) -> V)
      modifies obj
      ensures obj.value == Items(Populated(Rows(), Existing(old(obj.value)), populate))
    {
      var existing := Existing(obj.value);
      var rows := Rows();
      var output: seq<V> := [];
      for i := 0 to |entries|
        invariant output == Populated(rows[..i], existing, populate)
      {
        assert rows[..i + 1][..i] == rows[..i];
        if !ShouldDelete(entries[i]) {
          output := output + [populate(entries[i].id, Candidate(existing, i))];
        }
      }
      assert rows[..|entries|] == rows;
      obj.value := Items(output);
    }
  }

  /** The new list is as long as the rows minus the deleted ones. */
  lemma {:induction false} PopulatedLength<V>(rows: seq<Row>, existing: seq<V>, populate: (string, Option<V>) -> V)
    ensures |Populated(rows, existing, populate)| == |rows| - DeletedCount(rows)
  {
    if rows != [] {
      PopulatedLength(rows[..|rows| - 1], existing, populate);
    }
  }

  /** With no row deleted, row `i` gives the `i`-th value, built from the `i`-th existing value or None. */
  lemma {:induction false} PopulatedKeepsPositions<V>(rows: seq<Row>, existing: seq<V>, populate: (string, Option<V>) -> V)
    requires forall i :: 0 <= i < |rows| ==> !rows[i].deleted
    ensures |Populated(rows, existing, populate)| == |rows|
    ensures forall i :: 0 <= i < |rows| ==>
              Populated(rows, existing, populate)[i] == populate(rows[i].id, Candidate(existing, i))
  {
    if rows != [] {
      PopulatedKeepsPositions(rows[..|rows| - 1], existing, populate);
    }
  }

  /** Deleting every row empties the list, whatever it held before. */
  lemma {:induction false} AllDeletedEmpties<V>(rows: seq<Row>, existing: seq<V>, populate: (string, Option<V>) -> V)
    requires forall i :: 0 <= i < |rows| ==> rows[i].deleted
    ensures Populated(rows, existing, populate) == []
    ensures DeletedCount(rows) == |rows|
  {
    if rows != [] {
      AllDeletedEmpties(rows[..|rows| - 1], existing, populate);
    }
  }

  /** A non-iterable attribute gives the same new list as an empty one. */
  lemma NotIterableAsEmpty<V>(rows: seq<Row>, populate: (string, Option<V>) -> V)
    ensures Populated(rows, Existing(NotIterable), populate) == Populated(rows, Existing(Items([])), populate)
  {
  }

  /** A submitted form marks exactly the rows whose delete key it holds. */
  lemma DeleteKeyDistinguishes(a: string, b: string)
    ensures DeleteKey(a) == DeleteKey(b) <==> a == b
  {
    if DeleteKey(a) == DeleteKey(b) {
      assert a == DeleteKey(a)[4..];
    }
  }

  // ---------------------------------------------------------------------
  // InlineModelFormField

  /** An object whose attributes `populate_obj` sets by name. */
  class Record<V> {
    var attrs: map<string, V>

    constructor(attrs: map<string, V>)
      ensures this.attrs == attrs
    {
      this.attrs := attrs;
    }
  }

  /** The attributes after the subfields other than `pk` are copied in order onto `attrs`. */
  function CopyFields<V>(attrs: map<string, V>, fields: seq<(string, V)>, pk: string): map<string, V>
  {
    if fields == [] then attrs
    else
      var before := CopyFields(attrs, fields[..|fields| - 1], pk);
      var (name, value) := fields[|fields| - 1];
      if name != pk then before[name := value] else before
  }

  class InlineModelFormField<V> {
    const fields: seq<(string, V)>
    const pk: string

    constructor(fields: seq<(string, V)>, pk: string)
      ensures this.fields == fields && this.pk == pk
    {
      this.fields := fields;
      this.pk := pk;
    }

    /** `get_pk()`: the primary key subfield's data; a form without that subfield raises AttributeError. */
    function GetPk(): (r: Result<V>)
      ensures r.Ok? <==> exists i :: 0 <= i < |fields| && fields[i].0 == pk
      ensures r.Ok? ==> exists i :: 0 <= i < |fields| && fields[i] == (pk, r.value)
    {
      FieldData(fields, pk)
    }

    /** `populate_obj(obj, name)`: every subfield except the primary key is copied onto `obj`. */
    method PopulateObj(obj: Record<V>)
      modifies obj
      ensures obj.attrs == CopyFields(old(obj.attrs), fields, pk)
    {
      for i := 0 to |fields|
        invariant obj.attrs == CopyFields(old(obj.attrs), fields[..i], pk)
      {
        assert fields[..i + 1][..i] == fields[..i];
        var (name, value) := fields[i];
        if name != pk {
          obj.attrs := obj.attrs[name := value];
        }
      }
      assert fields[..|fields|] == fields;
    }
  }

  /** `getattr(form, name).data`, for the first subfield of that name. */
  function FieldData<V>(fields: seq<(string, V)>, name: string): (r: Result<V>)
    ensures r.Ok? <==> exists i :: 0 <= i < |fields| && fields[i].0 == name
    ensures r.Ok? ==> exists i :: 0 <= i < |fields| && fields[i] == (name, r.value)
  {
    if fields == [] then Err("AttributeError")
    else if fields[0].0 == name then Ok(fields[0].1)
    else
      var rest := FieldData(fields[1..], name);
      assert forall i :: 1 <= i < |fields| ==> fields[i] == fields[1..][i - 1];
      rest
  }

  /**
   * The primary key attribute is never written; every other attribute is
   * present afterwards iff it was before or some subfield carries it.
   */
  lemma {:induction false} CopyFieldsKeys<V>(attrs: map<string, V>, fields: seq<(string, V)>, pk: string)
    ensures var r := CopyFields(attrs, fields, pk);
            (pk in r <==> pk in attrs) && (pk in attrs ==> r[pk] == attrs[pk])
            && forall k :: k != pk ==> (k in r <==> k in attrs || exists i :: 0 <= i < |fields| && fields[i].0 == k)
  {
    if fields != [] {
      var init := fields[..|fields| - 1];
      CopyFieldsKeys(attrs, init, pk);
      forall k | k != pk
        ensures k in CopyFields(attrs, fields, pk) <==> k in attrs || exists i :: 0 <= i < |fields| && fields[i].0 == k
      {
        if exists i :: 0 <= i < |fields| && fields[i].0 == k {
          var i :| 0 <= i < |fields| && fields[i].0 == k;
          if i < |fields| - 1 {
            assert init[i].0 == k;
          }
        }
        if exists i :: 0 <= i < |init| && init[i].0 == k {
          var i :| 0 <= i < |init| && init[i].0 == k;
          assert fields[i].0 == k;
        }
      }
    }
  }

  /** The last subfield of a name other than the primary key decides that attribute's value. */
  lemma {:induction false} CopyFieldsLastWins<V>(attrs: map<string, V>, fields: seq<(string, V)>, pk: string, i: nat)
    requires i < |fields| && fields[i].0 != pk
    requires forall j :: i < j < |fields| ==> fields[j].0 != fields[i].0
    ensures var r := CopyFields(attrs, fields, pk);
            fields[i].0 in r && r[fields[i].0] == fields[i].1
  {
    if i < |fields| - 1 {
      CopyFieldsLastWins(attrs, fields[..|fields| - 1], pk, i);
    }
  }
}
