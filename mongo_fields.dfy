/**
 * lib/flask_admin/contrib/mongoengine/fields.py: the GridFS file field,
 * which remembers a delete request from the form and then deletes, stores
 * or replaces the document's file, and the embedded-document form field,
 * which creates the embedded document when it is missing. GridFS itself is
 * not executed: a file proxy records the calls made on it.
 */
module MongoFields {
  /** The data of a file field: an uploaded FileStorage, or anything else (no upload). */
  datatype FileData = Upload(stream: string, filename: string, contentType: string) | NoUpload

  /** A call made on a GridFS proxy. */
  datatype ProxyCall = Delete | Put(upload: FileData) | Replace(upload: FileData)

  /** A document's GridFS proxy: whether it already holds a file, and the calls made on it. */
  class FileProxy {
    const hasGridId: bool
    var calls: seq<ProxyCall>

    constructor(hasGridId: bool)
      ensures this.hasGridId == hasGridId && calls == []
    {
      this.hasGridId := hasGridId;
      calls := [];
    }
  }

  /** `'_%s-delete' % name` */
  function DeleteMarker(name: string): (r: string)
    ensures |r| == |name| + 8 && r[1..|name| + 1] == name
  {
    "_" + name + "-delete"
  }

  /** The calls `populate_obj` makes on an existing proxy. */
  function FileCalls(shouldDelete: bool, data: FileData, hasGridId: bool): seq<ProxyCall>
  {
    if shouldDelete then [Delete]
    else if data.Upload? then (if !hasGridId then [Put(data)] else [Replace(data)])
    else []
  }

  class MongoFileField {
    const name: string
    var shouldDelete: bool
    var data: FileData

    constructor(name: string, data: FileData)
      ensures this.name == name && this.data == data && !shouldDelete
    {
      this.name := name;
      this.data := data;
      shouldDelete := false;
    }

    /**
     * `process(formdata)`: the delete marker in non-empty form data sets
     * the flag, and nothing ever clears it; then the base `Field.process`
     * sets `data` (wtforms is not part of this model, so the value it
     * leaves, the submitted file or the object's data, is the parameter
     * `processed`).
     */
    method Process(formdata: set<string>, processed: FileData)
      modifies this
      ensures shouldDelete == (old(shouldDelete) || (|formdata| > 0 && DeleteMarker(name) in formdata))
      ensures data == processed
    {
      if |formdata| > 0 {
        if DeleteMarker(name) in formdata {
          shouldDelete := true;
        }
      }
      data := processed;
    }

    /**
     * `populate_obj(obj, name)`: `proxy` is the document's attribute, null
     * when it is None, in which case nothing happens.
     */
    method PopulateObj(proxy: FileProxy?)
      modifies proxy
      ensures proxy != null ==> proxy.calls == old(proxy.calls) + FileCalls(shouldDelete, data, proxy.hasGridId)
    {
      if proxy != null {
        if shouldDelete {
          proxy.calls := proxy.calls + [Delete];
          return;
        }
        if data.Upload? {
          if !proxy.hasGridId {
            proxy.calls := proxy.calls + [Put(data)];
          } else {
            proxy.calls := proxy.calls + [Replace(data)];
          }
        }
      }
    }
  }

  /**
   * A requested deletion deletes and uploads nothing; otherwise an upload
   * is stored exactly once, with `put` iff there was no file, and no
   * upload leaves the file alone.
   */
  lemma FileCallsSpec(shouldDelete: bool, data: FileData, hasGridId: bool)
    ensures shouldDelete ==> FileCalls(shouldDelete, data, hasGridId) == [Delete]
    ensures !shouldDelete && data.Upload? ==>
              |FileCalls(shouldDelete, data, hasGridId)| == 1
              && (FileCalls(shouldDelete, data, hasGridId)[0].Put? <==> !hasGridId)
              && FileCalls(shouldDelete, data, hasGridId)[0].upload == data
    ensures !shouldDelete && data.NoUpload? ==> FileCalls(shouldDelete, data, hasGridId) == []
    ensures forall c :: c in FileCalls(shouldDelete, data, hasGridId) && c.Delete? ==> shouldDelete
  {
  }

  /** Marker keys of different fields differ, so a form deletes only the files it names. */
  lemma DeleteMarkerDistinguishes(a: string, b: string)
    ensures DeleteMarker(a) == DeleteMarker(b) <==> a == b
  {
    if DeleteMarker(a) == DeleteMarker(b) {
      assert |a| == |b|;
      assert a == DeleteMarker(a)[1..|a| + 1];
    }
  }

  // ---------------------------------------------------------------------
  // ModelFormField

  /** An embedded document: its attributes by name. */
  class EmbeddedDoc<V> {
    var attrs: map<string, V>

    constructor(attrs: map<string, V>)
      ensures this.attrs == attrs
    {
      this.attrs := attrs;
    }
  }

  /** A document holding an embedded document attribute, null when it is None. */
  class ParentDoc<V> {
    var embedded: EmbeddedDoc?<V>

    constructor(embedded: EmbeddedDoc?<V>)
      ensures this.embedded == embedded
    {
      this.embedded := embedded;
    }
  }

  /** `form.populate_obj(obj)`: each form field in turn sets the attribute of its name. */
  function FormPopulate<V>(attrs: map<string, V>, fields: seq<(string, V)>): (r: map<string, V>)
    ensures r.Keys == attrs.Keys + (set i | 0 <= i < |fields| :: fields[i].0)
  {
    if fields == [] then attrs
    else
      var init := fields[..|fields| - 1];
      var before := FormPopulate(attrs, init);
      var (name, value) := fields[|fields| - 1];
      assert (set i | 0 <= i < |fields| :: fields[i].0) == (set i | 0 <= i < |init| :: init[i].0) + {name};
      before[name := value]
  }

  class ModelFormField<V> {
    const fields: seq<(string, V)>   // the subform's fields and their data
    const defaults: map<string, V>   // the attributes of a fresh `self.model()`

    constructor(fields: seq<(string, V)>, defaults: map<string, V>)
      ensures this.fields == fields && this.defaults == defaults
    {
      this.fields := fields;
      this.defaults := defaults;
    }

    /**
     * `populate_obj(obj, name)`: when the attribute is None a fresh embedded
     * document is created and attached first; the subform then populates
     * the attached document.
     */
    method PopulateObj(obj: ParentDoc<V>)
      modifies obj, obj.embedded
      ensures obj.embedded != null
      ensures old(obj.embedded) != null ==>
                obj.embedded == old(obj.embedded) && obj.embedded.attrs == FormPopulate(old(obj.embedded.attrs), fields)
      ensures old(obj.embedded) == null ==>
                fresh(obj.embedded) && obj.embedded.attrs == FormPopulate(defaults, fields)
    {
      var candidate := obj.embedded;
      if candidate == null {
        candidate := new EmbeddedDoc(defaults);
        obj.embedded := candidate;
      }
      var attrs := candidate.attrs;
      for i := 0 to |fields|
        invariant attrs == FormPopulate(candidate.attrs, fields[..i])
      {
        assert fields[..i + 1][..i] == fields[..i];
        attrs := attrs[fields[i].0 := fields[i].1];
      }
      assert fields[..|fields|] == fields;
      candidate.attrs := attrs;
    }
  }

  /** The last form field of a name decides that attribute; attributes no field names keep their value. */
  lemma {:induction false} FormPopulateValues<V>(attrs: map<string, V>, fields: seq<(string, V)>, k: string)
    ensures var r := FormPopulate(attrs, fields);
            (forall i :: 0 <= i < |fields| ==> fields[i].0 != k) ==> (k in r <==> k in attrs) && (k in attrs ==> r[k] == attrs[k])
    ensures forall i :: 0 <= i < |fields| && fields[i].0 == k && (forall j :: i < j < |fields| ==> fields[j].0 != k) ==>
              FormPopulate(attrs, fields)[k] == fields[i].1
  {
    if fields != [] {
      var init := fields[..|fields| - 1];
      FormPopulateValues(attrs, init, k);
      forall i | 0 <= i < |fields| - 1 && fields[i].0 == k
        ensures init[i].0 == k
      {
      }
    }
  }
}
