/**
 * todo_app/apis.py and todo_app/models.py: the TODO endpoints over the
 * datastore. The datastore is a map from numeric id to the stored entity;
 * `put()` writes an entity under its id and `key.delete()` removes it.
 * Both properties of `TodoModel` may be unset (None).
 */
module TodoApi {
  import opened Wrappers

  /** A stored `TodoModel`: its title and completed properties, each possibly unset. */
  datatype TodoModel = TodoModel(title: Option<string>, completed: Option<bool>)

  /** A response message carrying `completed`, `title` and `id`. */
  datatype TodoMessage = TodoMessage(completed: Option<bool>, title: Option<string>, id: nat)

  /** Python truthiness of a BooleanProperty value: None is false. */
  predicate Truthy(c: Option<bool>)
  {
    c == Some(true)
  }

  /**
   * The entity a request naming `id` is served with: the stored one, or an
   * entity carrying only the id when nothing is stored under it.
   */
  function Loaded(store: map<nat, TodoModel>, id: nat): (r: TodoModel)
    ensures id in store ==> r == store[id]
    ensures id !in store ==> r.title.None? && r.completed.None?
  {
    if id in store then store[id] else TodoModel(None, None)
  }

  function Message(id: nat, todo: TodoModel): (r: TodoMessage)
    ensures r.id == id && r.title == todo.title && r.completed == todo.completed
  {
    TodoMessage(todo.completed, todo.title, id)
  }

  /** The store after `TodoInsert` puts a todo with the request's title under the allocated id. */
  function Inserted(store: map<nat, TodoModel>, id: nat, title: Option<string>): map<nat, TodoModel>
  {
    store[id := TodoModel(title, Some(false))]
  }

  /** The store after `todo.key.delete()`. */
  function Deleted(store: map<nat, TodoModel>, id: nat): map<nat, TodoModel>
  {
    store - {id}
  }

  /** The store after `TodoToggle` negates `completed` of the loaded entity and puts it. */
  function Toggled(store: map<nat, TodoModel>, id: nat): map<nat, TodoModel>
  {
    var todo := Loaded(store, id);
    store[id := todo.(completed := Some(!Truthy(todo.completed)))]
  }

  class TodoService {
    var store: map<nat, TodoModel>

    constructor(store: map<nat, TodoModel>)
      ensures this.store == store
    {
      this.store := store;
    }

    /**
     * `TodoInsert`: the request gives only a title; `completed` is set to
     * False and the entity is put under `id`, which the datastore's
     * allocator chose among the unused ids.
     */
    method TodoInsert(title: Option<string>, id: nat) returns (r: TodoMessage)
      requires id !in store
      modifies this
      ensures store == Inserted(old(store), id, title)
      ensures r == Message(id, store[id])
    {
      var todo := TodoModel(title, None);
      todo := todo.(completed := Some(false));
      store := store[id := todo];
      r := Message(id, todo);
    }

    /** `TodoDelete`: the entity loaded for `id` is returned and its key deleted. */
    method TodoDelete(id: nat) returns (r: TodoMessage)
      modifies this
      ensures store == Deleted(old(store), id)
      ensures r == Message(id, Loaded(old(store), id))
    {
      var todo := Loaded(store, id);
      store := store - {id};
      r := Message(id, todo);
    }

    /** `TodoToggle`: `completed` of the loaded entity is negated and the entity is put. */
    method TodoToggle(id: nat) returns (r: TodoMessage)
      modifies this
      ensures store == Toggled(old(store), id)
      ensures r == Message(id, store[id])
    {
      var todo := Loaded(store, id);
      todo := todo.(completed := Some(!Truthy(todo.completed)));
      store := store[id := todo];
      r := Message(id, todo);
    }

    /**
     * `TodosList`: the stored todos as messages, one per id, at most one page
     * of them. The page size is the request's `limit`, or the query library's
     * default without one, and never more than the library's maximum.
     */
    method TodosList(limit: Option<nat>, defaultLimit: nat, maxLimit: nat) returns (items: seq<TodoMessage>)
      ensures ListedFrom(store, items)
      ensures |items| == if PageSize(limit, defaultLimit, maxLimit) < |store| then PageSize(limit, defaultLimit, maxLimit) else |store|
    {
      var remaining := store.Keys;
      items := [];
      var size := PageSize(limit, defaultLimit, maxLimit);
      var n := if size < |store| then size else |store|;
      while |items| < n
        invariant remaining <= store.Keys && |items| + |remaining| == |store|
        invariant |items| <= n
        invariant ListedFrom(store, items)
        invariant forall i :: 0 <= i < |items| ==> items[i].id !in remaining
        decreases n - |items|
      {
        var id :| id in remaining;
        items := items + [Message(id, store[id])];
        remaining := remaining - {id};
      }
    }
  }

  /** Every message is a stored todo, rendered with its own id, and no id is listed twice. */
  predicate ListedFrom(store: map<nat, TodoModel>, items: seq<TodoMessage>)
  {
    (forall i :: 0 <= i < |items| ==> items[i].id in store && items[i] == Message(items[i].id, store[items[i].id]))
    && (forall i, j :: 0 <= i < j < |items| ==> items[i].id != items[j].id)
  }

  /**
   * Insert stores the title with `completed` False whatever else the
   * request carried, grows the store by one and leaves every other todo.
   */
  lemma InsertSpec(store: map<nat, TodoModel>, id: nat, title: Option<string>)
    requires id !in store
    ensures var s := Inserted(store, id, title);
            id in s && s[id].title == title && !Truthy(s[id].completed) && s[id].completed.Some?
            && |s| == |store| + 1
            && s.Keys == store.Keys + {id}
            && forall k :: k in store ==> k in s && s[k] == store[k]
  {
    var s := Inserted(store, id, title);
    assert s.Keys == store.Keys + {id};
    assert |s.Keys| == |store.Keys| + 1;
  }

  /** Delete removes exactly the named todo; deleting what insert added restores the store. */
  lemma DeleteSpec(store: map<nat, TodoModel>, id: nat, title: Option<string>)
    ensures var s := Deleted(store, id);
            s.Keys == store.Keys - {id} && forall k :: k in s ==> s[k] == store[k]
    ensures id in store ==> |Deleted(store, id)| == |store| - 1
    ensures id !in store ==> Deleted(Inserted(store, id, title), id) == store
  {
    var s := Deleted(store, id);
    assert s.Keys == store.Keys - {id};
    if id in store {
      assert |s.Keys| == |store.Keys| - 1;
    } else {
      var t := Deleted(Inserted(store, id, title), id);
      assert t.Keys == store.Keys;
      assert t == store;
    }
  }

  /**
   * Toggle flips the truthiness of `completed` and keeps the title and
   * every other todo; toggling twice restores the todo whenever its
   * `completed` was set (an unset one comes back as False).
   */
  lemma ToggleSpec(store: map<nat, TodoModel>, id: nat)
    ensures var s := Toggled(store, id);
            id in s && Truthy(s[id].completed) == !Truthy(Loaded(store, id).completed)
            && s[id].title == Loaded(store, id).title
            && s.Keys == store.Keys + {id}
            && forall k :: k in store && k != id ==> s[k] == store[k]
    ensures var s2 := Toggled(Toggled(store, id), id);
            s2[id] == Loaded(store, id).(completed := Some(Truthy(Loaded(store, id).completed)))
            && (id in store && store[id].completed.Some? ==> s2 == store)
  {
    var s := Toggled(store, id);
    var s2 := Toggled(s, id);
    assert s2.Keys == s.Keys;
    if id in store && store[id].completed.Some? {
      assert Some(Truthy(store[id].completed)) == store[id].completed by {
        if store[id].completed.value {
          assert Truthy(store[id].completed);
        }
      }
      assert s2[id] == store[id];
      assert s2.Keys == store.Keys;
      assert s2 == store;
    }
  }

  /**
   * The number of todos one listing may return: the request's `limit`, else
   * the query library's default, capped at the library's maximum.
   */
  function PageSize(limit: Option<nat>, defaultLimit: nat, maxLimit: nat): (r: nat)
    ensures r <= maxLimit
    ensures limit.Some? && limit.value <= maxLimit ==> r == limit.value
    ensures limit.None? && defaultLimit <= maxLimit ==> r == defaultLimit
  {
    var asked := if limit.Some? then limit.value else defaultLimit;
    if asked < maxLimit then asked else maxLimit
  }

  /**
   * When the whole store fits in one page, the listing names every stored
   * todo exactly once.
   */
  lemma ListingCoversStore(store: map<nat, TodoModel>, items: seq<TodoMessage>)
    requires ListedFrom(store, items) && |items| == |store|
    ensures forall k :: k in store ==> exists i :: 0 <= i < |items| && items[i] == Message(k, store[k])
  {
    var ids := set i | 0 <= i < |items| :: items[i].id;
    IdsCount(items, |items|);
    assert ids <= store.Keys;
    SubsetSameSize(ids, store.Keys);
    forall k | k in store
      ensures exists i :: 0 <= i < |items| && items[i] == Message(k, store[k])
    {
      assert k in ids;
      var i :| 0 <= i < |items| && items[i].id == k;
      assert items[i] == Message(k, store[k]);
    }
  }

  /** Distinct ids in the first `n` messages make `n` different ids. */
  lemma {:induction false} IdsCount(items: seq<TodoMessage>, n: nat)
    requires n <= |items|
    requires forall i, j :: 0 <= i < j < |items| ==> items[i].id != items[j].id
    ensures |set i | 0 <= i < n :: items[i].id| == n
  {
    if n > 0 {
      IdsCount(items, n - 1);
      var before := set i | 0 <= i < n - 1 :: items[i].id;
      assert (set i | 0 <= i < n :: items[i].id) == before + {items[n - 1].id};
      assert items[n - 1].id !in before;
    }
  }

  lemma {:induction false} SubsetSameSize(a: set<nat>, b: set<nat>)
    requires a <= b && |a| == |b|
    ensures a == b
  {
    if a != b {
      var x :| x in b && x !in a;
      SubsetSize(a, b - {x});
    }
  }

  lemma {:induction false} SubsetSize(a: set<nat>, b: set<nat>)
    requires a <= b
    ensures |a| <= |b|
    decreases a
  {
    if a != {} {
      var y :| y in a;
      SubsetSize(a - {y}, b - {y});
    }
  }
}
