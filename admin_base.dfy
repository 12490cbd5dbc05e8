/**
 * The admin registry of lib/flask_admin/base.py: exposing view methods,
 * finding a view class's default view, the blueprint URL rules, the menu
 * tree and the registration of an `Admin` with an application.
 */
module AdminBase {
  import opened Wrappers
  import opened Text

  // ---------------------------------------------------------------- expose

  /** The methods `expose` allows when none are given. */
  const DefaultMethods: seq<string> := ["GET"]

  /** A view function as `expose` decorates it: the `(url, methods)` pairs in `_urls`. */
  class ExposedFunction {
    var urls: seq<(string, seq<string>)>

    constructor()
      ensures urls == []
    {
      urls := [];
    }

    /** `@expose(url, methods)`: earlier registrations are kept. */
    method Expose(url: string := "/", methods: seq<string> := DefaultMethods)
      modifies this
      ensures urls == old(urls) + [(url, methods)]
    {
      urls := urls + [(url, methods)];
    }
  }

  // ---------------------------------------------- gathering exposed methods

  /** An attribute of a view class, with the `_urls` it was exposed under (empty when it was not). */
  datatype ViewMember = ViewMember(name: string, urls: seq<(string, seq<string>)>)

  /** A view class: its name and its attributes in `dir()` order. */
  datatype ViewClass = ViewClass(name: string, members: seq<ViewMember>)

  /** An exposed rule of a class: `(url, method name, methods)`. */
  type Rule = (string, string, seq<string>)

  predicate ExposesRoot(m: ViewMember)
  {
    exists k :: 0 <= k < |m.urls| && m.urls[k].0 == "/"
  }

  /** The rules one attribute contributes to `cls._urls`. */
  function MemberRules(m: ViewMember): (r: seq<Rule>)
    ensures |r| == |m.urls|
    ensures forall k :: 0 <= k < |r| ==> r[k] == (m.urls[k].0, m.name, m.urls[k].1)
  {
    seq(|m.urls|, k requires 0 <= k < |m.urls| => (m.urls[k].0, m.name, m.urls[k].1))
  }

  /** `cls._urls` as the metaclass collects it. */
  function ClassRules(members: seq<ViewMember>): seq<Rule>
  {
    if members == [] then []
    else ClassRules(members[..|members| - 1]) + MemberRules(members[|members| - 1])
  }

  /**
   * `cls._default_view`: the last attribute, in `dir()` order, exposed at
   * `'/'`; None when there is none.
   */
  function DefaultView(members: seq<ViewMember>): (r: Option<string>)
    ensures r.None? <==> forall i :: 0 <= i < |members| ==> !ExposesRoot(members[i])
    ensures r.Some? ==>
              exists i :: 0 <= i < |members| && members[i].name == r.value && ExposesRoot(members[i])
                          && forall j :: i < j < |members| ==> !ExposesRoot(members[j])
  {
    if members == [] then None
    else if ExposesRoot(members[|members| - 1]) then Some(members[|members| - 1].name)
    else
      var init := members[..|members| - 1];
      var r := DefaultView(init);
      assert forall i :: 0 <= i < |init| ==> init[i] == members[i];
      assert r.Some? ==> exists i :: 0 <= i < |init| && members[i].name == r.value && ExposesRoot(members[i])
                                     && forall j :: i < j < |members| ==> !ExposesRoot(members[j]);
      r
  }

  /** The loop of `AdminViewMeta.__init__`. */
  method GatherExposed(members: seq<ViewMember>) returns (rules: seq<Rule>, defaultView: Option<string>)
    ensures rules == ClassRules(members)
    ensures defaultView == DefaultView(members)
  {
    rules := [];
    defaultView := None;
    var i := 0;
    while i < |members|
      invariant 0 <= i <= |members|
      invariant rules == ClassRules(members[..i])
      invariant defaultView == DefaultView(members[..i])
    {
      var m := members[i];
      var k := 0;
      while k < |m.urls|
        invariant 0 <= k <= |m.urls|
        invariant rules == ClassRules(members[..i]) + MemberRules(m)[..k]
        invariant defaultView == if exists j :: 0 <= j < k && m.urls[j].0 == "/" then Some(m.name) else DefaultView(members[..i])
      {
        var (url, methods) := m.urls[k];
        rules := rules + [(url, m.name, methods)];
        if url == "/" {
          defaultView := Some(m.name);
        }
        assert MemberRules(m)[..k + 1] == MemberRules(m)[..k] + [(url, m.name, methods)];
        k := k + 1;
      }
      assert members[..i + 1][..i] == members[..i];
      assert MemberRules(m)[..k] == MemberRules(m);
      i := i + 1;
    }
    assert members[..i] == members;
  }

  // ------------------------------------------------------------- prettify

  /** Whether `(?<=.)([A-Z])` matches at the character after `prev`; `.` does not match a newline. */
  predicate SpaceBefore(prev: char, c: char)
  {
    prev != '\n' && IsUpper(c)
  }

  /** The rest of `_prettify_name`'s result, after the character `prev`. */
  function SpacedFrom(prev: char, s: string): string
    decreases s
  {
    if s == [] then []
    else (if SpaceBefore(prev, s[0]) then [' ', s[0]] else [s[0]]) + SpacedFrom(s[0], s[1..])
  }

  lemma {:induction false} SpacedFromFacts(prev: char, s: string)
    ensures Unspaced(SpacedFrom(prev, s)) == Unspaced(s)
    ensures |SpacedFrom(prev, s)| == |s| + Inserted(prev, s)
    decreases s
  {
    if s != [] {
      SpacedFromFacts(s[0], s[1..]);
      var head := if SpaceBefore(prev, s[0]) then [' ', s[0]] else [s[0]];
      UnspacedAppend(head, SpacedFrom(s[0], s[1..]));
      UnspacedAppend([s[0]], s[1..]);
      assert s == [s[0]] + s[1..];
    }
  }

  lemma {:induction false} UnspacedAppend(a: string, b: string)
    ensures Unspaced(a + b) == Unspaced(a) + Unspaced(b)
  {
    if a != [] {
      UnspacedAppend(a[1..], b);
      assert (a + b)[1..] == a[1..] + b;
    } else {
      assert a + b == b;
    }
  }

  /** How many spaces `_prettify_name` inserts into `s` after `prev`. */
  function Inserted(prev: char, s: string): nat
    decreases s
  {
    if s == [] then 0
    else (if SpaceBefore(prev, s[0]) then 1 else 0) + Inserted(s[0], s[1..])
  }

  /** The string without its spaces. */
  function Unspaced(s: string): string
  {
    if s == [] then [] else (if s[0] == ' ' then [] else [s[0]]) + Unspaced(s[1..])
  }

  /** `_prettify_name`: a space before every uppercase letter that does not start the name. */
  function PrettifyClassName(name: string): (r: string)
    ensures Unspaced(r) == Unspaced(name)
    ensures |name| > 0 ==> |r| > 0 && r[0] == name[0]
    ensures |r| == |name| + (if name == [] then 0 else Inserted(name[0], name[1..]))
  {
    if name == [] then []
    else
      SpacedFromFacts(name[0], name[1..]);
      UnspacedAppend([name[0]], SpacedFrom(name[0], name[1..]));
      UnspacedAppend([name[0]], name[1..]);
      assert name == [name[0]] + name[1..];
      [name[0]] + SpacedFrom(name[0], name[1..])
  }

  /** Where `_prettify_name` puts the i-th character of `name`: after i characters and the spaces inserted up to it. */
  function Slot(name: string, i: nat): nat
    requires i < |name|
  {
    i + Inserted(name[0], name[1..i + 1])
  }

  /**
   * Where the spaces go. The i-th character of the name lands at
   * `Slot(name, i)`; the next character lands two places further, with a
   * space between, exactly when `SpaceBefore` holds for the pair, and one
   * place further otherwise; the result ends with the last character.
   * So the result holds the name's characters in order with one space
   * before each capital that follows a character other than a newline.
   */
  lemma PrettifyPlaces(name: string)
    ensures forall i :: 0 <= i < |name| ==>
              Slot(name, i) < |PrettifyClassName(name)| && PrettifyClassName(name)[Slot(name, i)] == name[i]
    ensures forall i :: 0 < i < |name| ==>
              Slot(name, i) == Slot(name, i - 1) + (if SpaceBefore(name[i - 1], name[i]) then 2 else 1)
    ensures forall i :: 0 < i < |name| && SpaceBefore(name[i - 1], name[i]) ==> PrettifyClassName(name)[Slot(name, i) - 1] == ' '
    ensures name != [] ==> |PrettifyClassName(name)| == Slot(name, |name| - 1) + 1
  {
    if name != [] {
      var r := PrettifyClassName(name);
      var s := name[1..];
      assert r == [name[0]] + SpacedFrom(name[0], s);
      forall i | 0 <= i < |name|
        ensures Slot(name, i) < |r| && r[Slot(name, i)] == name[i]
        ensures 0 < i && SpaceBefore(name[i - 1], name[i]) ==> r[Slot(name, i) - 1] == ' '
      {
        if i > 0 {
          SpacedAt(name[0], s, i - 1);
          assert s[..i - 1 + 1] == name[1..i + 1];
          assert Slot(name, i) == 1 + Spot(name[0], s, i - 1);
        }
      }
      forall i | 0 < i < |name|
        ensures Slot(name, i) == Slot(name, i - 1) + (if SpaceBefore(name[i - 1], name[i]) then 2 else 1)
      {
        assert name[1..i + 1] == name[1..i] + [name[i]];
        InsertedSnoc(name[0], name[1..i], name[i]);
      }
      assert name[1..|name|] == s;
    }
  }

  /** Where `SpacedFrom(prev, s)` puts the i-th character of `s`. */
  function Spot(prev: char, s: string, i: nat): nat
    requires i < |s|
  {
    i + Inserted(prev, s[..i + 1])
  }

  /** The i-th character of `s` lands after i characters and the spaces inserted up to and before it. */
  lemma {:induction false} SpacedAt(prev: char, s: string, i: nat)
    requires i < |s|
    ensures Spot(prev, s, i) < |SpacedFrom(prev, s)| && SpacedFrom(prev, s)[Spot(prev, s, i)] == s[i]
    ensures SpaceBefore(if i == 0 then prev else s[i - 1], s[i]) ==>
              0 < Spot(prev, s, i) && SpacedFrom(prev, s)[Spot(prev, s, i) - 1] == ' '
    decreases i
  {
    var rest := s[1..];
    var b := if SpaceBefore(prev, s[0]) then 1 else 0;
    var head := if SpaceBefore(prev, s[0]) then [' ', s[0]] else [s[0]];
    assert SpacedFrom(prev, s) == head + SpacedFrom(s[0], rest);
    assert s[..i + 1][0] == s[0] && s[..i + 1][1..] == rest[..i];
    assert Inserted(prev, s[..i + 1]) == b + Inserted(s[0], rest[..i]);
    if i > 0 {
      SpacedAt(s[0], rest, i - 1);
      assert rest[..i - 1 + 1] == rest[..i];
      assert Spot(prev, s, i) == |head| + Spot(s[0], rest, i - 1);
    } else {
      assert rest[..0] == [];
    }
  }

  /** One more character adds one space exactly when `SpaceBefore` holds for it and the character before it. */
  lemma {:induction false} InsertedSnoc(prev: char, s: string, c: char)
    ensures Inserted(prev, s + [c]) == Inserted(prev, s) + (if SpaceBefore(if s == [] then prev else s[|s| - 1], c) then 1 else 0)
    decreases s
  {
    if s == [] {
      assert [c][1..] == [];
    } else {
      InsertedSnoc(s[0], s[1..], c);
      assert (s + [c])[0] == s[0] && (s + [c])[1..] == s[1..] + [c];
    }
  }

  /** `'MyClass'` becomes `'My Class'`. */
  lemma PrettifyExample(name: string)
    requires name == "MyClass"
    ensures PrettifyClassName(name) == "My Class"
  {
    SpacedExample();
    assert name[0] == 'M' && name[1..] == "yClass";
  }

  lemma SpacedExample()
    ensures SpacedFrom('M', "yClass") == "y Class"
  {
    calc {
      SpacedFrom('M', "yClass");
      { assert "yClass"[1..] == "Class"; }
      "y" + SpacedFrom('y', "Class");
      { assert "Class"[1..] == "lass"; }
      "y" + " C" + SpacedFrom('C', "lass");
      { SpacedNoCapitals('C', "lass"); }
      "y" + " C" + "lass";
    }
  }

  /** `'MySuperClass'` becomes `'My Super Class'`. */
  lemma PrettifySuperExample(name: string)
    requires name == "MySuperClass"
    ensures PrettifyClassName(name) == "My Super Class"
  {
    var y, c := name[2..7], name[7..];
    assert name[1..] == [name[1]] + y + c;
    assert IsUpper(y[0]) && forall i :: 1 <= i < |y| ==> !IsUpper(y[i]);
    assert IsUpper(c[0]) && forall i :: 1 <= i < |c| ==> !IsUpper(c[i]);
    SpacedCapitalized(name[0], [name[1]], y, c);
    SpacedCapitalized(y[|y| - 1], [], c, []);
    assert [] + c + [] == c && SpacedFrom(c[|c| - 1], []) == [];
    assert PrettifyClassName(name) == [name[0], name[1], ' '] + y + [' '] + c;
    SuperSpaced(name);
  }

  /** The pieces of `'MySuperClass'` with a space before each inner word spell `'My Super Class'`. */
  lemma SuperSpaced(name: string)
    requires name == "MySuperClass"
    ensures [name[0], name[1], ' '] + name[2..7] + [' '] + name[7..] == "My Super Class"
  {
    var a := [name[0], name[1], ' '] + name[2..7] + [' '] + name[7..];
    var b := "My Super Class";
    assert |a| == |b|;
    forall i | 0 <= i < |a| ensures a[i] == b[i] {
      if i < 3 {
      } else if i < 8 {
        assert a[i] == name[i - 1];
      } else if i == 8 {
      } else {
        assert a[i] == name[i - 2];
      }
    }
  }

  /**
   * A lowercase run followed by a capitalised word and then the rest: the
   * run passes through, the word gets a space before it.
   */
  lemma SpacedCapitalized(prev: char, a: string, w: string, b: string)
    requires forall i :: 0 <= i < |a| ==> !IsUpper(a[i])
    requires |w| >= 1 && IsUpper(w[0]) && forall i :: 1 <= i < |w| ==> !IsUpper(w[i])
    requires (if a == [] then prev else a[|a| - 1]) != '\n'
    ensures SpacedFrom(prev, a + w + b) == a + " " + w + SpacedFrom(w[|w| - 1], b)
  {
    var p := if a == [] then prev else a[|a| - 1];
    var tail := SpacedFrom(w[|w| - 1], b);
    assert SpacedFrom(prev, a + w + b) == a + SpacedFrom(p, w + b) by {
      if a != [] {
        SpacedLowerPrefix(prev, a, w + b);
        assert a + w + b == a + (w + b);
      } else {
        assert a + w + b == w + b;
      }
    }
    assert SpacedFrom(p, w + b) == [' ', w[0]] + SpacedFrom(w[0], w[1..] + b) by {
      assert (w + b)[0] == w[0] && (w + b)[1..] == w[1..] + b;
      assert SpaceBefore(p, w[0]);
    }
    assert SpacedFrom(w[0], w[1..] + b) == w[1..] + tail by {
      if |w| > 1 {
        SpacedLowerPrefix(w[0], w[1..], b);
      } else {
        assert w[1..] + b == b;
      }
    }
    assert [' ', w[0]] + w[1..] == " " + w;
  }

  /** A run of letters that are not capitals passes through unchanged. */
  lemma {:induction false} SpacedLowerPrefix(prev: char, a: string, b: string)
    requires a != [] && forall i :: 0 <= i < |a| ==> !IsUpper(a[i])
    ensures SpacedFrom(prev, a + b) == a + SpacedFrom(a[|a| - 1], b)
    decreases a
  {
    assert (a + b)[0] == a[0] && (a + b)[1..] == a[1..] + b;
    if |a| > 1 {
      SpacedLowerPrefix(a[0], a[1..], b);
      assert a == [a[0]] + a[1..];
    }
  }

  /** A string with no capital letters gets no spaces. */
  lemma {:induction false} SpacedNoCapitals(prev: char, s: string)
    requires forall i :: 0 <= i < |s| ==> !IsUpper(s[i])
    ensures SpacedFrom(prev, s) == s
    decreases s
  {
    if s != [] {
      SpacedNoCapitals(s[0], s[1..]);
      assert s == [s[0]] + s[1..];
    }
  }

  // -------------------------------------------------------------- blueprints

  /** `'%s' % x` for an optional string: None prints as `None`. */
  function PyStr(x: Option<string>): string
  {
    if x.Some? then x.value else "None"
  }

  /**
   * The URL prefix `create_blueprint` gives a view. A missing url is
   * derived from the endpoint, a relative one is put under the admin's
   * url, an absolute one is kept, and the site root `'/'` becomes None.
   */
  function BlueprintUrl(adminUrl: Option<string>, endpoint: string, url: Option<string>, isIndex: bool): (r: Option<string>)
    ensures r != Some("/")
    ensures url.Some? && StartsWith(url.value, "/") && url.value != "/" ==> r == url
    ensures url.Some? && url.value != "" && !StartsWith(url.value, "/") ==> r == Some(PyStr(adminUrl) + "/" + url.value)
    ensures url.None? && adminUrl != Some("/") && (PyStr(adminUrl) != "" || endpoint != "") ==>
              r == Some(PyStr(adminUrl) + "/" + endpoint)
    ensures url.None? && adminUrl == Some("/") ==> r == if isIndex || endpoint == "" then None else Some("/" + endpoint)
  {
    var u :=
      if url.None? then
        if adminUrl != Some("/") then PyStr(adminUrl) + "/" + endpoint
        else if isIndex then "/"
        else "/" + endpoint
      else if !StartsWith(url.value, "/") then PyStr(adminUrl) + "/" + url.value
      else url.value;
    if u == "/" then None else Some(u)
  }

  /** The blueprint `create_blueprint` registers. */
  datatype Blueprint = Blueprint(name: string, urlPrefix: Option<string>, subdomain: Option<string>,
                                 staticFolder: Option<string>, staticUrlPath: Option<string>,
                                 rules: seq<Rule>)

  /** A string attribute that is set and not empty. */
  predicate Truthy(s: Option<string>)
  {
    s.Some? && s.value != ""
  }

  // ------------------------------------------------------------------ views

  class BaseView {
    const cls: ViewClass
    /** `cls._urls` and `cls._default_view`, as the metaclass computed them. */
    const rules: seq<Rule>
    const defaultView: string
    const category: Option<string>
    const staticFolder: Option<string>
    /** What `is_accessible()` and `is_visible()` answer. */
    const accessible: bool
    const visible: bool
    var name: Option<string>
    var endpoint: Option<string>
    var url: Option<string>
    var staticUrlPath: Option<string>
    var admin: Admin?
    var blueprint: Option<Blueprint>

    constructor(cls: ViewClass, name: Option<string>, category: Option<string>, endpoint: Option<string>,
                url: Option<string>, staticFolder: Option<string>, staticUrlPath: Option<string>,
                accessible: bool, visible: bool)
      requires DefaultView(cls.members).Some?
      ensures this.cls == cls && rules == ClassRules(cls.members) && defaultView == DefaultView(cls.members).value
      ensures this.name == name && this.category == category && this.endpoint == endpoint && this.url == url
      ensures this.staticFolder == staticFolder && this.staticUrlPath == staticUrlPath
      ensures this.accessible == accessible && this.visible == visible
      ensures admin == null && blueprint.None?
    {
      var rs, dv := GatherExposed(cls.members);
      this.cls := cls;
      rules := rs;
      defaultView := dv.value;
      this.name := name;
      this.category := category;
      this.endpoint := endpoint;
      this.url := url;
      this.staticFolder := staticFolder;
      this.staticUrlPath := staticUrlPath;
      this.accessible := accessible;
      this.visible := visible;
      admin := null;
      blueprint := None;
    }

    /**
     * `create_blueprint`: fills in the endpoint, url, static path and name
     * the view was constructed without, and registers every exposed rule.
     */
    method CreateBlueprint(admin: Admin) returns (bp: Blueprint)
      modifies this
      ensures this.admin == admin
      ensures endpoint == Some(if old(endpoint).Some? then old(endpoint).value else Lower(cls.name))
      ensures url == BlueprintUrl(admin.url, endpoint.value, old(url), this == admin.indexView)
      ensures staticUrlPath == if Truthy(old(staticUrlPath)) then old(staticUrlPath) else admin.staticUrlPath
      ensures name == if old(name).Some? then old(name) else Some(PrettifyClassName(cls.name))
      ensures bp == Blueprint(endpoint.value, url, admin.subdomain, staticFolder, staticUrlPath, rules)
      ensures blueprint == Some(bp)
    {
      this.admin := admin;
      if endpoint.None? {
        endpoint := Some(Lower(cls.name));
      }
      if !Truthy(staticUrlPath) {
        staticUrlPath := admin.staticUrlPath;
      }
      var u: string;
      if url.None? {
        if admin.url != Some("/") {
          u := PyStr(admin.url) + "/" + endpoint.value;
        } else if this == admin.indexView {
          u := "/";
        } else {
          u := "/" + endpoint.value;
        }
      } else if !StartsWith(url.value, "/") {
        u := PyStr(admin.url) + "/" + url.value;
      } else {
        u := url.value;
      }
      url := if u == "/" then None else Some(u);
      if name.None? {
        name := Some(PrettifyClassName(cls.name));
      }
      bp := Blueprint(endpoint.value, url, admin.subdomain, staticFolder, staticUrlPath, rules);
      blueprint := Some(bp);
    }
  }

  /** A view class is instantiated only when it has a default view; otherwise the constructor raises. */
  method NewView(cls: ViewClass, name: Option<string>, category: Option<string>, endpoint: Option<string>,
                 url: Option<string>, staticFolder: Option<string>, staticUrlPath: Option<string>,
                 accessible: bool, visible: bool)
    returns (r: Result<BaseView>)
    ensures r.Err? <==> DefaultView(cls.members).None?
    ensures r.Ok? ==> fresh(r.value) && r.value.cls == cls && r.value.defaultView == DefaultView(cls.members).value
                      && r.value.name == name && r.value.endpoint == endpoint && r.value.url == url
  {
    if DefaultView(cls.members).None? {
      return Err("Attempted to instantiate admin view " + cls.name + " without default view");
    }
    var v := new BaseView(cls, name, category, endpoint, url, staticFolder, staticUrlPath, accessible, visible);
    return Ok(v);
  }

  /** `AdminIndexView`: its one exposed method, `index`, is served at `'/'`. */
  const IndexViewClass: ViewClass := ViewClass("AdminIndexView", [ViewMember("index", [("/", DefaultMethods)])])

  /** `AdminIndexView(endpoint=..., url=...)`, the index view an `Admin` makes when given none. */
  method NewIndexView(endpoint: Option<string>, url: Option<string>) returns (iv: BaseView)
    ensures fresh(iv) && iv.cls == IndexViewClass && iv.endpoint == endpoint && iv.url == url
  {
    assert ExposesRoot(IndexViewClass.members[0]) by {
      assert IndexViewClass.members[0].urls[0].0 == "/";
    }
    iv := new BaseView(IndexViewClass, Some("Home"), None, endpoint, url, Some("static"), None, true, true);
  }

  /** The index view `Admin.__init__` uses: the one given, or a new one at the default endpoint and URL. */
  method IndexViewFor(indexView: BaseView?, endpoint: Option<string>, url: Option<string>) returns (iv: BaseView)
    ensures indexView != null ==> iv == indexView
    ensures indexView == null ==> fresh(iv) && iv.cls == IndexViewClass
                                  && iv.endpoint == Some(if Truthy(endpoint) then endpoint.value else "admin")
                                  && iv.url == Some(if Truthy(url) then url.value else "/admin")
  {
    if indexView != null {
      iv := indexView;
    } else {
      iv := NewIndexView(Some(if Truthy(endpoint) then endpoint.value else "admin"),
                         Some(if Truthy(url) then url.value else "/admin"));
    }
  }

  // ------------------------------------------------------------------- menu

  class MenuItem {
    const name: Option<string>
    /** The view of an item; null for a category. */
    const view: BaseView?
    /** The view's url when the item was made. */
    const url: Option<string>
    var children: seq<MenuItem>
    var childrenUrls: set<Option<string>>

    constructor(name: Option<string>, view: BaseView?)
      ensures this.name == name && this.view == view
      ensures url == if view == null then None else view.url
      ensures children == [] && childrenUrls == {}
    {
      this.name := name;
      this.view := view;
      url := if view == null then None else view.url;
      children := [];
      childrenUrls := {};
    }

    method AddChild(item: MenuItem)
      modifies this
      ensures children == old(children) + [item]
      ensures childrenUrls == old(childrenUrls) + {item.url}
    {
      children := children + [item];
      childrenUrls := childrenUrls + {item.url};
    }

    predicate IsCategory()
    {
      view == null
    }

    predicate IsAccessible()
    {
      view != null && view.accessible
    }

    predicate IsVisible()
    {
      view != null && view.visible
    }

    /** `is_active(v)`: v is the item's own view or the url of one of its children. */
    predicate IsActive(v: BaseView)
      reads this, v
    {
      v == view || v.url in childrenUrls
    }

    /** `get_children`: the children that are accessible and visible, in order. */
    function GetChildren(): (r: seq<MenuItem>)
      reads this
      ensures forall i :: 0 <= i < |r| ==> r[i] in children && r[i].IsAccessible() && r[i].IsVisible()
      ensures forall i :: 0 <= i < |children| && children[i].IsAccessible() && children[i].IsVisible() ==>
                children[i] in r
      ensures |r| <= |children|
    {
      Shown(children)
    }
  }

  function Shown(items: seq<MenuItem>): (r: seq<MenuItem>)
    ensures forall i :: 0 <= i < |r| ==> r[i] in items && r[i].IsAccessible() && r[i].IsVisible()
    ensures forall i :: 0 <= i < |items| && items[i].IsAccessible() && items[i].IsVisible() ==> items[i] in r
    ensures |r| <= |items|
  {
    if items == [] then []
    else
      (if items[0].IsAccessible() && items[0].IsVisible() then [items[0]] else []) + Shown(items[1..])
  }

  /**
   * The filter keeps the children's order: splitting the children anywhere
   * splits the shown list at the same place, and a single child is shown
   * exactly when it is accessible and visible.
   */
  lemma {:induction false} ShownSplit(items: seq<MenuItem>, k: nat)
    requires k <= |items|
    ensures Shown(items) == Shown(items[..k]) + Shown(items[k..])
    ensures k < |items| ==>
              Shown([items[k]]) == if items[k].IsAccessible() && items[k].IsVisible() then [items[k]] else []
    decreases k
  {
    if k > 0 {
      var head := if items[0].IsAccessible() && items[0].IsVisible() then [items[0]] else [];
      ShownSplit(items[1..], k - 1);
      assert Shown(items) == head + Shown(items[1..]);
      assert items[..k][0] == items[0] && items[..k][1..] == items[1..][..k - 1];
      assert Shown(items[..k]) == head + Shown(items[1..][..k - 1]);
      assert items[1..][k - 1..] == items[k..];
    } else {
      assert items[..0] == [] && items[0..] == items;
    }
    if k < |items| {
      assert [items[k]][1..] == [];
    }
  }

  // ------------------------------------------------------------- the admin

  /** A Flask application: the admins in `extensions['admin']` and the registered blueprints. */
  class App {
    var admins: seq<Admin>
    var blueprints: seq<Blueprint>

    constructor()
      ensures admins == [] && blueprints == []
    {
      admins := [];
      blueprints := [];
    }
  }

  /**
   * Why `_init_extension` refuses an admin: the first registered admin with
   * the same endpoint, or with the same url and subdomain, decides the message.
   */
  function Conflict(admins: seq<Admin>, a: Admin): (r: Option<string>)
    ensures r.Some? ==> r.value in [SameEndpoint, SameUrl]
    ensures r.None? <==>
              forall i :: 0 <= i < |admins| ==>
                admins[i].endpoint != a.endpoint && !(admins[i].url == a.url && admins[i].subdomain == a.subdomain)
  {
    if admins == [] then None
    else if admins[0].endpoint == a.endpoint then Some(SameEndpoint)
    else if admins[0].url == a.url && admins[0].subdomain == a.subdomain then Some(SameUrl)
    else Conflict(admins[1..], a)
  }

  const SameEndpoint := "Cannot have two Admin() instances with same endpoint name."
  const SameUrl := "Cannot assign two Admin() instances with same URL and subdomain to the same application."

  /** An admin that is already registered cannot be registered again. */
  lemma {:induction false} RegisteredTwice(admins: seq<Admin>, a: Admin)
    requires a in admins
    ensures Conflict(admins, a).Some?
  {
    var i :| 0 <= i < |admins| && admins[i] == a;
    assert admins[i].endpoint == a.endpoint;
  }

  class Admin {
    const name: string
    const indexView: BaseView
    const endpoint: Option<string>
    const url: Option<string>
    const staticUrlPath: Option<string>
    const subdomain: Option<string>
    const baseTemplate: string
    var app: App?
    var views: seq<BaseView>
    var menu: seq<MenuItem>
    var menuCategories: map<string, MenuItem>
    var localeSelector: Option<string>

    /**
     * Every category item is in the menu once, has no view and is named
     * after its category.
     */
    ghost predicate MenuValid()
      reads this, menuCategories.Values
    {
      (forall c :: c in menuCategories ==>
         menuCategories[c] in menu && menuCategories[c].view == null && menuCategories[c].name == Some(c))
      && (forall i, j :: 0 <= i < j < |menu| ==> menu[i] != menu[j])
    }

    /**
     * The fields `__init__` sets before it adds the index view. The index
     * view is the one given or a new `AdminIndexView`.
     */
    constructor(app: App?, name: Option<string>, url: Option<string>, subdomain: Option<string>,
                indexView: BaseView?, endpoint: Option<string>, staticUrlPath: Option<string>,
                baseTemplate: Option<string>)
      ensures this.app == app && views == [] && menu == [] && menuCategories == map[] && localeSelector.None?
      ensures this.name == if name.Some? then name.value else "Admin"
      ensures indexView != null ==> this.indexView == indexView
      ensures indexView == null ==> fresh(this.indexView) && this.indexView.cls == IndexViewClass
                                    && this.indexView.endpoint == Some(if Truthy(endpoint) then endpoint.value else "admin")
                                    && this.indexView.url == Some(if Truthy(url) then url.value else "/admin")
      ensures this.endpoint == if Truthy(endpoint) then endpoint else this.indexView.endpoint
      ensures this.url == if Truthy(url) then url else this.indexView.url
      ensures this.subdomain == subdomain && this.staticUrlPath == staticUrlPath
      ensures MenuValid()
    {
      var iv := IndexViewFor(indexView, endpoint, url);
      var ivEndpoint, ivUrl := iv.endpoint, iv.url;
      this.app := app;
      this.name := if name.Some? then name.value else "Admin";
      this.indexView := iv;
      this.endpoint := if Truthy(endpoint) then endpoint else ivEndpoint;
      this.url := if Truthy(url) then url else ivUrl;
      this.staticUrlPath := staticUrlPath;
      this.subdomain := subdomain;
      this.baseTemplate := if Truthy(baseTemplate) then baseTemplate.value else "admin/base.html";
      views := [];
      menu := [];
      menuCategories := map[];
      localeSelector := None;
    }

    /** `locale_selector`: a selector can be installed once; a second one raises. */
    method LocaleSelector(f: string) returns (error: Option<string>)
      modifies this
      ensures old(localeSelector).Some? ==> error.Some? && localeSelector == old(localeSelector)
      ensures old(localeSelector).None? ==> error.None? && localeSelector == Some(f)
    {
      if localeSelector.Some? {
        return Some("Can not add locale_selector second time.");
      }
      localeSelector := Some(f);
      return None;
    }

    /**
     * `_add_view_to_menu`: a view without a category becomes a top-level
     * item; a view with one goes under its category's item, which is made
     * and appended to the menu the first time the category is used.
     */
    method AddViewToMenu(view: BaseView)
      requires MenuValid()
      modifies this
      modifies if Truthy(view.category) && view.category.value in menuCategories
               then {menuCategories[view.category.value]} else {}
      ensures MenuValid()
      ensures views == old(views) && app == old(app) && localeSelector == old(localeSelector)
      ensures !Truthy(view.category) ==>
                |menu| == |old(menu)| + 1 && menu[..|old(menu)|] == old(menu)
                && fresh(menu[|old(menu)|]) && menu[|old(menu)|].view == view
                && menuCategories == old(menuCategories)
      ensures Truthy(view.category) ==>
                var c := view.category.value;
                c in menuCategories && menuCategories[c].IsActive(view)
                && |menuCategories[c].children| >= 1
                && menuCategories[c].children[|menuCategories[c].children| - 1].view == view
      ensures Truthy(view.category) && view.category.value in old(menuCategories) ==>
                var c := view.category.value;
                menu == old(menu) && menuCategories == old(menuCategories)
                && |menuCategories[c].children| == |old(menuCategories[c].children)| + 1
                && menuCategories[c].children[..|old(menuCategories[c].children)|] == old(menuCategories[c].children)
      ensures Truthy(view.category) && view.category.value !in old(menuCategories) ==>
                var c := view.category.value;
                fresh(menuCategories[c]) && menu == old(menu) + [menuCategories[c]]
                && menuCategories == old(menuCategories)[c := menuCategories[c]]
                && |menuCategories[c].children| == 1
    {
      var item := new MenuItem(view.name, view);
      if Truthy(view.category) {
        var c := view.category.value;
        var category: MenuItem;
        if c in menuCategories {
          category := menuCategories[c];
        } else {
          category := new MenuItem(view.category, null);
          menuCategories := menuCategories[c := category];
          menu := menu + [category];
        }
        category.AddChild(item);
      } else {
        menu := menu + [item];
      }
    }

    /**
     * `_init_extension`: the admin joins the application's admins unless
     * one of them has the same endpoint, or the same url and subdomain.
     */
    method InitExtension() returns (error: Option<string>)
      requires app != null
      modifies app
      ensures error == Conflict(old(app.admins), this)
      ensures error.None? ==> app.admins == old(app.admins) + [this]
      ensures error.Some? ==> app.admins == old(app.admins)
      ensures app.blueprints == old(app.blueprints)
    {
      var admins := app.admins;
      var i := 0;
      while i < |admins|
        invariant 0 <= i <= |admins|
        invariant Conflict(admins, this) == Conflict(admins[i..], this)
      {
        var p := admins[i];
        assert admins[i..][1..] == admins[i + 1..];
        if p.endpoint == endpoint {
          return Some(SameEndpoint);
        }
        if p.url == url && p.subdomain == subdomain {
          return Some(SameUrl);
        }
        i := i + 1;
      }
      app.admins := admins + [this];
      return None;
    }

    /**
     * `add_view`: the view joins the collection; when an application is set
     * its blueprint is registered and it is added to the menu.
     */
    method AddView(view: BaseView)
      requires MenuValid()
      modifies this, view, app
      modifies if Truthy(view.category) && view.category.value in menuCategories
               then {menuCategories[view.category.value]} else {}
      ensures MenuValid()
      ensures views == old(views) + [view] && app == old(app)
      ensures app == null ==> menu == old(menu) && menuCategories == old(menuCategories) && unchanged(view)
      ensures app != null ==> view.admin == this && view.blueprint.Some?
                              && app.blueprints == old(app.blueprints) + [view.blueprint.value]
                              && app.admins == old(app.admins)
      ensures app != null && !Truthy(view.category) ==>
                |menu| == |old(menu)| + 1 && menu[..|old(menu)|] == old(menu) && menu[|old(menu)|].view == view
      ensures app != null && Truthy(view.category) ==>
                view.category.value in menuCategories && menuCategories[view.category.value].IsActive(view)
    {
      views := views + [view];
      if app != null {
        var bp := view.CreateBlueprint(this);
        app.blueprints := app.blueprints + [bp];
        AddViewToMenu(view);
      }
    }
  }

  /**
   * `Admin(...)`: the constructor adds the index view and, when an
   * application is given, registers with it; a clash raises.
   */
  method NewAdmin(app: App?, name: Option<string>, url: Option<string>, subdomain: Option<string>,
                  indexView: BaseView?, endpoint: Option<string>, staticUrlPath: Option<string>,
                  baseTemplate: Option<string>)
    returns (r: Result<Admin>)
    modifies app, indexView
    ensures app == null ==> r.Ok?
    ensures r.Ok? ==> fresh(r.value) && r.value.views == [r.value.indexView] && r.value.MenuValid()
    ensures r.Ok? && app != null ==>
              Conflict(old(app.admins), r.value).None? && app.admins == old(app.admins) + [r.value]
              && r.value.indexView.admin == r.value
    ensures r.Err? ==> app != null && app.admins == old(app.admins) && r.error in [SameEndpoint, SameUrl]
  {
    var a := new Admin(app, name, url, subdomain, indexView, endpoint, staticUrlPath, baseTemplate);
    a.AddView(a.indexView);
    if app != null {
      var error := a.InitExtension();
      if error.Some? {
        return Err(error.value);
      }
    }
    return Ok(a);
  }
}
