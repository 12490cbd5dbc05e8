/**
 * The list view's query string, lib/flask_admin/model/base.py: how
 * `_get_url` writes the page, sort, search and active filters as request
 * arguments, and how `_get_extra_args` reads them back.
 */
module FilterArgs {
  import opened Wrappers
  import opened Text
  import opened Sorting
  import opened Filters

  /** A request argument as `_get_extra_args` sees it: the key and its first value. */
  type Arg = (string, string)

  /** `'%d' % n` */
  function IntString(n: int): (r: string)
    ensures '_' !in r
    ensures |r| >= 1
  {
    if n < 0 then "-" + DecimalString(-n) else DecimalString(n)
  }

  /** `int('%d' % n) == n` */
  lemma ParseIntString(n: int)
    ensures ParseInt(IntString(n)) == Some(n)
  {
    if n < 0 {
      ParseNegativeDecimal(n);
    } else {
      ParseDecimal(n);
    }
  }

  /** The first `c` in a string comes after a prefix that does not hold it. */
  lemma FindAfterPrefix(s: string, prefix: string, c: char)
    requires StartsWith(s, prefix) && c !in prefix
    ensures Find(s, c) == -1 || Find(s, c) >= |prefix|
  {
  }

  /** `'flt%d_%d' % (i, idx)`: the key of the i-th active filter. */
  function FilterKey(i: int, idx: int): string
  {
    "flt" + IntString(i) + "_" + IntString(idx)
  }

  /**
   * What one argument contributes to the active filters: `(pos, (idx,
   * clean(value)))` when the key is `flt<pos>_<idx>` with integer pos and
   * idx, idx names a filter, and the filter accepts the value.
   */
  function ParseArg(arg: Arg, filters: seq<BaseFilter>): (r: Option<(int, (int, string))>)
    ensures r.Some? ==> StartsWith(arg.0, "flt") && 0 <= r.value.1.0 < |filters|
  {
    var (key, value) := arg;
    if !StartsWith(key, "flt") then None
    else
      var ofs := Find(key, '_');
      if ofs == -1 then None
      else
        FindAfterPrefix(key, "flt", '_');
        var pos := ParseInt(key[3..ofs]);
        var idx := ParseInt(key[ofs + 1..]);
        if pos.None? || idx.None? then None
        else if 0 <= idx.value < |filters| && Validate(filters[idx.value], value) then
          Some((pos.value, (idx.value, Clean(filters[idx.value], value))))
        else None
  }

  /** A key `_get_url` writes reads back as the position and index it was written from. */
  lemma ParseFilterKey(i: int, idx: int, value: string, filters: seq<BaseFilter>)
    ensures ParseArg((FilterKey(i, idx), value), filters)
            == if 0 <= idx < |filters| && Validate(filters[idx], value) then Some((i, (idx, value))) else None
  {
    var a, b := IntString(i), IntString(idx);
    var key := FilterKey(i, idx);
    assert key == "flt" + a + "_" + b;
    assert StartsWith(key, "flt");
    var ofs := 3 + |a|;
    assert key[ofs] == '_';
    assert key[..ofs] == "flt" + a;
    assert '_' !in key[..ofs];
    assert Find(key, '_') == ofs;
    assert key[3..ofs] == a;
    assert key[ofs + 1..] == b;
    ParseIntString(i);
    ParseIntString(idx);
  }

  /** The entries one argument adds to `sfilters`. */
  function Contribution(arg: Arg, filters: seq<BaseFilter>): seq<(int, (int, string))>
  {
    match ParseArg(arg, filters)
    case Some(t) => [t]
    case None => []
  }

  /** The `sfilters` the loop of `_get_extra_args` collects, in argument order. */
  function Kept(args: seq<Arg>, filters: seq<BaseFilter>): seq<(int, (int, string))>
  {
    if args == [] then [] else Contribution(args[0], filters) + Kept(args[1..], filters)
  }

  lemma {:induction false} KeptAppend(a: seq<Arg>, b: seq<Arg>, filters: seq<BaseFilter>)
    ensures Kept(a + b, filters) == Kept(a, filters) + Kept(b, filters)
  {
    if a == [] {
      assert a + b == b;
    } else {
      assert (a + b)[1..] == a[1..] + b;
      KeptAppend(a[1..], b, filters);
    }
  }

  lemma RemoveAt<T>(s: seq<T>, k: nat)
    requires k < |s|
    ensures multiset(s[..k] + s[k + 1..]) == multiset(s) - multiset{s[k]}
  {
    assert s == s[..k] + [s[k]] + s[k + 1..];
  }

  lemma MemberAt<T>(x: T, s: seq<T>) returns (k: nat)
    requires x in multiset(s)
    ensures k < |s| && s[k] == x
  {
    assert x in s;
    k :| 0 <= k < |s| && s[k] == x;
  }

  /** Taking the same element out of two permutations of each other leaves permutations. */
  lemma RemoveBoth<T>(a: seq<T>, b: seq<T>, k: nat)
    requires multiset(a) == multiset(b)
    requires a != [] && k < |b| && b[k] == a[0]
    ensures multiset(a[1..]) == multiset(b[..k] + b[k + 1..])
  {
    RemoveAt(a, 0);
    RemoveAt(b, k);
    assert a[..0] + a[1..] == a[1..];
  }

  /** Which filters are kept does not depend on the order of the arguments. */
  lemma {:induction false} KeptPermutation(a: seq<Arg>, b: seq<Arg>, filters: seq<BaseFilter>)
    requires multiset(a) == multiset(b)
    ensures multiset(Kept(a, filters)) == multiset(Kept(b, filters))
    decreases |a|
  {
    if a == [] {
      assert |b| == |multiset(b)| == 0;
    } else {
      var x := a[0];
      var k := MemberAt(x, b);
      var rest := b[..k] + b[k + 1..];
      RemoveBoth(a, b, k);
      KeptPermutation(a[1..], rest, filters);
      KeptSplit(b, k, filters);
    }
  }

  /** What one argument contributes can be moved to the front. */
  lemma KeptSplit(b: seq<Arg>, k: nat, filters: seq<BaseFilter>)
    requires k < |b|
    ensures multiset(Kept(b, filters))
         == multiset(Contribution(b[k], filters)) + multiset(Kept(b[..k] + b[k + 1..], filters))
  {
    assert b == b[..k] + ([b[k]] + b[k + 1..]);
    KeptAppend(b[..k], [b[k]] + b[k + 1..], filters);
    KeptAppend([b[k]], b[k + 1..], filters);
    KeptAppend(b[..k], b[k + 1..], filters);
    assert Kept([b[k]], filters) == Contribution(b[k], filters);
  }

  /** Arguments that are not filter keys contribute nothing. */
  lemma {:induction false} KeptOthers(args: seq<Arg>, filters: seq<BaseFilter>)
    requires forall i :: 0 <= i < |args| ==> !StartsWith(args[i].0, "flt")
    ensures Kept(args, filters) == []
  {
    if args != [] {
      KeptOthers(args[1..], filters);
    }
  }

  /** The active filters a list URL carries, as `_get_url` writes them. */
  function EncodeFilters(fs: seq<(int, string)>): (r: seq<Arg>)
    ensures |r| == |fs|
    ensures forall i :: 0 <= i < |fs| ==> r[i] == (FilterKey(i, fs[i].0), fs[i].1)
  {
    seq(|fs|, i requires 0 <= i < |fs| => (FilterKey(i, fs[i].0), fs[i].1))
  }

  /** Each active filter tagged with its position. */
  function Indexed(fs: seq<(int, string)>): (r: seq<(int, (int, string))>)
    ensures |r| == |fs|
    ensures forall i :: 0 <= i < |fs| ==> r[i] == (i, fs[i])
  {
    seq(|fs|, i requires 0 <= i < |fs| => (i, fs[i]))
  }

  /** Filters that every filter accepts as written. */
  predicate Acceptable(fs: seq<(int, string)>, filters: seq<BaseFilter>)
  {
    forall k :: 0 <= k < |fs| ==> 0 <= fs[k].0 < |filters| && Validate(filters[fs[k].0], fs[k].1)
  }

  lemma EncodeSnoc(fs: seq<(int, string)>)
    requires fs != []
    ensures EncodeFilters(fs)
         == EncodeFilters(fs[..|fs| - 1]) + [(FilterKey(|fs| - 1, fs[|fs| - 1].0), fs[|fs| - 1].1)]
  {
  }

  lemma IndexedSnoc(fs: seq<(int, string)>)
    requires fs != []
    ensures Indexed(fs) == Indexed(fs[..|fs| - 1]) + [(|fs| - 1, fs[|fs| - 1])]
  {
  }

  lemma {:induction false} KeptEncoded(fs: seq<(int, string)>, filters: seq<BaseFilter>)
    requires Acceptable(fs, filters)
    ensures Kept(EncodeFilters(fs), filters) == Indexed(fs)
    decreases |fs|
  {
    if fs != [] {
      var n := |fs| - 1;
      var init, last := fs[..n], fs[n];
      assert Acceptable(init, filters);
      KeptEncoded(init, filters);
      var arg := (FilterKey(n, last.0), last.1);
      EncodeSnoc(fs);
      KeptAppend(EncodeFilters(init), [arg], filters);
      ParseFilterKey(n, last.0, last.1, filters);
      assert Kept([arg], filters) == [(n, last)];
      IndexedSnoc(fs);
    }
  }

  /** `sorted(sfilters, key=lambda n: n[0])` compares positions only. */
  function ByPos(a: (int, (int, string)), b: (int, (int, string))): bool
  {
    a.0 <= b.0
  }

  lemma ByPosTotal()
    ensures TotalPreorder(ByPos)
  {
  }

  /** Two permutations of each other, the second strictly increasing by key, start alike. */
  lemma FirstEqual<T>(a: seq<(int, T)>, b: seq<(int, T)>)
    requires multiset(a) == multiset(b)
    requires forall i, j :: 0 <= i < j < |a| ==> a[i].0 <= a[j].0
    requires forall i, j :: 0 <= i < j < |b| ==> b[i].0 < b[j].0
    requires a != []
    ensures |b| > 0 && a[0] == b[0]
  {
    assert |a| == |multiset(a)| == |multiset(b)| == |b|;
    var j := MemberAt(a[0], b);
    var i := MemberAt(b[0], a);
  }

  /** A sequence ordered by key is the only ordering of its elements when the keys are distinct. */
  lemma {:induction false} SortedUnique<T>(a: seq<(int, T)>, b: seq<(int, T)>)
    requires multiset(a) == multiset(b)
    requires forall i, j :: 0 <= i < j < |a| ==> a[i].0 <= a[j].0
    requires forall i, j :: 0 <= i < j < |b| ==> b[i].0 < b[j].0
    ensures a == b
    decreases |a|
  {
    if a == [] {
      assert |b| == |multiset(b)| == 0;
    } else {
      FirstEqual(a, b);
      TailsPermute(a, b);
      TailNondecreasing(a);
      TailIncreasing(b);
      SortedUnique(a[1..], b[1..]);
      assert a == [a[0]] + a[1..];
      assert b == [b[0]] + b[1..];
    }
  }

  /** Taking the same first element off two permutations of each other leaves permutations. */
  lemma TailsPermute<T>(a: seq<T>, b: seq<T>)
    requires multiset(a) == multiset(b)
    requires a != [] && b != [] && a[0] == b[0]
    ensures multiset(a[1..]) == multiset(b[1..])
  {
    RemoveBoth(a, b, 0);
    assert b[..0] + b[1..] == b[1..];
  }

  lemma TailNondecreasing<T>(a: seq<(int, T)>)
    requires a != [] && forall i, j :: 0 <= i < j < |a| ==> a[i].0 <= a[j].0
    ensures forall i, j :: 0 <= i < j < |a[1..]| ==> a[1..][i].0 <= a[1..][j].0
  {
    var t := a[1..];
    forall i, j | 0 <= i < j < |t|
      ensures t[i].0 <= t[j].0
    {
      assert t[i] == a[i + 1] && t[j] == a[j + 1];
    }
  }

  lemma TailIncreasing<T>(b: seq<(int, T)>)
    requires b != [] && forall i, j :: 0 <= i < j < |b| ==> b[i].0 < b[j].0
    ensures forall i, j :: 0 <= i < j < |b[1..]| ==> b[1..][i].0 < b[1..][j].0
  {
    var t := b[1..];
    forall i, j | 0 <= i < j < |t|
      ensures t[i].0 < t[j].0
    {
      assert t[i] == b[i + 1] && t[j] == b[j + 1];
    }
  }

  /** `[v[1] for v in ...]` */
  function Values(s: seq<(int, (int, string))>): (r: seq<(int, string)>)
    ensures |r| == |s| && forall i :: 0 <= i < |s| ==> r[i] == s[i].1
  {
    seq(|s|, i requires 0 <= i < |s| => s[i].1)
  }

  /** The active filters `_get_extra_args` returns: None when the view has no filters. */
  function DecodeFilters(args: seq<Arg>, filters: Option<seq<BaseFilter>>): Option<seq<(int, string)>>
  {
    if filters.None? || filters.value == [] then None
    else Some(Values(SortBy(Kept(args, filters.value), ByPos)))
  }

  lemma KeptSnoc(args: seq<Arg>, i: nat, filters: seq<BaseFilter>)
    requires i < |args|
    ensures Kept(args[..i + 1], filters) == Kept(args[..i], filters) + Contribution(args[i], filters)
  {
    assert args[..i + 1] == args[..i] + [args[i]];
    KeptAppend(args[..i], [args[i]], filters);
    assert Kept([args[i]], filters) == Contribution(args[i], filters);
  }

  /** The filter loop of `_get_extra_args`. */
  method GetFilterArgs(args: seq<Arg>, filters: Option<seq<BaseFilter>>) returns (r: Option<seq<(int, string)>>)
    ensures r == DecodeFilters(args, filters)
  {
    if filters.None? || filters.value == [] {
      return None;
    }
    var all := filters.value;
    var sfilters: seq<(int, (int, string))> := [];
    var i := 0;
    while i < |args|
      invariant 0 <= i <= |args|
      invariant sfilters == Kept(args[..i], all)
    {
      KeptSnoc(args, i, all);
      var t := ParseArg(args[i], all);
      if t.Some? {
        sfilters := sfilters + [t.value];
      }
      i := i + 1;
    }
    assert args[..i] == args;
    r := Some(Values(SortBy(sfilters, ByPos)));
  }

  /** The page, sort, direction and search arguments of a list URL; those that are None are left out. */
  function PlainArgs(page: int, sort: Option<int>, desc: Option<int>, search: Option<string>): (r: seq<Arg>)
    ensures forall i :: 0 <= i < |r| ==> !StartsWith(r[i].0, "flt")
  {
    var r := (if page != 0 then [("page", IntString(page))] else [])
      + (if sort.Some? then [("sort", IntString(sort.value))] else [])
      + (if desc.Some? then [("desc", IntString(desc.value))] else [])
      + (if search.Some? && search.value != "" then [("search", search.value)] else []);
    forall i | 0 <= i < |r| ensures !StartsWith(r[i].0, "flt") {
      assert r[i].0 in ["page", "sort", "desc", "search"];
      assert r[i].0[0] != 'f';
    }
    r
  }

  /** The arguments of a list URL as `_get_url` builds them. */
  function UrlArgs(page: int, sort: Option<int>, desc: Option<int>, search: Option<string>,
                   fs: seq<(int, string)>): seq<Arg>
  {
    PlainArgs(page, sort, desc, search) + EncodeFilters(fs)
  }

  /** The entries kept from a URL `_get_url` built are its filters, tagged with their positions. */
  lemma KeptUrl(page: int, sort: Option<int>, desc: Option<int>, search: Option<string>,
                fs: seq<(int, string)>, filters: seq<BaseFilter>)
    requires Acceptable(fs, filters)
    ensures Kept(UrlArgs(page, sort, desc, search, fs), filters) == Indexed(fs)
  {
    var others := PlainArgs(page, sort, desc, search);
    KeptAppend(others, EncodeFilters(fs), filters);
    KeptOthers(others, filters);
    KeptEncoded(fs, filters);
  }

  /** `sorted(..., key=lambda n: n[0])` orders by position and keeps every element. */
  lemma SortedByPos(kept: seq<(int, (int, string))>)
    ensures multiset(SortBy(kept, ByPos)) == multiset(kept)
    ensures var sorted := SortBy(kept, ByPos);
            forall i, j :: 0 <= i < j < |sorted| ==> sorted[i].0 <= sorted[j].0
  {
    var sorted := SortBy(kept, ByPos);
    ByPosTotal();
    SortBySorted(kept, ByPos);
    forall i, j | 0 <= i < j < |sorted| ensures sorted[i].0 <= sorted[j].0 {
      assert ByPos(sorted[i], sorted[j]);
    }
  }

  /** Decoding what `_get_url` wrote gives back the active filters, whatever the argument order. */
  lemma FiltersRoundTrip(page: int, sort: Option<int>, desc: Option<int>, search: Option<string>,
                         fs: seq<(int, string)>, filters: seq<BaseFilter>, args: seq<Arg>)
    requires filters != [] && Acceptable(fs, filters)
    requires multiset(args) == multiset(UrlArgs(page, sort, desc, search, fs))
    ensures DecodeFilters(args, Some(filters)) == Some(fs)
  {
    KeptUrl(page, sort, desc, search, fs, filters);
    KeptPermutation(args, UrlArgs(page, sort, desc, search, fs), filters);
    var kept := Kept(args, filters);
    SortedByPos(kept);
    SortedUnique(SortBy(kept, ByPos), Indexed(fs));
    assert Values(Indexed(fs)) == fs;
  }

  /** `request.args.get(key)`: the value of the first argument with that key. */
  function Get(args: seq<Arg>, key: string): (r: Option<string>)
    ensures r.Some? ==> (key, r.value) in args
    ensures r.None? <==> forall i :: 0 <= i < |args| ==> args[i].0 != key
  {
    if args == [] then None
    else if args[0].0 == key then Some(args[0].1)
    else Get(args[1..], key)
  }

  /** `request.args.get(key, default, type=int)`: a value that is not an integer gives the default. */
  function GetInt(args: seq<Arg>, key: string, default: Option<int>): Option<int>
  {
    match Get(args, key)
    case None => default
    case Some(s) => if ParseInt(s).Some? then ParseInt(s) else default
  }

  /** What `_get_extra_args` returns. */
  datatype ExtraArgs = ExtraArgs(page: int, sort: Option<int>, desc: Option<int>, search: Option<string>,
                                 filters: Option<seq<(int, string)>>)

  function GetExtraArgs(args: seq<Arg>, filters: Option<seq<BaseFilter>>): ExtraArgs
  {
    ExtraArgs(GetInt(args, "page", Some(0)).value, GetInt(args, "sort", None), GetInt(args, "desc", None),
              Get(args, "search"), DecodeFilters(args, filters))
  }

  /** When every argument with a key has the same value, `get` finds that value. */
  lemma GetUnique(args: seq<Arg>, key: string, value: string)
    requires (key, value) in args
    requires forall i :: 0 <= i < |args| && args[i].0 == key ==> args[i].1 == value
    ensures Get(args, key) == Some(value)
  {
  }

  /** The arguments of a list URL other than the filters. */
  datatype PlainKey = PageKey | SortKey | DescKey | SearchKey
  {
    function Name(): (r: string)
      ensures r in ["page", "sort", "desc", "search"]
    {
      match this
      case PageKey => "page"
      case SortKey => "sort"
      case DescKey => "desc"
      case SearchKey => "search"
    }
  }

  /** The value `_get_url` writes under one of the plain keys; None when it leaves the key out. */
  function Written(page: int, sort: Option<int>, desc: Option<int>, search: Option<string>, key: PlainKey): Option<string>
  {
    match key
    case PageKey => if page != 0 then Some(IntString(page)) else None
    case SortKey => if sort.Some? then Some(IntString(sort.value)) else None
    case DescKey => if desc.Some? then Some(IntString(desc.value)) else None
    case SearchKey => if search.Some? && search.value != "" then search else None
  }

  /** A list URL holds each plain key at most once, with the value `Written` names. */
  lemma UrlKey(page: int, sort: Option<int>, desc: Option<int>, search: Option<string>,
               fs: seq<(int, string)>, key: PlainKey)
    ensures var url := UrlArgs(page, sort, desc, search, fs);
            var v := Written(page, sort, desc, search, key);
            (v.Some? ==> (key.Name(), v.value) in url)
            && forall i :: 0 <= i < |url| && url[i].0 == key.Name() ==> v.Some? && url[i].1 == v.value
  {
    var plain := PlainArgs(page, sort, desc, search);
    var enc := EncodeFilters(fs);
    var url := plain + enc;
    PlainKeyOnce(page, sort, desc, search, key);
    forall i | 0 <= i < |enc| ensures enc[i].0 != key.Name() {
      assert enc[i].0[0] == 'f' != key.Name()[0];
    }
    forall i | |plain| <= i < |url|
      ensures url[i].0 != key.Name()
    {
      assert url[i] == enc[i - |plain|];
    }
    forall i | 0 <= i < |plain|
      ensures url[i] == plain[i]
    {
    }
  }

  /** Different plain keys have different names. */
  lemma NameInjective(k1: PlainKey, k2: PlainKey)
    ensures k1.Name() == k2.Name() ==> k1 == k2
  {
    if k1 != k2 {
      var n1, n2 := k1.Name(), k2.Name();
      assert n1[0] != n2[0] || n1[1] != n2[1];
    }
  }

  /** The plain arguments alone hold each key at most once, with the value `Written` names. */
  lemma PlainKeyOnce(page: int, sort: Option<int>, desc: Option<int>, search: Option<string>, key: PlainKey)
    ensures var plain := PlainArgs(page, sort, desc, search);
            var v := Written(page, sort, desc, search, key);
            (v.Some? ==> (key.Name(), v.value) in plain)
            && forall i :: 0 <= i < |plain| && plain[i].0 == key.Name() ==> v.Some? && plain[i].1 == v.value
  {
    var w := k => Written(page, sort, desc, search, k);
    var a, b, c, d := Slot("page", w(PageKey)), Slot("sort", w(SortKey)), Slot("desc", w(DescKey)), Slot("search", w(SearchKey));
    var plain := a + b + c + d;
    var v := w(key);
    assert PlainArgs(page, sort, desc, search) == plain;
    forall i | 0 <= i < |plain| && plain[i].0 == key.Name()
      ensures v.Some? && plain[i].1 == v.value
    {
      var x := plain[i];
      InSegments(a, b, c, d, i);
      if x in a {
        NameInjective(key, PageKey);
      } else if x in b {
        NameInjective(key, SortKey);
      } else if x in c {
        NameInjective(key, DescKey);
      } else {
        NameInjective(key, SearchKey);
      }
    }
    if v.Some? {
      match key
      case PageKey => assert (key.Name(), v.value) in a;
      case SortKey => assert (key.Name(), v.value) in b;
      case DescKey => assert (key.Name(), v.value) in c;
      case SearchKey => assert (key.Name(), v.value) in d;
    }
  }

  /** The entry written under `name` when there is a value. */
  function Slot(name: string, value: Option<string>): (r: seq<Arg>)
    ensures forall x :: x in r ==> x.0 == name && value.Some? && x.1 == value.value
    ensures value.Some? ==> (name, value.value) in r
  {
    if value.Some? then [(name, value.value)] else []
  }

  lemma InSegments(a: seq<Arg>, b: seq<Arg>, c: seq<Arg>, d: seq<Arg>, i: int)
    requires 0 <= i < |a + b + c + d|
    ensures var x := (a + b + c + d)[i]; x in a || x in b || x in c || x in d
  {
    var s := a + b + c + d;
    if i < |a| {
      assert s[i] == a[i];
    } else if i < |a| + |b| {
      assert s[i] == b[i - |a|];
    } else if i < |a| + |b| + |c| {
      assert s[i] == c[i - |a| - |b|];
    } else {
      assert s[i] == d[i - |a| - |b| - |c|];
    }
  }

  /** The page, sort column, direction and search come back as they were written. */
  lemma UrlRoundTrip(page: int, sort: Option<int>, desc: Option<int>, search: Option<string>,
                     fs: seq<(int, string)>, filters: seq<BaseFilter>, args: seq<Arg>)
    requires filters != [] && Acceptable(fs, filters)
    requires multiset(args) == multiset(UrlArgs(page, sort, desc, search, fs))
    ensures var extra := GetExtraArgs(args, Some(filters));
            extra.page == page && extra.sort == sort && extra.desc == desc
            && extra.search == (if search == Some("") then None else search)
            && extra.filters == Some(fs)
  {
    FiltersRoundTrip(page, sort, desc, search, fs, filters, args);
    PlainRoundTrip(page, sort, desc, search, fs, args);
  }

  /** The page, sort column, direction and search read back from a list URL. */
  lemma PlainRoundTrip(page: int, sort: Option<int>, desc: Option<int>, search: Option<string>,
                       fs: seq<(int, string)>, args: seq<Arg>)
    requires multiset(args) == multiset(UrlArgs(page, sort, desc, search, fs))
    ensures GetInt(args, "page", Some(0)) == Some(page)
    ensures GetInt(args, "sort", None) == sort && GetInt(args, "desc", None) == desc
    ensures Get(args, "search") == if search == Some("") then None else search
  {
    ReadBack(page, sort, desc, search, fs, args, PageKey);
    ReadIntBack(args, "page", if page != 0 then Some(page) else None, Some(0));
    ReadBack(page, sort, desc, search, fs, args, SortKey);
    ReadIntBack(args, "sort", sort, None);
    ReadBack(page, sort, desc, search, fs, args, DescKey);
    ReadIntBack(args, "desc", desc, None);
    ReadBack(page, sort, desc, search, fs, args, SearchKey);
  }

  /** `get(key, default, type=int)` of a value written with `'%d'` is the number written. */
  lemma ReadIntBack(args: seq<Arg>, key: string, n: Option<int>, default: Option<int>)
    requires Get(args, key) == if n.Some? then Some(IntString(n.value)) else None
    ensures GetInt(args, key, default) == if n.Some? then n else default
  {
    if n.Some? {
      ParseIntString(n.value);
    }
  }

  /** `request.args.get(key)` on a URL `_get_url` built finds the value it wrote. */
  lemma ReadBack(page: int, sort: Option<int>, desc: Option<int>, search: Option<string>,
                 fs: seq<(int, string)>, args: seq<Arg>, key: PlainKey)
    requires multiset(args) == multiset(UrlArgs(page, sort, desc, search, fs))
    ensures Get(args, key.Name()) == Written(page, sort, desc, search, key)
  {
    var url := UrlArgs(page, sort, desc, search, fs);
    var value := Written(page, sort, desc, search, key);
    UrlKey(page, sort, desc, search, fs, key);
    if value.Some? {
      assert (key.Name(), value.value) in multiset(url);
      forall i | 0 <= i < |args| && args[i].0 == key.Name() ensures args[i].1 == value.value {
        assert args[i] in multiset(url);
      }
      GetUnique(args, key.Name(), value.value);
    } else {
      forall i | 0 <= i < |args| ensures args[i].0 != key.Name() {
        assert args[i] in multiset(url);
      }
    }
  }
}
