/**
 * lib/flask_admin/contrib/fileadmin.py: the path and name logic of the file
 * manager view. The file system is not modelled: whether a path exists, what
 * a directory holds and which paths the user may see are parameters.
 */
module FileAdmin {
  import opened Wrappers
  import opened Text
  import opened PosixPath
  import Sorting
  import ModelBase

  // ---------------------------------------------------------------------
  // NameForm: the file and directory name pattern

  /** The characters `[^\x00-\x1f\\?*:\";|/]` refuses. */
  predicate Forbidden(c: char)
  {
    c as int < 0x20 || c in "\\?*:\";|/"
  }

  /** `PRN|AUX|CLOCK\$|NUL|CON|COM\d|LPT\d` */
  predicate ReservedWord(w: string)
  {
    w == "PRN" || w == "AUX" || w == "CLOCK$" || w == "NUL" || w == "CON"
    || (|w| == 4 && (w[..3] == "COM" || w[..3] == "LPT") && IsDigit(w[3]))
  }

  /** `(\..+)?` covering all of `t`, a string without a newline. */
  predicate OptionalExtension(t: string)
  {
    t == "" || (|t| >= 2 && t[0] == '.')
  }

  /** A reserved word of length `m` starting the line, and an optional extension after it. */
  predicate ReservedAt(b: string, m: nat)
  {
    m <= |b| && ReservedWord(b[..m]) && OptionalExtension(b[m..])
  }

  /**
   * `(PRN|…|LPT\d|\..*)(\..+)?` covering all of `b`, a string without a
   * newline: a name starting with a dot, or a reserved device name with an
   * optional extension (the reserved words have 3, 4 or 6 characters).
   */
  predicate ReservedLine(b: string)
  {
    (|b| >= 1 && b[0] == '.') || ReservedAt(b, 3) || ReservedAt(b, 4) || ReservedAt(b, 6)
  }

  /** Python's `$` at position `i`: the end of `s`, or just before a newline that ends `s`. */
  predicate DollarAt(s: string, i: int)
  {
    i == |s| || (i == |s| - 1 && 0 <= i && s[i] == '\n')
  }

  /** The negative lookahead's pattern matches at the start of `s` (`.` never crosses a newline). */
  predicate LookaheadMatches(s: string)
  {
    exists i | 0 <= i <= |s| :: DollarAt(s, i) && '\n' !in s[..i] && ReservedLine(s[..i])
  }

  /** `[^\x00-\x1f\\?*:\";|/]+$` matches at the start of `s`. */
  predicate BodyMatches(s: string)
  {
    exists i | 1 <= i <= |s| :: DollarAt(s, i) && forall k | 0 <= k < i :: !Forbidden(s[k])
  }

  /** `NameForm.regexp.match(name)`, as the pattern is written. */
  predicate NameRegexMatches(s: string)
  {
    !LookaheadMatches(s) && BodyMatches(s)
  }

  /** `NameForm.validate_name`, as written. */
  function ValidateName(name: string): (r: Result<()>)
    ensures r.Ok? <==> NameRegexMatches(name)
    ensures r.Err? ==> r.error == "Invalid directory name"
  {
    if NameRegexMatches(name) then Ok(()) else Err("Invalid directory name")
  }

  /** The names the pattern evidently means to accept: non-empty, no refused character, not reserved. */
  predicate ValidName(s: string)
  {
    |s| >= 1 && (forall k | 0 <= k < |s| :: !Forbidden(s[k])) && !ReservedLine(s)
  }

  /** `validate_name` with the name matched to its very end. */
  function ValidateNameFixed(name: string): (r: Result<()>)
    ensures r.Ok? <==> ValidName(name)
    ensures r.Err? ==> r.error == "Invalid directory name"
  {
    if ValidName(name) then Ok(()) else Err("Invalid directory name")
  }

  /** The pattern as written accepts a name ending in a newline. */
  lemma NameRegexAcceptsTrailingNewline()
    ensures NameRegexMatches("a\n")
    ensures !ValidName("a\n")
  {
    var s := "a\n";
    assert DollarAt(s, 1) && !Forbidden(s[0]);
    forall i | 0 <= i <= |s| && DollarAt(s, i) && '\n' !in s[..i]
      ensures !ReservedLine(s[..i])
    {
      assert i == 1;
      assert s[..1] == "a";
    }
    assert Forbidden(s[1]);
  }

  /**
   * Apart from names ending in a newline, the pattern accepts exactly the
   * valid names; the valid names never end in a newline.
   */
  lemma ValidNameAgrees(s: string)
    ensures ValidName(s) <==> NameRegexMatches(s) && !EndsWith(s, "\n")
  {
    if |s| > 0 && s[|s| - 1] == '\n' {
      assert Forbidden(s[|s| - 1]);
      assert EndsWith(s, "\n");
    } else {
      assert !EndsWith(s, "\n");
      assert s[..|s|] == s;
      forall i | 0 <= i <= |s| && DollarAt(s, i)
        ensures i == |s|
      {
      }
      if ValidName(s) {
        assert DollarAt(s, |s|);
        assert '\n' !in s by {
          forall k | 0 <= k < |s| ensures s[k] != '\n' {
            assert !Forbidden(s[k]);
          }
        }
      }
      if NameRegexMatches(s) {
        var i :| 1 <= i <= |s| && DollarAt(s, i) && forall k | 0 <= k < i :: !Forbidden(s[k]);
        assert i == |s|;
        assert '\n' !in s by {
          forall k | 0 <= k < |s| ensures s[k] != '\n' {
            assert !Forbidden(s[k]);
          }
        }
        assert DollarAt(s, |s|) && '\n' !in s[..|s|];
      }
    }
  }

  /** A valid name is a single path component. */
  lemma ValidNameIsOneComponent(s: string)
    requires ValidName(s)
    ensures Split(s, '/') == [s]
  {
    assert '/' !in s by {
      forall k | 0 <= k < |s| ensures s[k] != '/' {
        assert !Forbidden(s[k]);
      }
    }
    SplitWithoutSeparator(s, '/');
  }

  // ---------------------------------------------------------------------
  // Extensions

  /** `op.splitext(filename)[1].lower()` without its leading dot. */
  function FileExtension(filename: string): (r: string)
    ensures '.' !in r && '/' !in r
  {
    var dot := RFind(filename, '.');
    var ext := Lower(Extension(filename));
    assert forall i :: 0 <= i < |ext| ==> ext[i] == ToLower(Extension(filename)[i]);
    if StartsWith(ext, ".") then
      assert forall i :: 1 <= i < |ext| ==> Extension(filename)[i] in filename[dot + 1..];
      ext[1..]
    else ext
  }

  lemma LastDot(stem: string, ext: string)
    requires '.' !in ext
    ensures RFind(stem + "." + ext, '.') == |stem|
  {
    var p := stem + "." + ext;
    var r := RFind(p, '.');
    assert p[|stem|] == '.';
    assert p[|stem| + 1..] == ext;
    assert forall i :: |stem| < i < |p| ==> p[i] in ext;
    assert r >= |stem|;
  }

  lemma ExtensionOfStem(stem: string, ext: string)
    requires '/' !in stem && exists k :: 0 <= k < |stem| && stem[k] != '.'
    requires '.' !in ext && '/' !in ext
    ensures Extension(stem + "." + ext) == "." + ext
  {
    var p := stem + "." + ext;
    LastDot(stem, ext);
    assert '/' !in p;
    var k :| 0 <= k < |stem| && stem[k] != '.';
    assert p[k] == stem[k];
    assert p[|stem|..] == "." + ext;
  }

  /** A file named `stem.ext` has the extension `ext` lower-cased. */
  lemma ExtensionOfName(stem: string, ext: string)
    requires '/' !in stem && exists k :: 0 <= k < |stem| && stem[k] != '.'
    requires '.' !in ext && '/' !in ext
    ensures FileExtension(stem + "." + ext) == Lower(ext)
  {
    ExtensionOfStem(stem, ext);
    DottedExtension(stem + "." + ext, ext);
  }

  /** A name whose `splitext` extension is `.e` has the extension `e` lower-cased. */
  lemma DottedExtension(filename: string, e: string)
    requires Extension(filename) == "." + e
    ensures FileExtension(filename) == Lower(e)
  {
    var lowered := Lower("." + e);
    assert lowered[0] == '.';
    assert lowered[1..] == Lower(e);
  }

  // ---------------------------------------------------------------------
  // Paths

  /** `is_in_folder(base_path, directory)`, as written: a bare string prefix test. */
  predicate IsInFolderAsWritten(base: string, directory: string)
  {
    StartsWith(NormPath(directory), base)
  }

  /** The containment evidently meant: the directory is the base or lies under it, separator included. */
  predicate IsInFolder(base: string, directory: string)
  {
    var d := NormPath(directory);
    d == base || StartsWith(d, if EndsWith(base, "/") then base else base + "/")
  }

  /** `_normalize_path`'s result: the base path, the directory, and the normalised relative path. */
  datatype Normalized = Normalized(basePath: string, directory: string, path: string)

  /**
   * `_normalize_path(path)` with the folder test `inFolder`: no path means
   * the base itself; a path outside the folder or one that does not exist
   * aborts with 404.
   */
  function Normalize(base: string, path: Option<string>, pathExists: string -> bool,
                     inFolder: (string, string) -> bool): (r: Result<Normalized>)
    ensures path.None? ==> r == (if pathExists(base) then Ok(Normalized(base, base, "")) else Err("404"))
    ensures path.Some? ==> var directory := NormPath(JoinPath(base, NormPath(path.value)));
                           r == (if inFolder(base, directory) && pathExists(directory)
                                 then Ok(Normalized(base, directory, NormPath(path.value))) else Err("404"))
  {
    var (directory, rel) := if path.None? then (base, "") else (NormPath(JoinPath(base, NormPath(path.value))), NormPath(path.value));
    if path.Some? && !inFolder(base, directory) then Err("404")
    else if !pathExists(directory) then Err("404")
    else Ok(Normalized(base, directory, rel))
  }

  /** With the corrected test, every component of the base leads the directory's components. */
  lemma InFolderComponents(base: string, directory: string)
    requires !EndsWith(base, "/") && IsInFolder(base, directory)
    ensures |Split(base, '/')| <= |Split(NormPath(directory), '/')|
    ensures Split(NormPath(directory), '/')[..|Split(base, '/')|] == Split(base, '/')
  {
    var d := NormPath(directory);
    if d != base {
      var rest := d[|base| + 1..];
      assert d == base + ['/'] + rest;
      SplitConcat(base, '/', rest);
    }
  }

  /** A path component `normpath` keeps as it is. */
  predicate NormalName(c: string)
  {
    c != "" && c != "." && c != ".." && '/' !in c
  }

  /** Normal components pass through `normpath`'s component loop unchanged. */
  lemma {:induction false} NormComponentsNormal(comps: seq<string>, rest: seq<string>, acc: seq<string>, absolute: bool)
    requires forall i :: 0 <= i < |comps| ==> NormalName(comps[i])
    ensures NormComponents(comps + rest, acc, absolute) == NormComponents(rest, acc + comps, absolute)
  {
    if comps != [] {
      var c := comps[0];
      assert (comps + rest)[0] == c && (comps + rest)[1..] == comps[1..] + rest;
      assert NormalName(c);
      assert NormComponents(comps + rest, acc, absolute) == NormComponents(comps[1..] + rest, acc + [c], absolute);
      NormComponentsNormal(comps[1..], rest, acc + [c], absolute);
      assert acc + [c] + comps[1..] == acc + comps;
    } else {
      assert comps + rest == rest && acc + comps == acc;
    }
  }

  /** The first character of a '/'-join of non-empty parts is the first part's. */
  lemma JoinHead(parts: seq<string>)
    requires |parts| >= 1 && parts[0] != ""
    ensures Join(parts, "/") != "" && Join(parts, "/")[0] == parts[0][0]
  {
  }

  /** `normpath('/' + n)` for a normal component `n`. */
  lemma NormRootChild(n: string)
    requires NormalName(n)
    ensures NormPath("/" + n) == "/" + n
  {
    var p := "/" + n;
    assert p == "" + ['/'] + n;
    SplitAtSeparator("", '/', n);
    SplitWithoutSeparator(n, '/');
    assert Split(p, '/') == ["", n];
    assert StartsWith(p, "/");
    assert p[1] == n[0] && n[0] in n;
    assert !StartsWith(p, "//");
    NormComponentsNormal([n], [], [], true);
    assert NormComponents(["", n], [], true) == NormComponents([n], [], true);
    assert [n] + [] == [n];
    assert Repeat('/', 1) == "/";
  }

  /** `normpath('../' + n)` for a normal component `n`. */
  lemma NormUpChild(n: string)
    requires NormalName(n)
    ensures NormPath("../" + n) == "../" + n
  {
    var p := "../" + n;
    assert p == ".." + ['/'] + n;
    assert '/' !in "..";
    SplitAtSeparator("..", '/', n);
    SplitWithoutSeparator(n, '/');
    assert Split(p, '/') == ["..", n];
    assert p[0] == '.';
    assert !StartsWith(p, "/");
    assert ["..", n][1..] == [n];
    NormComponentsNormal([n], [], [".."], false);
    assert [n] + [] == [n] && [".."] + [n] == ["..", n];
    assert [] + [".."] == [".."];
    assert NormComponents(["..", n], [], false) == NormComponents([n], [".."], false);
    assert NormComponents(["..", n], [], false) == ["..", n];
    assert Join(["..", n], "/") == ".." + "/" + n;
    assert Repeat('/', 0) == "";
  }

  /** `normpath('/' + a + '/../' + n)` is `'/' + n` for normal components. */
  lemma NormSibling(a: string, n: string)
    requires NormalName(a) && NormalName(n)
    ensures NormPath(JoinPath("/" + a, "../" + n)) == "/" + n
  {
    var p := "/" + a + "/" + "../" + n;
    SiblingJoin(a, n);
    SiblingSplit(a, n);
    assert StartsWith(p, "/");
    assert p[1] == a[0] && a[0] in a;
    assert !StartsWith(p, "//");
    SiblingComponents(a, n);
    assert Repeat('/', 1) == "/";
  }

  lemma SiblingJoin(a: string, n: string)
    requires NormalName(a)
    ensures JoinPath("/" + a, "../" + n) == "/" + a + "/" + "../" + n
  {
    var up := "../" + n;
    assert up[0] == '.';
    assert !StartsWith(up, "/");
    assert ("/" + a)[|a|] == a[|a| - 1] && a[|a| - 1] in a;
    assert !EndsWith("/" + a, "/");
    assert "/" + a + "/" + up == "/" + a + "/" + "../" + n;
  }

  lemma SiblingSplit(a: string, n: string)
    requires NormalName(a) && NormalName(n)
    ensures Split("/" + a + "/" + "../" + n, '/') == ["", a, "..", n]
  {
    var p := "/" + a + "/" + "../" + n;
    assert p == "" + ['/'] + (a + ['/'] + (".." + ['/'] + n));
    assert '/' !in "..";
    SplitWithoutSeparator(n, '/');
    SplitAtSeparator("..", '/', n);
    SplitAtSeparator(a, '/', ".." + ['/'] + n);
    SplitAtSeparator("", '/', a + ['/'] + (".." + ['/'] + n));
  }

  lemma SiblingComponents(a: string, n: string)
    requires NormalName(a) && NormalName(n)
    ensures NormComponents(["", a, "..", n], [], true) == [n]
  {
    var parts := ["", a, "..", n];
    assert parts[1..] == [a] + ["..", n];
    NormComponentsNormal([a], ["..", n], [], true);
    assert [] + [a] == [a];
    assert ["..", n][1..] == [n];
    NormComponentsNormal([n], [], [], true);
    assert [n] + [] == [n];
  }

  /**
   * As written, from base `/a` the path `../ab` (any sibling whose name
   * extends the base's last component, such as `/srv/files` and
   * `../files-private`) names a directory outside the base that the
   * prefix test lets through; the corrected test refuses it.
   */
  lemma InFolderPrefixEscape(a: string, x: string, pathExists: string -> bool)
    requires NormalName(a) && NormalName(a + x) && x != ""
    requires pathExists("/" + a + x)
    ensures Normalize("/" + a, Some("../" + a + x), pathExists, IsInFolderAsWritten)
              == Ok(Normalized("/" + a, "/" + a + x, "../" + a + x))
    ensures !StartsWith("/" + a + x, "/" + a + "/")
    ensures Normalize("/" + a, Some("../" + a + x), pathExists, IsInFolder).Err?
  {
    var n := a + x;
    assert "../" + a + x == "../" + n && "/" + a + x == "/" + n;
    NormUpChild(n);
    NormSibling(a, n);
    NormRootChild(n);
    var d := "/" + n;
    assert d[..|"/" + a|] == "/" + a;
    assert StartsWith(d, "/" + a);
    assert x[0] in n;
    assert d[|a| + 1] == x[0];
    assert !StartsWith(d, "/" + a + "/");
    assert ("/" + a)[|a|] == a[|a| - 1] && a[|a| - 1] in a;
    assert !EndsWith("/" + a, "/");
    assert d != "/" + a;
  }

  // ---------------------------------------------------------------------
  // The directory listing

  /** What `os.listdir`, `op.isdir` and `op.getsize` report for one name. */
  datatype DirEntry = DirEntry(name: string, isDir: bool, size: nat)

  /** A listing row: `(name, rel_path, is_dir, size)`. */
  datatype Item = Item(name: string, path: Option<string>, isDir: bool, size: nat)

  /** A breadcrumb: a path component and the path up to it. */
  datatype Crumb = Crumb(name: string, path: string)

  /** What `index` renders: a 404, the redirect for a path the user may not see, or the listing. */
  datatype IndexPage = NotFound | PermissionDenied | Listing(dirPath: string, breadcrumbs: seq<Crumb>, items: seq<Item>)

  /** The `'..'` row: its path is None when the parent is the base. */
  function ParentItem(path: string): (r: Item)
    ensures r.name == ".." && r.isDir && r.size == 0
    ensures r.path.None? <==> NormPath(JoinPath(path, "..")) == "."
  {
    var parent := NormPath(JoinPath(path, ".."));
    Item("..", if parent == "." then None else Some(parent), true, 0)
  }

  /** `normpath`'s component loop pops the last kept component at `..`. */
  lemma NormComponentsUp(acc: seq<string>, absolute: bool)
    requires acc != [] && acc[|acc| - 1] != ".."
    ensures NormComponents([".."], acc, absolute) == acc[..|acc| - 1]
  {
    assert [".."][0] == ".." && [".."][1..] == [];
  }

  /** `join(p, '..')` for a relative path `p` of normal components splits into them and `..`. */
  lemma JoinUpSplit(comps: seq<string>)
    requires |comps| >= 1 && forall i :: 0 <= i < |comps| ==> NormalName(comps[i])
    ensures var p := JoinPath(Join(comps, "/"), "..");
            Split(p, '/') == comps + [".."] && !StartsWith(p, "/")
  {
    var j := Join(comps, "/");
    JoinAllIsJoin(comps);
    assert ".."[0] == '.';
    assert !StartsWith("..", "/");
    var p := j + ['/'] + "..";
    assert JoinPath(j, "..") == p;
    assert '/' !in "..";
    SplitJoin(comps, '/');
    SplitConcat(j, '/', "..");
    SplitWithoutSeparator("..", '/');
    JoinHead(comps);
    assert comps[0][0] in comps[0];
    assert p[0] == j[0];
  }

  /** `normpath` of a non-empty relative path whose components normalise to normal names. */
  lemma NormPathOf(p: string, comps: seq<string>)
    requires p != "" && !StartsWith(p, "/")
    requires NormComponents(Split(p, '/'), [], false) == comps
    requires forall i :: 0 <= i < |comps| ==> NormalName(comps[i])
    ensures NormPath(p) == if comps == [] then "." else Join(comps, "/")
  {
    assert Repeat('/', 0) == "";
    if comps != [] {
      JoinHead(comps);
    }
  }

  /** Normal components followed by `..` lose their last component in `normpath`'s loop. */
  lemma NormComponentsDropLast(comps: seq<string>)
    requires |comps| >= 1 && forall i :: 0 <= i < |comps| ==> NormalName(comps[i])
    ensures NormComponents(comps + [".."], [], false) == comps[..|comps| - 1]
  {
    NormComponentsNormal(comps, [".."], [], false);
    assert [] + comps == comps;
    NormComponentsUp(comps, false);
  }

  /** `normpath(join(p, '..'))` for a path `p` of normal components: one component up, or `.`. */
  lemma NormParent(comps: seq<string>)
    requires |comps| >= 1 && forall i :: 0 <= i < |comps| ==> NormalName(comps[i])
    ensures NormPath(JoinPath(Join(comps, "/"), "..")) == (if |comps| == 1 then "." else Join(comps[..|comps| - 1], "/"))
  {
    var p := JoinPath(Join(comps, "/"), "..");
    var up := comps[..|comps| - 1];
    assert forall i :: 0 <= i < |up| ==> NormalName(up[i]);
    JoinUpSplit(comps);
    NormComponentsDropLast(comps);
    assert NormComponents(Split(p, '/'), [], false) == up;
    NormPathOf(p, up);
  }

  /**
   * The `'..'` row of a path of normal components leads one component up,
   * and to the base (None) from a top-level directory.
   */
  lemma ParentOfPath(comps: seq<string>)
    requires |comps| >= 1 && forall i :: 0 <= i < |comps| ==> NormalName(comps[i])
    ensures ParentItem(Join(comps, "/")).path
              == (if |comps| == 1 then None else Some(Join(comps[..|comps| - 1], "/")))
  {
    NormParent(comps);
    if |comps| > 1 {
      JoinHead(comps[..|comps| - 1]);
      assert Join(comps[..|comps| - 1], "/") != ".";
    }
  }

  /** The row of a directory entry seen from the relative path `path`. */
  function EntryItem(path: string, e: DirEntry): Item
  {
    Item(e.name, Some(JoinPath(path, e.name)), e.isDir, e.size)
  }

  /** The rows of the entries whose relative path the user may see, in `listdir` order. */
  function Visible(path: string, listing: seq<DirEntry>, accessible: string -> bool): (r: seq<Item>)
    ensures |r| <= |listing|
  {
    if listing == [] then []
    else
      var init := listing[..|listing| - 1];
      var e := listing[|listing| - 1];
      var before := Visible(path, init, accessible);
      if accessible(JoinPath(path, e.name)) then before + [EntryItem(path, e)] else before
  }

  /** The visible rows are exactly the rows of the entries the user may see. */
  lemma {:induction false} VisibleMembers(path: string, listing: seq<DirEntry>, accessible: string -> bool)
    ensures forall x :: x in Visible(path, listing, accessible)
                        <==> exists k :: 0 <= k < |listing| && accessible(JoinPath(path, listing[k].name))
                                         && x == EntryItem(path, listing[k])
  {
    if listing != [] {
      var init := listing[..|listing| - 1];
      VisibleMembers(path, init, accessible);
      assert forall k :: 0 <= k < |init| ==> init[k] == listing[k];
    }
  }

  /** The rows before sorting: the `'..'` row unless the directory is the base, then the visible entries. */
  function Collected(n: Normalized, listing: seq<DirEntry>, accessible: string -> bool): seq<Item>
  {
    (if n.directory != n.basePath then [ParentItem(n.path)] else []) + Visible(n.path, listing, accessible)
  }

  predicate ByName(a: Item, b: Item)
  {
    LexLe(a.name, b.name)
  }

  /** `items.sort(key=itemgetter(2), reverse=True)`: directories before files. */
  predicate DirsFirst(a: Item, b: Item)
  {
    a.isDir || !b.isDir
  }

  /** The two stable sorts `index` applies: by name, then directories first. */
  function Ordered(items: seq<Item>): seq<Item>
  {
    Sorting.SortBy(Sorting.SortBy(items, ByName), DirsFirst)
  }

  /**
   * The listing holds the same rows, directories before files, and within
   * directories and within files the rows are ordered by name.
   */
  lemma ListingOrder(items: seq<Item>)
    ensures multiset(Ordered(items)) == multiset(items)
    ensures forall i, j :: 0 <= i < j < |Ordered(items)| && Ordered(items)[j].isDir ==> Ordered(items)[i].isDir
    ensures forall i, j :: 0 <= i < j < |Ordered(items)| && Ordered(items)[i].isDir == Ordered(items)[j].isDir ==>
              LexLe(Ordered(items)[i].name, Ordered(items)[j].name)
  {
    forall a: Item, b: Item ensures ByName(a, b) || ByName(b, a) {
      LexLeTotal(a.name, b.name);
    }
    forall a: Item, b: Item, c: Item | ByName(a, b) && ByName(b, c) ensures ByName(a, c) {
      LexLeTransitive(a.name, b.name, c.name);
    }
    assert Sorting.TotalPreorder(ByName);
    assert Sorting.TotalPreorder(DirsFirst);
    var byName := Sorting.SortBy(items, ByName);
    Sorting.SortBySorted(items, ByName);
    Sorting.SortBySorted(byName, DirsFirst);
    Sorting.SortByKeepsTies(byName, DirsFirst, ByName);
  }

  /** The breadcrumbs of the components: each with the join of the components up to it. */
  function Crumbs(parts: seq<string>): (r: seq<Crumb>)
    ensures |r| == |parts|
  {
    if parts == [] then []
    else Crumbs(parts[..|parts| - 1]) + [Crumb(parts[|parts| - 1], JoinAll(parts))]
  }

  /** The `k`-th breadcrumb names the `k`-th component and joins the first `k + 1`. */
  lemma {:induction false} CrumbsSpec(parts: seq<string>)
    ensures forall k :: 0 <= k < |parts| ==> Crumbs(parts)[k] == Crumb(parts[k], JoinAll(parts[..k + 1]))
  {
    if parts != [] {
      var n := |parts| - 1;
      var init := parts[..n];
      var c := Crumbs(parts);
      assert c == Crumbs(init) + [Crumb(parts[n], JoinAll(parts))];
      CrumbsSpec(init);
      forall k | 0 <= k <= n
        ensures c[k] == Crumb(parts[k], JoinAll(parts[..k + 1]))
      {
        if k < n {
          assert c[k] == Crumbs(init)[k] == Crumb(init[k], JoinAll(init[..k + 1]));
          assert init[k] == parts[k] && init[..k + 1] == parts[..k + 1];
        } else {
          assert parts[..k + 1] == parts;
        }
      }
    }
  }

  /** `os.path.join(*parts)` of non-empty components without separators is their '/'-join. */
  lemma {:induction false} JoinAllIsJoin(parts: seq<string>)
    requires |parts| >= 1
    requires forall i :: 0 <= i < |parts| ==> parts[i] != "" && '/' !in parts[i]
    ensures JoinAll(parts) == Join(parts, "/")
    ensures Join(parts, "/") != "" && !EndsWith(Join(parts, "/"), "/")
  {
    if |parts| > 1 {
      var init := parts[..|parts| - 1];
      var last := parts[|parts| - 1];
      JoinAllIsJoin(init);
      JoinSnoc(init, last, "/");
      assert init + [last] == parts;
      assert !StartsWith(last, "/") by {
        assert last[0] in last;
      }
      var joined := Join(parts, "/");
      assert joined[|joined| - 1] == last[|last| - 1];
      assert last[|last| - 1] in last;
    } else {
      assert parts[0][|parts[0]| - 1] in parts[0];
    }
  }

  /** A path whose components are all non-empty: a normalised relative path other than `.`. */
  predicate CleanPath(path: string)
  {
    forall i :: 0 <= i < |Split(path, '/')| ==> Split(path, '/')[i] != ""
  }

  /** The path of the `k`-th breadcrumb of a clean path is the path up to the end of its `k`-th component. */
  lemma CrumbPath(path: string, k: nat)
    requires CleanPath(path) && k < |Split(path, '/')|
    ensures JoinAll(Split(path, '/')[..k + 1]) == Join(Split(path, '/')[..k + 1], "/")
    ensures StartsWith(path, JoinAll(Split(path, '/')[..k + 1]))
  {
    var parts := Split(path, '/');
    SplitParts(path, '/');
    JoinSplit(path, '/');
    JoinAllIsJoin(parts[..k + 1]);
    JoinPrefix(parts, "/", k + 1);
  }

  /**
   * For a clean path, or the base itself (`''`), the breadcrumbs lead to
   * the path: one per component, each linking a prefix of the path, the
   * last linking the path itself.
   */
  lemma BreadcrumbsLeadToPath(path: string)
    requires path == "" || CleanPath(path)
    ensures |Crumbs(Split(path, '/'))| == |Split(path, '/')|
    ensures Crumbs(Split(path, '/'))[|Split(path, '/')| - 1].path == path
    ensures forall k :: 0 <= k < |Split(path, '/')| ==>
              Crumbs(Split(path, '/'))[k].name == Split(path, '/')[k] && StartsWith(path, Crumbs(Split(path, '/'))[k].path)
  {
    var parts := Split(path, '/');
    CrumbsSpec(parts);
    if path == "" {
      assert parts == [""];
      assert parts[..1] == parts;
    } else {
      forall k | 0 <= k < |parts|
        ensures StartsWith(path, Crumbs(parts)[k].path)
      {
        CrumbPath(path, k);
      }
      CrumbPath(path, |parts| - 1);
      JoinSplit(path, '/');
      assert parts[..|parts|] == parts;
    }
  }

  /** The breadcrumb loop of `index`. */
  method Breadcrumbs(path: string) returns (crumbs: seq<Crumb>)
    ensures crumbs == Crumbs(Split(path, '/'))
  {
    var parts := Split(path, '/');
    var accumulator: seq<string> := [];
    crumbs := [];
    for i := 0 to |parts|
      invariant accumulator == parts[..i]
      invariant crumbs == Crumbs(parts[..i])
    {
      accumulator := accumulator + [parts[i]];
      assert accumulator == parts[..i + 1];
      assert accumulator[..i] == parts[..i];
      crumbs := crumbs + [Crumb(parts[i], JoinAll(accumulator))];
    }
    assert parts[..|parts|] == parts;
  }

  // ---------------------------------------------------------------------
  // The view

  class FileAdmin {
    const basePath: string
    const baseUrl: string
    const allowedExtensions: set<string>   // None and empty both allow every extension
    const editableExtensions: set<string>
    const canDelete: bool

    /** The constructor turns the extension lists into sets. */
    constructor(basePath: string, baseUrl: string, allowed: seq<string>, editable: seq<string>, canDelete: bool)
      ensures this.basePath == basePath && this.baseUrl == baseUrl && this.canDelete == canDelete
      ensures forall x :: x in allowedExtensions <==> x in allowed
      ensures forall x :: x in editableExtensions <==> x in editable
    {
      this.basePath := basePath;
      this.baseUrl := baseUrl;
      allowedExtensions := set x | x in allowed;
      editableExtensions := set x | x in editable;
      this.canDelete := canDelete;
    }

    /** `get_base_path()` */
    function GetBasePath(): string
    {
      NormPath(basePath)
    }

    /** `is_file_allowed(filename)`: any file when no extensions are configured. */
    predicate IsFileAllowed(filename: string)
    {
      allowedExtensions == {} || FileExtension(filename) in allowedExtensions
    }

    /** `is_file_editable(filename)`: only when some editable extensions are configured. */
    predicate IsFileEditable(filename: string)
    {
      editableExtensions != {} && FileExtension(filename) in editableExtensions
    }

    /** `is_action_allowed(name)`: only the delete action can be refused. */
    predicate IsActionAllowed(name: string)
    {
      !(name == "delete" && !canDelete)
    }

    /** `_normalize_path(path)`, with the corrected folder test. */
    function NormalizePath(path: Option<string>, pathExists: string -> bool): Result<Normalized>
    {
      Normalize(GetBasePath(), path, pathExists, IsInFolder)
    }

    /**
     * `index(path)`: `listing` is what the directory holds, `accessible`
     * is `is_accessible_path` and `exists` is `op.exists`.
     */
    method Index(path: Option<string>, pathExists: string -> bool, accessible: string -> bool, listing: seq<DirEntry>)
      returns (page: IndexPage)
      ensures NormalizePath(path, pathExists).Err? <==> page.NotFound?
      ensures page.PermissionDenied? <==> NormalizePath(path, pathExists).Ok? && !accessible(NormalizePath(path, pathExists).value.path)
      ensures page.Listing? ==>
                var n := NormalizePath(path, pathExists).value;
                page.dirPath == n.path
                && page.items == Ordered(Collected(n, listing, accessible))
                && page.breadcrumbs == Crumbs(Split(n.path, '/'))
    {
      var normalized := NormalizePath(path, pathExists);
      if normalized.Err? {
        return NotFound;
      }
      var n := normalized.value;
      if !accessible(n.path) {
        return PermissionDenied;
      }
      var items := CollectItems(n, listing, accessible);
      items := Sorting.SortBy(items, ByName);
      items := Sorting.SortBy(items, DirsFirst);
      var crumbs := Breadcrumbs(n.path);
      return Listing(n.path, crumbs, items);
    }
  }

  /** The listing loop of `index`, before sorting. */
  method CollectItems(n: Normalized, listing: seq<DirEntry>, accessible: string -> bool) returns (items: seq<Item>)
    ensures items == Collected(n, listing, accessible)
  {
    items := [];
    if n.directory != n.basePath {
      var up := ParentRow(n.path);
      items := items + [up];
    }
    ghost var head := items;
    assert Collected(n, listing, accessible) == head + Visible(n.path, listing, accessible);
    for i := 0 to |listing|
      invariant items == head + Visible(n.path, listing[..i], accessible)
    {
      CollectStep(head, items, n.path, listing, i, accessible);
      var f := listing[i];
      var relPath := JoinPath(n.path, f.name);
      if accessible(relPath) {
        items := items + [Item(f.name, Some(relPath), f.isDir, f.size)];
      }
    }
    assert listing[..|listing|] == listing;
  }

  /** The `'..'` row: the parent directory's path, or None when the parent is the base directory. */
  method ParentRow(path: string) returns (item: Item)
    ensures item == ParentItem(path)
  {
    var parentPath := NormPath(JoinPath(path, ".."));
    var parent: Option<string> := if parentPath == "." then None else Some(parentPath);
    item := Item("..", parent, true, 0);
  }

  /** One turn of `CollectItems`' loop keeps its invariant. */
  lemma CollectStep(head: seq<Item>, items: seq<Item>, path: string, listing: seq<DirEntry>, i: nat,
                    accessible: string -> bool)
    requires i < |listing| && items == head + Visible(path, listing[..i], accessible)
    ensures var e := listing[i];
            (if accessible(JoinPath(path, e.name))
             then items + [Item(e.name, Some(JoinPath(path, e.name)), e.isDir, e.size)] else items)
            == head + Visible(path, listing[..i + 1], accessible)
  {
    VisibleSnoc(path, listing, i, accessible);
    var before := Visible(path, listing[..i], accessible);
    assert (head + before) + [EntryItem(path, listing[i])] == head + (before + [EntryItem(path, listing[i])]);
  }

  lemma VisibleSnoc(path: string, listing: seq<DirEntry>, i: nat, accessible: string -> bool)
    requires i < |listing|
    ensures Visible(path, listing[..i + 1], accessible)
            == Visible(path, listing[..i], accessible)
               + if accessible(JoinPath(path, listing[i].name)) then [EntryItem(path, listing[i])] else []
  {
    assert listing[..i + 1][..i] == listing[..i];
  }

  /** The file view's action check is the model views' with `delete` refused iff deleting is off. */
  lemma FileActionAllowed(view: FileAdmin, name: string)
    ensures view.IsActionAllowed(name) <==> ModelBase.IsActionAllowed(name, if view.canDelete then [] else ["delete"])
  {
  }

  /** An upper-case extension is allowed when its lower-case form is configured. */
  lemma AllowedByLowerExtension(view: FileAdmin, stem: string, ext: string)
    requires '/' !in stem && exists k :: 0 <= k < |stem| && stem[k] != '.'
    requires '.' !in ext && '/' !in ext
    ensures view.IsFileAllowed(stem + "." + ext) <==> view.allowedExtensions == {} || Lower(ext) in view.allowedExtensions
    ensures view.IsFileEditable(stem + "." + ext) <==> Lower(ext) in view.editableExtensions
  {
    ExtensionOfName(stem, ext);
  }
}
