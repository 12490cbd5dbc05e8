/**
 * lib/flask_admin/contrib/sqla/tools.py, and the descriptors of mapped
 * SQLAlchemy properties that the SQLAlchemy view, filters and forms read.
 */
module SqlaTools {
  import opened Wrappers
  import opened Text
  import QueryLog
  import ModelForm

  /** What the admin reads of a column's SQLAlchemy type. */
  datatype SqlaType = SqlaType(
    mro: seq<ModelForm.PyClass>,       // type(column.type).__mro__, the type itself first
    length: Option<int>,               // column.type.length
    enums: Option<seq<string>>,        // column.type.enums, when the type has them
    unsigned: bool,                    // getattr(column.type, 'unsigned', False)
    scale: Scale)                      // getattr(column.type, 'scale', 2)

  datatype Scale = NoScaleAttribute | ScaleNone | ScaleValue(places: int)

  /** `column.default`: its `arg` and whether it is callable / scalar. */
  datatype ColumnDefault = NoDefault | Default(arg: Option<string>, isCallable: bool, isScalar: bool)

  datatype SqlaColumn = SqlaColumn(
    column: QueryLog.Column,           // table name and column name
    key: string,
    isRealColumn: bool,                // isinstance(column, Column)
    primaryKey: bool,
    hasForeignKeys: bool,
    unique: bool,
    nullable: bool,
    sqlType: SqlaType,
    default: ColumnDefault)

  datatype Direction = ManyToOne | OneToMany | ManyToMany

  /** An element of `mapper.iterate_properties`. */
  datatype MapperProperty =
      /** A column property: `columns` is never empty. */
    | ColumnProperty(key: string, first: SqlaColumn, more: seq<SqlaColumn>)
      /** A relationship; `local` is `local_remote_pairs[0][0]`. */
    | Relationship(key: string, direction: Direction, local: SqlaColumn, remoteTable: string)
      /** Anything with neither `columns` nor `direction`. */
    | OtherProperty(key: string)
  {
    function Columns(): seq<SqlaColumn>
      requires ColumnProperty?
    {
      [first] + more
    }
  }

  /** The exact class name of a column's type, `type(column.type).__name__`. */
  function TypeName(c: SqlaColumn): string
  {
    if |c.sqlType.mro| > 0 then c.sqlType.mro[0].name else ""
  }

  /** `parse_like_term`: the LIKE pattern for an admin search term. */
  function ParseLikeTerm(term: string): string
  {
    if StartsWith(term, "^") then term[1..] + "%"
    else if StartsWith(term, "=") then term[1..]
    else "%" + term + "%"
  }

  /** SQL LIKE: '%' matches any run of characters, '_' any one character. */
  predicate LikeMatch(pattern: string, s: string)
    decreases |pattern| + |s|
  {
    if pattern == [] then s == []
    else if pattern[0] == '%' then LikeMatch(pattern[1..], s) || (s != [] && LikeMatch(pattern, s[1..]))
    else s != [] && (pattern[0] == '_' || pattern[0] == s[0]) && LikeMatch(pattern[1..], s[1..])
  }

  predicate NoWildcards(s: string)
  {
    '%' !in s && '_' !in s
  }

  predicate ContainsAt(s: string, x: string, i: int)
  {
    0 <= i && i + |x| <= |s| && s[i..i + |x|] == x
  }

  lemma {:induction false} LikeLiteral(x: string, s: string)
    requires NoWildcards(x)
    ensures LikeMatch(x, s) <==> s == x
  {
    if x != [] && s != [] {
      LikeLiteral(x[1..], s[1..]);
      if s[0] == x[0] && s[1..] == x[1..] {
        assert s == [s[0]] + s[1..] && x == [x[0]] + x[1..];
      }
    }
  }

  lemma {:induction false} LikeAnything(s: string)
    ensures LikeMatch("%", s)
  {
    if s != [] {
      LikeAnything(s[1..]);
    }
  }

  lemma {:induction false} LikePrefix(x: string, s: string)
    requires NoWildcards(x)
    ensures LikeMatch(x + "%", s) <==> StartsWith(s, x)
  {
    if x == [] {
      LikeAnything(s);
      assert x + "%" == "%";
    } else {
      assert (x + "%")[1..] == x[1..] + "%";
      if s != [] {
        LikePrefix(x[1..], s[1..]);
        if StartsWith(s, x) {
          assert s[1..][..|x| - 1] == x[1..];
        }
        if s[0] == x[0] && StartsWith(s[1..], x[1..]) {
          assert s[..|x|] == [s[0]] + s[1..][..|x| - 1];
        }
      }
    }
  }

  /** A leading '%' lets the rest of the pattern start at any position. */
  lemma {:induction false} LikeLeadingPercent(p: string, s: string)
    ensures LikeMatch("%" + p, s) <==> exists i :: 0 <= i <= |s| && LikeMatch(p, s[i..])
  {
    assert ("%" + p)[0] == '%' && ("%" + p)[1..] == p;
    if s == [] {
      assert s[0..] == s;
    } else {
      LikeLeadingPercent(p, s[1..]);
      if LikeMatch(p, s) { assert s[0..] == s; }
      if exists i :: 0 <= i <= |s| && LikeMatch(p, s[i..]) {
        var i :| 0 <= i <= |s| && LikeMatch(p, s[i..]);
        if i > 0 { assert s[1..][i - 1..] == s[i..]; }
      }
      if exists i :: 0 <= i <= |s| - 1 && LikeMatch(p, s[1..][i..]) {
        var i :| 0 <= i <= |s| - 1 && LikeMatch(p, s[1..][i..]);
        assert s[1..][i..] == s[i + 1..];
      }
    }
  }

  /** The three search modes of the SQLAlchemy views, for terms without wildcards. */
  lemma SearchModes(x: string, s: string)
    requires NoWildcards(x)
    ensures LikeMatch(ParseLikeTerm("^" + x), s) <==> StartsWith(s, x)
    ensures LikeMatch(ParseLikeTerm("=" + x), s) <==> s == x
    ensures x == [] || (x[0] != '^' && x[0] != '=') ==>
              (LikeMatch(ParseLikeTerm(x), s) <==> exists i :: ContainsAt(s, x, i))
  {
    assert ("^" + x)[1..] == x && ("=" + x)[1..] == x;
    LikePrefix(x, s);
    LikeLiteral(x, s);
    if x == [] || (x[0] != '^' && x[0] != '=') {
      assert "%" + x + "%" == "%" + (x + "%");
      LikeLeadingPercent(x + "%", s);
      forall i | 0 <= i <= |s| ensures LikeMatch(x + "%", s[i..]) <==> ContainsAt(s, x, i) {
        LikePrefix(x, s[i..]);
        if ContainsAt(s, x, i) { assert s[i..][..|x|] == s[i..i + |x|]; }
        if StartsWith(s[i..], x) { assert s[i..][..|x|] == s[i..i + |x|]; }
      }
    }
  }

  /** Only the first character is inspected, and '^' before '='. */
  lemma CaretBeforeEquals()
    ensures ParseLikeTerm("^=a") == "=a%"
  {
    assert StartsWith("^=a", "^");
  }

  predicate HasPrimaryKeyColumn(p: MapperProperty)
  {
    p.ColumnProperty? && exists c :: c in p.Columns() && c.primaryKey
  }

  /** `get_primary_key`: the key of the first property with a primary-key column. */
  function GetPrimaryKey(props: seq<MapperProperty>): (r: Option<string>)
    ensures r.None? <==> forall i :: 0 <= i < |props| ==> !HasPrimaryKeyColumn(props[i])
    ensures r.Some? ==> exists i :: 0 <= i < |props| && HasPrimaryKeyColumn(props[i]) && props[i].key == r.value
                                    && forall j :: 0 <= j < i ==> !HasPrimaryKeyColumn(props[j])
  {
    if props == [] then None
    else if HasPrimaryKeyColumn(props[0]) then Some(props[0].key)
    else
      var r := GetPrimaryKey(props[1..]);
      assert forall i :: 1 <= i < |props| ==> props[i] == props[1..][i - 1];
      r
  }

  /** `get_primary_key` as the source runs it: a scan of each property's columns. */
  method FindPrimaryKey(props: seq<MapperProperty>) returns (r: Option<string>)
    ensures r == GetPrimaryKey(props)
  {
    var i := 0;
    while i < |props|
      invariant 0 <= i <= |props|
      invariant GetPrimaryKey(props) == GetPrimaryKey(props[i..])
    {
      assert props[i..][1..] == props[i + 1..];
      var p := props[i];
      if p.ColumnProperty? {
        var found := AnyPrimaryKey(p.Columns());
        if found {
          assert HasPrimaryKeyColumn(props[i..][0]);
          return Some(p.key);
        }
      }
      i := i + 1;
    }
    return None;
  }

  /** The inner loop of `get_primary_key`: whether one of a property's columns is a primary key. */
  method AnyPrimaryKey(columns: seq<SqlaColumn>) returns (found: bool)
    ensures found <==> exists c :: c in columns && c.primaryKey
  {
    var j := 0;
    while j < |columns|
      invariant 0 <= j <= |columns|
      invariant forall k :: 0 <= k < j ==> !columns[k].primaryKey
    {
      if columns[j].primaryKey {
        return true;
      }
      j := j + 1;
    }
    return false;
  }
}
