/** lib/flask_admin/model/helpers.py */
module ModelHelpers {
  import opened Text

  /** `s.replace(from, to)` for single characters. */
  function ReplaceChar(s: string, from: char, to: char): (r: string)
    ensures |r| == |s|
    ensures forall i :: 0 <= i < |s| ==> r[i] == (if s[i] == from then to else s[i])
  {
    seq(|s|, i requires 0 <= i < |s| => if s[i] == from then to else s[i])
  }

  /** `str.title()` from a given state: whether the previous character was a letter. */
  function TitleFrom(s: string, afterLetter: bool): (r: string)
    ensures |r| == |s|
  {
    if s == [] then []
    else [if afterLetter then ToLower(s[0]) else ToUpper(s[0])] + TitleFrom(s[1..], IsLetter(s[0]))
  }

  function Title(s: string): string
  {
    TitleFrom(s, false)
  }

  /** The casing rule of `str.title()` at one position. */
  function TitleChar(s: string, i: nat): char
    requires i < |s|
  {
    if i == 0 || !IsLetter(s[i - 1]) then ToUpper(s[i]) else ToLower(s[i])
  }

  /** `prettify_name`: underscores become spaces, then the result is title-cased. */
  function PrettifyName(name: string): string
  {
    Title(ReplaceChar(name, '_', ' '))
  }

  lemma {:induction false} TitleFromAt(s: string, afterLetter: bool, i: nat)
    requires i < |s|
    ensures TitleFrom(s, afterLetter)[i]
            == if (if i == 0 then afterLetter else IsLetter(s[i - 1])) then ToLower(s[i]) else ToUpper(s[i])
  {
    if i > 0 {
      TitleFromAt(s[1..], IsLetter(s[0]), i - 1);
    }
  }

  /**
   * A letter is upper-cased iff it is first or follows a non-letter, and
   * lower-cased otherwise; every other character is kept. Digits are not
   * letters, so "col3x" becomes "Col3X".
   */
  lemma TitleAt(s: string, i: nat)
    requires i < |s|
    ensures |Title(s)| == |s|
    ensures Title(s)[i] == TitleChar(s, i)
    ensures !IsLetter(s[i]) ==> Title(s)[i] == s[i]
  {
    TitleFromAt(s, false, i);
  }

  /** Position by position, the output is the title-casing of the input with '_' read as ' '. */
  lemma PrettifyNameAt(name: string, i: nat)
    requires i < |name|
    ensures |PrettifyName(name)| == |name|
    ensures PrettifyName(name)[i] == if name[i] == '_' then ' ' else TitleChar(ReplaceChar(name, '_', ' '), i)
  {
    TitleAt(ReplaceChar(name, '_', ' '), i);
  }

  lemma NoUnderscore(name: string)
    ensures |PrettifyName(name)| == |name|
    ensures '_' !in PrettifyName(name)
  {
    var t := ReplaceChar(name, '_', ' ');
    forall i | 0 <= i < |name| ensures PrettifyName(name)[i] != '_' {
      TitleAt(t, i);
    }
  }

  lemma {:induction false} Idempotent(name: string)
    ensures PrettifyName(PrettifyName(name)) == PrettifyName(name)
  {
    var t := ReplaceChar(name, '_', ' ');
    var p := PrettifyName(name);
    NoUnderscore(name);
    var u := ReplaceChar(p, '_', ' ');
    assert u == p;
    forall i | 0 <= i < |p| ensures Title(p)[i] == p[i] {
      TitleAt(t, i);
      TitleAt(p, i);
      if i > 0 { TitleAt(t, i - 1); }
    }
  }

  /** Underscores become spaces and each word is capitalised. */
  lemma ExampleHelloWorld()
    ensures PrettifyName("hello_world") == "Hello World"
  {
    ExampleAt("hello_world", "Hello World");
  }

  lemma ExampleBoolField()
    ensures PrettifyName("bool_field") == "Bool Field"
  {
    ExampleAt("bool_field", "Bool Field");
  }

  /** A digit inside a word leaves the rest of the word lower-case. */
  lemma ExampleCol3()
    ensures PrettifyName("col3") == "Col3"
  {
    ExampleAt("col3", "Col3");
  }

  lemma ExampleAt(name: string, expected: string)
    requires |name| == |expected|
    requires forall i :: 0 <= i < |name| ==>
      expected[i] == if name[i] == '_' then ' ' else TitleChar(ReplaceChar(name, '_', ' '), i)
    ensures PrettifyName(name) == expected
  {
    forall i | 0 <= i < |name| ensures PrettifyName(name)[i] == expected[i] {
      PrettifyNameAt(name, i);
    }
  }
}
