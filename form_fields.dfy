/**
 * lib/flask_admin/form/fields.py: the Select2 choice field and the Select2
 * tags field. WTForms' own `SelectField.pre_validate` (a value must be one
 * of the choice values) is stated here as the base check.
 */
module FormFields {
  import opened Wrappers
  import opened Text

  /** A coerced value: values of different Python types never compare equal. */
  datatype Datum = Str(s: string) | Int(i: int)

  /** What `coerce(value)` does: it returns a value, or raises ValueError or TypeError. */
  datatype Coerced = Coerced(value: Datum) | CoerceValueError | CoerceTypeError

  /** `text_type`, the default `coerce`. */
  function TextType(s: string): Coerced
  {
    Coerced(Str(s))
  }

  const BlankValue: string := "__None"

  /** `blank_text or ' '` */
  function BlankText(blankText: Option<string>): (r: string)
    ensures r != ""
    ensures blankText.Some? && blankText.value != "" ==> r == blankText.value
  {
    if blankText.Some? && blankText.value != "" then blankText.value else " "
  }

  /** One `(value, label, selected)` triple of `iter_choices`. */
  datatype Choice = Choice(value: string, caption: string, selected: bool)

  /** Whether a choice value coerces to the field's data. */
  predicate Selects(coerce: string -> Coerced, data: Option<Datum>, value: string)
  {
    coerce(value).Coerced? && data == Some(coerce(value).value)
  }

  /** The choice triples after the blank one; the first coercion that raises ends the generator. */
  function ChoiceList(choices: seq<(string, string)>, coerce: string -> Coerced, data: Option<Datum>): (r: Result<seq<Choice>>)
    ensures r.Ok? <==> forall k :: 0 <= k < |choices| ==> coerce(choices[k].0).Coerced?
    ensures r.Ok? ==> |r.value| == |choices|
    ensures r.Ok? ==> forall k :: 0 <= k < |choices| ==>
              r.value[k] == Choice(choices[k].0, choices[k].1, Selects(coerce, data, choices[k].0))
  {
    if choices == [] then Ok([])
    else
      var (value, caption) := choices[0];
      var rest := ChoiceList(choices[1..], coerce, data);
      assert forall k :: 1 <= k < |choices| ==> choices[k] == choices[1..][k - 1];
      match coerce(value)
      case Coerced(v) => if rest.Ok? then Ok([Choice(value, caption, data == Some(v))] + rest.value) else rest
      case CoerceValueError => Err("ValueError")
      case CoerceTypeError => Err("TypeError")
  }

  /** The data `process_formdata` leaves, or the error it raises. */
  function FormdataData(coerce: string -> Coerced, data: Option<Datum>, valuelist: seq<string>): Result<Option<Datum>>
  {
    if valuelist == [] then Ok(data)
    else if valuelist[0] == BlankValue then Ok(None)
    else
      match coerce(valuelist[0])
      case Coerced(v) => Ok(Some(v))
      case CoerceValueError => Err("Invalid Choice: could not coerce")
      case CoerceTypeError => Err("TypeError")
  }

  /** The data `process_data` leaves: None, or the coerced value, with any coercion error read as None. */
  function ObjectData(coerce: string -> Coerced, value: Option<string>): Option<Datum>
  {
    if value.None? then None
    else
      match coerce(value.value)
      case Coerced(v) => Some(v)
      case _ => None
  }

  /** WTForms' `SelectField.pre_validate`: the data equals one of the raw choice values. */
  predicate AmongChoices(choices: seq<(string, string)>, data: Option<Datum>)
  {
    exists k :: 0 <= k < |choices| && data == Some(Str(choices[k].0))
  }

  /** `pre_validate`: a blank data passes when blanks are allowed; otherwise it must be a choice value. */
  function PreValidate(choices: seq<(string, string)>, allowBlank: bool, data: Option<Datum>): Result<()>
  {
    if allowBlank && data.None? then Ok(())
    else if AmongChoices(choices, data) then Ok(())
    else Err("Not a valid choice")
  }

  class Select2Field {
    const choices: seq<(string, string)>
    const coerce: string -> Coerced
    const allowBlank: bool
    const blankText: string
    var data: Option<Datum>

    constructor(choices: seq<(string, string)>, coerce: string -> Coerced, allowBlank: bool, blankText: Option<string>)
      ensures this.choices == choices && this.coerce == coerce && this.allowBlank == allowBlank
      ensures this.blankText == BlankText(blankText) && data.None?
    {
      this.choices := choices;
      this.coerce := coerce;
      this.allowBlank := allowBlank;
      this.blankText := BlankText(blankText);
      data := None;
    }

    /**
     * `iter_choices`: with `allow_blank`, first the blank choice, selected
     * iff there is no data; then each choice in order, selected iff its
     * coerced value equals the data.
     */
    function IterChoices(): (r: Result<seq<Choice>>)
      reads this
      ensures r.Ok? <==> forall k :: 0 <= k < |choices| ==> coerce(choices[k].0).Coerced?
      ensures r.Ok? ==> |r.value| == |choices| + (if allowBlank then 1 else 0)
      ensures r.Ok? && allowBlank ==> r.value[0] == Choice(BlankValue, blankText, data.None?)
      ensures r.Ok? ==>
                var offset := if allowBlank then 1 else 0;
                forall k :: 0 <= k < |choices| ==>
                  r.value[offset + k] == Choice(choices[k].0, choices[k].1, Selects(coerce, data, choices[k].0))
    {
      var rest := ChoiceList(choices, coerce, data);
      if rest.Err? then rest
      else if allowBlank then Ok([Choice(BlankValue, blankText, data.None?)] + rest.value)
      else rest
    }

    /** `process_data(value)` */
    method ProcessData(value: Option<string>)
      modifies this
      ensures data == ObjectData(coerce, value)
    {
      if value.None? {
        data := None;
      } else {
        match coerce(value.value) {
          case Coerced(v) => data := Some(v);
          case _ => data := None;
        }
      }
    }

    /**
     * `process_formdata(valuelist)`: no values leave the data alone;
     * `'__None'` clears it; otherwise the first value is coerced, and a
     * coercion ValueError is reported as an invalid choice, the data kept.
     */
    method ProcessFormdata(valuelist: seq<string>) returns (r: Result<()>)
      modifies this
      ensures r.Ok? <==> FormdataData(coerce, old(data), valuelist).Ok?
      ensures r.Ok? ==> data == FormdataData(coerce, old(data), valuelist).value
      ensures r.Err? ==> data == old(data) && r.error == FormdataData(coerce, old(data), valuelist).error
    {
      if valuelist == [] {
        return Ok(());
      }
      if valuelist[0] == BlankValue {
        data := None;
        return Ok(());
      }
      match coerce(valuelist[0]) {
        case Coerced(v) =>
          data := Some(v);
          return Ok(());
        case CoerceValueError =>
          return Err("Invalid Choice: could not coerce");
        case CoerceTypeError =>
          return Err("TypeError");
      }
    }
  }

  /** Submitting a choice's value selects exactly the choices whose values coerce to the same datum. */
  lemma SubmittedChoiceSelected(choices: seq<(string, string)>, coerce: string -> Coerced, data: Option<Datum>, k: nat)
    requires k < |choices| && choices[k].0 != BlankValue && coerce(choices[k].0).Coerced?
    ensures FormdataData(coerce, data, [choices[k].0]) == Ok(Some(coerce(choices[k].0).value))
    ensures var listed := ChoiceList(choices, coerce, Some(coerce(choices[k].0).value));
            listed.Ok? ==> listed.value[k].selected
                           && forall j :: 0 <= j < |choices| ==>
                                (listed.value[j].selected <==> coerce(choices[j].0) == coerce(choices[k].0))
  {
  }

  /** With blanks allowed, a blank submission passes `pre_validate`; with the default coercion, so does any listed value and nothing else. */
  lemma PreValidateAccepts(choices: seq<(string, string)>, allowBlank: bool, data: Option<Datum>, value: string)
    ensures allowBlank ==> FormdataData(TextType, data, [BlankValue]) == Ok(None)
                           && PreValidate(choices, allowBlank, None) == Ok(())
    ensures value != BlankValue ==>
              (PreValidate(choices, allowBlank, FormdataData(TextType, data, [value]).value).Ok?
               <==> exists k :: 0 <= k < |choices| && choices[k].0 == value)
  {
    if value != BlankValue {
      var after := FormdataData(TextType, data, [value]).value;
      assert after == Some(Str(value));
      if exists k :: 0 <= k < |choices| && choices[k].0 == value {
        var k :| 0 <= k < |choices| && choices[k].0 == value;
        assert after == Some(Str(choices[k].0));
      }
    }
  }

  // ---------------------------------------------------------------------
  // Select2TagsField

  /** A tags field's data: a list of tags, or the raw submitted string. */
  datatype TagsData = Tags(tags: seq<string>) | Raw(text: string)

  /** `[v.strip() for v in parts if v.strip()]` */
  function StrippedNonEmpty(parts: seq<string>): (r: seq<string>)
    ensures |r| <= |parts|
  {
    if parts == [] then []
    else (if Strip(parts[0]) != "" then [Strip(parts[0])] else []) + StrippedNonEmpty(parts[1..])
  }

  /** The tags a submitted string holds when `save_as_list` is set. */
  function ParseTags(s: string): seq<string>
  {
    StrippedNonEmpty(Split(s, ','))
  }

  /** `_value()`: a tag list is shown joined with `', '`. */
  function ShowTags(data: TagsData): string
  {
    match data
    case Tags(tags) => Join(tags, ", ")
    case Raw(text) => text
  }

  class Select2TagsField {
    const saveAsList: bool
    var data: TagsData

    constructor(saveAsList: bool, data: TagsData)
      ensures this.saveAsList == saveAsList && this.data == data
    {
      this.saveAsList := saveAsList;
      this.data := data;
    }

    /**
     * `process_formdata(valuelist)`: the first value, split into tags when
     * `save_as_list` is set; an empty value list raises IndexError.
     */
    method ProcessFormdata(valuelist: seq<string>) returns (r: Result<()>)
      modifies this
      ensures valuelist == [] ==> r == Err("IndexError") && data == old(data)
      ensures valuelist != [] ==> r == Ok(())
      ensures valuelist != [] && saveAsList ==> data == Tags(ParseTags(valuelist[0]))
      ensures valuelist != [] && !saveAsList ==> data == Raw(valuelist[0])
    {
      if valuelist == [] {
        return Err("IndexError");
      }
      if saveAsList {
        data := Tags(ParseTags(valuelist[0]));
      } else {
        data := Raw(valuelist[0]);
      }
      return Ok(());
    }

    /** `_value()` */
    function Value(): string
      reads this
    {
      ShowTags(data)
    }
  }

  /** A string `strip()` leaves non-empty. */
  lemma StripOfStripped(s: string)
    ensures IsStripped(Strip(s))
  {
  }

  /** Every parsed tag is non-empty and has no surrounding whitespace. */
  lemma {:induction false} ParsedTagsClean(parts: seq<string>)
    ensures forall k :: 0 <= k < |StrippedNonEmpty(parts)| ==>
              StrippedNonEmpty(parts)[k] != "" && IsStripped(StrippedNonEmpty(parts)[k])
  {
    if parts != [] {
      ParsedTagsClean(parts[1..]);
      StripOfStripped(parts[0]);
    }
  }

  /** Tags that are non-empty, unpadded and comma-free. */
  predicate CleanTag(t: string)
  {
    t != "" && IsStripped(t) && ',' !in t
  }

  /** Each tag after the first, with the space the `', '` glue puts before it. */
  function Spaced(tags: seq<string>): (r: seq<string>)
    ensures |r| == |tags| && forall k :: 0 <= k < |tags| ==> r[k] == " " + tags[k]
  {
    seq(|tags|, k requires 0 <= k < |tags| => " " + tags[k])
  }

  lemma {:induction false} JoinSpaced(tags: seq<string>)
    requires |tags| >= 1
    ensures Join(Spaced(tags), ",") == " " + Join(tags, ", ")
  {
    if |tags| > 1 {
      JoinSpaced(tags[1..]);
      assert Spaced(tags)[1..] == Spaced(tags[1..]);
    }
  }

  lemma StripSpaced(t: string)
    requires t != "" && IsStripped(t)
    ensures Strip(" " + t) == t
  {
    assert (" " + t)[1..] == t;
    StripStripped(t);
  }

  lemma {:induction false} StrippedSpaced(tags: seq<string>)
    requires forall k :: 0 <= k < |tags| ==> CleanTag(tags[k])
    ensures StrippedNonEmpty(Spaced(tags)) == tags
  {
    if tags != [] {
      CleanTail(tags);
      calc {
        StrippedNonEmpty(Spaced(tags));
        { SpacedCons(tags); }
        StrippedNonEmpty([" " + tags[0]] + Spaced(tags[1..]));
        { StripSpaced(tags[0]); StrippedCons(" " + tags[0], Spaced(tags[1..])); }
        [tags[0]] + StrippedNonEmpty(Spaced(tags[1..]));
        { StrippedSpaced(tags[1..]); }
        [tags[0]] + tags[1..];
      }
    }
  }

  lemma SpacedCons(tags: seq<string>)
    requires tags != []
    ensures Spaced(tags) == [" " + tags[0]] + Spaced(tags[1..])
  {
  }

  /** The parts `split(',')` sees in a `', '`-joined tag list: the first tag, then each later one after a space. */
  function TagParts(tags: seq<string>): seq<string>
    requires |tags| >= 1
  {
    [tags[0]] + Spaced(tags[1..])
  }

  lemma CommaSpace(a: string, b: string)
    ensures a + "," + (" " + b) == a + ", " + b
  {
    var lhs := a + "," + (" " + b);
    var rhs := a + ", " + b;
    assert |lhs| == |rhs|;
    forall i | 0 <= i < |lhs|
      ensures lhs[i] == rhs[i]
    {
      if i > |a| + 1 {
        assert lhs[i] == b[i - |a| - 2];
      }
    }
  }

  lemma JoinTagParts(tags: seq<string>)
    requires |tags| >= 1
    ensures Join(TagParts(tags), ",") == Join(tags, ", ")
  {
    var parts := TagParts(tags);
    if |tags| > 1 {
      var rest := Join(tags[1..], ", ");
      JoinSpaced(tags[1..]);
      assert parts[1..] == Spaced(tags[1..]);
      assert |parts| > 1;
      calc {
        Join(parts, ",");
        parts[0] + "," + Join(parts[1..], ",");
        tags[0] + "," + (" " + rest);
        { CommaSpace(tags[0], rest); }
        tags[0] + ", " + rest;
        Join(tags, ", ");
      }
    } else {
      assert parts == [tags[0]];
    }
  }

  lemma CleanTail(tags: seq<string>)
    requires |tags| >= 1
    requires forall k :: 0 <= k < |tags| ==> CleanTag(tags[k])
    ensures forall k :: 0 <= k < |tags[1..]| ==> CleanTag(tags[1..][k])
  {
  }

  lemma StrippedCons(p: string, ps: seq<string>)
    requires Strip(p) != ""
    ensures StrippedNonEmpty([p] + ps) == [Strip(p)] + StrippedNonEmpty(ps)
  {
    assert ([p] + ps)[1..] == ps;
  }

  lemma StripTagParts(tags: seq<string>)
    requires |tags| >= 1
    requires forall k :: 0 <= k < |tags| ==> CleanTag(tags[k])
    ensures StrippedNonEmpty(TagParts(tags)) == tags
  {
    var rest := tags[1..];
    CleanTail(tags);
    StrippedSpaced(rest);
    StripStripped(tags[0]);
    StrippedCons(tags[0], Spaced(rest));
    assert [tags[0]] + rest == tags;
  }

  lemma TagPartsCommaFree(tags: seq<string>)
    requires |tags| >= 1
    requires forall k :: 0 <= k < |tags| ==> CleanTag(tags[k])
    ensures forall k :: 0 <= k < |TagParts(tags)| ==> ',' !in TagParts(tags)[k]
  {
    var parts := TagParts(tags);
    forall k | 0 <= k < |parts|
      ensures ',' !in parts[k]
    {
      if k > 0 {
        assert parts[k] == " " + tags[k];
      }
    }
  }

  /**
   * `_value()` then `process_formdata` gives back the same tag list when
   * every tag is non-empty, unpadded and free of commas.
   */
  lemma TagsRoundTrip(tags: seq<string>)
    requires forall k :: 0 <= k < |tags| ==> CleanTag(tags[k])
    ensures ParseTags(ShowTags(Tags(tags))) == tags
  {
    if tags == [] {
      assert Split("", ',') == [""];
      assert Strip("") == "";
    } else {
      JoinTagParts(tags);
      StripTagParts(tags);
      TagPartsCommaFree(tags);
      SplitJoin(TagParts(tags), ',');
    }
  }
}
