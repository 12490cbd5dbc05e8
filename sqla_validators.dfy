/**
 * lib/flask_admin/contrib/sqla/validators.py: the `Unique` validator, which
 * looks the field's value up in the model's table and refuses it when
 * another object already holds it.
 */
module SqlaValidators {
  import opened Wrappers

  /** A row of the model's table: the object's identity and its value in the unique column. */
  datatype Row = Row(id: int, value: string)

  /** How a call of the validator ends: it passes, raises ValidationError, or `one()` finds several rows. */
  datatype Outcome = Passed | ValidationError(message: string) | MultipleResultsFound

  const DefaultMessage: string := "Already exists."

  /** The rows `query(model).filter(column == data)` selects, in table order. */
  function Matching(table: seq<Row>, data: string): (r: seq<Row>)
    ensures forall x :: x in r <==> x in table && x.value == data
    ensures |r| <= |table|
  {
    if table == [] then []
    else
      var last := table[|table| - 1];
      Matching(table[..|table| - 1], data) + (if last.value == data then [last] else [])
  }

  /** What `__call__` decides for the rows matching the value, the edited object and the message it holds. */
  function Verdict(matches: seq<Row>, editing: Option<Row>, message: Option<string>): Outcome
  {
    if |matches| == 0 then Passed
    else if |matches| > 1 then MultipleResultsFound
    else if editing.None? || editing.value != matches[0] then ValidationError(message.GetOr(DefaultMessage))
    else Passed
  }

  /** The message after a call: the default is stored on the first failure that needs it. */
  function MessageAfter(message: Option<string>, outcome: Outcome): Option<string>
  {
    if outcome.ValidationError? && message.None? then Some(DefaultMessage) else message
  }

  class Unique {
    var message: Option<string>

    constructor(message: Option<string>)
      ensures this.message == message
    {
      this.message := message;
    }

    /**
     * `__call__(form, field)`: `table` is the model's table, `data` the
     * field's value, `editing` the form's `_obj` (None when it has none).
     */
    method Call(table: seq<Row>, data: string, editing: Option<Row>) returns (r: Outcome)
      modifies this
      ensures r == Verdict(Matching(table, data), editing, old(message))
      ensures message == MessageAfter(old(message), r)
    {
      var matches := Matching(table, data);
      if |matches| == 0 {
        return Passed;
      }
      if |matches| > 1 {
        return MultipleResultsFound;
      }
      var obj := matches[0];
      if editing.None? || editing.value != obj {
        if message.None? {
          message := Some(DefaultMessage);
        }
        return ValidationError(message.value);
      }
      return Passed;
    }
  }

  /** No row holds the value: the validator passes. */
  lemma UniquePassesWhenFree(table: seq<Row>, data: string, editing: Option<Row>, message: Option<string>)
    requires forall i :: 0 <= i < |table| ==> table[i].value != data
    ensures Verdict(Matching(table, data), editing, message) == Passed
  {
    NoneMatching(table, data);
  }

  /** Exactly one row holds the value: that row alone matches. */
  lemma {:induction false} MatchingOne(table: seq<Row>, data: string, i: nat)
    requires i < |table| && table[i].value == data
    requires forall j :: 0 <= j < |table| && j != i ==> table[j].value != data
    ensures Matching(table, data) == [table[i]]
  {
    var init := table[..|table| - 1];
    if i < |table| - 1 {
      MatchingOne(init, data, i);
    } else {
      NoneMatching(init, data);
    }
  }

  lemma {:induction false} NoneMatching(table: seq<Row>, data: string)
    requires forall j :: 0 <= j < |table| ==> table[j].value != data
    ensures Matching(table, data) == []
  {
    if table != [] {
      NoneMatching(table[..|table| - 1], data);
    }
  }

  /**
   * The only row holding the value fails the validator, unless it is the
   * object the form edits; the message is the supplied one, else the default.
   */
  lemma UniqueSingleMatch(table: seq<Row>, data: string, i: nat, editing: Option<Row>, message: Option<string>)
    requires i < |table| && table[i].value == data
    requires forall j :: 0 <= j < |table| && j != i ==> table[j].value != data
    ensures editing == Some(table[i]) ==> Verdict(Matching(table, data), editing, message) == Passed
    ensures editing != Some(table[i]) ==>
              Verdict(Matching(table, data), editing, message)
                == ValidationError(if message.Some? then message.value else DefaultMessage)
  {
    MatchingOne(table, data, i);
  }

  /** Once the default message is stored, later failures report the same text as a fresh validator. */
  lemma StoredMessageReused(matches: seq<Row>, editing: Option<Row>)
    ensures MessageAfter(None, Verdict(matches, editing, None)) == Some(DefaultMessage)
            || Verdict(matches, editing, None).Passed? || Verdict(matches, editing, None).MultipleResultsFound?
    ensures Verdict(matches, editing, Some(DefaultMessage)) == Verdict(matches, editing, None)
    ensures MessageAfter(Some(DefaultMessage), Verdict(matches, editing, Some(DefaultMessage))) == Some(DefaultMessage)
  {
  }
}
