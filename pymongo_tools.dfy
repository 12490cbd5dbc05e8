/** lib/flask_admin/contrib/pymongo/tools.py: the regular expression for a search term. */
module PymongoTools {
  import opened Wrappers
  import opened Text

  /**
   * `parse_like_term` as written: a '^' term keeps only its second
   * character, and a bare "^" indexes past the end (an IndexError).
   */
  function ParseLikeTermAsWritten(term: string): (r: Result<string>)
    ensures r.Err? <==> term == "^"
  {
    if StartsWith(term, "^") then
      if |term| < 2 then Err("IndexError: string index out of range")
      else Ok("^" + [term[1]])
    else if StartsWith(term, "=") then Ok("^" + term[1..] + "$")
    else Ok(term)
  }

  /** `parse_like_term` with the whole rest of a '^' term kept: `'^%s' % term[1:]`. */
  function ParseLikeTerm(term: string): (r: string)
    ensures StartsWith(term, "^") ==> r == term
    ensures !StartsWith(term, "^") && StartsWith(term, "=") ==> r == "^" + term[1..] + "$"
    ensures !StartsWith(term, "^") && !StartsWith(term, "=") ==> r == term
  {
    if StartsWith(term, "^") then "^" + term[1..]
    else if StartsWith(term, "=") then "^" + term[1..] + "$"
    else term
  }

  /** No search text is lost: the pattern's body is the term without its marker. */
  lemma {:induction false} ParseLikeTermKeepsText(x: string)
    ensures ParseLikeTerm("^" + x) == "^" + x
    ensures ParseLikeTerm("=" + x) == "^" + x + "$"
    ensures x == [] || (x[0] != '^' && x[0] != '=') ==> ParseLikeTerm(x) == x
  {
    assert StartsWith("^" + x, "^") && ("^" + x)[1..] == x;
    assert StartsWith("=" + x, "=") && ("=" + x)[1..] == x;
  }

  /** The two agree exactly when the term is not a '^' term of other than two characters. */
  lemma AsWrittenAgrees(term: string)
    ensures ParseLikeTermAsWritten(term) == Ok(ParseLikeTerm(term)) <==> !(StartsWith(term, "^") && |term| != 2)
  {
    if StartsWith(term, "^") && |term| > 2 {
      assert |"^" + [term[1]]| != |ParseLikeTerm(term)|;
    }
    if StartsWith(term, "^") && |term| == 2 {
      assert term[1..] == [term[1]];
    }
  }

  /** The input that shows the loss: "^abc" becomes the pattern "^a". */
  lemma AsWrittenDropsPrefix()
    ensures ParseLikeTermAsWritten("^abc") == Ok("^a")
    ensures ParseLikeTerm("^abc") == "^abc"
    ensures ParseLikeTermAsWritten("^") == Err("IndexError: string index out of range")
  {
    assert StartsWith("^abc", "^") && "^abc"[1] == 'a';
    assert "^" + ['a'] == "^a";
    assert StartsWith("^", "^");
  }
}
