/**
 * Converter registration shared by `BaseFilterConverter` and
 * `ModelConverterBase`: each tagged method is stored under every name in its
 * tag, the methods taken in `dir()` order, a later one overwriting an
 * earlier one.
 */
module Registry {
  /** Registers one method under each of its names. */
  function Tag<M>(m: map<string, M>, conv: M, names: seq<string>): (r: map<string, M>)
    ensures r.Keys == m.Keys + set n | n in names
    ensures forall n :: n in names ==> r[n] == conv
    ensures forall n :: n in m && n !in names ==> r[n] == m[n]
  {
    m + map n | n in names :: conv
  }

  /** Registers every tagged method in order. */
  function Register<M>(init: map<string, M>, tagged: seq<(M, seq<string>)>): map<string, M>
    decreases |tagged|
  {
    if tagged == [] then init
    else
      var last := tagged[|tagged| - 1];
      Tag(Register(init, tagged[..|tagged| - 1]), last.0, last.1)
  }

  /** A name is registered iff it was already there or some tag lists it. */
  lemma {:induction false} RegisterDomain<M>(init: map<string, M>, tagged: seq<(M, seq<string>)>, n: string)
    ensures n in Register(init, tagged) <==> n in init || exists i :: 0 <= i < |tagged| && n in tagged[i].1
  {
    if tagged != [] {
      var k := |tagged| - 1;
      RegisterDomain(init, tagged[..k], n);
      assert forall i :: 0 <= i < k ==> tagged[..k][i] == tagged[i];
      if exists i :: 0 <= i < |tagged| && n in tagged[i].1 {
        var i :| 0 <= i < |tagged| && n in tagged[i].1;
        if i < k { assert n in tagged[..k][i].1; }
      }
    }
  }

  /** A name maps to the method of the last tag that lists it. */
  lemma {:induction false} RegisterLast<M>(init: map<string, M>, tagged: seq<(M, seq<string>)>, n: string, i: nat)
    requires i < |tagged| && n in tagged[i].1
    requires forall j :: i < j < |tagged| ==> n !in tagged[j].1
    ensures n in Register(init, tagged) && Register(init, tagged)[n] == tagged[i].0
  {
    var k := |tagged| - 1;
    if i < k {
      RegisterLast(init, tagged[..k], n, i);
    }
  }

  /** A name no tag lists keeps its initial entry. */
  lemma {:induction false} RegisterUntagged<M>(init: map<string, M>, tagged: seq<(M, seq<string>)>, n: string)
    requires n in init
    requires forall i :: 0 <= i < |tagged| ==> n !in tagged[i].1
    ensures n in Register(init, tagged) && Register(init, tagged)[n] == init[n]
  {
    if tagged != [] {
      RegisterUntagged(init, tagged[..|tagged| - 1], n);
    }
  }

  lemma TagStep<M>(m: map<string, M>, conv: M, names: seq<string>, j: nat)
    requires j < |names|
    ensures Tag(m, conv, names[..j + 1]) == Tag(m, conv, names[..j])[names[j] := conv]
  {
    assert names[..j + 1] == names[..j] + [names[j]];
  }

  /**
   * The registration loop of the converters' constructors: for each tagged
   * method in order, for each of its names, `converters[name] = method`.
   */
  method RegisterAll<M>(init: map<string, M>, tagged: seq<(M, seq<string>)>) returns (converters: map<string, M>)
    ensures converters == Register(init, tagged)
  {
    converters := init;
    var i := 0;
    while i < |tagged|
      invariant 0 <= i <= |tagged|
      invariant converters == Register(init, tagged[..i])
    {
      var conv, names := tagged[i].0, tagged[i].1;
      var j := 0;
      ghost var before := converters;
      while j < |names|
        invariant 0 <= j <= |names|
        invariant converters == Tag(before, conv, names[..j])
      {
        TagStep(before, conv, names, j);
        converters := converters[names[j] := conv];
        j := j + 1;
      }
      assert names[..j] == names;
      assert tagged[..i + 1][..i] == tagged[..i];
      assert converters == Register(init, tagged[..i + 1]);
      i := i + 1;
    }
    assert tagged[..i] == tagged;
  }
}
