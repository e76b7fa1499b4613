/**
 * Option and Result, and the one list operation the pipeline performs on
 * them twice: keep the present values of a sequence of optional results,
 * in order (the collector's `if plant_data:` append and the loader's
 * skip-on-ValueError loop).
 */
module Wrappers {

  datatype Option<+T> = None | Some(value: T)

  datatype Result<+T, +E> = Ok(value: T) | Err(error: E)

  /** The present values of `s`, in their order in `s`; absent ones leave no placeholder. */
  function Somes<T>(s: seq<Option<T>>): (r: seq<T>)
    ensures |r| <= |s|
  {
    if s == [] then []
    else Somes(s[..|s| - 1]) + (if s[|s| - 1].Some? then [s[|s| - 1].value] else [])
  }

  /** The positions in `s` of its present values, in ascending order. */
  function SomeIndices<T>(s: seq<Option<T>>): (r: seq<nat>)
  {
    if s == [] then []
    else SomeIndices(s[..|s| - 1]) + (if s[|s| - 1].Some? then [|s| - 1] else [])
  }

  /**
   * `Somes` keeps exactly the present values, in order: its k-th element is the
   * value at the k-th present position, those positions strictly increase, and
   * every present position is among them.
   */
  lemma {:induction false} SomesSpec<T>(s: seq<Option<T>>)
    ensures |SomeIndices(s)| == |Somes(s)|
    ensures forall k :: 0 <= k < |SomeIndices(s)| ==>
      SomeIndices(s)[k] < |s| && s[SomeIndices(s)[k]].Some? && Somes(s)[k] == s[SomeIndices(s)[k]].value
    ensures forall k, l :: 0 <= k < l < |SomeIndices(s)| ==> SomeIndices(s)[k] < SomeIndices(s)[l]
    ensures forall i :: 0 <= i < |s| && s[i].Some? ==> i in SomeIndices(s)
  {
    if s != [] {
      var init := s[..|s| - 1];
      SomesSpec(init);
      forall i | 0 <= i < |init| ensures init[i] == s[i] { }
    }
  }

  /** When every entry is present nothing is dropped. */
  lemma {:induction false} SomesAllPresent<T>(s: seq<Option<T>>)
    requires forall i :: 0 <= i < |s| ==> s[i].Some?
    ensures |Somes(s)| == |s|
    ensures forall i :: 0 <= i < |s| ==> Somes(s)[i] == s[i].value
  {
    if s != [] {
      var init := s[..|s| - 1];
      SomesAllPresent(init);
    }
  }

  /** Appending one more optional result extends the kept values by at most that result. */
  lemma SomesSnoc<T>(s: seq<Option<T>>, x: Option<T>)
    ensures Somes(s + [x]) == Somes(s) + (if x.Some? then [x.value] else [])
  {
    assert (s + [x])[..|s|] == s;
  }

  /** With no present entry nothing is kept. */
  lemma {:induction false} SomesNone<T>(s: seq<Option<T>>)
    requires forall i :: 0 <= i < |s| ==> s[i].None?
    ensures Somes(s) == []
  {
    if s != [] {
      SomesNone(s[..|s| - 1]);
    }
  }

  /** With exactly one present entry, that value alone is kept. */
  lemma {:induction false} SomesSingle<T>(s: seq<Option<T>>, i: nat)
    requires i < |s| && s[i].Some?
    requires forall j :: 0 <= j < |s| && j != i ==> s[j].None?
    ensures Somes(s) == [s[i].value]
  {
    var init := s[..|s| - 1];
    if i == |s| - 1 {
      SomesNone(init);
    } else {
      SomesSingle(init, i);
    }
  }

  /** Keeping the present values distributes over concatenation: what one part keeps does not depend on the other. */
  lemma {:induction false} SomesAppend<T>(a: seq<Option<T>>, b: seq<Option<T>>)
    ensures Somes(a + b) == Somes(a) + Somes(b)
  {
    if b == [] {
      assert a + b == a;
    } else {
      var init := b[..|b| - 1];
      SomesAppend(a, init);
      assert (a + b)[..|a + b| - 1] == a + init;
    }
  }
}
