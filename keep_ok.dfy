/**
 * Keeping the successes of a sequence of results, in order.  Both the csv
 * read loop (every line that fails to deserialise is skipped) and the
 * `filter_map` over fetch results (every transport failure is dropped) do
 * exactly this.
 */
module KeepOk {
  import opened Wrappers

  /** The values of the `Ok` results, in their original order. */
  function Oks<T, E>(rs: seq<Result<T, E>>): (vs: seq<T>)
    ensures |vs| <= |rs|
    decreases |rs|
  {
    if rs == [] then []
    else
      var last := rs[|rs| - 1];
      Oks(rs[..|rs| - 1]) + (if last.Ok? then [last.value] else [])
  }

  lemma {:induction false} OksAppend<T, E>(a: seq<Result<T, E>>, b: seq<Result<T, E>>)
    ensures Oks(a + b) == Oks(a) + Oks(b)
    decreases |b|
  {
    if b != [] {
      var b' := b[..|b| - 1];
      assert (a + b)[..|a + b| - 1] == a + b';
      OksAppend(a, b');
    } else {
      assert a + b == a;
    }
  }

  /** A failure anywhere contributes nothing: the result is as if it were not there. */
  lemma OksSkipsErr<T, E>(a: seq<Result<T, E>>, e: E, b: seq<Result<T, E>>)
    ensures Oks(a + [Err(e)] + b) == Oks(a + b)
  {
    OksAppend(a + [Err(e)], b);
    OksAppend(a, [Err(e)]);
    OksAppend(a, b);
    var failure: seq<Result<T, E>> := [Err(e)];
    assert Oks(failure) == [] by {
      assert failure[..0] == [];
    }
  }

  /** Nothing is dropped exactly when nothing failed, and then every value stays in place. */
  lemma {:induction false} OksAllOk<T, E>(rs: seq<Result<T, E>>)
    ensures |Oks(rs)| == |rs| <==> forall i :: 0 <= i < |rs| ==> rs[i].Ok?
    ensures |Oks(rs)| == |rs| ==> forall i :: 0 <= i < |rs| ==> Oks(rs)[i] == rs[i].value
    decreases |rs|
  {
    if rs != [] {
      var init := rs[..|rs| - 1];
      OksAllOk(init);
      assert forall i :: 0 <= i < |init| ==> init[i] == rs[i];
    }
  }

  /**
   * The success at position j of the input is the value at position
   * "number of successes before j" of the output.
   */
  lemma {:induction false} OksAt<T, E>(rs: seq<Result<T, E>>, j: nat)
    requires j < |rs| && rs[j].Ok?
    ensures |Oks(rs[..j])| < |Oks(rs)|
    ensures Oks(rs)[|Oks(rs[..j])|] == rs[j].value
  {
    assert rs == rs[..j] + [rs[j]] + rs[j + 1..];
    OksAppend(rs[..j] + [rs[j]], rs[j + 1..]);
    OksAppend(rs[..j], [rs[j]]);
    assert Oks([rs[j]]) == [rs[j].value] by {
      assert [rs[j]][..0] == [];
    }
  }

  /** Every value kept is the value of some success of the input. */
  lemma {:induction false} OksFromInput<T, E>(rs: seq<Result<T, E>>, k: nat)
    requires k < |Oks(rs)|
    ensures exists j :: 0 <= j < |rs| && rs[j] == Ok(Oks(rs)[k])
    decreases |rs|
  {
    var init := rs[..|rs| - 1];
    if k < |Oks(init)| {
      OksFromInput(init, k);
      var j :| 0 <= j < |init| && init[j] == Ok(Oks(init)[k]);
      assert rs[j] == init[j];
    } else {
      assert rs[|rs| - 1] == Ok(Oks(rs)[k]);
    }
  }

  /**
   * The csv read loop: every line that deserialised is pushed, every error
   * is skipped and the loop goes on.
   */
  method ParseEntries<T, E>(results: seq<Result<T, E>>) returns (entries: seq<T>)
    ensures entries == Oks(results)
  {
    entries := [];
    for i := 0 to |results|
      invariant entries == Oks(results[..i])
    {
      assert results[..i + 1][..i] == results[..i];
      match results[i]
      case Err(_) =>
      case Ok(record) =>
        entries := entries + [record];
    }
    assert results[..|results|] == results;
  }
}
