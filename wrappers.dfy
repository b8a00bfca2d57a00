/** Option and Result, the carriers for Java's `null` and for its exceptions. */
module Wrappers {
  /** A value that Java may leave `null`. */
  datatype Option<+T> = None | Some(value: T)

  /** A computed value, or the exception that Java would throw instead. */
  datatype Result<+T, +E> = Ok(value: T) | Err(error: E)

  /**
   * The values of a list of results in order, or the first error among
   * them: what a Java loop that throws on its first failure returns.
   */
  function FirstError<T, E>(results: seq<Result<T, E>>): (r: Result<seq<T>, E>)
    ensures r.Ok? ==> |r.value| == |results|
  {
    if |results| == 0 then Ok([])
    else
      var done := FirstError(results[..|results| - 1]);
      var last := results[|results| - 1];
      if done.Err? then done
      else if last.Err? then Err(last.error)
      else Ok(done.value + [last.value])
  }

  /** The list succeeds exactly when every result does, and then holds their values. */
  lemma {:induction false} FirstErrorOk<T, E>(results: seq<Result<T, E>>)
    ensures FirstError(results).Ok? <==> forall k :: 0 <= k < |results| ==> results[k].Ok?
    ensures FirstError(results).Ok? ==>
              forall k :: 0 <= k < |results| ==> results[k] == Ok(FirstError(results).value[k])
  {
    if |results| > 0 {
      var last := |results| - 1;
      var prefix := results[..last];
      var done := FirstError(prefix);
      FirstErrorOk(prefix);
      assert forall k :: 0 <= k < last ==> prefix[k] == results[k];
      if done.Ok? && results[last].Ok? {
        var all := FirstError(results).value;
        assert all == done.value + [results[last].value];
        forall k | 0 <= k < |results|
          ensures results[k] == Ok(all[k])
        {
          if k < last {
            assert all[k] == done.value[k];
          }
        }
      } else if done.Err? {
        var j :| 0 <= j < last && !prefix[j].Ok?;
        assert !results[j].Ok?;
      }
    }
  }

  /** A failure is the error of the first result that fails. */
  lemma {:induction false} FirstErrorErr<T, E>(results: seq<Result<T, E>>)
    requires FirstError(results).Err?
    ensures exists k :: 0 <= k < |results| && results[k] == Err(FirstError(results).error)
                        && forall j :: 0 <= j < k ==> results[j].Ok?
  {
    var last := |results| - 1;
    var prefix := results[..last];
    var done := FirstError(prefix);
    if done.Err? {
      FirstErrorErr(prefix);
      var k :| 0 <= k < |prefix| && prefix[k] == Err(done.error) && forall j :: 0 <= j < k ==> prefix[j].Ok?;
      assert results[k] == prefix[k];
      assert forall j :: 0 <= j < k ==> results[j] == prefix[j];
    } else {
      FirstErrorOk(prefix);
      assert forall j :: 0 <= j < last ==> results[j] == prefix[j];
    }
  }

  /** One more result extends the values or ends the list. */
  lemma FirstErrorSnoc<T, E>(results: seq<Result<T, E>>, result: Result<T, E>)
    requires FirstError(results).Ok?
    ensures FirstError(results + [result])
            == if result.Err? then Err(result.error) else Ok(FirstError(results).value + [result.value])
  {
    assert (results + [result])[..|results|] == results;
  }

  /** Two values give both values, in order. */
  lemma FirstErrorPair<T, E>(a: Result<T, E>, b: Result<T, E>)
    requires a.Ok? && b.Ok?
    ensures FirstError([a, b]) == Ok([a.value, b.value])
  {
    var none: seq<Result<T, E>> := [];
    var nothing: seq<T> := [];
    assert FirstError([a]) == Ok([a.value]) by {
      assert [a][..0] == none && FirstError(none) == Ok(nothing);
      assert nothing + [a.value] == [a.value];
    }
    assert [a, b][..1] == [a];
    assert [a.value] + [b.value] == [a.value, b.value];
  }

  /** Once a list of results fails, any longer list fails the same way. */
  lemma {:induction false} FirstErrorSticks<T, E>(a: seq<Result<T, E>>, b: seq<Result<T, E>>)
    requires FirstError(a).Err?
    ensures FirstError(a + b) == FirstError(a)
    decreases |b|
  {
    if |b| == 0 {
      assert a + b == a;
    } else {
      var last := |b| - 1;
      assert (a + b)[..|a + b| - 1] == a + b[..last];
      FirstErrorSticks(a, b[..last]);
    }
  }
}
