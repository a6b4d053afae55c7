/**
  Sequencing operations that may throw: an array `map` whose callback may
  throw, and the `reduce` that appends each element's result to an awaited
  accumulator.
 */
module Results {
  import opened Wrappers

  /** `xs.map(f)` where `f` may throw: all results in order, or the first error thrown. */
  function MapAll<T, U, E>(xs: seq<T>, f: T -> Result<U, E>): (r: Result<seq<U>, E>)
    ensures r.Ok? <==> forall i :: 0 <= i < |xs| ==> f(xs[i]).Ok?
    ensures r.Ok? ==> (&& |r.value| == |xs|
                       && forall i :: 0 <= i < |xs| ==> f(xs[i]) == Ok(r.value[i]))
  {
    if |xs| == 0 then Ok([])
    else
      assert forall i :: 1 <= i < |xs| ==> xs[1..][i - 1] == xs[i];
      match f(xs[0])
      case Err(e) => Err(e)
      case Ok(first) =>
        match MapAll(xs[1..], f)
        case Err(e) => Err(e)
        case Ok(rest) => Ok([first] + rest)
  }

  /** A failing `map` reports the error of the first element whose callback throws. */
  lemma {:induction false} MapAllFirstError<T, U, E>(xs: seq<T>, f: T -> Result<U, E>, k: nat)
    requires k < |xs| && f(xs[k]).Err?
    requires forall i :: 0 <= i < k ==> f(xs[i]).Ok?
    ensures MapAll(xs, f) == Err(f(xs[k]).error)
  {
    if k > 0 {
      assert forall i :: 0 <= i < k - 1 ==> xs[1..][i] == xs[i + 1];
      MapAllFirstError(xs[1..], f, k - 1);
    }
  }

  /** Two callbacks that agree on every element give the same `map` outcome. */
  lemma {:induction false} MapAllAgree<T, U, E>(xs: seq<T>, f: T -> Result<U, E>, g: T -> Result<U, E>)
    requires forall i :: 0 <= i < |xs| ==> f(xs[i]) == g(xs[i])
    ensures MapAll(xs, f) == MapAll(xs, g)
  {
    if |xs| > 0 {
      assert forall i :: 0 <= i < |xs| - 1 ==> xs[1..][i] == xs[i + 1];
      MapAllAgree(xs[1..], f, g);
    }
  }

  /**
    `xs.reduce(async (acc, x) => [...(await acc), await f(x)], [])`: each
    element's result is settled before the accumulator is awaited, so an error
    of a later element takes precedence over one of an earlier element.
   */
  function ReduceAppend<T, U, E>(xs: seq<T>, f: T -> Result<U, E>): (r: Result<seq<U>, E>)
    ensures r.Ok? <==> forall i :: 0 <= i < |xs| ==> f(xs[i]).Ok?
    ensures r.Ok? ==> (&& |r.value| == |xs|
                       && forall i :: 0 <= i < |xs| ==> f(xs[i]) == Ok(r.value[i]))
  {
    if |xs| == 0 then Ok([])
    else
      var init := xs[..|xs| - 1];
      assert forall i :: 0 <= i < |init| ==> init[i] == xs[i];
      match f(xs[|xs| - 1])
      case Err(e) => Err(e)
      case Ok(last) =>
        match ReduceAppend(init, f)
        case Err(e) => Err(e)
        case Ok(acc) => Ok(acc + [last])
  }

  /** Reducing one element whose callback succeeds gives that one result. */
  lemma ReduceAppendSingle<T, U, E>(x: T, f: T -> Result<U, E>)
    requires f(x).Ok?
    ensures ReduceAppend([x], f) == Ok([f(x).value])
  {
    assert [x][..0] == [];
    assert ReduceAppend([x][..0], f) == Ok([]);
    assert [] + [f(x).value] == [f(x).value];
  }

  /** A failing reduce reports the error of the last element whose callback throws. */
  lemma {:induction false} ReduceAppendLastError<T, U, E>(xs: seq<T>, f: T -> Result<U, E>, k: nat)
    requires k < |xs| && f(xs[k]).Err?
    requires forall i :: k < i < |xs| ==> f(xs[i]).Ok?
    ensures ReduceAppend(xs, f) == Err(f(xs[k]).error)
    decreases |xs|
  {
    if k < |xs| - 1 {
      var init := xs[..|xs| - 1];
      assert forall i :: 0 <= i < |init| ==> init[i] == xs[i];
      ReduceAppendLastError(init, f, k);
    }
  }

  /** The index of the last element whose callback throws. */
  lemma LastError<T, U, E>(xs: seq<T>, f: T -> Result<U, E>) returns (k: nat)
    requires exists i :: 0 <= i < |xs| && f(xs[i]).Err?
    ensures k < |xs| && f(xs[k]).Err?
    ensures forall i :: k < i < |xs| ==> f(xs[i]).Ok?
  {
    k := |xs| - 1;
    while f(xs[k]).Ok?
      invariant 0 <= k < |xs|
      invariant forall i :: k < i < |xs| ==> f(xs[i]).Ok?
      invariant exists i :: 0 <= i <= k && f(xs[i]).Err?
      decreases k
    {
      k := k - 1;
    }
  }

  /** The reduce over a concatenation is the concatenation of the reduces, the right part's error first. */
  lemma ReduceAppendConcat<T, U, E>(a: seq<T>, b: seq<T>, f: T -> Result<U, E>)
    ensures var ra, rb := ReduceAppend(a, f), ReduceAppend(b, f);
      ReduceAppend(a + b, f) ==
        if rb.Err? then rb
        else if ra.Err? then ra
        else Ok(ra.value + rb.value)
  {
    var ra, rb := ReduceAppend(a, f), ReduceAppend(b, f);
    var ab := a + b;
    assert forall i :: 0 <= i < |a| ==> ab[i] == a[i];
    assert forall i :: 0 <= i < |b| ==> ab[|a| + i] == b[i];
    if rb.Err? {
      var k := LastError(b, f);
      ReduceAppendLastError(b, f, k);
      ReduceAppendLastError(ab, f, |a| + k);
    } else if ra.Err? {
      var k := LastError(a, f);
      ReduceAppendLastError(a, f, k);
      ReduceAppendLastError(ab, f, k);
    } else {
      var r := ReduceAppend(ab, f);
      assert r.Ok?;
      assert r.value == ra.value + rb.value;
    }
  }
}
