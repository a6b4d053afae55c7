/** The array combinators the source composes: `filter` and `flatMap`. */
module Seqs {

  /** `s.filter(p)`: the elements satisfying `p`, in their original order. */
  function Filter<T>(s: seq<T>, p: T -> bool): (r: seq<T>)
    ensures |r| <= |s|
    ensures forall i :: 0 <= i < |r| ==> r[i] in s && p(r[i])
    ensures forall i :: 0 <= i < |s| && p(s[i]) ==> s[i] in r
  {
    if |s| == 0 then []
    else (if p(s[0]) then [s[0]] else []) + Filter(s[1..], p)
  }

  /** Filtering distributes over concatenation: the relative order of kept elements is unchanged. */
  lemma {:induction false} FilterConcat<T>(a: seq<T>, b: seq<T>, p: T -> bool)
    ensures Filter(a + b, p) == Filter(a, p) + Filter(b, p)
  {
    if |a| > 0 {
      FilterConcat(a[1..], b, p);
      assert (a + b)[0] == a[0] && (a + b)[1..] == a[1..] + b;
      var head := if p(a[0]) then [a[0]] else [];
      assert Filter(a + b, p) == head + Filter(a[1..] + b, p);
      assert Filter(a, p) == head + Filter(a[1..], p);
    } else {
      assert a + b == b;
    }
  }

  /** Each element is kept as often as it occurs when it satisfies `p`, and never otherwise. */
  lemma {:induction false} FilterCount<T>(s: seq<T>, p: T -> bool, x: T)
    ensures multiset(Filter(s, p))[x] == if p(x) then multiset(s)[x] else 0
  {
    if |s| > 0 {
      FilterCount(s[1..], p, x);
      assert s == [s[0]] + s[1..];
    }
  }

  /** Two filters in a row keep exactly what their conjunction keeps. */
  lemma {:induction false} FilterFilter<T>(s: seq<T>, p: T -> bool, q: T -> bool, both: T -> bool)
    requires forall x :: both(x) == (p(x) && q(x))
    ensures Filter(Filter(s, p), q) == Filter(s, both)
  {
    if |s| > 0 {
      FilterFilter(s[1..], p, q, both);
      var head := if p(s[0]) then [s[0]] else [];
      FilterConcat(head, Filter(s[1..], p), q);
    }
  }

  /** Filtering a sequence whose every element qualifies changes nothing. */
  lemma {:induction false} FilterKeepsAll<T>(s: seq<T>, p: T -> bool)
    requires forall i :: 0 <= i < |s| ==> p(s[i])
    ensures Filter(s, p) == s
  {
    if |s| > 0 {
      FilterKeepsAll(s[1..], p);
      assert s == [s[0]] + s[1..];
    }
  }

  /** Of two elements where only the first qualifies, filtering keeps the first. */
  lemma KeepFirstOfTwo<T>(x: T, y: T, p: T -> bool)
    requires p(x) && !p(y)
    ensures Filter([x, y], p) == [x]
  {
    assert [x, y][1..] == [y];
    assert [y][1..] == [];
  }

  /** `s.flatMap(f)`: the results of `f` on each element, concatenated in order. */
  function FlatMap<T, U>(s: seq<T>, f: T -> seq<U>): seq<U>
  {
    if |s| == 0 then [] else f(s[0]) + FlatMap(s[1..], f)
  }

  /** Flat-mapping distributes over concatenation. */
  lemma {:induction false} FlatMapConcat<T, U>(a: seq<T>, b: seq<T>, f: T -> seq<U>)
    ensures FlatMap(a + b, f) == FlatMap(a, f) + FlatMap(b, f)
  {
    if |a| > 0 {
      FlatMapConcat(a[1..], b, f);
      assert (a + b)[1..] == a[1..] + b;
    } else {
      assert a + b == b;
    }
  }

  /** Element `i`'s items sit in one run right after the items of the elements before it. */
  lemma FlatMapSlice<T, U>(s: seq<T>, f: T -> seq<U>, i: nat)
    requires i < |s|
    ensures |FlatMap(s[..i], f)| + |f(s[i])| <= |FlatMap(s, f)|
    ensures FlatMap(s, f)[|FlatMap(s[..i], f)| .. |FlatMap(s[..i], f)| + |f(s[i])|] == f(s[i])
  {
    var pre, run, post := FlatMap(s[..i], f), f(s[i]), FlatMap(s[i..][1..], f);
    assert s == s[..i] + s[i..];
    FlatMapConcat(s[..i], s[i..], f);
    assert FlatMap(s[i..], f) == run + post;
    MiddleSlice(pre, run, post);
  }

  /** When every element maps to `k` items, there are `k` items per element. */
  lemma {:induction false} FlatMapUniformLength<T, U>(s: seq<T>, f: T -> seq<U>, k: nat)
    requires forall x :: x in s ==> |f(x)| == k
    ensures |FlatMap(s, f)| == k * |s|
  {
    if |s| > 0 {
      FlatMapUniformLength(s[1..], f, k);
      assert k * |s| == k + k * |s[1..]|;
    }
  }

  /** When every element maps to three items, element `i`'s three sit at positions `3i` to `3i + 2`. */
  lemma FlatMapTriple<T, U>(s: seq<T>, f: T -> seq<U>, i: nat)
    requires forall x :: x in s ==> |f(x)| == 3
    requires i < |s|
    ensures |FlatMap(s, f)| == 3 * |s|
    ensures FlatMap(s, f)[3 * i .. 3 * i + 3] == f(s[i])
  {
    FlatMapUniformLength(s, f, 3);
    FlatMapUniformLength(s[..i], f, 3);
    FlatMapSlice(s, f, i);
  }

  /** The middle of three concatenated runs is found right after the first. */
  lemma MiddleSlice<U>(pre: seq<U>, run: seq<U>, post: seq<U>)
    ensures (pre + (run + post))[|pre| .. |pre| + |run|] == run
  {
  }

  /** In `a + ([head] + tail) + c`, `head` sits at `|a|` and `tail` right after it. */
  lemma HeadAndTailBetween<U>(a: seq<U>, head: U, tail: seq<U>, c: seq<U>)
    ensures |a| + 1 + |tail| <= |a + ([head] + tail) + c|
    ensures (a + ([head] + tail) + c)[|a|] == head
    ensures (a + ([head] + tail) + c)[|a| + 1 .. |a| + 1 + |tail|] == tail
  {
    var r := a + ([head] + tail) + c;
    assert forall j :: 0 <= j < |tail| ==> r[|a| + 1 + j] == tail[j];
  }
}
