/** The optional-value datatype shared by every module of the model. */
module Options {

  datatype Option<+T> = None | Some(value: T) {

    /** The value, or `default` when there is none. */
    function GetOr(default: T): T {
      match this
      case Some(v) => v
      case None => default
    }
  }

  /** `f` applied to each element of `xs`, keeping the values of the `Some`s, in order. */
  function FilterMap<A, B(!new)>(f: A -> Option<B>, xs: seq<A>): (r: seq<B>)
    ensures |r| <= |xs|
    ensures forall y :: y in r <==> exists i :: 0 <= i < |xs| && f(xs[i]) == Some(y)
  {
    if |xs| == 0 then []
    else
      var head := match f(xs[0]) case Some(y) => [y] case None => [];
      var tail := FilterMap(f, xs[1..]);
      assert forall y :: y in tail <==> exists i :: 1 <= i < |xs| && f(xs[i]) == Some(y) by {
        forall y | y in tail
          ensures exists i :: 1 <= i < |xs| && f(xs[i]) == Some(y)
        {
          var i :| 0 <= i < |xs[1..]| && f(xs[1..][i]) == Some(y);
          assert f(xs[i + 1]) == Some(y);
        }
        forall y, i | 1 <= i < |xs| && f(xs[i]) == Some(y)
          ensures y in tail
        {
          assert f(xs[1..][i - 1]) == Some(y);
        }
      }
      head + tail
  }

  /** Filtering two runs is filtering each, in order. */
  lemma {:induction false} FilterMapAppend<A, B(!new)>(f: A -> Option<B>, a: seq<A>, b: seq<A>)
    ensures FilterMap(f, a + b) == FilterMap(f, a) + FilterMap(f, b)
    decreases |a|
  {
    if |a| > 0 {
      assert (a + b)[1..] == a[1..] + b;
      FilterMapAppend(f, a[1..], b);
    } else {
      assert a + b == b;
    }
  }

  /** Concatenation is associative (stated once, so that callers need not rediscover it). */
  lemma ConcatAssoc<T>(a: seq<T>, b: seq<T>, c: seq<T>)
    ensures a + (b + c) == (a + b) + c
  {
  }
}
