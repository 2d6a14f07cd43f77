/** `Array.prototype.filter` on sequences, and the facts the list views rely
    on. */
module SeqUtil {
  import opened Wrappers

  /** The elements of `s` that satisfy `p`, in order. */
  function Filter<T(!new)>(s: seq<T>, p: T -> bool): (r: seq<T>)
    ensures |r| <= |s|
    ensures forall x :: x in r <==> x in s && p(x)
  {
    if s == [] then []
    else if p(s[0]) then [s[0]] + Filter(s[1..], p)
    else Filter(s[1..], p)
  }

  /** Filtering twice is filtering once by both conditions. */
  lemma {:induction false} FilterFusion<T(!new)>(s: seq<T>, p: T -> bool, q: T -> bool, both: T -> bool)
    requires forall x :: both(x) == (p(x) && q(x))
    ensures Filter(Filter(s, p), q) == Filter(s, both)
  {
    if s != [] {
      FilterFusion(s[1..], p, q, both);
      if p(s[0]) {
        assert Filter(s, p) == [s[0]] + Filter(s[1..], p);
        assert ([s[0]] + Filter(s[1..], p))[1..] == Filter(s[1..], p);
      }
    }
  }

  /** A filter that keeps every element keeps the sequence as it is. */
  lemma {:induction false} FilterKeepsAll<T(!new)>(s: seq<T>, p: T -> bool)
    requires forall x :: x in s ==> p(x)
    ensures Filter(s, p) == s
  {
    if s != [] {
      FilterKeepsAll(s[1..], p);
    }
  }

  /** Filtering distributes over concatenation: what it keeps from a
      prefix stays in front of what it keeps from the rest. */
  lemma {:induction false} FilterAppend<T(!new)>(a: seq<T>, b: seq<T>, p: T -> bool)
    ensures Filter(a + b, p) == Filter(a, p) + Filter(b, p)
  {
    if a != [] {
      assert (a + b)[1..] == a[1..] + b;
      FilterAppend(a[1..], b, p);
    } else {
      assert a + b == b;
    }
  }

  /** `filter` with a callback that may throw: `p(x)` is `None` when the
      callback throws on `x`, and then the whole call throws (`None`). */
  function TryFilter<T(!new)>(s: seq<T>, p: T -> Option<bool>): (r: Option<seq<T>>)
    ensures r.None? <==> exists i :: 0 <= i < |s| && p(s[i]).None?
  {
    if s == [] then Some([])
    else match p(s[0])
      case None => None
      case Some(keep) =>
        match TryFilter(s[1..], p)
        case None => None
        case Some(rest) => Some(if keep then [s[0]] + rest else rest)
  }

  /** A callback that throws on no element is an ordinary filter. */
  lemma {:induction false} TryFilterIsFilter<T(!new)>(s: seq<T>, p: T -> Option<bool>, q: T -> bool)
    requires forall x :: x in s ==> p(x) == Some(q(x))
    ensures TryFilter(s, p) == Some(Filter(s, q))
  {
    if s != [] {
      assert s[0] in s;
      assert forall x :: x in s[1..] ==> x in s;
      TryFilterIsFilter(s[1..], p, q);
    }
  }
}
