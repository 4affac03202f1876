/** Sorting by an order, whatever the elements; it stands for the library sorts. */
module Sorting {

  predicate SortedBy<T>(le: (T, T) -> bool, s: seq<T>) {
    forall i, j :: 0 <= i < j < |s| ==> le(s[i], s[j])
  }

  /** Any two elements compare, and the comparison is transitive. */
  ghost predicate Total<T(!new)>(le: (T, T) -> bool) {
    && (forall a, b :: le(a, b) || le(b, a))
    && (forall a, b, c :: le(a, b) && le(b, c) ==> le(a, c))
  }

  method InsertionSort<T(==, !new)>(le: (T, T) -> bool, v: seq<T>) returns (sorted: seq<T>)
    requires Total(le)
    ensures SortedBy(le, sorted) && |sorted| == |v| && multiset(sorted) == multiset(v)
  {
    hide Total, SortedBy;
    sorted := [];
    NothingSorted(le);
    for n := 0 to |v|
      invariant SortedBy(le, sorted) && |sorted| == n && multiset(sorted) == multiset(v[..n])
    {
      var at := n;
      while at > 0 && !le(sorted[at - 1], v[n])
        invariant at <= n && forall k :: at <= k < n ==> !le(sorted[k], v[n])
      {
        at := at - 1;
      }
      InsertSorted(le, sorted, at, v[n]);
      InsertCounted(sorted, at, v[n]);
      assert v[..n + 1] == v[..n] + [v[n]];
      sorted := sorted[..at] + [v[n]] + sorted[at..];
    }
    assert v[..|v|] == v;
  }

  lemma NothingSorted<T>(le: (T, T) -> bool)
    ensures SortedBy(le, [])
  {
  }

  lemma InsertCounted<T>(s: seq<T>, at: nat, x: T)
    requires at <= |s|
    ensures multiset(s[..at] + [x] + s[at..]) == multiset(s) + multiset{x}
  {
    assert s[..at] + s[at..] == s;
  }

  lemma InsertSorted<T(!new)>(le: (T, T) -> bool, s: seq<T>, at: nat, x: T)
    requires Total(le) && SortedBy(le, s) && at <= |s|
    requires (forall k :: at <= k < |s| ==> !le(s[k], x)) && (at > 0 ==> le(s[at - 1], x))
    ensures SortedBy(le, s[..at] + [x] + s[at..])
  {
    var wider := s[..at] + [x] + s[at..];
    forall i, j | 0 <= i < j < |wider|
      ensures le(wider[i], wider[j])
    {
      if j == at && i < at - 1 {
        assert le(s[i], s[at - 1]) && le(s[at - 1], x);
      } else if i == at {
        assert le(s[j - 1], x) || le(x, s[j - 1]);
      }
    }
  }
}
