/** Sequence operations that stand for the queries a repository runs over a
    table kept in creation order: `WHERE` filters, `findOne`, in-place
    updates of the matching rows. */
module Tables {
  import opened Common

  /** Every earlier element is related to every later one (a table ordered
      by `rel`). */
  ghost predicate Pairwise<T>(s: seq<T>, rel: (T, T) -> bool)
  {
    forall i, j :: 0 <= i < j < |s| ==> rel(s[i], s[j])
  }

  /** The elements of `s` that satisfy `p`, in their original order. */
  function Filter<T(!new)>(s: seq<T>, p: T -> bool): (r: seq<T>)
    ensures |r| <= |s|
    ensures forall x :: x in r <==> x in s && p(x)
    ensures (forall x :: x in s ==> p(x)) ==> r == s
  {
    if s == [] then []
    else if p(s[0]) then [s[0]] + Filter(s[1..], p)
    else Filter(s[1..], p)
  }

  /** Filtering a sequence with a known first element. */
  lemma FilterCons<T(!new)>(x: T, s: seq<T>, p: T -> bool)
    ensures Filter([x] + s, p) == if p(x) then [x] + Filter(s, p) else Filter(s, p)
  {
    assert ([x] + s)[1..] == s;
  }

  /** Filtering keeps the order of what it keeps. */
  lemma {:induction false} FilterPairwise<T(!new)>(s: seq<T>, p: T -> bool, rel: (T, T) -> bool)
    requires Pairwise(s, rel)
    ensures Pairwise(Filter(s, p), rel)
  {
    if s != [] {
      var tail := s[1..];
      assert Pairwise(tail, rel) by {
        forall i, j | 0 <= i < j < |tail| ensures rel(tail[i], tail[j]) {
          assert tail[i] == s[i + 1] && tail[j] == s[j + 1];
        }
      }
      FilterPairwise(tail, p, rel);
      if p(s[0]) {
        var t := Filter(tail, p);
        var r := [s[0]] + t;
        assert forall x :: x in tail ==> rel(s[0], x) by {
          forall x | x in tail ensures rel(s[0], x) {
            var k :| 0 <= k < |tail| && tail[k] == x;
            assert s[k + 1] == x;
          }
        }
        forall i, j | 0 <= i < j < |r| ensures rel(r[i], r[j]) {
          assert r[j] == t[j - 1];
          if i == 0 {
            assert t[j - 1] in tail;
          } else {
            assert r[i] == t[i - 1];
          }
        }
        assert Filter(s, p) == r;
      }
    }
  }

  /** The first element of `s` that satisfies `p` (`findOne` with a
      `WHERE` clause), or None. */
  function Find<T(!new)>(s: seq<T>, p: T -> bool): (r: Option<T>)
    ensures r.Some? ==> r.value in s && p(r.value)
    ensures r.None? <==> forall x :: x in s ==> !p(x)
  {
    if s == [] then None
    else if p(s[0]) then Some(s[0])
    else Find(s[1..], p)
  }

  /** Replace every element that satisfies `p` by `f` of it, in place
      (`repository.update(criteria, data)`). */
  function UpdateWhere<T>(s: seq<T>, p: T -> bool, f: T -> T): (r: seq<T>)
    ensures |r| == |s|
    ensures forall i :: 0 <= i < |s| ==> r[i] == if p(s[i]) then f(s[i]) else s[i]
    ensures (forall i :: 0 <= i < |s| ==> !p(s[i])) ==> r == s
  {
    seq(|s|, i requires 0 <= i < |s| => if p(s[i]) then f(s[i]) else s[i])
  }
}
