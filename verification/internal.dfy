/** A first-match lookup over a list, the behaviour the decoder expects of the
    repository's `internal.Find` helper: scan in order, stop at the first element
    satisfying the predicate, report absence when none does. */
module Internal {
  import opened Errors

  /** The position of the first element satisfying `p`, or `|xs|` when there
      is none. */
  function FirstIndex<T>(xs: seq<T>, p: T -> bool): (i: nat)
    ensures i <= |xs|
    ensures forall j :: 0 <= j < i ==> !p(xs[j])
    ensures i < |xs| ==> p(xs[i])
    decreases |xs|
  {
    if |xs| == 0 then 0
    else if p(xs[0]) then 0
    else 1 + FirstIndex(xs[1..], p)
  }

  /** The first element satisfying `p`, if any. */
  function Find<T>(xs: seq<T>, p: T -> bool): (r: Option<T>)
    ensures r.None? <==> forall j :: 0 <= j < |xs| ==> !p(xs[j])
    ensures r.Some? ==> p(r.value) && r.value in xs
    ensures r.Some? ==> FirstIndex(xs, p) < |xs| && r.value == xs[FirstIndex(xs, p)]
  {
    var i := FirstIndex(xs, p);
    if i < |xs| then Some(xs[i]) else None
  }

  /** An element that does not satisfy `p`, or that comes after an element
      that already does, has no influence on the lookup: only the first match
      is ever consulted. */
  lemma {:induction false} FindIgnores<T>(a: seq<T>, x: T, b: seq<T>, p: T -> bool)
    requires !p(x) || exists k :: 0 <= k < |a| && p(a[k])
    ensures Find(a + [x] + b, p) == Find(a + b, p)
    decreases |a|
  {
    if |a| == 0 {
      assert a + [x] + b == [x] + b;
      assert a + b == b;
      assert ([x] + b)[1..] == b;
    } else if p(a[0]) {
      assert (a + [x] + b)[0] == a[0];
      assert (a + b)[0] == a[0];
    } else {
      var a' := a[1..];
      assert (a + [x] + b)[1..] == a' + [x] + b;
      assert (a + b)[1..] == a' + b;
      if !p(x) {
        FindIgnores(a', x, b, p);
      } else {
        var k :| 0 <= k < |a| && p(a[k]);
        assert p(a'[k - 1]);
        FindIgnores(a', x, b, p);
      }
      assert FirstIndex(a + [x] + b, p) == 1 + FirstIndex(a' + [x] + b, p);
      assert FirstIndex(a + b, p) == 1 + FirstIndex(a' + b, p);
    }
  }
}
