/** Removing marked entries from the evaluator's parallel lists:
    `for index in sorted(remove_indices, reverse=True): birds.pop(index); ...`.
    Popping the highest index first never shifts an index still to be popped,
    so the lists end up without exactly the marked entries, the rest in order. */
module Removal {

  /** The indices 0..n-1 that are not marked, ascending. */
  function Kept(n: nat, marked: set<nat>): (k: seq<nat>)
    ensures |k| <= n
    ensures forall j :: 0 <= j < |k| ==> k[j] < n && k[j] !in marked
    ensures forall i, j :: 0 <= i < j < |k| ==> k[i] < k[j]
  {
    if n == 0 then []
    else Kept(n - 1, marked) + (if n - 1 in marked then [] else [n - 1])
  }

  /** The entries of `xs` whose index is not marked, in their original order. */
  function Without<T>(xs: seq<T>, marked: set<nat>): seq<T> {
    if |xs| == 0 then []
    else Without(xs[..|xs| - 1], marked) + (if |xs| - 1 in marked then [] else [xs[|xs| - 1]])
  }

  /** Entry j of the result is the entry of `xs` at the j-th kept index. */
  lemma {:induction false} WithoutIsKept<T>(xs: seq<T>, marked: set<nat>)
    ensures |Without(xs, marked)| == |Kept(|xs|, marked)|
    ensures forall j :: 0 <= j < |Without(xs, marked)| ==> Without(xs, marked)[j] == xs[Kept(|xs|, marked)[j]]
  {
    if |xs| > 0 {
      var init := xs[..|xs| - 1];
      WithoutIsKept(init, marked);
      assert forall i :: 0 <= i < |init| ==> init[i] == xs[i];
    }
  }

  /** Every unmarked index below n is kept. */
  lemma {:induction false} KeptCovers(n: nat, marked: set<nat>, i: nat)
    requires i < n && i !in marked
    ensures i in Kept(n, marked)
  {
    if i < n - 1 {
      KeptCovers(n - 1, marked, i);
    }
  }

  /** Exactly the marked indices are removed: if all marks are below n, n - |marked| indices are kept. */
  lemma {:induction false} KeptLength(n: nat, marked: set<nat>)
    requires forall s :: s in marked ==> s < n
    ensures |Kept(n, marked)| == n - |marked|
  {
    if n > 0 {
      var rest := marked - {n - 1};
      KeptLength(n - 1, rest);
      KeptIgnoresOutside(n - 1, marked, rest);
    }
  }

  /** Marks at or above n do not matter. */
  lemma {:induction false} KeptIgnoresOutside(n: nat, marked: set<nat>, rest: set<nat>)
    requires forall s :: s < n ==> (s in marked <==> s in rest)
    ensures Kept(n, marked) == Kept(n, rest)
  {
    if n > 0 {
      KeptIgnoresOutside(n - 1, marked, rest);
    }
  }

  /** Marks at or above |xs| do not matter. */
  lemma {:induction false} WithoutIgnoresOutside<T>(xs: seq<T>, marked: set<nat>, rest: set<nat>)
    requires forall s :: s < |xs| ==> (s in marked <==> s in rest)
    ensures Without(xs, marked) == Without(xs, rest)
  {
    if |xs| > 0 {
      WithoutIgnoresOutside(xs[..|xs| - 1], marked, rest);
    }
  }

  /** Marks at or above the length do not matter. */
  lemma {:induction false} WithoutHigh<T>(xs: seq<T>, marked: set<nat>)
    requires forall s :: s in marked ==> s >= |xs|
    ensures Without(xs, marked) == xs
  {
    if |xs| > 0 {
      WithoutHigh(xs[..|xs| - 1], marked);
    }
  }

  /** Popping the last index when every mark lies beyond it. */
  lemma PopLast<T>(xs: seq<T>, marked: set<nat>)
    requires |xs| > 0 && forall s :: s in marked ==> s >= |xs|
    ensures Without(xs, marked) == xs
    ensures Without(xs, marked + {|xs| - 1}) == xs[..|xs| - 1]
  {
    var init := xs[..|xs| - 1];
    WithoutHigh(xs, marked);
    WithoutHigh(init, marked + {|xs| - 1});
  }

  /** Popping index j below every earlier mark removes entry j of the shorter list. */
  lemma {:induction false} PopStep<T>(xs: seq<T>, marked: set<nat>, j: nat)
    requires j < |xs| && forall s :: s in marked ==> s > j
    ensures |Without(xs, marked)| > j
    ensures Without(xs, marked + {j}) == Without(xs, marked)[..j] + Without(xs, marked)[j + 1..]
  {
    var n := |xs|;
    var init := xs[..n - 1];
    if j == n - 1 {
      PopLast(xs, marked);
    } else {
      PopStep(init, marked, j);
      var w := Without(init, marked);
      var t := if n - 1 in marked then [] else [xs[n - 1]];
      assert (n - 1 in marked + {j}) == (n - 1 in marked);
      assert Without(xs, marked) == w + t;
      assert Without(xs, marked + {j}) == Without(init, marked + {j}) + t;
      assert (w + t)[..j] == w[..j];
      assert (w + t)[j + 1..] == w[j + 1..] + t;
      assert Without(init, marked + {j}) + t == (w + t)[..j] + (w + t)[j + 1..];
    }
  }

  /** `sorted(remove_indices, reverse=True)` for the ascending index list the
      evaluator builds: the same indices, highest first. */
  function Descending(s: seq<nat>): (r: seq<nat>)
    requires forall i, j :: 0 <= i < j < |s| ==> s[i] < s[j]
    ensures |r| == |s| && (forall x :: x in r <==> x in s)
    ensures forall i, j :: 0 <= i < j < |r| ==> r[i] > r[j]
  {
    if |s| == 0 then []
    else
      var tail := s[1..];
      assert forall x :: x in s <==> x in tail || x == s[0];
      var d := Descending(tail);
      assert forall i :: 0 <= i < |d| ==> d[i] > s[0] by {
        forall i | 0 <= i < |d|
          ensures d[i] > s[0]
        {
          assert d[i] in tail;
          var m :| 0 <= m < |tail| && tail[m] == d[i];
          assert s[m + 1] == d[i];
        }
      }
      d + [s[0]]
  }

  /** The set of entries of a sequence. */
  function Elems(s: seq<nat>): set<nat> {
    set x | x in s
  }

  /** The pop loop over the three parallel lists, highest index first. */
  method PopMarked<A, B, C>(xs: seq<A>, ys: seq<B>, zs: seq<C>, order: seq<nat>)
    returns (xs': seq<A>, ys': seq<B>, zs': seq<C>)
    requires |xs| == |ys| == |zs|
    requires forall i :: 0 <= i < |order| ==> order[i] < |xs|
    requires forall i, j :: 0 <= i < j < |order| ==> order[i] > order[j]
    ensures xs' == Without(xs, Elems(order))
    ensures ys' == Without(ys, Elems(order))
    ensures zs' == Without(zs, Elems(order))
  {
    xs', ys', zs' := xs, ys, zs;
    var k := 0;
    assert Elems(order[..0]) == {};
    WithoutHigh(xs, {});
    WithoutHigh(ys, {});
    WithoutHigh(zs, {});
    while k < |order|
      invariant 0 <= k <= |order|
      invariant xs' == Without(xs, Elems(order[..k]))
      invariant ys' == Without(ys, Elems(order[..k]))
      invariant zs' == Without(zs, Elems(order[..k]))
    {
      var j := order[k];
      var done := Elems(order[..k]);
      assert Elems(order[..k + 1]) == done + {j} by {
        assert order[..k + 1] == order[..k] + [j];
      }
      assert forall s :: s in done ==> s > j;
      PopStep(xs, done, j);
      PopStep(ys, done, j);
      PopStep(zs, done, j);
      xs' := xs'[..j] + xs'[j + 1..];
      ys' := ys'[..j] + ys'[j + 1..];
      zs' := zs'[..j] + zs'[j + 1..];
      k := k + 1;
    }
    assert order[..k] == order;
  }

  /** `for index in sorted(remove_indices, reverse=True): birds.pop(index);
      nets.pop(index); ge.pop(index)` for an ascending index list: the three
      lists lose exactly the listed entries and stay parallel. */
  method RemoveMarked<A, B, C>(xs: seq<A>, ys: seq<B>, zs: seq<C>, remove: seq<nat>)
    returns (xs': seq<A>, ys': seq<B>, zs': seq<C>)
    requires |xs| == |ys| == |zs|
    requires forall i :: 0 <= i < |remove| ==> remove[i] < |xs|
    requires forall i, j :: 0 <= i < j < |remove| ==> remove[i] < remove[j]
    ensures xs' == Without(xs, Elems(remove))
    ensures ys' == Without(ys, Elems(remove))
    ensures zs' == Without(zs, Elems(remove))
    ensures |xs'| == |ys'| == |zs'|
  {
    var order := Descending(remove);
    assert Elems(order) == Elems(remove);
    assert forall i :: 0 <= i < |order| ==> order[i] < |xs| by {
      assert forall i :: 0 <= i < |order| ==> order[i] in order;
    }
    xs', ys', zs' := PopMarked(xs, ys, zs, order);
    WithoutIsKept(xs, Elems(order));
    WithoutIsKept(ys, Elems(order));
    WithoutIsKept(zs, Elems(order));
  }
}
