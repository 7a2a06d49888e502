/**
 * Collecting the results of concurrent tasks in whatever order they complete
 * (`buffer_unordered`): the results come out in some permutation of the task order.
 */
module Unordered {

  function Indices(n: nat): (r: seq<nat>)
    ensures |r| == n && forall i :: 0 <= i < n ==> r[i] == i
  {
    seq(n, i => i)
  }

  /** `order` lists every task index below `n` exactly once. */
  predicate IsPermutation(order: seq<nat>, n: nat) {
    && (forall j :: 0 <= j < |order| ==> order[j] < n)
    && multiset(order) == multiset(Indices(n))
  }

  /** The task results `xs` in the order `order` names them. */
  function Reorder<T>(xs: seq<T>, order: seq<nat>): (ys: seq<T>)
    requires forall j :: 0 <= j < |order| ==> order[j] < |xs|
    ensures |ys| == |order|
  {
    seq(|order|, j requires 0 <= j < |order| => xs[order[j]])
  }

  /** Taking the last index out of a permutation of `n` indices leaves a permutation of `n - 1`. */
  lemma DropLast(order: seq<nat>, n: nat) returns (p: nat)
    requires IsPermutation(order, n) && n > 0
    ensures p < |order| && order[p] == n - 1
    ensures IsPermutation(order[..p] + order[p + 1..], n - 1)
  {
    var last: nat := n - 1;
    var pre: seq<nat> := Indices(n - 1);
    assert Indices(n) == pre + [last];
    assert last in multiset(order);
    p :| 0 <= p < |order| && order[p] == last;
    var rest: seq<nat> := order[..p] + order[p + 1..];
    assert order == order[..p] + [last] + order[p + 1..];
    calc {
      multiset(rest) + multiset{last};
      multiset(order[..p]) + multiset{last} + multiset(order[p + 1..]);
      multiset(order);
      multiset(pre + [last]);
      multiset(pre) + multiset{last};
    }
    MultisetCancel(multiset(rest), multiset(pre), last);
    forall j | 0 <= j < |rest|
      ensures rest[j] < n - 1
    {
      assert rest[j] in multiset(pre);
    }
  }

  lemma MultisetCancel(a: multiset<nat>, b: multiset<nat>, x: nat)
    requires a + multiset{x} == b + multiset{x}
    ensures a == b
  {
    assert a == (a + multiset{x}) - multiset{x};
    assert b == (b + multiset{x}) - multiset{x};
  }

  /** Reordering by `order` gives what reordering without position `p` gives, plus the element `p` names. */
  lemma ReorderSplit<T>(xs: seq<T>, order: seq<nat>, p: nat)
    requires forall j :: 0 <= j < |order| ==> order[j] < |xs|
    requires p < |order|
    ensures multiset(Reorder(xs, order))
         == multiset(Reorder(xs, order[..p] + order[p + 1..])) + multiset{xs[order[p]]}
  {
    assert order == order[..p] + [order[p]] + order[p + 1..];
    assert Reorder(xs, order)
        == Reorder(xs, order[..p]) + [xs[order[p]]] + Reorder(xs, order[p + 1..]);
    assert Reorder(xs, order[..p] + order[p + 1..])
        == Reorder(xs, order[..p]) + Reorder(xs, order[p + 1..]);
  }

  /** Reordering by a permutation keeps every element, each as often as before. */
  lemma {:induction false} ReorderMultiset<T>(xs: seq<T>, order: seq<nat>)
    requires IsPermutation(order, |xs|)
    ensures multiset(Reorder(xs, order)) == multiset(xs)
  {
    var n := |xs|;
    if n == 0 {
      assert |multiset(order)| == 0;
    } else {
      var p := DropLast(order, n);
      var rest := order[..p] + order[p + 1..];
      ReorderMultiset(xs[..n - 1], rest);
      assert Reorder(xs[..n - 1], rest) == Reorder(xs, rest);
      ReorderSplit(xs, order, p);
      assert xs == xs[..n - 1] + [xs[n - 1]];
    }
  }

  /** Moving the pending index at `j` to the end of `order` keeps every index accounted for once. */
  lemma TakeOne<T>(xs: seq<T>, pending: seq<nat>, order: seq<nat>, j: nat)
    requires j < |pending|
    requires forall i :: 0 <= i < |pending| ==> pending[i] < |xs|
    requires forall i :: 0 <= i < |order| ==> order[i] < |xs|
    ensures var left, done := pending[..j] + pending[j + 1..], order + [pending[j]];
      && (forall i :: 0 <= i < |left| ==> left[i] < |xs|)
      && (forall i :: 0 <= i < |done| ==> done[i] < |xs|)
      && multiset(done) + multiset(left) == multiset(order) + multiset(pending)
      && Reorder(xs, done) == Reorder(xs, order) + [xs[pending[j]]]
  {
    assert pending == pending[..j] + [pending[j]] + pending[j + 1..];
  }

  /**
   * Runs the tasks `xs` to completion, one finishing at a time in an order the
   * scheduler chooses; `order` records which task finished at each step.
   */
  method DrainUnordered<T>(xs: seq<T>) returns (ys: seq<T>, ghost order: seq<nat>)
    ensures IsPermutation(order, |xs|)
    ensures ys == Reorder(xs, order)
    ensures multiset(ys) == multiset(xs)
  {
    var pending: seq<nat> := Indices(|xs|);
    ys, order := [], [];
    while pending != []
      invariant forall j :: 0 <= j < |pending| ==> pending[j] < |xs|
      invariant forall j :: 0 <= j < |order| ==> order[j] < |xs|
      invariant multiset(order) + multiset(pending) == multiset(Indices(|xs|))
      invariant ys == Reorder(xs, order)
      decreases |pending|
    {
      var j :| 0 <= j < |pending|;
      var t := pending[j];
      TakeOne(xs, pending, order, j);
      pending := pending[..j] + pending[j + 1..];
      ys := ys + [xs[t]];
      order := order + [t];
    }
    ReorderMultiset(xs, order);
  }
}
