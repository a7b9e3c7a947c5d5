/** Repeated calls of an iterator's `next`, for any state type: what the
    callers of `Iterator::next` observe after `n` calls. */
module Iteration {
  import opened Results

  /** The items of `n` successive calls of `next` from `s`, and the state after them. */
  function Iterate<S, X>(next: S -> (Option<X>, S), s: S, n: nat): (r: (seq<Option<X>>, S))
    ensures |r.0| == n
    decreases n
  {
    if n == 0 then ([], s)
    else
      var rest := Iterate(next, next(s).1, n - 1);
      ([next(s).0] + rest.0, rest.1)
  }

  /** The first call, then the other `n`. */
  lemma {:induction false} IterateStep<S, X>(next: S -> (Option<X>, S), s: S, n: nat)
    ensures Iterate(next, s, n + 1).0 == [next(s).0] + Iterate(next, next(s).1, n).0
    ensures Iterate(next, s, n + 1).1 == Iterate(next, next(s).1, n).1
  {
  }

  /** The first `n` calls, then one more. */
  lemma {:induction false} IterateSnoc<S, X>(next: S -> (Option<X>, S), s: S, n: nat)
    ensures Iterate(next, s, n + 1).0 == Iterate(next, s, n).0 + [next(Iterate(next, s, n).1).0]
    ensures Iterate(next, s, n + 1).1 == next(Iterate(next, s, n).1).1
    decreases n
  {
    if n > 0 {
      IterateSnoc(next, next(s).1, n - 1);
      IterateStep(next, s, n);
      IterateStep(next, s, n - 1);
    }
  }

  /** `next` keeps `inv`. */
  ghost predicate Preserves<S(!new), X>(next: S -> (Option<X>, S), inv: S -> bool)
  {
    forall s :: inv(s) ==> inv(next(s).1)
  }

  /** Then `inv` holds after any number of calls. */
  lemma {:induction false} IterateKeeps<S(!new), X>(next: S -> (Option<X>, S), inv: S -> bool, s: S, n: nat)
    requires Preserves(next, inv) && inv(s)
    ensures inv(Iterate(next, s, n).1)
    decreases n
  {
    if n > 0 {
      IterateKeeps(next, inv, next(s).1, n - 1);
    }
  }

  /** `next` is counted by `left`: it yields `None` exactly when nothing is
      left, and every other call uses up one. */
  ghost predicate CountsDown<S(!new), X>(next: S -> (Option<X>, S), left: S -> nat)
  {
    forall s :: && (next(s).0.None? <==> left(s) == 0)
                && (left(s) > 0 ==> left(next(s).1) == left(s) - 1)
  }

  /** Under such a count, each of the first `left(s)` calls yields an item,
      and the count left after `n` of them is `left(s) - n`. */
  lemma {:induction false} ItemsWhileLeft<S(!new), X>(next: S -> (Option<X>, S), left: S -> nat, s: S, n: nat)
    requires CountsDown(next, left) && n <= left(s)
    ensures left(Iterate(next, s, n).1) == left(s) - n
    ensures forall i :: 0 <= i < n ==> Iterate(next, s, n).0[i].Some?
    decreases n
  {
    if n > 0 {
      var s1 := next(s).1;
      IterateStep(next, s, n - 1);
      ItemsWhileLeft(next, left, s1, n - 1);
      var os, os1 := Iterate(next, s, n).0, Iterate(next, s1, n - 1).0;
      forall i | 0 <= i < n
        ensures os[i].Some?
      {
        if i > 0 { assert os[i] == os1[i - 1]; }
      }
    }
  }

  /** So exactly `left(s)` items come before the first `None`. */
  lemma {:induction false} ExactlyLeftItems<S(!new), X>(next: S -> (Option<X>, S), left: S -> nat, s: S)
    requires CountsDown(next, left)
    ensures forall i :: 0 <= i < left(s) ==> Iterate(next, s, left(s)).0[i].Some?
    ensures next(Iterate(next, s, left(s)).1).0 == None
  {
    ItemsWhileLeft(next, left, s, left(s));
  }

  /** The items that deliver each of `ys`, in order, through `item`. */
  function Somes<X, Y>(item: Y -> X, ys: seq<Y>): (os: seq<Option<X>>)
    ensures |os| == |ys|
    ensures forall i :: 0 <= i < |ys| ==> os[i] == Some(item(ys[i]))
  {
    seq(|ys|, i requires 0 <= i < |ys| => Some(item(ys[i])))
  }

  /** `holds(s, ys)` says the state `s` has `ys` outstanding: `next` then
      delivers the first of them and leaves the rest outstanding. */
  ghost predicate DeliversHead<S(!new), X, Y(!new)>(next: S -> (Option<X>, S), holds: (S, seq<Y>) -> bool, item: Y -> X)
  {
    forall s, ys :: holds(s, ys) && |ys| > 0 ==> next(s).0 == Some(item(ys[0])) && holds(next(s).1, ys[1..])
  }

  /** Then `|ys|` calls deliver all of `ys` in order and leave nothing outstanding. */
  lemma {:induction false} DeliversAll<S(!new), X, Y(!new)>(next: S -> (Option<X>, S), holds: (S, seq<Y>) -> bool, item: Y -> X, s: S, ys: seq<Y>)
    requires DeliversHead(next, holds, item) && holds(s, ys)
    ensures Iterate(next, s, |ys|).0 == Somes(item, ys)
    ensures holds(Iterate(next, s, |ys|).1, [])
    decreases |ys|
  {
    if ys == [] {
      assert Iterate(next, s, 0).1 == s;
    } else {
      IterateStep(next, s, |ys| - 1);
      DeliversAll(next, holds, item, next(s).1, ys[1..]);
      assert Somes(item, ys) == [Some(item(ys[0]))] + Somes(item, ys[1..]);
    }
  }
}
