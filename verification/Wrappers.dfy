/** What every module shares: optional values and small facts about sequences. */
module Wrappers {

  datatype Option<T> = None | Some(value: T)

  /** A sequence without the element at one position. */
  function Without<T>(xs: seq<T>, i: nat): (ys: seq<T>)
    requires i < |xs|
    ensures |ys| == |xs| - 1 && forall j :: 0 <= j < |ys| ==> ys[j] == xs[if j < i then j else j + 1]
  {
    xs[..i] + xs[i + 1..]
  }

  lemma Associate<T>(a: seq<T>, b: seq<T>, c: seq<T>)
    ensures a + b + c == a + (b + c)
  {
  }

  /** A function that no step changes has one value. */
  lemma {:induction false} Chain<T>(f: nat -> T, n: nat)
    requires forall i :: 0 <= i < n ==> f(i) == f(i + 1)
    ensures f(0) == f(n)
  {
    if n > 0 {
      Chain(f, n - 1);
      assert f(n - 1) == f(n - 1 + 1);
    }
  }

  /** States one after the other, each reached from the one before it by the next element. */
  ghost predicate Linked<S, R>(step: (S, R, S) -> bool, rs: seq<R>, trace: seq<S>) {
    1 <= |trace| <= |rs| + 1 && forall j :: 0 <= j < |trace| - 1 ==> step(trace[j], rs[j], trace[j + 1])
  }

  lemma LinkedNext<S, R>(step: (S, R, S) -> bool, rs: seq<R>, trace: seq<S>, s: S)
    requires Linked(step, rs, trace) && |trace| <= |rs| && step(trace[|trace| - 1], rs[|trace| - 1], s)
    ensures Linked(step, rs, trace + [s])
  {
    var t := trace + [s];
    forall j | 0 <= j < |t| - 1 ensures step(t[j], rs[j], t[j + 1]) {
      assert j < |trace| - 1 ==> step(trace[j], rs[j], trace[j + 1]);
    }
  }
}
