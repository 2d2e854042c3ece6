/** In-place removal from string arrays (string_array.go) and what it keeps. */
module StringArray {
  import Text

  ghost predicate Increasing(idxs: seq<nat>, n: nat) {
    && (forall i, j :: 0 <= i < j < |idxs| ==> idxs[i] < idxs[j])
    && (forall i :: 0 <= i < |idxs| ==> idxs[i] < n)
  }

  /** Each position, from the last one down, is overwritten with the last element, which is then dropped. */
  function SwapRemove(a: seq<string>, idxs: seq<nat>): (r: seq<string>)
    requires Increasing(idxs, |a|)
    ensures |r| == |a| - |idxs|
    decreases |idxs|
  {
    if idxs == [] then a
    else
      var last := |idxs| - 1;
      var n := |a| - 1;
      SwapRemove(a[idxs[last] := a[n]][..n], idxs[..last])
  }

  /** The elements at the given positions. */
  function Picked(a: seq<string>, idxs: seq<nat>): seq<string>
    requires Increasing(idxs, |a|)
  {
    seq(|idxs|, i requires 0 <= i < |idxs| => a[idxs[i]])
  }

  lemma SwapOut(a: seq<string>, idx: nat)
    requires idx < |a|
    ensures multiset(a[idx := a[|a| - 1]][..|a| - 1]) + multiset{a[idx]} == multiset(a)
  {
    var n := |a| - 1;
    if idx < n {
      SwapParts(a, idx, n);
      Exchanged(a[..idx], a[idx + 1..n], a[idx], a[n]);
    } else {
      assert a == a[..n] + [a[n]] && a[idx := a[n]][..n] == a[..n];
    }
  }

  lemma SwapParts(a: seq<string>, idx: nat, n: nat)
    requires idx < n == |a| - 1
    ensures a == a[..idx] + [a[idx]] + a[idx + 1..n] + [a[n]]
    ensures a[idx := a[n]][..n] == a[..idx] + [a[n]] + a[idx + 1..n]
  {
  }

  lemma Exchanged(p: seq<string>, q: seq<string>, x: string, y: string)
    ensures multiset(p + [y] + q) + multiset{x} == multiset(p + [x] + q + [y])
  {
  }

  lemma PrefixCounted(t: seq<string>, n: nat)
    requires 0 < n <= |t|
    ensures multiset(t[..n]) == multiset(t[..n - 1]) + multiset{t[n - 1]}
  {
    assert t[..n] == t[..n - 1] + [t[n - 1]];
  }

  lemma PickedFrame(a: seq<string>, b: seq<string>, idxs: seq<nat>)
    requires Increasing(idxs, |a|) && Increasing(idxs, |b|)
    requires forall i :: 0 <= i < |idxs| ==> a[idxs[i]] == b[idxs[i]]
    ensures Picked(a, idxs) == Picked(b, idxs)
  {
  }

  /** Nothing but the given positions is lost, and nothing is kept twice. */
  lemma {:induction false} SwapRemoveExact(a: seq<string>, idxs: seq<nat>)
    requires Increasing(idxs, |a|)
    ensures multiset(SwapRemove(a, idxs)) + multiset(Picked(a, idxs)) == multiset(a)
    decreases |idxs|
  {
    if idxs != [] {
      var last := |idxs| - 1;
      var x, b := SwapRemoveLast(a, idxs);
      SwapOut(a, idxs[last]);
      SwapRemoveExact(b, idxs[..last]);
      MoveOne(SwapRemove(b, idxs[..last]), Picked(b, idxs[..last]), x, multiset(b));
    }
  }

  /** The first turn, at the last position: `x` is taken out and `b` remains. */
  lemma SwapRemoveLast(a: seq<string>, idxs: seq<nat>) returns (x: string, b: seq<string>)
    requires Increasing(idxs, |a|) && idxs != []
    ensures x == a[idxs[|idxs| - 1]] && b == a[idxs[|idxs| - 1] := a[|a| - 1]][..|a| - 1]
    ensures Increasing(idxs[..|idxs| - 1], |b|) && SwapRemove(a, idxs) == SwapRemove(b, idxs[..|idxs| - 1])
    ensures Picked(a, idxs) == Picked(b, idxs[..|idxs| - 1]) + [x]
  {
    var last := |idxs| - 1;
    x, b := a[idxs[last]], a[idxs[last] := a[|a| - 1]][..|a| - 1];
    PickedFrame(a, b, idxs[..last]);
    PickedLast(a, idxs);
  }

  lemma PickedLast(a: seq<string>, idxs: seq<nat>)
    requires Increasing(idxs, |a|) && idxs != []
    ensures Picked(a, idxs) == Picked(a, idxs[..|idxs| - 1]) + [a[idxs[|idxs| - 1]]]
  {
  }

  /** The first `i` positions are still to be removed from `b`. */
  ghost predicate ToRemove(b: seq<string>, idxs: seq<nat>, i: nat, kept: seq<string>) {
    i <= |idxs| && Increasing(idxs[..i], |b|) && SwapRemove(b, idxs[..i]) == kept
  }

  lemma SwapRemoveStep(b: seq<string>, idxs: seq<nat>, i: nat, kept: seq<string>)
    requires ToRemove(b, idxs, i + 1, kept)
    ensures idxs[i] < |b| && ToRemove(b[idxs[i] := b[|b| - 1]][..|b| - 1], idxs, i, kept)
  {
    var t := idxs[..i + 1];
    assert t[i] == idxs[i] && t[..i] == idxs[..i];
    forall j | 0 <= j < i ensures idxs[..i][j] < |b| - 1 {
      assert t[j] < t[i];
    }
  }

  /** One turn of the loop, on the whole array: what the first `n` elements stand for does not change. */
  lemma SwapTurn(s: seq<string>, n: nat, idxs: seq<nat>, i: nat, kept: seq<string>)
    requires n < |s| && ToRemove(s[..n + 1], idxs, i + 1, kept)
    ensures idxs[i] <= n && ToRemove(s[idxs[i] := s[n]][..n], idxs, i, kept)
  {
    var b := s[..n + 1];
    SwapRemoveStep(b, idxs, i, kept);
    assert s[idxs[i] := s[n]][..n] == b[idxs[i] := b[n]][..n];
  }

  lemma SwapEnds(s: seq<string>, idxs: seq<nat>)
    requires Increasing(idxs, |s|)
    ensures ToRemove(s[..|s|], idxs, |idxs|, SwapRemove(s, idxs))
  {
    assert s[..|s|] == s && idxs[..|idxs|] == idxs;
  }

  /** `stringArrayRemoveAtIndexes`; the result is the slice `a[:n]`. */
  method RemoveAtIndexes(a: array<string>, toRemove: seq<nat>) returns (n: nat)
    requires Increasing(toRemove, a.Length)
    modifies a
    ensures n == a.Length - |toRemove|
    ensures a[..n] == SwapRemove(old(a[..]), toRemove)
  {
    n := a.Length;
    var i := |toRemove|;
    ghost var s := a[..];
    ghost var kept := SwapRemove(s, toRemove);
    SwapEnds(s, toRemove);
    while i > 0
      invariant 0 <= i <= |toRemove| && n == a.Length - (|toRemove| - i)
      invariant a[..] == s && ToRemove(s[..n], toRemove, i, kept)
    {
      i := i - 1;
      n := n - 1;
      SwapTurn(s, n, toRemove, i, kept);
      a[toRemove[i]] := a[n];
      s := s[toRemove[i] := s[n]];
    }
    assert a[..n] == s[..n];
  }

  // ---- removal by predicate -------------------------------------------------------

  /** The positions from `from` on whose element satisfies `p`. */
  function Positions(a: seq<string>, p: string -> bool, from: nat): (r: seq<nat>)
    requires from <= |a|
    ensures Increasing(r, |a|) && forall i :: 0 <= i < |r| ==> from <= r[i] && p(a[r[i]])
    decreases |a| - from
  {
    if from == |a| then []
    else if p(a[from]) then [from] + Positions(a, p, from + 1)
    else Positions(a, p, from + 1)
  }

  function Count(a: seq<string>, x: string): nat {
    if a == [] then 0 else Count(a[1..], x) + if a[0] == x then 1 else 0
  }

  lemma {:induction false} CountIsMultiplicity(a: seq<string>, x: string)
    ensures Count(a, x) == multiset(a)[x]
  {
    if a != [] {
      CountIsMultiplicity(a[1..], x);
      assert a == [a[0]] + a[1..];
    }
  }

  lemma {:induction false} PickedCount(a: seq<string>, p: string -> bool, from: nat, x: string)
    requires from <= |a|
    ensures Count(Picked(a, Positions(a, p, from)), x) == if p(x) then Count(a[from..], x) else 0
    decreases |a| - from
  {
    if from < |a| {
      PickedCount(a, p, from + 1, x);
      assert a[from..] == [a[from]] + a[from + 1..];
      CountCons(a[from], a[from + 1..], x);
      PickedNext(a, p, from);
      CountCons(a[from], Picked(a, Positions(a, p, from + 1)), x);
    }
  }

  lemma PickedNext(a: seq<string>, p: string -> bool, from: nat)
    requires from < |a|
    ensures var later := Picked(a, Positions(a, p, from + 1));
            Picked(a, Positions(a, p, from)) == if p(a[from]) then [a[from]] + later else later
  {
    if p(a[from]) { PickedCons(a, from, Positions(a, p, from + 1)); }
  }

  lemma CountCons(y: string, rest: seq<string>, x: string)
    ensures Count([y] + rest, x) == Count(rest, x) + if y == x then 1 else 0
  {
    assert ([y] + rest)[1..] == rest;
  }

  lemma PickedCons(a: seq<string>, idx: nat, later: seq<nat>)
    requires Increasing([idx] + later, |a|) && Increasing(later, |a|) && idx < |a|
    ensures Picked(a, [idx] + later) == [a[idx]] + Picked(a, later)
  {
  }

  function RemoveWhere(a: seq<string>, p: string -> bool): seq<string> {
    SwapRemove(a, Positions(a, p, 0))
  }

  /** Removal by predicate keeps every other element, as often as it was there. */
  lemma RemoveWhereKeeps(a: seq<string>, p: string -> bool, x: string)
    ensures Count(RemoveWhere(a, p), x) == if p(x) then 0 else Count(a, x)
    ensures x in RemoveWhere(a, p) <==> x in a && !p(x)
  {
    PickedCount(a, p, 0, x);
    SwapRemoveExact(a, Positions(a, p, 0));
    assert a[0..] == a;
    CountIsMultiplicity(a, x);
    CountIsMultiplicity(Picked(a, Positions(a, p, 0)), x);
    CountIsMultiplicity(RemoveWhere(a, p), x);
    assert x in RemoveWhere(a, p) <==> x in multiset(RemoveWhere(a, p));
    assert x in a <==> x in multiset(a);
  }

  /** `stringArrayRemoveNoCase`. */
  function RemoveNoCase(a: seq<string>, s: string): seq<string> {
    RemoveWhere(a, x => Text.EqualFold(x, s))
  }

  /** `stringArrayRemoveNoCase` and `stringArrayRemove`, on the array: collect positions, then remove. */
  method RemoveMatching(a: array<string>, p: string -> bool) returns (n: nat)
    modifies a
    ensures n <= a.Length && a[..n] == RemoveWhere(old(a[..]), p)
  {
    var toRemove: seq<nat> := [];
    ghost var s := a[..];
    var i := 0;
    while i < a.Length
      invariant 0 <= i <= a.Length && a[..] == s
      invariant Positions(s, p, 0) == toRemove + Positions(s, p, i)
    {
      if p(a[i]) {
        assert Positions(s, p, i) == [i] + Positions(s, p, i + 1);
        toRemove := toRemove + [i];
      }
      i := i + 1;
    }
    assert toRemove == Positions(s, p, 0);
    n := RemoveAtIndexes(a, toRemove);
  }

  // ---- removal of duplicates ------------------------------------------------------

  /** Sorted by key, as `sort.Strings` (key the string) and `sort.Slice` (key its lower case) leave the array. */
  ghost predicate SortedBy(t: seq<string>, key: string -> string) {
    forall i, j :: 0 <= i < j < |t| ==> !Text.Less(key(t[j]), key(t[i]))
  }

  predicate Repeats(t: seq<string>, key: string -> string, i: nat)
    requires i < |t|
  {
    i > 0 && key(t[i]) == key(t[i - 1])
  }

  function Duplicates(t: seq<string>, key: string -> string, n: nat): (r: seq<nat>)
    requires n <= |t|
    ensures Increasing(r, n)
  {
    if n == 0 then []
    else if Repeats(t, key, n - 1) then Duplicates(t, key, n - 1) + [n - 1]
    else Duplicates(t, key, n - 1)
  }

  /** The first element of every group of equal keys. */
  function Firsts(t: seq<string>, key: string -> string, n: nat): seq<string>
    requires n <= |t|
  {
    if n == 0 then []
    else if Repeats(t, key, n - 1) then Firsts(t, key, n - 1)
    else Firsts(t, key, n - 1) + [t[n - 1]]
  }

  lemma {:induction false} FirstsAndDuplicates(t: seq<string>, key: string -> string, n: nat)
    requires n <= |t|
    ensures multiset(Firsts(t, key, n)) + multiset(Picked(t, Duplicates(t, key, n))) == multiset(t[..n])
  {
    if n > 0 {
      FirstsAndDuplicates(t, key, n - 1);
      MoveOne(Firsts(t, key, n - 1), Picked(t, Duplicates(t, key, n - 1)), t[n - 1], multiset(t[..n - 1]));
      PrefixCounted(t, n);
      FirstsLast(t, key, n);
    }
  }

  /** The next element is a first one or a duplicate. */
  lemma FirstsLast(t: seq<string>, key: string -> string, n: nat)
    requires 0 < n <= |t|
    ensures var f, d := Firsts(t, key, n - 1), Picked(t, Duplicates(t, key, n - 1));
            || (Firsts(t, key, n) == f && Picked(t, Duplicates(t, key, n)) == d + [t[n - 1]])
            || (Firsts(t, key, n) == f + [t[n - 1]] && Picked(t, Duplicates(t, key, n)) == d)
  {
    if Repeats(t, key, n - 1) {
      var dups := Duplicates(t, key, n);
      assert dups[..|dups| - 1] == Duplicates(t, key, n - 1);
      PickedLast(t, dups);
    }
  }

  lemma MoveOne(f: seq<string>, d: seq<string>, x: string, all: multiset<string>)
    requires multiset(f) + multiset(d) == all
    ensures multiset(f + [x]) + multiset(d) == all + multiset{x}
    ensures multiset(f) + multiset(d + [x]) == all + multiset{x}
  {
  }

  lemma CancelSum(a: multiset<string>, b: multiset<string>, c: multiset<string>)
    requires a + c == b + c
    ensures a == b
  {
    assert a == (a + c) - c;
  }

  ghost predicate KeysGrow(f: seq<string>, key: string -> string) {
    forall i, j :: 0 <= i < j < |f| ==> Text.Less(key(f[i]), key(f[j]))
  }

  ghost predicate HasKey(f: seq<string>, key: string -> string, k: string) {
    exists x :: x in f && key(x) == k
  }

  lemma KeysGrowNext(f: seq<string>, key: string -> string, x: string)
    requires KeysGrow(f, key) && (f != [] ==> Text.Less(key(f[|f| - 1]), key(x)))
    ensures KeysGrow(f + [x], key)
  {
    forall i | 0 <= i < |f| ensures Text.Less(key(f[i]), key(x)) {
      if i < |f| - 1 { Text.LessTransitive(key(f[i]), key(f[|f| - 1]), key(x)); }
    }
  }

  lemma HasKeyNext(f: seq<string>, key: string -> string, x: string, k: string)
    requires HasKey(f, key, k) || key(x) == k
    ensures HasKey(f + [x], key, k)
  {
    if HasKey(f, key, k) {
      var y :| y in f && key(y) == k;
      assert y in f + [x];
    } else {
      assert x in f + [x];
    }
  }

  /** The kept keys grow strictly, and every key is kept. */
  lemma {:induction false} FirstsRepresent(t: seq<string>, key: string -> string, n: nat)
    requires SortedBy(t, key) && n <= |t|
    ensures n > 0 ==> Firsts(t, key, n) != [] && key(Firsts(t, key, n)[|Firsts(t, key, n)| - 1]) == key(t[n - 1])
    ensures KeysGrow(Firsts(t, key, n), key)
    ensures forall i :: 0 <= i < n ==> HasKey(Firsts(t, key, n), key, key(t[i]))
  {
    if n > 0 {
      FirstsRepresent(t, key, n - 1);
      var f, x := Firsts(t, key, n - 1), t[n - 1];
      if Repeats(t, key, n - 1) {
        assert HasKey(f, key, key(t[n - 2]));
      } else {
        if n > 1 { Text.LessTotal(key(t[n - 2]), key(x)); }
        KeysGrowNext(f, key, x);
        forall i | 0 <= i < n ensures HasKey(f + [x], key, key(t[i])) { HasKeyNext(f, key, x, key(t[i])); }
      }
    }
  }

  ghost predicate DistinctKeys(s: seq<string>, key: string -> string) {
    forall i, j :: 0 <= i < j < |s| ==> key(s[i]) != key(s[j])
  }

  lemma DistinctCount(s: seq<string>, key: string -> string, i: nat, j: nat)
    requires DistinctKeys(s, key) && i < |s| && j < |s| && key(s[i]) == key(s[j])
    ensures i == j
  {
  }

  lemma TwiceCounted(s: seq<string>, i: nat, j: nat)
    requires i < j < |s| && s[i] == s[j]
    ensures multiset(s)[s[i]] >= 2
  {
    assert s == s[..i] + [s[i]] + s[i + 1..j] + [s[j]] + s[j + 1..];
  }

  lemma {:induction false} OnceCounted(s: seq<string>, key: string -> string, i: nat)
    requires DistinctKeys(s, key) && i < |s|
    ensures multiset(s)[s[i]] == 1
  {
    assert s == s[..i] + [s[i]] + s[i + 1..];
    assert s[i] !in s[..i] && s[i] !in s[i + 1..];
  }

  /** Distinctness of keys does not depend on the order. */
  lemma DistinctPermutes(s: seq<string>, t: seq<string>, key: string -> string)
    requires multiset(s) == multiset(t) && DistinctKeys(s, key)
    ensures DistinctKeys(t, key)
  {
    forall i, j | 0 <= i < j < |t| ensures key(t[i]) != key(t[j]) {
      assert t[i] in multiset(s) && t[j] in multiset(s);
      var a :| 0 <= a < |s| && s[a] == t[i];
      var b :| 0 <= b < |s| && s[b] == t[j];
      if key(t[i]) == key(t[j]) {
        DistinctCount(s, key, a, b);
        OnceCounted(s, key, a);
        TwiceCounted(t, i, j);
        assert false;
      }
    }
  }

  lemma DedupeKeepsFirsts(t: seq<string>, key: string -> string)
    ensures multiset(SwapRemove(t, Duplicates(t, key, |t|))) == multiset(Firsts(t, key, |t|))
    ensures multiset(SwapRemove(t, Duplicates(t, key, |t|))) <= multiset(t)
  {
    var dups := Duplicates(t, key, |t|);
    FirstsAndDuplicates(t, key, |t|);
    SwapRemoveExact(t, dups);
    assert t[..|t|] == t;
    CancelSum(multiset(SwapRemove(t, dups)), multiset(Firsts(t, key, |t|)), multiset(Picked(t, dups)));
  }

  lemma FirstsDistinct(t: seq<string>, key: string -> string)
    requires SortedBy(t, key)
    ensures DistinctKeys(Firsts(t, key, |t|), key)
  {
    var f := Firsts(t, key, |t|);
    FirstsRepresent(t, key, |t|);
    forall i, j | 0 <= i < j < |f| ensures key(f[i]) != key(f[j]) {
      Text.LessIrreflexive(key(f[i]));
    }
  }

  /** One representative per key: the result of the dedupe functions for any sorted order. */
  lemma DedupeExact(t: seq<string>, key: string -> string)
    requires SortedBy(t, key)
    ensures var d := SwapRemove(t, Duplicates(t, key, |t|));
            && DistinctKeys(d, key)
            && multiset(d) <= multiset(t)
            && forall x :: x in t ==> exists y :: y in d && key(y) == key(x)
  {
    var d := SwapRemove(t, Duplicates(t, key, |t|));
    var f := Firsts(t, key, |t|);
    DedupeKeepsFirsts(t, key);
    FirstsDistinct(t, key);
    DistinctPermutes(f, d, key);
    forall x | x in t ensures exists y :: y in d && key(y) == key(x) {
      var i :| 0 <= i < |t| && t[i] == x;
      FirstsRepresent(t, key, |t|);
      RepresentedPermutes(f, d, key, key(t[i]));
    }
  }

  lemma RepresentedPermutes(f: seq<string>, d: seq<string>, key: string -> string, k: string)
    requires multiset(f) == multiset(d) && exists y :: y in f && key(y) == k
    ensures exists y :: y in d && key(y) == k
  {
    var y :| y in f && key(y) == k;
    assert y in multiset(f);
    assert y in d;
  }

  /** `stringArrayRemoveDuplicates` and its `NoCase` form; `sorted` is what the sort call leaves. */
  method RemoveDuplicates(a: array<string>, key: string -> string, sorted: seq<string>) returns (n: nat)
    requires multiset(sorted) == multiset(a[..]) && SortedBy(sorted, key)
    modifies a
    ensures n <= a.Length
    ensures DistinctKeys(a[..n], key)
    ensures multiset(a[..n]) <= multiset(old(a[..]))
    ensures forall x :: x in old(a[..]) ==> exists y :: y in a[..n] && key(y) == key(x)
  {
    if a.Length < 2 {
      assert a[..a.Length] == a[..];
      return a.Length;
    }
    SameLength(sorted, a[..]);
    ghost var before := a[..];
    forall i | 0 <= i < a.Length { a[i] := sorted[i]; }
    assert a[..] == sorted;
    var toRemove: seq<nat> := [];
    var prev := key(a[0]);
    var i := 1;
    while i < a.Length
      invariant 1 <= i <= a.Length && a[..] == sorted
      invariant prev == key(sorted[i - 1])
      invariant toRemove == Duplicates(sorted, key, i)
    {
      if key(a[i]) == prev {
        toRemove := toRemove + [i];
      } else {
        prev := key(a[i]);
      }
      i := i + 1;
    }
    DedupeExact(sorted, key);
    n := RemoveAtIndexes(a, toRemove);
    forall x | x in before ensures exists y :: y in a[..n] && key(y) == key(x) {
      assert x in multiset(sorted);
    }
  }

  lemma SameLength(s: seq<string>, t: seq<string>)
    requires multiset(s) == multiset(t)
    ensures |s| == |t|
  {
    assert |multiset(s)| == |multiset(t)|;
  }

  // ---- difference -----------------------------------------------------------------

  /** `stringArraySubtract`: collect, delete, list in the order the runtime walks the map. */
  method Subtract(a1: seq<string>, a2: seq<string>) returns (res: seq<string>)
    ensures forall x :: x in res <==> x in a1 && x !in a2
    ensures a2 == [] ==> res == a1
    ensures a2 != [] ==> forall i, j :: 0 <= i < j < |res| ==> res[i] != res[j]
  {
    if |a2| == 0 { return a1; }
    var diff: set<string> := {};
    var i := 0;
    while i < |a1|
      invariant 0 <= i <= |a1| && forall x :: x in diff <==> x in a1[..i]
    {
      assert a1[..i + 1] == a1[..i] + [a1[i]];
      diff := diff + {a1[i]};
      i := i + 1;
    }
    assert a1[..i] == a1;
    i := 0;
    while i < |a2|
      invariant 0 <= i <= |a2| && forall x :: x in diff <==> x in a1 && x !in a2[..i]
    {
      assert a2[..i + 1] == a2[..i] + [a2[i]];
      diff := diff - {a2[i]};
      i := i + 1;
    }
    assert a2[..i] == a2;
    res := [];
    ghost var all := diff;
    while diff != {}
      invariant diff <= all && forall x :: x in res <==> x in all - diff
      invariant forall l, m :: 0 <= l < m < |res| ==> res[l] != res[m]
      decreases diff
    {
      var k :| k in diff;
      assert k !in res;
      forall l | 0 <= l < |res| ensures res[l] != k { assert res[l] in res; }
      res := res + [k];
      diff := diff - {k};
    }
  }

  // ---- the known-missing ids ------------------------------------------------------

  /** `stringArrayContainsNoCase`. */
  predicate ContainsNoCase(a: seq<string>, s: string) {
    exists i :: 0 <= i < |a| && Text.EqualFold(a[i], s)
  }

  datatype MissingStep = Forget(id: string) | Remember(id: string)

  /** `knownMissingIds` after a run of deletes (`Remember`) and stores (`Forget`). */
  function MissingAfter(steps: seq<MissingStep>): seq<string> {
    if steps == [] then []
    else
      var before := MissingAfter(steps[..|steps| - 1]);
      match steps[|steps| - 1]
      case Remember(id) => before + [id]
      case Forget(id) => RemoveNoCase(before, id)
  }

  /** The set it stands for. */
  function MissingSet(steps: seq<MissingStep>): set<string> {
    if steps == [] then {}
    else
      var before := MissingSet(steps[..|steps| - 1]);
      match steps[|steps| - 1]
      case Remember(id) => before + {Text.Lower(id)}
      case Forget(id) => before - {Text.Lower(id)}
  }

  lemma RemoveNoCaseContains(a: seq<string>, s: string, id: string)
    ensures ContainsNoCase(RemoveNoCase(a, s), id) <==> ContainsNoCase(a, id) && !Text.EqualFold(s, id)
  {
    var p := x => Text.EqualFold(x, s);
    var b := RemoveNoCase(a, s);
    forall x ensures x in b <==> x in a && !p(x) { RemoveWhereKeeps(a, p, x); }
    if ContainsNoCase(b, id) {
      var i :| 0 <= i < |b| && Text.EqualFold(b[i], id);
      assert b[i] in b;
      var j :| 0 <= j < |a| && a[j] == b[i];
    }
    if ContainsNoCase(a, id) && !Text.EqualFold(s, id) {
      var i :| 0 <= i < |a| && Text.EqualFold(a[i], id);
      assert a[i] in b;
      var j :| 0 <= j < |b| && b[j] == a[i];
    }
  }

  /** Over any run the list answers as a case-insensitive set. */
  lemma {:induction false} MissingIsASet(steps: seq<MissingStep>, id: string)
    ensures ContainsNoCase(MissingAfter(steps), id) <==> Text.Lower(id) in MissingSet(steps)
  {
    if steps != [] {
      var rest := steps[..|steps| - 1];
      var before := MissingAfter(rest);
      MissingIsASet(rest, id);
      match steps[|steps| - 1]
      case Remember(x) =>
        if ContainsNoCase(before, id) {
          var i :| 0 <= i < |before| && Text.EqualFold(before[i], id);
          assert (before + [x])[i] == before[i];
        }
        assert (before + [x])[|before|] == x;
      case Forget(x) => RemoveNoCaseContains(before, x, id);
    }
  }
}
