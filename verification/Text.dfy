/** Strings as the client uses them: lower-casing of ids, byte order, sorting. */
module Text {

  function LowerChar(c: char): char {
    if 'A' <= c <= 'Z' then c - 'A' + 'a' else c
  }

  /** `strings.ToLower`, on ASCII. */
  function Lower(s: string): string {
    seq(|s|, i requires 0 <= i < |s| => LowerChar(s[i]))
  }

  /** `strings.EqualFold`, on ASCII. */
  predicate EqualFold(a: string, b: string) {
    Lower(a) == Lower(b)
  }

  /** `a < b` in the order of `sort.Strings`. */
  predicate Less(a: string, b: string) {
    if b == [] then false
    else if a == [] then true
    else a[0] < b[0] || (a[0] == b[0] && Less(a[1..], b[1..]))
  }

  /** The order of strings: after the longest common prefix one string ends, or has the smaller character. */
  lemma {:induction false} LessIsLexicographic(a: string, b: string)
    ensures Less(a, b) <==> exists i :: 0 <= i < |b| && i <= |a| && a[..i] == b[..i] && (i == |a| || a[i] < b[i])
  {
    if b == [] {
    } else if a == [] || a[0] < b[0] {
      assert a[..0] == b[..0];
    } else if a[0] == b[0] {
      LessIsLexicographic(a[1..], b[1..]);
      if Less(a, b) {
        var i :| 0 <= i < |b[1..]| && i <= |a[1..]| && a[1..][..i] == b[1..][..i] && (i == |a[1..]| || a[1..][i] < b[1..][i]);
        SamePrefix(a, b, i);
        assert 0 <= i + 1 < |b| && i + 1 <= |a| && a[..i + 1] == b[..i + 1] && (i + 1 == |a| || a[i + 1] < b[i + 1]);
      }
      if i :| 0 <= i < |b| && i <= |a| && a[..i] == b[..i] && (i == |a| || a[i] < b[i]) {
        assert i > 0;
        assert a[1..][..i - 1] == a[..i][1..] && b[1..][..i - 1] == b[..i][1..];
      }
    } else {
      forall i | 0 < i < |b| && i <= |a| ensures a[..i] != b[..i] { assert a[..i][0] != b[..i][0]; }
    }
  }

  lemma SamePrefix(a: string, b: string, i: nat)
    requires a != [] && b != [] && a[0] == b[0] && i < |a| && i < |b| && a[1..][..i] == b[1..][..i]
    ensures a[..i + 1] == b[..i + 1]
  {
    assert a[..i + 1] == [a[0]] + a[1..][..i] && b[..i + 1] == [b[0]] + b[1..][..i];
  }

  /** Letter case is folded for the letters A to Z, and for nothing else. */
  lemma EqualFoldExactly(a: string, b: string)
    ensures EqualFold(a, b) <==> |a| == |b| && forall i :: 0 <= i < |a| ==> SameLetter(a[i], b[i])
  {
    if EqualFold(a, b) {
      assert |Lower(a)| == |Lower(b)|;
      forall i | 0 <= i < |a| ensures SameLetter(a[i], b[i]) { assert Lower(a)[i] == Lower(b)[i]; }
    }
  }

  predicate SameLetter(x: char, y: char) {
    x == y || ('A' <= x <= 'Z' && y as int == x as int + 32) || ('A' <= y <= 'Z' && x as int == y as int + 32)
  }

  lemma {:induction false} LessIrreflexive(a: string)
    ensures !Less(a, a)
  {
    if a != [] { LessIrreflexive(a[1..]); }
  }

  lemma {:induction false} LessTransitive(a: string, b: string, c: string)
    requires Less(a, b) && Less(b, c)
    ensures Less(a, c)
  {
    if a != [] && a[0] == b[0] && b[0] == c[0] {
      LessTransitive(a[1..], b[1..], c[1..]);
    }
  }

  lemma {:induction false} LessTotal(a: string, b: string)
    ensures Less(a, b) || a == b || Less(b, a)
  {
    if a != [] && b != [] && a[0] == b[0] {
      LessTotal(a[1..], b[1..]);
      assert a == [a[0]] + a[1..] && b == [b[0]] + b[1..];
    }
  }

  ghost predicate StrictlySorted(s: seq<string>) {
    forall i, j :: 0 <= i < j < |s| ==> Less(s[i], s[j])
  }

  /** Insertion into a strictly sorted list of other strings. */
  function Insert(x: string, s: seq<string>): (r: seq<string>)
    ensures multiset(r) == multiset(s) + multiset{x}
  {
    if s == [] then [x]
    else if Less(x, s[0]) then [x] + s
    else
      assert s == [s[0]] + s[1..];
      [s[0]] + Insert(x, s[1..])
  }

  lemma {:induction false} InsertSorts(x: string, s: seq<string>)
    requires StrictlySorted(s) && x !in s
    ensures StrictlySorted(Insert(x, s))
  {
    if s == [] {
    } else if Less(x, s[0]) {
      forall j | 0 <= j < |s| ensures Less(x, s[j]) {
        if j > 0 { LessTransitive(x, s[0], s[j]); }
      }
    } else {
      LessTotal(x, s[0]);
      InsertSorts(x, s[1..]);
      var t := Insert(x, s[1..]);
      forall j | 0 <= j < |t| ensures Less(s[0], t[j]) {
        assert t[j] in multiset(t);
        assert t[j] == x || t[j] in multiset(s[1..]);
      }
    }
  }

  /** The elements of a finite set in the order of `sort.Strings`. */
  ghost function SortedSet(ks: set<string>): seq<string> {
    if ks == {} then [] else var k :| k in ks; Insert(k, SortedSet(ks - {k}))
  }

  lemma {:induction false} SortedSetProperties(ks: set<string>)
    ensures StrictlySorted(SortedSet(ks))
    ensures forall k :: k in SortedSet(ks) <==> k in ks
  {
    if ks != {} {
      var k :| k in ks && SortedSet(ks) == Insert(k, SortedSet(ks - {k}));
      SortedSetProperties(ks - {k});
      InsertSorts(k, SortedSet(ks - {k}));
      forall x ensures x in Insert(k, SortedSet(ks - {k})) <==> x in ks {
        assert x in Insert(k, SortedSet(ks - {k})) <==> x in multiset(Insert(k, SortedSet(ks - {k})));
        assert x in SortedSet(ks - {k}) <==> x in multiset(SortedSet(ks - {k}));
      }
    }
  }

  lemma HasElement(t: seq<string>)
    requires t != []
    ensures exists k :: k in t
  {
    assert t[0] in t;
  }

  /** A strictly sorted list is determined by its elements. */
  lemma {:induction false} SortedUnique(s: seq<string>, t: seq<string>)
    requires StrictlySorted(s) && StrictlySorted(t)
    requires forall k :: k in s <==> k in t
    ensures s == t
  {
    if s == [] {
      if t != [] { HasElement(t); }
    } else {
      assert s[0] in t;
      assert t != [];
      assert t[0] in s;
      var i :| 0 <= i < |t| && t[i] == s[0];
      var j :| 0 <= j < |s| && s[j] == t[0];
      if i > 0 && j > 0 {
        LessTransitive(s[0], s[j], s[0]);
        LessIrreflexive(s[0]);
        assert false;
      }
      assert s[0] == t[0];
      forall k ensures k in s[1..] <==> k in t[1..] {
        TailMembers(s, k);
        TailMembers(t, k);
      }
      SortedUnique(s[1..], t[1..]);
      assert s == [s[0]] + s[1..] && t == [t[0]] + t[1..];
    }
  }

  lemma TailMembers(s: seq<string>, k: string)
    requires s != [] && StrictlySorted(s)
    ensures k in s[1..] <==> k in s && k != s[0]
  {
    LessIrreflexive(s[0]);
    if k in s && k != s[0] {
      var i :| 0 <= i < |s| && s[i] == k;
      assert s[1..][i - 1] == k;
    }
  }

  /** Keys of a Go map, sorted (`getObjectNodeFieldNames`): the map is ranged over in any order. */
  method SortedKeys(keys: set<string>) returns (res: seq<string>)
    ensures res == SortedSet(keys)
  {
    var rest := keys;
    res := [];
    while rest != {}
      invariant rest <= keys && StrictlySorted(res)
      invariant forall k :: k in res <==> k in keys - rest
    {
      var k :| k in rest;
      InsertSorts(k, res);
      var next := Insert(k, res);
      forall x ensures x in next <==> x in keys - (rest - {k}) {
        assert x in next <==> x in multiset(next);
        assert x in res <==> x in multiset(res);
      }
      res := next;
      rest := rest - {k};
    }
    SortedSetProperties(keys);
    SortedUnique(res, SortedSet(keys));
  }
}
