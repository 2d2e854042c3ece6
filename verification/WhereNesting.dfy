/** Subclauses: what the depth check of a query decides, and what it does not. */
module WhereNesting {
  import opened JsonDocs
  import opened WhereClause
  import opened WhereMeaning

  // ---- the depth is a balance -----------------------------------------------------

  function Count(tokens: seq<Token>, t: Token): nat {
    if tokens == [] then 0 else Count(tokens[..|tokens| - 1], t) + if tokens[|tokens| - 1] == t then 1 else 0
  }

  /** Opened minus closed subclauses. */
  function Balance(ts: seq<Token>): int {
    Count(ts, Open) - Count(ts, Close)
  }

  lemma BalanceAfter(ts: seq<Token>, x: Token)
    ensures Balance(ts + [x]) == Balance(ts) + if x.Open? then 1 else if x.Close? then -1 else 0
  {
  }

  lemma PrefixBalance(q: Query)
    ensures Balance(WithOperator(q).tokens) == Balance(q.tokens) == Balance(WithNegation(q).tokens)
  {
  }

  lemma PrefixesBalance(q: Query)
    ensures Balance(WithNegation(WithOperator(q)).tokens) == Balance(q.tokens)
  {
    PrefixBalance(q);
    PrefixBalance(WithOperator(q));
  }

  lemma OpenDepth(q: Query)
    ensures Balance(Do(q, OpenCall).tokens) == Balance(q.tokens) + 1
  {
    var n := WithNegation(WithOperator(q.(depth := q.depth + 1)));
    PrefixesBalance(q.(depth := q.depth + 1));
    BalanceAfter(n.tokens, Open);
  }

  lemma TrueDepth(q: Query)
    ensures Balance(Do(q, TrueCall).tokens) == Balance(q.tokens)
  {
    PrefixesBalance(q);
    BalanceAfter(WithNegation(WithOperator(q)).tokens, True);
  }

  lemma DoDepth(q: Query, c: Call)
    ensures Do(q, c).depth - q.depth == Balance(Do(q, c).tokens) - Balance(q.tokens)
  {
    match c
    case WhereCall(kind, field, values) => WhereDepth(q, kind, field, values);
    case TrueCall => TrueDepth(q);
    case OpenCall => OpenDepth(q);
    case CloseCall => BalanceAfter(q.tokens, Close);
    case OperatorCall(op) => BalanceAfter(q.tokens, Op(op));
    case NotCall =>
    case ParameterCall(_, _) =>
  }

  lemma WhereDepth(q: Query, kind: Kind, field: string, values: seq<Json>)
    ensures DoWhere(q, kind, field, values).depth == q.depth && Balance(DoWhere(q, kind, field, values).tokens) == Balance(q.tokens)
  {
    var x := Where(if q.negate then Opposite(kind) else kind, field, BoundNames(q.parameters, values));
    var q' := if IsEquality(kind) then WithOperator(q.(negate := false)) else WithNegation(WithOperator(q));
    PrefixBalance(q.(negate := false));
    PrefixesBalance(q);
    BalanceAfter(q'.tokens, x);
  }

  /** The check of `string()` passes exactly if as many subclauses were closed as opened ... */
  lemma {:induction false} DepthCounts(q: Query, calls: seq<Call>)
    requires q.depth == Balance(q.tokens)
    ensures DoAll(q, calls).depth == Balance(DoAll(q, calls).tokens)
    decreases |calls|
  {
    if calls != [] {
      DoDepth(q, calls[0]);
      DepthCounts(Do(q, calls[0]), calls[1..]);
    }
  }

  /** ... in whatever order: a clause closed before it is opened passes, and does not parse. */
  lemma DepthCheckMisses(default: Operator)
    ensures var q := DoAll(Start(default), [CloseCall, OpenCall]);
            q.depth == 0 && q.tokens == [Close, Op(default), Open] && ReadBack(q.tokens).None?
  {
    DoTwo(Start(default), CloseCall, OpenCall);
    var q1 := Do(Start(default), CloseCall);
    assert q1.tokens == [Close];
    LastAfter([], Close);
    assert [] + [Close] == [Close];
    CloseNeverReads(Do(q1, OpenCall).tokens);
  }

  lemma DoTwo(q: Query, a: Call, b: Call)
    ensures DoAll(q, [a, b]) == Do(Do(q, a), b)
  {
    assert [a, b][1..] == [b];
    DoOne(Do(q, a), b);
  }

  lemma CloseNeverReads(ts: seq<Token>)
    requires ts != [] && ts[0].Close?
    ensures ReadBack(ts).None?
  {
    assert ReadAnItem(ts).None?;
  }

  // ---- when it means proper nesting -----------------------------------------------

  /** Every subclause that is opened is closed after it, and the other way round. */
  ghost predicate Nested(ts: seq<Token>)
    decreases |ts|
  {
    || ts == []
    || (!ts[0].Open? && !ts[0].Close? && Nested(ts[1..]))
    || (ts[0].Open? && exists j :: 0 < j < |ts| && ts[j].Close? && Nested(ts[1..j]) && Nested(ts[j + 1..]))
  }

  lemma {:induction false} BalanceSplit(a: seq<Token>, b: seq<Token>)
    ensures Balance(a + b) == Balance(a) + Balance(b)
    decreases |b|
  {
    if b == [] {
      assert a + b == a;
    } else {
      var n := |b| - 1;
      BalanceSplit(a, b[..n]);
      BalanceAfter(a + b[..n], b[n]);
      BalanceAfter(b[..n], b[n]);
      assert a + b == a + b[..n] + [b[n]] && b == b[..n] + [b[n]];
    }
  }

  /** No prefix from a position on closes more than it opens. */
  ghost predicate NeverNegative(ts: seq<Token>, from: nat) {
    forall i :: from <= i <= |ts| ==> Balance(ts[..i]) >= 0
  }

  lemma PrefixBalance2(ts: seq<Token>, i: nat, j: nat)
    requires i <= j <= |ts|
    ensures Balance(ts[..j]) == Balance(ts[..i]) + Balance(ts[i..j])
  {
    assert ts[..j] == ts[..i] + ts[i..j];
    BalanceSplit(ts[..i], ts[i..j]);
  }

  lemma FirstBalance(ts: seq<Token>)
    requires ts != []
    ensures Balance(ts[..1]) == if ts[0].Open? then 1 else if ts[0].Close? then -1 else 0
  {
    assert ts[..1] == [] + [ts[0]];
    BalanceAfter([], ts[0]);
  }

  ghost predicate Balanced(ts: seq<Token>) {
    Balance(ts) == 0 && NeverNegative(ts, 0)
  }

  lemma NeutralFirst(ts: seq<Token>)
    requires ts != [] && !ts[0].Open? && !ts[0].Close? && Balanced(ts[1..])
    ensures Balanced(ts)
  {
    FirstBalance(ts);
    assert ts[..0] == [];
    TailBalanced(ts, 1, 0);
  }

  lemma BracketFirst(ts: seq<Token>, j: nat)
    requires 0 < j < |ts| && ts[0].Open? && ts[j].Close? && Balanced(ts[1..j]) && Balanced(ts[j + 1..])
    ensures Balanced(ts)
  {
    InsideBalanced(ts, j);
    TailBalanced(ts, j + 1, 0);
  }

  lemma {:induction false} NestedIsBalanced(ts: seq<Token>)
    requires Nested(ts)
    ensures Balanced(ts)
    decreases |ts|
  {
    if ts != [] {
      if !ts[0].Open? {
        NestedIsBalanced(ts[1..]);
        NeutralFirst(ts);
      } else {
        var j :| 0 < j < |ts| && ts[j].Close? && Nested(ts[1..j]) && Nested(ts[j + 1..]);
        NestedIsBalanced(ts[1..j]);
        NestedIsBalanced(ts[j + 1..]);
        BracketFirst(ts, j);
      }
    }
  }

  /** A balanced rest after a prefix that is balanced. */
  lemma TailBalanced(ts: seq<Token>, k: nat, d: int)
    requires k <= |ts| && Balance(ts[..k]) == d >= 0 && (forall i :: 0 <= i <= k ==> Balance(ts[..i]) >= 0)
    requires Balance(ts[k..]) == 0 && NeverNegative(ts[k..], 0)
    ensures Balance(ts) == d && NeverNegative(ts, 0)
  {
    assert ts[..|ts|] == ts && ts[k..|ts|] == ts[k..];
    PrefixBalance2(ts, k, |ts|);
    forall i | k < i <= |ts| ensures Balance(ts[..i]) >= 0 {
      PrefixBalance2(ts, k, i);
      assert ts[k..i] == ts[k..][..i - k];
    }
  }

  lemma InsideBalanced(ts: seq<Token>, j: nat)
    requires 0 < j < |ts| && ts[0].Open? && ts[j].Close? && Balance(ts[1..j]) == 0 && NeverNegative(ts[1..j], 0)
    ensures Balance(ts[..j + 1]) == 0 && forall i :: 0 <= i <= j + 1 ==> Balance(ts[..i]) >= 0
  {
    FirstBalance(ts);
    forall i | 1 <= i <= j ensures Balance(ts[..i]) == 1 + Balance(ts[1..i]) && Balance(ts[1..i]) >= 0 {
      PrefixBalance2(ts, 1, i);
      assert ts[1..i] == ts[1..j][..i - 1];
    }
    assert ts[..j + 1] == ts[..j] + [ts[j]];
    BalanceAfter(ts[..j], ts[j]);
  }

  /** Where the first subclause ends. */
  lemma {:induction false} FirstReturn(ts: seq<Token>, k: nat) returns (j: nat)
    requires 0 < k <= |ts| && Balance(ts) == 0 && NeverNegative(ts, 0) && forall i :: 0 < i <= k ==> Balance(ts[..i]) > 0
    ensures k <= j < |ts| && Balance(ts[..j + 1]) == 0 && forall i :: 0 < i <= j ==> Balance(ts[..i]) > 0
    decreases |ts| - k
  {
    assert ts[..|ts|] == ts;
    assert k < |ts|;
    if Balance(ts[..k + 1]) == 0 {
      j := k;
    } else {
      j := FirstReturn(ts, k + 1);
    }
  }

  lemma PartBalanced(ts: seq<Token>, lo: nat, hi: nat)
    requires lo <= hi <= |ts| && Balance(ts[..lo]) == Balance(ts[..hi]) && forall i :: lo <= i <= hi ==> Balance(ts[..i]) >= Balance(ts[..lo])
    ensures Balance(ts[lo..hi]) == 0 && NeverNegative(ts[lo..hi], 0)
  {
    PrefixBalance2(ts, lo, hi);
    forall i | 0 <= i <= |ts[lo..hi]| ensures Balance(ts[lo..hi][..i]) >= 0 {
      PrefixBalance2(ts, lo, lo + i);
      assert ts[lo..hi][..i] == ts[lo..lo + i];
    }
  }

  lemma {:induction false} BalancedIsNested(ts: seq<Token>)
    requires Balanced(ts)
    ensures Nested(ts)
    decreases |ts|
  {
    if ts != [] {
      FirstBalance(ts);
      assert Balance(ts[..1]) >= 0;
      assert ts[..|ts|] == ts && ts[..0] == [];
      if !ts[0].Open? {
        PartBalanced(ts, 1, |ts|);
        assert ts[1..|ts|] == ts[1..];
        BalancedIsNested(ts[1..]);
      } else {
        var j := FirstReturn(ts, 1);
        assert ts[..j + 1] == ts[..j] + [ts[j]];
        BalanceAfter(ts[..j], ts[j]);
        PartBalanced(ts, 1, j);
        PartBalanced(ts, j + 1, |ts|);
        assert ts[j + 1..|ts|] == ts[j + 1..];
        BalancedIsNested(ts[1..j]);
        BalancedIsNested(ts[j + 1..]);
      }
    }
  }

  /** Tokens are appended, and a bracket only as the last of them. */
  ghost predicate Appends(a: seq<Token>, t: seq<Token>) {
    a <= t && forall i :: |a| <= i < |t| ==> Balance(t[..i]) == Balance(a)
  }

  lemma AppendsOne(a: seq<Token>, t: seq<Token>, x: Token)
    requires Appends(a, t) && Balance(t) == Balance(a)
    ensures Appends(a, t + [x])
  {
    forall i | |a| <= i < |t + [x]| ensures Balance((t + [x])[..i]) == Balance(a) {
      assert (t + [x])[..i] == if i < |t| then t[..i] else t;
    }
  }

  lemma AppendsNone(a: seq<Token>)
    ensures Appends(a, a)
  {
  }

  lemma PrefixedAppends(q: Query, x: Token)
    ensures Appends(q.tokens, Append(WithNegation(WithOperator(q)), x).tokens)
  {
    var w := WithOperator(q);
    PrefixBalance(q);
    PrefixesBalance(q);
    AppendsNone(q.tokens);
    AppendsOne(q.tokens, q.tokens, Op(Missing(q.tokens, q.default)));
    AppendsOne(q.tokens, w.tokens, Not);
    AppendsOne(q.tokens, WithNegation(w).tokens, x);
  }

  lemma DoAppends(q: Query, c: Call)
    ensures Appends(q.tokens, Do(q, c).tokens)
  {
    AppendsNone(q.tokens);
    match c
    case WhereCall(kind, field, values) =>
      var x := Where(if q.negate then Opposite(kind) else kind, field, BoundNames(q.parameters, values));
      PrefixedAppends(if IsEquality(kind) then q.(negate := false) else q, x);
    case TrueCall => PrefixedAppends(q, True);
    case OpenCall => PrefixedAppends(q.(depth := q.depth + 1), Open);
    case CloseCall => AppendsOne(q.tokens, q.tokens, Close);
    case OperatorCall(op) => AppendsOne(q.tokens, q.tokens, Op(op));
    case NotCall =>
    case ParameterCall(_, _) =>
  }

  /** The depth never goes below zero while the calls are made. */
  ghost predicate DepthStays(q: Query, calls: seq<Call>)
    decreases |calls|
  {
    q.depth >= 0 && (calls != [] ==> DepthStays(Do(q, calls[0]), calls[1..]))
  }

  lemma {:induction false} DepthStaysAt(q: Query, calls: seq<Call>)
    ensures DepthStays(q, calls) <==> forall i :: 0 <= i <= |calls| ==> DoAll(q, calls[..i]).depth >= 0
    decreases |calls|
  {
    if calls == [] {
      assert calls[..0] == [];
    } else {
      var q1, rest := Do(q, calls[0]), calls[1..];
      DepthStaysAt(q1, rest);
      assert calls[..0] == [];
      forall i | 1 <= i <= |calls| ensures DoAll(q, calls[..i]) == DoAll(q1, rest[..i - 1]) {
        assert calls[..i][0] == calls[0] && calls[..i][1..] == rest[..i - 1];
      }
      if forall i :: 0 <= i <= |calls| ==> DoAll(q, calls[..i]).depth >= 0 {
        forall i | 0 <= i <= |rest| ensures DoAll(q1, rest[..i]).depth >= 0 {
          assert DoAll(q, calls[..i + 1]).depth >= 0;
        }
      }
    }
  }

  lemma {:induction false} PrefixesOfRun(q: Query, calls: seq<Call>)
    requires q.depth == Balance(q.tokens)
    ensures q.tokens <= DoAll(q, calls).tokens
    ensures NeverNegative(DoAll(q, calls).tokens, |q.tokens|) <==> DepthStays(q, calls)
    decreases |calls|
  {
    var t := DoAll(q, calls).tokens;
    if calls == [] {
      assert t[..|t|] == t;
    } else {
      var q1 := Do(q, calls[0]);
      DoDepth(q, calls[0]);
      DoAppends(q, calls[0]);
      PrefixesOfRun(q1, calls[1..]);
      NegativeSplit(q.tokens, q1.tokens, t);
    }
  }

  lemma NegativeSplit(a: seq<Token>, b: seq<Token>, t: seq<Token>)
    requires Appends(a, b) && b <= t
    ensures NeverNegative(t, |a|) <==> Balance(a) >= 0 && NeverNegative(t, |b|)
  {
    assert t[..|a|] == a && t[..|b|] == b;
    forall i | |a| <= i < |b| ensures t[..i] == b[..i] { }
    if Balance(a) >= 0 && NeverNegative(t, |b|) {
      forall i | |a| <= i <= |t| ensures Balance(t[..i]) >= 0 { if i < |b| { assert t[..i] == b[..i]; } }
    }
  }

  /** The subclauses of a run are properly nested exactly if its final depth is zero and no prefix of the run has a
      negative depth. */
  lemma NestedExactly(default: Operator, calls: seq<Call>)
    ensures var q := DoAll(Start(default), calls);
            Nested(q.tokens) <==> q.depth == 0 && forall i :: 0 <= i <= |calls| ==> DoAll(Start(default), calls[..i]).depth >= 0
  {
    var s := Start(default);
    var q := DoAll(s, calls);
    DepthCounts(s, calls);
    PrefixesOfRun(s, calls);
    DepthStaysAt(s, calls);
    if Nested(q.tokens) { NestedIsBalanced(q.tokens); }
    if Balanced(q.tokens) { BalancedIsNested(q.tokens); }
  }
}
