/** Runs with users' parameters anywhere between the calls of a clause: they change names, and nothing else. */
module WhereRuns {
  import opened Wrappers
  import opened JsonDocs
  import opened WhereClause
  import opened WhereMeaning

  /** The calls of a run that build the clause. */
  function ClauseCalls(run: seq<Call>): seq<Call> {
    if run == [] then []
    else if run[0].ParameterCall? then ClauseCalls(run[1..])
    else [run[0]] + ClauseCalls(run[1..])
  }

  // ---- tokens that differ in their names only -------------------------------------

  /** Two tokens alike; with `bound`, their names lead to the same values. */
  ghost predicate AlikeToken(bound: bool, m: map<string, Json>, t: Token, m0: map<string, Json>, t0: Token) {
    if t.Where? then
      && t0.Where? && t.kind == t0.kind && t.field == t0.field
      && (bound ==> AllBound(m, t.names) && AllBound(m0, t0.names) && ValuesAt(m, t.names) == ValuesAt(m0, t0.names))
    else t0 == t
  }

  ghost predicate Alike(bound: bool, m: map<string, Json>, ts: seq<Token>, m0: map<string, Json>, ts0: seq<Token>) {
    |ts| == |ts0| && forall i :: 0 <= i < |ts| ==> AlikeToken(bound, m, ts[i], m0, ts0[i])
  }

  ghost predicate AlikeQuery(bound: bool, q: Query, q0: Query) {
    && q.negate == q0.negate && q.depth == q0.depth && q.default == q0.default
    && Alike(bound, q.parameters, q.tokens, q0.parameters, q0.tokens)
    && (bound ==> NamesFree(q.parameters) && NamesFree(q0.parameters))
  }

  lemma AlikeExtends(bound: bool, m: map<string, Json>, m': map<string, Json>, ts: seq<Token>, m0: map<string, Json>, m0': map<string, Json>, ts0: seq<Token>)
    requires Alike(bound, m, ts, m0, ts0) && (bound ==> Extends(m, m') && Extends(m0, m0'))
    ensures Alike(bound, m', ts, m0', ts0)
  {
    forall i | 0 <= i < |ts| ensures AlikeToken(bound, m', ts[i], m0', ts0[i]) {
      assert AlikeToken(bound, m, ts[i], m0, ts0[i]);
      if bound && ts[i].Where? {
        ValuesKept(m, m', ts[i].names);
        ValuesKept(m0, m0', ts0[i].names);
      }
    }
  }

  lemma AlikeAppend(bound: bool, m: map<string, Json>, ts: seq<Token>, t: Token, m0: map<string, Json>, ts0: seq<Token>, t0: Token)
    requires Alike(bound, m, ts, m0, ts0) && AlikeToken(bound, m, t, m0, t0)
    ensures Alike(bound, m, ts + [t], m0, ts0 + [t0])
  {
  }

  lemma AlikeAppendSame(bound: bool, q: Query, q0: Query, t: Token)
    requires AlikeQuery(bound, q, q0) && !t.Where?
    ensures AlikeQuery(bound, Append(q, t), Append(q0, t))
  {
    AlikeAppend(bound, q.parameters, q.tokens, t, q0.parameters, q0.tokens, t);
  }

  lemma {:induction false} AlikeSearch(bound: bool, m: map<string, Json>, ts: seq<Token>, m0: map<string, Json>, ts0: seq<Token>)
    requires Alike(bound, m, ts, m0, ts0)
    ensures LastIsSearch(ts) == LastIsSearch(ts0) && WantsOperator(ts) == WantsOperator(ts0)
    decreases |ts|
  {
    if ts != [] {
      var n := |ts| - 1;
      assert AlikeToken(bound, m, ts[n], m0, ts0[n]);
      AlikeSearch(bound, m, ts[..n], m0, ts0[..n]);
    }
  }

  lemma AlikeOperator(bound: bool, q: Query, q0: Query)
    requires AlikeQuery(bound, q, q0)
    ensures AlikeQuery(bound, WithOperator(q), WithOperator(q0))
  {
    AlikeSearch(bound, q.parameters, q.tokens, q0.parameters, q0.tokens);
  }

  lemma AlikePrefixes(bound: bool, q: Query, q0: Query)
    requires AlikeQuery(bound, q, q0)
    ensures AlikeQuery(bound, WithNegation(WithOperator(q)), WithNegation(WithOperator(q0)))
  {
    AlikeOperator(bound, q, q0);
  }

  lemma AlikeWhere(bound: bool, q: Query, q0: Query, kind: Kind, field: string, values: seq<Json>)
    requires AlikeQuery(bound, q, q0)
    ensures AlikeQuery(bound, DoWhere(q, kind, field, values), DoWhere(q0, kind, field, values))
  {
    var p := if IsEquality(kind) then WithOperator(q.(negate := false)) else WithNegation(WithOperator(q));
    var p0 := if IsEquality(kind) then WithOperator(q0.(negate := false)) else WithNegation(WithOperator(q0));
    AlikeOperator(bound, q.(negate := false), q0.(negate := false));
    AlikePrefixes(bound, q, q0);
    assert AlikeQuery(bound, p, p0);
    AlikeBind(bound, p, p0, if q.negate then Opposite(kind) else kind, field, values);
  }

  lemma AlikeBind(bound: bool, p: Query, p0: Query, kind: Kind, field: string, values: seq<Json>)
    requires AlikeQuery(bound, p, p0)
    ensures AlikeQuery(bound, Append(p, Where(kind, field, BoundNames(p.parameters, values))).(parameters := Bind(p.parameters, values)),
                              Append(p0, Where(kind, field, BoundNames(p0.parameters, values))).(parameters := Bind(p0.parameters, values)))
  {
    var m, m0 := Bind(p.parameters, values), Bind(p0.parameters, values);
    if bound {
      BindKeeps(p.parameters, values);
      BindKeeps(p0.parameters, values);
    }
    AlikeExtends(bound, p.parameters, m, p.tokens, p0.parameters, m0, p0.tokens);
    AlikeAppend(bound, m, p.tokens, Where(kind, field, BoundNames(p.parameters, values)),
                m0, p0.tokens, Where(kind, field, BoundNames(p0.parameters, values)));
  }

  /** A call of the clause does the same to both. */
  lemma AlikeStep(bound: bool, q: Query, q0: Query, c: Call)
    requires AlikeQuery(bound, q, q0) && !c.ParameterCall?
    ensures AlikeQuery(bound, Do(q, c), Do(q0, c))
  {
    match c
    case WhereCall(kind, field, values) => AlikeWhere(bound, q, q0, kind, field, values);
    case OperatorCall(op) => AlikeOperatorCall(bound, q, q0, op);
    case TrueCall => AlikeTrue(bound, q, q0);
    case OpenCall => AlikeOpen(bound, q, q0);
    case CloseCall => AlikeClose(bound, q, q0);
    case NotCall => AlikeState(bound, q, q0, q.depth, !q.negate);
  }

  lemma AlikeTrue(bound: bool, q: Query, q0: Query)
    requires AlikeQuery(bound, q, q0)
    ensures AlikeQuery(bound, Do(q, TrueCall), Do(q0, TrueCall))
  {
    AlikePrefixed(bound, q, q0, True);
  }

  lemma AlikeOpen(bound: bool, q: Query, q0: Query)
    requires AlikeQuery(bound, q, q0)
    ensures AlikeQuery(bound, Do(q, OpenCall), Do(q0, OpenCall))
  {
    AlikeState(bound, q, q0, q.depth + 1, q.negate);
    AlikePrefixed(bound, q.(depth := q.depth + 1), q0.(depth := q0.depth + 1), Open);
  }

  lemma AlikeClose(bound: bool, q: Query, q0: Query)
    requires AlikeQuery(bound, q, q0)
    ensures AlikeQuery(bound, Do(q, CloseCall), Do(q0, CloseCall))
  {
    AlikeState(bound, q, q0, q.depth - 1, q.negate);
    AlikeAppendSame(bound, q.(depth := q.depth - 1), q0.(depth := q0.depth - 1), Close);
  }

  lemma AlikeState(bound: bool, q: Query, q0: Query, depth: int, negate: bool)
    requires AlikeQuery(bound, q, q0)
    ensures AlikeQuery(bound, q.(depth := depth, negate := negate), q0.(depth := depth, negate := negate))
  {
  }

  lemma AlikeOperatorCall(bound: bool, q: Query, q0: Query, op: Operator)
    requires AlikeQuery(bound, q, q0)
    ensures AlikeQuery(bound, Do(q, OperatorCall(op)), Do(q0, OperatorCall(op)))
  {
    AlikeLast(bound, q, q0);
    AlikeAppendSame(bound, q, q0, Op(op));
  }

  lemma AlikePrefixed(bound: bool, q: Query, q0: Query, t: Token)
    requires AlikeQuery(bound, q, q0) && !t.Where?
    ensures AlikeQuery(bound, Append(WithNegation(WithOperator(q)), t), Append(WithNegation(WithOperator(q0)), t))
  {
    AlikePrefixes(bound, q, q0);
    AlikeAppendSame(bound, WithNegation(WithOperator(q)), WithNegation(WithOperator(q0)), t);
  }

  lemma AlikeLast(bound: bool, q: Query, q0: Query)
    requires AlikeQuery(bound, q, q0)
    ensures q.tokens == [] <==> q0.tokens == []
    ensures q.tokens != [] ==> (q.tokens[|q.tokens| - 1].Op? <==> q0.tokens[|q0.tokens| - 1].Op?)
  {
    if q.tokens != [] {
      var n := |q.tokens| - 1;
      assert AlikeToken(bound, q.parameters, q.tokens[n], q0.parameters, q0.tokens[n]);
    }
  }

  /** A user's parameter changes no token. */
  lemma AlikeParameter(bound: bool, q: Query, q0: Query, c: Call)
    requires AlikeQuery(bound, q, q0) && c.ParameterCall? && (bound ==> SafeCall(q, c))
    ensures AlikeQuery(bound, Do(q, c), q0)
  {
    if bound { DoKeepsParameters(q, c); }
    AlikeExtends(bound, q.parameters, Do(q, c).parameters, q.tokens, q0.parameters, q0.parameters, q0.tokens);
  }

  lemma {:induction false} AlikeRun(bound: bool, q: Query, q0: Query, run: seq<Call>)
    requires AlikeQuery(bound, q, q0) && (bound ==> SafeRun(q, run))
    ensures AlikeQuery(bound, DoAll(q, run), DoAll(q0, ClauseCalls(run)))
    decreases |run|
  {
    if run != [] {
      var c := run[0];
      if c.ParameterCall? {
        AlikeParameter(bound, q, q0, c);
        AlikeRun(bound, Do(q, c), q0, run[1..]);
      } else {
        AlikeStep(bound, q, q0, c);
        AlikeRun(bound, Do(q, c), Do(q0, c), run[1..]);
        assert ([c] + ClauseCalls(run[1..]))[1..] == ClauseCalls(run[1..]);
      }
    }
  }

  // ---- reading them ---------------------------------------------------------------

  ghost predicate AlikeItem(bound: bool, m: map<string, Json>, i: ReadItem, m0: map<string, Json>, i0: ReadItem)
    decreases i
  {
    match i
    case ReadWhere(negated, kind, field, names) =>
      && i0.ReadWhere? && i0.negated == negated
      && AlikeToken(bound, m, Where(kind, field, names), m0, Where(i0.kind, i0.field, i0.names))
    case ReadTrue(_) => i0 == i
    case ReadSub(negated, c) => i0.ReadSub? && i0.negated == negated && AlikeClause(bound, m, c, m0, i0.clause)
  }

  ghost predicate AlikeClause(bound: bool, m: map<string, Json>, c: ReadClause, m0: map<string, Json>, c0: ReadClause)
    decreases c
  {
    match c
    case ReadOne(i) => c0.ReadOne? && AlikeItem(bound, m, i, m0, c0.item)
    case ReadMore(i, op, rest) =>
      c0.ReadMore? && AlikeItem(bound, m, i, m0, c0.item) && c0.op == op && AlikeClause(bound, m, rest, m0, c0.rest)
  }

  lemma AlikeTail(bound: bool, m: map<string, Json>, ts: seq<Token>, m0: map<string, Json>, ts0: seq<Token>)
    requires Alike(bound, m, ts, m0, ts0) && ts != []
    ensures Alike(bound, m, ts[1..], m0, ts0[1..]) && AlikeToken(bound, m, ts[0], m0, ts0[0])
  {
  }

  lemma {:induction false} ReadAlikeItem(bound: bool, m: map<string, Json>, ts: seq<Token>, m0: map<string, Json>, ts0: seq<Token>)
    requires Alike(bound, m, ts, m0, ts0)
    ensures var r, r0 := ReadAnItem(ts), ReadAnItem(ts0);
            && (r.Some? <==> r0.Some?)
            && (r.Some? ==> AlikeItem(bound, m, r.value.0, m0, r0.value.0) && Alike(bound, m, r.value.1, m0, r0.value.1))
    decreases |ts|, 0
  {
    if ts != [] {
      AlikeTail(bound, m, ts, m0, ts0);
      var us := if ts[0].Not? then ts[1..] else ts;
      var us0 := if ts0[0].Not? then ts0[1..] else ts0;
      if us != [] {
        AlikeTail(bound, m, us, m0, us0);
        if us[0].Open? { ReadAlikeSub(bound, m, us[1..], m0, us0[1..]); }
      }
    }
  }

  lemma {:induction false} ReadAlikeSub(bound: bool, m: map<string, Json>, us: seq<Token>, m0: map<string, Json>, us0: seq<Token>)
    requires Alike(bound, m, us, m0, us0)
    ensures var c, c0 := ReadAClause(us), ReadAClause(us0);
            && (c.Some? <==> c0.Some?)
            && (c.Some? ==> AlikeClause(bound, m, c.value.0, m0, c0.value.0) && Alike(bound, m, c.value.1, m0, c0.value.1))
            && (c.Some? && c.value.1 != [] ==>
                  c0.value.1 != [] && (c.value.1[0].Close? <==> c0.value.1[0].Close?) && Alike(bound, m, c.value.1[1..], m0, c0.value.1[1..]))
    decreases |us|, 2
  {
    ReadAlike(bound, m, us, m0, us0);
    var c, c0 := ReadAClause(us), ReadAClause(us0);
    if c.Some? && c.value.1 != [] { AlikeTail(bound, m, c.value.1, m0, c0.value.1); }
  }

  lemma {:induction false} ReadAlike(bound: bool, m: map<string, Json>, ts: seq<Token>, m0: map<string, Json>, ts0: seq<Token>)
    requires Alike(bound, m, ts, m0, ts0)
    ensures var r, r0 := ReadAClause(ts), ReadAClause(ts0);
            && (r.Some? <==> r0.Some?)
            && (r.Some? ==> AlikeClause(bound, m, r.value.0, m0, r0.value.0) && Alike(bound, m, r.value.1, m0, r0.value.1))
    decreases |ts|, 1
  {
    ReadAlikeItem(bound, m, ts, m0, ts0);
    var i, i0 := ReadAnItem(ts), ReadAnItem(ts0);
    if i.Some? && i.value.1 != [] {
      AlikeTail(bound, m, i.value.1, m0, i0.value.1);
      if i.value.1[0].Op? { ReadAlike(bound, m, i.value.1[1..], m0, i0.value.1[1..]); }
    }
  }

  lemma {:induction false} AlikeItemMeaning(truth: Interpretation, m: map<string, Json>, i: ReadItem, m0: map<string, Json>, i0: ReadItem)
    requires AlikeItem(true, m, i, m0, i0)
    ensures MeaningOfItem(truth, m, i) == MeaningOfItem(truth, m0, i0)
    decreases i
  {
    if i.ReadSub? { AlikeMeaning(truth, m, i.clause, m0, i0.clause, true); }
  }

  lemma {:induction false} AlikeMeaning(truth: Interpretation, m: map<string, Json>, c: ReadClause, m0: map<string, Json>, c0: ReadClause, group: bool)
    requires AlikeClause(true, m, c, m0, c0)
    ensures Meaning(truth, m, c, group) == Meaning(truth, m0, c0, group)
    decreases c
  {
    AlikeItemMeaning(truth, m, c.item, m0, c0.item);
    if c.ReadMore? {
      AlikeMeaning(truth, m, c.rest, m0, c0.rest, true);
      AlikeMeaning(truth, m, c.rest, m0, c0.rest, group && MeaningOfItem(truth, m, c.item));
    }
  }

  // ---- the theorems ---------------------------------------------------------------

  /** The tokens of a run parse exactly if every `true` that is followed by an operand has its operator, and no
      subclause or negation is pending; users may add parameters anywhere. */
  lemma TokensParse(default: Operator, run: seq<Call>, c: Clause)
    requires ClauseCalls(run) == Calls(c)
    ensures var q := DoAll(Start(default), run);
            q.depth == 0 && !q.negate && (ReadBack(q.tokens).Some? <==> Disciplined(c))
  {
    var q, q0 := DoAll(Start(default), run), Alone(default, c);
    AlikeRun(false, Start(default), Start(default), run);
    AloneTokens(default, c);
    AloneParse(default, c);
    ReadAlike(false, q.parameters, q.tokens, q0.parameters, q0.tokens);
  }

  /** The tokens read back as the clause: after any disciplined run, with parameters of users anywhere in it, the clause
      read has the truth value of the clause described, also after further calls, if users supply safe names. */
  lemma TokensReadBack(truth: Interpretation, default: Operator, run: seq<Call>, c: Clause, later: seq<Call>)
    requires Faithful(truth) && Disciplined(c) && ClauseCalls(run) == Calls(c)
    requires SafeRun(Start(default), run) && SafeRun(DoAll(Start(default), run), later)
    ensures var q := DoAll(Start(default), run);
            && ReadBack(q.tokens).Some?
            && Meaning(truth, DoAll(q, later).parameters, ReadBack(q.tokens).value, true) == Truth(truth, c, true, false, default)
  {
    var q, q0 := DoAll(Start(default), run), Alone(default, c);
    var m := DoAll(q, later).parameters;
    AlikeRun(true, Start(default), Start(default), run);
    ParametersStay(q, later);
    AlikeExtends(true, q.parameters, m, q.tokens, q0.parameters, q0.parameters, q0.tokens);
    ReadAlike(true, m, q.tokens, q0.parameters, q0.tokens);
    AloneMeaning(truth, default, c);
    AlikeMeaning(truth, m, ReadBack(q.tokens).value, q0.parameters, ReadBack(q0.tokens).value, true);
  }
}
