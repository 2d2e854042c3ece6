/** The where clause of a query: the calls, the flat token list, and the clause the tokens read back as. */
module WhereClause {
  import opened JsonDocs
  import Decimal

  datatype Operator = And | Or

  /** The comparison of a where token; `Plain` stands for every operator that is treated like all others. */
  datatype Kind = Equals | NotEquals | Search | Plain(name: string)

  datatype Token =
    | Where(kind: Kind, field: string, names: seq<string>)
    | True
    | Open
    | Close
    | Op(op: Operator)
    | Not

  datatype Call =
    | WhereCall(kind: Kind, field: string, values: seq<Json>)
    | TrueCall
    | OpenCall
    | CloseCall
    | OperatorCall(op: Operator)   // andAlso, orElse
    | NotCall                      // negateNext
    | ParameterCall(name: string, value: Json)

  datatype Query = Query(
    tokens: seq<Token>,
    negate: bool,
    depth: int,
    parameters: map<string, Json>,
    default: Operator)

  // ---- what the calls do ----------------------------------------------------------

  function Name(n: nat): string {
    "p" + Decimal.Digits(n)
  }

  function Opposite(k: Kind): Kind {
    if k.Equals? then NotEquals else if k.NotEquals? then Equals else k
  }

  predicate IsEquality(k: Kind) {
    k.Equals? || k.NotEquals?
  }

  /** Whether the last where token is a search, looking back over everything else. */
  predicate LastIsSearch(tokens: seq<Token>) {
    if tokens == [] then false
    else
      var t := tokens[|tokens| - 1];
      if t.Where? then t.kind.Search? else LastIsSearch(tokens[..|tokens| - 1])
  }

  /** Only a where token or a closed subclause asks for an operator. */
  predicate WantsOperator(tokens: seq<Token>) {
    tokens != [] && (tokens[|tokens| - 1].Where? || tokens[|tokens| - 1].Close?)
  }

  function Missing(tokens: seq<Token>, default: Operator): Operator {
    if LastIsSearch(tokens) then Or else default
  }

  /** `appendOperatorIfNeeded`. */
  function WithOperator(q: Query): Query {
    if WantsOperator(q.tokens) then q.(tokens := q.tokens + [Op(Missing(q.tokens, q.default))]) else q
  }

  /** `negateIfNeeded`: whatever it appends before, only `not` remains. */
  function WithNegation(q: Query): Query {
    if q.negate then q.(tokens := q.tokens + [Not], negate := false) else q
  }

  function Append(q: Query, t: Token): Query {
    q.(tokens := q.tokens + [t])
  }

  /** `addQueryParameter`, for each value in turn. */
  function Bind(parameters: map<string, Json>, values: seq<Json>): map<string, Json>
    decreases |values|
  {
    if values == [] then parameters else Bind(parameters[Name(|parameters|) := values[0]], values[1..])
  }

  function BoundNames(parameters: map<string, Json>, values: seq<Json>): (names: seq<string>)
    decreases |values|
  {
    if values == [] then []
    else [Name(|parameters|)] + BoundNames(parameters[Name(|parameters|) := values[0]], values[1..])
  }

  /** The where methods: the two equalities take a pending negation over, the others are preceded by `not`. */
  function DoWhere(q: Query, kind: Kind, field: string, values: seq<Json>): Query {
    var kind' := if q.negate then Opposite(kind) else kind;
    var q' := if IsEquality(kind) then WithOperator(q.(negate := false)) else WithNegation(WithOperator(q));
    Append(q', Where(kind', field, BoundNames(q.parameters, values))).(parameters := Bind(q.parameters, values))
  }

  /** `addParameter` takes one leading dollar sign off. */
  function Stripped(name: string): string {
    if name != "" && name[0] == '$' then name[1..] else name
  }

  /** One call; a refused call changes nothing. */
  function Do(q: Query, c: Call): Query {
    match c
    case WhereCall(kind, field, values) => DoWhere(q, kind, field, values)
    case TrueCall => Append(WithNegation(WithOperator(q)), True)
    case OpenCall => Append(WithNegation(WithOperator(q.(depth := q.depth + 1))), Open)
    case CloseCall => Append(q.(depth := q.depth - 1), Close)
    case OperatorCall(op) => if q.tokens == [] || q.tokens[|q.tokens| - 1].Op? then q else Append(q, Op(op))
    case NotCall => q.(negate := !q.negate)
    case ParameterCall(name, value) =>
      var n := Stripped(name);
      if n in q.parameters then q else q.(parameters := q.parameters[n := value])
  }

  function DoAll(q: Query, calls: seq<Call>): Query
    decreases |calls|
  {
    if calls == [] then q else DoAll(Do(q, calls[0]), calls[1..])
  }

  function Start(default: Operator): Query {
    Query([], false, 0, map[], default)
  }

  lemma {:induction false} DoAppend(q: Query, a: seq<Call>, b: seq<Call>)
    ensures DoAll(q, a + b) == DoAll(DoAll(q, a), b)
    decreases |a|
  {
    if a == [] {
      assert a + b == b;
    } else {
      var q' := Do(q, a[0]);
      assert (a + b)[0] == a[0] && (a + b)[1..] == a[1..] + b;
      DoAppend(q', a[1..], b);
    }
  }

  // ---- parameters -----------------------------------------------------------------

  /** The names still to be given out are free. */
  ghost predicate NamesFree(parameters: map<string, Json>) {
    forall n: nat :: n >= |parameters| ==> Name(n) !in parameters
  }

  ghost predicate Extends(a: map<string, Json>, b: map<string, Json>) {
    forall k :: k in a ==> k in b && b[k] == a[k]
  }

  lemma NamesDiffer(m: nat, n: nat)
    requires Name(m) == Name(n)
    ensures m == n
  {
    assert Name(m)[1..] == Decimal.Digits(m) && Name(n)[1..] == Decimal.Digits(n);
    Decimal.DigitsInjective(m, n);
  }

  lemma NewKey(m: map<string, Json>, k: string, v: Json)
    requires k !in m
    ensures |m[k := v]| == |m| + 1 && Extends(m, m[k := v])
  {
  }

  lemma BindOne(m: map<string, Json>, v: Json)
    requires NamesFree(m)
    ensures var m' := m[Name(|m|) := v]; |m'| == |m| + 1 && NamesFree(m') && Extends(m, m')
  {
    NewKey(m, Name(|m|), v);
    var m' := m[Name(|m|) := v];
    forall n: nat | n >= |m'| ensures Name(n) !in m' {
      if Name(n) == Name(|m|) { NamesDiffer(n, |m|); }
    }
  }

  /** The values looked up under the names of a token. */
  function ValuesAt(m: map<string, Json>, names: seq<string>): (vs: seq<Json>)
    ensures |vs| == |names|
  {
    if names == [] then [] else [if names[0] in m then m[names[0]] else Null] + ValuesAt(m, names[1..])
  }

  ghost predicate AllBound(m: map<string, Json>, names: seq<string>) {
    forall i :: 0 <= i < |names| ==> names[i] in m
  }

  lemma {:induction false} ValuesKept(m: map<string, Json>, m': map<string, Json>, names: seq<string>)
    requires Extends(m, m') && AllBound(m, names)
    ensures AllBound(m', names) && ValuesAt(m', names) == ValuesAt(m, names)
  {
    if names != [] {
      assert names[0] in m;
      forall i | 0 <= i < |names[1..]| ensures names[1..][i] in m { assert names[1..][i] == names[i + 1]; }
      ValuesKept(m, m', names[1..]);
    }
  }

  /** Each name a where token gets is bound to its value, and no earlier binding is lost. */
  lemma {:induction false} BindKeeps(m: map<string, Json>, values: seq<Json>)
    requires NamesFree(m)
    ensures var m' := Bind(m, values); var names := BoundNames(m, values);
            && NamesFree(m') && Extends(m, m') && AllBound(m', names) && ValuesAt(m', names) == values
    decreases |values|
  {
    if values != [] {
      var m1 := m[Name(|m|) := values[0]];
      BindOne(m, values[0]);
      BindKeeps(m1, values[1..]);
      var m' := Bind(m, values);
      var names := BoundNames(m, values);
      assert names[0] in m1;
      assert names[1..] == BoundNames(m1, values[1..]);
      forall i | 0 <= i < |names| ensures names[i] in m' {
        if i > 0 { assert names[i] == names[1..][i - 1]; }
      }
    }
  }

  // ---- which names a user may supply ----------------------------------------------

  /** A new name that no later where call will give out. */
  ghost predicate SafeName(m: map<string, Json>, name: string) {
    forall n: nat :: n > |m| ==> name != Name(n)
  }

  ghost predicate SafeCall(q: Query, c: Call) {
    c.ParameterCall? && Stripped(c.name) !in q.parameters ==> SafeName(q.parameters, Stripped(c.name))
  }

  ghost predicate SafeRun(q: Query, calls: seq<Call>)
    decreases |calls|
  {
    calls != [] ==> SafeCall(q, calls[0]) && SafeRun(Do(q, calls[0]), calls[1..])
  }

  /** Adding a name keeps the names to come free exactly if it is safe. */
  lemma AddExact(m: map<string, Json>, name: string, value: Json)
    requires NamesFree(m) && name !in m
    ensures NamesFree(m[name := value]) <==> SafeName(m, name)
  {
    NewKey(m, name, value);
    var m' := m[name := value];
    if NamesFree(m') {
      forall n: nat | n > |m| ensures name != Name(n) { assert Name(n) !in m'; }
    }
  }

  function Nulls(n: nat): seq<Json> {
    if n == 0 then [] else [Null] + Nulls(n - 1)
  }

  /** The first reserved name that is taken is overwritten once the numbers reach it. */
  lemma {:induction false} Overwrites(m: map<string, Json>, n: nat, v: Json)
    requires n >= |m| && forall i: nat :: |m| <= i < n ==> Name(i) !in m
    ensures var b := Bind(m, Nulls(n - |m|) + [v]); Name(n) in b && b[Name(n)] == v
    decreases n - |m|
  {
    var values := Nulls(n - |m|) + [v];
    var m1 := m[Name(|m|) := values[0]];
    if n == |m| {
      assert values == [v] && values[1..] == [];
      assert Bind(m, values) == Bind(m1, []);
    } else {
      NewKey(m, Name(|m|), Null);
      assert values[1..] == Nulls(n - |m1|) + [v];
      forall i: nat | |m1| <= i < n ensures Name(i) !in m1 {
        if Name(i) == Name(|m|) { NamesDiffer(i, |m|); }
      }
      Overwrites(m1, n, v);
    }
  }

  lemma {:induction false} LeastTaken(m: map<string, Json>, n: nat, from: nat) returns (l: nat)
    requires from <= n && Name(n) in m
    ensures from <= l <= n && Name(l) in m && forall i: nat :: from <= i < l ==> Name(i) !in m
    decreases n - from
  {
    if Name(from) in m {
      l := from;
    } else {
      l := LeastTaken(m, n, from + 1);
    }
  }

  /** Where calls never overwrite a binding exactly if the names to come are free. */
  lemma BindExact(m: map<string, Json>)
    ensures (forall values :: Extends(m, Bind(m, values))) <==> NamesFree(m)
  {
    if NamesFree(m) {
      forall values ensures Extends(m, Bind(m, values)) { BindKeeps(m, values); }
    } else {
      var n: nat :| n >= |m| && Name(n) in m;
      var l := LeastTaken(m, n, |m|);
      var v := if m[Name(l)] == Null then Bool(true) else Null;
      Overwrites(m, l, v);
      assert !Extends(m, Bind(m, Nulls(l - |m|) + [v]));
    }
  }

  /** The exact condition on a user's name: after adding it, where calls never overwrite a binding if and only if it
      is not `p<n>` with `n` above the number of parameters so far. */
  lemma UserNameExact(q: Query, name: string, value: Json)
    requires NamesFree(q.parameters) && Stripped(name) !in q.parameters
    ensures var m := Do(q, ParameterCall(name, value)).parameters;
            (forall values :: Extends(m, Bind(m, values))) <==> SafeName(q.parameters, Stripped(name))
  {
    AddExact(q.parameters, Stripped(name), value);
    BindExact(Do(q, ParameterCall(name, value)).parameters);
  }

  lemma DoKeepsParameters(q: Query, c: Call)
    requires NamesFree(q.parameters) && SafeCall(q, c)
    ensures NamesFree(Do(q, c).parameters) && Extends(q.parameters, Do(q, c).parameters)
  {
    match c
    case WhereCall(_, _, values) => BindKeeps(q.parameters, values);
    case ParameterCall(name, value) =>
      if Stripped(name) !in q.parameters {
        AddExact(q.parameters, Stripped(name), value);
        NewKey(q.parameters, Stripped(name), value);
      }
    case _ =>
  }

  /** Whatever is called, no binding is lost as long as users supply safe names. */
  lemma {:induction false} ParametersStay(q: Query, calls: seq<Call>)
    requires NamesFree(q.parameters) && SafeRun(q, calls)
    ensures NamesFree(DoAll(q, calls).parameters) && Extends(q.parameters, DoAll(q, calls).parameters)
    decreases |calls|
  {
    if calls != [] {
      DoKeepsParameters(q, calls[0]);
      ParametersStay(Do(q, calls[0]), calls[1..]);
    }
  }

  lemma WhereStaysBound(q: Query, kind: Kind, field: string, values: seq<Json>, calls: seq<Call>)
    requires NamesFree(q.parameters) && SafeRun(DoWhere(q, kind, field, values), calls)
    ensures var q1 := DoWhere(q, kind, field, values);
            var t := q1.tokens[|q1.tokens| - 1];
            t.Where? && ValuesAt(DoAll(q1, calls).parameters, t.names) == values
  {
    BindKeeps(q.parameters, values);
    var q1 := DoWhere(q, kind, field, values);
    ParametersStay(q1, calls);
    ValuesKept(q1.parameters, DoAll(q1, calls).parameters, BoundNames(q.parameters, values));
  }

  /** A user's own `p1`, with or without a dollar sign, is overwritten by the first where call ... */
  lemma UserNameOverwritten(default: Operator, name: string, mine: Json, v: Json)
    requires mine != v && (name == "p1" || name == "$p1")
    ensures var q := Do(Do(Start(default), ParameterCall(name, mine)), WhereCall(Equals, "f", [v]));
            "p1" in q.parameters && q.parameters["p1"] == v
  {
    assert Stripped(name) == "p1";
    var q1 := Do(Start(default), ParameterCall(name, mine));
    assert |q1.parameters| == 1 by { NewKey(map[], "p1", mine); }
    assert Decimal.Digits(1) == "1";
    assert Name(1) == "p1";
    assert Bind(q1.parameters, [v]) == Bind(q1.parameters["p1" := v], [v][1..]);
  }

  /** ... while a `p0` supplied first never is. */
  lemma FirstNameSafe()
    ensures SafeName(map[], "p0")
  {
    assert Decimal.Digits(0) == "0";
    forall n: nat | n > 0 ensures "p0" != Name(n) {
      if Name(n) == Name(0) { NamesDiffer(n, 0); }
    }
  }

  // ---- operators stand apart ------------------------------------------------------

  ghost predicate Spaced(tokens: seq<Token>) {
    && (tokens != [] ==> !tokens[0].Op?)
    && forall i :: 0 <= i < |tokens| - 1 ==> !tokens[i].Op? || !tokens[i + 1].Op?
  }

  lemma SpacedAppend(tokens: seq<Token>, t: Token)
    requires Spaced(tokens) && (t.Op? ==> tokens != [] && !tokens[|tokens| - 1].Op?)
    ensures Spaced(tokens + [t])
  {
  }

  lemma SpacedPrefixes(q: Query)
    requires Spaced(q.tokens)
    ensures Spaced(WithOperator(q).tokens) && Spaced(WithNegation(q).tokens)
  {
    if WantsOperator(q.tokens) { SpacedAppend(q.tokens, Op(Missing(q.tokens, q.default))); }
    if q.negate { SpacedAppend(q.tokens, Not); }
  }

  lemma SpacedStep(q: Query, c: Call)
    requires Spaced(q.tokens)
    ensures Spaced(Do(q, c).tokens)
  {
    match c
    case WhereCall(kind, field, values) =>
      SpacedPrefixes(q);
      SpacedPrefixes(q.(negate := false));
      SpacedPrefixes(WithOperator(q));
      var q' := if IsEquality(kind) then WithOperator(q.(negate := false)) else WithNegation(WithOperator(q));
      SpacedAppend(q'.tokens, Where(if q.negate then Opposite(kind) else kind, field, BoundNames(q.parameters, values)));
    case TrueCall =>
      SpacedPrefixes(q);
      SpacedPrefixes(WithOperator(q));
      SpacedAppend(WithNegation(WithOperator(q)).tokens, True);
    case OpenCall =>
      var p := q.(depth := q.depth + 1);
      SpacedPrefixes(p);
      SpacedPrefixes(WithOperator(p));
      SpacedAppend(WithNegation(WithOperator(p)).tokens, Open);
    case CloseCall => SpacedAppend(q.tokens, Close);
    case OperatorCall(op) => if q.tokens != [] && !q.tokens[|q.tokens| - 1].Op? { SpacedAppend(q.tokens, Op(op)); }
    case NotCall =>
    case ParameterCall(_, _) =>
  }

  /** Over any run of calls no operator comes first and no two operators meet: the second one is refused. */
  lemma {:induction false} OperatorsStandApart(q: Query, calls: seq<Call>)
    requires Spaced(q.tokens)
    ensures Spaced(DoAll(q, calls).tokens)
    decreases |calls|
  {
    if calls != [] {
      SpacedStep(q, calls[0]);
      OperatorsStandApart(Do(q, calls[0]), calls[1..]);
    }
  }
}
