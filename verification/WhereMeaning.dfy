/** The clause that disciplined calls describe, the clause their tokens read back as, and their equal meaning. */
module WhereMeaning {
  import opened Wrappers
  import opened JsonDocs
  import opened WhereClause

  // ---- the clause the calls describe ----------------------------------------------

  /** An operand, preceded by a number of `not` calls. */
  datatype Item =
    | Leaf(nots: nat, kind: Kind, field: string, values: seq<Json>)
    | TrueLeaf(nots: nat)
    | Sub(nots: nat, clause: Clause)

  /** Operands with operators between them, some left out. */
  datatype Clause = One(item: Item) | More(item: Item, op: Option<Operator>, rest: Clause)

  function Nots(n: nat): seq<Call> {
    if n == 0 then [] else [NotCall] + Nots(n - 1)
  }

  function ItemCalls(i: Item): seq<Call> {
    match i
    case Leaf(n, kind, field, values) => Nots(n) + [WhereCall(kind, field, values)]
    case TrueLeaf(n) => Nots(n) + [TrueCall]
    case Sub(n, c) => Nots(n) + [OpenCall] + Calls(c) + [CloseCall]
  }

  function OperatorCalls(op: Option<Operator>): seq<Call> {
    if op.Some? then [OperatorCall(op.value)] else []
  }

  function Calls(c: Clause): seq<Call> {
    match c
    case One(i) => ItemCalls(i)
    case More(i, op, rest) => ItemCalls(i) + OperatorCalls(op) + Calls(rest)
  }

  /** After `true` no operator is filled in, so it has to be given. */
  predicate Disciplined(c: Clause) {
    match c
    case One(i) => DisciplinedItem(i)
    case More(i, op, rest) => DisciplinedItem(i) && Disciplined(rest) && (i.TrueLeaf? ==> op.Some?)
  }

  predicate DisciplinedItem(i: Item) {
    i.Sub? ==> Disciplined(i.clause)
  }

  /** Whether the last comparison so far is a search. */
  predicate SearchAfter(i: Item, before: bool) {
    match i
    case Leaf(_, kind, _, _) => kind.Search?
    case TrueLeaf(_) => before
    case Sub(_, c) => SearchAfterClause(c, before)
  }

  predicate SearchAfterClause(c: Clause, before: bool) {
    match c
    case One(i) => SearchAfter(i, before)
    case More(i, _, rest) => SearchAfterClause(rest, SearchAfter(i, before))
  }

  /** A missing operator is the default one, and OR after a search. */
  function Fill(op: Option<Operator>, search: bool, default: Operator): Operator {
    if op.Some? then op.value else if search then Or else default
  }

  predicate Odd(n: nat) {
    n % 2 == 1
  }

  /** What a comparison gives for a document. */
  type Interpretation = (Kind, string, seq<Json>) -> bool

  ghost predicate Faithful(truth: Interpretation) {
    forall field, values :: truth(NotEquals, field, values) == !truth(Equals, field, values)
  }

  predicate TruthOfItem(truth: Interpretation, i: Item, search: bool, default: Operator)
    decreases i
  {
    match i
    case Leaf(n, kind, field, values) => Odd(n) != truth(kind, field, values)
    case TrueLeaf(n) => !Odd(n)
    case Sub(n, c) => Odd(n) != Truth(truth, c, true, search, default)
  }

  /** AND binds tighter than OR; `group` is the conjunction read so far. */
  predicate Truth(truth: Interpretation, c: Clause, group: bool, search: bool, default: Operator)
    decreases c
  {
    match c
    case One(i) => group && TruthOfItem(truth, i, search, default)
    case More(i, op, rest) =>
      var group' := group && TruthOfItem(truth, i, search, default);
      var search' := SearchAfter(i, search);
      if Fill(op, search', default).And? then Truth(truth, rest, group', search', default)
      else group' || Truth(truth, rest, true, search', default)
  }

  // ---- the clause the tokens read back as -----------------------------------------

  datatype ReadItem =
    | ReadWhere(negated: bool, kind: Kind, field: string, names: seq<string>)
    | ReadTrue(negated: bool)
    | ReadSub(negated: bool, clause: ReadClause)

  /** Without an operator between two operands the tokens are not a clause. */
  datatype ReadClause = ReadOne(item: ReadItem) | ReadMore(item: ReadItem, op: Option<Operator>, rest: ReadClause)

  predicate Complete(c: ReadClause) {
    match c
    case ReadOne(i) => CompleteItem(i)
    case ReadMore(i, op, rest) => CompleteItem(i) && op.Some? && Complete(rest)
  }

  predicate CompleteItem(i: ReadItem) {
    i.ReadSub? ==> Complete(i.clause)
  }

  predicate MeaningOfItem(truth: Interpretation, m: map<string, Json>, i: ReadItem)
    decreases i
  {
    match i
    case ReadWhere(negated, kind, field, names) => negated != truth(kind, field, ValuesAt(m, names))
    case ReadTrue(negated) => !negated
    case ReadSub(negated, c) => negated != Meaning(truth, m, c, true)
  }

  predicate Meaning(truth: Interpretation, m: map<string, Json>, c: ReadClause, group: bool)
    decreases c
  {
    match c
    case ReadOne(i) => group && MeaningOfItem(truth, m, i)
    case ReadMore(i, op, rest) =>
      var group' := group && MeaningOfItem(truth, m, i);
      if op == Some(And) then Meaning(truth, m, rest, group') else group' || Meaning(truth, m, rest, true)
  }

  /** item := [not] (where | true | '(' clause ')'). */
  function ReadAnItem(ts: seq<Token>): (r: Option<(ReadItem, seq<Token>)>)
    ensures r.Some? ==> |r.value.1| < |ts|
    decreases |ts|, 0
  {
    var negated := ts != [] && ts[0].Not?;
    var us := if negated then ts[1..] else ts;
    if us == [] then None
    else
      match us[0]
      case Where(kind, field, names) => Some((ReadWhere(negated, kind, field, names), us[1..]))
      case True => Some((ReadTrue(negated), us[1..]))
      case Open =>
        var c := ReadAClause(us[1..]);
        if c.Some? && c.value.1 != [] && c.value.1[0].Close? then Some((ReadSub(negated, c.value.0), c.value.1[1..])) else None
      case _ => None
  }

  /** clause := item (op item)*. */
  function ReadAClause(ts: seq<Token>): (r: Option<(ReadClause, seq<Token>)>)
    ensures r.Some? ==> |r.value.1| < |ts|
    decreases |ts|, 1
  {
    var i := ReadAnItem(ts);
    if i.None? then None
    else
      var us := i.value.1;
      if us != [] && us[0].Op? then
        var rest := ReadAClause(us[1..]);
        if rest.None? then None else Some((ReadMore(i.value.0, Some(us[0].op), rest.value.0), rest.value.1))
      else Some((ReadOne(i.value.0), us))
  }

  function ReadBack(ts: seq<Token>): Option<ReadClause> {
    var r := ReadAClause(ts);
    if r.Some? && r.value.1 == [] then Some(r.value.0) else None
  }

  function PrintNot(negated: bool): seq<Token> {
    if negated then [Not] else []
  }

  function PrintItem(i: ReadItem): seq<Token> {
    match i
    case ReadWhere(negated, kind, field, names) => PrintNot(negated) + [Where(kind, field, names)]
    case ReadTrue(negated) => PrintNot(negated) + [True]
    case ReadSub(negated, c) => PrintNot(negated) + [Open] + Print(c) + [Close]
  }

  function Print(c: ReadClause): seq<Token> {
    match c
    case ReadOne(i) => PrintItem(i)
    case ReadMore(i, op, rest) => PrintItem(i) + PrintOperator(op) + Print(rest)
  }

  function PrintOperator(op: Option<Operator>): seq<Token> {
    if op.Some? then [Op(op.value)] else []
  }

  lemma {:induction false} ReadPrintedItem(i: ReadItem, tail: seq<Token>)
    requires CompleteItem(i)
    ensures ReadAnItem(PrintItem(i) + tail) == Some((i, tail))
    decreases i
  {
    var ts := PrintItem(i) + tail;
    match i
    case ReadWhere(negated, kind, field, names) =>
      assert ts == PrintNot(negated) + ([Where(kind, field, names)] + tail);
    case ReadTrue(negated) =>
      assert ts == PrintNot(negated) + ([True] + tail);
    case ReadSub(negated, c) =>
      var inner := Print(c) + ([Close] + tail);
      assert ts == PrintNot(negated) + ([Open] + inner);
      ReadPrinted(c, [Close] + tail);
      ReadSubclause(negated, inner);
  }

  lemma ReadSubclause(negated: bool, inner: seq<Token>)
    requires ReadAClause(inner).Some? && var rest := ReadAClause(inner).value.1; rest != [] && rest[0].Close?
    ensures ReadAnItem(PrintNot(negated) + ([Open] + inner))
            == Some((ReadSub(negated, ReadAClause(inner).value.0), ReadAClause(inner).value.1[1..]))
  {
    var us := [Open] + inner;
    var ts := PrintNot(negated) + us;
    assert negated ==> ts[1..] == us;
    assert !negated ==> ts == us;
    assert us[1..] == inner;
  }

  lemma {:induction false} ReadPrinted(c: ReadClause, tail: seq<Token>)
    requires Complete(c) && (tail != [] ==> !tail[0].Op?)
    ensures ReadAClause(Print(c) + tail) == Some((c, tail))
    decreases c
  {
    match c
    case ReadOne(i) => ReadPrintedItem(i, tail);
    case ReadMore(i, op, rest) =>
      var us := [Op(op.value)] + (Print(rest) + tail);
      assert Print(c) + tail == PrintItem(i) + us;
      assert us[1..] == Print(rest) + tail;
      ReadPrintedItem(i, us);
      ReadPrinted(rest, tail);
      ReadOneMore(Print(c) + tail, i, us, rest, tail);
  }

  lemma ReadOneMore(ts: seq<Token>, i: ReadItem, us: seq<Token>, rest: ReadClause, tail: seq<Token>)
    requires ReadAnItem(ts) == Some((i, us)) && us != [] && us[0].Op? && ReadAClause(us[1..]) == Some((rest, tail))
    ensures ReadAClause(ts) == Some((ReadMore(i, Some(us[0].op), rest), tail))
  {
  }

  /** Reading stops before a token that starts another operand. */
  predicate Stuck(r: Option<(ReadClause, seq<Token>)>) {
    r.None? || (r.value.1 != [] && !r.value.1[0].Op? && !r.value.1[0].Close?)
  }

  lemma PrintStarts(c: ReadClause)
    ensures Print(c) != [] && !Print(c)[0].Op? && !Print(c)[0].Close?
  {
  }

  lemma {:induction false} StuckItem(i: ReadItem, tail: seq<Token>)
    requires !CompleteItem(i)
    ensures ReadAnItem(PrintItem(i) + tail).None?
    decreases i
  {
    var inner := Print(i.clause) + ([Close] + tail);
    StuckClause(i.clause, [Close] + tail);
    var us := [Open] + inner;
    var ts := PrintNot(i.negated) + us;
    assert PrintItem(i) + tail == ts;
    assert i.negated ==> ts[1..] == us;
    assert !i.negated ==> ts == us;
    assert us[1..] == inner;
  }

  lemma {:induction false} StuckClause(c: ReadClause, tail: seq<Token>)
    requires !Complete(c) && (tail != [] ==> !tail[0].Op?)
    ensures Stuck(ReadAClause(Print(c) + tail))
    decreases c
  {
    match c
    case ReadOne(i) => StuckItem(i, tail);
    case ReadMore(i, op, rest) =>
      var later := Print(rest) + tail;
      var us := PrintOperator(op) + later;
      Associate(PrintItem(i) + PrintOperator(op), Print(rest), tail);
      Associate(PrintItem(i), PrintOperator(op), later);
      if !CompleteItem(i) {
        StuckItem(i, us);
      } else {
        ReadPrintedItem(i, us);
        PrintStarts(rest);
        if op.Some? { StuckClause(rest, tail); }
        StuckMore(PrintItem(i) + us, i, op, later);
      }
  }

  lemma StuckMore(ts: seq<Token>, i: ReadItem, op: Option<Operator>, later: seq<Token>)
    requires ReadAnItem(ts) == Some((i, PrintOperator(op) + later)) && later != [] && !later[0].Op? && !later[0].Close?
    requires op.Some? ==> Stuck(ReadAClause(later))
    ensures Stuck(ReadAClause(ts))
  {
    if op.Some? {
      assert (PrintOperator(op) + later)[1..] == later;
    } else {
      assert PrintOperator(op) + later == later;
    }
  }

  /** The tokens of a clause read back as that clause, and as nothing if an operator is missing. */
  lemma ReadBackPrinted(c: ReadClause)
    ensures ReadBack(Print(c)) == if Complete(c) then Some(c) else None
  {
    assert Print(c) + [] == Print(c);
    if Complete(c) { ReadPrinted(c, []); } else { StuckClause(c, []); }
  }

  // ---- from calls to tokens -------------------------------------------------------

  function ValuesOfItem(i: Item): seq<Json> {
    match i
    case Leaf(_, _, _, values) => values
    case TrueLeaf(_) => []
    case Sub(_, c) => Values(c)
  }

  function Values(c: Clause): seq<Json> {
    match c
    case One(i) => ValuesOfItem(i)
    case More(i, _, rest) => ValuesOfItem(i) + Values(rest)
  }

  /** The operand as the builder leaves it: equalities absorb a negation, operators are filled in. */
  function CompileItem(i: Item, m: map<string, Json>, search: bool, default: Operator): ReadItem
    decreases i
  {
    match i
    case Leaf(n, kind, field, values) =>
      var names := BoundNames(m, values);
      if IsEquality(kind) then ReadWhere(false, if Odd(n) then Opposite(kind) else kind, field, names)
      else ReadWhere(Odd(n), kind, field, names)
    case TrueLeaf(n) => ReadTrue(Odd(n))
    case Sub(n, c) => ReadSub(Odd(n), Compile(c, m, search, default))
  }

  /** After `true` a missing operator stays missing. */
  function FillAfter(i: Item, op: Option<Operator>, search: bool, default: Operator): Option<Operator> {
    if i.TrueLeaf? then op else Some(Fill(op, search, default))
  }

  lemma {:induction false} DisciplinedIsComplete(c: Clause, m: map<string, Json>, search: bool, default: Operator)
    ensures Complete(Compile(c, m, search, default)) <==> Disciplined(c)
    decreases c, 0
  {
    DisciplinedItemIsComplete(c.item, m, search, default);
    if c.More? { DisciplinedIsComplete(c.rest, Bind(m, ValuesOfItem(c.item)), SearchAfter(c.item, search), default); }
  }

  lemma {:induction false} DisciplinedItemIsComplete(i: Item, m: map<string, Json>, search: bool, default: Operator)
    ensures CompleteItem(CompileItem(i, m, search, default)) <==> DisciplinedItem(i)
    decreases i, 0
  {
    if i.Sub? { DisciplinedIsComplete(i.clause, m, search, default); }
  }

  function Compile(c: Clause, m: map<string, Json>, search: bool, default: Operator): ReadClause
    decreases c
  {
    match c
    case One(i) => ReadOne(CompileItem(i, m, search, default))
    case More(i, op, rest) =>
      var search' := SearchAfter(i, search);
      ReadMore(CompileItem(i, m, search, default), FillAfter(i, op, search', default),
               Compile(rest, Bind(m, ValuesOfItem(i)), search', default))
  }

  lemma {:induction false} BindAppend(m: map<string, Json>, a: seq<Json>, b: seq<Json>)
    ensures Bind(m, a + b) == Bind(Bind(m, a), b)
    decreases |a|
  {
    if a == [] {
      assert a + b == b;
    } else {
      BindAppend(m[Name(|m|) := a[0]], a[1..], b);
      assert (a + b)[1..] == a[1..] + b;
    }
  }

  lemma {:induction false} DoNots(q: Query, n: nat)
    ensures DoAll(q, Nots(n)) == q.(negate := q.negate != Odd(n))
    decreases n
  {
    if n > 0 {
      DoNots(q.(negate := !q.negate), n - 1);
      assert Nots(n)[1..] == Nots(n - 1);
    }
  }

  lemma DoNotsThen(q: Query, n: nat, c: Call)
    requires !q.negate
    ensures DoAll(q, Nots(n) + [c]) == Do(q.(negate := Odd(n)), c)
  {
    DoAppend(q, Nots(n), [c]);
    DoNots(q, n);
    DoOne(q.(negate := Odd(n)), c);
  }

  lemma DoOne(q: Query, c: Call)
    ensures DoAll(q, [c]) == Do(q, c)
  {
  }

  /** A query whose tokens grew. */
  function Grown(q: Query, ts: seq<Token>, m: map<string, Json>): Query {
    q.(tokens := q.tokens + ts, parameters := m)
  }

  /** What running an operand does: the missing operator, then the operand's tokens. */
  ghost predicate RunsAs(q: Query, q': Query, ts: seq<Token>, values: seq<Json>, search: bool) {
    && q' == Grown(WithOperator(q), ts, Bind(q.parameters, values))
    && LastIsSearch(q'.tokens) == search
    && q'.tokens != []
  }

  lemma LastAfter(ts: seq<Token>, t: Token)
    ensures LastIsSearch(ts + [t]) == if t.Where? then t.kind.Search? else LastIsSearch(ts)
  {
  }

  lemma OperatorKeepsSearch(q: Query)
    ensures LastIsSearch(WithOperator(q).tokens) == LastIsSearch(q.tokens)
  {
  }

  lemma NegationKeepsSearch(q: Query)
    ensures LastIsSearch(WithNegation(q).tokens) == LastIsSearch(q.tokens)
    ensures WithNegation(q) == q.(tokens := q.tokens + PrintNot(q.negate), negate := false)
  {
  }

  /** An operator, the negation and one token. */
  function Prefixed(q: Query, negated: bool, t: Token): Query {
    Append(WithNegation(WithOperator(q.(negate := negated))), t)
  }

  lemma PrefixedIs(q: Query, negated: bool, t: Token)
    requires !q.negate
    ensures Prefixed(q, negated, t) == WithOperator(q).(tokens := WithOperator(q).tokens + (PrintNot(negated) + [t]))
    ensures LastIsSearch(Prefixed(q, negated, t).tokens) == if t.Where? then t.kind.Search? else LastIsSearch(q.tokens)
  {
    var q1 := WithOperator(q.(negate := negated));
    OperatorKeepsSearch(q.(negate := negated));
    NegationKeepsSearch(q1);
    LastAfter(WithNegation(q1).tokens, t);
    assert q1.tokens == WithOperator(q).tokens;
    assert q1.tokens + PrintNot(negated) + [t] == q1.tokens + (PrintNot(negated) + [t]);
  }

  lemma RunLeaf(q: Query, i: Item)
    requires !q.negate && i.Leaf?
    ensures RunsAs(q, DoAll(q, ItemCalls(i)), PrintItem(CompileItem(i, q.parameters, LastIsSearch(q.tokens), q.default)), ValuesOfItem(i),
                   SearchAfter(i, LastIsSearch(q.tokens)))
  {
    DoNotsThen(q, i.nots, WhereCall(i.kind, i.field, i.values));
    var names := BoundNames(q.parameters, i.values);
    if IsEquality(i.kind) {
      var t := Where(if Odd(i.nots) then Opposite(i.kind) else i.kind, i.field, names);
      PrefixedIs(q, false, t);
      assert q.(negate := Odd(i.nots)).(negate := false) == q;
      assert WithNegation(WithOperator(q)) == WithOperator(q);
    } else {
      PrefixedIs(q, Odd(i.nots), Where(i.kind, i.field, names));
    }
  }

  lemma RunTrue(q: Query, i: Item)
    requires !q.negate && i.TrueLeaf?
    ensures RunsAs(q, DoAll(q, ItemCalls(i)), PrintItem(CompileItem(i, q.parameters, LastIsSearch(q.tokens), q.default)), ValuesOfItem(i),
                   SearchAfter(i, LastIsSearch(q.tokens)))
  {
    DoNotsThen(q, i.nots, TrueCall);
    RunsPrefixed(q, Odd(i.nots), True);
    TruePrinted(i, q.parameters, LastIsSearch(q.tokens), q.default);
  }

  lemma TruePrinted(i: Item, m: map<string, Json>, search: bool, default: Operator)
    requires i.TrueLeaf?
    ensures PrintItem(CompileItem(i, m, search, default)) == PrintNot(Odd(i.nots)) + [True]
    ensures ValuesOfItem(i) == [] && SearchAfter(i, search) == search
  {
  }

  lemma RunsPrefixed(q: Query, negated: bool, t: Token)
    requires !q.negate
    ensures RunsAs(q, Prefixed(q, negated, t), PrintNot(negated) + [t], [], if t.Where? then t.kind.Search? else LastIsSearch(q.tokens))
  {
    PrefixedIs(q, negated, t);
  }

  /** The last token of an operand: a where or a closed subclause unless it is `true`. */
  lemma ItemEnd(q: Query, i: Item, p: ReadItem)
    requires p == CompileItem(i, q.parameters, LastIsSearch(q.tokens), q.default)
    ensures PrintItem(p) != []
    ensures var t := PrintItem(p)[|PrintItem(p)| - 1]; if i.TrueLeaf? then t.True? else t.Where? || t.Close?
  {
  }

  lemma {:induction false} RunItem(q: Query, i: Item)
    requires !q.negate
    ensures RunsAs(q, DoAll(q, ItemCalls(i)), PrintItem(CompileItem(i, q.parameters, LastIsSearch(q.tokens), q.default)), ValuesOfItem(i),
                   SearchAfter(i, LastIsSearch(q.tokens)))
    decreases i
  {
    match i
    case Leaf(_, _, _, _) => RunLeaf(q, i);
    case TrueLeaf(_) => RunTrue(q, i);
    case Sub(n, c) =>
      var q1 := Prefixed(q.(depth := q.depth + 1), Odd(n), Open);
      OpenedAs(q, n);
      RunClause(q1, c);
      DoSub(q, n, Calls(c));
      RunSubItem(q, n, c, q1, DoAll(q1, Calls(c)));
  }

  lemma RunSubItem(q: Query, n: nat, c: Clause, q1: Query, q2: Query)
    requires q1 == WithOperator(q).(depth := q.depth + 1, tokens := WithOperator(q).tokens + (PrintNot(Odd(n)) + [Open]))
    requires LastIsSearch(q1.tokens) == LastIsSearch(q.tokens) && WithOperator(q1) == q1
    requires RunsAs(q1, q2, Print(Compile(c, q1.parameters, LastIsSearch(q1.tokens), q1.default)), Values(c),
                    SearchAfterClause(c, LastIsSearch(q1.tokens)))
    ensures RunsAs(q, Do(q2, CloseCall), PrintItem(CompileItem(Sub(n, c), q.parameters, LastIsSearch(q.tokens), q.default)), Values(c),
                   SearchAfterClause(c, LastIsSearch(q.tokens)))
  {
    RunSub(q, n, q1, q2, Print(Compile(c, q.parameters, LastIsSearch(q.tokens), q.default)), Values(c),
           SearchAfterClause(c, LastIsSearch(q.tokens)));
    SubPrinted(n, c, q.parameters, LastIsSearch(q.tokens), q.default);
  }

  lemma SubPrinted(n: nat, c: Clause, m: map<string, Json>, search: bool, default: Operator)
    ensures PrintItem(CompileItem(Sub(n, c), m, search, default))
            == PrintNot(Odd(n)) + [Open] + Print(Compile(c, m, search, default)) + [Close]
  {
  }

  /** A subclause around what its calls did; `q1` is the state inside. */
  lemma RunSub(q: Query, n: nat, q1: Query, q2: Query, ts: seq<Token>, values: seq<Json>, search: bool)
    requires q1 == WithOperator(q).(depth := q.depth + 1, tokens := WithOperator(q).tokens + (PrintNot(Odd(n)) + [Open]))
    requires WithOperator(q1) == q1 && RunsAs(q1, q2, ts, values, search)
    ensures RunsAs(q, Do(q2, CloseCall), PrintNot(Odd(n)) + [Open] + ts + [Close], values, search)
  {
    Closed(q, q1, n, q2, ts, Bind(q.parameters, values));
  }

  /** The state inside a subclause. */
  lemma OpenedAs(q: Query, n: nat)
    requires !q.negate
    ensures var q1 := Prefixed(q.(depth := q.depth + 1), Odd(n), Open);
            && q1 == WithOperator(q).(depth := q.depth + 1, tokens := WithOperator(q).tokens + (PrintNot(Odd(n)) + [Open]))
            && LastIsSearch(q1.tokens) == LastIsSearch(q.tokens) && WithOperator(q1) == q1
  {
    PrefixedIs(q.(depth := q.depth + 1), Odd(n), Open);
    assert WithOperator(q.(depth := q.depth + 1)) == WithOperator(q).(depth := q.depth + 1);
  }

  lemma Closed(q: Query, q1: Query, n: nat, q2: Query, ts: seq<Token>, m: map<string, Json>)
    requires q1 == WithOperator(q).(depth := q.depth + 1, tokens := WithOperator(q).tokens + (PrintNot(Odd(n)) + [Open]))
    requires q2 == Grown(q1, ts, m)
    ensures Do(q2, CloseCall) == Grown(WithOperator(q), PrintNot(Odd(n)) + [Open] + ts + [Close], m)
    ensures LastIsSearch(Do(q2, CloseCall).tokens) == LastIsSearch(q2.tokens)
  {
  }

  lemma DoSub(q: Query, n: nat, inner: seq<Call>)
    requires !q.negate
    ensures DoAll(q, Nots(n) + [OpenCall] + inner + [CloseCall])
            == Do(DoAll(Prefixed(q.(depth := q.depth + 1), Odd(n), Open), inner), CloseCall)
  {
    DoNotsThen(q, n, OpenCall);
    assert Do(q.(negate := Odd(n)), OpenCall) == Prefixed(q.(depth := q.depth + 1), Odd(n), Open);
    DoThree(q, Nots(n) + [OpenCall], inner, CloseCall);
  }

  lemma DoThree(q: Query, a: seq<Call>, b: seq<Call>, c: Call)
    ensures DoAll(q, a + b + [c]) == Do(DoAll(DoAll(q, a), b), c)
  {
    DoAppend(q, a, b);
    DoAppend(q, a + b, [c]);
    DoOne(DoAll(q, a + b), c);
  }

  lemma Associate4<T>(a: seq<T>, b: seq<T>, c: seq<T>, d: seq<T>)
    ensures a + b + c + d == a + (b + c + d)
  {
  }

  lemma {:induction false} RunClause(q: Query, c: Clause)
    requires !q.negate
    ensures RunsAs(q, DoAll(q, Calls(c)), Print(Compile(c, q.parameters, LastIsSearch(q.tokens), q.default)), Values(c),
                   SearchAfterClause(c, LastIsSearch(q.tokens)))
    decreases c
  {
    match c
    case One(i) => RunItem(q, i);
    case More(i, op, rest) =>
      RunItem(q, i);
      var q1 := DoAll(q, ItemCalls(i));
      var q2 := DoAll(q1, OperatorCalls(op));
      ItemEnd(q, i, CompileItem(i, q.parameters, LastIsSearch(q.tokens), q.default));
      RunOperator(q1, i, op);
      RunClause(q2, rest);
      DoMore(q, ItemCalls(i), OperatorCalls(op), Calls(rest));
      RunMore(q, c, q1, q2, DoAll(q2, Calls(rest)));
  }

  lemma DoMore(q: Query, a: seq<Call>, b: seq<Call>, c: seq<Call>)
    ensures DoAll(q, a + b + c) == DoAll(DoAll(DoAll(q, a), b), c)
  {
    DoAppend(q, a, b);
    DoAppend(q, a + b, c);
  }

  /** The three parts of a clause, put together. */
  lemma RunMore(q: Query, c: Clause, q1: Query, q2: Query, q3: Query)
    requires c.More? && !q.negate
    requires Joined(q1, q2, PrintOperator(FillAfter(c.item, c.op, LastIsSearch(q1.tokens), q1.default)))
    requires RunsAs(q, q1, PrintItem(CompileItem(c.item, q.parameters, LastIsSearch(q.tokens), q.default)), ValuesOfItem(c.item),
                    SearchAfter(c.item, LastIsSearch(q.tokens)))
    requires RunsAs(q2, q3, Print(Compile(c.rest, q2.parameters, LastIsSearch(q2.tokens), q2.default)), Values(c.rest),
                    SearchAfterClause(c.rest, LastIsSearch(q2.tokens)))
    ensures RunsAs(q, q3, Print(Compile(c, q.parameters, LastIsSearch(q.tokens), q.default)), Values(c),
                   SearchAfterClause(c, LastIsSearch(q.tokens)))
  {
    BindAppend(q.parameters, ValuesOfItem(c.item), Values(c.rest));
    Associate4(WithOperator(q).tokens, PrintItem(CompileItem(c.item, q.parameters, LastIsSearch(q.tokens), q.default)),
               PrintOperator(FillAfter(c.item, c.op, LastIsSearch(q1.tokens), q.default)),
               Print(Compile(c.rest, q2.parameters, LastIsSearch(q2.tokens), q.default)));
  }

  /** The state between two operands. */
  ghost predicate Joined(q1: Query, q2: Query, ts: seq<Token>) {
    && !q2.negate && q2.parameters == q1.parameters && q2.default == q1.default && q2.depth == q1.depth
    && LastIsSearch(q2.tokens) == LastIsSearch(q1.tokens)
    && WithOperator(q2).tokens == q1.tokens + ts
  }

  lemma JoinedByCall(q1: Query, op: Operator)
    requires !q1.negate && q1.tokens != [] && !q1.tokens[|q1.tokens| - 1].Op?
    ensures Joined(q1, Do(q1, OperatorCall(op)), [Op(op)])
  {
  }

  /** Between two operands stands the operator given, or the one filled in. */
  lemma RunOperator(q1: Query, i: Item, op: Option<Operator>)
    requires !q1.negate && q1.tokens != []
    requires var last := q1.tokens[|q1.tokens| - 1]; if i.TrueLeaf? then last.True? else last.Where? || last.Close?
    ensures Joined(q1, DoAll(q1, OperatorCalls(op)), PrintOperator(FillAfter(i, op, LastIsSearch(q1.tokens), q1.default)))
  {
    if op.Some? {
      DoOne(q1, OperatorCall(op.value));
      JoinedByCall(q1, op.value);
    } else {
      assert DoAll(q1, OperatorCalls(op)) == q1;
    }
  }

  // ---- meaning --------------------------------------------------------------------

  lemma {:induction false} CompiledItemMeaning(truth: Interpretation, i: Item, m: map<string, Json>, m': map<string, Json>, search: bool, default: Operator)
    requires Faithful(truth) && DisciplinedItem(i) && NamesFree(m) && Extends(Bind(m, ValuesOfItem(i)), m')
    ensures MeaningOfItem(truth, m', CompileItem(i, m, search, default)) == TruthOfItem(truth, i, search, default)
    decreases i
  {
    match i
    case Leaf(n, kind, field, values) =>
      BindKeeps(m, values);
      ValuesKept(Bind(m, values), m', BoundNames(m, values));
    case TrueLeaf(_) =>
    case Sub(_, c) => CompiledMeaning(truth, c, m, m', true, search, default);
  }

  lemma {:induction false} CompiledMeaning(truth: Interpretation, c: Clause, m: map<string, Json>, m': map<string, Json>,
                                           group: bool, search: bool, default: Operator)
    requires Faithful(truth) && Disciplined(c) && NamesFree(m) && Extends(Bind(m, Values(c)), m')
    ensures Meaning(truth, m', Compile(c, m, search, default), group) == Truth(truth, c, group, search, default)
    decreases c
  {
    match c
    case One(i) => CompiledItemMeaning(truth, i, m, m', search, default);
    case More(i, op, rest) =>
      var m1 := Bind(m, ValuesOfItem(i));
      var group' := group && TruthOfItem(truth, i, search, default);
      var search' := SearchAfter(i, search);
      BoundParts(m, m', ValuesOfItem(i), Values(rest));
      CompiledItemMeaning(truth, i, m, m', search, default);
      CompiledMeaning(truth, rest, m1, m', if Fill(op, search', default).And? then group' else true, search', default);
      MeaningCons(truth, m', c, m, group, search, default);
  }

  /** The bindings of an operand survive those of the operands after it. */
  lemma BoundParts(m: map<string, Json>, m': map<string, Json>, a: seq<Json>, b: seq<Json>)
    requires NamesFree(m) && Extends(Bind(m, a + b), m')
    ensures NamesFree(Bind(m, a)) && Extends(Bind(m, a), m') && Extends(Bind(Bind(m, a), b), m')
  {
    BindAppend(m, a, b);
    BindKeeps(m, a);
    BindKeeps(Bind(m, a), b);
  }

  lemma MeaningCons(truth: Interpretation, m': map<string, Json>, c: Clause, m: map<string, Json>, group: bool, search: bool, default: Operator)
    requires c.More? && (c.item.TrueLeaf? ==> c.op.Some?)
    requires MeaningOfItem(truth, m', CompileItem(c.item, m, search, default)) == TruthOfItem(truth, c.item, search, default)
    requires var group' := group && TruthOfItem(truth, c.item, search, default); var search' := SearchAfter(c.item, search);
             var g := if Fill(c.op, search', default).And? then group' else true;
             Meaning(truth, m', Compile(c.rest, Bind(m, ValuesOfItem(c.item)), search', default), g) == Truth(truth, c.rest, g, search', default)
    ensures Meaning(truth, m', Compile(c, m, search, default), group) == Truth(truth, c, group, search, default)
  {
    var search' := SearchAfter(c.item, search);
    assert FillAfter(c.item, c.op, search', default) == Some(Fill(c.op, search', default));
  }

  /** The query after the calls of a clause alone. */
  function Alone(default: Operator, c: Clause): Query {
    DoAll(Start(default), Calls(c))
  }

  lemma AloneTokens(default: Operator, c: Clause)
    ensures var q := Alone(default, c);
            && q.tokens == Print(Compile(c, map[], false, default)) && q.parameters == Bind(map[], Values(c))
            && q.depth == 0 && !q.negate
  {
    RunClause(Start(default), c);
    FromStart(default, Alone(default, c), Print(Compile(c, map[], false, default)), Bind(map[], Values(c)));
  }

  lemma FromStart(default: Operator, q: Query, ts: seq<Token>, m: map<string, Json>)
    requires q == Grown(WithOperator(Start(default)), ts, m)
    ensures q.tokens == ts && q.parameters == m && q.depth == 0 && !q.negate
  {
  }

  lemma AloneParse(default: Operator, c: Clause)
    ensures ReadBack(Alone(default, c).tokens) == if Disciplined(c) then Some(Compile(c, map[], false, default)) else None
  {
    AloneTokens(default, c);
    ReadBackPrinted(Compile(c, map[], false, default));
    DisciplinedIsComplete(c, map[], false, default);
  }

  lemma AloneMeaning(truth: Interpretation, default: Operator, c: Clause)
    requires Faithful(truth) && Disciplined(c)
    ensures var q := Alone(default, c);
            && ReadBack(q.tokens).Some?
            && Meaning(truth, q.parameters, ReadBack(q.tokens).value, true) == Truth(truth, c, true, false, default)
  {
    AloneTokens(default, c);
    AloneParse(default, c);
    CompiledMeaning(truth, c, map[], Alone(default, c).parameters, true, false, default);
  }
}
