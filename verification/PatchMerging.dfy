/** Deferred patches: argument names, merging, and what the merged script does. */
module PatchMerging {
  import opened Wrappers
  import opened JsonDocs
  import opened SessionModel
  import Decimal
  import Text

  // ---- argument names -------------------------------------------------------------

  const PREFIX := "val_"

  /** The argument of `IncrementByID` and `PatchByID`. */
  function ValueName(n: nat): string {
    PREFIX + Decimal.Digits(n)
  }

  /** `JavaScriptArray.getNextArgumentName`. */
  function ArrayName(counter: nat, suffix: nat): string {
    PREFIX + Decimal.Digits(counter) + "_" + Decimal.Digits(suffix)
  }

  lemma ValueNamesDiffer(m: nat, n: nat)
    requires ValueName(m) == ValueName(n)
    ensures m == n
  {
    assert ValueName(m)[4..] == Decimal.Digits(m) && ValueName(n)[4..] == Decimal.Digits(n);
    Decimal.DigitsInjective(m, n);
  }

  /** The first underscore after the prefix ends the first number. */
  lemma ArrayNameParts(i: nat, s: nat)
    ensures var n := ArrayName(i, s); var d := Decimal.Digits(i);
            && |n| == 5 + |d| + |Decimal.Digits(s)| && n[4..4 + |d|] == d && n[4 + |d|] == '_' && n[5 + |d|..] == Decimal.Digits(s)
            && forall j :: 4 <= j < 4 + |d| ==> n[j] != '_'
  {
  }

  lemma ArrayNamesDiffer(i: nat, s: nat, j: nat, t: nat)
    requires ArrayName(i, s) == ArrayName(j, t)
    ensures i == j && s == t
  {
    ArrayNameParts(i, s);
    ArrayNameParts(j, t);
    assert |Decimal.Digits(i)| == |Decimal.Digits(j)|;
    Decimal.DigitsInjective(i, j);
    Decimal.DigitsInjective(s, t);
  }

  lemma ValueAndArrayNamesDiffer(n: nat, i: nat, s: nat)
    ensures ValueName(n) != ArrayName(i, s)
  {
    ArrayNameParts(i, s);
    var v := ValueName(n);
    forall j | 4 <= j < |v| ensures v[j] != '_' { assert v[j] == Decimal.Digits(n)[j - 4]; }
  }

  // ---- scripts and what they do ---------------------------------------------------

  datatype Action = Increment | Assign | Push | Splice

  /** One line of a script; its value is looked up by name when the script runs. */
  datatype Statement = Statement(action: Action, path: string, arg: string)

  type Script = seq<Statement>

  /** `Patch` carries a `PatchRequest`; `ref` is the identity of the command object. */
  datatype Cmd = Cmd(ref: nat, id: string, typ: CommandType, name: string, script: Script, values: Fields)

  /** What happens to a document, in order: a statement with the value it sees, or another command. */
  datatype Effect = Run(line: Statement, value: Json) | Other(ref: nat)

  function Lookup(values: Fields, name: string): Json {
    if name in values then values[name] else Null
  }

  function Effects(script: Script, values: Fields): (t: seq<Effect>)
    ensures |t| == |script| && forall i :: 0 <= i < |t| ==> t[i] == Run(script[i], Lookup(values, script[i].arg))
  {
    seq(|script|, i requires 0 <= i < |script| => Run(script[i], Lookup(values, script[i].arg)))
  }

  function EffectsOf(c: Cmd): seq<Effect> {
    if c.typ.PatchType? then Effects(c.script, c.values) else [Other(c.ref)]
  }

  /** The server compares ids without letter case. */
  predicate On(c: Cmd, doc: string) {
    Text.Lower(c.id) == doc
  }

  function EffectsOn(c: Cmd, doc: string): seq<Effect> {
    if On(c, doc) then EffectsOf(c) else []
  }

  /** What a list of commands does to one document. */
  function Trace(list: seq<Cmd>, doc: string): seq<Effect> {
    if list == [] then [] else EffectsOn(list[0], doc) + Trace(list[1..], doc)
  }

  lemma {:induction false} TraceAppend(a: seq<Cmd>, b: seq<Cmd>, doc: string)
    ensures Trace(a + b, doc) == Trace(a, doc) + Trace(b, doc)
  {
    if a == [] {
      assert a + b == b;
    } else {
      var c, rest := a[0], a[1..];
      assert a == [c] + rest;
      TraceAppend(rest, b, doc);
      TraceCons(c, rest, doc);
      TraceCons(c, rest + b, doc);
      Associate([c], rest, b);
      Associate(EffectsOn(c, doc), Trace(rest, doc), Trace(b, doc));
    }
  }

  lemma TraceCons(c: Cmd, rest: seq<Cmd>, doc: string)
    ensures Trace([c] + rest, doc) == EffectsOn(c, doc) + Trace(rest, doc)
  {
    assert ([c] + rest)[1..] == rest;
  }

  function Args(script: Script): set<string> {
    set i | 0 <= i < |script| :: script[i].arg
  }

  ghost predicate DistinctArgs(script: Script) {
    forall i, j :: 0 <= i < j < |script| ==> script[i].arg != script[j].arg
  }

  /** The united values give every statement of both scripts its own value. */
  lemma MergedEffects(s1: Script, v1: Fields, s2: Script, v2: Fields)
    requires v2.Keys == Args(s2) && Args(s1) !! Args(s2)
    ensures Effects(s1 + s2, v1 + v2) == Effects(s1, v1) + Effects(s2, v2)
  {
  }

  // ---- the session's deferred commands --------------------------------------------

  datatype State = State(
    valsCount: nat,
    customCount: nat,
    deferred: seq<Cmd>,
    deferredMap: map<Key, Cmd>,
    next: nat)               // allocation of command objects

  function PatchKey(id: string): Key {
    Key(id, PatchType, "")
  }

  function Deferred(p: State, c: Cmd): State {
    p.(deferred := p.deferred + [c], deferredMap := Registered(p.deferredMap, Key(c.id, c.typ, c.name), c), next := p.next + 1)
  }

  /** `removeDeferredCommand`, by identity; it panics if there is no such element. */
  function Position(list: seq<Cmd>, ref: nat): (i: nat)
    ensures i <= |list| && (i < |list| ==> list[i].ref == ref) && forall j :: 0 <= j < i ==> list[j].ref != ref
  {
    if list == [] || list[0].ref == ref then 0 else 1 + Position(list[1..], ref)
  }

  function Single(p: State, id: string, script: Script, values: Fields): Cmd {
    Cmd(p.next, id, PatchType, "", script, values)
  }

  function Merged(p: State, id: string, prior: Cmd, script: Script, values: Fields): Cmd {
    Cmd(p.next, id, PatchType, "", prior.script + script, prior.values + values)
  }

  /** `tryMergePatches`, and `Defer` if there is nothing to merge with; none is the panic. */
  function AddPatch(p: State, id: string, script: Script, values: Fields): Option<State> {
    if PatchKey(id) !in p.deferredMap then Some(Deferred(p, Single(p, id, script, values)))
    else
      var prior := p.deferredMap[PatchKey(id)];
      var i := Position(p.deferred, prior.ref);
      if i == |p.deferred| then None
      else Some(Deferred(p.(deferred := Without(p.deferred, i)), Merged(p, id, prior, script, values)))
  }

  // ---- the calls ------------------------------------------------------------------

  datatype ArrayCall = Add(args: seq<Json>) | RemoveAt(index: int)

  datatype Call =
    | IncrementCall(id: string, path: string, value: Json)
    | PatchCall(id: string, path: string, value: Json)
    | ArrayCalls(id: string, path: string, calls: seq<ArrayCall>)
    | DeferCall(id: string, typ: CommandType, name: string)

  /** Arguments the calls refuse, and commands that are no patches. */
  predicate Accepted(c: Call) {
    match c
    case IncrementCall(id, path, value) => id != "" && path != "" && !value.Null?
    case PatchCall(id, path, value) => id != "" && path != "" && !value.Null?
    case ArrayCalls(id, path, _) => id != "" && path != ""
    case DeferCall(_, typ, _) => !typ.PatchType? && !typ.AnyCommand? && !typ.NotAttachment?
  }

  datatype Item = Item(action: Action, value: Json)

  /** The lines a sequence of calls on a `JavaScriptArray` produces. */
  function Items(calls: seq<ArrayCall>): seq<Item> {
    if calls == [] then []
    else Items(calls[..|calls| - 1]) + ItemsOf(calls[|calls| - 1])
  }

  function ItemsOf(c: ArrayCall): seq<Item> {
    match c
    case Add(args) => Pushes(args)
    case RemoveAt(index) => [Item(Splice, Num(index as real))]
  }

  function Pushes(args: seq<Json>): seq<Item> {
    if args == [] then [] else Pushes(args[..|args| - 1]) + [Item(Push, args[|args| - 1])]
  }

  function Lines(items: seq<Item>, path: string, suffix: nat): (s: Script)
    ensures |s| == |items| && forall i :: 0 <= i < |s| ==> s[i] == Statement(items[i].action, path, ArrayName(i, suffix))
  {
    if items == [] then []
    else
      var n := |items| - 1;
      Lines(items[..n], path, suffix) + [Statement(items[n].action, path, ArrayName(n, suffix))]
  }

  function Parameters(items: seq<Item>, suffix: nat): Fields {
    if items == [] then map[]
    else
      var n := |items| - 1;
      Parameters(items[..n], suffix)[ArrayName(n, suffix) := items[n].value]
  }

  /** The script and the values of one call, and the counters after it. */
  datatype Patch = Patch(id: string, script: Script, values: Fields, valsCount: nat, customCount: nat)

  function PatchOf(p: State, c: Call): Patch
    requires !c.DeferCall?
  {
    match c
    case IncrementCall(id, path, value) => ValuePatch(p, id, Increment, path, value)
    case PatchCall(id, path, value) => ValuePatch(p, id, Assign, path, value)
    case ArrayCalls(id, path, calls) =>
      var suffix := p.customCount + 1;
      Patch(id, Lines(Items(calls), path, suffix), Parameters(Items(calls), suffix), p.valsCount, suffix)
  }

  function ValuePatch(p: State, id: string, action: Action, path: string, value: Json): Patch {
    var name := ValueName(p.valsCount);
    Patch(id, [Statement(action, path, name)], map[name := value], p.valsCount + 1, p.customCount)
  }

  /** The command a call would defer on its own. */
  function Own(p: State, c: Call): Cmd {
    match c
    case DeferCall(id, typ, name) => Cmd(p.next, id, typ, name, [], map[])
    case _ => var q := PatchOf(p, c); Single(p, q.id, q.script, q.values)
  }

  function Step(p: State, c: Call): Option<State> {
    if !Accepted(c) then Some(p)
    else
      match c
      case DeferCall(_, _, _) => Some(Deferred(p, Own(p, c)))
      case _ =>
        var q := PatchOf(p, c);
        AddPatch(p.(valsCount := q.valsCount, customCount := q.customCount), q.id, q.script, q.values)
  }

  // ---- the invariant --------------------------------------------------------------

  /** Names given out so far. */
  ghost predicate Known(vals: nat, custom: nat, name: string) {
    || (exists n: nat :: n < vals && name == ValueName(n))
    || (exists i: nat, s: nat :: s <= custom && name == ArrayName(i, s))
  }

  ghost predicate KnownArgs(vals: nat, custom: nat, args: set<string>) {
    forall a :: a in args ==> Known(vals, custom, a)
  }

  ghost predicate Bound(c: Cmd) {
    c.typ.PatchType? ==> c.values.Keys == Args(c.script) && DistinctArgs(c.script)
  }

  function ArgsOf(c: Cmd): set<string> {
    if c.typ.PatchType? then Args(c.script) else {}
  }

  /** All argument names are pairwise distinct, within a command and between commands. */
  ghost predicate NamesDistinct(list: seq<Cmd>) {
    && (forall i :: 0 <= i < |list| ==> Bound(list[i]))
    && (forall i, j :: 0 <= i < j < |list| ==> ArgsOf(list[i]) !! ArgsOf(list[j]))
  }

  ghost predicate Identified(p: State) {
    && (forall i :: 0 <= i < |p.deferred| ==> p.deferred[i].ref < p.next)
    && (forall i, j :: 0 <= i < j < |p.deferred| ==> p.deferred[i].ref != p.deferred[j].ref)
  }

  /** The map of patches points into the list. */
  ghost predicate Mapped(p: State) {
    forall id :: PatchKey(id) in p.deferredMap ==>
      p.deferredMap[PatchKey(id)] in p.deferred && p.deferredMap[PatchKey(id)].id == id && p.deferredMap[PatchKey(id)].typ.PatchType?
  }

  ghost predicate Inv(p: State) {
    && Identified(p) && Mapped(p) && NamesDistinct(p.deferred)
    && forall i :: 0 <= i < |p.deferred| ==> KnownArgs(p.valsCount, p.customCount, ArgsOf(p.deferred[i]))
  }

  const START := State(0, 0, [], map[], 0)

  lemma StartInv()
    ensures Inv(START)
  {
  }

  /** A patch whose names are new to the state. */
  ghost predicate Fresh(p: State, q: Patch) {
    && q.values.Keys == Args(q.script) && DistinctArgs(q.script)
    && q.valsCount >= p.valsCount && q.customCount >= p.customCount
    && KnownArgs(q.valsCount, q.customCount, Args(q.script))
    && forall a :: a in Args(q.script) ==> !Known(p.valsCount, p.customCount, a)
  }

  lemma ValuePatchFresh(p: State, id: string, action: Action, path: string, value: Json)
    ensures Fresh(p, ValuePatch(p, id, action, path, value))
  {
    var q := ValuePatch(p, id, action, path, value);
    var a := ValueName(p.valsCount);
    assert q.script[0].arg == a;
    assert Args(q.script) == {a};
    if Known(p.valsCount, p.customCount, a) {
      if n: nat :| n < p.valsCount && a == ValueName(n) {
        ValueNamesDiffer(n, p.valsCount);
        assert false;
      } else {
        var i: nat, s: nat :| s <= p.customCount && a == ArrayName(i, s);
        ValueAndArrayNamesDiffer(p.valsCount, i, s);
        assert false;
      }
    }
  }

  lemma {:induction false} ParametersKeys(items: seq<Item>, path: string, suffix: nat)
    ensures Parameters(items, suffix).Keys == Args(Lines(items, path, suffix))
  {
    if items != [] {
      var n := |items| - 1;
      ParametersKeys(items[..n], path, suffix);
      var s, t := Lines(items, path, suffix), Lines(items[..n], path, suffix);
      assert Args(s) == Args(t) + {ArrayName(n, suffix)} by {
        forall a ensures a in Args(s) <==> a in Args(t) || a == ArrayName(n, suffix) {
          if a in Args(t) {
            var i :| 0 <= i < |t| && t[i].arg == a;
            assert s[i].arg == a;
          }
          assert s[n].arg == ArrayName(n, suffix);
        }
      }
    }
  }

  lemma ArrayPatchFresh(p: State, c: Call)
    requires c.ArrayCalls?
    ensures Fresh(p, PatchOf(p, c))
  {
    var q := PatchOf(p, c);
    var items, suffix := Items(c.calls), p.customCount + 1;
    ParametersKeys(items, c.path, suffix);
    forall i, j | 0 <= i < j < |q.script| ensures q.script[i].arg != q.script[j].arg {
      if q.script[i].arg == q.script[j].arg { ArrayNamesDiffer(i, suffix, j, suffix); }
    }
    forall a | a in Args(q.script) ensures Known(q.valsCount, q.customCount, a) && !Known(p.valsCount, p.customCount, a) {
      var i :| 0 <= i < |q.script| && q.script[i].arg == a;
      assert a == ArrayName(i, suffix);
      NewSuffix(p, i);
    }
  }

  lemma NewSuffix(p: State, i: nat)
    ensures !Known(p.valsCount, p.customCount, ArrayName(i, p.customCount + 1))
  {
    var a := ArrayName(i, p.customCount + 1);
    if n: nat :| n < p.valsCount && a == ValueName(n) {
      ValueAndArrayNamesDiffer(n, i, p.customCount + 1);
    }
    if j: nat, s: nat :| s <= p.customCount && a == ArrayName(j, s) {
      ArrayNamesDiffer(i, p.customCount + 1, j, s);
    }
  }

  lemma PatchFresh(p: State, c: Call)
    requires !c.DeferCall?
    ensures Fresh(p, PatchOf(p, c))
  {
    match c
    case IncrementCall(id, path, value) => ValuePatchFresh(p, id, Increment, path, value);
    case PatchCall(id, path, value) => ValuePatchFresh(p, id, Assign, path, value);
    case ArrayCalls(_, _, _) => ArrayPatchFresh(p, c);
  }

  // ---- every call keeps the invariant, and the removal always finds its element ----

  /** The state with the counters of a patch. */
  function Counted(p: State, q: Patch): State {
    p.(valsCount := q.valsCount, customCount := q.customCount)
  }

  lemma CountedInv(p: State, q: Patch)
    requires Inv(p) && Fresh(p, q)
    ensures Inv(Counted(p, q))
    ensures forall i :: 0 <= i < |p.deferred| ==> ArgsOf(p.deferred[i]) !! Args(q.script)
  {
  }

  /** A command that may join the list. */
  ghost predicate Joins(p: State, c: Cmd) {
    && c.ref == p.next && Bound(c) && KnownArgs(p.valsCount, p.customCount, ArgsOf(c))
    && (c.typ.PatchType? ==> c.name == "") && !c.typ.AnyCommand? && !c.typ.NotAttachment?
    && forall i :: 0 <= i < |p.deferred| ==> ArgsOf(p.deferred[i]) !! ArgsOf(c)
  }

  /** Everything but the entry of one id, which is about to be overwritten. */
  ghost predicate InvBut(p: State, id: string) {
    && Identified(p) && NamesDistinct(p.deferred)
    && (forall x :: x != id && PatchKey(x) in p.deferredMap ==>
          p.deferredMap[PatchKey(x)] in p.deferred && p.deferredMap[PatchKey(x)].id == x && p.deferredMap[PatchKey(x)].typ.PatchType?)
    && forall i :: 0 <= i < |p.deferred| ==> KnownArgs(p.valsCount, p.customCount, ArgsOf(p.deferred[i]))
  }

  /** The map points into the list, but for the entry a patch is about to overwrite. */
  ghost predicate MappedBut(p: State, c: Cmd) {
    forall x :: (c.typ.PatchType? ==> x != c.id) && PatchKey(x) in p.deferredMap ==>
      p.deferredMap[PatchKey(x)] in p.deferred && p.deferredMap[PatchKey(x)].id == x && p.deferredMap[PatchKey(x)].typ.PatchType?
  }

  lemma DeferredInv(p: State, c: Cmd)
    requires Joins(p, c) && if c.typ.PatchType? then InvBut(p, c.id) else Inv(p)
    ensures Inv(Deferred(p, c))
  {
    DeferredNames(p, c);
    DeferredMapped(p, c);
  }

  lemma DeferredNames(p: State, c: Cmd)
    requires Joins(p, c) && Identified(p) && NamesDistinct(p.deferred)
    ensures Identified(Deferred(p, c)) && NamesDistinct(Deferred(p, c).deferred)
  {
  }

  lemma DeferredMapped(p: State, c: Cmd)
    requires Joins(p, c) && MappedBut(p, c)
    ensures Mapped(Deferred(p, c))
  {
    var t := Deferred(p, c);
    assert t.deferred[|p.deferred|] == c;
    forall id | PatchKey(id) in t.deferredMap
      ensures t.deferredMap[PatchKey(id)] in t.deferred && t.deferredMap[PatchKey(id)].id == id && t.deferredMap[PatchKey(id)].typ.PatchType?
    {
      if c.typ.PatchType? && id == c.id {
        assert t.deferredMap[PatchKey(id)] == c;
      } else {
        assert t.deferredMap[PatchKey(id)] == p.deferredMap[PatchKey(id)];
      }
    }
  }

  lemma WithoutInv(p: State, id: string, i: nat)
    requires Inv(p) && PatchKey(id) in p.deferredMap && i < |p.deferred| && p.deferred[i] == p.deferredMap[PatchKey(id)]
    ensures InvBut(p.(deferred := Without(p.deferred, i)), id)
    ensures forall j :: 0 <= j < |Without(p.deferred, i)| ==> ArgsOf(Without(p.deferred, i)[j]) !! ArgsOf(p.deferred[i])
  {
  }

  /** `removeDeferredCommand` finds the element the map names, and no other. */
  lemma RemovalFinds(p: State, id: string)
    requires Inv(p) && PatchKey(id) in p.deferredMap
    ensures var i := Position(p.deferred, p.deferredMap[PatchKey(id)].ref);
            i < |p.deferred| && p.deferred[i] == p.deferredMap[PatchKey(id)]
  {
  }

  lemma MergedBound(p: State, id: string, prior: Cmd, script: Script, values: Fields)
    requires Bound(prior) && prior.typ.PatchType? && values.Keys == Args(script) && DistinctArgs(script) && Args(prior.script) !! Args(script)
    ensures Bound(Merged(p, id, prior, script, values))
    ensures ArgsOf(Merged(p, id, prior, script, values)) == Args(prior.script) + Args(script)
  {
    var s := prior.script + script;
    forall a ensures a in Args(s) <==> a in Args(prior.script) || a in Args(script) {
      if a in Args(prior.script) {
        var i :| 0 <= i < |prior.script| && prior.script[i].arg == a;
        assert s[i].arg == a;
      }
      if a in Args(script) {
        var i :| 0 <= i < |script| && script[i].arg == a;
        assert s[|prior.script| + i].arg == a;
      }
    }
    forall i, j | 0 <= i < j < |s| ensures s[i].arg != s[j].arg {
      assert i < |prior.script| ==> prior.script[i].arg in Args(prior.script);
      assert j >= |prior.script| ==> script[j - |prior.script|].arg in Args(script);
    }
  }

  lemma AddPatchInv(p: State, id: string, script: Script, values: Fields)
    requires Inv(p) && values.Keys == Args(script) && DistinctArgs(script) && KnownArgs(p.valsCount, p.customCount, Args(script))
    requires forall i :: 0 <= i < |p.deferred| ==> ArgsOf(p.deferred[i]) !! Args(script)
    ensures AddPatch(p, id, script, values).Some? && Inv(AddPatch(p, id, script, values).value)
  {
    if PatchKey(id) !in p.deferredMap {
      DeferredInv(p, Single(p, id, script, values));
    } else {
      var prior := p.deferredMap[PatchKey(id)];
      RemovalFinds(p, id);
      var i := Position(p.deferred, prior.ref);
      WithoutInv(p, id, i);
      MergedJoins(p, id, i, script, values);
      DeferredInv(p.(deferred := Without(p.deferred, i)), Merged(p, id, prior, script, values));
    }
  }

  lemma MergedJoins(p: State, id: string, i: nat, script: Script, values: Fields)
    requires NamesDistinct(p.deferred) && i < |p.deferred| && p.deferred[i].typ.PatchType?
    requires values.Keys == Args(script) && DistinctArgs(script) && KnownArgs(p.valsCount, p.customCount, Args(script))
    requires KnownArgs(p.valsCount, p.customCount, ArgsOf(p.deferred[i]))
    requires forall j :: 0 <= j < |p.deferred| ==> ArgsOf(p.deferred[j]) !! Args(script)
    ensures Joins(p.(deferred := Without(p.deferred, i)), Merged(p, id, p.deferred[i], script, values))
  {
    MergedBound(p, id, p.deferred[i], script, values);
    var w := Without(p.deferred, i);
    assert forall j :: 0 <= j < |w| ==> w[j] == p.deferred[if j < i then j else j + 1];
  }

  /** No call ends in the panic of `removeDeferredCommand`, and all argument names stay pairwise distinct. */
  lemma StepInv(p: State, c: Call)
    requires Inv(p)
    ensures Step(p, c).Some? && Inv(Step(p, c).value)
  {
    if Accepted(c) {
      if c.DeferCall? {
        DeferredInv(p, Own(p, c));
      } else {
        var q := PatchOf(p, c);
        PatchFresh(p, c);
        CountedInv(p, q);
        AddPatchInv(Counted(p, q), q.id, q.script, q.values);
      }
    }
  }

  // ---- merging preserves meaning --------------------------------------------------

  /** A merge that moves nothing past another command on the same document. */
  ghost predicate Clean(p: State, id: string) {
    PatchKey(id) in p.deferredMap ==>
      var prior := p.deferredMap[PatchKey(id)];
      prior.script == [] || Quiet(p.deferred, Position(p.deferred, prior.ref) + 1, Text.Lower(id))
  }

  /** From a position on, no command acts on the document. */
  ghost predicate Quiet(list: seq<Cmd>, from: nat, doc: string) {
    forall j :: from <= j < |list| ==> EffectsOn(list[j], doc) == []
  }

  lemma {:induction false} QuietTrace(list: seq<Cmd>, doc: string)
    ensures Trace(list, doc) == [] <==> Quiet(list, 0, doc)
  {
    if list != [] {
      QuietTrace(list[1..], doc);
      if Quiet(list, 0, doc) {
        forall j | 0 <= j < |list[1..]| ensures EffectsOn(list[1..][j], doc) == [] { assert list[1..][j] == list[j + 1]; }
      }
      if Trace(list, doc) == [] {
        forall j | 0 <= j < |list| ensures EffectsOn(list[j], doc) == [] {
          if j > 0 { assert list[j] == list[1..][j - 1]; }
        }
      }
    }
  }

  /** The first effect of a list of commands comes from one of them. */
  lemma {:induction false} TraceHead(list: seq<Cmd>, doc: string) returns (j: nat)
    requires Trace(list, doc) != []
    ensures j < |list| && EffectsOn(list[j], doc) != [] && EffectsOn(list[j], doc)[0] == Trace(list, doc)[0]
  {
    if EffectsOn(list[0], doc) != [] {
      j := 0;
    } else {
      var k := TraceHead(list[1..], doc);
      j := k + 1;
    }
  }

  lemma HeadsDiffer(a: Cmd, b: Cmd, doc: string)
    requires a.typ.PatchType? && EffectsOf(a) != [] && EffectsOn(b, doc) != [] && ArgsOf(a) !! ArgsOf(b)
    ensures EffectsOf(a)[0] != EffectsOn(b, doc)[0]
  {
    assert a.script[0].arg in ArgsOf(a);
    if b.typ.PatchType? { assert b.script[0].arg in ArgsOf(b); }
  }

  lemma Swap<T>(a: seq<T>, x: seq<T>, b: seq<T>, y: seq<T>)
    ensures a + b + (x + y) == a + x + b + y <==> b + x == x + b
  {
    var l, r := a + b + (x + y), a + x + b + y;
    assert l == a + (b + x) + y && r == a + (x + b) + y;
    if l == r {
      assert l[|a|..|a| + |b| + |x|] == b + x && r[|a|..|a| + |b| + |x|] == x + b;
    }
  }

  lemma SwapDifferent<T>(x: seq<T>, b: seq<T>)
    requires x != [] && b != [] ==> x[0] != b[0]
    ensures b + x == x + b <==> x == [] || b == []
  {
    if x != [] && b != [] { assert (b + x)[0] == b[0] && (x + b)[0] == x[0]; }
  }

  /** The lists on both sides of the moved patch. */
  lemma SplitTrace(list: seq<Cmd>, i: nat, doc: string)
    requires i < |list|
    ensures Trace(list, doc) == Trace(list[..i], doc) + EffectsOn(list[i], doc) + Trace(list[i + 1..], doc)
    ensures Trace(Without(list, i), doc) == Trace(list[..i], doc) + Trace(list[i + 1..], doc)
  {
    assert list == list[..i] + list[i..] && list[i..][1..] == list[i + 1..];
    TraceAppend(list[..i], list[i..], doc);
    TraceAppend(list[..i], list[i + 1..], doc);
    Associate(Trace(list[..i], doc), EffectsOn(list[i], doc), Trace(list[i + 1..], doc));
  }

  lemma TraceOne(list: seq<Cmd>, c: Cmd, doc: string)
    ensures Trace(list + [c], doc) == Trace(list, doc) + EffectsOn(c, doc)
  {
    TraceAppend(list, [c], doc);
    assert Trace([c], doc) == EffectsOn(c, doc) + Trace([], doc);
  }

  /** The merged command does what the two patches do, one after the other. */
  lemma MergedDoesBoth(p: State, id: string, prior: Cmd, script: Script, values: Fields)
    requires prior.typ.PatchType? && prior.id == id && values.Keys == Args(script) && Args(prior.script) !! Args(script)
    ensures EffectsOf(Merged(p, id, prior, script, values)) == EffectsOf(prior) + EffectsOf(Single(p, id, script, values))
  {
  }

  /** The new list, and the list without merging. */
  ghost predicate SameMeaning(a: seq<Cmd>, b: seq<Cmd>) {
    forall doc :: Trace(a, doc) == Trace(b, doc)
  }

  lemma MovedTrace(list: seq<Cmd>, i: nat, own: Cmd, merged: Cmd, doc: string)
    requires i < |list| && Text.Lower(list[i].id) == Text.Lower(own.id) == Text.Lower(merged.id)
    requires list[i].typ.PatchType? && EffectsOf(merged) == EffectsOf(list[i]) + EffectsOf(own)
    requires forall j :: i < j < |list| ==> ArgsOf(list[i]) !! ArgsOf(list[j])
    ensures Trace(Without(list, i) + [merged], doc) == Trace(list + [own], doc)
            <==> doc != Text.Lower(own.id) || list[i].script == [] || Quiet(list, i + 1, doc)
  {
    var a, b := Trace(list[..i], doc), Trace(list[i + 1..], doc);
    MovedSides(list, i, own, merged, doc);
    if doc == Text.Lower(own.id) {
      QuietTrace(list[i + 1..], doc);
      QuietFrom(list, i + 1, doc);
      TailHeadDiffers(list, i, doc);
      Reordered(a, EffectsOf(list[i]), b, EffectsOf(own));
    } else {
      NothingMoves(a, b);
    }
  }

  lemma Reordered<T>(a: seq<T>, x: seq<T>, b: seq<T>, y: seq<T>)
    requires x != [] && b != [] ==> x[0] != b[0]
    ensures a + b + (x + y) == a + x + b + y <==> x == [] || b == []
  {
    Swap(a, x, b, y);
    SwapDifferent(x, b);
  }

  lemma NothingMoves<T>(a: seq<T>, b: seq<T>)
    ensures a + b + [] == a + [] + b + []
  {
  }

  /** Both lists, taken apart at the merged patch. */
  lemma MovedSides(list: seq<Cmd>, i: nat, own: Cmd, merged: Cmd, doc: string)
    requires i < |list|
    ensures var a, b := Trace(list[..i], doc), Trace(list[i + 1..], doc);
            && Trace(Without(list, i) + [merged], doc) == a + b + EffectsOn(merged, doc)
            && Trace(list + [own], doc) == a + EffectsOn(list[i], doc) + b + EffectsOn(own, doc)
  {
    SplitTrace(list, i, doc);
    TraceOne(Without(list, i), merged, doc);
    TraceOne(list, own, doc);
  }

  /** The effects of a patch and those of the commands after it begin differently. */
  lemma TailHeadDiffers(list: seq<Cmd>, i: nat, doc: string)
    requires i < |list| && list[i].typ.PatchType? && forall j :: i < j < |list| ==> ArgsOf(list[i]) !! ArgsOf(list[j])
    ensures EffectsOf(list[i]) != [] && Trace(list[i + 1..], doc) != [] ==> EffectsOf(list[i])[0] != Trace(list[i + 1..], doc)[0]
  {
    if EffectsOf(list[i]) != [] && Trace(list[i + 1..], doc) != [] {
      var j := TraceHead(list[i + 1..], doc);
      assert list[i + 1..][j] == list[i + 1 + j];
      HeadsDiffer(list[i], list[i + 1 + j], doc);
    }
  }

  lemma QuietFrom(list: seq<Cmd>, from: nat, doc: string)
    requires from <= |list|
    ensures Quiet(list[from..], 0, doc) <==> Quiet(list, from, doc)
  {
  }

  /** Merging preserves meaning: running the list after the call equals running the list before it and then the
      call's own patch, on every document, exactly if no other command on the document lies in between. */
  lemma MergeExact(p: State, id: string, script: Script, values: Fields)
    requires Inv(p) && values.Keys == Args(script) && forall i :: 0 <= i < |p.deferred| ==> ArgsOf(p.deferred[i]) !! Args(script)
    ensures AddPatch(p, id, script, values).Some?
    ensures SameMeaning(AddPatch(p, id, script, values).value.deferred, p.deferred + [Single(p, id, script, values)]) <==> Clean(p, id)
  {
    if PatchKey(id) in p.deferredMap {
      var own := Single(p, id, script, values);
      var prior := p.deferredMap[PatchKey(id)];
      RemovalFinds(p, id);
      var i := Position(p.deferred, prior.ref);
      var merged := Merged(p, id, prior, script, values);
      assert ArgsOf(p.deferred[i]) !! Args(script);
      MergedDoesBoth(p, id, prior, script, values);
      var list := Without(p.deferred, i) + [merged];
      MovedTrace(p.deferred, i, own, merged, Text.Lower(id));
      forall doc | Clean(p, id) ensures Trace(list, doc) == Trace(p.deferred + [own], doc) {
        MovedTrace(p.deferred, i, own, merged, doc);
      }
    }
  }

  // ---- whole runs -----------------------------------------------------------------

  /** Calls, and the commands they would defer without merging. */
  datatype History = History(p: State, own: seq<Cmd>)

  function Advance(h: History, c: Call): History {
    var p := Step(h.p, c);
    if !Accepted(c) || p.None? then h else History(p.value, h.own + [Own(h.p, c)])
  }

  function After(h: History, calls: seq<Call>): History
    decreases |calls|
  {
    if calls == [] then h else After(Advance(h, calls[0]), calls[1..])
  }

  ghost predicate CleanRun(h: History, calls: seq<Call>)
    decreases |calls|
  {
    calls != [] ==>
      && (Accepted(calls[0]) && !calls[0].DeferCall? ==> Clean(h.p, calls[0].id))
      && CleanRun(Advance(h, calls[0]), calls[1..])
  }

  lemma AdvanceMeaning(h: History, c: Call)
    requires Inv(h.p) && SameMeaning(h.p.deferred, h.own)
    requires Accepted(c) && !c.DeferCall? ==> Clean(h.p, c.id)
    ensures Inv(Advance(h, c).p) && SameMeaning(Advance(h, c).p.deferred, Advance(h, c).own)
  {
    StepInv(h.p, c);
    if Accepted(c) {
      var own := Own(h.p, c);
      if !c.DeferCall? {
        var q := PatchOf(h.p, c);
        PatchFresh(h.p, c);
        CountedInv(h.p, q);
        assert Clean(Counted(h.p, q), c.id);
        MergeExact(Counted(h.p, q), q.id, q.script, q.values);
      }
      forall doc ensures Trace(Advance(h, c).p.deferred, doc) == Trace(h.own + [own], doc) {
        TraceOne(h.p.deferred, own, doc);
        TraceOne(h.own, own, doc);
      }
    }
  }

  /** Over any run of calls in which no other command on a document separates its patches, the deferred list
      does to every document what the calls do one after the other. */
  lemma {:induction false} RunMeaning(h: History, calls: seq<Call>)
    requires Inv(h.p) && SameMeaning(h.p.deferred, h.own) && CleanRun(h, calls)
    ensures Inv(After(h, calls).p) && SameMeaning(After(h, calls).p.deferred, After(h, calls).own)
    decreases |calls|
  {
    if calls != [] {
      AdvanceMeaning(h, calls[0]);
      RunMeaning(Advance(h, calls[0]), calls[1..]);
    }
  }

  /** The same from a new session on. */
  lemma MergingPreservesMeaning(calls: seq<Call>)
    requires CleanRun(History(START, []), calls)
    ensures var h := After(History(START, []), calls); SameMeaning(h.p.deferred, h.own)
  {
    StartInv();
    RunMeaning(History(START, []), calls);
  }

  /** Over any run at all, no call panics and the argument names are pairwise distinct. */
  lemma {:induction false} RunInv(h: History, calls: seq<Call>)
    requires Inv(h.p)
    ensures Inv(After(h, calls).p)
    decreases |calls|
  {
    if calls != [] {
      StepInv(h.p, calls[0]);
      RunInv(Advance(h, calls[0]), calls[1..]);
    }
  }

  // ---- two spellings of one id ----------------------------------------------------

  /** The value assignments leave at a path: the last one counts. */
  function ValueLeft(trace: seq<Effect>, path: string): Option<Json> {
    if trace == [] then None
    else
      var last := trace[|trace| - 1];
      if last.Run? && last.line.action.Assign? && last.line.path == path then Some(last.value)
      else ValueLeft(trace[..|trace| - 1], path)
  }

  function Assigns(n: nat, path: string, value: Json): Effect {
    Run(Statement(Assign, path, ValueName(n)), value)
  }

  lemma OwnAssigns(p: State, id: string, path: string, value: Json)
    ensures EffectsOf(Own(p, PatchCall(id, path, value))) == [Assigns(p.valsCount, path, value)]
  {
  }

  lemma FirstPatch(p: State, id: string, path: string, value: Json)
    requires id != "" && path != "" && !value.Null? && PatchKey(id) !in p.deferredMap
    ensures Step(p, PatchCall(id, path, value)) == Some(Deferred(p.(valsCount := p.valsCount + 1), Own(p, PatchCall(id, path, value))))
  {
  }

  /** Two spellings of one id, and two paths. */
  datatype Spellings = Spellings(id: string, other: string, path: string, path': string)

  predicate SameDocument(s: Spellings) {
    s.id != "" && s.id != s.other && Text.EqualFold(s.id, s.other) && s.path != "" && s.path' != "" && s.path != s.path'
  }

  /** The history after one call under each spelling. */
  function TwoSpellings(s: Spellings, v1: Json, v2: Json): History {
    Advance(Advance(History(START, []), PatchCall(s.id, s.path, v1)), PatchCall(s.other, s.path, v2))
  }

  /** Two patches are deferred, each under its own spelling. */
  ghost predicate TwoDeferred(h: History, s: Spellings, v1: Json, v2: Json) {
    && Inv(h.p) && h.p.valsCount == 2 && |h.p.deferred| == 2 && h.own == h.p.deferred
    && PatchKey(s.id) in h.p.deferredMap && h.p.deferredMap[PatchKey(s.id)] == h.p.deferred[0]
    && EffectsOf(h.p.deferred[0]) == [Assigns(0, s.path, v1)]
    && h.p.deferred[1].id == s.other && EffectsOf(h.p.deferred[1]) == [Assigns(1, s.path, v2)]
  }

  lemma TwoSpellingsDeferred(s: Spellings, v1: Json, v2: Json)
    requires SameDocument(s) && !v1.Null? && !v2.Null?
    ensures TwoDeferred(TwoSpellings(s, v1, v2), s, v1, v2)
  {
    StartInv();
    var h1 := OnePatch(History(START, []), s.id, s.path, v1);
    var h2 := OnePatch(h1, s.other, s.path, v2);
    assert h2.p.deferred == [h1.p.deferred[0], h2.p.deferred[1]];
  }

  /** A patch under an id that has none yet joins the end of the list. */
  lemma OnePatch(h: History, id: string, path: string, value: Json) returns (h': History)
    requires Inv(h.p) && id != "" && path != "" && !value.Null? && PatchKey(id) !in h.p.deferredMap
    ensures h' == Advance(h, PatchCall(id, path, value)) && Inv(h'.p) && h'.p.valsCount == h.p.valsCount + 1
    ensures var own := Own(h.p, PatchCall(id, path, value));
            && h'.p.deferred == h.p.deferred + [own] && h'.own == h.own + [own] && own.id == id
            && EffectsOf(own) == [Assigns(h.p.valsCount, path, value)]
            && PatchKey(id) in h'.p.deferredMap && h'.p.deferredMap[PatchKey(id)] == own
            && (forall x :: x != id && PatchKey(x) in h'.p.deferredMap ==> PatchKey(x) in h.p.deferredMap)
            && (forall x :: x != id && PatchKey(x) in h.p.deferredMap ==>
                  PatchKey(x) in h'.p.deferredMap && h'.p.deferredMap[PatchKey(x)] == h.p.deferredMap[PatchKey(x)])
  {
    var c := PatchCall(id, path, value);
    StepInv(h.p, c);
    FirstPatch(h.p, id, path, value);
    OwnAssigns(h.p, id, path, value);
    h' := Advance(h, c);
  }

  lemma TraceTwo(a: Cmd, b: Cmd, doc: string)
    requires On(a, doc) && On(b, doc)
    ensures Trace([a, b], doc) == EffectsOf(a) + EffectsOf(b)
  {
    assert [a, b] == [a] + [b];
    TraceOne([], a, doc);
    TraceOne([a], b, doc);
    assert [] + [a] == [a];
  }

  /** A later patch under the first spelling: it is merged, and the merged patch goes to the end of the list. */
  lemma ThirdPatch(h: History, s: Spellings, v1: Json, v2: Json, v3: Json)
    requires TwoDeferred(h, s, v1, v2) && SameDocument(s) && !v3.Null?
    ensures var c := PatchCall(s.id, s.path', v3); var h' := Advance(h, c);
            && h'.own == h.own + [Own(h.p, c)] && |h'.p.deferred| == 2 && h'.p.deferred[0] == h.p.deferred[1]
            && h'.p.deferred[1].id == s.id
            && EffectsOf(h'.p.deferred[1]) == [Assigns(0, s.path, v1)] + [Assigns(2, s.path', v3)]
  {
    var c := PatchCall(s.id, s.path', v3);
    RemovalFinds(h.p, s.id);
    OwnAssigns(h.p, s.id, s.path', v3);
    MergedWithOwn(h.p, c, h.p.deferred[0]);
    MergesFirst(h.p, c);
  }

  /** The patch merged with the one of a call does what both do. */
  lemma MergedWithOwn(p: State, c: Call, prior: Cmd)
    requires Inv(p) && Accepted(c) && !c.DeferCall? && prior in p.deferred && prior.typ.PatchType? && prior.id == c.id
    ensures var q := PatchOf(p, c);
            EffectsOf(Merged(Counted(p, q), c.id, prior, q.script, q.values)) == EffectsOf(prior) + EffectsOf(Own(p, c))
  {
    var q := PatchOf(p, c);
    PatchFresh(p, c);
    CountedInv(p, q);
    var i :| 0 <= i < |p.deferred| && p.deferred[i] == prior;
    assert ArgsOf(p.deferred[i]) !! Args(q.script);
    MergedDoesBoth(Counted(p, q), c.id, prior, q.script, q.values);
    assert Single(Counted(p, q), q.id, q.script, q.values) == Own(p, c);
  }

  /** A call that merges with the first of two commands. */
  lemma MergesFirst(p: State, c: Call)
    requires Accepted(c) && c.PatchCall? && |p.deferred| == 2 && PatchKey(c.id) in p.deferredMap
    requires Position(p.deferred, p.deferredMap[PatchKey(c.id)].ref) == 0
    ensures var q := PatchOf(p, c); var t := Step(p, c);
            && t.Some? && |t.value.deferred| == 2 && t.value.deferred[0] == p.deferred[1]
            && t.value.deferred[1] == Merged(Counted(p, q), c.id, p.deferredMap[PatchKey(c.id)], q.script, q.values)
  {
    assert Without(p.deferred, 0) == [p.deferred[1]];
  }

  lemma TraceThree(list: seq<Cmd>, z: Cmd, doc: string)
    requires |list| == 2 && On(list[0], doc) && On(list[1], doc) && On(z, doc)
    ensures Trace(list + [z], doc) == EffectsOf(list[0]) + EffectsOf(list[1]) + EffectsOf(z)
  {
    assert list == [list[0], list[1]];
    TraceTwo(list[0], list[1], doc);
    TraceOne(list, z, doc);
  }

  lemma SpellingTraces(h: History, s: Spellings, v1: Json, v2: Json, v3: Json)
    requires TwoDeferred(h, s, v1, v2) && SameDocument(s) && !v3.Null?
    ensures var h' := Advance(h, PatchCall(s.id, s.path', v3)); var doc := Text.Lower(s.id);
            var a, b, d := Assigns(0, s.path, v1), Assigns(1, s.path, v2), Assigns(2, s.path', v3);
            Trace(h'.own, doc) == [a, b, d] && Trace(h'.p.deferred, doc) == [b, a, d]
  {
    var c := PatchCall(s.id, s.path', v3);
    ThirdPatch(h, s, v1, v2, v3);
    MapKeepsId(h.p, s.id);
    OwnAssigns(h.p, s.id, s.path', v3);
    var h' := Advance(h, c);
    TracesOfAssignments(h.own, h'.p.deferred, Own(h.p, c), Text.Lower(s.id), Assigns(0, s.path, v1), Assigns(1, s.path, v2), Assigns(2, s.path', v3));
  }

  /** Three commands one after the other, and the first one merged with the third. */
  lemma TracesOfAssignments(own: seq<Cmd>, list: seq<Cmd>, last: Cmd, doc: string, a: Effect, b: Effect, d: Effect)
    requires |own| == 2 && |list| == 2 && list[0] == own[1] && On(own[0], doc) && On(own[1], doc) && On(last, doc) && On(list[1], doc)
    requires EffectsOf(own[0]) == [a] && EffectsOf(own[1]) == [b] && EffectsOf(last) == [d] && EffectsOf(list[1]) == [a] + [d]
    ensures Trace(own + [last], doc) == [a, b, d] && Trace(list, doc) == [b, a, d]
  {
    TraceThree(own, last, doc);
    TraceTwo(list[0], list[1], doc);
    assert list == [list[0], list[1]];
  }

  lemma ValuesLeft(s: Spellings, v1: Json, v2: Json, v3: Json)
    requires s.path != s.path'
    ensures var a, b, d := Assigns(0, s.path, v1), Assigns(1, s.path, v2), Assigns(2, s.path', v3);
            && ValueLeft([a, b, d], s.path) == Some(v2) && ValueLeft([b, a, d], s.path) == Some(v1)
            && ValueLeft([a, b, d], s.path') == ValueLeft([b, a, d], s.path') == Some(v3)
  {
    var a, b, d := Assigns(0, s.path, v1), Assigns(1, s.path, v2), Assigns(2, s.path', v3);
    assert [a, b, d] == [a, b] + [d] && [b, a, d] == [b, a] + [d] && [a, b] == [a] + [b] && [b, a] == [b] + [a];
    LastAssignment([a, b], d, s.path);
    LastAssignment([a], b, s.path);
    LastAssignment([b, a], d, s.path);
    LastAssignment([b], a, s.path);
  }

  /** Two spellings of one id, whatever they are: the third call, on another path, moves the first patch behind the
      second, and the document ends with the first value instead of the second. */
  lemma OtherSpellingReorders(s: Spellings, v1: Json, v2: Json, v3: Json)
    requires SameDocument(s) && !v1.Null? && !v2.Null? && !v3.Null?
    ensures var h := Advance(TwoSpellings(s, v1, v2), PatchCall(s.id, s.path', v3)); var doc := Text.Lower(s.id);
            && ValueLeft(Trace(h.own, doc), s.path) == Some(v2)
            && ValueLeft(Trace(h.p.deferred, doc), s.path) == Some(v1)
            && ValueLeft(Trace(h.own, doc), s.path') == ValueLeft(Trace(h.p.deferred, doc), s.path') == Some(v3)
  {
    TwoSpellingsDeferred(s, v1, v2);
    SpellingTraces(TwoSpellings(s, v1, v2), s, v1, v2, v3);
    ValuesLeft(s, v1, v2, v3);
  }

  /** For instance these. */
  lemma SpellingsExist()
    ensures SameDocument(Spellings("users/1", "USERS/1", "name", "age"))
  {
    assert "users/1"[0] != "USERS/1"[0];
  }

  lemma MapKeepsId(p: State, id: string)
    requires Inv(p) && PatchKey(id) in p.deferredMap
    ensures p.deferredMap[PatchKey(id)].id == id
  {
  }

  lemma LastAssignment(trace: seq<Effect>, e: Effect, path: string)
    ensures ValueLeft(trace + [e], path)
            == if e.Run? && e.line.action.Assign? && e.line.path == path then Some(e.value) else ValueLeft(trace, path)
  {
    assert (trace + [e])[..|trace|] == trace;
  }
}
