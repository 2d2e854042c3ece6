/** What patch calls do to a document: the deferred list, once the server runs it, against the calls themselves. */
module PatchMeaning {
  import opened Wrappers
  import opened JsonDocs
  import opened SessionModel
  import opened PatchMerging
  import Decimal
  import Text

  // ---- the server -----------------------------------------------------------------

  /** How the server treats what the model does not interpret: `mixed` is the value a statement leaves that does not find
      the kind of value it works on, and `command` is what another deferred command does to the document. */
  datatype Server = Server(mixed: (Action, Json, Json) -> Json, command: (nat, Fields) -> Fields)

  function FieldAt(doc: Fields, path: string): Json {
    if path in doc then doc[path] else Null
  }

  /** JavaScript's truth of a value. */
  predicate Truthy(j: Json) {
    match j
    case Null => false
    case Bool(b) => b
    case Num(v) => v != 0.0
    case Str(s) => s != ""
    case _ => true
  }

  /** `this.path = this.path ? this.path + value : value`. */
  function Incremented(server: Server, prev: Json, value: Json): Json {
    if !Truthy(prev) then value
    else if prev.Num? && value.Num? then Num(prev.v + value.v)
    else server.mixed(Increment, prev, value)
  }

  /** `this.path.push(value)`. */
  function Pushed(server: Server, prev: Json, value: Json): Json {
    if prev.Arr? then Arr(prev.items + [value]) else server.mixed(Push, prev, value)
  }

  /** `this.path.splice(index, 1)`; a negative index counts from the end. */
  function Spliced(server: Server, prev: Json, index: Json): Json {
    if prev.Arr? && index.Num? then
      var n, i := |prev.items|, index.v.Floor;
      var k := if i < 0 then (if n + i < 0 then 0 else n + i) else i;
      if k < n then Arr(Without(prev.items, k)) else prev
    else server.mixed(Splice, prev, index)
  }

  /** One statement on a document. */
  function Perform(server: Server, doc: Fields, action: Action, path: string, value: Json): Fields {
    var prev := FieldAt(doc, path);
    doc[path := match action
                case Increment => Incremented(server, prev, value)
                case Assign => value
                case Push => Pushed(server, prev, value)
                case Splice => Spliced(server, prev, value)]
  }

  /** A trace on a document, from its first effect on. */
  function Play(server: Server, doc: Fields, trace: seq<Effect>): Fields
    decreases |trace|
  {
    if trace == [] then doc
    else
      var next := match trace[0]
                  case Run(line, value) => Perform(server, doc, line.action, line.path, value)
                  case Other(ref) => server.command(ref, doc);
      Play(server, next, trace[1..])
  }

  lemma {:induction false} PlayAppend(server: Server, doc: Fields, a: seq<Effect>, b: seq<Effect>)
    ensures Play(server, doc, a + b) == Play(server, Play(server, doc, a), b)
    decreases |a|
  {
    if a == [] {
      assert a + b == b;
    } else {
      assert (a + b)[1..] == a[1..] + b;
      var next := match a[0]
                  case Run(line, value) => Perform(server, doc, line.action, line.path, value)
                  case Other(ref) => server.command(ref, doc);
      PlayAppend(server, next, a[1..], b);
    }
  }

  // ---- the calls, directly --------------------------------------------------------

  /** What a call asks for. */
  datatype Deed = Deed(action: Action, path: string, value: Json)

  /** A call on an array: one push per argument, or one removal. */
  function DeedsOfArray(c: ArrayCall, path: string): seq<Deed> {
    match c
    case Add(args) => seq(|args|, i requires 0 <= i < |args| => Deed(Push, path, args[i]))
    case RemoveAt(index) => [Deed(Splice, path, Num(index as real))]
  }

  function DeedsOfCalls(calls: seq<ArrayCall>, path: string): seq<Deed> {
    if calls == [] then [] else DeedsOfArray(calls[0], path) + DeedsOfCalls(calls[1..], path)
  }

  /** An increment adds, a patch assigns, and array calls push and remove in the order they were made. */
  function Deeds(c: Call): seq<Deed>
    requires !c.DeferCall?
  {
    match c
    case IncrementCall(_, path, value) => [Deed(Increment, path, value)]
    case PatchCall(_, path, value) => [Deed(Assign, path, value)]
    case ArrayCalls(_, path, calls) => DeedsOfCalls(calls, path)
  }

  /** The effects of the command a call makes are the deeds of the call, under whatever argument names. */
  ghost predicate Carries(effects: seq<Effect>, deeds: seq<Deed>) {
    && |effects| == |deeds|
    && forall i :: 0 <= i < |deeds| ==>
         effects[i].Run? && Deed(effects[i].line.action, effects[i].line.path, effects[i].value) == deeds[i]
  }

  lemma {:induction false} ParameterOf(items: seq<Item>, suffix: nat, i: nat)
    requires i < |items|
    ensures Lookup(Parameters(items, suffix), ArrayName(i, suffix)) == items[i].value
  {
    var n := |items| - 1;
    if i < n {
      ParameterOf(items[..n], suffix, i);
      if ArrayName(i, suffix) == ArrayName(n, suffix) { ArrayNamesDiffer(i, suffix, n, suffix); }
    }
  }

  function DeedsOfItems(items: seq<Item>, path: string): seq<Deed> {
    seq(|items|, i requires 0 <= i < |items| => Deed(items[i].action, path, items[i].value))
  }

  lemma {:induction false} PushesAt(args: seq<Json>)
    ensures |Pushes(args)| == |args| && forall i :: 0 <= i < |args| ==> Pushes(args)[i] == Item(Push, args[i])
  {
    if args != [] { PushesAt(args[..|args| - 1]); }
  }

  lemma ItemsOfDeeds(c: ArrayCall, path: string)
    ensures DeedsOfItems(ItemsOf(c), path) == DeedsOfArray(c, path)
  {
    if c.Add? { PushesAt(c.args); }
  }

  lemma {:induction false} DeedsAppend(calls: seq<ArrayCall>, c: ArrayCall, path: string)
    ensures DeedsOfCalls(calls + [c], path) == DeedsOfCalls(calls, path) + DeedsOfArray(c, path)
    decreases |calls|
  {
    if calls == [] {
      assert [] + [c] == [c];
      assert DeedsOfCalls([c], path) == DeedsOfArray(c, path) + DeedsOfCalls([], path);
    } else {
      assert (calls + [c])[1..] == calls[1..] + [c];
      DeedsAppend(calls[1..], c, path);
      Associate(DeedsOfArray(calls[0], path), DeedsOfCalls(calls[1..], path), DeedsOfArray(c, path));
    }
  }

  lemma {:induction false} ItemsDeeds(calls: seq<ArrayCall>, path: string)
    ensures DeedsOfItems(Items(calls), path) == DeedsOfCalls(calls, path)
    decreases |calls|
  {
    if calls != [] {
      var n := |calls| - 1;
      ItemsDeeds(calls[..n], path);
      ItemsOfDeeds(calls[n], path);
      assert calls == calls[..n] + [calls[n]];
      DeedsAppend(calls[..n], calls[n], path);
      DeedsOfBoth(Items(calls[..n]), ItemsOf(calls[n]), path);
    }
  }

  lemma DeedsOfBoth(a: seq<Item>, b: seq<Item>, path: string)
    ensures DeedsOfItems(a + b, path) == DeedsOfItems(a, path) + DeedsOfItems(b, path)
  {
  }

  /** What one call does, stated on the call. */
  lemma CallCarries(p: State, c: Call)
    requires !c.DeferCall?
    ensures Own(p, c).id == c.id && Own(p, c).typ.PatchType? && Carries(EffectsOf(Own(p, c)), Deeds(c))
  {
    if c.ArrayCalls? { ArrayCarries(p, c); }
  }

  lemma ArrayCarries(p: State, c: Call)
    requires c.ArrayCalls?
    ensures Carries(EffectsOf(Own(p, c)), Deeds(c))
  {
    var q := PatchOf(p, c);
    ItemsDeeds(c.calls, c.path);
    ItemsCarry(Items(c.calls), c.path, p.customCount + 1);
    SingleEffects(p, q.id, q.script, q.values);
  }

  lemma SingleEffects(p: State, id: string, script: Script, values: Fields)
    ensures EffectsOf(Single(p, id, script, values)) == Effects(script, values)
  {
  }

  lemma ItemsCarry(items: seq<Item>, path: string, suffix: nat)
    ensures Carries(Effects(Lines(items, path, suffix), Parameters(items, suffix)), DeedsOfItems(items, path))
  {
    var effects := Effects(Lines(items, path, suffix), Parameters(items, suffix));
    forall i | 0 <= i < |items|
      ensures effects[i].Run? && Deed(effects[i].line.action, effects[i].line.path, effects[i].value) == DeedsOfItems(items, path)[i]
    {
      ItemEffect(items, path, suffix, i);
    }
  }

  lemma ItemEffect(items: seq<Item>, path: string, suffix: nat, i: nat)
    requires i < |items|
    ensures Effects(Lines(items, path, suffix), Parameters(items, suffix))[i]
            == Run(Statement(items[i].action, path, ArrayName(i, suffix)), items[i].value)
  {
    ParameterOf(items, suffix, i);
  }

  // ---- whole runs -----------------------------------------------------------------

  function DoDeeds(server: Server, doc: Fields, deeds: seq<Deed>): Fields
    decreases |deeds|
  {
    if deeds == [] then doc else DoDeeds(server, Perform(server, doc, deeds[0].action, deeds[0].path, deeds[0].value), deeds[1..])
  }

  lemma {:induction false} CarriesPlays(server: Server, doc: Fields, effects: seq<Effect>, deeds: seq<Deed>)
    requires Carries(effects, deeds)
    ensures Play(server, doc, effects) == DoDeeds(server, doc, deeds)
    decreases |deeds|
  {
    if deeds != [] {
      var d := deeds[0];
      assert effects[0].Run? && Deed(effects[0].line.action, effects[0].line.path, effects[0].value) == d;
      CarriesPlays(server, Perform(server, doc, d.action, d.path, d.value), effects[1..], deeds[1..]);
    }
  }

  /** One accepted call on a document; `k` is its number among the accepted calls. */
  function DoCall(server: Server, doc: Fields, id: string, c: Call, k: nat): Fields {
    if Text.Lower(c.id) != id then doc
    else if c.DeferCall? then server.command(k, doc)
    else DoDeeds(server, doc, Deeds(c))
  }

  /** The calls one after the other, each at once. */
  function DoCalls(server: Server, doc: Fields, id: string, calls: seq<Call>, k: nat): Fields
    decreases |calls|
  {
    if calls == [] then doc
    else if Accepted(calls[0]) then DoCalls(server, DoCall(server, doc, id, calls[0], k), id, calls[1..], k + 1)
    else DoCalls(server, doc, id, calls[1..], k)
  }

  lemma AdvanceCounts(h: History, c: Call)
    requires Inv(h.p)
    ensures Inv(Advance(h, c).p)
    ensures Accepted(c) ==> Advance(h, c).p.next == h.p.next + 1 && Advance(h, c).own == h.own + [Own(h.p, c)]
    ensures !Accepted(c) ==> Advance(h, c) == h
  {
    StepInv(h.p, c);
  }

  /** The command of a call, played alone. */
  lemma OwnPlays(server: Server, doc: Fields, id: string, p: State, c: Call)
    requires Accepted(c)
    ensures Play(server, doc, EffectsOn(Own(p, c), id)) == DoCall(server, doc, id, c, p.next)
  {
    if !c.DeferCall? {
      CallCarries(p, c);
      CarriesPlays(server, doc, EffectsOf(Own(p, c)), Deeds(c));
    } else if Text.Lower(c.id) == id {
      assert EffectsOn(Own(p, c), id) == [Other(p.next)];
      assert Play(server, server.command(p.next, doc), [Other(p.next)][1..]) == server.command(p.next, doc);
    }
  }

  lemma {:induction false} OwnRunPlays(server: Server, doc: Fields, id: string, h: History, calls: seq<Call>)
    requires Inv(h.p)
    ensures Play(server, doc, Trace(After(h, calls).own, id)) == DoCalls(server, Play(server, doc, Trace(h.own, id)), id, calls, h.p.next)
    decreases |calls|
  {
    if calls != [] {
      var c := calls[0];
      AdvanceCounts(h, c);
      OwnRunPlays(server, doc, id, Advance(h, c), calls[1..]);
      DoCallsFirst(server, Play(server, doc, Trace(h.own, id)), id, calls, h.p.next);
      if Accepted(c) { OwnNextPlays(server, doc, id, h.own, h.p, c); }
    }
  }

  lemma DoCallsFirst(server: Server, doc: Fields, id: string, calls: seq<Call>, k: nat)
    requires calls != []
    ensures DoCalls(server, doc, id, calls, k)
            == if Accepted(calls[0]) then DoCalls(server, DoCall(server, doc, id, calls[0], k), id, calls[1..], k + 1)
               else DoCalls(server, doc, id, calls[1..], k)
  {
  }

  lemma OneCall(server: Server, doc: Fields, c: Call, k: nat)
    requires Accepted(c) && !c.DeferCall?
    ensures DoCalls(server, doc, Text.Lower(c.id), [c], k) == DoDeeds(server, doc, Deeds(c))
  {
    assert [c][1..] == [];
  }

  lemma OwnNextPlays(server: Server, doc: Fields, id: string, own: seq<Cmd>, p: State, c: Call)
    requires Accepted(c)
    ensures Play(server, doc, Trace(own + [Own(p, c)], id)) == DoCall(server, Play(server, doc, Trace(own, id)), id, c, p.next)
  {
    TraceOne(own, Own(p, c), id);
    PlayAppend(server, doc, Trace(own, id), EffectsOn(Own(p, c), id));
    OwnPlays(server, Play(server, doc, Trace(own, id)), id, p, c);
  }

  /** Over any clean run from a new session on, the deferred commands leave every document as the calls would, each made
      at once. */
  lemma RunDoes(server: Server, doc: Fields, id: string, calls: seq<Call>)
    requires CleanRun(History(START, []), calls)
    ensures Play(server, doc, Trace(After(History(START, []), calls).p.deferred, id)) == DoCalls(server, doc, id, calls, 0)
  {
    StartInv();
    MergingPreservesMeaning(calls);
    var h := After(History(START, []), calls);
    assert Trace(h.p.deferred, id) == Trace(h.own, id);
    OwnRunPlays(server, doc, id, History(START, []), calls);
  }

  // ---- runs on one id -------------------------------------------------------------

  /** All calls are accepted patches under one spelling of one id. */
  ghost predicate PatchesOf(calls: seq<Call>, id: string) {
    forall i :: 0 <= i < |calls| ==> !calls[i].DeferCall? && Accepted(calls[i]) && calls[i].id == id
  }

  /** At most the one command of this id is deferred. */
  ghost predicate OnlyPatch(p: State, id: string) {
    Inv(p) && (p.deferred == [] || (|p.deferred| == 1 && PatchKey(id) in p.deferredMap))
  }

  lemma OnlyPatchStays(h: History, c: Call)
    requires OnlyPatch(h.p, c.id) && !c.DeferCall? && Accepted(c)
    ensures Clean(h.p, c.id) && OnlyPatch(Advance(h, c).p, c.id)
  {
    StepInv(h.p, c);
    if PatchKey(c.id) in h.p.deferredMap { RemovalFinds(h.p, c.id); }
    var q := PatchOf(h.p, c);
    OneCommandStays(Counted(h.p, q), q.id, q.script, q.values);
  }

  lemma OneCommandStays(p: State, id: string, script: Script, values: Fields)
    requires p.deferred == [] || (|p.deferred| == 1 && PatchKey(id) in p.deferredMap)
    requires PatchKey(id) in p.deferredMap ==> Position(p.deferred, p.deferredMap[PatchKey(id)].ref) < |p.deferred|
    ensures var t := AddPatch(p, id, script, values); t.Some? && |t.value.deferred| == 1 && PatchKey(id) in t.value.deferredMap
  {
  }

  lemma {:induction false} PatchesAreClean(h: History, calls: seq<Call>, id: string)
    requires OnlyPatch(h.p, id) && PatchesOf(calls, id)
    ensures CleanRun(h, calls)
    decreases |calls|
  {
    if calls != [] {
      assert calls[0].id == id;
      OnlyPatchStays(h, calls[0]);
      PatchesAreClean(Advance(h, calls[0]), calls[1..], id);
    }
  }

  /** What the deferred commands make of the document after such a run. */
  function Outcome(server: Server, doc: Fields, id: string, calls: seq<Call>): Fields {
    Play(server, doc, Trace(After(History(START, []), calls).p.deferred, Text.Lower(id)))
  }

  lemma OutcomeDoes(server: Server, doc: Fields, id: string, calls: seq<Call>)
    requires PatchesOf(calls, id)
    ensures Outcome(server, doc, id, calls) == DoCalls(server, doc, Text.Lower(id), calls, 0)
  {
    StartInv();
    PatchesAreClean(History(START, []), calls, id);
    RunDoes(server, doc, Text.Lower(id), calls);
  }

  function Total(values: seq<real>): real {
    if values == [] then 0.0 else values[0] + Total(values[1..])
  }

  function Increments(id: string, path: string, values: seq<real>): (calls: seq<Call>)
    ensures |calls| == |values| && forall i :: 0 <= i < |values| ==> calls[i] == IncrementCall(id, path, Num(values[i]))
  {
    seq(|values|, i requires 0 <= i < |values| => IncrementCall(id, path, Num(values[i])))
  }

  lemma {:induction false} IncrementsDo(server: Server, doc: Fields, id: string, path: string, values: seq<real>, k: nat)
    requires id != "" && path != "" && path in doc && doc[path].Num?
    ensures DoCalls(server, doc, Text.Lower(id), Increments(id, path, values), k) == doc[path := Num(doc[path].v + Total(values))]
    decreases |values|
  {
    if values == [] {
      assert doc[path := Num(doc[path].v)] == doc;
    } else {
      var next := doc[path := Num(doc[path].v + values[0])];
      assert DoDeeds(server, doc, [Deed(Increment, path, Num(values[0]))]) == next;
      assert Increments(id, path, values)[1..] == Increments(id, path, values[1..]);
      IncrementsDo(server, next, id, path, values[1..], k + 1);
    }
  }

  /** Increments add up: after any number of them the field holds its old value plus all of theirs. */
  lemma IncrementsAddUp(server: Server, doc: Fields, id: string, path: string, values: seq<real>)
    requires id != "" && path != "" && path in doc && doc[path].Num?
    ensures Outcome(server, doc, id, Increments(id, path, values)) == doc[path := Num(doc[path].v + Total(values))]
  {
    OutcomeDoes(server, doc, id, Increments(id, path, values));
    IncrementsDo(server, doc, id, path, values, 0);
  }

  function Assignments(id: string, path: string, values: seq<Json>): (calls: seq<Call>)
    ensures |calls| == |values| && forall i :: 0 <= i < |values| ==> calls[i] == PatchCall(id, path, values[i])
  {
    seq(|values|, i requires 0 <= i < |values| => PatchCall(id, path, values[i]))
  }

  lemma {:induction false} AssignmentsDo(server: Server, doc: Fields, id: string, path: string, values: seq<Json>, k: nat)
    requires id != "" && path != "" && values != [] && forall i :: 0 <= i < |values| ==> !values[i].Null?
    ensures DoCalls(server, doc, Text.Lower(id), Assignments(id, path, values), k) == doc[path := values[|values| - 1]]
    decreases |values|
  {
    var next := doc[path := values[0]];
    assert DoDeeds(server, doc, [Deed(Assign, path, values[0])]) == next;
    assert Assignments(id, path, values)[1..] == Assignments(id, path, values[1..]);
    if |values| > 1 {
      AssignmentsDo(server, next, id, path, values[1..], k + 1);
    } else {
      assert Assignments(id, path, values[1..]) == [];
    }
  }

  /** The last assignment counts. */
  lemma LastAssignmentCounts(server: Server, doc: Fields, id: string, path: string, values: seq<Json>)
    requires id != "" && path != "" && values != [] && forall i :: 0 <= i < |values| ==> !values[i].Null?
    ensures Outcome(server, doc, id, Assignments(id, path, values)) == doc[path := values[|values| - 1]]
  {
    OutcomeDoes(server, doc, id, Assignments(id, path, values));
    AssignmentsDo(server, doc, id, path, values, 0);
  }

  lemma {:induction false} PushesDo(server: Server, doc: Fields, path: string, args: seq<Json>)
    requires path in doc && doc[path].Arr?
    ensures DoDeeds(server, doc, DeedsOfArray(Add(args), path)) == doc[path := Arr(doc[path].items + args)]
    decreases |args|
  {
    var deeds := DeedsOfArray(Add(args), path);
    if args == [] {
      assert doc[path].items + args == doc[path].items && doc[path := doc[path]] == doc;
    } else {
      var next := doc[path := Arr(doc[path].items + [args[0]])];
      assert deeds[1..] == DeedsOfArray(Add(args[1..]), path);
      PushesDo(server, next, path, args[1..]);
      assert [args[0]] + args[1..] == args;
      Associate(doc[path].items, [args[0]], args[1..]);
    }
  }

  lemma OneArrayCall(c: ArrayCall, path: string)
    ensures DeedsOfCalls([c], path) == DeedsOfArray(c, path)
  {
    assert [c][1..] == [];
  }

  /** An array patch that adds values appends them in order. */
  lemma AddedAreAppended(server: Server, doc: Fields, id: string, path: string, args: seq<Json>)
    requires id != "" && path != "" && path in doc && doc[path].Arr?
    ensures Outcome(server, doc, id, [ArrayCalls(id, path, [Add(args)])]) == doc[path := Arr(doc[path].items + args)]
  {
    var c := ArrayCalls(id, path, [Add(args)]);
    OutcomeDoes(server, doc, id, [c]);
    OneCall(server, doc, c, 0);
    OneArrayCall(Add(args), path);
    PushesDo(server, doc, path, args);
  }

  /** An array patch that removes a position removes that element. */
  lemma RemovedIsGone(server: Server, doc: Fields, id: string, path: string, index: nat)
    requires id != "" && path != "" && path in doc && doc[path].Arr? && index < |doc[path].items|
    ensures Outcome(server, doc, id, [ArrayCalls(id, path, [RemoveAt(index)])]) == doc[path := Arr(Without(doc[path].items, index))]
  {
    var c := ArrayCalls(id, path, [RemoveAt(index)]);
    OutcomeDoes(server, doc, id, [c]);
    OneCall(server, doc, c, 0);
    OneArrayCall(RemoveAt(index), path);
    OneDeed(server, doc, Deed(Splice, path, Num(index as real)));
    SpliceRemoves(server, doc[path].items, index);
  }

  lemma OneDeed(server: Server, doc: Fields, d: Deed)
    ensures DoDeeds(server, doc, [d]) == Perform(server, doc, d.action, d.path, d.value)
  {
    assert [d][1..] == [];
  }

  lemma SpliceRemoves(server: Server, items: seq<Json>, index: nat)
    requires index < |items|
    ensures Spliced(server, Arr(items), Num(index as real)) == Arr(Without(items, index))
  {
    assert (index as real).Floor == index;
  }

  /** The argument names as they appear in a script. */
  lemma NamesInScript()
    ensures ValueName(7) == "val_7" && ArrayName(1, 2) == "val_1_2"
  {
    assert Decimal.Digits(7) == "7" && Decimal.Digits(1) == "1" && Decimal.Digits(2) == "2";
  }

  /** An empty id, an empty path and a nil value are refused, and nothing changes. */
  lemma RefusedCalls(p: State, id: string, path: string, value: Json, calls: seq<ArrayCall>)
    requires id == "" || path == "" || value.Null?
    ensures Step(p, IncrementCall(id, path, value)) == Some(p) && Step(p, PatchCall(id, path, value)) == Some(p)
    ensures id == "" || path == "" ==> Step(p, ArrayCalls(id, path, calls)) == Some(p)
  {
  }
}
