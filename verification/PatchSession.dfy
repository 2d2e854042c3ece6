/** The patch calls of `DocumentSession` and the `JavaScriptArray` builder, as mutable objects. */
module PatchSession {
  import opened Wrappers
  import opened JsonDocs
  import opened SessionModel
  import opened PatchMerging
  import Decimal

  class JavaScriptArray {
    const suffix: nat
    const pathToArray: string
    var argCounter: nat
    var scriptLines: Script
    var parameters: Fields

    /** The builder holds the lines and values of the items added so far. */
    ghost predicate Holds(items: seq<Item>)
      reads this
    {
      && argCounter == |items|
      && scriptLines == Lines(items, pathToArray, suffix)
      && parameters == Parameters(items, suffix)
    }

    constructor (suffix: nat, pathToArray: string)
      ensures Holds([]) && this.suffix == suffix && this.pathToArray == pathToArray
    {
      this.suffix := suffix;
      this.pathToArray := pathToArray;
      argCounter := 0;
      scriptLines := [];
      parameters := map[];
    }

    /** `getNextArgumentName`. */
    method NextArgumentName() returns (name: string)
      modifies this`argCounter
      ensures name == ArrayName(old(argCounter), suffix) && argCounter == old(argCounter) + 1
    {
      name := PREFIX + Decimal.Digits(argCounter) + "_" + Decimal.Digits(suffix);
      argCounter := argCounter + 1;
    }

    method Append(item: Item, ghost items: seq<Item>)
      requires Holds(items)
      modifies this
      ensures Holds(items + [item])
    {
      var name := NextArgumentName();
      scriptLines := scriptLines + [Statement(item.action, pathToArray, name)];
      parameters := parameters[name := item.value];
      assert (items + [item])[..|items|] == items;
    }

    method AddAll(args: seq<Json>, ghost items: seq<Item>)
      requires Holds(items)
      modifies this
      ensures Holds(items + Pushes(args))
    {
      var i := 0;
      assert items + Pushes(args[..0]) == items;
      while i < |args|
        invariant 0 <= i <= |args| && Holds(items + Pushes(args[..i]))
      {
        assert args[..i + 1][..i] == args[..i];
        assert items + Pushes(args[..i + 1]) == items + Pushes(args[..i]) + [Item(Push, args[i])];
        Append(Item(Push, args[i]), items + Pushes(args[..i]));
        i := i + 1;
      }
      assert args[..i] == args;
    }

    method RemoveAtIndex(index: int, ghost items: seq<Item>)
      requires Holds(items)
      modifies this
      ensures Holds(items + [Item(Splice, Num(index as real))])
    {
      Append(Item(Splice, Num(index as real)), items);
    }

    method ApplyOne(c: ArrayCall, ghost items: seq<Item>)
      requires Holds(items)
      modifies this
      ensures Holds(items + ItemsOf(c))
    {
      match c {
        case Add(args) => AddAll(args, items);
        case RemoveAt(index) => RemoveAtIndex(index, items);
      }
    }

    /** What the callback of `PatchArray` does with the builder. */
    method Apply(calls: seq<ArrayCall>)
      requires Holds([])
      modifies this
      ensures Holds(Items(calls))
    {
      var i := 0;
      while i < |calls|
        invariant 0 <= i <= |calls| && Holds(Items(calls[..i]))
      {
        ghost var items := Items(calls[..i]);
        assert calls[..i + 1][..i] == calls[..i];
        assert Items(calls[..i + 1]) == items + ItemsOf(calls[i]);
        ApplyOne(calls[i], items);
        i := i + 1;
      }
      assert calls[..i] == calls;
    }
  }

  /** A call first counts its names, and then adds its patch. */
  lemma StepAdds(p: State, c: Call)
    requires Inv(p) && Accepted(c) && !c.DeferCall?
    ensures var q := PatchOf(p, c); Inv(Counted(p, q)) && Step(p, c) == AddPatch(Counted(p, q), q.id, q.script, q.values)
  {
    PatchFresh(p, c);
    CountedInv(p, PatchOf(p, c));
  }

  class DocumentSession {
    var valsCount: nat
    var customCount: nat
    var deferredCommands: seq<Cmd>
    var deferredCommandsMap: map<Key, Cmd>
    var allocations: nat

    ghost function View(): State
      reads this
    {
      State(valsCount, customCount, deferredCommands, deferredCommandsMap, allocations)
    }

    constructor ()
      ensures View() == START
    {
      valsCount, customCount, deferredCommands, deferredCommandsMap, allocations := 0, 0, [], map[], 0;
    }

    /** `Defer` of a command just made. */
    method Defer(c: Cmd)
      modifies this`deferredCommands, this`deferredCommandsMap, this`allocations
      ensures View() == Deferred(old(View()), c)
    {
      allocations := allocations + 1;
      deferredCommands := deferredCommands + [c];
      deferredCommandsMap := DeferInternal(deferredCommandsMap, Key(c.id, c.typ, c.name), c);
    }

    /** `removeDeferredCommand`: the invariant rules the panic out. */
    method RemoveDeferred(ref: nat)
      requires Position(deferredCommands, ref) < |deferredCommands|
      modifies this`deferredCommands
      ensures deferredCommands == Without(old(deferredCommands), Position(old(deferredCommands), ref))
    {
      var i := 0;
      while i < |deferredCommands| && deferredCommands[i].ref != ref
        invariant 0 <= i <= |deferredCommands|
        invariant forall j :: 0 <= j < i ==> deferredCommands[j].ref != ref
      {
        i := i + 1;
      }
      assert i == Position(deferredCommands, ref);
      deferredCommands := deferredCommands[..i] + deferredCommands[i + 1..];
    }

    /** `tryMergePatches`. */
    method TryMergePatches(id: string, script: Script, values: Fields) returns (merged: bool)
      requires Inv(View())
      modifies this
      ensures merged <==> PatchKey(id) in old(deferredCommandsMap)
      ensures if merged then AddPatch(old(View()), id, script, values) == Some(View()) else View() == old(View())
    {
      if PatchKey(id) !in deferredCommandsMap { return false; }
      var prior := deferredCommandsMap[PatchKey(id)];
      RemovalFinds(View(), id);
      RemoveDeferred(prior.ref);
      Defer(Cmd(allocations, id, PatchType, "", prior.script + script, prior.values + values));
      merged := true;
    }

    /** The end of the three patch calls. */
    method MergeOrDefer(id: string, script: Script, values: Fields)
      requires Inv(View())
      modifies this
      ensures AddPatch(old(View()), id, script, values) == Some(View())
    {
      var merged := TryMergePatches(id, script, values);
      if !merged { Defer(Cmd(allocations, id, PatchType, "", script, values)); }
    }

    /** `IncrementByID`; the call is refused for an empty id, an empty path and a nil value. */
    method IncrementByID(id: string, path: string, value: Json) returns (ok: bool)
      requires Inv(View())
      modifies this
      ensures ok <==> Accepted(IncrementCall(id, path, value))
      ensures Step(old(View()), IncrementCall(id, path, value)) == Some(View()) && Inv(View())
    {
      StepInv(View(), IncrementCall(id, path, value));
      if id == "" || path == "" || value.Null? { return false; }
      var name := PREFIX + Decimal.Digits(valsCount);
      StepAdds(View(), IncrementCall(id, path, value));
      valsCount := valsCount + 1;
      MergeOrDefer(id, [Statement(Increment, path, name)], map[name := value]);
      ok := true;
    }

    /** `PatchByID`. */
    method PatchByID(id: string, path: string, value: Json) returns (ok: bool)
      requires Inv(View())
      modifies this
      ensures ok <==> Accepted(PatchCall(id, path, value))
      ensures Step(old(View()), PatchCall(id, path, value)) == Some(View()) && Inv(View())
    {
      StepInv(View(), PatchCall(id, path, value));
      if id == "" || path == "" || value.Null? { return false; }
      var name := PREFIX + Decimal.Digits(valsCount);
      StepAdds(View(), PatchCall(id, path, value));
      valsCount := valsCount + 1;
      MergeOrDefer(id, [Statement(Assign, path, name)], map[name := value]);
      ok := true;
    }

    /** `PatchArrayByID`. */
    method PatchArrayByID(id: string, path: string, calls: seq<ArrayCall>) returns (ok: bool)
      requires Inv(View())
      modifies this
      ensures ok <==> Accepted(ArrayCalls(id, path, calls))
      ensures Step(old(View()), ArrayCalls(id, path, calls)) == Some(View()) && Inv(View())
    {
      StepInv(View(), ArrayCalls(id, path, calls));
      if id == "" || path == "" { return false; }
      ghost var before, q := View(), PatchOf(View(), ArrayCalls(id, path, calls));
      StepAdds(before, ArrayCalls(id, path, calls));
      customCount := customCount + 1;
      var script, values := BuildArray(path, calls);
      assert View() == Counted(before, q) && script == q.script && values == q.values;
      MergeOrDefer(id, script, values);
      ok := true;
    }

    /** The builder, and what the callback makes of it. */
    method BuildArray(path: string, calls: seq<ArrayCall>) returns (script: Script, values: Fields)
      ensures script == Lines(Items(calls), path, customCount) && values == Parameters(Items(calls), customCount)
    {
      var builder := new JavaScriptArray(customCount, path);
      builder.Apply(calls);
      script, values := builder.scriptLines, builder.parameters;
    }
  }
}
