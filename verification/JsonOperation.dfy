/** The comparison of json_operation.go: one recursion over shared buffers, in two modes. */
module JsonOperation {
  import opened JsonDocs
  import opened JsonChanges
  import Text
  import Wrappers

  /** `docChanges` and the `changes` map that the Go code passes by reference; `recording` is `changes != nil`. */
  class Recorder {
    const recording: bool
    var docChanges: seq<Change>
    var changes: map<string, seq<Change>>

    constructor (recording: bool, changes: map<string, seq<Change>>)
      ensures this.recording == recording && docChanges == [] && this.changes == changes
    {
      this.recording := recording;
      this.docChanges := [];
      this.changes := changes;
    }

    /** A difference was found: `jsonOperationNewChange` if the mode asks for it. */
    method Differ(c: Change) returns (out: Outcome)
      modifies this`docChanges
      ensures out == Returned(true)
      ensures docChanges == if recording then old(docChanges) + [c] else old(docChanges)
    {
      if recording { docChanges := docChanges + [c]; }
      out := Returned(true);
    }
  }

  /** A call of the recording mode did what the report says. */
  ghost predicate Recorded(rep: Report, before: seq<Change>, after: seq<Change>, out: Outcome) {
    if rep.Crashed? then out.Panicked? else out.Returned? && after == before + rep.list
  }

  /** Only the entry of the document is written, and only once something was recorded. */
  ghost predicate WritesOnly(id: string, before: map<string, seq<Change>>, after: map<string, seq<Change>>, doc: seq<Change>) {
    after == before || (doc != [] && id in after && after == before[id := after[id]])
  }

  /** `jsonOperationEntityChanged`: the entry point, with an empty list of document changes. */
  method EntityChanged(recording: bool, env: Env, id: string, newDocument: bool, document: Json, newObj: Json,
                       changes: map<string, seq<Change>>)
    returns (out: Outcome, changes': map<string, seq<Change>>)
    requires ValidEnv(env) && newObj.Obj? && (document.Obj? || document.Null?)
    ensures newDocument || document.Null? ==> out == Returned(true)
    ensures !newDocument && document.Obj? ==>
              FastVerdict(out, SameObject(env.render, document, newObj), ComparableObject(document, newObj))
    ensures !recording && !newDocument && document.Obj? ==> out == FastObject(env, document, newObj)
    ensures !recording ==> changes' == changes
    ensures recording && !newDocument && document.Obj? ==> (out.Panicked? <==> !ComparableObject(document, newObj))
    ensures recording && out == Returned(false) ==> changes' == changes
    ensures recording && out == Returned(true) && !newDocument && document.Obj? ==>
              && ObjectReport(env, document, newObj).Changes?
              && changes' == changes[id := ObjectReport(env, document, newObj).list]
    ensures recording && (newDocument || document.Null?) ==>
              changes' == changes[id := (if id in changes then changes[id] else []) + [Change("", Null, Null, DocumentAdded)]]
  {
    var r := new Recorder(recording, changes);
    if !newDocument && document.Obj? {
      FastDecidesSame(env, document, newObj);
      ReportDecidesSame(env, document, newObj);
      out := CompareObject(r, env, id, document, newObj);
      if recording && out.Returned? {
        assert r.docChanges == ObjectReport(env, document, newObj).list;
      }
      return out, r.changes;
    }
    if !recording { return Returned(true), changes; }
    out := r.Differ(Change("", Null, Null, DocumentAdded));
    assert r.docChanges == [Change("", Null, Null, DocumentAdded)];
    changes' := changes[id := (if id in changes then changes[id] else []) + r.docChanges];
  }

  /** `jsonOperationCompareJson`. */
  method CompareObject(r: Recorder, env: Env, id: string, o: Json, n: Json) returns (out: Outcome)
    requires o.Obj? && n.Obj?
    modifies r
    decreases o, 4
    ensures !r.recording ==> r.docChanges == old(r.docChanges) && r.changes == old(r.changes)
    ensures !r.recording ==> out == FastObject(env, o, n)
    ensures r.recording ==> Recorded(ObjectReport(env, o, n), old(r.docChanges), r.docChanges, out)
    ensures r.recording && out.Returned? ==> out.value == (r.docChanges != [])
    ensures r.recording && out.Returned? ==>
              r.changes == if out.value then old(r.changes)[id := r.docChanges] else old(r.changes)
  {
    var names := Text.SortedKeys(n.fields.Keys);
    Text.SortedSetProperties(n.fields.Keys);
    var removed := env.removed(o, n);
    var stop := RecordRemoved(r, removed);
    if stop { return Returned(true); }
    ghost var between := r.docChanges;
    out := CompareFields(r, env, id, o, n, names);
    if out.Panicked? || !r.recording { return; }
    ObjectRecorded(env, o, n, names, old(r.docChanges), between, r.docChanges);
    Overwritten(id, old(r.changes), r.changes, r.docChanges);
    out := FinishDocument(r, id);
  }

  /** The end of `jsonOperationCompareJson`: recorded changes go under the id. */
  method FinishDocument(r: Recorder, id: string) returns (out: Outcome)
    modifies r`changes
    ensures out == Returned(r.docChanges != [])
    ensures r.changes == if r.docChanges != [] then old(r.changes)[id := r.docChanges] else old(r.changes)
  {
    if r.docChanges == [] { return Returned(false); }
    r.changes := r.changes[id := r.docChanges];
    out := Returned(true);
  }

  /** The last write makes up for every write under the same id. */
  lemma Overwritten(id: string, before: map<string, seq<Change>>, after: map<string, seq<Change>>, doc: seq<Change>)
    requires WritesOnly(id, before, after, doc)
    ensures after[id := doc] == before[id := doc]
  {
  }

  lemma ObjectRecorded(env: Env, o: Json, n: Json, names: seq<string>, before: seq<Change>, between: seq<Change>, after: seq<Change>)
    requires o.Obj? && n.Obj? && names == Text.SortedSet(n.fields.Keys) && forall k :: k in names ==> k in n.fields
    requires between == before + RemovedChanges(env.removed(o, n)) && FieldsReport(env, o, n, names).Changes?
    requires after == between + FieldsReport(env, o, n, names).list
    ensures ObjectReport(env, o, n).Changes? && after == before + ObjectReport(env, o, n).list
  {
    Wrappers.Associate(before, RemovedChanges(env.removed(o, n)), FieldsReport(env, o, n, names).list);
  }

  lemma RemovedNext(removed: seq<string>, i: nat)
    requires i < |removed|
    ensures RemovedChanges(removed[..i + 1]) == RemovedChanges(removed[..i]) + [Change(removed[i], Null, Null, RemovedField)]
  {
  }

  /** Records the removed names; the fast mode stops at the first one. */
  method RecordRemoved(r: Recorder, removed: seq<string>) returns (stop: bool)
    modifies r`docChanges
    ensures stop <==> !r.recording && removed != []
    ensures r.docChanges == if r.recording then old(r.docChanges) + RemovedChanges(removed) else old(r.docChanges)
  {
    var i := 0;
    while i < |removed|
      invariant 0 <= i <= |removed| && (i > 0 ==> r.recording)
      invariant r.docChanges == if r.recording then old(r.docChanges) + RemovedChanges(removed[..i]) else old(r.docChanges)
    {
      if !r.recording { return true; }
      var _ := r.Differ(Change(removed[i], Null, Null, RemovedField));
      RemovedNext(removed, i);
      i := i + 1;
    }
    assert removed[..i] == removed;
    stop := false;
  }

  /** What was recorded so far and what `rest` still reports make up the whole report. */
  ghost predicate Ahead(all: Report, rest: Report, before: seq<Change>, now: seq<Change>) {
    if rest.Crashed? then all.Crashed? else all.Changes? && before + all.list == now + rest.list
  }

  lemma AheadStep(all: Report, f: Report, rest: Report, before: seq<Change>, now: seq<Change>, next: seq<Change>, out: Outcome)
    requires Ahead(all, Then(f, rest), before, now) && Recorded(f, now, next, out)
    ensures if out.Panicked? then all.Crashed? else Ahead(all, rest, before, next)
  {
    if f.Changes? && rest.Changes? { Wrappers.Associate(now, f.list, rest.list); }
  }

  /** The field loop of `jsonOperationCompareJson`. */
  method CompareFields(r: Recorder, env: Env, id: string, o: Json, n: Json, names: seq<string>) returns (out: Outcome)
    requires o.Obj? && n.Obj? && forall k :: k in names ==> k in n.fields
    modifies r
    decreases o, 3
    ensures !r.recording ==> r.docChanges == old(r.docChanges) && r.changes == old(r.changes)
    ensures !r.recording ==> out == FastFields(env, o, n, names)
    ensures r.recording ==> Recorded(FieldsReport(env, o, n, names), old(r.docChanges), r.docChanges, out)
    ensures out.Returned? ==> WritesOnly(id, old(r.changes), r.changes, r.docChanges)
  {
    var i := 0;
    ghost var all := FieldsReport(env, o, n, names);
    assert names[0..] == names;
    while i < |names|
      invariant 0 <= i <= |names|
      invariant !r.recording ==> r.docChanges == old(r.docChanges) && r.changes == old(r.changes)
      invariant !r.recording ==> FastFields(env, o, n, names) == FastFields(env, o, n, names[i..])
      invariant r.recording ==> Ahead(all, FieldsReport(env, o, n, names[i..]), old(r.docChanges), r.docChanges)
      invariant WritesOnly(id, old(r.changes), r.changes, r.docChanges)
    {
      ghost var before := r.docChanges;
      FieldsNext(env, o, n, names, i);
      out := CompareField(r, env, id, o, n, names[i]);
      if r.recording {
        AheadStep(all, FieldReport(env, o, n, names[i]), FieldsReport(env, o, n, names[i + 1..]), old(r.docChanges), before, r.docChanges, out);
      }
      if out.Panicked? || (!r.recording && out.value) { return; }
      i := i + 1;
    }
    out := Returned(false);
  }

  lemma FieldsNext(env: Env, o: Json, n: Json, names: seq<string>, i: nat)
    requires o.Obj? && n.Obj? && i < |names| && forall k :: k in names ==> k in n.fields
    ensures FieldsReport(env, o, n, names[i..]) == Then(FieldReport(env, o, n, names[i]), FieldsReport(env, o, n, names[i + 1..]))
    ensures FastFields(env, o, n, names[i..])
            == (var f := FastField(env, o, n, names[i]); if f == Returned(false) then FastFields(env, o, n, names[i + 1..]) else f)
  {
    assert names[i..][0] == names[i] && names[i..][1..] == names[i + 1..];
  }

  /** One turn of the field loop. */
  method CompareField(r: Recorder, env: Env, id: string, o: Json, n: Json, k: string) returns (out: Outcome)
    requires o.Obj? && n.Obj? && k in n.fields
    modifies r
    decreases o, 2
    ensures !r.recording ==> r.docChanges == old(r.docChanges) && r.changes == old(r.changes)
    ensures !r.recording ==> out == FastField(env, o, n, k)
    ensures r.recording ==> Recorded(FieldReport(env, o, n, k), old(r.docChanges), r.docChanges, out)
    ensures out.Returned? ==> WritesOnly(id, old(r.changes), r.changes, r.docChanges)
  {
    var next := n.fields[k];
    if Ignored(k) { return Returned(false); }
    if k !in o.fields {
      out := r.Differ(Change(k, next, Null, NewField));
      return;
    }
    var prev := o.fields[k];
    match next
    case Bool(_) =>
      var eq := ScalarEqual(next, prev);   // the result is dropped
      out := if eq.Panicked? then eq else Returned(false);
    case Null =>
      out := Returned(false);
      if !prev.Null? { out := r.Differ(Change(k, Null, prev, FieldChanged)); }
    case Arr(_) =>
      if prev.Arr? {
        out := CompareArray(r, env, id, prev, next, k);
      } else {
        out := r.Differ(Change(k, next, prev, FieldChanged));
      }
    case Obj(_) =>
      if prev.Obj? {
        out := CompareObject(r, env, id, prev, next);
      } else {
        out := r.Differ(Change(k, next, Null, FieldChanged));
      }
    case _ =>
      var eq := ScalarEqual(next, prev);
      if eq.Panicked? { return eq; }
      out := Returned(false);
      if !eq.value { out := r.Differ(Change(k, next, prev, FieldChanged)); }
  }

  /** `jsonOperationCompareJsonArray`. */
  method CompareArray(r: Recorder, env: Env, id: string, o: Json, n: Json, name: string) returns (out: Outcome)
    requires o.Arr? && n.Arr?
    modifies r
    decreases o, 4
    ensures !r.recording ==> r.docChanges == old(r.docChanges) && r.changes == old(r.changes)
    ensures !r.recording ==> out == FastArray(env, o, n)
    ensures r.recording ==> Recorded(ElementsReport(env, o, n, name, 0), old(r.docChanges), r.docChanges, out)
    ensures out.Returned? ==> WritesOnly(id, old(r.changes), r.changes, r.docChanges)
  {
    if |o.items| != |n.items| && !r.recording { return Returned(true); }
    ghost var done;
    out, done := CompareCommon(r, env, id, o, n, name);
    if out.Panicked? || !r.recording { return; }
    RecordTail(r, env, o, n, name);
    assert r.docChanges == old(r.docChanges) + (done + ElementsReport(env, o, n, name, MinLength(o, n)).list);
  }

  /** The positions both arrays have: every one is visited, even after a difference. */
  method CompareCommon(r: Recorder, env: Env, id: string, o: Json, n: Json, name: string)
    returns (out: Outcome, ghost done: seq<Change>)
    requires o.Arr? && n.Arr?
    modifies r
    decreases o, 3
    ensures !r.recording ==> r.docChanges == old(r.docChanges) && r.changes == old(r.changes)
    ensures !r.recording ==> out == FastElements(env, o, n, 0, false)
    ensures r.recording && out.Panicked? ==> ElementsReport(env, o, n, name, 0).Crashed?
    ensures r.recording && out.Returned? ==> r.docChanges == old(r.docChanges) + done
    ensures r.recording && out.Returned? ==>
              ElementsReport(env, o, n, name, 0) == Then(Changes(done), ElementsReport(env, o, n, name, MinLength(o, n)))
    ensures out.Returned? ==> WritesOnly(id, old(r.changes), r.changes, r.docChanges)
  {
    var changed := false;
    var position := 0;
    done := [];
    while position < MinLength(o, n)
      invariant 0 <= position <= MinLength(o, n)
      invariant !r.recording ==> r.docChanges == old(r.docChanges) && r.changes == old(r.changes)
      invariant !r.recording ==> FastElements(env, o, n, 0, false) == FastElements(env, o, n, position, changed)
      invariant r.recording ==> r.docChanges == old(r.docChanges) + done
      invariant r.recording ==>
                  ElementsReport(env, o, n, name, 0) == Then(Changes(done), ElementsReport(env, o, n, name, position))
      invariant WritesOnly(id, old(r.changes), r.changes, r.docChanges)
    {
      ghost var e := ElementReport(env, o, n, name, position);
      ThenAssociative(Changes(done), e, ElementsReport(env, o, n, name, position + 1));
      out := CompareElement(r, env, id, o, n, name, position);
      if out.Panicked? { return; }
      if r.recording { done := done + e.list; }
      changed := changed || out.value;
      position := position + 1;
    }
    out := Returned(changed);
  }

  /** The positions only one array has. */
  method RecordTail(r: Recorder, ghost env: Env, o: Json, n: Json, name: string)
    requires o.Arr? && n.Arr? && r.recording
    modifies r`docChanges
    ensures ElementsReport(env, o, n, name, MinLength(o, n)).Changes?
    ensures r.docChanges == old(r.docChanges) + ElementsReport(env, o, n, name, MinLength(o, n)).list
  {
    var position := MinLength(o, n);
    TailQuiet(env, o, n, name, position);
    ghost var goal := r.docChanges + ElementsReport(env, o, n, name, position).list;
    while position < |o.items|
      invariant MinLength(o, n) <= position <= MaxLength(o, n)
      invariant ElementsReport(env, o, n, name, position).Changes?
      invariant r.docChanges + ElementsReport(env, o, n, name, position).list == goal
    {
      TailStep(env, o, n, name, position, r.docChanges);
      var _ := r.Differ(Change(name, Null, o.items[position], ArrayValueRemoved));
      position := position + 1;
    }
    while position < |n.items|
      invariant MinLength(o, n) <= position <= MaxLength(o, n) && position >= |o.items|
      invariant ElementsReport(env, o, n, name, position).Changes?
      invariant r.docChanges + ElementsReport(env, o, n, name, position).list == goal
    {
      TailStep(env, o, n, name, position, r.docChanges);
      var _ := r.Differ(Change(name, n.items[position], Null, ArrayValueAdded));
      position := position + 1;
    }
    TailEnd(env, o, n, name, r.docChanges);
  }

  /** The change a position past the shorter array gives. */
  function TailChange(o: Json, n: Json, name: string, i: nat): Change
    requires o.Arr? && n.Arr? && MinLength(o, n) <= i < MaxLength(o, n)
  {
    if i < |o.items| then Change(name, Null, o.items[i], ArrayValueRemoved) else Change(name, n.items[i], Null, ArrayValueAdded)
  }

  lemma TailStep(env: Env, o: Json, n: Json, name: string, i: nat, before: seq<Change>)
    requires o.Arr? && n.Arr? && MinLength(o, n) <= i < MaxLength(o, n)
    ensures ElementsReport(env, o, n, name, i).Changes? && ElementsReport(env, o, n, name, i + 1).Changes?
    ensures before + ElementsReport(env, o, n, name, i).list
            == before + [TailChange(o, n, name, i)] + ElementsReport(env, o, n, name, i + 1).list
  {
    TailQuiet(env, o, n, name, i + 1);
  }

  lemma TailEnd(env: Env, o: Json, n: Json, name: string, list: seq<Change>)
    requires o.Arr? && n.Arr?
    ensures ElementsReport(env, o, n, name, MaxLength(o, n)) == Changes([]) && list + [] == list
  {
  }

  lemma {:induction false} TailQuiet(env: Env, o: Json, n: Json, name: string, i: nat)
    requires o.Arr? && n.Arr? && MinLength(o, n) <= i <= MaxLength(o, n)
    ensures ElementsReport(env, o, n, name, i).Changes?
    decreases MaxLength(o, n) - i
  {
    if i < MaxLength(o, n) { TailQuiet(env, o, n, name, i + 1); }
  }

  /** One turn of the position loop. */
  method CompareElement(r: Recorder, env: Env, id: string, o: Json, n: Json, name: string, i: nat) returns (out: Outcome)
    requires o.Arr? && n.Arr? && i < MinLength(o, n)
    modifies r
    decreases o, 2
    ensures !r.recording ==> r.docChanges == old(r.docChanges) && r.changes == old(r.changes)
    ensures !r.recording ==> out == FastElement(env, o.items[i], n.items[i])
    ensures r.recording ==> Recorded(ElementReport(env, o, n, name, i), old(r.docChanges), r.docChanges, out)
    ensures out.Returned? ==> WritesOnly(id, old(r.changes), r.changes, r.docChanges)
  {
    var prev, next := o.items[i], n.items[i];
    match prev
    case Obj(_) =>
      if next.Obj? {
        out := CompareObject(r, env, id, prev, next);
      } else {
        out := r.Differ(Change(name, next, prev, ArrayValueAdded));
      }
    case Arr(_) =>
      if next.Arr? {
        out := CompareArray(r, env, id, prev, next, name);
      } else {
        out := r.Differ(Change(name, next, prev, ArrayValueChanged));
      }
    case Null =>
      out := Returned(false);
      if !next.Null? { out := r.Differ(Change(name, next, prev, ArrayValueChanged)); }
    case _ =>
      out := Returned(false);
      if env.render(prev) != env.render(next) { out := r.Differ(Change(name, next, prev, ArrayValueChanged)); }
  }
}
