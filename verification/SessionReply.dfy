/** The write-back of a reply, the prepared batch in closed form, and what a faithful server answers. */
module SessionReply {
  import opened Wrappers
  import opened JsonDocs
  import opened SessionModel
  import opened SessionInvariant
  import opened SessionSave
  import JsonChanges
  import Text

  // ---- the write-back of all puts -------------------------------------------------

  ghost predicate Writable(ix: Index, r: Ref) {
    r < |ix.heap| && ix.heap[r].entity.Some? && ix.heap[r].document.Obj?
  }

  /** `SetOne` for each put, in order. */
  function SetPuts(s: Session, puts: seq<Ref>, props: seq<Fields>): Session
    requires |puts| == |props|
    decreases |puts|
  {
    if puts == [] then s
    else
      var r := puts[0];
      var s' := if r < |s.ix.heap| && s.ix.heap[r].entity.Some? && s.ix.heap[r].document.Obj? && GoodPut(props[0])
                then SetOne(s, r, props[0]) else s;
      SetPuts(s', puts[1..], props[1..])
  }

  function NewKey(props: Fields): string {
    if HasText(props, METADATA_ID) then Text.Lower(props[METADATA_ID].s) else ""
  }

  /** Every put can be written back, under a key of its own that is free. */
  ghost predicate Waiting(ix: Index, puts: seq<Ref>, props: seq<Fields>)
    requires |puts| == |props|
  {
    && (forall i :: 0 <= i < |puts| ==> Writable(ix, puts[i]) && puts[i] in ix.tracked && GoodPut(props[i]))
    && (forall i :: 0 <= i < |puts| ==> NewKey(props[i]) !in ix.byId)
    && (forall i, j :: 0 <= i < j < |puts| ==> NewKey(props[i]) != NewKey(props[j]))
  }

  /** Exactly the entries put are out of the index. */
  ghost predicate OthersIndexed(ix: Index, puts: seq<Ref>)
    requires WellFormed(ix)
  {
    && (forall k :: k in ix.byId ==> ix.byId[k] !in puts)
    && (forall i :: 0 <= i < |ix.tracked| && ix.tracked[i] !in puts ==> Indexed(ix, ix.tracked[i]))
  }

  /** The state between the put loop and the end of the write-back. */
  ghost predicate Awaiting(ix: Index, puts: seq<Ref>, props: seq<Fields>)
    requires |puts| == |props|
  {
    Sound(ix) && DistinctRefs(puts) && Waiting(ix, puts, props) && OthersIndexed(ix, puts)
  }

  /** Renaming an entry that is not indexed, and indexing it under its new id. */
  lemma RenameSound(ix: Index, r: Ref, props: Fields)
    requires Sound(ix) && Writable(ix, r) && r in ix.tracked && GoodPut(props)
    requires (forall k :: k in ix.byId ==> ix.byId[k] != r) && NewKey(props) !in ix.byId
    ensures var t := AddById(SetInfo(ix, r, ReplyInfo(ix.heap[r], props)), r);
            && Sound(t) && Indexed(t, r) && t.byId == ix.byId[NewKey(props) := r]
            && forall q :: 0 <= q < |ix.heap| && q != r && Indexed(ix, q) ==> Indexed(t, q)
  {
    var u := SetInfo(ix, r, ReplyInfo(ix.heap[r], props));
    RenamedSound(ix, r, ReplyInfo(ix.heap[r], props));
    assert u.heap[r].id == props[METADATA_ID].s;
    IndexNewSound(u, r);
    forall q | 0 <= q < |ix.heap| && q != r && Indexed(ix, q) ensures Indexed(u, q) { }
  }

  lemma RenamedSound(ix: Index, r: Ref, info: Info)
    requires Sound(ix) && r < |ix.heap| && info.entity == ix.heap[r].entity && info.entity.Some? && IsDocument(info.document)
    requires forall k :: k in ix.byId ==> ix.byId[k] != r
    ensures Sound(SetInfo(ix, r, info))
  {
    var u := SetInfo(ix, r, info);
    assert forall q :: 0 <= q < |ix.heap| ==> u.heap[q].entity == ix.heap[q].entity;
    assert forall q :: 0 <= q < |ix.heap| && q != r ==> u.heap[q] == ix.heap[q];
    SetInfoWellFormed(ix, r, info);
  }

  lemma WaitingStep(ix: Index, t: Index, puts: seq<Ref>, props: seq<Fields>)
    requires |puts| == |props| && puts != [] && Waiting(ix, puts, props) && DistinctRefs(puts)
    requires t.tracked == ix.tracked && t.byId == ix.byId[NewKey(props[0]) := puts[0]] && |t.heap| == |ix.heap|
    requires forall q :: 0 <= q < |ix.heap| && q != puts[0] ==> t.heap[q] == ix.heap[q]
    ensures Waiting(t, puts[1..], props[1..])
  {
  }

  lemma OthersIndexedStep(ix: Index, t: Index, puts: seq<Ref>, key: string)
    requires puts != [] && WellFormed(ix) && WellFormed(t) && OthersIndexed(ix, puts) && DistinctRefs(puts)
    requires t.tracked == ix.tracked && t.byId == ix.byId[key := puts[0]] && |t.heap| == |ix.heap|
    requires puts[0] < |ix.heap| && Indexed(t, puts[0])
    requires forall q :: 0 <= q < |ix.heap| && q != puts[0] && Indexed(ix, q) ==> Indexed(t, q)
    ensures OthersIndexed(t, puts[1..])
  {
  }

  lemma AwaitingStep(s: Session, puts: seq<Ref>, props: seq<Fields>)
    requires |puts| == |props| && puts != [] && Awaiting(s.ix, puts, props)
    ensures Writable(s.ix, puts[0]) && GoodPut(props[0])
    ensures Awaiting(SetOne(s, puts[0], props[0]).ix, puts[1..], props[1..])
  {
    var r := puts[0];
    assert r in puts && Writable(s.ix, puts[0]);
    RenameSound(s.ix, r, props[0]);
    var t := SetOne(s, r, props[0]).ix;
    WaitingStep(s.ix, t, puts, props);
    OthersIndexedStep(s.ix, t, puts, NewKey(props[0]));
  }

  /** The write-back restores the invariant. */
  lemma {:induction false} SetPutsInv(s: Session, puts: seq<Ref>, props: seq<Fields>)
    requires |puts| == |props| && Awaiting(s.ix, puts, props)
    ensures Inv(SetPuts(s, puts, props).ix)
    decreases |puts|
  {
    if puts != [] {
      AwaitingStep(s, puts, props);
      SetPutsInv(SetOne(s, puts[0], props[0]), puts[1..], props[1..]);
    }
  }

  // ---- the prepared batch ---------------------------------------------------------

  /** The delete loop of a save, for any ids. */
  function DeletePart(s: Session, order: seq<Entity>): (p: Prepared)
    requires WellFormed(s.ix)
    ensures p.Ready? ==> WellFormed(p.batch.s.ix)
  {
    DeleteAll(s.deferredMap, Cleared(s), order)
  }

  /** The batch a save starts from. */
  function Cleared(s: Session): Batch {
    Batch(s.(deferred := [], deferredMap := map[]), [], [])
  }

  /** The batch after the delete loop. */
  function AfterDeletes(s: Session, order: seq<Entity>): Batch {
    var es := Deleted(s.ix, order);
    Batch(s.(deferred := [], deferredMap := map[], ix := DropAll(s.ix, order), deleted := if es == [] then s.deleted else {}),
          DeleteCommands(s.optimistic, s.ix, es), es)
  }

  /** The entries put, in order. */
  ghost function PutsOf(env: JsonChanges.Env, s: Session, order: seq<Entity>): seq<Ref> {
    Puts(env, AfterDeletes(s, order).s, DropAll(s.ix, order).tracked)
  }

  lemma TrackedDistinct(ix: Index)
    requires WellFormed(ix) && DistinctEntities(ix)
    ensures DistinctRefs(ix.tracked)
  {
  }

  /** A save that can be prepared, and whose deleted objects the index returns under their ids. */
  ghost predicate Saveable(env: JsonChanges.Env, s: Session, order: seq<Entity>) {
    Inv(s.ix) && Distinct(order) && OwnDeletes(s.ix, order) && Prepare(env, s, order).Ready?
  }

  /** The delete loop ends in the batch above, and the put loop starts from it. */
  lemma PrepareUnfold(env: JsonChanges.Env, s: Session, order: seq<Entity>)
    requires Saveable(env, s, order)
    ensures Inv(DropAll(s.ix, order)) && DistinctRefs(DropAll(s.ix, order).tracked)
    ensures DeletePart(s, order) == Ready(AfterDeletes(s, order))
    ensures Prepare(env, s, order) == PutAll(env, s.deferredMap, AfterDeletes(s, order), DropAll(s.ix, order).tracked)
  {
    var b0 := Cleared(s);
    DeleteAllExact(s.deferredMap, b0, order);
    var b1 := DeleteAll(s.deferredMap, b0, order).batch;
    var bd := AfterDeletes(s, order);
    assert b1.commands == bd.commands && b1.entities == bd.entities;
    assert b1 == bd;
    DropAllKeeps(s.ix, order, 0);
    TrackedDistinct(bd.s.ix);
  }

  lemma PrepareEffect(env: JsonChanges.Env, s: Session, order: seq<Entity>)
    requires Saveable(env, s, order)
    ensures Inv(DropAll(s.ix, order))
    ensures PutEffect(AfterDeletes(s, order), PutsOf(env, s, order), Prepare(env, s, order).batch)
    ensures DistinctRefs(PutsOf(env, s, order))
    ensures forall r :: r in PutsOf(env, s, order) ==> r in DropAll(s.ix, order).tracked
  {
    PrepareUnfold(env, s, order);
    var bd := AfterDeletes(s, order);
    PutAllEffect(env, s.deferredMap, bd, bd.s.ix.tracked);
    PutsAmong(env, bd.s, bd.s.ix.tracked);
  }

  // ---- the reply of a faithful server ---------------------------------------------

  function PropsOf(r: Reply): Fields {
    if r.Put? then r.props else map[]
  }

  /** A reply that answers each session command in its place: a PUT of an ordinary id comes back under
      that id, ignoring case, and any other PUT under an id that is new to the session. */
  ghost predicate Faithful(b: Batch, reply: seq<Reply>) {
    && |reply| >= |b.commands|
    && (forall i :: 0 <= i < |b.commands| && b.commands[i].typ.DeleteType? ==> reply[i].Other?)
    && (forall i :: 0 <= i < |b.commands| && b.commands[i].typ.PutType? ==> AnswersPut(b, i, reply[i]))
    && (forall i, j :: 0 <= i < |b.commands| && 0 <= j < |b.commands| && i != j
          && b.commands[i].typ.PutType? && b.commands[j].typ.PutType? && !Ordinary(b.commands[i].id)
          ==> NewKey(PropsOf(reply[i])) != NewKey(PropsOf(reply[j])))
  }

  ghost predicate AnswersPut(b: Batch, i: nat, r: Reply)
    requires i < |b.commands|
  {
    && r.Put? && GoodPut(r.props)
    && if Ordinary(b.commands[i].id) then NewKey(r.props) == Text.Lower(b.commands[i].id) else NewKey(r.props) !in b.s.ix.byId
  }

  function PropsIn(reply: seq<Reply>, i: int): Fields {
    if 0 <= i < |reply| then PropsOf(reply[i]) else map[]
  }

  lemma {:induction false} DeleteCommandsAt(optimistic: bool, ix: Index, es: seq<Entity>, i: nat)
    requires i < |es| == |DeleteCommands(optimistic, ix, es)|
    ensures DeleteCommands(optimistic, ix, es)[i] == DelCommand(optimistic, EntryOf(ix, es[i]))
  {
    if i > 0 { DeleteCommandsAt(optimistic, ix, es[1..], i - 1); }
  }
}
