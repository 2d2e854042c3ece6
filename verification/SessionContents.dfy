/** What a save sends, and when: the contents of every command, stated on objects and entries. */
module SessionContents {
  import opened Wrappers
  import opened JsonDocs
  import opened SessionModel
  import opened SessionInvariant
  import opened SessionSave
  import opened SessionReply
  import opened SessionTheorems
  import JsonChanges
  import Text

  // ---- the JSON of an object ------------------------------------------------------

  ghost predicate SameAt(k: string, a: Fields, b: Fields) {
    (k in a <==> k in b) && (k in a ==> a[k] == b[k])
  }

  /** The metadata of an entry as it is sent: its own, with its collection if it has one. */
  ghost predicate MetadataOf(metadata: Fields, collection: string, m: Fields) {
    && (forall k :: k != METADATA_COLLECTION ==> SameAt(k, m, metadata))
    && if collection == "" then SameAt(METADATA_COLLECTION, m, metadata)
       else METADATA_COLLECTION in m && m[METADATA_COLLECTION] == Str(collection)
  }

  /** The document an object converts to: its fields without the ID, and its entry's metadata if there is any. */
  ghost predicate Converts(body: Fields, metadata: Fields, collection: string, j: Json) {
    && j.Obj? && IDENTITY_PROPERTY !in j.fields
    && (forall k :: k != IDENTITY_PROPERTY && k != METADATA_KEY ==> SameAt(k, j.fields, body))
    && if |metadata| == 0 && collection == "" then SameAt(METADATA_KEY, j.fields, body)
       else METADATA_KEY in j.fields && j.fields[METADATA_KEY].Obj? && MetadataOf(metadata, collection, j.fields[METADATA_KEY].fields)
  }

  lemma ToJsonConverts(body: Fields, info: Info)
    ensures Converts(body, info.metadata, info.collection, ToJson(body, info))
  {
    var j := ToJson(body, info);
    assert |METADATA_KEY| != |IDENTITY_PROPERTY|;
    forall k | k != IDENTITY_PROPERTY && k != METADATA_KEY ensures SameAt(k, j.fields, body) { ToJsonKeeps(body, info, k); }
    ToJsonWritesMetadata(body, info);
  }

  lemma ToJsonKeeps(body: Fields, info: Info, k: string)
    requires k != IDENTITY_PROPERTY && k != METADATA_KEY
    ensures SameAt(k, ToJson(body, info).fields, body)
  {
  }

  lemma ToJsonWritesMetadata(body: Fields, info: Info)
    requires METADATA_KEY != IDENTITY_PROPERTY
    ensures var fields := ToJson(body, info).fields;
            if |info.metadata| == 0 && info.collection == "" then SameAt(METADATA_KEY, fields, body)
            else METADATA_KEY in fields && fields[METADATA_KEY].Obj? && MetadataOf(info.metadata, info.collection, fields[METADATA_KEY].fields)
  {
  }

  lemma MetadataUnique(metadata: Fields, collection: string, m: Fields, m': Fields)
    requires MetadataOf(metadata, collection, m) && MetadataOf(metadata, collection, m')
    ensures m == m'
  {
    forall k ensures SameAt(k, m, m') { assert k != METADATA_COLLECTION ==> SameAt(k, m, metadata) && SameAt(k, m', metadata); }
    SameFields(m, m');
  }

  lemma SameFields(a: Fields, b: Fields)
    requires forall k :: SameAt(k, a, b)
    ensures a == b
  {
    assert forall k :: k in a ==> SameAt(k, a, b);
    assert forall k :: k in b ==> SameAt(k, a, b);
  }

  /** There is one such document. */
  lemma ConvertsUnique(body: Fields, metadata: Fields, collection: string, j: Json, j': Json)
    requires Converts(body, metadata, collection, j) && Converts(body, metadata, collection, j')
    ensures j == j'
  {
    if !(|metadata| == 0 && collection == "") {
      MetadataUnique(metadata, collection, j.fields[METADATA_KEY].fields, j'.fields[METADATA_KEY].fields);
    }
    forall k ensures SameAt(k, j.fields, j'.fields) {
      assert k != IDENTITY_PROPERTY && k != METADATA_KEY ==> SameAt(k, j.fields, body) && SameAt(k, j'.fields, body);
    }
    SameFields(j.fields, j'.fields);
  }

  // ---- the contents of a command --------------------------------------------------

  /** The change vector a PUT is checked against. */
  ghost predicate ChecksPut(optimistic: bool, mode: ConcurrencyCheck, known: Option<string>, sent: Option<string>) {
    && (optimistic && mode.Disabled? ==> sent == None)
    && (optimistic && !mode.Disabled? && known.Some? ==> sent == known)
    && (optimistic && !mode.Disabled? && known.None? ==> sent == Some(""))
    && (!optimistic && mode.Forced? ==> sent == known)
    && (!optimistic && !mode.Forced? ==> sent == None)
  }

  /** A PUT of an object: under the id of its entry, its converted fields, and the change vector to check. */
  ghost predicate PutsObject(body: Fields, optimistic: bool, info: Info, c: Command) {
    && c.typ.PutType? && c.id == info.id && c.name == ""
    && Converts(body, info.metadata, info.collection, c.document)
    && ChecksPut(optimistic, info.mode, info.changeVector, c.changeVector)
  }

  /** A DELETE of an entry: it checks the change vector, if that is known and not empty, with optimistic concurrency only. */
  ghost predicate DeletesEntry(optimistic: bool, info: Info, c: Command) {
    && c.typ.DeleteType? && c.id == info.id && c.name == "" && c.document == Null
    && (optimistic && info.changeVector.Some? && info.changeVector.value != "" ==> c.changeVector == info.changeVector)
    && (!optimistic || info.changeVector.None? || info.changeVector.value == "" ==> c.changeVector == None)
  }

  lemma PutCommandSends(s: Session, info: Info)
    ensures PutsObject(Body(s, EntityOf(info)), s.optimistic, info, PutCommand(s, info))
  {
    ToJsonConverts(Body(s, EntityOf(info)), info);
  }

  lemma DelCommandSends(optimistic: bool, info: Info)
    ensures DeletesEntry(optimistic, info, DelCommand(optimistic, info))
  {
  }

  /** What the i-th command of a batch does to its object. */
  ghost predicate Sends(s: Session, order: seq<Entity>, c: Command, e: Entity) {
    && IsTracked(s.ix, e)
    && if e in order then DeletesEntry(s.optimistic, EntryOf(s.ix, e), c)
       else PutsObject(Body(s, e), s.optimistic, EntryOf(s.ix, e), c)
  }

  lemma PlanFrame(env: JsonChanges.Env, s: Session, order: seq<Entity>)
    requires Inv(s.ix) && Prepare(env, s, order).Ready?
    ensures var bd := PlanOf(env, s, order).bd; bd.s.bodies == s.bodies && bd.s.optimistic == s.optimistic && bd.s.ix.heap == s.ix.heap
  {
    PlanExists(env, s, order);
  }

  lemma PutSends(p: Plan, s: Session, order: seq<Entity>, k: nat)
    requires Owned(p, s, order) && k < |p.puts| && |p.bd.commands| == |p.bd.entities|
    requires p.bd.s.bodies == s.bodies && p.bd.s.optimistic == s.optimistic
    ensures var i := |p.bd.commands| + k;
            i < |p.b.commands| && i < |p.b.entities| && Sends(s, order, p.b.commands[i], p.b.entities[i])
  {
    PutAt(p, k);
    var info := At(p.bd.s.ix, p.puts[k]);
    PutRemains(p, s, order, k);
    PutCommandSends(p.bd.s, info);
    assert Body(p.bd.s, EntityOf(info)) == Body(s, EntityOf(info));
  }

  lemma PutRemains(p: Plan, s: Session, order: seq<Entity>, k: nat)
    requires Owned(p, s, order) && k < |p.puts|
    ensures var info := At(p.bd.s.ix, p.puts[k]); var e := EntityOf(info); IsTracked(s.ix, e) && e !in order && EntryOf(s.ix, e) == info
  {
    EntryOfRef(p.bd.s.ix, p.puts[k]);
    assert Remains(p, s, order, EntityOf(At(p.bd.s.ix, p.puts[k])));
  }

  lemma DeleteSends(p: Plan, s: Session, order: seq<Entity>, i: nat)
    requires Owned(p, s, order) && i < |p.bd.commands| == |p.bd.entities|
    ensures i < |p.b.commands| && i < |p.b.entities| && Sends(s, order, p.b.commands[i], p.b.entities[i])
  {
    DeleteAt(p, i);
    DeleteCommandsAt(s.optimistic, s.ix, p.bd.entities, i);
    assert p.bd.entities[i] in p.bd.entities;
    DelCommandSends(s.optimistic, EntryOf(s.ix, p.bd.entities[i]));
  }

  /** The batch of a save, command by command: a DELETE for each object of the deleted set, a PUT of the present fields
      for each other one. */
  lemma CommandSends(env: JsonChanges.Env, s: Session, order: seq<Entity>, i: nat)
    requires Saveable(env, s, order) && i < |Prepare(env, s, order).batch.commands|
    ensures var b := Prepare(env, s, order).batch; |b.entities| == |b.commands| && Sends(s, order, b.commands[i], b.entities[i])
  {
    PlanOwned(env, s, order);
    PlanFrame(env, s, order);
    OwnedSends(PlanOf(env, s, order), s, order, i);
  }

  lemma OwnedSends(p: Plan, s: Session, order: seq<Entity>, i: nat)
    requires Owned(p, s, order) && p.bd.s.bodies == s.bodies && p.bd.s.optimistic == s.optimistic && i < |p.b.commands|
    ensures |p.b.entities| == |p.b.commands| && Sends(s, order, p.b.commands[i], p.b.entities[i])
  {
    OwnedLengths(p, s, order);
    if i < |p.bd.commands| { DeleteSends(p, s, order, i); } else { PutSends(p, s, order, i - |p.bd.commands|); }
  }

  // ---- which objects are deleted and put -------------------------------------------

  ghost predicate DeletedIn(b: Batch, e: Entity) {
    exists i :: 0 <= i < |b.commands| && i < |b.entities| && b.entities[i] == e && b.commands[i].typ.DeleteType?
  }

  ghost predicate PutIn(b: Batch, e: Entity) {
    exists i :: 0 <= i < |b.commands| && i < |b.entities| && b.entities[i] == e && b.commands[i].typ.PutType?
  }

  /** Exactly the tracked objects of the deleted set are deleted. */
  lemma DeletesExactly(env: JsonChanges.Env, s: Session, order: seq<Entity>, e: Entity)
    requires Saveable(env, s, order)
    ensures DeletedIn(Prepare(env, s, order).batch, e) <==> e in order && IsTracked(s.ix, e)
  {
    var p := PlanOf(env, s, order);
    PlanOwned(env, s, order);
    OwnedLengths(p, s, order);
    PrepareUnfold(env, s, order);
    DeletedAmong(s.ix, order, e);
    if DeletedIn(p.b, e) {
      var i :| 0 <= i < |p.b.commands| && i < |p.b.entities| && p.b.entities[i] == e && p.b.commands[i].typ.DeleteType?;
      CommandOwner(p, s, order, i);
    }
    if e in p.bd.entities {
      var i :| 0 <= i < |p.bd.entities| && p.bd.entities[i] == e;
      DeleteOwner(p, s, order, i);
      assert p.b.entities[i] == e;
    }
  }

  /** The entry of an object that is not deleted is still there after the delete loop. */
  lemma RemainsTracked(env: JsonChanges.Env, s: Session, order: seq<Entity>, e: Entity) returns (r: Ref)
    requires Saveable(env, s, order) && IsTracked(s.ix, e) && e !in order
    ensures var bd := PlanOf(env, s, order).bd;
            r in bd.s.ix.tracked && At(bd.s.ix, r) == EntryOf(s.ix, e) && At(bd.s.ix, r).entity == Some(e)
  {
    PrepareUnfold(env, s, order);
    DropAllKeeps(s.ix, order, e);
    var ix := PlanOf(env, s, order).bd.s.ix;
    r := ix.tracked[Find(ix.heap, ix.tracked, e)];
  }

  lemma VerdictOfBody(env: JsonChanges.Env, s: Session, t: Session, info: Info)
    requires Body(s, EntityOf(info)) == Body(t, EntityOf(info))
    ensures Verdict(env, s, info) == Verdict(env, t, info)
  {
  }

  /** Exactly the other objects that compare as changed are put. */
  lemma PutsExactly(env: JsonChanges.Env, s: Session, order: seq<Entity>, e: Entity)
    requires Saveable(env, s, order) && IsTracked(s.ix, e) && e !in order
    ensures PutIn(Prepare(env, s, order).batch, e) <==> Verdict(env, s, EntryOf(s.ix, e)) == JsonChanges.Returned(true)
  {
    PlanOwned(env, s, order);
    var r := PutRefExactly(env, s, order, e);
    PutInExactly(PlanOf(env, s, order), s, order, r, e);
  }

  lemma PutRefExactly(env: JsonChanges.Env, s: Session, order: seq<Entity>, e: Entity) returns (r: Ref)
    requires Saveable(env, s, order) && IsTracked(s.ix, e) && e !in order
    ensures var p := PlanOf(env, s, order);
            && r in p.bd.s.ix.tracked && At(p.bd.s.ix, r).entity == Some(e)
            && (r in p.puts <==> Verdict(env, s, EntryOf(s.ix, e)) == JsonChanges.Returned(true))
  {
    var bd := PlanOf(env, s, order).bd;
    PlanFrame(env, s, order);
    r := RemainsTracked(env, s, order, e);
    PutsHas(env, bd.s, bd.s.ix.tracked, r);
    VerdictOfBody(env, s, bd.s, EntryOf(s.ix, e));
  }

  lemma PutsHas(env: JsonChanges.Env, s: Session, refs: seq<Ref>, r: Ref)
    requires r in refs
    ensures r in Puts(env, s, refs) <==> Verdict(env, s, At(s.ix, r)) == JsonChanges.Returned(true)
  {
    PutsAmong(env, s, refs);
  }

  lemma PutInExactly(p: Plan, s: Session, order: seq<Entity>, r: Ref, e: Entity)
    requires Owned(p, s, order) && r in p.bd.s.ix.tracked && At(p.bd.s.ix, r).entity == Some(e)
    ensures PutIn(p.b, e) <==> r in p.puts
  {
    OwnedLengths(p, s, order);
    if r in p.puts {
      var k :| 0 <= k < |p.puts| && p.puts[k] == r;
      PutAt(p, k);
      assert p.b.entities[|p.bd.commands| + k] == e && p.b.commands[|p.bd.commands| + k].typ.PutType?;
    }
    if PutIn(p.b, e) {
      var i :| 0 <= i < |p.b.commands| && i < |p.b.entities| && p.b.entities[i] == e && p.b.commands[i].typ.PutType?;
      CommandOwner(p, s, order, i);
      PutEntityAt(p, i);
      assert p.puts[i - |p.bd.commands|] in p.puts;
      SameObjectSameRef(p.bd.s.ix, p.puts[i - |p.bd.commands|], r);
    }
  }

  lemma SameObjectSameRef(ix: Index, q: Ref, r: Ref)
    requires WellFormed(ix) && DistinctEntities(ix) && q in ix.tracked && r in ix.tracked && EntityOf(At(ix, q)) == EntityOf(At(ix, r))
    ensures q == r
  {
    if q != r { PutRefsByEntity(ix, q, r); }
  }

  // ---- when a save can be prepared -------------------------------------------------

  /** Nothing is deferred that takes part in the deletion of the object. */
  ghost predicate FreeToDelete(pending: map<Key, Command>, ix: Index, e: Entity) {
    IsTracked(ix, e) ==> Key(EntryOf(ix, e).id, AnyCommand, "") !in pending
  }

  /** The comparison of the entry does not panic, and if it has changed nothing is deferred for its id. */
  ghost predicate FreeToPut(env: JsonChanges.Env, pending: map<Key, Command>, s: Session, info: Info) {
    var v := Verdict(env, s, info);
    v.Returned? && (v.value ==> Key(info.id, NotAttachment, "") !in pending)
  }

  lemma {:induction false} DeleteAllReady(pending: map<Key, Command>, b: Batch, order: seq<Entity>)
    requires Inv(b.s.ix) && Distinct(order) && OwnDeletes(b.s.ix, order)
    ensures DeleteAll(pending, b, order).Ready? <==> forall e :: e in order ==> FreeToDelete(pending, b.s.ix, e)
    decreases |order|
  {
    if order != [] {
      var e, rest := DistinctCons(order);
      assert e in order;
      if FreeToDelete(pending, b.s.ix, e) {
        DeleteTurnReady(pending, b, e, rest);
        DeleteAllReady(pending, AfterDelete(b, e), rest);
        FreeAfter(pending, b.s.ix, e, rest);
      } else {
        assert order[0] == e;
      }
    }
  }

  lemma DeleteTurnReady(pending: map<Key, Command>, b: Batch, e: Entity, rest: seq<Entity>)
    requires Inv(b.s.ix) && e !in rest && OwnDeletes(b.s.ix, [e] + rest) && FreeToDelete(pending, b.s.ix, e)
    ensures Inv(AfterDelete(b, e).s.ix) && OwnDeletes(AfterDelete(b, e).s.ix, rest) && AfterDelete(b, e).s.ix == Drop(b.s.ix, e)
    ensures DeleteAll(pending, b, [e] + rest) == DeleteAll(pending, AfterDelete(b, e), rest)
  {
    assert e in [e] + rest && ([e] + rest)[0] == e && ([e] + rest)[1..] == rest;
    DropOthers(b.s.ix, e, e);
    OwnDeletesAfter(b.s.ix, e, rest);
    if IsTracked(b.s.ix, e) { DeleteStepEffect(pending, b, e); }
  }

  lemma FreeAfter(pending: map<Key, Command>, ix: Index, e: Entity, rest: seq<Entity>)
    requires Inv(ix) && e !in rest && FreeToDelete(pending, ix, e)
    ensures (forall x :: x in rest ==> FreeToDelete(pending, Drop(ix, e), x)) <==> forall x :: x in [e] + rest ==> FreeToDelete(pending, ix, x)
  {
    forall x | x in rest ensures FreeToDelete(pending, Drop(ix, e), x) <==> FreeToDelete(pending, ix, x) { DropOthers(ix, e, x); }
    assert forall x :: x in rest ==> x in [e] + rest;
  }

  lemma {:induction false} PutAllReady(env: JsonChanges.Env, pending: map<Key, Command>, b: Batch, refs: seq<Ref>)
    requires DistinctRefs(refs)
    ensures PutAll(env, pending, b, refs).Ready? <==> forall r :: r in refs ==> FreeToPut(env, pending, b.s, At(b.s.ix, r))
    decreases |refs|
  {
    if refs != [] {
      var r, rest := refs[0], refs[1..];
      assert r in refs && refs == [r] + rest;
      DistinctTail(refs);
      if FreeToPut(env, pending, b.s, At(b.s.ix, r)) {
        var b1 := PutStep(pending, b, r, Verdict(env, b.s, At(b.s.ix, r))).batch;
        PutAllReady(env, pending, b1, rest);
        forall q | q in rest ensures FreeToPut(env, pending, b1.s, At(b1.s.ix, q)) <==> FreeToPut(env, pending, b.s, At(b.s.ix, q)) {
          FreeToPutFrame(env, pending, b, r, q);
        }
      }
    }
  }

  lemma FreeToPutFrame(env: JsonChanges.Env, pending: map<Key, Command>, b: Batch, r: Ref, q: Ref)
    requires r != q && FreeToPut(env, pending, b.s, At(b.s.ix, r))
    ensures var b1 := PutStep(pending, b, r, Verdict(env, b.s, At(b.s.ix, r))).batch;
            FreeToPut(env, pending, b1.s, At(b1.s.ix, q)) <==> FreeToPut(env, pending, b.s, At(b.s.ix, q))
  {
    assert At(PutIndex(b.s, r), q) == At(b.s.ix, q);
    VerdictOfBody(env, b.s, b.s.(ix := PutIndex(b.s, r)), At(b.s.ix, q));
  }

  lemma TrackedFree(env: JsonChanges.Env, s: Session, order: seq<Entity>, t: Session)
    requires Inv(s.ix) && t.ix == DropAll(s.ix, order) && t.bodies == s.bodies
    ensures (forall r :: r in t.ix.tracked ==> FreeToPut(env, s.deferredMap, t, At(t.ix, r)))
            <==> forall e :: IsTracked(s.ix, e) && e !in order ==> FreeToPut(env, s.deferredMap, s, EntryOf(s.ix, e))
  {
    if forall e :: IsTracked(s.ix, e) && e !in order ==> FreeToPut(env, s.deferredMap, s, EntryOf(s.ix, e)) {
      forall r | r in t.ix.tracked ensures FreeToPut(env, s.deferredMap, t, At(t.ix, r)) { var e := FreeOfRef(env, s, order, t, r); }
    }
    if forall r :: r in t.ix.tracked ==> FreeToPut(env, s.deferredMap, t, At(t.ix, r)) {
      forall e | IsTracked(s.ix, e) && e !in order ensures FreeToPut(env, s.deferredMap, s, EntryOf(s.ix, e)) {
        var r := FreeOfObject(env, s, order, t, e);
      }
    }
  }

  lemma FreeOfRef(env: JsonChanges.Env, s: Session, order: seq<Entity>, t: Session, r: Ref) returns (e: Entity)
    requires Inv(s.ix) && t.ix == DropAll(s.ix, order) && t.bodies == s.bodies && r in t.ix.tracked
    ensures IsTracked(s.ix, e) && e !in order
    ensures FreeToPut(env, s.deferredMap, t, At(t.ix, r)) <==> FreeToPut(env, s.deferredMap, s, EntryOf(s.ix, e))
  {
    e := EntityOf(At(t.ix, r));
    DropAllKeeps(s.ix, order, e);
    EntryOfRef(t.ix, r);
    VerdictOfBody(env, s, t, At(t.ix, r));
  }

  lemma FreeOfObject(env: JsonChanges.Env, s: Session, order: seq<Entity>, t: Session, e: Entity) returns (r: Ref)
    requires Inv(s.ix) && t.ix == DropAll(s.ix, order) && t.bodies == s.bodies && IsTracked(s.ix, e) && e !in order
    ensures r in t.ix.tracked
    ensures FreeToPut(env, s.deferredMap, t, At(t.ix, r)) <==> FreeToPut(env, s.deferredMap, s, EntryOf(s.ix, e))
  {
    DropAllKeeps(s.ix, order, e);
    r := t.ix.tracked[Find(t.ix.heap, t.ix.tracked, e)];
    VerdictOfBody(env, s, t, At(t.ix, r));
  }

  /** A save can be prepared exactly if nothing is deferred for an object to be deleted or for a changed one, and no
      comparison panics. */
  lemma PrepareReadyExactly(env: JsonChanges.Env, s: Session, order: seq<Entity>)
    requires Inv(s.ix) && Distinct(order) && OwnDeletes(s.ix, order)
    ensures Prepare(env, s, order).Ready?
            <==> && (forall e :: e in order ==> FreeToDelete(s.deferredMap, s.ix, e))
                 && (forall e :: IsTracked(s.ix, e) && e !in order ==> FreeToPut(env, s.deferredMap, s, EntryOf(s.ix, e)))
  {
    DeleteAllReady(s.deferredMap, Cleared(s), order);
    if DeletePart(s, order).Ready? {
      DeleteAllExact(s.deferredMap, Cleared(s), order);
      var bd := DeletePart(s, order).batch;
      DropAllKeeps(s.ix, order, 0);
      TrackedDistinct(bd.s.ix);
      PutAllReady(env, s.deferredMap, bd, bd.s.ix.tracked);
      TrackedFree(env, s, order, bd.s);
    }
  }
}
