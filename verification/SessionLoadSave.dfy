/** From loading, storing and deleting to the next save: what an operation leaves is what the save sends. */
module LoadAndSave {
  import opened Wrappers
  import opened JsonDocs
  import opened SessionModel
  import opened SessionInvariant
  import opened SessionSave
  import opened SessionReply
  import opened SessionTheorems
  import opened SessionContents
  import opened WriteBackForm
  import JsonChanges
  import StringArray
  import Text

  // ---- loading --------------------------------------------------------------------

  /** The object is tracked with these contents, as the server has them: not new, and its changes are not ignored. */
  ghost predicate LoadedAs(t: Session, e: Entity, body: Fields, id: string, vector: Option<string>, metadata: Fields, document: Json) {
    && Inv(t.ix) && IsTracked(t.ix, e) && Body(t, e) == body
    && EntryOf(t.ix, e) == Info(id, vector, Auto, false, metadata, document, Some(e), false, "")
  }

  lemma NewObjectReceived(ix: Index, d: Incoming, e: Entity)
    requires NewObject(ix, e)
    ensures NewObject(Receive(ix, d), e) && NewObject(Include(ix, d), e)
  {
  }

  /** An entry without an object that gets one is tracked from then on, under that object and no other. */
  lemma AdoptedIsTracked(ix: Index, r: Ref, e: Entity)
    requires WellFormed(ix) && r < |ix.heap| && ix.heap[r].entity.None? && NewObject(ix, e)
    ensures WellFormed(Adopt(ix, r, e)) && IsTracked(Track(Adopt(ix, r, e), r), e)
    ensures EntryOf(Track(Adopt(ix, r, e), r), e) == ix.heap[r].(entity := Some(e))
  {
    AdoptFrame(ix, r, e);
    var a := Adopt(ix, r, e);
    NotFound(a.heap, a.tracked, e);
    var t := Track(a, r);
    assert t.tracked == ix.tracked + [r];
    assert t.heap[t.tracked[|ix.tracked|]].entity == Some(e);
    FoundLast(t.heap, t.tracked, e);
  }

  lemma NotFound(heap: seq<Info>, tracked: seq<Ref>, e: Entity)
    requires InHeap(heap, tracked) && forall i :: 0 <= i < |tracked| ==> heap[tracked[i]].entity != Some(e)
    ensures Find(heap, tracked, e) == |tracked|
  {
  }

  lemma FoundLast(heap: seq<Info>, tracked: seq<Ref>, e: Entity)
    requires InHeap(heap, tracked) && tracked != [] && heap[tracked[|tracked| - 1]].entity == Some(e)
    requires forall i :: 0 <= i < |tracked| - 1 ==> heap[tracked[i]].entity != Some(e)
    ensures Find(heap, tracked, e) == |tracked| - 1
  {
  }

  function AsLoaded(o: Outcome<Entity>): Outcome<Option<Entity>> {
    match o
    case Done(t, e) => Done(t, Some(e))
    case Failed(t, error) => Failed(t, error)
    case Crashed => Crashed
  }

  lemma LoadIndexed(s: Session, id: string, target: Target)
    requires WellFormed(s.ix) && id != "" && !StringArray.ContainsNoCase(s.missing, id)
    requires var k := Text.Lower(id); k in s.ix.byId && s.ix.heap[s.ix.byId[k]].id == id
    ensures GetDocument(s, id, target) == AsLoaded(TrackEntry(s, DropIncluded(s.ix, id), s.ix.byId[Text.Lower(id)], target, false))
  {
  }

  lemma LoadIncluded(s: Session, id: string, target: Target)
    requires WellFormed(s.ix) && id != "" && !StringArray.ContainsNoCase(s.missing, id)
    requires Text.Lower(id) !in s.ix.byId && id in s.ix.included && s.ix.heap[s.ix.included[id]].id == id
    ensures var r := s.ix.included[id];
            WellFormed(AddById(DropIncluded(s.ix, id), r)) && GetDocument(s, id, target) == AsLoaded(TrackEntry(s, AddById(DropIncluded(s.ix, id), r), r, target, true))
  {
    AddByIdWellFormed(DropIncluded(s.ix, id), s.ix.included[id]);
  }

  /** An entry without an object gets the decoded one. */
  lemma EntryAdopts(s: Session, ix: Index, r: Ref, target: Target, late: bool)
    requires WellFormed(ix) && r < |ix.heap| && ix.heap[r].entity.None? && target.decoded.Some? && NewObject(ix, target.decoded.value.e)
    ensures var o := TrackEntry(s, ix, r, target, late); var x := target.decoded.value;
            && o.Done? && o.value == x.e && IsTracked(o.state.ix, x.e) && Body(o.state, x.e) == x.body
            && EntryOf(o.state.ix, x.e) == ix.heap[r].(entity := Some(x.e))
  {
    AdoptedIsTracked(ix, r, target.decoded.value.e);
  }

  /** A delivered document, then a load of its id: the object has the document's contents. */
  lemma ReceivedThenLoaded(s: Session, d: Incoming, target: Target)
    requires Inv(s.ix) && d.id != "" && d.document.Obj? && Text.Lower(d.id) !in s.ix.byId
    requires target.decoded.Some? && NewObject(s.ix, target.decoded.value.e) && !StringArray.ContainsNoCase(s.missing, d.id)
    ensures var s1 := s.(ix := Receive(s.ix, d)); var o := target.decoded.value;
            && Inv(s1.ix) && GetDocument(s1, d.id, target).Done? && GetDocument(s1, d.id, target).value == Some(o.e)
            && LoadedAs(GetDocument(s1, d.id, target).state, o.e, o.body, d.id, Some(d.changeVector), d.metadata, d.document)
  {
    var s1 := s.(ix := Receive(s.ix, d));
    var r := |s.ix.heap|;
    ReceiveKeeps(s.ix, d);
    NewObjectReceived(s.ix, d, target.decoded.value.e);
    assert s1.ix.heap[r] == IncomingInfo(d) && s1.ix.byId[Text.Lower(d.id)] == r;
    GetDocumentKeeps(s1, d.id, target);
    LoadIndexed(s1, d.id, target);
    EntryAdopts(s1, DropIncluded(s1.ix, d.id), r, target, false);
  }

  /** The same for an included document. */
  lemma IncludedThenLoaded(s: Session, d: Incoming, target: Target)
    requires Inv(s.ix) && d.id != "" && d.document.Obj? && Text.Lower(d.id) !in s.ix.byId
    requires target.decoded.Some? && NewObject(s.ix, target.decoded.value.e) && !StringArray.ContainsNoCase(s.missing, d.id)
    ensures var s1 := s.(ix := Include(s.ix, d)); var o := target.decoded.value;
            && Inv(s1.ix) && GetDocument(s1, d.id, target).Done? && GetDocument(s1, d.id, target).value == Some(o.e)
            && LoadedAs(GetDocument(s1, d.id, target).state, o.e, o.body, d.id, Some(d.changeVector), d.metadata, d.document)
  {
    var s1 := s.(ix := Include(s.ix, d));
    var r := |s.ix.heap|;
    IncludeKeeps(s.ix, d);
    NewObjectReceived(s.ix, d, target.decoded.value.e);
    assert s1.ix.heap[r] == IncomingInfo(d) && s1.ix.included[d.id] == r;
    GetDocumentKeeps(s1, d.id, target);
    LoadIncluded(s1, d.id, target);
    EntryAdopts(s1, AddById(DropIncluded(s1.ix, d.id), r), r, target, true);
  }

  /** The same for a query result that is new to the session; without a change vector it is refused and not tracked. */
  lemma QueriedIsTracked(s: Session, id: string, document: Json, metadata: Fields, vector: Option<string>, target: Target)
    requires Inv(s.ix) && id != "" && IsDocument(document) && Text.Lower(id) !in s.ix.byId && id !in s.ix.included
    requires target.decoded.Some? && NewObject(s.ix, target.decoded.value.e)
    ensures var o := TrackEntity(s, id, document, metadata, vector, target); var x := target.decoded.value;
            if vector.Some? then o.Done? && o.value == x.e && LoadedAs(o.state, x.e, x.body, id, vector, metadata, document)
            else o.Failed? && o.error == NoChangeVector && o.state.ix == s.ix
  {
    if vector.Some? {
      var e := target.decoded.value.e;
      var info := Info(id, vector, Auto, false, metadata, document, Some(e), false, "");
      TrackEntityKeeps(s, id, document, metadata, vector, target);
      NewIsNotTracked(s.ix, e);
      NewIsTracked(s.ix, info, e);
      TrackUnknownIs(s, id, document, metadata, vector, target, info);
    }
  }

  lemma TrackUnknownIs(s: Session, id: string, document: Json, metadata: Fields, vector: Option<string>, target: Target, info: Info)
    requires WellFormed(s.ix) && id != "" && Text.Lower(id) !in s.ix.byId && id !in s.ix.included && target.decoded.Some? && vector.Some?
    requires info == Info(id, vector, Auto, false, metadata, document, Some(target.decoded.value.e), false, "")
    requires InHeap(Alloc(s.ix, info).heap, s.ix.tracked)
    ensures var o := TrackEntity(s, id, document, metadata, vector, target); var x := target.decoded.value;
            && o.Done? && o.value == x.e && Body(o.state, x.e) == x.body
            && o.state.ix == Track(AddById(Alloc(s.ix, info), |s.ix.heap|), |s.ix.heap|)
  {
  }

  lemma NewIsTracked(ix: Index, info: Info, e: Entity)
    requires InHeap(ix.heap, ix.tracked) && info.entity == Some(e) && !IsTracked(ix, e)
    ensures InHeap(Alloc(ix, info).heap, ix.tracked)
    ensures var a, r := Alloc(ix, info), |ix.heap|;
            && IsTracked(Track(a, r), e) && EntryOf(Track(a, r), e) == info
            && Track(AddById(a, r), r) == AddById(Track(a, r), r)
            && IsTracked(AddById(Track(a, r), r), e) && EntryOf(AddById(Track(a, r), r), e) == info
  {
    var a, r := Alloc(ix, info), |ix.heap|;
    AppendIsTracked(a, r, e);
    AddByIdKeepsEntry(Track(a, r), r, e);
    AddByIdThenTrack(a, r);
  }

  lemma AppendIsTracked(a: Index, r: Ref, e: Entity)
    requires InHeap(a.heap, a.tracked) && r < |a.heap| && a.heap[r].entity == Some(e)
    requires forall i :: 0 <= i < |a.tracked| ==> a.heap[a.tracked[i]].entity != Some(e)
    ensures IsTracked(Track(a, r), e) && EntryOf(Track(a, r), e) == a.heap[r]
  {
    NotFound(a.heap, a.tracked, e);
    var t := Track(a, r);
    assert t.tracked == a.tracked + [r];
    FoundLast(t.heap, t.tracked, e);
  }

  lemma AddByIdThenTrack(a: Index, r: Ref)
    requires InHeap(a.heap, a.tracked) && r < |a.heap| && a.heap[r].entity.Some?
    ensures Track(AddById(a, r), r) == AddById(Track(a, r), r)
  {
  }

  lemma AddByIdKeepsEntry(ix: Index, r: Ref, e: Entity)
    requires r < |ix.heap|
    ensures (IsTracked(AddById(ix, r), e) <==> IsTracked(ix, e)) && EntryOf(AddById(ix, r), e) == EntryOf(ix, e)
  {
  }

  lemma NewIsNotTracked(ix: Index, e: Entity)
    requires InHeap(ix.heap, ix.tracked) && NewObject(ix, e)
    ensures !IsTracked(ix, e)
  {
    NotFound(ix.heap, ix.tracked, e);
  }

  // ---- from an object to the next save ---------------------------------------------

  /** The object is in the batch with a PUT of exactly this document under this id. */
  ghost predicate PutAs(b: Batch, e: Entity, id: string, document: Json) {
    exists i :: 0 <= i < |b.commands| && i < |b.entities| && b.entities[i] == e
      && b.commands[i].typ.PutType? && b.commands[i].id == id && b.commands[i].document == document
  }

  /** Whatever is assigned to a loaded object: it compares as unchanged exactly if the document it converts to is the
      same as the one that was loaded, and a panic means that the two cannot be compared. */
  lemma ChangedExactly(env: JsonChanges.Env, t: Session, e: Entity, body: Fields, j: Json)
    requires JsonChanges.ValidEnv(env) && WellFormed(t.ix) && IsTracked(t.ix, e)
    requires var info := EntryOf(t.ix, e);
             info.document.Obj? && !info.newDocument && !info.ignoreChanges && Converts(body, info.metadata, info.collection, j)
    ensures var u := Modify(t, e, body); var v := Verdict(env, u, EntryOf(u.ix, e)); var before := EntryOf(t.ix, e).document;
            (v == JsonChanges.Returned(false) <==> SameObject(env.render, before, j)) && (v.Panicked? ==> !ComparableObject(before, j))
  {
    var info := EntryOf(t.ix, e);
    ToJsonConverts(body, info);
    ConvertsUnique(body, info.metadata, info.collection, j, ToJson(body, info));
    JsonChanges.FastDecidesSame(env, info.document, j);
  }

  /** A put object is put with the document it converts to. */
  lemma PutAsConverted(env: JsonChanges.Env, s: Session, order: seq<Entity>, e: Entity, j: Json)
    requires Saveable(env, s, order) && IsTracked(s.ix, e) && e !in order && PutIn(Prepare(env, s, order).batch, e)
    requires var info := EntryOf(s.ix, e); Converts(Body(s, e), info.metadata, info.collection, j)
    ensures PutAs(Prepare(env, s, order).batch, e, EntryOf(s.ix, e).id, j)
  {
    var b, info := Prepare(env, s, order).batch, EntryOf(s.ix, e);
    var i :| 0 <= i < |b.commands| && i < |b.entities| && b.entities[i] == e && b.commands[i].typ.PutType?;
    CommandSends(env, s, order, i);
    ConvertsUnique(Body(s, e), info.metadata, info.collection, j, b.commands[i].document);
  }

  /** Load, assign, save: the object is put, under its id and with the document it converts to, exactly if that is not
      the same as the document that was loaded. */
  lemma LoadModifySave(env: JsonChanges.Env, t: Session, e: Entity, loaded: Fields, id: string, vector: Option<string>, metadata: Fields, document: Json,
                       body: Fields, j: Json, order: seq<Entity>)
    requires JsonChanges.ValidEnv(env) && LoadedAs(t, e, loaded, id, vector, metadata, document) && document.Obj?
    requires Converts(body, metadata, "", j) && e !in order && Saveable(env, Modify(t, e, body), order)
    ensures var b := Prepare(env, Modify(t, e, body), order).batch;
            if SameObject(env.render, document, j) then !PutIn(b, e) else PutAs(b, e, id, j)
  {
    var u := Modify(t, e, body);
    ChangedExactly(env, t, e, body, j);
    PutsExactly(env, u, order, e);
    if !SameObject(env.render, document, j) {
      PreparedVerdict(env, u, order, e);
      PutAsConverted(env, u, order, e, j);
    }
  }

  /** In a save that can be prepared no comparison panics. */
  lemma PreparedVerdict(env: JsonChanges.Env, s: Session, order: seq<Entity>, e: Entity)
    requires Saveable(env, s, order) && IsTracked(s.ix, e) && e !in order
    ensures FreeToPut(env, s.deferredMap, s, EntryOf(s.ix, e))
  {
    PrepareReadyExactly(env, s, order);
  }

  /** An object whose changes are ignored is never put. */
  lemma IgnoredIsNotPut(env: JsonChanges.Env, s: Session, order: seq<Entity>, e: Entity)
    requires Saveable(env, s, order) && IsTracked(s.ix, e) && e !in order && EntryOf(s.ix, e).ignoreChanges
    ensures !PutIn(Prepare(env, s, order).batch, e)
  {
    PutsExactly(env, s, order, e);
  }

  // ---- storing --------------------------------------------------------------------

  /** A new object is refused exactly if a command on its id is deferred, it is marked as deleted, or its ordinary id
      leads to another object, tested in this order. */
  lemma StoreRefusedExactly(s: Session, e: Entity, changeVector: string, id: string, mode: ConcurrencyCheck, metadata: Fields)
    requires WellFormed(s.ix) && !IsTracked(s.ix, e)
    ensures var o := Store(s, e, changeVector, id, mode, metadata); var k := Text.Lower(id);
            var deferred := Key(id, AnyCommand, "") in s.deferredMap;
            var taken := Ordinary(id) && k in s.ix.byId && s.ix.heap[s.ix.byId[k]].entity != Some(e);
            && (o.Done? <==> !deferred && e !in s.deleted && !taken)
            && (deferred ==> o.Failed? && o.error == DeferredRegistered)
            && (!deferred && e in s.deleted ==> o.Failed? && o.error == AlreadyDeleted)
            && (!deferred && e !in s.deleted && taken ==> o.Failed? && o.error == NonUnique)
            && (o.Failed? ==> o.state.ix == s.ix)
  {
  }

  /** A stored object: a new entry with these contents, and the id in the object. */
  lemma StoredEntry(s: Session, e: Entity, changeVector: string, id: string, mode: ConcurrencyCheck, metadata: Fields)
    requires Inv(s.ix) && !IsTracked(s.ix, e) && Store(s, e, changeVector, id, mode, metadata).Done?
    ensures var t := Store(s, e, changeVector, id, mode, metadata).state;
            && Inv(t.ix) && IsTracked(t.ix, e) && e !in t.deleted
            && EntryOf(t.ix, e) == Info(id, if changeVector == "" then None else Some(changeVector), mode, false, metadata, Null, Some(e), true, "")
            && Body(t, e) == Body(s, e)[IDENTITY_PROPERTY := Str(id)]
            && (forall x :: x != e ==> Body(t, x) == Body(s, x))
  {
    StoreKeeps(s, e, changeVector, id, mode, metadata);
    var s2 := StoresNew(s, e, changeVector, id, mode, metadata);
    StoredInUnitOfWork(s2, e, changeVector, id, mode, metadata);
    SameBodies(s2, Store(s, e, changeVector, id, mode, metadata).state);
  }

  lemma SameBodies(s: Session, t: Session)
    requires s.bodies == t.bodies
    ensures forall x :: Body(t, x) == Body(s, x)
  {
  }

  lemma StoresNew(s: Session, e: Entity, changeVector: string, id: string, mode: ConcurrencyCheck, metadata: Fields) returns (s2: Session)
    requires WellFormed(s.ix) && !IsTracked(s.ix, e) && Store(s, e, changeVector, id, mode, metadata).Done?
    ensures s2.ix == s.ix && Store(s, e, changeVector, id, mode, metadata).state == StoreInUnitOfWork(s2, e, changeVector, id, mode, metadata)
    ensures Body(s2, e) == Body(s, e)[IDENTITY_PROPERTY := Str(id)] && forall x :: x != e ==> Body(s2, x) == Body(s, x)
  {
    StoreCases(s, e, changeVector, id, mode, metadata);
    s2 := ForgetMissing(SetIdentity(s, e, id), id);
    IdentitySet(s, s2, e, id);
  }

  lemma IdentitySet(s: Session, t: Session, e: Entity, id: string)
    requires t.bodies == SetIdentity(s, e, id).bodies
    ensures Body(t, e) == Body(s, e)[IDENTITY_PROPERTY := Str(id)] && forall x :: x != e ==> Body(t, x) == Body(s, x)
  {
  }

  lemma StoredInUnitOfWork(s: Session, e: Entity, changeVector: string, id: string, mode: ConcurrencyCheck, metadata: Fields)
    requires InHeap(s.ix.heap, s.ix.tracked) && !IsTracked(s.ix, e)
    ensures var t := StoreInUnitOfWork(s, e, changeVector, id, mode, metadata);
            && IsTracked(t.ix, e) && EntryOf(t.ix, e) == StoredInfo(e, changeVector, id, mode, metadata)
            && e !in t.deleted && t.bodies == s.bodies
  {
    var info := StoredInfo(e, changeVector, id, mode, metadata);
    NewIsTracked(s.ix, info, e);
    UnitOfWorkIndex(s, e, changeVector, id, mode, metadata);
  }

  lemma UnitOfWorkIndex(s: Session, e: Entity, changeVector: string, id: string, mode: ConcurrencyCheck, metadata: Fields)
    requires InHeap(s.ix.heap, s.ix.tracked) && InHeap(Alloc(s.ix, StoredInfo(e, changeVector, id, mode, metadata)).heap, s.ix.tracked)
    ensures var t := StoreInUnitOfWork(s, e, changeVector, id, mode, metadata); var r := |s.ix.heap|;
            var ix := Track(Alloc(s.ix, StoredInfo(e, changeVector, id, mode, metadata)), r);
            && t.ix == (if id != "" then AddById(ix, r) else ix) && e !in t.deleted && t.bodies == s.bodies
  {
  }

  /** Store, then save: a new object is put, with its present fields. */
  lemma StoreThenSave(env: JsonChanges.Env, s: Session, e: Entity, changeVector: string, id: string, mode: ConcurrencyCheck, metadata: Fields,
                      order: seq<Entity>, j: Json)
    requires Inv(s.ix) && !IsTracked(s.ix, e) && Store(s, e, changeVector, id, mode, metadata).Done? && e !in order
    requires Saveable(env, Store(s, e, changeVector, id, mode, metadata).state, order) && Converts(Body(s, e), metadata, "", j)
    ensures PutAs(Prepare(env, Store(s, e, changeVector, id, mode, metadata).state, order).batch, e, id, j)
  {
    var t := Store(s, e, changeVector, id, mode, metadata).state;
    StoredEntry(s, e, changeVector, id, mode, metadata);
    IdentityNotSent(Body(s, e), id, metadata, j);
    PutsExactly(env, t, order, e);
    PutAsConverted(env, t, order, e, j);
  }

  /** The ID of an object is not part of the document. */
  lemma IdentityNotSent(body: Fields, id: string, metadata: Fields, j: Json)
    requires Converts(body, metadata, "", j)
    ensures Converts(body[IDENTITY_PROPERTY := Str(id)], metadata, "", j)
  {
    assert |METADATA_KEY| != |IDENTITY_PROPERTY|;
    var body' := body[IDENTITY_PROPERTY := Str(id)];
    forall k | k != IDENTITY_PROPERTY && k != METADATA_KEY ensures SameAt(k, j.fields, body') {
      assert SameAt(k, j.fields, body);
    }
  }

  /** A second store of a tracked object: its concurrency check and, if one is given, its change vector; nothing else
      of the session changes. */
  lemma RestoredEntry(s: Session, e: Entity, changeVector: string, id: string, mode: ConcurrencyCheck, metadata: Fields)
    requires Inv(s.ix) && IsTracked(s.ix, e)
    ensures Store(s, e, changeVector, id, mode, metadata).Done?
    ensures var t := Store(s, e, changeVector, id, mode, metadata).state; var info, info' := EntryOf(s.ix, e), EntryOf(t.ix, e);
            && IsTracked(t.ix, e) && info'.mode == mode && info'.changeVector == (if changeVector == "" then info.changeVector else Some(changeVector))
            && info' == info.(mode := info'.mode, changeVector := info'.changeVector)
            && t == s.(ix := s.ix.(heap := t.ix.heap)) && |t.ix.heap| == |s.ix.heap|
            && (forall r :: 0 <= r < |s.ix.heap| && s.ix.heap[r] != info ==> t.ix.heap[r] == s.ix.heap[r])
  {
    var t := Store(s, e, changeVector, id, mode, metadata).state;
    assert forall r :: 0 <= r < |s.ix.heap| ==> t.ix.heap[r].entity == s.ix.heap[r].entity;
    FindStable(s.ix.heap, t.ix.heap, s.ix.tracked, e);
  }

  /** The ids that one object has to itself: all but the empty one and those that the server completes. */
  lemma OrdinaryExactly(id: string)
    ensures Ordinary(id) <==> |id| > 0 && id[|id| - 1] !in "/|"
    ensures IDENTITY_PROPERTY == "ID"
  {
  }

  // ---- deferring ------------------------------------------------------------------

  /** A deferred command blocks stores and deletions of its id and, unless it is about an attachment, changes to it. */
  lemma DeferredBlocks(s: Session, c: Command)
    ensures var t := Defer(s, c);
            && t == s.(deferred := s.deferred + [c], deferredMap := t.deferredMap)
            && Key(c.id, AnyCommand, "") in t.deferredMap && t.deferredMap[Key(c.id, AnyCommand, "")] == c
            && Key(c.id, c.typ, c.name) in t.deferredMap
            && (!c.typ.AttachmentPut? && !c.typ.AttachmentDelete? ==> Key(c.id, NotAttachment, "") in t.deferredMap)
            && (c.typ.AttachmentPut? || c.typ.AttachmentDelete? ==>
                  (Key(c.id, NotAttachment, "") in t.deferredMap <==> Key(c.id, NotAttachment, "") in s.deferredMap))
            && (forall k: Key :: k.id != c.id ==> (k in t.deferredMap <==> k in s.deferredMap) && (k in s.deferredMap ==> t.deferredMap[k] == s.deferredMap[k]))
  {
  }

  // ---- deleting -------------------------------------------------------------------

  /** Only tracked objects can be deleted. */
  lemma DeleteRefusedExactly(s: Session, e: Entity)
    requires WellFormed(s.ix)
    ensures Delete(s, e).Done? <==> IsTracked(s.ix, e)
    ensures !IsTracked(s.ix, e) ==> Delete(s, e) == Failed(s, NotAssociated)
    ensures IsTracked(s.ix, e) ==>
              && Delete(s, e).state.deleted == s.deleted + {e} && IsTracked(Delete(s, e).state.ix, e)
              && EntryOf(s.ix, e).id !in Delete(s, e).state.ix.included
  {
  }

  /** Deleting by id is refused exactly for the empty id and, without a panic, for an object that has changed. */
  lemma DeleteByIDRefusedExactly(s: Session, id: string, expected: string, changed: JsonChanges.Outcome)
    requires WellFormed(s.ix) && !DeleteByID(s, id, expected, changed).Crashed?
    ensures var o := DeleteByID(s, id, expected, changed); var k := Text.Lower(id);
            var dirty := k in s.ix.byId && s.ix.heap[s.ix.byId[k]].entity.Some? && changed == JsonChanges.Returned(true);
            && (o.Failed? <==> id == "" || dirty) && (o.Failed? ==> o.state == s)
            && (id == "" ==> o == Failed(s, EmptyId)) && (id != "" && dirty ==> o == Failed(s, ChangedEntity))
  {
  }

  /** Delete, then save: the object is deleted. */
  lemma DeleteThenSave(env: JsonChanges.Env, s: Session, e: Entity, order: seq<Entity>)
    requires Inv(s.ix) && IsTracked(s.ix, e) && Saveable(env, Delete(s, e).state, order)
    requires forall x :: x in Delete(s, e).state.deleted ==> x in order
    ensures DeletedIn(Prepare(env, Delete(s, e).state, order).batch, e)
  {
    DeleteRefusedExactly(s, e);
    DeletesExactly(env, Delete(s, e).state, order, e);
  }

  /** The DELETE that a deletion by id defers: it checks the vector given, or the known one with optimistic concurrency. */
  lemma DeferredDelete(s: Session, id: string, expected: string, changed: JsonChanges.Outcome)
    requires WellFormed(s.ix) && DeleteByID(s, id, expected, changed).Done?
    ensures var t := DeleteByID(s, id, expected, changed).state; var k := Text.Lower(id);
            && |t.deferred| == |s.deferred| + 1 && t.deferred[..|s.deferred|] == s.deferred
            && var c := t.deferred[|s.deferred|]; var known := if k in s.ix.byId then s.ix.heap[s.ix.byId[k]].changeVector else None;
               && c.id == id && c.typ.DeleteType? && c.name == "" && c.document == Null
               && (expected != "" ==> c.changeVector == Some(expected))
               && (expected == "" && s.optimistic && known.Some? && known.value != "" ==> c.changeVector == known)
               && (expected == "" && (!s.optimistic || known.None? || known.value == "") ==> c.changeVector == None)
  {
    var k := Text.Lower(id);
    var known := if k in s.ix.byId then OrEmpty(s.ix.heap[s.ix.byId[k]].changeVector) else "";
    var u := DeletionFinishes(s, id, expected, changed, known);
    FinishDefers(u, id, expected, known);
  }

  lemma DeletionFinishes(s: Session, id: string, expected: string, changed: JsonChanges.Outcome, known: string) returns (u: Session)
    requires WellFormed(s.ix) && DeleteByID(s, id, expected, changed).Done?
    requires var k := Text.Lower(id); known == if k in s.ix.byId then OrEmpty(s.ix.heap[s.ix.byId[k]].changeVector) else ""
    ensures u.deferred == s.deferred && u.optimistic == s.optimistic
    ensures DeleteByID(s, id, expected, changed) == FinishDeleteByID(u, id, expected, known)
  {
    var k := Text.Lower(id);
    if k !in s.ix.byId { return s; }
    var info := s.ix.heap[s.ix.byId[k]];
    u := s.(ix := RemoveById(if info.entity.None? then s.ix else Untrack(s.ix, info.entity.value), id));
  }

  lemma FinishDefers(u: Session, id: string, expected: string, known: string)
    ensures var t := FinishDeleteByID(u, id, expected, known).state;
            && |t.deferred| == |u.deferred| + 1 && t.deferred[..|u.deferred|] == u.deferred
            && var c := t.deferred[|u.deferred|];
               && c.id == id && c.typ.DeleteType? && c.name == "" && c.document == Null
               && (expected != "" ==> c.changeVector == Some(expected))
               && (expected == "" && u.optimistic && known != "" ==> c.changeVector == Some(known))
               && (expected == "" && (!u.optimistic || known == "") ==> c.changeVector == None)
  {
  }

  // ---- the request ----------------------------------------------------------------

  /** A save counts one request if it has a command to send, deferred ones included; beyond the limit it fails before
      anything is sent. */
  lemma RequestCounted(env: JsonChanges.Env, s: Session, order: seq<Entity>, reply: seq<Reply>)
    requires Inv(s.ix) && Prepare(env, s, order).Ready?
    ensures var b := Prepare(env, s, order).batch; var o := CreateRequest(env, s, order);
            && b.s.requests == s.requests && b.s.maxRequests == s.maxRequests
            && (b.commands + s.deferred == [] ==> o == Done(b.s, None) && SaveChanges(env, s, order, reply) == Done(b.s, ()))
            && (b.commands + s.deferred != [] && s.requests < s.maxRequests ==>
                  o.Done? && o.state == b.s.(requests := s.requests + 1) && o.value == Some(b.(s := o.state)))
            && (b.commands + s.deferred != [] && s.requests >= s.maxRequests ==>
                  o.Failed? && o.error == TooManyRequests && o.state == b.s.(requests := s.requests + 1)
                  && SaveChanges(env, s, order, reply) == Failed(o.state, TooManyRequests))
  {
    PlanExists(env, s, order);
  }

  // ---- the reply ------------------------------------------------------------------

  /** An entry after the reply to its PUT: id and change vector of the reply, its metadata on top of what was there, and
      the whole metadata in the document. */
  ghost predicate WrittenBack(info: Info, props: Fields, info': Info) {
    && HasText(props, "@id") && info'.id == props["@id"].s
    && HasText(props, "@change-vector") && info'.changeVector == Some(props["@change-vector"].s)
    && (forall k :: k in props ==> k in info'.metadata && info'.metadata[k] == props[k])
    && (forall k :: k !in props ==> SameAt(k, info'.metadata, info.metadata))
    && info.document.Obj? && info'.document.Obj?
    && (forall k :: k != METADATA_KEY ==> SameAt(k, info'.document.fields, info.document.fields))
    && METADATA_KEY in info'.document.fields && info'.document.fields[METADATA_KEY] == Obj(info'.metadata)
    && info'.entity == info.entity && info'.mode == info.mode && info'.collection == info.collection
    && info'.newDocument == info.newDocument && info'.ignoreChanges == info.ignoreChanges
  }

  lemma ReplyInfoWrites(info: Info, props: Fields)
    requires GoodPut(props) && info.document.Obj?
    ensures WrittenBack(info, props, ReplyInfo(info, props))
  {
  }

  /** The objects of the puts differ. */
  ghost predicate OwnersDiffer(ix: Index, puts: seq<Ref>) {
    forall i, j :: 0 <= i < j < |puts| ==> EntityOf(At(ix, puts[i])) != EntityOf(At(ix, puts[j]))
  }

  lemma SetOneBody(s: Session, r: Ref, props: Fields, x: Entity)
    requires Writable(s.ix, r) && GoodPut(props)
    ensures var t := SetOne(s, r, props);
            Body(t, x) == if x == EntityOf(At(s.ix, r)) then Body(s, x)[IDENTITY_PROPERTY := props[METADATA_ID]] else Body(s, x)
  {
  }

  lemma OwnersDifferNext(s: Session, puts: seq<Ref>, props: seq<Fields>)
    requires puts != [] && Settable(s.ix, puts, props) && OwnersDiffer(s.ix, puts)
    ensures Writable(s.ix, puts[0]) && GoodPut(props[0])
    ensures OwnersDiffer(SetOne(s, puts[0], props[0]).ix, puts[1..])
    ensures forall i :: 1 <= i < |puts| ==> EntityOf(At(SetOne(s, puts[0], props[0]).ix, puts[i])) == EntityOf(At(s.ix, puts[i])) != EntityOf(At(s.ix, puts[0]))
  {
  }

  lemma {:induction false} SetPutsBodyFrame(s: Session, puts: seq<Ref>, props: seq<Fields>, x: Entity)
    requires Settable(s.ix, puts, props) && OwnersDiffer(s.ix, puts) && forall i :: 0 <= i < |puts| ==> EntityOf(At(s.ix, puts[i])) != x
    ensures Body(SetPuts(s, puts, props), x) == Body(s, x)
    decreases |puts|
  {
    if puts != [] {
      SettableStep(s, puts, props);
      OwnersDifferNext(s, puts, props);
      SetOneBody(s, puts[0], props[0], x);
      assert EntityOf(At(s.ix, puts[0])) != x;
      SetPutsBodyFrame(SetOne(s, puts[0], props[0]), puts[1..], props[1..], x);
    }
  }

  lemma OthersOwn(ix: Index, puts: seq<Ref>, x: Entity)
    requires puts != [] && forall i :: 1 <= i < |puts| ==> EntityOf(At(ix, puts[i])) != x
    ensures forall j :: 0 <= j < |puts[1..]| ==> EntityOf(At(ix, puts[1..][j])) != x
  {
  }

  /** The object of each PUT gets the id of its own reply; no other field and no other object changes. */
  lemma {:induction false} SetPutsBody(s: Session, puts: seq<Ref>, props: seq<Fields>, i: nat)
    requires Settable(s.ix, puts, props) && OwnersDiffer(s.ix, puts) && i < |puts|
    ensures GoodPut(props[i])
    ensures var x := EntityOf(At(s.ix, puts[i])); Body(SetPuts(s, puts, props), x) == Body(s, x)[IDENTITY_PROPERTY := props[i][METADATA_ID]]
    decreases |puts|
  {
    SettableStep(s, puts, props);
    OwnersDifferNext(s, puts, props);
    var t, x := SetOne(s, puts[0], props[0]), EntityOf(At(s.ix, puts[i]));
    SetOneBody(s, puts[0], props[0], x);
    if i == 0 {
      OthersOwn(t.ix, puts, x);
      SetPutsBodyFrame(t, puts[1..], props[1..], x);
    } else {
      assert puts[1..][i - 1] == puts[i] && props[1..][i - 1] == props[i];
      SetPutsBody(t, puts[1..], props[1..], i - 1);
    }
  }

  lemma PutOwnersDiffer(p: Plan)
    requires Planned(p)
    ensures OwnersDiffer(p.b.s.ix, p.puts)
  {
    PutEffectSound(p.bd, p.puts, p.b);
    forall i, j | 0 <= i < j < |p.puts| ensures EntityOf(At(p.b.s.ix, p.puts[i])) != EntityOf(At(p.b.s.ix, p.puts[j])) {
      assert p.puts[i] in p.puts && p.puts[j] in p.puts;
      PutRefsByEntity(p.b.s.ix, p.puts[i], p.puts[j]);
    }
  }

  ghost predicate AsAnswered(s: Session, t: Session, r: Ref, props: Fields) {
    var e := EntityOf(At(s.ix, r));
    && WrittenBack(At(s.ix, r), props, At(t.ix, r))
    && Body(t, e) == Body(s, e)[IDENTITY_PROPERTY := Str(At(t.ix, r).id)]
  }

  ghost predicate SavedAt(p: Plan, reply: seq<Reply>, i: nat)
    requires i < |p.puts|
  {
    var m := |p.bd.commands| + i;
    m < |reply| && reply[m].Put? && AsAnswered(p.b.s, Saved(p, reply), p.puts[i], reply[m].props)
  }

  /** After a save that was answered faithfully, the entry of each PUT and its object say what the reply at the position
      of the PUT says. */
  lemma SavedAsAnswered(p: Plan, reply: seq<Reply>, i: nat)
    requires Planned(p) && Faithful(p.b, reply) && i < |p.puts|
    ensures SavedAt(p, reply, i)
  {
    FaithfulReplyFits(p, reply);
    AnsweredSettable(p, reply);
    PropsAt(p, reply, i);
    assert AnsweredAt(p, reply, i);
    var props := PropsFor(p, reply);
    SetPutsAt(p.b.s, p.puts, props, i);
    ReplyInfoWrites(At(p.b.s.ix, p.puts[i]), props[i]);
    PutOwnersDiffer(p);
    SetPutsBody(p.b.s, p.puts, props, i);
  }

  /** Replies that are refused: an empty one, a nil result, and a PUT without change vector or id for a tracked object;
      nothing of the session changes. */
  lemma BadRepliesRefused(s: Session, entities: seq<Entity>, count: nat, reply: seq<Reply>)
    requires WellFormed(s.ix)
    ensures reply == [] ==> SetResult(s, entities, count, reply) == Failed(s, EmptyReply)
    ensures reply != [] && count > 0 && reply[0].Nil? ==> SetResult(s, entities, count, reply) == Failed(s, BadReply)
    ensures reply != [] && count > 0 && reply[0].Put? && entities != [] && IsTracked(s.ix, entities[0]) && !GoodPut(reply[0].props)
            ==> SetResult(s, entities, count, reply) == Failed(s, BadReply)
    ensures reply != [] && count > |reply| && (forall i :: 0 <= i < |reply| ==> reply[i].Other?) ==> SetResult(s, entities, count, reply).Crashed?
    ensures count == 1 && |reply| == 1 && reply[0].Put? && entities != [] && !IsTracked(s.ix, entities[0])
            ==> SetResult(s, entities, count, reply) == Done(s, ())
  {
    if reply != [] && count > |reply| && (forall i :: 0 <= i < |reply| ==> reply[i].Other?) { ShortReplyPanics(s, entities, count, reply, 0); }
  }

  lemma {:induction false} ShortReplyPanics(s: Session, entities: seq<Entity>, count: nat, reply: seq<Reply>, i: nat)
    requires WellFormed(s.ix) && i <= |reply| < count && forall j :: 0 <= j < |reply| ==> reply[j].Other?
    ensures SetFrom(s, entities, count, reply, i).Crashed?
    decreases |reply| - i
  {
    if i < |reply| { ShortReplyPanics(s, entities, count, reply, i + 1); }
  }

  /** What makes the reply to a PUT good. */
  lemma GoodPutExactly(props: Fields)
    ensures GoodPut(props) <==> && "@change-vector" in props && props["@change-vector"].Str?
                                && "@id" in props && props["@id"].Str? && props["@id"].s != ""
  {
  }
}
