/** What one operation of the session does to the next: storing, loading, deleting and evicting in sequence. */
module SessionLaws {
  import opened Wrappers
  import opened JsonDocs
  import opened SessionModel
  import opened SessionInvariant
  import opened SessionSave
  import opened SessionReply
  import opened SessionTheorems
  import opened SessionRuns
  import JsonChanges
  import StringArray
  import Text

  /** A new object is indexed under its id. */
  lemma StoredIsFound(s: Session, e: Entity, changeVector: string, id: string, mode: ConcurrencyCheck, metadata: Fields)
    requires WellFormed(s.ix) && id != "" && Text.Lower(id) !in s.ix.byId
    ensures Finds(StoreInUnitOfWork(s, e, changeVector, id, mode, metadata).ix, Text.Lower(id), e)
  {
  }

  lemma ForgottenIsNotMissing(s: Session, id: string)
    requires id != ""
    ensures !StringArray.ContainsNoCase(ForgetMissing(s, id).missing, id)
  {
    StringArray.RemoveNoCaseContains(s.missing, id, id);
  }

  /** Store, then load: an object stored under an ordinary id is held, so every load of the id gives it, even if the
      id was known as missing before. */
  lemma StoreThenLoad(s: Session, e: Entity, changeVector: string, id: string, mode: ConcurrencyCheck, metadata: Fields)
    requires Inv(s.ix) && !IsTracked(s.ix, e) && Ordinary(id) && Store(s, e, changeVector, id, mode, metadata).Done?
    ensures var t := Store(s, e, changeVector, id, mode, metadata).state; Inv(t.ix) && Holds(t, id, e)
  {
    StoreKeeps(s, e, changeVector, id, mode, metadata);
    FreeId(s.ix, e, id);
    var s2 := ForgetMissing(SetIdentity(s, e, id), id);
    StoredIsFound(s2, e, changeVector, id, mode, metadata);
    ForgottenIsNotMissing(s2, id);
  }

  /** A second object is refused under the same id, in any letter case. */
  lemma StoreTwiceIsRefused(s: Session, id: string, e: Entity, e': Entity, id': string, mode: ConcurrencyCheck)
    requires Inv(s.ix) && Holds(s, id, e) && e' != e && !IsTracked(s.ix, e') && Text.EqualFold(id, id')
    ensures Store(s, e', "", id', mode, map[]).Failed?
  {
    OrdinaryIgnoresCase(id, id');
  }

  lemma HiddenMeansNone(s: Session, id: string, target: Target)
    requires WellFormed(s.ix) && StringArray.ContainsNoCase(s.missing, id)
    ensures GetDocument(s, id, target) == Done(s, None)
  {
  }

  /** Delete, then load: in any letter case the id gives nothing. */
  lemma DeleteThenLoad(s: Session, e: Entity, id': string, target: Target)
    requires Inv(s.ix) && IsTracked(s.ix, e) && Text.EqualFold(EntryOf(s.ix, e).id, id')
    ensures Delete(s, e).Done? && WellFormed(Delete(s, e).state.ix)
    ensures GetDocument(Delete(s, e).state, id', target) == Done(Delete(s, e).state, None)
  {
    DeleteKeeps(s, e);
    var t := Delete(s, e).state;
    assert t.missing[|s.missing|] == EntryOf(s.ix, e).id;
    HiddenMeansNone(t, id', target);
  }

  /** Delete by id, then load: nothing; then store under that id: refused, because the deletion is deferred. */
  lemma DeleteByIDThenLoad(s: Session, id: string, expected: string, changed: JsonChanges.Outcome, id': string, target: Target)
    requires Inv(s.ix) && DeleteByID(s, id, expected, changed).Done? && Text.EqualFold(id, id')
    ensures var t := DeleteByID(s, id, expected, changed).state;
            && Inv(t.ix) && GetDocument(t, id', target) == Done(t, None)
            && Text.Lower(id) !in t.ix.byId
            && t.deferred != [] && t.deferred[|t.deferred| - 1].id == id && t.deferred[|t.deferred| - 1].typ == DeleteType
            && Key(id, AnyCommand, "") in t.deferredMap
  {
    DeleteByIDKeeps(s, id, expected, changed);
    var u, known := DeleteByIDEnds(s, id, expected, changed);
    FinishHides(u, id, expected, known, id');
    HiddenMeansNone(DeleteByID(s, id, expected, changed).state, id', target);
  }

  /** Before its last two steps a deletion by id has cleared the index under the id. */
  lemma DeleteByIDEnds(s: Session, id: string, expected: string, changed: JsonChanges.Outcome) returns (u: Session, known: string)
    requires WellFormed(s.ix) && DeleteByID(s, id, expected, changed).Done?
    ensures DeleteByID(s, id, expected, changed) == FinishDeleteByID(u, id, expected, known) && Text.Lower(id) !in u.ix.byId
  {
    var k := Text.Lower(id);
    if k !in s.ix.byId { return s, ""; }
    var info := s.ix.heap[s.ix.byId[k]];
    known := OrEmpty(info.changeVector);
    u := s.(ix := RemoveById(if info.entity.None? then s.ix else Untrack(s.ix, info.entity.value), id));
  }

  lemma FinishHides(u: Session, id: string, expected: string, known: string, id': string)
    requires Text.EqualFold(id, id')
    ensures var t := FinishDeleteByID(u, id, expected, known).state;
            && t.ix == u.ix && StringArray.ContainsNoCase(t.missing, id')
            && t.deferred != [] && t.deferred[|t.deferred| - 1].id == id && t.deferred[|t.deferred| - 1].typ == DeleteType
            && Key(id, AnyCommand, "") in t.deferredMap
  {
    assert (u.missing + [id])[|u.missing|] == id;
  }

  /** The entry an id leads to has no object and cannot be converted. */
  ghost predicate BareEntry(ix: Index, id: string)
    requires WellFormed(ix)
  {
    var k := Text.Lower(id);
    k in ix.byId && ix.heap[ix.byId[k]].entity.None? && WritesMetadata(ix.heap[ix.byId[k]])
  }

  /** Deleting by id panics exactly if the comparison does, or the entry has metadata and no object. */
  lemma DeleteByIDPanicsExactly(s: Session, id: string, expected: string, changed: JsonChanges.Outcome)
    requires WellFormed(s.ix)
    ensures DeleteByID(s, id, expected, changed).Crashed?
            <==> id != "" && Text.Lower(id) in s.ix.byId && (changed.Panicked? || BareEntry(s.ix, id))
  {
  }

  /** A document that was delivered and never given an object, for instance because decoding it failed: deleting it by
      id is a panic. */
  lemma DeliveredDeletePanics(s: Session, d: Incoming, target: Target, expected: string)
    requires Inv(s.ix) && d.id != "" && d.document.Obj? && METADATA_CHANGE_VECTOR in d.metadata && Text.Lower(d.id) !in s.ix.byId
    requires target.decoded.None? && !StringArray.ContainsNoCase(s.missing, d.id)
    ensures var t := s.(ix := Receive(s.ix, d));
            && Inv(t.ix) && GetDocument(t, d.id, target) == Failed(t, DecodeFailed)
            && DeleteByID(t, d.id, expected, JsonChanges.Returned(false)).Crashed?
  {
    ReceiveKeeps(s.ix, d);
    var t := s.(ix := Receive(s.ix, d));
    assert t.ix.heap[t.ix.byId[Text.Lower(d.id)]] == IncomingInfo(d);
    assert |d.metadata| > 0;
    DeleteByIDPanicsExactly(t, d.id, expected, JsonChanges.Returned(false));
  }

  lemma StoreAfterDeleteByID(s: Session, id: string, expected: string, changed: JsonChanges.Outcome, e: Entity, mode: ConcurrencyCheck)
    requires Inv(s.ix) && DeleteByID(s, id, expected, changed).Done?
    ensures var t := DeleteByID(s, id, expected, changed).state;
            && WellFormed(t.ix)
            && (!IsTracked(t.ix, e) ==> Store(t, e, "", id, mode, map[]).Failed? && Store(t, e, "", id, mode, map[]).error == DeferredRegistered)
  {
    DeleteByIDThenLoad(s, id, expected, changed, id, Target(None, true));
  }

  /** Evict, then load: the object is forgotten under its id and as an object. */
  lemma EvictForgets(s: Session, e: Entity)
    requires Inv(s.ix)
    ensures Inv(Evict(s, e).ix) && !IsTracked(Evict(s, e).ix, e) && e !in Evict(s, e).deleted
    ensures IsTracked(s.ix, e) ==> Text.Lower(EntryOf(s.ix, e).id) !in Evict(s, e).ix.byId
  {
    EvictKeeps(s, e);
    DropOthers(s.ix, e, e);
    assert IsTracked(s.ix, e) ==> Evict(s, e).ix == Drop(s.ix, e);
  }

  /** Load, then load: a document that was loaded is held from then on. */
  lemma LoadThenLoad(s: Session, id: string, target: Target, e: Entity)
    requires Inv(s.ix) && Fresh(s.ix, target) && Ordinary(id) && e !in s.deleted
    requires GetDocument(s, id, target).Done? && GetDocument(s, id, target).value == Some(e)
    ensures var t := GetDocument(s, id, target).state; Inv(t.ix) && Holds(t, id, e)
  {
    GetDocumentKeeps(s, id, target);
    var k := Text.Lower(id);
    if k in s.ix.byId {
      LoadedKnown(s, s.ix.byId[k], DropIncluded(s.ix, s.ix.heap[s.ix.byId[k]].id), target, false, k);
    } else {
      var r := s.ix.included[id];
      LoadedKnown(s, r, AddById(DropIncluded(s.ix, id), r), target, true, k);
    }
  }

  lemma LoadedKnown(s: Session, r: Ref, ix: Index, target: Target, late: bool, k: string)
    requires WellFormed(ix) && r < |ix.heap| && k in ix.byId && ix.byId[k] == r && TrackEntry(s, ix, r, target, late).Done?
    ensures var o := TrackEntry(s, ix, r, target, late);
            Finds(o.state.ix, k, o.value) && o.state.deleted == s.deleted && o.state.missing == s.missing
  {
  }

  // ---- a delivered document hides a deleted object --------------------------------

  /** The only tracked object is new, and the index holds a delivered entry without an object under its key. */
  ghost predicate Hidden(s: Session, e: Entity) {
    && Inv(s.ix) && s.deferredMap == map[] && s.ix.tracked == [1] && |s.ix.heap| == 2
    && s.ix.heap[0].entity.None? && s.ix.heap[1].entity == Some(e) && s.ix.heap[1].newDocument && !s.ix.heap[1].ignoreChanges
    && Text.Lower(s.ix.heap[1].id) in s.ix.byId && s.ix.byId[Text.Lower(s.ix.heap[1].id)] == 0
  }

  lemma HiddenIsTracked(s: Session, e: Entity)
    requires Hidden(s, e)
    ensures IsTracked(s.ix, e) && EntryOf(s.ix, e) == s.ix.heap[1] && !AllFindObjects(s.ix, [e])
  {
    FindsOnly(s.ix, e, 0);
    assert e in [e] && !FindsObject(s.ix, e);
  }

  /** The delete loop takes the delivered entry, and the object stays tracked. */
  lemma HiddenDelete(s: Session, e: Entity)
    requires Hidden(s, e)
    ensures var p := DeletePart(s, [e]);
            && p.Ready? && p.batch.s.ix.tracked == [1] && p.batch.s.ix.heap == s.ix.heap
            && p.batch.entities == [] && |p.batch.commands| == 1
            && p.batch.commands[0].typ.DeleteType? && p.batch.commands[0].id == s.ix.heap[0].id
  {
    HiddenIsTracked(s, e);
    var b := DeleteStep(s.deferredMap, Cleared(s), e).batch;
    assert DeleteAll(s.deferredMap, b, [e][1..]) == Ready(b);
  }

  /** A new object is put. */
  lemma NewIsPut(env: JsonChanges.Env, pending: map<Key, Command>, b: Batch, r: Ref, e: Entity)
    requires b.s.ix.tracked == [r] && pending == map[] && At(b.s.ix, r).entity == Some(e)
    requires At(b.s.ix, r).newDocument && !At(b.s.ix, r).ignoreChanges
    ensures var p := PutAll(env, pending, b, b.s.ix.tracked);
            && p.Ready? && p.batch.commands == b.commands + [PutCommand(b.s, At(b.s.ix, r))] && p.batch.entities == b.entities + [e]
    ensures Puts(env, b.s, b.s.ix.tracked) == [r]
  {
    var b1 := PutStep(pending, b, r, JsonChanges.Returned(true)).batch;
    assert PutAll(env, pending, b1, [r][1..]) == Ready(b1);
    assert Puts(env, b.s, [r][1..]) == [];
  }

  /** So the batch deletes the delivered document and then puts the object that was deleted, with one entity for two
      commands. */
  lemma HiddenIsPut(env: JsonChanges.Env, s: Session, e: Entity)
    requires Hidden(s, e)
    ensures Prepare(env, s, [e]).Ready? && PlanOf(env, s, [e]).puts == [1]
    ensures var b := Prepare(env, s, [e]).batch;
            && b.entities == [e] && |b.commands| == 2
            && b.commands[0].typ.DeleteType? && b.commands[0].id == s.ix.heap[0].id
            && b.commands[1].typ.PutType? && b.commands[1].id == s.ix.heap[1].id
  {
    HiddenDelete(s, e);
    NewIsPut(env, s.deferredMap, DeletePart(s, [e]).batch, 1, e);
  }

  /** A document is delivered, an object is stored under its id, which the uniqueness check lets through if it ends in a
      slash, as "users/" does, and the object is deleted. */
  lemma DeliverStoreDelete(s: Session, d: Incoming, e: Entity)
    requires s == NewSession(s.maxRequests, s.optimistic) && d.id != "" && !Ordinary(d.id) && d.document.Obj?
    ensures var s1 := s.(ix := Receive(s.ix, d));
            && Inv(s1.ix) && Store(s1, e, "", d.id, Auto, map[]).Done?
            && var s2 := Store(s1, e, "", d.id, Auto, map[]).state;
               && Inv(s2.ix) && Delete(s2, e).Done?
               && var s3 := Delete(s2, e).state;
                  && Hidden(s3, e) && s3.ix.heap[0].id == s3.ix.heap[1].id == d.id
                  && s3.deleted == {e} && s3.requests == 0 && s3.maxRequests == s.maxRequests
  {
    NewSessionInv(s.maxRequests, s.optimistic);
    ReceiveKeeps(s.ix, d);
    var s1 := s.(ix := Receive(s.ix, d));
    StoreUnderSlash(s1, e, d.id);
    var s2 := StoreNew(s1, e, d.id);
    assert s2.ix.tracked == [1];
    FindsOnly(s2.ix, e, 0);
    DeleteKeeps(s2, e);
  }

  /** Then the save puts the object just deleted, and panics on every faithful reply. */
  lemma DeletedIsPutAgain(env: JsonChanges.Env, s: Session, e: Entity, reply: seq<Reply>)
    requires Hidden(s, e) && s.requests < s.maxRequests
    requires Prepare(env, s, [e]).Ready? ==> Faithful(Prepare(env, s, [e]).batch, reply) && reply != []
    ensures Prepare(env, s, [e]).Ready? && PlanOf(env, s, [e]).puts == [1] && SaveChanges(env, s, [e], reply).Crashed?
  {
    HiddenIsPut(env, s, e);
    HiddenIsTracked(s, e);
    SaveSucceedsExactly(env, s, [e], reply);
  }
}
