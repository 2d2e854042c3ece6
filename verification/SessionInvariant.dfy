/** The session's index invariant, and every single operation keeping it. */
module SessionInvariant {
  import opened Wrappers
  import opened JsonDocs
  import opened SessionModel
  import JsonChanges
  import Text

  /** At most one tracked entry per entity. */
  ghost predicate DistinctEntities(ix: Index)
    requires WellFormed(ix)
  {
    forall i, j :: 0 <= i < j < |ix.tracked| ==> ix.heap[ix.tracked[i]].entity != ix.heap[ix.tracked[j]].entity
  }

  /** Each index entry sits under the lower-cased form of its own id. */
  ghost predicate KeyedById(ix: Index)
    requires WellFormed(ix)
  {
    forall k :: k in ix.byId ==> k != "" && k == Text.Lower(ix.heap[ix.byId[k]].id)
  }

  ghost predicate Indexed(ix: Index, r: Ref)
    requires r < |ix.heap|
  {
    Ordinary(ix.heap[r].id) ==> Text.Lower(ix.heap[r].id) in ix.byId && ix.byId[Text.Lower(ix.heap[r].id)] == r
  }

  /** Each tracked entry with an ordinary id is the one the index returns. */
  ghost predicate TrackedIndexed(ix: Index)
    requires WellFormed(ix)
  {
    forall i :: 0 <= i < |ix.tracked| ==> Indexed(ix, ix.tracked[i])
  }

  /** An index entry that has an object is tracked. */
  ghost predicate IndexedTracked(ix: Index)
    requires WellFormed(ix)
  {
    forall k :: k in ix.byId && ix.heap[ix.byId[k]].entity.Some? ==> ix.byId[k] in ix.tracked
  }

  /** Included documents have no object yet and are not indexed. */
  ghost predicate IncludedApart(ix: Index)
    requires WellFormed(ix)
  {
    && (forall k :: k in ix.included ==> ix.heap[ix.included[k]].id == k && ix.heap[ix.included[k]].entity.None?)
    && (forall k, k' :: k in ix.included && k' in ix.byId ==> ix.included[k] != ix.byId[k'])
  }

  /** Everything but the index being complete. */
  ghost predicate Sound(ix: Index) {
    WellFormed(ix) && DistinctEntities(ix) && KeyedById(ix) && IndexedTracked(ix) && IncludedApart(ix)
  }

  ghost predicate Inv(ix: Index) {
    Sound(ix) && TrackedIndexed(ix)
  }

  lemma NewSessionInv(maxRequests: nat, optimistic: bool)
    ensures Inv(NewSession(maxRequests, optimistic).ix)
  {
  }

  // ---- frames ---------------------------------------------------------------------

  /** Changing an entry without touching its object. */
  lemma SetInfoWellFormed(ix: Index, r: Ref, info: Info)
    requires WellFormed(ix) && r < |ix.heap| && info.entity == ix.heap[r].entity && IsDocument(info.document)
    ensures WellFormed(SetInfo(ix, r, info))
  {
  }

  lemma AddByIdWellFormed(ix: Index, r: Ref)
    requires WellFormed(ix) && r < |ix.heap|
    ensures WellFormed(AddById(ix, r))
  {
  }

  /** Changing an entry without touching its id or object. */
  lemma SetInfoSound(ix: Index, r: Ref, info: Info)
    requires Sound(ix) && r < |ix.heap| && info.id == ix.heap[r].id && info.entity == ix.heap[r].entity && IsDocument(info.document)
    ensures Sound(SetInfo(ix, r, info))
    ensures forall q :: 0 <= q < |ix.heap| && Indexed(ix, q) ==> Indexed(SetInfo(ix, r, info), q)
  {
    var t := SetInfo(ix, r, info);
    SetInfoWellFormed(ix, r, info);
    SetInfoIndexed(ix, r, info);
    SetInfoDistinct(ix, r, info);
    assert forall q :: 0 <= q < |ix.heap| ==> t.heap[q].id == ix.heap[q].id && t.heap[q].entity == ix.heap[q].entity;
  }

  lemma SetInfoDistinct(ix: Index, r: Ref, info: Info)
    requires WellFormed(ix) && DistinctEntities(ix) && r < |ix.heap| && info.entity == ix.heap[r].entity && WellFormed(SetInfo(ix, r, info))
    ensures DistinctEntities(SetInfo(ix, r, info))
  {
    assert forall q :: 0 <= q < |ix.heap| ==> SetInfo(ix, r, info).heap[q].entity == ix.heap[q].entity;
  }

  lemma SetInfoIndexed(ix: Index, r: Ref, info: Info)
    requires r < |ix.heap| && info.id == ix.heap[r].id
    ensures forall q :: 0 <= q < |ix.heap| && Indexed(ix, q) ==> Indexed(SetInfo(ix, r, info), q)
  {
  }

  lemma SetInfoInv(ix: Index, r: Ref, info: Info)
    requires Inv(ix) && r < |ix.heap| && info.id == ix.heap[r].id && info.entity == ix.heap[r].entity && IsDocument(info.document)
    ensures Inv(SetInfo(ix, r, info))
  {
    SetInfoSound(ix, r, info);
  }

  lemma AllocSound(ix: Index, info: Info)
    requires Sound(ix) && IsDocument(info.document)
    ensures Sound(Alloc(ix, info))
    ensures forall q :: 0 <= q < |ix.heap| ==> Alloc(ix, info).heap[q] == ix.heap[q]
    ensures forall q :: 0 <= q < |ix.heap| && Indexed(ix, q) ==> Indexed(Alloc(ix, info), q)
  {
    AllocWellFormed(ix, info);
    AllocIndexed(ix, info);
  }

  lemma AllocWellFormed(ix: Index, info: Info)
    requires WellFormed(ix) && IsDocument(info.document)
    ensures WellFormed(Alloc(ix, info))
  {
  }

  lemma AllocIndexed(ix: Index, info: Info)
    ensures forall q :: 0 <= q < |ix.heap| && Indexed(ix, q) ==> Indexed(Alloc(ix, info), q)
  {
  }

  lemma AllocInv(ix: Index, info: Info)
    requires Inv(ix) && IsDocument(info.document)
    ensures Inv(Alloc(ix, info))
  {
    AllocSound(ix, info);
  }

  lemma DropIncludedInv(ix: Index, id: string)
    requires Inv(ix)
    ensures Inv(DropIncluded(ix, id))
  {
  }

  /** Letter case does not decide whether an id is ordinary. */
  lemma OrdinaryIgnoresCase(a: string, b: string)
    requires Text.Lower(a) == Text.Lower(b)
    ensures Ordinary(a) <==> Ordinary(b)
  {
    assert |a| == |Text.Lower(a)| == |b|;
    if a != "" {
      var n := |a| - 1;
      assert Text.LowerChar(a[n]) == Text.Lower(a)[n] == Text.Lower(b)[n] == Text.LowerChar(b[n]);
    }
  }

  // ---- entries of an entity -------------------------------------------------------

  lemma FindsOnly(ix: Index, e: Entity, i: nat)
    requires WellFormed(ix) && DistinctEntities(ix) && i < |ix.tracked| && ix.heap[ix.tracked[i]].entity == Some(e)
    ensures Find(ix.heap, ix.tracked, e) == i
  {
  }

  lemma IndexedEntityIsTracked(ix: Index, k: string)
    requires Sound(ix) && k in ix.byId && ix.heap[ix.byId[k]].entity.Some?
    ensures var e := ix.heap[ix.byId[k]].entity.value;
            Tracks(ix, e) && ix.tracked[Find(ix.heap, ix.tracked, e)] == ix.byId[k]
  {
  }

  lemma UntrackMembers(ix: Index, e: Entity)
    requires WellFormed(ix) && DistinctEntities(ix) && Tracks(ix, e)
    ensures var i := Find(ix.heap, ix.tracked, e);
            forall r :: r in Untrack(ix, e).tracked <==> r in ix.tracked && r != ix.tracked[i]
  {
  }

  /** Leaving the list together with the index entry of the same id. */
  function Forget(ix: Index, e: Entity): Index
    requires InHeap(ix.heap, ix.tracked) && Tracks(ix, e)
  {
    RemoveById(Untrack(ix, e), ix.heap[ix.tracked[Find(ix.heap, ix.tracked, e)]].id)
  }

  lemma ForgetSound(ix: Index, e: Entity)
    requires Sound(ix) && Tracks(ix, e)
    ensures Sound(Forget(ix, e))
  {
    UntrackMembers(ix, e);
    ForgetWellFormed(ix, e);
    ForgetDistinct(ix, e);
  }

  lemma ForgetWellFormed(ix: Index, e: Entity)
    requires WellFormed(ix) && Tracks(ix, e)
    ensures WellFormed(Forget(ix, e))
  {
  }

  lemma ForgetDistinct(ix: Index, e: Entity)
    requires WellFormed(ix) && Tracks(ix, e) && DistinctEntities(ix) && WellFormed(Forget(ix, e))
    ensures DistinctEntities(Forget(ix, e))
  {
  }

  lemma ForgetInv(ix: Index, e: Entity)
    requires Inv(ix) && Tracks(ix, e)
    ensures Inv(Forget(ix, e))
  {
    ForgetSound(ix, e);
    UntrackMembers(ix, e);
    var r := ix.tracked[Find(ix.heap, ix.tracked, e)];
    var t := Forget(ix, e);
    assert Indexed(ix, r);
    forall j | 0 <= j < |t.tracked| ensures Indexed(t, t.tracked[j]) {
      var q := t.tracked[j];
      assert q in t.tracked;
      var i :| 0 <= i < |ix.tracked| && ix.tracked[i] == q;
      assert Indexed(ix, ix.tracked[i]);
      OtherStaysIndexed(ix, t, r, q);
    }
  }

  lemma OtherStaysIndexed(ix: Index, t: Index, r: Ref, q: Ref)
    requires r < |ix.heap| && q < |ix.heap| && q != r && Indexed(ix, r) && Indexed(ix, q)
    requires t.heap == ix.heap && t.byId == ix.byId - {Text.Lower(ix.heap[r].id)}
    ensures Indexed(t, q)
  {
    if Text.Lower(ix.heap[q].id) == Text.Lower(ix.heap[r].id) { OrdinaryIgnoresCase(ix.heap[q].id, ix.heap[r].id); }
  }

  /** Removing an index entry without an object keeps the invariant. */
  lemma UnindexInv(ix: Index, id: string)
    requires Inv(ix)
    requires Text.Lower(id) in ix.byId ==> ix.heap[ix.byId[Text.Lower(id)]].entity.None?
    ensures Inv(RemoveById(ix, id))
  {
  }

  // ---- joining --------------------------------------------------------------------

  /** Adding an index entry under an unused key. */
  lemma IndexNewSound(ix: Index, r: Ref)
    requires Sound(ix) && r < |ix.heap| && ix.heap[r].id != "" && Text.Lower(ix.heap[r].id) !in ix.byId
    requires ix.heap[r].entity.Some? ==> r in ix.tracked
    requires forall k :: k in ix.included ==> ix.included[k] != r
    ensures Sound(AddById(ix, r)) && Indexed(AddById(ix, r), r)
    ensures forall q :: 0 <= q < |ix.heap| && Indexed(ix, q) ==> Indexed(AddById(ix, r), q)
  {
    assert WellFormed(AddById(ix, r));
  }

  /** The list grows by an entry whose object is not in it. */
  function Listed(ix: Index, r: Ref): Index {
    ix.(tracked := ix.tracked + [r])
  }

  lemma ListedSound(ix: Index, r: Ref)
    requires Sound(ix) && r < |ix.heap| && ix.heap[r].entity.Some? && !Tracks(ix, ix.heap[r].entity.value)
    ensures Sound(Listed(ix, r)) && Track(ix, r) == Listed(ix, r)
  {
  }

  /** An entry with a new object joins the list, and the index if its id is free there. */
  lemma JoinInv(ix: Index, r: Ref)
    requires Sound(ix) && r < |ix.heap| && ix.heap[r].entity.Some? && !Tracks(ix, ix.heap[r].entity.value)
    requires forall i :: 0 <= i < |ix.tracked| ==> Indexed(ix, ix.tracked[i])
    requires forall k :: k in ix.included ==> ix.included[k] != r
    requires var k := Text.Lower(ix.heap[r].id); k in ix.byId ==> ix.byId[k] == r || !Ordinary(ix.heap[r].id)
    ensures ix.heap[r].id != "" ==> Inv(AddById(Track(ix, r), r))
    ensures AddById(Track(ix, r), r) == Track(AddById(ix, r), r)
    ensures ix.heap[r].id == "" ==> Inv(Track(ix, r))
  {
    ListedSound(ix, r);
    var t := Listed(ix, r);
    assert t.tracked[|ix.tracked|] == r;
    assert AddById(t, r) == Listed(AddById(ix, r), r);
    forall i | 0 <= i < |ix.tracked| ensures Indexed(t, ix.tracked[i]) {
      assert Indexed(ix, ix.tracked[i]);
    }
    if ix.heap[r].id != "" && Text.Lower(ix.heap[r].id) !in ix.byId { IndexNewSound(t, r); }
  }

  /** No entry has this object yet. */
  ghost predicate NewObject(ix: Index, e: Entity) {
    forall r :: 0 <= r < |ix.heap| ==> ix.heap[r].entity != Some(e)
  }

  lemma AllocFind(ix: Index, info: Info)
    requires WellFormed(ix) && info.entity.Some? && !Tracks(ix, info.entity.value)
    ensures InHeap(Alloc(ix, info).heap, ix.tracked) && !Tracks(Alloc(ix, info), info.entity.value)
  {
  }

  /** A new entry of an object that is not tracked. */
  lemma NewEntryInv(ix: Index, info: Info)
    requires Inv(ix) && info.entity.Some? && !Tracks(ix, info.entity.value) && IsDocument(info.document)
    requires Ordinary(info.id) ==> Text.Lower(info.id) !in ix.byId
    ensures InHeap(Alloc(ix, info).heap, ix.tracked)
    ensures var a := Alloc(ix, info); var r := |ix.heap|;
            && (info.id != "" ==> Inv(AddById(Track(a, r), r)))
            && AddById(Track(a, r), r) == Track(AddById(a, r), r)
            && (info.id == "" ==> Inv(Track(a, r)))
  {
    AllocSound(ix, info);
    AllocFind(ix, info);
    var a := Alloc(ix, info);
    assert a.heap[|ix.heap|] == info;
    JoinInv(a, |ix.heap|);
  }

  lemma AdoptFrame(ix: Index, r: Ref, e: Entity)
    requires WellFormed(ix) && r < |ix.heap| && ix.heap[r].entity.None?
    ensures WellFormed(Adopt(ix, r, e)) && forall i :: 0 <= i < |ix.tracked| ==> ix.tracked[i] != r
  {
  }

  lemma AdoptSound(ix: Index, r: Ref, e: Entity)
    requires Inv(ix) && r < |ix.heap| && ix.heap[r].entity.None? && NewObject(ix, e)
    requires forall k :: k in ix.included ==> ix.included[k] != r
    requires forall k :: k in ix.byId ==> ix.byId[k] != r
    ensures Sound(Adopt(ix, r, e)) && !Tracks(Adopt(ix, r, e), e)
    ensures forall i :: 0 <= i < |ix.tracked| ==> Indexed(Adopt(ix, r, e), ix.tracked[i])
  {
    var t := Adopt(ix, r, e);
    AdoptFrame(ix, r, e);
    AdoptIndexed(ix, r, e);
    assert forall q :: 0 <= q < |ix.heap| && q != r ==> t.heap[q] == ix.heap[q];
  }

  lemma AdoptIndexed(ix: Index, r: Ref, e: Entity)
    requires WellFormed(ix) && TrackedIndexed(ix) && r < |ix.heap| && ix.heap[r].entity.None?
    ensures forall i :: 0 <= i < |ix.tracked| ==> Indexed(Adopt(ix, r, e), ix.tracked[i])
  {
    forall i | 0 <= i < |ix.tracked| ensures Indexed(Adopt(ix, r, e), ix.tracked[i]) {
      assert Indexed(ix, ix.tracked[i]);
    }
  }

  /** An entry taken out of the index, given its object and put back, as one step. */
  lemma AdoptInv(ix: Index, r: Ref, e: Entity)
    requires Inv(ix) && r < |ix.heap| && ix.heap[r].id != "" && ix.heap[r].entity.None? && NewObject(ix, e)
    requires forall k :: k in ix.included ==> ix.included[k] != r
    requires var k := Text.Lower(ix.heap[r].id); k in ix.byId ==> ix.byId[k] == r
    ensures InHeap(Adopt(ix, r, e).heap, ix.tracked)
    ensures Inv(Track(AddById(Adopt(ix, r, e), r), r))
  {
    var id := ix.heap[r].id;
    UnindexInv(ix, id);
    AdoptSound(RemoveById(ix, id), r, e);
    JoinInv(Adopt(RemoveById(ix, id), r, e), r);
    AdoptDetour(ix, r, e);
  }

  lemma AdoptDetour(ix: Index, r: Ref, e: Entity)
    requires r < |ix.heap|
    requires var k := Text.Lower(ix.heap[r].id); k in ix.byId ==> ix.byId[k] == r
    ensures AddById(Adopt(RemoveById(ix, ix.heap[r].id), r, e), r) == AddById(Adopt(ix, r, e), r)
  {
  }

  /** Tracking an indexed entry that already has its object changes nothing. */
  lemma RetrackSame(ix: Index, k: string)
    requires Sound(ix) && k in ix.byId && ix.heap[ix.byId[k]].entity.Some?
    ensures Track(ix, ix.byId[k]) == ix
  {
  }

  // ---- operations -----------------------------------------------------------------

  ghost predicate Keeps<T(!new)>(o: Outcome<T>) {
    match o
    case Done(s, _) => Inv(s.ix)
    case Failed(s, _) => Inv(s.ix)
    case Crashed => true
  }

  /** The uniqueness check leaves only unused ids to an object that is not tracked. */
  lemma FreeId(ix: Index, e: Entity, id: string)
    requires Sound(ix) && !Tracks(ix, e)
    requires Text.Lower(id) in ix.byId ==> ix.heap[ix.byId[Text.Lower(id)]].entity == Some(e)
    ensures Text.Lower(id) !in ix.byId
  {
  }

  lemma RestoreKeeps(s: Session, e: Entity, changeVector: string, mode: ConcurrencyCheck)
    requires Inv(s.ix) && Tracks(s.ix, e)
    ensures var r := s.ix.tracked[Find(s.ix.heap, s.ix.tracked, e)]; Inv(SetInfo(s.ix, r, Restored(s.ix.heap[r], changeVector, mode)))
  {
    var r := s.ix.tracked[Find(s.ix.heap, s.ix.tracked, e)];
    SetInfoInv(s.ix, r, Restored(s.ix.heap[r], changeVector, mode));
  }

  lemma StoreKeeps(s: Session, e: Entity, changeVector: string, id: string, mode: ConcurrencyCheck, metadata: Fields)
    requires Inv(s.ix)
    ensures Keeps(Store(s, e, changeVector, id, mode, metadata))
  {
    if Tracks(s.ix, e) {
      RestoreKeeps(s, e, changeVector, mode);
    } else {
      StoreCases(s, e, changeVector, id, mode, metadata);
      if Store(s, e, changeVector, id, mode, metadata).Done? { StoreNewKeeps(s, e, changeVector, id, mode, metadata); }
    }
  }

  /** Storing an object that is not tracked is refused, or makes a new entry under an id the check lets through. */
  lemma StoreCases(s: Session, e: Entity, changeVector: string, id: string, mode: ConcurrencyCheck, metadata: Fields)
    requires WellFormed(s.ix) && !Tracks(s.ix, e)
    ensures var o := Store(s, e, changeVector, id, mode, metadata); var k := Text.Lower(id);
            || (o.Failed? && o.state.ix == s.ix)
            || (&& o == Done(StoreInUnitOfWork(ForgetMissing(SetIdentity(s, e, id), id), e, changeVector, id, mode, metadata), ())
                && (Ordinary(id) && k in s.ix.byId ==> s.ix.heap[s.ix.byId[k]].entity == Some(e)))
  {
  }

  lemma StoreNewKeeps(s: Session, e: Entity, changeVector: string, id: string, mode: ConcurrencyCheck, metadata: Fields)
    requires Inv(s.ix) && !Tracks(s.ix, e)
    requires var k := Text.Lower(id); Ordinary(id) && k in s.ix.byId ==> s.ix.heap[s.ix.byId[k]].entity == Some(e)
    ensures Inv(StoreInUnitOfWork(ForgetMissing(SetIdentity(s, e, id), id), e, changeVector, id, mode, metadata).ix)
  {
    if Ordinary(id) { FreeId(s.ix, e, id); }
    StoreInUnitOfWorkKeeps(ForgetMissing(SetIdentity(s, e, id), id), e, changeVector, id, mode, metadata);
  }

  lemma StoreInUnitOfWorkKeeps(s: Session, e: Entity, changeVector: string, id: string, mode: ConcurrencyCheck, metadata: Fields)
    requires Inv(s.ix) && !Tracks(s.ix, e) && (Ordinary(id) ==> Text.Lower(id) !in s.ix.byId)
    ensures Inv(StoreInUnitOfWork(s, e, changeVector, id, mode, metadata).ix)
  {
    NewEntryInv(s.ix, StoredInfo(e, changeVector, id, mode, metadata));
  }

  /** A decoded object is a new one. */
  ghost predicate Fresh(ix: Index, target: Target) {
    target.decoded.Some? ==> NewObject(ix, target.decoded.value.e)
  }

  /** An entry the index returns, or can be made to return. */
  lemma TrackEntryKeeps(s: Session, ix: Index, r: Ref, target: Target, late: bool)
    requires Inv(s.ix) && Inv(ix) && Fresh(ix, target) && r < |ix.heap| && ix.heap[r].id != ""
    requires Text.Lower(ix.heap[r].id) in ix.byId && ix.byId[Text.Lower(ix.heap[r].id)] == r
    ensures Keeps(TrackEntry(s, ix, r, target, late))
  {
    if ix.heap[r].entity.Some? {
      RetrackSame(ix, Text.Lower(ix.heap[r].id));
    } else if target.decoded.Some? {
      var x := target.decoded.value.e;
      AdoptInv(ix, r, x);
      assert AddById(Adopt(ix, r, x), r) == Adopt(ix, r, x);
    }
  }

  /** An included document joins the index and the list. */
  lemma TrackIncludedKeeps(s: Session, id: string, target: Target)
    requires Inv(s.ix) && Fresh(s.ix, target) && id != "" && id in s.ix.included && Text.Lower(id) !in s.ix.byId
    ensures var r := s.ix.included[id]; Keeps(TrackEntry(s, AddById(DropIncluded(s.ix, id), r), r, target, true))
  {
    var r, d := s.ix.included[id], DropIncluded(s.ix, id);
    DropIncludedInv(s.ix, id);
    IndexNewSound(d, r);
    TrackEntryKeeps(s, AddById(d, r), r, target, true);
  }

  lemma TrackIndexedKeeps(s: Session, id: string, target: Target)
    requires Inv(s.ix) && Fresh(s.ix, target) && Text.Lower(id) in s.ix.byId
    ensures Keeps(TrackEntry(s, DropIncluded(s.ix, id), s.ix.byId[Text.Lower(id)], target, false))
  {
    DropIncludedInv(s.ix, id);
    TrackEntryKeeps(s, DropIncluded(s.ix, id), s.ix.byId[Text.Lower(id)], target, false);
  }

  lemma TrackEntityKeeps(s: Session, id: string, document: Json, metadata: Fields, changeVector: Option<string>, target: Target)
    requires Inv(s.ix) && Fresh(s.ix, target) && IsDocument(document)
    ensures Keeps(TrackEntity(s, id, document, metadata, changeVector, target))
  {
    if id == "" {
    } else if Text.Lower(id) in s.ix.byId {
      TrackIndexedKeeps(s, id, target);
    } else if id in s.ix.included {
      TrackIncludedKeeps(s, id, target);
    } else if target.decoded.Some? && changeVector.Some? {
      NewEntryInv(s.ix, Info(id, changeVector, Auto, false, metadata, document, Some(target.decoded.value.e), false, ""));
    }
  }

  lemma GetDocumentKeeps(s: Session, id: string, target: Target)
    requires Inv(s.ix) && Fresh(s.ix, target)
    ensures Keeps(GetDocument(s, id, target))
  {
    var k := Text.Lower(id);
    if k in s.ix.byId || id in s.ix.included {
      var info := s.ix.heap[if k in s.ix.byId then s.ix.byId[k] else s.ix.included[id]];
      TrackEntityKeeps(s, info.id, info.document, info.metadata, info.changeVector, target);
    }
  }

  lemma IncludeKeeps(ix: Index, d: Incoming)
    requires Inv(ix) && d.document.Obj?
    ensures Inv(Include(ix, d))
  {
    AllocInv(ix, IncomingInfo(d));
    assert Alloc(ix, IncomingInfo(d)).heap[|ix.heap|] == IncomingInfo(d);
    IncludeInv(Alloc(ix, IncomingInfo(d)), d.id, |ix.heap|);
  }

  /** Including an entry without an object that is not indexed. */
  lemma IncludeInv(ix: Index, id: string, r: Ref)
    requires Inv(ix) && r < |ix.heap| && ix.heap[r].id == id && ix.heap[r].entity.None?
    requires forall k :: k in ix.byId ==> ix.byId[k] != r
    ensures Inv(ix.(included := ix.included[id := r]))
  {
    var t := ix.(included := ix.included[id := r]);
    assert WellFormed(t);
    forall i | 0 <= i < |t.tracked| ensures Indexed(t, t.tracked[i]) {
      assert Indexed(ix, ix.tracked[i]);
    }
  }

  lemma ReceiveKeeps(ix: Index, d: Incoming)
    requires Inv(ix) && d.document.Obj? && d.id != ""
    ensures Inv(Receive(ix, d))
  {
    AllocInv(ix, IncomingInfo(d));
    var a := Alloc(ix, IncomingInfo(d));
    assert a.heap[|ix.heap|] == IncomingInfo(d);
    if Text.Lower(d.id) !in ix.byId {
      IndexNewSound(a, |ix.heap|);
    }
  }

  lemma DeleteKeeps(s: Session, e: Entity)
    requires Inv(s.ix)
    ensures Keeps(Delete(s, e))
  {
  }

  lemma DeleteByIDKeeps(s: Session, id: string, expected: string, changed: JsonChanges.Outcome)
    requires Inv(s.ix)
    ensures Keeps(DeleteByID(s, id, expected, changed))
  {
    DeleteByIDCases(s, id, expected, changed);
    var k := Text.Lower(id);
    if k in s.ix.byId {
      if s.ix.heap[s.ix.byId[k]].entity.None? { UnindexInv(s.ix, id); } else { ForgetIndexed(s.ix, id); }
    }
  }

  /** The index after a deletion by id, if it does not panic. */
  lemma DeleteByIDCases(s: Session, id: string, expected: string, changed: JsonChanges.Outcome)
    requires WellFormed(s.ix)
    ensures var o := DeleteByID(s, id, expected, changed); var k := Text.Lower(id);
            || o.Crashed? || (o.Failed? && o.state == s)
            || (o.Done? && if k !in s.ix.byId then o.state.ix == s.ix
                           else if s.ix.heap[s.ix.byId[k]].entity.None? then o.state.ix == RemoveById(s.ix, id)
                           else o.state.ix == RemoveById(Untrack(s.ix, s.ix.heap[s.ix.byId[k]].entity.value), id))
  {
  }

  /** The object an id leads to leaves the list together with the index entry. */
  lemma ForgetIndexed(ix: Index, id: string)
    requires Inv(ix) && Text.Lower(id) in ix.byId && ix.heap[ix.byId[Text.Lower(id)]].entity.Some?
    ensures Inv(RemoveById(Untrack(ix, ix.heap[ix.byId[Text.Lower(id)]].entity.value), id))
  {
    var e := ix.heap[ix.byId[Text.Lower(id)]].entity.value;
    IndexedEntityIsTracked(ix, Text.Lower(id));
    ForgetInv(ix, e);
    assert RemoveById(Untrack(ix, e), id) == Forget(ix, e);
  }

  lemma EvictKeeps(s: Session, e: Entity)
    requires Inv(s.ix)
    ensures Inv(Evict(s, e).ix)
  {
    if Tracks(s.ix, e) { ForgetInv(s.ix, e); }
  }
}
