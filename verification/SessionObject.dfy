/** The session as the mutable object it is: every method is tied to the value model of the same operation. */
module SessionObject {
  import opened Wrappers
  import opened JsonDocs
  import opened SessionModel
  import opened SessionInvariant
  import opened SessionSave
  import SessionReply
  import SessionRuns
  import JsonChanges
  import JsonOperation
  import StringArray
  import Text

  /** How a call ends; `GoPanic` is a panic. */
  datatype Status = Ok | Err(error: Error) | GoPanic

  ghost predicate Agrees<T>(o: Outcome<T>, status: Status, view: Session) {
    match o
    case Done(t, _) => status == Ok && view == t
    case Failed(t, error) => status == Err(error) && view == t
    case Crashed => status == GoPanic
  }

  ghost predicate PreparedAs(p: Prepared, status: Status, view: Session, commands: seq<Command>, entities: seq<Entity>) {
    match p
    case Ready(b) => status == Ok && Batch(view, commands, entities) == b
    case Rejected(b, error) => status == Err(error) && Batch(view, commands, entities) == b
    case Panic => status == GoPanic
  }

  /** One turn of the delete loop went well. */
  ghost predicate Turned(pending: map<Key, Command>, b: Batch, e: Entity, b': Batch) {
    WellFormed(b.s.ix) && WellFormed(b'.s.ix) && DeleteStep(pending, b, e) == Ready(b')
  }

  /** The batches after each turn so far. */
  ghost predicate Turns(pending: map<Key, Command>, order: seq<Entity>, trace: seq<Batch>) {
    Linked(DeleteLink(pending), order, trace)
  }

  ghost function DeleteLink(pending: map<Key, Command>): (Batch, Entity, Batch) -> bool {
    (b: Batch, e: Entity, b': Batch) => Turned(pending, b, e, b')
  }

  lemma TurnsNext(pending: map<Key, Command>, order: seq<Entity>, trace: seq<Batch>, b: Batch)
    requires Turns(pending, order, trace) && |trace| <= |order| && Turned(pending, trace[|trace| - 1], order[|trace| - 1], b)
    ensures Turns(pending, order, trace + [b])
  {
    LinkedNext(DeleteLink(pending), order, trace, b);
  }

  lemma TurnsRest(pending: map<Key, Command>, order: seq<Entity>, trace: seq<Batch>, n: nat)
    requires Turns(pending, order, trace) && n < |trace| && WellFormed(trace[0].s.ix)
    ensures WellFormed(trace[n].s.ix) && DeleteAll(pending, trace[0], order) == DeleteAll(pending, trace[n], order[n..])
  {
    var f := (i: nat) => if i <= n && WellFormed(trace[i].s.ix) then DeleteAll(pending, trace[i], order[i..]) else Panic;
    forall i | 0 <= i < n ensures f(i) == f(i + 1) {
      assert DeleteLink(pending)(trace[i], order[i], trace[i + 1]);
      TurnRest(pending, trace[i], order, i, trace[i + 1]);
    }
    Chain(f, n);
    assert order[0..] == order;
    if n > 0 { assert DeleteLink(pending)(trace[n - 1], order[n - 1], trace[n - 1 + 1]); }
  }

  lemma TurnRest(pending: map<Key, Command>, b: Batch, order: seq<Entity>, i: nat, b': Batch)
    requires i < |order| && Turned(pending, b, order[i], b')
    ensures DeleteAll(pending, b, order[i..]) == DeleteAll(pending, b', order[i + 1..])
  {
    assert order[i..][0] == order[i] && order[i..][1..] == order[i + 1..];
  }

  /** All turns went well. */
  lemma TurnsEnd(pending: map<Key, Command>, order: seq<Entity>, trace: seq<Batch>)
    requires Turns(pending, order, trace) && |trace| == |order| + 1 && WellFormed(trace[0].s.ix)
    ensures DeleteAll(pending, trace[0], order) == Ready(trace[|order|])
  {
    TurnsRest(pending, order, trace, |order|);
  }

  /** The next turn stops the loop. */
  lemma TurnsStop(pending: map<Key, Command>, order: seq<Entity>, trace: seq<Batch>)
    requires Turns(pending, order, trace) && |trace| <= |order| && WellFormed(trace[0].s.ix) && WellFormed(trace[|trace| - 1].s.ix)
    requires !DeleteStep(pending, trace[|trace| - 1], order[|trace| - 1]).Ready?
    ensures DeleteAll(pending, trace[0], order) == DeleteStep(pending, trace[|trace| - 1], order[|trace| - 1])
  {
    var n := |trace| - 1;
    TurnsRest(pending, order, trace, n);
    assert order[n..][0] == order[n];
  }

  /** What a load finds in the session without asking the server. */
  ghost predicate Loaded(s: Session, id: string)
    requires WellFormed(s.ix)
  {
    var k := Text.Lower(id);
    || (k in s.ix.byId && s.ix.heap[s.ix.byId[k]].document.Obj?)
    || StringArray.ContainsNoCase(s.missing, id)
    || id in s.ix.included
  }

  /** The ids a load finds in the session. */
  ghost function KnownIds(s: Session): iset<string>
    requires WellFormed(s.ix)
  {
    iset id | Loaded(s, id)
  }

  /** A spelling of the id is known to the session, or asked for. */
  ghost predicate Covered(known: iset<string>, ids: seq<string>, ask: seq<string>, k: string) {
    exists first :: first in ids && Text.Lower(first) == k && (first in known || first in ask)
  }

  /** What `byIds` has collected: `seen` are the lower-cased ids it has looked at. */
  ghost predicate Asked(known: iset<string>, ids: seq<string>, ask: seq<string>, seen: set<string>) {
    && (forall j, l :: 0 <= j < l < |ask| ==> !Text.EqualFold(ask[j], ask[l]))
    && (forall id :: id in ask ==> Text.Lower(id) in seen && id in ids && id != "" && id !in known)
    && (forall k :: k in seen ==> Covered(known, ids, ask, k))
  }

  lemma AskedNext(known: iset<string>, ids: seq<string>, ask: seq<string>, seen: set<string>, id: string)
    requires Asked(known, ids, ask, seen) && id in ids && id != "" && Text.Lower(id) !in seen
    ensures Asked(known, ids, if id in known then ask else ask + [id], seen + {Text.Lower(id)})
  {
    var ask' := if id in known then ask else ask + [id];
    forall k | k in seen ensures Covered(known, ids, ask', k) { CoveredStays(known, ids, ask, ask', k); }
    assert Covered(known, ids, ask', Text.Lower(id)) by { assert id in ids && (id in known || id in ask'); }
  }

  lemma CoveredStays(known: iset<string>, ids: seq<string>, ask: seq<string>, ask': seq<string>, k: string)
    requires Covered(known, ids, ask, k) && ask <= ask'
    ensures Covered(known, ids, ask', k)
  {
    var first :| first in ids && Text.Lower(first) == k && (first in known || first in ask);
    assert first in ask ==> first in ask';
  }

  ghost predicate AllSeen(ids: seq<string>, seen: set<string>) {
    forall id :: id in ids && id != "" ==> Text.Lower(id) in seen
  }

  lemma SeenNext(ids: seq<string>, i: nat, seen: set<string>)
    requires i < |ids| && AllSeen(ids[..i], seen) && (ids[i] != "" ==> Text.Lower(ids[i]) in seen)
    ensures AllSeen(ids[..i + 1], seen)
  {
    assert ids[..i + 1] == ids[..i] + [ids[i]];
  }

  /** The entries after a reply of documents, some of them nil. */
  function ReceiveAll(ix: Index, docs: seq<Option<Incoming>>): Index {
    if docs == [] then ix
    else
      var before := ReceiveAll(ix, docs[..|docs| - 1]);
      if docs[|docs| - 1].None? then before else Receive(before, docs[|docs| - 1].value)
  }

  /** The entries after a reply of includes, some of them nil or in conflict. */
  function IncludeAll(ix: Index, docs: seq<Option<Incoming>>): Index {
    if docs == [] then ix
    else
      var before := IncludeAll(ix, docs[..|docs| - 1]);
      if docs[|docs| - 1].None? then before else Include(before, docs[|docs| - 1].value)
  }

  lemma ReceiveNext(ix: Index, docs: seq<Option<Incoming>>, i: nat)
    requires i < |docs|
    ensures ReceiveAll(ix, docs[..i + 1]) == (var before := ReceiveAll(ix, docs[..i]); if docs[i].None? then before else Receive(before, docs[i].value))
  {
    assert docs[..i + 1][..i] == docs[..i];
  }

  lemma IncludeNext(ix: Index, docs: seq<Option<Incoming>>, i: nat)
    requires i < |docs|
    ensures IncludeAll(ix, docs[..i + 1]) == (var before := IncludeAll(ix, docs[..i]); if docs[i].None? then before else Include(before, docs[i].value))
  {
    assert docs[..i + 1][..i] == docs[..i];
  }

  /** The entry of a delivered document: its contents, no object yet, changes not ignored. */
  ghost predicate Delivered(ix: Index, r: Ref, d: Incoming) {
    r < |ix.heap| && ix.heap[r] == Info(d.id, Some(d.changeVector), Auto, false, d.metadata, d.document, None, false, "")
  }

  /** Each delivered document whose id is free, and not taken by one before it, is indexed. */
  lemma {:induction false} ReceiveAllIndexes(ix: Index, docs: seq<Option<Incoming>>, i: nat)
    requires i < |docs| && docs[i].Some? && Text.Lower(docs[i].value.id) !in ix.byId
    requires forall j :: 0 <= j < i && docs[j].Some? ==> Text.Lower(docs[j].value.id) != Text.Lower(docs[i].value.id)
    ensures var t := ReceiveAll(ix, docs); var k := Text.Lower(docs[i].value.id); k in t.byId && Delivered(t, t.byId[k], docs[i].value)
    decreases |docs|
  {
    var n := |docs| - 1;
    if i < n {
      ReceiveAllIndexes(ix, docs[..n], i);
    } else {
      ReceiveAllLeaves(ix, docs[..n], Text.Lower(docs[i].value.id));
    }
  }

  lemma {:induction false} ReceiveAllLeaves(ix: Index, docs: seq<Option<Incoming>>, k: string)
    requires k !in ix.byId && forall j :: 0 <= j < |docs| && docs[j].Some? ==> Text.Lower(docs[j].value.id) != k
    ensures k !in ReceiveAll(ix, docs).byId
    decreases |docs|
  {
    if docs != [] { ReceiveAllLeaves(ix, docs[..|docs| - 1], k); }
  }

  /** Each included document is found under its id, unless a later one has the same id. */
  lemma {:induction false} IncludeAllKeepsEach(ix: Index, docs: seq<Option<Incoming>>, i: nat)
    requires i < |docs| && docs[i].Some? && forall j :: i < j < |docs| && docs[j].Some? ==> docs[j].value.id != docs[i].value.id
    ensures var t := IncludeAll(ix, docs); var id := docs[i].value.id; id in t.included && Delivered(t, t.included[id], docs[i].value)
    decreases |docs|
  {
    var n := |docs| - 1;
    if i < n { IncludeAllKeepsEach(ix, docs[..n], i); }
  }

  /** What the server delivers are documents with ids. */
  ghost predicate AllDocuments(docs: seq<Option<Incoming>>) {
    forall i :: 0 <= i < |docs| && docs[i].Some? ==> docs[i].value.id != "" && docs[i].value.document.Obj?
  }

  lemma {:induction false} IncludeAllKeeps(ix: Index, docs: seq<Option<Incoming>>)
    requires Inv(ix) && AllDocuments(docs)
    ensures Inv(IncludeAll(ix, docs))
  {
    if docs != [] {
      var n := |docs| - 1;
      IncludeAllKeeps(ix, docs[..n]);
      if docs[n].Some? { IncludeKeeps(IncludeAll(ix, docs[..n]), docs[n].value); }
    }
  }

  lemma {:induction false} ReceiveAllKeeps(ix: Index, docs: seq<Option<Incoming>>)
    requires Inv(ix) && AllDocuments(docs)
    ensures Inv(ReceiveAll(ix, docs))
  {
    if docs != [] {
      var n := |docs| - 1;
      ReceiveAllKeeps(ix, docs[..n]);
      if docs[n].Some? { ReceiveKeeps(ReceiveAll(ix, docs[..n]), docs[n].value); }
    }
  }

  lemma LoadResultKeeps(ix: Index, includes: seq<Option<Incoming>>, results: seq<Option<Incoming>>)
    requires Inv(ix) && AllDocuments(includes) && AllDocuments(results)
    ensures Inv(ReceiveAll(IncludeAll(ix, includes), results))
  {
    IncludeAllKeeps(ix, includes);
    ReceiveAllKeeps(IncludeAll(ix, includes), results);
  }

  /** What the put loop needs of the entries, and keeps. */
  ghost predicate Documents(ix: Index) {
    InHeap(ix.heap, ix.tracked) && forall r :: 0 <= r < |ix.heap| ==> IsDocument(ix.heap[r].document)
  }

  /** One turn of the put loop went well. */
  ghost predicate PutTurned(env: JsonChanges.Env, pending: map<Key, Command>, b: Batch, r: Ref, b': Batch) {
    PutStep(pending, b, r, Verdict(env, b.s, At(b.s.ix, r))) == Ready(b')
  }

  /** The batches after each turn so far. */
  ghost predicate PutTurns(env: JsonChanges.Env, pending: map<Key, Command>, refs: seq<Ref>, trace: seq<Batch>) {
    Linked(PutLink(env, pending), refs, trace)
  }

  ghost function PutLink(env: JsonChanges.Env, pending: map<Key, Command>): (Batch, Ref, Batch) -> bool {
    (b: Batch, r: Ref, b': Batch) => PutTurned(env, pending, b, r, b')
  }

  lemma PutTurnsNext(env: JsonChanges.Env, pending: map<Key, Command>, refs: seq<Ref>, trace: seq<Batch>, b: Batch)
    requires PutTurns(env, pending, refs, trace) && |trace| <= |refs| && PutTurned(env, pending, trace[|trace| - 1], refs[|trace| - 1], b)
    ensures PutTurns(env, pending, refs, trace + [b])
  {
    LinkedNext(PutLink(env, pending), refs, trace, b);
  }

  lemma PutTurnsRest(env: JsonChanges.Env, pending: map<Key, Command>, refs: seq<Ref>, trace: seq<Batch>, n: nat)
    requires PutTurns(env, pending, refs, trace) && n < |trace|
    ensures PutAll(env, pending, trace[0], refs) == PutAll(env, pending, trace[n], refs[n..])
  {
    var f := (i: nat) => if i <= n then PutAll(env, pending, trace[i], refs[i..]) else Panic;
    forall i | 0 <= i < n ensures f(i) == f(i + 1) {
      assert PutLink(env, pending)(trace[i], refs[i], trace[i + 1]);
      PutTurnRest(env, pending, trace[i], refs, i, trace[i + 1]);
    }
    Chain(f, n);
    assert refs[0..] == refs;
  }

  lemma PutTurnRest(env: JsonChanges.Env, pending: map<Key, Command>, b: Batch, refs: seq<Ref>, i: nat, b': Batch)
    requires i < |refs| && PutTurned(env, pending, b, refs[i], b')
    ensures PutAll(env, pending, b, refs[i..]) == PutAll(env, pending, b', refs[i + 1..])
  {
    assert refs[i..][0] == refs[i] && refs[i..][1..] == refs[i + 1..];
  }

  /** All turns went well, or the next one stops the loop. */
  lemma PutTurnsEnd(env: JsonChanges.Env, pending: map<Key, Command>, refs: seq<Ref>, trace: seq<Batch>)
    requires PutTurns(env, pending, refs, trace)
    ensures var n := |trace| - 1; var all := PutAll(env, pending, trace[0], refs);
            if n == |refs| then all == Ready(trace[n])
            else var p := PutStep(pending, trace[n], refs[n], Verdict(env, trace[n].s, At(trace[n].s.ix, refs[n]))); !p.Ready? ==> all == p
  {
    var n := |trace| - 1;
    PutTurnsRest(env, pending, refs, trace, n);
    if n < |refs| { assert refs[n..][0] == refs[n]; }
  }

  lemma PutTurnedDocuments(env: JsonChanges.Env, pending: map<Key, Command>, b: Batch, r: Ref, b': Batch)
    requires PutTurned(env, pending, b, r, b') && Documents(b.s.ix)
    ensures Documents(b'.s.ix)
  {
    PutIndexDocuments(b.s, r);
  }

  lemma PutIndexDocuments(s: Session, r: Ref)
    requires Documents(s.ix)
    ensures Documents(PutIndex(s, r))
  {
  }

  lemma {:induction false} PutAllWellFormed(env: JsonChanges.Env, pending: map<Key, Command>, b: Batch, refs: seq<Ref>)
    requires WellFormed(b.s.ix) && PutAll(env, pending, b, refs).Ready?
    ensures WellFormed(PutAll(env, pending, b, refs).batch.s.ix)
    decreases |refs|
  {
    if refs != [] {
      PutIndexWellFormed(b.s, refs[0]);
      PutAllWellFormed(env, pending, PutStep(pending, b, refs[0], Verdict(env, b.s, At(b.s.ix, refs[0]))).batch, refs[1..]);
    }
  }

  lemma PutIndexWellFormed(s: Session, r: Ref)
    requires WellFormed(s.ix)
    ensures WellFormed(PutIndex(s, r))
  {
  }

  lemma PrepareWellFormed(env: JsonChanges.Env, s: Session, order: seq<Entity>)
    requires WellFormed(s.ix)
    ensures Prepare(env, s, order).Ready? ==> WellFormed(Prepare(env, s, order).batch.s.ix)
  {
    var p := DeleteAll(s.deferredMap, Batch(s.(deferred := [], deferredMap := map[]), [], []), order);
    if Prepare(env, s, order).Ready? { PutAllWellFormed(env, s.deferredMap, p.batch, p.batch.s.ix.tracked); }
  }

  function PutEntry(info: Info, document: Json): Info {
    info.(newDocument := false, document := document)
  }

  lemma AdoptFirst(ix: Index, id: string, r: Ref, e: Entity)
    requires r < |ix.heap|
    ensures DropIncluded(Adopt(ix, r, e), id) == Adopt(DropIncluded(ix, id), r, e)
    ensures AddById(DropIncluded(Adopt(ix, r, e), id), r) == Adopt(AddById(DropIncluded(ix, id), r), r, e)
  {
  }

  class InMemorySession {
    var infos: seq<Info>
    var documentsByEntity: seq<Ref>
    var documentsByID: map<string, Ref>
    var includedDocumentsByID: map<string, Ref>
    var objects: map<Entity, Fields>
    var deletedEntities: set<Entity>
    var knownMissingIds: seq<string>
    var deferredCommands: seq<Command>
    var deferredCommandsMap: map<Key, Command>
    var numberOfRequests: nat
    const maxRequests: nat
    const optimistic: bool

    ghost function Ix(): Index
      reads this
    {
      Index(infos, documentsByEntity, documentsByID, includedDocumentsByID)
    }

    ghost function View(): Session
      reads this
    {
      Session(Ix(), objects, deletedEntities, knownMissingIds, deferredCommands, deferredCommandsMap,
              numberOfRequests, maxRequests, optimistic)
    }

    /** The index invariant. Every public operation keeps it; none demands it, because a save that fails leaves the
        entries of its PUTs out of the index, and the session can still be used. */
    ghost predicate Valid()
      reads this
    {
      Inv(Ix())
    }

    constructor (maxRequests: nat, optimistic: bool)
      ensures Valid() && View() == NewSession(maxRequests, optimistic)
    {
      infos, documentsByEntity, documentsByID, includedDocumentsByID := [], [], map[], map[];
      objects, deletedEntities, knownMissingIds := map[], {}, [];
      deferredCommands, deferredCommandsMap, numberOfRequests := [], map[], 0;
      this.maxRequests := maxRequests;
      this.optimistic := optimistic;
    }

    // ---- the list by entity -------------------------------------------------------

    /** `getDocumentInfoByEntity`: the position of the entry. */
    method Lookup(e: Entity) returns (i: nat)
      requires InHeap(infos, documentsByEntity)
      ensures i == Find(infos, documentsByEntity, e)
    {
      i := 0;
      while i < |documentsByEntity|
        invariant 0 <= i <= |documentsByEntity|
        invariant forall j :: 0 <= j < i ==> infos[documentsByEntity[j]].entity != Some(e)
      {
        if infos[documentsByEntity[i]].entity == Some(e) { return; }
        i := i + 1;
      }
    }

    /** `setDocumentInfo`. */
    method SetDocumentInfo(r: Ref)
      requires InHeap(infos, documentsByEntity) && r < |infos| && infos[r].entity.Some?
      modifies this`documentsByEntity
      ensures Ix() == Track(old(Ix()), r)
    {
      var i := Lookup(infos[r].entity.value);
      if i < |documentsByEntity| {
        documentsByEntity := documentsByEntity[i := r];
      } else {
        documentsByEntity := documentsByEntity + [r];
      }
    }

    /** `deleteDocumentInfoByEntity`. */
    method DeleteDocumentInfo(e: Entity)
      requires InHeap(infos, documentsByEntity)
      modifies this`documentsByEntity
      ensures Ix() == Untrack(old(Ix()), e)
    {
      var i := Lookup(e);
      if i < |documentsByEntity| {
        documentsByEntity := documentsByEntity[..i] + documentsByEntity[i + 1..];
      }
    }

    // ---- the index by id ----------------------------------------------------------

    /** `documentsByID.add`. */
    method IndexAdd(r: Ref)
      requires r < |infos|
      modifies this`documentsByID
      ensures Ix() == AddById(old(Ix()), r)
    {
      var k := Text.Lower(infos[r].id);
      if k !in documentsByID { documentsByID := documentsByID[k := r]; }
    }

    /** `documentsByID.remove`. */
    method IndexRemove(id: string)
      modifies this`documentsByID
      ensures Ix() == RemoveById(old(Ix()), id)
    {
      documentsByID := documentsByID - {Text.Lower(id)};
    }

    method TrySetIdentity(e: Entity, id: string)
      modifies this`objects
      ensures View() == SetIdentity(old(View()), e, id)
    {
      var body := if e in objects then objects[e] else map[];
      objects := objects[e := body[IDENTITY_PROPERTY := Str(id)]];
    }

    /** `Defer`: each command joins the list and takes its keys in the map. */
    method DeferCommand(c: Command)
      modifies this`deferredCommands, this`deferredCommandsMap
      ensures View() == Defer(old(View()), c)
    {
      deferredCommands := deferredCommands + [c];
      deferredCommandsMap := DeferInternal(deferredCommandsMap, Key(c.id, c.typ, c.name), c);
    }

    // ---- operations ---------------------------------------------------------------

    /** `storeInternal`, with the id given or generated. */
    method StoreInternal(e: Entity, changeVector: string, id: string, mode: ConcurrencyCheck, metadata: Fields) returns (status: Status)
      requires WellFormed(Ix())
      modifies this
      ensures Agrees(Store(old(View()), e, changeVector, id, mode, metadata), status, View())
      ensures old(Valid()) ==> Valid()
    {
      if Valid() { StoreKeeps(View(), e, changeVector, id, mode, metadata); }
      var i := Lookup(e);
      if i < |documentsByEntity| {
        Restore(documentsByEntity[i], changeVector, mode);
        return Ok;
      }
      status := StoreUntracked(e, changeVector, id, mode, metadata);
    }

    /** The object is not tracked yet. */
    method StoreUntracked(e: Entity, changeVector: string, id: string, mode: ConcurrencyCheck, metadata: Fields) returns (status: Status)
      requires WellFormed(Ix()) && !Tracks(Ix(), e)
      modifies this
      ensures Agrees(Store(old(View()), e, changeVector, id, mode, metadata), status, View())
    {
      TrySetIdentity(e, id);
      if Key(id, AnyCommand, "") in deferredCommandsMap { return Err(DeferredRegistered); }
      if e in deletedEntities { return Err(AlreadyDeleted); }
      var k := Text.Lower(id);
      if Ordinary(id) && k in documentsByID && infos[documentsByID[k]].entity != Some(e) { return Err(NonUnique); }
      ForgetMissingId(id);
      StoreEntityInUnitOfWork(e, changeVector, id, mode, metadata);
      status := Ok;
    }

    /** The object is tracked already. */
    method Restore(r: Ref, changeVector: string, mode: ConcurrencyCheck)
      requires r < |infos|
      modifies this`infos
      ensures Ix() == SetInfo(old(Ix()), r, Restored(old(infos)[r], changeVector, mode))
    {
      if changeVector != "" { infos := infos[r := infos[r].(changeVector := Some(changeVector))]; }
      infos := infos[r := infos[r].(mode := mode)];
    }

    method ForgetMissingId(id: string)
      modifies this`knownMissingIds
      ensures View() == ForgetMissing(old(View()), id)
    {
      if id != "" { knownMissingIds := StringArray.RemoveNoCase(knownMissingIds, id); }
    }

    /** A new entry joins the list, and the index if it has an id. */
    method AddInfo(info: Info)
      requires InHeap(infos, documentsByEntity) && info.entity.Some?
      modifies this`infos, this`documentsByEntity, this`documentsByID
      ensures InHeap(old(infos) + [info], old(documentsByEntity))
      ensures Ix() == (var ix := Track(Alloc(old(Ix()), info), |old(infos)|); if info.id != "" then AddById(ix, |old(infos)|) else ix)
    {
      var r := |infos|;
      infos := infos + [info];
      SetDocumentInfo(r);
      if info.id != "" { IndexAdd(r); }
    }

    /** `storeEntityInUnitOfWork`. */
    method StoreEntityInUnitOfWork(e: Entity, changeVector: string, id: string, mode: ConcurrencyCheck, metadata: Fields)
      requires InHeap(infos, documentsByEntity)
      modifies this
      ensures View() == StoreInUnitOfWork(old(View()), e, changeVector, id, mode, metadata)
    {
      deletedEntities := deletedEntities - {e};
      ForgetMissingId(id);
      AddInfo(StoredInfo(e, changeVector, id, mode, metadata));
    }

    /** `TrackEntity`. */
    method TrackLoaded(id: string, document: Json, metadata: Fields, changeVector: Option<string>, target: Target)
      returns (status: Status, e: Entity)
      requires WellFormed(Ix())
      modifies this
      ensures Agrees(TrackEntity(old(View()), id, document, metadata, changeVector, target), status, View())
      ensures status == Ok ==> e == TrackEntity(old(View()), id, document, metadata, changeVector, target).value
      ensures old(Valid() && Fresh(Ix(), target)) && IsDocument(document) ==> Valid()
    {
      if Valid() && Fresh(Ix(), target) && IsDocument(document) {
        TrackEntityKeeps(View(), id, document, metadata, changeVector, target);
      }
      status, e := TrackDocument(id, document, metadata, changeVector, target);
    }

    method TrackDocument(id: string, document: Json, metadata: Fields, changeVector: Option<string>, target: Target)
      returns (status: Status, e: Entity)
      requires WellFormed(Ix())
      modifies this
      ensures var o := TrackEntity(old(View()), id, document, metadata, changeVector, target);
              Agrees(o, status, View()) && (status == Ok ==> e == o.value)
    {
      e := 0;
      if id == "" {
        if target.decoded.None? { return Err(DecodeFailed), 0; }
        return Ok, target.decoded.value.e;
      }
      var k := Text.Lower(id);
      if k in documentsByID {
        status, e := TrackKnown(id, documentsByID[k], target, false);
      } else if id in includedDocumentsByID {
        status, e := TrackKnown(id, includedDocumentsByID[id], target, true);
      } else {
        status, e := TrackUnknown(id, document, metadata, changeVector, target);
      }
    }

    /** The last branch of `TrackEntity`: the document is new to the session. */
    method TrackUnknown(id: string, document: Json, metadata: Fields, changeVector: Option<string>, target: Target)
      returns (status: Status, e: Entity)
      requires WellFormed(Ix()) && id != "" && Text.Lower(id) !in documentsByID && id !in includedDocumentsByID
      modifies this
      ensures var o := TrackEntity(old(View()), id, document, metadata, changeVector, target);
              Agrees(o, status, View()) && (status == Ok ==> e == o.value)
    {
      if target.decoded.None? { return Err(DecodeFailed), 0; }
      objects := objects[target.decoded.value.e := target.decoded.value.body];
      if changeVector.None? { return Err(NoChangeVector), 0; }
      e := target.decoded.value.e;
      TrackNew(Info(id, changeVector, Auto, false, metadata, document, Some(e), false, ""));
      status := Ok;
    }

    method TrackNew(info: Info)
      requires InHeap(infos, documentsByEntity) && info.entity.Some?
      modifies this`infos, this`documentsByEntity, this`documentsByID
      ensures InHeap(old(infos) + [info], old(documentsByEntity))
      ensures Ix() == Track(AddById(Alloc(old(Ix()), info), |old(infos)|), |old(infos)|)
    {
      var r := |infos|;
      infos := infos + [info];
      IndexAdd(r);
      SetDocumentInfo(r);
    }

    /** The two branches of `TrackEntity` that find an entry. */
    method TrackKnown(id: string, r: Ref, target: Target, add: bool) returns (status: Status, e: Entity)
      requires WellFormed(Ix()) && r < |infos|
      modifies this
      ensures var d := DropIncluded(old(Ix()), id);
              var o := TrackEntry(old(View()), if add then AddById(d, r) else d, r, target, add);
              Agrees(o, status, View()) && (status == Ok ==> e == o.value)
    {
      if infos[r].entity.Some? {
        if !add && !target.fits { return Err(WrongType), 0; }
        e := infos[r].entity.value;
        Enlist(id, r, add);
        if !target.fits { return Err(WrongType), 0; }
        return Ok, e;
      }
      if target.decoded.None? { return Err(DecodeFailed), 0; }
      e := target.decoded.value.e;
      AdoptFirst(Ix(), id, r, e);
      AdoptFrame(Ix(), r, e);
      AdoptDecoded(r, target.decoded.value);
      Enlist(id, r, add);
      status := Ok;
    }

    method AdoptDecoded(r: Ref, d: Decoded)
      requires r < |infos|
      modifies this`objects, this`infos
      ensures View() == AddBody(old(View()), d).(ix := Adopt(old(Ix()), r, d.e))
    {
      objects := objects[d.e := d.body];
      infos := infos[r := infos[r].(entity := Some(d.e))];
    }

    /** The end of both branches. */
    method Enlist(id: string, r: Ref, add: bool)
      requires InHeap(infos, documentsByEntity) && r < |infos| && infos[r].entity.Some?
      modifies this`includedDocumentsByID, this`documentsByID, this`documentsByEntity
      ensures var d := DropIncluded(old(Ix()), id); Ix() == Track(if add then AddById(d, r) else d, r)
    {
      includedDocumentsByID := includedDocumentsByID - {id};
      if add { IndexAdd(r); }
      SetDocumentInfo(r);
    }

    /** `LoadOperation.getDocumentWithID`. */
    method GetDocumentWithID(id: string, target: Target) returns (status: Status, found: Option<Entity>)
      requires WellFormed(Ix())
      modifies this
      ensures Agrees(GetDocument(old(View()), id, target), status, View())
      ensures status == Ok ==> found == GetDocument(old(View()), id, target).value
      ensures old(Valid() && Fresh(Ix(), target)) ==> Valid()
    {
      if Valid() && Fresh(Ix(), target) { GetDocumentKeeps(View(), id, target); }
      var k := Text.Lower(id);
      var gone := IsKnownMissing(id);
      if id == "" || gone || (k !in documentsByID && id !in includedDocumentsByID) { return Ok, None; }
      var info := infos[if k in documentsByID then documentsByID[k] else includedDocumentsByID[id]];
      var e;
      status, e := TrackLoaded(info.id, info.document, info.metadata, info.changeVector, target);
      found := Some(e);
    }

    /** `IsDeleted`. */
    method IsKnownMissing(id: string) returns (gone: bool)
      ensures gone <==> StringArray.ContainsNoCase(knownMissingIds, id)
    {
      var i := 0;
      while i < |knownMissingIds|
        invariant 0 <= i <= |knownMissingIds|
        invariant forall j :: 0 <= j < i ==> !Text.EqualFold(knownMissingIds[j], id)
      {
        if Text.EqualFold(knownMissingIds[i], id) { return true; }
        i := i + 1;
      }
      gone := false;
    }

    /** `Delete`. */
    method DeleteEntity(e: Entity) returns (status: Status)
      requires WellFormed(Ix())
      modifies this
      ensures Agrees(Delete(old(View()), e), status, View())
      ensures old(Valid()) ==> Valid()
    {
      if Valid() { DeleteKeeps(View(), e); }
      var i := Lookup(e);
      if i == |documentsByEntity| { return Err(NotAssociated); }
      var id := infos[documentsByEntity[i]].id;
      deletedEntities := deletedEntities + {e};
      includedDocumentsByID := includedDocumentsByID - {id};
      knownMissingIds := knownMissingIds + [id];
      status := Ok;
    }

    /** `entityChanged` without recording. */
    method Changed(env: JsonChanges.Env, info: Info) returns (out: JsonChanges.Outcome)
      requires JsonChanges.ValidEnv(env) && IsDocument(info.document)
      ensures out == EntityChanged(env, info, EntityJson(View(), info))
    {
      var e := EntityOf(info);
      var current := ToJson(if e in objects then objects[e] else map[], info);
      var none: map<string, seq<JsonChanges.Change>>;
      out, none := JsonOperation.EntityChanged(false, env, info.id, info.newDocument, info.document, current, map[]);
    }

    /** `DeleteByID`. */
    method DeleteById(env: JsonChanges.Env, id: string, expected: string) returns (status: Status)
      requires JsonChanges.ValidEnv(env) && WellFormed(Ix())
      modifies this
      ensures Agrees(DeleteByID(old(View()), id, expected, ChangedUnder(env, old(View()), id)), status, View())
      ensures old(Valid()) && status != GoPanic ==> Valid()
    {
      if Valid() { DeleteByIDKeeps(View(), id, expected, ChangedUnder(env, View(), id)); }
      if id == "" { return Err(EmptyId); }
      var changed := ChangedById(env, id);
      status := DeleteCompared(id, expected, changed);
    }

    method ChangedById(env: JsonChanges.Env, id: string) returns (out: JsonChanges.Outcome)
      requires JsonChanges.ValidEnv(env) && WellFormed(Ix())
      ensures out == ChangedUnder(env, View(), id)
    {
      var k := Text.Lower(id);
      if k !in documentsByID || infos[documentsByID[k]].entity.None? { return JsonChanges.Returned(false); }
      out := Changed(env, infos[documentsByID[k]]);
    }

    /** The rest of `DeleteByID`, once the object was compared. */
    method DeleteCompared(id: string, expected: string, changed: JsonChanges.Outcome) returns (status: Status)
      requires WellFormed(Ix()) && id != ""
      modifies this
      ensures Agrees(DeleteByID(old(View()), id, expected, changed), status, View())
    {
      var cv := "";
      var k := Text.Lower(id);
      if k in documentsByID {
        var info := infos[documentsByID[k]];
        if changed.Panicked? || (info.entity.None? && WritesMetadata(info)) { return GoPanic; }
        if info.entity.Some? {
          if changed.value { return Err(ChangedEntity); }
          DeleteDocumentInfo(info.entity.value);
        }
        IndexRemove(id);
        cv := OrEmpty(info.changeVector);
      }
      FinishDelete(id, expected, cv);
      status := Ok;
    }

    /** The end of `DeleteByID`: the id is missing from now on, and a DELETE is deferred. */
    method FinishDelete(id: string, expected: string, known: string)
      modifies this`knownMissingIds, this`deferredCommands, this`deferredCommandsMap
      ensures FinishDeleteByID(old(View()), id, expected, known) == Done(View(), ())
    {
      knownMissingIds := knownMissingIds + [id];
      var cv := if optimistic then known else "";
      DeferCommand(DeleteCommand(id, if expected != "" then expected else cv));
    }

    /** `Evict`. */
    method EvictEntity(e: Entity)
      requires WellFormed(Ix())
      modifies this
      ensures View() == Evict(old(View()), e)
      ensures old(Valid()) ==> Valid()
    {
      if Valid() { EvictKeeps(View(), e); }
      var i := Lookup(e);
      if i < |documentsByEntity| {
        var id := infos[documentsByEntity[i]].id;
        DeleteDocumentInfo(e);
        IndexRemove(id);
      }
      deletedEntities := deletedEntities - {e};
    }

    // ---- loading ------------------------------------------------------------------

    /** `IsLoadedOrDeleted`. */
    method IsLoadedOrDeleted(id: string) returns (loaded: bool)
      requires WellFormed(Ix())
      ensures loaded <==> || (Text.Lower(id) in documentsByID && infos[documentsByID[Text.Lower(id)]].document.Obj?)
                          || StringArray.ContainsNoCase(knownMissingIds, id) || id in includedDocumentsByID
    {
      var k := Text.Lower(id);
      if k in documentsByID && infos[documentsByID[k]].document.Obj? { return true; }
      var gone := IsKnownMissing(id);
      loaded := gone || id in includedDocumentsByID;
    }

    /** `LoadOperation.byIds`: the ids to ask the server for. No two of them differ only in letter case, none
        is known to the session, and every id has a spelling that is known or asked for. */
    method ByIds(ids: seq<string>) returns (ask: seq<string>)
      requires WellFormed(Ix())
      ensures forall i, j :: 0 <= i < j < |ask| ==> !Text.EqualFold(ask[i], ask[j])
      ensures forall id :: id in ask ==> id in ids && id != "" && !Loaded(View(), id)
      ensures forall id :: id in ids && id != "" ==>
                exists first :: first in ids && Text.EqualFold(first, id) && (Loaded(View(), first) || first in ask)
    {
      ask := [];
      var seen: set<string> := {};
      var i := 0;
      while i < |ids|
        invariant 0 <= i <= |ids|
        invariant Asked(KnownIds(View()), ids, ask, seen) && AllSeen(ids[..i], seen)
      {
        var id := ids[i];
        if id != "" && Text.Lower(id) !in seen {
          var loaded := IsLoadedOrDeleted(id);
          AskedNext(KnownIds(View()), ids, ask, seen, id);
          seen := seen + {Text.Lower(id)};
          if !loaded { ask := ask + [id]; }
        }
        SeenNext(ids, i, seen);
        i := i + 1;
      }
      assert ids[..i] == ids;
      forall id | id in ids && id != ""
        ensures exists first :: first in ids && Text.EqualFold(first, id) && (Loaded(View(), first) || first in ask)
      {
        assert Covered(KnownIds(View()), ids, ask, Text.Lower(id));
      }
    }

    /** `LoadOperation.setResult`: the includes, then the results. */
    method SetLoadResult(includes: seq<Option<Incoming>>, results: seq<Option<Incoming>>)
      modifies this`infos, this`includedDocumentsByID, this`documentsByID
      ensures Ix() == ReceiveAll(IncludeAll(old(Ix()), includes), results)
      ensures old(Valid()) && AllDocuments(includes) && AllDocuments(results) ==> Valid()
    {
      if Valid() && AllDocuments(includes) && AllDocuments(results) { LoadResultKeeps(Ix(), includes, results); }
      RegisterIncludes(includes);
      AddResults(results);
    }

    method AddResults(results: seq<Option<Incoming>>)
      modifies this`infos, this`documentsByID
      ensures Ix() == ReceiveAll(old(Ix()), results)
    {
      var i := 0;
      while i < |results|
        invariant 0 <= i <= |results| && Ix() == ReceiveAll(old(Ix()), results[..i])
      {
        ReceiveNext(old(Ix()), results, i);
        if results[i].Some? { AddResult(results[i].value); }
        i := i + 1;
      }
      assert results[..i] == results;
    }

    method AddResult(d: Incoming)
      modifies this`infos, this`documentsByID
      ensures Ix() == Receive(old(Ix()), d)
    {
      infos := infos + [IncomingInfo(d)];
      IndexAdd(|infos| - 1);
    }

    /** `registerIncludes`, in the order the runtime walks the map. */
    method RegisterIncludes(includes: seq<Option<Incoming>>)
      modifies this`infos, this`includedDocumentsByID
      ensures Ix() == IncludeAll(old(Ix()), includes)
    {
      var i := 0;
      while i < |includes|
        invariant 0 <= i <= |includes| && Ix() == IncludeAll(old(Ix()), includes[..i])
      {
        IncludeNext(old(Ix()), includes, i);
        if includes[i].Some? {
          includedDocumentsByID := includedDocumentsByID[includes[i].value.id := |infos|];
          infos := infos + [IncomingInfo(includes[i].value)];
        }
        i := i + 1;
      }
      assert includes[..i] == includes;
    }

    // ---- saving -------------------------------------------------------------------

    /** One turn of the loop of `prepareForEntitiesDeletion`. */
    method DeletionTurn(pending: map<Key, Command>, e: Entity, commands: seq<Command>, entities: seq<Entity>)
      returns (status: Status, commands': seq<Command>, entities': seq<Entity>)
      requires WellFormed(Ix())
      modifies this`documentsByEntity, this`documentsByID, this`deletedEntities
      ensures PreparedAs(DeleteStep(pending, Batch(old(View()), commands, entities), e), status, View(), commands', entities')
    {
      status, commands', entities' := Ok, commands, entities;
      var i := Lookup(e);
      if i == |documentsByEntity| { return; }
      var id := infos[documentsByEntity[i]].id;
      if Key(id, AnyCommand, "") in pending { return Err(DeferredConflict), commands, entities; }
      var k := Text.Lower(id);
      if k !in documentsByID { return GoPanic, commands, entities; }
      var info := infos[documentsByID[k]];
      if info.entity.Some? { entities' := entities + [info.entity.value]; }
      TakeOut(info);
      commands' := commands + [DeleteCommand(info.id, if optimistic then OrEmpty(info.changeVector) else "")];
      deletedEntities := {};
    }

    /** The entry leaves the list and the index. */
    method TakeOut(info: Info)
      requires InHeap(infos, documentsByEntity)
      modifies this`documentsByEntity, this`documentsByID
      ensures Ix() == RemoveById(if info.entity.Some? then Untrack(old(Ix()), info.entity.value) else old(Ix()), info.id)
    {
      if info.entity.Some? { DeleteDocumentInfo(info.entity.value); }
      IndexRemove(info.id);
    }

    /** `prepareForEntitiesDeletion`; `order` is the order in which the runtime walks the deleted set. */
    method PrepareForEntitiesDeletion(pending: map<Key, Command>, order: seq<Entity>)
      returns (status: Status, commands: seq<Command>, entities: seq<Entity>)
      requires WellFormed(Ix())
      modifies this`documentsByEntity, this`documentsByID, this`deletedEntities
      ensures PreparedAs(DeleteAll(pending, Batch(old(View()), [], []), order), status, View(), commands, entities)
    {
      status, commands, entities := Ok, [], [];
      ghost var trace := [Batch(View(), [], [])];
      var i := 0;
      while i < |order|
        invariant 0 <= i <= |order| && |trace| == i + 1 && WellFormed(Ix()) && status == Ok
        invariant trace[0] == Batch(old(View()), [], []) && trace[i] == Batch(View(), commands, entities)
        invariant Turns(pending, order, trace)
      {
        status, commands, entities := DeletionTurn(pending, order[i], commands, entities);
        if status != Ok {
          TurnsStop(pending, order, trace);
          return;
        }
        TurnsNext(pending, order, trace, Batch(View(), commands, entities));
        trace := trace + [Batch(View(), commands, entities)];
        i := i + 1;
      }
      TurnsEnd(pending, order, trace);
    }

    /** Whether an entry is to be put. */
    method Decide(env: JsonChanges.Env, r: Ref) returns (verdict: JsonChanges.Outcome)
      requires JsonChanges.ValidEnv(env) && r < |infos| && IsDocument(infos[r].document)
      ensures verdict == Verdict(env, View(), At(Ix(), r))
    {
      if infos[r].ignoreChanges { return JsonChanges.Returned(false); }
      verdict := Changed(env, infos[r]);
    }

    /** The rest of a turn of `prepareForEntitiesPuts`, once the entry was compared. */
    method PutTurn(pending: map<Key, Command>, r: Ref, verdict: JsonChanges.Outcome, commands: seq<Command>, entities: seq<Entity>)
      returns (status: Status, commands': seq<Command>, entities': seq<Entity>)
      requires r < |infos|
      modifies this`infos, this`documentsByID
      ensures PreparedAs(PutStep(pending, Batch(old(View()), commands, entities), r, verdict), status, View(), commands', entities')
    {
      status, commands', entities' := Ok, commands, entities;
      var info := infos[r];
      if verdict.Panicked? { return GoPanic, commands, entities; }
      if !verdict.value { return; }
      if Key(info.id, NotAttachment, "") in pending { return Err(DeferredConflict), commands, entities; }
      var e := EntityOf(info);
      var document := ToJson(if e in objects then objects[e] else map[], info);
      entities' := entities + [e];
      commands' := commands + [Command(info.id, PutType, "", PutChangeVector(optimistic, info), document)];
      MarkPut(r, document);
    }

    /** The entry of a PUT leaves the index until the reply. */
    method MarkPut(r: Ref, document: Json)
      requires r < |infos| && document == EntityJson(View(), infos[r])
      modifies this`infos, this`documentsByID
      ensures Ix() == PutIndex(old(View()), r)
    {
      var info := infos[r];
      if info.id != "" { IndexRemove(info.id); }
      SubtractTwice(old(documentsByID), {}, {});
      assert documentsByID == old(documentsByID) - OwnKey(info);
      infos := infos[r := PutEntry(info, document)];
    }

    /** One turn of the loop of `prepareForEntitiesPuts`. */
    method PutOne(env: JsonChanges.Env, pending: map<Key, Command>, r: Ref, commands: seq<Command>, entities: seq<Entity>)
      returns (status: Status, commands': seq<Command>, entities': seq<Entity>)
      requires JsonChanges.ValidEnv(env) && r < |infos| && IsDocument(infos[r].document)
      modifies this`infos, this`documentsByID
      ensures PreparedAs(PutStep(pending, Batch(old(View()), commands, entities), r, Verdict(env, old(View()), At(old(Ix()), r))),
                         status, View(), commands', entities')
    {
      var verdict := Decide(env, r);
      status, commands', entities' := PutTurn(pending, r, verdict, commands, entities);
    }

    /** `prepareForEntitiesPuts`. */
    method PrepareForEntitiesPuts(env: JsonChanges.Env, pending: map<Key, Command>, before: seq<Command>, deleted: seq<Entity>)
      returns (status: Status, commands: seq<Command>, entities: seq<Entity>)
      requires JsonChanges.ValidEnv(env) && WellFormed(Ix())
      modifies this`infos, this`documentsByID
      ensures PreparedAs(PutAll(env, pending, Batch(old(View()), before, deleted), old(documentsByEntity)), status, View(), commands, entities)
    {
      status, commands, entities := Ok, before, deleted;
      ghost var refs := documentsByEntity;
      ghost var trace := [Batch(View(), before, deleted)];
      var i := 0;
      while i < |documentsByEntity|
        invariant 0 <= i <= |refs| && |trace| == i + 1 && status == Ok && documentsByEntity == refs && Documents(Ix())
        invariant trace[0] == Batch(old(View()), before, deleted) && trace[i] == Batch(View(), commands, entities)
        invariant PutTurns(env, pending, refs, trace)
      {
        status, commands, entities := PutOne(env, pending, documentsByEntity[i], commands, entities);
        if status != Ok {
          PutTurnsEnd(env, pending, refs, trace);
          return;
        }
        ghost var b := Batch(View(), commands, entities);
        PutTurnedDocuments(env, pending, trace[i], refs[i], b);
        PutTurnsNext(env, pending, refs, trace, b);
        trace := trace + [b];
        i := i + 1;
      }
      PutTurnsEnd(env, pending, refs, trace);
    }

    /** `prepareForSaveChanges`, without listeners. */
    method PrepareForSaveChanges(env: JsonChanges.Env, order: seq<Entity>)
      returns (status: Status, commands: seq<Command>, entities: seq<Entity>)
      requires JsonChanges.ValidEnv(env) && WellFormed(Ix())
      modifies this
      ensures PreparedAs(Prepare(env, old(View()), order), status, View(), commands, entities)
    {
      var pending := deferredCommandsMap;
      deferredCommands := [];
      deferredCommandsMap := map[];
      status, commands, entities := PrepareForEntitiesDeletion(pending, order);
      if status != Ok { return; }
      status, commands, entities := PrepareForEntitiesPuts(env, pending, commands, entities);
    }

    /** `BatchOperation.createRequest`: `sent` tells whether there is anything to send, and `wire` is what is sent: the
        session's commands, and after them the deferred ones. */
    method CreateBatch(env: JsonChanges.Env, order: seq<Entity>)
      returns (status: Status, sent: bool, commands: seq<Command>, entities: seq<Entity>, wire: seq<Command>)
      requires JsonChanges.ValidEnv(env) && WellFormed(Ix())
      modifies this
      ensures Agrees(CreateRequest(env, old(View()), order), status, View())
      ensures status == Ok ==> CreateRequest(env, old(View()), order).value
                               == if sent then Some(Batch(View(), commands, entities)) else None
      ensures wire == if sent then commands + old(deferredCommands) else []
    {
      var deferred := deferredCommands;
      status, commands, entities := PrepareForSaveChanges(env, order);
      sent, wire := false, [];
      if status != Ok || commands + deferred == [] { return; }
      numberOfRequests := numberOfRequests + 1;
      if numberOfRequests > maxRequests { return Err(TooManyRequests), false, commands, entities, []; }
      sent, wire := true, commands + deferred;
    }

    /** One turn of the loop of `BatchOperation.setResult`. */
    method SetResultTurn(entities: seq<Entity>, i: nat, reply: Reply) returns (status: Status)
      requires WellFormed(Ix())
      modifies this`infos, this`documentsByID, this`objects
      ensures Agrees(SetStep(old(View()), entities, i, reply), status, View())
    {
      if reply.Nil? { return Err(BadReply); }
      if reply.Other? { return Ok; }
      if i >= |entities| { return GoPanic; }
      var f := Lookup(entities[i]);
      if f == |documentsByEntity| { return Ok; }
      var r := documentsByEntity[f];
      if !GoodPut(reply.props) { return Err(BadReply); }
      if infos[r].document.Null? { return GoPanic; }
      WritePut(r, entities[i], reply.props);
      status := Ok;
    }

    /** Metadata, id and change vector of a PUT go to its entry, which joins the index again. */
    method WritePut(r: Ref, e: Entity, props: Fields)
      requires r < |infos| && infos[r].entity == Some(e) && infos[r].document.Obj? && GoodPut(props)
      modifies this`infos, this`documentsByID, this`objects
      ensures View() == SetOne(old(View()), r, props)
    {
      var info := infos[r];
      var id := props[METADATA_ID].s;
      info := info.(metadata := info.metadata + props);
      info := info.(id := id, changeVector := Some(props[METADATA_CHANGE_VECTOR].s));
      info := info.(document := Obj(info.document.fields[METADATA_KEY := Obj(info.metadata)]));
      infos := infos[r := info];
      IndexAdd(r);
      TrySetIdentity(e, id);
    }

    /** `BatchOperation.setResult`. */
    method WriteResult(entities: seq<Entity>, count: nat, reply: seq<Reply>) returns (status: Status)
      requires WellFormed(Ix())
      modifies this`infos, this`documentsByID, this`objects
      ensures Agrees(SetResult(old(View()), entities, count, reply), status, View())
    {
      if reply == [] { return Err(EmptyReply); }
      ghost var all := SetFrom(View(), entities, count, reply, 0);
      var i := 0;
      while i < count
        invariant 0 <= i <= count && WellFormed(Ix())
        invariant SetFrom(View(), entities, count, reply, i) == all
      {
        if i >= |reply| { return GoPanic; }
        status := SetResultTurn(entities, i, reply[i]);
        if status != Ok { return; }
        i := i + 1;
      }
      status := Ok;
    }

    /** `SaveChanges`; `reply` is the server's answer, if anything is sent. */
    method Save(env: JsonChanges.Env, order: seq<Entity>, reply: seq<Reply>) returns (status: Status)
      requires JsonChanges.ValidEnv(env) && WellFormed(Ix())
      modifies this
      ensures Agrees(SaveChanges(env, old(View()), order, reply), status, View())
      ensures old(Valid()) && status == Ok && SessionReply.Faithful(Prepare(env, old(View()), order).batch, reply) ==> Valid()
    {
      ghost var before := View();
      var sent, commands, entities, wire;
      PrepareWellFormed(env, before, order);
      status, sent, commands, entities, wire := CreateBatch(env, order);
      if status == Ok && sent { status := WriteResult(entities, |commands|, reply); }
      if Inv(before.ix) && status == Ok && SessionReply.Faithful(Prepare(env, before, order).batch, reply) {
        SessionRuns.SaveKeeps(env, before, order, reply);
      }
    }
  }
}
