/** The session's unit of work as a value: what every operation does to its indexes. */
module SessionModel {
  import opened Wrappers
  import opened JsonDocs
  import JsonChanges
  import StringArray
  import Text

  /** The identity of a user object (a Go pointer). */
  type Entity = nat

  /** A pointer to a `documentInfo`: a position in the heap of the index. */
  type Ref = nat

  type Fields = map<string, Json>

  datatype ConcurrencyCheck = Auto | Forced | Disabled

  datatype Info = Info(
    id: string,
    changeVector: Option<string>,
    mode: ConcurrencyCheck,
    ignoreChanges: bool,
    metadata: Fields,
    document: Json,
    entity: Option<Entity>,
    newDocument: bool,
    collection: string)

  /** The entries and the three collections that point to them. */
  datatype Index = Index(
    heap: seq<Info>,             // every documentInfo allocated so far
    tracked: seq<Ref>,           // documentsByEntity
    byId: map<string, Ref>,      // documentsByID.inner
    included: map<string, Ref>)  // includedDocumentsByID

  datatype CommandType = PutType | PatchType | DeleteType | AttachmentPut | AttachmentDelete | AnyCommand | NotAttachment

  datatype Command = Command(id: string, typ: CommandType, name: string, changeVector: Option<string>, document: Json)

  /** `idTypeAndName`: ids are compared with their letter case here. */
  datatype Key = Key(id: string, typ: CommandType, name: string)

  datatype Session = Session(
    ix: Index,
    bodies: map<Entity, Fields>,     // the user's objects, as their JSON fields
    deleted: set<Entity>,            // deletedEntities
    missing: seq<string>,            // knownMissingIds
    deferred: seq<Command>,          // deferredCommands
    deferredMap: map<Key, Command>,  // deferredCommandsMap
    requests: nat,                   // numberOfRequests
    maxRequests: nat,
    optimistic: bool)                // useOptimisticConcurrency

  datatype Error =
    | NotAssociated | EmptyId | ChangedEntity | DeferredRegistered | AlreadyDeleted | NonUnique
    | NoChangeVector | DecodeFailed | WrongType | DeferredConflict | TooManyRequests | EmptyReply | BadReply

  /** `Crashed` is a Go panic; a failed call may have changed the state. */
  datatype Outcome<T> = Done(state: Session, value: T) | Failed(state: Session, error: Error) | Crashed

  const IDENTITY_PROPERTY := "ID"

  function NewSession(maxRequests: nat, optimistic: bool): Session {
    Session(Index([], [], map[], map[]), map[], {}, [], [], map[], 0, maxRequests, optimistic)
  }

  /** Ids the uniqueness check applies to. */
  predicate Ordinary(id: string) {
    id != "" && id[|id| - 1] != '/' && id[|id| - 1] != '|'
  }

  // ---- well-formedness: pointers point into the heap ------------------------------

  predicate InHeap(heap: seq<Info>, refs: seq<Ref>) {
    forall i :: 0 <= i < |refs| ==> refs[i] < |heap|
  }

  ghost predicate WellFormed(ix: Index) {
    && InHeap(ix.heap, ix.tracked)
    && (forall i :: 0 <= i < |ix.tracked| ==> ix.heap[ix.tracked[i]].entity.Some?)
    && (forall k :: k in ix.byId ==> ix.byId[k] < |ix.heap|)
    && (forall k :: k in ix.included ==> ix.included[k] < |ix.heap|)
    && (forall r :: 0 <= r < |ix.heap| ==> IsDocument(ix.heap[r].document))
  }

  /** A JSON object, or nil. */
  predicate IsDocument(j: Json) {
    j.Obj? || j.Null?
  }

  // ---- the list by entity and the index by id -------------------------------------

  /** `getDocumentInfoByEntity`, as a position: the first entry of the entity, or the length. */
  function Find(heap: seq<Info>, tracked: seq<Ref>, e: Entity): (i: nat)
    requires InHeap(heap, tracked)
    ensures i <= |tracked|
    ensures i < |tracked| ==> heap[tracked[i]].entity == Some(e)
    ensures forall j :: 0 <= j < i ==> heap[tracked[j]].entity != Some(e)
  {
    if tracked == [] then 0
    else if heap[tracked[0]].entity == Some(e) then 0
    else 1 + Find(heap, tracked[1..], e)
  }

  predicate Tracks(ix: Index, e: Entity)
    requires InHeap(ix.heap, ix.tracked)
  {
    Find(ix.heap, ix.tracked, e) < |ix.tracked|
  }

  /** `setDocumentInfo`: adds, or replaces the entry of the same entity. */
  function Track(ix: Index, r: Ref): Index
    requires InHeap(ix.heap, ix.tracked) && r < |ix.heap| && ix.heap[r].entity.Some?
  {
    var i := Find(ix.heap, ix.tracked, ix.heap[r].entity.value);
    ix.(tracked := if i < |ix.tracked| then ix.tracked[i := r] else ix.tracked + [r])
  }

  /** `deleteDocumentInfoByEntity`. */
  function Untrack(ix: Index, e: Entity): Index
    requires InHeap(ix.heap, ix.tracked)
  {
    var i := Find(ix.heap, ix.tracked, e);
    if i < |ix.tracked| then ix.(tracked := ix.tracked[..i] + ix.tracked[i + 1..]) else ix
  }

  /** `documentsByID.add` never overwrites. */
  function AddById(ix: Index, r: Ref): Index
    requires r < |ix.heap|
  {
    var k := Text.Lower(ix.heap[r].id);
    if k in ix.byId then ix else ix.(byId := ix.byId[k := r])
  }

  /** `documentsByID.remove`. */
  function RemoveById(ix: Index, id: string): Index {
    ix.(byId := ix.byId - {Text.Lower(id)})
  }

  function DropIncluded(ix: Index, id: string): Index {
    ix.(included := ix.included - {id})
  }

  function Alloc(ix: Index, info: Info): Index {
    ix.(heap := ix.heap + [info])
  }

  function SetInfo(ix: Index, r: Ref, info: Info): Index
    requires r < |ix.heap|
  {
    ix.(heap := ix.heap[r := info])
  }

  // ---- entity to JSON -------------------------------------------------------------

  function Body(s: Session, e: Entity): Fields {
    if e in s.bodies then s.bodies[e] else map[]
  }

  predicate WritesMetadata(info: Info) {
    |info.metadata| > 0 || info.collection != ""
  }

  /** `entityToJSONWriteMetadata`, for an entry whose metadata object was never handed out. */
  function WithMetadata(fields: Fields, info: Info): Fields {
    var node := if info.collection != "" then info.metadata[METADATA_COLLECTION := Str(info.collection)] else info.metadata;
    if WritesMetadata(info) then fields[METADATA_KEY := Obj(node)] else fields
  }

  /** `convertEntityToJSON`. */
  function ToJson(body: Fields, info: Info): (j: Json)
    ensures j.Obj? && IDENTITY_PROPERTY !in j.fields
  {
    Obj(WithMetadata(body, info) - {IDENTITY_PROPERTY})
  }

  /** `entityChanged` in the fast mode. */
  ghost function EntityChanged(env: JsonChanges.Env, info: Info, current: Json): JsonChanges.Outcome
    requires current.Obj?
  {
    if info.newDocument || !info.document.Obj? then JsonChanges.Returned(true)
    else JsonChanges.FastObject(env, info.document, current)
  }

  // ---- operations -----------------------------------------------------------------

  /** `trySetIdentity`: the ID field of the object. */
  function SetIdentity(s: Session, e: Entity, id: string): Session {
    s.(bodies := s.bodies[e := Body(s, e)[IDENTITY_PROPERTY := Str(id)]])
  }

  predicate IsAttachment(typ: CommandType) {
    typ.AttachmentPut? || typ.AttachmentDelete?
  }

  /** The keys a deferred command takes in the map: its own, and up to two for all commands on its id. */
  function Registered<C>(m: map<Key, C>, key: Key, c: C): map<Key, C> {
    var m' := m[key := c][Key(key.id, AnyCommand, "") := c];
    if IsAttachment(key.typ) then m' else m'[Key(key.id, NotAttachment, "") := c]
  }

  /** `deferInternal`. */
  method DeferInternal<C>(m: map<Key, C>, key: Key, c: C) returns (m': map<Key, C>)
    ensures m' == Registered(m, key, c)
  {
    m' := m[key := c];
    m' := m'[Key(key.id, AnyCommand, "") := c];
    if !IsAttachment(key.typ) { m' := m'[Key(key.id, NotAttachment, "") := c]; }
  }

  /** `Defer` of one command: the list and up to three keys of the map. */
  function Defer(s: Session, c: Command): Session {
    s.(deferred := s.deferred + [c], deferredMap := Registered(s.deferredMap, Key(c.id, c.typ, c.name), c))
  }

  function ForgetMissing(s: Session, id: string): Session {
    if id != "" then s.(missing := StringArray.RemoveNoCase(s.missing, id)) else s
  }

  /** `storeInternal`, with the id given or generated and the metadata of the conventions. */
  function Store(s: Session, e: Entity, changeVector: string, id: string, mode: ConcurrencyCheck, metadata: Fields): Outcome<()>
    requires WellFormed(s.ix)
  {
    var i := Find(s.ix.heap, s.ix.tracked, e);
    var k := Text.Lower(id);
    if i < |s.ix.tracked| then
      Done(s.(ix := SetInfo(s.ix, s.ix.tracked[i], Restored(s.ix.heap[s.ix.tracked[i]], changeVector, mode))), ())
    else
      var s1 := SetIdentity(s, e, id);
      if Key(id, AnyCommand, "") in s.deferredMap then Failed(s1, DeferredRegistered)
      else if e in s.deleted then Failed(s1, AlreadyDeleted)
      else if Ordinary(id) && k in s.ix.byId && s.ix.heap[s.ix.byId[k]].entity != Some(e) then Failed(s1, NonUnique)
      else Done(StoreInUnitOfWork(ForgetMissing(s1, id), e, changeVector, id, mode, metadata), ())
  }

  /** A second store of a tracked object only changes its concurrency check. */
  function Restored(info: Info, changeVector: string, mode: ConcurrencyCheck): Info {
    info.(mode := mode, changeVector := if changeVector != "" then Some(changeVector) else info.changeVector)
  }

  function StoredInfo(e: Entity, changeVector: string, id: string, mode: ConcurrencyCheck, metadata: Fields): Info {
    Info(id, if changeVector != "" then Some(changeVector) else None, mode, false, metadata, Null, Some(e), true, "")
  }

  /** `storeEntityInUnitOfWork`. */
  function StoreInUnitOfWork(s: Session, e: Entity, changeVector: string, id: string, mode: ConcurrencyCheck, metadata: Fields): Session
    requires InHeap(s.ix.heap, s.ix.tracked)
  {
    var r := |s.ix.heap|;
    var ix := Track(Alloc(s.ix, StoredInfo(e, changeVector, id, mode, metadata)), r);
    ForgetMissing(s, id).(deleted := s.deleted - {e}, ix := if id != "" then AddById(ix, r) else ix)
  }

  /** A document the server delivers: `getNewDocumentInfo` panics without an id or change vector. */
  datatype Incoming = Incoming(id: string, changeVector: string, metadata: Fields, document: Json)

  function IncomingInfo(d: Incoming): Info {
    Info(d.id, Some(d.changeVector), Auto, false, d.metadata, d.document, None, false, "")
  }

  /** `registerIncludes`, one document. */
  function Include(ix: Index, d: Incoming): Index {
    Alloc(ix, IncomingInfo(d)).(included := ix.included[d.id := |ix.heap|])
  }

  /** `LoadOperation.setResult`, one document. */
  function Receive(ix: Index, d: Incoming): Index {
    AddById(Alloc(ix, IncomingInfo(d)), |ix.heap|)
  }

  /** A decoded object: its identity is new, its fields come from the document. */
  datatype Decoded = Decoded(e: Entity, body: Fields)

  /** The caller's variable: what decoding the document into its type gives, if it succeeds, and whether an object
      the session already has can be assigned to it. */
  datatype Target = Target(decoded: Option<Decoded>, fits: bool)

  function Adopt(ix: Index, r: Ref, e: Entity): Index
    requires r < |ix.heap|
  {
    SetInfo(ix, r, ix.heap[r].(entity := Some(e)))
  }

  function AddBody(s: Session, d: Decoded): Session {
    s.(bodies := s.bodies[d.e := d.body])
  }

  /** An entry the session already has: its object must fit the caller's variable, or it gets the decoded one, and
      it joins the list; `late` tells that the fit is checked after that. */
  function TrackEntry(s: Session, ix: Index, r: Ref, target: Target, late: bool): Outcome<Entity>
    requires WellFormed(ix) && r < |ix.heap|
  {
    if ix.heap[r].entity.Some? then
      var t := s.(ix := Track(ix, r));
      if target.fits then Done(t, ix.heap[r].entity.value) else Failed(if late then t else s, WrongType)
    else if target.decoded.None? then Failed(s, DecodeFailed)
    else Done(AddBody(s, target.decoded.value).(ix := Track(Adopt(ix, r, target.decoded.value.e), r)), target.decoded.value.e)
  }

  /** `TrackEntity` with tracking on. */
  function TrackEntity(s: Session, id: string, document: Json, metadata: Fields, changeVector: Option<string>, target: Target)
    : Outcome<Entity>
    requires WellFormed(s.ix)
  {
    var k := Text.Lower(id);
    if id == "" then
      if target.decoded.None? then Failed(s, DecodeFailed) else Done(s, target.decoded.value.e)
    else if k in s.ix.byId then TrackEntry(s, DropIncluded(s.ix, id), s.ix.byId[k], target, false)
    else if id in s.ix.included then
      TrackEntry(s, AddById(DropIncluded(s.ix, id), s.ix.included[id]), s.ix.included[id], target, true)
    else if target.decoded.None? then Failed(s, DecodeFailed)
    else if changeVector.None? then Failed(AddBody(s, target.decoded.value), NoChangeVector)
    else
      var e := target.decoded.value.e;
      var info := Info(id, changeVector, Auto, false, metadata, document, Some(e), false, "");
      var r := |s.ix.heap|;
      Done(AddBody(s, target.decoded.value).(ix := Track(AddById(Alloc(s.ix, info), r), r)), e)
  }

  /** `getDocumentWithID`: what a load of one id gives, and the tracking it does. */
  function GetDocument(s: Session, id: string, target: Target): Outcome<Option<Entity>>
    requires WellFormed(s.ix)
  {
    var k := Text.Lower(id);
    if id == "" || StringArray.ContainsNoCase(s.missing, id) || (k !in s.ix.byId && id !in s.ix.included) then Done(s, None)
    else
      var info := s.ix.heap[if k in s.ix.byId then s.ix.byId[k] else s.ix.included[id]];
      match TrackEntity(s, info.id, info.document, info.metadata, info.changeVector, target)
      case Done(t, e) => Done(t, Some(e))
      case Failed(t, err) => Failed(t, err)
      case Crashed => Crashed
  }

  function Delete(s: Session, e: Entity): Outcome<()>
    requires WellFormed(s.ix)
  {
    var i := Find(s.ix.heap, s.ix.tracked, e);
    if i == |s.ix.tracked| then Failed(s, NotAssociated)
    else
      var id := s.ix.heap[s.ix.tracked[i]].id;
      Done(s.(deleted := s.deleted + {e}, ix := DropIncluded(s.ix, id), missing := s.missing + [id]), ())
  }

  function DeleteCommand(id: string, changeVector: string): Command {
    Command(id, DeleteType, "", if changeVector == "" then None else Some(changeVector), Null)
  }

  function OrEmpty(o: Option<string>): string {
    if o.Some? then o.value else ""
  }

  /** Whether the object of the entry `DeleteByID` finds has changed. */
  ghost function ChangedUnder(env: JsonChanges.Env, s: Session, id: string): JsonChanges.Outcome
    requires WellFormed(s.ix)
  {
    var k := Text.Lower(id);
    if k in s.ix.byId && s.ix.heap[s.ix.byId[k]].entity.Some? then
      var info := s.ix.heap[s.ix.byId[k]];
      EntityChanged(env, info, ToJson(Body(s, info.entity.value), info))
    else JsonChanges.Returned(false)
  }

  function DeleteByID(s: Session, id: string, expected: string, changed: JsonChanges.Outcome): Outcome<()>
    requires WellFormed(s.ix)
  {
    var k := Text.Lower(id);
    if id == "" then Failed(s, EmptyId)
    else if k !in s.ix.byId then FinishDeleteByID(s, id, expected, "")
    else if changed.Panicked? then Crashed
    else
      var info := s.ix.heap[s.ix.byId[k]];
      if info.entity.None? then
        if WritesMetadata(info) then Crashed   // the object converts to a nil map, which metadata cannot be written to
        else FinishDeleteByID(s.(ix := RemoveById(s.ix, id)), id, expected, OrEmpty(info.changeVector))
      else if changed.value then Failed(s, ChangedEntity)
      else
        FinishDeleteByID(s.(ix := RemoveById(Untrack(s.ix, info.entity.value), id)), id, expected, OrEmpty(info.changeVector))
  }

  function FinishDeleteByID(s: Session, id: string, expected: string, known: string): Outcome<()> {
    var cv := if s.optimistic then known else "";
    Done(Defer(s.(missing := s.missing + [id]), DeleteCommand(id, if expected != "" then expected else cv)), ())
  }

  function Evict(s: Session, e: Entity): Session
    requires WellFormed(s.ix)
  {
    var i := Find(s.ix.heap, s.ix.tracked, e);
    s.(deleted := s.deleted - {e},
       ix := if i < |s.ix.tracked| then RemoveById(Untrack(s.ix, e), s.ix.heap[s.ix.tracked[i]].id) else s.ix)
  }

  /** The user assigns to fields of an object. */
  function Modify(s: Session, e: Entity, body: Fields): Session {
    s.(bodies := s.bodies[e := body])
  }
}
