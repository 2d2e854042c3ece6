/** `SaveChanges`: preparing the batch and writing the positional reply back. */
module SessionSave {
  import opened Wrappers
  import opened JsonDocs
  import opened SessionModel
  import opened SessionInvariant
  import JsonChanges
  import Text

  /** `saveChangesData` under construction, with the session it is built from. */
  datatype Batch = Batch(s: Session, commands: seq<Command>, entities: seq<Entity>)

  datatype Prepared = Ready(batch: Batch) | Rejected(batch: Batch, error: Error) | Panic

  // ---- deletions ------------------------------------------------------------------

  lemma DeleteStepWellFormed(ix: Index, info: Info)
    requires WellFormed(ix)
    ensures WellFormed(RemoveById(if info.entity.Some? then Untrack(ix, info.entity.value) else ix, info.id))
  {
  }

  /** One turn of `prepareForEntitiesDeletion`; `pending` is the copied map of deferred commands. */
  function DeleteStep(pending: map<Key, Command>, b: Batch, e: Entity): (p: Prepared)
    requires WellFormed(b.s.ix)
    ensures p.Ready? ==> WellFormed(p.batch.s.ix)
  {
    var ix := b.s.ix;
    var i := Find(ix.heap, ix.tracked, e);
    if i == |ix.tracked| then Ready(b)
    else
      var id := ix.heap[ix.tracked[i]].id;
      if Key(id, AnyCommand, "") in pending then Rejected(b, DeferredConflict)
      else if Text.Lower(id) !in ix.byId then Panic
      else
        var info := ix.heap[ix.byId[Text.Lower(id)]];
        var cv := if b.s.optimistic then OrEmpty(info.changeVector) else "";
        var ix' := RemoveById(if info.entity.Some? then Untrack(ix, info.entity.value) else ix, info.id);
        DeleteStepWellFormed(ix, info);
        Ready(Batch(b.s.(ix := ix', deleted := {}),
                    b.commands + [DeleteCommand(info.id, cv)],
                    if info.entity.Some? then b.entities + [info.entity.value] else b.entities))
  }

  /** The loop over the deleted set, in the order the Go map gives. */
  function DeleteAll(pending: map<Key, Command>, b: Batch, order: seq<Entity>): (p: Prepared)
    requires WellFormed(b.s.ix)
    ensures p.Ready? ==> WellFormed(p.batch.s.ix)
    decreases |order|
  {
    if order == [] then Ready(b)
    else
      var p := DeleteStep(pending, b, order[0]);
      if p.Ready? then DeleteAll(pending, p.batch, order[1..]) else p
  }

  // ---- puts -----------------------------------------------------------------------

  function PutChangeVector(optimistic: bool, info: Info): Option<string> {
    if optimistic then
      if info.mode.Disabled? then None else if info.changeVector.Some? then info.changeVector else Some("")
    else if info.mode.Forced? then info.changeVector
    else None
  }

  const NO_INFO := Info("", None, Auto, false, map[], Null, None, false, "")

  /** The entry a pointer leads to; total, so that statements about lists of pointers stay short. */
  function At(ix: Index, r: Ref): Info {
    if r < |ix.heap| then ix.heap[r] else NO_INFO
  }

  function EntityOf(info: Info): Entity {
    if info.entity.Some? then info.entity.value else 0
  }

  function EntityJson(s: Session, info: Info): (j: Json)
    ensures j.Obj?
  {
    ToJson(Body(s, EntityOf(info)), info)
  }

  /** What the loop decides about an entry: skip it, put it, or panic in the comparison. */
  ghost function Verdict(env: JsonChanges.Env, s: Session, info: Info): JsonChanges.Outcome {
    if info.ignoreChanges then JsonChanges.Returned(false) else EntityChanged(env, info, EntityJson(s, info))
  }

  function PutCommand(s: Session, info: Info): Command {
    Command(info.id, PutType, "", PutChangeVector(s.optimistic, info), EntityJson(s, info))
  }

  function PutInfo(s: Session, info: Info): Info {
    info.(newDocument := false, document := EntityJson(s, info))
  }

  /** The index keys a put removes. */
  function OwnKey(info: Info): set<string> {
    if info.id != "" then {Text.Lower(info.id)} else {}
  }

  function PutIndex(s: Session, r: Ref): Index {
    var info := At(s.ix, r);
    s.ix.(byId := s.ix.byId - OwnKey(info),
          heap := if r < |s.ix.heap| then s.ix.heap[r := PutInfo(s, info)] else s.ix.heap)
  }

  /** One turn of `prepareForEntitiesPuts`, given the verdict on the entry. */
  function PutStep(pending: map<Key, Command>, b: Batch, r: Ref, verdict: JsonChanges.Outcome): Prepared {
    var info := At(b.s.ix, r);
    if verdict.Panicked? then Panic
    else if !verdict.value then Ready(b)
    else if Key(info.id, NotAttachment, "") in pending then Rejected(b, DeferredConflict)
    else Ready(Batch(b.s.(ix := PutIndex(b.s, r)), b.commands + [PutCommand(b.s, info)], b.entities + [EntityOf(info)]))
  }

  ghost function PutAll(env: JsonChanges.Env, pending: map<Key, Command>, b: Batch, refs: seq<Ref>): Prepared
    decreases |refs|
  {
    if refs == [] then Ready(b)
    else
      var p := PutStep(pending, b, refs[0], Verdict(env, b.s, At(b.s.ix, refs[0])));
      if p.Ready? then PutAll(env, pending, p.batch, refs[1..]) else p
  }

  /** `prepareForSaveChanges`, without listeners. */
  ghost function Prepare(env: JsonChanges.Env, s: Session, order: seq<Entity>): Prepared
    requires WellFormed(s.ix)
  {
    var p := DeleteAll(s.deferredMap, Batch(s.(deferred := [], deferredMap := map[]), [], []), order);
    if p.Ready? then PutAll(env, s.deferredMap, p.batch, p.batch.s.ix.tracked) else p
  }

  // ---- the reply ------------------------------------------------------------------

  /** One element of the reply; the properties of a PUT come without its "Type". */
  datatype Reply = Nil | Put(props: Fields) | Other

  predicate HasText(props: Fields, name: string) {
    name in props && props[name].Str?
  }

  predicate GoodPut(props: Fields) {
    HasText(props, METADATA_CHANGE_VECTOR) && HasText(props, METADATA_ID) && props[METADATA_ID].s != ""
  }

  function ReplyInfo(info: Info, props: Fields): Info
    requires GoodPut(props) && info.document.Obj?
  {
    var metadata := info.metadata + props;
    info.(metadata := metadata, id := props[METADATA_ID].s, changeVector := Some(props[METADATA_CHANGE_VECTOR].s),
          document := Obj(info.document.fields[METADATA_KEY := Obj(metadata)]))
  }

  /** The write-back of one PUT. */
  function SetOne(s: Session, r: Ref, props: Fields): Session
    requires r < |s.ix.heap| && s.ix.heap[r].entity.Some? && s.ix.heap[r].document.Obj? && GoodPut(props)
  {
    SetIdentity(s.(ix := AddById(SetInfo(s.ix, r, ReplyInfo(s.ix.heap[r], props)), r)),
                s.ix.heap[r].entity.value, props[METADATA_ID].s)
  }

  /** One turn of `BatchOperation.setResult`. */
  function SetStep(s: Session, entities: seq<Entity>, i: nat, reply: Reply): (o: Outcome<()>)
    requires WellFormed(s.ix)
    ensures o.Done? ==> WellFormed(o.state.ix)
  {
    match reply
    case Nil => Failed(s, BadReply)
    case Other => Done(s, ())
    case Put(props) =>
      if i >= |entities| then Crashed
      else
        var f := Find(s.ix.heap, s.ix.tracked, entities[i]);
        if f == |s.ix.tracked| then Done(s, ())
        else
          var r := s.ix.tracked[f];
          if !GoodPut(props) then Failed(s, BadReply)
          else if s.ix.heap[r].document.Null? then Crashed
          else
            SetOneWellFormed(s, r, props);
            Done(SetOne(s, r, props), ())
  }

  lemma SetOneWellFormed(s: Session, r: Ref, props: Fields)
    requires WellFormed(s.ix) && r < |s.ix.heap| && s.ix.heap[r].entity.Some? && s.ix.heap[r].document.Obj? && GoodPut(props)
    ensures WellFormed(SetOne(s, r, props).ix)
  {
    SetInfoWellFormed(s.ix, r, ReplyInfo(s.ix.heap[r], props));
    AddByIdWellFormed(SetInfo(s.ix, r, ReplyInfo(s.ix.heap[r], props)), r);
  }

  /** The loop over the first `count` results, from `i` on. */
  function SetFrom(s: Session, entities: seq<Entity>, count: nat, reply: seq<Reply>, i: nat): (o: Outcome<()>)
    requires WellFormed(s.ix) && i <= count
    ensures o.Done? ==> WellFormed(o.state.ix)
    decreases count - i
  {
    if i == count then Done(s, ())
    else if i >= |reply| then Crashed
    else
      var o := SetStep(s, entities, i, reply[i]);
      if o.Done? then SetFrom(o.state, entities, count, reply, i + 1) else o
  }

  function SetResult(s: Session, entities: seq<Entity>, count: nat, reply: seq<Reply>): (o: Outcome<()>)
    requires WellFormed(s.ix)
    ensures o.Done? ==> WellFormed(o.state.ix)
  {
    if reply == [] then Failed(s, EmptyReply) else SetFrom(s, entities, count, reply, 0)
  }

  /** The request of `createRequest`: nothing, or one more request with session commands before deferred ones. */
  function Request(p: Prepared, deferred: seq<Command>): Outcome<Option<Batch>> {
    match p
    case Panic => Crashed
    case Rejected(b, error) => Failed(b.s, error)
    case Ready(b) =>
      if b.commands + deferred == [] then Done(b.s, None)
      else
        var s' := b.s.(requests := b.s.requests + 1);
        if s'.requests > s'.maxRequests then Failed(s', TooManyRequests) else Done(s', Some(b.(s := s')))
  }

  ghost function CreateRequest(env: JsonChanges.Env, s: Session, order: seq<Entity>): Outcome<Option<Batch>>
    requires WellFormed(s.ix)
  {
    Request(Prepare(env, s, order), s.deferred)
  }

  /** What the server's reply to a request comes to. */
  ghost function Answered(o: Outcome<Option<Batch>>, reply: seq<Reply>): Outcome<()> {
    match o
    case Crashed => Crashed
    case Failed(t, error) => Failed(t, error)
    case Done(t, None) => Done(t, ())
    case Done(t, Some(b)) => if WellFormed(t.ix) then SetResult(t, b.entities, |b.commands|, reply) else Crashed
  }

  /** `SaveChanges` with the server's reply. */
  ghost function SaveChanges(env: JsonChanges.Env, s: Session, order: seq<Entity>, reply: seq<Reply>): Outcome<()>
    requires WellFormed(s.ix)
  {
    Answered(CreateRequest(env, s, order), reply)
  }

  /** The parts of a save that succeeds. */
  lemma AnsweredUnfold(p: Prepared, deferred: seq<Command>, reply: seq<Reply>)
    requires Answered(Request(p, deferred), reply).Done?
    ensures p.Ready?
    ensures var b := p.batch;
            if b.commands + deferred == [] then Answered(Request(p, deferred), reply) == Done(b.s, ())
            else WellFormed(b.s.ix) && Answered(Request(p, deferred), reply) == SetResult(b.s.(requests := b.s.requests + 1), b.entities, |b.commands|, reply)
  {
  }

  // ---- deletions: each removes exactly its own entry ------------------------------

  /** The tracked entry of an object. */
  function EntryOf(ix: Index, e: Entity): Info {
    if InHeap(ix.heap, ix.tracked) && Tracks(ix, e) then ix.heap[ix.tracked[Find(ix.heap, ix.tracked, e)]] else NO_INFO
  }

  predicate IsTracked(ix: Index, e: Entity) {
    InHeap(ix.heap, ix.tracked) && Tracks(ix, e)
  }

  function Drop(ix: Index, e: Entity): Index {
    if IsTracked(ix, e) then Forget(ix, e) else ix
  }

  function DropAll(ix: Index, es: seq<Entity>): Index
    decreases |es|
  {
    if es == [] then ix else DropAll(Drop(ix, es[0]), es[1..])
  }

  /** The index gives this object's entry back. */
  predicate IndexReturns(ix: Index, e: Entity) {
    && IsTracked(ix, e) && Text.Lower(EntryOf(ix, e).id) in ix.byId
    && At(ix, ix.byId[Text.Lower(EntryOf(ix, e).id)]).entity == Some(e)
  }

  /** The index returns each deleted object under its id, as it does for ordinary ids. */
  ghost predicate OwnDeletes(ix: Index, order: seq<Entity>) {
    forall e :: e in order && IsTracked(ix, e) ==> IndexReturns(ix, e)
  }

  lemma OrdinaryIsReturned(ix: Index, e: Entity)
    requires Inv(ix) && IsTracked(ix, e) && Ordinary(EntryOf(ix, e).id)
    ensures IndexReturns(ix, e)
  {
    assert Indexed(ix, ix.tracked[Find(ix.heap, ix.tracked, e)]);
  }

  function DelCommand(optimistic: bool, info: Info): Command {
    DeleteCommand(info.id, if optimistic then OrEmpty(info.changeVector) else "")
  }

  /** The entities deleted, in order, and their commands. */
  function Deleted(ix: Index, order: seq<Entity>): seq<Entity> {
    if order == [] then []
    else if IsTracked(ix, order[0]) then [order[0]] + Deleted(ix, order[1..])
    else Deleted(ix, order[1..])
  }

  function DeleteCommands(optimistic: bool, ix: Index, es: seq<Entity>): seq<Command> {
    if es == [] then [] else [DelCommand(optimistic, EntryOf(ix, es[0]))] + DeleteCommands(optimistic, ix, es[1..])
  }

  ghost predicate Distinct(es: seq<Entity>) {
    forall i, j :: 0 <= i < j < |es| ==> es[i] != es[j]
  }

  lemma DeleteStepEffect(pending: map<Key, Command>, b: Batch, e: Entity)
    requires Inv(b.s.ix) && IndexReturns(b.s.ix, e) && DeleteStep(pending, b, e).Ready?
    ensures DeleteStep(pending, b, e).batch
            == Batch(b.s.(ix := Drop(b.s.ix, e), deleted := {}),
                     b.commands + [DelCommand(b.s.optimistic, EntryOf(b.s.ix, e))], b.entities + [e])
  {
    IndexedEntityIsTracked(b.s.ix, Text.Lower(EntryOf(b.s.ix, e).id));
  }

  /** One turn deletes the object it was given exactly if the index returns that object's entry. */
  lemma DeleteHitsOwn(pending: map<Key, Command>, b: Batch, e: Entity)
    requires Inv(b.s.ix) && IsTracked(b.s.ix, e) && Key(EntryOf(b.s.ix, e).id, AnyCommand, "") !in pending
    ensures DeleteStep(pending, b, e).Ready? && DeleteStep(pending, b, e).batch.entities == b.entities + [e]
            <==> IndexReturns(b.s.ix, e)
    ensures Ordinary(EntryOf(b.s.ix, e).id) ==> IndexReturns(b.s.ix, e)
  {
    if Ordinary(EntryOf(b.s.ix, e).id) { OrdinaryIsReturned(b.s.ix, e); }
    var p := DeleteStep(pending, b, e);
    if p.Ready? && p.batch.entities == b.entities + [e] {
      assert p.batch.entities[|b.entities|] == e;
    }
  }

  /** A session after storing objects under one id, and the entries it has then. */
  function StoreNew(s: Session, e: Entity, id: string): Session
    requires WellFormed(s.ix)
  {
    var o := Store(s, e, "", id, Auto, map[]);
    if o.Done? then o.state else s
  }

  /** Under an id that ends in a slash every new object gets an entry; the index keeps its first one. */
  lemma StoreUnderSlash(s: Session, e: Entity, id: string)
    requires Inv(s.ix) && !IsTracked(s.ix, e) && e !in s.deleted && s.deferredMap == map[] && id != "" && !Ordinary(id)
    ensures var t := StoreNew(s, e, id); var k := Text.Lower(id); var r := |s.ix.heap|;
            && Inv(t.ix) && t.deleted == s.deleted - {e} && t.deferredMap == map[]
            && t.ix.heap == s.ix.heap + [StoredInfo(e, "", id, Auto, map[])] && t.ix.tracked == s.ix.tracked + [r]
            && t.ix.byId == if k in s.ix.byId then s.ix.byId else s.ix.byId[k := r]
  {
    StoreKeeps(s, e, "", id, Auto, map[]);
    AllocFind(s.ix, StoredInfo(e, "", id, Auto, map[]));
  }

  /** Two new objects stored under such an id, for instance "users/", the second one deleted: the save deletes the
      first. */
  lemma SharedIdDeletesOther(s: Session, e: Entity, e': Entity, id: string)
    requires Inv(s.ix) && s == NewSession(s.maxRequests, s.optimistic) && e != e' && id != "" && !Ordinary(id)
    ensures var s1 := StoreNew(s, e, id);
            && WellFormed(s1.ix) && WellFormed(StoreNew(s1, e', id).ix)
            && var b := Batch(StoreNew(s1, e', id), [], []);
               && Delete(b.s, e').Done?
               && DeleteStep(map[], b, e').Ready? && DeleteStep(map[], b, e').batch.entities == [e]
  {
    FirstUnderSlash(s, e, id);
    SecondDeletesFirst(StoreNew(s, e, id), e, e', id);
  }

  /** The session holds one object, new and under this id. */
  ghost predicate OneUnder(s: Session, e: Entity, id: string) {
    && Inv(s.ix) && s.deferredMap == map[] && s.deleted == {} && s.ix.tracked == [0]
    && |s.ix.heap| == 1 && s.ix.heap[0] == StoredInfo(e, "", id, Auto, map[])
    && Text.Lower(id) in s.ix.byId && s.ix.byId[Text.Lower(id)] == 0
  }

  lemma FirstUnderSlash(s: Session, e: Entity, id: string)
    requires Inv(s.ix) && s == NewSession(s.maxRequests, s.optimistic) && id != "" && !Ordinary(id)
    ensures OneUnder(StoreNew(s, e, id), e, id)
  {
    StoreUnderSlash(s, e, id);
  }

  lemma SecondDeletesFirst(s: Session, e: Entity, e': Entity, id: string)
    requires OneUnder(s, e, id) && e != e' && id != "" && !Ordinary(id)
    ensures WellFormed(StoreNew(s, e', id).ix)
    ensures var b := Batch(StoreNew(s, e', id), [], []);
            && Delete(b.s, e').Done?
            && DeleteStep(map[], b, e').Ready? && DeleteStep(map[], b, e').batch.entities == [e]
  {
    SecondUnderSlash(s, e, e', id);
    SharedId(StoreNew(s, e', id), e, e');
  }

  lemma SecondUnderSlash(s: Session, e: Entity, e': Entity, id: string)
    requires OneUnder(s, e, id) && e != e' && id != "" && !Ordinary(id)
    ensures var t := StoreNew(s, e', id);
            && Inv(t.ix) && t.ix.byId == s.ix.byId && |t.ix.tracked| == 2 && t.ix.tracked[1] == 1
            && |t.ix.heap| == 2 && t.ix.heap[0] == s.ix.heap[0] && t.ix.heap[1] == StoredInfo(e', "", id, Auto, map[])
  {
    OnlyOneTracked(s.ix, e, e');
    StoreUnderSlash(s, e', id);
    AppendedAt(s.ix.heap, StoredInfo(e', "", id, Auto, map[]));
    AppendedAt(s.ix.tracked, 1);
  }

  lemma AppendedAt<T>(a: seq<T>, x: T)
    requires |a| == 1
    ensures |a + [x]| == 2 && (a + [x])[0] == a[0] && (a + [x])[1] == x
  {
  }

  lemma OnlyOneTracked(ix: Index, e: Entity, e': Entity)
    requires InHeap(ix.heap, ix.tracked) && |ix.heap| == 1 && ix.tracked == [0] && ix.heap[0].entity == Some(e) && e != e'
    ensures !IsTracked(ix, e')
  {
    assert Find(ix.heap, ix.tracked, e') == 1;
  }

  /** Two objects share an id, and the index returns the first one's entry. */
  lemma SharedId(s: Session, e: Entity, e': Entity)
    requires Inv(s.ix) && |s.ix.tracked| == 2 && s.ix.tracked[1] == 1 && |s.ix.heap| == 2
    requires s.ix.heap[0].id == s.ix.heap[1].id && s.ix.heap[0].entity == Some(e) && s.ix.heap[1].entity == Some(e')
    requires Text.Lower(s.ix.heap[0].id) in s.ix.byId && s.ix.byId[Text.Lower(s.ix.heap[0].id)] == 0
    ensures Delete(s, e').Done?
    ensures var p := DeleteStep(map[], Batch(s, [], []), e'); p.Ready? && p.batch.entities == [e]
  {
    FindsOnly(s.ix, e', 1);
  }

  /** Dropping one object leaves the others as they were. */
  lemma DropOthers(ix: Index, e: Entity, x: Entity)
    requires Inv(ix)
    ensures Inv(Drop(ix, e))
    ensures IsTracked(Drop(ix, e), x) <==> x != e && IsTracked(ix, x)
    ensures x != e ==> EntryOf(Drop(ix, e), x) == EntryOf(ix, x)
  {
    if IsTracked(ix, e) {
      ForgetInv(ix, e);
      UntrackMembers(ix, e);
      var t := Forget(ix, e);
      if Tracks(ix, x) && x != e {
        var q := ix.tracked[Find(ix.heap, ix.tracked, x)];
        assert q in t.tracked;
        var j :| 0 <= j < |t.tracked| && t.tracked[j] == q;
        FindsOnly(t, x, j);
      }
      if Tracks(t, x) {
        var q := t.tracked[Find(t.heap, t.tracked, x)];
        assert q in t.tracked;
        var j :| 0 <= j < |ix.tracked| && ix.tracked[j] == q;
        FindsOnly(ix, x, j);
      }
    }
  }

  lemma {:induction false} DeletedFrame(ix: Index, e: Entity, order: seq<Entity>)
    requires Inv(ix) && e !in order
    ensures Deleted(Drop(ix, e), order) == Deleted(ix, order)
  {
    if order != [] {
      DropOthers(ix, e, order[0]);
      DeletedFrame(ix, e, order[1..]);
    }
  }

  lemma {:induction false} DeleteCommandsFrame(optimistic: bool, ix: Index, e: Entity, es: seq<Entity>)
    requires Inv(ix) && e !in es
    ensures DeleteCommands(optimistic, Drop(ix, e), es) == DeleteCommands(optimistic, ix, es)
  {
    if es != [] {
      DropOthers(ix, e, es[0]);
      DeleteCommandsFrame(optimistic, ix, e, es[1..]);
    }
  }

  lemma {:induction false} DeletedAmong(ix: Index, order: seq<Entity>, e: Entity)
    ensures e in Deleted(ix, order) <==> e in order && IsTracked(ix, e)
  {
    if order != [] {
      DeletedAmong(ix, order[1..], e);
      assert order == [order[0]] + order[1..];
    }
  }

  /** Dropping an object that the index returns leaves the others' keys alone. */
  lemma DropReturns(ix: Index, e: Entity, x: Entity)
    requires Inv(ix) && IndexReturns(ix, e) && x != e
    ensures IndexReturns(Drop(ix, e), x) <==> IndexReturns(ix, x)
  {
    DropOthers(ix, e, x);
    DropShape(ix, e);
    KeyStays(ix, Drop(ix, e), e, x);
  }

  lemma DropShape(ix: Index, e: Entity)
    requires IsTracked(ix, e)
    ensures Drop(ix, e).heap == ix.heap && Drop(ix, e).byId == ix.byId - {Text.Lower(EntryOf(ix, e).id)}
  {
  }

  lemma KeyStays(ix: Index, t: Index, e: Entity, x: Entity)
    requires IndexReturns(ix, e) && x != e && t.heap == ix.heap && t.byId == ix.byId - {Text.Lower(EntryOf(ix, e).id)}
    requires (IsTracked(t, x) <==> IsTracked(ix, x)) && EntryOf(t, x) == EntryOf(ix, x)
    ensures IndexReturns(t, x) <==> IndexReturns(ix, x)
  {
  }

  lemma OwnDeletesAfter(ix: Index, e: Entity, rest: seq<Entity>)
    requires Inv(ix) && e !in rest && (IsTracked(ix, e) ==> IndexReturns(ix, e))
    ensures OwnDeletes(ix, [e] + rest) <==> OwnDeletes(Drop(ix, e), rest)
  {
    forall x | x in rest
      ensures (IsTracked(ix, x) ==> IndexReturns(ix, x)) <==> (IsTracked(Drop(ix, e), x) ==> IndexReturns(Drop(ix, e), x))
    {
      DropOthers(ix, e, x);
      if IsTracked(ix, e) { DropReturns(ix, e, x); }
    }
    if OwnDeletes(ix, [e] + rest) {
      forall x | x in rest && IsTracked(Drop(ix, e), x) ensures IndexReturns(Drop(ix, e), x) { assert x in [e] + rest; }
    }
  }

  /** The delete loop in closed form: one entity and one command for each tracked object of the set. */
  ghost predicate DeleteEffect(b: Batch, order: seq<Entity>, b': Batch) {
    var es := Deleted(b.s.ix, order);
    && b'.s == b.s.(ix := DropAll(b.s.ix, order), deleted := if es == [] then b.s.deleted else {})
    && b'.commands == b.commands + DeleteCommands(b.s.optimistic, b.s.ix, es)
    && b'.entities == b.entities + es
  }

  /** The loop body for an object that is tracked, and for one that is not. */
  function AfterDelete(b: Batch, e: Entity): Batch {
    if IsTracked(b.s.ix, e) then
      Batch(b.s.(ix := Drop(b.s.ix, e), deleted := {}),
            b.commands + [DelCommand(b.s.optimistic, EntryOf(b.s.ix, e))], b.entities + [e])
    else b
  }

  lemma DeleteAllUnfold(pending: map<Key, Command>, b: Batch, order: seq<Entity>)
    requires Inv(b.s.ix) && order != [] && (IsTracked(b.s.ix, order[0]) ==> IndexReturns(b.s.ix, order[0])) && DeleteAll(pending, b, order).Ready?
    ensures WellFormed(AfterDelete(b, order[0]).s.ix)
    ensures DeleteAll(pending, b, order) == DeleteAll(pending, AfterDelete(b, order[0]), order[1..])
  {
    if IsTracked(b.s.ix, order[0]) { DeleteStepEffect(pending, b, order[0]); }
  }

  lemma DeleteEffectCons(b: Batch, e: Entity, rest: seq<Entity>, b': Batch)
    requires Inv(b.s.ix) && e !in rest
    ensures DeleteEffect(b, [e] + rest, b') <==> DeleteEffect(AfterDelete(b, e), rest, b')
  {
    assert ([e] + rest)[1..] == rest;
    if IsTracked(b.s.ix, e) {
      var ix := b.s.ix;
      var es := Deleted(ix, rest);
      DeletedFrame(ix, e, rest);
      DeletedAmong(ix, rest, e);
      DeleteCommandsFrame(b.s.optimistic, ix, e, es);
      assert ([e] + es)[1..] == es;
      Associate(b.commands, [DelCommand(b.s.optimistic, EntryOf(ix, e))], DeleteCommands(b.s.optimistic, ix, es));
      Associate(b.entities, [e], es);
    }
  }

  /** What every turn of the delete loop does, whatever the ids: commands and entities are appended, at most one
      entity for each command. */
  ghost predicate Grows(b: Batch, b': Batch) {
    && b.commands <= b'.commands && b.entities <= b'.entities
    && |b'.entities| - |b.entities| <= |b'.commands| - |b.commands|
  }

  lemma {:induction false} DeleteAllGrows(pending: map<Key, Command>, b: Batch, order: seq<Entity>)
    requires WellFormed(b.s.ix) && DeleteAll(pending, b, order).Ready?
    ensures Grows(b, DeleteAll(pending, b, order).batch)
    decreases |order|
  {
    if order != [] {
      var p := DeleteStep(pending, b, order[0]);
      DeleteAllGrows(pending, p.batch, order[1..]);
    }
  }

  lemma {:induction false} DeleteCommandsLength(optimistic: bool, ix: Index, es: seq<Entity>)
    ensures |DeleteCommands(optimistic, ix, es)| == |es|
  {
    if es != [] { DeleteCommandsLength(optimistic, ix, es[1..]); }
  }

  /** A turn that misses its object spoils the closed form for good. */
  lemma MissedDelete(pending: map<Key, Command>, b: Batch, e: Entity, rest: seq<Entity>)
    requires Inv(b.s.ix) && IsTracked(b.s.ix, e) && !IndexReturns(b.s.ix, e) && DeleteAll(pending, b, [e] + rest).Ready?
    ensures !DeleteEffect(b, [e] + rest, DeleteAll(pending, b, [e] + rest).batch)
  {
    assert ([e] + rest)[1..] == rest;
    var b' := DeleteAll(pending, b, [e] + rest).batch;
    var b1 := DeleteStep(pending, b, e).batch;
    DeleteAllGrows(pending, b1, rest);
    var es := Deleted(b.s.ix, [e] + rest);
    DeleteCommandsLength(b.s.optimistic, b.s.ix, es);
    assert (b.entities + es)[|b.entities|] == e;
    assert |b1.entities| > |b.entities| ==> b1.entities[|b.entities|] != e && b'.entities[|b.entities|] == b1.entities[|b.entities|];
  }

  lemma DeleteExactCons(b: Batch, e: Entity, rest: seq<Entity>, b': Batch)
    requires Inv(b.s.ix) && e !in rest && (IsTracked(b.s.ix, e) ==> IndexReturns(b.s.ix, e))
    requires DeleteEffect(AfterDelete(b, e), rest, b') <==> OwnDeletes(AfterDelete(b, e).s.ix, rest)
    ensures DeleteEffect(b, [e] + rest, b') <==> OwnDeletes(b.s.ix, [e] + rest)
  {
    OwnDeletesAfter(b.s.ix, e, rest);
    DeleteEffectCons(b, e, rest, b');
  }

  /** The loop ends in its closed form. */
  ghost predicate ClosedForm(pending: map<Key, Command>, b: Batch, order: seq<Entity>) {
    WellFormed(b.s.ix) && DeleteAll(pending, b, order).Ready? && DeleteEffect(b, order, DeleteAll(pending, b, order).batch)
  }

  /** The delete loop has its closed form exactly if the index returns every deleted object under its id. */
  lemma {:induction false} DeleteAllExact(pending: map<Key, Command>, b: Batch, order: seq<Entity>)
    requires Inv(b.s.ix) && Distinct(order) && DeleteAll(pending, b, order).Ready?
    ensures ClosedForm(pending, b, order) <==> OwnDeletes(b.s.ix, order)
    decreases |order|
  {
    if order != [] {
      var e, rest := DistinctCons(order);
      if IsTracked(b.s.ix, e) && !IndexReturns(b.s.ix, e) {
        MissedExact(pending, b, e, rest);
      } else {
        AfterDeleteReady(pending, b, e, rest);
        DeleteAllExact(pending, AfterDelete(b, e), rest);
        FoundExact(pending, b, e, rest);
      }
    }
  }

  lemma DistinctCons(order: seq<Entity>) returns (e: Entity, rest: seq<Entity>)
    requires Distinct(order) && order != []
    ensures order == [e] + rest && e !in rest && Distinct(rest) && |rest| < |order|
  {
    e, rest := order[0], order[1..];
  }

  lemma MissedExact(pending: map<Key, Command>, b: Batch, e: Entity, rest: seq<Entity>)
    requires Inv(b.s.ix) && IsTracked(b.s.ix, e) && !IndexReturns(b.s.ix, e) && DeleteAll(pending, b, [e] + rest).Ready?
    ensures !ClosedForm(pending, b, [e] + rest) && !OwnDeletes(b.s.ix, [e] + rest)
  {
    MissedDelete(pending, b, e, rest);
    assert e in [e] + rest;
  }

  lemma FoundExact(pending: map<Key, Command>, b: Batch, e: Entity, rest: seq<Entity>)
    requires Inv(b.s.ix) && e !in rest && (IsTracked(b.s.ix, e) ==> IndexReturns(b.s.ix, e)) && DeleteAll(pending, b, [e] + rest).Ready?
    requires ClosedForm(pending, AfterDelete(b, e), rest) <==> OwnDeletes(AfterDelete(b, e).s.ix, rest)
    ensures ClosedForm(pending, b, [e] + rest) <==> OwnDeletes(b.s.ix, [e] + rest)
  {
    AfterDeleteReady(pending, b, e, rest);
    DeleteExactCons(b, e, rest, DeleteAll(pending, AfterDelete(b, e), rest).batch);
  }

  lemma AfterDeleteReady(pending: map<Key, Command>, b: Batch, e: Entity, rest: seq<Entity>)
    requires Inv(b.s.ix) && (IsTracked(b.s.ix, e) ==> IndexReturns(b.s.ix, e)) && DeleteAll(pending, b, [e] + rest).Ready?
    ensures Inv(AfterDelete(b, e).s.ix) && DeleteAll(pending, b, [e] + rest) == DeleteAll(pending, AfterDelete(b, e), rest)
  {
    assert ([e] + rest)[1..] == rest;
    DeleteAllUnfold(pending, b, [e] + rest);
    DropOthers(b.s.ix, e, e);
  }

  // ---- deletions of any ids: what always holds -------------------------------------

  /** One turn keeps the invariant, also where it misses its object. */
  lemma DeleteStepInv(pending: map<Key, Command>, b: Batch, e: Entity)
    requires Inv(b.s.ix) && DeleteStep(pending, b, e).Ready?
    ensures Inv(DeleteStep(pending, b, e).batch.s.ix)
  {
    var ix := b.s.ix;
    if IsTracked(ix, e) {
      var k := Text.Lower(EntryOf(ix, e).id);
      var info := ix.heap[ix.byId[k]];
      if info.entity.Some? {
        IndexedEntityIsTracked(ix, k);
        ForgetInv(ix, info.entity.value);
      } else {
        UnindexInv(ix, info.id);
      }
    }
  }

  /** The state after the delete loop, whatever the ids: only the index and the deleted set change; either nothing
      was tracked of the set, or it is empty. */
  ghost predicate DeletesDone(b: Batch, order: seq<Entity>, b': Batch) {
    && Inv(b'.s.ix) && OnlyIndex(b.s, b'.s) && Grows(b, b')
    && (b'.s.deleted == {} || (b' == b && forall e :: e in order ==> !IsTracked(b.s.ix, e)))
    && (forall i :: |b.commands| <= i < |b'.commands| ==> b'.commands[i].typ.DeleteType?)
  }

  ghost predicate OnlyIndex(s: Session, s': Session) {
    s' == s.(ix := s.ix.(tracked := s'.ix.tracked, byId := s'.ix.byId), deleted := s'.deleted)
  }

  lemma DeleteStepDone(pending: map<Key, Command>, b: Batch, e: Entity)
    requires Inv(b.s.ix) && DeleteStep(pending, b, e).Ready?
    ensures DeletesDone(b, [e], DeleteStep(pending, b, e).batch)
  {
    DeleteStepInv(pending, b, e);
    DeleteStepShape(pending, b, e);
  }

  lemma DeleteStepShape(pending: map<Key, Command>, b: Batch, e: Entity)
    requires WellFormed(b.s.ix) && DeleteStep(pending, b, e).Ready?
    ensures var b' := DeleteStep(pending, b, e).batch;
            && OnlyIndex(b.s, b'.s) && Grows(b, b') && (b'.s.deleted == {} || (b' == b && !IsTracked(b.s.ix, e)))
            && (forall i :: |b.commands| <= i < |b'.commands| ==> b'.commands[i].typ.DeleteType?)
  {
  }

  lemma DeletesDoneCons(b: Batch, b1: Batch, b': Batch, e: Entity, rest: seq<Entity>)
    requires DeletesDone(b, [e], b1) && DeletesDone(b1, rest, b')
    ensures DeletesDone(b, [e] + rest, b')
  {
    forall x | x in [e] + rest && b' == b && b'.s.deleted != {} ensures !IsTracked(b.s.ix, x) {
      assert x in [e] || x in rest;
    }
  }

  lemma {:induction false} DeleteAllDone(pending: map<Key, Command>, b: Batch, order: seq<Entity>)
    requires Inv(b.s.ix) && DeleteAll(pending, b, order).Ready?
    ensures DeletesDone(b, order, DeleteAll(pending, b, order).batch)
    decreases |order|
  {
    if order != [] {
      var b1 := DeleteStep(pending, b, order[0]).batch;
      DeleteStepDone(pending, b, order[0]);
      DeleteAllDone(pending, b1, order[1..]);
      DeletesDoneCons(b, b1, DeleteAll(pending, b, order).batch, order[0], order[1..]);
      assert order == [order[0]] + order[1..];
    }
  }

  /** After the deletions exactly the other objects are tracked, each with its old entry. */
  lemma {:induction false} DropAllKeeps(ix: Index, order: seq<Entity>, x: Entity)
    requires Inv(ix)
    ensures Inv(DropAll(ix, order))
    ensures IsTracked(DropAll(ix, order), x) <==> IsTracked(ix, x) && x !in order
    ensures x !in order ==> EntryOf(DropAll(ix, order), x) == EntryOf(ix, x)
    decreases |order|
  {
    if order != [] {
      DropOthers(ix, order[0], x);
      DropAllKeeps(Drop(ix, order[0]), order[1..], x);
      assert order == [order[0]] + order[1..];
    }
  }

  // ---- puts: each changes exactly its own entry -----------------------------------

  ghost predicate IsPut(env: JsonChanges.Env, s: Session, r: Ref) {
    Verdict(env, s, At(s.ix, r)) == JsonChanges.Returned(true)
  }

  ghost function Puts(env: JsonChanges.Env, s: Session, refs: seq<Ref>): seq<Ref> {
    if refs == [] then []
    else if IsPut(env, s, refs[0]) then [refs[0]] + Puts(env, s, refs[1..])
    else Puts(env, s, refs[1..])
  }

  ghost predicate DistinctRefs(refs: seq<Ref>) {
    forall i, j :: 0 <= i < j < |refs| ==> refs[i] != refs[j]
  }

  lemma {:induction false} PutsAmong(env: JsonChanges.Env, s: Session, refs: seq<Ref>)
    ensures forall r :: r in Puts(env, s, refs) <==> r in refs && IsPut(env, s, r)
    ensures DistinctRefs(refs) ==> DistinctRefs(Puts(env, s, refs))
  {
    if refs != [] {
      PutsAmong(env, s, refs[1..]);
      assert refs == [refs[0]] + refs[1..];
    }
  }

  /** A put of one entry is invisible to the comparison of another. */
  lemma {:induction false} PutsFrame(env: JsonChanges.Env, s: Session, r: Ref, refs: seq<Ref>)
    requires r !in refs
    ensures Puts(env, s.(ix := PutIndex(s, r)), refs) == Puts(env, s, refs)
  {
    if refs != [] {
      IsPutFrame(env, s, r, refs[0]);
      PutsFrame(env, s, r, refs[1..]);
    }
  }

  lemma IsPutFrame(env: JsonChanges.Env, s: Session, r: Ref, q: Ref)
    requires r != q
    ensures IsPut(env, s.(ix := PutIndex(s, r)), q) <==> IsPut(env, s, q)
  {
    assert At(PutIndex(s, r), q) == At(s.ix, q);
  }

  function PutCommands(s: Session, puts: seq<Ref>): seq<Command> {
    if puts == [] then [] else [PutCommand(s, At(s.ix, puts[0]))] + PutCommands(s, puts[1..])
  }

  function PutEntities(ix: Index, puts: seq<Ref>): seq<Entity> {
    if puts == [] then [] else [EntityOf(At(ix, puts[0]))] + PutEntities(ix, puts[1..])
  }

  lemma {:induction false} PutListsLength(s: Session, puts: seq<Ref>)
    ensures |PutCommands(s, puts)| == |puts| == |PutEntities(s.ix, puts)|
  {
    if puts != [] { PutListsLength(s, puts[1..]); }
  }

  lemma {:induction false} PutCommandsAt(s: Session, puts: seq<Ref>, i: nat)
    requires i < |puts| == |PutCommands(s, puts)|
    ensures PutCommands(s, puts)[i] == PutCommand(s, At(s.ix, puts[i]))
  {
    PutCommandsNext(s, puts, i);
    if i > 0 { PutCommandsAt(s, puts[1..], i - 1); }
  }

  lemma PutCommandsNext(s: Session, puts: seq<Ref>, i: nat)
    requires i < |puts| == |PutCommands(s, puts)|
    ensures i == 0 ==> PutCommands(s, puts)[i] == PutCommand(s, At(s.ix, puts[i]))
    ensures i > 0 ==> |PutCommands(s, puts[1..])| == |puts| - 1 && PutCommands(s, puts)[i] == PutCommands(s, puts[1..])[i - 1]
  {
    PutCommandsUnfold(s, puts);
    ConsAt(PutCommand(s, At(s.ix, puts[0])), PutCommands(s, puts[1..]), i);
  }

  lemma PutCommandsUnfold(s: Session, puts: seq<Ref>)
    requires puts != []
    ensures PutCommands(s, puts) == [PutCommand(s, At(s.ix, puts[0]))] + PutCommands(s, puts[1..])
  {
  }

  lemma ConsAt<T>(x: T, rest: seq<T>, i: nat)
    requires i <= |rest|
    ensures ([x] + rest)[i] == if i == 0 then x else rest[i - 1]
  {
  }

  lemma {:induction false} PutEntitiesAt(ix: Index, puts: seq<Ref>, i: nat)
    requires i < |puts| == |PutEntities(ix, puts)|
    ensures PutEntities(ix, puts)[i] == EntityOf(At(ix, puts[i]))
  {
    if i > 0 { PutEntitiesAt(ix, puts[1..], i - 1); }
  }

  function PutKeys(ix: Index, puts: seq<Ref>): set<string> {
    if puts == [] then {} else OwnKey(At(ix, puts[0])) + PutKeys(ix, puts[1..])
  }

  lemma {:induction false} PutKeysMembers(ix: Index, puts: seq<Ref>, k: string)
    ensures k in PutKeys(ix, puts) <==> exists r :: r in puts && k in OwnKey(At(ix, r))
  {
    if puts != [] {
      PutKeysMembers(ix, puts[1..], k);
      assert puts == [puts[0]] + puts[1..];
    }
  }

  ghost predicate PutHeap(s: Session, puts: seq<Ref>, ix: Index) {
    && |ix.heap| == |s.ix.heap|
    && forall q: Ref :: q < |s.ix.heap| ==> At(ix, q) == if q in puts then PutInfo(s, At(s.ix, q)) else At(s.ix, q)
  }

  /** The session after the put loop. */
  ghost predicate PutState(s: Session, puts: seq<Ref>, s': Session) {
    && s' == s.(ix := s'.ix) && s'.ix == s.ix.(heap := s'.ix.heap, byId := s'.ix.byId)
    && s'.ix.byId == s.ix.byId - PutKeys(s.ix, puts)
    && PutHeap(s, puts, s'.ix)
  }

  /** The state, commands and entities after the put loop, in closed form. */
  ghost predicate PutEffect(b: Batch, puts: seq<Ref>, b': Batch) {
    && PutState(b.s, puts, b'.s)
    && b'.commands == b.commands + PutCommands(b.s, puts)
    && b'.entities == b.entities + PutEntities(b.s.ix, puts)
  }

  lemma {:induction false} PutAllEffect(env: JsonChanges.Env, pending: map<Key, Command>, b: Batch, refs: seq<Ref>)
    requires DistinctRefs(refs) && PutAll(env, pending, b, refs).Ready?
    ensures PutEffect(b, Puts(env, b.s, refs), PutAll(env, pending, b, refs).batch)
    decreases |refs|
  {
    if refs == [] {
      PutEffectNone(b);
    } else {
      DistinctTail(refs);
      PutAllCons(env, pending, b, refs);
      if IsPut(env, b.s, refs[0]) {
        PutAllEffect(env, pending, AfterPut(b, refs[0]), refs[1..]);
        PutAllPut(env, pending, b, refs, PutAll(env, pending, b, refs).batch);
      } else {
        PutAllEffect(env, pending, b, refs[1..]);
      }
    }
  }

  lemma DistinctTail(refs: seq<Ref>)
    requires DistinctRefs(refs) && refs != []
    ensures DistinctRefs(refs[1..]) && refs[0] !in refs[1..]
  {
  }

  lemma PutEffectNone(b: Batch)
    ensures PutEffect(b, [], b)
  {
    SubtractTwice(b.s.ix.byId, {}, {});
  }

  lemma PutAllPut(env: JsonChanges.Env, pending: map<Key, Command>, b: Batch, refs: seq<Ref>, b': Batch)
    requires refs != [] && refs[0] !in refs[1..] && IsPut(env, b.s, refs[0])
    requires PutEffect(AfterPut(b, refs[0]), Puts(env, AfterPut(b, refs[0]).s, refs[1..]), b')
    ensures PutEffect(b, Puts(env, b.s, refs), b')
  {
    var r, later := refs[0], Puts(env, b.s, refs[1..]);
    PutsFrame(env, b.s, r, refs[1..]);
    PutsAmong(env, b.s, refs[1..]);
    PutEffectCons(b, AfterPut(b, r), r, later, b');
    assert Puts(env, b.s, refs) == [r] + later;
  }

  function AfterPut(b: Batch, r: Ref): Batch {
    Batch(b.s.(ix := PutIndex(b.s, r)), b.commands + [PutCommand(b.s, At(b.s.ix, r))], b.entities + [EntityOf(At(b.s.ix, r))])
  }

  /** The loop over one more entry. */
  lemma PutAllCons(env: JsonChanges.Env, pending: map<Key, Command>, b: Batch, refs: seq<Ref>)
    requires refs != [] && PutAll(env, pending, b, refs).Ready?
    ensures var r, rest := refs[0], refs[1..];
            if IsPut(env, b.s, r) then PutAll(env, pending, b, refs) == PutAll(env, pending, AfterPut(b, r), rest) && Puts(env, b.s, refs) == [r] + Puts(env, b.s, rest)
            else PutAll(env, pending, b, refs) == PutAll(env, pending, b, rest) && Puts(env, b.s, refs) == Puts(env, b.s, rest)
  {
  }

  lemma PutEffectCons(b: Batch, b1: Batch, r: Ref, later: seq<Ref>, b': Batch)
    requires r !in later && PutEffect(b1, later, b')
    requires b1 == AfterPut(b, r)
    ensures PutEffect(b, [r] + later, b')
  {
    PutListsFrame(b.s, r, later);
    PutStateCons(b.s, b1.s, r, later, b'.s);
    assert ([r] + later)[1..] == later;
    Associate(b.commands, [PutCommand(b.s, At(b.s.ix, r))], PutCommands(b.s, later));
    Associate(b.entities, [EntityOf(At(b.s.ix, r))], PutEntities(b.s.ix, later));
  }

  lemma PutStateCons(s: Session, s1: Session, r: Ref, later: seq<Ref>, s': Session)
    requires r !in later && s1 == s.(ix := PutIndex(s, r)) && PutState(s1, later, s')
    ensures PutState(s, [r] + later, s')
  {
    PutHeapCons(s, s1, r, later, s'.ix);
    PutByIdCons(s, s1, r, later);
  }

  lemma {:induction false} PutListsFrame(s: Session, r: Ref, later: seq<Ref>)
    requires r !in later
    ensures PutCommands(s.(ix := PutIndex(s, r)), later) == PutCommands(s, later)
    ensures PutEntities(PutIndex(s, r), later) == PutEntities(s.ix, later)
  {
    if later != [] {
      PutCommandFrame(s, r, later[0]);
      PutListsFrame(s, r, later[1..]);
    }
  }

  lemma PutCommandFrame(s: Session, r: Ref, q: Ref)
    requires r != q
    ensures PutCommand(s.(ix := PutIndex(s, r)), At(PutIndex(s, r), q)) == PutCommand(s, At(s.ix, q))
    ensures EntityOf(At(PutIndex(s, r), q)) == EntityOf(At(s.ix, q))
  {
    assert At(PutIndex(s, r), q) == At(s.ix, q);
  }

  lemma PutHeapCons(s: Session, s1: Session, r: Ref, later: seq<Ref>, ix: Index)
    requires r !in later && s1 == s.(ix := PutIndex(s, r)) && PutHeap(s1, later, ix)
    ensures PutHeap(s, [r] + later, ix)
  {
    forall q: Ref | q < |s.ix.heap|
      ensures At(ix, q) == if q in [r] + later then PutInfo(s, At(s.ix, q)) else At(s.ix, q)
    {
      PutAtCons(s, s1, r, later, q, At(ix, q));
    }
  }

  lemma PutAtCons(s: Session, s1: Session, r: Ref, later: seq<Ref>, q: Ref, info: Info)
    requires r !in later && s1 == s.(ix := PutIndex(s, r)) && q < |s.ix.heap|
    requires info == if q in later then PutInfo(s1, At(s1.ix, q)) else At(s1.ix, q)
    ensures info == if q in [r] + later then PutInfo(s, At(s.ix, q)) else At(s.ix, q)
  {
  }

  lemma PutByIdCons(s: Session, s1: Session, r: Ref, later: seq<Ref>)
    requires r !in later && s1 == s.(ix := PutIndex(s, r))
    ensures s1.ix.byId - PutKeys(s1.ix, later) == s.ix.byId - PutKeys(s.ix, [r] + later)
  {
    PutKeysFrame(s, r, later);
    assert ([r] + later)[1..] == later;
    SubtractTwice(s.ix.byId, OwnKey(At(s.ix, r)), PutKeys(s.ix, later));
  }

  lemma {:induction false} PutKeysFrame(s: Session, r: Ref, later: seq<Ref>)
    requires r !in later
    ensures PutKeys(PutIndex(s, r), later) == PutKeys(s.ix, later)
  {
    if later != [] {
      assert At(PutIndex(s, r), later[0]) == At(s.ix, later[0]);
      PutKeysFrame(s, r, later[1..]);
    }
  }

  lemma SubtractTwice(m: map<string, Ref>, a: set<string>, b: set<string>)
    ensures (m - a) - b == m - (a + b)
    ensures m - {} == m
  {
  }
}
