/** Whole runs of a session: the invariant in every reachable state, and the identity map. */
module SessionRuns {
  import opened Wrappers
  import opened JsonDocs
  import opened SessionModel
  import opened SessionInvariant
  import opened SessionSave
  import opened SessionReply
  import opened SessionTheorems
  import opened WriteBackForm
  import JsonChanges
  import StringArray
  import Text

  datatype Op =
    | StoreOp(e: Entity, changeVector: string, id: string, mode: ConcurrencyCheck, metadata: Fields)
    | LoadOp(id: string, target: Target)
    | TrackOp(id: string, document: Json, metadata: Fields, vector: Option<string>, target: Target)
    | ReceiveOp(incoming: Incoming)
    | IncludeOp(incoming: Incoming)
    | DeleteOp(e: Entity)
    | DeleteByIDOp(id: string, expected: string)
    | EvictOp(e: Entity)
    | ModifyOp(e: Entity, body: Fields)
    | SaveOp(order: seq<Entity>, reply: seq<Reply>)

  function After<T>(o: Outcome<T>, s: Session): Session {
    match o
    case Done(t, _) => t
    case Failed(t, _) => t
    case Crashed => s
  }

  ghost function Step(env: JsonChanges.Env, s: Session, op: Op): Session
    requires WellFormed(s.ix)
  {
    match op
    case StoreOp(e, cv, id, mode, metadata) => After(Store(s, e, cv, id, mode, metadata), s)
    case LoadOp(id, target) => After(GetDocument(s, id, target), s)
    case TrackOp(id, document, metadata, cv, target) => After(TrackEntity(s, id, document, metadata, cv, target), s)
    case ReceiveOp(d) => s.(ix := Receive(s.ix, d))
    case IncludeOp(d) => s.(ix := Include(s.ix, d))
    case DeleteOp(e) => After(Delete(s, e), s)
    case DeleteByIDOp(id, expected) => After(DeleteByID(s, id, expected, ChangedUnder(env, s, id)), s)
    case EvictOp(e) => Evict(s, e)
    case ModifyOp(e, body) => Modify(s, e, body)
    case SaveOp(order, reply) => After(SaveChanges(env, s, order, reply), s)
  }

  /** What the environment owes: new objects are new, documents have ids, and saves succeed and are answered
      faithfully. */
  ghost predicate Legal(env: JsonChanges.Env, s: Session, op: Op)
    requires WellFormed(s.ix)
  {
    match op
    case LoadOp(_, target) => Fresh(s.ix, target)
    case TrackOp(_, document, _, _, target) => Fresh(s.ix, target) && IsDocument(document)
    case ReceiveOp(d) => d.id != "" && d.document.Obj?
    case IncludeOp(d) => d.id != "" && d.document.Obj?
    case SaveOp(order, reply) =>
      && (forall e :: e in order <==> e in s.deleted)
      && SaveChanges(env, s, order, reply).Done? && Faithful(Prepare(env, s, order).batch, reply)
    case _ => true
  }

  // ---- a save, as one step --------------------------------------------------------

  lemma {:induction false} SetFromRequests(s: Session, n: nat, entities: seq<Entity>, count: nat, reply: seq<Reply>, i: nat)
    requires WellFormed(s.ix) && i <= count && SetFrom(s, entities, count, reply, i).Done?
    ensures SetFrom(s.(requests := n), entities, count, reply, i)
            == Done(SetFrom(s, entities, count, reply, i).state.(requests := n), ())
    decreases count - i
  {
    if i < count {
      var o := SetStep(s, entities, i, reply[i]);
      SetStepRequests(s, n, entities, i, reply[i]);
      SetFromRequests(o.state, n, entities, count, reply, i + 1);
    }
  }

  lemma SetStepRequests(s: Session, n: nat, entities: seq<Entity>, i: nat, reply: Reply)
    requires WellFormed(s.ix) && SetStep(s, entities, i, reply).Done?
    ensures SetStep(s.(requests := n), entities, i, reply) == Done(SetStep(s, entities, i, reply).state.(requests := n), ())
  {
    if reply.Put? {
      var f := Find(s.ix.heap, s.ix.tracked, entities[i]);
      if f < |s.ix.tracked| { SetOneRequests(s, n, s.ix.tracked[f], reply.props); }
    }
  }

  lemma SetOneRequests(s: Session, n: nat, r: Ref, props: Fields)
    requires r < |s.ix.heap| && s.ix.heap[r].entity.Some? && s.ix.heap[r].document.Obj? && GoodPut(props)
    ensures SetOne(s.(requests := n), r, props) == SetOne(s, r, props).(requests := n)
  {
  }

  /** The count of requests takes no part in the write-back. */
  lemma RequestsBack(s: Session, n: nat, entities: seq<Entity>, count: nat, reply: seq<Reply>)
    requires WellFormed(s.ix) && SetResult(s.(requests := n), entities, count, reply).Done?
    ensures var t := SetResult(s.(requests := n), entities, count, reply).state;
            t.requests == n && reply != [] && SetResult(s, entities, count, reply) == Done(t.(requests := s.requests), ())
  {
    var u := s.(requests := n);
    SetFromRequests(u, s.requests, entities, count, reply, 0);
    SetFromRequests(u, n, entities, count, reply, 0);
    assert u.(requests := s.requests) == s && u.(requests := n) == u;
  }

  lemma SentOutcome(p: Plan, reply: seq<Reply>, n: nat)
    requires Planned(p) && Faithful(p.b, reply) && WellFormed(p.b.s.ix)
    requires SetResult(p.b.s.(requests := n), p.b.entities, |p.b.commands|, reply).Done?
    ensures SetResult(p.b.s.(requests := n), p.b.entities, |p.b.commands|, reply).state == Saved(p, reply).(requests := n)
  {
    RequestsBack(p.b.s, n, p.b.entities, |p.b.commands|, reply);
    WrittenExactly(p, reply);
    SaveKeepsInv(p, reply);
  }

  lemma NothingPut(p: Plan, reply: seq<Reply>)
    requires Planned(p) && p.b.commands == []
    ensures Saved(p, reply) == p.b.s
  {
    BatchLengths(p);
  }

  lemma PlanOutcome(p: Plan, deferred: seq<Command>, reply: seq<Reply>)
    requires Planned(p) && Faithful(p.b, reply) && Answered(Request(Ready(p.b), deferred), reply).Done?
    ensures var t := Answered(Request(Ready(p.b), deferred), reply).state; t == Saved(p, reply).(requests := t.requests)
  {
    AnsweredUnfold(Ready(p.b), deferred, reply);
    if p.b.commands + deferred == [] {
      NothingPut(p, reply);
    } else {
      SentOutcome(p, reply, p.b.s.requests + 1);
    }
  }

  /** A save that succeeds and is answered faithfully wrote its puts back in step. */
  lemma SaveOutcome(env: JsonChanges.Env, s: Session, order: seq<Entity>, reply: seq<Reply>)
    requires Inv(s.ix) && SaveChanges(env, s, order, reply).Done? && Faithful(Prepare(env, s, order).batch, reply)
    ensures var p := PlanOf(env, s, order); var t := SaveChanges(env, s, order, reply).state;
            Planned(p) && t == Saved(p, reply).(requests := t.requests)
  {
    var p := PlanOf(env, s, order);
    PlanExists(env, s, order);
    PlanOutcome(p, s.deferred, reply);
  }

  /** Such a save keeps the invariant. */
  lemma SaveKeeps(env: JsonChanges.Env, s: Session, order: seq<Entity>, reply: seq<Reply>)
    requires Inv(s.ix) && SaveChanges(env, s, order, reply).Done? && Faithful(Prepare(env, s, order).batch, reply)
    ensures Inv(SaveChanges(env, s, order, reply).state.ix)
  {
    var p := PlanOf(env, s, order);
    SaveOutcome(env, s, order, reply);
    FaithfulReplyFits(p, reply);
    SavedInv(p, reply);
  }

  lemma RequestSent(b: Batch, deferred: seq<Command>, reply: seq<Reply>)
    requires WellFormed(b.s.ix) && b.s.requests < b.s.maxRequests
    ensures Answered(Request(Ready(b), deferred), reply)
            == if b.commands + deferred == [] then Done(b.s, ())
               else SetResult(b.s.(requests := b.s.requests + 1), b.entities, |b.commands|, reply)
  {
  }

  lemma PlanSucceedsExactly(p: Plan, deferred: seq<Command>, reply: seq<Reply>)
    requires Planned(p) && Faithful(p.b, reply) && reply != [] && p.b.s.requests < p.b.s.maxRequests
    ensures var o := Answered(Request(Ready(p.b), deferred), reply); if InStep(p) then o.Done? else o.Crashed?
  {
    if InStep(p) { PlanSucceeds(p, deferred, reply); } else { PlanPanics(p, deferred, reply); }
  }

  lemma PlanSucceeds(p: Plan, deferred: seq<Command>, reply: seq<Reply>)
    requires Planned(p) && InStep(p) && Faithful(p.b, reply) && reply != [] && p.b.s.requests < p.b.s.maxRequests
    ensures Answered(Request(Ready(p.b), deferred), reply).Done?
  {
    SaveKeepsInv(p, reply);
    AnswerDone(p.b, deferred, reply);
  }

  /** A reply that can be written back makes the save succeed. */
  lemma AnswerDone(b: Batch, deferred: seq<Command>, reply: seq<Reply>)
    requires WellFormed(b.s.ix) && b.s.requests < b.s.maxRequests && SetResult(b.s, b.entities, |b.commands|, reply).Done?
    ensures Answered(Request(Ready(b), deferred), reply).Done?
  {
    RequestSent(b, deferred, reply);
    SetFromRequests(b.s, b.s.requests + 1, b.entities, |b.commands|, reply, 0);
  }

  lemma PlanPanics(p: Plan, deferred: seq<Command>, reply: seq<Reply>)
    requires Planned(p) && !InStep(p) && Faithful(p.b, reply) && p.b.s.requests < p.b.s.maxRequests
    ensures Answered(Request(Ready(p.b), deferred), reply).Crashed?
  {
    PlannedWellFormed(p);
    RequestSent(p.b, deferred, reply);
    NothingSentInStep(p, deferred);
    OutOfStepPanics(p, reply, p.b.s.(requests := p.b.s.requests + 1));
  }

  lemma PlannedWellFormed(p: Plan)
    requires Planned(p)
    ensures WellFormed(p.b.s.ix)
  {
    PutEffectSound(p.bd, p.puts, p.b);
  }

  lemma NothingSentInStep(p: Plan, deferred: seq<Command>)
    requires Lists(p)
    ensures p.b.commands + deferred == [] ==> InStep(p)
  {
    BatchLengths(p);
  }

  /** A prepared save that is answered faithfully, within the limit of requests, succeeds exactly if it puts nothing or
      every DELETE finds an entry that has an object; otherwise it panics after the server has carried it out. */
  lemma SaveSucceedsExactly(env: JsonChanges.Env, s: Session, order: seq<Entity>, reply: seq<Reply>)
    requires Inv(s.ix) && Prepare(env, s, order).Ready? && Faithful(Prepare(env, s, order).batch, reply)
    requires reply != [] && s.requests < s.maxRequests
    ensures var o := SaveChanges(env, s, order, reply);
            if AllFindObjects(s.ix, order) || PlanOf(env, s, order).puts == [] then o.Done? else o.Crashed?
  {
    PlanExists(env, s, order);
    InStepExactly(env, s, order);
    PlanSucceedsExactly(PlanOf(env, s, order), s.deferred, reply);
  }

  /** A legal save carries out its plan and ends in the saved session, up to the count of requests. */
  lemma SaveStep(env: JsonChanges.Env, s: Session, order: seq<Entity>, reply: seq<Reply>) returns (p: Plan)
    requires Inv(s.ix) && Legal(env, s, SaveOp(order, reply))
    ensures DeletePart(s, order) == Ready(p.bd) && DeletesDone(Cleared(s), order, p.bd)
    ensures Planned(p) && Faithful(p.b, reply) && ReplyFits(p, reply) && Inv(Saved(p, reply).ix)
    ensures var t := Step(env, s, SaveOp(order, reply));
            t.ix == Saved(p, reply).ix && t.deleted == p.bd.s.deleted && t.missing == s.missing
  {
    p := PlanOf(env, s, order);
    PlanExists(env, s, order);
    SaveOutcome(env, s, order, reply);
    FaithfulReplyFits(p, reply);
    SavedInv(p, reply);
    SavedRest(p, reply);
  }

  lemma SavedRest(p: Plan, reply: seq<Reply>)
    requires Planned(p) && ReplyFits(p, reply)
    ensures Saved(p, reply).deleted == p.bd.s.deleted && Saved(p, reply).missing == p.bd.s.missing
  {
    AnsweredSettable(p, reply);
    SetPutsRest(p.b.s, p.puts, PropsFor(p, reply));
  }

  // ---- the invariant over runs ----------------------------------------------------

  lemma StepKeepsInv(env: JsonChanges.Env, s: Session, op: Op)
    requires Inv(s.ix) && Legal(env, s, op)
    ensures Inv(Step(env, s, op).ix)
  {
    match op
    case StoreOp(e, cv, id, mode, metadata) => StoreKeeps(s, e, cv, id, mode, metadata);
    case LoadOp(id, target) => GetDocumentKeeps(s, id, target);
    case TrackOp(id, document, metadata, cv, target) => TrackEntityKeeps(s, id, document, metadata, cv, target);
    case ReceiveOp(d) => ReceiveKeeps(s.ix, d);
    case IncludeOp(d) => IncludeKeeps(s.ix, d);
    case DeleteOp(e) => DeleteKeeps(s, e);
    case DeleteByIDOp(id, expected) => DeleteByIDKeeps(s, id, expected, ChangedUnder(env, s, id));
    case EvictOp(e) => EvictKeeps(s, e);
    case ModifyOp(e, body) =>
    case SaveOp(order, reply) => var p := SaveStep(env, s, order, reply);
  }

  ghost function Run(env: JsonChanges.Env, s: Session, ops: seq<Op>): Option<Session>
    decreases |ops|
  {
    if ops == [] then Some(s)
    else if WellFormed(s.ix) && Legal(env, s, ops[0]) then Run(env, Step(env, s, ops[0]), ops[1..])
    else None
  }

  /** The index invariant holds in every state a legal run reaches. */
  lemma {:induction false} RunKeepsInv(env: JsonChanges.Env, s: Session, ops: seq<Op>)
    requires Inv(s.ix) && Run(env, s, ops).Some?
    ensures Inv(Run(env, s, ops).value.ix)
    decreases |ops|
  {
    if ops != [] {
      StepKeepsInv(env, s, ops[0]);
      RunKeepsInv(env, Step(env, s, ops[0]), ops[1..]);
    }
  }

  /** Batch alignment in every reachable state: the i-th entity is the object of the i-th command, every DELETE
      precedes every PUT, and no ordinary id occurs twice, ignoring case. */
  lemma ReachableBatchAligned(env: JsonChanges.Env, maxRequests: nat, optimistic: bool, ops: seq<Op>, order: seq<Entity>)
    requires Run(env, NewSession(maxRequests, optimistic), ops).Some?
    requires Saveable(env, Run(env, NewSession(maxRequests, optimistic), ops).value, order)
    ensures var t := Run(env, NewSession(maxRequests, optimistic), ops).value; var b := Prepare(env, t, order).batch;
            && Inv(t.ix) && |b.commands| == |b.entities|
            && (forall i :: 0 <= i < |b.commands| ==> Aligned(t, order, b.commands[i], b.entities[i]))
            && (forall i, j :: 0 <= i < j < |b.commands| && b.commands[j].typ.DeleteType? ==> b.commands[i].typ.DeleteType?)
            && (forall i, j :: 0 <= i < j < |b.commands| && Ordinary(b.commands[i].id) ==> !Text.EqualFold(b.commands[i].id, b.commands[j].id))
  {
    NewSessionInv(maxRequests, optimistic);
    RunKeepsInv(env, NewSession(maxRequests, optimistic), ops);
    var t := Run(env, NewSession(maxRequests, optimistic), ops).value;
    PlanOwned(env, t, order);
    var p := PlanOf(env, t, order);
    OwnedLengths(p, t, order);
    forall i | 0 <= i < |p.b.commands| ensures Aligned(t, order, p.b.commands[i], p.b.entities[i]) { CommandOwner(p, t, order, i); }
    forall i, j | 0 <= i < j < |p.b.commands| && p.b.commands[j].typ.DeleteType? ensures p.b.commands[i].typ.DeleteType? {
      CommandOwner(p, t, order, i);
      CommandOwner(p, t, order, j);
    }
    forall i, j | 0 <= i < j < |p.b.commands| && Ordinary(p.b.commands[i].id)
      ensures !Text.EqualFold(p.b.commands[i].id, p.b.commands[j].id)
    {
      BatchIdsDistinct(p, t, order, i, j);
    }
  }

  // ---- the identity map -----------------------------------------------------------

  /** The session holds the object under the id: indexed, not deleted, not known as missing. */
  ghost predicate Holds(s: Session, id: string, e: Entity)
    requires WellFormed(s.ix)
  {
    var k := Text.Lower(id);
    && Ordinary(id) && k in s.ix.byId && s.ix.heap[s.ix.byId[k]].entity == Some(e)
    && e !in s.deleted && !StringArray.ContainsNoCase(s.missing, id)
  }

  /** Operations that give the object up. */
  predicate GivesUp(op: Op, id: string, e: Entity) {
    match op
    case DeleteOp(x) => x == e
    case EvictOp(x) => x == e
    case DeleteByIDOp(i, _) => Text.EqualFold(i, id)
    case _ => false
  }

  /** A load of the id, in any letter case, gives the object, and so does a query result that carries the id; a
      variable the object does not fit gets an error, and nothing changes. */
  lemma LoadGivesHeld(s: Session, id: string, e: Entity, id': string, target: Target)
    requires Inv(s.ix) && Holds(s, id, e) && Text.EqualFold(id, id')
    ensures var o := GetDocument(s, id', target);
            if target.fits then o.Done? && o.value == Some(e) else o == Failed(s, WrongType)
    ensures forall document, metadata, vector ::
              var o := TrackEntity(s, id', document, metadata, vector, target);
              if target.fits then o.Done? && o.value == e else o == Failed(s, WrongType)
  {
  }

  /** The index finds the object under the key. */
  ghost predicate Finds(ix: Index, k: string, e: Entity) {
    k in ix.byId && ix.byId[k] < |ix.heap| && ix.heap[ix.byId[k]].entity == Some(e)
  }

  lemma HeldEntry(ix: Index, id: string, e: Entity)
    requires Inv(ix) && Ordinary(id) && Finds(ix, Text.Lower(id), e)
    ensures IsTracked(ix, e) && Text.Lower(EntryOf(ix, e).id) == Text.Lower(id) && Ordinary(EntryOf(ix, e).id)
  {
    IndexedEntityIsTracked(ix, Text.Lower(id));
    OrdinaryIgnoresCase(EntryOf(ix, e).id, id);
  }

  /** Another tracked object has another id. */
  lemma OtherId(ix: Index, id: string, e: Entity, x: Entity)
    requires Inv(ix) && Ordinary(id) && Finds(ix, Text.Lower(id), e) && IsTracked(ix, x) && x != e
    ensures Text.Lower(EntryOf(ix, x).id) != Text.Lower(id)
  {
    HeldEntry(ix, id, e);
    OrdinaryIdsDiffer(ix, e, x);
  }

  lemma MissingAppend(missing: seq<string>, x: string, id: string)
    requires !StringArray.ContainsNoCase(missing, id) && !Text.EqualFold(x, id)
    ensures !StringArray.ContainsNoCase(missing + [x], id)
  {
  }

  /** What must survive a step. */
  ghost predicate Kept(t: Session, id: string, e: Entity) {
    Finds(t.ix, Text.Lower(id), e) && e !in t.deleted && !StringArray.ContainsNoCase(t.missing, id)
  }

  lemma StoreHolds(s: Session, x: Entity, changeVector: string, id': string, mode: ConcurrencyCheck, metadata: Fields, id: string, e: Entity)
    requires WellFormed(s.ix) && Holds(s, id, e)
    ensures Kept(After(Store(s, x, changeVector, id', mode, metadata), s), id, e)
  {
    var o := Store(s, x, changeVector, id', mode, metadata);
    if Tracks(s.ix, x) {
      RestoreFinds(s, x, changeVector, mode, Text.Lower(id), e);
    } else if o.Done? {
      StoreNewHolds(s, x, changeVector, id', mode, metadata, id, e);
    } else {
      assert o.state == SetIdentity(s, x, id');
    }
  }

  lemma RestoreFinds(s: Session, x: Entity, changeVector: string, mode: ConcurrencyCheck, k: string, e: Entity)
    requires WellFormed(s.ix) && Finds(s.ix, k, e) && Tracks(s.ix, x)
    ensures var r := s.ix.tracked[Find(s.ix.heap, s.ix.tracked, x)];
            Finds(SetInfo(s.ix, r, Restored(s.ix.heap[r], changeVector, mode)), k, e)
  {
  }

  lemma StoreNewHolds(s: Session, x: Entity, changeVector: string, id': string, mode: ConcurrencyCheck, metadata: Fields, id: string, e: Entity)
    requires WellFormed(s.ix) && Holds(s, id, e)
    ensures Kept(StoreInUnitOfWork(ForgetMissing(SetIdentity(s, x, id'), id'), x, changeVector, id', mode, metadata), id, e)
  {
    var s2 := ForgetMissing(SetIdentity(s, x, id'), id');
    StoredMissing(SetIdentity(s, x, id'), id', id);
    StoredMissing(s2, id', id);
    StoreInUnitOfWorkFinds(s2, x, changeVector, id', mode, metadata, Text.Lower(id), e);
  }

  lemma StoredMissing(s: Session, id': string, id: string)
    requires !StringArray.ContainsNoCase(s.missing, id)
    ensures !StringArray.ContainsNoCase(ForgetMissing(s, id').missing, id)
  {
    StringArray.RemoveNoCaseContains(s.missing, id', id);
  }

  lemma StoreInUnitOfWorkFinds(s: Session, x: Entity, changeVector: string, id': string, mode: ConcurrencyCheck, metadata: Fields, k: string, e: Entity)
    requires WellFormed(s.ix) && Finds(s.ix, k, e)
    ensures Finds(StoreInUnitOfWork(s, x, changeVector, id', mode, metadata).ix, k, e)
  {
  }

  lemma FindsAddById(ix: Index, r: Ref, k: string, e: Entity)
    requires Finds(ix, k, e) && r < |ix.heap|
    ensures Finds(AddById(ix, r), k, e)
  {
  }

  lemma TrackNewFinds(ix: Index, info: Info, k: string, e: Entity)
    requires WellFormed(ix) && Finds(ix, k, e) && info.entity.Some?
    ensures InHeap(Alloc(ix, info).heap, ix.tracked)
    ensures Finds(Track(AddById(Alloc(ix, info), |ix.heap|), |ix.heap|), k, e)
  {
  }

  /** What tracking leaves alone. */
  ghost predicate Tracking(s: Session, t: Session, k: string, e: Entity) {
    Finds(t.ix, k, e) && t.deleted == s.deleted && t.missing == s.missing
  }

  lemma TrackEntryHolds(s: Session, ix: Index, r: Ref, target: Target, late: bool, k: string, e: Entity)
    requires WellFormed(ix) && Finds(s.ix, k, e) && Finds(ix, k, e) && r < |ix.heap|
    ensures Tracking(s, After(TrackEntry(s, ix, r, target, late), s), k, e)
  {
    if ix.heap[r].entity.None? && target.decoded.Some? { AdoptFinds(ix, r, target.decoded.value.e, k, e); }
  }

  lemma AdoptFinds(ix: Index, r: Ref, x: Entity, k: string, e: Entity)
    requires WellFormed(ix) && Finds(ix, k, e) && r < |ix.heap| && ix.heap[r].entity.None?
    ensures InHeap(Adopt(ix, r, x).heap, ix.tracked) && Finds(Track(Adopt(ix, r, x), r), k, e)
  {
  }

  lemma TrackIncludedHolds(s: Session, id': string, target: Target, k: string, e: Entity)
    requires WellFormed(s.ix) && Finds(s.ix, k, e) && id' in s.ix.included
    ensures var r := s.ix.included[id'];
            Tracking(s, After(TrackEntry(s, AddById(DropIncluded(s.ix, id'), r), r, target, true), s), k, e)
  {
    var d := DropIncluded(s.ix, id');
    FindsAddById(d, s.ix.included[id'], k, e);
    TrackEntryHolds(s, AddById(d, s.ix.included[id']), s.ix.included[id'], target, true, k, e);
  }

  lemma TrackHolds(s: Session, id': string, document: Json, metadata: Fields, changeVector: Option<string>, target: Target, k: string, e: Entity)
    requires WellFormed(s.ix) && Finds(s.ix, k, e)
    ensures Tracking(s, After(TrackEntity(s, id', document, metadata, changeVector, target), s), k, e)
  {
    if id' == "" {
    } else if Text.Lower(id') in s.ix.byId {
      TrackEntryHolds(s, DropIncluded(s.ix, id'), s.ix.byId[Text.Lower(id')], target, false, k, e);
    } else if id' in s.ix.included {
      TrackIncludedHolds(s, id', target, k, e);
    } else {
      TrackNewHolds(s, id', document, metadata, changeVector, target, k, e);
    }
  }

  lemma TrackNewHolds(s: Session, id': string, document: Json, metadata: Fields, changeVector: Option<string>, target: Target, k: string, e: Entity)
    requires WellFormed(s.ix) && Finds(s.ix, k, e) && id' != "" && Text.Lower(id') !in s.ix.byId && id' !in s.ix.included
    ensures Tracking(s, After(TrackEntity(s, id', document, metadata, changeVector, target), s), k, e)
  {
    if target.decoded.Some? {
      TrackNewFinds(s.ix, Info(id', changeVector, Auto, false, metadata, document, Some(target.decoded.value.e), false, ""), k, e);
    }
  }

  lemma LoadHolds(s: Session, id': string, target: Target, k: string, e: Entity)
    requires WellFormed(s.ix) && Finds(s.ix, k, e)
    ensures Tracking(s, After(GetDocument(s, id', target), s), k, e)
  {
    var j := Text.Lower(id');
    if j in s.ix.byId || id' in s.ix.included {
      var info := s.ix.heap[if j in s.ix.byId then s.ix.byId[j] else s.ix.included[id']];
      TrackHolds(s, info.id, info.document, info.metadata, info.changeVector, target, k, e);
    }
  }

  /** Deleting other objects, under whatever ids, keeps the object in the index. */
  lemma DeleteStepFinds(pending: map<Key, Command>, b: Batch, x: Entity, id: string, e: Entity)
    requires Inv(b.s.ix) && Ordinary(id) && Finds(b.s.ix, Text.Lower(id), e) && x != e && DeleteStep(pending, b, x).Ready?
    ensures Finds(DeleteStep(pending, b, x).batch.s.ix, Text.Lower(id), e)
  {
    var ix := b.s.ix;
    if IsTracked(ix, x) {
      OtherId(ix, id, e, x);
      var info := ix.heap[ix.byId[Text.Lower(EntryOf(ix, x).id)]];
      FindsRemove(if info.entity.Some? then Untrack(ix, info.entity.value) else ix, info.id, Text.Lower(id), e);
    }
  }

  lemma {:induction false} DeleteAllFinds(pending: map<Key, Command>, b: Batch, order: seq<Entity>, id: string, e: Entity)
    requires Inv(b.s.ix) && Ordinary(id) && Finds(b.s.ix, Text.Lower(id), e) && e !in order && DeleteAll(pending, b, order).Ready?
    ensures Finds(DeleteAll(pending, b, order).batch.s.ix, Text.Lower(id), e)
    decreases |order|
  {
    if order != [] {
      DeleteStepFinds(pending, b, order[0], id, e);
      DeleteStepInv(pending, b, order[0]);
      DeleteAllFinds(pending, DeleteStep(pending, b, order[0]).batch, order[1..], id, e);
    }
  }

  lemma SaveHolds(env: JsonChanges.Env, s: Session, order: seq<Entity>, reply: seq<Reply>, id: string, e: Entity)
    requires Inv(s.ix) && Legal(env, s, SaveOp(order, reply)) && Holds(s, id, e)
    ensures var t := Step(env, s, SaveOp(order, reply));
            Finds(t.ix, Text.Lower(id), e) && e !in t.deleted && t.missing == s.missing
  {
    var p := SaveStep(env, s, order, reply);
    DeleteAllFinds(s.deferredMap, Cleared(s), order, id, e);
    SavedHolds(p, reply, id, e);
  }

  /** The write-back keeps what the index found after the delete loop. */
  lemma SavedHolds(p: Plan, reply: seq<Reply>, id: string, e: Entity)
    requires Planned(p) && ReplyFits(p, reply) && Faithful(p.b, reply) && Inv(Saved(p, reply).ix)
    requires Ordinary(id) && Finds(p.bd.s.ix, Text.Lower(id), e)
    ensures Finds(Saved(p, reply).ix, Text.Lower(id), e)
  {
    var ix := p.bd.s.ix;
    HeldEntry(ix, id, e);
    var r := ix.tracked[Find(ix.heap, ix.tracked, e)];
    SavedEntity(p, reply, r);
    AnsweredSettable(p, reply);
    SavedKey(p, reply, r);
    SavedFinds(p, reply, r, id, e);
  }

  /** The reply to the PUT of an ordinary id carries that id, up to letter case ... */
  lemma PutKey(p: Plan, reply: seq<Reply>, m: nat)
    requires Lists(p) && Faithful(p.b, reply) && |p.bd.commands| <= m < |p.bd.commands| + |p.puts| && Ordinary(At(p.bd.s.ix, p.puts[m - |p.bd.commands|]).id)
    ensures m < |reply| && NewKey(PropsOf(reply[m])) == Text.Lower(At(p.bd.s.ix, p.puts[m - |p.bd.commands|]).id)
  {
    PutCommandAt(p, m);
    assert AnswersPut(p.b, m, reply[m]);
  }

  /** ... and the entry gets the id of the reply. */
  lemma PutId(s: Session, puts: seq<Ref>, props: seq<Fields>, i: nat, key: string)
    requires Settable(s.ix, puts, props) && i < |puts| && NewKey(props[i]) == key
    ensures Text.Lower(At(SetPuts(s, puts, props).ix, puts[i]).id) == key
  {
    SetPutsAt(s, puts, props, i);
  }

  lemma SavedId(p: Plan, reply: seq<Reply>, m: nat)
    requires |p.bd.commands| <= m < |p.bd.commands| + |p.puts| <= |reply| && Settable(p.b.s.ix, p.puts, PropsFor(p, reply))
    ensures Text.Lower(At(Saved(p, reply).ix, p.puts[m - |p.bd.commands|]).id) == NewKey(PropsOf(reply[m]))
  {
    var i := m - |p.bd.commands|;
    PropsAt(p, reply, i);
    PutId(p.b.s, p.puts, PropsFor(p, reply), i, NewKey(PropsOf(reply[m])));
  }

  lemma PutIndexOf(p: Plan, r: Ref) returns (m: nat)
    requires r in p.puts
    ensures |p.bd.commands| <= m < |p.bd.commands| + |p.puts| && p.puts[m - |p.bd.commands|] == r
  {
    var i :| 0 <= i < |p.puts| && p.puts[i] == r;
    m := |p.bd.commands| + i;
  }

  /** An ordinary id survives a save, up to letter case. */
  lemma SavedKey(p: Plan, reply: seq<Reply>, r: Ref)
    requires Lists(p) && PutState(p.bd.s, p.puts, p.b.s) && Settable(p.b.s.ix, p.puts, PropsFor(p, reply)) && |p.bd.commands| + |p.puts| <= |reply|
    requires Faithful(p.b, reply) && r < |p.bd.s.ix.heap| && Ordinary(At(p.bd.s.ix, r).id)
    ensures Text.Lower(At(Saved(p, reply).ix, r).id) == Text.Lower(At(p.bd.s.ix, r).id)
  {
    if r in p.puts {
      var m := PutIndexOf(p, r);
      PutKey(p, reply, m);
      SavedId(p, reply, m);
    } else {
      SetPutsFrame(p.b.s, p.puts, PropsFor(p, reply), r);
      assert At(p.b.s.ix, r) == At(p.bd.s.ix, r);
    }
  }

  lemma SavedFinds(p: Plan, reply: seq<Reply>, r: Ref, id: string, e: Entity)
    requires Planned(p) && ReplyFits(p, reply) && Inv(Saved(p, reply).ix) && r in p.bd.s.ix.tracked && Ordinary(id)
    requires At(Saved(p, reply).ix, r).entity == Some(e)
    requires Text.Lower(At(Saved(p, reply).ix, r).id) == Text.Lower(id)
    ensures Finds(Saved(p, reply).ix, Text.Lower(id), e)
  {
    var ix := Saved(p, reply).ix;
    AnsweredSettable(p, reply);
    SetPutsRest(p.b.s, p.puts, PropsFor(p, reply));
    OrdinaryIgnoresCase(At(ix, r).id, id);
    assert r in ix.tracked;
    var i :| 0 <= i < |ix.tracked| && ix.tracked[i] == r;
    assert Indexed(ix, ix.tracked[i]);
  }

  /** Every operation that does not give the object up keeps it under its id. */
  lemma StepHolds(env: JsonChanges.Env, s: Session, op: Op, id: string, e: Entity)
    requires Inv(s.ix) && Legal(env, s, op) && Holds(s, id, e) && !GivesUp(op, id, e)
    ensures Inv(Step(env, s, op).ix) && Holds(Step(env, s, op), id, e)
  {
    var k := Text.Lower(id);
    StepKeepsInv(env, s, op);
    match op
    case StoreOp(x, cv, i, mode, metadata) => StoreHolds(s, x, cv, i, mode, metadata, id, e);
    case LoadOp(i, target) => LoadHolds(s, i, target, k, e);
    case TrackOp(i, document, metadata, cv, target) => TrackHolds(s, i, document, metadata, cv, target, k, e);
    case ReceiveOp(d) => ReceiveHolds(s.ix, d, k, e);
    case IncludeOp(d) => ReceiveHolds(s.ix, d, k, e);
    case DeleteOp(x) => DeleteHolds(s, x, id, e);
    case DeleteByIDOp(i, expected) => DeleteByIDHolds(s, i, expected, ChangedUnder(env, s, i), id, e);
    case EvictOp(x) => EvictHolds(s, x, id, e);
    case ModifyOp(x, body) =>
    case SaveOp(order, reply) => SaveHolds(env, s, order, reply, id, e);
  }

  lemma DeleteHolds(s: Session, x: Entity, id: string, e: Entity)
    requires Inv(s.ix) && Holds(s, id, e) && x != e
    ensures Kept(After(Delete(s, x), s), id, e)
  {
    if IsTracked(s.ix, x) {
      OtherId(s.ix, id, e, x);
      MissingAppend(s.missing, EntryOf(s.ix, x).id, id);
    }
  }

  lemma DeleteByIDHolds(s: Session, i: string, expected: string, changed: JsonChanges.Outcome, id: string, e: Entity)
    requires WellFormed(s.ix) && Holds(s, id, e) && !Text.EqualFold(i, id)
    ensures Kept(After(DeleteByID(s, i, expected, changed), s), id, e)
  {
    MissingAppend(s.missing, i, id);
    FindsRemove(s.ix, i, Text.Lower(id), e);
    if Text.Lower(i) in s.ix.byId && s.ix.heap[s.ix.byId[Text.Lower(i)]].entity.Some? {
      FindsRemove(Untrack(s.ix, s.ix.heap[s.ix.byId[Text.Lower(i)]].entity.value), i, Text.Lower(id), e);
    }
  }

  lemma FindsRemove(ix: Index, i: string, k: string, e: Entity)
    requires Finds(ix, k, e) && Text.Lower(i) != k
    ensures Finds(RemoveById(ix, i), k, e)
  {
  }

  lemma EvictHolds(s: Session, x: Entity, id: string, e: Entity)
    requires Inv(s.ix) && Holds(s, id, e) && x != e
    ensures Kept(Evict(s, x), id, e)
  {
    if IsTracked(s.ix, x) {
      OtherId(s.ix, id, e, x);
      FindsRemove(Untrack(s.ix, x), EntryOf(s.ix, x).id, Text.Lower(id), e);
    }
  }

  lemma ReceiveHolds(ix: Index, d: Incoming, k: string, e: Entity)
    requires Finds(ix, k, e)
    ensures Finds(Receive(ix, d), k, e) && Finds(Include(ix, d), k, e)
  {
  }

  ghost predicate NeverGivenUp(ops: seq<Op>, id: string, e: Entity) {
    forall i :: 0 <= i < |ops| ==> !GivesUp(ops[i], id, e)
  }

  lemma NeverLater(ops: seq<Op>, id: string, e: Entity)
    requires NeverGivenUp(ops, id, e) && ops != []
    ensures !GivesUp(ops[0], id, e) && NeverGivenUp(ops[1..], id, e)
  {
  }

  lemma RunFirst(env: JsonChanges.Env, s: Session, ops: seq<Op>)
    requires ops != [] && Run(env, s, ops).Some?
    ensures WellFormed(s.ix) && Legal(env, s, ops[0]) && Run(env, s, ops) == Run(env, Step(env, s, ops[0]), ops[1..])
  {
  }

  /** Every load of the id, in any letter case, gives the object, or the type error that changes nothing. */
  ghost predicate EveryLoadGives(t: Session, id: string, e: Entity)
    requires WellFormed(t.ix)
  {
    forall id', target: Target :: Text.EqualFold(id, id') ==> LoadGives(t, id', target, e)
  }

  ghost predicate LoadGives(t: Session, id': string, target: Target, e: Entity)
    requires WellFormed(t.ix)
  {
    var o := GetDocument(t, id', target);
    if target.fits then o.Done? && o.value == Some(e) else o == Failed(t, WrongType)
  }

  lemma HeldIsLoaded(s: Session, id: string, e: Entity)
    requires Inv(s.ix) && Holds(s, id, e)
    ensures EveryLoadGives(s, id, e)
  {
    forall id', target: Target | Text.EqualFold(id, id') ensures LoadGives(s, id', target, e) {
      LoadGivesHeld(s, id, e, id', target);
    }
  }

  /** Identity map: between evictions and deletions of the object, every load of its id in any letter
      case gives the same object, whatever the server and its includes deliver in the meantime. */
  lemma {:induction false} IdentityMap(env: JsonChanges.Env, s: Session, ops: seq<Op>, id: string, e: Entity)
    requires Inv(s.ix) && Holds(s, id, e) && Run(env, s, ops).Some?
    requires NeverGivenUp(ops, id, e)
    ensures var t := Run(env, s, ops).value;
            Inv(t.ix) && Holds(t, id, e) && EveryLoadGives(t, id, e)
    decreases |ops|
  {
    if ops == [] {
      HeldIsLoaded(s, id, e);
    } else {
      RunFirst(env, s, ops);
      NeverLater(ops, id, e);
      StepHolds(env, s, ops[0], id, e);
      IdentityMap(env, Step(env, s, ops[0]), ops[1..], id, e);
    }
  }
}
