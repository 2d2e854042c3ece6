/** Main results about one save: alignment, distinct ids, the invariant across the reply. */
module SessionTheorems {
  import opened Wrappers
  import opened JsonDocs
  import opened SessionModel
  import opened SessionInvariant
  import opened SessionSave
  import opened SessionReply
  import JsonChanges
  import Text

  /** A prepared save: the batch after the delete loop, the entries put after it, and the whole batch. */
  datatype Plan = Plan(bd: Batch, puts: seq<Ref>, b: Batch)

  ghost predicate Planned(p: Plan) {
    && Inv(p.bd.s.ix) && Lists(p) && PutState(p.bd.s, p.puts, p.b.s)
    && DistinctRefs(p.puts) && (forall r :: r in p.puts ==> r in p.bd.s.ix.tracked)
    && AllDeletes(p.bd.commands) && |p.bd.entities| <= |p.bd.commands|
  }

  /** Commands and entities: the deletes, then the puts. */
  ghost predicate Lists(p: Plan) {
    && p.b.entities == p.bd.entities + PutEntities(p.bd.s.ix, p.puts)
    && p.b.commands == p.bd.commands + PutCommands(p.bd.s, p.puts)
  }

  ghost predicate AllDeletes(commands: seq<Command>) {
    forall i :: 0 <= i < |commands| ==> commands[i].typ.DeleteType?
  }

  /** The puts stand at the same positions in both lists. */
  predicate InStep(p: Plan) {
    |p.bd.entities| == |p.bd.commands| || p.puts == []
  }

  ghost function PlanOf(env: JsonChanges.Env, s: Session, order: seq<Entity>): Plan
    requires WellFormed(s.ix) && Prepare(env, s, order).Ready?
  {
    var bd := DeletePart(s, order).batch;
    Plan(bd, Puts(env, bd.s, bd.s.ix.tracked), Prepare(env, s, order).batch)
  }

  /** Every save that can be prepared has its plan, whatever the ids of the deleted objects. */
  lemma PlanExists(env: JsonChanges.Env, s: Session, order: seq<Entity>)
    requires Inv(s.ix) && Prepare(env, s, order).Ready?
    ensures Planned(PlanOf(env, s, order)) && DeletesDone(Cleared(s), order, PlanOf(env, s, order).bd)
  {
    DeleteAllDone(s.deferredMap, Cleared(s), order);
    var bd := DeletePart(s, order).batch;
    TrackedDistinct(bd.s.ix);
    PutAllEffect(env, s.deferredMap, bd, bd.s.ix.tracked);
    PutsAmong(env, bd.s, bd.s.ix.tracked);
  }

  lemma BatchLengths(p: Plan)
    requires Lists(p)
    ensures |p.b.commands| == |p.bd.commands| + |p.puts| && |p.b.entities| == |p.bd.entities| + |p.puts|
  {
    PutListsLength(p.bd.s, p.puts);
  }

  /** The batch at the position of a delete, and of a put. */
  lemma DeleteAt(p: Plan, i: nat)
    requires Lists(p) && i < |p.bd.commands|
    ensures i < |p.b.commands| && p.b.commands[i] == p.bd.commands[i]
  {
  }

  lemma PutAt(p: Plan, k: nat)
    requires Lists(p) && k < |p.puts|
    ensures |p.b.commands| == |p.bd.commands| + |p.puts| && |p.b.entities| == |p.bd.entities| + |p.puts|
    ensures p.b.entities[|p.bd.entities| + k] == EntityOf(At(p.bd.s.ix, p.puts[k]))
    ensures p.b.commands[|p.bd.commands| + k] == PutCommand(p.bd.s, At(p.bd.s.ix, p.puts[k]))
  {
    PutListsLength(p.bd.s, p.puts);
    PutCommandsAt(p.bd.s, p.puts, k);
    PutEntitiesAt(p.bd.s.ix, p.puts, k);
  }

  lemma PutCommandAt(p: Plan, i: nat)
    requires Lists(p) && |p.bd.commands| <= i < |p.bd.commands| + |p.puts|
    ensures i < |p.b.commands| && p.b.commands[i] == PutCommand(p.bd.s, At(p.bd.s.ix, p.puts[i - |p.bd.commands|]))
  {
    PutAt(p, i - |p.bd.commands|);
  }

  // ---- entries and their objects --------------------------------------------------

  /** Different tracked objects with ordinary ids have ids that differ beyond letter case. */
  lemma OrdinaryIdsDiffer(ix: Index, e: Entity, e': Entity)
    requires Inv(ix) && IsTracked(ix, e) && IsTracked(ix, e') && e != e' && Ordinary(EntryOf(ix, e).id)
    ensures Text.Lower(EntryOf(ix, e).id) != Text.Lower(EntryOf(ix, e').id)
  {
    assert Indexed(ix, ix.tracked[Find(ix.heap, ix.tracked, e)]);
    assert Indexed(ix, ix.tracked[Find(ix.heap, ix.tracked, e')]);
    if Text.Lower(EntryOf(ix, e).id) == Text.Lower(EntryOf(ix, e').id) {
      OrdinaryIgnoresCase(EntryOf(ix, e).id, EntryOf(ix, e').id);
    }
  }

  lemma EntryOfRef(ix: Index, r: Ref)
    requires WellFormed(ix) && DistinctEntities(ix) && r in ix.tracked
    ensures IsTracked(ix, EntityOf(At(ix, r))) && EntryOf(ix, EntityOf(At(ix, r))) == At(ix, r)
    ensures ix.tracked[Find(ix.heap, ix.tracked, EntityOf(At(ix, r)))] == r
    ensures At(ix, r).entity == Some(EntityOf(At(ix, r)))
  {
  }

  lemma PutRefsByEntity(ix: Index, r: Ref, q: Ref)
    requires WellFormed(ix) && DistinctEntities(ix) && r in ix.tracked && q in ix.tracked && r != q
    ensures EntityOf(At(ix, r)) != EntityOf(At(ix, q))
  {
  }

  /** Two tracked entries with an ordinary id have keys of their own. */
  lemma RefIdsDiffer(ix: Index, r: Ref, q: Ref)
    requires Inv(ix) && r in ix.tracked && q in ix.tracked && r != q && Ordinary(At(ix, r).id)
    ensures Text.Lower(At(ix, r).id) != Text.Lower(At(ix, q).id)
  {
    EntryOfRef(ix, r);
    EntryOfRef(ix, q);
    PutRefsByEntity(ix, r, q);
    OrdinaryIdsDiffer(ix, EntityOf(At(ix, r)), EntityOf(At(ix, q)));
  }

  // ---- the write-back is the sequence of SetOne -----------------------------------

  lemma {:induction false} FindStable(h: seq<Info>, h': seq<Info>, tracked: seq<Ref>, e: Entity)
    requires |h| == |h'| && InHeap(h, tracked) && forall r :: 0 <= r < |h| ==> h'[r].entity == h[r].entity
    ensures InHeap(h', tracked) && Find(h', tracked, e) == Find(h, tracked, e)
  {
  }

  /** The object's tracked entry is `r`, and a PUT can be written back to it. */
  ghost predicate Located(ix: Index, e: Entity, r: Ref) {
    IsTracked(ix, e) && ix.tracked[Find(ix.heap, ix.tracked, e)] == r && Writable(ix, r)
  }

  /** From position `i` on, the reply answers puts whose entries are `puts`, in order. */
  ghost predicate PutTail(s: Session, entities: seq<Entity>, reply: seq<Reply>, i: nat, puts: seq<Ref>, props: seq<Fields>) {
    && WellFormed(s.ix) && DistinctRefs(puts) && |puts| == |props|
    && i + |puts| <= |reply| && i + |puts| <= |entities|
    && (forall m :: i <= m < i + |puts| ==> Located(s.ix, entities[m], puts[m - i]))
    && Replies(reply, i, props)
  }

  ghost predicate Replies(reply: seq<Reply>, i: nat, props: seq<Fields>)
    requires i + |props| <= |reply|
  {
    forall m :: i <= m < i + |props| ==> reply[m] == Put(props[m - i]) && GoodPut(props[m - i])
  }

  lemma LocatedFrame(s: Session, r: Ref, props: Fields, e: Entity, q: Ref)
    requires WellFormed(s.ix) && Writable(s.ix, r) && GoodPut(props) && Located(s.ix, e, q)
    ensures Located(SetOne(s, r, props).ix, e, q)
  {
    var t := SetOne(s, r, props);
    assert forall x :: 0 <= x < |s.ix.heap| ==> t.ix.heap[x].entity == s.ix.heap[x].entity;
    FindStable(s.ix.heap, t.ix.heap, s.ix.tracked, e);
  }

  lemma PutTailStep(s: Session, entities: seq<Entity>, reply: seq<Reply>, i: nat, puts: seq<Ref>, props: seq<Fields>)
    requires puts != [] && PutTail(s, entities, reply, i, puts, props)
    ensures Writable(s.ix, puts[0]) && GoodPut(props[0])
    ensures SetStep(s, entities, i, reply[i]) == Done(SetOne(s, puts[0], props[0]), ())
    ensures PutTail(SetOne(s, puts[0], props[0]), entities, reply, i + 1, puts[1..], props[1..])
  {
    assert Located(s.ix, entities[i], puts[i - i]) && reply[i] == Put(props[i - i]);
    var t := SetOne(s, puts[0], props[0]);
    SetOneWellFormed(s, puts[0], props[0]);
    forall m | i + 1 <= m < i + |puts|
      ensures Located(t.ix, entities[m], puts[1..][m - (i + 1)])
      ensures reply[m] == Put(props[1..][m - (i + 1)]) && GoodPut(props[1..][m - (i + 1)])
    {
      assert puts[1..][m - (i + 1)] == puts[m - i] && props[1..][m - (i + 1)] == props[m - i];
      LocatedFrame(s, puts[0], props[0], entities[m], puts[m - i]);
    }
  }

  lemma SetFromUnfold(s: Session, entities: seq<Entity>, count: nat, reply: seq<Reply>, i: nat, t: Session)
    requires WellFormed(s.ix) && i < count && i < |reply| && SetStep(s, entities, i, reply[i]) == Done(t, ())
    ensures WellFormed(t.ix) && SetFrom(s, entities, count, reply, i) == SetFrom(t, entities, count, reply, i + 1)
  {
  }

  lemma SetPutsUnfold(s: Session, puts: seq<Ref>, props: seq<Fields>)
    requires puts != [] && |puts| == |props| && Writable(s.ix, puts[0]) && GoodPut(props[0])
    ensures SetPuts(s, puts, props) == SetPuts(SetOne(s, puts[0], props[0]), puts[1..], props[1..])
  {
  }

  lemma {:induction false} SetFromPuts(s: Session, entities: seq<Entity>, count: nat, reply: seq<Reply>, i: nat, puts: seq<Ref>, props: seq<Fields>)
    requires PutTail(s, entities, reply, i, puts, props) && count == i + |puts|
    ensures SetFrom(s, entities, count, reply, i) == Done(SetPuts(s, puts, props), ())
    decreases |puts|
  {
    if puts == [] {
      assert SetFrom(s, entities, count, reply, i) == Done(s, ());
    } else {
      PutTailStep(s, entities, reply, i, puts, props);
      var t := SetOne(s, puts[0], props[0]);
      SetFromUnfold(s, entities, count, reply, i, t);
      SetPutsUnfold(s, puts, props);
      SetFromPuts(t, entities, count, reply, i + 1, puts[1..], props[1..]);
    }
  }

  lemma SetFromOther(s: Session, entities: seq<Entity>, count: nat, reply: seq<Reply>, i: nat)
    requires WellFormed(s.ix) && i < count && i < |reply| && reply[i].Other?
    ensures SetFrom(s, entities, count, reply, i) == SetFrom(s, entities, count, reply, i + 1)
  {
  }

  /** The replies to deletions are skipped. */
  lemma {:induction false} SetFromDeletes(s: Session, entities: seq<Entity>, count: nat, reply: seq<Reply>, i: nat, d: nat, o: Outcome<()>)
    requires WellFormed(s.ix) && i <= d <= count && d <= |reply| && forall j :: i <= j < d ==> reply[j].Other?
    requires SetFrom(s, entities, count, reply, d) == o
    ensures SetFrom(s, entities, count, reply, i) == o
    decreases d - i
  {
    if i < d {
      SetFromOther(s, entities, count, reply, d - 1);
      SetFromDeletes(s, entities, count, reply, i, d - 1, o);
    }
  }

  lemma WriteBack(s: Session, entities: seq<Entity>, count: nat, reply: seq<Reply>, d: nat, t: Session)
    requires WellFormed(s.ix) && d <= count && d <= |reply| && reply != [] && forall j :: 0 <= j < d ==> reply[j].Other?
    requires SetFrom(s, entities, count, reply, d) == Done(t, ())
    ensures SetResult(s, entities, count, reply) == Done(t, ())
  {
    SetFromDeletes(s, entities, count, reply, 0, d, Done(t, ()));
  }

  // ---- between the put loop and the reply -----------------------------------------

  lemma PutShape(bd: Batch, puts: seq<Ref>, b: Batch)
    requires WellFormed(bd.s.ix) && PutState(bd.s, puts, b.s) && forall r :: r in puts ==> r in bd.s.ix.tracked
    ensures |b.s.ix.heap| == |bd.s.ix.heap|
    ensures forall r :: 0 <= r < |bd.s.ix.heap| ==>
              && b.s.ix.heap[r].id == bd.s.ix.heap[r].id && b.s.ix.heap[r].entity == bd.s.ix.heap[r].entity
              && IsDocument(b.s.ix.heap[r].document) && (r in puts ==> b.s.ix.heap[r].document.Obj?)
    ensures forall r :: r in puts ==> Writable(b.s.ix, r)
  {
    forall r: Ref | r < |bd.s.ix.heap|
      ensures && b.s.ix.heap[r].id == bd.s.ix.heap[r].id && b.s.ix.heap[r].entity == bd.s.ix.heap[r].entity
              && IsDocument(b.s.ix.heap[r].document) && (r in puts ==> b.s.ix.heap[r].document.Obj?)
    {
      assert At(b.s.ix, r) == if r in puts then PutInfo(bd.s, At(bd.s.ix, r)) else At(bd.s.ix, r);
    }
  }

  /** Exactly the put entries are out of the index. */
  lemma PutEffectSound(bd: Batch, puts: seq<Ref>, b: Batch)
    requires Inv(bd.s.ix) && PutState(bd.s, puts, b.s) && forall r :: r in puts ==> r in bd.s.ix.tracked
    ensures Sound(b.s.ix)
    ensures forall k :: k in b.s.ix.byId ==> b.s.ix.byId[k] !in puts
    ensures forall r :: r in puts ==> Writable(b.s.ix, r)
  {
    var ix, t := bd.s.ix, b.s.ix;
    PutShape(bd, puts, b);
    assert WellFormed(t);
    forall k | k in t.byId ensures t.byId[k] !in puts {
      var r := t.byId[k];
      assert k == Text.Lower(ix.heap[r].id) && k != "";
      PutKeysMembers(ix, puts, k);
      assert k in OwnKey(At(ix, r));
    }
  }

  lemma UnputIndexed(bd: Batch, puts: seq<Ref>, b: Batch, r: Ref)
    requires Inv(bd.s.ix) && PutState(bd.s, puts, b.s) && forall q :: q in puts ==> q in bd.s.ix.tracked
    requires r in bd.s.ix.tracked && r !in puts
    ensures r < |b.s.ix.heap| && Indexed(b.s.ix, r)
  {
    var ix := bd.s.ix;
    assert At(b.s.ix, r) == At(ix, r);
    if Ordinary(ix.heap[r].id) { UnputKeyStays(ix, puts, r); }
    var i :| 0 <= i < |ix.tracked| && ix.tracked[i] == r;
    assert Indexed(ix, ix.tracked[i]);
  }

  lemma UnputKeyStays(ix: Index, puts: seq<Ref>, r: Ref)
    requires Inv(ix) && (forall q :: q in puts ==> q in ix.tracked) && r in ix.tracked && r !in puts && Ordinary(ix.heap[r].id)
    ensures Text.Lower(ix.heap[r].id) !in PutKeys(ix, puts)
  {
    var k := Text.Lower(ix.heap[r].id);
    PutKeysMembers(ix, puts, k);
    forall q | q in puts ensures k !in OwnKey(At(ix, q)) { RefIdsDiffer(ix, r, q); }
  }

  lemma LocatedPut(bd: Batch, puts: seq<Ref>, b: Batch, r: Ref)
    requires Inv(bd.s.ix) && PutState(bd.s, puts, b.s) && r in puts && forall q :: q in puts ==> q in bd.s.ix.tracked
    ensures Located(b.s.ix, EntityOf(At(bd.s.ix, r)), r)
  {
    PutShape(bd, puts, b);
    EntryOfRef(bd.s.ix, r);
    FindStable(bd.s.ix.heap, b.s.ix.heap, bd.s.ix.tracked, EntityOf(At(bd.s.ix, r)));
  }

  // ---- a faithful reply -----------------------------------------------------------

  /** What the reply says about each put. */
  function PropsFor(p: Plan, reply: seq<Reply>): (ps: seq<Fields>)
    ensures |ps| == |p.puts|
  {
    seq(|p.puts|, i => PropsIn(reply, |p.bd.commands| + i))
  }

  /** The keys of a faithful reply are free ... */
  lemma ReplyKeyFree(p: Plan, reply: seq<Reply>, i: nat)
    requires Planned(p) && Faithful(p.b, reply) && |p.bd.commands| <= i < |p.bd.commands| + |p.puts|
    ensures i < |reply| && reply[i].Put? && GoodPut(reply[i].props) && NewKey(reply[i].props) !in p.b.s.ix.byId
  {
    var ix := p.bd.s.ix;
    PutCommandAt(p, i);
    var r := p.puts[i - |p.bd.commands|];
    assert AnswersPut(p.b, i, reply[i]);
    if Ordinary(p.b.commands[i].id) {
      PutKeysMembers(ix, p.puts, NewKey(reply[i].props));
      assert r in p.puts && NewKey(reply[i].props) in OwnKey(At(ix, r));
    }
  }

  /** Two puts of ordinary ids have different keys. */
  lemma PutIdsDiffer(p: Plan, i: nat, j: nat)
    requires Planned(p) && |p.bd.commands| <= i < j < |p.bd.commands| + |p.puts| == |p.b.commands| && Ordinary(p.b.commands[i].id)
    ensures Text.Lower(p.b.commands[i].id) != Text.Lower(p.b.commands[j].id)
  {
    PutCommandAt(p, i);
    PutCommandAt(p, j);
    RefIdsDiffer(p.bd.s.ix, p.puts[i - |p.bd.commands|], p.puts[j - |p.bd.commands|]);
  }

  lemma PutTypes(p: Plan, i: nat)
    requires Lists(p) && |p.bd.commands| <= i < |p.bd.commands| + |p.puts|
    ensures i < |p.b.commands| && p.b.commands[i].typ.PutType?
  {
    PutCommandAt(p, i);
  }

  /** ... and different from each other. */
  lemma ReplyKeysDiffer(p: Plan, reply: seq<Reply>, i: nat, j: nat)
    requires Planned(p) && Faithful(p.b, reply) && |p.bd.commands| <= i < j < |p.bd.commands| + |p.puts| == |p.b.commands|
    ensures NewKey(PropsOf(reply[i])) != NewKey(PropsOf(reply[j]))
  {
    PutTypes(p, i);
    PutTypes(p, j);
    assert AnswersPut(p.b, i, reply[i]) && AnswersPut(p.b, j, reply[j]);
    if Ordinary(p.b.commands[i].id) && Ordinary(p.b.commands[j].id) { PutIdsDiffer(p, i, j); }
  }

  /** The reply as the write-back sees it. */
  ghost predicate ReplyFits(p: Plan, reply: seq<Reply>) {
    var props := PropsFor(p, reply);
    && |p.bd.commands| + |p.puts| <= |reply|
    && (forall i :: 0 <= i < |p.bd.commands| ==> reply[i].Other?)
    && (forall i :: 0 <= i < |p.puts| ==> AnsweredAt(p, reply, i))
    && (forall i, j :: 0 <= i < j < |p.puts| ==> NewKey(props[i]) != NewKey(props[j]))
  }

  ghost predicate AnsweredAt(p: Plan, reply: seq<Reply>, i: nat)
    requires i < |p.puts| && |p.bd.commands| + |p.puts| <= |reply|
  {
    var q := PropsFor(p, reply)[i];
    reply[|p.bd.commands| + i] == Put(q) && GoodPut(q) && NewKey(q) !in p.b.s.ix.byId
  }

  lemma PropsAt(p: Plan, reply: seq<Reply>, i: nat)
    requires i < |p.puts| && |p.bd.commands| + |p.puts| <= |reply|
    ensures PropsFor(p, reply)[i] == PropsOf(reply[|p.bd.commands| + i])
  {
    assert PropsFor(p, reply)[i] == PropsIn(reply, |p.bd.commands| + i);
  }

  /** The reply is good at every put, and its keys are free and differ. */
  ghost predicate GoodReply(p: Plan, reply: seq<Reply>) {
    var n := |p.bd.commands| + |p.puts|;
    && n <= |reply|
    && (forall i :: 0 <= i < |p.bd.commands| ==> reply[i].Other?)
    && (forall i :: |p.bd.commands| <= i < n ==> reply[i].Put? && GoodPut(reply[i].props) && NewKey(reply[i].props) !in p.b.s.ix.byId)
    && (forall i, j :: |p.bd.commands| <= i < j < n ==> NewKey(PropsOf(reply[i])) != NewKey(PropsOf(reply[j])))
  }

  lemma FaithfulDeletes(p: Plan, reply: seq<Reply>, i: nat)
    requires Lists(p) && AllDeletes(p.bd.commands) && Faithful(p.b, reply) && i < |p.bd.commands|
    ensures i < |reply| && reply[i].Other?
  {
    DeleteAt(p, i);
  }

  lemma FaithfulGood(p: Plan, reply: seq<Reply>)
    requires Planned(p) && Faithful(p.b, reply)
    ensures GoodReply(p, reply)
  {
    var d := |p.bd.commands|;
    BatchLengths(p);
    forall i | 0 <= i < d ensures reply[i].Other? { FaithfulDeletes(p, reply, i); }
    forall i | d <= i < d + |p.puts|
      ensures reply[i].Put? && GoodPut(reply[i].props) && NewKey(reply[i].props) !in p.b.s.ix.byId
    {
      ReplyKeyFree(p, reply, i);
    }
    forall i, j | d <= i < j < d + |p.puts| ensures NewKey(PropsOf(reply[i])) != NewKey(PropsOf(reply[j])) {
      ReplyKeysDiffer(p, reply, i, j);
    }
  }

  lemma GoodReplyFits(p: Plan, reply: seq<Reply>)
    requires GoodReply(p, reply)
    ensures ReplyFits(p, reply)
  {
    forall i | 0 <= i < |p.puts| ensures AnsweredAt(p, reply, i) && PropsFor(p, reply)[i] == PropsOf(reply[|p.bd.commands| + i]) {
      PropsAt(p, reply, i);
    }
  }

  lemma FaithfulReplyFits(p: Plan, reply: seq<Reply>)
    requires Planned(p) && Faithful(p.b, reply)
    ensures ReplyFits(p, reply)
  {
    FaithfulGood(p, reply);
    GoodReplyFits(p, reply);
  }

  lemma AwaitingReply(p: Plan, reply: seq<Reply>)
    requires Planned(p) && ReplyFits(p, reply)
    ensures Awaiting(p.b.s.ix, p.puts, PropsFor(p, reply))
  {
    var ix := p.b.s.ix;
    PutEffectSound(p.bd, p.puts, p.b);
    forall i | 0 <= i < |p.puts|
      ensures GoodPut(PropsFor(p, reply)[i]) && NewKey(PropsFor(p, reply)[i]) !in ix.byId && p.puts[i] in ix.tracked && Writable(ix, p.puts[i])
    {
      assert AnsweredAt(p, reply, i) && p.puts[i] in p.puts;
    }
    forall i | 0 <= i < |ix.tracked| && ix.tracked[i] !in p.puts ensures Indexed(ix, ix.tracked[i]) {
      UnputIndexed(p.bd, p.puts, p.b, ix.tracked[i]);
    }
  }

  lemma LocatedAt(p: Plan, m: nat)
    requires Planned(p) && InStep(p) && |p.bd.commands| <= m < |p.bd.commands| + |p.puts|
    ensures |p.b.entities| == |p.bd.commands| + |p.puts|
    ensures Located(p.b.s.ix, p.b.entities[m], p.puts[m - |p.bd.commands|])
  {
    PutAt(p, m - |p.bd.commands|);
    LocatedPut(p.bd, p.puts, p.b, p.puts[m - |p.bd.commands|]);
  }

  lemma AnsweredReplies(p: Plan, reply: seq<Reply>)
    requires ReplyFits(p, reply)
    ensures Replies(reply, |p.bd.commands|, PropsFor(p, reply))
  {
    forall m | |p.bd.commands| <= m < |p.bd.commands| + |p.puts|
      ensures reply[m] == Put(PropsFor(p, reply)[m - |p.bd.commands|]) && GoodPut(PropsFor(p, reply)[m - |p.bd.commands|])
    {
      assert AnsweredAt(p, reply, m - |p.bd.commands|);
    }
  }

  /** The entries the reply is written to are the ones that were put. */
  lemma ReplyLocated(p: Plan, reply: seq<Reply>)
    requires Planned(p) && ReplyFits(p, reply) && |p.bd.entities| == |p.bd.commands|
    ensures PutTail(p.b.s, p.b.entities, reply, |p.bd.commands|, p.puts, PropsFor(p, reply))
  {
    PutEffectSound(p.bd, p.puts, p.b);
    BatchLengths(p);
    AnsweredReplies(p, reply);
    forall m | |p.bd.commands| <= m < |p.bd.commands| + |p.puts| ensures Located(p.b.s.ix, p.b.entities[m], p.puts[m - |p.bd.commands|]) {
      LocatedAt(p, m);
    }
  }

  /** The session after a save that the server answered faithfully. */
  function Saved(p: Plan, reply: seq<Reply>): Session {
    SetPuts(p.b.s, p.puts, PropsFor(p, reply))
  }

  lemma SavedInv(p: Plan, reply: seq<Reply>)
    requires Planned(p) && ReplyFits(p, reply)
    ensures Inv(Saved(p, reply).ix)
  {
    AwaitingReply(p, reply);
    SetPutsInv(p.b.s, p.puts, PropsFor(p, reply));
  }

  lemma PutsWritten(p: Plan, reply: seq<Reply>)
    requires Planned(p) && ReplyFits(p, reply) && InStep(p)
    ensures WellFormed(p.b.s.ix) && |p.bd.commands| <= |p.b.commands|
    ensures SetFrom(p.b.s, p.b.entities, |p.b.commands|, reply, |p.bd.commands|) == Done(Saved(p, reply), ())
  {
    BatchLengths(p);
    PutEffectSound(p.bd, p.puts, p.b);
    if p.puts != [] {
      ReplyLocated(p, reply);
      SetFromPuts(p.b.s, p.b.entities, |p.b.commands|, reply, |p.bd.commands|, p.puts, PropsFor(p, reply));
    }
  }

  lemma ReplyWritten(p: Plan, reply: seq<Reply>)
    requires Planned(p) && ReplyFits(p, reply) && InStep(p) && reply != []
    ensures WellFormed(p.b.s.ix)
    ensures SetResult(p.b.s, p.b.entities, |p.b.commands|, reply) == Done(Saved(p, reply), ())
  {
    PutsWritten(p, reply);
    WriteBack(p.b.s, p.b.entities, |p.b.commands|, reply, |p.bd.commands|, Saved(p, reply));
  }

  /** A faithful reply is written back without error, each PUT to the entry whose command sits at its
      position, and the session satisfies its invariant again. */
  lemma SaveKeepsInv(p: Plan, reply: seq<Reply>)
    requires Planned(p) && InStep(p) && reply != [] && Faithful(p.b, reply)
    ensures WellFormed(p.b.s.ix)
    ensures SetResult(p.b.s, p.b.entities, |p.b.commands|, reply) == Done(Saved(p, reply), ())
    ensures Inv(Saved(p, reply).ix)
  {
    FaithfulReplyFits(p, reply);
    SavedInv(p, reply);
    ReplyWritten(p, reply);
  }

  // ---- a reply that is written back was in step -----------------------------------

  /** Good replies, and a PUT past the end of the entities: a panic. */
  lemma {:induction false} SetFromCrashes(s: Session, entities: seq<Entity>, count: nat, reply: seq<Reply>, i: nat, m: nat)
    requires WellFormed(s.ix) && i <= m < count && |entities| <= m < |reply| && reply[m].Put?
    requires forall j :: i <= j < m ==> reply[j].Other? || (reply[j].Put? && GoodPut(reply[j].props))
    ensures SetFrom(s, entities, count, reply, i).Crashed?
    decreases m - i
  {
    if i < m {
      var o := SetStep(s, entities, i, reply[i]);
      if o.Done? { SetFromCrashes(o.state, entities, count, reply, i + 1, m); }
    }
  }

  /** A DELETE that found an entry without an object makes a PUT panic, whatever the session is by then. */
  lemma OutOfStepPanics(p: Plan, reply: seq<Reply>, s: Session)
    requires Planned(p) && !InStep(p) && Faithful(p.b, reply) && WellFormed(s.ix)
    ensures SetResult(s, p.b.entities, |p.b.commands|, reply).Crashed?
  {
    BatchLengths(p);
    FaithfulGood(p, reply);
    SetFromCrashes(s, p.b.entities, |p.b.commands|, reply, 0, |p.b.commands| - 1);
  }

  /** Exactly the saves whose puts are in step are written back; the others panic. */
  lemma WrittenExactly(p: Plan, reply: seq<Reply>)
    requires Planned(p) && reply != [] && Faithful(p.b, reply) && WellFormed(p.b.s.ix)
    ensures SetResult(p.b.s, p.b.entities, |p.b.commands|, reply).Done? <==> InStep(p)
    ensures SetResult(p.b.s, p.b.entities, |p.b.commands|, reply).Crashed? <==> !InStep(p)
  {
    if InStep(p) {
      SaveKeepsInv(p, reply);
    } else {
      OutOfStepPanics(p, reply, p.b.s);
    }
  }

  /** Every DELETE finds an entry that has an object: under the key of each tracked object to be deleted, the index
      holds nothing or an entry with an object. */
  ghost predicate AllFindObjects(ix: Index, order: seq<Entity>) {
    forall e :: e in order && IsTracked(ix, e) ==> FindsObject(ix, e)
  }

  ghost predicate FindsObject(ix: Index, e: Entity) {
    var k := Text.Lower(EntryOf(ix, e).id);
    k in ix.byId ==> At(ix, ix.byId[k]).entity.Some?
  }

  /** Dropping an object that the index returns does not decide what other deletes find. */
  lemma DropFinds(ix: Index, y: Entity, x: Entity)
    requires Inv(ix) && IndexReturns(ix, y)
    ensures (IsTracked(Drop(ix, y), x) ==> FindsObject(Drop(ix, y), x)) <==> (IsTracked(ix, x) ==> FindsObject(ix, x))
  {
    DropOthers(ix, y, x);
    DropShape(ix, y);
    FindsAfterDrop(ix, Drop(ix, y), y, x);
  }

  lemma FindsAfterDrop(ix: Index, t: Index, y: Entity, x: Entity)
    requires IndexReturns(ix, y) && t.heap == ix.heap && t.byId == ix.byId - {Text.Lower(EntryOf(ix, y).id)}
    requires IsTracked(t, x) <==> x != y && IsTracked(ix, x)
    requires x != y ==> EntryOf(t, x) == EntryOf(ix, x)
    ensures (IsTracked(t, x) ==> FindsObject(t, x)) <==> (IsTracked(ix, x) ==> FindsObject(ix, x))
  {
  }

  /** The object whose entry a turn finds is tracked under that entry, and dropped. */
  lemma TurnDrops(pending: map<Key, Command>, b: Batch, e: Entity)
    requires Inv(b.s.ix) && IsTracked(b.s.ix, e) && FindsObject(b.s.ix, e) && DeleteStep(pending, b, e).Ready?
    ensures var k := Text.Lower(EntryOf(b.s.ix, e).id);
            && k in b.s.ix.byId && At(b.s.ix, b.s.ix.byId[k]).entity.Some?
            && var y := At(b.s.ix, b.s.ix.byId[k]).entity.value;
               && IndexReturns(b.s.ix, y) && DeleteStep(pending, b, e).batch.s.ix == Drop(b.s.ix, y)
               && |DeleteStep(pending, b, e).batch.entities| == |b.entities| + 1
               && |DeleteStep(pending, b, e).batch.commands| == |b.commands| + 1
  {
    IndexedEntityIsTracked(b.s.ix, Text.Lower(EntryOf(b.s.ix, e).id));
  }

  lemma {:induction false} DeletesFindExactly(pending: map<Key, Command>, b: Batch, order: seq<Entity>)
    requires Inv(b.s.ix) && DeleteAll(pending, b, order).Ready?
    ensures var b' := DeleteAll(pending, b, order).batch;
            |b'.entities| - |b.entities| == |b'.commands| - |b.commands| <==> AllFindObjects(b.s.ix, order)
    decreases |order|
  {
    if order != [] {
      var e, rest := order[0], order[1..];
      var b1 := DeleteAllTurn(pending, b, order);
      DeletesFindExactly(pending, b1, rest);
      TurnFindsExactly(pending, b, e, rest);
      FindCons(b.s.ix, e, rest);
    }
  }

  /** The loop after its first turn. */
  lemma DeleteAllTurn(pending: map<Key, Command>, b: Batch, order: seq<Entity>) returns (b1: Batch)
    requires Inv(b.s.ix) && order != [] && DeleteAll(pending, b, order).Ready?
    ensures DeleteStep(pending, b, order[0]) == Ready(b1) && Inv(b1.s.ix) && order == [order[0]] + order[1..]
    ensures DeleteAll(pending, b, order) == DeleteAll(pending, b1, order[1..]) && Grows(b1, DeleteAll(pending, b1, order[1..]).batch)
  {
    b1 := DeleteStep(pending, b, order[0]).batch;
    DeleteStepInv(pending, b, order[0]);
    DeleteAllGrows(pending, b1, order[1..]);
  }

  /** One turn: entities fall behind the commands exactly if it finds an entry without an object, and it does not decide
      what the other turns find. */
  lemma TurnFindsExactly(pending: map<Key, Command>, b: Batch, e: Entity, rest: seq<Entity>)
    requires Inv(b.s.ix) && DeleteStep(pending, b, e).Ready?
    ensures var b1 := DeleteStep(pending, b, e).batch;
            if IsTracked(b.s.ix, e) ==> FindsObject(b.s.ix, e)
            then |b1.entities| - |b.entities| == |b1.commands| - |b.commands| && (AllFindObjects(b1.s.ix, rest) <==> AllFindObjects(b.s.ix, rest))
            else |b1.entities| - |b.entities| < |b1.commands| - |b.commands|
  {
    if IsTracked(b.s.ix, e) && FindsObject(b.s.ix, e) {
      TurnDrops(pending, b, e);
      DropAllFind(b.s.ix, At(b.s.ix, b.s.ix.byId[Text.Lower(EntryOf(b.s.ix, e).id)]).entity.value, rest);
    }
  }

  lemma DropAllFind(ix: Index, y: Entity, rest: seq<Entity>)
    requires Inv(ix) && IndexReturns(ix, y)
    ensures AllFindObjects(Drop(ix, y), rest) <==> AllFindObjects(ix, rest)
  {
    forall x ensures (IsTracked(Drop(ix, y), x) ==> FindsObject(Drop(ix, y), x)) <==> (IsTracked(ix, x) ==> FindsObject(ix, x)) {
      DropFinds(ix, y, x);
    }
  }

  lemma FindCons(ix: Index, e: Entity, rest: seq<Entity>)
    ensures AllFindObjects(ix, [e] + rest) <==> (IsTracked(ix, e) ==> FindsObject(ix, e)) && AllFindObjects(ix, rest)
  {
    if AllFindObjects(ix, [e] + rest) {
      assert e in [e] + rest;
      forall x | x in rest && IsTracked(ix, x) ensures FindsObject(ix, x) { assert x in [e] + rest; }
    }
  }

  /** The condition on the session: puts are in step exactly if there are none or every DELETE finds an object. */
  lemma InStepExactly(env: JsonChanges.Env, s: Session, order: seq<Entity>)
    requires Inv(s.ix) && Prepare(env, s, order).Ready?
    ensures InStep(PlanOf(env, s, order)) <==> AllFindObjects(s.ix, order) || PlanOf(env, s, order).puts == []
  {
    DeletesFindExactly(s.deferredMap, Cleared(s), order);
  }

  // ---- owners of commands ---------------------------------------------------------

  /** The plan of a save whose deleted objects the index returns. */
  ghost predicate Owned(p: Plan, s: Session, order: seq<Entity>) {
    && Planned(p) && Inv(s.ix)
    && p.bd.commands == DeleteCommands(s.optimistic, s.ix, p.bd.entities) && Distinct(p.bd.entities)
    && (forall e :: e in p.bd.entities ==> e in order && IsTracked(s.ix, e))
    && (forall e :: IsTracked(p.bd.s.ix, e) ==> Remains(p, s, order, e))
  }

  ghost predicate Remains(p: Plan, s: Session, order: seq<Entity>, e: Entity) {
    e !in order && IsTracked(s.ix, e) && EntryOf(s.ix, e) == EntryOf(p.bd.s.ix, e)
  }

  lemma {:induction false} DeletedDistinct(ix: Index, order: seq<Entity>)
    requires Distinct(order)
    ensures Distinct(Deleted(ix, order))
  {
    if order != [] {
      DeletedDistinct(ix, order[1..]);
      DeletedAmong(ix, order[1..], order[0]);
    }
  }

  lemma PlanOwned(env: JsonChanges.Env, s: Session, order: seq<Entity>)
    requires Saveable(env, s, order)
    ensures Owned(PlanOf(env, s, order), s, order)
  {
    PlanExists(env, s, order);
    PrepareUnfold(env, s, order);
    DeletedDistinct(s.ix, order);
    var p := PlanOf(env, s, order);
    forall e | e in p.bd.entities ensures e in order && IsTracked(s.ix, e) { DeletedAmong(s.ix, order, e); }
    forall e | IsTracked(p.bd.s.ix, e) ensures Remains(p, s, order, e) { DropAllKeeps(s.ix, order, e); }
  }

  /** A command and the tracked object it is about: a DELETE if the object is in the deleted set, else a PUT. */
  ghost predicate Aligned(s: Session, order: seq<Entity>, c: Command, e: Entity) {
    && IsTracked(s.ix, e) && c.id == EntryOf(s.ix, e).id
    && (c.typ.DeleteType? || c.typ.PutType?) && (c.typ.DeleteType? <==> e in order)
  }

  lemma OwnedLengths(p: Plan, s: Session, order: seq<Entity>)
    requires Owned(p, s, order)
    ensures |p.bd.entities| == |p.bd.commands| && |p.b.commands| == |p.b.entities| == |p.bd.commands| + |p.puts|
  {
    DeleteCommandsLength(s.optimistic, s.ix, p.bd.entities);
    BatchLengths(p);
  }

  /** Batch alignment: the i-th entity is the object of the i-th command, and all DELETEs precede all PUTs. */
  lemma CommandOwner(p: Plan, s: Session, order: seq<Entity>, i: nat)
    requires Owned(p, s, order) && i < |p.b.commands|
    ensures |p.b.commands| == |p.b.entities| && Aligned(s, order, p.b.commands[i], p.b.entities[i])
    ensures p.b.commands[i].typ.DeleteType? <==> i < |p.bd.commands|
  {
    OwnedLengths(p, s, order);
    if i < |p.bd.commands| {
      DeleteOwner(p, s, order, i);
    } else {
      PutOwner(p, s, order, i - |p.bd.commands|);
    }
  }

  lemma DeleteOwner(p: Plan, s: Session, order: seq<Entity>, i: nat)
    requires Owned(p, s, order) && i < |p.bd.commands| == |p.bd.entities|
    ensures i < |p.b.commands| && i < |p.b.entities| && Aligned(s, order, p.b.commands[i], p.b.entities[i]) && p.b.commands[i].typ.DeleteType?
  {
    DeleteAt(p, i);
    DeleteCommandsAt(s.optimistic, s.ix, p.bd.entities, i);
    assert p.bd.entities[i] in p.bd.entities;
  }

  lemma PutOwner(p: Plan, s: Session, order: seq<Entity>, k: nat)
    requires Owned(p, s, order) && k < |p.puts| && |p.bd.commands| == |p.bd.entities|
    ensures var i := |p.bd.commands| + k;
            i < |p.b.commands| && i < |p.b.entities| && Aligned(s, order, p.b.commands[i], p.b.entities[i]) && p.b.commands[i].typ.PutType?
  {
    PutAt(p, k);
    var r := p.puts[k];
    EntryOfRef(p.bd.s.ix, r);
    assert Remains(p, s, order, EntityOf(At(p.bd.s.ix, r)));
  }

  lemma PutEntityAt(p: Plan, i: nat)
    requires Lists(p) && |p.bd.entities| == |p.bd.commands| <= i < |p.bd.commands| + |p.puts|
    ensures i < |p.b.entities| && p.b.entities[i] == EntityOf(At(p.bd.s.ix, p.puts[i - |p.bd.commands|]))
  {
    PutAt(p, i - |p.bd.commands|);
  }

  lemma PutEntitiesDistinct(p: Plan, i: nat, j: nat)
    requires Planned(p) && |p.bd.entities| == |p.bd.commands| <= i < j < |p.bd.commands| + |p.puts|
    ensures j < |p.b.entities| && p.b.entities[i] != p.b.entities[j]
  {
    PutEntityAt(p, i);
    PutEntityAt(p, j);
    PutRefsByEntity(p.bd.s.ix, p.puts[i - |p.bd.commands|], p.puts[j - |p.bd.commands|]);
  }

  lemma DeleteEntitiesDistinct(p: Plan, i: nat, j: nat)
    requires Lists(p) && Distinct(p.bd.entities) && i < j < |p.bd.entities|
    ensures j < |p.b.entities| && p.b.entities[i] != p.b.entities[j]
  {
  }

  lemma EntitiesDistinct(p: Plan, s: Session, order: seq<Entity>, i: nat, j: nat)
    requires Owned(p, s, order) && i < j < |p.b.commands|
    ensures |p.b.entities| == |p.b.commands| && p.b.entities[i] != p.b.entities[j]
  {
    OwnedLengths(p, s, order);
    if i >= |p.bd.commands| {
      PutEntitiesDistinct(p, i, j);
    } else if j < |p.bd.commands| {
      DeleteEntitiesDistinct(p, i, j);
    } else {
      CommandOwner(p, s, order, i);
      CommandOwner(p, s, order, j);
    }
  }

  /** No ordinary id occurs twice among the session commands, ignoring case. */
  lemma BatchIdsDistinct(p: Plan, s: Session, order: seq<Entity>, i: nat, j: nat)
    requires Owned(p, s, order) && i < j < |p.b.commands| && Ordinary(p.b.commands[i].id)
    ensures !Text.EqualFold(p.b.commands[i].id, p.b.commands[j].id)
  {
    CommandOwner(p, s, order, i);
    CommandOwner(p, s, order, j);
    EntitiesDistinct(p, s, order, i, j);
    OrdinaryIdsDiffer(s.ix, p.b.entities[i], p.b.entities[j]);
  }
}
