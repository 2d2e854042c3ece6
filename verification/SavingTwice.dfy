/** Saving twice sends nothing the second time. */
module SavingTwice {
  import opened Wrappers
  import opened JsonDocs
  import opened SessionModel
  import opened SessionInvariant
  import opened SessionSave
  import opened SessionReply
  import opened SessionTheorems
  import JsonChanges

  // ---- the JSON of an object ------------------------------------------------------

  lemma RemoveThenSet(fields: Fields, k: string, v: Json, x: string)
    requires k != x
    ensures fields[k := v] - {x} == (fields - {x})[k := v]
  {
  }

  /** The JSON of an object does not depend on its ID field. */
  lemma ToJsonIgnoresIdentity(body: Fields, body': Fields, info: Info)
    requires body - {IDENTITY_PROPERTY} == body' - {IDENTITY_PROPERTY}
    ensures ToJson(body, info) == ToJson(body', info)
  {
    var node := if info.collection != "" then info.metadata[METADATA_COLLECTION := Str(info.collection)] else info.metadata;
    assert |METADATA_KEY| != |IDENTITY_PROPERTY|;
    RemoveThenSet(body, METADATA_KEY, Obj(node), IDENTITY_PROPERTY);
    RemoveThenSet(body', METADATA_KEY, Obj(node), IDENTITY_PROPERTY);
  }

  /** The collection name is the only addition to the metadata, and its name is ignored. */
  lemma CollectionIgnored(render: Printer, metadata: Fields, collection: string)
    ensures SameObject(render, Obj(metadata), Obj(metadata[METADATA_COLLECTION := Str(collection)]))
    ensures SameObject(render, Obj(metadata), Obj(metadata))
  {
    SameObjectReflexive(render, Obj(metadata));
    var n := metadata[METADATA_COLLECTION := Str(collection)];
    forall k | k in metadata && !Ignored(k) ensures SameField(render, metadata[k], n[k]) {
      SameFieldReflexive(render, metadata[k]);
    }
  }

  /** Outside the metadata the JSON of an object is its fields without the ID. */
  lemma ToJsonFields(body: Fields, info: Info, k: string)
    requires k != METADATA_KEY
    ensures k in ToJson(body, info).fields <==> k in body && k != IDENTITY_PROPERTY
    ensures k in ToJson(body, info).fields ==> ToJson(body, info).fields[k] == body[k]
  {
  }

  lemma ToJsonMetadata(body: Fields, info: Info)
    requires |info.metadata| > 0
    ensures METADATA_KEY in ToJson(body, info).fields
    ensures ToJson(body, info).fields[METADATA_KEY]
            == Obj(if info.collection != "" then info.metadata[METADATA_COLLECTION := Str(info.collection)] else info.metadata)
  {
  }

  /** Metadata written to both sides keeps a document the same as its object. */
  lemma MetadataKeepsSame(render: Printer, body: Fields, info: Info, info': Info)
    requires info.document.Obj? && SameObject(render, info.document, ToJson(body, info)) && |info'.metadata| > 0
    requires info'.document == Obj(info.document.fields[METADATA_KEY := Obj(info'.metadata)])
    ensures SameObject(render, info'.document, ToJson(body, info'))
  {
    var o, n := info'.document.fields, ToJson(body, info').fields;
    ToJsonMetadata(body, info');
    CollectionIgnored(render, info'.metadata, info'.collection);
    forall k ensures (k in o ==> k in n) && (k in n && k !in o ==> Ignored(k)) {
      if k != METADATA_KEY { ToJsonFields(body, info, k); ToJsonFields(body, info', k); }
    }
    forall k | k in o && k in n && !Ignored(k) ensures SameField(render, o[k], n[k]) {
      if k != METADATA_KEY { ToJsonFields(body, info, k); ToJsonFields(body, info', k); }
    }
  }

  // ---- nothing is left to delete or put -------------------------------------------

  lemma {:induction false} DeleteNone(pending: map<Key, Command>, b: Batch, order: seq<Entity>)
    requires WellFormed(b.s.ix) && forall e :: e in order ==> !IsTracked(b.s.ix, e)
    ensures DeleteAll(pending, b, order) == Ready(b)
    decreases |order|
  {
    if order != [] {
      assert order[0] in order;
      DeleteNone(pending, b, order[1..]);
    }
  }

  lemma {:induction false} PutNone(env: JsonChanges.Env, pending: map<Key, Command>, b: Batch, refs: seq<Ref>)
    requires forall r :: r in refs ==> Verdict(env, b.s, At(b.s.ix, r)) == JsonChanges.Returned(false)
    ensures PutAll(env, pending, b, refs) == Ready(b)
    decreases |refs|
  {
    if refs != [] {
      assert refs[0] in refs;
      PutNone(env, pending, b, refs[1..]);
    }
  }

  /** A put loop that ends well met no panic. */
  lemma {:induction false} PutAllVerdicts(env: JsonChanges.Env, pending: map<Key, Command>, b: Batch, refs: seq<Ref>, r: Ref)
    requires DistinctRefs(refs) && PutAll(env, pending, b, refs).Ready? && r in refs
    ensures Verdict(env, b.s, At(b.s.ix, r)).Returned?
    decreases |refs|
  {
    if r != refs[0] {
      assert r in refs[1..];
      var p := PutStep(pending, b, refs[0], Verdict(env, b.s, At(b.s.ix, refs[0])));
      PutAllVerdicts(env, pending, p.batch, refs[1..], r);
      PutStepVerdict(env, pending, b, refs[0], r);
    }
  }

  /** A turn does not decide about another entry. */
  lemma PutStepVerdict(env: JsonChanges.Env, pending: map<Key, Command>, b: Batch, q: Ref, r: Ref)
    requires r != q && PutStep(pending, b, q, Verdict(env, b.s, At(b.s.ix, q))).Ready?
    ensures var s' := PutStep(pending, b, q, Verdict(env, b.s, At(b.s.ix, q))).batch.s; Verdict(env, s', At(s'.ix, r)) == Verdict(env, b.s, At(b.s.ix, r))
  {
    assert At(PutIndex(b.s, q), r) == At(b.s.ix, r);
    VerdictFrame(env, b.s, b.s.(ix := PutIndex(b.s, q)), At(b.s.ix, r));
  }

  /** The comparison sees an object only through its JSON. */
  lemma VerdictFrame(env: JsonChanges.Env, s: Session, t: Session, info: Info)
    requires Body(s, EntityOf(info)) - {IDENTITY_PROPERTY} == Body(t, EntityOf(info)) - {IDENTITY_PROPERTY}
    ensures Verdict(env, s, info) == Verdict(env, t, info)
  {
    ToJsonIgnoresIdentity(Body(s, EntityOf(info)), Body(t, EntityOf(info)), info);
  }

  /** Every tracked entry compares as unchanged. */
  ghost predicate AllUnchanged(env: JsonChanges.Env, s: Session) {
    forall r :: r in s.ix.tracked ==> Verdict(env, s, At(s.ix, r)) == JsonChanges.Returned(false)
  }

  /** An entry that was just put equals its document. */
  lemma PutIsUnchanged(env: JsonChanges.Env, s: Session, s': Session, info: Info)
    requires JsonChanges.ValidEnv(env) && s'.bodies == s.bodies
    ensures Verdict(env, s', PutInfo(s, info)) == JsonChanges.Returned(false)
  {
    var j := EntityJson(s, info);
    assert EntityJson(s', PutInfo(s, info)) == j;
    SameObjectReflexive(env.render, j);
    JsonChanges.FastDecidesSame(env, j, j);
  }

  /** After the put loop no entry differs from its document any more. */
  lemma PutsLeaveUnchanged(env: JsonChanges.Env, pending: map<Key, Command>, b: Batch)
    requires JsonChanges.ValidEnv(env) && Inv(b.s.ix) && PutAll(env, pending, b, b.s.ix.tracked).Ready?
    ensures AllUnchanged(env, PutAll(env, pending, b, b.s.ix.tracked).batch.s)
  {
    var refs := b.s.ix.tracked;
    TrackedDistinct(b.s.ix);
    PutAllEffect(env, pending, b, refs);
    PutsAmong(env, b.s, refs);
    var t := PutAll(env, pending, b, refs).batch.s;
    forall r | r in t.ix.tracked ensures Verdict(env, t, At(t.ix, r)) == JsonChanges.Returned(false) {
      PutAllVerdicts(env, pending, b, refs, r);
      EntryAfterPuts(env, b.s, Puts(env, b.s, refs), t, r);
    }
  }

  lemma EntryAfterPuts(env: JsonChanges.Env, s: Session, puts: seq<Ref>, t: Session, r: Ref)
    requires JsonChanges.ValidEnv(env) && PutState(s, puts, t) && r < |s.ix.heap|
    requires Verdict(env, s, At(s.ix, r)) == JsonChanges.Returned(r in puts)
    ensures Verdict(env, t, At(t.ix, r)) == JsonChanges.Returned(false)
  {
    var info := At(s.ix, r);
    assert At(t.ix, r) == if r in puts then PutInfo(s, info) else info;
    if r in puts { PutIsUnchanged(env, s, t, info); } else { VerdictFrame(env, s, t, info); }
  }

  /** Writing a reply to an entry that is unchanged leaves it unchanged, whatever the reply says. */
  lemma ReplyKeepsUnchanged(env: JsonChanges.Env, s: Session, t: Session, info: Info, props: Fields)
    requires JsonChanges.ValidEnv(env) && GoodPut(props) && info.document.Obj? && Verdict(env, s, info) == JsonChanges.Returned(false)
    requires Body(s, EntityOf(info)) - {IDENTITY_PROPERTY} == Body(t, EntityOf(info)) - {IDENTITY_PROPERTY}
    ensures Verdict(env, t, ReplyInfo(info, props)) == JsonChanges.Returned(false)
  {
    if !info.ignoreChanges {
      var info' := ReplyInfo(info, props);
      var body := Body(s, EntityOf(info));
      JsonChanges.FastDecidesSame(env, info.document, ToJson(body, info));
      assert METADATA_CHANGE_VECTOR in info'.metadata;
      MetadataKeepsSame(env.render, body, info, info');
      ToJsonIgnoresIdentity(body, Body(t, EntityOf(info)), info');
      JsonChanges.FastDecidesSame(env, info'.document, ToJson(body, info'));
    }
  }

  /** What the write-back leaves alone. */
  ghost predicate OnlyEntries(s: Session, t: Session) {
    && t == s.(ix := t.ix, bodies := t.bodies) && t.ix.tracked == s.ix.tracked && |t.ix.heap| == |s.ix.heap|
    && forall r :: 0 <= r < |s.ix.heap| ==> t.ix.heap[r].entity == s.ix.heap[r].entity
  }

  lemma IdentityOnly(s: Session, e: Entity, id: string, x: Entity)
    ensures Body(SetIdentity(s, e, id), x) - {IDENTITY_PROPERTY} == Body(s, x) - {IDENTITY_PROPERTY}
  {
  }

  /** The effect of one write-back on one entry, and on the bodies. */
  lemma SetOneEntry(s: Session, r: Ref, props: Fields, q: Ref)
    requires r < |s.ix.heap| && s.ix.heap[r].entity.Some? && s.ix.heap[r].document.Obj? && GoodPut(props)
    ensures At(SetOne(s, r, props).ix, q) == if q == r then ReplyInfo(At(s.ix, q), props) else At(s.ix, q)
    ensures Body(SetOne(s, r, props), EntityOf(At(s.ix, q))) - {IDENTITY_PROPERTY} == Body(s, EntityOf(At(s.ix, q))) - {IDENTITY_PROPERTY}
    ensures OnlyEntries(s, SetOne(s, r, props))
  {
    var u := s.(ix := AddById(SetInfo(s.ix, r, ReplyInfo(s.ix.heap[r], props)), r));
    IdentityOnly(u, s.ix.heap[r].entity.value, props[METADATA_ID].s, EntityOf(At(s.ix, q)));
  }

  lemma SetOneUnchanged(env: JsonChanges.Env, s: Session, r: Ref, props: Fields)
    requires JsonChanges.ValidEnv(env) && WellFormed(s.ix) && AllUnchanged(env, s) && r in s.ix.tracked && s.ix.heap[r].document.Obj? && GoodPut(props)
    ensures AllUnchanged(env, SetOne(s, r, props)) && OnlyEntries(s, SetOne(s, r, props))
  {
    var t := SetOne(s, r, props);
    SetOneEntry(s, r, props, r);
    forall q | q in t.ix.tracked ensures Verdict(env, t, At(t.ix, q)) == JsonChanges.Returned(false) {
      var info := At(s.ix, q);
      SetOneEntry(s, r, props, q);
      assert Verdict(env, s, info) == JsonChanges.Returned(false);
      if q == r { ReplyKeepsUnchanged(env, s, t, info, props); } else { VerdictFrame(env, s, t, info); }
    }
  }

  lemma SetStepUnchanged(env: JsonChanges.Env, s: Session, entities: seq<Entity>, i: nat, reply: Reply)
    requires JsonChanges.ValidEnv(env) && WellFormed(s.ix) && AllUnchanged(env, s) && SetStep(s, entities, i, reply).Done?
    ensures var t := SetStep(s, entities, i, reply).state; AllUnchanged(env, t) && OnlyEntries(s, t)
  {
    if reply.Put? {
      var f := Find(s.ix.heap, s.ix.tracked, entities[i]);
      if f < |s.ix.tracked| { SetOneUnchanged(env, s, s.ix.tracked[f], reply.props); }
    }
  }

  lemma {:induction false} SetFromUnchanged(env: JsonChanges.Env, s: Session, entities: seq<Entity>, count: nat, reply: seq<Reply>, i: nat)
    requires JsonChanges.ValidEnv(env) && WellFormed(s.ix) && AllUnchanged(env, s) && i <= count && SetFrom(s, entities, count, reply, i).Done?
    ensures var t := SetFrom(s, entities, count, reply, i).state; AllUnchanged(env, t) && OnlyEntries(s, t)
    decreases count - i
  {
    if i < count {
      var t := SetStep(s, entities, i, reply[i]).state;
      SetStepUnchanged(env, s, entities, i, reply[i]);
      SetFromUnchanged(env, t, entities, count, reply, i + 1);
    }
  }

  // ---- the theorem ----------------------------------------------------------------

  /** Nothing is deferred, no object of the list is tracked, and every tracked entry compares as unchanged. */
  ghost predicate NothingPending(env: JsonChanges.Env, t: Session, order: seq<Entity>) {
    && WellFormed(t.ix) && t.deferred == [] && t.deferredMap == map[] && AllUnchanged(env, t)
    && (forall e :: e in order ==> !IsTracked(t.ix, e))
  }

  lemma NothingToSend(env: JsonChanges.Env, t: Session, order: seq<Entity>)
    requires NothingPending(env, t, order)
    ensures CreateRequest(env, t, order) == Done(t, None)
  {
    var b := Cleared(t);
    assert b.s == t;
    DeleteNone(t.deferredMap, b, order);
    PutNone(env, t.deferredMap, b, t.ix.tracked);
  }

  /** The prepared batch leaves nothing pending for the objects still marked as deleted. */
  lemma PreparedNothingPending(env: JsonChanges.Env, s: Session, order: seq<Entity>, again: seq<Entity>)
    requires JsonChanges.ValidEnv(env) && Inv(s.ix) && Prepare(env, s, order).Ready?
    requires forall e :: e in s.deleted ==> e in order
    requires forall e :: e in again ==> e in Prepare(env, s, order).batch.s.deleted
    ensures NothingPending(env, Prepare(env, s, order).batch.s, again)
  {
    PlanExists(env, s, order);
    var p := PlanOf(env, s, order);
    PutsLeaveUnchanged(env, s.deferredMap, p.bd);
    PutEffectSound(p.bd, p.puts, p.b);
    forall e | e in again ensures !IsTracked(p.b.s.ix, e) {
      PutShape(p.bd, p.puts, p.b);
      FindStable(p.bd.s.ix.heap, p.b.s.ix.heap, p.bd.s.ix.tracked, e);
    }
  }

  lemma PendingFrame(env: JsonChanges.Env, s: Session, t: Session, again: seq<Entity>)
    requires NothingPending(env, s, again) && WellFormed(t.ix) && AllUnchanged(env, t) && OnlyEntries(s, t)
    ensures NothingPending(env, t, again)
  {
    forall e | e in again ensures !IsTracked(t.ix, e) { FindStable(s.ix.heap, t.ix.heap, s.ix.tracked, e); }
  }

  /** The comparison does not look at the count of requests. */
  lemma PendingIgnoresRequests(env: JsonChanges.Env, s: Session, n: nat, again: seq<Entity>)
    requires NothingPending(env, s, again)
    ensures NothingPending(env, s.(requests := n), again)
  {
    var u := s.(requests := n);
    forall r | r in u.ix.tracked ensures Verdict(env, u, At(u.ix, r)) == JsonChanges.Returned(false) {
      VerdictFrame(env, s, u, At(s.ix, r));
    }
  }

  /** Saving twice: after any save that succeeds, whatever ids it deleted and whatever the server answered, the next
      save with no object modified prepares no command, sends no request and changes nothing. */
  lemma SaveThenSave(env: JsonChanges.Env, s: Session, order: seq<Entity>, reply: seq<Reply>, again: seq<Entity>)
    requires JsonChanges.ValidEnv(env) && Inv(s.ix) && (forall e :: e in s.deleted ==> e in order)
    requires SaveChanges(env, s, order, reply).Done?
    requires forall e :: e in again ==> e in SaveChanges(env, s, order, reply).state.deleted
    ensures var t := SaveChanges(env, s, order, reply).state; WellFormed(t.ix) && CreateRequest(env, t, again) == Done(t, None)
  {
    var b := Prepare(env, s, order).batch;
    PreparedNothingPending(env, s, order, []);
    AnsweredPending(env, b, s.deferred, reply, []);
    PreparedNothingPending(env, s, order, again);
    AnsweredPending(env, b, s.deferred, reply, again);
    NothingToSend(env, SaveChanges(env, s, order, reply).state, again);
  }

  /** A reply that is written back leaves nothing pending either. */
  lemma AnsweredPending(env: JsonChanges.Env, b: Batch, deferred: seq<Command>, reply: seq<Reply>, again: seq<Entity>)
    requires JsonChanges.ValidEnv(env) && NothingPending(env, b.s, again) && Answered(Request(Ready(b), deferred), reply).Done?
    ensures var t := Answered(Request(Ready(b), deferred), reply).state; NothingPending(env, t, again) && t.deleted == b.s.deleted
  {
    AnsweredUnfold(Ready(b), deferred, reply);
    if b.commands + deferred != [] {
      PendingIgnoresRequests(env, b.s, b.s.requests + 1, again);
      WrittenPending(env, b.s.(requests := b.s.requests + 1), b.entities, |b.commands|, reply, again);
    }
  }

  lemma WrittenPending(env: JsonChanges.Env, s: Session, entities: seq<Entity>, count: nat, reply: seq<Reply>, again: seq<Entity>)
    requires JsonChanges.ValidEnv(env) && NothingPending(env, s, again) && SetResult(s, entities, count, reply).Done?
    ensures var t := SetResult(s, entities, count, reply).state; NothingPending(env, t, again) && t.deleted == s.deleted
  {
    SetFromUnchanged(env, s, entities, count, reply, 0);
    PendingFrame(env, s, SetResult(s, entities, count, reply).state, again);
  }

  // ---- a bool that changes is not saved -------------------------------------------

  /** The fields of an object with one bool changed. */
  function WithBool(body: Fields, k: string, b: bool): Fields {
    body[k := Bool(b)]
  }

  lemma BoolKeepsSame(render: Printer, body: Fields, info: Info, k: string, b: bool)
    requires info.document.Obj? && SameObject(render, info.document, ToJson(body, info))
    requires k in body && body[k].Bool? && k != METADATA_KEY
    ensures SameObject(render, info.document, ToJson(WithBool(body, k, b), info))
  {
    var o, n, n' := info.document.fields, ToJson(body, info).fields, ToJson(WithBool(body, k, b), info).fields;
    forall x ensures x in n <==> x in n' { BoolField(body, info, k, b, x); }
    forall x | x in o && x in n' && !Ignored(x) ensures SameField(render, o[x], n'[x]) { BoolField(body, info, k, b, x); }
  }

  lemma BoolField(body: Fields, info: Info, k: string, b: bool, x: string)
    requires k in body && body[k].Bool? && k != METADATA_KEY
    ensures var n, n' := ToJson(body, info).fields, ToJson(WithBool(body, k, b), info).fields;
            && (x in n <==> x in n')
            && (x in n ==> n'[x] == n[x] || (n[x].Bool? && n'[x].Bool?))
  {
    if x != METADATA_KEY {
      ToJsonFields(body, info, x);
      ToJsonFields(WithBool(body, k, b), info, x);
    }
  }

  /** An object that compares as unchanged still does after one of its bool fields is assigned to. */
  lemma BoolVerdict(env: JsonChanges.Env, s: Session, e: Entity, info: Info, k: string, b: bool)
    requires JsonChanges.ValidEnv(env) && Verdict(env, s, info) == JsonChanges.Returned(false)
    requires k in Body(s, e) && Body(s, e)[k].Bool? && k != METADATA_KEY
    ensures Verdict(env, Modify(s, e, WithBool(Body(s, e), k, b)), info) == JsonChanges.Returned(false)
  {
    var t := Modify(s, e, WithBool(Body(s, e), k, b));
    if EntityOf(info) != e {
      VerdictFrame(env, s, t, info);
    } else if !info.ignoreChanges {
      var body := Body(s, e);
      JsonChanges.FastDecidesSame(env, info.document, ToJson(body, info));
      BoolKeepsSame(env.render, body, info, k, b);
      JsonChanges.FastDecidesSame(env, info.document, ToJson(WithBool(body, k, b), info));
    }
  }

  /** With nothing else pending, assigning to a bool field of an object and saving sends nothing at all. */
  lemma BoolChangeNotSaved(env: JsonChanges.Env, s: Session, again: seq<Entity>, e: Entity, k: string, b: bool)
    requires JsonChanges.ValidEnv(env) && NothingPending(env, s, again)
    requires k in Body(s, e) && Body(s, e)[k].Bool? && k != METADATA_KEY
    ensures var t := Modify(s, e, WithBool(Body(s, e), k, b)); CreateRequest(env, t, again) == Done(t, None)
  {
    var t := Modify(s, e, WithBool(Body(s, e), k, b));
    forall r | r in t.ix.tracked ensures Verdict(env, t, At(t.ix, r)) == JsonChanges.Returned(false) {
      BoolVerdict(env, s, e, At(s.ix, r), k, b);
    }
    NothingToSend(env, t, again);
  }
}
