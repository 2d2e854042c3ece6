/** The write-back of a reply in closed form: what each entry becomes. */
module WriteBackForm {
  import opened JsonDocs
  import opened SessionModel
  import opened SessionInvariant
  import opened SessionSave
  import opened SessionReply
  import opened SessionTheorems

  ghost predicate Settable(ix: Index, puts: seq<Ref>, props: seq<Fields>) {
    && |puts| == |props| && DistinctRefs(puts)
    && forall i :: 0 <= i < |puts| ==> Writable(ix, puts[i]) && GoodPut(props[i])
  }

  lemma SettableStep(s: Session, puts: seq<Ref>, props: seq<Fields>)
    requires puts != [] && Settable(s.ix, puts, props)
    ensures Writable(s.ix, puts[0]) && GoodPut(props[0])
    ensures Settable(SetOne(s, puts[0], props[0]).ix, puts[1..], props[1..])
    ensures SetPuts(s, puts, props) == SetPuts(SetOne(s, puts[0], props[0]), puts[1..], props[1..])
    ensures puts[0] !in puts[1..]
  {
  }

  lemma {:induction false} SetPutsRest(s: Session, puts: seq<Ref>, props: seq<Fields>)
    requires Settable(s.ix, puts, props)
    ensures var t := SetPuts(s, puts, props);
            && t == s.(ix := t.ix, bodies := t.bodies)
            && t.ix.tracked == s.ix.tracked && t.ix.included == s.ix.included && |t.ix.heap| == |s.ix.heap|
            && forall k :: k in s.ix.byId ==> k in t.ix.byId && t.ix.byId[k] == s.ix.byId[k]
    decreases |puts|
  {
    if puts != [] {
      SettableStep(s, puts, props);
      SetPutsRest(SetOne(s, puts[0], props[0]), puts[1..], props[1..]);
    }
  }

  lemma {:induction false} SetPutsFrame(s: Session, puts: seq<Ref>, props: seq<Fields>, q: Ref)
    requires Settable(s.ix, puts, props) && q !in puts
    ensures At(SetPuts(s, puts, props).ix, q) == At(s.ix, q)
    decreases |puts|
  {
    if puts != [] {
      SettableStep(s, puts, props);
      SetPutsFrame(SetOne(s, puts[0], props[0]), puts[1..], props[1..], q);
    }
  }

  lemma {:induction false} SetPutsAt(s: Session, puts: seq<Ref>, props: seq<Fields>, i: nat)
    requires Settable(s.ix, puts, props) && i < |puts|
    ensures At(s.ix, puts[i]).document.Obj? && GoodPut(props[i])
    ensures At(SetPuts(s, puts, props).ix, puts[i]) == ReplyInfo(At(s.ix, puts[i]), props[i])
    decreases |puts|
  {
    SettableStep(s, puts, props);
    var t := SetOne(s, puts[0], props[0]);
    if i == 0 {
      SetPutsFrame(t, puts[1..], props[1..], puts[0]);
    } else {
      var r := puts[i];
      assert puts[1..][i - 1] == r && props[1..][i - 1] == props[i] && r != puts[0];
      assert At(t.ix, r) == At(s.ix, r);
      SetPutsAt(t, puts[1..], props[1..], i - 1);
    }
  }

  lemma AnsweredSettable(p: Plan, reply: seq<Reply>)
    requires Planned(p) && ReplyFits(p, reply)
    ensures Settable(p.b.s.ix, p.puts, PropsFor(p, reply))
  {
    PutEffectSound(p.bd, p.puts, p.b);
    forall i | 0 <= i < |p.puts| ensures Writable(p.b.s.ix, p.puts[i]) && GoodPut(PropsFor(p, reply)[i]) {
      assert AnsweredAt(p, reply, i) && p.puts[i] in p.puts;
    }
  }

  lemma SavedEntity(p: Plan, reply: seq<Reply>, r: Ref)
    requires Planned(p) && ReplyFits(p, reply) && r < |p.bd.s.ix.heap|
    ensures At(Saved(p, reply).ix, r).entity == At(p.bd.s.ix, r).entity
  {
    AnsweredSettable(p, reply);
    assert At(p.b.s.ix, r).entity == At(p.bd.s.ix, r).entity by {
      assert At(p.b.s.ix, r) == if r in p.puts then PutInfo(p.bd.s, At(p.bd.s.ix, r)) else At(p.bd.s.ix, r);
    }
    if r in p.puts {
      var i :| 0 <= i < |p.puts| && p.puts[i] == r;
      SetPutsAt(p.b.s, p.puts, PropsFor(p, reply), i);
    } else {
      SetPutsFrame(p.b.s, p.puts, PropsFor(p, reply), r);
    }
  }
}
