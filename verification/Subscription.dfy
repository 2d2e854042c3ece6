/** One accepted subscription connection: read a batch, call back, acknowledge. */
module Subscription {
  import opened Wrappers

  /** A document as it arrives; `decodes` tells whether it converts to the worker's type. */
  datatype Item = Item(hasMetadata: bool, id: Option<string>, changeVector: Option<string>, decodes: bool)

  datatype Message =
    | Data(item: Item)
    | EndOfBatch
    | Confirm
    | ConnectionStatus(accepted: bool)
    | Error
    | Unknown
    | NullMessage

  /** What the worker sees when it looks at its two flags. */
  datatype Flags = Flags(cancelled: bool, disposed: bool)

  /** `flags` holds what each look finds, after which cancellation is found; the user's callback and the socket
      answer by the number of the event. */
  datatype Env = Env(
    flags: seq<Flags>,
    callback: (nat, seq<Item>) -> bool,
    written: nat -> bool,
    connected: bool,
    ignoreErrors: bool)

  predicate Cancelled(env: Env, tick: nat) {
    tick >= |env.flags| || env.flags[tick].cancelled
  }

  predicate Disposed(env: Env, tick: nat) {
    tick < |env.flags| && env.flags[tick].disposed
  }

  /** Cancellation is never taken back. */
  ghost predicate Monotone(env: Env) {
    forall i, j :: 0 <= i < j < |env.flags| && env.flags[i].cancelled ==> env.flags[j].cancelled
  }

  /** Messages consumed and looks taken. */
  datatype Pos = Pos(at: nat, tick: nat)

  /** What the user and the server observe. */
  datatype Event = Delivered(items: seq<Item>, ok: bool) | Ack(changeVector: string)

  datatype Outcome = Ended | CancelledError | Failed

  // ---- reading one batch ----------------------------------------------------------

  /** A turn of the loop that consumed a message it keeps. */
  datatype Turn = Stop | Take(m: Message) | Broken

  /** The loop condition, `readNextObject` and the check after it. */
  function ReadTurn(env: Env, msgs: seq<Message>, p: Pos): (Turn, Pos) {
    if Cancelled(env, p.tick) then (Stop, p.(tick := p.tick + 1))
    else if Cancelled(env, p.tick + 1) || Disposed(env, p.tick + 1) then (Stop, p.(tick := p.tick + 2))
    else if p.at >= |msgs| then (Broken, p.(tick := p.tick + 2))
    else
      var q := Pos(p.at + 1, p.tick + 3);
      if msgs[p.at].NullMessage? || Cancelled(env, p.tick + 2) then (Stop, q) else (Take(msgs[p.at]), q)
  }

  /** `readSingleSubscriptionBatchFromServer`; none is an error. */
  function ReadBatch(env: Env, msgs: seq<Message>, p: Pos, batch: seq<Item>): (r: (Option<seq<Item>>, Pos))
    ensures r.1.tick > p.tick && r.1.at >= p.at
    decreases |env.flags| - p.tick
  {
    var (t, q) := ReadTurn(env, msgs, p);
    match t
    case Stop => (Some(batch), q)
    case Broken => (None, q)
    case Take(m) =>
      match m
      case Data(item) => ReadBatch(env, msgs, q, batch + [item])
      case EndOfBatch => (Some(batch), q)
      case Confirm => ReadBatch(env, msgs, q, [])
      case ConnectionStatus(accepted) => if accepted then ReadBatch(env, msgs, q, batch) else (None, q)
      case _ => (None, q)
  }

  // ---- one batch ------------------------------------------------------------------

  predicate Usable(i: Item) {
    i.hasMetadata && i.id.Some? && i.changeVector.Some? && i.decodes
  }

  /** The change vector to acknowledge: the last item's, or the empty one. */
  function LastVector(items: seq<Item>): string {
    if items == [] || items[|items| - 1].changeVector.None? then "" else items[|items| - 1].changeVector.value
  }

  predicate AllUsable(items: seq<Item>) {
    forall i :: 0 <= i < |items| ==> Usable(items[i])
  }

  /** One turn of the loop: the run is over, or goes on. */
  datatype Round = Over(outcome: Outcome, log: seq<Event>) | Again(p: Pos, log: seq<Event>)

  /** The callback, and the acknowledgement once it returned nil. */
  function Handle(env: Env, batch: seq<Item>, q: Pos, log: seq<Event>): (r: Round)
    ensures r.Again? ==> r.p == q
  {
    var ok := env.callback(|log|, batch);
    var log1 := log + [Delivered(batch, ok)];
    if !ok then Over(Failed, log1)
    else
      var log2 := if env.connected then log1 + [Ack(LastVector(batch))] else log1;
      if env.connected && !env.written(|log1|) && !env.ignoreErrors then Over(Failed, log2) else Again(q, log2)
  }

  /** What follows the reading of a batch. */
  function AfterRead(env: Env, batch: Option<seq<Item>>, q: Pos, log: seq<Event>): (r: Round)
    ensures r.Again? ==> r.p == Pos(q.at, q.tick + 1)
  {
    if batch.None? then Over(Failed, log)
    else if Cancelled(env, q.tick) then Over(CancelledError, log)
    else if !AllUsable(batch.value) then Over(Failed, log)
    else Handle(env, batch.value, Pos(q.at, q.tick + 1), log)
  }

  /** One turn of the loop of `processSubscriptionInner`. */
  function OneRound(env: Env, msgs: seq<Message>, p: Pos, log: seq<Event>): (r: Round)
    ensures r.Again? ==> p.tick < |env.flags| && r.p.tick > p.tick
  {
    if Cancelled(env, p.tick) then Over(Ended, log)
    else
      var read := ReadBatch(env, msgs, Pos(p.at, p.tick + 1), []);
      AfterRead(env, read.0, read.1, log)
  }

  /** The loop of `processSubscriptionInner`. */
  function Process(env: Env, msgs: seq<Message>, p: Pos, log: seq<Event>): (Outcome, seq<Event>)
    decreases |env.flags| - p.tick
  {
    match OneRound(env, msgs, p, log)
    case Over(outcome, log') => (outcome, log')
    case Again(q, log') => Process(env, msgs, q, log')
  }

  // ---- acknowledgement safety -----------------------------------------------------

  /** An acknowledgement follows a callback that returned nil, and carries the change vector of the last item of
      its batch; nothing follows a callback that failed. */
  ghost predicate SafeAt(log: seq<Event>, i: nat)
    requires i < |log|
  {
    match log[i]
    case Ack(vector) => i > 0 && log[i - 1].Delivered? && log[i - 1].ok && IsLastVector(log[i - 1].items, vector)
    case Delivered(_, ok) => ok || i == |log| - 1
  }

  /** The change vector of the last item; of an empty batch, or an item without one, the empty vector. */
  ghost predicate IsLastVector(items: seq<Item>, vector: string) {
    if items != [] && items[|items| - 1].changeVector.Some? then vector == items[|items| - 1].changeVector.value else vector == ""
  }

  ghost predicate AckSafe(log: seq<Event>) {
    forall i :: 0 <= i < |log| ==> SafeAt(log, i)
  }

  /** Every callback so far returned nil. */
  ghost predicate Settled(log: seq<Event>) {
    AckSafe(log) && (log != [] && log[|log| - 1].Delivered? ==> log[|log| - 1].ok)
  }

  lemma SafeAfter(log: seq<Event>, e: Event)
    requires Settled(log)
    requires e.Ack? ==> log != [] && log[|log| - 1].Delivered? && IsLastVector(log[|log| - 1].items, e.changeVector)
    ensures AckSafe(log + [e]) && ((e.Delivered? && !e.ok) || Settled(log + [e]))
  {
    forall i | 0 <= i < |log + [e]| ensures SafeAt(log + [e], i) {
      if i < |log| { assert SafeAt(log, i); }
    }
  }

  lemma HandleSafe(env: Env, batch: seq<Item>, q: Pos, log: seq<Event>)
    requires Settled(log)
    ensures var r := Handle(env, batch, q, log); AckSafe(r.log) && log <= r.log && (r.Again? ==> Settled(r.log))
  {
    var ok := env.callback(|log|, batch);
    SafeAfter(log, Delivered(batch, ok));
    if ok { SafeAfter(log + [Delivered(batch, ok)], Ack(LastVector(batch))); }
  }

  lemma AfterReadSafe(env: Env, batch: Option<seq<Item>>, q: Pos, log: seq<Event>)
    requires Settled(log)
    ensures var r := AfterRead(env, batch, q, log); AckSafe(r.log) && log <= r.log && (r.Again? ==> Settled(r.log))
  {
    if batch.Some? { HandleSafe(env, batch.value, Pos(q.at, q.tick + 1), log); }
  }

  /** Under any stream of messages and any moment of cancellation or disposal. */
  lemma {:induction false} AcknowledgementSafety(env: Env, msgs: seq<Message>, p: Pos, log: seq<Event>)
    requires Settled(log)
    ensures AckSafe(Process(env, msgs, p, log).1) && log <= Process(env, msgs, p, log).1
    decreases |env.flags| - p.tick
  {
    var read := ReadBatch(env, msgs, Pos(p.at, p.tick + 1), []);
    AfterReadSafe(env, read.0, read.1, log);
    var r := OneRound(env, msgs, p, log);
    if r.Again? { AcknowledgementSafety(env, msgs, r.p, r.log); }
  }

  // ---- every batch is acknowledged ------------------------------------------------

  /** On a live connection each callback that returned nil is followed by an acknowledgement. */
  ghost predicate AckedAt(log: seq<Event>, i: nat)
    requires i < |log|
  {
    log[i].Delivered? && log[i].ok ==> i + 1 < |log| && log[i + 1].Ack?
  }

  ghost predicate AllAcked(log: seq<Event>) {
    forall i :: 0 <= i < |log| ==> AckedAt(log, i)
  }

  lemma HandleAcks(env: Env, batch: seq<Item>, q: Pos, log: seq<Event>)
    requires env.connected && AllAcked(log)
    ensures AllAcked(Handle(env, batch, q, log).log)
  {
    var out := Handle(env, batch, q, log).log;
    forall i | 0 <= i < |out| ensures AckedAt(out, i) {
      if i < |log| { assert AckedAt(log, i); }
    }
  }

  /** Under any stream and cancellation; the loop ends with an error if the callback fails or, unless errors are ignored,
      an acknowledgement cannot be written. */
  lemma {:induction false} EveryBatchIsAcked(env: Env, msgs: seq<Message>, p: Pos, log: seq<Event>)
    requires env.connected && AllAcked(log)
    ensures AllAcked(Process(env, msgs, p, log).1)
    decreases |env.flags| - p.tick
  {
    var read := ReadBatch(env, msgs, Pos(p.at, p.tick + 1), []);
    if read.0.Some? { HandleAcks(env, read.0.value, Pos(read.1.at, read.1.tick + 1), log); }
    var r := OneRound(env, msgs, p, log);
    if r.Again? { EveryBatchIsAcked(env, msgs, r.p, r.log); }
  }

  /** A failed callback, and an acknowledgement that cannot be written, end the run with an error. */
  lemma FailureEnds(env: Env, batch: seq<Item>, q: Pos, log: seq<Event>)
    ensures !env.callback(|log|, batch) ==> Handle(env, batch, q, log) == Over(Failed, log + [Delivered(batch, false)])
    ensures env.callback(|log|, batch) && env.connected && !env.written(|log| + 1) && !env.ignoreErrors ==> Handle(env, batch, q, log).Over?
    ensures env.callback(|log|, batch) && (!env.connected || env.written(|log| + 1) || env.ignoreErrors) ==> Handle(env, batch, q, log).Again?
  {
  }

  // ---- only usable batches are delivered -------------------------------------------

  ghost predicate UsableOnly(log: seq<Event>) {
    forall i :: 0 <= i < |log| && log[i].Delivered? ==>
      forall j :: 0 <= j < |log[i].items| ==>
        var x := log[i].items[j]; x.hasMetadata && x.id.Some? && x.changeVector.Some? && x.decodes
  }

  lemma UsableAppend(log: seq<Event>, e: Event)
    requires UsableOnly(log) && (e.Delivered? ==> AllUsable(e.items))
    ensures UsableOnly(log + [e])
  {
    if e.Delivered? {
      forall j | 0 <= j < |e.items| ensures var x := e.items[j]; x.hasMetadata && x.id.Some? && x.changeVector.Some? && x.decodes {
        assert Usable(e.items[j]);
      }
    }
  }

  lemma AfterReadUsable(env: Env, batch: Option<seq<Item>>, q: Pos, log: seq<Event>)
    requires UsableOnly(log)
    ensures UsableOnly(AfterRead(env, batch, q, log).log)
  {
    if batch.Some? && AllUsable(batch.value) {
      var delivered := Delivered(batch.value, env.callback(|log|, batch.value));
      UsableAppend(log, delivered);
      UsableAppend(log + [delivered], Ack(LastVector(batch.value)));
    }
  }

  /** The callback never sees an item without metadata, id or change vector, or one that does not decode. */
  lemma {:induction false} OnlyUsableDelivered(env: Env, msgs: seq<Message>, p: Pos, log: seq<Event>)
    requires UsableOnly(log)
    ensures UsableOnly(Process(env, msgs, p, log).1)
    decreases |env.flags| - p.tick
  {
    var read := ReadBatch(env, msgs, Pos(p.at, p.tick + 1), []);
    AfterReadUsable(env, read.0, read.1, log);
    var r := OneRound(env, msgs, p, log);
    if r.Again? { OnlyUsableDelivered(env, msgs, r.p, r.log); }
  }

  /** When reading stops: the worker is cancelled or disposed, or gets a null message; at the end of the stream it breaks;
      otherwise the next message is taken. At most that one message is consumed. */
  lemma ReadingStopsExactly(env: Env, msgs: seq<Message>, p: Pos)
    ensures var (t, q) := ReadTurn(env, msgs, p);
            var closing := Cancelled(env, p.tick) || Cancelled(env, p.tick + 1) || Disposed(env, p.tick + 1);
            && (t == Stop <==> closing || (p.at < |msgs| && (msgs[p.at].NullMessage? || Cancelled(env, p.tick + 2))))
            && (t == Broken <==> !closing && p.at >= |msgs|)
            && (t.Take? ==> p.at < |msgs| && t.m == msgs[p.at])
            && q.at == (if closing || p.at >= |msgs| then p.at else p.at + 1)
  {
  }

  /** A refused connection, an error message and an unknown one end the batch with an error. */
  lemma BadMessageFails(env: Env, msgs: seq<Message>, p: Pos, batch: seq<Item>)
    requires p.at < |msgs| && Calm(env, p.tick) && (msgs[p.at] == ConnectionStatus(false) || msgs[p.at].Error? || msgs[p.at].Unknown?)
    ensures ReadBatch(env, msgs, p, batch).0 == None
  {
  }

  /** How a round ends: in peace exactly if the worker was cancelled before it, with the cancellation error exactly if it
      was cancelled while the batch was read, and otherwise with an error or not at all. */
  lemma RoundEndsExactly(env: Env, msgs: seq<Message>, p: Pos, log: seq<Event>)
    ensures var r := OneRound(env, msgs, p, log); var (batch, q) := ReadBatch(env, msgs, Pos(p.at, p.tick + 1), []);
            && (r.Over? && r.outcome == Ended <==> Cancelled(env, p.tick))
            && (r.Over? && r.outcome == CancelledError <==> !Cancelled(env, p.tick) && batch.Some? && Cancelled(env, q.tick))
            && (r.Over? && r.log == log && r.outcome == Failed <==>
                  !Cancelled(env, p.tick) && (batch.None? || (!Cancelled(env, q.tick) && !AllUsable(batch.value))))
  {
    var read := ReadBatch(env, msgs, Pos(p.at, p.tick + 1), []);
    RoundReads(env, msgs, p, log, read.0, read.1);
  }

  // ---- what is delivered ----------------------------------------------------------

  /** The documents among the first messages. */
  function Sent(msgs: seq<Message>, n: nat): seq<Item>
    requires n <= |msgs|
  {
    if n == 0 then []
    else if msgs[n - 1].Data? then Sent(msgs, n - 1) + [msgs[n - 1].item]
    else Sent(msgs, n - 1)
  }

  /** Whether a batch has begun: documents came since it last ended. */
  predicate BatchOpen(msgs: seq<Message>, n: nat)
    requires n <= |msgs|
  {
    n > 0 && (msgs[n - 1].Data? || (!msgs[n - 1].EndOfBatch? && BatchOpen(msgs, n - 1)))
  }

  /** The server confirms only before the first document of a batch. */
  ghost predicate ConfirmFirst(msgs: seq<Message>) {
    forall i :: 0 <= i < |msgs| && msgs[i].Confirm? ==> !BatchOpen(msgs, i)
  }

  function DeliveredItems(log: seq<Event>): seq<Item> {
    if log == [] then []
    else
      var before := DeliveredItems(log[..|log| - 1]);
      if log[|log| - 1].Delivered? then before + log[|log| - 1].items else before
  }

  lemma {:induction false} SentGrows(msgs: seq<Message>, m: nat, n: nat)
    requires m <= n <= |msgs|
    ensures Sent(msgs, m) <= Sent(msgs, n)
    decreases n
  {
    if m < n { SentGrows(msgs, m, n - 1); }
  }

  lemma CancelledStays(env: Env, i: nat, j: nat)
    requires Monotone(env) && i <= j && Cancelled(env, i)
    ensures Cancelled(env, j)
  {
  }

  /** A batch that is processed holds exactly the documents read since the one before. */
  lemma {:induction false} ReadBatchSent(env: Env, msgs: seq<Message>, p: Pos, batch: seq<Item>, before: seq<Item>)
    requires Monotone(env) && ConfirmFirst(msgs) && p.at <= |msgs|
    requires Sent(msgs, p.at) == before + batch && (batch != [] ==> BatchOpen(msgs, p.at))
    ensures var (b, q) := ReadBatch(env, msgs, p, batch);
            q.at <= |msgs| && (b.Some? && !Cancelled(env, q.tick) ==> Sent(msgs, q.at) == before + b.value)
    decreases |env.flags| - p.tick
  {
    var (t, q) := ReadTurn(env, msgs, p);
    if Cancelled(env, p.tick) {
      CancelledStays(env, p.tick, q.tick);
    } else if Cancelled(env, p.tick + 1) {
      CancelledStays(env, p.tick + 1, q.tick);
    } else if Cancelled(env, p.tick + 2) {
      CancelledStays(env, p.tick + 2, p.tick + 3);
    }
    if t.Take? {
      match t.m
      case Data(item) =>
        assert before + batch + [item] == before + (batch + [item]);
        ReadBatchSent(env, msgs, q, batch + [item], before);
      case Confirm =>
        assert batch == [];
        ReadBatchSent(env, msgs, q, [], before);
      case ConnectionStatus(accepted) =>
        if accepted { ReadBatchSent(env, msgs, q, batch, before); }
      case _ =>
    }
  }

  /** If the server confirms only before a batch's first document, the delivered batches are, one after the other,
      a prefix of the documents sent: nothing is lost in between, repeated or reordered. */
  lemma {:induction false} DeliveredIsPrefix(env: Env, msgs: seq<Message>, p: Pos, log: seq<Event>)
    requires Monotone(env) && ConfirmFirst(msgs) && p.at <= |msgs| && DeliveredItems(log) == Sent(msgs, p.at)
    ensures DeliveredItems(Process(env, msgs, p, log).1) <= Sent(msgs, |msgs|)
    decreases |env.flags| - p.tick
  {
    RoundDelivers(env, msgs, p, log);
    var r := OneRound(env, msgs, p, log);
    if r.Again? { DeliveredIsPrefix(env, msgs, r.p, r.log); }
  }

  lemma HandleDelivers(env: Env, batch: seq<Item>, q: Pos, log: seq<Event>)
    ensures DeliveredItems(Handle(env, batch, q, log).log) == DeliveredItems(log) + batch
  {
    var delivered := Delivered(batch, env.callback(|log|, batch));
    DeliveredAppend(log, delivered);
    DeliveredAppend(log + [delivered], Ack(LastVector(batch)));
  }

  lemma DeliveredAppend(log: seq<Event>, e: Event)
    ensures DeliveredItems(log + [e]) == if e.Delivered? then DeliveredItems(log) + e.items else DeliveredItems(log)
  {
    assert (log + [e])[..|log|] == log;
  }

  /** After a round that goes on, all documents read so far are delivered. */
  lemma RoundDelivers(env: Env, msgs: seq<Message>, p: Pos, log: seq<Event>)
    requires Monotone(env) && ConfirmFirst(msgs) && p.at <= |msgs| && DeliveredItems(log) == Sent(msgs, p.at)
    ensures var r := OneRound(env, msgs, p, log);
            && DeliveredItems(r.log) <= Sent(msgs, |msgs|)
            && (r.Again? ==> r.p.at <= |msgs| && DeliveredItems(r.log) == Sent(msgs, r.p.at))
  {
    SentGrows(msgs, p.at, |msgs|);
    var batch, q := ReadsSent(env, msgs, Pos(p.at, p.tick + 1));
    AfterReadDelivers(env, msgs, batch, q, log, p.at);
    RoundReads(env, msgs, p, log, batch, q);
  }

  lemma RoundReads(env: Env, msgs: seq<Message>, p: Pos, log: seq<Event>, batch: Option<seq<Item>>, q: Pos)
    requires ReadBatch(env, msgs, Pos(p.at, p.tick + 1), []) == (batch, q)
    ensures OneRound(env, msgs, p, log) == if Cancelled(env, p.tick) then Over(Ended, log) else AfterRead(env, batch, q, log)
  {
  }

  /** What is read of a new batch. */
  lemma ReadsSent(env: Env, msgs: seq<Message>, p: Pos) returns (batch: Option<seq<Item>>, q: Pos)
    requires Monotone(env) && ConfirmFirst(msgs) && p.at <= |msgs|
    ensures ReadBatch(env, msgs, p, []) == (batch, q) && q.at <= |msgs|
    ensures batch.Some? && !Cancelled(env, q.tick) ==> Sent(msgs, q.at) == Sent(msgs, p.at) + batch.value
  {
    assert Sent(msgs, p.at) + [] == Sent(msgs, p.at);
    ReadBatchSent(env, msgs, p, [], Sent(msgs, p.at));
    batch, q := ReadBatch(env, msgs, p, []).0, ReadBatch(env, msgs, p, []).1;
  }

  lemma AfterReadDelivers(env: Env, msgs: seq<Message>, batch: Option<seq<Item>>, q: Pos, log: seq<Event>, at: nat)
    requires at <= |msgs| && DeliveredItems(log) == Sent(msgs, at) && q.at <= |msgs|
    requires batch.Some? && !Cancelled(env, q.tick) ==> Sent(msgs, q.at) == DeliveredItems(log) + batch.value
    ensures var r := AfterRead(env, batch, q, log);
            && DeliveredItems(r.log) <= Sent(msgs, |msgs|)
            && (r.Again? ==> DeliveredItems(r.log) == Sent(msgs, q.at))
  {
    SentGrows(msgs, at, |msgs|);
    SentGrows(msgs, q.at, |msgs|);
    if batch.Some? { HandleDelivers(env, batch.value, Pos(q.at, q.tick + 1), log); }
  }

  /** The whole connection, from its first message on. */
  lemma ConnectionSafety(env: Env, msgs: seq<Message>)
    ensures AckSafe(Process(env, msgs, Pos(0, 0), []).1)
    ensures Monotone(env) && ConfirmFirst(msgs) ==> DeliveredItems(Process(env, msgs, Pos(0, 0), []).1) <= Sent(msgs, |msgs|)
  {
    AcknowledgementSafety(env, msgs, Pos(0, 0), []);
    if Monotone(env) && ConfirmFirst(msgs) { DeliveredIsPrefix(env, msgs, Pos(0, 0), []); }
  }

  /** A confirmation inside a batch throws away the documents read before it. */
  lemma ConfirmForgets(env: Env, msgs: seq<Message>, p: Pos, batch: seq<Item>)
    requires p.at < |msgs| && msgs[p.at].Confirm?
    requires !Cancelled(env, p.tick) && !Cancelled(env, p.tick + 1) && !Disposed(env, p.tick + 1) && !Cancelled(env, p.tick + 2)
    ensures ReadBatch(env, msgs, p, batch) == ReadBatch(env, msgs, Pos(p.at + 1, p.tick + 3), [])
  {
  }

  ghost predicate Quiet(env: Env, ticks: nat) {
    |env.flags| >= ticks && forall i :: 0 <= i < ticks ==> env.flags[i] == Flags(false, false)
  }

  lemma ReadData(env: Env, msgs: seq<Message>, p: Pos, batch: seq<Item>)
    requires Quiet(env, p.tick + 3) && p.at < |msgs| && msgs[p.at].Data?
    ensures ReadBatch(env, msgs, p, batch) == ReadBatch(env, msgs, Pos(p.at + 1, p.tick + 3), batch + [msgs[p.at].item])
  {
  }

  lemma SentFour(a: Item, b: Item)
    ensures Sent([Data(a), Confirm, Data(b), EndOfBatch], 4) == [a, b]
  {
    var msgs := [Data(a), Confirm, Data(b), EndOfBatch];
    assert Sent(msgs, 0) == [];
    assert Sent(msgs, 1) == [a];
    assert Sent(msgs, 2) == Sent(msgs, 1);
    assert Sent(msgs, 3) == Sent(msgs, 2) + [b];
    assert Sent(msgs, 4) == Sent(msgs, 3);
  }

  /** One document, a confirmation, another document and the end of the batch: only the second one arrives. */
  lemma ConfirmLosesDocument(env: Env, a: Item, b: Item)
    requires a != b && Quiet(env, 12)
    ensures var msgs := [Data(a), Confirm, Data(b), EndOfBatch];
            && ReadBatch(env, msgs, Pos(0, 0), []) == (Some([b]), Pos(4, 12))
            && Sent(msgs, 4) == [a, b] && !([b] <= Sent(msgs, 4))
  {
    var msgs := [Data(a), Confirm, Data(b), EndOfBatch];
    ReadData(env, msgs, Pos(0, 0), []);
    assert [] + [a] == [a] && [] + [b] == [b];
    ConfirmForgets(env, msgs, Pos(1, 3), [a]);
    ReadData(env, msgs, Pos(2, 6), []);
    assert ReadBatch(env, msgs, Pos(3, 9), [b]) == (Some([b]), Pos(4, 12));
    SentFour(a, b);
    assert [b][0] != Sent(msgs, 4)[0];
  }

  // ---- exactly which documents arrive ---------------------------------------------

  /** A message that reading goes on after. */
  predicate GoesOn(m: Message) {
    m.Data? || m.Confirm? || m == ConnectionStatus(true)
  }

  /** From a position on, a batch of `n` messages and its end. */
  ghost predicate Segment(msgs: seq<Message>, at: nat, n: nat) {
    at + n < |msgs| && msgs[at + n].EndOfBatch? && forall i :: at <= i < at + n ==> GoesOn(msgs[i])
  }

  /** The documents of the batch, and those since its last confirmation. */
  function Documents(msgs: seq<Message>, at: nat, n: nat): seq<Item>
    requires at + n <= |msgs|
  {
    if n == 0 then []
    else if msgs[at + n - 1].Data? then Documents(msgs, at, n - 1) + [msgs[at + n - 1].item]
    else Documents(msgs, at, n - 1)
  }

  function SinceConfirm(msgs: seq<Message>, at: nat, n: nat): seq<Item>
    requires at + n <= |msgs|
  {
    if n == 0 || msgs[at + n - 1].Confirm? then []
    else if msgs[at + n - 1].Data? then SinceConfirm(msgs, at, n - 1) + [msgs[at + n - 1].item]
    else SinceConfirm(msgs, at, n - 1)
  }

  /** A confirmation follows a document. */
  ghost predicate ConfirmAfterData(msgs: seq<Message>, at: nat, n: nat)
    requires at + n <= |msgs|
  {
    exists i, j :: at <= i < j < at + n && msgs[i].Data? && msgs[j].Confirm?
  }

  lemma {:induction false} NoDocuments(msgs: seq<Message>, at: nat, n: nat)
    requires at + n <= |msgs|
    ensures Documents(msgs, at, n) == [] <==> forall i :: at <= i < at + n ==> !msgs[i].Data?
    decreases n
  {
    if n > 0 { NoDocuments(msgs, at, n - 1); }
  }

  /** Nothing of a batch is lost exactly if no confirmation follows a document in it. */
  lemma {:induction false} NothingLostExactly(msgs: seq<Message>, at: nat, n: nat)
    requires at + n <= |msgs|
    ensures SinceConfirm(msgs, at, n) == Documents(msgs, at, n) <==> !ConfirmAfterData(msgs, at, n)
    decreases n
  {
    if n > 0 {
      NothingLostExactly(msgs, at, n - 1);
      var last := msgs[at + n - 1];
      if last.Confirm? {
        NoDocuments(msgs, at, n - 1);
        if i :| at <= i < at + n - 1 && msgs[i].Data? { assert ConfirmAfterData(msgs, at, n); }
      } else {
        if ConfirmAfterData(msgs, at, n - 1) {
          var i, j :| at <= i < j < at + n - 1 && msgs[i].Data? && msgs[j].Confirm?;
          assert ConfirmAfterData(msgs, at, n);
        }
        if last.Data? { SameEnds(SinceConfirm(msgs, at, n - 1), Documents(msgs, at, n - 1), last.item); }
      }
    }
  }

  lemma SameEnds<T>(a: seq<T>, b: seq<T>, x: T)
    ensures a + [x] == b + [x] <==> a == b
  {
    if a + [x] == b + [x] { assert a == (a + [x])[..|a|] && b == (b + [x])[..|b|]; }
  }

  /** What a quiet worker makes of a batch once it has read its first `k` messages. */
  ghost function ReadRest(env: Env, msgs: seq<Message>, p: Pos, k: nat): (Option<seq<Item>>, Pos)
    requires p.at + k <= |msgs|
  {
    ReadBatch(env, msgs, Pos(p.at + k, p.tick + 3 * k), SinceConfirm(msgs, p.at, k))
  }

  lemma RestNext(env: Env, msgs: seq<Message>, p: Pos, k: nat)
    requires p.at + k < |msgs| && GoesOn(msgs[p.at + k]) && Calm(env, p.tick + 3 * k)
    ensures ReadRest(env, msgs, p, k) == ReadRest(env, msgs, p, k + 1)
  {
    ReadsNext(env, msgs, p.at, k, p.tick + 3 * k);
  }

  /** No turn that looks at these flags is stopped. */
  ghost predicate Calm(env: Env, tick: nat) {
    !Cancelled(env, tick) && !Cancelled(env, tick + 1) && !Disposed(env, tick + 1) && !Cancelled(env, tick + 2)
  }

  lemma QuietTurn(env: Env, ticks: nat, tick: nat)
    requires Quiet(env, ticks) && tick + 3 <= ticks
    ensures Calm(env, tick)
  {
  }

  lemma RestEnds(env: Env, msgs: seq<Message>, p: Pos, n: nat)
    requires p.at + n < |msgs| && msgs[p.at + n].EndOfBatch? && Calm(env, p.tick + 3 * n)
    ensures ReadRest(env, msgs, p, n) == (Some(SinceConfirm(msgs, p.at, n)), Pos(p.at + n + 1, p.tick + 3 * (n + 1)))
  {
    ReadsEnd(env, msgs, Pos(p.at + n, p.tick + 3 * n), SinceConfirm(msgs, p.at, n));
  }

  lemma RestStarts(env: Env, msgs: seq<Message>, p: Pos)
    requires p.at <= |msgs|
    ensures ReadRest(env, msgs, p, 0) == ReadBatch(env, msgs, p, [])
  {
  }

  lemma RestSame(env: Env, msgs: seq<Message>, p: Pos, n: nat)
    requires Segment(msgs, p.at, n) && Quiet(env, p.tick + 3 * (n + 1))
    ensures ReadRest(env, msgs, p, 0) == ReadRest(env, msgs, p, n)
  {
    var f := (k: nat) => if k <= n then ReadRest(env, msgs, p, k) else (None, p);
    forall k | 0 <= k < n ensures f(k) == f(k + 1) {
      QuietTurn(env, p.tick + 3 * (n + 1), p.tick + 3 * k);
      RestNext(env, msgs, p, k);
    }
    Chain(f, n);
  }

  /** What a quiet worker reads of a batch. */
  lemma ReadsSince(env: Env, msgs: seq<Message>, p: Pos, n: nat)
    requires Segment(msgs, p.at, n) && Quiet(env, p.tick + 3 * (n + 1))
    ensures ReadBatch(env, msgs, p, []) == (Some(SinceConfirm(msgs, p.at, n)), Pos(p.at + n + 1, p.tick + 3 * (n + 1)))
  {
    RestStarts(env, msgs, p);
    RestSame(env, msgs, p, n);
    QuietTurn(env, p.tick + 3 * (n + 1), p.tick + 3 * n);
    RestEnds(env, msgs, p, n);
  }

  lemma QuietLess(env: Env, ticks: nat, fewer: nat)
    requires Quiet(env, ticks) && fewer <= ticks
    ensures Quiet(env, fewer)
  {
  }

  lemma ReadsNext(env: Env, msgs: seq<Message>, at: nat, k: nat, tick: nat)
    requires at + k < |msgs| && GoesOn(msgs[at + k]) && Calm(env, tick)
    ensures ReadBatch(env, msgs, Pos(at + k, tick), SinceConfirm(msgs, at, k))
            == ReadBatch(env, msgs, Pos(at + k + 1, tick + 3), SinceConfirm(msgs, at, k + 1))
  {
  }

  lemma ReadsEnd(env: Env, msgs: seq<Message>, p: Pos, batch: seq<Item>)
    requires p.at < |msgs| && msgs[p.at].EndOfBatch? && Calm(env, p.tick)
    ensures ReadBatch(env, msgs, p, batch) == (Some(batch), Pos(p.at + 1, p.tick + 3))
  {
  }

  /** Exactly what arrives of a batch: the documents since its last confirmation, which are all of them if and only if
      no confirmation follows a document. */
  lemma BatchArrivesExactly(env: Env, msgs: seq<Message>, p: Pos, n: nat)
    requires Segment(msgs, p.at, n) && Quiet(env, p.tick + 3 * (n + 1))
    ensures ReadBatch(env, msgs, p, []) == (Some(SinceConfirm(msgs, p.at, n)), Pos(p.at + n + 1, p.tick + 3 * (n + 1)))
    ensures ReadBatch(env, msgs, p, []).0 == Some(Documents(msgs, p.at, n)) <==> !ConfirmAfterData(msgs, p.at, n)
  {
    ReadsSince(env, msgs, p, n);
    NothingLostExactly(msgs, p.at, n);
  }

  /** What was delivered and what is being read, after the first messages. */
  datatype Progress = Progress(delivered: seq<Item>, batch: seq<Item>)

  function After(msgs: seq<Message>, n: nat): Progress
    requires n <= |msgs|
  {
    if n == 0 then Progress([], [])
    else
      var p := After(msgs, n - 1);
      match msgs[n - 1]
      case Data(item) => p.(batch := p.batch + [item])
      case EndOfBatch => Progress(p.delivered + p.batch, [])
      case Confirm => p.(batch := [])
      case _ => p
  }

  lemma {:induction false} AfterSegment(msgs: seq<Message>, at: nat, n: nat, k: nat)
    requires Segment(msgs, at, n) && k <= n && After(msgs, at).batch == []
    ensures After(msgs, at + k) == Progress(After(msgs, at).delivered, SinceConfirm(msgs, at, k))
    decreases k
  {
    if k > 0 { AfterSegment(msgs, at, n, k - 1); }
  }

  /** A stream of complete batches of usable documents. */
  ghost predicate Complete(msgs: seq<Message>) {
    && (msgs != [] ==> msgs[|msgs| - 1].EndOfBatch?)
    && forall i :: 0 <= i < |msgs| ==> (GoesOn(msgs[i]) || msgs[i].EndOfBatch?) && (msgs[i].Data? ==> Usable(msgs[i].item))
  }

  lemma {:induction false} NextEnd(msgs: seq<Message>, at: nat, k: nat) returns (n: nat)
    requires Complete(msgs) && at + k < |msgs| && forall i :: at <= i < at + k ==> GoesOn(msgs[i])
    ensures Segment(msgs, at, n)
    decreases |msgs| - (at + k)
  {
    if msgs[at + k].EndOfBatch? {
      n := k;
    } else {
      n := NextEnd(msgs, at, k + 1);
    }
  }

  lemma {:induction false} SinceUsable(msgs: seq<Message>, at: nat, n: nat)
    requires Complete(msgs) && at + n <= |msgs|
    ensures AllUsable(SinceConfirm(msgs, at, n))
    decreases n
  {
    if n > 0 { SinceUsable(msgs, at, n - 1); }
  }

  /** The callback returns nil, and acknowledgements are written. */
  ghost predicate Smooth(env: Env) {
    && (forall k, items :: env.callback(k, items)) && (env.ignoreErrors || forall k :: env.written(k))
  }

  /** A round whose batch is read and usable goes on to the callback. */
  lemma RoundHandles(env: Env, msgs: seq<Message>, p: Pos, log: seq<Event>, batch: seq<Item>, q: Pos)
    requires !Cancelled(env, p.tick) && ReadBatch(env, msgs, Pos(p.at, p.tick + 1), []) == (Some(batch), q)
    requires !Cancelled(env, q.tick) && AllUsable(batch)
    ensures OneRound(env, msgs, p, log) == Handle(env, batch, Pos(q.at, q.tick + 1), log)
  {
  }

  lemma SmoothHandles(env: Env, batch: seq<Item>, q: Pos, log: seq<Event>) returns (log': seq<Event>)
    requires Smooth(env)
    ensures Handle(env, batch, q, log) == Again(q, log') && DeliveredItems(log') == DeliveredItems(log) + batch
  {
    HandleDelivers(env, batch, q, log);
    log' := Handle(env, batch, q, log).log;
  }

  /** Between two batches, with these documents delivered. */
  ghost predicate UpTo(msgs: seq<Message>, at: nat, delivered: seq<Item>) {
    at <= |msgs| && After(msgs, at) == Progress(delivered, [])
  }

  lemma AfterEnd(msgs: seq<Message>, at: nat, n: nat, delivered: seq<Item>)
    requires Segment(msgs, at, n) && UpTo(msgs, at, delivered)
    ensures UpTo(msgs, at + n + 1, delivered + SinceConfirm(msgs, at, n))
  {
    AfterSegment(msgs, at, n, n);
  }

  /** One quiet round reads one batch. */
  lemma RoundOfBatch(env: Env, msgs: seq<Message>, p: Pos, log: seq<Event>, n: nat)
    requires Complete(msgs) && Segment(msgs, p.at, n) && Quiet(env, p.tick + 3 * n + 5)
    ensures OneRound(env, msgs, p, log) == Handle(env, SinceConfirm(msgs, p.at, n), Pos(p.at + n + 1, p.tick + 3 * n + 5), log)
  {
    QuietLess(env, p.tick + 3 * n + 5, p.tick + 1 + 3 * (n + 1));
    ReadsSince(env, msgs, Pos(p.at, p.tick + 1), n);
    SinceUsable(msgs, p.at, n);
    RoundHandles(env, msgs, p, log, SinceConfirm(msgs, p.at, n), Pos(p.at + n + 1, p.tick + 3 * n + 4));
  }

  /** A quiet worker between two batches. */
  ghost predicate Between(env: Env, msgs: seq<Message>, p: Pos, log: seq<Event>) {
    Complete(msgs) && Smooth(env) && UpTo(msgs, p.at, DeliveredItems(log)) && Quiet(env, p.tick + 5 * (|msgs| - p.at) + 3)
  }

  lemma ProcessAgain(env: Env, msgs: seq<Message>, p: Pos, log: seq<Event>, q: Pos, log': seq<Event>)
    requires OneRound(env, msgs, p, log) == Again(q, log')
    ensures Process(env, msgs, p, log) == Process(env, msgs, q, log')
  {
  }

  /** The next batch is delivered, and the worker is between two batches again. */
  lemma BetweenNext(env: Env, msgs: seq<Message>, p: Pos, log: seq<Event>, n: nat, log': seq<Event>)
    requires Between(env, msgs, p, log) && Segment(msgs, p.at, n)
    requires DeliveredItems(log') == DeliveredItems(log) + SinceConfirm(msgs, p.at, n)
    ensures Quiet(env, p.tick + 3 * n + 5) && Between(env, msgs, Pos(p.at + n + 1, p.tick + 3 * n + 5), log')
  {
    var ticks := p.tick + 5 * (|msgs| - p.at) + 3;
    QuietLess(env, ticks, p.tick + 3 * n + 5);
    QuietLess(env, ticks, p.tick + 3 * n + 5 + 5 * (|msgs| - (p.at + n + 1)) + 3);
    AfterEnd(msgs, p.at, n, DeliveredItems(log));
  }

  /** One quiet round delivers one batch. */
  lemma RoundArrives(env: Env, msgs: seq<Message>, p: Pos, log: seq<Event>, n: nat) returns (q: Pos, log': seq<Event>)
    requires Between(env, msgs, p, log) && Segment(msgs, p.at, n)
    ensures q.at > p.at && Between(env, msgs, q, log') && Process(env, msgs, p, log) == Process(env, msgs, q, log')
  {
    q := Pos(p.at + n + 1, p.tick + 3 * n + 5);
    log' := SmoothHandles(env, SinceConfirm(msgs, p.at, n), q, log);
    BetweenNext(env, msgs, p, log, n, log');
    RoundOfBatch(env, msgs, p, log, n);
    ProcessAgain(env, msgs, p, log, q, log');
  }

  lemma ProcessEnds(env: Env, msgs: seq<Message>, p: Pos, log: seq<Event>)
    requires p.at == |msgs| && Quiet(env, p.tick + 3)
    ensures Process(env, msgs, p, log) == (Failed, log)
  {
    assert ReadTurn(env, msgs, Pos(p.at, p.tick + 1)).0 == Broken;
  }

  /** What a quiet worker delivers until the stream ends. */
  lemma {:induction false} ProcessArrives(env: Env, msgs: seq<Message>, p: Pos, log: seq<Event>)
    requires Between(env, msgs, p, log)
    ensures UpTo(msgs, |msgs|, DeliveredItems(Process(env, msgs, p, log).1))
    decreases |msgs| - p.at
  {
    if p.at < |msgs| {
      var n := NextEnd(msgs, p.at, 0);
      var q, log' := RoundArrives(env, msgs, p, log, n);
      ProcessArrives(env, msgs, q, log');
    } else {
      ProcessEnds(env, msgs, p, log);
    }
  }

  function Total(p: Progress): nat {
    |p.delivered| + |p.batch|
  }

  /** Up to a position no confirmation came inside a batch. */
  ghost predicate ConfirmFirstTo(msgs: seq<Message>, n: nat)
    requires n <= |msgs|
  {
    forall i :: 0 <= i < n && msgs[i].Confirm? ==> !BatchOpen(msgs, i)
  }

  lemma {:induction false} NothingLostSoFar(msgs: seq<Message>, n: nat)
    requires n <= |msgs|
    ensures ConfirmFirstTo(msgs, n) ==>
              After(msgs, n).delivered + After(msgs, n).batch == Sent(msgs, n) && (After(msgs, n).batch != [] <==> BatchOpen(msgs, n))
    ensures !ConfirmFirstTo(msgs, n) ==> Total(After(msgs, n)) < |Sent(msgs, n)|
    decreases n
  {
    if n > 0 {
      NothingLostSoFar(msgs, n - 1);
      if msgs[n - 1].Data? {
        var p := After(msgs, n - 1);
        assert p.delivered + (p.batch + [msgs[n - 1].item]) == p.delivered + p.batch + [msgs[n - 1].item];
      }
    }
  }

  /** Exactly when every document of a connection arrives: a quiet worker with a callback that returns nil delivers, on a
      stream of complete batches, all documents sent if and only if no confirmation comes inside a batch. */
  lemma EverythingArrivesExactly(env: Env, msgs: seq<Message>)
    requires Complete(msgs) && Smooth(env) && Quiet(env, 5 * |msgs| + 3)
    ensures DeliveredItems(Process(env, msgs, Pos(0, 0), []).1) == Sent(msgs, |msgs|) <==> ConfirmFirst(msgs)
  {
    ProcessArrives(env, msgs, Pos(0, 0), []);
    NothingLostSoFar(msgs, |msgs|);
    var p := After(msgs, |msgs|);
    assert p.batch == [] && p.delivered + [] == p.delivered;
    assert ConfirmFirst(msgs) <==> ConfirmFirstTo(msgs, |msgs|);
  }

  // ---- the worker -----------------------------------------------------------------

  class SubscriptionWorker {
    const env: Env
    const stream: seq<Message>   // what the server sends on this connection
    var read: nat
    var tick: nat
    var items: seq<Item>         // of the batch object the worker reuses
    var log: seq<Event>

    ghost function At(): Pos
      reads this
    {
      Pos(read, tick)
    }

    constructor (env: Env, stream: seq<Message>)
      ensures this.env == env && this.stream == stream && At() == Pos(0, 0) && log == []
    {
      this.env := env;
      this.stream := stream;
      read, tick, items, log := 0, 0, [], [];
    }

    method IsCancellationRequested() returns (yes: bool)
      modifies this`tick
      ensures yes == Cancelled(env, old(tick)) && tick == old(tick) + 1
    {
      yes := tick >= |env.flags| || env.flags[tick].cancelled;
      tick := tick + 1;
    }

    /** `readNextObject`: no message if the worker is shutting down, `failed` at the end of the stream. */
    method ReadNextObject() returns (m: Option<Message>, failed: bool)
      modifies this`tick, this`read
      ensures tick == old(tick) + 1
      ensures var quiet := Cancelled(env, old(tick)) || Disposed(env, old(tick));
              && failed == (!quiet && old(read) >= |stream|)
              && read == (if quiet || failed then old(read) else old(read) + 1)
              && m == (if quiet || failed then None else Some(stream[old(read)]))
    {
      var quiet := tick >= |env.flags| || env.flags[tick].cancelled || env.flags[tick].disposed;
      tick := tick + 1;
      if quiet { return None, false; }
      if read >= |stream| { return None, true; }
      m, failed := Some(stream[read]), false;
      read := read + 1;
    }

    /** `readSingleSubscriptionBatchFromServer`. */
    method ReadSingleBatch() returns (batch: Option<seq<Item>>)
      modifies this`tick, this`read
      ensures (batch, At()) == ReadBatch(env, stream, old(At()), [])
    {
      var incoming: seq<Item> := [];
      ghost var all := ReadBatch(env, stream, At(), []);
      while true
        invariant ReadBatch(env, stream, At(), incoming) == all
        decreases |env.flags| - tick
      {
        ghost var turn := ReadTurn(env, stream, At());
        var cancelled := IsCancellationRequested();
        if cancelled { return Some(incoming); }
        var m, failed := ReadNextObject();
        if failed { return None; }
        if m.None? { return Some(incoming); }
        cancelled := IsCancellationRequested();
        if m.value.NullMessage? || cancelled { return Some(incoming); }
        assert turn == (Take(m.value), At());
        match m.value {
          case Data(item) => incoming := incoming + [item];
          case EndOfBatch => return Some(incoming);
          case Confirm => incoming := [];
          case ConnectionStatus(accepted) => if !accepted { return None; }
          case _ => return None;
        }
      }
    }

    /** `SubscriptionBatch.initialize`: the items, and the change vector to acknowledge. */
    method Initialize(batch: seq<Item>) returns (vector: Option<string>)
      modifies this`items
      ensures vector == if AllUsable(batch) then Some(LastVector(batch)) else None
      ensures vector.Some? ==> items == batch
    {
      items := [];
      var last := "";
      var i := 0;
      while i < |batch|
        invariant 0 <= i <= |batch| && items == batch[..i] && AllUsable(batch[..i]) && last == LastVector(batch[..i])
      {
        var item := batch[i];
        if !item.hasMetadata || item.id.None? || item.changeVector.None? || !item.decodes {
          assert !Usable(batch[i]);
          return None;
        }
        last := item.changeVector.value;
        assert batch[..i + 1] == batch[..i] + [item];
        items := items + [item];
        i := i + 1;
      }
      assert batch[..i] == batch;
      vector := Some(last);
    }

    /** The loop of `processSubscriptionInner`. */
    method ProcessSubscription() returns (outcome: Outcome)
      modifies this
      ensures (outcome, log) == Process(env, stream, old(At()), old(log))
    {
      ghost var all := Process(env, stream, At(), log);
      while true
        invariant Process(env, stream, At(), log) == all
        decreases |env.flags| - tick
      {
        var done := ProcessOne();
        if done.Some? { return done.value; }
      }
    }

    /** One turn of the loop. */
    method ProcessOne() returns (done: Option<Outcome>)
      modifies this
      ensures OneRound(env, stream, old(At()), old(log)) == if done.Some? then Over(done.value, log) else Again(At(), log)
    {
      var cancelled := IsCancellationRequested();
      if cancelled { return Some(Ended); }
      var incoming := ReadSingleBatch();
      if incoming.None? { return Some(Failed); }
      cancelled := IsCancellationRequested();
      if cancelled { return Some(CancelledError); }
      var vector := Initialize(incoming.value);
      if vector.None? { return Some(Failed); }
      done := HandleBatch(vector.value);
    }

    /** The callback on the initialized batch, then the acknowledgement. */
    method HandleBatch(vector: string) returns (outcome: Option<Outcome>)
      requires vector == LastVector(items)
      modifies this`log
      ensures Handle(env, items, At(), old(log)) == if outcome.Some? then Over(outcome.value, log) else Again(At(), log)
    {
      var ok := env.callback(|log|, items);
      log := log + [Delivered(items, ok)];
      if !ok { return Some(Failed); }
      if env.connected {
        var written := env.written(|log|);
        log := log + [Ack(vector)];
        if !written && !env.ignoreErrors { return Some(Failed); }
      }
      outcome := None;
    }
  }
}
