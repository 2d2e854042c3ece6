/** The HTTP cache and the server it answers for: generation stamps, ETags and 304 replies. */
module HttpCache {
  import opened Wrappers
  import opened Arithmetic

  type Url = string
  type Body = string

  /** What the server has at a URL. */
  datatype Answer = Missing | Present(etag: Option<string>, body: Body)

  function Value(a: Answer): Option<Body> {
    if a.Missing? then None else Some(a.body)
  }

  /** The change vector of a remembered 404. */
  const NOT_FOUND := "404 response"

  datatype Item = Item(etag: string, body: Option<Body>, generation: int)

  datatype Cache = Cache(items: map<Url, Item>, generation: int)

  const TWO32 := 0x1_0000_0000

  /** The value of a 32-bit counter after a number of increments. */
  function Wrap32(n: int): (w: int)
    ensures -TWO32 / 2 <= w < TWO32 / 2
  {
    (n + TWO32 / 2) % TWO32 - TWO32 / 2
  }

  /** The counter has 32 bits: after its greatest value comes its least. */
  lemma WrapsAround(n: int)
    ensures -0x8000_0000 <= n < 0x8000_0000 ==> Wrap32(n) == n
    ensures n == 0x7fff_ffff ==> Wrap32(n + 1) == -0x8000_0000
  {
  }

  function IncGeneration(c: Cache): Cache {
    c.(generation := Wrap32(c.generation + 1))
  }

  function Set(c: Cache, url: Url, etag: string, body: Body): Cache {
    c.(items := c.items[url := Item(etag, Some(body), c.generation)])
  }

  function SetNotFound(c: Cache, url: Url): Cache {
    c.(items := c.items[url := Item(NOT_FOUND, None, c.generation)])
  }

  /** Flags of a read command: it may be cached, and answered from the cache without asking. */
  datatype Read = Read(url: Url, canCache: bool, aggressive: bool)

  /** `getFromCache`. */
  function Cached(c: Cache, r: Read): Option<Item> {
    if r.canCache && r.url in c.items then Some(c.items[r.url]) else None
  }

  /** `aggressive` holds if the option is on, the item has not expired and the command allows it. */
  predicate AnsweredFromCache(c: Cache, r: Read) {
    Cached(c, r).Some? && r.aggressive && Cached(c, r).value.generation == c.generation
  }

  // ---- the wire -------------------------------------------------------------------

  datatype Response = NotModified | Success(etag: Option<string>, body: Body) | NotFound

  /** A server may answer 304 only if the ETags are equal; `honors` tells whether it does. */
  function Respond(a: Answer, ifNoneMatch: Option<string>, honors: bool): Response {
    if a.Missing? then NotFound
    else if honors && ifNoneMatch.Some? && a.etag == ifNoneMatch then NotModified
    else Success(a.etag, a.body)
  }

  /** A request that was answered and not yet processed. */
  datatype Flight = Flight(read: Read, cached: Option<Item>, response: Response)

  function IfNoneMatch(cached: Option<Item>): Option<string> {
    if cached.Some? then Some(cached.value.etag) else None
  }

  /** What the command gets. */
  function Result(f: Flight): Option<Body> {
    match f.response
    case NotModified => if f.cached.Some? then f.cached.value.body else None
    case Success(_, body) => Some(body)
    case NotFound => None
  }

  /** `cacheResponse` and `setNotFound`; a 404 is remembered for every command. */
  function Processed(c: Cache, f: Flight): Cache {
    match f.response
    case NotModified => c
    case Success(etag, body) => if f.read.canCache && etag.Some? then Set(c, f.read.url, etag.value, body) else c
    case NotFound => SetNotFound(c, f.read.url)
  }

  // ---- client and server together -------------------------------------------------

  /** `bumps` and `stamps` count what the wrapped counters forget; `changed` marks a change no bump followed yet;
      `answers` holds what the server had when it answered each flight. */
  datatype State = State(
    server: map<Url, Answer>,
    cache: Cache,
    flights: seq<Flight>,
    answers: seq<Answer>,
    bumps: nat,
    stamps: map<Url, nat>,
    changed: bool)

  function At(s: State, url: Url): Answer {
    if url in s.server then s.server[url] else Missing
  }

  datatype Step =
    | Change(url: Url, answer: Answer)
    | Bump
    | Send(read: Read, honors: bool)
    | Deliver(i: nat)

  function Next(s: State, step: Step): State {
    match step
    case Change(url, answer) => s.(server := s.server[url := answer], changed := true)
    case Bump => s.(cache := IncGeneration(s.cache), bumps := s.bumps + 1, changed := false)
    case Send(read, honors) =>
      if AnsweredFromCache(s.cache, read) then s
      else
        var cached := Cached(s.cache, read);
        var flight := Flight(read, cached, Respond(At(s, read.url), IfNoneMatch(cached), honors));
        s.(flights := s.flights + [flight], answers := s.answers + [At(s, read.url)])
    case Deliver(i) =>
      if i < |s.flights| && i < |s.answers| then
        var f := s.flights[i];
        var cache := Processed(s.cache, f);
        s.(cache := cache, flights := Without(s.flights, i), answers := Without(s.answers, i),
           stamps := if cache == s.cache then s.stamps else s.stamps[f.read.url := s.bumps])
      else s
  }

  /** Equal ETags at a URL mean equal content, and nothing has the ETag of a remembered 404. */
  ghost predicate Honest(content: (Url, string) -> Body, url: Url, a: Answer) {
    a.Present? && a.etag.Some? ==> a.etag.value != NOT_FOUND && a.body == content(url, a.etag.value)
  }

  /** The conditions: every change is followed by a bump before the next read; no bump passes a response that will
      be stored and that a change has made old; and an item that may be answered from is not a multiple of 2^32 bumps old. */
  ghost predicate Legal(content: (Url, string) -> Body, s: State, step: Step) {
    match step
    case Change(url, answer) => Honest(content, url, answer)
    case Bump => forall i :: 0 <= i < |s.flights| && i < |s.answers| && Stores(s.flights[i]) ==> Current(s, i)
    case Send(read, _) => !s.changed && (read.canCache && read.aggressive && read.url in s.stamps ==> !Wrapped(s, read.url))
    case Deliver(i) => i < |s.flights|
  }

  /** A response that is stored: a 404, or a cacheable body with its ETag. */
  predicate Stores(f: Flight) {
    f.response.NotFound? || (f.response.Success? && f.read.canCache && f.response.etag.Some?)
  }

  /** The server still has what it answered. */
  predicate Current(s: State, i: nat)
    requires i < |s.flights| && i < |s.answers|
  {
    Value(s.answers[i]) == Value(At(s, s.flights[i].read.url))
  }

  /** The counter has come round since the item was stored. */
  predicate Wrapped(s: State, url: Url)
    requires url in s.stamps
  {
    s.bumps != s.stamps[url] && (s.bumps - s.stamps[url]) % TWO32 == 0
  }

  /** The read commands that end in this step get the server's answer: the present one from the cache, and
      otherwise the one it had when it was asked. */
  ghost predicate Right(s: State, step: Step) {
    match step
    case Send(read, _) =>
      AnsweredFromCache(s.cache, read) ==> Cached(s.cache, read).value.body == Value(At(s, read.url))
    case Deliver(i) => i < |s.flights| && i < |s.answers| ==> Result(s.flights[i]) == Value(s.answers[i])
    case _ => true
  }

  // ---- the invariant --------------------------------------------------------------

  ghost predicate HonestItem(content: (Url, string) -> Body, url: Url, item: Item) {
    item.body == if item.etag == NOT_FOUND then None else Some(content(url, item.etag))
  }

  /** An item of the present generation has what the server has. */
  ghost predicate UpToDate(s: State) {
    !s.changed ==> forall url :: url in s.cache.items && url in s.stamps && s.stamps[url] == s.bumps ==>
      s.cache.items[url].body == Value(At(s, url))
  }

  ghost predicate Stamped(s: State) {
    && s.cache.generation == Wrap32(s.bumps) && s.stamps.Keys == s.cache.items.Keys
    && forall url :: url in s.stamps ==>
         url in s.cache.items && s.stamps[url] <= s.bumps && s.cache.items[url].generation == Wrap32(s.stamps[url])
  }

  ghost predicate HonestState(content: (Url, string) -> Body, s: State) {
    && (forall url :: url in s.server ==> Honest(content, url, s.server[url]))
    && (forall url :: url in s.cache.items ==> HonestItem(content, url, s.cache.items[url]))
  }

  /** A flight carries what the server had, and the server still has it unless a change is pending. */
  ghost predicate GoodFlight(content: (Url, string) -> Body, s: State, i: nat)
    requires i < |s.flights| && i < |s.answers|
  {
    var f, a := s.flights[i], s.answers[i];
    && Honest(content, f.read.url, a) && (!s.changed && Stores(f) ==> Current(s, i))
    && (f.cached.Some? ==> HonestItem(content, f.read.url, f.cached.value))
    && exists honors :: f.response == Respond(a, IfNoneMatch(f.cached), honors)
  }

  ghost predicate Inv(content: (Url, string) -> Body, s: State) {
    && HonestState(content, s) && Stamped(s) && UpToDate(s) && |s.flights| == |s.answers|
    && forall i :: 0 <= i < |s.flights| ==> GoodFlight(content, s, i)
  }

  const START := State(map[], Cache(map[], 0), [], [], 0, map[], false)

  lemma StartInv(content: (Url, string) -> Body)
    ensures Inv(content, START)
  {
  }

  /** Two counts leave the same 32-bit value exactly if 2^32 divides their difference. */
  lemma WrapExact(m: int, n: int)
    ensures Wrap32(m) == Wrap32(n) <==> (m - n) % TWO32 == 0
  {
    var h := TWO32 / 2;
    var a, b := m + h, n + h;
    assert a == a / TWO32 * TWO32 + a % TWO32 && b == b / TWO32 * TWO32 + b % TWO32;
    if Wrap32(m) == Wrap32(n) {
      DivisionUnique(m - n, TWO32, a / TWO32 - b / TWO32, 0);
    }
    if (m - n) % TWO32 == 0 {
      assert m == n + (m - n) / TWO32 * TWO32;
      ModShift(b, TWO32, (m - n) / TWO32);
    }
  }

  /** Exactly when a read is answered from the cache: the bumps since the item was stored are a multiple of 2^32. */
  lemma HitExactly(content: (Url, string) -> Body, s: State, read: Read)
    requires Inv(content, s)
    ensures AnsweredFromCache(s.cache, read)
            <==> read.canCache && read.aggressive && read.url in s.stamps && (s.bumps - s.stamps[read.url]) % TWO32 == 0
  {
    if read.url in s.stamps { WrapExact(s.stamps[read.url], s.bumps); DivideBack(s.bumps - s.stamps[read.url]); }
  }

  lemma DivideBack(d: int)
    ensures d % TWO32 == 0 <==> (-d) % TWO32 == 0
  {
  }

  /** What was stored saves the body: a later read that asks the server sends the stored ETag, and a server that still has
      that ETag and honours it answers 304. */
  lemma StoredIsRevalidated(s: State, read: Read)
    requires read.canCache && read.url in s.cache.items && !AnsweredFromCache(s.cache, read)
    requires At(s, read.url).Present? && At(s, read.url).etag == Some(s.cache.items[read.url].etag)
    ensures var t := Next(s, Send(read, true));
            && |t.flights| == |s.flights| + 1 && t.flights[..|s.flights|] == s.flights
            && t.flights[|s.flights|].read == read && t.flights[|s.flights|].response == NotModified
            && t.answers == s.answers + [At(s, read.url)] && t.cache == s.cache
  {
  }

  /** A read that may be cached is stored with its ETag, a missing document with the mark of a 404, under the present
      generation; nothing else in the cache changes. */
  lemma StoredExactly(s: State, i: nat)
    requires i < |s.flights| && i < |s.answers|
    ensures var f, t := s.flights[i], Next(s, Deliver(i)); var url := f.read.url;
            && (forall u :: u != url ==> (u in t.cache.items <==> u in s.cache.items) && (u in s.cache.items ==> t.cache.items[u] == s.cache.items[u]))
            && t.cache.generation == s.cache.generation
            && (f.response.NotModified? ==> t.cache == s.cache)
            && (f.response.NotFound? ==> url in t.cache.items && t.cache.items[url] == Item("404 response", None, s.cache.generation))
            && (f.response.Success? && f.read.canCache && f.response.etag.Some? ==>
                  url in t.cache.items && t.cache.items[url] == Item(f.response.etag.value, Some(f.response.body), s.cache.generation))
            && (f.response.Success? && (!f.read.canCache || f.response.etag.None?) ==> t.cache == s.cache)
  {
  }

  /** An answer from the cache is the server's present answer. */
  lemma CacheHitRight(content: (Url, string) -> Body, s: State, read: Read)
    requires Inv(content, s) && Legal(content, s, Send(read, true)) && AnsweredFromCache(s.cache, read)
    ensures Cached(s.cache, read).value.body == Value(At(s, read.url))
  {
    HitExactly(content, s, read);
    assert !Wrapped(s, read.url);
  }

  /** A 304 reply brings back the cached value, a 200 the new one and a 404 nothing: each time the server's answer. */
  lemma DeliveryRight(content: (Url, string) -> Body, s: State, i: nat)
    requires Inv(content, s) && i < |s.flights|
    ensures Result(s.flights[i]) == Value(s.answers[i])
  {
    assert GoodFlight(content, s, i);
  }

  lemma StepRight(content: (Url, string) -> Body, s: State, step: Step)
    requires Inv(content, s) && Legal(content, s, step)
    ensures Right(s, step)
  {
    match step
    case Send(read, _) => if AnsweredFromCache(s.cache, read) { CacheHitRight(content, s, read); }
    case Deliver(i) => DeliveryRight(content, s, i);
    case _ =>
  }

  lemma BumpInv(content: (Url, string) -> Body, s: State)
    requires Inv(content, s) && Legal(content, s, Bump)
    ensures Inv(content, Next(s, Bump))
  {
    WrapAnyStep(s.bumps);
    var t := Next(s, Bump);
    forall i | 0 <= i < |t.flights| ensures GoodFlight(content, t, i) { assert GoodFlight(content, s, i); }
  }

  lemma ChangeInv(content: (Url, string) -> Body, s: State, url: Url, answer: Answer)
    requires Inv(content, s) && Legal(content, s, Change(url, answer))
    ensures Inv(content, Next(s, Change(url, answer)))
  {
    var t := Next(s, Change(url, answer));
    forall i | 0 <= i < |t.flights| ensures GoodFlight(content, t, i) { assert GoodFlight(content, s, i); }
  }

  lemma SendInv(content: (Url, string) -> Body, s: State, read: Read, honors: bool)
    requires Inv(content, s) && Legal(content, s, Send(read, honors))
    ensures Inv(content, Next(s, Send(read, honors)))
  {
    var t := Next(s, Send(read, honors));
    forall i | 0 <= i < |t.flights| ensures GoodFlight(content, t, i) {
      if i < |s.flights| {
        assert GoodFlight(content, s, i);
      } else {
        var cached := Cached(s.cache, read);
        assert t.flights[i].response == Respond(t.answers[i], IfNoneMatch(cached), honors);
      }
    }
  }

  /** A new item keeps the invariant if it has what the server has, or a change is pending. */
  lemma StoredInv(content: (Url, string) -> Body, s: State, t: State, url: Url, item: Item)
    requires HonestState(content, s) && Stamped(s) && UpToDate(s)
    requires item.generation == s.cache.generation && HonestItem(content, url, item) && (!s.changed ==> item.body == Value(At(s, url)))
    requires t.server == s.server && t.changed == s.changed && t.bumps == s.bumps
    requires t.cache == s.cache.(items := s.cache.items[url := item]) && t.stamps == s.stamps[url := s.bumps]
    ensures HonestState(content, t) && Stamped(t) && UpToDate(t)
  {
  }

  /** Processing a response stores what the server has, or had before a change that no bump followed yet. */
  lemma ProcessedInv(content: (Url, string) -> Body, s: State, i: nat)
    requires Inv(content, s) && i < |s.flights|
    ensures var t := Next(s, Deliver(i)); HonestState(content, t) && Stamped(t) && UpToDate(t)
  {
    assert GoodFlight(content, s, i);
    var f, t := s.flights[i], Next(s, Deliver(i));
    var url := f.read.url;
    if t.cache.items != s.cache.items {
      StoredInv(content, s, t, url, t.cache.items[url]);
    }
  }

  lemma DeliverInv(content: (Url, string) -> Body, s: State, i: nat)
    requires Inv(content, s) && Legal(content, s, Deliver(i))
    ensures Inv(content, Next(s, Deliver(i)))
  {
    ProcessedInv(content, s, i);
    var t := Next(s, Deliver(i));
    forall j | 0 <= j < |t.flights| ensures GoodFlight(content, t, j) {
      var k := if j < i then j else j + 1;
      assert t.flights[j] == s.flights[k] && t.answers[j] == s.answers[k];
      assert GoodFlight(content, s, k);
    }
  }

  lemma StepInv(content: (Url, string) -> Body, s: State, step: Step)
    requires Inv(content, s) && Legal(content, s, step)
    ensures Inv(content, Next(s, step))
  {
    match step
    case Change(url, answer) => ChangeInv(content, s, url, answer);
    case Bump => BumpInv(content, s);
    case Send(read, honors) => SendInv(content, s, read, honors);
    case Deliver(i) => DeliverInv(content, s, i);
  }

  // ---- whole runs -----------------------------------------------------------------

  function Run(s: State, steps: seq<Step>): State
    decreases |steps|
  {
    if steps == [] then s else Run(Next(s, steps[0]), steps[1..])
  }

  ghost predicate LegalRun(content: (Url, string) -> Body, s: State, steps: seq<Step>)
    decreases |steps|
  {
    steps != [] ==> Legal(content, s, steps[0]) && LegalRun(content, Next(s, steps[0]), steps[1..])
  }

  ghost predicate AllRight(s: State, steps: seq<Step>)
    decreases |steps|
  {
    steps != [] ==> Right(s, steps[0]) && AllRight(Next(s, steps[0]), steps[1..])
  }

  /** The cache refines the server: in every run that meets the conditions, every read gets the server's answer. */
  lemma {:induction false} RunRight(content: (Url, string) -> Body, s: State, steps: seq<Step>)
    requires Inv(content, s) && LegalRun(content, s, steps)
    ensures AllRight(s, steps) && Inv(content, Run(s, steps))
    decreases |steps|
  {
    if steps != [] {
      StepRight(content, s, steps[0]);
      StepInv(content, s, steps[0]);
      RunRight(content, Next(s, steps[0]), steps[1..]);
    }
  }

  /** The same from an empty cache and an empty server on. */
  lemma CacheRefinesServer(content: (Url, string) -> Body, steps: seq<Step>)
    requires LegalRun(content, START, steps)
    ensures AllRight(START, steps)
  {
    StartInv(content);
    RunRight(content, START, steps);
  }

  // ---- why the conditions are there -----------------------------------------------

  function Bumps(s: State, n: nat): State {
    if n == 0 then s else Next(Bumps(s, n - 1), Bump)
  }

  lemma WrapAnyStep(n: int)
    ensures Wrap32(Wrap32(n) + 1) == Wrap32(n + 1)
  {
    ModShift(n + 1 + TWO32 / 2, TWO32, -((n + TWO32 / 2) / TWO32));
  }

  lemma {:induction false} BumpsGeneration(s: State, n: nat)
    requires s.cache.generation == Wrap32(s.bumps)
    ensures Bumps(s, n).bumps == s.bumps + n && Bumps(s, n).cache == s.cache.(generation := Wrap32(s.bumps + n))
    ensures Bumps(s, n).server == s.server
    decreases n
  {
    if n > 0 {
      BumpsGeneration(s, n - 1);
      WrapAnyStep(s.bumps + n - 1);
    }
  }

  /** Without the wrap condition: a change and 2^32 bumps later the old value is served as the present one. */
  lemma WrapServesStale(content: (Url, string) -> Body, s: State, read: Read, answer: Answer)
    requires Inv(content, s) && s.flights == [] && AnsweredFromCache(s.cache, read) && Value(answer) != Cached(s.cache, read).value.body
    ensures var t := Bumps(Next(s, Change(read.url, answer)), TWO32);
            !t.changed && AnsweredFromCache(t.cache, read) && Cached(t.cache, read).value.body != Value(At(t, read.url))
  {
    var c := Next(s, Change(read.url, answer));
    BumpsGeneration(c, TWO32);
    ModShift(s.bumps + TWO32 / 2, TWO32, 1);
    assert Bumps(c, TWO32) == Next(Bumps(c, TWO32 - 1), Bump);
  }

  /** A read that would be answered from an item a flight stores. */
  function ReadAfter(s: State, i: nat): Read
    requires i < |s.flights|
  {
    Read(s.flights[i].read.url, true, true)
  }

  /** A bump, the processing of a flight and a read of its URL. */
  function BumpDeliverSend(s: State, i: nat): seq<Step>
    requires i < |s.flights|
  {
    [Bump, Deliver(i), Send(ReadAfter(s, i), true)]
  }

  lemma ThreeSteps(s: State, a: Step, b: Step, c: Step)
    ensures AllRight(s, [a, b, c]) <==> Right(s, a) && Right(Next(s, a), b) && Right(Next(Next(s, a), b), c)
  {
    var s1 := Next(s, a);
    assert [a, b, c][1..] == [b, c] && [b, c][1..] == [c] && [c][1..] == [];
    assert AllRight(s1, [b, c]) <==> Right(s1, b) && AllRight(Next(s1, b), [c]);
    assert AllRight(Next(s1, b), [c]) <==> Right(Next(s1, b), c);
  }

  /** What a bump and the processing of a stored response leave in the cache. */
  lemma StoredAfterBump(content: (Url, string) -> Body, s: State, i: nat)
    requires Inv(content, s) && i < |s.flights| && Stores(s.flights[i])
    ensures var t := Next(Next(s, Bump), Deliver(i)); var read := ReadAfter(s, i);
            && AnsweredFromCache(t.cache, read) && Cached(t.cache, read).value.body == Value(s.answers[i])
            && At(t, read.url) == At(s, read.url)
  {
    assert GoodFlight(content, s, i);
  }

  /** A bump that passes a response made old by a change lets the cache serve the old value. */
  lemma BumpConditionNecessary(content: (Url, string) -> Body, s: State, i: nat)
    requires Inv(content, s) && i < |s.flights| && Stores(s.flights[i]) && !Current(s, i)
    ensures !AllRight(s, BumpDeliverSend(s, i))
  {
    StoredAfterBump(content, s, i);
    ThreeSteps(s, Bump, Deliver(i), Send(ReadAfter(s, i), true));
  }

  lemma BumpConditionSufficient(content: (Url, string) -> Body, s: State, i: nat)
    requires Inv(content, s) && i < |s.flights| && Stores(s.flights[i]) && Legal(content, s, Bump)
    ensures AllRight(s, BumpDeliverSend(s, i))
  {
    StepInv(content, s, Bump);
    DeliveryRight(content, Next(s, Bump), i);
    StoredAfterBump(content, s, i);
    ThreeSteps(s, Bump, Deliver(i), Send(ReadAfter(s, i), true));
  }

  /** The condition on bumps is exact: a bump may be made if and only if, after it, no response in flight can make a
      read wrong. */
  lemma BumpExactly(content: (Url, string) -> Body, s: State)
    requires Inv(content, s)
    ensures Legal(content, s, Bump)
            <==> forall i :: 0 <= i < |s.flights| && Stores(s.flights[i]) ==> AllRight(s, BumpDeliverSend(s, i))
  {
    forall i | 0 <= i < |s.flights| && Stores(s.flights[i])
      ensures Current(s, i) <== AllRight(s, BumpDeliverSend(s, i))
      ensures Legal(content, s, Bump) ==> AllRight(s, BumpDeliverSend(s, i))
    {
      if !Current(s, i) { BumpConditionNecessary(content, s, i); }
      if Legal(content, s, Bump) { BumpConditionSufficient(content, s, i); }
    }
  }

  /** For instance: a change and a bump between a response and its processing stamp the old value with the new
      generation. */
  lemma BumpInFlightServesStale(url: Url, tag: string, before: Body, after: Body)
    requires before != after
    ensures var read := Read(url, true, true);
            var s1 := Next(START, Change(url, Present(Some(tag), before)));
            var s2 := Next(Next(s1, Bump), Send(read, true));
            var s3 := Next(s2, Change(url, Present(Some(tag + "'"), after)));
            var s4 := Next(Next(s3, Bump), Deliver(0));
            !s4.changed && AnsweredFromCache(s4.cache, read) && Cached(s4.cache, read).value.body != Value(At(s4, url))
  {
  }

  // ---- the object -----------------------------------------------------------------

  class Cacher {
    var items: map<Url, Item>
    var generation: int

    ghost function View(): Cache
      reads this
    {
      Cache(items, generation)
    }

    constructor ()
      ensures View() == START.cache
    {
      items, generation := map[], 0;
    }

    /** `incGeneration`, an atomic 32-bit increment. */
    method BumpGeneration()
      modifies this`generation
      ensures View() == IncGeneration(old(View()))
    {
      generation := Wrap32(generation + 1);
    }

    /** `set`. */
    method Store(url: Url, etag: string, body: Body)
      modifies this`items
      ensures View() == Set(old(View()), url, etag, body)
    {
      items := items[url := Item(etag, Some(body), generation)];
    }

    /** `setNotFound`. */
    method StoreNotFound(url: Url)
      modifies this`items
      ensures View() == SetNotFound(old(View()), url)
    {
      items := items[url := Item(NOT_FOUND, None, generation)];
    }

    /** The first half of `Execute`: the answer from the cache, or the condition sent to the server. */
    method Begin(r: Read) returns (hit: Option<Option<Body>>, cached: Option<Item>, ifNoneMatch: Option<string>)
      ensures hit.Some? <==> AnsweredFromCache(View(), r)
      ensures hit.Some? ==> hit.value == Cached(View(), r).value.body
      ensures cached == Cached(View(), r) && ifNoneMatch == IfNoneMatch(cached)
    {
      hit, cached, ifNoneMatch := None, None, None;
      if r.canCache && r.url in items {
        cached := Some(items[r.url]);
        if r.aggressive && cached.value.generation == generation { hit := Some(cached.value.body); }
        ifNoneMatch := Some(cached.value.etag);
      }
    }

    /** The second half: status 304, 404 or 200. */
    method Finish(f: Flight) returns (result: Option<Body>)
      modifies this`items
      ensures View() == Processed(old(View()), f) && result == Result(f)
    {
      match f.response {
        case NotModified => result := if f.cached.Some? then f.cached.value.body else None;
        case NotFound =>
          StoreNotFound(f.read.url);
          result := None;
        case Success(etag, body) =>
          if f.read.canCache && etag.Some? { Store(f.read.url, etag.value, body); }
          result := Some(body);
      }
    }
  }
}
