/** The HiLo id allocator: conservation of ids in sequence, uniqueness of the atomic path under interleaving. */
module HiLo {
  import opened Wrappers

  /** A range the server grants, both ends included. */
  datatype Range = Range(low: int, high: int)

  /** The ids after `a` up to `b`. */
  function Interval(a: int, b: int): set<int> {
    set i | a < i <= b && Within(a, i, b)
  }

  predicate Within(a: int, i: int, b: int) {
    a < i <= b
  }

  function IdsOf(r: Range): set<int> {
    Interval(r.low - 1, r.high)
  }

  // ---- one call after the other ---------------------------------------------------

  /** The present range, every id granted so far and the ids given to callers, in order. */
  datatype State = State(max: int, current: int, granted: set<int>, given: seq<int>)

  /** `Deadlock`: a fresh range that is already used up makes the goroutine lock a mutex it holds. */
  datatype Result = Id(id: int) | Refused | Deadlock

  /** `NextID` by one goroutine; `grant` is what the server answers if it is asked. */
  function NextID(s: State, grant: Option<Range>): (State, Result) {
    var id := s.current + 1;
    if id <= s.max then (s.(current := id, given := s.given + [id]), Id(id))
    else if grant.None? then (s.(current := id), Refused)
    else
      var r := grant.value;
      var t := s.(max := r.high, current := r.low, granted := s.granted + IdsOf(r));
      if r.low <= r.high then (t.(given := t.given + [r.low]), Id(r.low)) else (t, Deadlock)
  }

  const START := State(0, 0, {}, [])

  function Given(s: State): set<int> {
    set i | i in s.given
  }

  ghost predicate Distinct(ids: seq<int>) {
    forall i, j :: 0 <= i < j < |ids| ==> ids[i] != ids[j]
  }

  /** Conservation: what was granted is what callers got and what is still to be had, and nothing was given twice. */
  ghost predicate Conserved(s: State) {
    && Distinct(s.given)
    && Given(s) + Interval(s.current, s.max) == s.granted
    && Given(s) !! Interval(s.current, s.max)
  }

  lemma StartConserved()
    ensures Conserved(START)
  {
  }

  /** The server grants ranges that are not empty and share no id. */
  ghost predicate Fair(s: State, grant: Option<Range>) {
    grant.Some? ==> grant.value.low <= grant.value.high && IdsOf(grant.value) !! s.granted
  }

  lemma GivenAfter(s: State, id: int)
    ensures Given(s.(given := s.given + [id])) == Given(s) + {id}
  {
  }

  lemma NextConserves(s: State, grant: Option<Range>)
    requires Conserved(s) && Fair(s, grant)
    ensures Conserved(NextID(s, grant).0) && !NextID(s, grant).1.Deadlock?
  {
    var id := s.current + 1;
    if id <= s.max {
      assert Interval(s.current, s.max) == Interval(id, s.max) + {id};
      GivenAfter(s, id);
    } else {
      assert Interval(s.current, s.max) == {} && Interval(id, s.max) == {};
      if grant.Some? {
        var r := grant.value;
        assert IdsOf(r) == Interval(r.low, r.high) + {r.low};
        GivenAfter(s, r.low);
      }
    }
  }

  function Run(s: State, grants: seq<Option<Range>>): State {
    if grants == [] then s else NextID(Run(s, grants[..|grants| - 1]), grants[|grants| - 1]).0
  }

  ghost predicate FairRun(s: State, grants: seq<Option<Range>>) {
    forall i :: 0 <= i < |grants| ==> Fair(Run(s, grants[..i]), grants[i])
  }

  /** For any sequence of calls over disjoint ranges, the ids granted are the disjoint union of the ids returned
      and the interval `ReturnUnusedRange` hands back. */
  lemma {:induction false} RunConserves(s: State, grants: seq<Option<Range>>)
    requires Conserved(s) && FairRun(s, grants)
    ensures Conserved(Run(s, grants))
    decreases |grants|
  {
    if grants != [] {
      var n := |grants| - 1;
      var front := grants[..n];
      forall i | 0 <= i < |front| ensures Fair(Run(s, front[..i]), front[i]) { assert front[..i] == grants[..i]; }
      RunConserves(s, front);
      assert Fair(Run(s, grants[..n]), grants[n]);
      NextConserves(Run(s, front), grants[n]);
    }
  }

  /** The same from the first call on. */
  lemma Conservation(grants: seq<Option<Range>>)
    requires FairRun(START, grants)
    ensures Conserved(Run(START, grants))
  {
    StartConserved();
    RunConserves(START, grants);
  }

  /** `ReturnUnusedRange`: what is sent to the server. */
  function Unused(s: State): (int, int) {
    (s.current, s.max)
  }

  /** Handing the range back does not retire it: the next id is one the server was told is free. */
  lemma ReturnedRangeIsUsed(s: State, grant: Option<Range>)
    requires s.current < s.max
    ensures NextID(s, grant).1.Id? && NextID(s, grant).1.id in Interval(Unused(s).0, Unused(s).1)
  {
  }

  /** Which id a call gives: the next one of the range, or the first one of the range it is granted; without either it is
      refused. */
  lemma NextExactly(s: State, grant: Option<Range>)
    ensures var (t, r) := NextID(s, grant);
            && (s.current < s.max ==> r == Id(s.current + 1) && t.given == s.given + [s.current + 1])
            && (s.current >= s.max && grant.Some? && grant.value.low <= grant.value.high ==>
                  r == Id(grant.value.low) && t.given == s.given + [grant.value.low] && t.max == grant.value.high)
            && (s.current >= s.max && grant.None? ==> r == Refused && t.given == s.given && t.max == s.max)
  {
  }

  /** An empty grant is the only way into the deadlock. */
  lemma DeadlockExactly(s: State, grant: Option<Range>)
    ensures NextID(s, grant).1.Deadlock? <==> s.current >= s.max && grant.Some? && grant.value.low > grant.value.high
  {
  }

  class Generator {
    var max: int
    var current: int
    ghost var granted: set<int>
    ghost var given: seq<int>

    ghost function View(): State
      reads this
    {
      State(max, current, granted, given)
    }

    constructor ()
      ensures View() == START
    {
      max, current := 0, 0;
      granted, given := {}, [];
    }

    /** `NextID`: the retry loop, with the mutex that is only released on return. */
    method Next(grant: Option<Range>) returns (result: Result)
      modifies this
      ensures (View(), result) == NextID(old(View()), grant)
    {
      var locked := false;
      while true
        invariant !locked ==> View() == old(View())
        invariant locked ==> old(current) + 1 > old(max) && grant.Some?
        invariant locked ==> View() == State(grant.value.high, grant.value.low - 1, old(granted) + IdsOf(grant.value), old(given))
        decreases !locked
      {
        current := current + 1;
        if current <= max {
          given := given + [current];
          return Id(current);
        }
        if locked { return Deadlock; }
        locked := true;
        if current <= max { return Id(current); }   // the second look, which one goroutine never passes
        if grant.None? { return Refused; }
        max, current := grant.value.high, grant.value.low - 1;
        granted := granted + IdsOf(grant.value);
      }
    }

    /** `ReturnUnusedRange`: only reads. */
    method ReturnUnusedRange() returns (last: int, end: int)
      ensures (last, end) == Unused(View())
      ensures Conserved(View()) ==> Given(View()) + Interval(last, end) == granted && Given(View()) !! Interval(last, end)
    {
      last, end := current, max;
    }
  }

  // ---- goroutines -----------------------------------------------------------------

  type Thread = nat

  /** A range object; `g._range` points to one of them. */
  datatype RangeValue = RangeValue(low: int, max: int, current: int)

  /** Where a goroutine is in `NextID`: it has read the pointer, or has its id from the atomic increment, or
      waits for the mutex. */
  datatype Phase = Idle | Loaded(r: nat) | Added(r: nat, id: int) | Waiting

  datatype Issue = Issue(r: nat, id: int)

  datatype World = World(ranges: seq<RangeValue>, present: nat, phases: map<Thread, Phase>, issued: seq<Issue>)

  datatype Event =
    | Load(t: Thread)
    | Increment(t: Thread)
    | Check(t: Thread)
    | Install(range: Range)   // by whoever holds the mutex

  function PhaseOf(w: World, t: Thread): Phase {
    if t in w.phases then w.phases[t] else Idle
  }

  function Step(w: World, e: Event): World {
    match e
    case Load(t) => if PhaseOf(w, t).Idle? then w.(phases := w.phases[t := Loaded(w.present)]) else w
    case Increment(t) =>
      var p := PhaseOf(w, t);
      if p.Loaded? && p.r < |w.ranges| then
        var v := w.ranges[p.r];
        w.(ranges := w.ranges[p.r := v.(current := v.current + 1)], phases := w.phases[t := Added(p.r, v.current + 1)])
      else w
    case Check(t) =>
      var p := PhaseOf(w, t);
      if p.Added? && p.r < |w.ranges| then
        if p.id <= w.ranges[p.r].max then w.(phases := w.phases[t := Idle], issued := w.issued + [Issue(p.r, p.id)])
        else w.(phases := w.phases[t := Waiting])
      else w
    case Install(range) =>
      w.(ranges := w.ranges + [RangeValue(range.low, range.high, range.low - 1)], present := |w.ranges|)
  }

  const BEGIN := World([RangeValue(1, 0, 0)], 0, map[], [])

  function IdsOfValue(v: RangeValue): set<int> {
    Interval(v.low - 1, v.max)
  }

  ghost predicate DisjointRanges(w: World) {
    forall i, j :: 0 <= i < j < |w.ranges| ==> IdsOfValue(w.ranges[i]) !! IdsOfValue(w.ranges[j])
  }

  /** Every id that left an increment is unique within its range. */
  ghost predicate Unique(w: World) {
    && w.present < |w.ranges|
    && (forall t :: t in w.phases && w.phases[t].Loaded? ==> w.phases[t].r < |w.ranges|)
    && (forall t :: t in w.phases && w.phases[t].Added? ==> Taken(w, w.phases[t].r, w.phases[t].id))
    && (forall i :: 0 <= i < |w.issued| ==> Taken(w, w.issued[i].r, w.issued[i].id) && w.issued[i].id <= w.ranges[w.issued[i].r].max)
    && (forall i, j :: 0 <= i < j < |w.issued| ==> w.issued[i] != w.issued[j])
    && (forall t, i :: t in w.phases && 0 <= i < |w.issued| && w.phases[t].Added? ==> w.issued[i] != Issue(w.phases[t].r, w.phases[t].id))
    && (forall t, u :: t in w.phases && u in w.phases && t != u && w.phases[t].Added? ==> w.phases[t] != w.phases[u])
  }

  ghost predicate Taken(w: World, r: nat, id: int) {
    r < |w.ranges| && w.ranges[r].low <= id <= w.ranges[r].current
  }

  lemma BeginUnique()
    ensures Unique(BEGIN) && DisjointRanges(BEGIN)
  {
  }

  lemma IncrementUnique(w: World, t: Thread)
    requires Unique(w) && forall i :: 0 <= i < |w.ranges| ==> w.ranges[i].current >= w.ranges[i].low - 1
    ensures Unique(Step(w, Increment(t)))
  {
  }

  /** New ranges share no id with earlier ones. */
  ghost predicate FairEvent(w: World, e: Event) {
    e.Install? ==> forall i :: 0 <= i < |w.ranges| ==> IdsOf(e.range) !! IdsOfValue(w.ranges[i])
  }

  ghost predicate Inv(w: World) {
    && Unique(w) && DisjointRanges(w)
    && forall i :: 0 <= i < |w.ranges| ==> w.ranges[i].current >= w.ranges[i].low - 1
  }

  lemma InstallUnique(w: World, range: Range)
    requires Unique(w)
    ensures Unique(Step(w, Install(range)))
  {
  }

  lemma CheckUnique(w: World, t: Thread)
    requires Unique(w)
    ensures Unique(Step(w, Check(t)))
  {
    var p := PhaseOf(w, t);
    if p.Added? && p.r < |w.ranges| {
      if p.id <= w.ranges[p.r].max { IssueUnique(w, t); } else { MoveUnique(w, t, Waiting); }
    }
  }

  /** A goroutine that moves on without an id of its own. */
  lemma MoveUnique(w: World, t: Thread, p: Phase)
    requires Unique(w) && !p.Added? && (p.Loaded? ==> p.r < |w.ranges|)
    ensures Unique(w.(phases := w.phases[t := p]))
  {
    var x := w.(phases := w.phases[t := p]);
    assert forall r: nat, id :: Taken(w, r, id) ==> Taken(x, r, id);
  }

  lemma IssueUnique(w: World, t: Thread)
    requires Unique(w) && t in w.phases && w.phases[t].Added? && w.phases[t].r < |w.ranges| && w.phases[t].id <= w.ranges[w.phases[t].r].max
    ensures var p := w.phases[t]; Unique(w.(phases := w.phases[t := Idle], issued := w.issued + [Issue(p.r, p.id)]))
  {
    var p := w.phases[t];
    var x := w.(phases := w.phases[t := Idle], issued := w.issued + [Issue(p.r, p.id)]);
    assert forall r: nat, id :: Taken(w, r, id) ==> Taken(x, r, id);
  }

  lemma StepInv(w: World, e: Event)
    requires Inv(w) && FairEvent(w, e)
    ensures Inv(Step(w, e))
  {
    match e
    case Load(t) => LoadUnique(w, t);
    case Increment(t) =>
      IncrementUnique(w, t);
      IncrementDisjoint(w, t);
    case Check(t) => CheckUnique(w, t);
    case Install(range) =>
      InstallUnique(w, range);
      InstallDisjoint(w, range);
  }

  lemma LoadUnique(w: World, t: Thread)
    requires Unique(w)
    ensures Unique(Step(w, Load(t)))
  {
    MoveUnique(w, t, Loaded(w.present));
  }

  lemma IncrementDisjoint(w: World, t: Thread)
    requires DisjointRanges(w)
    ensures DisjointRanges(Step(w, Increment(t)))
  {
    var x := Step(w, Increment(t));
    assert forall i :: 0 <= i < |w.ranges| ==> IdsOfValue(x.ranges[i]) == IdsOfValue(w.ranges[i]);
  }

  lemma InstallDisjoint(w: World, range: Range)
    requires DisjointRanges(w) && FairEvent(w, Install(range))
    ensures DisjointRanges(Step(w, Install(range)))
  {
    var x := Step(w, Install(range));
    assert IdsOfValue(x.ranges[|w.ranges|]) == IdsOf(range);
    assert forall i :: 0 <= i < |w.ranges| ==> x.ranges[i] == w.ranges[i];
  }

  /** Ids from the atomic path are pairwise distinct and inside a granted range. */
  lemma IssuedDistinct(w: World)
    requires Inv(w)
    ensures forall i, j :: 0 <= i < j < |w.issued| ==> w.issued[i].id != w.issued[j].id
    ensures forall i :: 0 <= i < |w.issued| ==> w.issued[i].r < |w.ranges| && w.issued[i].id in IdsOfValue(w.ranges[w.issued[i].r])
  {
    forall i | 0 <= i < |w.issued| ensures w.issued[i].r < |w.ranges| && w.issued[i].id in IdsOfValue(w.ranges[w.issued[i].r]) {
      assert Taken(w, w.issued[i].r, w.issued[i].id);
    }
    forall i, j | 0 <= i < j < |w.issued| ensures w.issued[i].id != w.issued[j].id {
      assert w.issued[i] != w.issued[j];
    }
  }

  function Play(w: World, events: seq<Event>): World {
    if events == [] then w else Step(Play(w, events[..|events| - 1]), events[|events| - 1])
  }

  ghost predicate FairPlay(w: World, events: seq<Event>) {
    forall i :: 0 <= i < |events| ==> FairEvent(Play(w, events[..i]), events[i])
  }

  /** Under any interleaving. */
  lemma {:induction false} PlayInv(w: World, events: seq<Event>)
    requires Inv(w) && FairPlay(w, events)
    ensures Inv(Play(w, events))
    ensures var issued := Play(w, events).issued; forall i, j :: 0 <= i < j < |issued| ==> issued[i].id != issued[j].id
    decreases |events|
  {
    if events != [] {
      var front := events[..|events| - 1];
      FairFront(w, events);
      PlayInv(w, front);
      PlayLast(w, events);
      StepInv(Play(w, front), events[|events| - 1]);
    }
    IssuedDistinct(Play(w, events));
  }

  lemma FairFront(w: World, events: seq<Event>)
    requires FairPlay(w, events) && events != []
    ensures var n := |events| - 1; FairPlay(w, events[..n]) && FairEvent(Play(w, events[..n]), events[n])
  {
    var front := events[..|events| - 1];
    forall i | 0 <= i < |front| ensures FairEvent(Play(w, front[..i]), front[i]) { assert front[..i] == events[..i]; }
  }

  lemma PlayLast(w: World, events: seq<Event>)
    requires events != []
    ensures Play(w, events) == Step(Play(w, events[..|events| - 1]), events[|events| - 1])
  {
  }

  /** Ids from the atomic path are pairwise distinct and granted, whatever the interleaving from the start on. */
  lemma AtomicIdsDistinct(events: seq<Event>)
    requires FairPlay(BEGIN, events)
    ensures var w := Play(BEGIN, events);
            && (forall i, j :: 0 <= i < j < |w.issued| ==> w.issued[i].id != w.issued[j].id)
            && (forall i :: 0 <= i < |w.issued| ==> w.issued[i].r < |w.ranges| && w.issued[i].id in IdsOfValue(w.ranges[w.issued[i].r]))
  {
    BeginUnique();
    PlayInv(BEGIN, events);
    IssuedDistinct(Play(BEGIN, events));
  }

  // ---- the second look under the mutex --------------------------------------------

  /** Every id of a range up to its counter was handed to someone by an increment. */
  ghost predicate Accounted(w: World) {
    forall r: nat, id {:trigger Taken(w, r, id)} :: Taken(w, r, id) && id <= w.ranges[r].max ==> Known(w, r, id)
  }

  ghost predicate Known(w: World, r: nat, id: int) {
    Issue(r, id) in w.issued || exists t :: t in w.phases && w.phases[t] == Added(r, id)
  }

  /** The id the second look returns: the counter as it is, without an increment. */
  function SecondLook(w: World): Option<int>
    requires w.present < |w.ranges|
  {
    var v := w.ranges[w.present];
    if v.current <= v.max then Some(v.current) else None
  }

  lemma KnownStays(w: World, e: Event, r: nat, id: int)
    requires Known(w, r, id) && r < |w.ranges| && id <= w.ranges[r].max
    ensures Known(Step(w, e), r, id)
  {
    var x := Step(w, e);
    if Issue(r, id) in w.issued {
      assert Issue(r, id) in x.issued;
    } else {
      var t :| t in w.phases && w.phases[t] == Added(r, id);
      if e == Check(t) {
        assert x.issued[|w.issued|] == Issue(r, id);
      } else {
        assert t in x.phases && x.phases[t] == Added(r, id);
      }
    }
  }

  lemma StepAccounted(w: World, e: Event)
    requires Inv(w) && Accounted(w)
    ensures Accounted(Step(w, e))
  {
    var x := Step(w, e);
    forall r: nat, id | Taken(x, r, id) && id <= x.ranges[r].max ensures Known(x, r, id) {
      if Taken(w, r, id) {
        KnownStays(w, e, r, id);
      } else {
        assert e.Increment? && PhaseOf(w, e.t).r == r;
        assert x.phases[e.t] == Added(r, id);
      }
    }
  }

  lemma BeginAccounted()
    ensures Accounted(BEGIN)
  {
  }

  /** In every state a run reaches. */
  lemma {:induction false} PlayAccounted(w: World, events: seq<Event>)
    requires Inv(w) && Accounted(w) && FairPlay(w, events)
    ensures Accounted(Play(w, events))
    decreases |events|
  {
    if events != [] {
      var front := events[..|events| - 1];
      FairFront(w, events);
      PlayInv(w, front);
      PlayAccounted(w, front);
      PlayLast(w, events);
      StepAccounted(Play(w, front), events[|events| - 1]);
    }
  }

  /** Whatever the interleaving, the second look at a range in use gives nobody a new id. */
  lemma SecondLookNeverNew(events: seq<Event>)
    requires FairPlay(BEGIN, events)
    ensures var w := Play(BEGIN, events);
            && w.present < |w.ranges|
            && (SecondLook(w).Some? && w.ranges[w.present].current >= w.ranges[w.present].low ==> Known(w, w.present, SecondLook(w).value))
  {
    BeginUnique();
    BeginAccounted();
    PlayInv(BEGIN, events);
    PlayAccounted(BEGIN, events);
    var w := Play(BEGIN, events);
    if SecondLook(w).Some? && w.ranges[w.present].current >= w.ranges[w.present].low { SecondLookRepeats(w); }
  }

  /** The second look never gives a new id: whatever it returns from a range in use was already given out, or is
      about to be, by an increment. */
  lemma SecondLookRepeats(w: World)
    requires Inv(w) && Accounted(w) && SecondLook(w).Some? && w.ranges[w.present].current >= w.ranges[w.present].low
    ensures Known(w, w.present, SecondLook(w).value)
  {
    assert Taken(w, w.present, SecondLook(w).value);
  }

  const WAITER: seq<Event> := [Load(1), Increment(1), Check(1)]

  const TAKER: seq<Event> := [Load(2), Increment(2), Check(2)]

  lemma PlayThree(w: World, a: Event, b: Event, c: Event)
    ensures Play(w, [a, b, c]) == Step(Step(Step(w, a), b), c)
  {
    var e := [a, b, c];
    assert e[..0] == [];
    PlayOne(w, e, 0);
    PlayOne(w, e, 1);
    PlayOne(w, e, 2);
    assert e[..3] == e;
  }

  /** One goroutine finds the first range used up and waits for the mutex, another one installs the next range and
      takes its first id, and the second look gives the waiting one the same id. */
  lemma SlowPathDuplicates(low: int, high: int)
    requires 0 < low <= high
    ensures var w := Play(Step(Play(BEGIN, WAITER), Install(Range(low, high))), TAKER);
            && PhaseOf(w, 1) == Waiting && w.present < |w.ranges|
            && w.issued == [Issue(1, low)] && SecondLook(w) == Some(low)
  {
    WaiterWaits(BEGIN);
    var w4 := World([RangeValue(1, 0, 1), RangeValue(low, high, low - 1)], 1, map[1 := Waiting], []);
    assert Step(Play(BEGIN, WAITER), Install(Range(low, high))) == w4;
    PlayThree(w4, Load(2), Increment(2), Check(2));
    TakerTakes(low, high);
  }

  lemma WaiterWaits(w: World)
    requires w == BEGIN
    ensures Play(w, WAITER) == World([RangeValue(1, 0, 1)], 0, map[1 := Waiting], [])
  {
    PlayThree(w, Load(1), Increment(1), Check(1));
  }

  lemma TakerTakes(low: int, high: int)
    requires 0 < low <= high
    ensures var w4 := World([RangeValue(1, 0, 1), RangeValue(low, high, low - 1)], 1, map[1 := Waiting], []);
            Step(Step(Step(w4, Load(2)), Increment(2)), Check(2))
            == World([RangeValue(1, 0, 1), RangeValue(low, high, low)], 1, map[1 := Waiting, 2 := Idle], [Issue(1, low)])
  {
  }

  lemma PlayOne(w: World, events: seq<Event>, i: nat)
    requires i < |events|
    ensures Play(w, events[..i + 1]) == Step(Play(w, events[..i]), events[i])
  {
    assert events[..i + 1][..i] == events[..i];
  }
}
