/** One command on a cluster: attempts, failover and giving up. */
module Failover {
  import opened Wrappers
  import opened NodeSelection

  /** How an attempt ends. `Down` is a network error or status 408, 502, 503 or 504, `Gone` is status 410, and
      `Unreadable` is a good status whose body or requested refresh cannot be processed. */
  datatype Reply = Success | NotModified | NotFound | Down | Gone | Refused | Unreadable

  datatype Reason = AllNodesDown | NotRelevant | ServerError | BadBody | RefreshFailed | NoNodes

  datatype Result = Done | Failed(reason: Reason)

  /** What handling a node that is down comes to. */
  datatype Recovery = Recovered | Stopped | Broken(reason: Reason)

  /** The selector's nodes and counters, the nodes this command failed on, and its attempts so far. */
  datatype Exec = Exec(nodes: seq<ServerNode>, failures: seq<nat>, failed: set<ServerNode>, attempts: seq<ServerNode>)

  /** The world: replies by number of the attempt, other activity on the counters, a forced topology refresh,
      and the read balance that picks a node after it. */
  datatype Env = Env(
    reply: nat -> Reply,
    health: (nat, seq<nat>) -> seq<nat>,
    refresh: Option<seq<ServerNode>>,
    choose: seq<ServerNode> -> nat)

  predicate WellFormed(x: Exec) {
    |x.failures| == |x.nodes|
  }

  predicate Good(r: Reply) {
    r.Success? || r.NotModified? || r.NotFound?
  }

  function NodeSet(nodes: seq<ServerNode>): set<ServerNode> {
    set n | n in nodes
  }

  /** Nodes that can still be turned to while this one is tried. */
  function Untried(x: Exec, node: ServerNode): nat {
    |NodeSet(x.nodes) - x.failed - {node}|
  }

  function Seen(env: Env, k: nat, failures: seq<nat>): (f: seq<nat>)
    ensures |f| == |failures|
  {
    if |env.health(k, failures)| == |failures| then env.health(k, failures) else failures
  }

  /** `onFailedRequest`. */
  function Bumped(failures: seq<nat>, index: nat): (f: seq<nat>)
    ensures |f| == |failures|
  {
    if index < |failures| then failures[index := failures[index] + 1] else failures
  }

  /** The command state once the failure of a node is on record. */
  function Noted(env: Env, x: Exec, node: ServerNode, index: Option<nat>): (y: Exec)
    ensures WellFormed(x) ==> WellFormed(y)
  {
    x.(failed := x.failed + {node},
       failures := if index.Some? then Seen(env, |x.attempts|, Bumped(x.failures, index.value)) else x.failures)
  }

  function Refreshed(x: Exec, nodes: seq<ServerNode>): (y: Exec)
    ensures WellFormed(y)
  {
    x.(nodes := nodes, failures := seq(|nodes|, i => 0))
  }

  function Chosen(env: Env, nodes: seq<ServerNode>): (i: nat)
    requires nodes != []
    ensures i < |nodes|
  {
    if env.choose(nodes) < |nodes| then env.choose(nodes) else 0
  }

  /** The next node shrinks what is left: this is why failover ends. */
  lemma NextIsUntried(x: Exec, node: ServerNode, next: ServerNode)
    requires next in x.nodes && next !in x.failed && node in x.failed
    ensures Untried(x, next) < |NodeSet(x.nodes) - x.failed|
    ensures NodeSet(x.nodes) - x.failed - {node} == NodeSet(x.nodes) - x.failed
  {
  }

  lemma NotedUntried(env: Env, x: Exec, node: ServerNode, index: Option<nat>)
    ensures |NodeSet(x.nodes) - Noted(env, x, node, index).failed| == Untried(x, node)
  {
    assert NodeSet(x.nodes) - (x.failed + {node}) == NodeSet(x.nodes) - x.failed - {node};
  }

  /** `Execute`. */
  function Execute(env: Env, x: Exec, node: ServerNode, index: Option<nat>, retry: bool): (r: (Exec, Result))
    requires WellFormed(x)
    ensures WellFormed(r.0)
    decreases if retry then 1 else 0, Untried(x, node), 1
  {
    var x1 := x.(attempts := x.attempts + [node]);
    match env.reply(|x.attempts|)
    case Down =>
      var (y, d) := HandleServerDown(env, x1, node, index);
      (y, if d.Recovered? then Done else if d.Stopped? then Failed(AllNodesDown) else Failed(d.reason))
    case Gone =>
      if !retry then (x1, Failed(NotRelevant))
      else if env.refresh.None? then (x1, Failed(RefreshFailed))
      else
        var x2 := Refreshed(x1, env.refresh.value);
        if x2.nodes == [] then (x2, Failed(NoNodes))
        else
          var i := Chosen(env, x2.nodes);
          var (y, result) := Execute(env, x2, x2.nodes[i], Some(i), false);
          (y, if result.Failed? then result else Failed(NotRelevant))   // a retry that succeeds is still a failure
    case Refused => (x1, Failed(ServerError))
    case Unreadable => (x1, Failed(BadBody))
    case _ => (x1, Done)
  }

  /** `handleServerDown`. */
  function HandleServerDown(env: Env, x: Exec, node: ServerNode, index: Option<nat>): (r: (Exec, Recovery))
    requires WellFormed(x)
    ensures WellFormed(r.0)
    decreases 0, Untried(x, node), 0
  {
    var y := Noted(env, x, node, index);
    if index.None? then (y, Stopped)
    else if y.nodes == [] then (y, Broken(NoNodes))
    else
      var i := Preferred(y.nodes, y.failures);
      if y.nodes[i] in y.failed then (y, Stopped)
      else
        NotedUntried(env, x, node, index);
        NextIsUntried(y, node, y.nodes[i]);
        var (z, result) := Execute(env, y, y.nodes[i], Some(i), false);
        (z, if result.Done? then Recovered else Broken(result.reason))
  }

  /** The node failover turns to, if there is one that did not fail yet. */
  function Next(env: Env, x: Exec, node: ServerNode, index: Option<nat>): (i: Option<nat>)
    requires WellFormed(x)
    ensures i.Some? ==> i.value < |x.nodes|
  {
    var y := Noted(env, x, node, index);
    if index.None? || y.nodes == [] || y.nodes[Preferred(y.nodes, y.failures)] in y.failed then None
    else Some(Preferred(y.nodes, y.failures))
  }

  function AsRecovery(r: Result): Recovery {
    if r.Done? then Recovered else Broken(r.reason)
  }

  lemma DownUnfold(env: Env, x: Exec, node: ServerNode, index: Option<nat>)
    requires WellFormed(x)
    ensures var y := Noted(env, x, node, index); var i := Next(env, x, node, index);
            if i.Some? then
              var r := Execute(env, y, y.nodes[i.value], i, false);
              HandleServerDown(env, x, node, index) == (r.0, AsRecovery(r.1)) && Untried(y, y.nodes[i.value]) < Untried(x, node)
            else
              HandleServerDown(env, x, node, index).0 == y && !HandleServerDown(env, x, node, index).1.Recovered?
  {
    var y := Noted(env, x, node, index);
    var i := Next(env, x, node, index);
    if i.Some? {
      NotedUntried(env, x, node, index);
      NextIsUntried(y, node, y.nodes[i.value]);
    }
  }

  // ---- how many attempts ----------------------------------------------------------

  function Attempts(x: Exec, y: Exec): int {
    |y.attempts| - |x.attempts|
  }

  lemma {:induction false} ExecuteAttempts(env: Env, x: Exec, node: ServerNode, index: Option<nat>)
    requires WellFormed(x)
    ensures 1 <= Attempts(x, Execute(env, x, node, index, false).0) <= 1 + Untried(x, node)
    ensures Execute(env, x, node, index, false).0.nodes == x.nodes
    decreases Untried(x, node), 1
  {
    var x1 := x.(attempts := x.attempts + [node]);
    if env.reply(|x.attempts|).Down? { DownAttempts(env, x1, node, index); }
  }

  lemma {:induction false} DownAttempts(env: Env, x: Exec, node: ServerNode, index: Option<nat>)
    requires WellFormed(x)
    ensures 0 <= Attempts(x, HandleServerDown(env, x, node, index).0) <= Untried(x, node)
    ensures HandleServerDown(env, x, node, index).0.nodes == x.nodes
    decreases Untried(x, node), 0
  {
    var y := Noted(env, x, node, index);
    var i := Next(env, x, node, index);
    DownUnfold(env, x, node, index);
    if i.Some? { ExecuteAttempts(env, y, y.nodes[i.value], i); }
  }

  lemma {:induction false} NodeSetSize(nodes: seq<ServerNode>)
    ensures |NodeSet(nodes)| <= |nodes|
  {
    if nodes != [] {
      NodeSetSize(nodes[1..]);
      assert NodeSet(nodes) == NodeSet(nodes[1..]) + {nodes[0]};
    }
  }

  lemma SubsetSize(a: set<ServerNode>, b: set<ServerNode>)
    requires a <= b
    ensures |a| <= |b|
  {
    assert b == a + (b - a);
  }

  lemma UntriedBound(x: Exec, node: ServerNode)
    ensures Untried(x, node) <= |x.nodes|
    ensures node in x.nodes ==> Untried(x, node) < |x.nodes|
  {
    NodeSetSize(x.nodes);
    SubsetSize(NodeSet(x.nodes) - x.failed - {node}, NodeSet(x.nodes) - {node});
    if node in x.nodes { assert |NodeSet(x.nodes) - {node}| == |NodeSet(x.nodes)| - 1; }
    else { SubsetSize(NodeSet(x.nodes) - {node}, NodeSet(x.nodes)); }
  }

  /** Failover terminates: on n nodes a fresh command makes at most n + 1 attempts, whatever the replies, the
      other activity on the counters and one refresh of the topology; it makes at most n if it starts on a node
      of a topology that is not refreshed. */
  lemma AttemptBound(env: Env, x: Exec, node: ServerNode, index: Option<nat>)
    requires WellFormed(x) && x.failed == {} && x.attempts == []
    ensures var y := Execute(env, x, node, index, true).0;
            && |y.attempts| <= |y.nodes| + 1
            && (!env.reply(0).Gone? ==> y.nodes == x.nodes && (node in x.nodes ==> |y.attempts| <= |x.nodes|))
  {
    if env.reply(0).Gone? {
      GoneAttempts(env, x, node, index);
    } else {
      UntriedBound(x, node);
      FirstAttempt(env, x, node, index);
      ExecuteAttempts(env, x, node, index);
    }
  }

  lemma GoneAttempts(env: Env, x: Exec, node: ServerNode, index: Option<nat>)
    requires WellFormed(x) && env.reply(|x.attempts|).Gone?
    ensures var y := Execute(env, x, node, index, true).0; Attempts(x, y) <= |y.nodes| + 1
  {
    if env.refresh.Some? && env.refresh.value != [] {
      var x2 := Refreshed(x.(attempts := x.attempts + [node]), env.refresh.value);
      var i := Chosen(env, x2.nodes);
      ExecuteAttempts(env, x2, x2.nodes[i], Some(i));
      UntriedBound(x2, x2.nodes[i]);
    }
  }

  /** The retry flag matters for status 410 only. */
  lemma FirstAttempt(env: Env, x: Exec, node: ServerNode, index: Option<nat>)
    requires WellFormed(x) && !env.reply(|x.attempts|).Gone?
    ensures Execute(env, x, node, index, true) == Execute(env, x, node, index, false)
  {
  }

  // ---- when it gives up -----------------------------------------------------------

  ghost predicate Distinct(nodes: seq<ServerNode>) {
    forall i, j :: 0 <= i < j < |nodes| ==> nodes[i] != nodes[j]
  }

  /** Nobody restores a failed node while the command runs. */
  ghost predicate NoRestore(env: Env) {
    forall k, f :: |env.health(k, f)| == |f| ==> forall i :: 0 <= i < |f| ==> env.health(k, f)[i] >= f[i]
  }

  /** Every node the command failed on is marked. */
  ghost predicate Marked(x: Exec) {
    WellFormed(x) && Distinct(x.nodes) && forall i :: 0 <= i < |x.nodes| && x.nodes[i] in x.failed ==> x.failures[i] > 0
  }

  /** Nothing healthy is left, and the first node was tried. */
  ghost predicate NothingLeft(x: Exec) {
    && x.nodes != [] && x.nodes[0] in x.failed && WellFormed(x)
    && forall i :: 0 <= i < |x.nodes| && x.nodes[i].url != "" ==> x.failures[i] > 0
  }

  lemma NotedMarked(env: Env, x: Exec, i: nat)
    requires NoRestore(env) && Marked(x) && i < |x.nodes|
    ensures Marked(Noted(env, x, x.nodes[i], Some(i)))
  {
  }

  /** A node that answers ends the command. */
  lemma NotDownAnswers(env: Env, x: Exec, node: ServerNode, index: Option<nat>)
    requires WellFormed(x) && !env.reply(|x.attempts|).Down?
    ensures var (y, r) := Execute(env, x, node, index, false); y.nodes == x.nodes && r != Failed(AllNodesDown)
  {
  }

  lemma {:induction false} ExecuteGivesUp(env: Env, x: Exec, i: nat)
    requires NoRestore(env) && Marked(x) && i < |x.nodes|
    ensures var (y, r) := Execute(env, x, x.nodes[i], Some(i), false);
            y.nodes == x.nodes && (r == Failed(AllNodesDown) ==> NothingLeft(y))
    decreases Untried(x, x.nodes[i]), 1
  {
    var x1 := x.(attempts := x.attempts + [x.nodes[i]]);
    if env.reply(|x.attempts|).Down? {
      DownGivesUp(env, x1, i);
    } else {
      NotDownAnswers(env, x, x.nodes[i], Some(i));
    }
  }

  lemma {:induction false} DownGivesUp(env: Env, x: Exec, i: nat)
    requires NoRestore(env) && Marked(x) && i < |x.nodes|
    ensures var (y, r) := HandleServerDown(env, x, x.nodes[i], Some(i));
            y.nodes == x.nodes && (r == Stopped || r == Broken(AllNodesDown) ==> NothingLeft(y))
    decreases Untried(x, x.nodes[i]), 0
  {
    NotedMarked(env, x, i);
    var y := Noted(env, x, x.nodes[i], Some(i));
    var p := Next(env, x, x.nodes[i], Some(i));
    DownUnfold(env, x, x.nodes[i], Some(i));
    if p.Some? { ExecuteGivesUp(env, y, p.value); } else { StoppedMeansNothingLeft(y); }
  }

  lemma StoppedMeansNothingLeft(y: Exec)
    requires Marked(y) && y.nodes != [] && y.nodes[Preferred(y.nodes, y.failures)] in y.failed
    ensures NothingLeft(y)
  {
    var p := Preferred(y.nodes, y.failures);
    assert !Healthy(y.nodes, y.failures, p);
    forall j | 0 <= j < |y.nodes| && y.nodes[j].url != "" ensures y.failures[j] > 0 {
      assert !Healthy(y.nodes, y.failures, j);
    }
  }

  /** A refreshed topology starts without failures. */
  lemma RefreshedMarked(x: Exec, nodes: seq<ServerNode>)
    requires Distinct(nodes) && x.failed == {}
    ensures Marked(Refreshed(x, nodes))
  {
  }

  /** Failover gives up only when nothing healthy is left, also after the refresh that status 410 asks for. */
  lemma GivesUpOnlyWhenNothingLeft(env: Env, x: Exec, i: nat)
    requires NoRestore(env) && WellFormed(x) && Distinct(x.nodes) && x.failed == {} && i < |x.nodes|
    requires env.refresh.Some? ==> Distinct(env.refresh.value)
    ensures var (y, r) := Execute(env, x, x.nodes[i], Some(i), true);
            r == Failed(AllNodesDown) ==> NothingLeft(y)
  {
    if !env.reply(|x.attempts|).Gone? {
      FirstAttempt(env, x, x.nodes[i], Some(i));
      ExecuteGivesUp(env, x, i);
    } else if env.refresh.Some? && env.refresh.value != [] {
      var x1 := x.(attempts := x.attempts + [x.nodes[i]]);
      RefreshedMarked(x1, env.refresh.value);
      ExecuteGivesUp(env, Refreshed(x1, env.refresh.value), Chosen(env, env.refresh.value));
    }
  }

  // ---- which nodes are tried, in which order ---------------------------------------

  /** Nobody else touches the counters while the command runs. */
  ghost predicate Steady(env: Env) {
    forall k, f :: env.health(k, f) == f
  }

  /** A node that failover turns to once the nodes `v` were tried: the first healthy one that is left, or the first
      node of all if none is left. */
  ghost predicate Follows(x: Exec, v: seq<nat>, j: nat)
    requires WellFormed(x)
  {
    && j < |x.nodes| && j !in v
    && if Healthy(x.nodes, x.failures, j) then forall h :: 0 <= h < j && Healthy(x.nodes, x.failures, h) ==> h in v
       else j == 0 && NoneLeft(x, v)
  }

  ghost predicate NoneLeft(x: Exec, v: seq<nat>)
    requires WellFormed(x)
  {
    forall h :: 0 <= h < |x.nodes| && Healthy(x.nodes, x.failures, h) ==> h in v
  }

  /** The nodes tried: the first one is given, and each other one follows those before it. */
  ghost predicate Tour(x: Exec, v: seq<nat>)
    requires WellFormed(x)
  {
    && (forall k :: 0 <= k < |v| ==> v[k] < |x.nodes|)
    && (forall k :: 1 <= k < |v| ==> FollowsAt(x, v, k))
  }

  ghost predicate FollowsAt(x: Exec, v: seq<nat>, k: nat)
    requires WellFormed(x)
  {
    k < |v| && Follows(x, v[..k], v[k])
  }

  function NodesAt(nodes: seq<ServerNode>, v: seq<nat>): (ns: seq<ServerNode>)
    requires forall k :: 0 <= k < |v| ==> v[k] < |nodes|
    ensures |ns| == |v| && forall k :: 0 <= k < |v| ==> ns[k] == nodes[v[k]]
  {
    seq(|v|, k requires 0 <= k < |v| => nodes[v[k]])
  }

  /** The command was at the nodes `v`, and the nodes `down` are on record: each has one more failure than at the start,
      and no other node has. */
  ghost predicate Toured(x: Exec, v: seq<nat>, down: seq<nat>, y: Exec)
    requires WellFormed(x)
  {
    && Tour(x, v) && (forall k :: 0 <= k < |down| ==> down[k] < |x.nodes|)
    && y.nodes == x.nodes && WellFormed(y)
    && y.attempts == x.attempts + NodesAt(x.nodes, v)
    && y.failed == NodeSet(NodesAt(x.nodes, down))
    && (forall j :: 0 <= j < |x.nodes| ==> y.failures[j] == x.failures[j] + if j in down then 1 else 0)
  }

  /** Replies to all attempts but the last. */
  ghost predicate DownUntil(env: Env, from: nat, n: nat) {
    forall k :: from <= k < from + n - 1 ==> env.reply(k).Down?
  }

  /** The whole failover, exactly: `v` are the nodes tried. */
  ghost predicate FailedOver(env: Env, x: Exec, v: seq<nat>, y: Exec, r: Result)
    requires WellFormed(x)
  {
    var n := |x.attempts| + |v|;
    && v != [] && DownUntil(env, |x.attempts|, |v|)
    && (if env.reply(n - 1).Down? then
          Toured(x, v, v, y) && NoneLeft(x, v) && 0 in v && r == Failed(AllNodesDown)
        else
          Toured(x, v, v[..|v| - 1], y) && r != Failed(AllNodesDown) && (r.Done? <==> env.reply(n - 1) in {Success, NotModified, NotFound}))
  }

  lemma TourNext(x: Exec, v: seq<nat>, j: nat)
    requires WellFormed(x) && Tour(x, v) && (if v == [] then j < |x.nodes| else Follows(x, v, j))
    ensures Tour(x, v + [j])
  {
    var w := v + [j];
    forall k | 1 <= k < |w| ensures FollowsAt(x, w, k) {
      if k < |v| {
        assert w[..k] == v[..k];
        assert FollowsAt(x, v, k);
      } else {
        assert w[..k] == v;
      }
    }
  }

  lemma AttemptsNext(x: Exec, v: seq<nat>, j: nat)
    requires (forall k :: 0 <= k < |v| ==> v[k] < |x.nodes|) && j < |x.nodes|
    ensures x.attempts + NodesAt(x.nodes, v) + [x.nodes[j]] == x.attempts + NodesAt(x.nodes, v + [j])
  {
    assert NodesAt(x.nodes, v + [j]) == NodesAt(x.nodes, v) + [x.nodes[j]];
  }

  /** The attempt at the next node, before its reply. */
  lemma TouredTry(x: Exec, v: seq<nat>, y: Exec, j: nat)
    requires WellFormed(x) && Toured(x, v, v, y) && (if v == [] then j < |x.nodes| else Follows(x, v, j))
    ensures Toured(x, v + [j], v, y.(attempts := y.attempts + [x.nodes[j]]))
  {
    TourNext(x, v, j);
    AttemptsNext(x, v, j);
  }

  /** A failure is put on record for the node that was tried, and for no other. */
  lemma TouredNote(env: Env, x: Exec, v: seq<nat>, y: Exec, j: nat)
    requires Steady(env) && WellFormed(x) && j < |x.nodes| && j !in v && Toured(x, v + [j], v, y)
    ensures Toured(x, v + [j], v + [j], Noted(env, y, x.nodes[j], Some(j)))
  {
    var down := v + [j];
    var z := Noted(env, y, x.nodes[j], Some(j));
    assert NodesAt(x.nodes, down) == NodesAt(x.nodes, v) + [x.nodes[j]];
    assert z.failed == NodeSet(NodesAt(x.nodes, down));
    forall h | 0 <= h < |x.nodes| ensures z.failures[h] == x.failures[h] + if h in down then 1 else 0 { }
  }

  /** Who is preferred then. */
  lemma PreferredFollows(x: Exec, v: seq<nat>, y: Exec)
    requires WellFormed(x) && Distinct(x.nodes) && Toured(x, v, v, y) && x.nodes != []
    ensures var p := Preferred(y.nodes, y.failures);
            if y.nodes[p] in y.failed then NoneLeft(x, v) && 0 in v else Follows(x, v, p)
  {
    var p := Preferred(y.nodes, y.failures);
    forall h | 0 <= h < |x.nodes| ensures Healthy(y.nodes, y.failures, h) <==> Healthy(x.nodes, x.failures, h) && h !in v { }
    FailedIsTried(x, v, y, p);
    FailedIsTried(x, v, y, 0);
    assert p == 0 || Healthy(y.nodes, y.failures, p);
  }

  lemma FailedIsTried(x: Exec, v: seq<nat>, y: Exec, h: nat)
    requires WellFormed(x) && Distinct(x.nodes) && Toured(x, v, v, y) && h < |x.nodes|
    ensures x.nodes[h] in y.failed <==> h in v
  {
    var ns := NodesAt(x.nodes, v);
    if h in v {
      var k :| 0 <= k < |v| && v[k] == h;
      assert ns[k] == x.nodes[h];
    }
    if x.nodes[h] in y.failed {
      var k :| 0 <= k < |ns| && ns[k] == x.nodes[h];
      assert x.nodes[v[k]] == x.nodes[h];
    }
  }

  lemma {:induction false} ExecuteTours(env: Env, x: Exec, v: seq<nat>, y: Exec, j: nat) returns (w: seq<nat>)
    requires Steady(env) && WellFormed(x) && Distinct(x.nodes) && Toured(x, v, v, y)
    requires if v == [] then j < |x.nodes| else Follows(x, v, j)
    requires DownUntil(env, |x.attempts|, |v| + 1)
    ensures w != [] && w[0] == First(v, j)
    ensures var r := Execute(env, y, x.nodes[j], Some(j), false); FailedOver(env, x, w, r.0, r.1)
    decreases Untried(y, x.nodes[j]), 1
  {
    var y1 := y.(attempts := y.attempts + [x.nodes[j]]);
    TouredTry(x, v, y, j);
    assert |y.attempts| == |x.attempts| + |v|;
    if env.reply(|y.attempts|).Down? {
      DownHandled(env, y, x.nodes[j], Some(j));
      DownOnceMore(env, |x.attempts|, |v|);
      w := DownTours(env, x, v, y1, j);
    } else {
      Answered(env, y, x.nodes[j], Some(j));
      w := v + [j];
      AnsweredTour(env, x, v, j, y1, Execute(env, y, x.nodes[j], Some(j), false).1);
    }
  }

  function First(v: seq<nat>, j: nat): nat {
    if v == [] then j else v[0]
  }

  function AsResult(d: Recovery): Result {
    if d.Recovered? then Done else if d.Stopped? then Failed(AllNodesDown) else Failed(d.reason)
  }

  lemma DownOnceMore(env: Env, from: nat, n: nat)
    requires DownUntil(env, from, n + 1) && env.reply(from + n).Down?
    ensures DownUntil(env, from, n + 2)
  {
  }

  lemma DownHandled(env: Env, y: Exec, node: ServerNode, index: Option<nat>)
    requires WellFormed(y) && env.reply(|y.attempts|).Down?
    ensures var h := HandleServerDown(env, y.(attempts := y.attempts + [node]), node, index);
            Execute(env, y, node, index, false) == (h.0, AsResult(h.1))
  {
  }

  lemma Answered(env: Env, y: Exec, node: ServerNode, index: Option<nat>)
    requires WellFormed(y) && !env.reply(|y.attempts|).Down?
    ensures var r := Execute(env, y, node, index, false);
            r.0 == y.(attempts := y.attempts + [node]) && r.1 != Failed(AllNodesDown) && (r.1.Done? <==> Good(env.reply(|y.attempts|)))
  {
  }

  lemma AnsweredTour(env: Env, x: Exec, v: seq<nat>, j: nat, y: Exec, r: Result)
    requires WellFormed(x) && Toured(x, v + [j], v, y) && DownUntil(env, |x.attempts|, |v| + 1)
    requires var reply := env.reply(|x.attempts| + |v|); !reply.Down? && r != Failed(AllNodesDown) && (r.Done? <==> Good(reply))
    ensures FailedOver(env, x, v + [j], y, r)
  {
    assert (v + [j])[..|v|] == v;
  }

  lemma GaveUpTour(env: Env, x: Exec, v: seq<nat>, y: Exec)
    requires WellFormed(x) && v != [] && Toured(x, v, v, y) && NoneLeft(x, v) && 0 in v && DownUntil(env, |x.attempts|, |v| + 1)
    ensures FailedOver(env, x, v, y, Failed(AllNodesDown))
  {
  }

  lemma {:induction false} DownTours(env: Env, x: Exec, v: seq<nat>, y: Exec, j: nat) returns (w: seq<nat>)
    requires Steady(env) && WellFormed(x) && Distinct(x.nodes) && j < |x.nodes| && j !in v && Toured(x, v + [j], v, y)
    requires DownUntil(env, |x.attempts|, |v| + 2)
    ensures w != [] && w[0] == First(v, j)
    ensures var h := HandleServerDown(env, y, x.nodes[j], Some(j)); FailedOver(env, x, w, h.0, AsResult(h.1))
    decreases Untried(y, x.nodes[j]), 0
  {
    var z, u := Noted(env, y, x.nodes[j], Some(j)), v + [j];
    TouredNote(env, x, v, y, j);
    var p := Next(env, y, x.nodes[j], Some(j));
    NextFollows(env, x, u, y, j, z);
    if p.Some? {
      TurnsTo(env, y, x.nodes[j], j, p.value);
      w := ExecuteTours(env, x, u, z, p.value);
    } else {
      w := u;
      StopsThere(env, y, x.nodes[j], j);
      GaveUpTour(env, x, u, z);
    }
  }

  lemma TurnsTo(env: Env, y: Exec, node: ServerNode, j: nat, i: nat)
    requires WellFormed(y) && Next(env, y, node, Some(j)) == Some(i)
    ensures var z := Noted(env, y, node, Some(j)); var r := Execute(env, z, z.nodes[i], Some(i), false);
            && Untried(z, z.nodes[i]) < Untried(y, node)
            && HandleServerDown(env, y, node, Some(j)).0 == r.0 && AsResult(HandleServerDown(env, y, node, Some(j)).1) == r.1
  {
    DownUnfold(env, y, node, Some(j));
  }

  lemma NextFollows(env: Env, x: Exec, u: seq<nat>, y: Exec, j: nat, z: Exec)
    requires WellFormed(x) && Distinct(x.nodes) && WellFormed(y) && j < |x.nodes| && y.nodes == x.nodes
    requires z == Noted(env, y, x.nodes[j], Some(j)) && Toured(x, u, u, z)
    ensures var p := Next(env, y, x.nodes[j], Some(j)); if p.Some? then Follows(x, u, p.value) else NoneLeft(x, u) && 0 in u
  {
    PreferredFollows(x, u, z);
  }

  lemma StopsThere(env: Env, y: Exec, node: ServerNode, j: nat)
    requires WellFormed(y) && y.nodes != [] && Next(env, y, node, Some(j)).None?
    ensures HandleServerDown(env, y, node, Some(j)) == (Noted(env, y, node, Some(j)), Stopped)
  {
  }

  /** Failover exactly, while nobody else touches the counters: the nodes tried are the one given, then the healthy ones
      in the order of the topology, then the first node if it is not among them, up to the first one that is not down;
      exactly those that were down have one more failure; and the command gives up if and only if all of them were. */
  lemma FailoverExactly(env: Env, x: Exec, i: nat) returns (v: seq<nat>)
    requires Steady(env) && WellFormed(x) && Distinct(x.nodes) && x.failed == {} && i < |x.nodes| && !env.reply(|x.attempts|).Gone?
    ensures v != [] && v[0] == i
    ensures var r := Execute(env, x, x.nodes[i], Some(i), true); FailedOver(env, x, v, r.0, r.1)
  {
    FirstAttempt(env, x, x.nodes[i], Some(i));
    assert NodesAt(x.nodes, []) == [];
    v := ExecuteTours(env, x, [], x, i);
  }

  /** The same after status 410, on the refreshed topology, whose counters are zero; a success is an error then. */
  lemma RefreshedFailoverExactly(env: Env, x: Exec, node: ServerNode, index: Option<nat>) returns (v: seq<nat>, r: Result)
    requires Steady(env) && WellFormed(x) && x.failed == {} && env.reply(|x.attempts|).Gone?
    requires env.refresh.Some? && env.refresh.value != [] && Distinct(env.refresh.value)
    ensures var x2 := Exec(env.refresh.value, seq(|env.refresh.value|, k => 0), {}, x.attempts + [node]);
            && v != [] && v[0] == Chosen(env, env.refresh.value)
            && Execute(env, x, node, index, true).1 == (if r.Done? then Failed(NotRelevant) else r)
            && FailedOver(env, x2, v, Execute(env, x, node, index, true).0, r)
  {
    var x2 := Exec(env.refresh.value, seq(|env.refresh.value|, k => 0), {}, x.attempts + [node]);
    assert x2 == Refreshed(x.(attempts := x.attempts + [node]), env.refresh.value);
    var i := Chosen(env, env.refresh.value);
    assert NodesAt(x2.nodes, []) == [];
    v := ExecuteTours(env, x2, [], x2, i);
    r := Execute(env, x2, x2.nodes[i], Some(i), false).1;
  }

  /** A command raises the counter of a node only if it tried that node, and gives up only if it tried every node that
      was healthy. */
  lemma OnlyTriedNodesAreMarked(env: Env, x: Exec, i: nat)
    requires Steady(env) && WellFormed(x) && Distinct(x.nodes) && x.failed == {} && x.attempts == [] && i < |x.nodes| && !env.reply(0).Gone?
    ensures var (y, r) := Execute(env, x, x.nodes[i], Some(i), true);
            && y.nodes == x.nodes && WellFormed(y) && y.attempts != [] && y.attempts[0] == x.nodes[i]
            && (forall j :: 0 <= j < |x.nodes| && x.nodes[j] !in y.attempts ==> y.failures[j] == x.failures[j])
            && (r == Failed(AllNodesDown) ==>
                  forall j :: 0 <= j < |x.nodes| && x.nodes[j].url != "" && x.failures[j] == 0 ==> x.nodes[j] in y.attempts)
  {
    var v := FailoverExactly(env, x, i);
    var r := Execute(env, x, x.nodes[i], Some(i), true);
    MarkedAreTried(env, x, v, r.0, r.1);
  }

  lemma MarkedAreTried(env: Env, x: Exec, v: seq<nat>, y: Exec, r: Result)
    requires WellFormed(x) && x.attempts == [] && FailedOver(env, x, v, y, r)
    ensures y.nodes == x.nodes && WellFormed(y) && y.attempts != [] && v[0] < |x.nodes| && y.attempts[0] == x.nodes[v[0]]
    ensures forall j :: 0 <= j < |x.nodes| && x.nodes[j] !in y.attempts ==> y.failures[j] == x.failures[j]
    ensures r == Failed(AllNodesDown) ==>
              forall j :: 0 <= j < |x.nodes| && x.nodes[j].url != "" && x.failures[j] == 0 ==> x.nodes[j] in y.attempts
  {
    assert y.attempts == NodesAt(x.nodes, v);
    var down := if env.reply(|v| - 1).Down? then v else v[..|v| - 1];
    forall j | 0 <= j < |x.nodes| && x.nodes[j] !in y.attempts ensures y.failures[j] == x.failures[j] {
      TriedIsAttempted(x.nodes, v, j);
      assert j in down ==> j in v;
    }
    if r == Failed(AllNodesDown) {
      forall j | 0 <= j < |x.nodes| && x.nodes[j].url != "" && x.failures[j] == 0 ensures x.nodes[j] in y.attempts {
        assert Healthy(x.nodes, x.failures, j);
        TriedIsAttempted(x.nodes, v, j);
      }
    }
  }

  lemma TriedIsAttempted(nodes: seq<ServerNode>, v: seq<nat>, j: nat)
    requires (forall k :: 0 <= k < |v| ==> v[k] < |nodes|) && j < |nodes|
    ensures j in v ==> nodes[j] in NodesAt(nodes, v)
  {
    if j in v {
      var k :| 0 <= k < |v| && v[k] == j;
      assert NodesAt(nodes, v)[k] == nodes[j];
    }
  }

  /** A node that is not known to the topology is not failed over from, and no counter is raised. */
  lemma UnknownNodeGivesUp(env: Env, x: Exec, node: ServerNode, retry: bool)
    requires WellFormed(x) && env.reply(|x.attempts|).Down?
    ensures var (y, r) := Execute(env, x, node, None, retry);
            r == Failed(AllNodesDown) && y == x.(attempts := x.attempts + [node], failed := x.failed + {node})
  {
  }

  /** Status 410 asks for one refresh: the command fails if that fails or leaves no node, and it fails on a second 410. */
  lemma GoneFails(env: Env, x: Exec, node: ServerNode, index: Option<nat>)
    requires WellFormed(x) && env.reply(|x.attempts|).Gone?
    ensures var x1 := x.(attempts := x.attempts + [node]);
            && Execute(env, x, node, index, false) == (x1, Failed(NotRelevant))
            && (env.refresh.None? ==> Execute(env, x, node, index, true) == (x1, Failed(RefreshFailed)))
            && (env.refresh == Some([]) ==> Execute(env, x, node, index, true).1 == Failed(NoNodes))
  {
  }

  // ---- what decides the outcome ---------------------------------------------------

  ghost predicate DecidedByLast(env: Env, made: nat, y: Exec, ok: bool) {
    |y.attempts| >= made && |y.attempts| > 0 && (ok <==> Good(env.reply(|y.attempts| - 1)))
  }

  lemma {:induction false} LastReplyDecides(env: Env, x: Exec, node: ServerNode, index: Option<nat>)
    requires WellFormed(x)
    ensures DecidedByLast(env, |x.attempts| + 1, Execute(env, x, node, index, false).0, Execute(env, x, node, index, false).1.Done?)
    decreases Untried(x, node), 1
  {
    var x1 := x.(attempts := x.attempts + [node]);
    if env.reply(|x.attempts|).Down? { LastReplyDecidesDown(env, x1, node, index); }
  }

  lemma {:induction false} LastReplyDecidesDown(env: Env, x: Exec, node: ServerNode, index: Option<nat>)
    requires WellFormed(x) && x.attempts != [] && !Good(env.reply(|x.attempts| - 1))
    ensures DecidedByLast(env, |x.attempts|, HandleServerDown(env, x, node, index).0, HandleServerDown(env, x, node, index).1.Recovered?)
    decreases Untried(x, node), 0
  {
    var y := Noted(env, x, node, index);
    var i := Next(env, x, node, index);
    DownUnfold(env, x, node, index);
    if i.Some? { LastReplyDecides(env, y, y.nodes[i.value], i); }
  }

  /** A command succeeds exactly if its last attempt gets a good reply and its first one was not answered with
      status 410: after that reply it fails even if the retry on the refreshed topology succeeds. */
  lemma SucceedsExactly(env: Env, x: Exec, node: ServerNode, index: Option<nat>)
    requires WellFormed(x)
    ensures var (y, r) := Execute(env, x, node, index, true);
            |y.attempts| > |x.attempts| && (r.Done? <==> Good(env.reply(|y.attempts| - 1)) && !env.reply(|x.attempts|).Gone?)
  {
    if env.reply(|x.attempts|).Gone? {
      if env.refresh.Some? && env.refresh.value != [] {
        var x2 := Refreshed(x.(attempts := x.attempts + [node]), env.refresh.value);
        var i := Chosen(env, x2.nodes);
        LastReplyDecides(env, x2, x2.nodes[i], Some(i));
      }
    } else {
      FirstAttempt(env, x, node, index);
      LastReplyDecides(env, x, node, index);
    }
  }

  /** A reply of 410 and then a success: two attempts, the second one good, and an error. */
  lemma GoneThenSuccessFails(env: Env, x: Exec, node: ServerNode)
    requires WellFormed(x) && x.attempts == [] && env.reply(0) == Gone && env.reply(1) == Success
    requires env.refresh.Some? && env.refresh.value != []
    ensures var (y, r) := Execute(env, x, node, Some(0), true); |y.attempts| == 2 && r == Failed(NotRelevant)
  {
  }

  // ---- the object -----------------------------------------------------------------

  class RequestExecutor {
    var nodes: seq<ServerNode>
    var failures: seq<nat>
    var failedNodes: set<ServerNode>      // of the command
    var attempts: seq<ServerNode>

    ghost function View(): Exec
      reads this
    {
      Exec(nodes, failures, failedNodes, attempts)
    }

    /** `Execute`. */
    method ExecuteCommand(env: Env, node: ServerNode, index: Option<nat>, retry: bool) returns (result: Result)
      requires WellFormed(View())
      modifies this
      ensures (View(), result) == Execute(env, old(View()), node, index, retry)
      decreases if retry then 1 else 0, Untried(View(), node), 2
    {
      var reply := env.reply(|attempts|);
      attempts := attempts + [node];
      if reply.Down? {
        var d := ServerDown(env, node, index);
        result := if d.Recovered? then Done else if d.Stopped? then Failed(AllNodesDown) else Failed(d.reason);
        return;
      }
      if reply.Success? || reply.NotModified? { return Done; }
      if reply.Unreadable? { return Failed(BadBody); }
      result := UnsuccessfulResponse(env, reply, node, index, retry);
    }

    /** `handleUnsuccessfulResponse` for the statuses that do not mean the node is down. */
    method UnsuccessfulResponse(env: Env, reply: Reply, ghost node: ServerNode, index: Option<nat>, retry: bool) returns (result: Result)
      requires WellFormed(View()) && attempts != [] && reply == env.reply(|attempts| - 1) && attempts[|attempts| - 1] == node
      requires reply.NotFound? || reply.Gone? || reply.Refused?
      modifies this
      ensures (View(), result) == Execute(env, old(View()).(attempts := old(attempts)[..|old(attempts)| - 1]), node, index, retry)
      decreases if retry then 1 else 0, Untried(View(), node), 1
    {
      ghost var x := View().(attempts := attempts[..|attempts| - 1]);
      assert x.attempts + [node] == attempts;
      match reply {
        case NotFound => result := Done;
        case Refused => result := Failed(ServerError);
        case Gone =>
          if !retry { return Failed(NotRelevant); }
          if env.refresh.None? { return Failed(RefreshFailed); }
          nodes := env.refresh.value;
          failures := seq(|nodes|, i => 0);
          if nodes == [] { return Failed(NoNodes); }
          var i := Chosen(env, nodes);
          result := ExecuteCommand(env, nodes[i], Some(i), false);
          if result.Done? { result := Failed(NotRelevant); }
      }
    }

    /** `handleServerDown`. */
    method ServerDown(env: Env, node: ServerNode, index: Option<nat>) returns (result: Recovery)
      requires WellFormed(View())
      modifies this
      ensures (View(), result) == HandleServerDown(env, old(View()), node, index)
      decreases 0, Untried(View(), node), 1
    {
      ghost var x := View();
      failedNodes := failedNodes + {node};
      if index.None? { return Stopped; }
      failures := Seen(env, |attempts|, Bumped(failures, index.value));
      assert View() == Noted(env, x, node, index);
      if nodes == [] { return Broken(NoNodes); }
      var i := Preferred(nodes, failures);
      if nodes[i] in failedNodes { return Stopped; }
      NotedUntried(env, x, node, index);
      NextIsUntried(View(), node, nodes[i]);
      var r := ExecuteCommand(env, nodes[i], Some(i), false);
      result := if r.Done? then Recovered else Broken(r.reason);
    }
  }
}
