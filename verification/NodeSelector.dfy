/** Choice of a node: failure counters, and the phase that finds the fastest node. */
module NodeSelection {
  import opened Wrappers

  datatype Role = Member | OtherRole

  /** `key` is the identity of the node object. */
  datatype ServerNode = ServerNode(key: nat, url: string, role: Role)

  /** Recordings a node needs to be chosen. */
  const WINS := 10

  // ---- the speed test -------------------------------------------------------------

  datatype SpeedTest = SpeedTest(records: seq<nat>, mode: nat, fastest: nat)

  /** `switchToSpeedTestPhase`: only from mode 0. */
  function Switched(s: SpeedTest): SpeedTest {
    if s.mode == 0 then s.(records := seq(|s.records|, i => 0), mode := 2) else s
  }

  predicate InSpeedTestPhase(s: SpeedTest) {
    s.mode > 1
  }

  /** The first position of the greatest count. */
  ghost predicate IsMaxIndex(records: seq<nat>, m: nat) {
    && m < |records|
    && (forall i :: 0 <= i < |records| ==> records[i] <= records[m])
    && (forall i :: 0 <= i < m ==> records[i] < records[m])
  }

  function MaxIndex(records: seq<nat>): (m: nat)
    requires records != []
    ensures IsMaxIndex(records, m)
  {
    if |records| == 1 then 0
    else
      var m := MaxIndex(records[..|records| - 1]);
      if records[|records| - 1] > records[m] then |records| - 1 else m
  }

  function Selected(s: SpeedTest, index: nat): SpeedTest {
    s.(fastest := index, mode := 0)
  }

  /** `recordFastest`, for an index and node that still match the topology. */
  function Record(s: SpeedTest, index: nat): SpeedTest
    requires index < |s.records|
  {
    var s1 := s.(records := s.records[index := s.records[index] + 1]);
    var s2 := if s1.records[index] >= WINS then Selected(s1, index) else s1;
    var s3 := s2.(mode := s2.mode + 1);
    if s3.mode <= |s.records| * 10 then s3 else Selected(s3, MaxIndex(s3.records))
  }

  ghost predicate Indexes(wins: seq<nat>, n: nat) {
    forall i :: 0 <= i < |wins| ==> wins[i] < n
  }

  function RecordAll(s: SpeedTest, wins: seq<nat>): (t: SpeedTest)
    requires Indexes(wins, |s.records|)
    ensures |t.records| == |s.records|
  {
    if wins == [] then s
    else Record(RecordAll(s, wins[..|wins| - 1]), wins[|wins| - 1])
  }

  function Sum(records: seq<nat>): nat {
    if records == [] then 0 else records[0] + Sum(records[1..])
  }

  lemma {:induction false} SumUpdate(records: seq<nat>, i: nat, v: nat)
    requires i < |records|
    ensures Sum(records[i := v]) == Sum(records) - records[i] + v
  {
    if i == 0 {
      assert records[i := v][1..] == records[1..];
    } else {
      SumUpdate(records[1..], i - 1, v);
      assert records[i := v][1..] == records[1..][i - 1 := v];
    }
  }

  lemma {:induction false} SumBound(records: seq<nat>, b: nat)
    requires forall i :: 0 <= i < |records| ==> records[i] <= b
    ensures Sum(records) <= b * |records|
  {
    if records != [] {
      SumBound(records[1..], b);
      assert b * |records| == b * (|records| - 1) + b;
    }
  }

  lemma {:induction false} SumZero(records: seq<nat>)
    requires forall i :: 0 <= i < |records| ==> records[i] == 0
    ensures Sum(records) == 0
  {
    if records != [] { SumZero(records[1..]); }
  }

  /** The phase is on after `k` recordings: no node has won. */
  ghost predicate Running(s: SpeedTest, k: nat) {
    && s.mode == 2 + k && Sum(s.records) == k
    && forall i :: 0 <= i < |s.records| ==> s.records[i] < WINS
  }

  /** The phase ended in favour of a node with exactly ten wins, and nobody else has as many. */
  ghost predicate Won(s: SpeedTest, index: nat) {
    && index < |s.records| && s.fastest == index && s.records[index] == WINS
    && (forall i :: 0 <= i < |s.records| && i != index ==> s.records[i] < WINS)
    && !InSpeedTestPhase(s)
  }

  lemma StartRunning(s: SpeedTest)
    requires s.mode == 0
    ensures Running(Switched(s), 0) && |Switched(s).records| == |s.records|
  {
    SumZero(Switched(s).records);
  }

  /** One recording either goes on or lets this node win; with two nodes or more the overflow branch is not taken. */
  lemma RecordStep(s: SpeedTest, k: nat, index: nat)
    requires Running(s, k) && |s.records| >= 2 && index < |s.records|
    ensures k <= 9 * |s.records|
    ensures if s.records[index] == 9 then Won(Record(s, index), index) else Running(Record(s, index), k + 1)
  {
    var n := |s.records|;
    SumBound(s.records, 9);
    var r := s.records[index := s.records[index] + 1];
    SumUpdate(s.records, index, s.records[index] + 1);
    if s.records[index] < 9 {
      SumBound(r, 9);
    }
  }

  ghost predicate RunningAt(s: SpeedTest, wins: seq<nat>, i: nat) {
    i <= |wins| && Indexes(wins, |s.records|) && Running(RecordAll(s, wins[..i]), i)
  }

  ghost predicate RunningTo(s: SpeedTest, wins: seq<nat>, k: nat) {
    forall i :: 0 <= i <= k ==> RunningAt(s, wins, i)
  }

  ghost predicate WonAt(s: SpeedTest, wins: seq<nat>, j: nat) {
    j < |wins| && Indexes(wins[..j + 1], |s.records|) && Won(RecordAll(s, wins[..j + 1]), wins[j])
  }

  /** Pigeonhole: within 9n + 1 recordings some node wins, and until then the phase goes on. */
  lemma {:induction false} PhaseEnds(s: SpeedTest, wins: seq<nat>, k: nat) returns (j: nat)
    requires |s.records| >= 2 && |wins| == 9 * |s.records| + 1 && RunningTo(s, wins, k)
    ensures j <= 9 * |s.records| && RunningTo(s, wins, j) && WonAt(s, wins, j)
    decreases |wins| - k
  {
    assert RunningAt(s, wins, k);
    RunningBound(s, wins, k);
    RunningNext(s, wins, k);
    if RunningAt(s, wins, k + 1) {
      j := PhaseEnds(s, wins, k + 1);
    } else {
      j := k;
    }
  }

  lemma RunningBound(s: SpeedTest, wins: seq<nat>, k: nat)
    requires RunningAt(s, wins, k)
    ensures k <= 9 * |s.records|
  {
    SumBound(RecordAll(s, wins[..k]).records, 9);
  }

  /** The next recording goes on or ends the phase. */
  lemma RunningNext(s: SpeedTest, wins: seq<nat>, k: nat)
    requires |s.records| >= 2 && RunningAt(s, wins, k) && k < |wins|
    ensures RunningAt(s, wins, k + 1) || WonAt(s, wins, k)
  {
    RecordAllNext(s, wins, k);
    RecordStep(RecordAll(s, wins[..k]), k, wins[k]);
  }

  lemma RecordAllNext(s: SpeedTest, wins: seq<nat>, k: nat)
    requires Indexes(wins, |s.records|) && k < |wins|
    ensures Indexes(wins[..k], |s.records|) && Indexes(wins[..k + 1], |s.records|)
    ensures RecordAll(s, wins[..k + 1]) == Record(RecordAll(s, wins[..k]), wins[k])
  {
    assert wins[..k + 1][..k] == wins[..k];
  }

  /** The speed test, from the switch on: it ends within 9n + 1 recordings with a node that has exactly ten wins. */
  lemma SpeedTestBound(s: SpeedTest, wins: seq<nat>) returns (j: nat)
    requires s.mode == 0 && |s.records| >= 2 && Indexes(wins, |s.records|) && |wins| == 9 * |s.records| + 1
    ensures j <= 9 * |s.records| && Indexes(wins[..j + 1], |s.records|)
    ensures forall i :: 0 <= i <= j ==>
              Indexes(wins[..i], |s.records|) && InSpeedTestPhase(RecordAll(Switched(s), wins[..i]))
    ensures Won(RecordAll(Switched(s), wins[..j + 1]), wins[j])
  {
    StartRunning(s);
    var t := Switched(s);
    assert wins[..0] == [];
    assert RunningAt(t, wins, 0);
    j := PhaseEnds(t, wins, 0);
    forall i | 0 <= i <= j ensures InSpeedTestPhase(RecordAll(t, wins[..i])) {
      assert RunningAt(t, wins, i);
    }
  }

  /** What happens to the speed test: the timer or a failed fastest node asks for a phase, or a read command that
      ran on all nodes reports the fastest one, which it does only during a phase. */
  datatype Act = Switch | Report(index: nat)

  function Do(s: SpeedTest, a: Act): (t: SpeedTest)
    ensures |t.records| == |s.records|
  {
    match a
    case Switch => Switched(s)
    case Report(index) => if InSpeedTestPhase(s) && index < |s.records| then Record(s, index) else s
  }

  function DoAll(s: SpeedTest, acts: seq<Act>): (t: SpeedTest)
    ensures |t.records| == |s.records|
    decreases |acts|
  {
    if acts == [] then s else DoAll(Do(s, acts[0]), acts[1..])
  }

  /** A win ends the phase in mode 1, which no switch leaves. */
  lemma WinEndsInOne(s: SpeedTest, k: nat, index: nat)
    requires Running(s, k) && |s.records| >= 2 && index < |s.records| && s.records[index] == 9
    ensures Record(s, index).mode == 1
  {
    RecordStep(s, k, index);
  }

  /** After a win no run of switches and reports changes anything: the test never runs a second time. */
  lemma {:induction false} NoSecondPhase(s: SpeedTest, acts: seq<Act>)
    requires s.mode == 1
    ensures DoAll(s, acts) == s
    decreases |acts|
  {
    if acts != [] { NoSecondPhase(s, acts[1..]); }
  }

  /** Where the speed test can be: not begun, running, or decided for good. */
  ghost predicate Stage(start: SpeedTest, s: SpeedTest) {
    || s == start
    || (exists k: nat :: Running(s, k))
    || (s.mode == 1 && Won(s, s.fastest))
  }

  lemma StageStep(start: SpeedTest, s: SpeedTest, a: Act)
    requires start.mode == 0 && |start.records| >= 2 && |s.records| == |start.records| && Stage(start, s)
    ensures Stage(start, Do(s, a))
  {
    if s == start {
      StartRunning(s);
      assert Do(s, a) == s || Running(Do(s, a), 0);
    } else if k: nat :| Running(s, k) {
      if a.Report? && a.index < |s.records| {
        RecordStep(s, k, a.index);
        if s.records[a.index] == 9 { WinEndsInOne(s, k, a.index); } else { assert Running(Do(s, a), k + 1); }
      } else {
        assert Running(Do(s, a), k);
      }
    }
  }

  /** Over any run from mode 0 on, the test begins at most once, and its result is a node with exactly ten wins. */
  lemma {:induction false} RunsOnce(start: SpeedTest, s: SpeedTest, acts: seq<Act>)
    requires start.mode == 0 && |start.records| >= 2 && |s.records| == |start.records| && Stage(start, s)
    ensures Stage(start, DoAll(s, acts))
    decreases |acts|
  {
    if acts != [] {
      StageStep(start, s, acts[0]);
      RunsOnce(start, Do(s, acts[0]), acts[1..]);
    }
  }

  lemma {:induction false} SingleNodeCounts(s: SpeedTest, k: nat)
    requires s.mode == 0 && |s.records| == 1 && k <= 8
    ensures var wins := seq(k, i => 0); Indexes(wins, 1) && RecordAll(Switched(s), wins) == SpeedTest([k], 2 + k, s.fastest)
  {
    var wins: seq<nat> := seq(k, i => 0);
    if k == 0 {
      assert Switched(s).records == [0];
    } else {
      SingleNodeCounts(s, k - 1);
      assert wins[..k - 1] == seq(k - 1, i => 0);
      assert [k - 1][0 := k] == [k];
    }
  }

  /** With one node the bound fails: the ninth recording overflows, and the node is chosen with nine wins. */
  lemma SingleNodeOverflows(s: SpeedTest)
    requires s.mode == 0 && |s.records| == 1
    ensures var wins := seq(9, i => 0);
            Indexes(wins, 1) && RecordAll(Switched(s), wins) == SpeedTest([9], 0, 0)
  {
    SingleNodeCounts(s, 8);
    var wins: seq<nat> := seq(9, i => 0);
    assert wins[..8] == seq(8, i => 0);
    assert [8][0 := 9] == [9];
  }

  // ---- the preferred node ---------------------------------------------------------

  predicate Healthy(nodes: seq<ServerNode>, failures: seq<nat>, i: nat)
    requires i < |nodes| && i < |failures|
  {
    failures[i] == 0 && nodes[i].url != ""
  }

  /** `getPreferredNode`: the first healthy node, or the first node of all. */
  function Preferred(nodes: seq<ServerNode>, failures: seq<nat>): (i: nat)
    requires |nodes| == |failures| && nodes != []
    ensures i < |nodes|
    ensures Healthy(nodes, failures, i) ==> forall j :: 0 <= j < i ==> !Healthy(nodes, failures, j)
    ensures !Healthy(nodes, failures, i) ==> i == 0 && forall j :: 0 <= j < |nodes| ==> !Healthy(nodes, failures, j)
  {
    if FirstHealthy(nodes, failures, 0) < |nodes| then FirstHealthy(nodes, failures, 0) else 0
  }

  function FirstHealthy(nodes: seq<ServerNode>, failures: seq<nat>, from: nat): (i: nat)
    requires |nodes| == |failures| && from <= |nodes|
    ensures from <= i <= |nodes|
    ensures forall j :: from <= j < i ==> !Healthy(nodes, failures, j)
    ensures i < |nodes| ==> Healthy(nodes, failures, i)
    decreases |nodes| - from
  {
    if from == |nodes| || Healthy(nodes, failures, from) then from else FirstHealthy(nodes, failures, from + 1)
  }

  /** Steps from one position to another, around the list. */
  function Distance(start: nat, j: nat, n: nat): int {
    if j >= start then j - start else j - start + n
  }

  // ---- the object -----------------------------------------------------------------

  class NodeSelector {
    var nodes: seq<ServerNode>
    var failures: seq<nat>
    var fastestRecords: seq<nat>
    var fastest: nat
    var speedTestMode: nat

    ghost predicate Valid()
      reads this
    {
      |failures| == |nodes| && |fastestRecords| == |nodes|
    }

    ghost function Test(): SpeedTest
      reads this
    {
      SpeedTest(fastestRecords, speedTestMode, fastest)
    }

    constructor (nodes: seq<ServerNode>)
      ensures Valid() && this.nodes == nodes && speedTestMode == 0 && fastest == 0
      ensures forall i :: 0 <= i < |nodes| ==> failures[i] == 0 && fastestRecords[i] == 0
    {
      this.nodes := nodes;
      failures := seq(|nodes|, i => 0);
      fastestRecords := seq(|nodes|, i => 0);
      fastest := 0;
      speedTestMode := 0;
    }

    /** `onFailedRequest`. */
    method OnFailedRequest(nodeIndex: int)
      requires Valid()
      modifies this`failures
      ensures Valid()
      ensures failures == if 0 <= nodeIndex < |nodes| then old(failures)[nodeIndex := old(failures)[nodeIndex] + 1] else old(failures)
    {
      if nodeIndex < 0 || nodeIndex >= |failures| { return; }
      failures := failures[nodeIndex := failures[nodeIndex] + 1];
    }

    /** `getPreferredNode`; none if there are no nodes at all. */
    method GetPreferredNode() returns (index: Option<nat>)
      requires Valid()
      ensures index == if nodes == [] then None else Some(Preferred(nodes, failures))
    {
      var i := 0;
      while i < |nodes|
        invariant 0 <= i <= |nodes|
        invariant FirstHealthy(nodes, failures, 0) == FirstHealthy(nodes, failures, i)
      {
        if failures[i] == 0 && nodes[i].url != "" { return Some(i); }
        i := i + 1;
      }
      index := if |nodes| == 0 then None else Some(0);
    }

    /** `getNodeBySessionID`: the first healthy member in cyclic order from the session's own position. */
    method GetNodeBySessionID(sessionId: nat) returns (index: nat)
      requires Valid() && nodes != []
      ensures index < |nodes|
      ensures (forall j :: 0 <= j < |nodes| ==> !Serves(j)) ==> index == Preferred(nodes, failures)
      ensures var start := sessionId % |nodes|;
              (exists j :: 0 <= j < |nodes| && Serves(j)) ==>
                && Serves(index)
                && forall j :: 0 <= j < |nodes| && Serves(j) ==> Distance(start, index, |nodes|) <= Distance(start, j, |nodes|)
    {
      var start := sessionId % |nodes|;
      var i := start;
      while i < |nodes|
        invariant start <= i <= |nodes|
        invariant forall j :: start <= j < i ==> !Serves(j)
      {
        if failures[i] == 0 && nodes[i].role.Member? {
          assert Serves(i);
          return i;
        }
        i := i + 1;
      }
      i := 0;
      while i < start
        invariant 0 <= i <= start
        invariant forall j :: start <= j < |nodes| ==> !Serves(j)
        invariant forall j :: 0 <= j < i ==> !Serves(j)
      {
        if failures[i] == 0 && nodes[i].role.Member? {
          assert Serves(i);
          return i;
        }
        i := i + 1;
      }
      var preferred := GetPreferredNode();
      index := preferred.value;
    }

    predicate Serves(j: nat)
      reads this
    {
      j < |nodes| && j < |failures| && failures[j] == 0 && nodes[j].role.Member?
    }

    /** `switchToSpeedTestPhase`. */
    method SwitchToSpeedTestPhase()
      requires Valid()
      modifies this`fastestRecords, this`speedTestMode
      ensures Valid() && Test() == Switched(old(Test()))
    {
      if speedTestMode != 0 { return; }
      speedTestMode := 1;
      var i := 0;
      while i < |fastestRecords|
        invariant 0 <= i <= |fastestRecords| == |nodes| && speedTestMode == 1
        invariant forall j :: 0 <= j < i ==> fastestRecords[j] == 0
      {
        fastestRecords := fastestRecords[i := 0];
        i := i + 1;
      }
      speedTestMode := speedTestMode + 1;
      assert fastestRecords == Switched(old(Test())).records;
    }

    /** `findMaxIndex`. */
    method FindMaxIndex() returns (maxIndex: nat)
      requires Valid() && nodes != []
      ensures maxIndex == MaxIndex(fastestRecords)
    {
      maxIndex := 0;
      var maxValue := 0;
      var i := 0;
      while i < |fastestRecords|
        invariant 0 <= i <= |fastestRecords|
        invariant maxIndex < |fastestRecords| && (i > 0 ==> maxIndex < i) && (i == 0 ==> maxIndex == 0 && maxValue == 0)
        invariant i > 0 ==> maxValue == fastestRecords[maxIndex]
        invariant forall j :: 0 <= j < i ==> fastestRecords[j] <= maxValue
        invariant forall j :: 0 <= j < maxIndex ==> fastestRecords[j] < maxValue
      {
        if maxValue < fastestRecords[i] {
          maxIndex := i;
          maxValue := fastestRecords[i];
        }
        i := i + 1;
      }
    }

    /** `recordFastest`: refused if the topology changed meanwhile. */
    method RecordFastest(index: int, node: ServerNode)
      requires Valid()
      modifies this`fastestRecords, this`fastest, this`speedTestMode
      ensures Valid()
      ensures Test() == if 0 <= index < |nodes| && node == nodes[index] then Record(old(Test()), index) else old(Test())
    {
      if index < 0 || index >= |fastestRecords| { return; }
      if node != nodes[index] { return; }
      fastestRecords := fastestRecords[index := fastestRecords[index] + 1];
      if fastestRecords[index] >= WINS { SelectFastest(index); }
      speedTestMode := speedTestMode + 1;
      if speedTestMode <= |nodes| * 10 { return; }
      var maxIndex := FindMaxIndex();
      SelectFastest(maxIndex);
    }

    /** `selectFastest`, without its timer. */
    method SelectFastest(index: nat)
      modifies this`fastest, this`speedTestMode
      ensures fastest == index && speedTestMode == 0
    {
      fastest := index;
      speedTestMode := 0;
    }
  }
}
