/**
 The cluster handshake of init_cluster in src/main.c, run by nodes 0..n-1 at once: each node listens,
 accepts one connection per lower id, then connects to every higher id in order, waiting for each
 acknowledgment before the next.
 */
module Mesh {
  import opened FiniteSets

  /** One node's place in init_cluster: accepted and target are its two loop counters, waiting says it
      has connected and sent its id, and fds are the peers whose socket it has stored. */
  datatype Node = Node(listening: bool, accepted: nat, target: nat, waiting: bool, fds: set<nat>)

  /** backlog holds pairs (from, to) connected but not accepted, acks pairs accepted but not yet
      acknowledged at the caller; made is the history of all connections. */
  datatype State = State(nodes: seq<Node>, backlog: set<(nat, nat)>, acks: set<(nat, nat)>, made: seq<(nat, nat)>)

  datatype Step = Listen(i: nat) | Accept(i: nat, from: nat) | Connect(i: nat) | ReadAck(i: nat)

  function Init(n: nat): State {
    State(seq(n, i requires 0 <= i < n => Node(false, 0, i + 1, false, {})), {}, {}, [])
  }

  /** The accept loop runs first, as many times as there are lower ids. */
  predicate Accepting(s: State, i: nat)
    requires i < |s.nodes|
  {
    s.nodes[i].listening && s.nodes[i].accepted < i
  }

  predicate Calling(s: State, i: nat)
    requires i < |s.nodes|
  {
    s.nodes[i].listening && s.nodes[i].accepted == i && s.nodes[i].target < |s.nodes|
  }

  predicate Finished(s: State, i: nat)
    requires i < |s.nodes|
  {
    s.nodes[i].accepted == i && s.nodes[i].target == |s.nodes|
  }

  /** A connect to a peer that is not listening fails and is retried; that is no step here. */
  predicate Enabled(s: State, step: Step) {
    match step
    case Listen(i) => i < |s.nodes| && !s.nodes[i].listening
    case Accept(i, j) => i < |s.nodes| && Accepting(s, i) && (j, i) in s.backlog
    case Connect(i) => i < |s.nodes| && Calling(s, i) && !s.nodes[i].waiting && CanConnect(s, s.nodes[i].target)
    case ReadAck(i) => i < |s.nodes| && Calling(s, i) && s.nodes[i].waiting && (i, s.nodes[i].target) in s.acks
  }

  /** The listening socket is open from listen() until the connect loop ends. */
  predicate CanConnect(s: State, t: nat)
    requires t < |s.nodes|
  {
    s.nodes[t].listening && !Finished(s, t)
  }

  /** An id that is not lower than the acceptor's is refused, and the loop counter still advances. */
  function Apply(s: State, step: Step): State
    requires Enabled(s, step)
  {
    match step
    case Listen(i) => s.(nodes := s.nodes[i := s.nodes[i].(listening := true)])
    case Accept(i, j) =>
      var n := s.nodes[i].(accepted := s.nodes[i].accepted + 1);
      if j >= |s.nodes| || j >= i then s.(nodes := s.nodes[i := n], backlog := s.backlog - {(j, i)})
      else s.(nodes := s.nodes[i := n.(fds := n.fds + {j})], backlog := s.backlog - {(j, i)}, acks := s.acks + {(j, i)})
    case Connect(i) =>
      s.(nodes := s.nodes[i := s.nodes[i].(waiting := true)], backlog := s.backlog + {(i, s.nodes[i].target)},
         made := s.made + [(i, s.nodes[i].target)])
    case ReadAck(i) =>
      var t := s.nodes[i].target;
      s.(nodes := s.nodes[i := s.nodes[i].(waiting := false, target := t + 1, fds := s.nodes[i].fds + {t})],
         acks := s.acks - {(i, t)})
  }

  // ----- Invariant -----

  /** Where the pair i < j stands: not yet called, connected, acknowledged by j, or stored at both ends. */
  datatype Stage = Unmade | Backlogged | Acked | Made

  function PairStage(s: State, i: nat, j: nat): Stage
    requires i < j < |s.nodes|
  {
    if j < s.nodes[i].target then Made
    else if s.nodes[i].target == j && s.nodes[i].waiting then (if (i, j) in s.acks then Acked else Backlogged)
    else Unmade
  }

  function LowerAccepted(s: State, j: nat): set<nat>
    requires j < |s.nodes|
  {
    set i | 0 <= i < j && PairStage(s, i, j) in {Acked, Made}
  }

  ghost predicate NodeOk(s: State, i: nat)
    requires i < |s.nodes|
  {
    var n := s.nodes[i];
    && i < n.target <= |s.nodes|
    && n.accepted == |LowerAccepted(s, i)|
    && (n.waiting ==> n.target < |s.nodes|)
    && (n.waiting || n.target > i + 1 ==> n.listening && n.accepted == i)
    && (n.accepted > 0 ==> n.listening)
  }

  /** The stored sockets: accepted lower ids and connected higher ids. */
  ghost predicate FdsOk(s: State, i: nat)
    requires i < |s.nodes|
  {
    forall k: nat :: k in s.nodes[i].fds <==>
      if k < i then PairStage(s, k, i) in {Acked, Made} else i < k < s.nodes[i].target
  }

  /** The queues hold exactly the pairs at their stage, and the history each pair that left Unmade, once. */
  ghost predicate QueuesOk(s: State) {
    && (forall i: nat, j: nat :: (i, j) in s.backlog <==> i < j < |s.nodes| && PairStage(s, i, j) == Backlogged)
    && (forall i: nat, j: nat :: (i, j) in s.acks <==> i < j < |s.nodes| && PairStage(s, i, j) == Acked)
    && (forall i: nat, j: nat :: (i, j) in s.made <==> i < j < |s.nodes| && PairStage(s, i, j) != Unmade)
    && (forall k, l | 0 <= k < l < |s.made| :: s.made[k] != s.made[l])
  }

  ghost predicate Inv(s: State) {
    (forall i | 0 <= i < |s.nodes| :: NodeOk(s, i) && FdsOk(s, i)) && QueuesOk(s)
  }

  lemma InitInv(n: nat)
    ensures Inv(Init(n))
  {
    var s := Init(n);
    forall i | 0 <= i < n ensures NodeOk(s, i) {
      assert LowerAccepted(s, i) == {};
    }
  }

  /** t differs from s in the stage of at most the pair a < b. */
  ghost predicate MovesPair(s: State, t: State, a: nat, b: nat, stage: Stage)
    requires a < b
  {
    && |t.nodes| == |s.nodes|
    && forall i: nat, j: nat | i < j < |s.nodes| ::
         PairStage(t, i, j) == if i == a && j == b then stage else PairStage(s, i, j)
  }

  lemma LowerSame(s: State, t: State, a: nat, b: nat, stage: Stage, j: nat)
    requires a < b && MovesPair(s, t, a, b, stage) && j < |s.nodes|
    requires j == b < |s.nodes| ==> (stage in {Acked, Made} <==> PairStage(s, a, b) in {Acked, Made})
    ensures LowerAccepted(t, j) == LowerAccepted(s, j)
  {
    hide PairStage;
  }

  lemma ListenKeeps(s: State, i: nat)
    requires Inv(s) && Enabled(s, Listen(i))
    ensures Inv(Apply(s, Listen(i)))
  {
    var t, n := Apply(s, Listen(i)), |s.nodes|;
    assert MovesPair(s, t, n, n + 1, Made);
    hide PairStage, LowerAccepted;
    forall j | 0 <= j < n ensures NodeOk(t, j) && FdsOk(t, j) {
      assert NodeOk(s, j) && FdsOk(s, j);
      LowerSame(s, t, n, n + 1, Made, j);
    }
  }

  lemma ConnectKeeps(s: State, i: nat)
    requires Inv(s) && Enabled(s, Connect(i))
    ensures Inv(Apply(s, Connect(i)))
  {
    var t, n, k := Apply(s, Connect(i)), |s.nodes|, s.nodes[i].target;
    assert NodeOk(s, i);
    assert PairStage(s, i, k) == Unmade && (i, k) !in s.acks;
    assert MovesPair(s, t, i, k, Backlogged);
    hide PairStage, LowerAccepted, CanConnect;
    forall j | 0 <= j < n ensures NodeOk(t, j) && FdsOk(t, j) {
      assert NodeOk(s, j) && FdsOk(s, j);
      LowerSame(s, t, i, k, Backlogged, j);
    }
  }

  lemma ReadAckKeeps(s: State, i: nat)
    requires Inv(s) && Enabled(s, ReadAck(i))
    ensures Inv(Apply(s, ReadAck(i)))
  {
    var t, n, k := Apply(s, ReadAck(i)), |s.nodes|, s.nodes[i].target;
    assert NodeOk(s, i);
    assert PairStage(s, i, k) == Acked;
    assert MovesPair(s, t, i, k, Made);
    hide PairStage, LowerAccepted;
    forall j | 0 <= j < n ensures NodeOk(t, j) && FdsOk(t, j) {
      assert NodeOk(s, j) && FdsOk(s, j);
      LowerSame(s, t, i, k, Made, j);
    }
  }

  lemma AcceptMoves(s: State, i: nat, j: nat)
    requires Inv(s) && Enabled(s, Accept(i, j))
    ensures j < i && PairStage(s, j, i) == Backlogged && MovesPair(s, Apply(s, Accept(i, j)), j, i, Acked)
  {
    hide NodeOk, FdsOk;
    assert PairStage(s, j, i) == Backlogged;
  }

  lemma LowerMore(s: State, t: State, a: nat, b: nat)
    requires a < b < |s.nodes| && PairStage(s, a, b) == Backlogged && MovesPair(s, t, a, b, Acked)
    ensures LowerAccepted(t, b) == LowerAccepted(s, b) + {a} && a !in LowerAccepted(s, b)
  {
    hide PairStage;
  }

  lemma AcceptQueues(s: State, i: nat, j: nat)
    requires QueuesOk(s) && j < i < |s.nodes| && Enabled(s, Accept(i, j))
    requires PairStage(s, j, i) == Backlogged && MovesPair(s, Apply(s, Accept(i, j)), j, i, Acked)
    ensures QueuesOk(Apply(s, Accept(i, j)))
  {
    hide PairStage;
  }

  lemma AcceptKeeps(s: State, i: nat, j: nat)
    requires Inv(s) && Enabled(s, Accept(i, j))
    ensures Inv(Apply(s, Accept(i, j))) && j < i
  {
    AcceptMoves(s, i, j);
    AcceptQueues(s, i, j);
    var t, n := Apply(s, Accept(i, j)), |s.nodes|;
    hide PairStage, LowerAccepted, QueuesOk;
    forall k | 0 <= k < n ensures NodeOk(t, k) && FdsOk(t, k) {
      assert NodeOk(s, k) && FdsOk(s, k);
      if k == i {
        LowerMore(s, t, j, i);
      } else {
        LowerSame(s, t, j, i, Acked, k);
      }
    }
  }

  lemma StepKeepsInv(s: State, step: Step)
    requires Inv(s) && Enabled(s, step)
    ensures Inv(Apply(s, step))
  {
    hide Inv;
    match step
    case Listen(i) => ListenKeeps(s, i);
    case Accept(i, j) => AcceptKeeps(s, i, j);
    case Connect(i) => ConnectKeeps(s, i);
    case ReadAck(i) => ReadAckKeeps(s, i);
  }

  // ----- Progress -----

  /** Steps node i still has to take: listen, accept each lower id, and connect to and hear from each higher one. */
  function NodeWork(s: State, i: nat): int
    requires i < |s.nodes|
  {
    var n := s.nodes[i];
    (if n.listening then 0 else 1) + (i - n.accepted) + 2 * (|s.nodes| - n.target) - (if n.waiting then 1 else 0)
  }

  function Work(s: State, k: nat): int
    requires k <= |s.nodes|
  {
    if k == 0 then 0 else Work(s, k - 1) + NodeWork(s, k - 1)
  }

  lemma {:induction false} WorkUpdate(s: State, t: State, i: nat, k: nat)
    requires k <= |s.nodes| == |t.nodes| && i < |s.nodes|
    requires forall j | 0 <= j < |s.nodes| :: NodeWork(t, j) == NodeWork(s, j) - if j == i then 1 else 0
    ensures Work(t, k) == Work(s, k) - if i < k then 1 else 0
  {
    hide NodeWork;
    if k > 0 { WorkUpdate(s, t, i, k - 1); }
  }

  function Total(s: State): int {
    Work(s, |s.nodes|)
  }

  /** Every step is one unit of work; nothing is ever redone. */
  lemma StepWorks(s: State, step: Step)
    requires Enabled(s, step)
    ensures Total(Apply(s, step)) == Total(s) - 1
  {
    var i := match step case Listen(i) => i case Accept(i, _) => i case Connect(i) => i case ReadAck(i) => i;
    WorkUpdate(s, Apply(s, step), i, |s.nodes|);
  }

  lemma {:induction false} WorkNonNegative(s: State, k: nat)
    requires Inv(s) && k <= |s.nodes|
    ensures Work(s, k) >= 0
  {
    if k > 0 {
      WorkNonNegative(s, k - 1);
      assert NodeOk(s, k - 1);
      LowerBound(s, k - 1);
    }
  }

  lemma LowerBound(s: State, j: nat)
    requires j < |s.nodes|
    ensures |LowerAccepted(s, j)| <= j
    ensures forall i: nat | i < j && PairStage(s, i, j) !in {Acked, Made} :: |LowerAccepted(s, j)| < j
    ensures (forall i: nat | i < j :: PairStage(s, i, j) == Made) ==> |LowerAccepted(s, j)| == j
  {
    hide PairStage;
    var all := Range(j);
    SubsetSize(LowerAccepted(s, j), all);
    forall i: nat | i < j && PairStage(s, i, j) !in {Acked, Made} ensures |LowerAccepted(s, j)| < j {
      SubsetSize(LowerAccepted(s, j) + {i}, all);
    }
    if forall i: nat | i < j :: PairStage(s, i, j) == Made {
      assert LowerAccepted(s, j) == all;
    }
  }

  /** The full mesh: every node has left init_cluster with a socket for every other node. */
  ghost predicate Complete(s: State) {
    forall i | 0 <= i < |s.nodes| :: Finished(s, i) && s.nodes[i].listening
      && forall k: nat :: k in s.nodes[i].fds <==> k < |s.nodes| && k != i
  }

  /** No deadlock: before the mesh is complete the least unfinished node, or the one it calls, can move. */
  lemma CanProgress(s: State, i: nat) returns (step: Step)
    requires Inv(s) && i < |s.nodes|
    requires forall j | 0 <= j < |s.nodes| :: s.nodes[j].listening
    requires !Finished(s, i) && forall j | 0 <= j < i :: Finished(s, j)
    ensures Enabled(s, step)
  {
    assert NodeOk(s, i);
    forall j: nat | j < i ensures PairStage(s, j, i) == Made { assert Finished(s, j); }
    LowerBound(s, i);
    var t := s.nodes[i].target;
    LowerBound(s, t);
    assert NodeOk(s, t);
    if !s.nodes[i].waiting {
      assert PairStage(s, i, t) == Unmade;
      step := Connect(i);
    } else if PairStage(s, i, t) == Acked {
      step := ReadAck(i);
    } else {
      assert PairStage(s, i, t) == Backlogged;
      assert s.nodes[t].accepted < t;
      step := Accept(t, i);
    }
  }

  lemma {:induction false} LeastUnfinished(s: State, k: nat) returns (i: nat)
    requires k < |s.nodes| && !Finished(s, k)
    ensures i <= k && !Finished(s, i) && forall j | 0 <= j < i :: Finished(s, j)
  {
    i := 0;
    while Finished(s, i)
      invariant i <= k && forall j | 0 <= j < i :: Finished(s, j)
      decreases k - i
    {
      i := i + 1;
    }
  }

  lemma EnabledNotComplete(s: State, step: Step)
    ensures Enabled(s, step) ==> !Complete(s)
  {
    if Enabled(s, step) {
      var i := match step case Listen(i) => i case Accept(i, _) => i case Connect(i) => i case ReadAck(i) => i;
      assert !(s.nodes[i].listening && Finished(s, i));
    }
  }

  /** A run is stuck exactly when the mesh is complete. */
  lemma StuckIffComplete(s: State)
    requires Inv(s)
    ensures (forall step :: !Enabled(s, step)) <==> Complete(s)
  {
    if Complete(s) {
      forall step ensures !Enabled(s, step) { EnabledNotComplete(s, step); }
    } else if i :| 0 <= i < |s.nodes| && !s.nodes[i].listening {
      assert Enabled(s, Listen(i));
    } else if k :| 0 <= k < |s.nodes| && !Finished(s, k) {
      var i := LeastUnfinished(s, k);
      var step := CanProgress(s, i);
    } else {
      AllFinished(s);
    }
  }

  lemma AllFinished(s: State)
    requires Inv(s) && forall i | 0 <= i < |s.nodes| :: s.nodes[i].listening && Finished(s, i)
    ensures Complete(s)
  {
    forall i | 0 <= i < |s.nodes|
      ensures forall k: nat :: k in s.nodes[i].fds <==> k < |s.nodes| && k != i
    {
      assert FdsOk(s, i);
      forall k: nat | k < i ensures PairStage(s, k, i) == Made { assert Finished(s, k); }
    }
  }

  ghost predicate IsRun(n: nat, tr: seq<State>, steps: seq<Step>) {
    && |tr| == |steps| + 1 && tr[0] == Init(n)
    && forall k | 0 <= k < |steps| :: Enabled(tr[k], steps[k]) && tr[k + 1] == Apply(tr[k], steps[k])
  }

  lemma {:induction false} RunFacts(n: nat, tr: seq<State>, steps: seq<Step>)
    requires IsRun(n, tr, steps)
    ensures forall k | 0 <= k < |tr| :: Inv(tr[k])
    ensures |tr[|steps|].nodes| == n && Total(tr[|steps|]) == Total(Init(n)) - |steps|
  {
    hide Inv, Enabled, Total, Apply, Init;
    InitInv(n);
    InitSize(n);
    for k := 0 to |steps|
      invariant forall j | 0 <= j <= k :: Inv(tr[j])
      invariant |tr[k].nodes| == n && Total(tr[k]) == Total(Init(n)) - k
    {
      StepKeepsInv(tr[k], steps[k]);
      StepWorks(tr[k], steps[k]);
      SameSize(tr[k], steps[k]);
    }
  }

  lemma InitSize(n: nat)
    ensures |Init(n).nodes| == n
  {
  }

  /** Every run keeps at most one connection per pair, lasts at most n + 3 n (n - 1) / 2 steps apart
      from connect retries, and reaches the full mesh exactly when it has taken them all. */
  lemma MeshForms(n: nat, tr: seq<State>, steps: seq<Step>)
    requires IsRun(n, tr, steps)
    ensures forall k | 0 <= k < |tr| :: Inv(tr[k])
    ensures var made := tr[|steps|].made; forall k, l | 0 <= k < l < |made| :: made[k] != made[l]
    ensures 2 * |steps| <= 2 * n + 3 * n * (n - 1)
    ensures Complete(tr[|steps|]) <==> 2 * |steps| == 2 * n + 3 * n * (n - 1)
  {
    RunFacts(n, tr, steps);
    assert QueuesOk(tr[|steps|]);
    hide IsRun, Inv, Complete, Work, Init;
    InitSize(n);
    InitialWork(n, n);
    assert 4 * n * (n - 1) - n * (n - 1) == 3 * n * (n - 1);
    WorkNonNegative(tr[|steps|], n);
    CompleteIffNoWork(tr[|steps|]);
  }

  lemma SameSize(s: State, step: Step)
    requires Enabled(s, step)
    ensures |Apply(s, step).nodes| == |s.nodes|
  {
  }

  lemma CompleteIffNoWork(s: State)
    requires Inv(s)
    ensures Complete(s) <==> Total(s) == 0
  {
    if Total(s) == 0 {
      NoWork(s, |s.nodes|);
      AllFinished(s);
    } else if Complete(s) {
      forall i | 0 <= i < |s.nodes| ensures NodeWork(s, i) == 0 { assert Finished(s, i); assert NodeOk(s, i); }
      ZeroWork(s, |s.nodes|);
    }
  }

  lemma {:induction false} ZeroWork(s: State, k: nat)
    requires k <= |s.nodes| && forall i | 0 <= i < k :: NodeWork(s, i) == 0
    ensures Work(s, k) == 0
  {
    if k > 0 { ZeroWork(s, k - 1); }
  }

  lemma {:induction false} NoWork(s: State, k: nat)
    requires Inv(s) && k <= |s.nodes| && Work(s, k) == 0
    ensures forall i | 0 <= i < k :: s.nodes[i].listening && Finished(s, i)
  {
    if k > 0 {
      WorkNonNegative(s, k - 1);
      assert NodeOk(s, k - 1);
      LowerBound(s, k - 1);
      NoWork(s, k - 1);
    }
  }

  lemma {:induction false} InitialWork(n: nat, k: nat)
    requires k <= n
    ensures k <= |Init(n).nodes| && 2 * Work(Init(n), k) == 2 * k + 4 * k * (n - 1) - k * (k - 1)
  {
    hide NodeWork, Init;
    InitSize(n);
    if k > 0 {
      InitialWork(n, k - 1);
      InitialNodeWork(n, k - 1);
      SumStep(n, k);
    }
  }

  lemma InitialNodeWork(n: nat, i: nat)
    requires i < n
    ensures |Init(n).nodes| == n && NodeWork(Init(n), i) == 1 + i + 2 * (n - i - 1)
  {
  }

  lemma SumStep(n: nat, k: nat)
    requires k > 0
    ensures 2 * k + 4 * k * (n - 1) - k * (k - 1)
         == 2 * (k - 1) + 4 * (k - 1) * (n - 1) - (k - 1) * (k - 2) + 2 * (1 + (k - 1) + 2 * (n - k))
  {
    assert 4 * k * (n - 1) == 4 * (k - 1) * (n - 1) + 4 * (n - 1);
    assert k * (k - 1) == (k - 1) * (k - 2) + 2 * (k - 1);
  }
}
