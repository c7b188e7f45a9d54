/**
 Runs that break election safety, the order of logs, and the election restriction, and the exact conditions these
 runs leave.
 */
module ElectionWitnesses {
  import opened FiniteSets
  import opened RaftCore
  import opened Bytes
  import opened Election
  import opened ElectionHistory
  import opened ElectionRoles

  // ----- Raising every node to a new term -----

  /** A peer in term T that has bound itself to nobody, so that its grant carries term T. */
  predicate Willing(n: Node, T: nat) {
    n.log == [] && n.term == T && n.votedFor == 0
  }

  /** A fresh candidate of term T. */
  predicate Stands(s: State, c: nat, T: nat)
    requires c in s.nodes
  {
    var n := s.nodes[c];
    && n.role == Candidate && n.term == T && n.votes == 1 && n.log == []
    && Ballot(T, c) in s.requests && s.requests[Ballot(T, c)] == LogPos(0, 0)
  }

  /** No ballot beyond these terms has been asked for or voted on. */
  ghost predicate Capped(s: State, asked: nat, voted: nat) {
    && (forall w | w in s.asked :: w.ballot.term <= asked)
    && (forall w | w in s.votes :: w.ballot.term <= voted)
  }

  /** All nodes are in term L with empty logs. */
  ghost predicate Level(cfg: Config, s: State, L: nat) {
    && s.nodes.Keys == cfg.ids && Capped(s, L, L)
    && forall i | i in cfg.ids :: s.nodes[i].log == [] && s.nodes[i].term == L
  }

  /** All but todo are two terms further, those in S as candidates and the others willing. */
  ghost predicate Raised(cfg: Config, s: State, L: nat, S: set<nat>, todo: set<nat>) {
    && s.nodes.Keys == cfg.ids && Capped(s, L, L + 2)
    && forall i | i in cfg.ids ::
         if i in todo then s.nodes[i].log == [] && s.nodes[i].term == L
         else if i in S then Stands(s, i, L + 2)
         else Willing(s.nodes[i], L + 2)
  }

  ghost predicate SameWins(s: State, t: State) {
    t.wins == s.wins && t.leaders == s.leaders
  }

  lemma RaiseCandidate(cfg: Config, tr: seq<State>, L: nat, S: set<nat>, todo: set<nat>, v: nat)
      returns (tr': seq<State>)
    requires IsRun(cfg, tr) && Raised(cfg, Last(tr), L, S, todo) && v in todo && v in cfg.ids && v in S
    ensures IsRun(cfg, tr') && tr' != [] && Raised(cfg, Last(tr'), L, S, todo - {v}) && SameWins(Last(tr), Last(tr'))
  {
    hide IsRun;
    tr' := Extend(cfg, tr, Campaign(v, false));
    tr' := Extend(cfg, tr', Campaign(v, false));
  }

  lemma RaisePeer(cfg: Config, tr: seq<State>, L: nat, S: set<nat>, todo: set<nat>, v: nat, c: nat)
      returns (tr': seq<State>)
    requires IsRun(cfg, tr) && Raised(cfg, Last(tr), L, S, todo) && v in todo && v in cfg.ids && v !in S
    requires c in S && c in cfg.ids && c !in todo
    ensures IsRun(cfg, tr') && tr' != [] && Raised(cfg, Last(tr'), L, S, todo - {v}) && SameWins(Last(tr), Last(tr'))
  {
    hide IsRun;
    tr' := Extend(cfg, tr, Campaign(v, false));
    assert Last(tr').nodes[c].term >= L + 2;
    tr' := Extend(cfg, tr', StepDown(v, L + 2));
  }

  /** A candidate campaigns twice; any other node campaigns once and steps down on hearing of the later term. */
  lemma {:induction false} RaiseRest(cfg: Config, tr: seq<State>, L: nat, S: set<nat>, todo: set<nat>, c: nat)
      returns (tr': seq<State>)
    requires IsRun(cfg, tr) && Raised(cfg, Last(tr), L, S, todo) && todo <= cfg.ids
    requires c in S && c in cfg.ids && c !in todo
    ensures IsRun(cfg, tr') && tr' != [] && Raised(cfg, Last(tr'), L, S, {}) && SameWins(Last(tr), Last(tr'))
    decreases |todo|
  {
    hide IsRun, Raised;
    tr' := tr;
    if todo != {} {
      var v :| v in todo;
      if v in S {
        tr' := RaiseCandidate(cfg, tr, L, S, todo, v);
      } else {
        tr' := RaisePeer(cfg, tr, L, S, todo, v, c);
      }
      tr' := RaiseRest(cfg, tr', L, S, todo - {v}, c);
    } else {
      NotEmpty(cfg, tr);
    }
  }

  lemma NotEmpty(cfg: Config, tr: seq<State>)
    requires IsRun(cfg, tr)
    ensures tr != []
  {
    hide Next;
  }

  lemma Raise(cfg: Config, tr: seq<State>, L: nat, S: set<nat>, c: nat) returns (tr': seq<State>)
    requires IsRun(cfg, tr) && Level(cfg, Last(tr), L) && c in S && S <= cfg.ids
    ensures IsRun(cfg, tr') && tr' != [] && Raised(cfg, Last(tr'), L, S, {}) && SameWins(Last(tr), Last(tr'))
  {
    hide IsRun, Raised;
    NotEmpty(cfg, tr);
    LevelIsRaised(cfg, Last(tr), L, S);
    tr' := RaiseCandidate(cfg, tr, L, S, cfg.ids, c);
    tr' := RaiseRest(cfg, tr', L, S, cfg.ids - {c}, c);
  }

  lemma LevelIsRaised(cfg: Config, s: State, L: nat, S: set<nat>)
    requires Level(cfg, s, L)
    ensures Raised(cfg, s, L, S, cfg.ids)
  {
  }

  // ----- Gathering a quorum -----

  /** Exactly the voters W still missing to a quorum are willing. */
  ghost predicate Canvass(cfg: Config, s: State, T: nat, c: nat, W: set<nat>) {
    && s.nodes.Keys == cfg.ids && c in cfg.ids && W <= cfg.ids - {c}
    && Ballot(T, c) in s.requests && s.requests[Ballot(T, c)] == LogPos(0, 0)
    && s.nodes[c].role == Candidate && s.nodes[c].term == T && s.nodes[c].log == []
    && s.nodes[c].votes == Quorum(cfg) - |W| && s.nodes[c].votes >= 1
    && (forall v | v in W :: Vote(Ballot(T, c), v) !in s.asked && Willing(s.nodes[v], T))
  }

  /** Nothing but W, the candidate and its own ballot changed. */
  ghost predicate OnlyCanvassed(s: State, t: State, T: nat, c: nat, W: set<nat>) {
    && t.leaders == s.leaders && s.wins <= t.wins && t.requests == s.requests && t.nodes.Keys == s.nodes.Keys
    && (forall w | w in t.asked :: w in s.asked || w.ballot == Ballot(T, c))
    && (forall w | w in t.votes :: w in s.votes || w.ballot == Ballot(T, c))
    && (forall i | i in s.nodes && i != c && i !in W :: t.nodes[i] == s.nodes[i])
    && (forall v | v in W && v in t.nodes :: t.nodes[v].log == [] && t.nodes[v].term == T && t.nodes[v].votedFor == c)
    && (c in t.nodes ==> t.nodes[c].role == Candidate && t.nodes[c].term == T && t.nodes[c].log == [])
  }

  lemma OneMoreVote(cfg: Config, s: State, T: nat, c: nat, W: set<nat>, v: nat)
    requires Canvass(cfg, s, T, c, W) && v in W
    ensures var b := Ballot(T, c); var t := ApplyRequest(s, b, v);
      && Vote(b, v) in t.replies
      && var u := ApplyReply(cfg, t, Vote(b, v));
         && OnlyCanvassed(s, u, T, c, {v})
         && (W == {v} ==> b in u.wins)
         && (W != {v} ==> Canvass(cfg, u, T, c, W - {v}))
  {
    var b := Ballot(T, c);
    var t := ApplyRequest(s, b, v);
    assert t.replies[Vote(b, v)].granted;
    if W != {v} {
      assert |W - {v}| == |W| - 1;
      assert W - {v} != {};
    } else {
      assert |W| == 1;
    }
  }

  lemma {:induction false} Gather(cfg: Config, tr: seq<State>, T: nat, c: nat, W: set<nat>) returns (tr': seq<State>)
    requires IsRun(cfg, tr) && W != {} && Canvass(cfg, Last(tr), T, c, W)
    ensures IsRun(cfg, tr') && tr' != [] && Ballot(T, c) in Last(tr').wins
    ensures OnlyCanvassed(Last(tr), Last(tr'), T, c, W)
    decreases |W|
  {
    var b, s := Ballot(T, c), Last(tr);
    hide IsRun, ApplyRequest, ApplyReply, Willing, OnlyCanvassed;
    KeysKept(cfg, s, T, c, W);
    var v :| v in W;
    OneMoreVote(cfg, s, T, c, W, v);
    var mid := Extend(cfg, tr, DeliverRequest(b, v));
    tr' := Extend(cfg, mid, DeliverReply(Vote(b, v)));
    if W != {v} {
      var u := Last(tr');
      tr' := Gather(cfg, tr', T, c, W - {v});
      CanvassedOn(s, u, Last(tr'), T, c, v, W);
    }
  }

  lemma KeysKept(cfg: Config, s: State, T: nat, c: nat, W: set<nat>)
    requires Canvass(cfg, s, T, c, W)
    ensures s.nodes.Keys == cfg.ids && Ballot(T, c) in s.requests && c in cfg.ids && W <= cfg.ids - {c}
    ensures forall v | v in W :: Vote(Ballot(T, c), v) !in s.asked
  {
    hide Willing;
  }

  lemma CanvassedOn(s: State, t: State, u: State, T: nat, c: nat, v: nat, W: set<nat>)
    requires v in W && c !in W && OnlyCanvassed(s, t, T, c, {v}) && OnlyCanvassed(t, u, T, c, W - {v})
    ensures OnlyCanvassed(s, u, T, c, W)
  {
  }

  predicate Standing(s: State, role: Role, c: nat, T: nat) {
    c in s.nodes && s.nodes[c].role == role && s.nodes[c].term == T
  }

  /** One candidate of a raised cluster wins; its caller has not made it leader yet. */
  lemma Win(cfg: Config, tr: seq<State>, L: nat, c: nat, W: set<nat>) returns (tr': seq<State>)
    requires IsRun(cfg, tr) && Raised(cfg, Last(tr), L, {c}, {}) && c in cfg.ids
    requires W <= cfg.ids - {c} && |W| == Quorum(cfg) - 1
    ensures IsRun(cfg, tr') && tr' != [] && Level(cfg, Last(tr'), L + 2) && Ballot(L + 2, c) in Last(tr').wins
    ensures Last(tr).wins <= Last(tr').wins && Last(tr').leaders == Last(tr).leaders
    ensures Standing(Last(tr'), Candidate, c, L + 2)
  {
    hide IsRun;
    tr' := Gather(cfg, tr, L + 2, c, W);
  }

  /** The caller's second call. */
  lemma TakeLead(cfg: Config, tr: seq<State>, b: Ballot) returns (tr': seq<State>)
    requires IsRun(cfg, tr) && Last(tr).nodes.Keys == cfg.ids && b in Last(tr).wins && b.cand in cfg.ids
    requires var n := Last(tr).nodes[b.cand]; !cfg.guarded || (n.role == Candidate && n.term == b.term)
    ensures IsRun(cfg, tr') && tr' != []
    ensures var s, t := Last(tr), Last(tr');
      && t.nodes.Keys == cfg.ids && t.leaders == s.leaders + {Ballot(s.nodes[b.cand].term, b.cand)}
      && t.wins == s.wins - multiset{b} && t.votes == s.votes
      && (forall i | i in cfg.ids && i != b.cand :: t.nodes[i] == s.nodes[i])
      && t.nodes[b.cand].term == s.nodes[b.cand].term && t.nodes[b.cand].log == s.nodes[b.cand].log
      && t.nodes[b.cand].role == Leader
  {
    hide IsRun;
    tr' := Extend(cfg, tr, Lead(b));
  }

  lemma Start(cfg: Config)
    ensures IsRun(cfg, [Init(cfg)]) && Level(cfg, Init(cfg), 0) && Init(cfg).leaders == {}
  {
  }

  lemma {:induction false} Choose(s: set<nat>, k: nat) returns (t: set<nat>)
    requires k <= |s|
    ensures t <= s && |t| == k
  {
    t := {};
    if k > 0 {
      var x :| x in s;
      t := Choose(s - {x}, k - 1);
      t := t + {x};
    }
  }

  lemma Another(ids: set<nat>, a: nat) returns (b: nat)
    requires a in ids && |ids| >= 2
    ensures b in ids && b != a && |ids - {a, b}| == |ids| - 2
  {
    assert |ids - {a}| == |ids| - 1;
    b :| b in ids - {a};
    assert ids - {a, b} == ids - {a} - {b};
  }

  /** In a level cluster with enough nodes any node can win the term after next. */
  lemma WinTerm(cfg: Config, tr: seq<State>, L: nat, c: nat) returns (tr': seq<State>)
    requires IsRun(cfg, tr) && Level(cfg, Last(tr), L) && c in cfg.ids && |cfg.ids| >= Quorum(cfg)
    ensures IsRun(cfg, tr') && tr' != [] && Level(cfg, Last(tr'), L + 2)
    ensures Last(tr').leaders == Last(tr).leaders && Last(tr).wins <= Last(tr').wins
    ensures Ballot(L + 2, c) in Last(tr').wins && Standing(Last(tr'), Candidate, c, L + 2)
  {
    hide IsRun, Level, Raised;
    tr' := Raise(cfg, tr, L, {c}, c);
    assert |cfg.ids - {c}| == |cfg.ids| - 1;
    var W := Choose(cfg.ids - {c}, Quorum(cfg) - 1);
    tr' := Win(cfg, tr', L, c, W);
  }

  lemma LevelFacts(cfg: Config, s: State, L: nat)
    requires Level(cfg, s, L)
    ensures s.nodes.Keys == cfg.ids
    ensures forall i | i in cfg.ids :: s.nodes[i].log == [] && s.nodes[i].term == L
    ensures forall w | w in s.votes :: w.ballot.term <= L
  {
  }

  // ----- Two leaders in one term -----

  lemma FirstCanvass(cfg: Config, s: State, S: set<nat>, a: nat, A: set<nat>)
    requires Raised(cfg, s, 0, S, {}) && a in S && a in cfg.ids && A <= cfg.ids - S && |A| == Quorum(cfg) - 1
    ensures Canvass(cfg, s, 2, a, A)
  {
  }

  /** The second canvass finds its voters willing: untouched by the first, or bound to candidate 0. */
  lemma SecondCanvass(cfg: Config, s: State, t: State, a: nat, b: nat, A: set<nat>, B: set<nat>)
    requires Raised(cfg, s, 0, {a, b}, {}) && OnlyCanvassed(s, t, 2, a, A)
    requires a in cfg.ids && b in cfg.ids && a != b && A <= cfg.ids - {a, b} && B <= cfg.ids - {a, b}
    requires |A| == |B| == Quorum(cfg) - 1 && (a == 0 || A !! B)
    ensures Canvass(cfg, t, 2, b, B)
  {
  }

  lemma BothWon(s: State, t: State, u: State, a: nat, b: nat, A: set<nat>, B: set<nat>)
    requires OnlyCanvassed(s, t, 2, a, A) && OnlyCanvassed(t, u, 2, b, B)
    requires a in s.nodes && b in s.nodes && a != b && a !in B && Ballot(2, a) in t.wins && Ballot(2, b) in u.wins
    ensures u.nodes.Keys == s.nodes.Keys && Ballot(2, a) in u.wins
    ensures Standing(u, Candidate, a, 2) && Standing(u, Candidate, b, 2)
  {
  }

  /** Two candidates of one term, each with a quorum: disjoint ones, or shared behind candidate 0. */
  lemma TwoLeaders(cfg: Config, a: nat, b: nat, A: set<nat>, B: set<nat>) returns (tr: seq<State>)
    requires a in cfg.ids && b in cfg.ids && a != b && A <= cfg.ids - {a, b} && B <= cfg.ids - {a, b}
    requires |A| == |B| == Quorum(cfg) - 1 && (a == 0 || A !! B)
    ensures IsRun(cfg, tr) && tr != [] && !OneLeaderPerTerm(Last(tr)) && !OneLeaderNow(Last(tr))
  {
    hide IsRun, Init, Level, Raised, Canvass, OnlyCanvassed;
    Start(cfg);
    tr := Raise(cfg, [Init(cfg)], 0, {a, b}, a);
    var s := Last(tr);
    RaisedKeys(cfg, s, 0, {a, b});
    FirstCanvass(cfg, s, {a, b}, a, A);
    tr := Gather(cfg, tr, 2, a, A);
    var t := Last(tr);
    SecondCanvass(cfg, s, t, a, b, A, B);
    tr := Gather(cfg, tr, 2, b, B);
    BothWon(s, t, Last(tr), a, b, A, B);
    tr := TakeLead(cfg, tr, Ballot(2, a));
    tr := TakeLead(cfg, tr, Ballot(2, b));
    assert Ballot(2, a) in Last(tr).leaders && Ballot(2, b) in Last(tr).leaders;
  }

  lemma RaisedKeys(cfg: Config, s: State, L: nat, S: set<nat>)
    requires Raised(cfg, s, L, S, {})
    ensures s.nodes.Keys == cfg.ids
  {
  }

  /** Every cluster that is not sound has a run with two leaders in one term, whichever way replies are counted and
      whether or not becoming leader is guarded. */
  lemma UnsoundIsUnsafe(cfg: Config)
    requires !Sound(cfg)
    ensures !ElectionSafe(cfg) && !RolesSafe(cfg)
  {
    var q := Quorum(cfg);
    var a, b, A, B;
    if |cfg.ids| >= 2 * q {
      a :| a in cfg.ids;
      b := Another(cfg.ids, a);
      A := Choose(cfg.ids - {a, b}, q - 1);
      B := Choose(cfg.ids - {a, b} - A, q - 1);
    } else {
      a := 0;
      b := Another(cfg.ids, a);
      A := Choose(cfg.ids - {a, b}, q - 1);
      B := A;
    }
    var tr := TwoLeaders(cfg, a, b, A, B);
  }

  /** Node c wins term 2, but before its caller makes it leader the cluster moves on and d wins term 4: then c becomes
      leader of term 4 too. */
  lemma LateLeader(cfg: Config, c: nat, d: nat) returns (tr: seq<State>)
    requires !cfg.guarded && |cfg.ids| >= Quorum(cfg) && c in cfg.ids && d in cfg.ids && c != d
    ensures IsRun(cfg, tr) && tr != [] && Ballot(4, c) in Last(tr).leaders && Ballot(4, d) in Last(tr).leaders
    ensures Standing(Last(tr), Leader, c, 4) && Standing(Last(tr), Leader, d, 4)
  {
    hide IsRun, Init, Level;
    Start(cfg);
    tr := WinTerm(cfg, [Init(cfg)], 0, c);
    tr := WinTerm(cfg, tr, 2, d);
    LevelFacts(cfg, Last(tr), 4);
    tr := TakeLead(cfg, tr, Ballot(4, d));
    tr := TakeLead(cfg, tr, Ballot(2, c));
  }

  lemma UnguardedIsUnsafe(cfg: Config)
    requires !cfg.guarded && |cfg.ids| >= Quorum(cfg)
    ensures !ElectionSafe(cfg) && !RolesSafe(cfg)
  {
    var c :| c in cfg.ids;
    var d := Another(cfg.ids, c);
    var tr := LateLeader(cfg, c, d);
    assert !OneLeaderPerTerm(Last(tr)) && !OneLeaderNow(Last(tr));
  }

  /** At most one leader per term in every run, exactly for the sound clusters in which becoming leader is guarded or
      nobody can win, whichever way replies are counted; and exactly then no run has two nodes in the role of leader
      in one term at once. With MAX_NODES == 5 sound means at most five nodes, and none numbered 0 if there are more
      than three. */
  lemma ElectionSafetyExactly(cfg: Config)
    ensures ElectionSafe(cfg) <==> Sound(cfg) && (cfg.guarded || |cfg.ids| < Quorum(cfg))
    ensures RolesSafe(cfg) <==> ElectionSafe(cfg)
  {
    if !Sound(cfg) {
      UnsoundIsUnsafe(cfg);
    } else if cfg.guarded || |cfg.ids| < Quorum(cfg) {
      SoundIsSafe(cfg);
      SafeRoles(cfg);
    } else {
      UnguardedIsUnsafe(cfg);
    }
  }

  // ----- Stale stamps -----

  /** A worker that read an old term appends behind an entry of a later one: the node's last pair goes back. */
  lemma AppendStale(cfg: Config, tr: seq<State>, i: nat, stamp: nat) returns (tr': seq<State>)
    requires IsRun(cfg, tr) && Last(tr).nodes.Keys == cfg.ids && i in cfg.ids
    requires stamp <= Last(tr).nodes[i].term && stamp < LastPos(Last(tr).nodes[i].log).term
    ensures IsRun(cfg, tr') && !FreshStamps(tr') && !PositionsAdvance(tr') && !LogsOrdered(tr')
  {
    hide IsRun, PositionsAdvance, LogsOrdered, LastPos;
    NotEmpty(cfg, tr);
    tr' := Extend(cfg, tr, Append(i, stamp, CommandEntry, []));
    var k := |tr|;
    assert tr'[k - 1] == Last(tr) && tr'[k] == Last(tr');
    assert !Fresh(tr'[k - 1].nodes[i], tr'[k].nodes[i]);
    NodesOnlyAdvance(cfg, tr');
    LogsOrderedExactly(cfg, tr');
  }

  /** Any node can get there: two campaigns, an entry of term 2 and a worker that read term 1. */
  lemma StaleStampGoesBack(cfg: Config, i: nat) returns (tr: seq<State>)
    requires i in cfg.ids
    ensures IsRun(cfg, tr) && !FreshStamps(tr) && !PositionsAdvance(tr) && !LogsOrdered(tr)
  {
    Start(cfg);
    hide IsRun, FreshStamps, PositionsAdvance, LogsOrdered;
    tr := Extend(cfg, [Init(cfg)], Campaign(i, false));
    tr := Extend(cfg, tr, Campaign(i, false));
    tr := Extend(cfg, tr, Append(i, 2, CommandEntry, []));
    tr := AppendStale(cfg, tr, i, 1);
  }

  // ----- The election restriction -----

  lemma EmptyLogsFresh(cfg: Config, tr: seq<State>)
    requires IsRun(cfg, tr) && tr != [] && forall i | i in Last(tr).nodes :: Last(tr).nodes[i].log == []
    ensures FreshStamps(tr)
  {
    hide IsRun, LastPos, Le, Fresh;
    var last := |tr| - 1;
    NodesAt(cfg, tr, last);
    assert tr[last] == Last(tr);
    forall k, i | 0 < k < |tr| && i in tr[k - 1].nodes && i in tr[k].nodes
      ensures Fresh(tr[k - 1].nodes[i], tr[k].nodes[i])
    {
      NodesAt(cfg, tr, k);
      StillEmpty(cfg, tr, k, last, i);
      NothingAdded(tr[k - 1].nodes[i], tr[k].nodes[i]);
    }
  }

  lemma StillEmpty(cfg: Config, tr: seq<State>, k: nat, last: nat, i: nat)
    requires IsRun(cfg, tr) && k <= last < |tr| && i in cfg.ids && i in tr[last].nodes && i in tr[k].nodes
    requires tr[last].nodes[i].log == []
    ensures tr[k].nodes[i].log == []
  {
    hide *;
    Moves(cfg, tr, k, last, i);
  }

  lemma NothingAdded(n: Node, m: Node)
    requires m.log == []
    ensures Fresh(n, m)
  {
  }

  lemma {:induction false} VotesStay(cfg: Config, tr: seq<State>, k: nat, w: Vote)
    requires IsRun(cfg, tr) && k < |tr| && w in tr[k].votes
    ensures w in Last(tr).votes
    decreases |tr| - k
  {
    hide *;
    LastIs(tr);
    if k < |tr| - 1 {
      var step := StepInto(cfg, tr, k + 1);
      StepVotes(cfg, tr[k], step, w);
      Recorded(tr[k], tr[k + 1], w);
      VotesStay(cfg, tr, k + 1, w);
    }
  }

  lemma NotCast(cfg: Config, tr: seq<State>, d: nat, T: nat, k: nat, b: Ballot, v: nat)
    requires IsRun(cfg, tr) && tr != [] && forall w | w in Last(tr).votes && w.ballot.term == T :: w.voter == d
    requires b.term == T && v != d
    ensures !CastAt(tr, k, b, v)
  {
    hide IsRun;
    if CastAt(tr, k, b, v) {
      VotesStay(cfg, tr, k, Vote(b, v));
      assert false;
    }
  }

  lemma OnlyOwnVote(cfg: Config, tr: seq<State>, d: nat, T: nat)
    requires IsRun(cfg, tr) && tr != [] && forall w | w in Last(tr).votes && w.ballot.term == T :: w.voter == d
    ensures VotedAt(tr, cfg.ids - {d}, LogPos(1, 1), T)
  {
    hide IsRun, CastAt, LastPos, Le;
    forall k, b: Ballot, v | b.term == T && v != d ensures !CastAt(tr, k, b, v) {
      if k >= 0 && v >= 0 { NotCast(cfg, tr, d, T, k, b, v); }
    }
  }

  /** d campaigns in the term after a level cluster's, and c hears of it. */
  lemma Overtake(cfg: Config, tr: seq<State>, L: nat, c: nat, d: nat) returns (tr': seq<State>)
    requires IsRun(cfg, tr) && Level(cfg, Last(tr), L) && c in cfg.ids && d in cfg.ids && c != d
    ensures IsRun(cfg, tr') && tr' != [] && Last(tr').nodes.Keys == cfg.ids && Last(tr').wins == Last(tr).wins
    ensures Last(tr').nodes[c].term == L + 1 && forall i | i in cfg.ids :: Last(tr').nodes[i].log == []
    ensures forall w | w in Last(tr').votes && w.ballot.term == L + 1 :: w.voter == d
  {
    hide IsRun, Level;
    NotEmpty(cfg, tr);
    LevelFacts(cfg, Last(tr), L);
    tr' := Extend(cfg, tr, Campaign(d, false));
    assert Last(tr').nodes[d].term >= L + 1;
    tr' := Extend(cfg, tr', StepDown(c, L + 1));
  }

  /** Without the guard a node can become leader of a term in which it never asked for a vote. */
  lemma LateLeaderUnrestricted(cfg: Config, c: nat, d: nat) returns (tr: seq<State>)
    requires !cfg.guarded && |cfg.ids| >= Quorum(cfg) && c in cfg.ids && d in cfg.ids && c != d
    ensures IsRun(cfg, tr) && tr != [] && Ballot(3, c) in Last(tr).leaders
    ensures FreshStamps(tr) && VotedAt(tr, cfg.ids - {d}, LogPos(1, 1), 3) && MeetsQuorums(cfg, cfg.ids - {d})
    ensures c in Last(tr).nodes && !Le(LogPos(1, 1), LastPos(Last(tr).nodes[c].log))
  {
    hide IsRun, Init, Level, FreshStamps, VotedAt;
    Start(cfg);
    tr := WinTerm(cfg, [Init(cfg)], 0, c);
    tr := Overtake(cfg, tr, 2, c, d);
    tr := TakeLead(cfg, tr, Ballot(2, c));
    EmptyLogsFresh(cfg, tr);
    OnlyOwnVote(cfg, tr, d, 3);
  }

  /** In every run without stale stamps a leader is as up to date as any set that meets every quorum was when it voted,
      exactly if becoming leader is guarded or nobody can win. */
  lemma ElectionRestrictionExactly(cfg: Config)
    ensures LeadersRestricted(cfg) <==> cfg.guarded || |cfg.ids| < Quorum(cfg)
  {
    if cfg.guarded || |cfg.ids| < Quorum(cfg) {
      GuardedRestricts(cfg);
    } else {
      var c :| c in cfg.ids;
      var d := Another(cfg.ids, c);
      var tr := LateLeaderUnrestricted(cfg, c, d);
    }
  }
}
