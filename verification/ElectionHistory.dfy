/**
 What node logs and votes do along whole runs, and the election restriction of section 5.4.1 of the Raft paper.
 */
module ElectionHistory {
  import opened RaftCore
  import opened Bytes
  import opened Election

  // ----- Positions -----

  /** What any step does to a node: its term does not fall, and its log gets at most one entry more. */
  ghost predicate Grew(n: Node, m: Node) {
    && n.term <= m.term
    && (m.log == n.log
        || (|m.log| == |n.log| + 1 && m.log[..|n.log|] == n.log
            && m.log[|n.log|].index == |m.log| && m.log[|n.log|].term <= m.term))
  }

  /** An entry added is not stamped older than the last one. */
  ghost predicate Fresh(n: Node, m: Node) {
    |m.log| > |n.log| ==> LastPos(n.log).term <= m.log[|n.log|].term
  }

  ghost predicate FreshStamps(tr: seq<State>) {
    forall k, i | 0 < k < |tr| && i in tr[k - 1].nodes && i in tr[k].nodes :: Fresh(tr[k - 1].nodes[i], tr[k].nodes[i])
  }

  ghost predicate PositionsAdvance(tr: seq<State>) {
    forall j, k, i | 0 <= j <= k < |tr| && i in tr[j].nodes && i in tr[k].nodes ::
      Le(LastPos(tr[j].nodes[i].log), LastPos(tr[k].nodes[i].log))
  }

  ghost predicate TermsAdvance(tr: seq<State>) {
    forall j, k, i | 0 <= j <= k < |tr| && i in tr[j].nodes && i in tr[k].nodes ::
      tr[j].nodes[i].term <= tr[k].nodes[i].term
  }

  ghost predicate LogsOrdered(tr: seq<State>) {
    forall k, i | 0 <= k < |tr| && i in tr[k].nodes :: GoodLog(tr[k].nodes[i])
  }

  lemma GrewOrder(n: Node, m: Node)
    requires Grew(n, m)
    ensures Le(LastPos(n.log), LastPos(m.log)) <==> Fresh(n, m)
  {
  }

  lemma GrewGood(n: Node, m: Node)
    requires Grew(n, m) && GoodLog(n)
    ensures GoodLog(m) <==> Fresh(n, m)
  {
    if m.log != n.log {
      var e := |n.log|;
      assert forall k | 0 <= k < e :: m.log[k] == m.log[..e][k] == n.log[k];
      if GoodLog(m) && e > 0 {
        assert m.log[e - 1].term <= m.log[e].term;
      }
    }
  }

  lemma AppendGrows(n: Node, stamp: nat, kind: EntryKind, data: seq<byte>)
    requires stamp <= n.term
    ensures Grew(n, AppendEntry(n, stamp, kind, data))
  {
  }

  lemma RequestGrows(n: Node, r: VoteRequest)
    ensures Grew(n, HandleRequestVote(n, r).0)
  {
    GrantMeaning(n, r);
  }

  lemma RecordGrows(n: Node, maxNodes: nat)
    ensures Grew(n, RecordVote(n, maxNodes).0)
  {
  }

  lemma CampaignGrows(s: State, j: nat, clear: bool, i: nat)
    requires j in s.nodes && i in s.nodes
    ensures var t := ApplyCampaign(s, j, clear); i in t.nodes && Grew(s.nodes[i], t.nodes[i])
  {
    hide LastPos;
  }

  lemma VoteGrows(s: State, b: Ballot, v: nat, i: nat)
    requires b in s.requests && v in s.nodes && i in s.nodes
    ensures var t := ApplyRequest(s, b, v); i in t.nodes && Grew(s.nodes[i], t.nodes[i])
  {
    RequestGrows(s.nodes[v], VoteRequest(b.term, b.cand, s.requests[b]));
    hide LastPos, HandleRequestVote;
  }

  lemma ReplyGrows(cfg: Config, s: State, w: Vote, i: nat)
    requires w in s.replies && w.ballot.cand in s.nodes && i in s.nodes
    ensures var t := ApplyReply(cfg, s, w); i in t.nodes && Grew(s.nodes[i], t.nodes[i])
  {
    RecordGrows(s.nodes[w.ballot.cand], cfg.maxNodes);
    hide RecordVote, Counts;
  }

  lemma LeadGrows(cfg: Config, s: State, b: Ballot, i: nat)
    requires b in s.wins && b.cand in s.nodes && i in s.nodes
    ensures var t := ApplyLead(cfg, s, b); i in t.nodes && Grew(s.nodes[i], t.nodes[i])
  {
  }

  lemma StepGrows(cfg: Config, s: State, step: Step, i: nat)
    requires s.nodes.Keys == cfg.ids && Enabled(cfg, s, step) && i in cfg.ids
    ensures var t := Apply(cfg, s, step); i in t.nodes && Grew(s.nodes[i], t.nodes[i])
  {
    hide LastPos, ApplyCampaign, ApplyRequest, ApplyReply, ApplyLead, AppendEntry, Reached;
    match step
    case Campaign(j, clear) => CampaignGrows(s, j, clear, i);
    case DeliverRequest(b, v) => VoteGrows(s, b, v, i);
    case DeliverReply(w) => ReplyGrows(cfg, s, w, i);
    case Lead(b) => LeadGrows(cfg, s, b, i);
    case DeliverAppend(_, _) =>
    case StepDown(_, _) =>
    case Append(j, stamp, kind, data) => AppendGrows(s.nodes[j], stamp, kind, data);
  }

  lemma NodesAt(cfg: Config, tr: seq<State>, k: nat)
    requires IsRun(cfg, tr) && k < |tr|
    ensures tr[k].nodes.Keys == cfg.ids
  {
    RunInv(cfg, tr);
    NodesGood(cfg, tr[k]);
  }

  lemma StepInto(cfg: Config, tr: seq<State>, k: nat) returns (step: Step)
    requires IsRun(cfg, tr) && 0 < k < |tr|
    ensures Inv(cfg, tr[k - 1]) && tr[k - 1].nodes.Keys == cfg.ids
    ensures Enabled(cfg, tr[k - 1], step) && tr[k] == Apply(cfg, tr[k - 1], step)
  {
    RunInv(cfg, tr);
    hide Apply, Enabled, Inv, Init;
    assert Next(cfg, tr[k - 1], tr[k]);
    step :| Enabled(cfg, tr[k - 1], step) && tr[k] == Apply(cfg, tr[k - 1], step);
  }

  lemma GrewInto(cfg: Config, tr: seq<State>, k: nat, i: nat)
    requires IsRun(cfg, tr) && 0 < k < |tr| && i in cfg.ids
    ensures i in tr[k - 1].nodes && i in tr[k].nodes && Grew(tr[k - 1].nodes[i], tr[k].nodes[i])
  {
    hide *;
    var step := StepInto(cfg, tr, k);
    StepGrows(cfg, tr[k - 1], step, i);
  }

  lemma {:induction false} Moves(cfg: Config, tr: seq<State>, j: nat, k: nat, i: nat)
    requires IsRun(cfg, tr) && j <= k < |tr| && i in cfg.ids
    ensures i in tr[j].nodes && i in tr[k].nodes
    ensures tr[j].nodes[i].term <= tr[k].nodes[i].term && |tr[j].nodes[i].log| <= |tr[k].nodes[i].log|
    ensures FreshStamps(tr) ==> Le(LastPos(tr[j].nodes[i].log), LastPos(tr[k].nodes[i].log))
    decreases k - j
  {
    hide IsRun, LastPos, Fresh;
    NodesAt(cfg, tr, j);
    if j == k {
      LeReflexive(LastPos(tr[j].nodes[i].log));
    } else {
      Moves(cfg, tr, j, k - 1, i);
      GrewInto(cfg, tr, k, i);
      GrewOrder(tr[k - 1].nodes[i], tr[k].nodes[i]);
    }
  }

  lemma LeReflexive(p: LogPos)
    ensures Le(p, p)
  {
  }

  /** Terms never go back along a run. The last (term, index) pairs of its nodes never do exactly when no entry is
      stamped older than the one before it. */
  lemma NodesOnlyAdvance(cfg: Config, tr: seq<State>)
    requires IsRun(cfg, tr)
    ensures TermsAdvance(tr) && (PositionsAdvance(tr) <==> FreshStamps(tr))
  {
    hide IsRun, LastPos, Le, Fresh;
    forall j, k, i | 0 <= j <= k < |tr| && i in tr[j].nodes && i in tr[k].nodes
      ensures tr[j].nodes[i].term <= tr[k].nodes[i].term
      ensures FreshStamps(tr) ==> Le(LastPos(tr[j].nodes[i].log), LastPos(tr[k].nodes[i].log))
    {
      NodesAt(cfg, tr, j);
      Moves(cfg, tr, j, k, i);
    }
    if PositionsAdvance(tr) {
      forall k, i | 0 < k < |tr| && i in tr[k - 1].nodes && i in tr[k].nodes
        ensures Fresh(tr[k - 1].nodes[i], tr[k].nodes[i])
      {
        NodesAt(cfg, tr, k);
        GrewInto(cfg, tr, k, i);
        GrewOrder(tr[k - 1].nodes[i], tr[k].nodes[i]);
      }
    }
  }

  /** And exactly then every log of the run keeps its terms nondecreasing. */
  lemma LogsOrderedExactly(cfg: Config, tr: seq<State>)
    requires IsRun(cfg, tr)
    ensures LogsOrdered(tr) <==> FreshStamps(tr)
  {
    if LogsOrdered(tr) {
      hide IsRun, GoodLog, Fresh;
      forall k, i | 0 < k < |tr| && i in tr[k - 1].nodes && i in tr[k].nodes
        ensures Fresh(tr[k - 1].nodes[i], tr[k].nodes[i])
      {
        NodesAt(cfg, tr, k);
        GrewInto(cfg, tr, k, i);
        GrewGood(tr[k - 1].nodes[i], tr[k].nodes[i]);
      }
    }
    if FreshStamps(tr) {
      OrderedUpTo(cfg, tr);
    }
  }

  lemma OrderedUpTo(cfg: Config, tr: seq<State>)
    requires IsRun(cfg, tr) && FreshStamps(tr)
    ensures LogsOrdered(tr)
  {
    FirstOrdered(cfg, tr);
    hide IsRun, GoodLog, Fresh;
    for n := 1 to |tr|
      invariant forall k, i | 0 <= k < n && i in tr[k].nodes :: GoodLog(tr[k].nodes[i])
    {
      forall i | i in tr[n].nodes ensures GoodLog(tr[n].nodes[i]) {
        NodesAt(cfg, tr, n);
        GrewInto(cfg, tr, n, i);
        GrewGood(tr[n - 1].nodes[i], tr[n].nodes[i]);
      }
    }
  }

  lemma FirstOrdered(cfg: Config, tr: seq<State>)
    requires IsRun(cfg, tr)
    ensures tr != [] && forall i | i in tr[0].nodes :: GoodLog(tr[0].nodes[i])
  {
    hide Next;
  }

  // ----- Votes -----

  /** v cast its vote for b in the step that led to tr[k]. */
  ghost predicate CastAt(tr: seq<State>, k: nat, b: Ballot, v: nat) {
    0 < k < |tr| && Vote(b, v) in tr[k].votes && Vote(b, v) !in tr[k - 1].votes
  }

  /** Every vote in the history was cast at some step, and recorded the voter's position then. */
  lemma {:induction false} VoteWasCast(cfg: Config, tr: seq<State>, w: Vote) returns (k: nat)
    requires IsRun(cfg, tr) && w in Last(tr).votes
    ensures CastAt(tr, k, w.ballot, w.voter) && w.voter in tr[k - 1].nodes
    ensures Last(tr).votes[w] == LastPos(tr[k - 1].nodes[w.voter].log)
    decreases |tr|
  {
    hide *;
    NoVoteAtFirst(cfg, tr, w);
    var n := |tr| - 1;
    var step := StepInto(cfg, tr, n);
    StepVotes(cfg, tr[n - 1], step, w);
    Recorded(tr[n - 1], tr[n], w);
    if w in tr[n - 1].votes {
      PrefixRun(cfg, tr);
      assert tr[..n][|tr[..n]| - 1] == tr[n - 1];
      LastIs(tr[..n]);
      k := VoteWasCast(cfg, tr[..n], w);
      CastInPrefix(tr, n, k, w.ballot, w.voter);
    } else {
      k := n;
      CastIs(tr, k, w.ballot, w.voter);
    }
  }

  lemma NoVoteAtFirst(cfg: Config, tr: seq<State>, w: Vote)
    requires IsRun(cfg, tr) && w in Last(tr).votes
    ensures |tr| > 1 && Last(tr) == tr[|tr| - 1]
  {
    hide Next;
  }

  lemma LastIs(tr: seq<State>)
    requires tr != []
    ensures Last(tr) == tr[|tr| - 1]
  {
  }

  lemma Recorded(s: State, t: State, w: Vote)
    requires VotesRecorded(s, t, w)
    ensures w in s.votes ==> w in t.votes && t.votes[w] == s.votes[w]
    ensures w in t.votes && w !in s.votes ==> w.voter in s.nodes && t.votes[w] == LastPos(s.nodes[w.voter].log)
  {
    hide LastPos;
  }

  lemma CastIs(tr: seq<State>, k: nat, b: Ballot, v: nat)
    ensures CastAt(tr, k, b, v) <==>
            0 < k < |tr| && Vote(b, v) in tr[k].votes && Vote(b, v) !in tr[k - 1].votes
  {
  }

  lemma CastInPrefix(tr: seq<State>, n: nat, k: nat, b: Ballot, v: nat)
    requires n < |tr| && CastAt(tr[..n], k, b, v)
    ensures 0 < k < n && CastAt(tr, k, b, v) && tr[..n][k - 1] == tr[k - 1]
  {
  }

  lemma PrefixRun(cfg: Config, tr: seq<State>)
    requires IsRun(cfg, tr) && |tr| > 1
    ensures IsRun(cfg, tr[..|tr| - 1])
  {
    hide Next, Init;
    var p := tr[..|tr| - 1];
    assert forall k | 0 < k < |p| :: Next(cfg, p[k - 1], p[k]) by {
      assert forall k | 0 <= k < |p| :: p[k] == tr[k];
    }
  }

  ghost predicate VotesRecorded(s: State, t: State, w: Vote) {
    && (w in s.votes ==> w in t.votes && t.votes[w] == s.votes[w])
    && (w in t.votes && w !in s.votes ==> w.voter in s.nodes && t.votes[w] == LastPos(s.nodes[w.voter].log))
  }

  lemma CampaignRecords(s: State, i: nat, clear: bool, w: Vote)
    requires i in s.nodes && Vote(Ballot(s.nodes[i].term + 1, i), i) !in s.votes
    ensures VotesRecorded(s, ApplyCampaign(s, i, clear), w)
  {
    hide LastPos;
  }

  lemma RequestRecords(s: State, b: Ballot, v: nat, w: Vote)
    requires b in s.requests && v in s.nodes && Vote(b, v) !in s.votes
    ensures VotesRecorded(s, ApplyRequest(s, b, v), w)
  {
    hide LastPos, HandleRequestVote;
  }

  lemma StepVotes(cfg: Config, s: State, step: Step, w: Vote)
    requires Inv(cfg, s) && s.nodes.Keys == cfg.ids && Enabled(cfg, s, step)
    ensures VotesRecorded(s, Apply(cfg, s, step), w)
  {
    FreshVotes(cfg, s);
    hide Inv, ApplyCampaign, ApplyRequest, ApplyReply, ApplyLead, HandleAppendEntries, BecomeFollower, AppendEntry;
    hide LastPos, Reached, VotesRecorded;
    if step.Campaign? {
      CampaignRecords(s, step.i, step.clearLeader, w);
    } else if step.DeliverRequest? {
      RequestRecords(s, step.ballot, step.voter, w);
    } else {
      OtherSteps(cfg, s, step);
      SameVotes(s, Apply(cfg, s, step), w);
    }
  }

  lemma SameVotes(s: State, t: State, w: Vote)
    requires t.votes == s.votes
    ensures VotesRecorded(s, t, w)
  {
    hide LastPos;
  }

  /** Only campaigns and deliveries of requests add votes or requests. */
  lemma OtherSteps(cfg: Config, s: State, step: Step)
    requires s.nodes.Keys == cfg.ids && Enabled(cfg, s, step) && !step.Campaign? && !step.DeliverRequest?
    ensures var t := Apply(cfg, s, step); t.votes == s.votes && t.requests == s.requests
  {
    hide ApplyReply, ApplyLead, HandleAppendEntries, BecomeFollower, AppendEntry, Reached;
    if step.DeliverReply? {
      ReplyVotes(cfg, s, step.vote);
    } else if step.Lead? {
      LeadVotes(cfg, s, step.ballot);
    }
  }

  lemma ReplyVotes(cfg: Config, s: State, w: Vote)
    requires w in s.replies && w.ballot.cand in s.nodes
    ensures var t := ApplyReply(cfg, s, w); t.votes == s.votes && t.requests == s.requests
  {
    hide RecordVote, Counts;
  }

  lemma LeadVotes(cfg: Config, s: State, b: Ballot)
    requires b in s.wins && b.cand in s.nodes
    ensures var t := ApplyLead(cfg, s, b); t.votes == s.votes && t.requests == s.requests
  {
    hide BecomeLeader;
  }

  /** A campaign or an undelivered request concerns a vote that does not exist yet. */
  lemma FreshVotes(cfg: Config, s: State)
    requires Inv(cfg, s)
    ensures forall i | i in s.nodes :: Vote(Ballot(s.nodes[i].term + 1, i), i) !in s.votes
    ensures forall w | w in s.votes && w.voter != w.ballot.cand :: w in s.asked
  {
    hide RepliesOk, OneVote, RolesOk, WonOk, LeadersOk, Le, LastPos;
  }

  // ----- Requests -----

  ghost predicate RequestsRecorded(s: State, t: State, b: Ballot) {
    && (b in s.requests ==> b in t.requests && t.requests[b] == s.requests[b])
    && (b in t.requests && b !in s.requests ==> b.cand in s.nodes && t.requests[b] == LastPos(s.nodes[b.cand].log))
  }

  lemma CampaignRequests(s: State, i: nat, clear: bool, b: Ballot)
    requires i in s.nodes && Ballot(s.nodes[i].term + 1, i) !in s.requests
    ensures RequestsRecorded(s, ApplyCampaign(s, i, clear), b)
  {
    hide LastPos;
  }

  lemma VoteRequests(s: State, b: Ballot, v: nat)
    requires b in s.requests && v in s.nodes
    ensures ApplyRequest(s, b, v).requests == s.requests
  {
    hide LastPos, HandleRequestVote;
  }

  lemma NewBallot(cfg: Config, s: State, i: nat)
    requires Inv(cfg, s) && i in s.nodes
    ensures Ballot(s.nodes[i].term + 1, i) !in s.requests
  {
    hide NodesOk, RepliesOk, VotesOk, VotesBind, OneVote, RolesOk, WonOk, LeadersOk;
  }

  lemma StepRequests(cfg: Config, s: State, step: Step, b: Ballot)
    requires Inv(cfg, s) && s.nodes.Keys == cfg.ids && Enabled(cfg, s, step)
    ensures RequestsRecorded(s, Apply(cfg, s, step), b)
  {
    if step.Campaign? { NewBallot(cfg, s, step.i); }
    hide Inv, ApplyCampaign, ApplyRequest, ApplyReply, ApplyLead, HandleAppendEntries, BecomeFollower, AppendEntry;
    hide LastPos, Reached, RequestsRecorded;
    if step.Campaign? {
      CampaignRequests(s, step.i, step.clearLeader, b);
    } else {
      if step.DeliverRequest? {
        VoteRequests(s, step.ballot, step.voter);
      } else {
        OtherSteps(cfg, s, step);
      }
      SameRequests(s, Apply(cfg, s, step), b);
    }
  }

  lemma SameRequests(s: State, t: State, b: Ballot)
    requires t.requests == s.requests
    ensures RequestsRecorded(s, t, b)
  {
    hide LastPos;
  }

  /** Without stale stamps a candidate's log stays at or past the position it campaigned with. */
  lemma {:induction false} RequestBehind(cfg: Config, tr: seq<State>, k: nat, b: Ballot)
    requires IsRun(cfg, tr) && k < |tr| && b in tr[k].requests && FreshStamps(tr)
    ensures b.cand in tr[k].nodes && Le(tr[k].requests[b], LastPos(tr[k].nodes[b.cand].log))
    decreases k
  {
    hide *;
    RequestFrom(cfg, tr, k, b);
    if k > 0 {
      var step := StepInto(cfg, tr, k);
      StepRequests(cfg, tr[k - 1], step, b);
      RecordedRequest(tr[k - 1], tr[k], b);
      NodesAt(cfg, tr, k);
      Moves(cfg, tr, k - 1, k, b.cand);
      if b in tr[k - 1].requests {
        RequestBehind(cfg, tr, k - 1, b);
        LeTransitive(tr[k].requests[b], LastPos(tr[k - 1].nodes[b.cand].log), LastPos(tr[k].nodes[b.cand].log));
      }
    }
  }

  lemma RequestFrom(cfg: Config, tr: seq<State>, k: nat, b: Ballot)
    requires IsRun(cfg, tr) && k < |tr| && b in tr[k].requests
    ensures k > 0 && b.cand in cfg.ids
  {
    hide Inv, Next;
    RunInv(cfg, tr);
    RequestCand(cfg, tr[k], b);
  }

  lemma RequestCand(cfg: Config, s: State, b: Ballot)
    requires Inv(cfg, s) && b in s.requests
    ensures b.cand in cfg.ids
  {
    hide RepliesOk, VotesOk, VotesBind, OneVote, RolesOk, WonOk, LeadersOk;
  }

  lemma RecordedRequest(s: State, t: State, b: Ballot)
    requires RequestsRecorded(s, t, b)
    ensures b in s.requests ==> b in t.requests && t.requests[b] == s.requests[b]
    ensures b in t.requests && b !in s.requests ==>
              b.cand in s.nodes && t.requests[b] == LastPos(s.nodes[b.cand].log)
  {
    hide LastPos;
  }

  lemma LeTransitive(p: LogPos, q: LogPos, r: LogPos)
    requires Le(p, q) && Le(q, r)
    ensures Le(p, r)
  {
  }

  // ----- Section 5.4.1: the election restriction -----

  /** Every vote that members of M cast in term T was cast at position p or later. */
  ghost predicate VotedAt(tr: seq<State>, M: set<nat>, p: LogPos, T: nat) {
    forall k, b: Ballot, v | CastAt(tr, k, b, v) && b.term == T && v in M && v in tr[k - 1].nodes ::
      Le(p, LastPos(tr[k - 1].nodes[v].log))
  }

  /** M has a member in every quorum. */
  ghost predicate MeetsQuorums(cfg: Config, M: set<nat>) {
    M <= cfg.ids && |M| + Quorum(cfg) > |cfg.ids|
  }

  /** If a set that meets every quorum had reached p before voting in term T, then whoever won T campaigned at p or
      later; and its log is still there if no stamp is stale. */
  lemma WinnersReach(cfg: Config, tr: seq<State>, M: set<nat>, p: LogPos, T: nat, l: nat)
    requires IsRun(cfg, tr) && MeetsQuorums(cfg, M) && VotedAt(tr, M, p, T) && Ballot(T, l) in Last(tr).won
    ensures var s, b := Last(tr), Ballot(T, l);
      && b in s.requests && Le(p, s.requests[b])
      && (FreshStamps(tr) ==> l in s.nodes && Le(p, LastPos(s.nodes[l].log)))
  {
    RunInv(cfg, tr);
    var s, b := Last(tr), Ballot(T, l);
    hide IsRun, CastAt, FreshStamps, LastPos, Le;
    var v := WinnerVoterIn(cfg, s, b, M);
    var k := VoteWasCast(cfg, tr, Vote(b, v));
    assert CastAt(tr, k, b, v);
    LeTransitive(p, s.votes[Vote(b, v)], s.requests[b]);
    if FreshStamps(tr) {
      RequestBehind(cfg, tr, |tr| - 1, b);
      LeTransitive(p, s.requests[b], LastPos(s.nodes[l].log));
    }
  }

  lemma WinnerVoterIn(cfg: Config, s: State, b: Ballot, M: set<nat>) returns (v: nat)
    requires Inv(cfg, s) && b in s.won && MeetsQuorums(cfg, M)
    ensures v in M && Vote(b, v) in s.votes && b in s.requests && Le(s.votes[Vote(b, v)], s.requests[b])
  {
    hide NodesOk, RepliesOk, VotesBind, OneVote, RolesOk, LeadersOk, Le;
    v := QuorumsMeet(cfg.ids, M, VotersOf(cfg.ids, s.votes, b));
  }

  /** The restriction on leaders, in every run without stale stamps. */
  ghost predicate LeadersRestricted(cfg: Config) {
    forall tr, M, p, T, l | IsRun(cfg, tr) && FreshStamps(tr) && MeetsQuorums(cfg, M) && VotedAt(tr, M, p, T)
                            && Ballot(T, l) in Last(tr).leaders ::
      l in Last(tr).nodes && Le(p, LastPos(Last(tr).nodes[l].log))
  }

  lemma GuardedRestricts(cfg: Config)
    requires cfg.guarded || |cfg.ids| < Quorum(cfg)
    ensures LeadersRestricted(cfg)
  {
    hide FreshStamps, MeetsQuorums, VotedAt, LastPos, Le, Next, Init;
    forall tr, M, p, T, l | IsRun(cfg, tr) && FreshStamps(tr) && MeetsQuorums(cfg, M) && VotedAt(tr, M, p, T)
                            && Ballot(T, l) in Last(tr).leaders
      ensures l in Last(tr).nodes && Le(p, LastPos(Last(tr).nodes[l].log))
    {
      LeaderWon(cfg, tr, Ballot(T, l));
      WinnersReach(cfg, tr, M, p, T, l);
    }
  }

  lemma LeaderWon(cfg: Config, tr: seq<State>, b: Ballot)
    requires IsRun(cfg, tr) && (cfg.guarded || |cfg.ids| < Quorum(cfg)) && b in Last(tr).leaders
    ensures b in Last(tr).won
  {
    RunInv(cfg, tr);
    if cfg.guarded { LeadersWon(cfg, Last(tr)); } else { NoWinners(cfg, Last(tr)); }
  }
}
