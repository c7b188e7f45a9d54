/** Who is leader at any moment: the role field against the history of leaders, and what makes and unmakes a leader. */
module ElectionRoles {
  import opened RaftCore
  import opened Bytes
  import opened Election
  import opened ElectionHistory

  /** Every node in the role of a leader is recorded as leader of its current term. */
  ghost predicate Led(s: State) {
    forall i | i in s.nodes && s.nodes[i].role == Leader :: Ballot(s.nodes[i].term, i) in s.leaders
  }

  /** No two nodes have the role of a leader in one term. */
  ghost predicate OneLeaderNow(s: State) {
    forall i, j | i in s.nodes && j in s.nodes && s.nodes[i].role == Leader && s.nodes[j].role == Leader
                  && s.nodes[i].term == s.nodes[j].term :: i == j
  }

  ghost predicate RolesSafe(cfg: Config) {
    forall tr | IsRun(cfg, tr) :: OneLeaderNow(Last(tr))
  }

  ghost predicate KeepsLead(n: Node, m: Node) {
    m.role == Leader ==> n.role == Leader && m.term == n.term
  }

  lemma RequestKeepsLead(n: Node, r: VoteRequest)
    ensures KeepsLead(n, HandleRequestVote(n, r).0)
  {
    VoteRequestMeaning(n, r);
    hide HandleRequestVote, LastPos;
  }

  lemma AppendRequestKeepsLead(n: Node, r: AppendRequest)
    ensures KeepsLead(n, HandleAppendEntries(n, r).0)
  {
    AppendRequestMeaning(n, r);
    hide HandleAppendEntries;
  }

  lemma LedUpdate(s: State, t: State, i: nat, m: Node)
    requires Led(s) && i in s.nodes && KeepsLead(s.nodes[i], m)
    requires t.nodes == s.nodes[i := m] && t.leaders == s.leaders
    ensures Led(t)
  {
  }

  lemma ReplyLeaves(cfg: Config, s: State, w: Vote)
    requires w in s.replies && w.ballot.cand in s.nodes
    ensures var t, c := ApplyReply(cfg, s, w), w.ballot.cand;
      t.leaders == s.leaders && (t.nodes == s.nodes || t.nodes == s.nodes[c := RecordVote(s.nodes[c], cfg.maxNodes).0])
  {
    hide RecordVote, Counts;
  }

  /** The step that makes a leader, unless a guard drops it: the node has the role, knows itself as leader and keeps its
      term, vote and log, no other node changes, and the term is recorded. */
  lemma LeadTakesOffice(cfg: Config, s: State, b: Ballot)
    requires b in s.wins && b.cand in s.nodes && s.nodes[b.cand].id == b.cand
    ensures var n, t := s.nodes[b.cand], ApplyLead(cfg, s, b);
      && t.nodes.Keys == s.nodes.Keys && (forall i | i in s.nodes && i != b.cand :: t.nodes[i] == s.nodes[i])
      && var m := t.nodes[b.cand];
         if cfg.guarded && !(n.role == Candidate && n.term == b.term) then m == n && t.leaders == s.leaders
         else && m.role == Leader && m.leaderId == b.cand
              && m.term == n.term && m.votedFor == n.votedFor && m.votes == n.votes && m.log == n.log
              && t.leaders == s.leaders + {Ballot(n.term, b.cand)}
  {
    RoleChanges(s.nodes[b.cand], 0);
  }

  lemma CampaignKeepsLed(s: State, i: nat, clear: bool)
    requires i in s.nodes && Led(s)
    ensures Led(ApplyCampaign(s, i, clear))
  {
    hide LastPos;
  }

  lemma RequestKeepsLed(s: State, b: Ballot, v: nat)
    requires v in s.nodes && b in s.requests && Led(s)
    ensures Led(ApplyRequest(s, b, v))
  {
    hide LastPos, HandleRequestVote, Led, KeepsLead;
    var req := VoteRequest(b.term, b.cand, s.requests[b]);
    RequestKeepsLead(s.nodes[v], req);
    LedUpdate(s, ApplyRequest(s, b, v), v, HandleRequestVote(s.nodes[v], req).0);
  }

  lemma LeadKeepsLed(cfg: Config, s: State, b: Ballot)
    requires b in s.wins && b.cand in s.nodes && s.nodes[b.cand].id == b.cand && Led(s)
    ensures Led(ApplyLead(cfg, s, b))
  {
    LeadTakesOffice(cfg, s, b);
    hide ApplyLead, BecomeLeader;
  }

  lemma ReplyKeepsLed(cfg: Config, s: State, w: Vote)
    requires w in s.replies && w.ballot.cand in s.nodes && Led(s)
    ensures Led(ApplyReply(cfg, s, w))
  {
    ReplyLeaves(cfg, s, w);
    hide ApplyReply;
  }

  lemma AppendKeepsLed(s: State, i: nat, req: AppendRequest)
    requires i in s.nodes && Led(s)
    ensures Led(s.(nodes := s.nodes[i := HandleAppendEntries(s.nodes[i], req).0]))
  {
    AppendRequestKeepsLead(s.nodes[i], req);
    hide HandleAppendEntries;
  }

  lemma QuietKeepsLed(s: State, i: nat, m: Node)
    requires i in s.nodes && Led(s) && KeepsLead(s.nodes[i], m)
    ensures Led(s.(nodes := s.nodes[i := m]))
  {
  }

  lemma StepKeepsLed(cfg: Config, s: State, step: Step)
    requires Inv(cfg, s) && Enabled(cfg, s, step) && Led(s)
    ensures Led(Apply(cfg, s, step))
  {
    NodesGood(cfg, s);
    hide Inv, ApplyCampaign, ApplyRequest, ApplyLead, ApplyReply, Led, Reached, HandleAppendEntries;
    if step.Campaign? {
      CampaignKeepsLed(s, step.i, step.clearLeader);
    } else if step.DeliverRequest? {
      RequestKeepsLed(s, step.ballot, step.voter);
    } else if step.DeliverReply? {
      ReplyKeepsLed(cfg, s, step.vote);
    } else if step.Lead? {
      LeadKeepsLed(cfg, s, step.ballot);
    } else if step.DeliverAppend? {
      AppendKeepsLed(s, step.i, step.req);
    } else if step.StepDown? {
      QuietKeepsLed(s, step.i, BecomeFollower(s.nodes[step.i], step.term));
    } else {
      QuietKeepsLed(s, step.i, AppendEntry(s.nodes[step.i], step.stamp, step.kind, step.data));
    }
  }

  lemma {:induction false} LedAt(cfg: Config, tr: seq<State>, k: nat)
    requires IsRun(cfg, tr) && k < |tr|
    ensures Led(tr[k])
    decreases k
  {
    hide *;
    if k == 0 {
      FirstLed(cfg, tr);
    } else {
      LedAt(cfg, tr, k - 1);
      var step := StepInto(cfg, tr, k);
      StepKeepsLed(cfg, tr[k - 1], step);
    }
  }

  /** In every state of every run whoever has the role of a leader became leader in its present term. */
  lemma RunLed(cfg: Config, tr: seq<State>)
    requires IsRun(cfg, tr)
    ensures forall k | 0 <= k < |tr| :: Led(tr[k])
  {
    hide *;
    forall k | 0 <= k < |tr| ensures Led(tr[k]) { LedAt(cfg, tr, k); }
  }

  lemma FirstLed(cfg: Config, tr: seq<State>)
    requires IsRun(cfg, tr)
    ensures tr != [] && Led(tr[0])
  {
    hide Next;
  }

  /** So where no term has two leaders in history, no two nodes are leaders of one term at once. */
  lemma SafeRoles(cfg: Config)
    requires ElectionSafe(cfg)
    ensures RolesSafe(cfg)
  {
    hide Next, Init;
    forall tr | IsRun(cfg, tr) ensures OneLeaderNow(Last(tr)) {
      RunLed(cfg, tr);
      assert Led(Last(tr)) && OneLeaderPerTerm(Last(tr));
    }
  }

  /** The node a message is delivered to, and the message's term. */
  function Hears(s: State, step: Step): Option<(nat, nat)> {
    match step
    case DeliverRequest(b, v) => Some((v, b.term))
    case DeliverAppend(i, req) => Some((i, req.term))
    case StepDown(i, term) => Some((i, term))
    case _ => None
  }

  /** What a message of a term does to the node that gets it. */
  ghost predicate Heard(n: Node, m: Node, term: nat) {
    && (term > n.term ==> m.term == term && m.role == Follower)
    && (term == n.term ==> m.term == term && m.role == n.role)
    && (term < n.term ==> m == n)
  }

  lemma RequestHeard(s: State, b: Ballot, v: nat)
    requires v in s.nodes && b in s.requests
    ensures var t := ApplyRequest(s, b, v); exists m :: t.nodes == s.nodes[v := m] && Heard(s.nodes[v], m, b.term)
  {
    var req := VoteRequest(b.term, b.cand, s.requests[b]);
    VoteRequestMeaning(s.nodes[v], req);
    hide LastPos, HandleRequestVote;
    assert Heard(s.nodes[v], HandleRequestVote(s.nodes[v], req).0, b.term);
  }

  lemma AppendHeard(n: Node, req: AppendRequest)
    ensures Heard(n, HandleAppendEntries(n, req).0, req.term)
  {
  }

  /** Whoever hears of a later term is a follower of it afterwards, whatever it was; a message of an older term changes
      nothing; and a message to one node leaves all others alone. */
  lemma LaterTermDeposes(cfg: Config, s: State, step: Step)
    requires Inv(cfg, s) && Enabled(cfg, s, step) && Hears(s, step).Some?
    ensures var (i, term) := Hears(s, step).value; var t := Apply(cfg, s, step);
      i in s.nodes && exists m :: t.nodes == s.nodes[i := m] && Heard(s.nodes[i], m, term)
  {
    NodesGood(cfg, s);
    hide Inv, Reached, LastPos, ApplyRequest, HandleAppendEntries;
    match step
    case DeliverRequest(b, v) => RequestHeard(s, b, v);
    case DeliverAppend(i, req) =>
      AppendHeard(s.nodes[i], req);
      assert Heard(s.nodes[i], HandleAppendEntries(s.nodes[i], req).0, req.term);
    case StepDown(i, term) => assert Heard(s.nodes[i], BecomeFollower(s.nodes[i], term), term);
    case _ =>
  }
}
