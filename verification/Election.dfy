/**
 Elections among any number of nodes, as a step system over the handlers of RaftCore.
 Messages may be lost, delayed and reordered; a vote request reaches each peer at most once and each
 reply is delivered at most once, because raft_record_vote does not tell repeated replies apart.
 */
module Election {
  import opened FiniteSets
  import opened RaftCore
  import opened Bytes

  /** Which granted replies a candidate counts: those to its current candidacy, or those that carry its current
      term, as the receive loop of src/main.c does. */
  datatype Counting = ByRequest | ByReply

  /** maxNodes is the compile-time MAX_NODES; ids are the nodes actually running. raft_record_vote and
      raft_become_leader lock the node one after the other; guarded says whether the caller makes sure, under the
      second lock, that the node is still a candidate in the term it won. The callers in src/main.c do not. */
  datatype Config = Config(ids: set<nat>, maxNodes: nat, counting: Counting, guarded: bool)

  /** One candidacy. */
  datatype Ballot = Ballot(term: nat, cand: nat)
  datatype Vote = Vote(ballot: Ballot, voter: nat)

  /** nodes, requests, replies and wins are the system; wins holds the majorities reported to a caller that has
      not yet called raft_become_leader. The rest records history:
      asked   - requests already delivered        counted - grants already counted
      votes   - every vote ever cast, with the voter's last log position at that moment
      won     - every ballot that ever had a majority
      leaders - every term and node in which that node ever became leader */
  datatype State = State(nodes: map<nat, Node>, requests: map<Ballot, LogPos>, replies: map<Vote, VoteReply>,
                         wins: multiset<Ballot>, asked: set<Vote>, counted: set<Vote>, votes: map<Vote, LogPos>,
                         won: set<Ballot>, leaders: set<Ballot>)

  datatype Step =
    | Campaign(i: nat, clearLeader: bool)
    | DeliverRequest(ballot: Ballot, voter: nat)
    | DeliverReply(vote: Vote)
    | Lead(ballot: Ballot)
    | DeliverAppend(i: nat, req: AppendRequest)
    | StepDown(i: nat, term: nat)
    | Append(i: nat, stamp: nat, kind: EntryKind, data: seq<byte>)

  function Init(cfg: Config): State {
    State(map i | i in cfg.ids :: InitNode(i), map[], map[], multiset{}, {}, {}, map[], {}, {})
  }

  /** Terms come from messages, so they are terms that some node has reached. */
  ghost predicate Reached(s: State, term: nat) {
    exists j :: j in s.nodes && s.nodes[j].term >= term
  }

  /** An entry may be stamped with any earlier term, because process_raft_batch and raft_handle_client_command read the
      term without the lock under which the entry is appended. */
  ghost predicate Enabled(cfg: Config, s: State, step: Step)
    requires s.nodes.Keys == cfg.ids
  {
    match step
    case Campaign(i, _) => i in cfg.ids
    case DeliverRequest(b, v) => b in s.requests && v in cfg.ids && v != b.cand && Vote(b, v) !in s.asked
    case DeliverReply(w) => w in s.replies && w.ballot.cand in cfg.ids
    case Lead(b) => b in s.wins && b.cand in cfg.ids
    case DeliverAppend(i, req) => i in cfg.ids && Reached(s, req.term)
    case StepDown(i, term) => i in cfg.ids && term > s.nodes[i].term && Reached(s, term)
    case Append(i, stamp, _, _) => i in cfg.ids && stamp <= s.nodes[i].term
  }

  function Apply(cfg: Config, s: State, step: Step): State
    requires s.nodes.Keys == cfg.ids && Enabled(cfg, s, step)
  {
    match step
    case Campaign(i, clear) => ApplyCampaign(s, i, clear)
    case DeliverRequest(b, v) => ApplyRequest(s, b, v)
    case DeliverReply(w) => ApplyReply(cfg, s, w)
    case Lead(b) => ApplyLead(cfg, s, b)
    case DeliverAppend(i, req) => s.(nodes := s.nodes[i := HandleAppendEntries(s.nodes[i], req).0])
    case StepDown(i, term) => s.(nodes := s.nodes[i := BecomeFollower(s.nodes[i], term)])
    case Append(i, stamp, kind, data) => s.(nodes := s.nodes[i := AppendEntry(s.nodes[i], stamp, kind, data)])
  }

  /** raft_start_election or raft_become_candidate, then a request to every peer. */
  function ApplyCampaign(s: State, i: nat, clear: bool): State
    requires i in s.nodes
  {
    var n := if clear then BecomeCandidate(s.nodes[i]) else StartElection(s.nodes[i]);
    var b := Ballot(n.term, i);
    s.(nodes := s.nodes[i := n], requests := s.requests[b := LastPos(n.log)],
       votes := s.votes[Vote(b, i) := LastPos(n.log)])
  }

  function ApplyRequest(s: State, b: Ballot, v: nat): State
    requires v in s.nodes && b in s.requests
  {
    var (n, reply) := HandleRequestVote(s.nodes[v], VoteRequest(b.term, b.cand, s.requests[b]));
    var w := Vote(b, v);
    s.(nodes := s.nodes[v := n], asked := s.asked + {w}, replies := s.replies[w := reply],
       votes := if reply.granted then s.votes[w := LastPos(s.nodes[v].log)] else s.votes)
  }

  predicate Counts(cfg: Config, s: State, w: Vote)
    requires w in s.replies && w.ballot.cand in s.nodes
  {
    var n := s.nodes[w.ballot.cand];
    && s.replies[w].granted && n.role == Candidate
    && n.term == if cfg.counting == ByRequest then w.ballot.term else s.replies[w].term
  }

  /** A reply that counts is recorded, and a majority reported to the caller; any other is dropped. */
  function ApplyReply(cfg: Config, s: State, w: Vote): State
    requires w in s.replies && w.ballot.cand in s.nodes
  {
    var c := w.ballot.cand;
    var t := s.(replies := s.replies - {w});
    if !Counts(cfg, s, w) then t
    else
      var (m, majority) := RecordVote(s.nodes[c], cfg.maxNodes);
      var u := t.(nodes := s.nodes[c := m], counted := s.counted + {w});
      if majority then u.(wins := s.wins + multiset{w.ballot}, won := s.won + {w.ballot}) else u
  }

  /** The caller that was told of a majority makes the node leader of whatever term it is in by then. */
  function ApplyLead(cfg: Config, s: State, b: Ballot): State
    requires b in s.wins && b.cand in s.nodes
  {
    var n := s.nodes[b.cand];
    var t := s.(wins := s.wins - multiset{b});
    if cfg.guarded && !(n.role == Candidate && n.term == b.term) then t
    else t.(nodes := s.nodes[b.cand := BecomeLeader(n)], leaders := s.leaders + {Ballot(n.term, b.cand)})
  }

  ghost predicate Next(cfg: Config, s: State, s': State) {
    s.nodes.Keys == cfg.ids && exists step :: Enabled(cfg, s, step) && s' == Apply(cfg, s, step)
  }

  ghost predicate IsRun(cfg: Config, tr: seq<State>) {
    && tr != [] && tr[0] == Init(cfg)
    && forall k | 0 < k < |tr| :: Next(cfg, tr[k - 1], tr[k])
  }

  function Last(tr: seq<State>): State
    requires tr != []
  {
    tr[|tr| - 1]
  }

  // ----- The invariant -----

  function VotersOf(ids: set<nat>, votes: map<Vote, LogPos>, b: Ballot): set<nat> {
    set v | v in ids && Vote(b, v) in votes
  }

  function CountedOf(ids: set<nat>, counted: set<Vote>, b: Ballot): set<nat> {
    set v | v in ids && Vote(b, v) in counted
  }

  /** A win takes at least one counted reply besides the candidate's own vote. */
  function Quorum(cfg: Config): nat {
    if cfg.maxNodes < 2 then 2 else cfg.maxNodes / 2 + 1
  }

  ghost predicate NodesOk(ids: set<nat>, nodes: map<nat, Node>) {
    nodes.Keys == ids && forall i | i in nodes :: nodes[i].id == i
  }

  /** Requests were sent by their candidate, in a term it has reached. */
  ghost predicate RequestsOk(nodes: map<nat, Node>, requests: map<Ballot, LogPos>) {
    forall b | b in requests :: b.cand in nodes && 1 <= b.term <= nodes[b.cand].term
  }

  /** Replies answer delivered requests, are not counted yet, and report grants truthfully. */
  ghost predicate RepliesOk(s: State) {
    && (forall w | w in s.asked :: w.ballot in s.requests && w.voter in s.nodes && w.voter != w.ballot.cand)
    && (forall w | w in s.replies :: w in s.asked && w !in s.counted
                        && (s.replies[w].granted ==> w in s.votes && s.replies[w].term <= w.ballot.term))
    && (forall w | w in s.counted :: w in s.asked && w in s.votes)
  }

  /** A vote was cast for a log at least as up to date as the voter's. */
  ghost predicate VotesOk(s: State) {
    forall w | w in s.votes :: w.ballot in s.requests && Le(s.votes[w], s.requests[w.ballot])
                               && (w.voter != w.ballot.cand ==> w in s.asked)
  }

  /** A vote is in a term its voter has reached, and binds it while it stays there, unless it went to
      a candidate numbered 0, which the vote field cannot tell from no vote. */
  ghost predicate VotesBind(nodes: map<nat, Node>, votes: map<Vote, LogPos>) {
    forall w | w in votes :: w.voter in nodes && w.ballot.term <= nodes[w.voter].term
      && (w.ballot.term == nodes[w.voter].term ==> nodes[w.voter].votedFor == w.ballot.cand || w.ballot.cand == 0)
  }

  /** Two votes of one node in one term agree, unless one went to candidate 0; and a campaigner other
      than 0 votes only for itself. */
  ghost predicate OneVote(votes: map<Vote, LogPos>) {
    forall w, x | w in votes && x in votes && w.voter == x.voter && w.ballot.term == x.ballot.term
                  && w.ballot != x.ballot ::
      (w.ballot.cand == 0 || x.ballot.cand == 0) && (w.ballot.cand == w.voter ==> w.voter == 0)
  }

  /** Whoever campaigns has voted for itself, and its count is exact. */
  ghost predicate RolesOk(ids: set<nat>, nodes: map<nat, Node>, votes: map<Vote, LogPos>, counted: set<Vote>) {
    forall i | i in nodes && nodes[i].role == Candidate ::
      && Vote(Ballot(nodes[i].term, i), i) in votes
      && nodes[i].votes == 1 + |CountedOf(ids, counted, Ballot(nodes[i].term, i))|
  }

  /** Every majority is a quorum of votes. */
  ghost predicate WonOk(cfg: Config, requests: map<Ballot, LogPos>, votes: map<Vote, LogPos>, won: set<Ballot>) {
    forall b | b in won :: b in requests && Vote(b, b.cand) in votes && |VotersOf(cfg.ids, votes, b)| >= Quorum(cfg)
  }

  /** A win was a majority, and so was every leadership if it is guarded; without any there is no leader. */
  ghost predicate LeadersOk(cfg: Config, wins: multiset<Ballot>, won: set<Ballot>, leaders: set<Ballot>) {
    && (forall b | b in wins :: b in won)
    && (cfg.guarded ==> leaders <= won) && (leaders != {} ==> won != {})
  }

  ghost predicate Inv(cfg: Config, s: State) {
    && NodesOk(cfg.ids, s.nodes) && RequestsOk(s.nodes, s.requests) && RepliesOk(s) && VotesOk(s)
    && VotesBind(s.nodes, s.votes) && OneVote(s.votes) && RolesOk(cfg.ids, s.nodes, s.votes, s.counted)
    && WonOk(cfg, s.requests, s.votes, s.won) && LeadersOk(cfg, s.wins, s.won, s.leaders)
  }

  lemma InitInv(cfg: Config)
    ensures Inv(cfg, Init(cfg))
  {
  }

  /** What every handler does to a node's term and vote. */
  ghost predicate Advances(n: Node, m: Node) {
    && m.id == n.id && n.term <= m.term
    && (m.term == n.term && n.votedFor != 0 ==> m.votedFor == n.votedFor)
  }

  /** Only a campaign or a counted reply changes the standing of a candidate that stays one. */
  ghost predicate KeepsRole(n: Node, m: Node) {
    m.role == Candidate ==> n.role == Candidate && m.term == n.term && m.votes == n.votes
  }

  lemma RequestsUpdate(nodes: map<nat, Node>, requests: map<Ballot, LogPos>, i: nat, m: Node)
    requires RequestsOk(nodes, requests) && i in nodes && Advances(nodes[i], m)
    ensures RequestsOk(nodes[i := m], requests)
  {
  }

  lemma VotesBindUpdate(nodes: map<nat, Node>, votes: map<Vote, LogPos>, i: nat, m: Node)
    requires VotesBind(nodes, votes) && i in nodes && Advances(nodes[i], m)
    ensures VotesBind(nodes[i := m], votes)
  {
  }

  lemma QuietUpdate(cfg: Config, s: State, i: nat, m: Node)
    requires Inv(cfg, s) && i in cfg.ids && Advances(s.nodes[i], m) && KeepsRole(s.nodes[i], m)
    ensures Inv(cfg, s.(nodes := s.nodes[i := m]))
  {
    hide NodesOk, OneVote, RequestsOk, VotesBind, RolesOk, VotesOk, RepliesOk, WonOk, LeadersOk, CountedOf;
    NodesGood(cfg, s);
    NodesUpdate(cfg.ids, s.nodes, i, m);
    RequestsUpdate(s.nodes, s.requests, i, m);
    VotesBindUpdate(s.nodes, s.votes, i, m);
    if m.role == Candidate { RoleFacts(cfg, s, i); }
    RolesUpdate(cfg.ids, s.nodes, s.votes, s.counted, i, m, s.votes, s.counted);
    SameHistory(s, s.(nodes := s.nodes[i := m]));
  }

  lemma NodesUpdate(ids: set<nat>, nodes: map<nat, Node>, i: nat, m: Node)
    requires NodesOk(ids, nodes) && i in ids && m.id == i
    ensures NodesOk(ids, nodes[i := m])
  {
  }

  lemma SameHistory(s: State, t: State)
    requires t == s.(nodes := t.nodes) && s.nodes.Keys == t.nodes.Keys && RepliesOk(s) && VotesOk(s)
    ensures RepliesOk(t) && VotesOk(t)
  {
    hide Le;
  }

  lemma VoteAdvances(n: Node, r: VoteRequest)
    ensures Advances(n, HandleRequestVote(n, r).0) && KeepsRole(n, HandleRequestVote(n, r).0)
  {
  }

  lemma AppendRequestAdvances(n: Node, r: AppendRequest)
    ensures Advances(n, HandleAppendEntries(n, r).0) && KeepsRole(n, HandleAppendEntries(n, r).0)
  {
  }

  lemma StepDownAdvances(n: Node, term: nat)
    requires term > n.term
    ensures Advances(n, BecomeFollower(n, term)) && KeepsRole(n, BecomeFollower(n, term))
  {
  }

  lemma AppendAdvances(n: Node, stamp: nat, kind: EntryKind, data: seq<byte>)
    ensures Advances(n, AppendEntry(n, stamp, kind, data)) && KeepsRole(n, AppendEntry(n, stamp, kind, data))
  {
  }

  lemma LeadAdvances(n: Node)
    ensures Advances(n, BecomeLeader(n)) && KeepsRole(n, BecomeLeader(n))
  {
  }

  /** A voter bound to the ballot, whose other votes in the term all went to candidate 0. */
  ghost predicate MayVote(s: State, w: Vote, pos: LogPos) {
    && w.ballot in s.requests && w.voter in s.nodes
    && s.nodes[w.voter].votedFor == w.ballot.cand && s.nodes[w.voter].term == w.ballot.term
    && Le(pos, s.requests[w.ballot])
    && (forall x | x in s.votes && x.voter == w.voter && x.ballot.term == w.ballot.term ::
          x.ballot == w.ballot || (x.ballot.cand == 0 && w.voter != w.ballot.cand))
  }

  /** Casting a vote. */
  lemma CastVote(cfg: Config, s: State, w: Vote, pos: LogPos)
    requires Inv(cfg, s) && MayVote(s, w, pos) && w !in s.votes
    ensures var votes := s.votes[w := pos];
      && VotesBind(s.nodes, votes) && OneVote(votes) && WonOk(cfg, s.requests, votes, s.won)
      && RolesOk(cfg.ids, s.nodes, votes, s.counted)
  {
    hide LastPos, CountedOf, Le, VotersOf, RepliesOk, VotesOk, RequestsOk, LeadersOk;
    var votes := s.votes[w := pos];
    MoreVoters(cfg.ids, s.votes, votes);
    assert OneVote(votes) by { hide VotesBind, RolesOk, WonOk, NodesOk; }
    hide OneVote;
  }

  function AddReply(s: State, w: Vote, reply: VoteReply, pos: LogPos): State {
    s.(asked := s.asked + {w}, replies := s.replies[w := reply],
       votes := if reply.granted then s.votes[w := pos] else s.votes)
  }

  lemma AddReplyHistory(s: State, w: Vote, reply: VoteReply, pos: LogPos)
    requires RepliesOk(s) && VotesOk(s)
    requires w.ballot in s.requests && w.voter in s.nodes && w.voter != w.ballot.cand && w !in s.asked
    requires reply.granted ==> reply.term <= w.ballot.term && Le(pos, s.requests[w.ballot])
    ensures RepliesOk(AddReply(s, w, reply, pos)) && VotesOk(AddReply(s, w, reply, pos))
    ensures w !in s.votes
  {
    hide Le;
  }

  lemma RecordReply(cfg: Config, s: State, w: Vote, reply: VoteReply, pos: LogPos)
    requires Inv(cfg, s) && w.ballot in s.requests && w.voter in cfg.ids && w.voter != w.ballot.cand && w !in s.asked
    requires reply.granted ==> reply.term <= w.ballot.term && MayVote(s, w, pos)
    ensures Inv(cfg, AddReply(s, w, reply, pos))
  {
    hide OneVote, WonOk, LeadersOk, RolesOk, VotesBind, RequestsOk, Le, RepliesOk, VotesOk;
    AddReplyHistory(s, w, reply, pos);
    if reply.granted {
      CastVote(cfg, s, w, pos);
    }
  }

  lemma RequestKeepsInv(cfg: Config, s: State, b: Ballot, v: nat)
    requires Inv(cfg, s) && b in s.requests && v in cfg.ids && v != b.cand && Vote(b, v) !in s.asked
    ensures Inv(cfg, ApplyRequest(s, b, v))
  {
    var req := VoteRequest(b.term, b.cand, s.requests[b]);
    var (n, reply) := HandleRequestVote(s.nodes[v], req);
    var t := s.(nodes := s.nodes[v := n]);
    if reply.granted { GrantMayVote(cfg, s, b, v); }
    VoteAdvances(s.nodes[v], req);
    GrantTerms(s.nodes[v], req);
    hide HandleRequestVote, Advances, KeepsRole;
    QuietUpdate(cfg, s, v, n);
    hide Inv, MayVote;
    RecordReply(cfg, t, Vote(b, v), reply, LastPos(s.nodes[v].log));
  }

  lemma GrantTerms(n: Node, req: VoteRequest)
    ensures HandleRequestVote(n, req).1.granted ==> HandleRequestVote(n, req).1.term <= req.term
  {
  }

  lemma GrantMayVote(cfg: Config, s: State, b: Ballot, v: nat)
    requires Inv(cfg, s) && b in s.requests && v in cfg.ids && v != b.cand
    requires HandleRequestVote(s.nodes[v], VoteRequest(b.term, b.cand, s.requests[b])).1.granted
    ensures var n := HandleRequestVote(s.nodes[v], VoteRequest(b.term, b.cand, s.requests[b])).0;
      MayVote(s.(nodes := s.nodes[v := n]), Vote(b, v), LastPos(s.nodes[v].log))
  {
    GrantMeaning(s.nodes[v], VoteRequest(b.term, b.cand, s.requests[b]));
    hide HandleRequestVote, LastPos, Le, RequestsOk, RepliesOk, VotesOk, OneVote, RolesOk, WonOk, LeadersOk;
  }

  lemma CampaignHistory(s: State, i: nat, clear: bool)
    requires i in s.nodes && s.nodes[i].id == i && RequestsOk(s.nodes, s.requests) && RepliesOk(s) && VotesOk(s)
    ensures var t := ApplyCampaign(s, i, clear); RepliesOk(t) && VotesOk(t)
    ensures Ballot(s.nodes[i].term + 1, i) !in s.requests && Vote(Ballot(s.nodes[i].term + 1, i), i) !in s.votes
  {
    hide LastPos;
  }

  lemma CampaignAdvances(n: Node, clear: bool)
    ensures Advances(n, if clear then BecomeCandidate(n) else StartElection(n))
  {
  }

  lemma CampaignVotes(cfg: Config, s: State, i: nat, clear: bool)
    requires Inv(cfg, s) && i in cfg.ids
    ensures var t := ApplyCampaign(s, i, clear);
      && RequestsOk(t.nodes, t.requests) && VotesBind(t.nodes, t.votes) && OneVote(t.votes)
      && WonOk(cfg, t.requests, t.votes, t.won)
  {
    hide RolesOk, RepliesOk, VotesOk, VotersOf, LastPos, LeadersOk;
    var t := ApplyCampaign(s, i, clear);
    CampaignAdvances(s.nodes[i], clear);
    RequestsUpdate(s.nodes, s.requests, i, t.nodes[i]);
    VotesBindUpdate(s.nodes, s.votes, i, t.nodes[i]);
    MoreVoters(cfg.ids, s.votes, t.votes);
    assert OneVote(t.votes) by { hide RequestsOk, WonOk; }
    hide OneVote;
  }

  lemma LeReflexive(p: LogPos)
    ensures Le(p, p)
  {
  }

  lemma FreshBallotUncounted(cfg: Config, s: State, b: Ballot)
    requires RepliesOk(s) && b !in s.requests
    ensures CountedOf(cfg.ids, s.counted, b) == {}
  {
    assert forall v :: Vote(b, v) !in s.counted;
  }

  /** Replacing one node, more votes, and a count that changed only for that node. */
  lemma RolesUpdate(ids: set<nat>, nodes: map<nat, Node>, votes: map<Vote, LogPos>, counted: set<Vote>,
                    i: nat, m: Node, votes': map<Vote, LogPos>, counted': set<Vote>)
    requires RolesOk(ids, nodes, votes, counted) && votes.Keys <= votes'.Keys
    requires forall b: Ballot | b.cand != i :: CountedOf(ids, counted', b) == CountedOf(ids, counted, b)
    requires m.role == Candidate ==> Vote(Ballot(m.term, i), i) in votes'
    requires m.role == Candidate ==> m.votes == 1 + |CountedOf(ids, counted', Ballot(m.term, i))|
    ensures RolesOk(ids, nodes[i := m], votes', counted')
  {
    hide CountedOf;
  }

  lemma CampaignRoles(cfg: Config, s: State, i: nat, clear: bool)
    requires NodesOk(cfg.ids, s.nodes) && i in cfg.ids && RolesOk(cfg.ids, s.nodes, s.votes, s.counted)
    requires CountedOf(cfg.ids, s.counted, Ballot(s.nodes[i].term + 1, i)) == {}
    ensures var t := ApplyCampaign(s, i, clear);
      NodesOk(cfg.ids, t.nodes) && RolesOk(cfg.ids, t.nodes, t.votes, t.counted)
  {
    var t := ApplyCampaign(s, i, clear);
    hide RolesOk, CountedOf, LastPos;
    RolesUpdate(cfg.ids, s.nodes, s.votes, s.counted, i, t.nodes[i], t.votes, t.counted);
  }

  lemma CampaignKeepsInv(cfg: Config, s: State, i: nat, clear: bool)
    requires Inv(cfg, s) && i in cfg.ids
    ensures Inv(cfg, ApplyCampaign(s, i, clear))
  {
    assert s.nodes[i].id == i;
    CampaignKeepsWins(s, i, clear);
    hide ApplyCampaign, NodesOk, RolesOk, RequestsOk, VotesBind, OneVote, WonOk, LeadersOk, RepliesOk, VotesOk;
    hide CountedOf;
    CampaignHistory(s, i, clear);
    CampaignVotes(cfg, s, i, clear);
    FreshBallotUncounted(cfg, s, Ballot(s.nodes[i].term + 1, i));
    CampaignRoles(cfg, s, i, clear);
  }

  lemma CampaignKeepsWins(s: State, i: nat, clear: bool)
    requires i in s.nodes
    ensures var t := ApplyCampaign(s, i, clear); t.wins == s.wins && t.won == s.won && t.leaders == s.leaders
  {
    hide LastPos;
  }

  lemma CountOneMore(ids: set<nat>, counted: set<Vote>, w: Vote)
    requires w.voter in ids && w !in counted
    ensures CountedOf(ids, counted + {w}, w.ballot) == CountedOf(ids, counted, w.ballot) + {w.voter}
    ensures w.voter !in CountedOf(ids, counted, w.ballot)
    ensures |CountedOf(ids, counted + {w}, w.ballot)| == |CountedOf(ids, counted, w.ballot)| + 1
    ensures forall b | b != w.ballot :: CountedOf(ids, counted + {w}, b) == CountedOf(ids, counted, b)
  {
    assert CountedOf(ids, counted + {w}, w.ballot) == CountedOf(ids, counted, w.ballot) + {w.voter};
  }

  /** The counted voters and the candidate itself have all voted for it. */
  lemma CountedVoted(cfg: Config, s: State, b: Ballot, v: nat)
    requires RepliesOk(s) && s.nodes.Keys == cfg.ids && b.cand in cfg.ids
    requires Vote(b, v) in s.asked && Vote(b, v) in s.votes
    requires Vote(b, b.cand) in s.votes && Vote(b, v) !in s.counted
    ensures |VotersOf(cfg.ids, s.votes, b)| >= |CountedOf(cfg.ids, s.counted, b)| + 2
  {
    var was := CountedOf(cfg.ids, s.counted, b);
    assert v !in was && b.cand !in was + {v};
    SubsetSize(was + {v} + {b.cand}, VotersOf(cfg.ids, s.votes, b));
  }

  /** Either rule counts only answers to the current candidacy. */
  lemma CountedIsCurrent(cfg: Config, s: State, w: Vote)
    requires Inv(cfg, s) && w in s.replies && w.ballot.cand in s.nodes && Counts(cfg, s, w)
    ensures w.ballot.term == s.nodes[w.ballot.cand].term
  {
    if cfg.counting == ByReply {
      ReplyTermFilter(cfg, s, w);
    }
  }

  lemma CountRoles(cfg: Config, s: State, w: Vote)
    requires Inv(cfg, s) && w in s.replies && w.ballot.cand in s.nodes && Counts(cfg, s, w)
    ensures var t := ApplyReply(cfg, s, w);
      && RolesOk(cfg.ids, t.nodes, t.votes, t.counted) && WonOk(cfg, t.requests, t.votes, t.won)
      && LeadersOk(cfg, t.wins, t.won, t.leaders)
  {
    hide NodesOk, OneVote, VotesOk, RepliesOk, RequestsOk, VotesBind, VotersOf, CountedOf, RolesOk, WonOk;
    var t, c := ApplyReply(cfg, s, w), w.ballot.cand;
    CountedIsCurrent(cfg, s, w);
    NodesGood(cfg, s);
    VoteHasRequest(cfg, s, w);
    RoleFacts(cfg, s, c);
    CountOneMore(cfg.ids, s.counted, w);
    CountedVoted(cfg, s, w.ballot, w.voter);
    RolesUpdate(cfg.ids, s.nodes, s.votes, s.counted, c, t.nodes[c], s.votes, t.counted);
    if t.won != s.won {
      WonUpdate(cfg, s.requests, s.votes, s.won, w.ballot);
    }
  }

  lemma WonUpdate(cfg: Config, requests: map<Ballot, LogPos>, votes: map<Vote, LogPos>, won: set<Ballot>, b: Ballot)
    requires WonOk(cfg, requests, votes, won)
    requires b in requests && Vote(b, b.cand) in votes && |VotersOf(cfg.ids, votes, b)| >= Quorum(cfg)
    ensures WonOk(cfg, requests, votes, won + {b})
  {
    hide VotersOf;
  }

  lemma RoleFacts(cfg: Config, s: State, c: nat)
    requires RolesOk(cfg.ids, s.nodes, s.votes, s.counted) && c in s.nodes && s.nodes[c].role == Candidate
    ensures Vote(Ballot(s.nodes[c].term, c), c) in s.votes
    ensures s.nodes[c].votes == 1 + |CountedOf(cfg.ids, s.counted, Ballot(s.nodes[c].term, c))|
  {
    hide CountedOf;
  }

  lemma VoteHasRequest(cfg: Config, s: State, w: Vote)
    requires RepliesOk(s) && w in s.replies && s.nodes.Keys == cfg.ids
    ensures w.ballot in s.requests && w in s.asked && w !in s.counted && w.voter in cfg.ids
    ensures s.replies[w].granted ==> w in s.votes
  {
  }

  lemma ReplyNodes(cfg: Config, s: State, w: Vote)
    requires Inv(cfg, s) && w in s.replies && w.ballot.cand in cfg.ids
    ensures var t := ApplyReply(cfg, s, w);
      NodesOk(cfg.ids, t.nodes) && RequestsOk(t.nodes, t.requests) && VotesBind(t.nodes, t.votes)
  {
    hide NodesOk, RequestsOk, VotesBind, OneVote, WonOk, LeadersOk, RolesOk, VotesOk, RepliesOk, Counts, RecordVote;
    NodesGood(cfg, s);
    var c := w.ballot.cand;
    var m := RecordVote(s.nodes[c], cfg.maxNodes).0;
    RecordAdvances(s.nodes[c], cfg.maxNodes);
    NodesUpdate(cfg.ids, s.nodes, c, m);
    RequestsUpdate(s.nodes, s.requests, c, m);
    VotesBindUpdate(s.nodes, s.votes, c, m);
  }

  lemma RecordAdvances(n: Node, maxNodes: nat)
    ensures Advances(n, RecordVote(n, maxNodes).0)
  {
  }

  lemma ReplyHistory(cfg: Config, s: State, w: Vote)
    requires RepliesOk(s) && VotesOk(s) && w in s.replies && w.ballot.cand in s.nodes
    ensures RepliesOk(ApplyReply(cfg, s, w)) && VotesOk(ApplyReply(cfg, s, w))
  {
    hide Le, RecordVote;
  }

  lemma ReplyKeepsInv(cfg: Config, s: State, w: Vote)
    requires Inv(cfg, s) && w in s.replies && w.ballot.cand in cfg.ids
    ensures Inv(cfg, ApplyReply(cfg, s, w))
  {
    assert s.nodes.Keys == cfg.ids;
    hide RolesOk, WonOk, LeadersOk, OneVote, VotesOk, RequestsOk, RepliesOk, VotesBind, NodesOk, RecordVote, Counts;
    ReplyNodes(cfg, s, w);
    ReplyHistory(cfg, s, w);
    if Counts(cfg, s, w) {
      CountRoles(cfg, s, w);
    }
  }

  lemma LeadKeepsInv(cfg: Config, s: State, b: Ballot)
    requires Inv(cfg, s) && b in s.wins && b.cand in cfg.ids
    ensures Inv(cfg, ApplyLead(cfg, s, b))
  {
    hide Inv, LeadersOk, Advances, KeepsRole, BecomeLeader;
    NodesGood(cfg, s);
    LeadRecorded(cfg, s, b);
    var n, u := s.nodes[b.cand], ApplyLead(cfg, s, b);
    if cfg.guarded && !(n.role == Candidate && n.term == b.term) {
      OtherWins(cfg, s, u);
    } else {
      LeadAdvances(n);
      QuietUpdate(cfg, s, b.cand, BecomeLeader(n));
      OtherWins(cfg, s.(nodes := s.nodes[b.cand := BecomeLeader(n)]), u);
    }
  }

  lemma LeadRecorded(cfg: Config, s: State, b: Ballot)
    requires Inv(cfg, s) && b in s.wins && b.cand in s.nodes
    ensures var t := ApplyLead(cfg, s, b); LeadersOk(cfg, t.wins, t.won, t.leaders) && t.won == s.won
  {
    hide NodesOk, RolesOk, WonOk, OneVote, VotesOk, RequestsOk, RepliesOk, VotesBind, BecomeLeader;
  }

  lemma OtherWins(cfg: Config, s: State, t: State)
    requires Inv(cfg, s) && t == s.(wins := t.wins, leaders := t.leaders) && LeadersOk(cfg, t.wins, t.won, t.leaders)
    ensures Inv(cfg, t)
  {
    hide Le, NodesOk, RequestsOk, VotesBind, OneVote, RolesOk, WonOk, LeadersOk;
  }

  lemma StepKeepsInv(cfg: Config, s: State, step: Step)
    requires Inv(cfg, s) && Enabled(cfg, s, step)
    ensures Inv(cfg, Apply(cfg, s, step))
  {
    hide Inv, ApplyCampaign, ApplyRequest, ApplyReply, ApplyLead, Reached;
    NodesGood(cfg, s);
    match step
    case Campaign(i, clear) => CampaignKeepsInv(cfg, s, i, clear);
    case DeliverRequest(b, v) => RequestKeepsInv(cfg, s, b, v);
    case DeliverReply(w) => ReplyKeepsInv(cfg, s, w);
    case Lead(b) => LeadKeepsInv(cfg, s, b);
    case DeliverAppend(i, req) =>
      AppendRequestAdvances(s.nodes[i], req);
      QuietUpdate(cfg, s, i, HandleAppendEntries(s.nodes[i], req).0);
    case StepDown(i, term) =>
      StepDownAdvances(s.nodes[i], term);
      QuietUpdate(cfg, s, i, BecomeFollower(s.nodes[i], term));
    case Append(i, stamp, kind, data) =>
      AppendAdvances(s.nodes[i], stamp, kind, data);
      QuietUpdate(cfg, s, i, AppendEntry(s.nodes[i], stamp, kind, data));
  }

  lemma NodesGood(cfg: Config, s: State)
    requires Inv(cfg, s)
    ensures s.nodes.Keys == cfg.ids && forall i | i in cfg.ids :: s.nodes[i].id == i
  {
  }

  /** Every state of every run. */
  lemma {:induction false} RunInv(cfg: Config, tr: seq<State>)
    requires IsRun(cfg, tr)
    ensures forall k | 0 <= k < |tr| :: Inv(cfg, tr[k])
  {
    hide Inv, Apply, Enabled, Init;
    InitInv(cfg);
    for k := 1 to |tr|
      invariant forall j | 0 <= j < k :: Inv(cfg, tr[j])
    {
      assert Next(cfg, tr[k - 1], tr[k]);
      var step :| Enabled(cfg, tr[k - 1], step) && tr[k] == Apply(cfg, tr[k - 1], step);
      StepKeepsInv(cfg, tr[k - 1], step);
    }
  }

  lemma MoreVoters(ids: set<nat>, votes: map<Vote, LogPos>, votes': map<Vote, LogPos>)
    requires votes.Keys <= votes'.Keys
    ensures forall b :: |VotersOf(ids, votes, b)| <= |VotersOf(ids, votes', b)|
  {
    forall b ensures |VotersOf(ids, votes, b)| <= |VotersOf(ids, votes', b)| {
      SubsetSize(VotersOf(ids, votes, b), VotersOf(ids, votes', b));
    }
  }

  // ----- Election safety, exactly -----

  ghost predicate OneLeaderPerTerm(s: State) {
    forall b, c | b in s.leaders && c in s.leaders && b.term == c.term :: b == c
  }

  /** Every leader any run ever has, over all its states: leaders is a history. */
  ghost predicate ElectionSafe(cfg: Config) {
    forall tr | IsRun(cfg, tr) :: OneLeaderPerTerm(Last(tr))
  }

  /** Quorums overlap, and no node is numbered 0 (unless a quorum takes every node). */
  predicate Sound(cfg: Config) {
    |cfg.ids| < 2 * Quorum(cfg) && (0 !in cfg.ids || |cfg.ids| <= Quorum(cfg))
  }

  lemma QuorumsMeet(ids: set<nat>, p: set<nat>, q: set<nat>) returns (v: nat)
    requires p <= ids && q <= ids && |p| + |q| > |ids|
    ensures v in p && v in q
  {
    if p * q == {} {
      SubsetSize(p + q, ids);
      assert false;
    }
    v :| v in p * q;
  }

  /** Two ballots of one term that ever had a majority are the same, in a sound cluster. */
  lemma WinnersUnique(cfg: Config, s: State, b: Ballot, c: Ballot)
    requires Inv(cfg, s) && Sound(cfg) && b in s.won && c in s.won && b.term == c.term
    ensures b == c
  {
    hide NodesOk, RepliesOk, VotesOk, VotesBind, RolesOk, LeadersOk, Le;
    var p, q := VotersOf(cfg.ids, s.votes, b), VotersOf(cfg.ids, s.votes, c);
    var v := QuorumsMeet(cfg.ids, p, q);
    NodesGood(cfg, s);
    if b != c && |cfg.ids| <= Quorum(cfg) {
      AllOf(p, cfg.ids);
      AllOf(q, cfg.ids);
    }
  }

  /** Nothing is ever won if a quorum takes more nodes than there are. */
  lemma NoWinners(cfg: Config, s: State)
    requires Inv(cfg, s) && |cfg.ids| < Quorum(cfg)
    ensures s.won == {} && s.leaders == {}
  {
    hide NodesOk, RepliesOk, VotesOk, VotesBind, RolesOk, OneVote, RequestsOk;
    if b :| b in s.won {
      SubsetSize(VotersOf(cfg.ids, s.votes, b), cfg.ids);
    }
  }

  lemma AllOf<T>(p: set<T>, ids: set<T>)
    requires p <= ids && |p| >= |ids|
    ensures p == ids
  {
    if x :| x in ids && x !in p {
      SubsetSize(p + {x}, ids);
    }
  }

  /** In sound clusters no run has two leaders in one term, if becoming leader is guarded or nobody can win. */
  lemma SoundIsSafe(cfg: Config)
    requires Sound(cfg) && (cfg.guarded || |cfg.ids| < Quorum(cfg))
    ensures ElectionSafe(cfg)
  {
    forall tr | IsRun(cfg, tr) ensures OneLeaderPerTerm(Last(tr)) {
      RunInv(cfg, tr);
      var s := Last(tr);
      if |cfg.ids| < Quorum(cfg) {
        NoWinners(cfg, s);
      } else {
        LeadersWon(cfg, s);
        forall b, c | b in s.leaders && c in s.leaders && b.term == c.term ensures b == c {
          WinnersUnique(cfg, s, b, c);
        }
      }
    }
  }

  lemma LeadersWon(cfg: Config, s: State)
    requires Inv(cfg, s) && cfg.guarded
    ensures s.leaders <= s.won
  {
  }

  lemma Extend(cfg: Config, tr: seq<State>, step: Step) returns (tr': seq<State>)
    requires IsRun(cfg, tr) && Last(tr).nodes.Keys == cfg.ids && Enabled(cfg, Last(tr), step)
    ensures IsRun(cfg, tr') && tr' == tr + [Apply(cfg, Last(tr), step)] && Last(tr').nodes.Keys == cfg.ids
    ensures Last(tr') == Apply(cfg, Last(tr), step)
  {
    hide Init, Apply, Enabled;
    tr' := tr + [Apply(cfg, Last(tr), step)];
    forall k | 0 < k < |tr'| ensures Next(cfg, tr'[k - 1], tr'[k]) {
      if k < |tr| {
        assert Next(cfg, tr[k - 1], tr[k]);
      }
    }
    RunInv(cfg, tr');
    NodesGood(cfg, Last(tr'));
  }

  /** A reply that passes a filter on its own term also answers the current candidacy, so counting by
      reply term is at least as strict as counting by request. */
  lemma ReplyTermFilter(cfg: Config, s: State, w: Vote)
    requires Inv(cfg, s) && w in s.replies && s.replies[w].granted && w.ballot.cand in s.nodes
    requires s.replies[w].term == s.nodes[w.ballot.cand].term
    ensures w.ballot.term == s.nodes[w.ballot.cand].term
  {
    hide OneVote, VotesBind, RolesOk, WonOk, LeadersOk, Le;
    assert w.ballot in s.requests;
  }
}
