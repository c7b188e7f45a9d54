/** One Raft node: the state the handlers of src/raft_core.c read and write, and what each does to it. */
module RaftCore {
  import opened Bytes

  /** Log positions in the order of section 5.4.1 of the Raft paper: term first, then index. */
  datatype LogPos = LogPos(term: nat, index: nat)

  predicate Le(p: LogPos, q: LogPos) {
    p.term < q.term || (p.term == q.term && p.index <= q.index)
  }

  datatype Role = Follower | Candidate | Leader
  datatype EntryKind = Noop | CommandEntry
  datatype Entry = Entry(term: nat, index: nat, kind: EntryKind, data: seq<byte>)

  datatype Node = Node(id: nat, role: Role, term: nat, votedFor: nat, votes: nat, leaderId: nat, log: seq<Entry>)

  datatype VoteRequest = VoteRequest(term: nat, sender: nat, last: LogPos)
  datatype VoteReply = VoteReply(term: nat, granted: bool)
  datatype AppendRequest = AppendRequest(term: nat, sender: nat, prev: LogPos)
  datatype AppendReply = AppendReply(term: nat, success: bool)

  function InitNode(id: nat): Node {
    Node(id, Follower, 0, 0, 0, 0, [])
  }

  function LastPos(log: seq<Entry>): LogPos {
    if log == [] then LogPos(0, 0) else LogPos(log[|log| - 1].term, |log|)
  }

  function StartElection(n: Node): Node {
    n.(role := Candidate, term := n.term + 1, votedFor := n.id, votes := 1)
  }

  function BecomeCandidate(n: Node): Node {
    StartElection(n).(leaderId := 0)
  }

  function BecomeFollower(n: Node, term: nat): Node {
    n.(role := Follower, term := term, votedFor := 0, votes := 0, leaderId := 0)
  }

  function BecomeLeader(n: Node): Node {
    n.(role := Leader, leaderId := n.id)
  }

  /** The new count, and whether it is a majority of maxNodes (MAX_NODES in the source). */
  function RecordVote(n: Node, maxNodes: nat): (Node, bool) {
    if n.role != Candidate then (n, false)
    else (n.(votes := n.votes + 1), n.votes + 1 > maxNodes / 2)
  }

  /** The term check both RPC handlers share. */
  function AdoptTerm(n: Node, term: nat): Node {
    if term > n.term then n.(term := term, role := Follower, votedFor := 0) else n
  }

  /** The reply carries the term the node had before it adopts the request's. */
  function HandleRequestVote(n: Node, req: VoteRequest): (Node, VoteReply) {
    if req.term < n.term then (n, VoteReply(n.term, false))
    else
      var m := AdoptTerm(n, req.term);
      if (m.votedFor == 0 || m.votedFor == req.sender) && Le(LastPos(m.log), req.last)
      then (m.(votedFor := req.sender), VoteReply(n.term, true))
      else (m, VoteReply(n.term, false))
  }

  predicate Consistent(log: seq<Entry>, prev: LogPos) {
    prev.index == 0 || (prev.index <= |log| && log[prev.index - 1].term == prev.term)
  }

  function HandleAppendEntries(n: Node, req: AppendRequest): (Node, AppendReply) {
    if req.term < n.term then (n, AppendReply(n.term, false))
    else (AdoptTerm(n, req.term).(leaderId := req.sender), AppendReply(n.term, Consistent(n.log, req.prev)))
  }

  /** raft_create_entry stamped with a term, then raft_append_entry. */
  function AppendEntry(n: Node, stamp: nat, kind: EntryKind, data: seq<byte>): Node {
    n.(log := n.log + [Entry(stamp, |n.log| + 1, kind, data)])
  }

  // ----- What the handlers guarantee -----

  /** Entries sit at their index and carry nondecreasing terms no newer than the node's. */
  ghost predicate GoodLog(n: Node) {
    && (forall k | 0 <= k < |n.log| :: n.log[k].index == k + 1 && n.log[k].term <= n.term)
    && (forall j, k | 0 <= j <= k < |n.log| :: n.log[j].term <= n.log[k].term)
  }

  /** A grant means: the request is current, the voter was free or had already chosen this candidate, and the
      candidate's last entry is of a later term, or of the same term in a log at least as long; and it binds the
      voter. */
  lemma GrantMeaning(n: Node, req: VoteRequest)
    ensures var (m, reply) := HandleRequestVote(n, req);
      var lastTerm := if n.log == [] then 0 else n.log[|n.log| - 1].term;
      var upToDate := req.last.term > lastTerm || (req.last.term == lastTerm && req.last.index >= |n.log|);
      && (Le(LastPos(n.log), req.last) <==> upToDate)
      && (reply.granted <==> n.term <= req.term && upToDate
                             && (n.term < req.term || n.votedFor == 0 || n.votedFor == req.sender))
      && (reply.granted ==> m.votedFor == req.sender && m.term == req.term)
      && m.term >= n.term && m.log == n.log
      && (m.term == n.term && n.votedFor != 0 ==> m.votedFor == n.votedFor && m.role == n.role)
  {
  }

  /** What a vote request leaves behind, granted or not: the greater term; a follower with no vote but the one it
      grants if the term was new; and nothing else. */
  lemma VoteRequestMeaning(n: Node, req: VoteRequest)
    ensures var (m, reply) := HandleRequestVote(n, req);
      && m.term == (if req.term > n.term then req.term else n.term) && reply.term == n.term
      && (req.term < n.term ==> m == n && !reply.granted)
      && (req.term == n.term ==> m.role == n.role && (!reply.granted ==> m.votedFor == n.votedFor))
      && (req.term > n.term ==> m.role == Follower && (m.votedFor == 0 <==> !reply.granted || req.sender == 0))
      && (reply.granted ==> m.votedFor == req.sender)
      && m.id == n.id && m.votes == n.votes && m.leaderId == n.leaderId && m.log == n.log
  {
  }

  /** The reply's term is that of the request exactly when the voter was already there: a caller
      that drops replies from other terms drops the grant of every voter that had to catch up. */
  lemma GrantTerm(n: Node, req: VoteRequest)
    requires HandleRequestVote(n, req).1.granted
    ensures HandleRequestVote(n, req).1.term <= req.term
    ensures HandleRequestVote(n, req).1.term == req.term <==> n.term == req.term
  {
  }

  /** A campaign is a candidacy of the next term with one vote, the node's own; becoming leader or follower leaves the
      log, and only stepping down the vote and the term, behind. */
  lemma RoleChanges(n: Node, term: nat)
    ensures forall m | m == StartElection(n) || m == BecomeCandidate(n) ::
      && m.role == Candidate && m.term == n.term + 1 && m.votedFor == n.id && m.votes == 1
      && m.log == n.log && m.id == n.id
    ensures StartElection(n).leaderId == n.leaderId && BecomeCandidate(n).leaderId == 0
    ensures var m := BecomeLeader(n);
      && m.role == Leader && m.leaderId == n.id
      && m.id == n.id && m.term == n.term && m.votedFor == n.votedFor && m.votes == n.votes && m.log == n.log
    ensures var m := BecomeFollower(n, term);
      m.role == Follower && m.term == term && m.votedFor == m.votes == m.leaderId == 0 && m.log == n.log && m.id == n.id
  {
  }

  /** Success means: the request is current and the log holds the entry it builds on. The log itself is left
      alone, and within a term so are the vote and the role, so a candidate stays one. */
  lemma AppendRequestMeaning(n: Node, req: AppendRequest)
    ensures var (m, reply) := HandleAppendEntries(n, req); var at := req.prev.index;
      && (reply.success <==> n.term <= req.term
                             && (at == 0 || (at <= |n.log| && n.log[at - 1].term == req.prev.term)))
      && m.term == (if req.term < n.term then n.term else req.term) && m.log == n.log && reply.term == n.term
      && (m.term == n.term ==> m.votedFor == n.votedFor && m.role == n.role)
      && (m.term != n.term ==> m.votedFor == 0 && m.role == Follower)
      && m.leaderId == (if n.term <= req.term then req.sender else n.leaderId) && m.id == n.id && m.votes == n.votes
  {
  }

  /** An append keeps the log in order exactly when its stamp is not older than the last entry, and
      then the last position strictly grows. */
  lemma AppendInOrder(n: Node, stamp: nat, kind: EntryKind, data: seq<byte>)
    requires GoodLog(n) && stamp <= n.term
    ensures var m := AppendEntry(n, stamp, kind, data);
      && (GoodLog(m) <==> LastPos(n.log).term <= stamp)
      && (Le(LastPos(n.log), LastPos(m.log)) <==> LastPos(n.log).term <= stamp)
      && LastPos(m.log) != LastPos(n.log) && |m.log| == |n.log| + 1 && m.log[..|n.log|] == n.log
      && var e := m.log[|n.log|];
         e.term == stamp && e.index == |m.log| && e.kind == kind && e.data == data
  {
    var m := AppendEntry(n, stamp, kind, data);
    assert forall k | 0 <= k < |n.log| :: m.log[k] == n.log[k];
    if n.log != [] {
      assert m.log[|n.log| - 1].term <= m.log[|n.log|].term <==> LastPos(n.log).term <= stamp;
    }
  }
}
