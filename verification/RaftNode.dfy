/** raft_node_t: the struct, its methods, and the state machine they drive. */
module StateMachine {
  import opened Bytes
  import opened CommandFrames
  import opened RaftCore

  /** The abstract apply callback: next machine state and result code. */
  type ApplyFn<!S> = (S, Command) -> (S, int)

  function Fold<S>(f: ApplyFn<S>, s: S, cs: seq<Command>): S {
    if cs == [] then s else Fold(f, f(s, cs[0]).0, cs[1..])
  }

  lemma FoldNil<S>(f: ApplyFn<S>, s: S)
    ensures Fold(f, s, []) == s
  {
  }

  /** states are those the machine goes through when each command is applied once, in order. */
  ghost predicate Linked<S>(f: ApplyFn<S>, states: seq<S>, cs: seq<Command>) {
    |states| == |cs| + 1 && forall k | 0 <= k < |cs| :: states[k + 1] == f(states[k], cs[k]).0
  }

  /** Applying each command of cs once, in order, takes s to t. */
  ghost predicate Ran<S(!new)>(f: ApplyFn<S>, s: S, cs: seq<Command>, t: S) {
    exists states :: Linked(f, states, cs) && states[0] == s && states[|cs|] == t
  }

  lemma {:induction false} LinkedFold<S>(f: ApplyFn<S>, states: seq<S>, cs: seq<Command>)
    requires Linked(f, states, cs)
    ensures states[|cs|] == Fold(f, states[0], cs)
    decreases |cs|
  {
    if cs != [] {
      assert states[1] == f(states[0], cs[0]).0;
      assert forall k | 0 <= k < |cs| - 1 :: states[1..][k + 1] == f(states[1..][k], cs[1..][k]).0;
      LinkedFold(f, states[1..], cs[1..]);
    }
  }

  lemma {:induction false} FoldLinked<S>(f: ApplyFn<S>, s: S, cs: seq<Command>) returns (states: seq<S>)
    ensures Linked(f, states, cs) && states[0] == s && states[|cs|] == Fold(f, s, cs)
    decreases |cs|
  {
    if cs == [] {
      states := [s];
    } else {
      var rest := FoldLinked(f, f(s, cs[0]).0, cs[1..]);
      states := [s] + rest;
      forall k | 0 <= k < |cs| ensures states[k + 1] == f(states[k], cs[k]).0 {
        if k > 0 { assert rest[k] == f(rest[k - 1], cs[1..][k - 1]).0; }
      }
    }
  }

  /** The fold is the one state that a single application of each command, in order, leads to. */
  lemma RanIsFold<S(!new)>(f: ApplyFn<S>, s: S, cs: seq<Command>, t: S)
    ensures Ran(f, s, cs, t) <==> t == Fold(f, s, cs)
  {
    hide Fold;
    if Ran(f, s, cs, t) {
      var states :| Linked(f, states, cs) && states[0] == s && states[|cs|] == t;
      LinkedFold(f, states, cs);
    }
    var states := FoldLinked(f, s, cs);
  }

  /** A machine that writes down what is applied to it. */
  function Recorder(s: seq<Command>, c: Command): (seq<Command>, int) {
    (s + [c], 0)
  }

  lemma {:induction false} FoldRecords(s: seq<Command>, cs: seq<Command>)
    ensures Fold(Recorder, s, cs) == s + cs
    decreases |cs|
  {
    if cs != [] {
      FoldRecords(s + [cs[0]], cs[1..]);
      assert s + [cs[0]] + cs[1..] == s + cs;
    }
  }

  lemma {:induction false} FoldConcat<S>(f: ApplyFn<S>, s: S, cs: seq<Command>, ds: seq<Command>)
    ensures Fold(f, s, cs + ds) == Fold(f, Fold(f, s, cs), ds)
    decreases |cs|
  {
    if cs == [] {
      assert cs + ds == ds;
    } else {
      assert (cs + ds)[1..] == cs[1..] + ds;
      FoldConcat(f, f(s, cs[0]).0, cs[1..], ds);
    }
  }

  /** The commands of an entry: none for a no-op, otherwise those its bytes spell. */
  function EntryCommands(e: Entry): seq<Command> {
    if e.kind == Noop then []
    else match Walk(e.data, 0)
      case None => []
      case Some(cs) => cs
  }

  /** A command entry holds a nonempty packing, as entries made from batches and from single commands do. */
  ghost predicate Decodable(e: Entry) {
    e.kind == CommandEntry ==> e.data != [] && Walk(e.data, 0).Some?
  }

  function LogCommands(log: seq<Entry>): seq<Command> {
    if log == [] then [] else LogCommands(log[..|log| - 1]) + EntryCommands(log[|log| - 1])
  }

  lemma LogCommandsSnoc(log: seq<Entry>, e: Entry)
    ensures LogCommands(log + [e]) == LogCommands(log) + EntryCommands(e)
  {
    assert (log + [e])[..|log|] == log;
  }

  function Max(a: nat, b: nat): nat { if a < b then b else a }
  function Min(a: nat, b: nat): nat { if a < b then a else b }

  /** The commands of the entries with indices above from, up to to. */
  function CommandsBetween(log: seq<Entry>, from: nat, to: nat): seq<Command>
    decreases to
  {
    if to <= from || to > |log| then [] else CommandsBetween(log, from, to - 1) + EntryCommands(log[to - 1])
  }

  lemma CommandsBetweenStep(log: seq<Entry>, from: nat, i: nat)
    requires from < i <= |log|
    ensures CommandsBetween(log, from, i) == CommandsBetween(log, from, i - 1) + EntryCommands(log[i - 1])
  {
  }

  /** The walk does not depend on where the block sits, as long as that is 8-aligned. */
  lemma WalkAnywhere(data: seq<byte>, base: nat)
    requires base % 8 == 0
    ensures Walk(data, base) == Walk(data, 0)
  {
    hide *;
    if Walk(data, base).Some? {
      WalkIffPacking(data, base, Walk(data, base).value);
      WalkIffPacking(data, 0, Walk(data, base).value);
    }
    if Walk(data, 0).Some? {
      WalkIffPacking(data, base, Walk(data, 0).value);
      WalkIffPacking(data, 0, Walk(data, 0).value);
    }
  }

  /** A block of one command is read by the single-command path, any longer block by the batch path. */
  lemma SingleOrBatch(data: seq<byte>)
    requires data != [] && Walk(data, 0).Some?
    ensures |data| > HEADER && ReadFrame(data, 0).Some?
    ensures var c := ReadFrame(data, 0).value;
      FrameLen(c) == LenAt(data) && (LenAt(data) < |data| <==> Walk(data, 0) != Some([c]))
  {
    hide Walk, ReadFrame, FrameLen, LenAt;
    WalkUnfold(data, 0);
    ReadLen(data, 0);
    var n := FrameLen(ReadFrame(data, 0).value);
    WalkUnfold(data[n..], n);
    var c, rest := ReadFrame(data, 0).value, Walk(data[n..], n).value;
    assert Walk(data, 0) == Some([c] + rest);
    assert n < |data| <==> rest != [];
    assert [c] + [] == [c];
  }
}

module RaftNodes {
  import opened Bytes
  import opened Integers
  import opened CommandFrames
  import opened RaftCore
  import opened StateMachine
  import opened Batcher
  import Pipeline

  const MAX_NODES: nat := 5

  class RaftNode<S(!new)> {
    const id: nat
    const apply: ApplyFn<S>
    const nextIndex: array<nat>
    const batcher: CommandBatcher
    var role: Role
    var term: nat
    var votedFor: nat
    var votes: nat
    var leaderId: nat
    var log: seq<Entry>
    var commitIndex: nat
    var lastApplied: nat
    var machine: S
    /** What the machine was at first, the blocks extracted but not yet appended, and the commands ever accepted. */
    ghost var initial: S
    ghost var pending: seq<seq<byte>>
    ghost var accepted: multiset<Command>

    /** The part of the struct the election handlers see. */
    function View(): Node
      reads this
    {
      Node(id, role, term, votedFor, votes, leaderId, log)
    }

    /** The part of the struct a client command passes through. */
    ghost function Path(): Pipeline.State<S>
      reads this, batcher, batcher.commands
    {
      Pipeline.State(batcher.View(), pending, log, commitIndex, lastApplied, machine, accepted)
    }

    /** Everything accepted is in the log, in an undelivered block or in the batch, once, and the machine has seen the
        log up to lastApplied. */
    ghost predicate Conserves()
      reads this, batcher, batcher.commands
    {
      Pipeline.Inv(apply, initial, Path())
    }

    /** next_index never passes the slot after the last entry. */
    ghost predicate Valid()
      reads this, nextIndex, batcher, batcher.commands
    {
      && nextIndex.Length == MAX_NODES && batcher.Valid()
      && forall i | 0 <= i < MAX_NODES :: 1 <= nextIndex[i] <= |log| + 1
    }

    constructor (id: nat, apply: ApplyFn<S>, machine: S)
      ensures Valid() && View() == InitNode(id) && Path() == Pipeline.Init(machine) && Conserves()
      ensures this.id == id && role == Follower && term == votedFor == votes == leaderId == 0 && log == []
      ensures commitIndex == lastApplied == 0 && this.machine == initial == machine && this.apply == apply
      ensures batcher.View() == EMPTY && fresh(nextIndex) && fresh(batcher) && fresh(batcher.commands)
    {
      this.id, this.apply, this.machine := id, apply, machine;
      nextIndex := new nat[MAX_NODES](_ => 1);
      batcher := new CommandBatcher();
      role, term, votedFor, votes, leaderId, log := Follower, 0, 0, 0, 0, [];
      commitIndex, lastApplied := 0, 0;
      initial, pending, accepted := machine, [], multiset{};
      new;
      Pipeline.InitInv(apply, machine);
    }

    method BecomeFollower(term: nat)
      modifies this`role, this`term, this`votedFor, this`votes, this`leaderId
      ensures View() == RaftCore.BecomeFollower(old(View()), term)
      ensures role == Follower && this.term == term && votedFor == votes == leaderId == 0
    {
      role, this.term, votedFor, votes, leaderId := Follower, term, 0, 0, 0;
    }

    method StartElection()
      modifies this`role, this`term, this`votedFor, this`votes
      ensures View() == RaftCore.StartElection(old(View()))
      ensures role == Candidate && term == old(term) + 1 && votedFor == id && votes == 1
    {
      role := Candidate;
      term := term + 1;
      votedFor := id;
      votes := 1;
    }

    method BecomeCandidate()
      modifies this`role, this`term, this`votedFor, this`votes, this`leaderId
      ensures View() == RaftCore.BecomeCandidate(old(View()))
      ensures role == Candidate && term == old(term) + 1 && votedFor == id && votes == 1 && leaderId == 0
    {
      role := Candidate;
      term := term + 1;
      votedFor := id;
      votes := 1;
      leaderId := 0;
    }

    method BecomeLeader()
      requires Valid()
      modifies this`role, this`leaderId, nextIndex
      ensures Valid() && View() == RaftCore.BecomeLeader(old(View()))
      ensures role == Leader && leaderId == id
      ensures term == old(term) && votedFor == old(votedFor) && votes == old(votes) && log == old(log)
      ensures forall i | 0 <= i < MAX_NODES :: nextIndex[i] == |log| + 1
    {
      role, leaderId := Leader, id;
      for i := 0 to MAX_NODES
        invariant forall j | 0 <= j < i :: nextIndex[j] == |log| + 1
        invariant Valid() && View() == RaftCore.BecomeLeader(old(View()))
      {
        nextIndex[i] := |log| + 1;
      }
    }

    method RecordVote() returns (majority: bool)
      modifies this`votes
      ensures (View(), majority) == RaftCore.RecordVote(old(View()), MAX_NODES)
      ensures votes == old(votes) + (if role == Candidate then 1 else 0)
      ensures majority <==> role == Candidate && votes > MAX_NODES / 2
    {
      if role != Candidate { return false; }
      votes := votes + 1;
      majority := votes > MAX_NODES / 2;
    }

    method HandleRequestVote(req: VoteRequest) returns (reply: VoteReply)
      modifies this`role, this`term, this`votedFor
      ensures (View(), reply) == RaftCore.HandleRequestVote(old(View()), req)
      ensures term == Max(old(term), req.term) && reply.term == old(term)
      ensures req.term > old(term) ==> role == Follower && votedFor == if reply.granted then req.sender else 0
    {
      reply := VoteReply(term, false);
      if req.term < term { return; }
      if req.term > term {
        term, role, votedFor := req.term, Follower, 0;
      }
      var lastIndex := |log|;
      var lastTerm := if lastIndex > 0 then log[lastIndex - 1].term else 0;
      var logOk := false;
      if req.last.term > lastTerm {
        logOk := true;
      } else if req.last.term == lastTerm && req.last.index >= lastIndex {
        logOk := true;
      }
      if (votedFor == 0 || votedFor == req.sender) && logOk {
        reply := reply.(granted := true);
        votedFor := req.sender;
      }
    }

    method HandleAppendEntries(req: AppendRequest) returns (reply: AppendReply)
      modifies this`role, this`term, this`votedFor, this`leaderId
      ensures (View(), reply) == RaftCore.HandleAppendEntries(old(View()), req)
      ensures term == Max(old(term), req.term) && reply.term == old(term)
      ensures req.term > old(term) ==> role == Follower && votedFor == 0
    {
      reply := AppendReply(term, false);
      if req.term < term { return; }
      if req.term > term {
        term, votedFor, role := req.term, 0, Follower;
      }
      leaderId := req.sender;
      if req.prev.index > 0 {
        if req.prev.index > |log| { return; }
        if log[req.prev.index - 1].term != req.prev.term { return; }
      }
      reply := reply.(success := true);
    }

    /** raft_append_entry; the index is assigned here. */
    method AppendEntry(stamp: nat, kind: EntryKind, data: seq<byte>)
      requires Valid()
      modifies this`log
      ensures Valid() && View() == RaftCore.AppendEntry(old(View()), stamp, kind, data)
      ensures log == old(log) + [Entry(stamp, |old(log)| + 1, kind, data)]
      ensures kind == Noop && data == [] ==>
        Path() == Pipeline.Apply(apply, old(Path()), Pipeline.AppendNoop(stamp)) && (old(Conserves()) ==> Conserves())
    {
      hide Pipeline.Inv;
      ghost var was := Path();
      log := log + [Entry(stamp, |log| + 1, kind, data)];
      if kind == Noop && data == [] {
        assert Path() == Pipeline.Apply(apply, was, Pipeline.AppendNoop(stamp));
        Pipeline.StepKeeps(apply, initial, was, Pipeline.AppendNoop(stamp));
      }
    }

    /** From was, exactly the peers that lag behind the log have moved on by one, if moved. */
    ghost predicate LaggingMoved(was: seq<nat>, moved: bool)
      reads this, nextIndex
    {
      nextIndex.Length == |was| && forall i | 0 <= i < |was| ::
        nextIndex[i] == was[i] + if moved && i != id && was[i] <= |log| then 1 else 0
    }

    /** raft_replicate_logs: every peer that lags is moved on by one. */
    method ReplicateLogs() returns (ok: bool)
      requires Valid()
      modifies nextIndex
      ensures Valid() && ok == (role == Leader) && LaggingMoved(old(nextIndex[..]), ok)
    {
      if role != Leader { return false; }
      for i := 0 to MAX_NODES
        invariant forall j | 0 <= j < i ::
          nextIndex[j] == old(nextIndex[j]) + if j != id && old(nextIndex[j]) <= |log| then 1 else 0
        invariant forall j | i <= j < MAX_NODES :: nextIndex[j] == old(nextIndex[j])
      {
        if i != id && nextIndex[i] <= |log| {
          nextIndex[i] := nextIndex[i] + 1;
        }
      }
      ok := true;
    }

    /** What the batcher's threads do under its lock: a nonempty batch is taken out, to be delivered later. */
    method TakeBatch() returns (batch: Option<Batch>)
      requires Valid()
      modifies this`pending, batcher, batcher.commands
      ensures Valid() && (batch.Some? <==> old(batcher.View()) != EMPTY)
      ensures batch.Some? ==> Path() == Pipeline.Apply(apply, old(Path()), Pipeline.Extract)
                              && pending == old(pending) + [batch.value.bytes]
      ensures batch.None? ==> Path() == old(Path())
      ensures old(Conserves()) ==> Conserves()
    {
      hide Pipeline.Inv;
      ghost var was := Path();
      batch := batcher.Extract();
      if batch.Some? {
        pending := pending + [batch.value.bytes];
        assert Path() == Pipeline.Apply(apply, was, Pipeline.Extract);
        Pipeline.StepKeeps(apply, initial, was, Pipeline.Extract);
      }
    }

    /** process_raft_batch: the batcher's callback. The batch is usually the block numbered i of those taken out. */
    method ProcessBatch(batch: Batch, ghost i: nat)
      requires Valid()
      modifies this`log, this`pending, nextIndex
      ensures Valid() && LaggingMoved(old(nextIndex[..]), role == Leader)
      ensures log == old(log) + [Entry(term, |old(log)| + 1, CommandEntry, batch.bytes)]
      ensures LogCommands(log) == LogCommands(old(log)) + Pipeline.Decoded(batch.bytes)
      ensures old(i < |pending| && pending[i] == batch.bytes) ==>
        Path() == Pipeline.Apply(apply, old(Path()), Pipeline.Deliver(i, term)) && (old(Conserves()) ==> Conserves())
    {
      hide Pipeline.Inv, LogCommands, Walk;
      ghost var was := Path();
      AppendEntry(term, CommandEntry, batch.bytes);
      LogCommandsSnoc(was.log, Entry(term, |was.log| + 1, CommandEntry, batch.bytes));
      if role == Leader {
        var _ := ReplicateLogs();
      }
      if i < |pending| && pending[i] == batch.bytes {
        pending := Pipeline.Without(pending, i);
        assert Path() == Pipeline.Apply(apply, was, Pipeline.Deliver(i, term));
        Pipeline.StepKeeps(apply, initial, was, Pipeline.Deliver(i, term));
      }
    }

    /** raft_handle_client_command on the bytes of one frame: -2 when not leader; otherwise the frame
        joins the batch, or becomes an entry of its own when the batcher refuses it. */
    method HandleClientCommand(frame: seq<byte>, ghost c: Command) returns (code: int)
      requires Valid() && frame != []
      modifies this`log, this`pending, this`accepted, nextIndex, batcher, batcher.commands
      ensures Valid() && code == (if role == Leader then 0 else -2)
      ensures role != Leader ==> Path() == old(Path())
      ensures LaggingMoved(old(nextIndex[..]), role == Leader && !Add(old(batcher.View()), frame).1)
      ensures role == Leader ==>
        var (b, added) := Add(old(batcher.View()), frame);
        && batcher.View() == b
        && log == old(log) + (if added then [] else [Entry(term, |old(log)| + 1, CommandEntry, frame)])
        && LogCommands(log) == LogCommands(old(log)) + (if added then [] else Pipeline.Decoded(frame))
      ensures role == Leader ==> Path() == Pipeline.Handled(apply, old(Path()), frame, c, term)
      ensures old(Conserves()) && Represents(frame, c) && |frame| < U32 ==> Conserves()
    {
      hide Pipeline.Inv, Pipeline.Handled, Pipeline.Apply, LogCommands, Walk, Represents;
      if role != Leader { return -2; }
      ghost var was := Path();
      var added := batcher.AddCommand(frame);
      if !added {
        AppendEntry(term, CommandEntry, frame);
        LogCommandsSnoc(was.log, Entry(term, |was.log| + 1, CommandEntry, frame));
        var _ := ReplicateLogs();
      } else {
        assert was.log + [] == was.log && LogCommands(was.log) + [] == LogCommands(was.log);
      }
      accepted := accepted + multiset{c};
      Pipeline.HandledIs(apply, was, frame, c, term);
      if Represents(frame, c) && |frame| < U32 {
        Pipeline.HandledKeeps(apply, initial, was, frame, c, term);
      }
      code := 0;
    }

    /** apply_command_batch: every command of the block, once and in order. */
    method ApplyCommandBatch(data: seq<byte>, address: nat)
      requires address % 8 == 0 && Walk(data, address).Some?
      modifies this`machine
      ensures Ran(apply, old(machine), Walk(data, address).value, machine)
    {
      hide Walk, ReadFrame, FrameLen, Ran;
      var offset := 0;
      WalkUnfold(data, address);
      ghost var cs := Walk(data, address).value;
      assert data[0..] == data;
      while offset < |data|
        invariant offset <= |data|
        invariant Walk(data[offset..], address + offset).Some?
        invariant Fold(apply, machine, Walk(data[offset..], address + offset).value) == Fold(apply, old(machine), cs)
      {
        ghost var rest := data[offset..];
        WalkUnfold(rest, address + offset);
        var cmd := ReadFrame(data[offset..], address + offset).value;
        machine := apply(machine, cmd).0;
        assert rest[FrameLen(cmd)..] == data[offset + FrameLen(cmd)..];
        offset := offset + FrameLen(cmd);
      }
      WalkUnfold([], address + offset);
      assert data[offset..] == [];
      RanIsFold(apply, old(machine), cs, machine);
    }

    /** raft_apply_committed_entries: each command of the entries up to the new lastApplied, once and in order. */
    method ApplyCommitted()
      requires forall k | 0 <= k < |log| :: Decodable(log[k])
      modifies this`machine, this`lastApplied
      ensures lastApplied == Max(old(lastApplied), Min(commitIndex, |log|))
      ensures Ran(apply, old(machine), CommandsBetween(log, old(lastApplied), lastApplied), machine)
      ensures Path() == Pipeline.Apply(apply, old(Path()), Pipeline.ApplyPass) && (old(Conserves()) ==> Conserves())
    {
      hide Walk, Fold, Ran, Pipeline.Inv;
      ghost var was := Path();
      ApplyEntries();
      RanIsFold(apply, was.machine, CommandsBetween(log, was.applied, lastApplied), machine);
      assert Path() == Pipeline.Apply(apply, was, Pipeline.ApplyPass);
      Pipeline.StepKeeps(apply, initial, was, Pipeline.ApplyPass);
    }

    /** Its loop. */
    method ApplyEntries()
      requires forall k | 0 <= k < |log| :: Decodable(log[k])
      modifies this`machine, this`lastApplied
      ensures lastApplied == Max(old(lastApplied), Min(commitIndex, |log|))
      ensures Ran(apply, old(machine), CommandsBetween(log, old(lastApplied), lastApplied), machine)
    {
      hide Walk, Fold, Ran;
      FoldNil(apply, machine);
      ghost var from := lastApplied;
      if lastApplied >= commitIndex {
        assert CommandsBetween(log, lastApplied, lastApplied) == [];
        RanIsFold(apply, machine, [], machine);
        return;
      }
      var i := lastApplied + 1;
      while i <= commitIndex && i <= |log|
        invariant lastApplied == i - 1 && from < i
        invariant from <= lastApplied <= Max(from, Min(commitIndex, |log|))
        invariant machine == Fold(apply, old(machine), CommandsBetween(log, from, lastApplied))
      {
        var entry := log[i - 1];
        CommandsBetweenStep(log, from, i);
        FoldConcat(apply, old(machine), CommandsBetween(log, from, i - 1), EntryCommands(entry));
        FoldNil(apply, machine);
        if entry.kind == CommandEntry {
          ghost var before := machine;
          ApplyEntry(entry.data);
          RanIsFold(apply, before, EntryCommands(entry), machine);
        }
        lastApplied := i;
        i := i + 1;
      }
      RanIsFold(apply, old(machine), CommandsBetween(log, from, lastApplied), machine);
    }

    /** The two ways raft_apply_committed_entries treats the data of a command entry. */
    method ApplyEntry(data: seq<byte>)
      requires data != [] && Walk(data, 0).Some?
      modifies this`machine
      ensures Ran(apply, old(machine), Walk(data, 0).value, machine)
    {
      hide Walk, ReadFrame, LenAt, Ran;
      SingleOrBatch(data);
      if |data| > HEADER && LenAt(data) < |data| {
        ApplyCommandBatch(data, 0);
      } else {
        machine := apply(machine, ReadFrame(data, 0).value).0;
        RanIsFold(apply, old(machine), Walk(data, 0).value, machine);
      }
    }
  }
}
