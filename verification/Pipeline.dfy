/**
 The path of a client command on one node: raft_handle_client_command, the batcher, the log and the
 apply thread, interleaved at the granularity of their locks. A block is what will become one log
 entry: an extracted batch, or the frame of a command the batcher refused.
 */
module Pipeline {
  import opened Bytes
  import opened Integers
  import opened CommandFrames
  import opened RaftCore
  import opened StateMachine
  import opened Batcher

  /** pending holds the blocks taken out of the lock but not yet appended, whoever holds them;
      accepted is history. */
  datatype State<S> = State(batch: Batch, pending: seq<seq<byte>>, log: seq<Entry>, commit: nat, applied: nat,
                            machine: S, accepted: multiset<Command>)

  datatype Step =
    | Accept(frame: seq<byte>, command: Command)
    | Extract
    | Deliver(i: nat, stamp: nat)
    | AppendNoop(stamp: nat)
    | Commit(to: nat)
    | ApplyPass

  function Init<S>(s: S): State<S> {
    State(EMPTY, [], [], 0, 0, s, multiset{})
  }

  /** Commands come as whole frames shorter than 2^32 bytes; commit_index grows by the environment. */
  ghost predicate Enabled<S>(s: State<S>, step: Step) {
    match step
    case Accept(frame, c) => Represents(frame, c) && |frame| < U32
    case Extract => s.batch.count > 0
    case Deliver(i, _) => i < |s.pending|
    case AppendNoop(_) => true
    case Commit(to) => to >= s.commit
    case ApplyPass => true
  }

  function Without<T>(p: seq<T>, i: nat): seq<T>
    requires i < |p|
  {
    p[..i] + p[i + 1..]
  }

  function Apply<S>(f: ApplyFn<S>, s: State<S>, step: Step): State<S>
    requires step.Deliver? ==> step.i < |s.pending|
  {
    match step
    case Accept(frame, c) =>
      var (b, ok) := Add(s.batch, frame);
      s.(batch := b, pending := if ok then s.pending else s.pending + [frame], accepted := s.accepted + multiset{c})
    case Extract => s.(batch := EMPTY, pending := s.pending + [s.batch.bytes])
    case Deliver(i, stamp) =>
      s.(pending := Without(s.pending, i),
         log := s.log + [Entry(stamp, |s.log| + 1, CommandEntry, s.pending[i])])
    case AppendNoop(stamp) => s.(log := s.log + [Entry(stamp, |s.log| + 1, Noop, [])])
    case Commit(to) => s.(commit := to)
    case ApplyPass =>
      var to := Max(s.applied, Min(s.commit, |s.log|));
      s.(applied := to, machine := Fold(f, s.machine, CommandsBetween(s.log, s.applied, to)))
  }

  // ----- Decoding -----

  ghost predicate IsBlock(b: seq<byte>) {
    b != [] && Walk(b, 0).Some?
  }

  function Decoded(b: seq<byte>): seq<Command> {
    match Walk(b, 0)
    case None => []
    case Some(cs) => cs
  }

  function PendingCommands(p: seq<seq<byte>>): multiset<Command> {
    if p == [] then multiset{} else multiset(Decoded(p[0])) + PendingCommands(p[1..])
  }

  lemma AddAssociates<T>(a: multiset<T>, b: multiset<T>, c: multiset<T>)
    ensures a + (b + c) == a + b + c
  {
  }

  lemma PendingCons(b: seq<byte>, p: seq<seq<byte>>)
    ensures PendingCommands([b] + p) == multiset(Decoded(b)) + PendingCommands(p)
  {
    hide Decoded;
    assert ([b] + p)[1..] == p;
  }

  lemma {:induction false} PendingConcat(p: seq<seq<byte>>, q: seq<seq<byte>>)
    ensures PendingCommands(p + q) == PendingCommands(p) + PendingCommands(q)
  {
    hide Decoded, PendingCommands;
    if p == [] {
      PendingNone();
      assert p + q == q;
    } else {
      var b, r := p[0], p[1..];
      assert p == [b] + r && p + q == [b] + (r + q);
      PendingCons(b, r);
      PendingCons(b, r + q);
      PendingConcat(r, q);
      AddAssociates(multiset(Decoded(b)), PendingCommands(r), PendingCommands(q));
    }
  }

  lemma PendingNone()
    ensures PendingCommands([]) == multiset{}
  {
  }

  lemma PendingOne(b: seq<byte>)
    ensures PendingCommands([b]) == multiset(Decoded(b))
  {
    hide Decoded;
    assert [b][1..] == [];
  }

  lemma PendingWithout(p: seq<seq<byte>>, i: nat)
    requires i < |p|
    ensures PendingCommands(p) == PendingCommands(Without(p, i)) + multiset(Decoded(p[i]))
  {
    hide PendingCommands, Decoded;
    assert p == p[..i] + ([p[i]] + p[i + 1..]);
    PendingConcat(p[..i], [p[i]] + p[i + 1..]);
    PendingConcat([p[i]], p[i + 1..]);
    PendingConcat(p[..i], p[i + 1..]);
    PendingOne(p[i]);
  }

  lemma DecodeAppend(a: seq<byte>, cs: seq<Command>, frame: seq<byte>, c: Command)
    requires Walk(a, 0) == Some(cs) && Represents(frame, c)
    ensures Walk(a + frame, 0) == Some(cs + [c])
  {
    hide Walk, Represents;
    var frames := WalkedFrames(a, 0, cs);
    var all, ds := frames + [frame], cs + [c];
    FlattenConcat(frames, [frame]);
    FlattenOne(frame);
    assert Spell(all, ds);
    WalkFrames(all, 0, ds);
  }

  lemma FlattenOne(b: seq<byte>)
    ensures Flatten([b]) == b
  {
    assert [b][1..] == [];
  }

  // ----- Invariants -----

  /** Everything that will be or has been logged decodes. */
  ghost predicate Decodes<S>(s: State<S>) {
    && s.batch.Ok() && Walk(s.batch.bytes, 0).Some?
    && (forall i | 0 <= i < |s.pending| :: IsBlock(s.pending[i]))
    && (forall k | 0 <= k < |s.log| :: Decodable(s.log[k]))
  }

  /** Accepted commands are in the log, in an undelivered block or in the batch, each exactly once. */
  ghost predicate Conserved<S>(s: State<S>) {
    s.accepted == multiset(LogCommands(s.log)) + PendingCommands(s.pending) + multiset(Decoded(s.batch.bytes))
  }

  /** The machine has seen exactly the commands of the entries up to applied, once and in order. */
  ghost predicate Refines<S>(f: ApplyFn<S>, s0: S, s: State<S>) {
    s.applied <= |s.log| && s.machine == Fold(f, s0, LogCommands(s.log[..s.applied]))
  }

  ghost predicate Inv<S>(f: ApplyFn<S>, s0: S, s: State<S>) {
    Decodes(s) && Conserved(s) && Refines(f, s0, s)
  }

  lemma InitInv<S>(f: ApplyFn<S>, s0: S)
    ensures Inv(f, s0, Init(s0))
  {
  }

  /** A frame decodes on its own, and behind the batch if it fits. */
  lemma AddDecodes(b: Batch, frame: seq<byte>, c: Command)
    requires b.Ok() && Walk(b.bytes, 0).Some? && Represents(frame, c) && |frame| < U32
    ensures IsBlock(frame) && Decoded(frame) == [c]
    ensures var (after, ok) := Add(b, frame);
      && after.Ok() && Walk(after.bytes, 0).Some?
      && Decoded(after.bytes) == if ok then Decoded(b.bytes) + [c] else Decoded(b.bytes)
  {
    AddStoresWhole(b, frame);
    hide Walk, Represents, Add;
    DecodeAppend(b.bytes, Decoded(b.bytes), frame, c);
    WalkUnfold([], 0);
    DecodeAppend([], [], frame, c);
    assert [] + frame == frame && [] + [c] == [c];
    NotEmpty(frame, c);
  }

  lemma AcceptDecodes<S>(f: ApplyFn<S>, s: State<S>, frame: seq<byte>, c: Command)
    requires Decodes(s) && Represents(frame, c) && |frame| < U32
    ensures Decodes(Apply(f, s, Accept(frame, c)))
  {
    hide Walk, Represents, Add, IsBlock, Decodable, Decoded;
    AddDecodes(s.batch, frame, c);
  }

  lemma AcceptConserves<S>(f: ApplyFn<S>, s: State<S>, frame: seq<byte>, c: Command)
    requires Decodes(s) && Conserved(s) && Represents(frame, c) && |frame| < U32
    ensures var t := Apply(f, s, Accept(frame, c)); Conserved(t) && t.accepted == s.accepted + multiset{c}
  {
    AddDecodes(s.batch, frame, c);
    hide Decodes, Represents, LogCommands, PendingCommands, Add, Decoded, Walk, IsBlock;
    PendingConcat(s.pending, [frame]);
    PendingOne(frame);
  }

  lemma NotEmpty(frame: seq<byte>, c: Command)
    requires Represents(frame, c)
    ensures frame != []
  {
    FrameLens(c);
  }

  lemma ExtractKeeps<S>(f: ApplyFn<S>, s: State<S>)
    requires Decodes(s) && Conserved(s) && s.batch.count > 0
    ensures var t := Apply(f, s, Extract); Decodes(t) && Conserved(t)
  {
    hide Walk, LogCommands, PendingCommands, Decodable;
    WalkUnfold([], 0);
    PendingConcat(s.pending, [s.batch.bytes]);
    PendingOne(s.batch.bytes);
  }

  lemma DeliverKeeps<S>(f: ApplyFn<S>, s: State<S>, i: nat, stamp: nat)
    requires Decodes(s) && Conserved(s) && i < |s.pending|
    ensures var t := Apply(f, s, Deliver(i, stamp)); Decodes(t) && Conserved(t)
  {
    hide Walk, LogCommands, PendingCommands;
    assert IsBlock(s.pending[i]);
    PendingWithout(s.pending, i);
    LogCommandsSnoc(s.log, Entry(stamp, |s.log| + 1, CommandEntry, s.pending[i]));
  }

  lemma AppendRefines<S>(f: ApplyFn<S>, s0: S, s: State<S>, t: State<S>, e: Entry)
    requires Refines(f, s0, s) && t.log == s.log + [e] && t.applied == s.applied && t.machine == s.machine
    ensures Refines(f, s0, t)
  {
    hide Fold, LogCommands;
    assert t.log[..t.applied] == s.log[..s.applied];
  }

  lemma {:induction false} BetweenIsSuffix(log: seq<Entry>, start: nat, end: nat)
    requires start <= end <= |log|
    ensures LogCommands(log[..end]) == LogCommands(log[..start]) + CommandsBetween(log, start, end)
    decreases end
  {
    hide EntryCommands;
    if end > start {
      BetweenIsSuffix(log, start, end - 1);
      assert log[..end][..end - 1] == log[..end - 1];
      var a, b, c := LogCommands(log[..start]), CommandsBetween(log, start, end - 1), EntryCommands(log[end - 1]);
      assert (a + b) + c == a + (b + c);
    }
  }

  lemma ApplyRefines<S>(f: ApplyFn<S>, s0: S, s: State<S>)
    requires Refines(f, s0, s)
    ensures Refines(f, s0, Apply(f, s, ApplyPass))
    ensures Apply(f, s, ApplyPass).applied == Max(s.applied, Min(s.commit, |s.log|))
  {
    hide Fold, LogCommands, CommandsBetween;
    var to := Max(s.applied, Min(s.commit, |s.log|));
    BetweenIsSuffix(s.log, s.applied, to);
    FoldConcat(f, s0, LogCommands(s.log[..s.applied]), CommandsBetween(s.log, s.applied, to));
  }

  lemma StepKeepsInv<S>(f: ApplyFn<S>, s0: S, s: State<S>, step: Step)
    requires Inv(f, s0, s) && Enabled(s, step)
    ensures Inv(f, s0, Apply(f, s, step))
  {
    hide Walk, LogCommands, PendingCommands, Decoded, Fold, Represents, CommandsBetween;
    var t := Apply(f, s, step);
    match step
    case Accept(frame, c) => AcceptDecodes(f, s, frame, c); AcceptConserves(f, s, frame, c);
    case Extract => ExtractKeeps(f, s);
    case Deliver(i, stamp) => DeliverKeeps(f, s, i, stamp); AppendRefines(f, s0, s, t, t.log[|s.log|]);
    case AppendNoop(stamp) =>
      LogCommandsSnoc(s.log, t.log[|s.log|]);
      AppendRefines(f, s0, s, t, t.log[|s.log|]);
    case Commit(_) =>
    case ApplyPass => ApplyRefines(f, s0, s);
  }

  lemma StepKeeps<S>(f: ApplyFn<S>, s0: S, s: State<S>, step: Step)
    requires Enabled(s, step)
    ensures Inv(f, s0, s) ==> Inv(f, s0, Apply(f, s, step))
  {
    hide Inv, Apply, Enabled;
    if Inv(f, s0, s) { StepKeepsInv(f, s0, s, step); }
  }

  // ----- raft_handle_client_command as a whole -----

  /** A frame is accepted; if the batcher refuses it, it becomes an entry at once. */
  function Handled<S>(f: ApplyFn<S>, s: State<S>, frame: seq<byte>, c: Command, stamp: nat): State<S> {
    var t := Apply(f, s, Accept(frame, c));
    if Add(s.batch, frame).1 then t else Apply(f, t, Deliver(|s.pending|, stamp))
  }

  lemma HandledIs<S>(f: ApplyFn<S>, s: State<S>, frame: seq<byte>, c: Command, stamp: nat)
    ensures Handled(f, s, frame, c, stamp) ==
      var (b, ok) := Add(s.batch, frame);
      s.(batch := b, log := if ok then s.log else s.log + [Entry(stamp, |s.log| + 1, CommandEntry, frame)],
         accepted := s.accepted + multiset{c})
  {
    assert Without(s.pending + [frame], |s.pending|) == s.pending;
  }

  lemma HandledKeeps<S>(f: ApplyFn<S>, s0: S, s: State<S>, frame: seq<byte>, c: Command, stamp: nat)
    requires Represents(frame, c) && |frame| < U32
    ensures Inv(f, s0, s) ==> Inv(f, s0, Handled(f, s, frame, c, stamp))
  {
    hide Inv, Represents, Add;
    var t := Apply(f, s, Accept(frame, c));
    StepKeeps(f, s0, s, Accept(frame, c));
    if !Add(s.batch, frame).1 { StepKeeps(f, s0, t, Deliver(|s.pending|, stamp)); }
  }

  ghost predicate IsRun<S>(f: ApplyFn<S>, tr: seq<State<S>>, steps: seq<Step>) {
    && |tr| == |steps| + 1
    && forall k | 0 <= k < |steps| :: Enabled(tr[k], steps[k]) && tr[k + 1] == Apply(f, tr[k], steps[k])
  }

  /** Conservation and apply refinement in every state of every run: the machine has come from s0 by one application of
      each command of the entries up to applied, in order. */
  lemma {:induction false} RunInv<S(!new)>(f: ApplyFn<S>, s0: S, tr: seq<State<S>>, steps: seq<Step>)
    requires IsRun(f, tr, steps) && tr[0] == Init(s0)
    ensures forall k | 0 <= k < |tr| :: Inv(f, s0, tr[k])
    ensures forall k | 0 <= k < |tr| ::
      tr[k].applied <= |tr[k].log| && Ran(f, s0, LogCommands(tr[k].log[..tr[k].applied]), tr[k].machine)
  {
    hide Inv, Apply, Enabled, Init, Ran, LogCommands;
    InitInv(f, s0);
    RunKeepsInv(f, s0, tr, steps);
    forall k | 0 <= k < |tr|
      ensures tr[k].applied <= |tr[k].log| && Ran(f, s0, LogCommands(tr[k].log[..tr[k].applied]), tr[k].machine)
    {
      RefinesRan(f, s0, tr[k]);
    }
  }

  lemma RefinesRan<S(!new)>(f: ApplyFn<S>, s0: S, s: State<S>)
    requires Inv(f, s0, s)
    ensures s.applied <= |s.log| && Ran(f, s0, LogCommands(s.log[..s.applied]), s.machine)
  {
    hide Decodes, Conserved, Ran, Fold, LogCommands;
    RanIsFold(f, s0, LogCommands(s.log[..s.applied]), s.machine);
  }

  ghost predicate Quiescent<S>(s: State<S>) {
    s.batch == EMPTY && s.pending == [] && s.applied == |s.log|
  }

  lemma QuiescentOnce<S(!new)>(f: ApplyFn<S>, s0: S, s: State<S>)
    requires Inv(f, s0, s) && Quiescent(s)
    ensures Ran(f, s0, LogCommands(s.log), s.machine) && multiset(LogCommands(s.log)) == s.accepted
  {
    RefinesRan(f, s0, s);
    hide LogCommands, Fold, Walk, Decodes, Ran;
    assert s.log[..s.applied] == s.log;
    WalkUnfold([], 0);
  }

  /** When nothing is pending and the log is applied to its end, the machine has come from s0 by one application of each
      accepted command, in the order of the log. */
  lemma QuiescentExactlyOnce<S(!new)>(f: ApplyFn<S>, s0: S, tr: seq<State<S>>, steps: seq<Step>)
    requires IsRun(f, tr, steps) && tr[0] == Init(s0) && Quiescent(tr[|steps|])
    ensures var s := tr[|steps|];
      Ran(f, s0, LogCommands(s.log), s.machine) && multiset(LogCommands(s.log)) == s.accepted
  {
    hide *;
    RunInv(f, s0, tr, steps);
    RunLength(f, tr, steps);
    QuiescentOnce(f, s0, tr[|steps|]);
  }

  lemma RunLength<S>(f: ApplyFn<S>, tr: seq<State<S>>, steps: seq<Step>)
    requires IsRun(f, tr, steps)
    ensures |tr| == |steps| + 1
  {
    hide Apply, Enabled;
  }

  // ----- Progress -----

  lemma RunCons<S>(f: ApplyFn<S>, s: State<S>, step: Step, tr: seq<State<S>>, steps: seq<Step>)
    requires IsRun(f, tr, steps) && Enabled(s, step) && tr[0] == Apply(f, s, step)
    ensures IsRun(f, [s] + tr, [step] + steps) && ([s] + tr)[|steps| + 1] == tr[|steps|]
  {
    hide Apply, Represents;
    var tr', steps' := [s] + tr, [step] + steps;
    forall k | 0 <= k < |steps'| ensures Enabled(tr'[k], steps'[k]) && tr'[k + 1] == Apply(f, tr'[k], steps'[k]) {
      if k > 0 { assert tr'[k] == tr[k - 1] && tr'[k + 1] == tr[k] && steps'[k] == steps[k - 1]; }
    }
  }

  lemma {:induction false} DrainPending<S>(f: ApplyFn<S>, s0: S, s: State<S>, stamp: nat)
      returns (tr: seq<State<S>>, steps: seq<Step>)
    requires Inv(f, s0, s) && s.batch == EMPTY
    ensures IsRun(f, tr, steps) && tr[0] == s && Quiescent(tr[|steps|]) && tr[|steps|].accepted == s.accepted
    decreases |s.pending|
  {
    hide Inv, Fold, CommandsBetween;
    if s.pending == [] {
      AppliedInLog(f, s0, s);
      var commit := Commit(Max(s.commit, |s.log|));
      var t := Apply(f, s, commit);
      tr, steps := [s, t, Apply(f, t, ApplyPass)], [commit, ApplyPass];
    } else {
      var step := Deliver(0, stamp);
      StepKeepsInv(f, s0, s, step);
      tr, steps := DrainPending(f, s0, Apply(f, s, step), stamp);
      RunCons(f, s, step, tr, steps);
      tr, steps := [s] + tr, [step] + steps;
    }
  }

  lemma AppliedInLog<S>(f: ApplyFn<S>, s0: S, s: State<S>)
    requires Inv(f, s0, s)
    ensures s.applied <= |s.log| && s.batch.Ok()
  {
    hide Fold, LogCommands, Conserved, Walk;
  }

  /** From every state of every run, extracting, delivering, committing and applying reach a state in which each
      command accepted so far has been applied once. */
  lemma Drains<S(!new)>(f: ApplyFn<S>, s0: S, s: State<S>, stamp: nat) returns (tr: seq<State<S>>, steps: seq<Step>)
    requires Inv(f, s0, s)
    ensures IsRun(f, tr, steps) && tr[0] == s
    ensures var t := tr[|steps|];
      Quiescent(t) && Ran(f, s0, LogCommands(t.log), t.machine) && multiset(LogCommands(t.log)) == s.accepted
  {
    hide Inv, LogCommands, Ran, Apply, Quiescent;
    AppliedInLog(f, s0, s);
    if s.batch.count > 0 {
      StepKeepsInv(f, s0, s, Extract);
      Extraction(f, s);
      tr, steps := DrainPending(f, s0, Apply(f, s, Extract), stamp);
      RunCons(f, s, Extract, tr, steps);
      tr, steps := [s] + tr, [Extract] + steps;
    } else {
      tr, steps := DrainPending(f, s0, s, stamp);
    }
    RunKeepsInv(f, s0, tr, steps);
    QuiescentOnce(f, s0, tr[|steps|]);
  }

  lemma Extraction<S>(f: ApplyFn<S>, s: State<S>)
    requires s.batch.count > 0
    ensures var t := Apply(f, s, Extract); t.batch == EMPTY && t.accepted == s.accepted
  {
  }

  lemma {:induction false} RunKeepsInv<S>(f: ApplyFn<S>, s0: S, tr: seq<State<S>>, steps: seq<Step>)
    requires IsRun(f, tr, steps) && Inv(f, s0, tr[0])
    ensures forall k | 0 <= k < |tr| :: Inv(f, s0, tr[k])
  {
    hide Inv, Apply, Enabled;
    for k := 0 to |steps|
      invariant forall j | 0 <= j <= k :: Inv(f, s0, tr[j])
    {
      StepKeepsInv(f, s0, tr[k], steps[k]);
    }
  }
}
