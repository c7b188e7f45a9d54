/** The command batcher of src/command_batcher.c: its buffer, and its threads as a step system. */
module Batcher {
  import opened Bytes
  import opened Integers

  const MAX_COMMAND_BUFFER: nat := 65536

  /** The used part of a CommandBatch. */
  datatype Batch = Batch(bytes: seq<byte>, count: nat) {
    predicate Ok() {
      |bytes| <= MAX_COMMAND_BUFFER && count <= |bytes| && (count == 0 <==> bytes == [])
    }
  }

  const EMPTY := Batch([], 0)

  /** command_batcher_add_command: the length parameter is a uint32_t, so a caller's size_t arrives
      reduced modulo 2^32. */
  function Add(b: Batch, command: seq<byte>): (Batch, bool) {
    var length := |command| % U32;
    if length == 0 || |b.bytes| + length > MAX_COMMAND_BUFFER then (b, false)
    else (Batch(b.bytes + command[..length], b.count + 1), true)
  }

  /** An accepted command is stored whole exactly when its size fits the parameter. */
  lemma AddStoresWhole(b: Batch, command: seq<byte>)
    requires b.Ok()
    ensures var (c, ok) := Add(b, command);
      && c.Ok() && (!ok ==> c == b)
      && (ok ==> c.count == b.count + 1 && (c.bytes == b.bytes + command <==> |command| < U32))
      && (|command| < U32 ==> (ok <==> 0 < |command| <= MAX_COMMAND_BUFFER - |b.bytes|))
  {
    var length := |command| % U32;
    if |command| >= U32 && Add(b, command).1 {
      assert |Add(b, command).0.bytes| != |b.bytes + command|;
    } else if |command| < U32 {
      assert command[..length] == command;
    }
  }

  /** A frame of 2^32 + 8 bytes is accepted as its first 8 bytes. */
  lemma AddTruncates()
    ensures var command: seq<byte> := Zeros(U32 + 8);
      Add(EMPTY, command) == (Batch(Zeros(8), 1), true)
  {
    var command: seq<byte> := Zeros(U32 + 8);
    assert |command| % U32 == 8;
    assert [] + command[..8] == Zeros(8);
  }

  class CommandBatcher {
    const commands: array<byte>
    var totalLength: nat
    var numCommands: nat

    ghost predicate Valid()
      reads this, commands
    {
      commands.Length == MAX_COMMAND_BUFFER && totalLength <= MAX_COMMAND_BUFFER && View().Ok()
    }

    ghost function View(): Batch
      reads this, commands
    {
      if totalLength <= commands.Length then Batch(commands[..totalLength], numCommands) else EMPTY
    }

    constructor ()
      ensures Valid() && fresh(this) && fresh(commands) && View() == EMPTY
    {
      commands := new byte[MAX_COMMAND_BUFFER](_ => 0);
      totalLength, numCommands := 0, 0;
    }

    /** command_batcher_new_batch. */
    method NewBatch()
      requires Valid()
      modifies this, commands
      ensures Valid() && View() == EMPTY
    {
      forall i | 0 <= i < commands.Length { commands[i] := 0; }
      totalLength, numCommands := 0, 0;
    }

    method AddCommand(command: seq<byte>) returns (ok: bool)
      requires Valid()
      modifies this, commands
      ensures Valid() && (View(), ok) == Add(old(View()), command)
    {
      ghost var was := View();
      AddStoresWhole(was, command);
      var length := |command| % U32;
      if length == 0 || totalLength + length > MAX_COMMAND_BUFFER { return false; }
      var at := totalLength;
      forall i | 0 <= i < length { commands[at + i] := command[i]; }
      totalLength, numCommands := totalLength + length, numCommands + 1;
      assert commands[..totalLength] == was.bytes + command[..length];
      return true;
    }

    /** The locked part shared by the worker, flush and stop: copy a nonempty batch out and start a
        new one. The copy is handed to the callback after the lock is released. */
    method Extract() returns (batch: Option<Batch>)
      requires Valid()
      modifies this, commands
      ensures Valid() && View() == EMPTY
      ensures batch == if old(View()) == EMPTY then None else Some(old(View()))
    {
      if numCommands == 0 {
        batch := None;
      } else {
        batch := Some(Batch(commands[..totalLength], numCommands));
        NewBatch();
      }
    }
  }
}

/** Adders, the worker thread, flushers and stop, interleaved at the granularity of the batch lock. */
module BatcherThreads {
  import opened Bytes
  import opened Integers
  import opened Batcher

  /** The worker thread: not running, before its loop test, inside the loop, or delivering. */
  datatype WorkerPc = Off | AtTest | InLoop | WorkerDelivers
  /** The caller of stop: none, waiting for the worker to exit, or delivering the remainder. */
  datatype StopPc = Idle | Joining | StopDelivers
  /** Who can hold an extracted batch outside the lock. */
  datatype Holder = Worker | Stopper | Flusher(thread: nat)

  /** held maps each holder to the number of the extraction it holds. The last three fields are
      history: the commands in acceptance order, the batches in extraction order, and the extraction
      numbers in delivery order. */
  datatype State = State(batch: Batch, active: bool, worker: WorkerPc, stop: StopPc, held: map<Holder, nat>,
                         accepted: seq<seq<byte>>, extracted: seq<Batch>, delivered: seq<nat>)

  datatype Step =
    | Start
    | AddStep(command: seq<byte>)
    | WorkerTest
    | WorkerLook(expired: bool)
    | WorkerDeliver
    | StopBegin
    | StopDrain
    | StopDeliver
    | FlushExtract(thread: nat)
    | FlushDeliver(thread: nat)

  const INIT := State(EMPTY, false, Off, Idle, map[], [], [], [])

  /** start is not called while stop is still at work; callers keep commands below 2^32 bytes. */
  predicate Enabled(s: State, step: Step) {
    match step
    case Start => !s.active && s.worker == Off && s.stop == Idle
    case AddStep(command) => |command| < U32
    case WorkerTest => s.worker == AtTest
    case WorkerLook(_) => s.worker == InLoop
    case WorkerDeliver => s.worker == WorkerDelivers && Worker in s.held
    case StopBegin => s.active && s.stop == Idle
    case StopDrain => s.stop == Joining && s.worker == Off
    case StopDeliver => s.stop == StopDelivers && Stopper in s.held
    case FlushExtract(t) => Flusher(t) !in s.held
    case FlushDeliver(t) => Flusher(t) in s.held
  }

  /** Under the lock: the batch moves to the holder and a new one starts. */
  function Extracted(s: State, h: Holder): State {
    s.(batch := EMPTY, extracted := s.extracted + [s.batch], held := s.held[h := |s.extracted|])
  }

  /** The callback runs on the held batch. */
  function Delivered(s: State, h: Holder): State
    requires h in s.held
  {
    s.(held := s.held - {h}, delivered := s.delivered + [s.held[h]])
  }

  function Apply(s: State, step: Step): State
    requires Enabled(s, step)
  {
    match step
    case Start => s.(active := true, worker := AtTest)
    case AddStep(command) =>
      var (b, ok) := Add(s.batch, command);
      s.(batch := b, accepted := if ok then s.accepted + [command] else s.accepted)
    case WorkerTest => s.(worker := if s.active then InLoop else Off)
    case WorkerLook(expired) =>
      if s.batch.count > 0 && (expired || |s.batch.bytes| >= MAX_COMMAND_BUFFER / 2)
      then Extracted(s, Worker).(worker := WorkerDelivers)
      else s.(worker := AtTest)
    case WorkerDeliver => Delivered(s, Worker).(worker := AtTest)
    case StopBegin => s.(active := false, stop := Joining)
    case StopDrain =>
      if s.batch.count > 0 then Extracted(s, Stopper).(stop := StopDelivers) else s.(stop := Idle)
    case StopDeliver => Delivered(s, Stopper).(stop := Idle)
    case FlushExtract(t) => if s.batch.count > 0 then Extracted(s, Flusher(t)) else s
    case FlushDeliver(t) => Delivered(s, Flusher(t))
  }

  function BytesOf(bs: seq<Batch>): seq<seq<byte>> {
    seq(|bs|, i requires 0 <= i < |bs| => bs[i].bytes)
  }

  /** Nothing is lost, duplicated or reordered up to extraction. */
  ghost predicate Conserved(batch: Batch, extracted: seq<Batch>, accepted: seq<seq<byte>>) {
    batch.Ok() && Flatten(accepted) == Flatten(BytesOf(extracted)) + batch.bytes
  }

  ghost predicate IsHeld(held: map<Holder, nat>, n: nat) {
    exists h :: h in held && held[h] == n
  }

  /** Every one of the first n extractions is either delivered, once, or held, by one holder. */
  ghost predicate Tracked(n: nat, held: map<Holder, nat>, delivered: seq<nat>) {
    && (forall k: nat :: k < n <==> k in delivered || IsHeld(held, k))
    && (forall h | h in held :: held[h] !in delivered)
    && (forall i, j | 0 <= i < j < |delivered| :: delivered[i] != delivered[j])
    && (forall h, g | h in held && g in held && h != g :: held[h] != held[g])
  }

  ghost predicate Control(s: State) {
    && (s.worker == WorkerDelivers <==> Worker in s.held)
    && (s.stop == StopDelivers <==> Stopper in s.held)
    && (s.active ==> s.stop == Idle && s.worker != Off) && (s.stop == StopDelivers ==> s.worker == Off)
  }

  ghost predicate Inv(s: State) {
    Conserved(s.batch, s.extracted, s.accepted) && Tracked(|s.extracted|, s.held, s.delivered) && Control(s)
  }

  lemma ExtractConserves(batch: Batch, extracted: seq<Batch>, accepted: seq<seq<byte>>)
    requires Conserved(batch, extracted, accepted)
    ensures Conserved(EMPTY, extracted + [batch], accepted)
  {
    var bs := BytesOf(extracted);
    assert BytesOf(extracted + [batch]) == bs + [batch.bytes];
    FlattenConcat(bs, [batch.bytes]);
    assert [batch.bytes][1..] == [];
    assert Flatten([batch.bytes]) == batch.bytes;
  }

  lemma AddConserves(batch: Batch, extracted: seq<Batch>, accepted: seq<seq<byte>>, command: seq<byte>)
    requires Conserved(batch, extracted, accepted) && |command| < U32
    ensures var (b, ok) := Add(batch, command);
      Conserved(b, extracted, if ok then accepted + [command] else accepted)
  {
    AddStoresWhole(batch, command);
    FlattenConcat(accepted, [command]);
    assert [command][1..] == [];
    assert Flatten([command]) == command;
    var x, y := Flatten(BytesOf(extracted)), batch.bytes;
    assert (x + y) + command == x + (y + command);
  }

  lemma ExtractTracked(n: nat, held: map<Holder, nat>, delivered: seq<nat>, h: Holder)
    requires Tracked(n, held, delivered) && h !in held
    ensures Tracked(n + 1, held[h := n], delivered)
  {
    assert !IsHeld(held, n) && n !in delivered;
    forall g | g in held ensures held[g] != n { assert IsHeld(held, held[g]); }
    var held' := held[h := n];
    forall k: nat ensures IsHeld(held', k) <==> IsHeld(held, k) || k == n {
      if k == n { assert held'[h] == k; }
      if IsHeld(held, k) {
        var g :| g in held && held[g] == k;
        assert held'[g] == k;
      }
    }
  }

  lemma DeliverTracked(n: nat, held: map<Holder, nat>, delivered: seq<nat>, h: Holder)
    requires Tracked(n, held, delivered) && h in held
    ensures Tracked(n, held - {h}, delivered + [held[h]])
  {
    var held' := held - {h};
    forall k: nat ensures IsHeld(held, k) <==> IsHeld(held', k) || k == held[h] {
      if IsHeld(held, k) && k != held[h] {
        var g :| g in held && held[g] == k;
        assert held'[g] == k;
      }
    }
  }

  lemma ExtractKeeps(s: State, h: Holder)
    requires Inv(s) && h !in s.held
    ensures Conserved(EMPTY, s.extracted + [s.batch], s.accepted)
    ensures Tracked(|s.extracted| + 1, s.held[h := |s.extracted|], s.delivered)
  {
    ExtractConserves(s.batch, s.extracted, s.accepted);
    ExtractTracked(|s.extracted|, s.held, s.delivered, h);
  }

  lemma StepKeepsInv(s: State, step: Step)
    requires Inv(s) && Enabled(s, step)
    ensures Inv(Apply(s, step))
  {
    hide Tracked, Add, Conserved;
    match step
    case AddStep(command) => AddConserves(s.batch, s.extracted, s.accepted, command);
    case WorkerLook(_) => ExtractKeeps(s, Worker);
    case StopDrain => ExtractKeeps(s, Stopper);
    case FlushExtract(t) => ExtractKeeps(s, Flusher(t));
    case WorkerDeliver => DeliverTracked(|s.extracted|, s.held, s.delivered, Worker);
    case StopDeliver => DeliverTracked(|s.extracted|, s.held, s.delivered, Stopper);
    case FlushDeliver(t) => DeliverTracked(|s.extracted|, s.held, s.delivered, Flusher(t));
    case Start | WorkerTest | StopBegin =>
  }

  ghost predicate IsRun(tr: seq<State>, steps: seq<Step>) {
    && |tr| == |steps| + 1
    && forall k | 0 <= k < |steps| :: Enabled(tr[k], steps[k]) && tr[k + 1] == Apply(tr[k], steps[k])
  }

  /** In every state of every run: the extracted batches in extraction order, then the current batch,
      are exactly the accepted commands in acceptance order; no batch exceeds the buffer; and each
      extraction is delivered at most once and not while someone still holds it. */
  lemma {:induction false} RunInv(tr: seq<State>, steps: seq<Step>)
    requires IsRun(tr, steps) && Inv(tr[0])
    ensures forall k | 0 <= k < |tr| :: Inv(tr[k])
  {
    hide Inv, Apply, Enabled;
    for k := 0 to |steps|
      invariant forall j | 0 <= j <= k :: Inv(tr[j])
    {
      StepKeepsInv(tr[k], steps[k]);
    }
  }

  lemma InitInv()
    ensures Inv(INIT)
  {
    assert BytesOf([]) == [];
  }

  // ----- Stop -----

  /** Once the worker has exited, stop leaves the batch empty, and if no flusher holds a batch every
      accepted byte has been delivered: with no adds after stop began and no concurrent flush, from
      any state stop was called in to its return. */
  lemma {:induction false} StopDrainsAll(tr: seq<State>, steps: seq<Step>)
    requires IsRun(tr, steps) && Inv(tr[0]) && tr[0].stop == Joining && tr[|steps|].stop == Idle
    requires forall k | 0 <= k < |steps| :: !steps[k].AddStep? && !steps[k].Start?
    requires forall t :: Flusher(t) !in tr[|steps|].held
    ensures var s := tr[|steps|];
      && s.batch == EMPTY && s.held == map[] && s.worker == Off
      && Flatten(s.accepted) == Flatten(BytesOf(s.extracted))
      && (forall n: nat :: n < |s.extracted| <==> n in s.delivered)
  {
    RunInv(tr, steps);
    for k := 0 to |steps|
      invariant !tr[k].active
      invariant tr[k].stop != Joining ==> tr[k].batch == EMPTY && tr[k].worker == Off
    {
      StopStep(tr[k], steps[k]);
    }
    var s := tr[|steps|];
    forall h ensures h !in s.held {
      match h case Worker => case Stopper => case Flusher(t) =>
    }
    assert s.held == map[];
    assert forall n :: !IsHeld(s.held, n);
  }

  lemma StopStep(s: State, step: Step)
    requires Inv(s) && Enabled(s, step) && !s.active && !step.AddStep? && !step.Start?
    requires s.stop != Joining ==> s.batch == EMPTY && s.worker == Off
    ensures var t := Apply(s, step); !t.active && (t.stop != Joining ==> t.batch == EMPTY && t.worker == Off)
  {
    hide Tracked;
  }

  // ----- Progress -----

  lemma RunCons(s: State, step: Step, tr: seq<State>, steps: seq<Step>)
    requires IsRun(tr, steps) && Enabled(s, step) && tr[0] == Apply(s, step)
    ensures IsRun([s] + tr, [step] + steps) && ([s] + tr)[|steps| + 1] == tr[|steps|]
  {
    hide Apply, Enabled;
    var tr', steps' := [s] + tr, [step] + steps;
    forall k | 0 <= k < |steps'| ensures Enabled(tr'[k], steps'[k]) && tr'[k + 1] == Apply(tr'[k], steps'[k]) {
      if k > 0 { assert tr'[k] == tr[k - 1] && tr'[k + 1] == tr[k] && steps'[k] == steps[k - 1]; }
    }
  }

  /** The worker takes a batch out exactly when there is one and it has waited long enough or is half the buffer. */
  lemma LookExactly(s: State, expired: bool)
    requires Enabled(s, WorkerLook(expired))
    ensures Apply(s, WorkerLook(expired)).accepted == s.accepted
    ensures var t := Apply(s, WorkerLook(expired));
      if s.batch.count > 0 && (expired || |s.batch.bytes| >= 32768)
      then t.extracted == s.extracted + [s.batch] && t.batch == EMPTY && t.worker == WorkerDelivers
      else t.extracted == s.extracted && t.batch == s.batch && t.worker == AtTest
  {
  }

  /** The batch that was current in s has been taken out and delivered in t. */
  ghost predicate Served(s: State, t: State) {
    && t.accepted == s.accepted && t.batch == EMPTY && t.extracted == s.extracted + [s.batch]
    && |s.extracted| in t.delivered
  }

  /** An active batcher whose batch is not empty gets it delivered in at most four steps of its worker once the batch
      has waited long enough. */
  lemma WorkerServes(s: State) returns (tr: seq<State>, steps: seq<Step>)
    requires Inv(s) && s.active && s.batch.count > 0
    ensures IsRun(tr, steps) && tr[0] == s && |steps| <= 4 && Served(s, tr[|steps|])
    ensures forall k | 0 <= k < |steps| :: steps[k] in {WorkerTest, WorkerLook(true), WorkerDeliver}
  {
    hide Tracked, Conserved, Served;
    if s.worker == WorkerDelivers {
      StepKeepsInv(s, WorkerDeliver);
      var t := Apply(s, WorkerDeliver);
      tr, steps := ServesFrom(t);
      RunCons(s, WorkerDeliver, tr, steps);
      ServedSince(s, t, tr[|steps|]);
      tr, steps := [s] + tr, [WorkerDeliver] + steps;
    } else {
      tr, steps := ServesFrom(s);
    }
  }

  lemma ServedSince(s: State, t: State, u: State)
    requires t.accepted == s.accepted && t.batch == s.batch && t.extracted == s.extracted && Served(t, u)
    ensures Served(s, u)
  {
  }

  lemma ServesFrom(s: State) returns (tr: seq<State>, steps: seq<Step>)
    requires Inv(s) && s.active && s.batch.count > 0 && s.worker in {InLoop, AtTest}
    ensures IsRun(tr, steps) && tr[0] == s && |steps| <= 3 && Served(s, tr[|steps|])
    ensures forall k | 0 <= k < |steps| :: steps[k] in {WorkerTest, WorkerLook(true), WorkerDeliver}
  {
    hide Tracked, Conserved;
    var look := if s.worker == AtTest then Apply(s, WorkerTest) else s;
    var t := Apply(look, WorkerLook(true));
    tr, steps := [look, t, Apply(t, WorkerDeliver)], [WorkerLook(true), WorkerDeliver];
    if s.worker == AtTest {
      RunCons(s, WorkerTest, tr, steps);
      tr, steps := [s] + tr, [WorkerTest] + steps;
    }
  }

  /** So does a caller of flush, in two steps of its own. */
  lemma FlushServes(s: State, thread: nat)
    requires Inv(s) && Flusher(thread) !in s.held && s.batch.count > 0
    ensures Enabled(s, FlushExtract(thread))
    ensures var t := Apply(s, FlushExtract(thread));
      Enabled(t, FlushDeliver(thread)) && Served(s, Apply(t, FlushDeliver(thread)))
  {
    hide Tracked, Conserved;
  }

  /** Waiting for the worker and draining what is left, stop returns, whatever the worker was doing. */
  lemma {:induction false} StopReturns(s: State) returns (tr: seq<State>, steps: seq<Step>)
    requires Inv(s) && s.stop == Joining
    ensures IsRun(tr, steps) && tr[0] == s
    ensures var t := tr[|steps|];
      t.stop == Idle && t.batch == EMPTY && t.worker == Off && !t.active && t.accepted == s.accepted
    decreases match s.worker case Off => 0 case AtTest => 1 case WorkerDelivers => 2 case InLoop => 3
  {
    hide Tracked, Conserved;
    if s.worker == Off {
      var t := Apply(s, StopDrain);
      tr, steps := [s, t], [StopDrain];
      if t.stop == StopDelivers {
        tr, steps := [s, t, Apply(t, StopDeliver)], [StopDrain, StopDeliver];
      } else {
        EmptyBatch(s);
      }
    } else {
      var step := match s.worker case AtTest => WorkerTest case InLoop => WorkerLook(false) case _ => WorkerDeliver;
      StepKeepsInv(s, step);
      tr, steps := StopReturns(Apply(s, step));
      RunCons(s, step, tr, steps);
      tr, steps := [s] + tr, [step] + steps;
    }
  }

  lemma EmptyBatch(s: State)
    requires Inv(s) && s.batch.count == 0
    ensures s.batch == EMPTY
  {
    hide Tracked;
  }

  // ----- Order -----

  /** Without flush, at most one extraction is undelivered and batches are delivered in order. */
  ghost predicate InOrder(s: State) {
    && (forall i | 0 <= i < |s.delivered| :: s.delivered[i] == i)
    && (forall t :: Flusher(t) !in s.held)
    && |s.extracted| == |s.delivered| + (if s.held == map[] then 0 else 1)
    && (forall h | h in s.held :: s.held[h] == |s.delivered| && s.held == map[h := |s.delivered|])
  }

  lemma StepInOrder(s: State, step: Step)
    requires Control(s) && InOrder(s) && Enabled(s, step) && !step.FlushExtract? && !step.FlushDeliver?
    ensures InOrder(Apply(s, step))
  {
    hide Add;
    if step.WorkerLook? || (step.StopDrain? && s.worker == Off) {
      assert s.held == map[] by {
        forall h ensures h !in s.held {
          match h case Worker => case Stopper => case Flusher(t) =>
        }
      }
    }
  }

  lemma {:induction false} DeliveryOrder(tr: seq<State>, steps: seq<Step>)
    requires IsRun(tr, steps) && tr[0] == INIT
    requires forall k | 0 <= k < |steps| :: !steps[k].FlushExtract? && !steps[k].FlushDeliver?
    ensures InOrder(tr[|steps|])
  {
    InitInv();
    RunInv(tr, steps);
    hide Apply, Enabled, Tracked, Conserved;
    for k := 0 to |steps|
      invariant InOrder(tr[k])
    {
      StepInOrder(tr[k], steps[k]);
    }
  }
}
