/** How src/main.c packs datagrams into a read and a write buffer and later walks the write buffer. */
module BatchBuilding {
  import opened Bytes
  import opened CommandFrames

  const CMD_SET: nat := 2
  const CMD_DELETE: nat := 3
  const MAX_DATAGRAM: nat := 2048
  /** sizeof(cmd_buffer_t) */
  const BUFFER_HEADER: nat := 40
  const FULL: nat := CMDBUF_SIZE - MAX_DATAGRAM - BUFFER_HEADER - 64
  /** The array on the stack into which thread_5 copies the value of a SET. */
  const VALUE_COPY: nat := 128

  // ----- Datagrams and the frames they become -----

  /** What the assertions on receipt demand: a header, whose frame length is the datagram's, aligned. */
  ghost predicate Accepted(d: seq<byte>) {
    HEADER <= |d| <= MAX_DATAGRAM && Align8(|d|) == LenAt(d)
  }

  function KeyLen(d: seq<byte>): nat
    requires HEADER <= |d|
  {
    FromLE(d[0..4])
  }

  function ValueLen(d: seq<byte>): nat
    requires HEADER <= |d|
  {
    FromLE(d[4..8])
  }

  function Op(d: seq<byte>): nat
    requires HEADER <= |d|
  {
    FromLE(d[24..28])
  }

  function KeyStart(valueLen: nat): nat {
    HEADER + Align4(valueLen)
  }

  /** Behind the last byte the command is read from. */
  function CommandEnd(d: seq<byte>): nat
    requires HEADER <= |d|
  {
    if KeyLen(d) > 0 then KeyStart(ValueLen(d)) + KeyLen(d) else HEADER + ValueLen(d)
  }

  /** The datagram holds every byte of its command. */
  ghost predicate Complete(d: seq<byte>) {
    Accepted(d) && CommandEnd(d) <= |d|
  }

  /** And the byte for the key's terminator. */
  ghost predicate Whole(d: seq<byte>) {
    Accepted(d) && UnalignedLen(KeyLen(d), ValueLen(d)) <= |d|
  }

  ghost function Meant(d: seq<byte>): Command
    requires Complete(d)
  {
    var key := KeyStart(ValueLen(d));
    Command(Op(d), d[8..24], if KeyLen(d) == 0 then [] else d[key..key + KeyLen(d)], d[HEADER..HEADER + ValueLen(d)])
  }

  /** A datagram followed by whatever the memory held up to the next frame. */
  ghost predicate Frame(f: seq<byte>, d: seq<byte>) {
    |f| == Align8(|d|) && d <= f
  }

  lemma Front(f: seq<byte>, d: seq<byte>, i: nat, j: nat)
    requires d <= f && i <= j <= |d|
    ensures f[i..j] == d[i..j]
  {
  }

  /** What a frame says with the header of d, and with all of d if d is complete. */
  ghost predicate Says(c: Command, d: seq<byte>) {
    Accepted(d) && c.op == Op(d) && |c.key| == KeyLen(d) && |c.value| == ValueLen(d) && (Complete(d) ==> c == Meant(d))
  }

  /** A frame always reads as one command that fills it, with the datagram's operation and lengths; its bytes are
      the datagram's whatever fills the gap, if the datagram is complete. */
  lemma FrameReads(f: seq<byte>, d: seq<byte>)
    requires Accepted(d) && Frame(f, d)
    ensures ReadFrame(f, 0).Some?
    ensures var c := ReadFrame(f, 0).value; FrameLen(c) == |f| && Says(c, d) && Represents(f, c)
  {
    var k, v := KeyLen(d), ValueLen(d);
    KeyRegion(0, k, v);
    hide FromLE, Align4, CommandLen;
    Front(f, d, 0, 4);
    Front(f, d, 4, 8);
    Front(f, d, 8, 24);
    Front(f, d, 24, 28);
    var c := ReadFrame(f, 0).value;
    ReadExact(f, c);
    if Complete(d) {
      Front(f, d, HEADER, HEADER + v);
      if k > 0 { Front(f, d, KeyStart(v), KeyStart(v) + k); }
      assert c == Meant(d);
    }
  }

  /** The bytes after a datagram fix its command exactly when the datagram is complete: a shorter one, which the
      assertions let through, takes the end of its key or value from whatever the memory held. */
  lemma CompleteExactly(d: seq<byte>)
    requires Accepted(d)
    ensures Complete(d) <==> forall f, g | Frame(f, d) && Frame(g, d) :: ReadFrame(f, 0) == ReadFrame(g, 0)
  {
    if Complete(d) {
      forall f, g | Frame(f, d) && Frame(g, d) ensures ReadFrame(f, 0) == ReadFrame(g, 0) {
        FrameReads(f, d);
        FrameReads(g, d);
      }
    } else {
      var f, g := TwoReadings(d);
    }
  }

  lemma TwoReadings(d: seq<byte>) returns (f: seq<byte>, g: seq<byte>)
    requires Accepted(d) && !Complete(d)
    ensures Frame(f, d) && Frame(g, d) && ReadFrame(f, 0) != ReadFrame(g, 0)
  {
    var n := Align8(|d|) - |d|;
    f, g := d + Zeros(n), d + seq(n, _ => 1);
    LastByte(f, d);
    LastByte(g, d);
    hide FromLE, Align4, CommandLen, ReadFrame;
    assert f[CommandEnd(d) - 1] != g[CommandEnd(d) - 1];
  }

  /** The byte at CommandEnd(d) - 1 is the last of the key, or of the value if there is no key. */
  lemma LastByte(f: seq<byte>, d: seq<byte>)
    requires Accepted(d) && Frame(f, d) && CommandEnd(d) > |d|
    ensures CommandEnd(d) <= |f| && ReadFrame(f, 0).Some?
    ensures var c := ReadFrame(f, 0).value; var last := f[CommandEnd(d) - 1];
      if |c.key| > 0 then c.key[|c.key| - 1] == last else |c.value| > 0 && c.value[|c.value| - 1] == last
  {
    var k, v := KeyLen(d), ValueLen(d);
    KeyRegion(0, k, v);
    hide FromLE, Align4, CommandLen;
    Front(f, d, 0, 4);
    Front(f, d, 4, 8);
  }

  /** A 33-byte datagram that announces a key of 6 bytes passes the assertions with 5 of them. */
  lemma ShortDatagramAccepted(returnAddr: seq<byte>, key: seq<byte>)
    requires |returnAddr| == ADDR && |key| == 5
    ensures var d := LE(6, 4) + LE(0, 4) + returnAddr + LE(CMD_DELETE, 4) + key;
      |d| == 33 && Accepted(d) && !Complete(d)
  {
    var a, b, o := LE(6, 4), LE(0, 4), LE(CMD_DELETE, 4);
    Widths();
    LERoundTrip(6, 4);
    LERoundTrip(0, 4);
    hide LE, FromLE;
    var d := a + b + returnAddr + o + key;
    assert d[0..4] == a && d[4..8] == b;
  }

  // ----- Runs of frames -----

  ghost predicate Frames(frames: seq<seq<byte>>, ds: seq<seq<byte>>) {
    |frames| == |ds| && forall i | 0 <= i < |ds| :: Frame(frames[i], ds[i])
  }

  /** mem is the frames of ds, back to back and in order. */
  ghost predicate Holds(mem: seq<byte>, ds: seq<seq<byte>>) {
    exists frames :: mem == Flatten(frames) && Frames(frames, ds)
  }

  lemma HoldsNone()
    ensures Holds([], [])
  {
    assert Flatten<byte>([]) == [] && Frames([], []);
  }

  lemma HoldsMore(mem: seq<byte>, ds: seq<seq<byte>>, f: seq<byte>, d: seq<byte>)
    requires Holds(mem, ds) && Frame(f, d)
    ensures Holds(mem + f, ds + [d])
  {
    var frames :| mem == Flatten(frames) && Frames(frames, ds);
    hide Flatten;
    FlattenConcat(frames, [f]);
    FlattenCons([f]);
    assert [f][1..] == [] && Flatten<byte>([]) == [] by { FlattenNil<byte>(); }
    assert Frames(frames + [f], ds + [d]);
  }

  /** The commands of frames, as the walk reads them. */
  ghost predicate Spoken(cs: seq<Command>, ds: seq<seq<byte>>) {
    |cs| == |ds| && forall i | 0 <= i < |ds| :: Says(cs[i], ds[i])
  }

  /** A buffer that holds accepted datagrams decodes, at any 8-aligned address, to one command for each, in
      order: the datagram's own command if it is complete, and one with its header otherwise. */
  lemma HoldsDecodes(mem: seq<byte>, ds: seq<seq<byte>>, base: nat) returns (cs: seq<Command>)
    requires base % 8 == 0 && Holds(mem, ds) && forall d | d in ds :: Accepted(d)
    ensures Walk(mem, base) == Some(cs) && Spoken(cs, ds)
  {
    var frames :| mem == Flatten(frames) && Frames(frames, ds);
    cs := FramesSpell(frames, ds);
    WalkFrames(frames, base, cs);
  }

  lemma FramesSpell(frames: seq<seq<byte>>, ds: seq<seq<byte>>) returns (cs: seq<Command>)
    requires Frames(frames, ds) && forall d | d in ds :: Accepted(d)
    ensures Spell(frames, cs) && Spoken(cs, ds)
  {
    hide Represents, Says, Accepted, Frame;
    cs := [];
    for i := 0 to |ds|
      invariant |cs| == i && forall j | 0 <= j < i :: Represents(frames[j], cs[j]) && Says(cs[j], ds[j])
    {
      FrameReads(frames[i], ds[i]);
      cs := cs + [ReadFrame(frames[i], 0).value];
    }
  }

  /** The datagrams among ds that are GETs, or that are not, in arrival order. */
  ghost function Pick(ds: seq<seq<byte>>, gets: bool): seq<seq<byte>>
    requires forall d | d in ds :: Accepted(d)
  {
    if ds == [] then []
    else
      var d := ds[|ds| - 1];
      assert Accepted(d);
      Pick(ds[..|ds| - 1], gets) + if (Op(d) == CMD_GET) == gets then [d] else []
  }

  /** Every datagram is picked on exactly one side. */
  lemma {:induction false} PickSplits(ds: seq<seq<byte>>)
    requires forall d | d in ds :: Accepted(d)
    ensures |Pick(ds, true)| + |Pick(ds, false)| == |ds|
    ensures forall gets, d :: d in Pick(ds, gets) <==> d in ds && (Op(d) == CMD_GET) == gets
  {
    if ds != [] {
      var init, d := ds[..|ds| - 1], ds[|ds| - 1];
      assert ds == init + [d];
      PickSplits(init);
      hide Op, Pick, Accepted;
      PickUnfold(init, d, true);
      PickUnfold(init, d, false);
    }
  }

  lemma PickUnfold(ds: seq<seq<byte>>, d: seq<byte>, gets: bool)
    requires forall e | e in ds :: Accepted(e)
    requires Accepted(d)
    ensures forall e | e in ds + [d] :: Accepted(e)
    ensures Pick(ds + [d], gets) == Pick(ds, gets) + if (Op(d) == CMD_GET) == gets then [d] else []
  {
    hide Accepted, Op;
    assert (ds + [d])[..|ds|] == ds;
  }

  // ----- thread_1 -----

  /** cmd_buffer_t: a fixed block whose unused bytes hold anything. */
  class CmdBuffer {
    var cmdsLength: nat
    const data: array<byte>

    ghost predicate Valid()
      reads this
    {
      data.Length == CMDBUF_SIZE - BUFFER_HEADER && cmdsLength <= data.Length
    }

    ghost function Contents(): seq<byte>
      reads this, data
      requires Valid()
    {
      data[..cmdsLength]
    }

    constructor ()
      ensures Valid() && fresh(data) && cmdsLength == 0
    {
      data := new byte[CMDBUF_SIZE - BUFFER_HEADER];
      cmdsLength := 0;
    }

    /** memcpy of the datagram, then the aligned advance over bytes nothing has written. */
    method Append(d: seq<byte>) returns (ghost frame: seq<byte>)
      requires Valid() && cmdsLength + Align8(|d|) <= data.Length
      modifies this, data
      ensures Valid() && cmdsLength == old(cmdsLength) + Align8(|d|)
      ensures Frame(frame, d) && Contents() == old(Contents()) + frame
    {
      forall i | 0 <= i < |d| { data[cmdsLength + i] := d[i]; }
      frame := data[cmdsLength..cmdsLength + Align8(|d|)];
      assert data[..cmdsLength] == old(data[..cmdsLength]);
      assert frame[..|d|] == d;
      assert data[..cmdsLength + Align8(|d|)] == data[..cmdsLength] + frame;
      cmdsLength := cmdsLength + Align8(|d|);
    }
  }

  /** One turn of thread_1's loop: the node's term at that moment, and what recv returned (empty: nothing). */
  datatype Poll = Poll(term: nat, datagram: seq<byte>)

  function Arrived(polls: seq<Poll>): seq<seq<byte>> {
    if polls == [] then []
    else
      var d := polls[|polls| - 1].datagram;
      Arrived(polls[..|polls| - 1]) + if d == [] then [] else [d]
  }

  ghost predicate AllAccepted(polls: seq<Poll>) {
    forall p | p in polls :: p.datagram == [] || Accepted(p.datagram)
  }

  lemma ArrivedStep(polls: seq<Poll>, i: nat)
    requires i < |polls|
    ensures Arrived(polls[..i + 1]) ==
            Arrived(polls[..i]) + if polls[i].datagram == [] then [] else [polls[i].datagram]
  {
    assert polls[..i + 1][..i] == polls[..i];
  }

  /** The read bytes are exactly the frames of the GETs among ds and the write bytes exactly those of the rest. */
  ghost predicate Separated(ds: seq<seq<byte>>, writeBytes: seq<byte>, readBytes: seq<byte>) {
    && (forall d | d in ds :: Accepted(d))
    && Holds(readBytes, Pick(ds, true)) && Holds(writeBytes, Pick(ds, false))
  }

  lemma PickStep(ds: seq<seq<byte>>, d: seq<byte>, gets: bool, mem: seq<byte>, f: seq<byte>)
    requires forall e | e in ds :: Accepted(e)
    requires Accepted(d) && Frame(f, d) && Holds(mem, Pick(ds, gets))
    ensures forall e | e in ds + [d] :: Accepted(e)
    ensures Holds(if (Op(d) == CMD_GET) == gets then mem + f else mem, Pick(ds + [d], gets))
  {
    hide Holds, Accepted, Op;
    assert (ds + [d])[..|ds|] == ds;
    HoldsMore(mem, Pick(ds, gets), f, d);
    assert Pick(ds, gets) + [] == Pick(ds, gets);
  }

  lemma SeparatedStep(ds: seq<seq<byte>>, d: seq<byte>, writeBytes: seq<byte>, readBytes: seq<byte>, f: seq<byte>)
    requires Separated(ds, writeBytes, readBytes) && Accepted(d) && Frame(f, d)
    ensures Op(d) == CMD_GET ==> Separated(ds + [d], writeBytes, readBytes + f)
    ensures Op(d) != CMD_GET ==> Separated(ds + [d], writeBytes + f, readBytes)
  {
    hide Accepted, Op, Holds, Pick;
    PickStep(ds, d, true, readBytes, f);
    PickStep(ds, d, false, writeBytes, f);
  }

  lemma Nothing()
    ensures Arrived([]) == [] && Separated([], [], [])
  {
    HoldsNone();
  }

  /** The choice of buffer and the copy, for one datagram. */
  method Place(w: CmdBuffer, r: CmdBuffer, d: seq<byte>) returns (ghost frame: seq<byte>)
    requires Accepted(d) && w != r && w.data != r.data && w.Valid() && r.Valid()
    requires w.cmdsLength < FULL && r.cmdsLength < FULL
    modifies w, r, w.data, r.data
    ensures w.Valid() && r.Valid() && Frame(frame, d)
    ensures Op(d) == CMD_GET ==> r.Contents() == old(r.Contents()) + frame && w.Contents() == old(w.Contents())
    ensures Op(d) != CMD_GET ==> w.Contents() == old(w.Contents()) + frame && r.Contents() == old(r.Contents())
    ensures w.cmdsLength < FULL + MAX_DATAGRAM && r.cmdsLength < FULL + MAX_DATAGRAM
    ensures old(w.cmdsLength) <= w.cmdsLength && old(r.cmdsLength) <= r.cmdsLength
    ensures w.cmdsLength > 0 || r.cmdsLength > 0
  {
    hide FromLE, Frame;
    if FromLE(d[24..28]) == CMD_GET {
      frame := r.Append(d);
    } else {
      frame := w.Append(d);
    }
  }

  /** The batch thread_1 builds in one round of polls: after taken turns the read buffer holds exactly the GETs
      that arrived and the write buffer exactly the rest, each in arrival order; it stops early only when the
      term moved or a buffer is nearly full, and the buffers never outgrow their blocks. */
  method BuildBatch(term: nat, polls: seq<Poll>, termAfter: nat)
      returns (w: CmdBuffer, r: CmdBuffer, taken: nat, keep: bool)
    requires AllAccepted(polls)
    ensures fresh(w) && fresh(r) && w.Valid() && r.Valid() && taken <= |polls|
    ensures Separated(Arrived(polls[..taken]), w.Contents(), r.Contents())
    ensures forall i | 0 <= i < taken :: polls[i].term == term
    ensures taken == |polls| || polls[taken].term != term || w.cmdsLength >= FULL || r.cmdsLength >= FULL
    ensures BUFFER_HEADER + w.cmdsLength < CMDBUF_SIZE - 64 && BUFFER_HEADER + r.cmdsLength < CMDBUF_SIZE - 64
    ensures keep <==> termAfter == term && Arrived(polls[..taken]) != []
  {
    hide Accepted, Op, Separated, Arrived, AllAccepted, Align8, Frame;
    w := new CmdBuffer();
    r := new CmdBuffer();
    taken := 0;
    Nothing();
    assert polls[..0] == [] && w.Contents() == [] && r.Contents() == [];
    while taken < |polls|
      invariant taken <= |polls| && fresh(w) && fresh(r) && fresh(w.data) && fresh(r.data)
      invariant w != r && w.data != r.data && w.Valid() && r.Valid()
      invariant w.cmdsLength < FULL && r.cmdsLength < FULL
      invariant Separated(Arrived(polls[..taken]), w.Contents(), r.Contents())
      invariant w.cmdsLength == r.cmdsLength == 0 <==> Arrived(polls[..taken]) == []
      invariant forall i | 0 <= i < taken :: polls[i].term == term
    {
      var poll := polls[taken];
      if poll.term != term { break; }
      ArrivedStep(polls, taken);
      taken := taken + 1;
      if poll.datagram != [] {
        PollAccepted(polls, poll);
        ghost var ds, wc, rc := Arrived(polls[..taken - 1]), w.Contents(), r.Contents();
        ghost var frame := Place(w, r, poll.datagram);
        SeparatedStep(ds, poll.datagram, wc, rc, frame);
        if w.cmdsLength >= FULL || r.cmdsLength >= FULL { break; }
      } else {
        assert Arrived(polls[..taken - 1]) + [] == Arrived(polls[..taken - 1]);
      }
    }
    keep := termAfter == term && !(w.cmdsLength == 0 && r.cmdsLength == 0);
  }

  lemma PollAccepted(polls: seq<Poll>, poll: Poll)
    requires AllAccepted(polls) && poll in polls && poll.datagram != []
    ensures Accepted(poll.datagram)
  {
  }

  // ----- thread_5 -----

  /** What the walk does to the disk map. */
  datatype Effect = Delete(key: seq<byte>) | Store(key: seq<byte>, value: seq<byte>)

  /** How the walk over a buffer ends: at its end; where the value-length assertion fails; at an operation other
      than SET and DELETE, where the program exits; at a SET whose value does not fit the 128-byte copy, or at a
      key with no zero byte behind it in the block, from where C gives the program no meaning. */
  datatype Outcome = Finished | ValueAssertion | ForeignOperation | ValueTooLong | KeyUnterminated

  /** The C string at the front of s: the bytes before the first zero. */
  function CString(s: seq<byte>): Option<seq<byte>> {
    if s == [] then None
    else if s[0] == 0 then Some([])
    else match CString(s[1..])
      case None => None
      case Some(rest) => Some([s[0]] + rest)
  }

  datatype Turn = Did(effect: Effect) | Stopped(outcome: Outcome)

  /** One turn of the loop on the command c at the front of block. The key is the C string at its place, which may
      be shorter or longer than the key announced. */
  function TurnOf(block: seq<byte>, c: Command): (turn: Turn)
    requires KeyStart(|c.value|) <= |block|
    ensures turn.Stopped? ==> turn.outcome != Finished
  {
    if |c.value| >= CMDBUF_SIZE then Stopped(ValueAssertion)
    else
      var key := CString(block[KeyStart(|c.value|)..]);
      if c.op == CMD_DELETE then
        if key.None? then Stopped(KeyUnterminated) else Did(Delete(key.value))
      else if c.op == CMD_SET then
        if |c.value| > VALUE_COPY then Stopped(ValueTooLong)
        else if key.None? then Stopped(KeyUnterminated) else Did(Store(key.value, c.value))
      else Stopped(ForeignOperation)
  }

  function TotalLen(cs: seq<Command>): nat {
    if cs == [] then 0 else FrameLen(cs[0]) + TotalLen(cs[1..])
  }

  /** The effects of the commands at the front of block, up to where the walk ends. */
  function Effects(block: seq<byte>, cs: seq<Command>): (seq<Effect>, Outcome)
    requires TotalLen(cs) <= |block|
    decreases |cs|
  {
    if cs == [] then ([], Finished)
    else
      KeyRegion(0, |cs[0].key|, |cs[0].value|);
      match TurnOf(block, cs[0])
      case Stopped(outcome) => ([], outcome)
      case Did(e) =>
        var (rest, outcome) := Effects(block[FrameLen(cs[0])..], cs[1..]);
        ([e] + rest, outcome)
  }

  /** The frame at total, and where the next one starts. */
  lemma NextFrameAt(block: seq<byte>, length: nat, base: nat, total: nat, left: seq<Command>)
    requires total < length <= |block| && Walk(block[total..length], base + total) == Some(left)
    ensures left != [] && ReadFrame(block[total..length], base + total) == Some(left[0])
    ensures var n := FrameLen(left[0]);
      && n > 0 && n % 8 == 0 && total + n <= length && KeyStart(|left[0].value|) < n
      && block[total..][n..] == block[total + n..]
      && Walk(block[total + n..length], base + (total + n)) == Some(left[1..])
  {
    hide ReadFrame, FrameLen, Walk, KeyStart;
    var b := block[total..length];
    WalkUnfold(b, base + total);
    var c := ReadFrame(b, base + total).value;
    FrameLens(c);
    KeyInFrame(c);
    assert left[0] == c && b[FrameLen(c)..] == block[total + FrameLen(c)..length];
  }

  function Prefixed(es: seq<Effect>, r: (seq<Effect>, Outcome)): (seq<Effect>, Outcome) {
    (es + r.0, r.1)
  }

  lemma EffectsTurn(es: seq<Effect>, block: seq<byte>, cs: seq<Command>)
    requires cs != [] && TotalLen(cs) <= |block|
    ensures TotalLen(cs) == FrameLen(cs[0]) + TotalLen(cs[1..]) && KeyStart(|cs[0].value|) <= |block|
    ensures match TurnOf(block, cs[0])
            case Stopped(outcome) => Prefixed(es, Effects(block, cs)) == (es, outcome)
            case Did(e) =>
              Prefixed(es, Effects(block, cs)) == Prefixed(es + [e], Effects(block[FrameLen(cs[0])..], cs[1..]))
  {
    EffectsUnfold(block, cs);
    hide TurnOf, KeyStart, FrameLen, Effects;
    assert es + [] == es;
    match TurnOf(block, cs[0])
    case Stopped(_) =>
    case Did(e) =>
      var rest := Effects(block[FrameLen(cs[0])..], cs[1..]).0;
      assert es + ([e] + rest) == es + [e] + rest;
  }

  lemma PrefixedNone(r: (seq<Effect>, Outcome), es: seq<Effect>)
    ensures Prefixed([], r) == r && Prefixed(es, ([], Finished)) == (es, Finished)
  {
    assert [] + r.0 == r.0 && es + [] == es;
  }

  /** The walk over the first length bytes of a block: it stays on frame boundaries, meets every command once and
      in order, and ends exactly at the length unless one of them stops it. */
  method WalkWrites(block: seq<byte>, length: nat, base: nat, ghost cs: seq<Command>)
      returns (effects: seq<Effect>, outcome: Outcome, total: nat)
    requires length <= |block| && base % 8 == 0 && Walk(block[..length], base) == Some(cs)
    ensures TotalLen(cs) == length && (effects, outcome) == Effects(block, cs)
    ensures outcome == Finished ==> total == length
  {
    hide ReadFrame, FrameLen, Walk, TurnOf, Effects, TotalLen, KeyStart, Prefixed;
    effects, outcome, total := [], Finished, 0;
    ghost var left := cs;
    WalkTotal(block[..length], base, cs);
    PrefixedNone(Effects(block, cs), []);
    assert block[0..] == block && block[0..length] == block[..length];
    while total < length
      invariant total <= length && (base + total) % 8 == 0 && total + TotalLen(left) == length
      invariant Walk(block[total..length], base + total) == Some(left)
      invariant Effects(block, cs) == Prefixed(effects, Effects(block[total..], left))
      invariant outcome == Finished
    {
      var rest := block[total..];
      NextFrameAt(block, length, base, total, left);
      var c := ReadFrame(block[total..length], base + total).value;
      EffectsTurn(effects, rest, left);
      match TurnOf(rest, c) {
        case Stopped(o) =>
          outcome := o;
          return;
        case Did(e) =>
          effects := effects + [e];
      }
      left, total := left[1..], total + FrameLen(c);
    }
    WalkUnfold(block[total..length], base + total);
    EffectsNone(block[total..]);
    PrefixedNone(([], Finished), effects);
  }

  lemma KeyInFrame(c: Command)
    ensures KeyStart(|c.value|) + |c.key| < FrameLen(c)
  {
    KeyRegion(0, |c.key|, |c.value|);
  }

  lemma EffectsUnfold(block: seq<byte>, cs: seq<Command>)
    requires cs != [] && TotalLen(cs) <= |block|
    ensures TotalLen(cs) == FrameLen(cs[0]) + TotalLen(cs[1..]) && KeyStart(|cs[0].value|) <= |block|
    ensures Effects(block, cs) == match TurnOf(block, cs[0])
                                  case Stopped(outcome) => ([], outcome)
                                  case Did(e) =>
                                    var (rest, outcome) := Effects(block[FrameLen(cs[0])..], cs[1..]);
                                    ([e] + rest, outcome)
  {
    KeyInFrame(cs[0]);
    hide TurnOf, KeyStart, FrameLen;
  }

  lemma EffectsNone(block: seq<byte>)
    ensures TotalLen([]) == 0 && Effects(block, []) == ([], Finished)
  {
  }

  lemma {:induction false} WalkTotal(mem: seq<byte>, base: nat, cs: seq<Command>)
    requires Walk(mem, base) == Some(cs)
    ensures TotalLen(cs) == |mem|
    decreases |mem|
  {
    hide ReadFrame, FrameLen, Walk;
    WalkUnfold(mem, base);
    if mem != [] {
      var c := ReadFrame(mem, base).value;
      FrameLens(c);
      WalkTotal(mem[FrameLen(c)..], base + FrameLen(c), cs[1..]);
    }
  }

  // ----- What a batch does -----

  /** The effect a command announces. */
  function Announced(c: Command): Effect {
    if c.op == CMD_SET then Store(c.key, c.value) else Delete(c.key)
  }

  /** A datagram whose command thread_5 carries out as announced: a DELETE, or a SET of at most 128 bytes, whose
      key holds no zero byte and is followed by one. */
  ghost predicate Plain(d: seq<byte>)
    requires Whole(d)
  {
    var key := KeyStart(ValueLen(d));
    && (Op(d) == CMD_DELETE || (Op(d) == CMD_SET && ValueLen(d) <= VALUE_COPY))
    && 0 !in d[key..key + KeyLen(d)] && d[key + KeyLen(d)] == 0
  }

  lemma {:induction false} CStringIs(s: seq<byte>, k: nat)
    requires k < |s|
    ensures CString(s) == Some(s[..k]) <==> 0 !in s[..k] && s[k] == 0
    decreases k
  {
    if k > 0 {
      CStringIs(s[1..], k - 1);
      assert s[..k] == [s[0]] + s[1..][..k - 1];
      var tail := CString(s[1..]);
      if tail.Some? {
        assert ([s[0]] + tail.value)[1..] == tail.value && s[..k][1..] == s[1..][..k - 1];
      }
      if s[0] == 0 { assert s[..k][0] == 0; }
    }
  }

  /** One turn does what is announced exactly for a plain datagram. */
  lemma TurnPlain(block: seq<byte>, d: seq<byte>, c: Command)
    requires Whole(d) && Says(c, d) && d <= block
    ensures KeyStart(|c.value|) <= |block|
    ensures TurnOf(block, c) == Did(Announced(c)) <==> Plain(d)
    ensures Plain(d) && Op(d) == CMD_SET ==> TurnOf(block, c) == Did(Store(Meant(d).key, Meant(d).value))
    ensures Plain(d) && Op(d) == CMD_DELETE ==> TurnOf(block, c) == Did(Delete(Meant(d).key))
  {
    WholeComplete(d);
    hide FromLE, CString, Align4, Align8, CommandLen, Accepted;
    var at, k := KeyStart(ValueLen(d)), KeyLen(d);
    Front(block, d, at, at + k);
    CStringIs(block[at..], k);
    assert block[at..][..k] == block[at..at + k] == c.key;
  }

  /** The same of a frame as it stands in memory, where the key's terminator may be a byte of the gap. */
  ghost predicate PlainFrame(f: seq<byte>, c: Command) {
    var at := KeyStart(|c.value|) + |c.key|;
    && (c.op == CMD_DELETE || (c.op == CMD_SET && |c.value| <= VALUE_COPY))
    && 0 !in c.key && at < |f| && f[at] == 0
  }

  lemma TurnFrame(block: seq<byte>, f: seq<byte>, c: Command)
    requires Represents(f, c) && f <= block && |f| <= MAX_DATAGRAM
    ensures KeyStart(|c.value|) <= |block|
    ensures TurnOf(block, c) == Did(Announced(c)) <==> PlainFrame(f, c)
  {
    hide FromLE, CString, CommandLen;
    var at, k := KeyStart(|c.value|), |c.key|;
    Front(block, f, at, at + k);
    CStringIs(block[at..], k);
    assert block[at..][..k] == block[at..at + k] == c.key;
  }

  lemma FrameSays(f: seq<byte>, d: seq<byte>, c: Command)
    requires Accepted(d) && Frame(f, d) && Represents(f, c)
    ensures Says(c, d) && |f| <= MAX_DATAGRAM
  {
    hide Says, Represents;
    FrameReads(f, d);
    RepresentsLen(f, c);
    ReadExact(f, c);
  }

  lemma FramePlain(f: seq<byte>, d: seq<byte>, c: Command)
    requires Whole(d) && Frame(f, d) && Says(c, d)
    ensures PlainFrame(f, c) <==> Plain(d)
  {
    WholeComplete(d);
    hide FromLE, Align4, Align8, CommandLen, Accepted;
  }

  /** Whatever fills the gap, the frame of an accepted datagram is plain, exactly if the datagram is whole and plain:
      one that leaves the key's terminator to the gap depends on what the memory held. */
  lemma PlainExactly(d: seq<byte>)
    requires Accepted(d)
    ensures Whole(d) && Plain(d) <==> forall f, c | Frame(f, d) && Represents(f, c) :: PlainFrame(f, c)
  {
    hide Represents, Says, Plain, PlainFrame, Accepted;
    if Whole(d) {
      forall f, c | Frame(f, d) && Represents(f, c) ensures PlainFrame(f, c) <==> Plain(d) {
        FrameSays(f, d, c);
        FramePlain(f, d, c);
      }
      var f, c := Filled(d, 0);
      assert Frame(f, d) && Represents(f, c);
    } else {
      var f, c := Filled(d, 1);
      NotPlain(f, d, c);
      assert Frame(f, d) && Represents(f, c);
    }
  }

  lemma Filled(d: seq<byte>, x: byte) returns (f: seq<byte>, c: Command)
    requires Accepted(d)
    ensures Frame(f, d) && Represents(f, c) && forall i | |d| <= i < |f| :: f[i] == x
  {
    f := d + seq(Align8(|d|) - |d|, _ => x);
    FrameReads(f, d);
    c := ReadFrame(f, 0).value;
  }

  lemma NotPlain(f: seq<byte>, d: seq<byte>, c: Command)
    requires Accepted(d) && Frame(f, d) && Represents(f, c) && !Whole(d)
    requires forall i | |d| <= i < |f| :: f[i] == 1
    ensures !PlainFrame(f, c)
  {
    FrameSays(f, d, c);
    hide FromLE, Align4, Align8, CommandLen, Represents;
  }

  lemma WholeComplete(d: seq<byte>)
    requires Whole(d)
    ensures Complete(d) && KeyStart(ValueLen(d)) + KeyLen(d) < |d| <= MAX_DATAGRAM && ValueLen(d) <= MAX_DATAGRAM
  {
    hide FromLE;
  }

  /** A datagram that does not stop the walk, if some zero byte ends its key. */
  ghost predicate Passes(d: seq<byte>)
    requires HEADER <= |d|
  {
    Op(d) == CMD_DELETE || (Op(d) == CMD_SET && ValueLen(d) <= VALUE_COPY)
  }

  ghost predicate KeyEnds(d: seq<byte>)
    requires Whole(d)
  {
    0 in d[KeyStart(ValueLen(d))..]
  }

  lemma {:induction false} CStringEnds(s: seq<byte>)
    ensures CString(s).Some? <==> 0 in s
    decreases |s|
  {
    if s != [] {
      CStringEnds(s[1..]);
      assert s == [s[0]] + s[1..];
    }
  }

  lemma TurnPasses(block: seq<byte>, d: seq<byte>, c: Command)
    requires Whole(d) && KeyEnds(d) && Says(c, d) && d <= block
    ensures KeyStart(|c.value|) <= |block|
    ensures TurnOf(block, c).Did? <==> Passes(d)
  {
    WholeComplete(d);
    hide FromLE, CString, Align4, Align8, CommandLen, Accepted;
    var at := KeyStart(ValueLen(d));
    Front(block, d, at, |d|);
    assert block[at..][..|d| - at] == d[at..];
    CStringEnds(block[at..]);
  }

  /** How one turn on a whole datagram stops the walk, in the order of the tests. */
  lemma TurnStops(block: seq<byte>, d: seq<byte>, c: Command)
    requires Whole(d) && Says(c, d) && d <= block
    ensures KeyStart(|c.value|) <= |block|
    ensures var ended := 0 in block[KeyStart(|c.value|)..];
      && (TurnOf(block, c) == Stopped(ForeignOperation) <==> Op(d) != CMD_DELETE && Op(d) != CMD_SET)
      && (TurnOf(block, c) == Stopped(ValueTooLong) <==> Op(d) == CMD_SET && ValueLen(d) > 128)
      && (TurnOf(block, c) == Stopped(KeyUnterminated) <==> Passes(d) && !ended)
  {
    WholeComplete(d);
    hide FromLE, CString, Align4, Align8, CommandLen, Accepted;
    CStringEnds(block[KeyStart(|c.value|)..]);
  }

  function Announcements(cs: seq<Command>): (es: seq<Effect>)
    ensures |es| == |cs|
  {
    if cs == [] then [] else [Announced(cs[0])] + Announcements(cs[1..])
  }

  /** The block behind the first frame starts with the rest of the frames. */
  lemma NextFrame(frames: seq<seq<byte>>, slack: seq<byte>, c: Command)
    requires frames != [] && |frames[0]| == FrameLen(c)
    ensures (Flatten(frames) + slack)[FrameLen(c)..] == Flatten(frames[1..]) + slack
    ensures frames[0] <= Flatten(frames) + slack
  {
    FlattenCons(frames);
    hide Flatten, FrameLen;
    assert Flatten(frames) + slack == frames[0] + (Flatten(frames[1..]) + slack);
  }

  lemma {:induction false} TotalIs(frames: seq<seq<byte>>, cs: seq<Command>)
    requires Spell(frames, cs)
    ensures TotalLen(cs) == |Flatten(frames)|
    decreases |cs|
  {
    hide Represents, FrameLen;
    if cs != [] {
      SpellTail(frames, cs);
      RepresentsLen(frames[0], cs[0]);
      FlattenCons(frames);
      TotalIs(frames[1..], cs[1..]);
    } else {
      FlattenNil<byte>();
      assert frames == [];
    }
  }

  ghost predicate PlainFrames(frames: seq<seq<byte>>, cs: seq<Command>) {
    |frames| == |cs| && forall i | 0 <= i < |cs| :: PlainFrame(frames[i], cs[i])
  }

  lemma PlainFramesTail(frames: seq<seq<byte>>, cs: seq<Command>)
    requires |frames| == |cs| > 0
    ensures PlainFrames(frames, cs) <==> PlainFrame(frames[0], cs[0]) && PlainFrames(frames[1..], cs[1..])
  {
    hide PlainFrame;
    if PlainFrame(frames[0], cs[0]) && PlainFrames(frames[1..], cs[1..]) {
      forall i | 0 <= i < |cs| ensures PlainFrame(frames[i], cs[i]) {
        if i > 0 { assert PlainFrame(frames[1..][i - 1], cs[1..][i - 1]); }
      }
    }
  }

  /** The walk does exactly what the frames announce, to the end, if and only if every frame is plain. */
  lemma {:induction false} EffectsPlain(frames: seq<seq<byte>>, slack: seq<byte>, cs: seq<Command>)
    requires Spell(frames, cs) && forall f | f in frames :: |f| <= MAX_DATAGRAM
    ensures TotalLen(cs) <= |Flatten(frames) + slack|
    ensures Effects(Flatten(frames) + slack, cs) == (Announcements(cs), Finished) <==> PlainFrames(frames, cs)
    decreases |cs|
  {
    hide Represents, PlainFrame, PlainFrames, TurnOf, Effects, KeyStart, FrameLen;
    TotalIs(frames, cs);
    var block := Flatten(frames) + slack;
    if cs == [] {
      EffectsNone(block);
      NoPlainFrames(frames);
    } else {
      var f, c := frames[0], cs[0];
      SpellTail(frames, cs);
      RepresentsLen(f, c);
      NextFrame(frames, slack, c);
      EffectsPlain(frames[1..], slack, cs[1..]);
      TurnFrame(block, f, c);
      EffectsUnfold(block, cs);
      PlainFramesTail(frames, cs);
      if TurnOf(block, c).Did? {
        var rest := Effects(block[FrameLen(c)..], cs[1..]);
        var e := TurnOf(block, c).effect;
        assert ([e] + rest.0)[0] == e && ([e] + rest.0)[1..] == rest.0;
        assert Announcements(cs)[0] == Announced(c) && Announcements(cs)[1..] == Announcements(cs[1..]);
      }
    }
  }

  lemma NoPlainFrames(frames: seq<seq<byte>>)
    requires |frames| == 0
    ensures PlainFrames(frames, [])
  {
  }

  lemma FramesPlain(frames: seq<seq<byte>>, ds: seq<seq<byte>>, cs: seq<Command>)
    requires Frames(frames, ds) && Spell(frames, cs) && forall d | d in ds :: Whole(d)
    ensures PlainFrames(frames, cs) <==> forall d | d in ds :: Plain(d)
  {
    hide Frame, Represents, Says, Plain, PlainFrame, Align8, FromLE;
    forall i | 0 <= i < |ds| ensures Whole(ds[i]) && (PlainFrame(frames[i], cs[i]) <==> Plain(ds[i])) {
      assert ds[i] in ds;
      FrameSays(frames[i], ds[i], cs[i]);
      FramePlain(frames[i], ds[i], cs[i]);
    }
  }

  lemma FrameSizes(frames: seq<seq<byte>>, ds: seq<seq<byte>>)
    requires Frames(frames, ds) && forall d | d in ds :: Accepted(d)
    ensures forall f | f in frames :: |f| <= MAX_DATAGRAM
  {
    forall i | 0 <= i < |frames| ensures |frames[i]| <= MAX_DATAGRAM {
      assert Frame(frames[i], ds[i]) && Accepted(ds[i]);
    }
  }

  /** The walk over the frames carries out all their commands as announced. */
  ghost predicate AsAnnounced(frames: seq<seq<byte>>, slack: seq<byte>, cs: seq<Command>) {
    && TotalLen(cs) <= |Flatten(frames) + slack|
    && Effects(Flatten(frames) + slack, cs) == (Announcements(cs), Finished)
  }

  /** So does the walk over any frames ds can become, with any memory behind them. */
  ghost predicate CarriedOut(ds: seq<seq<byte>>) {
    forall frames, cs, slack | Frames(frames, ds) && Spell(frames, cs) :: AsAnnounced(frames, slack, cs)
  }

  lemma FramesAnnounced(frames: seq<seq<byte>>, slack: seq<byte>, cs: seq<Command>, ds: seq<seq<byte>>)
    requires Frames(frames, ds) && Spell(frames, cs) && forall d | d in ds :: Accepted(d)
    ensures AsAnnounced(frames, slack, cs) <==> PlainFrames(frames, cs)
  {
    hide Accepted, Effects, PlainFrames, Frames, Spell;
    FrameSizes(frames, ds);
    EffectsPlain(frames, slack, cs);
  }

  /** Accepted writes are carried out as announced, whatever fills the gaps between them, if and only if every one is
      whole and plain. */
  lemma CarriedOutExactly(ds: seq<seq<byte>>)
    requires forall d | d in ds :: Accepted(d)
    ensures CarriedOut(ds) <==> forall d | d in ds :: Whole(d) && Plain(d)
  {
    hide Accepted, Plain, Spell, Frames, PlainFrames, AsAnnounced;
    if forall d | d in ds :: Whole(d) && Plain(d) {
      forall frames, cs, slack | Frames(frames, ds) && Spell(frames, cs) ensures AsAnnounced(frames, slack, cs) {
        FramesPlain(frames, ds, cs);
        FramesAnnounced(frames, slack, cs, ds);
      }
    } else {
      var j :| 0 <= j < |ds| && !(Whole(ds[j]) && Plain(ds[j]));
      var frames, cs := BadFrames(ds, j);
      FramesAnnounced(frames, [], cs, ds);
      assert !AsAnnounced(frames, [], cs);
    }
  }

  lemma BadFrames(ds: seq<seq<byte>>, j: nat) returns (frames: seq<seq<byte>>, cs: seq<Command>)
    requires j < |ds| && !(Whole(ds[j]) && Plain(ds[j])) && forall d | d in ds :: Accepted(d)
    ensures Frames(frames, ds) && Spell(frames, cs) && !PlainFrames(frames, cs)
  {
    hide Frame, Represents, PlainFrame, Whole, Plain, Accepted;
    PlainExactly(ds[j]);
    var f, c :| Frame(f, ds[j]) && Represents(f, c) && !PlainFrame(f, c);
    frames, cs := [], [];
    for i := 0 to |ds|
      invariant |frames| == |cs| == i
      invariant forall k | 0 <= k < i :: Frame(frames[k], ds[k]) && Represents(frames[k], cs[k])
      invariant i > j ==> frames[j] == f && cs[j] == c
    {
      var g, e := f, c;
      if i != j { g, e := Filled(ds[i], 0); }
      frames, cs := frames + [g], cs + [e];
    }
  }

  /** With every key ended, the walk reaches its end if and only if every datagram passes. */
  lemma {:induction false} EffectsFinish(frames: seq<seq<byte>>, slack: seq<byte>, ds: seq<seq<byte>>, cs: seq<Command>)
    requires Frames(frames, ds) && Spell(frames, cs) && Spoken(cs, ds) && forall d | d in ds :: Whole(d) && KeyEnds(d)
    ensures TotalLen(cs) <= |Flatten(frames) + slack|
    ensures Effects(Flatten(frames) + slack, cs).1 == Finished <==> forall d | d in ds :: Passes(d)
    decreases |ds|
  {
    hide Represents, Whole, KeyEnds, Passes, TurnOf, Effects, Frame, Says, KeyStart, FrameLen;
    TotalIs(frames, cs);
    var block := Flatten(frames) + slack;
    if ds == [] {
      EffectsNone(block);
    } else {
      var f, c, d := frames[0], cs[0], ds[0];
      RepresentsLen(f, c);
      FrameFront(f, d);
      NextFrame(frames, slack, c);
      SpellTail(frames, cs);
      EffectsFinish(frames[1..], slack, ds[1..], cs[1..]);
      TurnPasses(block, d, c);
      EffectsUnfold(block, cs);
      assert ds == [d] + ds[1..];
    }
  }

  lemma FrameFront(f: seq<byte>, d: seq<byte>)
    requires Frame(f, d)
    ensures d <= f
  {
  }

  lemma WritesApply(frames: seq<seq<byte>>, slack: seq<byte>, ds: seq<seq<byte>>, cs: seq<Command>)
    requires Frames(frames, ds) && Spell(frames, cs) && Spoken(cs, ds) && forall d | d in ds :: Accepted(d)
    ensures TotalLen(cs) <= |Flatten(frames) + slack|
    ensures (forall d | d in ds :: Whole(d)) ==>
      (Effects(Flatten(frames) + slack, cs) == (Announcements(cs), Finished) <==> forall d | d in ds :: Plain(d))
    ensures (forall d | d in ds :: Whole(d) && KeyEnds(d)) ==>
      (Effects(Flatten(frames) + slack, cs).1 == Finished <==> forall d | d in ds :: Passes(d))
  {
    hide Accepted, Frames, Spell, Spoken, Effects, Whole, Plain, Passes, KeyEnds, PlainFrames;
    FrameSizes(frames, ds);
    EffectsPlain(frames, slack, cs);
    if forall d | d in ds :: Whole(d) {
      FramesPlain(frames, ds, cs);
      if forall d | d in ds :: KeyEnds(d) {
        EffectsFinish(frames, slack, ds, cs);
      }
    }
  }

  /** End to end, whatever lies behind the write bytes in their block: each datagram is in exactly one buffer and both
      decode to the datagrams' commands in arrival order. If all are whole, the walk over the write buffer carries them
      out as announced if and only if every one is a GET or plain; and with every key ended by some zero byte it
      reaches its end if and only if every one is a GET, a DELETE, or a SET of at most 128 bytes. */
  lemma BatchApplies(ds: seq<seq<byte>>, writeBytes: seq<byte>, readBytes: seq<byte>, slack: seq<byte>, base: nat)
      returns (writes: seq<Command>, gets: seq<Command>)
    requires base % 8 == 0 && Separated(ds, writeBytes, readBytes)
    ensures |Pick(ds, false)| + |Pick(ds, true)| == |ds|
    ensures Walk(writeBytes, base) == Some(writes) && Spoken(writes, Pick(ds, false))
    ensures Walk(readBytes, base) == Some(gets) && Spoken(gets, Pick(ds, true))
    ensures TotalLen(writes) <= |writeBytes + slack|
    ensures (forall d | d in ds :: Whole(d)) ==>
      (Effects(writeBytes + slack, writes) == (Announcements(writes), Finished) <==>
       forall d | d in ds :: Op(d) == CMD_GET || Plain(d))
    ensures (forall d | d in ds :: Whole(d) && KeyEnds(d)) ==>
      (Effects(writeBytes + slack, writes).1 == Finished <==> forall d | d in ds :: Op(d) == CMD_GET || Passes(d))
  {
    hide Frames, Spell, Spoken, Effects, Walk, Whole, Plain, Passes, KeyEnds, Accepted, Pick, Op;
    PickSplits(ds);
    gets := HoldsDecodes(readBytes, Pick(ds, true), base);
    var frames :| writeBytes == Flatten(frames) && Frames(frames, Pick(ds, false));
    writes := FramesSpell(frames, Pick(ds, false));
    WalkFrames(frames, base, writes);
    WritesApply(frames, slack, Pick(ds, false), writes);
  }

  lemma SpelledWhole(d: seq<byte>, c: Command)
    requires Represents(d, c) && |d| <= MAX_DATAGRAM
    ensures Whole(d) && KeyLen(d) == |c.key| && ValueLen(d) == |c.value|
  {
    KeyRegion(0, |c.key|, |c.value|);
    FrameLens(c);
    hide FromLE;
  }

  /** A client's frame is a whole datagram if it fits one. */
  lemma EncodedWhole(c: Command)
    requires c.Valid() && FrameLen(c) <= MAX_DATAGRAM
    ensures var d := Encode(c); Whole(d) && Meant(d) == c && |d| == FrameLen(c)
  {
    EncodeRepresents(c);
    var d := Encode(c);
    RepresentsLen(d, c);
    SpelledWhole(d, c);
    WholeComplete(d);
    hide FromLE, Encode, Align4, Align8, CommandLen, Whole, Accepted;
    assert |c.key| == 0 ==> c.key == [];
  }

  /** A SET of 1000 bytes is accepted and stops the walk. */
  lemma LongValueStops()
    ensures var c := Command(2, Zeros(ADDR), [1], Zeros(1000)); var d := Encode(c);
      Whole(d) && Meant(d) == c && TotalLen([c]) <= |d| && Effects(d, [c]) == ([], ValueTooLong)
  {
    var c := Command(2, Zeros(ADDR), [1], Zeros(1000));
    EncodedWhole(c);
    hide Encode, FromLE;
    assert [c][1..] == [];
    EffectsUnfold(Encode(c), [c]);
  }

  /** A DELETE of the key 1, 0, 2 deletes the key 1. */
  lemma ZeroInKeyCutsIt()
    ensures var c := Command(3, Zeros(ADDR), [1, 0, 2], []); var d := Encode(c);
      Whole(d) && Meant(d) == c && TotalLen([c]) <= |d| && Effects(d, [c]) == ([Delete([1])], Finished)
  {
    var c := Command(3, Zeros(ADDR), [1, 0, 2], []);
    var d := Encode(c);
    EncodedWhole(c);
    KeyInFrame(c);
    EncodeRepresents(c);
    assert d[KeyStart(0)..KeyStart(0) + 3] == [1, 0, 2];
    CutAtZero(d[KeyStart(0)..]);
    hide Encode, FromLE, Represents, CString;
    assert [c][1..] == [];
    EffectsNone(d[FrameLen(c)..]);
    EffectsUnfold(d, [c]);
    assert TurnOf(d, c) == Did(Delete([1]));
    assert [Delete([1])] + [] == [Delete([1])];
  }

  lemma CutAtZero(s: seq<byte>)
    requires |s| >= 3 && s[..3] == [1, 0, 2]
    ensures CString(s) == Some([1])
  {
    assert s[..1] == [s[..3][0]] && s[1] == s[..3][1];
    CStringIs(s, 1);
  }
}
