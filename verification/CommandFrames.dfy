/** The command frame of include/globals.h and its accessors in src/log_file.c. */
module CommandFrames {
  import opened Bytes
  import opened Integers

  /** sizeof(kvs_command_t): two lengths, a sockaddr_in and the operation. */
  const HEADER: nat := 28
  const ADDR: nat := 16

  const CMD_GET: nat := 1

  /** The block of a cmd_buffer_t. */
  const CMDBUF_SIZE: nat := 0x400_0000

  /** What a frame says, apart from its padding. The op is the raw enum field. */
  datatype Command = Command(op: nat, returnAddr: seq<byte>, key: seq<byte>, value: seq<byte>) {
    ghost predicate Valid() {
      op < U32 && |returnAddr| == ADDR && |key| < U32 && |value| < U32
    }
  }

  /** kvs_command_len before its last alignment; the 1 is the key's terminator. */
  function UnalignedLen(keyLen: nat, valueLen: nat): nat {
    HEADER + Align4(valueLen) + keyLen + 1
  }

  function CommandLen(keyLen: nat, valueLen: nat): nat {
    Align8(UnalignedLen(keyLen, valueLen))
  }

  function FrameLen(c: Command): nat {
    CommandLen(|c.key|, |c.value|)
  }

  /** kvs_command_get_key: the alignment is applied to the absolute address. */
  function KeyPointer(address: nat, valueLength: nat): nat {
    Align4(address + HEADER + valueLength)
  }

  /** On an 8-aligned frame, aligning the address and aligning the value length agree, so the key
      starts at or after the end of the value and ends, with its terminator, inside the frame. */
  lemma KeyRegion(address: nat, keyLen: nat, valueLen: nat)
    requires address % 8 == 0
    ensures KeyPointer(address, valueLen) == address + HEADER + Align4(valueLen)
    ensures address + HEADER + valueLen <= KeyPointer(address, valueLen)
    ensures KeyPointer(address, valueLen) + keyLen + 1 <= address + CommandLen(keyLen, valueLen)
    ensures HEADER < CommandLen(keyLen, valueLen) < HEADER + valueLen + keyLen + 12
    ensures CommandLen(keyLen, valueLen) % 8 == 0
  {
    assert (address + HEADER + valueLen + 3) / 4 == 2 * (address / 8) + 7 + (valueLen + 3) / 4;
  }

  /** Both are those of the source, which rounds up with jump_to_alignment. */
  lemma SourceForm(address: nat, keyLen: nat, valueLen: nat)
    ensures KeyPointer(address, valueLen) == JumpToAlignment(address + HEADER + valueLen, 4)
    ensures CommandLen(keyLen, valueLen) == JumpToAlignment(HEADER + JumpToAlignment(valueLen, 4) + keyLen + 1, 8)
  {
    hide JumpToAlignment;
    AlignsAre(address + HEADER + valueLen);
    AlignsAre(valueLen);
    AlignsAre(UnalignedLen(keyLen, valueLen));
  }

  /** The accessor and the length agree on where the key starts exactly at addresses that are multiples of 4. */
  lemma KeyNeedsAlignment(address: nat, valueLen: nat)
    ensures KeyPointer(address, valueLen) == address + HEADER + Align4(valueLen) <==> address % 4 == 0
  {
  }

  function LenAt(block: seq<byte>): nat
    requires HEADER <= |block|
  {
    CommandLen(FromLE(block[0..4]), FromLE(block[4..8]))
  }

  /** The frame at the front of a block placed at an address: None where the source would fail its
      alignment assertion or read past the block. */
  function ReadFrame(block: seq<byte>, address: nat): Option<Command> {
    if address % 8 != 0 || |block| < HEADER || |block| < LenAt(block) then None
    else
      var k, v := FromLE(block[0..4]), FromLE(block[4..8]);
      KeyRegion(address, k, v);
      var key := KeyPointer(address, v) - address;
      Some(Command(FromLE(block[24..28]), block[8..24], block[key..key + k], block[HEADER..HEADER + v]))
  }

  /** The bytes b spell c; padding bytes are free. */
  ghost predicate Represents(b: seq<byte>, c: Command) {
    && |b| == FrameLen(c) && |b| > HEADER + Align4(|c.value|) + |c.key|
    && FromLE(b[0..4]) == |c.key| && FromLE(b[4..8]) == |c.value|
    && b[8..24] == c.returnAddr && FromLE(b[24..28]) == c.op
    && b[HEADER..HEADER + |c.value|] == c.value
    && b[HEADER + Align4(|c.value|)..HEADER + Align4(|c.value|) + |c.key|] == c.key
  }

  /** Reading depends only on the announced bytes, and not on where the block sits. */
  lemma ReadPrefix(block: seq<byte>, address: nat, n: nat)
    requires address % 8 == 0 && HEADER <= n <= |block| && LenAt(block) <= n
    ensures ReadFrame(block[..n], 0) == ReadFrame(block, address)
  {
    var k, v := FromLE(block[0..4]), FromLE(block[4..8]);
    KeyRegion(0, k, v);
    KeyRegion(address, k, v);
    hide FromLE, Align4, CommandLen, KeyPointer;
    Prefix(block, n, 0, 4);
    Prefix(block, n, 4, 8);
    Prefix(block, n, 8, 24);
    Prefix(block, n, 24, 28);
    Prefix(block, n, HEADER, HEADER + v);
    Prefix(block, n, HEADER + Align4(v), HEADER + Align4(v) + k);
  }

  /** On a block of exactly the right length, reading c and spelling c are the same. */
  lemma ReadExact(b: seq<byte>, c: Command)
    requires |b| == FrameLen(c)
    ensures ReadFrame(b, 0) == Some(c) <==> Represents(b, c)
  {
    KeyRegion(0, |c.key|, |c.value|);
    hide FromLE, Align4, CommandLen;
  }

  /** Reading returns c exactly when the block starts with bytes that spell c. */
  lemma ReadIffRepresents(block: seq<byte>, address: nat, c: Command)
    ensures ReadFrame(block, address) == Some(c)
       <==> address % 8 == 0 && FrameLen(c) <= |block| && Represents(block[..FrameLen(c)], c)
  {
    var n := FrameLen(c);
    if ReadFrame(block, address) == Some(c) {
      ReadLen(block, address);
      ReadPrefix(block, address, n);
      ReadExact(block[..n], c);
    } else if address % 8 == 0 && n <= |block| && Represents(block[..n], c) {
      ReadExact(block[..n], c);
      ReadLen(block[..n], 0);
      Prefix(block, n, 0, 4);
      Prefix(block, n, 4, 8);
      ReadPrefix(block, address, n);
    }
  }

  /** The length announced by the header is that of the command read. */
  lemma ReadLen(block: seq<byte>, address: nat)
    requires ReadFrame(block, address).Some?
    ensures |block| > HEADER && LenAt(block) == FrameLen(ReadFrame(block, address).value)
  {
    KeyRegion(address, FromLE(block[0..4]), FromLE(block[4..8]));
    hide FromLE, Align4, CommandLen, KeyPointer;
  }

  lemma Prefix(b: seq<byte>, n: nat, i: nat, j: nat)
    requires i <= j <= n <= |b|
    ensures b[..n][i..j] == b[i..j]
  {
  }

  lemma FrameLens(c: Command)
    ensures FrameLen(c) % 8 == 0 && FrameLen(c) > HEADER
  {
    KeyRegion(0, |c.key|, |c.value|);
  }

  // ----- Runs of frames -----

  /** The walk of apply_command_batch and thread_5: step by the length each frame announces. */
  function Walk(mem: seq<byte>, base: nat): Option<seq<Command>> {
    if mem == [] then Some([])
    else match ReadFrame(mem, base)
      case None => None
      case Some(c) =>
        FrameLens(c);
        if FrameLen(c) > |mem| then None
        else match Walk(mem[FrameLen(c)..], base + FrameLen(c))
          case None => None
          case Some(rest) => Some([c] + rest)
  }

  ghost predicate Spell(frames: seq<seq<byte>>, cs: seq<Command>) {
    |frames| == |cs| && forall i | 0 <= i < |cs| :: Represents(frames[i], cs[i])
  }

  /** mem is a run of back-to-back frames spelling cs. */
  ghost predicate IsPacking(mem: seq<byte>, cs: seq<Command>) {
    exists frames :: mem == Flatten(frames) && Spell(frames, cs)
  }

  /** The walk over an 8-aligned block returns cs exactly when the block is a packing of cs: it ends
      at the exact end, yields every command once and in order, and accepts nothing else. */
  lemma WalkIffPacking(mem: seq<byte>, base: nat, cs: seq<Command>)
    requires base % 8 == 0
    ensures Walk(mem, base) == Some(cs) <==> IsPacking(mem, cs)
  {
    if Walk(mem, base) == Some(cs) {
      var _ := WalkedFrames(mem, base, cs);
    }
    if IsPacking(mem, cs) {
      var frames :| mem == Flatten(frames) && Spell(frames, cs);
      WalkFrames(frames, base, cs);
    }
  }

  /** One step of the walk. */
  lemma WalkUnfold(mem: seq<byte>, base: nat)
    ensures mem == [] ==> Walk(mem, base) == Some([])
    ensures mem != [] && ReadFrame(mem, base).None? ==> Walk(mem, base) == None
    ensures mem != [] && ReadFrame(mem, base).Some? ==>
              var c := ReadFrame(mem, base).value;
              && 0 < FrameLen(c) <= |mem|
              && Walk(mem, base) == match Walk(mem[FrameLen(c)..], base + FrameLen(c))
                                    case None => None
                                    case Some(rest) => Some([c] + rest)
  {
    if mem != [] && ReadFrame(mem, base).Some? {
      ReadIffRepresents(mem, base, ReadFrame(mem, base).value);
      FrameLens(ReadFrame(mem, base).value);
    }
  }

  lemma SpellTail(frames: seq<seq<byte>>, cs: seq<Command>)
    requires Spell(frames, cs) && cs != []
    ensures |frames| == |cs| && Represents(frames[0], cs[0]) && Spell(frames[1..], cs[1..])
  {
    hide Represents;
  }

  lemma NoFrames(frames: seq<seq<byte>>, base: nat)
    requires Spell(frames, [])
    ensures Flatten(frames) == [] && Walk(Flatten(frames), base) == Some([])
  {
    assert frames == [];
  }

  lemma WalkCons(frame: seq<byte>, rest: seq<byte>, base: nat, c: Command)
    requires base % 8 == 0 && Represents(frame, c)
    ensures Walk(frame + rest, base) == match Walk(rest, base + FrameLen(c))
                                        case None => None
                                        case Some(cs) => Some([c] + cs)
  {
    hide *;
    RepresentsLen(frame, c);
    assert (frame + rest)[..|frame|] == frame && (frame + rest)[|frame|..] == rest;
    ReadIffRepresents(frame + rest, base, c);
    WalkUnfold(frame + rest, base);
    FrameLens(c);
  }

  lemma {:induction false} WalkFrames(frames: seq<seq<byte>>, base: nat, cs: seq<Command>)
    requires base % 8 == 0 && Spell(frames, cs)
    ensures Walk(Flatten(frames), base) == Some(cs)
    decreases |cs|
  {
    hide *;
    if cs == [] {
      NoFrames(frames, base);
    } else {
      SpellTail(frames, cs);
      FrameLens(cs[0]);
      WalkFrames(frames[1..], base + FrameLen(cs[0]), cs[1..]);
      FlattenCons(frames);
      WalkCons(frames[0], Flatten(frames[1..]), base, cs[0]);
      assert [cs[0]] + cs[1..] == cs;
    }
  }

  lemma RepresentsLen(b: seq<byte>, c: Command)
    requires Represents(b, c)
    ensures |b| == FrameLen(c)
  {
  }

  lemma {:induction false} WalkedFrames(mem: seq<byte>, base: nat, cs: seq<Command>) returns (frames: seq<seq<byte>>)
    requires base % 8 == 0 && Walk(mem, base) == Some(cs)
    ensures mem == Flatten(frames) && Spell(frames, cs)
    decreases |mem|
  {
    hide Represents, ReadFrame, FrameLen, Walk;
    WalkUnfold(mem, base);
    if mem == [] {
      frames := [];
    } else {
      var c := ReadFrame(mem, base).value;
      FrameLens(c);
      ReadIffRepresents(mem, base, c);
      var n := FrameLen(c);
      var rest := WalkedFrames(mem[n..], base + n, cs[1..]);
      frames := [mem[..n]] + rest;
      assert frames[1..] == rest;
    }
  }

  /** A block has at most one reading. */
  lemma PackingUnique(mem: seq<byte>, cs: seq<Command>, ds: seq<Command>)
    requires IsPacking(mem, cs) && IsPacking(mem, ds)
    ensures cs == ds
  {
    WalkIffPacking(mem, 0, cs);
    WalkIffPacking(mem, 0, ds);
  }

  // ----- Writing frames -----

  function Head(c: Command): (h: seq<byte>)
    ensures |c.returnAddr| == ADDR ==> |h| == HEADER
  {
    LE(|c.key|, 4) + LE(|c.value|, 4) + c.returnAddr + LE(c.op, 4)
  }

  /** A client's frame. */
  function Encode(c: Command): seq<byte> {
    KeyRegion(0, |c.key|, |c.value|);
    Head(c) + (c.value + Zeros(Align4(|c.value|) - |c.value|))
    + (c.key + [0] + Zeros(FrameLen(c) - UnalignedLen(|c.key|, |c.value|)))
  }

  lemma HeadFields(c: Command)
    requires c.Valid()
    ensures var h := Head(c);
      && FromLE(h[0..4]) == |c.key| && FromLE(h[4..8]) == |c.value|
      && h[8..24] == c.returnAddr && FromLE(h[24..28]) == c.op
  {
    hide LE, FromLE, Pow256;
    Widths();
    LERoundTrip(|c.key|, 4);
    LERoundTrip(|c.value|, 4);
    LERoundTrip(c.op, 4);
    var h := Head(c);
    assert h[0..4] == LE(|c.key|, 4);
    assert h[4..8] == LE(|c.value|, 4);
    assert h[8..24] == c.returnAddr;
    assert h[24..28] == LE(c.op, 4);
  }

  lemma EncodeRepresents(c: Command)
    requires c.Valid()
    ensures Represents(Encode(c), c)
  {
    hide FromLE, Head;
    KeyRegion(0, |c.key|, |c.value|);
    HeadFields(c);
    var b, h, v := Encode(c), Head(c), HEADER + Align4(|c.value|);
    assert b[0..4] == h[0..4] && b[4..8] == h[4..8] && b[8..24] == h[8..24] && b[24..28] == h[24..28];
    assert b[HEADER..HEADER + |c.value|] == c.value;
    assert b[v..v + |c.key|] == c.key;
  }

  function EncodeAll(cs: seq<Command>): (frames: seq<seq<byte>>)
    ensures |frames| == |cs| && forall i | 0 <= i < |cs| :: frames[i] == Encode(cs[i])
  {
    seq(|cs|, i requires 0 <= i < |cs| => Encode(cs[i]))
  }

  /** Round trip: walking any packed list of commands, at any 8-aligned address, returns it. */
  lemma FrameRoundTrip(cs: seq<Command>, base: nat)
    requires base % 8 == 0
    requires forall i | 0 <= i < |cs| :: cs[i].Valid()
    ensures Walk(Flatten(EncodeAll(cs)), base) == Some(cs)
  {
    forall i | 0 <= i < |cs| ensures Represents(EncodeAll(cs)[i], cs[i]) {
      EncodeRepresents(cs[i]);
    }
    WalkFrames(EncodeAll(cs), base, cs);
  }
}
