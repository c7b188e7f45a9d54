/** The example log of scripts/generate-log-file-example.py: its encoder and its decoder. */
module LogScript {
  import opened Bytes
  import opened Integers

  const HEADER_LEN: nat := 64
  const SET_CODE: byte := 2

  datatype SetCommand = SetCommand(key: seq<byte>, value: seq<byte>) {
    /** The length fits its field. */
    ghost predicate Fits() {
      |value| < U64
    }
  }

  datatype Record = Record(code: byte, key: seq<byte>, value: seq<byte>)

  /** A command read and the offset after it. */
  datatype Parsed = Parsed(record: Record, next: nat)

  /** Zero bytes up to the next multiple of 8 of the running offset. */
  function Padding(offset: nat): nat {
    (8 - offset % 8) % 8
  }

  /** So what follows starts at a multiple of 8, and fewer than 8 bytes are spent on it. */
  lemma PaddingAligns(offset: nat)
    ensures Padding(offset) < 8 && (offset + Padding(offset)) % 8 == 0
  {
  }

  /** One command written where offset bytes precede it; its padding depends on all of them. */
  function EncodeOne(offset: nat, c: SetCommand): seq<byte> {
    [SET_CODE] + c.key + [0] + Zeros(Padding(offset + |c.key| + 2)) + LE(|c.value|, 8) + c.value
  }

  function EncodeFrom(offset: nat, cs: seq<SetCommand>): seq<byte>
    decreases |cs|
  {
    if cs == [] then [] else EncodeOne(offset, cs[0]) + EncodeFrom(offset + |EncodeOne(offset, cs[0])|, cs[1..])
  }

  /** The 24 packed bytes, then a hash and a magic number the decoder does not look at. */
  function HeaderBytes(count: nat, length: nat, hash: seq<byte>, magic: seq<byte>): seq<byte> {
    LE(1, 4) + LE(count, 4) + LE(1, 8) + LE(length, 8) + hash + magic
  }

  method GenBinLogfile(cs: seq<SetCommand>, hash: seq<byte>, magic: seq<byte>) returns (file: seq<byte>)
    ensures var data := EncodeFrom(0, cs); var h := HeaderBytes(|cs|, |data|, hash, magic);
      file == h + data + h
  {
    var data: seq<byte> := [];
    for i := 0 to |cs|
      invariant data + EncodeFrom(|data|, cs[i..]) == EncodeFrom(0, cs)
    {
      ghost var was := data;
      var c := cs[i];
      data := data + [SET_CODE];
      data := data + c.key;
      data := data + [0];
      data := data + Zeros(Padding(|data|));
      data := data + LE(|c.value|, 8);
      data := data + c.value;
      AppendPieces(was, c);
      hide EncodeOne, LE;
      EncodeStep(was, cs[i..]);
      assert cs[i..][1..] == cs[i + 1..];
    }
    EncodeUnfold(|data|, []);
    assert cs[|cs|..] == [] && data + [] == data;
    var h := HeaderBytes(|cs|, |data|, hash, magic);
    file := h + data + h;
  }

  lemma EncodeUnfold(offset: nat, cs: seq<SetCommand>)
    ensures cs == [] ==> EncodeFrom(offset, cs) == []
    ensures cs != [] ==> EncodeFrom(offset, cs) ==
                         EncodeOne(offset, cs[0]) + EncodeFrom(offset + |EncodeOne(offset, cs[0])|, cs[1..])
  {
    hide EncodeOne;
  }

  lemma AppendPieces(data: seq<byte>, c: SetCommand)
    ensures data + [SET_CODE] + c.key + [0] + Zeros(Padding(|data + [SET_CODE] + c.key + [0]|)) + LE(|c.value|, 8)
            + c.value == data + EncodeOne(|data|, c)
  {
    hide LE, Padding, Zeros;
    var z, n := Zeros(Padding(|data| + |c.key| + 2)), LE(|c.value|, 8);
    assert |data + [SET_CODE] + c.key + [0]| == |data| + |c.key| + 2;
    assert data + ([SET_CODE] + c.key + [0] + z + n + c.value) == data + [SET_CODE] + c.key + [0] + z + n + c.value;
  }

  lemma EncodeStep(data: seq<byte>, cs: seq<SetCommand>)
    requires cs != []
    ensures var next := data + EncodeOne(|data|, cs[0]);
      data + EncodeFrom(|data|, cs) == next + EncodeFrom(|next|, cs[1..])
  {
    hide EncodeOne, EncodeFrom;
    EncodeUnfold(|data|, cs);
    var e := EncodeOne(|data|, cs[0]);
    var rest := EncodeFrom(|data| + |e|, cs[1..]);
    assert data + (e + rest) == (data + e) + rest;
  }

  // ----- Decoding -----

  /** The first zero byte at or after offset, or the end. */
  function FindNul(data: seq<byte>, offset: nat): (at: nat)
    requires offset <= |data|
    ensures offset <= at <= |data|
    decreases |data| - offset
  {
    if offset == |data| || data[offset] == 0 then offset else FindNul(data, offset + 1)
  }

  /** The command at offset; None on each of the decoder's four errors. */
  function DecodeOne(data: seq<byte>, offset: nat): Option<Parsed> {
    if offset >= |data| then None
    else
      var nul := FindNul(data, offset + 1);
      if nul >= |data| then None
      else
        var at := nul + 1 + Padding(nul + 1);
        if at + 8 > |data| then None
        else
          var n := FromLE(data[at..at + 8]);
          if at + 8 + n > |data| then None
          else Some(Parsed(Record(data[offset], data[offset + 1..nul], data[at + 8..at + 8 + n]), at + 8 + n))
  }

  /** The commands read before the count is reached or an error stops the loop; true when none did. */
  function DecodeFrom(data: seq<byte>, offset: nat, count: nat): (seq<Record>, bool)
    decreases count
  {
    if count == 0 then ([], true)
    else match DecodeOne(data, offset)
      case None => ([], false)
      case Some(Parsed(r, next)) =>
        var (rest, ok) := DecodeFrom(data, next, count - 1);
        ([r] + rest, ok)
  }

  /** bin_to_txt_logfile up to the rendering of each line: None for a file without room for two headers. */
  function Decode(file: seq<byte>): Option<(seq<Record>, bool)> {
    if |file| < 2 * HEADER_LEN then None
    else
      var count, length := FromLE(file[4..8]), FromLE(file[16..24]);
      var end := if HEADER_LEN + length < |file| then HEADER_LEN + length else |file|;
      Some(DecodeFrom(file[HEADER_LEN..end], 0, count))
  }

  method ReadOne(data: seq<byte>, offset: nat) returns (r: Option<Parsed>)
    ensures r == DecodeOne(data, offset)
  {
    if offset >= |data| { return None; }
    var nul := offset + 1;
    while nul < |data| && data[nul] != 0
      invariant nul <= |data| && FindNul(data, offset + 1) == FindNul(data, nul)
    {
      nul := nul + 1;
    }
    hide FromLE;
    if nul >= |data| { return None; }
    var at := nul + 1 + Padding(nul + 1);
    if at + 8 > |data| { return None; }
    var n := FromLE(data[at..at + 8]);
    if at + 8 + n > |data| { return None; }
    r := Some(Parsed(Record(data[offset], data[offset + 1..nul], data[at + 8..at + 8 + n]), at + 8 + n));
  }

  method BinToRecords(file: seq<byte>) returns (r: Option<(seq<Record>, bool)>)
    ensures r == Decode(file)
  {
    hide FromLE, DecodeOne, DecodeFrom;
    if |file| < 2 * HEADER_LEN { return None; }
    var count, length := FromLE(file[4..8]), FromLE(file[16..24]);
    var end := if HEADER_LEN + length < |file| then HEADER_LEN + length else |file|;
    var data := file[HEADER_LEN..end];
    var lines: seq<Record> := [];
    var offset: nat, i: nat := 0, 0;
    var ok := true;
    ghost var all := DecodeFrom(data, 0, count);
    assert lines + all.0 == all.0;
    while i < count && ok
      invariant i <= count
      invariant ok ==> all == (lines + DecodeFrom(data, offset, count - i).0, DecodeFrom(data, offset, count - i).1)
      invariant !ok ==> all == (lines, false)
      decreases count - i, ok
    {
      DecodeUnfold(data, offset, count - i);
      var one := ReadOne(data, offset);
      match one {
        case None =>
          assert lines + [] == lines;
          ok := false;
        case Some(Parsed(record, next)) =>
          ghost var rest := DecodeFrom(data, next, count - i - 1).0;
          assert lines + ([record] + rest) == lines + [record] + rest;
          lines, offset, i := lines + [record], next, i + 1;
      }
    }
    DecodeNothing(data, offset);
    assert lines + [] == lines;
    r := Some((lines, ok));
  }

  lemma DecodeNothing(data: seq<byte>, offset: nat)
    ensures DecodeFrom(data, offset, 0) == ([], true)
  {
  }

  // ----- Round trip -----

  lemma {:induction false} NulAfterKey(data: seq<byte>, offset: nat, key: seq<byte>)
    requires offset + |key| < |data| && data[offset..offset + |key|] == key && 0 !in key && data[offset + |key|] == 0
    ensures FindNul(data, offset) == offset + |key|
    decreases |key|
  {
    if key != [] {
      assert data[offset] == data[offset..offset + |key|][0] == key[0];
      assert key[1..] == data[offset + 1..offset + |key|];
      NulAfterKey(data, offset + 1, key[1..]);
    }
  }

  /** Where the pieces of an encoded command lie when it starts at offset o. */
  ghost predicate LiesAt(data: seq<byte>, o: nat, c: SetCommand) {
    var k, p := |c.key|, Padding(o + |c.key| + 2);
    && o + k + 10 + p + |c.value| <= |data|
    && data[o] == SET_CODE && data[o + 1..o + 1 + k] == c.key && data[o + 1 + k] == 0
    && data[o + k + 2 + p..o + k + 10 + p] == LE(|c.value|, 8)
    && data[o + k + 10 + p..o + k + 10 + p + |c.value|] == c.value
  }

  lemma DecodeLying(data: seq<byte>, o: nat, c: SetCommand)
    requires c.Fits() && 0 !in c.key && LiesAt(data, o, c)
    ensures DecodeOne(data, o) == Some(Parsed(Record(SET_CODE, c.key, c.value),
                                              o + |c.key| + 10 + Padding(o + |c.key| + 2) + |c.value|))
  {
    Widths();
    hide LE, FromLE, Pow256, FindNul, Padding;
    LERoundTrip(|c.value|, 8);
    NulAfterKey(data, o + 1, c.key);
  }

  lemma EncodedLies(pre: seq<byte>, c: SetCommand, post: seq<byte>)
    ensures var e := EncodeOne(|pre|, c);
      LiesAt(pre + e + post, |pre|, c) && |e| == |c.key| + 10 + Padding(|pre| + |c.key| + 2) + |c.value|
  {
    hide LE, Padding, Zeros;
    var k, p, n := |c.key|, Padding(|pre| + |c.key| + 2), LE(|c.value|, 8);
    var e := EncodeOne(|pre|, c);
    Pieces(c.key, Zeros(p), n, c.value);
    assert e == [SET_CODE] + c.key + [0] + Zeros(p) + n + c.value;
    hide EncodeOne;
    var data := pre + e + post;
    assert data[|pre|] == e[0] && data[|pre| + 1 + k] == e[1 + k];
    Inside(pre, e, post, 1, 1 + k);
    Inside(pre, e, post, k + 2 + p, k + 10 + p);
    Inside(pre, e, post, k + 10 + p, |e|);
  }

  lemma Inside(pre: seq<byte>, e: seq<byte>, post: seq<byte>, i: nat, j: nat)
    requires i <= j <= |e|
    ensures (pre + e + post)[|pre| + i..|pre| + j] == e[i..j]
  {
  }

  lemma Pieces(key: seq<byte>, z: seq<byte>, len: seq<byte>, value: seq<byte>)
    requires |len| == 8
    ensures var e := [SET_CODE] + key + [0] + z + len + value; var k, p := |key|, |z|;
      && |e| == k + 10 + p + |value| && e[0] == SET_CODE && e[1..1 + k] == key && e[1 + k] == 0
      && e[k + 2 + p..k + 10 + p] == len && e[k + 10 + p..] == value
  {
  }

  /** Every value length of a generated file starts at a multiple of 8 from the end of the header, behind fewer than 8
      padding bytes, and says how many bytes of value come after it. */
  lemma LengthsAligned(pre: seq<byte>, c: SetCommand, post: seq<byte>) returns (at: nat)
    requires c.Fits()
    ensures var data := pre + EncodeOne(|pre|, c) + post;
      && at % 8 == 0 && |pre| + |c.key| + 2 <= at < |pre| + |c.key| + 10 && at + 8 + |c.value| <= |data|
      && data[|pre|] == 2 && data[|pre| + 1..|pre| + 1 + |c.key|] == c.key && data[|pre| + 1 + |c.key|] == 0
      && FromLE(data[at..at + 8]) == |c.value| && data[at + 8..at + 8 + |c.value|] == c.value
      && |pre + EncodeOne(|pre|, c)| == at + 8 + |c.value|
  {
    EncodedLies(pre, c, post);
    PaddingAligns(|pre| + |c.key| + 2);
    Widths();
    LERoundTrip(|c.value|, 8);
    hide Padding, EncodeOne, LE, FromLE, Pow256;
    at := |pre| + |c.key| + 2 + Padding(|pre| + |c.key| + 2);
  }

  lemma DecodeEncoded(pre: seq<byte>, c: SetCommand, post: seq<byte>)
    requires c.Fits() && 0 !in c.key
    ensures var e := EncodeOne(|pre|, c);
      DecodeOne(pre + e + post, |pre|) == Some(Parsed(Record(SET_CODE, c.key, c.value), |pre| + |e|))
  {
    hide *;
    EncodedLies(pre, c, post);
    DecodeLying(pre + EncodeOne(|pre|, c) + post, |pre|, c);
  }

  // ----- Files cut short -----

  lemma {:induction false} NoNul(data: seq<byte>, offset: nat)
    requires offset <= |data| && 0 !in data[offset..]
    ensures FindNul(data, offset) == |data|
    decreases |data| - offset
  {
    if offset < |data| {
      assert data[offset] == data[offset..][0];
      assert data[offset + 1..] == data[offset..][1..];
      NoNul(data, offset + 1);
    }
  }

  lemma CutInKey(all: seq<byte>, o: nat, c: SetCommand, end: nat)
    requires 0 !in c.key && LiesAt(all, o, c) && o <= end <= o + |c.key| + 1
    ensures DecodeOne(all[..end], o) == None
  {
    hide LE, Padding, FromLE, FindNul;
    var data := all[..end];
    if end > o {
      assert data[o + 1..] == all[o + 1..o + 1 + |c.key|][..end - o - 1];
      NoNul(data, o + 1);
    }
  }

  lemma DecodeAt(data: seq<byte>, o: nat, nul: nat)
    requires o < nul < |data| && FindNul(data, o + 1) == nul
    ensures var at := nul + 1 + Padding(nul + 1);
      if at + 8 > |data| || at + 8 + FromLE(data[at..at + 8]) > |data| then DecodeOne(data, o) == None
      else DecodeOne(data, o).Some?
  {
    hide FindNul, Padding, FromLE;
  }

  lemma CutLater(all: seq<byte>, o: nat, c: SetCommand, end: nat)
    requires c.Fits() && 0 !in c.key && LiesAt(all, o, c) && o + |c.key| + 1 < end
    requires end < o + |c.key| + 10 + Padding(o + |c.key| + 2) + |c.value|
    ensures end <= |all| && DecodeOne(all[..end], o) == None
  {
    hide LE, Padding, FromLE, FindNul, DecodeOne;
    var data, nul := all[..end], o + 1 + |c.key|;
    assert data[o + 1..nul] == all[o + 1..nul] && data[nul] == all[nul];
    NulAfterKey(data, o + 1, c.key);
    DecodeAt(data, o, nul);
    var at := nul + 1 + Padding(nul + 1);
    if at + 8 <= end {
      assert data[at..at + 8] == all[at..at + 8];
      LengthReads(c);
    }
  }

  lemma LengthReads(c: SetCommand)
    requires c.Fits()
    ensures FromLE(LE(|c.value|, 8)) == |c.value|
  {
    Widths();
    LERoundTrip(|c.value|, 8);
    hide LE, FromLE, Pow256;
  }

  /** Whatever part of a command is missing at the end, the decoder notices. */
  lemma CutCommand(pre: seq<byte>, c: SetCommand, cut: nat)
    requires c.Fits() && 0 !in c.key && cut < |EncodeOne(|pre|, c)|
    ensures DecodeOne(pre + EncodeOne(|pre|, c)[..cut], |pre|) == None
  {
    EncodedLies(pre, c, []);
    hide EncodeOne, DecodeOne, LiesAt, Padding;
    var o, e := |pre|, EncodeOne(|pre|, c);
    var all, end := pre + e + [], o + cut;
    assert pre + e[..cut] == all[..end];
    if cut <= |c.key| + 1 { CutInKey(all, o, c, end); } else { CutLater(all, o, c, end); }
  }

  /** A file whose last command is cut short decodes to the commands before it and reports an error. */
  lemma {:induction false} CutFile(pre: seq<byte>, cs: seq<SetCommand>, c: SetCommand, cut: nat)
    requires forall i | 0 <= i < |cs| :: cs[i].Fits() && 0 !in cs[i].key
    requires c.Fits() && 0 !in c.key && cut < |EncodeOne(|pre + EncodeFrom(|pre|, cs)|, c)|
    ensures var front := pre + EncodeFrom(|pre|, cs);
      DecodeFrom(front + EncodeOne(|front|, c)[..cut], |pre|, |cs| + 1) == (AsRecords(cs), false)
    decreases |cs|
  {
    hide EncodeOne, DecodeOne, EncodeFrom, DecodeFrom, LE, FromLE;
    var front := pre + EncodeFrom(|pre|, cs);
    var data := front + EncodeOne(|front|, c)[..cut];
    DecodeUnfold(data, |pre|, |cs| + 1);
    EncodeUnfold(|pre|, cs);
    if cs == [] {
      assert front == pre;
      CutCommand(pre, c, cut);
    } else {
      var one := EncodeOne(|pre|, cs[0]);
      var next := pre + one;
      EncodeStep(pre, cs);
      var rest := EncodeFrom(|next|, cs[1..]) + EncodeOne(|front|, c)[..cut];
      assert data == next + rest;
      DecodeEncoded(pre, cs[0], rest);
      CutFile(next, cs[1..], c, cut);
    }
  }

  /** No file without room for two headers decodes, and every other does, up to its first error. */
  lemma DecodesIfLong(file: seq<byte>)
    ensures Decode(file).Some? <==> |file| >= 128
  {
    hide FromLE, DecodeFrom;
  }

  function AsRecords(cs: seq<SetCommand>): seq<Record> {
    if cs == [] then [] else [Record(SET_CODE, cs[0].key, cs[0].value)] + AsRecords(cs[1..])
  }

  lemma {:induction false} DecodeAll(pre: seq<byte>, cs: seq<SetCommand>)
    requires forall i | 0 <= i < |cs| :: cs[i].Fits() && 0 !in cs[i].key
    ensures DecodeFrom(pre + EncodeFrom(|pre|, cs), |pre|, |cs|) == (AsRecords(cs), true)
    decreases |cs|
  {
    hide EncodeOne, DecodeOne, EncodeFrom, LE, FromLE;
    if cs != [] {
      var next := pre + EncodeOne(|pre|, cs[0]);
      var rest := EncodeFrom(|next|, cs[1..]);
      EncodeStep(pre, cs);
      DecodeEncoded(pre, cs[0], rest);
      DecodeAll(next, cs[1..]);
      DecodeUnfold(next + rest, |pre|, |cs|);
    }
  }

  lemma DecodeUnfold(data: seq<byte>, offset: nat, count: nat)
    requires count > 0
    ensures var one := DecodeOne(data, offset);
      DecodeFrom(data, offset, count) == if one.None? then ([], false) else
        var (rest, ok) := DecodeFrom(data, one.value.next, count - 1); ([one.value.record] + rest, ok)
  {
    hide DecodeOne;
  }

  /** A decoded key stops at the first zero byte, whatever the bytes are. */
  lemma {:induction false} DecodedKeys(data: seq<byte>, offset: nat, count: nat)
    ensures forall i | 0 <= i < |DecodeFrom(data, offset, count).0| :: 0 !in DecodeFrom(data, offset, count).0[i].key
    decreases count
  {
    hide FromLE;
    if count > 0 {
      var one := DecodeOne(data, offset);
      if one.Some? {
        BeforeNul(data, offset + 1);
        DecodedKeys(data, one.value.next, count - 1);
      }
    }
  }

  lemma BeforeNul(data: seq<byte>, offset: nat)
    requires offset <= |data|
    ensures 0 !in data[offset..FindNul(data, offset)]
    decreases |data| - offset
  {
    if offset < |data| && data[offset] != 0 {
      BeforeNul(data, offset + 1);
      var at := FindNul(data, offset);
      assert data[offset..at] == [data[offset]] + data[offset + 1..at];
    }
  }

  lemma AsRecordsAt(cs: seq<SetCommand>, i: nat)
    requires i < |cs|
    ensures |AsRecords(cs)| == |cs| && AsRecords(cs)[i] == Record(SET_CODE, cs[i].key, cs[i].value)
  {
    if i > 0 { AsRecordsAt(cs[1..], i - 1); } else if |cs| > 1 { AsRecordsAt(cs[1..], 0); }
  }

  /** Decoding the generated file returns the commands that went in, in order and without error, exactly when
      no key holds a zero byte. */
  lemma ScriptRoundTrip(cs: seq<SetCommand>, hash: seq<byte>, magic: seq<byte>)
    requires forall i | 0 <= i < |cs| :: cs[i].Fits()
    requires |cs| < U32 && |EncodeFrom(0, cs)| < U64 && |hash| == 24 && |magic| == 16
    ensures var data := EncodeFrom(0, cs); var h := HeaderBytes(|cs|, |data|, hash, magic);
      Decode(h + data + h) == Some((AsRecords(cs), true)) <==> (forall i | 0 <= i < |cs| :: 0 !in cs[i].key)
  {
    hide *;
    var data := EncodeFrom(0, cs);
    FileDecodes(cs, hash, magic);
    if forall i | 0 <= i < |cs| :: 0 !in cs[i].key {
      DecodeAll([], cs);
      assert [] + data == data;
    }
    if DecodeFrom(data, 0, |cs|) == (AsRecords(cs), true) {
      DecodedKeys(data, 0, |cs|);
      forall i | 0 <= i < |cs| ensures 0 !in cs[i].key {
        AsRecordsAt(cs, i);
      }
    }
  }

  /** The decoder finds the command count and exactly the command bytes between the two headers. */
  lemma FileDecodes(cs: seq<SetCommand>, hash: seq<byte>, magic: seq<byte>)
    requires |cs| < U32 && |EncodeFrom(0, cs)| < U64 && |hash| == 24 && |magic| == 16
    ensures var data := EncodeFrom(0, cs); var h := HeaderBytes(|cs|, |data|, hash, magic);
      Decode(h + data + h) == Some(DecodeFrom(data, 0, |cs|))
  {
    hide LE, FromLE, Pow256, EncodeFrom, DecodeFrom;
    var data := EncodeFrom(0, cs);
    Widths();
    LERoundTrip(|cs|, 4);
    LERoundTrip(|data|, 8);
    var h := HeaderBytes(|cs|, |data|, hash, magic);
    HeaderFields(LE(1, 4), LE(|cs|, 4), LE(1, 8), LE(|data|, 8), hash, magic, data);
    var file := h + data + h;
    assert |h| == HEADER_LEN && |file| == 2 * HEADER_LEN + |data|;
    assert FromLE(file[4..8]) == |cs| && FromLE(file[16..24]) == |data|;
    assert file[HEADER_LEN..HEADER_LEN + |data|] == data;
  }

  lemma HeaderFields(version: seq<byte>, count: seq<byte>, term: seq<byte>, length: seq<byte>, hash: seq<byte>,
                     magic: seq<byte>, data: seq<byte>)
    requires |version| == |count| == 4 && |term| == |length| == 8 && |hash| == 24 && |magic| == 16
    ensures var h := version + count + term + length + hash + magic; var file := h + data + h;
      |h| == HEADER_LEN && file[4..8] == count && file[16..24] == length
      && file[HEADER_LEN..HEADER_LEN + |data|] == data
  {
    var h := version + count + term + length + hash + magic;
    assert h[4..8] == count && h[16..24] == length;
    Inside([], h, data + h, 4, 8);
    Inside([], h, data + h, 16, 24);
    assert [] + h + (data + h) == h + data + h;
  }
}
