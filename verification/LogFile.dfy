/** The append-only log file of src/log_file.c and its doubly framed records. */
module LogFile {
  import opened Bytes
  import opened Integers
  import CommandFrames

  /** sizeof(kvsb_header_t): four 64-bit words and a 128-bit checksum. */
  const HEADER_SIZE: nat := 48
  /** sizeof of the header parameter, which is a pointer: the number of bytes really hashed. */
  const HASHED_SIZE: nat := 8

  type Hash = seq<byte> -> seq<byte>

  datatype Header = Header(term: nat, numCommands: nat, logIndex: nat, dataLength: nat, checksum: seq<byte>) {
    ghost predicate Fits() {
      term < U64 && numCommands < U64 && logIndex < U64 && dataLength < U64 && |checksum| == 16
    }
  }

  function HeaderBytes(h: Header): seq<byte> {
    LE(h.term, 8) + LE(h.numCommands, 8) + LE(h.logIndex, 8) + LE(h.dataLength, 8) + h.checksum
  }

  function DecodeHeader(b: seq<byte>): Header
    requires |b| == HEADER_SIZE
  {
    Header(FromLE(b[0..8]), FromLE(b[8..16]), FromLE(b[16..24]), FromLE(b[24..32]), b[32..48])
  }

  lemma HeaderRoundTrip(h: Header)
    requires h.Fits()
    ensures |HeaderBytes(h)| == 48 && DecodeHeader(HeaderBytes(h)) == h
    ensures var b := HeaderBytes(h);
      && FromLE(b[0..8]) == h.term && FromLE(b[8..16]) == h.numCommands && FromLE(b[16..24]) == h.logIndex
      && FromLE(b[24..32]) == h.dataLength && b[32..48] == h.checksum
  {
    hide LE, FromLE, Pow256;
    Widths();
    LERoundTrip(h.term, 8);
    LERoundTrip(h.numCommands, 8);
    LERoundTrip(h.logIndex, 8);
    LERoundTrip(h.dataLength, 8);
    var b := HeaderBytes(h);
    assert b[0..8] == LE(h.term, 8);
    assert b[8..16] == LE(h.numCommands, 8);
    assert b[16..24] == LE(h.logIndex, 8);
    assert b[24..32] == LE(h.dataLength, 8);
    assert b[32..48] == h.checksum;
  }

  // ----- Checksum -----

  /** The stand-in for the checksum field while hashing (its 16 bytes are never among those hashed). */
  const MAGIC_NUMBER: seq<byte> := LE(9723239452457707023, 8) + LE(15269755912704193040, 8)

  function ChecksumOf(hash: Hash, h: Header): seq<byte> {
    hash(HeaderBytes(h.(checksum := MAGIC_NUMBER))[..HASHED_SIZE])
  }

  predicate Validates(hash: Hash, h: Header) {
    h.checksum == ChecksumOf(hash, h)
  }

  class KvsbHeader {
    var header: Header

    constructor (h: Header)
      ensures header == h
    {
      header := h;
    }

    method CalcChecksum(hash: Hash)
      modifies this
      ensures header == old(header).(checksum := ChecksumOf(hash, old(header)))
      ensures Validates(hash, header)
    {
      header := header.(checksum := MAGIC_NUMBER);
      var checksum := hash(HeaderBytes(header)[..HASHED_SIZE]);
      header := header.(checksum := checksum);
    }

    /** The field is overwritten while hashing and restored afterwards. */
    method ValidateChecksum(hash: Hash) returns (ok: bool)
      modifies this
      ensures ok == Validates(hash, header) && header == old(header)
    {
      var checksum := header.checksum;
      header := header.(checksum := MAGIC_NUMBER);
      var found := hash(HeaderBytes(header)[..HASHED_SIZE]);
      header := header.(checksum := checksum);
      ok := checksum == found;
    }
  }

  /** The checksum covers the term and nothing else: a header altered from one that validates is caught
      exactly when the hash of its term no longer matches its checksum. */
  lemma ChecksumCoversTermOnly(hash: Hash, h: Header)
    ensures Validates(hash, h) <==> h.checksum == hash(LE(h.term, 8))
  {
    assert HeaderBytes(h.(checksum := MAGIC_NUMBER))[..HASHED_SIZE] == LE(h.term, 8);
  }

  /** So a change of index or length goes unnoticed, whatever the hash. */
  lemma AlteredLengthValidates(hash: Hash)
    ensures var h := Header(1, 0, 1, 8, hash(LE(1, 8)));
      Validates(hash, h) && Validates(hash, h.(dataLength := 16)) && Validates(hash, h.(logIndex := 7))
  {
    var h := Header(1, 0, 1, 8, hash(LE(1, 8)));
    ChecksumCoversTermOnly(hash, h);
    ChecksumCoversTermOnly(hash, h.(dataLength := 16));
    ChecksumCoversTermOnly(hash, h.(logIndex := 7));
  }

  // ----- Records -----

  datatype Record = Record(term: nat, logIndex: nat, data: seq<byte>) {
    ghost predicate Fits() {
      term < U64 && logIndex < U64 && |data| < U64
    }
  }

  /** The header written for a record; num_commands is always 0. */
  function RecordHeader(hash: Hash, r: Record): Header {
    var h := Header(r.term, 0, r.logIndex, |r.data|, []);
    h.(checksum := ChecksumOf(hash, h))
  }

  function RecordBytes(hash: Hash, r: Record): seq<byte> {
    var h := HeaderBytes(RecordHeader(hash, r));
    h + r.data + h
  }

  function FileOf(hash: Hash, rs: seq<Record>): seq<byte> {
    if rs == [] then [] else FileOf(hash, rs[..|rs| - 1]) + RecordBytes(hash, rs[|rs| - 1])
  }

  // ----- Offsets and counts kept in an int32_t -----

  /** sizeof(logfile_t) */
  const LOGFILE_SIZE: nat := 4
  const I32: nat := 0x8000_0000

  /** A result of lseek or write stored in an int32_t, reduced modulo 2^32 to the signed range. */
  function Truncated(result: nat): int {
    if result % U32 < I32 then result % U32 else result % U32 - U32
  }

  lemma TruncatedIs(x: nat)
    ensures -0x8000_0000 <= Truncated(x) < 0x8000_0000 && (Truncated(x) - x) % 0x1_0000_0000 == 0
    ensures x < 0x8000_0000 ==> Truncated(x) == x
  {
  }

  /** logfile_append_data: what the file holds where it returns or an assertion stops the program, and whether it
      returns. Each write transfers all its bytes. */
  function Appended(hash: Hash, file: seq<byte>, r: Record): (seq<byte>, bool) {
    var h := HeaderBytes(RecordHeader(hash, r));
    if Truncated(|file|) < 0 then (file, false)
    else if Truncated(|r.data|) < 0 then (file + h + r.data, false)
    else (file + RecordBytes(hash, r), true)
  }

  /** logfile_get_last_tai: None where one of its assertions fails. A file shorter than a header lets lseek fail. */
  function LastTai(hash: Hash, file: seq<byte>): Option<(nat, nat)> {
    if |file| < LOGFILE_SIZE then (if file == [] then Some((0, 0)) else None)
    else if |file| < HEADER_SIZE || Truncated(|file| - HEADER_SIZE) < 0 then None
    else
      var h := DecodeHeader(file[|file| - HEADER_SIZE..]);
      if Validates(hash, h) then Some((h.term, h.logIndex)) else None
  }

  lemma ValidBytes(hash: Hash, b: seq<byte>)
    requires |b| == HEADER_SIZE
    ensures Validates(hash, DecodeHeader(b)) <==> b[32..48] == hash(b[0..8])
  {
    ChecksumCoversTermOnly(hash, DecodeHeader(b));
    assert |b[0..8]| == 8;
    LEOfFromLE(b[0..8]);
    hide LE, FromLE, ChecksumOf, Validates;
  }

  /** A pair is reported exactly if the file is empty or its last 48 bytes start within 2^31 and end in the hash of
      their first 8, and then it is the one those bytes hold. */
  lemma TaiExactly(hash: Hash, file: seq<byte>)
    requires |file| < U32
    ensures file == [] ==> LastTai(hash, file) == Some((0, 0))
    ensures 0 < |file| < 48 ==> LastTai(hash, file) == None
    ensures |file| >= 48 ==> var at, b := |file| - 48, file[|file| - 48..];
      LastTai(hash, file) == if at < I32 && b[32..48] == hash(b[0..8]) then Some((FromLE(b[0..8]), FromLE(b[16..24])))
                             else None
  {
    hide Validates, FromLE;
    if |file| >= 48 { ValidBytes(hash, file[|file| - 48..]); }
  }

  class LogFile {
    var bytes: seq<byte>

    constructor ()
      ensures bytes == []
    {
      bytes := [];
    }

    /** Refused where an assertion on a truncated result stops the program. */
    method AppendData(hash: Hash, r: Record) returns (ok: bool)
      modifies this
      ensures (bytes, ok) == Appended(hash, old(bytes), r)
    {
      hide ChecksumOf, HeaderBytes, Truncated;
      var header := new KvsbHeader(Header(r.term, 0, r.logIndex, |r.data|, []));
      header.CalcChecksum(hash);
      var h := HeaderBytes(header.header);
      var res := Truncated(|bytes|);
      if res < 0 { return false; }
      bytes := bytes + h;
      res := Truncated(|r.data|);
      bytes := bytes + r.data;
      if res < 0 { return false; }
      bytes := bytes + h;
      assert bytes == old(bytes) + (h + r.data + h);
      return true;
    }

    method GetLastTai(hash: Hash) returns (tai: Option<(nat, nat)>)
      ensures tai == LastTai(hash, bytes)
    {
      hide DecodeHeader, ChecksumOf, Truncated;
      var length := |bytes|;
      if length < LOGFILE_SIZE { return if length == 0 then Some((0, 0)) else None; }
      if length < HEADER_SIZE { return None; }
      var res := Truncated(length - HEADER_SIZE);
      if res < 0 { return None; }
      var header := new KvsbHeader(DecodeHeader(bytes[|bytes| - HEADER_SIZE..]));
      var ok := header.ValidateChecksum(hash);
      tai := if ok then Some((header.header.term, header.header.logIndex)) else None;
    }
  }

  // ----- The two-header design: the file can be read from either end -----

  /** The record at the front of b and its size; both headers must agree. */
  function FirstRecord(b: seq<byte>): Option<Record> {
    if |b| < HEADER_SIZE then None
    else
      var h := DecodeHeader(b[..HEADER_SIZE]);
      var n := HEADER_SIZE + h.dataLength;
      if |b| < n + HEADER_SIZE || b[n..n + HEADER_SIZE] != b[..HEADER_SIZE] then None
      else Some(Record(h.term, h.logIndex, b[HEADER_SIZE..n]))
  }

  function LastRecord(b: seq<byte>): Option<Record> {
    if |b| < HEADER_SIZE then None
    else
      var e := |b| - HEADER_SIZE;
      var h := DecodeHeader(b[e..]);
      if e < h.dataLength + HEADER_SIZE || b[e - h.dataLength - HEADER_SIZE..e - h.dataLength] != b[e..] then None
      else Some(Record(h.term, h.logIndex, b[e - h.dataLength..e]))
  }

  function Size(r: Record): nat {
    |r.data| + 2 * HEADER_SIZE
  }

  function ParseForward(b: seq<byte>): Option<seq<Record>> {
    if b == [] then Some([])
    else match FirstRecord(b)
      case None => None
      case Some(r) =>
        if Size(r) > |b| then None
        else match ParseForward(b[Size(r)..])
          case None => None
          case Some(rs) => Some([r] + rs)
  }

  function ParseBackward(b: seq<byte>): Option<seq<Record>> {
    if b == [] then Some([])
    else match LastRecord(b)
      case None => None
      case Some(r) =>
        if Size(r) > |b| then None
        else match ParseBackward(b[..|b| - Size(r)])
          case None => None
          case Some(rs) => Some(rs + [r])
  }

  ghost predicate GoodHash(hash: Hash) {
    forall b :: |hash(b)| == 16
  }

  lemma RecordFacts(hash: Hash, r: Record)
    requires GoodHash(hash) && r.Fits()
    ensures var h := HeaderBytes(RecordHeader(hash, r));
      && |h| == HEADER_SIZE && DecodeHeader(h) == RecordHeader(hash, r) && Validates(hash, RecordHeader(hash, r))
      && |RecordBytes(hash, r)| == Size(r)
  {
    HeaderRoundTrip(RecordHeader(hash, r));
    ChecksumCoversTermOnly(hash, RecordHeader(hash, r));
    ChecksumCoversTermOnly(hash, Header(r.term, 0, r.logIndex, |r.data|, hash(LE(r.term, 8))));
    hide DecodeHeader;
    assert HeaderBytes(RecordHeader(hash, r).(checksum := MAGIC_NUMBER))[..HASHED_SIZE] == LE(r.term, 8);
    assert HeaderBytes(Header(r.term, 0, r.logIndex, |r.data|, MAGIC_NUMBER))[..HASHED_SIZE] == LE(r.term, 8);
  }

  lemma FirstOfRecord(hash: Hash, r: Record, rest: seq<byte>)
    requires GoodHash(hash) && r.Fits()
    ensures var b := RecordBytes(hash, r) + rest;
      FirstRecord(b) == Some(r) && Size(r) <= |b| && b[Size(r)..] == rest
  {
    RecordFacts(hash, r);
    hide DecodeHeader, HeaderBytes;
    var h, b := HeaderBytes(RecordHeader(hash, r)), RecordBytes(hash, r) + rest;
    var n := HEADER_SIZE + |r.data|;
    assert b[..HEADER_SIZE] == h && b[n..n + HEADER_SIZE] == h && b[HEADER_SIZE..n] == r.data;
  }

  lemma RecordIs(hash: Hash, r: Record)
    ensures var h := HeaderBytes(RecordHeader(hash, r)); RecordBytes(hash, r) == h + r.data + h
  {
    hide HeaderBytes, RecordHeader;
  }

  lemma LastOfRecord(hash: Hash, before: seq<byte>, r: Record)
    requires GoodHash(hash) && r.Fits()
    ensures var b := before + RecordBytes(hash, r);
      LastRecord(b) == Some(r) && Size(r) <= |b| && b[..|b| - Size(r)] == before
  {
    RecordFacts(hash, r);
    hide DecodeHeader, HeaderBytes, ChecksumOf, RecordHeader, GoodHash, LastRecord, RecordBytes, Validates;
    HeaderFields(hash, r);
    RecordIs(hash, r);
    LastFramed(before, HeaderBytes(RecordHeader(hash, r)), r.data);
  }

  lemma TaiOfRecord(hash: Hash, before: seq<byte>, r: Record)
    requires GoodHash(hash) && r.Fits()
    ensures var b := before + RecordBytes(hash, r);
      |b| > HEADER_SIZE
      && LastTai(hash, b) == if Truncated(|b| - HEADER_SIZE) < 0 then None else Some((r.term, r.logIndex))
  {
    hide DecodeHeader, HeaderBytes, ChecksumOf, RecordHeader, GoodHash, LastTai, RecordBytes, Truncated, Validates;
    RecordFacts(hash, r);
    HeaderFields(hash, r);
    RecordIs(hash, r);
    var h := HeaderBytes(RecordHeader(hash, r));
    var front := before + (h + r.data);
    Regroup(before, h, r.data);
    LastTaiIs(hash, front, h);
  }

  lemma Regroup(before: seq<byte>, h: seq<byte>, data: seq<byte>)
    ensures before + (h + data) + h == before + (h + data + h)
  {
  }

  lemma LastFramed(before: seq<byte>, h: seq<byte>, data: seq<byte>)
    requires |h| == HEADER_SIZE && DecodeHeader(h).dataLength == |data|
    ensures var b := before + (h + data + h); var n := |data| + 2 * HEADER_SIZE;
      && LastRecord(b) == Some(Record(DecodeHeader(h).term, DecodeHeader(h).logIndex, data))
      && n <= |b| && b[..|b| - n] == before
  {
    hide DecodeHeader;
    EndSlices(before, h, data);
  }

  lemma LastTaiIs(hash: Hash, before: seq<byte>, h: seq<byte>)
    requires |h| == HEADER_SIZE && Validates(hash, DecodeHeader(h))
    ensures LastTai(hash, before + h) ==
            if Truncated(|before|) < 0 then None else Some((DecodeHeader(h).term, DecodeHeader(h).logIndex))
  {
    hide DecodeHeader, Validates, Truncated;
    assert (before + h)[|before|..] == h;
  }

  lemma EndSlices(before: seq<byte>, h: seq<byte>, data: seq<byte>)
    ensures var b := before + (h + data + h); var e := |b| - |h|;
      b[e..] == h && b[e - |data|..e] == data && b[e - |data| - |h|..e - |data|] == h && b[..e - |data| - |h|] == before
  {
  }

  lemma HeaderFields(hash: Hash, r: Record)
    ensures var h := RecordHeader(hash, r); h.dataLength == |r.data| && h.term == r.term && h.logIndex == r.logIndex
  {
  }

  lemma NoRecords(hash: Hash)
    ensures FileOf(hash, []) == [] && ParseBackward([]) == Some([]) && ParseForward([]) == Some([])
    ensures LastTai(hash, []) == Some((0, 0))
  {
  }

  lemma FileSnoc(hash: Hash, rs: seq<Record>, r: Record)
    ensures FileOf(hash, rs + [r]) == FileOf(hash, rs) + RecordBytes(hash, r)
  {
    hide RecordBytes;
    assert (rs + [r])[..|rs|] == rs;
  }

  lemma BackwardSnoc(hash: Hash, b: seq<byte>, r: Record)
    requires GoodHash(hash) && r.Fits() && ParseBackward(b).Some?
    ensures ParseBackward(b + RecordBytes(hash, r)) == Some(ParseBackward(b).value + [r])
  {
    LastOfRecord(hash, b, r);
    hide RecordBytes, LastRecord;
  }

  /** The file of any sequence of records reads back as those records from its end. */
  lemma {:induction false} ReadBackward(hash: Hash, rs: seq<Record>)
    requires GoodHash(hash) && forall i | 0 <= i < |rs| :: rs[i].Fits()
    ensures ParseBackward(FileOf(hash, rs)) == Some(rs)
  {
    hide *;
    if rs == [] {
      NoRecords(hash);
    } else {
      var init, r := rs[..|rs| - 1], rs[|rs| - 1];
      ReadBackward(hash, init);
      assert init + [r] == rs;
      FileSnoc(hash, init, r);
      BackwardSnoc(hash, FileOf(hash, init), r);
    }
  }

  lemma {:induction false} ForwardSnoc(hash: Hash, b: seq<byte>, rs: seq<Record>, r: Record)
    requires GoodHash(hash) && r.Fits() && ParseForward(b) == Some(rs)
    ensures ParseForward(b + RecordBytes(hash, r)) == Some(rs + [r])
    decreases |b|
  {
    hide RecordBytes, FirstRecord, ParseForward;
    var c := RecordBytes(hash, r);
    ForwardUnfold(b);
    ForwardUnfold(b + c);
    if b == [] {
      FirstOfRecord(hash, r, []);
      assert c + [] == c && [] + c == c;
      ForwardUnfold([]);
      assert rs + [r] == [r] + [];
    } else {
      var q := FirstRecord(b).value;
      var n := Size(q);
      ForwardSnoc(hash, b[n..], rs[1..], r);
      FirstExtends(b, c);
      assert (b + c)[n..] == b[n..] + c;
      assert [q] + (rs[1..] + [r]) == rs + [r];
    }
  }

  lemma ForwardUnfold(b: seq<byte>)
    ensures b == [] ==> ParseForward(b) == Some([])
    ensures b != [] ==> ParseForward(b) == match FirstRecord(b)
                                           case None => None
                                           case Some(r) =>
                                             if Size(r) > |b| then None
                                             else match ParseForward(b[Size(r)..])
                                               case None => None
                                               case Some(rs) => Some([r] + rs)
  {
    hide FirstRecord;
  }

  lemma FirstExtends(b: seq<byte>, c: seq<byte>)
    requires FirstRecord(b).Some?
    ensures FirstRecord(b + c) == FirstRecord(b) && Size(FirstRecord(b).value) <= |b|
  {
    hide DecodeHeader;
    var n := HEADER_SIZE + DecodeHeader(b[..HEADER_SIZE]).dataLength;
    assert (b + c)[..HEADER_SIZE] == b[..HEADER_SIZE];
    assert (b + c)[n..n + HEADER_SIZE] == b[n..n + HEADER_SIZE];
    assert (b + c)[HEADER_SIZE..n] == b[HEADER_SIZE..n];
  }

  /** And from the front. Either way the records are determined by the bytes. */
  lemma {:induction false} ReadForward(hash: Hash, rs: seq<Record>)
    requires GoodHash(hash) && forall i | 0 <= i < |rs| :: rs[i].Fits()
    ensures ParseForward(FileOf(hash, rs)) == Some(rs)
  {
    hide *;
    if rs == [] {
      NoRecords(hash);
    } else {
      var init, r := rs[..|rs| - 1], rs[|rs| - 1];
      ReadForward(hash, init);
      assert init + [r] == rs;
      FileSnoc(hash, init, r);
      ForwardSnoc(hash, FileOf(hash, init), init, r);
    }
  }

  // ----- How far the file can grow -----

  /** The appends of rs to an empty file, up to the first that does not return. */
  function AppendAll(hash: Hash, rs: seq<Record>): (seq<byte>, bool) {
    if rs == [] then ([], true)
    else
      var (file, ok) := AppendAll(hash, rs[..|rs| - 1]);
      if ok then Appended(hash, file, rs[|rs| - 1]) else (file, false)
  }

  /** Records whose data fill at most the block of a command buffer, as all do that the program appends. */
  predicate FromBuffers(rs: seq<Record>) {
    forall i | 0 <= i < |rs| :: rs[i].term < U64 && rs[i].logIndex < U64 && |rs[i].data| <= CommandFrames.CMDBUF_SIZE
  }

  /** All appends return exactly when the offset of each, and the length of its data, is not negative in 32 bits;
      then the file is the records. */
  lemma {:induction false} AppendsComplete(hash: Hash, rs: seq<Record>)
    ensures AppendAll(hash, rs).1 <==> forall i | 0 <= i < |rs| ::
              Truncated(|FileOf(hash, rs[..i])|) >= 0 && Truncated(|rs[i].data|) >= 0
    ensures AppendAll(hash, rs).1 ==> AppendAll(hash, rs).0 == FileOf(hash, rs)
    decreases |rs|
  {
    hide RecordBytes, Appended, AppendAll, FileOf, Truncated;
    if rs == [] {
      AppendNone(hash);
    } else {
      var n := |rs| - 1;
      AppendsComplete(hash, rs[..n]);
      assert forall i | 0 <= i < n :: rs[..n][..i] == rs[..i] && rs[..n][i] == rs[i];
      AppendLast(hash, rs);
      AppendReturns(hash, AppendAll(hash, rs[..n]).0, rs[n]);
    }
  }

  lemma AppendNone(hash: Hash)
    ensures AppendAll(hash, []) == ([], true) && FileOf(hash, []) == []
  {
  }

  lemma AppendLast(hash: Hash, rs: seq<Record>)
    requires rs != []
    ensures var n := |rs| - 1; var (file, ok) := AppendAll(hash, rs[..n]);
      && AppendAll(hash, rs) == (if ok then Appended(hash, file, rs[n]) else (file, false))
      && FileOf(hash, rs) == FileOf(hash, rs[..n]) + RecordBytes(hash, rs[n])
  {
    hide Appended, RecordBytes;
  }

  lemma AppendReturns(hash: Hash, file: seq<byte>, r: Record)
    ensures Appended(hash, file, r).1 <==> Truncated(|file|) >= 0 && Truncated(|r.data|) >= 0
    ensures Appended(hash, file, r).1 ==> Appended(hash, file, r).0 == file + RecordBytes(hash, r)
  {
    hide RecordBytes, Truncated, HeaderBytes, RecordHeader;
  }

  lemma FileGrows(hash: Hash, rs: seq<Record>, i: nat)
    requires GoodHash(hash) && i < |rs| && rs[i].Fits()
    ensures |FileOf(hash, rs[..i + 1])| == |FileOf(hash, rs[..i])| + Size(rs[i])
  {
    RecordFacts(hash, rs[i]);
    hide RecordBytes, FileOf, GoodHash;
    FileSnoc(hash, rs[..i], rs[i]);
    assert rs[..i] + [rs[i]] == rs[..i + 1];
  }

  /** For the records the program writes that means: the file is below 2^31 bytes before each append. */
  lemma AppendsCompleteExactly(hash: Hash, rs: seq<Record>)
    requires GoodHash(hash) && FromBuffers(rs)
    ensures AppendAll(hash, rs).1 <==> forall i | 0 <= i < |rs| :: |FileOf(hash, rs[..i])| < I32
  {
    AppendsComplete(hash, rs);
    hide FileOf, AppendAll, GoodHash;
    if AppendAll(hash, rs).1 {
      StaysBelow(hash, rs);
    }
  }

  /** One record from a buffer cannot carry the file across the negative offsets. */
  lemma StaysBelow(hash: Hash, rs: seq<Record>)
    requires GoodHash(hash) && FromBuffers(rs)
    requires forall i | 0 <= i < |rs| :: Truncated(|FileOf(hash, rs[..i])|) >= 0
    ensures forall i | 0 <= i < |rs| :: |FileOf(hash, rs[..i])| < I32
    ensures |FileOf(hash, rs)| < U32
  {
    NoRecords(hash);
    hide FileOf, GoodHash;
    assert rs[..0] == [] && rs[..|rs|] == rs;
    for k := 0 to |rs|
      invariant |FileOf(hash, rs[..k])| < U32
      invariant forall i | 0 <= i < k :: |FileOf(hash, rs[..i])| < I32
    {
      assert |FileOf(hash, rs[..k])| < I32;
      FileGrows(hash, rs, k);
    }
  }

  /** After appends that all returned, logfile_get_last_tai reports the last one's pair exactly while the file is
      no longer than 2^31 + 47 bytes, and an assertion stops it otherwise. */
  lemma LastPairExactly(hash: Hash, rs: seq<Record>)
    requires GoodHash(hash) && FromBuffers(rs) && AppendAll(hash, rs).1 && rs != []
    ensures var r, file := rs[|rs| - 1], AppendAll(hash, rs).0;
      LastTai(hash, file) == if |file| <= I32 + 47 then Some((r.term, r.logIndex)) else None
  {
    hide FileOf, AppendAll, GoodHash, LastTai;
    AppendsComplete(hash, rs);
    StaysBelow(hash, rs);
    LastTaiOf(hash, rs);
  }

  lemma LastTaiOf(hash: Hash, rs: seq<Record>)
    requires GoodHash(hash) && rs != [] && rs[|rs| - 1].Fits()
    ensures var r, file := rs[|rs| - 1], FileOf(hash, rs);
      |file| > HEADER_SIZE
      && LastTai(hash, file) == if Truncated(|file| - HEADER_SIZE) < 0 then None else Some((r.term, r.logIndex))
  {
    hide FileOf, GoodHash, LastTai, LastRecord, RecordBytes, Truncated;
    var n := |rs| - 1;
    FileGrows(hash, rs, n);
    assert rs[..n] + [rs[n]] == rs && rs[..n + 1] == rs;
    FileSnoc(hash, rs[..n], rs[n]);
    TaiOfRecord(hash, FileOf(hash, rs[..n]), rs[n]);
  }

  /** n records with length bytes of data each. */
  function Uniform(n: nat, length: nat): (rs: seq<Record>)
    ensures |rs| == n
  {
    seq(n, i requires 0 <= i < n => Record(1, i + 1, Zeros(length)))
  }

  lemma {:induction false} UniformSize(hash: Hash, n: nat, length: nat, k: nat)
    requires GoodHash(hash) && n < U64 - 1 && length < U64 && k <= n
    ensures |FileOf(hash, Uniform(n, length)[..k])| == k * (length + 2 * HEADER_SIZE)
  {
    NoRecords(hash);
    hide FileOf, GoodHash;
    if k > 0 {
      UniformSize(hash, n, length, k - 1);
      assert Uniform(n, length)[k - 1] == Record(1, k, Zeros(length));
      FileGrows(hash, Uniform(n, length), k - 1);
      var size := length + 2 * HEADER_SIZE;
      assert k * size == (k - 1) * size + size;
    } else {
      assert Uniform(n, length)[..0] == [];
    }
  }

  /** 32 records of 2^26 bytes with their headers fill the file to 2^31 bytes, and the next append is refused. */
  lemma FullFileRefuses(hash: Hash, r: Record)
    requires GoodHash(hash)
    ensures var rs := Uniform(32, 0x400_0000 - 2 * HEADER_SIZE);
      FromBuffers(rs) && AppendAll(hash, rs) == (FileOf(hash, rs), true) && |FileOf(hash, rs)| == I32
      && !Appended(hash, FileOf(hash, rs), r).1 && LastTai(hash, FileOf(hash, rs)) == Some((1, 32))
  {
    var length := 0x400_0000 - 2 * HEADER_SIZE;
    var rs := Uniform(32, length);
    forall k | 0 <= k <= 32 ensures |FileOf(hash, rs[..k])| == k * 0x400_0000 { UniformSize(hash, 32, length, k); }
    assert rs[..32] == rs;
    AppendsCompleteExactly(hash, rs);
    AppendsComplete(hash, rs);
    LastPairExactly(hash, rs);
    hide FileOf, AppendAll, GoodHash, LastTai;
  }

  /** 33 records of 64 bytes less return, but the pair of the last is out of reach. */
  lemma LastPairLost(hash: Hash)
    requires GoodHash(hash)
    ensures var rs := Uniform(33, 0x400_0000 - 64 - 2 * HEADER_SIZE);
      FromBuffers(rs) && AppendAll(hash, rs) == (FileOf(hash, rs), true) && LastTai(hash, FileOf(hash, rs)) == None
  {
    var length := 0x400_0000 - 64 - 2 * HEADER_SIZE;
    var rs := Uniform(33, length);
    forall k | 0 <= k <= 33 ensures |FileOf(hash, rs[..k])| == k * (0x400_0000 - 64) {
      UniformSize(hash, 33, length, k);
    }
    assert rs[..33] == rs;
    AppendsCompleteExactly(hash, rs);
    AppendsComplete(hash, rs);
    LastPairExactly(hash, rs);
    hide FileOf, AppendAll, GoodHash, LastTai;
  }
}
