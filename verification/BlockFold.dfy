/** Input consumed in whole blocks, and the tail that is left: shared by the streaming hashes. */
module BlockFold {

  /** The accumulator after every whole block of n bytes has been consumed in turn. */
  function Fold<A>(step: (A, seq<bv8>) -> A, n: nat, acc: A, data: seq<bv8>): A
    requires n > 0
    decreases |data|
  {
    if |data| < n then acc else Fold(step, n, step(acc, data[..n]), data[n..])
  }

  /** What is left after the whole blocks. */
  function Rest(n: nat, data: seq<bv8>): (tail: seq<bv8>)
    requires n > 0
    ensures |tail| < n
    decreases |data|
  {
    if |data| < n then data else Rest(n, data[n..])
  }

  /** A fold may stop after any prefix and resume from the accumulator and the tail it left. */
  lemma {:induction false} Resume<A>(step: (A, seq<bv8>) -> A, n: nat, acc: A, fed: seq<bv8>, more: seq<bv8>)
    requires n > 0
    ensures Fold(step, n, acc, fed + more) == Fold(step, n, Fold(step, n, acc, fed), Rest(n, fed) + more)
    ensures Rest(n, fed + more) == Rest(n, Rest(n, fed) + more)
    decreases |fed|
  {
    if |fed| >= n {
      Resume(step, n, step(acc, fed[..n]), fed[n..], more);
      assert (fed + more)[..n] == fed[..n] && (fed + more)[n..] == fed[n..] + more;
    }
  }

  lemma Short<A>(step: (A, seq<bv8>) -> A, n: nat, acc: A, data: seq<bv8>)
    requires |data| < n
    ensures Fold(step, n, acc, data) == acc && Rest(n, data) == data
  {
  }

  lemma Block<A>(step: (A, seq<bv8>) -> A, n: nat, acc: A, block: seq<bv8>, more: seq<bv8>)
    requires |block| == n > 0
    ensures Fold(step, n, acc, block + more) == Fold(step, n, step(acc, block), more)
    ensures Rest(n, block + more) == Rest(n, more)
  {
    assert (block + more)[..n] == block && (block + more)[n..] == more;
  }

  /** The tail is the last |data| % n bytes. */
  lemma RestIs(n: nat, data: seq<bv8>)
    requires n == 16 || n == 32
    ensures |Rest(n, data)| == |data| % n && Rest(n, data) == data[|data| - |data| % n..]
  {
    RestIsSuffix(n, data);
    if n == 16 { RestLen16(data); } else { RestLen32(data); }
  }

  lemma {:induction false} RestIsSuffix(n: nat, data: seq<bv8>)
    requires n > 0
    ensures |Rest(n, data)| <= |data| && Rest(n, data) == data[|data| - |Rest(n, data)|..]
    decreases |data|
  {
    if |data| >= n {
      RestIsSuffix(n, data[n..]);
    }
  }

  lemma {:induction false} RestLen16(data: seq<bv8>)
    ensures |Rest(16, data)| == |data| % 16
    decreases |data|
  {
    if |data| >= 16 { RestLen16(data[16..]); }
  }

  lemma {:induction false} RestLen32(data: seq<bv8>)
    ensures |Rest(32, data)| == |data| % 32
    decreases |data|
  {
    if |data| >= 32 { RestLen32(data[32..]); }
  }

  /** The chunks end to end. */
  function Concat(chunks: seq<seq<bv8>>): seq<bv8> {
    if chunks == [] then [] else Concat(chunks[..|chunks| - 1]) + chunks[|chunks| - 1]
  }

  lemma ConcatNone()
    ensures Concat([]) == []
  {
  }

  lemma ConcatStep(chunks: seq<seq<bv8>>, i: nat)
    requires i < |chunks|
    ensures Concat(chunks[..i + 1]) == Concat(chunks[..i]) + chunks[i]
  {
    assert chunks[..i + 1][..i] == chunks[..i];
  }

  /** The next k bytes of the first len, and what follows them. */
  lemma Front(ptr: seq<bv8>, len: nat, at: nat, k: nat)
    requires 0 < k && at + k <= len <= |ptr|
    ensures var left := ptr[..len][at..];
      left[..k] == ptr[at..at + k] && left[k..] == ptr[..len][at + k..] && left[0] == ptr[at]
  {
  }

  /** memcpy into a buffer. */
  method CopyInto(buffer: array<bv8>, at: nat, bytes: seq<bv8>)
    requires at + |bytes| <= buffer.Length
    modifies buffer
    ensures buffer[..at] == old(buffer[..at]) && buffer[at..at + |bytes|] == bytes
    ensures buffer[at + |bytes|..] == old(buffer[at + |bytes|..])
    ensures buffer[..at + |bytes|] == old(buffer[..at]) + bytes
  {
    forall i | 0 <= i < |bytes| { buffer[at + i] := bytes[i]; }
  }

  /** The loop over the whole blocks of an input that has at least one; at is where its tail starts. */
  method ConsumeLong<A>(step: (A, seq<bv8>) -> A, n: nat, acc: A, input: seq<bv8>) returns (r: A, at: nat)
    requires |input| >= n > 0
    ensures at <= |input| && r == Fold(step, n, acc, input) && input[at..] == Rest(n, input)
  {
    r, at := acc, 0;
    while at + n <= |input|
      invariant at <= |input|
      invariant Fold(step, n, r, input[at..]) == Fold(step, n, acc, input)
      invariant Rest(n, input[at..]) == Rest(n, input)
    {
      var block := input[at..at + n];
      assert input[at..] == block + input[at + n..];
      Block(step, n, r, block, input[at + n..]);
      r, at := step(r, block), at + n;
    }
  }

  lemma OneBlock<A>(step: (A, seq<bv8>) -> A, n: nat, acc: A, block: seq<bv8>)
    requires |block| == n > 0
    ensures Fold(step, n, acc, block) == step(acc, block)
  {
    Block(step, n, acc, block, []);
    Short(step, n, step(acc, block), []);
    assert block + [] == block;
  }

  /** A non-empty buffer of size bytes is filled up and consumed as one block; rest is the input still to come. */
  method CompleteBuffer<A>(step: (A, seq<bv8>) -> A, n: nat, acc: A, buffer: array<bv8>, size: nat, input: seq<bv8>)
      returns (r: A, rest: seq<bv8>)
    requires buffer.Length == n && size < n <= size + |input|
    modifies buffer
    ensures Fold(step, n, r, rest) == Fold(step, n, acc, old(buffer[..size]) + input)
    ensures Rest(n, rest) == Rest(n, old(buffer[..size]) + input)
  {
    hide Fold, Rest;
    ghost var tail := buffer[..size];
    r, rest := acc, input;
    if size != 0 {
      var missing := n - size;
      CopyInto(buffer, size, rest[..missing]);
      rest := rest[missing..];
      assert tail + input == (tail + input[..missing]) + rest;
      assert buffer[..] == buffer[..n] == tail + input[..missing];
      Block(step, n, acc, buffer[..], rest);
      OneBlock(step, n, acc, buffer[..]);
      var end;
      r, end := ConsumeLong(step, n, acc, buffer[..]);
    } else {
      assert tail + input == input;
    }
  }

  /** The end of an update that overflows the buffer: what was buffered and the input are consumed as far as whole
      blocks go, and the leftover is buffered. */
  method Absorb<A>(step: (A, seq<bv8>) -> A, n: nat, acc: A, buffer: array<bv8>, size: nat, input: seq<bv8>)
      returns (r: A, left: nat)
    requires buffer.Length == n && size < n <= size + |input|
    modifies buffer
    ensures left < n && r == Fold(step, n, acc, old(buffer[..size]) + input)
    ensures buffer[..left] == Rest(n, old(buffer[..size]) + input)
  {
    hide Fold, Rest;
    var rest;
    r, rest := CompleteBuffer(step, n, acc, buffer, size, input);
    if |rest| >= n {
      var at;
      r, at := ConsumeLong(step, n, r, rest);
      rest := rest[at..];
    } else {
      Short(step, n, r, rest);
    }
    if |rest| > 0 {
      CopyInto(buffer, 0, rest);
    }
    left := |rest|;
    assert buffer[..left] == rest;
  }
}
