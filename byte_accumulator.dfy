/**
 * The length-prefix accumulator chain of the generator: each accumulator
 * buffers the bytes of one length-delimited value (an embedded message, a
 * packed array, a string) and, when finished, hands them to its parent framed
 * by their length as a base-128 varint. The root writes to the output stream.
 */
module Accumulator {
  import opened Wire

  /** A payload framed for its parent: the varint of its length, then the payload. */
  function Framed(payload: seq<byte>): (framed: seq<byte>)
    ensures |framed| > |payload|
    ensures framed[|framed| - |payload|..] == payload
  {
    LengthAsBytes(|payload|) + payload
  }

  /** A reader of the parent's bytes recovers the length and then exactly the payload, whatever follows it. */
  lemma FramedRoundTrip(payload: seq<byte>, following: seq<byte>)
    ensures var bs := Framed(payload) + following;
            && DecodeVarint(bs) == Ok((|payload|, |LengthAsBytes(|payload|)|))
            && bs[|LengthAsBytes(|payload|)|..][..|payload|] == payload
  {
    var prefix := LengthAsBytes(|payload|);
    assert Framed(payload) + following == prefix + (payload + following);
    DecodeLengthAsBytes(|payload|, payload + following);
    assert (prefix + (payload + following))[|prefix|..] == payload + following;
  }

  /** What `finish` writes to the stream at the root: the length prefix, twice, and no payload. */
  function RootOutput(payload: seq<byte>): (written: seq<byte>)
    ensures written[..|written| / 2] == written[|written| / 2..] == LengthAsBytes(|payload|)
  {
    var prefix := LengthAsBytes(|payload|);
    assert (prefix + prefix)[..|prefix|] == prefix;
    prefix + prefix
  }

  /** The varint of a length of two or more is shorter than the length. */
  lemma {:induction false} LengthAsBytesShorter(n: nat)
    requires n >= 2
    ensures |LengthAsBytes(n)| < n
    decreases n
  {
    if n >= 128 && n / 128 >= 2 {
      LengthAsBytesShorter(n / 128);
    }
  }

  /**
   * The root output agrees with the framed payload for a single payload, the
   * one-byte value 1, whose length prefix happens to be the payload itself;
   * for every other payload the payload is lost.
   */
  lemma RootOutputLosesPayload(payload: seq<byte>)
    ensures RootOutput(payload) == Framed(payload) <==> payload == [1]
  {
    var prefix := LengthAsBytes(|payload|);
    LengthAsBytesSize(|payload|);
    if RootOutput(payload) == Framed(payload) {
      assert (prefix + prefix)[|prefix|..] == prefix;
      assert (prefix + payload)[|prefix|..] == payload;
      assert payload == prefix;
      if |payload| >= 2 {
        LengthAsBytesShorter(|payload|);
      }
    }
  }

  /** A concrete payload that the root finish drops: one byte 5 gives [1, 1] instead of [1, 5]. */
  lemma RootOutputExample()
    ensures RootOutput([5]) == [1, 1]
    ensures Framed([5]) == [1, 5]
  {
    LengthAsBytesSize(1);
  }

  /** `ByteArrayOutputStream.write(buf, offset, len)` accepts the range iff it lies inside the buffer. */
  predicate InRange(bufLength: int, offset: int, len: int)
  {
    0 <= offset && 0 <= len && len <= bufLength - offset
  }

  class ByteAccumulator {
    /** The enclosing accumulator; null at the root. Fixed at construction. */
    const parent: ByteAccumulator?
    /** The bytes accumulated so far, in order. */
    var bytes: seq<byte>

    /** An accumulator is never its own parent (the parent exists before the child is created). */
    predicate Valid()
    {
      parent != this
    }

    constructor (p: ByteAccumulator?)
      ensures parent == p && bytes == []
      ensures Valid()
    {
      parent := p;
      bytes := [];
    }

    /**
     * `append(buf, offset, len)`: adds `buf[offset..offset + len]` after the
     * bytes already held; a range outside the buffer is the stream's
     * IndexOutOfBoundsException, reported here as `ok == false` with nothing added.
     */
    method Append(buf: array<byte>, offset: int, len: int) returns (ok: bool)
      modifies this
      ensures ok <==> InRange(buf.Length, offset, len)
      ensures ok ==> bytes == old(bytes) + buf[offset..offset + len]
      ensures !ok ==> bytes == old(bytes)
    {
      if !InRange(buf.Length, offset, len) {
        return false;
      }
      bytes := bytes + buf[offset..offset + len];
      ok := true;
    }

    /**
     * `finish(out)`, as written: with a parent, the parent gains the framed
     * payload after its own bytes; at the root the length prefix goes to the
     * stream twice and the payload is dropped. Returns the parent, so
     * repeated calls walk the chain toward the root.
     */
    method Finish() returns (next: ByteAccumulator?, written: seq<byte>)
      requires Valid()
      modifies parent
      ensures next == parent
      ensures bytes == old(bytes)
      ensures parent == null ==> written == RootOutput(old(bytes))
      ensures parent != null ==> written == [] && parent.bytes == old(parent.bytes) + Framed(old(bytes))
    {
      var payload := bytes;
      var lbytes := LengthAsBytes(|payload|);
      if parent == null {
        written := lbytes + lbytes;
      } else {
        parent.bytes := parent.bytes + lbytes;
        parent.bytes := parent.bytes + payload;
        written := [];
      }
      next := parent;
    }

    /** `finish(out)` as evidently intended: at the root the stream receives the framed payload. */
    method FinishFramed() returns (next: ByteAccumulator?, written: seq<byte>)
      requires Valid()
      modifies parent
      ensures next == parent
      ensures bytes == old(bytes)
      ensures parent == null ==> written == Framed(old(bytes))
      ensures parent != null ==> written == [] && parent.bytes == old(parent.bytes) + Framed(old(bytes))
    {
      var payload := bytes;
      var lbytes := LengthAsBytes(|payload|);
      if parent == null {
        written := lbytes + payload;
      } else {
        parent.bytes := parent.bytes + lbytes;
        parent.bytes := parent.bytes + payload;
        written := [];
      }
      next := parent;
    }
  }
}
