/** Reassembly of the byte stream of an application face into packets. */
module AppStream {
  import opened Ndn
  import opened Framing
  import opened Tlv

  /** The largest packet, and the size of the receive buffer. */
  const MAX_NDN_PACKET_SIZE: nat := 8800

  datatype Stream = Stream(buffer: Bytes, dispatched: seq<Bytes>, failed: bool)

  const START := Stream([], [], false)

  /** One receive callback; after the "packet too large" exception nothing is received. */
  function Receive(r: Reader, s: Stream, chunk: Bytes): Stream {
    if s.failed then s
    else
      var bytes := s.buffer + chunk;
      Stream(Rest(r, bytes), s.dispatched + Elements(r, bytes), |Rest(r, bytes)| == MAX_NDN_PACKET_SIZE)
  }

  function ReceiveAll(r: Reader, s: Stream, chunks: seq<Bytes>): Stream
    decreases |chunks|
  {
    if chunks == [] then s else ReceiveAll(r, Receive(r, s, chunks[0]), chunks[1..])
  }

  /** Every chunk fits the window offered to the socket when it arrives. */
  predicate ChunksFit(r: Reader, s: Stream, chunks: seq<Bytes>)
    decreases |chunks|
  {
    chunks != [] ==>
      (s.failed || |s.buffer| + |chunks[0]| <= MAX_NDN_PACKET_SIZE)
      && ChunksFit(r, Receive(r, s, chunks[0]), chunks[1..])
  }

  /** No element, finished or not, outgrows the buffer. */
  predicate NothingTooLarge(r: Reader, bytes: Bytes) {
    (forall e :: e in Elements(r, bytes) ==> |e| <= MAX_NDN_PACKET_SIZE)
    && |Rest(r, bytes)| < MAX_NDN_PACKET_SIZE
  }

  lemma {:induction false} ElementsFitBuffer(r: Reader, bytes: Bytes)
    ensures forall e :: e in Elements(r, bytes) ==> |e| <= |bytes|
    ensures |Rest(r, bytes)| <= |bytes|
    decreases |bytes|
  {
    if r(bytes).Some? {
      var head, tail := FirstElement(r, bytes);
      ElementsFitBuffer(r, tail);
    }
  }

  /** A full buffer without a complete element never becomes acceptable again. */
  lemma FullBufferIsTooLarge(r: Reader, rest: Bytes, more: Bytes)
    requires r(rest).None? && |rest| == MAX_NDN_PACKET_SIZE
    ensures !NothingTooLarge(r, rest + more)
  {
    var bytes := rest + more;
    if r(bytes).Some? {
      var n := r(bytes).value;
      assert PrefixLaw(r, bytes, |rest|);
      assert bytes[..|rest|] == rest;
      assert bytes[..n] in Elements(r, bytes);
    }
  }

  lemma NothingTooLargeResumes(r: Reader, sofar: Bytes, more: Bytes)
    requires NothingTooLarge(r, sofar)
    ensures NothingTooLarge(r, sofar + more) <==> NothingTooLarge(r, Rest(r, sofar) + more)
  {
    ParseResumes(r, sofar, more);
  }

  /** The state reached from any point is a function of the bytes alone. */
  lemma {:induction false} StateFollowsBytes(r: Reader, sofar: Bytes, s: Stream, chunks: seq<Bytes>)
    requires NothingTooLarge(r, sofar) && s == Stream(Rest(r, sofar), Elements(r, sofar), false)
    requires ChunksFit(r, s, chunks)
    ensures var bytes := sofar + Flatten(chunks);
            var end := ReceiveAll(r, s, chunks);
            (end.failed <==> !NothingTooLarge(r, bytes))
            && (!end.failed ==> end == Stream(Rest(r, bytes), Elements(r, bytes), false))
    decreases |chunks|
  {
    if chunks == [] {
      assert sofar + Flatten(chunks) == sofar;
    } else {
      var sofar', more := sofar + chunks[0], Flatten(chunks[1..]);
      var s' := Receive(r, s, chunks[0]);
      assert sofar + Flatten(chunks) == sofar' + more;
      ParseResumes(r, sofar, chunks[0]);
      ElementsFitBuffer(r, s.buffer + chunks[0]);
      if s'.failed {
        PartsAreElements(r, s.buffer + chunks[0]);
        FailureIsPermanent(r, s', chunks[1..]);
        TooLargeForever(r, sofar', more);
      } else {
        NothingTooLargeResumes(r, sofar, chunks[0]);
        StateFollowsBytes(r, sofar', s', chunks[1..]);
      }
    }
  }

  lemma {:induction false} FailureIsPermanent(r: Reader, s: Stream, chunks: seq<Bytes>)
    requires s.failed
    ensures ReceiveAll(r, s, chunks) == s
    decreases |chunks|
  {
    if chunks == [] {
    } else {
      FailureIsPermanent(r, s, chunks[1..]);
    }
  }

  lemma TooLargeForever(r: Reader, sofar: Bytes, more: Bytes)
    requires |Rest(r, sofar)| == MAX_NDN_PACKET_SIZE
    ensures !NothingTooLarge(r, sofar + more)
  {
    ParseResumes(r, sofar, more);
    PartsAreElements(r, sofar);
    FullBufferIsTooLarge(r, Rest(r, sofar), more);
    if |Rest(r, sofar + more)| < MAX_NDN_PACKET_SIZE {
      var e :| e in Elements(r, Rest(r, sofar) + more) && |e| > MAX_NDN_PACKET_SIZE;
      assert e in Elements(r, sofar + more);
    }
  }

  /** Whatever the chunking, a stream is refused iff some element outgrows the buffer, and
      otherwise exactly its complete elements have been dispatched, in order, and exactly
      the bytes behind them are buffered. */
  lemma ChunkingInvariance(r: Reader, chunks: seq<Bytes>)
    requires ChunksFit(r, START, chunks)
    ensures var bytes, end := Flatten(chunks), ReceiveAll(r, START, chunks);
            (end.failed <==> !NothingTooLarge(r, bytes))
            && (!end.failed ==> end.dispatched == Elements(r, bytes) && end.buffer == Rest(r, bytes)
                                && Flatten(end.dispatched) + end.buffer == bytes)
  {
    NothingInNothing(r);
    StateFollowsBytes(r, [], START, chunks);
    assert [] + Flatten(chunks) == Flatten(chunks);
    Reassembles(r, Flatten(chunks));
  }

  lemma SameBytesSamePackets(r: Reader, chunks: seq<Bytes>, others: seq<Bytes>)
    requires ChunksFit(r, START, chunks) && ChunksFit(r, START, others)
    requires Flatten(chunks) == Flatten(others)
    ensures ReceiveAll(r, START, chunks).failed == ReceiveAll(r, START, others).failed
    ensures !ReceiveAll(r, START, chunks).failed ==> ReceiveAll(r, START, chunks) == ReceiveAll(r, START, others)
  {
    ChunkingInvariance(r, chunks);
    ChunkingInvariance(r, others);
  }

  /** A stream of elements that each fit the buffer arrives intact under any chunking. */
  lemma WellFormedStreamArrives(r: Reader, es: seq<Bytes>, chunks: seq<Bytes>)
    requires forall e :: e in es ==> IsElement(r, e) && |e| <= MAX_NDN_PACKET_SIZE
    requires ChunksFit(r, START, chunks) && Flatten(chunks) == Flatten(es)
    ensures ReceiveAll(r, START, chunks) == Stream([], es, false)
  {
    ElementsOfFlatten(r, es);
    ChunkingInvariance(r, chunks);
  }

  /** The parse has reached `offset` and found `parts`. */
  ghost predicate Parsed(r: Reader, bytes: Bytes, offset: nat, parts: seq<Bytes>) {
    offset <= |bytes| && Elements(r, bytes) == parts + Elements(r, bytes[offset..])
    && Rest(r, bytes) == Rest(r, bytes[offset..])
  }

  lemma ParsedNothing(r: Reader, bytes: Bytes)
    ensures Parsed(r, bytes, 0, [])
  {
    assert bytes[0..] == bytes;
  }

  lemma ParsedNext(r: Reader, bytes: Bytes, offset: nat, parts: seq<Bytes>)
    requires Parsed(r, bytes, offset, parts) && r(bytes[offset..]).Some?
    ensures var next := offset + r(bytes[offset..]).value;
            offset < next <= |bytes| && Parsed(r, bytes, next, parts + [bytes[offset..next]])
  {
    var next := offset + r(bytes[offset..]).value;
    var head, tail := FirstElement(r, bytes[offset..]);
    assert head == bytes[offset..next] && tail == bytes[next..];
  }

  lemma ParsedAll(r: Reader, bytes: Bytes, offset: nat, parts: seq<Bytes>)
    requires Parsed(r, bytes, offset, parts) && r(bytes[offset..]).None?
    ensures Elements(r, bytes) == parts && Rest(r, bytes) == bytes[offset..]
  {
  }

  /** In particular a stream of encoded packets, under the TLV reader. */
  lemma EncodedPacketsArrive(types: seq<nat>, values: seq<Bytes>, packets: seq<Bytes>, chunks: seq<Bytes>)
    requires |types| == |values| == |packets|
    requires forall k :: 0 <= k < |packets| ==>
               types[k] <= 0xFFFF_FFFF && |values[k]| < Pow256(8)
               && packets[k] == Encode(types[k], values[k]) && |packets[k]| <= 8800
    requires ChunksFit(TlvReader(), START, chunks) && Flatten(chunks) == Flatten(packets)
    ensures ReceiveAll(TlvReader(), START, chunks) == Stream([], packets, false)
  {
    forall p | p in packets ensures IsElement(TlvReader(), p) && |p| <= MAX_NDN_PACKET_SIZE {
      var k :| 0 <= k < |packets| && packets[k] == p;
      EncodeIsElement(types[k], values[k]);
    }
    WellFormedStreamArrives(TlvReader(), packets, chunks);
  }

  datatype Outcome = Listening | TooLarge | Closed

  class AppFace {
    const id: FaceId

    /** The packets handed to the socket, in order. */
    var outgoing: seq<Packet>

    /** The block reader of the packet library. */
    const reader: Reader

    const inputBuffer: array<Byte>
    var inputBufferSize: nat

    /** The blocks passed to `Dispatch`, in order. */
    var dispatched: seq<Bytes>

    /** Every byte received so far. */
    ghost var received: Bytes

    ghost function State(): Stream
      reads this, inputBuffer
      requires inputBufferSize <= inputBuffer.Length
    {
      Stream(inputBuffer[..inputBufferSize], dispatched, inputBufferSize == inputBuffer.Length)
    }

    ghost predicate Valid()
      reads this, inputBuffer
    {
      inputBuffer.Length == MAX_NDN_PACKET_SIZE
      && inputBufferSize < MAX_NDN_PACKET_SIZE
      && inputBuffer[..inputBufferSize] == Rest(reader, received)
      && dispatched == Elements(reader, received)
    }

    constructor (id: FaceId, reader: Reader)
      ensures this.id == id && outgoing == []
      ensures Valid() && received == [] && State() == START && this.reader == reader
    {
      this.id, this.reader := id, reader;
      inputBuffer := new Byte[MAX_NDN_PACKET_SIZE];
      inputBufferSize, dispatched, received, outgoing := 0, [], [], [];
      new;
      NothingInNothing(reader);
    }

    method Send(packet: Packet)
      modifies this`outgoing
      ensures outgoing == old(outgoing) + [packet]
    {
      outgoing := outgoing + [packet];
    }

    /** `n` bytes have been written behind the buffered ones; parse, dispatch and compact. */
    method HandleReceive(error: bool, n: nat) returns (outcome: Outcome)
      requires Valid()
      requires inputBufferSize + n <= MAX_NDN_PACKET_SIZE
      modifies this`inputBufferSize, this`dispatched, this`received, inputBuffer
      ensures error ==> outcome == Closed && unchanged(this) && unchanged(inputBuffer)
      ensures !error ==>
                inputBufferSize <= inputBuffer.Length
                && State() == Receive(reader, old(State()), old(inputBuffer[inputBufferSize..inputBufferSize + n]))
                && received == old(received) + old(inputBuffer[inputBufferSize..inputBufferSize + n])
                && (outcome == TooLarge <==> |Rest(reader, received)| == 8800)
                && (outcome == Listening <==> Valid())
    {
      if error {
        return Closed;
      }
      ghost var chunk := inputBuffer[inputBufferSize..inputBufferSize + n];
      ghost var bytes := inputBuffer[..inputBufferSize] + chunk;
      ParseResumes(reader, received, chunk);
      received := received + chunk;
      inputBufferSize := inputBufferSize + n;
      assert inputBuffer[..inputBufferSize] == bytes;

      var offset, isOk := DispatchComplete();

      if !isOk && inputBufferSize == MAX_NDN_PACKET_SIZE && offset == 0 {
        return TooLarge;
      }
      if offset > 0 {
        if offset != inputBufferSize {
          var kept := inputBufferSize - offset;
          Compact(offset, kept);
          inputBufferSize := kept;
        } else {
          inputBufferSize := 0;
        }
      }
      return Listening;
    }

    /** The parse loop of `HandleReceive`. */
    method DispatchComplete() returns (offset: nat, isOk: bool)
      requires inputBufferSize <= inputBuffer.Length
      modifies this`dispatched
      ensures dispatched == old(dispatched) + Elements(reader, inputBuffer[..inputBufferSize])
      ensures offset <= inputBufferSize
      ensures inputBuffer[offset..inputBufferSize] == Rest(reader, inputBuffer[..inputBufferSize])
      ensures isOk <==> offset == inputBufferSize
    {
      offset, isOk := 0, true;
      var bytes := inputBuffer[..inputBufferSize];
      ghost var sofar, parts := dispatched, [];
      ParsedNothing(reader, bytes);
      while inputBufferSize - offset > 0
        invariant Parsed(reader, bytes, offset, parts) && dispatched == sofar + parts && isOk
        decreases inputBufferSize - offset
      {
        var element := reader(bytes[offset..]);
        isOk := element.Some?;
        if !isOk {
          break;
        }
        ParsedNext(reader, bytes, offset, parts);
        var block := bytes[offset..offset + element.value];
        parts := parts + [block];
        dispatched := dispatched + [block];
        offset := offset + element.value;
      }
      if offset == inputBufferSize { NothingInNothing(reader); }
      ParsedAll(reader, bytes, offset, parts);
    }

    /** Copies forward onto itself; the ranges may overlap. */
    method Compact(offset: nat, kept: nat)
      requires offset + kept <= inputBuffer.Length
      modifies inputBuffer
      ensures inputBuffer[..kept] == old(inputBuffer[offset..offset + kept])
    {
      for k := 0 to kept
        invariant inputBuffer[..k] == old(inputBuffer[offset..offset + k])
        invariant forall j :: offset + k <= j < inputBuffer.Length ==> inputBuffer[j] == old(inputBuffer[j])
      {
        inputBuffer[k] := inputBuffer[offset + k];
      }
    }
  }
}
