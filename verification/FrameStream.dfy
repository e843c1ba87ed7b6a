/**
 * Frames over a byte stream: the accumulator, and what it yields however the bytes are cut.
 */
module FrameStream {
  import opened Domain
  import opened LittleEndian
  import opened Frame
  import opened Buffers
  import Crc32

  // ---- encoding and decoding as they run ----------------------------------

  /** Writes the header up to the tag, field by field. */
  method PutHeader(out: array<byte>, h: FrameHeader, length: nat)
    requires out.Length >= HEADER_BYTES
    modifies out
    ensures out[..CHECKSUM_OFFSET] == Prefix(h, length)
  {
    hide StoreLe;
    PutAt(out, 0, MAGIC);
    assert out[..VERSION_OFFSET] == MAGIC;
    PutAt(out, VERSION_OFFSET, StoreLe(2, h.version));
    PutAt(out, KIND_OFFSET, StoreLe(2, h.kind));
    PutAt(out, FLAGS_OFFSET, StoreLe(4, h.flags));
    PutAt(out, SEQUENCE_OFFSET, StoreLe(8, h.sequence));
    PutAt(out, EPOCH_OFFSET, StoreLe(8, h.epoch));
    PutAt(out, BOOT_OFFSET, StoreLe(8, h.boot));
    PutAt(out, LENGTH_OFFSET, StoreLe(4, length));
  }

  method EncodeInto(h: FrameHeader, payload: seq<byte>, maxPayload: nat) returns (r: Result<seq<byte>>)
    ensures r == EncodeFrame(h, payload, maxPayload)
  {
    hide Tag, Prefix, Encoded;
    if |payload| > maxPayload {
      return Err(CapacityExceeded);
    }
    if !KnownKind(h.kind) {
      return Err(InvalidArgument);
    }
    var out := new byte[HEADER_BYTES + |payload|];
    PutHeader(out, h, |payload|);
    PutAt(out, HEADER_BYTES, payload);
    assert out[..HEADER_BYTES][..CHECKSUM_OFFSET] == out[..CHECKSUM_OFFSET] == Prefix(h, |payload|);
    assert out[HEADER_BYTES..] == out[..HEADER_BYTES + |payload|][HEADER_BYTES..] == payload;
    PutAt(out, CHECKSUM_OFFSET, NO_TAG);
    assert out[..] == out[..HEADER_BYTES] + out[HEADER_BYTES..];
    r := Seal(h, payload, out);
  }

  /** Computes the tag over the zeroed field and stores it. */
  method Seal(h: FrameHeader, payload: seq<byte>, out: array<byte>) returns (r: Result<seq<byte>>)
    requires out[..] == Prefix(h, |payload|) + NO_TAG + payload
    modifies out
    ensures r == Ok(Encoded(h, payload))
  {
    hide StoreLe, Crc32.Checksum, TagOf;
    ghost var was := out[..];
    assert was[..CHECKSUM_OFFSET] == Prefix(h, |payload|) && was[HEADER_BYTES..] == payload;
    assert out[..CHECKSUM_OFFSET] == was[..CHECKSUM_OFFSET] && out[HEADER_BYTES..] == was[HEADER_BYTES..];
    var checksum := Crc32.ComputeChecksum(out[..]);
    CopyInto(out, CHECKSUM_OFFSET, TagOf(checksum));
    r := Ok(out[..]);
  }

  method DecodeFrom(data: seq<byte>, maxPayload: nat) returns (r: Result<Option<(Frame, nat)>>)
    ensures r == match TryDecode(data, maxPayload)
                 case NeedMore => Ok(None)
                 case Refused(code) => Err(code)
                 case Complete(frame, consumed) => Ok(Some((frame, consumed)))
  {
    hide LoadLe, Crc32.Checksum, TagOf;
    if |data| < HEADER_BYTES {
      if |data| < 4 {
        return Ok(None);
      }
      if data[..4] != MAGIC {
        return Err(MalformedFrame);
      }
      return Ok(None);
    }
    if data[..4] != MAGIC {
      return Err(MalformedFrame);
    }
    var version := LoadLe(data[VERSION_OFFSET..KIND_OFFSET]);
    if version < PROTOCOL_VERSION || version > PROTOCOL_VERSION {
      return Err(UnsupportedVersion);
    }
    var kind := LoadLe(data[KIND_OFFSET..FLAGS_OFFSET]);
    if !KnownKind(kind) {
      return Err(MalformedFrame);
    }
    var length := LoadLe(data[LENGTH_OFFSET..CHECKSUM_OFFSET]);
    if length > maxPayload {
      return Err(CapacityExceeded);
    }
    if length > |data| - HEADER_BYTES {
      return Ok(None);
    }
    var total := HEADER_BYTES + length;
    var scratch := data[..CHECKSUM_OFFSET] + NO_TAG + data[HEADER_BYTES..total];
    var computed := Crc32.ComputeChecksum(scratch);
    if data[CHECKSUM_OFFSET..HEADER_BYTES] != TagOf(computed) {
      return Err(IntegrityFailure);
    }
    r := Ok(Some((FrameAt(data, total), total)));
  }

  // ---- the accumulator ----------------------------------------------------

  class Accumulator {
    const maxPayload: nat
    const buffer: array<byte>
    var size: nat

    ghost predicate Valid()
      reads this
    {
      buffer.Length == maxPayload + HEADER_BYTES && size <= buffer.Length
    }

    ghost function Buffered(): seq<byte>
      requires Valid()
      reads this, buffer
    {
      buffer[..size]
    }

    constructor (maxPayload: nat)
      ensures Valid() && fresh(buffer) && this.maxPayload == maxPayload && Buffered() == []
    {
      this.maxPayload := maxPayload;
      buffer := new byte[maxPayload + HEADER_BYTES];
      size := 0;
    }

    method Append(data: seq<byte>) returns (r: Result<()>)
      requires Valid()
      modifies this`size, buffer
      ensures Valid()
      ensures r == if |data| > maxPayload + HEADER_BYTES - |old(Buffered())| then Err(CapacityExceeded) else Ok(())
      ensures Buffered() == if r.Ok? then old(Buffered()) + data else old(Buffered())
    {
      if |data| > buffer.Length - size {
        return Err(CapacityExceeded);
      }
      CopyInto(buffer, size, data);
      assert buffer[..][..size + |data|] == old(buffer[..size]) + data;
      assert buffer[..size + |data|] == buffer[..][..size + |data|];
      size := size + |data|;
      r := Ok(());
    }

    /** Moves the unread bytes to the front. */
    method Discard(n: nat)
      requires Valid() && n <= size
      modifies this`size, buffer
      ensures Valid() && Buffered() == old(Buffered())[n..]
    {
      ghost var was := buffer[..size];
      var total := size;
      for i := 0 to total - n
        modifies buffer
        invariant forall k | 0 <= k < i :: buffer[k] == was[n + k]
        invariant forall k | i <= k < total :: buffer[k] == was[k]
      {
        buffer[i] := buffer[n + i];
      }
      size := size - n;
    }

    method Next() returns (r: Result<Option<Frame>>)
      requires Valid()
      modifies this`size, buffer
      ensures Valid()
      ensures match TryDecode(old(Buffered()), maxPayload)
              case NeedMore => r == Ok(None) && Buffered() == old(Buffered())
              case Refused(code) => r == Err(code) && Buffered() == old(Buffered())
              case Complete(frame, consumed) =>
                r == Ok(Some(frame)) && consumed <= |old(Buffered())| && Buffered() == old(Buffered())[consumed..]
    {
      hide TryDecode;
      var decoded := DecodeFrom(buffer[..size], maxPayload);
      if decoded.Err? {
        return Err(decoded.code);
      }
      if decoded.value.None? {
        return Ok(None);
      }
      DecodedReencodes(buffer[..size], maxPayload);
      Discard(decoded.value.value.1);
      r := Ok(Some(decoded.value.value.0));
    }
  }

  // ---- whole streams ------------------------------------------------------

  datatype StreamOp = Feed(chunk: seq<byte>) | Take

  /** What has been fed and accepted, what has come out, and what is waiting. */
  datatype Stream = Stream(fed: seq<byte>, out: seq<Frame>, buffered: seq<byte>, broken: Option<ErrorCode>)

  /** One operation, as the accumulator's contracts describe it. */
  function StreamStep(s: Stream, op: StreamOp, maxPayload: nat): Stream {
    match op
    case Feed(chunk) =>
      if |chunk| > maxPayload + HEADER_BYTES - |s.buffered| then s
      else s.(fed := s.fed + chunk, buffered := s.buffered + chunk)
    case Take =>
      match TryDecode(s.buffered, maxPayload)
      case NeedMore => s
      case Refused(code) => s.(broken := Some(code))
      case Complete(frame, consumed) =>
        if consumed <= |s.buffered| then s.(out := s.out + [frame], buffered := s.buffered[consumed..]) else s
  }

  function StreamRun(ops: seq<StreamOp>, maxPayload: nat): Stream {
    if ops == [] then Stream([], [], [], None)
    else StreamStep(StreamRun(ops[..|ops| - 1], maxPayload), ops[|ops| - 1], maxPayload)
  }

  function EncodeAll(fs: seq<Frame>): seq<byte> {
    if fs == [] then [] else EncodeAll(fs[..|fs| - 1]) + Encoded(fs[|fs| - 1].header, fs[|fs| - 1].payload)
  }

  lemma EncodeAllAppend(fs: seq<Frame>, f: Frame)
    ensures EncodeAll(fs + [f]) == EncodeAll(fs) + Encoded(f.header, f.payload)
  {
    hide Encoded;
    assert (fs + [f])[..|fs + [f]| - 1] == fs;
  }

  lemma StepConserves(s: Stream, op: StreamOp, maxPayload: nat)
    requires s.fed == EncodeAll(s.out) + s.buffered
    ensures var t := StreamStep(s, op, maxPayload);
            t.fed == EncodeAll(t.out) + t.buffered
  {
    hide TryDecode, Encoded, EncodeAll;
    match op
    case Feed(chunk) =>
    case Take =>
      var v := TryDecode(s.buffered, maxPayload);
      if v.Complete? {
        DecodedReencodes(s.buffered, maxPayload);
        EncodeAllAppend(s.out, v.frame);
        assert s.buffered == s.buffered[..v.consumed] + s.buffered[v.consumed..];
      }
  }

  /** Conservation: what came out, encoded again, and what is waiting are the bytes accepted. */
  lemma {:induction false} StreamConserves(ops: seq<StreamOp>, maxPayload: nat)
    ensures var s := StreamRun(ops, maxPayload);
            s.fed == EncodeAll(s.out) + s.buffered
  {
    hide StreamStep;
    if ops != [] {
      StreamConserves(ops[..|ops| - 1], maxPayload);
      StepConserves(StreamRun(ops[..|ops| - 1], maxPayload), ops[|ops| - 1], maxPayload);
    }
  }

  // ---- any chunking yields the frames that were sent ----------------------

  /** Everything that can be read off the front of the bytes. */
  function Parse(data: seq<byte>, maxPayload: nat): seq<Frame>
    decreases |data|
  {
    match TryDecode(data, maxPayload)
    case NeedMore => []
    case Refused(_) => []
    case Complete(frame, consumed) =>
      if 0 < consumed <= |data| then [frame] + Parse(data[consumed..], maxPayload) else []
  }

  predicate Sendable(f: Frame, maxPayload: nat) {
    && InRange(f.header)
    && f.header.version == PROTOCOL_VERSION
    && EncodeFrame(f.header, f.payload, maxPayload).Ok?
  }

  function Received(fs: seq<Frame>): seq<Frame> {
    seq(|fs|, i requires 0 <= i < |fs| => Completed(fs[i].header, fs[i].payload))
  }

  lemma ParseOne(f: Frame, rest: seq<byte>, maxPayload: nat)
    requires Sendable(f, maxPayload) && maxPayload < 0x1_0000_0000
    ensures Parse(Encoded(f.header, f.payload) + rest, maxPayload)
         == [Completed(f.header, f.payload)] + Parse(rest, maxPayload)
  {
    hide TryDecode, Encoded, Completed;
    var bytes := Encoded(f.header, f.payload);
    FrameRoundTrip(f.header, f.payload, maxPayload, rest);
    EncodedSlices(f.header, f.payload, rest);
    assert (bytes + rest)[|bytes|..] == rest;
  }

  lemma EncodeAllPrepend(f: Frame, fs: seq<Frame>)
    ensures EncodeAll([f] + fs) == Encoded(f.header, f.payload) + EncodeAll(fs)
    decreases |fs|
  {
    hide Encoded;
    if fs == [] {
      assert [f] + fs == [] + [f];
      EncodeAllAppend([], f);
    } else {
      var init, last := fs[..|fs| - 1], fs[|fs| - 1];
      EncodeAllPrepend(f, init);
      assert [f] + fs == ([f] + init) + [last];
      EncodeAllAppend([f] + init, last);
    }
  }

  lemma {:induction false} ParseAll(fs: seq<Frame>, maxPayload: nat)
    requires forall f | f in fs :: Sendable(f, maxPayload)
    requires maxPayload < 0x1_0000_0000
    ensures Parse(EncodeAll(fs), maxPayload) == Received(fs)
    decreases |fs|
  {
    hide Encoded, Sendable, Parse, Completed;
    if fs == [] {
      ParseNothing(maxPayload);
    } else {
      var f, rest := fs[0], fs[1..];
      assert fs == [f] + rest;
      ParseAll(rest, maxPayload);
      EncodeAllPrepend(f, rest);
      ParseOne(f, EncodeAll(rest), maxPayload);
      assert Received(fs) == [Completed(f.header, f.payload)] + Received(rest);
    }
  }

  lemma ParseNothing(maxPayload: nat)
    ensures Parse([], maxPayload) == []
  {
  }

  /** Whatever may still arrive, output so far and what can be parsed add up to the same frames. */
  lemma StepKeepsParse(s: Stream, op: StreamOp, maxPayload: nat, future: seq<byte>)
    ensures var t := StreamStep(s, op, maxPayload);
            var rest := if op.Feed? && t != s then op.chunk + future else future;
            t.out + Parse(t.buffered + future, maxPayload) == s.out + Parse(s.buffered + rest, maxPayload)
  {
    hide TryDecode;
    match op
    case Feed(chunk) =>
      assert s.buffered + (chunk + future) == (s.buffered + chunk) + future;
      if StreamStep(s, op, maxPayload) == s && chunk == [] {
        assert s.buffered + chunk == s.buffered;
      }
    case Take =>
      var v := TryDecode(s.buffered, maxPayload);
      if v.Complete? {
        DecodedReencodes(s.buffered, maxPayload);
        VerdictIsFinal(s.buffered, future, maxPayload);
        assert (s.buffered + future)[v.consumed..] == s.buffered[v.consumed..] + future;
      }
  }

  lemma {:induction false} RunKeepsParse(ops: seq<StreamOp>, maxPayload: nat, future: seq<byte>)
    ensures var s := StreamRun(ops, maxPayload);
            s.out + Parse(s.buffered + future, maxPayload) == Parse(s.fed + future, maxPayload)
  {
    hide StreamStep, Parse;
    if ops != [] {
      var op, s := ops[|ops| - 1], StreamRun(ops[..|ops| - 1], maxPayload);
      var t := StreamStep(s, op, maxPayload);
      StepKeepsParse(s, op, maxPayload, future);
      StepFeeds(s, op, maxPayload, future);
      RunKeepsParse(ops[..|ops| - 1], maxPayload, if op.Feed? && t != s then op.chunk + future else future);
    } else {
      assert StreamRun(ops, maxPayload).fed + future == future;
    }
  }

  lemma StepFeeds(s: Stream, op: StreamOp, maxPayload: nat, future: seq<byte>)
    ensures var t := StreamStep(s, op, maxPayload);
            t.fed + future == s.fed + if op.Feed? && t != s then op.chunk + future else future
  {
    hide TryDecode;
    if op.Feed? {
      assert (s.fed + op.chunk) + future == s.fed + (op.chunk + future);
    }
  }

  /**
   * Chunking independence: when the accepted chunks are the encoding of the frames sent, what
   * has come out and what can still be read are exactly those frames, in order, however the
   * bytes were cut and whenever frames were taken.
   */
  lemma StreamYieldsWhatWasSent(ops: seq<StreamOp>, maxPayload: nat, fs: seq<Frame>)
    requires forall f | f in fs :: Sendable(f, maxPayload)
    requires maxPayload < 0x1_0000_0000 && StreamRun(ops, maxPayload).fed == EncodeAll(fs)
    ensures StreamRun(ops, maxPayload).out + Parse(StreamRun(ops, maxPayload).buffered, maxPayload) == Received(fs)
  {
    hide StreamRun, Parse, EncodeAll, Sendable;
    var s := StreamRun(ops, maxPayload);
    RunKeepsParse(ops, maxPayload, []);
    assert s.buffered + [] == s.buffered && s.fed + [] == s.fed;
    ParseAll(fs, maxPayload);
  }

  lemma CompletedEncodesAlike(f: Frame)
    ensures Encoded(Completed(f.header, f.payload).header, f.payload) == Encoded(f.header, f.payload)
  {
    hide Tag, LoadLe, StoreLe;
  }

  lemma {:induction false} ReceivedEncodesAlike(fs: seq<Frame>)
    ensures EncodeAll(Received(fs)) == EncodeAll(fs)
  {
    hide Encoded, Completed;
    if fs != [] {
      var init, last := fs[..|fs| - 1], fs[|fs| - 1];
      ReceivedEncodesAlike(init);
      assert Received(fs)[..|fs| - 1] == Received(init);
      CompletedPayload(last);
      CompletedEncodesAlike(last);
    }
  }

  lemma CompletedPayload(f: Frame)
    ensures Completed(f.header, f.payload).payload == f.payload
  {
  }

  lemma {:induction false} EncodeAllConcat(a: seq<Frame>, b: seq<Frame>)
    ensures EncodeAll(a + b) == EncodeAll(a) + EncodeAll(b)
    decreases |b|
  {
    hide Encoded;
    if b == [] {
      assert a + b == a;
    } else {
      EncodeAllConcat(a, b[..|b| - 1]);
      assert (a + b)[..|a + b| - 1] == a + b[..|b| - 1];
    }
  }

  lemma NeverRefusesEncoded(fs: seq<Frame>, maxPayload: nat)
    requires forall f | f in fs :: Sendable(f, maxPayload)
    requires maxPayload < 0x1_0000_0000
    ensures !TryDecode(EncodeAll(fs), maxPayload).Refused?
  {
    hide TryDecode, Encoded;
    if fs == [] {
      NothingYet(maxPayload);
    } else {
      var f, rest := fs[0], fs[1..];
      assert f in fs && fs == [f] + rest;
      EncodeAllPrepend(f, rest);
      FrameRoundTrip(f.header, f.payload, maxPayload, EncodeAll(rest));
    }
  }

  lemma NothingYet(maxPayload: nat)
    ensures TryDecode([], maxPayload) == NeedMore
  {
  }

  /** What is waiting, with what is still to come, encodes the frames not yet taken. */
  lemma WaitingIsTheRest(ops: seq<StreamOp>, maxPayload: nat, fs: seq<Frame>, future: seq<byte>)
    requires forall f | f in fs :: Sendable(f, maxPayload)
    requires maxPayload < 0x1_0000_0000 && StreamRun(ops, maxPayload).fed + future == EncodeAll(fs)
    ensures var s := StreamRun(ops, maxPayload);
            |s.out| <= |fs| && s.out == Received(fs[..|s.out|]) && s.buffered + future == EncodeAll(fs[|s.out|..])
  {
    hide StreamRun, Parse, EncodeAll, Sendable, Completed;
    var s := StreamRun(ops, maxPayload);
    RunKeepsParse(ops, maxPayload, future);
    ParseAll(fs, maxPayload);
    StreamConserves(ops, maxPayload);
    var n := |s.out|;
    assert s.out == Received(fs)[..n] == Received(fs[..n]);
    ReceivedEncodesAlike(fs[..n]);
    assert fs == fs[..n] + fs[n..];
    EncodeAllConcat(fs[..n], fs[n..]);
    var e := EncodeAll(fs[..n]);
    assert (e + s.buffered) + future == e + (s.buffered + future);
    assert (e + (s.buffered + future))[|e|..] == s.buffered + future;
    assert (e + EncodeAll(fs[n..]))[|e|..] == EncodeAll(fs[n..]);
  }

  /** While the accepted bytes are a prefix of encoded frames, no take is ever refused. */
  lemma {:induction false} GoodStreamNeverBreaks(ops: seq<StreamOp>, maxPayload: nat, fs: seq<Frame>, future: seq<byte>)
    requires forall f | f in fs :: Sendable(f, maxPayload)
    requires maxPayload < 0x1_0000_0000 && StreamRun(ops, maxPayload).fed + future == EncodeAll(fs)
    ensures StreamRun(ops, maxPayload).broken.None?
  {
    hide TryDecode, EncodeAll, Sendable;
    if ops != [] {
      var op, s := ops[|ops| - 1], StreamRun(ops[..|ops| - 1], maxPayload);
      var t := StreamStep(s, op, maxPayload);
      var rest := if op.Feed? && t != s then op.chunk + future else future;
      StepFeeds(s, op, maxPayload, future);
      GoodStreamNeverBreaks(ops[..|ops| - 1], maxPayload, fs, rest);
      WaitingIsTheRest(ops[..|ops| - 1], maxPayload, fs, rest);
      NeverRefusesEncoded(fs[|s.out|..], maxPayload);
      if TryDecode(s.buffered, maxPayload).Refused? {
        VerdictIsFinal(s.buffered, rest, maxPayload);
      }
    }
  }

  /** Drives an accumulator through the operations; the run above is what it does. */
  method Drive(stream: Accumulator, ops: seq<StreamOp>) returns (out: seq<Frame>)
    requires stream.Valid() && stream.Buffered() == []
    modifies stream, stream.buffer
    ensures stream.Valid()
    ensures out == StreamRun(ops, stream.maxPayload).out && stream.Buffered() == StreamRun(ops, stream.maxPayload).buffered
  {
    hide TryDecode;
    out := [];
    for i := 0 to |ops|
      invariant stream.Valid()
      invariant out == StreamRun(ops[..i], stream.maxPayload).out
      invariant stream.Buffered() == StreamRun(ops[..i], stream.maxPayload).buffered
    {
      assert ops[..i + 1][..i] == ops[..i];
      match ops[i]
      case Feed(chunk) =>
        var _ := stream.Append(chunk);
      case Take =>
        var r := stream.Next();
        if r.Ok? && r.value.Some? {
          out := out + [r.value.value];
        }
    }
    assert ops[..|ops|] == ops;
  }
}
