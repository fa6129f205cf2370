/**
  Request framing: the client writes [header size][RpcHeader][args], the provider peels complete
  frames off a byte queue that fills in arbitrary chunks.
  */
module Framing {
  import opened Bytes
  import opened Messages
  import opened RpcHeaders
  import Utf8
  import Wire

  /** Whether a method's request type can parse the given argument bytes. */
  type RequestParser = bytes -> bool

  type Registry = map<bytes, map<bytes, RequestParser>>

  datatype Call = Call(service: bytes, methodName: bytes, args: bytes)

  /**
    What the frame at the head of the queue calls for. Wrapped: one of the 32-bit length sums
    overflowed and the queue is long enough for the wrapped value, so the code reads on with it.
    */
  datatype Verdict = Wait | Reject | Wrapped | Dispatch(call: Call, size: nat)

  // ---------------------------------------------------------------- the frame at the head

  /** The four bytes of a length in the memory of a little-endian machine. */
  function EncodeLength(n: uint32): (b: bytes)
    ensures |b| == 4
  {
    [n % 256, n / 256 % 256, n / 256 / 256 % 256, n / 256 / 256 / 256]
  }

  function DecodeLength(b: bytes): (n: uint32)
    requires |b| == 4
  {
    var b0: nat, b1: nat, b2: nat, b3: nat := b[0], b[1], b[2], b[3];
    b0 + 256 * (b1 + 256 * (b2 + 256 * b3))
  }

  lemma LengthRoundTrip(n: uint32)
    ensures DecodeLength(EncodeLength(n)) == n
  {
    var b := EncodeLength(n);
    var n1, n2 := n / 256, n / 256 / 256;
    assert b[2] + 256 * (b[3] as int) == n2;
    assert b[1] + 256 * n2 == n1;
  }

  predicate Accepts(reg: Registry, call: Call)
  {
    call.service in reg && call.methodName in reg[call.service] && reg[call.service][call.methodName](call.args)
  }

  function Inspect(reg: Registry, b: bytes): (v: Verdict)
    ensures v.Dispatch? ==> 4 <= v.size <= |b| && v.size < TWO32 && Accepts(reg, v.call)
  {
    if |b| < 4 then Wait else
    var h := DecodeLength(b[..4]);
    if |b| < (4 + h) % TWO32 then Wait
    else if 4 + h >= TWO32 then Wrapped
    else match ParseHeader(b[4..4 + h])
      case None => Reject
      case Some(header) => InspectArgs(reg, b, 4 + h, header)
  }

  function InspectArgs(reg: Registry, b: bytes, at: nat, header: Header): (v: Verdict)
    requires 4 <= at <= |b|
    ensures v.Dispatch? ==> at <= v.size <= |b| && v.size < TWO32 && Accepts(reg, v.call)
  {
    var end := at + header.argsSize;
    if |b| < end % TWO32 then Wait
    else if end >= TWO32 then Wrapped
    else
      var call := Call(header.serviceName, header.methodName, b[at..end]);
      if Accepts(reg, call) then Dispatch(call, end) else Reject
  }

  /**
    Exactly for which header sizes the loop waits for the whole header: those whose sum with the four
    size bytes fits 32 bits.
    */
  lemma IncompleteHeaderWaits(reg: Registry, h: uint32)
    ensures (forall b :: |b| >= 4 && b[..4] == EncodeLength(h) && |b| < 4 + h ==> Inspect(reg, b).Wait?)
            <==> 4 + h < TWO32
  {
    hide ParseHeader, InspectArgs, EncodeLength, DecodeLength;
    LengthRoundTrip(h);
    var b := EncodeLength(h);
    assert b[..4] == b;
    if 4 + h >= TWO32 {
      assert (4 + h) % TWO32 == 4 + h - TWO32 < 4;
      assert Inspect(reg, b).Wrapped?;
    } else {
      forall b: bytes | |b| >= 4 && b[..4] == EncodeLength(h) && |b| < 4 + h ensures Inspect(reg, b).Wait? {
        assert (4 + h) % TWO32 == 4 + h;
      }
    }
  }

  /**
    The same for the arguments: behind a parsed header an incomplete frame is waited for exactly when
    the end of its arguments fits 32 bits. Otherwise the sum wraps and the code goes on with bytes
    that are not there.
    */
  lemma IncompleteArgsWait(reg: Registry, b: bytes)
    requires |b| >= 4
    requires var at := 4 + DecodeLength(b[..4]);
             at < TWO32 && at <= |b| && ParseHeader(b[4..at]).Some? && |b| < at + ParseHeader(b[4..at]).value.argsSize
    ensures var end := 4 + DecodeLength(b[..4]) + ParseHeader(b[4..4 + DecodeLength(b[..4])]).value.argsSize;
            && (Inspect(reg, b).Wait? <==> end < TWO32)
            && (Inspect(reg, b).Wrapped? <==> end >= TWO32)
  {
    hide ParseHeader, DecodeLength;
    var at := 4 + DecodeLength(b[..4]);
    var end := at + ParseHeader(b[4..at]).value.argsSize;
    assert end >= TWO32 ==> end % TWO32 == end - TWO32;
  }

  /** Once the head frame is decided, later bytes do not change the decision. */
  lemma InspectStable(reg: Registry, b: bytes, more: bytes)
    requires !Inspect(reg, b).Wait?
    ensures Inspect(reg, b + more) == Inspect(reg, b)
  {
    hide ParseHeader;
    assert (b + more)[..4] == b[..4];
    var at := 4 + DecodeLength(b[..4]);
    if at < TWO32 {
      assert (b + more)[4..at] == b[4..at];
      if ParseHeader(b[4..at]).Some? {
        var end := at + ParseHeader(b[4..at]).value.argsSize;
        assert end < TWO32 ==> (b + more)[at..end] == b[at..end];
      }
    }
  }

  // ---------------------------------------------------------------- draining the queue

  /** The calls dispatched from a queue, what is left of it, and why the loop stopped. */
  datatype Drained = Drained(calls: seq<Call>, rest: bytes, stop: Verdict)

  function Drain(reg: Registry, b: bytes): Drained
    decreases |b|
  {
    match Inspect(reg, b)
    case Dispatch(call, size) =>
      var d := Drain(reg, b[size..]);
      Drained([call] + d.calls, d.rest, d.stop)
    case stop => Drained([], b, stop)
  }

  /** One readable event: the chunk joins the unread bytes and the loop runs. */
  function Feed(reg: Registry, s: Drained, chunk: bytes): Drained
  {
    var d := Drain(reg, s.rest + chunk);
    Drained(s.calls + d.calls, d.rest, d.stop)
  }

  function FeedAll(reg: Registry, s: Drained, chunks: seq<bytes>): Drained
    decreases |chunks|
  {
    if chunks == [] then s else FeedAll(reg, Feed(reg, s, chunks[0]), chunks[1..])
  }

  lemma {:induction false} DrainConcat(reg: Registry, b: bytes, more: bytes)
    ensures Drain(reg, b + more) == Feed(reg, Drain(reg, b), more)
    decreases |b|
  {
    hide Inspect;
    var v := Inspect(reg, b);
    if v.Dispatch? {
      InspectStable(reg, b, more);
      assert (b + more)[v.size..] == b[v.size..] + more;
      DrainConcat(reg, b[v.size..], more);
      var d, e := Drain(reg, b[v.size..]), Drain(reg, Drain(reg, b[v.size..]).rest + more);
      assert [v.call] + (d.calls + e.calls) == [v.call] + d.calls + e.calls;
    } else {
      var e := Drain(reg, b + more);
      assert [] + e.calls == e.calls;
    }
  }

  lemma {:induction false} FeedAllDrains(reg: Registry, b: bytes, chunks: seq<bytes>)
    ensures FeedAll(reg, Drain(reg, b), chunks) == Drain(reg, b + Flatten(chunks))
    decreases |chunks|
  {
    hide Drain, Feed;
    if chunks == [] {
      assert b + Flatten(chunks) == b;
    } else {
      DrainConcat(reg, b, chunks[0]);
      FeedAllDrains(reg, b + chunks[0], chunks[1..]);
      assert b + chunks[0] + Flatten(chunks[1..]) == b + Flatten(chunks);
    }
  }

  const NOTHING := Drained([], [], Wait)

  /** Whatever the stream and however it is cut up: only its bytes decide what is dispatched. */
  lemma ChunkingIndependence(reg: Registry, chunks: seq<bytes>)
    ensures FeedAll(reg, NOTHING, chunks) == Drain(reg, Flatten(chunks))
  {
    assert Drain(reg, []) == NOTHING;
    FeedAllDrains(reg, [], chunks);
    assert [] + Flatten(chunks) == Flatten(chunks);
  }

  /** After a rejected frame nothing is ever dispatched again, and the verdict stays. */
  lemma RejectionAbsorbs(reg: Registry, before: seq<bytes>, after: seq<bytes>)
    requires FeedAll(reg, NOTHING, before).stop.Reject?
    ensures var s := FeedAll(reg, NOTHING, before);
            FeedAll(reg, s, after) == s.(rest := s.rest + Flatten(after))
  {
    hide Drain, Inspect;
    ChunkingIndependence(reg, before);
    DrainStops(reg, Flatten(before));
    RejectedStays(reg, FeedAll(reg, NOTHING, before), after);
  }

  lemma {:induction false} DrainStops(reg: Registry, b: bytes)
    ensures var d := Drain(reg, b);
            !d.stop.Dispatch? && Inspect(reg, d.rest) == d.stop && |d.rest| <= |b|
    decreases |b|
  {
    hide Inspect;
    var v := Inspect(reg, b);
    if v.Dispatch? {
      DrainStops(reg, b[v.size..]);
    }
  }

  lemma {:induction false} RejectedStays(reg: Registry, s: Drained, chunks: seq<bytes>)
    requires s.stop.Reject? && Inspect(reg, s.rest).Reject?
    ensures FeedAll(reg, s, chunks) == s.(rest := s.rest + Flatten(chunks))
    decreases |chunks|
  {
    hide Inspect;
    if chunks == [] {
      assert s.rest + Flatten(chunks) == s.rest;
    } else {
      InspectStable(reg, s.rest, chunks[0]);
      var next := s.(rest := s.rest + chunks[0]);
      assert s.calls + [] == s.calls;
      RejectedStays(reg, next, chunks[1..]);
      assert s.rest + chunks[0] + Flatten(chunks[1..]) == s.rest + Flatten(chunks);
    }
  }

  // ---------------------------------------------------------------- frames of the client

  function HeaderOf(call: Call): Header
  {
    Header(call.service, call.methodName, |call.args| % TWO32)
  }

  /** The client can serialize the header of this call. */
  predicate Sendable(call: Call)
  {
    HeaderSize(HeaderOf(call)) <= MAX_MESSAGE
  }

  function Frame(call: Call): bytes
    requires Sendable(call)
  {
    var header := HeaderBytes(HeaderOf(call));
    EncodeLength(|header| % TWO32) + header + call.args
  }

  /** What a call needs, besides its size, to reach the service it names. */
  predicate Servable(reg: Registry, call: Call)
  {
    Sendable(call) && Decodable(HeaderOf(call)) && Accepts(reg, call)
  }

  lemma FrameLayout(call: Call, rest: bytes)
    requires Sendable(call)
    ensures var b, at := Frame(call) + rest, 4 + |HeaderBytes(HeaderOf(call))|;
            && at < TWO32 && |Frame(call)| == at + |call.args|
            && DecodeLength(b[..4]) == at - 4 && b[4..at] == HeaderBytes(HeaderOf(call))
            && b[at..at + |call.args|] == call.args
  {
    hide HeaderBytes, EncodeLength, DecodeLength;
    var header := HeaderBytes(HeaderOf(call));
    HeaderFieldsWritable(HeaderOf(call));
    LengthRoundTrip(|header|);
    Parts(EncodeLength(|header|), header, call.args, rest);
  }

  /** Ten bytes that are acted on although the frame they begin is 4 GiB long. */
  lemma ShortFrameWraps(reg: Registry)
    ensures var header := Header([], [], TWO32 - 1);
            var b := EncodeLength(|HeaderBytes(header)| % TWO32) + HeaderBytes(header);
            |b| == 10 && Inspect(reg, b).Wrapped?
  {
    hide ParseHeader, HeaderBytes, EncodeLength, DecodeLength, Inspect;
    var header := Header([], [], TWO32 - 1);
    HeaderFieldsWritable(header);
    assert |HeaderBytes(header)| == 6;
    HeaderRoundTrip(header);
    LengthRoundTrip(6);
    var size := EncodeLength(6);
    var b := size + HeaderBytes(header);
    assert b[..4] == size && b[4..10] == HeaderBytes(header);
    IncompleteArgsWait(reg, b);
  }

  lemma Parts(a: bytes, b: bytes, c: bytes, rest: bytes)
    ensures var s, i, j := a + b + c + rest, |a|, |a| + |b|;
            s[..i] == a && s[i..j] == b && s[j..j + |c|] == c
  {
  }

  lemma FrameDispatched(reg: Registry, call: Call, rest: bytes)
    requires Servable(reg, call) && |Frame(call)| < TWO32
    ensures Inspect(reg, Frame(call) + rest) == Dispatch(call, |Frame(call)|)
  {
    hide Utf8.Valid, ParseHeader, HeaderBytes, Frame, DecodeLength;
    FrameLayout(call, rest);
    HeaderRoundTrip(HeaderOf(call));
  }

  /**
    A frame that a client can write but the provider cannot accept, because a name is not UTF-8 or no
    method takes the call, is rejected, and nothing is dispatched on that connection any more.
    */
  lemma BadCallBlocks(reg: Registry, call: Call, chunks: seq<bytes>)
    requires Sendable(call) && |Frame(call)| < TWO32
    requires !(Utf8.Valid(call.service) && Utf8.Valid(call.methodName)
               && call.service in reg && call.methodName in reg[call.service]
               && reg[call.service][call.methodName](call.args))
    ensures FeedAll(reg, NOTHING, [Frame(call)] + chunks) == Drained([], Frame(call) + Flatten(chunks), Reject)
  {
    hide Utf8.Valid, ParseHeader, HeaderBytes, Frame, DecodeLength;
    var frame := Frame(call);
    FrameLayout(call, []);
    HeaderRoundTrip(HeaderOf(call));
    assert frame + [] == frame && [] + frame == frame;
    assert Inspect(reg, frame).Reject?;
    assert ([frame] + chunks)[1..] == chunks;
    RejectedStays(reg, Feed(reg, NOTHING, frame), chunks);
  }

  lemma PartialFrameWaits(reg: Registry, call: Call, k: nat)
    requires Servable(reg, call) && k < |Frame(call)| < TWO32
    ensures Inspect(reg, Frame(call)[..k]) == Wait
  {
    hide Utf8.Valid, ParseHeader, HeaderBytes, Frame, DecodeLength;
    FrameLayout(call, []);
    HeaderRoundTrip(HeaderOf(call));
    var b := Frame(call)[..k];
    var at := 4 + |HeaderBytes(HeaderOf(call))|;
    assert Frame(call) + [] == Frame(call);
    if k >= 4 {
      assert b[..4] == Frame(call)[..4];
      if k >= at {
        assert b[4..at] == Frame(call)[4..at];
      }
    }
  }

  /**
    Exactly which calls arrive: the frame fits 32 bits, both names are UTF-8, the method is
    registered and it can parse the arguments.
    */
  lemma FrameDelivered(reg: Registry, call: Call)
    requires Sendable(call)
    ensures Drain(reg, Frame(call)) == Drained([call], [], Wait) <==>
            && |Frame(call)| < TWO32
            && Utf8.Valid(call.service) && Utf8.Valid(call.methodName)
            && call.service in reg && call.methodName in reg[call.service]
            && reg[call.service][call.methodName](call.args)
  {
    hide Utf8.Valid, ParseHeader, HeaderBytes, Frame, DecodeLength, Inspect;
    var b := Frame(call);
    assert b + [] == b;
    if |b| < TWO32 && Servable(reg, call) {
      FrameDispatched(reg, call, []);
      assert Drain(reg, []) == NOTHING by { EmptyDrains(reg); }
      assert b[|b|..] == [];
    }
    if Drain(reg, b) == Drained([call], [], Wait) {
      var v := Inspect(reg, b);
      var d := Drain(reg, b[v.size..]);
      assert ([v.call] + d.calls)[0] == v.call;
      assert |[v.call] + d.calls| == 1;
      NoCallsKeepsAll(reg, b[v.size..]);
      DispatchDecodes(reg, call, b);
    }
  }

  /** So every call with ASCII names that the registry knows arrives. */
  lemma AsciiCallDelivered(reg: Registry, call: Call)
    requires forall i :: 0 <= i < |call.service| ==> call.service[i] < 0x80
    requires forall i :: 0 <= i < |call.methodName| ==> call.methodName[i] < 0x80
    requires Sendable(call) && |Frame(call)| < TWO32
    requires call.service in reg && call.methodName in reg[call.service]
    requires reg[call.service][call.methodName](call.args)
    ensures Drain(reg, Frame(call)) == Drained([call], [], Wait)
  {
    hide Frame, Drain, Sendable;
    Utf8.AsciiIsValid(call.service);
    Utf8.AsciiIsValid(call.methodName);
    FrameDelivered(reg, call);
  }

  /** Service "U", method "L" and one byte of arguments, byte by byte. */
  lemma FrameExample()
    ensures Sendable(Call([85], [76], [7]))
    ensures Frame(Call([85], [76], [7])) == [8, 0, 0, 0, 10, 1, 85, 18, 1, 76, 24, 1, 7]
    ensures EncodeLength(0x0102_0304) == [4, 3, 2, 1]
  {
    hide HeaderBytes;
    var header := Header([85], [76], 1);
    HeaderFieldsWritable(header);
    assert HeaderBytes(header) == [10, 1, 85, 18, 1, 76, 24, 1] by {
      assert Wire.EncodeVarint(10) == [10] && Wire.EncodeVarint(18) == [18];
      assert Wire.EncodeVarint(24) == [24] && Wire.EncodeVarint(1) == [1];
    }
    assert EncodeLength(8) == [8, 0, 0, 0];
  }

  lemma EmptyDrains(reg: Registry)
    ensures Drain(reg, []) == NOTHING
  {
  }

  lemma NoCallsKeepsAll(reg: Registry, b: bytes)
    requires Drain(reg, b).calls == []
    ensures Drain(reg, b).rest == b
  {
    hide Inspect;
  }

  lemma DispatchDecodes(reg: Registry, call: Call, b: bytes)
    requires Sendable(call) && b == Frame(call) && Inspect(reg, b).Dispatch?
    ensures Decodable(HeaderOf(call))
  {
    hide Utf8.Valid, ParseHeader, HeaderBytes, Frame, DecodeLength;
    assert b + [] == b;
    FrameLayout(call, []);
    HeaderRoundTrip(HeaderOf(call));
  }

  // ---------------------------------------------------------------- streams of frames

  /** Calls that a client may put on one connection to `reg`. */
  ghost predicate AllServable(reg: Registry, calls: seq<Call>)
  {
    forall call :: call in calls ==> Servable(reg, call) && |Frame(call)| < TWO32
  }

  ghost function Stream(calls: seq<Call>): bytes
    requires forall call :: call in calls ==> Sendable(call)
  {
    if calls == [] then [] else Frame(calls[0]) + Stream(calls[1..])
  }

  lemma {:induction false} StreamSnoc(calls: seq<Call>, call: Call)
    requires Sendable(call) && forall c :: c in calls ==> Sendable(c)
    ensures forall c :: c in calls + [call] ==> Sendable(c)
    ensures Stream(calls + [call]) == Stream(calls) + Frame(call)
  {
    hide Frame, Sendable;
    if calls == [] {
      assert [call][1..] == [] && Frame(call) + [] == Frame(call);
    } else {
      assert (calls + [call])[1..] == calls[1..] + [call];
      StreamSnoc(calls[1..], call);
    }
  }

  /** How many of the frames lie entirely within the first `k` bytes of the stream. */
  ghost function Complete(calls: seq<Call>, k: nat): (n: nat)
    requires forall call :: call in calls ==> Sendable(call)
    ensures n <= |calls|
  {
    if calls == [] || k < |Frame(calls[0])| then 0 else 1 + Complete(calls[1..], k - |Frame(calls[0])|)
  }

  lemma FrameDrains(reg: Registry, call: Call, rest: bytes)
    requires Servable(reg, call) && |Frame(call)| < TWO32
    ensures var d := Drain(reg, rest);
            Drain(reg, Frame(call) + rest) == Drained([call] + d.calls, d.rest, d.stop)
  {
    hide Frame, Inspect, Accepts, Sendable, Decodable;
    FrameDispatched(reg, call, rest);
    assert (Frame(call) + rest)[|Frame(call)|..] == rest;
  }

  lemma PartialFrameDrains(reg: Registry, call: Call, k: nat)
    requires Servable(reg, call) && k < |Frame(call)| < TWO32
    ensures Drain(reg, Frame(call)[..k]) == Drained([], Frame(call)[..k], Wait)
  {
    hide Frame, Inspect, Accepts, Sendable, Decodable;
    PartialFrameWaits(reg, call, k);
  }

  lemma {:induction false} PrefixDrains(reg: Registry, calls: seq<Call>, k: nat)
    requires AllServable(reg, calls) && k <= |Stream(calls)|
    ensures var d, n := Drain(reg, Stream(calls)[..k]), Complete(calls, k);
            && d.calls == calls[..n] && d.stop == Wait
            && if n == |calls| then d.rest == [] else d.rest < Frame(calls[n])
    decreases |calls|
  {
    hide Frame, Drain, Accepts, Sendable, Decodable;
    if calls == [] {
      EmptyDrains(reg);
      assert Stream(calls)[..k] == [];
    } else {
      assert forall call :: call in calls[1..] ==> call in calls;
      assert calls[0] in calls;
      var frame, tail := Frame(calls[0]), Stream(calls[1..]);
      if k < |frame| {
        PartialFrameDrains(reg, calls[0], k);
        assert Stream(calls)[..k] == frame[..k];
      } else {
        var rest := tail[..k - |frame|];
        assert Stream(calls)[..k] == frame + rest;
        FrameDrains(reg, calls[0], rest);
        PrefixDrains(reg, calls[1..], k - |frame|);
        var n := Complete(calls[1..], k - |frame|);
        assert [calls[0]] + calls[1..][..n] == calls[..n + 1];
      }
    }
  }

  /**
    Well-formed calls, written one after the other and delivered in any chunks: what has been
    dispatched is exactly the calls whose frames are complete, in order, and what is unread is a
    proper prefix of the next frame.
    */
  lemma CompleteFramesDispatched(reg: Registry, calls: seq<Call>, chunks: seq<bytes>)
    requires AllServable(reg, calls) && Flatten(chunks) <= Stream(calls)
    ensures var s, n := FeedAll(reg, NOTHING, chunks), Complete(calls, |Flatten(chunks)|);
            && s.calls == calls[..n] && s.stop == Wait
            && if n == |calls| then s.rest == [] else s.rest < Frame(calls[n])
  {
    ChunkingIndependence(reg, chunks);
    PrefixDrains(reg, calls, |Flatten(chunks)|);
    assert Flatten(chunks) == Stream(calls)[..|Flatten(chunks)|];
  }
}
