/**
  The two ends of a call as the code runs them: the client's framing, the provider's message loop
  over the growable buffer, and the whole path from sent frames to dispatched calls.
  */
module RpcProviders {
  import opened Bytes
  import opened Buffers
  import opened Messages
  import opened RpcHeaders
  import opened Framing

  /** What a call hands to the socket, or the reason it gives its controller. */
  datatype Request = Send(frame: bytes) | SetFailed(reason: string)

  class MprpcChannel {
    constructor () {}

    /** `args` is the serialized request message, None when it cannot be serialized. */
    method CallMethod(service: bytes, methodName: bytes, args: Option<bytes>) returns (r: Request)
      ensures r.Send? <==> args.Some? && Sendable(Call(service, methodName, args.value))
      ensures r.Send? ==> r.frame == Frame(Call(service, methodName, args.value))
    {
      if args.None? {
        return SetFailed("serialize request error");
      }
      var header := new RpcHeader();
      header.serviceName := service;
      header.methodName := methodName;
      header.argsSize := |args.value| % TWO32;
      var headerBytes := header.SerializeToString();
      if headerBytes.None? {
        return SetFailed("serialize rpc header error");
      }
      var frame := EncodeLength(|headerBytes.value| % TWO32);
      frame := frame + headerBytes.value;
      frame := frame + args.value;
      return Send(frame);
    }
  }

  /**
    The provider's view of one connection: the calls it dispatched, the shutdowns it asked for, and
    how often the read handler closed it or met an error.
    */
  class Session {
    var dispatched: seq<Call>
    var shutdowns: nat
    var closes: nat
    var errors: nat

    constructor ()
      ensures dispatched == [] && shutdowns == 0 && closes == 0 && errors == 0
    {
      dispatched, shutdowns, closes, errors := [], 0, 0, 0;
    }

    method Shutdown()
      modifies this`shutdowns
      ensures shutdowns == old(shutdowns) + 1
    {
      shutdowns := shutdowns + 1;
    }
  }

  class RpcProvider {
    var services: Registry

    constructor ()
      ensures services == map[]
    {
      services := map[];
    }

    /** Registers a service; a name that is already taken keeps its first service. */
    method NotifyService(name: bytes, methods: map<bytes, RequestParser>)
      modifies this
      ensures services.Keys == old(services).Keys + {name}
      ensures forall s :: s in old(services) ==> services[s] == old(services)[s]
      ensures name !in old(services) ==> services[name] == methods
    {
      if name !in services {
        services := services[name := methods];
      }
    }

    /** The body of the message loop up to the dispatch: decides the frame at the head of the buffer. */
    method NextFrame(buffer: Buffer) returns (v: Verdict)
      requires buffer.Valid()
      ensures v == Inspect(services, buffer.Contents())
    {
      hide ParseHeader, DecodeLength, InspectArgs;
      if buffer.ReadableBytes() < 4 {
        return Wait;
      }
      var sizeBytes := buffer.Peek(0, 4);
      var headerSize := DecodeLength(sizeBytes);
      if buffer.ReadableBytes() < (4 + headerSize) % TWO32 {
        return Wait;
      }
      if 4 + headerSize >= TWO32 {
        return Wrapped;
      }
      var headerBytes := buffer.Peek(4, headerSize);
      var header := new RpcHeader();
      var parsed := header.ParseFromString(headerBytes);
      if !parsed {
        return Reject;
      }
      v := NextArgs(buffer, 4 + headerSize, header);
    }

    /** The rest of the decision, once the header has been parsed. */
    method NextArgs(buffer: Buffer, at: nat, header: RpcHeader) returns (v: Verdict)
      requires buffer.Valid() && 4 <= at <= |buffer.Contents()|
      ensures v == InspectArgs(services, buffer.Contents(), at, header.Value())
    {
      var argsSize := header.argsSize;
      if buffer.ReadableBytes() < (at + argsSize) % TWO32 {
        return Wait;
      }
      if at + argsSize >= TWO32 {
        return Wrapped;
      }
      var args := buffer.Peek(at, argsSize);
      if header.serviceName !in services {
        return Reject;
      }
      var methods := services[header.serviceName];
      if header.methodName !in methods {
        return Reject;
      }
      var parser := methods[header.methodName];
      if !parser(args) {
        return Reject;
      }
      return Dispatch(Call(header.serviceName, header.methodName, args), at + argsSize);
    }

    /** Dispatches every complete frame in the buffer and stops as the byte queue decides. */
    method OnMessage(conn: Session, buffer: Buffer) returns (stop: Verdict)
      requires buffer.Valid()
      modifies conn`dispatched, conn`shutdowns, buffer
      ensures buffer.Valid() && buffer.buffer == old(buffer.buffer) && buffer.peak == old(buffer.peak)
      ensures var d := Drain(services, old(buffer.Contents()));
              && conn.dispatched == old(conn.dispatched) + d.calls
              && buffer.Contents() == d.rest && stop == d.stop
              && conn.shutdowns == old(conn.shutdowns) + if d.stop.Reject? then 1 else 0
    {
      hide Inspect;
      while true
        invariant buffer.Valid() && buffer.buffer == old(buffer.buffer) && buffer.peak == old(buffer.peak)
        invariant conn.shutdowns == old(conn.shutdowns)
        invariant Resumes(services, old(conn.dispatched), old(buffer.Contents()), conn.dispatched, buffer.Contents())
        decreases buffer.ReadableBytes()
      {
        var v := NextFrame(buffer);
        if v.Dispatch? {
          ResumesAfter(services, old(conn.dispatched), old(buffer.Contents()), conn.dispatched, buffer.Contents());
          conn.dispatched := conn.dispatched + [v.call];
          buffer.Retrieve(v.size);
        } else {
          if v.Reject? {
            conn.Shutdown();
          }
          return v;
        }
      }
    }

    /**
      A readable event. What readv delivered joins the buffer and the message loop runs; the end of
      the stream closes the connection, and an error is logged; neither runs the loop.
      */
    method HandleRead(conn: Session, buffer: Buffer, read: ReadResult) returns (stop: Option<Verdict>)
      requires buffer.Valid() && (read.Got? ==> |read.data| <= buffer.ReadCapacity())
      modifies conn, buffer, buffer.buffer
      ensures buffer.Valid() && (buffer.buffer == old(buffer.buffer) || fresh(buffer.buffer))
      ensures conn.closes == old(conn.closes) + if read == Got([]) then 1 else 0
      ensures conn.errors == old(conn.errors) + if read.Failed? then 1 else 0
      ensures stop.Some? <==> read.Got? && read.data != []
      ensures stop.None? ==>
                && conn.dispatched == old(conn.dispatched) && conn.shutdowns == old(conn.shutdowns)
                && buffer.Contents() == old(buffer.Contents())
      ensures stop.Some? ==>
                var d := Drain(services, old(buffer.Contents()) + read.data);
                && conn.dispatched == old(conn.dispatched) + d.calls
                && buffer.Contents() == d.rest && stop.value == d.stop
                && conn.shutdowns == old(conn.shutdowns) + if d.stop.Reject? then 1 else 0
    {
      hide Drain;
      var n := buffer.ReadFd(read);
      if n > 0 {
        var v := OnMessage(conn, buffer);
        return Some(v);
      } else if n == 0 {
        conn.closes := conn.closes + 1;
      } else {
        conn.errors := conn.errors + 1;
      }
      return None;
    }
  }

  /** Having dispatched `calls` and holding `rest`, the loop goes on as it would have from `b`. */
  ghost predicate Resumes(reg: Registry, before: seq<Call>, b: bytes, calls: seq<Call>, rest: bytes)
  {
    var d, e := Drain(reg, b), Drain(reg, rest);
    before + d.calls == calls + e.calls && d.rest == e.rest && d.stop == e.stop
  }

  lemma ResumesAfter(reg: Registry, before: seq<Call>, b: bytes, calls: seq<Call>, rest: bytes)
    requires Resumes(reg, before, b, calls, rest) && Inspect(reg, rest).Dispatch?
    ensures var v := Inspect(reg, rest);
            Resumes(reg, before, b, calls + [v.call], rest[v.size..])
  {
    hide Inspect;
    var v := Inspect(reg, rest);
    var e := Drain(reg, rest[v.size..]);
    assert calls + ([v.call] + e.calls) == calls + [v.call] + e.calls;
  }

  /**
    A whole connection: the kernel delivers `stream` in any pieces it likes, each piece is read
    into the buffer and the message loop runs. `stop` is how the last run of the loop ended.
    */
  method Serve(provider: RpcProvider, stream: bytes) returns (calls: seq<Call>, unread: bytes, stop: Verdict)
    ensures Drained(calls, unread, stop) == Drain(provider.services, stream)
  {
    hide Drain;
    var conn := new Session();
    var buffer := new Buffer();
    var pos := 0;
    stop := Wait;
    EmptyDrains(provider.services);
    assert stream[..0] == [];
    while pos < |stream|
      invariant pos <= |stream|
      invariant fresh(conn) && fresh(buffer.Repr()) && buffer.Valid()
      invariant Drained(conn.dispatched, buffer.Contents(), stop) == Drain(provider.services, stream[..pos])
    {
      var n := Deliver(|stream| - pos, buffer.ReadCapacity());
      assert stream[..pos] + stream[pos..pos + n] == stream[..pos + n];
      DrainConcat(provider.services, stream[..pos], stream[pos..pos + n]);
      var ended := provider.HandleRead(conn, buffer, Got(stream[pos..pos + n]));
      stop := ended.value;
      pos := pos + n;
    }
    assert stream[..pos] == stream;
    calls := conn.dispatched;
    unread := buffer.Peek(0, buffer.ReadableBytes());
  }

  /** However many bytes the kernel chooses to deliver at once. */
  method Deliver(left: nat, capacity: nat) returns (n: nat)
    requires left > 0 && capacity > 0
    ensures 0 < n <= Min(left, capacity)
  {
    n :| 0 < n <= Min(left, capacity);
  }

  /**
    From call to call: the client frames the calls one by one, any part of the stream reaches the
    provider in any pieces, and what the provider has dispatched is exactly the calls whose frames
    are complete; what it holds unread is a proper prefix of the next frame.
    */
  method EndToEnd(channel: MprpcChannel, provider: RpcProvider, calls: seq<Call>, k: nat)
    returns (dispatched: seq<Call>, unread: bytes, stop: Verdict)
    requires AllServable(provider.services, calls) && k <= |Stream(calls)|
    ensures var n := Complete(calls, k);
            && dispatched == calls[..n] && stop == Wait
            && if n == |calls| then unread == [] else unread < Frame(calls[n])
  {
    hide Frame, Drain, Accepts, Sendable, Decodable;
    var stream: bytes := [];
    for i := 0 to |calls|
      invariant (forall call :: call in calls[..i] ==> Sendable(call)) && stream == Stream(calls[..i])
    {
      assert calls[i] in calls;
      var r := channel.CallMethod(calls[i].service, calls[i].methodName, Some(calls[i].args));
      stream := stream + r.frame;
      assert calls[..i + 1] == calls[..i] + [calls[i]];
      StreamSnoc(calls[..i], calls[i]);
    }
    assert calls[..|calls|] == calls;
    dispatched, unread, stop := Serve(provider, stream[..k]);
    PrefixDrains(provider.services, calls, k);
  }
}
