/** The growable byte queue of the network library: one vector, two indices. */
module Buffers {
  import opened Bytes

  const CHEAP_PREPEND: nat := 8
  const INITIAL_SIZE: nat := 1024
  // Size of the stack buffer that takes the overflow of a scatter read.
  const EXTRA_SIZE: nat := 65536

  /** What readv reported: an errno, or the bytes it delivered. */
  datatype ReadResult = Failed(errno: int) | Got(data: bytes)

  class Buffer {
    var buffer: array<byte>
    var readerIndex: nat
    var writerIndex: nat
    const initialSize: nat
    // The largest number of readable bytes held so far.
    ghost var peak: nat

    ghost predicate Indices()
      reads this
    {
      CHEAP_PREPEND <= readerIndex <= writerIndex <= buffer.Length
    }

    ghost predicate Valid()
      reads this
    {
      && Indices()
      && writerIndex - readerIndex <= peak
      && CapacityBound(peak)
    }

    /** The vector is no larger than it started, or than twice `readable` plus the prepend area. */
    ghost predicate CapacityBound(readable: nat)
      reads this
    {
      buffer.Length <= Max(CHEAP_PREPEND + initialSize, CHEAP_PREPEND + 2 * readable)
    }

    /** The byte queue the buffer stands for. */
    ghost function Contents(): bytes
      requires Indices()
      reads this, buffer
    {
      buffer[readerIndex..writerIndex]
    }

    ghost function Repr(): set<object>
      reads this
    {
      {this, buffer}
    }

    constructor (initialSize: nat := INITIAL_SIZE)
      ensures Valid() && fresh(buffer)
      ensures Contents() == [] && peak == 0
      ensures this.initialSize == initialSize && buffer.Length == CHEAP_PREPEND + initialSize
    {
      buffer := new byte[CHEAP_PREPEND + initialSize](_ => 0);
      readerIndex := CHEAP_PREPEND;
      writerIndex := CHEAP_PREPEND;
      this.initialSize := initialSize;
      peak := 0;
    }

    function ReadableBytes(): nat
      requires Indices()
      reads this, buffer
      ensures ReadableBytes() == |Contents()|
    {
      writerIndex - readerIndex
    }

    function WritableBytes(): nat
      requires Indices()
      reads this
    {
      buffer.Length - writerIndex
    }

    /** A copy of `len` readable bytes starting `offset` bytes after the read position. */
    method Peek(offset: nat, len: nat) returns (data: bytes)
      requires Indices() && offset + len <= |Contents()|
      ensures data == Contents()[offset..offset + len]
    {
      data := buffer[readerIndex..writerIndex][offset..offset + len];
    }

    method RetrieveAll()
      requires Valid()
      modifies this
      ensures Valid() && Contents() == []
      ensures buffer == old(buffer) && peak == old(peak)
    {
      readerIndex, writerIndex := CHEAP_PREPEND, CHEAP_PREPEND;
    }

    /** Drops the first `len` readable bytes, or all of them when there are fewer. */
    method Retrieve(len: nat)
      requires Valid()
      modifies this
      ensures Valid() && buffer == old(buffer) && peak == old(peak)
      ensures Contents() == old(Contents()[Min(len, |Contents()|)..])
    {
      if len >= writerIndex - readerIndex {
        RetrieveAll();
      } else {
        readerIndex := readerIndex + len;
      }
    }

    method RetrieveAllAsString() returns (data: bytes)
      requires Valid()
      modifies this
      ensures data == old(Contents())
      ensures Valid() && Contents() == [] && buffer == old(buffer) && peak == old(peak)
    {
      data := Peek(0, writerIndex - readerIndex);
      RetrieveAll();
    }

    /** Adds `data` at the end of the queue. */
    method Append(data: bytes)
      requires Valid()
      modifies this, buffer
      ensures Valid() && Contents() == old(Contents()) + data
      ensures peak == Max(old(peak), |Contents()|)
      ensures buffer == old(buffer) || (fresh(buffer) && buffer.Length > old(buffer.Length))
    {
      EnsureWritableBytes(|data|);
      Fill(data);
    }

    /** Copies `data` into the writable tail and advances the write position over it. */
    method Fill(data: bytes)
      requires Indices() && |data| <= WritableBytes()
      modifies this`writerIndex, this`peak, buffer
      ensures Indices() && Contents() == old(Contents()) + data
      ensures writerIndex == old(writerIndex) + |data| && peak == Max(old(peak), |Contents()|)
    {
      forall i | 0 <= i < |data| {
        buffer[writerIndex + i] := data[i];
      }
      writerIndex := writerIndex + |data|;
      peak := Max(peak, writerIndex - readerIndex);
    }

    /** Makes room for `len` more bytes; the capacity bound already counts them as readable. */
    method EnsureWritableBytes(len: nat)
      requires Valid()
      modifies this, buffer
      ensures Indices() && WritableBytes() >= len
      ensures Contents() == old(Contents()) && peak == old(peak)
      ensures CapacityBound(Max(peak, |Contents()| + len))
      ensures buffer == old(buffer) || (fresh(buffer) && buffer.Length > old(buffer.Length))
    {
      if WritableBytes() < len {
        MakeSpace(len);
      }
    }

    /** Grows the vector, or moves the readable bytes back over the consumed ones. */
    method MakeSpace(len: nat)
      requires Valid() && WritableBytes() < len
      modifies this, buffer
      ensures Indices() && WritableBytes() >= len
      ensures Contents() == old(Contents()) && peak == old(peak)
      ensures CapacityBound(Max(peak, |Contents()| + len))
      ensures buffer == old(buffer) || (fresh(buffer) && buffer.Length > old(buffer.Length))
    {
      if readerIndex + WritableBytes() < len + CHEAP_PREPEND {
        Resize(writerIndex + len);
      } else {
        assert readerIndex > CHEAP_PREPEND;
        Compact();
      }
    }

    /** Moves the readable bytes forward to the prepend area; the target lies strictly before the source. */
    method Compact()
      requires Indices() && readerIndex > CHEAP_PREPEND
      modifies this`readerIndex, this`writerIndex, buffer
      ensures readerIndex == CHEAP_PREPEND && Indices() && Contents() == old(Contents())
    {
      var readable := writerIndex - readerIndex;
      var i := 0;
      while i < readable
        modifies buffer
        invariant i <= readable
        invariant forall k :: 0 <= k < i ==> buffer[CHEAP_PREPEND + k] == old(Contents())[k]
        invariant forall k :: i <= k < readable ==> buffer[readerIndex + k] == old(Contents())[k]
      {
        buffer[CHEAP_PREPEND + i] := buffer[readerIndex + i];
        i := i + 1;
      }
      readerIndex, writerIndex := CHEAP_PREPEND, CHEAP_PREPEND + readable;
    }

    /** The vector's own resize: old bytes kept, new ones zero. */
    method Resize(size: nat)
      requires Indices() && size > buffer.Length
      modifies this
      ensures fresh(buffer) && buffer.Length == size && Indices()
      ensures Contents() == old(Contents())
      ensures readerIndex == old(readerIndex) && writerIndex == old(writerIndex) && peak == old(peak)
    {
      var grown := new byte[size](_ => 0);
      forall i | 0 <= i < buffer.Length {
        grown[i] := buffer[i];
      }
      buffer := grown;
    }

    /** The most one readv can deliver: the writable tail, and the stack buffer when the tail is small. */
    function ReadCapacity(): nat
      requires Indices()
      reads this
    {
      WritableBytes() + if WritableBytes() < EXTRA_SIZE then EXTRA_SIZE else 0
    }

    /**
      Scatter read: the kernel fills the writable tail first and then the stack buffer,
      whose share is appended afterwards.
      */
    method ReadFd(read: ReadResult) returns (n: int)
      requires Valid()
      requires read.Got? ==> |read.data| <= ReadCapacity()
      modifies this, buffer
      ensures Valid()
      ensures n == if read.Got? then |read.data| else -1
      ensures Contents() == old(Contents()) + if read.Got? then read.data else []
      ensures peak == Max(old(peak), |Contents()|)
      ensures buffer == old(buffer) || (fresh(buffer) && buffer.Length > old(buffer.Length))
    {
      match read {
        case Failed(_) =>
          return -1;
        case Got(data) =>
          var writable := WritableBytes();
          Fill(data[..Min(|data|, writable)]);
          if |data| > writable {
            Append(data[writable..]);
            assert data == data[..writable] + data[writable..];
          }
          return |data|;
      }
    }
  }

  /** A read offers what has arrived; readv delivers as much of it as there is room for. */
  datatype Operation =
    | DoAppend(data: bytes)
    | DoRetrieve(len: nat)
    | DoRetrieveAll
    | DoRead(read: ReadResult)

  /** The operation as it takes place when one readv can deliver `room` bytes. */
  function Cut(op: Operation, room: nat): Operation
  {
    match op
    case DoRead(Got(data)) => DoRead(Got(data[..Min(|data|, room)]))
    case _ => op
  }

  /** The operation took place as offered, or a read of more than the stack buffer was cut short. */
  predicate Delivers(offer: Operation, done: Operation)
  {
    done == offer ||
    (offer.DoRead? && offer.read.Got? && done.DoRead? && done.read.Got?
     && EXTRA_SIZE <= |done.read.data| < |offer.read.data| && done.read.data <= offer.read.data)
  }

  /** A plain byte queue after `ops`, and the most bytes it ever held. */
  datatype Fifo = Fifo(held: bytes, peak: nat)

  function Queued(held: bytes, op: Operation): bytes
  {
    match op
    case DoAppend(data) => held + data
    case DoRetrieve(len) => held[Min(len, |held|)..]
    case DoRetrieveAll => []
    case DoRead(Got(data)) => held + data
    case DoRead(Failed(_)) => held
  }

  function Reference(ops: seq<Operation>): Fifo
  {
    if ops == [] then Fifo([], 0) else
    var before := Reference(ops[..|ops| - 1]);
    var held := Queued(before.held, ops[|ops| - 1]);
    Fifo(held, Max(before.peak, |held|))
  }

  /** One operation on a buffer: what the kernel cannot deliver at once stays with it. */
  method Perform(b: Buffer, op: Operation) returns (done: Operation)
    requires b.Valid()
    modifies b, b.buffer
    ensures done == Cut(op, old(b.ReadCapacity())) && Delivers(op, done)
    ensures b.Valid() && b.Contents() == Queued(old(b.Contents()), done)
    ensures b.peak == Max(old(b.peak), |b.Contents()|)
    ensures b.buffer == old(b.buffer) || (fresh(b.buffer) && b.buffer.Length > old(b.buffer.Length))
  {
    done := Cut(op, b.ReadCapacity());
    match done {
      case DoAppend(data) => b.Append(data);
      case DoRetrieve(len) => b.Retrieve(len);
      case DoRetrieveAll => var _ := b.RetrieveAllAsString();
      case DoRead(read) => var _ := b.ReadFd(read);
    }
  }

  /**
    Any run of operations on a new buffer, with reads of any length: the buffer behaves as the plain
    queue, and its vector stays within the larger of its first size and twice the peak.
    */
  method Replay(initialSize: nat, ops: seq<Operation>) returns (b: Buffer, done: seq<Operation>)
    ensures |done| == |ops| && forall i :: 0 <= i < |ops| ==> Delivers(ops[i], done[i])
    ensures fresh(b.Repr()) && b.Valid() && b.Contents() == Reference(done).held
    ensures b.buffer.Length <= Max(CHEAP_PREPEND + initialSize, CHEAP_PREPEND + 2 * Reference(done).peak)
  {
    b := new Buffer(initialSize);
    done := [];
    for i := 0 to |ops|
      invariant b.Valid() && fresh(b.Repr()) && b.initialSize == initialSize
      invariant |done| == i && forall k :: 0 <= k < i ==> Delivers(ops[k], done[k])
      invariant b.Contents() == Reference(done).held && b.peak == Reference(done).peak
    {
      var op := Perform(b, ops[i]);
      assert (done + [op])[..i] == done;
      done := done + [op];
    }
  }
}
