/** The sliding, growing byte buffer (Buffer.h, Buffer.cc) refined against a plain byte queue. */
module Buffers {
  import opened Bytes

  const CHEAP_PREPEND: nat := 8
  const INITIAL_SIZE: nat := 1024
  const EXTRA_SIZE: nat := 65536

  function Max(a: nat, b: nat): nat { if a < b then b else a }

  class Buffer {
    var data: array<Byte>
    var readerIndex: nat
    var writerIndex: nat
    ghost var initial: nat   // size asked for at construction
    ghost var peak: nat      // most bytes that were ever readable at once

    ghost predicate Valid()
      reads this
    {
      && readerIndex <= writerIndex <= data.Length
      && CHEAP_PREPEND <= data.Length
      && writerIndex - readerIndex <= peak
      && data.Length <= Max(CHEAP_PREPEND + initial, 2 * peak + 7)
    }

    function Contents(): (s: seq<Byte>)
      requires Valid()
      reads this, data
      ensures |s| == ReadableBytes()
    {
      data[readerIndex..writerIndex]
    }

    function ReadableBytes(): nat requires Valid() reads this { writerIndex - readerIndex }

    function WritableBytes(): nat requires Valid() reads this { data.Length - writerIndex }

    function PrependableBytes(): nat requires Valid() reads this { readerIndex }

    constructor (initialSize: nat := INITIAL_SIZE)
      ensures Valid() && fresh(data)
      ensures Contents() == [] && WritableBytes() == initialSize && PrependableBytes() == 8
      ensures initial == initialSize && peak == 0
    {
      data := new Byte[CHEAP_PREPEND + initialSize];
      readerIndex, writerIndex := CHEAP_PREPEND, CHEAP_PREPEND;
      initial, peak := initialSize, 0;
    }

    // -------------------------------------------------------------- consuming

    method RetrieveAll()
      requires Valid()
      modifies this
      ensures Valid() && data == old(data) && initial == old(initial) && peak == old(peak)
      ensures Contents() == []
      ensures PrependableBytes() == 8
    {
      readerIndex, writerIndex := CHEAP_PREPEND, CHEAP_PREPEND;
    }

    /** `Buffer::retrieve`: its assert is the precondition. */
    method Retrieve(len: nat)
      requires Valid() && len <= ReadableBytes()
      modifies this
      ensures Valid() && data == old(data) && initial == old(initial) && peak == old(peak)
      ensures Contents() == old(Contents())[len..]
      ensures PrependableBytes() == if len < old(ReadableBytes()) then old(PrependableBytes()) + len else 8
    {
      if len < ReadableBytes() {
        readerIndex := readerIndex + len;
      } else {
        RetrieveAll();
      }
    }

    method RetrieveAsString(len: nat) returns (result: seq<Byte>)
      requires Valid() && len <= ReadableBytes()
      modifies this
      ensures Valid() && data == old(data) && initial == old(initial) && peak == old(peak)
      ensures result + Contents() == old(Contents()) && |result| == len
    {
      result := data[readerIndex..readerIndex + len];
      Retrieve(len);
    }

    // -------------------------------------------------------------- making room

    /** `std::copy` towards the front: source and target overlap, so the order of the copies matters. */
    method MoveDown(from: nat, to: nat, count: nat)
      requires to <= from && from + count <= data.Length
      modifies data
      ensures data[to..to + count] == old(data[from..from + count])
    {
      ghost var was := data[..];
      for i := 0 to count
        invariant data[to..to + i] == was[from..from + i]
        invariant data[from + i..] == was[from + i..]
      {
        assert data[from + i..][0] == was[from + i];
        data[to + i] := data[from + i];
      }
    }

    /** `std::copy` of caller bytes into the backing array. */
    method Store(at: nat, bytes: seq<Byte>)
      requires at + |bytes| <= data.Length
      modifies data
      ensures data[..at] == old(data[..at])
      ensures data[at..at + |bytes|] == bytes
    {
      forall i | 0 <= i < |bytes| {
        data[at + i] := bytes[i];
      }
    }

    /** Both paths keep the contents; the assert of the sliding path is proved, not assumed. */
    method MakeSpace(len: nat)
      requires Valid() && WritableBytes() < len
      modifies this, data
      ensures readerIndex <= writerIndex <= data.Length && CHEAP_PREPEND <= data.Length
      ensures data == old(data) || fresh(data)
      ensures initial == old(initial) && peak == old(peak)
      ensures data[readerIndex..writerIndex] == old(Contents())
      ensures data.Length - writerIndex >= len
      ensures data.Length <= Max(old(data.Length), 2 * (old(ReadableBytes()) + len) + 7)
      ensures data != old(data) ==> data.Length == old(writerIndex) + len && readerIndex == old(readerIndex)
      ensures data == old(data) ==> readerIndex == 8 < old(readerIndex)
      ensures data != old(data) <==> old(WritableBytes()) + old(PrependableBytes()) < len + 8
    {
      if WritableBytes() + PrependableBytes() < len + CHEAP_PREPEND {
        var bigger := new Byte[writerIndex + len];
        forall i | 0 <= i < data.Length {
          bigger[i] := data[i];
        }
        data := bigger;
      } else {
        assert CHEAP_PREPEND < readerIndex;
        var readable := ReadableBytes();
        MoveDown(readerIndex, CHEAP_PREPEND, readable);
        readerIndex := CHEAP_PREPEND;
        writerIndex := readerIndex + readable;
        assert readable == writerIndex - readerIndex;
      }
    }

    // -------------------------------------------------------------- producing

    /** The copy and `hasWritten` at the end of `append`. */
    method HasStored(bytes: seq<Byte>, ghost before: seq<Byte>)
      requires readerIndex <= writerIndex && writerIndex + |bytes| <= data.Length
      requires data[readerIndex..writerIndex] == before
      modifies this`writerIndex, this`peak, data
      ensures readerIndex <= writerIndex <= data.Length && writerIndex == old(writerIndex) + |bytes|
      ensures data[readerIndex..writerIndex] == before + bytes
      ensures peak == Max(old(peak), writerIndex - readerIndex)
    {
      Store(writerIndex, bytes);
      assert data[readerIndex..writerIndex] == data[..writerIndex][readerIndex..];
      assert data[readerIndex..writerIndex] == before;
      writerIndex := writerIndex + |bytes|;
      peak := Max(peak, writerIndex - readerIndex);
      assert data[readerIndex..writerIndex] == data[readerIndex..old(writerIndex)] + data[old(writerIndex)..writerIndex];
    }

    method Append(bytes: seq<Byte>)
      requires Valid()
      modifies this, data
      ensures Valid() && (data == old(data) || fresh(data))
      ensures Contents() == old(Contents()) + bytes
      ensures initial == old(initial) && peak == Max(old(peak), |Contents()|)
      ensures |bytes| <= old(WritableBytes()) ==> data == old(data) && PrependableBytes() == old(PrependableBytes())
    {
      ghost var before := Contents();
      if WritableBytes() < |bytes| {
        MakeSpace(|bytes|);
      }
      assert data.Length - writerIndex >= |bytes|;
      HasStored(bytes, before);
    }

    /** `Buffer::prepend`: its assert is the precondition. */
    method Prepend(bytes: seq<Byte>)
      requires Valid() && |bytes| <= PrependableBytes()
      modifies this, data
      ensures Valid() && data == old(data)
      ensures Contents() == bytes + old(Contents())
      ensures PrependableBytes() == old(PrependableBytes()) - |bytes|
      ensures initial == old(initial) && peak == Max(old(peak), |Contents()|)
    {
      ghost var before := Contents();
      readerIndex := readerIndex - |bytes|;
      forall i | 0 <= i < |bytes| {
        data[readerIndex + i] := bytes[i];
      }
      peak := Max(peak, writerIndex - readerIndex);
      assert data[readerIndex + |bytes|..writerIndex] == before;
      assert data[readerIndex..writerIndex] == bytes + before;
    }

    // -------------------------------------------------------------- integers (8, 16, 32 and 64 bits)

    method AppendInt(x: int, width: nat)
      requires Valid() && width in {1, 2, 4, 8} && FitsSigned(x, width)
      modifies this, data
      ensures Valid() && (data == old(data) || fresh(data))
      ensures Contents() == old(Contents()) + EncodeInt(x, width)
    {
      Append(EncodeInt(x, width));
    }

    method PrependInt(x: int, width: nat)
      requires Valid() && width in {1, 2, 4, 8} && FitsSigned(x, width) && width <= PrependableBytes()
      modifies this, data
      ensures Valid() && data == old(data)
      ensures Contents() == EncodeInt(x, width) + old(Contents())
      ensures PrependableBytes() == old(PrependableBytes()) - width
    {
      Prepend(EncodeInt(x, width));
    }

    function PeekInt(width: nat): (x: int)
      requires Valid() && width in {1, 2, 4, 8} && width <= ReadableBytes()
      reads this, data
      ensures FitsSigned(x, width)
    {
      DecodeInt(data[readerIndex..readerIndex + width])
    }

    /** Reading removes exactly the encoding of the value it returns. */
    method ReadInt(width: nat) returns (x: int)
      requires Valid() && width in {1, 2, 4, 8} && width <= ReadableBytes()
      modifies this
      ensures Valid() && data == old(data)
      ensures FitsSigned(x, width)
      ensures old(Contents()) == EncodeInt(x, width) + Contents()
    {
      ghost var head := data[readerIndex..readerIndex + width];
      x := PeekInt(width);
      IntegerRoundTrip(x, head);
      assert Contents() == head + Contents()[width..];
      Retrieve(width);
    }

    // -------------------------------------------------------------- the kernel side

    function Offered(): (n: nat)
      requires Valid()
      reads this
      ensures n == WritableBytes() + if WritableBytes() < 65536 then 65536 else 0
    {
      WritableBytes() + if WritableBytes() < EXTRA_SIZE then EXTRA_SIZE else 0
    }

    /** `Buffer::readFd`. `arrived` is what `readv` stored over the two areas, or None for an error. */
    method ReadFd(arrived: Option<seq<Byte>>) returns (n: int)
      requires Valid() && (arrived.Some? ==> |arrived.value| <= Offered())
      modifies this, data
      ensures Valid() && (data == old(data) || fresh(data))
      ensures initial == old(initial)
      ensures arrived.None? ==> n < 0 && Contents() == old(Contents()) && peak == old(peak)
      ensures arrived.Some? ==> n == |arrived.value| && Contents() == old(Contents()) + arrived.value
      ensures arrived.Some? ==> peak == Max(old(peak), |Contents()|)
    {
      if arrived.None? {
        return -1;
      }
      var bytes := arrived.value;
      n := |bytes|;
      if n <= WritableBytes() {
        HasStored(bytes, Contents());
      } else {
        ReceiveSpilled(bytes);
      }
    }

    /** More arrived than the tail holds: the rest is in the overflow area and is appended from there. */
    method ReceiveSpilled(bytes: seq<Byte>)
      requires Valid() && WritableBytes() < |bytes| <= Offered()
      modifies this, data
      ensures Valid() && (data == old(data) || fresh(data))
      ensures initial == old(initial) && peak == Max(old(peak), |Contents()|)
      ensures Contents() == old(Contents()) + bytes
    {
      var writable := WritableBytes();
      ghost var before := Contents();
      var extrabuf := new Byte[EXTRA_SIZE];
      forall i | 0 <= i < |bytes| - writable {
        extrabuf[i] := bytes[writable + i];
      }
      var spilled := extrabuf[..|bytes| - writable];
      assert spilled == bytes[writable..];
      HasStored(bytes[..writable], before);
      Append(spilled);
      assert before + bytes == (before + bytes[..writable]) + bytes[writable..];
    }

    /** `Buffer::writeFd`: the kernel takes some prefix; the buffer itself is not consumed here. */
    method WriteFd(accepted: Option<nat>) returns (n: int, taken: seq<Byte>)
      requires Valid() && (accepted.Some? ==> accepted.value <= ReadableBytes())
      ensures accepted.None? ==> n < 0 && taken == []
      ensures accepted.Some? ==> n == accepted.value && taken == Contents()[..n]
    {
      if accepted.None? {
        return -1, [];
      }
      n := accepted.value;
      taken := data[readerIndex..readerIndex + n];
    }
  }

  // ---------------------------------------------------------------- whole operation sequences

  datatype Op =
    | Put(bytes: seq<Byte>)
    | PutInt(x: int, width: nat)
    | PutFront(bytes: seq<Byte>)
    | PutIntFront(x: int, width: nat)
    | Receive(bytes: seq<Byte>)   // one readFd, with all that the kernel delivers
    | ReceiveFails
    | Take(len: nat)
    | TakeInt(width: nat)
    | TakeAll

  /** The integer operations come in four widths. */
  predicate WellFormed(op: Op) {
    match op
    case PutInt(x, width) => width in {1, 2, 4, 8} && FitsSigned(x, width)
    case PutIntFront(x, width) => width in {1, 2, 4, 8} && FitsSigned(x, width)
    case TakeInt(width) => width in {1, 2, 4, 8}
    case _ => true
  }

  ghost predicate AllWellFormed(ops: seq<Op>) {
    forall op :: op in ops ==> WellFormed(op)
  }

  /** What the operation's assert asks of the buffer, and of `readv` that it delivers no more than was offered. */
  predicate Allowed(op: Op, readable: nat, prependable: nat, offered: nat) {
    match op
    case PutFront(bytes) => |bytes| <= prependable
    case PutIntFront(_, width) => width <= prependable
    case Receive(bytes) => |bytes| <= offered
    case Take(len) => len <= readable
    case TakeInt(width) => width <= readable
    case _ => true
  }

  /** Only these can be refused; a read of up to 65536 bytes never is. */
  predicate Refusable(op: Op) {
    op.PutFront? || op.PutIntFront? || op.Take? || op.TakeInt? || (op.Receive? && |op.bytes| > EXTRA_SIZE)
  }

  function AtBack(op: Op): seq<Byte>
    requires WellFormed(op)
  {
    match op
    case Put(bytes) => bytes
    case PutInt(x, width) => EncodeInt(x, width)
    case Receive(bytes) => bytes
    case _ => []
  }

  function AtFront(op: Op): seq<Byte>
    requires WellFormed(op)
  {
    match op
    case PutFront(bytes) => bytes
    case PutIntFront(x, width) => EncodeInt(x, width)
    case _ => []
  }

  /** How many bytes a plain queue of this length gives up. */
  function Leaving(op: Op, readable: nat): nat {
    match op
    case Take(len) => if len <= readable then len else 0
    case TakeInt(width) => if width <= readable then width else 0
    case TakeAll => readable
    case _ => 0
  }

  /** The operation on a plain byte queue. */
  function OnQueue(q: seq<Byte>, op: Op): seq<Byte>
    requires WellFormed(op)
  {
    AtFront(op) + q[Leaving(op, |q|)..] + AtBack(op)
  }

  /** A plain byte queue after a list of operations, and what they took from its front. */
  ghost function AfterAll(q: seq<Byte>, ops: seq<Op>): seq<Byte>
    requires AllWellFormed(ops)
  {
    if ops == [] then q else OnQueue(AfterAll(q, ops[..|ops| - 1]), ops[|ops| - 1])
  }

  ghost function AllTaken(q: seq<Byte>, ops: seq<Op>): seq<Byte>
    requires AllWellFormed(ops)
  {
    if ops == [] then []
    else
      var before, op := AfterAll(q, ops[..|ops| - 1]), ops[|ops| - 1];
      AllTaken(q, ops[..|ops| - 1]) + before[..Leaving(op, |before|)]
  }

  ghost function AllWritten(ops: seq<Op>): seq<Byte>
    requires AllWellFormed(ops)
  {
    if ops == [] then [] else AllWritten(ops[..|ops| - 1]) + AtBack(ops[|ops| - 1])
  }

  /** The operations of a run whose asserts held. */
  ghost function Held(ops: seq<Op>, flags: seq<bool>): (r: seq<Op>)
    requires |flags| == |ops|
    ensures forall op :: op in r ==> op in ops
  {
    if ops == [] then []
    else Held(ops[..|ops| - 1], flags[..|ops| - 1]) + if flags[|ops| - 1] then [ops[|ops| - 1]] else []
  }

  /** Refusals are justified: only a refusable operation is refused, and a take exactly when the plain
      queue holds less than it asks for. */
  ghost predicate Justified(q: seq<Byte>, ops: seq<Op>, flags: seq<bool>)
    requires |flags| == |ops| && AllWellFormed(ops)
  {
    ops == [] ||
    var n := |ops| - 1;
    && Justified(q, ops[..n], flags[..n])
    && JustifiedNow(ops[n], flags[n], |AfterAll(q, Held(ops[..n], flags[..n]))|)
  }

  predicate JustifiedNow(op: Op, held: bool, readable: nat) {
    && (held || Refusable(op))
    && (op.Take? ==> (held <==> op.len <= readable))
    && (op.TakeInt? ==> (held <==> op.width <= readable))
  }

  /** First in, first out: as long as nothing is put in front, what came out, then what is left, is what
      was there before, then what went in. */
  lemma {:induction false} FirstInFirstOut(q: seq<Byte>, ops: seq<Op>)
    requires AllWellFormed(ops) && forall op :: op in ops ==> AtFront(op) == []
    ensures AllTaken(q, ops) + AfterAll(q, ops) == q + AllWritten(ops)
  {
    if ops != [] {
      var front, op := ops[..|ops| - 1], ops[|ops| - 1];
      FirstInFirstOut(q, front);
      QueueStep(AllTaken(q, front), AfterAll(q, front), Leaving(op, |AfterAll(q, front)|), q, AllWritten(front), AtBack(op));
      assert OnQueue(AfterAll(q, front), op) == AfterAll(q, front)[Leaving(op, |AfterAll(q, front)|)..] + AtBack(op);
    }
  }

  lemma QueueStep(out: seq<Byte>, before: seq<Byte>, n: nat, start: seq<Byte>, done: seq<Byte>, written: seq<Byte>)
    requires out + before == start + done && n <= |before|
    ensures (out + before[..n]) + (before[n..] + written) == start + (done + written)
  {
    assert before[..n] + before[n..] == before;
    assert (out + before[..n]) + (before[n..] + written) == (out + before) + written;
    assert (start + done) + written == start + (done + written);
  }

  /** Any run of operations on the buffer is the same run on a plain byte queue, less the operations whose
      assert does not hold. */
  method Drive(b: Buffer, ops: seq<Op>) returns (out: seq<Byte>, ghost flags: seq<bool>)
    requires b.Valid() && AllWellFormed(ops)
    modifies b, b.data
    ensures b.Valid() && |flags| == |ops|
    ensures b.Contents() == AfterAll(old(b.Contents()), Held(ops, flags))
    ensures out == AllTaken(old(b.Contents()), Held(ops, flags))
    ensures Justified(old(b.Contents()), ops, flags)
    ensures b.data.Length <= Max(8 + b.initial, 2 * b.peak + 7)
  {
    hide WellFormed, OnQueue, Leaving, JustifiedNow, Allowed;
    out, flags := [], [];
    ghost var q := b.Contents();
    assert Held(ops[..0], []) == [];
    for i := 0 to |ops|
      invariant b.Valid() && (b.data == old(b.data) || fresh(b.data)) && |flags| == i
      invariant b.Contents() == AfterAll(q, Held(ops[..i], flags))
      invariant out == AllTaken(q, Held(ops[..i], flags))
      invariant Justified(q, ops[..i], flags)
    {
      var taken, held := Perform(b, ops[i]);
      OneMoreHeld(q, ops[..i], flags, ops[i], held);
      assert ops[..i + 1] == ops[..i] + [ops[i]];
      out, flags := out + taken, flags + [held];
    }
    assert ops[..|ops|] == ops;
  }

  lemma OneMoreHeld(q: seq<Byte>, ops: seq<Op>, flags: seq<bool>, op: Op, held: bool)
    requires |flags| == |ops| && AllWellFormed(ops) && WellFormed(op)
    ensures AllWellFormed(ops + [op])
    ensures var before, more := Held(ops, flags), Held(ops + [op], flags + [held]);
      var q0 := AfterAll(q, before);
      if held then AfterAll(q, more) == OnQueue(q0, op) && AllTaken(q, more) == AllTaken(q, before) + q0[..Leaving(op, |q0|)]
      else more == before
    ensures Justified(q, ops + [op], flags + [held])
       <==> Justified(q, ops, flags) && JustifiedNow(op, held, |AfterAll(q, Held(ops, flags))|)
  {
    assert (ops + [op])[..|ops|] == ops && (flags + [held])[..|ops|] == flags;
    var before := Held(ops, flags);
    assert (before + [op])[..|before|] == before;
  }

  /** One operation, if its assert holds. */
  method Perform(b: Buffer, op: Op) returns (taken: seq<Byte>, held: bool)
    requires b.Valid() && WellFormed(op)
    modifies b, b.data
    ensures b.Valid() && (b.data == old(b.data) || fresh(b.data))
    ensures held == old(Allowed(op, b.ReadableBytes(), b.PrependableBytes(), b.Offered()))
    ensures JustifiedNow(op, held, |old(b.Contents())|)
    ensures if held then b.Contents() == OnQueue(old(b.Contents()), op) && taken == old(b.Contents())[..Leaving(op, |old(b.Contents())|)]
            else b.Contents() == old(b.Contents()) && taken == []
  {
    hide WellFormed, OnQueue;
    taken := [];
    held := Allowed(op, b.ReadableBytes(), b.PrependableBytes(), b.Offered());
    if held {
      if op.Take? || op.TakeInt? || op.TakeAll? {
        taken := TakeOff(b, op);
      } else if op.PutFront? || op.PutIntFront? {
        PutOn(b, op);
      } else {
        PutBack(b, op);
      }
    }
  }

  method TakeOff(b: Buffer, op: Op) returns (taken: seq<Byte>)
    requires b.Valid() && WellFormed(op) && (op.Take? || op.TakeInt? || op.TakeAll?)
    requires Allowed(op, b.ReadableBytes(), b.PrependableBytes(), b.Offered())
    modifies b
    ensures b.Valid() && b.data == old(b.data)
    ensures var n := Leaving(op, |old(b.Contents())|);
      taken == old(b.Contents())[..n] && b.Contents() == OnQueue(old(b.Contents()), op)
  {
    ghost var q := b.Contents();
    match op
    case Take(len) =>
      taken := b.RetrieveAsString(len);
      SameHead(taken, b.Contents(), q[..len], q[len..]);
    case TakeInt(width) =>
      var x := b.ReadInt(width);
      taken := EncodeInt(x, width);
      SameHead(taken, b.Contents(), q[..width], q[width..]);
    case TakeAll =>
      taken := b.Contents();
      b.RetrieveAll();
  }

  method PutOn(b: Buffer, op: Op)
    requires b.Valid() && WellFormed(op) && (op.PutFront? || op.PutIntFront?)
    requires Allowed(op, b.ReadableBytes(), b.PrependableBytes(), b.Offered())
    modifies b, b.data
    ensures b.Valid() && b.data == old(b.data)
    ensures b.Contents() == OnQueue(old(b.Contents()), op)
  {
    match op
    case PutFront(bytes) => b.Prepend(bytes);
    case PutIntFront(x, width) => b.PrependInt(x, width);
  }

  method PutBack(b: Buffer, op: Op)
    requires b.Valid() && WellFormed(op) && (op.Put? || op.PutInt? || op.Receive? || op.ReceiveFails?)
    requires Allowed(op, b.ReadableBytes(), b.PrependableBytes(), b.Offered())
    modifies b, b.data
    ensures b.Valid() && (b.data == old(b.data) || fresh(b.data))
    ensures b.Contents() == OnQueue(old(b.Contents()), op)
  {
    hide EncodeInt, FitsSigned;
    match op
    case Put(bytes) => b.Append(bytes);
    case PutInt(x, width) => b.AppendInt(x, width);
    case Receive(bytes) => var _ := b.ReadFd(Some(bytes));
    case ReceiveFails => var _ := b.ReadFd(None);
  }

  ghost function EncodeAll(xs: seq<(int, nat)>): seq<Byte>
    requires forall p :: p in xs ==> FitsSigned(p.0, p.1)
  {
    if xs == [] then [] else EncodeInt(xs[0].0, xs[0].1) + EncodeAll(xs[1..])
  }

  lemma SameHead(a: seq<Byte>, x: seq<Byte>, b: seq<Byte>, y: seq<Byte>)
    requires a + x == b + y && |a| == |b|
    ensures a == b && x == y
  {
    assert a == (a + x)[..|a|] && x == (a + x)[|a|..];
    assert b == (b + y)[..|b|] && y == (b + y)[|b|..];
  }

  /** Reading undoes appending: the same value, and the bytes behind it. */
  method ReadOne(b: Buffer, ghost value: int, width: nat, ghost later: seq<Byte>) returns (x: int)
    requires b.Valid() && width in {1, 2, 4, 8} && FitsSigned(value, width)
    requires b.Contents() == EncodeInt(value, width) + later
    modifies b
    ensures b.Valid() && b.data == old(b.data) && x == value && b.Contents() == later
  {
    x := b.ReadInt(width);
    SameHead(EncodeInt(x, width), b.Contents(), EncodeInt(value, width), later);
    IntegerRoundTrip(x, EncodeInt(x, width));
    IntegerRoundTrip(value, EncodeInt(x, width));
  }

  ghost predicate Integers(xs: seq<(int, nat)>) {
    forall p :: p in xs ==> p.1 in {1, 2, 4, 8} && FitsSigned(p.0, p.1)
  }

  function TotalWidth(xs: seq<(int, nat)>): nat {
    if xs == [] then 0 else xs[0].1 + TotalWidth(xs[1..])
  }

  /** Reads one integer of each given width. */
  method ReadBack(b: Buffer, ghost xs: seq<(int, nat)>, widths: seq<nat>, ghost rest: seq<Byte>) returns (values: seq<int>)
    requires b.Valid() && |widths| == |xs| && Integers(xs)
    requires forall i :: 0 <= i < |xs| ==> xs[i].1 == widths[i]
    requires b.Contents() == EncodeAll(xs) + rest
    modifies b, b.data
    ensures b.Valid() && b.Contents() == rest
    ensures |values| == |xs| && forall i :: 0 <= i < |xs| ==> values[i] == xs[i].0
  {
    hide FitsSigned, EncodeInt;
    values := [];
    for i := 0 to |widths|
      invariant b.Valid() && b.data == old(b.data)
      invariant b.Contents() == EncodeAll(xs[i..]) + rest
      invariant |values| == i && forall k :: 0 <= k < i ==> values[k] == xs[k].0
    {
      ghost var later := EncodeAll(xs[i + 1..]) + rest;
      assert xs[i] in xs;
      assert EncodeAll(xs[i..]) + rest == EncodeInt(xs[i].0, widths[i]) + later by {
        assert xs[i..][1..] == xs[i + 1..];
      }
      var x := ReadOne(b, xs[i].0, widths[i], later);
      values := values + [x];
    }
  }

  method AppendAll(b: Buffer, xs: seq<(int, nat)>)
    requires b.Valid() && Integers(xs)
    modifies b, b.data
    ensures b.Valid() && (b.data == old(b.data) || fresh(b.data))
    ensures b.Contents() == old(b.Contents()) + EncodeAll(xs)
  {
    assert xs[..0] == [];
    for i := 0 to |xs|
      invariant b.Valid() && (b.data == old(b.data) || fresh(b.data))
      invariant b.Contents() == old(b.Contents()) + EncodeAll(xs[..i])
    {
      assert xs[..i + 1] == xs[..i] + [xs[i]];
      assert Integers(xs[..i + 1]);
      AppendOne(b, xs[..i], xs[i].0, xs[i].1, old(b.Contents()));
    }
    assert xs[..|xs|] == xs;
  }

  method AppendOne(b: Buffer, ghost xs: seq<(int, nat)>, x: int, width: nat, ghost before: seq<Byte>)
    requires b.Valid() && Integers(xs + [(x, width)]) && width in {1, 2, 4, 8} && FitsSigned(x, width)
    requires Integers(xs) && b.Contents() == before + EncodeAll(xs)
    modifies b, b.data
    ensures b.Valid() && (b.data == old(b.data) || fresh(b.data))
    ensures b.Contents() == before + EncodeAll(xs + [(x, width)])
  {
    EncodeOneMore(xs, (x, width));
    b.AppendInt(x, width);
    assert (before + EncodeAll(xs)) + EncodeInt(x, width) == before + (EncodeAll(xs) + EncodeInt(x, width));
  }

  lemma {:induction false} EncodeOneMore(xs: seq<(int, nat)>, p: (int, nat))
    requires Integers(xs + [p])
    ensures EncodeAll(xs + [p]) == EncodeAll(xs) + EncodeInt(p.0, p.1)
    decreases |xs|
  {
    assert forall x :: x in xs ==> x in xs + [p];
    if xs == [] {
      assert [] + [p] == [p] && [p][1..] == [];
      assert EncodeAll([p]) == EncodeInt(p.0, p.1) + [];
    } else {
      assert (xs + [p])[1..] == xs[1..] + [p];
      EncodeOneMore(xs[1..], p);
    }
  }

  /** Prepends the last integer first, so that the first ends up in front. */
  method PrependAll(b: Buffer, xs: seq<(int, nat)>)
    requires b.Valid() && Integers(xs) && TotalWidth(xs) <= b.PrependableBytes()
    modifies b, b.data
    ensures b.Valid() && b.data == old(b.data)
    ensures b.Contents() == EncodeAll(xs) + old(b.Contents())
    ensures b.PrependableBytes() == old(b.PrependableBytes()) - TotalWidth(xs)
  {
    hide FitsSigned, EncodeInt;
    var i := |xs|;
    assert xs[i..] == [] && xs[..i] == xs;
    while i > 0
      invariant i <= |xs| && b.Valid() && b.data == old(b.data)
      invariant b.Contents() == EncodeAll(xs[i..]) + old(b.Contents())
      invariant b.PrependableBytes() == old(b.PrependableBytes()) - TotalWidth(xs) + TotalWidth(xs[..i])
    {
      i := i - 1;
      WidthSplits(xs[..i], xs[i]);
      assert xs[..i + 1] == xs[..i] + [xs[i]] && xs[i] in xs && xs[i..] == [xs[i]] + xs[i + 1..];
      PrependOne(b, xs[i].0, xs[i].1, xs[i + 1..], old(b.Contents()));
    }
    assert xs[0..] == xs;
  }

  method PrependOne(b: Buffer, x: int, width: nat, ghost xs: seq<(int, nat)>, ghost after: seq<Byte>)
    requires b.Valid() && width in {1, 2, 4, 8} && FitsSigned(x, width) && width <= b.PrependableBytes()
    requires Integers(xs) && b.Contents() == EncodeAll(xs) + after
    modifies b, b.data
    ensures b.Valid() && b.data == old(b.data) && b.PrependableBytes() == old(b.PrependableBytes()) - width
    ensures Integers([(x, width)] + xs) && b.Contents() == EncodeAll([(x, width)] + xs) + after
  {
    b.PrependInt(x, width);
    assert ([(x, width)] + xs)[1..] == xs;
    assert EncodeInt(x, width) + (EncodeAll(xs) + after) == (EncodeInt(x, width) + EncodeAll(xs)) + after;
  }

  lemma {:induction false} WidthSplits(xs: seq<(int, nat)>, p: (int, nat))
    ensures TotalWidth(xs + [p]) == TotalWidth(xs) + p.1
    decreases |xs|
  {
    if xs == [] {
      assert [] + [p] == [p] && [p][1..] == [];
    } else {
      assert (xs + [p])[1..] == xs[1..] + [p];
      WidthSplits(xs[1..], p);
    }
  }

  /** Integers of any mix of widths, appended to an empty buffer, come back unchanged in the order in
      which they were appended; and so do those prepended before them, last one prepended first. */
  method IntegersRoundTrip(b: Buffer, front: seq<(int, nat)>, back: seq<(int, nat)>) returns (values: seq<int>)
    requires b.Valid() && b.Contents() == [] && Integers(front) && Integers(back)
    requires TotalWidth(front) <= 8
    modifies b, b.data
    ensures b.Valid() && b.Contents() == []
    ensures |values| == |front| + |back|
    ensures forall i :: 0 <= i < |values| ==> values[i] == (front + back)[i].0
  {
    hide FitsSigned, EncodeInt;
    b.RetrieveAll();
    PrependAll(b, front);
    AppendAll(b, back);
    EncodeBoth(front, back);
    var all := front + back;
    values := ReadBack(b, all, seq(|all|, i requires 0 <= i < |all| => all[i].1), []);
  }

  lemma {:induction false} EncodeBoth(xs: seq<(int, nat)>, ys: seq<(int, nat)>)
    requires Integers(xs) && Integers(ys)
    ensures Integers(xs + ys) && EncodeAll(xs + ys) == EncodeAll(xs) + EncodeAll(ys)
    decreases |xs|
  {
    if xs == [] {
      assert xs + ys == ys;
    } else {
      assert (xs + ys)[1..] == xs[1..] + ys;
      EncodeBoth(xs[1..], ys);
    }
  }
}
