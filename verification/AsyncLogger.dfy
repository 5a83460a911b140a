/** AsyncLogging as the source writes it: pointers to buffer objects moved between owners in place. */
module Ownership {

  /** Addresses of FixedBuffer objects; 0 is the null pointer. */
  type Addr = nat
  const NULL: Addr := 0

  /** Every pointer the log and its writer thread hold. */
  datatype Slots = Slots(current: Addr, next: Addr, buffers: seq<Addr>, spare1: Addr, spare2: Addr, toWrite: seq<Addr>)

  /** The one place that owns a buffer object. */
  datatype Role = Current | NextUp | Spare1 | Spare2 | Queued(i: nat) | ToWrite(i: nat)

  type Roles = map<Addr, Role>

  ghost predicate Holds(role: Roles, b: Addr, r: Role) {
    b != NULL ==> b in role && role[b] == r
  }

  /** Exclusive ownership: each pointer is the one its object's role names, and every object has a holder. */
  ghost predicate Owns(s: Slots, role: Roles) {
    && NULL !in role && s.current != NULL && NULL !in s.buffers && NULL !in s.toWrite
    && Holds(role, s.current, Current)
    && Holds(role, s.next, NextUp)
    && Holds(role, s.spare1, Spare1)
    && Holds(role, s.spare2, Spare2)
    && (forall i :: 0 <= i < |s.buffers| ==> Holds(role, s.buffers[i], Queued(i)))
    && (forall i :: 0 <= i < |s.toWrite| ==> Holds(role, s.toWrite[i], ToWrite(i)))
    && (forall b :: b in role ==> HeldAt(s, b, role[b]))
  }

  ghost predicate HeldAt(s: Slots, b: Addr, r: Role) {
    match r
    case Current => s.current == b
    case NextUp => s.next == b
    case Spare1 => s.spare1 == b
    case Spare2 => s.spare2 == b
    case Queued(i) => i < |s.buffers| && s.buffers[i] == b
    case ToWrite(i) => i < |s.toWrite| && s.toWrite[i] == b
  }

  function Rotated(s: Slots, empty: Addr): Slots {
    s.(buffers := s.buffers + [s.current], current := empty, next := NULL)
  }

  lemma RotateOwns(s: Slots, role: Roles, empty: Addr) returns (r: Roles)
    requires Owns(s, role) && empty != NULL && (empty == s.next || (s.next == NULL && empty !in role))
    ensures Owns(Rotated(s, empty), r) && r.Keys == role.Keys + {empty}
  {
    r := role[s.current := Queued(|s.buffers|)][empty := Current];
  }

  function Swapped(s: Slots): Slots {
    s.(current := s.spare1, spare1 := NULL, buffers := s.toWrite, toWrite := s.buffers + [s.current],
       next := if s.next == NULL then s.spare2 else s.next, spare2 := if s.next == NULL then NULL else s.spare2)
  }

  lemma SwapOwns(s: Slots, role: Roles) returns (r: Roles)
    requires Owns(s, role) && s.spare1 != NULL
    ensures Owns(Swapped(s), r) && r.Keys == role.Keys
  {
    r := map b | b in role ::
      match role[b]
      case Current => ToWrite(|s.buffers|)
      case Spare1 => Current
      case Spare2 => if s.next == NULL then NextUp else Spare2
      case Queued(i) => ToWrite(i)
      case ToWrite(i) => Queued(i)
      case NextUp => NextUp;
  }

  function Trimmed(s: Slots): Slots
    requires |s.toWrite| >= 2
  {
    s.(toWrite := s.toWrite[..2])
  }

  lemma TrimOwns(s: Slots, role: Roles) returns (r: Roles)
    requires Owns(s, role) && |s.toWrite| >= 2
    ensures Owns(Trimmed(s), r) && r.Keys == role.Keys - set b | b in s.toWrite[2..]
  {
    r := map b | b in role && !(role[b].ToWrite? && role[b].i >= 2) :: role[b];
    forall b | b in role ensures b in r <==> b !in s.toWrite[2..] {
      if b !in r {
        assert s.toWrite[2..][role[b].i - 2] == b;
      }
    }
  }

  /** How many spares the writer has to take back. */
  function Needed(s: Slots): nat {
    (if s.spare1 == NULL then 1 else 0) + (if s.spare2 == NULL then 1 else 0)
  }

  /** `resize(2)`, the two hand-backs from the back, and `clear`. */
  function Recycled(s: Slots): Slots
    requires Needed(s) <= |s.toWrite|
  {
    var kept := if |s.toWrite| > 2 then s.toWrite[..2] else s.toWrite;
    var rest := if s.spare1 == NULL then kept[..|kept| - 1] else kept;
    s.(spare1 := if s.spare1 == NULL then kept[|kept| - 1] else s.spare1,
       spare2 := if s.spare2 == NULL then rest[|rest| - 1] else s.spare2,
       toWrite := [])
  }

  lemma RecycleOwns(s: Slots, role: Roles) returns (r: Roles)
    requires Owns(s, role)
    requires Needed(s) <= |s.toWrite|
    ensures var t := Recycled(s);
      Owns(t, r) && r.Keys == role.Keys - set b | b in s.toWrite && b != t.spare1 && b != t.spare2
  {
    var t := Recycled(s);
    r := map b | b in role && (!role[b].ToWrite? || b == t.spare1 || b == t.spare2) ::
      if b == t.spare1 then Spare1 else if b == t.spare2 then Spare2 else role[b];
  }

  /** Current, next, queued, to-write and spare buffers are pairwise distinct objects. */
  lemma PairwiseDistinct(s: Slots, role: Roles)
    requires Owns(s, role)
    ensures s.current != s.next && s.current != s.spare1 && s.current != s.spare2
    ensures s.next != NULL ==> s.next != s.spare1 && s.next != s.spare2
    ensures s.spare1 != NULL ==> s.spare1 != s.spare2
    ensures forall b :: b in s.buffers ==> b !in s.toWrite && b !in {s.current, s.next, s.spare1, s.spare2}
    ensures forall b :: b in s.toWrite ==> b !in {s.current, s.next, s.spare1, s.spare2}
    ensures forall i, j :: 0 <= i < j < |s.buffers| ==> s.buffers[i] != s.buffers[j]
    ensures forall i, j :: 0 <= i < j < |s.toWrite| ==> s.toWrite[i] != s.toWrite[j]
  {
  }
}

module AsyncLogs {
  import opened Bytes
  import opened LogBuffers
  import opened LogFiles
  import opened Ownership
  import P = LogProtocol

  /** The FixedBuffer objects that exist, each seen as the lines appended since its last reset. */
  type Heap = map<Addr, P.Lines>

  ghost function ContentsOf(heap: Heap, bs: seq<Addr>): (r: seq<P.Lines>)
    requires forall b :: b in bs ==> b in heap
    ensures |r| == |bs|
    ensures forall i :: 0 <= i < |bs| ==> r[i] == heap[bs[i]]
  {
    seq(|bs|, i requires 0 <= i < |bs| => heap[bs[i]])
  }

  ghost function ContentOf(heap: Heap, b: Addr): Option<P.Lines>
    requires b != NULL ==> b in heap
  {
    if b == NULL then None else Some(heap[b])
  }

  /** The protocol state seen through the pointers. */
  ghost function View(rest: P.State, s: Slots, heap: Heap): P.State
    requires AllIn(s, heap)
  {
    rest.(current := heap[s.current], next := ContentOf(heap, s.next), buffers := ContentsOf(heap, s.buffers),
          spare1 := ContentOf(heap, s.spare1), spare2 := ContentOf(heap, s.spare2),
          toWrite := ContentsOf(heap, s.toWrite))
  }

  ghost predicate AllIn(s: Slots, heap: Heap) {
    && s.current in heap
    && (forall b :: b in {s.next, s.spare1, s.spare2} && b != NULL ==> b in heap)
    && (forall b :: b in s.buffers ==> b in heap)
    && (forall b :: b in s.toWrite ==> b in heap)
  }

  lemma OwnedIsAllIn(s: Slots, role: Roles, heap: Heap)
    requires Owns(s, role) && role.Keys == heap.Keys
    ensures AllIn(s, heap)
  {
  }

  lemma RotateView(rest: P.State, s: Slots, role: Roles, heap: Heap, empty: Addr, h: Heap) returns (r: Roles)
    requires Owns(s, role) && role.Keys == heap.Keys && empty != NULL
    requires if s.next == NULL then empty !in heap && h == heap[empty := []] else empty == s.next && h == heap
    ensures AllIn(s, heap) && AllIn(Rotated(s, empty), h)
    ensures Owns(Rotated(s, empty), r) && r.Keys == h.Keys
    ensures View(rest, Rotated(s, empty), h) == P.RotateStep(View(rest, s, heap))
  {
    r := RotateOwns(s, role, empty);
    assert ContentsOf(h, s.buffers + [s.current]) == ContentsOf(heap, s.buffers) + [heap[s.current]];
    assert ContentsOf(h, s.toWrite) == ContentsOf(heap, s.toWrite);
  }

  lemma SwapView(rest: P.State, s: Slots, role: Roles, heap: Heap) returns (r: Roles)
    requires Owns(s, role) && role.Keys == heap.Keys && s.spare1 != NULL
    ensures AllIn(s, heap) && AllIn(Swapped(s), heap)
    ensures Owns(Swapped(s), r) && r.Keys == heap.Keys
    ensures View(rest.(pc := P.Swapped, batch := |s.buffers| + 1, closers := [], batchClosers := rest.closers), Swapped(s), heap) == P.SwapStep(View(rest, s, heap))
  {
    r := SwapOwns(s, role);
    assert ContentsOf(heap, s.buffers + [s.current]) == ContentsOf(heap, s.buffers) + [heap[s.current]];
  }

  /** Erasing the tail of the batch frees exactly the objects in it. */
  lemma EraseView(rest: P.State, s: Slots, role: Roles, heap: Heap) returns (r: Roles)
    requires Owns(s, role) && role.Keys == heap.Keys && |s.toWrite| >= 2
    ensures var h := heap - set b | b in s.toWrite[2..];
      && AllIn(s, heap) && AllIn(Trimmed(s), h)
      && Owns(Trimmed(s), r) && r.Keys == h.Keys
      && var v := View(rest, s, heap);
         View(rest.(doomed := v.toWrite[2..]), Trimmed(s), h) == v.(toWrite := v.toWrite[..2], doomed := v.toWrite[2..])
  {
    r := TrimOwns(s, role);
    var h := heap - set b | b in s.toWrite[2..];
    assert ContentsOf(h, s.buffers) == ContentsOf(heap, s.buffers);
    assert ContentsOf(h, s.toWrite[..2]) == ContentsOf(heap, s.toWrite)[..2];
  }

  /** The heap once the spares are reset and the rest of the batch is freed. */
  ghost function Reclaimed(s: Slots, heap: Heap): Heap
    requires Needed(s) <= |s.toWrite|
  {
    var t := Recycled(s);
    var h1 := if s.spare1 == NULL then heap[t.spare1 := []] else heap;
    var h2 := if s.spare2 == NULL then h1[t.spare2 := []] else h1;
    h2 - ((set b | b in s.toWrite) - {t.spare1, t.spare2})
  }

  lemma HandBackOwns(s: Slots, role: Roles, heap: Heap) returns (r: Roles)
    requires Owns(s, role) && role.Keys == heap.Keys && Needed(s) <= |s.toWrite|
    ensures Owns(Recycled(s), r) && r.Keys == Reclaimed(s, heap).Keys
    ensures AllIn(s, heap) && AllIn(Recycled(s), Reclaimed(s, heap))
  {
    r := RecycleOwns(s, role);
    OwnedIsAllIn(Recycled(s), r, Reclaimed(s, heap));
  }

  lemma HandBackView(rest: P.State, s: Slots, role: Roles, heap: Heap)
    requires Owns(s, role) && AllIn(s, heap) && Needed(s) <= |s.toWrite| && AllIn(Recycled(s), Reclaimed(s, heap))
    ensures View(rest, Recycled(s), Reclaimed(s, heap)) == P.HandBackStep(View(rest, s, heap))
  {
    PairwiseDistinct(s, role);
    assert ContentsOf(Reclaimed(s, heap), s.buffers) == ContentsOf(heap, s.buffers);
  }

  /** What the log does to a line list is what `FixedBuffer::append` does to the buffer object: the line
      goes in whole, after the others, exactly when the protocol says that it fits. */
  method AppendToObject(b: FixedBuffer, line: P.Line)
    requires b.Valid() && b.data.Length == LARGE_BUFFER && |line| <= INT_MAX
    modifies b, b.data
    ensures b.Valid() && b.pieces == P.Put(old(b.pieces), line)
    ensures b.data[..b.cur] == Flatten(P.Put(old(b.pieces), line))
  {
    assert |Flatten(b.pieces)| == b.cur;
    GuardProtectsIff(b.Avail(), |line|);
    b.Append(line);
  }

  /** What the writer's critical section does to the pointers: the queue and the current buffer are taken,
      and the spares go where buffers are missing. */
  ghost predicate TookOver(s: Slots, t: Slots) {
    && t.toWrite == s.buffers + [s.current] && t.buffers == s.toWrite
    && t.current == s.spare1 && t.spare1 == NULL
    && (s.next == NULL ==> t.next == s.spare2 && t.spare2 == NULL)
    && (s.next != NULL ==> t.next == s.next && t.spare2 == s.spare2)
  }

  /** What `append` of a buffer does to the lines it holds. */
  function With(b: P.Lines, line: P.Line): P.Lines {
    if |Flatten(b)| + |line| < 4_000_000 then b + [line] else b
  }

  /** These writes finish a buffer of any size in at most one retry. */
  predicate AnyOneRetry(first: nat, retries: seq<nat>) {
    first >= LARGE_BUFFER || (retries != [] && retries[0] >= LARGE_BUFFER)
  }

  class AsyncLogging {
    var running: bool
    var currentBuffer: Addr
    var nextBuffer: Addr
    var buffers: seq<Addr>
    // threadFunc's locals
    var pc: P.WriterPc
    var newBuffer1: Addr
    var newBuffer2: Addr
    var buffersToWrite: seq<Addr>
    var index: nat
    const output: LogFile
    // the objects, who owns each, and what LogProtocol remembers
    var heap: Heap
    ghost var role: Roles
    ghost var history: P.State   // only its non-pointer parts matter
    ghost var whole: bool        // no buffer so far needed more than one retry

    ghost function Pointers(): Slots
      reads this
    {
      Slots(currentBuffer, nextBuffer, buffers, newBuffer1, newBuffer2, buffersToWrite)
    }

    /** Every live object has exactly one owner, so nothing is shared and nothing leaks. */
    ghost predicate Owned()
      reads this
    {
      Owns(Pointers(), role) && role.Keys == heap.Keys
    }

    ghost predicate Valid()
      reads this, output
    {
      && Owned() && history.running == running && history.pc == pc && history.index == index
      && output.Valid() && (whole ==> output.bytes == Flatten(history.file))
    }

    ghost function Model(): P.State
      requires Owned()
      reads this
    {
      OwnedIsAllIn(Pointers(), role, heap);
      View(history, Pointers(), heap)
    }

    /** The constructor, then threadFunc up to its loop. */
    constructor ()
      ensures Valid() && fresh(output) && whole
      ensures Model() == P.Init
    {
      running := true;
      currentBuffer, nextBuffer, buffers := 1, 2, [];
      pc, newBuffer1, newBuffer2, buffersToWrite, index := P.Head, 3, 4, [], 0;
      heap := map[1 := [], 2 := [], 3 := [], 4 := []];
      output := new LogFile();
      role := map[1 := Current, 2 := NextUp, 3 := Spare1, 4 := Spare2];
      history, whole := P.Init, true;
    }

    /** The else branch of `append`: `addr` is the address that `new Buffer` would return. */
    method Rotate(addr: Addr)
      requires Owned() && addr != NULL && addr !in heap
      modifies this`buffers, this`currentBuffer, this`nextBuffer, this`heap, this`role
      ensures Owned()
      ensures Model() == P.RotateStep(old(Model()))
      ensures buffers == old(buffers) + [old(currentBuffer)] && nextBuffer == NULL
      ensures if old(nextBuffer) != NULL then currentBuffer == old(nextBuffer) && heap == old(heap)
              else currentBuffer == addr && heap == old(heap)[addr := []]
    {
      var empty := nextBuffer;
      var h := heap;
      if empty == NULL {
        empty, h := addr, heap[addr := []];
      }
      ghost var target := Rotated(Pointers(), empty);
      ghost var r := RotateView(history, Pointers(), role, heap, empty, h);
      heap, role, buffers, currentBuffer, nextBuffer := h, r, buffers + [currentBuffer], empty, NULL;
      assert Pointers() == target;
    }

    method Append(line: P.Line, addr: Addr)
      requires Valid() && addr != NULL && addr !in heap
      modifies this
      ensures Valid() && whole == old(whole)
      ensures Model() == P.AppendStep(old(Model()), line)
      ensures currentBuffer in heap && old(currentBuffer) in old(heap) && (old(nextBuffer) != NULL ==> old(nextBuffer) in old(heap))
      ensures var full := |Flatten(old(heap[currentBuffer]))| + |line| >= 4_000_000;
        && (!full ==>
          && buffers == old(buffers) && nextBuffer == old(nextBuffer) && currentBuffer == old(currentBuffer)
          && heap == old(heap)[currentBuffer := old(heap[currentBuffer]) + [line]])
        && (full ==>
          && buffers == old(buffers) + [old(currentBuffer)] && nextBuffer == NULL
          && (old(nextBuffer) != NULL ==>
            currentBuffer == old(nextBuffer) && heap == old(heap)[currentBuffer := With(old(heap[nextBuffer]), line)])
          && (old(nextBuffer) == NULL ==> currentBuffer == addr && heap == old(heap)[addr := With([], line)]))
    {
      hide Owns;
      OwnedIsAllIn(Pointers(), role, heap);
      if P.Fits(heap[currentBuffer], line) {
        history := history.(appended := history.appended + [line]);
        PutLine(line);
      } else {
        AppendToNext(line, addr);
      }
    }

    /** The else branch of `append`, to its end. */
    method AppendToNext(line: P.Line, addr: Addr)
      requires Owned() && addr != NULL && addr !in heap && currentBuffer in heap && !P.Fits(heap[currentBuffer], line)
      modifies this`buffers, this`currentBuffer, this`nextBuffer, this`heap, this`role, this`history
      ensures Owned() && Model() == P.AppendStep(old(Model()), line)
      ensures history == old(history).(appended := history.appended, closers := history.closers)
      ensures old(nextBuffer) != NULL ==> old(nextBuffer) in old(heap)
      ensures buffers == old(buffers) + [old(currentBuffer)] && nextBuffer == NULL
      ensures old(nextBuffer) != NULL ==>
        currentBuffer == old(nextBuffer) && heap == old(heap)[currentBuffer := With(old(heap[nextBuffer]), line)]
      ensures old(nextBuffer) == NULL ==> currentBuffer == addr && heap == old(heap)[addr := With([], line)]
    {
      hide Owns, P.Put;
      OwnedIsAllIn(Pointers(), role, heap);
      history := history.(appended := history.appended + [line], closers := history.closers + [line]);
      Rotate(addr);
      PutLine(line);
    }

    /** `FixedBuffer::append` on the current buffer, in place. */
    method PutLine(line: P.Line)
      requires Owned()
      modifies this`heap
      ensures Owned()
      ensures Model() == old(Model()).(current := P.Put(old(Model()).current, line))
      ensures currentBuffer in old(heap) && heap == old(heap)[currentBuffer := With(old(heap[currentBuffer]), line)]
    {
      PairwiseDistinct(Pointers(), role);
      heap := heap[currentBuffer := P.Put(heap[currentBuffer], line)];
    }

    method Stop()
      requires Valid()
      modifies this`running, this`history
      ensures Valid() && Model() == old(Model()).(running := false)
    {
      running := false;
      history := history.(running := false);
    }

    /** Loop head, then the start of the critical section. */
    method WriterEnter()
      requires Valid() && P.Spares(Model()) && pc == P.Head
      modifies this, output
      ensures Valid() && whole == old(whole) && Model() == P.EnterStep(old(Model()))
      ensures !old(running) ==> pc == P.Done && Pointers() == old(Pointers()) && output.flushed == |output.bytes|
      ensures old(running) && old(buffers) == [] ==> pc == P.Waiting && Pointers() == old(Pointers())
      ensures old(running) && old(buffers) != [] ==> pc == P.Swapped && TookOver(old(Pointers()), Pointers())
      ensures heap == old(heap) && running == old(running) && output.bytes == old(output.bytes)
    {
      hide Owns, P.SwapStep;
      OwnedIsAllIn(Pointers(), role, heap);
      if !running {
        pc := P.Done;
        history := history.(pc := P.Done);
        output.Flush();
        return;
      }
      assert newBuffer1 != NULL && heap[newBuffer1] == [] by { assert ContentOf(heap, newBuffer1) == Some([]); }
      assert newBuffer2 != NULL && heap[newBuffer2] == [] by { assert ContentOf(heap, newBuffer2) == Some([]); }
      assert buffersToWrite == [];
      if buffers == [] {
        pc := P.Waiting;
        history := history.(pc := P.Waiting);
      } else {
        Swap();
      }
    }

    /** `wait_for` returns: notified, timed out or spuriously. */
    method WriterWake()
      requires Valid() && P.Spares(Model()) && pc == P.Waiting
      modifies this
      ensures Valid() && whole == old(whole) && Model() == P.SwapStep(old(Model()))
      ensures pc == P.Swapped && TookOver(old(Pointers()), Pointers()) && heap == old(heap) && running == old(running)
    {
      hide Owns, P.SwapStep;
      OwnedIsAllIn(Pointers(), role, heap);
      assert newBuffer1 != NULL by { assert ContentOf(heap, newBuffer1) == Some([]); }
      Swap();
    }

    method Swap()
      requires Owned() && newBuffer1 != NULL
      modifies this`currentBuffer, this`nextBuffer, this`buffers, this`newBuffer1, this`newBuffer2,
        this`buffersToWrite, this`pc, this`history, this`role
      ensures Owned() && Model() == P.SwapStep(old(Model()))
      ensures pc == P.Swapped && TookOver(old(Pointers()), Pointers())
      ensures history == old(history).(pc := P.Swapped, batch := history.batch, closers := [], batchClosers := old(history).closers)
    {
      ghost var r := SwapView(history, Pointers(), role, heap);
      ghost var target := Swapped(Pointers());
      role := r;
      history := history.(pc := P.Swapped, batch := |buffers| + 1, closers := [], batchClosers := history.closers);
      pc := P.Swapped;
      SwapPointers();
      assert Pointers() == target;
    }

    method SwapPointers()
      modifies this`currentBuffer, this`nextBuffer, this`buffers, this`newBuffer1, this`newBuffer2, this`buffersToWrite
      ensures Pointers() == Swapped(old(Pointers())) && TookOver(old(Pointers()), Pointers())
    {
      buffers := buffers + [currentBuffer];
      currentBuffer, newBuffer1 := newBuffer1, NULL;
      buffersToWrite, buffers := buffers, buffersToWrite;
      if nextBuffer == NULL {
        nextBuffer, newBuffer2 := newBuffer2, NULL;
      }
    }

    /** The overload branch frees everything after the first two buffers. */
    method Trim()
      requires Valid() && P.Spares(Model()) && pc == P.Swapped
      modifies this
      ensures Valid() && whole == old(whole) && Model() == P.TrimStep(old(Model()))
      ensures pc == P.Writing && index == 0
      ensures |old(buffersToWrite)| > 25 ==> buffersToWrite == old(buffersToWrite)[..2]
      ensures |old(buffersToWrite)| <= 25 ==> buffersToWrite == old(buffersToWrite) && heap == old(heap)
      ensures forall b :: b in old(heap) ==> b in heap || b in old(buffersToWrite)
    {
      hide Owns;
      assert buffersToWrite != [];
      if |buffersToWrite| > P.BATCH_LIMIT {
        Erase();
      }
      BeginWriting();
    }

    method BeginWriting()
      requires Owned()
      modifies this`pc, this`index, this`history
      ensures Owned() && pc == P.Writing && index == 0 && history == old(history).(pc := P.Writing, index := 0)
      ensures Model() == old(Model()).(pc := P.Writing, index := 0)
    {
      pc, index := P.Writing, 0;
      history := history.(pc := P.Writing, index := 0);
    }

    method Erase()
      requires Owned() && |buffersToWrite| > 2
      modifies this`buffersToWrite, this`heap, this`role, this`history
      ensures Owned()
      ensures var s := old(Model()); Model() == s.(toWrite := s.toWrite[..2], doomed := s.toWrite[2..])
      ensures history == old(history).(doomed := history.doomed)
      ensures buffersToWrite == old(buffersToWrite)[..2]
      ensures heap == old(heap) - set b | b in old(buffersToWrite)[2..]
    {
      ghost var r := EraseView(history, Pointers(), role, heap);
      ghost var target := Trimmed(Pointers());
      role, history := r, history.(doomed := Model().toWrite[2..]);
      heap, buffersToWrite := heap - (set b | b in buffersToWrite[2..]), buffersToWrite[..2];
      assert Pointers() == target;
    }

    /** One turn of the write loop, whatever `fwrite` does; `whole` records whether every buffer was
        written with at most one retry, which is when the file shows it intact. */
    method WriteOne(first: nat, retries: seq<nat>)
      requires Valid() && pc == P.Writing && index < |buffersToWrite|
      requires first <= |Flatten(heap[buffersToWrite[index]])|
      modifies this, output
      ensures Valid() && Model() == P.WriteStep(old(Model()))
      ensures var bytes := Flatten(old(heap[buffersToWrite[index]]));
        && output.bytes == old(output.bytes) + Sent(bytes, first, retries)
        && whole == (old(whole) && OneRetryAtMost(|bytes|, first, retries))
      ensures index == old(index) + 1
    {
      hide Owns, P.WriteStep;
      OwnedIsAllIn(Pointers(), role, heap);
      var lines := heap[buffersToWrite[index]];
      whole := whole && OneRetryAtMost(|Flatten(lines)|, first, retries);
      if whole {
        WholeWithOneRetry(Flatten(lines), first, retries);
      }
      FlattenConcat(history.file, lines);
      output.Append(Flatten(lines), first, retries);
      RecordWrite(lines);
    }

    method RecordWrite(lines: P.Lines)
      requires Owned() && index < |buffersToWrite| && heap[buffersToWrite[index]] == lines && history.index == index
      modifies this`history, this`index
      ensures Owned() && Model() == P.WriteStep(old(Model()))
      ensures index == old(index) + 1 && history.index == index && history.file == old(history).file + lines
      ensures history.running == old(history).running && history.pc == old(history).pc
    {
      history := history.(file := history.file + lines, index := index + 1,
                          retired := history.retired + [P.Retired(lines, false, index, history.batch)]);
      index := index + 1;
    }

    /** Everything after the write loop: spares are taken back, the rest is freed, the file flushed. */
    method Recycle()
      requires Valid() && P.Spares(Model()) && pc == P.Writing && index >= |buffersToWrite|
      modifies this, output
      ensures Valid() && whole == old(whole) && Model() == P.RecycleStep(old(Model()))
      ensures output.flushed == |output.bytes| && output.bytes == old(output.bytes)
      ensures pc == P.Head && buffersToWrite == [] && newBuffer1 != NULL && newBuffer2 != NULL
    {
      hide Owns, P.HandBackStep, P.ForgetStep;
      assert Needed(Pointers()) <= |buffersToWrite| by { assert |Model().toWrite| == |buffersToWrite|; }
      HandBack();
      ForgetBatch();
      output.Flush();
    }

    method ForgetBatch()
      requires Owned()
      modifies this`index, this`pc, this`history
      ensures Owned() && pc == P.Head && index == 0 && history.pc == P.Head && history.index == 0
      ensures history.running == old(history).running && history.file == old(history).file
      ensures Model() == P.ForgetStep(old(Model()))
    {
      history := history.(retired := history.retired + P.Lost(history.doomed, history.batch),
                          doomed := [], batchClosers := [], index := 0, pc := P.Head);
      index, pc := 0, P.Head;
    }

    /** `resize(2)`, the two asserts with the hand-backs they guard, and `clear`. */
    method HandBack()
      requires Owned() && Needed(Pointers()) <= |buffersToWrite|
      modifies this`newBuffer1, this`newBuffer2, this`buffersToWrite, this`heap, this`role
      ensures Owned()
      ensures Model() == P.HandBackStep(old(Model()))
      ensures buffersToWrite == [] && newBuffer1 != NULL && newBuffer2 != NULL
    {
      ghost var r := HandBackOwns(Pointers(), role, heap);
      HandBackView(history, Pointers(), role, heap);
      role := r;
      TakeSpares();
    }

    method TakeSpares()
      requires Needed(Pointers()) <= |buffersToWrite|
      modifies this`newBuffer1, this`newBuffer2, this`buffersToWrite, this`heap
      ensures Pointers() == Recycled(old(Pointers())) && heap == Reclaimed(old(Pointers()), old(heap))
    {
      var all := set b | b in buffersToWrite;
      var batchLeft, spare1, spare2, h := buffersToWrite, newBuffer1, newBuffer2, heap;
      if |batchLeft| > 2 {
        batchLeft := batchLeft[..2];
      }
      if spare1 == NULL {
        assert batchLeft != [];
        spare1, batchLeft := batchLeft[|batchLeft| - 1], batchLeft[..|batchLeft| - 1];
        h := h[spare1 := []];
      }
      if spare2 == NULL {
        assert batchLeft != [];
        spare2, batchLeft := batchLeft[|batchLeft| - 1], batchLeft[..|batchLeft| - 1];
        h := h[spare2 := []];
      }
      newBuffer1, newBuffer2, buffersToWrite, heap := spare1, spare2, [], h - (all - {spare1, spare2});
    }

    /** An address that `new Buffer` may return. */
    method Allocate() returns (addr: Addr)
      ensures addr != NULL && addr !in heap
    {
      addr := 1;
      var left := heap.Keys;
      while addr in left
        invariant addr >= 1 && forall b :: b in heap && b >= addr ==> b in left
        decreases left
      {
        left := left - {addr};
        addr := addr + 1;
      }
    }

    /** One event of a run, done by the method it stands for, if it is possible now; a write gets what
        `fwrite` does with it. */
    method Step(e: P.Event, first: nat, retries: seq<nat>)
      requires Valid() && P.Inv(Model())
      modifies this, output
      ensures Valid() && Model() == P.Next(old(Model()), e)
      ensures old(whole) && (e.WriteOne? ==> AnyOneRetry(first, retries)) ==> whole
    {
      hide P.Conserved, P.AppendStep, P.EnterStep, P.SwapStep, P.TrimStep, P.WriteStep, P.RecycleStep;
      match e {
        case Append(line) =>
          var addr := Allocate();
          Append(line, addr);
        case Stop => Stop();
        case WriterEnter =>
          if pc == P.Head {
            WriterEnter();
          }
        case WriterWake =>
          if pc == P.Waiting {
            WriterWake();
          }
        case Trim =>
          if pc == P.Swapped {
            Trim();
          }
        case WriteOne =>
          if pc == P.Writing && index < |buffersToWrite| {
            var size := |Flatten(heap[buffersToWrite[index]])|;
            assert Model().toWrite[index] in Model().toWrite;
            WriteOne(Min(first, size), retries);
          }
        case Recycle =>
          if pc == P.Writing && index >= |buffersToWrite| {
            Recycle();
          }
      }
    }

    /** Any run of the object is a run of the protocol, so the theorems about runs hold of its pointers,
        and of the bytes in its file as long as no buffer needed a second retry. `writes[k]` is what
        `fwrite` does during event k. */
    method Drive(es: seq<P.Event>, writes: seq<(nat, seq<nat>)>)
      requires Valid() && whole && Model() == P.Init && |writes| == |es|
      modifies this, output
      ensures Valid() && Model() == P.Run(es)
      ensures whole ==> output.bytes == Flatten(P.Run(es).file)
      ensures (forall k :: 0 <= k < |es| && es[k].WriteOne? ==> AnyOneRetry(writes[k].0, writes[k].1)) ==> whole
    {
      P.RunKeepsInv([]);
      for k := 0 to |es|
        invariant Valid() && Model() == P.Run(es[..k])
        invariant (forall j :: 0 <= j < k && es[j].WriteOne? ==> AnyOneRetry(writes[j].0, writes[j].1)) ==> whole
      {
        P.RunKeepsInv(es[..k]);
        Step(es[k], writes[k].0, writes[k].1);
        assert es[..k + 1][..k] == es[..k];
      }
      assert es[..|es|] == es;
    }
  }
}
