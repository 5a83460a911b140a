/** A channel's interest mask and the kernel's epoll set (Channel.h, EPoller.cc). */
module Masks {

  const NONE_EVENT: bv32 := 0
  const READ_EVENT: bv32 := 0x001 | 0x002   // EPOLLIN | EPOLLPRI
  const WRITE_EVENT: bv32 := 0x004          // EPOLLOUT

  predicate Reads(events: bv32) { events & READ_EVENT != 0 }

  predicate Writes(events: bv32) { events & WRITE_EVENT != 0 }

  lemma SetReading(events: bv32)
    ensures Reads(events | READ_EVENT) && Writes(events | READ_EVENT) == Writes(events)
  {
    assert (events | READ_EVENT) & READ_EVENT == READ_EVENT;
    assert (events | READ_EVENT) & WRITE_EVENT == events & WRITE_EVENT;
  }

  lemma ClearReading(events: bv32)
    ensures !Reads(events & !READ_EVENT) && Writes(events & !READ_EVENT) == Writes(events)
  {
    assert (events & !READ_EVENT) & READ_EVENT == 0;
    assert (events & !READ_EVENT) & WRITE_EVENT == events & WRITE_EVENT;
  }

  lemma SetWriting(events: bv32)
    ensures Writes(events | WRITE_EVENT) && Reads(events | WRITE_EVENT) == Reads(events)
  {
    assert (events | WRITE_EVENT) & WRITE_EVENT == WRITE_EVENT;
    assert (events | WRITE_EVENT) & READ_EVENT == events & READ_EVENT;
  }

  /** EPOLLIN, EPOLLPRI and EPOLLOUT have the values 1, 2 and 4. */
  lemma EventBits()
    ensures NONE_EVENT == 0 && READ_EVENT == 3 && WRITE_EVENT == 4
  {
  }

  lemma WantedIsNotNone(events: bv32)
    ensures Reads(events) || Writes(events) ==> events != NONE_EVENT
  {
  }

  lemma ClearWriting(events: bv32)
    ensures !Writes(events & !WRITE_EVENT) && Reads(events & !WRITE_EVENT) == Reads(events)
  {
    assert (events & !WRITE_EVENT) & WRITE_EVENT == 0;
    assert (events & !WRITE_EVENT) & READ_EVENT == events & READ_EVENT;
  }
}

module Interest {

  import opened Masks

  datatype CtlOp = Add | Mod | Del

  type Fd = nat

  /** What the kernel watches. */
  type Set = map<Fd, bv32>

  /** When `epoll_ctl` succeeds: ADD only for an absent descriptor, MOD and DEL only for a present one. */
  predicate Legal(kernel: Set, op: CtlOp, fd: Fd) {
    op.Add? <==> fd !in kernel
  }

  function Ctl(kernel: Set, op: CtlOp, fd: Fd, mask: bv32): Set {
    if op.Del? then kernel - {fd} else kernel[fd := mask]
  }

  datatype View = View(events: bv32, pooling: bool)

  datatype Call = EnableReading | DisableReading | EnableWriting | DisableWriting | DisableAll

  function NewMask(events: bv32, call: Call): bv32 {
    match call
    case EnableReading => events | READ_EVENT
    case DisableReading => events & !READ_EVENT
    case EnableWriting => events | WRITE_EVENT
    case DisableWriting => events & !WRITE_EVENT
    case DisableAll => NONE_EVENT
  }

  lemma ReadBits(events: bv32, call: Call)
    ensures Reads(NewMask(events, call)) <==> call.EnableReading? || (Reads(events) && call != DisableReading && call != DisableAll)
  {
    match call
    case EnableReading => SetReading(events);
    case DisableReading => ClearReading(events);
    case EnableWriting => SetWriting(events);
    case DisableWriting => ClearWriting(events);
    case DisableAll =>
  }

  lemma WriteBits(events: bv32, call: Call)
    ensures Writes(NewMask(events, call)) <==> call.EnableWriting? || (Writes(events) && call != DisableWriting && call != DisableAll)
  {
    match call
    case EnableReading => SetReading(events);
    case DisableReading => ClearReading(events);
    case EnableWriting => SetWriting(events);
    case DisableWriting => ClearWriting(events);
    case DisableAll =>
  }

  /** Each call sets or clears its own bits and leaves the other interest alone. */
  lemma MaskBits(events: bv32, call: Call)
    ensures Reads(NewMask(events, call)) <==> call.EnableReading? || (Reads(events) && call != DisableReading && call != DisableAll)
    ensures Writes(NewMask(events, call)) <==> call.EnableWriting? || (Writes(events) && call != DisableWriting && call != DisableAll)
  {
    ReadBits(events, call);
    WriteBits(events, call);
  }

  /** The choice in `EPoller::updateChannel`. */
  function Choose(c: View): CtlOp {
    if !c.pooling then Add else if c.events != NONE_EVENT then Mod else Del
  }

  function AfterCall(c: View, call: Call): View {
    var d := c.(events := NewMask(c.events, call));
    d.(pooling := !Choose(d).Del?)
  }

  function KernelAfterCall(kernel: Set, fd: Fd, c: View, call: Call): Set {
    var d := c.(events := NewMask(c.events, call));
    Ctl(kernel, Choose(d), fd, d.events)
  }

  /** The kernel set refines the channel: registered exactly when `pooling_`, with exactly its mask. */
  predicate Agrees(kernel: Set, fd: Fd, c: View) {
    && (c.pooling <==> fd in kernel)
    && (c.pooling ==> kernel[fd] == c.events)
    && (!c.pooling ==> c.events == NONE_EVENT)
  }

  /** One call: the operation is legal, the refinement is kept, other descriptors are not touched. */
  lemma CallKeepsAgreement(kernel: Set, fd: Fd, c: View, call: Call)
    requires Agrees(kernel, fd, c)
    ensures Legal(kernel, Choose(c.(events := NewMask(c.events, call))), fd)
    ensures Agrees(KernelAfterCall(kernel, fd, c, call), fd, AfterCall(c, call))
    ensures KernelAfterCall(kernel, fd, c, call) - {fd} == kernel - {fd}
  {
  }

  function AfterCalls(c: View, calls: seq<Call>): View {
    if calls == [] then c else AfterCall(AfterCalls(c, calls[..|calls| - 1]), calls[|calls| - 1])
  }

  function KernelAfterCalls(kernel: Set, fd: Fd, c: View, calls: seq<Call>): Set {
    if calls == [] then kernel
    else
      var front := calls[..|calls| - 1];
      KernelAfterCall(KernelAfterCalls(kernel, fd, c, front), fd, AfterCalls(c, front), calls[|calls| - 1])
  }

  /** From construction on, whatever calls are made, every epoll operation chosen is legal and the
      kernel watches exactly what the channel asks for. */
  lemma {:induction false} EveryOperationIsLegal(kernel: Set, fd: Fd, calls: seq<Call>, call: Call)
    requires fd !in kernel
    ensures var c, k := AfterCalls(View(NONE_EVENT, false), calls), KernelAfterCalls(kernel, fd, View(NONE_EVENT, false), calls);
      && Agrees(k, fd, c) && k - {fd} == kernel
      && Legal(k, Choose(c.(events := NewMask(c.events, call))), fd)
  {
    var start := View(NONE_EVENT, false);
    if calls != [] {
      var front := calls[..|calls| - 1];
      EveryOperationIsLegal(kernel, fd, front, calls[|calls| - 1]);
      CallKeepsAgreement(KernelAfterCalls(kernel, fd, start, front), fd, AfterCalls(start, front), calls[|calls| - 1]);
    } else {
      assert kernel - {fd} == kernel;
    }
    CallKeepsAgreement(KernelAfterCalls(kernel, fd, start, calls), fd, AfterCalls(start, calls), call);
  }

  /** n calls of disableAll. */
  function Disables(n: nat): seq<Call> {
    if n == 0 then [] else Disables(n - 1) + [DisableAll]
  }

  lemma NoDisable(kernel: Set, fd: Fd, c: View)
    ensures AfterCalls(c, Disables(0)) == c && KernelAfterCalls(kernel, fd, c, Disables(0)) == kernel
  {
  }

  lemma OneMoreDisable(kernel: Set, fd: Fd, c: View, n: nat)
    ensures AfterCalls(c, Disables(n + 1)) == AfterCall(AfterCalls(c, Disables(n)), DisableAll)
    ensures KernelAfterCalls(kernel, fd, c, Disables(n + 1))
         == KernelAfterCall(KernelAfterCalls(kernel, fd, c, Disables(n)), fd, AfterCalls(c, Disables(n)), DisableAll)
  {
    var calls := Disables(n);
    assert Disables(n + 1) == calls + [DisableAll];
    assert (calls + [DisableAll])[..|calls|] == calls;
  }

  lemma DisableAllFlips(kernel: Set, fd: Fd, c: View)
    requires Agrees(kernel, fd, c)
    ensures var k, d := KernelAfterCall(kernel, fd, c, DisableAll), AfterCall(c, DisableAll);
      Agrees(k, fd, d) && d.events == NONE_EVENT && (fd in k <==> fd !in kernel)
  {
    CallKeepsAgreement(kernel, fd, c, DisableAll);
  }

  /** A disableAll on a channel that is not registered registers it, with an empty mask; so n of them
      leave it registered exactly when it was and n is even, or it was not and n is odd. */
  lemma {:induction false} DisableAllParity(kernel: Set, fd: Fd, c: View, n: nat)
    requires Agrees(kernel, fd, c)
    ensures var d, k := AfterCalls(c, Disables(n)), KernelAfterCalls(kernel, fd, c, Disables(n));
      && Agrees(k, fd, d) && (n > 0 ==> d.events == NONE_EVENT)
      && (fd in k <==> (fd in kernel <==> n % 2 == 0))
  {
    hide Agrees, AfterCalls, KernelAfterCalls, AfterCall, KernelAfterCall, Disables;
    if n == 0 {
      NoDisable(kernel, fd, c);
    } else {
      DisableAllParity(kernel, fd, c, n - 1);
      OneMoreDisable(kernel, fd, c, n - 1);
      DisableAllFlips(KernelAfterCalls(kernel, fd, c, Disables(n - 1)), fd, AfterCalls(c, Disables(n - 1)));
    }
  }
}

module Channels {
  import opened Masks
  import opened Interest

  class EPoller {
    var kernel: Set

    constructor ()
      ensures kernel == map[]
    {
      kernel := map[];
    }

    /** The system call, on an operation that is legal. */
    method EpollCtl(op: CtlOp, fd: Fd, mask: bv32)
      requires Legal(kernel, op, fd)
      modifies this
      ensures kernel == Ctl(old(kernel), op, fd, mask)
    {
      if op == Del {
        kernel := kernel - {fd};
      } else {
        kernel := kernel[fd := mask];
      }
    }
  }

  class Channel {
    const fd: Fd
    const poller: EPoller
    var events: bv32
    var pooling: bool

    ghost predicate Valid()
      reads this, poller
    {
      Agrees(poller.kernel, fd, Look())
    }

    function Look(): View
      reads this
    {
      View(events, pooling)
    }

    predicate IsWriting() reads this { Writes(events) }

    predicate IsReading() reads this { Reads(events) }

    constructor (poller: EPoller, fd: Fd)
      requires fd !in poller.kernel
      ensures Valid() && this.poller == poller && this.fd == fd
      ensures !IsWriting() && !IsReading()
    {
      this.poller, this.fd := poller, fd;
      events, pooling := NONE_EVENT, false;
    }

    /** `update`, which is `EPoller::updateChannel`. */
    method Update(ghost was: View, ghost call: Call)
      requires Agrees(poller.kernel, fd, was) && pooling == was.pooling && events == NewMask(was.events, call)
      modifies this`pooling, poller
      ensures Look() == AfterCall(was, call)
      ensures poller.kernel == KernelAfterCall(old(poller.kernel), fd, was, call)
    {
      CallKeepsAgreement(poller.kernel, fd, was, call);
      var op := Del;
      if !pooling {
        op := Add;
        pooling := true;
      } else if events != NONE_EVENT {
        op := Mod;
      } else {
        pooling := false;
      }
      poller.EpollCtl(op, fd, events);
    }

    method EnableReading()
      requires Valid()
      modifies this`events, this`pooling, poller
      ensures Valid() && Look() == AfterCall(old(Look()), Call.EnableReading)
      ensures poller.kernel == KernelAfterCall(old(poller.kernel), fd, old(Look()), Call.EnableReading)
      ensures IsReading() && IsWriting() == old(IsWriting())
    {
      ghost var was := Look();
      CallKeepsAgreement(poller.kernel, fd, was, Call.EnableReading);
      MaskBits(events, Call.EnableReading);
      events := NewMask(events, Call.EnableReading);
      Update(was, Call.EnableReading);
    }

    method DisableReading()
      requires Valid()
      modifies this`events, this`pooling, poller
      ensures Valid() && Look() == AfterCall(old(Look()), Call.DisableReading)
      ensures poller.kernel == KernelAfterCall(old(poller.kernel), fd, old(Look()), Call.DisableReading)
      ensures !IsReading() && IsWriting() == old(IsWriting())
    {
      ghost var was := Look();
      CallKeepsAgreement(poller.kernel, fd, was, Call.DisableReading);
      MaskBits(events, Call.DisableReading);
      events := NewMask(events, Call.DisableReading);
      Update(was, Call.DisableReading);
    }

    method EnableWriting()
      requires Valid()
      modifies this`events, this`pooling, poller
      ensures Valid() && Look() == AfterCall(old(Look()), Call.EnableWriting)
      ensures poller.kernel == KernelAfterCall(old(poller.kernel), fd, old(Look()), Call.EnableWriting)
      ensures IsWriting() && IsReading() == old(IsReading())
    {
      ghost var was := Look();
      CallKeepsAgreement(poller.kernel, fd, was, Call.EnableWriting);
      MaskBits(events, Call.EnableWriting);
      events := NewMask(events, Call.EnableWriting);
      Update(was, Call.EnableWriting);
    }

    method DisableWriting()
      requires Valid()
      modifies this`events, this`pooling, poller
      ensures Valid() && Look() == AfterCall(old(Look()), Call.DisableWriting)
      ensures poller.kernel == KernelAfterCall(old(poller.kernel), fd, old(Look()), Call.DisableWriting)
      ensures !IsWriting() && IsReading() == old(IsReading())
    {
      ghost var was := Look();
      CallKeepsAgreement(poller.kernel, fd, was, Call.DisableWriting);
      MaskBits(events, Call.DisableWriting);
      events := NewMask(events, Call.DisableWriting);
      Update(was, Call.DisableWriting);
    }

    method DisableAll()
      requires Valid()
      modifies this`events, this`pooling, poller
      ensures Valid() && Look() == AfterCall(old(Look()), Call.DisableAll)
      ensures poller.kernel == KernelAfterCall(old(poller.kernel), fd, old(Look()), Call.DisableAll)
      ensures !IsWriting() && !IsReading() && events == 0 && pooling == !old(pooling)
    {
      ghost var was := Look();
      CallKeepsAgreement(poller.kernel, fd, was, Call.DisableAll);
      MaskBits(events, Call.DisableAll);
      events := NewMask(events, Call.DisableAll);
      Update(was, Call.DisableAll);
    }
  }
}
