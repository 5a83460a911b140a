/** The event loop's task queue and its wakeup channel (EventLoop.cc). */
module LoopProtocol {

  /** A queued closure, by identity. */
  type Task = nat

  /** `eventfd` refuses a write that would pass this value. */
  const COUNTER_MAX: nat := 0xFFFF_FFFF_FFFF_FFFE

  datatype Pc = NotStarted | Polling | Handling | Running | Stopped

  datatype State = State(
    pc: Pc,
    pending: seq<Task>,      // under the mutex
    quit: bool,
    counter: nat,            // the eventfd
    batch: seq<Task>,        // the loop thread: rest of the swapped-out vector
    doing: bool,
    inFlight: nat,           // foreign threads between their critical section and their wakeup
    pushed: seq<Task>,       // history: pushes in lock order
    executed: seq<Task>,     // history
    mark: nat,               // history: how many tasks had been pushed at the last swap
    rounds: nat,             // history: how many swaps there have been
    early: bool)             // history: the loop thread queued before loop(), and no swap yet

  const Init := State(NotStarted, [], false, 0, [], false, 0, [], [], 0, 0, false)

  datatype Event =
    | ForeignPush(task: Task) | ForeignQuit | ForeignWake   // any other thread
    | LoopPush(task: Task) | LoopQuit                        // callbacks and tasks on the loop thread
    | Start | PollReturn | ReadWakeup | SwapTasks | RunTask | EndTasks

  function Wakeup(counter: nat): nat {
    if counter < COUNTER_MAX then counter + 1 else counter
  }

  predicate Enabled(s: State, e: Event) {
    match e
    case ForeignPush(_) => true
    case ForeignQuit => true
    case ForeignWake => s.inFlight > 0
    case LoopPush(_) => s.pc in {NotStarted, Handling, Running}
    case LoopQuit => s.pc in {NotStarted, Handling, Running}
    case Start => s.pc == NotStarted
    case PollReturn => s.pc == Polling
    case ReadWakeup => s.pc == Handling
    case SwapTasks => s.pc == Handling
    case RunTask => s.pc == Running && s.batch != []
    case EndTasks => s.pc == Running && s.batch == []
  }

  function Push(s: State, task: Task): State {
    s.(pending := s.pending + [task], pushed := s.pushed + [task])
  }

  function Next(s: State, e: Event): State {
    if !Enabled(s, e) then s
    else match e
      case ForeignPush(task) => Push(s, task).(inFlight := s.inFlight + 1)
      case ForeignQuit => s.(quit := true, inFlight := s.inFlight + 1)
      case ForeignWake => s.(inFlight := s.inFlight - 1, counter := Wakeup(s.counter))
      case LoopPush(task) =>
        Push(s, task).(counter := if s.doing then Wakeup(s.counter) else s.counter,
                       early := s.early || s.pc == NotStarted)
      case LoopQuit => s.(quit := true)
      case Start => s.(quit := false, pc := Polling)
      case PollReturn => s.(pc := Handling)
      case ReadWakeup => s.(counter := 0)
      case SwapTasks =>
        s.(pc := Running, batch := s.pending, pending := [], doing := true,
           mark := |s.pushed|, rounds := s.rounds + 1, early := false)
      case RunTask => s.(executed := s.executed + [s.batch[0]], batch := s.batch[1..])
      case EndTasks => s.(doing := false, pc := if s.quit then Stopped else Polling)
  }

  function Continue(s: State, es: seq<Event>): State {
    if es == [] then s else Next(Continue(s, es[..|es| - 1]), es[|es| - 1])
  }

  ghost predicate Inv(s: State) {
    && s.executed + s.batch + s.pending == s.pushed
    && (s.doing <==> s.pc == Running)
    && (s.pc != Running ==> s.batch == [])
    && |s.executed| + |s.batch| == s.mark && (s.rounds == 0 ==> s.mark == 0)
    && (s.early || s.pc == NotStarted ==> s.rounds == 0)
    && (s.rounds == 0 ==> s.pc in {NotStarted, Polling, Handling})
    && (s.pc != Handling && s.pending != [] ==> s.counter > 0 || s.inFlight > 0 || s.early)
  }

  lemma PushKeepsInv(s: State, e: Event)
    requires Inv(s) && (e.ForeignPush? || e.LoopPush?)
    ensures Inv(Next(s, e))
  {
    assert s.executed + s.batch + (s.pending + [e.task]) == s.executed + s.batch + s.pending + [e.task];
  }

  lemma RunKeepsInv(s: State, e: Event)
    requires Inv(s) && (e.SwapTasks? || e.RunTask? || e.EndTasks?)
    ensures Inv(Next(s, e))
  {
    if Enabled(s, e) && e.RunTask? {
      assert s.batch == [s.batch[0]] + s.batch[1..];
    }
  }

  lemma QueueStays(s: State, e: Event)
    requires Inv(s) && !e.ForeignPush? && !e.LoopPush? && !e.SwapTasks? && !e.RunTask? && !e.EndTasks?
    ensures Inv(Next(s, e))
  {
  }

  lemma NextKeepsInv(s: State, e: Event)
    requires Inv(s)
    ensures Inv(Next(s, e))
  {
    hide Inv, Next;
    match e
    case ForeignPush(_) => PushKeepsInv(s, e);
    case LoopPush(_) => PushKeepsInv(s, e);
    case SwapTasks => RunKeepsInv(s, e);
    case RunTask => RunKeepsInv(s, e);
    case EndTasks => RunKeepsInv(s, e);
    case _ => QueueStays(s, e);
  }

  lemma {:induction false} ContinueKeepsInv(s: State, es: seq<Event>)
    requires Inv(s)
    ensures Inv(Continue(s, es))
  {
    if es != [] {
      ContinueKeepsInv(s, es[..|es| - 1]);
      NextKeepsInv(Continue(s, es[..|es| - 1]), es[|es| - 1]);
    }
  }

  lemma RunOneMore(s: State, es: seq<Event>, e: Event)
    ensures Continue(s, es + [e]) == Next(Continue(s, es), e)
  {
    assert (es + [e])[..|es + [e]| - 1] == es;
  }

  lemma RunNone(s: State)
    ensures Continue(s, []) == s
  {
  }

  lemma RunOne(s: State, e: Event)
    ensures Continue(s, [e]) == Next(s, e)
  {
    assert [e][..0] == [];
  }

  lemma {:induction false} RunBoth(s: State, a: seq<Event>, b: seq<Event>)
    ensures Continue(s, a + b) == Continue(Continue(s, a), b)
    decreases |b|
  {
    if b == [] {
      assert a + b == a;
    } else {
      var front, e := b[..|b| - 1], b[|b| - 1];
      RunBoth(s, a, front);
      assert a + b == (a + front) + [e];
      RunOneMore(s, a + front, e);
    }
  }

  /** The tasks that the events of a run push, in order. */
  ghost function Pushes(es: seq<Event>): seq<Task> {
    if es == [] then []
    else
      var front, e := es[..|es| - 1], es[|es| - 1];
      Pushes(front) + match e
        case ForeignPush(task) => [task]
        case LoopPush(task) => if Enabled(Continue(Init, front), e) then [task] else []
        case _ => []
  }

  lemma {:induction false} HistoryIsThePushes(es: seq<Event>)
    ensures Continue(Init, es).pushed == Pushes(es)
  {
    hide Next, Enabled;
    if es != [] {
      HistoryIsThePushes(es[..|es| - 1]);
      PushStep(Continue(Init, es[..|es| - 1]), es[|es| - 1]);
    }
  }

  lemma PushStep(s: State, e: Event)
    ensures Next(s, e).pushed == s.pushed
      + match e
        case ForeignPush(task) => [task]
        case LoopPush(task) => if Enabled(s, e) then [task] else []
        case _ => []
  {
  }

  // ---------------------------------------------------------------- main results, for every interleaving

  /** Each pushed task is executed once, in push order: executed, then the rest of the batch, then
      the queue, is the whole lock-order history. */
  lemma ExactlyOnceInOrder(es: seq<Event>)
    ensures var s := Continue(Init, es);
      && s.executed + s.batch + s.pending == s.pushed == Pushes(es)
      && s.mark <= |s.pushed|
      && (s.pc != Running ==> s.executed == s.pushed[..s.mark] && s.pending == s.pushed[s.mark..])
  {
    HistoryIsThePushes(es);
    ContinueKeepsInv(Init, es);
  }

  /** When a task runs, all that were pushed before it have run: a closure queued after another by the
      same thread never finds the other's work undone. */
  lemma EarlierPushRunsFirst(es: seq<Event>, i: nat, j: nat)
    requires i < j < |Continue(Init, es).executed|
    ensures var s := Continue(Init, es);
      s.executed <= Pushes(es) && s.executed[i] == Pushes(es)[i] && s.executed[j] == Pushes(es)[j]
  {
    ExactlyOnceInOrder(es);
    var s := Continue(Init, es);
    assert s.executed + s.batch + s.pending == s.executed + (s.batch + s.pending);
  }

  /** The loop never sits in poll with work queued unless something is about to wake it, except for
      tasks the loop thread itself queued before loop(). */
  lemma NoLostWakeup(es: seq<Event>)
    ensures var s := Continue(Init, es);
      s.pc == Polling && s.pending != [] && !s.early ==> s.counter > 0 || s.inFlight > 0
  {
    ContinueKeepsInv(Init, es);
  }

  predicate Foreign(e: Event) { e.ForeignPush? || e.ForeignQuit? }

  ghost predicate NoForeign(es: seq<Event>) {
    forall e :: e in es ==> !Foreign(e)
  }

  ghost predicate Unwoken(s: State) { s.counter == 0 && s.inFlight == 0 }

  lemma UnwokenNext(s: State, e: Event)
    requires Inv(s)
    ensures Next(s, e).rounds == 0 && Next(s, e).pc in {NotStarted, Polling} ==>
      && s.rounds == 0 && s.pc in {NotStarted, Polling}
      && (Unwoken(Next(s, e)) <==> Unwoken(s) && !Foreign(e))
  {
  }

  /** Exactly when that exception bites: before the first poll returns, nothing is on its way to wake
      the loop iff no other thread has pushed or quit. */
  lemma {:induction false} StrandedIff(es: seq<Event>)
    ensures var s := Continue(Init, es);
      s.rounds == 0 && s.pc in {NotStarted, Polling} ==> (Unwoken(s) <==> NoForeign(es))
  {
    if es != [] {
      var front, e := es[..|es| - 1], es[|es| - 1];
      StrandedIff(front);
      ContinueKeepsInv(Init, front);
      UnwokenNext(Continue(Init, front), e);
      assert es == front + [e];
    }
  }

  /** Both together: the loop sits in poll with tasks queued and nothing coming if and only if nothing
      has been swapped yet, something was pushed and no other thread has pushed or quit. */
  lemma LostWakeupIff(es: seq<Event>)
    ensures var s := Continue(Init, es);
      s.pc == Polling ==>
        ((s.pending != [] && Unwoken(s)) <==> (s.rounds == 0 && Pushes(es) != [] && NoForeign(es)))
  {
    ContinueKeepsInv(Init, es);
    HistoryIsThePushes(es);
    StrandedIff(es);
    NoLostWakeup(es);
    var s := Continue(Init, es);
    if s.rounds == 0 {
      assert s.executed == [] && s.batch == [];
      assert s.executed + s.batch + s.pending == s.pending;
    }
  }

  lemma EarlyPushCanStrand(task: Task)
    ensures var s := Continue(Init, [LoopPush(task), Start]);
      s.pc == Polling && s.pending == [task] && s.counter == 0 && s.inFlight == 0
  {
    var one := [LoopPush(task)];
    assert one[..0] == [];
    assert Continue(Init, []) == Init;
    assert Continue(Init, one) == Next(Init, LoopPush(task));
    assert [LoopPush(task), Start][..1] == one;
    assert Continue(Init, [LoopPush(task), Start]) == Next(Continue(Init, one), Start);
  }

  /** From s to t time has passed: histories only grow, and a new swap marks all that s had pushed. */
  ghost predicate Later(s: State, t: State) {
    && s.pushed <= t.pushed && s.rounds <= t.rounds
    && (t.rounds > s.rounds ==> t.mark >= |s.pushed|)
  }

  lemma LaterNext(s: State, t: State, e: Event)
    requires Later(s, t)
    ensures Later(s, Next(t, e))
  {
  }

  lemma {:induction false} HistoryGrows(s: State, es: seq<Event>)
    ensures Later(s, Continue(s, es))
  {
    if es != [] {
      HistoryGrows(s, es[..|es| - 1]);
      LaterNext(s, Continue(s, es[..|es| - 1]), es[|es| - 1]);
    }
  }

  /** Whatever was queued at some moment has been executed, in order, by the end of the next round
      that starts after it. */
  lemma NextRoundDrains(es: seq<Event>, more: seq<Event>)
    ensures var s, t := Continue(Init, es), Continue(Continue(Init, es), more);
      t.rounds > s.rounds && t.pc != Running ==> s.pushed <= t.executed
  {
    ContinueKeepsInv(Init, es);
    var s, t := Continue(Init, es), Continue(Continue(Init, es), more);
    HistoryGrows(s, more);
    ContinueKeepsInv(s, more);
    assert t.rounds > s.rounds && t.pc != Running ==> t.executed == t.pushed[..t.mark];
  }

  /** Whether quit() has been called since loop() began. */
  ghost function QuitAsked(es: seq<Event>): bool {
    if es == [] then false
    else
      var front, e := es[..|es| - 1], es[|es| - 1];
      match e
      case ForeignQuit => true
      case LoopQuit => Enabled(Continue(Init, front), e) || QuitAsked(front)
      case Start => !Enabled(Continue(Init, front), e) && QuitAsked(front)
      case _ => QuitAsked(front)
  }

  /** The flag is what it is for: set by every quit(), by whatever thread, and cleared only by loop(). */
  lemma {:induction false} QuitIff(es: seq<Event>)
    ensures Continue(Init, es).quit <==> QuitAsked(es)
  {
    if es != [] {
      QuitIff(es[..|es| - 1]);
    }
  }

  /** The round in which quit() is called is the last one, and no other round is. */
  lemma RoundIsLastIff(es: seq<Event>)
    requires Continue(Init, es).pc == Running && Continue(Init, es).batch == []
    ensures Continue(Init, es + [EndTasks]).pc == if QuitAsked(es) then Stopped else Polling
  {
    RunOneMore(Init, es, EndTasks);
    QuitIff(es);
  }

  ghost predicate AsksToQuit(es: seq<Event>) {
    exists e :: e in es && (e.ForeignQuit? || e.LoopQuit?)
  }

  lemma AsksBoth(a: seq<Event>, b: seq<Event>)
    ensures AsksToQuit(a + b) <==> AsksToQuit(a) || AsksToQuit(b)
  {
    if AsksToQuit(a) {
      var e :| e in a && (e.ForeignQuit? || e.LoopQuit?);
      assert e in a + b;
    }
    if AsksToQuit(b) {
      var e :| e in b && (e.ForeignQuit? || e.LoopQuit?);
      assert e in a + b;
    }
  }

  lemma AsksOne(e: Event)
    ensures AsksToQuit([e]) <==> e.ForeignQuit? || e.LoopQuit?
    ensures !AsksToQuit([])
  {
    assert e in [e];
  }

  /** Whatever quit() calls come before loop(), from any thread, loop() starts by clearing the flag; it
      keeps the wakeups they owe, and everything else. */
  lemma QuitBeforeLoopIsForgotten(es: seq<Event>)
    requires Continue(Init, es).pc == NotStarted
    ensures Continue(Init, es + [Start]) == Continue(Init, es).(quit := false, pc := Polling)
  {
    RunOneMore(Init, es, Start);
  }
}

module EventLoops {
  import opened P = LoopProtocol

  /** Steps that other threads, or code running on the loop thread, take at any moment. */
  predicate Interferes(e: Event) {
    e.ForeignPush? || e.ForeignQuit? || e.ForeignWake? || e.LoopPush? || e.LoopQuit?
  }

  function Nth(during: seq<seq<Event>>, i: nat): seq<Event> {
    if i < |during| then during[i] else []
  }

  /** The first n tasks of a batch; `during[i]` happens while the i-th one runs. */
  ghost function TaskEvents(during: seq<seq<Event>>, n: nat): seq<Event> {
    if n == 0 then [] else TaskEvents(during, n - 1) + ([RunTask] + Nth(during, n - 1))
  }

  /** A whole doPendingTasks that swaps out n tasks. */
  ghost function PendingEvents(during: seq<seq<Event>>, n: nat): seq<Event> {
    [SwapTasks] + (TaskEvents(during, n) + [EndTasks])
  }

  lemma {:induction false} InterferenceKeepsBatch(s: State, es: seq<Event>)
    requires forall e :: e in es ==> Interferes(e)
    ensures Continue(s, es).batch == s.batch && Continue(s, es).pc == s.pc && Continue(s, es).executed == s.executed
  {
    if es != [] {
      assert es[|es| - 1] in es;
      InterferenceKeepsBatch(s, es[..|es| - 1]);
    }
  }

  /** A pass of the loop: what goes on before and after the wakeup channel is handled, if it is, and
      while each queued task runs. */
  datatype Turn = Turn(before: seq<Event>, readsWakeup: bool, after: seq<Event>, during: seq<seq<Event>>)

  ghost predicate Interference(es: seq<Event>) {
    forall e :: e in es ==> Interferes(e)
  }

  ghost predicate AllInterference(during: seq<seq<Event>>) {
    forall i :: 0 <= i < |during| ==> Interference(during[i])
  }

  ghost predicate Plausible(t: Turn) {
    Interference(t.before) && Interference(t.after) && AllInterference(t.during)
  }

  /** The steps of one pass in which n tasks are swapped out. */
  ghost function TurnEvents(t: Turn, n: nat): seq<Event> {
    HandlingEvents(t) + PendingEvents(t.during, n)
  }

  ghost function HandlingEvents(t: Turn): seq<Event> {
    [PollReturn] + t.before + (if t.readsWakeup then [ReadWakeup] else []) + t.after
  }

  /** The steps of several passes; pass k swaps out counts[k] tasks. */
  ghost function LoopEvents(turns: seq<Turn>, counts: seq<nat>): seq<Event>
    requires |counts| <= |turns|
  {
    if counts == [] then []
    else
      var k := |counts| - 1;
      LoopEvents(turns, counts[..k]) + TurnEvents(turns[k], counts[k])
  }

  lemma PendingIsItsSteps(s: State, during: seq<seq<Event>>, n: nat)
    ensures Continue(s, PendingEvents(during, n)) == Next(Continue(Next(s, SwapTasks), TaskEvents(during, n)), EndTasks)
  {
    RunBoth(s, [SwapTasks], TaskEvents(during, n) + [EndTasks]);
    RunOne(s, SwapTasks);
    RunOneMore(Next(s, SwapTasks), TaskEvents(during, n), EndTasks);
  }

  lemma HandlingIsItsSteps(s: State, t: Turn, wake: seq<Event>)
    requires wake == if t.readsWakeup then [ReadWakeup] else []
    ensures Continue(s, HandlingEvents(t)) == Continue(Continue(Continue(Next(s, PollReturn), t.before), wake), t.after)
  {
    RunBoth(s, [PollReturn] + t.before + wake, t.after);
    RunBoth(s, [PollReturn] + t.before, wake);
    RunBoth(s, [PollReturn], t.before);
    RunOne(s, PollReturn);
  }

  lemma PendingAsks(during: seq<seq<Event>>, n: nat)
    ensures AsksToQuit(PendingEvents(during, n)) <==> AsksToQuit(TaskEvents(during, n))
  {
    AsksBoth([SwapTasks], TaskEvents(during, n) + [EndTasks]);
    AsksBoth(TaskEvents(during, n), [EndTasks]);
    AsksOne(SwapTasks);
    AsksOne(EndTasks);
  }

  lemma HandlingAsks(t: Turn, wake: seq<Event>)
    requires wake == if t.readsWakeup then [ReadWakeup] else []
    ensures AsksToQuit(HandlingEvents(t)) <==> AsksToQuit(t.before) || AsksToQuit(t.after)
  {
    AsksBoth([PollReturn] + t.before + wake, t.after);
    AsksBoth([PollReturn] + t.before, wake);
    AsksBoth([PollReturn], t.before);
    AsksOne(PollReturn);
    AsksOne(ReadWakeup);
  }

  class EventLoop {
    var quit: bool
    var pendingTasks: seq<Task>
    var doingPendingTasks: bool
    var wakeupCounter: nat      // what the kernel holds behind wakeupFd_
    var wakeupsOwed: nat        // other threads that have pushed and not yet written to wakeupFd_
    var ran: seq<Task>          // the calls made by the loop thread, in order
    ghost var history: State

    ghost predicate Valid()
      reads this
    {
      && Inv(history) && history.quit == quit && history.pending == pendingTasks
      && history.doing == doingPendingTasks && history.counter == wakeupCounter && history.inFlight == wakeupsOwed
      && history.executed == ran
    }

    constructor ()
      ensures Valid() && history == Init
    {
      quit, pendingTasks, doingPendingTasks, wakeupCounter, wakeupsOwed, ran := false, [], false, 0, 0, [];
      history := Init;
    }

    method WriteWakeup()
      modifies this`wakeupCounter
      ensures wakeupCounter == Wakeup(old(wakeupCounter))
      ensures wakeupCounter == old(wakeupCounter) + if old(wakeupCounter) < 0xFFFF_FFFF_FFFF_FFFE then 1 else 0
    {
      if wakeupCounter < COUNTER_MAX {
        wakeupCounter := wakeupCounter + 1;
      }
    }

    /** `queueInLoop`, on the loop thread or on another one. */
    method QueueInLoop(task: Task, isInLoopThread: bool)
      requires Valid() && (isInLoopThread ==> history.pc in {NotStarted, Handling, Running})
      modifies this
      ensures Valid()
      ensures history == if isInLoopThread then Next(old(history), LoopPush(task))
                         else Next(Next(old(history), ForeignPush(task)), ForeignWake)
      ensures pendingTasks == old(pendingTasks) + [task] && quit == old(quit) && wakeupsOwed == old(wakeupsOwed) && ran == old(ran)
      ensures !isInLoopThread || doingPendingTasks ==>
        wakeupCounter == old(wakeupCounter) + if old(wakeupCounter) < 0xFFFF_FFFF_FFFF_FFFE then 1 else 0
      ensures isInLoopThread && !doingPendingTasks ==> wakeupCounter == old(wakeupCounter)
    {
      ghost var after := if isInLoopThread then Next(history, LoopPush(task))
                         else Next(Next(history, ForeignPush(task)), ForeignWake);
      if isInLoopThread {
        NextKeepsInv(history, LoopPush(task));
      } else {
        NextKeepsInv(history, ForeignPush(task));
        NextKeepsInv(Next(history, ForeignPush(task)), ForeignWake);
      }
      pendingTasks := pendingTasks + [task];
      if !isInLoopThread || doingPendingTasks {
        WriteWakeup();
      }
      history := after;
    }

    /** `handleRead`: the read resets the counter, or fails when it is already zero. */
    method HandleRead()
      requires Valid() && history.pc == Handling
      modifies this
      ensures Valid() && history == Next(old(history), ReadWakeup) && history.pc == Handling
      ensures pendingTasks == old(pendingTasks) && ran == old(ran)
      ensures wakeupCounter == 0 && quit == old(quit)
    {
      wakeupCounter := 0;
      history := Next(history, ReadWakeup);
    }

    /** What a callback, a task or another thread may do while the loop thread is busy. */
    method Perform(e: Event)
      requires Valid() && history.pc in {Handling, Running} && Interferes(e)
      modifies this
      ensures Valid() && history == Next(old(history), e) && ran == old(ran) && old(pendingTasks) <= pendingTasks
      ensures quit == (old(quit) || e.ForeignQuit? || e.LoopQuit?)
      ensures pendingTasks == old(pendingTasks) + if e.ForeignPush? || e.LoopPush? then [e.task] else []
      ensures e.ForeignPush? || e.ForeignQuit? ==> wakeupsOwed == old(wakeupsOwed) + 1
      ensures e.ForeignWake? && old(wakeupsOwed) > 0 ==> wakeupsOwed == old(wakeupsOwed) - 1
      ensures e.LoopPush? || e.LoopQuit? ==> wakeupsOwed == old(wakeupsOwed)
      ensures (e.ForeignWake? && old(wakeupsOwed) > 0) || (e.LoopPush? && doingPendingTasks) ==>
        wakeupCounter == old(wakeupCounter) + if old(wakeupCounter) < 0xFFFF_FFFF_FFFF_FFFE then 1 else 0
      ensures e.ForeignPush? || e.ForeignQuit? || e.LoopQuit? || (e.LoopPush? && !doingPendingTasks) ==> wakeupCounter == old(wakeupCounter)
    {
      NextKeepsInv(history, e);
      match e {
        case LoopPush(task) =>
          QueueInLoop(task, true);
          return;
        case ForeignPush(task) => pendingTasks, wakeupsOwed := pendingTasks + [task], wakeupsOwed + 1;
        case ForeignQuit => quit, wakeupsOwed := true, wakeupsOwed + 1;
        case LoopQuit => quit := true;
        case ForeignWake =>
          if wakeupsOwed > 0 {
            wakeupsOwed := wakeupsOwed - 1;
            WriteWakeup();
          }
      }
      history := Next(history, e);
    }

    method PerformAll(es: seq<Event>)
      requires Valid() && history.pc in {Handling, Running} && Interference(es)
      modifies this
      ensures Valid() && history == Continue(old(history), es)
      ensures history.pc == old(history).pc && history.batch == old(history).batch
      ensures ran == old(ran) && old(pendingTasks) <= pendingTasks
      ensures quit == (old(quit) || AsksToQuit(es))
    {
      hide Next, Inv;
      InterferenceKeepsBatch(history, es);
      for i := 0 to |es|
        invariant Valid() && history == Continue(old(history), es[..i])
        invariant history.pc == old(history).pc && history.batch == old(history).batch
        invariant ran == old(ran) && old(pendingTasks) <= pendingTasks
        invariant quit == (old(quit) || AsksToQuit(es[..i]))
      {
        AsksBoth(es[..i], [es[i]]);
        AsksOne(es[i]);
        RunOneMore(old(history), es[..i], es[i]);
        InterferenceKeepsBatch(old(history), es[..i] + [es[i]]);
        assert es[..i + 1] == es[..i] + [es[i]];
        Perform(es[i]);
      }
      assert es[..|es|] == es;
    }

    /** One task of the batch, and what goes on while it runs. */
    method RunTurn(task: Task, events: seq<Event>)
      requires Valid() && history.pc == Running && history.batch != [] && history.batch[0] == task
      requires Interference(events)
      modifies this
      ensures Valid() && history.pc == Running && history == Continue(old(history), [RunTask] + events)
      ensures history.batch == old(history).batch[1..]
      ensures ran == old(ran) + [task]
      ensures quit == (old(quit) || AsksToQuit([RunTask] + events))
    {
      AsksBoth([RunTask], events);
      AsksOne(RunTask);
      NextKeepsInv(history, RunTask);
      RunBoth(history, [RunTask], events);
      RunOne(history, RunTask);
      ran := ran + [task];
      history := Next(history, RunTask);
      PerformAll(events);
    }

    /** `doPendingTasks`; `during[i]` is what goes on while the i-th task runs. */
    method DoPendingTasks(during: seq<seq<Event>>)
      requires Valid() && history.pc == Handling && AllInterference(during)
      modifies this
      ensures Valid() && history.pc in {Polling, Stopped} && quit == (history.pc == Stopped)
      ensures history == Continue(old(history), PendingEvents(during, |old(pendingTasks)|))
      ensures ran == old(ran) + old(pendingTasks)
      ensures quit == (old(quit) || AsksToQuit(PendingEvents(during, |old(pendingTasks)|)))
    {
      var tasks := pendingTasks;
      ghost var start := history;
      TakeTasks();
      RunBatch(tasks, during);
      FinishTasks();
      PendingIsItsSteps(start, during, |tasks|);
      PendingAsks(during, |tasks|);
    }

    method TakeTasks()
      requires Valid() && history.pc == Handling
      modifies this
      ensures Valid() && history == Next(old(history), SwapTasks) && ran == old(ran)
      ensures history.pc == Running && history.batch == old(pendingTasks)
      ensures quit == old(quit) && pendingTasks == []
    {
      NextKeepsInv(history, SwapTasks);
      pendingTasks, doingPendingTasks := [], true;
      history := Next(history, SwapTasks);
    }

    method FinishTasks()
      requires Valid() && history.pc == Running && history.batch == []
      modifies this
      ensures Valid() && history == Next(old(history), EndTasks) && ran == old(ran)
      ensures history.pc in {Polling, Stopped} && quit == (history.pc == Stopped)
      ensures quit == old(quit) && pendingTasks == old(pendingTasks)
    {
      NextKeepsInv(history, EndTasks);
      doingPendingTasks := false;
      history := Next(history, EndTasks);
    }

    /** The loop of `doPendingTasks`. */
    method RunBatch(tasks: seq<Task>, during: seq<seq<Event>>)
      requires Valid() && history.pc == Running && history.batch == tasks && AllInterference(during)
      modifies this
      ensures Valid() && history.pc == Running && history.batch == []
      ensures history == Continue(old(history), TaskEvents(during, |tasks|))
      ensures ran == old(ran) + tasks
      ensures quit == (old(quit) || AsksToQuit(TaskEvents(during, |tasks|)))
    {
      hide Inv, Next, Continue;
      RunNone(history);
      for i := 0 to |tasks|
        invariant Valid() && history.pc == Running && history.batch == tasks[i..]
        invariant ran == old(ran) + tasks[..i]
        invariant history == Continue(old(history), TaskEvents(during, i))
        invariant quit == (old(quit) || AsksToQuit(TaskEvents(during, i)))
      {
        AsksBoth(TaskEvents(during, i), [RunTask] + Nth(during, i));
        RunBoth(old(history), TaskEvents(during, i), [RunTask] + Nth(during, i));
        RunTurn(tasks[i], Nth(during, i));
        assert old(ran) + tasks[..i] + [tasks[i]] == old(ran) + tasks[..i + 1];
      }
    }

    /** One pass through the body of the loop of `loop`. */
    method RunOnce(turn: Turn) returns (ghost n: nat)
      requires Valid() && history.pc == Polling && Plausible(turn)
      modifies this
      ensures Valid() && history.pc in {Polling, Stopped} && quit == (history.pc == Stopped)
      ensures history == Continue(old(history), TurnEvents(turn, n))
      ensures old(ran) + old(pendingTasks) <= ran && |ran| == |old(ran)| + n
      ensures quit == (old(quit) || AsksToQuit(TurnEvents(turn, n)))
    {
      ghost var start := history;
      HandleActive(turn);
      n := |pendingTasks|;
      ghost var waiting := pendingTasks;
      DoPendingTasks(turn.during);
      RunBoth(start, HandlingEvents(turn), PendingEvents(turn.during, n));
      assert old(pendingTasks) <= waiting;
      AsksBoth(HandlingEvents(turn), PendingEvents(turn.during, n));
    }

    /** Poll returns and the active channels are handled. */
    method HandleActive(turn: Turn)
      requires Valid() && history.pc == Polling && Plausible(turn)
      modifies this
      ensures Valid() && history.pc == Handling && history == Continue(old(history), HandlingEvents(turn))
      ensures ran == old(ran) && old(pendingTasks) <= pendingTasks
      ensures quit == (old(quit) || AsksToQuit(HandlingEvents(turn)))
    {
      ghost var wake: seq<Event> := if turn.readsWakeup then [ReadWakeup] else [];
      hide Inv, HandlingEvents, Next;
      HandlingIsItsSteps(history, turn, wake);
      PollReturns();
      PerformAll(turn.before);
      if turn.readsWakeup {
        RunOne(history, ReadWakeup);
        HandleRead();
      }
      PerformAll(turn.after);
      HandlingAsks(turn, wake);
    }

    method PollReturns()
      requires Valid() && history.pc == Polling
      modifies this`history
      ensures Valid() && history == Next(old(history), PollReturn) && history.pc == Handling
      ensures quit == old(quit)
    {
      NextKeepsInv(history, PollReturn);
      history := Next(history, PollReturn);
    }

    /** `loop`, for as many passes as there are turns: it stops early exactly when it is told to quit,
        and one pass is enough to run everything that was queued before it. Its whole execution is a run
        of the protocol. */
    method Loop(turns: seq<Turn>) returns (passes: nat, ghost counts: seq<nat>)
      requires Valid() && history.pc == NotStarted
      requires forall k :: 0 <= k < |turns| ==> Plausible(turns[k])
      modifies this
      ensures Valid() && history.pc in {Polling, Stopped} && quit == (history.pc == Stopped)
      ensures |counts| == passes <= |turns| && (passes < |turns| ==> quit)
      ensures history == Continue(old(history), [Start] + LoopEvents(turns, counts))
      ensures passes > 0 ==> old(ran) + old(pendingTasks) <= ran
      ensures passes > 0 || |turns| == 0
      ensures forall k :: 0 <= k < passes - 1 ==> !AsksToQuit(TurnEvents(turns[k], counts[k]))
      ensures quit <==> passes > 0 && AsksToQuit(TurnEvents(turns[passes - 1], counts[passes - 1]))
    {
      hide Inv, Next, TurnEvents;
      ghost var start := history;
      BeginLoop();
      passes, counts := 0, [];
      while !quit && passes < |turns|
        invariant Valid() && history.pc in {Polling, Stopped} && quit == (history.pc == Stopped)
        invariant |counts| == passes <= |turns|
        invariant history == Continue(Next(start, Start), LoopEvents(turns, counts))
        invariant forall k :: 0 <= k < passes - 1 ==> !AsksToQuit(TurnEvents(turns[k], counts[k]))
        invariant quit <==> passes > 0 && AsksToQuit(TurnEvents(turns[passes - 1], counts[passes - 1]))
        invariant if passes == 0 then ran == old(ran) && pendingTasks == old(pendingTasks)
                  else old(ran) + old(pendingTasks) <= ran
      {
        ghost var n := RunOnce(turns[passes]);
        RunBoth(Next(start, Start), LoopEvents(turns, counts), TurnEvents(turns[passes], n));
        assert (counts + [n])[..passes] == counts;
        counts := counts + [n];
        passes := passes + 1;
      }
      RunBoth(start, [Start], LoopEvents(turns, counts));
      RunOne(start, Start);
    }

    /** The first statement of `loop`. */
    method BeginLoop()
      requires Valid() && history.pc == NotStarted
      modifies this
      ensures Valid() && history == Next(old(history), Start) && history.pc == Polling && !quit
      ensures ran == old(ran) && pendingTasks == old(pendingTasks)
    {
      NextKeepsInv(history, Start);
      quit := false;
      history := Next(history, Start);
    }
  }
}
