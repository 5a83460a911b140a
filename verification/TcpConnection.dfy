/** The output path of a connection (TcpConnection.cc) against an adversarial kernel. */
module ConnProtocol {
  import opened Bytes
  import opened LogBuffers

  /** A run starts when connectEstablished has just returned. */
  datatype Phase = Connected | Disconnecting | Disconnected

  datatype WriteResult = Wrote(n: nat) | WouldBlock | Broken   // EAGAIN and the like; EPIPE or ECONNRESET

  /** What this connection has put into its loop's queue. */
  datatype Task = SendTask(msg: seq<Byte>) | ShutdownTask | ForceCloseTask | WriteComplete | HighWater(size: nat)

  datatype Config = Config(notifies: bool, marks: bool, highWaterMark: nat)   // which callbacks are set

  datatype Conn = Conn(
    config: Config,
    phase: Phase,
    writing: bool,                 // channel_.isWriting()
    output: seq<Byte>,             // outputBuffer_
    tasks: seq<Task>,
    kernel: seq<Byte>,             // history: bytes ::write took
    accepted: seq<seq<Byte>>,      // history: messages written or buffered
    backlogs: nat,                 // history: messages that had to be buffered
    completions: nat,              // history: write-complete callbacks queued
    marked: nat,                   // history: high-water callbacks queued
    halfClosed: bool,              // history: SHUT_WR has been issued
    closes: nat)                   // history: how many times handleClose has run

  function Init(config: Config): Conn {
    Conn(config, Connected, false, [], [], [], [], 0, 0, 0, false, 0)
  }

  datatype Event =
    | Send(msg: seq<Byte>, inLoop: bool, w: WriteResult)
    | Shutdown(inLoop: bool)
    | ForceClose
    | RunNext(w: WriteResult)            // the loop runs the first queued task
    | HandleWrite(w: WriteResult)        // epoll reports EPOLLOUT
    | HandleClose                        // hang-up, or a read of zero bytes

  // ---------------------------------------------------------------- the code, as written

  function Notify(c: Conn): Conn {
    if c.config.notifies then c.(tasks := c.tasks + [WriteComplete], completions := c.completions + 1) else c
  }

  /** Keep the rest of a message and ask for writability. The backlog is empty here. */
  function Keep(c: Conn, rest: seq<Byte>): Conn {
    var d := c.(output := c.output + rest, writing := true, backlogs := c.backlogs + 1);
    if c.config.marks && |rest| >= c.config.highWaterMark && 0 < c.config.highWaterMark
    then d.(tasks := d.tasks + [HighWater(|rest|)], marked := d.marked + 1)
    else d
  }

  function SendInLoop(c: Conn, msg: seq<Byte>, w: WriteResult): Conn {
    if c.phase != Connected || c.writing || c.output != [] then c
    else match w
      case Broken => c
      case WouldBlock =>
        if msg == [] then c else Keep(c.(accepted := c.accepted + [msg]), msg)
      case Wrote(m) =>
        var n := if m < |msg| then m else |msg|;
        var d := c.(kernel := c.kernel + msg[..n], accepted := c.accepted + [msg]);
        if n == |msg| then Notify(d) else Keep(d, msg[n..])
  }

  function ShutdownInLoop(c: Conn): Conn {
    if c.phase != Disconnected && !c.writing then c.(halfClosed := true) else c
  }

  function Close(c: Conn): Conn {
    c.(phase := Disconnected, writing := false, closes := c.closes + 1)
  }

  /** `if(state_ = kDisconnecting)` assigns, so a drained backlog always starts the half-close. */
  function Drain(c: Conn, w: WriteResult): Conn {
    if c.phase == Disconnected || !w.Wrote? then c
    else
      var n := if w.n < |c.output| then w.n else |c.output|;
      var d := c.(kernel := c.kernel + c.output[..n], output := c.output[n..]);
      if d.output != [] then d
      else ShutdownInLoop(Notify(d.(writing := false)).(phase := Disconnecting))
  }

  function Run(c: Conn, task: Task, w: WriteResult): Conn {
    match task
    case SendTask(msg) => SendInLoop(c, msg, w)
    case ShutdownTask => ShutdownInLoop(c)
    case ForceCloseTask => if c.phase != Disconnected then Close(c) else c
    case WriteComplete => c
    case HighWater(_) => c
  }

  function RunFirst(c: Conn, w: WriteResult): Conn
    requires c.tasks != []
  {
    Run(c.(tasks := c.tasks[1..]), c.tasks[0], w)
  }

  function Next(c: Conn, e: Event): Conn {
    match e
    case Send(msg, inLoop, w) =>
      if c.phase != Connected then c
      else if inLoop then SendInLoop(c, msg, w)
      else c.(tasks := c.tasks + [SendTask(msg)])
    case Shutdown(inLoop) =>
      if c.phase != Connected then c
      else
        var d := c.(phase := Disconnecting);
        if inLoop then ShutdownInLoop(d) else d.(tasks := d.tasks + [ShutdownTask])
    case ForceClose =>
      if c.phase == Disconnected then c else c.(phase := Disconnecting, tasks := c.tasks + [ForceCloseTask])
    case RunNext(w) => if c.tasks == [] then c else RunFirst(c, w)
    case HandleWrite(w) => if c.writing || c.phase == Disconnected then Drain(c, w) else c
    case HandleClose => Close(c)
  }

  function Continue(c: Conn, es: seq<Event>): Conn {
    if es == [] then c else Next(Continue(c, es[..|es| - 1]), es[|es| - 1])
  }

  // ---------------------------------------------------------------- the invariant

  function Rank(p: Phase): nat {
    match p
    case Connected => 1
    case Disconnecting => 2
    case Disconnected => 3
  }

  ghost predicate Inv(c: Conn) {
    && (c.phase != Disconnected ==> (c.writing <==> c.output != []))
    && (c.phase == Disconnected ==> !c.writing)
    && (c.closes > 0 <==> c.phase == Disconnected)
    && c.kernel + c.output == Flatten(c.accepted)
    && c.backlogs <= 1
    && (c.backlogs == 0 ==> c.output == [])
    && (c.backlogs > 0 && c.phase == Connected ==> c.output != [])
    && (c.output != [] ==> c.accepted != [] && Suffix(c.output, c.accepted[|c.accepted| - 1]))
    && (c.halfClosed ==> c.phase != Connected && c.output == [])
    && c.completions == (if c.config.notifies then Delivered(c) else 0)
    && c.marked <= c.backlogs
    && (ShutdownTask in c.tasks ==> c.phase != Connected)
  }

  ghost predicate Suffix(a: seq<Byte>, b: seq<Byte>) {
    |a| <= |b| && b[|b| - |a|..] == a
  }

  /** Accepted messages of which the kernel has every byte. */
  ghost function Delivered(c: Conn): int {
    |c.accepted| - if c.output != [] then 1 else 0
  }

  lemma FlattenAccepted(accepted: seq<seq<Byte>>, msg: seq<Byte>)
    ensures Flatten(accepted + [msg]) == Flatten(accepted) + msg
  {
    assert (accepted + [msg])[..|accepted|] == accepted;
  }

  lemma SendKeepsInv(c: Conn, msg: seq<Byte>, w: WriteResult)
    requires Inv(c)
    ensures Inv(SendInLoop(c, msg, w))
  {
    FlattenAccepted(c.accepted, msg);
    if c.phase == Connected && !c.writing && c.output == [] {
      assert c.kernel + c.output == c.kernel;
      if w.Wrote? {
        var n := if w.n < |msg| then w.n else |msg|;
        WrittenKeepsInv(c, msg, n);
      } else if w.WouldBlock? && msg != [] {
        WrittenKeepsInv(c, msg, 0);
        assert c.kernel + msg[..0] == c.kernel && msg[0..] == msg;
      }
    }
  }

  /** The first n bytes are written and the rest, if any, is kept. */
  lemma WrittenKeepsInv(c: Conn, msg: seq<Byte>, n: nat)
    requires Inv(c) && c.phase == Connected && c.output == [] && n <= |msg|
    requires Flatten(c.accepted + [msg]) == c.kernel + msg
    ensures var d := c.(kernel := c.kernel + msg[..n], accepted := c.accepted + [msg]);
      Inv(if n == |msg| then Notify(d) else Keep(d, msg[n..]))
  {
    Handed(c.kernel, msg, n, msg);
    assert [] + msg[n..] == msg[n..];
    assert c.kernel + msg[..n] + [] == c.kernel + msg[..n];
  }

  lemma Handed(kernel: seq<Byte>, output: seq<Byte>, n: nat, last: seq<Byte>)
    requires n <= |output|
    ensures kernel + output[..n] + output[n..] == kernel + output
    ensures Suffix(output, last) ==> Suffix(output[n..], last)
  {
  }

  lemma DrainKeepsInv(c: Conn, w: WriteResult)
    requires Inv(c) && (c.writing || c.phase == Disconnected)
    ensures Inv(Drain(c, w))
  {
    if w.Wrote? && c.phase != Disconnected {
      var n := if w.n < |c.output| then w.n else |c.output|;
      Handed(c.kernel, c.output, n, c.accepted[|c.accepted| - 1]);
      if n == |c.output| {
        assert c.output[n..] == [];
      }
    }
  }

  lemma ClosedDrainsNothing(c: Conn, w: WriteResult)
    ensures c.phase == Disconnected ==> Drain(c, w) == c
  {
  }

  lemma TaskKeepsInv(c: Conn, w: WriteResult)
    requires Inv(c) && c.tasks != []
    ensures Inv(RunFirst(c, w))
  {
    hide SendInLoop;
    var d := c.(tasks := c.tasks[1..]);
    assert Inv(d);
    if c.tasks[0].SendTask? {
      SendKeepsInv(d, c.tasks[0].msg, w);
    } else if c.tasks[0].ForceCloseTask? {
      assert Inv(Close(d));
    }
  }

  lemma NextKeepsInv(c: Conn, e: Event)
    requires Inv(c)
    ensures Inv(Next(c, e))
  {
    match e
    case Send(msg, inLoop, w) => SendKeepsInv(c, msg, w);
    case RunNext(w) =>
      if c.tasks != [] {
        TaskKeepsInv(c, w);
      }
    case HandleWrite(w) =>
      if c.writing || c.phase == Disconnected {
        DrainKeepsInv(c, w);
      }
    case _ =>
  }

  lemma {:induction false} ContinueKeepsInv(c: Conn, es: seq<Event>)
    requires Inv(c)
    ensures Inv(Continue(c, es))
  {
    if es != [] {
      ContinueKeepsInv(c, es[..|es| - 1]);
      NextKeepsInv(Continue(c, es[..|es| - 1]), es[|es| - 1]);
    }
  }

  // ---------------------------------------------------------------- main results, for every run

  /** Nothing is lost, repeated or reordered between accepting a message and the kernel. */
  lemma {:induction false} OutputConserved(config: Config, es: seq<Event>)
    ensures var c := Continue(Init(config), es);
      && c.kernel + c.output == Flatten(c.accepted)
      && (c.output != [] ==> c.accepted != [] && Suffix(c.output, c.accepted[|c.accepted| - 1]))
      && c.completions == (if config.notifies then Delivered(c) else 0)
  {
    assert Flatten<Byte>([]) == [];
    ContinueKeepsInv(Init(config), es);
    ConfigFixed(Init(config), es);
  }

  lemma ConfigNext(c: Conn, e: Event)
    ensures Next(c, e).config == c.config
  {
  }

  lemma {:induction false} ConfigFixed(c: Conn, es: seq<Event>)
    ensures Continue(c, es).config == c.config
  {
    if es != [] {
      ConfigFixed(c, es[..|es| - 1]);
      ConfigNext(Continue(c, es[..|es| - 1]), es[|es| - 1]);
    }
  }

  /** What happens to the histories between two moments of a run. */
  ghost predicate Later(c: Conn, d: Conn) {
    && Rank(c.phase) <= Rank(d.phase)
    && c.accepted <= d.accepted && c.kernel <= d.kernel
    && c.backlogs <= d.backlogs && (c.halfClosed ==> d.halfClosed)
    && (c.backlogs > 0 || c.phase != Connected ==> d.accepted == c.accepted)
    && (c.halfClosed ==> d.kernel == c.kernel)
  }

  lemma LaterSend(c: Conn, d: Conn, msg: seq<Byte>, w: WriteResult)
    requires Inv(d) && Later(c, d)
    ensures Later(c, SendInLoop(d, msg, w))
  {
    hide Flatten, Suffix, Delivered;
    if d.phase == Connected && d.output == [] {
      assert d.backlogs == 0 && c.backlogs == 0 && c.phase == Connected && !d.halfClosed;
    }
  }

  lemma LaterDrain(c: Conn, d: Conn, w: WriteResult)
    requires Later(c, d) && (d.halfClosed ==> d.output == [])
    ensures Later(c, Drain(d, w))
  {
    if w.Wrote? && d.phase != Disconnected {
      var n := if w.n < |d.output| then w.n else |d.output|;
      assert c.kernel <= d.kernel + d.output[..n];
      assert c.halfClosed ==> d.kernel + d.output[..n] == c.kernel by { assert d.kernel + [] == d.kernel; }
    }
  }

  lemma ShutMeansEmpty(d: Conn)
    requires Inv(d)
    ensures d.halfClosed ==> d.output == []
  {
  }

  lemma LaterTask(c: Conn, d: Conn, w: WriteResult)
    requires Inv(d) && Later(c, d) && d.tasks != []
    ensures Later(c, RunFirst(d, w))
  {
    hide SendInLoop, Inv;
    if d.tasks[0].SendTask? {
      DequeuedKeepsInv(d);
      LaterSend(c, d.(tasks := d.tasks[1..]), d.tasks[0].msg, w);
    }
  }

  lemma LaterNext(c: Conn, d: Conn, e: Event)
    requires Inv(d) && Later(c, d)
    ensures Later(c, Next(d, e))
  {
    hide SendInLoop, Drain, RunFirst, Inv;
    match e
    case Send(msg, inLoop, w) => LaterSend(c, d, msg, w);
    case RunNext(w) =>
      if d.tasks != [] {
        LaterTask(c, d, w);
      }
    case HandleWrite(w) =>
      ShutMeansEmpty(d);
      LaterDrain(c, d, w);
    case _ =>
  }

  lemma {:induction false} HistoryGrows(c: Conn, es: seq<Event>)
    requires Inv(c)
    ensures Later(c, Continue(c, es))
  {
    if es != [] {
      var front := es[..|es| - 1];
      HistoryGrows(c, front);
      ContinueKeepsInv(c, front);
      LaterNext(c, Continue(c, front), es[|es| - 1]);
    }
  }

  /** Fully written messages, then at most one that is buffered, and after that one nothing ever again:
      a send that finds a backlog adds nothing and draining it ends the connection's sending. */
  lemma OneBacklogThenSilence(config: Config, es: seq<Event>, more: seq<Event>)
    ensures var c, d := Continue(Init(config), es), Continue(Continue(Init(config), es), more);
      && c.backlogs <= 1 && c.marked <= 1
      && (c.backlogs == 0 ==> c.kernel == Flatten(c.accepted))
      && (c.backlogs == 1 ==> d.accepted == c.accepted)
      && (c.backlogs == 1 && c.output == [] ==> c.phase != Connected)
  {
    assert Flatten<Byte>([]) == [];
    ContinueKeepsInv(Init(config), es);
    HistoryGrows(Continue(Init(config), es), more);
  }

  /** SHUT_WR is only ever issued when the kernel has every accepted byte, and nothing is written
      after it; the connection state never moves back. */
  lemma {:induction false} GracefulHalfClose(config: Config, es: seq<Event>, more: seq<Event>)
    ensures var c, d := Continue(Init(config), es), Continue(Continue(Init(config), es), more);
      && Rank(c.phase) <= Rank(d.phase)
      && (c.phase != Disconnected ==> (c.writing <==> c.output != []))
      && (c.halfClosed ==> c.kernel == Flatten(c.accepted) && d.kernel == c.kernel && d.accepted == c.accepted && d.halfClosed)
  {
    assert Flatten<Byte>([]) == [];
    ContinueKeepsInv(Init(config), es);
    HistoryGrows(Continue(Init(config), es), more);
    var c := Continue(Init(config), es);
    if c.halfClosed {
      assert c.kernel + c.output == c.kernel;
    }
  }

  /** Exactly when a call of sendInLoop contributes its message. */
  lemma SendContributesIff(c: Conn, msg: seq<Byte>, w: WriteResult)
    requires Inv(c)
    ensures SendInLoop(c, msg, w).accepted == c.accepted + [msg]
      <==> c.phase == Connected && c.output == [] && w != Broken && (w.Wrote? || msg != [])
    ensures SendInLoop(c, msg, w).accepted != c.accepted + [msg] ==> SendInLoop(c, msg, w) == c
  {
    assert |c.accepted + [msg]| != |c.accepted|;
  }

  /** How often a run closes the connection: each hang-up or read of zero bytes, and each forced close
      that finds it open. */
  ghost function Closings(config: Config, es: seq<Event>): nat {
    if es == [] then 0
    else
      Closings(config, es[..|es| - 1])
        + if Closes(Continue(Init(config), es[..|es| - 1]), es[|es| - 1]) then 1 else 0
  }

  predicate Closes(c: Conn, e: Event) {
    e.HandleClose? || (e.RunNext? && c.tasks != [] && c.tasks[0].ForceCloseTask? && c.phase != Disconnected)
  }

  lemma ClosingStep(c: Conn, e: Event)
    ensures Next(c, e).closes == c.closes + if Closes(c, e) then 1 else 0
  {
  }

  lemma {:induction false} ClosesAreClosings(config: Config, es: seq<Event>)
    ensures Continue(Init(config), es).closes == Closings(config, es)
  {
    hide Next;
    if es != [] {
      ClosesAreClosings(config, es[..|es| - 1]);
      ClosingStep(Continue(Init(config), es[..|es| - 1]), es[|es| - 1]);
    }
  }

  predicate Contributes(c: Conn, msg: seq<Byte>, w: WriteResult) {
    c.phase == Connected && c.output == [] && w != Broken && (w.Wrote? || msg != [])
  }

  /** The same for a call of send on the loop thread and for a queued one, in every state of a run. */
  lemma SendsContributeIff(c: Conn, msg: seq<Byte>, w: WriteResult)
    requires Inv(c)
    ensures Next(c, Send(msg, true, w)).accepted == c.accepted + [msg] <==> Contributes(c, msg, w)
    ensures c.tasks != [] && c.tasks[0] == SendTask(msg) ==>
      (Next(c, RunNext(w)).accepted == c.accepted + [msg] <==> Contributes(c, msg, w))
    ensures c.tasks != [] && c.tasks[0] == SendTask(msg) ==>
      Next(c, RunNext(w)).accepted == c.accepted || Next(c, RunNext(w)).accepted == c.accepted + [msg]
  {
    hide SendInLoop, Inv;
    SendContributesIff(c, msg, w);
    assert |c.accepted + [msg]| != |c.accepted|;
    if c.tasks != [] {
      DequeuedKeepsInv(c);
      SendContributesIff(c.(tasks := c.tasks[1..]), msg, w);
    }
  }

  lemma DequeuedKeepsInv(c: Conn)
    requires Inv(c) && c.tasks != []
    ensures Inv(c.(tasks := c.tasks[1..]))
  {
  }

  // ---------------------------------------------------------------- what the queue of tasks is for

  ghost function QueuedSends(tasks: seq<Task>): seq<seq<Byte>> {
    if tasks == [] then []
    else QueuedSends(tasks[..|tasks| - 1]) + MessageOf(tasks[|tasks| - 1])
  }

  function MessageOf(t: Task): seq<seq<Byte>> { if t.SendTask? then [t.msg] else [] }

  lemma {:induction false} QueuedBoth(a: seq<Task>, b: seq<Task>)
    ensures QueuedSends(a + b) == QueuedSends(a) + QueuedSends(b)
  {
    if b == [] {
      assert a + b == a;
    } else {
      var front := b[..|b| - 1];
      assert (a + b)[..|a + b| - 1] == a + front;
      QueuedBoth(a, front);
    }
  }

  lemma QueuedOne(t: Task)
    ensures QueuedSends([t]) == MessageOf(t)
  {
    assert [t][..0] == [];
  }

  /** The messages that other threads sent while the connection was connected. */
  ghost function OffLoopSends(config: Config, es: seq<Event>): seq<seq<Byte>> {
    if es == [] then []
    else
      var c, e := Continue(Init(config), es[..|es| - 1]), es[|es| - 1];
      OffLoopSends(config, es[..|es| - 1]) + if e.Send? && !e.inLoop && c.phase == Connected then [e.msg] else []
  }

  /** The messages whose queued sendInLoop the loop has run. */
  ghost function RanSends(config: Config, es: seq<Event>): seq<seq<Byte>> {
    if es == [] then []
    else
      var c, e := Continue(Init(config), es[..|es| - 1]), es[|es| - 1];
      RanSends(config, es[..|es| - 1]) + if e.RunNext? && c.tasks != [] then MessageOf(c.tasks[0]) else []
  }

  /** Every message another thread sends is queued, and runs, once and in order: in every run the messages
      whose turn has come, then those still queued, are the messages sent. */
  lemma {:induction false} OffLoopSendsRunInOrder(config: Config, es: seq<Event>)
    ensures RanSends(config, es) + QueuedSends(Continue(Init(config), es).tasks) == OffLoopSends(config, es)
  {
    hide Next, QueuedSends, MessageOf;
    if es == [] {
      NothingQueued(config);
    } else {
      var front, e := es[..|es| - 1], es[|es| - 1];
      var c := Continue(Init(config), front);
      OffLoopSendsRunInOrder(config, front);
      QueueStep(c, e);
      MovesOver(RanSends(config, front), QueuedSends(c.tasks), if e.RunNext? && c.tasks != [] then MessageOf(c.tasks[0]) else [],
                if e.Send? && !e.inLoop && c.phase == Connected then [e.msg] else [], QueuedSends(Next(c, e).tasks));
    }
  }

  lemma NothingQueued(config: Config)
    ensures QueuedSends(Init(config).tasks) == []
  {
  }

  lemma MovesOver<T>(ran: seq<T>, was: seq<T>, head: seq<T>, sent: seq<T>, now: seq<T>)
    requires was + sent == head + now
    ensures (ran + was) + sent == (ran + head) + now
  {
    assert (ran + was) + sent == ran + (was + sent);
    assert (ran + head) + now == ran + (head + now);
  }

  /** What one event takes from the front of the queued messages and adds behind them. */
  lemma QueueStep(c: Conn, e: Event)
    ensures QueuedSends(c.tasks) + (if e.Send? && !e.inLoop && c.phase == Connected then [e.msg] else [])
      == (if e.RunNext? && c.tasks != [] then MessageOf(c.tasks[0]) else []) + QueuedSends(Next(c, e).tasks)
  {
    hide QueuedSends, MessageOf;
    var more := TasksAdded(c, e);
    if e.RunNext? && c.tasks != [] {
      QueuedBoth([c.tasks[0]], c.tasks[1..]);
      QueuedOne(c.tasks[0]);
      QueuedBoth(c.tasks[1..], more);
      assert [c.tasks[0]] + c.tasks[1..] == c.tasks;
    } else {
      QueuedBoth(c.tasks, more);
    }
  }

  /** The loop runs tasks first in, first out: an event takes at most the first task and adds behind the
      others, a message only for an off-loop send. */
  lemma TasksAdded(c: Conn, e: Event) returns (more: seq<Task>)
    ensures Next(c, e).tasks == (if e.RunNext? && c.tasks != [] then c.tasks[1..] else c.tasks) + more
    ensures QueuedSends(more) == if e.Send? && !e.inLoop && c.phase == Connected then [e.msg] else []
  {
    var kept := if e.RunNext? && c.tasks != [] then c.tasks[1..] else c.tasks;
    hide QueuedSends;
    more := Next(c, e).tasks[|kept|..];
    AddsAtMostOne(c, e, kept);
    if more == [] {
      NothingIsQueued();
    } else {
      QueuedOne(more[0]);
    }
  }

  lemma NothingIsQueued()
    ensures QueuedSends([]) == []
  {
  }

  lemma AddsAtMostOne(c: Conn, e: Event, kept: seq<Task>)
    requires kept == if e.RunNext? && c.tasks != [] then c.tasks[1..] else c.tasks
    ensures var t := Next(c, e).tasks;
      t == kept || (|t| == |kept| + 1 && t[..|kept|] == kept && t[|kept|..] == [t[|kept|]]
        && (t[|kept|].SendTask? <==> e.Send? && !e.inLoop && c.phase == Connected)
        && (t[|kept|].SendTask? ==> t[|kept|].msg == e.msg))
    ensures e.Send? && !e.inLoop && c.phase == Connected ==> Next(c, e).tasks != kept
  {
    hide SendInLoop, Drain, ShutdownInLoop;
    match e
    case Send(msg, inLoop, w) => SendAddsNoMessage(c, msg, w);
    case RunNext(w) =>
      if c.tasks != [] && c.tasks[0].SendTask? {
        SendAddsNoMessage(c.(tasks := kept), c.tasks[0].msg, w);
      }
      ShutdownAddsNothing(c.(tasks := kept));
    case Shutdown(_) => ShutdownAddsNothing(c.(phase := Disconnecting));
    case HandleWrite(w) => DrainAddsNoMessage(c, w);
    case _ =>
  }

  ghost predicate OneOther(kept: seq<Task>, t: seq<Task>) {
    t == kept || (|t| == |kept| + 1 && t[..|kept|] == kept && t[|kept|..] == [t[|kept|]] && !t[|kept|].SendTask?)
  }

  lemma SendAddsNoMessage(c: Conn, msg: seq<Byte>, w: WriteResult)
    ensures OneOther(c.tasks, SendInLoop(c, msg, w).tasks)
  {
  }

  lemma DrainAddsNoMessage(c: Conn, w: WriteResult)
    ensures OneOther(c.tasks, Drain(c, w).tasks)
  {
  }

  lemma ShutdownAddsNothing(c: Conn)
    ensures ShutdownInLoop(c).tasks == c.tasks
  {
  }

  /** Those of them that were accepted. */
  ghost function AcceptedOffLoop(config: Config, es: seq<Event>): seq<seq<Byte>> {
    if es == [] then []
    else
      var c, e := Continue(Init(config), es[..|es| - 1]), es[|es| - 1];
      AcceptedOffLoop(config, es[..|es| - 1])
        + if e.RunNext? && c.tasks != [] && Next(c, e).accepted != c.accepted then MessageOf(c.tasks[0]) else []
  }

  /** No queued message meets a broken pipe, and no empty one a socket that would block. */
  ghost predicate Smooth(config: Config, es: seq<Event>) {
    es == [] ||
    var c, e := Continue(Init(config), es[..|es| - 1]), es[|es| - 1];
    && Smooth(config, es[..|es| - 1])
    && (e.RunNext? && c.tasks != [] && c.tasks[0].SendTask? ==> e.w != Broken && (e.w.Wrote? || c.tasks[0].msg != []))
  }

  /** As long as the connection stays connected without a backlog, every message another thread sends is
      accepted or still queued, in order. */
  lemma {:induction false} OffLoopSendsAccepted(config: Config, es: seq<Event>)
    requires Smooth(config, es)
    requires Continue(Init(config), es).phase == Connected && Continue(Init(config), es).backlogs == 0
    ensures AcceptedOffLoop(config, es) == RanSends(config, es)
    ensures AcceptedOffLoop(config, es) + QueuedSends(Continue(Init(config), es).tasks) == OffLoopSends(config, es)
  {
    hide Next, QueuedSends, MessageOf, Inv, OffLoopSends;
    OffLoopSendsRunInOrder(config, es);
    if es != [] {
      var front, e := es[..|es| - 1], es[|es| - 1];
      StillOpen(config, front, e);
      OffLoopSendsAccepted(config, front);
      var c := Continue(Init(config), front);
      if e.RunNext? && c.tasks != [] {
        if c.tasks[0].SendTask? {
          SendsContributeIff(c, c.tasks[0].msg, e.w);
          assert |c.accepted + [c.tasks[0].msg]| != |c.accepted|;
        } else {
          NoMessage(c.tasks[0]);
        }
      }
    }
  }

  lemma NoMessage(t: Task)
    ensures !t.SendTask? ==> MessageOf(t) == []
  {
  }

  /** A run that is still connected and without a backlog was so before its last event. */
  lemma StillOpen(config: Config, front: seq<Event>, e: Event)
    requires Next(Continue(Init(config), front), e).phase == Connected && Next(Continue(Init(config), front), e).backlogs == 0
    ensures var c := Continue(Init(config), front); Inv(c) && c.phase == Connected && c.backlogs == 0 && c.output == []
  {
    hide Next, Continue;
    assert Flatten<Byte>([]) == [];
    ContinueKeepsInv(Init(config), front);
    LaterNext(Continue(Init(config), front), Continue(Init(config), front), e);
  }

  // ---------------------------------------------------------------- what shutdown and forceClose are for

  ghost predicate Promised(c: Conn) {
    c.phase == Disconnecting && c.output == [] ==> c.halfClosed || ShutdownTask in c.tasks || ForceCloseTask in c.tasks
  }

  lemma NextKeepsPromise(c: Conn, e: Event)
    requires Inv(c) && Promised(c)
    ensures Promised(Next(c, e))
  {
    hide Flatten, Suffix, Delivered;
    if e.RunNext? && c.tasks != [] {
      assert c.tasks == [c.tasks[0]] + c.tasks[1..];
    }
  }

  lemma {:induction false} ContinueKeepsPromise(config: Config, es: seq<Event>)
    ensures Inv(Continue(Init(config), es)) && Promised(Continue(Init(config), es))
  {
    hide Next, Inv, Promised;
    StartsPromised(config);
    if es != [] {
      ContinueKeepsPromise(config, es[..|es| - 1]);
      NextKeepsInv(Continue(Init(config), es[..|es| - 1]), es[|es| - 1]);
      NextKeepsPromise(Continue(Init(config), es[..|es| - 1]), es[|es| - 1]);
    }
  }

  lemma StartsPromised(config: Config)
    ensures Inv(Init(config)) && Promised(Init(config))
  {
    assert Flatten<Byte>([]) == [];
  }

  /** SHUT_WR does get issued: in every run a connection that is disconnecting with nothing left to write
      has issued it, or the task that will, or a forced close, is still queued. */
  lemma HalfCloseIsIssued(config: Config, es: seq<Event>)
    ensures var c := Continue(Init(config), es);
      c.phase == Disconnecting && c.output == [] ==> c.halfClosed || ShutdownTask in c.tasks || ForceCloseTask in c.tasks
  {
    ContinueKeepsPromise(config, es);
  }

  /** The turns of the loop that run the next tasks of this connection. */
  function Turns(ws: seq<WriteResult>): (es: seq<Event>)
    ensures |es| == |ws| && forall k :: 0 <= k < |ws| ==> es[k] == RunNext(ws[k])
  {
    if ws == [] then [] else Turns(ws[..|ws| - 1]) + [RunNext(ws[|ws| - 1])]
  }

  /** A forced close takes effect as soon as the loop has run what was queued before it, and it. */
  lemma {:induction false} ForcedCloseTakesEffect(c: Conn, ws: seq<WriteResult>)
    requires c.phase != Disconnected && |ws| == |c.tasks| + 1
    ensures Next(c, ForceClose).phase == Disconnecting
    ensures Continue(Next(c, ForceClose), Turns(ws)).phase == Disconnected
  {
    QueuedCloseRuns(Next(c, ForceClose), |c.tasks|, ws);
  }

  lemma {:induction false} QueuedCloseRuns(c: Conn, k: nat, ws: seq<WriteResult>)
    requires k < |c.tasks| && c.tasks[k] == ForceCloseTask && |ws| <= k + 1
    ensures var d := Continue(c, Turns(ws));
      if |ws| == k + 1 then d.phase == Disconnected else k - |ws| < |d.tasks| && d.tasks[k - |ws|] == ForceCloseTask
    decreases |ws|
  {
    hide Next, QueuedSends, MessageOf;
    if ws != [] {
      var front, w := ws[..|ws| - 1], ws[|ws| - 1];
      QueuedCloseRuns(c, k, front);
      assert Turns(ws)[..|Turns(ws)| - 1] == Turns(front);
      var d := Continue(c, Turns(front));
      var more := TasksAdded(d, RunNext(w));
      CloseRuns(d, w);
    }
  }

  lemma CloseRuns(c: Conn, w: WriteResult)
    ensures c.tasks != [] && c.tasks[0] == ForceCloseTask ==> Next(c, RunNext(w)).phase == Disconnected
  {
  }

  /** A message sent from another thread and then followed by shutdown() never reaches the kernel: the
      queued send finds the connection already disconnecting. */
  lemma ShutdownOvertakesQueuedSend(config: Config, msg: seq<Byte>, w: WriteResult, inLoop: bool, more: seq<Event>)
    ensures var c := Next(Next(Init(config), Send(msg, false, w)), Shutdown(inLoop));
      Continue(c, more).accepted == [] && Continue(c, more).kernel == []
  {
    assert Flatten<Byte>([]) == [];
    var c0 := Init(config);
    NextKeepsInv(c0, Send(msg, false, w));
    var c1 := Next(c0, Send(msg, false, w));
    NextKeepsInv(c1, Shutdown(inLoop));
    var c := Next(c1, Shutdown(inLoop));
    HistoryGrows(c, more);
    ContinueKeepsInv(c, more);
    var d := Continue(c, more);
    assert |d.kernel + d.output| == 0;
  }
}

/** What one call, handler or task does to what can be seen of a connection, in plain terms. */
module ConnEffects {
  import opened Bytes
  import opened LogBuffers
  import opened P = ConnProtocol

  datatype Face = Face(state: Phase, writing: bool, output: seq<Byte>, queued: seq<Task>, wire: seq<Byte>, shutWr: bool)

  function FaceOf(c: Conn): Face {
    Face(c.phase, c.writing, c.output, c.tasks, c.kernel, c.halfClosed)
  }

  function Least(a: nat, b: nat): nat { if a < b then a else b }

  /** The callback queued for `rest` bytes kept, if its mark is reached. */
  function Marked(config: Config, rest: nat): seq<Task> {
    if config.marks && 0 < config.highWaterMark <= rest then [HighWater(rest)] else []
  }

  function Completed(config: Config): seq<Task> {
    if config.notifies then [WriteComplete] else []
  }

  /** sendInLoop: with no backlog the socket takes a prefix and the rest is kept; else nothing happens. */
  ghost predicate Sends(config: Config, data: seq<Byte>, w: WriteResult, f: Face, g: Face) {
    if f.state != Connected || f.writing || f.output != [] then g == f
    else match w
      case Broken => g == f
      case WouldBlock => g == f.(output := data, writing := data != [], queued := f.queued + Marked(config, |data|))
      case Wrote(n) =>
        var k := Least(n, |data|);
        && g.wire == f.wire + data[..k] && g.output == data[k..] && (g.writing <==> k < |data|)
        && g.state == f.state && g.shutWr == f.shutWr
        && g.queued == f.queued + (if k == |data| then Completed(config) else Marked(config, |data| - k))
  }

  lemma SendHasItsEffect(c: Conn, data: seq<Byte>, w: WriteResult)
    ensures Sends(c.config, data, w, FaceOf(c), FaceOf(P.SendInLoop(c, data, w)))
  {
    if c.output == [] {
      assert c.output + data == data && c.tasks + [] == c.tasks;
      if w.Wrote? {
        assert c.output + data[Least(w.n, |data|)..] == data[Least(w.n, |data|)..];
      }
    }
  }

  /** handleWrite: the socket takes a prefix of the backlog, and when that was all of it the connection
      stops asking for writability, is disconnecting, and SHUT_WR is issued. */
  ghost predicate Drains(config: Config, w: WriteResult, f: Face, g: Face) {
    if f.state == Disconnected || !w.Wrote? then g == f
    else
      var k := Least(w.n, |f.output|);
      && g.wire == f.wire + f.output[..k] && g.output == f.output[k..]
      && (k < |f.output| ==> g.state == f.state && g.writing == f.writing && g.queued == f.queued && g.shutWr == f.shutWr)
      && (k == |f.output| ==> g.state == Disconnecting && !g.writing && g.queued == f.queued + Completed(config) && g.shutWr)
  }

  lemma DrainHasItsEffect(c: Conn, w: WriteResult)
    ensures Drains(c.config, w, FaceOf(c), FaceOf(Drain(c, w)))
  {
    assert c.tasks + [] == c.tasks;
  }

  /** SHUT_WR is issued unless the connection is closed or still has something to write. */
  function HalfClosed(f: Face): Face {
    f.(shutWr := f.shutWr || (f.state != Disconnected && !f.writing))
  }

  ghost predicate Shuts(inLoop: bool, f: Face, g: Face) {
    if f.state != Connected then g == f
    else if inLoop then g == HalfClosed(f.(state := Disconnecting))
    else g == f.(state := Disconnecting, queued := f.queued + [ShutdownTask])
  }

  ghost predicate ForcesClose(f: Face, g: Face) {
    if f.state == Disconnected then g == f else g == f.(state := Disconnecting, queued := f.queued + [ForceCloseTask])
  }

  ghost predicate Runs(config: Config, w: WriteResult, f: Face, g: Face)
    requires f.queued != []
  {
    var rest := f.(queued := f.queued[1..]);
    match f.queued[0]
    case SendTask(msg) => Sends(config, msg, w, rest, g)
    case ShutdownTask => g == HalfClosed(rest)
    case ForceCloseTask => g == if rest.state == Disconnected then rest else rest.(state := Disconnected, writing := false)
    case _ => g == rest
  }

  /** Every event of a run has exactly its effect. */
  lemma NextHasItsEffect(c: Conn, e: Event)
    ensures var f, g := FaceOf(c), FaceOf(Next(c, e));
      match e
      case Send(msg, inLoop, w) =>
        if inLoop then Sends(c.config, msg, w, f, g)
        else g == if f.state == Connected then f.(queued := f.queued + [SendTask(msg)]) else f
      case Shutdown(inLoop) => Shuts(inLoop, f, g)
      case ForceClose => ForcesClose(f, g)
      case RunNext(w) => if f.queued == [] then g == f else Runs(c.config, w, f, g)
      case HandleWrite(w) => if f.writing || f.state == Disconnected then Drains(c.config, w, f, g) else g == f
      case HandleClose => g == f.(state := Disconnected, writing := false)
  {
    hide Sends, Drains, P.SendInLoop, Drain;
    match e
    case Send(msg, inLoop, w) =>
      SendHasItsEffect(c, msg, w);
      NothingSent(c, msg, w);
    case RunNext(w) =>
      if c.tasks != [] && c.tasks[0].SendTask? {
        SendHasItsEffect(c.(tasks := c.tasks[1..]), c.tasks[0].msg, w);
      }
    case HandleWrite(w) => DrainHasItsEffect(c, w);
    case _ =>
  }

  lemma NothingSent(c: Conn, msg: seq<Byte>, w: WriteResult)
    ensures c.phase != Connected ==> Sends(c.config, msg, w, FaceOf(c), FaceOf(c))
  {
  }
}

/** The connection object itself, over the real buffer and channel. */
module TcpConnections {
  import opened Bytes
  import opened Buffers
  import opened LogBuffers
  import opened Masks
  import opened Interest
  import opened Channels
  import opened P = ConnProtocol
  import opened ConnEffects

  class TcpConnection {
    const config: Config
    const channel: Channel
    const outputBuffer: Buffer
    var state: Phase
    var queued: seq<Task>        // this connection's share of the loop's pendingTasks_
    var wire: seq<Byte>          // what the socket has taken
    var shutWr: bool             // ::shutdown(SHUT_WR) has been called
    ghost var history: Conn

    /** The object's own state is that of `c`. */
    ghost predicate Shows(c: Conn)
      reads this, channel, channel.poller, outputBuffer, outputBuffer.data
    {
      && channel.Valid() && outputBuffer.Valid()
      && c.config == config && c.phase == state && c.tasks == queued
      && c.writing == channel.IsWriting() && c.output == outputBuffer.Contents()
      && c.kernel == wire && c.halfClosed == shutWr
      && (c.closes == 0 ==> channel.IsReading())
      && (c.closes > 0 ==> channel.events == NONE_EVENT && channel.pooling == (c.closes % 2 == 0))
    }

    /** Whether the kernel still watches the descriptor. */
    ghost predicate Registered()
      reads channel, channel.poller
    {
      channel.fd in channel.poller.kernel
    }

    /** After an odd number of closes the descriptor is out of the kernel's set; a further handleClose, as
        when a hang-up and a read of zero bytes come in one event, puts it back, with an empty mask. */
    lemma RegisteredIff()
      requires Valid()
      ensures Registered() <==> history.closes % 2 == 0
    {
      WantedIsNotNone(channel.events);
    }

    ghost predicate Valid()
      reads this, channel, channel.poller, outputBuffer, outputBuffer.data
    {
      Inv(history) && Shows(history)
    }

    /** What can be seen of the connection. */
    function Visible(): Face
      requires outputBuffer.Valid()
      reads this, channel, outputBuffer, outputBuffer.data
    {
      Face(state, channel.IsWriting(), outputBuffer.Contents(), queued, wire, shutWr)
    }

    /** Construction, then `connectEstablished`. */
    constructor (config: Config, poller: EPoller, fd: Fd)
      requires fd !in poller.kernel
      modifies poller
      ensures Valid() && history == Init(config) && channel.IsReading()
      ensures Visible() == Face(Connected, false, [], [], [], false)
      ensures fd in poller.kernel && fresh(channel) && fresh(outputBuffer) && fresh(outputBuffer.data)
    {
      this.config := config;
      state, queued, wire, shutWr := Connected, [], [], false;
      var chan := new Channel(poller, fd);
      channel := chan;
      var out := new Buffer(INITIAL_SIZE);
      outputBuffer := out;
      history := Init(config);
      new;
      assert Flatten<Byte>([]) == [];
      channel.EnableReading();
    }

    /** The buffering branch of `sendInLoop`. */
    method KeepRest(rest: seq<Byte>, ghost c: Conn)
      requires Shows(c) && c.closes == 0 && !c.writing && c.output == [] && rest != []
      modifies this`queued, channel, channel.poller, outputBuffer, outputBuffer.data
      ensures Shows(Keep(c, rest)) && (outputBuffer.data == old(outputBuffer.data) || fresh(outputBuffer.data))
    {
      var oldLen, remain := outputBuffer.ReadableBytes(), |rest|;
      if oldLen + remain >= config.highWaterMark && oldLen < config.highWaterMark && config.marks {
        queued := queued + [HighWater(oldLen + remain)];
      }
      outputBuffer.Append(rest);
      if !channel.IsWriting() {
        channel.EnableWriting();
      }
    }

    method SendInLoop(data: seq<Byte>, w: WriteResult)
      requires Valid()
      modifies this, channel, channel.poller, outputBuffer, outputBuffer.data
      ensures Valid() && (outputBuffer.data == old(outputBuffer.data) || fresh(outputBuffer.data))
      ensures history == P.SendInLoop(old(history), data, w)
      ensures Sends(config, data, w, old(Visible()), Visible())
    {
      SendHasItsEffect(history, data, w);
      SendKeepsInv(history, data, w);
      if state != Connected {
        return;
      }
      if !channel.IsWriting() && outputBuffer.ReadableBytes() == 0 {
        WriteOrKeep(data, w, history);
        history := P.SendInLoop(history, data, w);
      }
    }

    /** `sendInLoop` when there is no backlog. */
    method WriteOrKeep(data: seq<Byte>, w: WriteResult, ghost c: Conn)
      requires Shows(c) && c.closes == 0 && c.phase == Connected && !c.writing && c.output == []
      modifies this`queued, this`wire, channel, channel.poller, outputBuffer, outputBuffer.data
      ensures Shows(P.SendInLoop(c, data, w)) && (outputBuffer.data == old(outputBuffer.data) || fresh(outputBuffer.data))
    {
      var nwrote, remain, faultError := 0, |data|, false;
      ghost var d := c.(accepted := c.accepted + [data]);
      match w {
        case Broken => faultError := true;
        case WouldBlock =>
        case Wrote(n) =>
          nwrote := if n < |data| then n else |data|;
          wire := wire + data[..nwrote];
          d := d.(kernel := wire);
          remain := |data| - nwrote;
          if remain == 0 && config.notifies {
            queued := queued + [WriteComplete];
          }
      }
      if !faultError && remain > 0 {
        KeepRest(data[nwrote..], d);
      }
      assert data[0..] == data;
    }

    /** `send`, from the loop thread or from another one. */
    method SendMessage(data: seq<Byte>, isInLoopThread: bool, w: WriteResult)
      requires Valid()
      modifies this, channel, channel.poller, outputBuffer, outputBuffer.data
      ensures Valid() && (outputBuffer.data == old(outputBuffer.data) || fresh(outputBuffer.data))
      ensures history == Next(old(history), Send(data, isInLoopThread, w))
      ensures isInLoopThread ==> Sends(config, data, w, old(Visible()), Visible())
      ensures !isInLoopThread && old(state) == Connected ==> Visible() == old(Visible()).(queued := old(queued) + [SendTask(data)])
      ensures !isInLoopThread && old(state) != Connected ==> Visible() == old(Visible())
    {
      if state != Connected {
        return;
      }
      if isInLoopThread {
        SendInLoop(data, w);
      } else {
        NextKeepsInv(history, Send(data, isInLoopThread, w));
        queued := queued + [SendTask(data)];
        history := Next(history, Send(data, isInLoopThread, w));
      }
    }

    method ShutdownInLoop(ghost c: Conn)
      requires Shows(c)
      modifies this`shutWr
      ensures Shows(P.ShutdownInLoop(c))
    {
      if state != Disconnected && !channel.IsWriting() {
        shutWr := true;
      }
    }

    method Shutdown(isInLoopThread: bool)
      requires Valid()
      modifies this
      ensures Valid() && history == Next(old(history), Event.Shutdown(isInLoopThread))
      ensures Shuts(isInLoopThread, old(Visible()), Visible())
    {
      NextKeepsInv(history, Event.Shutdown(isInLoopThread));
      if state == Connected {
        state := Disconnecting;
        if isInLoopThread {
          ShutdownInLoop(history.(phase := Disconnecting));
        } else {
          queued := queued + [ShutdownTask];
        }
        history := Next(history, Event.Shutdown(isInLoopThread));
      }
    }

    method ForceClose()
      requires Valid()
      modifies this
      ensures Valid() && history == Next(old(history), Event.ForceClose)
      ensures ForcesClose(old(Visible()), Visible())
    {
      NextKeepsInv(history, Event.ForceClose);
      if state != Disconnected {
        state := Disconnecting;
        queued := queued + [ForceCloseTask];
        history := history.(phase := Disconnecting, tasks := queued);
      }
    }

    method HandleClose()
      requires Valid()
      modifies this, channel, channel.poller
      ensures Valid() && history == Next(old(history), Event.HandleClose)
      ensures Visible() == old(Visible()).(state := Disconnected, writing := false) && !channel.IsReading()
    {
      NextKeepsInv(history, Event.HandleClose);
      state := Disconnected;
      channel.DisableAll();
      history := Close(history);
    }

    /** `handleWrite`: epoll reports writability only for a channel that asked, or one just closed. */
    method HandleWrite(w: WriteResult)
      requires Valid() && (channel.IsWriting() || state == Disconnected)
      modifies this, channel, channel.poller, outputBuffer
      ensures Valid() && outputBuffer.data == old(outputBuffer.data)
      ensures history == Next(old(history), Event.HandleWrite(w))
      ensures Drains(config, w, old(Visible()), Visible())
    {
      DrainHasItsEffect(history, w);
      hide Drain, Drains;
      ClosedDrainsNothing(history, w);
      NextKeepsInv(history, Event.HandleWrite(w));
      if state == Disconnected {
        return;
      }
      WriteOut(w, history);
      history := Drain(history, w);
    }

    /** `handleWrite` while the connection is not closed. */
    method WriteOut(w: WriteResult, ghost c: Conn)
      requires Shows(c) && c.closes == 0 && c.phase != Disconnected
      modifies this`queued, this`state, this`wire, this`shutWr, channel, channel.poller, outputBuffer
      ensures Shows(Drain(c, w)) && outputBuffer.data == old(outputBuffer.data)
    {
      var room := outputBuffer.ReadableBytes();
      var accepted := match w case Wrote(n) => Some(if n < room then n else room) case _ => None;
      var n, taken := outputBuffer.WriteFd(accepted);
      if n >= 0 {
        wire := wire + taken;
        outputBuffer.Retrieve(n);
        ghost var d := c.(kernel := c.kernel + c.output[..n], output := c.output[n..]);
        assert Shows(d);
        if outputBuffer.ReadableBytes() == 0 {
          Drained(d);
        }
      }
    }

    /** The end of `handleWrite`, when nothing is left to write. */
    method Drained(ghost d: Conn)
      requires Shows(d) && d.closes == 0
      modifies this`queued, this`state, this`shutWr, channel, channel.poller
      ensures Shows(P.ShutdownInLoop(Notify(d.(writing := false)).(phase := Disconnecting)))
    {
      channel.DisableWriting();
      if config.notifies {
        queued := queued + [WriteComplete];
      }
      state := Disconnecting;   // the condition assigns
      ShutdownInLoop(Notify(d.(writing := false)).(phase := Disconnecting));
    }

    /** The loop runs the first task this connection queued. */
    method RunQueued(w: WriteResult)
      requires Valid() && queued != []
      modifies this, channel, channel.poller, outputBuffer, outputBuffer.data
      ensures Valid() && (outputBuffer.data == old(outputBuffer.data) || fresh(outputBuffer.data))
      ensures history == Next(old(history), RunNext(w))
      ensures Runs(config, w, old(Visible()), Visible())
    {
      hide Inv, Run, Runs;
      NextHasItsEffect(history, RunNext(w));
      DequeuedKeepsInv(history);
      NextKeepsInv(history, RunNext(w));
      var task := queued[0];
      queued := queued[1..];
      history := history.(tasks := queued);
      assert Valid();
      RunTask(task, w);
    }

    method RunTask(task: Task, w: WriteResult)
      requires Valid()
      modifies this, channel, channel.poller, outputBuffer, outputBuffer.data
      ensures Shows(history) && (outputBuffer.data == old(outputBuffer.data) || fresh(outputBuffer.data))
      ensures history == Run(old(history), task, w)
    {
      match task {
        case SendTask(msg) => SendInLoop(msg, w);
        case ShutdownTask =>
          ShutdownInLoop(history);
          history := P.ShutdownInLoop(history);
        case ForceCloseTask =>
          if state != Disconnected {
            HandleClose();
          }
        case WriteComplete =>
        case HighWater(_) =>
      }
    }

    /** One event of a run, done by the method it stands for. */
    method Perform(e: Event)
      requires Valid()
      modifies this, channel, channel.poller, outputBuffer, outputBuffer.data
      ensures Valid() && (outputBuffer.data == old(outputBuffer.data) || fresh(outputBuffer.data))
      ensures history == Next(old(history), e)
    {
      match e {
        case Send(msg, inLoop, w) => SendMessage(msg, inLoop, w);
        case Shutdown(inLoop) => Shutdown(inLoop);
        case ForceClose => ForceClose();
        case RunNext(w) =>
          if queued != [] {
            RunQueued(w);
          }
        case HandleWrite(w) =>
          if channel.IsWriting() || state == Disconnected {
            HandleWrite(w);
          }
        case HandleClose => HandleClose();
      }
    }

    /** Any run of the object is a run of the protocol, so the theorems about runs hold of its socket. */
    method Drive(es: seq<Event>)
      requires Valid() && history == Init(config)
      modifies this, channel, channel.poller, outputBuffer, outputBuffer.data
      ensures Valid() && history == Continue(Init(config), es)
      ensures wire + outputBuffer.Contents() == Flatten(history.accepted)
      ensures shutWr ==> wire == Flatten(history.accepted)
      ensures Registered() <==> history.closes % 2 == 0
    {
      hide Inv, Next;
      for k := 0 to |es|
        invariant Valid() && history == Continue(Init(config), es[..k])
        invariant outputBuffer.data == old(outputBuffer.data) || fresh(outputBuffer.data)
      {
        Perform(es[k]);
        assert es[..k + 1][..k] == es[..k];
      }
      assert es[..|es|] == es;
      OutputConserved(config, es);
      GracefulHalfClose(config, es, []);
      RegisteredIff();
    }
  }
}
