/** The ordered set of (deadline, timer) pairs behind TimerQueue (`std::set<Entry>`). */
module TimerSet {

  type Time = int      // nanoseconds
  type Addr = nat      // address of a Timer object; 0 is the null pointer

  datatype Entry = Entry(when: Time, addr: Addr)

  predicate Less(a: Entry, b: Entry) {
    a.when < b.when || (a.when == b.when && a.addr < b.addr)
  }

  ghost predicate Sorted(ts: seq<Entry>) {
    forall i, j :: 0 <= i < j < |ts| ==> Less(ts[i], ts[j])
  }

  function Insert(ts: seq<Entry>, e: Entry): (r: seq<Entry>)
    ensures forall x :: x in r <==> x in ts || x == e
  {
    if ts == [] || Less(e, ts[0]) then [e] + ts
    else if e == ts[0] then ts
    else [ts[0]] + Insert(ts[1..], e)
  }

  lemma {:induction false} InsertSorted(ts: seq<Entry>, e: Entry)
    requires Sorted(ts)
    ensures Sorted(Insert(ts, e))
    ensures Insert(ts, e)[0] == if ts == [] || Less(e, ts[0]) then e else ts[0]
  {
    if ts != [] && !Less(e, ts[0]) && e != ts[0] {
      InsertSorted(ts[1..], e);
      var r := Insert(ts[1..], e);
      forall k | 0 <= k < |r| ensures Less(ts[0], r[k]) {
        assert r[k] in r;
      }
    }
  }

  function Erase(ts: seq<Entry>, e: Entry): (r: seq<Entry>)
  {
    if ts == [] then [] else if ts[0] == e then ts[1..] else [ts[0]] + Erase(ts[1..], e)
  }

  lemma {:induction false} EraseSorted(ts: seq<Entry>, e: Entry)
    requires Sorted(ts)
    ensures Sorted(Erase(ts, e))
    ensures forall x :: x in Erase(ts, e) <==> x in ts && x != e
    ensures Erase(ts, e) != [] ==> ts != [] && !Less(Erase(ts, e)[0], ts[0])
  {
    if ts != [] {
      assert forall x :: x in ts <==> x == ts[0] || x in ts[1..];
      if ts[0] == e {
        assert e !in ts[1..];
      } else {
        EraseSorted(ts[1..], e);
        var r := Erase(ts[1..], e);
        forall k | 0 <= k < |r| ensures Less(ts[0], r[k]) {
          assert r[k] in r;
        }
      }
    }
  }

  function LowerBound(ts: seq<Entry>, e: Entry): (n: nat)
    ensures n <= |ts|
  {
    if ts == [] || !Less(ts[0], e) then 0 else 1 + LowerBound(ts[1..], e)
  }

  /** `getExpired` cuts the set exactly between the deadlines up to now and the later ones. */
  lemma {:induction false} ExpiredExactly(ts: seq<Entry>, now: Time)
    requires Sorted(ts)
    ensures var n := LowerBound(ts, Entry(now + 1, 0));
      && (forall k :: 0 <= k < |ts| ==> (k < n <==> ts[k].when <= now))
      && Sorted(ts[..n]) && Sorted(ts[n..])
  {
    if ts != [] && Less(ts[0], Entry(now + 1, 0)) {
      ExpiredExactly(ts[1..], now);
      var n := LowerBound(ts, Entry(now + 1, 0));
      assert forall k :: 1 <= k < |ts| ==> ts[k] == ts[1..][k - 1];
    }
  }
}

/** The timer queue as a machine over loop-thread steps, the clock and the kernel's timerfd. */
module TimerProtocol {
  import opened Bytes
  import opened TimerSet

  const MILLISECOND: Time := 1_000_000

  /** A Timer object; `first`, `fired` and `id`, its place in the order of creation, are histories. */
  datatype Timer = Timer(when: Time, interval: int, canceled: bool, first: Time, fired: nat, id: nat) {
    predicate Repeat() { interval > 0 }
  }

  datatype Place = InSet | InBatch(j: nat) | Waiting

  datatype Pc = Idle | Dispatching(now: Time, batch: seq<Entry>, i: nat, running: bool)

  datatype State = State(
    heap: map<Addr, Timer>,      // live Timer objects
    timers: seq<Entry>,
    inserts: map<Addr, Time>,    // insertion closures still in the loop's queue, and the deadlines they captured
    pc: Pc,
    clock: Time,
    expiry: Option<Time>,        // the timerfd: armed for, and readable
    readable: bool,
    lastArm: Time,               // history
    where: map<Addr, Place>,     // history: the one place that holds each live timer
    firedNow: seq<Addr>,         // history: callbacks run by the current or last handleRead
    created: nat,                // history: how many timers there have been
    freed: seq<nat>,             // history: the timers deleted, by id
    fault: bool)                 // a freed object has been used; nothing is promised after that

  function Init(clock: Time): State {
    State(map[], [], map[], Idle, clock, None, false, clock, map[], [], 0, [], false)
  }

  datatype Event =
    | Tick(to: Time)
    | Create(addr: Addr, when: Time, interval: int)   // `new Timer`, on any thread
    | InsertTask(addr: Addr)                          // the closure of addTimer, on the loop thread
    | Cancel(addr: Addr)                              // the closure of cancelTimer, on the loop thread
    | Fire | StartCallback | EndCallback | EndDispatch  // handleRead, step by step

  function Max(a: Time, b: Time): Time { if a < b then b else a }

  /** `timerfdSet`: never sooner than one millisecond from now. */
  function Arm(s: State, when: Time): State {
    s.(expiry := Some(Max(when, s.clock + MILLISECOND)), readable := false, lastArm := s.clock)
  }

  /** The closure of addTimer uses the deadline it captured and does not touch the object. */
  function InsertStep(s: State, addr: Addr): State
    requires addr in s.inserts
  {
    var e := Entry(s.inserts[addr], addr);
    var t := s.(timers := Insert(s.timers, e), inserts := s.inserts - {addr}, where := s.where[addr := InSet]);
    if t.timers != [] && t.timers[0] == e then Arm(t, e.when) else t
  }

  /** The closure of cancelTimer on a live object, whoever else still holds it. */
  function CancelStep(s: State, addr: Addr): State
    requires addr in s.heap
  {
    s.(timers := Erase(s.timers, Entry(s.heap[addr].when, addr)), heap := s.heap - {addr}, where := s.where - {addr},
       freed := s.freed + [s.heap[addr].id])
  }

  function Fault(s: State): State { s.(fault := true) }

  /** How many entries getExpired would take now. */
  function DueCount(s: State): (n: nat)
    ensures n <= |s.timers|
  {
    LowerBound(s.timers, Entry(s.clock + 1, 0))
  }

  function FireStep(s: State): State {
    var n := DueCount(s);
    s.(readable := false, timers := s.timers[n..], firedNow := [],
       pc := Dispatching(s.clock, s.timers[..n], 0, false),
       where := AllAfterSplit(s, n))
  }

  function AllAfterSplit(s: State, n: nat): map<Addr, Place>
    requires n <= |s.timers|
  {
    map a | a in s.where :: WhereAfterSplit(s, n, a)
  }

  function WhereAfterSplit(s: State, n: nat, a: Addr): Place
    requires a in s.where && n <= |s.timers|
  {
    if s.where[a] == InSet && a in s.heap && Entry(s.heap[a].when, a) in s.timers[..n]
    then InBatch(IndexOf(s.timers[..n], Entry(s.heap[a].when, a))) else s.where[a]
  }

  function IndexOf(ts: seq<Entry>, e: Entry): (i: nat)
    ensures e in ts ==> i < |ts| && ts[i] == e
  {
    if ts == [] || ts[0] == e then 0 else 1 + IndexOf(ts[1..], e)
  }

  predicate AtEntry(s: State) {
    s.pc.Dispatching? && s.pc.i < |s.pc.batch| && s.pc.batch[s.pc.i].addr in s.heap
  }

  function StartStep(s: State): State
    requires AtEntry(s)
  {
    var a := s.pc.batch[s.pc.i].addr;
    s.(heap := s.heap[a := s.heap[a].(fired := s.heap[a].fired + 1)],
       firedNow := s.firedNow + [a], pc := s.pc.(running := true))
  }

  /** After the callback: re-insert a periodic timer, delete any other. */
  function EndStep(s: State): State
    requires AtEntry(s)
  {
    var a := s.pc.batch[s.pc.i].addr;
    var timer := s.heap[a];
    var t := s.(pc := s.pc.(running := false, i := s.pc.i + 1));
    if !timer.canceled && timer.Repeat() then
      var next := timer.(when := timer.when + timer.interval);
      t.(heap := s.heap[a := next], timers := Insert(s.timers, Entry(next.when, a)), where := s.where[a := InSet])
    else
      t.(heap := s.heap - {a}, where := s.where - {a}, freed := s.freed + [timer.id])
  }

  function FinishStep(s: State): State {
    var t := s.(pc := Idle);
    if s.timers != [] then Arm(t, s.timers[0].when) else t
  }

  /** The loop thread runs closures when idle or from inside a callback. */
  predicate LoopThreadFree(s: State) {
    s.pc.Idle? || s.pc.running
  }

  /** A batch member that has not been finished yet, or a timer whose insertion is still queued. */
  predicate Held(s: State, addr: Addr) {
    || addr in s.inserts
    || (s.pc.Dispatching? && exists k :: s.pc.i <= k < |s.pc.batch| && s.pc.batch[k].addr == addr)
  }

  /** What can happen next. Nothing asks whether the object behind a pointer is still there, because the
      code does not either. */
  predicate Enabled(s: State, e: Event) {
    && !s.fault
    && match e
       case Tick(to) => to >= s.clock
       case Create(addr, _, _) => addr != 0 && addr !in s.heap
       case InsertTask(addr) => LoopThreadFree(s) && addr in s.inserts
       case Cancel(_) => LoopThreadFree(s)
       case Fire => s.pc.Idle?
       case StartCallback => s.pc.Dispatching? && s.pc.i < |s.pc.batch| && !s.pc.running && !SkipsCallback(s)
       case EndCallback => s.pc.Dispatching? && s.pc.i < |s.pc.batch| && (s.pc.running || SkipsCallback(s))
       case EndDispatch => s.pc.Dispatching? && s.pc.i >= |s.pc.batch|
  }

  predicate SkipsCallback(s: State) {
    AtEntry(s) && s.heap[s.pc.batch[s.pc.i].addr].canceled
  }

  function Next(s: State, e: Event): State {
    if !Enabled(s, e) then s
    else match e
      case Tick(to) =>
        var due := s.expiry.Some? && to >= s.expiry.value;
        s.(clock := to, readable := s.readable || due, expiry := if due then None else s.expiry)
      case Create(addr, when, interval) =>
        s.(heap := s.heap[addr := Timer(when, interval, false, when, 0, s.created)], created := s.created + 1,
           inserts := s.inserts[addr := when], where := s.where[addr := Waiting])
      case InsertTask(addr) => InsertStep(s, addr)
      case Cancel(addr) => if addr in s.heap then CancelStep(s, addr) else Fault(s)
      case Fire => FireStep(s)
      case StartCallback => if AtEntry(s) then StartStep(s) else Fault(s)
      case EndCallback => if AtEntry(s) then EndStep(s) else Fault(s)
      case EndDispatch => FinishStep(s)
  }

  function Continue(s: State, es: seq<Event>): State {
    if es == [] then s else Next(Continue(s, es[..|es| - 1]), es[|es| - 1])
  }

  /** A cancellation is of a live timer that is neither an unfinished batch member nor waiting to be
      inserted. Cancelling is the one thing a caller can do wrong. */
  predicate Permitted(s: State, e: Event) {
    e.Cancel? && LoopThreadFree(s) ==> e.addr in s.heap && !Held(s, e.addr)
  }

  /** Every cancellation of the run is permitted when it happens. */
  ghost predicate Disciplined(s: State, es: seq<Event>) {
    es == [] || (Disciplined(s, es[..|es| - 1]) && Permitted(Continue(s, es[..|es| - 1]), es[|es| - 1]))
  }

  lemma RunOneMore(s: State, es: seq<Event>, e: Event)
    ensures Continue(s, es + [e]) == Next(Continue(s, es), e)
    ensures Disciplined(s, es + [e]) <==> Disciplined(s, es) && Permitted(Continue(s, es), e)
  {
    assert (es + [e])[..|es + [e]| - 1] == es;
  }

  lemma RunOne(s: State, e: Event)
    ensures Continue(s, [e]) == Next(s, e)
    ensures Disciplined(s, [e]) <==> Permitted(s, e)
  {
    assert [] + [e] == [e];
    RunOneMore(s, [], e);
  }

  lemma {:induction false} RunBoth(s: State, a: seq<Event>, b: seq<Event>)
    ensures Continue(s, a + b) == Continue(Continue(s, a), b)
    ensures Disciplined(s, a + b) <==> Disciplined(s, a) && Disciplined(Continue(s, a), b)
    decreases |b|
  {
    if b == [] {
      assert a + b == a;
    } else {
      var front, e := b[..|b| - 1], b[|b| - 1];
      RunBoth(s, a, front);
      assert a + b == (a + front) + [e] && b == front + [e];
      RunOneMore(s, a + front, e);
      RunOneMore(Continue(s, a), front, e);
    }
  }

  datatype Creation = Creation(addr: Addr, when: Time, interval: int)

  /** The arguments of the addTimer calls of a run, in order. */
  ghost function Creations(clock: Time, es: seq<Event>): seq<Creation> {
    if es == [] then []
    else
      var front, e := es[..|es| - 1], es[|es| - 1];
      Creations(clock, front)
        + if e.Create? && Enabled(Continue(Init(clock), front), e) then [Creation(e.addr, e.when, e.interval)] else []
  }

  /** Each timer is the one that its addTimer call asked for: same address, first deadline and interval; and
      an insertion still to run carries that deadline. */
  lemma {:induction false} TimersAreAsCreated(clock: Time, es: seq<Event>)
    ensures var s, cs := Continue(Init(clock), es), Creations(clock, es);
      && |cs| == s.created
      && (forall a :: a in s.heap ==> s.heap[a].id < |cs| && cs[s.heap[a].id] == Creation(a, s.heap[a].first, s.heap[a].interval))
      && (forall a :: a in s.heap && a in s.inserts ==> s.inserts[a] == s.heap[a].first)
  {
    if es != [] {
      var front, e := es[..|es| - 1], es[|es| - 1];
      TimersAreAsCreated(clock, front);
      KeepsArguments(Continue(Init(clock), front), e, Creations(clock, front));
    }
  }

  ghost predicate AsAsked(s: State, cs: seq<Creation>) {
    && |cs| == s.created
    && (forall a :: a in s.heap ==> s.heap[a].id < |cs| && cs[s.heap[a].id] == Creation(a, s.heap[a].first, s.heap[a].interval))
    && (forall a :: a in s.heap && a in s.inserts ==> s.inserts[a] == s.heap[a].first)
  }

  lemma KeepsArguments(s: State, e: Event, cs: seq<Creation>)
    requires AsAsked(s, cs)
    ensures AsAsked(Next(s, e), cs + if e.Create? && Enabled(s, e) then [Creation(e.addr, e.when, e.interval)] else [])
  {
    if e.Create? && Enabled(s, e) {
    } else {
      AddsNoTimer(s, e);
    }
  }

  /** No timer is new, and none has other arguments. */
  ghost predicate SameTimers(s: State, t: State) {
    && t.created == s.created
    && forall a :: a in t.heap ==>
      && a in s.heap && t.heap[a].id == s.heap[a].id && t.heap[a].first == s.heap[a].first && t.heap[a].interval == s.heap[a].interval
      && (a in t.inserts ==> a in s.inserts && t.inserts[a] == s.inserts[a])
  }

  /** Only addTimer makes timers; nothing else changes the arguments they were made with. */
  lemma AddsNoTimer(s: State, e: Event)
    requires !(e.Create? && Enabled(s, e))
    ensures SameTimers(s, Next(s, e))
  {
    hide SameTimers, InsertStep, CancelStep, StartStep, EndStep;
    StaysSame(s);
    if Enabled(s, e) {
      match e
      case InsertTask(addr) => InsertStaysSame(s, addr);
      case Cancel(addr) => if addr in s.heap { CancelStaysSame(s, addr); }
      case StartCallback => if AtEntry(s) { CallbackStaysSame(s); }
      case EndCallback => if AtEntry(s) { CallbackStaysSame(s); }
      case _ => OthersStaySame(s, e);
    }
  }

  lemma StaysSame(s: State)
    ensures SameTimers(s, s) && SameTimers(s, Fault(s))
  {
  }

  lemma InsertStaysSame(s: State, addr: Addr)
    requires addr in s.inserts
    ensures SameTimers(s, InsertStep(s, addr))
  {
    hide Insert;
  }

  lemma CancelStaysSame(s: State, addr: Addr)
    requires addr in s.heap
    ensures SameTimers(s, CancelStep(s, addr))
  {
    hide Erase;
  }

  lemma CallbackStaysSame(s: State)
    requires AtEntry(s)
    ensures SameTimers(s, StartStep(s)) && SameTimers(s, EndStep(s))
  {
    hide Insert;
  }

  lemma OthersStaySame(s: State, e: Event)
    requires Enabled(s, e) && (e.Tick? || e.Fire? || e.EndDispatch?)
    ensures SameTimers(s, Next(s, e))
  {
    hide DueCount, AllAfterSplit;
  }

  // ---------------------------------------------------------------- ownership

  ghost predicate Listed(s: State, e: Entry, p: Place) {
    && e.addr in s.heap && s.heap[e.addr].when == e.when && !s.heap[e.addr].canceled
    && e.addr in s.where && s.where[e.addr] == p
  }

  ghost predicate Ownership(s: State) {
    && s.where.Keys == s.heap.Keys && 0 !in s.heap
    && Sorted(s.timers)
    && (forall e :: e in s.timers ==> Listed(s, e, InSet))
    && (s.pc.Dispatching? ==> s.pc.i <= |s.pc.batch|)
    && (s.pc.Dispatching? ==> forall k :: s.pc.i <= k < |s.pc.batch| ==> Listed(s, s.pc.batch[k], InBatch(k)))
    && (forall a :: a in s.inserts ==> a in s.where && s.where[a] == Waiting && WaitsFor(s, a, s.inserts[a]))
    && (forall a :: a in s.where ==> HeldAt(s, a, s.where[a]))
  }

  ghost predicate WaitsFor(s: State, a: Addr, when: Time)
    requires a in s.heap
  {
    !s.heap[a].canceled && s.heap[a].when == when
  }

  ghost predicate HeldAt(s: State, a: Addr, p: Place)
    requires a in s.heap
  {
    match p
    case InSet => Entry(s.heap[a].when, a) in s.timers
    case InBatch(k) => s.pc.Dispatching? && s.pc.i <= k < |s.pc.batch| && s.pc.batch[k].addr == a
    case Waiting => a in s.inserts
  }

  /** One timer moves into the set; everything else stays where it is. */
  lemma MovesIntoSet(s: State, t: State, addr: Addr)
    requires Ownership(s) && addr in s.inserts
    requires t.heap == s.heap && t.pc == s.pc && t.inserts == s.inserts - {addr} && t.where == s.where[addr := InSet]
    requires t.timers == Insert(s.timers, Entry(s.inserts[addr], addr))
    ensures Ownership(t)
  {
    InsertSorted(s.timers, Entry(s.inserts[addr], addr));
    forall e | e in t.timers ensures Listed(t, e, InSet) {
      if e in s.timers {
        assert Listed(s, e, InSet);
      }
    }
    if s.pc.Dispatching? {
      forall k | s.pc.i <= k < |s.pc.batch| ensures Listed(t, t.pc.batch[k], InBatch(k)) {
        assert Listed(s, s.pc.batch[k], InBatch(k));
      }
    }
    forall a | a in t.where ensures HeldAt(t, a, t.where[a]) {
      assert HeldAt(s, a, s.where[a]);
    }
  }

  lemma InsertKeepsOwnership(s: State, addr: Addr)
    requires Ownership(s) && addr in s.inserts
    ensures Ownership(InsertStep(s, addr))
  {
    MovesIntoSet(s, InsertStep(s, addr), addr);
  }

  lemma CancelKeepsOwnership(s: State, addr: Addr)
    requires Ownership(s) && addr in s.heap && !Held(s, addr)
    ensures Ownership(CancelStep(s, addr))
  {
    var t := CancelStep(s, addr);
    EraseSorted(s.timers, Entry(s.heap[addr].when, addr));
    LeavesTheQueue(s, t, addr);
  }

  /** One timer leaves the set and the heap; everything else stays where it is. */
  lemma LeavesTheQueue(s: State, t: State, addr: Addr)
    requires Ownership(s) && addr in s.heap && !Held(s, addr)
    requires t.heap == s.heap - {addr} && t.where == s.where - {addr} && t.pc == s.pc && t.inserts == s.inserts
    requires Sorted(t.timers) && forall x :: x in t.timers <==> x in s.timers && x != Entry(s.heap[addr].when, addr)
    ensures Ownership(t)
  {
    forall e | e in t.timers ensures Listed(t, e, InSet) {
      assert Listed(s, e, InSet);
    }
    if s.pc.Dispatching? {
      forall k | s.pc.i <= k < |s.pc.batch| ensures Listed(t, t.pc.batch[k], InBatch(k)) {
        assert Listed(s, s.pc.batch[k], InBatch(k));
      }
    }
    forall a | a in t.where ensures HeldAt(t, a, t.where[a]) {
      assert HeldAt(s, a, s.where[a]);
    }
  }

  lemma IndexOfUnique(ts: seq<Entry>, k: nat)
    requires Sorted(ts) && k < |ts|
    ensures IndexOf(ts, ts[k]) == k
  {
    assert ts[k] in ts;
  }

  lemma SortedSplit(ts: seq<Entry>, n: nat, e: Entry)
    requires Sorted(ts) && n <= |ts|
    ensures Sorted(ts[..n]) && Sorted(ts[n..])
    ensures e in ts[..n] ==> e in ts && e !in ts[n..]
    ensures e in ts[n..] ==> e in ts
    ensures e in ts ==> e in ts[..n] || e in ts[n..]
  {
    assert ts == ts[..n] + ts[n..];
  }

  lemma FireKeepsOwnership(s: State)
    requires Ownership(s) && s.pc.Idle?
    ensures Ownership(FireStep(s))
  {
    var n := DueCount(s);
    SplitKeepsOwnership(s, FireStep(s), n);
  }

  /** The first n entries become the batch. */
  lemma SplitKeepsOwnership(s: State, t: State, n: nat)
    requires Ownership(s) && s.pc.Idle? && n <= |s.timers|
    requires t.heap == s.heap && t.inserts == s.inserts && t.timers == s.timers[n..]
    requires t.pc == Dispatching(s.clock, s.timers[..n], 0, false) && t.where.Keys == s.where.Keys
    requires forall a :: a in s.where ==> t.where[a] == WhereAfterSplit(s, n, a)
    ensures Ownership(t)
  {
    hide Listed, HeldAt, WhereAfterSplit;
    SortedSplit(s.timers, n, Entry(0, 0));
    forall k | 0 <= k < n ensures Listed(t, t.pc.batch[k], InBatch(k)) {
      SplitBatch(s, t, n, k);
    }
    forall e | e in t.timers ensures Listed(t, e, InSet) {
      SplitRest(s, t, n, e);
    }
    forall a | a in t.where ensures HeldAt(t, a, t.where[a]) {
      assert HeldAt(s, a, s.where[a]);
      SplitHolds(s, t, n, a);
    }
    forall a | a in t.inserts ensures a in t.where && t.where[a] == Waiting {
      StillWaits(s, n, a);
    }
  }

  lemma StillWaits(s: State, n: nat, a: Addr)
    requires n <= |s.timers| && a in s.where && s.where[a] == Waiting
    ensures WhereAfterSplit(s, n, a) == Waiting
  {
  }

  lemma SplitBatch(s: State, t: State, n: nat, k: nat)
    requires Ownership(s) && k < n <= |s.timers| && t.heap == s.heap && t.where.Keys == s.where.Keys
    requires forall a :: a in s.where ==> t.where[a] == WhereAfterSplit(s, n, a)
    ensures Listed(t, s.timers[..n][k], InBatch(k))
  {
    var e := s.timers[..n][k];
    assert e in s.timers && Listed(s, e, InSet);
    SortedSplit(s.timers, n, e);
    IndexOfUnique(s.timers[..n], k);
  }

  lemma SplitRest(s: State, t: State, n: nat, e: Entry)
    requires Ownership(s) && n <= |s.timers| && e in s.timers[n..] && t.heap == s.heap && t.where.Keys == s.where.Keys
    requires forall a :: a in s.where ==> t.where[a] == WhereAfterSplit(s, n, a)
    ensures Listed(t, e, InSet)
  {
    SortedSplit(s.timers, n, e);
    assert Listed(s, e, InSet);
  }

  lemma SplitHolds(s: State, t: State, n: nat, a: Addr)
    requires Sorted(s.timers) && s.pc.Idle? && n <= |s.timers| && a in s.where && a in s.heap && a in t.where
    requires HeldAt(s, a, s.where[a]) && t.heap == s.heap && t.inserts == s.inserts && t.timers == s.timers[n..]
    requires t.pc == Dispatching(s.clock, s.timers[..n], 0, false) && t.where[a] == WhereAfterSplit(s, n, a)
    ensures HeldAt(t, a, t.where[a])
  {
    SortedSplit(s.timers, n, Entry(s.heap[a].when, a));
  }

  /** The finished batch member goes back into the set with its next deadline. */
  lemma RestartKeepsOwnership(s: State)
    requires Ownership(s) && AtEntry(s) && s.heap[s.pc.batch[s.pc.i].addr].Repeat()
    ensures Ownership(EndStep(s))
  {
    var a := s.pc.batch[s.pc.i].addr;
    MemberIsThere(s);
    RestartShape(s);
    ReturnsToSet(s, EndStep(s), a, s.heap[a].(when := s.heap[a].when + s.heap[a].interval));
  }

  lemma RestartShape(s: State)
    requires AtEntry(s) && s.heap[s.pc.batch[s.pc.i].addr].Repeat() && !s.heap[s.pc.batch[s.pc.i].addr].canceled
    ensures var a, t := s.pc.batch[s.pc.i].addr, EndStep(s); var timer := s.heap[a].(when := s.heap[a].when + s.heap[a].interval);
      && t.heap == s.heap[a := timer] && t.where == s.where[a := InSet] && t.inserts == s.inserts
      && t.timers == Insert(s.timers, Entry(timer.when, a)) && t.pc == s.pc.(running := false, i := s.pc.i + 1)
  {
  }

  lemma ReturnsToSet(s: State, t: State, addr: Addr, timer: Timer)
    requires Ownership(s) && AtEntry(s) && addr == s.pc.batch[s.pc.i].addr
    requires t.heap == s.heap[addr := timer] && t.where == s.where[addr := InSet] && t.inserts == s.inserts && !timer.canceled
    requires t.pc == s.pc.(running := false, i := s.pc.i + 1) && t.timers == Insert(s.timers, Entry(timer.when, addr))
    ensures Ownership(t)
  {
    InsertSorted(s.timers, Entry(timer.when, addr));
    assert Listed(s, s.pc.batch[s.pc.i], InBatch(s.pc.i));
    forall e | e in t.timers ensures Listed(t, e, InSet) {
      if e in s.timers {
        assert Listed(s, e, InSet);
      }
    }
    forall k | t.pc.i <= k < |t.pc.batch| ensures Listed(t, t.pc.batch[k], InBatch(k)) {
      assert Listed(s, s.pc.batch[k], InBatch(k));
    }
    forall a | a in t.where ensures HeldAt(t, a, t.where[a]) {
      ReturnHolds(s, t, addr, a);
    }
  }

  lemma ReturnHolds(s: State, t: State, addr: Addr, a: Addr)
    requires Ownership(s) && AtEntry(s) && addr == s.pc.batch[s.pc.i].addr && a in t.where && addr in t.heap
    requires t.heap == s.heap[addr := t.heap[addr]] && t.where == s.where[addr := InSet] && t.inserts == s.inserts
    requires t.pc == s.pc.(running := false, i := s.pc.i + 1) && t.timers == Insert(s.timers, Entry(t.heap[addr].when, addr))
    ensures HeldAt(t, a, t.where[a])
  {
    if a != addr {
      assert HeldAt(s, a, s.where[a]);
    }
  }

  lemma MemberIsThere(s: State)
    requires Ownership(s) && s.pc.Dispatching? && s.pc.i < |s.pc.batch|
    ensures AtEntry(s) && !s.heap[s.pc.batch[s.pc.i].addr].canceled
  {
    assert Listed(s, s.pc.batch[s.pc.i], InBatch(s.pc.i));
  }

  lemma DeleteKeepsOwnership(s: State)
    requires Ownership(s) && AtEntry(s) && !s.heap[s.pc.batch[s.pc.i].addr].Repeat()
    ensures Ownership(EndStep(s))
  {
    LeavesTheBatch(s, EndStep(s), s.pc.batch[s.pc.i].addr);
  }

  /** The batch member at hand goes; everything else stays where it is. */
  lemma LeavesTheBatch(s: State, t: State, addr: Addr)
    requires Ownership(s) && AtEntry(s) && addr == s.pc.batch[s.pc.i].addr
    requires t.heap == s.heap - {addr} && t.where == s.where - {addr} && t.timers == s.timers && t.inserts == s.inserts
    requires t.pc == s.pc.(running := false, i := s.pc.i + 1)
    ensures Ownership(t)
  {
    assert Listed(s, s.pc.batch[s.pc.i], InBatch(s.pc.i));
    forall e | e in t.timers ensures Listed(t, e, InSet) {
      assert Listed(s, e, InSet);
    }
    forall k | t.pc.i <= k < |t.pc.batch| ensures Listed(t, t.pc.batch[k], InBatch(k)) {
      assert Listed(s, s.pc.batch[k], InBatch(k));
    }
    forall a | a in t.where ensures HeldAt(t, a, t.where[a]) {
      assert HeldAt(s, a, s.where[a]);
    }
  }

  lemma EndKeepsOwnership(s: State)
    requires Ownership(s) && AtEntry(s)
    ensures Ownership(EndStep(s))
  {
    if s.heap[s.pc.batch[s.pc.i].addr].Repeat() {
      RestartKeepsOwnership(s);
    } else {
      DeleteKeepsOwnership(s);
    }
  }

  lemma StartKeepsOwnership(s: State)
    requires Ownership(s) && AtEntry(s)
    ensures Ownership(StartStep(s))
  {
    SamePlaces(s, StartStep(s));
  }

  /** Timers keep their deadlines and their places. */
  lemma SamePlaces(s: State, t: State)
    requires Ownership(s) && t.where == s.where && t.timers == s.timers && t.inserts == s.inserts
    requires t.heap.Keys == s.heap.Keys
    requires forall a :: a in s.heap ==> t.heap[a].when == s.heap[a].when && t.heap[a].canceled == s.heap[a].canceled
    requires s.pc.Dispatching? && t.pc == s.pc.(running := true)
    ensures Ownership(t)
  {
    forall e | e in t.timers ensures Listed(t, e, InSet) {
      assert Listed(s, e, InSet);
    }
    forall k | t.pc.i <= k < |t.pc.batch| ensures Listed(t, t.pc.batch[k], InBatch(k)) {
      assert Listed(s, s.pc.batch[k], InBatch(k));
    }
    forall a | a in t.where ensures HeldAt(t, a, t.where[a]) {
      assert HeldAt(s, a, s.where[a]);
    }
  }

  lemma CreateKeepsOwnership(s: State, addr: Addr, when: Time, interval: int)
    requires Ownership(s) && Enabled(s, Create(addr, when, interval))
    ensures Ownership(Next(s, Create(addr, when, interval)))
  {
    Joins(s, Next(s, Create(addr, when, interval)), addr, Timer(when, interval, false, when, 0, s.created));
  }

  /** A new timer waits; everything else stays where it is. */
  lemma Joins(s: State, t: State, addr: Addr, timer: Timer)
    requires Ownership(s) && addr != 0 && addr !in s.heap && !timer.canceled
    requires t.heap == s.heap[addr := timer] && t.where == s.where[addr := Waiting] && t.timers == s.timers
    requires t.inserts == s.inserts[addr := timer.when] && t.pc == s.pc
    ensures Ownership(t)
  {
    forall e | e in t.timers ensures Listed(t, e, InSet) {
      assert Listed(s, e, InSet);
    }
    if t.pc.Dispatching? {
      forall k | t.pc.i <= k < |t.pc.batch| ensures Listed(t, t.pc.batch[k], InBatch(k)) {
        assert Listed(s, s.pc.batch[k], InBatch(k));
      }
    }
    forall a | a in t.where ensures HeldAt(t, a, t.where[a]) {
      if a != addr {
        assert HeldAt(s, a, s.where[a]);
      }
    }
  }

  lemma NothingMoves(s: State, t: State)
    requires Ownership(s) && t.heap == s.heap && t.where == s.where && t.timers == s.timers && t.inserts == s.inserts && t.pc == s.pc
    ensures Ownership(t)
  {
    forall a | a in t.where ensures HeldAt(t, a, t.where[a]) {
      assert HeldAt(s, a, s.where[a]);
    }
  }

  lemma FinishKeepsOwnership(s: State)
    requires Ownership(s) && s.pc.Dispatching? && s.pc.i >= |s.pc.batch|
    ensures Ownership(FinishStep(s))
  {
    var t := FinishStep(s);
    forall a | a in t.where ensures HeldAt(t, a, t.where[a]) {
      assert HeldAt(s, a, s.where[a]);
    }
  }

  lemma NextKeepsOwnership(s: State, e: Event)
    requires Ownership(s) && Permitted(s, e)
    ensures Ownership(Next(s, e))
  {
    hide Ownership;
    if Enabled(s, e) {
      match e {
        case Create(addr, when, interval) => CreateKeepsOwnership(s, addr, when, interval);
        case InsertTask(addr) => InsertKeepsOwnership(s, addr);
        case Cancel(addr) => CancelKeepsOwnership(s, addr);
        case Fire => FireKeepsOwnership(s);
        case StartCallback =>
          MemberIsThere(s);
          StartKeepsOwnership(s);
        case EndCallback =>
          MemberIsThere(s);
          EndKeepsOwnership(s);
        case Tick(_) => NothingMoves(s, Next(s, e));
        case EndDispatch => FinishKeepsOwnership(s);
      }
    }
  }

  // ---------------------------------------------------------------- deadlines

  ghost predicate RunningNow(s: State, a: Addr) {
    s.pc.Dispatching? && s.pc.running && s.pc.i < |s.pc.batch| && s.pc.batch[s.pc.i].addr == a
  }

  /** The deadline of firing number k + 1. */
  function Deadline(t: Timer, k: int): Time {
    t.first + k * t.interval
  }

  lemma NextDeadline(t: Timer, k: int)
    ensures Deadline(t, k + 1) == Deadline(t, k) + t.interval
  {
  }

  /** Firings whose re-insertion is over. */
  ghost function Finished(s: State, a: Addr): int
    requires a in s.heap
  {
    s.heap[a].fired - if RunningNow(s, a) then 1 else 0
  }

  ghost predicate OnSchedule(s: State, a: Addr)
    requires a in s.heap
  {
    TimerOnSchedule(s.heap[a], Finished(s, a), s.clock)
  }

  ghost predicate Schedule(s: State) {
    && (forall a :: a in s.heap ==> OnSchedule(s, a))
    && (s.pc.Dispatching? ==> s.pc.now <= s.clock && (s.pc.running ==> s.pc.i < |s.pc.batch|))
    && (s.pc.Dispatching? ==> forall k :: 0 <= k < |s.pc.batch| ==> s.pc.batch[k].when <= s.pc.now)
  }

  lemma EarlierDeadline(t: Timer, k: nat)
    requires t.interval <= 0 ==> k == 0
    ensures t.interval <= 0 ==> Deadline(t, k) == t.first
  {
  }

  lemma StartKeepsSchedule(s: State)
    requires Ownership(s) && Schedule(s) && Enabled(s, StartCallback) && AtEntry(s)
    ensures Schedule(StartStep(s))
  {
    var e := s.pc.batch[s.pc.i];
    assert Listed(s, e, InBatch(s.pc.i)) && OnSchedule(s, e.addr);
    EarlierDeadline(s.heap[e.addr], s.heap[e.addr].fired);
    var t := StartStep(s);
    forall a | a in t.heap ensures OnSchedule(t, a) {
      assert OnSchedule(s, a);
    }
  }

  /** The schedule of one timer, given how many of its firings are over. */
  ghost predicate TimerOnSchedule(t: Timer, finished: int, clock: Time) {
    && finished >= 0
    && (t.Repeat() ==> t.when == Deadline(t, finished))
    && (!t.Repeat() ==> t.when == t.first && finished == 0)
    && (t.fired > 0 ==> Deadline(t, t.fired - 1) <= clock)
  }

  lemma RestartOnSchedule(t: Timer, clock: Time)
    requires t.Repeat() && TimerOnSchedule(t, t.fired - 1, clock)
    ensures TimerOnSchedule(t.(when := t.when + t.interval), t.fired, clock)
  {
    NextDeadline(t, t.fired - 1);
  }

  lemma EndOnSchedule(s: State, a: Addr)
    requires AtEntry(s) && s.pc.running && a in s.heap && a in EndStep(s).heap && OnSchedule(s, a)
    ensures OnSchedule(EndStep(s), a)
  {
    if a == s.pc.batch[s.pc.i].addr {
      EndOfCurrent(s);
      RestartOnSchedule(s.heap[a], s.clock);
    } else {
      EndOfOther(s, a);
    }
  }

  lemma EndOfCurrent(s: State)
    requires AtEntry(s) && s.pc.running && s.pc.batch[s.pc.i].addr in EndStep(s).heap
    ensures var a, t := s.pc.batch[s.pc.i].addr, EndStep(s);
      && s.heap[a].Repeat() && t.heap[a] == s.heap[a].(when := s.heap[a].when + s.heap[a].interval)
      && Finished(t, a) == s.heap[a].fired && Finished(s, a) == s.heap[a].fired - 1 && t.clock == s.clock
  {
  }

  lemma EndOfOther(s: State, a: Addr)
    requires AtEntry(s) && s.pc.running && a != s.pc.batch[s.pc.i].addr && a in EndStep(s).heap
    ensures var t := EndStep(s); a in s.heap && t.heap[a] == s.heap[a] && Finished(t, a) == Finished(s, a) && t.clock == s.clock
  {
  }

  lemma EndKeepsSchedule(s: State)
    requires Ownership(s) && Schedule(s) && Enabled(s, EndCallback) && AtEntry(s)
    ensures Schedule(EndStep(s))
  {
    assert Listed(s, s.pc.batch[s.pc.i], InBatch(s.pc.i));
    forall a | a in EndStep(s).heap ensures OnSchedule(EndStep(s), a) {
      assert OnSchedule(s, a);
      EndOnSchedule(s, a);
    }
  }

  /** Steps that run no callback leave each timer's schedule as it is. */
  lemma SameSchedule(s: State, t: State)
    requires Schedule(s) && t.clock >= s.clock && t.pc == s.pc
    requires forall a :: a in t.heap ==> (if a in s.heap then t.heap[a] == s.heap[a] else FreshTimer(t.heap[a]) && !RunningNow(s, a))
    ensures Schedule(t)
  {
    forall a | a in t.heap ensures OnSchedule(t, a) {
      if a in s.heap {
        assert OnSchedule(s, a);
      }
    }
  }

  ghost predicate FreshTimer(t: Timer) {
    t.when == t.first && t.fired == 0
  }

  lemma NothingDeadRuns(s: State, a: Addr)
    requires Ownership(s) && Schedule(s) && a !in s.heap
    ensures !RunningNow(s, a)
  {
    if s.pc.Dispatching? && s.pc.running {
      assert Listed(s, s.pc.batch[s.pc.i], InBatch(s.pc.i));
    }
  }

  lemma FinishKeepsSchedule(s: State)
    requires Schedule(s) && Enabled(s, EndDispatch)
    ensures Schedule(FinishStep(s))
  {
    var t := FinishStep(s);
    forall a | a in t.heap ensures OnSchedule(t, a) {
      assert OnSchedule(s, a);
    }
  }

  lemma NextKeepsSchedule(s: State, e: Event)
    requires Ownership(s) && Schedule(s)
    ensures Schedule(Next(s, e))
  {
    if Enabled(s, e) {
      match e {
        case StartCallback =>
          MemberIsThere(s);
          StartKeepsSchedule(s);
        case EndCallback =>
          MemberIsThere(s);
          EndKeepsSchedule(s);
        case Fire => FireKeepsSchedule(s);
        case EndDispatch => FinishKeepsSchedule(s);
        case Create(addr, _, _) =>
          NothingDeadRuns(s, addr);
          SameSchedule(s, Next(s, e));
        case _ => SameSchedule(s, Next(s, e));
      }
    }
  }

  lemma FireKeepsSchedule(s: State)
    requires Ownership(s) && Schedule(s) && s.pc.Idle?
    ensures Schedule(FireStep(s))
  {
    BatchIsDue(s);
    BatchStarts(s, FireStep(s));
  }

  lemma BatchIsDue(s: State)
    requires Sorted(s.timers)
    ensures forall k :: 0 <= k < DueCount(s) ==> s.timers[..DueCount(s)][k].when <= s.clock
  {
    ExpiredExactly(s.timers, s.clock);
  }

  lemma BatchStarts(s: State, t: State)
    requires Schedule(s) && s.pc.Idle? && t.heap == s.heap && t.clock == s.clock
    requires t.pc.Dispatching? && t.pc.now == s.clock && !t.pc.running
    requires forall k :: 0 <= k < |t.pc.batch| ==> t.pc.batch[k].when <= t.pc.now
    ensures Schedule(t)
  {
    forall a | a in t.heap ensures OnSchedule(t, a) {
      assert OnSchedule(s, a);
    }
  }

  // ---------------------------------------------------------------- arming

  ghost predicate Armed(s: State) {
    && s.lastArm <= s.clock
    && (s.expiry.Some? ==> s.expiry.value > s.clock)
    && (s.pc.Idle? && s.timers != [] ==>
      s.readable || (s.expiry.Some? && s.expiry.value <= Max(s.timers[0].when, s.lastArm + MILLISECOND)))
  }

  lemma OwnedIsSorted(s: State)
    requires Ownership(s)
    ensures Sorted(s.timers)
  {
  }

  lemma NextKeepsArmed(s: State, e: Event)
    requires Sorted(s.timers) && Armed(s)
    ensures Armed(Next(s, e))
  {
    if Enabled(s, e) {
      match e {
        case InsertTask(addr) => InsertSorted(s.timers, Entry(s.inserts[addr], addr));
        case Cancel(addr) =>
          if addr in s.heap {
            EraseSorted(s.timers, Entry(s.heap[addr].when, addr));
          }
        case _ =>
      }
    }
  }

  // ---------------------------------------------------------------- one handleRead

  ghost predicate Round(s: State) {
    s.pc.Dispatching? ==>
      && (forall j, k :: 0 <= j < k < |s.pc.batch| ==> s.pc.batch[j].addr != s.pc.batch[k].addr)
      && |s.firedNow| == s.pc.i + (if s.pc.running then 1 else 0)
      && |s.firedNow| <= |s.pc.batch|
      && (forall k :: 0 <= k < |s.firedNow| ==> s.firedNow[k] == s.pc.batch[k].addr)
  }

  lemma NextKeepsRound(s: State, e: Event)
    requires Ownership(s) && Round(s)
    ensures Round(Next(s, e))
  {
    hide Ownership, FireStep;
    if Enabled(s, e) {
      match e {
        case Fire => FireStartsRound(s);
        case EndCallback => MemberIsThere(s);
        case _ =>
      }
    }
  }

  lemma FireStartsRound(s: State)
    requires Ownership(s) && s.pc.Idle?
    ensures Round(FireStep(s))
  {
    var batch := FireStep(s).pc.batch;
    forall j, k | 0 <= j < k < |batch| ensures batch[j].addr != batch[k].addr {
      assert Listed(s, s.timers[j], InSet) && Listed(s, s.timers[k], InSet);
      assert Less(s.timers[j], s.timers[k]);
    }
  }

  // ---------------------------------------------------------------- creation and deletion

  type Heap = map<Addr, Timer>

  ghost predicate Living(heap: Heap, id: nat) {
    exists a :: a in heap && heap[a].id == id
  }

  /** Each timer ever created is live, at one address, or has been deleted, once. */
  ghost predicate Tallied(heap: Heap, freed: seq<nat>, created: nat) {
    && (forall a :: a in heap ==> heap[a].id < created && heap[a].id !in freed)
    && (forall a, b :: a in heap && b in heap && heap[a].id == heap[b].id ==> a == b)
    && (forall j, k :: 0 <= j < k < |freed| ==> freed[j] != freed[k])
    && (forall id :: id in freed ==> id < created)
    && (forall id :: 0 <= id < created ==> id in freed || Living(heap, id))
  }

  ghost predicate Tally(s: State) {
    Tallied(s.heap, s.freed, s.created)
  }

  lemma TallyDelete(heap: Heap, freed: seq<nat>, created: nat, a: Addr)
    requires Tallied(heap, freed, created) && a in heap
    ensures Tallied(heap - {a}, freed + [heap[a].id], created)
  {
    forall id | 0 <= id < created ensures id in freed + [heap[a].id] || Living(heap - {a}, id) {
      if id !in freed && id != heap[a].id {
        var b :| b in heap && heap[b].id == id;
        assert b in heap - {a};
      }
    }
  }

  lemma TallyCreate(heap: Heap, freed: seq<nat>, created: nat, a: Addr, timer: Timer)
    requires Tallied(heap, freed, created) && a !in heap && timer.id == created
    ensures Tallied(heap[a := timer], freed, created + 1)
  {
    var more := heap[a := timer];
    forall id | 0 <= id < created + 1 ensures id in freed || Living(more, id) {
      if id == created {
        assert more[a].id == id;
      } else if id !in freed {
        var b :| b in heap && heap[b].id == id;
        assert b in more && more[b].id == id;
      }
    }
  }

  lemma TallyChange(heap: Heap, freed: seq<nat>, created: nat, changed: Heap)
    requires Tallied(heap, freed, created) && changed.Keys == heap.Keys
    requires forall a :: a in heap ==> changed[a].id == heap[a].id
    ensures Tallied(changed, freed, created)
  {
    forall id | 0 <= id < created ensures id in freed || Living(changed, id) {
      if id !in freed {
        var b :| b in heap && heap[b].id == id;
        assert b in changed;
      }
    }
  }

  lemma NextKeepsTally(s: State, e: Event)
    requires Tally(s)
    ensures Tally(Next(s, e))
  {
    hide Tallied;
    if Enabled(s, e) {
      match e {
        case Create(addr, when, interval) =>
          TallyCreate(s.heap, s.freed, s.created, addr, Timer(when, interval, false, when, 0, s.created));
        case Cancel(addr) =>
          if addr in s.heap {
            TallyDelete(s.heap, s.freed, s.created, addr);
          }
        case StartCallback =>
          if AtEntry(s) {
            TallyChange(s.heap, s.freed, s.created, StartStep(s).heap);
          }
        case EndCallback =>
          if AtEntry(s) {
            EndKeepsTally(s);
          }
        case _ =>
      }
    }
  }

  lemma EndKeepsTally(s: State)
    requires Tally(s) && AtEntry(s)
    ensures Tally(EndStep(s))
  {
    var a := s.pc.batch[s.pc.i].addr;
    if a in EndStep(s).heap {
      TallyChange(s.heap, s.freed, s.created, EndStep(s).heap);
    } else {
      TallyDelete(s.heap, s.freed, s.created, a);
    }
  }

  lemma NoFault(s: State, e: Event)
    requires !s.fault && Ownership(s) && Permitted(s, e)
    ensures !Next(s, e).fault
  {
    if s.pc.Dispatching? && s.pc.i < |s.pc.batch| {
      MemberIsThere(s);
    }
  }

  // ---------------------------------------------------------------- main results, for every run

  ghost predicate Inv(s: State) {
    !s.fault && Ownership(s) && Schedule(s) && Armed(s) && Round(s) && Tally(s)
  }

  lemma NextKeepsInv(s: State, e: Event)
    requires Inv(s) && Permitted(s, e)
    ensures Inv(Next(s, e))
  {
    hide Ownership, Schedule, Armed, Round, Tally;
    NoFault(s, e);
    NextKeepsTally(s, e);
    NextKeepsOwnership(s, e);
    NextKeepsSchedule(s, e);
    OwnedIsSorted(s);
    NextKeepsArmed(s, e);
    NextKeepsRound(s, e);
  }

  lemma {:induction false} ContinueKeepsInv(s: State, es: seq<Event>)
    requires Inv(s) && Disciplined(s, es)
    ensures Inv(Continue(s, es))
  {
    hide Inv;
    if es != [] {
      ContinueKeepsInv(s, es[..|es| - 1]);
      NextKeepsInv(Continue(s, es[..|es| - 1]), es[|es| - 1]);
    }
  }

  lemma RunKeepsInv(clock: Time, es: seq<Event>)
    requires Disciplined(Init(clock), es)
    ensures Inv(Continue(Init(clock), es))
  {
    hide Continue, Disciplined;
    ContinueKeepsInv(Init(clock), es);
  }

  /** No freed object has been used, and every pointer the queue holds is to a live, uncancelled timer
      with that deadline, and every live timer is in exactly one place. */
  ghost predicate Sound(s: State) {
    !s.fault && Ownership(s)
  }

  ghost predicate SoundThroughout(s: State, es: seq<Event>) {
    Sound(Continue(s, es)) && (es == [] || SoundThroughout(s, es[..|es| - 1]))
  }

  /** Of all the entries, only the cancelled timer's goes. */
  lemma CancelRemovesItsEntry(s: State, addr: Addr)
    requires Ownership(s) && addr in s.heap
    ensures forall e :: e in CancelStep(s, addr).timers <==> e in s.timers && e.addr != addr
  {
    EraseSorted(s.timers, Entry(s.heap[addr].when, addr));
    forall e | e in s.timers && e.addr == addr ensures e == Entry(s.heap[addr].when, addr) {
      assert Listed(s, e, InSet);
    }
  }

  /** A pointer to the timer that something will still use. */
  ghost predicate Holds(s: State, addr: Addr) {
    || (exists e :: e in s.timers && e.addr == addr)
    || Held(s, addr)
  }

  /** What cancelTimer needs for its three statements and for what comes after the delete: an object to
      mark, read and free, and nobody left who holds it. */
  ghost predicate CancelNeeds(s: State, addr: Addr) {
    addr in s.heap && !Holds(CancelStep(s, addr), addr)
  }

  /** Exactly which pointers may be passed to cancelTimer, freed ones included: live timers that are
      neither unfinished batch members nor waiting to be inserted. Any other one breaks the queue. */
  lemma CancelSafeIff(s: State, addr: Addr)
    requires Sound(s)
    ensures CancelNeeds(s, addr) <==> addr in s.heap && !Held(s, addr)
    ensures LoopThreadFree(s) ==> (Sound(Next(s, Cancel(addr))) <==> CancelNeeds(s, addr))
  {
    if addr in s.heap {
      CancelRemovesItsEntry(s, addr);
      if !Held(s, addr) {
        CancelKeepsOwnership(s, addr);
      } else {
        HeldCancelDangles(s, addr);
      }
    }
  }

  lemma HeldCancelDangles(s: State, addr: Addr)
    requires Ownership(s) && addr in s.heap && Held(s, addr)
    ensures Held(CancelStep(s, addr), addr) && !Ownership(CancelStep(s, addr))
  {
    var t := CancelStep(s, addr);
    if addr !in s.inserts {
      var k :| s.pc.i <= k < |s.pc.batch| && s.pc.batch[k].addr == addr;
      assert t.pc.batch[k].addr == addr;
      assert !Listed(t, t.pc.batch[k], InBatch(k));
    }
  }

  /** For every run: no freed object is used and ownership is never broken, at any moment, if and only if
      every cancellation is of a live timer that nothing else holds. */
  lemma {:induction false} SoundIffDisciplined(clock: Time, es: seq<Event>)
    ensures SoundThroughout(Init(clock), es) <==> Disciplined(Init(clock), es)
    decreases |es|
  {
    if es != [] {
      var front, e := es[..|es| - 1], es[|es| - 1];
      SoundIffDisciplined(clock, front);
      var s := Continue(Init(clock), front);
      if Disciplined(Init(clock), front) {
        RunKeepsInv(clock, front);
        if Permitted(s, e) {
          NextKeepsInv(s, e);
        } else {
          CancelSafeIff(s, e.addr);
        }
      }
    }
  }

  /** Every pointer the queue holds is to a live, uncancelled timer with that deadline, every live timer
      is in exactly one place, and every timer ever created is live or was freed, once. */
  lemma EveryTimerOwnedOnce(clock: Time, es: seq<Event>)
    requires Disciplined(Init(clock), es)
    ensures Sound(Continue(Init(clock), es)) && Tally(Continue(Init(clock), es))
  {
    hide Next, Continue, Disciplined, Ownership, Schedule, Armed, Round, Tally;
    RunKeepsInv(clock, es);
  }


  /** A callback that cancels its own timer: the next thing handleRead does is to read the freed object. */
  lemma SelfCancelFaults(s: State)
    requires Inv(s) && s.pc.Dispatching? && s.pc.running
    ensures Next(Next(s, Cancel(s.pc.batch[s.pc.i].addr)), EndCallback).fault
  {
    hide Armed, Round, Tally;
    MemberIsThere(s);
  }

  /** One timer, created, inserted and fired. */
  ghost function OneFiring(clock: Time): seq<Event> {
    [Create(1, clock, 0), InsertTask(1), Fire, StartCallback]
  }

  lemma OneCreationRuns(clock: Time)
    ensures var s := Continue(Init(clock), [Create(1, clock, 0)]);
      && Disciplined(Init(clock), [Create(1, clock, 0)])
      && s == Init(clock).(heap := map[1 := Timer(clock, 0, false, clock, 0, 0)], inserts := map[1 := clock],
                           where := map[1 := Waiting], created := 1)
  {
    var s0, e0 := Init(clock), [Create(1, clock, 0)];
    RunOne(s0, Create(1, clock, 0));
    var s := Continue(s0, e0);
    assert s.heap == map[1 := Timer(clock, 0, false, clock, 0, 0)] && s.inserts == map[1 := clock] && s.where == map[1 := Waiting];
  }

  lemma OneInsertionRuns(clock: Time)
    ensures var s := Continue(Init(clock), [Create(1, clock, 0), InsertTask(1)]);
      && Disciplined(Init(clock), [Create(1, clock, 0), InsertTask(1)])
      && s.heap == map[1 := Timer(clock, 0, false, clock, 0, 0)] && s.timers == [Entry(clock, 1)] && s.inserts == map[]
      && s.pc.Idle? && !s.fault && s.clock == clock
  {
    var e0 := [Create(1, clock, 0)];
    OneCreationRuns(clock);
    assert e0 + [InsertTask(1)] == [Create(1, clock, 0), InsertTask(1)];
    RunOneMore(Init(clock), e0, InsertTask(1));
    assert map[1 := clock] - {1} == map[];
  }

  lemma OneRoundRuns(clock: Time)
    ensures var es := [Create(1, clock, 0), InsertTask(1)] + [Fire]; var s := Continue(Init(clock), es);
      && Disciplined(Init(clock), es)
      && s.pc == Dispatching(clock, [Entry(clock, 1)], 0, false) && s.heap == map[1 := Timer(clock, 0, false, clock, 0, 0)]
      && s.timers == [] && !s.fault
  {
    var s0, e1 := Init(clock), [Create(1, clock, 0), InsertTask(1)];
    OneInsertionRuns(clock);
    RunOneMore(s0, e1, Fire);
    FireOne(Continue(s0, e1));
  }

  lemma FireOne(s: State)
    requires s.timers == [Entry(s.clock, 1)]
    ensures FireStep(s).timers == [] && FireStep(s).pc == Dispatching(s.clock, [Entry(s.clock, 1)], 0, false)
  {
    assert s.timers[1..] == [] && s.timers[..1] == s.timers;
    assert DueCount(s) == 1;
  }

  lemma OneFiringRuns(clock: Time)
    ensures var s := Continue(Init(clock), OneFiring(clock));
      && Disciplined(Init(clock), OneFiring(clock))
      && s.pc == Dispatching(clock, [Entry(clock, 1)], 0, true) && 1 in s.heap && !s.heap[1].Repeat()
      && s.timers == [] && !s.fault
  {
    var s0, e2 := Init(clock), [Create(1, clock, 0), InsertTask(1)] + [Fire];
    OneRoundRuns(clock);
    RunOneMore(s0, e2, StartCallback);
    assert e2 + [StartCallback] == OneFiring(clock);
  }

  /** Runs from the start that use a freed object: a callback cancels its own timer; a caller cancels a
      timer that has fired; a caller cancels twice. Until its last steps each run is disciplined. */
  lemma FreedTimersCanBeUsed(clock: Time)
    ensures Continue(Init(clock), OneFiring(clock) + [Cancel(1)] + [EndCallback]).fault
    ensures Continue(Init(clock), OneFiring(clock) + [EndCallback] + [EndDispatch]).pc.Idle?
    ensures !Continue(Init(clock), OneFiring(clock) + [EndCallback] + [EndDispatch]).fault
    ensures Continue(Init(clock), OneFiring(clock) + [EndCallback] + [EndDispatch] + [Cancel(1)]).fault
    ensures Continue(Init(clock), [Create(1, clock, 0), InsertTask(1), Cancel(1), Cancel(1)]).fault
  {
    var s0, one := Init(clock), OneFiring(clock);
    OneFiringRuns(clock);
    RunOneMore(s0, one, Cancel(1));
    RunOneMore(s0, one + [Cancel(1)], EndCallback);
    RunOneMore(s0, one, EndCallback);
    RunOneMore(s0, one + [EndCallback], EndDispatch);
    RunOneMore(s0, one + [EndCallback] + [EndDispatch], Cancel(1));
    CancelledTwice(clock);
  }

  lemma CancelledTwice(clock: Time)
    ensures Continue(Init(clock), [Create(1, clock, 0), InsertTask(1), Cancel(1), Cancel(1)]).fault
  {
    var s0, e1 := Init(clock), [Create(1, clock, 0), InsertTask(1)];
    OneInsertionRuns(clock);
    RunOneMore(s0, e1, Cancel(1));
    RunOneMore(s0, e1 + [Cancel(1)], Cancel(1));
    assert e1 + [Cancel(1)] + [Cancel(1)] == [Create(1, clock, 0), InsertTask(1), Cancel(1), Cancel(1)];
  }

  /** Outside handleRead, a queue with timers has a timerfd that is readable, or armed for no later than
      the earliest deadline or a millisecond after it was last armed. */
  lemma NoTimerForgotten(clock: Time, es: seq<Event>)
    requires Disciplined(Init(clock), es)
    ensures var s := Continue(Init(clock), es);
      s.pc.Idle? && s.timers != [] ==>
        && (s.readable || (s.expiry.Some? && s.expiry.value <= Max(s.timers[0].when, s.lastArm + 1_000_000)))
        && (s.clock >= Max(s.timers[0].when, s.lastArm + 1_000_000) ==> s.readable)
  {
    hide Next, Continue, Disciplined, Ownership, Schedule, Round, Tally;
    RunKeepsInv(clock, es);
  }

  /** getExpired takes exactly the entries that are due, in deadline order, and leaves the others. */
  lemma FireTakesExactlyTheDue(clock: Time, es: seq<Event>, e: Entry)
    requires Disciplined(Init(clock), es) && Continue(Init(clock), es).pc.Idle?
    ensures TakesExactlyTheDue(Continue(Init(clock), es), Next(Continue(Init(clock), es), Fire), e)
  {
    hide Continue, Disciplined, Schedule, Armed, Round, Tally;
    RunKeepsInv(clock, es);
    FireSplits(Continue(Init(clock), es), e);
  }

  ghost predicate TakesExactlyTheDue(s: State, t: State, e: Entry) {
    && t.pc.Dispatching? && t.pc.now == s.clock && t.pc.i == 0
    && (e in t.pc.batch <==> e in s.timers && e.when <= s.clock)
    && (e in t.timers <==> e in s.timers && e.when > s.clock)
    && Sorted(t.pc.batch) && t.pc.batch + t.timers == s.timers
  }

  lemma FireSplits(s: State, e: Entry)
    requires Sorted(s.timers)
    ensures TakesExactlyTheDue(s, FireStep(s), e)
  {
    DueSplit(s.timers, s.clock, e);
  }

  lemma DueSplit(ts: seq<Entry>, now: Time, e: Entry)
    requires Sorted(ts)
    ensures var n := LowerBound(ts, Entry(now + 1, 0));
      && (e in ts[..n] <==> e in ts && e.when <= now)
      && (e in ts[n..] <==> e in ts && e.when > now)
      && Sorted(ts[..n]) && ts[..n] + ts[n..] == ts
  {
    ExpiredExactly(ts, now);
    DueSplitAt(ts, LowerBound(ts, Entry(now + 1, 0)), now, e);
  }

  lemma DueSplitAt(ts: seq<Entry>, n: nat, now: Time, e: Entry)
    requires Sorted(ts) && n <= |ts| && forall k :: 0 <= k < |ts| ==> (k < n <==> ts[k].when <= now)
    ensures e in ts[..n] <==> e in ts && e.when <= now
    ensures e in ts[n..] <==> e in ts && e.when > now
    ensures Sorted(ts[..n]) && ts[..n] + ts[n..] == ts
  {
    SortedSplit(ts, n, e);
    if e in ts[..n] {
      InFrontIsDue(ts, n, now, e);
    }
    if e in ts[n..] {
      InBackIsNotDue(ts, n, now, e);
    }
  }

  lemma InFrontIsDue(ts: seq<Entry>, n: nat, now: Time, e: Entry)
    requires n <= |ts| && e in ts[..n] && forall k :: 0 <= k < |ts| ==> (k < n <==> ts[k].when <= now)
    ensures e.when <= now
  {
    var k :| 0 <= k < n && ts[..n][k] == e;
    assert ts[k] == e;
  }

  lemma InBackIsNotDue(ts: seq<Entry>, n: nat, now: Time, e: Entry)
    requires n <= |ts| && e in ts[n..] && forall k :: 0 <= k < |ts| ==> (k < n <==> ts[k].when <= now)
    ensures e.when > now
  {
    var k :| 0 <= k < |ts| - n && ts[n..][k] == e;
    assert ts[n + k] == e;
  }

  /** One handleRead runs each callback of its batch once, in order, and no other. */
  lemma EachFiredOncePerRound(clock: Time, es: seq<Event>)
    requires Disciplined(Init(clock), es)
    ensures var s := Continue(Init(clock), es);
      s.pc.Dispatching? ==>
        && s.firedNow <= Addresses(s.pc.batch)
        && (s.pc.i >= |s.pc.batch| ==> s.firedNow == Addresses(s.pc.batch))
        && (forall j, k :: 0 <= j < k < |s.firedNow| ==> s.firedNow[j] != s.firedNow[k])
  {
    hide Next, Continue, Disciplined, Ownership, Armed, Schedule, Tally;
    RunKeepsInv(clock, es);
  }

  function Addresses(ts: seq<Entry>): (r: seq<Addr>)
    ensures |r| == |ts| && forall k :: 0 <= k < |ts| ==> r[k] == ts[k].addr
  {
    if ts == [] then [] else [ts[0].addr] + Addresses(ts[1..])
  }

  /** No callback runs before its deadline, and a periodic timer never drifts: after k finished firings
      its deadline is the first one plus k intervals. */
  lemma {:induction false} NeverEarlyNeverDrifts(clock: Time, es: seq<Event>, a: Addr)
    requires Disciplined(Init(clock), es) && a in Continue(Init(clock), es).heap
    ensures var s := Continue(Init(clock), es); var t := s.heap[a];
      && t.id < |Creations(clock, es)|
      && var asked := Creations(clock, es)[t.id];
      && asked.addr == a && asked.interval == t.interval
      && (asked.interval > 0 ==> t.when == asked.when + Finished(s, a) * asked.interval)
      && (asked.interval <= 0 ==> t.when == asked.when && Finished(s, a) == 0)
      && (Enabled(s, StartCallback) && s.pc.batch[s.pc.i].addr == a ==>
        asked.when + (if asked.interval > 0 then t.fired * asked.interval else 0) <= s.pc.now <= s.clock)
  {
    hide Next, Continue, Disciplined, Ownership, Armed, Round, Tally, Schedule, Creations;
    RunKeepsInv(clock, es);
    TimersAreAsCreated(clock, es);
    InvOnTime(Continue(Init(clock), es), a);
  }

  lemma InvOnTime(s: State, a: Addr)
    requires Inv(s) && a in s.heap
    ensures var t := s.heap[a];
      && (t.Repeat() ==> t.when == t.first + Finished(s, a) * t.interval)
      && (!t.Repeat() ==> t.when == t.first && Finished(s, a) == 0)
      && (Enabled(s, StartCallback) && s.pc.batch[s.pc.i].addr == a ==>
        t.first + (if t.Repeat() then t.fired * t.interval else 0) <= s.pc.now <= s.clock)
  {
    assert OnSchedule(s, a);
    if Enabled(s, StartCallback) && s.pc.batch[s.pc.i].addr == a {
      assert Listed(s, s.pc.batch[s.pc.i], InBatch(s.pc.i));
      EarlierDeadline(s.heap[a], s.heap[a].fired);
    }
  }

  lemma CountBound(k: nat, d: int, x: int)
    requires d > 0 && k * d <= x
    ensures k <= x / d
  {
    if k > x / d {
      MulMono(x / d + 1, k, d);
      assert false;
    }
  }

  lemma MulMono(a: int, b: int, d: int)
    requires a <= b && d > 0
    ensures a * d <= b * d
  {
  }

  function MaxFirings(t: Timer, now: Time): int
    requires t.Repeat()
  {
    if now < t.first then 0 else (now - t.first) / t.interval + 1
  }

  /** By time T a periodic timer has fired at most floor((T - first) / interval) + 1 times, and not at
      all before its first deadline. */
  lemma {:induction false} FiringsBounded(clock: Time, es: seq<Event>, a: Addr)
    requires Disciplined(Init(clock), es) && a in Continue(Init(clock), es).heap && Continue(Init(clock), es).heap[a].interval > 0
    ensures var s := Continue(Init(clock), es); var t := s.heap[a];
      && t.id < |Creations(clock, es)|
      && var asked := Creations(clock, es)[t.id];
        asked.interval == t.interval && t.fired <= if s.clock < asked.when then 0 else (s.clock - asked.when) / asked.interval + 1
  {
    hide Next, Continue, Disciplined, Ownership, Armed, Round, Tally, Creations;
    RunKeepsInv(clock, es);
    TimersAreAsCreated(clock, es);
    assert OnSchedule(Continue(Init(clock), es), a);
    CountFirings(Continue(Init(clock), es).heap[a], Continue(Init(clock), es).clock);
  }

  /** After its callback a timer with a positive interval is back in the set, one interval later, and any
      other one is gone; nothing else changes. */
  lemma PeriodicComesBackIff(s: State, e: Entry)
    requires Inv(s) && Enabled(s, EndCallback)
    ensures var t, a := Next(s, EndCallback), s.pc.batch[s.pc.i].addr;
      && a in s.heap && t.heap - {a} == s.heap - {a}
      && (a in t.heap <==> s.heap[a].interval > 0)
      && (a in t.heap ==> t.heap[a] == s.heap[a].(when := s.heap[a].when + s.heap[a].interval))
      && (e in t.timers <==> e in s.timers || (s.heap[a].interval > 0 && e == Entry(s.heap[a].when + s.heap[a].interval, a)))
  {
    hide Schedule, Armed, Round, Tally;
    MemberIsThere(s);
    assert EndStep(s).heap - {s.pc.batch[s.pc.i].addr} == s.heap - {s.pc.batch[s.pc.i].addr};
  }

  lemma CountFirings(t: Timer, now: Time)
    requires t.Repeat() && (t.fired > 0 ==> Deadline(t, t.fired - 1) <= now)
    ensures t.fired <= MaxFirings(t, now)
  {
    if t.fired > 0 {
      FirstDeadlineFirst(t, t.fired - 1);
      CountBound(t.fired - 1, t.interval, now - t.first);
    } else if now >= t.first {
      CountBound(0, t.interval, now - t.first);
    }
  }

  lemma FirstDeadlineFirst(t: Timer, k: nat)
    requires t.Repeat()
    ensures Deadline(t, k) >= t.first && Deadline(t, k) - t.first == k * t.interval
  {
  }
}

/** The queue object: the set, the heap of Timer objects and the kernel's timerfd, changed in place. */
module TimerQueues {
  import opened Bytes
  import opened TimerSet
  import opened P = TimerProtocol

  /** What user callbacks, other threads and the clock do between two statements of handleRead. */
  predicate Interferes(e: Event) {
    e.Tick? || e.Create? || e.InsertTask? || e.Cancel?
  }

  lemma {:induction false} InterferenceKeepsPc(s: State, es: seq<Event>)
    requires Quiet(es)
    ensures Continue(s, es).pc == s.pc
  {
    if es != [] {
      assert es[|es| - 1] in es;
      InterferenceKeepsPc(s, es[..|es| - 1]);
    }
  }

  ghost predicate Quiet(events: seq<Event>) {
    forall e :: e in events ==> Interferes(e)
  }

  ghost predicate AllQuiet(during: seq<seq<Event>>) {
    forall k :: 0 <= k < |during| ==> Quiet(during[k])
  }

  function Nth(during: seq<seq<Event>>, k: nat): seq<Event> {
    if k < |during| then during[k] else []
  }

  /** One entry of the batch, with `events` happening while its callback runs. */
  ghost function EntryEvents(events: seq<Event>): seq<Event> {
    [StartCallback] + events + [EndCallback]
  }

  /** The first k entries of the batch; `during[j]` happens inside the j-th callback. */
  ghost function BatchEvents(during: seq<seq<Event>>, k: nat): seq<Event> {
    if k == 0 then [] else BatchEvents(during, k - 1) + EntryEvents(Nth(during, k - 1))
  }

  /** A whole handleRead that takes n entries. */
  ghost function RoundEvents(during: seq<seq<Event>>, n: nat): seq<Event> {
    [Fire] + (BatchEvents(during, n) + [EndDispatch])
  }

  lemma EntryIsThreeSteps(s: State, events: seq<Event>)
    ensures Continue(s, EntryEvents(events)) == Next(Continue(Next(s, StartCallback), events), EndCallback)
    ensures Disciplined(s, EntryEvents(events)) <==> Disciplined(Next(s, StartCallback), events)
  {
    RunOneMore(s, [StartCallback] + events, EndCallback);
    RunBoth(s, [StartCallback], events);
    RunOne(s, StartCallback);
  }

  lemma RoundIsItsSteps(s: State, during: seq<seq<Event>>, n: nat)
    ensures Continue(s, RoundEvents(during, n)) == Next(Continue(Next(s, Fire), BatchEvents(during, n)), EndDispatch)
    ensures Disciplined(s, RoundEvents(during, n)) <==> Disciplined(Next(s, Fire), BatchEvents(during, n))
  {
    RunBoth(s, [Fire], BatchEvents(during, n) + [EndDispatch]);
    RunOne(s, Fire);
    RunOneMore(Next(s, Fire), BatchEvents(during, n), EndDispatch);
  }

  /** Exactly the entries due by `now` are taken. */
  ghost predicate DueTaken(ts: seq<Entry>, taken: seq<Entry>, left: seq<Entry>, now: Time) {
    forall e :: (e in taken <==> e in ts && e.when <= now) && (e in left <==> e in ts && e.when > now)
  }

  /** One entry of a sound batch: nothing in it fails, and the dispatch goes on with the next. */
  lemma EntryKeepsInv(s: State, events: seq<Event>)
    requires P.Inv(s) && s.pc.Dispatching? && s.pc.i < |s.pc.batch| && !s.pc.running
    requires Quiet(events) && Disciplined(s, EntryEvents(events))
    ensures Enabled(s, StartCallback) && Enabled(Continue(Next(s, StartCallback), events), EndCallback)
    ensures P.Inv(Continue(s, EntryEvents(events)))
    ensures Continue(s, EntryEvents(events)).pc == s.pc.(i := s.pc.i + 1)
  {
    hide Ownership, Schedule, Armed, Round, Tally;
    EntryIsThreeSteps(s, events);
    StartsSoundly(s);
    var t := Next(s, StartCallback);
    ContinueKeepsInv(t, events);
    InterferenceKeepsPc(t, events);
    EndsSoundly(Continue(t, events));
  }

  lemma StartsSoundly(s: State)
    requires P.Inv(s) && s.pc.Dispatching? && s.pc.i < |s.pc.batch| && !s.pc.running
    ensures Enabled(s, StartCallback)
    ensures P.Inv(Next(s, StartCallback)) && Next(s, StartCallback).pc == s.pc.(running := true)
  {
    hide Ownership, Schedule, Armed, Round, Tally;
    MemberIsThere(s);
    NextKeepsInv(s, StartCallback);
  }

  lemma EndsSoundly(s: State)
    requires P.Inv(s) && s.pc.Dispatching? && s.pc.i < |s.pc.batch| && s.pc.running
    ensures Enabled(s, EndCallback)
    ensures P.Inv(Next(s, EndCallback)) && Next(s, EndCallback).pc == s.pc.(running := false, i := s.pc.i + 1)
  {
    hide Ownership, Schedule, Armed, Round, Tally;
    MemberIsThere(s);
    NextKeepsInv(s, EndCallback);
  }

  lemma {:induction false} BatchKeepsInv(s: State, during: seq<seq<Event>>, k: nat)
    requires P.Inv(s) && s.pc.Dispatching? && s.pc.i == 0 && !s.pc.running && k <= |s.pc.batch|
    requires AllQuiet(during) && Disciplined(s, BatchEvents(during, k))
    ensures P.Inv(Continue(s, BatchEvents(during, k)))
    ensures Continue(s, BatchEvents(during, k)).pc == s.pc.(i := k)
  {
    hide P.Inv;
    ContinueKeepsInv(s, BatchEvents(during, k));
    if k > 0 {
      RunBoth(s, BatchEvents(during, k - 1), EntryEvents(Nth(during, k - 1)));
      BatchKeepsInv(s, during, k - 1);
      EntryKeepsInv(Continue(s, BatchEvents(during, k - 1)), Nth(during, k - 1));
    }
  }

  lemma {:induction false} BatchPrefix(s: State, during: seq<seq<Event>>, k: nat, n: nat)
    requires k <= n && Disciplined(s, BatchEvents(during, n))
    ensures Disciplined(s, BatchEvents(during, k))
    decreases n
  {
    if k < n {
      RunBoth(s, BatchEvents(during, n - 1), EntryEvents(Nth(during, n - 1)));
      BatchPrefix(s, during, k, n - 1);
    }
  }

  /** A sound round: it runs to its end and leaves the queue sound. */
  lemma RoundKeepsInv(s: State, during: seq<seq<Event>>)
    requires P.Inv(s) && s.pc.Idle? && AllQuiet(during)
    requires Disciplined(s, RoundEvents(during, DueCount(s)))
    ensures var n, t := DueCount(s), Next(s, Fire);
      && P.Inv(t) && t.pc.Dispatching? && t.pc.i == 0 && !t.pc.running && |t.pc.batch| == n
      && Disciplined(t, BatchEvents(during, n)) && Enabled(Continue(t, BatchEvents(during, n)), EndDispatch)
    ensures P.Inv(Continue(s, RoundEvents(during, DueCount(s))))
    ensures Continue(s, RoundEvents(during, DueCount(s))).pc.Idle?
  {
    hide Ownership, Schedule, Armed, Round, Tally;
    var n := DueCount(s);
    RoundIsItsSteps(s, during, n);
    NextKeepsInv(s, Fire);
    BatchKeepsInv(Next(s, Fire), during, n);
    NextKeepsInv(Continue(Next(s, Fire), BatchEvents(during, n)), EndDispatch);
  }

  /** addTimer on a sound queue: at once, and when its insertion runs. */
  lemma AddKeepsInv(s: State, addr: Addr, when: Time, interval: int)
    requires P.Inv(s) && addr != 0 && addr !in s.heap
    ensures !s.fault && addr !in s.inserts
    ensures P.Inv(Next(s, Create(addr, when, interval))) && !Next(s, Create(addr, when, interval)).fault
    ensures var t := Next(Next(s, Create(addr, when, interval)), InsertTask(addr));
      P.Inv(t) && Sorted(t.timers)
  {
    hide Schedule, Armed, Round, Tally;
    NextKeepsInv(s, Create(addr, when, interval));
    NextKeepsInv(Next(s, Create(addr, when, interval)), InsertTask(addr));
    OwnedIsSorted(Next(Next(s, Create(addr, when, interval)), InsertTask(addr)));
  }

  class TimerQueue {
    var timers: seq<Entry>
    var heap: map<Addr, Timer>
    var inserts: map<Addr, Time>
    var pc: Pc                    // the locals of handleRead
    var clock: Time
    var expiry: Option<Time>      // the timerfd
    var readable: bool
    var called: seq<Addr>         // the timers run by the current or last handleRead
    var created: nat
    var freed: seq<nat>           // the timers deleted, by number of creation
    var fault: bool               // an object that is not there has been used
    ghost var history: State

    ghost predicate Valid()
      reads this
    {
      Synced() && P.Inv(history)
    }

    ghost predicate Synced()
      reads this
    {
      Shows(history)
    }

    /** The object's own state is that of `s`. */
    ghost predicate Shows(s: State)
      reads this
    {
      && s.timers == timers && s.heap == heap && s.inserts == inserts && s.pc == pc
      && s.clock == clock && s.expiry == expiry && s.readable == readable
      && s.firedNow == called && s.created == created && s.freed == freed && s.fault == fault
    }

    constructor (now: Time)
      ensures Valid() && history == Init(now)
    {
      timers, heap, inserts, pc := [], map[], map[], Idle;
      clock, expiry, readable, called := now, None, false, [];
      created, freed, fault := 0, [], false;
      history := Init(now);
    }

    /** Armed for that moment, but for no sooner than 1ms from now. */
    ghost predicate ArmedFor(when: Time)
      reads this
    {
      expiry == Some(if when >= clock + 1_000_000 then when else clock + 1_000_000) && !readable
    }

    method TimerfdSet(when: Time)
      modifies this`expiry, this`readable
      ensures ArmedFor(when)
    {
      var ns := when - clock;
      if ns < MILLISECOND {
        ns := MILLISECOND;
      }
      expiry, readable := Some(clock + ns), false;
    }

    /** The closure addTimer hands to the loop. */
    method RunInsert(addr: Addr)
      requires Synced() && !fault && (pc.Idle? || pc.running) && addr in inserts
      modifies this`history, this`timers, this`inserts, this`expiry, this`readable
      ensures Synced() && history == Next(old(history), InsertTask(addr))
      ensures inserts == old(inserts) - {addr}
      ensures var e := Entry(old(inserts)[addr], addr);
        && (forall x :: x in timers <==> x in old(timers) || x == e)
        && timers != [] && (timers[0] == e ==> ArmedFor(e.when))
        && (timers[0] != e ==> expiry == old(expiry) && readable == old(readable))
    {
      history := Next(history, InsertTask(addr));
      var e := Entry(inserts[addr], addr);
      timers := Insert(timers, e);
      inserts := inserts - {addr};
      if timers[0] == e {
        TimerfdSet(e.when);
      }
    }

    /** `addTimer`: the object exists at once, the insertion runs on the loop thread. */
    method AddTimer(addr: Addr, when: Time, interval: int, isInLoopThread: bool)
      requires Valid() && addr != 0 && addr !in heap
      requires isInLoopThread ==> pc.Idle? || pc.running
      modifies this
      ensures Valid()
      ensures var created := Next(old(history), Create(addr, when, interval));
        history == if isInLoopThread then Next(created, InsertTask(addr)) else created
      ensures addr in heap && heap - {addr} == old(heap)
      ensures heap[addr].when == when && heap[addr].interval == interval && !heap[addr].canceled
      ensures !isInLoopThread ==>
        inserts == old(inserts)[addr := when] && timers == old(timers) && expiry == old(expiry) && readable == old(readable)
      ensures isInLoopThread ==>
        && inserts == old(inserts) && Sorted(timers) && timers != []
        && (forall x :: x in timers <==> x in old(timers) || x == Entry(when, addr))
        && (timers[0] == Entry(when, addr) ==> ArmedFor(when))
        && (timers[0] != Entry(when, addr) ==> expiry == old(expiry) && readable == old(readable))
    {
      hide P.Inv, Next, Enabled;
      AddKeepsInv(history, addr, when, interval);
      NewTimer(addr, when, interval);
      if isInLoopThread {
        RunInsert(addr);
        assert old(inserts)[addr := when] - {addr} == old(inserts);
      }
      assert old(heap)[addr := heap[addr]] - {addr} == old(heap);
    }

    method NewTimer(addr: Addr, when: Time, interval: int)
      requires Synced() && !fault && addr != 0 && addr !in heap
      modifies this`history, this`heap, this`created, this`inserts
      ensures Synced() && history == Next(old(history), Create(addr, when, interval))
      ensures heap == old(heap)[addr := Timer(when, interval, false, when, 0, old(created))]
      ensures inserts == old(inserts)[addr := when] && created == old(created) + 1
    {
      history := Next(history, Create(addr, when, interval));
      heap := heap[addr := Timer(when, interval, false, when, 0, created)];
      created := created + 1;
      inserts := inserts[addr := when];
    }

    /** The closure of cancelTimer, whatever pointer it is given. */
    method RunCancel(addr: Addr)
      requires Synced() && !fault && (pc.Idle? || pc.running)
      modifies this`history, this`fault, this`heap, this`timers, this`freed
      ensures Synced() && history == Next(old(history), Cancel(addr))
      ensures fault == (addr !in old(heap))
    {
      history := Next(history, Cancel(addr));
      if addr !in heap {
        fault := true;   // the object is marked, read and deleted all the same
        return;
      }
      heap := heap[addr := heap[addr].(canceled := true)];
      timers := Erase(timers, Entry(heap[addr].when, addr));
      freed := freed + [heap[addr].id];
      heap := heap - {addr};
    }

    /** `cancelTimer` on the loop thread: the queue survives it exactly for a live timer that is neither
        an unfinished batch member nor waiting to be inserted. */
    method CancelTimer(addr: Addr)
      requires Valid() && (pc.Idle? || pc.running)
      modifies this`history, this`fault, this`heap, this`timers, this`freed
      ensures Synced() && history == Next(old(history), Cancel(addr))
      ensures Valid() <==> addr in old(heap) && !Held(old(history), addr)
      ensures addr in old(heap) ==>
        addr !in heap && freed == old(freed) + [old(heap)[addr].id] && forall e :: e in timers <==> e in old(timers) && e.addr != addr
    {
      CancelSafeIff(history, addr);
      if addr in heap {
        CancelRemovesItsEntry(history, addr);
        if !Held(history, addr) {
          NextKeepsInv(history, Cancel(addr));
        }
      }
      RunCancel(addr);
    }

    method Advance(to: Time)
      requires Synced() && !fault && to >= clock
      modifies this`history, this`clock, this`expiry, this`readable
      ensures Synced() && history == Next(old(history), Tick(to))
      ensures clock == to
      ensures old(expiry).Some? && to >= old(expiry).value ==> expiry == None && readable
      ensures old(expiry).None? || to < old(expiry).value ==> expiry == old(expiry) && readable == old(readable)
    {
      history := Next(history, Tick(to));
      clock := to;
      if expiry.Some? && to >= expiry.value {
        expiry, readable := None, true;
      }
    }

    /** Does what the event says if it is possible now, and nothing otherwise. */
    method Perform(e: Event)
      requires Synced() && Interferes(e)
      modifies this
      ensures Synced() && history == Next(old(history), e) && pc == old(pc)
    {
      if fault {
        return;
      }
      match e {
        case Tick(to) =>
          if to >= clock {
            Advance(to);
          }
        case Create(addr, when, interval) =>
          if addr != 0 && addr !in heap {
            NewTimer(addr, when, interval);
          }
        case InsertTask(addr) =>
          if (pc.Idle? || pc.running) && addr in inserts {
            RunInsert(addr);
          }
        case Cancel(addr) =>
          if pc.Idle? || pc.running {
            RunCancel(addr);
          }
      }
    }

    method PerformAll(es: seq<Event>)
      requires Synced() && Quiet(es)
      modifies this
      ensures Synced() && history == Continue(old(history), es) && pc == old(pc)
    {
      for k := 0 to |es|
        invariant Synced() && history == Continue(old(history), es[..k]) && pc == old(pc)
      {
        Perform(es[k]);
        assert es[..k + 1][..k] == es[..k];
      }
      assert es[..|es|] == es;
    }

    method GetExpired(now: Time) returns (entries: seq<Entry>)
      modifies this`timers
      ensures var n := LowerBound(old(timers), Entry(now + 1, 0));
        entries == old(timers)[..n] && timers == old(timers)[n..]
      ensures Sorted(old(timers)) ==> DueTaken(old(timers), entries, timers, now)
    {
      if Sorted(timers) {
        forall e {
          DueSplit(timers, now, e);
        }
        assert DueTaken(timers, timers[..LowerBound(timers, Entry(now + 1, 0))], timers[LowerBound(timers, Entry(now + 1, 0))..], now);
      }
      var end := LowerBound(timers, Entry(now + 1, 0));
      entries := timers[..end];
      timers := timers[end..];
    }

    /** The body of the loop of handleRead for one entry. */
    method DispatchOne(events: seq<Event>)
      requires Synced() && Quiet(events)
      requires Enabled(history, StartCallback) && Enabled(Continue(Next(history, StartCallback), events), EndCallback)
      modifies this
      ensures Synced() && history == Continue(old(history), EntryEvents(events))
    {
      EntryIsThreeSteps(history, events);
      RunCallback();
      PerformAll(events);
      FinishOne();
    }

    method RunCallback()
      requires Synced() && Enabled(history, StartCallback)
      modifies this`history, this`fault, this`called, this`heap, this`pc
      ensures Synced() && history == Next(old(history), StartCallback)
      ensures var addr := old(pc).batch[old(pc).i].addr;
        && fault == (addr !in old(heap))
        && (!fault ==> called == old(called) + [addr] && pc == old(pc).(running := true))
    {
      var addr := pc.batch[pc.i].addr;
      history := Next(history, StartCallback);
      if addr !in heap {
        fault := true;   // canceled() is read from a freed object
        return;
      }
      called := called + [addr];
      heap := heap[addr := heap[addr].(fired := heap[addr].fired + 1)];
      pc := pc.(running := true);
    }

    method FinishOne()
      requires Synced() && Enabled(history, EndCallback)
      modifies this`history, this`fault, this`pc, this`heap, this`timers, this`freed
      ensures Synced() && history == Next(old(history), EndCallback)
      ensures var addr := old(pc).batch[old(pc).i].addr;
        && fault == (addr !in old(heap))
        && (!fault ==> pc == old(pc).(running := false, i := old(pc).i + 1) && heap - {addr} == old(heap) - {addr})
        && (!fault && old(heap)[addr].interval > 0 && !old(heap)[addr].canceled ==>
          && addr in heap && heap[addr].when == old(heap)[addr].when + old(heap)[addr].interval && freed == old(freed)
          && forall x :: x in timers <==> x in old(timers) || x == Entry(heap[addr].when, addr))
        && (!fault && (old(heap)[addr].interval <= 0 || old(heap)[addr].canceled) ==>
          addr !in heap && timers == old(timers) && freed == old(freed) + [old(heap)[addr].id])
    {
      var addr := pc.batch[pc.i].addr;
      history := Next(history, EndCallback);
      if addr !in heap {
        fault := true;   // likewise, after the callback
        return;
      }
      pc := pc.(running := false, i := pc.i + 1);
      if !heap[addr].canceled && heap[addr].Repeat() {
        heap := heap[addr := heap[addr].(when := heap[addr].when + heap[addr].interval)];
        timers := Insert(timers, Entry(heap[addr].when, addr));
      } else {
        freed := freed + [heap[addr].id];
        heap := heap - {addr};
      }
    }

    /** `handleRead`; `during[k]` is what happens inside the k-th callback. */
    method HandleRead(during: seq<seq<Event>>) returns (ghost n: nat)
      requires Valid() && pc.Idle? && AllQuiet(during)
      requires Disciplined(history, RoundEvents(during, DueCount(history)))
      modifies this
      ensures Valid() && pc.Idle?
      ensures n == DueCount(old(history))
      ensures history == Continue(old(history), RoundEvents(during, n))
    {
      hide Ownership, Schedule, Armed, Round, Tally, Continue, Disciplined;
      ghost var start := history;
      n := DueCount(history);
      RoundKeepsInv(start, during);
      StartRound();
      ghost var fired := history;
      DispatchAll(during, fired);
      EndRound();
      RoundIsItsSteps(start, during, n);
    }

    method StartRound()
      requires Synced() && !fault && pc.Idle?
      modifies this`history, this`readable, this`timers, this`pc, this`called
      ensures Synced() && history == Next(old(history), Fire)
      ensures !readable && called == [] && pc.Dispatching? && pc.now == clock && pc.i == 0 && !pc.running
      ensures old(timers) == pc.batch + timers
    {
      TakeDue(history, FireStep(history));
      history := Next(history, Fire);
    }

    method TakeDue(ghost s: State, ghost t: State)
      requires Shows(s)
      requires var n := DueCount(s);
        t == s.(readable := false, timers := s.timers[n..], firedNow := [], where := t.where,
                pc := Dispatching(s.clock, s.timers[..n], 0, false))
      modifies this`readable, this`timers, this`pc, this`called
      ensures Shows(t)
    {
      readable := false;   // timerfdRead
      var now := clock;
      var entries := GetExpired(now);
      pc, called := Dispatching(now, entries, 0, false), [];
    }

    method EndRound()
      requires Synced() && Enabled(history, EndDispatch)
      modifies this`history, this`pc, this`expiry, this`readable
      ensures Synced() && history == Next(old(history), EndDispatch)
      ensures pc.Idle? && (timers != [] ==> ArmedFor(timers[0].when))
      ensures timers == [] ==> expiry == old(expiry) && readable == old(readable)
    {
      history := Next(history, EndDispatch);
      pc := Idle;
      if timers != [] {
        TimerfdSet(timers[0].when);
      }
    }

    method DispatchAll(during: seq<seq<Event>>, ghost start: State)
      requires Synced() && history == start && P.Inv(start) && start.pc.Dispatching? && start.pc.i == 0 && !start.pc.running
      requires AllQuiet(during) && Disciplined(start, BatchEvents(during, |start.pc.batch|))
      modifies this
      ensures Synced() && history == Continue(start, BatchEvents(during, |start.pc.batch|))
    {
      hide P.Inv, Next, Disciplined, Enabled, EntryEvents;
      var n := |pc.batch|;
      for k := 0 to n
        invariant Synced() && history == Continue(start, BatchEvents(during, k))
      {
        DispatchNext(start, during, k);
      }
    }

    method DispatchNext(ghost start: State, during: seq<seq<Event>>, k: nat)
      requires P.Inv(start) && start.pc.Dispatching? && start.pc.i == 0 && !start.pc.running && k < |start.pc.batch|
      requires AllQuiet(during) && Disciplined(start, BatchEvents(during, |start.pc.batch|))
      requires Synced() && history == Continue(start, BatchEvents(during, k))
      modifies this
      ensures Synced() && history == Continue(start, BatchEvents(during, k + 1))
    {
      hide P.Inv, Next, Continue, Disciplined, Enabled, EntryEvents;
      BatchPrefix(start, during, k, |start.pc.batch|);
      BatchPrefix(start, during, k + 1, |start.pc.batch|);
      RunBoth(start, BatchEvents(during, k), EntryEvents(Nth(during, k)));
      BatchKeepsInv(start, during, k);
      EntryKeepsInv(history, Nth(during, k));
      DispatchOne(Nth(during, k));
    }

    /** One event of a run, done by the method it stands for, if it is possible now. */
    method Step(e: Event)
      requires Synced()
      modifies this
      ensures Synced() && history == Next(old(history), e)
    {
      if fault {
        return;
      }
      match e {
        case Fire =>
          if pc.Idle? {
            StartRound();
          }
        case StartCallback =>
          if pc.Dispatching? && pc.i < |pc.batch| && !pc.running && !SkipsMember() {
            RunCallback();
          }
        case EndCallback =>
          if pc.Dispatching? && pc.i < |pc.batch| && (pc.running || SkipsMember()) {
            FinishOne();
          }
        case EndDispatch =>
          if pc.Dispatching? && pc.i >= |pc.batch| {
            EndRound();
          }
        case _ => Perform(e);
      }
    }

    predicate SkipsMember()
      requires pc.Dispatching? && pc.i < |pc.batch|
      reads this
    {
      pc.batch[pc.i].addr in heap && heap[pc.batch[pc.i].addr].canceled
    }

    /** Any run of the object, whatever is cancelled, is a run of the protocol, so the theorems about runs
        hold of its fields. It uses no freed object as long as its cancellations are permitted. */
    method Drive(es: seq<Event>)
      requires Synced() && history == Init(clock)
      modifies this
      ensures Synced() && history == Continue(Init(old(clock)), es)
      ensures Disciplined(Init(old(clock)), es) ==> Valid()
      ensures Disciplined(Init(old(clock)), es) && pc.Idle? && timers != [] ==>
        readable || (expiry.Some? && expiry.value <= P.Max(timers[0].when, history.lastArm + 1_000_000))
    {
      for k := 0 to |es|
        invariant Synced() && history == Continue(Init(old(clock)), es[..k])
      {
        Step(es[k]);
        assert es[..k + 1][..k] == es[..k];
      }
      assert es[..|es|] == es;
      if Disciplined(Init(old(clock)), es) {
        RunKeepsInv(old(clock), es);
        NoTimerForgotten(old(clock), es);
      }
    }
  }
}
