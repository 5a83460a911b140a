/** The double-buffered asynchronous log (AsyncLogging.cc) as a protocol of atomic steps. */
module LogProtocol {
  import opened Bytes
  import opened LogBuffers

  type Line = seq<Byte>
  type Lines = seq<Line>   // the contents of one buffer, line by line

  const BATCH_LIMIT := 25

  /** A buffer that left the protocol, with its place in the batch that carried it. */
  datatype Retired = Retired(lines: Lines, lost: bool, position: nat, batch: nat)

  datatype WriterPc = Head | Waiting | Swapped | Writing | Done

  datatype State = State(
    running: bool,
    current: Lines,            // shared, under the mutex
    next: Option<Lines>,
    buffers: seq<Lines>,
    pc: WriterPc,              // the writer thread
    spare1: Option<Lines>,
    spare2: Option<Lines>,
    toWrite: seq<Lines>,
    index: nat,
    batch: nat,
    file: Lines,
    appended: Lines,           // history: every append call, in lock order
    doomed: seq<Lines>,        // history: erased from the batch now being written
    retired: seq<Retired>,     // history: buffers already written or erased
    closers: seq<Line>,        // history: the line that each queued buffer was closed for
    batchClosers: seq<Line>)   // history: the same for the batch being written

  datatype Event = Append(line: Line) | Stop | WriterEnter | WriterWake | Trim | WriteOne | Recycle

  const Init := State(true, [], Some([]), [], Head, Some([]), Some([]), [], 0, 0, [], [], [], [], [], [])

  // ---------------------------------------------------------------- the steps

  predicate Fits(b: Lines, line: Line) { LARGE_BUFFER - |Flatten(b)| > |line| }

  function Put(b: Lines, line: Line): Lines {
    if Fits(b, line) then b + [line] else b
  }

  /** The full buffer is queued; the next one, or a new one, becomes current. */
  ghost function RotateStep(s: State): State {
    s.(buffers := s.buffers + [s.current], current := s.next.GetOr([]), next := None)
  }

  /** The producer's critical section. */
  ghost function AppendStep(s: State, line: Line): State {
    var t := if Fits(s.current, line) then s else RotateStep(s).(closers := s.closers + [line]);
    t.(current := Put(t.current, line), appended := s.appended + [line])
  }

  /** The writer's critical section after any wait. */
  ghost function SwapStep(s: State): State {
    s.(toWrite := s.buffers + [s.current],
       buffers := s.toWrite,
       batch := |s.buffers| + 1,
       batchClosers := s.closers,
       closers := [],
       current := s.spare1.GetOr([]),
       spare1 := None,
       next := if s.next.None? then s.spare2 else s.next,
       spare2 := if s.next.None? then None else s.spare2,
       pc := Swapped)
  }

  ghost function EnterStep(s: State): State {
    if !s.running then s.(pc := Done)
    else if s.buffers == [] then s.(pc := Waiting)
    else SwapStep(s)
  }

  ghost function TrimStep(s: State): State {
    var trimmed := s.(pc := Writing, index := 0);
    if |s.toWrite| > BATCH_LIMIT
    then trimmed.(toWrite := s.toWrite[..2], doomed := s.toWrite[2..])
    else trimmed
  }

  ghost function WriteStep(s: State): State
    requires s.index < |s.toWrite|
  {
    s.(file := s.file + s.toWrite[s.index],
       retired := s.retired + [Retired(s.toWrite[s.index], false, s.index, s.batch)],
       index := s.index + 1)
  }

  function Lost(doomed: seq<Lines>, batch: nat): (r: seq<Retired>)
    ensures |r| == |doomed|
    ensures forall k :: 0 <= k < |doomed| ==> r[k] == Retired(doomed[k], true, k + 2, batch)
  {
    if doomed == [] then []
    else Lost(doomed[..|doomed| - 1], batch) + [Retired(doomed[|doomed| - 1], true, |doomed| + 1, batch)]
  }

  /** Spares come back from the front two buffers of the batch, emptied; the rest goes. */
  ghost function HandBackStep(s: State): State {
    s.(spare1 := Some(s.spare1.GetOr([])), spare2 := Some(s.spare2.GetOr([])), toWrite := [])
  }

  ghost function ForgetStep(s: State): State {
    s.(retired := s.retired + Lost(s.doomed, s.batch), doomed := [], batchClosers := [], index := 0, pc := Head)
  }

  ghost function RecycleStep(s: State): State {
    ForgetStep(HandBackStep(s))
  }

  predicate Enabled(s: State, e: Event) {
    match e
    case Append(_) => true
    case Stop => true
    case WriterEnter => s.pc == Head
    case WriterWake => s.pc == Waiting
    case Trim => s.pc == Swapped
    case WriteOne => s.pc == Writing && s.index < |s.toWrite|
    case Recycle => s.pc == Writing && s.index >= |s.toWrite|
  }

  ghost function Next(s: State, e: Event): State {
    if !Enabled(s, e) then s
    else match e
      case Append(line) => AppendStep(s, line)
      case Stop => s.(running := false)
      case WriterEnter => EnterStep(s)
      case WriterWake => SwapStep(s)
      case Trim => TrimStep(s)
      case WriteOne => WriteStep(s)
      case Recycle => RecycleStep(s)
  }

  /** Any interleaving of any number of producers with the writer: any list of events. */
  ghost function Run(es: seq<Event>): State {
    if es == [] then Init else Next(Run(es[..|es| - 1]), es[|es| - 1])
  }

  /** The asserts that step `e` meets in threadFunc. */
  ghost predicate AssertsHold(s: State, e: Event) {
    match e
    case WriterEnter => s.running ==> s.spare1 == Some([]) && s.spare2 == Some([]) && s.toWrite == []
    case Trim => s.toWrite != []
    case Recycle =>
      var kept := if |s.toWrite| < 2 then |s.toWrite| else 2;
      var needed := (if s.spare1.None? then 1 else 0) + (if s.spare2.None? then 1 else 0);
      needed <= kept
    case _ => true
  }

  // ---------------------------------------------------------------- conservation

  /** Lines a buffer of LARGE_BUFFER bytes can hold at all, in order. */
  ghost function Accepted(lines: Lines): Lines {
    if lines == [] then []
    else Accepted(lines[..|lines| - 1]) + if |lines[|lines| - 1]| < LARGE_BUFFER then [lines[|lines| - 1]] else []
  }

  ghost function Everything(rs: seq<Retired>): Lines {
    if rs == [] then [] else Everything(rs[..|rs| - 1]) + rs[|rs| - 1].lines
  }

  ghost function Kept(rs: seq<Retired>): Lines {
    if rs == [] then []
    else Kept(rs[..|rs| - 1]) + if rs[|rs| - 1].lost then [] else rs[|rs| - 1].lines
  }

  ghost function Unwritten(s: State): Lines {
    if s.index <= |s.toWrite| then Flatten(s.toWrite[s.index..]) else []
  }

  ghost function InFlight(s: State): Lines {
    Unwritten(s) + Flatten(s.doomed) + Flatten(s.buffers) + s.current
  }

  ghost predicate Spares(s: State) {
    match s.pc
    case Head => s.spare1 == Some([]) && s.spare2 == Some([]) && s.toWrite == []
    case Waiting => s.spare1 == Some([]) && s.spare2 == Some([]) && s.toWrite == []
    case Done => s.toWrite == []
    case _ =>
      && s.spare1.None? && s.toWrite != []
      && (s.spare2.None? ==> |s.toWrite| >= 2)
      && (s.spare2.Some? ==> s.spare2 == Some([]))
  }

  ghost predicate Conserved(s: State) {
    Everything(s.retired) + InFlight(s) == Accepted(s.appended)
  }

  ghost predicate Inv(s: State) {
    Shape(s) && Conserved(s)
  }

  ghost predicate Shape(s: State) {
    && |Flatten(s.current)| < LARGE_BUFFER
    && (s.next.Some? ==> s.next == Some([]))
    && (s.next.None? ==> s.buffers != [])
    && Spares(s)
    && s.index <= |s.toWrite|
    && (s.pc != Writing ==> s.doomed == [] && s.index == 0)
    && (s.pc in {Swapped, Writing} ==> s.batch == |s.toWrite| + |s.doomed|)
    && (s.doomed != [] ==> s.batch > BATCH_LIMIT)
    && (s.pc == Writing && s.batch > BATCH_LIMIT ==> |s.toWrite| == 2)
    && Bounded(s.buffers) && Bounded(s.toWrite)
    && LossIsOverload(s.retired)
    && s.file == Kept(s.retired)
  }

  /** Each buffer but the last was left because of one line: that line did not fit behind what the buffer
      holds, and it is the first one in the buffer after it, unless no buffer could ever hold it. */
  ghost predicate Chain(bs: seq<Lines>, closers: seq<Line>) {
    && |bs| == |closers| + 1
    && forall i :: 0 <= i < |closers| ==> Closed(bs[i], closers[i], bs[i + 1])
  }

  ghost predicate Closed(b: Lines, line: Line, next: Lines) {
    && |Flatten(b)| + |line| >= 4_000_000
    && (|line| < 4_000_000 ==> next != [] && next[0] == line)
  }

  ghost predicate Linked(s: State) {
    && Chain(s.buffers + [s.current], s.closers)
    && (s.pc in {Swapped, Writing} ==> Chain(s.toWrite + s.doomed, s.batchClosers))
    && (forall line :: line in s.closers + s.batchClosers ==> line in s.appended)
  }

  lemma AppendKeepsLinks(s: State, line: Line)
    requires Shape(s) && Linked(s)
    ensures Linked(AppendStep(s, line))
  {
    var t := AppendStep(s, line);
    assert Flatten<Byte>([]) == [];
    if Fits(s.current, line) {
      CurrentGrows(s.buffers, s.current, s.closers, line);
    } else {
      FlattenSnoc([], line);
      OneMoreClosed(s.buffers, s.current, s.closers, line, t.current);
    }
  }

  lemma CurrentGrows(bs: seq<Lines>, b: Lines, closers: seq<Line>, line: Line)
    requires Chain(bs + [b], closers)
    ensures Chain(bs + [b + [line]], closers)
  {
    var was, now := bs + [b], bs + [b + [line]];
    forall i | 0 <= i < |closers| ensures Closed(now[i], closers[i], now[i + 1]) {
      assert Closed(was[i], closers[i], was[i + 1]);
    }
  }

  lemma OneMoreClosed(bs: seq<Lines>, b: Lines, closers: seq<Line>, line: Line, next: Lines)
    requires Chain(bs + [b], closers) && Closed(b, line, next)
    ensures Chain(bs + [b] + [next], closers + [line])
  {
    var was, now, more := bs + [b], bs + [b] + [next], closers + [line];
    forall i | 0 <= i < |more| ensures Closed(now[i], more[i], now[i + 1]) {
      if i < |closers| {
        assert Closed(was[i], closers[i], was[i + 1]);
      }
    }
  }

  lemma NextKeepsLinks(s: State, e: Event)
    requires Inv(s) && Linked(s)
    ensures Linked(Next(s, e))
  {
    hide Chain, Conserved;
    if Enabled(s, e) {
      match e {
        case Append(line) => AppendKeepsLinks(s, line);
        case WriterEnter =>
          if s.running && s.buffers != [] {
            SwapKeepsLinks(s);
          }
        case WriterWake => SwapKeepsLinks(s);
        case Trim => TrimKeepsLinks(s);
        case _ =>
      }
    }
  }

  lemma TrimKeepsLinks(s: State)
    requires Shape(s) && Linked(s) && s.pc == Swapped
    ensures Linked(TrimStep(s))
  {
    if |s.toWrite| > BATCH_LIMIT {
      assert s.toWrite[..2] + s.toWrite[2..] == s.toWrite + [];
    }
  }

  lemma SwapKeepsLinks(s: State)
    requires Shape(s) && Linked(s) && (s.pc == Head || s.pc == Waiting)
    ensures Linked(SwapStep(s))
  {
    assert SwapStep(s).buffers + [SwapStep(s).current] == [SwapStep(s).current];
    assert s.buffers + [s.current] + [] == s.buffers + [s.current];
  }

  lemma {:induction false} RunKeepsLinks(es: seq<Event>)
    ensures Linked(Run(es))
  {
    if es != [] {
      RunKeepsLinks(es[..|es| - 1]);
      RunKeepsInv(es[..|es| - 1]);
      NextKeepsLinks(Run(es[..|es| - 1]), es[|es| - 1]);
    }
  }

  ghost predicate Bounded(bs: seq<Lines>) {
    forall b :: b in bs ==> |Flatten(b)| < LARGE_BUFFER
  }

  /** A place in a batch that the writer erases. */
  predicate Overloaded(r: Retired) {
    r.position >= 2 && r.batch > BATCH_LIMIT
  }

  ghost predicate LossIsOverload(rs: seq<Retired>) {
    forall r :: r in rs ==> (r.lost <==> Overloaded(r))
  }

  lemma FlattenOne(b: Lines)
    ensures Flatten([b]) == b
  {
    assert [b][..0] == [];
    assert Flatten<Line>([]) == [];
  }

  lemma FlattenSnoc<T>(bs: seq<seq<T>>, b: seq<T>)
    ensures Flatten(bs + [b]) == Flatten(bs) + b
  {
    assert (bs + [b])[..|bs|] == bs;
  }

  lemma FlattenHead(bs: seq<Lines>)
    requires bs != []
    ensures Flatten(bs) == bs[0] + Flatten(bs[1..])
  {
    FlattenOne(bs[0]);
    FlattenConcat([bs[0]], bs[1..]);
    assert bs == [bs[0]] + bs[1..];
  }

  lemma RetireOne(rs: seq<Retired>, r: Retired)
    ensures Everything(rs + [r]) == Everything(rs) + r.lines
    ensures Kept(rs + [r]) == Kept(rs) + if r.lost then [] else r.lines
    ensures LossIsOverload(rs) && (r.lost <==> Overloaded(r)) ==> LossIsOverload(rs + [r])
  {
    assert (rs + [r])[..|rs|] == rs;
  }

  lemma {:induction false} LostLines(rs: seq<Retired>, doomed: seq<Lines>, batch: nat)
    ensures Everything(rs + Lost(doomed, batch)) == Everything(rs) + Flatten(doomed)
    ensures Kept(rs + Lost(doomed, batch)) == Kept(rs)
    ensures LossIsOverload(rs) && (doomed != [] ==> batch > BATCH_LIMIT) ==> LossIsOverload(rs + Lost(doomed, batch))
  {
    hide Everything, Kept, LossIsOverload;
    if doomed == [] {
      assert rs + Lost(doomed, batch) == rs;
    } else {
      var front, last := doomed[..|doomed| - 1], Retired(doomed[|doomed| - 1], true, |doomed| + 1, batch);
      LostLines(rs, front, batch);
      RetireOne(rs + Lost(front, batch), last);
      assert rs + Lost(doomed, batch) == (rs + Lost(front, batch)) + [last];
      assert (Everything(rs) + Flatten(front)) + last.lines == Everything(rs) + (Flatten(front) + last.lines);
    }
  }

  lemma AcceptedSnoc(lines: Lines, line: Line)
    ensures Accepted(lines + [line]) == Accepted(lines) + if |line| < LARGE_BUFFER then [line] else []
  {
    assert (lines + [line])[..|lines|] == lines;
  }

  lemma TailGrows<T>(a: seq<T>, b: seq<T>, c: seq<T>, d: seq<T>, e: seq<T>, d2: seq<T>, e2: seq<T>, cell: seq<T>)
    requires d2 + e2 == d + e + cell
    ensures a + (b + c + d2 + e2) == (a + (b + c + d + e)) + cell
  {
    assert b + c + d2 + e2 == b + c + (d2 + e2);
    assert b + c + (d + e + cell) == b + c + d + e + cell;
  }

  lemma AppendKeepsShape(s: State, line: Line)
    requires Shape(s)
    ensures Shape(AppendStep(s, line))
  {
    hide Kept, LossIsOverload, Flatten, Bounded;
    FlattenSnoc(s.current, line);
    FlattenSnoc([], line);
    NothingFlattens();
    BoundedSnoc(s.buffers, s.current);
  }

  lemma NothingFlattens()
    ensures Flatten<Byte>([]) == [] && Flatten<Line>([]) == []
  {
  }

  lemma BoundedSnoc(bs: seq<Lines>, b: Lines)
    requires Bounded(bs) && |Flatten(b)| < LARGE_BUFFER
    ensures Bounded(bs + [b])
  {
  }

  lemma AppendConserves(s: State, line: Line)
    requires Shape(s) && Conserved(s)
    ensures Conserved(AppendStep(s, line))
  {
    var t := AppendStep(s, line);
    var cell: Lines := if |line| < LARGE_BUFFER then [line] else [];
    AcceptedSnoc(s.appended, line);
    AppendAtTheEnd(s, line);
    TailGrows(Everything(s.retired), Unwritten(s), Flatten(s.doomed), Flatten(s.buffers), s.current,
              Flatten(t.buffers), t.current, cell);
  }

  lemma AppendAtTheEnd(s: State, line: Line)
    requires s.next.Some? ==> s.next == Some([])
    ensures var t := AppendStep(s, line);
      Flatten(t.buffers) + t.current == Flatten(s.buffers) + s.current + if |line| < LARGE_BUFFER then [line] else []
  {
    assert Flatten<Byte>([]) == [];
    if !Fits(s.current, line) {
      FlattenSnoc(s.buffers, s.current);
    }
  }

  lemma SwapKeepsInv(s: State)
    requires Inv(s) && (s.pc == Waiting || (s.pc == Head && s.buffers != []))
    ensures Inv(SwapStep(s))
  {
    var t := SwapStep(s);
    FlattenSnoc(s.buffers, s.current);
    assert Flatten<Byte>([]) == [] && Flatten<Line>([]) == [];
    assert Unwritten(s) == [] && Unwritten(t) == Flatten(t.toWrite) by { assert t.toWrite[0..] == t.toWrite; }
    Regroup(Everything(s.retired), [], Flatten(s.buffers), s.current);
  }

  lemma Regroup<T>(a: seq<T>, b: seq<T>, c: seq<T>, d: seq<T>)
    ensures a + ([] + b + c + d) == (a + b) + ([] + [] + c + d)
    ensures a + ((c + d) + [] + [] + []) == a + ([] + [] + c + d)
  {
  }

  lemma TrimKeepsInv(s: State)
    requires Inv(s) && s.pc == Swapped
    ensures Inv(TrimStep(s))
  {
    var t := TrimStep(s);
    assert s.toWrite[0..] == s.toWrite && t.toWrite[0..] == t.toWrite;
    assert Flatten<Line>([]) == [];
    if |s.toWrite| > BATCH_LIMIT {
      assert s.toWrite == s.toWrite[..2] + s.toWrite[2..];
      FlattenConcat(s.toWrite[..2], s.toWrite[2..]);
    }
    assert Flatten(t.toWrite) + Flatten(t.doomed) == Flatten(s.toWrite) + Flatten(s.doomed);
    assert InFlight(t) == InFlight(s);
  }

  lemma WriteKeepsShape(s: State)
    requires Shape(s) && s.pc == Writing && s.index < |s.toWrite|
    ensures Shape(WriteStep(s))
  {
    RetireOne(s.retired, Retired(s.toWrite[s.index], false, s.index, s.batch));
  }

  lemma WriteConserves(s: State)
    requires Conserved(s) && s.index < |s.toWrite|
    ensures Conserved(WriteStep(s))
  {
    hide Accepted, Flatten;
    var t := WriteStep(s);
    assert t.retired[..|s.retired|] == s.retired;
    HeadMoves(s.toWrite, s.index);
    ShiftOver(Everything(s.retired), s.toWrite[s.index], Flatten(t.toWrite[t.index..]),
              Flatten(s.doomed), Flatten(s.buffers), s.current);
  }

  lemma ShiftOver<T>(a: seq<T>, b: seq<T>, c: seq<T>, d: seq<T>, e: seq<T>, f: seq<T>)
    ensures a + ((b + c) + d + e + f) == (a + b) + (c + d + e + f)
    ensures a + (b + [] + e + f) == a + b + e + f
  {
  }

  lemma HeadMoves(bs: seq<Lines>, i: nat)
    requires i < |bs|
    ensures Flatten(bs[i..]) == bs[i] + Flatten(bs[i + 1..])
  {
    FlattenHead(bs[i..]);
    assert bs[i..][1..] == bs[i + 1..];
  }

  lemma RecycleKeepsShape(s: State)
    requires Shape(s) && s.pc == Writing
    ensures Shape(RecycleStep(s))
  {
    hide LossIsOverload;
    LostLines(s.retired, s.doomed, s.batch);
  }

  lemma RecycleConserves(s: State)
    requires Conserved(s) && s.index == |s.toWrite|
    ensures Conserved(RecycleStep(s))
  {
    LostLines(s.retired, s.doomed, s.batch);
    assert Flatten<Line>([]) == [];
    assert Unwritten(s) == [] && Unwritten(RecycleStep(s)) == [];
    Regroup(Everything(s.retired), Flatten(s.doomed), Flatten(s.buffers), s.current);
  }

  lemma NextKeepsInv(s: State, e: Event)
    requires Inv(s)
    ensures Inv(Next(s, e))
    ensures Enabled(s, e) ==> AssertsHold(s, e)
  {
    if Enabled(s, e) {
      match e {
        case Append(line) =>
          AppendKeepsShape(s, line);
          AppendConserves(s, line);
        case WriterEnter =>
          if s.running && s.buffers != [] {
            SwapKeepsInv(s);
          }
        case WriterWake => SwapKeepsInv(s);
        case Trim => TrimKeepsInv(s);
        case WriteOne =>
          WriteKeepsShape(s);
          WriteConserves(s);
        case Recycle =>
          RecycleKeepsShape(s);
          RecycleConserves(s);
        case Stop =>
      }
    }
  }

  lemma {:induction false} RunKeepsInv(es: seq<Event>)
    ensures Inv(Run(es))
  {
    if es != [] {
      RunKeepsInv(es[..|es| - 1]);
      NextKeepsInv(Run(es[..|es| - 1]), es[|es| - 1]);
    } else {
      assert Init.toWrite[0..] == [];
    }
  }

  /** The lines of the append calls of a run. */
  ghost function Appends(es: seq<Event>): Lines {
    if es == [] then []
    else Appends(es[..|es| - 1]) + if es[|es| - 1].Append? then [es[|es| - 1].line] else []
  }

  lemma {:induction false} HistoryIsTheAppends(es: seq<Event>)
    ensures Run(es).appended == Appends(es)
  {
    if es != [] {
      HistoryIsTheAppends(es[..|es| - 1]);
    }
  }

  // ---------------------------------------------------------------- main results, for every interleaving

  /** No assert of threadFunc that a step meets can fail. */
  lemma NoAssertFails(es: seq<Event>, e: Event)
    requires Enabled(Run(es), e)
    ensures AssertsHold(Run(es), e)
  {
    RunKeepsInv(es);
    NextKeepsInv(Run(es), e);
  }

  /** Lock-order conservation, with the exact losses: every accepted line is in the file, in an
      erased buffer, or still in flight, in its own place; and a buffer the writer is done with was erased
      if and only if it stood at position 2 or above in a batch of more than 25. */
  lemma Conservation(es: seq<Event>)
    ensures var s := Run(es);
      && s.file == Kept(s.retired)
      && Everything(s.retired) + InFlight(s) == Accepted(Appends(es))
      && (forall r :: r in s.retired ==> (r.lost <==> r.position >= 2 && r.batch > 25))
      && (s.doomed != [] ==> s.batch > 25)
      && (s.pc in {Swapped, Writing} ==> s.batch == |s.toWrite| + |s.doomed|)
  {
    HistoryIsTheAppends(es);
    RunKeepsInv(es);
  }

  /** What the file and the buffers in flight still have to show for the accepted lines. */
  ghost function Surviving(s: State): Lines {
    s.file + Unwritten(s) + Flatten(s.buffers) + s.current
  }

  ghost predicate ErasedOnlyEmpty(s: State) {
    (forall r :: r in s.retired && r.position >= 2 && r.batch > 25 ==> r.lines == []) && Flatten(s.doomed) == []
  }

  /** Nothing at all is lost if and only if every buffer at an erased place had nothing in it. */
  lemma {:induction false} NothingLostIff(es: seq<Event>)
    ensures var s := Run(es);
      (Surviving(s) == Accepted(Appends(es))) <==> ErasedOnlyEmpty(s)
  {
    HistoryIsTheAppends(es);
    RunKeepsInv(es);
    var s := Run(es);
    KeptLength(s.retired);
    assert |Surviving(s)| == |Kept(s.retired)| + |Unwritten(s)| + |Flatten(s.buffers)| + |s.current|;
    assert |Accepted(s.appended)| == |Everything(s.retired)| + |Unwritten(s)| + |Flatten(s.doomed)| + |Flatten(s.buffers)| + |s.current|;
    if Kept(s.retired) == Everything(s.retired) && Flatten(s.doomed) == [] {
      ShiftOver(s.file, Unwritten(s), [], [], Flatten(s.buffers), s.current);
    }
  }

  lemma {:induction false} KeptLength(rs: seq<Retired>)
    requires LossIsOverload(rs)
    ensures |Kept(rs)| <= |Everything(rs)|
    ensures |Kept(rs)| == |Everything(rs)| <==> forall r :: r in rs && Overloaded(r) ==> r.lines == []
    ensures |Kept(rs)| == |Everything(rs)| ==> Kept(rs) == Everything(rs)
  {
    if rs != [] {
      var front, last := rs[..|rs| - 1], rs[|rs| - 1];
      KeptLength(front);
      assert rs == front + [last];
    }
  }

  /** A buffer is queued only because of an appended line that did not fit behind its contents, and that
      line opens the buffer after it: between neighbours of the queue and the current buffer, and of the
      batch that the writer has taken. So many small lines do not make many buffers. */
  lemma QueuedOnlyWhenFull(es: seq<Event>)
    ensures var s := Run(es);
      && Chain(s.buffers + [s.current], s.closers)
      && (s.pc in {Swapped, Writing} ==> Chain(s.toWrite + s.doomed, s.batchClosers))
      && (forall line :: line in s.closers + s.batchClosers ==> line in Appends(es))
  {
    RunKeepsLinks(es);
    HistoryIsTheAppends(es);
  }

  /** One append, in its own terms: a line that fits behind the current buffer's contents goes there and
      nothing else changes; otherwise exactly the current buffer is queued and the line starts the next. */
  lemma AppendEffect(es: seq<Event>, line: Line)
    ensures var s, t := Run(es), Run(es + [Append(line)]);
      && (|Flatten(s.current)| + |line| < 4_000_000 ==>
        t.current == s.current + [line] && t.buffers == s.buffers && t.next == s.next)
      && (|Flatten(s.current)| + |line| >= 4_000_000 ==>
        && t.buffers == s.buffers + [s.current] && t.next == None
        && t.current == (if |line| < 4_000_000 then [line] else []))
  {
    assert (es + [Append(line)])[..|es|] == es;
    RunKeepsInv(es);
    assert Flatten<Byte>([]) == [];
  }

  /** The log runs until it is told to stop, and the writer leaves its loop the first time it looks at the
      loop head after that, and not before. */
  lemma {:induction false} WriterStopsIff(es: seq<Event>)
    ensures Run(es).running <==> Stop !in es
    ensures Run(es).pc == Head ==> (Run(es + [WriterEnter]).pc == Done <==> Stop in es)
    ensures Run(es).pc == Head && Stop !in es ==>
      Run(es + [WriterEnter]).pc == if Run(es).buffers == [] then Waiting else Swapped
  {
    assert (es + [WriterEnter])[..|es|] == es;
    RunningIff(es);
  }

  lemma {:induction false} RunningIff(es: seq<Event>)
    ensures Run(es).running <==> Stop !in es
  {
    if es != [] {
      var front, e := es[..|es| - 1], es[|es| - 1];
      RunningIff(front);
      assert es == front + [e];
    }
  }

  function Writes(k: nat): (es: seq<Event>)
    ensures |es| == k && forall i :: 0 <= i < k ==> es[i] == WriteOne
  {
    if k == 0 then [] else Writes(k - 1) + [WriteOne]
  }

  lemma RunOne(es: seq<Event>, e: Event)
    ensures Run(es + [e]) == Next(Run(es), e)
  {
    assert (es + [e])[..|es|] == es;
  }

  lemma {:induction false} WritesOut(es: seq<Event>, k: nat)
    requires Run(es).pc == Writing && Run(es).index + k <= |Run(es).toWrite|
    ensures var s, t := Run(es), Run(es + Writes(k));
      && t == s.(file := t.file, retired := t.retired, index := s.index + k)
      && t.file == s.file + Flatten(s.toWrite[s.index..s.index + k])
  {
    hide Run, Flatten;
    var s := Run(es);
    if k == 0 {
      assert es + Writes(0) == es;
      assert s.toWrite[s.index..s.index] == [];
      NothingFlattens();
    } else {
      WritesOut(es, k - 1);
      RunOne(es + Writes(k - 1), WriteOne);
      assert es + Writes(k) == es + Writes(k - 1) + [WriteOne];
      var from, to := s.index, s.index + k;
      FlattenSnoc(s.toWrite[from..to - 1], s.toWrite[to - 1]);
      assert s.toWrite[from..to] == s.toWrite[from..to - 1] + [s.toWrite[to - 1]];
      assert s.file + Flatten(s.toWrite[from..to - 1]) + s.toWrite[to - 1]
        == s.file + (Flatten(s.toWrite[from..to - 1]) + s.toWrite[to - 1]);
    }
  }

  /** A whole round of the writer, from the loop head or the end of a wait: everything that was queued or
      current when it took the lock goes to the file in order, or the first two buffers of more than 25;
      the shared buffers are empty afterwards and the writer is at its loop head with both spares. */
  lemma RoundWritesWhatItTook(es: seq<Event>, entry: Event)
    requires (entry == WriterEnter && Run(es).pc == Head && Run(es).running && Run(es).buffers != [])
      || (entry == WriterWake && Run(es).pc == Waiting)
    ensures var s := Run(es);
      var took := s.buffers + [s.current];
      var kept := if |took| > 25 then 2 else |took|;
      var t := Run(es + [entry] + [Trim] + Writes(kept) + [Recycle]);
      && t.file == s.file + Flatten(took[..kept])
      && t.buffers == [] && t.current == [] && t.next == Some([])
      && t.pc == Head && t.spare1 == Some([]) && t.spare2 == Some([])
      && t.running == s.running && t.appended == s.appended
  {
    hide Run, Conserved, Flatten, Bounded, LossIsOverload, Kept;
    var s := Run(es);
    RunKeepsInv(es);
    RunOne(es, entry);
    RunOne(es + [entry], Trim);
    var kept := if |s.buffers + [s.current]| > 25 then 2 else |s.buffers + [s.current]|;
    WritesOut(es + [entry] + [Trim], kept);
    RunOne(es + [entry] + [Trim] + Writes(kept), Recycle);
    RunKeepsInv(es + [entry] + [Trim] + Writes(kept) + [Recycle]);
    assert (s.buffers + [s.current])[..kept][0..kept] == (s.buffers + [s.current])[..kept];
  }

  /** As long as no swap takes more than 25 buffers nothing at all is lost. */
  lemma NothingLostWithoutOverload(es: seq<Event>)
    requires forall r :: r in Run(es).retired ==> r.batch <= 25
    requires Run(es).pc in {Swapped, Writing} ==> Run(es).batch <= 25
    ensures var s := Run(es);
      && s.index <= |s.toWrite|
      && s.file + Flatten(s.toWrite[s.index..]) + Flatten(s.buffers) + s.current == Accepted(Appends(es))
  {
    HistoryIsTheAppends(es);
    RunKeepsInv(es);
    NoneLost(Run(es));
  }

  lemma NoneLost(s: State)
    requires Inv(s) && (forall r :: r in s.retired ==> r.batch <= BATCH_LIMIT)
    requires s.pc in {Swapped, Writing} ==> s.batch <= BATCH_LIMIT
    ensures s.file + Flatten(s.toWrite[s.index..]) + Flatten(s.buffers) + s.current == Accepted(s.appended)
  {
    AllKept(s.retired);
    assert s.doomed == [];
    assert Flatten<Line>([]) == [];
    ShiftOver(s.file, Unwritten(s), [], [], Flatten(s.buffers), s.current);
  }

  lemma {:induction false} AllKept(rs: seq<Retired>)
    requires forall r :: r in rs ==> !r.lost
    ensures Kept(rs) == Everything(rs)
  {
    if rs != [] {
      AllKept(rs[..|rs| - 1]);
    }
  }

  /** When the writer has left its loop, what never reached the file is what the two shared buffers
      hold (there is no final swap) and what overload erased. */
  lemma AtWriterExit(es: seq<Event>)
    requires Run(es).pc == Done
    ensures var s := Run(es);
      Everything(s.retired) + Flatten(s.buffers) + s.current == Accepted(Appends(es))
    ensures !Run(es).running
  {
    HistoryIsTheAppends(es);
    RunKeepsInv(es);
    StoppedAtExit(es);
    NothingUnwritten(Run(es));
  }

  lemma NothingUnwritten(s: State)
    requires Inv(s) && s.pc == Done
    ensures Everything(s.retired) + Flatten(s.buffers) + s.current == Accepted(s.appended)
  {
    assert s.toWrite[s.index..] == [];
    assert Flatten<Line>([]) == [];
    ShiftOver(Everything(s.retired), [], [], [], Flatten(s.buffers), s.current);
  }

  lemma {:induction false} StoppedAtExit(es: seq<Event>)
    ensures Run(es).pc == Done ==> !Run(es).running
  {
    if es != [] {
      StoppedAtExit(es[..|es| - 1]);
    }
  }

  /** `a` is `b` with some elements left out. */
  ghost predicate Subsequence<T>(a: seq<T>, b: seq<T>) {
    if a == [] then true
    else if b == [] then false
    else Subsequence(a, b[..|b| - 1]) || (a[|a| - 1] == b[|b| - 1] && Subsequence(a[..|a| - 1], b[..|b| - 1]))
  }

  lemma {:induction false} SubsequenceSkip<T>(a: seq<T>, b: seq<T>, more: seq<T>)
    requires Subsequence(a, b)
    ensures Subsequence(a, b + more)
  {
    if more == [] {
      assert b + more == b;
    } else {
      SubsequenceSkip(a, b, more[..|more| - 1]);
      assert (b + more)[..|b + more| - 1] == b + more[..|more| - 1];
    }
  }

  lemma {:induction false} SubsequenceKeep<T>(a: seq<T>, b: seq<T>, more: seq<T>)
    requires Subsequence(a, b)
    ensures Subsequence(a + more, b + more)
  {
    if more == [] {
      assert a + more == a && b + more == b;
    } else {
      var front := more[..|more| - 1];
      SubsequenceKeep(a, b, front);
      assert (a + more)[..|a + more| - 1] == a + front;
      assert (b + more)[..|b + more| - 1] == b + front;
    }
  }

  lemma {:induction false} KeptIsSubsequence(rs: seq<Retired>)
    ensures Subsequence(Kept(rs), Everything(rs))
  {
    if rs != [] {
      var front, r := rs[..|rs| - 1], rs[|rs| - 1];
      KeptIsSubsequence(front);
      if r.lost {
        SubsequenceSkip(Kept(front), Everything(front), r.lines);
        assert Kept(front) + [] == Kept(front);
      } else {
        SubsequenceKeep(Kept(front), Everything(front), r.lines);
      }
    }
  }

  /** Overload included, the file is whole lines, each at most once, in append order. */
  lemma FileIsOrderedSubsequence(es: seq<Event>)
    ensures Subsequence(Run(es).file, Accepted(Appends(es)))
  {
    HistoryIsTheAppends(es);
    RunKeepsInv(es);
    var s := Run(es);
    KeptIsSubsequence(s.retired);
    SubsequenceSkip(Kept(s.retired), Everything(s.retired), InFlight(s));
  }
}
