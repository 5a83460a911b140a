/** The resumable request parser (HttpContext.cc), one loop iteration at a time. */
module ParserModel {
  import opened Bytes
  import opened Requests

  datatype Phase = ExpectRequestLine | ExpectHeaders | ExpectBody | GotAll

  /** The parser, the buffer it reads and the locals of parseRequest. `aborted` is the failed assert of
      setMethod, which the build leaves enabled. */
  datatype Parser = Parser(phase: Phase, request: Request, buffer: seq<Byte>, ok: bool, hasMore: bool, aborted: bool)

  function Enter(phase: Phase, request: Request, buffer: seq<Byte>): Parser {
    Parser(phase, request, buffer, true, true, false)
  }

  // ---------------------------------------------------------------- the request line

  function WithTarget(r: Request, target: seq<Byte>): Request {
    var question := Find(target, '?');
    if question < |target| then r.(path := target[..question], query := target[question..]) else r.(path := target)
  }

  /** The target is cut at its first question mark; without one the whole of it is the path and the query
      stays what it was. */
  lemma TargetIsCut(r: Request, target: seq<Byte>)
    ensures var t := WithTarget(r, target);
      && t == r.(path := t.path, query := t.query) && '?' !in t.path
      && ('?' in target ==> t.path + t.query == target && t.query[0] == '?')
      && ('?' !in target ==> t.path == target && t.query == r.query)
  {
    var question := Find(target, '?');
    assert target[..question] + target[question..] == target;
    assert forall k :: 0 <= k < question ==> target[..question][k] != '?';
  }

  const HTTP_1: seq<Byte> := "HTTP/1."

  function WithVersion(r: Request, text: seq<Byte>): (Request, bool) {
    if |text| == 8 && text[..7] == HTTP_1 && text[7] == '1' then (r.(version := HTTP11), true)
    else if |text| == 8 && text[..7] == HTTP_1 && text[7] == '0' then (r.(version := HTTP10), true)
    else (r, false)
  }

  /** `processRequestLine`: what it leaves in the request, and whether it succeeds. */
  function RequestLine(r: Request, line: seq<Byte>): (Request, bool) {
    var space := Find(line, ' ');
    if space == |line| then (r, false)
    else
      var r1 := r.(httpMethod := MethodOf(line[..space]));
      var rest := line[space + 1..];
      var second := Find(rest, ' ');
      if r1.httpMethod == INVALID || second == |rest| then (r1, false)
      else WithVersion(WithTarget(r1, rest[..second]), rest[second + 1..])
  }

  /** A request line in the grammar's own terms. */
  ghost predicate IsLine(line: seq<Byte>, m: Method, target: seq<Byte>, minor: Byte) {
    && m != INVALID && ' ' !in target && (minor == '0' || minor == '1')
    && line == MethodToken(m) + " " + (target + " " + ("HTTP/1." + [minor]))
  }

  ghost predicate ValidLine(line: seq<Byte>) {
    exists m, target, minor :: IsLine(line, m, target, minor)
  }

  lemma FindAfter(prefix: seq<Byte>, c: Byte, suffix: seq<Byte>)
    requires c !in prefix
    ensures Find(prefix + [c] + suffix, c) == |prefix|
  {
    var s := prefix + [c] + suffix;
    assert s[|prefix|] == c;
    forall k | 0 <= k < |prefix| ensures s[k] != c {
      assert s[k] == prefix[k];
    }
    FindUnique(s, c, |prefix|);
  }

  lemma LineParts(r: Request, line: seq<Byte>, m: Method, target: seq<Byte>, minor: Byte)
    requires IsLine(line, m, target, minor)
    ensures RequestLine(r, line)
      == (WithTarget(r.(httpMethod := m), target).(version := if minor == '1' then HTTP11 else HTTP10), true)
  {
    hide Find, MethodOf, WithTarget;
    MethodRoundTrip(m, []);
    var rest := target + " " + (HTTP_1 + [minor]);
    FindAfter(MethodToken(m), ' ', rest);
    assert line == MethodToken(m) + [' '] + rest;
    assert line[..|MethodToken(m)|] == MethodToken(m) && line[|MethodToken(m)| + 1..] == rest;
    FindAfter(target, ' ', HTTP_1 + [minor]);
    assert rest == target + [' '] + (HTTP_1 + [minor]);
    assert rest[..|target|] == target && rest[|target| + 1..] == HTTP_1 + [minor];
    assert (HTTP_1 + [minor])[..7] == HTTP_1;
  }

  lemma AcceptedIsLine(r: Request, line: seq<Byte>) returns (m: Method, target: seq<Byte>, minor: Byte)
    requires RequestLine(r, line).1
    ensures IsLine(line, m, target, minor)
  {
    hide Find, MethodOf, MethodToken, WithTarget;
    var space := Find(line, ' ');
    var rest := line[space + 1..];
    var second := Find(rest, ' ');
    m, target := MethodOf(line[..space]), rest[..second];
    var text := rest[second + 1..];
    minor := text[7];
    MethodRoundTrip(m, line[..space]);
    var named :| named != INVALID && line[..space] == MethodToken(named);
    MethodRoundTrip(named, []);
    assert text == HTTP_1 + [minor];
    Rejoin(line, space);
    Rejoin(rest, second);
  }

  lemma Rejoin(s: seq<Byte>, i: nat)
    requires i < |s|
    ensures s == s[..i] + [s[i]] + s[i + 1..]
    ensures s[i] == ' ' ==> s == s[..i] + " " + s[i + 1..] && s == s[..i] + (" " + s[i + 1..])
  {
  }

  /** `processRequestLine` accepts exactly the lines of the grammar, whatever request it starts from. */
  lemma AcceptsExactly(r: Request, line: seq<Byte>)
    ensures RequestLine(r, line).1 <==> ValidLine(line)
  {
    if RequestLine(r, line).1 {
      var m, target, minor := AcceptedIsLine(r, line);
    }
    if ValidLine(line) {
      var m, target, minor :| IsLine(line, m, target, minor);
      LineParts(r, line, m, target, minor);
    }
  }

  // ---------------------------------------------------------------- one iteration, and any number

  /** One turn of the while loop of parseRequest. */
  function Step(p: Parser, now: int): Parser {
    match p.phase
    case ExpectRequestLine =>
      var crlf := FindCRLF(p.buffer);
      if crlf.None? then p
      else
        var line := p.buffer[..crlf.value];
        if Find(line, ' ') < |line| && p.request.httpMethod != INVALID then p.(aborted := true)
        else
          var (r, accepted) := RequestLine(p.request, line);
          if accepted
          then p.(ok := true, request := r.(receiveTime := now), buffer := p.buffer[crlf.value + 2..], phase := ExpectHeaders)
          else p.(ok := false, request := r)
    case ExpectHeaders =>
      var crlf := FindCRLF(p.buffer);
      if crlf.None? then p.(hasMore := false)
      else
        var line := p.buffer[..crlf.value];
        var colon := Find(line, ':');
        p.(request := if colon < |line| then WithHeader(p.request, line, colon) else p.request,
           phase := if colon < |line| then ExpectHeaders else ExpectBody,
           buffer := p.buffer[crlf.value + 2..])
    case ExpectBody => p.(request := p.request.(body := p.buffer), buffer := [], hasMore := false, phase := GotAll)
    case GotAll => p
  }

  predicate Looping(p: Parser) { p.hasMore && !p.aborted }

  function Iterate(p: Parser, now: int, n: nat): Parser
    decreases n
  {
    if n == 0 || !Looping(p) then p else Iterate(Step(p, now), now, n - 1)
  }

  ghost predicate Returns(p: Parser, now: int, q: Parser) {
    exists n :: Iterate(p, now, n) == q && !q.hasMore && !q.aborted
  }

  ghost predicate Aborts(p: Parser, now: int) {
    exists n :: Iterate(p, now, n).aborted
  }

  // ---------------------------------------------------------------- what a call amounts to

  /** The complete header lines at the front of a buffer, and what follows them. */
  datatype Scanned = Scanned(lines: seq<seq<Byte>>, ended: bool, rest: seq<Byte>)

  function Scan(buffer: seq<Byte>): Scanned
    decreases |buffer|
  {
    match FindCRLF(buffer)
    case None => Scanned([], false, buffer)
    case Some(i) =>
      if Find(buffer[..i], ':') == i then Scanned([], true, buffer[i + 2..])
      else
        var later := Scan(buffer[i + 2..]);
        Scanned([buffer[..i]] + later.lines, later.ended, later.rest)
  }

  /** The header phase and the body, run to where the call returns. */
  function HeaderPhase(r: Request, buffer: seq<Byte>): (q: (Phase, Request, seq<Byte>))
    ensures q.0 == ExpectHeaders || q.0 == GotAll
  {
    var s := Scan(buffer);
    if s.ended then (GotAll, WithHeaders(r, s.lines).(body := s.rest), [])
    else (ExpectHeaders, WithHeaders(r, s.lines), s.rest)
  }

  function Finished(q: (Phase, Request, seq<Byte>)): Parser {
    Parser(q.0, q.1, q.2, true, false, false)
  }

  /** A call that starts at the request line returns iff there is a line and it is accepted. */
  predicate LineReady(p: Parser) {
    FindCRLF(p.buffer).Some? && RequestLine(p.request, p.buffer[..FindCRLF(p.buffer).value]).1
  }

  function AfterLine(r: Request, line: seq<Byte>, rest: seq<Byte>, now: int): Parser {
    Finished(HeaderPhase(RequestLine(r, line).0.(receiveTime := now), rest))
  }

  /** Where a call that returns leaves the parser. */
  function AfterCall(p: Parser, now: int): Parser {
    match p.phase
    case ExpectRequestLine =>
      if !LineReady(p) then p else
      var i := FindCRLF(p.buffer).value;
      AfterLine(p.request, p.buffer[..i], p.buffer[i + 2..], now)
    case ExpectHeaders => Finished(HeaderPhase(p.request, p.buffer))
    case ExpectBody => Finished((GotAll, p.request.(body := p.buffer), []))
    case GotAll => p
  }

  lemma IterateOnce(p: Parser, now: int, n: nat)
    requires Looping(p) && n > 0
    ensures Iterate(p, now, n) == Iterate(Step(p, now), now, n - 1)
    ensures n == 1 ==> Iterate(p, now, n) == Step(p, now)
  {
  }

  /** One header line, as the loop and as HeaderPhase see it. */
  lemma HeaderLineStep(p: Parser, now: int, i: nat)
    requires p.phase == ExpectHeaders && FindCRLF(p.buffer) == Some(i) && Find(p.buffer[..i], ':') < i
    ensures var q := Step(p, now);
      && q == p.(request := WithHeader(p.request, p.buffer[..i], Find(p.buffer[..i], ':')), buffer := p.buffer[i + 2..])
      && HeaderPhase(q.request, q.buffer) == HeaderPhase(p.request, p.buffer)
  {
    var line, later := p.buffer[..i], Scan(p.buffer[i + 2..]);
    assert Scan(p.buffer) == Scanned([line] + later.lines, later.ended, later.rest);
    assert ([line] + later.lines)[1..] == later.lines;
  }

  /** The first line without a colon ends the header section, empty or not. */
  lemma LastLineStep(p: Parser, now: int, i: nat)
    requires p.phase == ExpectHeaders && Looping(p) && p.ok
    requires FindCRLF(p.buffer) == Some(i) && Find(p.buffer[..i], ':') == i
    ensures var q := Step(p, now);
      q == p.(phase := ExpectBody, buffer := p.buffer[i + 2..]) && Step(q, now) == Finished(HeaderPhase(p.request, p.buffer))
  {
  }

  /** The loop itself computes HeaderPhase, in one turn per header line and at most two more. */
  lemma {:induction false} HeadersReturn(p: Parser, now: int) returns (n: nat)
    requires p.phase == ExpectHeaders && Looping(p) && p.ok
    ensures n <= |p.buffer| + 2 && Iterate(p, now, n) == Finished(HeaderPhase(p.request, p.buffer))
    decreases |p.buffer|
  {
    var q := Step(p, now);
    match FindCRLF(p.buffer)
    case None =>
      n := 1;
      IterateOnce(p, now, 1);
    case Some(i) =>
      if Find(p.buffer[..i], ':') < i {
        HeaderLineStep(p, now, i);
        var m := HeadersReturn(q, now);
        n := m + 1;
        IterateOnce(p, now, n);
      } else {
        n := 2;
        LastLineStep(p, now, i);
        IterateOnce(q, now, 1);
        IterateOnce(p, now, 2);
      }
  }

  lemma CallReturns(p: Parser, now: int) returns (n: nat)
    requires Looping(p) && p.ok && p.phase != GotAll
    requires p.phase == ExpectRequestLine ==> LineReady(p) && p.request.httpMethod == INVALID
    ensures Iterate(p, now, n) == AfterCall(p, now) && !AfterCall(p, now).hasMore
  {
    match p.phase
    case ExpectRequestLine =>
      var m := HeadersReturn(Step(p, now), now);
      n := m + 1;
      IterateOnce(p, now, n);
    case ExpectHeaders => n := HeadersReturn(p, now);
    case ExpectBody =>
      n := 1;
      assert Iterate(Step(p, now), now, 0) == Step(p, now);
  }

  /** A state the loop body does not change. */
  lemma {:induction false} StutterForever(p: Parser, now: int, n: nat)
    requires Step(p, now) == p
    ensures Iterate(p, now, n) == p
    decreases n
  {
    if n > 0 && Looping(p) {
      StutterForever(p, now, n - 1);
    }
  }

  /** Iterating past the end changes nothing. */
  lemma {:induction false} IterateFixed(p: Parser, now: int, n: nat, m: nat)
    requires !Looping(Iterate(p, now, n))
    ensures !Looping(Iterate(p, now, m)) ==> Iterate(p, now, m) == Iterate(p, now, n)
    decreases n
  {
    if Looping(p) && n > 0 && m > 0 {
      IterateFixed(Step(p, now), now, n - 1, m - 1);
    }
  }

  /** Exactly when a call comes back: from kExpectRequestLine iff the bytes hold a CRLF and the line
      before it is in the grammar; from kExpectHeaders and kExpectBody always; from kGotAll never. */
  lemma ReturnsIff(p: Parser, now: int)
    requires p == Enter(p.phase, p.request, p.buffer)
    requires p.phase == ExpectRequestLine ==> p.request.httpMethod == INVALID
    ensures (exists q :: Returns(p, now, q)) <==>
      match p.phase
      case ExpectRequestLine => FindCRLF(p.buffer).Some? && ValidLine(p.buffer[..FindCRLF(p.buffer).value])
      case GotAll => false
      case _ => true
  {
    if p.phase == ExpectRequestLine && FindCRLF(p.buffer).Some? {
      AcceptsExactly(p.request, p.buffer[..FindCRLF(p.buffer).value]);
    }
    if p.phase != GotAll && (p.phase == ExpectRequestLine ==> LineReady(p)) {
      var n := CallReturns(p, now);
      assert Returns(p, now, AfterCall(p, now));
    } else {
      forall q | Returns(p, now, q) ensures false {
        var n :| Iterate(p, now, n) == q && !q.hasMore && !q.aborted;
        NeverReturns(p, now, n);
      }
    }
  }

  /** Without an acceptable line, and from kGotAll, no number of turns makes progress. */
  lemma {:induction false} NeverReturns(p: Parser, now: int, n: nat)
    requires Looping(p) && (p.phase == GotAll || (p.phase == ExpectRequestLine && !LineReady(p)))
    ensures var q := Iterate(p, now, n);
      q.hasMore && q.phase == p.phase && q.buffer == p.buffer
  {
    var q := Step(p, now);
    if q == p {
      StutterForever(p, now, n);
    } else if n > 0 {
      IterateOnce(p, now, n);
      if !q.aborted {
        RejectedAgain(p, now);
        if n > 1 {
          IterateOnce(q, now, n - 1);
          var z := Step(q, now);
          if !z.aborted {
            StutterForever(q, now, n - 1);
          }
        }
      }
    }
  }

  /** A rejected line is looked at again: either the request is already what it will be, or the method
      was recognised the first time and the assert of setMethod fails. */
  lemma RejectedAgain(p: Parser, now: int)
    requires p.phase == ExpectRequestLine && FindCRLF(p.buffer).Some? && !LineReady(p)
    requires !Step(p, now).aborted && !p.aborted
    ensures var q := Step(p, now); Step(q, now) == q || Step(q, now) == q.(aborted := true)
  {
    hide FindCRLF, Find, MethodOf;
  }

  /** The line starts with a known method and a space. */
  predicate KnownMethod(line: seq<Byte>) {
    Find(line, ' ') < |line| && MethodOf(line[..Find(line, ' ')]) != INVALID
  }

  lemma RejectedKnownAborts(p: Parser, now: int)
    requires p == Enter(ExpectRequestLine, FRESH, p.buffer) && FindCRLF(p.buffer).Some? && !LineReady(p)
    requires KnownMethod(p.buffer[..FindCRLF(p.buffer).value])
    ensures Iterate(p, now, 2).aborted
  {
    var q := Step(p, now);
    assert !q.aborted && q.phase == ExpectRequestLine && q.buffer == p.buffer && q.request.httpMethod != INVALID;
    IterateOnce(p, now, 2);
    IterateOnce(q, now, 1);
  }

  lemma RejectedUnknownStutters(p: Parser, now: int)
    requires p == Enter(ExpectRequestLine, FRESH, p.buffer) && FindCRLF(p.buffer).Some? && !LineReady(p)
    requires !KnownMethod(p.buffer[..FindCRLF(p.buffer).value])
    ensures Step(Step(p, now), now) == Step(p, now) && !Step(p, now).aborted
  {
  }

  lemma StutterNeverAborts(p: Parser, now: int, n: nat)
    requires Looping(p) && !Step(p, now).aborted && Step(Step(p, now), now) == Step(p, now)
    ensures !Iterate(p, now, n).aborted
  {
    if n > 0 {
      IterateOnce(p, now, n);
      StutterForever(Step(p, now), now, n - 1);
    }
  }

  lemma ReadyNeverAborts(p: Parser, now: int, n: nat)
    requires p == Enter(ExpectRequestLine, FRESH, p.buffer) && LineReady(p)
    ensures !Iterate(p, now, n).aborted
  {
    var m := CallReturns(p, now);
    if Iterate(p, now, n).aborted {
      IterateFixed(p, now, m, n);
    }
  }

  /** Which of the failures stop the process instead of spinning. */
  lemma AbortsIff(buffer: seq<Byte>, now: int)
    ensures Aborts(Enter(ExpectRequestLine, FRESH, buffer), now) <==>
      && FindCRLF(buffer).Some?
      && var line := buffer[..FindCRLF(buffer).value]; !ValidLine(line) && KnownMethod(line)
  {
    var p := Enter(ExpectRequestLine, FRESH, buffer);
    if FindCRLF(buffer).Some? {
      AcceptsExactly(FRESH, buffer[..FindCRLF(buffer).value]);
    }
    if LineReady(p) {
      forall n: nat ensures !Iterate(p, now, n).aborted {
        ReadyNeverAborts(p, now, n);
      }
    } else if FindCRLF(buffer).Some? && KnownMethod(buffer[..FindCRLF(buffer).value]) {
      RejectedKnownAborts(p, now);
    } else {
      forall n: nat ensures !Iterate(p, now, n).aborted {
        if FindCRLF(buffer).Some? {
          RejectedUnknownStutters(p, now);
        }
        StutterNeverAborts(p, now, n);
      }
    }
  }

  /** Every call that returns returns true, so the 400 answer of HttpServer is never sent. */
  lemma ReturnMeansTrue(p: Parser, now: int, q: Parser)
    requires p == Enter(p.phase, p.request, p.buffer) && Returns(p, now, q)
    requires p.phase == ExpectRequestLine ==> p.request.httpMethod == INVALID
    ensures q.ok && q == AfterCall(p, now)
  {
    ReturnsIff(p, now);
    if p.phase == ExpectRequestLine {
      AcceptsExactly(p.request, p.buffer[..FindCRLF(p.buffer).value]);
    }
    var n := CallReturns(p, now);
    var m :| Iterate(p, now, m) == q && !q.hasMore && !q.aborted;
    IterateFixed(p, now, n, m);
  }

  // ---------------------------------------------------------------- incremental parsing

  function Prepend(line: seq<Byte>, s: Scanned): Scanned {
    Scanned([line] + s.lines, s.ended, s.rest)
  }

  lemma ScanFirst(buffer: seq<Byte>, line: seq<Byte>, rest: seq<Byte>)
    requires FindCRLF(buffer) == Some(|line|) && line == buffer[..|line|] && rest == buffer[|line| + 2..]
    ensures Scan(buffer) == if Find(line, ':') == |line| then Scanned([], true, rest) else Prepend(line, Scan(rest))
  {
    hide FindCRLF, Find;
  }

  /** The scan of a ++ b, from the scan of a. */
  function Resume(s: Scanned, b: seq<Byte>): Scanned {
    if s.ended then Scanned(s.lines, true, s.rest + b)
    else
      var t := Scan(s.rest + b);
      Scanned(s.lines + t.lines, t.ended, t.rest)
  }

  lemma ResumePrepend(line: seq<Byte>, s: Scanned, b: seq<Byte>)
    ensures Resume(Prepend(line, s), b) == Prepend(line, Resume(s, b))
  {
    assert [line] + (s.lines + Scan(s.rest + b).lines) == ([line] + s.lines) + Scan(s.rest + b).lines;
  }

  /** Cutting the input anywhere, even between CR and LF, does not change what is scanned. */
  lemma {:induction false} ScanSplit(a: seq<Byte>, b: seq<Byte>)
    ensures Scan(a + b) == Resume(Scan(a), b)
    decreases |a|
  {
    match FindCRLF(a)
    case None =>
      assert Resume(Scanned([], false, a), b).lines == Scan(a + b).lines;
    case Some(i) =>
      FindCRLFStable(a, b);
      var line, rest := a[..i], a[i + 2..];
      assert (a + b)[..i] == line && (a + b)[i + 2..] == rest + b;
      ScanFirst(a, line, rest);
      ScanFirst(a + b, line, rest + b);
      if Find(line, ':') < i {
        ScanSplit(rest, b);
        ResumePrepend(line, Scan(rest), b);
      }
  }

  lemma HeaderPhaseSplit(r: Request, a: seq<Byte>, b: seq<Byte>)
    ensures var q := HeaderPhase(r, a);
      HeaderPhase(r, a + b) == if q.0 == ExpectHeaders then HeaderPhase(q.1, q.2 + b)
                               else (GotAll, q.1.(body := q.1.body + b), [])
  {
    ScanSplit(a, b);
    var s := Scan(a);
    if !s.ended {
      WithHeadersConcat(r, s.lines, Scan(s.rest + b).lines);
    }
  }

  /** What parseRequest does with each later arrival. */
  function Feed(p: Parser, chunks: seq<seq<Byte>>, now: int): Parser
    decreases |chunks|
  {
    if chunks == [] then p
    else
      var q := Feed(p, chunks[..|chunks| - 1], now);
      AfterCall(Enter(q.phase, q.request, q.buffer + chunks[|chunks| - 1]), now)
  }

  function Joined(a: seq<Byte>, chunks: seq<seq<Byte>>): seq<Byte>
    decreases |chunks|
  {
    if chunks == [] then a else Joined(a, chunks[..|chunks| - 1]) + chunks[|chunks| - 1]
  }

  /** More bytes, for a parser still in the header section; bytes after it only lengthen the body. */
  function AfterMore(q: Parser, b: seq<Byte>): Parser {
    if q.phase == ExpectHeaders then Finished(HeaderPhase(q.request, q.buffer + b))
    else Finished((GotAll, q.request.(body := q.request.body + b), []))
  }

  lemma LineReadyStable(r: Request, a: seq<Byte>, b: seq<Byte>, now: int)
    requires LineReady(Enter(ExpectRequestLine, r, a))
    ensures LineReady(Enter(ExpectRequestLine, r, a + b))
    ensures var q := AfterCall(Enter(ExpectRequestLine, r, a), now);
      AfterCall(Enter(ExpectRequestLine, r, a + b), now)
        == AfterMore(q, b)
  {
    FindCRLFStable(a, b);
    var i := FindCRLF(a).value;
    var line, rest := a[..i], a[i + 2..];
    assert (a + b)[..i] == line && (a + b)[i + 2..] == rest + b;
    CallFromLine(r, a, line, rest, now);
    CallFromLine(r, a + b, line, rest + b, now);
    AfterLineSplit(r, line, rest, b, now);
  }

  lemma CallFromLine(r: Request, buffer: seq<Byte>, line: seq<Byte>, rest: seq<Byte>, now: int)
    requires FindCRLF(buffer) == Some(|line|) && line == buffer[..|line|] && rest == buffer[|line| + 2..]
    ensures var p := Enter(ExpectRequestLine, r, buffer);
      && (LineReady(p) <==> RequestLine(r, line).1)
      && (LineReady(p) ==> AfterCall(p, now) == AfterLine(r, line, rest, now))
  {
  }

  lemma AfterLineSplit(r: Request, line: seq<Byte>, rest: seq<Byte>, b: seq<Byte>, now: int)
    ensures var q := AfterLine(r, line, rest, now);
      AfterLine(r, line, rest + b, now) == AfterMore(q, b)
  {
    HeaderPhaseSplit(RequestLine(r, line).0.(receiveTime := now), rest, b);
  }

  /** However the bytes after the request line are cut up, as long as the header section ends only in
      the last piece, parsing piece by piece gives the request, state and buffer of a single call. */
  lemma {:induction false} ChunksDoNotMatter(r: Request, a: seq<Byte>, chunks: seq<seq<Byte>>, now: int)
    requires LineReady(Enter(ExpectRequestLine, r, a)) && chunks != []
    requires AfterCall(Enter(ExpectRequestLine, r, Joined(a, chunks[..|chunks| - 1])), now).phase == ExpectHeaders
    ensures Feed(AfterCall(Enter(ExpectRequestLine, r, a), now), chunks, now)
         == AfterCall(Enter(ExpectRequestLine, r, Joined(a, chunks)), now)
    decreases |chunks|
  {
    hide AfterCall, LineReady, HeaderPhase;
    var front := chunks[..|chunks| - 1];
    JoinedReady(r, a, front);
    if front != [] {
      var before := front[..|front| - 1];
      JoinedReady(r, a, before);
      LineReadyStable(r, Joined(a, before), front[|front| - 1], now);
      ChunksDoNotMatter(r, a, front, now);
    }
    LineReadyStable(r, Joined(a, front), chunks[|chunks| - 1], now);
    MoreIsACall(AfterCall(Enter(ExpectRequestLine, r, Joined(a, front)), now), chunks[|chunks| - 1], now);
  }

  /** Feeding a parser that is still in the header section. */
  lemma MoreIsACall(q: Parser, b: seq<Byte>, now: int)
    requires q.phase == ExpectHeaders
    ensures AfterCall(Enter(q.phase, q.request, q.buffer + b), now) == AfterMore(q, b)
  {
  }

  lemma {:induction false} JoinedReady(r: Request, a: seq<Byte>, chunks: seq<seq<Byte>>)
    requires LineReady(Enter(ExpectRequestLine, r, a))
    ensures LineReady(Enter(ExpectRequestLine, r, Joined(a, chunks)))
    decreases |chunks|
  {
    if chunks != [] {
      JoinedReady(r, a, chunks[..|chunks| - 1]);
      LineReadyStable(r, Joined(a, chunks[..|chunks| - 1]), chunks[|chunks| - 1], 0);
    }
  }

  /** After an accepted line the rest of the call is the header phase. */
  lemma LineDone(r: Request, line: seq<Byte>, rest: seq<Byte>, now: int)
    ensures AfterCall(Enter(ExpectHeaders, RequestLine(r, line).0.(receiveTime := now), rest), now) == AfterLine(r, line, rest, now)
  {
  }

  /** One turn in the header phase does not change where the call will end. */
  lemma HeaderTurn(r: Request, buffer: seq<Byte>, i: nat, now: int)
    requires FindCRLF(buffer) == Some(i)
    ensures var line, rest := buffer[..i], buffer[i + 2..]; var colon := Find(line, ':');
      AfterCall(Enter(ExpectHeaders, r, buffer), now)
        == if colon < i then AfterCall(Enter(ExpectHeaders, WithHeader(r, line, colon), rest), now)
           else AfterCall(Enter(ExpectBody, r, rest), now)
  {
    var p := Enter(ExpectHeaders, r, buffer);
    if Find(buffer[..i], ':') < i {
      HeaderLineStep(p, now, i);
    } else {
      LastLineStep(p, now, i);
    }
  }

  lemma NoHeaderTurn(r: Request, buffer: seq<Byte>, now: int)
    requires FindCRLF(buffer).None?
    ensures AfterCall(Enter(ExpectHeaders, r, buffer), now) == Finished((ExpectHeaders, r, buffer))
  {
  }

  // ---------------------------------------------------------------- print, then parse

  datatype Field = Field(name: seq<Byte>, value: seq<Byte>)

  ghost predicate Printable(f: Field) {
    ':' !in f.name && CRLFFree(f.name) && CRLFFree(f.value) && Trimmed(f.value)
  }

  function LineOf(f: Field): seq<Byte> { f.name + ": " + f.value }

  function Lines(fields: seq<Field>): seq<seq<Byte>> {
    if fields == [] then [] else [LineOf(fields[0])] + Lines(fields[1..])
  }

  function PrintFields(fields: seq<Field>): seq<Byte> {
    if fields == [] then [] else LineOf(fields[0]) + "\r\n" + PrintFields(fields[1..])
  }

  /** What a list of fields means: later ones override earlier ones. */
  function Entered(h: Headers, fields: seq<Field>): Headers
    decreases |fields|
  {
    if fields == [] then h else Entered(h[fields[0].name := fields[0].value], fields[1..])
  }

  lemma {:induction false} LastDuplicateWins(h: Headers, fields: seq<Field>, k: nat)
    requires k < |fields| && forall j :: k < j < |fields| ==> fields[j].name != fields[k].name
    ensures fields[k].name in Entered(h, fields) && Entered(h, fields)[fields[k].name] == fields[k].value
    decreases |fields|
  {
    if k > 0 {
      LastDuplicateWins(h[fields[0].name := fields[0].value], fields[1..], k - 1);
    } else {
      Untouched(h[fields[0].name := fields[0].value], fields[1..], fields[0].name);
    }
  }

  lemma {:induction false} Untouched(h: Headers, fields: seq<Field>, name: seq<Byte>)
    requires forall j :: 0 <= j < |fields| ==> fields[j].name != name
    ensures name in Entered(h, fields) <==> name in h
    ensures name in h ==> Entered(h, fields)[name] == h[name]
    decreases |fields|
  {
    if fields != [] {
      Untouched(h[fields[0].name := fields[0].value], fields[1..], name);
    }
  }

  lemma FieldLine(r: Request, f: Field)
    requires Printable(f)
    ensures CRLFFree(LineOf(f)) && Find(LineOf(f), ':') == |f.name| < |LineOf(f)|
    ensures WithHeader(r, LineOf(f), |f.name|) == r.(headers := r.headers[f.name := f.value])
  {
    CRLFFreeConcat(f.name, ": ");
    CRLFFreeConcat(f.name + ": ", f.value);
    assert LineOf(f) == f.name + [':'] + (" " + f.value);
    FindAfter(f.name, ':', " " + f.value);
    FieldValueExact(" ", f.value, []);
    assert LineOf(f)[|f.name| + 1..] == " " + f.value + [];
    assert LineOf(f)[..|f.name|] == f.name;
  }

  lemma {:induction false} FieldsEntered(r: Request, fields: seq<Field>)
    requires forall f :: f in fields ==> Printable(f)
    ensures WithHeaders(r, Lines(fields)) == r.(headers := Entered(r.headers, fields))
    decreases |fields|
  {
    if fields != [] {
      var f := fields[0];
      FieldLine(r, f);
      FieldsEntered(r.(headers := r.headers[f.name := f.value]), fields[1..]);
      assert Lines(fields)[0] == LineOf(f) && Lines(fields)[1..] == Lines(fields[1..]);
    }
  }

  lemma {:induction false} FieldsScanned(fields: seq<Field>, body: seq<Byte>)
    requires forall f :: f in fields ==> Printable(f)
    ensures Scan(PrintFields(fields) + ("\r\n" + body)) == Scanned(Lines(fields), true, body)
    decreases |fields|
  {
    var text := PrintFields(fields) + ("\r\n" + body);
    if fields == [] {
      assert text == [] + "\r\n" + body;
      FindCRLFAfterLine([], body);
      assert text[..0] == [] && text[2..] == body;
    } else {
      var line, later := LineOf(fields[0]), PrintFields(fields[1..]) + ("\r\n" + body);
      FieldLine(FRESH, fields[0]);
      assert text == line + "\r\n" + later;
      FindCRLFAfterLine(line, later);
      assert text[..|line|] == line && text[|line| + 2..] == later;
      ScanFirst(text, line, later);
      FieldsScanned(fields[1..], body);
    }
  }

  /** Printed fields come back as the headers they mean, and what follows the blank line as the body. */
  lemma FieldsRoundTrip(r: Request, fields: seq<Field>, body: seq<Byte>)
    requires forall f :: f in fields ==> Printable(f)
    ensures HeaderPhase(r, PrintFields(fields) + ("\r\n" + body))
         == (GotAll, r.(headers := Entered(r.headers, fields), body := body), [])
  {
    FieldsScanned(fields, body);
    FieldsEntered(r, fields);
  }

  function PrintLine(m: Method, target: seq<Byte>, minor: Byte): seq<Byte> {
    MethodToken(m) + " " + (target + " " + ("HTTP/1." + [minor]))
  }

  function PrintRequest(m: Method, path: seq<Byte>, query: seq<Byte>, minor: Byte, fields: seq<Field>, body: seq<Byte>): seq<Byte> {
    PrintLine(m, path + query, minor) + "\r\n" + (PrintFields(fields) + ("\r\n" + body))
  }

  /** A path as the parser takes it apart: no query in it; a query starts with its question mark. */
  ghost predicate GoodTarget(path: seq<Byte>, query: seq<Byte>) {
    && ' ' !in path && '?' !in path && CRLFFree(path)
    && ' ' !in query && CRLFFree(query) && (query == [] || query[0] == '?')
  }

  lemma TargetParts(r: Request, path: seq<Byte>, query: seq<Byte>)
    requires GoodTarget(path, query) && r.query == []
    ensures WithTarget(r, path + query) == r.(path := path, query := query)
  {
    if query == [] {
      assert path + query == path;
      assert Find(path, '?') == |path|;
    } else {
      assert path + query == path + ['?'] + query[1..];
      FindAfter(path, '?', query[1..]);
      assert (path + query)[..|path|] == path && (path + query)[|path|..] == query;
    }
  }

  lemma LineIsCRLFFree(m: Method, path: seq<Byte>, query: seq<Byte>, minor: Byte)
    requires m != INVALID && GoodTarget(path, query) && (minor == '0' || minor == '1')
    ensures CRLFFree(PrintLine(m, path + query, minor))
  {
    MethodRoundTrip(m, []);
    CRLFFreeConcat(path, query);
    assert CRLFFree(HTTP_1 + [minor]);
    CRLFFreeConcat(path + query, " ");
    CRLFFreeConcat(path + query + " ", HTTP_1 + [minor]);
    CRLFFreeConcat(MethodToken(m), " ");
    CRLFFreeConcat(MethodToken(m) + " ", path + query + " " + (HTTP_1 + [minor]));
  }

  /** Parsing a printed request gives back exactly its parts, empties the buffer and reaches kGotAll. */
  lemma RequestRoundTrip(m: Method, path: seq<Byte>, query: seq<Byte>, minor: Byte, fields: seq<Field>, body: seq<Byte>, now: int)
    requires m != INVALID && GoodTarget(path, query) && (minor == '0' || minor == '1')
    requires forall f :: f in fields ==> Printable(f)
    ensures var p := Enter(ExpectRequestLine, FRESH, PrintRequest(m, path, query, minor, fields, body));
      var version := if minor == '1' then HTTP11 else HTTP10;
      && LineReady(p)
      && AfterCall(p, now) == Finished((GotAll, Request(m, version, path, query, body, now, Entered(map[], fields)), []))
  {
    var text := PrintRequest(m, path, query, minor, fields, body);
    var line, later := PrintLine(m, path + query, minor), PrintFields(fields) + ("\r\n" + body);
    LineIsCRLFFree(m, path, query, minor);
    FindCRLFAfterLine(line, later);
    assert text[..|line|] == line && text[|line| + 2..] == later;
    assert IsLine(line, m, path + query, minor);
    LineParts(FRESH, line, m, path + query, minor);
    TargetParts(FRESH.(httpMethod := m), path, query);
    FieldsRoundTrip(RequestLine(FRESH, line).0.(receiveTime := now), fields, body);
  }
}

/** The parser object over the real buffer. */
module Contexts {
  import opened Bytes
  import opened Buffers
  import opened Requests
  import opened ParserModel

  class HttpContext {
    const request: HttpRequest
    var state: Phase

    constructor ()
      ensures state == ExpectRequestLine && request.Look() == FRESH && fresh(request)
    {
      request := new HttpRequest();
      state := ExpectRequestLine;
    }

    ghost function Look(buf: Buffer): Parser
      requires buf.Valid()
      reads this, request, buf, buf.data
    {
      Enter(state, request.Look(), buf.Contents())
    }

    /** `processRequestLine`. */
    method ProcessRequestLine(line: seq<Byte>) returns (succeed: bool)
      requires Find(line, ' ') < |line| ==> request.httpMethod == INVALID
      modifies request
      ensures (request.Look(), succeed) == RequestLine(old(request.Look()), line)
    {
      succeed := false;
      var space := Find(line, ' ');
      if space < |line| {
        var known := request.SetMethod(line[..space]);
        if known {
          var rest := line[space + 1..];
          var second := Find(rest, ' ');
          if second < |rest| {
            SetTarget(rest[..second]);
            succeed := SetVersion(rest[second + 1..]);
          }
        }
      }
    }

    method SetTarget(target: seq<Byte>)
      modifies request
      ensures request.Look() == WithTarget(old(request.Look()), target)
    {
      var question := Find(target, '?');
      if question < |target| {
        request.path := target[..question];
        request.query := target[question..];
      } else {
        request.path := target;
        assert target[..question] == target;
      }
    }

    method SetVersion(text: seq<Byte>) returns (succeed: bool)
      modifies request
      ensures (request.Look(), succeed) == WithVersion(old(request.Look()), text)
    {
      succeed := |text| == 8 && text[..7] == HTTP_1;
      if succeed {
        if text[7] == '1' {
          request.version := HTTP11;
        } else if text[7] == '0' {
          request.version := HTTP10;
        } else {
          succeed := false;
        }
      }
    }

    /** `parseRequest`, on the inputs for which ReturnsIff says that it comes back. */
    method ParseRequest(buf: Buffer, now: int) returns (ok: bool)
      requires buf.Valid() && state != GotAll
      requires state == ExpectRequestLine ==> request.httpMethod == INVALID && LineReady(Look(buf))
      modifies this, request, buf
      ensures buf.Valid() && buf.data == old(buf.data)
      ensures ok && var q := AfterCall(old(Look(buf)), now);
        state == q.phase && request.Look() == q.request && buf.Contents() == q.buffer
    {
      ghost var q := AfterCall(Look(buf), now);
      ok := true;
      var hasMore := true;
      while hasMore
        invariant buf.Valid() && buf.data == old(buf.data) && ok
        invariant state == ExpectRequestLine ==> request.httpMethod == INVALID && LineReady(Look(buf)) && hasMore
        invariant hasMore ==> state != GotAll && AfterCall(Look(buf), now) == q
        invariant !hasMore ==> Finished((state, request.Look(), buf.Contents())) == q
        decreases hasMore, match state case ExpectRequestLine => 3 case ExpectHeaders => 2 case _ => 1, buf.ReadableBytes()
      {
        match state {
          case ExpectRequestLine => ok := TurnRequestLine(buf, now);
          case ExpectHeaders => hasMore := TurnHeader(buf, now);
          case ExpectBody =>
            request.body := buf.Contents();
            buf.RetrieveAll();
            hasMore := false;
            state := GotAll;
        }
      }
    }

    method TurnRequestLine(buf: Buffer, now: int) returns (ok: bool)
      requires buf.Valid() && state == ExpectRequestLine
      requires request.httpMethod == INVALID && LineReady(Look(buf))
      modifies this, request, buf
      ensures buf.Valid() && buf.data == old(buf.data) && ok && state == ExpectHeaders
      ensures AfterCall(Look(buf), now) == AfterCall(old(Look(buf)), now)
    {
      var crlf := FindCRLF(buf.Contents());
      var line := buf.Contents()[..crlf.value];
      ghost var r, rest := request.Look(), buf.Contents()[crlf.value + 2..];
      CallFromLine(r, buf.Contents(), line, rest, now);
      LineDone(r, line, rest, now);
      ok := TakeLine(buf, line, now);
    }

    method TakeLine(buf: Buffer, line: seq<Byte>, now: int) returns (ok: bool)
      requires buf.Valid() && |line| + 2 <= buf.ReadableBytes()
      requires request.httpMethod == INVALID && RequestLine(request.Look(), line).1
      modifies this, request, buf
      ensures buf.Valid() && buf.data == old(buf.data) && ok
      ensures Look(buf) == Enter(ExpectHeaders, RequestLine(old(request.Look()), line).0.(receiveTime := now),
                                 old(buf.Contents())[|line| + 2..])
    {
      ok := ProcessRequestLine(line);
      if ok {
        request.receiveTime := now;
        buf.Retrieve(|line| + 2);
        state := ExpectHeaders;
      }
    }

    method TurnHeader(buf: Buffer, now: int) returns (more: bool)
      requires buf.Valid() && state == ExpectHeaders
      modifies this, request, buf
      ensures buf.Valid() && buf.data == old(buf.data)
      ensures more ==> state in {ExpectHeaders, ExpectBody} && AfterCall(Look(buf), now) == AfterCall(old(Look(buf)), now)
      ensures more && state == ExpectHeaders ==> buf.ReadableBytes() < old(buf.ReadableBytes())
      ensures !more ==> Finished((state, request.Look(), buf.Contents())) == AfterCall(old(Look(buf)), now)
      ensures !more ==> state == ExpectHeaders
    {
      hide AfterCall, WithHeader;
      var crlf := FindCRLF(buf.Contents());
      if crlf.None? {
        NoHeaderTurn(request.Look(), buf.Contents(), now);
        return false;
      }
      HeaderTurn(request.Look(), buf.Contents(), crlf.value, now);
      var line := buf.Contents()[..crlf.value];
      var colon := Find(line, ':');
      if colon < |line| {
        request.AddHeader(line, colon);
      } else {
        state := ExpectBody;
      }
      buf.Retrieve(crlf.value + 2);
      more := true;
    }

    /** `reset`: the request is swapped with a new one. */
    method Reset()
      modifies this, request
      ensures state == ExpectRequestLine && request.Look() == FRESH
    {
      state := ExpectRequestLine;
      var empty := new HttpRequest();
      request.Swap(empty);
    }
  }
}
