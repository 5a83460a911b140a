/** The response printer (HttpResponse.cc), read back by the header phase of the request parser. */
module ResponseModel {
  import opened Bytes
  import opened Numerals
  import opened Requests
  import opened ParserModel

  const CRLF: seq<Byte> := "\r\n"
  const SNPRINTF_ROOM := 31   // 32 bytes less the terminator

  function Truncated(s: seq<Byte>, room: nat): seq<Byte> {
    if |s| <= room then s else s[..room]
  }

  const STATUS: seq<Byte> := "HTTP/1.1 "
  const LENGTH: seq<Byte> := "Content-Length"
  const CONNECTION: seq<Byte> := "Connection"
  const CLOSE: seq<Byte> := "close"
  const KEEP_ALIVE: seq<Byte> := "Connection: Keep-Alive"
  const CLOSE_LINE: seq<Byte> := "Connection: close\r\n"
  const KEEP_ALIVE_LINE: seq<Byte> := "Connection: Keep-Alive\r\n"

  /** The codes of the enumeration, and any other three digits. */
  predicate IsCode(code: int) { code == 0 || 100 <= code <= 999 }

  function StatusLine(code: int, message: seq<Byte>): seq<Byte> {
    STATUS + Numeral(code) + message
  }

  /** The lines that depend on `closeConnection_`. The Content-Length text gets no line end. */
  function ModeText(closing: bool, bodyLength: nat): seq<Byte> {
    if closing then CLOSE_LINE
    else Truncated(LENGTH + ": " + Numeral(bodyLength), SNPRINTF_ROOM) + KEEP_ALIVE_LINE
  }

  /** What a reader of the header section finds there instead. */
  function ModeField(closing: bool, bodyLength: nat): Field {
    if closing then Field(CONNECTION, CLOSE)
    else Field(LENGTH, Truncated(Numeral(bodyLength), 15) + KEEP_ALIVE)
  }

  function HeaderSection(closing: bool, fields: seq<Field>, body: seq<Byte>): seq<Byte> {
    ModeText(closing, |body|) + (PrintFields(fields) + ("\r\n" + body))
  }

  // ---------------------------------------------------------------- a map and its listings

  /** Every entry of the map once, in some order. */
  ghost predicate Lists(fields: seq<Field>, h: Headers) {
    && (forall k :: 0 <= k < |fields| ==> fields[k].name in h && h[fields[k].name] == fields[k].value)
    && (forall j, k :: 0 <= j < k < |fields| ==> fields[j].name != fields[k].name)
    && (forall name :: name in h ==> exists k :: 0 <= k < |fields| && fields[k].name == name)
  }

  /** Entering a listing of a map is merging the map: the order does not matter. */
  lemma ListingMerges(base: Headers, fields: seq<Field>, h: Headers)
    requires Lists(fields, h)
    ensures Entered(base, fields) == base + h
  {
    var result := Entered(base, fields);
    forall name: seq<Byte>
      ensures name in result <==> name in base + h
      ensures name in result ==> result[name] == (base + h)[name]
    {
      if name in h {
        var k :| 0 <= k < |fields| && fields[k].name == name;
        LastDuplicateWins(base, fields, k);
      } else {
        Untouched(base, fields, name);
      }
    }
  }

  ghost predicate PrintableMap(h: Headers) {
    forall name :: name in h ==> Printable(Field(name, h[name]))
  }

  lemma ListingPrintable(fields: seq<Field>, h: Headers)
    requires Lists(fields, h) && PrintableMap(h)
    ensures forall f :: f in fields ==> Printable(f)
  {
    forall f | f in fields ensures Printable(f) {
      var k :| 0 <= k < |fields| && fields[k] == f;
      assert f == Field(f.name, h[f.name]);
    }
  }

  // ---------------------------------------------------------------- reading it back

  lemma DigitsArePlain(n: nat)
    ensures Numeral(n) != [] && forall k :: 0 <= k < |Numeral(n)| ==> IsDigit(Numeral(n)[k])
  {
    NumeralMeansItsValue(n);
    assert IsNatural(Numeral(n));
  }

  lemma ModeIsAField(closing: bool, bodyLength: nat)
    ensures ModeText(closing, bodyLength) == LineOf(ModeField(closing, bodyLength)) + "\r\n"
    ensures Printable(ModeField(closing, bodyLength))
  {
    if closing {
      assert LineOf(Field(CONNECTION, CLOSE)) + "\r\n" == CLOSE_LINE;
    } else {
      MergedField(bodyLength);
    }
  }

  lemma MergedField(bodyLength: nat)
    ensures ModeText(false, bodyLength) == LineOf(ModeField(false, bodyLength)) + "\r\n"
    ensures Printable(ModeField(false, bodyLength))
  {
    var digits := Numeral(bodyLength);
    DigitsArePlain(bodyLength);
    TruncatedAfter(LENGTH + ": ", digits);
    MergedValue(LENGTH + ": ", Truncated(digits, 15));
    assert CRLFFree(LENGTH) && ':' !in LENGTH;
  }

  lemma TruncatedAfter(prefix: seq<Byte>, s: seq<Byte>)
    requires |prefix| == 16
    ensures Truncated(prefix + s, SNPRINTF_ROOM) == prefix + Truncated(s, 15)
  {
  }

  lemma MergedValue(prefix: seq<Byte>, digits: seq<Byte>)
    requires AllDigits(digits)
    ensures (prefix + digits) + KEEP_ALIVE_LINE == (prefix + (digits + KEEP_ALIVE)) + "\r\n"
    ensures CRLFFree(digits + KEEP_ALIVE) && Trimmed(digits + KEEP_ALIVE)
  {
    assert KEEP_ALIVE_LINE == KEEP_ALIVE + "\r\n";
    assert CRLFFree(digits) && CRLFFree(KEEP_ALIVE);
    CRLFFreeConcat(digits, KEEP_ALIVE);
    var value := digits + KEEP_ALIVE;
    assert value[0] == digits[0] && value[|value| - 1] == 'e';
  }

  /** The header phase recovers the mode field overridden by `headers_`, and exactly the body. */
  lemma HeaderSectionRoundTrip(r: Request, closing: bool, h: Headers, fields: seq<Field>, body: seq<Byte>)
    requires Lists(fields, h) && PrintableMap(h)
    ensures var mode := ModeField(closing, |body|);
      HeaderPhase(r, HeaderSection(closing, fields, body))
        == (GotAll, r.(headers := r.headers[mode.name := mode.value] + h, body := body), [])
  {
    var mode := ModeField(closing, |body|);
    var all := [mode] + fields;
    ModeIsAField(closing, |body|);
    ListingPrintable(fields, h);
    forall f | f in all ensures Printable(f) {
      assert f == mode || f in fields;
    }
    assert all[1..] == fields;
    PrintedFirst(mode, fields, body);
    FieldsRoundTrip(r, all, body);
    ListingMerges(r.headers[mode.name := mode.value], fields, h);
  }

  lemma PrintedFirst(first: Field, fields: seq<Field>, body: seq<Byte>)
    ensures LineOf(first) + "\r\n" + (PrintFields(fields) + ("\r\n" + body)) == PrintFields([first] + fields) + ("\r\n" + body)
  {
    assert ([first] + fields)[1..] == fields;
    var line, rest := LineOf(first) + "\r\n", PrintFields(fields);
    assert line + (rest + ("\r\n" + body)) == (line + rest) + ("\r\n" + body);
  }

  /** Closing: `Connection: close` unless `headers_` says otherwise. */
  lemma ClosingHeaders(h: Headers, fields: seq<Field>, body: seq<Byte>)
    requires Lists(fields, h) && PrintableMap(h)
    ensures var name: seq<Byte>, value: seq<Byte> := "Connection", "close";
      HeaderPhase(FRESH, HeaderSection(true, fields, body))
        == (GotAll, FRESH.(headers := map[name := value] + h, body := body), [])
  {
    HeaderSectionRoundTrip(FRESH, true, h, fields, body);
    assert FRESH.headers[CONNECTION := CLOSE] == map[CONNECTION := CLOSE];
  }

  /** At most fifteen digits of the length, and the next line's text. */
  function RunOn(length: nat): seq<Byte> {
    var digits := Numeral(length);
    (if |digits| <= 15 then digits else digits[..15]) + "Connection: Keep-Alive"
  }

  /** Keep-alive: the two intended fields arrive as one. No reader sees a Connection field that
      `headers_` does not hold, and the Content-Length it sees is not a number. */
  lemma KeepAliveMerges(h: Headers, fields: seq<Field>, body: seq<Byte>)
    requires Lists(fields, h) && PrintableMap(h)
    ensures var q := HeaderPhase(FRESH, HeaderSection(false, fields, body));
      var name: seq<Byte> := "Content-Length";
      && q == (GotAll, FRESH.(headers := map[name := RunOn(|body|)] + h, body := body), [])
      && ("Connection" in q.1.headers <==> "Connection" in h)
      && (name !in h ==> !IsNumeral(q.1.headers[name]))
  {
    HeaderSectionRoundTrip(FRESH, false, h, fields, body);
    var value := Truncated(Numeral(|body|), 15) + KEEP_ALIVE;
    assert FRESH.headers[LENGTH := value] == map[LENGTH := value];
    assert value[|value| - 1] == 'e' && !IsDigit('e');
    DigitsArePlain(|body|);
    assert value[0] == Numeral(|body|)[0];
    assert !IsNumeral(value);
  }

  // ---------------------------------------------------------------- the whole message

  function PrintResponse(code: int, message: seq<Byte>, closing: bool, fields: seq<Field>, body: seq<Byte>): seq<Byte> {
    StatusLine(code, message) + "\r\n" + HeaderSection(closing, fields, body)
  }

  /** A reader that splits at the first line end gets the status line and the header section apart. */
  lemma StatusLineSplitsOff(code: int, message: seq<Byte>, closing: bool, fields: seq<Field>, body: seq<Byte>)
    requires CRLFFree(message) && code >= 0
    ensures var text, line := PrintResponse(code, message, closing, fields, body), StatusLine(code, message);
      && FindCRLF(text) == Some(|line|) && text[..|line|] == line
      && text[|line| + 2..] == HeaderSection(closing, fields, body)
  {
    var text, line := PrintResponse(code, message, closing, fields, body), StatusLine(code, message);
    DigitsArePlain(code);
    assert CRLFFree(Numeral(code));
    CRLFFreeConcat(STATUS, Numeral(code));
    CRLFFreeConcat(STATUS + Numeral(code), message);
    FindCRLFAfterLine(line, HeaderSection(closing, fields, body));
    assert text[..|line|] == line && text[|line| + 2..] == HeaderSection(closing, fields, body);
  }

  /** How many digits a reader finds after the version. */
  function CodeWidth(code: int): nat { if code == 0 then 1 else 3 }

  /** What a reader of these bytes finds in their first line: behind "HTTP/1.1 " a numeral that means
      the code, then exactly the message, up to a line end. */
  ghost predicate ReadsAsStatus(text: seq<Byte>, code: int, message: seq<Byte>) {
    var from, to := 9 + CodeWidth(code), 9 + CodeWidth(code) + |message|;
    && to + 2 <= |text| && text[..9] == "HTTP/1.1 "
    && IsNumeral(text[9..from]) && Value(text[9..from]) == code
    && text[from..to] == message && text[to] == '\r' && text[to + 1] == '\n'
  }

  lemma CodeLength(code: int)
    requires IsCode(code)
    ensures |Numeral(code)| == CodeWidth(code)
  {
    NumeralShape(code);
    assert Pow10(1) == 10 && Pow10(2) == 100 && Pow10(3) == 1000;
    LengthBound(code, 1);
    LengthBound(code, 2);
    LengthBound(code, 3);
  }

  /** The printed status line reads back as the code and the message that were set. */
  lemma StatusReadsBack(code: int, message: seq<Byte>, closing: bool, fields: seq<Field>, body: seq<Byte>)
    requires IsCode(code)
    ensures ReadsAsStatus(PrintResponse(code, message, closing, fields, body), code, message)
  {
    hide HeaderSection;
    NumeralMeansItsValue(code);
    CodeLength(code);
    LineReadsBack(Numeral(code), message, HeaderSection(closing, fields, body));
    hide Numeral;
    var text := PrintResponse(code, message, closing, fields, body);
    assert text == STATUS + Numeral(code) + message + "\r\n" + HeaderSection(closing, fields, body);
  }

  lemma LineReadsBack(digits: seq<Byte>, message: seq<Byte>, rest: seq<Byte>)
    ensures var text := STATUS + digits + message + "\r\n" + rest;
      var from, to := 9 + |digits|, 9 + |digits| + |message|;
      && to + 2 <= |text| && text[..9] == "HTTP/1.1 " && text[9..from] == digits && text[from..to] == message
      && text[to] == '\r' && text[to + 1] == '\n'
  {
  }

  /** Section 3.1.2 of RFC 7230: HTTP-version SP three digits SP reason-phrase. */
  ghost predicate IsStatusLine(line: seq<Byte>) {
    exists digits, reason :: |digits| == 3 && AllDigits(digits) && line == STATUS + digits + " " + reason
  }

  /** Nothing separates the code from the message, so the caller has to start the message with the space. */
  lemma StatusLineWellFormedIff(code: int, message: seq<Byte>)
    requires 100 <= code <= 999
    ensures IsStatusLine(StatusLine(code, message)) <==> message != [] && message[0] == ' '
  {
    var line := StatusLine(code, message);
    DigitsArePlain(code);
    assert Pow10(2) == 100 && Pow10(3) == 1000;
    LengthBound(code, 2);
    LengthBound(code, 3);
    NumeralShape(code);
    assert |Numeral(code)| == 3;
    if message != [] && message[0] == ' ' {
      assert line == STATUS + Numeral(code) + " " + message[1..];
    }
    if IsStatusLine(line) {
      var digits, reason :| |digits| == 3 && AllDigits(digits) && line == STATUS + digits + " " + reason;
      assert line[|STATUS| + 3] == ' ';
      assert message[0] == line[|STATUS| + 3];
    }
  }

  lemma StatusTextFits(code: int)
    requires IsCode(code)
    ensures Truncated(STATUS + Numeral(code), SNPRINTF_ROOM) == STATUS + Numeral(code)
  {
    NumeralLength(code);
  }
}

/** The response object and `appendToBuffer`. */
module Responses {
  import opened Bytes
  import opened Buffers
  import opened Numerals
  import opened Requests
  import opened ParserModel
  import opened ResponseModel

  class HttpResponse {
    var statusCode: int
    var statusMessage: seq<Byte>
    var headers: Headers
    var body: seq<Byte>
    var closeConnection: bool

    constructor (close: bool)
      ensures statusCode == 0 && statusMessage == [] && headers == map[] && body == [] && closeConnection == close
    {
      statusCode, statusMessage, headers, body, closeConnection := 0, [], map[], [], close;
    }

    method AddHeader(key: seq<Byte>, value: seq<Byte>)
      modifies this`headers
      ensures headers == old(headers)[key := value]
    {
      headers := headers[key := value];
    }

    method SetContentType(contentType: seq<Byte>)
      modifies this`headers
      ensures headers == old(headers)["Content-Type" := contentType]
    {
      AddHeader("Content-Type", contentType);
    }

    /** `appendToBuffer`; `listing` is the order in which the map was walked. */
    method AppendToBuffer(output: Buffer) returns (ghost listing: seq<Field>)
      requires output.Valid() && IsCode(statusCode)
      modifies output, output.data
      ensures output.Valid() && (output.data == old(output.data) || fresh(output.data))
      ensures Lists(listing, headers)
      ensures output.Contents()
           == old(output.Contents()) + PrintResponse(statusCode, statusMessage, closeConnection, listing, body)
      ensures old(output.Contents()) <= output.Contents()
      ensures ReadsAsStatus(output.Contents()[|old(output.Contents())|..], statusCode, statusMessage)
    {
      ghost var before := output.Contents();
      ghost var line := AppendStatus(output);
      ghost var text;
      listing, text := AppendFields(output, before, line);
      text := AppendBody(output, before, text);
      Regroup(line, ModeText(closeConnection, |body|), PrintFields(listing), CRLF, body);
      StatusReadsBack(statusCode, statusMessage, closeConnection, listing, body);
      assert output.Contents()[|before|..] == PrintResponse(statusCode, statusMessage, closeConnection, listing, body);
    }

    method AppendFields(output: Buffer, ghost before: seq<Byte>, ghost done: seq<Byte>)
      returns (ghost listing: seq<Field>, ghost text: seq<Byte>)
      requires output.Valid() && output.Contents() == before + done
      modifies output, output.data
      ensures output.Valid() && (output.data == old(output.data) || fresh(output.data))
      ensures Lists(listing, headers)
      ensures text == done + ModeText(closeConnection, |body|) + PrintFields(listing) && output.Contents() == before + text
    {
      text := AppendMode(output, before, done);
      listing, text := AppendHeaders(output, before, text);
    }

    method AppendBody(output: Buffer, ghost before: seq<Byte>, ghost done: seq<Byte>) returns (ghost text: seq<Byte>)
      requires output.Valid() && output.Contents() == before + done
      modifies output, output.data
      ensures output.Valid() && (output.data == old(output.data) || fresh(output.data))
      ensures text == done + CRLF + body && output.Contents() == before + text
    {
      text := Emit(output, CRLF, before, done);
      text := Emit(output, body, before, text);
    }

    method AppendStatus(output: Buffer) returns (ghost text: seq<Byte>)
      requires output.Valid() && IsCode(statusCode)
      modifies output, output.data
      ensures output.Valid() && (output.data == old(output.data) || fresh(output.data))
      ensures text == StatusLine(statusCode, statusMessage) + CRLF
      ensures output.Contents() == old(output.Contents()) + text
    {
      ghost var before := output.Contents();
      StatusTextFits(statusCode);
      var status := Truncated(STATUS + Numeral(statusCode), SNPRINTF_ROOM);
      output.Append(status);
      text := Emit(output, statusMessage, before, status);
      text := Emit(output, CRLF, before, text);
    }

    method AppendMode(output: Buffer, ghost before: seq<Byte>, ghost done: seq<Byte>) returns (ghost text: seq<Byte>)
      requires output.Valid() && output.Contents() == before + done
      modifies output, output.data
      ensures output.Valid() && (output.data == old(output.data) || fresh(output.data))
      ensures text == done + ModeText(closeConnection, |body|) && output.Contents() == before + text
    {
      if closeConnection {
        text := Emit(output, CLOSE_LINE, before, done);
      } else {
        var length := Truncated(LENGTH + ": " + Numeral(|body|), SNPRINTF_ROOM);
        text := Emit(output, length, before, done);
        text := Emit(output, KEEP_ALIVE_LINE, before, text);
        Associate(done, length, KEEP_ALIVE_LINE);
      }
    }

    /** The loop over `headers_`. */
    method AppendHeaders(output: Buffer, ghost before: seq<Byte>, ghost done: seq<Byte>)
      returns (ghost listing: seq<Field>, ghost text: seq<Byte>)
      requires output.Valid() && output.Contents() == before + done
      modifies output, output.data
      ensures output.Valid() && (output.data == old(output.data) || fresh(output.data))
      ensures Lists(listing, headers)
      ensures text == done + PrintFields(listing) && output.Contents() == before + text
    {
      listing, text := [], done;
      var left := headers.Keys;
      while left != {}
        invariant output.Valid() && (output.data == old(output.data) || fresh(output.data))
        invariant left <= headers.Keys && Lists(listing, headers - left)
        invariant text == done + PrintFields(listing) && output.Contents() == before + text
        decreases left
      {
        var key :| key in left;
        ghost var f := Field(key, headers[key]);
        text := AppendLine(output, key, headers[key], before, text);
        PrintedLast(listing, f);
        Associate(done, PrintFields(listing), LineOf(f) + CRLF);
        ListsOneMore(listing, headers - left, f, headers - (left - {key}));
        listing := listing + [f];
        left := left - {key};
      }
      assert headers - {} == headers;
    }

    method AppendLine(output: Buffer, key: seq<Byte>, value: seq<Byte>, ghost before: seq<Byte>, ghost done: seq<Byte>)
      returns (ghost text: seq<Byte>)
      requires output.Valid() && output.Contents() == before + done
      modifies output, output.data
      ensures output.Valid() && (output.data == old(output.data) || fresh(output.data))
      ensures text == done + (LineOf(Field(key, value)) + CRLF) && output.Contents() == before + text
    {
      text := Emit(output, key, before, done);
      text := Emit(output, ": ", before, text);
      text := Emit(output, value, before, text);
      text := Emit(output, CRLF, before, text);
      LineText(done, key, value);
    }

    /** One `append`, seen from the bytes that were there before the response. */
    method Emit(output: Buffer, bytes: seq<Byte>, ghost before: seq<Byte>, ghost done: seq<Byte>)
      returns (ghost text: seq<Byte>)
      requires output.Valid() && output.Contents() == before + done
      modifies output, output.data
      ensures output.Valid() && (output.data == old(output.data) || fresh(output.data))
      ensures text == done + bytes && output.Contents() == before + text
    {
      output.Append(bytes);
      text := done + bytes;
      Associate(before, done, bytes);
    }
  }

  lemma LineText(done: seq<Byte>, key: seq<Byte>, value: seq<Byte>)
    ensures done + key + ": " + value + CRLF == done + (LineOf(Field(key, value)) + CRLF)
  {
    Regroup(done, key, ": ", value, CRLF);
    Associate(key + ": ", value, CRLF);
    Associate(key, ": ", value + CRLF);
  }

  lemma Associate(a: seq<Byte>, b: seq<Byte>, c: seq<Byte>)
    ensures a + b + c == a + (b + c)
  {
  }

  lemma Regroup(a: seq<Byte>, b: seq<Byte>, c: seq<Byte>, d: seq<Byte>, e: seq<Byte>)
    ensures a + b + c + d + e == a + (b + (c + (d + e)))
  {
  }

  lemma {:induction false} PrintedLast(fields: seq<Field>, f: Field)
    ensures PrintFields(fields + [f]) == PrintFields(fields) + (LineOf(f) + "\r\n")
    decreases |fields|
  {
    if fields == [] {
      assert fields + [f] == [f] && [f][1..] == [];
      assert PrintFields([f]) == LineOf(f) + "\r\n" + [];
    } else {
      assert (fields + [f])[1..] == fields[1..] + [f];
      PrintedLast(fields[1..], f);
    }
  }

  lemma ListsOneMore(fields: seq<Field>, h: Headers, f: Field, more: Headers)
    requires Lists(fields, h) && f.name !in h && more == h[f.name := f.value]
    ensures Lists(fields + [f], more)
  {
    var all := fields + [f];
    forall name | name in more ensures exists k :: 0 <= k < |all| && all[k].name == name {
      if name in h {
        var k :| 0 <= k < |fields| && fields[k].name == name;
        assert all[k].name == name;
      } else {
        assert all[|fields|].name == name;
      }
    }
  }
}
