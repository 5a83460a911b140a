/** The request being parsed (HttpRequest.cc, HttpRequest.h). */
module Requests {
  import opened Bytes

  datatype Method = INVALID | GET | POST | HEAD | PUT | DELETE

  datatype Version = UNKNOWN | HTTP10 | HTTP11

  type Headers = map<seq<Byte>, seq<Byte>>

  datatype Request = Request(
    httpMethod: Method, version: Version, path: seq<Byte>, query: seq<Byte>, body: seq<Byte>,
    receiveTime: int, headers: Headers)

  const FRESH := Request(INVALID, UNKNOWN, [], [], [], 0, map[])

  function MethodOf(token: seq<Byte>): Method {
    if token == "GET" then GET
    else if token == "POST" then POST
    else if token == "HEAD" then HEAD
    else if token == "PUT" then PUT
    else if token == "DELETE" then DELETE
    else INVALID
  }

  function MethodToken(m: Method): seq<Byte> {
    match m
    case INVALID => "INVALID"
    case GET => "GET"
    case POST => "POST"
    case HEAD => "HEAD"
    case PUT => "PUT"
    case DELETE => "DELETE"
  }

  lemma MethodRoundTrip(m: Method, token: seq<Byte>)
    ensures m != INVALID ==> MethodOf(MethodToken(m)) == m
    ensures MethodOf(token) != INVALID <==> exists k :: k != INVALID && token == MethodToken(k)
    ensures m != INVALID ==> MethodToken(m) != [] && ' ' !in MethodToken(m) && CRLFFree(MethodToken(m))
    ensures MethodOf("GET") == GET && MethodOf("POST") == POST && MethodOf("HEAD") == HEAD
    ensures MethodOf("PUT") == PUT && MethodOf("DELETE") == DELETE
  {
    if MethodOf(token) != INVALID {
      assert token == MethodToken(MethodOf(token));
    }
  }

  // ---------------------------------------------------------------- trimming

  /** `isspace` in the C locale. */
  predicate IsSpace(c: Byte) {
    c == ' ' || 9 as char <= c <= 13 as char
  }

  /** Six characters are space: blank, tab, line feed, vertical tab, form feed, carriage return. */
  lemma SpaceCharacters(c: Byte)
    ensures IsSpace(c) <==> c == ' ' || c == '\t' || c == '\n' || c == '\r' || c as int == 11 || c as int == 12
  {
  }

  function TrimLeft(s: seq<Byte>): (r: seq<Byte>)
    ensures |r| <= |s|
  {
    if s != [] && IsSpace(s[0]) then TrimLeft(s[1..]) else s
  }

  function TrimRight(s: seq<Byte>): (r: seq<Byte>)
    ensures |r| <= |s|
  {
    if s != [] && IsSpace(s[|s| - 1]) then TrimRight(s[..|s| - 1]) else s
  }

  ghost predicate Trimmed(s: seq<Byte>) {
    s != [] ==> !IsSpace(s[0]) && !IsSpace(s[|s| - 1])
  }

  lemma {:induction false} TrimLeftBlanks(blanks: seq<Byte>, s: seq<Byte>)
    requires (forall k :: 0 <= k < |blanks| ==> IsSpace(blanks[k])) && (s != [] ==> !IsSpace(s[0]))
    ensures TrimLeft(blanks + s) == s
  {
    if blanks == [] {
      assert blanks + s == s;
    } else {
      TrimLeftBlanks(blanks[1..], s);
      assert (blanks + s)[1..] == blanks[1..] + s;
    }
  }

  lemma {:induction false} TrimRightBlanks(s: seq<Byte>, blanks: seq<Byte>)
    requires (forall k :: 0 <= k < |blanks| ==> IsSpace(blanks[k])) && (s != [] ==> !IsSpace(s[|s| - 1]))
    ensures TrimRight(s + blanks) == s
  {
    if blanks == [] {
      assert s + blanks == s;
    } else {
      TrimRightBlanks(s, blanks[..|blanks| - 1]);
      assert (s + blanks)[..|s + blanks| - 1] == s + blanks[..|blanks| - 1];
    }
  }

  function FieldValue(raw: seq<Byte>): seq<Byte> {
    TrimRight(TrimLeft(raw))
  }

  /** Any amount of blank space around a trimmed value disappears, and nothing else does. */
  lemma FieldValueExact(before: seq<Byte>, value: seq<Byte>, after: seq<Byte>)
    requires forall k :: 0 <= k < |before| ==> IsSpace(before[k])
    requires forall k :: 0 <= k < |after| ==> IsSpace(after[k])
    requires Trimmed(value)
    ensures FieldValue(before + value + after) == value
  {
    if value == [] {
      assert before + value + after == (before + after) + [];
      TrimLeftBlanks(before + after, []);
    } else {
      assert before + value + after == before + (value + after);
      TrimLeftBlanks(before, value + after);
      TrimRightBlanks(value, after);
    }
  }

  /** `addHeader` on a line whose first colon is at `colon`. */
  function WithHeader(r: Request, line: seq<Byte>, colon: nat): Request
    requires colon < |line|
  {
    r.(headers := r.headers[line[..colon] := FieldValue(line[colon + 1..])])
  }

  /** The two trimming loops of `addHeader`. */
  method TrimBothEnds(raw: seq<Byte>) returns (value: seq<Byte>)
    ensures value == FieldValue(raw)
  {
    var from := 0;
    while from < |raw| && IsSpace(raw[from])
      invariant from <= |raw| && TrimLeft(raw[from..]) == TrimLeft(raw)
    {
      assert raw[from..][0] == raw[from] && raw[from..][1..] == raw[from + 1..];
      from := from + 1;
    }
    value := raw[from..];
    while value != [] && IsSpace(value[|value| - 1])
      invariant TrimRight(value) == FieldValue(raw)
    {
      value := value[..|value| - 1];
    }
  }

  /** Header lines, each with a colon, entered in order. */
  function WithHeaders(r: Request, lines: seq<seq<Byte>>): Request
    decreases |lines|
  {
    if lines == [] then r
    else
      var colon := Find(lines[0], ':');
      WithHeaders(if colon < |lines[0]| then WithHeader(r, lines[0], colon) else r, lines[1..])
  }

  lemma {:induction false} WithHeadersConcat(r: Request, a: seq<seq<Byte>>, b: seq<seq<Byte>>)
    ensures WithHeaders(r, a + b) == WithHeaders(WithHeaders(r, a), b)
    decreases |a|
  {
    if a == [] {
      assert a + b == b;
    } else {
      var colon := Find(a[0], ':');
      assert (a + b)[1..] == a[1..] + b;
      WithHeadersConcat(if colon < |a[0]| then WithHeader(r, a[0], colon) else r, a[1..], b);
    }
  }

  // ---------------------------------------------------------------- the object

  class HttpRequest {
    var httpMethod: Method
    var version: Version
    var path: seq<Byte>
    var query: seq<Byte>
    var body: seq<Byte>
    var receiveTime: int
    var headers: Headers

    function Look(): Request
      reads this
    {
      Request(httpMethod, version, path, query, body, receiveTime, headers)
    }

    constructor ()
      ensures Look() == FRESH
    {
      httpMethod, version, path, query, body, receiveTime, headers := INVALID, UNKNOWN, [], [], [], 0, map[];
    }

    /** Its assert is the precondition. */
    method SetMethod(token: seq<Byte>) returns (ok: bool)
      requires httpMethod == INVALID
      modifies this`httpMethod
      ensures httpMethod == MethodOf(token) && ok == (MethodOf(token) != INVALID)
    {
      if token == "GET" {
        httpMethod := GET;
      } else if token == "POST" {
        httpMethod := POST;
      } else if token == "HEAD" {
        httpMethod := HEAD;
      } else if token == "PUT" {
        httpMethod := PUT;
      } else if token == "DELETE" {
        httpMethod := DELETE;
      } else {
        httpMethod := INVALID;
      }
      ok := httpMethod != INVALID;
    }

    method AddHeader(line: seq<Byte>, colon: nat)
      requires colon < |line|
      modifies this`headers
      ensures Look() == WithHeader(old(Look()), line, colon)
    {
      var field := line[..colon];
      var value := TrimBothEnds(line[colon + 1..]);
      headers := headers[field := value];
    }

    function GetHeader(field: seq<Byte>): seq<Byte>
      reads this
    {
      if field in headers then headers[field] else []
    }

    /** `swap`, as HttpContext::reset uses it with a new request. */
    method Swap(other: HttpRequest)
      modifies this, other
      ensures Look() == old(other.Look()) && other.Look() == old(Look())
    {
      httpMethod, other.httpMethod := other.httpMethod, httpMethod;
      version, other.version := other.version, version;
      path, other.path := other.path, path;
      query, other.query := other.query, query;
      body, other.body := other.body, body;
      receiveTime, other.receiveTime := other.receiveTime, receiveTime;
      headers, other.headers := other.headers, headers;
    }
  }
}
