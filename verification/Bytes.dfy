/** Bytes, big-endian integers and the two C++ library searches the parser and the buffer share. */
module Bytes {

  datatype Option<+T> = None | Some(value: T) {
    function GetOr(default: T): T {
      match this
      case Some(v) => v
      case None => default
    }
  }

  /** A C++ `char` seen as an unsigned byte; text literals are byte sequences too. */
  type Byte = c: char | c < 256 as char witness 'a'

  // ---------------------------------------------------------------- big-endian integers

  function Pow256(n: nat): (p: nat)
    ensures p > 0
  {
    if n == 0 then 1 else 256 * Pow256(n - 1)
  }

  /** The low `width` bytes of `u`, most significant first (`htobe16/32/64`). */
  function EncodeUnsigned(u: nat, width: nat): (s: seq<Byte>)
    ensures |s| == width
  {
    if width == 0 then [] else EncodeUnsigned(u / 256, width - 1) + [(u % 256) as char]
  }

  function DecodeUnsigned(s: seq<Byte>): (u: nat)
    ensures u < Pow256(|s|)
  {
    if s == [] then 0 else 256 * DecodeUnsigned(s[..|s| - 1]) + s[|s| - 1] as int
  }

  predicate FitsSigned(x: int, width: nat) {
    0 <= 2 * x + Pow256(width) < 2 * Pow256(width)
  }

  /** Two's complement. */
  function EncodeInt(x: int, width: nat): (s: seq<Byte>)
    requires FitsSigned(x, width)
    ensures |s| == width
  {
    EncodeUnsigned(if x < 0 then x + Pow256(width) else x, width)
  }

  function DecodeInt(s: seq<Byte>): (x: int)
    ensures FitsSigned(x, |s|)
  {
    var u := DecodeUnsigned(s);
    if 2 * u < Pow256(|s|) then u else u - Pow256(|s|)
  }

  lemma {:induction false} DecodeEncodeUnsigned(u: nat, width: nat)
    requires u < Pow256(width)
    ensures DecodeUnsigned(EncodeUnsigned(u, width)) == u
  {
    if width > 0 {
      DecodeEncodeUnsigned(u / 256, width - 1);
      var s := EncodeUnsigned(u, width);
      assert s[..|s| - 1] == EncodeUnsigned(u / 256, width - 1);
    }
  }

  lemma {:induction false} EncodeDecodeUnsigned(s: seq<Byte>)
    ensures EncodeUnsigned(DecodeUnsigned(s), |s|) == s
  {
    if s != [] {
      EncodeDecodeUnsigned(s[..|s| - 1]);
      assert DecodeUnsigned(s) / 256 == DecodeUnsigned(s[..|s| - 1]);
      assert s == s[..|s| - 1] + [s[|s| - 1]];
    }
  }

  lemma DivTwice(a: int, p: int)
    requires p > 0
    ensures a / (256 * p) == (a / 256) / p
  {
    var q, r := (a / 256) / p, (a / 256) % p;
    assert a / 256 == p * q + r;
    assert a == 256 * (a / 256) + a % 256;
    assert a == (256 * p) * q + (256 * r + a % 256);
    QuotientUnique(a, 256 * p, q, 256 * r + a % 256);
  }

  lemma QuotientUnique(a: int, d: int, q: int, r: int)
    requires d > 0 && a == d * q + r && 0 <= r < d
    ensures a / d == q
  {
    var e := a / d - q;
    assert d * e == r - a % d;
    MultipleIsFar(d, e);
  }

  lemma MultipleIsFar(d: int, e: int)
    requires d > 0
    ensures e >= 1 ==> d * e >= d
    ensures e <= -1 ==> d * e <= -d
  {
  }

  /** Big-endian: byte k of the encoding is the k-th most significant one. */
  lemma {:induction false} UnsignedByte(u: nat, width: nat, k: nat)
    requires k < width
    ensures EncodeUnsigned(u, width)[k] as int == (u / Pow256(width - 1 - k)) % 256
  {
    if k == width - 1 {
      assert Pow256(0) == 1;
    } else {
      UnsignedByte(u / 256, width - 1, k);
      DivTwice(u, Pow256(width - 2 - k));
    }
  }

  lemma {:induction false} PowSplits(a: nat, b: nat)
    ensures Pow256(a + b) == Pow256(a) * Pow256(b)
  {
    if a > 0 {
      PowSplits(a - 1, b);
    }
  }

  /** Big-endian two's complement: byte k of an integer of either sign. */
  lemma IntegerByte(x: int, width: nat, k: nat)
    requires FitsSigned(x, width) && k < width
    ensures EncodeInt(x, width)[k] as int == (x / Pow256(width - 1 - k)) % 256
  {
    var p := Pow256(width - 1 - k);
    if x < 0 {
      UnsignedByte(x + Pow256(width), width, k);
      PowSplits(k + 1, width - 1 - k);
      var m := Pow256(k);
      assert Pow256(width) == 256 * m * p;
      ShiftedByte(x, p, m);
    } else {
      UnsignedByte(x, width, k);
    }
  }

  lemma ShiftedByte(x: int, p: int, m: int)
    requires p > 0
    ensures ((x + 256 * m * p) / p) % 256 == (x / p) % 256
  {
    var q, r := x / p, x % p;
    assert x + 256 * m * p == p * (q + 256 * m) + r;
    QuotientUnique(x + 256 * m * p, p, q + 256 * m, r);
  }

  /** Every integer that fits survives the round trip, and every byte string is the image of one. */
  lemma IntegerRoundTrip(x: int, s: seq<Byte>)
    requires FitsSigned(x, |s|)
    ensures DecodeInt(EncodeInt(x, |s|)) == x
    ensures EncodeInt(DecodeInt(s), |s|) == s
    ensures EncodeInt(x, |s|) == s <==> DecodeInt(s) == x
  {
    DecodeEncodeUnsigned(if x < 0 then x + Pow256(|s|) else x, |s|);
    EncodeDecodeUnsigned(s);
  }

  // ---------------------------------------------------------------- searches

  /** `std::find`: the first position of `c`, or the end. */
  function Find(s: seq<Byte>, c: Byte): (i: nat)
    ensures i <= |s|
    ensures i < |s| ==> s[i] == c
    ensures forall k :: 0 <= k < i ==> s[k] != c
  {
    if s == [] then 0 else if s[0] == c then 0 else 1 + Find(s[1..], c)
  }

  predicate CRLFAt(s: seq<Byte>, k: int) {
    0 <= k < |s| - 1 && s[k] == '\r' && s[k + 1] == '\n'
  }

  ghost predicate CRLFFree(s: seq<Byte>) {
    forall k :: !CRLFAt(s, k)
  }

  /** `std::search` for CRLF with the end mapped to a null pointer. */
  function FindCRLF(s: seq<Byte>): (r: Option<nat>)
    ensures r.None? ==> CRLFFree(s)
    ensures r.Some? ==> CRLFAt(s, r.value) && forall k :: 0 <= k < r.value ==> !CRLFAt(s, k)
  {
    if |s| < 2 then None
    else if CRLFAt(s, 0) then Some(0)
    else
      var rest := FindCRLF(s[1..]);
      assert forall k :: 1 <= k ==> (CRLFAt(s, k) <==> CRLFAt(s[1..], k - 1));
      if rest.None? then None else Some(rest.value + 1)
  }

  /** A terminator already present is still the first one after more bytes arrive. */
  lemma FindCRLFStable(a: seq<Byte>, b: seq<Byte>)
    ensures FindCRLF(a).Some? ==> FindCRLF(a + b) == FindCRLF(a)
  {
    if FindCRLF(a).Some? {
      var i := FindCRLF(a).value;
      assert CRLFAt(a + b, i);
      assert forall k :: 0 <= k < i ==> (CRLFAt(a + b, k) <==> CRLFAt(a, k));
    }
  }

  lemma FindUnique(s: seq<Byte>, c: Byte, i: nat)
    requires i < |s| && s[i] == c && forall k :: 0 <= k < i ==> s[k] != c
    ensures Find(s, c) == i
  {
  }

  /** The first terminator after a CRLF-free line is the one that ends it. */
  lemma FindCRLFAfterLine(line: seq<Byte>, rest: seq<Byte>)
    requires CRLFFree(line)
    ensures FindCRLF(line + "\r\n" + rest) == Some(|line|)
  {
    var s := line + "\r\n" + rest;
    assert CRLFAt(s, |line|);
    forall k | 0 <= k < |line| ensures !CRLFAt(s, k) {
      assert !CRLFAt(line, k);
    }
  }

  lemma CRLFFreeConcat(a: seq<Byte>, b: seq<Byte>)
    requires CRLFFree(a) && CRLFFree(b)
    requires a == [] || b == [] || a[|a| - 1] != '\r' || b[0] != '\n'
    ensures CRLFFree(a + b)
  {
    forall k ensures !CRLFAt(a + b, k) {
      assert !CRLFAt(a, k) && !CRLFAt(b, k - |a|);
    }
  }
}
