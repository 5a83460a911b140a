/** Decimal conversion (LogStream.cc) and the fixed log buffer (LogStream.h). */
module Numerals {
  import opened Bytes

  // ---------------------------------------------------------------- C++ integer division

  function TruncDiv(a: int, b: int): int
    requires b > 0
  {
    if a >= 0 then a / b else -(-a / b)
  }

  function TruncMod(a: int, b: int): int
    requires b > 0
  {
    a - b * TruncDiv(a, b)
  }

  function Abs(v: int): nat { if v < 0 then -v else v }

  lemma TruncOnMagnitudes(i: int)
    ensures Abs(TruncDiv(i, 10)) == Abs(i) / 10
    ensures Abs(TruncMod(i, 10)) == Abs(i) % 10
  {
  }

  // ---------------------------------------------------------------- what a numeral is

  predicate IsDigit(c: Byte) { '0' <= c <= '9' }

  function Digit(d: nat): (c: Byte)
    requires d < 10
    ensures IsDigit(c)
  {
    ('0' as int + d) as char
  }

  ghost predicate AllDigits(s: seq<Byte>) {
    s != [] && forall k :: 0 <= k < |s| ==> IsDigit(s[k])
  }

  /** No leading zero, except the numeral zero itself. */
  ghost predicate IsNatural(s: seq<Byte>) {
    AllDigits(s) && (s[0] == '0' ==> |s| == 1)
  }

  ghost predicate IsNumeral(s: seq<Byte>) {
    if s != [] && s[0] == '-' then IsNatural(s[1..]) && s[1] != '0' else IsNatural(s)
  }

  function DigitValue(c: Byte): nat
    requires IsDigit(c)
  {
    c as int - '0' as int
  }

  ghost function NaturalValue(s: seq<Byte>): nat
    requires forall k :: 0 <= k < |s| ==> IsDigit(s[k])
  {
    if s == [] then 0 else 10 * NaturalValue(s[..|s| - 1]) + DigitValue(s[|s| - 1])
  }

  ghost function Value(s: seq<Byte>): int
    requires IsNumeral(s)
  {
    if s[0] == '-' then 0 - NaturalValue(s[1..]) else NaturalValue(s)
  }

  // ---------------------------------------------------------------- what the loop writes

  /** Least significant digit first, as the do-while emits them. */
  function DigitsLsd(n: nat): (s: seq<Byte>)
    ensures |s| > 0
  {
    [Digit(n % 10)] + if n < 10 then [] else DigitsLsd(n / 10)
  }

  function Reverse(s: seq<Byte>): (r: seq<Byte>)
    ensures |r| == |s|
    ensures forall k :: 0 <= k < |s| ==> r[k] == s[|s| - 1 - k]
  {
    if s == [] then [] else Reverse(s[1..]) + [s[0]]
  }

  function Numeral(v: int): seq<Byte> {
    Reverse(DigitsLsd(Abs(v)) + if v < 0 then "-" else "")
  }

  /** One more digit at the end of a natural numeral other than zero. */
  lemma DigitAppended(r: seq<Byte>, d: nat)
    requires IsNatural(r) && r[0] != '0' && d < 10
    ensures var s := r + [Digit(d)]; IsNatural(s) && s[0] != '0' && NaturalValue(s) == 10 * NaturalValue(r) + d
  {
    var s := r + [Digit(d)];
    assert s[..|s| - 1] == r && s[0] == r[0];
  }

  lemma {:induction false} NaturalOf(n: nat)
    ensures IsNatural(Reverse(DigitsLsd(n)))
    ensures Reverse(DigitsLsd(n))[0] == '0' ==> n == 0
    ensures NaturalValue(Reverse(DigitsLsd(n))) == n
  {
    var r := Reverse(DigitsLsd(n));
    if n < 10 {
      assert r == [Digit(n)];
      assert r[..0] == [];
    } else {
      var front := Reverse(DigitsLsd(n / 10));
      NaturalOf(n / 10);
      assert r == front + [Digit(n % 10)];
      DigitAppended(front, n % 10);
    }
  }

  lemma {:induction false} NaturalIsReversedDigits(s: seq<Byte>)
    requires IsNatural(s)
    ensures Reverse(DigitsLsd(NaturalValue(s))) == s
    ensures s[0] != '0' ==> NaturalValue(s) > 0
  {
    var front, d := s[..|s| - 1], DigitValue(s[|s| - 1]);
    assert s == front + [Digit(d)];
    if |s| == 1 {
      assert NaturalValue(front) == 0;
      assert DigitsLsd(d) == [Digit(d)];
    } else {
      NaturalIsReversedDigits(front);
      var n := NaturalValue(s);
      assert n / 10 == NaturalValue(front) && n % 10 == d && n >= 10;
      assert DigitsLsd(n)[1..] == DigitsLsd(n / 10);
    }
  }

  lemma NumeralShape(v: int)
    ensures v < 0 ==> Numeral(v) == "-" + Reverse(DigitsLsd(Abs(v)))
    ensures v >= 0 ==> Numeral(v) == Reverse(DigitsLsd(Abs(v)))
  {
    assert DigitsLsd(Abs(v)) + "" == DigitsLsd(Abs(v));
  }

  lemma NumeralMeansItsValue(v: int)
    ensures IsNumeral(Numeral(v)) && Value(Numeral(v)) == v
    ensures v < 0 <==> Numeral(v)[0] == '-'
  {
    var digits := Reverse(DigitsLsd(Abs(v)));
    NaturalOf(Abs(v));
    NumeralShape(v);
    if v < 0 {
      assert Numeral(v)[1..] == digits;
    }
  }

  lemma NumeralOfValue(s: seq<Byte>)
    requires IsNumeral(s)
    ensures Numeral(Value(s)) == s
  {
    hide DigitsLsd, Reverse, NaturalValue, Numeral;
    NumeralShape(Value(s));
    if s[0] == '-' {
      NaturalIsReversedDigits(s[1..]);
      assert s == "-" + s[1..];
    } else {
      NaturalIsReversedDigits(s);
    }
  }

  /** `Numeral(v)` is a numeral that means v, and it is the only one. */
  lemma NumeralIsCanonical(v: int, s: seq<Byte>)
    requires IsNumeral(s)
    ensures IsNumeral(Numeral(v))
    ensures Value(s) == v <==> s == Numeral(v)
  {
    NumeralMeansItsValue(v);
    NumeralOfValue(s);
  }

  // ---------------------------------------------------------------- how long it is

  function Pow10(k: nat): nat { if k == 0 then 1 else 10 * Pow10(k - 1) }

  lemma {:induction false} LengthBound(n: nat, k: nat)
    requires k > 0
    ensures |DigitsLsd(n)| <= k <==> n < Pow10(k)
  {
    if n < 10 {
      PowAtLeastTen(k);
    } else if k > 1 {
      LengthBound(n / 10, k - 1);
    } else {
      assert Pow10(1) == 10;
    }
  }

  lemma PowAtLeastTen(k: nat)
    requires k > 0
    ensures Pow10(k) >= 10
  {
  }

  const INT64_MIN: int := -0x8000_0000_0000_0000
  const UINT64_MAX: int := 0xFFFF_FFFF_FFFF_FFFF

  lemma PowValues()
    ensures Pow10(19) == 10_000_000_000_000_000_000
    ensures Pow10(20) == 100_000_000_000_000_000_000
  {
    assert Pow10(5) == 100_000;
    assert Pow10(10) == 10_000_000_000 by { assert Pow10(8) == 1000 * Pow10(5); }
    assert Pow10(15) == 1_000_000_000_000_000 by { assert Pow10(13) == 1000 * Pow10(10); }
    assert Pow10(17) == 100 * Pow10(15);
  }

  /** Twenty characters are enough for every 64-bit value, signed or not. */
  lemma NumeralLength(v: int)
    requires INT64_MIN <= v <= UINT64_MAX
    ensures |Numeral(v)| <= 20
  {
    PowValues();
    LengthBound(Abs(v), 20);
    LengthBound(Abs(v), 19);
  }

  /** The bound is exact at both ends of the range. */
  lemma NumeralLengthTight(v: int)
    requires v == INT64_MIN || v == UINT64_MAX
    ensures |Numeral(v)| == 20
  {
    PowValues();
    LengthBound(Abs(v), 20);
    LengthBound(Abs(v), 19);
    LengthBound(Abs(v), 18);
  }

  // ---------------------------------------------------------------- the code

  const DIGITS: seq<Byte> := "9876543210123456789"
  const ZERO := 9

  lemma DigitTable(lsd: int)
    requires -9 <= lsd <= 9
    ensures DIGITS[ZERO + lsd] == Digit(Abs(lsd))
  {
  }

  /** Positions lo..i and j..hi hold the mirror image of `was` already, the rest is as it was. */
  ghost predicate Mirrored(now: seq<Byte>, was: seq<Byte>, lo: nat, hi: nat, i: nat, j: nat)
    requires lo <= i <= j <= hi <= |was|
  {
    && |now| == |was|
    && (forall k :: 0 <= k < |was| && !(lo <= k < i) && !(j <= k < hi) ==> now[k] == was[k])
    && (forall k :: lo <= k < i || j <= k < hi ==> now[k] == was[lo + hi - 1 - k])
  }

  lemma MirrorStep(now: seq<Byte>, was: seq<Byte>, lo: nat, hi: nat, i: nat, j: nat)
    requires lo <= i < j - 1 && j <= hi <= |was| && i + j == lo + hi && Mirrored(now, was, lo, hi, i, j)
    ensures Mirrored(now[i := now[j - 1]][j - 1 := now[i]], was, lo, hi, i + 1, j - 1)
  {
  }

  lemma MirrorDone(now: seq<Byte>, was: seq<Byte>, lo: nat, hi: nat, i: nat, j: nat)
    requires lo <= i <= j <= hi <= |was| && j - 1 <= i && i + j == lo + hi && Mirrored(now, was, lo, hi, i, j)
    ensures now[..lo] == was[..lo] && now[hi..] == was[hi..] && now[lo..hi] == Reverse(was[lo..hi])
  {
    forall k | 0 <= k < hi - lo ensures now[lo..hi][k] == Reverse(was[lo..hi])[k] {
      assert now[lo + k] == was[lo + hi - 1 - (lo + k)];
    }
  }

  method ReverseInPlace(a: array<Byte>, lo: nat, hi: nat)
    requires lo <= hi <= a.Length
    modifies a
    ensures a[lo..hi] == Reverse(old(a[lo..hi]))
    ensures a[..lo] == old(a[..lo]) && a[hi..] == old(a[hi..])
  {
    ghost var was := a[..];
    var i, j := lo, hi;
    while i < j - 1
      invariant lo <= i <= j <= hi && i + j == lo + hi
      invariant Mirrored(a[..], was, lo, hi, i, j)
    {
      MirrorStep(a[..], was, lo, hi, i, j);
      ghost var swapped := a[..][i := a[j - 1]][j - 1 := a[i]];
      j := j - 1;
      a[i], a[j] := a[j], a[i];
      i := i + 1;
      assert a[..] == swapped;
    }
    MirrorDone(a[..], was, lo, hi, i, j);
  }

  /** `convert`: a do-while over truncating division, then a reversal in place. */
  method Convert(buf: array<Byte>, at: nat, value: int) returns (len: nat)
    requires INT64_MIN <= value <= UINT64_MAX
    requires at + 21 <= buf.Length
    modifies buf
    ensures len <= 20 && buf[at..at + len] == Numeral(value) && buf[at + len] == '\0'
    ensures buf[..at] == old(buf[..at]) && buf[at + len + 1..] == old(buf[at + len + 1..])
  {
    NumeralLength(value);
    var p := EmitSigned(buf, at, value);
    buf[p] := '\0';
    Flip(buf, at, p, value);
    len := p - at;
  }

  method Flip(buf: array<Byte>, at: nat, p: nat, value: int)
    requires at <= p < buf.Length && buf[p] == '\0'
    requires buf[at..p] == DigitsLsd(Abs(value)) + if value < 0 then "-" else ""
    modifies buf
    ensures buf[at..p] == Numeral(value) && buf[p] == '\0'
    ensures buf[..at] == old(buf[..at]) && buf[p + 1..] == old(buf[p + 1..])
  {
    ghost var tail := buf[p..];
    ReverseInPlace(buf, at, p);
    assert buf[p] == tail[0] && buf[p + 1..] == tail[1..];
  }

  method EmitSigned(buf: array<Byte>, at: nat, value: int) returns (p: nat)
    requires at + |Numeral(value)| < buf.Length
    modifies buf
    ensures p == at + |Numeral(value)|
    ensures buf[at..p] == DigitsLsd(Abs(value)) + if value < 0 then "-" else ""
    ensures buf[..at] == old(buf[..at]) && buf[p..] == old(buf[p..])
  {
    p := EmitDigits(buf, at, value);
    if value < 0 {
      ghost var digits, tail := buf[at..p], buf[p..];
      buf[p] := '-';
      p := p + 1;
      assert buf[at..p] == digits + "-";
      assert buf[p..] == tail[1..];
    }
  }

  /** The do-while of `convert`. */
  method EmitDigits(buf: array<Byte>, at: nat, value: int) returns (p: nat)
    requires at + |DigitsLsd(Abs(value))| < buf.Length
    modifies buf
    ensures p == at + |DigitsLsd(Abs(value))|
    ensures buf[..at] == old(buf[..at]) && buf[at..p] == DigitsLsd(Abs(value)) && buf[p..] == old(buf[p..])
  {
    hide DigitsLsd;
    var i, more := value, true;
    p := at;
    while more
      invariant at <= p < buf.Length
      invariant buf[..at] == old(buf[..at]) && buf[p..] == old(buf[p..])
      invariant buf[at..p] + (if more then DigitsLsd(Abs(i)) else []) == DigitsLsd(Abs(value))
      decreases more, Abs(i)
    {
      ghost var was := p;
      p, i, more := EmitDigit(buf, at, p, i, DigitsLsd(Abs(value)));
      assert buf[p..] == old(buf[was..])[1..];
    }
  }

  /** One turn of the do-while. */
  method EmitDigit(buf: array<Byte>, at: nat, p: nat, i: int, ghost all: seq<Byte>) returns (q: nat, rest: int, more: bool)
    requires at <= p < buf.Length && buf[at..p] + DigitsLsd(Abs(i)) == all
    modifies buf
    ensures q == p + 1 && buf[..at] == old(buf[..at]) && buf[q..] == old(buf[q..])
    ensures more ==> buf[at..q] + DigitsLsd(Abs(rest)) == all && Abs(rest) < Abs(i)
    ensures !more ==> buf[at..q] == all
  {
    var digit;
    digit, rest := TakeDigit(i, buf[at..p], all);
    ghost var before := buf[at..p];
    buf[p] := digit;
    q := p + 1;
    more := rest != 0;
    assert buf[at..q] == before + [digit];
    assert buf[q..] == old(buf[p..])[1..];
  }

  /** The division, the remainder and the table, on a value of either sign. */
  method TakeDigit(i: int, ghost before: seq<Byte>, ghost all: seq<Byte>) returns (digit: Byte, rest: int)
    requires before + DigitsLsd(Abs(i)) == all
    ensures rest != 0 ==> before + [digit] + DigitsLsd(Abs(rest)) == all && Abs(rest) < Abs(i)
    ensures rest == 0 ==> before + [digit] == all
  {
    TruncOnMagnitudes(i);
    var lsd := TruncMod(i, 10);
    rest := TruncDiv(i, 10);
    DigitTable(lsd);
    digit := DIGITS[ZERO + lsd];
    ghost var tail := if Abs(i) < 10 then [] else DigitsLsd(Abs(i) / 10);
    assert (before + [digit]) + tail == before + ([digit] + tail);
  }
}

module LogBuffers {
  import opened Bytes
  import opened Numerals

  const SMALL_BUFFER: nat := 4000
  const LARGE_BUFFER: nat := 4000 * 1000
  const MAX_NUMERIC_SIZE := 32
  const INT_MAX: nat := 0x7FFF_FFFF

  /** `static_cast<int>` of a size. */
  function CastInt(len: nat): int {
    var low := len % 0x1_0000_0000;
    if low <= INT_MAX then low else low - 0x1_0000_0000
  }

  /** A copy of `len` bytes, guarded by the cast length, stays inside the room left. */
  predicate CopyStaysInside(avail: int, len: nat) {
    CastInt(len) < avail ==> len < avail
  }

  /** Exactly when the guard of `append` protects the copy: always for lengths that an int can hold, and
      beyond that only when the cast length is refused. */
  lemma GuardProtectsIff(avail: int, len: nat)
    requires 0 < avail <= INT_MAX
    ensures CopyStaysInside(avail, len) <==> len <= INT_MAX || avail <= CastInt(len)
  {
    assert len <= INT_MAX ==> CastInt(len) == len;
  }

  function Flatten<T>(pieces: seq<seq<T>>): seq<T> {
    if pieces == [] then [] else Flatten(pieces[..|pieces| - 1]) + pieces[|pieces| - 1]
  }

  lemma {:induction false} FlattenConcat<T>(a: seq<seq<T>>, b: seq<seq<T>>)
    ensures Flatten(a + b) == Flatten(a) + Flatten(b)
  {
    if b == [] {
      assert a + b == a;
    } else {
      var front := b[..|b| - 1];
      assert (a + b)[..|a + b| - 1] == a + front;
      FlattenConcat(a, front);
      assert Flatten(a) + Flatten(front) + b[|b| - 1] == Flatten(a) + (Flatten(front) + b[|b| - 1]);
    }
  }

  /** `FixedBuffer<SIZE>`. The cursor always stays strictly inside, so a terminator always fits. */
  class FixedBuffer {
    const data: array<Byte>
    var cur: nat
    ghost var pieces: seq<seq<Byte>>   // what was added since the last reset, piece by piece

    ghost predicate Valid()
      reads this, data
    {
      cur < data.Length && Flatten(pieces) == data[..cur]
    }

    constructor (size: nat)
      requires size > 0
      ensures Valid() && fresh(data) && data.Length == size && cur == 0 && pieces == []
    {
      data := new Byte[size];
      cur := 0;
      pieces := [];
    }

    function Length(): nat reads this { cur }

    function Avail(): int reads this { data.Length - cur }

    /** `append`: all or nothing, and strictly less than the room left. The length is cast to int first. */
    method Append(bytes: seq<Byte>)
      requires Valid() && CopyStaysInside(Avail(), |bytes|)
      modifies this, data
      ensures Valid()
      ensures pieces == if old(Avail()) > CastInt(|bytes|) then old(pieces) + [bytes] else old(pieces)
      ensures cur == if old(Avail()) > CastInt(|bytes|) then old(cur) + |bytes| else old(cur)
    {
      if Avail() > CastInt(|bytes|) {
        ghost var before := data[..cur];
        forall i | 0 <= i < |bytes| {
          data[cur + i] := bytes[i];
        }
        assert data[..cur] == before;
        Add(|bytes|, bytes);
      }
    }

    /** `add`: the bytes are already in place; the caller must have left room. */
    method Add(len: nat, ghost piece: seq<Byte>)
      requires cur + len < data.Length && Flatten(pieces) == data[..cur] && data[cur..cur + len] == piece
      modifies this
      ensures Valid() && cur == old(cur) + len && pieces == old(pieces) + [piece]
    {
      assert (pieces + [piece])[..|pieces|] == pieces;
      assert data[..cur + len] == data[..cur] + data[cur..cur + len];
      cur := cur + len;
      pieces := pieces + [piece];
    }

    method Reset()
      requires Valid()
      modifies this
      ensures Valid() && cur == 0 && pieces == []
    {
      cur := 0;
      pieces := [];
    }
  }

  class LogStream {
    const buffer: FixedBuffer

    ghost predicate Valid()
      reads this, buffer, buffer.data
    {
      buffer.Valid() && buffer.data.Length == SMALL_BUFFER
    }

    constructor ()
      ensures Valid() && fresh(buffer) && fresh(buffer.data) && buffer.pieces == []
    {
      buffer := new FixedBuffer(SMALL_BUFFER);
    }

    /** `formatInteger`: the numeral whole, or nothing when fewer than 32 bytes are left. */
    method FormatInteger(v: int)
      requires Valid() && INT64_MIN <= v <= UINT64_MAX
      modifies buffer, buffer.data
      ensures Valid() && buffer.cur < 4000
      ensures buffer.pieces == if old(buffer.Avail()) >= 32 then old(buffer.pieces) + [Numeral(v)] else old(buffer.pieces)
      ensures buffer.data[..buffer.cur] == Flatten(buffer.pieces)
    {
      if buffer.Avail() >= MAX_NUMERIC_SIZE {
        ghost var before := buffer.data[..buffer.cur];
        var len := Convert(buffer.data, buffer.cur, v);
        assert buffer.data[..buffer.cur] == before;
        buffer.Add(len, Numeral(v));
      }
    }

    method AppendText(text: seq<Byte>)
      requires Valid() && CopyStaysInside(buffer.Avail(), |text|)
      modifies buffer, buffer.data
      ensures Valid() && buffer.cur < 4000
      ensures buffer.pieces == if old(buffer.Avail()) > CastInt(|text|) then old(buffer.pieces) + [text] else old(buffer.pieces)
      ensures buffer.data[..buffer.cur] == Flatten(buffer.pieces)
    {
      buffer.Append(text);
    }
  }
}
