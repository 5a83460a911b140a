/** The log file and its short-write loop (LogFile.cc, LogFile.h). */
module LogFiles {
  import opened Bytes

  function Min(a: nat, b: nat): nat { if a < b then a else b }

  /** What the retry loop sends, given what each `fwrite` manages. The offset n never advances. */
  function Retried(line: seq<Byte>, n: nat, remain: nat, retries: seq<nat>): (out: seq<Byte>)
    requires n + remain <= |line|
    decreases |retries|
  {
    if remain == 0 || retries == [] || retries[0] == 0 then []
    else
      var tmp := Min(retries[0], remain);
      line[n..n + tmp] + Retried(line, n, remain - tmp, retries[1..])
  }

  function Sent(line: seq<Byte>, first: nat, retries: seq<nat>): seq<Byte>
    requires first <= |line|
  {
    line[..first] + Retried(line, first, |line| - first, retries)
  }

  /** The loop stops because nothing remains, not because a write made no progress. */
  predicate Completes(remain: nat, retries: seq<nat>)
    decreases |retries|
  {
    remain == 0 || (retries != [] && retries[0] != 0 && Completes(remain - Min(retries[0], remain), retries[1..]))
  }

  /** At most one retry is needed. */
  predicate OneRetryAtMost(len: nat, first: nat, retries: seq<nat>)
    requires first <= len
  {
    first == len || (retries != [] && retries[0] >= len - first)
  }

  lemma {:induction false} RetriedLength(line: seq<Byte>, n: nat, remain: nat, retries: seq<nat>)
    requires n + remain <= |line|
    ensures |Retried(line, n, remain, retries)| <= remain
    ensures |Retried(line, n, remain, retries)| == remain <==> Completes(remain, retries)
    decreases |retries|
  {
    if remain != 0 && retries != [] && retries[0] != 0 {
      RetriedLength(line, n, remain - Min(retries[0], remain), retries[1..]);
    }
  }

  /** A retry that writes nothing ends the loop, whatever would have come after it. */
  lemma {:induction false} NothingAfterZero(line: seq<Byte>, n: nat, remain: nat, before: seq<nat>, after: seq<nat>)
    requires n + remain <= |line|
    ensures Retried(line, n, remain, before + [0] + after) == Retried(line, n, remain, before)
    decreases |before|
  {
    var all := before + [0] + after;
    if before == [] {
      assert all[0] == 0;
    } else if remain != 0 && before[0] != 0 {
      assert all[0] == before[0] && all[1..] == before[1..] + [0] + after;
      NothingAfterZero(line, n, remain - Min(before[0], remain), before[1..], after);
    }
  }

  lemma WholeWithOneRetry(line: seq<Byte>, first: nat, retries: seq<nat>)
    requires first <= |line| && OneRetryAtMost(|line|, first, retries)
    ensures Sent(line, first, retries) == line
  {
    if first < |line| {
      assert Retried(line, first, 0, retries[1..]) == [];
      assert line == line[..first] + line[first..];
    }
  }

  /** A line that a second retry garbles: one byte stands out exactly where that retry starts. */
  lemma GarbledByTwoRetries(len: nat, first: nat, retries: seq<nat>) returns (line: seq<Byte>)
    requires first <= len && Completes(len - first, retries) && !OneRetryAtMost(len, first, retries)
    ensures |line| == len && Sent(line, first, retries) != line
  {
    var tmp := retries[0];
    line := seq(len, i => if i == first + tmp then 'b' else 'a');
    var left := len - first - tmp;
    assert Completes(left, retries[1..]) && left > 0;
    var again := Min(retries[1], left);
    assert Retried(line, first, left, retries[1..])[0] == line[first];
    assert Sent(line, first, retries)[first + tmp] == line[first];
  }

  /** The loop reports success for any number of retries, but lines of a given length are sure to
      arrive intact exactly when one retry is enough. */
  lemma IntactIffOneRetry(len: nat, first: nat, retries: seq<nat>)
    requires first <= len && Completes(len - first, retries)
    ensures forall line: seq<Byte> :: |line| == len ==> |Sent(line, first, retries)| == len
    ensures (forall line: seq<Byte> :: |line| == len ==> Sent(line, first, retries) == line)
       <==> OneRetryAtMost(len, first, retries)
  {
    forall line: seq<Byte> | |line| == len
      ensures |Sent(line, first, retries)| == len
      ensures OneRetryAtMost(len, first, retries) ==> Sent(line, first, retries) == line
    {
      RetriedLength(line, first, len - first, retries);
      if OneRetryAtMost(len, first, retries) {
        WholeWithOneRetry(line, first, retries);
      }
    }
    if !OneRetryAtMost(len, first, retries) {
      var line := GarbledByTwoRetries(len, first, retries);
    }
  }

  lemma RetriedEnds(line: seq<Byte>, n: nat, remain: nat, retries: seq<nat>)
    requires n + remain <= |line|
    ensures remain == 0 || retries == [] || retries[0] == 0 ==> Retried(line, n, remain, retries) == []
  {
  }

  /** One turn of the loop, after `done` has been written. */
  lemma RetriedTurn(done: seq<Byte>, line: seq<Byte>, n: nat, remain: nat, retries: seq<nat>, k: nat)
    requires k < |retries| && 0 < remain && n + remain <= |line| && retries[k] > 0
    ensures var tmp := Min(retries[k], remain);
      (done + line[n..n + tmp]) + Retried(line, n, remain - tmp, retries[k + 1..]) == done + Retried(line, n, remain, retries[k..])
  {
    assert retries[k..][0] == retries[k] && retries[k..][1..] == retries[k + 1..];
  }

  class LogFile {
    const flushEveryN: nat
    var bytes: seq<Byte>     // what stdio accepted
    var flushed: nat         // how much of it reached the kernel for certain
    var count: nat

    ghost predicate Valid()
      reads this
    {
      flushed <= |bytes| && (flushEveryN == 0 || count < flushEveryN)
    }

    constructor (flushEvery: nat := 1024)
      ensures Valid() && bytes == [] && flushEveryN == flushEvery
    {
      flushEveryN := flushEvery;
      bytes, flushed, count := [], 0, 0;
    }

    method Flush()
      requires Valid()
      modifies this
      ensures Valid() && bytes == old(bytes) && count == old(count) && flushed == |bytes|
    {
      flushed := |bytes|;
    }

    /** `FileUtil::append`. */
    method FileAppend(line: seq<Byte>, first: nat, retries: seq<nat>)
      requires first <= |line|
      modifies this`bytes
      ensures bytes == old(bytes) + Sent(line, first, retries)
    {
      hide Retried;
      var n := first;
      bytes := bytes + line[..n];
      var remain := |line| - n;
      var k := 0;
      assert retries[0..] == retries;
      assert old(bytes) + Sent(line, first, retries) == bytes + Retried(line, n, remain, retries);
      while remain > 0
        invariant k <= |retries| && 0 <= remain && n + remain <= |line|
        invariant bytes + Retried(line, n, remain, retries[k..]) == old(bytes) + Sent(line, first, retries)
      {
        var tmp := if k < |retries| then Min(retries[k], remain) else 0;
        if tmp == 0 {
          RetriedEnds(line, n, remain, retries[k..]);
          break;
        }
        RetriedTurn(bytes, line, n, remain, retries, k);
        bytes := bytes + line[n..n + tmp];
        remain := remain - tmp;
        k := k + 1;
      }
      RetriedEnds(line, n, remain, retries[k..]);
    }

    /** `append_unlocked`. */
    method Append(line: seq<Byte>, first: nat, retries: seq<nat>)
      requires Valid() && first <= |line|
      modifies this
      ensures Valid()
      ensures bytes == old(bytes) + Sent(line, first, retries)
      ensures if old(count) + 1 >= flushEveryN then count == 0 && flushed == |bytes|
              else count == old(count) + 1 && flushed == old(flushed)
    {
      FileAppend(line, first, retries);
      count := count + 1;
      if count >= flushEveryN {
        count := 0;
        Flush();
      }
    }
  }
}
