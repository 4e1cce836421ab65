/** The system log: newest entry first, bounded to the most recent 50 entries. */
module Trace {
  /** One log line; the timestamp prefix and the emoji text are not modelled. */
  datatype LogEntry =
    | AlreadyPrepared
    | LooperPrepared
    | NotPrepared
    | AlreadyLooping
    | LoopStarted
    | LoopStopped
    | SendingBlindly
    | ObtainedFromPool
    | PoolEmpty
    | FreshAllocation
    | Sent(what: int, delay: int)
    | Dispatched(what: int)
    | Recycled(what: int)

  const MaxEntries: nat := 50

  function Min(a: int, b: int): int { if a <= b then a else b }

  /** The first `n` elements of `s`, or all of them when there are fewer. */
  function Take<T>(s: seq<T>, n: nat): seq<T> { s[..Min(|s|, n)] }

  function Reversed<T>(s: seq<T>): seq<T> { if s == [] then [] else Reversed(s[1..]) + [s[0]] }

  /**
   * `addLog`: the new entry goes in front, earlier entries follow in their
   * order, and only the newest MaxEntries are kept.
   */
  function Record(log: seq<LogEntry>, e: LogEntry): (r: seq<LogEntry>)
    ensures |r| == Min(|log| + 1, MaxEntries)
    ensures r[0] == e
    ensures r[1..] == log[..|r| - 1]
  {
    ([e] + log)[..Min(|log| + 1, MaxEntries)]
  }

  /** Recording every entry of `es`, first to last. */
  function RecordAll(log: seq<LogEntry>, es: seq<LogEntry>): seq<LogEntry>
    decreases |es|
  {
    if es == [] then log else RecordAll(Record(log, es[0]), es[1..])
  }

  lemma TakeOfTake<T>(a: seq<T>, b: seq<T>, n: nat)
    ensures Take(a + Take(b, n), n) == Take(a + b, n)
  {
    var l, r := a + Take(b, n), a + b;
    assert |Take(l, n)| == |Take(r, n)|;
    forall i | 0 <= i < |Take(l, n)|
      ensures Take(l, n)[i] == Take(r, n)[i]
    {
      if i >= |a| { assert l[i] == b[i - |a|] == r[i]; }
    }
  }

  /**
   * After any run of records the log holds the newest MaxEntries of all
   * entries ever recorded, newest first: the oldest ones are the ones dropped.
   */
  lemma {:induction false} RecordAllNewestFirst(log: seq<LogEntry>, es: seq<LogEntry>)
    requires |log| <= MaxEntries
    ensures RecordAll(log, es) == Take(Reversed(es) + log, MaxEntries)
    decreases |es|
  {
    if es == [] {
      assert Reversed(es) + log == log;
    } else {
      var e, rest := es[0], es[1..];
      assert Record(log, e) == Take([e] + log, MaxEntries);
      RecordAllNewestFirst(Record(log, e), rest);
      TakeOfTake(Reversed(rest), [e] + log, MaxEntries);
      assert Reversed(es) + log == Reversed(rest) + ([e] + log);
    }
  }
}
