/**
 * The fixed-window limiter: one Valkey counter per key, INCR to count, EXPIRE to end the window,
 * TTL to tell a denied caller how long to wait. Times are milliseconds.
 */
module FixedWindow {
  import opened Prelude

  const SECOND := 1000

  // ----- Valkey's view of one key -----

  datatype Counter = Counter(n: nat, deadline: Option<int>)

  /** A key with a deadline is gone as soon as the clock is past it. */
  function Alive(c: Option<Counter>, now: int): Option<Counter> {
    if c.Some? && c.value.deadline.Some? && now > c.value.deadline.value then None else c
  }

  function Incr(c: Option<Counter>, now: int): Counter {
    match Alive(c, now)
    case None => Counter(1, None)
    case Some(k) => k.(n := k.n + 1)
  }

  function Expire(c: Option<Counter>, now: int, window: int): Option<Counter> {
    match Alive(c, now)
    case None => None
    case Some(k) => Some(k.(deadline := Some(now + window)))
  }

  /** Remaining time rounded to the nearest second; negative without key or deadline. */
  function Ttl(c: Option<Counter>, now: int): int {
    match Alive(c, now)
    case None => -2
    case Some(k) => if k.deadline.None? then -1 else (k.deadline.value - now + 500) / SECOND * SECOND
  }

  // ----- One call of Allow -----

  /** A command is executed and answered, executed without its reply arriving, or never executed. */
  datatype Outcome = Delivered | ReplyLost | NotSent

  /** When the three commands of a call reach Valkey and how they fare. */
  datatype Io = Io(incrAt: int, expireAt: int, ttlAt: int, incr: Outcome, expire: Outcome, ttl: Outcome)

  ghost predicate Ordered(io: Io) {
    io.incrAt <= io.expireAt <= io.ttlAt
  }

  datatype Verdict = Verdict(counter: Option<Counter>, ok: bool, retryAfter: int)

  function Allow(c: Option<Counter>, limit: int, window: int, io: Io): Verdict {
    if io.incr.NotSent? then Verdict(c, false, SECOND)
    else
      var c1 := Incr(c, io.incrAt);
      if io.incr.ReplyLost? then Verdict(Some(c1), false, SECOND)
      else
        var c2 := if c1.n == 1 && !io.expire.NotSent? then Expire(Some(c1), io.expireAt, window) else Some(c1);
        if c1.n > limit then
          var ttl := Ttl(c2, io.ttlAt);
          Verdict(c2, false, if !io.ttl.Delivered? || ttl < 0 then window else ttl)
        else Verdict(c2, true, 0)
  }

  /** The Retry-After header, in seconds, of a handler that denies. */
  function RetrySeconds(retryAfter: int): int {
    retryAfter / SECOND + 1
  }

  function CounterOf(counters: map<string, Counter>, key: string): Option<Counter> {
    if key in counters then Some(counters[key]) else None
  }

  function PutCounter(counters: map<string, Counter>, key: string, c: Option<Counter>): map<string, Counter> {
    if c.Some? then counters[key := c.value] else counters - {key}
  }

  // ----- The answer and the counter it leaves -----

  /** The count an INCR at the given time answers: one more than a live counter's, else 1. */
  function CountAt(c: Option<Counter>, now: int): nat {
    if c.None? || (c.value.deadline.Some? && now > c.value.deadline.value) then 1 else c.value.n + 1
  }

  /** Allowed exactly when the INCR is answered with at most the limit; then nobody need wait. */
  lemma AllowAnswer(c: Option<Counter>, limit: int, window: int, io: Io)
    ensures Allow(c, limit, window, io).ok <==> io.incr.Delivered? && CountAt(c, io.incrAt) <= limit
    ensures Allow(c, limit, window, io).ok ==> Allow(c, limit, window, io).retryAfter == 0
  {
  }

  /**
   * The counter afterwards: as it was if the INCR never ran; else the count, with the deadline it had,
   * or, new, with the one its EXPIRE gave it.
   */
  lemma AllowCounter(c: Option<Counter>, limit: int, window: int, io: Io)
    requires window >= 0 && Ordered(io) && (c.Some? ==> c.value.n >= 1)
    ensures io.incr.NotSent? ==> Allow(c, limit, window, io).counter == c
    ensures !io.incr.NotSent? ==>
      var n, after := CountAt(c, io.incrAt), Allow(c, limit, window, io).counter;
      && after.Some? && after.value.n == n
      && after.value.deadline == if n > 1 then c.value.deadline
                                 else if io.incr.Delivered? && !io.expire.NotSent? then Some(io.expireAt + window)
                                 else None
  {
  }

  /**
   * How long a denied caller is told to wait: a second if the INCR was not answered; the time left to
   * the deadline, give or take half a second, if TTL is answered before it; else the whole window.
   */
  lemma RetryAnswer(c: Option<Counter>, limit: int, window: int, io: Io)
    requires !Allow(c, limit, window, io).ok && (c.Some? ==> c.value.n >= 1)
    ensures var v := Allow(c, limit, window, io);
      if !io.incr.Delivered? then v.retryAfter == 1000
      else
        && v.counter.Some?
        && (if io.ttl.Delivered? && v.counter.value.deadline.Some? && io.ttlAt <= v.counter.value.deadline.value
            then var left := v.counter.value.deadline.value - io.ttlAt;
                 0 <= v.retryAfter && left - 500 <= v.retryAfter <= left + 500
            else v.retryAfter == window)
  {
  }

  /** The header advertises more than that, by at most a second. */
  lemma RetryHeader(retryAfter: int)
    ensures retryAfter < 1000 * RetrySeconds(retryAfter) <= retryAfter + 1000
  {
  }

  // ----- Progress -----

  /** Nobody else uses the key: the counter only sees these calls, one after the other. */
  function CallAll(c: Option<Counter>, limit: int, window: int, calls: seq<Io>): (r: seq<Verdict>)
    ensures |r| == |calls|
    decreases |calls|
  {
    if calls == [] then []
    else
      var v := Allow(c, limit, window, calls[0]);
      [v] + CallAll(v.counter, limit, window, calls[1..])
  }

  /**
   * A caller denied by the count who waits the advertised number of seconds is allowed by the next
   * answered call exactly when the counter had a deadline before, that is when the EXPIRE of its
   * first caller had taken effect. TTL may have rounded, failed, or come after the key was gone.
   */
  lemma WaitingSuffices(c: Option<Counter>, limit: int, window: int, first: Io, second: Io)
    requires limit >= 1 && window >= 0 && Ordered(first)
    requires c.Some? ==> c.value.n >= 1
    requires c.Some? && c.value.deadline.Some? ==> c.value.deadline.value <= first.incrAt + window
    requires first.incr.Delivered? && second.incr.Delivered?
    requires !Allow(c, limit, window, first).ok
    requires second.incrAt >= first.ttlAt + SECOND * RetrySeconds(Allow(c, limit, window, first).retryAfter)
    ensures Allow(Allow(c, limit, window, first).counter, limit, window, second).ok
        <==> c.Some? && c.value.deadline.Some?
  {
    var v := Allow(c, limit, window, first);
    assert v.counter.Some? && v.counter.value.n > limit;
    if v.counter.value.deadline.Some? {
      var d := v.counter.value.deadline.value;
      var left := d - first.ttlAt;
      assert left <= window;
      assert SECOND * RetrySeconds(window) > window;
      assert left >= 0 ==> SECOND * RetrySeconds((left + 500) / SECOND * SECOND) > left;
      assert second.incrAt > d;
    }
  }

  /** A full counter that never got a deadline denies every later call, for ever. */
  lemma {:induction false} WithoutExpireDeniedForEver(c: Option<Counter>, limit: int, window: int, calls: seq<Io>)
    requires limit >= 1 && c.Some? && c.value.n >= limit && c.value.deadline.None?
    ensures forall i :: 0 <= i < |calls| ==> !CallAll(c, limit, window, calls)[i].ok
    decreases |calls|
  {
    if calls == [] {
    } else {
      var v := Allow(c, limit, window, calls[0]);
      WithoutExpireDeniedForEver(v.counter, limit, window, calls[1..]);
    }
  }
}
