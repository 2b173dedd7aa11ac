/** The limiter as the server holds it: an object over a shared Valkey client. */
module RateLimit {
  import opened Prelude
  import opened FixedWindow

  class Valkey {
    var counters: map<string, Counter>

    constructor ()
      ensures counters == map[]
    {
      counters := map[];
    }

    method Incr(key: string, now: int, outcome: Outcome) returns (reply: Option<nat>)
      modifies this
      ensures outcome.NotSent? ==> counters == old(counters)
      ensures !outcome.NotSent? ==>
        counters == old(counters)[key := FixedWindow.Incr(CounterOf(old(counters), key), now)]
      ensures reply == if outcome.Delivered? then Some(counters[key].n) else None
    {
      reply := None;
      if !outcome.NotSent? {
        var c := FixedWindow.Incr(CounterOf(counters, key), now);
        counters := counters[key := c];
        if outcome.Delivered? { reply := Some(c.n); }
      }
    }

    method Expire(key: string, now: int, window: int, outcome: Outcome)
      modifies this
      ensures outcome.NotSent? ==> counters == old(counters)
      ensures !outcome.NotSent? ==>
        counters == PutCounter(old(counters), key, FixedWindow.Expire(CounterOf(old(counters), key), now, window))
    {
      if !outcome.NotSent? {
        counters := PutCounter(counters, key, FixedWindow.Expire(CounterOf(counters, key), now, window));
      }
    }

    method TTL(key: string, now: int, outcome: Outcome) returns (reply: Option<int>)
      ensures reply == if outcome.Delivered? then Some(Ttl(CounterOf(counters, key), now)) else None
    {
      reply := if outcome.Delivered? then Some(Ttl(CounterOf(counters, key), now)) else None;
    }
  }

  class Limiter {
    const rdb: Valkey

    constructor (rdb: Valkey)
      ensures this.rdb == rdb
    {
      this.rdb := rdb;
    }

    /** The verdict and the key's counter are Allow's; no other key is touched. */
    method Allow(key: string, limit: int, window: int, io: Io) returns (ok: bool, retryAfter: int)
      modifies rdb
      ensures var v := FixedWindow.Allow(CounterOf(old(rdb.counters), "rl:" + key), limit, window, io);
        && ok == v.ok && retryAfter == v.retryAfter
        && rdb.counters == PutCounter(old(rdb.counters), "rl:" + key, v.counter)
    {
      var rk := "rl:" + key;
      var n := rdb.Incr(rk, io.incrAt, io.incr);
      if n.None? {
        return false, SECOND;
      }
      if n.value == 1 {
        rdb.Expire(rk, io.expireAt, window, io.expire);
      }
      if n.value > limit {
        var ttl := rdb.TTL(rk, io.ttlAt, io.ttl);
        if ttl.None? || ttl.value < 0 {
          return false, window;
        }
        return false, ttl.value;
      }
      return true, 0;
    }
  }
}
