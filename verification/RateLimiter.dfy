/** The Redis client's sliding-window call and the limiter in front of it, updating the
    key space command by command. */
module RateLimiter {
  import opened Common
  import opened RateLimiterSpec

  /** Redis as the script sees it. A key without members does not exist. */
  class Redis {
    var logs: map<string, Log>

    constructor ()
      ensures logs == map[]
    {
      logs := map[];
    }

    function At(key: string): Log
      reads this
    {
      if key in logs then logs[key] else EMPTY
    }

    method Expire(key: string)
      modifies this
      ensures logs == old(logs) - {key}
    {
      logs := logs - {key};
    }

    method ZRemRangeByScore(key: string, max: int)
      modifies this
      ensures var kept := Pruned(old(At(key)).entries, max);
              At(key) == Log(kept, if kept == map[] then None else old(At(key)).deadline)
      ensures forall k | k != key :: At(k) == old(At(k))
    {
      var kept := Pruned(At(key).entries, max);
      if kept == map[] {
        logs := logs - {key};
      } else {
        logs := logs[key := Log(kept, At(key).deadline)];
      }
    }

    method ZCard(key: string) returns (n: nat)
      ensures n == |At(key).entries|
    {
      n := |At(key).entries|;
    }

    method ZAdd(key: string, score: int, member: string)
      modifies this
      ensures At(key) == Log(old(At(key)).entries[member := score], old(At(key)).deadline)
      ensures forall k | k != key :: At(k) == old(At(k))
    {
      logs := logs[key := Log(At(key).entries[member := score], At(key).deadline)];
    }

    method PExpire(key: string, server: int, ms: int)
      modifies this
      ensures At(key) == old(At(key)).(deadline := Some(server + ms))
      ensures forall k | k != key :: At(k) == old(At(k))
    {
      logs := logs[key := At(key).(deadline := Some(server + ms))];
    }
  }

  class RedisClient {
    const redis: Redis
    var connected: bool

    constructor (redis: Redis, connected: bool)
      ensures this.redis == redis && this.connected == connected
    {
      this.redis, this.connected := redis, connected;
    }

    /** The script, one command after the other. */
    method Eval(key: string, now: int, server: int, window: int, limit: int, member: string) returns (reply: int)
      modifies redis
      ensures var (log, ok) := Script(old(redis.At(key)), now, server, window, limit, member);
              redis.At(key) == log && reply == if ok then 1 else 0
      ensures forall k | k != key :: redis.At(k) == old(redis.At(k))
    {
      var windowStart := now - window;
      redis.ZRemRangeByScore(key, windowStart);
      var count := redis.ZCard(key);
      if count >= limit {
        return 0;
      }
      redis.ZAdd(key, now, member);
      redis.PExpire(key, server, window);
      return 1;
    }

    /** Lets everything through when Redis is not connected or an argument is empty or not
        positive; refuses when no integer reply arrives. */
    method SlidingWindowAllow(key: string, now: int, window: int, limit: int, member: string, server: int, reply: Reply)
      returns (allowed: bool)
      modifies redis
      ensures !connected || limit <= 0 || window <= 0 || key == "" || member == "" ==> allowed && redis.logs == old(redis.logs)
      ensures connected && limit > 0 && window > 0 && key != "" && member != "" ==>
                if reply == NotRun then !allowed && redis.logs == old(redis.logs)
                else var (log, ok) := Script(old(redis.At(key)), now, server, window, limit, member);
                     redis.At(key) == log && (allowed <==> ok && reply == Delivered)
      ensures forall k | k != key :: redis.At(k) == old(redis.At(k))
    {
      if !connected || limit <= 0 || window <= 0 || key == "" || member == "" {
        return true;
      }
      allowed := false;
      if reply != NotRun {
        var answer := Eval(key, now, server, window, limit, member);
        if reply == Delivered {
          allowed := answer == 1;
        }
      }
    }
  }

  const WINDOW_MS := 60 * 1000

  lemma StepLogs(q: State, r: Request, window: int, limit: int)
    ensures forall k: string ::
              Of(Step(q, r, window, limit), k).log
              == if k == Key(r.ip) && r.reply != NotRun then Decided(q, r, window, limit).0 else Of(q, k).log
  { }

  class RateLimiter {
    const client: RedisClient?
    const limit: int
    var counter: nat
    ghost var model: State

    /** The logs in Redis are those of the modelled run. */
    ghost predicate Valid()
      reads this, client, if client == null then {} else {client.redis}
    {
      client != null ==> counter == model.counter && forall key: string :: client.redis.At(key) == Of(model, key).log
    }

    constructor (client: RedisClient?, limit: int)
      requires client != null ==> client.redis.logs == map[]
      ensures this.client == client && this.limit == limit
      ensures Valid() && model == State(0, 0, 0, map[])
    {
      this.client, this.limit, counter := client, limit, 0;
      model := State(0, 0, 0, map[]);
    }

    /** Main result for one call: it is let through unchecked, or it makes exactly the
        step the window bound is proved about. */
    method Allow(r: Request) returns (allowed: bool)
      requires Valid()
      modifies this`counter, this`model
      modifies if client == null then {} else {client.redis}
      ensures Valid()
      ensures limit <= 0 || r.ip == "" || client == null || !client.connected ==>
                allowed && model == old(model) && (client != null ==> client.redis.logs == old(client.redis.logs))
      ensures limit > 0 && r.ip != "" && client != null && client.connected ==>
                && model == Step(old(model), r, WINDOW_MS, limit)
                && (allowed <==> Decided(old(model), r, WINDOW_MS, limit).1 && r.reply == Delivered)
    {
      if limit <= 0 || r.ip == "" {
        return true;
      }
      if client == null || !client.connected {
        return true;
      }
      ghost var q := model;
      var member := Member(r.now, counter);
      counter := counter + 1;
      var key := Key(r.ip);
      if r.expired && r.reply != NotRun {
        client.redis.Expire(key);
      }
      allowed := client.SlidingWindowAllow(key, r.now, WINDOW_MS, limit, member, r.server, r.reply);
      StepLogs(q, r, WINDOW_MS, limit);
      model := Step(model, r, WINDOW_MS, limit);
    }
  }
}
