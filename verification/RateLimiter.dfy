/** The per-device rate limiter: a counter per device and minute of the hour, kept in Redis for a
    minute after its last increment. */
module RateLimiter {
  import opened Numerals
  import opened Wrappers
  import Redis

  const MINUTE := 60_000

  function MinuteOf(now: nat): nat {
    now / MINUTE
  }

  /** The key of a device in an absolute minute: it only holds the minute of the hour. */
  function Key(device: string, minute: nat): string {
    device + ":" + Decimal(minute % 60)
  }

  /** One call of Allow at a fixed time: the verdict and the new database. A failed read, a stored
      value that is no number and a failed increment all let the message pass. */
  function Decision(limit: int, db: Redis.Db, now: nat, device: string, read: Redis.Fault, write: Redis.Fault)
    : (bool, Redis.Db)
  {
    var key := Key(device, MinuteOf(now));
    if !read.NoFault? then (true, db)
    else
      var current := match Redis.Found(db, key, now)
        case Value(Number(n)) => Some(n)
        case Value(Text) => None
        case _ => Some(0);
      if current.None? then (true, db)
      else if current.value >= limit then (false, db)
      else (true, if write.Refused? then db else Redis.Incremented(db, key, now, MINUTE))
  }

  class Limiter {
    const redis: Redis.Client
    const rpmLimit: int

    constructor (redis: Redis.Client, limit: int)
      ensures this.redis == redis && this.rpmLimit == limit
    {
      this.redis := redis;
      this.rpmLimit := limit;
    }

    /** `read` and `write` tell the fate of the two requests to Redis. */
    method Allow(now: nat, device: string, read: Redis.Fault, write: Redis.Fault) returns (allowed: bool)
      modifies redis
      ensures (allowed, redis.db) == Decision(rpmLimit, old(redis.db), now, device, read, write)
    {
      var deviceKey := Key(device, MinuteOf(now));
      var reply := redis.Get(deviceKey, now, read);
      if reply == Redis.Error {
        return true;
      }
      var current := 0;
      if reply.Value? {
        if reply.value == Redis.Text {
          return true;
        }
        current := reply.value.n;
      }
      if current >= rpmLimit {
        return false;
      }
      var ok := redis.IncrExpire(deviceKey, now, MINUTE, write);
      allowed := true;
    }
  }

  // ---------- Keys ----------

  /** The last colon of a key is where the number begins. */
  lemma NumberBegins(d1: string, n1: string, d2: string, n2: string)
    requires d1 + ":" + n1 == d2 + ":" + n2
    requires forall i | 0 <= i < |n2| :: IsDigit(n2[i])
    ensures |d1| <= |d2|
  {
    var s := d1 + ":" + n1;
    forall i | |d2| < i < |s| ensures IsDigit(s[i]) {
      assert s[i] == n2[i - |d2| - 1];
    }
    assert s[|d1|] == ':' && !IsDigit(':');
  }

  /** Two keys agree only for the same device and the same minute of the hour. */
  lemma KeyInjective(d1: string, m1: nat, d2: string, m2: nat)
    requires Key(d1, m1) == Key(d2, m2)
    ensures d1 == d2 && m1 % 60 == m2 % 60
  {
    var n1, n2 := Decimal(m1 % 60), Decimal(m2 % 60);
    NumberBegins(d1, n1, d2, n2);
    NumberBegins(d2, n2, d1, n1);
    var s := Key(d1, m1);
    assert d1 == s[..|d1|] == d2;
    assert n1 == s[|d1| + 1..] == n2;
    DecimalInjective(m1 % 60, m2 % 60);
  }

  /** The key as it is printed, from a time in milliseconds. */
  lemma KeyAsPrinted(device: string, now: nat)
    ensures Key(device, MinuteOf(now)) == device + ":" + Decimal(now / 60_000 % 60)
  {
  }

  /** Whatever fails, the message passes: only a number read from Redis can stop it. */
  lemma OnlyTheCounterBlocks(limit: int, db: Redis.Db, now: nat, device: string, read: Redis.Fault, write: Redis.Fault)
    ensures Decision(limit, db, now, device, read, write).0
       <==> (read != Redis.NoFault
             || match Redis.Found(db, Key(device, MinuteOf(now)), now)
                case Value(Number(n)) => n < limit
                case Value(Text) => true
                case _ => 0 < limit)
    ensures read != Redis.NoFault || write == Redis.Refused || !Decision(limit, db, now, device, read, write).0 ==>
      Decision(limit, db, now, device, read, write).1 == db
  {
  }

  /** The counter set by an increment is readable for exactly sixty seconds. */
  lemma CounterLivesAMinute(db: Redis.Db, key: string, at: nat, now: nat)
    ensures Redis.Live(Redis.Incremented(db, key, at, MINUTE), key, now) <==> now < at + 60_000
  {
  }

  // ---------- What a key reads later ----------

  /** The number a live key holds, and zero otherwise. */
  function Reading(db: Redis.Db, key: string, now: nat): int {
    match Redis.Found(db, key, now)
    case Value(Number(n)) => n
    case _ => 0
  }

  ghost predicate Numeric(db: Redis.Db) {
    forall key | key in db :: db[key].value.Number?
  }

  /** From time `since` on, reading a device's key gives the tally of the minute it is read in. */
  ghost predicate Tracks(db: Redis.Db, since: nat, tally: (string, nat) -> nat) {
    && Numeric(db)
    && forall device, now: nat | now >= since ::
         Reading(db, Key(device, MinuteOf(now)), now) == tally(device, MinuteOf(now))
  }

  /** Incrementing and re-expiring at time `at` counts one more for that device and minute, and
      disturbs no other reading: the expiry outlives the minute and ends before the key comes up
      again an hour later. */
  lemma IncrementTracks(db: Redis.Db, since: nat, at: nat, device: string,
                        tally: (string, nat) -> nat, tally': (string, nat) -> nat)
    requires Tracks(db, since, tally) && since <= at
    requires forall d, m :: tally'(d, m) == tally(d, m) + if d == device && m == MinuteOf(at) then 1 else 0
    requires forall d, m | m > MinuteOf(at) :: tally'(d, m) == 0
    ensures Tracks(Redis.Incremented(db, Key(device, MinuteOf(at)), at, MINUTE), at, tally')
  {
    var key := Key(device, MinuteOf(at));
    var db' := Redis.Incremented(db, key, at, MINUTE);
    forall d, now: nat | now >= at
      ensures Reading(db', Key(d, MinuteOf(now)), now) == tally'(d, MinuteOf(now))
    {
      var m := MinuteOf(now);
      assert Reading(db, Key(d, m), now) == tally(d, m);
      if Key(d, m) == key {
        KeyInjective(d, m, device, MinuteOf(at));
        if m == MinuteOf(at) {
          assert Reading(db, key, at) == tally(device, m);
        } else {
          assert m >= MinuteOf(at) + 60;
        }
      }
    }
  }

  // ---------- Runs of calls without faults ----------

  datatype Call = Call(at: nat, device: string)

  ghost predicate Ordered(calls: seq<Call>) {
    forall i, j | 0 <= i < j < |calls| :: calls[i].at <= calls[j].at
  }

  function DbAfter(limit: int, calls: seq<Call>): Redis.Db {
    if calls == [] then map[]
    else
      var last := calls[|calls| - 1];
      Decision(limit, DbAfter(limit, calls[..|calls| - 1]), last.at, last.device, Redis.NoFault, Redis.NoFault).1
  }

  /** The verdict on the last of some calls. */
  predicate Verdict(limit: int, calls: seq<Call>)
    requires calls != []
  {
    var last := calls[|calls| - 1];
    Decision(limit, DbAfter(limit, calls[..|calls| - 1]), last.at, last.device, Redis.NoFault, Redis.NoFault).0
  }

  function Asked(calls: seq<Call>, device: string, minute: nat): nat {
    if calls == [] then 0
    else
      var last := calls[|calls| - 1];
      Asked(calls[..|calls| - 1], device, minute)
      + if last.device == device && MinuteOf(last.at) == minute then 1 else 0
  }

  function Granted(limit: int, calls: seq<Call>, device: string, minute: nat): nat {
    if calls == [] then 0
    else
      var last := calls[|calls| - 1];
      Granted(limit, calls[..|calls| - 1], device, minute)
      + if last.device == device && MinuteOf(last.at) == minute && Verdict(limit, calls) then 1 else 0
  }

  function GrantedTally(limit: int, calls: seq<Call>): (string, nat) -> nat {
    (device, minute) => Granted(limit, calls, device, minute)
  }

  function LastTime(calls: seq<Call>): nat {
    if calls == [] then 0 else calls[|calls| - 1].at
  }

  lemma {:induction false} NothingInTheFuture(limit: int, calls: seq<Call>, device: string, minute: nat)
    requires Ordered(calls) && (calls != [] ==> minute > MinuteOf(LastTime(calls)))
    ensures Granted(limit, calls, device, minute) == 0
  {
    if calls != [] {
      var before := calls[..|calls| - 1];
      assert before != [] ==> LastTime(before) <= LastTime(calls);
      NothingInTheFuture(limit, before, device, minute);
    }
  }

  /** After any ordered run, a key reads the number of calls granted in the minute it is read in. */
  lemma {:induction false} RunTracks(limit: int, calls: seq<Call>)
    requires Ordered(calls)
    ensures Tracks(DbAfter(limit, calls), LastTime(calls), GrantedTally(limit, calls))
  {
    if calls != [] {
      var before, last := calls[..|calls| - 1], calls[|calls| - 1];
      RunTracks(limit, before);
      var db := DbAfter(limit, before);
      assert LastTime(before) <= last.at;
      assert Tracks(db, last.at, GrantedTally(limit, before));
      assert Reading(db, Key(last.device, MinuteOf(last.at)), last.at)
          == GrantedTally(limit, before)(last.device, MinuteOf(last.at));
      if Verdict(limit, calls) {
        forall d, m: nat | m > MinuteOf(last.at) ensures GrantedTally(limit, calls)(d, m) == 0 {
          NothingInTheFuture(limit, calls, d, m);
        }
        IncrementTracks(db, last.at, last.at, last.device, GrantedTally(limit, before), GrantedTally(limit, calls));
      }
    }
  }

  function Cap(limit: int): nat {
    if limit > 0 then limit else 0
  }

  /** A call is granted exactly while its device has been granted less than the limit in its minute. */
  lemma GrantedBelowLimit(limit: int, calls: seq<Call>)
    requires Ordered(calls) && calls != []
    ensures var before, last := calls[..|calls| - 1], calls[|calls| - 1];
      Verdict(limit, calls) <==> Granted(limit, before, last.device, MinuteOf(last.at)) < limit
  {
    var before, last := calls[..|calls| - 1], calls[|calls| - 1];
    RunTracks(limit, before);
    assert LastTime(before) <= last.at;
    assert Reading(DbAfter(limit, before), Key(last.device, MinuteOf(last.at)), last.at)
        == GrantedTally(limit, before)(last.device, MinuteOf(last.at));
  }

  /** A device that asks k times in an absolute minute is granted exactly min(k, limit). */
  lemma {:induction false} ExactlyTheLimit(limit: int, calls: seq<Call>, device: string, minute: nat)
    requires Ordered(calls)
    ensures Granted(limit, calls, device, minute) == Min(Asked(calls, device, minute), Cap(limit))
  {
    if calls != [] {
      ExactlyTheLimit(limit, calls[..|calls| - 1], device, minute);
      GrantedBelowLimit(limit, calls);
    }
  }

  // ---------- Any sixty seconds ----------

  predicate Within(at: nat, start: nat) {
    start <= at < start + MINUTE
  }

  function GrantedWithin(limit: int, calls: seq<Call>, device: string, start: nat): nat {
    if calls == [] then 0
    else
      var last := calls[|calls| - 1];
      GrantedWithin(limit, calls[..|calls| - 1], device, start)
      + if last.device == device && Within(last.at, start) && Verdict(limit, calls) then 1 else 0
  }

  lemma {:induction false} SpanInTwoMinutes(limit: int, calls: seq<Call>, device: string, start: nat)
    ensures GrantedWithin(limit, calls, device, start)
         <= Granted(limit, calls, device, MinuteOf(start)) + Granted(limit, calls, device, MinuteOf(start) + 1)
    ensures (forall c | c in calls :: Within(c.at, start)) ==>
         GrantedWithin(limit, calls, device, start)
         == Granted(limit, calls, device, MinuteOf(start)) + Granted(limit, calls, device, MinuteOf(start) + 1)
  {
    if calls != [] {
      SpanInTwoMinutes(limit, calls[..|calls| - 1], device, start);
      assert calls[|calls| - 1] in calls;
    }
  }

  /** Any sixty seconds see at most twice the limit. */
  lemma AtMostTwiceTheLimit(limit: int, calls: seq<Call>, device: string, start: nat)
    requires Ordered(calls)
    ensures GrantedWithin(limit, calls, device, start) <= 2 * Cap(limit)
  {
    SpanInTwoMinutes(limit, calls, device, start);
    ExactlyTheLimit(limit, calls, device, MinuteOf(start));
    ExactlyTheLimit(limit, calls, device, MinuteOf(start) + 1);
  }

  function Repeat(n: nat, call: Call): seq<Call> {
    seq(n, _ => call)
  }

  lemma {:induction false} AskedOfRepeat(calls: seq<Call>, n: nat, call: Call, device: string, minute: nat)
    ensures Asked(calls + Repeat(n, call), device, minute)
         == Asked(calls, device, minute) + if call.device == device && MinuteOf(call.at) == minute then n else 0
  {
    if n == 0 {
      assert calls + Repeat(0, call) == calls;
    } else {
      var all := calls + Repeat(n, call);
      assert all[..|all| - 1] == calls + Repeat(n - 1, call);
      AskedOfRepeat(calls, n - 1, call, device, minute);
    }
  }

  /** One burst in the last millisecond of a minute, and one in the first of the next. */
  function TwoBursts(limit: nat, device: string, minute: nat): seq<Call> {
    Repeat(limit, Call((minute + 1) * MINUTE - 1, device)) + Repeat(limit, Call((minute + 1) * MINUTE, device))
  }

  lemma AskedOfTwoBursts(limit: nat, device: string, minute: nat)
    ensures Asked(TwoBursts(limit, device, minute), device, minute) == limit
    ensures Asked(TwoBursts(limit, device, minute), device, minute + 1) == limit
  {
    var early, late := Call((minute + 1) * MINUTE - 1, device), Call((minute + 1) * MINUTE, device);
    assert [] + Repeat(limit, early) == Repeat(limit, early);
    forall m | m == minute || m == minute + 1 ensures Asked(TwoBursts(limit, device, minute), device, m) == limit {
      AskedOfRepeat([], limit, early, device, m);
      AskedOfRepeat(Repeat(limit, early), limit, late, device, m);
    }
  }

  /** Twice the limit passes in every sixty seconds that do not begin with a minute. */
  lemma TwiceTheLimitHappens(limit: nat, device: string, start: nat)
    requires start % MINUTE != 0
    ensures var calls := TwoBursts(limit, device, MinuteOf(start));
      Ordered(calls) && GrantedWithin(limit, calls, device, start) == 2 * limit
  {
    var minute := MinuteOf(start);
    var calls := TwoBursts(limit, device, minute);
    AskedOfTwoBursts(limit, device, minute);
    ExactlyTheLimit(limit, calls, device, minute);
    ExactlyTheLimit(limit, calls, device, minute + 1);
    SpanInTwoMinutes(limit, calls, device, start);
  }

  lemma {:induction false} SpanInOneMinute(limit: int, calls: seq<Call>, device: string, start: nat)
    requires start % MINUTE == 0
    ensures GrantedWithin(limit, calls, device, start) == Granted(limit, calls, device, MinuteOf(start))
  {
    if calls != [] {
      SpanInOneMinute(limit, calls[..|calls| - 1], device, start);
    }
  }

  /** The limit holds for these sixty seconds: no run exceeds it. */
  ghost predicate LimitHolds(limit: int, device: string, start: nat) {
    forall calls | Ordered(calls) :: GrantedWithin(limit, calls, device, start) <= Cap(limit)
  }

  /** The limit is one for minutes of the clock: of the spans of sixty seconds it holds for exactly
      those that begin with a minute, unless nothing is ever granted. */
  lemma LimitHoldsIff(limit: int, device: string, start: nat)
    ensures LimitHolds(limit, device, start) <==> limit <= 0 || start % MINUTE == 0
  {
    if limit <= 0 || start % MINUTE == 0 {
      forall calls | Ordered(calls) ensures GrantedWithin(limit, calls, device, start) <= Cap(limit) {
        if start % MINUTE == 0 {
          SpanInOneMinute(limit, calls, device, start);
          ExactlyTheLimit(limit, calls, device, MinuteOf(start));
        } else {
          AtMostTwiceTheLimit(limit, calls, device, start);
        }
      }
    } else {
      TwiceTheLimitHappens(limit, device, start);
      assert Ordered(TwoBursts(limit, device, MinuteOf(start)));
    }
  }
}
