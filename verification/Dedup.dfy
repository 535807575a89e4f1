/** Duplicate detection: a key per device and message, set in Redis only if it is absent and
    remembered for a fixed time, for a deterministic sample of the devices of a game. */
module Dedup {
  import opened Fnv
  import opened Numerals
  import Redis

  const BAR: Byte := 0x7c

  /** The three writes of keyFor, printed in decimal. */
  function KeyFor(device: Bytes, msg: Bytes): string {
    Decimal(Fold(Fold(Hash(device), [BAR]), msg))
  }

  // ---------- Sampling ----------

  const SAMPLE_VALUES := 0x1_0000

  /** The top sixteen bits of the device's hash. */
  function SampleValue(device: Bytes): (v: nat)
    ensures v < SAMPLE_VALUES
  {
    Pow2Of64();
    assert Pow2(16) == SAMPLE_VALUES by { Pow2Byte(0); Pow2Byte(8); }
    ShiftBound(Hash(device), 48, 16);
    ShiftRight(Hash(device), 48)
  }

  /** Whether a percentage, which may be any configured integer, samples a value: zero samples none,
      a percentage strictly between zero and one hundred samples some, any other samples all. */
  predicate Sampled(percentage: int, value: nat) {
    if percentage == 0 then false
    else if 0 < percentage < 100 then !(value % 100 >= percentage)
    else true
  }

  function PercentageOf(games: map<string, int>, game: string): int {
    if game in games then games[game] else 0
  }

  predicate Checked(games: map<string, int>, device: Bytes, game: string) {
    Sampled(PercentageOf(games, game), SampleValue(device))
  }

  class Deduplicator {
    const redis: Redis.Client
    const ttl: int
    const gamePercentages: map<string, int>

    constructor (redis: Redis.Client, ttl: int, gamePercentages: map<string, int>)
      ensures this.redis == redis && this.ttl == ttl && this.gamePercentages == gamePercentages
    {
      this.redis, this.ttl, this.gamePercentages := redis, ttl, gamePercentages;
    }

    method IsUnique(now: nat, device: Bytes, msg: Bytes, game: string, fault: Redis.Fault) returns (unique: bool)
      modifies redis
      ensures (unique, redis.db) ==
        Decision(ttl, old(redis.db), now, KeyFor(device, msg), Checked(gamePercentages, device, game), fault)
    {
      var percentage := if game in gamePercentages then gamePercentages[game] else 0;
      if percentage == 0 {
        return true;
      }
      if percentage > 0 && percentage < 100 {
        var samplePercentile := SampleValue(device) % 100;
        if samplePercentile >= percentage {
          return true;
        }
      }
      var reply := redis.SetNx(KeyFor(device, msg), now, ttl, fault);
      if reply == Redis.Nil {
        return false;
      }
      unique := true;
    }
  }

  /** One call at a fixed time: the verdict and the new database. Failures let the message pass. */
  function Decision(ttl: int, db: Redis.Db, now: nat, key: string, sampled: bool, fault: Redis.Fault)
    : (bool, Redis.Db)
  {
    if !sampled || fault.Refused? then (true, db)
    else (!(fault.NoFault? && Redis.Live(db, key, now)), Redis.Claimed(db, key, now, ttl))
  }

  // ---------- The log the cache stands for ----------

  /** A call of IsUnique, as far as Redis is concerned. */
  datatype Call = Call(at: nat, key: string, sampled: bool)

  ghost predicate Ordered(calls: seq<Call>) {
    forall i, j | 0 <= i < j < |calls| :: calls[i].at <= calls[j].at
  }

  /** The database after the first n calls of a run without faults. */
  function DbAfter(ttl: int, calls: seq<Call>, n: nat): Redis.Db
    requires n <= |calls|
    decreases n, 0
  {
    if n == 0 then map[] else Outcome(ttl, calls, n - 1).1
  }

  function Outcome(ttl: int, calls: seq<Call>, i: nat): (bool, Redis.Db)
    requires i < |calls|
    decreases i, 1
  {
    var c := calls[i];
    Decision(ttl, DbAfter(ttl, calls, i), c.at, c.key, c.sampled, Redis.NoFault)
  }

  /** The verdict on call i. */
  predicate Unique(ttl: int, calls: seq<Call>, i: nat)
    requires i < |calls|
  {
    Outcome(ttl, calls, i).0
  }

  /** A sampled call that was found unique. */
  predicate Accepted(ttl: int, calls: seq<Call>, i: nat)
    requires i < |calls|
  {
    calls[i].sampled && Unique(ttl, calls, i)
  }

  /** An acceptance at `then` is remembered at `now`: for the ttl, or for ever without one. */
  predicate Remembered(ttl: int, accepted: nat, now: nat) {
    ttl <= 0 || now < accepted + ttl
  }

  predicate Blocks(ttl: int, calls: seq<Call>, j: nat, key: string, now: nat)
    requires j < |calls|
  {
    Accepted(ttl, calls, j) && calls[j].key == key && Remembered(ttl, calls[j].at, now)
  }

  /** One of the first n calls was accepted with this key and is still remembered. */
  ghost predicate Held(ttl: int, calls: seq<Call>, n: nat, key: string, now: nat)
    requires n <= |calls|
  {
    exists j: nat | j < n :: Blocks(ttl, calls, j, key, now)
  }

  lemma HeldByOneMore(ttl: int, calls: seq<Call>, n: nat, key: string, now: nat)
    requires n < |calls|
    ensures Held(ttl, calls, n + 1, key, now) <==> Held(ttl, calls, n, key, now) || Blocks(ttl, calls, n, key, now)
  {
    if j: nat :| j < n && Blocks(ttl, calls, j, key, now) {
      assert j < n + 1;
    }
  }

  /** Whatever is held now was held before, as time only forgets. */
  lemma HeldEarlier(ttl: int, calls: seq<Call>, n: nat, key: string, earlier: nat, now: nat)
    requires n <= |calls| && earlier <= now && Held(ttl, calls, n, key, now)
    ensures Held(ttl, calls, n, key, earlier)
  {
    var j: nat :| j < n && Blocks(ttl, calls, j, key, now);
    assert Blocks(ttl, calls, j, key, earlier);
  }

  /** From the last of n calls on, a key is live exactly while an accepted call with it is remembered. */
  lemma {:induction false} CacheAgreesWithLog(ttl: int, calls: seq<Call>, n: nat, key: string, now: nat)
    requires Ordered(calls) && n <= |calls| && (n > 0 ==> calls[n - 1].at <= now)
    ensures Redis.Live(DbAfter(ttl, calls, n), key, now) <==> Held(ttl, calls, n, key, now)
  {
    if n > 0 {
      var last := calls[n - 1];
      CacheAgreesWithLog(ttl, calls, n - 1, key, now);
      CacheAgreesWithLog(ttl, calls, n - 1, last.key, last.at);
      HeldByOneMore(ttl, calls, n - 1, key, now);
      if key == last.key && Held(ttl, calls, n - 1, key, now) {
        HeldEarlier(ttl, calls, n - 1, key, last.at, now);
      }
    }
  }

  /** A sampled message is unique exactly when no accepted call with the same key is still
      remembered; a call that is not sampled is always let through. */
  lemma UniqueIffForgotten(ttl: int, calls: seq<Call>, i: nat)
    requires Ordered(calls) && i < |calls|
    ensures calls[i].sampled ==>
      (Unique(ttl, calls, i) <==> !Held(ttl, calls, i, calls[i].key, calls[i].at))
    ensures !calls[i].sampled ==> Unique(ttl, calls, i)
  {
    CacheAgreesWithLog(ttl, calls, i, calls[i].key, calls[i].at);
  }

  /** Two acceptances of one key are at least the ttl apart: duplicates do not extend the window. */
  lemma AcceptancesAreApart(ttl: int, calls: seq<Call>, i: nat, j: nat)
    requires Ordered(calls) && j < i < |calls| && ttl > 0
    requires Accepted(ttl, calls, i) && Accepted(ttl, calls, j) && calls[i].key == calls[j].key
    ensures calls[j].at + ttl <= calls[i].at
  {
    UniqueIffForgotten(ttl, calls, i);
    if Blocks(ttl, calls, j, calls[i].key, calls[i].at) {
      assert Held(ttl, calls, i, calls[i].key, calls[i].at);
    }
  }

  // ---------- Keys ----------

  /** The key is the hash of device, bar and message joined, and keys differ when hashes do. */
  lemma KeyHashesTheJoin(device: Bytes, msg: Bytes)
    ensures KeyFor(device, msg) == Decimal(Hash(device + [0x7c] + msg))
  {
    FoldConcat(OFFSET_BASIS, device + [BAR], msg);
    FoldConcat(OFFSET_BASIS, device, [BAR]);
  }

  /** Two messages to a device that differ in one byte get different keys. */
  lemma OneByteChangesTheKey(device: Bytes, prefix: Bytes, a: Byte, b: Byte, suffix: Bytes)
    requires a != b
    ensures KeyFor(device, prefix + [a] + suffix) != KeyFor(device, prefix + [b] + suffix)
  {
    var front := device + [BAR] + prefix;
    KeyHashesTheJoin(device, prefix + [a] + suffix);
    KeyHashesTheJoin(device, prefix + [b] + suffix);
    assert device + [BAR] + (prefix + [a] + suffix) == front + [a] + suffix;
    assert device + [BAR] + (prefix + [b] + suffix) == front + [b] + suffix;
    OneByteSeparates(front, a, b, suffix);
    if KeyFor(device, prefix + [a] + suffix) == KeyFor(device, prefix + [b] + suffix) {
      DecimalInjective(Hash(front + [a] + suffix), Hash(front + [b] + suffix));
    }
  }

  /** Two devices get the same key for one message exactly when their own hashes collide. */
  lemma DevicesCollideIff(d1: Bytes, d2: Bytes, msg: Bytes)
    ensures KeyFor(d1, msg) == KeyFor(d2, msg) <==> Hash(d1) == Hash(d2)
  {
    SuffixKeepsCollisions(Hash(d1), Hash(d2), [BAR]);
    SuffixKeepsCollisions(Fold(Hash(d1), [BAR]), Fold(Hash(d2), [BAR]), msg);
    if KeyFor(d1, msg) == KeyFor(d2, msg) {
      DecimalInjective(Fold(Fold(Hash(d1), [BAR]), msg), Fold(Fold(Hash(d2), [BAR]), msg));
    }
  }

  lemma Reassociate(a: Bytes, b: Bytes, c: Bytes, d: Bytes, e: Bytes)
    ensures (a + b + c) + d + e == a + b + (c + d + e)
  {
  }

  /** What is hashed for a device and a message. */
  function Joined(device: Bytes, msg: Bytes): Bytes {
    device + [BAR] + msg
  }

  /** No other device and message are joined to the same bytes. */
  ghost predicate Unambiguous(device: Bytes, msg: Bytes) {
    forall d: Bytes, m: Bytes | Joined(d, m) == Joined(device, msg) :: d == device && m == msg
  }

  lemma JoinedParts(device: Bytes, msg: Bytes)
    ensures |Joined(device, msg)| == |device| + 1 + |msg|
    ensures Joined(device, msg)[..|device|] == device && Joined(device, msg)[|device|] == BAR
    ensures Joined(device, msg)[|device| + 1..] == msg
  {
  }

  /** A bar anywhere can be taken for the separator: the pair that is cut there shares the key. */
  lemma BarMoves(a: Bytes, b: Bytes, c: Bytes)
    ensures Joined(a + [BAR] + b, c) == Joined(a, b + [BAR] + c)
    ensures KeyFor(a + [BAR] + b, c) == KeyFor(a, b + [BAR] + c)
    ensures !Unambiguous(a + [BAR] + b, c) && !Unambiguous(a, b + [BAR] + c)
  {
    Reassociate(a, [BAR], b, [BAR], c);
    KeyHashesTheJoin(a + [BAR] + b, c);
    KeyHashesTheJoin(a, b + [BAR] + c);
    assert |a + [BAR] + b| != |a|;
  }

  lemma SplitAtBar(s: Bytes) returns (a: Bytes, b: Bytes)
    requires BAR in s
    ensures s == a + [BAR] + b
  {
    var k :| 0 <= k < |s| && s[k] == BAR;
    a, b := s[..k], s[k + 1..];
  }

  lemma TheOnlyBar(device: Bytes, msg: Bytes)
    requires BAR !in device && BAR !in msg
    ensures forall k | 0 <= k < |Joined(device, msg)| && k != |device| :: Joined(device, msg)[k] != BAR
  {
    var s := Joined(device, msg);
    forall k | 0 <= k < |s| && k != |device| ensures s[k] != BAR {
      assert if k < |device| then s[k] == device[k] else s[k] == msg[k - |device| - 1];
    }
  }

  /** Device and message can be told apart in what is hashed exactly when neither has a bar. */
  lemma UnambiguousIff(device: Bytes, msg: Bytes)
    ensures Unambiguous(device, msg) <==> BAR !in device && BAR !in msg
  {
    if BAR in device {
      var a, b := SplitAtBar(device);
      BarMoves(a, b, msg);
    } else if BAR in msg {
      var b, c := SplitAtBar(msg);
      BarMoves(device, b, c);
    } else {
      forall d: Bytes, m: Bytes | Joined(d, m) == Joined(device, msg) ensures d == device && m == msg {
        JoinedParts(d, m);
        JoinedParts(device, msg);
        TheOnlyBar(device, msg);
      }
    }
  }

  // ---------- The size of the sample ----------

  /** The branches are one comparison, except that a negative percentage samples everything. */
  lemma SampledIsBelow(percentage: int, value: nat)
    ensures Sampled(percentage, value) <==> percentage < 0 || value % 100 < percentage
  {
  }

  /** The sample value is the top sixteen bits of the hash. */
  lemma SampleBits(device: Bytes, k: nat)
    requires k < 16
    ensures Bit(SampleValue(device), k) == Bit(Hash(device), 48 + k) && SampleValue(device) < 0x1_0000
  {
    ShiftedBits(Hash(device), 48, k);
  }

  /** A game that is not configured is never checked. */
  lemma CheckedIff(games: map<string, int>, device: Bytes, game: string)
    ensures Checked(games, device, game) <==>
      game in games && (games[game] < 0 || SampleValue(device) % 100 < games[game])
  {
    if game in games {
      SampledIsBelow(games[game], SampleValue(device));
    }
  }

  /** A failing Redis never makes a message a duplicate, nor does sampling it out. */
  lemma OnlyRedisFindsDuplicates(ttl: int, db: Redis.Db, now: nat, key: string, sampled: bool, fault: Redis.Fault)
    ensures Decision(ttl, db, now, key, sampled, fault).0
       <==> !sampled || fault != Redis.NoFault || !Redis.Live(db, key, now)
    ensures !sampled || fault == Redis.Refused ==> Decision(ttl, db, now, key, sampled, fault).1 == db
  {
  }

  /** Raising the percentage only adds devices, up to and including one hundred. */
  lemma SampleGrows(p: int, q: int, value: nat)
    requires 0 <= p <= q && Sampled(p, value)
    ensures Sampled(q, value)
  {
  }

  /** How many of the values below n are sampled. */
  function SampleSize(percentage: int, n: nat): nat {
    if n == 0 then 0 else SampleSize(percentage, n - 1) + if Sampled(percentage, n - 1) then 1 else 0
  }

  lemma SampledInHundred(percentage: int, hundreds: nat, rest: nat)
    requires 0 <= percentage <= 100 && rest < 100
    ensures Sampled(percentage, 100 * hundreds + rest) <==> rest < percentage
  {
    assert (100 * hundreds + rest) % 100 == rest;
  }

  /** Every hundred values bring p samples, the first p of the hundred. */
  lemma {:induction false} SampleSizeBelow(percentage: int, hundreds: nat, rest: nat)
    requires 0 <= percentage <= 100 && rest <= 100
    ensures SampleSize(percentage, 100 * hundreds + rest) == hundreds * percentage + Min(rest, percentage)
    decreases hundreds, rest
  {
    if rest > 0 {
      SampleSizeBelow(percentage, hundreds, rest - 1);
      SampledInHundred(percentage, hundreds, rest - 1);
    } else if hundreds > 0 {
      SampleSizeBelow(percentage, hundreds - 1, 100);
      assert 100 * (hundreds - 1) + 100 == 100 * hundreds;
      assert (hundreds - 1) * percentage + percentage == hundreds * percentage;
    }
  }

  /** Exactly 655 p + min(p, 36) of the 65536 values are sampled at p per cent. */
  lemma SampleSizeExact(percentage: int)
    requires 0 <= percentage <= 100
    ensures SampleSize(percentage, SAMPLE_VALUES) == 655 * percentage + Min(percentage, 36)
  {
    SampleSizeBelow(percentage, 655, 36);
  }
}
