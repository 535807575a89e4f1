/** The APNS message handler on the heap: HandleMessages filters a message, builds a notification
    and pushes it, handleAPNSResponse retries it or reports how it ended. The response shares the metadata map of
    its notification. */
module ApnsResponses {
  import opened ApnsReasons
  import opened Wrappers
  import P = ApnsPipeline
  import Dedup
  import Fnv
  import Numerals
  import RateLimiter
  import Redis

  /** A decoded JSON value, or the integer that the handler puts into metadata itself. */
  datatype Value = Null | Int64(n: int) | Flag(b: bool) | Text(s: string) | Object(fields: map<string, Value>) | Other

  type Entries = map<string, Value>

  const TIMESTAMP := "timestamp"
  const DELETE_TOKEN := "deleteToken"
  const GAME := "game"
  const DEVICE_TOKEN := "deviceToken"
  const HOSTNAME := "hostname"
  const APS := "aps"
  const M := "M"

  /** A Go map: shared by whoever holds the reference. */
  class Metadata {
    var entries: Entries

    constructor (entries: Entries)
      ensures this.entries == entries
    {
      this.entries := entries;
    }
  }

  class Notification {
    const id: nat
    const deviceToken: string
    const payload: Value
    const metadata: Metadata?
    var sendAttempts: nat

    constructor (id: nat, deviceToken: string, payload: Value, metadata: Metadata?)
      ensures this.id == id && this.deviceToken == deviceToken && this.payload == payload
      ensures this.metadata == metadata && sendAttempts == 0
    {
      this.id := id;
      this.deviceToken := deviceToken;
      this.payload := payload;
      this.metadata := metadata;
      sendAttempts := 0;
    }
  }

  class Response {
    const reason: string
    const deviceToken: string
    const notification: Notification
    var timestamp: int
    var metadata: Metadata?

    /** A push worker builds a response from its notification. */
    constructor (reason: string, notification: Notification)
      ensures this.reason == reason && this.notification == notification && deviceToken == notification.deviceToken
      ensures timestamp == 0 && metadata == null
    {
      this.reason := reason;
      this.deviceToken := notification.deviceToken;
      this.notification := notification;
      timestamp := 0;
      metadata := null;
    }
  }

  /** A nil map reads as an empty one. */
  function Read(metadata: Metadata?): Entries
    reads if metadata == null then {} else {metadata}
  {
    if metadata == null then map[] else metadata.entries
  }

  /** What the feedback reporters serialise: an empty map is left out like a nil one. */
  datatype Feedback = Feedback(game: string, deviceToken: string, reason: string, timestamp: int, metadata: Entries)

  /** The reasons on which the handler marks a token for deletion. */
  predicate Unusable(reason: string) {
    || reason == BAD_DEVICE_TOKEN || reason == UNREGISTERED
    || reason == TOPIC_DISALLOWED || reason == DEVICE_TOKEN_NOT_FOR_TOPIC
  }

  /** What happens to the metadata of a notification that has ended. */
  function Final(reason: string, entries: Entries): Entries {
    var stripped := entries - {TIMESTAMP};
    if reason != SUCCESS && Unusable(reason) then stripped[DELETE_TOKEN := Flag(true)] else stripped
  }

  function Stamp(entries: Entries, otherwise: int): int {
    if TIMESTAMP in entries && entries[TIMESTAMP].Int64? then entries[TIMESTAMP].n else otherwise
  }

  /** The metadata of a fresh notification. */
  function Initial(game: string, deviceToken: string, hostname: Option<string>, seconds: int, given: Entries): Entries {
    var named := given[GAME := Text(game)][DEVICE_TOKEN := Text(deviceToken)];
    (if hostname.Some? then named[HOSTNAME := Text(hostname.value)] else named)[TIMESTAMP := Int64(seconds)]
  }

  /** The JSON of a message. `expiry` is in milliseconds, and 0 when there is none. */
  datatype Message = Message(deviceToken: string, expiry: int, payload: Value, metadata: Option<Entries>)

  function Given(m: Message): Entries {
    if m.metadata.Some? then m.metadata.value else map[]
  }

  // ---------- Metadata in the payload ----------

  function At(fields: Entries, k: string): Value {
    if k in fields then fields[k] else Null
  }

  /** What is set already stays. */
  function Merged(m: Entries, metadata: Entries): Entries {
    map k | k in m.Keys + metadata.Keys :: if At(m, k) == Null then At(metadata, k) else m[k]
  }

  /** The payload with the metadata of the message under the key M, if it is an object that has
      room for it there. */
  function Enriched(payload: Value, metadata: Option<Entries>): Value {
    if metadata == None then payload
    else
      var p := if payload == Null then Object(map[]) else payload;
      if !p.Object? then p
      else
        var m := if At(p.fields, M) == Null then Object(map[]) else p.fields[M];
        if m.Object? then Object(p.fields[M := Object(Merged(m.fields, metadata.value))]) else p
  }

  /** The loop over the metadata, in any order. */
  method Merge(m: Entries, metadata: Entries) returns (merged: Entries)
    ensures merged == Merged(m, metadata)
  {
    merged := m;
    var rest := metadata.Keys;
    while rest != {}
      invariant rest <= metadata.Keys
      invariant merged == map k | k in m.Keys + (metadata.Keys - rest) ::
        if k in metadata.Keys - rest && At(m, k) == Null then metadata[k] else At(m, k)
    {
      var k :| k in rest;
      if At(merged, k) == Null {
        merged := merged[k := metadata[k]];
      }
      rest := rest - {k};
    }
  }

  method AddMetadataToPayload(payload: Value, metadata: Option<Entries>) returns (enriched: Value)
    ensures enriched == Enriched(payload, metadata)
  {
    enriched := payload;
    if metadata == None {
      return;
    }
    if enriched == Null {
      enriched := Object(map[]);
    }
    if enriched.Object? {
      if At(enriched.fields, M) == Null {
        enriched := Object(enriched.fields[M := Object(map[])]);
      }
      if !enriched.fields[M].Object? {
        return;
      }
      var m := Merge(enriched.fields[M].fields, metadata.value);
      enriched := Object(enriched.fields[M := Object(m)]);
    }
  }

  // ---------- The checks of a message ----------

  /** Go strings are bytes. */
  function BytesOf(s: string): Fnv.Bytes {
    seq(|s|, i requires 0 <= i < |s| => s[i] as int % 256)
  }

  /** What duplicates are recognised by: the aps part, or the whole of a payload that is a string. */
  function Content(encode: Value -> Fnv.Bytes, payload: Value): Option<Fnv.Bytes> {
    match payload
    case Object(fields) => if APS in fields then Some(encode(fields[APS])) else None
    case Text(s) => Some(BytesOf(s))
    case _ => None
  }

  /** Whether a message is new, as far as its content is known, and Redis afterwards. */
  function Screen(ttl: int, percentages: map<string, int>, game: string, encode: Value -> Fnv.Bytes,
                  db: Redis.Db, now: nat, message: Option<Message>, fault: Redis.Fault): (bool, Redis.Db)
  {
    if message == None then (true, db)
    else
      var device := BytesOf(message.value.deviceToken);
      match Content(encode, Enriched(message.value.payload, message.value.metadata))
      case None => (true, db)
      case Some(content) =>
        Dedup.Decision(ttl, db, now, Dedup.KeyFor(device, content), Dedup.Checked(percentages, device, game), fault)
  }

  datatype Verdict = Unreadable | OverLimit | Expired | Sent

  /** The exits of HandleMessages in the order of its checks; the limiter is asked, and its counter
      moved, before the expiry is looked at. */
  function Judge(limit: int, db: Redis.Db, now: nat, message: Option<Message>, read: Redis.Fault, write: Redis.Fault)
    : (Verdict, Redis.Db)
  {
    if message == None then (Unreadable, db)
    else
      var (allowed, db') := RateLimiter.Decision(limit, db, now, message.value.deviceToken, read, write);
      if !allowed then (OverLimit, db')
      else if 0 < message.value.expiry < now then (Expired, db')
      else (Sent, db')
  }

  /** A push uses up the device's rate exactly when the limiter lets it pass, expired or not. */
  lemma ExpiredUsesRate(limit: int, db: Redis.Db, now: nat, m: Message)
    requires RateLimiter.Numeric(db)
    ensures var key := RateLimiter.Key(m.deviceToken, RateLimiter.MinuteOf(now));
      var (verdict, db') := Judge(limit, db, now, Some(m), Redis.NoFault, Redis.NoFault);
      && (verdict == OverLimit <==> RateLimiter.Reading(db, key, now) >= limit)
      && RateLimiter.Reading(db', key, now)
         == RateLimiter.Reading(db, key, now) + (if verdict == OverLimit then 0 else 1)
  {
    var key := RateLimiter.Key(m.deviceToken, RateLimiter.MinuteOf(now));
    assert Redis.Live(db, key, now) ==> db[key].value.Number?;
  }

  lemma KeysAreDisjoint(device: string, minute: nat, d: Fnv.Bytes, msg: Fnv.Bytes)
    ensures RateLimiter.Key(device, minute) != Dedup.KeyFor(d, msg)
  {
    var key := RateLimiter.Key(device, minute);
    assert key[|device|] == ':' && !Numerals.IsDigit(':');
  }

  /** Finding a duplicate never decides over a message, even where one Redis serves both purposes. */
  lemma ScreeningBlocksNothing(ttl: int, percentages: map<string, int>, game: string, encode: Value -> Fnv.Bytes,
                               db: Redis.Db, now: nat, message: Option<Message>, fault: Redis.Fault,
                               limit: int, read: Redis.Fault, write: Redis.Fault)
    ensures var screened := Screen(ttl, percentages, game, encode, db, now, message, fault).1;
      Judge(limit, screened, now, message, read, write).0 == Judge(limit, db, now, message, read, write).0
  {
    if message.Some? {
      var m := message.value;
      var content := Content(encode, Enriched(m.payload, m.metadata));
      if content.Some? {
        KeysAreDisjoint(m.deviceToken, RateLimiter.MinuteOf(now), BytesOf(m.deviceToken), content.value);
      }
    }
  }

  // ---------- What becomes of metadata and payload, field by field ----------

  /** A fresh notification keeps the metadata given, apart from what the handler puts there. */
  lemma MetadataOnArrival(game: string, token: string, hostname: Option<string>, seconds: int, given: Entries)
    ensures var m := Initial(game, token, hostname, seconds, given);
      && At(m, "game") == Text(game) && At(m, "deviceToken") == Text(token) && At(m, "timestamp") == Int64(seconds)
      && (hostname.Some? ==> At(m, "hostname") == Text(hostname.value))
      && (forall k | k !in ["game", "deviceToken", "timestamp"] && (k == "hostname" ==> hostname == None) ::
            (k in m <==> k in given) && At(m, k) == At(given, k))
      && (forall otherwise :: Stamp(m, otherwise) == seconds)
    ensures forall otherwise :: !At(given, "timestamp").Int64? ==> Stamp(given, otherwise) == otherwise
  {
  }

  /** At the end the time of arrival is gone, the mark is there for the four reasons that condemn
      the token, and all else is as it was. */
  lemma MetadataAtTheEnd(reason: string, entries: Entries)
    ensures var m := Final(reason, entries);
      && "timestamp" !in m
      && (reason in ["BadDeviceToken", "Unregistered", "TopicDisallowed", "DeviceTokenNotForTopic"] ==>
            At(m, "deleteToken") == Flag(true))
      && (forall k | k != "timestamp" && (k == "deleteToken" ==>
            reason !in ["BadDeviceToken", "Unregistered", "TopicDisallowed", "DeviceTokenNotForTopic"]) ::
            (k in m <==> k in entries) && At(m, k) == At(entries, k))
  {
  }

  /** Merging never overwrites what is set, and leaves nothing out. */
  lemma MergeKeepsWhatIsSet(m: Entries, metadata: Entries, k: string)
    ensures k in Merged(m, metadata) <==> k in m || k in metadata
    ensures At(m, k) != Null ==> At(Merged(m, metadata), k) == At(m, k)
    ensures At(m, k) == Null ==> At(Merged(m, metadata), k) == At(metadata, k)
  {
  }

  /** Metadata only ever goes under the key M of an object, where that is free or an object itself. */
  lemma PayloadKeepsTheRest(payload: Value, metadata: Option<Entries>)
    ensures metadata == None || (payload != Null && !payload.Object?) ==> Enriched(payload, metadata) == payload
    ensures payload.Object? ==>
      && Enriched(payload, metadata).Object?
      && forall k | k != "M" ::
           && (k in Enriched(payload, metadata).fields <==> k in payload.fields)
           && At(Enriched(payload, metadata).fields, k) == At(payload.fields, k)
    ensures metadata.Some? && payload == Null ==>
      Enriched(payload, metadata).Object? && Enriched(payload, metadata).fields.Keys == {"M"}
    ensures metadata.Some? && (payload == Null || payload.Object?) ==>
      var m := if payload == Null then Null else At(payload.fields, "M");
      At(Enriched(payload, metadata).fields, "M") ==
        if m == Null then Object(Merged(map[], metadata.value))
        else if m.Object? then Object(Merged(m.fields, metadata.value))
        else m
  {
  }

  /** The same aps part, or the same string for a payload. */
  predicate SameAlert(p: Value, q: Value) {
    || (p.Text? && p == q)
    || (p.Object? && q.Object? && "aps" in p.fields && "aps" in q.fields && p.fields["aps"] == q.fields["aps"])
  }

  /** Of two pushes to a device with the same alert, whatever else they carry, the second is a
      duplicate exactly while the first is remembered. */
  lemma SameAlertIsDuplicate(ttl: int, percentages: map<string, int>, game: string, encode: Value -> Fnv.Bytes,
                             db: Redis.Db, first: nat, m: Message, second: nat, n: Message)
    requires m.deviceToken == n.deviceToken && SameAlert(m.payload, n.payload)
    requires Dedup.Checked(percentages, BytesOf(m.deviceToken), game)
    requires Screen(ttl, percentages, game, encode, db, first, Some(m), Redis.NoFault).0
    ensures var db' := Screen(ttl, percentages, game, encode, db, first, Some(m), Redis.NoFault).1;
      !Screen(ttl, percentages, game, encode, db', second, Some(n), Redis.NoFault).0
      <==> ttl <= 0 || second < first + ttl
  {
    PayloadKeepsTheRest(m.payload, m.metadata);
    PayloadKeepsTheRest(n.payload, n.metadata);
    assert Content(encode, Enriched(m.payload, m.metadata)) == Content(encode, Enriched(n.payload, n.metadata)) != None;
  }

  /** A payload with an alert is looked up by its device and that alert, for the handler's game. */
  lemma AlertIsLookedUp(ttl: int, percentages: map<string, int>, game: string, encode: Value -> Fnv.Bytes,
                        db: Redis.Db, now: nat, m: Message, fault: Redis.Fault)
    requires SameAlert(m.payload, m.payload)
    ensures var device := BytesOf(m.deviceToken);
      var alert := if m.payload.Text? then BytesOf(m.payload.s) else encode(m.payload.fields["aps"]);
      Screen(ttl, percentages, game, encode, db, now, Some(m), fault) ==
        Dedup.Decision(ttl, db, now, Dedup.KeyFor(device, alert), Dedup.Checked(percentages, device, game), fault)
  {
    PayloadKeepsTheRest(m.payload, m.metadata);
  }

  /** A payload without an alert is never compared with anything. */
  lemma NoAlertIsNew(ttl: int, percentages: map<string, int>, game: string, encode: Value -> Fnv.Bytes,
                     db: Redis.Db, now: nat, m: Message, fault: Redis.Fault)
    requires !SameAlert(m.payload, m.payload)
    ensures Screen(ttl, percentages, game, encode, db, now, Some(m), fault) == (true, db)
  {
    PayloadKeepsTheRest(m.payload, m.metadata);
  }

  class Handler {
    const game: string
    const maxRetryAttempts: nat
    const limiter: RateLimiter.Limiter
    const dedup: Dedup.Deduplicator
    const encode: Value -> Fnv.Bytes
    // The wait group and the counters sent to StatsD.
    var pending: int
    var duplicates: nat
    var sent: nat
    var successes: nat
    var failures: nat
    // What went into the push channel and to the feedback reporters, in order.
    var pushed: seq<Notification>
    var feedback: seq<Feedback>

    constructor (game: string, maxRetryAttempts: nat, limiter: RateLimiter.Limiter, dedup: Dedup.Deduplicator,
                 encode: Value -> Fnv.Bytes, pending: int)
      ensures this.game == game && this.maxRetryAttempts == maxRetryAttempts && this.limiter == limiter
      ensures this.dedup == dedup && this.encode == encode && this.pending == pending
      ensures duplicates == sent == successes == failures == 0 && pushed == [] && feedback == []
    {
      this.game := game;
      this.maxRetryAttempts := maxRetryAttempts;
      this.limiter := limiter;
      this.dedup := dedup;
      this.encode := encode;
      this.pending := pending;
      duplicates, sent, successes, failures := 0, 0, 0, 0;
      pushed, feedback := [], [];
    }

    method SendNotification(n: Notification)
      modifies n, this`pushed
      ensures n.sendAttempts == old(n.sendAttempts) + 1
      ensures pushed == old(pushed) + [n]
    {
      n.sendAttempts := n.sendAttempts + 1;
      pushed := pushed + [n];
    }

    method ParsedMetadata(m: Message, now: nat, hostname: Option<string>) returns (metadata: Metadata)
      ensures fresh(metadata) && metadata.entries == Initial(game, m.deviceToken, hostname, now / 1000, Given(m))
    {
      metadata := new Metadata(Given(m));
      metadata.entries := metadata.entries[GAME := Text(game)];
      metadata.entries := metadata.entries[DEVICE_TOKEN := Text(m.deviceToken)];
      if hostname.Some? {
        metadata.entries := metadata.entries[HOSTNAME := Text(hostname.value)];
      }
      metadata.entries := metadata.entries[TIMESTAMP := Int64(now / 1000)];
    }

    /** Asks whether the message is new; the answer is only reported. */
    method ReportDuplicate(m: Message, payload: Value, now: nat, fault: Redis.Fault)
      requires payload == Enriched(m.payload, m.metadata)
      modifies this`duplicates, dedup.redis
      ensures var (unique, db) :=
          Screen(dedup.ttl, dedup.gamePercentages, game, encode, old(dedup.redis.db), now, Some(m), fault);
        dedup.redis.db == db && duplicates == old(duplicates) + if unique then 0 else 1
    {
      var content := Content(encode, payload);
      if content.Some? {
        var unique := dedup.IsUnique(now, BytesOf(m.deviceToken), content.value, game, fault);
        if !unique {
          duplicates := duplicates + 1;
        }
      }
    }

    method Dispatch(id: nat, deviceToken: string, payload: Value, metadata: Metadata)
      modifies this`pushed, this`sent
      ensures sent == old(sent) + 1
      ensures |pushed| == |old(pushed)| + 1 && pushed[..|old(pushed)|] == old(pushed)
      ensures var n := pushed[|old(pushed)|];
        && fresh(n) && n.id == id && n.sendAttempts == 1 && n.deviceToken == deviceToken
        && n.payload == payload && n.metadata == metadata
    {
      var n := new Notification(id, deviceToken, payload, metadata);
      SendNotification(n);
      sent := sent + 1;
    }

    /** A counted message is either released or pushed once, as a notification that carries the
        metadata in its payload and the time of its arrival in its own metadata. */
    method HandleMessages(id: nat, message: Option<Message>, now: nat, hostname: Option<string>,
                          lookup: Redis.Fault, read: Redis.Fault, write: Redis.Fault)
        returns (ghost verdict: Verdict)
      modifies this`pending, this`duplicates, this`sent, this`pushed, limiter.redis, dedup.redis
      ensures var (unique, db) :=
          Screen(dedup.ttl, dedup.gamePercentages, game, encode, old(dedup.redis.db), now, message, lookup);
        && duplicates == old(duplicates) + (if unique then 0 else 1)
        && (limiter.redis != dedup.redis ==> dedup.redis.db == db)
        && (verdict, limiter.redis.db)
           == Judge(limiter.rpmLimit, if limiter.redis == dedup.redis then db else old(limiter.redis.db),
                    now, message, read, write)
      ensures verdict == Unreadable <==> message == None
      ensures verdict == Expired ==> 0 < message.value.expiry < now
      ensures verdict == Sent ==> message.value.expiry <= 0 || now <= message.value.expiry
      ensures verdict != Sent ==>
        pending == old(pending) - 1 && pushed == old(pushed) && sent == old(sent)
      ensures verdict == Sent ==>
        && pending == old(pending) && sent == old(sent) + 1
        && |pushed| == |old(pushed)| + 1 && pushed[..|old(pushed)|] == old(pushed)
        && var n, m := pushed[|old(pushed)|], message.value;
           && fresh(n) && n.id == id && n.sendAttempts == 1 && n.deviceToken == m.deviceToken
           && n.payload == Enriched(m.payload, m.metadata)
           && n.metadata != null && fresh(n.metadata)
           && n.metadata.entries == Initial(game, n.deviceToken, hostname, now / 1000, Given(m))
    {
      if message == None {
        pending := pending - 1;
        return Unreadable;
      }
      var m := message.value;
      var payload := AddMetadataToPayload(m.payload, m.metadata);
      var metadata := ParsedMetadata(m, now, hostname);
      ReportDuplicate(m, payload, now, lookup);
      var allowed := limiter.Allow(now, m.deviceToken, read, write);
      if !allowed {
        pending := pending - 1;
        return OverLimit;
      }
      if m.expiry > 0 && m.expiry < now {
        pending := pending - 1;
        return Expired;
      }
      Dispatch(id, m.deviceToken, payload, metadata);
      verdict := Sent;
    }

    /** The response as the step system sees it. */
    function Seen(r: Response): P.Response
      reads r.notification
    {
      P.Response(P.Notification(r.notification.id, r.notification.sendAttempts), r.reason)
    }

    /** Retries exactly when the step system does, leaving the metadata for the next response;
        otherwise the message is released, and reported once. */
    method HandleAPNSResponse(r: Response, ghost cfg: P.Config)
      requires cfg.maxAttempts == maxRetryAttempts
      modifies this`pending, this`successes, this`failures, this`pushed, this`feedback
      modifies r, r.notification, r.notification.metadata
      ensures P.Retryable(cfg, old(Seen(r))) <==>
        r.reason == "TooManyRequests" && old(r.notification.sendAttempts) < maxRetryAttempts
      ensures pushed != old(pushed) <==>
        r.reason == "TooManyRequests" && old(r.notification.sendAttempts) < maxRetryAttempts
      ensures P.Retryable(cfg, old(Seen(r))) ==>
        && Seen(r).n.attempts == old(Seen(r)).n.attempts + 1 && pushed == old(pushed) + [r.notification]
        && (pending, successes, failures, feedback) == (old(pending), old(successes), old(failures), old(feedback))
        && r.metadata == old(r.metadata) && r.timestamp == old(r.timestamp)
        && Read(r.notification.metadata) == old(Read(r.notification.metadata))
      ensures !P.Retryable(cfg, old(Seen(r))) ==>
        && Seen(r) == old(Seen(r)) && pushed == old(pushed) && pending == old(pending) - 1
        && (r.notification.metadata != null ==> r.metadata == r.notification.metadata)
        && Read(r.metadata) == Final(r.reason, old(Read(r.notification.metadata)))
        && r.timestamp == Stamp(old(Read(r.notification.metadata)), old(r.timestamp))
        && successes == old(successes) + (if r.reason == "" then 1 else 0)
        && failures == old(failures) + (if r.reason == "" then 0 else 1)
        && feedback == old(feedback) + (if r.reason == "" then []
             else [Feedback(game, r.deviceToken, r.reason, r.timestamp, Read(r.metadata))])
    {
      if r.reason == TOO_MANY_REQUESTS && r.notification.sendAttempts < maxRetryAttempts {
        SendNotification(r.notification);
        return;
      }
      r.metadata := r.notification.metadata;
      if r.metadata != null {
        if TIMESTAMP in r.metadata.entries && r.metadata.entries[TIMESTAMP].Int64? {
          r.timestamp := r.metadata.entries[TIMESTAMP].n;
        }
        r.metadata.entries := r.metadata.entries - {TIMESTAMP};
      }
      pending := pending - 1;
      if r.reason == SUCCESS {
        successes := successes + 1;
        return;
      }
      failures := failures + 1;
      if Unusable(r.reason) {
        if r.metadata == null {
          r.metadata := new Metadata(map[]);
        }
        r.metadata.entries := r.metadata.entries[DELETE_TOKEN := Flag(true)];
      }
      feedback := feedback + [Feedback(game, r.deviceToken, r.reason, r.timestamp, Read(r.metadata))];
    }
  }
}
