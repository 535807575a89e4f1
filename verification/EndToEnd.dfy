/** From a failed push to the token table: through the feedback topic, its parser, the broker, the
    buffer and the flush. */
module EndToEnd {
  import opened ApnsReasons
  import opened Broker
  import opened Wrappers
  import opened TokenTables
  import opened InvalidTokens
  import opened Listener
  import Topic
  import TopicParsing
  import A = ApnsResponses

  /** The record of the APNS handler about a failed response. */
  function ApnsRecord(f: A.Feedback): (string, Payload) {
    (Topic.FeedbackTopic(f.game, Topic.APNS), ApnsFeedback(f.deviceToken, f.reason))
  }

  /** The record of the Firebase handler about a failed push: it keeps the platform that the
      message's own topic was read as. */
  function GcmRecord(app: string, messageTopic: string, to: string, error: string): Option<(string, Payload)> {
    match Topic.Parse(messageTopic)
    case None => None
    case Some(p) => Some((Topic.FeedbackTopic(app, p.platform), GcmFeedback(to, error)))
  }

  /** The reasons after which APNS takes a token for dead, and the errors after which Firebase does. */
  const DEAD_FOR_APNS := ["BadDeviceToken", "Unregistered", "TopicDisallowed", "DeviceTokenNotForTopic"]
  const DEAD_FOR_GCM := ["DEVICE_UNREGISTERED", "BAD_REGISTRATION"]

  /** The handler's list and the broker's list are the same four reasons. */
  lemma BothListsAgree(reason: string)
    ensures A.Unusable(reason) <==> reason in DEAD_FOR_APNS
    ensures ApnsFatal(reason) <==> reason in DEAD_FOR_APNS
  {
  }

  /** A failed APNS response arrives at the broker under its own game, and turns into an invalid
      token with the same device token exactly when its reason is fatal and routing is on. */
  lemma ApnsTokenIdentity(enabled: bool, f: A.Feedback)
    requires Topic.IsGame(f.game)
    ensures var (topic, payload) := ApnsRecord(f); var m := Consumed(topic, payload);
      && topic == "push-" + f.game + "-apns-feedbacks"
      && m == Some(FeedbackMessage(f.game, "apns", payload))
      && Route(enabled, m.value)
         == if enabled && f.reason in DEAD_FOR_APNS then Some(InvalidToken(f.deviceToken, f.game, "apns")) else None
  {
    TopicParsing.ParseInvertsPrint(f.game, '-', Topic.APNS, Topic.FEEDBACKS);
  }

  /** Whether the broker, with routing on, turns a feedback into an invalid token. */
  predicate RoutedToDeletion(f: A.Feedback) {
    var m := Consumed(ApnsRecord(f).0, ApnsRecord(f).1);
    m.Some? && Route(true, m.value).Some?
  }

  /** The mark in the feedback and the broker agree exactly when the message brought no mark of its
      own, or its token is deleted anyway. */
  lemma MarkedIffRouted(f: A.Feedback, entries: A.Entries)
    requires Topic.IsGame(f.game) && f.reason != SUCCESS
    requires f.metadata == A.Final(f.reason, entries)
    ensures ((A.DELETE_TOKEN in f.metadata) <==> RoutedToDeletion(f))
       <==> (A.DELETE_TOKEN !in entries || f.reason in DEAD_FOR_APNS)
  {
    ApnsTokenIdentity(true, f);
    assert A.DELETE_TOKEN[0] != A.TIMESTAMP[0];
  }

  /** A push throttled to the end keeps the mark its sender put there, and its token. */
  lemma BroughtMarkMisleads(game: string, token: string)
    requires Topic.IsGame(game)
    ensures var entries := map[A.DELETE_TOKEN := A.Flag(true)];
      var f := A.Feedback(game, token, TOO_MANY_REQUESTS, 0, A.Final(TOO_MANY_REQUESTS, entries));
      A.DELETE_TOKEN in f.metadata && !RoutedToDeletion(f)
  {
    var entries := map[A.DELETE_TOKEN := A.Flag(true)];
    var f := A.Feedback(game, token, TOO_MANY_REQUESTS, 0, A.Final(TOO_MANY_REQUESTS, entries));
    ApnsTokenIdentity(true, f);
    assert A.DELETE_TOKEN[0] != A.TIMESTAMP[0];
  }

  lemma GcmRouting(enabled: bool, app: string, platform: string, to: string, error: string)
    requires platform == "gcm" || platform == "ios"
    ensures Route(enabled, FeedbackMessage(app, platform, GcmFeedback(to, error)))
         == if enabled && platform == "gcm" && error in DEAD_FOR_GCM then Some(InvalidToken(to, app, "gcm")) else None
  {
    assert "ios"[0] == 'i' && GCM_PLATFORM[0] == 'g' && APNS_PLATFORM[0] == 'a';
  }

  /** A failed Firebase push ends as an invalid token of the same game exactly when it came in on a
      gcm topic; the same app's ios pushes fail without any token being deleted. */
  lemma GcmTokenIdentity(enabled: bool, app: string, platform: string, kind: string, to: string, error: string)
    requires Topic.IsGame(app) && (platform == "gcm" || platform == "ios")
    requires kind == "single" || kind == "massive"
    ensures var record := GcmRecord(app, "push-" + app + "_" + platform + "-" + kind, to, error);
      && record == Some(("push-" + app + "-" + platform + "-feedbacks", GcmFeedback(to, error)))
      && var m := Consumed(record.value.0, record.value.1);
         && m == Some(FeedbackMessage(app, platform, GcmFeedback(to, error)))
         && Route(enabled, m.value)
            == if enabled && platform == "gcm" && error in DEAD_FOR_GCM then Some(InvalidToken(to, app, "gcm"))
               else None
  {
    TopicParsing.TopicsReadBack(app, platform);
    TopicParsing.TopicsAsText(app, platform);
    var topic := "push-" + app + "_" + platform + "-" + kind;
    assert topic == "push-" + app + "_" + platform + (if kind == "single" then "-single" else "-massive");
    GcmRouting(enabled, app, platform, to, error);
  }

  // ---------- Rows ----------

  /** A record on this topic says that this token is dead. */
  ghost predicate SaysDead(steps: seq<Step>, topic: string, x: string, platform: string) {
    || (platform == "apns" &&
        exists reason :: reason in DEAD_FOR_APNS && Receive(topic, ApnsFeedback(x, reason)) in steps)
    || (platform == "gcm" &&
        exists error :: error in DEAD_FOR_GCM && Receive(topic, GcmFeedback(x, error)) in steps)
  }

  /** A run receives such a record on a topic of this game and platform. */
  ghost predicate CondemnedIn(steps: seq<Step>, x: string, game: string, platform: string) {
    exists topic ::
      Topic.Parse(topic) == Some(Topic.ParsedTopic(game, platform)) && SaysDead(steps, topic, x, platform)
  }

  /** Some message received makes this row's token invalid for this game and platform. */
  ghost predicate Condemned(enabled: bool, ms: seq<FeedbackMessage>, x: string, game: string, platform: string) {
    exists m | m in ms :: Route(enabled, m) == Some(InvalidToken(x, game, platform))
  }

  lemma DoomedInOwnTable(tokens: seq<InvalidToken>, x: string, game: string, platform: string)
    requires forall t | t in tokens :: KnownPlatform(t)
    requires platform == APNS_PLATFORM || platform == GCM_PLATFORM
    ensures x in Doomed(tokens, TableOf(game, platform)) <==> InvalidToken(x, game, platform) in tokens
  {
    if x in Doomed(tokens, TableOf(game, platform)) {
      var t :| t in tokens && TableOfToken(t) == TableOf(game, platform) && t.token == x;
      TablesAreDistinct(t.game, t.platform, game, platform);
    }
  }

  /** The rows of a token after deleting some tokens of known platforms. */
  lemma RowsAfter(tables: Tables, tokens: seq<InvalidToken>, x: string, game: string, platform: string)
    requires forall t | t in tokens :: KnownPlatform(t)
    requires (platform == APNS_PLATFORM || platform == GCM_PLATFORM) && TableOf(game, platform) in tables
    ensures TableOf(game, platform) in DeleteEach(tables, tokens)
    ensures multiset(DeleteEach(tables, tokens)[TableOf(game, platform)])[x]
         == if InvalidToken(x, game, platform) in tokens then 0 else multiset(tables[TableOf(game, platform)])[x]
  {
    var table := TableOf(game, platform);
    DeleteEachIsPurged(tables, tokens);
    KeepCounts(tables[table], Doomed(tokens, table), x);
    DoomedInOwnTable(tokens, x, game, platform);
  }

  lemma {:induction false} AcceptedAreTokens(batches: seq<Batch>, t: InvalidToken)
    requires t in AcceptedOf(batches)
    ensures t in TokensOf(batches)
  {
    var before, b := batches[..|batches| - 1], batches[|batches| - 1];
    if t in Accepted(b) {
      SelectMembers(b.tokens, GroupsOf(b.tokens) - b.refused, t);
    } else {
      AcceptedAreTokens(before, t);
    }
  }

  lemma AllAcceptedKnown(cfg: Config, s: State)
    requires TokensKept(cfg, s)
    ensures forall t | t in AcceptedOf(s.batches) ::
      t in RouteAll(cfg.enabled, s.confirmed + OfBroker(s)) && KnownPlatform(t)
  {
    RoutesKnownPlatforms(cfg.enabled, s.confirmed + OfBroker(s));
    assert RouteAll(cfg.enabled, s.confirmed + OfBroker(s)) == Queued(s) + InHand(s);
    forall t | t in AcceptedOf(s.batches) ensures t in Queued(s) {
      AcceptedAreTokens(s.batches, t);
    }
  }

  lemma {:induction false} AcceptedInGroup(batches: seq<Batch>, t: InvalidToken)
    requires forall b | b in batches :: GroupOf(t) !in b.refused
    ensures t in AcceptedOf(batches) <==> t in TokensOf(batches)
  {
    if batches != [] {
      var b := batches[|batches| - 1];
      AcceptedInGroup(batches[..|batches| - 1], t);
      SelectMembers(b.tokens, GroupsOf(b.tokens) - b.refused, t);
    }
  }

  /** The messages of a run condemn a token exactly when its records do. */
  lemma CondemnedByRecords(enabled: bool, steps: seq<Step>, x: string, game: string, platform: string)
    ensures Condemned(enabled, Arrived(steps), x, game, platform) <==> enabled && CondemnedIn(steps, x, game, platform)
  {
    if m :| m in Arrived(steps) && Route(enabled, m) == Some(InvalidToken(x, game, platform)) {
      ArrivedFrom(steps, m);
      var topic, payload :| Receive(topic, payload) in steps && Consumed(topic, payload) == Some(m);
      if m.platform == APNS_PLATFORM {
        BothListsAgree(ApnsFields(payload).1);
        assert payload == ApnsFeedback(x, payload.reason) && payload.reason in DEAD_FOR_APNS;
      } else {
        assert payload == GcmFeedback(x, payload.error) && payload.error in DEAD_FOR_GCM;
      }
      assert SaysDead(steps, topic, x, platform);
    }
    if enabled && CondemnedIn(steps, x, game, platform) {
      CondemnedRecordArrives(steps, x, game, platform);
    }
  }

  lemma CondemnedRecordArrives(steps: seq<Step>, x: string, game: string, platform: string)
    requires CondemnedIn(steps, x, game, platform)
    ensures Condemned(true, Arrived(steps), x, game, platform)
  {
    var topic :|
      Topic.Parse(topic) == Some(Topic.ParsedTopic(game, platform)) && SaysDead(steps, topic, x, platform);
    if platform == "apns" {
      var reason :| reason in DEAD_FOR_APNS && Receive(topic, ApnsFeedback(x, reason)) in steps;
      var m := FeedbackMessage(game, platform, ApnsFeedback(x, reason));
      assert Consumed(topic, m.payload) == Some(m);
      ArrivedFrom(steps, m);
      BothListsAgree(reason);
    } else {
      var error :| error in DEAD_FOR_GCM && Receive(topic, GcmFeedback(x, error)) in steps;
      var m := FeedbackMessage(game, platform, GcmFeedback(x, error));
      assert Consumed(topic, m.payload) == Some(m);
      ArrivedFrom(steps, m);
    }
  }

  lemma RunIsReachable(cfg: Config, tables: Tables, steps: seq<Step>, s: State)
    requires Runs(cfg, Init(tables), steps, s)
    ensures Reachable(cfg, tables, s) && s.received == Arrived(steps)
  {
    RunReceives(cfg, Init(tables), steps, s);
    assert [] + Arrived(steps) == Arrived(steps);
  }

  /** When the listener has finished what it received and the statements of this game and platform
      were not refused, a row of table game_platform is gone exactly when a record condemned it, and
      there as before otherwise: whatever became of the other groups. */
  lemma DrainedRows(cfg: Config, tables: Tables, steps: seq<Step>, s: State, x: string, game: string, platform: string)
    requires Runs(cfg, Init(tables), steps, s) && s.pending == 0 && s.outChan == [] && s.buffer == []
    requires forall b | b in s.batches :: (game, platform) !in b.refused
    requires (platform == "apns" || platform == "gcm") && game + "_" + platform in tables
    ensures game + "_" + platform in s.tables
    ensures multiset(s.tables[game + "_" + platform])[x]
         == if cfg.enabled && CondemnedIn(steps, x, game, platform) then 0
            else multiset(tables[game + "_" + platform])[x]
  {
    RunIsReachable(cfg, tables, steps, s);
    var t := InvalidToken(x, game, platform);
    ReachableInv(cfg, tables, s);
    assert s.confirmed + OfBroker(s) == s.received && Queued(s) + InHand(s) == TokensOf(s.batches);
    AllAcceptedKnown(cfg, s);
    RowsAfter(tables, AcceptedOf(s.batches), x, game, platform);
    AcceptedInGroup(s.batches, t);
    RoutedFrom(cfg.enabled, s.received, t);
    CondemnedByRecords(cfg.enabled, steps, x, game, platform);
  }

  /** At any moment, whatever was refused: a row that has changed is gone altogether, and some
      record received condemned it. */
  lemma OnlyCondemnedRowsGo(cfg: Config, tables: Tables, steps: seq<Step>, s: State,
                            x: string, game: string, platform: string)
    requires Runs(cfg, Init(tables), steps, s)
    requires (platform == "apns" || platform == "gcm") && game + "_" + platform in tables
    ensures game + "_" + platform in s.tables
    ensures var was, now := multiset(tables[game + "_" + platform])[x], multiset(s.tables[game + "_" + platform])[x];
      now != was ==> now == 0 && cfg.enabled && CondemnedIn(steps, x, game, platform)
  {
    RunIsReachable(cfg, tables, steps, s);
    ReachableInv(cfg, tables, s);
    var taken := s.confirmed + OfBroker(s);
    AllAcceptedKnown(cfg, s);
    RowsAfter(tables, AcceptedOf(s.batches), x, game, platform);
    RoutedFrom(cfg.enabled, taken, InvalidToken(x, game, platform));
    CondemnedByRecords(cfg.enabled, steps, x, game, platform);
  }

  /** A device token that APNS rejected for good is in no row of its game's table once the listener
      has received the feedback about it and finished. */
  lemma RejectedTokenIsGone(cfg: Config, tables: Tables, steps: seq<Step>, s: State, f: A.Feedback)
    requires Runs(cfg, Init(tables), steps, s) && s.pending == 0 && s.outChan == [] && s.buffer == []
    requires Receive(ApnsRecord(f).0, ApnsRecord(f).1) in steps
    requires forall b | b in s.batches :: (f.game, "apns") !in b.refused
    requires cfg.enabled && Topic.IsGame(f.game) && f.reason in DEAD_FOR_APNS
    requires f.game + "_apns" in tables
    ensures f.game + "_apns" in s.tables && f.deviceToken !in s.tables[f.game + "_apns"]
  {
    ApnsTokenIdentity(true, f);
    assert f.game + "_" + "apns" == f.game + "_apns";
    assert SaysDead(steps, ApnsRecord(f).0, f.deviceToken, "apns");
    assert CondemnedIn(steps, f.deviceToken, f.game, "apns");
    DrainedRows(cfg, tables, steps, s, f.deviceToken, f.game, "apns");
  }
}
