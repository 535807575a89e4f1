/** The feedback listener as a step system: the Kafka consumer counts messages in and parses their
    topics, the broker turns fatal feedback into invalid tokens and releases the messages, and the
    token handler buffers the tokens and flushes them into the tables. */
module Listener {
  import opened Broker
  import opened Wrappers
  import opened TokenTables
  import opened InvalidTokens
  import Topic
  import TopicParsing

  /** Channel capacities, the buffer size, and whether invalid tokens are routed. */
  datatype Config = Config(enabled: bool, inSize: nat, outSize: nat, bufferSize: int) {
    predicate Valid() {
      inSize >= 1 && outSize >= 1
    }
  }

  datatype Consumer = Polling | Receiving(m: FeedbackMessage)

  datatype BrokerState =
    | Waiting
    | Emitting(m: FeedbackMessage, t: InvalidToken)   // blocked on, or about to use, the token channel
    | Confirming(m: FeedbackMessage)                  // about to release the wait group

  /** A flushed buffer, and the groups whose statement the database refused. */
  datatype Batch = Batch(tokens: seq<InvalidToken>, refused: set<Group>)

  /** `pending` is the wait group; `received` and `confirmed` list what it counted in and out. */
  datatype State = State(
    consumer: Consumer, inChan: seq<FeedbackMessage>, broker: BrokerState, outChan: seq<InvalidToken>,
    buffer: seq<InvalidToken>, batches: seq<Batch>, tables: Tables,
    pending: int, received: seq<FeedbackMessage>, confirmed: seq<FeedbackMessage>)

  datatype Step =
    | Receive(topic: string, payload: Payload)
    | Enqueue
    | BrokerTakes
    | BrokerEmits
    | BrokerConfirms
    | HandlerTakes(refused: set<Group>)
    | Tick(refused: set<Group>)

  function Flush(tables: Tables, b: Batch): Tables {
    DeleteEach(tables, Accepted(b))
  }

  /** The tokens of a batch that reach the tables. */
  function Accepted(b: Batch): seq<InvalidToken> {
    Select(b.tokens, GroupsOf(b.tokens) - b.refused)
  }

  /** What the statements of the handler do to the tables is the flush of this system. */
  lemma FlushedIsFlush(before: Tables, after: Tables, tokens: seq<InvalidToken>,
                       verdict: Group -> Verdict, log: seq<Exec>)
    requires Flushed(before, after, tokens, verdict, log) && AllPlain(tokens)
    ensures after == Flush(before, Batch(tokens, set g | g in GroupsOf(tokens) && verdict(g).Refuse?))
  {
    var groups := GroupsOf(tokens);
    assert groups - (set g | g in groups && verdict(g).Refuse?) == Performed(groups, verdict);
  }

  predicate Enabled(cfg: Config, s: State, step: Step) {
    match step
    case Receive(topic, _) => s.consumer.Polling? && Topic.Parse(topic).Some?
    case Enqueue => s.consumer.Receiving? && |s.inChan| < cfg.inSize
    case BrokerTakes => s.broker.Waiting? && s.inChan != []
    case BrokerEmits => s.broker.Emitting? && |s.outChan| < cfg.outSize
    case BrokerConfirms => s.broker.Confirming?
    case HandlerTakes(_) => s.outChan != []
    case Tick(_) => true
  }

  function Apply(cfg: Config, s: State, step: Step): State
    requires Enabled(cfg, s, step)
  {
    match step
    case Receive(topic, payload) =>
      var parsed := Topic.Parse(topic).value;
      var m := FeedbackMessage(parsed.game, parsed.platform, payload);
      s.(consumer := Receiving(m), pending := s.pending + 1, received := s.received + [m])
    case Enqueue =>
      s.(consumer := Polling, inChan := s.inChan + [s.consumer.m])
    case BrokerTakes =>
      var m := s.inChan[0];
      s.(inChan := s.inChan[1..],
         broker := match Route(cfg.enabled, m) case None => Confirming(m) case Some(t) => Emitting(m, t))
    case BrokerEmits =>
      s.(broker := Confirming(s.broker.m), outChan := s.outChan + [s.broker.t])
    case BrokerConfirms =>
      s.(broker := Waiting, pending := s.pending - 1, confirmed := s.confirmed + [s.broker.m])
    case HandlerTakes(refused) =>
      var (buffer, flushed) := Buffered(cfg.bufferSize, s.buffer, s.outChan[0]);
      var s' := s.(outChan := s.outChan[1..], buffer := buffer);
      if flushed == [] then s'
      else
        var b := Batch(flushed[0], refused);
        s'.(batches := s.batches + [b], tables := Flush(s.tables, b))
    case Tick(refused) =>
      var b := Batch(s.buffer, refused);
      s.(buffer := [], batches := s.batches + [b], tables := Flush(s.tables, b))
  }

  function Init(tables: Tables): State {
    State(Polling, [], Waiting, [], [], [], tables, 0, [], [])
  }

  ghost predicate Runs(cfg: Config, s: State, steps: seq<Step>, s': State)
    decreases |steps|
  {
    if steps == [] then s == s'
    else Enabled(cfg, s, steps[0]) && Runs(cfg, Apply(cfg, s, steps[0]), steps[1..], s')
  }

  /** Some run from the given tables, with any arrivals, flushes and interleaving, ends in s. */
  ghost predicate Reachable(cfg: Config, tables: Tables, s: State) {
    exists steps :: Runs(cfg, Init(tables), steps, s)
  }

  // ---------- Where messages and tokens are ----------

  function OfConsumer(s: State): seq<FeedbackMessage> {
    if s.consumer.Receiving? then [s.consumer.m] else []
  }

  function OfBroker(s: State): seq<FeedbackMessage> {
    if s.broker.Waiting? then [] else [s.broker.m]
  }

  /** The token the broker has routed and not yet sent. */
  function InHand(s: State): seq<InvalidToken> {
    if s.broker.Emitting? then [s.broker.t] else []
  }

  function TokensOf(batches: seq<Batch>): seq<InvalidToken> {
    if batches == [] then [] else TokensOf(batches[..|batches| - 1]) + batches[|batches| - 1].tokens
  }

  /** The tokens that have reached the handler. */
  function Handled(s: State): seq<InvalidToken> {
    TokensOf(s.batches) + s.buffer
  }

  /** The tokens the broker has sent. */
  function Queued(s: State): seq<InvalidToken> {
    Handled(s) + s.outChan
  }

  function AcceptedOf(batches: seq<Batch>): seq<InvalidToken> {
    if batches == [] then [] else AcceptedOf(batches[..|batches| - 1]) + Accepted(batches[|batches| - 1])
  }

  lemma BatchesAppend(batches: seq<Batch>, b: Batch)
    ensures TokensOf(batches + [b]) == TokensOf(batches) + b.tokens
    ensures AcceptedOf(batches + [b]) == AcceptedOf(batches) + Accepted(b)
  {
    assert (batches + [b])[..|batches|] == batches;
  }

  lemma RouteAllAppend(enabled: bool, ms: seq<FeedbackMessage>, m: FeedbackMessage)
    ensures RouteAll(enabled, ms + [m]) == RouteAll(enabled, ms) + Tokens(Route(enabled, m))
  {
    assert (ms + [m])[..|ms|] == ms;
  }

  lemma {:induction false} DeleteEachConcat(tables: Tables, a: seq<InvalidToken>, b: seq<InvalidToken>)
    ensures DeleteEach(tables, a + b) == DeleteEach(DeleteEach(tables, a), b)
  {
    if b == [] {
      assert a + b == a;
    } else {
      assert (a + b)[..|a + b| - 1] == a + b[..|b| - 1];
      DeleteEachConcat(tables, a, b[..|b| - 1]);
    }
  }

  // ---------- What arrives ----------

  /** What the listener's consumer makes of a record. */
  function Consumed(topic: string, payload: Payload): Option<FeedbackMessage> {
    match Topic.Parse(topic)
    case None => None
    case Some(p) => Some(FeedbackMessage(p.game, p.platform, payload))
  }

  /** The messages of the records that a run receives, in order. */
  function Arrived(steps: seq<Step>): seq<FeedbackMessage> {
    if steps == [] then []
    else
      (match steps[0]
       case Receive(topic, payload) => (match Consumed(topic, payload) case Some(m) => [m] case None => [])
       case _ => [])
      + Arrived(steps[1..])
  }

  /** A run has received exactly the records it was sent, under the game and platform of their topics. */
  lemma {:induction false} RunReceives(cfg: Config, s: State, steps: seq<Step>, s': State)
    requires Runs(cfg, s, steps, s')
    ensures s'.received == s.received + Arrived(steps)
    decreases |steps|
  {
    if steps != [] {
      RunReceives(cfg, Apply(cfg, s, steps[0]), steps[1..], s');
    }
  }

  lemma {:induction false} ArrivedFrom(steps: seq<Step>, m: FeedbackMessage)
    ensures m in Arrived(steps) <==>
      exists topic, payload :: Receive(topic, payload) in steps && Consumed(topic, payload) == Some(m)
  {
    if steps != [] {
      ArrivedFrom(steps[1..], m);
      if topic, payload :| Receive(topic, payload) in steps && Consumed(topic, payload) == Some(m) {
        assert steps[0] == Receive(topic, payload) || Receive(topic, payload) in steps[1..];
      }
    }
  }

  // ---------- What every step keeps ----------

  /** Every message counted in is in one place, in order; the wait group counts those not released. */
  predicate MessagesKept(s: State) {
    && s.received == s.confirmed + OfBroker(s) + s.inChan + OfConsumer(s)
    && s.pending == |OfBroker(s)| + |s.inChan| + |OfConsumer(s)|
  }

  /** Every token routed is in one place, in order. */
  predicate TokensKept(cfg: Config, s: State) {
    && Queued(s) + InHand(s) == RouteAll(cfg.enabled, s.confirmed + OfBroker(s))
    && (s.broker.Emitting? ==> Route(cfg.enabled, s.broker.m) == Some(s.broker.t))
  }

  predicate Bounded(cfg: Config, s: State) {
    && |s.inChan| <= cfg.inSize && |s.outChan| <= cfg.outSize
    && |s.buffer| < Limit(cfg.bufferSize)
    && forall b | b in s.batches :: |b.tokens| <= Limit(cfg.bufferSize)
  }

  predicate GamesPlain(s: State) {
    forall m | m in s.received :: Topic.IsGame(m.game)
  }

  predicate Inv(cfg: Config, tables: Tables, s: State) {
    && MessagesKept(s) && TokensKept(cfg, s) && Bounded(cfg, s) && GamesPlain(s)
    && s.tables == DeleteEach(tables, AcceptedOf(s.batches))
  }

  lemma StepKeepsMessages(cfg: Config, s: State, step: Step)
    requires MessagesKept(s) && Enabled(cfg, s, step)
    ensures MessagesKept(Apply(cfg, s, step))
  {
  }

  lemma TickKeepsTokens(cfg: Config, s: State, step: Step)
    requires step.Tick? && Enabled(cfg, s, step)
    ensures Queued(Apply(cfg, s, step)) == Queued(s)
  {
    BatchesAppend(s.batches, Batch(s.buffer, step.refused));
    assert Handled(Apply(cfg, s, step)) == Handled(s);
  }

  lemma Reassociate(a: seq<InvalidToken>, b: seq<InvalidToken>, c: seq<InvalidToken>)
    ensures a + (b + c) == (a + b) + c
  {
  }

  lemma HandlerBuffers(cfg: Config, s: State, step: Step)
    requires step.HandlerTakes? && Enabled(cfg, s, step)
    ensures Handled(Apply(cfg, s, step)) == Handled(s) + [s.outChan[0]]
  {
    var longer := s.buffer + [s.outChan[0]];
    Reassociate(TokensOf(s.batches), s.buffer, [s.outChan[0]]);
    if |longer| >= cfg.bufferSize {
      BatchesAppend(s.batches, Batch(longer, step.refused));
      assert TokensOf(s.batches) + longer + [] == TokensOf(s.batches) + longer;
    }
  }

  lemma HandlerKeepsTokens(cfg: Config, s: State, step: Step)
    requires step.HandlerTakes? && Enabled(cfg, s, step)
    ensures Queued(Apply(cfg, s, step)) == Queued(s)
  {
    var t, rest := s.outChan[0], s.outChan[1..];
    HandlerBuffers(cfg, s, step);
    assert s.outChan == [t] + rest;
    Reassociate(Handled(s), [t], rest);
  }

  lemma QueuedDecides(cfg: Config, s: State, s': State)
    requires TokensKept(cfg, s) && s'.broker == s.broker && s'.confirmed == s.confirmed && Queued(s') == Queued(s)
    ensures TokensKept(cfg, s')
  {
  }

  lemma HandlerStepKeepsTokens(cfg: Config, s: State, step: Step)
    requires TokensKept(cfg, s) && Enabled(cfg, s, step) && (step.HandlerTakes? || step.Tick?)
    ensures TokensKept(cfg, Apply(cfg, s, step))
  {
    if step.Tick? {
      TickKeepsTokens(cfg, s, step);
    } else {
      HandlerKeepsTokens(cfg, s, step);
    }
    QueuedDecides(cfg, s, Apply(cfg, s, step));
  }

  lemma BrokerTakesKeepsTokens(cfg: Config, s: State)
    requires TokensKept(cfg, s) && Enabled(cfg, s, BrokerTakes)
    ensures TokensKept(cfg, Apply(cfg, s, BrokerTakes))
  {
    var s', m := Apply(cfg, s, BrokerTakes), s.inChan[0];
    assert s.confirmed + [] == s.confirmed && Queued(s) + [] == Queued(s);
    assert Queued(s') == Queued(s) && InHand(s') == Tokens(Route(cfg.enabled, m)) && OfBroker(s') == [m];
    RouteAllAppend(cfg.enabled, s.confirmed, m);
  }

  lemma BrokerEmitsKeepsTokens(cfg: Config, s: State)
    requires TokensKept(cfg, s) && Enabled(cfg, s, BrokerEmits)
    ensures TokensKept(cfg, Apply(cfg, s, BrokerEmits))
  {
    var s' := Apply(cfg, s, BrokerEmits);
    assert Queued(s') == Queued(s) + InHand(s) && Queued(s') + [] == Queued(s');
  }

  lemma BrokerConfirmsKeepsTokens(cfg: Config, s: State)
    requires TokensKept(cfg, s) && Enabled(cfg, s, BrokerConfirms)
    ensures TokensKept(cfg, Apply(cfg, s, BrokerConfirms))
  {
    var s' := Apply(cfg, s, BrokerConfirms);
    assert Queued(s') == Queued(s) && InHand(s') == InHand(s);
    assert s'.confirmed + OfBroker(s') == s.confirmed + OfBroker(s);
  }

  lemma StepKeepsTokens(cfg: Config, s: State, step: Step)
    requires TokensKept(cfg, s) && Enabled(cfg, s, step)
    ensures TokensKept(cfg, Apply(cfg, s, step))
  {
    match step
    case HandlerTakes(_) => HandlerStepKeepsTokens(cfg, s, step);
    case Tick(_) => HandlerStepKeepsTokens(cfg, s, step);
    case Receive(_, _) =>
    case Enqueue =>
    case BrokerTakes => BrokerTakesKeepsTokens(cfg, s);
    case BrokerEmits => BrokerEmitsKeepsTokens(cfg, s);
    case BrokerConfirms => BrokerConfirmsKeepsTokens(cfg, s);
  }

  lemma StepKeepsTables(cfg: Config, tables: Tables, s: State, step: Step)
    requires s.tables == DeleteEach(tables, AcceptedOf(s.batches)) && Enabled(cfg, s, step)
    ensures var s' := Apply(cfg, s, step); s'.tables == DeleteEach(tables, AcceptedOf(s'.batches))
  {
    var s' := Apply(cfg, s, step);
    if s'.batches != s.batches {
      var b := s'.batches[|s.batches|];
      BatchesAppend(s.batches, b);
      DeleteEachConcat(tables, AcceptedOf(s.batches), Accepted(b));
    }
  }

  lemma StepKeepsBounds(cfg: Config, s: State, step: Step)
    requires Bounded(cfg, s) && GamesPlain(s) && Enabled(cfg, s, step)
    ensures Bounded(cfg, Apply(cfg, s, step)) && GamesPlain(Apply(cfg, s, step))
  {
    if step.Receive? {
      TopicParsing.ParsedIsAnnounced(step.topic);
    }
  }

  lemma {:induction false} RunsKeepInv(cfg: Config, tables: Tables, s: State, steps: seq<Step>, s': State)
    requires Inv(cfg, tables, s) && Runs(cfg, s, steps, s')
    ensures Inv(cfg, tables, s')
    decreases |steps|
  {
    if steps != [] {
      StepKeepsMessages(cfg, s, steps[0]);
      StepKeepsTokens(cfg, s, steps[0]);
      StepKeepsBounds(cfg, s, steps[0]);
      StepKeepsTables(cfg, tables, s, steps[0]);
      RunsKeepInv(cfg, tables, Apply(cfg, s, steps[0]), steps[1..], s');
    }
  }

  lemma ReachableInv(cfg: Config, tables: Tables, s: State)
    requires Reachable(cfg, tables, s)
    ensures Inv(cfg, tables, s)
  {
    var steps :| Runs(cfg, Init(tables), steps, s);
    RunsKeepInv(cfg, tables, Init(tables), steps, s);
  }

  // ---------- What holds of every run ----------

  /** The flushed batches, then the buffer, the channel and the broker's hand are exactly the
      tokens of the messages the broker has taken, in order: none lost, repeated or reordered. */
  lemma TokensStayInOrder(cfg: Config, tables: Tables, s: State)
    requires Reachable(cfg, tables, s)
    ensures |s.confirmed| + |OfBroker(s)| <= |s.received|
    ensures TokensOf(s.batches) + s.buffer + s.outChan + InHand(s)
         == RouteAll(cfg.enabled, s.received[..|s.confirmed| + |OfBroker(s)|])
  {
    ReachableInv(cfg, tables, s);
    assert s.received[..|s.confirmed| + |OfBroker(s)|] == s.confirmed + OfBroker(s);
  }

  /** Messages are released once each, in order of arrival, and the wait group is never off. */
  lemma ReleasedInOrder(cfg: Config, tables: Tables, s: State)
    requires Reachable(cfg, tables, s)
    ensures s.confirmed <= s.received && s.pending == |s.received| - |s.confirmed| >= 0
    ensures s.pending == 0 <==> s.confirmed == s.received
    ensures s.pending == 0 ==> s.broker.Waiting? && s.inChan == [] && s.consumer.Polling?
  {
    ReachableInv(cfg, tables, s);
  }

  lemma BatchesAreBounded(cfg: Config, tables: Tables, s: State)
    requires Reachable(cfg, tables, s)
    ensures cfg.bufferSize >= 1 ==>
      |s.buffer| < cfg.bufferSize && forall b | b in s.batches :: |b.tokens| <= cfg.bufferSize
    ensures cfg.bufferSize < 1 ==> s.buffer == [] && forall b | b in s.batches :: |b.tokens| <= 1
  {
    ReachableInv(cfg, tables, s);
  }

  lemma GamesArePlain(g: string, platform: string)
    requires Topic.IsGame(g) && (platform == APNS_PLATFORM || platform == GCM_PLATFORM)
    ensures Plain(TableOf(g, platform))
  {
    forall k | 0 <= k < |g| ensures g[k] != ' ' {
      assert Topic.Inside(g, k);
    }
  }

  lemma {:induction false} RoutedFrom(enabled: bool, ms: seq<FeedbackMessage>, t: InvalidToken)
    ensures t in RouteAll(enabled, ms) <==> exists m | m in ms :: Route(enabled, m) == Some(t)
  {
    if ms != [] {
      var before, last := ms[..|ms| - 1], ms[|ms| - 1];
      assert ms == before + [last];
      RoutedFrom(enabled, before, t);
      assert t in RouteAll(enabled, ms) <==> t in RouteAll(enabled, before) || Route(enabled, last) == Some(t);
    }
  }

  lemma {:induction false} BatchInTokens(batches: seq<Batch>, b: Batch, t: InvalidToken)
    requires b in batches && t in b.tokens
    ensures t in TokensOf(batches)
  {
    if b != batches[|batches| - 1] {
      BatchInTokens(batches[..|batches| - 1], b, t);
    }
  }

  lemma RoutedIsGood(enabled: bool, ms: seq<FeedbackMessage>, t: InvalidToken)
    requires t in RouteAll(enabled, ms) && forall m | m in ms :: Topic.IsGame(m.game)
    ensures KnownPlatform(t) && Plain(TableOfToken(t))
  {
    RoutesKnownPlatforms(enabled, ms);
    RoutedFrom(enabled, ms, t);
    var m :| m in ms && Route(enabled, m) == Some(t);
    GamesArePlain(m.game, t.platform);
  }

  /** Every token the handler meets, now or in an earlier flush, has one of the two platforms that
      SplitTokens has a map for, and a table whose name reads as one word in the statement. */
  lemma HandlerMeetsOnlyGoodTokens(cfg: Config, tables: Tables, s: State, t: InvalidToken)
    requires Reachable(cfg, tables, s)
    requires t in s.outChan || t in s.buffer || exists b | b in s.batches :: t in b.tokens
    ensures KnownPlatform(t) && Plain(TableOfToken(t))
  {
    ReachableInv(cfg, tables, s);
    var routed := RouteAll(cfg.enabled, s.confirmed + OfBroker(s));
    if b :| b in s.batches && t in b.tokens {
      BatchInTokens(s.batches, b, t);
    }
    assert t in Queued(s) + InHand(s);
    assert routed == Queued(s) + InHand(s);
    RoutedIsGood(cfg.enabled, s.confirmed + OfBroker(s), t);
  }

  lemma {:induction false} AllAccepted(batches: seq<Batch>)
    requires forall b | b in batches :: b.refused * GroupsOf(b.tokens) == {}
    ensures AcceptedOf(batches) == TokensOf(batches)
  {
    if batches != [] {
      AllAccepted(batches[..|batches| - 1]);
      var b := batches[|batches| - 1];
      forall g | g in GroupsOf(b.tokens) ensures g !in b.refused {
        assert g in b.refused ==> g in b.refused * GroupsOf(b.tokens);
      }
      assert GroupsOf(b.tokens) - b.refused == GroupsOf(b.tokens);
      SelectAll(b.tokens, GroupsOf(b.tokens));
    }
  }

  /** However the tokens were batched, the tables are as if every accepted token had been deleted
      on its own. */
  lemma BatchingIsInvisible(cfg: Config, tables: Tables, s: State)
    requires Reachable(cfg, tables, s)
    ensures s.tables == DeleteEach(tables, AcceptedOf(s.batches))
    ensures (forall b | b in s.batches :: b.refused * GroupsOf(b.tokens) == {}) ==>
      s.tables == DeleteEach(tables, TokensOf(s.batches))
  {
    ReachableInv(cfg, tables, s);
    if forall b | b in s.batches :: b.refused * GroupsOf(b.tokens) == {} {
      AllAccepted(s.batches);
    }
  }

  /** Once nothing is under way and nothing was refused, the listener has done to the tables what
      deleting the token of every message received, one by one, would have done. */
  lemma DrainedMeansDeleted(cfg: Config, tables: Tables, s: State)
    requires Reachable(cfg, tables, s) && s.pending == 0 && s.outChan == [] && s.buffer == []
    requires forall b | b in s.batches :: b.refused * GroupsOf(b.tokens) == {}
    ensures s.tables == DeleteEach(tables, RouteAll(cfg.enabled, s.received))
  {
    ReleasedInOrder(cfg, tables, s);
    TokensStayInOrder(cfg, tables, s);
    BatchingIsInvisible(cfg, tables, s);
    assert s.received[..|s.confirmed|] == s.received;
    assert TokensOf(s.batches) + [] + [] + [] == TokensOf(s.batches);
  }

  // ---------- Progress ----------

  /** What is left to do before the buffer, in steps. */
  function Measure(s: State): nat {
    6 * |OfConsumer(s)| + 5 * |s.inChan| + 2 * |s.outChan|
    + match s.broker case Waiting => 0 case Emitting(_, _) => 4 case Confirming(_) => 1
  }

  predicate Works(step: Step) {
    !step.Receive? && !step.Tick?
  }

  lemma StepSpends(cfg: Config, s: State, step: Step)
    requires Enabled(cfg, s, step)
    ensures Works(step) ==> Measure(Apply(cfg, s, step)) < Measure(s)
    ensures step.Tick? ==> Measure(Apply(cfg, s, step)) == Measure(s)
  {
  }

  function Working(steps: seq<Step>): nat {
    if steps == [] then 0 else (if Works(steps[0]) then 1 else 0) + Working(steps[1..])
  }

  /** Without new messages, a run takes no more working steps than the measure has room for. */
  lemma {:induction false} RunsTerminate(cfg: Config, s: State, steps: seq<Step>, s': State)
    requires Runs(cfg, s, steps, s') && forall step | step in steps :: !step.Receive?
    ensures Working(steps) + Measure(s') <= Measure(s)
    decreases |steps|
  {
    if steps != [] {
      assert steps[0] in steps;
      StepSpends(cfg, s, steps[0]);
      RunsTerminate(cfg, Apply(cfg, s, steps[0]), steps[1..], s');
    }
  }

  /** With buffered channels, some working step is enabled until nothing is left before the buffer. */
  lemma SomeStepIsEnabled(cfg: Config, s: State) returns (step: Step)
    requires cfg.Valid() && Measure(s) > 0
    ensures Works(step) && Enabled(cfg, s, step)
  {
    step := if s.outChan != [] then HandlerTakes({})
            else if s.broker.Emitting? then BrokerEmits
            else if s.broker.Confirming? then BrokerConfirms
            else if s.inChan != [] then BrokerTakes
            else Enqueue;
  }

  /** From every reachable state the listener can finish everything it has received: wait group at
      zero, buffer flushed, no message added. */
  lemma {:induction false} CanDrain(cfg: Config, s: State) returns (steps: seq<Step>, s': State)
    requires cfg.Valid() && MessagesKept(s)
    ensures Runs(cfg, s, steps, s') && forall step | step in steps :: !step.Receive?
    ensures s'.pending == 0 && s'.outChan == [] && s'.buffer == [] && s'.received == s.received
    decreases Measure(s)
  {
    if Measure(s) == 0 {
      var last := Tick({});
      s' := Apply(cfg, s, last);
      steps := [last];
      assert steps[1..] == [] && Runs(cfg, s', [], s');
    } else {
      var step := SomeStepIsEnabled(cfg, s);
      StepSpends(cfg, s, step);
      StepKeepsMessages(cfg, s, step);
      steps, s' := CanDrain(cfg, Apply(cfg, s, step));
      assert ([step] + steps)[1..] == steps;
      steps := [step] + steps;
    }
  }
}
