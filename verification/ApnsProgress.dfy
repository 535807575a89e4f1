/** Termination and progress of the APNS sender: every run without arrivals is finite, and the one
    way to get stuck is a lane filled to the brim while its response goroutine waits to push a
    retry. That jam is permanent, and can be reached exactly when retries are configured. */
module ApnsProgress {
  import opened ApnsLedger
  import opened ApnsPipeline
  import opened ApnsReasons
  import opened Sums

  // ---------- Termination ----------

  /** Pushes a notification may still get. */
  function Left(cfg: Config, n: Notification): nat {
    if n.attempts < cfg.maxAttempts then cfg.maxAttempts - n.attempts else 0
  }

  /** A notification may spend eight steps per push it has left, and its distance to the end of
      the current push. */
  function FuelOf(cfg: Config, stage: nat, n: Notification): nat {
    8 * Left(cfg, n) + stage
  }

  function Fuel(cfg: Config, stage: nat): Notification -> nat {
    (n: Notification) => FuelOf(cfg, stage, n)
  }

  function ReplyFuel(cfg: Config): Response -> nat {
    (r: Response) => FuelOf(cfg, 3, r.n)
  }

  function WorkerFuelOf(cfg: Config, w: Worker): nat {
    match w
    case Waiting => 0
    case Pushing(n) => FuelOf(cfg, 5, n)
    case Replying(r) => FuelOf(cfg, 4, r.n)
  }

  function WorkerFuel(cfg: Config): Worker -> nat {
    (w: Worker) => WorkerFuelOf(cfg, w)
  }

  function ResponderFuel(cfg: Config, p: Responder): nat {
    match p
    case Listening => 0
    case Handling(r) => FuelOf(cfg, 2, r.n)
    case Retrying(n) => FuelOf(cfg, 7, n)
    case Confirmed(_) => 1
  }

  function LaneFuel(cfg: Config): Lane -> nat {
    (lane: Lane) =>
      Sum(Fuel(cfg, 6), lane.queue) + Sum(WorkerFuel(cfg), lane.workers)
      + Sum(ReplyFuel(cfg), lane.replies) + ResponderFuel(cfg, lane.responder)
  }

  /** What one arrival may cost. */
  function ArrivalFuel(cfg: Config): nat {
    8 * cfg.maxAttempts + 11
  }

  function InboxFuel(cfg: Config): Message -> nat {
    (m: Message) => 8 * cfg.maxAttempts + 10
  }

  function Measure(cfg: Config, s: State): nat {
    (if s.consumer.Receiving? then ArrivalFuel(cfg) else 0)
    + Sum(InboxFuel(cfg), s.inbox)
    + (match s.router
       case Routing => 0
       case Checking(_, _) => 8 * cfg.maxAttempts + 9
       case Sending(n, _) => FuelOf(cfg, 8, n)
       case Counting(_) => 1)
    + Sum(LaneFuel(cfg), s.lanes)
  }

  lemma LaneStepSpends(cfg: Config, lane: Lane, step: LaneStep)
    requires LaneEnabled(cfg, lane, step)
    ensures LaneFuel(cfg)(LaneApply(cfg, lane, step)) < LaneFuel(cfg)(lane)
  {
    var lane' := LaneApply(cfg, lane, step);
    match step
    case WorkerTakes(w) => SumUpdate(WorkerFuel(cfg), lane.workers, w, lane'.workers[w]);
    case ClientAnswers(w, _) => SumUpdate(WorkerFuel(cfg), lane.workers, w, lane'.workers[w]);
    case ClientFails(w) => SumUpdate(WorkerFuel(cfg), lane.workers, w, lane'.workers[w]);
    case WorkerReplies(w) =>
      SumUpdate(WorkerFuel(cfg), lane.workers, w, lane'.workers[w]);
      SumAppend(ReplyFuel(cfg), lane.replies, lane.workers[w].r);
    case ResponderPushes => SumAppend(Fuel(cfg, 6), lane.queue, lane.responder.n);
    case _ =>
  }

  /** An arrival adds its fuel; every other step, retries included, burns some. */
  lemma StepSpends(cfg: Config, s: State, step: Step)
    requires Enabled(cfg, s, step)
    ensures var s' := Apply(cfg, s, step);
      if step.Receive? then Measure(cfg, s') == Measure(cfg, s) + ArrivalFuel(cfg)
      else Measure(cfg, s') < Measure(cfg, s)
  {
    var s' := Apply(cfg, s, step);
    match step
    case Enqueue => SumAppend(InboxFuel(cfg), s.inbox, s.consumer.msg);
    case Push =>
      var l := s.router.lane;
      SumAppend(Fuel(cfg, 6), s.lanes[l].queue, s.router.n);
      SumUpdate(LaneFuel(cfg), s.lanes, l, s'.lanes[l]);
    case CountSent =>
      var l := s.router.lane;
      SumUpdate(LaneFuel(cfg), s.lanes, l, s'.lanes[l]);
    case InLane(l, ls) =>
      LaneStepSpends(cfg, s.lanes[l], ls);
      SumUpdate(LaneFuel(cfg), s.lanes, l, s'.lanes[l]);
    case _ =>
  }

  function Arrivals(steps: seq<Step>): nat {
    if steps == [] then 0 else (if steps[0].Receive? then 1 else 0) + Arrivals(steps[1..])
  }

  lemma MulSucc(k: nat, a: nat)
    ensures k * (a + 1) == k * a + k
  {
  }

  lemma {:induction false} RunSpends(cfg: Config, s: State, steps: seq<Step>)
    requires Runs(cfg, s, steps)
    ensures Measure(cfg, Exec(cfg, s, steps)) + |steps| <= Measure(cfg, s) + (ArrivalFuel(cfg) + 1) * Arrivals(steps)
    decreases |steps|
  {
    if steps != [] {
      StepSpends(cfg, s, steps[0]);
      RunSpends(cfg, Apply(cfg, s, steps[0]), steps[1..]);
      MulSucc(ArrivalFuel(cfg) + 1, Arrivals(steps[1..]));
    }
  }

  /** A run has at most a fixed number of steps per arrival, whatever APNS answers. */
  lemma RunsTerminate(cfg: Config, steps: seq<Step>)
    requires Runs(cfg, Init(cfg), steps)
    ensures |steps| <= (8 * cfg.maxAttempts + 12) * Arrivals(steps)
  {
    RunSpends(cfg, Init(cfg), steps);
    var lane := EmptyLane(cfg);
    SumZero(WorkerFuel(cfg), lane.workers);
    SumZero(LaneFuel(cfg), Init(cfg).lanes);
  }

  // ---------- Progress ----------

  /** Nothing can happen but an arrival. */
  ghost predicate Quiet(cfg: Config, s: State) {
    forall step | Enabled(cfg, s, step) :: step.Receive?
  }

  predicate Jammed(cfg: Config, lane: Lane) {
    && lane.responder.Retrying? && |lane.queue| == cfg.queueSize && |lane.replies| == cfg.replySize
    && forall i | 0 <= i < |lane.workers| :: lane.workers[i].Replying?
  }

  predicate Idle(lane: Lane) {
    EmptyOfMessages(lane) && lane.responder.Listening?
  }

  predicate FrontIdle(s: State) {
    s.consumer.Polling? && s.inbox == [] && s.router.Routing?
  }

  predicate Finished(s: State) {
    FrontIdle(s) && forall l | 0 <= l < |s.lanes| :: Idle(s.lanes[l])
  }

  predicate FrontBlocked(cfg: Config, s: State) {
    && s.router.Sending? && s.router.lane < |s.lanes| && Jammed(cfg, s.lanes[s.router.lane])
    && (s.consumer.Polling? || |s.inbox| == cfg.inboxSize)
  }

  ghost predicate LaneQuiet(cfg: Config, lane: Lane) {
    forall step :: !LaneEnabled(cfg, lane, step)
  }

  /** A lane has nothing to do exactly when it is idle or jammed. */
  lemma LaneQuietIff(cfg: Config, lane: Lane)
    requires cfg.Valid() && Bounded(cfg, lane)
    ensures LaneQuiet(cfg, lane) <==> Idle(lane) || Jammed(cfg, lane)
  {
    if LaneQuiet(cfg, lane) {
      forall i | 0 <= i < |lane.workers|
        ensures !lane.workers[i].Pushing?
        ensures lane.workers[i].Waiting? ==> lane.queue == []
        ensures lane.workers[i].Replying? ==> |lane.replies| == cfg.replySize
      {
        assert !LaneEnabled(cfg, lane, ClientFails(i));
        assert !LaneEnabled(cfg, lane, WorkerTakes(i));
        assert !LaneEnabled(cfg, lane, WorkerReplies(i));
      }
      assert !LaneEnabled(cfg, lane, ResponderTakes) && !LaneEnabled(cfg, lane, ResponderPushes);
      assert !LaneEnabled(cfg, lane, ResponderRetries) && !LaneEnabled(cfg, lane, ResponderConfirms);
      assert !LaneEnabled(cfg, lane, ResponderReports);
      if lane.responder.Listening? {
        assert lane.workers[0].Waiting?;
        assert forall i | 0 <= i < |lane.workers| :: lane.workers[i].Waiting?;
      } else {
        assert lane.workers[0].Replying?;
      }
    }
    if Idle(lane) {
      assert forall i | 0 <= i < |lane.workers| :: lane.workers[i].Waiting?;
    }
  }

  /** A reachable state is stuck exactly when every lane is idle or jammed and the front is idle
      or blocked on a jammed lane. */
  lemma QuietIff(cfg: Config, s: State)
    requires cfg.Valid() && Inv(cfg, s)
    ensures Quiet(cfg, s) <==>
      && (FrontIdle(s) || FrontBlocked(cfg, s))
      && forall l | 0 <= l < |s.lanes| :: Idle(s.lanes[l]) || Jammed(cfg, s.lanes[l])
  {
    forall l | 0 <= l < |s.lanes| ensures LaneQuiet(cfg, s.lanes[l]) <==> Idle(s.lanes[l]) || Jammed(cfg, s.lanes[l]) {
      assert LaneInv(cfg, s.lanes[l]);
      LaneQuietIff(cfg, s.lanes[l]);
    }
    if Quiet(cfg, s) {
      forall l | 0 <= l < |s.lanes| ensures LaneQuiet(cfg, s.lanes[l]) {
        forall ls ensures !LaneEnabled(cfg, s.lanes[l], ls) {
          assert !Enabled(cfg, s, InLane(l, ls));
        }
      }
      assert !Enabled(cfg, s, Enqueue) && !Enabled(cfg, s, Route) && !Enabled(cfg, s, Discard);
      assert !Enabled(cfg, s, Push) && !Enabled(cfg, s, CountSent);
    } else if forall l | 0 <= l < |s.lanes| :: Idle(s.lanes[l]) || Jammed(cfg, s.lanes[l]) {
      var step :| Enabled(cfg, s, step) && !step.Receive?;
      assert step.InLane? ==> LaneQuiet(cfg, s.lanes[step.l]);
    }
  }

  lemma {:induction false} SumOfOnes<T>(f: T -> nat, s: seq<T>)
    requires forall x | x in s :: f(x) == 1
    ensures Sum(f, s) == |s|
  {
    if s != [] {
      SumOfOnes(f, s[1..]);
    }
  }

  /** What one lane can hold while its response goroutine is free. */
  function Capacity(cfg: Config): nat {
    cfg.queueSize + cfg.replySize + cfg.workers
  }

  lemma JammedHolds(cfg: Config, lane: Lane)
    requires Bounded(cfg, lane) && Jammed(cfg, lane)
    ensures Outstanding(One(), lane) == Capacity(cfg) + 1
  {
    SumOfOnes(OfNotification(One()), lane.queue);
    SumOfOnes(OfWorker(One()), lane.workers);
    SumOfOnes(OfResponse(One()), lane.replies);
  }

  /** While no lane holds more than its queues and workers can, unfinished work can always move. */
  lemma ProgressWithinCapacity(cfg: Config, s: State)
    requires cfg.Valid() && Reachable(cfg, s)
    requires forall l | 0 <= l < |s.lanes| :: Outstanding(One(), s.lanes[l]) <= Capacity(cfg)
    ensures Quiet(cfg, s) <==> Finished(s)
  {
    ReachableInv(cfg, s);
    QuietIff(cfg, s);
    forall l | 0 <= l < |s.lanes| ensures !Jammed(cfg, s.lanes[l]) {
      assert LaneInv(cfg, s.lanes[l]);
      if Jammed(cfg, s.lanes[l]) {
        JammedHolds(cfg, s.lanes[l]);
      }
    }
  }

  /** A jammed lane never moves again, whatever the rest of the system does: only the router may
      still report a push it already made. */
  lemma JamIsForever(cfg: Config, s: State, step: Step, l: nat)
    requires cfg.Valid() && Inv(cfg, s) && l < |s.lanes| && Jammed(cfg, s.lanes[l]) && Enabled(cfg, s, step)
    ensures var s' := Apply(cfg, s, step);
      l < |s'.lanes| && s'.lanes[l] == s.lanes[l].(sent := s'.lanes[l].sent) && Jammed(cfg, s'.lanes[l])
  {
    assert LaneInv(cfg, s.lanes[l]);
    LaneQuietIff(cfg, s.lanes[l]);
    if step.InLane? && step.l == l {
      assert false;
    }
  }

  lemma {:induction false} JamOutlastsRuns(cfg: Config, s: State, steps: seq<Step>, l: nat)
    requires cfg.Valid() && Inv(cfg, s) && l < |s.lanes| && Jammed(cfg, s.lanes[l]) && Runs(cfg, s, steps)
    ensures var s' := Exec(cfg, s, steps);
      l < |s'.lanes| && Jammed(cfg, s'.lanes[l])
      && s'.pending >= Capacity(cfg) + 1
    decreases |steps|
  {
    if steps == [] {
      assert LaneInv(cfg, s.lanes[l]);
      JammedHolds(cfg, s.lanes[l]);
      Shares(One(), cfg, s);
      SumMember(Unsettled(One()), s.lanes, s.lanes[l]);
      SumOne(s.confirmed);
      TotalOne(s.arrived);
    } else {
      JamIsForever(cfg, s, steps[0], l);
      StepKeepsInv(cfg, s, steps[0]);
      JamOutlastsRuns(cfg, Apply(cfg, s, steps[0]), steps[1..], l);
    }
  }

  // ---------- The jam can be reached ----------

  /** The front is idle, only lane l was used, and its response goroutine waits to push a retry. */
  ghost predicate Filling(cfg: Config, s: State, l: nat) {
    && Reachable(cfg, s) && FrontIdle(s) && l < |s.lanes| == cfg.apps
    && (forall k | 0 <= k < |s.lanes| && k != l :: s.lanes[k] == EmptyLane(cfg))
    && |s.lanes[l].workers| == cfg.workers
  }

  /** The lane after `count` of its workers, from the left, got stuck with an answer. */
  predicate Stuck(lane: Lane, count: nat) {
    forall i | 0 <= i < |lane.workers| :: if i < count then lane.workers[i].Replying? else lane.workers[i].Waiting?
  }

  lemma Overwrite<T>(s: seq<T>, i: nat, x: T, y: T)
    requires i < |s|
    ensures s[i := x][i := y] == s[i := y]
  {
  }

  lemma Walk(cfg: Config, s: State, step: Step) returns (s': State)
    requires Reachable(cfg, s) && Enabled(cfg, s, step)
    ensures Reachable(cfg, s') && s' == Apply(cfg, s, step)
  {
    ReachableStep(cfg, s, step);
    s' := Apply(cfg, s, step);
  }

  /** One more message reaches the push queue; the router is about to report it. */
  lemma Deliver(cfg: Config, s: State, game: string) returns (s': State)
    requires game in cfg.handlers && cfg.inboxSize >= 1 && Reachable(cfg, s) && FrontIdle(s)
    requires cfg.handlers[game] < |s.lanes| && |s.lanes[cfg.handlers[game]].queue| < cfg.queueSize
    ensures Reachable(cfg, s')
    ensures var l := cfg.handlers[game]; var lane := s.lanes[l];
      s' == s.(router := Counting(l), pending := s.pending + 1, arrived := s.arrived + 1, games := s.games + [game],
               lanes := s.lanes[l := FirstPush(lane, Notification(s.arrived, 1))])
  {
    s' := Walk(cfg, s, Receive(game));
    s' := Walk(cfg, s', Enqueue);
    s' := Walk(cfg, s', Route);
    s' := Walk(cfg, s', Accept);
    s' := Walk(cfg, s', Push);
  }

  lemma Feed(cfg: Config, s: State, game: string) returns (s': State)
    requires game in cfg.handlers && Filling(cfg, s, cfg.handlers[game])
    requires |s.lanes[cfg.handlers[game]].queue| < cfg.queueSize && cfg.inboxSize >= 1
    ensures Filling(cfg, s', cfg.handlers[game]) && s'.arrived == s.arrived + 1
    ensures var lane, lane' := s.lanes[cfg.handlers[game]], s'.lanes[cfg.handlers[game]];
      && lane'.queue == lane.queue + [Notification(s.arrived, 1)] && lane'.workers == lane.workers
      && lane'.replies == lane.replies && lane'.responder == lane.responder
  {
    s' := Deliver(cfg, s, game);
    s' := Walk(cfg, s', CountSent);
  }

  /** A waiting worker takes the head of the queue and gets an answer for it. */
  lemma Serve(cfg: Config, s: State, l: nat, w: nat, reason: string) returns (s': State)
    requires Reachable(cfg, s) && l < |s.lanes| && w < |s.lanes[l].workers|
    requires s.lanes[l].workers[w].Waiting? && s.lanes[l].queue != []
    ensures Reachable(cfg, s')
    ensures var lane := s.lanes[l];
      s' == s.(lanes := s.lanes[l := lane.(queue := lane.queue[1..],
                 workers := lane.workers[w := Replying(Response(lane.queue[0], reason))],
                 answers := lane.answers.(given := lane.answers.given + [Response(lane.queue[0], reason)]))])
  {
    s' := Walk(cfg, s, InLane(l, WorkerTakes(w)));
    var taken := s'.lanes[l];
    s' := Walk(cfg, s', InLane(l, ClientAnswers(w, reason)));
    Overwrite(s.lanes[l].workers, w, taken.workers[w], s'.lanes[l].workers[w]);
    Overwrite(s.lanes, l, taken, s'.lanes[l]);
  }

  lemma StartRetry(cfg: Config, game: string) returns (s: State)
    requires cfg.Valid() && cfg.maxAttempts >= 2 && game in cfg.handlers
    ensures Filling(cfg, s, cfg.handlers[game]) && s.arrived == 1
    ensures var lane := s.lanes[cfg.handlers[game]];
      lane.responder.Retrying? && lane.queue == [] && lane.replies == [] && Stuck(lane, 0)
  {
    var l := cfg.handlers[game];
    s := Init(cfg);
    assert Runs(cfg, s, []) && Exec(cfg, s, []) == s;
    s := Feed(cfg, s, game);
    s := Serve(cfg, s, l, 0, TOO_MANY_REQUESTS);
    s := Walk(cfg, s, InLane(l, WorkerReplies(0)));
    s := Walk(cfg, s, InLane(l, ResponderTakes));
    s := Walk(cfg, s, InLane(l, ResponderRetries));
  }

  lemma {:induction false} FillReplies(cfg: Config, s: State, game: string) returns (s': State)
    requires cfg.Valid() && game in cfg.handlers && Filling(cfg, s, cfg.handlers[game])
    requires var lane := s.lanes[cfg.handlers[game]];
      lane.responder.Retrying? && lane.queue == [] && Stuck(lane, 0) && |lane.replies| <= cfg.replySize
    ensures Filling(cfg, s', cfg.handlers[game])
    ensures s'.arrived == s.arrived + cfg.replySize - |s.lanes[cfg.handlers[game]].replies|
    ensures var lane := s'.lanes[cfg.handlers[game]];
      lane.responder.Retrying? && lane.queue == [] && Stuck(lane, 0) && |lane.replies| == cfg.replySize
    decreases cfg.replySize - |s.lanes[cfg.handlers[game]].replies|
  {
    var l := cfg.handlers[game];
    s' := s;
    if |s.lanes[l].replies| < cfg.replySize {
      s' := Feed(cfg, s', game);
      s' := Serve(cfg, s', l, 0, SUCCESS);
      s' := Walk(cfg, s', InLane(l, WorkerReplies(0)));
      s' := FillReplies(cfg, s', game);
    }
  }

  lemma {:induction false} FillWorkers(cfg: Config, s: State, game: string, w: nat) returns (s': State)
    requires cfg.Valid() && game in cfg.handlers && Filling(cfg, s, cfg.handlers[game]) && w <= cfg.workers
    requires var lane := s.lanes[cfg.handlers[game]];
      lane.responder.Retrying? && lane.queue == [] && Stuck(lane, w) && |lane.replies| == cfg.replySize
    ensures Filling(cfg, s', cfg.handlers[game]) && s'.arrived == s.arrived + cfg.workers - w
    ensures var lane := s'.lanes[cfg.handlers[game]];
      lane.responder.Retrying? && lane.queue == [] && Stuck(lane, cfg.workers) && |lane.replies| == cfg.replySize
    decreases cfg.workers - w
  {
    s' := s;
    if w < cfg.workers {
      s' := Feed(cfg, s', game);
      s' := Serve(cfg, s', cfg.handlers[game], w, SUCCESS);
      s' := FillWorkers(cfg, s', game, w + 1);
    }
  }

  lemma {:induction false} FillQueue(cfg: Config, s: State, game: string) returns (s': State)
    requires cfg.Valid() && game in cfg.handlers && Filling(cfg, s, cfg.handlers[game])
    requires var lane := s.lanes[cfg.handlers[game]];
      && lane.responder.Retrying? && |lane.queue| <= cfg.queueSize
      && Stuck(lane, cfg.workers) && |lane.replies| == cfg.replySize
    ensures Filling(cfg, s', cfg.handlers[game]) && Jammed(cfg, s'.lanes[cfg.handlers[game]])
    ensures s'.arrived == s.arrived + cfg.queueSize - |s.lanes[cfg.handlers[game]].queue|
    decreases cfg.queueSize - |s.lanes[cfg.handlers[game]].queue|
  {
    s' := s;
    if |s.lanes[cfg.handlers[game]].queue| < cfg.queueSize {
      s' := Feed(cfg, s', game);
      s' := FillQueue(cfg, s', game);
    }
  }

  /** With retries configured, P + R + W + 1 messages suffice to stop a lane, and so the program. */
  lemma JamReachable(cfg: Config) returns (s: State)
    requires cfg.Valid() && cfg.maxAttempts >= 2
    ensures Reachable(cfg, s) && Quiet(cfg, s) && s.arrived == Capacity(cfg) + 1
    ensures exists l | 0 <= l < |s.lanes| :: Jammed(cfg, s.lanes[l])
  {
    var game :| game in cfg.handlers;
    s := StartRetry(cfg, game);
    s := FillReplies(cfg, s, game);
    s := FillWorkers(cfg, s, game, 0);
    s := FillQueue(cfg, s, game);
    ReachableInv(cfg, s);
    QuietIff(cfg, s);
  }

  /** The sender is free of deadlock: it only comes to rest when every message that was not
      stranded has been confirmed and reported. */
  ghost predicate DeadlockFree(cfg: Config) {
    forall s | Reachable(cfg, s) && Quiet(cfg, s) :: Finished(s)
  }

  /** The same of the runs in which at most k messages arrive. */
  ghost predicate DeadlockFreeUpTo(cfg: Config, k: nat) {
    forall s | Reachable(cfg, s) && Quiet(cfg, s) && s.arrived <= k :: Finished(s)
  }

  /** A jam takes retries, and more arrivals than the lane can hold. */
  lemma JamNeeds(cfg: Config, s: State, l: nat)
    requires cfg.Valid() && Inv(cfg, s) && l < |s.lanes| && Jammed(cfg, s.lanes[l])
    ensures cfg.maxAttempts >= 2 && s.arrived >= Capacity(cfg) + 1
  {
    assert LaneInv(cfg, s.lanes[l]);
    JammedHolds(cfg, s.lanes[l]);
    Shares(One(), cfg, s);
    SumMember(Unsettled(One()), s.lanes, s.lanes[l]);
    TotalOne(s.arrived);
  }

  lemma FinishedUnlessJammed(cfg: Config, s: State)
    requires cfg.Valid() && Reachable(cfg, s) && Quiet(cfg, s)
    requires cfg.maxAttempts <= 1 || s.arrived <= Capacity(cfg)
    ensures Finished(s)
  {
    ReachableInv(cfg, s);
    QuietIff(cfg, s);
    forall l | 0 <= l < |s.lanes| ensures !Jammed(cfg, s.lanes[l]) {
      if Jammed(cfg, s.lanes[l]) {
        JamNeeds(cfg, s, l);
      }
    }
  }

  /** The exact condition: retries switched off. */
  lemma DeadlockFreeIff(cfg: Config)
    requires cfg.Valid()
    ensures DeadlockFree(cfg) <==> cfg.maxAttempts <= 1
  {
    if cfg.maxAttempts <= 1 {
      forall s | Reachable(cfg, s) && Quiet(cfg, s) ensures Finished(s) {
        FinishedUnlessJammed(cfg, s);
      }
    } else {
      var s := JamReachable(cfg);
    }
  }

  /** With retries on, the sender is safe for exactly as many messages as one lane can hold. */
  lemma DeadlockFreeUpToIff(cfg: Config, k: nat)
    requires cfg.Valid()
    ensures DeadlockFreeUpTo(cfg, k) <==> cfg.maxAttempts <= 1 || k <= cfg.queueSize + cfg.replySize + cfg.workers
  {
    if cfg.maxAttempts <= 1 || k <= Capacity(cfg) {
      forall s | Reachable(cfg, s) && Quiet(cfg, s) && s.arrived <= k ensures Finished(s) {
        FinishedUnlessJammed(cfg, s);
      }
    } else {
      var s := JamReachable(cfg);
    }
  }

  // ---------- What a resting sender has released ----------

  lemma IdleLaneHoldsTheLost(lane: Lane, id: nat)
    requires Idle(lane)
    ensures Unsettled(Is(id))(lane) == 0 <==> id !in lane.dropped
  {
    SumZero(OfWorker(Is(id)), lane.workers);
    SumIs(id, lane.dropped);
  }

  /** Of a sender that has finished, and so of every one at rest that does not retry, the messages
      released are exactly those not stranded: by an unknown game or a push without a response. */
  lemma RestReleases(cfg: Config, s: State, id: nat)
    requires cfg.Valid() && Reachable(cfg, s) && id < s.arrived
    requires Finished(s) || (Quiet(cfg, s) && cfg.maxAttempts <= 1)
    ensures id in s.confirmed <==> !Stranded(s, id)
  {
    if !Finished(s) {
      FinishedUnlessJammed(cfg, s);
    }
    ExactlyOnePlace(cfg, s, id);
    SumZero(Unsettled(Is(id)), s.lanes);
    forall l | 0 <= l < |s.lanes| ensures Unsettled(Is(id))(s.lanes[l]) == 0 <==> id !in s.lanes[l].dropped {
      IdleLaneHoldsTheLost(s.lanes[l], id);
    }
  }

  /** A message of a game without a handler is stranded by the router. */
  lemma UnknownGameStrands(cfg: Config, game: string) returns (s: State)
    requires cfg.Valid() && game !in cfg.handlers
    ensures Reachable(cfg, s) && s.arrived == 1 && 0 in s.unknown && Stranded(s, 0)
  {
    s := Init(cfg);
    assert Runs(cfg, s, []) && Exec(cfg, s, []) == s;
    s := Walk(cfg, s, Receive(game));
    s := Walk(cfg, s, Enqueue);
    s := Walk(cfg, s, Route);
  }

  /** A push that comes back without a response strands its message, in every configuration. */
  lemma NoResponseStrands(cfg: Config, game: string) returns (s: State)
    requires cfg.Valid() && game in cfg.handlers
    ensures Reachable(cfg, s) && s.arrived == 1 && Stranded(s, 0)
    ensures cfg.handlers[game] < |s.lanes| && 0 in s.lanes[cfg.handlers[game]].dropped
  {
    var l := cfg.handlers[game];
    s := Init(cfg);
    assert Runs(cfg, s, []) && Exec(cfg, s, []) == s;
    s := Deliver(cfg, s, game);
    s := Walk(cfg, s, InLane(l, WorkerTakes(0)));
    s := Walk(cfg, s, InLane(l, ClientFails(0)));
    assert s.lanes[l].dropped == [0];
  }

  // ---------- A result may overtake the report of its push ----------

  /** The "sent" metric can lag behind the results: a success is reported before any push is. */
  lemma ResultsOvertakeSent(cfg: Config) returns (s: State)
    requires cfg.Valid()
    ensures Reachable(cfg, s) && exists l | 0 <= l < |s.lanes| :: |s.lanes[l].acked| == 1 && s.lanes[l].sent == 0
  {
    var game :| game in cfg.handlers;
    var l := cfg.handlers[game];
    s := Init(cfg);
    assert Runs(cfg, s, []) && Exec(cfg, s, []) == s;
    s := Deliver(cfg, s, game);
    s := Serve(cfg, s, l, 0, SUCCESS);
    s := Walk(cfg, s, InLane(l, WorkerReplies(0)));
    s := Walk(cfg, s, InLane(l, ResponderTakes));
    s := Walk(cfg, s, InLane(l, ResponderConfirms));
    s := Walk(cfg, s, InLane(l, ResponderReports));
    assert |s.lanes[l].acked| == 1 && s.lanes[l].sent == 0;
  }
}
