/** What every reachable state of the APNS sender keeps: the wait-group ledger, the count of send
    attempts, and the metrics. Places are weighed by a function g of the ids they hold, so that one
    balance gives both the counts (weight one) and the fate of a single id (weight `Is(id)`). */
module ApnsLedger {
  import opened ApnsPipeline
  import opened Sums

  // ---------- Weights of places ----------

  function OfNotification(g: nat -> nat): Notification -> nat {
    (n: Notification) => g(n.id)
  }

  function OfResponse(g: nat -> nat): Response -> nat {
    (r: Response) => g(r.n.id)
  }

  function OfMessage(g: nat -> nat): Message -> nat {
    (m: Message) => g(m.id)
  }

  function WorkerWeight(g: nat -> nat, w: Worker): nat {
    match w
    case Waiting => 0
    case Pushing(n) => g(n.id)
    case Replying(r) => g(r.n.id)
  }

  function OfWorker(g: nat -> nat): Worker -> nat {
    (w: Worker) => WorkerWeight(g, w)
  }

  /** Held by the response goroutine: not confirmed yet, and confirmed but not reported yet. */
  function OfResponder(g: nat -> nat, p: Responder): nat {
    match p
    case Handling(r) => g(r.n.id)
    case Retrying(n) => g(n.id)
    case _ => 0
  }

  function OfConfirmed(g: nat -> nat, p: Responder): nat {
    if p.Confirmed? then g(p.r.n.id) else 0
  }

  /** What a lane holds unconfirmed. */
  function Outstanding(g: nat -> nat, lane: Lane): nat {
    Sum(OfNotification(g), lane.queue) + Sum(OfWorker(g), lane.workers)
    + Sum(OfResponse(g), lane.replies) + OfResponder(g, lane.responder)
  }

  /** What a lane has released from the wait group. */
  function Settled(g: nat -> nat): Lane -> nat {
    (lane: Lane) => OfConfirmed(g, lane.responder) + Sum(g, lane.acked) + Sum(g, lane.failed)
  }

  /** What a lane has not released: outstanding, or lost to a push without a response. */
  function Unsettled(g: nat -> nat): Lane -> nat {
    (lane: Lane) => Outstanding(g, lane) + Sum(g, lane.dropped)
  }

  function Pushed(g: nat -> nat): Lane -> nat {
    (lane: Lane) => Sum(g, lane.pushed)
  }

  /** What sits between the consumer and the first push. */
  function Front(g: nat -> nat, s: State): nat {
    (if s.consumer.Receiving? then g(s.consumer.msg.id) else 0)
    + Sum(OfMessage(g), s.inbox)
    + (match s.router
       case Checking(id, _) => g(id)
       case Sending(n, _) => g(n.id)
       case _ => 0)
  }

  // ---------- Invariants ----------

  function MaxPushes(cfg: Config): nat {
    if cfg.maxAttempts >= 1 then cfg.maxAttempts else 1
  }

  /** The attempts field of a notification is the number of times it was pushed. */
  predicate Counted(cfg: Config, pushes: multiset<nat>, n: Notification) {
    1 <= n.attempts == pushes[n.id] <= MaxPushes(cfg)
  }

  ghost predicate QueueCounted(cfg: Config, pushes: multiset<nat>, queue: seq<Notification>) {
    forall i | 0 <= i < |queue| :: Counted(cfg, pushes, queue[i])
  }

  predicate WorkerCounted(cfg: Config, pushes: multiset<nat>, w: Worker) {
    match w
    case Waiting => true
    case Pushing(n) => Counted(cfg, pushes, n)
    case Replying(r) => Counted(cfg, pushes, r.n)
  }

  ghost predicate WorkersCounted(cfg: Config, pushes: multiset<nat>, workers: seq<Worker>) {
    forall i | 0 <= i < |workers| :: WorkerCounted(cfg, pushes, workers[i])
  }

  ghost predicate RepliesCounted(cfg: Config, pushes: multiset<nat>, replies: seq<Response>) {
    forall i | 0 <= i < |replies| :: Counted(cfg, pushes, replies[i].n)
  }

  /** While a retry waits, its attempt is already counted but its push has not happened. */
  predicate ResponderCounted(cfg: Config, lane: Lane) {
    match lane.responder
    case Handling(r) => Counted(cfg, lane.pushes, r.n)
    case Retrying(n) => n.id in lane.pushed && lane.pushes[n.id] + 1 == n.attempts && 2 <= n.attempts <= cfg.maxAttempts
    case _ => true
  }

  ghost predicate AttemptsInv(cfg: Config, lane: Lane) {
    && QueueCounted(cfg, lane.pushes, lane.queue)
    && WorkersCounted(cfg, lane.pushes, lane.workers)
    && RepliesCounted(cfg, lane.pushes, lane.replies)
    && ResponderCounted(cfg, lane)
    && forall id: nat :: lane.pushes[id] <= MaxPushes(cfg) && (id !in lane.pushed ==> lane.pushes[id] == 0)
  }

  ghost predicate Bounded(cfg: Config, lane: Lane) {
    |lane.workers| == cfg.workers && |lane.queue| <= cfg.queueSize && |lane.replies| <= cfg.replySize
  }

  ghost predicate LaneBalanced(g: nat -> nat, lane: Lane) {
    Unsettled(g)(lane) + Settled(g)(lane) == Pushed(g)(lane)
  }

  ghost predicate LaneInv(cfg: Config, lane: Lane) {
    && Bounded(cfg, lane)
    && AttemptsInv(cfg, lane)
    && forall g: nat -> nat :: LaneBalanced(g, lane)
  }

  predicate RouterInv(s: State) {
    match s.router
    case Checking(_, l) => l < |s.lanes|
    case Sending(n, l) => l < |s.lanes| && n.attempts == 1
    case Counting(l) => l < |s.lanes|
    case Routing => true
  }

  predicate SentInv(s: State, l: nat)
    requires l < |s.lanes|
  {
    |s.lanes[l].pushed| == s.lanes[l].sent + if s.router.Counting? && s.router.lane == l then 1 else 0
  }

  ghost predicate Balanced(g: nat -> nat, s: State) {
    && Front(g, s) + Sum(Pushed(g), s.lanes) + Sum(g, s.discarded) + Sum(g, s.unknown) == Total(g, s.arrived)
    && Sum(g, s.confirmed) == Sum(Settled(g), s.lanes) + Sum(g, s.discarded)
  }

  ghost predicate Inv(cfg: Config, s: State) {
    && |s.lanes| == cfg.apps && |s.inbox| <= cfg.inboxSize && RouterInv(s)
    && (forall l | 0 <= l < |s.lanes| :: LaneInv(cfg, s.lanes[l]))
    && (forall l | 0 <= l < |s.lanes| :: SentInv(s, l))
    && (forall g: nat -> nat :: Balanced(g, s))
    && s.pending == s.arrived - |s.confirmed|
  }

  // ---------- One step of a lane ----------

  /** The id of a retry is nowhere else in its lane: it would have been pushed first twice. */
  ghost predicate Elsewhere(lane: Lane, id: nat) {
    && (forall i | 0 <= i < |lane.queue| :: lane.queue[i].id != id)
    && (forall i | 0 <= i < |lane.workers| :: WorkerWeight(Is(id), lane.workers[i]) == 0)
    && (forall i | 0 <= i < |lane.replies| :: lane.replies[i].n.id != id)
  }

  lemma HeldOnce(lane: Lane)
    requires lane.responder.Retrying?
    requires LaneBalanced(Is(lane.responder.n.id), lane)
    requires Pushed(Is(lane.responder.n.id))(lane) <= 1
    ensures Elsewhere(lane, lane.responder.n.id)
  {
    var g := Is(lane.responder.n.id);
    SumZero(OfNotification(g), lane.queue);
    SumZero(OfWorker(g), lane.workers);
    SumZero(OfResponse(g), lane.replies);
    forall i | 0 <= i < |lane.queue| ensures lane.queue[i].id != lane.responder.n.id {
      assert OfNotification(g)(lane.queue[i]) == 0;
    }
    forall i | 0 <= i < |lane.workers| ensures WorkerWeight(g, lane.workers[i]) == 0 {
      assert OfWorker(g)(lane.workers[i]) == 0;
    }
    forall i | 0 <= i < |lane.replies| ensures lane.replies[i].n.id != lane.responder.n.id {
      assert OfResponse(g)(lane.replies[i]) == 0;
    }
  }

  /** One more push of id disturbs no count but its own. */
  lemma PushDisturbsNoOther(cfg: Config, lane: Lane, id: nat)
    requires Elsewhere(lane, id)
    requires QueueCounted(cfg, lane.pushes, lane.queue) && WorkersCounted(cfg, lane.pushes, lane.workers)
    requires RepliesCounted(cfg, lane.pushes, lane.replies)
    ensures var pushes := lane.pushes + multiset{id};
      && QueueCounted(cfg, pushes, lane.queue) && WorkersCounted(cfg, pushes, lane.workers)
      && RepliesCounted(cfg, pushes, lane.replies)
  {
    var pushes := lane.pushes + multiset{id};
    forall i | 0 <= i < |lane.workers| ensures WorkerCounted(cfg, pushes, lane.workers[i]) {
      assert WorkerCounted(cfg, lane.pushes, lane.workers[i]) && WorkerWeight(Is(id), lane.workers[i]) == 0;
    }
  }

  /** Ids move between the places of a lane, but none appears and none vanishes. */
  lemma LaneConserves(g: nat -> nat, cfg: Config, lane: Lane, step: LaneStep)
    requires LaneEnabled(cfg, lane, step)
    ensures var lane' := LaneApply(cfg, lane, step);
      && lane'.pushed == lane.pushed
      && Unsettled(g)(lane') + Settled(g)(lane') == Unsettled(g)(lane) + Settled(g)(lane)
      && Settled(g)(lane') == Settled(g)(lane)
           + (if step.ResponderConfirms? then g(lane.responder.r.n.id) else 0)
  {
    var lane' := LaneApply(cfg, lane, step);
    match step
    case WorkerTakes(w) => SumUpdate(OfWorker(g), lane.workers, w, lane'.workers[w]);
    case ClientAnswers(w, _) => SumUpdate(OfWorker(g), lane.workers, w, lane'.workers[w]);
    case ClientFails(w) =>
      SumUpdate(OfWorker(g), lane.workers, w, lane'.workers[w]);
      SumAppend(g, lane.dropped, lane.workers[w].n.id);
    case WorkerReplies(w) =>
      SumUpdate(OfWorker(g), lane.workers, w, lane'.workers[w]);
      SumAppend(OfResponse(g), lane.replies, lane.workers[w].r);
    case ResponderPushes => SumAppend(OfNotification(g), lane.queue, lane.responder.n);
    case ResponderReports =>
      SumAppend(g, lane.acked, lane.responder.r.n.id);
      SumAppend(g, lane.failed, lane.responder.r.n.id);
    case _ =>
  }

  lemma RetryPushCountsAttempts(cfg: Config, lane: Lane)
    requires AttemptsInv(cfg, lane) && LaneEnabled(cfg, lane, ResponderPushes)
    requires Elsewhere(lane, lane.responder.n.id)
    ensures AttemptsInv(cfg, LaneApply(cfg, lane, ResponderPushes))
  {
    var lane' := LaneApply(cfg, lane, ResponderPushes);
    PushDisturbsNoOther(cfg, lane, lane.responder.n.id);
    assert forall id: nat :: lane'.pushes[id] == lane.pushes[id] + if id == lane.responder.n.id then 1 else 0;
  }

  lemma MoveCountsAttempts(cfg: Config, lane: Lane, step: LaneStep)
    requires AttemptsInv(cfg, lane) && LaneEnabled(cfg, lane, step) && !step.ResponderPushes?
    requires lane.responder.Handling? ==> lane.responder.r.n.id in lane.pushed
    ensures AttemptsInv(cfg, LaneApply(cfg, lane, step))
  {
    var lane' := LaneApply(cfg, lane, step);
    assert lane'.pushes == lane.pushes && lane'.pushed == lane.pushed;
    match step
    case WorkerTakes(w) => assert Counted(cfg, lane.pushes, lane.queue[0]);
    case WorkerReplies(w) => assert WorkerCounted(cfg, lane.pushes, lane.workers[w]);
    case ClientAnswers(w, _) => assert WorkerCounted(cfg, lane.pushes, lane.workers[w]);
    case ResponderTakes => assert Counted(cfg, lane.pushes, lane.replies[0].n);
    case _ =>
  }

  lemma LaneKeepsInv(cfg: Config, lane: Lane, step: LaneStep)
    requires LaneInv(cfg, lane) && LaneEnabled(cfg, lane, step)
    requires forall id: nat :: Pushed(Is(id))(lane) <= 1
    ensures LaneInv(cfg, LaneApply(cfg, lane, step))
  {
    var lane' := LaneApply(cfg, lane, step);
    forall g: nat -> nat ensures LaneBalanced(g, lane') {
      assert LaneBalanced(g, lane);
      LaneConserves(g, cfg, lane, step);
    }
    if step.ResponderPushes? {
      assert LaneBalanced(Is(lane.responder.n.id), lane);
      HeldOnce(lane);
      RetryPushCountsAttempts(cfg, lane);
    } else {
      if lane.responder.Handling? {
        assert LaneBalanced(Is(lane.responder.r.n.id), lane);
        SumIs(lane.responder.r.n.id, lane.pushed);
      }
      MoveCountsAttempts(cfg, lane, step);
    }
  }

  // ---------- One step of the system ----------

  /** No id is pushed first twice, and none is both in front and pushed. */
  lemma PushedOnce(cfg: Config, s: State, l: nat, id: nat)
    requires Inv(cfg, s) && l < |s.lanes|
    ensures Pushed(Is(id))(s.lanes[l]) + Front(Is(id), s) <= 1
  {
    SumMember(Pushed(Is(id)), s.lanes, s.lanes[l]);
    assert Balanced(Is(id), s);
    TotalIs(id, s.arrived);
  }

  /** An id that was never pushed is in no notification of the lane. */
  lemma FreshElsewhere(cfg: Config, lane: Lane, id: nat)
    requires AttemptsInv(cfg, lane) && id !in lane.pushed
    ensures Elsewhere(lane, id)
  {
    forall i | 0 <= i < |lane.queue| ensures lane.queue[i].id != id {
      assert Counted(cfg, lane.pushes, lane.queue[i]);
    }
    forall i | 0 <= i < |lane.workers| ensures WorkerWeight(Is(id), lane.workers[i]) == 0 {
      assert WorkerCounted(cfg, lane.pushes, lane.workers[i]);
    }
    forall i | 0 <= i < |lane.replies| ensures lane.replies[i].n.id != id {
      assert Counted(cfg, lane.pushes, lane.replies[i].n);
    }
  }

  function FirstPush(lane: Lane, n: Notification): Lane {
    lane.(queue := lane.queue + [n], pushed := lane.pushed + [n.id], pushes := lane.pushes + multiset{n.id})
  }

  lemma FirstPushCountsAttempts(cfg: Config, lane: Lane, n: Notification)
    requires AttemptsInv(cfg, lane) && n.attempts == 1 && n.id !in lane.pushed
    ensures AttemptsInv(cfg, FirstPush(lane, n))
  {
    FreshElsewhere(cfg, lane, n.id);
    PushDisturbsNoOther(cfg, lane, n.id);
    var lane' := FirstPush(lane, n);
    assert forall id: nat :: lane'.pushes[id] == lane.pushes[id] + if id == n.id then 1 else 0;
  }

  lemma FirstPushBalances(g: nat -> nat, lane: Lane, n: Notification)
    requires LaneBalanced(g, lane)
    ensures LaneBalanced(g, FirstPush(lane, n))
  {
    SumAppend(OfNotification(g), lane.queue, n);
    SumAppend(g, lane.pushed, n.id);
  }

  lemma PushKeepsLane(cfg: Config, s: State)
    requires Inv(cfg, s) && Enabled(cfg, s, Push)
    ensures LaneInv(cfg, Apply(cfg, s, Push).lanes[s.router.lane])
  {
    var l, n := s.router.lane, s.router.n;
    var lane := s.lanes[l];
    assert Apply(cfg, s, Push).lanes[l] == FirstPush(lane, n);
    forall g: nat -> nat ensures LaneBalanced(g, FirstPush(lane, n)) {
      assert LaneBalanced(g, lane);
      FirstPushBalances(g, lane, n);
    }
    PushedOnce(cfg, s, l, n.id);
    SumIs(n.id, lane.pushed);
    FirstPushCountsAttempts(cfg, lane, n);
  }

  lemma CountSentKeepsLane(cfg: Config, s: State)
    requires Inv(cfg, s) && Enabled(cfg, s, CountSent)
    ensures LaneInv(cfg, Apply(cfg, s, CountSent).lanes[s.router.lane])
  {
    var l := s.router.lane;
    assert LaneInv(cfg, s.lanes[l]);
    forall g: nat -> nat ensures LaneBalanced(g, Apply(cfg, s, CountSent).lanes[l]) {
      assert LaneBalanced(g, s.lanes[l]);
    }
  }

  lemma InLaneKeepsLane(cfg: Config, s: State, l: nat, ls: LaneStep)
    requires Inv(cfg, s) && Enabled(cfg, s, InLane(l, ls))
    ensures LaneInv(cfg, LaneApply(cfg, s.lanes[l], ls))
  {
    forall id: nat ensures Pushed(Is(id))(s.lanes[l]) <= 1 {
      PushedOnce(cfg, s, l, id);
    }
    LaneKeepsInv(cfg, s.lanes[l], ls);
  }

  lemma StepKeepsLanes(cfg: Config, s: State, step: Step)
    requires Inv(cfg, s) && Enabled(cfg, s, step)
    ensures var s' := Apply(cfg, s, step);
      |s'.lanes| == cfg.apps && forall l | 0 <= l < |s'.lanes| :: LaneInv(cfg, s'.lanes[l])
  {
    match step {
      case Push => PushKeepsLane(cfg, s);
      case CountSent => CountSentKeepsLane(cfg, s);
      case InLane(l, ls) => InLaneKeepsLane(cfg, s, l, ls);
      case _ =>
    }
  }

  lemma StepKeepsSent(cfg: Config, s: State, step: Step)
    requires Inv(cfg, s) && Enabled(cfg, s, step)
    ensures var s' := Apply(cfg, s, step); forall l | 0 <= l < |s'.lanes| :: SentInv(s', l)
  {
    var s' := Apply(cfg, s, step);
    forall l | 0 <= l < |s'.lanes| ensures SentInv(s', l) {
      assert SentInv(s, l);
    }
  }

  /** Replacing one lane changes the lane sums by that lane's share. */
  lemma LaneSums(g: nat -> nat, s: State, l: nat, lane: Lane)
    requires l < |s.lanes|
    ensures Sum(Pushed(g), s.lanes[l := lane]) + Pushed(g)(s.lanes[l]) == Sum(Pushed(g), s.lanes) + Pushed(g)(lane)
    ensures Sum(Settled(g), s.lanes[l := lane]) + Settled(g)(s.lanes[l]) == Sum(Settled(g), s.lanes) + Settled(g)(lane)
  {
    SumUpdate(Pushed(g), s.lanes, l, lane);
    SumUpdate(Settled(g), s.lanes, l, lane);
  }

  lemma InLaneBalances(g: nat -> nat, cfg: Config, s: State, l: nat, ls: LaneStep)
    requires Balanced(g, s) && Enabled(cfg, s, InLane(l, ls))
    ensures Balanced(g, Apply(cfg, s, InLane(l, ls)))
  {
    LaneConserves(g, cfg, s.lanes[l], ls);
    LaneSums(g, s, l, LaneApply(cfg, s.lanes[l], ls));
    if ls.ResponderConfirms? {
      SumAppend(g, s.confirmed, s.lanes[l].responder.r.n.id);
    }
  }

  lemma RouterBalances(g: nat -> nat, cfg: Config, s: State, step: Step)
    requires Balanced(g, s) && Enabled(cfg, s, step) && (step.Push? || step.CountSent?)
    ensures Balanced(g, Apply(cfg, s, step))
  {
    var l := s.router.lane;
    if step.Push? {
      SumAppend(g, s.lanes[l].pushed, s.router.n.id);
    }
    LaneSums(g, s, l, Apply(cfg, s, step).lanes[l]);
  }

  lemma ConsumerBalances(g: nat -> nat, cfg: Config, s: State, step: Step)
    requires Balanced(g, s) && Enabled(cfg, s, step) && (step.Receive? || step.Enqueue?)
    ensures Balanced(g, Apply(cfg, s, step))
  {
    if step.Enqueue? {
      SumAppend(OfMessage(g), s.inbox, s.consumer.msg);
    }
  }

  lemma RouteBalances(g: nat -> nat, cfg: Config, s: State)
    requires Balanced(g, s) && Enabled(cfg, s, Route)
    ensures Balanced(g, Apply(cfg, s, Route))
  {
    var s', msg := Apply(cfg, s, Route), s.inbox[0];
    assert Sum(OfMessage(g), s.inbox) == g(msg.id) + Sum(OfMessage(g), s'.inbox);
    SumAppend(g, s.unknown, msg.id);
    assert Front(g, s') + Sum(g, s'.unknown) == Front(g, s) + Sum(g, s.unknown);
  }

  lemma VerdictBalances(g: nat -> nat, cfg: Config, s: State, step: Step)
    requires Balanced(g, s) && Enabled(cfg, s, step) && (step.Discard? || step.Accept?)
    ensures Balanced(g, Apply(cfg, s, step))
  {
    if step.Discard? {
      SumAppend(g, s.confirmed, s.router.id);
      SumAppend(g, s.discarded, s.router.id);
    }
  }

  lemma StepBalances(g: nat -> nat, cfg: Config, s: State, step: Step)
    requires Balanced(g, s) && Enabled(cfg, s, step)
    ensures Balanced(g, Apply(cfg, s, step))
  {
    if step.InLane? {
      InLaneBalances(g, cfg, s, step.l, step.step);
    } else if step.Push? || step.CountSent? {
      RouterBalances(g, cfg, s, step);
    } else if step.Receive? || step.Enqueue? {
      ConsumerBalances(g, cfg, s, step);
    } else if step.Route? {
      RouteBalances(g, cfg, s);
    } else {
      VerdictBalances(g, cfg, s, step);
    }
  }

  lemma StepKeepsInv(cfg: Config, s: State, step: Step)
    requires cfg.Valid() && Inv(cfg, s) && Enabled(cfg, s, step)
    ensures Inv(cfg, Apply(cfg, s, step))
  {
    StepKeepsLanes(cfg, s, step);
    StepKeepsSent(cfg, s, step);
    var s' := Apply(cfg, s, step);
    forall g: nat -> nat ensures Balanced(g, s') {
      assert Balanced(g, s);
      StepBalances(g, cfg, s, step);
    }
  }

  lemma InitInv(cfg: Config)
    requires cfg.Valid()
    ensures Inv(cfg, Init(cfg))
  {
    var s := Init(cfg);
    var lane := EmptyLane(cfg);
    forall g: nat -> nat ensures LaneBalanced(g, lane) && Balanced(g, s) {
      SumZero(OfWorker(g), lane.workers);
      SumZero(Pushed(g), s.lanes);
      SumZero(Settled(g), s.lanes);
    }
  }

  lemma {:induction false} RunKeepsInv(cfg: Config, s: State, steps: seq<Step>)
    requires cfg.Valid() && Inv(cfg, s) && Runs(cfg, s, steps)
    ensures Inv(cfg, Exec(cfg, s, steps))
    decreases |steps|
  {
    if steps != [] {
      StepKeepsInv(cfg, s, steps[0]);
      RunKeepsInv(cfg, Apply(cfg, s, steps[0]), steps[1..]);
    }
  }

  lemma ReachableInv(cfg: Config, s: State)
    requires cfg.Valid() && Reachable(cfg, s)
    ensures Inv(cfg, s)
  {
    var steps :| Runs(cfg, Init(cfg), steps) && Exec(cfg, Init(cfg), steps) == s;
    InitInv(cfg);
    RunKeepsInv(cfg, Init(cfg), steps);
  }

  // ---------- The ledger of every reachable state ----------

  /** Front, lanes, unknown games and confirmations share out the arrivals. */
  lemma Shares(g: nat -> nat, cfg: Config, s: State)
    requires Inv(cfg, s)
    ensures Front(g, s) + Sum(Unsettled(g), s.lanes) + Sum(g, s.unknown) + Sum(g, s.confirmed) == Total(g, s.arrived)
  {
    assert Balanced(g, s);
    forall lane | lane in s.lanes ensures Unsettled(g)(lane) + Settled(g)(lane) == Pushed(g)(lane) {
      assert LaneBalanced(g, lane);
    }
    SumPlus(Unsettled(g), Settled(g), Pushed(g), s.lanes);
  }

  /** The wait group counts the messages held by the consumer, the inbox, the router and the lanes,
      plus those stranded by a push without a response or by an unknown game. */
  lemma PendingLedger(cfg: Config, s: State)
    requires cfg.Valid() && Reachable(cfg, s)
    ensures s.pending == Front(One(), s) + Sum(Unsettled(One()), s.lanes) + |s.unknown|
    ensures 0 <= s.pending
  {
    ReachableInv(cfg, s);
    Shares(One(), cfg, s);
    SumOne(s.unknown);
    SumOne(s.confirmed);
    TotalOne(s.arrived);
  }

  /** Every arrived message is in exactly one place, and is confirmed at most once. */
  lemma ExactlyOnePlace(cfg: Config, s: State, id: nat)
    requires cfg.Valid() && Reachable(cfg, s)
    ensures Front(Is(id), s) + Sum(Unsettled(Is(id)), s.lanes) + multiset(s.unknown)[id] + multiset(s.confirmed)[id]
         == if id < s.arrived then 1 else 0
  {
    ReachableInv(cfg, s);
    Shares(Is(id), cfg, s);
    SumIs(id, s.unknown);
    SumIs(id, s.confirmed);
    TotalIs(id, s.arrived);
  }

  predicate EmptyOfMessages(lane: Lane) {
    && lane.queue == [] && lane.replies == [] && (forall w | w in lane.workers :: w.Waiting?)
    && !lane.responder.Handling? && !lane.responder.Retrying?
  }

  lemma EmptyLaneIffNothingOutstanding(lane: Lane)
    ensures Outstanding(One(), lane) == 0 <==> EmptyOfMessages(lane)
  {
    var g := One();
    SumZero(OfNotification(g), lane.queue);
    SumZero(OfWorker(g), lane.workers);
    SumZero(OfResponse(g), lane.replies);
    forall w | w in lane.workers ensures OfWorker(g)(w) == 0 <==> w.Waiting? {}
    if lane.queue != [] { assert lane.queue[0] in lane.queue && OfNotification(g)(lane.queue[0]) == 1; }
    if lane.replies != [] { assert lane.replies[0] in lane.replies && OfResponse(g)(lane.replies[0]) == 1; }
  }

  predicate NothingUnconfirmed(s: State) {
    && s.consumer.Polling? && s.inbox == [] && !s.router.Checking? && !s.router.Sending?
    && (forall lane | lane in s.lanes :: EmptyOfMessages(lane) && lane.dropped == [])
    && s.unknown == []
  }

  /** Waiting for the group to reach zero is waiting for every message, the stranded ones included. */
  lemma ZeroMeansConfirmed(cfg: Config, s: State)
    requires cfg.Valid() && Reachable(cfg, s)
    ensures s.pending == 0 <==> NothingUnconfirmed(s)
  {
    PendingLedger(cfg, s);
    SumZero(OfMessage(One()), s.inbox);
    SumZero(Unsettled(One()), s.lanes);
    if s.inbox != [] { assert s.inbox[0] in s.inbox && OfMessage(One())(s.inbox[0]) == 1; }
    forall lane | lane in s.lanes
      ensures Unsettled(One())(lane) == 0 <==> EmptyOfMessages(lane) && lane.dropped == []
    {
      EmptyLaneIffNothingOutstanding(lane);
      SumOne(lane.dropped);
    }
  }

  // ---------- Stranded messages ----------

  /** The message had no handler, or its push came back without a response. */
  predicate Stranded(s: State, id: nat) {
    id in s.unknown || exists l | 0 <= l < |s.lanes| :: id in s.lanes[l].dropped
  }

  ghost predicate LosesMore(s: State, s': State) {
    && |s.lanes| == |s'.lanes| && s.unknown <= s'.unknown
    && forall l | 0 <= l < |s.lanes| :: s.lanes[l].dropped <= s'.lanes[l].dropped
  }

  lemma {:induction false} RunsLoseMore(cfg: Config, s: State, steps: seq<Step>)
    requires Runs(cfg, s, steps)
    ensures LosesMore(s, Exec(cfg, s, steps))
    decreases |steps|
  {
    if steps != [] {
      RunsLoseMore(cfg, Apply(cfg, s, steps[0]), steps[1..]);
    }
  }

  lemma StrandedIsUnreleased(cfg: Config, s: State, id: nat)
    requires cfg.Valid() && Reachable(cfg, s) && Stranded(s, id)
    ensures id !in s.confirmed && s.pending > 0
  {
    ExactlyOnePlace(cfg, s, id);
    PendingLedger(cfg, s);
    if id !in s.unknown {
      var l :| 0 <= l < |s.lanes| && id in s.lanes[l].dropped;
      SumIs(id, s.lanes[l].dropped);
      SumOne(s.lanes[l].dropped);
      SumMember(Unsettled(Is(id)), s.lanes, s.lanes[l]);
      SumMember(Unsettled(One()), s.lanes, s.lanes[l]);
    }
  }

  /** A stranded message stays stranded in every run that follows: it is never released, and the
      wait group never reaches zero again. */
  lemma StrandedForever(cfg: Config, s: State, steps: seq<Step>, id: nat)
    requires cfg.Valid() && Reachable(cfg, s) && Runs(cfg, s, steps) && Stranded(s, id)
    ensures var s' := Exec(cfg, s, steps);
      Stranded(s', id) && id !in s'.confirmed && s'.pending > 0
  {
    RunsLoseMore(cfg, s, steps);
    var s' := Exec(cfg, s, steps);
    if l :| 0 <= l < |s.lanes| && id in s.lanes[l].dropped {
      assert id in s'.lanes[l].dropped;
    }
    var before :| Runs(cfg, Init(cfg), before) && Exec(cfg, Init(cfg), before) == s;
    RunsConcat(cfg, Init(cfg), before, steps);
    StrandedIsUnreleased(cfg, s', id);
  }

  // ---------- Attempts and outcomes ----------

  /** The attempts field of a notification is the number of its pushes, and one more while it waits
      to be pushed again. */
  lemma AttemptsCountPushes(cfg: Config, s: State, l: nat)
    requires cfg.Valid() && Reachable(cfg, s) && l < |s.lanes|
    ensures AttemptsInv(cfg, s.lanes[l])
  {
    ReachableInv(cfg, s);
    assert LaneInv(cfg, s.lanes[l]);
  }

  /** How often a lane pushed a notification. */
  function PushesOf(id: nat): Lane -> nat {
    (lane: Lane) => lane.pushes[id]
  }

  lemma {:induction false} SumAtMost<T>(f: T -> nat, h: T -> nat, c: nat, s: seq<T>)
    requires forall x | x in s :: f(x) <= c * h(x)
    ensures Sum(f, s) <= c * Sum(h, s)
  {
    if s != [] {
      SumAtMost(f, h, c, s[1..]);
    }
  }

  lemma Scaled(c: nat, n: nat)
    requires n <= 1
    ensures c * n <= c
  {
  }

  lemma AtLeastOnce(c: nat, n: nat)
    requires n >= 1
    ensures c <= c * n
  {
  }

  lemma LanePushesBounded(cfg: Config, lane: Lane, id: nat)
    requires AttemptsInv(cfg, lane)
    ensures PushesOf(id)(lane) <= MaxPushes(cfg) * Pushed(Is(id))(lane)
  {
    SumIs(id, lane.pushed);
    if id in lane.pushed {
      AtLeastOnce(MaxPushes(cfg), Pushed(Is(id))(lane));
    }
  }

  lemma FirstPushedOnce(cfg: Config, s: State, id: nat)
    requires Inv(cfg, s)
    ensures Sum(Pushed(Is(id)), s.lanes) <= 1
  {
    assert Balanced(Is(id), s);
    TotalIs(id, s.arrived);
  }

  /** No notification is pushed more than max(1, maxRetryAttempts) times, in all lanes together. */
  lemma PushesBounded(cfg: Config, s: State, id: nat)
    requires cfg.Valid() && Reachable(cfg, s)
    ensures Sum(PushesOf(id), s.lanes) <= if cfg.maxAttempts == 0 then 1 else cfg.maxAttempts
  {
    ReachableInv(cfg, s);
    forall lane | lane in s.lanes ensures PushesOf(id)(lane) <= MaxPushes(cfg) * Pushed(Is(id))(lane) {
      assert LaneInv(cfg, lane);
      LanePushesBounded(cfg, lane, id);
    }
    SumAtMost(PushesOf(id), Pushed(Is(id)), MaxPushes(cfg), s.lanes);
    FirstPushedOnce(cfg, s, id);
    Scaled(MaxPushes(cfg), Sum(Pushed(Is(id)), s.lanes));
  }

  function Outcomes(g: nat -> nat): Lane -> nat {
    (lane: Lane) => Sum(g, lane.acked) + Sum(g, lane.failed) + Sum(g, lane.dropped)
  }

  /** Over all lanes, a notification is reported successful, reported failed or lost at most once. */
  lemma AtMostOneOutcome(cfg: Config, s: State, id: nat)
    requires cfg.Valid() && Reachable(cfg, s)
    ensures Sum(Outcomes(Is(id)), s.lanes) <= 1
  {
    ReachableInv(cfg, s);
    var g := Is(id);
    forall lane | lane in s.lanes ensures Outcomes(g)(lane) <= Pushed(g)(lane) {
      assert LaneBalanced(g, lane);
    }
    SumMonotone(Outcomes(g), Pushed(g), s.lanes);
    assert Balanced(g, s);
    TotalIs(id, s.arrived);
  }

  // ---------- Metrics ----------

  /** Results may overtake the router's report of the push by one message, and once a lane is
      empty and the router idle the reports match, however many retries there were. */
  lemma MetricsAddUp(cfg: Config, s: State, l: nat)
    requires cfg.Valid() && Reachable(cfg, s) && l < |s.lanes|
    ensures var lane := s.lanes[l];
      && |lane.acked| + |lane.failed| + |lane.dropped| <= lane.sent + 1
      && (EmptyOfMessages(lane) && lane.responder.Listening? && s.router.Routing? ==>
            lane.sent == |lane.acked| + |lane.failed| + |lane.dropped|)
  {
    ReachableInv(cfg, s);
    var lane := s.lanes[l];
    assert LaneBalanced(One(), lane) && SentInv(s, l);
    SumOne(lane.acked);
    SumOne(lane.failed);
    SumOne(lane.dropped);
    SumOne(lane.pushed);
    EmptyLaneIffNothingOutstanding(lane);
  }
}
