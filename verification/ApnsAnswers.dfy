/** What the APNS sender makes of the answers it gets: which of them are retried, which are reported
    as what, and that every notification is pushed by the handler of its own game. */
module ApnsAnswers {
  import opened ApnsLedger
  import opened ApnsPipeline
  import opened ApnsProgress
  import opened Sums

  // ---------- What the source does with an answer ----------

  /** The answers that are retried, in the program's own terms. */
  predicate Throttled(cfg: Config, r: Response) {
    r.reason == "TooManyRequests" && r.n.attempts < cfg.maxAttempts
  }

  predicate Accepted(r: Response) {
    r.reason == ""
  }

  predicate Rejected(cfg: Config, r: Response) {
    !Accepted(r) && !Throttled(cfg, r)
  }

  function ThrottledOf(cfg: Config, id: nat): Response -> nat {
    (r: Response) => if r.n.id == id && Throttled(cfg, r) then 1 else 0
  }

  function AcceptedOf(id: nat): Response -> nat {
    (r: Response) => if r.n.id == id && Accepted(r) then 1 else 0
  }

  function RejectedOf(cfg: Config, id: nat): Response -> nat {
    (r: Response) => if r.n.id == id && Rejected(cfg, r) then 1 else 0
  }

  // ---------- Where answers and pushes are ----------

  function OfReplying(h: Response -> nat): Worker -> nat {
    (w: Worker) => if w.Replying? then h(w.r) else 0
  }

  function OfPushing(id: nat): Worker -> nat {
    (w: Worker) => if w.Pushing? && w.n.id == id then 1 else 0
  }

  function OfHeld(h: Response -> nat, p: Responder): nat {
    match p
    case Handling(r) => h(r)
    case Confirmed(r) => h(r)
    case _ => 0
  }

  /** An answer is with a worker, in the channel, in hand, retried or reported. */
  ghost predicate AnswersShared(h: Response -> nat, lane: Lane) {
    Sum(h, lane.answers.given) ==
      Sum(OfReplying(h), lane.workers) + Sum(h, lane.replies) + OfHeld(h, lane.responder)
      + Sum(h, lane.answers.retried) + Sum(h, lane.answers.settled)
  }

  /** A push is waiting, with the client, answered or lost. */
  ghost predicate PushesShared(lane: Lane, id: nat) {
    lane.pushes[id] ==
      Sum(OfNotification(Is(id)), lane.queue) + Sum(OfPushing(id), lane.workers)
      + Sum(OfResponse(Is(id)), lane.answers.given) + Sum(Is(id), lane.dropped)
  }

  /** Beyond the first, every push follows a retried answer. */
  ghost predicate PushesEarned(lane: Lane, id: nat) {
    lane.pushes[id] + (if lane.responder.Retrying? && lane.responder.n.id == id then 1 else 0)
      == Sum(Is(id), lane.pushed) + Sum(OfResponse(Is(id)), lane.answers.retried)
  }

  ghost predicate Decided(cfg: Config, lane: Lane) {
    && (forall r | r in lane.answers.retried :: Throttled(cfg, r))
    && (forall r | r in lane.answers.settled :: !Throttled(cfg, r))
    && (lane.responder.Confirmed? ==> !Throttled(cfg, lane.responder.r))
  }

  ghost predicate Reported(cfg: Config, lane: Lane, id: nat) {
    && Sum(Is(id), lane.acked) == Sum(AcceptedOf(id), lane.answers.settled)
    && Sum(Is(id), lane.failed) == Sum(RejectedOf(cfg, id), lane.answers.settled)
  }

  ghost predicate Booked(cfg: Config, lane: Lane, id: nat) {
    PushesShared(lane, id) && PushesEarned(lane, id) && Reported(cfg, lane, id)
  }

  ghost predicate LaneAnswers(cfg: Config, lane: Lane) {
    && (forall h: Response -> nat :: AnswersShared(h, lane))
    && (forall id: nat :: Booked(cfg, lane, id))
    && Decided(cfg, lane)
  }

  // ---------- What every step of a lane keeps ----------

  lemma WorkerStepShares(h: Response -> nat, cfg: Config, lane: Lane, step: LaneStep)
    requires AnswersShared(h, lane) && LaneEnabled(cfg, lane, step)
    requires step.WorkerTakes? || step.ClientAnswers? || step.ClientFails? || step.WorkerReplies?
    ensures AnswersShared(h, LaneApply(cfg, lane, step))
  {
    var lane' := LaneApply(cfg, lane, step);
    SumUpdate(OfReplying(h), lane.workers, step.w, lane'.workers[step.w]);
    if step.ClientAnswers? {
      SumAppend(h, lane.answers.given, lane'.workers[step.w].r);
    } else if step.WorkerReplies? {
      SumAppend(h, lane.replies, lane.workers[step.w].r);
    }
  }

  lemma ResponderStepShares(h: Response -> nat, cfg: Config, lane: Lane, step: LaneStep)
    requires AnswersShared(h, lane) && LaneEnabled(cfg, lane, step)
    requires step.ResponderTakes? || step.ResponderRetries? || step.ResponderPushes?
          || step.ResponderConfirms? || step.ResponderReports?
    ensures AnswersShared(h, LaneApply(cfg, lane, step))
  {
    match step
    case ResponderRetries => SumAppend(h, lane.answers.retried, lane.responder.r);
    case ResponderReports => SumAppend(h, lane.answers.settled, lane.responder.r);
    case _ =>
  }

  lemma LaneStepShares(h: Response -> nat, cfg: Config, lane: Lane, step: LaneStep)
    requires AnswersShared(h, lane) && LaneEnabled(cfg, lane, step)
    ensures AnswersShared(h, LaneApply(cfg, lane, step))
  {
    if step.WorkerTakes? || step.ClientAnswers? || step.ClientFails? || step.WorkerReplies? {
      WorkerStepShares(h, cfg, lane, step);
    } else {
      ResponderStepShares(h, cfg, lane, step);
    }
  }

  lemma WorkerStepPushes(id: nat, cfg: Config, lane: Lane, step: LaneStep)
    requires PushesShared(lane, id) && LaneEnabled(cfg, lane, step)
    requires step.WorkerTakes? || step.ClientAnswers? || step.ClientFails? || step.WorkerReplies?
    ensures PushesShared(LaneApply(cfg, lane, step), id)
  {
    var lane' := LaneApply(cfg, lane, step);
    SumUpdate(OfPushing(id), lane.workers, step.w, lane'.workers[step.w]);
    if step.ClientAnswers? {
      SumAppend(OfResponse(Is(id)), lane.answers.given, lane'.workers[step.w].r);
    } else if step.ClientFails? {
      SumAppend(Is(id), lane.dropped, lane.workers[step.w].n.id);
    }
  }

  lemma LaneStepPushes(id: nat, cfg: Config, lane: Lane, step: LaneStep)
    requires PushesShared(lane, id) && LaneEnabled(cfg, lane, step)
    ensures PushesShared(LaneApply(cfg, lane, step), id)
  {
    if step.WorkerTakes? || step.ClientAnswers? || step.ClientFails? || step.WorkerReplies? {
      WorkerStepPushes(id, cfg, lane, step);
    } else if step.ResponderPushes? {
      SumAppend(OfNotification(Is(id)), lane.queue, lane.responder.n);
    }
  }

  lemma LaneStepEarns(id: nat, cfg: Config, lane: Lane, step: LaneStep)
    requires PushesEarned(lane, id) && LaneEnabled(cfg, lane, step)
    ensures PushesEarned(LaneApply(cfg, lane, step), id)
  {
    if step.ResponderRetries? {
      SumAppend(OfResponse(Is(id)), lane.answers.retried, lane.responder.r);
    }
  }

  lemma LaneStepReports(id: nat, cfg: Config, lane: Lane, step: LaneStep)
    requires Reported(cfg, lane, id) && Decided(cfg, lane) && LaneEnabled(cfg, lane, step)
    ensures Reported(cfg, LaneApply(cfg, lane, step), id)
  {
    if step.ResponderReports? {
      var r := lane.responder.r;
      SumAppend(AcceptedOf(id), lane.answers.settled, r);
      SumAppend(RejectedOf(cfg, id), lane.answers.settled, r);
      SumAppend(Is(id), lane.acked, r.n.id);
      SumAppend(Is(id), lane.failed, r.n.id);
    }
  }

  lemma LaneStepDecides(cfg: Config, lane: Lane, step: LaneStep)
    requires Decided(cfg, lane) && LaneEnabled(cfg, lane, step)
    ensures Decided(cfg, LaneApply(cfg, lane, step))
  {
  }

  lemma LaneStepKeepsAnswers(cfg: Config, lane: Lane, step: LaneStep)
    requires LaneAnswers(cfg, lane) && LaneEnabled(cfg, lane, step)
    ensures LaneAnswers(cfg, LaneApply(cfg, lane, step))
  {
    var lane' := LaneApply(cfg, lane, step);
    forall h: Response -> nat ensures AnswersShared(h, lane') {
      assert AnswersShared(h, lane);
      LaneStepShares(h, cfg, lane, step);
    }
    forall id: nat ensures Booked(cfg, lane', id) {
      assert Booked(cfg, lane, id);
      LaneStepPushes(id, cfg, lane, step);
      LaneStepEarns(id, cfg, lane, step);
      LaneStepReports(id, cfg, lane, step);
    }
    LaneStepDecides(cfg, lane, step);
  }

  lemma FirstPushKeepsAnswers(cfg: Config, lane: Lane, n: Notification)
    requires LaneAnswers(cfg, lane)
    ensures LaneAnswers(cfg, FirstPush(lane, n))
  {
    var lane' := FirstPush(lane, n);
    forall h: Response -> nat ensures AnswersShared(h, lane') {
      assert AnswersShared(h, lane);
    }
    forall id: nat ensures Booked(cfg, lane', id) {
      assert Booked(cfg, lane, id);
      SumAppend(OfNotification(Is(id)), lane.queue, n);
      SumAppend(Is(id), lane.pushed, n.id);
    }
  }

  lemma SentKeepsAnswers(cfg: Config, lane: Lane, sent: nat)
    requires LaneAnswers(cfg, lane)
    ensures LaneAnswers(cfg, lane.(sent := sent))
  {
    var lane' := lane.(sent := sent);
    forall h: Response -> nat ensures AnswersShared(h, lane') {
      assert AnswersShared(h, lane);
    }
    forall id: nat ensures Booked(cfg, lane', id) {
      assert Booked(cfg, lane, id);
    }
  }

  // ---------- Runs ----------

  ghost predicate AllAnswers(cfg: Config, s: State) {
    forall l | 0 <= l < |s.lanes| :: LaneAnswers(cfg, s.lanes[l])
  }

  lemma StepKeepsAnswers(cfg: Config, s: State, step: Step)
    requires AllAnswers(cfg, s) && Enabled(cfg, s, step)
    ensures AllAnswers(cfg, Apply(cfg, s, step))
  {
    match step
    case Push => FirstPushKeepsAnswers(cfg, s.lanes[s.router.lane], s.router.n);
    case CountSent =>
      var lane := s.lanes[s.router.lane];
      SentKeepsAnswers(cfg, lane, lane.sent + 1);
    case InLane(l, ls) => LaneStepKeepsAnswers(cfg, s.lanes[l], ls);
    case _ =>
  }

  lemma EmptyLaneAnswers(cfg: Config)
    ensures LaneAnswers(cfg, EmptyLane(cfg))
  {
    var lane := EmptyLane(cfg);
    forall h: Response -> nat ensures AnswersShared(h, lane) {
      SumZero(OfReplying(h), lane.workers);
    }
    forall id: nat ensures Booked(cfg, lane, id) {
      SumZero(OfPushing(id), lane.workers);
    }
  }

  lemma {:induction false} RunKeepsAnswers(cfg: Config, s: State, steps: seq<Step>)
    requires AllAnswers(cfg, s) && Runs(cfg, s, steps)
    ensures AllAnswers(cfg, Exec(cfg, s, steps))
    decreases |steps|
  {
    if steps != [] {
      StepKeepsAnswers(cfg, s, steps[0]);
      RunKeepsAnswers(cfg, Apply(cfg, s, steps[0]), steps[1..]);
    }
  }

  lemma ReachableAnswers(cfg: Config, s: State)
    requires Reachable(cfg, s)
    ensures AllAnswers(cfg, s)
  {
    var steps :| Runs(cfg, Init(cfg), steps) && Exec(cfg, Init(cfg), steps) == s;
    EmptyLaneAnswers(cfg);
    RunKeepsAnswers(cfg, Init(cfg), steps);
  }

  // ---------- What holds of every run ----------

  /** Every push is still waiting, with the client, answered, or lost without an answer. */
  lemma EveryPushIsAnsweredOnce(cfg: Config, s: State, l: nat, id: nat)
    requires Reachable(cfg, s) && l < |s.lanes|
    ensures PushesShared(s.lanes[l], id)
  {
    ReachableAnswers(cfg, s);
    assert LaneAnswers(cfg, s.lanes[l]) && Booked(cfg, s.lanes[l], id);
  }

  lemma RetriedCounts(cfg: Config, lane: Lane, id: nat)
    requires Decided(cfg, lane)
    ensures Sum(OfResponse(Is(id)), lane.answers.retried) == Sum(ThrottledOf(cfg, id), lane.answers.retried)
    ensures Sum(ThrottledOf(cfg, id), lane.answers.settled) == 0
  {
    SumSame(OfResponse(Is(id)), ThrottledOf(cfg, id), lane.answers.retried);
    SumZero(ThrottledOf(cfg, id), lane.answers.settled);
  }

  lemma {:induction false} SumSame<T>(f: T -> nat, h: T -> nat, s: seq<T>)
    requires forall x | x in s :: f(x) == h(x)
    ensures Sum(f, s) == Sum(h, s)
  {
    if s != [] {
      SumSame(f, h, s[1..]);
    }
  }

  lemma LanePushedOnce(cfg: Config, s: State, l: nat, id: nat)
    requires cfg.Valid() && Reachable(cfg, s) && l < |s.lanes|
    ensures Sum(Is(id), s.lanes[l].pushed) <= 1
  {
    ReachableInv(cfg, s);
    FirstPushedOnce(cfg, s, id);
    SumMember(Pushed(Is(id)), s.lanes, s.lanes[l]);
  }

  /** A notification pushed k times was answered "TooManyRequests", with attempts left, at least
      k - 1 times: nothing else is ever retried. */
  lemma OnlyThrottledIsRetried(cfg: Config, s: State, l: nat, id: nat)
    requires cfg.Valid() && Reachable(cfg, s) && l < |s.lanes|
    ensures s.lanes[l].pushes[id] <= 1 + Sum(ThrottledOf(cfg, id), s.lanes[l].answers.given)
  {
    ReachableAnswers(cfg, s);
    var lane := s.lanes[l];
    assert LaneAnswers(cfg, lane) && Booked(cfg, lane, id) && AnswersShared(ThrottledOf(cfg, id), lane);
    RetriedCounts(cfg, lane, id);
    LanePushedOnce(cfg, s, l, id);
  }

  lemma IdleHoldsNoAnswer(h: Response -> nat, lane: Lane)
    requires Idle(lane) && AnswersShared(h, lane)
    ensures Sum(h, lane.answers.given) == Sum(h, lane.answers.retried) + Sum(h, lane.answers.settled)
  {
    SumZero(OfReplying(h), lane.workers);
  }

  /** A lane at rest has pushed a notification again exactly as often as it was throttled with
      attempts left, and has reported exactly the other answers: those without a reason as
      successes, all others as failures. */
  lemma RestReportsAnswers(cfg: Config, s: State, l: nat, id: nat)
    requires Reachable(cfg, s) && l < |s.lanes| && Idle(s.lanes[l])
    ensures var lane := s.lanes[l];
      && lane.pushes[id] == multiset(lane.pushed)[id] + Sum(ThrottledOf(cfg, id), lane.answers.given)
      && multiset(lane.acked)[id] == Sum(AcceptedOf(id), lane.answers.given)
      && multiset(lane.failed)[id] == Sum(RejectedOf(cfg, id), lane.answers.given)
  {
    ReachableAnswers(cfg, s);
    var lane := s.lanes[l];
    assert LaneAnswers(cfg, lane) && Booked(cfg, lane, id);
    assert AnswersShared(ThrottledOf(cfg, id), lane);
    assert AnswersShared(AcceptedOf(id), lane) && AnswersShared(RejectedOf(cfg, id), lane);
    IdleHoldsNoAnswer(ThrottledOf(cfg, id), lane);
    IdleHoldsNoAnswer(AcceptedOf(id), lane);
    IdleHoldsNoAnswer(RejectedOf(cfg, id), lane);
    RetriedCounts(cfg, lane, id);
    SumZero(AcceptedOf(id), lane.answers.retried);
    SumZero(RejectedOf(cfg, id), lane.answers.retried);
    SumIs(id, lane.pushed);
    SumIs(id, lane.acked);
    SumIs(id, lane.failed);
  }

  /** In every state, a result stands for an answer: a success for one without a reason, a failure
      for one with a reason that was not retried. */
  lemma ResultsAreAnswers(cfg: Config, s: State, l: nat, id: nat)
    requires Reachable(cfg, s) && l < |s.lanes|
    ensures multiset(s.lanes[l].acked)[id] <= Sum(AcceptedOf(id), s.lanes[l].answers.given)
    ensures multiset(s.lanes[l].failed)[id] <= Sum(RejectedOf(cfg, id), s.lanes[l].answers.given)
  {
    ReachableAnswers(cfg, s);
    var lane := s.lanes[l];
    assert LaneAnswers(cfg, lane) && Booked(cfg, lane, id);
    assert AnswersShared(AcceptedOf(id), lane) && AnswersShared(RejectedOf(cfg, id), lane);
    SumIs(id, lane.acked);
    SumIs(id, lane.failed);
  }

  // ---------- Every message goes to the lane of its game ----------

  predicate KnownAs(s: State, m: Message) {
    m.id < |s.games| && s.games[m.id] == m.game
  }

  predicate Belongs(cfg: Config, s: State, id: nat, l: nat) {
    id < |s.games| && s.games[id] in cfg.handlers && cfg.handlers[s.games[id]] == l
  }

  ghost predicate FrontSorted(cfg: Config, s: State) {
    && |s.games| == s.arrived
    && (s.consumer.Receiving? ==> KnownAs(s, s.consumer.msg))
    && (forall i | 0 <= i < |s.inbox| :: KnownAs(s, s.inbox[i]))
    && (s.router.Checking? ==> Belongs(cfg, s, s.router.id, s.router.lane))
    && (s.router.Sending? ==> Belongs(cfg, s, s.router.n.id, s.router.lane))
    && (forall id | id in s.unknown :: id < |s.games| && s.games[id] !in cfg.handlers)
  }

  ghost predicate LaneSorted(cfg: Config, s: State, l: nat)
    requires l < |s.lanes|
  {
    forall id | id in s.lanes[l].pushed :: Belongs(cfg, s, id, l)
  }

  ghost predicate LanesSorted(cfg: Config, s: State) {
    forall l {:trigger LaneSorted(cfg, s, l)} | 0 <= l < |s.lanes| :: LaneSorted(cfg, s, l)
  }

  ghost predicate Sorted(cfg: Config, s: State) {
    FrontSorted(cfg, s) && LanesSorted(cfg, s)
  }

  lemma StepKeepsFront(cfg: Config, s: State, step: Step)
    requires FrontSorted(cfg, s) && Enabled(cfg, s, step)
    ensures FrontSorted(cfg, Apply(cfg, s, step))
  {
  }

  /** Only the router's push adds to what a lane has pushed first. */
  lemma StepKeepsLane(cfg: Config, s: State, step: Step, l: nat)
    requires FrontSorted(cfg, s) && l < |s.lanes| && LaneSorted(cfg, s, l) && Enabled(cfg, s, step)
    ensures var s' := Apply(cfg, s, step); l < |s'.lanes| && LaneSorted(cfg, s', l)
  {
    var s' := Apply(cfg, s, step);
    assert s.games <= s'.games;
    assert s'.lanes[l].pushed == if step.Push? && s.router.lane == l then s.lanes[l].pushed + [s.router.n.id]
                                 else s.lanes[l].pushed;
  }

  lemma StepKeepsSorted(cfg: Config, s: State, step: Step)
    requires Sorted(cfg, s) && Enabled(cfg, s, step)
    ensures Sorted(cfg, Apply(cfg, s, step))
  {
    StepKeepsFront(cfg, s, step);
    var s' := Apply(cfg, s, step);
    forall l | 0 <= l < |s'.lanes| ensures LaneSorted(cfg, s', l) {
      assert LaneSorted(cfg, s, l);
      StepKeepsLane(cfg, s, step, l);
    }
  }

  lemma {:induction false} RunKeepsSorted(cfg: Config, s: State, steps: seq<Step>)
    requires Sorted(cfg, s) && Runs(cfg, s, steps)
    ensures Sorted(cfg, Exec(cfg, s, steps))
    decreases |steps|
  {
    if steps != [] {
      StepKeepsSorted(cfg, s, steps[0]);
      RunKeepsSorted(cfg, Apply(cfg, s, steps[0]), steps[1..]);
    }
  }

  function GamesOf(steps: seq<Step>): seq<string> {
    if steps == [] then [] else (if steps[0].Receive? then [steps[0].game] else []) + GamesOf(steps[1..])
  }

  lemma {:induction false} GamesAreReceived(cfg: Config, s: State, steps: seq<Step>)
    requires Runs(cfg, s, steps)
    ensures Exec(cfg, s, steps).games == s.games + GamesOf(steps)
    decreases |steps|
  {
    if steps != [] {
      GamesAreReceived(cfg, Apply(cfg, s, steps[0]), steps[1..]);
    }
  }

  /** In every run, a message is pushed by the handler of the game it arrived for, or by none; and
      only those of games without a handler are left to the router. */
  lemma PushedByOwnHandler(cfg: Config, steps: seq<Step>, l: nat, id: nat)
    requires Runs(cfg, Init(cfg), steps)
    ensures var s, games := Exec(cfg, Init(cfg), steps), GamesOf(steps);
      && s.arrived == |games|
      && (l < |s.lanes| && id in s.lanes[l].pushed ==>
            id < |games| && games[id] in cfg.handlers && cfg.handlers[games[id]] == l)
      && (id in s.unknown ==> id < |games| && games[id] !in cfg.handlers)
  {
    RunKeepsSorted(cfg, Init(cfg), steps);
    GamesAreReceived(cfg, Init(cfg), steps);
    assert [] + GamesOf(steps) == GamesOf(steps);
    var s := Exec(cfg, Init(cfg), steps);
    if l < |s.lanes| && id in s.lanes[l].pushed {
      assert LaneSorted(cfg, s, l) && Belongs(cfg, s, id, l);
    }
  }

  // ---------- Messages are handled in the order they arrive ----------

  function Busy(s: State): nat {
    if s.router.Checking? || s.router.Sending? then 1 else 0
  }

  /** How many messages the router is done with. */
  function Handled(s: State): int {
    s.arrived - (if s.consumer.Receiving? then 1 else 0) - |s.inbox| - Busy(s)
  }

  predicate Numbered(s: State, i: nat)
    requires i < |s.inbox|
  {
    s.inbox[i].id == Handled(s) + Busy(s) + i
  }

  ghost predicate Ascending(ids: seq<nat>, below: int) {
    (forall i, j | 0 <= i < j < |ids| :: ids[i] < ids[j]) && forall i | 0 <= i < |ids| :: ids[i] < below
  }

  ghost predicate FrontOrdered(s: State) {
    && 0 <= Handled(s)
    && (s.consumer.Receiving? ==> s.consumer.msg.id == s.arrived - 1)
    && (forall i {:trigger Numbered(s, i)} | 0 <= i < |s.inbox| :: Numbered(s, i))
    && (s.router.Checking? ==> s.router.id == Handled(s))
    && (s.router.Sending? ==> s.router.n.id == Handled(s))
    && Ascending(s.unknown, Handled(s))
  }

  ghost predicate LaneOrdered(s: State, l: nat)
    requires l < |s.lanes|
  {
    Ascending(s.lanes[l].pushed, Handled(s))
  }

  ghost predicate Ordered(s: State) {
    FrontOrdered(s) && forall l {:trigger LaneOrdered(s, l)} | 0 <= l < |s.lanes| :: LaneOrdered(s, l)
  }

  lemma AscendingGrows(ids: seq<nat>, below: int, id: nat, below': int)
    requires Ascending(ids, below) && below <= id < below'
    ensures Ascending(ids + [id], below')
  {
  }

  lemma StepKeepsFrontOrdered(cfg: Config, s: State, step: Step)
    requires FrontOrdered(s) && Enabled(cfg, s, step)
    ensures FrontOrdered(Apply(cfg, s, step)) && Handled(s) <= Handled(Apply(cfg, s, step))
  {
    var s' := Apply(cfg, s, step);
    if step.Route? {
      assert Numbered(s, 0);
      AscendingGrows(s.unknown, Handled(s), s.inbox[0].id, Handled(s) + 1);
    }
    forall i | 0 <= i < |s'.inbox| ensures Numbered(s', i) {
      if step.Route? {
        assert Numbered(s, i + 1);
      } else if i < |s.inbox| {
        assert Numbered(s, i);
      }
    }
  }

  lemma StepKeepsLaneOrdered(cfg: Config, s: State, step: Step, l: nat)
    requires FrontOrdered(s) && l < |s.lanes| && LaneOrdered(s, l) && Enabled(cfg, s, step)
    requires Handled(s) <= Handled(Apply(cfg, s, step))
    ensures var s' := Apply(cfg, s, step); l < |s'.lanes| && LaneOrdered(s', l)
  {
    if step.Push? && s.router.lane == l {
      AscendingGrows(s.lanes[l].pushed, Handled(s), s.router.n.id, Handled(s) + 1);
    }
  }

  lemma {:induction false} RunKeepsOrder(cfg: Config, s: State, steps: seq<Step>)
    requires Ordered(s) && Runs(cfg, s, steps)
    ensures Ordered(Exec(cfg, s, steps))
    decreases |steps|
  {
    if steps != [] {
      var s' := Apply(cfg, s, steps[0]);
      StepKeepsFrontOrdered(cfg, s, steps[0]);
      forall l | 0 <= l < |s'.lanes| ensures LaneOrdered(s', l) {
        assert LaneOrdered(s, l);
        StepKeepsLaneOrdered(cfg, s, steps[0], l);
      }
      RunKeepsOrder(cfg, s', steps[1..]);
    }
  }

  /** Every handler first pushes its messages in the order they arrived, and messages of unknown
      games are turned away in that order. */
  lemma HandledInOrder(cfg: Config, s: State, l: nat)
    requires Reachable(cfg, s)
    ensures forall i, j | 0 <= i < j < |s.unknown| :: s.unknown[i] < s.unknown[j]
    ensures l < |s.lanes| ==>
      forall i, j | 0 <= i < j < |s.lanes[l].pushed| :: s.lanes[l].pushed[i] < s.lanes[l].pushed[j]
  {
    var steps :| Runs(cfg, Init(cfg), steps) && Exec(cfg, Init(cfg), steps) == s;
    RunKeepsOrder(cfg, Init(cfg), steps);
    if l < |s.lanes| {
      assert LaneOrdered(s, l);
    }
  }
}
