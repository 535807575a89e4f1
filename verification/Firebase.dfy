/** The Firebase handler as a step system. The router goroutine calls HandleMessages; every push
    runs in a goroutine of its own, admitted by a channel of permits; a pool of goroutines takes
    the results from a bounded channel, reports them and releases the wait group. */
module Firebase {
  import opened Sums

  /** One number sizes the permit channel, the response channel and the response pool. */
  datatype Config = Config(workers: nat)

  datatype Router = Idle | Checking(id: nat) | Acquiring(id: nat)

  datatype Sender =
    | Calling(id: nat)                // waiting for the push client
    | Answered(id: nat, ok: bool)     // about to report the push as sent
    | Responding(id: nat, ok: bool)   // blocked on, or about to use, the response channel
    | Returning                       // deferred: giving the permit back

  datatype Response = Response(id: nat, ok: bool)

  datatype Handler = Waiting | Handling(r: Response) | Confirming(id: nat)

  /** `handed` counts the messages given to HandleMessages, which carry their number; `pending` is
      their share of the wait group. The lists record every report, every release and every answer of
      the push client. */
  datatype State = State(
    router: Router, permits: nat, senders: seq<Sender>, responses: seq<Response>, handlers: seq<Handler>,
    handed: nat, pending: int,
    rejected: seq<nat>, sent: seq<nat>, acked: seq<nat>, failed: seq<nat>, confirmed: seq<nat>,
    answers: seq<Response>)

  datatype Step =
    | Hand
    | Reject                  // unreadable, expired or over the rate limit
    | Pass
    | Acquire
    | ClientReturns(i: nat, ok: bool)
    | ReportSent(i: nat)
    | Respond(i: nat)
    | ReturnPermit(i: nat)
    | TakeResponse(w: nat)
    | ReportResult(w: nat)
    | Confirm(w: nat)

  predicate Enabled(cfg: Config, s: State, step: Step) {
    match step
    case Hand => s.router.Idle?
    case Reject => s.router.Checking?
    case Pass => s.router.Checking?
    case Acquire => s.router.Acquiring? && s.permits > 0
    case ClientReturns(i, _) => i < |s.senders| && s.senders[i].Calling?
    case ReportSent(i) => i < |s.senders| && s.senders[i].Answered?
    case Respond(i) => i < |s.senders| && s.senders[i].Responding? && |s.responses| < cfg.workers
    case ReturnPermit(i) => i < |s.senders| && s.senders[i].Returning? && s.permits < cfg.workers
    case TakeResponse(w) => w < |s.handlers| && s.handlers[w].Waiting? && s.responses != []
    case ReportResult(w) => w < |s.handlers| && s.handlers[w].Handling?
    case Confirm(w) => w < |s.handlers| && s.handlers[w].Confirming?
  }

  function Apply(cfg: Config, s: State, step: Step): State
    requires Enabled(cfg, s, step)
  {
    match step
    case Hand => s.(router := Checking(s.handed), handed := s.handed + 1, pending := s.pending + 1)
    case Reject =>
      s.(router := Idle, pending := s.pending - 1,
         rejected := s.rejected + [s.router.id], confirmed := s.confirmed + [s.router.id])
    case Pass => s.(router := Acquiring(s.router.id))
    case Acquire => s.(router := Idle, permits := s.permits - 1, senders := s.senders + [Calling(s.router.id)])
    case ClientReturns(i, ok) =>
      s.(senders := s.senders[i := Answered(s.senders[i].id, ok)],
         answers := s.answers + [Response(s.senders[i].id, ok)])
    case ReportSent(i) =>
      s.(senders := s.senders[i := Responding(s.senders[i].id, s.senders[i].ok)], sent := s.sent + [s.senders[i].id])
    case Respond(i) =>
      s.(senders := s.senders[i := Returning],
         responses := s.responses + [Response(s.senders[i].id, s.senders[i].ok)])
    case ReturnPermit(i) =>
      s.(permits := s.permits + 1, senders := s.senders[..i] + s.senders[i + 1..])
    case TakeResponse(w) =>
      s.(responses := s.responses[1..], handlers := s.handlers[w := Handling(s.responses[0])])
    case ReportResult(w) =>
      var r := s.handlers[w].r;
      if r.ok then s.(handlers := s.handlers[w := Confirming(r.id)], acked := s.acked + [r.id])
      else s.(handlers := s.handlers[w := Confirming(r.id)], failed := s.failed + [r.id])
    case Confirm(w) =>
      s.(handlers := s.handlers[w := Waiting], pending := s.pending - 1, confirmed := s.confirmed + [s.handlers[w].id])
  }

  /** The constructor fills the permit channel; HandleResponses starts the pool. */
  function Init(cfg: Config): State {
    State(Idle, cfg.workers, [], [], seq(cfg.workers, _ => Waiting), 0, 0, [], [], [], [], [], [])
  }

  ghost predicate Runs(cfg: Config, s: State, steps: seq<Step>, s': State)
    decreases |steps|
  {
    if steps == [] then s == s'
    else Enabled(cfg, s, steps[0]) && Runs(cfg, Apply(cfg, s, steps[0]), steps[1..], s')
  }

  ghost predicate Reachable(cfg: Config, s: State) {
    exists steps :: Runs(cfg, Init(cfg), steps, s)
  }

  // ---------- Weights of places ----------

  function RouterWeight(g: nat -> nat, r: Router): nat {
    match r
    case Idle => 0
    case Checking(id) => g(id)
    case Acquiring(id) => g(id)
  }

  function SenderWeight(g: nat -> nat, x: Sender): nat {
    match x
    case Calling(id) => g(id)
    case Answered(id, _) => g(id)
    case Responding(id, _) => g(id)
    case Returning => 0
  }

  function OfSender(g: nat -> nat): Sender -> nat {
    (x: Sender) => SenderWeight(g, x)
  }

  function OfReportedSender(g: nat -> nat): Sender -> nat {
    (x: Sender) => if x.Responding? then g(x.id) else 0
  }

  function OfResponse(g: nat -> nat): Response -> nat {
    (r: Response) => g(r.id)
  }

  function HandlingWeight(g: nat -> nat, h: Handler): nat {
    if h.Handling? then g(h.r.id) else 0
  }

  function ConfirmingWeight(g: nat -> nat, h: Handler): nat {
    if h.Confirming? then g(h.id) else 0
  }

  function OfHandling(g: nat -> nat): Handler -> nat {
    (h: Handler) => HandlingWeight(g, h)
  }

  function OfConfirming(g: nat -> nat): Handler -> nat {
    (h: Handler) => ConfirmingWeight(g, h)
  }

  /** What has been accepted and is not confirmed. */
  function InFlight(g: nat -> nat, s: State): nat {
    Sum(OfSender(g), s.senders) + Sum(OfResponse(g), s.responses)
    + Sum(OfHandling(g), s.handlers) + Sum(OfConfirming(g), s.handlers)
  }

  ghost predicate Balanced(g: nat -> nat, s: State) {
    && RouterWeight(g, s.router) + InFlight(g, s) + Sum(g, s.confirmed) == Total(g, s.handed)
    && Sum(g, s.sent) == Sum(OfReportedSender(g), s.senders) + Sum(OfResponse(g), s.responses)
         + Sum(OfHandling(g), s.handlers) + Sum(g, s.acked) + Sum(g, s.failed)
    && Sum(g, s.acked) + Sum(g, s.failed) + Sum(g, s.rejected) == Sum(OfConfirming(g), s.handlers) + Sum(g, s.confirmed)
  }

  ghost predicate Inv(cfg: Config, s: State) {
    && s.permits + |s.senders| == cfg.workers && |s.responses| <= cfg.workers && |s.handlers| == cfg.workers
    && s.pending == s.handed - |s.confirmed|
    && forall g: nat -> nat :: Balanced(g, s)
  }

  lemma SenderUpdate(g: nat -> nat, s: State, i: nat, x: Sender)
    requires i < |s.senders|
    ensures Sum(OfSender(g), s.senders[i := x]) + SenderWeight(g, s.senders[i])
         == Sum(OfSender(g), s.senders) + SenderWeight(g, x)
    ensures Sum(OfReportedSender(g), s.senders[i := x]) + OfReportedSender(g)(s.senders[i])
         == Sum(OfReportedSender(g), s.senders) + OfReportedSender(g)(x)
  {
    SumUpdate(OfSender(g), s.senders, i, x);
    SumUpdate(OfReportedSender(g), s.senders, i, x);
  }

  lemma HandlerUpdate(g: nat -> nat, s: State, w: nat, h: Handler)
    requires w < |s.handlers|
    ensures Sum(OfHandling(g), s.handlers[w := h]) + HandlingWeight(g, s.handlers[w])
         == Sum(OfHandling(g), s.handlers) + HandlingWeight(g, h)
    ensures Sum(OfConfirming(g), s.handlers[w := h]) + ConfirmingWeight(g, s.handlers[w])
         == Sum(OfConfirming(g), s.handlers) + ConfirmingWeight(g, h)
  {
    SumUpdate(OfHandling(g), s.handlers, w, h);
    SumUpdate(OfConfirming(g), s.handlers, w, h);
  }

  lemma RouterStepBalances(g: nat -> nat, cfg: Config, s: State, step: Step)
    requires Balanced(g, s) && Enabled(cfg, s, step) && (step.Hand? || step.Reject? || step.Pass? || step.Acquire?)
    ensures Balanced(g, Apply(cfg, s, step))
  {
    match step
    case Reject =>
      SumAppend(g, s.rejected, s.router.id);
      SumAppend(g, s.confirmed, s.router.id);
    case Acquire =>
      SumAppend(OfSender(g), s.senders, Calling(s.router.id));
      SumAppend(OfReportedSender(g), s.senders, Calling(s.router.id));
    case _ =>
  }

  lemma SenderStepBalances(g: nat -> nat, cfg: Config, s: State, step: Step)
    requires Balanced(g, s) && Enabled(cfg, s, step)
    requires step.ClientReturns? || step.ReportSent? || step.Respond? || step.ReturnPermit?
    ensures Balanced(g, Apply(cfg, s, step))
  {
    var x := s.senders[step.i];
    match step
    case ClientReturns(i, ok) => SenderUpdate(g, s, i, Answered(x.id, ok));
    case ReportSent(i) =>
      SenderUpdate(g, s, i, Responding(x.id, x.ok));
      SumAppend(g, s.sent, x.id);
    case Respond(i) =>
      SenderUpdate(g, s, i, Returning);
      SumAppend(OfResponse(g), s.responses, Response(x.id, x.ok));
    case ReturnPermit(i) =>
      SumRemove(OfSender(g), s.senders, i);
      SumRemove(OfReportedSender(g), s.senders, i);
  }

  lemma TakeResponseBalances(g: nat -> nat, cfg: Config, s: State, w: nat)
    requires Balanced(g, s) && Enabled(cfg, s, TakeResponse(w))
    ensures Balanced(g, Apply(cfg, s, TakeResponse(w)))
  {
    HandlerUpdate(g, s, w, Handling(s.responses[0]));
  }

  lemma ReportResultBalances(g: nat -> nat, cfg: Config, s: State, w: nat)
    requires Balanced(g, s) && Enabled(cfg, s, ReportResult(w))
    ensures Balanced(g, Apply(cfg, s, ReportResult(w)))
  {
    var id := s.handlers[w].r.id;
    HandlerUpdate(g, s, w, Confirming(id));
    if s.handlers[w].r.ok {
      SumAppend(g, s.acked, id);
    } else {
      SumAppend(g, s.failed, id);
    }
  }

  lemma ConfirmBalances(g: nat -> nat, cfg: Config, s: State, w: nat)
    requires Balanced(g, s) && Enabled(cfg, s, Confirm(w))
    ensures Balanced(g, Apply(cfg, s, Confirm(w)))
  {
    HandlerUpdate(g, s, w, Waiting);
    SumAppend(g, s.confirmed, s.handlers[w].id);
  }

  lemma StepKeepsInv(cfg: Config, s: State, step: Step)
    requires Inv(cfg, s) && Enabled(cfg, s, step)
    ensures Inv(cfg, Apply(cfg, s, step))
  {
    forall g: nat -> nat ensures Balanced(g, Apply(cfg, s, step)) {
      assert Balanced(g, s);
      match step
      case Hand => RouterStepBalances(g, cfg, s, step);
      case Reject => RouterStepBalances(g, cfg, s, step);
      case Pass => RouterStepBalances(g, cfg, s, step);
      case Acquire => RouterStepBalances(g, cfg, s, step);
      case TakeResponse(w) => TakeResponseBalances(g, cfg, s, w);
      case ReportResult(w) => ReportResultBalances(g, cfg, s, w);
      case Confirm(w) => ConfirmBalances(g, cfg, s, w);
      case _ => SenderStepBalances(g, cfg, s, step);
    }
  }

  lemma {:induction false} RunKeepsInv(cfg: Config, s: State, steps: seq<Step>, s': State)
    requires Inv(cfg, s) && Runs(cfg, s, steps, s')
    ensures Inv(cfg, s')
    decreases |steps|
  {
    if steps != [] {
      StepKeepsInv(cfg, s, steps[0]);
      RunKeepsInv(cfg, Apply(cfg, s, steps[0]), steps[1..], s');
    }
  }

  lemma ReachableInv(cfg: Config, s: State)
    requires Reachable(cfg, s)
    ensures Inv(cfg, s)
  {
    forall g: nat -> nat ensures Balanced(g, Init(cfg)) {
      SumZero(OfHandling(g), Init(cfg).handlers);
      SumZero(OfConfirming(g), Init(cfg).handlers);
    }
    var steps :| Runs(cfg, Init(cfg), steps, s);
    RunKeepsInv(cfg, Init(cfg), steps, s);
  }

  // ---------- The semaphore ----------

  /** Free permits and goroutines holding one always add up, so giving a permit back never blocks. */
  lemma PermitsAddUp(cfg: Config, s: State, i: nat)
    requires Reachable(cfg, s)
    ensures s.permits + |s.senders| == cfg.workers
    ensures i < |s.senders| && s.senders[i].Returning? ==> Enabled(cfg, s, ReturnPermit(i))
  {
    ReachableInv(cfg, s);
  }

  lemma {:induction false} SumAtMost<T>(f: T -> nat, s: seq<T>)
    requires forall x | x in s :: f(x) <= 1
    ensures Sum(f, s) <= |s|
  {
    if s != [] {
      SumAtMost(f, s[1..]);
    }
  }

  /** At most three messages per worker are accepted and unconfirmed, however many arrive. */
  lemma InFlightBounded(cfg: Config, s: State)
    requires Reachable(cfg, s)
    ensures InFlight(One(), s) <= 3 * cfg.workers
  {
    ReachableInv(cfg, s);
    SumAtMost(OfSender(One()), s.senders);
    SumAtMost(OfResponse(One()), s.responses);
    var both := (h: Handler) => HandlingWeight(One(), h) + ConfirmingWeight(One(), h);
    SumPlus(OfHandling(One()), OfConfirming(One()), both, s.handlers);
    SumAtMost(both, s.handlers);
  }

  // ---------- The ledger ----------

  /** The wait group counts the unconfirmed messages; each message is confirmed at most once, and
      is either confirmed or still held by the router, a sender, the channel or a handler. */
  lemma ConfirmedOnce(cfg: Config, s: State, id: nat)
    requires Reachable(cfg, s)
    ensures s.pending == RouterWeight(One(), s.router) + InFlight(One(), s)
    ensures RouterWeight(Is(id), s.router) + InFlight(Is(id), s) + multiset(s.confirmed)[id]
         == if id < s.handed then 1 else 0
  {
    ReachableInv(cfg, s);
    assert Balanced(One(), s) && Balanced(Is(id), s);
    SumOne(s.confirmed);
    TotalOne(s.handed);
    SumIs(id, s.confirmed);
    TotalIs(id, s.handed);
  }

  lemma ReportedAreSenders(g: nat -> nat, s: State)
    ensures Sum(OfReportedSender(g), s.senders) <= Sum(OfSender(g), s.senders)
  {
    SumMonotone(OfReportedSender(g), OfSender(g), s.senders);
  }

  /** A confirmed message was rejected, or its success or failure has already been reported, once.
      No message is both sent and rejected, so one that was sent is confirmed after its result. */
  lemma ConfirmedAfterReport(cfg: Config, s: State, id: nat)
    requires Reachable(cfg, s)
    ensures multiset(s.confirmed)[id] <= multiset(s.acked)[id] + multiset(s.failed)[id] + multiset(s.rejected)[id] <= 1
    ensures multiset(s.sent)[id] + multiset(s.rejected)[id] <= 1
    ensures id in s.sent && id in s.confirmed ==> multiset(s.acked)[id] + multiset(s.failed)[id] == 1
  {
    ReachableInv(cfg, s);
    assert Balanced(Is(id), s);
    ReportedAreSenders(Is(id), s);
    SumIs(id, s.sent);
    SumIs(id, s.acked);
    SumIs(id, s.failed);
    SumIs(id, s.rejected);
    SumIs(id, s.confirmed);
    TotalIs(id, s.handed);
    assert id in s.sent ==> multiset(s.sent)[id] >= 1;
    assert id in s.confirmed ==> multiset(s.confirmed)[id] >= 1;
  }

  /** Results never outnumber pushes reported as sent, message by message and in total. */
  lemma ResultsFollowSent(cfg: Config, s: State, id: nat)
    requires Reachable(cfg, s)
    ensures |s.acked| + |s.failed| <= |s.sent|
    ensures multiset(s.acked)[id] + multiset(s.failed)[id] <= multiset(s.sent)[id]
  {
    ReachableInv(cfg, s);
    assert Balanced(One(), s) && Balanced(Is(id), s);
    SumOne(s.acked);
    SumOne(s.failed);
    SumOne(s.sent);
    SumIs(id, s.acked);
    SumIs(id, s.failed);
    SumIs(id, s.sent);
  }

  // ---------- Progress ----------

  ghost predicate Quiet(cfg: Config, s: State) {
    forall step | Enabled(cfg, s, step) :: step.Hand?
  }

  predicate AllDone(s: State) {
    s.router.Idle? && s.senders == [] && s.responses == [] && forall w | 0 <= w < |s.handlers| :: s.handlers[w].Waiting?
  }

  lemma HandlersMove(cfg: Config, s: State)
    requires Inv(cfg, s) && Quiet(cfg, s)
    ensures forall w | 0 <= w < |s.handlers| :: s.handlers[w].Waiting?
    ensures |s.handlers| > 0 ==> s.responses == []
  {
    forall w | 0 <= w < |s.handlers| ensures s.handlers[w].Waiting? {
      assert !Enabled(cfg, s, ReportResult(w)) && !Enabled(cfg, s, Confirm(w));
    }
    assert !Enabled(cfg, s, TakeResponse(0));
  }

  lemma SenderMoves(cfg: Config, s: State) returns (step: Step)
    requires Inv(cfg, s) && s.responses == [] && s.senders != []
    ensures Enabled(cfg, s, step) && !step.Hand?
  {
    match s.senders[0]
    case Calling(_) => step := ClientReturns(0, true);
    case Answered(_, _) => step := ReportSent(0);
    case Responding(_, _) => step := Respond(0);
    case Returning => step := ReturnPermit(0);
  }

  /** With a worker, the handler only comes to rest when everything is confirmed and every permit
      is back. */
  lemma RestMeansDone(cfg: Config, s: State)
    requires cfg.workers >= 1 && Reachable(cfg, s)
    ensures Quiet(cfg, s) <==> AllDone(s)
  {
    ReachableInv(cfg, s);
    if Quiet(cfg, s) {
      HandlersMove(cfg, s);
      if s.senders != [] {
        var step := SenderMoves(cfg, s);
      }
      assert !Enabled(cfg, s, Acquire) && !Enabled(cfg, s, Pass);
    }
  }

  ghost predicate DeadlockFree(cfg: Config) {
    forall s | Reachable(cfg, s) && Quiet(cfg, s) :: AllDone(s)
  }

  /** Without a worker the first accepted message blocks the router for good. */
  lemma DeadlockFreeIff(cfg: Config)
    ensures DeadlockFree(cfg) <==> cfg.workers >= 1
  {
    if cfg.workers >= 1 {
      forall s | Reachable(cfg, s) && Quiet(cfg, s) ensures AllDone(s) {
        RestMeansDone(cfg, s);
      }
    } else {
      var s0 := Init(cfg);
      var s1 := Apply(cfg, s0, Hand);
      var s2 := Apply(cfg, s1, Pass);
      assert Runs(cfg, s2, [], s2);
      assert Runs(cfg, s1, [Pass], s2) by { assert [Pass][1..] == []; }
      assert Runs(cfg, s0, [Hand, Pass], s2) by { assert [Hand, Pass][1..] == [Pass]; }
      assert Quiet(cfg, s2) && !AllDone(s2);
    }
  }

  // ---------- Termination ----------

  function SenderFuel(x: Sender): nat {
    match x
    case Calling(_) => 7
    case Answered(_, _) => 6
    case Responding(_, _) => 5
    case Returning => 1
  }

  function HandlerFuel(h: Handler): nat {
    match h
    case Waiting => 0
    case Handling(_) => 2
    case Confirming(_) => 1
  }

  function ResponseFuel(r: Response): nat {
    3
  }

  function Measure(s: State): nat {
    (match s.router case Idle => 0 case Checking(_) => 9 case Acquiring(_) => 8)
    + Sum(SenderFuel, s.senders) + Sum(ResponseFuel, s.responses) + Sum(HandlerFuel, s.handlers)
  }

  /** A message costs at most nine further steps. */
  lemma StepSpends(cfg: Config, s: State, step: Step)
    requires Enabled(cfg, s, step)
    ensures var s' := Apply(cfg, s, step);
      if step.Hand? then Measure(s') == Measure(s) + 9 else Measure(s') < Measure(s)
  {
    var s' := Apply(cfg, s, step);
    match step
    case Acquire => SumAppend(SenderFuel, s.senders, Calling(s.router.id));
    case ClientReturns(i, _) => SumUpdate(SenderFuel, s.senders, i, s'.senders[i]);
    case ReportSent(i) => SumUpdate(SenderFuel, s.senders, i, s'.senders[i]);
    case Respond(i) =>
      SumUpdate(SenderFuel, s.senders, i, s'.senders[i]);
      SumAppend(ResponseFuel, s.responses, Response(s.senders[i].id, s.senders[i].ok));
    case ReturnPermit(i) => SumRemove(SenderFuel, s.senders, i);
    case TakeResponse(w) => SumUpdate(HandlerFuel, s.handlers, w, s'.handlers[w]);
    case ReportResult(w) => SumUpdate(HandlerFuel, s.handlers, w, s'.handlers[w]);
    case Confirm(w) => SumUpdate(HandlerFuel, s.handlers, w, s'.handlers[w]);
    case _ =>
  }

  function Hands(steps: seq<Step>): nat {
    if steps == [] then 0 else (if steps[0].Hand? then 1 else 0) + Hands(steps[1..])
  }

  lemma {:induction false} RunSpends(cfg: Config, s: State, steps: seq<Step>, s': State)
    requires Runs(cfg, s, steps, s')
    ensures Measure(s') + |steps| <= Measure(s) + 10 * Hands(steps)
    decreases |steps|
  {
    if steps != [] {
      StepSpends(cfg, s, steps[0]);
      RunSpends(cfg, Apply(cfg, s, steps[0]), steps[1..], s');
    }
  }

  /** A run has at most ten steps per message handed over. */
  lemma RunsTerminate(cfg: Config, steps: seq<Step>, s: State)
    requires Runs(cfg, Init(cfg), steps, s)
    ensures |steps| <= 10 * Hands(steps)
  {
    RunSpends(cfg, Init(cfg), steps, s);
    SumZero(HandlerFuel, Init(cfg).handlers);
  }
}
