/** The APNS sender as a step system. One consumer goroutine counts Kafka messages in and one
    router goroutine hands them to the handler of their game. Every game has its own lane: a
    bounded push queue, a pool of push workers, a bounded response queue and one response
    goroutine, which confirms responses and pushes throttled notifications back into the very
    queue that feeds it. */
module ApnsPipeline {
  import opened ApnsReasons

  /** `handlers` maps a game to its lane; the other fields are the channel capacities, the size of
      every worker pool and `apns.retry.maxRetryAttempts`. */
  datatype Config = Config(
    handlers: map<string, nat>, apps: nat,
    inboxSize: nat, queueSize: nat, replySize: nat, workers: nat, maxAttempts: nat)
  {
    /** Every channel is buffered, every pool has a worker, some game has a handler, and every
        handler has a lane. */
    ghost predicate Valid() {
      && handlers != map[] && inboxSize >= 1 && queueSize >= 1 && replySize >= 1 && workers >= 1
      && (forall game | game in handlers :: handlers[game] < apps)
    }
  }

  /** Messages and notifications carry the number under which the message arrived. */
  datatype Message = Message(id: nat, game: string)
  datatype Notification = Notification(id: nat, attempts: nat)
  datatype Response = Response(n: Notification, reason: string)

  datatype Consumer = Polling | Receiving(msg: Message)
  datatype Router =
    | Routing
    | Checking(id: nat, lane: nat)         // inside HandleMessages, before the verdict
    | Sending(n: Notification, lane: nat)  // blocked on, or about to use, the push queue
    | Counting(lane: nat)                  // pushed, about to report "sent"
  datatype Worker = Waiting | Pushing(n: Notification) | Replying(r: Response)
  datatype Responder =
    | Listening
    | Handling(r: Response)
    | Retrying(n: Notification)            // attempt counted, sleeping or blocked on the push queue
    | Confirmed(r: Response)               // wait group released, result not yet reported

  /** The answers of APNS in the order they came, those that led to a retry, and those reported. */
  datatype Answers = Answers(given: seq<Response>, retried: seq<Response>, settled: seq<Response>)

  /** `pushed` lists the first push of every notification, `pushes` counts all pushes by id. The
      three lists after `sent` are the ids reported successful, reported failed, and lost to a push
      without a response. */
  datatype Lane = Lane(
    queue: seq<Notification>, workers: seq<Worker>, replies: seq<Response>, responder: Responder,
    pushed: seq<nat>, pushes: multiset<nat>, sent: nat,
    acked: seq<nat>, failed: seq<nat>, dropped: seq<nat>, answers: Answers)

  /** `pending` is the wait group, `games` the games of the arrivals by number. `confirmed` lists every
      release, `discarded` those made without a push, `unknown` the messages whose game has no
      handler. */
  datatype State = State(
    consumer: Consumer, inbox: seq<Message>, router: Router, lanes: seq<Lane>, pending: int,
    arrived: nat, games: seq<string>, confirmed: seq<nat>, discarded: seq<nat>, unknown: seq<nat>)

  datatype LaneStep =
    | WorkerTakes(w: nat)
    | ClientAnswers(w: nat, reason: string)
    | ClientFails(w: nat)
    | WorkerReplies(w: nat)
    | ResponderTakes
    | ResponderRetries
    | ResponderPushes
    | ResponderConfirms
    | ResponderReports

  datatype Step =
    | Receive(game: string)
    | Enqueue
    | Route
    | Discard
    | Accept
    | Push
    | CountSent
    | InLane(l: nat, step: LaneStep)

  predicate Retryable(cfg: Config, r: Response) {
    r.reason == TOO_MANY_REQUESTS && r.n.attempts < cfg.maxAttempts
  }

  predicate LaneEnabled(cfg: Config, lane: Lane, step: LaneStep) {
    match step
    case WorkerTakes(w) => w < |lane.workers| && lane.workers[w].Waiting? && lane.queue != []
    case ClientAnswers(w, _) => w < |lane.workers| && lane.workers[w].Pushing?
    case ClientFails(w) => w < |lane.workers| && lane.workers[w].Pushing?
    case WorkerReplies(w) => w < |lane.workers| && lane.workers[w].Replying? && |lane.replies| < cfg.replySize
    case ResponderTakes => lane.responder.Listening? && lane.replies != []
    case ResponderRetries => lane.responder.Handling? && Retryable(cfg, lane.responder.r)
    case ResponderPushes => lane.responder.Retrying? && |lane.queue| < cfg.queueSize
    case ResponderConfirms => lane.responder.Handling? && !Retryable(cfg, lane.responder.r)
    case ResponderReports => lane.responder.Confirmed?
  }

  function LaneApply(cfg: Config, lane: Lane, step: LaneStep): Lane
    requires LaneEnabled(cfg, lane, step)
  {
    match step
    case WorkerTakes(w) =>
      lane.(queue := lane.queue[1..], workers := lane.workers[w := Pushing(lane.queue[0])])
    case ClientAnswers(w, reason) =>
      var r := Response(lane.workers[w].n, reason);
      lane.(workers := lane.workers[w := Replying(r)], answers := lane.answers.(given := lane.answers.given + [r]))
    case ClientFails(w) =>
      lane.(workers := lane.workers[w := Waiting], dropped := lane.dropped + [lane.workers[w].n.id])
    case WorkerReplies(w) =>
      lane.(workers := lane.workers[w := Waiting], replies := lane.replies + [lane.workers[w].r])
    case ResponderTakes =>
      lane.(replies := lane.replies[1..], responder := Handling(lane.replies[0]))
    case ResponderRetries =>
      var r := lane.responder.r;
      lane.(responder := Retrying(r.n.(attempts := r.n.attempts + 1)),
            answers := lane.answers.(retried := lane.answers.retried + [r]))
    case ResponderPushes =>
      var n := lane.responder.n;
      lane.(queue := lane.queue + [n], responder := Listening, pushes := lane.pushes + multiset{n.id})
    case ResponderConfirms =>
      lane.(responder := Confirmed(lane.responder.r))
    case ResponderReports =>
      var r := lane.responder.r;
      var lane' := lane.(responder := Listening, answers := lane.answers.(settled := lane.answers.settled + [r]));
      if r.reason == SUCCESS then lane'.(acked := lane.acked + [r.n.id])
      else lane'.(failed := lane.failed + [r.n.id])
  }

  predicate Enabled(cfg: Config, s: State, step: Step) {
    match step
    case Receive(_) => s.consumer.Polling?
    case Enqueue => s.consumer.Receiving? && |s.inbox| < cfg.inboxSize
    case Route => s.router.Routing? && s.inbox != []
    case Discard => s.router.Checking?
    case Accept => s.router.Checking?
    case Push => s.router.Sending? && s.router.lane < |s.lanes| && |s.lanes[s.router.lane].queue| < cfg.queueSize
    case CountSent => s.router.Counting? && s.router.lane < |s.lanes|
    case InLane(l, ls) => l < |s.lanes| && LaneEnabled(cfg, s.lanes[l], ls)
  }

  function Apply(cfg: Config, s: State, step: Step): State
    requires Enabled(cfg, s, step)
  {
    match step
    case Receive(game) =>
      s.(consumer := Receiving(Message(s.arrived, game)), pending := s.pending + 1,
         arrived := s.arrived + 1, games := s.games + [game])
    case Enqueue =>
      s.(consumer := Polling, inbox := s.inbox + [s.consumer.msg])
    case Route =>
      var msg := s.inbox[0];
      if msg.game in cfg.handlers then
        s.(inbox := s.inbox[1..], router := Checking(msg.id, cfg.handlers[msg.game]))
      else
        s.(inbox := s.inbox[1..], unknown := s.unknown + [msg.id])
    case Discard =>
      s.(router := Routing, pending := s.pending - 1,
         confirmed := s.confirmed + [s.router.id], discarded := s.discarded + [s.router.id])
    case Accept =>
      s.(router := Sending(Notification(s.router.id, 1), s.router.lane))
    case Push =>
      var l, n := s.router.lane, s.router.n;
      var lane := s.lanes[l];
      s.(router := Counting(l),
         lanes := s.lanes[l := lane.(queue := lane.queue + [n],
                                     pushed := lane.pushed + [n.id], pushes := lane.pushes + multiset{n.id})])
    case CountSent =>
      var l := s.router.lane;
      s.(router := Routing, lanes := s.lanes[l := s.lanes[l].(sent := s.lanes[l].sent + 1)])
    case InLane(l, ls) =>
      var s' := s.(lanes := s.lanes[l := LaneApply(cfg, s.lanes[l], ls)]);
      if ls.ResponderConfirms? then
        s'.(pending := s.pending - 1, confirmed := s.confirmed + [s.lanes[l].responder.r.n.id])
      else
        s'
  }

  function EmptyLane(cfg: Config): Lane {
    Lane([], seq(cfg.workers, _ => Waiting), [], Listening, [], multiset{}, 0, [], [], [],
         Answers([], [], []))
  }

  function Init(cfg: Config): State {
    State(Polling, [], Routing, seq(cfg.apps, _ => EmptyLane(cfg)), 0, 0, [], [], [], [])
  }

  predicate Runs(cfg: Config, s: State, steps: seq<Step>)
    decreases |steps|
  {
    steps == [] || (Enabled(cfg, s, steps[0]) && Runs(cfg, Apply(cfg, s, steps[0]), steps[1..]))
  }

  function Exec(cfg: Config, s: State, steps: seq<Step>): State
    requires Runs(cfg, s, steps)
    decreases |steps|
  {
    if steps == [] then s else Exec(cfg, Apply(cfg, s, steps[0]), steps[1..])
  }

  /** Some run, with any arrivals, verdicts, answers and interleaving, ends in s. */
  ghost predicate Reachable(cfg: Config, s: State) {
    exists steps :: Runs(cfg, Init(cfg), steps) && Exec(cfg, Init(cfg), steps) == s
  }

  lemma {:induction false} RunsConcat(cfg: Config, s: State, a: seq<Step>, b: seq<Step>)
    requires Runs(cfg, s, a) && Runs(cfg, Exec(cfg, s, a), b)
    ensures Runs(cfg, s, a + b) && Exec(cfg, s, a + b) == Exec(cfg, Exec(cfg, s, a), b)
    decreases |a|
  {
    if a == [] {
      assert a + b == b;
    } else {
      assert (a + b)[1..] == a[1..] + b;
      RunsConcat(cfg, Apply(cfg, s, a[0]), a[1..], b);
    }
  }

  lemma ReachableStep(cfg: Config, s: State, step: Step)
    requires Reachable(cfg, s) && Enabled(cfg, s, step)
    ensures Reachable(cfg, Apply(cfg, s, step))
  {
    var steps :| Runs(cfg, Init(cfg), steps) && Exec(cfg, Init(cfg), steps) == s;
    var s' := Apply(cfg, s, step);
    assert [step][1..] == [] && Runs(cfg, s', []) && Exec(cfg, s', []) == s';
    assert Runs(cfg, s, [step]) && Exec(cfg, s, [step]) == s';
    RunsConcat(cfg, Init(cfg), steps, [step]);
  }
}
