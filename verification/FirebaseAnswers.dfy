/** What the Firebase handler reports about the answers of the push client: successes for the pushes
    that went through, failures for those that did not. */
module FirebaseAnswers {
  import opened Firebase
  import opened Sums

  // ---------- Where answers are ----------

  function OfSending(h: Response -> nat): Sender -> nat {
    (x: Sender) => match x
      case Answered(id, ok) => h(Response(id, ok))
      case Responding(id, ok) => h(Response(id, ok))
      case _ => 0
  }

  function OfHandler(h: Response -> nat): Handler -> nat {
    (x: Handler) => if x.Handling? then h(x.r) else 0
  }

  function OfResult(h: Response -> nat, ok: bool): nat -> nat {
    (id: nat) => h(Response(id, ok))
  }

  /** An answer is with its sender, in the channel, with a handler, or reported as what it was. */
  ghost predicate AnswersShared(h: Response -> nat, s: State) {
    Sum(h, s.answers) ==
      Sum(OfSending(h), s.senders) + Sum(h, s.responses) + Sum(OfHandler(h), s.handlers)
      + Sum(OfResult(h, true), s.acked) + Sum(OfResult(h, false), s.failed)
  }

  lemma SenderStepShares(h: Response -> nat, cfg: Config, s: State, step: Step)
    requires AnswersShared(h, s) && Enabled(cfg, s, step)
    requires step.ClientReturns? || step.ReportSent? || step.Respond? || step.ReturnPermit?
    ensures AnswersShared(h, Apply(cfg, s, step))
  {
    var s' := Apply(cfg, s, step);
    match step
    case ClientReturns(i, ok) =>
      SumUpdate(OfSending(h), s.senders, i, s'.senders[i]);
      SumAppend(h, s.answers, Response(s.senders[i].id, ok));
    case ReportSent(i) => SumUpdate(OfSending(h), s.senders, i, s'.senders[i]);
    case Respond(i) =>
      SumUpdate(OfSending(h), s.senders, i, Returning);
      SumAppend(h, s.responses, Response(s.senders[i].id, s.senders[i].ok));
    case ReturnPermit(i) => SumRemove(OfSending(h), s.senders, i);
  }

  lemma HandlerStepShares(h: Response -> nat, cfg: Config, s: State, step: Step)
    requires AnswersShared(h, s) && Enabled(cfg, s, step)
    requires step.TakeResponse? || step.ReportResult? || step.Confirm?
    ensures AnswersShared(h, Apply(cfg, s, step))
  {
    var s' := Apply(cfg, s, step);
    match step
    case TakeResponse(w) => SumUpdate(OfHandler(h), s.handlers, w, s'.handlers[w]);
    case ReportResult(w) =>
      SumUpdate(OfHandler(h), s.handlers, w, s'.handlers[w]);
      SumAppend(OfResult(h, true), s.acked, s.handlers[w].r.id);
      SumAppend(OfResult(h, false), s.failed, s.handlers[w].r.id);
    case Confirm(w) => SumUpdate(OfHandler(h), s.handlers, w, Waiting);
  }

  lemma StepShares(h: Response -> nat, cfg: Config, s: State, step: Step)
    requires AnswersShared(h, s) && Enabled(cfg, s, step)
    ensures AnswersShared(h, Apply(cfg, s, step))
  {
    if step.ClientReturns? || step.ReportSent? || step.Respond? || step.ReturnPermit? {
      SenderStepShares(h, cfg, s, step);
    } else if step.TakeResponse? || step.ReportResult? || step.Confirm? {
      HandlerStepShares(h, cfg, s, step);
    } else if step.Acquire? {
      SumAppend(OfSending(h), s.senders, Calling(s.router.id));
    }
  }

  lemma {:induction false} RunShares(h: Response -> nat, cfg: Config, s: State, steps: seq<Step>, s': State)
    requires AnswersShared(h, s) && Runs(cfg, s, steps, s')
    ensures AnswersShared(h, s')
    decreases |steps|
  {
    if steps != [] {
      StepShares(h, cfg, s, steps[0]);
      RunShares(h, cfg, Apply(cfg, s, steps[0]), steps[1..], s');
    }
  }

  /** In every state, for every weighting, the answers are shared out among the places they pass. */
  lemma ReachableShares(h: Response -> nat, cfg: Config, s: State)
    requires Reachable(cfg, s)
    ensures AnswersShared(h, s)
  {
    var steps :| Runs(cfg, Init(cfg), steps, s);
    SumZero(OfHandler(h), Init(cfg).handlers);
    RunShares(h, cfg, Init(cfg), steps, s);
  }

  // ---------- What is reported ----------

  /** One for the answer `ok` about message id. */
  function Answer(id: nat, ok: bool): Response -> nat {
    (r: Response) => if r == Response(id, ok) then 1 else 0
  }

  lemma {:induction false} ResultsOfAnswer(id: nat, ok: bool, reported: bool, ids: seq<nat>)
    ensures Sum(OfResult(Answer(id, ok), reported), ids) == if reported == ok then multiset(ids)[id] else 0
  {
    if ids != [] {
      ResultsOfAnswer(id, ok, reported, ids[1..]);
      assert ids == [ids[0]] + ids[1..];
    }
  }

  lemma {:induction false} CountAnswers(id: nat, ok: bool, answers: seq<Response>)
    ensures Sum(Answer(id, ok), answers) == multiset(answers)[Response(id, ok)]
  {
    if answers != [] {
      CountAnswers(id, ok, answers[1..]);
      assert answers == [answers[0]] + answers[1..];
    }
  }

  /** A success is only ever reported for a push that went through, a failure for one that did not;
      once all is done, each answer has been reported as what it was. */
  lemma ReportedAsAnswered(cfg: Config, s: State, id: nat)
    requires Reachable(cfg, s)
    ensures multiset(s.acked)[id] <= multiset(s.answers)[Response(id, true)]
    ensures multiset(s.failed)[id] <= multiset(s.answers)[Response(id, false)]
    ensures AllDone(s) ==>
      && multiset(s.acked)[id] == multiset(s.answers)[Response(id, true)]
      && multiset(s.failed)[id] == multiset(s.answers)[Response(id, false)]
  {
    forall ok ensures
      var reported := if ok then multiset(s.acked)[id] else multiset(s.failed)[id];
      var given := multiset(s.answers)[Response(id, ok)];
      reported <= given && (AllDone(s) ==> reported == given)
    {
      ReachableShares(Answer(id, ok), cfg, s);
      ResultsOfAnswer(id, ok, true, s.acked);
      ResultsOfAnswer(id, ok, false, s.failed);
      CountAnswers(id, ok, s.answers);
      if AllDone(s) {
        SumZero(OfHandler(Answer(id, ok)), s.handlers);
      }
    }
  }

  function OfId(id: nat): Response -> nat {
    (r: Response) => if r.id == id then 1 else 0
  }

  lemma {:induction false} ResultsOfId(id: nat, reported: bool, ids: seq<nat>)
    ensures Sum(OfResult(OfId(id), reported), ids) == Sum(Is(id), ids)
  {
    if ids != [] {
      ResultsOfId(id, reported, ids[1..]);
    }
  }

  lemma SendingIsHeld(id: nat, s: State)
    ensures Sum(OfSending(OfId(id)), s.senders) <= Sum(OfSender(Is(id)), s.senders)
    ensures Sum(OfId(id), s.responses) <= Sum(Firebase.OfResponse(Is(id)), s.responses)
    ensures Sum(OfHandler(OfId(id)), s.handlers) <= Sum(OfHandling(Is(id)), s.handlers)
  {
    SumMonotone(OfSending(OfId(id)), OfSender(Is(id)), s.senders);
    SumMonotone(OfId(id), Firebase.OfResponse(Is(id)), s.responses);
    SumMonotone(OfHandler(OfId(id)), OfHandling(Is(id)), s.handlers);
  }

  /** No message is pushed twice: the client answers about it at most once. */
  lemma AnsweredOnce(cfg: Config, s: State, id: nat)
    requires Reachable(cfg, s)
    ensures Sum(OfId(id), s.answers) <= 1
  {
    ReachableInv(cfg, s);
    assert Balanced(Is(id), s);
    ReachableShares(OfId(id), cfg, s);
    ResultsOfId(id, true, s.acked);
    ResultsOfId(id, false, s.failed);
    SendingIsHeld(id, s);
    TotalIs(id, s.handed);
  }
}
