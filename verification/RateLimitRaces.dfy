/** Concurrent calls of the rate limiter. A call reads the counter in one step and, if it passes,
    increments it in a later one; any number of other steps may come between the two. */
module RateLimitRaces {
  import opened RateLimiter
  import Redis

  /** At most `callers` calls for one key are in progress at once. `prompt` says that every call
      finishes in the minute it started in. */
  datatype Config = Config(limit: int, callers: nat, prompt: bool)

  /** A device in an absolute minute. */
  type Slot = (string, nat)

  /** `granted` collects the calls let through, `waiting` those of them that have not incremented
      their counter yet, `counted` the others. */
  datatype State = State(
    now: nat, db: Redis.Db, granted: multiset<Slot>, waiting: multiset<Slot>, counted: multiset<Slot>)

  datatype Step = Tick(millis: nat) | Read(device: string) | Increment(slot: Slot)

  function SlotOf(s: State, device: string): Slot {
    (device, MinuteOf(s.now))
  }

  function KeyOf(slot: Slot): string {
    Key(slot.0, slot.1)
  }

  predicate Enabled(cfg: Config, s: State, step: Step) {
    match step
    case Tick(_) => true
    case Read(device) => s.waiting[SlotOf(s, device)] < cfg.callers
    case Increment(slot) => slot in s.waiting && (cfg.prompt ==> slot.1 == MinuteOf(s.now))
  }

  /** The first half of Allow: the counter read, the comparison, and the verdict. */
  predicate Passes(cfg: Config, s: State, device: string) {
    Reading(s.db, KeyOf(SlotOf(s, device)), s.now) < cfg.limit
  }

  function Apply(cfg: Config, s: State, step: Step): State
    requires Enabled(cfg, s, step)
  {
    match step
    case Tick(millis) => s.(now := s.now + millis)
    case Read(device) =>
      var slot := SlotOf(s, device);
      if Passes(cfg, s, device) then s.(granted := s.granted + multiset{slot}, waiting := s.waiting + multiset{slot})
      else s
    case Increment(slot) =>
      s.(db := Redis.Incremented(s.db, KeyOf(slot), s.now, MINUTE),
         waiting := s.waiting - multiset{slot}, counted := s.counted + multiset{slot})
  }

  function Init(): State {
    State(0, map[], multiset{}, multiset{}, multiset{})
  }

  ghost predicate Runs(cfg: Config, s: State, steps: seq<Step>, s': State)
    decreases |steps|
  {
    if steps == [] then s == s'
    else Enabled(cfg, s, steps[0]) && Runs(cfg, Apply(cfg, s, steps[0]), steps[1..], s')
  }

  ghost predicate Reachable(cfg: Config, s: State) {
    exists steps :: Runs(cfg, Init(), steps, s)
  }

  /** The two halves, run back to back, are a call of Allow. */
  lemma HalvesMakeAllow(cfg: Config, s: State, device: string)
    requires Numeric(s.db) && Enabled(cfg, s, Read(device))
    ensures var whole := Decision(cfg.limit, s.db, s.now, device, Redis.NoFault, Redis.NoFault);
      && whole.0 == Passes(cfg, s, device)
      && (whole.0 ==>
            var s' := Apply(cfg, s, Read(device));
            Enabled(cfg, s', Increment(SlotOf(s, device)))
            && Apply(cfg, s', Increment(SlotOf(s, device))).db == whole.1)
      && (!whole.0 ==> Apply(cfg, s, Read(device)).db == whole.1)
  {
  }

  // ---------- The bound ----------

  function Bound(cfg: Config): nat {
    if cfg.limit <= 0 || cfg.callers == 0 then 0 else cfg.limit + cfg.callers - 1
  }

  /** Once a call of the current minute has been counted, its key stays readable to the end of the
      minute and reads no less than the calls counted. */
  ghost predicate Kept(s: State, slot: Slot) {
    s.counted[slot] > 0 ==>
      && KeyOf(slot) in s.db && s.db[KeyOf(slot)].value.Number? && s.db[KeyOf(slot)].value.n >= s.counted[slot]
      && s.db[KeyOf(slot)].deadline.Some? && s.db[KeyOf(slot)].deadline.value >= (slot.1 + 1) * MINUTE
  }

  ghost predicate Positive(db: Redis.Db) {
    forall key | key in db :: db[key].value.Number? && db[key].value.n >= 1
  }

  ghost predicate Inv(cfg: Config, s: State) {
    && Positive(s.db)
    && s.granted == s.waiting + s.counted
    && (forall slot: Slot :: slot.1 > MinuteOf(s.now) ==> s.granted[slot] == 0)
    && (forall slot: Slot :: slot.1 == MinuteOf(s.now) ==> Kept(s, slot))
    && (forall slot: Slot :: s.granted[slot] <= Bound(cfg))
  }

  lemma KeptReads(s: State, slot: Slot)
    requires Kept(s, slot) && slot.1 == MinuteOf(s.now)
    ensures s.counted[slot] > 0 ==>
      Redis.Live(s.db, KeyOf(slot), s.now) && Reading(s.db, KeyOf(slot), s.now) >= s.counted[slot]
  {
    assert s.now < (slot.1 + 1) * MINUTE;
  }

  lemma ReadKeepsInv(cfg: Config, s: State, device: string)
    requires Inv(cfg, s) && Enabled(cfg, s, Read(device))
    ensures Inv(cfg, Apply(cfg, s, Read(device)))
  {
    var slot := SlotOf(s, device);
    var s' := Apply(cfg, s, Read(device));
    KeptReads(s, slot);
    assert s.granted[slot] == s.waiting[slot] + s.counted[slot];
    forall other: Slot | other.1 == MinuteOf(s'.now) ensures Kept(s', other) {
      assert Kept(s, other);
    }
  }

  lemma IncrementKeepsInv(cfg: Config, s: State, slot: Slot)
    requires Inv(cfg, s) && Enabled(cfg, s, Increment(slot))
    ensures Inv(cfg, Apply(cfg, s, Increment(slot)))
  {
    var s' := Apply(cfg, s, Increment(slot));
    forall other: Slot | other.1 == MinuteOf(s'.now) ensures Kept(s', other) {
      KeptReads(s, other);
      assert s'.counted[other] == s.counted[other] + if other == slot then 1 else 0;
    }
    assert s'.granted == s'.waiting + s'.counted;
  }

  lemma TickKeepsInv(cfg: Config, s: State, millis: nat)
    requires Inv(cfg, s)
    ensures Inv(cfg, s.(now := s.now + millis))
  {
    var s' := s.(now := s.now + millis);
    forall slot: Slot | slot.1 == MinuteOf(s'.now) ensures Kept(s', slot) {
      if slot.1 == MinuteOf(s.now) {
        assert Kept(s, slot);
      } else {
        assert s.granted[slot] == 0 && s.granted[slot] == s.waiting[slot] + s.counted[slot];
      }
    }
  }

  lemma {:induction false} RunKeepsInv(cfg: Config, s: State, steps: seq<Step>, s': State)
    requires Inv(cfg, s) && Runs(cfg, s, steps, s')
    ensures Inv(cfg, s')
    decreases |steps|
  {
    if steps != [] {
      match steps[0] {
        case Tick(millis) => TickKeepsInv(cfg, s, millis);
        case Read(device) => ReadKeepsInv(cfg, s, device);
        case Increment(slot) => IncrementKeepsInv(cfg, s, slot);
      }
      RunKeepsInv(cfg, Apply(cfg, s, steps[0]), steps[1..], s');
    }
  }

  /** With at most C calls for a key in progress at once, a device is granted at most
      limit + C - 1 messages in a minute, however long increments are delayed. */
  lemma GrantedBounded(cfg: Config, s: State, device: string, minute: nat)
    requires Reachable(cfg, s)
    ensures s.granted[(device, minute)] <= Bound(cfg)
    ensures cfg.limit >= 1 && cfg.callers >= 1 ==> s.granted[(device, minute)] <= cfg.limit + cfg.callers - 1
  {
    var steps :| Runs(cfg, Init(), steps, s);
    RunKeepsInv(cfg, Init(), steps, s);
  }

  // ---------- The counter itself ----------

  function CountedTally(s: State): (string, nat) -> nat {
    (device, minute) => s.counted[(device, minute)]
  }

  ghost predicate PromptInv(s: State) {
    && Tracks(s.db, s.now, CountedTally(s))
    && s.granted == s.waiting + s.counted
    && (forall slot: Slot :: slot.1 > MinuteOf(s.now) ==> s.granted[slot] == 0)
  }

  lemma StepKeepsPrompt(cfg: Config, s: State, step: Step)
    requires cfg.prompt && PromptInv(s) && Enabled(cfg, s, step)
    ensures PromptInv(Apply(cfg, s, step))
  {
    var s' := Apply(cfg, s, step);
    match step
    case Tick(_) =>
    case Read(device) =>
      assert s'.granted == s'.waiting + s'.counted;
    case Increment(slot) =>
      assert s'.granted == s'.waiting + s'.counted;
      forall d, m | m > MinuteOf(s.now) ensures CountedTally(s')(d, m) == 0 {
        assert s'.granted[(d, m)] == 0;
      }
      IncrementTracks(s.db, s.now, s.now, slot.0, CountedTally(s), CountedTally(s'));
  }

  lemma {:induction false} RunKeepsPrompt(cfg: Config, s: State, steps: seq<Step>, s': State)
    requires cfg.prompt && PromptInv(s) && Runs(cfg, s, steps, s')
    ensures PromptInv(s')
    decreases |steps|
  {
    if steps != [] {
      StepKeepsPrompt(cfg, s, steps[0]);
      RunKeepsPrompt(cfg, Apply(cfg, s, steps[0]), steps[1..], s');
    }
  }

  /** When every call finishes within its minute, the stored counter plus the calls that passed
      but have not incremented it is the number of calls granted in this minute. */
  lemma CounterPlusWaiting(cfg: Config, s: State, device: string)
    requires cfg.prompt && Reachable(cfg, s)
    ensures Reading(s.db, KeyOf(SlotOf(s, device)), s.now) + s.waiting[SlotOf(s, device)]
         == s.granted[SlotOf(s, device)]
  {
    var steps :| Runs(cfg, Init(), steps, s);
    RunKeepsPrompt(cfg, Init(), steps, s);
    assert Reading(s.db, Key(device, MinuteOf(s.now)), s.now) == CountedTally(s)(device, MinuteOf(s.now));
    assert s.granted[SlotOf(s, device)] == s.waiting[SlotOf(s, device)] + s.counted[SlotOf(s, device)];
  }

  // ---------- The bound is attained ----------

  lemma {:induction false} RunsAppend(cfg: Config, s: State, steps: seq<Step>, s': State, step: Step)
    requires Runs(cfg, s, steps, s') && Enabled(cfg, s', step)
    ensures Runs(cfg, s, steps + [step], Apply(cfg, s', step))
    decreases |steps|
  {
    var all := steps + [step];
    if steps == [] {
      assert all == [step] && all[1..] == [];
    } else {
      assert all[1..] == steps[1..] + [step];
      RunsAppend(cfg, Apply(cfg, s, steps[0]), steps[1..], s', step);
    }
  }

  lemma Walk(cfg: Config, s: State, step: Step) returns (s': State)
    requires Reachable(cfg, s) && Enabled(cfg, s, step)
    ensures s' == Apply(cfg, s, step) && Reachable(cfg, s')
  {
    var steps :| Runs(cfg, Init(), steps, s);
    RunsAppend(cfg, Init(), steps, s, step);
    s' := Apply(cfg, s, step);
  }

  /** k calls, one after the other. */
  lemma {:induction false} OneByOne(cfg: Config, device: string, k: nat) returns (s: State)
    requires cfg.limit >= 1 && cfg.callers >= 1 && k < cfg.limit
    ensures Reachable(cfg, s) && s.now == 0 && s.waiting == multiset{}
    ensures s.granted[(device, 0)] == k && Reading(s.db, Key(device, 0), 0) == k
    ensures Numeric(s.db)
  {
    if k == 0 {
      s := Init();
      assert Runs(cfg, s, [], s);
    } else {
      s := OneByOne(cfg, device, k - 1);
      s := Walk(cfg, s, Read(device));
      s := Walk(cfg, s, Increment((device, 0)));
    }
  }

  /** c calls that all read before any of them increments. */
  lemma {:induction false} AllAtOnce(cfg: Config, device: string, c: nat) returns (s: State)
    requires cfg.limit >= 1 && c <= cfg.callers && cfg.callers >= 1
    ensures Reachable(cfg, s) && s.now == 0 && s.waiting[(device, 0)] == c
    ensures s.granted[(device, 0)] == cfg.limit - 1 + c && Reading(s.db, Key(device, 0), 0) == cfg.limit - 1
  {
    if c == 0 {
      s := OneByOne(cfg, device, cfg.limit - 1);
    } else {
      s := AllAtOnce(cfg, device, c - 1);
      s := Walk(cfg, s, Read(device));
    }
  }

  /** For every limit and every number of callers, some interleaving grants that many. */
  lemma BoundAttained(cfg: Config, device: string) returns (s: State)
    ensures Reachable(cfg, s) && s.granted[(device, 0)] == Bound(cfg)
    ensures cfg.limit >= 1 && cfg.callers >= 1 ==> s.granted[(device, 0)] == cfg.limit + cfg.callers - 1
  {
    if cfg.limit >= 1 && cfg.callers >= 1 {
      s := AllAtOnce(cfg, device, cfg.callers);
    } else {
      s := Init();
      assert Runs(cfg, s, [], s);
    }
  }

  /** The limit holds for racing callers exactly when there is at most one, or nothing is granted. */
  lemma RacesKeepTheLimitIff(cfg: Config, device: string)
    ensures (forall s, minute | Reachable(cfg, s) :: s.granted[(device, minute)] <= Cap(cfg.limit))
       <==> cfg.limit <= 0 || cfg.callers <= 1
  {
    if cfg.limit <= 0 || cfg.callers <= 1 {
      forall s, minute | Reachable(cfg, s) ensures s.granted[(device, minute)] <= Cap(cfg.limit) {
        GrantedBounded(cfg, s, device, minute);
      }
    } else {
      var s := BoundAttained(cfg, device);
    }
  }
}
