/** When the JSON and OpenTelemetry collectors poll for object status, which collection steps a
    poll executes, what error it passes on, and how many failures in a row are tolerated. */
module StatusPolling {

  // --- the steps of one poll

  datatype Step = Queues | QueueManager | Channels | Topics | Subs | Clusters | Usage | Amqp | Mqtt

  datatype PollConfig = PollConfig(useStatus: bool, zos: bool, amqpPatterns: bool, mqttPatterns: bool)

  /** What each step returns if executed: 0 is Go's nil, anything else an error. */
  type Outcomes = Step -> int

  function ObjectSteps(cfg: PollConfig): seq<Step> {
    [Channels, Topics, Subs, Clusters] +
    if cfg.zos then [Usage]
    else (if cfg.amqpPatterns then [Amqp] else []) + (if cfg.mqttPatterns then [Mqtt] else [])
  }

  /** The steps' fixed order. */
  function Rank(s: Step): nat {
    match s
    case Queues => 0 case QueueManager => 1 case Channels => 2 case Topics => 3 case Subs => 4
    case Clusters => 5 case Usage => 6 case Amqp => 7 case Mqtt => 8
  }

  ghost predicate InRankOrder(steps: seq<Step>) {
    forall i, j :: 0 <= i < j < |steps| ==> Rank(steps[i]) < Rank(steps[j])
  }

  /** Storage is looked at on z/OS only and messaging clients elsewhere only, each kind if there are
      patterns for it; the steps come in their fixed order, none twice. */
  lemma ObjectStepsIff(cfg: PollConfig, s: Step)
    ensures s in ObjectSteps(cfg) <==>
      || s == Channels || s == Topics || s == Subs || s == Clusters
      || (s == Usage && cfg.zos)
      || (s == Amqp && !cfg.zos && cfg.amqpPatterns)
      || (s == Mqtt && !cfg.zos && cfg.mqttPatterns)
    ensures InRankOrder(ObjectSteps(cfg))
  {
  }

  function JsonSteps(cfg: PollConfig, out: Outcomes): seq<Step> {
    [Queues, QueueManager] +
    if cfg.useStatus && out(QueueManager) == 0 then ObjectSteps(cfg) else []
  }

  function OtelSteps(cfg: PollConfig, out: Outcomes): seq<Step> {
    [Queues, QueueManager] +
    if cfg.useStatus && out(Queues) == 0 && out(QueueManager) == 0 then ObjectSteps(cfg) else []
  }

  /** Queues and the queue manager are always looked at; the others if status is wanted and there was
      no error with the queue manager, or for OpenTelemetry with either. */
  lemma StepsIff(cfg: PollConfig, out: Outcomes, s: Step)
    ensures s in JsonSteps(cfg, out) <==>
      s == Queues || s == QueueManager || (cfg.useStatus && out(QueueManager) == 0 && s in ObjectSteps(cfg))
    ensures s in OtelSteps(cfg, out) <==>
      s == Queues || s == QueueManager || (cfg.useStatus && out(Queues) == 0 && out(QueueManager) == 0 && s in ObjectSteps(cfg))
    ensures InRankOrder(JsonSteps(cfg, out)) && InRankOrder(OtelSteps(cfg, out))
  {
    ObjectStepsIff(cfg, Queues);
    ObjectStepsIff(cfg, QueueManager);
    var none: seq<Step> := [];
    var rest := if cfg.useStatus && out(QueueManager) == 0 then ObjectSteps(cfg) else none;
    var less := if cfg.useStatus && out(Queues) == 0 && out(QueueManager) == 0 then ObjectSteps(cfg) else none;
    AfterTheFirst(rest, s);
    AfterTheFirst(less, s);
    assert JsonSteps(cfg, out) == [Queues, QueueManager] + rest;
    assert OtelSteps(cfg, out) == [Queues, QueueManager] + less;
  }

  lemma AfterTheFirst(steps: seq<Step>, s: Step)
    requires InRankOrder(steps) && Queues !in steps && QueueManager !in steps
    ensures InRankOrder([Queues, QueueManager] + steps)
    ensures s in [Queues, QueueManager] + steps <==> s == Queues || s == QueueManager || s in steps
  {
    forall k | 0 <= k < |steps|
      ensures Rank(steps[k]) > 1
    {
      assert steps[k] in steps;
    }
  }

  /** The last error among the executed steps, 0 if there was none. */
  function LastError(steps: seq<Step>, out: Outcomes): int {
    if steps == [] then 0
    else
      var n := |steps| - 1;
      if out(steps[n]) != 0 then out(steps[n]) else LastError(steps[..n], out)
  }

  ghost predicate SomeFailed(steps: seq<Step>, out: Outcomes) {
    exists s :: s in steps && out(s) != 0
  }

  /** It is that of the last step to fail. */
  lemma {:induction false} LastErrorIsLast(steps: seq<Step>, out: Outcomes, i: nat)
    requires i < |steps| && out(steps[i]) != 0 && forall j :: i < j < |steps| ==> out(steps[j]) == 0
    ensures LastError(steps, out) == out(steps[i])
  {
    if i < |steps| - 1 {
      LastErrorIsLast(steps[..|steps| - 1], out, i);
    }
  }

  lemma {:induction false} LastErrorNonNil(steps: seq<Step>, out: Outcomes)
    ensures LastError(steps, out) != 0 <==> SomeFailed(steps, out)
  {
    if steps != [] {
      var n := |steps| - 1;
      LastErrorNonNil(steps[..n], out);
      assert steps == steps[..n] + [steps[n]];
    }
  }

  /** Bookkeeping of one collector's poll: `err` is the latest step's result, `pollError` the
      latest failure, `executed` the trail of steps. */
  class Poll {
    const out: Outcomes
    var err: int
    var pollError: int
    ghost var executed: seq<Step>

    constructor (out: Outcomes)
      ensures this.out == out && err == 0 && pollError == 0 && executed == []
    {
      this.out := out;
      err, pollError, executed := 0, 0, [];
    }

    method Execute(s: Step)
      modifies this
      ensures executed == old(executed) + [s]
      ensures err == out(s)
      ensures old(pollError) == LastError(old(executed), out) ==> pollError == LastError(executed, out)
    {
      err := out(s);
      if err != 0 {
        pollError := err;
      }
      executed := executed + [s];
      assert executed[..|executed| - 1] == old(executed);
    }

    method CollectObjects(cfg: PollConfig)
      requires pollError == LastError(executed, out)
      modifies this
      ensures pollError == LastError(executed, out)
      ensures executed == old(executed) + ObjectSteps(cfg)
    {
      Execute(Channels);
      Execute(Topics);
      Execute(Subs);
      Execute(Clusters);
      if cfg.zos {
        Execute(Usage);
      } else {
        if cfg.amqpPatterns {
          Execute(Amqp);
        }
        if cfg.mqttPatterns {
          Execute(Mqtt);
        }
      }
    }

    /** The JSON collector: only the queue manager step's result decides whether to go on. */
    method CollectJson(cfg: PollConfig) returns (passedOn: int)
      requires err == 0 && pollError == 0 && executed == []
      modifies this
      ensures executed == JsonSteps(cfg, out)
      ensures passedOn == LastError(executed, out)
      ensures passedOn != 0 <==> SomeFailed(executed, out)
    {
      if err == 0 {
        Execute(Queues);
        Execute(QueueManager);
      }
      if cfg.useStatus && err == 0 {
        CollectObjects(cfg);
      }
      err := pollError;
      LastErrorNonNil(executed, out);
      passedOn := err;
    }

    /** The OpenTelemetry collector: either of the first two steps stops the rest. */
    method CollectOtel(cfg: PollConfig) returns (passedOn: int)
      requires err == 0 && pollError == 0 && executed == []
      modifies this
      ensures executed == OtelSteps(cfg, out)
      ensures passedOn == LastError(executed, out)
      ensures passedOn != 0 <==> SomeFailed(executed, out)
    {
      if err == 0 {
        Execute(Queues);
        Execute(QueueManager);
        LastErrorNonNil(executed, out);
        assert executed == [Queues, QueueManager];
        err := pollError;
      }
      if cfg.useStatus && err == 0 {
        CollectObjects(cfg);
        err := pollError;
      }
      LastErrorNonNil(executed, out);
      passedOn := err;
    }
  }

  /** The two collectors may execute different steps, but fail on the same polls. */
  lemma SamePollsFail(cfg: PollConfig, out: Outcomes)
    ensures SomeFailed(JsonSteps(cfg, out), out) <==> SomeFailed(OtelSteps(cfg, out), out)
  {
    if out(Queues) != 0 {
      assert Queues in JsonSteps(cfg, out) && Queues in OtelSteps(cfg, out);
    }
  }

  // --- the failure budget

  const MAX_STATUS_ERRORS := 3

  class ErrorBudget {
    var statusCollectionErrors: nat
    ghost var calls: seq<bool>

    ghost predicate Valid()
      reads this
    {
      statusCollectionErrors == Streak(calls)
    }

    constructor ()
      ensures Valid() && calls == []
    {
      statusCollectionErrors, calls := 0, [];
    }

    /** Returns whether the process ends with a fatal error. */
    method HandleStatus(failed: bool) returns (fatal: bool)
      requires Valid()
      modifies this
      ensures Valid() && calls == old(calls) + [failed]
      ensures fatal <==> Streak(calls) > MAX_STATUS_ERRORS
    {
      fatal := false;
      if failed {
        statusCollectionErrors := statusCollectionErrors + 1;
        if statusCollectionErrors > MAX_STATUS_ERRORS {
          fatal := true;
        }
      } else {
        statusCollectionErrors := 0;
      }
      calls := calls + [failed];
      assert calls[..|calls| - 1] == old(calls);
    }
  }

  /** How many of the latest calls in a row reported a failure. */
  function Streak(calls: seq<bool>): nat {
    if calls == [] || !calls[|calls| - 1] then 0 else 1 + Streak(calls[..|calls| - 1])
  }

  /** Four failures in a row ending at call `i`. */
  ghost predicate FourEndAt(calls: seq<bool>, i: nat) {
    3 <= i < |calls| && calls[i - 3] && calls[i - 2] && calls[i - 1] && calls[i]
  }

  /** The budget has been exceeded by the end of these calls, which ends the process. */
  ghost predicate Dead(calls: seq<bool>) {
    exists n :: 0 <= n <= |calls| && Streak(calls[..n]) > MAX_STATUS_ERRORS
  }

  lemma StreakStep(calls: seq<bool>, n: nat)
    requires n < |calls|
    ensures Streak(calls[..n + 1]) == if calls[n] then 1 + Streak(calls[..n]) else 0
  {
    assert calls[..n + 1][..n] == calls[..n];
  }

  lemma FourIsFatal(calls: seq<bool>, i: nat)
    requires i < |calls|
    ensures Streak(calls[..i + 1]) > MAX_STATUS_ERRORS <==> FourEndAt(calls, i)
  {
    StreakStep(calls, i);
    if i >= 1 { StreakStep(calls, i - 1); }
    if i >= 2 { StreakStep(calls, i - 2); }
    if i >= 3 { StreakStep(calls, i - 3); }
  }

  /** Death is exactly a fourth consecutive failure somewhere. */
  lemma DeadIffFourInARow(calls: seq<bool>)
    ensures Dead(calls) <==> exists i :: FourEndAt(calls, i)
  {
    if Dead(calls) {
      var n :| 0 <= n <= |calls| && Streak(calls[..n]) > MAX_STATUS_ERRORS;
      FourIsFatal(calls, n - 1);
    }
    if i :| FourEndAt(calls, i) {
      FourIsFatal(calls, i);
    }
  }

  /** One collection cycle: did it poll, and would its poll fail. */
  datatype Cycle = Cycle(polled: bool, pollFails: bool)

  /** The JSON collector reports to the budget on every cycle, a cycle without a poll as good. */
  function JsonCalls(cycles: seq<Cycle>): seq<bool> {
    seq(|cycles|, i requires 0 <= i < |cycles| => cycles[i].polled && cycles[i].pollFails)
  }

  /** The OpenTelemetry collector reports only when it polls. */
  function OtelCalls(cycles: seq<Cycle>): seq<bool> {
    if cycles == [] then []
    else
      var n := |cycles| - 1;
      OtelCalls(cycles[..n]) + if cycles[n].polled then [cycles[n].pollFails] else []
  }

  lemma {:induction false} OtelStreakCovers(cycles: seq<Cycle>)
    ensures Streak(JsonCalls(cycles)) <= Streak(OtelCalls(cycles))
  {
    if cycles != [] {
      var n := |cycles| - 1;
      OtelStreakCovers(cycles[..n]);
      assert JsonCalls(cycles)[..n] == JsonCalls(cycles[..n]);
      var before := OtelCalls(cycles[..n]);
      assert (before + [cycles[n].pollFails])[..|before|] == before;
    }
  }

  lemma {:induction false} OtelCallsGrow(cycles: seq<Cycle>, n: nat)
    requires n <= |cycles|
    ensures OtelCalls(cycles[..n]) <= OtelCalls(cycles)
    decreases |cycles| - n
  {
    if n < |cycles| {
      assert cycles[..n + 1][..n] == cycles[..n];
      OtelCallsGrow(cycles, n + 1);
    } else {
      assert cycles[..n] == cycles;
    }
  }

  /** On the same schedule and the same outcomes, when the JSON collector has exceeded its budget the
      OpenTelemetry collector has exceeded it too. */
  lemma JsonDeathImpliesOtelDeath(cycles: seq<Cycle>)
    requires Dead(JsonCalls(cycles))
    ensures Dead(OtelCalls(cycles))
  {
    var calls := JsonCalls(cycles);
    var n :| 0 <= n <= |calls| && Streak(calls[..n]) > MAX_STATUS_ERRORS;
    assert calls[..n] == JsonCalls(cycles[..n]);
    OtelStreakCovers(cycles[..n]);
    OtelCallsGrow(cycles, n);
    var o := OtelCalls(cycles);
    var m := |OtelCalls(cycles[..n])|;
    assert o[..m] == OtelCalls(cycles[..n]);
  }

  // --- on which schedules the two exceed their budgets together
  /** The cycles that poll, in order. */
  function Polls(polled: seq<bool>): (p: seq<nat>)
    ensures forall m :: 0 <= m < |p| ==> p[m] < |polled|
    ensures forall m :: 0 <= m < |p| ==> polled[p[m]]
    ensures forall l, m :: 0 <= l < m < |p| ==> p[l] < p[m]
  {
    if polled == [] then []
    else
      var n := |polled| - 1;
      Polls(polled[..n]) + if polled[n] then [n] else []
  }

  lemma PollsMore(polled: seq<bool>, last: bool)
    ensures Polls(polled + [last]) == Polls(polled) + if last then [|polled|] else []
  {
    assert (polled + [last])[..|polled|] == polled;
  }

  /** No cycle that polls is missing from the list. */
  lemma {:induction false} PollsAreAll(polled: seq<bool>, i: nat)
    ensures i in Polls(polled) <==> i < |polled| && polled[i]
  {
    if polled != [] {
      PollsAreAll(polled[..|polled| - 1], i);
    }
  }

  function Schedule(cycles: seq<Cycle>): seq<bool> {
    seq(|cycles|, i requires 0 <= i < |cycles| => cycles[i].polled)
  }

  /** What the OpenTelemetry collector reports, poll by poll. */
  lemma {:induction false} OtelCallsAtPolls(cycles: seq<Cycle>)
    ensures var p := Polls(Schedule(cycles));
      && |OtelCalls(cycles)| == |p|
      && (forall m :: 0 <= m < |p| ==> p[m] < |cycles| && OtelCalls(cycles)[m] == cycles[p[m]].pollFails)
  {
    if cycles != [] {
      var n := |cycles| - 1;
      OtelCallsAtPolls(cycles[..n]);
      assert Schedule(cycles)[..n] == Schedule(cycles[..n]);
    }
  }

  ghost predicate FourCyclesFail(cycles: seq<Cycle>, i: nat) {
    && 3 <= i < |cycles|
    && cycles[i - 3].polled && cycles[i - 2].polled && cycles[i - 1].polled && cycles[i].polled
    && cycles[i - 3].pollFails && cycles[i - 2].pollFails && cycles[i - 1].pollFails && cycles[i].pollFails
  }

  /** JSON exceeds its budget, and so dies, exactly on four adjacent cycles that all poll and fail. */
  lemma JsonDeadIff(cycles: seq<Cycle>)
    ensures Dead(JsonCalls(cycles)) <==> exists i :: FourCyclesFail(cycles, i)
  {
    var j := JsonCalls(cycles);
    DeadIffFourInARow(j);
    if i: nat :| FourEndAt(j, i) {
      assert FourCyclesFail(cycles, i);
    }
    if i: nat :| FourCyclesFail(cycles, i) {
      assert FourEndAt(j, i);
    }
  }

  ghost predicate FourPollsFail(cycles: seq<Cycle>, p: seq<nat>, m: nat) {
    && 3 <= m < |p| && p[m - 3] < |cycles| && p[m - 2] < |cycles| && p[m - 1] < |cycles| && p[m] < |cycles|
    && cycles[p[m - 3]].pollFails && cycles[p[m - 2]].pollFails && cycles[p[m - 1]].pollFails && cycles[p[m]].pollFails
  }

  /** OpenTelemetry exceeds its budget exactly on four successive polls that all fail, whatever lies
      between. */
  lemma OtelDeadIff(cycles: seq<Cycle>)
    ensures Dead(OtelCalls(cycles)) <==> exists m :: FourPollsFail(cycles, Polls(Schedule(cycles)), m)
  {
    var p := Polls(Schedule(cycles));
    var o := OtelCalls(cycles);
    DeadIffFourInARow(o);
    OtelCallsAtPolls(cycles);
    if m: nat :| FourEndAt(o, m) {
      assert FourPollsFail(cycles, p, m);
    }
    if m: nat :| FourPollsFail(cycles, p, m) {
      assert FourEndAt(o, m);
    }
  }

  /** Every four successive polls lie in four adjacent cycles. */
  ghost predicate FourPollsAdjacent(p: seq<nat>) {
    forall m :: 3 <= m < |p| ==> p[m] == p[m - 3] + 3
  }

  lemma AdjacentDieTogether(cycles: seq<Cycle>)
    requires FourPollsAdjacent(Polls(Schedule(cycles))) && Dead(OtelCalls(cycles))
    ensures Dead(JsonCalls(cycles))
  {
    var p := Polls(Schedule(cycles));
    OtelDeadIff(cycles);
    var m: nat :| FourPollsFail(cycles, p, m);
    var i := p[m];
    assert p[m - 3] == i - 3 && p[m - 2] == i - 2 && p[m - 1] == i - 1;
    assert Schedule(cycles)[p[m - 3]] && Schedule(cycles)[p[m - 2]] && Schedule(cycles)[p[m - 1]] && Schedule(cycles)[i];
    JsonDeadIff(cycles);
    assert FourCyclesFail(cycles, i);
  }

  /** The outcomes in which exactly these four polls fail. */
  function FailingAt(polled: seq<bool>, a: nat, b: nat, c: nat, d: nat): seq<Cycle> {
    seq(|polled|, i requires 0 <= i < |polled| => Cycle(polled[i], i == a || i == b || i == c || i == d))
  }

  lemma ApartDieAlone(polled: seq<bool>, m: nat)
    requires 3 <= m < |Polls(polled)| && Polls(polled)[m] != Polls(polled)[m - 3] + 3
    ensures var p := Polls(polled);
      var cycles := FailingAt(polled, p[m - 3], p[m - 2], p[m - 1], p[m]);
      Schedule(cycles) == polled && Dead(OtelCalls(cycles)) && !Dead(JsonCalls(cycles))
  {
    var p := Polls(polled);
    var cycles := FailingAt(polled, p[m - 3], p[m - 2], p[m - 1], p[m]);
    assert Schedule(cycles) == polled;
    OtelDeadIff(cycles);
    assert FourPollsFail(cycles, p, m);
    JsonDeadIff(cycles);
    forall i: nat
      ensures !FourCyclesFail(cycles, i)
    {
      FailingApart(polled, p[m - 3], p[m - 2], p[m - 1], p[m], i);
    }
  }

  lemma FailingApart(polled: seq<bool>, a: nat, b: nat, c: nat, d: nat, i: nat)
    requires a < b < c < d && d != a + 3
    ensures !FourCyclesFail(FailingAt(polled, a, b, c, d), i)
  {
  }

  /** For a given schedule, the two exceed their budgets on the same outcomes exactly if every four
      successive polls lie in four adjacent cycles. */
  lemma DieTogetherIff(polled: seq<bool>)
    ensures (forall cycles :: Schedule(cycles) == polled ==> (Dead(OtelCalls(cycles)) <==> Dead(JsonCalls(cycles))))
       <==> FourPollsAdjacent(Polls(polled))
  {
    if FourPollsAdjacent(Polls(polled)) {
      forall cycles | Schedule(cycles) == polled
        ensures Dead(OtelCalls(cycles)) <==> Dead(JsonCalls(cycles))
      {
        if Dead(JsonCalls(cycles)) {
          JsonDeathImpliesOtelDeath(cycles);
        } else if Dead(OtelCalls(cycles)) {
          AdjacentDieTogether(cycles);
        }
      }
    } else {
      var m :| 3 <= m < |Polls(polled)| && Polls(polled)[m] != Polls(polled)[m - 3] + 3;
      ApartDieAlone(polled, m);
    }
  }

  /** In particular one cycle without a poll in between is enough for OpenTelemetry alone to exceed its budget. */
  lemma OtelMayDieAlone()
    ensures exists cycles :: Dead(OtelCalls(cycles)) && !Dead(JsonCalls(cycles))
  {
    var a := [] + [true];
    var b := a + [false];
    var c := b + [true];
    var d := c + [true];
    PollsMore([], true);
    PollsMore(a, false);
    PollsMore(b, true);
    PollsMore(c, true);
    PollsMore(d, true);
    assert Polls(d + [true]) == [0] + [] + [2] + [3] + [4];
    ApartDieAlone(d + [true], 3);
  }

  // --- when a cycle polls

  /** The time of the latest poll among cycles that started at `times`. */
  function LastPoll(times: seq<int>, interval: int): int
    requires times != []
  {
    var n := |times| - 1;
    if n == 0 || times[n] - LastPoll(times[..n], interval) >= interval then times[n]
    else LastPoll(times[..n], interval)
  }

  predicate PollsAt(times: seq<int>, interval: int, i: nat)
    requires i < |times|
  {
    i == 0 || times[i] - LastPoll(times[..i], interval) >= interval
  }

  function PollTimes(times: seq<int>, interval: int): seq<int> {
    if times == [] then []
    else
      var n := |times| - 1;
      PollTimes(times[..n], interval) + if PollsAt(times, interval, n) then [times[n]] else []
  }

  class PollClock {
    const interval: int
    var first: bool
    var lastPoll: int
    ghost var times: seq<int>

    ghost predicate Valid()
      reads this
    {
      && (first <==> times == [])
      && (!first ==> lastPoll == LastPoll(times, interval))
    }

    constructor (interval: int, now: int)
      ensures Valid() && times == [] && this.interval == interval
    {
      this.interval := interval;
      first, lastPoll, times := true, now, [];
    }

    /** One collection cycle starting at `now`: says whether it polls. */
    method Collect(now: int) returns (pollStatus: bool)
      requires Valid()
      modifies this
      ensures Valid() && times == old(times) + [now]
      ensures pollStatus <==> PollsAt(times, interval, |times| - 1)
    {
      pollStatus := false;
      var elapsed := now - lastPoll;
      if elapsed >= interval || first {
        lastPoll := now;
        pollStatus := true;
      }
      if first {
        first := false;
      }
      times := times + [now];
      assert times[..|times| - 1] == old(times);
    }
  }

  lemma {:induction false} PollTimesEnds(times: seq<int>, interval: int)
    requires times != []
    ensures var p := PollTimes(times, interval);
      p != [] && p[0] == times[0] && p[|p| - 1] == LastPoll(times, interval)
  {
    var n := |times| - 1;
    if n > 0 {
      PollTimesEnds(times[..n], interval);
    }
  }

  /** `n` polls span at least `n - 1` intervals. */
  lemma {:induction false} PollSpacing(times: seq<int>, interval: int)
    requires times != []
    ensures var p := PollTimes(times, interval);
      p != [] && (|p| - 1) * interval <= p[|p| - 1] - p[0]
  {
    PollTimesEnds(times, interval);
    var n := |times| - 1;
    if n > 0 {
      var earlier := times[..n];
      PollSpacing(earlier, interval);
      PollTimesEnds(earlier, interval);
      OneMoreInterval(PollTimes(earlier, interval), interval, times[n]);
    }
  }

  lemma OneMoreInterval(q: seq<int>, interval: int, next: int)
    requires q != [] && (|q| - 1) * interval <= q[|q| - 1] - q[0]
    ensures next - q[|q| - 1] >= interval ==> |q| * interval <= next - q[0]
  {
    assert |q| * interval == (|q| - 1) * interval + interval;
  }

  lemma {:induction false} LastPollHolds(times: seq<int>, interval: int, i: nat, k: nat)
    requires i < k <= |times| && PollsAt(times, interval, i)
    requires forall m :: i < m < k ==> !PollsAt(times, interval, m)
    ensures LastPoll(times[..k], interval) == times[i]
  {
    assert times[..k][..k - 1] == times[..k - 1];
    if k > i + 1 {
      LastPollHolds(times, interval, i, k - 1);
      assert !PollsAt(times, interval, k - 1);
    }
  }

  /** After a poll at cycle `i`, the next one is at cycle `j` exactly when `j` is the first later
      cycle to start at or after that poll plus the interval. */
  lemma NextPoll(times: seq<int>, interval: int, i: nat, j: nat)
    requires i < j < |times| && PollsAt(times, interval, i)
    ensures (PollsAt(times, interval, j) && forall m :: i < m < j ==> !PollsAt(times, interval, m))
       <==> (times[j] >= times[i] + interval && forall m :: i < m < j ==> times[m] < times[i] + interval)
  {
    if forall m :: i < m < j ==> !PollsAt(times, interval, m) {
      forall m | i < m <= j
        ensures PollsAt(times, interval, m) <==> times[m] >= times[i] + interval
      {
        LastPollHolds(times, interval, i, m);
      }
    } else if forall m :: i < m < j ==> times[m] < times[i] + interval {
      NoPollWhileEarly(times, interval, i, j);
    }
  }

  lemma {:induction false} NoPollWhileEarly(times: seq<int>, interval: int, i: nat, k: nat)
    requires i < k <= |times| && PollsAt(times, interval, i)
    requires forall m :: i < m < k ==> times[m] < times[i] + interval
    ensures forall m :: i < m < k ==> !PollsAt(times, interval, m)
  {
    if k > i + 1 {
      NoPollWhileEarly(times, interval, i, k - 1);
      LastPollHolds(times, interval, i, k - 1);
    }
  }
}
