/** When the OpenTelemetry collector's process ends over failures: its polls have the same budget as
    the JSON collector's cycles, and its main loop has a limit of its own on failing turns. */
module ProcessDeath {
  import opened StatusPolling

  /** One turn of the main loop: the collection cycle, and whether handing over the metrics fails,
      which is only tried after a cycle without error. */
  datatype Turn = Turn(cycle: Cycle, handoverFails: bool)

  function CyclesOf(turns: seq<Turn>): (cycles: seq<Cycle>)
    ensures |cycles| == |turns|
  {
    seq(|turns|, i requires 0 <= i < |turns| => turns[i].cycle)
  }

  predicate TurnFails(t: Turn) {
    (t.cycle.polled && t.cycle.pollFails) || t.handoverFails
  }

  function Failures(turns: seq<Turn>): (f: seq<bool>)
    ensures |f| == |turns|
  {
    seq(|turns|, i requires 0 <= i < |turns| => TurnFails(turns[i]))
  }

  /** The latest turn ends the process. */
  ghost predicate Ends(turns: seq<Turn>, maxErrors: int) {
    && turns != []
    && ((turns[|turns| - 1].cycle.polled && Streak(OtelCalls(CyclesOf(turns))) > MAX_STATUS_ERRORS)
        || Streak(Failures(turns)) > maxErrors)
  }

  class OtelProcess {
    const maxErrors: int
    const budget: ErrorBudget
    var totalErrorCount: nat
    ghost var turns: seq<Turn>

    ghost predicate Valid()
      reads this, budget
    {
      && budget.Valid() && budget.calls == OtelCalls(CyclesOf(turns))
      && totalErrorCount == Streak(Failures(turns))
    }

    constructor (maxErrors: int)
      ensures Valid() && turns == [] && this.maxErrors == maxErrors && fresh(budget)
    {
      this.maxErrors := maxErrors;
      budget := new ErrorBudget();
      totalErrorCount, turns := 0, [];
    }

    method OneTurn(t: Turn) returns (fatal: bool)
      requires Valid()
      modifies this, budget
      ensures turns == old(turns) + [t] && (fatal <==> Ends(turns, maxErrors))
      ensures !fatal ==> Valid()
    {
      ghost var before := turns;
      turns := turns + [t];
      TurnAdded(before, t);
      var failed := false;
      if t.cycle.polled {
        failed := t.cycle.pollFails;
        fatal := budget.HandleStatus(failed);
        if fatal {
          return;
        }
      }
      if !failed {
        failed := t.handoverFails;
      }
      totalErrorCount := if failed then totalErrorCount + 1 else 0;
      fatal := totalErrorCount > maxErrors;
    }
  }

  lemma TurnAdded(before: seq<Turn>, t: Turn)
    ensures OtelCalls(CyclesOf(before + [t])) ==
      OtelCalls(CyclesOf(before)) + if t.cycle.polled then [t.cycle.pollFails] else []
    ensures Failures(before + [t]) == Failures(before) + [TurnFails(t)]
    ensures Streak(Failures(before + [t])) == if TurnFails(t) then Streak(Failures(before)) + 1 else 0
  {
    assert CyclesOf(before + [t])[..|before|] == CyclesOf(before);
    assert Failures(before + [t])[..|before|] == Failures(before);
  }

  ghost predicate ProcessDead(turns: seq<Turn>, maxErrors: int) {
    exists n :: 0 <= n <= |turns| && Ends(turns[..n], maxErrors)
  }

  // --- told from the turns alone

  /** One more adjacent calls than the limit are true, the last of them call `i`. A negative limit is
      exceeded by any call. */
  ghost predicate Exceeding(calls: seq<bool>, limit: int, i: nat) {
    limit <= i < |calls| && forall k :: i - limit <= k <= i ==> calls[k]
  }

  lemma {:induction false} StreakIsRun(calls: seq<bool>, limit: int)
    requires calls != []
    ensures Streak(calls) > limit <==> Exceeding(calls, limit, |calls| - 1)
  {
    var n := |calls| - 1;
    if limit >= 0 && calls[n] && n > 0 {
      StreakIsRun(calls[..n], limit - 1);
    }
  }

  /** The main loop's limit is exceeded. */
  ghost predicate LoopDead(turns: seq<Turn>, maxErrors: int) {
    exists i :: Exceeding(Failures(turns), maxErrors, i)
  }

  lemma LoopEndsAt(turns: seq<Turn>, maxErrors: int, n: nat)
    requires 0 < n <= |turns|
    ensures Streak(Failures(turns[..n])) > maxErrors <==> Exceeding(Failures(turns), maxErrors, n - 1)
  {
    StreakIsRun(Failures(turns[..n]), maxErrors);
    assert Failures(turns[..n]) == Failures(turns)[..n];
  }

  lemma {:induction false} BudgetEndsAt(turns: seq<Turn>, m: nat) returns (n: nat)
    requires m < |OtelCalls(CyclesOf(turns))|
    ensures n < |turns| && turns[n].cycle.polled
    ensures OtelCalls(CyclesOf(turns[..n + 1])) == OtelCalls(CyclesOf(turns))[..m + 1]
  {
    var before, last := turns[..|turns| - 1], turns[|turns| - 1];
    TurnAdded(before, last);
    assert turns == before + [last];
    if m < |OtelCalls(CyclesOf(before))| {
      n := BudgetEndsAt(before, m);
      assert turns[..n + 1] == before[..n + 1];
    } else {
      n := |before|;
      assert turns[..n + 1] == turns;
    }
  }

  lemma CallsOfPart(turns: seq<Turn>, n: nat)
    requires n <= |turns|
    ensures OtelCalls(CyclesOf(turns[..n])) <= OtelCalls(CyclesOf(turns))
  {
    OtelCallsGrow(CyclesOf(turns), n);
    assert CyclesOf(turns)[..n] == CyclesOf(turns[..n]);
  }

  lemma EndsInOneWay(turns: seq<Turn>, maxErrors: int, n: nat)
    requires n <= |turns| && Ends(turns[..n], maxErrors)
    ensures Dead(OtelCalls(CyclesOf(turns))) || LoopDead(turns, maxErrors)
  {
    var calls := OtelCalls(CyclesOf(turns));
    var part := OtelCalls(CyclesOf(turns[..n]));
    LoopEndsAt(turns, maxErrors, n);
    CallsOfPart(turns, n);
    assert calls[..|part|] == part;
  }

  lemma BudgetEnds(turns: seq<Turn>, maxErrors: int)
    requires Dead(OtelCalls(CyclesOf(turns)))
    ensures ProcessDead(turns, maxErrors)
  {
    var calls := OtelCalls(CyclesOf(turns));
    var m :| 0 <= m <= |calls| && Streak(calls[..m]) > MAX_STATUS_ERRORS;
    var n := BudgetEndsAt(turns, m - 1);
    assert Ends(turns[..n + 1], maxErrors);
  }

  lemma LoopEnds(turns: seq<Turn>, maxErrors: int)
    requires LoopDead(turns, maxErrors)
    ensures ProcessDead(turns, maxErrors)
  {
    var i: nat :| Exceeding(Failures(turns), maxErrors, i);
    LoopEndsAt(turns, maxErrors, i + 1);
    assert Ends(turns[..i + 1], maxErrors);
  }

  /** The process ends exactly if four successive polls fail, whatever lies between, or one more
      adjacent turns than the limit fail, for whatever reason. */
  lemma ProcessDeadIff(turns: seq<Turn>, maxErrors: int)
    ensures ProcessDead(turns, maxErrors) <==> Dead(OtelCalls(CyclesOf(turns))) || LoopDead(turns, maxErrors)
  {
    if ProcessDead(turns, maxErrors) {
      var n :| 0 <= n <= |turns| && Ends(turns[..n], maxErrors);
      EndsInOneWay(turns, maxErrors, n);
    } else if Dead(OtelCalls(CyclesOf(turns))) {
      BudgetEnds(turns, maxErrors);
    } else if LoopDead(turns, maxErrors) {
      LoopEnds(turns, maxErrors);
    }
  }

  // --- on poll failures alone

  function PollsOnly(cycles: seq<Cycle>): seq<Turn> {
    seq(|cycles|, i requires 0 <= i < |cycles| => Turn(cycles[i], false))
  }

  ghost predicate OtelDies(cycles: seq<Cycle>, maxErrors: int) {
    ProcessDead(PollsOnly(cycles), maxErrors)
  }

  lemma OtelDiesIff(cycles: seq<Cycle>, maxErrors: int)
    ensures OtelDies(cycles, maxErrors) <==>
      Dead(OtelCalls(cycles)) || exists i :: Exceeding(JsonCalls(cycles), maxErrors, i)
  {
    ProcessDeadIff(PollsOnly(cycles), maxErrors);
    assert CyclesOf(PollsOnly(cycles)) == cycles;
    assert Failures(PollsOnly(cycles)) == JsonCalls(cycles);
  }

  /** Whatever the limit, when the JSON collector has died the OpenTelemetry collector has died by then. */
  lemma JsonDeathImpliesProcessDeath(cycles: seq<Cycle>, maxErrors: int)
    requires Dead(JsonCalls(cycles))
    ensures OtelDies(cycles, maxErrors)
  {
    OtelDiesIff(cycles, maxErrors);
    JsonDeathImpliesOtelDeath(cycles);
  }

  /** A limit of three or more is never reached first. */
  lemma HighLimit(cycles: seq<Cycle>, maxErrors: int, i: nat)
    requires maxErrors >= MAX_STATUS_ERRORS && Exceeding(JsonCalls(cycles), maxErrors, i)
    ensures Dead(JsonCalls(cycles)) && Dead(OtelCalls(cycles))
  {
    DeadIffFourInARow(JsonCalls(cycles));
    assert FourEndAt(JsonCalls(cycles), i);
    JsonDeathImpliesOtelDeath(cycles);
  }

  /** Only the polls of cycles `i - limit` to `i` fail. */
  function FailingStretch(polled: seq<bool>, limit: int, i: nat): seq<Cycle> {
    seq(|polled|, k requires 0 <= k < |polled| => Cycle(polled[k], i - limit <= k <= i))
  }

  /** More adjacent cycles poll than the limit allows to fail. */
  ghost predicate PollingRun(polled: seq<bool>, limit: int) {
    exists i :: Exceeding(polled, limit, i)
  }

  /** With a lower limit, adjacent polls one more than it are enough to kill the process, at a time
      when JSON is alive. */
  lemma LowLimit(polled: seq<bool>, maxErrors: int, i: nat)
    requires maxErrors < MAX_STATUS_ERRORS && Exceeding(polled, maxErrors, i)
    ensures var cycles := FailingStretch(polled, maxErrors, i);
      Schedule(cycles) == polled && OtelDies(cycles, maxErrors) && !Dead(JsonCalls(cycles))
  {
    var cycles := FailingStretch(polled, maxErrors, i);
    assert Schedule(cycles) == polled;
    OtelDiesIff(cycles, maxErrors);
    assert Exceeding(JsonCalls(cycles), maxErrors, i);
    DeadIffFourInARow(JsonCalls(cycles));
    forall k
      ensures !FourEndAt(JsonCalls(cycles), k)
    {
      ShortStretch(polled, maxErrors, i, k);
    }
  }

  lemma ShortStretch(polled: seq<bool>, limit: int, i: nat, k: nat)
    requires limit < MAX_STATUS_ERRORS
    ensures !FourEndAt(JsonCalls(FailingStretch(polled, limit, i)), k)
  {
  }

  /** The budget of failing polls alone decides over the process exactly if the limit is three or more. */
  lemma BudgetDecidesIff(maxErrors: int)
    ensures (forall cycles :: OtelDies(cycles, maxErrors) <==> Dead(OtelCalls(cycles))) <==> maxErrors >= MAX_STATUS_ERRORS
  {
    if maxErrors >= MAX_STATUS_ERRORS {
      forall cycles
        ensures OtelDies(cycles, maxErrors) <==> Dead(OtelCalls(cycles))
      {
        OtelDiesIff(cycles, maxErrors);
        if i: nat :| Exceeding(JsonCalls(cycles), maxErrors, i) {
          HighLimit(cycles, maxErrors, i);
        }
      }
    } else {
      var cycles := FewFailures(maxErrors);
    }
  }

  /** One more failing polls than the limit, three at the most, and at least one cycle. */
  lemma FewFailures(maxErrors: int) returns (cycles: seq<Cycle>)
    requires maxErrors < MAX_STATUS_ERRORS
    ensures OtelDies(cycles, maxErrors) && !Dead(OtelCalls(cycles))
  {
    var n := if maxErrors < 0 then 1 else maxErrors + 1;
    cycles := seq(n, i => Cycle(true, true));
    OtelDiesIff(cycles, maxErrors);
    assert Exceeding(JsonCalls(cycles), maxErrors, n - 1);
    OtelCallsAtPolls(cycles);
    FewPolls(Schedule(cycles));
    DeadIffFourInARow(OtelCalls(cycles));
  }

  lemma {:induction false} FewPolls(polled: seq<bool>)
    ensures |Polls(polled)| <= |polled|
  {
    if polled != [] {
      FewPolls(polled[..|polled| - 1]);
    }
  }

  /** For a given schedule and limit, the JSON and the OpenTelemetry process die on the same outcomes of
      the polls exactly if every four successive polls lie in four adjacent cycles, and the limit is
      three or more or is nowhere exceeded by the number of adjacent polls. */
  lemma DieTogetherIff(polled: seq<bool>, maxErrors: int)
    ensures (forall cycles :: Schedule(cycles) == polled ==> (OtelDies(cycles, maxErrors) <==> Dead(JsonCalls(cycles))))
       <==> (FourPollsAdjacent(Polls(polled))
             && (maxErrors >= MAX_STATUS_ERRORS || !PollingRun(polled, maxErrors)))
  {
    if !FourPollsAdjacent(Polls(polled)) {
      var m :| 3 <= m < |Polls(polled)| && Polls(polled)[m] != Polls(polled)[m - 3] + 3;
      ApartDieAlone(polled, m);
      var p := Polls(polled);
      OtelDiesIff(FailingAt(polled, p[m - 3], p[m - 2], p[m - 1], p[m]), maxErrors);
    } else if maxErrors < MAX_STATUS_ERRORS && PollingRun(polled, maxErrors) {
      var i: nat :| Exceeding(polled, maxErrors, i);
      LowLimit(polled, maxErrors, i);
    } else {
      forall cycles | Schedule(cycles) == polled
        ensures OtelDies(cycles, maxErrors) <==> Dead(JsonCalls(cycles))
      {
        SameDeath(cycles, maxErrors);
      }
    }
  }

  lemma SameDeath(cycles: seq<Cycle>, maxErrors: int)
    requires FourPollsAdjacent(Polls(Schedule(cycles)))
    requires maxErrors >= MAX_STATUS_ERRORS || !PollingRun(Schedule(cycles), maxErrors)
    ensures OtelDies(cycles, maxErrors) <==> Dead(JsonCalls(cycles))
  {
    OtelDiesIff(cycles, maxErrors);
    if Dead(JsonCalls(cycles)) {
      JsonDeathImpliesOtelDeath(cycles);
    } else if Dead(OtelCalls(cycles)) {
      AdjacentDieTogether(cycles);
    }
    if i: nat :| Exceeding(JsonCalls(cycles), maxErrors, i) {
      if maxErrors >= MAX_STATUS_ERRORS {
        HighLimit(cycles, maxErrors, i);
      } else {
        forall k | i - maxErrors <= k <= i
          ensures Schedule(cycles)[k]
        {
          assert JsonCalls(cycles)[k];
        }
        assert Exceeding(Schedule(cycles), maxErrors, i);
      }
    }
  }
}
