/** The tracer itself: filing parsed activities, the receive loop with its early exit, and the
    summary built from what was received. */
module TraceReceiver {
  import opened Options
  import opened TraceModel
  import opened TraceParser
  import opened TraceReports
  import opened TraceSummary
  import opened TracePut

  class Tracer {
    const parser: Parser
    var activityMap: map<int, Activity?>
    var highestActivity: int
    var firstActivity: Activity?
    var info: Info
    var activities: seq<Activity?>
    var hasError: bool
    var immediateFailure: bool

    constructor ()
      ensures Valid() && fresh(parser) && parser.View().Valid()
      ensures Keys() == {} && highestActivity == 0 && firstActivity == null && info == FRESH_INFO
      ensures !hasError && !immediateFailure
    {
      parser := new Parser();
      activityMap, highestActivity, firstActivity := map[], 0, null;
      info, activities := FRESH_INFO, [];
      hasError, immediateFailure := false, false;
      new;
    }

    ghost predicate Valid()
      reads parser, parser.act
    {
      parser.Valid()
    }

    ghost function Keys(): set<int>
      reads this`activityMap
    {
      activityMap.Keys
    }

    /** The objects behind the filed activities. */
    ghost function Stored(): (r: set<object>)
      reads this`activityMap, set i | i in activityMap && activityMap[i] != null :: activityMap[i]
      ensures forall i :: i in activityMap && activityMap[i] != null ==>
        activityMap[i] in r && forall o :: o in activityMap[i].operations ==> o in r
      ensures forall o :: o in r ==> o is Activity || o is Operation
    {
      (set i | i in activityMap && activityMap[i] != null :: activityMap[i] as object) +
      (set i, o: Operation | i in activityMap && activityMap[i] != null && o in activityMap[i].operations :: o as object)
    }

    /** The filed activities as values. */
    ghost function MapView(): map<int, Option<ActVal>>
      reads this`activityMap, Stored()
    {
      map i | i in activityMap ::
        if activityMap[i] == null then None else Some(activityMap[i].View())
    }

    method InitActivity()
      requires Valid()
      modifies this`activityMap, this`highestActivity, this`hasError, parser
      ensures Valid() && parser.Footprint() == old(parser.Footprint())
      ensures parser.View() == old(parser.View()).(seenDiscard := false)
      ensures activityMap == map[] && highestActivity == 0 && !hasError
    {
      activityMap, highestActivity, hasError := map[], 0, false;
      parser.seenDiscard := false;
    }

    method AddActivity(a: Activity?, i: int)
      modifies this`activityMap, this`highestActivity, this`firstActivity
      ensures activityMap == if i == 0 then old(activityMap) else old(activityMap)[i := a]
      ensures firstActivity == if i == 0 then a else old(firstActivity)
      ensures highestActivity == Max(old(highestActivity), i)
    {
      if i == 0 {
        firstActivity := a;
      } else {
        activityMap := activityMap[i := a];
      }
      highestActivity := Max(highestActivity, i);
    }

    /** The tracer's state as a value, for a given reading of the map. */
    ghost function State(known: map<int, Option<ActVal>>, atZero: bool): TState
      reads this`activityMap, this`highestActivity, parser, parser.act, if parser.act == null then [] else parser.act.operations
    {
      TState(parser.View(), known, highestActivity, atZero)
    }

    /** The tables are those of `t`; `exact` adds that the filed activities are, value by value. */
    ghost predicate Holds(t: TState, exact: bool)
      reads this`activityMap, this`highestActivity, parser, parser.act, if parser.act == null then [] else parser.act.operations, Stored()
    {
      && Valid() && parser.View().Valid()
      && State(t.known, t.atZero) == t && Keys() == t.known.Keys
      && (exact ==> MapView() == t.known)
    }

    method FileCurrent(ghost t: TState, ghost exact: bool)
      requires Holds(t, exact)
      modifies this`activityMap, this`highestActivity, this`firstActivity
      ensures Holds(FiledUnder(t, t.ps.recorded), exact)
      ensures t.ps.recorded != 0 ==> firstActivity == old(firstActivity)
    {
      AddActivity(parser.act, parser.recorded);
    }

    method ForgetCounts(ghost t: TState, ghost exact: bool)
      requires Holds(t, exact)
      modifies parser
      ensures parser.Footprint() == old(parser.Footprint())
      ensures Holds(t.(ps := t.ps.(recorded := -1, unrecorded := -1)), exact)
    {
      label before:
      parser.ForgetCounts();
      MapKept@before();
    }

    /** Files the current activity once the report has told both counters. */
    method FileIfComplete(ghost t: TState, ghost exact: bool)
      requires Holds(t, exact)
      modifies this`activityMap, this`highestActivity, this`firstActivity, parser
      ensures parser.Footprint() == old(parser.Footprint())
      ensures Holds(Filing(t), exact)
      ensures !Filing(t).atZero ==> firstActivity == old(firstActivity)
    {
      if parser.recorded != -1 && parser.unrecorded != -1 {
        FileCurrent(t, exact);
        ForgetCounts(FiledUnder(t, t.ps.recorded), exact);
      }
    }

    /** Writing only to the parser leaves the filed activities as they were. */
    twostate lemma MapKept()
      requires activityMap == old(activityMap)
      requires unchanged(old(Stored()))
      ensures MapView() == old(MapView())
    {
    }

    /** Parses one top-level parameter with no date or time pending. Starting an activity, it
        writes to nothing that was there before. */
    method ParseAlone(p: Param) returns (ok: bool)
      requires Valid() && parser.View().Valid()
      modifies parser, if p.code == ActivityGroup then {} else parser.Footprint()
      ensures Valid() && parser.View().Valid()
      ensures fresh(parser.Footprint() - old(parser.Footprint()))
      ensures p.code == ActivityGroup ==> fresh(parser.Footprint())
      ensures Fold(old(parser.View()).(operationDate := "", operationTime := ""), Flatten(p)) ==
        if ok then Ok(parser.View()) else Panic
    {
      parser.ForgetTimes();
      ok := parser.ParseParm(p);
    }

    method ParseKeeping(p: Param, ghost t: TState, ghost exact: bool) returns (ok: bool, ghost s: TState)
      requires Holds(t, exact)
      modifies parser, if p.code == ActivityGroup then {} else parser.Footprint()
      ensures fresh(parser.Footprint() - old(parser.Footprint()))
      ensures TopParam(t, p) == if ok then Good(Filing(s)) else Crash
      ensures ok ==> Holds(s, exact && p.code == ActivityGroup) && s.atZero == t.atZero
    {
      label before:
      ok := ParseAlone(p);
      s := t.(ps := parser.View());
      if ok && p.code == ActivityGroup {
        MapKept@before();
      }
    }

    /** Parses one top-level parameter and files the activity if it is complete. The filed values
        are only promised for a parameter that starts an activity: otherwise an activity already
        in the map may still be the parser's current one and be written to. */
    method ParseTop(p: Param, ghost t: TState, ghost exact: bool) returns (ok: bool)
      requires Holds(t, exact)
      modifies this`activityMap, this`highestActivity, this`firstActivity, parser,
               if p.code == ActivityGroup then {} else parser.Footprint()
      ensures fresh(parser.Footprint() - old(parser.Footprint()))
      ensures ok <==> TopParam(t, p).Good?
      ensures ok ==> Holds(TopParam(t, p).t, exact && p.code == ActivityGroup)
      ensures ok && !TopParam(t, p).t.atZero ==> !t.atZero && firstActivity == old(firstActivity)
    {
      ghost var s;
      ok, s := ParseKeeping(p, t, exact);
      if ok {
        FileIfComplete(s, exact && p.code == ActivityGroup);
      }
    }

    method ParseNext(parms: seq<Param>, i: nat, ghost t: TState, ghost cur: TState, ghost exact: bool)
      returns (ok: bool, ghost next: TState)
      requires i < |parms| && t.ps.Valid() && TopParams(t, parms[..i]) == Good(cur)
      requires Holds(cur, exact)
      modifies this`activityMap, this`highestActivity, this`firstActivity, parser,
               if parms[i].code == ActivityGroup then {} else parser.Footprint()
      ensures fresh(parser.Footprint() - old(parser.Footprint()))
      ensures TopParams(t, parms[..i + 1]) == if ok then Good(next) else Crash
      ensures ok ==> Holds(next, exact && parms[i].code == ActivityGroup)
      ensures ok && !next.atZero ==> !cur.atZero && firstActivity == old(firstActivity)
    {
      TopParamsStep(t, parms, i);
      next := cur;
      ok := ParseTop(parms[i], cur, exact);
      if ok {
        next := TopParam(cur, parms[i]).t;
      }
    }

    /** The first `i` parameters of a message are parsed. */
    ghost predicate Parsed(parms: seq<Param>, i: nat, t: TState, cur: TState, exact: bool)
      requires t.ps.Valid() && i <= |parms|
      reads this`activityMap, this`highestActivity, parser, parser.act, if parser.act == null then [] else parser.act.operations, Stored()
    {
      TopParams(t, parms[..i]) == Good(cur) && Holds(cur, exact)
    }

    /** One more, within a frame that does not depend on the parameter. */
    method ParseWithin(parms: seq<Param>, i: nat, ghost alone: bool, ghost t: TState, ghost cur: TState, ghost exact: bool)
      returns (ok: bool, ghost next: TState)
      requires i < |parms| && t.ps.Valid() && Parsed(parms, i, t, cur, exact)
      requires alone ==> parms[i].code == ActivityGroup
      modifies this`activityMap, this`highestActivity, this`firstActivity, parser,
               if alone then {} else parser.Footprint()
      ensures fresh(parser.Footprint() - old(parser.Footprint()))
      ensures ok ==> Parsed(parms, i + 1, t, next, exact && alone)
      ensures ok && !next.atZero ==> !cur.atZero && firstActivity == old(firstActivity)
      ensures !ok ==> TopParams(t, parms[..i + 1]) == Crash
    {
      ok, next := ParseNext(parms, i, t, cur, exact && alone);
    }

    /** All of a message's parameters; `alone` says that each of them starts an activity. */
    method ParseAll(parms: seq<Param>, ghost alone: bool, ghost t: TState, ghost exact: bool) returns (ok: bool)
      requires Holds(t, exact && alone)
      requires alone ==> forall i :: 0 <= i < |parms| ==> parms[i].code == ActivityGroup
      modifies this`activityMap, this`highestActivity, this`firstActivity, parser,
               if alone then {} else parser.Footprint()
      ensures fresh(parser.Footprint() - old(parser.Footprint()))
      ensures ok <==> TopParams(t, parms).Good?
      ensures ok ==> Holds(TopParams(t, parms).t, exact && alone)
      ensures ok && !TopParams(t, parms).t.atZero ==> !t.atZero && firstActivity == old(firstActivity)
    {
      ok := true;
      ghost var cur := t;
      for i := 0 to |parms|
        invariant fresh(parser.Footprint() - old(parser.Footprint()))
        invariant Parsed(parms, i, t, cur, exact && alone)
        invariant !cur.atZero ==> !t.atZero && firstActivity == old(firstActivity)
      {
        ok, cur := ParseWithin(parms, i, alone, t, cur, exact && alone);
        if !ok {
          CrashStays(t, parms, i + 1);
          return;
        }
      }
      assert parms[..|parms|] == parms;
    }

    /** The parameters of an embedded-PCF message; any other message is dropped. */
    method ParseMsg(m: Message, ghost t: TState, ghost exact: bool) returns (ok: bool)
      requires Holds(t, exact)
      modifies this`activityMap, this`highestActivity, this`firstActivity, parser,
               if IsReport(m) then {} else parser.Footprint()
      ensures fresh(parser.Footprint() - old(parser.Footprint()))
      ensures ok <==> OneMessage(t, m).Good?
      ensures ok ==> Holds(OneMessage(t, m).t, exact && IsReport(m))
      ensures ok && !OneMessage(t, m).t.atZero ==> !t.atZero && firstActivity == old(firstActivity)
    {
      ok := true;
      if m.format == EmbeddedPcf {
        ok := ParseAll(m.parms, IsReport(m), t, exact);
      }
    }

    /** Takes one message; `stop` is the loop's early exit. */
    method ReceiveOne(m: Message, maxActivities: int, ghost t: TState, ghost exact: bool)
      returns (ok: bool, stop: bool)
      requires Holds(t, exact)
      modifies this`activityMap, this`highestActivity, this`firstActivity, parser,
               if IsReport(m) then {} else parser.Footprint()
      ensures fresh(parser.Footprint() - old(parser.Footprint()))
      ensures ok <==> OneMessage(t, m).Good?
      ensures ok ==> Holds(OneMessage(t, m).t, exact && IsReport(m))
      ensures ok && !OneMessage(t, m).t.atZero ==> !t.atZero && firstActivity == old(firstActivity)
      ensures ok ==> (stop <==> Enough(OneMessage(t, m).t, maxActivities))
    {
      stop := false;
      ok := ParseMsg(m, t, exact);
      if ok {
        SameSize(activityMap, OneMessage(t, m).t.known);
        stop := |activityMap| >= maxActivities || (parser.seenDiscard && |activityMap| >= highestActivity);
      }
    }

    /** The same within a trace that started from `t0` and has taken `n` messages so far. */
    method TakeNext(arrivals: seq<Message>, n: nat, maxActivities: int,
                    ghost t0: TState, ghost t: TState, ghost exact: bool)
      returns (ok: bool, stop: bool, ghost t': TState, ghost exact': bool)
      requires n < |arrivals| && t0.ps.Valid()
      requires Holds(t, exact) && Reached(t0, arrivals, n, t, exact)
      modifies this`activityMap, this`highestActivity, this`firstActivity, parser, parser.Footprint()
      ensures fresh(parser.Footprint() - old(parser.Footprint()))
      ensures ok <==> After(t0, arrivals[..n + 1]).Good?
      ensures ok ==> Holds(t', exact') && Reached(t0, arrivals, n + 1, t', exact')
      ensures ok && !t'.atZero ==> !t.atZero && firstActivity == old(firstActivity)
      ensures ok ==> (stop <==> Enough(t', maxActivities))
    {
      ghost var r := OneMessage(t, arrivals[n]);
      OneMore(t0, arrivals, n, t, exact);
      ok, stop := ReceiveOne(arrivals[n], maxActivities, t, exact);
      t', exact' := t, exact;
      if ok {
        t', exact' := r.t, exact && IsReport(arrivals[n]);
      }
    }

    /** The receive loop, from tables that hold `t0`. `read` is how many messages were taken; `stop`
        tells the early exit from running out of messages. */
    method Drain(arrivals: seq<Message>, maxActivities: int, ghost t0: TState)
      returns (read: nat, stop: bool, ok: bool)
      requires t0.ps.Valid() && Holds(t0, true)
      modifies this`activityMap, this`highestActivity, this`firstActivity, parser, parser.Footprint()
      ensures LoopEnds(t0, arrivals, maxActivities, read, stop, ok)
      ensures fresh(parser.Footprint() - old(parser.Footprint()))
      ensures ok ==> Holds(After(t0, arrivals[..read]).t, AllReports(arrivals[..read]))
      ensures ok && !After(t0, arrivals[..read]).t.atZero ==> firstActivity == old(firstActivity)
    {
      ghost var t, exact := t0, true;
      stop := false;
      read := 0;
      ok := true;
      while read < |arrivals| && ok && !stop
        invariant read <= |arrivals| && Draining(t0, arrivals, maxActivities, read, stop, ok, t, exact)
        invariant fresh(parser.Footprint() - old(parser.Footprint()))
        invariant ok ==> Holds(t, exact)
        invariant ok && !t.atZero ==> firstActivity == old(firstActivity)
        decreases |arrivals| - read
      {
        ghost var s, was := t, exact;
        ok, stop, t, exact := TakeNext(arrivals, read, maxActivities, t0, t, exact);
        DrainStep(t0, arrivals, maxActivities, read, stop, ok, s, was, t, exact);
        read := read + 1;
      }
      DrainEnds(t0, arrivals, maxActivities, read, stop, ok, t, exact);
    }

    // --- one trace, with its two puts

    method NewTest(target: Target, resolvedQ: string) returns (act: Activity, op: Operation)
      ensures fresh(act) && fresh(op) && act.operations == [op] && op.View() == TestOperation(target, resolvedQ)
      ensures act.View() == TestActivity(target, op.View())
    {
      act := new Activity();
      op := new Operation();
      act.applName, act.applType, act.description := STR_NAME, Some(target.applType), STR_DESC;
      act.operations := [op];
      op.operationVal := OPER_PUT;
      op.details := TestDetails(target, resolvedQ);
      assert act.View().operations == [op.View()];
    }

    /** The test message's activity, kept apart at index 0. */
    method PutTest(target: Target, resolvedQ: string) returns (op: Operation)
      modifies this`activityMap, this`highestActivity, this`firstActivity
      ensures activityMap == old(activityMap) && highestActivity == Max(old(highestActivity), 0)
      ensures firstActivity != null && fresh(firstActivity) && fresh(op) && firstActivity.operations == [op]
      ensures op.View() == TestOperation(target, resolvedQ)
      ensures firstActivity.View() == TestActivity(target, op.View())
    {
      var act;
      act, op := NewTest(target, resolvedQ);
      AddActivity(act, 0);
    }

    /** Puts the tracing message; one that stays with the local queue manager is an error, and its
        operation becomes a discard. */
    method PutMessage(op: Operation, sending: Sending) returns (sent: bool)
      modifies op
      ensures sent <==> IsSent(old(op.View()), sending)
      ensures op.View() == AfterPut(old(op.View()), sending)
    {
      match sending
      case PutFails => sent := false;
      case Put(stamp, resolvedQ, resolvedQMgr) =>
        op.stamp := Some(stamp);
        if STR_LOCAL_QMGR in op.details && op.details[STR_LOCAL_QMGR] == Text(resolvedQMgr) {
          op.operationVal := OPER_DISCARD;
          sent := false;
        } else {
          if resolvedQ != "" {
            op.details := op.details[STR_REMOTE_Q := Text(resolvedQ)];
          }
          if resolvedQMgr != "" {
            op.details := op.details[STR_REMOTE_QMGR := Text(resolvedQMgr)];
          }
          sent := true;
        }
    }

    /** The first activity is an object of its own, apart from what the parser may write to. */
    ghost predicate FirstSound()
      reads this`firstActivity, firstActivity, parser, parser.act
    {
      && firstActivity != null && firstActivity.operations != [] && firstActivity.Valid()
      && firstActivity !in parser.Footprint()
      && forall o :: o in firstActivity.operations ==> o !in parser.Footprint()
    }

    ghost function FirstOperation(): set<object>
      reads this`firstActivity, firstActivity
    {
      if firstActivity == null || firstActivity.operations == [] then {} else {firstActivity.operations[0]}
    }

    /** As a trace starts: nothing filed, no discard seen. */
    ghost predicate Blank()
      reads this`activityMap, this`highestActivity, parser, parser.act, if parser.act == null then [] else parser.act.operations
    {
      && Valid() && parser.View().Valid() && !parser.seenDiscard
      && activityMap == map[] && highestActivity == 0
    }

    lemma BlankHolds()
      requires Blank()
      ensures Holds(StartOf(parser.View()), true) && Started(StartOf(parser.View()))
    {
    }

    /** The tracing message, noted in the first activity's operation; without one the program panics. */
    method SendTracer(sending: Sending) returns (started: bool, ok: bool)
      requires Blank() && !hasError
      modifies this`hasError, FirstOperation()
      ensures Blank() && (ok ==> (started <==> !hasError)) && (started ==> ok)
      ensures ok <==> old(FirstOperation()) != {}
      ensures old(FirstSound()) ==>
        && FirstSound() && firstActivity.View() == PutFirst(old(firstActivity.View()), sending)
        && (started <==> IsSent(old(firstActivity.View()).operations[0], sending))
    {
      if firstActivity == null || firstActivity.operations == [] {
        return false, false;
      }
      started := PutMessage(firstActivity.operations[0], sending);
      hasError := !started;
      ok := true;
      ghost var op := firstActivity.operations[0].View();
      assert old(FirstSound()) ==> firstActivity.View().operations == old(firstActivity.View()).operations[0 := op];
    }

    method NewFirst(target: Target, resolvedQ: string)
      requires Blank()
      modifies this`activityMap, this`highestActivity, this`firstActivity
      ensures Blank() && FirstSound() && fresh(FirstOperation())
      ensures firstActivity.View() == TestActivity(target, TestOperation(target, resolvedQ))
    {
      var op := PutTest(target, resolvedQ);
    }

    /** On the first trace: the test message and, if that works, the tracing message. */
    method StartFirst(target: Target, testPut: Option<string>, sending: Sending) returns (started: bool)
      requires Blank() && !hasError
      modifies this`activityMap, this`highestActivity, this`firstActivity, this`hasError, this`immediateFailure
      ensures Blank() && (started <==> !hasError)
      ensures immediateFailure <==> old(immediateFailure) || testPut.None?
      ensures started <==> testPut.Some? && IsSent(TestOperation(target, testPut.value), sending)
      ensures started ==>
        FirstSound() && firstActivity.View() == PutFirst(TestActivity(target, TestOperation(target, testPut.value)), sending)
    {
      if testPut.None? {
        immediateFailure, hasError := true, true;
        return false;
      }
      NewFirst(target, testPut.value);
      var ok;
      started, ok := SendTracer(sending);
    }

    /** Up to the receive loop. */
    method StartTrace(cnt: nat, target: Target, testPut: Option<string>, sending: Sending)
      returns (started: bool, ok: bool)
      requires Valid() && parser.View().Valid()
      modifies this`activityMap, this`highestActivity, this`firstActivity, this`hasError, this`immediateFailure
      modifies parser, FirstOperation()
      ensures Blank() && parser.Footprint() == old(parser.Footprint()) && (started ==> ok)
      ensures ok ==> (started <==> !hasError)
      ensures ok <==> cnt == 0 || old(FirstOperation()) != {}
      ensures immediateFailure <==> old(immediateFailure) || (cnt == 0 && testPut.None?)
      ensures cnt == 0 ==> (started <==> testPut.Some? && IsSent(TestOperation(target, testPut.value), sending))
      ensures cnt == 0 ==> (started <==> testPut.Some? && sending.Put? && sending.resolvedQMgr != target.qMgrName)
      ensures cnt > 0 ==> firstActivity == old(firstActivity)
      ensures cnt == 0 && started ==>
        FirstSound() && firstActivity.View() == PutFirst(TestActivity(target, TestOperation(target, testPut.value)), sending)
      ensures cnt > 0 && old(FirstSound()) ==>
        && FirstSound() && firstActivity.View() == PutFirst(old(firstActivity.View()), sending)
        && (started <==> IsSent(old(firstActivity.View()).operations[0], sending))
    {
      InitActivity();
      ok := true;
      if cnt == 0 {
        LocalTargetIsNotTraced(target, if testPut.Some? then testPut.value else "", sending);
        started := StartFirst(target, testPut, sending);
      } else {
        started, ok := SendTracer(sending);
      }
    }

    /** The first activity is sound and reads so. */
    ghost predicate FirstIs(a: ActVal)
      reads this`firstActivity, firstActivity, parser, parser.act, if firstActivity == null then [] else firstActivity.operations
    {
      FirstSound() && firstActivity.View() == a
    }

    twostate lemma FirstKept()
      requires firstActivity == old(firstActivity) && old(FirstSound())
      requires unchanged(firstActivity) && unchanged(old(firstActivity.operations))
      requires fresh(parser.Footprint() - old(parser.Footprint()))
      ensures FirstIs(old(firstActivity.View()))
    {
    }

    method DrainKeepingFirst(arrivals: seq<Message>, maxActivities: int, ghost t0: TState, ghost was: ActVal)
      returns (read: nat, stop: bool, ok: bool)
      requires t0.ps.Valid() && Holds(t0, true)
      modifies this`activityMap, this`highestActivity, this`firstActivity, parser, parser.Footprint()
      ensures LoopEnds(t0, arrivals, maxActivities, read, stop, ok)
      ensures ok ==> Holds(After(t0, arrivals[..read]).t, AllReports(arrivals[..read]))
      ensures ok && !After(t0, arrivals[..read]).t.atZero ==>
        firstActivity == old(firstActivity) && (old(FirstIs(was)) ==> FirstIs(was))
    {
      label before:
      read, stop, ok := Drain(arrivals, maxActivities, t0);
      if ok && !After(t0, arrivals[..read]).t.atZero && old(FirstIs(was)) {
        FirstKept@before();
      }
    }

    method NoteError(failed: bool, ghost t: TState, ghost exact: bool, ghost ok: bool, ghost was: ActVal)
      requires ok ==> Holds(t, exact)
      modifies this`hasError
      ensures hasError == failed && (ok ==> Holds(t, exact)) && (old(FirstIs(was)) ==> FirstIs(was))
    {
      hasError := failed;
    }

    /** The receive loop after the puts; the first activity stays what it is unless a report is
        filed at index 0. */
    method Receive(arrivals: seq<Message>, getFails: bool, maxActivities: int, ghost was: ActVal)
      returns (read: nat, stop: bool, ok: bool, ghost t0: TState)
      requires Blank() && !hasError
      modifies this`activityMap, this`highestActivity, this`firstActivity, this`hasError, parser, parser.Footprint()
      ensures Started(t0) && LoopEnds(t0, arrivals, maxActivities, read, stop, ok)
      ensures ok ==> Holds(After(t0, arrivals[..read]).t, AllReports(arrivals[..read])) && (hasError <==> getFails && !stop)
      ensures ok && !After(t0, arrivals[..read]).t.atZero ==>
        firstActivity == old(firstActivity) && (old(FirstIs(was)) ==> FirstIs(was))
    {
      t0 := StartOf(parser.View());
      BlankHolds();
      read, stop, ok := DrainKeepingFirst(arrivals, maxActivities, t0, was);
      ghost var t, exact := After(t0, arrivals[..read]), AllReports(arrivals[..read]);
      NoteError(ok && !stop && getFails, if ok then t.t else t0, exact, ok, was);
    }

    /** One trace: empty tables, the puts, then reply messages until the early exit or until no more
        arrive. A complete route is read whole, or as far as the limit allows. */
    method DoTrace(cnt: nat, target: Target, testPut: Option<string>, sending: Sending,
                   arrivals: seq<Message>, getFails: bool, maxActivities: int)
      returns (started: bool, read: nat, stop: bool, ok: bool, ghost t0: TState)
      requires Valid() && parser.View().Valid()
      modifies this`activityMap, this`highestActivity, this`firstActivity, this`hasError, this`immediateFailure
      modifies parser, parser.Footprint(), FirstOperation()
      ensures immediateFailure <==> old(immediateFailure) || (cnt == 0 && testPut.None?)
      ensures cnt == 0 ==> (started <==> testPut.Some? && IsSent(TestOperation(target, testPut.value), sending))
      ensures cnt > 0 && old(FirstSound()) ==> (started <==> IsSent(old(firstActivity.View()).operations[0], sending))
      ensures !started ==> (ok <==> cnt == 0 || old(FirstOperation()) != {})
      ensures started ==> cnt == 0 || old(FirstOperation()) != {}
      ensures !started && ok ==> hasError && Blank()
      ensures started ==> Started(t0) && LoopEnds(t0, arrivals, maxActivities, read, stop, ok)
      ensures started && ok ==>
        Holds(After(t0, arrivals[..read]).t, AllReports(arrivals[..read])) && (hasError <==> getFails && !stop)
      ensures started && ok && !After(t0, arrivals[..read]).t.atZero ==>
        && (cnt == 0 ==> FirstIs(PutFirst(TestActivity(target, TestOperation(target, testPut.value)), sending)))
        && (cnt > 0 ==> firstActivity == old(firstActivity))
        && (cnt > 0 && old(FirstSound()) ==> FirstIs(PutFirst(old(firstActivity.View()), sending)))
      ensures forall n: nat :: started && CompleteRoute(arrivals, n) ==>
        ok && stop && read == Taken(n, maxActivities) && !After(t0, arrivals[..read]).t.atZero
    {
      started, ok := StartTrace(cnt, target, testPut, sending);
      read, stop := 0, false;
      t0 := StartOf(parser.View());
      if started {
        ghost var first := if firstActivity == null then NEW_ACTIVITY else firstActivity.View();
        read, stop, ok, t0 := Receive(arrivals, getFails, maxActivities, first);
        forall n: nat | CompleteRoute(arrivals, n)
          ensures ok && stop && read == Taken(n, maxActivities) && !After(t0, arrivals[..read]).t.atZero
        {
          StopsWithTheRoute(t0, arrivals, n, maxActivities, read, stop, ok);
        }
      }
    }

    // --- the summary

    /** One index of the walk below. */
    method VisitAt(i: int, ghost start: Info, ghost known: map<int, Option<ActVal>>) returns (ok: bool)
      requires i >= 1 && MapView() == known && Visit(start, InOrder(known, i - 1)) == Some(info)
      modifies this`info
      ensures MapView() == known
      ensures Visit(start, InOrder(known, i)) == if ok then Some(info) else None
    {
      ok := true;
      VisitOne(start, known, i, info);
      if i in activityMap {
        ok := VisitNext(activityMap[i]);
      }
    }

    method ListAt(i: int)
      requires i >= 1 && activities == [firstActivity] + Listed(activityMap, i - 1)
      modifies this`activities
      ensures activities == [firstActivity] + Listed(activityMap, i)
    {
      if i in activityMap {
        activities := activities + [activityMap[i]];
      }
    }

    /** The walk below has come to index `i`. */
    ghost predicate Underway(i: int, start: Info, known: map<int, Option<ActVal>>)
      reads this, Stored()
    {
      && i >= 1 && MapView() == known
      && activities == [firstActivity] + Listed(activityMap, i - 1)
      && Visit(start, InOrder(known, i - 1)) == Some(info)
    }

    method Advance(i: int, ghost start: Info, ghost known: map<int, Option<ActVal>>) returns (ok: bool)
      requires Underway(i, start, known)
      modifies this`info, this`activities
      ensures ok ==> Underway(i + 1, start, known)
      ensures !ok ==> Visit(start, InOrder(known, i)).None?
    {
      ok := VisitAt(i, start, known);
      if ok {
        ListAt(i);
      }
    }

    /** Walks the map in index order; `ok` is false when a nil activity or one without operations
        ends the program. */
    method Rebuild() returns (ok: bool)
      requires firstActivity != null
      modifies this`info, this`activities
      ensures Visit(old(info), InOrder(old(MapView()), highestActivity)) == if ok then Some(info) else None
      ensures ok ==> activities == [firstActivity] + Listed(activityMap, highestActivity)
    {
      ghost var known, start := MapView(), info;
      activities := [];
      activities := activities + [firstActivity];
      var i := 1;
      while i <= highestActivity
        invariant Underway(i, start, known) && (i == 1 || i <= highestActivity + 1)
      {
        ok := Advance(i, start, known);
        if !ok {
          VisitFails(start, known, i, highestActivity);
          return;
        }
        i := i + 1;
      }
      ok := true;
    }

    /** Rebuilds the activity list and updates the information from it. */
    method PrintSummary() returns (ok: bool)
      requires Valid()
      modifies this`info, this`activities
      ensures immediateFailure ==> ok && info == old(info) && activities == old(activities)
      ensures !immediateFailure ==>
        (ok <==> firstActivity != null && Summary(old(info), old(MapView()), highestActivity, !hasError).Some?)
      ensures !immediateFailure && ok ==>
        && Summary(old(info), old(MapView()), highestActivity, !hasError) == Some(info)
        && activities == [firstActivity] + Listed(activityMap, highestActivity)
    {
      if immediateFailure {
        return true;
      }
      if firstActivity == null {
        return false;
      }
      ok := Rebuild();
      if ok && !info.success && !hasError {
        info := info.(failure := true);
      }
    }

    /** The printed list: the first activity, then these in the order of their index. */
    ghost predicate Shows(known: map<int, Option<ActVal>>, highest: int)
      reads this`activities, this`firstActivity, Listing()
    {
      var list := InOrder(known, highest);
      && |activities| == 1 + |list| && activities[0] == firstActivity
      && forall k :: 0 <= k < |list| ==> ViewOf(activities[k + 1]) == list[k]
    }

    /** The objects behind the printed list. */
    ghost function Listing(): (r: set<object>)
      reads this`activities, set a | a in activities && a != null :: a
      ensures forall a :: a in activities && a != null ==> a in r && forall o :: o in a.operations ==> o in r
    {
      (set a: Activity? | a in activities && a != null :: a as object) +
      (set a: Activity?, o: Operation | a in activities && a != null && o in a.operations :: o as object)
    }

    lemma {:induction false} ListedViews(highest: int)
      ensures |Listed(activityMap, highest)| == |InOrder(MapView(), highest)|
      ensures forall k :: 0 <= k < |Listed(activityMap, highest)| ==>
        ViewOf(Listed(activityMap, highest)[k]) == InOrder(MapView(), highest)[k]
      decreases highest
    {
      if highest > 0 {
        ListedViews(highest - 1);
      }
    }

    lemma ListedShows(highest: int)
      requires activities == [firstActivity] + Listed(activityMap, highest)
      ensures Shows(MapView(), highest)
    {
      ListedViews(highest);
      forall k | 0 <= k < |activities| - 1
        ensures ViewOf(activities[k + 1]) == InOrder(MapView(), highest)[k]
      {
        assert activities[k + 1] == Listed(activityMap, highest)[k];
      }
    }

    method PrintList() returns (ok: bool)
      requires Valid() && firstActivity != null && !immediateFailure
      modifies this`info, this`activities
      ensures ok <==> Visit(old(info), InOrder(old(MapView()), highestActivity)).Some?
      ensures ok ==> Summary(old(info), old(MapView()), highestActivity, !hasError) == Some(info)
      ensures ok ==> Shows(old(MapView()), highestActivity)
    {
      ghost var known := MapView();
      ok := PrintSummary();
      assert MapView() == known;
      if ok {
        ListedShows(highestActivity);
      }
    }

    /** The tables hold exactly these reports, and all went well. */
    ghost predicate HasRead(reports: seq<Message>)
      requires DistinctReports(reports)
      reads this, parser, parser.act, Stored()
    {
      && Valid() && firstActivity != null && !hasError && !immediateFailure
      && MapView() == Filed(reports) && highestActivity == Highest(reports)
    }

    /** These reports are printed and summed up. */
    ghost predicate HasPrinted(reports: seq<Message>, before: Info)
      requires DistinctReports(reports)
      reads this, Listing()
    {
      && Shows(Filed(reports), Highest(reports))
      && Summary(before, Filed(reports), Highest(reports), true) == Some(info)
    }

    /** Prints what a route has left behind; it panics exactly if some report has no operation. */
    method PrintRoute(ghost reports: seq<Message>, ghost was: ActVal) returns (ok: bool)
      requires DistinctReports(reports) && HasRead(reports)
      modifies this`info, this`activities
      ensures ok <==> AllTold(reports)
      ensures ok ==> HasPrinted(reports, old(info))
      ensures old(FirstIs(was)) ==> FirstIs(was)
    {
      ToldIff(info, reports);
      ok := PrintList();
    }

    /** The printed list is the first activity and then report 1 to report `n`. */
    ghost predicate ShowsWhole(arrivals: seq<Message>, n: nat)
      requires CompleteRoute(arrivals, n)
      reads this`activities, this`firstActivity, Listing()
    {
      && |activities| == n + 1 && activities[0] == firstActivity
      && forall j :: 0 <= j < n ==> ShowsReport(arrivals[..n][j])
    }

    ghost predicate ShowsReport(m: Message)
      requires ProperReport(m)
      reads this`activities, Listing()
    {
      0 <= Index(m) < |activities| && ViewOf(activities[Index(m)]) == Some(ActivityOf(m))
    }

    lemma WholeRoute(arrivals: seq<Message>, n: nat)
      requires CompleteRoute(arrivals, n) && Shows(Filed(arrivals[..n]), Highest(arrivals[..n]))
      ensures ShowsWhole(arrivals, n)
    {
      forall j | 0 <= j < n
        ensures |activities| == n + 1 && ShowsReport(arrivals[..n][j])
      {
        RouteIsRebuilt(arrivals, n, j);
        assert ViewOf(activities[(Index(arrivals[j]) - 1) + 1]) == Some(ActivityOf(arrivals[j]));
      }
    }

    /** What the first activity will read, when that is known beforehand. */
    ghost predicate WillRead(cnt: nat, target: Target, testPut: Option<string>, sending: Sending, first: ActVal)
      reads this`firstActivity, firstActivity, parser, parser.act, if firstActivity == null then [] else firstActivity.operations
    {
      && (cnt == 0 && testPut.Some? ==>
            first == PutFirst(TestActivity(target, TestOperation(target, testPut.value)), sending))
      && (cnt > 0 && FirstSound() ==> first == PutFirst(firstActivity.View(), sending))
    }

    method TraceRoute(cnt: nat, target: Target, testPut: Option<string>, sending: Sending,
                      arrivals: seq<Message>, getFails: bool, maxActivities: int, ghost n: nat, ghost first: ActVal)
      returns (started: bool, ok: bool, ghost reports: seq<Message>)
      requires Valid() && parser.View().Valid() && !immediateFailure && CompleteRoute(arrivals, n)
      requires WillRead(cnt, target, testPut, sending, first)
      modifies this`activityMap, this`highestActivity, this`firstActivity, this`hasError, this`immediateFailure
      modifies parser, parser.Footprint(), FirstOperation()
      ensures reports == arrivals[..Taken(n, maxActivities)] && DistinctReports(reports)
      ensures started ==> ok && HasRead(reports)
      ensures started && (cnt == 0 || old(FirstSound())) ==> FirstIs(first)
      ensures ok ==> Valid()
    {
      var read, stop;
      ghost var t0;
      started, read, stop, ok, t0 := DoTrace(cnt, target, testPut, sending, arrivals, getFails, maxActivities);
      reports := TakenOf(arrivals, n, maxActivities);
      if started {
        StopsWithTheRoute(t0, arrivals, n, maxActivities, read, stop, ok);
        ProperAreReports(reports);
      }
    }

    /** One round of the program: trace, then print. On a complete route, whatever the order of
        arrival, it prints the first activity and the reports taken, in the order of their index,
        and panics exactly if one of them has no operation. */
    method TraceOnce(cnt: nat, target: Target, testPut: Option<string>, sending: Sending,
                     arrivals: seq<Message>, getFails: bool, maxActivities: int, ghost n: nat, ghost first: ActVal)
      returns (started: bool, ok: bool, ghost reports: seq<Message>)
      requires Valid() && parser.View().Valid() && !immediateFailure && CompleteRoute(arrivals, n)
      requires WillRead(cnt, target, testPut, sending, first)
      modifies this, parser, parser.Footprint(), FirstOperation()
      ensures reports == arrivals[..Taken(n, maxActivities)] && DistinctReports(reports)
      ensures started ==> (ok <==> AllTold(reports))
      ensures started && ok ==> HasPrinted(reports, old(info))
      ensures started && (cnt == 0 || old(FirstSound())) ==> FirstIs(first)
    {
      started, ok, reports := TraceRoute(cnt, target, testPut, sending, arrivals, getFails, maxActivities, n, first);
      assert info == old(info);
      if ok {
        ok := PrintRound(started, reports, old(info), first);
      }
    }

    /** When the limit does not cut the route short, the printed list is the first activity and then
        report 1 to report `n`, in whatever order they arrived. */
    method TraceWholeRoute(cnt: nat, target: Target, testPut: Option<string>, sending: Sending,
                           arrivals: seq<Message>, getFails: bool, maxActivities: int, ghost n: nat, ghost first: ActVal)
      returns (started: bool, ok: bool)
      requires Valid() && parser.View().Valid() && !immediateFailure && CompleteRoute(arrivals, n)
      requires WillRead(cnt, target, testPut, sending, first) && Taken(n, maxActivities) == n
      modifies this, parser, parser.Footprint(), FirstOperation()
      ensures started ==> (ok <==> AllTold(arrivals[..n]))
      ensures started && ok ==> ShowsWhole(arrivals, n)
      ensures started && ok ==> Summary(old(info), Filed(arrivals[..n]), n, true) == Some(info)
      ensures started && (cnt == 0 || old(FirstSound())) ==> FirstIs(first)
    {
      ghost var reports;
      started, ok, reports := TraceOnce(cnt, target, testPut, sending, arrivals, getFails, maxActivities, n, first);
      if started && ok {
        RouteTables(arrivals, n);
        WholeRoute(arrivals, n);
      }
    }

    method PrintRound(started: bool, ghost reports: seq<Message>, ghost before: Info, ghost first: ActVal) returns (ok: bool)
      requires Valid() && DistinctReports(reports) && (started ==> HasRead(reports)) && info == before
      modifies this`info, this`activities
      ensures started ==> (ok <==> AllTold(reports))
      ensures started && ok ==> HasPrinted(reports, before)
      ensures started && old(FirstIs(first)) ==> FirstIs(first)
    {
      if started {
        ok := PrintRoute(reports, first);
      } else {
        ok := PrintSummary();
      }
    }

    method VisitNext(act: Activity?) returns (ok: bool)
      modifies this`info
      ensures VisitActivity(old(info), if act == null then None else Some(act.View())) ==
        if ok then Some(info) else None
    {
      if act == null || act.operations == [] {
        return false;
      }
      ghost var ops := act.View().operations;
      info := info.(last := act.operations[|act.operations| - 1].stamp);
      ghost var start := info;
      for j := 0 to |act.operations|
        invariant info == VisitOps(start, ops[..j])
      {
        assert ops[..j + 1][..j] == ops[..j];
        var op := act.operations[j];
        if op.operationVal == OPER_SEND {
          info := info.(channelCount := info.channelCount + 1);
        } else if op.operationVal == OPER_DISCARD {
          if STR_QMGR in op.details {
            info := info.(finalQMgr := Shown(op.details[STR_QMGR]), success := true);
          }
        }
      }
      assert ops[..|ops|] == ops;
      ok := true;
    }
  }

  ghost function ViewOf(a: Activity?): Option<ActVal>
    reads a, if a == null then [] else a.operations
  {
    if a == null then None else Some(a.View())
  }

  /** Every report tells of at least one operation. */
  ghost predicate AllTold(reports: seq<Message>)
    requires DistinctReports(reports)
  {
    forall i :: 0 <= i < |reports| ==> ActivityOf(reports[i]).operations != []
  }

  lemma {:induction false} InOrderEntries(known: map<int, Option<ActVal>>, highest: int, e: Option<ActVal>)
    ensures e in InOrder(known, highest) <==> exists x :: x in known && 1 <= x <= highest && known[x] == e
    decreases highest
  {
    if highest > 0 {
      InOrderEntries(known, highest - 1, e);
    }
  }

  /** A summary of distinct reports fails exactly if one of them tells of no operation. */
  lemma ToldIff(info: Info, reports: seq<Message>)
    requires DistinctReports(reports)
    ensures Visit(info, InOrder(Filed(reports), Highest(reports))).Some? <==> AllTold(reports)
  {
    var list := InOrder(Filed(reports), Highest(reports));
    VisitTells(info, list);
    FiledEntries(reports);
    FiledRange(reports);
    forall i | 0 <= i < |reports|
      ensures Some(ActivityOf(reports[i])) in list
    {
      InOrderEntries(Filed(reports), Highest(reports), Some(ActivityOf(reports[i])));
      assert Index(reports[i]) in Filed(reports);
    }
    forall k | 0 <= k < |list|
      ensures exists i :: 0 <= i < |reports| && list[k] == Some(ActivityOf(reports[i]))
    {
      InOrderEntries(Filed(reports), Highest(reports), list[k]);
      var x :| x in Filed(reports) && Filed(reports)[x] == list[k];
      assert Indexed(reports, x);
    }
  }

  /** The objects present under 1, 2, ... up to `highest`. */
  function Listed(acts: map<int, Activity?>, highest: int): seq<Activity?> {
    if highest <= 0 then []
    else Listed(acts, highest - 1) + if highest in acts then [acts[highest]] else []
  }

  lemma VisitOne(start: Info, known: map<int, Option<ActVal>>, i: int, info: Info)
    requires i >= 1 && Visit(start, InOrder(known, i - 1)) == Some(info)
    ensures Visit(start, InOrder(known, i)) == if i in known then VisitActivity(info, known[i]) else Some(info)
  {
    var before := InOrder(known, i - 1);
    if i in known {
      assert (before + [known[i]])[..|before|] == before;
    } else {
      assert before + [] == before;
    }
  }

  lemma {:induction false} VisitFails(start: Info, known: map<int, Option<ActVal>>, i: int, highest: int)
    requires 1 <= i <= highest && Visit(start, InOrder(known, i)).None?
    ensures Visit(start, InOrder(known, highest)).None?
    decreases highest
  {
    if i < highest {
      VisitFails(start, known, i, highest - 1);
      var before := InOrder(known, highest - 1);
      if highest in known {
        assert (before + [known[highest]])[..|before|] == before;
      } else {
        assert before + [] == before;
      }
    }
  }

  ghost predicate Reached(t0: TState, msgs: seq<Message>, n: nat, t: TState, exact: bool)
    requires t0.ps.Valid() && n <= |msgs|
  {
    After(t0, msgs[..n]) == Good(t) && exact == AllReports(msgs[..n])
  }

  /** No proper prefix shorter than `n` messages would have made the loop stop. */
  ghost predicate NoExitBefore(t0: TState, msgs: seq<Message>, n: nat, maxActivities: int)
    requires t0.ps.Valid()
  {
    forall k :: 0 < k < n && k <= |msgs| ==> !EnoughAfter(t0, msgs[..k], maxActivities)
  }

  /** How the receive loop ends: at the first early exit, else with no message left, else by a
      panic. */
  ghost predicate LoopEnds(t0: TState, msgs: seq<Message>, maxActivities: int, read: nat, stop: bool, ok: bool)
    requires t0.ps.Valid()
  {
    && read <= |msgs|
    && (ok <==> After(t0, msgs[..read]).Good?)
    && NoExitBefore(t0, msgs, read, maxActivities)
    && (ok && stop ==> read > 0 && EnoughAfter(t0, msgs[..read], maxActivities))
    && (ok && !stop ==> read == |msgs| && NoExitBefore(t0, msgs, read + 1, maxActivities))
  }

  /** Between two messages: how far the loop is, and whether it is to go on. */
  ghost predicate Draining(t0: TState, msgs: seq<Message>, maxActivities: int, read: nat, stop: bool, ok: bool,
                           t: TState, exact: bool)
    requires t0.ps.Valid() && read <= |msgs|
  {
    && NoExitBefore(t0, msgs, read, maxActivities)
    && (if ok then Reached(t0, msgs, read, t, exact) else !After(t0, msgs[..read]).Good?)
    && (ok && !stop ==> NoExitBefore(t0, msgs, read + 1, maxActivities))
    && (ok && stop ==> read > 0 && EnoughAfter(t0, msgs[..read], maxActivities))
  }

  lemma DrainStep(t0: TState, msgs: seq<Message>, maxActivities: int, read: nat, stop: bool, ok: bool,
                  s: TState, was: bool, t: TState, exact: bool)
    requires t0.ps.Valid() && read < |msgs| && Draining(t0, msgs, maxActivities, read, false, true, s, was)
    requires ok <==> After(t0, msgs[..read + 1]).Good?
    requires ok ==> Reached(t0, msgs, read + 1, t, exact) && (stop <==> Enough(t, maxActivities))
    ensures Draining(t0, msgs, maxActivities, read + 1, stop, ok, t, exact)
  {
    if ok {
      NoExitStep(t0, msgs, read + 1, t, maxActivities);
    }
  }

  lemma DrainEnds(t0: TState, msgs: seq<Message>, maxActivities: int, read: nat, stop: bool, ok: bool,
                  t: TState, exact: bool)
    requires t0.ps.Valid() && read <= |msgs| && Draining(t0, msgs, maxActivities, read, stop, ok, t, exact)
    requires read == |msgs| || !ok || stop
    ensures LoopEnds(t0, msgs, maxActivities, read, stop, ok)
    ensures ok ==> After(t0, msgs[..read]) == Good(t) && exact == AllReports(msgs[..read])
  {
  }

  ghost predicate AllReports(msgs: seq<Message>) {
    forall j :: 0 <= j < |msgs| ==> IsReport(msgs[j])
  }

  lemma ProperAreReports(msgs: seq<Message>)
    requires DistinctReports(msgs)
    ensures AllReports(msgs)
  {
  }

  lemma AllReportsStep(msgs: seq<Message>, n: nat)
    requires n < |msgs|
    ensures AllReports(msgs[..n + 1]) <==> AllReports(msgs[..n]) && IsReport(msgs[n])
  {
    var some, more := msgs[..n], msgs[..n + 1];
    assert more == some + [msgs[n]];
    if AllReports(some) && IsReport(msgs[n]) {
      forall j | 0 <= j < |more|
        ensures IsReport(more[j])
      {
        assert j < n ==> more[j] == some[j];
      }
    }
    if AllReports(more) {
      assert IsReport(more[n]);
      forall j | 0 <= j < n
        ensures IsReport(some[j])
      {
        assert IsReport(more[j]);
      }
    }
  }

  lemma OneMore(t0: TState, msgs: seq<Message>, n: nat, t: TState, exact: bool)
    requires t0.ps.Valid() && n < |msgs| && Reached(t0, msgs, n, t, exact)
    ensures var r := OneMessage(t, msgs[n]);
      && After(t0, msgs[..n + 1]) == r
      && (r.Good? ==> Reached(t0, msgs, n + 1, r.t, exact && IsReport(msgs[n])))
  {
    assert msgs[..n + 1][..n] == msgs[..n];
    AllReportsStep(msgs, n);
  }

  lemma NoExitStep(t0: TState, msgs: seq<Message>, n: nat, t: TState, maxActivities: int)
    requires t0.ps.Valid() && 0 < n <= |msgs| && After(t0, msgs[..n]) == Good(t)
    requires NoExitBefore(t0, msgs, n, maxActivities)
    ensures EnoughAfter(t0, msgs[..n], maxActivities) <==> Enough(t, maxActivities)
    ensures !Enough(t, maxActivities) ==> NoExitBefore(t0, msgs, n + 1, maxActivities)
  {
  }

  function StartOf(ps: PState): TState {
    TState(ps.(seenDiscard := false), map[], 0, false)
  }

  lemma SameSize<K, V, W>(m: map<K, V>, n: map<K, W>)
    requires m.Keys == n.Keys
    ensures |m| == |n|
  {
    assert |m| == |m.Keys| && |n| == |n.Keys|;
  }

  /** The reports of a route that are taken. */
  ghost function TakenOf(arrivals: seq<Message>, n: nat, maxActivities: int): (reports: seq<Message>)
    requires CompleteRoute(arrivals, n)
    ensures DistinctReports(reports)
  {
    StartOfRoute(arrivals, n, Taken(n, maxActivities));
    arrivals[..Taken(n, maxActivities)]
  }

  // --- from arrivals to summary

  /** The loop's contract leaves no choice on a complete route: it takes the `n` reports and no more,
      or as many as the limit allows. */
  lemma StopsWithTheRoute(t: TState, arrivals: seq<Message>, n: nat, maxActivities: int,
                          read: nat, stop: bool, ok: bool)
    requires Started(t) && CompleteRoute(arrivals, n)
    requires LoopEnds(t, arrivals, maxActivities, read, stop, ok)
    ensures read == Taken(n, maxActivities) && ok && stop
    ensures var s := After(t, arrivals[..read]).t;
      s.known == Filed(arrivals[..read]) && s.highest == Highest(arrivals[..read]) && !s.atZero
  {
    ReadsExactlyTheRoute(t, arrivals, n, maxActivities);
    if read <= n {
      PartOfRoute(arrivals, n, read);
      AfterReports(t, arrivals[..read]);
    }
  }

  lemma RouteTables(arrivals: seq<Message>, n: nat)
    requires CompleteRoute(arrivals, n)
    ensures Highest(arrivals[..n]) == n && forall x :: 1 <= x <= n ==> x in Filed(arrivals[..n])
  {
    PartOfRoute(arrivals, n, n);
    FullHouse(Filed(arrivals[..n]).Keys, n);
    SizeOfKeys(Filed(arrivals[..n]));
    FiledTop(arrivals[..n], n);
  }

  /** The activities of a whole route, in whatever order its reports arrive, are all there, each
      report's at its own index. */
  lemma RouteIsRebuilt(arrivals: seq<Message>, n: nat, j: nat)
    requires CompleteRoute(arrivals, n) && j < n
    ensures var list := InOrder(Filed(arrivals[..n]), Highest(arrivals[..n]));
      |list| == n && 1 <= Index(arrivals[j]) <= n && list[Index(arrivals[j]) - 1] == Some(ActivityOf(arrivals[j]))
  {
    RouteTables(arrivals, n);
    FiledAt(arrivals, n, j);
    CompleteMapInOrder(Filed(arrivals[..n]), n);
  }

  lemma FiledAt(arrivals: seq<Message>, n: nat, j: nat)
    requires CompleteRoute(arrivals, n) && j < n
    ensures var x := Index(arrivals[j]);
      1 <= x <= n && x in Filed(arrivals[..n]) && Filed(arrivals[..n])[x] == Some(ActivityOf(arrivals[j]))
  {
    assert arrivals[..n][j] == arrivals[j];
    FiledValue(arrivals[..n], j);
  }

  /** Whatever the order of arrival of the reports taken, the same list and information are printed,
      or it panics in either case. */
  lemma SameSummary(a: seq<Message>, b: seq<Message>, info: Info, noError: bool)
    requires DistinctReports(a) && multiset(a) == multiset(b)
    ensures DistinctReports(b) && (AllTold(a) <==> AllTold(b))
    ensures InOrder(Filed(a), Highest(a)) == InOrder(Filed(b), Highest(b))
    ensures Summary(info, Filed(a), Highest(a), noError) == Summary(info, Filed(b), Highest(b), noError)
  {
    PermutedReports(a, b);
    SameTables(a, b);
    ToldIff(info, a);
    ToldIff(info, b);
  }
}
