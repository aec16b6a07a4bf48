/** From the parameters of the reports to what is printed of the route: where the message was
    discarded for good, and how many channels it went through. */
module TraceOutcome {
  import opened Options
  import opened TraceModel
  import opened TraceReading
  import opened TraceReports
  import opened TraceSummary
  import opened TraceReceiver

  /** All parameters of a report, in order. */
  function ParamsOf(m: Message): seq<Node>
    requires IsReport(m)
  {
    Flatten(m.parms[0])
  }

  /** A proper report files what its parameters say, under the last number of recorded activities. */
  lemma ReportReads(m: Message)
    requires ProperReport(m)
    ensures var nodes := ParamsOf(m);
      && LastInt(Current(nodes), Recorded) == Some(Index(m)) && Index(m) >= 1
      && LastInt(Current(nodes), Unrecorded).Some?
      && ActReads(ActivityOf(m), Current(nodes))
      && AllRead(ActivityOf(m).operations, Segments(nodes))
      && (Discards(m) <==> TellsDiscard(nodes))
  {
    FirstNode(m.parms[0]);
    FoldReads(BLANK, ParamsOf(m));
    FoldSeesDiscard(BLANK, ParamsOf(m));
  }

  /** A top-level activity is filed exactly if both counters are told in it, under the first, at index 0
      apart from the map; and its counters are then forgotten. */
  lemma GroupFiles(t: TState, p: Param)
    requires t.ps.Valid() && p.code == ActivityGroup && TopParam(t, p).Good?
    ensures var r, nodes := TopParam(t, p).t, Current(Flatten(p));
      var first, second := LastInt(nodes, Recorded).GetOr(-1), LastInt(nodes, Unrecorded).GetOr(-1);
      if first != -1 && second != -1 then
        && r.ps.recorded == -1 && r.ps.unrecorded == -1
        && r.known == (if first == 0 then t.known else t.known[first := r.ps.act])
        && r.highest == (if first > t.highest then first else t.highest) && (r.atZero <==> t.atZero || first == 0)
      else
        && r.ps.recorded == first && r.ps.unrecorded == second
        && r.known == t.known && r.highest == t.highest && r.atZero == t.atZero
  {
    FirstNode(p);
    FoldReads(t.ps.(operationDate := "", operationTime := ""), Flatten(p));
  }

  // --- where the message ended, and its channels, read off the parameters

  /** The queue manager named last in the last operation that is a discard and names one. */
  function NamedEnd(segments: seq<seq<Node>>): Option<string> {
    if segments == [] then None
    else
      var s := segments[|segments| - 1];
      if LastInt(s, OperationType) == Some(2) && LastStr(s, QMgrName).Some? then LastStr(s, QMgrName)
      else NamedEnd(segments[..|segments| - 1])
  }

  function SendsIn(segments: seq<seq<Node>>): nat {
    if segments == [] then 0
    else
      SendsIn(segments[..|segments| - 1]) + if LastInt(segments[|segments| - 1], OperationType) == Some(8) then 1 else 0
  }

  lemma {:induction false} QMgrDetail(nodes: seq<Node>)
    ensures LastDetail(nodes, "queueManager") ==
      match LastStr(nodes, QMgrName) case None => None case Some(q) => Some(Text(q))
  {
    if nodes != [] {
      QMgrDetail(nodes[..|nodes| - 1]);
      QMgrKept(nodes[|nodes| - 1]);
    }
  }

  lemma QMgrKept(n: Node)
    ensures KeptAs(n, "queueManager") <==> n.StrNode? && n.code == QMgrName
  {
  }

  lemma {:induction false} EndReads(ops: seq<OpVal>, segments: seq<seq<Node>>)
    requires AllRead(ops, segments)
    ensures Destination(ops) == NamedEnd(segments)
  {
    if ops != [] {
      var n := |ops| - 1;
      EndReads(ops[..n], segments[..n]);
      assert ops == ops[..n] + [ops[n]];
      DestinationAppend(ops[..n], [ops[n]]);
      assert [ops[n]][1..] == [];
      assert OpReads(ops[n], segments[n]);
      QMgrDetail(segments[n]);
      OpEnds(ops[n], segments[n]);
    }
  }

  lemma OpEnds(op: OpVal, nodes: seq<Node>)
    requires OpReads(op, nodes)
    ensures Arrives(op) <==> LastInt(nodes, OperationType) == Some(2) && LastStr(nodes, QMgrName).Some?
    ensures Arrives(op) ==> LastStr(nodes, QMgrName) == Some(Shown(op.details["queueManager"]))
  {
    QMgrDetail(nodes);
    assert Under(op.details, "queueManager") == LastDetail(nodes, "queueManager");
  }

  lemma {:induction false} SendsRead(ops: seq<OpVal>, segments: seq<seq<Node>>)
    requires AllRead(ops, segments)
    ensures Sends(ops) == SendsIn(segments)
  {
    if ops != [] {
      var n := |ops| - 1;
      SendsRead(ops[..n], segments[..n]);
      assert ops == ops[..n] + [ops[n]];
      SendsAppend(ops[..n], [ops[n]]);
      assert [ops[n]][1..] == [];
      assert OpReads(ops[n], segments[n]);
    }
  }

  // --- what is printed

  function OpsOf(e: Option<ActVal>): seq<OpVal> {
    if e.Some? then e.value.operations else []
  }

  lemma AllOpsAt(known: map<int, Option<ActVal>>, h: int)
    requires h >= 1
    ensures AllOps(InOrder(known, h)) ==
      AllOps(InOrder(known, h - 1)) + if h in known then OpsOf(known[h]) else []
  {
    var before := InOrder(known, h - 1);
    if h in known {
      assert (before + [known[h]])[..|before|] == before;
    } else {
      assert before + [] == before && AllOps(before) + [] == AllOps(before);
    }
  }

  /** The last entry that tells of an end decides. */
  lemma {:induction false} EndOfMap(known: map<int, Option<ActVal>>, h: int, x: int)
    requires 1 <= x <= h && x in known && Destination(OpsOf(known[x])).Some?
    requires forall y :: y in known && x < y <= h ==> Destination(OpsOf(known[y])).None?
    ensures Destination(AllOps(InOrder(known, h))) == Destination(OpsOf(known[x]))
    decreases h
  {
    var ops := if h in known then OpsOf(known[h]) else [];
    AllOpsAt(known, h);
    DestinationAppend(AllOps(InOrder(known, h - 1)), ops);
    if x < h {
      EndOfMap(known, h - 1, x);
    }
  }

  lemma {:induction false} NoEndOfMap(known: map<int, Option<ActVal>>, h: int)
    requires forall y :: y in known && 1 <= y <= h ==> Destination(OpsOf(known[y])).None?
    ensures Destination(AllOps(InOrder(known, h))).None?
    decreases h
  {
    if h >= 1 {
      AllOpsAt(known, h);
      DestinationAppend(AllOps(InOrder(known, h - 1)), if h in known then OpsOf(known[h]) else []);
      NoEndOfMap(known, h - 1);
    }
  }

  /** The second map has one entry more. */
  ghost predicate OneMoreEntry(known: map<int, Option<ActVal>>, more: map<int, Option<ActVal>>, x: int) {
    x !in known && x in more && forall y :: y != x ==> (y in more <==> y in known) && (y in known ==> more[y] == known[y])
  }

  lemma {:induction false} SendsOfMap(known: map<int, Option<ActVal>>, more: map<int, Option<ActVal>>, h: int, x: int)
    requires OneMoreEntry(known, more, x)
    ensures Sends(AllOps(InOrder(more, h))) ==
      Sends(AllOps(InOrder(known, h))) + if 1 <= x <= h then Sends(OpsOf(more[x])) else 0
    decreases h
  {
    if h >= 1 {
      SendsAt(known, h);
      SendsAt(more, h);
      SendsOfMap(known, more, h - 1, x);
      SendsOfEntry(known, more, h, x);
    }
  }

  function EntrySends(known: map<int, Option<ActVal>>, h: int): nat {
    if h in known then Sends(OpsOf(known[h])) else 0
  }

  lemma SendsOfEntry(known: map<int, Option<ActVal>>, more: map<int, Option<ActVal>>, h: int, x: int)
    requires OneMoreEntry(known, more, x)
    ensures EntrySends(more, h) == if h == x then Sends(OpsOf(more[x])) else EntrySends(known, h)
    ensures EntrySends(known, x) == 0
  {
  }

  lemma SendsAt(known: map<int, Option<ActVal>>, h: int)
    requires h >= 1
    ensures Sends(AllOps(InOrder(known, h))) == Sends(AllOps(InOrder(known, h - 1))) + EntrySends(known, h)
  {
    AllOpsAt(known, h);
    SendsAppend(AllOps(InOrder(known, h - 1)), if h in known then OpsOf(known[h]) else []);
  }

  /** The channels that the reports tell of, in whatever order they arrive. */
  ghost function SendsOver(reports: seq<Message>): nat
    requires forall i :: 0 <= i < |reports| ==> ProperReport(reports[i])
  {
    if reports == [] then 0
    else SendsOver(reports[..|reports| - 1]) + SendsOf(reports[|reports| - 1])
  }

  ghost function SendsOf(m: Message): nat
    requires ProperReport(m)
  {
    SendsIn(Segments(ParamsOf(m)))
  }

  lemma {:induction false} SendsOfReports(reports: seq<Message>, h: int)
    requires DistinctReports(reports) && forall i :: 0 <= i < |reports| ==> Index(reports[i]) <= h
    ensures Sends(AllOps(InOrder(Filed(reports), h))) == SendsOver(reports)
  {
    if reports == [] {
      NothingFiled(h);
    } else {
      SendsOfReports(reports[..|reports| - 1], h);
      SendsOfLast(reports, h);
    }
  }

  lemma SendsOfLast(reports: seq<Message>, h: int)
    requires reports != [] && DistinctReports(reports) && Index(reports[|reports| - 1]) <= h
    ensures var n := |reports| - 1;
      Sends(AllOps(InOrder(Filed(reports), h))) == Sends(AllOps(InOrder(Filed(reports[..n]), h))) + SendsOf(reports[n])
  {
    var n := |reports| - 1;
    LastIsNew(reports);
    ReportSends(reports[n]);
    SendsOfMap(Filed(reports[..n]), Filed(reports), h, Index(reports[n]));
  }

  lemma LastIsNew(reports: seq<Message>)
    requires reports != [] && DistinctReports(reports)
    ensures Index(reports[|reports| - 1]) !in Filed(reports[..|reports| - 1])
  {
    var n := |reports| - 1;
    FiledKeys(reports[..n]);
    assert !Indexed(reports[..n], Index(reports[n]));
  }

  lemma ReportSends(m: Message)
    requires ProperReport(m)
    ensures Sends(ActivityOf(m).operations) == SendsOf(m) && Index(m) >= 1
  {
    ReportReads(m);
    SendsRead(ActivityOf(m).operations, Segments(ParamsOf(m)));
  }

  lemma {:induction false} NothingFiled(h: int)
    ensures InOrder(map[], h) == []
    decreases h
  {
    if h > 0 {
      NothingFiled(h - 1);
    }
  }

  /** The end that a report names. */
  ghost function EndOf(m: Message): Option<string>
    requires ProperReport(m)
  {
    NamedEnd(Segments(ParamsOf(m)))
  }

  lemma FiledEnd(reports: seq<Message>, i: nat)
    requires DistinctReports(reports) && i < |reports|
    ensures var x := Index(reports[i]);
      x in Filed(reports) && Destination(OpsOf(Filed(reports)[x])) == EndOf(reports[i])
  {
    FiledValue(reports, i);
    ReportReads(reports[i]);
    EndReads(ActivityOf(reports[i]).operations, Segments(ParamsOf(reports[i])));
  }

  /** The summary is printed, and does not panic, exactly if every report holds an operation group. */
  lemma PrintedIff(reports: seq<Message>, info: Info, noError: bool)
    requires DistinctReports(reports)
    ensures Summary(info, Filed(reports), Highest(reports), noError).Some? <==>
      forall i :: 0 <= i < |reports| ==> HoldsOperation(reports[i])
  {
    ToldIff(info, reports);
    forall i | 0 <= i < |reports|
      ensures ActivityOf(reports[i]).operations != [] <==> HoldsOperation(reports[i])
    {
      ReportReads(reports[i]);
    }
  }

  ghost predicate HoldsOperation(m: Message)
    requires ProperReport(m)
  {
    Segments(ParamsOf(m)) != []
  }

  /** Whatever distinct reports are filed, in whatever order they came: the channel count grows by
      the SENDs they tell of. */
  lemma PrintedChannels(reports: seq<Message>, info: Info, noError: bool, printed: Info)
    requires DistinctReports(reports) && Summary(info, Filed(reports), Highest(reports), noError) == Some(printed)
    ensures printed.channelCount == info.channelCount + SendsOver(reports)
  {
    VisitTells(info, InOrder(Filed(reports), Highest(reports)));
    HighestIsMax(reports);
    SendsOfReports(reports, Highest(reports));
  }

  /** The final queue manager is the one that the report of the highest index to name an end names;
      and the trace is a success. */
  lemma PrintedEnd(reports: seq<Message>, info: Info, noError: bool, printed: Info, j: nat)
    requires DistinctReports(reports) && Summary(info, Filed(reports), Highest(reports), noError) == Some(printed)
    requires j < |reports| && EndOf(reports[j]).Some?
    requires forall i :: 0 <= i < |reports| && Index(reports[i]) > Index(reports[j]) ==> EndOf(reports[i]).None?
    ensures printed.success && Some(printed.finalQMgr) == EndOf(reports[j])
    ensures printed.failure == info.failure
  {
    var known, h := Filed(reports), Highest(reports);
    HighestIsMax(reports);
    FiledEnd(reports, j);
    forall y | y in known && Index(reports[j]) < y <= h
      ensures Destination(OpsOf(known[y])).None?
    {
      FiledKeys(reports);
      var i :| 0 <= i < |reports| && Index(reports[i]) == y;
      FiledEnd(reports, i);
    }
    EndOfMap(known, h, Index(reports[j]));
    VisitTells(info, InOrder(known, h));
  }

  /** If no report names an end, nothing is shown but what an earlier trace has left, and the trace is
      a failure unless there was an error or an earlier success. */
  lemma PrintedWithoutEnd(reports: seq<Message>, info: Info, noError: bool, printed: Info)
    requires DistinctReports(reports) && Summary(info, Filed(reports), Highest(reports), noError) == Some(printed)
    requires forall i :: 0 <= i < |reports| ==> EndOf(reports[i]).None?
    ensures printed.finalQMgr == info.finalQMgr && printed.success == info.success
    ensures printed.failure <==> info.failure || (noError && !info.success)
  {
    var known, h := Filed(reports), Highest(reports);
    forall y | y in known && 1 <= y <= h
      ensures Destination(OpsOf(known[y])).None?
    {
      FiledKeys(reports);
      var i :| 0 <= i < |reports| && Index(reports[i]) == y;
      FiledEnd(reports, i);
    }
    NoEndOfMap(known, h);
    VisitTells(info, InOrder(known, h));
  }

  // --- a complete route

  /** The segment's operation is a discard, and the one queue manager it names is this. */
  ghost predicate DiscardedAt(segment: seq<Node>, q: string) {
    && LastInt(segment, OperationType) == Some(2)
    && StrNode(QMgrName, q) in segment
    && forall k :: 0 <= k < |segment| && segment[k].StrNode? && segment[k].code == QMgrName ==> segment[k].text == q
  }

  lemma {:induction false} OnlyName(segment: seq<Node>, q: string)
    requires StrNode(QMgrName, q) in segment
    requires forall k :: 0 <= k < |segment| && segment[k].StrNode? && segment[k].code == QMgrName ==> segment[k].text == q
    ensures LastStr(segment, QMgrName) == Some(q)
  {
    var n := |segment| - 1;
    if !(segment[n].StrNode? && segment[n].code == QMgrName) {
      assert segment == segment[..n] + [segment[n]];
      OnlyName(segment[..n], q);
    }
  }

  lemma {:induction false} LastDiscardEnds(segments: seq<seq<Node>>, k: nat, q: string)
    requires k < |segments| && DiscardedAt(segments[k], q)
    requires forall i :: k < i < |segments| ==> LastInt(segments[i], OperationType) != Some(2)
    ensures NamedEnd(segments) == Some(q)
  {
    if k == |segments| - 1 {
      OnlyName(segments[k], q);
    } else {
      LastDiscardEnds(segments[..|segments| - 1], k, q);
    }
  }

  /** On a complete route that no limit cuts short, in any order of arrival: if the last operation of
      the last report to be a discard names one queue manager, this is the final queue manager
      printed and the trace a success, whatever else the reports name. */
  lemma RouteEndsAt(arrivals: seq<Message>, n: nat, j: nat, k: nat, q: string, info: Info, printed: Info)
    requires CompleteRoute(arrivals, n) && j < n && Index(arrivals[j]) == n
    requires var segments := Segments(ParamsOf(arrivals[j]));
      && k < |segments| && DiscardedAt(segments[k], q)
      && forall i :: k < i < |segments| ==> LastInt(segments[i], OperationType) != Some(2)
    requires Summary(info, Filed(arrivals[..n]), n, true) == Some(printed)
    ensures printed.success && printed.finalQMgr == q
    ensures printed.channelCount == info.channelCount + SendsOver(arrivals[..n])
  {
    var reports := arrivals[..n];
    RouteTables(arrivals, n);
    assert reports[j] == arrivals[j];
    LastDiscardEnds(Segments(ParamsOf(arrivals[j])), k, q);
    PrintedEnd(reports, info, true, printed, j);
    PrintedChannels(reports, info, true, printed);
  }
}
