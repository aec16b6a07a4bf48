/** The summary printed after a trace: the activities put back in order of their index, and the
    outcome of the route read off them. Nothing of it is reset between traces. */
module TraceSummary {
  import opened Options
  import opened TraceModel

  datatype Info = Info(success: bool, failure: bool, last: Option<Stamp>, channelCount: int, finalQMgr: string)

  const FRESH_INFO := Info(false, false, None, 0, "")

  function Shown(d: Detail): string {
    match d
    case Text(s) => s
    case Named(table, _) => table
  }

  // --- the loops of the source, as functions

  /** The entries present under 1, 2, ... up to `highest`. */
  function InOrder(known: map<int, Option<ActVal>>, highest: int): seq<Option<ActVal>> {
    if highest <= 0 then []
    else InOrder(known, highest - 1) + if highest in known then [known[highest]] else []
  }

  function VisitOp(info: Info, op: OpVal): Info {
    if op.operationVal == OPER_SEND then info.(channelCount := info.channelCount + 1)
    else if op.operationVal == OPER_DISCARD && STR_QMGR in op.details then
      info.(finalQMgr := Shown(op.details[STR_QMGR]), success := true)
    else info
  }

  function VisitOps(info: Info, ops: seq<OpVal>): Info {
    if ops == [] then info else VisitOp(VisitOps(info, ops[..|ops| - 1]), ops[|ops| - 1])
  }

  /** None stands for a panic: a nil activity, or one without operations. */
  function VisitActivity(info: Info, a: Option<ActVal>): Option<Info> {
    if a.None? || a.value.operations == [] then None
    else
      var ops := a.value.operations;
      Some(VisitOps(info.(last := ops[|ops| - 1].stamp), ops))
  }

  function Visit(info: Info, acts: seq<Option<ActVal>>): Option<Info> {
    if acts == [] then Some(info)
    else
      match Visit(info, acts[..|acts| - 1])
      case None => None
      case Some(i) => VisitActivity(i, acts[|acts| - 1])
  }

  function Conclude(info: Info, noError: bool): Info {
    if !info.success && noError then info.(failure := true) else info
  }

  function Summary(info: Info, known: map<int, Option<ActVal>>, highest: int, noError: bool): Option<Info> {
    match Visit(info, InOrder(known, highest))
    case None => None
    case Some(i) => Some(Conclude(i, noError))
  }

  // --- what the summary says, told without the loops

  function AllOps(acts: seq<Option<ActVal>>): seq<OpVal> {
    if acts == [] then []
    else
      var a := acts[|acts| - 1];
      AllOps(acts[..|acts| - 1]) + if a.Some? then a.value.operations else []
  }

  function Sends(ops: seq<OpVal>): nat {
    if ops == [] then 0
    else Sends(ops[1..]) + if ops[0].operationVal == OPER_SEND then 1 else 0
  }

  predicate Arrives(op: OpVal) {
    op.operationVal == OPER_DISCARD && STR_QMGR in op.details
  }

  /** Where the last operation that discarded the message at a named queue manager was. */
  function Destination(ops: seq<OpVal>): Option<string> {
    if ops == [] then None
    else
      match Destination(ops[1..])
      case Some(q) => Some(q)
      case None => if Arrives(ops[0]) then Some(Shown(ops[0].details[STR_QMGR])) else None
  }

  lemma {:induction false} SendsAppend(a: seq<OpVal>, b: seq<OpVal>)
    ensures Sends(a + b) == Sends(a) + Sends(b)
  {
    if a == [] {
      assert a + b == b;
    } else {
      assert (a + b)[1..] == a[1..] + b;
      SendsAppend(a[1..], b);
    }
  }

  lemma {:induction false} DestinationAppend(a: seq<OpVal>, b: seq<OpVal>)
    ensures Destination(a + b) == if Destination(b).Some? then Destination(b) else Destination(a)
  {
    if a == [] {
      assert a + b == b;
    } else {
      assert (a + b)[1..] == a[1..] + b;
      DestinationAppend(a[1..], b);
    }
  }

  ghost predicate Tells(before: Info, ops: seq<OpVal>, after: Info) {
    && after.channelCount == before.channelCount + Sends(ops)
    && after.finalQMgr == Destination(ops).GetOr(before.finalQMgr)
    && after.success == (before.success || Destination(ops).Some?)
    && after.failure == before.failure
  }

  lemma {:induction false} VisitOpsTells(info: Info, ops: seq<OpVal>)
    ensures Tells(info, ops, VisitOps(info, ops))
    ensures VisitOps(info, ops).last == info.last
  {
    if ops != [] {
      var n := |ops| - 1;
      VisitOpsTells(info, ops[..n]);
      assert ops == ops[..n] + [ops[n]];
      SendsAppend(ops[..n], [ops[n]]);
      DestinationAppend(ops[..n], [ops[n]]);
      assert [ops[n]][1..] == [];
    }
  }

  lemma TellsTwice(a: Info, x: seq<OpVal>, b: Info, y: seq<OpVal>, c: Info)
    requires Tells(a, x, b) && Tells(b, y, c)
    ensures Tells(a, x + y, c)
  {
    SendsAppend(x, y);
    DestinationAppend(x, y);
  }

  /** The stamp of an activity's last operation. */
  function LastStamp(a: ActVal): Option<Stamp>
    requires a.operations != []
  {
    a.operations[|a.operations| - 1].stamp
  }

  /** A summary fails only on an activity that is missing or has no operations; otherwise the
      count of channels grows by the SENDs of this trace, the final queue manager is that of its
      last DISCARD if there is one and otherwise still the earlier one, and the last stamp is that of
      the very last operation. */
  lemma {:induction false} VisitTells(info: Info, acts: seq<Option<ActVal>>)
    ensures Visit(info, acts).Some? <==>
      forall i :: 0 <= i < |acts| ==> acts[i].Some? && acts[i].value.operations != []
    ensures Visit(info, acts).Some? ==> Tells(info, AllOps(acts), Visit(info, acts).value)
    ensures Visit(info, acts).Some? ==>
      Visit(info, acts).value.last == if acts == [] then info.last else LastStamp(acts[|acts| - 1].value)
  {
    if acts != [] {
      var n := |acts| - 1;
      VisitTells(info, acts[..n]);
      var a := acts[n];
      if Visit(info, acts[..n]).Some? && a.Some? && a.value.operations != [] {
        var ops := a.value.operations;
        var i := Visit(info, acts[..n]).value;
        var j := i.(last := ops[|ops| - 1].stamp);
        VisitOpsTells(j, ops);
        assert Tells(info, AllOps(acts[..n]), j);
        TellsTwice(info, AllOps(acts[..n]), j, ops, VisitOps(j, ops));
      }
    }
  }

  /** A run of traces printed one after another adds up their channel counts. */
  function TotalSends(traces: seq<seq<Option<ActVal>>>): nat {
    if traces == [] then 0
    else TotalSends(traces[..|traces| - 1]) + Sends(AllOps(traces[|traces| - 1]))
  }

  function Printed(info: Info, traces: seq<seq<Option<ActVal>>>, noErrors: seq<bool>): Option<Info>
    requires |noErrors| == |traces|
  {
    if traces == [] then Some(info)
    else
      var n := |traces| - 1;
      match Printed(info, traces[..n], noErrors[..n])
      case None => None
      case Some(i) =>
        match Visit(i, traces[n])
        case None => None
        case Some(j) => Some(Conclude(j, noErrors[n]))
  }

  /** All of them are printed exactly if none lists an activity that is missing or has no operations. */
  lemma {:induction false} PrintedIff(info: Info, traces: seq<seq<Option<ActVal>>>, noErrors: seq<bool>)
    requires |noErrors| == |traces|
    ensures Printed(info, traces, noErrors).Some? <==> forall k :: 0 <= k < |traces| ==> Printable(traces[k])
  {
    if traces != [] {
      var n := |traces| - 1;
      PrintedIff(info, traces[..n], noErrors[..n]);
      if Printed(info, traces[..n], noErrors[..n]).Some? {
        VisitTells(Printed(info, traces[..n], noErrors[..n]).value, traces[n]);
      }
    }
  }

  ghost predicate Printable(acts: seq<Option<ActVal>>) {
    forall i :: 0 <= i < |acts| ==> acts[i].Some? && acts[i].value.operations != []
  }

  /** Since the information is never reset, after any number of traces the channel count is the
      sum over all of them, success sticks, and a failure is recorded only before any success. */
  lemma {:induction false} CountsAccumulate(traces: seq<seq<Option<ActVal>>>, noErrors: seq<bool>)
    requires |noErrors| == |traces| && Printed(FRESH_INFO, traces, noErrors).Some?
    ensures var i := Printed(FRESH_INFO, traces, noErrors).value;
      && i.channelCount == TotalSends(traces)
      && (i.success <==> exists k :: 0 <= k < |traces| && Destination(AllOps(traces[k])).Some?)
      && (i.failure <==> exists k :: 0 <= k < |traces| && noErrors[k] && NoneArrivedBy(traces, k))
  {
    if traces != [] {
      var n := |traces| - 1;
      var i := Printed(FRESH_INFO, traces[..n], noErrors[..n]).value;
      CountsAccumulate(traces[..n], noErrors[..n]);
      VisitTells(i, traces[n]);
      var arrived := Destination(AllOps(traces[n])).Some?;
      ArrivedStep(traces);
      forall k | 0 <= k < n
        ensures NoneArrivedBy(traces, k) <==> NoneArrivedBy(traces[..n], k)
      {
        assert traces[..n][..k + 1] == traces[..k + 1];
      }
      assert traces[..n + 1] == traces;
      var p := Printed(FRESH_INFO, traces, noErrors).value;
      assert p.failure == (i.failure || (!p.success && noErrors[n]));
      FailureStep(traces, noErrors);
    }
  }

  ghost predicate SomeArrived(traces: seq<seq<Option<ActVal>>>) {
    exists k :: 0 <= k < |traces| && Destination(AllOps(traces[k])).Some?
  }

  ghost predicate NoneArrivedBy(traces: seq<seq<Option<ActVal>>>, k: nat)
    requires k < |traces|
  {
    !SomeArrived(traces[..k + 1])
  }

  lemma ArrivedStep(traces: seq<seq<Option<ActVal>>>)
    requires traces != []
    ensures var n := |traces| - 1;
      SomeArrived(traces) <==> SomeArrived(traces[..n]) || Destination(AllOps(traces[n])).Some?
  {
    var n := |traces| - 1;
    if k :| 0 <= k < n && Destination(AllOps(traces[..n][k])).Some? {
      assert traces[k] == traces[..n][k];
    }
  }

  lemma FailureStep(traces: seq<seq<Option<ActVal>>>, noErrors: seq<bool>)
    requires traces != [] && |noErrors| == |traces|
    ensures var n := |traces| - 1;
      (exists k :: 0 <= k < |traces| && noErrors[k] && NoneArrivedBy(traces, k)) <==>
      (exists k :: 0 <= k < n && noErrors[..n][k] && NoneArrivedBy(traces[..n], k)) || (noErrors[n] && !SomeArrived(traces))
  {
    var n := |traces| - 1;
    assert traces[..n + 1] == traces;
    forall k | 0 <= k < n
      ensures NoneArrivedBy(traces, k) <==> NoneArrivedBy(traces[..n], k)
    {
      assert traces[..n][..k + 1] == traces[..k + 1];
    }
    if k :| 0 <= k < n && noErrors[..n][k] && NoneArrivedBy(traces[..n], k) {
      assert noErrors[k] && NoneArrivedBy(traces, k);
    }
    if noErrors[n] && !SomeArrived(traces) {
      assert NoneArrivedBy(traces, n);
    }
  }

  // --- a complete map gives the complete route

  lemma {:induction false} CompleteMapInOrder(known: map<int, Option<ActVal>>, n: nat)
    requires forall x :: 1 <= x <= n ==> x in known
    ensures |InOrder(known, n)| == n
    ensures forall i :: 1 <= i <= n ==> InOrder(known, n)[i - 1] == known[i]
  {
    if n > 0 {
      CompleteMapInOrder(known, n - 1);
    }
  }

  /** The list has the entries of the map, each once, in the order of their index, with nothing for
      an index that is missing. */
  lemma {:induction false} ListedInOrder(known: map<int, Option<ActVal>>, highest: int) returns (at: seq<int>)
    ensures |at| == |InOrder(known, highest)|
    ensures forall k :: 0 <= k < |at| ==> at[k] in known && InOrder(known, highest)[k] == known[at[k]]
    ensures forall j, k :: 0 <= j < k < |at| ==> at[j] < at[k]
    ensures forall x :: x in at <==> x in known && 1 <= x <= highest
    decreases highest
  {
    at := [];
    if highest > 0 {
      at := ListedInOrder(known, highest - 1);
      if highest in known {
        assert forall k :: 0 <= k < |at| ==> at[k] in at;
        at := at + [highest];
      }
    }
  }
}
