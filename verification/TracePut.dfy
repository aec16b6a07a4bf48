/** What the tracer puts before it waits for reports, and the first activity it makes up for that. */
module TracePut {
  import opened Options
  import opened TraceModel

  const STR_NAME := "dspmqrtj"
  const STR_DESC := "Display Route Application (GO/JSON Version)"
  const STR_PUT_OBJECT := "objectName"
  const STR_PUT_TYPE := "objectType"
  const STR_LOCAL_QMGR := "localQueueManager"
  const STR_LOCAL_Q := "resolvedQueue"
  const STR_TOPIC_STRING := "topicString"
  const STR_REMOTE_Q := "remoteQueue"
  const STR_REMOTE_QMGR := "remoteQueueManager"

  const OPER_PUT := 4

  datatype Target = Target(isTopic: bool, objName: string, qMgrName: string, applType: int)

  /** What the tracing put reports back: where the message goes, and when it was put. */
  datatype Sending = PutFails | Put(stamp: Stamp, resolvedQ: string, resolvedQMgr: string)

  function TestDetails(target: Target, resolvedQ: string): map<string, Detail> {
    var details := map[
      STR_PUT_TYPE := Text(if target.isTopic then "topic" else "queue"),
      if target.isTopic then STR_TOPIC_STRING else STR_PUT_OBJECT := Text(target.objName),
      STR_LOCAL_QMGR := Text(target.qMgrName)];
    if resolvedQ != "" then details[STR_LOCAL_Q := Text(resolvedQ)] else details
  }

  function TestOperation(target: Target, resolvedQ: string): OpVal {
    OpVal(OPER_PUT, None, TestDetails(target, resolvedQ))
  }

  function TestActivity(target: Target, op: OpVal): ActVal {
    ActVal(STR_NAME, Some(target.applType), STR_DESC, [op], map[])
  }

  /** The message would not leave the local queue manager. */
  predicate IsLocal(op: OpVal, resolvedQMgr: string) {
    STR_LOCAL_QMGR in op.details && op.details[STR_LOCAL_QMGR] == Text(resolvedQMgr)
  }

  predicate IsSent(op: OpVal, sending: Sending) {
    sending.Put? && !IsLocal(op, sending.resolvedQMgr)
  }

  function WithText(details: map<string, Detail>, key: string, s: string): map<string, Detail> {
    if s != "" then details[key := Text(s)] else details
  }

  /** The first operation after the tracing put. */
  function AfterPut(op: OpVal, sending: Sending): OpVal {
    match sending
    case PutFails => op
    case Put(stamp, resolvedQ, resolvedQMgr) =>
      if IsLocal(op, resolvedQMgr) then op.(stamp := Some(stamp), operationVal := OPER_DISCARD)
      else
        op.(stamp := Some(stamp),
            details := WithText(WithText(op.details, STR_REMOTE_Q, resolvedQ), STR_REMOTE_QMGR, resolvedQMgr))
  }

  /** The first activity after the tracing put. */
  function PutFirst(a: ActVal, sending: Sending): ActVal
    requires a.operations != []
  {
    a.(operations := a.operations[0 := AfterPut(a.operations[0], sending)])
  }

  /** A message for the queue manager the test message was put to is never sent; any other is,
      unless the put fails. */
  lemma LocalTargetIsNotTraced(target: Target, resolvedQ: string, sending: Sending)
    ensures IsSent(TestOperation(target, resolvedQ), sending) <==>
      sending.Put? && sending.resolvedQMgr != target.qMgrName
  {
  }

  // --- the first activity, told from what was put

  function DetailAt(op: OpVal, key: string): Option<Detail> {
    if key in op.details then Some(op.details[key]) else None
  }

  function TextIf(c: bool, s: string): Option<Detail> {
    if c then Some(Text(s)) else None
  }

  /** The test message's operation tells its target and where it went, and nothing else. */
  lemma TestTold(target: Target, resolvedQ: string, key: string)
    ensures DetailAt(TestOperation(target, resolvedQ), key) ==
      if key == "objectType" then Some(Text(if target.isTopic then "topic" else "queue"))
      else if key == "objectName" then TextIf(!target.isTopic, target.objName)
      else if key == "topicString" then TextIf(target.isTopic, target.objName)
      else if key == "localQueueManager" then Some(Text(target.qMgrName))
      else if key == "resolvedQueue" then TextIf(resolvedQ != "", resolvedQ)
      else None
  {
  }

  /** The tracing put leaves its stamp if it works. A message that stays is shown as discarded, one
      that leaves tells where it goes as far as that has a name; all else is as before. */
  lemma PutTold(op: OpVal, sending: Sending, key: string)
    ensures var r := AfterPut(op, sending);
      var leaves := sending.Put? && DetailAt(op, "localQueueManager") != Some(Text(sending.resolvedQMgr));
      && r.stamp == (if sending.Put? then Some(sending.stamp) else op.stamp)
      && r.operationVal == (if sending.Put? && !leaves then 2 else op.operationVal)
      && DetailAt(r, key) ==
           if leaves && key == "remoteQueue" && sending.resolvedQ != "" then Some(Text(sending.resolvedQ))
           else if leaves && key == "remoteQueueManager" && sending.resolvedQMgr != "" then Some(Text(sending.resolvedQMgr))
           else DetailAt(op, key)
  {
  }

  /** The first activity of a first trace: the program's own, with this one operation. */
  lemma FirstActivityTold(target: Target, resolvedQ: string, sending: Sending)
    ensures var test := TestOperation(target, resolvedQ);
      var a := PutFirst(TestActivity(target, test), sending);
      && a.applName == "dspmqrtj" && a.description == "Display Route Application (GO/JSON Version)"
      && a.applType == Some(target.applType) && a.traceRoute == map[]
      && a.operations == [AfterPut(test, sending)]
      && a.operations[0].operationVal == if sending.Put? && sending.resolvedQMgr == target.qMgrName then 2 else 4
  {
    TestTold(target, resolvedQ, "localQueueManager");
    PutTold(TestOperation(target, resolvedQ), sending, "");
  }

  /** Of an activity with several operations only the first tells of the put. */
  lemma OthersStay(a: ActVal, sending: Sending, k: nat)
    requires 0 < k < |a.operations|
    ensures var r := PutFirst(a, sending);
      && |r.operations| == |a.operations| && r.operations[k] == a.operations[k]
      && r.operations[0] == AfterPut(a.operations[0], sending)
      && r.applName == a.applName && r.description == a.description && r.applType == a.applType && r.traceRoute == a.traceRoute
  {
  }
}
