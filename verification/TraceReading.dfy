/** What a report says, read off its parameters without the parser: the parameters fall into the
    operations they belong to, and in each the last one of a kind counts. */
module TraceReading {
  import opened Options
  import opened TraceModel

  // --- which parameters belong together

  /** The parameters since the last activity began. */
  function Current(nodes: seq<Node>): seq<Node> {
    if nodes == [] then []
    else
      var n := |nodes| - 1;
      if nodes[n].code == ActivityGroup then [] else Current(nodes[..n]) + [nodes[n]]
  }

  /** The parameters of each of its operations, up to where the next one begins or the activity ends. */
  function Segments(nodes: seq<Node>): seq<seq<Node>> {
    if nodes == [] then []
    else
      var n := |nodes| - 1;
      var before := Segments(nodes[..n]);
      if nodes[n].code == ActivityGroup then []
      else if nodes[n].code == OperationGroup then before + [[]]
      else if before == [] then []
      else before[|before| - 1 := before[|before| - 1] + [nodes[n]]]
  }

  // --- what counts

  function LastInt(nodes: seq<Node>, code: Code): Option<int> {
    if nodes == [] then None
    else
      var n := |nodes| - 1;
      if nodes[n].IntNode? && nodes[n].code == code then Some(nodes[n].value) else LastInt(nodes[..n], code)
  }

  function LastStr(nodes: seq<Node>, code: Code): Option<string> {
    if nodes == [] then None
    else
      var n := |nodes| - 1;
      if nodes[n].StrNode? && nodes[n].code == code then Some(nodes[n].text) else LastStr(nodes[..n], code)
  }

  /** The parameter is kept under this key among an operation's details. */
  predicate KeptAs(n: Node, key: string) {
    match n
    case StrNode(code, s) =>
      || (key == "queue" && code == QName)
      || (key == "resolvedQueue" && code == ResolvedQName && s != "")
      || (key == "queueManager" && code == QMgrName)
      || (key == "channelName" && code == ChannelName)
      || (key == "remoteQueueManager" && code == RemoteQMgrName)
      || (key == "remoteQueue" && code == RemoteQName)
      || (key == "transmissionQueue" && code == XmitQName)
      || (key == "topicString" && code == TopicString && s != "")
    case IntNode(code, _) => (key == "feedback" && code == Feedback) || (key == "channelType" && code == ChannelType)
    case BareNode(_) => false
  }

  function DetailOf(n: Node): Detail {
    match n
    case StrNode(_, s) => Text(s)
    case IntNode(code, v) => Named(if code == Feedback then "MQFB" else "CHT", v)
    case BareNode(_) => Text("")
  }

  function LastDetail(nodes: seq<Node>, key: string): Option<Detail> {
    if nodes == [] then None
    else
      var n := |nodes| - 1;
      if KeptAs(nodes[n], key) then Some(DetailOf(nodes[n])) else LastDetail(nodes[..n], key)
  }

  /** The parameter is kept under this key in the activity's table of the route. */
  predicate RoutedAs(n: Node, key: string) {
    && n.IntNode?
    && (|| (key == "recordedActivities" && n.code == Recorded)
        || (key == "unrecordedActivites" && n.code == Unrecorded)
        || (key == "discontinuityCount" && n.code == Discontinuity)
        || (key == "maxActivities" && n.code == MaxActivities)
        || n.code == RouteOption(key))
  }

  function LastRoute(nodes: seq<Node>, key: string): Option<Detail> {
    if nodes == [] then None
    else
      var n := |nodes| - 1;
      if RoutedAs(nodes[n], key) then Some(Named(if nodes[n].code.RouteOption? then "MQROUTE" else "", nodes[n].value))
      else LastRoute(nodes[..n], key)
  }

  function Under<V>(m: map<string, V>, key: string): Option<V> {
    if key in m then Some(m[key]) else None
  }

  /** The operation says what its parameters say, its stamp aside. */
  ghost predicate OpReads(op: OpVal, nodes: seq<Node>) {
    && op.operationVal == LastInt(nodes, OperationType).GetOr(0)
    && forall key :: Under(op.details, key) == LastDetail(nodes, key)
  }

  ghost predicate ActReads(act: ActVal, nodes: seq<Node>) {
    && act.applName == LastStr(nodes, ApplName).GetOr("")
    && act.description == LastStr(nodes, ActivityDesc).GetOr("")
    && act.applType == LastInt(nodes, ApplType)
    && forall key :: Under(act.traceRoute, key) == LastRoute(nodes, key)
  }

  ghost predicate AllRead(ops: seq<OpVal>, segments: seq<seq<Node>>) {
    |ops| == |segments| && forall k :: 0 <= k < |ops| ==> OpReads(ops[k], segments[k])
  }

  /** The parser holds what the parameters so far say. */
  ghost predicate Holds(st: PState, nodes: seq<Node>) {
    && st.act.Some? && ActReads(st.act.value, Current(nodes)) && AllRead(st.act.value.operations, Segments(nodes))
    && (st.opOpen <==> Segments(nodes) != [])
    && st.recorded == LastInt(Current(nodes), Recorded).GetOr(-1)
    && st.unrecorded == LastInt(Current(nodes), Unrecorded).GetOr(-1)
  }

  // --- what one parameter changes

  ghost predicate ActStep(act: ActVal, n: Node, act': ActVal) {
    && act'.applName == (if n.StrNode? && n.code == ApplName then n.text else act.applName)
    && act'.description == (if n.StrNode? && n.code == ActivityDesc then n.text else act.description)
    && act'.applType == (if n.IntNode? && n.code == ApplType then Some(n.value) else act.applType)
    && forall key :: Under(act'.traceRoute, key) ==
         if RoutedAs(n, key) then Some(Named(if n.code.RouteOption? then "MQROUTE" else "", n.value))
         else Under(act.traceRoute, key)
  }

  ghost predicate OpStep(op: OpVal, n: Node, op': OpVal) {
    && op'.operationVal == (if n.IntNode? && n.code == OperationType then n.value else op.operationVal)
    && forall key :: Under(op'.details, key) == if KeptAs(n, key) then Some(DetailOf(n)) else Under(op.details, key)
  }

  lemma ActStepReads(act: ActVal, nodes: seq<Node>, n: Node, act': ActVal)
    requires ActReads(act, nodes) && ActStep(act, n, act')
    ensures ActReads(act', nodes + [n])
  {
    SnocUnfolds(nodes, n);
  }

  lemma OpStepReads(op: OpVal, nodes: seq<Node>, n: Node, op': OpVal)
    requires OpReads(op, nodes) && OpStep(op, n, op')
    ensures OpReads(op', nodes + [n])
  {
    SnocUnfolds(nodes, n);
  }

  lemma SnocUnfolds(nodes: seq<Node>, n: Node)
    ensures (nodes + [n])[..|nodes|] == nodes && (nodes + [n])[|nodes|] == n
  {
  }

  /** The open operation, if there is one, changes as told and the others do not; and the activity as
      told. */
  ghost predicate StepTells(st: PState, n: Node, st': PState)
    requires st.Valid() && st'.Valid()
  {
    && st.act.Some? && st'.act.Some? && ActStep(st.act.value, n, st'.act.value)
    && st'.opOpen == st.opOpen
    && (if st.opOpen then
          && st'.act.value.operations == st.act.value.operations[|st.act.value.operations| - 1 := CurrentOp(st')]
          && OpStep(CurrentOp(st), n, CurrentOp(st'))
        else st'.act.value.operations == st.act.value.operations)
    && st'.recorded == (if n.IntNode? && n.code == Recorded then n.value else st.recorded)
    && st'.unrecorded == (if n.IntNode? && n.code == Unrecorded then n.value else st.unrecorded)
  }

  lemma IntTells(st: PState, code: Code, v: int)
    requires st.Valid() && st.act.Some? && code != ActivityGroup && code != OperationGroup
    requires IntStep(st, code, v).Ok?
    ensures IntStep(st, code, v).st.Valid() && StepTells(st, IntNode(code, v), IntStep(st, code, v).st)
  {
    if code.Feedback? || code.ChannelType? || code.OperationType? {
      OpIntTells(st, code, v);
    } else {
      ActIntTells(st, code, v);
    }
  }

  lemma OpIntTells(st: PState, code: Code, v: int)
    requires st.Valid() && st.act.Some? && (code.Feedback? || code.ChannelType? || code.OperationType?)
    requires IntStep(st, code, v).Ok?
    ensures IntStep(st, code, v).st.Valid() && StepTells(st, IntNode(code, v), IntStep(st, code, v).st)
  {
  }

  lemma ActIntTells(st: PState, code: Code, v: int)
    requires st.Valid() && st.act.Some? && !code.Feedback? && !code.ChannelType? && !code.OperationType?
    requires IntStep(st, code, v).Ok?
    ensures IntStep(st, code, v).st.Valid() && StepTells(st, IntNode(code, v), IntStep(st, code, v).st)
  {
    if code.Recorded? || code.Unrecorded? {
      CountTells(st, code, v);
    } else if code.Discontinuity? || code.MaxActivities? || code.RouteOption? {
      RouteTells(st, code, v);
    } else {
      OtherIntTells(st, code, v);
    }
  }

  lemma CountTells(st: PState, code: Code, v: int)
    requires st.Valid() && st.act.Some? && (code.Recorded? || code.Unrecorded?)
    ensures var r := IntStep(st, code, v); r.Ok? && r.st.Valid() && StepTells(st, IntNode(code, v), r.st)
  {
  }

  lemma RouteTells(st: PState, code: Code, v: int)
    requires st.Valid() && st.act.Some? && (code.Discontinuity? || code.MaxActivities? || code.RouteOption?)
    ensures var r := IntStep(st, code, v); r.Ok? && r.st.Valid() && StepTells(st, IntNode(code, v), r.st)
  {
  }

  lemma OtherIntTells(st: PState, code: Code, v: int)
    requires st.Valid() && st.act.Some? && !code.Feedback? && !code.ChannelType? && !code.OperationType?
    requires !code.Recorded? && !code.Unrecorded? && !code.Discontinuity? && !code.MaxActivities? && !code.RouteOption?
    ensures var r := IntStep(st, code, v); r.Ok? && r.st.Valid() && StepTells(st, IntNode(code, v), r.st)
  {
    var n, st' := IntNode(code, v), IntStep(st, code, v).st;
    forall key
      ensures !RoutedAs(n, key) && !KeptAs(n, key)
    {
    }
    if code.ApplType? {
      assert ActStep(st.act.value, n, st.act.value.(applType := Some(v)));
      assert st' == st.(act := Some(st.act.value.(applType := Some(v))));
    } else {
      assert st' == st;
    }
  }

  /** The key a text is stored under is the one it is told to be. */
  lemma KeyTells(code: Code, s: string, key: string)
    ensures KeptAs(StrNode(code, s), key) <==> DetailKey(code, s) == key && key != ""
  {
  }

  lemma DetailTells(st: PState, code: Code, s: string)
    requires st.Valid() && st.act.Some?
    requires StrStep(st, code, s).Ok?
    requires code != ApplName && code != ActivityDesc && code != OperationDate && code != OperationTime
    ensures StrStep(st, code, s).st.Valid() && StepTells(st, StrNode(code, s), StrStep(st, code, s).st)
  {
    forall key
      ensures KeptAs(StrNode(code, s), key) <==> DetailKey(code, s) == key && key != ""
    {
      KeyTells(code, s, key);
    }
    var st', op := StrStep(st, code, s).st, if st.opOpen then CurrentOp(st) else NEW_OPERATION;
    if st.opOpen && DetailKey(code, s) != "" {
      assert st' == PutOp(st, op.(details := op.details[DetailKey(code, s) := Text(s)]));
    } else {
      assert st' == st;
    }
  }

  lemma ActStrTells(st: PState, code: Code, s: string)
    requires st.Valid() && st.act.Some? && (code == ApplName || code == ActivityDesc)
    requires StrStep(st, code, s).Ok?
    ensures StrStep(st, code, s).st.Valid() && StepTells(st, StrNode(code, s), StrStep(st, code, s).st)
  {
  }

  lemma StampTells(st: PState, code: Code, s: string)
    requires st.Valid() && st.act.Some? && (code == OperationDate || code == OperationTime)
    requires StrStep(st, code, s).Ok?
    ensures StrStep(st, code, s).st.Valid() && StepTells(st, StrNode(code, s), StrStep(st, code, s).st)
  {
    UsedStampTells(if code == OperationTime then st.(operationTime := s) else st.(operationDate := s), StrNode(code, s));
  }

  lemma UsedStampTells(st: PState, n: Node)
    requires st.Valid() && st.act.Some? && n.StrNode? && (n.code == OperationDate || n.code == OperationTime)
    requires UseStamp(st).Ok?
    ensures UseStamp(st).st.Valid() && StepTells(st, n, UseStamp(st).st)
  {
  }

  lemma StrTells(st: PState, code: Code, s: string)
    requires st.Valid() && st.act.Some? && code != ActivityGroup && code != OperationGroup
    requires StrStep(st, code, s).Ok?
    ensures StrStep(st, code, s).st.Valid() && StepTells(st, StrNode(code, s), StrStep(st, code, s).st)
  {
    if code == OperationDate || code == OperationTime {
      StampTells(st, code, s);
    } else if code == ApplName || code == ActivityDesc {
      ActStrTells(st, code, s);
    } else {
      DetailTells(st, code, s);
    }
  }

  // --- the parser reads just that

  lemma ActivityStarts(st: PState, nodes: seq<Node>, n: Node)
    requires st.Valid() && n.code == ActivityGroup && Step(st, n).Ok?
    ensures Holds(Step(st, n).st, nodes + [n])
  {
    SnocUnfolds(nodes, n);
    assert Current(nodes + [n]) == [] && Segments(nodes + [n]) == [];
  }

  lemma OperationStarts(st: PState, nodes: seq<Node>, n: Node)
    requires st.Valid() && Holds(st, nodes) && n.code == OperationGroup && Step(st, n).Ok?
    ensures Holds(Step(st, n).st, nodes + [n])
  {
    var st', w := Step(st, n).st, Current(nodes);
    SnocUnfolds(nodes, n);
    SnocUnfolds(w, n);
    ActStepReads(st.act.value, w, n, st'.act.value);
    AllReadNew(st.act.value.operations, Segments(nodes));
  }

  lemma AllReadNew(ops: seq<OpVal>, segments: seq<seq<Node>>)
    requires AllRead(ops, segments)
    ensures AllRead(ops + [NEW_OPERATION], segments + [[]])
  {
    assert OpReads(NEW_OPERATION, []);
  }

  lemma AllReadLast(ops: seq<OpVal>, segments: seq<seq<Node>>, op: OpVal, segment: seq<Node>)
    requires AllRead(ops, segments) && ops != [] && OpReads(op, segment)
    ensures AllRead(ops[|ops| - 1 := op], segments[|segments| - 1 := segment])
  {
  }

  lemma OtherParam(st: PState, nodes: seq<Node>, n: Node, st': PState)
    requires st.Valid() && st'.Valid() && Holds(st, nodes) && StepTells(st, n, st')
    requires n.code != ActivityGroup && n.code != OperationGroup
    ensures Holds(st', nodes + [n])
  {
    OtherInActivity(st, nodes, n, st');
    OtherInOperation(st, nodes, n, st');
    assert Holds(st', nodes + [n]);
  }

  lemma OtherInActivity(st: PState, nodes: seq<Node>, n: Node, st': PState)
    requires st.Valid() && st'.Valid() && Holds(st, nodes) && StepTells(st, n, st')
    requires n.code != ActivityGroup
    ensures ActReads(st'.act.value, Current(nodes + [n]))
    ensures st'.recorded == LastInt(Current(nodes + [n]), Recorded).GetOr(-1)
    ensures st'.unrecorded == LastInt(Current(nodes + [n]), Unrecorded).GetOr(-1)
  {
    var w := Current(nodes);
    SnocUnfolds(nodes, n);
    SnocUnfolds(w, n);
    assert Current(nodes + [n]) == w + [n];
    ActStepReads(st.act.value, w, n, st'.act.value);
  }

  lemma OtherInOperation(st: PState, nodes: seq<Node>, n: Node, st': PState)
    requires st.Valid() && st'.Valid() && Holds(st, nodes) && StepTells(st, n, st')
    requires n.code != ActivityGroup && n.code != OperationGroup
    ensures AllRead(st'.act.value.operations, Segments(nodes + [n]))
    ensures st'.opOpen <==> Segments(nodes + [n]) != []
  {
    var segments := Segments(nodes);
    SnocUnfolds(nodes, n);
    if st.opOpen {
      var m := |segments| - 1;
      assert Segments(nodes + [n]) == segments[m := segments[m] + [n]];
      assert OpReads(CurrentOp(st), segments[m]);
      OpStepReads(CurrentOp(st), segments[m], n, CurrentOp(st'));
      AllReadLast(st.act.value.operations, segments, CurrentOp(st'), segments[m] + [n]);
    } else {
      assert Segments(nodes + [n]) == [];
    }
  }

  lemma BareTells(st: PState, code: Code)
    requires st.Valid() && st.act.Some?
    ensures StepTells(st, BareNode(code), st)
  {
  }

  lemma OtherTells(st: PState, n: Node)
    requires st.Valid() && st.act.Some? && n.code != ActivityGroup && n.code != OperationGroup && Step(st, n).Ok?
    ensures StepTells(st, n, Step(st, n).st)
  {
    match n
    case IntNode(code, v) => IntTells(st, code, v);
    case StrNode(code, s) => StrTells(st, code, s);
    case BareNode(code) => BareTells(st, code);
  }

  lemma HoldsStep(st: PState, nodes: seq<Node>, n: Node)
    requires st.Valid() && Step(st, n).Ok? && (Holds(st, nodes) || n.code == ActivityGroup)
    ensures Holds(Step(st, n).st, nodes + [n])
  {
    if n.code == ActivityGroup {
      ActivityStarts(st, nodes, n);
    } else if n.code == OperationGroup {
      OperationStarts(st, nodes, n);
    } else {
      OtherTells(st, n);
      OtherParam(st, nodes, n, Step(st, n).st);
    }
  }

  lemma FoldLast(st: PState, nodes: seq<Node>, n: Node)
    requires st.Valid()
    ensures Fold(st, nodes + [n]) == match Fold(st, nodes) case Panic => Panic case Ok(s) => Step(s, n)
  {
    FoldConcat(st, nodes, [n]);
    if Fold(st, nodes).Ok? {
      FoldOne(Fold(st, nodes).st, n);
    }
  }

  /** After the parameters of an activity, whatever came before, the parser holds what they say. */
  lemma {:induction false} FoldReads(st: PState, nodes: seq<Node>)
    requires st.Valid() && nodes != [] && nodes[0].code == ActivityGroup && Fold(st, nodes).Ok?
    ensures Holds(Fold(st, nodes).st, nodes)
    decreases |nodes|
  {
    var n := |nodes| - 1;
    assert nodes == nodes[..n] + [nodes[n]];
    FoldLast(st, nodes[..n], nodes[n]);
    if n > 0 {
      FoldReads(st, nodes[..n]);
    }
    HoldsStep(Fold(st, nodes[..n]).st, nodes[..n], nodes[n]);
  }

  /** Some operation was told to be a discard, even if told otherwise later. */
  ghost predicate TellsDiscard(nodes: seq<Node>) {
    IntNode(OperationType, 2) in nodes
  }

  lemma {:induction false} FoldSeesDiscard(st: PState, nodes: seq<Node>)
    requires st.Valid() && Fold(st, nodes).Ok?
    ensures Fold(st, nodes).st.seenDiscard <==> st.seenDiscard || TellsDiscard(nodes)
    decreases |nodes|
  {
    if nodes != [] {
      var n := |nodes| - 1;
      assert nodes == nodes[..n] + [nodes[n]];
      FoldLast(st, nodes[..n], nodes[n]);
      FoldSeesDiscard(st, nodes[..n]);
      StepSeesDiscard(Fold(st, nodes[..n]).st, nodes[n]);
    }
  }

  lemma StepSeesDiscard(st: PState, n: Node)
    requires st.Valid() && Step(st, n).Ok?
    ensures Step(st, n).st.seenDiscard <==> st.seenDiscard || n == IntNode(OperationType, 2)
  {
    var s := Enter(st, n.code).st;
    match n
    case IntNode(code, v) => IntSeesDiscard(s, code, v);
    case StrNode(code, t) => StrSeesDiscard(s, code, t);
    case BareNode(_) =>
  }

  lemma IntSeesDiscard(st: PState, code: Code, v: int)
    requires st.Valid()
    requires IntStep(st, code, v).Ok?
    ensures IntStep(st, code, v).st.seenDiscard <==> st.seenDiscard || (code == OperationType && v == 2)
  {
  }

  lemma StrSeesDiscard(st: PState, code: Code, s: string)
    requires st.Valid()
    requires StrStep(st, code, s).Ok?
    ensures StrStep(st, code, s).st.seenDiscard == st.seenDiscard
  {
  }

  // --- when it panics

  /** An integer that belongs to an operation, which none has begun to hold. */
  predicate IsStray(nodes: seq<Node>, k: nat)
    requires k < |nodes|
  {
    && nodes[k].IntNode? && (nodes[k].code == Feedback || nodes[k].code == OperationType || nodes[k].code == ChannelType)
    && Segments(nodes[..k]) == []
  }

  ghost predicate SomeStray(nodes: seq<Node>) {
    exists k :: 0 <= k < |nodes| && IsStray(nodes, k)
  }

  /** Dates and times are empty or have at least their eight digits. */
  ghost predicate LongFields(nodes: seq<Node>) {
    forall k :: 0 <= k < |nodes| && nodes[k].StrNode? && (nodes[k].code == OperationDate || nodes[k].code == OperationTime) ==>
      nodes[k].text == "" || |nodes[k].text| >= 8
  }

  ghost predicate LongPending(st: PState) {
    (st.operationDate == "" || |st.operationDate| >= 8) && (st.operationTime == "" || |st.operationTime| >= 8)
  }

  lemma StrayLast(nodes: seq<Node>)
    requires nodes != []
    ensures SomeStray(nodes) <==> SomeStray(nodes[..|nodes| - 1]) || IsStray(nodes, |nodes| - 1)
  {
    var n := |nodes| - 1;
    forall k | 0 <= k < n
      ensures IsStray(nodes, k) <==> IsStray(nodes[..n], k)
    {
      assert nodes[..n][..k] == nodes[..k];
    }
    if SomeStray(nodes[..n]) {
      var k :| 0 <= k < n && IsStray(nodes[..n], k);
      assert IsStray(nodes, k);
    }
    if SomeStray(nodes) && !IsStray(nodes, n) {
      var k :| 0 <= k < n && IsStray(nodes, k);
      assert IsStray(nodes[..n], k);
    }
  }

  lemma IntPanicsIff(st: PState, code: Code, v: int)
    requires st.Valid() && st.act.Some?
    ensures IntStep(st, code, v).Panic? <==>
      !st.opOpen && (code == Feedback || code == OperationType || code == ChannelType)
    ensures IntStep(st, code, v).Ok? && LongPending(st) ==> LongPending(IntStep(st, code, v).st)
  {
  }

  lemma StrNeverPanics(st: PState, code: Code, s: string)
    requires st.Valid() && st.act.Some? && LongPending(st)
    requires code == OperationDate || code == OperationTime ==> s == "" || |s| >= 8
    ensures StrStep(st, code, s).Ok? && LongPending(StrStep(st, code, s).st)
  {
  }

  /** A stamp is made, and may be found too short, exactly when an operation is open and the other
      half is pending. */
  lemma StampPanicsIff(st: PState, s: string)
    requires st.Valid() && st.act.Some?
    ensures StrStep(st, OperationDate, s).Panic? <==>
      st.opOpen && s != "" && st.operationTime != "" && (|s| < 8 || |st.operationTime| < 8)
    ensures StrStep(st, OperationTime, s).Panic? <==>
      st.opOpen && s != "" && st.operationDate != "" && (|s| < 8 || |st.operationDate| < 8)
  {
  }

  lemma StepPanicsIff(st: PState, nodes: seq<Node>)
    requires nodes != [] && st.Valid() && LongPending(st) && LongFields(nodes)
    requires Holds(st, nodes[..|nodes| - 1]) || nodes[|nodes| - 1].code == ActivityGroup
    ensures Step(st, nodes[|nodes| - 1]).Panic? <==> IsStray(nodes, |nodes| - 1)
    ensures Step(st, nodes[|nodes| - 1]).Ok? ==> LongPending(Step(st, nodes[|nodes| - 1]).st)
  {
    var n := nodes[|nodes| - 1];
    if n.code != ActivityGroup && n.code != OperationGroup {
      match n
      case IntNode(code, v) => IntPanicsIff(st, code, v);
      case StrNode(code, s) => StrNeverPanics(st, code, s);
      case BareNode(_) =>
    }
  }

  /** With proper dates and times, reading an activity panics exactly if some integer that belongs to
      an operation comes before the activity's first one. */
  lemma {:induction false} PanicsIff(st: PState, nodes: seq<Node>)
    requires st.Valid() && nodes != [] && nodes[0].code == ActivityGroup && LongPending(st) && LongFields(nodes)
    ensures Fold(st, nodes).Panic? <==> SomeStray(nodes)
    ensures Fold(st, nodes).Ok? ==> LongPending(Fold(st, nodes).st)
    decreases |nodes|
  {
    var n := |nodes| - 1;
    assert nodes == nodes[..n] + [nodes[n]];
    FoldLast(st, nodes[..n], nodes[n]);
    StrayLast(nodes);
    if n > 0 {
      PanicsIff(st, nodes[..n]);
    } else {
      assert !SomeStray(nodes[..0]);
    }
    if Fold(st, nodes[..n]).Ok? {
      if n > 0 {
        FoldReads(st, nodes[..n]);
      }
      StepPanicsIff(Fold(st, nodes[..n]).st, nodes);
    }
  }

  // --- what the tree adds

  /** What is inside an embedded or other message descriptor, or a message, is not looked at. */
  lemma SkippedGroups(code: Code, children: seq<Param>)
    requires code == EmbeddedMqmd || code == Mqmd || code == MessageGroup
    ensures Flatten(GroupParam(code, children)) == [BareNode(code)]
  {
  }

  /** A group of any other kind is looked at together with all its contents, in order. */
  lemma OtherGroups(code: Code, before: seq<Param>, p: Param, after: seq<Param>)
    requires code != EmbeddedMqmd && code != Mqmd && code != MessageGroup
    ensures Flatten(GroupParam(code, before + [p] + after)) ==
      [BareNode(code)] + FlattenAll(before) + Flatten(p) + FlattenAll(after)
  {
    FlattenConcat(before + [p], after);
    FlattenConcat(before, [p]);
    assert [p][..0] == [] && FlattenAll([p]) == Flatten(p);
    Regroup([BareNode(code)], FlattenAll(before), Flatten(p), FlattenAll(after));
  }

  lemma Regroup(a: seq<Node>, b: seq<Node>, c: seq<Node>, d: seq<Node>)
    ensures a + (b + c + d) == a + b + c + d
  {
  }

  lemma {:induction false} FlattenConcat(a: seq<Param>, b: seq<Param>)
    ensures FlattenAll(a + b) == FlattenAll(a) + FlattenAll(b)
    decreases |b|
  {
    if b == [] {
      FlattenNothing(a);
    } else {
      FlattenConcat(a, b[..|b| - 1]);
      FlattenOneMore(a, b[..|b| - 1], b[|b| - 1]);
      LastApart(b);
    }
  }

  lemma FlattenOneMore(a: seq<Param>, b: seq<Param>, p: Param)
    requires FlattenAll(a + b) == FlattenAll(a) + FlattenAll(b)
    ensures FlattenAll(a + (b + [p])) == FlattenAll(a) + FlattenAll(b + [p])
  {
    FlattenMore(a + b, p);
    FlattenMore(b, p);
    Associate(a, b, [p]);
    Associate(FlattenAll(a), FlattenAll(b), Flatten(p));
  }

  lemma FlattenNothing(a: seq<Param>)
    ensures FlattenAll(a + []) == FlattenAll(a) + FlattenAll([])
  {
    assert a + [] == a;
  }

  lemma LastApart<T>(b: seq<T>)
    requires b != []
    ensures b == b[..|b| - 1] + [b[|b| - 1]]
  {
  }

  lemma Associate<T>(a: seq<T>, b: seq<T>, c: seq<T>)
    ensures a + (b + c) == a + b + c
  {
  }
}
