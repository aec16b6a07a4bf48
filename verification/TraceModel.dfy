/** Traceroute reports as the route tracer sees them: trees of PCF parameters, and the values
    (activities, operations) that parsing builds from them one parameter at a time. */
module TraceModel {
  import opened Options

  /** The parameter identifiers the parser tells apart. */
  datatype Code =
    | ActivityGroup | OperationGroup | EmbeddedMqmd | Mqmd | MessageGroup | TraceRouteGroup
    | Feedback | ApplType | Recorded | Unrecorded | Discontinuity | OperationType | ChannelType
    | RouteOption(attribute: string) | MaxActivities
    | OperationTime | OperationDate | QName | ResolvedQName | QMgrName | ChannelName
    | RemoteQMgrName | RemoteQName | ApplName | ActivityDesc | XmitQName | TopicString
    | OtherCode(id: int)

  datatype Param =
    | IntParam(code: Code, value: int)
    | StrParam(code: Code, text: string)
    | GroupParam(code: Code, children: seq<Param>)
    | OtherParam(code: Code)

  /** A parameter on its own, without what is nested in it. */
  datatype Node = IntNode(code: Code, value: int) | StrNode(code: Code, text: string) | BareNode(code: Code)

  const OPER_DISCARD := 2
  const OPER_SEND := 8

  const STR_QMGR := "queueManager"

  /** Text, or an integer constant that is shown by its MQ name. */
  datatype Detail = Text(s: string) | Named(table: string, v: int)

  datatype Stamp = Stamp(date: string, time: string)

  datatype OpVal = OpVal(operationVal: int, stamp: Option<Stamp>, details: map<string, Detail>)

  datatype ActVal = ActVal(applName: string, applType: Option<int>, description: string,
                           operations: seq<OpVal>, traceRoute: map<string, Detail>)

  const NEW_OPERATION := OpVal(0, None, map[])
  const NEW_ACTIVITY := ActVal("", None, "", [], map[])

  /** The parser's variables: the current activity, whether a current operation is open (it is then
      the activity's last one), the counters of the report and the date and time not yet used. */
  datatype PState = PState(act: Option<ActVal>, opOpen: bool, recorded: int, unrecorded: int,
                           operationDate: string, operationTime: string, seenDiscard: bool)
  {
    ghost predicate Valid() {
      opOpen ==> act.Some? && act.value.operations != []
    }
  }

  /** A nil dereference or an index out of range ends the program. */
  datatype Run = Ok(st: PState) | Panic

  /** The tree read in order, a parameter before its contents, leaving out the contents of the
      groups the tracer skips. */
  function Flatten(p: Param): seq<Node> {
    match p
    case IntParam(code, v) => [IntNode(code, v)]
    case StrParam(code, s) => [StrNode(code, s)]
    case OtherParam(code) => [BareNode(code)]
    case GroupParam(code, children) =>
      [BareNode(code)] + if Pruned(code) then [] else FlattenAll(children)
  }

  function FlattenAll(ps: seq<Param>): seq<Node> {
    if ps == [] then [] else FlattenAll(ps[..|ps| - 1]) + Flatten(ps[|ps| - 1])
  }

  lemma FlattenMore(ps: seq<Param>, p: Param)
    ensures FlattenAll(ps + [p]) == FlattenAll(ps) + Flatten(p)
  {
    assert (ps + [p])[..|ps|] == ps;
  }

  predicate Pruned(code: Code) {
    code == EmbeddedMqmd || code == Mqmd || code == MessageGroup
  }

  // --- what one parameter does

  function CurrentOp(st: PState): OpVal
    requires st.Valid() && st.opOpen
  {
    st.act.value.operations[|st.act.value.operations| - 1]
  }

  function PutOp(st: PState, op: OpVal): PState
    requires st.Valid() && st.opOpen
  {
    var ops := st.act.value.operations;
    st.(act := Some(st.act.value.(operations := ops[|ops| - 1 := op])))
  }

  /** Entering a parameter: activities and operations start here. */
  function Enter(st: PState, code: Code): Run {
    match code
    case ActivityGroup =>
      Ok(st.(act := Some(NEW_ACTIVITY), opOpen := false, recorded := -1, unrecorded := -1))
    case OperationGroup =>
      if st.act.None? then Panic
      else Ok(st.(act := Some(st.act.value.(operations := st.act.value.operations + [NEW_OPERATION])),
                  opOpen := true))
    case _ => Ok(st)
  }

  function SetDetail(st: PState, key: string, d: Detail): Run
    requires st.Valid()
  {
    if !st.opOpen then Panic
    else
      var op := CurrentOp(st);
      Ok(PutOp(st, op.(details := op.details[key := d])))
  }

  function SetRoute(st: PState, key: string, d: Detail): Run {
    if st.act.None? then Panic
    else Ok(st.(act := Some(st.act.value.(traceRoute := st.act.value.traceRoute[key := d]))))
  }

  function IntStep(st: PState, code: Code, v: int): Run
    requires st.Valid()
  {
    match code
    case Feedback => SetDetail(st, "feedback", Named("MQFB", v))
    case ApplType =>
      if st.act.None? then Panic else Ok(st.(act := Some(st.act.value.(applType := Some(v)))))
    case Recorded => SetRoute(st.(recorded := v), "recordedActivities", Named("", v))
    case Unrecorded => SetRoute(st.(unrecorded := v), "unrecordedActivites", Named("", v))
    case Discontinuity => SetRoute(st, "discontinuityCount", Named("", v))
    case OperationType =>
      if !st.opOpen then Panic
      else
        var op := CurrentOp(st);
        Ok(PutOp(st.(seenDiscard := st.seenDiscard || v == OPER_DISCARD), op.(operationVal := v)))
    case ChannelType => SetDetail(st, "channelType", Named("CHT", v))
    case RouteOption(attribute) => SetRoute(st, attribute, Named("MQROUTE", v))
    case MaxActivities => SetRoute(st, "maxActivities", Named("", v))
    case _ => Ok(st)
  }

  /** The key an operation's detail is kept under; "" for none. */
  function DetailKey(code: Code, s: string): string {
    match code
    case QName => "queue"
    case ResolvedQName => if s != "" then "resolvedQueue" else ""
    case QMgrName => STR_QMGR
    case ChannelName => "channelName"
    case RemoteQMgrName => "remoteQueueManager"
    case RemoteQName => "remoteQueue"
    case XmitQName => "transmissionQueue"
    case TopicString => if s != "" then "topicString" else ""
    case _ => ""
  }

  /** Date and time come as two parameters; the second to arrive sets the stamp. */
  function UseStamp(st: PState): Run
    requires st.Valid()
  {
    if st.opOpen && st.operationDate != "" && st.operationTime != "" then
      if |st.operationDate| < 8 || |st.operationTime| < 8 then Panic
      else
        var op := CurrentOp(st);
        var stamp := Stamp(st.operationDate, st.operationTime);
        Ok(PutOp(st.(operationDate := "", operationTime := ""), op.(stamp := Some(stamp))))
    else Ok(st)
  }

  function StrStep(st: PState, code: Code, s: string): Run
    requires st.Valid()
  {
    match code
    case OperationTime => UseStamp(st.(operationTime := s))
    case OperationDate => UseStamp(st.(operationDate := s))
    case ApplName =>
      if st.act.None? then Panic else Ok(st.(act := Some(st.act.value.(applName := s))))
    case ActivityDesc =>
      if st.act.None? then Panic else Ok(st.(act := Some(st.act.value.(description := s))))
    case _ => if st.opOpen && DetailKey(code, s) != "" then SetDetail(st, DetailKey(code, s), Text(s)) else Ok(st)
  }

  function Step(st: PState, n: Node): (r: Run)
    requires st.Valid()
    ensures r.Ok? ==> r.st.Valid()
  {
    match Enter(st, n.code)
    case Panic => Panic
    case Ok(s) =>
      match n
      case IntNode(code, v) => IntStep(s, code, v)
      case StrNode(code, t) => StrStep(s, code, t)
      case BareNode(_) => Ok(s)
  }

  /** One step for each parameter, in order. */
  function Fold(st: PState, nodes: seq<Node>): (r: Run)
    requires st.Valid()
    ensures r.Ok? ==> r.st.Valid()
    decreases |nodes|
  {
    if nodes == [] then Ok(st)
    else
      match Step(st, nodes[0])
      case Panic => Panic
      case Ok(s) => Fold(s, nodes[1..])
  }

  lemma FoldOne(st: PState, n: Node)
    requires st.Valid()
    ensures Fold(st, [n]) == Step(st, n)
  {
    assert [n][1..] == [];
  }

  /** What is left to do for a parameter once it is entered. */
  function Inside(st: PState, p: Param): (r: Run)
    requires st.Valid()
    ensures r.Ok? ==> r.st.Valid()
  {
    match p
    case IntParam(code, v) => IntStep(st, code, v)
    case StrParam(code, s) => StrStep(st, code, s)
    case OtherParam(_) => Ok(st)
    case GroupParam(code, children) => if Pruned(code) then Ok(st) else Fold(st, FlattenAll(children))
  }

  lemma FoldParam(st: PState, p: Param)
    requires st.Valid()
    ensures Fold(st, Flatten(p)) == match Enter(st, p.code) case Panic => Panic case Ok(s) => Inside(s, p)
  {
    var nodes := Flatten(p);
    assert nodes[1..] == if p.GroupParam? && !Pruned(p.code) then FlattenAll(p.children) else [];
  }

  function Continue(r: Run, nodes: seq<Node>): (r': Run)
    requires r.Ok? ==> r.st.Valid()
    ensures r'.Ok? ==> r'.st.Valid()
  {
    match r
    case Panic => Panic
    case Ok(s) => Fold(s, nodes)
  }

  lemma {:induction false} FoldConcat(st: PState, a: seq<Node>, b: seq<Node>)
    requires st.Valid()
    ensures Fold(st, a + b) == Continue(Fold(st, a), b)
    decreases |a|
  {
    if a == [] {
      assert a + b == b;
    } else {
      assert (a + b)[0] == a[0] && (a + b)[1..] == a[1..] + b;
      var r := Step(st, a[0]);
      if r.Ok? {
        FoldConcat(r.st, a[1..], b);
      }
    }
  }
}
