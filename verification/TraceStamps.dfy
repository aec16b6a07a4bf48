/** Date and time of an operation arrive as two separate parameters, in either order, and meet in
    two variables of the parser. What becomes of them is told by the fields alone. */
module TraceStamps {
  import opened Options
  import opened TraceModel
  import opened TraceReports
  import opened StampMatching

  predicate IsDate(n: Node) { n.StrNode? && n.code == OperationDate }

  predicate IsTime(n: Node) { n.StrNode? && n.code == OperationTime }

  /** Starts neither an activity nor an operation. */
  predicate Inner(n: Node) {
    n.code != ActivityGroup && n.code != OperationGroup
  }

  ghost predicate AllInner(nodes: seq<Node>) {
    forall i :: 0 <= i < |nodes| ==> Inner(nodes[i])
  }

  /** Nor is it a date or a time. */
  predicate Plain(n: Node) {
    Inner(n) && !IsDate(n) && !IsTime(n)
  }

  ghost predicate AllPlain(nodes: seq<Node>) {
    forall i :: 0 <= i < |nodes| ==> Plain(nodes[i])
  }

  function FieldOf(n: Node): seq<Field> {
    if IsDate(n) then [Date(n.text)] else if IsTime(n) then [Time(n.text)] else []
  }

  /** The dates and times among some parameters, in order. */
  function FieldsOf(nodes: seq<Node>): seq<Field>
    decreases |nodes|
  {
    if nodes == [] then [] else FieldOf(nodes[0]) + FieldsOf(nodes[1..])
  }

  function PendingOf(st: PState): Pending {
    Pending(st.operationDate, st.operationTime)
  }

  /** How far the parser is with the operation that started at `ops`: the earlier operations and
      their stamps are as they were, and the stamp of the open one is `s`. */
  ghost predicate Within(st: PState, ops: seq<OpVal>, s: Option<Stamp>) {
    && st.act.Some? && st.opOpen
    && |st.act.value.operations| == |ops| + 1
    && st.act.value.operations[..|ops|] == ops
    && st.act.value.operations[|ops|].stamp == s
  }

  lemma PlainInt(st: PState, code: Code, v: int, ops: seq<OpVal>, s: Option<Stamp>)
    requires st.Valid() && Within(st, ops, s)
    ensures var r := IntStep(st, code, v);
      r.Ok? ==> Within(r.st, ops, s) && r.st.operationDate == st.operationDate && r.st.operationTime == st.operationTime
  {
  }

  lemma PlainStr(st: PState, code: Code, v: string, ops: seq<OpVal>, s: Option<Stamp>)
    requires st.Valid() && Within(st, ops, s) && code != OperationDate && code != OperationTime
    ensures var r := StrStep(st, code, v);
      r.Ok? ==> Within(r.st, ops, s) && r.st.operationDate == st.operationDate && r.st.operationTime == st.operationTime
  {
  }

  lemma PlainStep(st: PState, n: Node, ops: seq<OpVal>, s: Option<Stamp>)
    requires st.Valid() && Within(st, ops, s) && Plain(n)
    ensures var r := Step(st, n);
      r.Ok? ==> Within(r.st, ops, s) && r.st.operationDate == st.operationDate && r.st.operationTime == st.operationTime
  {
    assert Enter(st, n.code) == Ok(st);
    match n
    case IntNode(code, v) => PlainInt(st, code, v, ops, s);
    case StrNode(code, v) => PlainStr(st, code, v, ops, s);
    case BareNode(_) =>
  }

  /** A date or time goes where the matching says. */
  lemma FieldStep(st: PState, n: Node, ops: seq<OpVal>, s: Option<Stamp>)
    requires st.Valid() && Within(st, ops, s) && (IsDate(n) || IsTime(n))
    ensures var r := Step(st, n);
      var (q, u) := TakeField(PendingOf(st), s, FieldOf(n)[0]);
      r.Ok? ==> Within(r.st, ops, u) && PendingOf(r.st) == q
  {
  }

  lemma InnerStep(st: PState, n: Node, rest: seq<Field>, ops: seq<OpVal>, s: Option<Stamp>)
    requires st.Valid() && Within(st, ops, s) && Inner(n)
    ensures var r := Step(st, n);
      r.Ok? ==> exists u :: Within(r.st, ops, u) && Take(PendingOf(st), s, FieldOf(n) + rest) == Take(PendingOf(r.st), u, rest)
  {
    var r := Step(st, n);
    if r.Ok? {
      if Plain(n) {
        PlainStep(st, n, ops, s);
        assert FieldOf(n) + rest == rest;
        assert Within(r.st, ops, s);
      } else {
        FieldStep(st, n, ops, s);
        var (q, u) := TakeField(PendingOf(st), s, FieldOf(n)[0]);
        assert (FieldOf(n) + rest)[1..] == rest;
        assert Within(r.st, ops, u);
      }
    }
  }

  /** An operation's parameters leave behind what the matching of their fields says. */
  lemma {:induction false} OperationBody(st: PState, body: seq<Node>, ops: seq<OpVal>, s: Option<Stamp>)
    requires st.Valid() && Within(st, ops, s) && AllInner(body)
    ensures var r := Fold(st, body);
      var (q, u) := Take(PendingOf(st), s, FieldsOf(body));
      r.Ok? ==> Within(r.st, ops, u) && PendingOf(r.st) == q
    decreases |body|
  {
    if body != [] {
      InnerStep(st, body[0], FieldsOf(body[1..]), ops, s);
      var r := Step(st, body[0]);
      if r.Ok? {
        var u :| Within(r.st, ops, u)
          && Take(PendingOf(st), s, FieldOf(body[0]) + FieldsOf(body[1..])) == Take(PendingOf(r.st), u, FieldsOf(body[1..]));
        OperationBody(r.st, body[1..], ops, u);
      }
    }
  }

  // --- a whole activity group

  /** An operation group that holds no other, with these dates and times in it. */
  ghost predicate OperationWith(p: Param, fields: seq<Field>) {
    p.GroupParam? && p.code == OperationGroup && AllInner(FlattenAll(p.children)) && FieldsOf(FlattenAll(p.children)) == fields
  }

  /** The contents of an activity group: operations with these fields, among plain parameters. */
  ghost predicate Itinerary(children: seq<Param>, ops: seq<seq<Field>>) {
    if children == [] then ops == []
    else
      var n := |children| - 1;
      || (AllPlain(Flatten(children[n])) && Itinerary(children[..n], ops))
      || (ops != [] && OperationWith(children[n], ops[|ops| - 1]) && Itinerary(children[..n], ops[..|ops| - 1]))
  }

  /** The activity's operations bear the stamps that the matching gives, and the rest waits. */
  ghost predicate Bears(st: PState, ops: seq<seq<Field>>) {
    && st.act.Some? && PendingOf(st) == Waiting(ops)
    && |st.act.value.operations| == |ops|
    && forall k :: 0 <= k < |ops| ==> st.act.value.operations[k].stamp == Stamps(ops)[k]
  }

  lemma NoFields(nodes: seq<Node>)
    requires AllPlain(nodes)
    ensures AllInner(nodes) && FieldsOf(nodes) == []
    decreases |nodes|
  {
    if nodes != [] {
      NoFields(nodes[1..]);
      assert nodes == [nodes[0]] + nodes[1..];
    }
  }

  lemma PlainKeeps(st: PState, nodes: seq<Node>, ops: seq<seq<Field>>)
    requires st.Valid() && Bears(st, ops) && AllPlain(nodes)
    ensures var r := Fold(st, nodes); r.Ok? ==> Bears(r.st, ops)
  {
    if st.opOpen {
      var was := st.act.value.operations;
      var n := |was| - 1;
      NoFields(nodes);
      OperationBody(st, nodes, was[..n], was[n].stamp);
      if Fold(st, nodes).Ok? {
        var after := Fold(st, nodes).st.act.value.operations;
        assert forall k :: 0 <= k < n ==> after[k] == after[..n][k] == was[..n][k];
      }
    } else {
      PlainWithoutOperation(st, nodes);
    }
  }

  lemma {:induction false} PlainWithoutOperation(st: PState, nodes: seq<Node>)
    requires st.Valid() && !st.opOpen && st.act.Some? && AllPlain(nodes)
    ensures var r := Fold(st, nodes);
      r.Ok? ==>
        && !r.st.opOpen && r.st.act.Some? && r.st.act.value.operations == st.act.value.operations
        && r.st.operationDate == st.operationDate && r.st.operationTime == st.operationTime
    decreases |nodes|
  {
    if nodes != [] {
      assert Enter(st, nodes[0].code) == Ok(st);
      if Step(st, nodes[0]).Ok? {
        PlainWithoutOperation(Step(st, nodes[0]).st, nodes[1..]);
      }
    }
  }

  lemma OperationAdds(st: PState, p: Param, ops: seq<seq<Field>>, fields: seq<Field>)
    requires st.Valid() && Bears(st, ops) && OperationWith(p, fields)
    ensures var r := Fold(st, Flatten(p)); r.Ok? ==> Bears(r.st, ops + [fields])
  {
    var was := st.act.value.operations;
    var body := FlattenAll(p.children);
    FoldConcat(st, [BareNode(OperationGroup)], body);
    FoldOne(st, BareNode(OperationGroup));
    var s1 := Step(st, BareNode(OperationGroup)).st;
    assert Within(s1, was, None);
    OperationBody(s1, body, was, None);
    if Fold(s1, body).Ok? {
      WithinBears(Fold(s1, body).st, was, ops, fields);
    }
  }

  lemma WithinBears(st: PState, was: seq<OpVal>, ops: seq<seq<Field>>, fields: seq<Field>)
    requires var (q, u) := Take(Waiting(ops), None, fields); Within(st, was, u) && PendingOf(st) == q
    requires |was| == |ops| && forall k :: 0 <= k < |ops| ==> was[k].stamp == Stamps(ops)[k]
    ensures Bears(st, ops + [fields])
  {
    var after := st.act.value.operations;
    StampsMore(ops, fields);
    forall k | 0 <= k < |ops|
      ensures after[k].stamp == Stamps(ops + [fields])[k]
    {
      assert after[k] == after[..|was|][k] == was[k];
      assert Stamps(ops + [fields])[k] == Stamps(ops)[k];
    }
  }

  lemma {:induction false} ItineraryStamps(st: PState, children: seq<Param>, ops: seq<seq<Field>>)
    requires st.Valid() && Bears(st, []) && Itinerary(children, ops)
    ensures var r := Fold(st, FlattenAll(children)); r.Ok? ==> Bears(r.st, ops)
    decreases |children|
  {
    if children != [] {
      var n := |children| - 1;
      FoldConcat(st, FlattenAll(children[..n]), Flatten(children[n]));
      if AllPlain(Flatten(children[n])) && Itinerary(children[..n], ops) {
        ItineraryStamps(st, children[..n], ops);
        if Fold(st, FlattenAll(children[..n])).Ok? {
          PlainKeeps(Fold(st, FlattenAll(children[..n])).st, Flatten(children[n]), ops);
        }
      } else {
        var m := |ops| - 1;
        ItineraryStamps(st, children[..n], ops[..m]);
        assert ops == ops[..m] + [ops[m]];
        if Fold(st, FlattenAll(children[..n])).Ok? {
          OperationAdds(Fold(st, FlattenAll(children[..n])).st, children[n], ops[..m], ops[m]);
        }
      }
    }
  }

  /** Whatever dates and times an activity's operations hold, in whatever order and number, each
      operation's stamp and what is left over are what the matching of the fields alone says. */
  lemma ActivityStamps(st: PState, children: seq<Param>, ops: seq<seq<Field>>)
    requires st.Valid() && PendingOf(st) == NOTHING && Itinerary(children, ops)
    ensures var r := Fold(st, Flatten(GroupParam(ActivityGroup, children))); r.Ok? ==> Bears(r.st, ops)
  {
    FoldConcat(st, [BareNode(ActivityGroup)], FlattenAll(children));
    FoldOne(st, BareNode(ActivityGroup));
    ItineraryStamps(Step(st, BareNode(ActivityGroup)).st, children, ops);
  }

  /** Every operation that has both fields bears a stamp of these two, and no other bears any. */
  ghost predicate BearsOwn(st: PState, ops: seq<seq<Field>>) {
    && st.act.Some? && |st.act.value.operations| == |ops|
    && forall k :: 0 <= k < |ops| ==> st.act.value.operations[k].stamp == Own(ops[k])
  }

  /** In an activity whose operations have at most one date and one time each, all different, every
      stamp is its operation's own exactly if there are no two operations such that the earlier has
      a single field, the later begins with one of the other kind, and between them is at most a
      single field of the earlier's kind in each. */
  lemma StampsAreOwnIff(st: PState, children: seq<Param>, ops: seq<seq<Field>>)
    requires st.Valid() && PendingOf(st) == NOTHING && Itinerary(children, ops) && AllLean(ops) && TextsDiffer(ops)
    ensures var r := Fold(st, Flatten(GroupParam(ActivityGroup, children)));
      r.Ok? ==> (BearsOwn(r.st, ops) <==> !SomeLend(ops))
  {
    ActivityStamps(st, children, ops);
    AllOwnIff(ops);
    var r := Fold(st, Flatten(GroupParam(ActivityGroup, children)));
    if r.Ok? {
      assert BearsOwn(r.st, ops) <==> AllOwn(ops);
    }
  }

  /** In particular if each has one date and one time, in either order; and then none is left over. */
  lemma StampsAreOwn(st: PState, children: seq<Param>, ops: seq<seq<Field>>)
    requires st.Valid() && PendingOf(st) == NOTHING && Itinerary(children, ops)
    requires AllLean(ops) && forall k :: 0 <= k < |ops| ==> |ops[k]| == 2
    ensures var r := Fold(st, Flatten(GroupParam(ActivityGroup, children)));
      r.Ok? ==> BearsOwn(r.st, ops) && PendingOf(r.st) == NOTHING
  {
    ActivityStamps(st, children, ops);
    assert forall i, j :: !Lends(ops, i, j);
    var o := NoLendAllOwn(ops);
  }

  // --- a report in which a date is lent

  const DATE_ONLY := GroupParam(OperationGroup, [StrParam(OperationDate, "20240101")])
  const TIME_FIRST := GroupParam(OperationGroup, [StrParam(OperationTime, "10203040"), StrParam(OperationDate, "20250202")])

  /** The first of two operations has only a date, the second begins with its time. */
  const LENDING_REPORT := Message(EmbeddedPcf, [GroupParam(ActivityGroup,
    [IntParam(Recorded, 1), IntParam(Unrecorded, 0), DATE_ONLY, TIME_FIRST])])

  lemma FlattenOne(p: Param)
    ensures FlattenAll([p]) == Flatten(p)
  {
    assert [p][..0] == [];
  }

  lemma LendingNodes()
    ensures Flatten(DATE_ONLY) == [BareNode(OperationGroup), StrNode(OperationDate, "20240101")]
    ensures Flatten(TIME_FIRST) ==
      [BareNode(OperationGroup), StrNode(OperationTime, "10203040"), StrNode(OperationDate, "20250202")]
    ensures Flatten(LENDING_REPORT.parms[0]) ==
      [BareNode(ActivityGroup)] + [IntNode(Recorded, 1), IntNode(Unrecorded, 0)] + Flatten(DATE_ONLY) + Flatten(TIME_FIRST)
  {
    FlattenOne(StrParam(OperationDate, "20240101"));
    FlattenOne(StrParam(OperationTime, "10203040"));
    FlattenMore([StrParam(OperationTime, "10203040")], StrParam(OperationDate, "20250202"));
    var p := [IntParam(Recorded, 1)];
    var q := p + [IntParam(Unrecorded, 0)];
    FlattenOne(p[0]);
    FlattenMore(p, IntParam(Unrecorded, 0));
    FlattenMore(q, DATE_ONLY);
    FlattenMore(q + [DATE_ONLY], TIME_FIRST);
    assert LENDING_REPORT.parms[0].children == q + [DATE_ONLY] + [TIME_FIRST];
    assert FlattenAll(q) == [IntNode(Recorded, 1), IntNode(Unrecorded, 0)];
    assert [BareNode(ActivityGroup)] + (FlattenAll(q) + Flatten(DATE_ONLY) + Flatten(TIME_FIRST))
      == [BareNode(ActivityGroup)] + FlattenAll(q) + Flatten(DATE_ONLY) + Flatten(TIME_FIRST);
  }

  lemma FoldTwo(st: PState, a: Node, b: Node)
    requires st.Valid() && Step(st, a).Ok?
    ensures Fold(st, [a, b]) == Step(Step(st, a).st, b)
  {
    assert [a, b][1..] == [b];
    FoldOne(Step(st, a).st, b);
  }

  /** Otherwise a date does travel: in this proper report, the second operation's time is stamped
      with the first operation's date, although it has one of its own. */
  lemma DateMayBeBorrowed()
    ensures ProperReport(LENDING_REPORT)
    ensures var ops := ActivityOf(LENDING_REPORT).operations;
      |ops| == 2 && ops[0].stamp == None && ops[1].stamp == Some(Stamp("20240101", "10203040"))
  {
    LendingNodes();
    var a := [BareNode(ActivityGroup)];
    var b := [IntNode(Recorded, 1), IntNode(Unrecorded, 0)];
    var c, d := Flatten(DATE_ONLY), Flatten(TIME_FIRST);
    FoldConcat(BLANK, a + b + c, d);
    FoldConcat(BLANK, a + b, c);
    LendingStart(a, b);
    DateThenTime(Fold(BLANK, a + b).st);
  }

  lemma LendingStart(a: seq<Node>, b: seq<Node>)
    requires a == [BareNode(ActivityGroup)] && b == [IntNode(Recorded, 1), IntNode(Unrecorded, 0)]
    ensures var r := Fold(BLANK, a + b);
      && r.Ok? && r.st.act.Some? && r.st.act.value.operations == [] && PendingOf(r.st) == NOTHING
      && r.st.recorded == 1 && r.st.unrecorded == 0
  {
    FoldConcat(BLANK, a, b);
    FoldOne(BLANK, a[0]);
    FoldTwo(Step(BLANK, a[0]).st, b[0], b[1]);
  }

  lemma DateThenTime(st: PState)
    requires st.Valid() && st.act.Some? && st.act.value.operations == [] && PendingOf(st) == NOTHING
    ensures Fold(st, Flatten(DATE_ONLY)).Ok?
    ensures var r := Fold(Fold(st, Flatten(DATE_ONLY)).st, Flatten(TIME_FIRST));
      && r.Ok? && r.st.act.Some? && r.st.recorded == st.recorded && r.st.unrecorded == st.unrecorded
      && |r.st.act.value.operations| == 2 && r.st.act.value.operations[0].stamp == None
      && r.st.act.value.operations[1].stamp == Some(Stamp("20240101", "10203040"))
  {
    LendingNodes();
    var c, d := Flatten(DATE_ONLY), Flatten(TIME_FIRST);
    FoldTwo(st, c[0], c[1]);
    var s := Fold(st, c).st;
    assert d == [d[0], d[1]] + [d[2]];
    FoldConcat(s, [d[0], d[1]], [d[2]]);
    FoldTwo(s, d[0], d[1]);
    FoldOne(Fold(s, [d[0], d[1]]).st, d[2]);
  }
}
