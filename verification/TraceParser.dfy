/** The route tracer's parser, working on shared Activity and Operation objects, and its proof
    against the one-parameter-at-a-time reading of the tree. */
module TraceParser {
  import opened Options
  import opened TraceModel

  class Operation {
    var operationVal: int
    var stamp: Option<Stamp>
    var details: map<string, Detail>

    constructor ()
      ensures View() == NEW_OPERATION
    {
      operationVal, stamp, details := 0, None, map[];
    }

    function View(): OpVal
      reads this
    {
      OpVal(operationVal, stamp, details)
    }
  }

  class Activity {
    var applName: string
    var applType: Option<int>
    var description: string
    var operations: seq<Operation>
    var traceRoute: map<string, Detail>

    constructor ()
      ensures View() == NEW_ACTIVITY && operations == []
    {
      applName, applType, description, operations, traceRoute := "", None, "", [], map[];
      new;
      assert OpViews(operations) == [];
    }

    ghost predicate Valid()
      reads this
    {
      forall i, j :: 0 <= i < j < |operations| ==> operations[i] != operations[j]
    }

    function View(): ActVal
      reads this, operations
    {
      ActVal(applName, applType, description, OpViews(operations), traceRoute)
    }
  }

  function OpViews(ops: seq<Operation>): (r: seq<OpVal>)
    reads ops
    ensures |r| == |ops|
    ensures forall i :: 0 <= i < |ops| ==> r[i] == ops[i].View()
  {
    seq(|ops|, i requires 0 <= i < |ops| reads ops => ops[i].View())
  }

  lemma {:induction false} FoldPanics(st: PState, ps: seq<Param>, n: nat)
    requires st.Valid() && n <= |ps|
    requires Fold(st, FlattenAll(ps[..n])) == Panic
    ensures Fold(st, FlattenAll(ps)) == Panic
    decreases |ps| - n
  {
    if n < |ps| {
      assert ps[..n + 1][..n] == ps[..n];
      FoldConcat(st, FlattenAll(ps[..n]), Flatten(ps[n]));
      FoldPanics(st, ps, n + 1);
    } else {
      assert ps[..n] == ps;
    }
  }

  lemma ChildStep(start: PState, children: seq<Param>, i: nat, s: PState)
    requires start.Valid() && s.Valid() && i < |children|
    requires Fold(start, FlattenAll(children[..i])) == Ok(s)
    ensures Fold(start, FlattenAll(children[..i + 1])) == Fold(s, Flatten(children[i]))
  {
    assert children[..i + 1][..i] == children[..i];
    FoldConcat(start, FlattenAll(children[..i]), Flatten(children[i]));
  }

  class Parser {
    var act: Activity?
    var op: Operation?
    var recorded: int
    var unrecorded: int
    var operationDate: string
    var operationTime: string
    var seenDiscard: bool

    /** The objects the next parameter may write to. */
    ghost function Footprint(): set<object>
      reads this, act
    {
      if act == null then {} else {act} + (set o: object | o in act.operations)
    }

    ghost predicate Valid()
      reads this, act
    {
      && (act != null ==> act.Valid())
      && (op != null ==> act != null && act.operations != [] && op == act.operations[|act.operations| - 1])
    }

    function View(): PState
      reads this, act, if act == null then [] else act.operations
    {
      PState(if act == null then None else Some(act.View()), op != null,
             recorded, unrecorded, operationDate, operationTime, seenDiscard)
    }

    constructor ()
      ensures Valid() && Footprint() == {}
      ensures View() == PState(None, false, 0, 0, "", "", false)
    {
      act, op := null, null;
      recorded, unrecorded := 0, 0;
      operationDate, operationTime, seenDiscard := "", "", false;
    }

    method ForgetTimes()
      requires Valid()
      modifies this
      ensures Valid() && act == old(act) && op == old(op) && Footprint() == old(Footprint())
      ensures View() == old(View()).(operationDate := "", operationTime := "")
    {
      operationDate, operationTime := "", "";
    }

    method ForgetCounts()
      requires Valid()
      modifies this
      ensures Valid() && act == old(act) && Footprint() == old(Footprint())
      ensures View() == old(View()).(recorded := -1, unrecorded := -1)
    {
      recorded := -1;
      unrecorded := -1;
    }

    method Enter(code: Code) returns (ok: bool)
      requires Valid()
      modifies this, if code == ActivityGroup then {} else Footprint()
      ensures Valid() && View().Valid() && fresh(Footprint() - old(Footprint()))
      ensures code == ActivityGroup ==> fresh(Footprint())
      ensures TraceModel.Enter(old(View()), code) == if ok then Ok(View()) else Panic
    {
      ok := true;
      if code == ActivityGroup {
        act := new Activity();
        op := null;
        recorded := -1;
        unrecorded := -1;
      } else if code == OperationGroup {
        ok := OpenOperation();
      }
    }

    method OpenOperation() returns (ok: bool)
      requires Valid()
      modifies this, Footprint()
      ensures Valid() && View().Valid() && fresh(Footprint() - old(Footprint()))
      ensures TraceModel.Enter(old(View()), OperationGroup) == if ok then Ok(View()) else Panic
    {
      if act == null {
        return false;
      }
      op := new Operation();
      act.operations := act.operations + [op];
      assert act.View().operations == old(act.View().operations) + [NEW_OPERATION];
      ok := true;
    }

    /** Writing to the current operation changes only the last entry of the activity's list. */
    method WriteOp(f: OpVal)
      requires Valid() && op != null
      modifies op
      ensures Valid() && View().Valid() && Footprint() == old(Footprint())
      ensures View() == PutOp(old(View()), f)
    {
      op.operationVal, op.stamp, op.details := f.operationVal, f.stamp, f.details;
      assert act.View().operations == old(act.View().operations)[|act.operations| - 1 := f];
    }

    method SetDetail(key: string, d: Detail) returns (ok: bool)
      requires Valid()
      modifies Footprint()
      ensures Valid() && View().Valid() && Footprint() == old(Footprint())
      ensures TraceModel.SetDetail(old(View()), key, d) == if ok then Ok(View()) else Panic
    {
      if op == null {
        return false;
      }
      var v := op.View();
      WriteOp(v.(details := v.details[key := d]));
      ok := true;
    }

    method SetRoute(key: string, d: Detail) returns (ok: bool)
      requires Valid()
      modifies Footprint()
      ensures Valid() && View().Valid() && Footprint() == old(Footprint())
      ensures TraceModel.SetRoute(old(View()), key, d) == if ok then Ok(View()) else Panic
    {
      if act == null {
        return false;
      }
      act.traceRoute := act.traceRoute[key := d];
      assert act.View().operations == old(act.View().operations);
      ok := true;
    }

    method NoteDiscard(v: int)
      requires Valid()
      modifies this`seenDiscard
      ensures Valid() && View().Valid() && Footprint() == old(Footprint())
      ensures View() == old(View()).(seenDiscard := old(seenDiscard) || v == OPER_DISCARD)
    {
      if v == OPER_DISCARD {
        seenDiscard := true;
      }
    }

    method SetOperationType(v: int) returns (ok: bool)
      requires Valid()
      modifies this`seenDiscard, Footprint()
      ensures Valid() && View().Valid() && Footprint() == old(Footprint())
      ensures IntStep(old(View()), OperationType, v) == if ok then Ok(View()) else Panic
    {
      if op == null {
        return false;
      }
      var o := op.View();
      NoteDiscard(v);
      WriteOp(o.(operationVal := v));
      ok := true;
    }

    method SetApplType(v: int) returns (ok: bool)
      requires Valid()
      modifies Footprint()
      ensures Valid() && View().Valid() && Footprint() == old(Footprint())
      ensures IntStep(old(View()), ApplType, v) == if ok then Ok(View()) else Panic
    {
      if act == null {
        return false;
      }
      act.applType := Some(v);
      assert act.View().operations == old(act.View().operations);
      ok := true;
    }

    method IntElement(code: Code, v: int) returns (ok: bool)
      requires Valid()
      modifies this, Footprint()
      ensures Valid() && View().Valid() && Footprint() == old(Footprint())
      ensures IntStep(old(View()), code, v) == if ok then Ok(View()) else Panic
    {
      ok := true;
      match code
      case Feedback => ok := SetDetail("feedback", Named("MQFB", v));
      case ApplType => ok := SetApplType(v);
      case Recorded =>
        recorded := v;
        ok := SetRoute("recordedActivities", Named("", v));
      case Unrecorded =>
        unrecorded := v;
        ok := SetRoute("unrecordedActivites", Named("", v));
      case Discontinuity => ok := SetRoute("discontinuityCount", Named("", v));
      case OperationType => ok := SetOperationType(v);
      case ChannelType => ok := SetDetail("channelType", Named("CHT", v));
      case RouteOption(attribute) => ok := SetRoute(attribute, Named("MQROUTE", v));
      case MaxActivities => ok := SetRoute("maxActivities", Named("", v));
      case _ =>
    }

    method UseStamp() returns (ok: bool)
      requires Valid()
      modifies this, Footprint()
      ensures Valid() && View().Valid() && Footprint() == old(Footprint())
      ensures TraceModel.UseStamp(old(View())) == if ok then Ok(View()) else Panic
    {
      ok := true;
      if op != null && operationDate != "" && operationTime != "" {
        if |operationDate| < 8 || |operationTime| < 8 {
          return false;
        }
        var o := op.View();
        var stamp := Stamp(operationDate, operationTime);
        operationDate, operationTime := "", "";
        WriteOp(o.(stamp := Some(stamp)));
      }
    }

    method SetText(code: Code, s: string) returns (ok: bool)
      requires Valid() && (code == ApplName || code == ActivityDesc)
      modifies Footprint()
      ensures Valid() && View().Valid() && Footprint() == old(Footprint())
      ensures StrStep(old(View()), code, s) == if ok then Ok(View()) else Panic
    {
      if act == null {
        return false;
      }
      if code == ApplName {
        act.applName := s;
      } else {
        act.description := s;
      }
      assert act.View().operations == old(act.View().operations);
      ok := true;
    }

    method TextElement(code: Code, s: string) returns (ok: bool)
      requires code != OperationTime && code != OperationDate
      requires Valid()
      modifies Footprint()
      ensures Valid() && View().Valid() && Footprint() == old(Footprint())
      ensures StrStep(old(View()), code, s) == if ok then Ok(View()) else Panic
    {
      ok := true;
      if code == ApplName || code == ActivityDesc {
        ok := SetText(code, s);
      } else if op != null && DetailKey(code, s) != "" {
        ok := SetDetail(DetailKey(code, s), Text(s));
      }
    }

    method StrElement(code: Code, s: string) returns (ok: bool)
      requires Valid()
      modifies this, Footprint()
      ensures Valid() && View().Valid() && Footprint() == old(Footprint())
      ensures StrStep(old(View()), code, s) == if ok then Ok(View()) else Panic
    {
      if code == OperationTime {
        operationTime := s;
        ok := UseStamp();
      } else if code == OperationDate {
        operationDate := s;
        ok := UseStamp();
      } else {
        ok := TextElement(code, s);
      }
    }

    method ParseChild(ghost p: Param, children: seq<Param>, i: nat, ghost start: PState) returns (ok: bool)
      requires p.GroupParam? && p.children == children && i < |children|
      requires Valid() && View().Valid() && start.Valid() && Fold(start, FlattenAll(children[..i])) == Ok(View())
      modifies this, Footprint()
      ensures Valid() && View().Valid() && fresh(Footprint() - old(Footprint()))
      ensures Fold(start, FlattenAll(children[..i + 1])) == if ok then Ok(View()) else Panic
      decreases p, 0
    {
      ChildStep(start, children, i, View());
      ok := ParseParm(children[i]);
    }

    method ParseChildren(ghost p: Param, children: seq<Param>) returns (ok: bool)
      requires p.GroupParam? && p.children == children
      requires Valid() && View().Valid()
      modifies this, Footprint()
      ensures Valid() && View().Valid() && fresh(Footprint() - old(Footprint()))
      ensures Fold(old(View()), FlattenAll(children)) == if ok then Ok(View()) else Panic
      decreases p, 1
    {
      ok := true;
      ghost var start := View();
      for i := 0 to |children|
        invariant Valid() && View().Valid() && fresh(Footprint() - old(Footprint()))
        invariant Fold(start, FlattenAll(children[..i])) == Ok(View())
      {
        ok := ParseChild(p, children, i, start);
        if !ok {
          FoldPanics(start, children, i + 1);
          return;
        }
      }
      assert children[..|children|] == children;
    }

    /** One parameter and everything nested in it has the same effect as its flat reading, one
        step at a time. A false `ok` stands for the program ending in a panic. */
    method ParseParm(p: Param) returns (ok: bool)
      requires Valid() && View().Valid()
      modifies this, if p.code == ActivityGroup then {} else Footprint()
      ensures Valid() && View().Valid() && fresh(Footprint() - old(Footprint()))
      ensures p.code == ActivityGroup ==> fresh(Footprint())
      ensures Fold(old(View()), Flatten(p)) == if ok then Ok(View()) else Panic
      decreases p, 3
    {
      ghost var before, entered := View(), TraceModel.Enter(View(), p.code);
      ok := Enter(p.code);
      if ok {
        assert entered == Ok(View());
        ok := ParseInside(p);
      }
      FoldParam(before, p);
    }

    method ParseInside(p: Param) returns (ok: bool)
      requires Valid() && View().Valid()
      modifies this, Footprint()
      ensures Valid() && View().Valid() && fresh(Footprint() - old(Footprint()))
      ensures Inside(old(View()), p) == if ok then Ok(View()) else Panic
      decreases p, 2
    {
      ok := true;
      match p
      case IntParam(code, v) =>
        ok := IntElement(code, v);
      case StrParam(code, s) =>
        ok := StrElement(code, s);
      case OtherParam(_) =>
      case GroupParam(code, children) =>
        if !Pruned(code) {
          ok := ParseChildren(p, children);
        }
    }
  }
}
