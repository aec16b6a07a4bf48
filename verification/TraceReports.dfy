/** Whole report messages: what one adds to the tracer's tables, when the receive loop stops,
    and why neither depends on the order in which the reports arrive. */
module TraceReports {
  import opened Options
  import opened TraceModel

  datatype Format = Admin | EmbeddedPcf | OtherFormat

  datatype Message = Message(format: Format, parms: seq<Param>)

  /** Parser variables, activity map (a nil entry is possible), highest index, and whether a report
      has been filed at index 0 and so has taken the place of the first activity. */
  datatype TState = TState(ps: PState, known: map<int, Option<ActVal>>, highest: int, atZero: bool)

  datatype Result = Good(t: TState) | Crash

  function Max(a: int, b: int): int { if a >= b then a else b }

  /** The current activity is filed under an index; index 0 is kept apart, not in the map. */
  function FiledUnder(t: TState, i: int): TState {
    TState(t.ps, if i == 0 then t.known else t.known[i := t.ps.act], Max(t.highest, i), t.atZero || i == 0)
  }

  /** It is filed under the first counter once both are told, and these are then forgotten. */
  function Filing(t: TState): TState {
    if t.ps.recorded != -1 && t.ps.unrecorded != -1 then
      FiledUnder(t, t.ps.recorded).(ps := t.ps.(recorded := -1, unrecorded := -1))
    else t
  }

  /** One top-level parameter: parsed with no date or time pending, then filed if complete. */
  function TopParam(t: TState, p: Param): (r: Result)
    requires t.ps.Valid()
    ensures r.Good? ==> r.t.ps.Valid()
  {
    match Fold(t.ps.(operationDate := "", operationTime := ""), Flatten(p))
    case Panic => Crash
    case Ok(s) => Good(Filing(t.(ps := s)))
  }

  function TopParams(t: TState, ps: seq<Param>): (r: Result)
    requires t.ps.Valid()
    ensures r.Good? ==> r.t.ps.Valid()
  {
    if ps == [] then Good(t)
    else
      match TopParams(t, ps[..|ps| - 1])
      case Crash => Crash
      case Good(s) => TopParam(s, ps[|ps| - 1])
  }

  lemma TopParamsStep(t: TState, ps: seq<Param>, i: nat)
    requires t.ps.Valid() && i < |ps|
    ensures TopParams(t, ps[..i + 1]) ==
      match TopParams(t, ps[..i]) case Crash => Crash case Good(s) => TopParam(s, ps[i])
  {
    assert ps[..i + 1][..i] == ps[..i];
  }

  lemma {:induction false} CrashStays(t: TState, ps: seq<Param>, n: nat)
    requires t.ps.Valid() && n <= |ps| && TopParams(t, ps[..n]) == Crash
    ensures TopParams(t, ps) == Crash
    decreases |ps| - n
  {
    if n < |ps| {
      assert ps[..n + 1][..n] == ps[..n];
      CrashStays(t, ps, n + 1);
    } else {
      assert ps[..n] == ps;
    }
  }

  /** Only embedded-PCF messages are looked into; the others are dropped without an error. */
  function OneMessage(t: TState, m: Message): (r: Result)
    requires t.ps.Valid()
    ensures r.Good? ==> r.t.ps.Valid()
  {
    if m.format == EmbeddedPcf then TopParams(t, m.parms) else Good(t)
  }

  function After(t: TState, msgs: seq<Message>): (r: Result)
    requires t.ps.Valid()
    ensures r.Good? ==> r.t.ps.Valid()
  {
    if msgs == [] then Good(t)
    else
      match After(t, msgs[..|msgs| - 1])
      case Crash => Crash
      case Good(s) => OneMessage(s, msgs[|msgs| - 1])
  }

  /** Messages of any other format might as well not have come. */
  lemma {:induction false} OthersAreDropped(t: TState, before: seq<Message>, m: Message, after: seq<Message>)
    requires t.ps.Valid() && !m.format.EmbeddedPcf?
    ensures After(t, before + [m] + after) == After(t, before + after)
    decreases |after|
  {
    if after == [] {
      assert (before + [m] + after)[..|before|] == before && before + after == before;
    } else {
      var n := |after| - 1;
      OthersAreDropped(t, before, m, after[..n]);
      assert (before + [m] + after)[..|before| + 1 + n] == before + [m] + after[..n];
      assert (before + after)[..|before| + n] == before + after[..n];
    }
  }

  /** An activity told both its counters is filed once: they are never both left for the next
      parameter. One filed at index 0 is noted and changes neither the map nor the highest index. */
  lemma FiledOnce(t: TState, p: Param)
    requires t.ps.Valid() && TopParam(t, p).Good? && t.highest >= 0
    ensures var r := TopParam(t, p).t;
      && (r.ps.recorded == -1 || r.ps.unrecorded == -1)
      && (r.atZero && !t.atZero ==> r.known == t.known && r.highest == t.highest)
      && (t.atZero ==> r.atZero)
  {
  }

  /** The loop's early exit. */
  predicate Enough(t: TState, maxActivities: int) {
    |t.known| >= maxActivities || (t.ps.seenDiscard && |t.known| >= t.highest)
  }

  predicate EnoughAfter(t: TState, msgs: seq<Message>, maxActivities: int)
    requires t.ps.Valid()
  {
    After(t, msgs).Good? && Enough(After(t, msgs).t, maxActivities)
  }

  /** A trace starts with empty tables; the parser's own variables are left from the last one. */
  ghost predicate Started(t: TState) {
    t.ps.Valid() && !t.ps.seenDiscard && t.known == map[] && t.highest == 0 && !t.atZero
  }

  // --- proper reports

  const BLANK := PState(None, false, -1, -1, "", "", false)

  /** A message holding one Activity group: the shape the queue manager sends. */
  predicate IsReport(m: Message) {
    m.format == EmbeddedPcf && |m.parms| == 1 && m.parms[0].code == ActivityGroup
  }

  /** What the report says, read on its own. */
  function Reading(m: Message): Run
    requires IsReport(m)
  {
    Fold(BLANK, Flatten(m.parms[0]))
  }

  /** A readable report with a position of its own in the route. */
  predicate ProperReport(m: Message) {
    && IsReport(m)
    && Reading(m).Ok?
    && Reading(m).st.act.Some?
    && Reading(m).st.recorded >= 1
    && Reading(m).st.unrecorded != -1
  }

  function Index(m: Message): int
    requires ProperReport(m)
  {
    Reading(m).st.recorded
  }

  function ActivityOf(m: Message): ActVal
    requires ProperReport(m)
  {
    Reading(m).st.act.value
  }

  predicate Discards(m: Message)
    requires ProperReport(m)
  {
    Reading(m).st.seenDiscard
  }

  // --- parsing a report does not depend on what came before

  /** `s` with an earlier discard possibly added. */
  function Noting(s: PState, earlier: bool): PState {
    s.(seenDiscard := earlier || s.seenDiscard)
  }

  function NotingRun(r: Run, earlier: bool): Run {
    match r
    case Panic => Panic
    case Ok(s) => Ok(Noting(s, earlier))
  }

  lemma EarlierDiscardInStr(s: PState, code: Code, t: string, earlier: bool)
    requires s.Valid()
    ensures StrStep(Noting(s, earlier), code, t) == NotingRun(StrStep(s, code, t), earlier)
  {
  }

  lemma EarlierDiscardInInt(s: PState, code: Code, v: int, earlier: bool)
    requires s.Valid()
    ensures IntStep(Noting(s, earlier), code, v) == NotingRun(IntStep(s, code, v), earlier)
  {
  }

  lemma EarlierDiscardInStep(s: PState, n: Node, earlier: bool)
    requires s.Valid()
    ensures Step(Noting(s, earlier), n) == NotingRun(Step(s, n), earlier)
  {
    var r := Enter(s, n.code);
    assert Enter(Noting(s, earlier), n.code) == NotingRun(r, earlier);
    if r.Ok? {
      match n
      case IntNode(code, v) => EarlierDiscardInInt(r.st, code, v, earlier);
      case StrNode(code, t) => EarlierDiscardInStr(r.st, code, t, earlier);
      case BareNode(_) =>
    }
  }

  lemma {:induction false} EarlierDiscardInFold(s: PState, nodes: seq<Node>, earlier: bool)
    requires s.Valid()
    ensures Fold(Noting(s, earlier), nodes) == NotingRun(Fold(s, nodes), earlier)
    decreases |nodes|
  {
    if nodes != [] {
      EarlierDiscardInStep(s, nodes[0], earlier);
      if Step(s, nodes[0]).Ok? {
        EarlierDiscardInFold(Step(s, nodes[0]).st, nodes[1..], earlier);
      }
    }
  }

  lemma FirstNode(p: Param)
    ensures Flatten(p) != [] && Flatten(p)[0].code == p.code
  {
  }

  /** Starting an activity wipes everything the parser remembered but a pending date or time,
      and an earlier discard. */
  lemma ActivityStartsAfresh(s: PState, nodes: seq<Node>)
    requires s.Valid() && s.operationDate == "" && s.operationTime == ""
    requires nodes != [] && nodes[0].code == ActivityGroup
    ensures Fold(s, nodes) == NotingRun(Fold(BLANK, nodes), s.seenDiscard)
  {
    assert Enter(s, ActivityGroup) == NotingRun(Enter(BLANK, ActivityGroup), s.seenDiscard);
    assert Step(s, nodes[0]) == Step(Noting(BLANK, s.seenDiscard), nodes[0]);
    assert Fold(s, nodes) == Fold(Noting(BLANK, s.seenDiscard), nodes);
    EarlierDiscardInFold(BLANK, nodes, s.seenDiscard);
  }

  /** A proper report files its own activity under its own index, whatever the state. */
  lemma ReportEffect(t: TState, m: Message)
    requires t.ps.Valid() && ProperReport(m)
    ensures var r := OneMessage(t, m);
      && r.Good?
      && r.t.known == t.known[Index(m) := Some(ActivityOf(m))]
      && r.t.highest == Max(t.highest, Index(m)) && r.t.atZero == t.atZero
      && r.t.ps.seenDiscard == (t.ps.seenDiscard || Discards(m))
  {
    var p := m.parms[0];
    FirstNode(p);
    ActivityStartsAfresh(t.ps.(operationDate := "", operationTime := ""), Flatten(p));
    assert m.parms[..0] == [];
    assert TopParams(t, m.parms[..0]) == Good(t);
    assert TopParams(t, m.parms) == TopParam(t, p);
  }

  // --- any sequence of proper reports with different indices

  ghost predicate DistinctReports(msgs: seq<Message>) {
    && (forall i :: 0 <= i < |msgs| ==> ProperReport(msgs[i]))
    && forall i, j :: 0 <= i < j < |msgs| ==> Index(msgs[i]) != Index(msgs[j])
  }

  /** The tables that a sequence of proper reports leaves behind. */
  ghost function Filed(msgs: seq<Message>): map<int, Option<ActVal>>
    requires forall i :: 0 <= i < |msgs| ==> ProperReport(msgs[i])
  {
    if msgs == [] then map[]
    else
      var n := |msgs| - 1;
      Filed(msgs[..n])[Index(msgs[n]) := Some(ActivityOf(msgs[n]))]
  }

  ghost function Highest(msgs: seq<Message>): int
    requires forall i :: 0 <= i < |msgs| ==> ProperReport(msgs[i])
  {
    if msgs == [] then 0 else Max(Highest(msgs[..|msgs| - 1]), Index(msgs[|msgs| - 1]))
  }

  ghost predicate SomeDiscard(msgs: seq<Message>)
    requires forall i :: 0 <= i < |msgs| ==> ProperReport(msgs[i])
  {
    exists i :: 0 <= i < |msgs| && Discards(msgs[i])
  }

  lemma DiscardStep(msgs: seq<Message>)
    requires msgs != [] && forall i :: 0 <= i < |msgs| ==> ProperReport(msgs[i])
    ensures SomeDiscard(msgs) <==> SomeDiscard(msgs[..|msgs| - 1]) || Discards(msgs[|msgs| - 1])
  {
  }

  lemma AfterOneMore(t: TState, msgs: seq<Message>)
    requires t.ps.Valid() && msgs != [] && After(t, msgs[..|msgs| - 1]).Good?
    ensures After(t, msgs) == OneMessage(After(t, msgs[..|msgs| - 1]).t, msgs[|msgs| - 1])
  {
  }

  lemma {:induction false} AfterReports(t: TState, msgs: seq<Message>)
    requires Started(t)
    requires forall i :: 0 <= i < |msgs| ==> ProperReport(msgs[i])
    ensures After(t, msgs).Good?
    ensures var s := After(t, msgs).t;
      && s.known == Filed(msgs) && s.highest == Highest(msgs) && !s.atZero
      && (s.ps.seenDiscard <==> SomeDiscard(msgs))
  {
    if msgs != [] {
      var n := |msgs| - 1;
      AfterReports(t, msgs[..n]);
      AfterOneMore(t, msgs);
      ReportEffect(After(t, msgs[..n]).t, msgs[n]);
      DiscardStep(msgs);
    }
  }

  ghost predicate Indexed(msgs: seq<Message>, x: int)
    requires forall i :: 0 <= i < |msgs| ==> ProperReport(msgs[i])
  {
    exists i :: 0 <= i < |msgs| && Index(msgs[i]) == x
  }

  lemma IndexedStep(msgs: seq<Message>, x: int)
    requires msgs != [] && forall i :: 0 <= i < |msgs| ==> ProperReport(msgs[i])
    ensures Indexed(msgs, x) <==> Indexed(msgs[..|msgs| - 1], x) || Index(msgs[|msgs| - 1]) == x
  {
    var n := |msgs| - 1;
    if i :| 0 <= i < n && Index(msgs[..n][i]) == x {
      assert Index(msgs[i]) == x;
    }
  }

  lemma {:induction false} FiledKeys(msgs: seq<Message>)
    requires DistinctReports(msgs)
    ensures forall x :: x in Filed(msgs) <==> Indexed(msgs, x)
  {
    if msgs != [] {
      FiledKeys(msgs[..|msgs| - 1]);
      forall x
        ensures x in Filed(msgs) <==> Indexed(msgs, x)
      {
        IndexedStep(msgs, x);
      }
    }
  }

  lemma {:induction false} FiledSize(msgs: seq<Message>)
    requires DistinctReports(msgs)
    ensures |Filed(msgs)| == |msgs|
  {
    if msgs != [] {
      var n := |msgs| - 1;
      FiledSize(msgs[..n]);
      FiledKeys(msgs[..n]);
      assert !Indexed(msgs[..n], Index(msgs[n]));
    }
  }

  lemma {:induction false} FiledValue(msgs: seq<Message>, i: nat)
    requires DistinctReports(msgs) && i < |msgs|
    ensures Index(msgs[i]) in Filed(msgs) && Filed(msgs)[Index(msgs[i])] == Some(ActivityOf(msgs[i]))
  {
    var n := |msgs| - 1;
    if i < n {
      FiledValue(msgs[..n], i);
    }
  }

  lemma FiledEntries(msgs: seq<Message>)
    requires DistinctReports(msgs)
    ensures |Filed(msgs)| == |msgs|
    ensures forall i :: 0 <= i < |msgs| ==>
      Index(msgs[i]) in Filed(msgs) && Filed(msgs)[Index(msgs[i])] == Some(ActivityOf(msgs[i]))
    ensures forall x :: x in Filed(msgs) ==> Indexed(msgs, x)
  {
    FiledKeys(msgs);
    FiledSize(msgs);
    forall i | 0 <= i < |msgs|
      ensures Index(msgs[i]) in Filed(msgs) && Filed(msgs)[Index(msgs[i])] == Some(ActivityOf(msgs[i]))
    {
      FiledValue(msgs, i);
    }
  }

  lemma {:induction false} HighestIsMax(msgs: seq<Message>)
    requires forall i :: 0 <= i < |msgs| ==> ProperReport(msgs[i])
    ensures forall i :: 0 <= i < |msgs| ==> Index(msgs[i]) <= Highest(msgs)
    ensures msgs != [] ==> exists i :: 0 <= i < |msgs| && Index(msgs[i]) == Highest(msgs)
    ensures Highest(msgs) >= 0
  {
    if msgs != [] {
      var n := |msgs| - 1;
      var before := msgs[..n];
      HighestIsMax(before);
      if before != [] {
        var i :| 0 <= i < |before| && Index(before[i]) == Highest(before);
        assert Index(msgs[i]) == Highest(before);
      }
      assert Index(msgs[n]) == Index(msgs[n]);
    }
  }

  // --- the early exit

  function Upto(n: nat): (r: set<int>)
    ensures forall x :: x in r <==> 1 <= x <= n
  {
    if n == 0 then {} else Upto(n - 1) + {n}
  }

  lemma {:induction false} UptoSize(n: nat)
    ensures |Upto(n)| == n
  {
    if n > 0 {
      UptoSize(n - 1);
    }
  }

  /** A set of as many as `n` indices between 1 and `n` is all of them. */
  lemma FullHouse(xs: set<int>, n: nat)
    requires xs <= Upto(n) && |xs| >= n
    ensures xs == Upto(n)
  {
    UptoSize(n);
    if x :| x in Upto(n) && x !in xs {
      SmallerSubset(xs, Upto(n) - {x});
      assert false;
    }
  }

  lemma {:induction false} SmallerSubset<T>(a: set<T>, b: set<T>)
    requires a <= b
    ensures |a| <= |b|
    decreases a
  {
    if a != {} {
      var x :| x in a;
      SmallerSubset(a - {x}, b - {x});
    }
  }

  lemma {:induction false} FiledRange(msgs: seq<Message>)
    requires forall i :: 0 <= i < |msgs| ==> ProperReport(msgs[i])
    ensures Highest(msgs) >= 0
    ensures Filed(msgs).Keys <= Upto(Highest(msgs))
  {
    if msgs != [] {
      FiledRange(msgs[..|msgs| - 1]);
    }
  }

  /** Of any proper reports, repeats included, nothing at or below the highest index seen is missing
      exactly if as many are filed as that index says. So the exit on a discard never leaves a gap,
      and the exit on the limit of activities leaves one exactly if fewer are filed. */
  lemma DiscardExitIsComplete(t: TState, msgs: seq<Message>)
    requires Started(t) && forall i :: 0 <= i < |msgs| ==> ProperReport(msgs[i])
    ensures After(t, msgs).Good? && Highest(msgs) >= 0
    ensures var s := After(t, msgs).t; |s.known| >= s.highest <==> s.known.Keys == Upto(Highest(msgs))
  {
    AfterReports(t, msgs);
    FiledRange(msgs);
    var s := After(t, msgs).t;
    if |s.known| >= s.highest {
      FullHouse(Filed(msgs).Keys, Highest(msgs));
    } else {
      UptoSize(Highest(msgs));
      assert |s.known| == |s.known.Keys|;
    }
  }

  // --- a complete route, in any order of arrival

  /** The first `n` messages to arrive are the reports 1 to `n`, in some order, and only report
      `n` tells of the discard that ends the route. */
  ghost predicate CompleteRoute(arrivals: seq<Message>, n: nat) {
    && 1 <= n <= |arrivals|
    && DistinctReports(arrivals[..n])
    && forall i :: 0 <= i < n ==> Index(arrivals[i]) <= n && (Discards(arrivals[i]) <==> Index(arrivals[i]) == n)
  }

  /** Reports of a route of `n`, not necessarily all of them. */
  ghost predicate RoutePart(part: seq<Message>, n: nat) {
    && DistinctReports(part)
    && forall i :: 0 <= i < |part| ==> Index(part[i]) <= n && (Discards(part[i]) <==> Index(part[i]) == n)
  }

  lemma StartOfRoute(arrivals: seq<Message>, n: nat, k: nat)
    requires CompleteRoute(arrivals, n) && k <= n
    ensures RoutePart(arrivals[..k], n)
  {
    var part := arrivals[..k];
    assert forall i :: 0 <= i < k ==> part[i] == arrivals[..n][i] == arrivals[i];
  }

  lemma PartOfRoute(arrivals: seq<Message>, n: nat, k: nat)
    requires CompleteRoute(arrivals, n) && k <= n
    ensures DistinctReports(arrivals[..k])
    ensures SomeDiscard(arrivals[..k]) <==> n in Filed(arrivals[..k])
    ensures |Filed(arrivals[..k])| == k && 0 <= Highest(arrivals[..k]) <= n
    ensures Filed(arrivals[..k]).Keys <= Upto(n)
  {
    StartOfRoute(arrivals, n, k);
    FiledEntries(arrivals[..k]);
    HighestIsMax(arrivals[..k]);
    DiscardOfPart(arrivals[..k], n);
  }

  lemma DiscardOfPart(part: seq<Message>, n: nat)
    requires RoutePart(part, n)
    ensures SomeDiscard(part) <==> n in Filed(part)
  {
    FiledEntries(part);
    if n in Filed(part) {
      var i :| 0 <= i < |part| && Index(part[i]) == n;
      assert Discards(part[i]);
    }
  }

  /** How many messages of a route are taken: all, or as many as the limit allows, but never none. */
  function Taken(n: nat, maxActivities: int): nat {
    if n <= maxActivities then n else if maxActivities < 1 then 1 else maxActivities
  }

  /** On the way through a route, the exit is taken at the end or at the limit. */
  lemma ExitOnRoute(t: TState, arrivals: seq<Message>, n: nat, maxActivities: int, k: nat)
    requires Started(t) && CompleteRoute(arrivals, n) && 0 < k <= n
    ensures After(t, arrivals[..k]).Good? && After(t, arrivals[..k]).t.known == Filed(arrivals[..k])
    ensures |Filed(arrivals[..k])| == k
    ensures Enough(After(t, arrivals[..k]).t, maxActivities) <==> k == n || k >= maxActivities
    ensures Filed(arrivals[..k]).Keys == Upto(n) <==> k == n
    ensures k == n ==> After(t, arrivals[..k]).t.highest == n
  {
    UptoSize(n);
    SizeOfKeys(Filed(arrivals[..k]));
    PartOfRoute(arrivals, n, k);
    AfterReports(t, arrivals[..k]);
    HighestIsMax(arrivals[..k]);
    if k == n {
      FullHouse(Filed(arrivals[..k]).Keys, n);
      FiledTop(arrivals[..k], n);
    } else if n in Filed(arrivals[..k]) {
      FiledTop(arrivals[..k], n);
    }
  }

  /** The receive loop takes exactly the `n` reports, in whatever order they arrive, or as many of
      them as the limit allows, and at least one; it never stops before and always then. All of 1 to
      `n` are then filed exactly if the limit did not cut the route short. */
  lemma ReadsExactlyTheRoute(t: TState, arrivals: seq<Message>, n: nat, maxActivities: int)
    requires Started(t) && CompleteRoute(arrivals, n)
    ensures 1 <= Taken(n, maxActivities) <= n
    ensures forall k :: 0 < k < Taken(n, maxActivities) ==> !EnoughAfter(t, arrivals[..k], maxActivities)
    ensures EnoughAfter(t, arrivals[..Taken(n, maxActivities)], maxActivities)
    ensures var s := After(t, arrivals[..Taken(n, maxActivities)]).t;
      && (s.known.Keys == Upto(n) <==> Taken(n, maxActivities) == n)
      && (s.known.Keys == Upto(n) ==> s.highest == n)
  {
    var m := Taken(n, maxActivities);
    forall k | 0 < k < m
      ensures !EnoughAfter(t, arrivals[..k], maxActivities)
    {
      ExitOnRoute(t, arrivals, n, maxActivities, k);
    }
    ExitOnRoute(t, arrivals, n, maxActivities, m);
  }

  lemma SizeOfKeys<K, V>(m: map<K, V>)
    ensures |m| == |m.Keys|
  {
  }

  lemma FiledTop(msgs: seq<Message>, x: int)
    requires DistinctReports(msgs) && x in Filed(msgs)
    ensures x <= Highest(msgs)
  {
    FiledEntries(msgs);
    HighestIsMax(msgs);
  }

  /** Two arrival orders of the same reports leave the same activities under the same indices. */
  lemma OrderDoesNotMatter(t: TState, a: seq<Message>, b: seq<Message>)
    requires Started(t) && DistinctReports(a) && multiset(a) == multiset(b)
    ensures After(t, a).Good? && After(t, b).Good?
    ensures After(t, a).t.known == After(t, b).t.known
    ensures After(t, a).t.highest == After(t, b).t.highest
    ensures After(t, a).t.ps.seenDiscard == After(t, b).t.ps.seenDiscard
  {
    PermutedReports(a, b);
    AfterReports(t, a);
    AfterReports(t, b);
    SameTables(a, b);
  }

  lemma SameTables(a: seq<Message>, b: seq<Message>)
    requires DistinctReports(a) && DistinctReports(b) && multiset(a) == multiset(b)
    ensures Filed(a) == Filed(b) && Highest(a) == Highest(b)
    ensures SomeDiscard(a) <==> SomeDiscard(b)
  {
    assert Filed(a) == Filed(b) by {
      SameFiled(a, b);
      SameFiled(b, a);
      SameMaps(Filed(a), Filed(b));
    }
    SameHighest(a, b);
    SameHighest(b, a);
    SameDiscard(a, b);
    SameDiscard(b, a);
  }

  ghost predicate SubMap<K, V>(m: map<K, V>, n: map<K, V>) {
    forall x :: x in m ==> x in n && m[x] == n[x]
  }

  lemma SameMaps<K, V>(m: map<K, V>, n: map<K, V>)
    requires SubMap(m, n) && SubMap(n, m)
    ensures m == n
  {
  }

  lemma Rearranged(a: seq<Message>, b: seq<Message>, i: nat)
    requires multiset(a) == multiset(b) && i < |a|
    ensures exists j :: 0 <= j < |b| && b[j] == a[i]
  {
    assert a[i] in multiset(a);
    assert a[i] in multiset(b);
  }

  lemma PermutedReports(a: seq<Message>, b: seq<Message>)
    requires DistinctReports(a) && multiset(a) == multiset(b)
    ensures DistinctReports(b)
  {
    forall i | 0 <= i < |b|
      ensures ProperReport(b[i])
    {
      Rearranged(b, a, i);
    }
    forall i, j | 0 <= i < j < |b|
      ensures Index(b[i]) != Index(b[j])
    {
      Rearranged(b, a, i);
      Rearranged(b, a, j);
      if Index(b[i]) == Index(b[j]) {
        assert b[i] == b[j];
        Repeated(b, i, j);
        Single(a, b[i]);
        assert false;
      }
    }
  }

  lemma Repeated(b: seq<Message>, i: nat, j: nat)
    requires i < j < |b| && b[i] == b[j]
    ensures multiset(b)[b[i]] >= 2
  {
    assert b == b[..j] + [b[j]] + b[j + 1..];
    assert b[i] in b[..j];
  }

  lemma {:induction false} Single(a: seq<Message>, m: Message)
    requires DistinctReports(a)
    ensures multiset(a)[m] <= 1
  {
    if a != [] {
      var n := |a| - 1;
      Single(a[..n], m);
      assert a == a[..n] + [a[n]];
      assert a[n] !in a[..n];
      assert a[n] !in multiset(a[..n]);
    }
  }

  lemma SameFiled(a: seq<Message>, b: seq<Message>)
    requires DistinctReports(a) && DistinctReports(b) && multiset(a) == multiset(b)
    ensures SubMap(Filed(a), Filed(b))
  {
    FiledEntries(a);
    FiledEntries(b);
    forall x | x in Filed(a)
      ensures x in Filed(b) && Filed(a)[x] == Filed(b)[x]
    {
      var i :| 0 <= i < |a| && Index(a[i]) == x;
      Rearranged(a, b, i);
    }
  }

  lemma SameHighest(a: seq<Message>, b: seq<Message>)
    requires DistinctReports(a) && DistinctReports(b) && multiset(a) == multiset(b)
    ensures Highest(a) <= Highest(b)
  {
    HighestIsMax(a);
    HighestIsMax(b);
    if a != [] {
      var i :| 0 <= i < |a| && Index(a[i]) == Highest(a);
      Rearranged(a, b, i);
    }
  }

  lemma SameDiscard(a: seq<Message>, b: seq<Message>)
    requires DistinctReports(a) && DistinctReports(b) && multiset(a) == multiset(b)
    ensures SomeDiscard(a) ==> SomeDiscard(b)
  {
    if SomeDiscard(a) {
      var i :| 0 <= i < |a| && Discards(a[i]);
      Rearranged(a, b, i);
    }
  }
}
