/** The OpenTelemetry collector. Gauges are stashed while metrics are gathered and replayed by
    callbacks when the reader collects; counters are added to at once and keep what a failed cycle
    has added. */
module OtelMetrics {

  type Tags = map<string, string>

  datatype Gauge = Gauge(value: int, tags: Tags)

  /** One call of addMetric. `refused` says that the library would not create the instrument. */
  datatype Report = Report(series: string, metricName: string, delta: bool, value: int, tags: Tags, refused: bool)

  function Key(r: Report): string {
    "ibmmq." + r.series + "." +
    if r.series == "queue" && "queue_" <= r.metricName then r.metricName[|"queue_"|..] else r.metricName
  }

  /** The instrument of a metric: for queues, names may or may not repeat the series. */
  function Instrument(series: string, name: string): string {
    "ibmmq." + series + "." + name
  }

  /** The report is of this series and metric, which is named without a leading "queue_" for queues. */
  predicate Reports(r: Report, series: string, name: string) {
    r.series == series && (r.metricName == name || (series == "queue" && r.metricName == "queue_" + name))
  }

  /** No series has a dot in its name. */
  ghost predicate Dotless(reports: seq<Report>) {
    forall i :: 0 <= i < |reports| ==> '.' !in reports[i].series
  }

  predicate Plain(series: string, name: string) {
    '.' !in series && !(series == "queue" && "queue_" <= name)
  }

  lemma DotInside(a: string, b: string, c: string, d: string)
    requires a + "." + b == c + "." + d && |a| < |c|
    ensures '.' in c
  {
    assert (a + "." + b)[|a|] == '.' && (c + "." + d)[|a|] == c[|a|];
  }

  lemma DotEndsFirst(a: string, b: string, c: string, d: string)
    requires '.' !in a && '.' !in c && a + "." + b == c + "." + d
    ensures a == c && b == d
  {
    if |a| < |c| {
      DotInside(a, b, c, d);
    } else if |c| < |a| {
      DotInside(c, d, a, b);
    }
    var s := a + "." + b;
    assert s[..|a|] == a && s[..|c|] == c && s[|a| + 1..] == b && s[|c| + 1..] == d;
  }

  /** The name without the repeated series, and how the report's name comes from it. */
  lemma BaseName(r: Report) returns (base: string)
    ensures Key(r) == Instrument(r.series, base)
    ensures if r.series == "queue" && "queue_" <= r.metricName then r.metricName == "queue_" + base else r.metricName == base
  {
    base := r.metricName;
    if r.series == "queue" && "queue_" <= r.metricName {
      base := r.metricName[|"queue_"|..];
      assert r.metricName == "queue_" + base;
    }
  }

  lemma InstrumentTells(series: string, base: string, other: string, name: string)
    requires '.' !in series && '.' !in other
    ensures Instrument(series, base) == Instrument(other, name) <==> series == other && base == name
  {
    if Instrument(series, base) == Instrument(other, name) {
      assert Instrument(series, base)[|"ibmmq."|..] == series + "." + base;
      assert Instrument(other, name)[|"ibmmq."|..] == other + "." + name;
      DotEndsFirst(series, base, other, name);
    }
  }

  lemma QueueFirst(a: string, b: string)
    ensures "queue_" <= "queue_" + a
    ensures "queue_" + a == "queue_" + b <==> a == b
  {
    assert ("queue_" + a)[|"queue_"|..] == a && ("queue_" + b)[|"queue_"|..] == b;
  }

  /** A report falls under an instrument exactly if it is of its series and metric. */
  lemma InstrumentIff(r: Report, series: string, name: string)
    requires '.' !in r.series && Plain(series, name)
    ensures Key(r) == Instrument(series, name) <==> Reports(r, series, name)
  {
    var base := BaseName(r);
    InstrumentTells(r.series, base, series, name);
    QueueFirst(base, name);
  }

  /** Names that differ by one leading "queue_". */
  predicate RepeatsQueue(longer: string, name: string) {
    longer == "queue_" + name && !("queue_" <= name)
  }

  /** Two reports share an instrument exactly if their series are equal and their names are, but for
      one leading "queue_" for queues. */
  lemma SameInstrumentIff(r: Report, q: Report)
    requires '.' !in r.series && '.' !in q.series
    ensures Key(r) == Key(q) <==>
      r.series == q.series && (r.metricName == q.metricName ||
        (r.series == "queue" && (RepeatsQueue(r.metricName, q.metricName) || RepeatsQueue(q.metricName, r.metricName))))
  {
    var a := BaseName(r);
    var b := BaseName(q);
    InstrumentTells(r.series, a, q.series, b);
    QueueFirst(a, b);
    QueueFirst(r.metricName, b);
    QueueFirst(q.metricName, a);
  }

  predicate IsCounter(r: Report, overrideCType: bool) {
    r.delta && !overrideCType
  }

  type Stashes = map<string, seq<Gauge>>

  type Amounts = map<(string, Tags), int>

  function Amount(m: Amounts, k: (string, Tags)): int {
    if k in m then m[k] else 0
  }

  function AddTo(m: Amounts, k: (string, Tags), v: int): Amounts {
    m[k := Amount(m, k) + v]
  }

  // --- the meter: what the library keeps for us

  /** Instruments with their callbacks, and counter amounts not yet collected. */
  class Meter {
    /** How many callbacks have been registered for each gauge. */
    var callbacks: map<string, nat>
    var pending: Amounts

    constructor ()
      ensures callbacks == map[] && pending == map[]
    {
      callbacks, pending := map[], map[];
    }

    method ObservableGauge(key: string)
      modifies this`callbacks
      ensures callbacks == Registered(old(callbacks), key)
    {
      callbacks := callbacks[key := (if key in callbacks then callbacks[key] else 0) + 1];
    }

    method Add(key: string, tags: Tags, v: int)
      modifies this`pending
      ensures pending == AddTo(old(pending), (key, tags), v)
    {
      pending := pending[(key, tags) := (if (key, tags) in pending then pending[(key, tags)] else 0) + v];
    }
  }

  function Registered(callbacks: map<string, nat>, key: string): map<string, nat> {
    callbacks[key := (if key in callbacks then callbacks[key] else 0) + 1]
  }

  // --- the effect of one report

  predicate Accepted(r: Report, known: set<string>) {
    Key(r) in known || !r.refused
  }

  /** Gauges: a missing key is created unless refused; a known one is appended to. */
  function Stash(g: Stashes, r: Report, overrideCType: bool): Stashes {
    if IsCounter(r, overrideCType) || !Accepted(r, g.Keys) then g
    else g[Key(r) := (if Key(r) in g then g[Key(r)] else []) + [Gauge(r.value, r.tags)]]
  }

  function Callbacks(c: map<string, nat>, g: Stashes, r: Report, overrideCType: bool): map<string, nat> {
    if IsCounter(r, overrideCType) || Key(r) in g || r.refused then c else Registered(c, Key(r))
  }

  function Counters(known: set<string>, r: Report, overrideCType: bool): set<string> {
    if IsCounter(r, overrideCType) && !r.refused then known + {Key(r)} else known
  }

  function Pend(p: Amounts, known: set<string>, r: Report, overrideCType: bool): Amounts {
    if IsCounter(r, overrideCType) && Accepted(r, known) then AddTo(p, (Key(r), r.tags), r.value) else p
  }

  /** Everything the collector and its meter hold. */
  datatype OState = OState(gauges: Stashes, counters: set<string>, callbacks: map<string, nat>, pending: Amounts)

  function AfterReport(s: OState, r: Report, overrideCType: bool): OState {
    OState(Stash(s.gauges, r, overrideCType), Counters(s.counters, r, overrideCType),
           Callbacks(s.callbacks, s.gauges, r, overrideCType), Pend(s.pending, s.counters, r, overrideCType))
  }

  function AfterReports(s: OState, reports: seq<Report>, overrideCType: bool): OState {
    if reports == [] then s
    else AfterReport(AfterReports(s, reports[..|reports| - 1], overrideCType), reports[|reports| - 1], overrideCType)
  }

  function Cleared(g: Stashes): Stashes {
    map k | k in g :: []
  }

  function Evicted(g: Stashes): Stashes {
    map k | k in g && g[k] != [] :: g[k]
  }

  /** One pass of GetMetrics: clear every stash, report, evict what stayed empty. */
  function AfterGetMetrics(s: OState, reports: seq<Report>, overrideCType: bool): OState {
    var t := AfterReports(s.(gauges := Cleared(s.gauges)), reports, overrideCType);
    t.(gauges := Evicted(t.gauges))
  }

  class Reader {
    const overrideCType: bool
    const meter: Meter
    var counterMap: set<string>
    var gaugeMap: Stashes

    constructor (overrideCType: bool)
      ensures this.overrideCType == overrideCType && fresh(meter)
      ensures State() == OState(map[], {}, map[], map[])
    {
      this.overrideCType := overrideCType;
      meter := new Meter();
      counterMap, gaugeMap := {}, map[];
    }

    ghost function State(): OState
      reads this, meter
    {
      OState(gaugeMap, counterMap, meter.callbacks, meter.pending)
    }

    method AddMetric(r: Report)
      modifies this, meter
      ensures State() == AfterReport(old(State()), r, overrideCType)
    {
      var metricName := r.metricName;
      if r.series == "queue" && "queue_" <= metricName {
        metricName := metricName[|"queue_"|..];
      }
      var cumul := r.delta;
      if overrideCType {
        cumul := false;
      }
      var counterKey := "ibmmq." + r.series + "." + metricName;
      if cumul {
        if counterKey !in counterMap {
          if r.refused {
            return;
          }
          counterMap := counterMap + {counterKey};
        }
        meter.Add(counterKey, r.tags, r.value);
      } else {
        var guAr := [];
        if counterKey in gaugeMap {
          guAr := gaugeMap[counterKey];
        } else {
          if r.refused {
            return;
          }
          meter.ObservableGauge(counterKey);
        }
        guAr := guAr + [Gauge(r.value, r.tags)];
        gaugeMap := gaugeMap[counterKey := guAr];
      }
    }

    method Clear()
      modifies this`gaugeMap
      ensures gaugeMap == Cleared(old(gaugeMap))
    {
      var todo := gaugeMap.Keys;
      while todo != {}
        invariant todo <= gaugeMap.Keys == old(gaugeMap).Keys
        invariant forall k :: k in gaugeMap ==> gaugeMap[k] == if k in todo then old(gaugeMap)[k] else []
        decreases todo
      {
        var k :| k in todo;
        gaugeMap := gaugeMap[k := []];
        todo := todo - {k};
      }
    }

    method Evict()
      modifies this`gaugeMap
      ensures gaugeMap == Evicted(old(gaugeMap))
    {
      var todo := gaugeMap.Keys;
      while todo != {}
        invariant todo <= gaugeMap.Keys <= old(gaugeMap).Keys
        invariant forall k :: k in gaugeMap ==> gaugeMap[k] == old(gaugeMap)[k]
        invariant forall k :: k in old(gaugeMap) && k !in todo ==> (k in gaugeMap <==> old(gaugeMap)[k] != [])
        decreases todo
      {
        var k :| k in todo;
        if gaugeMap[k] == [] {
          gaugeMap := gaugeMap - {k};
        }
        todo := todo - {k};
      }
    }

    /** The collected values arrive as `reports`, in the order of the addMetric calls. */
    method GetMetrics(reports: seq<Report>)
      modifies this, meter
      ensures State() == AfterGetMetrics(old(State()), reports, overrideCType)
    {
      Clear();
      ghost var start := State();
      for i := 0 to |reports|
        invariant State() == AfterReports(start, reports[..i], overrideCType)
      {
        assert reports[..i + 1][..i] == reports[..i];
        AddMetric(reports[i]);
      }
      assert reports[..|reports|] == reports;
      Evict();
    }
  }

  // --- gauges: exactly this cycle's

  /** The values of a gauge in these reports, in order, when `known` says whether it was there at the
      start; a report refused while it is not there is lost. */
  function StashedBy(reports: seq<Report>, series: string, name: string, known: bool, overrideCType: bool): seq<Gauge> {
    if reports == [] then []
    else
      var n := |reports| - 1;
      var r := reports[n];
      var before := StashedBy(reports[..n], series, name, known, overrideCType);
      if (!r.delta || overrideCType) && Reports(r, series, name) && (known || before != [] || !r.refused)
      then before + [Gauge(r.value, r.tags)] else before
  }

  lemma {:induction false} StashContents(s: OState, reports: seq<Report>, series: string, name: string, overrideCType: bool)
    requires Dotless(reports) && Plain(series, name)
    requires forall k :: k in s.gauges ==> s.gauges[k] == []
    ensures var g, key := AfterReports(s, reports, overrideCType).gauges, Instrument(series, name);
      var stashed := StashedBy(reports, series, name, key in s.gauges, overrideCType);
      && (key in g <==> key in s.gauges || stashed != [])
      && (key in g ==> g[key] == stashed)
  {
    if reports != [] {
      var n := |reports| - 1;
      StashContents(s, reports[..n], series, name, overrideCType);
      InstrumentIff(reports[n], series, name);
    }
  }

  /** After a pass, the gauge map holds exactly the gauges with something reported in this pass,
      each with this pass's values in order. */
  lemma GaugesOfThisCycle(s: OState, reports: seq<Report>, series: string, name: string, overrideCType: bool)
    requires Dotless(reports) && Plain(series, name)
    ensures var g, key := AfterGetMetrics(s, reports, overrideCType).gauges, Instrument(series, name);
      var stashed := StashedBy(reports, series, name, key in s.gauges, overrideCType);
      && (key in g <==> stashed != [])
      && (key in g ==> g[key] == stashed)
  {
    StashContents(s.(gauges := Cleared(s.gauges)), reports, series, name, overrideCType);
  }

  // --- callbacks: duplicates do not show

  /** What a backend keeps of a series of observations: the last value of each tag set. */
  function Observe(seen: map<Tags, int>, gs: seq<Gauge>): map<Tags, int> {
    if gs == [] then seen
    else Observe(seen, gs[..|gs| - 1])[gs[|gs| - 1].tags := gs[|gs| - 1].value]
  }

  /** Each registered callback replays the whole stash of its gauge. */
  function Replay(seen: map<Tags, int>, gs: seq<Gauge>, times: nat): map<Tags, int> {
    if times == 0 then seen else Observe(Replay(seen, gs, times - 1), gs)
  }

  /** What one collection observes for a gauge. */
  function Observed(s: OState, key: string): map<Tags, int> {
    Replay(map[], if key in s.gauges then s.gauges[key] else [], if key in s.callbacks then s.callbacks[key] else 0)
  }

  lemma {:induction false} ObserveLast(seen: map<Tags, int>, gs: seq<Gauge>, t: Tags)
    ensures var o := Observe(seen, gs);
      var fromNothing := Observe(map[], gs);
      && (t in fromNothing ==> t in o && o[t] == fromNothing[t])
      && (t !in fromNothing ==> (t in o <==> t in seen) && (t in seen ==> o[t] == seen[t]))
  {
    if gs != [] {
      ObserveLast(seen, gs[..|gs| - 1], t);
    }
  }

  lemma ReplayTwice(gs: seq<Gauge>)
    ensures Observe(Observe(map[], gs), gs) == Observe(map[], gs)
  {
    var once := Observe(map[], gs);
    var twice := Observe(once, gs);
    forall t: Tags
      ensures t in once <==> t in twice
      ensures t in once ==> once[t] == twice[t]
    {
      ObserveLast(once, gs, t);
    }
    assert once == twice;
  }

  lemma {:induction false} ReplayManyTimes(gs: seq<Gauge>, times: nat)
    requires times > 0
    ensures Replay(map[], gs, times) == Observe(map[], gs)
  {
    if times > 1 {
      ReplayManyTimes(gs, times - 1);
      ReplayTwice(gs);
    } else {
      assert Replay(map[], gs, 0) == map[];
    }
  }

  /** Every gauge in the map has at least one callback. */
  ghost predicate Wired(s: OState) {
    forall k :: k in s.gauges ==> k in s.callbacks && s.callbacks[k] > 0
  }

  lemma {:induction false} ReportsKeepWired(s: OState, reports: seq<Report>, overrideCType: bool)
    requires Wired(s)
    ensures Wired(AfterReports(s, reports, overrideCType))
  {
    if reports != [] {
      ReportsKeepWired(s, reports[..|reports| - 1], overrideCType);
    }
  }

  lemma PassKeepsWired(s: OState, reports: seq<Report>, overrideCType: bool)
    requires Wired(s)
    ensures Wired(AfterGetMetrics(s, reports, overrideCType))
  {
    ReportsKeepWired(s.(gauges := Cleared(s.gauges)), reports, overrideCType);
  }

  function CallbackCount(s: OState, series: string, name: string): nat {
    var key := Instrument(series, name);
    if key in s.callbacks then s.callbacks[key] else 0
  }

  lemma {:induction false} CallbacksGrow(s: OState, reports: seq<Report>, series: string, name: string, overrideCType: bool)
    requires Dotless(reports) && Plain(series, name)
    requires forall k :: k in s.gauges ==> s.gauges[k] == []
    ensures var key := Instrument(series, name);
      CallbackCount(AfterReports(s, reports, overrideCType), series, name) == CallbackCount(s, series, name) +
        if key !in s.gauges && StashedBy(reports, series, name, false, overrideCType) != [] then 1 else 0
  {
    if reports != [] {
      var n := |reports| - 1;
      CallbacksGrow(s, reports[..n], series, name, overrideCType);
      StashContents(s, reports[..n], series, name, overrideCType);
      InstrumentIff(reports[n], series, name);
    }
  }

  /** Each time a gauge comes into being, for the first time or after having been evicted, one more
      callback is registered for it, and none otherwise. */
  lemma OneCallbackPerReturn(s: OState, reports: seq<Report>, series: string, name: string, overrideCType: bool)
    requires Dotless(reports) && Plain(series, name)
    ensures var after, key := AfterGetMetrics(s, reports, overrideCType), Instrument(series, name);
      CallbackCount(after, series, name) ==
        CallbackCount(s, series, name) + if key in after.gauges && key !in s.gauges then 1 else 0
  {
    CallbacksGrow(s.(gauges := Cleared(s.gauges)), reports, series, name, overrideCType);
    GaugesOfThisCycle(s, reports, series, name, overrideCType);
  }

  /** However many callbacks evicting and returning have registered for a gauge, a collection
      observes the last value of each tag set reported in this pass, and for a gauge not reported
      in it nothing at all. */
  lemma DuplicateCallbacksInvisible(s: OState, reports: seq<Report>, series: string, name: string, overrideCType: bool)
    requires Wired(s) && Dotless(reports) && Plain(series, name)
    ensures var key := Instrument(series, name);
      Observed(AfterGetMetrics(s, reports, overrideCType), key)
      == Observe(map[], StashedBy(reports, series, name, key in s.gauges, overrideCType))
  {
    var key, t := Instrument(series, name), AfterGetMetrics(s, reports, overrideCType);
    GaugesOfThisCycle(s, reports, series, name, overrideCType);
    PassKeepsWired(s, reports, overrideCType);
    var times := if key in t.callbacks then t.callbacks[key] else 0;
    if key in t.gauges {
      ReplayManyTimes(t.gauges[key], times);
    } else {
      ReplayNothing(times);
    }
  }

  lemma {:induction false} ReplayNothing(times: nat)
    ensures Replay(map[], [], times) == map[]
  {
    if times > 0 {
      ReplayNothing(times - 1);
    }
  }

  // --- the collection loop

  /** One turn of the loop: the values reported, whether GetMetrics failed all the same, whether the
      reader's collection and the export succeed. */
  datatype Turn = Turn(reports: seq<Report>, gatherFails: bool, collectFails: bool, exportFails: bool)

  predicate Collects(t: Turn) {
    !t.gatherFails && !t.collectFails
  }

  predicate Fails(t: Turn) {
    t.gatherFails || t.collectFails || t.exportFails
  }

  /** The loop's state: the collector, what successful collections have handed over in all, and the
      consecutive failures. */
  datatype LState = LState(o: OState, handed: Amounts, gaugesHanded: map<string, map<Tags, int>>, errors: nat)

  function Merge(a: Amounts, b: Amounts): Amounts {
    map k | k in a.Keys + b.Keys :: Amount(a, k) + Amount(b, k)
  }

  function AfterTurn(s: LState, t: Turn, overrideCType: bool): LState {
    var o := AfterGetMetrics(s.o, t.reports, overrideCType);
    var e := if Fails(t) then s.errors + 1 else 0;
    if Collects(t) then
      LState(o.(pending := map[]), Merge(s.handed, o.pending), map k | k in o.gauges :: Observed(o, k), e)
    else LState(o, s.handed, map[], e)
  }

  function AfterTurns(s: LState, turns: seq<Turn>, overrideCType: bool): LState {
    if turns == [] then s
    else AfterTurn(AfterTurns(s, turns[..|turns| - 1], overrideCType), turns[|turns| - 1], overrideCType)
  }

  const START := LState(OState(map[], {}, map[], map[]), map[], map[], 0)

  class Loop {
    const reader: Reader
    const maxErrors: int
    var handed: Amounts
    var gaugesHanded: map<string, map<Tags, int>>
    var totalErrorCount: nat

    constructor (overrideCType: bool, maxErrors: int)
      ensures fresh(reader) && fresh(reader.meter) && reader.overrideCType == overrideCType
      ensures this.maxErrors == maxErrors && State() == START
    {
      reader := new Reader(overrideCType);
      this.maxErrors := maxErrors;
      handed, gaugesHanded, totalErrorCount := map[], map[], 0;
    }

    ghost function State(): LState
      reads this, reader, reader.meter
    {
      LState(reader.State(), handed, gaugesHanded, totalErrorCount)
    }

    /** The reader's collection: the callbacks are driven, and the pending amounts handed over. */
    method CollectAll()
      modifies this`handed, this`gaugesHanded, reader.meter
      ensures handed == Merge(old(handed), old(reader.meter.pending))
      ensures gaugesHanded == map k | k in reader.gaugeMap :: Observed(old(reader.State()), k)
      ensures reader.meter.pending == map[] && reader.meter.callbacks == old(reader.meter.callbacks)
    {
      handed := Merge(handed, reader.meter.pending);
      var o := OState(reader.gaugeMap, reader.counterMap, reader.meter.callbacks, reader.meter.pending);
      gaugesHanded := map k | k in reader.gaugeMap :: Observed(o, k);
      reader.meter.pending := map[];
    }

    /** One turn; `fatal` when too many turns in a row have failed. */
    method Turn(t: Turn) returns (fatal: bool)
      modifies this, reader, reader.meter
      ensures State() == AfterTurn(old(State()), t, reader.overrideCType)
      ensures fatal <==> totalErrorCount > maxErrors
    {
      gaugesHanded := map[];
      reader.GetMetrics(t.reports);
      var failed := t.gatherFails;
      if !failed {
        failed := t.collectFails;
        if !failed {
          CollectAll();
          failed := t.exportFails;
        }
      }
      if failed {
        totalErrorCount := totalErrorCount + 1;
      } else {
        totalErrorCount := 0;
      }
      fatal := totalErrorCount > maxErrors;
    }
  }

  // --- counters: nothing lost, nothing counted twice

  /** The sum of all values in these reports for a counter and tag set; a report refused while the
      counter is not there is lost. */
  function AddedBy(reports: seq<Report>, series: string, name: string, tags: Tags, known: bool, overrideCType: bool): int {
    if reports == [] then 0
    else
      var n := |reports| - 1;
      var r := reports[n];
      AddedBy(reports[..n], series, name, tags, known, overrideCType) +
      if r.delta && !overrideCType && Reports(r, series, name) && r.tags == tags
         && (known || CreatedBy(reports[..n], series, name, overrideCType) || !r.refused)
      then r.value else 0
  }

  /** Some report created the counter. */
  predicate CreatedBy(reports: seq<Report>, series: string, name: string, overrideCType: bool) {
    exists i :: 0 <= i < |reports| && Creates(reports[i], series, name, overrideCType)
  }

  predicate Creates(r: Report, series: string, name: string, overrideCType: bool) {
    r.delta && !overrideCType && Reports(r, series, name) && !r.refused
  }

  lemma {:induction false} CountersKnown(s: OState, reports: seq<Report>, series: string, name: string, overrideCType: bool)
    requires Dotless(reports) && Plain(series, name)
    ensures var key := Instrument(series, name);
      key in AfterReports(s, reports, overrideCType).counters
      <==> key in s.counters || CreatedBy(reports, series, name, overrideCType)
  {
    if reports != [] {
      var n := |reports| - 1;
      CountersKnown(s, reports[..n], series, name, overrideCType);
      CreatedStep(reports, series, name, overrideCType);
      InstrumentIff(reports[n], series, name);
    }
  }

  lemma CreatedStep(reports: seq<Report>, series: string, name: string, overrideCType: bool)
    requires reports != []
    ensures var n := |reports| - 1;
      CreatedBy(reports, series, name, overrideCType) <==>
        CreatedBy(reports[..n], series, name, overrideCType) || Creates(reports[n], series, name, overrideCType)
  {
    var n := |reports| - 1;
    if CreatedBy(reports[..n], series, name, overrideCType) {
      var i :| 0 <= i < n && Creates(reports[..n][i], series, name, overrideCType);
      assert reports[i] == reports[..n][i];
    }
  }

  lemma {:induction false} PendingGrows(s: OState, reports: seq<Report>, series: string, name: string, tags: Tags,
                                        overrideCType: bool)
    requires Dotless(reports) && Plain(series, name)
    ensures var key := Instrument(series, name);
      Amount(AfterReports(s, reports, overrideCType).pending, (key, tags))
      == Amount(s.pending, (key, tags)) + AddedBy(reports, series, name, tags, key in s.counters, overrideCType)
  {
    if reports != [] {
      var n := |reports| - 1;
      PendingGrows(s, reports[..n], series, name, tags, overrideCType);
      CountersKnown(s, reports[..n], series, name, overrideCType);
      InstrumentIff(reports[n], series, name);
    }
  }

  ghost predicate AllDotless(turns: seq<Turn>) {
    forall i :: 0 <= i < |turns| ==> Dotless(turns[i].reports)
  }

  /** All values ever added to a counter over a series of turns. */
  function AddedOver(turns: seq<Turn>, series: string, name: string, tags: Tags, overrideCType: bool): int {
    if turns == [] then 0
    else
      var n := |turns| - 1;
      AddedOver(turns[..n], series, name, tags, overrideCType)
      + AddedBy(turns[n].reports, series, name, tags, CreatedOver(turns[..n], series, name, overrideCType), overrideCType)
  }

  /** Some report of these turns created the counter. */
  predicate CreatedOver(turns: seq<Turn>, series: string, name: string, overrideCType: bool) {
    turns != [] &&
    (CreatedOver(turns[..|turns| - 1], series, name, overrideCType)
     || CreatedBy(turns[|turns| - 1].reports, series, name, overrideCType))
  }

  lemma {:induction false} CountersKnownOver(turns: seq<Turn>, series: string, name: string, overrideCType: bool)
    requires AllDotless(turns) && Plain(series, name)
    ensures Instrument(series, name) in AfterTurns(START, turns, overrideCType).o.counters <==>
      CreatedOver(turns, series, name, overrideCType)
  {
    if turns != [] {
      var n := |turns| - 1;
      CountersKnownOver(turns[..n], series, name, overrideCType);
      var s := AfterTurns(START, turns[..n], overrideCType);
      CountersKnown(s.o.(gauges := Cleared(s.o.gauges)), turns[n].reports, series, name, overrideCType);
    }
  }

  /** Conservation: for every counter and tag set, what successful collections have handed over plus
      what is pending is what was ever added, whichever turns failed; and after a turn that collects
      all of it has been handed over. */
  lemma {:induction false} CountersConserved(turns: seq<Turn>, series: string, name: string, tags: Tags, overrideCType: bool)
    requires AllDotless(turns) && Plain(series, name)
    ensures var s, k := AfterTurns(START, turns, overrideCType), (Instrument(series, name), tags);
      && Amount(s.handed, k) + Amount(s.o.pending, k) == AddedOver(turns, series, name, tags, overrideCType)
      && (turns != [] && !turns[|turns| - 1].gatherFails && !turns[|turns| - 1].collectFails ==>
            Amount(s.handed, k) == AddedOver(turns, series, name, tags, overrideCType))
  {
    if turns != [] {
      var n := |turns| - 1;
      CountersConserved(turns[..n], series, name, tags, overrideCType);
      var s := AfterTurns(START, turns[..n], overrideCType);
      CountersKnownOver(turns[..n], series, name, overrideCType);
      PendingGrows(s.o.(gauges := Cleared(s.o.gauges)), turns[n].reports, series, name, tags, overrideCType);
    }
  }

  /** Gauges are not conserved: a turn in which gathering or collecting fails hands over none, and the
      next one that collects observes only its own values. */
  lemma FailedTurnLosesGauges(turns: seq<Turn>, t: Turn, series: string, name: string, overrideCType: bool)
    requires Dotless(t.reports) && Plain(series, name)
    ensures var s, key := AfterTurns(START, turns, overrideCType), Instrument(series, name);
      var after := AfterTurn(s, t, overrideCType);
      if t.gatherFails || t.collectFails then after.gaugesHanded == map[] && after.handed == s.handed
      else
        var stashed := StashedBy(t.reports, series, name, key in s.o.gauges, overrideCType);
        && (key in after.gaugesHanded <==> stashed != [])
        && (key in after.gaugesHanded ==> after.gaugesHanded[key] == Observe(map[], stashed))
  {
    TurnsKeepWired(turns, overrideCType);
    var s := AfterTurns(START, turns, overrideCType);
    GaugesOfThisCycle(s.o, t.reports, series, name, overrideCType);
    DuplicateCallbacksInvisible(s.o, t.reports, series, name, overrideCType);
  }

  lemma {:induction false} TurnsKeepWired(turns: seq<Turn>, overrideCType: bool)
    ensures Wired(AfterTurns(START, turns, overrideCType).o)
  {
    if turns != [] {
      var n := |turns| - 1;
      TurnsKeepWired(turns[..n], overrideCType);
      PassKeepsWired(AfterTurns(START, turns[..n], overrideCType).o, turns[n].reports, overrideCType);
    }
  }

  /** The error count is the number of turns that failed in a row up to now, in gathering, collecting
      or exporting. */
  lemma {:induction false} ErrorsInARow(turns: seq<Turn>, overrideCType: bool)
    ensures var e := AfterTurns(START, turns, overrideCType).errors;
      && e <= |turns|
      && (forall i :: |turns| - e <= i < |turns| ==>
            turns[i].gatherFails || turns[i].collectFails || turns[i].exportFails)
      && (e < |turns| ==>
            var t := turns[|turns| - e - 1]; !t.gatherFails && !t.collectFails && !t.exportFails)
  {
    if turns != [] {
      ErrorsInARow(turns[..|turns| - 1], overrideCType);
    }
  }
}
