/** Whole cycles of the JSON collector, one after another: the name cache lives through all of them,
    the tables are built anew in each, and every point ends up with its published and polled values. */
module PointCycles {
  import opened Options
  import opened MetricKeys
  import opened NameFixup
  import opened PointTables
  import opened PointAssembly
  import opened PointEmission
  import opened Strings

  /** What one cycle has to work on: published values, names converted for the statistics, the
      collector's own count, and the status values if it polls. */
  datatype Gathered = Gathered(published: seq<Published>, statistics: seq<Call>, count: int, polled: Option<Polling>)

  /** The status values in the order of the source's loops: each channel attribute's own, and the
      listing of all others made in that round. */
  datatype Polling = Polling(rounds: seq<(seq<Sample>, seq<Sample>)>)

  function Channels(p: Polling): seq<seq<Sample>> {
    seq(|p.rounds|, i requires 0 <= i < |p.rounds| => p.rounds[i].0)
  }

  function Nested(p: Polling): seq<seq<Sample>> {
    seq(|p.rounds|, i requires 0 <= i < |p.rounds| => p.rounds[i].1)
  }

  /** All status values of a cycle in the order they are processed. */
  function StatusOf(g: Gathered): seq<Sample> {
    match g.polled
    case None => []
    case Some(p) => Processed(Channels(p), Nested(p))
  }

  function RememberAll(cache: map<string, string>, calls: seq<Call>): map<string, string> {
    if calls == [] then cache else Remember(RememberAll(cache, calls[..|calls| - 1]), calls[|calls| - 1])
  }

  /** The tables and the cache when the status values come to be added. */
  function Opening(cache: map<string, string>, g: Gathered): World {
    var w := PublishAll(World(Tables(map[], map[]), cache), g.published);
    CountPublications(w.(cache := RememberAll(w.cache, g.statistics)), g.count)
  }

  /** What a cycle makes of the cache it finds. */
  function AfterCycle(cache: map<string, string>, g: Gathered): World {
    AddAll(Opening(cache, g), StatusOf(g))
  }

  function CacheOver(cycles: seq<Gathered>): map<string, string> {
    if cycles == [] then map[]
    else AfterCycle(CacheOver(cycles[..|cycles| - 1]), cycles[|cycles| - 1]).cache
  }

  // --- the values, told from what was gathered

  predicate IsValueOf(p: Published, key: string, n: string) {
    p.key == key && FixedName(p.metricName, PublishedType(key)) == n
  }

  /** The last value published under a key and name. */
  function LastPublished(ps: seq<Published>, key: string, n: string): Option<int> {
    if ps == [] then None
    else if IsValueOf(ps[|ps| - 1], key, n) then Some(ps[|ps| - 1].value)
    else LastPublished(ps[..|ps| - 1], key, n)
  }

  predicate HasKey(ps: seq<Published>, key: string) {
    exists i :: 0 <= i < |ps| && ps[i].key == key
  }

  /** The publication count, for the queue manager's point only. */
  function Counted(g: Gathered, key: string, n: string): Option<int> {
    if key == QMGR_MAP_KEY && n == FixedName(COUNT_NAME, "") then Some(g.count) else None
  }

  predicate IsStatusOf(s: Sample, key: string, n: string) {
    Merges(s.obj, key) && FixedName(s.metricName, PublishedType(key)) == n
  }

  /** The last value polled for a key and name. */
  function LastPolled(ss: seq<Sample>, key: string, n: string): Option<int> {
    if ss == [] then None
    else if IsStatusOf(ss[|ss| - 1], key, n) then Some(ss[|ss| - 1].value)
    else LastPolled(ss[..|ss| - 1], key, n)
  }

  // --- which names are converted

  /** Every conversion of the cycle, under any type it may be made with, belongs to the vocabulary. */
  ghost predicate Within(g: Gathered, vocabulary: set<Call>) {
    && PublishedWithin(g.published, vocabulary) && (forall c :: c in g.statistics ==> c in vocabulary)
    && Call(COUNT_NAME, "") in vocabulary
    && forall s :: s in StatusOf(g) ==> StatusWithin(s, vocabulary)
  }

  ghost predicate PublishedWithin(ps: seq<Published>, vocabulary: set<Call>) {
    forall i :: 0 <= i < |ps| ==> Call(ps[i].metricName, PublishedType(ps[i].key)) in vocabulary
  }

  ghost predicate StatusWithin(s: Sample, vocabulary: set<Call>) {
    && Call(s.metricName, TypeOf(s.obj)) in vocabulary
    && (forall key :: Merges(s.obj, key) ==> Call(s.metricName, PublishedType(key)) in vocabulary)
  }

  // --- published values

  /** Only published cells, each of its key's type, and an honest cache. */
  ghost predicate PublishedOnly(w: World, vocabulary: set<Call>) {
    && w.t.table == map[] && Honest(w.cache, vocabulary)
    && (forall c :: c in w.t.cells ==> c.Pub?)
    && forall k :: Pub(k) in w.t.cells ==> w.t.cells[Pub(k)].objectType == PublishedType(k)
  }

  lemma StoreForm(w: World, k: string, v: CellVal, metricName: string, nameType: string, value: int,
                  vocabulary: set<Call>, key: string, n: string)
    requires PublishedOnly(w, vocabulary) && ClashFree(vocabulary) && Call(metricName, nameType) in vocabulary
    requires v.objectType == PublishedType(k)
    requires v.metrics == if Pub(k) in w.t.cells then w.t.cells[Pub(k)].metrics else map[]
    ensures var r := Store(w, Pub(k), v, metricName, nameType, value);
      && PublishedOnly(r, vocabulary)
      && (Pub(key) in r.t.cells <==> Pub(key) in w.t.cells || k == key)
      && Val(r.t, Pub(key), n) ==
           if key == k && n == FixedName(metricName, nameType) then Some(value) else Val(w.t, Pub(key), n)
  {
    HonestAnswer(w.cache, vocabulary, Call(metricName, nameType));
  }

  lemma PublishOne(w: World, p: Published, vocabulary: set<Call>, key: string, n: string)
    requires PublishedOnly(w, vocabulary) && ClashFree(vocabulary)
    requires Call(p.metricName, PublishedType(p.key)) in vocabulary
    ensures var r := Publish(w, p);
      && PublishedOnly(r, vocabulary)
      && (Pub(key) in r.t.cells <==> Pub(key) in w.t.cells || p.key == key)
      && Val(r.t, Pub(key), n) == if IsValueOf(p, key, n) then Some(p.value) else Val(w.t, Pub(key), n)
  {
    var v := if Pub(p.key) in w.t.cells then w.t.cells[Pub(p.key)] else CellVal(PublishedType(p.key), p.tags, map[]);
    StoreForm(w, p.key, v, p.metricName, v.objectType, p.value, vocabulary, key, n);
  }

  lemma {:induction false} PublishedForm(cache: map<string, string>, ps: seq<Published>, vocabulary: set<Call>,
                                         key: string, n: string)
    requires Honest(cache, vocabulary) && ClashFree(vocabulary) && PublishedWithin(ps, vocabulary)
    ensures var w := PublishAll(World(Tables(map[], map[]), cache), ps);
      && PublishedOnly(w, vocabulary)
      && (Pub(key) in w.t.cells <==> HasKey(ps, key))
      && Val(w.t, Pub(key), n) == LastPublished(ps, key, n)
  {
    if ps != [] {
      var m := |ps| - 1;
      PublishedForm(cache, ps[..m], vocabulary, key, n);
      PublishOne(PublishAll(World(Tables(map[], map[]), cache), ps[..m]), ps[m], vocabulary, key, n);
      HasKeyStep(ps, key);
    }
  }

  lemma HasKeyStep(ps: seq<Published>, key: string)
    requires ps != []
    ensures HasKey(ps, key) <==> HasKey(ps[..|ps| - 1], key) || ps[|ps| - 1].key == key
  {
    var before := ps[..|ps| - 1];
    if HasKey(ps, key) && ps[|ps| - 1].key != key {
      var i :| 0 <= i < |ps| && ps[i].key == key;
      assert before[i].key == key;
    }
    if HasKey(before, key) {
      var i :| 0 <= i < |before| && before[i].key == key;
      assert ps[i].key == key;
    }
  }

  lemma {:induction false} StatisticsHonest(cache: map<string, string>, calls: seq<Call>, vocabulary: set<Call>)
    requires Honest(cache, vocabulary) && ClashFree(vocabulary) && forall c :: c in calls ==> c in vocabulary
    ensures Honest(RememberAll(cache, calls), vocabulary)
  {
    if calls != [] {
      var n := |calls| - 1;
      StatisticsHonest(cache, calls[..n], vocabulary);
      assert calls[n] in calls;
      HonestAnswer(RememberAll(cache, calls[..n]), vocabulary, calls[n]);
    }
  }

  lemma CountForm(w: World, count: int, vocabulary: set<Call>, key: string, n: string)
    requires PublishedOnly(w, vocabulary) && ClashFree(vocabulary) && Call(COUNT_NAME, "") in vocabulary
    ensures var r := CountPublications(w, count);
      && PublishedOnly(r, vocabulary)
      && (Pub(key) in r.t.cells <==> Pub(key) in w.t.cells)
      && (Pub(key) in w.t.cells ==>
            Val(r.t, Pub(key), n) ==
              if key == QMGR_MAP_KEY && n == FixedName(COUNT_NAME, "") then Some(count) else Val(w.t, Pub(key), n))
  {
    if Pub(QMGR_MAP_KEY) in w.t.cells {
      StoreForm(w, QMGR_MAP_KEY, w.t.cells[Pub(QMGR_MAP_KEY)], COUNT_NAME, "", count, vocabulary, key, n);
    }
  }

  /** What a cycle starts its status values from: the published values and the count, with no
      influence of the cache. */
  lemma OpeningForm(cache: map<string, string>, g: Gathered, vocabulary: set<Call>, key: string, n: string)
    requires Honest(cache, vocabulary) && ClashFree(vocabulary) && Within(g, vocabulary)
    ensures var w := Opening(cache, g);
      && PublishedOnly(w, vocabulary)
      && (Pub(key) in w.t.cells <==> HasKey(g.published, key))
      && (HasKey(g.published, key) ==>
            Val(w.t, Pub(key), n) == Counted(g, key, n).Or(LastPublished(g.published, key, n)))
  {
    PublishedForm(cache, g.published, vocabulary, key, n);
    var w := PublishAll(World(Tables(map[], map[]), cache), g.published);
    StatisticsHonest(w.cache, g.statistics, vocabulary);
    CountForm(w.(cache := RememberAll(w.cache, g.statistics)), g.count, vocabulary, key, n);
  }

  // --- status values on top

  lemma OpenedIsSound(w: World, vocabulary: set<Call>)
    requires PublishedOnly(w, vocabulary)
    ensures Sound(w.t)
  {
  }

  lemma StatusCovered(w: World, s: Sample, vocabulary: set<Call>)
    requires PublishedOnly(w, vocabulary) && StatusWithin(s, vocabulary)
    ensures Covered(w.t, s, vocabulary)
  {
    if PubKey(s.obj).Some? {
      MergesIff(s.obj, PubKey(s.obj).value);
    }
  }

  lemma {:induction false} LastHitIsPolled(w: World, ss: seq<Sample>, vocabulary: set<Call>, key: string, n: string)
    requires PublishedOnly(w, vocabulary) && Pub(key) in w.t.cells
    ensures LastHit(w.t, ss, Pub(key), n) == LastPolled(ss, key, n)
  {
    if ss != [] {
      LastHitIsPolled(w, ss[..|ss| - 1], vocabulary, key, n);
      MergesIff(ss[|ss| - 1].obj, key);
    }
  }

  /** The cache has no influence on a cycle's tables. */
  lemma CycleTables(cache: map<string, string>, g: Gathered, vocabulary: set<Call>)
    requires Honest(cache, vocabulary) && ClashFree(vocabulary) && Within(g, vocabulary)
    ensures var w, r := Opening(cache, g), AfterCycle(cache, g);
      && PublishedOnly(w, vocabulary) && Sound(w.t) && Sound(r.t)
      && r.t == ApplyAll(w.t, StatusOf(g)) && Honest(r.cache, vocabulary)
  {
    var w, ss := Opening(cache, g), StatusOf(g);
    OpeningForm(cache, g, vocabulary, "", "");
    OpenedIsSound(w, vocabulary);
    forall s | s in ss
      ensures Covered(w.t, s, vocabulary)
    {
      StatusCovered(w, s, vocabulary);
    }
    WithoutCache(w, ss, vocabulary);
    ApplyAllSound(w.t, ss);
  }

  /** A cycle leaves the cache honest, and a published object's point with the last polled value of
      each name and otherwise the count or the last published one. */
  lemma UnionForm(cache: map<string, string>, g: Gathered, vocabulary: set<Call>, key: string, n: string)
    requires Honest(cache, vocabulary) && ClashFree(vocabulary) && Within(g, vocabulary)
    ensures var r := AfterCycle(cache, g);
      && Honest(r.cache, vocabulary)
      && (Pub(key) in r.t.cells <==> HasKey(g.published, key))
      && (HasKey(g.published, key) ==>
            Val(r.t, Pub(key), n) ==
              LastPolled(StatusOf(g), key, n).Or(Counted(g, key, n).Or(LastPublished(g.published, key, n))))
  {
    var w := Opening(cache, g);
    var ss := StatusOf(g);
    OpeningForm(cache, g, vocabulary, key, n);
    CycleTables(cache, g, vocabulary);
    ApplyAllSound(w.t, ss);
    AfterAll(w.t, ss, Pub(key), n, "");
    if HasKey(g.published, key) {
      LastHitIsPolled(w, ss, vocabulary, key, n);
    }
  }

  /** Over any number of cycles with clash-free names the cache stays honest, so that no cycle's
      tables depend on an earlier one. */
  lemma {:induction false} CacheStaysHonest(cycles: seq<Gathered>, vocabulary: set<Call>)
    requires ClashFree(vocabulary) && forall i :: 0 <= i < |cycles| ==> Within(cycles[i], vocabulary)
    ensures Honest(CacheOver(cycles), vocabulary)
  {
    if cycles != [] {
      var n := |cycles| - 1;
      CacheStaysHonest(cycles[..n], vocabulary);
      UnionForm(CacheOver(cycles[..n]), cycles[n], vocabulary, "", "");
    }
  }

  /** In every cycle that polls, whatever came before, the nested loops leave what one plain pass over
      the channels' and all other objects' values leaves, exactly if there is a channel attribute or
      nothing else was polled. */
  lemma CycleIsOnePass(cycles: seq<Gathered>, g: Gathered, others: seq<Sample>, vocabulary: set<Call>)
    requires ClashFree(vocabulary) && Within(g, vocabulary)
    requires forall i :: 0 <= i < |cycles| ==> Within(cycles[i], vocabulary)
    requires g.polled.Some? && forall i :: 0 <= i < |g.polled.value.rounds| ==> SameSamples(Nested(g.polled.value)[i], others)
    requires Consistent(Opening(CacheOver(cycles), g).t, Flat(Channels(g.polled.value)) + others)
    ensures (AfterCycle(CacheOver(cycles), g).t ==
      ApplyAll(Opening(CacheOver(cycles), g).t, Flat(Channels(g.polled.value)) + others)) <==>
      g.polled.value.rounds != [] || others == []
  {
    CacheStaysHonest(cycles, vocabulary);
    CycleTables(CacheOver(cycles), g, vocabulary);
    OnePassIff(Opening(CacheOver(cycles), g).t, Channels(g.polled.value), Nested(g.polled.value), others);
  }

  lemma PublishStep(w: World, ps: seq<Published>, i: nat)
    requires i < |ps|
    ensures PublishAll(w, ps[..i + 1]) == Publish(PublishAll(w, ps[..i]), ps[i])
  {
    assert ps[..i + 1][..i] == ps[..i];
  }

  lemma CacheStep(cycles: seq<Gathered>, g: Gathered)
    ensures CacheOver(cycles + [g]) == AfterCycle(CacheOver(cycles), g).cache
  {
    assert (cycles + [g])[..|cycles|] == cycles;
  }

  // --- in place

  class Collector {
    const names: NameCache
    const emitter: Emitter
    ghost var done: seq<Gathered>

    /** The cache is what the cycles so far have left, all but the first one. */
    ghost predicate Valid()
      reads this, names, emitter
    {
      emitter.Valid() && names.entries == CacheOver(done) && (emitter.first ==> done == [])
    }

    constructor ()
      ensures Valid() && fresh(names) && fresh(emitter) && emitter.first
    {
      names := new NameCache();
      emitter := new Emitter();
      done := [];
    }

    method AddAllPublished(a: Assembler, ps: seq<Published>)
      requires a.Valid() && a.names == names
      modifies a`ptMapPub, a`cells, a.Metrics(), names
      ensures a.Valid() && fresh(a.Metrics() - old(a.Metrics()))
      ensures a.View() == PublishAll(old(a.View()), ps)
    {
      ghost var start := a.View();
      for i := 0 to |ps|
        invariant a.Valid() && fresh(a.Metrics() - old(a.Metrics()))
        invariant a.View() == PublishAll(start, ps[..i])
      {
        PublishStep(start, ps, i);
        a.AddPublished(ps[i]);
      }
      assert ps[..|ps|] == ps;
    }

    method ConvertStatistics(calls: seq<Call>)
      modifies names
      ensures names.entries == RememberAll(old(names.entries), calls)
    {
      for i := 0 to |calls|
        invariant names.entries == RememberAll(old(names.entries), calls[..i])
      {
        assert calls[..i + 1][..i] == calls[..i];
        var name := names.Fixup(calls[i].name, calls[i].objectType);
      }
      assert calls[..|calls|] == calls;
    }

    /** Fills fresh tables with all that was gathered. */
    method Assemble(g: Gathered) returns (a: Assembler)
      modifies names
      ensures fresh(a) && a.names == names && a.Valid() && a.View() == AfterCycle(old(names.entries), g)
      ensures names.entries == a.View().cache
    {
      a := new Assembler(names);
      AddAllPublished(a, g.published);
      Convert(a, g.statistics);
      a.AddCount(g.count);
      if g.polled.Some? {
        a.AssembleStatus(Channels(g.polled.value), Nested(g.polled.value));
      }
    }

    method Convert(a: Assembler, calls: seq<Call>)
      requires a.Valid() && a.names == names
      modifies names
      ensures a.Valid() && a.View() == old(a.View()).(cache := RememberAll(old(a.View()).cache, calls))
    {
      ConvertStatistics(calls);
    }

    /** Any cycle but the first: fills fresh tables and writes. */
    method CollectNext(g: Gathered, statistics: map<string, Point>, recordmax: int)
      returns (written: seq<seq<Point>>, a: Assembler, ghost c: Cycle<Point>,
               ghost own: seq<string>, ghost published: seq<string>)
      requires Valid() && !emitter.first
      modifies this, names, emitter
      ensures Valid() && !emitter.first && done == old(done) + [g]
      ensures fresh(a) && a.Valid() && a.names == names && a.View() == AfterCycle(CacheOver(old(done)), g)
      ensures emitter.cycles == old(emitter.cycles) + [c] && Concat(written) == AllPoints(emitter.cycles)
      ensures Wrote(a, g, c, own, published)
    {
      a := AssembleNext(g);
      written, c, own, published := Write(a, g, statistics, recordmax);
    }

    method AssembleNext(g: Gathered) returns (a: Assembler)
      requires names.entries == CacheOver(done)
      modifies this`done, names
      ensures done == old(done) + [g] && names.entries == CacheOver(done)
      ensures fresh(a) && a.Valid() && a.names == names && a.View() == AfterCycle(CacheOver(old(done)), g)
    {
      CacheStep(done, g);
      done := done + [g];
      a := Assemble(g);
    }

    method Write(a: Assembler, g: Gathered, statistics: map<string, Point>, recordmax: int)
      returns (written: seq<seq<Point>>, ghost c: Cycle<Point>, ghost own: seq<string>, ghost published: seq<string>)
      requires emitter.Valid() && !emitter.first && a.Valid()
      modifies emitter
      ensures emitter.Valid() && !emitter.first
      ensures a.Valid() && a.View() == old(a.View())
      ensures emitter.cycles == old(emitter.cycles) + [c] && Concat(written) == AllPoints(emitter.cycles)
      ensures Wrote(a, g, c, own, published)
    {
      written, c, own, published := emitter.Emit(a, statistics, g.polled.Some?, recordmax);
    }

    /** One cycle; the very first does nothing but be the first. */
    method Collect(g: Gathered, statistics: map<string, Point>, recordmax: int) returns (written: seq<seq<Point>>)
      requires Valid()
      modifies this, names, emitter
      ensures Valid() && !emitter.first && Concat(written) == AllPoints(emitter.cycles)
      ensures old(emitter.first) ==> emitter.cycles == [] && done == []
      ensures !old(emitter.first) ==> done == old(done) + [g]
      ensures !old(emitter.first) ==> exists c :: emitter.cycles == old(emitter.cycles) + [c]
    {
      if emitter.first {
        emitter.Skip();
        return [];
      }
      var a;
      ghost var c, own, published;
      written, a, c, own, published := CollectNext(g, statistics, recordmax);
    }
  }

  /** The cycle's listings are those of the assembler's two tables. */
  ghost predicate Wrote(a: Assembler, g: Gathered, c: Cycle<Point>, own: seq<string>, published: seq<string>)
    reads a
  {
    && c.status.Some? == g.polled.Some? && (c.status.Some? ==> Lists(c.status.value, own, a.ptMap))
    && Lists(c.published, published, a.ptMapPub)
  }

  /** A polled object's entry is in the status table after the cycle, where it leads home. */
  lemma PolledEntry(cache: map<string, string>, g: Gathered, vocabulary: set<Call>, s: Sample)
    requires Honest(cache, vocabulary) && ClashFree(vocabulary) && Within(g, vocabulary) && s in StatusOf(g)
    ensures var t := AfterCycle(cache, g).t;
      Sound(t) && Key1(s.obj) in t.table && t.table[Key1(s.obj)] == Home(t, s.obj)
  {
    var w, ss := Opening(cache, g), StatusOf(g);
    CycleTables(cache, g, vocabulary);
    AfterAll(w.t, ss, Pub(""), "", Key1(s.obj));
    var i := LastEntryIs(w.t, ss, Key1(s.obj));
    var j :| 0 <= j < |ss| && ss[j] == s;
    assert Key1(ss[j].obj) == Key1(s.obj);
    assert Entry(AfterCycle(cache, g).t, Key1(s.obj)).Some?;
  }

  function MetricOf(pt: Point, n: string): Option<int>
    reads pt.metric
  {
    if n in pt.metric.m then Some(pt.metric.m[n]) else None
  }

  /** What a polling cycle writes of an object that is both published and polled: its point, at least
      twice, once from each table, and in every copy under each name the last polled value, otherwise
      the publication count, otherwise the last published value. */
  lemma WrittenUnion(a: Assembler, cache: map<string, string>, g: Gathered, vocabulary: set<Call>,
                     c: Cycle<Point>, own: seq<string>, published: seq<string>, s: Sample, key: string, n: string)
    requires a.Valid() && a.View() == AfterCycle(cache, g) && Wrote(a, g, c, own, published)
    requires Honest(cache, vocabulary) && ClashFree(vocabulary) && Within(g, vocabulary)
    requires s in StatusOf(g) && Merges(s.obj, key) && HasKey(g.published, key)
    ensures Key1(s.obj) in a.ptMap && key in a.ptMapPub && a.ptMap[Key1(s.obj)] == a.ptMapPub[key]
    ensures forall all :: multiset(Carry(all, c))[a.ptMapPub[key]] >= 2
    ensures MetricOf(a.ptMapPub[key], n) ==
      LastPolled(StatusOf(g), key, n).Or(Counted(g, key, n).Or(LastPublished(g.published, key, n)))
  {
    UnionForm(cache, g, vocabulary, key, n);
    PolledEntry(cache, g, vocabulary, s);
    a.SharedPoint(s.obj, key);
    MergedPointWrittenTwice(c, a.ptMap, a.ptMapPub, own, published, Key1(s.obj), key);
  }

  /** The point of a polled queue that is also published is the published one. */
  lemma WrittenQueue(a: Assembler, cache: map<string, string>, g: Gathered, vocabulary: set<Call>,
                     c: Cycle<Point>, own: seq<string>, published: seq<string>, s: Sample, q: string)
    requires a.Valid() && a.View() == AfterCycle(cache, g) && Wrote(a, g, c, own, published)
    requires Honest(cache, vocabulary) && ClashFree(vocabulary) && Within(g, vocabulary)
    requires s in StatusOf(g) && s.obj == QueueId(q) && HasKey(g.published, q)
    ensures "queue/" + q in a.ptMap && q in a.ptMapPub && a.ptMap["queue/" + q] == a.ptMapPub[q]
    ensures forall all :: multiset(Carry(all, c))[a.ptMapPub[q]] >= 2
  {
    WrittenUnion(a, cache, g, vocabulary, c, own, published, s, q, "");
  }

  /** The point of the polled queue manager, under whatever name, is the one published under the
      special key, if there is one. */
  lemma WrittenQMgr(a: Assembler, cache: map<string, string>, g: Gathered, vocabulary: set<Call>,
                    c: Cycle<Point>, own: seq<string>, published: seq<string>, s: Sample, name: string)
    requires a.Valid() && a.View() == AfterCycle(cache, g) && Wrote(a, g, c, own, published)
    requires Honest(cache, vocabulary) && ClashFree(vocabulary) && Within(g, vocabulary)
    requires s in StatusOf(g) && s.obj == QMgrId(name) && HasKey(g.published, "@self")
    ensures "qmgr/" + name in a.ptMap && "@self" in a.ptMapPub && a.ptMap["qmgr/" + name] == a.ptMapPub["@self"]
    ensures forall all :: multiset(Carry(all, c))[a.ptMapPub["@self"]] >= 2
  {
    WrittenUnion(a, cache, g, vocabulary, c, own, published, s, "@self", "");
  }

  lemma TwoWords(name: string, a: string, b: string)
    requires name == a + "_" + b && '_' !in a && '_' !in b
    ensures FixedName(name, "") == Lower(a) + Capitalise(b)
  {
    SplitPeels(a, b, '_');
    SplitPeels(b, "", '_');
    assert a + ['_'] + b == name;
    assert [a, b][1..] == [b] && ([a] + [b]) == [a, b];
    assert CapitaliseAll([b]) == Capitalise(b) + CapitaliseAll([b][1..]);
  }

  lemma CountWords()
    ensures COUNT_NAME == "exporter" + "_" + "publications"
    ensures '_' !in "exporter" && '_' !in "publications"
    ensures "exporter" + "Publications" == "exporterPublications"
  {
  }

  lemma FirstCountWord()
    ensures Lower("exporter") == "exporter"
  {
  }

  lemma SecondCountWord()
    ensures Capitalise("publications") == "Publications"
  {
    var b := "publications";
    assert b[1..] == "ublications";
    assert Lower("ublications") == "ublications";
    assert ['P'] + "ublications" == "Publications";
  }

  lemma CountName()
    ensures FixedName(COUNT_NAME, "") == "exporterPublications"
  {
    CountWords();
    FirstCountWord();
    SecondCountWord();
    TwoWords(COUNT_NAME, "exporter", "publications");
  }

  /** Every published key has its point after the cycle, typed by the key alone: the queue manager's,
      a native HA instance's, or else a queue's. The count is in the queue manager's and in no other,
      unless something of that name was polled. */
  lemma PublishedPoint(a: Assembler, cache: map<string, string>, g: Gathered, vocabulary: set<Call>, key: string)
    requires a.Valid() && a.View() == AfterCycle(cache, g)
    requires Honest(cache, vocabulary) && ClashFree(vocabulary) && Within(g, vocabulary)
    ensures key in a.ptMapPub <==> HasKey(g.published, key)
    ensures key in a.ptMapPub ==>
      a.ptMapPub[key].objectType == if key == "@self" then "qmgr" else if "@NATIVEHA@" <= key then "nha" else "queue"
    ensures key in a.ptMapPub && key == "@self" ==>
      MetricOf(a.ptMapPub[key], "exporterPublications") ==
      LastPolled(StatusOf(g), key, "exporterPublications").Or(Some(g.count))
  {
    var n := "exporterPublications";
    var w, r := Opening(cache, g), AfterCycle(cache, g);
    CountName();
    UnionForm(cache, g, vocabulary, key, n);
    CycleTables(cache, g, vocabulary);
    ApplyAllSound(w.t, StatusOf(g));
    assert key in a.ptMapPub <==> Pub(key) in r.t.cells;
  }

  /** The last value polled for an entry of the status table and a name. */
  function LastOwn(ss: seq<Sample>, k: string, n: string): Option<int> {
    if ss == [] then None
    else
      var s := ss[|ss| - 1];
      if Key1(s.obj) == k && FixedName(s.metricName, TypeOf(s.obj)) == n then Some(s.value)
      else LastOwn(ss[..|ss| - 1], k, n)
  }

  lemma {:induction false} LastHitIsOwn(t: Tables, ss: seq<Sample>, o: ObjectId, n: string)
    requires forall key :: Merges(o, key) ==> Pub(key) !in t.cells
    ensures LastHit(t, ss, Own(Key1(o)), n) == LastOwn(ss, Key1(o), n)
  {
    if ss != [] {
      LastHitIsOwn(t, ss[..|ss| - 1], o, n);
      OwnHit(t, ss[|ss| - 1], o, n);
    }
  }

  lemma OwnHit(t: Tables, s: Sample, o: ObjectId, n: string)
    requires forall key :: Merges(o, key) ==> Pub(key) !in t.cells
    ensures Hits(t, s, Own(Key1(o)), n) <==> Key1(s.obj) == Key1(o) && FixedName(s.metricName, TypeOf(s.obj)) == n
  {
    if Key1(s.obj) == Key1(o) {
      SameKeyAlike(s.obj, o);
      if PubKey(o).Some? {
        MergesIff(o, PubKey(o).value);
      }
    }
  }

  lemma OwnForm(cache: map<string, string>, g: Gathered, vocabulary: set<Call>, s: Sample, n: string)
    requires Honest(cache, vocabulary) && ClashFree(vocabulary) && Within(g, vocabulary)
    requires s in StatusOf(g) && forall key :: Merges(s.obj, key) ==> !HasKey(g.published, key)
    ensures var t := AfterCycle(cache, g).t;
      && (forall key :: Merges(s.obj, key) ==> Pub(key) !in t.cells)
      && Val(t, Own(Key1(s.obj)), n) == LastOwn(StatusOf(g), Key1(s.obj), n)
  {
    var w, ss := Opening(cache, g), StatusOf(g);
    CycleTables(cache, g, vocabulary);
    ApplyAllSound(w.t, ss);
    forall key | Merges(s.obj, key)
      ensures Pub(key) !in w.t.cells
    {
      OpeningForm(cache, g, vocabulary, key, "");
    }
    AfterAll(w.t, ss, Own(Key1(s.obj)), n, "");
    LastHitIsOwn(w.t, ss, s.obj, n);
  }

  lemma SomeEntryIff(ss: seq<Sample>, k: string)
    ensures NoEntry(ss, k) <==> forall s :: s in ss ==> Key1(s.obj) != k
  {
    if NoEntry(ss, k) {
      forall s | s in ss
        ensures Key1(s.obj) != k
      {
        var j :| 0 <= j < |ss| && ss[j] == s;
        assert Key1(ss[j].obj) != k;
      }
    }
  }

  /** After a polling cycle the status table has exactly the entries of the objects polled. */
  lemma EntriesArePolled(cache: map<string, string>, g: Gathered, vocabulary: set<Call>, k: string)
    requires Honest(cache, vocabulary) && ClashFree(vocabulary) && Within(g, vocabulary)
    ensures k in AfterCycle(cache, g).t.table <==> exists s :: s in StatusOf(g) && Key1(s.obj) == k
  {
    var w, ss := Opening(cache, g), StatusOf(g);
    CycleTables(cache, g, vocabulary);
    AfterAll(w.t, ss, Pub(""), "", k);
    var i := LastEntryIs(w.t, ss, k);
    SomeEntryIff(ss, k);
    if !NoEntry(ss, k) {
      assert Entry(AfterCycle(cache, g).t, k).Some?;
    } else {
      assert Entry(AfterCycle(cache, g).t, k).None?;
    }
  }

  /** Any other polled object, a queue or queue manager that is not published among them, has a point
      of its own with the last polled value of each name and nothing else. */
  lemma WrittenApart(a: Assembler, cache: map<string, string>, g: Gathered, vocabulary: set<Call>, s: Sample, n: string)
    requires a.Valid() && a.View() == AfterCycle(cache, g)
    requires Honest(cache, vocabulary) && ClashFree(vocabulary) && Within(g, vocabulary)
    requires s in StatusOf(g) && forall key :: Merges(s.obj, key) ==> !HasKey(g.published, key)
    ensures Key1(s.obj) in a.ptMap
    ensures MetricOf(a.ptMap[Key1(s.obj)], n) == LastOwn(StatusOf(g), Key1(s.obj), n)
    ensures a.ptMap[Key1(s.obj)].objectType == TypeOf(s.obj)
    ensures forall k :: k in a.ptMapPub ==> a.ptMapPub[k].metric != a.ptMap[Key1(s.obj)].metric
    ensures forall k :: k in a.ptMap && k != Key1(s.obj) ==> a.ptMap[k].metric != a.ptMap[Key1(s.obj)].metric
  {
    OwnForm(cache, g, vocabulary, s, n);
    PolledEntry(cache, g, vocabulary, s);
    a.SeparatePoint(s.obj);
    forall k | k in a.ptMap && k != Key1(s.obj)
      ensures a.ptMap[k].metric != a.ptMap[Key1(s.obj)].metric
    {
      EntriesArePolled(cache, g, vocabulary, k);
      var p :| p in StatusOf(g) && Key1(p.obj) == k;
    }
  }
}
