/** The name cache over whole cycles: which conversions fill it, in which order, and so exactly which
    of the collector's names come out wrong. No condition on the names is needed. */
module PointNaming {
  import opened Options
  import opened NameFixup
  import opened MetricKeys
  import opened PointTables
  import opened PointAssembly
  import opened PointCycles

  // --- the conversions of a cycle, told from what was gathered

  function PublishedCalls(ps: seq<Published>): seq<Call> {
    if ps == [] then []
    else
      var p := ps[|ps| - 1];
      PublishedCalls(ps[..|ps| - 1]) + [Call(p.metricName, PublishedType(p.key))]
  }

  /** A status value's name is converted for the type of the point it joins. */
  function StatusCall(ps: seq<Published>, s: Sample): Call {
    Call(s.metricName,
         if s.obj.QueueId? && HasKey(ps, s.obj.qName) then PublishedType(s.obj.qName)
         else if s.obj.QMgrId? && HasKey(ps, "@self") then "qmgr"
         else TypeOf(s.obj))
  }

  function StatusCalls(ps: seq<Published>, ss: seq<Sample>): seq<Call> {
    if ss == [] then [] else StatusCalls(ps, ss[..|ss| - 1]) + [StatusCall(ps, ss[|ss| - 1])]
  }

  /** Published values, statistics, the count if the queue manager is published, and status. */
  function CallsOf(g: Gathered): seq<Call> {
    PublishedCalls(g.published) + g.statistics + CountCalls(g.published) + StatusCalls(g.published, StatusOf(g))
  }

  function CountCalls(ps: seq<Published>): seq<Call> {
    if HasKey(ps, "@self") then [Call(COUNT_NAME, "")] else []
  }

  function AllCalls(cycles: seq<Gathered>): seq<Call> {
    if cycles == [] then [] else AllCalls(cycles[..|cycles| - 1]) + CallsOf(cycles[|cycles| - 1])
  }

  lemma {:induction false} RememberConcat(cache: map<string, string>, a: seq<Call>, b: seq<Call>)
    ensures RememberAll(cache, a + b) == RememberAll(RememberAll(cache, a), b)
    decreases |b|
  {
    if b == [] {
      assert a + b == a;
    } else {
      var n := |b| - 1;
      assert (a + b)[..|a + b| - 1] == a + b[..n];
      RememberConcat(cache, a, b[..n]);
    }
  }

  lemma {:induction false} FromEmpty(calls: seq<Call>)
    ensures RememberAll(map[], calls) == CacheAfter(calls)
  {
    if calls != [] {
      FromEmpty(calls[..|calls| - 1]);
    }
  }

  // --- the points' types do not depend on the cache

  /** Published points only, each of its key's type. */
  ghost predicate TypedByKey(t: Tables, ps: seq<Published>) {
    && t.table == map[] && (forall c :: c in t.cells ==> c.Pub?)
    && forall k ::
         && (Pub(k) in t.cells <==> HasKey(ps, k))
         && (Pub(k) in t.cells ==> t.cells[Pub(k)].objectType == PublishedType(k))
  }

  lemma {:induction false} PublishedCache(cache: map<string, string>, ps: seq<Published>)
    ensures var w := PublishAll(World(Tables(map[], map[]), cache), ps);
      TypedByKey(w.t, ps) && w.cache == RememberAll(cache, PublishedCalls(ps))
  {
    if ps != [] {
      var n := |ps| - 1;
      PublishedCache(cache, ps[..n]);
      PublishTyped(PublishAll(World(Tables(map[], map[]), cache), ps[..n]), ps);
      RememberConcat(cache, PublishedCalls(ps[..n]), [Call(ps[n].metricName, PublishedType(ps[n].key))]);
    }
  }

  lemma PublishTyped(w: World, ps: seq<Published>)
    requires ps != [] && TypedByKey(w.t, ps[..|ps| - 1])
    ensures var p := ps[|ps| - 1];
      && TypedByKey(Publish(w, p).t, ps)
      && Publish(w, p).cache == RememberAll(w.cache, [Call(p.metricName, PublishedType(p.key))])
  {
    var p := ps[|ps| - 1];
    forall k
      ensures HasKey(ps, k) <==> HasKey(ps[..|ps| - 1], k) || p.key == k
    {
      HasKeyStep(ps, k);
    }
    RememberOne(w.cache, Call(p.metricName, PublishedType(p.key)));
  }

  lemma RememberOne(cache: map<string, string>, c: Call)
    ensures RememberAll(cache, [c]) == Remember(cache, c)
  {
    assert [c][..0] == [];
  }

  lemma StoreShape(w: World, c: Cell, v: CellVal, metricName: string, nameType: string, value: int)
    ensures var r := Store(w, c, v, metricName, nameType, value);
      && r.t.table == w.t.table && r.cache == Remember(w.cache, Call(metricName, nameType))
      && (exists u: CellVal :: r.t.cells == w.t.cells[c := u] && u.objectType == v.objectType && u.tags == v.tags)
  {
    var u := v.(metrics := v.metrics[Answer(w.cache, Call(metricName, nameType)) := value]);
    assert Store(w, c, v, metricName, nameType, value).t.cells == w.t.cells[c := u];
  }

  lemma CountCache(w: World, ps: seq<Published>, count: int)
    requires TypedByKey(w.t, ps)
    ensures TypedByKey(CountPublications(w, count).t, ps)
    ensures CountPublications(w, count).cache == RememberAll(w.cache, CountCalls(ps))
  {
    var c := Pub(QMGR_MAP_KEY);
    if c in w.t.cells {
      StoreShape(w, c, w.t.cells[c], COUNT_NAME, "", count);
      RememberOne(w.cache, Call(COUNT_NAME, ""));
    }
  }

  lemma OpeningCache(cache: map<string, string>, g: Gathered)
    ensures TypedByKey(Opening(cache, g).t, g.published)
    ensures Opening(cache, g).cache ==
      RememberAll(cache, PublishedCalls(g.published) + g.statistics + CountCalls(g.published))
  {
    var calls := PublishedCalls(g.published);
    var w := PublishAll(World(Tables(map[], map[]), cache), g.published);
    PublishedCache(cache, g.published);
    CountCache(w.(cache := RememberAll(w.cache, g.statistics)), g.published, g.count);
    RememberConcat(cache, calls, g.statistics);
    RememberConcat(cache, calls + g.statistics, CountCalls(g.published));
  }

  lemma TypedIsSound(t: Tables, ps: seq<Published>)
    requires TypedByKey(t, ps)
    ensures Sound(t)
  {
  }

  /** The same points with the same types and tags, whatever their metrics. */
  ghost predicate SameShape(a: Tables, b: Tables) {
    && a.table == b.table && a.cells.Keys == b.cells.Keys
    && forall c :: c in a.cells ==> a.cells[c].objectType == b.cells[c].objectType && a.cells[c].tags == b.cells[c].tags
  }

  lemma ShapeStep(w: World, t: Tables, s: Sample)
    requires SameShape(w.t, t)
    ensures SameShape(WithStatus(w, s).t, Apply(t, s))
    ensures WithStatus(w, s).cache ==
      Remember(w.cache, Call(s.metricName, CellOrNew(t, CellFor(t, s.obj), s.obj, s.tags).objectType))
  {
    var c := CellFor(w.t, s.obj);
    var v := CellOrNew(w.t, c, s.obj, s.tags);
    assert c == CellFor(t, s.obj);
    StoreShape(w, c, v, s.metricName, v.objectType, s.value);
  }

  /** The point's type is as the gathered values tell. */
  lemma TypeTold(t: Tables, ps: seq<Published>, ss: seq<Sample>, s: Sample)
    requires TypedByKey(t, ps)
    ensures var r := ApplyAll(t, ss);
      Call(s.metricName, CellOrNew(r, CellFor(r, s.obj), s.obj, s.tags).objectType) == StatusCall(ps, s)
  {
    TypedIsSound(t, ps);
    ApplyAllSound(t, ss);
    ApplySound(ApplyAll(t, ss), s);
    if PubKey(s.obj).Some? {
      MergesIff(s.obj, PubKey(s.obj).value);
    }
    MergesIff(s.obj, if s.obj.QueueId? then s.obj.qName else "@self");
  }

  lemma {:induction false} StatusCache(w: World, ps: seq<Published>, ss: seq<Sample>)
    requires TypedByKey(w.t, ps)
    ensures SameShape(AddAll(w, ss).t, ApplyAll(w.t, ss))
    ensures AddAll(w, ss).cache == RememberAll(w.cache, StatusCalls(ps, ss))
  {
    if ss != [] {
      var n := |ss| - 1;
      StatusCache(w, ps, ss[..n]);
      ShapeStep(AddAll(w, ss[..n]), ApplyAll(w.t, ss[..n]), ss[n]);
      TypeTold(w.t, ps, ss[..n], ss[n]);
      RememberConcat(w.cache, StatusCalls(ps, ss[..n]), [StatusCall(ps, ss[n])]);
      RememberOne(RememberAll(w.cache, StatusCalls(ps, ss[..n])), StatusCall(ps, ss[n]));
    }
  }

  lemma CycleCache(cache: map<string, string>, g: Gathered)
    ensures AfterCycle(cache, g).cache == RememberAll(cache, CallsOf(g))
  {
    var w := Opening(cache, g);
    OpeningCache(cache, g);
    StatusCache(w, g.published, StatusOf(g));
    RememberConcat(cache, PublishedCalls(g.published) + g.statistics + CountCalls(g.published),
                   StatusCalls(g.published, StatusOf(g)));
  }

  /** Over any number of cycles, whatever the names, the cache is that of all their conversions in
      order. */
  lemma {:induction false} CacheIsOfAllCalls(cycles: seq<Gathered>)
    ensures CacheOver(cycles) == CacheAfter(AllCalls(cycles))
  {
    if cycles != [] {
      var n := |cycles| - 1;
      CacheIsOfAllCalls(cycles[..n]);
      CycleCache(CacheOver(cycles[..n]), cycles[n]);
      FromEmpty(AllCalls(cycles[..n]));
      RememberConcat(map[], AllCalls(cycles[..n]), CallsOf(cycles[n]));
      FromEmpty(AllCalls(cycles));
    }
  }

  /** So a published value's name comes out wrong exactly if it is a queue's with the prefix and was
      itself converted before, in this cycle or an earlier one. */
  lemma WrongNamesIff(cycles: seq<Gathered>, ps: seq<Published>, p: Published)
    ensures var cache := PublishAll(World(Tables(map[], map[]), CacheOver(cycles)), ps).cache;
      var c := Call(p.metricName, PublishedType(p.key));
      Answer(cache, c) != Camel(KeyOf(c)) <==> Strips(c) && Cached(AllCalls(cycles) + PublishedCalls(ps), p.metricName)
  {
    var calls := AllCalls(cycles) + PublishedCalls(ps);
    CacheIsOfAllCalls(cycles);
    PublishedCache(CacheOver(cycles), ps);
    FromEmpty(AllCalls(cycles));
    RememberConcat(map[], AllCalls(cycles), PublishedCalls(ps));
    FromEmpty(calls);
    CacheAgreement(calls, Call(p.metricName, PublishedType(p.key)));
  }
}
