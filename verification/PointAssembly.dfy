/** The JSON collector building its points in place: metric maps are shared by reference between
    the table of published points and the table of status points, and names go through the cache. */
module PointAssembly {
  import opened NameFixup
  import opened MetricKeys
  import opened PointTables

  // --- as values, with the cache

  datatype World = World(t: Tables, cache: map<string, string>)

  /** One published value: of the queue manager, of a native HA instance, or else of a queue. */
  datatype Published = Published(key: string, metricName: string, value: int, tags: Tags)

  function PublishedType(key: string): string {
    if key == QMGR_MAP_KEY then "qmgr" else if NATIVE_HA_PREFIX <= key then "nha" else "queue"
  }

  function WithCell(w: World, c: Cell, v: CellVal): World {
    w.(t := w.t.(cells := w.t.cells[c := v]))
  }

  function Store(w: World, c: Cell, v: CellVal, metricName: string, nameType: string, value: int): World {
    var call := Call(metricName, nameType);
    WithCell(w, c, v.(metrics := v.metrics[Answer(w.cache, call) := value])).(cache := Remember(w.cache, call))
  }

  lemma StoreInNew(w: World, c: Cell, v: CellVal, metricName: string, nameType: string, value: int)
    ensures Store(WithCell(w, c, v), c, v, metricName, nameType, value) == Store(w, c, v, metricName, nameType, value)
  {
    var call := Call(metricName, nameType);
    OverwriteTwice(w.t.cells, c, v, v.(metrics := v.metrics[Answer(w.cache, call) := value]));
  }

  lemma OverwriteTwice<K, V>(m: map<K, V>, k: K, u: V, v: V)
    ensures m[k := u][k := v] == m[k := v]
  {
  }

  function Publish(w: World, p: Published): World {
    var c := Pub(p.key);
    var v := if c in w.t.cells then w.t.cells[c] else CellVal(PublishedType(p.key), p.tags, map[]);
    Store(w, c, v, p.metricName, v.objectType, p.value)
  }

  function PublishAll(w: World, ps: seq<Published>): World {
    if ps == [] then w else Publish(PublishAll(w, ps[..|ps| - 1]), ps[|ps| - 1])
  }

  const COUNT_NAME := "exporter_publications"

  /** The collector's own count of publications joins the queue manager's point, if there is one. */
  function CountPublications(w: World, count: int): World {
    var c := Pub(QMGR_MAP_KEY);
    if c in w.t.cells then Store(w, c, w.t.cells[c], COUNT_NAME, "", count) else w
  }

  function WithStatus(w: World, s: Sample): World {
    var c := CellFor(w.t, s.obj);
    var v := CellOrNew(w.t, c, s.obj, s.tags);
    var r := Store(w, c, v, s.metricName, v.objectType, s.value);
    r.(t := r.t.(table := w.t.table[Key1(s.obj) := c]))
  }

  function AddAll(w: World, ss: seq<Sample>): World {
    if ss == [] then w else WithStatus(AddAll(w, ss[..|ss| - 1]), ss[|ss| - 1])
  }

  // --- in place

  /** Go's map[string]float64: assigning a point copies the reference to it. */
  class MetricMap {
    var m: map<string, int>

    constructor ()
      ensures m == map[]
    {
      m := map[];
    }
  }

  datatype Point = Point(objectType: string, tags: Tags, metric: MetricMap)

  class Assembler {
    const names: NameCache
    var ptMapPub: map<string, Point>
    var ptMap: map<string, Point>
    ghost var cells: map<Cell, Point>
    ghost var homes: map<string, Cell>

    constructor (names: NameCache)
      ensures this.names == names && Valid() && View() == World(Tables(map[], map[]), names.entries)
      ensures ptMapPub == map[] && ptMap == map[]
    {
      this.names := names;
      ptMapPub, ptMap, cells, homes := map[], map[], map[], map[];
    }

    ghost predicate Distinct()
      reads this`cells
    {
      forall c, d :: c in cells && d in cells && c != d ==> cells[c].metric != cells[d].metric
    }

    /** Different cells have different metric maps; the tables point to the cells. */
    ghost predicate Valid()
      reads this
    {
      Linked() && forall k :: Own(k) in cells ==> k in ptMap
    }

    /** The same, but for cells that no table points to yet. */
    ghost predicate Linked()
      reads this
    {
      && Distinct()
      && (forall k :: k in ptMapPub <==> Pub(k) in cells)
      && (forall k :: k in ptMapPub ==> ptMapPub[k] == cells[Pub(k)])
      && ptMap.Keys == homes.Keys
      && (forall k :: k in ptMap ==> homes[k] in cells && ptMap[k] == cells[homes[k]])
    }

    ghost function Metrics(): set<object>
      reads this`cells
    {
      set c | c in cells :: cells[c].metric
    }

    ghost function CellVals(): map<Cell, CellVal>
      reads this`cells, Metrics()
    {
      map c | c in cells :: CellVal(cells[c].objectType, cells[c].tags, cells[c].metric.m)
    }

    ghost function View(): World
      reads this`cells, this`homes, Metrics(), names
    {
      World(Tables(CellVals(), homes), names.entries)
    }

    method PutMetric(ghost c: Cell, pt: Point, name: string, value: int)
      requires Valid() && c in cells && cells[c] == pt
      modifies pt.metric
      ensures Valid()
      ensures CellVals() == old(CellVals())[c := old(CellVals())[c].(metrics := old(CellVals())[c].metrics[name := value])]
    {
      pt.metric.m := pt.metric.m[name := value];
    }

    /** Sets a metric of a point through its shared map. */
    method SetMetric(ghost c: Cell, pt: Point, metricName: string, nameType: string, value: int)
      requires Valid() && c in cells && cells[c] == pt
      modifies pt.metric, names
      ensures Valid()
      ensures View() == Store(old(View()), c, old(View()).t.cells[c], metricName, nameType, value)
    {
      ghost var w := View();
      var name := names.Fixup(metricName, nameType);
      assert CellVals() == w.t.cells;
      PutMetric(c, pt, name, value);
    }

    method NewPoint(ghost c: Cell, objectType: string, tags: Tags) returns (pt: Point)
      requires Distinct() && c !in cells
      modifies this`cells
      ensures Distinct() && cells == old(cells)[c := pt]
      ensures fresh(pt.metric) && fresh(Metrics() - old(Metrics())) && pt.objectType == objectType
      ensures CellVals() == old(CellVals())[c := CellVal(objectType, tags, map[])]
    {
      var metric := new MetricMap();
      pt := Point(objectType, tags, metric);
      cells := cells[c := pt];
    }

    /** A new point, already under its key among the published. */
    method NewPublished(key: string, tags: Tags) returns (pt: Point)
      requires Valid() && key !in ptMapPub
      modifies this`ptMapPub, this`cells
      ensures Valid() && fresh(pt.metric) && Pub(key) in cells && cells[Pub(key)] == pt
      ensures fresh(Metrics() - old(Metrics()))
      ensures View() == WithCell(old(View()), Pub(key), CellVal(PublishedType(key), tags, map[]))
    {
      pt := NewPoint(Pub(key), PublishedType(key), tags);
      EnterPublished(key, pt);
    }

    method EnterPublished(key: string, pt: Point)
      modifies this`ptMapPub
      ensures ptMapPub == old(ptMapPub)[key := pt] && CellVals() == old(CellVals())
    {
      ptMapPub := ptMapPub[key := pt];
    }

    method AddPublished(p: Published)
      requires Valid()
      modifies this`ptMapPub, this`cells, Metrics(), names
      ensures Valid() && fresh(Metrics() - old(Metrics()))
      ensures View() == Publish(old(View()), p)
    {
      var pt;
      if p.key in ptMapPub {
        pt := ptMapPub[p.key];
      } else {
        pt := NewPublished(p.key, p.tags);
        StoreInNew(old(View()), Pub(p.key), CellVal(PublishedType(p.key), p.tags, map[]),
                   p.metricName, pt.objectType, p.value);
      }
      SetMetric(Pub(p.key), pt, p.metricName, pt.objectType, p.value);
    }

    method AddCount(count: int)
      requires Valid()
      modifies Metrics(), names
      ensures Valid() && Metrics() == old(Metrics())
      ensures View() == CountPublications(old(View()), count)
    {
      if QMGR_MAP_KEY in ptMapPub {
        SetMetric(Pub(QMGR_MAP_KEY), ptMapPub[QMGR_MAP_KEY], COUNT_NAME, "", count);
      }
    }

    /** A new point, already under its key in the status table. */
    method NewOwn(key1: string, objectType: string, tags: Tags) returns (pt: Point)
      requires Valid() && key1 !in ptMap
      modifies this`ptMap, this`cells, this`homes
      ensures Valid() && fresh(pt.metric) && Own(key1) in cells && cells[Own(key1)] == pt
      ensures fresh(Metrics() - old(Metrics())) && pt.objectType == objectType
      ensures homes == old(homes)[key1 := Own(key1)] && ptMap == old(ptMap)[key1 := pt]
      ensures View().t.cells == old(View()).t.cells[Own(key1) := CellVal(objectType, tags, map[])]
      ensures View().cache == old(View()).cache
    {
      pt := NewPoint(Own(key1), objectType, tags);
      Enter(key1, pt, Own(key1));
    }

    /** A point under its key in the status table. */
    method Enter(key1: string, pt: Point, ghost c: Cell)
      requires Linked() && c in cells && cells[c] == pt
      modifies this`ptMap, this`homes
      ensures Linked() && CellVals() == old(CellVals())
      ensures homes == old(homes)[key1 := c] && ptMap == old(ptMap)[key1 := pt]
    {
      ptMap := ptMap[key1 := pt];
      homes := homes[key1 := c];
    }

    /** The point a status value belongs to, found or new, and the cell it stands for. */
    method FindOrAdd(o: ObjectId, tags: Tags) returns (pt: Point, ghost c: Cell)
      requires Valid()
      modifies this`ptMap, this`cells, this`homes
      ensures Valid() && fresh(Metrics() - old(Metrics()))
      ensures c == CellFor(old(View()).t, o) && c in cells && cells[c] == pt
      ensures View().t.cells == old(View()).t.cells[c := CellOrNew(old(View()).t, c, o, tags)]
      ensures homes[Key1(o) := c] == old(homes)[Key1(o) := c] && View().cache == old(View()).cache
    {
      var key1 := Key1(o);
      if PubKey(o).Some? && PubKey(o).value in ptMapPub {
        pt := ptMapPub[PubKey(o).value];
        c := Pub(PubKey(o).value);
        assert old(View()).t.cells[c := old(View()).t.cells[c]] == old(View()).t.cells;
      } else if key1 in ptMap {
        pt := ptMap[key1];
        c := homes[key1];
        assert old(View()).t.cells[c := old(View()).t.cells[c]] == old(View()).t.cells;
      } else {
        pt := NewOwn(key1, TypeOf(o), tags);
        c := Own(key1);
        OverwriteTwice(old(homes), key1, c, c);
      }
    }

    method StoreEntry(key1: string, pt: Point, ghost c: Cell)
      requires Valid() && c in cells && cells[c] == pt
      modifies this`ptMap, this`homes
      ensures Valid() && Metrics() == old(Metrics())
      ensures View() == old(View()).(t := old(View()).t.(table := old(homes)[key1 := c]))
    {
      Enter(key1, pt, c);
    }

    /** One status value: its metric goes into the point's map, wherever else that map is held. */
    method AddStatus(s: Sample)
      requires Valid()
      modifies this`ptMap, this`cells, this`homes, Metrics(), names
      ensures Valid() && fresh(Metrics() - old(Metrics()))
      ensures View() == WithStatus(old(View()), s)
    {
      var pt, c := FindOrAdd(s.obj, s.tags);
      ghost var v := CellOrNew(old(View()).t, c, s.obj, s.tags);
      ghost var w := View();
      SetMetric(c, pt, s.metricName, pt.objectType, s.value);
      StoreFound(old(View()), w, c, v, s);
      StoreEntry(Key1(s.obj), pt, c);
    }

    method AddMany(ss: seq<Sample>)
      requires Valid()
      modifies this`ptMap, this`cells, this`homes, Metrics(), names
      ensures Valid() && fresh(Metrics() - old(Metrics()))
      ensures View() == AddAll(old(View()), ss)
    {
      for i := 0 to |ss|
        invariant Valid() && fresh(Metrics() - old(Metrics()))
        invariant View() == AddAll(old(View()), ss[..i])
      {
        assert ss[..i + 1][..i] == ss[..i];
        AddStatus(ss[i]);
      }
      assert ss[..|ss|] == ss;
    }

    /** The polled status: for each channel attribute its own values, and inside that same loop the
        values of all other objects, listed anew each time. */
    method AssembleStatus(channels: seq<seq<Sample>>, nested: seq<seq<Sample>>)
      requires Valid() && |channels| == |nested|
      modifies this`ptMap, this`cells, this`homes, Metrics(), names
      ensures Valid() && fresh(Metrics() - old(Metrics()))
      ensures View() == AddAll(old(View()), Processed(channels, nested))
    {
      ghost var start := View();
      for i := 0 to |channels|
        invariant Valid() && fresh(Metrics() - old(Metrics()))
        invariant View() == AddAll(start, Processed(channels[..i], nested[..i]))
      {
        ProcessedStep(start, channels, nested, i);
        AddAttribute(channels[i], nested[i]);
      }
      assert channels[..|channels|] == channels && nested[..|nested|] == nested;
    }

    method AddAttribute(channel: seq<Sample>, others: seq<Sample>)
      requires Valid()
      modifies this`ptMap, this`cells, this`homes, Metrics(), names
      ensures Valid() && fresh(Metrics() - old(Metrics()))
      ensures View() == AddAll(AddAll(old(View()), channel), others)
    {
      AddMany(channel);
      AddMany(others);
    }

    /** A polled queue or queue manager whose point is among the published: both tables hold the very
        same point, so both emitted copies show the same metric map; and no other published point
        shares it. */
    lemma SharedPoint(o: ObjectId, key: string)
      requires Valid() && Sound(View().t)
      requires Key1(o) in ptMap && Merges(o, key) && key in ptMapPub
      ensures ptMap[Key1(o)] == ptMapPub[key]
      ensures forall k :: k in ptMapPub && ptMapPub[k].metric == ptMap[Key1(o)].metric ==> k == key
    {
      MergesIff(o, key);
    }

    /** Any other polled object has a point of its own, which neither a published point nor another
        object's entry shares. */
    lemma SeparatePoint(o: ObjectId)
      requires Valid() && Sound(View().t)
      requires Key1(o) in ptMap && forall key :: Merges(o, key) ==> key !in ptMapPub
      ensures forall k :: k in ptMapPub ==> ptMapPub[k].metric != ptMap[Key1(o)].metric
      ensures forall p :: Key1(p) in ptMap && Key1(p) != Key1(o) ==> ptMap[Key1(p)].metric != ptMap[Key1(o)].metric
    {
      if PubKey(o).Some? {
        MergesIff(o, PubKey(o).value);
      }
      assert homes[Key1(o)] == Own(Key1(o));
    }
  }

  lemma StoreFound(start: World, w: World, c: Cell, v: CellVal, s: Sample)
    requires c == CellFor(start.t, s.obj) && v == CellOrNew(start.t, c, s.obj, s.tags)
    requires w.t.cells == start.t.cells[c := v] && w.cache == start.cache
    ensures var r := Store(w, c, v, s.metricName, v.objectType, s.value);
      WithStatus(start, s) == r.(t := r.t.(table := start.t.table[Key1(s.obj) := c]))
  {
    var call := Call(s.metricName, v.objectType);
    OverwriteTwice(start.t.cells, c, v, v.(metrics := v.metrics[Answer(start.cache, call) := s.value]));
  }

  lemma {:induction false} AddAllConcat(w: World, a: seq<Sample>, b: seq<Sample>)
    ensures AddAll(w, a + b) == AddAll(AddAll(w, a), b)
    decreases |b|
  {
    if b == [] {
      assert a + b == a;
    } else {
      var n := |b| - 1;
      assert (a + b)[..|a + b| - 1] == a + b[..n];
      AddAllConcat(w, a, b[..n]);
    }
  }

  lemma ProcessedStep(w: World, channels: seq<seq<Sample>>, nested: seq<seq<Sample>>, i: nat)
    requires i < |channels| == |nested|
    ensures AddAll(w, Processed(channels[..i + 1], nested[..i + 1]))
      == AddAll(AddAll(AddAll(w, Processed(channels[..i], nested[..i])), channels[i]), nested[i])
  {
    assert channels[..i + 1][..i] == channels[..i] && nested[..i + 1][..i] == nested[..i];
    AddAllConcat(w, Processed(channels[..i], nested[..i]) + channels[i], nested[i]);
    AddAllConcat(w, Processed(channels[..i], nested[..i]), channels[i]);
  }

  // --- when the cache does not show

  /** The name types under which a sample may be converted belong to the vocabulary. */
  ghost predicate Covered(t: Tables, s: Sample, vocabulary: set<Call>) {
    var c := Home(t, s.obj);
    Call(s.metricName, if c.Pub? && c in t.cells then t.cells[c].objectType else TypeOf(s.obj)) in vocabulary
  }

  lemma OneWithoutCache(w: World, s: Sample, vocabulary: set<Call>)
    requires Sound(w.t) && Honest(w.cache, vocabulary) && ClashFree(vocabulary) && Covered(w.t, s, vocabulary)
    ensures WithStatus(w, s).t == Apply(w.t, s) && Honest(WithStatus(w, s).cache, vocabulary)
  {
    var c := CellFor(w.t, s.obj);
    var v := CellOrNew(w.t, c, s.obj, s.tags);
    HonestAnswer(w.cache, vocabulary, Call(s.metricName, v.objectType));
  }

  /** Over a clash-free vocabulary the cache has no influence on the tables. */
  lemma {:induction false} WithoutCache(w: World, ss: seq<Sample>, vocabulary: set<Call>)
    requires Sound(w.t) && Honest(w.cache, vocabulary) && ClashFree(vocabulary)
    requires forall s :: s in ss ==> Covered(w.t, s, vocabulary)
    ensures AddAll(w, ss).t == ApplyAll(w.t, ss) && Honest(AddAll(w, ss).cache, vocabulary)
  {
    if ss != [] {
      var n := |ss| - 1;
      WithoutCache(w, ss[..n], vocabulary);
      ApplyAllSound(w.t, ss[..n]);
      StableNames(w.t, ss[..n], ss[n]);
      assert ss[n] in ss;
      OneWithoutCache(AddAll(w, ss[..n]), ss[n], vocabulary);
    }
  }

  /** The whole assembly of a polling cycle, cache and repetition included, equals one plain pass
      over the channels' and all other objects' values, provided there is at least one channel
      attribute, the names are clash-free and the samples consistent. */
  lemma AssemblyIsOnePass(w: World, channels: seq<seq<Sample>>, nested: seq<seq<Sample>>, others: seq<Sample>,
                          vocabulary: set<Call>)
    requires Sound(w.t) && Honest(w.cache, vocabulary) && ClashFree(vocabulary)
    requires |channels| == |nested| >= 1
    requires forall i :: 0 <= i < |nested| ==> SameSamples(nested[i], others)
    requires Consistent(w.t, Flat(channels) + others)
    requires forall s :: s in Flat(channels) + others ==> Covered(w.t, s, vocabulary)
    ensures AddAll(w, Processed(channels, nested)).t == ApplyAll(w.t, Flat(channels) + others)
  {
    var all := Processed(channels, nested);
    forall s | s in all
      ensures Covered(w.t, s, vocabulary)
    {
      ProcessedSamples(channels, nested, s);
      FlatOfListings(nested, others, s);
      assert s in Flat(channels) + others;
    }
    WithoutCache(w, all, vocabulary);
    NestedBlockIsOnePass(w.t, channels, nested, others);
  }
}
