/** The JSON collector's points as values: one table of published points, one of status points,
    some of whose entries are the published points themselves. A point's metrics live in a cell,
    so that two entries naming the same cell always show the same metrics. */
module PointTables {
  import opened Options
  import opened NameFixup
  import opened MetricKeys
  import opened Strings

  type Tags = map<string, string>

  /** The objects whose status is polled. */
  datatype ObjectId =
    | ChannelId(name: string, connName: string, jobName: string, rqmName: string)
    | QueueId(qName: string)
    | TopicId(topicKey: string)
    | QMgrId(qMgrName: string)
    | SubId(subId: string)
    | ClusterId(clusterName: string)
    | BufferPoolId(bpId: string)
    | PageSetId(psId: string)
    | AmqpId(amqpChannel: string, amqpConn: string, amqpClient: string)
    | MqttId(mqttChannel: string, mqttConn: string, mqttClient: string)

  /** The key of an object's entry in the status table. */
  function Key1(o: ObjectId): string {
    match o
    case ChannelId(name, conn, job, rqm) => "channel/" + name + "/" + conn + "/" + job + "/" + rqm
    case QueueId(q) => "queue/" + q
    case TopicId(k) => "topic/" + k
    case QMgrId(q) => "qmgr/" + q
    case SubId(id) => "subscription/" + id
    case ClusterId(c) => "cluster/" + c
    case BufferPoolId(b) => "bufferpool/" + b
    case PageSetId(p) => "pageset/" + p
    case AmqpId(c, n, id) => "amqp/" + c + "/" + n + "/" + id
    case MqttId(c, n, id) => "mqtt/" + c + "/" + n + "/" + id
  }

  /** Where its point is looked for first: queues and the queue manager among the published. */
  function PubKey(o: ObjectId): Option<string> {
    match o
    case QueueId(q) => Some(q)
    case QMgrId(_) => Some(QMGR_MAP_KEY)
    case _ => None
  }

  /** The object type a new point gets; a cluster's says "subscription". */
  function TypeOf(o: ObjectId): string {
    match o
    case ChannelId(_, _, _, _) => "channel"
    case QueueId(_) => "queue"
    case TopicId(_) => "topic"
    case QMgrId(_) => "qmgr"
    case SubId(_) => "subscription"
    case ClusterId(_) => "subscription"
    case BufferPoolId(_) => "bufferpool"
    case PageSetId(_) => "pageset"
    case AmqpId(_, _, _) => "amqp"
    case MqttId(_, _, _) => "mqtt"
  }

  /** One status value that passes the filters, with the tags its object's new point would get. */
  datatype Sample = Sample(obj: ObjectId, metricName: string, value: int, tags: Tags)

  /** The kinds' prefixes differ in their first two characters. */
  function Initials(o: ObjectId): string {
    match o
    case ChannelId(_, _, _, _) => "ch"
    case QueueId(_) => "qu"
    case TopicId(_) => "to"
    case QMgrId(_) => "qm"
    case SubId(_) => "su"
    case ClusterId(_) => "cl"
    case BufferPoolId(_) => "bu"
    case PageSetId(_) => "pa"
    case AmqpId(_, _, _) => "am"
    case MqttId(_, _, _) => "mq"
  }

  lemma KeyInitials(o: ObjectId)
    ensures |Key1(o)| >= 2 && Key1(o)[0] == Initials(o)[0] && Key1(o)[1] == Initials(o)[1]
  {
  }

  /** Objects with the same status key are looked up and typed alike. */
  lemma SameKeyAlike(o: ObjectId, p: ObjectId)
    requires Key1(o) == Key1(p)
    ensures PubKey(o) == PubKey(p) && TypeOf(o) == TypeOf(p)
  {
    KeyInitials(o);
    KeyInitials(p);
    if o.QueueId? {
      assert p.QueueId?;
      assert Key1(o)[|"queue/"|..] == o.qName && Key1(p)[|"queue/"|..] == p.qName;
    }
  }

  // --- which objects share a point

  /** A queue's point is the one published under its name, the queue manager's the one published
      under the special key, whatever its name. */
  predicate Merges(o: ObjectId, key: string) {
    (o.QueueId? && o.qName == key) || (o.QMgrId? && key == "@self")
  }

  lemma MergesIff(o: ObjectId, key: string)
    ensures PubKey(o) == Some(key) <==> Merges(o, key)
  {
  }

  /** A kind's name and the parts that tell objects of that kind apart. */
  function Parts(o: ObjectId): seq<string> {
    match o
    case ChannelId(name, conn, job, rqm) => ["channel", name, conn, job, rqm]
    case QueueId(q) => ["queue", q]
    case TopicId(k) => ["topic", k]
    case QMgrId(q) => ["qmgr", q]
    case SubId(id) => ["subscription", id]
    case ClusterId(c) => ["cluster", c]
    case BufferPoolId(b) => ["bufferpool", b]
    case PageSetId(p) => ["pageset", p]
    case AmqpId(c, n, id) => ["amqp", c, n, id]
    case MqttId(c, n, id) => ["mqtt", c, n, id]
  }

  lemma {:induction false} JoinLast(ps: seq<string>, x: string)
    requires ps != []
    ensures Join(ps + [x], '/') == Join(ps, '/') + "/" + x
  {
    assert (ps + [x])[1..] == ps[1..] + [x];
    if |ps| > 1 {
      JoinLast(ps[1..], x);
    }
  }

  lemma JoinTwo(kind: string, a: string)
    ensures Join([kind, a], '/') == kind + "/" + a
  {
    assert [kind, a][1..] == [a];
  }

  lemma JoinFour(kind: string, a: string, b: string, c: string)
    ensures Join([kind, a, b, c], '/') == kind + "/" + a + "/" + b + "/" + c
  {
    JoinTwo(kind, a);
    JoinLast([kind, a], b);
    JoinLast([kind, a, b], c);
    assert [kind, a] + [b] == [kind, a, b] && [kind, a, b] + [c] == [kind, a, b, c];
  }

  lemma JoinedKey(o: ObjectId)
    ensures Key1(o) == Join(Parts(o), '/')
  {
    if o.ChannelId? {
      JoinedChannelKey(o);
    } else if o.AmqpId? || o.MqttId? {
      JoinedClientKey(o);
    } else {
      JoinedShortKey(o);
    }
  }

  lemma JoinedChannelKey(o: ObjectId)
    requires o.ChannelId?
    ensures Key1(o) == Join(Parts(o), '/')
  {
    JoinFour("channel", o.name, o.connName, o.jobName);
    JoinLast(["channel", o.name, o.connName, o.jobName], o.rqmName);
    assert ["channel", o.name, o.connName, o.jobName] + [o.rqmName] == Parts(o);
    assert "channel" + "/" == "channel/";
  }

  lemma JoinedClientKey(o: ObjectId)
    requires o.AmqpId? || o.MqttId?
    ensures Key1(o) == Join(Parts(o), '/')
  {
    var ps := Parts(o);
    JoinFour(ps[0], ps[1], ps[2], ps[3]);
    assert "amqp" + "/" == "amqp/" && "mqtt" + "/" == "mqtt/";
  }

  lemma JoinedShortKey(o: ObjectId)
    requires |Parts(o)| == 2
    ensures Key1(o) == Join(Parts(o), '/')
  {
    var kind, a := Parts(o)[0], Parts(o)[1];
    assert Parts(o) == [kind, a];
    JoinTwo(kind, a);
    ShortKey(o);
  }

  lemma ShortKey(o: ObjectId)
    requires |Parts(o)| == 2
    ensures Key1(o) == Parts(o)[0] + "/" + Parts(o)[1]
  {
  }

  lemma PartsTellApart(o: ObjectId, p: ObjectId)
    requires Parts(o) == Parts(p)
    ensures o == p
  {
    var ps := Parts(o);
    assert ps[0] == Parts(p)[0] && ps[1] == Parts(p)[1];
    if |ps| > 2 {
      assert ps[2] == Parts(p)[2] && ps[3] == Parts(p)[3];
      if |ps| == 5 {
        assert ps[4] == Parts(p)[4];
      }
    }
  }

  /** Different objects have different entries in the status table, of whatever kinds, as long as
      no part of their names holds a slash. */
  lemma DifferentObjectsDifferentEntries(o: ObjectId, p: ObjectId)
    requires FreeOf(Parts(o), '/') && FreeOf(Parts(p), '/')
    ensures Key1(o) == Key1(p) <==> o == p
  {
    JoinedKey(o);
    JoinedKey(p);
    SplitOfJoin(Parts(o), '/');
    SplitOfJoin(Parts(p), '/');
    if Key1(o) == Key1(p) {
      PartsTellApart(o, p);
    }
  }

  /** A kind with a single part needs no such condition. */
  lemma OnePartIsEnough(o: ObjectId, p: ObjectId)
    requires |Parts(o)| == 2
    ensures Key1(o) == Key1(p) <==> o == p
  {
    if Key1(o) == Key1(p) {
      KeyInitials(o);
      KeyInitials(p);
      var n := |Parts(o)[0]| + 1;
      assert Key1(o)[n..] == Parts(o)[1] && Key1(p)[n..] == Parts(p)[1];
    }
  }

  /** The pieces between slashes of some texts, one after another. */
  function Pieces(parts: seq<string>): seq<string> {
    if parts == [] then [] else Split(parts[0], '/') + Pieces(parts[1..])
  }

  lemma {:induction false} SplitPieces(parts: seq<string>)
    requires parts != []
    ensures Split(Join(parts, '/'), '/') == Pieces(parts)
  {
    if |parts| == 1 {
      assert Pieces(parts[1..]) == [];
    } else {
      SplitConcat(parts[0], Join(parts[1..], '/'), '/');
      SplitPieces(parts[1..]);
    }
  }

  /** In general two objects share an entry exactly if their names fall into the same pieces between
      slashes, wherever one part ends and the next begins. */
  lemma SameEntryIff(o: ObjectId, p: ObjectId)
    ensures Key1(o) == Key1(p) <==> Pieces(Parts(o)) == Pieces(Parts(p))
  {
    JoinedKey(o);
    JoinedKey(p);
    SplitPieces(Parts(o));
    SplitPieces(Parts(p));
    JoinOfSplit(Key1(o), '/');
    JoinOfSplit(Key1(p), '/');
  }

  /** So two channel instances with slashes in their names may share an entry, and so a point. */
  lemma SlashesMayMerge()
    ensures Key1(ChannelId("A/B", "C", "J", "R")) == Key1(ChannelId("A", "B/C", "J", "R"))
  {
  }

  /** An entry begins with its object's type, but for a cluster's, which has the type of a subscription. */
  lemma EntryTellsTheType(o: ObjectId)
    ensures if o.ClusterId? then "cluster/" <= Key1(o) && TypeOf(o) == "subscription" else TypeOf(o) + "/" <= Key1(o)
  {
  }

  // --- cells and tables

  /** Where a point's metrics live: with a published key, or with a status key of its own. */
  datatype Cell = Pub(key: string) | Own(key1: string)

  datatype CellVal = CellVal(objectType: string, tags: Tags, metrics: map<string, int>)

  datatype Tables = Tables(cells: map<Cell, CellVal>, table: map<string, Cell>)

  /** The cell an object's status goes to. */
  function Home(t: Tables, o: ObjectId): Cell {
    if PubKey(o).Some? && Pub(PubKey(o).value) in t.cells then Pub(PubKey(o).value) else Own(Key1(o))
  }

  /** The same, as the source looks it up: published table, status table, else a new point. */
  function CellFor(t: Tables, o: ObjectId): Cell {
    if PubKey(o).Some? && Pub(PubKey(o).value) in t.cells then Pub(PubKey(o).value)
    else if Key1(o) in t.table then t.table[Key1(o)]
    else Own(Key1(o))
  }

  /** The status table leads every key to its home, and own cells have their object's type. */
  ghost predicate Sound(t: Tables) {
    && (forall o :: Key1(o) in t.table ==> t.table[Key1(o)] == Home(t, o) && Home(t, o) in t.cells)
    && (forall o :: Own(Key1(o)) in t.cells ==> t.cells[Own(Key1(o))].objectType == TypeOf(o))
  }

  function FixedName(metricName: string, objectType: string): string {
    Camel(KeyOf(Call(metricName, objectType)))
  }

  function CellOrNew(t: Tables, c: Cell, o: ObjectId, tags: Tags): CellVal {
    if c in t.cells then t.cells[c] else CellVal(TypeOf(o), tags, map[])
  }

  function SetMetric(v: CellVal, metricName: string, value: int): CellVal {
    v.(metrics := v.metrics[FixedName(metricName, v.objectType) := value])
  }

  /** One status value: found or new point, metric set, entry stored in the status table. */
  function Apply(t: Tables, s: Sample): Tables {
    var c := CellFor(t, s.obj);
    var v := CellOrNew(t, c, s.obj, s.tags);
    Tables(t.cells[c := SetMetric(v, s.metricName, s.value)], t.table[Key1(s.obj) := c])
  }

  function ApplyAll(t: Tables, ss: seq<Sample>): Tables {
    if ss == [] then t else Apply(ApplyAll(t, ss[..|ss| - 1]), ss[|ss| - 1])
  }

  /** The name a value is stored under. */
  function NameOf(t: Tables, s: Sample): string {
    var c := Home(t, s.obj);
    FixedName(s.metricName, if c.Pub? && c in t.cells then t.cells[c].objectType else TypeOf(s.obj))
  }

  // --- what one sample, and then any series of samples, leaves behind

  lemma ApplySound(t: Tables, s: Sample)
    requires Sound(t)
    ensures CellFor(t, s.obj) == Home(t, s.obj)
    ensures var r := Apply(t, s);
      && (forall k :: Pub(k) in r.cells <==> Pub(k) in t.cells)
      && (forall k :: Pub(k) in t.cells ==> r.cells[Pub(k)].objectType == t.cells[Pub(k)].objectType)
  {
  }

  lemma ApplyKeepsSound(t: Tables, s: Sample)
    requires Sound(t)
    ensures Sound(Apply(t, s))
  {
    ApplySound(t, s);
    var r := Apply(t, s);
    forall o | Key1(o) in r.table
      ensures r.table[Key1(o)] == Home(r, o) && Home(r, o) in r.cells
    {
      if Key1(o) == Key1(s.obj) {
        SameKeyAlike(o, s.obj);
      }
      assert Home(r, o) == Home(t, o);
    }
    forall o | Own(Key1(o)) in r.cells
      ensures r.cells[Own(Key1(o))].objectType == TypeOf(o)
    {
      if Key1(o) == Key1(s.obj) {
        SameKeyAlike(o, s.obj);
      }
    }
  }

  lemma {:induction false} ApplyAllSound(t: Tables, ss: seq<Sample>)
    requires Sound(t)
    ensures var r := ApplyAll(t, ss);
      && Sound(r)
      && (forall k :: Pub(k) in r.cells <==> Pub(k) in t.cells)
      && (forall k :: Pub(k) in t.cells ==> r.cells[Pub(k)].objectType == t.cells[Pub(k)].objectType)
  {
    if ss != [] {
      var n := |ss| - 1;
      ApplyAllSound(t, ss[..n]);
      ApplySound(ApplyAll(t, ss[..n]), ss[n]);
      ApplyKeepsSound(ApplyAll(t, ss[..n]), ss[n]);
    }
  }

  /** Homes and names never change while status values are added. */
  lemma StableNames(t: Tables, ss: seq<Sample>, s: Sample)
    requires Sound(t)
    ensures Home(ApplyAll(t, ss), s.obj) == Home(t, s.obj)
    ensures NameOf(ApplyAll(t, ss), s) == NameOf(t, s)
  {
    ApplyAllSound(t, ss);
  }

  /** The value of one metric in one cell. */
  function Val(t: Tables, c: Cell, n: string): Option<int> {
    if c in t.cells && n in t.cells[c].metrics then Some(t.cells[c].metrics[n]) else None
  }

  /** A cell's object type and tags. */
  function Head(t: Tables, c: Cell): Option<(string, Tags)> {
    if c in t.cells then Some((t.cells[c].objectType, t.cells[c].tags)) else None
  }

  function Entry(t: Tables, k: string): Option<Cell> {
    if k in t.table then Some(t.table[k]) else None
  }

  predicate Hits(t: Tables, s: Sample, c: Cell, n: string) {
    Home(t, s.obj) == c && NameOf(t, s) == n
  }

  lemma ApplyEffect(t: Tables, s: Sample, c: Cell, n: string, k: string)
    requires Sound(t)
    ensures Val(Apply(t, s), c, n) == if Hits(t, s, c, n) then Some(s.value) else Val(t, c, n)
    ensures Head(Apply(t, s), c) ==
      if Head(t, c).Some? then Head(t, c)
      else if Home(t, s.obj) == c then Some((TypeOf(s.obj), s.tags)) else None
    ensures Entry(Apply(t, s), k) == if k == Key1(s.obj) then Some(Home(t, s.obj)) else Entry(t, k)
  {
  }

  function LastHit(t: Tables, ss: seq<Sample>, c: Cell, n: string): Option<int> {
    if ss == [] then None
    else
      var m := |ss| - 1;
      if Hits(t, ss[m], c, n) then Some(ss[m].value) else LastHit(t, ss[..m], c, n)
  }

  function FirstAt(t: Tables, ss: seq<Sample>, c: Cell): Option<(string, Tags)> {
    if ss == [] then None
    else if Home(t, ss[0].obj) == c then Some((TypeOf(ss[0].obj), ss[0].tags))
    else FirstAt(t, ss[1..], c)
  }

  function LastEntry(t: Tables, ss: seq<Sample>, k: string): Option<Cell> {
    if ss == [] then None
    else
      var m := |ss| - 1;
      if Key1(ss[m].obj) == k then Some(Home(t, ss[m].obj)) else LastEntry(t, ss[..m], k)
  }

  lemma {:induction false} FirstAtExtends(t: Tables, ss: seq<Sample>, s: Sample, c: Cell)
    ensures FirstAt(t, ss + [s], c) == FirstAt(t, ss, c).Or(FirstAt(t, [s], c))
  {
    if ss == [] {
      assert ss + [s] == [s];
    } else {
      assert (ss + [s])[1..] == ss[1..] + [s];
      FirstAtExtends(t, ss[1..], s, c);
    }
  }

  lemma {:induction false} AfterAll(t: Tables, ss: seq<Sample>, c: Cell, n: string, k: string)
    requires Sound(t)
    ensures var r := ApplyAll(t, ss);
      && Val(r, c, n) == LastHit(t, ss, c, n).Or(Val(t, c, n))
      && Head(r, c) == Head(t, c).Or(FirstAt(t, ss, c))
      && Entry(r, k) == LastEntry(t, ss, k).Or(Entry(t, k))
  {
    if ss != [] {
      var m := |ss| - 1;
      AfterAll(t, ss[..m], c, n, k);
      ApplyAllSound(t, ss[..m]);
      StableNames(t, ss[..m], ss[m]);
      ApplyEffect(ApplyAll(t, ss[..m]), ss[m], c, n, k);
      assert ss == ss[..m] + [ss[m]];
      FirstAtExtends(t, ss[..m], ss[m], c);
      assert [ss[m]][1..] == [];
    }
  }

  // --- order and repetition do not matter

  /** Samples with the same home and stored name agree in value, and samples of the same status key
      in tags: metric names stay different after conversion, and an object has one set of tags. */
  ghost predicate Consistent(t: Tables, ss: seq<Sample>) {
    && (forall i, j :: 0 <= i < |ss| && 0 <= j < |ss|
          && Home(t, ss[i].obj) == Home(t, ss[j].obj) && NameOf(t, ss[i]) == NameOf(t, ss[j])
          ==> ss[i].value == ss[j].value)
    && (forall i, j :: 0 <= i < |ss| && 0 <= j < |ss| && Key1(ss[i].obj) == Key1(ss[j].obj)
          ==> ss[i].tags == ss[j].tags)
  }

  /** The same samples, in any order and any number of times. */
  ghost predicate SameSamples(a: seq<Sample>, b: seq<Sample>) {
    && (forall i :: 0 <= i < |a| ==> a[i] in b)
    && (forall i :: 0 <= i < |b| ==> b[i] in a)
  }

  lemma {:induction false} LastHitIs(t: Tables, ss: seq<Sample>, c: Cell, n: string) returns (i: nat)
    ensures LastHit(t, ss, c, n).Some? ==>
      i < |ss| && Hits(t, ss[i], c, n) && LastHit(t, ss, c, n) == Some(ss[i].value)
    ensures LastHit(t, ss, c, n).None? ==> NoHit(t, ss, c, n)
  {
    i := 0;
    if ss != [] {
      i := |ss| - 1;
      if !Hits(t, ss[i], c, n) {
        i := LastHitIs(t, ss[..|ss| - 1], c, n);
        NoHitStep(t, ss, c, n);
      }
    }
  }

  ghost predicate NoHit(t: Tables, ss: seq<Sample>, c: Cell, n: string) {
    forall k :: 0 <= k < |ss| ==> !Hits(t, ss[k], c, n)
  }

  lemma NoHitStep(t: Tables, ss: seq<Sample>, c: Cell, n: string)
    requires ss != [] && !Hits(t, ss[|ss| - 1], c, n)
    ensures NoHit(t, ss[..|ss| - 1], c, n) ==> NoHit(t, ss, c, n)
  {
    if NoHit(t, ss[..|ss| - 1], c, n) {
      forall k | 0 <= k < |ss|
        ensures !Hits(t, ss[k], c, n)
      {
        assert k < |ss| - 1 ==> !Hits(t, ss[..|ss| - 1][k], c, n);
      }
    }
  }

  lemma {:induction false} FirstAtIs(t: Tables, ss: seq<Sample>, c: Cell) returns (i: nat)
    ensures FirstAt(t, ss, c).Some? ==>
      i < |ss| && Home(t, ss[i].obj) == c && FirstAt(t, ss, c) == Some((TypeOf(ss[i].obj), ss[i].tags))
    ensures FirstAt(t, ss, c).None? ==> forall k :: 0 <= k < |ss| ==> Home(t, ss[k].obj) != c
  {
    i := 0;
    if ss != [] && Home(t, ss[0].obj) != c {
      i := FirstAtIs(t, ss[1..], c);
      i := i + 1;
    }
  }

  lemma {:induction false} LastEntryIs(t: Tables, ss: seq<Sample>, k: string) returns (i: nat)
    ensures LastEntry(t, ss, k).Some? ==>
      i < |ss| && Key1(ss[i].obj) == k && LastEntry(t, ss, k) == Some(Home(t, ss[i].obj))
    ensures LastEntry(t, ss, k).None? ==> NoEntry(ss, k)
  {
    i := 0;
    if ss != [] {
      i := |ss| - 1;
      if Key1(ss[i].obj) != k {
        i := LastEntryIs(t, ss[..|ss| - 1], k);
        NoEntryStep(ss, k);
      }
    }
  }

  ghost predicate NoEntry(ss: seq<Sample>, k: string) {
    forall m :: 0 <= m < |ss| ==> Key1(ss[m].obj) != k
  }

  lemma NoEntryStep(ss: seq<Sample>, k: string)
    requires ss != [] && Key1(ss[|ss| - 1].obj) != k
    ensures NoEntry(ss[..|ss| - 1], k) ==> NoEntry(ss, k)
  {
    if NoEntry(ss[..|ss| - 1], k) {
      forall m | 0 <= m < |ss|
        ensures Key1(ss[m].obj) != k
      {
        assert m < |ss| - 1 ==> Key1(ss[..|ss| - 1][m].obj) != k;
      }
    }
  }

  lemma SameLastHit(t: Tables, a: seq<Sample>, b: seq<Sample>, c: Cell, n: string)
    requires Consistent(t, a) && SameSamples(a, b)
    ensures LastHit(t, a, c, n) == LastHit(t, b, c, n)
  {
    var i := LastHitIs(t, a, c, n);
    var j := LastHitIs(t, b, c, n);
    if LastHit(t, a, c, n).Some? {
      assert a[i] in b;
    }
    if LastHit(t, b, c, n).Some? {
      assert b[j] in a;
    }
  }

  lemma SameFirstAt(t: Tables, a: seq<Sample>, b: seq<Sample>, c: Cell)
    requires Consistent(t, a) && SameSamples(a, b) && (c.Pub? ==> c in t.cells)
    ensures Head(t, c).Or(FirstAt(t, a, c)) == Head(t, c).Or(FirstAt(t, b, c))
  {
    var i := FirstAtIs(t, a, c);
    var j := FirstAtIs(t, b, c);
    if FirstAt(t, a, c).Some? {
      assert a[i] in b;
    }
    if FirstAt(t, b, c).Some? {
      assert b[j] in a;
    }
    if Head(t, c).None? && FirstAt(t, a, c).Some? {
      assert Key1(a[i].obj) == Key1(b[j].obj);
      SameKeyAlike(a[i].obj, b[j].obj);
    }
  }

  lemma SameLastEntry(t: Tables, a: seq<Sample>, b: seq<Sample>, k: string)
    requires SameSamples(a, b)
    ensures LastEntry(t, a, k) == LastEntry(t, b, k)
  {
    var i := LastEntryIs(t, a, k);
    var j := LastEntryIs(t, b, k);
    if LastEntry(t, a, k).Some? {
      assert a[i] in b;
    }
    if LastEntry(t, b, k).Some? {
      assert b[j] in a;
    }
    if LastEntry(t, a, k).Some? {
      SameKeyAlike(a[i].obj, b[j].obj);
    }
  }

  lemma SameTables(r: Tables, s: Tables)
    requires forall c, n :: Val(r, c, n) == Val(s, c, n)
    requires forall c :: Head(r, c) == Head(s, c)
    requires forall k :: Entry(r, k) == Entry(s, k)
    ensures r == s
  {
    forall c
      ensures c in r.cells <==> c in s.cells
      ensures c in r.cells ==> r.cells[c] == s.cells[c]
    {
      assert Head(r, c) == Head(s, c);
      if c in r.cells {
        forall n
          ensures n in r.cells[c].metrics <==> n in s.cells[c].metrics
          ensures n in r.cells[c].metrics ==> r.cells[c].metrics[n] == s.cells[c].metrics[n]
        {
          assert Val(r, c, n) == Val(s, c, n);
        }
        assert r.cells[c].metrics == s.cells[c].metrics;
      }
    }
    assert r.cells == s.cells;
    forall k
      ensures k in r.table <==> k in s.table
      ensures k in r.table ==> r.table[k] == s.table[k]
    {
      assert Entry(r, k) == Entry(s, k);
    }
    assert r.table == s.table;
  }

  /** Consistent samples leave the same tables in whatever order they come and however often each
      is repeated. */
  lemma OrderAndRepetitionDoNotMatter(t: Tables, a: seq<Sample>, b: seq<Sample>)
    requires Sound(t) && Consistent(t, a) && SameSamples(a, b)
    ensures ApplyAll(t, a) == ApplyAll(t, b)
  {
    var r, s := ApplyAll(t, a), ApplyAll(t, b);
    ApplyAllSound(t, a);
    ApplyAllSound(t, b);
    forall c, n
      ensures Val(r, c, n) == Val(s, c, n)
    {
      AfterAll(t, a, c, n, "");
      AfterAll(t, b, c, n, "");
      SameLastHit(t, a, b, c, n);
    }
    forall c
      ensures Head(r, c) == Head(s, c)
    {
      AfterAll(t, a, c, "", "");
      AfterAll(t, b, c, "", "");
      if c.Own? || c in t.cells {
        SameFirstAt(t, a, b, c);
      }
    }
    forall k
      ensures Entry(r, k) == Entry(s, k)
    {
      AfterAll(t, a, Own(""), "", k);
      AfterAll(t, b, Own(""), "", k);
      SameLastEntry(t, a, b, k);
    }
    SameTables(r, s);
  }

  // --- the source's loops: everything but channels is inside the channel attributes' loop

  /** All values in the order processed: channel attribute `i`'s own, then a listing of all others. */
  function Processed(channels: seq<seq<Sample>>, nested: seq<seq<Sample>>): seq<Sample>
    requires |channels| == |nested|
  {
    if channels == [] then []
    else
      var n := |channels| - 1;
      Processed(channels[..n], nested[..n]) + channels[n] + nested[n]
  }

  function Flat(channels: seq<seq<Sample>>): seq<Sample> {
    if channels == [] then [] else Flat(channels[..|channels| - 1]) + channels[|channels| - 1]
  }

  lemma {:induction false} ProcessedSamples(channels: seq<seq<Sample>>, nested: seq<seq<Sample>>, s: Sample)
    requires |channels| == |nested|
    ensures s in Processed(channels, nested) <==> s in Flat(channels) || s in Flat(nested)
  {
    if channels != [] {
      var n := |channels| - 1;
      ProcessedSamples(channels[..n], nested[..n], s);
    }
  }

  lemma {:induction false} FlatOfListings(nested: seq<seq<Sample>>, one: seq<Sample>, s: Sample)
    requires forall i :: 0 <= i < |nested| ==> SameSamples(nested[i], one)
    ensures s in Flat(nested) <==> nested != [] && s in one
  {
    if nested != [] {
      var n := |nested| - 1;
      FlatOfListings(nested[..n], one, s);
      assert s in nested[n] <==> s in one;
    }
  }

  /** With one or more channel attributes, repeating the block of all other objects for each of them,
      each time in an order of its own, gives the tables of a single pass over everything. */
  lemma NestedBlockIsOnePass(t: Tables, channels: seq<seq<Sample>>, nested: seq<seq<Sample>>, others: seq<Sample>)
    requires Sound(t) && |channels| == |nested| >= 1
    requires forall i :: 0 <= i < |nested| ==> SameSamples(nested[i], others)
    requires Consistent(t, Flat(channels) + others)
    ensures ApplyAll(t, Processed(channels, nested)) == ApplyAll(t, Flat(channels) + others)
  {
    var all, once := Processed(channels, nested), Flat(channels) + others;
    forall s
      ensures s in all <==> s in once
    {
      ProcessedSamples(channels, nested, s);
      FlatOfListings(nested, others, s);
    }
    assert SameSamples(once, all);
    OrderAndRepetitionDoNotMatter(t, once, all);
  }

  lemma {:induction false} SomethingEntered(t: Tables, ss: seq<Sample>)
    requires Sound(t) && ss != []
    ensures ApplyAll(t, ss).table != map[]
  {
    var k := Key1(ss[|ss| - 1].obj);
    AfterAll(t, ss, Own(""), "", k);
    assert Entry(ApplyAll(t, ss), k).Some?;
  }

  /** From tables without status, the source's loops leave what one plain pass over everything leaves
      exactly if there is a channel attribute or nothing but channels to begin with: without a channel
      attribute all other polled values are lost. */
  lemma OnePassIff(t: Tables, channels: seq<seq<Sample>>, nested: seq<seq<Sample>>, others: seq<Sample>)
    requires Sound(t) && t.table == map[] && |channels| == |nested|
    requires forall i :: 0 <= i < |nested| ==> SameSamples(nested[i], others)
    requires Consistent(t, Flat(channels) + others)
    ensures ApplyAll(t, Processed(channels, nested)) == ApplyAll(t, Flat(channels) + others) <==>
      channels != [] || others == []
  {
    if channels != [] {
      NestedBlockIsOnePass(t, channels, nested, others);
    } else {
      assert Flat(channels) + others == others;
      if others != [] {
        SomethingEntered(t, others);
      }
    }
  }

  /** A published queue's or queue manager's point after the status values: each metric polled for
      the object, and otherwise each published one. */
  lemma PublishedPointIsUnion(t: Tables, ss: seq<Sample>, key: string, n: string)
    requires Sound(t) && Pub(key) in t.cells && Consistent(t, ss)
    ensures var r, ty := ApplyAll(t, ss), t.cells[Pub(key)].objectType;
      && (forall i :: 0 <= i < |ss| && Merges(ss[i].obj, key) && FixedName(ss[i].metricName, ty) == n ==>
            Val(r, Pub(key), n) == Some(ss[i].value))
      && ((forall i :: 0 <= i < |ss| && Merges(ss[i].obj, key) ==> FixedName(ss[i].metricName, ty) != n) ==>
            Val(r, Pub(key), n) == Val(t, Pub(key), n))
  {
    forall i | 0 <= i < |ss|
      ensures Hits(t, ss[i], Pub(key), n) <==>
        Merges(ss[i].obj, key) && FixedName(ss[i].metricName, t.cells[Pub(key)].objectType) == n
    {
      MergesIff(ss[i].obj, key);
    }
    AfterAll(t, ss, Pub(key), n, "");
    var i := LastHitIs(t, ss, Pub(key), n);
  }
}
