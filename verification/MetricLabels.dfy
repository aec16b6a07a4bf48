/** The labels of the Prometheus metrics: those a vector is declared with, and those each place in
    the collection gives along with a sample. The client library accepts a sample only if the two
    are the same set and the declaration repeats nothing. */
module MetricLabels {
  import opened MetricKeys

  datatype Kind =
    | QMgrKind | QueueKind | NhaKind | ChannelKind | TopicKind | SubKind | BufferPoolKind | PageSetKind
    | ClusterKind | AmqpKind | MqttKind

  // the channel attributes as the MQ library names them (mqmetric/channel.go, channelamqp.go, channelmqtt.go)
  const ATTR_CHL_TYPE := "type"
  const ATTR_CHL_RQMNAME := "rqmname"
  const ATTR_CHL_CONNNAME := "connname"
  const ATTR_CHL_JOBNAME := "jobname"
  const ATTR_CHL_SSLCIPH := "sslciph"
  const ATTR_CHL_AMQP_CLIENT_ID := "clientid"
  const ATTR_CHL_MQTT_CLIENT_ID := "clientid"

  // --- declaring a vector

  /** The label list of a vector before the configured tags, in the order of the declaration. */
  function Builtin(kind: Kind, host: bool, custom: bool): seq<string> {
    match kind
    case QMgrKind =>
      ["qmgr", "platform", "description", "qmid"] +
      (if host then ["hostname"] else []) + (if custom then ["custom"] else [])
    case QueueKind =>
      ["queue", "qmgr", "platform", "usage", "description", "cluster"] + (if custom then ["custom"] else [])
    case NhaKind => ["qmgr", "platform", "nha"]
    case ChannelKind =>
      ["qmgr", "platform", "channel", "description",
       ATTR_CHL_TYPE, ATTR_CHL_RQMNAME, ATTR_CHL_CONNNAME, ATTR_CHL_JOBNAME, ATTR_CHL_SSLCIPH]
    case TopicKind => ["qmgr", "platform", "topic", "type"]
    case SubKind => ["qmgr", "platform", "subscription", "subid", "topic", "type"]
    case BufferPoolKind => ["qmgr", "platform", "bufferpool", "location", "pageclass"]
    case PageSetKind => ["qmgr", "platform", "pageset", "bufferpool"]
    case ClusterKind => ["qmgr", "platform", "cluster", "qmtype"]
    case AmqpKind => ["qmgr", "platform", "description", "channel", ATTR_CHL_AMQP_CLIENT_ID, ATTR_CHL_CONNNAME]
    case MqttKind => ["qmgr", "platform", "description", "channel", ATTR_CHL_MQTT_CLIENT_ID, ATTR_CHL_CONNNAME]
  }

  function Declared(kind: Kind, host: bool, custom: bool, tags: seq<string>): seq<string> {
    Builtin(kind, host, custom) + tags
  }

  /** A published element's kind, told by its topic. */
  predicate HasSubstring(s: string, t: string) {
    exists i :: 0 <= i <= |s| && t <= s[i..]
  }

  function TopicKindOf(objectTopic: string): Kind {
    if !HasSubstring(objectTopic, "%s") then QMgrKind
    else if HasSubstring(objectTopic, "/NHAREPLICA/") then NhaKind
    else QueueKind
  }

  ghost predicate Contains(s: string, t: string) {
    exists a, b :: s == a + t + b
  }

  lemma SubstringContained(s: string, t: string, i: nat)
    requires i <= |s| && t <= s[i..]
    ensures Contains(s, t)
  {
    var a, b := s[..i], s[i..][|t|..];
    assert t + b == s[i..];
    assert s == a + t + b;
  }

  lemma ContainedSubstring(a: string, t: string, b: string)
    ensures HasSubstring(a + t + b, t)
  {
    assert (a + t + b)[|a|..] == t + b;
  }

  lemma ContainsIff(s: string, t: string)
    ensures HasSubstring(s, t) <==> Contains(s, t)
  {
    if HasSubstring(s, t) {
      var i :| 0 <= i <= |s| && t <= s[i..];
      SubstringContained(s, t, i);
    }
    if Contains(s, t) {
      var a, b :| s == a + t + b;
      ContainedSubstring(a, t, b);
    }
  }

  /** A topic without a place for a name announces the queue manager's metrics; with one, those of the
      replicas if it names these, and else of queues. */
  lemma TopicKindIff(objectTopic: string)
    ensures TopicKindOf(objectTopic) == QMgrKind <==> !Contains(objectTopic, "%s")
    ensures TopicKindOf(objectTopic) == NhaKind <==> Contains(objectTopic, "%s") && Contains(objectTopic, "/NHAREPLICA/")
    ensures TopicKindOf(objectTopic) == QueueKind <==> Contains(objectTopic, "%s") && !Contains(objectTopic, "/NHAREPLICA/")
  {
    ContainsIff(objectTopic, "%s");
    ContainsIff(objectTopic, "/NHAREPLICA/");
  }

  // --- giving a sample

  /** The places that add a sample: the report of being disconnected, the published metrics by the
      kind of key, the statistics, and the polled status of each object type. */
  datatype Site =
    | Disconnected | PublishedQMgr | PublishedNha | PublishedQueue
    | StatisticsQMgr | StatisticsQueue
    | ChannelStatus | QueueStatus | TopicStatus | SubStatus | QMgrStatus | ClusterStatus
    | BufferPoolStatus | PageSetStatus | AmqpStatus | MqttStatus

  function SiteKind(site: Site): Kind {
    match site
    case Disconnected => QMgrKind
    case PublishedQMgr => QMgrKind
    case PublishedNha => NhaKind
    case PublishedQueue => QueueKind
    case StatisticsQMgr => QMgrKind
    case StatisticsQueue => QueueKind
    case ChannelStatus => ChannelKind
    case QueueStatus => QueueKind
    case TopicStatus => TopicKind
    case SubStatus => SubKind
    case QMgrStatus => QMgrKind
    case ClusterStatus => ClusterKind
    case BufferPoolStatus => BufferPoolKind
    case PageSetStatus => PageSetKind
    case AmqpStatus => AmqpKind
    case MqttStatus => MqttKind
  }

  /** A published value's site, told by the key it is reported under. */
  function KeySite(key: string): Site {
    if key == QMGR_MAP_KEY then PublishedQMgr
    else if NATIVE_HA_PREFIX <= key then PublishedNha
    else PublishedQueue
  }

  lemma KeySiteIff(key: string)
    ensures KeySite(key) == PublishedQMgr <==> key == "@self"
    ensures KeySite(key) == PublishedNha <==> exists instance :: key == "@NATIVEHA@" + instance
    ensures KeySite(key).PublishedQMgr? || KeySite(key).PublishedNha? || KeySite(key).PublishedQueue?
  {
    if NATIVE_HA_PREFIX <= key {
      assert key == "@NATIVEHA@" + key[|NATIVE_HA_PREFIX|..];
    }
    assert "@self"[1] != NATIVE_HA_PREFIX[1];
  }

  /** The label names written out at each site. */
  function SiteNames(site: Site, host: bool, custom: bool): set<string> {
    var hostname := if host then {"hostname"} else {};
    var customs := if custom then {"custom"} else {};
    match site
    case Disconnected => {"qmgr", "qmid", "description", "platform"} + hostname + customs
    case PublishedQMgr => {"qmgr", "platform", "description", "qmid"} + hostname + customs
    case PublishedNha => {"qmgr", "nha", "platform"}
    case PublishedQueue => {"qmgr", "queue", "usage", "description", "cluster", "platform"} + customs
    case StatisticsQMgr => {"qmgr", "description", "platform", "qmid"} + hostname + customs
    case StatisticsQueue => {"qmgr", "platform", "usage", "description", "cluster", "queue"} + customs
    case ChannelStatus =>
      {"qmgr", "channel", "platform", "description",
       ATTR_CHL_TYPE, ATTR_CHL_RQMNAME, ATTR_CHL_CONNNAME, ATTR_CHL_JOBNAME, ATTR_CHL_SSLCIPH}
    case QueueStatus => {"qmgr", "platform", "usage", "description", "cluster", "queue"} + customs
    case TopicStatus => {"qmgr", "platform", "type", "topic"}
    case SubStatus => {"qmgr", "platform", "subid", "subscription", "type", "topic"}
    case QMgrStatus => {"qmgr", "description", "platform", "qmid"} + hostname + customs
    case ClusterStatus => {"qmgr", "cluster", "qmtype", "platform"}
    case BufferPoolStatus => {"bufferpool", "location", "pageclass", "qmgr", "platform"}
    case PageSetStatus => {"pageset", "bufferpool", "qmgr", "platform"}
    case AmqpStatus => {"qmgr", "channel", "description", "platform", ATTR_CHL_AMQP_CLIENT_ID, ATTR_CHL_CONNNAME}
    case MqttStatus => {"qmgr", "channel", "description", "platform", ATTR_CHL_MQTT_CLIENT_ID, ATTR_CHL_CONNNAME}
  }

  type Labels = map<string, string>

  function WithMeta(labels: Labels, tags: seq<string>, values: seq<string>): Labels
    requires |tags| == |values|
  {
    if tags == [] then labels
    else
      var n := |tags| - 1;
      WithMeta(labels, tags[..n], values[..n])[tags[n] := values[n]]
  }

  /** Adds the configured tags; an index out of range ends the program, so the two arrays must be
      as long as each other, or the tags fewer. */
  method AddMetaLabels(labels: Labels, tags: seq<string>, values: seq<string>) returns (ok: bool, r: Labels)
    ensures ok <==> |tags| <= |values|
    ensures ok ==> r == WithMeta(labels, tags, values[..|tags|])
  {
    r := labels;
    ok := true;
    if |tags| > 0 {
      var i := 0;
      while i < |tags|
        invariant 0 <= i <= |tags| && i <= |values|
        invariant r == WithMeta(labels, tags[..i], values[..i])
      {
        if i >= |values| {
          return false, r;
        }
        r := r[tags[i] := values[i]];
        assert tags[..i + 1][..i] == tags[..i] && values[..i + 1][..i] == values[..i];
        i := i + 1;
      }
      assert tags[..|tags|] == tags;
    }
  }

  ghost predicate NoRepeats(names: seq<string>) {
    forall i, j :: 0 <= i < j < |names| ==> names[i] != names[j]
  }

  ghost predicate Apart(tags: seq<string>, names: seq<string>) {
    forall i, j :: 0 <= i < |tags| && 0 <= j < |names| ==> tags[i] != names[j]
  }

  function NameSet(names: seq<string>): set<string> {
    set i | 0 <= i < |names| :: names[i]
  }

  /** What the client library demands of a sample's labels. */
  ghost predicate Fits(declared: seq<string>, labels: Labels) {
    NoRepeats(declared) && NameSet(declared) == labels.Keys
  }

  lemma {:induction false} MetaKeys(labels: Labels, tags: seq<string>, values: seq<string>)
    requires |tags| == |values|
    ensures WithMeta(labels, tags, values).Keys == labels.Keys + NameSet(tags)
  {
    if tags != [] {
      var n := |tags| - 1;
      MetaKeys(labels, tags[..n], values[..n]);
      assert forall x :: x in NameSet(tags) <==> x in NameSet(tags[..n]) || x == tags[n];
    }
  }

  /** Each tag has its value, the last one if it is repeated, and every other label its own. */
  lemma {:induction false} MetaValues(labels: Labels, tags: seq<string>, values: seq<string>, k: string)
    requires |tags| == |values|
    ensures var r := WithMeta(labels, tags, values);
      && (k in tags ==> exists i :: 0 <= i < |tags| && tags[i] == k && k in r && r[k] == values[i]
                                    && forall j :: i < j < |tags| ==> tags[j] != k)
      && (k !in tags ==> (k in r <==> k in labels) && (k in labels ==> r[k] == labels[k]))
  {
    if tags != [] {
      var n := |tags| - 1;
      MetaValues(labels, tags[..n], values[..n], k);
      assert tags == tags[..n] + [tags[n]];
      if tags[n] == k {
        assert tags[n] == k && WithMeta(labels, tags, values)[k] == values[n];
      } else if k in tags {
        MetaBefore(labels, tags, values, k);
      }
    }
  }

  lemma MetaBefore(labels: Labels, tags: seq<string>, values: seq<string>, k: string)
    requires |tags| == |values| && tags != [] && tags[|tags| - 1] != k
    requires var n := |tags| - 1;
      var r := WithMeta(labels, tags[..n], values[..n]);
      exists i :: 0 <= i < n && tags[..n][i] == k && k in r && r[k] == values[..n][i]
                  && forall j :: i < j < n ==> tags[..n][j] != k
    ensures var r := WithMeta(labels, tags, values);
      exists i :: 0 <= i < |tags| && tags[i] == k && k in r && r[k] == values[i]
                  && forall j :: i < j < |tags| ==> tags[j] != k
  {
    var n := |tags| - 1;
    var r := WithMeta(labels, tags[..n], values[..n]);
    var i :| 0 <= i < n && tags[..n][i] == k && k in r && r[k] == values[..n][i]
             && forall j :: i < j < n ==> tags[..n][j] != k;
    assert tags[i] == k && WithMeta(labels, tags, values)[k] == values[i];
    forall j | i < j < |tags|
      ensures tags[j] != k
    {
      assert j < n ==> tags[j] == tags[..n][j];
    }
  }

  lemma NameSetConcat(a: seq<string>, b: seq<string>)
    ensures NameSet(a + b) == NameSet(a) + NameSet(b)
  {
    forall x | x in NameSet(a) + NameSet(b)
      ensures x in NameSet(a + b)
    {
      if i :| 0 <= i < |a| && a[i] == x {
        assert (a + b)[i] == x;
      } else {
        var j :| 0 <= j < |b| && b[j] == x;
        assert (a + b)[|a| + j] == x;
      }
    }
  }

  lemma BuiltinDistinct(kind: Kind, host: bool, custom: bool)
    ensures NoRepeats(Builtin(kind, host, custom))
  {
  }

  lemma SameNames(names: seq<string>, keys: set<string>)
    requires forall x :: x in keys <==> x in names
    ensures keys == NameSet(names)
  {
  }

  lemma QMgrSites(site: Site, host: bool, custom: bool)
    requires SiteKind(site) == QMgrKind
    ensures SiteNames(site, host, custom) == NameSet(Builtin(QMgrKind, host, custom))
  {
    SameNames(Builtin(QMgrKind, host, custom), SiteNames(site, host, custom));
  }

  lemma QueueSites(site: Site, host: bool, custom: bool)
    requires SiteKind(site) == QueueKind
    ensures SiteNames(site, host, custom) == NameSet(Builtin(QueueKind, host, custom))
  {
    SameNames(Builtin(QueueKind, host, custom), SiteNames(site, host, custom));
  }

  lemma ChannelSites(site: Site, host: bool, custom: bool)
    requires SiteKind(site) == ChannelKind || SiteKind(site) == AmqpKind || SiteKind(site) == MqttKind
    ensures SiteNames(site, host, custom) == NameSet(Builtin(SiteKind(site), host, custom))
  {
    SameNames(Builtin(SiteKind(site), host, custom), SiteNames(site, host, custom));
  }

  /** Every site writes out exactly the names its kind of vector is declared with. */
  lemma SiteMatchesKind(site: Site, host: bool, custom: bool)
    ensures SiteNames(site, host, custom) == NameSet(Builtin(SiteKind(site), host, custom))
  {
    var kind := SiteKind(site);
    if kind == QMgrKind {
      QMgrSites(site, host, custom);
    } else if kind == QueueKind {
      QueueSites(site, host, custom);
    } else if kind == ChannelKind || kind == AmqpKind || kind == MqttKind {
      ChannelSites(site, host, custom);
    } else {
      SameNames(Builtin(kind, host, custom), SiteNames(site, host, custom));
    }
  }

  /** At every site, with and without the optional labels, a sample is accepted by a vector of its
      kind exactly when the configured tags are distinct and none of them is a built-in label. */
  lemma SampleFitsIff(site: Site, host: bool, custom: bool, labels: Labels, tags: seq<string>, values: seq<string>)
    requires labels.Keys == SiteNames(site, host, custom) && |tags| == |values|
    ensures Fits(Declared(SiteKind(site), host, custom, tags), WithMeta(labels, tags, values))
       <==> NoRepeats(tags) && Apart(tags, Builtin(SiteKind(site), host, custom))
  {
    var names := Builtin(SiteKind(site), host, custom);
    SiteMatchesKind(site, host, custom);
    MetaKeys(labels, tags, values);
    NameSetConcat(names, tags);
    BuiltinDistinct(SiteKind(site), host, custom);
    RepeatsOfConcat(names, tags);
  }

  lemma RepeatsOfConcat(names: seq<string>, tags: seq<string>)
    requires NoRepeats(names)
    ensures NoRepeats(names + tags) <==> NoRepeats(tags) && Apart(tags, names)
  {
    var all := names + tags;
    if NoRepeats(all) {
      forall i, j | 0 <= i < j < |tags|
        ensures tags[i] != tags[j]
      {
        assert all[|names| + i] != all[|names| + j];
      }
      forall i, j | 0 <= i < |tags| && 0 <= j < |names|
        ensures tags[i] != names[j]
      {
        assert all[j] != all[|names| + i];
      }
    }
  }

  /** A published value is accepted by its element's vector exactly when its key is of the kind
      that the element's topic announces. */
  lemma PublishedFitsIff(objectTopic: string, key: string, host: bool, custom: bool,
                         labels: Labels, tags: seq<string>, values: seq<string>)
    requires labels.Keys == SiteNames(KeySite(key), host, custom) && |tags| == |values| && NoRepeats(tags)
    requires Apart(tags, Builtin(QMgrKind, host, custom))
    requires Apart(tags, Builtin(QueueKind, host, custom)) && Apart(tags, Builtin(NhaKind, host, custom))
    ensures Fits(Declared(TopicKindOf(objectTopic), host, custom, tags), WithMeta(labels, tags, values))
       <==> SiteKind(KeySite(key)) == TopicKindOf(objectTopic)
  {
    var site, kind := KeySite(key), TopicKindOf(objectTopic);
    SampleFitsIff(site, host, custom, labels, tags, values);
    if SiteKind(site) != kind {
      MetaKeys(labels, tags, values);
      NameSetConcat(Builtin(kind, host, custom), tags);
      KindsDiffer(site, kind, host, custom, tags);
    }
  }

  /** The name that tells the three published kinds apart. */
  function Mark(kind: Kind): string {
    match kind case QueueKind => "queue" case NhaKind => "nha" case _ => "qmid"
  }

  lemma MarkIsOwn(kind: Kind, other: Kind, host: bool, custom: bool)
    requires kind == QMgrKind || kind == QueueKind || kind == NhaKind
    requires other == QMgrKind || other == QueueKind || other == NhaKind
    ensures Mark(kind) in Builtin(kind, host, custom)
    ensures Mark(kind) in Builtin(other, host, custom) ==> kind == other
  {
    assert Builtin(QueueKind, host, custom)[0] == "queue";
    assert Builtin(NhaKind, host, custom)[2] == "nha";
    assert Builtin(QMgrKind, host, custom)[3] == "qmid";
  }

  lemma KindsDiffer(site: Site, kind: Kind, host: bool, custom: bool, tags: seq<string>)
    requires site == PublishedQMgr || site == PublishedNha || site == PublishedQueue
    requires kind == QMgrKind || kind == QueueKind || kind == NhaKind
    requires SiteKind(site) != kind && Apart(tags, Builtin(SiteKind(site), host, custom))
    ensures SiteNames(site, host, custom) + NameSet(tags) != NameSet(Builtin(kind, host, custom)) + NameSet(tags)
  {
    var mine, other := Builtin(SiteKind(site), host, custom), Builtin(kind, host, custom);
    var mark := Mark(SiteKind(site));
    SiteMatchesKind(site, host, custom);
    MarkIsOwn(SiteKind(site), kind, host, custom);
    var i :| 0 <= i < |mine| && mine[i] == mark;
    assert mark in NameSet(mine);
    assert mark !in NameSet(other);
    assert mark !in NameSet(tags);
  }
}
