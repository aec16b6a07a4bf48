/** The status vectors of the Prometheus collector over a series of scrapes: reset and refilled
    when a scrape polls, and handed over at each scrape unless they hold deltas of an old poll. */
module MetricVectors {
  import opened MetricLabels
  import CollectorLifecycle

  type Samples = map<Labels, int>

  /** With/Set of a gauge, With/Add of a counter. */
  function Put(counter: bool, samples: Samples, labels: Labels, f: int): Samples {
    if counter && labels in samples then samples[labels := samples[labels] + f] else samples[labels := f]
  }

  class MQVec {
    const counter: bool
    const declared: seq<string>
    var samples: Samples

    constructor (counter: bool, declared: seq<string>)
      ensures this.counter == counter && this.declared == declared && samples == map[]
    {
      this.counter, this.declared, samples := counter, declared, map[];
    }

    method Reset()
      modifies this
      ensures samples == map[]
    {
      samples := map[];
    }

    method AddMetric(labels: Labels, f: int)
      modifies this
      ensures samples == Put(counter, old(samples), labels, f)
    {
      if !counter {
        samples := samples[labels := f];
      } else {
        samples := samples[labels := (if labels in samples then samples[labels] else 0) + f];
      }
    }
  }

  datatype Attr = Attr(name: string, delta: bool, pseudo: bool)

  /** One value collected for an attribute. */
  datatype Reading = Reading(labels: Labels, isInt: bool, value: int)

  /** The samples a fresh vector holds after the readings of one poll. */
  function Filled(counter: bool, attr: Attr, readings: seq<Reading>): Samples {
    if readings == [] then map[]
    else
      var n := |readings| - 1;
      var r := readings[n];
      var before := Filled(counter, attr, readings[..n]);
      if r.isInt && !attr.pseudo then Put(counter, before, r.labels, r.value) else before
  }

  // --- the same, told from the readings alone

  /** An integer reading of these labels. */
  predicate IsReadingOf(r: Reading, labels: Labels) {
    r.isInt && r.labels == labels
  }

  ghost predicate Read(readings: seq<Reading>, labels: Labels) {
    exists i :: 0 <= i < |readings| && IsReadingOf(readings[i], labels)
  }

  /** The last integer reading of these labels. */
  ghost predicate LastRead(readings: seq<Reading>, labels: Labels, value: int) {
    exists i :: 0 <= i < |readings| && IsReadingOf(readings[i], labels) && readings[i].value == value
      && forall j :: i < j < |readings| ==> !IsReadingOf(readings[j], labels)
  }

  function Total(readings: seq<Reading>, labels: Labels): int {
    if readings == [] then 0
    else
      var n := |readings| - 1;
      Total(readings[..n], labels) + if IsReadingOf(readings[n], labels) then readings[n].value else 0
  }

  /** The samples show the readings: of each label set that was read, the last reading in a gauge and
      the sum of all in a counter, and of no other label set anything. */
  ghost predicate Shows(samples: Samples, counter: bool, readings: seq<Reading>) {
    forall labels: Labels :: ShowsOf(samples, counter, readings, labels)
  }

  ghost predicate ShowsOf(samples: Samples, counter: bool, readings: seq<Reading>, labels: Labels) {
    && (labels in samples <==> Read(readings, labels))
    && (labels in samples ==>
          if counter then samples[labels] == Total(readings, labels) else LastRead(readings, labels, samples[labels]))
  }

  lemma ReadStep(readings: seq<Reading>, labels: Labels)
    requires readings != []
    ensures var n := |readings| - 1;
      Read(readings, labels) <==> Read(readings[..n], labels) || IsReadingOf(readings[n], labels)
  {
    var n := |readings| - 1;
    if Read(readings[..n], labels) {
      var i :| 0 <= i < n && IsReadingOf(readings[..n][i], labels);
      assert IsReadingOf(readings[i], labels);
    }
    if Read(readings, labels) && !IsReadingOf(readings[n], labels) {
      var i :| 0 <= i <= n && IsReadingOf(readings[i], labels);
      assert IsReadingOf(readings[..n][i], labels);
    }
  }

  lemma LastReadStep(readings: seq<Reading>, labels: Labels, value: int)
    requires readings != []
    ensures var n := |readings| - 1;
      if IsReadingOf(readings[n], labels) then LastRead(readings, labels, readings[n].value)
      else LastRead(readings[..n], labels, value) ==> LastRead(readings, labels, value)
  {
    var n := |readings| - 1;
    var before := readings[..n];
    if !IsReadingOf(readings[n], labels) && LastRead(before, labels, value) {
      var i :| 0 <= i < n && IsReadingOf(before[i], labels) && before[i].value == value
        && forall j :: i < j < n ==> !IsReadingOf(before[j], labels);
      assert readings[i] == before[i];
      forall j | i < j < |readings|
        ensures !IsReadingOf(readings[j], labels)
      {
        assert j < n ==> readings[j] == before[j];
      }
    }
  }

  lemma {:induction false} TotalOfNone(readings: seq<Reading>, labels: Labels)
    requires !Read(readings, labels)
    ensures Total(readings, labels) == 0
  {
    if readings != [] {
      ReadStep(readings, labels);
      TotalOfNone(readings[..|readings| - 1], labels);
    }
  }

  lemma ShowsStep(counter: bool, attr: Attr, readings: seq<Reading>, labels: Labels)
    requires readings != [] && !attr.pseudo
    requires ShowsOf(Filled(counter, attr, readings[..|readings| - 1]), counter, readings[..|readings| - 1], labels)
    ensures ShowsOf(Filled(counter, attr, readings), counter, readings, labels)
  {
    var n := |readings| - 1;
    var before := Filled(counter, attr, readings[..n]);
    ReadStep(readings, labels);
    if labels in before {
      LastReadStep(readings, labels, before[labels]);
    } else {
      LastReadStep(readings, labels, 0);
      TotalOfNone(readings[..n], labels);
    }
  }

  lemma {:induction false} FilledShowsOf(counter: bool, attr: Attr, readings: seq<Reading>, labels: Labels)
    requires !attr.pseudo
    ensures ShowsOf(Filled(counter, attr, readings), counter, readings, labels)
  {
    if readings != [] {
      FilledShowsOf(counter, attr, readings[..|readings| - 1], labels);
      ShowsStep(counter, attr, readings, labels);
    }
  }

  /** A vector refilled from a poll shows the poll's readings, except that a pseudo attribute shows
      nothing. */
  lemma {:induction false} FilledShows(counter: bool, attr: Attr, readings: seq<Reading>)
    ensures if attr.pseudo then Filled(counter, attr, readings) == map[]
      else Shows(Filled(counter, attr, readings), counter, readings)
  {
    if !attr.pseudo {
      forall labels: Labels
        ensures ShowsOf(Filled(counter, attr, readings), counter, readings, labels)
      {
        FilledShowsOf(counter, attr, readings, labels);
      }
    } else if readings != [] {
      FilledShows(counter, attr, readings[..|readings| - 1]);
    }
  }

  /** One scrape that completes: whether it polls and what the poll collects. */
  datatype Scrape = Scrape(poll: bool, readings: map<string, seq<Reading>>)

  function ReadingsOf(s: Scrape, attr: Attr): seq<Reading> {
    if attr.name in s.readings then s.readings[attr.name] else []
  }

  /** What a scrape hands over for one attribute: None if it is skipped. */
  datatype Export = Nothing | Export(samples: Samples)

  class StatusExporter {
    const attrs: seq<Attr>
    const vecs: map<string, MQVec>

    ghost predicate Valid()
    {
      && (forall i, j :: 0 <= i < j < |attrs| ==> attrs[i].name != attrs[j].name)
      && (forall i :: 0 <= i < |attrs| ==> attrs[i].name in vecs)
      && (forall m, n :: m in vecs && n in vecs && m != n ==> vecs[m] != vecs[n])
    }

    /** The vectors as built after a connection: one for each attribute, a counter when it holds
        deltas and the types are split, a gauge otherwise. */
    constructor (attrs: seq<Attr>, overrideCType: bool, declared: seq<string>)
      requires forall i, j :: 0 <= i < j < |attrs| ==> attrs[i].name != attrs[j].name
      ensures Valid() && this.attrs == attrs && vecs.Keys == (set i | 0 <= i < |attrs| :: attrs[i].name)
      ensures forall i :: 0 <= i < |attrs| ==>
        fresh(vecs[attrs[i].name]) && vecs[attrs[i].name].counter == (overrideCType && attrs[i].delta)
        && vecs[attrs[i].name].declared == declared && vecs[attrs[i].name].samples == map[]
    {
      this.attrs := attrs;
      var m: map<string, MQVec> := map[];
      for k := 0 to |attrs|
        invariant m.Keys == set i | 0 <= i < k :: attrs[i].name
        invariant forall i :: 0 <= i < k ==>
          fresh(m[attrs[i].name]) && m[attrs[i].name].counter == (overrideCType && attrs[i].delta)
          && m[attrs[i].name].declared == declared && m[attrs[i].name].samples == map[]
        invariant forall a, b :: a in m && b in m && a != b ==> m[a] != m[b]
      {
        var v := new MQVec(overrideCType && attrs[k].delta, declared);
        m := m[attrs[k].name := v];
      }
      vecs := m;
    }

    ghost function Vectors(): set<object> {
      set n | n in vecs :: vecs[n]
    }

    method ResetAll()
      requires Valid()
      modifies Vectors()
      ensures forall i :: 0 <= i < |attrs| ==> vecs[attrs[i].name].samples == map[]
    {
      for k := 0 to |attrs|
        invariant forall i :: 0 <= i < k ==> vecs[attrs[i].name].samples == map[]
      {
        vecs[attrs[k].name].Reset();
      }
    }

    method Refill(k: nat, readings: seq<Reading>)
      requires Valid() && k < |attrs| && vecs[attrs[k].name].samples == map[]
      modifies vecs[attrs[k].name]
      ensures vecs[attrs[k].name].samples == Filled(vecs[attrs[k].name].counter, attrs[k], readings)
    {
      var v := vecs[attrs[k].name];
      for i := 0 to |readings|
        invariant v.samples == Filled(v.counter, attrs[k], readings[..i])
      {
        assert readings[..i + 1][..i] == readings[..i];
        var r := readings[i];
        if r.isInt && !attrs[k].pseudo {
          v.AddMetric(r.labels, r.value);
        }
      }
      assert readings[..|readings|] == readings;
    }

    method RefillAll(s: Scrape)
      requires Valid()
      requires forall i :: 0 <= i < |attrs| ==> vecs[attrs[i].name].samples == map[]
      modifies Vectors()
      ensures forall i :: 0 <= i < |attrs| ==>
        vecs[attrs[i].name].samples == Filled(vecs[attrs[i].name].counter, attrs[i], ReadingsOf(s, attrs[i]))
    {
      for k := 0 to |attrs|
        invariant forall i :: 0 <= i < k ==>
          vecs[attrs[i].name].samples == Filled(vecs[attrs[i].name].counter, attrs[i], ReadingsOf(s, attrs[i]))
        invariant forall i :: k <= i < |attrs| ==> vecs[attrs[i].name].samples == map[]
      {
        Refill(k, ReadingsOf(s, attrs[k]));
      }
    }

    /** A completed scrape: poll if due, then hand over. */
    method Collect(s: Scrape) returns (out: seq<Export>)
      requires Valid()
      modifies Vectors()
      ensures |out| == |attrs|
      ensures forall i :: 0 <= i < |attrs| ==>
        var v := vecs[attrs[i].name];
        && v.samples == Content(v.counter, attrs[i], old(v.samples), s)
        && out[i] == Handed(attrs[i], s.poll, v.samples)
    {
      if s.poll {
        ResetAll();
        RefillAll(s);
      }
      out := [];
      for k := 0 to |attrs|
        invariant |out| == k
        invariant forall i :: 0 <= i < k ==> out[i] == Handed(attrs[i], s.poll, vecs[attrs[i].name].samples)
      {
        if !attrs[k].pseudo && (s.poll || !attrs[k].delta) {
          out := out + [Export(vecs[attrs[k].name].samples)];
        } else {
          out := out + [Nothing];
        }
      }
    }
  }

  function Content(counter: bool, attr: Attr, before: Samples, s: Scrape): Samples {
    if s.poll then Filled(counter, attr, ReadingsOf(s, attr)) else before
  }

  function Handed(attr: Attr, poll: bool, samples: Samples): Export {
    if !attr.pseudo && (poll || !attr.delta) then Export(samples) else Nothing
  }

  // --- over the completed scrapes of one connection generation

  /** A vector's samples after a series of scrapes, from newly built. */
  function ContentAfter(counter: bool, attr: Attr, scrapes: seq<Scrape>): Samples {
    if scrapes == [] then map[]
    else Content(counter, attr, ContentAfter(counter, attr, scrapes[..|scrapes| - 1]), scrapes[|scrapes| - 1])
  }

  /** What the scrape at `i` exported. */
  function ExportedAt(counter: bool, attr: Attr, scrapes: seq<Scrape>, i: nat): Export
    requires i < |scrapes|
  {
    Handed(attr, scrapes[i].poll, ContentAfter(counter, attr, scrapes[..i + 1]))
  }

  lemma {:induction false} ContentIsLatestPoll(counter: bool, attr: Attr, scrapes: seq<Scrape>, p: nat)
    requires p < |scrapes| && scrapes[p].poll
    requires forall k :: p < k < |scrapes| ==> !scrapes[k].poll
    ensures ContentAfter(counter, attr, scrapes) == Filled(counter, attr, ReadingsOf(scrapes[p], attr))
  {
    var n := |scrapes| - 1;
    if p < n {
      ContentIsLatestPoll(counter, attr, scrapes[..n], p);
    }
  }

  /** What the scrape read for the attribute of this name. */
  ghost predicate ReadFor(s: Scrape, name: string, readings: seq<Reading>) {
    if name in s.readings then s.readings[name] == readings else readings == []
  }

  /** At every scrape at or after the latest poll, an attribute that is not a delta exports exactly
      what that poll read: each label set once, with its last reading in a gauge. */
  lemma GaugesShowLatestPoll(counter: bool, attr: Attr, scrapes: seq<Scrape>, p: nat, i: nat, readings: seq<Reading>)
    requires p <= i < |scrapes| && scrapes[p].poll && forall k :: p < k <= i ==> !scrapes[k].poll
    requires !attr.pseudo && !attr.delta && ReadFor(scrapes[p], attr.name, readings)
    ensures var e := ExportedAt(counter, attr, scrapes, i); e.Export? && Shows(e.samples, counter, readings)
  {
    ContentIsLatestPoll(counter, attr, scrapes[..i + 1], p);
    FilledShows(counter, attr, readings);
  }

  /** A delta is exported exactly at the scrapes that poll, and there exactly what that poll read:
      each label set once, with the sum of its readings in a counter, and never again later. */
  lemma DeltasExportedOnce(counter: bool, attr: Attr, scrapes: seq<Scrape>, i: nat, readings: seq<Reading>)
    requires i < |scrapes| && !attr.pseudo && attr.delta && ReadFor(scrapes[i], attr.name, readings)
    ensures var e := ExportedAt(counter, attr, scrapes, i);
      if scrapes[i].poll then e.Export? && Shows(e.samples, counter, readings) else e.Nothing?
  {
    if scrapes[i].poll {
      ContentIsLatestPoll(counter, attr, scrapes[..i + 1], i);
      FilledShows(counter, attr, readings);
    }
  }

  /** A pseudo attribute is never exported, and its vector stays empty. */
  lemma {:induction false} PseudoNeverShown(counter: bool, attr: Attr, scrapes: seq<Scrape>)
    requires attr.pseudo
    ensures ContentAfter(counter, attr, scrapes) == map[]
    ensures forall i :: 0 <= i < |scrapes| ==> ExportedAt(counter, attr, scrapes, i).Nothing?
  {
    if scrapes != [] {
      var n := |scrapes| - 1;
      PseudoNeverShown(counter, attr, scrapes[..n]);
      FilledShows(counter, attr, ReadingsOf(scrapes[n], attr));
    }
  }

  /** Before the first poll a vector is empty. */
  lemma {:induction false} NothingBeforeThePoll(counter: bool, attr: Attr, scrapes: seq<Scrape>)
    requires forall k :: 0 <= k < |scrapes| ==> !scrapes[k].poll
    ensures ContentAfter(counter, attr, scrapes) == map[]
  {
    if scrapes != [] {
      NothingBeforeThePoll(counter, attr, scrapes[..|scrapes| - 1]);
    }
  }

  // --- every sample of every run is accepted

  /** In any interleaving, when a scrape adds a sample at any site, its labels, built with the
      remembered hostname answer, fit the vector declared at the latest connection, exactly when
      the configured tags are distinct and apart from the built-in labels. */
  lemma ReachableSampleFits(run: seq<CollectorLifecycle.Action>, id: nat, keepRunning: bool,
                            site: Site, custom: bool, labels: Labels, tags: seq<string>, values: seq<string>)
    requires CollectorLifecycle.Alive(run, keepRunning)
    requires id in CollectorLifecycle.Exec(run, keepRunning).value.scrapes
    requires var pc := CollectorLifecycle.Exec(run, keepRunning).value.scrapes[id]; pc.Succeeded? || pc.Reporting?
    requires |tags| == |values|
    ensures var s := CollectorLifecycle.Exec(run, keepRunning).value;
      && s.hostVal.Some? && s.vectorHost.Some?
      && (labels.Keys == SiteNames(site, s.hostVal.value, custom) ==>
            (Fits(Declared(SiteKind(site), s.vectorHost.value, custom, tags), WithMeta(labels, tags, values))
             <==> NoRepeats(tags) && Apart(tags, Builtin(SiteKind(site), s.vectorHost.value, custom))))
  {
    CollectorLifecycle.HostAnswerMatchesVectors(run, id, keepRunning);
    var host := CollectorLifecycle.Exec(run, keepRunning).value.hostVal.value;
    if labels.Keys == SiteNames(site, host, custom) {
      SampleFitsIff(site, host, custom, labels, tags, values);
    }
  }
}
