/** The client library's registry as far as reconnects are concerned: it forgets a collector when
    that is unregistered, but never the labels and help text a metric name was first seen with. */
module MetricRegistry {
  import opened Options
  import opened MetricLabels

  /** What a collector says of one of its vectors. */
  datatype Desc = Desc(name: string, labels: seq<string>, help: string)

  /** What must stay the same for a name. */
  datatype Dim = Dim(labels: set<string>, help: string)

  function DimOf(d: Desc): Dim {
    Dim(NameSet(d.labels), d.help)
  }

  function Names(ds: seq<Desc>): set<string> {
    if ds == [] then {} else Names(ds[..|ds| - 1]) + {ds[|ds| - 1].name}
  }

  predicate RepeatFree(names: seq<string>)
    ensures RepeatFree(names) <==> NoRepeats(names)
  {
    forall i, j :: 0 <= i < j < |names| ==> names[i] != names[j]
  }

  /** One description against all dimensions known so far. */
  function Admit(dims: map<string, Dim>, d: Desc): Option<map<string, Dim>> {
    if !RepeatFree(d.labels) then None
    else if d.name !in dims then Some(dims[d.name := DimOf(d)])
    else if dims[d.name] == DimOf(d) then Some(dims)
    else None
  }

  function AdmitAll(dims: map<string, Dim>, ds: seq<Desc>): Option<map<string, Dim>> {
    if ds == [] then Some(dims)
    else
      match AdmitAll(dims, ds[..|ds| - 1])
      case None => None
      case Some(m) => Admit(m, ds[|ds| - 1])
  }

  /** The names in use, the collectors by the names they describe, and the dimensions of every name
      ever registered. */
  datatype Books = Books(ids: set<string>, collectors: set<set<string>>, dims: map<string, Dim>)

  const NO_BOOKS := Books({}, {}, map[])

  function Registered(b: Books, ds: seq<Desc>): Option<Books> {
    match AdmitAll(b.dims, ds)
    case None => None
    case Some(m) =>
      if ds == [] then Some(b)
      else if Names(ds) in b.collectors || !(Names(ds) !! b.ids) then None
      else Some(Books(b.ids + Names(ds), b.collectors + {Names(ds)}, m))
  }

  function Unregistered(b: Books, names: set<string>): Books {
    if names in b.collectors then b.(ids := b.ids - names, collectors := b.collectors - {names}) else b
  }

  class Registry {
    var books: Books

    constructor ()
      ensures books == NO_BOOKS
    {
      books := NO_BOOKS;
    }

    /** A false `ok` is an error, on which MustRegister panics. */
    method Register(ds: seq<Desc>) returns (ok: bool)
      modifies this
      ensures ok <==> Registered(old(books), ds).Some?
      ensures books == if ok then Registered(old(books), ds).value else old(books)
    {
      var ids: set<string> := {};
      var dims := books.dims;
      var duplicate := false;
      for i := 0 to |ds|
        invariant books == old(books) && ids == Names(ds[..i]) && (duplicate <==> !(ids !! books.ids))
        invariant AdmitAll(books.dims, ds[..i]) == Some(dims)
      {
        assert ds[..i + 1][..i] == ds[..i];
        var d := ds[i];
        if !RepeatFree(d.labels) || (d.name in dims && dims[d.name] != DimOf(d)) {
          Refused(books.dims, ds, i + 1);
          return false;
        }
        duplicate := duplicate || d.name in books.ids;
        ids := ids + {d.name};
        if d.name !in dims {
          dims := dims[d.name := DimOf(d)];
        }
      }
      assert ds[..|ds|] == ds;
      if ds == [] {
        return true;
      }
      if ids in books.collectors || duplicate {
        return false;
      }
      ok := true;
      books := Books(books.ids + ids, books.collectors + {ids}, dims);
    }

    /** The names are those that the collector describes now. */
    method Unregister(ds: seq<Desc>) returns (found: bool)
      modifies this
      ensures found <==> Names(ds) in old(books).collectors
      ensures books == Unregistered(old(books), Names(ds))
    {
      var ids: set<string> := {};
      for i := 0 to |ds|
        invariant books == old(books) && ids == Names(ds[..i])
      {
        assert ds[..i + 1][..i] == ds[..i];
        ids := ids + {ds[i].name};
      }
      assert ds[..|ds|] == ds;
      found := ids in books.collectors;
      if found {
        books := books.(ids := books.ids - ids, collectors := books.collectors - {ids});
      }
    }
  }

  lemma {:induction false} Refused(dims: map<string, Dim>, ds: seq<Desc>, n: nat)
    requires n <= |ds| && AdmitAll(dims, ds[..n]).None?
    ensures AdmitAll(dims, ds).None?
    decreases |ds| - n
  {
    if n < |ds| {
      assert ds[..n + 1][..n] == ds[..n];
      Refused(dims, ds, n + 1);
    } else {
      assert ds[..n] == ds;
    }
  }

  // --- what is refused

  /** No vector repeats a label, and each is described as its name was, or is from now on. */
  ghost predicate Describes(m: map<string, Dim>, ds: seq<Desc>) {
    forall i :: 0 <= i < |ds| ==> NoRepeats(ds[i].labels) && ds[i].name in m && m[ds[i].name] == DimOf(ds[i])
  }

  ghost predicate Extends(m: map<string, Dim>, dims: map<string, Dim>) {
    forall n :: n in dims ==> n in m && m[n] == dims[n]
  }

  lemma {:induction false} AdmittedDescribes(dims: map<string, Dim>, ds: seq<Desc>)
    ensures var m := AdmitAll(dims, ds);
      m.Some? ==> Extends(m.value, dims) && Describes(m.value, ds) && m.value.Keys == dims.Keys + Names(ds)
  {
    if ds != [] && AdmitAll(dims, ds).Some? {
      AdmittedDescribes(dims, ds[..|ds| - 1]);
      DescribesOneMore(AdmitAll(dims, ds[..|ds| - 1]).value, AdmitAll(dims, ds).value, ds);
    }
  }

  lemma DescribesOneMore(m: map<string, Dim>, more: map<string, Dim>, ds: seq<Desc>)
    requires ds != [] && Describes(m, ds[..|ds| - 1]) && Admit(m, ds[|ds| - 1]) == Some(more)
    ensures Describes(more, ds)
  {
    forall i | 0 <= i < |ds|
      ensures NoRepeats(ds[i].labels) && ds[i].name in more && more[ds[i].name] == DimOf(ds[i])
    {
      if i < |ds| - 1 {
        assert ds[..|ds| - 1][i] == ds[i];
      }
    }
  }

  lemma {:induction false} DescribedAdmitted(dims: map<string, Dim>, ds: seq<Desc>, m: map<string, Dim>)
    requires Extends(m, dims) && Describes(m, ds)
    ensures AdmitAll(dims, ds).Some? && Extends(m, AdmitAll(dims, ds).value)
  {
    if ds != [] {
      DescribedAdmitted(dims, ds[..|ds| - 1], m);
    }
  }

  // --- one connection after another

  /** Each connection unregisters the collector of the one before and registers its own. */
  function Connections(decls: seq<seq<Desc>>): Option<Books> {
    if decls == [] then Some(NO_BOOKS)
    else
      var n := |decls| - 1;
      match Connections(decls[..n])
      case None => None
      case Some(b) => Registered(if n == 0 then b else Unregistered(b, Names(decls[n - 1])), decls[n])
  }

  /** What is in use after some connections is what the last one declared. */
  ghost predicate Current(b: Books, decls: seq<seq<Desc>>) {
    var names := if decls == [] then {} else Names(decls[|decls| - 1]);
    b.ids == names && b.collectors == (if names == {} then {} else {names})
  }

  lemma NamesEmptyIff(ds: seq<Desc>)
    ensures Names(ds) == {} <==> ds == []
  {
  }

  lemma Turnover(b: Books, decls: seq<seq<Desc>>, ds: seq<Desc>)
    requires Current(b, decls)
    ensures var u := Freed(b, decls);
      var r := Registered(u, ds);
      && u.ids == {} && u.collectors == {} && u.dims == b.dims
      && (r.Some? <==> AdmitAll(b.dims, ds).Some?)
      && (r.Some? ==> Current(r.value, decls + [ds]) && r.value.dims == AdmitAll(b.dims, ds).value)
  {
    NamesEmptyIff(ds);
  }

  ghost predicate DescribesAll(m: map<string, Dim>, decls: seq<seq<Desc>>) {
    forall k :: 0 <= k < |decls| ==> Describes(m, decls[k])
  }

  lemma DescribesMore(m: map<string, Dim>, more: map<string, Dim>, decls: seq<seq<Desc>>)
    requires decls != [] && DescribesAll(m, decls[..|decls| - 1])
    requires Extends(more, m) && Describes(more, decls[|decls| - 1])
    ensures DescribesAll(more, decls)
  {
    forall k | 0 <= k < |decls| - 1
      ensures Describes(more, decls[k])
    {
      assert Describes(m, decls[..|decls| - 1][k]);
    }
  }

  lemma {:induction false} ConnectionsHold(decls: seq<seq<Desc>>)
    ensures var b := Connections(decls);
      b.Some? ==> Current(b.value, decls) && DescribesAll(b.value.dims, decls)
  {
    if decls != [] {
      var n := |decls| - 1;
      ConnectionsHold(decls[..n]);
      if Connections(decls).Some? {
        OneMoreConnection(Connections(decls[..n]).value, decls);
      }
    }
  }

  /** The registry as the next connection finds it, the last one's collector being unregistered. */
  function Freed(b: Books, decls: seq<seq<Desc>>): Books {
    if decls == [] then b else Unregistered(b, Names(decls[|decls| - 1]))
  }

  lemma NextConnection(b: Books, decls: seq<seq<Desc>>)
    requires decls != [] && Connections(decls[..|decls| - 1]) == Some(b)
    ensures Connections(decls) == Registered(Freed(b, decls[..|decls| - 1]), decls[|decls| - 1])
  {
  }

  lemma OneMoreConnection(b: Books, decls: seq<seq<Desc>>)
    requires decls != [] && Connections(decls[..|decls| - 1]) == Some(b) && Connections(decls).Some?
    requires Current(b, decls[..|decls| - 1]) && DescribesAll(b.dims, decls[..|decls| - 1])
    ensures Current(Connections(decls).value, decls) && DescribesAll(Connections(decls).value.dims, decls)
  {
    NextConnection(b, decls);
    LastTurnover(b, decls, Connections(decls).value);
    MoreDescribed(b.dims, decls);
  }

  lemma LastTurnover(b: Books, decls: seq<seq<Desc>>, r: Books)
    requires decls != [] && Current(b, decls[..|decls| - 1])
    requires Registered(Freed(b, decls[..|decls| - 1]), decls[|decls| - 1]) == Some(r)
    ensures Current(r, decls) && AdmitAll(b.dims, decls[|decls| - 1]) == Some(r.dims)
  {
    var before, last := decls[..|decls| - 1], decls[|decls| - 1];
    Turnover(b, before, last);
    assert decls == before + [last];
  }

  lemma MoreDescribed(dims: map<string, Dim>, decls: seq<seq<Desc>>)
    requires decls != [] && DescribesAll(dims, decls[..|decls| - 1]) && AdmitAll(dims, decls[|decls| - 1]).Some?
    ensures DescribesAll(AdmitAll(dims, decls[|decls| - 1]).value, decls)
  {
    AdmittedDescribes(dims, decls[|decls| - 1]);
    DescribesMore(dims, AdmitAll(dims, decls[|decls| - 1]).value, decls);
  }

  lemma {:induction false} DescribedConnections(decls: seq<seq<Desc>>, m: map<string, Dim>)
    requires DescribesAll(m, decls)
    ensures Connections(decls).Some? && Extends(m, Connections(decls).value.dims)
  {
    if decls != [] {
      var n := |decls| - 1;
      DescribedConnections(decls[..n], m);
      ConnectionsHold(decls[..n]);
      var b := Connections(decls[..n]).value;
      NextConnection(b, decls);
      Turnover(b, decls[..n], decls[n]);
      DescribedAdmitted(b.dims, decls[n], m);
    }
  }

  function AllDescs(decls: seq<seq<Desc>>): set<Desc> {
    set k, i | 0 <= k < |decls| && 0 <= i < |decls[k]| :: decls[k][i]
  }

  /** No vector repeats a label, and vectors of one name, in whichever connections, have the same
      labels and help text. */
  ghost predicate AllAgree(decls: seq<seq<Desc>>) {
    && (forall d :: d in AllDescs(decls) ==> NoRepeats(d.labels))
    && (forall d, e :: d in AllDescs(decls) && e in AllDescs(decls) && d.name == e.name ==> DimOf(d) == DimOf(e))
  }

  lemma AgreementDescribes(decls: seq<seq<Desc>>) returns (m: map<string, Dim>)
    requires AllAgree(decls)
    ensures DescribesAll(m, decls)
  {
    m := map d | d in AllDescs(decls) :: d.name := DimOf(d);
    forall k | 0 <= k < |decls|
      ensures Describes(m, decls[k])
    {
      assert forall i :: 0 <= i < |decls[k]| ==> decls[k][i] in AllDescs(decls);
    }
  }

  lemma DescribedAgrees(decls: seq<seq<Desc>>, m: map<string, Dim>, d: Desc)
    requires DescribesAll(m, decls) && d in AllDescs(decls)
    ensures NoRepeats(d.labels) && d.name in m && m[d.name] == DimOf(d)
  {
    var k, i :| 0 <= k < |decls| && 0 <= i < |decls[k]| && decls[k][i] == d;
    assert Describes(m, decls[k]);
  }

  /** A series of connections is survived exactly if no vector repeats a label and every name has the
      same labels and help text in all of them, however long ago it was last in use. */
  lemma ReconnectsSurviveIff(decls: seq<seq<Desc>>)
    ensures Connections(decls).Some? <==> AllAgree(decls)
  {
    if Connections(decls).Some? {
      ConnectionsHold(decls);
      var m := Connections(decls).value.dims;
      forall d | d in AllDescs(decls)
        ensures NoRepeats(d.labels) && d.name in m && m[d.name] == DimOf(d)
      {
        DescribedAgrees(decls, m, d);
      }
    }
    if AllAgree(decls) {
      var m := AgreementDescribes(decls);
      DescribedConnections(decls, m);
    }
  }

  lemma HostnameIsALabel(custom: bool, tags: seq<string>)
    requires "hostname" !in tags
    ensures "hostname" in NameSet(Declared(QMgrKind, true, custom, tags))
    ensures "hostname" !in NameSet(Declared(QMgrKind, false, custom, tags))
  {
    assert Declared(QMgrKind, true, custom, tags)[4] == "hostname";
    forall i | 0 <= i < |Declared(QMgrKind, false, custom, tags)|
      ensures Declared(QMgrKind, false, custom, tags)[i] != "hostname"
    {
      var n := |Builtin(QMgrKind, false, custom)|;
      assert i >= n ==> Declared(QMgrKind, false, custom, tags)[i] == tags[i - n];
    }
  }

  /** So a reconnect is not survived if the queue manager offers a hostname and an earlier one did
      not, or the other way round. */
  lemma HostChangeIsFatal(decls: seq<seq<Desc>>, d: Desc, e: Desc, custom: bool, custom': bool, tags: seq<string>)
    requires d in AllDescs(decls) && e in AllDescs(decls) && d.name == e.name && "hostname" !in tags
    requires d.labels == Declared(QMgrKind, true, custom, tags) && e.labels == Declared(QMgrKind, false, custom', tags)
    ensures Connections(decls).None?
  {
    ReconnectsSurviveIff(decls);
    HostnameIsALabel(custom, tags);
    HostnameIsALabel(custom', tags);
    assert DimOf(d) != DimOf(e);
  }
}
