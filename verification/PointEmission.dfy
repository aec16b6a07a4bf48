/** What the JSON collector writes: the list of points kept from one polling cycle to the next,
    and the blocks of limited size it is cut into. */
module PointEmission {
  import opened Options
  import opened PointAssembly

  // --- cutting a list into blocks

  function Concat<T>(parts: seq<seq<T>>): seq<T> {
    if parts == [] then [] else Concat(parts[..|parts| - 1]) + parts[|parts| - 1]
  }

  /** Non-empty blocks, all but the last of exactly the given size and the last no longer. */
  ghost predicate BlocksOf<T>(parts: seq<seq<T>>, size: nat) {
    && (forall i :: 0 <= i < |parts| ==> 1 <= |parts[i]| <= size)
    && (forall i :: 0 <= i < |parts| - 1 ==> |parts[i]| == size)
  }

  lemma ConcatStep<T>(parts: seq<seq<T>>, part: seq<T>)
    ensures Concat(parts + [part]) == Concat(parts) + part
  {
    assert (parts + [part])[..|parts|] == parts;
  }

  lemma NextSlice<T>(slice: seq<T>, i: nat, end: nat)
    requires i <= end <= |slice|
    ensures slice[..i] + slice[i..end] == slice[..end]
    ensures end == |slice| ==> slice[..end] == slice
  {
  }

  method Chunk<T>(slice: seq<T>, chunkSize: int) returns (chunks: seq<seq<T>>)
    ensures Concat(chunks) == slice
    ensures BlocksOf(chunks, if chunkSize <= 0 then |slice| else chunkSize)
  {
    chunks := [];
    var size := if chunkSize <= 0 then |slice| else chunkSize;
    var i := 0;
    while i < |slice|
      invariant 0 <= i && (slice == [] ==> chunks == [])
      invariant i <= |slice| ==> Concat(chunks) == slice[..i] && forall k :: 0 <= k < |chunks| ==> |chunks[k]| == size
      invariant i > |slice| ==> Concat(chunks) == slice && BlocksOf(chunks, size)
      decreases |slice| - i
    {
      var end := i + size;
      if end > |slice| {
        end := |slice|;
      }
      ConcatStep(chunks, slice[i..end]);
      NextSlice(slice, i, end);
      chunks := chunks + [slice[i..end]];
      i := i + size;
    }
    NextSlice(slice, 0, |slice|);
  }

  lemma BlocksLength<T>(parts: seq<seq<T>>, size: nat)
    requires BlocksOf(parts, size) && parts != []
    ensures (|parts| - 1) * size < |Concat(parts)| <= |parts| * size
  {
    var n := |parts| - 1;
    FullLength(parts[..n], size);
    assert |Concat(parts)| == n * size + |parts[n]|;
    assert |parts| * size == n * size + size;
  }

  lemma {:induction false} FullLength<T>(parts: seq<seq<T>>, size: nat)
    requires forall i :: 0 <= i < |parts| ==> |parts[i]| == size
    ensures |Concat(parts)| == |parts| * size
  {
    if parts != [] {
      FullLength(parts[..|parts| - 1], size);
      assert |parts| * size == (|parts| - 1) * size + size;
    }
  }

  /** A list can be cut into such blocks in one way only, so Chunk's contract leaves it no choice. */
  lemma {:induction false} BlocksAreUnique<T>(a: seq<seq<T>>, b: seq<seq<T>>, size: nat)
    requires BlocksOf(a, size) && BlocksOf(b, size) && Concat(a) == Concat(b)
    ensures a == b
    decreases |a|
  {
    if a == [] || b == [] {
      if a != [] { BlocksLength(a, size); }
      if b != [] { BlocksLength(b, size); }
    } else {
      BlocksLength(a, size);
      BlocksLength(b, size);
      var n := |a| - 1;
      SameCount(|a|, |b|, size, |Concat(a)|);
      FullLength(a[..n], size);
      FullLength(b[..n], size);
      assert Concat(a[..n]) == Concat(a)[..n * size] == Concat(b[..n]);
      assert a[n] == Concat(a)[n * size..] == b[n];
      BlocksAreUnique(a[..n], b[..n], size);
      assert a == a[..n] + [a[n]] && b == b[..n] + [b[n]];
    }
  }

  lemma SameCount(m: nat, n: nat, size: nat, total: nat)
    requires m >= 1 && n >= 1
    requires (m - 1) * size < total <= m * size && (n - 1) * size < total <= n * size
    ensures m == n
  {
    MoreBlocksAreLonger(m, n, size);
    MoreBlocksAreLonger(n, m, size);
  }

  lemma MoreBlocksAreLonger(m: nat, n: nat, size: nat)
    ensures m < n ==> m * size <= (n - 1) * size
  {
  }

  lemma BlocksNeedSize<T>(parts: seq<seq<T>>, size: nat)
    ensures BlocksOf(parts, size) && parts != [] ==> size >= 1
  {
    if BlocksOf(parts, size) && parts != [] {
      assert 1 <= |parts[0]| <= size;
    }
  }

  /** A size of zero or less asks for a single block, or none for an empty list. */
  lemma NoLimitOneBlock<T>(slice: seq<T>, chunks: seq<seq<T>>)
    requires Concat(chunks) == slice && BlocksOf(chunks, |slice|)
    ensures chunks == if slice == [] then [] else [slice]
  {
    if slice == [] {
      BlocksNeedSize(chunks, 0);
    } else {
      assert [slice][..0] == [];
      assert Concat([slice]) == Concat([slice][..0]) + slice;
      BlocksAreUnique(chunks, [slice], |slice|);
    }
  }

  // --- the list of points over the cycles

  /** One emitting cycle: the listings of the tables, in whatever order each was read. */
  datatype Cycle<P> = Cycle(status: Option<seq<P>>, published: seq<P>, statistics: seq<P>)

  /** The published and statistics points of a cycle. */
  function Unpolled<P>(c: Cycle<P>): seq<P> {
    c.published + c.statistics
  }

  function Carry<P>(all: seq<P>, c: Cycle<P>): seq<P> {
    (if c.status.Some? then c.status.value else all) + Unpolled(c)
  }

  function AllPoints<P>(cycles: seq<Cycle<P>>): seq<P> {
    if cycles == [] then [] else Carry(AllPoints(cycles[..|cycles| - 1]), cycles[|cycles| - 1])
  }

  /** The published and statistics points of all cycles from number `p` on. */
  function UnpolledFrom<P>(cycles: seq<Cycle<P>>, p: nat): seq<P> {
    if |cycles| <= p then []
    else UnpolledFrom(cycles[..|cycles| - 1], p) + Unpolled(cycles[|cycles| - 1])
  }

  /** Where the points kept start: the last polling cycle, or the first of all. */
  function Since<P>(cycles: seq<Cycle<P>>): (p: nat)
    ensures p <= |cycles|
    ensures cycles == [] || p < |cycles|
    ensures forall i :: p < i < |cycles| ==> cycles[i].status.None?
    ensures p == 0 || cycles[p].status.Some?
  {
    if cycles == [] || cycles[|cycles| - 1].status.Some? then (if cycles == [] then 0 else |cycles| - 1)
    else Since(cycles[..|cycles| - 1])
  }

  function StatusOf<P>(c: Cycle<P>): seq<P> {
    if c.status.Some? then c.status.value else []
  }

  /** A cycle's status points, if it polled, and the other points from that cycle onward. */
  function FromCycle<P>(cycles: seq<Cycle<P>>, p: nat): seq<P>
    requires p < |cycles|
  {
    StatusOf(cycles[p]) + UnpolledFrom(cycles, p)
  }

  /** After any run, the list is the last polling cycle's status points and then every published and
      statistics point from that cycle onward; if no cycle polled, every such point of the run. */
  lemma {:induction false} PointsKept<P>(cycles: seq<Cycle<P>>)
    requires cycles != []
    ensures AllPoints(cycles) == FromCycle(cycles, Since(cycles))
  {
    var n := |cycles| - 1;
    if cycles[n].status.Some? || n == 0 {
      KeptOne(cycles);
    } else {
      PointsKept(cycles[..n]);
      KeptMore(cycles, Since(cycles));
    }
  }

  lemma EmptyPlus<P>(a: seq<P>)
    ensures [] + a == a
  {
  }

  lemma KeptOne<P>(cycles: seq<Cycle<P>>)
    requires cycles != [] && (cycles[|cycles| - 1].status.Some? || |cycles| == 1)
    ensures AllPoints(cycles) == FromCycle(cycles, |cycles| - 1)
  {
    var n := |cycles| - 1;
    EmptyPlus(Unpolled(cycles[n]));
    assert UnpolledFrom(cycles[..n], n) == [];
    assert n == 0 ==> AllPoints(cycles[..n]) == [];
  }

  lemma KeptMore<P>(cycles: seq<Cycle<P>>, p: nat)
    requires p < |cycles| - 1 && cycles[|cycles| - 1].status.None?
    requires AllPoints(cycles[..|cycles| - 1]) == FromCycle(cycles[..|cycles| - 1], p)
    ensures AllPoints(cycles) == FromCycle(cycles, p)
  {
    var n := |cycles| - 1;
    assert cycles[..n][p] == cycles[p];
    Associate(StatusOf(cycles[p]), UnpolledFrom(cycles[..n], p), Unpolled(cycles[n]));
  }

  lemma Associate<P>(a: seq<P>, b: seq<P>, c: seq<P>)
    ensures (a + b) + c == a + (b + c)
  {
  }

  /** The same tables, read in another order. */
  ghost predicate SameCycle<P>(c: Cycle<P>, d: Cycle<P>) {
    && c.status.Some? == d.status.Some?
    && (c.status.Some? ==> multiset(c.status.value) == multiset(d.status.value))
    && multiset(c.published) == multiset(d.published)
    && multiset(c.statistics) == multiset(d.statistics)
  }

  /** The points written do not depend on the order in which the maps are read. */
  lemma {:induction false} OrderOfReading<P>(a: seq<Cycle<P>>, b: seq<Cycle<P>>)
    requires |a| == |b| && forall i :: 0 <= i < |a| ==> SameCycle(a[i], b[i])
    ensures multiset(AllPoints(a)) == multiset(AllPoints(b))
  {
    if a != [] {
      var n := |a| - 1;
      OrderOfReading(a[..n], b[..n]);
      assert SameCycle(a[n], b[n]);
    }
  }

  // --- the cycles of the collector

  /** A listing of a table: every entry once, in the given order of the keys. */
  ghost predicate Lists<P>(s: seq<P>, order: seq<string>, m: map<string, P>) {
    && |s| == |order|
    && (forall i, j :: 0 <= i < j < |order| ==> order[i] != order[j])
    && (forall i :: 0 <= i < |order| ==> order[i] in m && s[i] == m[order[i]])
    && (forall k :: k in m ==> k in order)
  }

  /** Reads a map in the arbitrary order the language gives. */
  method List<P>(m: map<string, P>) returns (s: seq<P>, order: seq<string>)
    ensures Lists(s, order, m)
  {
    s, order := [], [];
    var left := m.Keys;
    while left != {}
      invariant left <= m.Keys && |s| == |order|
      invariant forall i, j :: 0 <= i < j < |order| ==> order[i] != order[j]
      invariant forall i :: 0 <= i < |order| ==> order[i] in m && order[i] !in left && s[i] == m[order[i]]
      invariant forall k :: k in m ==> k in left || k in order
      decreases |left|
    {
      var k :| k in left;
      s, order, left := s + [m[k]], order + [k], left - {k};
    }
  }

  class Emitter {
    var first: bool
    var allPoints: seq<Point>
    ghost var cycles: seq<Cycle<Point>>

    ghost predicate Valid()
      reads this
    {
      && allPoints == AllPoints(cycles)
      && (first ==> cycles == [])
    }

    constructor ()
      ensures Valid() && first && cycles == []
    {
      first, allPoints, cycles := true, [], [];
    }

    /** The first cycle writes nothing and keeps nothing. */
    method Skip()
      requires Valid() && first
      modifies this
      ensures Valid() && !first && cycles == [] && allPoints == old(allPoints)
    {
      first := false;
    }

    /** The end of any other cycle: writes the whole list, the points of earlier cycles since the
        last poll included. */
    method Emit(a: Assembler, statistics: map<string, Point>, polled: bool, recordmax: int)
      returns (written: seq<seq<Point>>, ghost c: Cycle<Point>, ghost own: seq<string>, ghost published: seq<string>)
      requires Valid() && !first
      modifies this
      ensures Valid() && !first && cycles == old(cycles) + [c] && Concat(written) == allPoints
      ensures BlocksOf(written, if recordmax <= 0 then |allPoints| else recordmax)
      ensures c.status.Some? == polled && (polled ==> Lists(c.status.value, own, a.ptMap))
      ensures Lists(c.published, published, a.ptMapPub)
      ensures exists order :: Lists(c.statistics, order, statistics)
    {
      own, c := [], Cycle(None, [], []);
      if polled {
        var s;
        s, own := List(a.ptMap);
        allPoints := s;
        c := c.(status := Some(s));
      }
      var pub, stats;
      pub, published := List(a.ptMapPub);
      ghost var order;
      stats, order := List(statistics);
      c := c.(published := pub, statistics := stats);
      Associate(allPoints, pub, stats);
      allPoints := allPoints + pub;
      allPoints := allPoints + stats;
      cycles := cycles + [c];
      assert cycles[..|cycles| - 1] == old(cycles);
      written := Chunk(allPoints, recordmax);
    }
  }

  /** How many entries of a table hold a point. */
  ghost function Holders<P>(order: seq<string>, m: map<string, P>, pt: P): nat
    requires forall i :: 0 <= i < |order| ==> order[i] in m
  {
    if order == [] then 0
    else Holders(order[..|order| - 1], m, pt) + if m[order[|order| - 1]] == pt then 1 else 0
  }

  /** A listing has a point as often as entries hold it. */
  lemma {:induction false} ListedAsOften<P>(s: seq<P>, order: seq<string>, m: map<string, P>, pt: P)
    requires |s| == |order| && forall i :: 0 <= i < |order| ==> order[i] in m && s[i] == m[order[i]]
    ensures multiset(s)[pt] == Holders(order, m, pt)
  {
    if s != [] {
      var n := |s| - 1;
      ListedAsOften(s[..n], order[..n], m, pt);
      assert s == s[..n] + [s[n]];
    }
  }

  lemma {:induction false} HoldersAre<P>(order: seq<string>, m: map<string, P>, k: string)
    requires forall i :: 0 <= i < |order| ==> order[i] in m
    requires forall i, j :: 0 <= i < j < |order| ==> order[i] != order[j]
    requires k in m
    ensures k in order ==> Holders(order, m, m[k]) >= 1
    ensures (forall i :: 0 <= i < |order| && m[order[i]] == m[k] ==> order[i] == k) ==>
      Holders(order, m, m[k]) == if k in order then 1 else 0
  {
    if order != [] {
      var n := |order| - 1;
      HoldersAre(order[..n], m, k);
      assert order == order[..n] + [order[n]];
    }
  }

  /** No other entry holds the same point. */
  ghost predicate HeldOnce<P>(m: map<string, P>, k: string)
    requires k in m
  {
    forall l :: l in m && m[l] == m[k] ==> l == k
  }

  lemma OnceIfAlone<P>(s: seq<P>, order: seq<string>, m: map<string, P>, k: string)
    requires Lists(s, order, m) && k in m
    ensures multiset(s)[m[k]] >= 1
    ensures HeldOnce(m, k) ==> multiset(s)[m[k]] == 1
  {
    ListedAsOften(s, order, m, m[k]);
    HoldersAre(order, m, k);
  }

  /** On a polling cycle, a point that has both published and polled values is written twice: once
      from each table, each copy with the one shared map of metrics. */
  lemma MergedPointWrittenTwice(c: Cycle<Point>, own: map<string, Point>, published: map<string, Point>,
                                oOrder: seq<string>, pOrder: seq<string>, key1: string, key: string)
    requires c.status.Some? && Lists(c.status.value, oOrder, own) && Lists(c.published, pOrder, published)
    requires key1 in own && key in published && own[key1] == published[key]
    ensures forall all :: multiset(Carry(all, c))[published[key]] >= 2
    ensures HeldOnce(own, key1) && HeldOnce(published, key) ==>
      multiset(c.status.value)[published[key]] == 1 && multiset(c.published)[published[key]] == 1
  {
    OnceIfAlone(c.status.value, oOrder, own, key1);
    OnceIfAlone(c.published, pOrder, published, key);
    var pt := published[key];
    forall all
      ensures multiset(Carry(all, c))[pt] >= 2
    {
      assert multiset(Carry(all, c)) == multiset(c.status.value) + multiset(c.published) + multiset(c.statistics);
    }
  }
}
