/** How dates and times that arrive one by one are matched into stamps, operation by operation, and
    exactly when every stamp is made of its own operation's fields. */
module StampMatching {
  import opened Options
  import opened TraceModel

  datatype Field = Date(text: string) | Time(text: string)

  /** The date and the time waiting for each other; "" for none. */
  datatype Pending = Pending(date: string, time: string)

  const NOTHING := Pending("", "")

  function TakeField(p: Pending, s: Option<Stamp>, f: Field): (Pending, Option<Stamp>) {
    var q := if f.Date? then p.(date := f.text) else p.(time := f.text);
    if q.date != "" && q.time != "" then (NOTHING, Some(Stamp(q.date, q.time))) else (q, s)
  }

  /** One operation's fields in order. */
  function Take(p: Pending, s: Option<Stamp>, fields: seq<Field>): (Pending, Option<Stamp>)
    decreases |fields|
  {
    if fields == [] then (p, s)
    else
      var (q, u) := TakeField(p, s, fields[0]);
      Take(q, u, fields[1..])
  }

  /** What waits after all operations of an activity. */
  function Waiting(ops: seq<seq<Field>>): Pending {
    if ops == [] then NOTHING
    else Take(Waiting(ops[..|ops| - 1]), None, ops[|ops| - 1]).0
  }

  /** The stamp of each operation. */
  function Stamps(ops: seq<seq<Field>>): (r: seq<Option<Stamp>>)
    ensures |r| == |ops|
  {
    if ops == [] then []
    else Stamps(ops[..|ops| - 1]) + [Take(Waiting(ops[..|ops| - 1]), None, ops[|ops| - 1]).1]
  }

  lemma StampsMore(ops: seq<seq<Field>>, fields: seq<Field>)
    ensures Waiting(ops + [fields]) == Take(Waiting(ops), None, fields).0
    ensures Stamps(ops + [fields]) == Stamps(ops) + [Take(Waiting(ops), None, fields).1]
  {
    assert (ops + [fields])[..|ops|] == ops;
  }

  // --- one date and one time at most

  predicate SameKind(f: Field, g: Field) {
    f.Date? == g.Date?
  }

  /** At most one date and one time, neither empty. */
  predicate Lean(fields: seq<Field>) {
    && |fields| <= 2 && (forall i :: 0 <= i < |fields| ==> fields[i].text != "")
    && (|fields| == 2 ==> !SameKind(fields[0], fields[1]))
  }

  /** That is, no two fields are of one kind. */
  lemma LeanIff(fields: seq<Field>)
    ensures Lean(fields) <==>
      && (forall i, j :: 0 <= i < j < |fields| ==> !SameKind(fields[i], fields[j]))
      && (forall i :: 0 <= i < |fields| ==> fields[i].text != "")
  {
    if |fields| > 2 {
      assert SameKind(fields[0], fields[1]) || SameKind(fields[0], fields[2]) || SameKind(fields[1], fields[2]);
    }
  }

  ghost predicate AllLean(ops: seq<seq<Field>>) {
    forall i :: 0 <= i < |ops| ==> Lean(ops[i])
  }

  /** The stamp made of the operation's own two fields, or none if it has not got both. */
  function Own(fields: seq<Field>): Option<Stamp> {
    if |fields| != 2 then None
    else if fields[0].Date? then Some(Stamp(fields[0].text, fields[1].text))
    else Some(Stamp(fields[1].text, fields[0].text))
  }

  ghost predicate AllOwn(ops: seq<seq<Field>>) {
    forall k :: 0 <= k < |ops| ==> Stamps(ops)[k] == Own(ops[k])
  }

  predicate Lone(fields: seq<Field>) {
    |fields| == 1
  }

  /** Operation `i` has a single field, and from there to before `j` nothing comes of the other kind. */
  ghost predicate Offers(ops: seq<seq<Field>>, i: nat, j: nat) {
    && i < j <= |ops| && Lone(ops[i])
    && forall k :: i < k < j ==> ops[k] == [] || (Lone(ops[k]) && SameKind(ops[k][0], ops[i][0]))
  }

  /** Operation `i` lends to `j`, which has the other kind alone or first. */
  ghost predicate Lends(ops: seq<seq<Field>>, i: nat, j: nat) {
    j < |ops| && Offers(ops, i, j) && ops[j] != [] && !SameKind(ops[j][0], ops[i][0])
  }

  ghost predicate SomeLend(ops: seq<seq<Field>>) {
    exists i, j :: Lends(ops, i, j)
  }

  /** No two operations have the same date or the same time. */
  ghost predicate TextsDiffer(ops: seq<seq<Field>>) {
    forall i, j, a, b :: 0 <= i < j < |ops| && 0 <= a < |ops[i]| && 0 <= b < |ops[j]| && SameKind(ops[i][a], ops[j][b])
      ==> ops[i][a].text != ops[j][b].text
  }

  /** Waiting for its other half: nothing, or a single field. */
  function Held(o: Option<Field>): Pending {
    match o
    case None => NOTHING
    case Some(f) => if f.Date? then Pending(f.text, "") else Pending("", f.text)
  }

  lemma TakeOne(p: Pending, fields: seq<Field>)
    requires Lone(fields)
    ensures Take(p, None, fields) == TakeField(p, None, fields[0])
  {
    assert fields[1..] == [];
  }

  lemma TakeTwo(p: Pending, fields: seq<Field>)
    requires |fields| == 2
    ensures var (q, u) := TakeField(p, None, fields[0]); Take(p, None, fields) == TakeField(q, u, fields[1])
  {
    var (q, u) := TakeField(p, None, fields[0]);
    assert Take(p, None, fields) == Take(q, u, fields[1..]);
    assert fields[1..][0] == fields[1] && fields[1..][1..] == [];
    var (v, w) := TakeField(q, u, fields[1]);
    assert Take(q, u, fields[1..]) == Take(v, w, []);
  }

  /** An operation that finds nothing, or only what its own first field replaces, gets its own stamp. */
  lemma OwnFields(o: Option<Field>, fields: seq<Field>)
    requires Lean(fields) && fields != [] && (o.Some? ==> SameKind(fields[0], o.value))
    ensures Take(Held(o), None, fields) == (Held(if Lone(fields) then Some(fields[0]) else None), Own(fields))
  {
    if Lone(fields) {
      TakeOne(Held(o), fields);
    } else {
      TakeTwo(Held(o), fields);
    }
  }

  /** An operation whose first field meets one of the other kind gets a stamp of these two. */
  lemma MixedFields(f: Field, fields: seq<Field>)
    requires Lean(fields) && fields != [] && f.text != "" && !SameKind(fields[0], f)
    ensures Take(Held(Some(f)), None, fields).1 == Own([f, fields[0]])
  {
    if Lone(fields) {
      TakeOne(Held(Some(f)), fields);
    } else {
      TakeTwo(Held(Some(f)), fields);
    }
  }

  /** That is not its own unless the other field has the same text. */
  lemma MixedIsNotOwn(f: Field, fields: seq<Field>)
    requires Lean(fields) && fields != [] && !SameKind(fields[0], f)
    requires forall b :: 0 <= b < |fields| && SameKind(f, fields[b]) ==> f.text != fields[b].text
    ensures Own([f, fields[0]]) != Own(fields)
  {
  }

  /** A single field that completed no stamp is what waits. */
  lemma LoneUnstamped(p: Pending, fields: seq<Field>)
    requires Lean(fields) && Lone(fields) && Take(p, None, fields).1 == None
    ensures Take(p, None, fields).0 == Held(Some(fields[0]))
  {
    TakeOne(p, fields);
  }

  lemma {:induction false} StampsOfPart(ops: seq<seq<Field>>, m: nat)
    requires m <= |ops|
    ensures Stamps(ops[..m]) == Stamps(ops)[..m]
  {
    if m < |ops| {
      StampsOfPart(ops[..|ops| - 1], m);
      assert ops[..|ops| - 1][..m] == ops[..m];
    } else {
      assert ops[..m] == ops;
    }
  }

  lemma OffersLonger(ops: seq<seq<Field>>, i: nat)
    requires ops != [] && i < |ops| - 1 && Offers(ops[..|ops| - 1], i, |ops| - 1)
    requires ops[|ops| - 1] == [] || (Lone(ops[|ops| - 1]) && SameKind(ops[|ops| - 1][0], ops[i][0]))
    ensures Offers(ops, i, |ops|)
  {
    var n := |ops| - 1;
    forall k | i < k < |ops|
      ensures ops[k] == [] || (Lone(ops[k]) && SameKind(ops[k][0], ops[i][0]))
    {
      assert k < n ==> ops[..n][k] == ops[k];
    }
  }

  lemma NoLendInPart(ops: seq<seq<Field>>)
    requires ops != [] && AllLean(ops) && !SomeLend(ops)
    ensures AllLean(ops[..|ops| - 1]) && !SomeLend(ops[..|ops| - 1])
  {
    var part := ops[..|ops| - 1];
    forall i, j
      ensures !Lends(part, i, j)
    {
      assert !Lends(ops, i, j);
    }
  }

  /** If no operation lends to another, every stamp is its own, and what waits at the end is the
      last single field, if it is still on offer. */
  lemma {:induction false} NoLendAllOwn(ops: seq<seq<Field>>) returns (o: Option<nat>)
    requires AllLean(ops) && !SomeLend(ops)
    ensures AllOwn(ops)
    ensures o.Some? ==> Offers(ops, o.value, |ops|)
    ensures Waiting(ops) == Held(if o.Some? then Some(ops[o.value][0]) else None)
  {
    o := None;
    if ops != [] {
      var n := |ops| - 1;
      NoLendInPart(ops);
      o := NoLendAllOwn(ops[..n]);
      var held := if o.Some? then Some(ops[..n][o.value][0]) else None;
      if ops[n] == [] {
        if o.Some? {
          OffersLonger(ops, o.value);
        }
      } else {
        assert o.Some? ==> !Lends(ops, o.value, n);
        OwnFields(held, ops[n]);
        o := if Lone(ops[n]) then Some(n) else None;
      }
    }
  }

  /** If every stamp is its own, what is on offer at the end waits there, from the operation or one
      that replaced it. */
  lemma {:induction false} AllOwnWaits(ops: seq<seq<Field>>, i: nat) returns (h: nat)
    requires AllLean(ops) && AllOwn(ops) && Offers(ops, i, |ops|)
    ensures h < |ops| && Lone(ops[h]) && SameKind(ops[h][0], ops[i][0])
    ensures Waiting(ops) == Held(Some(ops[h][0]))
  {
    var n := |ops| - 1;
    h := n;
    if ops[n] == [] {
      StampsOfPart(ops, n);
      h := AllOwnWaits(ops[..n], i);
    } else {
      assert Stamps(ops)[n] == Own(ops[n]);
      LoneUnstamped(Waiting(ops[..n]), ops[n]);
    }
  }

  lemma OwnInPart(ops: seq<seq<Field>>, j: nat)
    requires AllLean(ops) && AllOwn(ops) && j < |ops|
    ensures AllLean(ops[..j]) && AllOwn(ops[..j])
    ensures Take(Waiting(ops[..j]), None, ops[j]).1 == Own(ops[j])
  {
    StampsOfPart(ops, j);
    StampsOfPart(ops, j + 1);
    assert ops[..j + 1] == ops[..j] + [ops[j]];
    StampsMore(ops[..j], ops[j]);
    assert Stamps(ops)[j] == Stamps(ops[..j + 1])[j];
  }

  lemma OffersInPart(ops: seq<seq<Field>>, i: nat, j: nat)
    requires Offers(ops, i, j)
    ensures Offers(ops[..j], i, j)
  {
  }

  lemma LendNotOwn(ops: seq<seq<Field>>, i: nat, j: nat)
    requires AllLean(ops) && TextsDiffer(ops) && Lends(ops, i, j)
    ensures !AllOwn(ops)
  {
    if AllOwn(ops) {
      OwnInPart(ops, j);
      OffersInPart(ops, i, j);
      var h := AllOwnWaits(ops[..j], i);
      MixedFields(ops[h][0], ops[j]);
      MixedIsNotOwn(ops[h][0], ops[j]);
    }
  }

  /** For operations with at most one date and one time each, all different: every stamp is its own
      exactly if no operation lends to a later one. */
  lemma AllOwnIff(ops: seq<seq<Field>>)
    requires AllLean(ops) && TextsDiffer(ops)
    ensures AllOwn(ops) <==> !SomeLend(ops)
  {
    if SomeLend(ops) {
      var i, j :| Lends(ops, i, j);
      LendNotOwn(ops, i, j);
    } else {
      var o := NoLendAllOwn(ops);
    }
  }
}
