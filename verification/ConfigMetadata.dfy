/** The parts of the configuration that are lists: metadata tags with their values, and the metric
    filters of each object type, from the file or from comma-separated strings. */
module ConfigMetadata {
  import opened Options
  import opened Strings
  import opened MetricLabels

  // --- joining a list of the file into the one string the rest of the program expects

  lemma {:induction false} JoinMore(parts: seq<string>, last: string, sep: char)
    requires parts != []
    ensures Join(parts + [last], sep) == Join(parts, sep) + [sep] + last
  {
    if |parts| == 1 {
      assert (parts + [last])[1..] == [last];
    } else {
      assert (parts + [last])[1..] == parts[1..] + [last];
      JoinMore(parts[1..], last, sep);
      assert Join(parts + [last], sep) == parts[0] + [sep] + (Join(parts[1..], sep) + [sep] + last);
    }
  }

  method JoinList(val: seq<string>) returns (s: string)
    ensures s == Join(val, ',')
  {
    s := "";
    for i := 0 to |val|
      invariant s == Join(val[..i], ',')
    {
      assert val[..i + 1] == val[..i] + [val[i]];
      if i == 0 {
        s := val[0];
      } else {
        JoinMore(val[..i], val[i], ',');
        s := s + "," + val[i];
      }
    }
    assert val[..|val|] == val;
  }

  // --- metadata

  /** What the file says: a map as it happens to be read, or two lists. */
  datatype FileMetadata = FileMetadata(pairs: seq<(string, string)>, tags: seq<string>, values: seq<string>)

  function Firsts(pairs: seq<(string, string)>): seq<string> {
    seq(|pairs|, i requires 0 <= i < |pairs| => pairs[i].0)
  }

  function Seconds(pairs: seq<(string, string)>): seq<string> {
    seq(|pairs|, i requires 0 <= i < |pairs| => pairs[i].1)
  }

  /** A comma-separated string after command line, environment and file have had their say. */
  function Listed(given: Option<string>, file: Option<seq<string>>): string {
    if given.Some? then given.value else if file.Some? then Join(file.value, ',') else ""
  }

  class Metadata {
    var metadataTags: string
    var metadataValues: string
    var tagsArray: seq<string>
    var valuesArray: seq<string>

    /** The strings as command line and environment leave them. */
    constructor (tags: Option<string>, values: Option<string>)
      ensures metadataTags == Listed(tags, None) && metadataValues == Listed(values, None)
      ensures tagsArray == [] && valuesArray == []
    {
      metadataTags := if tags.Some? then tags.value else "";
      metadataValues := if values.Some? then values.value else "";
      tagsArray, valuesArray := [], [];
    }

    method CopyFile(tags: Option<string>, values: Option<string>, file: FileMetadata)
      requires tagsArray == valuesArray == []
      modifies this
      ensures file.pairs == [] ==>
        && tagsArray == valuesArray == []
        && metadataTags == Listed(tags, Some(file.tags)) && metadataValues == Listed(values, Some(file.values))
      ensures file.pairs != [] ==>
        && metadataTags == metadataValues == ""
        && tagsArray == Firsts(file.pairs) && valuesArray == Seconds(file.pairs)
    {
      if |file.pairs| == 0 {
        metadataTags := JoinList(file.tags);
        if tags.Some? {
          metadataTags := tags.value;
        }
        metadataValues := JoinList(file.values);
        if values.Some? {
          metadataValues := values.value;
        }
      } else {
        metadataTags, metadataValues := "", "";
        for i := 0 to |file.pairs|
          invariant tagsArray == Firsts(file.pairs[..i]) && valuesArray == Seconds(file.pairs[..i])
          invariant metadataTags == metadataValues == ""
        {
          tagsArray := tagsArray + [file.pairs[i].0];
          valuesArray := valuesArray + [file.pairs[i].1];
        }
        assert file.pairs[..|file.pairs|] == file.pairs;
      }
    }

    method Verify() returns (ok: bool)
      modifies this
      ensures old(metadataTags) == "" ==> ok && tagsArray == old(tagsArray) && valuesArray == old(valuesArray)
      ensures old(metadataTags) != "" ==>
        && tagsArray == Split(old(metadataTags), ',') && valuesArray == Split(old(metadataValues), ',')
        && (ok <==> |tagsArray| == |valuesArray|)
      ensures metadataTags == old(metadataTags) && metadataValues == old(metadataValues)
    {
      ok := true;
      if metadataTags != "" {
        tagsArray := Split(metadataTags, ',');
        valuesArray := Split(metadataValues, ',');
        if |tagsArray| != |valuesArray| {
          ok := false;
        }
      }
    }
  }

  /** The tags and values the program ends up with, or None for an error. */
  function Resolved(tags: Option<string>, values: Option<string>, file: Option<FileMetadata>)
    : (r: Option<(seq<string>, seq<string>)>)
    ensures r.Some? ==> |r.value.0| == |r.value.1|
  {
    if file.Some? && file.value.pairs != [] then Some((Firsts(file.value.pairs), Seconds(file.value.pairs)))
    else
      var t := Listed(tags, if file.Some? then Some(file.value.tags) else None);
      var v := Listed(values, if file.Some? then Some(file.value.values) else None);
      if t == "" then Some(([], []))
      else if |Split(t, ',')| == |Split(v, ',')| then Some((Split(t, ','), Split(v, ',')))
      else None
  }

  /** All of the configuration of metadata. Whatever the path, success means as many values as tags. */
  method Configure(tags: Option<string>, values: Option<string>, file: Option<FileMetadata>)
    returns (r: Option<(seq<string>, seq<string>)>)
    ensures r == Resolved(tags, values, file)
  {
    var m := new Metadata(tags, values);
    if file.Some? {
      m.CopyFile(tags, values, file.value);
    }
    var ok := m.Verify();
    r := if ok then Some((m.tagsArray, m.valuesArray)) else None;
  }

  /** So labelling never indexes out of range. */
  method LabelWith(labels: Labels, tags: Option<string>, values: Option<string>, file: Option<FileMetadata>)
    returns (ok: bool, r: Labels)
    ensures Resolved(tags, values, file).Some? ==>
      ok && r == WithMeta(labels, Resolved(tags, values, file).value.0, Resolved(tags, values, file).value.1)
  {
    var c := Configure(tags, values, file);
    if c.None? {
      return false, labels;
    }
    ok, r := AddMetaLabels(labels, c.value.0, c.value.1);
    assert c.value.1[..|c.value.0|] == c.value.1;
  }

  lemma JoinEmptyIff(parts: seq<string>, sep: char)
    ensures Join(parts, sep) == "" <==> parts == [] || parts == [""]
  {
    if |parts| == 1 {
      assert parts == [parts[0]];
    }
  }

  /** Two lists of the file come through unchanged exactly if both are empty, or are equally long,
      free of commas and not one single empty tag. */
  lemma ListsSurviveIff(tags: seq<string>, values: seq<string>)
    ensures Resolved(None, None, Some(FileMetadata([], tags, values))) == Some((tags, values)) <==>
      (|tags| == |values| && FreeOf(tags, ',') && FreeOf(values, ',') && tags != [""])
  {
    JoinEmptyIff(tags, ',');
    SplitInvertsJoinIff(tags, ',');
    SplitInvertsJoinIff(values, ',');
  }

  function Count(s: string, c: char): nat {
    if s == "" then 0 else Count(s[1..], c) + if s[0] == c then 1 else 0
  }

  lemma {:induction false} SplitLength(s: string, sep: char)
    ensures |Split(s, sep)| == Count(s, sep) + 1
  {
    if s != "" {
      SplitLength(s[1..], sep);
    }
  }

  /** Two given strings are in error exactly if there are tags and the commas do not match in number. */
  lemma StringsFailIff(tags: string, values: string, file: Option<FileMetadata>)
    requires file.Some? ==> file.value.pairs == []
    ensures Resolved(Some(tags), Some(values), file).None? <==> tags != "" && Count(tags, ',') != Count(values, ',')
  {
    SplitLength(tags, ',');
    SplitLength(values, ',');
  }

  /** Tags without values, and no file: a single tag gets an empty value, more are in error. */
  lemma MissingValues(tags: string)
    ensures Resolved(Some(tags), None, None) ==
      if tags == "" then Some(([], []))
      else if ',' in tags then None
      else Some(([tags], [""]))
  {
    if ',' !in tags {
      SplitPeels(tags, "", ',');
    } else {
      SplitLength(tags, ',');
      CountIn(tags, ',');
    }
  }

  lemma {:induction false} CountIn(s: string, c: char)
    ensures c in s <==> Count(s, c) > 0
  {
    if s != "" {
      CountIn(s[1..], c);
      assert s == [s[0]] + s[1..];
    }
  }

  /** Neither tags nor values are given, whatever the path: there are none. */
  lemma NothingGiven(values: Option<string>)
    ensures Resolved(None, values, None) == Some(([], []))
  {
  }

  // --- metric filters

  /** The file's entry for an object type: nothing, not a list, or a list whose elements should be
      names. */
  datatype Entry = Null | NotAList | Names(items: seq<Option<string>>)

  datatype FilterOutcome = Accepted | Refused | Crashed

  function NamesIn(items: seq<Option<string>>): set<string> {
    set i | 0 <= i < |items| && items[i].Some? :: items[i].value
  }

  function Strip(s: string): string {
    if s == "" then "" else (if s[0] == ' ' then "" else [s[0]]) + Strip(s[1..])
  }

  function TextNames(s: string): set<string> {
    var t := Strip(s);
    if t == "" then {} else set n | n in Split(t, ',')
  }

  function Get(text: map<string, string>, k: string): string {
    if k in text then text[k] else ""
  }

  predicate Usable(known: bool, item: Option<string>) {
    known && item.Some?
  }

  predicate AllUsable(known: bool, items: seq<Option<string>>) {
    forall i :: 0 <= i < |items| ==> Usable(known, items[i])
  }

  /** An entry ends the program: a list element is no name, or there is a name but no such type. */
  predicate Crashes(text: map<string, string>, k: string, e: Entry) {
    Get(text, k) == "" && e.Names? && !AllUsable(k in text, e.items)
  }

  predicate Refuses(text: map<string, string>, k: string, e: Entry) {
    Get(text, k) == "" && e.NotAList?
  }

  // --- what the filters hold, told without the functions above

  lemma NamesInIff(items: seq<Option<string>>, n: string)
    ensures n in NamesIn(items) <==> Some(n) in items
  {
    if Some(n) in items {
      var i :| 0 <= i < |items| && items[i] == Some(n);
    }
  }

  /** Taking out the spaces leaves a text without any alone, and works piece by piece. */
  lemma {:induction false} StripSpaces(s: string)
    ensures ' ' !in Strip(s) && Strip(" ") == ""
  {
    if s != "" {
      StripSpaces(s[1..]);
    }
  }

  lemma {:induction false} StripConcat(a: string, b: string)
    ensures Strip(a + b) == Strip(a) + Strip(b)
  {
    if a == "" {
      assert a + b == b;
    } else {
      assert (a + b)[1..] == a[1..] + b;
      StripConcat(a[1..], b);
    }
  }

  lemma {:induction false} StripFree(s: string)
    requires ' ' !in s
    ensures Strip(s) == s
  {
    if s != "" {
      StripFree(s[1..]);
    }
  }

  /** Each part stripped. */
  function StripAll(parts: seq<string>): seq<string> {
    if parts == [] then [] else [Strip(parts[0])] + StripAll(parts[1..])
  }

  lemma {:induction false} StripAllIff(parts: seq<string>, n: string)
    ensures n in StripAll(parts) <==> exists i :: 0 <= i < |parts| && n == Strip(parts[i])
  {
    if parts != [] {
      StripAllIff(parts[1..], n);
      assert parts == [parts[0]] + parts[1..];
    }
  }

  /** Spaces may be taken out before or after splitting at the commas. */
  lemma {:induction false} StripThenSplit(s: string)
    ensures Split(Strip(s), ',') == StripAll(Split(s, ','))
  {
    if s == "" {
      assert [""][1..] == [];
    } else {
      StripThenSplit(s[1..]);
      var rest := Split(s[1..], ',');
      if s[0] == ',' {
        assert Strip(s) == [','] + Strip(s[1..]) && Strip(s)[1..] == Strip(s[1..]);
        assert ([""] + rest)[1..] == rest;
      } else {
        SplitOther(s[0], s[1..]);
        assert ([[s[0]] + rest[0]] + rest[1..])[1..] == rest[1..];
        StripConcat([s[0]], rest[0]);
      }
    }
  }

  lemma StripStep(c: char, rest: string)
    ensures Strip([c] + rest) == (if c == ' ' then "" else [c]) + Strip(rest)
  {
    assert ([c] + rest)[1..] == rest;
  }

  lemma SplitStep(c: char, rest: string)
    requires c != ','
    ensures Split([c] + rest, ',') == [[c] + Split(rest, ',')[0]] + Split(rest, ',')[1..]
  {
    assert ([c] + rest)[1..] == rest;
  }

  lemma SplitOther(c: char, rest: string)
    requires c != ',' && Split(Strip(rest), ',') == StripAll(Split(rest, ','))
    ensures Split(Strip([c] + rest), ',') ==
      [(if c == ' ' then "" else [c]) + StripAll(Split(rest, ','))[0]] + StripAll(Split(rest, ','))[1..]
  {
    var parts := StripAll(Split(rest, ','));
    StripStep(c, rest);
    if c == ' ' {
      assert "" + Strip(rest) == Strip(rest) && "" + parts[0] == parts[0];
      assert [parts[0]] + parts[1..] == parts;
    } else {
      SplitStep(c, Strip(rest));
    }
  }

  /** The names of a string are its parts between commas without their spaces; a string of nothing but
      spaces has none. */
  lemma TextNamesIff(s: string, n: string)
    ensures n in TextNames(s) <==>
      HasText(s) && exists i :: 0 <= i < |Split(s, ',')| && n == Strip(Split(s, ',')[i])
  {
    StripThenSplit(s);
    StripAllIff(Split(s, ','), n);
    OnlySpaces(s);
  }

  predicate HasText(s: string) {
    exists i :: 0 <= i < |s| && s[i] != ' '
  }

  lemma {:induction false} OnlySpaces(s: string)
    ensures Strip(s) != "" <==> HasText(s)
  {
    if s != "" {
      OnlySpaces(s[1..]);
      if i :| 0 <= i < |s[1..]| && s[1..][i] != ' ' {
        assert s[i + 1] != ' ';
      }
      if i :| 0 < i < |s| && s[i] != ' ' {
        assert s[1..][i - 1] != ' ';
      }
    }
  }

  /** No string is given for the type, or an empty one. */
  predicate NoText(text: map<string, string>, k: string) {
    k !in text || text[k] == ""
  }

  /** The program crashes on a list for a type without a string, if there is any name and no such type,
      or an element that is no name. */
  lemma CrashesIff(text: map<string, string>, k: string, e: Entry)
    ensures Crashes(text, k, e) <==>
      e.Names? && NoText(text, k) && e.items != [] && (k !in text || None in e.items)
  {
    if e.Names? && e.items != [] && k !in text {
      assert !Usable(false, e.items[0]);
    }
    if e.Names? && None in e.items {
      var i :| 0 <= i < |e.items| && e.items[i] == None;
      assert !Usable(k in text, e.items[i]);
    }
  }

  lemma RefusesIff(text: map<string, string>, k: string, e: Entry)
    ensures Refuses(text, k, e) <==> e.NotAList? && NoText(text, k)
  {
  }

  /** The file's names for a type: those of all its lists, if the type has no string. */
  lemma {:induction false} FromFileIff(text: map<string, string>, entries: seq<(string, Entry)>, k: string, n: string)
    ensures n in FromFile(text, entries, k) <==>
      NoText(text, k) && exists i :: 0 <= i < |entries| && Lists(entries[i], k, n)
  {
    if entries != [] {
      var m := |entries| - 1;
      FromFileIff(text, entries[..m], k, n);
      if entries[m].1.Names? {
        NamesInIff(entries[m].1.items, n);
      }
      ListsLast(entries, k, n);
    }
  }

  predicate Lists(entry: (string, Entry), k: string, n: string) {
    entry.0 == k && entry.1.Names? && Some(n) in entry.1.items
  }

  lemma ListsLast(entries: seq<(string, Entry)>, k: string, n: string)
    requires entries != []
    ensures var m := |entries| - 1;
      (exists i :: 0 <= i <= m && Lists(entries[i], k, n)) <==>
      (exists i :: 0 <= i < m && Lists(entries[..m][i], k, n)) || Lists(entries[m], k, n)
  {
    var m := |entries| - 1;
    if i :| 0 <= i < m && Lists(entries[..m][i], k, n) {
      assert Lists(entries[i], k, n);
    }
    if i :| 0 <= i < m && Lists(entries[i], k, n) {
      assert Lists(entries[..m][i], k, n);
    }
  }

  class Filters {
    /** The strings from command line and environment, for every known object type. */
    const text: map<string, string>
    var chosen: map<string, set<string>>

    constructor (text: map<string, string>)
      ensures this.text == text && chosen == map k | k in text :: {}
    {
      this.text := text;
      chosen := map k | k in text :: {};
    }

    method AddNames(k: string, items: seq<Option<string>>) returns (ok: bool)
      requires chosen.Keys == text.Keys
      modifies this
      ensures ok <==> AllUsable(k in text, items)
      ensures chosen.Keys == text.Keys
      ensures ok ==> forall l :: l in text ==>
        chosen[l] == old(chosen)[l] + if l == k then NamesIn(items) else {}
    {
      ok := true;
      for i := 0 to |items|
        invariant AllUsable(k in text, items[..i])
        invariant chosen.Keys == text.Keys
        invariant forall l :: l in text ==>
          chosen[l] == old(chosen)[l] + if l == k then NamesIn(items[..i]) else {}
      {
        if k !in text || items[i].None? {
          assert !Usable(k in text, items[i]);
          return false;
        }
        assert NamesIn(items[..i + 1]) == NamesIn(items[..i]) + {items[i].value};
        chosen := chosen[k := chosen[k] + {items[i].value}];
      }
      assert items[..|items|] == items;
    }

    /** The file's entries, as the map is read: only for types the user gave no string for. */
    method AddFile(entries: seq<(string, Entry)>) returns (r: FilterOutcome)
      requires chosen.Keys == text.Keys && forall k :: k in text ==> chosen[k] == {}
      modifies this
      ensures chosen.Keys == text.Keys
      ensures r.Crashed? <==> exists i :: 0 <= i < |entries| && Crashes(text, entries[i].0, entries[i].1)
      ensures !r.Crashed? ==>
        && (forall k :: k in text ==> chosen[k] == FromFile(text, entries, k))
        && (r.Refused? <==> exists i :: 0 <= i < |entries| && Refuses(text, entries[i].0, entries[i].1))
    {
      r := Accepted;
      for i := 0 to |entries|
        invariant !r.Crashed? && forall j :: 0 <= j < i ==> !Crashes(text, entries[j].0, entries[j].1)
        invariant chosen.Keys == text.Keys
        invariant forall k :: k in text ==> chosen[k] == FromFile(text, entries[..i], k)
        invariant r.Refused? <==> exists j :: 0 <= j < i && Refuses(text, entries[j].0, entries[j].1)
      {
        assert entries[..i + 1][..i] == entries[..i];
        var (k, e) := entries[i];
        if Get(text, k) == "" {
          match e
          case Null =>
          case NotAList => r := Refused;
          case Names(items) =>
            var ok := AddNames(k, items);
            if !ok {
              return Crashed;
            }
        }
      }
      assert entries[..|entries|] == entries;
    }

    /** The given strings, split at the commas. */
    method AddText(kinds: seq<string>)
      requires chosen.Keys == text.Keys
      requires forall k :: k in kinds <==> k in text
      requires forall i, j :: 0 <= i < j < |kinds| ==> kinds[i] != kinds[j]
      modifies this
      ensures chosen.Keys == text.Keys && forall k :: k in text ==> chosen[k] == old(chosen)[k] + TextNames(text[k])
    {
      for i := 0 to |kinds|
        invariant chosen.Keys == text.Keys
        invariant forall k :: k in text ==>
          chosen[k] == if k in kinds[..i] then old(chosen)[k] + TextNames(text[k]) else old(chosen)[k]
      {
        assert kinds[..i + 1] == kinds[..i] + [kinds[i]];
        AddParts(kinds[i]);
      }
      assert kinds[..|kinds|] == kinds;
    }

    method AddParts(k: string)
      requires chosen.Keys == text.Keys && k in text
      modifies this
      ensures chosen == old(chosen)[k := old(chosen)[k] + TextNames(text[k])]
    {
      var s := Strip(text[k]);
      if s != "" {
        var parts := Split(s, ',');
        chosen := chosen[k := chosen[k] + set n | n in parts];
      } else {
        assert chosen[k] + {} == chosen[k];
      }
    }
  }

  /** The names the file gives an object type that has no string. */
  function FromFile(text: map<string, string>, entries: seq<(string, Entry)>, k: string): set<string> {
    if entries == [] || Get(text, k) != "" then {}
    else
      var n := |entries| - 1;
      FromFile(text, entries[..n], k)
        + (if entries[n].0 == k && entries[n].1.Names? then NamesIn(entries[n].1.items) else {})
  }

  /** All of the configuration of one kind of filter. If it is accepted, each type's filter holds the
      names of exactly one source: its string if that is not empty, else the file. */
  method ChooseFilters(text: map<string, string>, kinds: seq<string>, entries: seq<(string, Entry)>)
    returns (r: FilterOutcome, chosen: map<string, set<string>>)
    requires forall k :: k in kinds <==> k in text
    requires forall i, j :: 0 <= i < j < |kinds| ==> kinds[i] != kinds[j]
    ensures r.Crashed? <==> exists i :: 0 <= i < |entries| && Crashes(text, entries[i].0, entries[i].1)
    ensures r.Accepted? ==> chosen.Keys == text.Keys && forall k :: k in text ==>
      chosen[k] == if text[k] != "" then TextNames(text[k]) else FromFile(text, entries, k)
  {
    var f := new Filters(text);
    r := f.AddFile(entries);
    if r.Accepted? {
      f.AddText(kinds);
    }
    chosen := f.chosen;
  }
}
