/** The metric-name conversion of the JSON collector: `queue_avoided_bytes` becomes
    `avoidedBytes`, with every converted name kept in a cache that is never cleared. */
module NameFixup {
  import opened Strings

  const QUEUE := "queue"
  const QUEUE_PREFIX := "queue_"

  /** One call of fixup, as the collector makes it. */
  datatype Call = Call(name: string, objectType: string)

  predicate Strips(c: Call) {
    c.objectType == QUEUE && QUEUE_PREFIX <= c.name
  }

  /** The name that is really converted, and the key the answer is cached under. */
  function KeyOf(c: Call): string {
    if Strips(c) then c.name[|QUEUE_PREFIX|..] else c.name
  }

  // --- camel case, defined on the underscore-separated words of a name

  function Capitalise(word: string): string {
    if word == "" then "" else [UpperChar(word[0])] + Lower(word[1..])
  }

  function CapitaliseAll(words: seq<string>): string {
    if words == [] then "" else Capitalise(words[0]) + CapitaliseAll(words[1..])
  }

  /** First word in lower case, every later word capitalised, no underscores. */
  function Camel(name: string): string {
    var words := Split(name, '_');
    Lower(words[0]) + CapitaliseAll(words[1..])
  }

  /** The character scan of the source, from some point of the name on. */
  function Scan(s: string, nextUpper: bool): string {
    if s == "" then ""
    else if s[0] == '_' then Scan(s[1..], true)
    else [if nextUpper then UpperChar(s[0]) else LowerChar(s[0])] + Scan(s[1..], false)
  }

  lemma LowerCons(c: char, word: string)
    ensures Lower([c] + word) == [LowerChar(c)] + Lower(word)
  {
  }

  lemma PrependToSum(c: char, a: string, b: string)
    ensures [c] + (a + b) == ([c] + a) + b
  {
  }

  /** An underscore starts a new word. */
  lemma UnderscoreWordwise(rest: seq<string>)
    ensures CapitaliseAll([""] + rest) == CapitaliseAll(rest)
    ensures Lower("") == "" && ([""] + rest)[1..] == rest
  {
    assert ([""] + rest)[1..] == rest;
  }

  /** Any other character extends the first word. */
  lemma LetterWordwise(c: char, rest: seq<string>)
    requires rest != []
    ensures var words := [[c] + rest[0]] + rest[1..];
      && Lower(words[0]) + CapitaliseAll(words[1..]) == [LowerChar(c)] + (Lower(rest[0]) + CapitaliseAll(rest[1..]))
      && CapitaliseAll(words) == [UpperChar(c)] + (Lower(rest[0]) + CapitaliseAll(rest[1..]))
  {
    var words := [[c] + rest[0]] + rest[1..];
    assert words[1..] == rest[1..];
    assert ([c] + rest[0])[1..] == rest[0];
    LowerCons(c, rest[0]);
    PrependToSum(LowerChar(c), Lower(rest[0]), CapitaliseAll(rest[1..]));
    PrependToSum(UpperChar(c), Lower(rest[0]), CapitaliseAll(rest[1..]));
  }

  lemma {:induction false} ScanIsWordwise(s: string)
    ensures Scan(s, false) == Camel(s)
    ensures Scan(s, true) == CapitaliseAll(Split(s, '_'))
  {
    if s == "" {
      UnderscoreWordwise([]);
      assert [""] + [] == [""];
    } else {
      ScanIsWordwise(s[1..]);
      var rest := Split(s[1..], '_');
      if s[0] == '_' {
        UnderscoreWordwise(rest);
      } else {
        LetterWordwise(s[0], rest);
      }
    }
  }

  lemma ScanStep(s: string, i: nat, u: bool, done: string)
    requires i < |s|
    ensures s[i] == '_' ==> done + Scan(s[i..], u) == done + Scan(s[i + 1..], true)
    ensures s[i] != '_' ==>
      done + Scan(s[i..], u) == done + [if u then UpperChar(s[i]) else LowerChar(s[i])] + Scan(s[i + 1..], false)
  {
    assert s[i..][1..] == s[i + 1..];
  }

  // --- the cache

  function Answer(cache: map<string, string>, c: Call): string {
    if c.name in cache then cache[c.name] else Camel(KeyOf(c))
  }

  function Remember(cache: map<string, string>, c: Call): map<string, string> {
    if c.name in cache then cache else cache[KeyOf(c) := Camel(KeyOf(c))]
  }

  class NameCache {
    var entries: map<string, string>

    constructor ()
      ensures entries == map[]
    {
      entries := map[];
    }

    method Fixup(name: string, objectType: string) returns (s2: string)
      modifies this
      ensures s2 == Answer(old(entries), Call(name, objectType))
      ensures entries == Remember(old(entries), Call(name, objectType))
    {
      if name in entries {
        return entries[name];
      }
      var s1 := name;
      if objectType == QUEUE && QUEUE_PREFIX <= s1 {
        s1 := s1[|QUEUE_PREFIX|..];
      }
      s2 := "";
      var nextCaseUpper := false;
      for i := 0 to |s1|
        invariant entries == old(entries)
        invariant s2 + Scan(s1[i..], nextCaseUpper) == Scan(s1, false)
      {
        ScanStep(s1, i, nextCaseUpper, s2);
        if s1[i] != '_' {
          if nextCaseUpper {
            s2 := s2 + [UpperChar(s1[i])];
            nextCaseUpper := false;
          } else {
            s2 := s2 + [LowerChar(s1[i])];
          }
        } else {
          nextCaseUpper := true;
        }
      }
      assert s1[|s1|..] == "" && s2 + "" == s2;
      ScanIsWordwise(s1);
      assert s2 == Camel(s1) && s1 == KeyOf(Call(name, objectType));
      entries := entries[s1 := s2];
    }
  }

  // --- any history of calls, from the empty cache

  function CacheAfter(history: seq<Call>): map<string, string> {
    if history == [] then map[]
    else Remember(CacheAfter(history[..|history| - 1]), history[|history| - 1])
  }

  lemma {:induction false} EntriesAreCamel(history: seq<Call>)
    ensures forall k :: k in CacheAfter(history) ==> CacheAfter(history)[k] == Camel(k)
  {
    if history != [] {
      EntriesAreCamel(history[..|history| - 1]);
    }
  }

  /** Which names a history has cached, told by the calls alone: some call converts `name`
      itself, or converts "queue_" + name for a queue at a time when that longer name was
      not itself cached. */
  ghost predicate Cached(history: seq<Call>, name: string)
    decreases |history|
  {
    exists i :: 0 <= i < |history| && CachesAt(history, i, name)
  }

  ghost predicate CachesAt(history: seq<Call>, i: nat, name: string)
    requires i < |history|
    decreases |history|, 0
  {
    || (history[i].name == name && !Strips(history[i]))
    || (history[i] == Call(QUEUE_PREFIX + name, QUEUE) && !Cached(history[..i], QUEUE_PREFIX + name))
  }

  lemma CachedGrows(history: seq<Call>, name: string)
    requires history != []
    ensures var n := |history| - 1;
      Cached(history, name) <==> Cached(history[..n], name) || CachesAt(history, n, name)
  {
    var n := |history| - 1;
    var before := history[..n];
    forall i | 0 <= i < n
      ensures CachesAt(history, i, name) <==> CachesAt(before, i, name)
    {
      assert before[..i] == history[..i];
    }
  }

  lemma {:induction false} CachedNames(history: seq<Call>, name: string)
    ensures name in CacheAfter(history) <==> Cached(history, name)
    decreases |history|
  {
    if history != [] {
      var n := |history| - 1;
      var before, last := history[..n], history[n];
      CachedNames(before, name);
      CachedNames(before, QUEUE_PREFIX + name);
      CachedGrows(history, name);
      assert (QUEUE_PREFIX + name)[|QUEUE_PREFIX|..] == name;
      if Strips(last) && KeyOf(last) == name {
        assert last.name == QUEUE_PREFIX + name;
      }
    }
  }

  /** The case of the first letter does not change the length of the result. */
  lemma {:induction false} ScanCaseOnly(s: string, u: bool, v: bool)
    ensures |Scan(s, u)| == |Scan(s, v)|
  {
    if s != "" {
      ScanCaseOnly(s[1..], u, v);
      ScanCaseOnly(s[1..], true, false);
    }
  }

  lemma {:induction false} ScanWordLength(word: string, rest: string)
    requires '_' !in word
    ensures |Scan(word + rest, false)| == |word| + |Scan(rest, false)|
  {
    if word == "" {
      assert word + rest == rest;
    } else {
      assert (word + rest)[1..] == word[1..] + rest;
      ScanWordLength(word[1..], rest);
    }
  }

  lemma PrefixChangesCamel(rest: string)
    ensures Camel(QUEUE_PREFIX + rest) != Camel(rest)
  {
    ScanIsWordwise(QUEUE_PREFIX + rest);
    ScanIsWordwise(rest);
    ScanWordLength("queue", "_" + rest);
    assert QUEUE_PREFIX + rest == "queue" + ("_" + rest);
    assert ("_" + rest)[1..] == rest;
    ScanCaseOnly(rest, true, false);
  }

  /** The cached answer is the uncached one, except exactly for a queue's prefixed name
      that the history has already cached under that very name. */
  lemma CacheAgreement(history: seq<Call>, c: Call)
    ensures Answer(CacheAfter(history), c) == Camel(KeyOf(c))
       <==> !(Strips(c) && Cached(history, c.name))
  {
    EntriesAreCamel(history);
    CachedNames(history, c.name);
    if Strips(c) {
      assert c.name == QUEUE_PREFIX + KeyOf(c);
      PrefixChangesCamel(KeyOf(c));
    }
  }

  /** A vocabulary in which no queue's prefixed name is also converted for another object
      type, nor left over when a longer queue name loses its prefix. */
  ghost predicate ClashFree(vocabulary: set<Call>) {
    forall c, d :: c in vocabulary && d in vocabulary && Strips(c) ==> KeyOf(d) != c.name
  }

  /** A cache that only holds true conversions of names that the vocabulary converts. */
  ghost predicate Honest(cache: map<string, string>, vocabulary: set<Call>) {
    forall k :: k in cache ==> cache[k] == Camel(k) && exists c :: c in vocabulary && KeyOf(c) == k
  }

  /** Over a clash-free vocabulary an honest cache gives the uncached answer, and stays honest. */
  lemma HonestAnswer(cache: map<string, string>, vocabulary: set<Call>, c: Call)
    requires ClashFree(vocabulary) && c in vocabulary && Honest(cache, vocabulary)
    ensures Answer(cache, c) == Camel(KeyOf(c))
    ensures Honest(Remember(cache, c), vocabulary)
  {
  }

  /** Over such a vocabulary the answers never depend on the order of the calls. */
  lemma {:induction false} ClashFreeAnswers(vocabulary: set<Call>, history: seq<Call>)
    requires ClashFree(vocabulary) && forall c :: c in history ==> c in vocabulary
    ensures Honest(CacheAfter(history), vocabulary)
    ensures forall c :: c in vocabulary ==> Answer(CacheAfter(history), c) == Camel(KeyOf(c))
  {
    if history != [] {
      var before, last := history[..|history| - 1], history[|history| - 1];
      assert last in history;
      ClashFreeAnswers(vocabulary, before);
      HonestAnswer(CacheAfter(before), vocabulary, last);
    }
    forall c | c in vocabulary
      ensures Answer(CacheAfter(history), c) == Camel(KeyOf(c))
    {
      HonestAnswer(CacheAfter(history), vocabulary, c);
    }
  }
}
