/** Making MQI constants readable. Two programs do it in two ways: the event formatter scans
    the characters once, the route tracer splits on underscores. Also the event formatter's
    decomposition of an options word into single bits. */
module MqiNames {
  import opened Strings
  import opened NameFixup

  datatype Outcome = Text(value: string) | IndexPanic

  /** What follows the first underscore, if there is one. */
  function Tail(s: string): string {
    if s == "" then "" else if s[0] == '_' then s[1..] else Tail(s[1..])
  }

  // --- the scanner of the event formatter

  method PrettyName(s: string, rawString: bool) returns (r: string)
    ensures r == if rawString then s else if '_' in s then Camel(Tail(s)) else ""
  {
    if rawString {
      return s;
    }
    r := "";
    var foundFirstUnderscore, afterUnderscore := false, false;
    for i := 0 to |s|
      invariant foundFirstUnderscore <==> '_' in s[..i]
      invariant !foundFirstUnderscore ==> r == "" && !afterUnderscore && Tail(s) == Tail(s[i..])
      invariant foundFirstUnderscore ==> r + Scan(s[i..], afterUnderscore) == Scan(Tail(s), false)
    {
      assert s[..i + 1] == s[..i] + [s[i]];
      assert s[i..][1..] == s[i + 1..];
      var c := s[i];
      if foundFirstUnderscore {
        ScanStep(s, i, afterUnderscore, r);
        if c == '_' {
          afterUnderscore := true;
          continue;
        }
        if afterUnderscore {
          c := UpperChar(c);
          afterUnderscore := false;
        } else {
          c := LowerChar(c);
        }
        r := r + [c];
      } else if c == '_' {
        foundFirstUnderscore := true;
      }
    }
    assert s[..|s|] == s && s[|s|..] == "";
    ScanIsWordwise(Tail(s));
  }

  // --- the splitter of the route tracer

  function PrettyToken(tok: string): string {
    if |tok| > 1 then [UpperChar(tok[0])] + Lower(tok[1..]) else tok
  }

  function PrettyTokens(toks: seq<string>): string {
    if toks == [] then "" else PrettyTokens(toks[..|toks| - 1]) + PrettyToken(toks[|toks| - 1])
  }

  function Prettified(s: string, json: bool): Outcome {
    var toks := Split(s, '_');
    if |toks| > 1 then
      var body := PrettyTokens(toks[1..]);
      if !json then Text(body)
      else if body == "" then IndexPanic
      else Text([LowerChar(body[0])] + body[1..])
    else Text(if json then Lower(s) else s)
  }

  lemma PrettyTokensStep(words: seq<string>, k: nat)
    requires k < |words|
    ensures PrettyTokens(words[..k + 1]) == PrettyTokens(words[..k]) + PrettyToken(words[k])
  {
    assert words[..k + 1][..k] == words[..k];
  }

  method PrettifyJson(s: string, json: bool) returns (r: Outcome)
    ensures r == Prettified(s, json)
  {
    var toks := Split(s, '_');
    if |toks| > 1 {
      var t := "";
      ghost var words := toks[1..];
      for i := 1 to |toks|
        invariant t == PrettyTokens(words[..i - 1])
      {
        var tok := toks[i];
        PrettyTokensStep(words, i - 1);
        if |tok| > 1 {
          t := t + ([UpperChar(tok[0])] + Lower(tok[1..]));
        } else {
          t := t + tok;
        }
      }
      assert words[..|words|] == words;
      if json {
        if t == "" {
          return IndexPanic;
        }
        t := [LowerChar(t[0])] + t[1..];
      }
      r := Text(t);
    } else if json {
      r := Text(Lower(s));
    } else {
      r := Text(s);
    }
  }

  /** For any text: without an underscore it stays, or goes to lower case; with one, the second form
      is the first with a small initial, and panics exactly if that is empty. */
  lemma PlainAndJson(s: string)
    ensures '_' !in s ==> Prettified(s, false) == Text(s) && Prettified(s, true) == Text(Lower(s))
    ensures '_' in s ==>
      && Prettified(s, false).Text?
      && var t := Prettified(s, false).value;
         Prettified(s, true) == if t == "" then IndexPanic else Text([LowerChar(t[0])] + t[1..])
  {
    SplitTail(s);
  }

  /** What is before the first underscore is dropped, each longer token after it capitalised, and a
      token of one letter left as it is, whatever its case. */
  lemma FirstToken(head: string, tok: string)
    requires '_' !in head && '_' !in tok
    ensures Prettified(head + "_" + tok, false) == Text(if |tok| <= 1 then tok else [UpperChar(tok[0])] + Lower(tok[1..]))
  {
    SplitPeels(head, tok, '_');
    SplitPeels(tok, "", '_');
    assert head + ['_'] + tok == head + "_" + tok;
    assert ([head] + [tok])[1..] == [tok] && [tok][..0] == [];
    assert PrettyTokens([tok]) == PrettyTokens([tok][..0]) + PrettyToken(tok);
  }

  /** And so on, token by token. */
  lemma NextToken(s: string, tok: string)
    requires '_' in s && '_' !in tok
    ensures Prettified(s + "_" + tok, false) == Text(Prettified(s, false).value + PrettyToken(tok))
  {
    SplitConcat(s, tok, '_');
    SplitPeels(tok, "", '_');
    assert s + ['_'] + tok == s + "_" + tok;
    SplitTail(s);
    var toks := Split(s, '_');
    assert (toks + [tok])[1..] == toks[1..] + [tok];
    assert (toks[1..] + [tok])[..|toks| - 1] == toks[1..];
  }

  // --- the two agree on upper-case constants, with one exact exception

  ghost predicate UpperCase(s: string) {
    forall i :: 0 <= i < |s| ==> !('a' <= s[i] <= 'z')
  }

  lemma {:induction false} CapitaliseAllAppend(toks: seq<string>, last: string)
    ensures CapitaliseAll(toks + [last]) == CapitaliseAll(toks) + Capitalise(last)
  {
    if toks == [] {
      assert [last][1..] == [];
    } else {
      assert (toks + [last])[1..] == toks[1..] + [last];
      CapitaliseAllAppend(toks[1..], last);
    }
  }

  lemma TokenIsCapitalised(tok: string)
    requires UpperCase(tok)
    ensures PrettyToken(tok) == Capitalise(tok)
  {
    if |tok| == 1 {
      assert tok[1..] == "" && Lower("") == "";
    }
  }

  ghost predicate AllUpperCase(toks: seq<string>) {
    forall i :: 0 <= i < |toks| ==> UpperCase(toks[i])
  }

  lemma PrettyLast(toks: seq<string>, last: string)
    requires PrettyTokens(toks) == CapitaliseAll(toks) && PrettyToken(last) == Capitalise(last)
    ensures PrettyTokens(toks + [last]) == CapitaliseAll(toks + [last])
  {
    assert (toks + [last])[..|toks|] == toks;
    CapitaliseAllAppend(toks, last);
  }

  lemma UpperCaseFront(toks: seq<string>)
    requires AllUpperCase(toks) && toks != []
    ensures AllUpperCase(toks[..|toks| - 1]) && UpperCase(toks[|toks| - 1])
    ensures toks == toks[..|toks| - 1] + [toks[|toks| - 1]]
  {
  }

  lemma {:induction false} TokensAreCapitalised(toks: seq<string>)
    requires AllUpperCase(toks)
    ensures PrettyTokens(toks) == CapitaliseAll(toks)
  {
    if toks != [] {
      var n := |toks| - 1;
      UpperCaseFront(toks);
      TokensAreCapitalised(toks[..n]);
      TokenIsCapitalised(toks[n]);
      PrettyLast(toks[..n], toks[n]);
    }
  }

  lemma {:induction false} SplitTail(s: string)
    ensures '_' in s ==> Split(s, '_')[1..] == Split(Tail(s), '_') && |Split(s, '_')| > 1
    ensures '_' !in s ==> Split(s, '_') == [s]
    ensures UpperCase(s) ==> forall i :: 0 <= i < |Split(s, '_')| ==> UpperCase(Split(s, '_')[i])
  {
    if s != "" {
      SplitTail(s[1..]);
      assert s == [s[0]] + s[1..];
    }
  }

  /** The first character that is not an underscore, if any. */
  function FirstNonUnderscore(s: string): string {
    if s == "" then "" else if s[0] == '_' then FirstNonUnderscore(s[1..]) else [s[0]]
  }

  lemma {:induction false} CapitalisedHead(s: string)
    requires UpperCase(s)
    ensures var c := CapitaliseAll(Split(s, '_'));
      if FirstNonUnderscore(s) == "" then c == "" else c != "" && [c[0]] == FirstNonUnderscore(s)
  {
    if s != "" {
      CapitalisedHead(s[1..]);
      var rest := Split(s[1..], '_');
      if s[0] == '_' {
        assert ([""] + rest)[1..] == rest;
      }
    } else {
      assert [""][1..] == [];
    }
  }

  /** Lowering the first letter of the capitalised words of `t` gives its camel case exactly
      when the first word is there, or the first letter has no case. */
  lemma LoweredHeadIsCamel(t: string)
    requires UpperCase(t)
    requires FirstNonUnderscore(t) != ""
    ensures var c := CapitaliseAll(Split(t, '_'));
      && c != ""
      && ([LowerChar(c[0])] + c[1..] == Camel(t) <==>
            t[0] != '_' || !('A' <= FirstNonUnderscore(t)[0] <= 'Z'))
  {
    var words := Split(t, '_');
    CapitalisedHead(t);
    if t[0] != '_' {
      LoweredWord(words[0], CapitaliseAll(words[1..]));
    } else {
      var c := CapitaliseAll(words);
      assert words[0] == "" && Lower("") == "";
      assert c == CapitaliseAll(words[1..]) == Camel(t);
      LoweredFirst(c);
    }
  }

  lemma LowerOfUpper(c: char)
    ensures LowerChar(UpperChar(c)) == LowerChar(c)
  {
  }

  lemma LowerHead(w: string)
    requires w != ""
    ensures Lower(w) == [LowerChar(w[0])] + Lower(w[1..])
  {
  }

  lemma LoweredWord(w: string, rest: string)
    requires w != ""
    ensures var c := Capitalise(w) + rest;
      c != "" && [LowerChar(c[0])] + c[1..] == Lower(w) + rest
  {
    LowerOfUpper(w[0]);
    LowerHead(w);
    SwapHead(UpperChar(w[0]), LowerChar(w[0]), Lower(w[1..]), rest);
  }

  lemma SwapHead(a: char, b: char, mid: string, rest: string)
    ensures var c := ([a] + mid) + rest; [b] + c[1..] == ([b] + mid) + rest
  {
  }

  lemma LoweredFirst(c: string)
    requires c != ""
    ensures [LowerChar(c[0])] + c[1..] == c <==> !('A' <= c[0] <= 'Z')
  {
    assert c == [c[0]] + c[1..];
    assert ([LowerChar(c[0])] + c[1..])[0] == LowerChar(c[0]);
  }

  /** On upper-case text the scanner and the splitter give the same name exactly when there is
      no text at all, or the part after the first underscore starts with something other than
      another underscore, or starts (underscores aside) with a character that has no case. */
  lemma ScannerMatchesSplitter(s: string)
    requires UpperCase(s)
    ensures Prettified(s, true) == Text(if '_' in s then Camel(Tail(s)) else "") <==>
      || s == ""
      || ('_' in s && Tail(s) != "" && Tail(s)[0] != '_')
      || ('_' in s && FirstNonUnderscore(Tail(s)) != ""
          && !('A' <= FirstNonUnderscore(Tail(s))[0] <= 'Z'))
  {
    SplitTail(s);
    if '_' in s {
      SplitterOnTail(s);
      TailIsUpperCase(s);
      CapitalisedHead(Tail(s));
      if FirstNonUnderscore(Tail(s)) != "" {
        LoweredHeadIsCamel(Tail(s));
      }
    } else if s != "" {
      assert |Lower(s)| > 0;
    }
  }

  lemma SplitterOnTail(s: string)
    requires UpperCase(s) && '_' in s
    ensures Prettified(s, true) ==
      var c := CapitaliseAll(Split(Tail(s), '_'));
      if c == "" then IndexPanic else Text([LowerChar(c[0])] + c[1..])
  {
    SplitTail(s);
    var words := Split(s, '_')[1..];
    forall i | 0 <= i < |words|
      ensures UpperCase(words[i])
    {
      assert words[i] == Split(s, '_')[i + 1];
    }
    TokensAreCapitalised(words);
  }

  lemma {:induction false} TailIsUpperCase(s: string)
    requires UpperCase(s)
    ensures UpperCase(Tail(s))
  {
    if s != "" && s[0] != '_' {
      TailIsUpperCase(s[1..]);
    }
  }

  /** In particular, an upper-case constant whose second token is not empty. */
  lemma NonEmptySecondToken(s: string)
    requires UpperCase(s) && |Split(s, '_')| > 1 && Split(s, '_')[1] != ""
    ensures Prettified(s, true) == Text(Camel(Tail(s)))
  {
    SplitTail(s);
    assert Split(s, '_')[1..][0] != "";
    ScannerMatchesSplitter(s);
  }

  // --- option words

  const WORD_WIDTH := 32

  function Pow2(n: nat): (p: nat)
    ensures p >= 1
  {
    if n == 0 then 1 else 2 * Pow2(n - 1)
  }

  /** Bit `i` of the two's complement form of `val`. */
  function Bit(val: int, i: nat): int {
    (val / Pow2(i)) % 2
  }

  function Sum(xs: seq<int>): int {
    if xs == [] then 0 else Sum(xs[..|xs| - 1]) + xs[|xs| - 1]
  }

  lemma MulAtLeast(k: int, m: int)
    requires m > 0
    ensures k >= 1 ==> k * m >= m
    ensures k <= -1 ==> k * m <= -m
  {
  }

  lemma ModUnique(val: int, h: int, m: int, r: int)
    requires m > 0 && 0 <= r < m && val == h * m + r
    ensures val % m == r
  {
    var k := val / m - h;
    assert k * m == r - val % m by {
      assert val == (val / m) * m + val % m;
      assert (val / m - h) * m == (val / m) * m - h * m;
    }
    MulAtLeast(k, m);
  }

  lemma LowBits(val: int, i: nat)
    ensures val % Pow2(i + 1) == val % Pow2(i) + Bit(val, i) * Pow2(i)
  {
    assert Pow2(i + 1) == 2 * Pow2(i);
    LowPart(val, Pow2(i));
  }

  lemma LowPart(val: int, p: int)
    requires p > 0
    ensures val % (2 * p) == val % p + ((val / p) % 2) * p
  {
    var q, r := val / p, val % p;
    var h, b := q / 2, q % 2;
    assert q == 2 * h + b;
    Regroup(h, b, p);
    assert b == 0 || b == 1;
    ModUnique(val, h, 2 * p, b * p + r);
  }

  lemma Regroup(h: int, b: int, p: int)
    ensures (2 * h + b) * p == h * (2 * p) + b * p
  {
  }

  /** The set bits of an options word below bit `n`, lowest first. */
  function SetBits(val: int, n: nat): seq<int> {
    if n == 0 then []
    else SetBits(val, n - 1) + if Bit(val, n - 1) != 0 then [Pow2(n - 1)] else []
  }

  /** What is shown for an options word: "None" for zero, otherwise its bits. */
  datatype OptionList = NoOptions | Listed(bits: seq<int>)

  method OptionBits(val: int) returns (r: OptionList)
    ensures r == if val == 0 then NoOptions else Listed(SetBits(val, WORD_WIDTH))
  {
    if val == 0 {
      return NoOptions;
    }
    var bits := [];
    for i := 0 to WORD_WIDTH
      invariant bits == SetBits(val, i)
    {
      if Bit(val, i) != 0 {
        bits := bits + [Pow2(i)];
      }
    }
    r := Listed(bits);
  }

  lemma {:induction false} SetBitsSum(val: int, n: nat)
    ensures Sum(SetBits(val, n)) == val % Pow2(n)
  {
    if n > 0 {
      SetBitsSum(val, n - 1);
      LowBits(val, n - 1);
      var low := SetBits(val, n - 1);
      assert (low + [Pow2(n - 1)])[..|low|] == low;
      assert low + [] == low;
    }
  }

  lemma WordSize()
    ensures Pow2(WORD_WIDTH) == 0x1_0000_0000
  {
    assert Pow2(8) == 256;
    assert Pow2(16) == 65536;
    assert Pow2(24) == 0x100_0000;
  }

  lemma SameBitsSameWord(val: int, other: int, n: nat)
    ensures SetBits(val, n) == SetBits(other, n) ==> val % Pow2(n) == other % Pow2(n)
  {
    SetBitsSum(val, n);
    SetBitsSum(other, n);
  }

  lemma SignedWordsDiffer(val: int, other: int, m: int)
    requires m > 0 && -m <= 2 * val < m && -m <= 2 * other < m
    requires val % m == other % m
    ensures val == other
  {
    var k := val / m - other / m;
    assert val - other == k * m by {
      assert val == (val / m) * m + val % m;
      assert other == (other / m) * m + other % m;
      assert k * m == (val / m) * m - (other / m) * m;
    }
    MulAtLeast(k, m);
  }

  /** For the 32-bit integers MQ sends, the listed option bits tell the value back. */
  lemma OptionBitsDetermineValue(val: int, other: int)
    requires -0x8000_0000 <= val < 0x8000_0000 && -0x8000_0000 <= other < 0x8000_0000
    ensures SetBits(val, WORD_WIDTH) == SetBits(other, WORD_WIDTH) <==> val == other
  {
    if SetBits(val, WORD_WIDTH) == SetBits(other, WORD_WIDTH) {
      SameBitsSameWord(val, other, WORD_WIDTH);
      WordSize();
      SignedWordsDiffer(val, other, Pow2(WORD_WIDTH));
    }
  }

  lemma {:induction false} ZeroHasNoBits(n: nat)
    ensures SetBits(0, n) == []
  {
    if n > 0 {
      ZeroHasNoBits(n - 1);
    }
  }

  /** So "None" is shown exactly for a word without a set bit: an options list is never empty. */
  lemma NoOptionsIff(val: int)
    requires -0x8000_0000 <= val < 0x8000_0000
    ensures SetBits(val, WORD_WIDTH) == [] <==> val == 0
  {
    ZeroHasNoBits(WORD_WIDTH);
    OptionBitsDetermineValue(val, 0);
  }
}
