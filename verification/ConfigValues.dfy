/** Configuration values: their kinds, how text becomes one, what the configuration file says for
    each of the shipped parameters, and which built-in defaults survive a file without an entry. */
module ConfigValues {
  import opened Options
  import opened Strings

  datatype Kind = StrKind | IntKind | BoolKind

  datatype Value = StrV(s: string) | IntV(i: int) | BoolV(b: bool)

  function KindOf(v: Value): Kind {
    match v
    case StrV(_) => StrKind
    case IntV(_) => IntKind
    case BoolV(_) => BoolKind
  }

  const MAX_INT: int := 0x7FFF_FFFF_FFFF_FFFF
  const MIN_INT: int := -0x8000_0000_0000_0000

  function ParseDigits(s: string): Option<int> {
    if s == "" then Some(0)
    else
      var n := |s| - 1;
      if '0' <= s[n] <= '9' && ParseDigits(s[..n]).Some?
      then Some(10 * ParseDigits(s[..n]).value + (s[n] as int - '0' as int)) else None
  }

  /** A signed decimal number of unlimited size. */
  function ParseDecimal(s: string): Option<int> {
    var digits := if s != "" && (s[0] == '+' || s[0] == '-') then s[1..] else s;
    var n := ParseDigits(digits);
    if digits == "" || n.None? then None else Some(if s[0] == '-' then -n.value else n.value)
  }

  /** A 64-bit parse whose error is dropped: 0 for what is no number, the nearest limit for one out
      of range. */
  function LenientInt(s: string): (i: int)
    ensures MIN_INT <= i <= MAX_INT
  {
    var n := ParseDecimal(s);
    if n.None? then 0 else if n.value > MAX_INT then MAX_INT else if n.value < MIN_INT then MIN_INT else n.value
  }

  /** A 64-bit parse that falls back on a default. */
  function AsInt(s: string, def: int): int {
    var n := ParseDecimal(s);
    if n.Some? && MIN_INT <= n.value <= MAX_INT then n.value else def
  }

  function ParseBool(s: string): Option<bool> {
    if s in ["1", "t", "T", "TRUE", "true", "True"] then Some(true)
    else if s in ["0", "f", "F", "FALSE", "false", "False"] then Some(false)
    else None
  }

  function AsBool(s: string, def: bool): bool {
    if ParseBool(s).Some? then ParseBool(s).value else def
  }

  /** A non-empty environment value as a value of the parameter's kind. */
  function FromEnv(kind: Kind, s: string): (v: Value)
    ensures KindOf(v) == kind
  {
    match kind
    case StrKind => StrV(s)
    case IntKind => IntV(LenientInt(s))
    case BoolKind => BoolV(AsBool(s, false))
  }

  function EnvVarKey(section: string, name: string): string {
    Upper("IBMMQ_" + section + "_" + name)
  }

  // --- what the readers accept

  function Pow10(n: nat): nat {
    if n == 0 then 1 else 10 * Pow10(n - 1)
  }

  predicate IsDigit(c: char) {
    '0' <= c <= '9'
  }

  /** The number that decimal digits stand for. */
  ghost function Value10(s: string): int {
    if s == "" then 0 else (s[0] as int - '0' as int) * Pow10(|s| - 1) + Value10(s[1..])
  }

  lemma {:induction false} Value10Snoc(s: string, c: char)
    ensures Value10(s + [c]) == 10 * Value10(s) + (c as int - '0' as int)
  {
    if s == "" {
      assert (s + [c])[1..] == "";
    } else {
      assert (s + [c])[1..] == s[1..] + [c];
      Value10Snoc(s[1..], c);
    }
  }

  lemma {:induction false} DigitsIff(s: string)
    ensures ParseDigits(s).Some? <==> forall i :: 0 <= i < |s| ==> IsDigit(s[i])
    ensures ParseDigits(s).Some? ==> ParseDigits(s).value == Value10(s)
  {
    if s != "" {
      var n := |s| - 1;
      DigitsIff(s[..n]);
      assert s == s[..n] + [s[n]];
      Value10Snoc(s[..n], s[n]);
    }
  }

  ghost predicate AllDigits(s: string) {
    s != "" && forall i :: 0 <= i < |s| ==> IsDigit(s[i])
  }

  /** A number is one or more digits, with or without a sign, and stands for what its digits do. */
  lemma DecimalIff(s: string, i: int)
    ensures ParseDecimal(s) == Some(i) <==>
      || (AllDigits(s) && i == Value10(s))
      || (s != "" && s[0] == '+' && AllDigits(s[1..]) && i == Value10(s[1..]))
      || (s != "" && s[0] == '-' && AllDigits(s[1..]) && i == -Value10(s[1..]))
  {
    if s != "" && (s[0] == '+' || s[0] == '-') {
      SignedIff(s);
    } else {
      DigitsIff(s);
    }
  }

  lemma SignedIff(s: string)
    requires s != "" && (s[0] == '+' || s[0] == '-')
    ensures ParseDecimal(s).Some? <==> AllDigits(s[1..])
    ensures ParseDecimal(s).Some? ==> ParseDecimal(s).value == if s[0] == '-' then -Value10(s[1..]) else Value10(s[1..])
    ensures !AllDigits(s)
  {
    DigitsIff(s[1..]);
    assert !IsDigit(s[0]);
  }

  /** An integer written in decimal. */
  function Written(i: int): string {
    if i < 0 then "-" + WrittenNat(-i) else WrittenNat(i)
  }

  function WrittenNat(n: nat): (s: string)
    ensures s != ""
  {
    if n < 10 then [('0' as int + n) as char] else WrittenNat(n / 10) + [('0' as int + n % 10) as char]
  }

  lemma {:induction false} WrittenDigits(n: nat)
    ensures AllDigits(WrittenNat(n)) && Value10(WrittenNat(n)) == n
  {
    var c := ('0' as int + n % 10) as char;
    if n < 10 {
      Value10Snoc("", c);
      assert "" + [c] == WrittenNat(n);
    } else {
      WrittenDigits(n / 10);
      Value10Snoc(WrittenNat(n / 10), c);
    }
  }

  /** Every integer comes back from its own writing as a 64-bit integer: as itself in the range of
      these, and else as the default or the nearest limit. */
  lemma WrittenReads(i: int, def: int)
    ensures ParseDecimal(Written(i)) == Some(i)
    ensures AsInt(Written(i), def) == if -0x8000_0000_0000_0000 <= i <= 0x7FFF_FFFF_FFFF_FFFF then i else def
    ensures FromEnv(IntKind, Written(i)) == IntV(
      if i > 0x7FFF_FFFF_FFFF_FFFF then 0x7FFF_FFFF_FFFF_FFFF
      else if i < -0x8000_0000_0000_0000 then -0x8000_0000_0000_0000 else i)
  {
    if i < 0 {
      WrittenDigits(-i);
      assert Written(i)[1..] == WrittenNat(-i);
    } else {
      WrittenDigits(i);
    }
    DecimalIff(Written(i), i);
  }

  /** Anything that is not written as a number counts as the default or as zero. */
  lemma NoNumberReads(s: string, def: int)
    requires !AllDigits(s) && (s != "" && (s[0] == '+' || s[0] == '-') ==> !AllDigits(s[1..]))
    ensures AsInt(s, def) == def && FromEnv(IntKind, s) == IntV(0)
  {
    if ParseDecimal(s).Some? {
      DecimalIff(s, ParseDecimal(s).value);
    }
  }

  /** A word in small letters, in capitals, or with a capital first. */
  predicate Spells(s: string, word: string)
    requires word != ""
  {
    s == word || s == Upper(word) || s == [UpperChar(word[0])] + word[1..]
  }

  lemma SpellingsOf(s: string)
    ensures Spells(s, "true") <==> s in ["true", "TRUE", "True"]
    ensures Spells(s, "t") <==> s in ["t", "T"]
    ensures Spells(s, "false") <==> s in ["false", "FALSE", "False"]
    ensures Spells(s, "f") <==> s in ["f", "F"]
  {
    assert Upper("true") == "TRUE" && Upper("false") == "FALSE" && Upper("t") == "T" && Upper("f") == "F";
    assert "true"[1..] == "rue" && "false"[1..] == "alse" && "t"[1..] == "" && "f"[1..] == "";
    assert ['T'] + "rue" == "True" && ['F'] + "alse" == "False" && ['T'] + "" == "T" && ['F'] + "" == "F";
  }

  /** A truth value is a digit, or a word or its first letter in any of three spellings. From the
      environment everything else counts as false. */
  lemma BoolIff(s: string)
    ensures ParseBool(s) == Some(true) <==> s == "1" || Spells(s, "true") || Spells(s, "t")
    ensures ParseBool(s) == Some(false) <==> s == "0" || Spells(s, "false") || Spells(s, "f")
    ensures FromEnv(BoolKind, s) == BoolV(s == "1" || Spells(s, "true") || Spells(s, "t"))
  {
    SpellingsOf(s);
  }

  /** Parameters have the same key exactly if section and name are the same but for upper and lower
      case; and every key begins alike. */
  lemma EnvVarKeyIff(section: string, name: string, section': string, name': string)
    ensures EnvVarKey(section, name) == EnvVarKey(section', name') <==>
      Upper(section + "_" + name) == Upper(section' + "_" + name')
    ensures EnvVarKey(section, name) == "IBMMQ_" + Upper(section + "_" + name)
  {
    KeyBegins(section, name);
    KeyBegins(section', name');
    var a, b := Upper(section + "_" + name), Upper(section' + "_" + name');
    assert ("IBMMQ_" + a)[|"IBMMQ_"|..] == a && ("IBMMQ_" + b)[|"IBMMQ_"|..] == b;
  }

  lemma KeyBegins(section: string, name: string)
    ensures EnvVarKey(section, name) == "IBMMQ_" + Upper(section + "_" + name)
  {
    assert "IBMMQ_" + section + "_" + name == "IBMMQ_" + (section + "_" + name);
    UpperConcat("IBMMQ_", section + "_" + name);
    assert Upper("IBMMQ_") == "IBMMQ_";
  }

  lemma UpperConcat(a: string, b: string)
    ensures Upper(a + b) == Upper(a) + Upper(b)
  {
  }

  // --- the configuration file

  const DEFAULT_WAIT_INTERVAL := 3

  /** What a file says for a parameter, by the accessor that reads it. A missing entry reads as an
      empty text, an empty list, false or zero. */
  datatype Entry =
    | TextEntry(text: string)
    | TextIfAnyEntry(text: string)            // an empty text counts as no entry
    | ListEntry(items: seq<string>)
    | SwitchEntry(text: string, def: bool)    // a text that may be a truth value
    | FlagEntry(flag: bool)
    | NumberEntry(number: int)
    | WaitEntry(text: string)                 // a number that is read as a text

  /** The kind of place the accessor expects. */
  function EntryKind(e: Entry): Kind {
    match e
    case SwitchEntry(_, _) => BoolKind
    case FlagEntry(_) => BoolKind
    case NumberEntry(_) => IntKind
    case _ => StrKind
  }

  /** The value that reaches the parameter's place, None to leave that as it is. */
  function EntryValue(e: Entry): Option<Value> {
    match e
    case TextEntry(s) => Some(StrV(s))
    case TextIfAnyEntry(s) => if s != "" then Some(StrV(s)) else None
    case ListEntry(items) => Some(StrV(Join(items, ',')))
    case SwitchEntry(s, def) => Some(BoolV(AsBool(s, def)))
    case FlagEntry(b) => Some(BoolV(b))
    case NumberEntry(i) => Some(IntV(i))
    case WaitEntry(s) => Some(IntV(AsInt(s, DEFAULT_WAIT_INTERVAL)))
  }

  /** A list of the file reaches its place so that splitting gives it back, as far as that can be. */
  lemma ListReads(items: seq<string>)
    ensures var v := EntryValue(ListEntry(items));
      v.Some? && v.value.StrV? && (Split(v.value.s, ',') == items <==> items != [] && FreeOf(items, ','))
  {
    SplitInvertsJoinIff(items, ',');
  }

  /** Texts, switches and numbers of the file reach their places as they are; only an empty text may
      leave what is there, a text that is no truth value leaves the switch's default, and a wait
      interval that is no 64-bit number leaves three. */
  lemma EntryReads(s: string, b: bool, i: int)
    ensures EntryValue(TextEntry(s)) == Some(StrV(s))
    ensures EntryValue(TextIfAnyEntry(s)) == if s == "" then None else Some(StrV(s))
    ensures EntryValue(FlagEntry(b)) == Some(BoolV(b)) && EntryValue(NumberEntry(i)) == Some(IntV(i))
    ensures EntryValue(SwitchEntry(s, false)) == Some(BoolV(s == "1" || Spells(s, "true") || Spells(s, "t")))
    ensures EntryValue(SwitchEntry(s, true)) == Some(BoolV(!(s == "0" || Spells(s, "false") || Spells(s, "f"))))
    ensures EntryValue(WaitEntry(Written(i))) ==
      Some(IntV(if -0x8000_0000_0000_0000 <= i <= 0x7FFF_FFFF_FFFF_FFFF then i else 3))
  {
    BoolIff(s);
    WrittenReads(i, 3);
  }

  // --- the parameters as shipped: those of all collectors, and each collector's own

  datatype ShippedParm =
    | UseResetQStats | UsePublications | UseStatistics
    | ShowInactiveChannels | ShowCustomAttribute | ShowUnknownSince
    | HideSvrConnJobname | HideAmqpClientId | HideMqttClientId | QueueSubscriptionSelector
    | LogLevel | MetaPrefix | PollInterval | RediscoverInterval | TzOffset | Locale
    | QueueManager | CcdtUrl | ConnName | Channel | ClientConnection | User | Password | PasswordFile
    | WaitInterval | ReplyQueue | ReplyQueue2 | StatisticsQueue | DurableSubPrefix
    | Queues | Channels | AmqpChannels | MqttChannels | Topics | Subscriptions
    | JsonInterval | JsonOneline | JsonRecordmax
    | OtelEndpoint | OtelInterval | OtelMaxErrors | OtelLogLevel | OtelInsecure | OtelOverrideCType
    | PromPort | PromHost | PromMetricsPath | PromNamespace | PromHttpsCertFile | PromHttpsKeyFile
    | PromKeepRunning | PromReconnectInterval | PromOverrideCType

  /** The default the parameter is registered with. */
  function ShippedDefault(p: ShippedParm): Value {
    match p
    case UsePublications | PromKeepRunning => BoolV(true)
    case UseResetQStats | UseStatistics | ShowInactiveChannels | ShowCustomAttribute | ShowUnknownSince
       | HideSvrConnJobname | HideAmqpClientId | HideMqttClientId | ClientConnection | JsonOneline => BoolV(false)
    case LogLevel => StrV("error")
    case PollInterval => StrV("0s")
    case RediscoverInterval => StrV("1h")
    case TzOffset => StrV("0h")
    case WaitInterval => IntV(DEFAULT_WAIT_INTERVAL)
    case ReplyQueue => StrV("SYSTEM.DEFAULT.MODEL.QUEUE")
    case StatisticsQueue => StrV("SYSTEM.ADMIN.STATISTICS.QUEUE")
    case Topics => StrV("#")
    case Subscriptions => StrV("*")
    case JsonInterval | OtelInterval => StrV("10s")
    case JsonRecordmax | OtelMaxErrors => IntV(100)
    case PromPort => StrV("9157")
    case PromMetricsPath => StrV("/metrics")
    case PromNamespace => StrV("ibmmq")
    case PromReconnectInterval => StrV("5s")
    case _ => StrV("")
  }

  /** No other parameter is registered with the name of one of the two queues, or for everything. */
  lemma TextDefaultsTellApart(p: ShippedParm)
    ensures ShippedDefault(p) == StrV("SYSTEM.DEFAULT.MODEL.QUEUE") <==> p == ReplyQueue
    ensures ShippedDefault(p) == StrV("SYSTEM.ADMIN.STATISTICS.QUEUE") <==> p == StatisticsQueue
  {
    LongDefaults(p);
  }

  lemma LongDefaults(p: ShippedParm)
    ensures ShippedDefault(p).StrV? && |ShippedDefault(p).s| > 8 ==>
      p == ReplyQueue || p == StatisticsQueue || p == PromMetricsPath
    ensures ShippedDefault(PromMetricsPath).StrV? && |ShippedDefault(PromMetricsPath).s| < 10
  {
  }

  lemma EverythingByDefault(p: ShippedParm)
    ensures ShippedDefault(p) == StrV("#") <==> p == Topics
    ensures ShippedDefault(p) == StrV("*") <==> p == Subscriptions
  {
  }

  /** The times, by default. */
  lemma ShortTimesTellApart(p: ShippedParm)
    ensures ShippedDefault(p) == StrV("0s") <==> p == PollInterval
    ensures ShippedDefault(p) == StrV("5s") <==> p == PromReconnectInterval
  {
  }

  lemma HoursTellApart(p: ShippedParm)
    ensures ShippedDefault(p) == StrV("1h") <==> p == RediscoverInterval
    ensures ShippedDefault(p) == StrV("0h") <==> p == TzOffset
  {
  }

  lemma IntervalsTellApart(p: ShippedParm)
    ensures ShippedDefault(p) == StrV("10s") <==> p == JsonInterval || p == OtelInterval
  {
  }

  /** The names, by default. */
  lemma NamesTellApart(p: ShippedParm)
    ensures ShippedDefault(p) == StrV("error") <==> p == LogLevel
    ensures ShippedDefault(p) == StrV("9157") <==> p == PromPort
  {
  }

  lemma PromNamesTellApart(p: ShippedParm)
    ensures ShippedDefault(p) == StrV("/metrics") <==> p == PromMetricsPath
    ensures ShippedDefault(p) == StrV("ibmmq") <==> p == PromNamespace
  {
  }

  /** Only two switches are on, and only two numbers are limits. */
  lemma OtherDefaultsTellApart(p: ShippedParm)
    ensures ShippedDefault(p) == BoolV(true) <==> p == UsePublications || p == PromKeepRunning
    ensures ShippedDefault(p) == IntV(100) <==> p == JsonRecordmax || p == OtelMaxErrors
    ensures ShippedDefault(p) == IntV(3) <==> p == WaitInterval
  {
  }

  /** What is read for the parameter from a file that has no entry for it. */
  function Absent(p: ShippedParm): Entry {
    match p
    case UsePublications => SwitchEntry("", true)
    case UseResetQStats | UseStatistics | ShowInactiveChannels | ShowCustomAttribute | ShowUnknownSince
       | HideSvrConnJobname | HideAmqpClientId | HideMqttClientId | ClientConnection => SwitchEntry("", false)
    case QueueSubscriptionSelector | Queues | Channels | AmqpChannels | MqttChannels | Topics | Subscriptions => ListEntry([])
    case ReplyQueue => TextIfAnyEntry("")
    case WaitInterval => WaitEntry("")
    case JsonOneline | PromKeepRunning => FlagEntry(false)
    case JsonRecordmax | OtelMaxErrors => NumberEntry(0)
    case _ => TextEntry("")
  }

  /** An entry read by the same accessor. */
  predicate SameAccessor(e: Entry, f: Entry) {
    match e
    case TextEntry(_) => f.TextEntry?
    case TextIfAnyEntry(_) => f.TextIfAnyEntry?
    case ListEntry(_) => f.ListEntry?
    case SwitchEntry(_, def) => f.SwitchEntry? && f.def == def
    case FlagEntry(_) => f.FlagEntry?
    case NumberEntry(_) => f.NumberEntry?
    case WaitEntry(_) => f.WaitEntry?
  }

  /** Being read by the same accessor sorts the entries into kinds of their own. */
  lemma AccessorsSort(e: Entry, f: Entry, g: Entry)
    ensures SameAccessor(e, e) && (SameAccessor(e, f) ==> SameAccessor(f, e))
    ensures SameAccessor(e, f) && SameAccessor(f, g) ==> SameAccessor(e, g)
    ensures SameAccessor(e, f) ==> EntryKind(e) == EntryKind(f)
  {
  }

  /** Only the wait interval is read as another kind than it is registered with. */
  lemma OnlyWaitMismatch(p: ShippedParm, e: Entry)
    requires SameAccessor(Absent(p), e)
    ensures EntryKind(e) != KindOf(ShippedDefault(p)) <==> p.WaitInterval?
  {
  }

  /** What names or patterns of objects to monitor. */
  predicate Monitored(p: ShippedParm) {
    p.Queues? || p.Channels? || p.AmqpChannels? || p.MqttChannels? || p.Topics? || p.Subscriptions?
  }

  /** An empty text is replaced by the default when the configuration is verified; that of the
      statistics queue only when statistics are used. */
  predicate Restored(p: ShippedParm, useStatistics: bool) {
    || p.PollInterval? || p.RediscoverInterval? || p.TzOffset? || (p.StatisticsQueue? && useStatistics)
    || p.PromMetricsPath? || p.PromNamespace? || p.PromReconnectInterval?
  }

  /** The value when the configuration is verified. What is monitored comes from a pattern file
      instead, if one is given for it; and with statistics all queues are monitored in any case. */
  function Verified(p: ShippedParm, v: Value, useStatistics: bool, patterns: Option<string>): Value {
    if p.Queues? && useStatistics then StrV("*")
    else if Monitored(p) && patterns.Some? then StrV(patterns.value)
    else if v == StrV("") && Restored(p, useStatistics) then ShippedDefault(p)
    else v
  }

  /** With statistics all queues are monitored, whatever is given; and apart from that and from what is
      monitored, verifying changes nothing but empty texts. */
  lemma VerifyingChangesLittle(p: ShippedParm, v: Value, useStatistics: bool, patterns: Option<string>)
    ensures Verified(Queues, v, true, patterns) == StrV("*")
    ensures Verified(p, v, useStatistics, patterns) != v ==>
      || v == StrV("")
      || (Monitored(p) && (patterns.Some? || useStatistics))
  {
  }

  /** A pattern file decides for queues, unless there are statistics, for all kinds of channels, topics
      and subscriptions, and for nothing else. */
  lemma PatternsReach(p: ShippedParm, v: Value, useStatistics: bool, t: string)
    ensures Verified(p, v, useStatistics, Some(t)) ==
      if (p == Queues && !useStatistics) || p == Channels || p == AmqpChannels || p == MqttChannels
        || p == Topics || p == Subscriptions
      then StrV(t)
      else Verified(p, v, useStatistics, None)
  {
  }

  /** A missing entry replaces the default by an empty value, which nothing puts right again. */
  predicate Lost(p: ShippedParm, useStatistics: bool) {
    || p.LogLevel? || p.Topics? || p.Subscriptions? || (p.StatisticsQueue? && !useStatistics)
    || p.JsonInterval? || p.JsonRecordmax? || p.OtelInterval? || p.OtelMaxErrors?
    || p.PromPort? || p.PromKeepRunning?
  }

  /** Exactly when a parameter that nobody gave has its built-in default after a file without an entry
      for it was read and the configuration verified. */
  lemma DefaultSurvivesIff(p: ShippedParm, useStatistics: bool, patterns: Option<string>)
    ensures Verified(p, EntryValue(Absent(p)).GetOr(ShippedDefault(p)), useStatistics, patterns) == ShippedDefault(p) <==>
      if p.Queues? && useStatistics then false
      else if Monitored(p) && patterns.Some? then StrV(patterns.value) == ShippedDefault(p)
      else !Lost(p, useStatistics)
  {
    AbsentReads(p);
    LostIff(p, useStatistics);
  }

  lemma LostIff(p: ShippedParm, useStatistics: bool)
    ensures Lost(p, useStatistics) <==> ShippedDefault(p) != Empty(p) && !Restored(p, useStatistics)
  {
    RestoredIsText(p);
    if Absent(p).TextEntry? {
      LostText(p, useStatistics);
    } else {
      LostOther(p);
    }
  }

  /** The texts with a default that is not empty. */
  predicate HasText(p: ShippedParm) {
    || p.LogLevel? || p.PollInterval? || p.RediscoverInterval? || p.TzOffset? || p.StatisticsQueue?
    || p.JsonInterval? || p.OtelInterval?
    || p.PromPort? || p.PromMetricsPath? || p.PromNamespace? || p.PromReconnectInterval?
  }

  lemma HasTextIff(p: ShippedParm)
    requires Absent(p).TextEntry?
    ensures ShippedDefault(p) != StrV("") <==> HasText(p)
  {
  }

  lemma LostText(p: ShippedParm, useStatistics: bool)
    requires Absent(p).TextEntry?
    ensures Lost(p, useStatistics) <==> ShippedDefault(p) != StrV("") && !Restored(p, useStatistics)
  {
    HasTextIff(p);
    assert Lost(p, useStatistics) <==> HasText(p) && !Restored(p, useStatistics);
  }

  lemma LostOther(p: ShippedParm)
    requires !Absent(p).TextEntry?
    ensures Lost(p, true) <==> ShippedDefault(p) != Empty(p)
    ensures Lost(p, false) <==> Lost(p, true)
  {
    HasOtherIff(p);
    assert Lost(p, true) <==> HasOther(p);
  }

  /** The other defaults that a missing entry does not read as. */
  predicate HasOther(p: ShippedParm) {
    p.Topics? || p.Subscriptions? || p.JsonRecordmax? || p.OtelMaxErrors? || p.PromKeepRunning?
  }

  lemma HasOtherIff(p: ShippedParm)
    requires !Absent(p).TextEntry?
    ensures ShippedDefault(p) != Empty(p) <==> HasOther(p)
  {
  }

  /** In particular the OpenTelemetry collector then tolerates no failing turn at all. */
  lemma NoErrorsTolerated()
    ensures EntryValue(Absent(OtelMaxErrors)).GetOr(ShippedDefault(OtelMaxErrors)) == IntV(0)
  {
  }

  lemma EmptyReads()
    ensures Join([], ',') == "" && AsInt("", DEFAULT_WAIT_INTERVAL) == DEFAULT_WAIT_INTERVAL
    ensures AsBool("", true) && !AsBool("", false)
  {
  }

  /** A missing entry's value: the default for switches, the wait interval and the reply queue, and
      otherwise the empty value of its kind. */
  function Empty(p: ShippedParm): Value {
    match Absent(p)
    case TextEntry(_) => StrV("")
    case ListEntry(_) => StrV("")
    case NumberEntry(_) => IntV(0)
    case FlagEntry(_) => BoolV(false)
    case _ => ShippedDefault(p)
  }

  /** A missing entry, and that it agrees with the default where it brings one of its own. */
  predicate Missing(e: Entry, default: Value) {
    match e
    case TextEntry(s) => s == ""
    case TextIfAnyEntry(s) => s == ""
    case ListEntry(items) => items == []
    case SwitchEntry(s, def) => s == "" && default == BoolV(def)
    case FlagEntry(b) => !b
    case NumberEntry(i) => i == 0
    case WaitEntry(s) => s == "" && default == IntV(DEFAULT_WAIT_INTERVAL)
  }

  lemma AbsentIsMissing(p: ShippedParm)
    ensures Missing(Absent(p), ShippedDefault(p))
  {
  }

  lemma RestoredIsText(p: ShippedParm)
    ensures Restored(p, true) ==> Absent(p) == TextEntry("")
    ensures Restored(p, false) ==> Restored(p, true)
  {
  }

  lemma AbsentReads(p: ShippedParm)
    ensures EntryValue(Absent(p)).GetOr(ShippedDefault(p)) == Empty(p)
    ensures Restored(p, true) ==> Empty(p) == StrV("")
  {
    EmptyReads();
    AbsentIsMissing(p);
    RestoredIsText(p);
  }
}
