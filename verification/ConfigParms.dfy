/** Where a configuration value comes from: the registry of parameters, the command line, the
    environment, the configuration file and the built-in default. */
module ConfigParms {
  import opened Options
  import opened ConfigValues

  function Getenv(env: map<string, string>, k: string): string {
    if k in env then env[k] else ""
  }

  /** One flag given on the command line, its text already read as a value of the flag's kind. */
  datatype Setting = Setting(name: string, value: Value)

  /** The last of several settings of a flag decides. */
  function OnCommandLine(cli: seq<Setting>, name: string): Option<Value> {
    if cli == [] then None
    else
      var n := |cli| - 1;
      if cli[n].name == name then Some(cli[n].value) else OnCommandLine(cli[..n], name)
  }

  /** The order of precedence. */
  function Layered(cli: Option<Value>, env: string, kind: Kind, file: Option<Value>, default: Value): Value {
    if cli.Some? then cli.value
    else if env != "" then FromEnv(kind, env)
    else if file.Some? then file.value
    else default
  }

  /** A field of the configuration record, to which a parameter points. */
  class Cell {
    const kind: Kind
    var v: Value

    constructor (v: Value)
      ensures this.v == v && kind == KindOf(v)
    {
      this.v, kind := v, KindOf(v);
    }
  }

  class Parm {
    const loc: Cell
    const parmType: Kind
    const cliName: string
    var defaultValue: Value
    var userSet: bool

    constructor (loc: Cell, defaultValue: Value, parmType: Kind, cliName: string)
      ensures this.loc == loc && this.parmType == parmType && this.cliName == cliName
      ensures this.defaultValue == defaultValue && !userSet
    {
      this.loc, this.parmType, this.cliName := loc, parmType, cliName;
      this.defaultValue, userSet := defaultValue, false;
    }
  }

  /** How reading the parameters ends: a clean end, a flag the command line may not have, which ends
      the program, or a failed type assertion or repeated flag name, which panics. */
  datatype Outcome = Done | Exited | Panicked | Unreadable

  class Registry {
    var parms: map<string, Parm>

    constructor ()
      ensures parms == map[]
    {
      parms := map[];
    }

    /** A parameter is known by its environment key: a second with the same key takes its place. */
    method AddParm(loc: Cell, defaultValue: Value, parmType: Kind, cliName: string, section: string, name: string)
      modifies this
      ensures var k := EnvVarKey(section, name);
        && k in parms && fresh(parms[k]) && parms == old(parms)[k := parms[k]]
        && parms[k].loc == loc && parms[k].parmType == parmType && parms[k].cliName == cliName
        && parms[k].defaultValue == defaultValue && !parms[k].userSet
      ensures old(Valid()) ==> Valid()
    {
      var p := new Parm(loc, defaultValue, parmType, cliName);
      parms := parms[EnvVarKey(section, name) := p];
    }

    /** The two deprecated status flags share a key, so the first is never registered: giving it ends
        the program, and the warning meant for it cannot be seen. */
    method AddStatusFlags(loc: Cell)
      requires forall k :: k in parms ==> parms[k].cliName != "ibmmq.qStatus"
      modifies this
      ensures forall cli, i, v :: 0 <= i < |cli| && cli[i] == Setting("ibmmq.qStatus", v) ==> !Understood(parms, cli)
    {
      AddParm(loc, BoolV(false), BoolKind, "ibmmq.qStatus", "global", "useObjectStatus");
      AddParm(loc, BoolV(false), BoolKind, "ibmmq.useStatus", "global", "useObjectStatus");
      forall cli, i, v | 0 <= i < |cli| && cli[i] == Setting("ibmmq.qStatus", v)
        ensures !Understood(parms, cli)
      {
        assert !FlagFor(parms, cli[i]);
      }
    }

    /** Every key has a parameter of its own. */
    ghost predicate Valid()
      reads this
    {
      forall k, l :: k in parms && l in parms && k != l ==> parms[k] != parms[l]
    }

    ghost function Cells(): set<Cell>
      reads this
    {
      set k | k in parms :: parms[k].loc
    }

    /** The parameter shares its place with no other. */
    ghost predicate OwnPlace(k: string)
      requires k in parms
      reads this
    {
      forall l :: l in parms && l != k ==> parms[l].loc != parms[k].loc
    }

    method RegisterOne(k: string, envValue: string, flags: map<string, Parm>) returns (ok: bool)
      requires k in parms
      modifies parms[k], parms[k].loc
      ensures ok <==> Typed(parms[k], old(State(parms[k].defaultValue, parms[k].userSet)), envValue) && parms[k].cliName !in flags
      ensures ok ==> parms[k].defaultValue == Default(parms[k].parmType, envValue, old(parms[k].defaultValue))
      ensures ok ==> parms[k].userSet == (old(parms[k].userSet) || envValue != "")
      ensures ok ==> parms[k].loc.v == parms[k].defaultValue
    {
      var p := parms[k];
      if envValue != "" {
        p.userSet := true;
        p.defaultValue := FromEnv(p.parmType, envValue);
      }
      ok := p.loc.kind == p.parmType && KindOf(p.defaultValue) == p.parmType && p.cliName !in flags;
      if ok {
        p.loc.v := p.defaultValue;
      }
    }

    /** The default and the mark of every parameter. */
    ghost function States(): (m: map<string, State>)
      reads this, parms.Values
      ensures m.Keys == parms.Keys
    {
      map k | k in parms :: State(parms[k].defaultValue, parms[k].userSet)
    }

    /** What registering leaves in a parameter, and where it has a place of its own, in that. */
    ghost predicate Registered(k: string, was: State, envValue: string)
      requires k in parms
      reads this, parms[k], parms[k].loc
    {
      var p := parms[k];
      && p.defaultValue == Default(p.parmType, envValue, was.defaultValue)
      && p.userSet == (was.userSet || envValue != "")
      && (OwnPlace(k) ==> p.loc.v == p.defaultValue)
    }

    /** Some parameters are registered, the rest are still as they were. */
    ghost predicate Progress(done: set<string>, was: map<string, State>, env: map<string, string>)
      requires was.Keys == parms.Keys
      reads this, parms.Values, Cells()
    {
      forall k :: k in parms ==>
        if k in done then Registered(k, was[k], Getenv(env, k))
        else State(parms[k].defaultValue, parms[k].userSet) == was[k]
    }

    method RegisterNext(k: string, ghost done: set<string>, ghost was: map<string, State>, env: map<string, string>,
                        flags: map<string, Parm>) returns (ok: bool)
      requires Valid() && was.Keys == parms.Keys && Progress(done, was, env) && k in parms && k !in done
      modifies parms.Values, Cells()
      ensures ok <==> Typed(parms[k], was[k], Getenv(env, k)) && parms[k].cliName !in flags
      ensures ok ==> Progress(done + {k}, was, env)
    {
      ok := RegisterOne(k, Getenv(env, k), flags);
    }

    /** Part of the way: some parameters are registered, their flags are known, nothing is amiss. */
    ghost predicate Underway(done: set<string>, was: map<string, State>, env: map<string, string>,
                             flags: map<string, Parm>)
      requires done <= parms.Keys == was.Keys
      reads this, parms.Values, Cells()
    {
      Progress(done, was, env) && FlagsOf(parms, done, flags) && Registrable(parms, done, was, env)
    }

    method RegisterFlag(k: string, ghost done: set<string>, ghost was: map<string, State>, env: map<string, string>,
                        flags: map<string, Parm>) returns (ok: bool, r: map<string, Parm>)
      requires Valid() && done <= parms.Keys == was.Keys && Underway(done, was, env, flags) && k in parms && k !in done
      modifies parms.Values, Cells()
      ensures ok ==> Underway(done + {k}, was, env, r)
      ensures !ok ==> !Registrable(parms, parms.Keys, was, env)
    {
      RegistrableStep(parms, done, was, env, flags, k);
      ok := RegisterNext(k, done, was, env, flags);
      r := if ok then flags[parms[k].cliName := parms[k]] else flags;
    }

    method RegisterAt(keys: seq<string>, i: nat, ghost was: map<string, State>, env: map<string, string>,
                      flags: map<string, Parm>) returns (ok: bool, r: map<string, Parm>)
      requires Valid() && Listing(keys, parms.Keys) && i < |keys|
      requires Members(keys, i) <= parms.Keys == was.Keys && Underway(Members(keys, i), was, env, flags)
      modifies parms.Values, Cells()
      ensures Members(keys, i + 1) <= parms.Keys
      ensures ok ==> Underway(Members(keys, i + 1), was, env, r)
      ensures !ok ==> !Registrable(parms, parms.Keys, was, env)
    {
      MembersStep(keys, i);
      ok, r := RegisterFlag(keys[i], Members(keys, i), was, env, flags);
    }

    /** Registers every parameter's flag, the environment's value as its default; `keys` are the
        parameters' keys, each once, in any order. It panics exactly if they are not registrable. */
    method RegisterFlags(env: map<string, string>, keys: seq<string>) returns (ok: bool, flags: map<string, Parm>)
      requires Valid() && Listing(keys, parms.Keys)
      modifies parms.Values, Cells()
      ensures ok <==> Registrable(parms, parms.Keys, old(States()), env)
      ensures ok ==> FlagsOf(parms, parms.Keys, flags) && Progress(parms.Keys, old(States()), env)
    {
      ghost var was, all := States(), parms;
      flags := map[];
      for i := 0 to |keys|
        invariant parms == all && Members(keys, i) <= parms.Keys && Underway(Members(keys, i), was, env, flags)
      {
        ok, flags := RegisterAt(keys, i, was, env, flags);
        if !ok {
          return;
        }
      }
      ok := true;
      AllMembers(keys, parms.Keys);
    }

    ghost function Places(): (m: map<string, Value>)
      reads this, Cells()
      ensures m.Keys == parms.Keys
    {
      map k | k in parms :: parms[k].loc.v
    }

    method SetFlag(flags: map<string, Parm>, s: Setting) returns (ok: bool)
      requires Valid() && FlagsOf(parms, parms.Keys, flags)
      modifies Cells()
      ensures ok <==> FlagFor(parms, s)
      ensures ok ==> forall k :: k in parms && OwnPlace(k) ==>
        parms[k].loc.v == if parms[k].cliName == s.name then s.value else old(parms[k].loc.v)
    {
      ok := s.name in flags && flags[s.name].parmType == KindOf(s.value);
      if ok {
        ghost var k :| k in parms && parms[k].cliName == s.name;
        var p := flags[s.name];
        assert p == parms[k];
        p.loc.v := s.value;
      }
    }

    /** What the command line leaves in the places. */
    ghost predicate Given(cli: seq<Setting>, was: map<string, Value>)
      requires was.Keys == parms.Keys
      reads this, Cells()
    {
      forall k :: k in parms && OwnPlace(k) ==>
        parms[k].loc.v == OnCommandLine(cli, parms[k].cliName).GetOr(was[k])
    }

    method SetNextFlag(flags: map<string, Parm>, cli: seq<Setting>, i: nat,
                       ghost was: map<string, Value>) returns (ok: bool)
      requires Valid() && FlagsOf(parms, parms.Keys, flags)
      requires i < |cli| && was.Keys == parms.Keys && Given(cli[..i], was)
      modifies Cells()
      ensures ok <==> FlagFor(parms, cli[i])
      ensures ok ==> Given(cli[..i + 1], was)
    {
      assert cli[..i + 1][..i] == cli[..i];
      ok := SetFlag(flags, cli[i]);
    }

    method ParseFlags(flags: map<string, Parm>, cli: seq<Setting>) returns (ok: bool)
      requires Valid() && FlagsOf(parms, parms.Keys, flags)
      modifies Cells()
      ensures ok <==> Understood(parms, cli)
      ensures ok ==> Given(cli, old(Places()))
    {
      ghost var was, all := Places(), parms;
      for i := 0 to |cli|
        invariant Given(cli[..i], was)
        invariant parms == all && Understood(all, cli[..i])
      {
        ok := SetNextFlag(flags, cli, i, was);
        UnderstoodStep(all, cli, i);
        if !ok {
          return;
        }
      }
      ok := true;
      assert cli[..|cli|] == cli;
    }

    /** What the command line, the environment and the defaults make of a parameter. */
    ghost predicate Parsed(k: string, was: State, env: map<string, string>, cli: seq<Setting>)
      requires k in parms
      reads this, parms[k], parms[k].loc
    {
      var p := parms[k];
      && p.userSet == (was.userSet || IsGiven(p.cliName, Getenv(env, k), cli))
      && (OwnPlace(k) ==>
            p.loc.v == Layered(OnCommandLine(cli, p.cliName), Getenv(env, k), p.parmType, None, was.defaultValue))
    }

    /** A registered parameter after the command line, before it is marked. */
    ghost predicate Placed(k: string, was: State, env: map<string, string>, cli: seq<Setting>)
      requires k in parms
      reads this, parms[k], parms[k].loc
    {
      var p := parms[k];
      && p.userSet == (was.userSet || Getenv(env, k) != "")
      && (OwnPlace(k) ==>
            p.loc.v == Layered(OnCommandLine(cli, p.cliName), Getenv(env, k), p.parmType, None, was.defaultValue))
    }

    method PlaceFlags(flags: map<string, Parm>, cli: seq<Setting>, ghost was: map<string, State>,
                      ghost env: map<string, string>) returns (ok: bool)
      requires Valid() && FlagsOf(parms, parms.Keys, flags)
      requires was.Keys == parms.Keys && forall k :: k in parms ==> Registered(k, was[k], Getenv(env, k))
      modifies Cells()
      ensures ok <==> Understood(parms, cli)
      ensures ok ==> forall k :: k in parms ==> Placed(k, was[k], env, cli)
    {
      ghost var places := Places();
      ok := ParseFlags(flags, cli);
      if ok {
        forall k | k in parms
          ensures Placed(k, was[k], env, cli)
        {
          assert OwnPlace(k) ==> parms[k].loc.v == OnCommandLine(cli, parms[k].cliName).GetOr(places[k]);
        }
      }
    }

    /** Marks the parameters that the command line set. */
    method MarkGiven(keys: seq<string>, cli: seq<Setting>, ghost was: map<string, State>, ghost env: map<string, string>)
      requires Valid() && Listing(keys, parms.Keys) && was.Keys == parms.Keys
      requires forall k :: k in parms ==> Placed(k, was[k], env, cli)
      modifies parms.Values`userSet
      ensures forall k :: k in parms ==> Parsed(k, was[k], env, cli)
    {
      for i := 0 to |keys|
        invariant forall k :: k in parms ==>
          if k in Members(keys, i) then Parsed(k, was[k], env, cli) else Placed(k, was[k], env, cli)
      {
        MembersStep(keys, i);
        MarkOne(keys[i], parms[keys[i]], cli, was[keys[i]], env);
      }
      AllMembers(keys, parms.Keys);
    }

    method MarkOne(ghost k: string, p: Parm, cli: seq<Setting>, ghost was: State, ghost env: map<string, string>)
      requires k in parms && parms[k] == p && Placed(k, was, env, cli)
      modifies p`userSet
      ensures Parsed(k, was, env, cli)
    {
      if OnCommandLine(cli, p.cliName).Some? {
        p.userSet := true;
      }
    }

    /** The command line, once all flags are registered. */
    method ParseCommandLine(flags: map<string, Parm>, keys: seq<string>, cli: seq<Setting>,
                            ghost was: map<string, State>, ghost env: map<string, string>) returns (ok: bool)
      requires Valid() && Listing(keys, parms.Keys) && FlagsOf(parms, parms.Keys, flags)
      requires was.Keys == parms.Keys && Progress(parms.Keys, was, env)
      modifies parms.Values, Cells()
      ensures ok <==> Understood(parms, cli)
      ensures ok ==> forall k :: k in parms ==> Parsed(k, was[k], env, cli)
    {
      ok := PlaceFlags(flags, cli, was, env);
      if ok {
        MarkGiven(keys, cli, was, env);
      }
    }

    /** Reads environment and command line into every parameter's place. */
    method ParseParms(env: map<string, string>, cli: seq<Setting>, keys: seq<string>) returns (r: Outcome)
      requires Valid() && Listing(keys, parms.Keys)
      modifies parms.Values, Cells()
      ensures r.Panicked? <==> !Registrable(parms, parms.Keys, old(States()), env)
      ensures !r.Panicked? ==> r == if Understood(parms, cli) then Done else Exited
      ensures r.Done? ==> forall k :: k in parms ==> Parsed(k, old(States())[k], env, cli)
    {
      ghost var was := States();
      var ok, flags := RegisterFlags(env, keys);
      if !ok {
        return Panicked;
      }
      ok := ParseCommandLine(flags, keys, cli, was, env);
      r := if ok then Done else Exited;
    }

    // --- the configuration file

    /** The accessor's type assertion fails: the parameter was given, and is not of its kind. */
    predicate Clash(a: Assignment)
      reads this, parms.Values
    {
      a.key in parms && parms[a.key].userSet && parms[a.key].loc.kind != EntryKind(a.entry)
    }

    predicate IsSet(k: string)
      reads this, parms.Values
    {
      k in parms && parms[k].userSet
    }

    ghost predicate OfParameters(file: seq<Assignment>)
      reads this
    {
      && (forall i :: 0 <= i < |file| ==> file[i].key in parms && file[i].loc == parms[file[i].key].loc)
      && (forall i, j :: 0 <= i < j < |file| ==> file[i].loc != file[j].loc && file[i].key != file[j].key)
    }

    /** Takes a value from the file unless the user gave one. */
    method CopyOne(a: Assignment) returns (ok: bool)
      requires a.key in parms ==> a.loc == parms[a.key].loc
      modifies a.loc
      ensures ok <==> !Clash(a)
      ensures ok ==> a.loc.v == if IsSet(a.key) then old(a.loc.v) else EntryValue(a.entry).GetOr(old(a.loc.v))
    {
      ok := true;
      if a.key in parms && parms[a.key].userSet {
        if parms[a.key].loc.kind != EntryKind(a.entry) {
          return false;
        }
        a.loc.v := parms[a.key].loc.v;
      } else if EntryValue(a.entry).Some? {
        a.loc.v := EntryValue(a.entry).value;
      }
    }

    method CopyFile(file: seq<Assignment>) returns (ok: bool)
      requires OfParameters(file)
      modifies set i | 0 <= i < |file| :: file[i].loc
      ensures ok <==> forall i :: 0 <= i < |file| ==> !Clash(file[i])
      ensures ok ==> forall i :: 0 <= i < |file| ==>
        file[i].loc.v == if IsSet(file[i].key) then old(file[i].loc.v) else EntryValue(file[i].entry).GetOr(old(file[i].loc.v))
    {
      for i := 0 to |file|
        invariant forall j :: 0 <= j < i ==> !Clash(file[j])
        invariant forall j :: 0 <= j < i ==>
          file[j].loc.v == if IsSet(file[j].key) then old(file[j].loc.v) else EntryValue(file[j].entry).GetOr(old(file[j].loc.v))
        invariant forall j :: i <= j < |file| ==> file[j].loc.v == old(file[j].loc.v)
      {
        ok := CopyOne(file[i]);
        if !ok {
          return;
        }
      }
      ok := true;
    }

    /** After the parameters are read and then the file. */
    ghost predicate Settled(k: string, was: State, env: map<string, string>, cli: seq<Setting>, file: seq<Assignment>)
      requires k in parms
      reads this, parms[k].loc
    {
      OwnPlace(k) ==>
        parms[k].loc.v == Layered(OnCommandLine(cli, parms[k].cliName), Getenv(env, k), parms[k].parmType,
                                  FromFile(file, k), was.defaultValue)
    }

    /** The configuration file is read: its parameter, not itself taken from a file, is not empty. */
    predicate ReadsFile(k: string, env: map<string, string>, cli: seq<Setting>)
      requires k in parms
      reads this, parms[k]
    {
      var p := parms[k];
      Layered(OnCommandLine(cli, p.cliName), Getenv(env, k), p.parmType, None, p.defaultValue) != StrV("")
    }

    /** That is, exactly if what prevails for it without a file is not the empty text. */
    lemma ReadsFileIff(k: string, env: map<string, string>, cli: seq<Setting>, v: Value)
      requires k in parms && Prevails(v, cli, parms[k].cliName, env, k, parms[k].parmType, [], parms[k].defaultValue)
      ensures ReadsFile(k, env, cli) <==> v != StrV("")
    {
      WhatPrevails(cli, parms[k].cliName, env, k, parms[k].parmType, [], parms[k].defaultValue, v);
    }

    /** The file's entries, among parameters whose marks tell what was given. */
    method CopyGiven(file: seq<Assignment>, ghost env: map<string, string>, ghost cli: seq<Setting>) returns (ok: bool)
      requires OfParameters(file)
      requires forall k :: k in parms ==> parms[k].userSet == IsGiven(parms[k].cliName, Getenv(env, k), cli)
      modifies set i | 0 <= i < |file| :: file[i].loc
      ensures ok <==> !FileClashes(parms, env, cli, file)
      ensures ok ==> forall i :: 0 <= i < |file| ==>
        file[i].loc.v == if IsSet(file[i].key) then old(file[i].loc.v) else EntryValue(file[i].entry).GetOr(old(file[i].loc.v))
    {
      ok := CopyFile(file);
    }

    /** The same, parameter by parameter. */
    method CopyToPlaces(file: seq<Assignment>, ghost env: map<string, string>, ghost cli: seq<Setting>) returns (ok: bool)
      requires OfParameters(file)
      requires forall k :: k in parms ==> parms[k].userSet == IsGiven(parms[k].cliName, Getenv(env, k), cli)
      modifies Cells()
      ensures ok <==> !FileClashes(parms, env, cli, file)
      ensures ok ==> forall k :: k in parms && OwnPlace(k) ==>
        parms[k].loc.v == if IsSet(k) then old(parms[k].loc.v) else FromFile(file, k).GetOr(old(parms[k].loc.v))
    {
      ghost var before := Places();
      ok := CopyGiven(file, env, cli);
      if ok {
        forall k | k in parms && OwnPlace(k)
          ensures parms[k].loc.v == if IsSet(k) then before[k] else FromFile(file, k).GetOr(before[k])
        {
          var i := FromFileAt(file, k);
          if i < |file| {
            assert file[i].loc == parms[k].loc;
          } else {
            assert parms[k].loc.v == before[k];
          }
        }
      }
    }

    method SettleFile(file: seq<Assignment>, ghost was: map<string, State>, ghost env: map<string, string>,
                      ghost cli: seq<Setting>) returns (ok: bool)
      requires OfParameters(file) && was.Keys == parms.Keys
      requires forall k :: k in parms ==> !was[k].userSet && Parsed(k, was[k], env, cli)
      modifies Cells()
      ensures ok <==> !FileClashes(parms, env, cli, file)
      ensures ok ==> forall k :: k in parms ==> Settled(k, was[k], env, cli, file)
    {
      ok := CopyToPlaces(file, env, cli);
    }

    /** The whole start: parameters, then the configuration file if its own parameter names one. A
        value is the command line's, else the environment's unless empty, else the file's if one is
        read, else the default. */
    method Configure(env: map<string, string>, cli: seq<Setting>, keys: seq<string>, configKey: string,
                     file: Option<seq<Assignment>>) returns (r: Outcome)
      requires Valid() && Listing(keys, parms.Keys) && configKey in parms && OwnPlace(configKey)
      requires forall k :: k in parms ==> !parms[k].userSet
      requires file.Some? ==> OfParameters(file.value)
      modifies parms.Values, Cells()
      ensures r.Panicked? <==>
        (!Registrable(parms, parms.Keys, old(States()), env)
         || (Understood(parms, cli) && old(ReadsFile(configKey, env, cli)) && file.Some?
             && FileClashes(parms, env, cli, file.value)))
      ensures r.Exited? <==> Registrable(parms, parms.Keys, old(States()), env) && !Understood(parms, cli)
      ensures r.Unreadable? <==>
        (Registrable(parms, parms.Keys, old(States()), env) && Understood(parms, cli)
         && old(ReadsFile(configKey, env, cli)) && file.None?)
      ensures r.Done? ==> forall k :: k in parms ==>
        Settled(k, old(States())[k], env, cli, if old(ReadsFile(configKey, env, cli)) then file.value else [])
    {
      ghost var was := States();
      r := ParseParms(env, cli, keys);
      assert r.Done? ==> Parsed(configKey, was[configKey], env, cli);
      if r.Done? && parms[configKey].loc.v != StrV("") {
        if file.None? {
          return Unreadable;
        }
        var ok := SettleFile(file.value, was, env, cli);
        r := if ok then Done else Panicked;
      }
    }
  }

  function FromFile(file: seq<Assignment>, k: string): Option<Value> {
    if file == [] then None
    else if file[0].key == k then EntryValue(file[0].entry)
    else FromFile(file[1..], k)
  }

  lemma {:induction false} FromFileAt(file: seq<Assignment>, k: string) returns (i: nat)
    ensures i <= |file|
    ensures i < |file| ==> file[i].key == k && FromFile(file, k) == EntryValue(file[i].entry)
    ensures forall j :: 0 <= j < i ==> file[j].key != k
    ensures i == |file| ==> FromFile(file, k) == None && forall j :: 0 <= j < |file| ==> file[j].key != k
  {
    i := 0;
    if file != [] && file[0].key != k {
      i := FromFileAt(file[1..], k);
      i := i + 1;
    }
  }

  /** Some value of the file is looked up with the wrong kind, though the user gave the parameter. */
  ghost predicate FileClashes(parms: map<string, Parm>, env: map<string, string>, cli: seq<Setting>, file: seq<Assignment>)
    requires forall i :: 0 <= i < |file| ==> file[i].key in parms
  {
    exists i :: 0 <= i < |file| && parms[file[i].key].loc.kind != EntryKind(file[i].entry)
      && IsGiven(parms[file[i].key].cliName, Getenv(env, file[i].key), cli)
  }

  /** An entry of the configuration file on its way to a place of the configuration, with the key it
      is looked up by. */
  datatype Assignment = Assignment(loc: Cell, key: string, entry: Entry)

  predicate IsGiven(cliName: string, envValue: string, cli: seq<Setting>) {
    envValue != "" || OnCommandLine(cli, cliName).Some?
  }

  /** The program accepts a command line whose every flag is known and has a value of its kind. */
  ghost predicate Understood(parms: map<string, Parm>, cli: seq<Setting>) {
    forall i :: 0 <= i < |cli| ==> FlagFor(parms, cli[i])
  }

  lemma UnderstoodStep(parms: map<string, Parm>, cli: seq<Setting>, i: nat)
    requires i < |cli| && Understood(parms, cli[..i])
    ensures Understood(parms, cli[..i + 1]) <==> FlagFor(parms, cli[i])
    ensures Understood(parms, cli) ==> FlagFor(parms, cli[i])
  {
    assert cli[..i + 1] == cli[..i] + [cli[i]];
  }

  ghost predicate FlagFor(parms: map<string, Parm>, s: Setting) {
    exists k :: k in parms && parms[k].cliName == s.name && parms[k].parmType == KindOf(s.value)
  }

  datatype State = State(defaultValue: Value, userSet: bool)

  /** The place has the parameter's kind, and so does the default unless the environment replaces it. */
  ghost predicate Typed(p: Parm, was: State, envValue: string) {
    p.loc.kind == p.parmType && (envValue != "" || KindOf(was.defaultValue) == p.parmType)
  }

  /** No two parameters share a flag name; each default and place has the parameter's kind. */
  ghost predicate Registrable(parms: map<string, Parm>, done: set<string>, was: map<string, State>,
                              env: map<string, string>)
    requires done <= parms.Keys == was.Keys
  {
    && (forall k, l :: k in done && l in done && k != l ==> parms[k].cliName != parms[l].cliName)
    && (forall k :: k in done ==> Typed(parms[k], was[k], Getenv(env, k)))
  }

  ghost predicate FlagsOf(parms: map<string, Parm>, done: set<string>, flags: map<string, Parm>)
    requires done <= parms.Keys
  {
    && (forall k :: k in done ==> parms[k].cliName in flags && flags[parms[k].cliName] == parms[k])
    && (forall n :: n in flags ==> exists k :: k in done && parms[k].cliName == n)
  }

  lemma RegistrableStep(parms: map<string, Parm>, done: set<string>, was: map<string, State>,
                        env: map<string, string>, flags: map<string, Parm>, k: string)
    requires done <= parms.Keys == was.Keys && k in parms && k !in done
    requires FlagsOf(parms, done, flags) && Registrable(parms, done, was, env)
    ensures var ok := Typed(parms[k], was[k], Getenv(env, k)) && parms[k].cliName !in flags;
      && (ok ==> Registrable(parms, done + {k}, was, env)
                 && FlagsOf(parms, done + {k}, flags[parms[k].cliName := parms[k]]))
      && (!ok ==> !Registrable(parms, parms.Keys, was, env))
  {
  }

  ghost function Members(keys: seq<string>, i: nat): set<string>
    requires i <= |keys|
  {
    set j | 0 <= j < i :: keys[j]
  }

  lemma MembersStep(keys: seq<string>, i: nat)
    requires i < |keys|
    ensures Members(keys, i + 1) == Members(keys, i) + {keys[i]}
    ensures (forall j, k :: 0 <= j < k < |keys| ==> keys[j] != keys[k]) ==> keys[i] !in Members(keys, i)
    ensures keys[i] in keys && forall k :: k in Members(keys, i) ==> k in keys
  {
  }

  lemma AllMembers(keys: seq<string>, all: set<string>)
    requires Listing(keys, all)
    ensures Members(keys, |keys|) == all
  {
  }

  /** The keys of a map, each once, in any order. */
  ghost predicate Listing(keys: seq<string>, all: set<string>) {
    && (forall i, j :: 0 <= i < j < |keys| ==> keys[i] != keys[j])
    && (forall k :: k in keys <==> k in all)
  }

  function Default(kind: Kind, envValue: string, default: Value): Value {
    if envValue != "" then FromEnv(kind, envValue) else default
  }

  /** The entries of a file for some of the shipped parameters, all registered as they are shipped. */
  ghost predicate Ships(parms: map<string, Parm>, file: seq<Assignment>, names: seq<ShippedParm>) {
    && |names| == |file|
    && forall i :: 0 <= i < |file| ==>
      && file[i].key in parms && SameAccessor(Absent(names[i]), file[i].entry)
      && parms[file[i].key].loc.kind == KindOf(ShippedDefault(names[i]))
  }

  /** So reading a file panics exactly if the user gave the wait interval, which is an integer read as
      if it were a text. */
  lemma OnlyWaitIntervalClashes(parms: map<string, Parm>, env: map<string, string>, cli: seq<Setting>,
                                file: seq<Assignment>, names: seq<ShippedParm>)
    requires Ships(parms, file, names)
    ensures FileClashes(parms, env, cli, file) <==>
      exists i :: 0 <= i < |file| && names[i] == WaitInterval
        && IsGiven(parms[file[i].key].cliName, Getenv(env, file[i].key), cli)
  {
    forall i | 0 <= i < |file|
      ensures parms[file[i].key].loc.kind != EntryKind(file[i].entry) <==> names[i] == WaitInterval
    {
      OnlyWaitMismatch(names[i], file[i].entry);
    }
  }

  // --- the order of precedence, told from what was given

  ghost predicate Sets(cli: seq<Setting>, name: string) {
    exists i :: 0 <= i < |cli| && cli[i].name == name
  }

  /** The last setting of the flag has this value. */
  ghost predicate SetsLast(cli: seq<Setting>, name: string, v: Value) {
    exists i :: 0 <= i < |cli| && cli[i] == Setting(name, v) && forall j :: i < j < |cli| ==> cli[j].name != name
  }

  /** The file's first entry under this key has a value, and this one. */
  ghost predicate Enters(file: seq<Assignment>, k: string, v: Value) {
    exists i :: 0 <= i < |file| && file[i].key == k && EntryValue(file[i].entry) == Some(v)
      && forall j :: 0 <= j < i ==> file[j].key != k
  }

  ghost predicate NoEntry(file: seq<Assignment>, k: string) {
    forall v :: !Enters(file, k, v)
  }

  /** The value is the last one given on the command line; without any, a non-empty one of the
      environment; without that, the file's; and without that the default. */
  ghost predicate Prevails(v: Value, cli: seq<Setting>, name: string, env: map<string, string>, k: string, kind: Kind,
                           file: seq<Assignment>, default: Value) {
    if Sets(cli, name) then SetsLast(cli, name, v)
    else if k in env && env[k] != "" then v == FromEnv(kind, env[k])
    else Enters(file, k, v) || (NoEntry(file, k) && v == default)
  }

  lemma {:induction false} LastSetting(cli: seq<Setting>, name: string)
    ensures OnCommandLine(cli, name).Some? <==> Sets(cli, name)
    ensures forall v :: OnCommandLine(cli, name) == Some(v) <==> SetsLast(cli, name, v)
  {
    if cli != [] {
      var n := |cli| - 1;
      LastSetting(cli[..n], name);
      if cli[n].name == name {
        forall v
          ensures SetsLast(cli, name, v) <==> v == cli[n].value
        {
          assert cli[n] == Setting(name, cli[n].value);
        }
      } else {
        SettingBefore(cli, name);
      }
    }
  }

  lemma SettingBefore(cli: seq<Setting>, name: string)
    requires cli != [] && cli[|cli| - 1].name != name
    ensures Sets(cli, name) <==> Sets(cli[..|cli| - 1], name)
    ensures forall v :: SetsLast(cli, name, v) <==> SetsLast(cli[..|cli| - 1], name, v)
  {
    var n := |cli| - 1;
    var before := cli[..n];
    assert cli == before + [cli[n]];
    if Sets(before, name) {
      var i :| 0 <= i < n && before[i].name == name;
      assert cli[i].name == name;
    }
    if Sets(cli, name) {
      var i :| 0 <= i <= n && cli[i].name == name;
      assert before[i].name == name;
    }
    forall v
      ensures SetsLast(cli, name, v) <==> SetsLast(before, name, v)
    {
      LastBefore(before, cli[n], name, v);
    }
  }

  lemma LastBefore(before: seq<Setting>, s: Setting, name: string, v: Value)
    requires s.name != name
    ensures SetsLast(before + [s], name, v) <==> SetsLast(before, name, v)
  {
    var cli, n := before + [s], |before|;
    if SetsLast(before, name, v) {
      var i :| 0 <= i < n && before[i] == Setting(name, v) && forall j :: i < j < n ==> before[j].name != name;
      assert cli[i] == Setting(name, v);
    }
    if SetsLast(cli, name, v) {
      var i :| 0 <= i <= n && cli[i] == Setting(name, v) && forall j :: i < j <= n ==> cli[j].name != name;
      assert before[i] == Setting(name, v);
      assert forall j :: i < j < n ==> before[j] == cli[j];
    }
  }

  lemma FirstEntry(file: seq<Assignment>, k: string, v: Value)
    ensures FromFile(file, k) == Some(v) <==> Enters(file, k, v)
  {
    var i := FromFileAt(file, k);
    if Enters(file, k, v) {
      var j :| 0 <= j < |file| && file[j].key == k && EntryValue(file[j].entry) == Some(v)
        && forall m :: 0 <= m < j ==> file[m].key != k;
      assert i == j;
    }
  }

  /** This is what reading everything leaves in a parameter's place. */
  lemma WhatPrevails(cli: seq<Setting>, name: string, env: map<string, string>, k: string, kind: Kind,
                     file: seq<Assignment>, default: Value, v: Value)
    ensures Layered(OnCommandLine(cli, name), Getenv(env, k), kind, FromFile(file, k), default) == v <==>
      Prevails(v, cli, name, env, k, kind, file, default)
  {
    LastSetting(cli, name);
    FirstEntry(file, k, v);
    if FromFile(file, k).Some? {
      FirstEntry(file, k, FromFile(file, k).value);
    } else {
      forall u
        ensures !Enters(file, k, u)
      {
        FirstEntry(file, k, u);
      }
    }
  }

  /** A parameter counts as given exactly if some setting of the command line or a non-empty value of
      the environment gives it. */
  lemma GivenIff(cliName: string, env: map<string, string>, k: string, cli: seq<Setting>)
    ensures IsGiven(cliName, Getenv(env, k), cli) <==> Sets(cli, cliName) || (k in env && env[k] != "")
  {
    LastSetting(cli, cliName);
  }
}
