/** The Prometheus collector as a system of interleaved steps: the reconnect loop, any number of
    scrapes and the web server share one mutex, five atomic flags, a one-shot start channel and
    the metric vectors. A run is any list of actions each of which is possible where it occurs. */
module CollectorLifecycle {
  import opened Options

  /** The five atomic flags. */
  datatype Flags = Flags(connectedOnce: bool, connectedQMgr: bool, collectorEnd: bool,
                         collectorSilent: bool, firstCollection: bool)

  datatype Holder = Free | ByMain | ByScrape(id: nat)

  /** Where the reconnect loop is: each name is the next thing it does. Everything from Ending to
      Unlocking happens with the mutex held. */
  datatype MainPc =
    | TestingEnd | TestingConnected | Sleeping | Locking
    | Ending | Initialising | Discovering | ResettingHost | Allocating
    | Silencing | Unregistering | Unsilencing | Creating | SettingFirst | Registering | SettingConnected
    | Sending | SettingOnce | Failing | Unlocking

  datatype ServerPc = AwaitingStart | Serving

  datatype ErrorKind = NoReasonCode | QuitCode | OtherCode

  /** Where a scrape is inside Collect: `Queued` still waits for the mutex. */
  datatype ScrapePc =
    | Queued | Entered | Reporting | Working
    | Failed(kind: ErrorKind) | Dropping | Succeeded(polled: bool) | Leaving

  datatype Outcome = Good | Bad(kind: ErrorKind)

  datatype State = State(
    f: Flags, lock: Holder, main: MainPc, server: ServerPc, scrapes: map<nat, ScrapePc>,
    collectorExists: bool, registered: bool,
    hostSupported: bool,        // what the connected queue manager offers
    hostVal: Option<bool>,      // the remembered answer
    vectorHost: Option<bool>,   // whether the current vectors were declared with a hostname label
    registryHost: Option<bool>, // whether the first ones to be registered were
    exited: bool)

  datatype Action =
    | TestEnd | SeeConnected | SeeDisconnected | Wake | LockMain
    | EndConnection | InitAccepted(host: bool) | InitRefused | Discovered | DiscoveryFailed
    | ResetHost | Allocate | FirstTime | Silence | Unregister | Unsilence | Create | SetFirst | Register | SetConnected
    | Send | SkipSend | SetOnce | GiveUp | Retry | UnlockMain
    | ExitLoop | ExitStandby | ServerStops | RegisterPanics
    | Arrive(id: nat) | LockScrape(id: nat) | TestScrape(id: nat) | Report(id: nat)
    | Process(id: nat, outcome: Outcome, due: bool)
    | StayConnected(id: nat) | SetEnd(id: nat) | Disconnect(id: nat)
    | Finish(id: nat, suppressed: bool) | UnlockScrape(id: nat)

  const INITIAL := State(Flags(false, false, false, false, false), Free, TestingEnd, AwaitingStart, map[],
                         false, false, false, None, None, None, false)

  // --- one step

  /** Where the reconnect loop must be for each of its actions. */
  function MainPlace(a: Action): MainPc {
    match a
    case TestEnd => TestingEnd
    case SeeConnected => TestingConnected
    case SeeDisconnected => TestingConnected
    case Wake => Sleeping
    case LockMain => Locking
    case EndConnection => Ending
    case InitAccepted(_) => Initialising
    case InitRefused => Initialising
    case Discovered => Discovering
    case DiscoveryFailed => Discovering
    case ResetHost => ResettingHost
    case Allocate => Allocating
    case FirstTime => Silencing
    case Silence => Silencing
    case Unregister => Unregistering
    case Unsilence => Unsilencing
    case Create => Creating
    case SetFirst => SettingFirst
    case Register => Registering
    case SetConnected => SettingConnected
    case Send => Sending
    case SkipSend => Sending
    case SetOnce => SettingOnce
    case GiveUp => Failing
    case Retry => Failing
    case _ => Unlocking
  }

  /** The reconnect loop up to a usable connection, and its end; None means not possible here. */
  function ConnectStep(s: State, a: Action, keepRunning: bool): Option<State> {
    if s.main != MainPlace(a) then None
    else
      match a
      case TestEnd => if s.f.collectorEnd then None else Some(s.(main := TestingConnected))
      case SeeConnected => if s.f.connectedQMgr then Some(s.(main := Sleeping)) else None
      case SeeDisconnected => if s.f.connectedQMgr then None else Some(s.(main := Locking))
      case Wake => Some(s.(main := TestingEnd))
      case LockMain => if s.lock == Free then Some(s.(lock := ByMain, main := Ending)) else None
      case EndConnection => Some(s.(main := Initialising))
      case InitAccepted(host) => Some(s.(main := Discovering, hostSupported := host))
      case InitRefused => Some(s.(main := Failing))
      case Discovered => Some(s.(main := ResettingHost))
      case DiscoveryFailed => Some(s.(main := Failing))
      case GiveUp =>
        if s.f.connectedOnce && keepRunning then None
        else Some(s.(main := Unlocking, f := s.f.(collectorEnd := true)))
      case Retry => if s.f.connectedOnce && keepRunning then Some(s.(main := Unlocking)) else None
      case UnlockMain => Some(s.(main := TestingEnd, lock := Free))
      case _ => None
  }

  /** From a usable connection to new vectors, a registered collector and the connected flag. */
  function PublishStep(s: State, a: Action): Option<State> {
    if s.main != MainPlace(a) then None
    else
      match a
      case ResetHost => Some(s.(main := Allocating, hostVal := None))
      case Allocate =>
        Some(s.(main := Silencing, hostVal := Some(s.hostSupported), vectorHost := Some(s.hostSupported)))
      case FirstTime => if s.collectorExists then None else Some(s.(main := Creating))
      case Silence => if !s.collectorExists then None else Some(s.(main := Unregistering, f := s.f.(collectorSilent := true)))
      case Unregister => Some(s.(main := Unsilencing, registered := false))
      case Unsilence => Some(s.(main := Creating, f := s.f.(collectorSilent := false)))
      case Create => Some(s.(main := SettingFirst, collectorExists := true))
      case SetFirst => Some(s.(main := Registering, f := s.f.(firstCollection := true)))
      case Register =>
        if RegistryAccepts(s) then Some(s.(main := SettingConnected, registered := true, registryHost := s.vectorHost))
        else None
      case SetConnected => Some(s.(main := Sending, f := s.f.(connectedQMgr := true)))
      case Send =>
        if !s.f.connectedOnce && s.server == AwaitingStart then Some(s.(main := SettingOnce, server := Serving)) else None
      case SkipSend => if s.f.connectedOnce then Some(s.(main := Unlocking)) else None
      case SetOnce => Some(s.(main := Unlocking, f := s.f.(connectedOnce := true)))
      case _ => None
  }

  /** The registry refuses vectors of a known name with other labels; nothing else but the hostname
      is taken to change from one connection to the next. */
  predicate RegistryAccepts(s: State) {
    s.registryHost.None? || s.registryHost == s.vectorHost
  }

  predicate Publishing(a: Action) {
    a.ResetHost? || a.Allocate? || a.FirstTime? || a.Silence? || a.Unregister? || a.Unsilence? || a.Create? || a.SetFirst?
    || a.Register? || a.SetConnected? || a.Send? || a.SkipSend? || a.SetOnce?
  }

  function MainStep(s: State, a: Action, keepRunning: bool): Option<State> {
    if Publishing(a) then PublishStep(s, a) else ConnectStep(s, a, keepRunning)
  }

  /** One scrape, in Collect or waiting to enter it. */
  function ScrapeStep(s: State, id: nat, a: Action): Option<State>
    requires id in s.scrapes
  {
    var pc := s.scrapes[id];
    match a
    case LockScrape(_) =>
      if pc == Queued && s.lock == Free then Some(s.(lock := ByScrape(id), scrapes := s.scrapes[id := Entered])) else None
    case TestScrape(_) =>
      if pc == Entered then Some(s.(scrapes := s.scrapes[id := if s.f.connectedQMgr then Working else Reporting])) else None
    case Report(_) => if pc == Reporting then Some(s.(scrapes := s.scrapes[id := Leaving])) else None
    case Process(_, outcome, due) =>
      if pc == Working then
        Some(s.(scrapes := s.scrapes[id :=
          if outcome.Good? then Succeeded(due || s.f.firstCollection) else Failed(outcome.kind)]))
      else None
    case StayConnected(_) =>
      if pc == Failed(NoReasonCode) then
        Some(s.(scrapes := s.scrapes[id := Leaving], f := s.f.(connectedQMgr := true)))
      else None
    case SetEnd(_) =>
      if pc == Failed(QuitCode) then
        Some(s.(scrapes := s.scrapes[id := Dropping], f := s.f.(collectorEnd := true)))
      else None
    case Disconnect(_) =>
      if pc == Failed(OtherCode) || pc == Dropping then
        Some(s.(scrapes := s.scrapes[id := Leaving], f := s.f.(connectedQMgr := false)))
      else None
    case Finish(_, suppressed) =>
      if pc.Succeeded? && suppressed == s.f.firstCollection then
        Some(s.(scrapes := s.scrapes[id := Leaving], f := s.f.(firstCollection := false)))
      else None
    case UnlockScrape(_) => if pc == Leaving then Some(s.(lock := Free, scrapes := s.scrapes - {id})) else None
    case _ => None
  }

  function ScrapeId(a: Action): Option<nat> {
    match a
    case LockScrape(id) => Some(id) case TestScrape(id) => Some(id) case Report(id) => Some(id)
    case Process(id, _, _) => Some(id) case StayConnected(id) => Some(id) case SetEnd(id) => Some(id)
    case Disconnect(id) => Some(id) case Finish(id, _) => Some(id) case UnlockScrape(id) => Some(id)
    case _ => None
  }

  predicate Exits(a: Action) {
    a.ExitLoop? || a.ExitStandby? || a.ServerStops? || a.RegisterPanics?
  }

  /** The process ends when the loop sees the end flag, when the queue manager turns out to be a
      standby instance, when the web server stops, or when registering panics. */
  predicate MayExit(s: State, a: Action) {
    || (a.ExitLoop? && s.main == TestingEnd && s.f.collectorEnd)
    || (a.ExitStandby? && s.main == Initialising)
    || (a.ServerStops? && s.server == Serving)
    || (a.RegisterPanics? && s.main == Registering && !RegistryAccepts(s))
  }

  function Apply(s: State, a: Action, keepRunning: bool): Option<State> {
    if s.exited then None
    else if Exits(a) then if MayExit(s, a) then Some(s.(exited := true)) else None
    else if a.Arrive? then
      if s.server == Serving && s.registered && a.id !in s.scrapes then Some(s.(scrapes := s.scrapes[a.id := Queued])) else None
    else
      match ScrapeId(a)
      case Some(id) => if id in s.scrapes then ScrapeStep(s, id, a) else None
      case None => MainStep(s, a, keepRunning)
  }

  /** The state after a run, None if some action of it was not possible. */
  function Exec(run: seq<Action>, keepRunning: bool): Option<State> {
    if run == [] then Some(INITIAL)
    else
      match Exec(run[..|run| - 1], keepRunning)
      case None => None
      case Some(s) => Apply(s, run[|run| - 1], keepRunning)
  }

  // --- what holds in every reachable state

  predicate MainLocked(pc: MainPc) {
    !pc.TestingEnd? && !pc.TestingConnected? && !pc.Sleeping? && !pc.Locking?
  }

  /** From seeing the flag down until setting it up again. */
  predicate Reconnecting(pc: MainPc) {
    !pc.TestingEnd? && !pc.TestingConnected? && !pc.Sleeping?
    && !pc.Sending? && !pc.SettingOnce? && !pc.Unlocking?
  }

  predicate InBody(pc: ScrapePc) {
    pc != Queued
  }

  /** Past the connection test with the connection up. */
  predicate AtWork(pc: ScrapePc) {
    pc == Working || pc.Failed? || pc == Dropping || pc.Succeeded?
  }

  ghost predicate LockInv(s: State) {
    && (s.lock == ByMain <==> MainLocked(s.main))
    && (forall id :: id in s.scrapes ==> (InBody(s.scrapes[id]) <==> s.lock == ByScrape(id)))
    && (s.lock.ByScrape? ==> s.lock.id in s.scrapes)
  }

  ghost predicate FlagInv(s: State) {
    && (Reconnecting(s.main) ==> !s.f.connectedQMgr)
    && (s.main == Sending || s.main == SettingOnce ==> s.f.connectedQMgr)
    && (forall id :: id in s.scrapes && AtWork(s.scrapes[id]) ==> s.f.connectedQMgr)
    && (forall id :: id in s.scrapes && s.scrapes[id] == Reporting ==> !s.f.connectedQMgr)
    && (s.f.collectorSilent <==> s.main == Unregistering || s.main == Unsilencing)
  }

  ghost predicate StartInv(s: State) {
    && (s.server == AwaitingStart ==> !s.f.connectedOnce && s.main != SettingOnce && s.scrapes == map[])
    && (s.server != AwaitingStart ==> s.f.connectedOnce || s.main == SettingOnce)
    && (s.main == SettingOnce ==> !s.f.connectedOnce)
  }

  /** The remembered hostname answer is the one the current vectors were declared with. */
  ghost predicate VectorInv(s: State) {
    && (s.server != AwaitingStart || s.main == Sending ==> s.vectorHost.Some?)
    && (PastAllocation(s.main) ==> s.vectorHost.Some?)
    && (s.vectorHost.Some? && s.main != Allocating ==> s.hostVal == s.vectorHost)
  }

  predicate PastAllocation(pc: MainPc) {
    pc.Silencing? || pc.Unregistering? || pc.Unsilencing? || pc.Creating? || pc.SettingFirst?
    || pc.Registering? || pc.SettingConnected? || pc.Sending? || pc.SettingOnce?
  }

  ghost predicate FirstInv(s: State) {
    && (s.main == Registering || s.main == SettingConnected ==> s.f.firstCollection)
    && (forall id :: id in s.scrapes && s.scrapes[id].Succeeded? && s.f.firstCollection ==> s.scrapes[id].polled)
  }

  ghost predicate Inv(s: State) {
    LockInv(s) && FlagInv(s) && StartInv(s) && VectorInv(s) && FirstInv(s)
  }

  lemma ConnectKeepsLock(s: State, a: Action, keepRunning: bool, s': State)
    requires Inv(s) && ConnectStep(s, a, keepRunning) == Some(s')
    ensures LockInv(s')
  {
  }

  lemma ConnectKeepsFlags(s: State, a: Action, keepRunning: bool, s': State)
    requires Inv(s) && ConnectStep(s, a, keepRunning) == Some(s')
    ensures FlagInv(s')
  {
  }

  lemma ConnectKeepsTheRest(s: State, a: Action, keepRunning: bool, s': State)
    requires Inv(s) && ConnectStep(s, a, keepRunning) == Some(s')
    ensures StartInv(s') && VectorInv(s') && FirstInv(s')
  {
  }

  lemma PublishKeepsLock(s: State, a: Action, s': State)
    requires Inv(s) && PublishStep(s, a) == Some(s')
    ensures LockInv(s')
  {
  }

  lemma PublishKeepsFlags(s: State, a: Action, s': State)
    requires Inv(s) && PublishStep(s, a) == Some(s')
    ensures FlagInv(s')
  {
  }

  lemma PublishKeepsTheRest(s: State, a: Action, s': State)
    requires Inv(s) && PublishStep(s, a) == Some(s')
    ensures StartInv(s') && VectorInv(s') && FirstInv(s')
  {
  }

  lemma ScrapeKeepsLock(s: State, id: nat, a: Action)
    requires Inv(s) && id in s.scrapes && ScrapeStep(s, id, a).Some?
    ensures LockInv(ScrapeStep(s, id, a).value)
  {
  }

  lemma ScrapeKeepsFlags(s: State, id: nat, a: Action)
    requires Inv(s) && id in s.scrapes && ScrapeStep(s, id, a).Some?
    ensures FlagInv(ScrapeStep(s, id, a).value)
  {
  }

  lemma ScrapeKeepsTheRest(s: State, id: nat, a: Action)
    requires Inv(s) && id in s.scrapes && ScrapeStep(s, id, a).Some?
    ensures var s' := ScrapeStep(s, id, a).value; StartInv(s') && VectorInv(s') && FirstInv(s')
  {
  }

  lemma StepKeepsInv(s: State, a: Action, keepRunning: bool)
    requires Inv(s) && Apply(s, a, keepRunning).Some? && !Apply(s, a, keepRunning).value.exited
    ensures Inv(Apply(s, a, keepRunning).value)
  {
    if ScrapeId(a).Some? {
      ScrapeKeepsLock(s, ScrapeId(a).value, a);
      ScrapeKeepsFlags(s, ScrapeId(a).value, a);
      ScrapeKeepsTheRest(s, ScrapeId(a).value, a);
    } else if !a.Arrive? {
      var s' := Apply(s, a, keepRunning).value;
      if Publishing(a) {
        PublishKeepsLock(s, a, s');
        PublishKeepsFlags(s, a, s');
        PublishKeepsTheRest(s, a, s');
      } else {
        ConnectKeepsLock(s, a, keepRunning, s');
        ConnectKeepsFlags(s, a, keepRunning, s');
        ConnectKeepsTheRest(s, a, keepRunning, s');
      }
    }
  }

  /** Every state of every run keeps the invariants, until the process exits. */
  lemma {:induction false} RunKeepsInv(run: seq<Action>, keepRunning: bool)
    requires Exec(run, keepRunning).Some? && !Exec(run, keepRunning).value.exited
    ensures Inv(Exec(run, keepRunning).value)
  {
    if run != [] {
      RunKeepsInv(run[..|run| - 1], keepRunning);
      StepKeepsInv(Exec(run[..|run| - 1], keepRunning).value, run[|run| - 1], keepRunning);
    }
  }

  // --- what this means for whole runs

  /** The run is possible and the process is still alive at its end. */
  ghost predicate Alive(run: seq<Action>, keepRunning: bool) {
    Exec(run, keepRunning).Some? && !Exec(run, keepRunning).value.exited
  }

  lemma AliveBefore(run: seq<Action>, keepRunning: bool)
    requires run != [] && Exec(run, keepRunning).Some?
    ensures var before := run[..|run| - 1];
      Alive(before, keepRunning) && Apply(Exec(before, keepRunning).value, run[|run| - 1], keepRunning) == Exec(run, keepRunning)
  {
  }

  /** The part of a step's effect that the run properties below speak of. */
  ghost predicate Moves(s: State, a: Action, s': State) {
    FlagMoves(s, a, s') && PlaceMoves(s, a, s')
  }

  ghost predicate FlagMoves(s: State, a: Action, s': State) {
    && (s'.f.connectedQMgr <==> a.SetConnected? || (s.f.connectedQMgr && !a.Disconnect?))
    && (s'.f.firstCollection <==> a.SetFirst? || (s.f.firstCollection && !a.Finish?))
    && (s'.f.collectorEnd <==> a.GiveUp? || a.SetEnd? || s.f.collectorEnd)
    && (s'.f.connectedOnce <==> a.SetOnce? || s.f.connectedOnce)
    && (s'.collectorExists <==> a.Create? || s.collectorExists)
    && s'.server == (if a.Send? then Serving else s.server)
    && (s'.registered <==> a.Register? || (s.registered && !a.Unregister?))
  }

  ghost predicate PlaceMoves(s: State, a: Action, s': State) {
    && (s'.scrapes != map[] ==> s.server == Serving || s.scrapes != map[])
    && (s'.main == SettingConnected ==> a.Register? || s.main == SettingConnected)
    && (s'.main == Sending || s'.main == SettingOnce ==>
          s.main == SettingConnected || s.main == Sending || s.main == SettingOnce)
    && (a.Send? ==> s.server == AwaitingStart && s.main == Sending)
    && (a.SetConnected? ==> s.lock == ByMain && s.f.firstCollection)
    && (a.Disconnect? ==> s.lock == ByScrape(a.id))
    && (a.SetFirst? ==> !s.f.connectedQMgr && s.lock == ByMain)
    && (a.Finish? ==> s.lock == ByScrape(a.id))
  }

  lemma ConnectMoves(s: State, a: Action, keepRunning: bool, s': State)
    requires Inv(s) && !Publishing(a) && ConnectStep(s, a, keepRunning) == Some(s')
    ensures Moves(s, a, s')
  {
    ConnectMovesFlags(s, a, keepRunning, s');
    ConnectMovesPlaces(s, a, keepRunning, s');
  }

  lemma ConnectMovesFlags(s: State, a: Action, keepRunning: bool, s': State)
    requires !Publishing(a) && ConnectStep(s, a, keepRunning) == Some(s')
    ensures FlagMoves(s, a, s')
  {
  }

  lemma ConnectMovesPlaces(s: State, a: Action, keepRunning: bool, s': State)
    requires !Publishing(a) && ConnectStep(s, a, keepRunning) == Some(s')
    ensures PlaceMoves(s, a, s')
  {
  }

  lemma PublishMoves(s: State, a: Action, s': State)
    requires Inv(s) && PublishStep(s, a) == Some(s')
    ensures Moves(s, a, s')
  {
    PublishMovesFlags(s, a, s');
    PublishMovesPlaces(s, a, s');
  }

  lemma PublishMovesFlags(s: State, a: Action, s': State)
    requires PublishStep(s, a) == Some(s')
    ensures FlagMoves(s, a, s')
  {
    if Renewing(a) {
      RenewMovesFlags(s, a, s');
    }
  }

  lemma RenewMovesFlags(s: State, a: Action, s': State)
    requires Renewing(a) && PublishStep(s, a) == Some(s')
    ensures FlagMoves(s, a, s')
  {
  }

  lemma PublishMovesPlaces(s: State, a: Action, s': State)
    requires LockInv(s) && FlagInv(s) && FirstInv(s) && PublishStep(s, a) == Some(s')
    ensures PlaceMoves(s, a, s')
  {
  }

  lemma ScrapeMoves(s: State, id: nat, a: Action, s': State)
    requires Inv(s) && id in s.scrapes && ScrapeId(a) == Some(id) && ScrapeStep(s, id, a) == Some(s')
    ensures Moves(s, a, s')
  {
    ScrapeMovesFlags(s, id, a, s');
    ScrapeMovesPlaces(s, id, a, s');
  }

  lemma ScrapeMovesFlags(s: State, id: nat, a: Action, s': State)
    requires FlagInv(s) && id in s.scrapes && ScrapeId(a) == Some(id) && ScrapeStep(s, id, a) == Some(s')
    ensures FlagMoves(s, a, s')
  {
  }

  lemma ScrapeMovesPlaces(s: State, id: nat, a: Action, s': State)
    requires LockInv(s) && id in s.scrapes && ScrapeId(a) == Some(id) && ScrapeStep(s, id, a) == Some(s')
    ensures PlaceMoves(s, a, s')
  {
  }

  lemma OthersMove(s: State, a: Action, keepRunning: bool, s': State)
    requires Inv(s) && (Exits(a) || a.Arrive?) && Apply(s, a, keepRunning) == Some(s')
    ensures Moves(s, a, s')
  {
  }

  lemma StepMoves(s: State, a: Action, keepRunning: bool, s': State)
    requires Inv(s) && Apply(s, a, keepRunning) == Some(s')
    ensures Moves(s, a, s')
  {
    if ScrapeId(a).Some? {
      ScrapeMoves(s, ScrapeId(a).value, a, s');
    } else if Exits(a) || a.Arrive? {
      OthersMove(s, a, keepRunning, s');
    } else if Publishing(a) {
      PublishMoves(s, a, s');
    } else {
      ConnectMoves(s, a, keepRunning, s');
    }
  }

  /** The last action of a run leads from the state before it to the state after it. */
  lemma LastMove(run: seq<Action>, keepRunning: bool) returns (s: State, s': State)
    requires run != [] && Exec(run, keepRunning).Some?
    ensures Exec(run[..|run| - 1], keepRunning) == Some(s) && Exec(run, keepRunning) == Some(s')
    ensures !s.exited && Inv(s) && Moves(s, run[|run| - 1], s')
  {
    AliveBefore(run, keepRunning);
    RunKeepsInv(run[..|run| - 1], keepRunning);
    s, s' := Exec(run[..|run| - 1], keepRunning).value, Exec(run, keepRunning).value;
    StepMoves(s, run[|run| - 1], keepRunning, s');
  }

  /** The connected flag is raised only by the reconnect loop and lowered only by a scrape, each
      holding the mutex. */
  lemma WhoMovesTheConnectedFlag(run: seq<Action>, keepRunning: bool)
    requires run != [] && Exec(run, keepRunning).Some?
    ensures Exec(run[..|run| - 1], keepRunning).Some?
    ensures var s, s' := Exec(run[..|run| - 1], keepRunning).value, Exec(run, keepRunning).value;
      var a := run[|run| - 1];
      && (!s.f.connectedQMgr && s'.f.connectedQMgr ==> a == SetConnected && s.lock == ByMain)
      && (s.f.connectedQMgr && !s'.f.connectedQMgr ==> a.Disconnect? && s.lock == ByScrape(a.id))
  {
    var s, s' := LastMove(run, keepRunning);
  }

  /** From the unlocked test until it raises the flag itself, the reconnect loop sees it down; so
      the connection it tears down is never a live one. */
  lemma LiveConnectionKept(run: seq<Action>, keepRunning: bool)
    requires Alive(run, keepRunning)
    ensures var s := Exec(run, keepRunning).value;
      && (Reconnecting(s.main) ==> !s.f.connectedQMgr)
      && (Apply(s, EndConnection, keepRunning).Some? ==> s.lock == ByMain && !s.f.connectedQMgr)
  {
    RunKeepsInv(run, keepRunning);
  }

  /** At most one thread is ever inside the mutex. */
  lemma MutualExclusion(run: seq<Action>, keepRunning: bool)
    requires Alive(run, keepRunning)
    ensures var s := Exec(run, keepRunning).value;
      && (forall i, j :: i in s.scrapes && j in s.scrapes && InBody(s.scrapes[i]) && InBody(s.scrapes[j]) ==> i == j)
      && (MainLocked(s.main) ==> forall i :: i in s.scrapes ==> !InBody(s.scrapes[i]))
  {
    RunKeepsInv(run, keepRunning);
  }

  function CountSends(run: seq<Action>): nat {
    if run == [] then 0 else CountSends(run[..|run| - 1]) + if run[|run| - 1].Send? then 1 else 0
  }

  /** The start token is sent at most once: exactly once by the time the server runs. */
  lemma {:induction false} StartTokenOnce(run: seq<Action>, keepRunning: bool)
    requires Exec(run, keepRunning).Some?
    ensures CountSends(run) == if Exec(run, keepRunning).value.server == AwaitingStart then 0 else 1
  {
    if run != [] {
      var s, s' := LastMove(run, keepRunning);
      StartTokenOnce(run[..|run| - 1], keepRunning);
    }
  }

  /** The send happens with the mutex held, on an unbuffered channel; the server is there to take
      it whenever the loop is about to send for the first time. */
  lemma SendNeverBlocks(run: seq<Action>, keepRunning: bool)
    requires Alive(run, keepRunning) && Exec(run, keepRunning).value.main == Sending
    ensures var s := Exec(run, keepRunning).value;
      Apply(s, if s.f.connectedOnce then SkipSend else Send, keepRunning).Some?
  {
    RunKeepsInv(run, keepRunning);
    SendReady(Exec(run, keepRunning).value, keepRunning);
  }

  lemma SendReady(s: State, keepRunning: bool)
    requires s.main == Sending && !s.exited && LockInv(s) && StartInv(s)
    ensures Apply(s, if s.f.connectedOnce then SkipSend else Send, keepRunning).Some?
  {
  }

  /** What the mutex's holder can do next. */
  function HolderMove(s: State, keepRunning: bool): Action {
    match s.lock
    case ByScrape(id) =>
      if id !in s.scrapes then Wake
      else
        (match s.scrapes[id]
         case Queued => LockScrape(id)
         case Entered => TestScrape(id)
         case Reporting => Report(id)
         case Working => Process(id, Good, false)
         case Failed(kind) =>
           if kind == NoReasonCode then StayConnected(id) else if kind == QuitCode then SetEnd(id) else Disconnect(id)
         case Dropping => Disconnect(id)
         case Succeeded(_) => Finish(id, s.f.firstCollection)
         case Leaving => UnlockScrape(id))
    case _ => MainMove(s, keepRunning)
  }

  function MainMove(s: State, keepRunning: bool): Action {
    match s.main
    case TestingEnd => if s.f.collectorEnd then ExitLoop else TestEnd
    case TestingConnected => if s.f.connectedQMgr then SeeConnected else SeeDisconnected
    case Sleeping => Wake
    case Locking => LockMain
    case Ending => EndConnection
    case Initialising => InitRefused
    case Discovering => Discovered
    case ResettingHost => ResetHost
    case Allocating => Allocate
    case Silencing => if s.collectorExists then Silence else FirstTime
    case Unregistering => Unregister
    case Unsilencing => Unsilence
    case Creating => Create
    case SettingFirst => SetFirst
    case Registering => if RegistryAccepts(s) then Register else RegisterPanics
    case SettingConnected => SetConnected
    case Sending => if s.f.connectedOnce then SkipSend else Send
    case SettingOnce => SetOnce
    case Failing => if s.f.connectedOnce && keepRunning then Retry else GiveUp
    case Unlocking => UnlockMain
  }

  /** No run ever gets stuck: whoever holds the mutex can move on, and if nobody does, the
      reconnect loop can. */
  lemma NoDeadlock(run: seq<Action>, keepRunning: bool)
    requires Alive(run, keepRunning)
    ensures var s := Exec(run, keepRunning).value; Apply(s, HolderMove(s, keepRunning), keepRunning).Some?
  {
    RunKeepsInv(run, keepRunning);
    var s := Exec(run, keepRunning).value;
    if s.lock.ByScrape? {
      ScrapeCanMove(s, keepRunning);
    } else {
      MainCanMove(s, keepRunning);
    }
  }

  lemma ScrapeCanMove(s: State, keepRunning: bool)
    requires Inv(s) && !s.exited && s.lock.ByScrape?
    ensures Apply(s, HolderMove(s, keepRunning), keepRunning).Some?
  {
    assert InBody(s.scrapes[s.lock.id]);
  }

  lemma MainCanMove(s: State, keepRunning: bool)
    requires Inv(s) && !s.exited && !s.lock.ByScrape?
    ensures Apply(s, MainMove(s, keepRunning), keepRunning).Some?
  {
    if OnItsWay(s.main) && PastAllocation(s.main) {
      PublishCanMove(s, keepRunning);
    }
  }

  lemma PublishCanMove(s: State, keepRunning: bool)
    requires StartInv(s) && !s.exited && PastAllocation(s.main)
    ensures Apply(s, MainMove(s, keepRunning), keepRunning).Some?
  {
  }

  predicate Registered(run: seq<Action>) {
    run != [] && (run[|run| - 1] == Register || Registered(run[..|run| - 1]))
  }

  lemma {:induction false} RegisteredEarlier(run: seq<Action>)
    ensures Registered(run) ==> Register in run
  {
    if run != [] {
      RegisteredEarlier(run[..|run| - 1]);
    }
  }

  lemma {:induction false} RegisteredByNow(run: seq<Action>, keepRunning: bool)
    requires Exec(run, keepRunning).Some?
    ensures var s := Exec(run, keepRunning).value;
      || s.main == SettingConnected || s.main == Sending || s.main == SettingOnce
      || s.registered || s.server == Serving || s.scrapes != map[]
      ==> Registered(run)
  {
    if run != [] {
      var s, s' := LastMove(run, keepRunning);
      RegisteredByNow(run[..|run| - 1], keepRunning);
    }
  }

  /** No Collect body, not even a waiting one, before the first registration. */
  lemma CollectOnlyAfterRegister(run: seq<Action>, keepRunning: bool)
    requires Exec(run, keepRunning).Some? && Exec(run, keepRunning).value.scrapes != map[]
    ensures Register in run
  {
    RegisteredByNow(run, keepRunning);
    RegisteredEarlier(run);
  }

  /** Collections that completed without error since the connection last came up. */
  function CompletedSince(run: seq<Action>): nat {
    if run == [] then 0
    else
      match run[|run| - 1]
      case SetConnected => 0
      case Finish(_, _) => CompletedSince(run[..|run| - 1]) + 1
      case _ => CompletedSince(run[..|run| - 1])
  }

  lemma {:induction false} FirstFlagMeaning(run: seq<Action>, keepRunning: bool)
    requires Exec(run, keepRunning).Some?
    ensures var s := Exec(run, keepRunning).value;
      s.f.connectedQMgr ==> (s.f.firstCollection <==> CompletedSince(run) == 0)
  {
    if run != [] {
      var s, s' := LastMove(run, keepRunning);
      FirstFlagMeaning(run[..|run| - 1], keepRunning);
    }
  }

  /** In each connection generation, exactly the first collection to complete without error
      suppresses the published metrics, and that collection polled for status. Failed attempts
      do not count, since they leave the flag as it is. */
  lemma FirstCompletedSuppresses(run: seq<Action>, id: nat, suppressed: bool, keepRunning: bool)
    requires Exec(run + [Finish(id, suppressed)], keepRunning).Some?
    ensures suppressed <==> CompletedSince(run) == 0
    ensures var s := Exec(run, keepRunning);
      s.Some? && id in s.value.scrapes && s.value.scrapes[id].Succeeded? && (suppressed ==> s.value.scrapes[id].polled)
  {
    var longer := run + [Finish(id, suppressed)];
    assert longer[..|run|] == run && longer[|run|] == Finish(id, suppressed);
    AliveBefore(longer, keepRunning);
    RunKeepsInv(run, keepRunning);
    FirstFlagMeaning(run, keepRunning);
    FinishTells(Exec(run, keepRunning).value, id, suppressed, keepRunning);
  }

  lemma FinishTells(s: State, id: nat, suppressed: bool, keepRunning: bool)
    requires FlagInv(s) && FirstInv(s) && Apply(s, Finish(id, suppressed), keepRunning).Some?
    ensures id in s.scrapes && s.scrapes[id].Succeeded? && (suppressed ==> s.scrapes[id].polled)
    ensures (suppressed <==> s.f.firstCollection) && s.f.connectedQMgr
  {
  }

  /** Whenever a scrape adds a sample, connected or not, the remembered hostname answer is the one
      the current vectors were declared with. */
  lemma HostAnswerMatchesVectors(run: seq<Action>, id: nat, keepRunning: bool)
    requires Alive(run, keepRunning)
    requires id in Exec(run, keepRunning).value.scrapes
    requires Exec(run, keepRunning).value.scrapes[id].Succeeded? || Exec(run, keepRunning).value.scrapes[id].Reporting?
    ensures var s := Exec(run, keepRunning).value; s.hostVal.Some? && s.hostVal == s.vectorHost
  {
    RunKeepsInv(run, keepRunning);
  }

  ghost predicate HostInv(s: State) {
    s.f.connectedQMgr || s.main == SettingConnected ==> s.vectorHost.Some? && s.registryHost == s.vectorHost
  }

  ghost predicate HostStays(s: State, s': State) {
    HostInv(s') && (s.registryHost.Some? ==> s'.registryHost == s.registryHost)
  }

  lemma ConnectKeepsHost(s: State, a: Action, keepRunning: bool, s': State)
    requires HostInv(s) && !Publishing(a) && ConnectStep(s, a, keepRunning) == Some(s')
    ensures HostStays(s, s')
  {
  }

  lemma PublishKeepsHost(s: State, a: Action, s': State)
    requires FlagInv(s) && VectorInv(s) && HostInv(s) && PublishStep(s, a) == Some(s')
    ensures HostStays(s, s')
  {
  }

  lemma ScrapeKeepsHost(s: State, id: nat, a: Action, s': State)
    requires FlagInv(s) && HostInv(s) && id in s.scrapes && ScrapeStep(s, id, a) == Some(s')
    ensures HostStays(s, s')
  {
  }

  lemma StepKeepsHost(s: State, a: Action, keepRunning: bool, s': State)
    requires FlagInv(s) && VectorInv(s) && HostInv(s) && Apply(s, a, keepRunning) == Some(s')
    ensures HostStays(s, s')
  {
    if ScrapeId(a).Some? {
      ScrapeKeepsHost(s, ScrapeId(a).value, a, s');
    } else if !Exits(a) && !a.Arrive? {
      if Publishing(a) {
        PublishKeepsHost(s, a, s');
      } else {
        ConnectKeepsHost(s, a, keepRunning, s');
      }
    }
  }

  /** In one process every connection has the hostname support of the first: a reconnect to a queue
      manager with another never gets as far as raising the flag, since registering panics. */
  lemma {:induction false} OneHostPerProcess(run: seq<Action>, keepRunning: bool)
    requires Alive(run, keepRunning)
    ensures HostInv(Exec(run, keepRunning).value)
    ensures run != [] && Exec(run[..|run| - 1], keepRunning).value.registryHost.Some? ==>
      Exec(run, keepRunning).value.registryHost == Exec(run[..|run| - 1], keepRunning).value.registryHost
  {
    if run != [] {
      var before := run[..|run| - 1];
      AliveBefore(run, keepRunning);
      OneHostPerProcess(before, keepRunning);
      RunKeepsInv(before, keepRunning);
      StepKeepsHost(Exec(before, keepRunning).value, run[|run| - 1], keepRunning, Exec(run, keepRunning).value);
    }
  }

  /** Registering panics exactly when the vectors' hostname support is not the first one's. */
  lemma RegisterPanicsIff(run: seq<Action>, keepRunning: bool)
    requires Alive(run, keepRunning) && Exec(run, keepRunning).value.main == Registering
    ensures var s := Exec(run, keepRunning).value;
      && (Apply(s, RegisterPanics, keepRunning).Some? <==> s.registryHost.Some? && s.registryHost != s.vectorHost)
      && (Apply(s, Register, keepRunning).Some? <==> !Apply(s, RegisterPanics, keepRunning).Some?)
  {
  }

  // --- the end of the loop, told from the run alone

  /** Some action of the run asked for the end: the loop gave up, or a scrape met the reason code
      that quits. */
  ghost predicate EndAsked(run: seq<Action>) {
    exists k :: 0 <= k < |run| && (run[k].GiveUp? || run[k].SetEnd?)
  }

  lemma EndAskedLast(run: seq<Action>)
    requires run != []
    ensures EndAsked(run) <==>
      EndAsked(run[..|run| - 1]) || run[|run| - 1].GiveUp? || run[|run| - 1].SetEnd?
  {
    var n := |run| - 1;
    if EndAsked(run[..n]) {
      var k :| 0 <= k < n && (run[..n][k].GiveUp? || run[..n][k].SetEnd?);
      assert run[k].GiveUp? || run[k].SetEnd?;
    }
    if EndAsked(run) {
      var k :| 0 <= k <= n && (run[k].GiveUp? || run[k].SetEnd?);
      if k < n {
        assert run[..n][k] == run[k];
      }
    }
  }

  lemma InLast(run: seq<Action>, a: Action)
    requires run != []
    ensures a in run <==> a in run[..|run| - 1] || a == run[|run| - 1]
  {
    assert run == run[..|run| - 1] + [run[|run| - 1]];
  }

  /** Whether the loop raised the connected flag after a scrape last lowered it. */
  predicate Connected(run: seq<Action>) {
    run != [] && (run[|run| - 1].SetConnected? || (!run[|run| - 1].Disconnect? && Connected(run[..|run| - 1])))
  }

  /** The flags and the server's state say what the run has held so far: the end flag that the loop
      gave up or a scrape quit, the connected flag who of loop and scrapes moved it last, the others
      that the first connection was announced, that there is a collector, and that the start token
      was sent. */
  lemma {:induction false} FlagsTellTheRun(run: seq<Action>, keepRunning: bool)
    requires Exec(run, keepRunning).Some?
    ensures var s := Exec(run, keepRunning).value;
      && (s.f.collectorEnd <==> EndAsked(run))
      && (s.f.connectedQMgr <==> Connected(run))
      && (s.f.connectedOnce <==> SetOnce in run)
      && (s.collectorExists <==> Create in run)
      && (s.server == Serving <==> Send in run)
  {
    if run != [] {
      var s, s' := LastMove(run, keepRunning);
      FlagsTellTheRun(run[..|run| - 1], keepRunning);
      EndAskedLast(run);
      InLast(run, SetOnce);
      InLast(run, Create);
      InLast(run, Send);
    }
  }

  /** At its test the loop goes on exactly if nothing asked for the end, and otherwise the process
      can end there. It goes for the mutex exactly if there is no connection, and otherwise sleeps.
      After a failed attempt it gives up exactly if no connection was ever announced or it is not to
      keep running, and otherwise tries again. */
  lemma WhatTheLoopDecides(run: seq<Action>, keepRunning: bool)
    requires Alive(run, keepRunning)
    ensures var s := Exec(run, keepRunning).value;
      && (s.main == TestingEnd ==>
            && (Apply(s, ExitLoop, keepRunning).Some? <==> EndAsked(run))
            && (Apply(s, TestEnd, keepRunning).Some? <==> !EndAsked(run)))
      && (s.main == TestingConnected ==>
            && (Apply(s, SeeConnected, keepRunning).Some? <==> Connected(run))
            && (Apply(s, SeeDisconnected, keepRunning).Some? <==> !Connected(run)))
      && (s.main == Failing ==>
            && (Apply(s, GiveUp, keepRunning).Some? <==> SetOnce !in run || !keepRunning)
            && (Apply(s, Retry, keepRunning).Some? <==> SetOnce in run && keepRunning))
      && (s.main == Silencing ==>
            && (Apply(s, FirstTime, keepRunning).Some? <==> Create !in run)
            && (Apply(s, Silence, keepRunning).Some? <==> Create in run))
      && (s.main == Sending ==>
            && (Apply(s, Send, keepRunning).Some? <==> Send !in run)
            && (Apply(s, SkipSend, keepRunning).Some? <==> Send in run))
  {
    var s := Exec(run, keepRunning).value;
    FlagsTellTheRun(run, keepRunning);
    RunKeepsInv(run, keepRunning);
    if s.main == TestingEnd {
      TestDecides(s, keepRunning);
    } else if s.main == TestingConnected {
      ConnectionDecides(s, keepRunning);
    } else if s.main == Failing {
      FailureDecides(s, keepRunning);
    } else if s.main == Silencing {
      SilencingDecides(s, keepRunning);
    } else if s.main == Sending {
      SendingDecides(s, keepRunning);
    }
  }

  lemma TestDecides(s: State, keepRunning: bool)
    requires !s.exited && s.main == TestingEnd
    ensures Apply(s, ExitLoop, keepRunning).Some? <==> s.f.collectorEnd
    ensures Apply(s, TestEnd, keepRunning).Some? <==> !s.f.collectorEnd
  {
  }

  lemma ConnectionDecides(s: State, keepRunning: bool)
    requires !s.exited && s.main == TestingConnected
    ensures Apply(s, SeeConnected, keepRunning).Some? <==> s.f.connectedQMgr
    ensures Apply(s, SeeDisconnected, keepRunning).Some? <==> !s.f.connectedQMgr
  {
  }

  lemma FailureDecides(s: State, keepRunning: bool)
    requires !s.exited && s.main == Failing
    ensures Apply(s, GiveUp, keepRunning).Some? <==> !s.f.connectedOnce || !keepRunning
    ensures Apply(s, Retry, keepRunning).Some? <==> s.f.connectedOnce && keepRunning
  {
  }

  lemma SilencingDecides(s: State, keepRunning: bool)
    requires !s.exited && s.main == Silencing
    ensures Apply(s, FirstTime, keepRunning).Some? <==> !s.collectorExists
    ensures Apply(s, Silence, keepRunning).Some? <==> s.collectorExists
  {
  }

  lemma SendingDecides(s: State, keepRunning: bool)
    requires !s.exited && s.main == Sending && StartInv(s)
    ensures Apply(s, Send, keepRunning).Some? <==> s.server == AwaitingStart
    ensures Apply(s, SkipSend, keepRunning).Some? <==> s.server == Serving
  {
  }

  /** Once something has asked for the end, the loop never goes round again. */
  lemma {:induction false} NoRoundAfterTheEnd(run: seq<Action>, keepRunning: bool)
    requires Exec(run, keepRunning).Some?
    ensures forall j :: 0 <= j < |run| && run[j] == TestEnd ==> !EndAsked(run[..j])
  {
    if run != [] {
      var n := |run| - 1;
      AliveBefore(run, keepRunning);
      NoRoundAfterTheEnd(run[..n], keepRunning);
      forall j | 0 <= j < |run| && run[j] == TestEnd ensures !EndAsked(run[..j]) {
        if j < n {
          assert run[..n][j] == TestEnd && run[..n][..j] == run[..j];
        } else {
          FlagsTellTheRun(run[..n], keepRunning);
        }
      }
    }
  }

  /** The run holds a failed attempt to connect before any connection was announced. */
  ghost predicate FailedFirst(run: seq<Action>) {
    exists k :: 0 <= k < |run| && (run[k].InitRefused? || run[k].DiscoveryFailed?) && SetOnce !in run[..k]
  }

  lemma FailedFirstLast(run: seq<Action>)
    requires run != [] && FailedFirst(run)
    ensures FailedFirst(run[..|run| - 1]) ||
      ((run[|run| - 1].InitRefused? || run[|run| - 1].DiscoveryFailed?) && SetOnce !in run[..|run| - 1])
  {
    var n := |run| - 1;
    var k :| 0 <= k <= n && (run[k].InitRefused? || run[k].DiscoveryFailed?) && SetOnce !in run[..k];
    if k < n {
      assert run[..n][k] == run[k] && run[..n][..k] == run[..k];
    }
  }

  /** A first connection that fails always ends the loop, whether it is to keep running or not: it
      gives up at once, announces nothing, and never tests again for a connection. */
  lemma {:induction false} FirstFailureEnds(run: seq<Action>, keepRunning: bool)
    requires Exec(run, keepRunning).Some? && FailedFirst(run)
    ensures var s := Exec(run, keepRunning).value;
      && SetOnce !in run
      && (s.main == Failing || s.main == Unlocking || s.main == TestingEnd)
      && (s.main != Failing ==> EndAsked(run))
  {
    var n := |run| - 1;
    FailedFirstLast(run);
    AliveBefore(run, keepRunning);
    var s, s' := Exec(run[..n], keepRunning).value, Exec(run, keepRunning).value;
    FlagsTellTheRun(run[..n], keepRunning);
    FlagsTellTheRun(run, keepRunning);
    InLast(run, SetOnce);
    if FailedFirst(run[..n]) {
      FirstFailureEnds(run[..n], keepRunning);
      FailureLeads(s, run[n], keepRunning, s');
    } else {
      FailureIs(s, run[n], keepRunning, s');
    }
  }

  lemma FailureIs(s: State, a: Action, keepRunning: bool, s': State)
    requires Apply(s, a, keepRunning) == Some(s') && (a.InitRefused? || a.DiscoveryFailed?)
    ensures s'.main == Failing
  {
  }

  lemma FailureLeads(s: State, a: Action, keepRunning: bool, s': State)
    requires Apply(s, a, keepRunning) == Some(s') && !s.f.connectedOnce
    requires s.main == Failing || ((s.main == Unlocking || s.main == TestingEnd) && s.f.collectorEnd)
    ensures s'.main == Failing || s'.main == Unlocking || s'.main == TestingEnd
    ensures s'.main != Failing ==> s'.f.collectorEnd
    ensures a != SetOnce
  {
    if ScrapeId(a).Some? {
      ScrapeFailureLeads(s, ScrapeId(a).value, a, s');
    } else if OfLoop(a) {
      PlaceKnown(s, a, keepRunning, s');
      MainFailureLeads(s, a, keepRunning, s');
    }
  }

  lemma PlaceKnown(s: State, a: Action, keepRunning: bool, s': State)
    requires MainStep(s, a, keepRunning) == Some(s')
    ensures MainPlace(a) == s.main
  {
  }

  lemma ScrapeFailureLeads(s: State, id: nat, a: Action, s': State)
    requires id in s.scrapes && ScrapeId(a) == Some(id) && ScrapeStep(s, id, a) == Some(s')
    ensures s'.main == s.main && (s.f.collectorEnd ==> s'.f.collectorEnd)
  {
  }

  lemma MainFailureLeads(s: State, a: Action, keepRunning: bool, s': State)
    requires MainStep(s, a, keepRunning) == Some(s') && MainPlace(a) == s.main && !s.f.connectedOnce
    requires s.main == Failing || ((s.main == Unlocking || s.main == TestingEnd) && s.f.collectorEnd)
    ensures s'.main == Unlocking || s'.main == TestingEnd
    ensures s'.f.collectorEnd && a != SetOnce
  {
  }

  // --- what the loop and a scrape do under the mutex

  predicate OfLoop(a: Action) {
    ScrapeId(a).None? && !Exits(a) && !a.Arrive?
  }

  /** What the reconnect loop has done since it last took the mutex. */
  function Section(run: seq<Action>): seq<Action> {
    if run == [] then []
    else
      var a := run[|run| - 1];
      if a.LockMain? then [a]
      else Section(run[..|run| - 1]) + if OfLoop(a) then [a] else []
  }

  /** The reconnect loop's way from taking the mutex to a usable connection. */
  function UpToDiscovery(host: bool): seq<Action> {
    [LockMain, EndConnection, InitAccepted(host), Discovered]
  }

  /** On to a registered collector, in place of an old one if there is one. */
  function UpToNew(host: bool, again: bool): seq<Action> {
    UpToDiscovery(host) + [ResetHost, Allocate] + if again then [Silence, Unregister, Unsilence] else [FirstTime]
  }

  /** The way so far, up to where the loop is about to fail or to give back the mutex. */
  function Way(pc: MainPc, host: bool, again: bool): seq<Action> {
    match pc
    case Ending => [LockMain]
    case Initialising => [LockMain, EndConnection]
    case Discovering => [LockMain, EndConnection, InitAccepted(host)]
    case ResettingHost => UpToDiscovery(host)
    case Allocating => UpToDiscovery(host) + [ResetHost]
    case Silencing => UpToDiscovery(host) + [ResetHost, Allocate]
    case Unregistering => UpToDiscovery(host) + [ResetHost, Allocate, Silence]
    case Unsilencing => UpToDiscovery(host) + [ResetHost, Allocate, Silence, Unregister]
    case Creating => UpToNew(host, again)
    case SettingFirst => UpToNew(host, again) + [Create]
    case Registering => UpToNew(host, again) + [Create, SetFirst]
    case SettingConnected => UpToNew(host, again) + [Create, SetFirst, Register]
    case Sending => UpToNew(host, again) + [Create, SetFirst, Register, SetConnected]
    case SettingOnce => UpToNew(host, again) + [Create, SetFirst, Register, SetConnected, Send]
    case _ => []
  }

  /** The two ways to fail. */
  predicate Fails(w: seq<Action>, host: bool) {
    w == [LockMain, EndConnection, InitRefused] || w == [LockMain, EndConnection, InitAccepted(host), DiscoveryFailed]
  }

  /** The ways to have failed for good or for now, and to have succeeded. */
  predicate Ends(w: seq<Action>, host: bool) {
    || (|w| > 0 && Fails(w[..|w| - 1], host) && (w[|w| - 1].GiveUp? || w[|w| - 1].Retry?))
    || Succeeds(w, host, false) || Succeeds(w, host, true)
  }

  predicate Succeeds(w: seq<Action>, host: bool, again: bool) {
    var up := UpToNew(host, again) + [Create, SetFirst, Register, SetConnected];
    w == up + [Send, SetOnce] || w == up + [SkipSend]
  }

  predicate OnItsWay(pc: MainPc) {
    MainLocked(pc) && !pc.Failing? && !pc.Unlocking?
  }

  /** What there is after a success: the connection is up, its first collection is still to come, and
      a collector with vectors made for this queue manager is registered and is to be heard. */
  predicate Achieved(s: State, host: bool) {
    && s.f.connectedQMgr && s.f.firstCollection && s.f.connectedOnce && !s.f.collectorSilent
    && s.collectorExists && s.registered && s.server == Serving
    && s.vectorHost == Some(host) && s.hostVal == Some(host) && s.registryHost == Some(host)
  }

  ghost predicate SectionInv(s: State, w: seq<Action>) {
    && (OnItsWay(s.main) ==> w == Way(s.main, s.hostSupported, false) || w == Way(s.main, s.hostSupported, true))
    && (s.main == Failing ==> Fails(w, s.hostSupported))
    && (s.main == Unlocking ==> Ends(w, s.hostSupported))
  }

  predicate PastCreation(pc: MainPc) {
    pc.SettingFirst? || pc.Registering? || pc.SettingConnected? || pc.Sending? || pc.SettingOnce?
  }

  ghost predicate ProgressInv(s: State, w: seq<Action>) {
    && (PastAllocation(s.main) ==> s.vectorHost == Some(s.hostSupported))
    && (PastCreation(s.main) ==> s.collectorExists)
    && (s.main == SettingConnected || s.main == Sending || s.main == SettingOnce ==> s.registered)
    && (s.main == Sending || s.main == SettingOnce ==> s.f.firstCollection && s.registryHost == s.vectorHost)
    && (s.main == SettingConnected ==> s.registryHost == s.vectorHost)
    && (s.main == Unlocking ==>
          if |w| > 0 && (w[|w| - 1].GiveUp? || w[|w| - 1].Retry?) then !s.f.connectedQMgr else Achieved(s, s.hostSupported))
  }

  lemma ConnectKeepsSection(s: State, a: Action, keepRunning: bool, s': State, w: seq<Action>)
    requires SectionInv(s, w) && !Publishing(a) && !a.LockMain? && !a.UnlockMain?
    requires ConnectStep(s, a, keepRunning) == Some(s')
    ensures SectionInv(s', w + [a])
  {
  }

  predicate Renewing(a: Action) {
    a.ResetHost? || a.Allocate? || a.FirstTime? || a.Silence? || a.Unregister? || a.Unsilence?
  }

  lemma RenewKeepsSection(s: State, a: Action, s': State, w: seq<Action>)
    requires SectionInv(s, w) && Renewing(a) && PublishStep(s, a) == Some(s')
    ensures SectionInv(s', w + [a])
  {
  }

  lemma PublishKeepsSection(s: State, a: Action, s': State, w: seq<Action>)
    requires SectionInv(s, w) && (a.Create? || a.SetFirst? || a.Register? || a.SetConnected? || a.Send?)
    requires PublishStep(s, a) == Some(s')
    ensures SectionInv(s', w + [a])
  {
    var again := w == Way(s.main, s.hostSupported, true);
    NewWay(s.main, a, s'.main, s.hostSupported, again);
    assert w == Way(s.main, s.hostSupported, again);
  }

  lemma NewWay(pc: MainPc, a: Action, pc': MainPc, host: bool, again: bool)
    requires || (a.Create? && pc == Creating && pc' == SettingFirst)
             || (a.SetFirst? && pc == SettingFirst && pc' == Registering)
             || (a.Register? && pc == Registering && pc' == SettingConnected)
             || (a.SetConnected? && pc == SettingConnected && pc' == Sending)
             || (a.Send? && pc == Sending && pc' == SettingOnce)
    ensures Way(pc', host, again) == Way(pc, host, again) + [a]
  {
  }

  lemma LastKeepsSection(s: State, a: Action, s': State, w: seq<Action>)
    requires SectionInv(s, w) && (a.SkipSend? || a.SetOnce?) && PublishStep(s, a) == Some(s')
    ensures SectionInv(s', w + [a])
  {
    var h := s.hostSupported;
    var again := w == Way(s.main, h, true);
    assert Succeeds(w + [a], h, again);
  }

  lemma ConnectKeepsProgress(s: State, a: Action, keepRunning: bool, s': State, w: seq<Action>)
    requires Inv(s) && ProgressInv(s, w) && !Publishing(a) && ConnectStep(s, a, keepRunning) == Some(s')
    ensures ProgressInv(s', w + [a])
  {
    if a.GiveUp? || a.Retry? {
      FailureKeepsProgress(s, a, keepRunning, s', w);
    } else {
      NothingPublished(s, a, keepRunning, s');
    }
  }

  lemma FailureKeepsProgress(s: State, a: Action, keepRunning: bool, s': State, w: seq<Action>)
    requires FlagInv(s) && (a.GiveUp? || a.Retry?) && ConnectStep(s, a, keepRunning) == Some(s')
    ensures ProgressInv(s', w + [a])
  {
  }

  lemma NothingPublished(s: State, a: Action, keepRunning: bool, s': State)
    requires !Publishing(a) && !a.GiveUp? && !a.Retry? && ConnectStep(s, a, keepRunning) == Some(s')
    ensures !PastAllocation(s'.main) && !PastCreation(s'.main) && s'.main != Unlocking
  {
  }

  lemma PublishKeepsProgress(s: State, a: Action, s': State, w: seq<Action>)
    requires Inv(s) && ProgressInv(s, w) && Publishing(a) && PublishStep(s, a) == Some(s')
    ensures ProgressInv(s', w + [a])
  {
  }

  /** While the loop has the mutex, nothing but the loop, an arrival or the end of the process happens. */
  lemma NoScrapeMeanwhile(s: State, id: nat, a: Action)
    requires LockInv(s) && MainLocked(s.main) && id in s.scrapes
    ensures ScrapeStep(s, id, a).None?
  {
  }

  lemma MutexKeepsSection(s: State, a: Action, keepRunning: bool, s': State, w: seq<Action>)
    requires (a.LockMain? && w == [a]) || a.UnlockMain?
    requires ConnectStep(s, a, keepRunning) == Some(s')
    ensures SectionInv(s', w) && ProgressInv(s', w)
  {
  }

  lemma LoopKeepsSection(s: State, a: Action, keepRunning: bool, s': State, w: seq<Action>)
    requires Inv(s) && SectionInv(s, w) && ProgressInv(s, w) && OfLoop(a) && MainStep(s, a, keepRunning) == Some(s')
    ensures var w' := if a.LockMain? then [a] else w + [a]; SectionInv(s', w') && ProgressInv(s', w')
  {
    if a.LockMain? || a.UnlockMain? {
      MutexKeepsSection(s, a, keepRunning, s', if a.LockMain? then [a] else w + [a]);
    } else if Renewing(a) {
      RenewKeepsSection(s, a, s', w);
      PublishKeepsProgress(s, a, s', w);
    } else if a.SkipSend? || a.SetOnce? {
      LastKeepsSection(s, a, s', w);
      PublishKeepsProgress(s, a, s', w);
    } else if Publishing(a) {
      PublishKeepsSection(s, a, s', w);
      PublishKeepsProgress(s, a, s', w);
    } else {
      ConnectKeepsSection(s, a, keepRunning, s', w);
      ConnectKeepsProgress(s, a, keepRunning, s', w);
    }
  }

  lemma OthersKeepSection(s: State, a: Action, keepRunning: bool, s': State, w: seq<Action>)
    requires Inv(s) && SectionInv(s, w) && ProgressInv(s, w) && !OfLoop(a) && Apply(s, a, keepRunning) == Some(s')
    ensures SectionInv(s', w) && ProgressInv(s', w)
  {
    if MainLocked(s.main) {
      NothingElseMeanwhile(s, a, keepRunning, s');
    } else {
      OthersLeaveTheLoop(s, a, keepRunning, s');
    }
  }

  lemma NothingElseMeanwhile(s: State, a: Action, keepRunning: bool, s': State)
    requires LockInv(s) && MainLocked(s.main) && !OfLoop(a) && Apply(s, a, keepRunning) == Some(s')
    ensures s' == s.(exited := s'.exited, scrapes := s'.scrapes)
  {
    if ScrapeId(a).Some? && ScrapeId(a).value in s.scrapes {
      NoScrapeMeanwhile(s, ScrapeId(a).value, a);
    }
  }

  lemma {:induction false} SectionSoFar(run: seq<Action>, keepRunning: bool)
    requires Exec(run, keepRunning).Some?
    ensures SectionInv(Exec(run, keepRunning).value, Section(run))
    ensures ProgressInv(Exec(run, keepRunning).value, Section(run))
  {
    if run != [] {
      var s, s' := LastMove(run, keepRunning);
      var a, w := run[|run| - 1], Section(run[..|run| - 1]);
      SectionSoFar(run[..|run| - 1], keepRunning);
      if OfLoop(a) {
        LoopKeepsSection(s, a, keepRunning, s', w);
      } else {
        OthersKeepSection(s, a, keepRunning, s', w);
        assert w + [] == w;
      }
    }
  }

  /** Each time the loop gives back the mutex, it has either failed, in one of two places, and given
      up or left it for later, with no connection; or it has gone the whole way in its one order,
      through silencing and unregistering exactly as `again` says, with all that comes with it. */
  lemma EverySectionIs(run: seq<Action>, keepRunning: bool) returns (host: bool)
    requires Alive(run, keepRunning) && Exec(run, keepRunning).value.main == Unlocking
    ensures Section(run) != []
    ensures var s, w := Exec(run, keepRunning).value, Section(run);
      var last := w[|w| - 1];
      if last.GiveUp? || last.Retry? then Fails(w[..|w| - 1], host) && !s.f.connectedQMgr
      else (Succeeds(w, host, false) || Succeeds(w, host, true)) && Achieved(s, host)
  {
    SectionSoFar(run, keepRunning);
    var s, w := Exec(run, keepRunning).value, Section(run);
    host := s.hostSupported;
    if Succeeds(w, host, false) {
      SuccessLast(w, host, false);
    } else if Succeeds(w, host, true) {
      SuccessLast(w, host, true);
    }
  }

  /** With an old collector to replace, the new vectors are followed by silencing and unregistering it,
      and without one by making the new. */
  lemma AgainMeans(w: seq<Action>, host: bool, again: bool)
    requires Succeeds(w, host, again)
    ensures |w| > 7 && w[5] == Allocate
    ensures w[6] == (if again then Silence else FirstTime) && w[7] == (if again then Unregister else Create)
  {
  }

  lemma SuccessLast(w: seq<Action>, host: bool, again: bool)
    requires Succeeds(w, host, again)
    ensures w != [] && (w[|w| - 1].SkipSend? || w[|w| - 1].SetOnce?)
  {
  }

  /** The last thing the reconnect loop did. */
  function LastOfLoop(run: seq<Action>): Option<Action> {
    if run == [] then None
    else if OfLoop(run[|run| - 1]) then Some(run[|run| - 1])
    else LastOfLoop(run[..|run| - 1])
  }

  ghost predicate OutsideInv(pc: MainPc, last: Option<Action>) {
    && (pc == TestingEnd <==> last.None? || last.value == Wake || last.value == UnlockMain)
    && (pc == TestingConnected <==> last == Some(TestEnd))
    && (pc == Sleeping <==> last == Some(SeeConnected))
    && (pc == Locking <==> last == Some(SeeDisconnected))
  }

  lemma LoopKeepsOutside(s: State, a: Action, keepRunning: bool, s': State)
    requires OfLoop(a) && MainStep(s, a, keepRunning) == Some(s')
    ensures OutsideInv(s'.main, Some(a))
  {
  }

  /** Without the mutex the loop tests for the end, then for the connection, then sleeps and starts
      again, or goes for the mutex; giving that back it starts again too. */
  lemma {:induction false} OutsideTheMutex(run: seq<Action>, keepRunning: bool)
    requires Exec(run, keepRunning).Some?
    ensures OutsideInv(Exec(run, keepRunning).value.main, LastOfLoop(run))
  {
    if run != [] {
      var s, s' := LastMove(run, keepRunning);
      OutsideTheMutex(run[..|run| - 1], keepRunning);
      if OfLoop(run[|run| - 1]) {
        LoopKeepsOutside(s, run[|run| - 1], keepRunning, s');
      } else {
        OthersLeaveTheLoop(s, run[|run| - 1], keepRunning, s');
      }
    }
  }

  lemma OthersLeaveTheLoop(s: State, a: Action, keepRunning: bool, s': State)
    requires !OfLoop(a) && Apply(s, a, keepRunning) == Some(s')
    ensures s'.main == s.main
  {
  }

  /** What a scrape has done since it arrived. */
  function Body(run: seq<Action>, id: nat): seq<Action> {
    if run == [] then []
    else
      var a := run[|run| - 1];
      if a == Arrive(id) then [a]
      else Body(run[..|run| - 1], id) + if ScrapeId(a) == Some(id) then [a] else []
  }

  function Tested(id: nat): seq<Action> {
    [Arrive(id), LockScrape(id), TestScrape(id)]
  }

  /** Arrived, taken the mutex, found the connection up and worked, with this outcome. */
  predicate Worked(w: seq<Action>, id: nat, outcome: Outcome) {
    |w| == 4 && w[..3] == Tested(id) && w[3].Process? && w[3].id == id && w[3].outcome == outcome
  }

  ghost predicate BodyInv(pc: ScrapePc, first: bool, w: seq<Action>, id: nat) {
    match pc
    case Queued => w == [Arrive(id)]
    case Entered => w == [Arrive(id), LockScrape(id)]
    case Reporting => w == Tested(id)
    case Working => w == Tested(id)
    case Failed(kind) => Worked(w, id, Bad(kind))
    case Dropping => |w| == 5 && Worked(w[..4], id, Bad(QuitCode)) && w[4..] == [SetEnd(id)]
    case Succeeded(polled) => Worked(w, id, Good) && (polled <==> w[3].due || first)
    case Leaving => Left(w, id)
  }

  /** The five ways through a collection: report the lost connection; finish the work; and on an
      error stay connected without a reason code, ask for the end and disconnect on the code that
      quits, and disconnect on any other. */
  predicate Left(w: seq<Action>, id: nat) {
    || w == Tested(id) + [Report(id)]
    || (|w| >= 5 && Worked(w[..4], id, Good) && |w| == 5 && w[4].Finish? && w[4].id == id)
    || (|w| >= 5 && Worked(w[..4], id, Bad(NoReasonCode)) && w[4..] == [StayConnected(id)])
    || (|w| >= 5 && Worked(w[..4], id, Bad(QuitCode)) && w[4..] == [SetEnd(id), Disconnect(id)])
    || (|w| >= 5 && Worked(w[..4], id, Bad(OtherCode)) && w[4..] == [Disconnect(id)])
  }

  ghost predicate BodiesInv(s: State, id: nat, w: seq<Action>) {
    id in s.scrapes ==> BodyInv(s.scrapes[id], s.f.firstCollection, w, id)
  }

  lemma StartKeepsBody(s: State, id: nat, a: Action, s': State, w: seq<Action>)
    requires id in s.scrapes && ScrapeId(a) == Some(id) && BodiesInv(s, id, w) && ScrapeStep(s, id, a) == Some(s')
    requires a.LockScrape? || a.TestScrape? || a.Process?
    ensures BodiesInv(s', id, w + [a])
  {
  }

  lemma EndKeepsBody(s: State, id: nat, a: Action, s': State, w: seq<Action>)
    requires id in s.scrapes && ScrapeId(a) == Some(id) && BodiesInv(s, id, w) && ScrapeStep(s, id, a) == Some(s')
    requires !a.LockScrape? && !a.TestScrape? && !a.Process?
    ensures BodiesInv(s', id, w + [a])
  {
    var n := |w|;
    assert n >= 4 ==> (w + [a])[..4] == w[..4];
    assert n == 4 ==> w[..4] == w;
  }

  /** Only the holder of the mutex moves the first-collection flag. */
  lemma OthersKeepBody(s: State, id: nat, a: Action, keepRunning: bool, s': State, w: seq<Action>)
    requires Inv(s) && Moves(s, a, s') && BodiesInv(s, id, w) && Apply(s, a, keepRunning) == Some(s')
    requires ScrapeId(a) != Some(id) && a != Arrive(id)
    ensures BodiesInv(s', id, w)
  {
    OthersLeaveTheScrape(s, id, a, keepRunning, s');
    if id in s.scrapes && s.scrapes[id].Succeeded? {
      assert InBody(s.scrapes[id]);
    }
  }

  lemma OthersLeaveTheScrape(s: State, id: nat, a: Action, keepRunning: bool, s': State)
    requires ScrapeId(a) != Some(id) && a != Arrive(id) && Apply(s, a, keepRunning) == Some(s')
    ensures id in s.scrapes <==> id in s'.scrapes
    ensures id in s.scrapes ==> s'.scrapes[id] == s.scrapes[id]
  {
    if OfLoop(a) {
      LoopLeavesTheScrapes(s, a, keepRunning, s');
    }
  }

  lemma LoopLeavesTheScrapes(s: State, a: Action, keepRunning: bool, s': State)
    requires MainStep(s, a, keepRunning) == Some(s')
    ensures s'.scrapes == s.scrapes
  {
    if Publishing(a) {
      PublishLeavesTheScrapes(s, a, s');
    } else {
      ConnectLeavesTheScrapes(s, a, keepRunning, s');
    }
  }

  lemma PublishLeavesTheScrapes(s: State, a: Action, s': State)
    requires PublishStep(s, a) == Some(s')
    ensures s'.scrapes == s.scrapes
  {
  }

  lemma ConnectLeavesTheScrapes(s: State, a: Action, keepRunning: bool, s': State)
    requires ConnectStep(s, a, keepRunning) == Some(s')
    ensures s'.scrapes == s.scrapes
  {
  }

  lemma {:induction false} BodySoFar(run: seq<Action>, id: nat, keepRunning: bool)
    requires Exec(run, keepRunning).Some?
    ensures BodiesInv(Exec(run, keepRunning).value, id, Body(run, id))
  {
    if run != [] {
      var s, s' := LastMove(run, keepRunning);
      var a, w := run[|run| - 1], Body(run[..|run| - 1], id);
      BodySoFar(run[..|run| - 1], id, keepRunning);
      if a == Arrive(id) {
      } else if ScrapeId(a) == Some(id) {
        if a.LockScrape? || a.TestScrape? || a.Process? {
          StartKeepsBody(s, id, a, s', w);
        } else {
          EndKeepsBody(s, id, a, s', w);
        }
      } else {
        OthersKeepBody(s, id, a, keepRunning, s', w);
        assert w + [] == w;
      }
    }
  }

  /** Each collection that gives back the mutex went one of the five ways, and one that succeeded
      polled exactly if a poll was due or it is the first of its connection to complete. */
  lemma EveryCollectIs(run: seq<Action>, id: nat, keepRunning: bool)
    requires Alive(run, keepRunning) && id in Exec(run, keepRunning).value.scrapes
    ensures var pc, w := Exec(run, keepRunning).value.scrapes[id], Body(run, id);
      && (pc == Leaving ==> Left(w, id))
      && (pc.Succeeded? ==> Worked(w, id, Good) && (pc.polled <==> w[3].due || CompletedSince(run) == 0))
  {
    BodySoFar(run, id, keepRunning);
    FirstFlagMeaning(run, keepRunning);
    RunKeepsInv(run, keepRunning);
  }

  /** A scrape arrives exactly when the server runs and the collector is registered at the time; the
      server can end the process exactly once it has been told to start. */
  lemma WhenServed(run: seq<Action>, id: nat, keepRunning: bool)
    requires Alive(run, keepRunning) && id !in Exec(run, keepRunning).value.scrapes
    ensures var s := Exec(run, keepRunning).value;
      && (Apply(s, Arrive(id), keepRunning).Some? <==> Send in run && CollectorRegistered(run))
      && (Apply(s, ServerStops, keepRunning).Some? <==> Send in run)
  {
    FlagsTellTheRun(run, keepRunning);
    RegisteredTellsTheRun(run, keepRunning);
  }

  /** Whether a collector was registered after one was last unregistered. */
  predicate CollectorRegistered(run: seq<Action>) {
    run != [] && (run[|run| - 1].Register? || (!run[|run| - 1].Unregister? && CollectorRegistered(run[..|run| - 1])))
  }

  lemma {:induction false} RegisteredTellsTheRun(run: seq<Action>, keepRunning: bool)
    requires Exec(run, keepRunning).Some?
    ensures Exec(run, keepRunning).value.registered <==> CollectorRegistered(run)
  {
    if run != [] {
      var s, s' := LastMove(run, keepRunning);
      RegisteredTellsTheRun(run[..|run| - 1], keepRunning);
    }
  }

  /** A waiting scrape can go on exactly when the mutex is free, whoever else waits for it; and so can
      the loop. */
  lemma WhoCanEnter(run: seq<Action>, id: nat, keepRunning: bool)
    requires Alive(run, keepRunning)
    ensures var s := Exec(run, keepRunning).value;
      && (id in s.scrapes && s.scrapes[id] == Queued ==>
            (Apply(s, LockScrape(id), keepRunning).Some? <==> s.lock == Free))
      && (s.main == Locking ==> (Apply(s, LockMain, keepRunning).Some? <==> s.lock == Free))
  {
  }

  /** A standby queue manager ends the process in place of a connection, and nowhere else: right after
      the loop has ended the old connection. */
  lemma StandbyWhileConnecting(run: seq<Action>, keepRunning: bool)
    requires Alive(run, keepRunning)
    ensures Apply(Exec(run, keepRunning).value, ExitStandby, keepRunning).Some? <==> LastOfLoop(run) == Some(EndConnection)
  {
    InitialisingNext(run, keepRunning);
  }

  lemma {:induction false} InitialisingNext(run: seq<Action>, keepRunning: bool)
    requires Exec(run, keepRunning).Some?
    ensures Exec(run, keepRunning).value.main == Initialising <==> LastOfLoop(run) == Some(EndConnection)
  {
    if run != [] {
      var s, s' := LastMove(run, keepRunning);
      var a := run[|run| - 1];
      InitialisingNext(run[..|run| - 1], keepRunning);
      if OfLoop(a) {
        LeadsToInitialising(s, a, keepRunning, s');
      } else {
        OthersLeaveTheLoop(s, a, keepRunning, s');
      }
    }
  }

  lemma LeadsToInitialising(s: State, a: Action, keepRunning: bool, s': State)
    requires OfLoop(a) && MainStep(s, a, keepRunning) == Some(s')
    ensures s'.main == Initialising <==> a == EndConnection
  {
  }
}
