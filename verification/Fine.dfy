/** The protocol at the grain of single memory and lock operations: taking and
    leaving a mutex, reading exec_proc, promoting the weak pointer, each of the two
    writes of rebindFunction, and the separate effects of module.reset are steps
    of their own, interleaved arbitrarily. */
module Fine {
  import opened Text
  import opened EngineState
  import Coarse

  type Thread = Coarse.Thread<Pc>

  /** Program points, function by function. One ending in Lock waits for a mutex;
      one ending in Out is about to leave it. */
  datatype MakePc = MakeLock | MakeIn | MakePublish(f: nat) | MakeOut

  datatype TryPc = TryLock | TryRead | TryPromote(proc: Proc) | TryWon | TryLost

  datatype RebindPc =
    | RebindLock
    | RebindIn
    | RebindFuncLock(g: Gen)
    | RebindProc(g: Gen)
    | RebindWeak(g: Gen)
    | RebindFuncOut
    | RebindOut
    | RebindMissOut

  datatype InstallPc =
    | InstallLock
    | InstallIn
    | InstallRelease(prev: Option<Gen>)
    | InstallCount
    | InstallOut

  datatype InfoPc = InfoLock | InfoIn | InfoOut

  datatype Pc =
    | User
    | Making(name: Name, m: MakePc)                  // getOrAddFunc
    | Trying(f: nat, k: nat, b: nat, p: TryPc)       // lock_module
    | Rebinding(f: nat, k: nat, b: nat, r: RebindPc) // rebindFunction
    | Loading                                        // reloadModule, before its lock
    | Installing(table: Table, i: InstallPc)         // reloadModule, from its lock on
    | Asking(q: InfoPc)                              // doGetModuleInfo

  predicate HoldsEngine(at: Pc) {
    match at
    case Making(_, m) => !m.MakeLock?
    case Rebinding(_, _, _, r) => !r.RebindLock?
    case Installing(_, i) => !i.InstallLock?
    case Asking(q) => !q.InfoLock?
    case _ => false
  }

  /** The function object whose mutex is held. */
  function FuncHeld(at: Pc): Option<nat> {
    match at
    case Trying(f, _, _, p) => if p.TryLock? then None else Some(f)
    case Rebinding(f, _, _, r) => if r.RebindProc? || r.RebindWeak? || r.RebindFuncOut? then Some(f) else None
    case _ => None
  }

  predicate WantsEngine(at: Pc) {
    match at
    case Making(_, m) => m.MakeLock?
    case Rebinding(_, _, _, r) => r.RebindLock?
    case Installing(_, i) => i.InstallLock?
    case Asking(q) => q.InfoLock?
    case _ => false
  }

  function FuncWanted(at: Pc): Option<nat> {
    match at
    case Trying(f, _, _, p) => if p.TryLock? then Some(f) else None
    case Rebinding(f, _, _, r) => if r.RebindFuncLock? then Some(f) else None
    case _ => None
  }

  datatype State = State(
    e: Engine,
    engineMutex: Option<nat>,          // the thread holding engine_mutex
    funcMutex: seq<Option<nat>>,       // for each function object, the thread holding func_mutex
    threads: seq<Thread>
  )

  const IDLE: Thread := Coarse.Thread(User, Coarse.NoCalls, Coarse.Nothing)
  const INIT := State(EMPTY_ENGINE, None, [], [])

  /** A function object that makeFunction may have handed out. */
  predicate Published(e: Engine, f: nat) {
    f < |e.objs| && e.objs[f].name in e.funcs && e.funcs[e.objs[f].name] == f
  }

  /** The mutex this point waits for, if any, is free. */
  predicate MutexFree(s: State, at: Pc) {
    && (WantsEngine(at) ==> s.engineMutex == None)
    && (match FuncWanted(at)
        case Some(f) => f < |s.funcMutex| ==> s.funcMutex[f] == None
        case None => true)
  }

  predicate Enabled(s: State, t: nat, c: Coarse.Choice) {
    t < |s.threads| &&
    var th := s.threads[t];
    match th.at
    case User =>
      (match c
       case StartMake(_) => true
       case StartCall(f) => Published(s.e, f)
       case StartReload => true
       case Return => th.calls.Push?
       case _ => false)
    case Loading => c.LoadFails? || c.LoadGives?
    case _ => c.Go? && MutexFree(s, th.at)
  }

  /** The procedure and weak pointer fields of object f. */
  function SetProc(e: Engine, f: nat, p: Proc): Engine {
    if f < |e.objs| then e.(objs := e.objs[f := e.objs[f].(proc := p)]) else e
  }

  function SetWeak(e: Engine, f: nat, w: Option<Gen>): Engine {
    if f < |e.objs| then e.(objs := e.objs[f := e.objs[f].(weak := w)]) else e
  }

  /** Inside module.reset: the pointer is exchanged, the previous module not yet let go. */
  predicate Releasing(at: Pc) {
    at.Installing? && at.i.InstallRelease?
  }

  /** The installs completed so far; only the history variable b depends on it. */
  function Installs(s: State): nat {
    var n := |s.e.gens|;
    match s.engineMutex
    case Some(t) =>
      if t < |s.threads| && Releasing(s.threads[t].at) && n > 0 then n - 1 else n
    case None => n
  }

  /** Thread t moves on to `th`, with the engine changed to e. */
  function Put(s: State, e: Engine, t: nat, th: Thread): State
    requires t < |s.threads|
  {
    s.(e := e, threads := s.threads[t := th])
  }

  function TakeEngine(s: State, t: nat): State {
    s.(engineMutex := Some(t))
  }

  function LeaveEngine(s: State): State {
    s.(engineMutex := None)
  }

  function SetFuncMutex(s: State, f: nat, owner: Option<nat>): State {
    if f < |s.funcMutex| then s.(funcMutex := s.funcMutex[f := owner]) else s
  }

  /** Where execute begins, by the kind of function. */
  function Entry(s: State, f: nat): Pc
    requires f < |s.e.objs|
  {
    match s.e.objs[f].spec
    case ReloadModule => Loading
    case ModuleInfo => Asking(InfoLock)
    case Ordinary => Trying(f, 0, Installs(s), TryLock)
  }

  function NextUser(s: State, t: nat, c: Coarse.Choice): State
    requires Enabled(s, t, c) && s.threads[t].at.User?
  {
    var th := s.threads[t];
    match c
    case StartMake(n) => Put(s, s.e, t, th.(at := Making(n, MakeLock)))
    case StartCall(f) => Put(s, s.e, t, th.(at := Entry(s, f)))
    case Return =>
      Put(s, Release(s.e, th.calls.call.gen), t, Coarse.Thread(User, th.calls.below, Coarse.Ran(th.calls.call.f)))
    case _ => Put(s, s.e, t, th.(at := Loading))
  }

  function NextMake(s: State, t: nat, n: Name, m: MakePc): State
    requires t < |s.threads|
  {
    var e := s.e;
    var th := s.threads[t];
    match m
    case MakeLock => TakeEngine(Put(s, e, t, th.(at := Making(n, MakeIn))), t)
    case MakeIn =>
      if n in e.funcs then Put(s, e, t, th.(at := Making(n, MakeOut), ret := Coarse.Made(n, Some(e.funcs[n]))))
      else
        (match NewFunc(e, n)
         case None => Put(s, e, t, th.(at := Making(n, MakeOut), ret := Coarse.Made(n, None)))
         case Some(fn) =>
           var f := |e.objs|;
           Put(s.(funcMutex := s.funcMutex + [None]), e.(objs := e.objs + [fn]), t,
               th.(at := Making(n, MakePublish(f)), ret := Coarse.Made(n, Some(f)))))
    case MakePublish(f) => Put(s, e.(funcs := e.funcs[n := f]), t, th.(at := Making(n, MakeOut)))
    case MakeOut => LeaveEngine(Put(s, e, t, th.(at := User)))
  }

  function NextTry(s: State, t: nat, f: nat, k: nat, b: nat, p: TryPc): State
    requires t < |s.threads|
  {
    var e := s.e;
    var th := s.threads[t];
    match p
    case TryLock => SetFuncMutex(Put(s, e, t, th.(at := Trying(f, k, b, TryRead))), f, Some(t))
    case TryRead =>
      var proc := if f < |e.objs| then e.objs[f].proc else NULL_PROC;
      Put(s, e, t, th.(at := Trying(f, k, b, TryPromote(proc))))
    case TryPromote(proc) =>
      (match Promoted(e, f)
       case Some(g) =>
         Put(s, Retain(e, g), t,
             th.(at := Trying(f, k, b, TryWon), calls := Coarse.Push(Coarse.Call(f, proc, g), th.calls)))
       case None => Put(s, e, t, th.(at := Trying(f, k + 1, b, TryLost))))
    case TryWon => SetFuncMutex(Put(s, e, t, th.(at := User)), f, None)
    case TryLost => SetFuncMutex(Put(s, e, t, th.(at := Rebinding(f, k, b, RebindLock))), f, None)
  }

  /** The entry for f's name in the table of generation g. */
  function EntryIn(e: Engine, f: nat, g: Gen): Proc {
    if f < |e.objs| && Has(e, Some(g), e.objs[f].name) then e.gens[g][e.objs[f].name] else NULL_PROC
  }

  function NextRebind(s: State, t: nat, f: nat, k: nat, b: nat, r: RebindPc): State
    requires t < |s.threads|
  {
    var e := s.e;
    var th := s.threads[t];
    match r
    case RebindLock => TakeEngine(Put(s, e, t, th.(at := Rebinding(f, k, b, RebindIn))), t)
    case RebindIn =>
      if RebindHits(e, f) then Put(s, e, t, th.(at := Rebinding(f, k, b, RebindFuncLock(e.current.value))))
      else Put(s, e, t, th.(at := Rebinding(f, k, b, RebindMissOut), ret := Coarse.Threw(f)))
    case RebindFuncLock(g) => SetFuncMutex(Put(s, e, t, th.(at := Rebinding(f, k, b, RebindProc(g)))), f, Some(t))
    case RebindProc(g) => Put(s, SetProc(e, f, EntryIn(e, f, g)), t, th.(at := Rebinding(f, k, b, RebindWeak(g))))
    case RebindWeak(g) => Put(s, SetWeak(e, f, e.current), t, th.(at := Rebinding(f, k, b, RebindFuncOut)))
    case RebindFuncOut => SetFuncMutex(Put(s, e, t, th.(at := Rebinding(f, k, b, RebindOut))), f, None)
    case RebindOut => LeaveEngine(Put(s, e, t, th.(at := Trying(f, k, b, TryLock))))
    case RebindMissOut => LeaveEngine(Put(s, e, t, th.(at := User)))
  }

  function NextLoad(s: State, t: nat, c: Coarse.Choice): State
    requires t < |s.threads|
  {
    var th := s.threads[t];
    match c
    case LoadGives(table) => Put(s, s.e, t, th.(at := Installing(table, InstallLock)))
    case _ => Put(s, s.e, t, th.(at := User, ret := Coarse.Reloaded(false)))
  }

  function NextInstall(s: State, t: nat, table: Table, i: InstallPc): State
    requires t < |s.threads|
  {
    var e := s.e;
    var th := s.threads[t];
    match i
    case InstallLock => TakeEngine(Put(s, e, t, th.(at := Installing(table, InstallIn))), t)
    case InstallIn => Put(s, Swap(e, table), t, th.(at := Installing(table, InstallRelease(e.current))))
    case InstallRelease(prev) =>
      Put(s, ReleaseOld(e, prev), t, th.(at := Installing(table, InstallCount), ret := Coarse.Reloaded(true)))
    case InstallCount => Put(s, e.(count := e.count + 1), t, th.(at := Installing(table, InstallOut)))
    case InstallOut => LeaveEngine(Put(s, e, t, th.(at := User)))
  }

  function NextInfo(s: State, t: nat, q: InfoPc): State
    requires t < |s.threads|
  {
    var th := s.threads[t];
    match q
    case InfoLock => TakeEngine(Put(s, s.e, t, th.(at := Asking(InfoIn))), t)
    case InfoIn => Put(s, s.e, t, th.(at := Asking(InfoOut), ret := Coarse.Info(s.e.current.Some?)))
    case InfoOut => LeaveEngine(Put(s, s.e, t, th.(at := User)))
  }

  function Next(s: State, t: nat, c: Coarse.Choice): State
    requires Enabled(s, t, c)
  {
    match s.threads[t].at
    case User => NextUser(s, t, c)
    case Making(n, m) => NextMake(s, t, n, m)
    case Trying(f, k, b, p) => NextTry(s, t, f, k, b, p)
    case Rebinding(f, k, b, r) => NextRebind(s, t, f, k, b, r)
    case Loading => NextLoad(s, t, c)
    case Installing(table, i) => NextInstall(s, t, table, i)
    case Asking(q) => NextInfo(s, t, q)
  }

  function Spawn(s: State): State {
    s.(threads := s.threads + [IDLE])
  }

  ghost predicate Step(s: State, s': State) {
    || s' == Spawn(s)
    || exists t, c :: Enabled(s, t, c) && s' == Next(s, t, c)
  }

  ghost predicate StepAt(r: seq<State>, i: nat)
    requires i + 1 < |r|
  {
    Step(r[i], r[i + 1])
  }

  ghost predicate IsRun(r: seq<State>) {
    && |r| > 0
    && r[0] == INIT
    && forall i: nat :: i + 1 < |r| ==> StepAt(r, i)
  }
}
