/** The protocol at the grain of critical sections: each locked region of the
    source is one step. Any number of threads; each carries the stack of the user
    procedures it is inside of, with the strong reference each of them holds. */
module Coarse {
  import opened Text
  import opened EngineState

  /** One activation of a user procedure: the function object it was called
      through, the address that runs, and the generation whose reference it holds. */
  datatype Call = Call(f: nat, proc: Proc, gen: Gen)

  datatype Calls = NoCalls | Push(call: Call, below: Calls)

  /** The outcome of the thread's latest engine operation. */
  datatype Ret =
    | Nothing
    | Made(name: Name, res: Option<nat>)
    | Ran(f: nat)
    | Threw(f: nat)
    | Reloaded(ok: bool)
    | Info(found: bool)

  datatype Thread<P> = Thread(at: P, calls: Calls, ret: Ret)

  /** Where a thread is. `User` is outside the engine: in no call at all, or in
      the code of the procedure on top of its stack. In Try and Rebind, `k` is the
      number of failed promotions of this call so far and `b` the number of
      installs before it began; both are history, nothing depends on them. */
  datatype Pc =
    | User
    | MakeFunc(name: Name)
    | Try(f: nat, k: nat, b: nat)
    | Rebinding(f: nat, k: nat, b: nat)
    | Loading
    | Installing(table: Table)
    | Asking

  datatype State = State(e: Engine, threads: seq<Thread<Pc>>)

  datatype Choice =
    | Go
    | StartMake(name: Name)
    | StartCall(f: nat)
    | StartReload
    | Return
    | LoadFails
    | LoadGives(table: Table)

  const IDLE: Thread<Pc> := Thread(User, NoCalls, Nothing)

  predicate Enabled(s: State, t: nat, c: Choice) {
    t < |s.threads| &&
    var th := s.threads[t];
    match th.at
    case User =>
      (match c
       case StartMake(_) => true
       case StartCall(f) => f < |s.e.objs|
       case StartReload => true
       case Return => th.calls.Push?
       case _ => false)
    case Loading => c.LoadFails? || c.LoadGives?
    case _ => c.Go?
  }

  /** Where execute begins, by the kind of function. */
  function Entry(e: Engine, f: nat): Pc
    requires f < |e.objs|
  {
    match e.objs[f].spec
    case ReloadModule => Loading
    case ModuleInfo => Asking
    case Ordinary => Try(f, 0, |e.gens|)
  }

  function Put(s: State, e: Engine, t: nat, th: Thread<Pc>): State
    requires t < |s.threads|
  {
    State(e, s.threads[t := th])
  }

  function Next(s: State, t: nat, c: Choice): State
    requires Enabled(s, t, c)
  {
    var e := s.e;
    var th := s.threads[t];
    match th.at
    case User =>
      (match c
       case StartMake(n) => Put(s, e, t, th.(at := MakeFunc(n)))
       case StartCall(f) => Put(s, e, t, th.(at := Entry(e, f)))
       case Return => Put(s, Release(e, th.calls.call.gen), t, Thread(User, th.calls.below, Ran(th.calls.call.f)))
       case _ => Put(s, e, t, th.(at := Loading)))
    case MakeFunc(n) =>
      var (e', r) := GetOrAdd(e, n);
      Put(s, e', t, th.(at := User, ret := Made(n, r)))
    case Try(f, k, b) =>
      (match Promoted(e, f)
       case Some(g) => Put(s, Retain(e, g), t, th.(at := User, calls := Push(Call(f, e.objs[f].proc, g), th.calls)))
       case None => Put(s, e, t, th.(at := Rebinding(f, k + 1, b))))
    case Rebinding(f, k, b) =>
      if RebindHits(e, f) then Put(s, Rebind(e, f), t, th.(at := Try(f, k, b)))
      else Put(s, e, t, th.(at := User, ret := Threw(f)))
    case Loading =>
      (match c
       case LoadGives(table) => Put(s, e, t, th.(at := Installing(table)))
       case _ => Put(s, e, t, th.(at := User, ret := Reloaded(false))))
    case Installing(table) => Put(s, Install(e, table), t, th.(at := User, ret := Reloaded(true)))
    case Asking => Put(s, e, t, th.(at := User, ret := Info(e.current.Some?)))
  }

  function Spawn(s: State): State {
    s.(threads := s.threads + [IDLE])
  }

  ghost predicate Step(s: State, s': State) {
    || s' == s
    || s' == Spawn(s)
    || exists t, c :: Enabled(s, t, c) && s' == Next(s, t, c)
  }

  const INIT := State(EMPTY_ENGINE, [])

  ghost predicate StepAt(r: seq<State>, i: nat)
    requires i + 1 < |r|
  {
    Step(r[i], r[i + 1])
  }

  /** A run: from the fresh engine, any interleaving, stuttering allowed. */
  ghost predicate IsRun(r: seq<State>) {
    && |r| > 0
    && r[0] == INIT
    && forall i: nat :: i + 1 < |r| ==> StepAt(r, i)
  }
}
