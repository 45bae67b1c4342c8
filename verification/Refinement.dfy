/** Every interleaving of the mutex-level protocol is one of the coarse protocol:
    each fine step is either invisible or exactly one coarse step of the same
    thread. */
module Refinement {
  import opened Text
  import opened EngineState
  import C = Coarse
  import CI = CoarseInvariant
  import opened Fine

  /** The program point of the thread inside engine_mutex; User if there is none. */
  function Mid(s: State): Pc {
    match s.engineMutex
    case Some(t) => if t < |s.threads| then s.threads[t].at else User
    case None => User
  }

  /** The engine as seen from outside, given the point reached by the thread that
      is inside engine_mutex. An object being published counts as published; a
      function whose new procedure is written counts as rebound; a module counts
      as installed once the previous one has been let go. */
  function AbsEngine(e: Engine, mid: Pc): Engine {
    match mid
    case Making(n, m) => (match m case MakePublish(f) => e.(funcs := e.funcs[n := f]) case _ => e)
    case Rebinding(f, _, _, r) => (match r case RebindWeak(g) => SetWeak(e, f, Some(g)) case _ => e)
    case Installing(_, i) =>
      (match i
       case InstallRelease(prev) => WithoutLast(e, prev)
       case InstallCount => e.(count := e.count + 1)
       case _ => e)
    case _ => e
  }

  /** The engine without its newest generation. */
  function WithoutLast(e: Engine, prev: Option<Gen>): Engine {
    if |e.gens| > 0 && |e.strong| == |e.torn| == |e.gens| then
      var n := |e.gens| - 1;
      e.(gens := e.gens[..n], strong := e.strong[..n], torn := e.torn[..n], current := prev)
    else e
  }

  /** Completed sections have left the engine as far as an observer can tell. */
  function AbsPc(at: Pc): C.Pc {
    match at
    case Making(n, m) => if m.MakeLock? || m.MakeIn? then C.MakeFunc(n) else C.User
    case Trying(f, k, b, p) =>
      if p.TryWon? then C.User else if p.TryLost? then C.Rebinding(f, k, b) else C.Try(f, k, b)
    case Rebinding(f, k, b, r) =>
      (match r
       case RebindWeak(_) => C.Try(f, k, b)
       case RebindFuncOut => C.Try(f, k, b)
       case RebindOut => C.Try(f, k, b)
       case RebindMissOut => C.User
       case _ => C.Rebinding(f, k, b))
    case Loading => C.Loading
    case Installing(table, i) => if i.InstallCount? || i.InstallOut? then C.User else C.Installing(table)
    case Asking(q) => if q.InfoOut? then C.User else C.Asking
    case User => C.User
  }

  function AbsThread(th: Thread): C.Thread<C.Pc> {
    C.Thread(AbsPc(th.at), th.calls, th.ret)
  }

  function AbsThreads(threads: seq<Thread>): (r: seq<C.Thread<C.Pc>>)
    ensures |r| == |threads|
    ensures forall t :: 0 <= t < |threads| ==> r[t] == AbsThread(threads[t])
  {
    seq(|threads|, t requires 0 <= t < |threads| => AbsThread(threads[t]))
  }

  function Abs(s: State): C.State {
    C.State(AbsEngine(s.e, Mid(s)), AbsThreads(s.threads))
  }

  // ---- The invariant of the fine protocol ----

  /** Each mutex is owned by a thread that is at a point where it holds it, and
      every thread at such a point owns the mutex. */
  ghost predicate LocksOk(s: State) {
    && |s.funcMutex| == |s.e.objs|
    && EngineLockOk(s.engineMutex, s.threads)
    && (forall f :: 0 <= f < |s.funcMutex| ==> FuncLockOk(f, s.funcMutex[f], s.threads))
    && (forall t :: 0 <= t < |s.threads| && FuncHeld(s.threads[t].at).Some? ==>
          FuncHeld(s.threads[t].at).value < |s.funcMutex|)
  }

  ghost predicate EngineLockOk(owner: Option<nat>, threads: seq<Thread>) {
    && (owner.Some? ==> owner.value < |threads| && HoldsEngine(threads[owner.value].at))
    && (forall t :: 0 <= t < |threads| && HoldsEngine(threads[t].at) ==> owner == Some(t))
  }

  ghost predicate FuncLockOk(f: nat, owner: Option<nat>, threads: seq<Thread>) {
    && (owner.Some? ==> owner.value < |threads| && FuncHeld(threads[owner.value].at) == Some(f))
    && (forall t :: 0 <= t < |threads| && FuncHeld(threads[t].at) == Some(f) ==> owner == Some(t))
  }

  /** What a thread knows while it is between two steps of a locked region. */
  predicate Knows(e: Engine, at: Pc) {
    match at
    case Making(n, m) =>
      m.MakePublish? ==> m.f < |e.objs| && e.objs[m.f].name == n && n !in e.funcs && m.f + 1 == |e.objs|
    case Trying(f, _, _, p) => f < |e.objs| && (p.TryPromote? ==> e.objs[f].proc == p.proc)
    case Rebinding(f, _, _, r) =>
      f < |e.objs| &&
      (match r
       case RebindFuncLock(g) => RebindHits(e, f) && e.current == Some(g)
       case RebindProc(g) => RebindHits(e, f) && e.current == Some(g)
       case RebindWeak(g) =>
         && RebindHits(e, f) && e.current == Some(g) && e.objs[f].proc == EntryIn(e, f, g)
         && Has(e, e.objs[f].weak, e.objs[f].name)
       case _ => true)
    case Installing(table, i) =>
      (match i
       case InstallRelease(prev) => JustSwapped(e, table, prev)
       case InstallCount => e.count + 1 == |e.gens|
       case _ => true)
    case _ => true
  }

  predicate JustSwapped(e: Engine, table: Table, prev: Option<Gen>) {
    && |e.strong| == |e.torn| == |e.gens| == e.count + 1
    && e.gens[|e.gens| - 1] == table
    && e.current == Some(|e.gens| - 1)
    && prev == (if |e.gens| == 1 then None else Some(|e.gens| - 2))
    && e.strong[|e.gens| - 1] == 1
    && e.torn[|e.gens| - 1] == 0
  }

  ghost predicate Inv(s: State) {
    && LocksOk(s)
    && (forall t :: 0 <= t < |s.threads| ==> Knows(s.e, s.threads[t].at))
    && CI.Inv(Abs(s))
  }

  /** Whether the step is the one at which its critical section takes effect. */
  predicate TakesEffect(e: Engine, at: Pc) {
    match at
    case User => true
    case Loading => true
    case Making(_, m) => m.MakeIn?
    case Trying(_, _, _, p) => p.TryPromote?
    case Rebinding(f, _, _, r) => (r.RebindIn? && !RebindHits(e, f)) || r.RebindProc?
    case Installing(_, i) => i.InstallRelease?
    case Asking(q) => q.InfoIn?
  }

  /** s' is what the fine step must look like from outside. */
  predicate Matches(s: State, t: nat, c: C.Choice, s': State)
    requires t < |s.threads|
  {
    if TakesEffect(s.e, s.threads[t].at) then C.Enabled(Abs(s), t, c) && Abs(s') == C.Next(Abs(s), t, c)
    else Abs(s') == Abs(s)
  }
}
