/** What the mutex-level protocol guarantees for every interleaving: the coarse
    laws carried down through the refinement, and the laws about the mutexes. */
module FineLaws {
  import opened Text
  import opened EngineState
  import C = Coarse
  import CI = CoarseInvariant
  import L = Laws
  import BL = BindingLaw
  import opened Fine
  import opened Refinement
  import opened FineInvariant
  import opened FineSteps

  // ---- Laws carried down ----

  /** In every reachable state of the mutex-level protocol, each procedure being
      executed, at any depth of nesting, is the entry for its function's name in
      the table of a module whose use count is positive and whose destructor has
      not run. */
  lemma RunningCallsAreSafe(r: seq<State>, i: nat, t: nat, call: C.Call)
    requires IsRun(r) && i < |r| && t < |r[i].threads|
    requires L.OnStack(call, r[i].threads[t].calls)
    ensures L.SafeCall(r[i].e, call)
  {
    hide CI.Inv, IsRun, LocksOk;
    RunRefines(r);
    L.RunningCallsAreSafe(AbsRun(r), i, t, call);
    FineRunInv(r, i);
    SafeFromOutside(r[i], call);
  }

  /** A call that is safe as seen from outside is safe. */
  lemma SafeFromOutside(s: State, call: C.Call)
    requires Inv(s) && L.SafeCall(Abs(s).e, call)
    ensures L.SafeCall(s.e, call)
  {
    hide CI.Inv;
    CountsShape(s);
    CountsShowThrough(s, call.gen);
    AliveLooksTheSame(s, call.gen);
    TablesArePrefix(s.e, Mid(s));
    ImageKeepsKinds(s.e, Mid(s), call.f);
    ImageKeepsNames(s.e, Mid(s), call.f);
  }

  lemma ImageKeepsNames(e: Engine, mid: Pc, f: nat)
    ensures |AbsEngine(e, mid).objs| == |e.objs|
    ensures f < |e.objs| ==> AbsEngine(e, mid).objs[f].name == e.objs[f].name
  {
  }

  /** Version law (a), on the fields themselves: the weak pointer of an ordinary
      function, as seen by whoever may look at it, never moves to an older
      generation. */
  lemma BindingNeverGoesBack(r: seq<State>, i: nat, j: nat, f: nat)
    requires IsRun(r) && i <= j < |r|
    requires f < |r[i].funcMutex| && r[i].funcMutex[f] == None
    requires f < |r[j].funcMutex| && r[j].funcMutex[f] == None
    requires f < |r[i].e.objs| && r[i].e.objs[f].spec == Ordinary
    ensures f < |r[j].e.objs|
    ensures r[i].e.objs[f].weak.Some? && r[j].e.objs[f].weak.Some?
    ensures r[i].e.objs[f].weak.value <= r[j].e.objs[f].weak.value
  {
    RunRefines(r);
    L.RunExtends(AbsRun(r), i, j);
    FineRunInv(r, i);
    FineRunInv(r, j);
    FreeFunctionIsItsImage(r[i], f);
    FreeFunctionIsItsImage(r[j], f);
    assert ObjOk(Abs(r[i]).e, Abs(r[i]).e.objs[f]);
  }

  /** Version law (c): after a state in which no superseded module is alive, only
      procedures of the generation current then, or of later ones, ever run. */
  lemma AfterDrainOnlyNewer(r: seq<State>, i: nat, j: nat, t: nat, call: C.Call)
    requires IsRun(r) && i <= j < |r| && L.Drained(Abs(r[i]).e)
    requires t < |r[j].threads| && L.OnStack(call, r[j].threads[t].calls)
    ensures call.gen + 1 >= |Abs(r[i]).e.gens|
  {
    RunRefines(r);
    L.AfterDrainOnlyNewer(AbsRun(r), i, j, t, call);
  }

  /** Version law (b), on the fields themselves: a promotion that yields a module
      other than the engine's current one finds it either on some stack, or in the
      hands of an install that has not let it go yet. */
  lemma OldVersionNeedsCompany(r: seq<State>, i: nat, t: nat, g: Gen) returns (u: nat)
    requires IsRun(r) && i < |r| && t < |r[i].threads|
    requires r[i].threads[t].at.Trying? && r[i].threads[t].at.p.TryPromote?
    requires Promoted(r[i].e, r[i].threads[t].at.f) == Some(g) && r[i].e.current != Some(g)
    ensures u < |r[i].threads|
    ensures CI.Refs(r[i].threads[u].calls, g) > 0 || (Releasing(Mid(r[i])) && Mid(r[i]).i.prev == Some(g))
  {
    hide CI.Inv, LocksOk, Knows, IsRun;
    var s := r[i];
    FineRunInv(r, i);
    PromotionLooksTheSame(s, t, s.threads[t].at.f);
    if Abs(s).e.current == Some(g) {
      u := t;
    } else {
      u := L.SupersededHasHolder(Abs(s), g);
    }
  }

  lemma {:induction false} SameRefs(threads: seq<Thread>, a: seq<C.Thread<C.Pc>>, g: Gen)
    requires |threads| == |a| && forall t :: 0 <= t < |a| ==> a[t].calls == threads[t].calls
    ensures CI.RefsAll(threads, g) == CI.RefsAll(a, g)
  {
    if a != [] {
      SameRefs(threads[1..], a[1..], g);
    }
  }

  /** The module that an install has exchanged and not let go yet. */
  function Unreleased(s: State): Option<Gen> {
    if Releasing(Mid(s)) then Mid(s).i.prev else None
  }

  /** Reference accounting, on the fields themselves: the use count of a module is
      one if it is the engine's current one, one if an install has yet to let it go,
      and one for each reference on a stack. It is torn down at most once, exactly
      when that sum is zero. */
  lemma TornExactlyWhenUnheld(r: seq<State>, i: nat, g: Gen)
    requires IsRun(r) && i < |r| && g < |r[i].e.gens|
    ensures |r[i].e.strong| == |r[i].e.torn| == |r[i].e.gens|
    ensures r[i].e.strong[g] ==
      (if r[i].e.current == Some(g) then 1 else 0) + (if Unreleased(r[i]) == Some(g) then 1 else 0)
      + CI.RefsAll(r[i].threads, g)
    ensures r[i].e.torn[g] == if r[i].e.strong[g] == 0 then 1 else 0
  {
    hide IsRun, LocksOk;
    var s := r[i];
    FineRunInv(r, i);
    CountsShape(s);
    SameRefs(s.threads, Abs(s).threads, g);
    CurrentFromOutside(s, g);
    if g >= |Abs(s).e.gens| {
      CI.NobodyHoldsTheFuture(Abs(s), g);
    } else {
      ImageAccounts(Abs(s), g);
    }
  }

  lemma ImageAccounts(a: C.State, g: Gen)
    requires CI.Inv(a) && g < |a.e.gens|
    ensures g < |a.e.strong| && g < |a.e.torn|
    ensures a.e.strong[g] == (if a.e.current == Some(g) then 1 else 0) + CI.RefsAll(a.threads, g)
    ensures a.e.torn[g] == if a.e.strong[g] == 0 then 1 else 0
  {
  }

  /** The counters and the current module as seen from outside. */
  lemma CurrentFromOutside(s: State, g: Gen)
    requires Inv(s) && g < |s.e.gens|
    ensures |s.e.strong| == |s.e.torn| == |s.e.gens|
    ensures if g < |Abs(s).e.gens| then
        && g < |Abs(s).e.strong| && Abs(s).e.strong[g] == s.e.strong[g]
        && g < |Abs(s).e.torn| && Abs(s).e.torn[g] == s.e.torn[g]
        && (Abs(s).e.current == Some(g) <==> s.e.current == Some(g) || Unreleased(s) == Some(g))
        && !(s.e.current == Some(g) && Unreleased(s) == Some(g))
      else
        && s.e.strong[g] == 1 && s.e.torn[g] == 0
        && s.e.current == Some(g) && Unreleased(s) != Some(g)
  {
    hide CI.Inv, LocksOk;
    CountsShape(s);
    assert Knows(s.e, Mid(s));
  }

  /** The counters of a visible generation are what they seem from outside; one
      that is not visible yet has not been torn down. */
  lemma CountsShowThrough(s: State, g: Gen)
    requires Inv(s) && g < |s.e.gens|
    ensures |s.e.torn| == |s.e.gens|
    ensures if g < |Abs(s).e.gens| then g < |Abs(s).e.torn| && Abs(s).e.torn[g] == s.e.torn[g] else s.e.torn[g] == 0
    ensures g < |Abs(s).e.gens| ==> (s.e.current == Some(g) ==> Abs(s).e.current == Some(g))
  {
    hide CI.Inv;
    CountsShape(s);
    assert Knows(s.e, Mid(s));
  }

  // ---- The two fields of a function object agree whenever its mutex is free ----

  lemma FreeFunctionIsItsImage(s: State, f: nat)
    requires LocksOk(s) && f < |s.funcMutex| && s.funcMutex[f] == None
    ensures f < |s.e.objs| && f < |Abs(s).e.objs| && Abs(s).e.objs[f] == s.e.objs[f]
    ensures AbsEngine(s.e, Mid(s)).objs[f] == s.e.objs[f]
  {
    assert FuncLockOk(f, s.funcMutex[f], s.threads);
    if Mid(s).Rebinding? && Mid(s).r.RebindWeak? {
      assert Mid(s).f != f;
    }
  }

  /** Whenever the func_mutex of an ordinary function is free, exec_proc is the
      entry for its name in the module that weak_module_ptr designates, dead or
      alive. */
  lemma FreeFunctionIsBound(r: seq<State>, i: nat, f: nat)
    requires IsRun(r) && i < |r|
    requires f < |r[i].funcMutex| && r[i].funcMutex[f] == None
    ensures f < |r[i].e.objs|
    ensures r[i].e.objs[f].spec == Ordinary ==> Bound(r[i].e, r[i].e.objs[f])
  {
    FineRunInv(r, i);
    FreeFunctionIsItsImage(r[i], f);
    assert ObjOk(Abs(r[i]).e, Abs(r[i]).e.objs[f]);
    TablesArePrefix(r[i].e, Mid(r[i]));
  }

  /** What is visible of the tables from outside are the tables themselves. */
  lemma TablesArePrefix(e: Engine, mid: Pc)
    ensures AbsEngine(e, mid).gens <= e.gens
  {
  }

  /** Between the two writes of rebindFunction the fields agree exactly if the
      old module and the new one have the same procedure under that name. */
  lemma BetweenTheWrites(r: seq<State>, i: nat, t: nat)
    requires IsRun(r) && i < |r| && t < |r[i].threads|
    requires r[i].threads[t].at.Rebinding? && r[i].threads[t].at.r.RebindWeak?
    ensures var s := r[i]; var f := s.threads[t].at.f;
      && f < |s.e.objs| && f < |s.funcMutex| && s.funcMutex[f] == Some(t)
      && Has(s.e, s.e.objs[f].weak, s.e.objs[f].name) && Has(s.e, s.e.current, s.e.objs[f].name)
      && (Bound(s.e, s.e.objs[f]) <==>
            EntryIn(s.e, f, s.e.objs[f].weak.value) == EntryIn(s.e, f, s.e.current.value))
  {
    FineRunInv(r, i);
    var s := r[i];
    assert Knows(s.e, s.threads[t].at);
    assert FuncLockOk(s.threads[t].at.f, s.funcMutex[s.threads[t].at.f], s.threads);
    hide CI.Inv;
  }

  // ---- Registry ----

  lemma NextGrowsRegistry(s: State, t: nat, c: C.Choice)
    requires Inv(s) && Enabled(s, t, c)
    ensures L.RegistryGrows(s.e, Next(s, t, c).e)
  {
    hide CI.Inv, LocksOk;
    assert Knows(s.e, s.threads[t].at);
    match s.threads[t].at {
      case Installing(table, i) => InstallGrowsRegistry(s, t);
      case _ =>
    }
  }

  lemma InstallGrowsRegistry(s: State, t: nat)
    requires Inv(s) && t < |s.threads| && s.threads[t].at.Installing?
    ensures L.RegistryGrows(s.e, NextInstall(s, t, s.threads[t].at.table, s.threads[t].at.i).e)
  {
    hide CI.Inv, EngineOk;
    if s.threads[t].at.i.InstallIn? {
      assert Abs(s).e == s.e;
      ImageIsOk(s);
      CurrentIsNewest(s.e);
    }
  }

  lemma CurrentIsNewest(e: Engine)
    requires EngineOk(e)
    ensures e.current.Some? ==> e.current.value < |e.gens|
  {
  }

  /** Over every run of the mutex-level protocol, too, names are never removed or
      remapped, objects keep their name and kind, and a module is never unset. */
  lemma {:induction false} RunGrowsRegistry(r: seq<State>, i: nat, j: nat)
    requires IsRun(r) && i <= j < |r|
    ensures L.RegistryGrows(r[i].e, r[j].e)
    decreases j
  {
    hide Inv, Next;
    if i < j {
      RunGrowsRegistry(r, i, j - 1);
      FineRunInv(r, j - 1);
      assert StepAt(r, j - 1);
      if r[j] != Spawn(r[j - 1]) {
        var t: nat, c :| Enabled(r[j - 1], t, c) && r[j] == Next(r[j - 1], t, c);
        NextGrowsRegistry(r[j - 1], t, c);
      }
    }
  }

  /** Whenever engine_mutex is free, the count is the number of installs, objects are
      registered under their own names, and special names shadow module tables. */
  lemma FreeEngineIsConsistent(r: seq<State>, i: nat)
    requires IsRun(r) && i < |r| && r[i].engineMutex == None
    ensures r[i].e.count == |r[i].e.gens| && RegistryOk(r[i].e)
    ensures forall f :: 0 <= f < |r[i].e.objs| ==> r[i].e.objs[f].spec == SpecOf(r[i].e.objs[f].name)
  {
    RunRefines(r);
    L.RegistryIsConsistent(AbsRun(r), i);
    assert Abs(r[i]).e == r[i].e;
  }

  // ---- Making and calling a function, by its name ----

  /** Inside engine_mutex, thread t decides what making the name n yields, in the
      step after r[i]. */
  ghost predicate Makes(r: seq<State>, i: nat, t: nat, n: Name, res: Option<nat>) {
    && i + 1 < |r| && t < |r[i].threads| && t < |r[i + 1].threads|
    && r[i].threads[t].at == Making(n, MakeIn) && r[i + 1].threads[t] != r[i].threads[t]
    && r[i + 1].threads[t].ret == C.Made(n, res)
  }

  lemma MakeMovesOn(r: seq<State>, i: nat, t: nat, n: Name)
    requires IsRun(r) && i + 1 < |r| && t < |r[i].threads| && t < |r[i + 1].threads|
    requires r[i].threads[t].at == Making(n, MakeIn) && r[i + 1].threads[t] != r[i].threads[t]
    ensures r[i + 1].threads[t].at.Making? && r[i + 1].threads[t].at.name == n
    ensures r[i + 1].threads[t].at.m.MakePublish? || r[i + 1].threads[t].at.m.MakeOut?
  {
    assert StepAt(r, i);
    var u: nat, c :| Enabled(r[i], u, c) && r[i + 1] == Next(r[i], u, c);
    if u != t {
      OthersStay(r[i], u, c, t);
    }
  }

  /** Once a make of a name has yielded a function object, every later make of that
      name, by any thread, yields the same object. */
  lemma MadeForever(r: seq<State>, i: nat, j: nat, t: nat, u: nat, n: Name, f: nat)
    requires IsRun(r) && Makes(r, i, t, n, Some(f)) && i < j && j + 1 < |r|
    requires u < |r[j].threads| && u < |r[j + 1].threads|
    requires r[j].threads[u].at == Making(n, MakeIn) && r[j + 1].threads[u] != r[j].threads[u]
    ensures Makes(r, j, u, n, Some(f))
  {
    hide Inv, IsRun, Step, AbsEngine;
    RunRefines(r);
    MakeMovesOn(r, i, t, n);
    MakeMovesOn(r, j, u, n);
    L.MadeForever(AbsRun(r), i, j, t, u, n, f);
  }

  /** A call goes where the name of the function says. */
  lemma CallGoesByName(r: seq<State>, i: nat, t: nat, f: nat)
    requires IsRun(r) && i < |r| && Enabled(r[i], t, C.StartCall(f))
    ensures var n := r[i].e.objs[f].name;
      var at := Next(r[i], t, C.StartCall(f)).threads[t].at;
      && (SameIgnoringCase(n, "pse_reload_module") ==> at == Loading)
      && (SameIgnoringCase(n, "pse_get_module_info") ==> at == Asking(InfoLock))
      && (!SameIgnoringCase(n, "pse_reload_module") && !SameIgnoringCase(n, "pse_get_module_info") ==>
            at == Trying(f, 0, Installs(r[i]), TryLock))
  {
    hide CI.Inv, LocksOk, Knows, IsRun, SameIgnoringCase, Installs;
    FineRunInv(r, i);
    ImageIsOk(r[i]);
    ImageKeepsKinds(r[i].e, Mid(r[i]), f);
    ImageKeepsNames(r[i].e, Mid(r[i]), f);
    assert ObjOk(Abs(r[i]).e, Abs(r[i]).e.objs[f]);
    L.SpecByName(r[i].e.objs[f].name);
  }

  /** User code, at any depth of nesting, may make functions, call any that is
      registered, and reload. */
  lemma UserMayReenter(r: seq<State>, i: nat, t: nat, n: Name)
    requires IsRun(r) && i < |r| && t < |r[i].threads| && r[i].threads[t].at == User
    ensures Enabled(r[i], t, C.StartMake(n)) && Enabled(r[i], t, C.StartReload)
    ensures n in r[i].e.funcs && r[i].engineMutex == None ==> Enabled(r[i], t, C.StartCall(r[i].e.funcs[n]))
    ensures r[i].threads[t].calls != C.NoCalls ==> Enabled(r[i], t, C.Return)
    ensures Next(r[i], t, C.StartMake(n)).threads[t] == r[i].threads[t].(at := Making(n, MakeLock))
    ensures Next(r[i], t, C.StartReload).threads[t] == r[i].threads[t].(at := Loading)
    ensures r[i].threads[t].calls != C.NoCalls ==>
      var th, calls := Next(r[i], t, C.Return).threads[t], r[i].threads[t].calls;
      th.at == User && th.calls == calls.below && th.ret == C.Ran(calls.call.f)
  {
    if n in r[i].e.funcs && r[i].engineMutex == None {
      FreeEngineIsConsistent(r, i);
    }
  }

  /** Loading may fail, or yield any table, which is then installed. */
  lemma LoadingIsFree(r: seq<State>, i: nat, t: nat, table: Table)
    requires IsRun(r) && i < |r| && t < |r[i].threads| && r[i].threads[t].at == Loading
    ensures Enabled(r[i], t, C.LoadFails) && Enabled(r[i], t, C.LoadGives(table))
    ensures Next(r[i], t, C.LoadGives(table)).threads[t] == r[i].threads[t].(at := Installing(table, InstallLock))
    ensures Next(r[i], t, C.LoadFails).threads[t] == r[i].threads[t].(at := User, ret := C.Reloaded(false))
    ensures Next(r[i], t, C.LoadFails).e == r[i].e
  {
  }

  // ---- Version law for every interleaving ----

  /** A function that is settled is never promoted again to a module older than the
      one current then, whatever the other threads do. */
  lemma NeverBehindAgain(r: seq<State>, i: nat, j: nat, t: nat, g: Gen)
    requires IsRun(r) && i <= j < |r| && t < |r[j].threads|
    requires r[j].threads[t].at.Trying? && r[j].threads[t].at.p.TryPromote?
    requires BL.Settled(Abs(r[i]), r[j].threads[t].at.f) && Promoted(r[j].e, r[j].threads[t].at.f) == Some(g)
    ensures g + 1 >= |Abs(r[i]).e.gens|
  {
    hide Inv, Abs, IsRun;
    RunRefines(r);
    FineRunInv(r, j);
    PromotionLooksTheSame(r[j], t, r[j].threads[t].at.f);
    BL.NeverBehindAgain(AbsRun(r), i, j, r[j].threads[t].at.f, g);
  }

  // ---- Deadlock freedom ----

  /** Thread t is blocked on a mutex that thread u owns. */
  predicate WaitsFor(s: State, t: nat, u: nat) {
    t < |s.threads| &&
    var at := s.threads[t].at;
    || (WantsEngine(at) && s.engineMutex == Some(u))
    || (match FuncWanted(at)
        case Some(f) => f < |s.funcMutex| && s.funcMutex[f] == Some(u)
        case None => false)
  }

  /** engine_mutex is always taken before a func_mutex. */
  function Rank(at: Pc): nat {
    if WantsEngine(at) then 2 else if FuncWanted(at).Some? then 1 else 0
  }

  lemma WaitingDescends(s: State, t: nat, u: nat)
    requires Inv(s) && WaitsFor(s, t, u)
    ensures u < |s.threads| && Rank(s.threads[u].at) < Rank(s.threads[t].at)
  {
    match FuncWanted(s.threads[t].at) {
      case Some(f) => if f < |s.funcMutex| { assert FuncLockOk(f, s.funcMutex[f], s.threads); }
      case None =>
    }
  }

  predicate IsWaitPath(s: State, p: seq<nat>) {
    |p| > 0 && forall i :: 0 <= i < |p| - 1 ==> WaitsFor(s, p[i], p[i + 1])
  }

  lemma {:induction false} WaitPathDescends(s: State, p: seq<nat>)
    requires Inv(s) && IsWaitPath(s, p) && |p| > 1
    ensures p[0] < |s.threads| && p[|p| - 1] < |s.threads|
    ensures Rank(s.threads[p[|p| - 1]].at) < Rank(s.threads[p[0]].at)
  {
    assert WaitsFor(s, p[0], p[0 + 1]);
    WaitingDescends(s, p[0], p[1]);
    if |p| > 2 {
      var q := p[1..];
      forall i | 0 <= i < |q| - 1 ensures WaitsFor(s, q[i], q[i + 1]) {
        assert WaitsFor(s, p[i + 1], p[i + 1 + 1]);
      }
      WaitPathDescends(s, q);
    }
  }

  /** Deadlock freedom: in no reachable state is there a cycle of threads each
      waiting for a mutex the next one owns. */
  lemma NoWaitCycle(r: seq<State>, i: nat, p: seq<nat>)
    requires IsRun(r) && i < |r| && |p| > 1 && IsWaitPath(r[i], p)
    ensures p[0] != p[|p| - 1]
  {
    FineRunInv(r, i);
    WaitPathDescends(r[i], p);
  }

  predicate InEngine(at: Pc) {
    !at.User? && !at.Loading?
  }

  lemma BlockedHasOwner(s: State, t: nat) returns (u: nat)
    requires Inv(s) && t < |s.threads| && InEngine(s.threads[t].at) && !Enabled(s, t, C.Go)
    ensures WaitsFor(s, t, u)
  {
    var at := s.threads[t].at;
    if WantsEngine(at) && s.engineMutex != None {
      u := s.engineMutex.value;
    } else {
      var f := FuncWanted(at).value;
      assert FuncLockOk(f, s.funcMutex[f], s.threads);
      u := s.funcMutex[f].value;
    }
  }

  /** Progress: whenever some thread is inside the engine, it or a thread it
      waits for, directly or through one more, can take a step. */
  lemma Progress(r: seq<State>, i: nat, t: nat) returns (p: seq<nat>)
    requires IsRun(r) && i < |r| && t < |r[i].threads| && InEngine(r[i].threads[t].at)
    ensures 1 <= |p| <= 3 && p[0] == t && IsWaitPath(r[i], p)
    ensures Enabled(r[i], p[|p| - 1], C.Go)
  {
    var s := r[i];
    FineRunInv(r, i);
    if Enabled(s, t, C.Go) {
      return [t];
    }
    var u := BlockedHasOwner(s, t);
    WaitingDescends(s, t, u);
    OwnersAreInEngine(s, t, u);
    if Enabled(s, u, C.Go) {
      return [t, u];
    }
    var v := BlockedHasOwner(s, u);
    WaitingDescends(s, u, v);
    OwnersAreInEngine(s, u, v);
    if !Enabled(s, v, C.Go) {
      var w := BlockedHasOwner(s, v);
      WaitingDescends(s, v, w);
    }
    return [t, u, v];
  }

  lemma OwnersAreInEngine(s: State, t: nat, u: nat)
    requires Inv(s) && WaitsFor(s, t, u)
    ensures u < |s.threads| && InEngine(s.threads[u].at)
  {
    match FuncWanted(s.threads[t].at) {
      case Some(f) => if f < |s.funcMutex| { assert FuncLockOk(f, s.funcMutex[f], s.threads); }
      case None =>
    }
  }

  /** No thread owns a mutex of the engine while it is in user code, so a
      procedure may call back into the engine. */
  lemma UserCodeHoldsNoMutex(r: seq<State>, i: nat, t: nat)
    requires IsRun(r) && i < |r| && t < |r[i].threads|
    requires r[i].threads[t].at.User? || r[i].threads[t].at.Loading?
    ensures r[i].engineMutex != Some(t)
    ensures forall f :: 0 <= f < |r[i].funcMutex| ==> r[i].funcMutex[f] != Some(t)
  {
    FineRunInv(r, i);
    forall f | 0 <= f < |r[i].funcMutex| ensures r[i].funcMutex[f] != Some(t) {
      assert FuncLockOk(f, r[i].funcMutex[f], r[i].threads);
    }
  }

  // ---- Retry bound ----

  predicate InCall(s: State, t: nat) {
    t < |s.threads| && (AbsPc(s.threads[t].at).Try? || AbsPc(s.threads[t].at).Rebinding?)
  }

  /** The step from r[m] to r[m + 1] is a call of weak_module_ptr.lock() by
      thread t. */
  predicate Promotes(r: seq<State>, t: nat, m: nat)
    requires m + 1 < |r|
  {
    && t < |r[m].threads| && t < |r[m + 1].threads|
    && r[m].threads[t].at.Trying? && r[m].threads[t].at.p.TryPromote?
    && r[m + 1].threads[t].at != r[m].threads[t].at
  }

  function Promotions(r: seq<State>, t: nat, i: nat, j: nat): nat
    requires i <= j < |r|
    decreases j
  {
    if i == j then 0
    else Promotions(r, t, i, j - 1) + (if Promotes(r, t, j - 1) then 1 else 0)
  }

  /** A thread's program point changes its image from Try only by promoting. */
  lemma OwnMove(s: State, t: nat, c: C.Choice)
    requires Enabled(s, t, c)
    ensures |Next(s, t, c).threads| == |s.threads|
    ensures var at, at' := s.threads[t].at, Next(s, t, c).threads[t].at;
      at.Trying? && at.p.TryPromote? && at' != at <==> AbsPc(at).Try? && AbsPc(at') != AbsPc(at)
  {
    match s.threads[t].at {
      case Trying(f, k, b, p) => assert Next(s, t, c) == NextTry(s, t, f, k, b, p);
      case Rebinding(f, k, b, r) => assert Next(s, t, c) == NextRebind(s, t, f, k, b, r);
      case _ =>
    }
  }

  lemma OthersStay(s: State, u: nat, c: C.Choice, t: nat)
    requires Enabled(s, u, c) && t < |s.threads| && t != u
    ensures |Next(s, u, c).threads| == |s.threads| && Next(s, u, c).threads[t] == s.threads[t]
  {
  }

  lemma ThreadMove(s: State, s': State, t: nat)
    requires Step(s, s') && t < |s.threads|
    ensures t < |s'.threads|
    ensures var at, at' := s.threads[t].at, s'.threads[t].at;
      at.Trying? && at.p.TryPromote? && at' != at <==> AbsPc(at).Try? && AbsPc(at') != AbsPc(at)
  {
    hide AbsPc, Next, Enabled;
    if s' == Spawn(s) {
      assert s'.threads[t] == s.threads[t];
    } else {
      var u: nat, c :| Enabled(s, u, c) && s' == Next(s, u, c);
      if u == t {
        OwnMove(s, t, c);
      } else {
        OthersStay(s, u, c, t);
      }
    }
  }

  lemma PromotionIsAttempt(r: seq<State>, a: seq<C.State>, t: nat, m: nat)
    requires m + 1 < |r| == |a| && a[m] == Abs(r[m]) && a[m + 1] == Abs(r[m + 1])
    requires StepAt(r, m)
    ensures Promotes(r, t, m) <==> L.Attempt(a, t, m)
  {
    if t < |r[m].threads| {
      ThreadMove(r[m], r[m + 1], t);
    }
  }

  lemma {:induction false} SameCount(r: seq<State>, a: seq<C.State>, t: nat, i: nat, j: nat)
    requires i <= j < |r| == |a|
    requires forall m :: i <= m < j ==> (Promotes(r, t, m) <==> L.Attempt(a, t, m))
    ensures Promotions(r, t, i, j) == L.Attempts(a, t, i, j)
    decreases j
  {
    if i < j {
      SameCount(r, a, t, i, j - 1);
    }
  }

  /** One call of execute promotes at most 2 + R times, R being the number of
      installs that take effect during the call: r[i] is the last state before the
      call, r[j] one in which it has not got its module yet. */
  lemma RetryBound(r: seq<State>, t: nat, i: nat, j: nat)
    requires IsRun(r) && i < j && j + 1 < |r|
    requires t < |r[i].threads| && AbsPc(r[i].threads[t].at).User?
    requires forall m :: i < m <= j ==> InCall(r[m], t)
    ensures |Abs(r[i]).e.gens| <= |Abs(r[j]).e.gens|
    ensures Promotions(r, t, i, j + 1) <= 2 + (|Abs(r[j]).e.gens| - |Abs(r[i]).e.gens|)
  {
    var a := AbsRun(r);
    RunRefines(r);
    forall m | i <= m < j + 1 ensures Promotes(r, t, m) <==> L.Attempt(a, t, m) {
      assert StepAt(r, m);
      PromotionIsAttempt(r, a, t, m);
    }
    SameCount(r, a, t, i, j + 1);
    forall m | i < m <= j ensures L.InCall(a[m], t) {
      assert InCall(r[m], t);
    }
    L.RetryBound(a, t, i, j);
  }

  /** With no install since the call began, the promotion after a rebind yields the
      current module. */
  lemma QuietCallSucceeds(s: State, t: nat)
    requires Inv(s) && t < |s.threads| && s.threads[t].at.Trying? && s.threads[t].at.p.TryPromote?
    requires s.threads[t].at.b == Installs(s) && s.threads[t].at.k > 0
    ensures s.threads[t].at.k == 1
    ensures Promoted(s.e, s.threads[t].at.f).Some? && Promoted(s.e, s.threads[t].at.f) == Abs(s).e.current
  {
    hide CI.Inv, LocksOk, Knows;
    CountsShape(s);
    PromotionLooksTheSame(s, t, s.threads[t].at.f);
    L.QuietCallSucceeds(Abs(s), t);
  }
}
