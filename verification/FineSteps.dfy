/** Every step of the fine protocol, one program point at a time: it keeps the
    lock discipline and matches the coarse protocol. */
module FineSteps {
  import opened Text
  import opened EngineState
  import C = Coarse
  import CI = CoarseInvariant
  import opened Fine
  import opened Refinement
  import opened FineInvariant

  ghost predicate Good(s: State, t: nat, c: C.Choice, s': State) {
    && t < |s.threads|
    && Matches(s, t, c, s')
    && LocksOk(s')
    && forall u :: 0 <= u < |s'.threads| ==> Knows(s'.e, s'.threads[u].at)
  }

  /** A move that changes no engine field and no mutex held. */
  lemma PlainStep(s: State, t: nat, th: Thread)
    requires Inv(s) && t < |s.threads|
    requires HoldsEngine(th.at) == HoldsEngine(s.threads[t].at)
    requires FuncHeld(th.at) == FuncHeld(s.threads[t].at)
    requires Knows(s.e, th.at)
    requires HoldsEngine(th.at) ==> AbsEngine(s.e, th.at) == AbsEngine(s.e, s.threads[t].at)
    ensures var s' := Put(s, s.e, t, th);
      && LocksOk(s')
      && (forall u :: 0 <= u < |s'.threads| ==> Knows(s'.e, s'.threads[u].at))
      && Abs(s') == C.State(Abs(s).e, Abs(s).threads[t := AbsThread(th)])
  {
    hide CI.Inv;
    var s' := Put(s, s.e, t, th);
    forall f | 0 <= f < |s'.funcMutex|
      ensures s'.funcMutex[f] ==
        Owner(s.funcMutex[f], t, FuncHeld(s.threads[t].at) == Some(f), FuncHeld(th.at) == Some(f))
    {
      assert FuncLockOk(f, s.funcMutex[f], s.threads);
    }
    QuietStep(s, s', t, th);
  }

  /** An invisible step leaves the coarse thread where it is. */
  lemma Invisible(s: State, t: nat, th: Thread)
    requires t < |s.threads| && AbsThread(th) == AbsThread(s.threads[t])
    ensures Abs(s).threads[t := AbsThread(th)] == Abs(s).threads
  {
  }

  lemma ReturnStep(s: State, t: nat)
    requires Inv(s) && t < |s.threads| && s.threads[t].at.User? && s.threads[t].calls.Push?
    ensures Good(s, t, C.Return, NextUser(s, t, C.Return))
  {
    var th := s.threads[t];
    var g := th.calls.call.gen;
    assert CI.ThreadOk(Abs(s).e, Abs(s).threads[t]);
    CountStep(s, NextUser(s, t, C.Return), t, C.Thread(User, th.calls.below, C.Ran(th.calls.call.f)), g, false);
  }

  lemma ImageKeepsKinds(e: Engine, mid: Pc, f: nat)
    requires f < |e.objs|
    ensures f < |AbsEngine(e, mid).objs| && AbsEngine(e, mid).objs[f].spec == e.objs[f].spec
  {
  }

  lemma EntryMatches(s: State, f: nat)
    requires Inv(s) && f < |s.e.objs|
    ensures f < |Abs(s).e.objs| && AbsPc(Entry(s, f)) == C.Entry(Abs(s).e, f)
  {
    hide Inv, AbsEngine, Installs, AbsThreads;
    CountsShape(s);
    ImageKeepsKinds(s.e, Mid(s), f);
  }

  lemma PublishedExists(e: Engine, f: nat)
    requires Published(e, f)
    ensures f < |e.objs|
  {
  }

  lemma CallStep(s: State, t: nat, f: nat)
    requires Inv(s) && Enabled(s, t, C.StartCall(f)) && s.threads[t].at.User?
    ensures Good(s, t, C.StartCall(f), NextUser(s, t, C.StartCall(f)))
  {
    hide Inv, AbsEngine, Installs, LocksOk, Published;
    PublishedExists(s.e, f);
    var th := s.threads[t].(at := Entry(s, f));
    EntryMatches(s, f);
    assert Knows(s.e, th.at);
    PlainStep(s, t, th);
  }

  lemma UserStep(s: State, t: nat, c: C.Choice)
    requires Inv(s) && Enabled(s, t, c) && s.threads[t].at.User?
    ensures Good(s, t, c, NextUser(s, t, c))
  {
    hide Inv, AbsEngine, Installs, LocksOk, Published;
    var th := s.threads[t];
    match c {
      case Return => ReturnStep(s, t);
      case StartCall(f) =>
        assert f < |s.e.objs| by {
          PublishedExists(s.e, f);
        }
        CallStep(s, t, f);
      case StartMake(n) => PlainStep(s, t, th.(at := Making(n, MakeLock)));
      case StartReload => PlainStep(s, t, th.(at := Loading));
    }
  }

  lemma LoadStep(s: State, t: nat, c: C.Choice)
    requires Inv(s) && Enabled(s, t, c) && s.threads[t].at.Loading?
    ensures Good(s, t, c, NextLoad(s, t, c))
  {
    PlainStep(s, t, NextLoad(s, t, c).threads[t]);
  }

  // ---- Taking and leaving a mutex is invisible ----

  /** A step to th that changes no engine field and looks the same from outside. */
  ghost predicate Silent(s: State, t: nat, th: Thread) {
    && t < |s.threads|
    && Knows(s.e, th.at)
    && AbsThread(th) == AbsThread(s.threads[t])
    && (HoldsEngine(th.at) ==> AbsEngine(s.e, th.at) == s.e)
    && (HoldsEngine(s.threads[t].at) ==> AbsEngine(s.e, s.threads[t].at) == s.e)
  }

  lemma TakeEngineStep(s: State, t: nat, th: Thread)
    requires Inv(s) && Silent(s, t, th) && s.engineMutex == None
    requires HoldsEngine(th.at) && !HoldsEngine(s.threads[t].at)
    requires FuncHeld(th.at) == FuncHeld(s.threads[t].at) == None
    ensures var s' := TakeEngine(Put(s, s.e, t, th), t);
      && Abs(s') == Abs(s) && LocksOk(s')
      && forall u :: 0 <= u < |s'.threads| ==> Knows(s'.e, s'.threads[u].at)
  {
    hide CI.Inv;
    var s' := TakeEngine(Put(s, s.e, t, th), t);
    QuietStep(s, s', t, th);
    Invisible(s, t, th);
  }

  lemma LeaveEngineStep(s: State, t: nat, th: Thread)
    requires Inv(s) && Silent(s, t, th)
    requires !HoldsEngine(th.at) && HoldsEngine(s.threads[t].at)
    requires FuncHeld(th.at) == FuncHeld(s.threads[t].at) == None
    ensures var s' := LeaveEngine(Put(s, s.e, t, th));
      && Abs(s') == Abs(s) && LocksOk(s')
      && forall u :: 0 <= u < |s'.threads| ==> Knows(s'.e, s'.threads[u].at)
  {
    hide CI.Inv;
    var s' := LeaveEngine(Put(s, s.e, t, th));
    QuietStep(s, s', t, th);
    Invisible(s, t, th);
  }

  lemma TakeFuncStep(s: State, t: nat, th: Thread, f: nat)
    requires Inv(s) && Silent(s, t, th) && f < |s.funcMutex| && s.funcMutex[f] == None
    requires HoldsEngine(th.at) == HoldsEngine(s.threads[t].at)
    requires FuncHeld(th.at) == Some(f) && FuncHeld(s.threads[t].at) == None
    ensures var s' := SetFuncMutex(Put(s, s.e, t, th), f, Some(t));
      && Abs(s') == Abs(s) && LocksOk(s')
      && forall u :: 0 <= u < |s'.threads| ==> Knows(s'.e, s'.threads[u].at)
  {
    hide CI.Inv;
    var s' := SetFuncMutex(Put(s, s.e, t, th), f, Some(t));
    QuietStep(s, s', t, th);
    Invisible(s, t, th);
  }

  lemma LeaveFuncStep(s: State, t: nat, th: Thread, f: nat)
    requires Inv(s) && Silent(s, t, th) && f < |s.funcMutex|
    requires HoldsEngine(th.at) == HoldsEngine(s.threads[t].at)
    requires FuncHeld(th.at) == None && FuncHeld(s.threads[t].at) == Some(f)
    ensures var s' := SetFuncMutex(Put(s, s.e, t, th), f, None);
      && Abs(s') == Abs(s) && LocksOk(s')
      && forall u :: 0 <= u < |s'.threads| ==> Knows(s'.e, s'.threads[u].at)
  {
    hide CI.Inv;
    var s' := SetFuncMutex(Put(s, s.e, t, th), f, None);
    QuietStep(s, s', t, th);
    Invisible(s, t, th);
  }

  // ---- getOrAddFunc ----

  lemma MakeInStep(s: State, t: nat, n: Name)
    requires Inv(s) && t < |s.threads| && s.threads[t].at == Making(n, MakeIn)
    ensures Good(s, t, C.Go, NextMake(s, t, n, MakeIn))
  {
    hide CI.Inv;
    var s' := NextMake(s, t, n, MakeIn);
    if n in s.e.funcs || NewFunc(s.e, n) == None {
      PlainStep(s, t, s'.threads[t]);
    } else {
      assert s'.funcMutex == s.funcMutex + [None];
      InsideStep(s, s', t, s'.threads[t]);
    }
  }

  lemma MakeStep(s: State, t: nat, n: Name, m: MakePc)
    requires Inv(s) && Enabled(s, t, C.Go) && s.threads[t].at == Making(n, m)
    ensures Good(s, t, C.Go, NextMake(s, t, n, m))
  {
    hide CI.Inv;
    var th := s.threads[t];
    assert Knows(s.e, th.at);
    match m {
      case MakeLock => TakeEngineStep(s, t, th.(at := Making(n, MakeIn)));
      case MakeIn => MakeInStep(s, t, n);
      case MakePublish(f) =>
        InsideStep(s, NextMake(s, t, n, m), t, th.(at := Making(n, MakeOut)));
        Invisible(s, t, th.(at := Making(n, MakeOut)));
      case MakeOut => LeaveEngineStep(s, t, th.(at := User));
    }
  }

  // ---- lock_module ----

  /** While t holds f's mutex, f is not in the middle of a rebind. */
  lemma HeldFunctionIsItsImage(s: State, t: nat, f: nat)
    requires Inv(s) && t < |s.threads| && s.threads[t].at.Trying? && s.threads[t].at.p.TryPromote?
    requires s.threads[t].at.f == f
    ensures f < |s.e.objs| && f < |Abs(s).e.objs| && Abs(s).e.objs[f] == s.e.objs[f]
  {
    hide CI.Inv;
    assert Knows(s.e, s.threads[t].at);
    assert FuncLockOk(f, s.funcMutex[f], s.threads);
  }

  /** A generation that is visible from outside is as alive as it seems. */
  lemma AliveLooksTheSame(s: State, g: Gen)
    requires Inv(s) && g < |Abs(s).e.gens|
    ensures Alive(Abs(s).e, g) <==> Alive(s.e, g)
  {
    CountsShape(s);
    hide CI.Inv;
  }

  lemma ImageIsBound(s: State, t: nat)
    requires Inv(s) && t < |s.threads| && s.threads[t].at.Trying? && s.threads[t].at.p.TryPromote?
    requires s.threads[t].at.f < |Abs(s).e.objs|
    ensures var w := Abs(s).e.objs[s.threads[t].at.f].weak;
      w.Some? && w.value < |Abs(s).e.gens|
  {
    hide LocksOk, Knows, AbsEngine;
    assert CI.ThreadOk(Abs(s).e, Abs(s).threads[t]);
    assert ObjOk(Abs(s).e, Abs(s).e.objs[s.threads[t].at.f]);
  }

  /** So its binding is what it seems from outside. */
  lemma PromotionLooksTheSame(s: State, t: nat, f: nat)
    requires Inv(s) && t < |s.threads| && s.threads[t].at.Trying? && s.threads[t].at.p.TryPromote?
    requires s.threads[t].at.f == f
    ensures f < |s.e.objs| && Abs(s).e.objs[f] == s.e.objs[f]
    ensures Promoted(Abs(s).e, f) == Promoted(s.e, f)
    ensures Promoted(s.e, f).Some? ==> Promoted(s.e, f).value < |Abs(s).e.gens|
  {
    hide Inv, Abs, Alive;
    HeldFunctionIsItsImage(s, t, f);
    ImageIsBound(s, t);
    AliveLooksTheSame(s, s.e.objs[f].weak.value);
  }

  lemma PromoteWins(s: State, t: nat, f: nat, k: nat, b: nat, proc: Proc, g: Gen)
    requires Inv(s) && t < |s.threads| && s.threads[t].at == Trying(f, k, b, TryPromote(proc))
    requires Promoted(s.e, f) == Some(g)
    ensures Good(s, t, C.Go, NextTry(s, t, f, k, b, TryPromote(proc)))
  {
    hide CI.Inv;
    var th := s.threads[t];
    assert f < |s.e.objs| && s.e.objs[f].proc == proc by {
      assert Knows(s.e, th.at);
    }
    PromotionLooksTheSame(s, t, f);
    var call := C.Call(f, proc, g);
    var th' := th.(at := Trying(f, k, b, TryWon), calls := C.Push(call, th.calls));
    CountStep(s, Put(s, Retain(s.e, g), t, th'), t, th', g, true);
    assert Abs(s).threads[t].at == C.Try(f, k, b);
    CoarseTry(Abs(s), t, f, k, b);
  }

  lemma PromoteLoses(s: State, t: nat, f: nat, k: nat, b: nat, proc: Proc)
    requires Inv(s) && t < |s.threads| && s.threads[t].at == Trying(f, k, b, TryPromote(proc))
    requires Promoted(s.e, f) == None
    ensures Good(s, t, C.Go, NextTry(s, t, f, k, b, TryPromote(proc)))
  {
    hide CI.Inv;
    PromotionLooksTheSame(s, t, f);
    PlainStep(s, t, s.threads[t].(at := Trying(f, k + 1, b, TryLost)));
    CoarseTry(Abs(s), t, f, k, b);
  }

  // What the coarse steps that correspond to effects amount to.

  lemma CoarseTry(a: C.State, t: nat, f: nat, k: nat, b: nat)
    requires t < |a.threads| && a.threads[t].at == C.Try(f, k, b)
    ensures C.Enabled(a, t, C.Go)
    ensures Promoted(a.e, f).Some? ==>
      var g := Promoted(a.e, f).value;
      C.Next(a, t, C.Go) == C.State(Retain(a.e, g), a.threads[t := a.threads[t].(
        at := C.User, calls := C.Push(C.Call(f, a.e.objs[f].proc, g), a.threads[t].calls))])
    ensures Promoted(a.e, f).None? ==>
      C.Next(a, t, C.Go) == C.State(a.e, a.threads[t := a.threads[t].(at := C.Rebinding(f, k + 1, b))])
  {
  }

  lemma CoarseRebinding(a: C.State, t: nat, f: nat, k: nat, b: nat)
    requires t < |a.threads| && a.threads[t].at == C.Rebinding(f, k, b)
    ensures C.Enabled(a, t, C.Go)
    ensures C.Next(a, t, C.Go) == C.State(Rebind(a.e, f), a.threads[t :=
      if RebindHits(a.e, f) then a.threads[t].(at := C.Try(f, k, b))
      else a.threads[t].(at := C.User, ret := C.Threw(f))])
  {
  }

  lemma CoarseInstalling(a: C.State, t: nat, table: Table)
    requires t < |a.threads| && a.threads[t].at == C.Installing(table)
    ensures C.Enabled(a, t, C.Go)
    ensures C.Next(a, t, C.Go)
         == C.State(Install(a.e, table), a.threads[t := a.threads[t].(at := C.User, ret := C.Reloaded(true))])
  {
  }

  lemma TryLeaves(s: State, t: nat, f: nat, k: nat, b: nat, p: TryPc)
    requires Inv(s) && t < |s.threads| && s.threads[t].at == Trying(f, k, b, p)
    requires p.TryWon? || p.TryLost?
    ensures Good(s, t, C.Go, NextTry(s, t, f, k, b, p))
  {
    hide CI.Inv;
    var th := s.threads[t];
    assert Knows(s.e, th.at);
    match p {
      case TryWon => LeaveFuncStep(s, t, th.(at := User), f);
      case TryLost => LeaveFuncStep(s, t, th.(at := Rebinding(f, k, b, RebindLock)), f);
    }
  }

  lemma TryBegins(s: State, t: nat, f: nat, k: nat, b: nat, p: TryPc)
    requires Inv(s) && Enabled(s, t, C.Go) && s.threads[t].at == Trying(f, k, b, p)
    requires p.TryLock? || p.TryRead?
    ensures Good(s, t, C.Go, NextTry(s, t, f, k, b, p))
  {
    hide CI.Inv;
    var th := s.threads[t];
    assert Knows(s.e, th.at);
    match p {
      case TryLock => TakeFuncStep(s, t, th.(at := Trying(f, k, b, TryRead)), f);
      case TryRead =>
        var th' := th.(at := Trying(f, k, b, TryPromote(s.e.objs[f].proc)));
        PlainStep(s, t, th');
        Invisible(s, t, th');
    }
  }

  lemma TryStep(s: State, t: nat, f: nat, k: nat, b: nat, p: TryPc)
    requires Inv(s) && Enabled(s, t, C.Go) && s.threads[t].at == Trying(f, k, b, p)
    ensures Good(s, t, C.Go, NextTry(s, t, f, k, b, p))
  {
    match p {
      case TryPromote(proc) =>
        match Promoted(s.e, f) {
          case Some(g) => PromoteWins(s, t, f, k, b, proc, g);
          case None => PromoteLoses(s, t, f, k, b, proc);
        }
      case TryWon => TryLeaves(s, t, f, k, b, p);
      case TryLost => TryLeaves(s, t, f, k, b, p);
      case _ => TryBegins(s, t, f, k, b, p);
    }
  }

  // ---- rebindFunction ----

  lemma RebindInStep(s: State, t: nat, f: nat, k: nat, b: nat)
    requires Inv(s) && t < |s.threads| && s.threads[t].at == Rebinding(f, k, b, RebindIn)
    ensures Good(s, t, C.Go, NextRebind(s, t, f, k, b, RebindIn))
  {
    hide CI.Inv;
    var th := s.threads[t];
    assert Knows(s.e, th.at);
    assert Abs(s).e == s.e;
    CoarseRebinding(Abs(s), t, f, k, b);
    if RebindHits(s.e, f) {
      var th' := th.(at := Rebinding(f, k, b, RebindFuncLock(s.e.current.value)));
      PlainStep(s, t, th');
      Invisible(s, t, th');
    } else {
      PlainStep(s, t, th.(at := Rebinding(f, k, b, RebindMissOut), ret := C.Threw(f)));
    }
  }

  lemma BothWritesAreRebind(e: Engine, f: nat, g: Gen)
    requires RebindHits(e, f) && e.current == Some(g)
    ensures SetWeak(SetProc(e, f, EntryIn(e, f, g)), f, Some(g)) == Rebind(e, f)
  {
  }

  /** Before the first write the function is bound. */
  lemma BoundBeforeRebind(s: State, t: nat)
    requires Inv(s) && t < |s.threads| && s.threads[t].at.Rebinding? && s.threads[t].at.r.RebindProc?
    ensures var f := s.threads[t].at.f;
      f < |s.e.objs| && s.e.objs[f].spec == Ordinary && Bound(s.e, s.e.objs[f])
  {
    assert Mid(s) == s.threads[t].at && Abs(s).e == s.e;
    assert CI.ThreadOk(Abs(s).e, Abs(s).threads[t]);
    assert ObjOk(Abs(s).e, Abs(s).e.objs[s.threads[t].at.f]);
  }

  lemma RebindWriteProc(s: State, t: nat, f: nat, k: nat, b: nat, g: Gen)
    requires Inv(s) && t < |s.threads| && s.threads[t].at == Rebinding(f, k, b, RebindProc(g))
    ensures Good(s, t, C.Go, NextRebind(s, t, f, k, b, RebindProc(g)))
  {
    hide CI.Inv;
    BoundBeforeRebind(s, t);
    var th := s.threads[t];
    assert Knows(s.e, th.at);
    var th' := th.(at := Rebinding(f, k, b, RebindWeak(g)));
    BothWritesAreRebind(s.e, f, g);
    InsideStep(s, Put(s, SetProc(s.e, f, EntryIn(s.e, f, g)), t, th'), t, th');
    assert Abs(s).e == s.e;
    CoarseRebinding(Abs(s), t, f, k, b);
  }

  lemma RebindWriteWeak(s: State, t: nat, f: nat, k: nat, b: nat, g: Gen)
    requires Inv(s) && t < |s.threads| && s.threads[t].at == Rebinding(f, k, b, RebindWeak(g))
    ensures Good(s, t, C.Go, NextRebind(s, t, f, k, b, RebindWeak(g)))
  {
    hide CI.Inv;
    var th := s.threads[t];
    assert Knows(s.e, th.at);
    var th' := th.(at := Rebinding(f, k, b, RebindFuncOut));
    InsideStep(s, Put(s, SetWeak(s.e, f, s.e.current), t, th'), t, th');
    Invisible(s, t, th');
  }

  lemma RebindEnters(s: State, t: nat, f: nat, k: nat, b: nat, r: RebindPc)
    requires Inv(s) && Enabled(s, t, C.Go) && s.threads[t].at == Rebinding(f, k, b, r)
    requires r.RebindLock? || r.RebindFuncLock?
    ensures Good(s, t, C.Go, NextRebind(s, t, f, k, b, r))
  {
    hide CI.Inv;
    var th := s.threads[t];
    assert Knows(s.e, th.at);
    match r {
      case RebindLock => TakeEngineStep(s, t, th.(at := Rebinding(f, k, b, RebindIn)));
      case RebindFuncLock(g) => TakeFuncStep(s, t, th.(at := Rebinding(f, k, b, RebindProc(g))), f);
    }
  }

  lemma RebindLeaves(s: State, t: nat, f: nat, k: nat, b: nat, r: RebindPc)
    requires Inv(s) && t < |s.threads| && s.threads[t].at == Rebinding(f, k, b, r)
    requires r.RebindFuncOut? || r.RebindOut? || r.RebindMissOut?
    ensures Good(s, t, C.Go, NextRebind(s, t, f, k, b, r))
  {
    hide CI.Inv;
    var th := s.threads[t];
    assert Knows(s.e, th.at);
    match r {
      case RebindFuncOut => LeaveFuncStep(s, t, th.(at := Rebinding(f, k, b, RebindOut)), f);
      case RebindOut => LeaveEngineStep(s, t, th.(at := Trying(f, k, b, TryLock)));
      case RebindMissOut => LeaveEngineStep(s, t, th.(at := User));
    }
  }

  lemma RebindStep(s: State, t: nat, f: nat, k: nat, b: nat, r: RebindPc)
    requires Inv(s) && Enabled(s, t, C.Go) && s.threads[t].at == Rebinding(f, k, b, r)
    ensures Good(s, t, C.Go, NextRebind(s, t, f, k, b, r))
  {
    match r {
      case RebindIn => RebindInStep(s, t, f, k, b);
      case RebindProc(g) => RebindWriteProc(s, t, f, k, b, g);
      case RebindWeak(g) => RebindWriteWeak(s, t, f, k, b, g);
      case RebindLock => RebindEnters(s, t, f, k, b, r);
      case RebindFuncLock(_) => RebindEnters(s, t, f, k, b, r);
      case _ => RebindLeaves(s, t, f, k, b, r);
    }
  }

  // ---- reloadModule ----

  lemma SwapHides(e: Engine, table: Table)
    requires EngineOk(e)
    ensures AbsEngine(Swap(e, table), Installing(table, InstallRelease(e.current))) == e
    ensures JustSwapped(Swap(e, table), table, e.current)
  {
    assert Swap(e, table).gens[..|e.gens|] == e.gens;
    assert Swap(e, table).strong[..|e.gens|] == e.strong;
    assert Swap(e, table).torn[..|e.gens|] == e.torn;
  }

  lemma ImageIsOk(s: State)
    requires Inv(s)
    ensures EngineOk(Abs(s).e)
  {
  }

  lemma SwapStep(s: State, t: nat, table: Table)
    requires Inv(s) && t < |s.threads| && s.threads[t].at == Installing(table, InstallIn)
    ensures Good(s, t, C.Go, NextInstall(s, t, table, InstallIn))
  {
    hide CI.Inv, EngineOk, JustSwapped;
    var th' := s.threads[t].(at := Installing(table, InstallRelease(s.e.current)));
    assert Abs(s).e == s.e;
    ImageIsOk(s);
    SwapHides(s.e, table);
    InsideStep(s, Put(s, Swap(s.e, table), t, th'), t, th');
    Invisible(s, t, th');
  }

  /** Letting the previous module go completes the install as seen from outside. */
  lemma ReleaseCompletesInstall(e: Engine, table: Table, prev: Option<Gen>)
    requires JustSwapped(e, table, prev)
    ensures AbsEngine(ReleaseOld(e, prev), Installing(table, InstallCount)) == Install(WithoutLast(e, prev), table)
  {
    var a := WithoutLast(e, prev);
    assert Swap(a, table).gens == e.gens;
    assert Swap(a, table).strong == e.strong;
    assert Swap(a, table).torn == e.torn;
  }

  lemma InstallReleaseStep(s: State, t: nat, table: Table, prev: Option<Gen>)
    requires Inv(s) && t < |s.threads| && s.threads[t].at == Installing(table, InstallRelease(prev))
    ensures Good(s, t, C.Go, NextInstall(s, t, table, InstallRelease(prev)))
  {
    hide CI.Inv;
    var th := s.threads[t];
    assert Knows(s.e, th.at);
    ReleaseCompletesInstall(s.e, table, prev);
    var th' := th.(at := Installing(table, InstallCount), ret := C.Reloaded(true));
    InsideStep(s, Put(s, ReleaseOld(s.e, prev), t, th'), t, th');
    CoarseInstalling(Abs(s), t, table);
  }

  lemma InstallStep(s: State, t: nat, table: Table, i: InstallPc)
    requires Inv(s) && Enabled(s, t, C.Go) && s.threads[t].at == Installing(table, i)
    ensures Good(s, t, C.Go, NextInstall(s, t, table, i))
  {
    hide CI.Inv;
    var th := s.threads[t];
    match i {
      case InstallLock => TakeEngineStep(s, t, th.(at := Installing(table, InstallIn)));
      case InstallIn => SwapStep(s, t, table);
      case InstallRelease(prev) => InstallReleaseStep(s, t, table, prev);
      case InstallCount =>
        var th' := th.(at := Installing(table, InstallOut));
        InsideStep(s, Put(s, s.e.(count := s.e.count + 1), t, th'), t, th');
        Invisible(s, t, th');
      case InstallOut => LeaveEngineStep(s, t, th.(at := User));
    }
  }

  // ---- doGetModuleInfo ----

  lemma InfoStep(s: State, t: nat, q: InfoPc)
    requires Inv(s) && Enabled(s, t, C.Go) && s.threads[t].at == Asking(q)
    ensures Good(s, t, C.Go, NextInfo(s, t, q))
  {
    hide CI.Inv;
    var th := s.threads[t];
    match q {
      case InfoLock => TakeEngineStep(s, t, th.(at := Asking(InfoIn)));
      case InfoIn => PlainStep(s, t, NextInfo(s, t, q).threads[t]);
      case InfoOut => LeaveEngineStep(s, t, th.(at := User));
    }
  }

  // ---- All steps ----

  lemma EveryStepIsGood(s: State, t: nat, c: C.Choice)
    requires Inv(s) && Enabled(s, t, c)
    ensures Good(s, t, c, Next(s, t, c))
  {
    match s.threads[t].at {
      case User => UserStep(s, t, c);
      case Making(n, m) => MakeStep(s, t, n, m);
      case Trying(f, k, b, p) => TryStep(s, t, f, k, b, p);
      case Rebinding(f, k, b, r) => RebindStep(s, t, f, k, b, r);
      case Loading => LoadStep(s, t, c);
      case Installing(table, i) => InstallStep(s, t, table, i);
      case Asking(q) => InfoStep(s, t, q);
    }
  }

  /** Forward simulation: the fine step is invisible or is one coarse step of the
      same thread, and the fine invariant is kept. */
  lemma StepSimulates(s: State, t: nat, c: C.Choice)
    requires Inv(s) && Enabled(s, t, c)
    ensures Matches(s, t, c, Next(s, t, c)) && Inv(Next(s, t, c))
  {
    EveryStepIsGood(s, t, c);
    if TakesEffect(s.e, s.threads[t].at) {
      CI.NextKeepsInv(Abs(s), t, c);
    }
  }

  lemma SpawnSimulates(s: State)
    requires Inv(s)
    ensures Abs(Spawn(s)) == C.Spawn(Abs(s)) && Inv(Spawn(s))
  {
    hide CI.Inv;
    var s' := Spawn(s);
    assert Mid(s') == Mid(s);
    assert Abs(s').threads == C.Spawn(Abs(s)).threads;
    CI.SpawnKeepsInv(Abs(s));
    forall f | 0 <= f < |s'.funcMutex| ensures FuncLockOk(f, s'.funcMutex[f], s'.threads) {
      assert FuncLockOk(f, s.funcMutex[f], s.threads);
    }
  }

  function AbsRun(r: seq<State>): (a: seq<C.State>)
    ensures |a| == |r| && forall i :: 0 <= i < |r| ==> a[i] == Abs(r[i])
  {
    seq(|r|, i requires 0 <= i < |r| => Abs(r[i]))
  }

  lemma StepRefines(s: State, s': State)
    requires Inv(s) && Step(s, s')
    ensures Inv(s') && C.Step(Abs(s), Abs(s'))
  {
    if s' == Spawn(s) {
      SpawnSimulates(s);
    } else {
      var t: nat, c :| Enabled(s, t, c) && s' == Next(s, t, c);
      StepSimulates(s, t, c);
    }
  }

  lemma {:induction false} FineRunInv(r: seq<State>, i: nat)
    requires IsRun(r) && i < |r|
    ensures Inv(r[i])
  {
    if i == 0 {
      assert Abs(INIT) == C.INIT;
    } else {
      FineRunInv(r, i - 1);
      assert StepAt(r, i - 1);
      StepRefines(r[i - 1], r[i]);
    }
  }

  /** Refinement over whole runs: seen from outside, every run of the mutex-level
      protocol is a run of the coarse one, so the laws of the coarse protocol hold
      for every interleaving of single lock and memory operations. */
  lemma RunRefines(r: seq<State>)
    requires IsRun(r)
    ensures C.IsRun(AbsRun(r))
  {
    assert Abs(INIT) == C.INIT;
    forall i: nat | i + 1 < |r| ensures C.StepAt(AbsRun(r), i) {
      FineRunInv(r, i);
      assert StepAt(r, i);
      StepRefines(r[i], r[i + 1]);
    }
  }
}
