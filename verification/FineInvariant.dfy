/** The lock discipline of the fine protocol: what each single step keeps. */
module FineInvariant {
  import opened Text
  import opened EngineState
  import C = Coarse
  import opened Fine
  import opened Refinement

  /** The owner of a mutex after thread t moved, from whether it held the mutex
      before and holds it now. */
  function Owner(was: Option<nat>, t: nat, before: bool, now: bool): Option<nat> {
    if now then Some(t) else if before then None else was
  }

  /** Thread t moves to `th`; it takes only free mutexes and leaves only its own. */
  ghost predicate Moves(s: State, s': State, t: nat, th: Thread) {
    && t < |s.threads|
    && s'.threads == s.threads[t := th]
    && var at, at' := s.threads[t].at, th.at;
    && s'.engineMutex == Owner(s.engineMutex, t, HoldsEngine(at), HoldsEngine(at'))
    && (HoldsEngine(at') && !HoldsEngine(at) ==> s.engineMutex == None)
    && |s'.funcMutex| == |s'.e.objs| >= |s.funcMutex|
    && (forall f :: 0 <= f < |s'.funcMutex| ==>
          s'.funcMutex[f] == Owner(if f < |s.funcMutex| then s.funcMutex[f] else None, t,
                                   FuncHeld(at) == Some(f), FuncHeld(at') == Some(f)))
    && (FuncHeld(at').Some? && FuncHeld(at') != FuncHeld(at) ==>
          FuncHeld(at').value < |s.funcMutex| && s.funcMutex[FuncHeld(at').value] == None)
  }

  lemma EngineLockMoves(owner: Option<nat>, threads: seq<Thread>, t: nat, th: Thread)
    requires t < |threads| && EngineLockOk(owner, threads)
    requires HoldsEngine(th.at) && !HoldsEngine(threads[t].at) ==> owner == None
    ensures EngineLockOk(Owner(owner, t, HoldsEngine(threads[t].at), HoldsEngine(th.at)), threads[t := th])
  {
  }

  lemma FuncLockMoves(f: nat, owner: Option<nat>, threads: seq<Thread>, t: nat, th: Thread)
    requires t < |threads| && FuncLockOk(f, owner, threads)
    requires FuncHeld(th.at) == Some(f) && FuncHeld(threads[t].at) != Some(f) ==> owner == None
    ensures FuncLockOk(f, Owner(owner, t, FuncHeld(threads[t].at) == Some(f), FuncHeld(th.at) == Some(f)),
                       threads[t := th])
  {
  }

  lemma MovesKeepsLocks(s: State, s': State, t: nat, th: Thread)
    requires LocksOk(s) && Moves(s, s', t, th)
    ensures LocksOk(s')
  {
    EngineLockMoves(s.engineMutex, s.threads, t, th);
    forall f | 0 <= f < |s'.funcMutex| ensures FuncLockOk(f, s'.funcMutex[f], s'.threads) {
      FuncLockMoves(f, if f < |s.funcMutex| then s.funcMutex[f] else None, s.threads, t, th);
    }
  }

  /** A thread outside engine_mutex depends on little: objects persist, and the
      procedure it has read stays in place while it holds that object's mutex. */
  lemma OutsiderStillKnows(e: Engine, e': Engine, at: Pc)
    requires Knows(e, at) && !HoldsEngine(at) && |e.objs| <= |e'.objs|
    requires at.Trying? && at.p.TryPromote? ==> e'.objs[at.f].proc == e.objs[at.f].proc
    ensures Knows(e', at)
  {
  }

  /** Counting references does not disturb what the insider knows, as long as the
      generation concerned is visible from outside. */
  lemma InsiderStillKnows(e: Engine, e': Engine, at: Pc, g: Gen)
    requires Knows(e, at) && g < |AbsEngine(e, at).gens|
    requires e' == Retain(e, g) || e' == Release(e, g)
    ensures Knows(e', at)
  {
  }

  /** Counting references commutes with looking from outside. */
  lemma CountsCommute(e: Engine, mid: Pc, g: Gen)
    requires Knows(e, mid) && g < |AbsEngine(e, mid).gens|
    requires |e.strong| == |e.torn| == |e.gens|
    ensures AbsEngine(Retain(e, g), mid) == Retain(AbsEngine(e, mid), g)
    ensures AbsEngine(Release(e, g), mid) == Release(AbsEngine(e, mid), g)
  {
    if Releasing(mid) {
      var n := |e.gens| - 1;
      assert Retain(e, g).strong[..n] == e.strong[..n][g := e.strong[g] + 1];
      assert Release(e, g).strong[..n] == e.strong[..n][g := e.strong[g] - 1];
      assert Release(e, g).torn[..n] == Release(AbsEngine(e, mid), g).torn;
    }
  }

  lemma AbsUpdate(threads: seq<Thread>, t: nat, th: Thread)
    requires t < |threads|
    ensures AbsThreads(threads[t := th]) == AbsThreads(threads)[t := AbsThread(th)]
  {
  }

  // ---- Shapes of steps ----

  /** A step that leaves the engine, and its image from outside, as they are. */
  lemma QuietStep(s: State, s': State, t: nat, th: Thread)
    requires Inv(s) && Moves(s, s', t, th) && s'.e == s.e
    requires Knows(s.e, th.at)
    requires AbsEngine(s'.e, Mid(s')) == AbsEngine(s.e, Mid(s))
    ensures LocksOk(s') && forall u :: 0 <= u < |s'.threads| ==> Knows(s'.e, s'.threads[u].at)
    ensures Abs(s') == C.State(Abs(s).e, Abs(s).threads[t := AbsThread(th)])
  {
    MovesKeepsLocks(s, s', t, th);
    AbsUpdate(s.threads, t, th);
  }

  /** The thread inside engine_mutex moves without leaving it, changing the engine;
      nobody else was promised anything but the persistence of objects. */
  lemma InsideStep(s: State, s': State, t: nat, th: Thread)
    requires Inv(s) && Moves(s, s', t, th)
    requires HoldsEngine(s.threads[t].at) && HoldsEngine(th.at)
    requires |s.e.objs| <= |s'.e.objs|
    requires forall f :: 0 <= f < |s.e.objs| && s'.e.objs[f].proc != s.e.objs[f].proc ==>
      FuncHeld(s.threads[t].at) == Some(f)
    requires Knows(s'.e, th.at)
    ensures LocksOk(s') && forall u :: 0 <= u < |s'.threads| ==> Knows(s'.e, s'.threads[u].at)
    ensures Abs(s') == C.State(AbsEngine(s'.e, th.at), Abs(s).threads[t := AbsThread(th)])
    ensures Abs(s).e == AbsEngine(s.e, s.threads[t].at)
  {
    MovesKeepsLocks(s, s', t, th);
    AbsUpdate(s.threads, t, th);
    forall u | 0 <= u < |s'.threads| ensures Knows(s'.e, s'.threads[u].at) {
      if u != t {
        OutsiderStillKnows(s.e, s'.e, s.threads[u].at);
      }
    }
  }

  /** Taking (up) or dropping a reference. */
  function Count(e: Engine, g: Gen, up: bool): Engine {
    if up then Retain(e, g) else Release(e, g)
  }

  /** A thread outside engine_mutex takes or drops a reference to a generation
      that is visible from outside. */
  lemma CountStep(s: State, s': State, t: nat, th: Thread, g: Gen, up: bool)
    requires Inv(s) && Moves(s, s', t, th)
    requires !HoldsEngine(s.threads[t].at) && !HoldsEngine(th.at)
    requires s'.e == Count(s.e, g, up)
    requires g < |Abs(s).e.gens| && Knows(s.e, th.at)
    ensures LocksOk(s') && forall u :: 0 <= u < |s'.threads| ==> Knows(s'.e, s'.threads[u].at)
    ensures Abs(s') == C.State(Count(Abs(s).e, g, up), Abs(s).threads[t := AbsThread(th)])
  {
    MovesKeepsLocks(s, s', t, th);
    AbsUpdate(s.threads, t, th);
    CountsShape(s);
    assert Mid(s') == Mid(s);
    assert Knows(s.e, Mid(s));
    CountsCommute(s.e, Mid(s), g);
    forall u | 0 <= u < |s'.threads| ensures Knows(s'.e, s'.threads[u].at) {
      if u != t {
        if s.engineMutex == Some(u) {
          InsiderStillKnows(s.e, s'.e, s.threads[u].at, g);
        } else {
          OutsiderStillKnows(s.e, s'.e, s.threads[u].at);
        }
      }
    }
  }

  lemma CountsShape(s: State)
    requires Inv(s)
    ensures |s.e.strong| == |s.e.torn| == |s.e.gens|
    ensures |Abs(s).e.gens| == Installs(s)
  {
  }
}
