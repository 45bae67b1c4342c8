/** Which version a new call runs. The project's paper says that every new
    invocation binds to the new version. That fails, and this module says
    exactly when it holds. */
module BindingLaw {
  import opened Text
  import opened EngineState
  import opened Coarse
  import opened CoarseInvariant
  import opened Laws

  /** Thread t runs on, undisturbed, for at most n steps or until it is back in
      user code. */
  function Alone(s: State, t: nat, n: nat): State
    requires t < |s.threads|
    decreases n
  {
    if n == 0 || !Enabled(s, t, Go) then s else Alone(Next(s, t, Go), t, n - 1)
  }

  /** The state in which an undisturbed new call of f either is executing its
      procedure or has thrown. */
  function NewCall(s: State, t: nat, f: nat): State
    requires Enabled(s, t, StartCall(f))
  {
    Alone(Next(s, t, StartCall(f)), t, 3)
  }

  predicate Callable(s: State, t: nat, f: nat) {
    Enabled(s, t, StartCall(f)) && s.e.objs[f].spec == Ordinary
  }

  /** The call has begun to execute `call`, on top of what was there before. */
  predicate Executes(s: State, s': State, t: nat, call: Call)
    requires t < |s.threads|
  {
    t < |s'.threads| && s'.threads[t].at.User? && s'.threads[t].calls == Push(call, s.threads[t].calls)
  }

  predicate Throws(s: State, s': State, t: nat, f: nat)
    requires t < |s.threads|
  {
    t < |s'.threads| && s'.threads[t] == Thread(User, s.threads[t].calls, Threw(f))
  }

  lemma CallOfLiveBinding(s: State, t: nat, f: nat)
    requires Inv(s) && Callable(s, t, f) && s.e.objs[f].weak.Some? && Alive(s.e, s.e.objs[f].weak.value)
    ensures Executes(s, NewCall(s, t, f), t, Call(f, s.e.objs[f].proc, s.e.objs[f].weak.value))
  {
    var s1 := Next(s, t, StartCall(f));
    var s2 := Next(s1, t, Go);
    assert s2.threads[t].at.User?;
    assert Alone(s1, t, 3) == Alone(s2, t, 2) == s2;
  }

  lemma CallOfDeadBindingHit(s: State, t: nat, f: nat)
    requires Inv(s) && Callable(s, t, f) && s.e.objs[f].weak.Some? && !Alive(s.e, s.e.objs[f].weak.value)
    requires RebindHits(s.e, f)
    ensures var g := s.e.current.value;
      Executes(s, NewCall(s, t, f), t, Call(f, s.e.gens[g][s.e.objs[f].name], g))
  {
    var s1 := Next(s, t, StartCall(f));
    var s2 := Next(s1, t, Go);
    assert s2.threads[t].at == Rebinding(f, 1, |s.e.gens|);
    var s3 := Next(s2, t, Go);
    assert Accounting(s);
    assert Alive(s3.e, s.e.current.value);
    var s4 := Next(s3, t, Go);
    assert Alone(s1, t, 3) == Alone(s2, t, 2) == Alone(s3, t, 1) == Alone(s4, t, 0) == s4;
  }

  lemma CallOfDeadBindingMiss(s: State, t: nat, f: nat)
    requires Inv(s) && Callable(s, t, f) && s.e.objs[f].weak.Some? && !Alive(s.e, s.e.objs[f].weak.value)
    requires !RebindHits(s.e, f)
    ensures Throws(s, NewCall(s, t, f), t, f)
    ensures NewCall(s, t, f).e == s.e
  {
    var s1 := Next(s, t, StartCall(f));
    var s2 := Next(s1, t, Go);
    assert s2.threads[t].at == Rebinding(f, 1, |s.e.gens|);
    var s3 := Next(s2, t, Go);
    assert Alone(s1, t, 3) == Alone(s2, t, 2) == Alone(s3, t, 1) == s3;
  }

  /** The call runs the version that was current when it began. */
  ghost predicate RunsCurrent(s: State, t: nat, f: nat)
    requires Enabled(s, t, StartCall(f))
  {
    var s' := NewCall(s, t, f);
    s.e.current.Some? && exists call ::
      Executes(s, s', t, call) && call.f == f && call.gen == s.e.current.value && CallOk(s.e, call)
  }

  /** The law for a call that no other thread disturbs. It runs the current version
      if and only if its function is already bound to it, or no procedure is executing
      in the module the function is bound to and the current table has the name. */
  lemma NewCallsRunCurrentIff(s: State, t: nat, f: nat)
    requires Inv(s) && Callable(s, t, f)
    ensures s.e.objs[f].weak.Some?
    ensures RunsCurrent(s, t, f) <==>
      || s.e.objs[f].weak == s.e.current
      || (RefsAll(s.threads, s.e.objs[f].weak.value) == 0 && RebindHits(s.e, f))
  {
    assert ObjOk(s.e, s.e.objs[f]);
    var w := s.e.objs[f].weak.value;
    assert s.e.strong[w] == (if s.e.current == Some(w) then 1 else 0) + RefsAll(s.threads, w);
    var s' := NewCall(s, t, f);
    if Alive(s.e, w) {
      CallOfLiveBinding(s, t, f);
      var call := Call(f, s.e.objs[f].proc, w);
      assert CallOk(s.e, call);
      assert Executes(s, s', t, call);
    } else if RebindHits(s.e, f) {
      CallOfDeadBindingHit(s, t, f);
      var call := Call(f, s.e.gens[s.e.current.value][s.e.objs[f].name], s.e.current.value);
      assert CallOk(s.e, call);
      assert Executes(s, s', t, call);
    } else {
      CallOfDeadBindingMiss(s, t, f);
      assert Throws(s, s', t, f);
    }
  }

  /** A call whose name one version lacks throws and changes nothing; once a
      later version that has the name is installed, and nobody is inside the
      module the object was bound to, the same object runs the new entry. */
  lemma RestoredNameIsCallable(s: State, t: nat, f: nat, u: nat, table: Table)
    requires Inv(s) && Callable(s, t, f) && u < |s.threads| && u != t && s.threads[u].at == Installing(table)
    requires s.e.objs[f].name in table
    requires s.e.objs[f].weak.Some? && RefsAll(s.threads, s.e.objs[f].weak.value) == 0
    ensures var s' := Next(s, u, Go);
      && Callable(s', t, f)
      && Executes(s', NewCall(s', t, f), t, Call(f, table[s.e.objs[f].name], |s.e.gens|))
  {
    var s' := Next(s, u, Go);
    NextKeepsInv(s, u, Go);
    NextExtends(s, u, Go);
    assert ObjOk(s.e, s.e.objs[f]);
    var w := s.e.objs[f].weak.value;
    RefsAllUpdate(s.threads, u, s'.threads[u], w);
    assert s'.e.strong[w] == 0;
    CallOfDeadBindingHit(s', t, f);
  }

  // ---- The law for every interleaving ----

  /** The function is bound to the current module, or nobody is inside the module it
      is bound to. */
  predicate Settled(s: State, f: nat) {
    f < |s.e.objs| && s.e.objs[f].spec == Ordinary && s.e.objs[f].weak.Some? &&
    (s.e.objs[f].weak == s.e.current || RefsAll(s.threads, s.e.objs[f].weak.value) == 0)
  }

  lemma StepMovesToCurrent(s: State, s': State, f: nat)
    requires Inv(s) && Step(s, s') && f < |s.e.objs|
    ensures f < |s'.e.objs| && (s'.e.objs[f].weak == s.e.objs[f].weak || s'.e.objs[f].weak == s.e.current)
  {
    hide Inv;
    if s' != s && s' != Spawn(s) {
      var t: nat, c :| Enabled(s, t, c) && s' == Next(s, t, c);
    }
  }

  /** A binding that moves, moves to a module that is current then. */
  lemma {:induction false} MovesAhead(r: seq<State>, i: nat, j: nat, f: nat)
    requires IsRun(r) && i <= j < |r| && f < |r[i].e.objs| && r[i].e.objs[f].weak.Some?
    ensures f < |r[j].e.objs| && r[j].e.objs[f].weak.Some?
    ensures r[j].e.objs[f].weak == r[i].e.objs[f].weak || r[j].e.objs[f].weak.value + 1 >= |r[i].e.gens|
    decreases j
  {
    RunExtends(r, i, j);
    if i < j {
      MovesAhead(r, i, j - 1, f);
      RunExtends(r, i, j - 1);
      RunInv(r, j - 1);
      assert StepAt(r, j - 1);
      StepMovesToCurrent(r[j - 1], r[j], f);
    }
  }

  /** From a settled state on, whatever the other threads do, the function is never
      promoted to a module older than the one current then. */
  lemma NeverBehindAgain(r: seq<State>, i: nat, j: nat, f: nat, g: Gen)
    requires IsRun(r) && i <= j < |r| && Settled(r[i], f) && Promoted(r[j].e, f) == Some(g)
    ensures g + 1 >= |r[i].e.gens|
  {
    RunInv(r, i);
    var w := r[i].e.objs[f].weak.value;
    assert ObjOk(r[i].e, r[i].e.objs[f]);
    MovesAhead(r, i, j, f);
    if r[i].e.current != Some(w) {
      assert r[i].e.strong[w] == RefsAll(r[i].threads, w);
      DeadForever(r, i, j, w);
    }
  }

  /** From r[i] on, the function is never promoted to a generation before n - 1. */
  ghost predicate NeverOlder(r: seq<State>, i: nat, f: nat, n: nat) {
    forall j: nat, g :: i <= j < |r| && Promoted(r[j].e, f) == Some(g) ==> g + 1 >= n
  }

  /** The exact law, for every interleaving. Whatever happens next, all calls of the
      function that begin to execute from here on run the version current here, or a
      later one, if and only if the function is settled here. */
  lemma CallsRunNewerIff(r: seq<State>, f: nat)
    requires IsRun(r) && f < |r[|r| - 1].e.objs| && r[|r| - 1].e.objs[f].spec == Ordinary
    ensures Settled(r[|r| - 1], f) <==>
      forall r': seq<State> :: IsRun(r') && r <= r' ==> NeverOlder(r', |r| - 1, f, |r[|r| - 1].e.gens|)
  {
    var i := |r| - 1;
    if Settled(r[i], f) {
      forall r': seq<State> | IsRun(r') && r <= r' ensures NeverOlder(r', i, f, |r[i].e.gens|) {
        assert r'[i] == r[i];
        forall j: nat, g | i <= j < |r'| && Promoted(r'[j].e, f) == Some(g) ensures g + 1 >= |r[i].e.gens| {
          NeverBehindAgain(r', i, j, f, g);
        }
      }
    } else {
      RunInv(r, i);
      UnsettledRunsOlder(r[i], f);
      assert IsRun(r) && r <= r && !NeverOlder(r, i, f, |r[i].e.gens|);
    }
  }

  lemma UnsettledRunsOlder(s: State, f: nat)
    requires Inv(s) && f < |s.e.objs| && s.e.objs[f].spec == Ordinary && !Settled(s, f)
    ensures s.e.objs[f].weak.Some? && Promoted(s.e, f) == s.e.objs[f].weak
    ensures s.e.objs[f].weak.value + 1 < |s.e.gens|
  {
    assert ObjOk(s.e, s.e.objs[f]);
    var w := s.e.objs[f].weak.value;
    assert s.e.strong[w] == RefsAll(s.threads, w);
  }

  /** For a call: it begins to execute at the step after r[j]. */
  lemma LaterCallsRunNewer(r: seq<State>, i: nat, j: nat, t: nat, f: nat)
    requires IsRun(r) && i <= j && j + 1 < |r| && Settled(r[i], f)
    requires t < |r[j].threads| && r[j].threads[t].at.Try? && r[j].threads[t].at.f == f
    requires t < |r[j + 1].threads| && r[j + 1].threads[t].calls != r[j].threads[t].calls
    ensures r[j + 1].threads[t].calls.Push? && r[j + 1].threads[t].calls.call.f == f
    ensures r[j + 1].threads[t].calls.call.gen + 1 >= |r[i].e.gens|
  {
    assert StepAt(r, j);
    var c := OwnStep(r[j], r[j + 1], t);
    NeverBehindAgain(r, i, j, f, r[j + 1].threads[t].calls.call.gen);
  }

  /** A call throws exactly at a rebind that finds no module, or a current table
      without the name. */
  lemma ThrowsIffNameIsMissing(r: seq<State>, m: nat, t: nat)
    requires IsRun(r) && m + 1 < |r| && t < |r[m].threads| && r[m].threads[t].at.Rebinding?
    requires t < |r[m + 1].threads| && r[m + 1].threads[t] != r[m].threads[t]
    ensures var f := r[m].threads[t].at.f;
      if RebindHits(r[m].e, f) then r[m + 1].threads[t].at.Try?
      else r[m + 1].threads[t] == r[m].threads[t].(at := User, ret := Threw(f)) && r[m + 1].e == r[m].e
  {
    assert StepAt(r, m);
    var c := OwnStep(r[m], r[m + 1], t);
  }

  /** And it throws nowhere else. */
  lemma OnlyRebindThrows(r: seq<State>, m: nat, t: nat, f: nat)
    requires IsRun(r) && m + 1 < |r| && t < |r[m].threads| && t < |r[m + 1].threads|
    requires r[m + 1].threads[t] != r[m].threads[t] && r[m + 1].threads[t].at.User?
    requires r[m + 1].threads[t].ret == Threw(f) && r[m].threads[t].ret != Threw(f)
    ensures r[m].threads[t].at.Rebinding? && r[m].threads[t].at.f == f && !RebindHits(r[m].e, f)
  {
    assert StepAt(r, m);
    var c := OwnStep(r[m], r[m + 1], t);
  }

  // ---- The sentence of the paper fails ----

  lemma Append(r: seq<State>, t: nat, c: Choice) returns (r': seq<State>)
    requires IsRun(r) && Enabled(r[|r| - 1], t, c)
    ensures IsRun(r') && r' == r + [Next(r[|r| - 1], t, c)]
  {
    var s' := Next(r[|r| - 1], t, c);
    r' := r + [s'];
    forall i: nat | i + 1 < |r'| ensures StepAt(r', i) {
      if i + 1 < |r| {
        assert StepAt(r, i);
      }
    }
  }

  const NAME: Name := "f"
  const TABLE: Table := map[NAME := 1]
  const NEW_TABLE: Table := map[NAME := 2]

  lemma NameIsOrdinary()
    ensures SpecOf(NAME) == Ordinary
  {
    assert |Lower(NAME)| == 1;
    assert |Lower(RELOAD_MODULE_NAME)| == 17;
    assert |Lower(MODULE_INFO_NAME)| == 19;
  }

  const FN := Func(NAME, Ordinary, 1, Some(0))
  const INSIDE: Thread<Pc> := Thread(User, Push(Call(0, 1, 0), NoCalls), Made(NAME, Some(0)))

  const IDLE_AFTER_MAKE: Thread<Pc> := Thread(User, NoCalls, Made(NAME, Some(0)))

  lemma FirstInstalled() returns (r: seq<State>)
    ensures IsRun(r)
    ensures r[|r| - 1] == State(Engine([TABLE], [1], [0], Some(0), [], map[], 1),
                                [Thread(User, NoCalls, Reloaded(true)), IDLE])
  {
    var s0 := Spawn(INIT);
    var s1 := Spawn(s0);
    assert Step(INIT, s0) && Step(s0, s1);
    assert s1.threads == [IDLE, IDLE];
    r := [INIT, s0, s1];
    assert forall i: nat :: i + 1 < |r| ==> StepAt(r, i);
    r := Append(r, 0, StartReload);
    r := Append(r, 0, LoadGives(TABLE));
    r := Append(r, 0, Go);
  }

  /** Version 0 is installed and a function made of it. */
  lemma FunctionMade() returns (r: seq<State>)
    ensures IsRun(r)
    ensures r[|r| - 1] == State(Engine([TABLE], [1], [0], Some(0), [FN], map[NAME := 0], 1), [IDLE_AFTER_MAKE, IDLE])
  {
    r := FirstInstalled();
    r := Append(r, 0, StartMake(NAME));
    NameIsOrdinary();
    r := Append(r, 0, Go);
  }

  /** Thread 0 is inside version 0. */
  lemma OneCallUnderWay() returns (r: seq<State>)
    ensures IsRun(r)
    ensures r[|r| - 1] == State(Engine([TABLE], [2], [0], Some(0), [FN], map[NAME := 0], 1), [INSIDE, IDLE])
  {
    r := FunctionMade();
    r := Append(r, 0, StartCall(0));
    r := Append(r, 0, Go);
  }

  /** Thread 0 is inside version 0 when version 1 is installed, so the call that
      thread 1 makes next runs version 0. */
  lemma NewCallMayRunOldVersion() returns (r: seq<State>)
    ensures IsRun(r) && var s := r[|r| - 1];
      && Callable(s, 1, 0) && RebindHits(s.e, 0)
      && s.e.current == Some(1)
      && Executes(s, NewCall(s, 1, 0), 1, Call(0, 1, 0))
      && !RunsCurrent(s, 1, 0)
  {
    r := OneCallUnderWay();
    r := Append(r, 1, StartReload);
    r := Append(r, 1, LoadGives(NEW_TABLE));
    r := Append(r, 1, Go);
    var s := r[|r| - 1];
    assert s == State(Engine([TABLE, NEW_TABLE], [1, 1], [0, 0], Some(1), [FN], map[NAME := 0], 2),
                      [INSIDE, Thread(User, NoCalls, Reloaded(true))]);
    RunInv(r, |r| - 1);
    CallOfLiveBinding(s, 1, 0);
  }

  /** Version 1 is installed while nobody is inside version 0, which so expires. */
  lemma OldVersionExpired() returns (r: seq<State>)
    ensures IsRun(r)
    ensures r[|r| - 1] == State(Engine([TABLE, NEW_TABLE], [0, 1], [1, 0], Some(1), [FN], map[NAME := 0], 2),
                                [Thread(User, NoCalls, Reloaded(true)), IDLE])
  {
    r := FunctionMade();
    r := Append(r, 0, StartReload);
    r := Append(r, 0, LoadGives(NEW_TABLE));
    r := Append(r, 0, Go);
  }

  /** The condition for an undisturbed call is not enough for a disturbed one: at
      r[i] the old version has expired and the current table has the name, but before
      the call rebinds, another thread installs a module without it. */
  lemma DisturbedCallMayThrow() returns (r: seq<State>, i: nat)
    ensures IsRun(r) && i < |r|
    ensures Callable(r[i], 0, 0) && Settled(r[i], 0) && RebindHits(r[i].e, 0) && RunsCurrent(r[i], 0, 0)
    ensures i + 1 < |r| && r[i + 1] == Next(r[i], 0, StartCall(0))
    ensures |r[|r| - 1].threads| == 2 && r[|r| - 1].threads[0] == Thread(User, NoCalls, Threw(0))
  {
    r := OldVersionExpired();
    i := |r| - 1;
    RunInv(r, i);
    NewCallsRunCurrentIff(r[i], 0, 0);
    r := Append(r, 0, StartCall(0));
    r := Append(r, 0, Go);
    r := Append(r, 1, StartReload);
    r := Append(r, 1, LoadGives(map[]));
    r := Append(r, 1, Go);
    r := Append(r, 0, Go);
  }
}
