/** What the hot-reload protocol guarantees over whole runs. */
module Laws {
  import opened Text
  import opened EngineState
  import opened Coarse
  import opened CoarseInvariant

  // ---- Who moves, and how the engine grows ----

  /** A thread's record changes only in a step that this thread takes. */
  lemma OwnStep(s: State, s': State, t: nat) returns (c: Choice)
    requires Step(s, s') && t < |s.threads| && s'.threads[t] != s.threads[t]
    ensures Enabled(s, t, c) && s' == Next(s, t, c)
  {
    var u: nat, d :| Enabled(s, u, d) && s' == Next(s, u, d);
    c := d;
  }

  lemma NextExtends(s: State, t: nat, c: Choice)
    requires Inv(s) && Enabled(s, t, c)
    ensures Extends(s.e, Next(s, t, c).e)
  {
    assert ThreadOk(s.e, s.threads[t]);
    hide ObjOk, RegistryOk, CallsOk, Accounting, GetOrAdd, Rebind, Install;
    match s.threads[t].at {
      case MakeFunc(n) => GetOrAddOk(s.e, n);
      case Rebinding(f, _, _) => if RebindHits(s.e, f) { RebindOk(s.e, f); }
      case Installing(table) => InstallOk(s.e, table);
      case _ =>
    }
  }

  lemma ExtendsItself(e: Engine)
    ensures Extends(e, e)
  {
  }

  lemma StepExtends(s: State, s': State)
    requires Inv(s) && Step(s, s')
    ensures Extends(s.e, s'.e) && |s.threads| <= |s'.threads|
  {
    hide Inv, Extends;
    ExtendsItself(s.e);
    if s' != s && s' != Spawn(s) {
      var t: nat, c :| Enabled(s, t, c) && s' == Next(s, t, c);
      NextExtends(s, t, c);
    }
  }

  lemma ExtendsTransitive(e0: Engine, e1: Engine, e2: Engine)
    requires Extends(e0, e1) && Extends(e1, e2)
    ensures Extends(e0, e2)
  {
    assert e2.gens[..|e0.gens|] == e2.gens[..|e1.gens|][..|e0.gens|];
  }

  /** Version law (a): along every run tables and objects keep their place, and
      the generation an object is bound to never decreases. */
  lemma {:induction false} RunExtends(r: seq<State>, i: nat, j: nat)
    requires IsRun(r) && i <= j < |r|
    ensures Extends(r[i].e, r[j].e) && |r[i].threads| <= |r[j].threads|
    decreases j
  {
    if i < j {
      RunExtends(r, i, j - 1);
      RunInv(r, j - 1);
      assert StepAt(r, j - 1);
      StepExtends(r[j - 1], r[j]);
      ExtendsTransitive(r[i].e, r[j - 1].e, r[j].e);
    }
  }

  // ---- Safety of running procedures ----

  predicate OnStack(call: Call, calls: Calls) {
    calls.Push? && (calls.call == call || OnStack(call, calls.below))
  }

  predicate SafeCall(e: Engine, call: Call) {
    && CallOk(e, call)
    && Alive(e, call.gen)
    && call.gen < |e.torn| && e.torn[call.gen] == 0
  }

  lemma {:induction false} OnStackCounts(e: Engine, calls: Calls, call: Call)
    requires CallsOk(e, calls) && OnStack(call, calls)
    ensures CallOk(e, call) && Refs(calls, call.gen) > 0
  {
    if calls.call != call {
      OnStackCounts(e, calls.below, call);
    }
  }

  /** In every reachable state every procedure being executed, however deeply
      nested, is the entry for its function's name in a module that is alive and
      was never torn down. */
  lemma RunningCallsAreSafe(r: seq<State>, i: nat, t: nat, call: Call)
    requires IsRun(r) && i < |r| && t < |r[i].threads|
    requires OnStack(call, r[i].threads[t].calls)
    ensures SafeCall(r[i].e, call)
  {
    RunInv(r, i);
    var s := r[i];
    assert ThreadOk(s.e, s.threads[t]);
    OnStackCounts(s.e, s.threads[t].calls, call);
    RefsAllAtLeast(s.threads, t, call.gen);
    assert s.e.strong[call.gen] > 0;
  }

  // ---- Reference accounting ----

  /** Every live superseded module has a caller inside it. */
  lemma SupersededHasHolder(s: State, g: Gen) returns (u: nat)
    requires Inv(s) && g < |s.e.gens| && s.e.current != Some(g) && Alive(s.e, g)
    ensures u < |s.threads| && Refs(s.threads[u].calls, g) > 0
  {
    assert s.e.strong[g] == RefsAll(s.threads, g);
    u := HolderExists(s.threads, g);
  }

  /** Each installed module is torn down at most once: exactly when neither the
      engine nor any stack refers to it. */
  lemma TornExactlyWhenUnheld(r: seq<State>, i: nat, g: Gen)
    requires IsRun(r) && i < |r| && g < |r[i].e.gens|
    ensures |r[i].e.torn| == |r[i].e.strong| == |r[i].e.gens|
    ensures r[i].e.strong[g] == (if r[i].e.current == Some(g) then 1 else 0) + RefsAll(r[i].threads, g)
    ensures 0 <= r[i].e.torn[g] <= 1
    ensures r[i].e.torn[g] == 1 <==> r[i].e.current != Some(g) && RefsAll(r[i].threads, g) == 0
  {
    RunInv(r, i);
  }

  lemma DeadStaysDeadNext(s: State, t: nat, c: Choice, g: Gen)
    requires Inv(s) && Enabled(s, t, c) && g < |s.e.gens| && !Alive(s.e, g)
    ensures !Alive(Next(s, t, c).e, g)
  {
    hide ObjOk, RegistryOk, CallsOk, Accounting;
    match s.threads[t].at {
      case MakeFunc(n) => GetOrAddOk(s.e, n);
      case User =>
        if c.Return? {
          ReleasedIsAlive(s, t);
        }
      case _ =>
    }
  }

  /** The reference that a returning procedure drops is one the module has. */
  lemma ReleasedIsAlive(s: State, t: nat)
    requires Inv(s) && Enabled(s, t, Return)
    ensures Alive(s.e, s.threads[t].calls.call.gen)
  {
    hide ObjOk, RegistryOk;
    var g := s.threads[t].calls.call.gen;
    assert ThreadOk(s.e, s.threads[t]);
    RefsAllAtLeast(s.threads, t, g);
    assert s.e.strong[g] >= RefsAll(s.threads, g);
  }

  lemma DeadStaysDead(s: State, s': State, g: Gen)
    requires Inv(s) && Step(s, s') && g < |s.e.gens| && !Alive(s.e, g)
    ensures g < |s'.e.gens| && !Alive(s'.e, g)
  {
    hide Inv, Next;
    StepExtends(s, s');
    if s' != s && s' != Spawn(s) {
      var t: nat, c :| Enabled(s, t, c) && s' == Next(s, t, c);
      DeadStaysDeadNext(s, t, c, g);
    }
  }

  lemma {:induction false} DeadForever(r: seq<State>, i: nat, j: nat, g: Gen)
    requires IsRun(r) && i <= j < |r| && g < |r[i].e.gens| && !Alive(r[i].e, g)
    ensures g < |r[j].e.gens| && !Alive(r[j].e, g)
    decreases j
  {
    if i < j {
      DeadForever(r, i, j - 1, g);
      RunInv(r, j - 1);
      assert StepAt(r, j - 1);
      DeadStaysDead(r[j - 1], r[j], g);
    }
  }

  // ---- Version law ----

  /** (b) A call that begins to execute a superseded generation does so only
      while another activation still holds that module. */
  lemma OldVersionNeedsCompany(s: State, t: nat, s': State, g: Gen) returns (u: nat)
    requires Inv(s) && t < |s.threads| && s.threads[t].at.Try?
    requires s' == Next(s, t, Go) && s'.threads[t].calls != s.threads[t].calls
    requires s'.threads[t].calls.call.gen == g && s.e.current != Some(g)
    ensures u < |s.threads| && Refs(s.threads[u].calls, g) > 0
  {
    assert ThreadOk(s.e, s.threads[t]);
    assert Promoted(s.e, s.threads[t].at.f) == Some(g);
    assert ObjOk(s.e, s.e.objs[s.threads[t].at.f]);
    u := SupersededHasHolder(s, g);
  }

  /** No superseded module is alive. */
  predicate Drained(e: Engine) {
    forall g :: 0 <= g < |e.gens| - 1 ==> !Alive(e, g)
  }

  /** (c) Once the holders of superseded modules have drained, every procedure
      that is or ever will be running belongs to the generation that was current
      then, or to a later one. */
  lemma AfterDrainOnlyNewer(r: seq<State>, i: nat, j: nat, t: nat, call: Call)
    requires IsRun(r) && i <= j < |r| && Drained(r[i].e)
    requires t < |r[j].threads| && OnStack(call, r[j].threads[t].calls)
    ensures call.gen >= |r[i].e.gens| - 1
  {
    RunningCallsAreSafe(r, j, t, call);
    if call.gen < |r[i].e.gens| - 1 {
      DeadForever(r, i, j, call.gen);
    }
  }

  // ---- Retry bound ----

  predicate InCall(s: State, t: nat) {
    t < |s.threads| && (s.threads[t].at.Try? || s.threads[t].at.Rebinding?)
  }

  /** Whether the step from r[m] to r[m + 1] is a promotion attempt of thread t. */
  predicate Attempt(r: seq<State>, t: nat, m: nat)
    requires m + 1 < |r|
  {
    && t < |r[m].threads| && t < |r[m + 1].threads|
    && r[m].threads[t].at.Try? && r[m + 1].threads[t].at != r[m].threads[t].at
  }

  /** The number of promotion attempts thread t makes between r[i] and r[j]. */
  function Attempts(r: seq<State>, t: nat, i: nat, j: nat): nat
    requires i <= j < |r|
    decreases j
  {
    if i == j then 0
    else Attempts(r, t, i, j - 1) + (if Attempt(r, t, j - 1) then 1 else 0)
  }

  lemma {:induction false} FailuresAreAttempts(r: seq<State>, t: nat, i: nat, j: nat)
    requires IsRun(r) && i < j < |r|
    requires t < |r[i].threads| && r[i].threads[t].at.User?
    requires forall m :: i < m <= j ==> InCall(r[m], t)
    ensures InCall(r[j], t)
    ensures r[j].threads[t].at.k == Attempts(r, t, i, j)
    ensures r[j].threads[t].at.b == |r[i].e.gens|
    decreases j
  {
    assert InCall(r[j], t);
    assert StepAt(r, j - 1);
    if j - 1 == i {
      var c := OwnStep(r[i], r[j], t);
      assert Attempts(r, t, i, i) == 0;
    } else {
      assert InCall(r[j - 1], t);
      FailuresAreAttempts(r, t, i, j - 1);
      if r[j].threads[t] != r[j - 1].threads[t] {
        var c := OwnStep(r[j - 1], r[j], t);
      }
    }
  }

  /** A call makes at most two promotion attempts plus one for every module
      installed while it lasts: here r[i] is the state before the call, r[j] one
      in which it is still under way, and r[j + 1] may be its last step. */
  lemma RetryBound(r: seq<State>, t: nat, i: nat, j: nat)
    requires IsRun(r) && i < j && j + 1 < |r|
    requires t < |r[i].threads| && r[i].threads[t].at.User?
    requires forall m :: i < m <= j ==> InCall(r[m], t)
    ensures |r[i].e.gens| <= |r[j].e.gens|
    ensures Attempts(r, t, i, j + 1) <= 2 + (|r[j].e.gens| - |r[i].e.gens|)
  {
    FailuresAreAttempts(r, t, i, j);
    RunInv(r, j);
    RunExtends(r, i, j);
    assert InCall(r[j], t);
    var s := r[j];
    assert ThreadOk(s.e, s.threads[t]);
    if s.threads[t].at.Try? {
      assert ObjOk(s.e, s.e.objs[s.threads[t].at.f]);
    }
  }

  /** With no install during the call and the name present in the current module,
      the attempt after a rebind promotes the current generation. */
  lemma QuietCallSucceeds(s: State, t: nat)
    requires Inv(s) && t < |s.threads|
    requires s.threads[t].at.Try? && s.threads[t].at.b == |s.e.gens| && s.threads[t].at.k > 0
    ensures s.threads[t].at.k == 1
    ensures Promoted(s.e, s.threads[t].at.f).Some? && Promoted(s.e, s.threads[t].at.f) == s.e.current
  {
    var f := s.threads[t].at.f;
    assert ThreadOk(s.e, s.threads[t]);
    assert ObjOk(s.e, s.e.objs[f]);
    if Promoted(s.e, f) == None {
      FailedPromotionIsBehind(s, f);
    }
  }

  // ---- Registry ----

  /** The registry over a run: entries are never removed or remapped, objects
      keep their name and kind, a name with a special meaning never reaches a
      module table, and an installed module is never unset. */
  ghost predicate RegistryGrows(e: Engine, e': Engine) {
    && (forall n :: n in e.funcs ==> n in e'.funcs && e'.funcs[n] == e.funcs[n])
    && |e.objs| <= |e'.objs|
    && (forall f :: 0 <= f < |e.objs| ==>
          e'.objs[f].name == e.objs[f].name && e'.objs[f].spec == e.objs[f].spec)
    && (e.current.Some? ==> e'.current.Some? && e.current.value <= e'.current.value)
  }

  lemma NextGrowsRegistry(s: State, t: nat, c: Choice)
    requires Inv(s) && Enabled(s, t, c)
    ensures RegistryGrows(s.e, Next(s, t, c).e)
  {
    hide ObjOk, RegistryOk, Accounting, ThreadOk;
    match s.threads[t].at {
      case Installing(table) =>
      case _ =>
    }
  }

  lemma StepGrowsRegistry(s: State, s': State)
    requires Inv(s) && Step(s, s')
    ensures RegistryGrows(s.e, s'.e)
  {
    hide Inv, Next;
    if s' != s && s' != Spawn(s) {
      var t: nat, c :| Enabled(s, t, c) && s' == Next(s, t, c);
      NextGrowsRegistry(s, t, c);
    }
  }

  lemma {:induction false} RunGrowsRegistry(r: seq<State>, i: nat, j: nat)
    requires IsRun(r) && i <= j < |r|
    ensures RegistryGrows(r[i].e, r[j].e)
    decreases j
  {
    if i < j {
      RunGrowsRegistry(r, i, j - 1);
      RunInv(r, j - 1);
      assert StepAt(r, j - 1);
      StepGrowsRegistry(r[j - 1], r[j]);
    }
  }

  /** In every reachable state the reload count is the number of installs, an
      object is registered under its own name, and names with a special meaning
      shadow whatever the module tables say. */
  lemma RegistryIsConsistent(r: seq<State>, i: nat)
    requires IsRun(r) && i < |r|
    ensures r[i].e.count == |r[i].e.gens|
    ensures RegistryOk(r[i].e)
    ensures forall f :: 0 <= f < |r[i].e.objs| ==>
      r[i].e.objs[f].spec == SpecOf(r[i].e.objs[f].name)
  {
    RunInv(r, i);
    forall f | 0 <= f < |r[i].e.objs| ensures r[i].e.objs[f].spec == SpecOf(r[i].e.objs[f].name) {
      assert ObjOk(r[i].e, r[i].e.objs[f]);
    }
  }

  // ---- Making a function ----

  /** What a name means, by its letters. */
  lemma SpecByName(n: Name)
    ensures SameIgnoringCase(n, "pse_reload_module") ==> SpecOf(n) == ReloadModule
    ensures SameIgnoringCase(n, "pse_get_module_info") ==> SpecOf(n) == ModuleInfo
    ensures !SameIgnoringCase(n, "pse_reload_module") && !SameIgnoringCase(n, "pse_get_module_info") ==>
      SpecOf(n) == Ordinary
  {
    if SameIgnoringCase(n, "pse_get_module_info") {
      assert |Lower("pse_get_module_info")| == 19 && |Lower("pse_reload_module")| == 17;
    }
  }

  /** Making a function yields the registered object if there is one. Otherwise a new
      object, bound to the current module, is registered, unless the name is neither special nor in the current
      table: then, and only then, nothing is yielded. */
  lemma MakingByName(e: Engine, n: Name)
    requires RegistryOk(e)
    ensures var (e', r) := GetOrAdd(e, n);
      && (n in e.funcs ==> e' == e && r == Some(e.funcs[n]))
      && (n !in e.funcs && r.Some? ==>
            && e'.funcs == e.funcs[n := r.value] && r.value == |e.objs| && |e'.objs| == |e.objs| + 1
            && e'.objs[r.value].weak == e.current
            && (SameIgnoringCase(n, "pse_reload_module") || SameIgnoringCase(n, "pse_get_module_info") ||
                (Has(e, e.current, n) && e'.objs[r.value].proc == e.gens[e.current.value][n])))
      && (r.Some? ==> r.value < |e'.objs| && e'.objs[r.value].name == n && n in e'.funcs && e'.funcs[n] == r.value)
      && (r == None <==>
            && n !in e.funcs
            && !SameIgnoringCase(n, "pse_reload_module") && !SameIgnoringCase(n, "pse_get_module_info")
            && (e.current == None || !Has(e, e.current, n)))
      && (r == None ==> e' == e)
  {
    SpecByName(n);
    hide SpecOf, SameIgnoringCase;
  }

  /** Thread t completes a make of name n with this result, in the step after r[i]. */
  ghost predicate Makes(r: seq<State>, i: nat, t: nat, n: Name, res: Option<nat>) {
    && i + 1 < |r| && t < |r[i].threads| && t < |r[i + 1].threads|
    && r[i].threads[t].at == MakeFunc(n) && r[i + 1].threads[t] != r[i].threads[t]
    && r[i + 1].threads[t].ret == Made(n, res)
  }

  lemma MakeStep(r: seq<State>, i: nat, t: nat, n: Name)
    requires IsRun(r) && i + 1 < |r| && t < |r[i].threads| && t < |r[i + 1].threads|
    requires r[i].threads[t].at == MakeFunc(n) && r[i + 1].threads[t] != r[i].threads[t]
    ensures r[i + 1].e == GetOrAdd(r[i].e, n).0 && Makes(r, i, t, n, GetOrAdd(r[i].e, n).1)
  {
    assert StepAt(r, i);
    var c := OwnStep(r[i], r[i + 1], t);
  }

  /** Once a make of a name has yielded a function object, every later make of that
      name, by any thread, yields the same object. */
  lemma MadeForever(r: seq<State>, i: nat, j: nat, t: nat, u: nat, n: Name, f: nat)
    requires IsRun(r) && Makes(r, i, t, n, Some(f)) && i < j && j + 1 < |r|
    requires u < |r[j].threads| && u < |r[j + 1].threads|
    requires r[j].threads[u].at == MakeFunc(n) && r[j + 1].threads[u] != r[j].threads[u]
    ensures Makes(r, j, u, n, Some(f)) && r[j + 1].e == r[j].e
  {
    hide Inv, Step, GetOrAdd;
    MakeStep(r, i, t, n);
    MakeStep(r, j, u, n);
    RegistryIsConsistent(r, i);
    RegistryIsConsistent(r, j);
    MakingByName(r[i].e, n);
    MakingByName(r[j].e, n);
    RunGrowsRegistry(r, i + 1, j);
  }

  // ---- Calling a function, by its name ----

  /** A call goes where the name of the function says. */
  lemma CallGoesByName(r: seq<State>, i: nat, t: nat, f: nat)
    requires IsRun(r) && i < |r| && Enabled(r[i], t, StartCall(f))
    ensures var n := r[i].e.objs[f].name;
      var at := Next(r[i], t, StartCall(f)).threads[t].at;
      && (SameIgnoringCase(n, "pse_reload_module") ==> at == Loading)
      && (SameIgnoringCase(n, "pse_get_module_info") ==> at == Asking)
      && (!SameIgnoringCase(n, "pse_reload_module") && !SameIgnoringCase(n, "pse_get_module_info") ==>
            at == Try(f, 0, |r[i].e.gens|))
  {
    RegistryIsConsistent(r, i);
    SpecByName(r[i].e.objs[f].name);
  }

  /** A reload that loads a table installs that table as the current module; and
      asking says whether there is a module, and changes nothing. */
  lemma ReloadAndAsk(s: State, t: nat, table: Table)
    requires Inv(s) && t < |s.threads|
    ensures s.threads[t].at == Loading ==>
      Enabled(s, t, LoadGives(table)) && Next(s, t, LoadGives(table)).threads[t].at == Installing(table)
    ensures s.threads[t].at == Loading ==>
      && Enabled(s, t, LoadFails) && Next(s, t, LoadFails).e == s.e
      && Next(s, t, LoadFails).threads[t] == s.threads[t].(at := User, ret := Reloaded(false))
    ensures s.threads[t].at == Installing(table) ==>
      var s' := Next(s, t, Go);
      && s'.e.gens == s.e.gens + [table] && s'.e.current == Some(|s.e.gens|)
      && s'.threads[t].at == User && s'.threads[t].ret == Reloaded(true)
    ensures s.threads[t].at == Asking ==>
      Next(s, t, Go).e == s.e && Next(s, t, Go).threads[t].ret == Info(s.e.current != None)
  {
    hide ObjOk, RegistryOk, Accounting, ThreadOk;
  }

  /** User code, at any depth of nesting, may make and call functions and reload, each
      time with what it asks for; and a procedure returns to the one that called it. */
  lemma UserMayReenter(s: State, t: nat, n: Name, f: nat)
    requires t < |s.threads| && s.threads[t].at == User
    ensures Enabled(s, t, StartMake(n)) && Enabled(s, t, StartReload)
    ensures f < |s.e.objs| ==> Enabled(s, t, StartCall(f))
    ensures s.threads[t].calls != NoCalls ==> Enabled(s, t, Return)
    ensures Next(s, t, StartMake(n)).threads[t] == s.threads[t].(at := MakeFunc(n))
    ensures Next(s, t, StartReload).threads[t] == s.threads[t].(at := Loading)
    ensures f < |s.e.objs| ==> Next(s, t, StartCall(f)).threads[t].calls == s.threads[t].calls
    ensures s.threads[t].calls != NoCalls ==>
      var th, calls := Next(s, t, Return).threads[t], s.threads[t].calls;
      th.at == User && th.calls == calls.below && th.ret == Ran(calls.call.f)
  {
  }

  /** A reload reports success exactly when it installed a module; one that fails
      to load leaves the whole engine untouched. */
  lemma FailedReloadChangesNothing(s: State, t: nat, c: Choice)
    requires Inv(s) && Enabled(s, t, c)
    requires s.threads[t].at.Loading? || s.threads[t].at.Installing?
    ensures var s' := Next(s, t, c);
      && (s'.threads[t].at.User? ==>
            s'.threads[t].ret == Reloaded(|s'.e.gens| == |s.e.gens| + 1 && s'.e.count == s.e.count + 1))
      && (c.LoadFails? ==> s'.e == s.e)
  {
  }
}
