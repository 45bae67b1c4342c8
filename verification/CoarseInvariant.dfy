/** What every step of the coarse protocol keeps: the registry, the bindings,
    the reference counts and the retry budget. */
module CoarseInvariant {
  import opened Text
  import opened EngineState
  import opened Coarse

  /** How many references to generation g a stack of calls holds. */
  function Refs(calls: Calls, g: Gen): nat {
    match calls
    case NoCalls => 0
    case Push(call, below) => (if call.gen == g then 1 else 0) + Refs(below, g)
  }

  function RefsAll<P>(threads: seq<Thread<P>>, g: Gen): nat {
    if threads == [] then 0 else Refs(threads[0].calls, g) + RefsAll(threads[1..], g)
  }

  lemma {:induction false} RefsAllUpdate<P>(threads: seq<Thread<P>>, t: nat, th: Thread<P>, g: Gen)
    requires t < |threads|
    ensures RefsAll(threads[t := th], g) == RefsAll(threads, g) - Refs(threads[t].calls, g) + Refs(th.calls, g)
  {
    var updated := threads[t := th];
    if t == 0 {
      assert updated[1..] == threads[1..];
    } else {
      assert updated[1..] == threads[1..][t - 1 := th];
      RefsAllUpdate(threads[1..], t - 1, th, g);
    }
  }

  lemma {:induction false} RefsAllAppend<P>(threads: seq<Thread<P>>, th: Thread<P>, g: Gen)
    ensures RefsAll(threads + [th], g) == RefsAll(threads, g) + Refs(th.calls, g)
  {
    if threads == [] {
      assert threads + [th] == [th];
      assert [th][1..] == [];
    } else {
      assert (threads + [th])[1..] == threads[1..] + [th];
      RefsAllAppend(threads[1..], th, g);
    }
  }

  lemma {:induction false} RefsAllAtLeast<P>(threads: seq<Thread<P>>, t: nat, g: Gen)
    requires t < |threads|
    ensures RefsAll(threads, g) >= Refs(threads[t].calls, g)
  {
    if t > 0 {
      RefsAllAtLeast(threads[1..], t - 1, g);
    }
  }

  /** A positive total has a witness thread. */
  lemma {:induction false} HolderExists<P>(threads: seq<Thread<P>>, g: Gen) returns (t: nat)
    requires RefsAll(threads, g) > 0
    ensures t < |threads| && Refs(threads[t].calls, g) > 0
  {
    if Refs(threads[0].calls, g) > 0 {
      t := 0;
    } else {
      var t' := HolderExists(threads[1..], g);
      t := t' + 1;
    }
  }

  predicate CallOk(e: Engine, call: Call) {
    && call.f < |e.objs|
    && e.objs[call.f].spec == Ordinary
    && Has(e, Some(call.gen), e.objs[call.f].name)
    && e.gens[call.gen][e.objs[call.f].name] == call.proc
  }

  predicate CallsOk(e: Engine, calls: Calls) {
    calls.Push? ==> CallOk(e, calls.call) && CallsOk(e, calls.below)
  }

  predicate PcOk(e: Engine, at: Pc) {
    match at
    case Try(f, k, b) =>
      && f < |e.objs| && e.objs[f].spec == Ordinary && e.objs[f].weak.Some?
      && b <= |e.gens|
      && (k > 0 ==> e.objs[f].weak.value + 1 >= b + k - 1)
    case Rebinding(f, k, b) =>
      && f < |e.objs| && e.objs[f].spec == Ordinary
      && b <= |e.gens| && k > 0 && |e.gens| >= b + k - 1
    case _ => true
  }

  predicate ThreadOk(e: Engine, th: Thread<Pc>) {
    PcOk(e, th.at) && CallsOk(e, th.calls)
  }

  /** The use count of a generation is one for the engine if it is current, plus
      the references on all stacks; its destructor ran once if that sum is zero,
      and never before. */
  ghost predicate Accounting(s: State) {
    forall g :: 0 <= g < |s.e.gens| && g < |s.e.strong| && g < |s.e.torn| ==>
      && s.e.strong[g] == (if s.e.current == Some(g) then 1 else 0) + RefsAll(s.threads, g)
      && s.e.torn[g] == if s.e.strong[g] == 0 then 1 else 0
  }

  ghost predicate Inv(s: State) {
    && EngineOk(s.e)
    && (forall t :: 0 <= t < |s.threads| ==> ThreadOk(s.e, s.threads[t]))
    && Accounting(s)
  }

  /** e' has everything e had: tables and objects keep their place, an ordinary
      object's binding may only move forward. */
  ghost predicate Extends(e: Engine, e': Engine) {
    && |e.gens| <= |e'.gens| && e'.gens[..|e.gens|] == e.gens
    && |e.objs| <= |e'.objs|
    && (forall f :: 0 <= f < |e.objs| ==>
          && e'.objs[f].name == e.objs[f].name
          && e'.objs[f].spec == e.objs[f].spec
          && (e.objs[f].weak.Some? ==> e'.objs[f].weak.Some? && e.objs[f].weak.value <= e'.objs[f].weak.value))
  }

  lemma ExtendsTables(e: Engine, e': Engine, g: Gen)
    requires Extends(e, e') && g < |e.gens|
    ensures e'.gens[g] == e.gens[g]
  {
    assert e'.gens[..|e.gens|][g] == e'.gens[g];
  }

  lemma {:induction false} CallsStayOk(e: Engine, e': Engine, calls: Calls)
    requires Extends(e, e') && CallsOk(e, calls)
    ensures CallsOk(e', calls)
  {
    if calls.Push? {
      ExtendsTables(e, e', calls.call.gen);
      CallsStayOk(e, e', calls.below);
    }
  }

  lemma ThreadStaysOk(e: Engine, e': Engine, th: Thread<Pc>)
    requires Extends(e, e') && ThreadOk(e, th)
    ensures ThreadOk(e', th)
  {
    CallsStayOk(e, e', th.calls);
  }

  /** The shape shared by all steps: the engine grows, one thread changes, and
      the accounts of each generation move with that thread's references. */
  lemma StepKeepsInv(s: State, e': Engine, t: nat, th: Thread<Pc>)
    requires Inv(s) && t < |s.threads|
    requires Extends(s.e, e') && EngineOk(e') && ThreadOk(e', th)
    requires forall g :: 0 <= g < |e'.gens| ==>
      && e'.strong[g] == (if e'.current == Some(g) then 1 else 0)
           + RefsAll(s.threads, g) - Refs(s.threads[t].calls, g) + Refs(th.calls, g)
      && e'.torn[g] == if e'.strong[g] == 0 then 1 else 0
    ensures Inv(Put(s, e', t, th))
  {
    var s' := Put(s, e', t, th);
    forall u | 0 <= u < |s'.threads| ensures ThreadOk(s'.e, s'.threads[u]) {
      if u != t {
        ThreadStaysOk(s.e, e', s.threads[u]);
      }
    }
    forall g | 0 <= g < |e'.gens|
      ensures RefsAll(s'.threads, g) == RefsAll(s.threads, g) - Refs(s.threads[t].calls, g) + Refs(th.calls, g)
    {
      RefsAllUpdate(s.threads, t, th, g);
    }
  }

  /** A step that changes neither the engine nor the thread's calls. */
  lemma QuietKeepsInv(s: State, t: nat, th: Thread<Pc>)
    requires Inv(s) && t < |s.threads|
    requires ThreadOk(s.e, th) && th.calls == s.threads[t].calls
    ensures Inv(Put(s, s.e, t, th))
  {
    StepKeepsInv(s, s.e, t, th);
  }

  lemma {:induction false} NoRefsBeyond(e: Engine, calls: Calls, g: Gen)
    requires CallsOk(e, calls) && g >= |e.gens|
    ensures Refs(calls, g) == 0
  {
    if calls.Push? {
      NoRefsBeyond(e, calls.below, g);
    }
  }

  lemma NobodyHoldsTheFuture(s: State, g: Gen)
    requires Inv(s) && g >= |s.e.gens|
    ensures RefsAll(s.threads, g) == 0
  {
    if RefsAll(s.threads, g) > 0 {
      var t := HolderExists(s.threads, g);
      NoRefsBeyond(s.e, s.threads[t].calls, g);
    }
  }

  lemma GetOrAddOk(e: Engine, name: Name)
    requires EngineOk(e)
    ensures var (e', r) := GetOrAdd(e, name);
      && EngineOk(e') && Extends(e, e')
      && e'.strong == e.strong && e'.torn == e.torn && e'.current == e.current
  {
    if name !in e.funcs && NewFunc(e, name).Some? {
      AddedOk(e, NewFunc(e, name).value);
    }
  }

  /** Registering a function object that is in order. */
  lemma AddedOk(e: Engine, fn: Func)
    requires EngineOk(e) && fn.name !in e.funcs && ObjOk(e, fn)
    ensures var e' := e.(objs := e.objs + [fn], funcs := e.funcs[fn.name := |e.objs|]);
      EngineOk(e') && Extends(e, e')
  {
    hide SpecOf;
    var e' := e.(objs := e.objs + [fn], funcs := e.funcs[fn.name := |e.objs|]);
    forall f | 0 <= f < |e'.objs| ensures ObjOk(e', e'.objs[f]) {
      if f < |e.objs| {
        assert ObjOk(e, e.objs[f]);
        assert e'.objs[f] == e.objs[f];
      }
    }
  }

  lemma RebindOk(e: Engine, f: nat)
    requires EngineOk(e) && RebindHits(e, f) && e.objs[f].spec == Ordinary
    ensures EngineOk(Rebind(e, f)) && Extends(e, Rebind(e, f))
    ensures Rebind(e, f).objs[f].weak == e.current
  {
    var e' := Rebind(e, f);
    assert e'.gens == e.gens;
    forall h | 0 <= h < |e'.objs| ensures ObjOk(e', e'.objs[h]) {
      assert ObjOk(e, e.objs[h]);
    }
    assert ObjOk(e, e.objs[f]);
  }

  lemma InstallOk(e: Engine, table: Table)
    requires EngineOk(e)
    ensures EngineOk(Install(e, table)) && Extends(e, Install(e, table))
  {
    var e' := Install(e, table);
    assert e'.gens == e.gens + [table];
    forall f | 0 <= f < |e'.objs| ensures ObjOk(e', e'.objs[f]) {
      assert ObjOk(e, e.objs[f]);
    }
  }

  lemma InstallKeepsInv(s: State, t: nat, table: Table)
    requires Inv(s) && t < |s.threads| && s.threads[t].at == Installing(table)
    ensures Inv(Next(s, t, Go))
  {
    var e' := Install(s.e, table);
    InstallOk(s.e, table);
    NobodyHoldsTheFuture(s, |s.e.gens|);
    var th := s.threads[t].(at := User, ret := Reloaded(true));
    ThreadStaysOk(s.e, e', s.threads[t]);
    StepKeepsInv(s, e', t, th);
  }

  /** Use counts play no part in the engine's own consistency. */
  lemma CountsAreFree(e: Engine, e': Engine)
    requires EngineOk(e) && |e'.strong| == |e'.torn| == |e.gens|
    requires e' == e.(strong := e'.strong, torn := e'.torn)
    ensures EngineOk(e') && Extends(e, e')
  {
    forall f | 0 <= f < |e'.objs| ensures ObjOk(e', e'.objs[f]) {
      assert ObjOk(e, e.objs[f]);
    }
  }

  lemma PromoteKeepsInv(s: State, t: nat, f: nat, g: Gen)
    requires Inv(s) && t < |s.threads| && f < |s.e.objs| && s.e.objs[f].spec == Ordinary
    requires Promoted(s.e, f) == Some(g)
    ensures var calls := Push(Call(f, s.e.objs[f].proc, g), s.threads[t].calls);
      Inv(Put(s, Retain(s.e, g), t, s.threads[t].(at := User, calls := calls)))
  {
    var th := s.threads[t];
    var call := Call(f, s.e.objs[f].proc, g);
    assert ObjOk(s.e, s.e.objs[f]);
    assert CallOk(s.e, call);
    CountsAreFree(s.e, Retain(s.e, g));
    assert ThreadOk(s.e, th);
    CallsStayOk(s.e, Retain(s.e, g), Push(call, th.calls));
    StepKeepsInv(s, Retain(s.e, g), t, th.(at := User, calls := Push(call, th.calls)));
  }

  lemma TryKeepsInv(s: State, t: nat)
    requires Inv(s) && t < |s.threads| && s.threads[t].at.Try?
    ensures Inv(Next(s, t, Go))
  {
    var th := s.threads[t];
    var Try(f, k, b) := th.at;
    assert ThreadOk(s.e, th);
    match Promoted(s.e, f) {
      case Some(g) => PromoteKeepsInv(s, t, f, g);
      case None =>
        FailedPromotionIsBehind(s, f);
        QuietKeepsInv(s, t, th.(at := Rebinding(f, k + 1, b)));
    }
  }

  /** A promotion fails only when the function is bound behind the current
      generation, because the engine itself keeps the current one alive. */
  lemma FailedPromotionIsBehind(s: State, f: nat)
    requires Inv(s) && f < |s.e.objs| && s.e.objs[f].spec == Ordinary
    requires Promoted(s.e, f) == None
    ensures s.e.objs[f].weak.Some? && s.e.objs[f].weak.value + 2 <= |s.e.gens|
  {
    assert ObjOk(s.e, s.e.objs[f]);
    var g := s.e.objs[f].weak.value;
    assert s.e.strong[g] == (if s.e.current == Some(g) then 1 else 0) + RefsAll(s.threads, g);
  }

  lemma RebindingKeepsInv(s: State, t: nat)
    requires Inv(s) && t < |s.threads| && s.threads[t].at.Rebinding?
    ensures Inv(Next(s, t, Go))
  {
    var th := s.threads[t];
    var Rebinding(f, k, b) := th.at;
    assert ThreadOk(s.e, th);
    if RebindHits(s.e, f) {
      var e' := Rebind(s.e, f);
      RebindOk(s.e, f);
      ThreadStaysOk(s.e, e', th.(at := User));
      StepKeepsInv(s, e', t, th.(at := Try(f, k, b)));
    } else {
      QuietKeepsInv(s, t, th.(at := User, ret := Threw(f)));
    }
  }

  lemma ReturnKeepsInv(s: State, t: nat)
    requires Inv(s) && Enabled(s, t, Return)
    ensures Inv(Next(s, t, Return))
  {
    hide ObjOk, RegistryOk;
    var th := s.threads[t];
    assert ThreadOk(s.e, th);
    var g := th.calls.call.gen;
    RefsAllAtLeast(s.threads, t, g);
    var e' := Release(s.e, g);
    CountsAreFree(s.e, e');
    CallsStayOk(s.e, e', th.calls.below);
    StepKeepsInv(s, e', t, Thread(User, th.calls.below, Ran(th.calls.call.f)));
  }

  lemma MakeKeepsInv(s: State, t: nat)
    requires Inv(s) && t < |s.threads| && s.threads[t].at.MakeFunc?
    ensures Inv(Next(s, t, Go))
  {
    var th := s.threads[t];
    var n := th.at.name;
    var (e', r) := GetOrAdd(s.e, n);
    GetOrAddOk(s.e, n);
    ThreadStaysOk(s.e, e', th);
    assert e'.gens == s.e.gens;
    StepKeepsInv(s, e', t, th.(at := User, ret := Made(n, r)));
  }

  lemma NextKeepsInv(s: State, t: nat, c: Choice)
    requires Inv(s) && Enabled(s, t, c)
    ensures Inv(Next(s, t, c))
  {
    var th := s.threads[t];
    assert ThreadOk(s.e, th);
    match th.at {
      case User =>
        match c {
          case Return => ReturnKeepsInv(s, t);
          case StartMake(n) => QuietKeepsInv(s, t, th.(at := MakeFunc(n)));
          case StartCall(f) =>
            assert ObjOk(s.e, s.e.objs[f]);
            QuietKeepsInv(s, t, th.(at := Entry(s.e, f)));
          case StartReload => QuietKeepsInv(s, t, th.(at := Loading));
        }
      case MakeFunc(_) => MakeKeepsInv(s, t);
      case Try(_, _, _) => TryKeepsInv(s, t);
      case Rebinding(_, _, _) => RebindingKeepsInv(s, t);
      case Loading =>
        match c {
          case LoadGives(table) => QuietKeepsInv(s, t, th.(at := Installing(table)));
          case LoadFails => QuietKeepsInv(s, t, th.(at := User, ret := Reloaded(false)));
        }
      case Installing(table) => InstallKeepsInv(s, t, table);
      case Asking => QuietKeepsInv(s, t, th.(at := User, ret := Info(s.e.current.Some?)));
    }
  }

  lemma SpawnKeepsInv(s: State)
    requires Inv(s)
    ensures Inv(Spawn(s))
  {
    forall g | 0 <= g < |s.e.gens| ensures RefsAll(Spawn(s).threads, g) == RefsAll(s.threads, g) {
      RefsAllAppend(s.threads, IDLE, g);
    }
  }

  lemma StepInv(s: State, s': State)
    requires Inv(s) && Step(s, s')
    ensures Inv(s')
  {
    if s' != s {
      if s' == Spawn(s) {
        SpawnKeepsInv(s);
      } else {
        var t: nat, c :| Enabled(s, t, c) && s' == Next(s, t, c);
        NextKeepsInv(s, t, c);
      }
    }
  }

  lemma {:induction false} RunInv(r: seq<State>, i: nat)
    requires IsRun(r) && i < |r|
    ensures Inv(r[i])
  {
    if i > 0 {
      RunInv(r, i - 1);
      assert StepAt(r, i - 1);
      StepInv(r[i - 1], r[i]);
    }
  }
}
