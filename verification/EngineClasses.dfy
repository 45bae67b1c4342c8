/** The classes of the plugin, with their fields updated in place. Each method is
    one critical section, or a sequence of them run by one thread, and is proved
    against the operation of EngineState that the protocol machines use. */
module EngineClasses {
  import opened Text
  import opened EngineState
  import CI = CoarseInvariant
  import L = Laws

  /** An entry of the array a user module exports. */
  datatype Entry = Entry(name: Name, proc: Proc)

  /** The table an array of entries denotes; of entries with equal names the last
      one counts. */
  function TableOf(entries: seq<Entry>): Table {
    if entries == [] then map[]
    else
      var n := |entries| - 1;
      TableOf(entries[..n])[entries[n].name := entries[n].proc]
  }

  predicate IsLast(entries: seq<Entry>, i: nat, name: Name)
    requires i < |entries|
  {
    entries[i].name == name && forall j :: i < j < |entries| ==> entries[j].name != name
  }

  lemma {:induction false} TableHasEntries(entries: seq<Entry>, name: Name)
    ensures name in TableOf(entries) <==> exists i: nat :: i < |entries| && entries[i].name == name
  {
    if entries != [] {
      var n: nat := |entries| - 1;
      TableHasEntries(entries[..n], name);
      if entries[n].name != name && name in TableOf(entries) {
        var i: nat :| i < |entries[..n]| && entries[..n][i].name == name;
        assert entries[i].name == name;
      }
      if i: nat :| i < n && entries[i].name == name {
        assert entries[..n][i].name == name;
      }
    }
  }

  lemma {:induction false} TableOfLast(entries: seq<Entry>, i: nat)
    requires i < |entries| && IsLast(entries, i, entries[i].name)
    ensures entries[i].name in TableOf(entries) && TableOf(entries)[entries[i].name] == entries[i].proc
  {
    var n: nat := |entries| - 1;
    if i < n {
      assert entries[n].name != entries[i].name;
      assert forall j :: i < j < n ==> entries[..n][j].name == entries[j].name;
      TableOfLast(entries[..n], i);
    }
  }

  /** PSModule together with the use count its shared_ptr keeps. */
  class PSModule {
    var execProcs: Table
    var strong: int
    var torn: int
    ghost var gen: Gen

    /** A successful load: the table is filled entry by entry. The creator holds
        the first reference. */
    constructor (entries: seq<Entry>)
      ensures execProcs == TableOf(entries) && strong == 1 && torn == 0
    {
      execProcs := map[];
      strong, torn := 1, 0;
      new;
      for i := 0 to |entries|
        invariant execProcs == TableOf(entries[..i]) && strong == 1 && torn == 0
      {
        assert entries[..i + 1][..i] == entries[..i];
        execProcs := execProcs[entries[i].name := entries[i].proc];
      }
      assert entries[..|entries|] == entries;
    }

    method Release()
      modifies this`strong, this`torn
      ensures strong == old(strong) - 1
      ensures torn == old(torn) + if old(strong) == 1 then 1 else 0
    {
      strong := strong - 1;
      if strong == 0 {
        torn := torn + 1;
      }
    }
  }

  class PSEFuncImpl {
    const name: Name
    const spec: Spec
    var execProc: Proc
    var weakModule: PSModule?
    ghost var id: nat

    constructor (name: Name, spec: Spec, proc: Proc, module_: PSModule?)
      ensures this.name == name && this.spec == spec && execProc == proc && weakModule == module_
    {
      this.name := name;
      this.spec := spec;
      execProc := proc;
      weakModule := module_;
    }

    /** lock_module: the procedure, and a new strong reference if the module is
        still alive. */
    method LockModule() returns (p: Proc, m: PSModule?)
      modifies if weakModule == null then {} else {weakModule}
      ensures p == execProc
      ensures m == if weakModule != null && old(weakModule.strong) > 0 then weakModule else null
      ensures m != null ==>
        && m.strong == old(m.strong) + 1 && m.torn == old(m.torn)
        && m.execProcs == old(m.execProcs) && m.gen == old(m.gen)
      ensures m == null && weakModule != null ==> unchanged(weakModule)
    {
      p := execProc;
      m := null;
      if weakModule != null && weakModule.strong > 0 {
        weakModule.strong := weakModule.strong + 1;
        m := weakModule;
      }
    }
  }

  /** What became of a call. */
  datatype Outcome =
    | Executed(proc: Proc, m: PSModule)
    | CouldNotRebind
    | ReloadDone(ok: bool)
    | InfoDone(found: bool)

  /** Module object m is generation g of the engine state e. */
  ghost predicate ModuleShows(m: PSModule, g: nat, e: Engine)
    reads m
  {
    && m.gen == g
    && g < |e.gens| && m.execProcs == e.gens[g]
    && g < |e.strong| && m.strong == e.strong[g]
    && g < |e.torn| && m.torn == e.torn[g]
  }

  ghost predicate Designates(installed: seq<PSModule>, m: PSModule?, g: Option<Gen>) {
    match g
    case None => m == null
    case Some(i) => i < |installed| && m == installed[i]
  }

  /** Function object fn is object f of the engine state e. */
  ghost predicate FuncShows(fn: PSEFuncImpl, f: nat, e: Engine, installed: seq<PSModule>)
    reads fn
  {
    && fn.id == f
    && f < |e.objs|
    && fn.name == e.objs[f].name && fn.spec == e.objs[f].spec && fn.execProc == e.objs[f].proc
    && Designates(installed, fn.weakModule, e.objs[f].weak)
  }

  class PSEngine {
    var module_: PSModule?
    var funcs: map<Name, PSEFuncImpl>
    var reloadCount: nat
    ghost var installed: seq<PSModule>
    ghost var made: seq<PSEFuncImpl>
    ghost var e: Engine

    /** The fields, through the objects they refer to, are the engine state e. */
    ghost predicate Valid()
      reads this, installed, made
    {
      ValidBut(null)
    }

    /** The same, leaving open the counters of one module. */
    ghost predicate ValidBut(x: PSModule?)
      reads this, installed, made
    {
      && EngineOk(e)
      && |installed| == |e.gens| && |made| == |e.objs|
      && (forall g :: 0 <= g < |installed| ==> installed[g].gen == g)
      && (forall g :: 0 <= g < |installed| && installed[g] != x ==> ModuleShows(installed[g], g, e))
      && (forall f :: 0 <= f < |made| ==> FuncShows(made[f], f, e, installed))
      && Designates(installed, module_, e.current)
      && funcs.Keys == e.funcs.Keys
      && (forall n :: n in funcs ==> n in e.funcs && e.funcs[n] < |made| && funcs[n] == made[e.funcs[n]])
      && reloadCount == e.count
    }

    /** The engine's own reference keeps the current module alive. */
    ghost predicate CurrentIsAlive()
      reads this
    {
      e.current.Some? ==> Alive(e, e.current.value)
    }

    constructor ()
      ensures Valid() && e == EMPTY_ENGINE && CurrentIsAlive()
    {
      module_ := null;
      funcs := map[];
      reloadCount := 0;
      installed, made := [], [];
      e := EMPTY_ENGINE;
    }

    ghost predicate IsMine(fn: PSEFuncImpl)
      reads this, fn
    {
      fn.id < |made| && made[fn.id] == fn
    }

    method GetOrAddFunc(entry: Name) returns (fn: PSEFuncImpl?)
      requires Valid()
      modifies this
      ensures Valid() && installed == old(installed) && old(made) <= made
      ensures e == GetOrAdd(old(e), entry).0
      ensures fn == null <==> GetOrAdd(old(e), entry).1 == None
      ensures fn != null ==> IsMine(fn) && GetOrAdd(old(e), entry).1 == Some(fn.id)
      ensures module_ == old(module_)
      ensures entry in old(funcs) ==> fn == old(funcs[entry]) && e == old(e) && funcs == old(funcs)
      ensures fn != null ==> fn.name == entry && entry in funcs && funcs[entry] == fn
      ensures fn == null <==>
        && entry !in old(funcs)
        && !SameIgnoringCase(entry, "pse_reload_module") && !SameIgnoringCase(entry, "pse_get_module_info")
        && (module_ == null || entry !in module_.execProcs)
      ensures entry !in old(funcs) && fn != null ==>
        && fresh(fn) && funcs == old(funcs)[entry := fn] && fn.weakModule == module_
        && (SameIgnoringCase(entry, "pse_reload_module") || SameIgnoringCase(entry, "pse_get_module_info") ||
            (module_ != null && entry in module_.execProcs && fn.execProc == module_.execProcs[entry]))
    {
      L.SpecByName(entry);
      if entry in funcs {
        fn := funcs[entry];
        assert FuncShows(made[e.funcs[entry]], e.funcs[entry], e, installed);
        return;
      }
      fn := null;
      var spec := SpecOf(entry);
      if module_ != null {
        assert ModuleShows(module_, e.current.value, e);
      }
      if spec != Ordinary {
        fn := new PSEFuncImpl(entry, spec, NULL_PROC, module_);
      } else if module_ != null && entry in module_.execProcs {
        fn := new PSEFuncImpl(entry, Ordinary, module_.execProcs[entry], module_);
      }
      if fn != null {
        Register(fn);
      }
    }

    /** A new object under a new name, in the table as in the list. */
    static lemma NamesShown(table: map<Name, PSEFuncImpl>, objects: seq<PSEFuncImpl>, index: map<Name, nat>,
                            fn: PSEFuncImpl)
      requires table.Keys == index.Keys
      requires forall n :: n in table ==> n in index && index[n] < |objects| && table[n] == objects[index[n]]
      ensures var table', objects', index' :=
          table[fn.name := fn], objects + [fn], index[fn.name := |objects|];
        && table'.Keys == index'.Keys
        && forall n :: n in table' ==> n in index' && index'[n] < |objects'| && table'[n] == objects'[index'[n]]
    {
    }

    /** Publishing a new function object under its name. */
    method Register(fn: PSEFuncImpl)
      requires Valid() && fn !in made && fn.name !in funcs
      requires NewFunc(e, fn.name) == Some(Func(fn.name, fn.spec, fn.execProc, e.current))
      requires fn.weakModule == module_
      modifies this`funcs, this`made, this`e, fn`id
      ensures Valid() && made == old(made) + [fn] && IsMine(fn)
      ensures funcs == old(funcs)[fn.name := fn]
      ensures e == GetOrAdd(old(e), fn.name).0 && GetOrAdd(old(e), fn.name).1 == Some(fn.id)
    {
      hide EngineOk, SpecOf, NewFunc, GetOrAdd, SameIgnoringCase, Designates;
      NamesShown(funcs, made, e.funcs, fn);
      ghost var e0, made0 := e, made;
      NewFuncKeepsOk(e, Func(fn.name, fn.spec, fn.execProc, e.current));
      fn.id := |made|;
      funcs := funcs[fn.name := fn];
      made := made + [fn];
      e := GetOrAdd(e, fn.name).0;
      forall f | 0 <= f < |made| ensures FuncShows(made[f], f, e, installed) {
        if f < |made0| {
          assert FuncShows(made0[f], f, e0, installed);
        }
      }
      forall g | 0 <= g < |installed| ensures ModuleShows(installed[g], g, e) {
        assert ModuleShows(installed[g], g, e0);
      }
    }

    method RebindFunction(fn: PSEFuncImpl) returns (ok: bool)
      requires Valid() && IsMine(fn) && fn.spec == Ordinary
      modifies this`e, fn`execProc, fn`weakModule
      ensures Valid()
      ensures ok == RebindHits(old(e), fn.id)
      ensures e == Rebind(old(e), fn.id)
      ensures ok <==> module_ != null && fn.name in module_.execProcs
      ensures if ok then fn.execProc == module_.execProcs[fn.name] && fn.weakModule == module_ else unchanged(fn)
    {
      hide EngineOk;
      ghost var e0 := e;
      assert FuncShows(fn, fn.id, e, installed);
      if module_ != null {
        assert ModuleShows(module_, e.current.value, e);
      }
      ok := module_ != null && fn.name in module_.execProcs;
      if ok {
        CI.RebindOk(e, fn.id);
        fn.execProc := module_.execProcs[fn.name];
        fn.weakModule := module_;
        e := Rebind(e, fn.id);
        forall f | 0 <= f < |made| ensures FuncShows(made[f], f, e, installed) {
          if f != fn.id {
            assert FuncShows(made[f], f, e0, installed);
          }
        }
        forall g | 0 <= g < |installed| ensures ModuleShows(installed[g], g, e) {
          assert ModuleShows(installed[g], g, e0);
        }
      }
    }

    /** reloadModule; `loaded` is what loading the file produced: the entries of
        the new module, or nothing. */
    method Reload(loaded: Option<seq<Entry>>) returns (ok: bool)
      requires Valid() && CurrentIsAlive()
      modifies this, installed
      ensures Valid() && CurrentIsAlive() && made == old(made)
      ensures ok == loaded.Some?
      ensures e == if ok then Install(old(e), TableOf(loaded.value)) else old(e)
      ensures if ok then Reloaded(TableOf(loaded.value), old(reloadCount), |old(e).gens|)
              else module_ == old(module_) && reloadCount == old(reloadCount)
    {
      ok := loaded.Some?;
      if ok {
        var newmod := new PSModule(loaded.value);
        InstallModule(newmod);
      }
    }

    /** A new module with this table is the current one, and was counted. */
    ghost predicate Reloaded(table: Table, countBefore: nat, gensBefore: nat)
      reads this, installed
    {
      && module_ != null && module_ in installed && module_.execProcs == table && module_.strong > 0
      && reloadCount == countBefore + 1 && |e.gens| == gensBefore + 1
    }

    /** The part of reloadModule inside engine_mutex. */
    method InstallModule(newmod: PSModule)
      requires Valid() && CurrentIsAlive() && newmod !in installed
      requires newmod.strong == 1 && newmod.torn == 0
      modifies this`e, this`module_, this`reloadCount, this`installed, installed, newmod`gen
      ensures Valid() && CurrentIsAlive() && made == old(made)
      ensures e == Install(old(e), old(newmod.execProcs))
      ensures Reloaded(old(newmod.execProcs), old(reloadCount), |old(e).gens|) && module_ == newmod
    {
      hide EngineOk, Install;
      InstallFacts(e, newmod.execProcs);
      newmod.gen := |installed|;
      var prev := module_;
      if prev != null {
        assert ModuleShows(prev, e.current.value, e);
      }
      module_ := newmod;
      if prev != null {
        prev.Release();
      }
      reloadCount := reloadCount + 1;
      forall g | 0 <= g < |installed| ensures ModuleShows(installed[g], g, Install(e, newmod.execProcs)) {
        if installed[g] != prev {
          assert old(ModuleShows(installed[g], g, e));
        }
      }
      RecordInstall(newmod);
    }

    /** The fields already are those after an install of newmod. */
    ghost method RecordInstall(newmod: PSModule)
      requires EngineOk(e) && |installed| == |e.gens| && |made| == |e.objs|
      requires newmod.gen == |installed| && module_ == newmod && newmod !in installed
      requires ModuleShows(newmod, |installed|, Install(e, newmod.execProcs))
      requires forall g :: 0 <= g < |installed| ==> ModuleShows(installed[g], g, Install(e, newmod.execProcs))
      requires forall f :: 0 <= f < |made| ==> FuncShows(made[f], f, e, installed)
      requires funcs.Keys == e.funcs.Keys && reloadCount == e.count + 1
      requires forall n :: n in funcs ==> n in e.funcs && e.funcs[n] < |made| && funcs[n] == made[e.funcs[n]]
      modifies this`e, this`installed
      ensures Valid() && CurrentIsAlive()
      ensures e == Install(old(e), newmod.execProcs)
    {
      hide EngineOk, Install;
      ghost var e0, installed0 := e, installed;
      InstallFacts(e, newmod.execProcs);
      CI.InstallOk(e, newmod.execProcs);
      installed := installed + [newmod];
      e := Install(e, newmod.execProcs);
      forall f | 0 <= f < |made| ensures FuncShows(made[f], f, e, installed) {
        assert FuncShows(made[f], f, e0, installed0);
      }
    }

    lemma KindByName(fn: PSEFuncImpl)
      requires Valid() && IsMine(fn)
      ensures FuncShows(fn, fn.id, e, installed)
      ensures SameIgnoringCase(fn.name, "pse_reload_module") <==> fn.spec == ReloadModule
      ensures SameIgnoringCase(fn.name, "pse_get_module_info") <==> fn.spec == ModuleInfo
    {
      assert FuncShows(fn, fn.id, e, installed);
      assert ObjOk(e, e.objs[fn.id]);
      L.SpecByName(fn.name);
    }

    method DoGetModuleInfo() returns (found: bool)
      requires Valid()
      ensures found == e.current.Some? == (module_ != null)
    {
      found := module_ != null;
    }

    /** After the counters of m alone have changed to those of e'. */
    ghost method Recount(m: PSModule, e': Engine)
      requires ValidBut(m) && m.gen < |installed| && installed[m.gen] == m
      requires ModuleShows(m, m.gen, e') && (e' == Retain(e, m.gen) || e' == Release(e, m.gen))
      modifies this`e
      ensures Valid() && e == e'
    {
      hide EngineOk;
      RecountKeepsOk(e, e', m.gen);
      ghost var e0 := e;
      e := e';
      forall g | 0 <= g < |installed| ensures ModuleShows(installed[g], g, e) {
        if installed[g] != m {
          assert ModuleShows(installed[g], g, e0);
        }
      }
      forall f | 0 <= f < |made| ensures FuncShows(made[f], f, e, installed) {
        assert FuncShows(made[f], f, e0, installed);
      }
    }

    /** lock_module, as a step of the engine state. */
    method LockFunc(fn: PSEFuncImpl) returns (p: Proc, m: PSModule?)
      requires Valid() && IsMine(fn)
      modifies this`e, installed
      ensures Valid() && fn.weakModule == old(fn.weakModule) && fn.execProc == old(fn.execProc)
      ensures p == old(e).objs[fn.id].proc
      ensures m == null <==> Promoted(old(e), fn.id) == None
      ensures m == null ==> e == old(e)
      ensures m != null ==>
        && Promoted(old(e), fn.id) == Some(m.gen) && m.gen < |installed| && m == installed[m.gen]
        && e == Retain(old(e), m.gen)
    {
      hide EngineOk;
      assert FuncShows(fn, fn.id, e, installed);
      if fn.weakModule != null {
        assert ModuleShows(fn.weakModule, e.objs[fn.id].weak.value, e);
      }
      p, m := fn.LockModule();
      if m != null {
        assert Promoted(e, fn.id) == Some(m.gen) && ValidBut(m);
        Recount(m, Retain(e, m.gen));
      }
    }

    /** Leaving a procedure drops its reference. */
    method ReleaseModule(m: PSModule)
      requires Valid() && m.gen < |installed| && m == installed[m.gen]
      modifies this`e, m`strong, m`torn
      ensures Valid() && e == Release(old(e), m.gen)
    {
      assert ModuleShows(m, m.gen, e);
      m.Release();
      Recount(m, Release(e, m.gen));
    }

    /** One turn of the retry loop of execute. With a module in hand the procedure
        runs and the reference is dropped; the procedure itself is a black box. */
    method Attempt(fn: PSEFuncImpl) returns (p: Proc, m: PSModule?, rebound: bool)
      requires Valid() && IsMine(fn) && fn.spec.Ordinary?
      modifies this`e, installed, fn`execProc, fn`weakModule
      ensures Valid()
      ensures match Promoted(old(e), fn.id)
        case Some(g) =>
          && e == old(e) && p == e.objs[fn.id].proc
          && g < |installed| && m == installed[g]
        case None => m == null && e == Rebind(old(e), fn.id) && rebound == RebindHits(old(e), fn.id)
    {
      hide ValidBut, EngineOk, Promoted, RebindHits, Rebind, Retain, Release;
      ValidMeansOk();
      BalancedReference(e, fn.id);
      p, m := LockFunc(fn);
      rebound := false;
      if m != null {
        ReleaseModule(m);
      } else {
        rebound := RebindFunction(fn);
      }
    }

    /** What undisturbed attempts after a rebind find. */
    lemma CurrentIsPromotable(fn: PSEFuncImpl)
      requires Valid() && IsMine(fn) && CurrentIsAlive() && RebindHits(e, fn.id)
      ensures e.current.Some? && Promoted(Rebind(e, fn.id), fn.id) == e.current
      ensures var g, e' := e.current.value, Rebind(e, fn.id);
        && e'.gens == e.gens && g < |e.gens| && fn.id < |e.objs| && fn.id < |e'.objs|
        && e.objs[fn.id].name in e.gens[g] && e'.objs[fn.id].name == e.objs[fn.id].name
        && e'.objs[fn.id].proc == e.gens[g][e.objs[fn.id].name]
    {
      hide ValidBut;
      assert EngineOk(e) by {
        ValidMeansOk();
      }
      ReboundIsPromotable(e, fn.id);
    }

    lemma ValidMeansOk()
      requires Valid()
      ensures EngineOk(e)
    {
    }

    /** What the fields say of a function, in terms of the engine state. */
    lemma FieldsShow(fn: PSEFuncImpl)
      requires Valid() && IsMine(fn)
      ensures Promoted(e, fn.id) != None <==> fn.weakModule != null && fn.weakModule.strong > 0
      ensures Promoted(e, fn.id) != None ==>
        var g := Promoted(e, fn.id).value;
        e.objs[fn.id].proc == fn.execProc && g < |installed| && installed[g] == fn.weakModule
      ensures RebindHits(e, fn.id) <==> module_ != null && fn.name in module_.execProcs
      ensures RebindHits(e, fn.id) ==>
        var g := e.current.value;
        && g < |installed| && installed[g] == module_
        && e.gens[g][e.objs[fn.id].name] == module_.execProcs[fn.name]
    {
      hide EngineOk;
      assert FuncShows(fn, fn.id, e, installed);
      if fn.weakModule != null {
        assert ModuleShows(fn.weakModule, e.objs[fn.id].weak.value, e);
      }
      if module_ != null {
        assert ModuleShows(module_, e.current.value, e);
      }
    }

    /** The retry loop of execute, with no other thread interfering: it makes at
        most two attempts. */
    method ExecuteOrdinary(fn: PSEFuncImpl) returns (out: Outcome, attempts: nat)
      requires Valid() && IsMine(fn) && CurrentIsAlive() && fn.spec.Ordinary?
      modifies this`e, installed, fn`execProc, fn`weakModule
      ensures Valid()
      ensures match Promoted(old(e), fn.id)
        case Some(g) =>
          && attempts == 1 && e == old(e)
          && g < |installed| && out == Executed(e.objs[fn.id].proc, installed[g])
        case None =>
          if RebindHits(old(e), fn.id) then
            var g := old(e).current.value;
            && attempts == 2 && e == Rebind(old(e), fn.id)
            && g < |installed| && out == Executed(e.gens[g][e.objs[fn.id].name], installed[g])
          else attempts == 1 && e == old(e) && out == CouldNotRebind
      ensures old(fn.weakModule != null && fn.weakModule.strong > 0) ==>
        out == Executed(old(fn.execProc), old(fn.weakModule)) && attempts == 1
      ensures old(fn.weakModule == null || fn.weakModule.strong <= 0) ==>
        if old(module_ != null && fn.name in module_.execProcs)
        then out == Executed(old(module_.execProcs[fn.name]), old(module_)) && attempts == 2
        else out == CouldNotRebind && attempts == 1
    {
      hide ValidBut, EngineOk, Promoted, RebindHits, Rebind;
      attempts := 0;
      ghost var e0 := e;
      FieldsShow(fn);
      if RebindHits(e, fn.id) {
        CurrentIsPromotable(fn);
      } else {
        MissChangesNothing(e, fn.id);
      }
      while true
        invariant Valid() && attempts <= 1
        invariant attempts == 0 ==> e == e0
        invariant attempts == 1 ==> Promoted(e0, fn.id) == None && RebindHits(e0, fn.id) && e == Rebind(e0, fn.id)
        decreases 1 - attempts
      {
        attempts := attempts + 1;
        var p, m, rebound := Attempt(fn);
        if m != null {
          out := Executed(p, m);
          break;
        }
        if !rebound {
          out := CouldNotRebind;
          break;
        }
      }
    }

    /** execute; `loaded` is what loading produces if fn is the reload function. */
    method Execute(fn: PSEFuncImpl, loaded: Option<seq<Entry>>) returns (out: Outcome)
      requires Valid() && IsMine(fn) && CurrentIsAlive()
      modifies this, installed, fn`execProc, fn`weakModule
      ensures Valid()
      ensures SameIgnoringCase(fn.name, "pse_reload_module") ==>
        && out == ReloadDone(loaded.Some?)
        && (if loaded.Some? then
              && e == Install(old(e), TableOf(loaded.value))
              && Reloaded(TableOf(loaded.value), old(reloadCount), |old(e).gens|)
            else e == old(e) && module_ == old(module_) && reloadCount == old(reloadCount))
      ensures SameIgnoringCase(fn.name, "pse_get_module_info") ==>
        out == InfoDone(old(module_) != null) && e == old(e) && module_ == old(module_)
      ensures !SameIgnoringCase(fn.name, "pse_reload_module") && !SameIgnoringCase(fn.name, "pse_get_module_info") ==>
        && e == (if Promoted(old(e), fn.id) == None then Rebind(old(e), fn.id) else old(e))
        && (if Promoted(old(e), fn.id) == None && !RebindHits(old(e), fn.id) then out == CouldNotRebind
            else out.Executed? && out.proc == e.objs[fn.id].proc && out.m == fn.weakModule)
        && (if old(fn.weakModule != null && fn.weakModule.strong > 0) then
              out == Executed(old(fn.execProc), old(fn.weakModule))
            else if old(module_ != null && fn.name in module_.execProcs) then
              out == Executed(old(module_.execProcs[fn.name]), old(module_))
            else out == CouldNotRebind)
    {
      hide ValidBut, EngineOk, Promoted, RebindHits, Rebind, Install, TableOf, SameIgnoringCase;
      KindByName(fn);
      match fn.spec {
        case ReloadModule =>
          var ok := Reload(loaded);
          out := ReloadDone(ok);
        case ModuleInfo =>
          var found := DoGetModuleInfo();
          out := InfoDone(found);
        case Ordinary =>
          var attempts;
          out, attempts := ExecuteOrdinary(fn);
          KindByName(fn);
          ReboundIsBound(old(e), fn.id);
      }
    }
  }

  lemma RecountKeepsOk(e: Engine, e': Engine, g: Gen)
    requires EngineOk(e) && (e' == Retain(e, g) || e' == Release(e, g))
    ensures EngineOk(e') && e' == e.(strong := e'.strong, torn := e'.torn)
  {
    CI.CountsAreFree(e, e');
  }

  /** What the locked part of a reload does to each part of the state. */
  lemma InstallFacts(e: Engine, table: Table)
    requires EngineOk(e)
    ensures var e' := Install(e, table);
      && e'.gens == e.gens + [table] && e'.objs == e.objs && e'.funcs == e.funcs
      && e'.current == Some(|e.gens|) && e'.count == e.count + 1
      && |e'.strong| == |e'.torn| == |e'.gens|
      && e'.strong[|e.gens|] == 1 && e'.torn[|e.gens|] == 0
      && (forall g :: 0 <= g < |e.gens| && e.current != Some(g) ==>
            e'.strong[g] == e.strong[g] && e'.torn[g] == e.torn[g])
      && (e.current.Some? ==>
            var g := e.current.value;
            && g < |e.gens| && e'.strong[g] == e.strong[g] - 1
            && e'.torn[g] == e.torn[g] + if e.strong[g] == 1 then 1 else 0)
  {
  }

  lemma NewFuncKeepsOk(e: Engine, fn: Func)
    requires EngineOk(e) && fn.name !in e.funcs && NewFunc(e, fn.name) == Some(fn)
    ensures GetOrAdd(e, fn.name)
         == (e.(objs := e.objs + [fn], funcs := e.funcs[fn.name := |e.objs|]), Some(|e.objs|))
    ensures EngineOk(GetOrAdd(e, fn.name).0)
  {
    CI.GetOrAddOk(e, fn.name);
  }

  /** Once rebound, a function is promoted to the current generation. */
  lemma ReboundIsPromotable(e: Engine, f: nat)
    requires EngineOk(e) && RebindHits(e, f) && Alive(e, e.current.value)
    ensures Promoted(Rebind(e, f), f) == e.current
    ensures Rebind(e, f).objs[f].proc == e.gens[e.current.value][e.objs[f].name]
  {
  }

  /** What a function is bound to after an undisturbed call. */
  lemma ReboundIsBound(e: Engine, f: nat)
    ensures !RebindHits(e, f) ==> Rebind(e, f) == e
    ensures RebindHits(e, f) ==>
      && e.current.Some? && f < |e.objs| && Has(e, e.current, e.objs[f].name)
      && f < |Rebind(e, f).objs| && Rebind(e, f).objs[f].weak == e.current && Rebind(e, f).gens == e.gens
      && Rebind(e, f).objs[f].name == e.objs[f].name
      && Rebind(e, f).objs[f].proc == e.gens[e.current.value][e.objs[f].name]
    ensures Promoted(e, f).Some? ==> f < |e.objs| && Promoted(e, f) == e.objs[f].weak
  {
  }

  lemma MissChangesNothing(e: Engine, f: nat)
    requires !RebindHits(e, f)
    ensures Rebind(e, f) == e
  {
  }

  /** Taking the reference that a promotion yields, and dropping it. */
  lemma BalancedReference(e: Engine, f: nat)
    requires EngineOk(e)
    ensures Promoted(e, f).Some? ==> var g := Promoted(e, f).value; Release(Retain(e, g), g) == e
  {
    if Promoted(e, f).Some? {
      RetainRelease(e, Promoted(e, f).value);
    }
  }

  lemma RetainRelease(e: Engine, g: Gen)
    requires Alive(e, g) && |e.torn| == |e.strong|
    ensures Release(Retain(e, g), g) == e
  {
    assert e.strong[g := e.strong[g] + 1][g := e.strong[g]] == e.strong;
  }
}
