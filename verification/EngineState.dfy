/** The state shared by all threads of the plugin, and what each critical
    section of the source does to it.

    A module is named by its generation: its place in the order in which modules
    were installed into the engine. `strong` is the use count that shared_ptr
    keeps for a generation, changed only by Retain and Release; `torn` counts how
    often its destructor ran. All operations are total; the invariants proved in
    CoarseInvariant show that their guards on indices never fail. */
module EngineState {
  import opened Text

  type Name = string
  type Proc = nat
  type Gen = nat
  type Table = map<Name, Proc>

  const NULL_PROC: Proc := 0
  const RELOAD_MODULE_NAME: Name := "pse_reload_module"
  const MODULE_INFO_NAME: Name := "pse_get_module_info"

  datatype Spec = Ordinary | ReloadModule | ModuleInfo

  datatype Func = Func(name: Name, spec: Spec, proc: Proc, weak: Option<Gen>)

  datatype Engine = Engine(
    gens: seq<Table>,          // the tables of all modules installed so far
    strong: seq<int>,          // their use counts
    torn: seq<int>,            // how often each was torn down
    current: Option<Gen>,      // the engine's own reference
    objs: seq<Func>,           // every function object made so far
    funcs: map<Name, nat>,     // the registry: name to function object
    count: nat                 // module_reload_count
  )

  const EMPTY_ENGINE := Engine([], [], [], None, [], map[], 0)

  function SpecOf(name: Name): Spec {
    if SameIgnoringCase(name, RELOAD_MODULE_NAME) then ReloadModule
    else if SameIgnoringCase(name, MODULE_INFO_NAME) then ModuleInfo
    else Ordinary
  }

  predicate Alive(e: Engine, g: Gen) {
    g < |e.strong| && e.strong[g] > 0
  }

  predicate Has(e: Engine, g: Option<Gen>, name: Name) {
    g.Some? && g.value < |e.gens| && name in e.gens[g.value]
  }

  function Retain(e: Engine, g: Gen): Engine {
    if g < |e.strong| then e.(strong := e.strong[g := e.strong[g] + 1]) else e
  }

  /** Dropping a strong reference; the last one runs the destructor. */
  function Release(e: Engine, g: Gen): Engine {
    if g < |e.strong| && g < |e.torn| then
      e.(strong := e.strong[g := e.strong[g] - 1],
         torn := if e.strong[g] == 1 then e.torn[g := e.torn[g] + 1] else e.torn)
    else e
  }

  function ReleaseOld(e: Engine, prev: Option<Gen>): Engine {
    match prev
    case None => e
    case Some(g) => Release(e, g)
  }

  /** The pointer exchange inside module.reset(newmod). */
  function Swap(e: Engine, table: Table): Engine {
    e.(gens := e.gens + [table], strong := e.strong + [1], torn := e.torn + [0],
       current := Some(|e.gens|))
  }

  /** The locked part of reloadModule. */
  function Install(e: Engine, table: Table): Engine {
    var e' := ReleaseOld(Swap(e, table), e.current);
    e'.(count := e'.count + 1)
  }

  /** weak_module_ptr.lock(): the generation promoted, if it is still alive. */
  function Promoted(e: Engine, f: nat): Option<Gen> {
    if f < |e.objs| && e.objs[f].weak.Some? && Alive(e, e.objs[f].weak.value)
    then e.objs[f].weak
    else None
  }

  predicate RebindHits(e: Engine, f: nat) {
    f < |e.objs| && Has(e, e.current, e.objs[f].name)
  }

  /** rebindFunction; the caller learns RebindHits(e, f). */
  function Rebind(e: Engine, f: nat): Engine {
    if RebindHits(e, f) then
      var fn := e.objs[f];
      e.(objs := e.objs[f := fn.(proc := e.gens[e.current.value][fn.name], weak := e.current)])
    else e
  }

  /** The object getOrAddFunc makes for a name that is not registered yet. */
  function NewFunc(e: Engine, name: Name): Option<Func> {
    if SpecOf(name) != Ordinary then Some(Func(name, SpecOf(name), NULL_PROC, e.current))
    else if Has(e, e.current, name) then
      Some(Func(name, Ordinary, e.gens[e.current.value][name], e.current))
    else None
  }

  function GetOrAdd(e: Engine, name: Name): (Engine, Option<nat>) {
    if name in e.funcs then (e, Some(e.funcs[name]))
    else
      match NewFunc(e, name)
      case None => (e, None)
      case Some(fn) =>
        (e.(objs := e.objs + [fn], funcs := e.funcs[name := |e.objs|]), Some(|e.objs|))
  }

  /** A bound ordinary function: its procedure is the entry for its name in the
      table of the module it designates, dead or alive. */
  predicate Bound(e: Engine, fn: Func) {
    Has(e, fn.weak, fn.name) && fn.proc == e.gens[fn.weak.value][fn.name]
  }

  predicate ObjOk(e: Engine, fn: Func) {
    && fn.spec == SpecOf(fn.name)
    && (fn.spec == Ordinary ==> Bound(e, fn))
    && (fn.weak.Some? ==> fn.weak.value < |e.gens|)
  }

  predicate RegistryOk(e: Engine) {
    && (forall n :: n in e.funcs ==> e.funcs[n] < |e.objs| && e.objs[e.funcs[n]].name == n)
    && (forall f :: 0 <= f < |e.objs| ==> e.objs[f].name in e.funcs && e.funcs[e.objs[f].name] == f)
  }

  predicate EngineOk(e: Engine) {
    && |e.strong| == |e.gens| == |e.torn| == e.count
    && e.current == (if |e.gens| == 0 then None else Some(|e.gens| - 1))
    && (forall f :: 0 <= f < |e.objs| ==> ObjOk(e, e.objs[f]))
    && RegistryOk(e)
  }
}
