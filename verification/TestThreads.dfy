/** The tree of test threads: the main thread launches one thread a database, and
    each of these launches the threads that call the functions of its database. All
    of them meet in the shared object of the module TestMaster. */
module TestThreads {
  import opened TestMaster

  // ---- The tree ----

  /** A database of the configuration: how many threads test it, and how many tests
      each of them makes over all its rounds. */
  datatype DbPlan = DbPlan(testThreads: int, tests: nat)

  type Plan = seq<DbPlan>

  /** A loop bound that may be negative. */
  function Times(n: int): nat {
    if n > 0 then n else 0
  }

  datatype Thread = Main | Db(i: nat) | Fn(i: nat, k: nat)

  /** The threads of a complete test. */
  predicate InTree(plan: Plan, t: Thread) {
    match t
    case Main => true
    case Db(i) => i < |plan|
    case Fn(i, k) => i < |plan| && k < Times(plan[i].testThreads)
  }

  /** How many threads a thread has to launch, or tests to make. */
  function Work(plan: Plan, t: Thread): nat
    requires InTree(plan, t)
  {
    match t
    case Main => |plan|
    case Db(i) => Times(plan[i].testThreads)
    case Fn(i, _) => plan[i].tests
  }

  function Child(t: Thread, n: nat): Thread
    requires !t.Fn?
  {
    if t.Main? then Db(n) else Fn(t.i, n)
  }

  function Job(t: Thread): string {
    match t
    case Main => "main_test_thread"
    case Db(_) => "db_test_thread"
    case Fn(_, _) => "fn_test_thread"
  }

  // ---- States ----

  datatype Phase =
    | Setup                // before its loop: connect, fetch the server's id, install the functions
    | Checking             // about to ask whether a test has already failed
    | Working              // about to launch the next thread or to make the next test
    | Finishing            // about to call tm_thread_done
    | Waiting              // the last thread, waiting for the reloader
    | Exiting(code: int)   // has reported, about to end the program
    | Ended

  datatype Progress = Progress(phase: Phase, left: nat)

  function Start(plan: Plan, t: Thread): Progress
    requires InTree(plan, t)
  {
    Progress(if t.Fn? then Checking else Setup, Work(plan, t))
  }

  datatype State = State(
    master: Master,
    threads: map<Thread, Progress>,
    hasReloader: bool,
    reloaderRuns: bool,
    exits: seq<int>
  )

  /** The state after the first launch: a reloader may have been asked for, its
      creation may have failed, it may have failed already, and the pool may have
      refused the main thread. */
  function Boot(plan: Plan, wantsReloader: bool, created: bool, early: seq<string>, accepted: bool): State
    requires !(wantsReloader && created) ==> early == []
  {
    var zero := Master(0, false, [], []);
    var m :=
      if wantsReloader && !created then Fail(zero, "tm_create_reload_module_thread() FILED.")
      else if early != [] then Master(0, true, early, [])
      else zero;
    State(Launch(m, Job(Main), accepted),
          if Launches(m, accepted) then map[Main := Start(plan, Main)] else map[],
          wantsReloader && created, wantsReloader && created, [])
  }

  // ---- Steps ----

  /** Either a thread makes a step, `ok` being how the thing it does turns out and
      `error` the text it reports if it goes wrong, or the reloader reports an error. */
  datatype Choice = Run(t: Thread, ok: bool, error: string) | ReloaderFails(error: string)

  predicate Enabled(plan: Plan, s: State, c: Choice) {
    && c.error != ""
    && match c
       case Run(t, _, _) => t in s.threads && InTree(plan, t) && s.threads[t].phase != Ended
       case ReloaderFails(_) => s.reloaderRuns
  }

  function At(s: State, t: Thread, p: Progress): State {
    s.(threads := s.threads[t := p])
  }

  function Stop(s: State, t: Thread): State
    requires t in s.threads
  {
    At(s, t, Progress(Finishing, s.threads[t].left))
  }

  function StopWith(s: State, t: Thread, error: string): State
    requires t in s.threads
  {
    Stop(s.(master := Fail(s.master, error)), t)
  }

  /** One turn of a launching loop. */
  function LaunchNext(plan: Plan, s: State, t: Thread, accepted: bool): State
    requires t in s.threads && InTree(plan, t) && !t.Fn? && 0 < s.threads[t].left <= Work(plan, t)
  {
    var left := s.threads[t].left;
    var child := Child(t, Work(plan, t) - left);
    var s' := At(s, t, Progress(Working, left - 1));
    var s'' := s'.(master := Launch(s.master, Job(child), accepted));
    if Launches(s.master, accepted) then At(s'', child, Start(plan, child)) else s''
  }

  /** tm_thread_done */
  function Depart(s: State, t: Thread): State
    requires t in s.threads
  {
    var m := Leave(s.master, s.hasReloader);
    var phase := if m.count != 0 then Ended else if s.hasReloader then Waiting else Exiting(ExitCode(m));
    At(s.(master := m), t, Progress(phase, s.threads[t].left))
  }

  function ThreadStep(plan: Plan, s: State, t: Thread, ok: bool, error: string): State
    requires t in s.threads && InTree(plan, t) && s.threads[t].left <= Work(plan, t)
  {
    var p := s.threads[t];
    match p.phase
    case Setup =>
      if !ok then StopWith(s, t, error)
      else At(s, t, p.(phase := if t.Main? then Working else Checking))
    case Checking =>
      if s.master.failed || (t.Fn? && p.left == 0) then Stop(s, t) else At(s, t, p.(phase := Working))
    case Working =>
      if p.left == 0 then Stop(s, t)
      else if !t.Fn? then LaunchNext(plan, s, t, ok)
      else if ok then At(s, t, Progress(Checking, p.left - 1))
      else StopWith(s, t, error)
    case Finishing => Depart(s, t)
    case Waiting =>
      var m := AfterReloader(s.master, ok);
      At(s.(master := m, reloaderRuns := s.reloaderRuns && !ok), t, p.(phase := Exiting(ExitCode(m))))
    case Exiting(code) => At(s.(exits := s.exits + [code]), t, p.(phase := Ended))
    case Ended => s
  }

  ghost predicate Bounded(plan: Plan, s: State) {
    forall t :: t in s.threads ==> InTree(plan, t) && s.threads[t].left <= Work(plan, t)
  }

  ghost function Next(plan: Plan, s: State, c: Choice): State
    requires Enabled(plan, s, c) && Bounded(plan, s)
  {
    match c
    case Run(t, ok, error) => ThreadStep(plan, s, t, ok, error)
    case ReloaderFails(error) => s.(master := Fail(s.master, error))
  }

  /** The state after a sequence of choices, each enabled where it is made. */
  ghost predicate Leads(plan: Plan, s: State, cs: seq<Choice>, s': State)
    decreases |cs|
  {
    if cs == [] then s' == s
    else
      var before, last := cs[..|cs| - 1], cs[|cs| - 1];
      exists u :: Leads(plan, s, before, u) && StepBy(plan, u, last, s')
  }

  ghost predicate StepBy(plan: Plan, s: State, c: Choice, s': State) {
    Enabled(plan, s, c) && Bounded(plan, s) && s' == Next(plan, s, c)
  }

  /** The states that follow a first launch that succeeded, with any schedule. */
  ghost predicate Reachable(plan: Plan, s: State) {
    exists reloader, cs :: Leads(plan, Launched(plan, reloader), cs, s)
  }

  function Launched(plan: Plan, reloader: bool): State {
    Boot(plan, reloader, true, [], true)
  }

  // ---- The invariant ----

  /** Counted: launched and not yet past its decrement. */
  predicate Live(p: Progress) {
    p.phase.Setup? || p.phase.Checking? || p.phase.Working? || p.phase.Finishing?
  }

  function LiveThreads(s: State): set<Thread> {
    set t | t in s.threads && Live(s.threads[t])
  }

  /** How far a launching loop has come limits which children exist. */
  ghost predicate ChildrenBehind(plan: Plan, s: State) {
    && (forall i: nat :: Db(i) in s.threads && i < |plan| ==>
          Main in s.threads && i < |plan| - s.threads[Main].left)
    && (forall i: nat, k: nat :: Fn(i, k) in s.threads && i < |plan| ==>
          Db(i) in s.threads && k < Times(plan[i].testThreads) - s.threads[Db(i)].left)
  }

  /** As long as nothing failed, no launch was refused and no loop was left early. */
  ghost predicate NothingSkipped(plan: Plan, s: State) {
    && Main in s.threads
    && (forall t :: t in s.threads && !Live(s.threads[t]) ==> s.threads[t].left == 0)
    && (forall t :: t in s.threads && s.threads[t].phase == Finishing ==> s.threads[t].left == 0)
    && (forall i: nat :: i < |plan| - s.threads[Main].left ==> Db(i) in s.threads)
    && (forall i: nat, k: nat ::
          i < |plan| && Db(i) in s.threads && k < Times(plan[i].testThreads) - s.threads[Db(i)].left ==>
          Fn(i, k) in s.threads)
  }

  ghost predicate OthersEnded(s: State, t: Thread) {
    forall u :: u in s.threads && u != t ==> s.threads[u].phase == Ended
  }

  /** The thread that saw the count reach zero waits, or has reported and is about
      to end the program; or the program has been ended. */
  ghost predicate Closed(s: State, t: Thread) {
    && t in s.threads && OthersEnded(s, t) && !Live(s.threads[t])
    && (s.threads[t].phase == Waiting ==> s.hasReloader && s.master.reports == [] && s.exits == [])
    && (s.threads[t].phase != Waiting ==>
          && |s.master.reports| == 1
          && (if s.master.reports[0] then !s.master.failed && !s.reloaderRuns else s.master.failed)
          && (var code := if s.master.reports[0] then 0 else 1;
              if s.threads[t].phase == Ended then s.exits == [code]
              else s.threads[t].phase == Exiting(code) && s.exits == []))
  }

  ghost predicate Open(s: State) {
    && s.master.reports == [] && s.exits == []
    && (forall t :: t in s.threads ==> Live(s.threads[t]) || s.threads[t].phase == Ended)
  }

  ghost predicate Inv(plan: Plan, s: State) {
    && Bounded(plan, s) && ChildrenBehind(plan, s)
    && s.master.count == |LiveThreads(s)|
    && (s.master.failed <==> s.master.errors != [])
    && (s.master.failed ==> s.master.reports != [true])
    && (s.reloaderRuns ==> s.hasReloader)
    && (!s.master.failed ==> NothingSkipped(plan, s))
    && (if s.master.count != 0 then Open(s) else exists t :: Closed(s, t))
  }
}
