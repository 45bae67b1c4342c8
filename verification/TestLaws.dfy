/** What the test threads guarantee over whole runs. */
module TestLaws {
  import opened TestMaster
  import opened TestThreads
  import opened TestTermination

  /** After every release of the lock the count is the number of threads that were
      launched and have not made their decrement. */
  lemma CountIsExact(plan: Plan, s: State)
    requires Reachable(plan, s)
    ensures s.master.count == |LiveThreads(s)|
  {
    ReachableInv(plan, s);
  }

  lemma StepFromZero(plan: Plan, s: State, c: Choice, s': State)
    requires Inv(plan, s) && s.master.count == 0 && StepBy(plan, s, c, s')
    ensures s'.master.count == 0 && s'.threads.Keys == s.threads.Keys
  {
    var t :| Closed(s, t);
    assert c.Run? ==> c.t == t;
  }

  lemma {:induction false} ZeroStays(plan: Plan, s: State, cs: seq<Choice>, s': State)
    requires Inv(plan, s) && s.master.count == 0 && Leads(plan, s, cs, s')
    ensures s'.master.count == 0 && s'.threads.Keys == s.threads.Keys
    decreases |cs|
  {
    hide Inv, StepBy;
    if cs != [] {
      var u :| Leads(plan, s, cs[..|cs| - 1], u) && StepBy(plan, u, cs[|cs| - 1], s');
      ZeroStays(plan, s, cs[..|cs| - 1], u);
      LeadsKeepsInv(plan, s, cs[..|cs| - 1], u);
      StepFromZero(plan, u, cs[|cs| - 1], s');
    }
  }

  lemma NoneLive(plan: Plan, s: State)
    requires Inv(plan, s) && s.master.count == 0
    ensures forall t :: t in s.threads ==> !Live(s.threads[t])
  {
    assert forall t :: t in s.threads && Live(s.threads[t]) ==> t in LiveThreads(s);
  }

  /** The count reaches zero only when every launched thread is past its decrement;
      from then on it stays zero and nothing is launched any more. So only one
      thread ever sees that all tests are done. */
  lemma ZeroIsFinal(plan: Plan, s: State, cs: seq<Choice>, s': State)
    requires Reachable(plan, s) && s.master.count == 0 && Leads(plan, s, cs, s')
    ensures forall t :: t in s.threads ==> !Live(s.threads[t])
    ensures s'.master.count == 0 && s'.threads.Keys == s.threads.Keys
  {
    ReachableInv(plan, s);
    NoneLive(plan, s);
    ZeroStays(plan, s, cs, s');
  }

  /** There is at most one report and at most one exit; the exit comes after the
      report and when all threads have ended, and its code is what the report said. */
  lemma OneReportOneExit(plan: Plan, s: State)
    requires Reachable(plan, s)
    ensures |s.master.reports| <= 1 && |s.exits| <= 1
    ensures s.exits != [] ==>
      && s.master.count == 0 && |s.master.reports| == 1
      && s.exits == [if s.master.reports[0] then 0 else 1]
      && forall t :: t in s.threads ==> s.threads[t].phase == Ended
  {
    ReachableInv(plan, s);
    if s.master.count == 0 {
      var t :| Closed(s, t);
    }
  }

  lemma InvSuccess(plan: Plan, s: State)
    requires Inv(plan, s) && s.master.reports == [true]
    ensures s.master.errors == []
    ensures forall t :: InTree(plan, t) ==> t in s.threads && !Live(s.threads[t]) && s.threads[t].left == 0
  {
    NoneLive(plan, s);
    assert NothingSkipped(plan, s);
    forall t | InTree(plan, t) ensures t in s.threads && s.threads[t].left == 0 {
      assert Main in s.threads && s.threads[Main].left == 0;
      if !t.Main? {
        assert Db(t.i) in s.threads && s.threads[Db(t.i)].left == 0;
      }
    }
  }

  /** Success is reported only for a complete test: every thread of the tree was
      launched, ran through all its launches or tests, and is past its decrement. */
  lemma SuccessIsComplete(plan: Plan, s: State)
    requires Reachable(plan, s) && s.master.reports == [true]
    ensures s.master.errors == []
    ensures forall t :: InTree(plan, t) ==> t in s.threads && !Live(s.threads[t]) && s.threads[t].left == 0
  {
    ReachableInv(plan, s);
    InvSuccess(plan, s);
  }

  /** Failure is reported only with an error to show. */
  lemma FailureHasErrors(plan: Plan, s: State)
    requires Reachable(plan, s) && s.master.reports == [false]
    ensures s.master.errors != []
  {
    ReachableInv(plan, s);
    var t :| Closed(s, t);
  }

  // ---- The end is reached ----

  /** The threads of the tree, listed. */
  function Fns(plan: Plan, i: nat, n: nat): (ts: seq<Thread>)
    ensures forall k: nat :: k < n ==> Fn(i, k) in ts
  {
    if n == 0 then [] else Fns(plan, i, n - 1) + [Fn(i, n - 1)]
  }

  function Dbs(plan: Plan, n: nat): (ts: seq<Thread>)
    requires n <= |plan|
    ensures forall i: nat :: i < n ==> Db(i) in ts
    ensures forall i: nat, k: nat :: i < n && k < Times(plan[i].testThreads) ==> Fn(i, k) in ts
  {
    if n == 0 then []
    else Dbs(plan, n - 1) + [Db(n - 1)] + Fns(plan, n - 1, Times(plan[n - 1].testThreads))
  }

  function Tree(plan: Plan): (ts: seq<Thread>)
    ensures forall t :: InTree(plan, t) ==> t in ts
  {
    [Main] + Dbs(plan, |plan|)
  }

  /** A bound for the steps a thread has still to make. */
  function Steps(p: Progress): nat {
    match p.phase
    case Setup => 6 + 2 * p.left
    case Checking => 5 + 2 * p.left
    case Working => 4 + 2 * p.left
    case Finishing => 3
    case Waiting => 2
    case Exiting(_) => 1
    case Ended => 0
  }

  function StepsOf(plan: Plan, s: State, t: Thread): nat {
    if t in s.threads then Steps(s.threads[t])
    else if InTree(plan, t) then Steps(Start(plan, t))
    else 0
  }

  function StepsLeft(plan: Plan, s: State, ts: seq<Thread>): nat {
    if ts == [] then 0 else StepsOf(plan, s, ts[0]) + StepsLeft(plan, s, ts[1..])
  }

  lemma {:induction false} StepsLeftShrinks(plan: Plan, s: State, s': State, ts: seq<Thread>, t: Thread)
    requires forall u :: u in ts ==> StepsOf(plan, s', u) <= StepsOf(plan, s, u)
    ensures StepsLeft(plan, s', ts) <= StepsLeft(plan, s, ts)
    ensures t in ts && StepsOf(plan, s', t) < StepsOf(plan, s, t) ==> StepsLeft(plan, s', ts) < StepsLeft(plan, s, ts)
  {
    if ts != [] {
      StepsLeftShrinks(plan, s, s', ts[1..], t);
    }
  }

  lemma OwnStepShrinks(plan: Plan, s: State, t: Thread, ok: bool, error: string)
    requires Inv(plan, s) && Enabled(plan, s, Run(t, ok, error))
    ensures StepsOf(plan, ThreadStep(plan, s, t, ok, error), t) < StepsOf(plan, s, t)
  {
    hide ChildrenBehind, NothingSkipped, LiveThreads, Open, Closed, Leave, AfterReloader, Fail;
    if s.threads[t].phase == Working && !t.Fn? && s.threads[t].left > 0 {
      ChildIsNew(plan, s, t);
    }
  }

  lemma OtherStepsRemain(plan: Plan, s: State, t: Thread, ok: bool, error: string, u: Thread)
    requires Inv(plan, s) && Enabled(plan, s, Run(t, ok, error)) && u != t
    ensures StepsOf(plan, ThreadStep(plan, s, t, ok, error), u) == StepsOf(plan, s, u)
  {
    hide ChildrenBehind, NothingSkipped, LiveThreads, Open, Closed, Leave, AfterReloader, Fail;
    hide Steps, Start, InTree, Work;
    if s.threads[t].phase == Working && !t.Fn? && s.threads[t].left > 0 {
      LaunchRemains(plan, s, t, ok, u);
    }
  }

  /** A child not launched yet counts as if it had been. */
  lemma LaunchRemains(plan: Plan, s: State, t: Thread, ok: bool, u: Thread)
    requires Bounded(plan, s) && ChildrenBehind(plan, s) && t in s.threads && InTree(plan, t) && !t.Fn?
    requires s.threads[t].phase == Working && s.threads[t].left > 0 && u != t
    ensures StepsOf(plan, LaunchNext(plan, s, t, ok), u) == StepsOf(plan, s, u)
  {
    ChildIsNew(plan, s, t);
    hide ChildrenBehind, Steps, Launch, Launches;
  }

  /** Every step of a thread brings the end nearer, a launch included. */
  lemma ThreadStepShrinks(plan: Plan, s: State, t: Thread, ok: bool, error: string)
    requires Inv(plan, s) && Enabled(plan, s, Run(t, ok, error))
    ensures StepsLeft(plan, ThreadStep(plan, s, t, ok, error), Tree(plan)) < StepsLeft(plan, s, Tree(plan))
  {
    hide StepsOf, ThreadStep, StepsLeft, Dbs;
    var s' := ThreadStep(plan, s, t, ok, error);
    OwnStepShrinks(plan, s, t, ok, error);
    forall u | u in Tree(plan) ensures StepsOf(plan, s', u) <= StepsOf(plan, s, u) {
      if u != t {
        OtherStepsRemain(plan, s, t, ok, error, u);
      }
    }
    StepsLeftShrinks(plan, s, s', Tree(plan), t);
  }

  /** As long as the program has not been ended, some thread can make a step. */
  lemma SomeThreadCanStep(plan: Plan, s: State, ok: bool, error: string)
    requires Inv(plan, s) && s.exits == [] && error != ""
    ensures exists t :: Enabled(plan, s, Run(t, ok, error))
  {
    if s.master.count != 0 {
      assert LiveThreads(s) != {};
      var t :| t in LiveThreads(s);
      assert Enabled(plan, s, Run(t, ok, error));
    } else {
      var t :| Closed(s, t);
      assert Enabled(plan, s, Run(t, ok, error));
    }
  }

  /** How many steps of a run are steps of threads. */
  ghost function ThreadSteps(plan: Plan, cs: seq<Choice>): nat {
    if cs == [] then 0 else ThreadSteps(plan, cs[..|cs| - 1]) + (if cs[|cs| - 1].Run? then 1 else 0)
  }

  /** No schedule is longer, in steps of threads, than the tree allows; and one that
      cannot be continued has ended the program, after exactly one report. */
  lemma EveryScheduleEnds(plan: Plan, reloader: bool, cs: seq<Choice>, s: State)
    requires Leads(plan, Launched(plan, reloader), cs, s)
    ensures ThreadSteps(plan, cs) <= StepsLeft(plan, Launched(plan, reloader), Tree(plan))
    ensures (forall t :: !Enabled(plan, s, Run(t, true, "e"))) ==> |s.exits| == 1 && |s.master.reports| == 1
  {
    hide Inv, Leads, StepsLeft, Tree;
    LaunchedInv(plan, reloader);
    StepsAreBounded(plan, Launched(plan, reloader), cs, s);
    StuckHasExited(plan, s);
  }

  lemma {:induction false} StepsAreBounded(plan: Plan, s0: State, cs: seq<Choice>, s: State)
    requires Inv(plan, s0) && Leads(plan, s0, cs, s)
    ensures Inv(plan, s)
    ensures ThreadSteps(plan, cs) + StepsLeft(plan, s, Tree(plan)) <= StepsLeft(plan, s0, Tree(plan))
    decreases |cs|
  {
    hide Inv, ThreadStep, StepsLeft, Tree;
    if cs != [] {
      var c := cs[|cs| - 1];
      var u :| Leads(plan, s0, cs[..|cs| - 1], u) && StepBy(plan, u, c, s);
      StepsAreBounded(plan, s0, cs[..|cs| - 1], u);
      StepKeepsInv(plan, u, c, s);
      if c.Run? {
        ThreadStepShrinks(plan, u, c.t, c.ok, c.error);
      } else {
        SameStepsLeft(plan, u, s);
      }
    }
  }

  lemma SameStepsLeft(plan: Plan, s: State, s': State)
    requires s.threads == s'.threads
    ensures StepsLeft(plan, s, Tree(plan)) == StepsLeft(plan, s', Tree(plan))
  {
    StepsLeftShrinks(plan, s, s', Tree(plan), Main);
    StepsLeftShrinks(plan, s', s, Tree(plan), Main);
  }

  lemma StuckHasExited(plan: Plan, s: State)
    requires Inv(plan, s)
    ensures (forall t :: !Enabled(plan, s, Run(t, true, "e"))) ==> |s.exits| == 1 && |s.master.reports| == 1
  {
    if s.exits == [] {
      SomeThreadCanStep(plan, s, true, "e");
    } else {
      var t :| Closed(s, t);
    }
  }

  // ---- When the first launch does not succeed ----

  /** The first launch succeeds exactly if the pool accepts the main thread and
      nothing failed before it. */
  lemma FirstLaunch(plan: Plan, wantsReloader: bool, created: bool, early: seq<string>, accepted: bool)
    requires !(wantsReloader && created) ==> early == []
    ensures Main in Boot(plan, wantsReloader, created, early, accepted).threads
      <==> accepted && early == [] && (wantsReloader ==> created)
  {
  }

  /** What it leaves behind: the main thread, about to prepare itself and then to
      launch one thread a database, counted and with nothing failed. */
  lemma FirstLaunchCounts(plan: Plan, reloader: bool)
    ensures var s := Launched(plan, reloader);
      && s.master == Master(1, false, [], []) && s.exits == []
      && s.threads == map[Main := Progress(Setup, |plan|)]
      && s.hasReloader == reloader && s.reloaderRuns == reloader
  {
  }

  /** Otherwise no thread is ever launched, and nobody reports or ends the program. */
  lemma {:induction false} RefusedLaunchNeverEnds(plan: Plan, s0: State, cs: seq<Choice>, s: State)
    requires s0.threads == map[] && s0.master.reports == [] && s0.exits == [] && Leads(plan, s0, cs, s)
    ensures s.threads == map[] && s.master.reports == [] && s.exits == []
    decreases |cs|
  {
    if cs != [] {
      var u :| Leads(plan, s0, cs[..|cs| - 1], u) && StepBy(plan, u, cs[|cs| - 1], s);
      RefusedLaunchNeverEnds(plan, s0, cs[..|cs| - 1], u);
    }
  }
}
