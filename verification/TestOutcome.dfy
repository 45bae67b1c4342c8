/** What the report of the test threads is worth: tests are failed exactly if
    something went wrong on the way, and success means that all tests were made. */
module TestOutcome {
  import opened TestMaster
  import opened TestThreads
  import opened TestTermination
  import opened TestLaws

  // ---- Schedules with their states ----

  ghost predicate TraceAt(plan: Plan, tr: seq<State>, cs: seq<Choice>, m: nat)
    requires m < |cs| && |tr| == |cs| + 1
  {
    StepBy(plan, tr[m], cs[m], tr[m + 1])
  }

  /** The states that a schedule goes through after a first launch that succeeded. */
  ghost predicate IsTrace(plan: Plan, reloader: bool, tr: seq<State>, cs: seq<Choice>) {
    && |tr| == |cs| + 1
    && tr[0] == Launched(plan, reloader)
    && forall m: nat :: m < |cs| ==> TraceAt(plan, tr, cs, m)
  }

  /** Every schedule goes through such states. */
  lemma {:induction false} ScheduleHasTrace(plan: Plan, reloader: bool, cs: seq<Choice>, s: State)
    returns (tr: seq<State>)
    requires Leads(plan, Launched(plan, reloader), cs, s)
    ensures IsTrace(plan, reloader, tr, cs) && tr[|cs|] == s
    decreases |cs|
  {
    hide StepBy, Launched;
    if cs == [] {
      tr := [s];
    } else {
      var before, last := cs[..|cs| - 1], cs[|cs| - 1];
      var u :| Leads(plan, Launched(plan, reloader), before, u) && StepBy(plan, u, last, s);
      var tr' := ScheduleHasTrace(plan, reloader, before, u);
      tr := tr' + [s];
      forall m: nat | m < |cs| ensures TraceAt(plan, tr, cs, m) {
        if m < |before| {
          assert TraceAt(plan, tr', before, m);
          assert before[m] == cs[m];
        }
      }
    }
  }

  lemma {:induction false} TraceInv(plan: Plan, reloader: bool, tr: seq<State>, cs: seq<Choice>, m: nat)
    requires IsTrace(plan, reloader, tr, cs) && m < |tr|
    ensures Inv(plan, tr[m])
  {
    hide Inv, StepBy, Launched;
    if m == 0 {
      LaunchedInv(plan, reloader);
    } else {
      TraceInv(plan, reloader, tr, cs, m - 1);
      assert TraceAt(plan, tr, cs, m - 1);
      StepKeepsInv(plan, tr[m - 1], cs[m - 1], tr[m]);
    }
  }

  // ---- What may happen ----

  /** Whatever a thread is about to do may turn out well or not, and a reload may fail
      at any time while the reloader runs. */
  lemma AnythingMayHappen(plan: Plan, s: State, t: Thread, ok: bool, error: string)
    requires Inv(plan, s) && error != ""
    ensures t in s.threads && s.threads[t].phase != Ended ==> Enabled(plan, s, Run(t, ok, error))
    ensures s.reloaderRuns ==> Enabled(plan, s, ReloaderFails(error))
  {
    hide ChildrenBehind, NothingSkipped, LiveThreads, Open, Closed;
  }

  /** The reloader runs until it has been waited for in time. */
  lemma ReloaderRunsOn(plan: Plan, s: State, c: Choice, s': State)
    requires Inv(plan, s) && StepBy(plan, s, c, s')
    ensures s'.reloaderRuns <==>
      s.reloaderRuns && !(c.Run? && c.ok && c.t in s.threads && s.threads[c.t].phase == Waiting)
  {
    hide ChildrenBehind, NothingSkipped, LiveThreads, Open, Closed;
  }

  // ---- When the tests are failed ----

  /** The choice makes something go wrong: the preparations of a thread, a launch, a
      test, the end of the reloader, or a reload. */
  predicate GoesWrong(s: State, c: Choice) {
    || c.ReloaderFails?
    || (c.Run? && !c.ok && c.t in s.threads &&
        var p := s.threads[c.t];
        p.phase == Setup || p.phase == Waiting || (p.phase == Working && p.left > 0))
  }

  lemma StepFailsIff(plan: Plan, s: State, c: Choice, s': State)
    requires Inv(plan, s) && StepBy(plan, s, c, s')
    ensures s'.master.failed <==> s.master.failed || GoesWrong(s, c)
  {
    hide ChildrenBehind, NothingSkipped, LiveThreads, Open, Closed;
  }

  /** A launch that the pool refuses is reported by the name of the job. */
  lemma RefusalIsNamed(plan: Plan, s: State, t: Thread, error: string)
    requires Inv(plan, s) && t in s.threads && s.threads[t].phase == Working && s.threads[t].left > 0
    requires !t.Fn? && !s.master.failed && error != ""
    ensures Enabled(plan, s, Run(t, false, error)) && Bounded(plan, s)
    ensures Next(plan, s, Run(t, false, error)).master == s.master.(failed := true, errors := s.master.errors +
      [if t == Main then "run thread db_test_thread failed." else "run thread fn_test_thread failed."])
  {
    hide ChildrenBehind, NothingSkipped, LiveThreads, Open, Closed, LaunchNext;
    LaunchIsRefused(plan, s, t);
  }

  lemma LaunchIsRefused(plan: Plan, s: State, t: Thread)
    requires Bounded(plan, s) && t in s.threads && s.threads[t].left > 0 && !t.Fn? && !s.master.failed
    ensures LaunchNext(plan, s, t, false).master == s.master.(failed := true, errors := s.master.errors +
      [if t == Main then "run thread db_test_thread failed." else "run thread fn_test_thread failed."])
  {
    assert "run thread " + "db_test_thread" + " failed." == "run thread db_test_thread failed.";
    assert "run thread " + "fn_test_thread" + " failed." == "run thread fn_test_thread failed.";
  }

  lemma {:induction false} FailedIffWrong(plan: Plan, reloader: bool, tr: seq<State>, cs: seq<Choice>, n: nat)
    requires IsTrace(plan, reloader, tr, cs) && n < |tr|
    ensures tr[n].master.failed <==> exists m: nat :: m < n && GoesWrong(tr[m], cs[m])
  {
    hide Inv, StepBy, GoesWrong;
    if n > 0 {
      FailedIffWrong(plan, reloader, tr, cs, n - 1);
      TraceInv(plan, reloader, tr, cs, n - 1);
      assert TraceAt(plan, tr, cs, n - 1);
      StepFailsIff(plan, tr[n - 1], cs[n - 1], tr[n]);
    }
  }

  /** The tests are failed, and have an error to show, exactly if before this state
      the preparations of a thread, a launch, a test or the end of the reloader went
      wrong, or the reloader reported an error. */
  lemma FailedExactlyIf(plan: Plan, reloader: bool, tr: seq<State>, cs: seq<Choice>, n: nat)
    requires IsTrace(plan, reloader, tr, cs) && n < |tr|
    ensures tr[n].master.failed == (tr[n].master.errors != [])
    ensures tr[n].master.failed <==>
      exists m: nat :: m < n && (
        || cs[m].ReloaderFails?
        || (cs[m].Run? && !cs[m].ok && cs[m].t in tr[m].threads &&
            var p := tr[m].threads[cs[m].t];
            p.phase == Setup || p.phase == Waiting || (p.phase == Working && p.left > 0)))
  {
    hide Inv, IsTrace;
    FailedIffWrong(plan, reloader, tr, cs, n);
    TraceInv(plan, reloader, tr, cs, n);
    ErrorsShowFailure(plan, tr[n]);
  }

  lemma ErrorsShowFailure(plan: Plan, s: State)
    requires Inv(plan, s)
    ensures s.master.failed == (s.master.errors != [])
  {
  }

  lemma NotReportedYet(plan: Plan, s: State, t: Thread)
    requires Inv(plan, s) && t in s.threads && (s.threads[t].phase == Finishing || s.threads[t].phase == Waiting)
    ensures s.master.reports == []
  {
    if s.master.count == 0 {
      var c :| Closed(s, c);
    }
  }

  lemma StepReports(plan: Plan, s: State, c: Choice, s': State)
    requires Inv(plan, s) && StepBy(plan, s, c, s') && s'.master.reports != s.master.reports
    ensures s.master.reports == [] && s'.master.reports == [!s'.master.failed]
  {
    hide Inv, Bounded;
    if c.Run? && (s.threads[c.t].phase == Finishing || s.threads[c.t].phase == Waiting) {
      NotReportedYet(plan, s, c.t);
    }
  }

  /** The report says whether the tests are failed when it is written. */
  lemma ReportIsTrue(plan: Plan, reloader: bool, tr: seq<State>, cs: seq<Choice>, m: nat)
    requires IsTrace(plan, reloader, tr, cs) && m < |cs|
    requires tr[m + 1].master.reports != tr[m].master.reports
    ensures tr[m].master.reports == [] && tr[m + 1].master.reports == [!tr[m + 1].master.failed]
  {
    hide Inv, StepBy, Launched;
    TraceInv(plan, reloader, tr, cs, m);
    assert TraceAt(plan, tr, cs, m);
    StepReports(plan, tr[m], cs[m], tr[m + 1]);
  }

  /** If all goes well and the reloader reports no error, there is no error, every
      report says success, and every exit is with code 0. */
  lemma AllGoodIsSuccess(plan: Plan, reloader: bool, cs: seq<Choice>, s: State)
    requires Leads(plan, Launched(plan, reloader), cs, s)
    requires forall m :: 0 <= m < |cs| ==> cs[m].Run? && cs[m].ok
    ensures !s.master.failed && s.master.errors == []
    ensures s.master.reports == [] || s.master.reports == [true]
    ensures s.exits == [] || s.exits == [0]
  {
    hide Leads, Launched, Inv;
    var tr := ScheduleHasTrace(plan, reloader, cs, s);
    FailedExactlyIf(plan, reloader, tr, cs, |cs|);
    TraceInv(plan, reloader, tr, cs, |cs|);
    GoodReports(plan, s);
  }

  lemma GoodReports(plan: Plan, s: State)
    requires Inv(plan, s) && !s.master.failed
    ensures s.master.reports == [] || s.master.reports == [true]
    ensures s.exits == [] || s.exits == [0]
  {
    if s.master.count == 0 {
      var t :| Closed(s, t);
    }
  }

  /** And such a schedule, carried on until no thread can go on, ends the program with
      success. */
  lemma AllGoodEndsInSuccess(plan: Plan, reloader: bool, cs: seq<Choice>, s: State)
    requires Leads(plan, Launched(plan, reloader), cs, s)
    requires forall m :: 0 <= m < |cs| ==> cs[m].Run? && cs[m].ok
    requires forall t :: !Enabled(plan, s, Run(t, true, "e"))
    ensures s.master.reports == [true] && s.exits == [0]
  {
    hide Leads, Launched;
    AllGoodIsSuccess(plan, reloader, cs, s);
    EveryScheduleEnds(plan, reloader, cs, s);
  }

  // ---- Success means that all tests were made ----

  /** The step of a thread that makes a test, and passes it. */
  predicate Passes(s: State, c: Choice, t: Thread) {
    c.Run? && c.t == t && c.ok && t in s.threads && s.threads[t].phase == Working && s.threads[t].left > 0
  }

  function Passed(tr: seq<State>, cs: seq<Choice>, t: Thread, n: nat): nat
    requires n <= |cs| < |tr|
  {
    if n == 0 then 0 else Passed(tr, cs, t, n - 1) + (if Passes(tr[n - 1], cs[n - 1], t) then 1 else 0)
  }

  /** What one step does to what a test thread has still to do. */
  lemma OwnTest(plan: Plan, s: State, c: Choice, s': State, i: nat, k: nat)
    requires Inv(plan, s) && StepBy(plan, s, c, s') && i < |plan|
    ensures var t := Fn(i, k);
      && (t in s.threads ==>
            && t in s'.threads
            && s'.threads[t].left + (if Passes(s, c, t) then 1 else 0) == s.threads[t].left)
      && (t !in s.threads && t in s'.threads ==> s'.threads[t].left == plan[i].tests && !Passes(s, c, t))
  {
    hide Inv, ThreadStep, Bounded;
    if c.Run? {
      if c.t.Fn? {
        TestStep(plan, s, c.t, c.ok, c.error);
      } else {
        OtherStep(plan, s, c.t, c.ok, c.error, i, k);
      }
    }
  }

  lemma TestStep(plan: Plan, s: State, t: Thread, ok: bool, error: string)
    requires Inv(plan, s) && Enabled(plan, s, Run(t, ok, error)) && t.Fn?
    ensures s.threads[t].left <= Work(plan, t)
    ensures var s' := ThreadStep(plan, s, t, ok, error);
      && t in s'.threads && s'.threads == s.threads[t := s'.threads[t]]
      && s'.threads[t].left + (if Passes(s, Run(t, ok, error), t) then 1 else 0) == s.threads[t].left
  {
    hide ChildrenBehind, NothingSkipped, LiveThreads, Open, Closed, Leave, AfterReloader, Fail;
  }

  lemma OtherStep(plan: Plan, s: State, t: Thread, ok: bool, error: string, i: nat, k: nat)
    requires Inv(plan, s) && Enabled(plan, s, Run(t, ok, error)) && !t.Fn? && i < |plan|
    ensures s.threads[t].left <= Work(plan, t)
    ensures var s' := ThreadStep(plan, s, t, ok, error);
      && (Fn(i, k) in s.threads ==> Fn(i, k) in s'.threads && s'.threads[Fn(i, k)] == s.threads[Fn(i, k)])
      && (Fn(i, k) !in s.threads && Fn(i, k) in s'.threads ==> s'.threads[Fn(i, k)].left == plan[i].tests)
  {
    hide NothingSkipped, LiveThreads, Open, Closed, Leave, AfterReloader, Fail, Launch;
    if s.threads[t].phase == Working && s.threads[t].left > 0 {
      ChildIsNew(plan, s, t);
    }
  }

  /** What a test thread has still to do and what it passed add up to the tests that
      the configuration asks of it. */
  lemma {:induction false} PassedAndLeft(plan: Plan, reloader: bool, tr: seq<State>, cs: seq<Choice>,
                                         i: nat, k: nat, n: nat)
    requires IsTrace(plan, reloader, tr, cs) && n < |tr| && i < |plan|
    ensures
      if Fn(i, k) in tr[n].threads
      then tr[n].threads[Fn(i, k)].left + Passed(tr, cs, Fn(i, k), n) == plan[i].tests
      else Passed(tr, cs, Fn(i, k), n) == 0
  {
    hide Inv, StepBy;
    if n > 0 {
      PassedAndLeft(plan, reloader, tr, cs, i, k, n - 1);
      TraceInv(plan, reloader, tr, cs, n - 1);
      assert TraceAt(plan, tr, cs, n - 1);
      OwnTest(plan, tr[n - 1], cs[n - 1], tr[n], i, k);
    }
  }

  /** If success is reported, then of every database every thread that the
      configuration asks for was launched, and passed all its tests. */
  lemma SuccessMeansTested(plan: Plan, reloader: bool, tr: seq<State>, cs: seq<Choice>, i: nat, k: nat)
    requires IsTrace(plan, reloader, tr, cs) && tr[|cs|].master.reports == [true]
    requires i < |plan| && k < plan[i].testThreads
    ensures Fn(i, k) in tr[|cs|].threads && Passed(tr, cs, Fn(i, k), |cs|) == plan[i].tests
  {
    hide StepBy, Inv, Passed;
    var s := tr[|cs|];
    TraceInv(plan, reloader, tr, cs, |cs|);
    PassedAndLeft(plan, reloader, tr, cs, i, k, |cs|);
    InvSuccess(plan, s);
    assert InTree(plan, Fn(i, k));
  }

  // ---- After a failure ----

  /** Once the tests are failed, no thread is launched, and no thread of a database
      begins another round of launches or another test. */
  lemma FailureStopsWork(plan: Plan, s: State, c: Choice, s': State)
    requires Inv(plan, s) && StepBy(plan, s, c, s') && s.master.failed
    ensures s'.master.failed && s'.threads.Keys == s.threads.Keys
    ensures forall t :: t in s.threads && t != Main && s'.threads[t].phase == Working ==> s.threads[t].phase == Working
  {
    hide Inv, ThreadStep;
    if c.Run? {
      OneThreadMoves(plan, s, c.t, c.ok, c.error);
    }
  }

  lemma OneThreadMoves(plan: Plan, s: State, t: Thread, ok: bool, error: string)
    requires Inv(plan, s) && Enabled(plan, s, Run(t, ok, error)) && s.master.failed
    ensures Bounded(plan, s)
    ensures var s' := Next(plan, s, Run(t, ok, error));
      && t in s'.threads && s'.threads == s.threads[t := s'.threads[t]] && s'.master.failed
      && (t != Main && s'.threads[t].phase == Working ==> s.threads[t].phase == Working)
  {
    hide ChildrenBehind, NothingSkipped, LiveThreads, Open, Closed;
  }

  lemma {:induction false} NothingLaunchedAfterFailure(plan: Plan, s: State, cs: seq<Choice>, s': State)
    requires Inv(plan, s) && Leads(plan, s, cs, s') && s.master.failed
    ensures s'.master.failed && s'.threads.Keys == s.threads.Keys
    decreases |cs|
  {
    hide Inv, StepBy;
    if cs != [] {
      var u :| Leads(plan, s, cs[..|cs| - 1], u) && StepBy(plan, u, cs[|cs| - 1], s');
      NothingLaunchedAfterFailure(plan, s, cs[..|cs| - 1], u);
      LeadsKeepsInv(plan, s, cs[..|cs| - 1], u);
      FailureStopsWork(plan, u, cs[|cs| - 1], s');
    }
  }
}
