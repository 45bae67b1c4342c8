/** The last test thread is recognised exactly once, and only when the whole tree
    of threads has finished. */
module TestTermination {
  import opened TestMaster
  import opened TestThreads

  // ---- Every step keeps the invariant ----

  /** Replacing the progress of one thread changes the live threads by that thread. */
  lemma LiveAt(s: State, t: Thread, p: Progress)
    ensures LiveThreads(At(s, t, p)) == if Live(p) then LiveThreads(s) + {t} else LiveThreads(s) - {t}
  {
  }

  /** A step of a thread that stays live keeps the count. */
  lemma StillLive(s: State, t: Thread, p: Progress)
    requires t in s.threads && Live(s.threads[t]) && Live(p)
    ensures LiveThreads(At(s, t, p)) == LiveThreads(s)
  {
    LiveAt(s, t, p);
  }

  lemma LiveIsOpen(plan: Plan, s: State, t: Thread)
    requires Inv(plan, s) && t in s.threads && Live(s.threads[t])
    ensures s.master.count > 0 && Open(s)
  {
    assert t in LiveThreads(s);
  }

  /** A thread goes on without launching anything. */
  lemma GoOn(plan: Plan, s: State, t: Thread, p: Progress)
    requires Inv(plan, s) && t in s.threads && Live(s.threads[t]) && Live(p)
    requires p.left == s.threads[t].left || (t.Fn? && p.left <= s.threads[t].left)
    requires p.phase == Finishing ==> s.master.failed || p.left == 0
    ensures Inv(plan, At(s, t, p))
  {
    LiveIsOpen(plan, s, t);
    StillLive(s, t, p);
  }

  /** A thread records a failure and leaves its loop. */
  lemma FailAndStop(plan: Plan, s: State, t: Thread, error: string)
    requires Inv(plan, s) && t in s.threads && Live(s.threads[t]) && error != ""
    ensures Inv(plan, StopWith(s, t, error))
  {
    var s' := s.(master := Fail(s.master, error));
    assert s'.master.errors[|s.master.errors|] == error;
    LiveIsOpen(plan, s, t);
    assert LiveThreads(s') == LiveThreads(s);
    GoOn(plan, s', t, Progress(Finishing, s.threads[t].left));
  }

  lemma ChildIsNew(plan: Plan, s: State, t: Thread)
    requires ChildrenBehind(plan, s) && t in s.threads && InTree(plan, t) && !t.Fn?
    requires 0 < s.threads[t].left <= Work(plan, t)
    ensures var child := Child(t, Work(plan, t) - s.threads[t].left);
      && InTree(plan, child) && child != t && child !in s.threads
  {
  }

  lemma RefusedStaysInTree(plan: Plan, s: State, t: Thread)
    requires Bounded(plan, s) && ChildrenBehind(plan, s) && t in s.threads && s.threads[t].left > 0
    ensures var s' := At(s, t, Progress(Working, s.threads[t].left - 1));
      Bounded(plan, s') && ChildrenBehind(plan, s')
  {
  }

  lemma RefusedLaunch(plan: Plan, s: State, t: Thread, accepted: bool)
    requires Inv(plan, s) && t in s.threads && InTree(plan, t) && !t.Fn?
    requires s.threads[t].phase == Working && s.threads[t].left > 0 && !Launches(s.master, accepted)
    ensures Inv(plan, LaunchNext(plan, s, t, accepted))
  {
    var s1 := At(s, t, Progress(Working, s.threads[t].left - 1));
    var s' := LaunchNext(plan, s, t, accepted);
    RefusedStaysInTree(plan, s, t);
    LiveIsOpen(plan, s, t);
    StillLive(s, t, s1.threads[t]);
    hide Bounded, ChildrenBehind, NothingSkipped, LiveThreads;
    SameTree(plan, s1, s');
  }

  /** The threads after a launch. */
  function WithChild(plan: Plan, s: State, t: Thread): State
    requires t in s.threads && InTree(plan, t) && !t.Fn? && 0 < s.threads[t].left <= Work(plan, t)
    requires InTree(plan, Child(t, Work(plan, t) - s.threads[t].left))
  {
    var left := s.threads[t].left;
    var child := Child(t, Work(plan, t) - left);
    At(At(s, t, Progress(Working, left - 1)), child, Start(plan, child))
  }

  /** A thread about to launch its next child. */
  ghost predicate AboutToLaunch(plan: Plan, s: State, t: Thread) {
    && Bounded(plan, s) && ChildrenBehind(plan, s)
    && t in s.threads && InTree(plan, t) && !t.Fn? && s.threads[t].phase == Working && s.threads[t].left > 0
  }

  lemma LaunchStaysBounded(plan: Plan, s: State, t: Thread)
    requires AboutToLaunch(plan, s, t)
    ensures InTree(plan, Child(t, Work(plan, t) - s.threads[t].left)) && Bounded(plan, WithChild(plan, s, t))
  {
    ChildIsNew(plan, s, t);
    hide ChildrenBehind;
  }

  lemma LaunchKeepsBehind(plan: Plan, s: State, t: Thread)
    requires AboutToLaunch(plan, s, t) && InTree(plan, Child(t, Work(plan, t) - s.threads[t].left))
    ensures ChildrenBehind(plan, WithChild(plan, s, t))
  {
    if t.Main? {
      MainKeepsBehind(plan, s);
    } else {
      DbKeepsBehind(plan, s, t.i);
    }
  }

  lemma MainKeepsBehind(plan: Plan, s: State)
    requires AboutToLaunch(plan, s, Main) && InTree(plan, Child(Main, Work(plan, Main) - s.threads[Main].left))
    ensures ChildrenBehind(plan, WithChild(plan, s, Main))
  {
    ChildIsNew(plan, s, Main);
  }

  lemma DbKeepsBehind(plan: Plan, s: State, i: nat)
    requires AboutToLaunch(plan, s, Db(i)) && InTree(plan, Child(Db(i), Work(plan, Db(i)) - s.threads[Db(i)].left))
    ensures ChildrenBehind(plan, WithChild(plan, s, Db(i)))
  {
    ChildIsNew(plan, s, Db(i));
  }

  lemma MainSkipsNothing(plan: Plan, s: State)
    requires AboutToLaunch(plan, s, Main) && InTree(plan, Child(Main, Work(plan, Main) - s.threads[Main].left))
    requires NothingSkipped(plan, s)
    ensures NothingSkipped(plan, WithChild(plan, s, Main))
  {
    ChildIsNew(plan, s, Main);
    hide ChildrenBehind;
  }

  lemma DbSkipsNothing(plan: Plan, s: State, i: nat)
    requires AboutToLaunch(plan, s, Db(i)) && InTree(plan, Child(Db(i), Work(plan, Db(i)) - s.threads[Db(i)].left))
    requires NothingSkipped(plan, s)
    ensures NothingSkipped(plan, WithChild(plan, s, Db(i)))
  {
    ChildIsNew(plan, s, Db(i));
    hide ChildrenBehind;
  }

  lemma TwoAt(s: State, t: Thread, p: Progress, child: Thread, q: Progress)
    requires t in s.threads && Live(s.threads[t]) && Live(p) && Live(q) && child !in s.threads
    ensures var s' := At(At(s, t, p), child, q);
      |LiveThreads(s')| == |LiveThreads(s)| + 1 && (Open(s) ==> Open(s'))
  {
    StillLive(s, t, p);
    LiveAt(At(s, t, p), child, q);
    assert child !in LiveThreads(s);
  }

  lemma NewChild(plan: Plan, s: State, t: Thread)
    requires Inv(plan, s) && t in s.threads && InTree(plan, t) && !t.Fn? && s.threads[t].left > 0
    ensures s.threads[t].left <= Work(plan, t)
    ensures var child := Child(t, Work(plan, t) - s.threads[t].left);
      InTree(plan, child) && child != t && child !in s.threads
  {
    ChildIsNew(plan, s, t);
  }

  lemma OneMoreLive(plan: Plan, s: State, t: Thread)
    requires Inv(plan, s) && t in s.threads && InTree(plan, t) && !t.Fn?
    requires s.threads[t].phase == Working && s.threads[t].left > 0
    ensures InTree(plan, Child(t, Work(plan, t) - s.threads[t].left))
    ensures var s' := WithChild(plan, s, t);
      |LiveThreads(s')| == |LiveThreads(s)| + 1 && Open(s')
  {
    hide Inv, LiveThreads, Open, Work, InTree;
    LiveIsOpen(plan, s, t);
    NewChild(plan, s, t);
    var left := s.threads[t].left;
    var child := Child(t, Work(plan, t) - left);
    TwoAt(s, t, Progress(Working, left - 1), child, Start(plan, child));
  }

  lemma ReadyToLaunch(plan: Plan, s: State, t: Thread)
    requires Inv(plan, s) && t in s.threads && InTree(plan, t) && !t.Fn?
    requires s.threads[t].phase == Working && s.threads[t].left > 0
    ensures AboutToLaunch(plan, s, t)
  {
  }

  lemma AcceptedLaunch(plan: Plan, s: State, t: Thread)
    requires Inv(plan, s) && t in s.threads && InTree(plan, t) && !t.Fn?
    requires s.threads[t].phase == Working && s.threads[t].left > 0 && !s.master.failed
    ensures Inv(plan, LaunchNext(plan, s, t, true))
  {
    hide Bounded, ChildrenBehind, NothingSkipped, LiveThreads, Open, Closed, AboutToLaunch;
    OneMoreLive(plan, s, t);
    var s2 := WithChild(plan, s, t);
    ReadyToLaunch(plan, s, t);
    LaunchStaysBounded(plan, s, t);
    LaunchKeepsBehind(plan, s, t);
    if t.Main? {
      MainSkipsNothing(plan, s);
    } else {
      DbSkipsNothing(plan, s, t.i);
    }
    LaunchedIs(plan, s, t);
    SameTree(plan, s2, LaunchNext(plan, s, t, true));
  }

  lemma LaunchedIs(plan: Plan, s: State, t: Thread)
    requires Bounded(plan, s) && t in s.threads && InTree(plan, t) && !t.Fn? && s.threads[t].left > 0
    requires InTree(plan, Child(t, Work(plan, t) - s.threads[t].left)) && !s.master.failed
    ensures LaunchNext(plan, s, t, true) ==
      WithChild(plan, s, t).(master := s.master.(count := s.master.count + 1))
  {
  }

  /** The shape of the tree depends on the threads only. */
  lemma SameTree(plan: Plan, s: State, s': State)
    requires s.threads == s'.threads
    ensures Bounded(plan, s) == Bounded(plan, s')
    ensures ChildrenBehind(plan, s) == ChildrenBehind(plan, s')
    ensures NothingSkipped(plan, s) == NothingSkipped(plan, s')
    ensures LiveThreads(s) == LiveThreads(s')
    ensures s.master.reports == s'.master.reports && s.exits == s'.exits ==> Open(s) == Open(s')
  {
  }

  /** A thread that leaves after its loop keeps the shape of the tree. */
  lemma LeftKeepsTree(plan: Plan, s: State, s': State, t: Thread)
    requires t in s.threads && t in s'.threads && s'.threads == s.threads[t := s'.threads[t]]
    requires s'.threads[t].left == s.threads[t].left && s.threads[t].phase == Finishing
    ensures Bounded(plan, s) == Bounded(plan, s')
    ensures ChildrenBehind(plan, s) ==> ChildrenBehind(plan, s')
    ensures NothingSkipped(plan, s) ==> NothingSkipped(plan, s')
  {
  }

  /** Once nobody is counted, everybody but the one leaving last has ended. */
  lemma LastOneLeft(s: State, t: Thread)
    requires LiveThreads(s) == {}
    requires forall u :: u in s.threads && u != t ==> Live(s.threads[u]) || s.threads[u].phase == Ended
    ensures OthersEnded(s, t)
  {
    forall u | u in s.threads && u != t ensures s.threads[u].phase == Ended {
      assert u !in LiveThreads(s);
    }
  }

  /** A thread that leaves is counted no longer. */
  lemma OneLessLive(s: State, s': State, t: Thread)
    requires t in s.threads && Live(s.threads[t]) && t in s'.threads && !Live(s'.threads[t])
    requires s'.threads == s.threads[t := s'.threads[t]]
    ensures |LiveThreads(s')| == |LiveThreads(s)| - 1
  {
    assert LiveThreads(s') == LiveThreads(s) - {t};
    assert t in LiveThreads(s);
  }

  lemma DepartKeepsInv(plan: Plan, s: State, t: Thread)
    requires Inv(plan, s) && t in s.threads && s.threads[t].phase == Finishing
    ensures Inv(plan, Depart(s, t))
  {
    hide Bounded, ChildrenBehind, NothingSkipped, LiveThreads, OthersEnded;
    var s' := Depart(s, t);
    LeftKeepsTree(plan, s, s', t);
    LiveIsOpen(plan, s, t);
    OneLessLive(s, s', t);
    if s'.master.count == 0 {
      LastOneLeft(s', t);
      assert Closed(s', t);
    }
  }

  /** The thread that saw the count reach zero goes on alone. */
  lemma CloserIs(plan: Plan, s: State, t: Thread)
    requires Inv(plan, s) && t in s.threads && !Live(s.threads[t]) && s.threads[t].phase != Ended
    ensures s.master.count == 0 && Closed(s, t)
  {
  }

  /** The shape of the tree does not depend on how a closing thread goes on. */
  lemma SameLeft(plan: Plan, s: State, s': State, t: Thread)
    requires t in s.threads && t in s'.threads && s'.threads == s.threads[t := s'.threads[t]]
    requires s'.threads[t].left == s.threads[t].left && !Live(s.threads[t]) && !Live(s'.threads[t])
    ensures Bounded(plan, s) == Bounded(plan, s')
    ensures ChildrenBehind(plan, s) ==> ChildrenBehind(plan, s')
    ensures NothingSkipped(plan, s) ==> NothingSkipped(plan, s')
  {
  }

  lemma WaitIsOver(s: State, t: Thread, ok: bool)
    requires Closed(s, t) && s.threads[t].phase == Waiting
    ensures var m := AfterReloader(s.master, ok);
      Closed(At(s.(master := m, reloaderRuns := s.reloaderRuns && !ok), t,
                s.threads[t].(phase := Exiting(ExitCode(m)))), t)
  {
  }

  lemma Exits(s: State, t: Thread)
    requires Closed(s, t) && s.threads[t].phase.Exiting?
    ensures Closed(At(s.(exits := s.exits + [s.threads[t].phase.code]), t, s.threads[t].(phase := Ended)), t)
  {
  }

  lemma WithinWork(plan: Plan, s: State, t: Thread)
    requires Bounded(plan, s) && t in s.threads
    ensures InTree(plan, t) && s.threads[t].left <= Work(plan, t)
  {
  }

  lemma StillNotLive(s: State, s': State, t: Thread)
    requires t in s.threads && t in s'.threads && !Live(s.threads[t]) && !Live(s'.threads[t])
    requires s'.threads == s.threads[t := s'.threads[t]]
    ensures LiveThreads(s') == LiveThreads(s)
  {
  }

  lemma CloseKeepsInv(plan: Plan, s: State, t: Thread, ok: bool, error: string)
    requires Inv(plan, s) && t in s.threads && InTree(plan, t) && !Live(s.threads[t]) && s.threads[t].phase != Ended
    ensures Inv(plan, ThreadStep(plan, s, t, ok, error))
  {
    hide Bounded, ChildrenBehind, NothingSkipped, LiveThreads, OthersEnded, Open;
    assert s.threads[t].left <= Work(plan, t) by {
      WithinWork(plan, s, t);
    }
    var s' := ThreadStep(plan, s, t, ok, error);
    CloserIs(plan, s, t);
    SameLeft(plan, s, s', t);
    StillNotLive(s, s', t);
    if s.threads[t].phase == Waiting {
      WaitIsOver(s, t, ok);
    } else {
      Exits(s, t);
    }
  }

  lemma ReloaderKeepsInv(plan: Plan, s: State, error: string)
    requires Inv(plan, s) && s.reloaderRuns && error != ""
    ensures Inv(plan, s.(master := Fail(s.master, error)))
  {
    var s' := s.(master := Fail(s.master, error));
    assert s'.master.errors[|s.master.errors|] == error;
    assert LiveThreads(s') == LiveThreads(s);
    if s.master.count == 0 {
      var t :| Closed(s, t);
      assert Closed(s', t);
    }
  }

  lemma ThreadKeepsInv(plan: Plan, s: State, t: Thread, ok: bool, error: string)
    requires Inv(plan, s) && Enabled(plan, s, Run(t, ok, error))
    ensures Inv(plan, ThreadStep(plan, s, t, ok, error))
  {
    hide Inv, Launch, Launches;
    assert s.threads[t].left <= Work(plan, t) by {
      InvBounds(plan, s);
    }
    var p := s.threads[t];
    match p.phase {
      case Setup =>
        if ok {
          GoOn(plan, s, t, p.(phase := if t.Main? then Working else Checking));
        } else {
          FailAndStop(plan, s, t, error);
        }
      case Checking =>
        if s.master.failed || (t.Fn? && p.left == 0) {
          GoOn(plan, s, t, Progress(Finishing, p.left));
        } else {
          GoOn(plan, s, t, p.(phase := Working));
        }
      case Working =>
        if p.left == 0 {
          GoOn(plan, s, t, Progress(Finishing, 0));
        } else if !t.Fn? {
          if Launches(s.master, ok) {
            LaunchesMeans(s.master, ok);
            AcceptedLaunch(plan, s, t);
          } else {
            RefusedLaunch(plan, s, t, ok);
          }
        } else if ok {
          GoOn(plan, s, t, Progress(Checking, p.left - 1));
        } else {
          FailAndStop(plan, s, t, error);
        }
      case Finishing => DepartKeepsInv(plan, s, t);
      case _ => CloseKeepsInv(plan, s, t, ok, error);
    }
  }

  lemma LaunchesMeans(m: Master, ok: bool)
    requires Launches(m, ok)
    ensures ok && !m.failed
  {
  }

  lemma InvBounds(plan: Plan, s: State)
    requires Inv(plan, s)
    ensures Bounded(plan, s)
  {
  }

  lemma StepKeepsInv(plan: Plan, s: State, c: Choice, s': State)
    requires Inv(plan, s) && StepBy(plan, s, c, s')
    ensures Inv(plan, s')
  {
    hide Inv, ThreadStep;
    match c {
      case Run(t, ok, error) => ThreadKeepsInv(plan, s, t, ok, error);
      case ReloaderFails(error) => ReloaderKeepsInv(plan, s, error);
    }
  }

  lemma LaunchedInv(plan: Plan, reloader: bool)
    ensures Inv(plan, Launched(plan, reloader))
  {
    assert LiveThreads(Launched(plan, reloader)) == {Main};
  }

  lemma {:induction false} LeadsKeepsInv(plan: Plan, s: State, cs: seq<Choice>, s': State)
    requires Inv(plan, s) && Leads(plan, s, cs, s')
    ensures Inv(plan, s')
    decreases |cs|
  {
    hide Inv, StepBy;
    if cs != [] {
      var u :| Leads(plan, s, cs[..|cs| - 1], u) && StepBy(plan, u, cs[|cs| - 1], s');
      LeadsKeepsInv(plan, s, cs[..|cs| - 1], u);
      StepKeepsInv(plan, u, cs[|cs| - 1], s');
    }
  }

  /** The invariant holds whatever the schedule. */
  lemma ReachableInv(plan: Plan, s: State)
    requires Reachable(plan, s)
    ensures Inv(plan, s)
  {
    hide Inv, Leads;
    var reloader, cs :| Leads(plan, Launched(plan, reloader), cs, s);
    LaunchedInv(plan, reloader);
    LeadsKeepsInv(plan, Launched(plan, reloader), cs, s);
  }
}
