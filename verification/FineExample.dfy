/** A run of the mutex-level protocol, operation by operation, to a state between the
    two writes of rebindFunction in which the two fields of the function disagree. */
module FineExample {
  import opened Text
  import opened EngineState
  import C = Coarse
  import BL = BindingLaw
  import opened Fine

  lemma Append(r: seq<State>, c: C.Choice) returns (r': seq<State>)
    requires IsRun(r) && Enabled(r[|r| - 1], 0, c)
    ensures IsRun(r') && r' == r + [Next(r[|r| - 1], 0, c)]
  {
    r' := r + [Next(r[|r| - 1], 0, c)];
    forall i: nat | i + 1 < |r'| ensures StepAt(r', i) {
      if i + 1 < |r| {
        assert StepAt(r, i);
      }
    }
  }

  /** The only thread is in user code, and all mutexes are free. */
  ghost predicate Ends(r: seq<State>, e: Engine, fm: seq<Option<nat>>, at: Pc, ret: C.Ret) {
    IsRun(r) && r[|r| - 1] == State(e, None, fm, [C.Thread(at, C.NoCalls, ret)])
  }

  lemma Began() returns (r: seq<State>)
    ensures Ends(r, EMPTY_ENGINE, [], User, C.Nothing)
  {
    r := [INIT, Spawn(INIT)];
    assert Step(INIT, Spawn(INIT));
    assert forall i: nat :: i + 1 < |r| ==> StepAt(r, i);
  }

  lemma Load(r0: seq<State>, e: Engine, fm: seq<Option<nat>>, ret: C.Ret, table: Table) returns (r: seq<State>)
    requires Ends(r0, e, fm, User, ret)
    ensures Ends(r, e, fm, Installing(table, InstallLock), ret)
  {
    hide IsRun;
    r := Append(r0, C.StartReload);
    r := Append(r, C.LoadGives(table));
  }

  lemma Reload(r0: seq<State>, e: Engine, fm: seq<Option<nat>>, ret: C.Ret, table: Table) returns (r: seq<State>)
    requires Ends(r0, e, fm, User, ret)
    ensures Ends(r, Install(e, table), fm, User, C.Reloaded(true))
  {
    r := Load(r0, e, fm, ret, table);
    hide IsRun, Step, ReleaseOld;
    r := Append(r, C.Go);  // InstallLock
    r := Append(r, C.Go);  // InstallIn
    r := Append(r, C.Go);  // InstallRelease
    r := Append(r, C.Go);  // InstallCount
    r := Append(r, C.Go);  // InstallOut
  }

  lemma Make(r0: seq<State>, e: Engine, ret: C.Ret) returns (r: seq<State>)
    requires Ends(r0, e, [], User, ret) && e == Engine([BL.TABLE], [1], [0], Some(0), [], map[], 1)
    ensures Ends(r, e.(objs := [BL.FN], funcs := map[BL.NAME := 0]), [None], User, C.Made(BL.NAME, Some(0)))
  {
    BL.NameIsOrdinary();
    assert NewFunc(e, BL.NAME) == Some(BL.FN);
    r := Append(r0, C.StartMake(BL.NAME));
    r := Append(r, C.Go);  // MakeLock
    r := Append(r, C.Go);  // MakeIn
    r := Append(r, C.Go);  // MakePublish
    r := Append(r, C.Go);  // MakeOut
  }

  /** A function of version 0, with version 1 installed and version 0 expired. */
  const EXPIRED := Engine([BL.TABLE, BL.NEW_TABLE], [0, 1], [1, 0], Some(1), [BL.FN], map[BL.NAME := 0], 2)

  lemma OldVersionExpired() returns (r: seq<State>)
    ensures Ends(r, EXPIRED, [None], User, C.Reloaded(true))
  {
    r := Began();
    r := Reload(r, EMPTY_ENGINE, [], C.Nothing, BL.TABLE);
    var e1 := Install(EMPTY_ENGINE, BL.TABLE);
    assert e1 == Engine([BL.TABLE], [1], [0], Some(0), [], map[], 1);
    r := Make(r, e1, C.Reloaded(true));
    var e2 := e1.(objs := [BL.FN], funcs := map[BL.NAME := 0]);
    r := Reload(r, e2, [None], C.Made(BL.NAME, Some(0)), BL.NEW_TABLE);
    assert Install(e2, BL.NEW_TABLE) == EXPIRED;
  }

  lemma PromotionFails() returns (r: seq<State>)
    ensures Ends(r, EXPIRED, [None], Rebinding(0, 1, 2, RebindLock), C.Reloaded(true))
  {
    r := OldVersionExpired();
    r := Append(r, C.StartCall(0));
    assert r[|r| - 1].threads[0].at == Trying(0, 0, 2, TryLock);
    r := Append(r, C.Go);  // TryLock
    r := Append(r, C.Go);  // TryRead
    r := Append(r, C.Go);  // TryPromote
    r := Append(r, C.Go);  // TryLost
  }

  /** Between the two writes, exec_proc is the new entry while weak_module_ptr still
      designates the old module, whose entry was another. */
  lemma FieldsDisagree() returns (r: seq<State>)
    ensures IsRun(r)
    ensures var s := r[|r| - 1];
      && |s.threads| == 1 && s.threads[0].at == Rebinding(0, 1, 2, RebindWeak(1))
      && s.e.objs == [Func(BL.NAME, Ordinary, 2, Some(0))] && !Bound(s.e, s.e.objs[0])
  {
    r := PromotionFails();
    r := Append(r, C.Go);  // RebindLock
    r := Append(r, C.Go);  // RebindIn
    r := Append(r, C.Go);  // RebindFuncLock
    r := Append(r, C.Go);  // RebindProc
  }
}
