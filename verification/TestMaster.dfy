/** The object that all test threads share: every operation holds its lock. */
module TestMaster {
  import opened Text

  /** How many counted threads are still running, whether a test failed, the error
      texts, and for each report written so far whether it said success. */
  datatype Master = Master(count: int, failed: bool, errors: seq<string>, reports: seq<bool>)

  /** do_fail_tests */
  function Fail(m: Master, error: string): Master {
    m.(failed := true, errors := if error == "" then m.errors else m.errors + [error])
  }

  predicate Launches(m: Master, accepted: bool) {
    !m.failed && accepted
  }

  /** tm_run_thread; `accepted` is the answer of the thread pool. */
  function Launch(m: Master, job: string, accepted: bool): Master {
    if m.failed then m
    else if accepted then m.(count := m.count + 1)
    else Fail(m, "run thread " + job + " failed.")
  }

  /** report_test_results */
  function Report(m: Master): Master {
    m.(reports := m.reports + [!m.failed])
  }

  function ExitCode(m: Master): int {
    if m.failed then 1 else 0
  }

  /** The first critical section of tm_thread_done. */
  function Leave(m: Master, hasReloader: bool): Master {
    var m' := m.(count := m.count - 1);
    if m'.count == 0 && !hasReloader then Report(m') else m'
  }

  /** The second one, entered only by the last thread when there is a reloader. */
  function AfterReloader(m: Master, exitedOk: bool): Master {
    Report(if exitedOk then m else Fail(m, "reload module thread did not return"))
  }

  /** test_master_t */
  class MasterObject {
    var runningCount: int
    var testFailed: bool
    var errors: seq<string>
    var reloadModuleThread: int
    var reports: seq<bool>

    ghost function Value(): Master
      reads this
    {
      Master(runningCount, testFailed, errors, reports)
    }

    constructor ()
      ensures Value() == Master(0, false, [], []) && reloadModuleThread == 0
    {
      runningCount, testFailed, errors, reloadModuleThread, reports := 0, false, [], 0, [];
    }

    method DoFailTests(error: string)
      modifies this`testFailed, this`errors
      ensures Value() == Fail(old(Value()), error)
      ensures testFailed && errors == old(errors) + if error == "" then [] else [error]
    {
      testFailed := true;
      if error != "" {
        errors := errors + [error];
      }
    }

    method RunThread(job: string, accepted: bool) returns (launched: bool)
      modifies this`runningCount, this`testFailed, this`errors
      ensures Value() == Launch(old(Value()), job, accepted)
      ensures launched == Launches(old(Value()), accepted) == (!old(testFailed) && accepted)
      ensures runningCount == old(runningCount) + if launched then 1 else 0
      ensures testFailed == (old(testFailed) || !accepted)
      ensures errors == old(errors) + if old(testFailed) || accepted then [] else ["run thread " + job + " failed."]
    {
      launched := !testFailed;
      if launched {
        runningCount := runningCount + 1;
        launched := accepted;
        if !launched {
          runningCount := runningCount - 1;
          DoFailTests("run thread " + job + " failed.");
        }
      }
    }

    method ReportTestResults()
      modifies this`reports
      ensures Value() == Report(old(Value())) && reports == old(reports) + [!testFailed]
    {
      reports := reports + [!testFailed];
    }

    /** tm_thread_done up to the release of the lock. `exit` is the exit code if the
        thread is to end the program now. */
    method ThreadDone() returns (allDone: bool, waitReloader: bool, exit: Option<int>)
      modifies this`runningCount, this`reports
      ensures Value() == Leave(old(Value()), reloadModuleThread != 0)
      ensures runningCount == old(runningCount) - 1
      ensures reports == old(reports) + if runningCount == 0 && reloadModuleThread == 0 then [!testFailed] else []
      ensures allDone == (runningCount == 0)
      ensures waitReloader == (allDone && reloadModuleThread != 0)
      ensures exit == if allDone && !waitReloader then Some(if testFailed then 1 else 0) else None
    {
      allDone, waitReloader, exit := false, false, None;
      runningCount := runningCount - 1;
      if runningCount == 0 {
        allDone := true;
        waitReloader := reloadModuleThread != 0;
        if !waitReloader {
          ReportTestResults();
          exit := Some(if testFailed then 1 else 0);
        }
      }
    }

    /** tm_thread_done from the end of the wait on. */
    method ReloaderGone(exitedOk: bool) returns (exit: int)
      modifies this`testFailed, this`errors, this`reports
      ensures Value() == AfterReloader(old(Value()), exitedOk) && exit == ExitCode(Value())
      ensures testFailed == (old(testFailed) || !exitedOk) && exit == if testFailed then 1 else 0
      ensures errors == old(errors) + if exitedOk then [] else ["reload module thread did not return"]
      ensures reports == old(reports) + [!testFailed]
    {
      if !exitedOk {
        DoFailTests("reload module thread did not return");
      }
      ReportTestResults();
      exit := if testFailed then 1 else 0;
    }
  }
}
