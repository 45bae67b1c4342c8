/** The objects of the test configuration: loading them, cloning them so that every
    thread has its own, and comparing two configurations by a digest. */
module TestConfigModule {
  import opened Text
  import opened FunctionList
  import opened ConfigValue

  /** func_test_t */
  class FuncTest {
    var sql: Str
    var result: Str

    constructor ()
      ensures Is(TestV(None, None))
    {
      sql, result := None, None;
    }

    ghost predicate Is(v: TestV)
      reads this
    {
      sql == v.sql && result == v.result
    }
  }

  ghost predicate AreTests(ts: seq<FuncTest>, vs: seq<TestV>)
    reads ts
  {
    |ts| == |vs| && forall j :: 0 <= j < |ts| ==> ts[j].Is(vs[j])
  }

  /** ext_func_t */
  class ExtFunc {
    var name: Str
    var paramList: Str
    var returnType: Str
    var extName: Str
    var engine: Str
    var tests: seq<FuncTest>

    constructor ()
      ensures Is(FuncV(None, None, None, None, None, [])) && tests == []
    {
      name, paramList, returnType, extName, engine, tests := None, None, None, None, None, [];
    }

    ghost predicate Is(v: FuncV)
      reads this, tests
    {
      && name == v.name && paramList == v.paramList && returnType == v.returnType
      && extName == v.extName && engine == v.engine
      && AreTests(tests, v.tests)
    }

    /** validate_ext_func */
    method Validate(ghost v: FuncV) returns (ok: bool)
      requires Is(v)
      ensures ok == ValidFunc(v)
    {
      ok := !Empty(name) && !Empty(paramList) && !Empty(returnType) && !Empty(extName) && !Empty(engine);
      if ok && |tests| > 0 {
        for i := 0 to |tests|
          invariant ok && forall k :: 0 <= k < i ==> ValidTest(v.tests[k])
        {
          assert tests[i].Is(v.tests[i]);
          ok := !Empty(tests[i].sql) && !Empty(tests[i].result);
          if !ok {
            break;
          }
        }
      }
    }
  }

  /** test_db_t */
  class TestDb {
    var dbpath: Str
    var funcs: seq<ExtFunc>
    var repeatCount: int
    var testThreads: int

    constructor ()
      ensures Is(DbV(None, [], 0, 0), []) && funcs == []
    {
      dbpath, funcs, repeatCount, testThreads := None, [], 0, 0;
    }

    /** The database refers to functions of the given list. */
    ghost predicate Is(v: DbV, fs: seq<ExtFunc>)
      reads this
    {
      && dbpath == v.dbpath && repeatCount == v.repeatCount && testThreads == v.testThreads
      && |funcs| == |v.funcs|
      && forall j :: 0 <= j < |funcs| ==> v.funcs[j] < |fs| && funcs[j] == fs[v.funcs[j]]
    }
  }

  // ---- The list of functions ----

  ghost predicate AreFuncs(fs: seq<ExtFunc>, vs: seq<FuncV>)
    reads fs, set i, k | 0 <= i < |fs| && 0 <= k < |fs[i].tests| :: fs[i].tests[k]
  {
    |fs| == |vs| && forall i {:trigger fs[i]} :: 0 <= i < |fs| ==> fs[i].Is(vs[i])
  }

  ghost predicate AreDbs(dbs: seq<TestDb>, vs: seq<DbV>, fs: seq<ExtFunc>)
    reads dbs
  {
    |dbs| == |vs| && forall i :: 0 <= i < |dbs| ==> dbs[i].Is(vs[i], fs)
  }

  /** func_by_name */
  method FuncByName(fs: seq<ExtFunc>, ghost vs: seq<FuncV>, name: string) returns (found: int)
    requires AreFuncs(fs, vs) && forall i :: 0 <= i < |vs| ==> vs[i].name.Some?
    ensures found == FirstMatch(vs, name)
  {
    for i := 0 to |fs|
      invariant forall k :: 0 <= k < i ==> !Answers(vs[k], name)
    {
      assert fs[i].Is(vs[i]);
      if SameIgnoringCase(name, fs[i].name.value) {
        return i;
      }
    }
    return -1;
  }

  /** func_already_in_db */
  method AlreadyInDb(db: TestDb, name: string, fs: seq<ExtFunc>, ghost vs: seq<FuncV>, ghost names: seq<string>)
    returns (found: bool)
    requires AreFuncs(fs, vs) && (forall i :: 0 <= i < |vs| ==> vs[i].name.Some?)
    requires Holds(db, fs, vs, names)
    ensures found <==> exists j :: 0 <= j < |names| && SameIgnoringCase(names[j], name)
  {
    for i := 0 to |db.funcs|
      invariant forall j :: 0 <= j < i ==> !SameIgnoringCase(names[j], name)
    {
      assert fs[FirstMatch(vs, names[i])].Is(vs[FirstMatch(vs, names[i])]);
      assert Answers(vs[FirstMatch(vs, names[i])], names[i]);
      if SameIgnoringCase(name, db.funcs[i].name.value) {
        return true;
      }
    }
    return false;
  }

  /** What a database's function list holds once these names are resolved. */
  ghost predicate Holds(db: TestDb, fs: seq<ExtFunc>, vs: seq<FuncV>, names: seq<string>)
    requires |fs| == |vs|
    reads db
  {
    && |db.funcs| == |names|
    && forall j :: 0 <= j < |names| ==> FirstMatch(vs, names[j]) >= 0 && db.funcs[j] == fs[FirstMatch(vs, names[j])]
  }

  /** parse_db_functions */
  method ParseDbFunctions(db: TestDb, text: Str, fs: seq<ExtFunc>, ghost vs: seq<FuncV>) returns (ok: bool)
    requires AreFuncs(fs, vs) && (forall i :: 0 <= i < |vs| ==> vs[i].name.Some?) && db.funcs == []
    modifies db`funcs
    ensures ok <==> !Empty(text) && Resolvable(vs, Names(text.value, 0))
    ensures ok ==> Holds(db, fs, vs, Names(text.value, 0))
  {
    hide Names, Resolvable, SameIgnoringCase;
    if Empty(text) {
      return false;
    }
    ghost var all := Names(text.value, 0);
    ghost var done := [];
    var found, start, end, p := GetNextToken(text.value, 0);
    NoneResolvable(vs);
    while found
      invariant start <= end <= p <= |text.value|
      invariant all == done + (if found then [text.value[start..end]] + Names(text.value, p) else [])
      invariant Resolvable(vs, done) && Holds(db, fs, vs, done)
      decreases found, |text.value| - p
    {
      var name := text.value[start..end];
      OneMoreResolvable(vs, done, name, Names(text.value, p));
      var i := FuncByName(fs, vs, name);
      if i < 0 {
        return false;
      }
      var duplicate := AlreadyInDb(db, name, fs, vs, done);
      if duplicate {
        return false;
      }
      db.funcs := db.funcs + [fs[i]];
      done := done + [name];
      found, start, end, p := GetNextToken(text.value, p);
    }
    assert all == done;
    return true;
  }

  lemma NoneResolvable(vs: seq<FuncV>)
    ensures Resolvable(vs, [])
  {
  }

  lemma OneMoreResolvable(vs: seq<FuncV>, done: seq<string>, name: string, more: seq<string>)
    requires Resolvable(vs, done)
    ensures Resolvable(vs, done + [name]) <==>
      FirstMatch(vs, name) >= 0 && !exists j :: 0 <= j < |done| && SameIgnoringCase(done[j], name)
    ensures !Resolvable(vs, done + [name]) ==> !Resolvable(vs, done + ([name] + more))
  {
    var now, all := done + [name], done + ([name] + more);
    assert forall j :: 0 <= j < |now| ==> now[j] == all[j];
    assert forall j :: 0 <= j < |done| ==> now[j] == done[j];
    assert now[|done|] == name;
  }

  /** test_config_t */
  class TestConfig {
    var libfbclient: Str
    var server: Str
    var port: Port
    var user: Str
    var password: Str
    var databases: seq<TestDb>
    var funcs: seq<ExtFunc>
    var dropFuncs: bool
    var createOrAlter: bool
    var runReloader: bool

    constructor ()
      ensures databases == [] && funcs == []
    {
      libfbclient, server, port, user, password := None, None, 0, None, None;
      databases, funcs := [], [];
      dropFuncs, createOrAlter, runReloader := false, false, false;
    }

    function General(): GeneralV
      reads this
    {
      GeneralV(libfbclient, server, port, user, password, dropFuncs, createOrAlter, runReloader)
    }

    ghost predicate Is(v: ConfigV)
      reads this, databases, funcs, set i, k | 0 <= i < |funcs| && 0 <= k < |funcs[i].tests| :: funcs[i].tests[k]
    {
      General() == v.general && AreFuncs(funcs, v.funcs) && AreDbs(databases, v.dbs, funcs)
    }

    method CopyGeneral(other: TestConfig)
      requires other != this
      modifies this`libfbclient, this`server, this`port, this`user, this`password,
               this`dropFuncs, this`createOrAlter, this`runReloader
      ensures libfbclient == other.libfbclient && server == other.server && port == other.port
      ensures user == other.user && password == other.password && dropFuncs == other.dropFuncs
      ensures createOrAlter == other.createOrAlter && runReloader == other.runReloader
    {
      libfbclient := other.libfbclient;
      server := other.server;
      port := other.port;
      user := other.user;
      password := other.password;
      dropFuncs := other.dropFuncs;
      createOrAlter := other.createOrAlter;
      runReloader := other.runReloader;
    }

    /** validate_config */
    method Validate(ghost v: ConfigV) returns (ok: bool)
      requires Is(v)
      ensures ok == ValidConfig(v)
    {
      ok := !Empty(server) && port != 0 && !Empty(user) && !Empty(password) && |databases| > 0 && |funcs| > 0;
    }
  }

  // ---- Loading ----

  method LoadTests(vs: seq<TestV>) returns (ts: seq<FuncTest>)
    ensures AreTests(ts, vs) && forall t :: t in ts ==> fresh(t)
    ensures |ts| == |vs| && forall j :: 0 <= j < |ts| ==> ts[j].sql == vs[j].sql && ts[j].result == vs[j].result
  {
    ts := [];
    for j := 0 to |vs|
      invariant AreTests(ts, vs[..j]) && forall t :: t in ts ==> fresh(t)
      invariant forall k :: 0 <= k < j ==> ts[k].sql == vs[k].sql && ts[k].result == vs[k].result
    {
      var t := new FuncTest();
      t.sql := vs[j].sql;
      t.result := vs[j].result;
      ts := ts + [t];
    }
  }

  /** One function category of the file. */
  method LoadFunc(v: FuncV) returns (f: ExtFunc)
    ensures fresh(f) && f.Is(v) && forall t :: t in f.tests ==> fresh(t)
    ensures f.name == v.name && f.paramList == v.paramList && f.returnType == v.returnType
    ensures f.extName == v.extName && f.engine == v.engine && |f.tests| == |v.tests|
    ensures forall j :: 0 <= j < |f.tests| ==>
      f.tests[j].sql == v.tests[j].sql && f.tests[j].result == v.tests[j].result
  {
    hide AreTests;
    var tests := LoadTests(v.tests);
    f := new ExtFunc();
    f.name, f.paramList, f.returnType, f.extName, f.engine := v.name, v.paramList, v.returnType, v.extName, v.engine;
    f.tests := tests;
  }

  /** tc_load_test_config: a configuration is loaded exactly if all categories are
      there and valid, and so is the whole; and it says what the file says. */
  method Load(ini: Ini) returns (config: TestConfig?)
    ensures config != null <==> Loadable(ini)
    ensures config != null ==> fresh(config) && config.Is(LoadedValue(ini))
    ensures config != null ==>
      && config.libfbclient == ini.general.libfbclient && config.server == ini.general.server
      && config.port == ini.general.port && config.user == ini.general.user
      && config.password == ini.general.password && config.dropFuncs == ini.general.dropFuncs
      && config.createOrAlter == ini.general.createOrAlter && config.runReloader == ini.general.runReloader
  {
    var c := new TestConfig();
    c.libfbclient, c.server, c.port := ini.general.libfbclient, ini.general.server, ini.general.port;
    c.user, c.password := ini.general.user, ini.general.password;
    c.dropFuncs, c.createOrAlter := ini.general.dropFuncs, ini.general.createOrAlter;
    c.runReloader := ini.general.runReloader;
    var ok := LoadFuncs(c, ini);
    if !ok {
      return null;
    }
    ok := LoadDbs(c, ini);
    if !ok {
      return null;
    }
    ok := c.Validate(LoadedValue(ini));
    config := if ok then c else null;
  }

  lemma NoneOfFuncs()
    ensures AreFuncs([], [])
  {
  }

  lemma OneMoreOfFuncs(fs: seq<ExtFunc>, vs: seq<FuncV>, f: ExtFunc, v: FuncV)
    requires AreFuncs(fs, vs) && f.Is(v)
    ensures AreFuncs(fs + [f], vs + [v])
  {
  }

  method LoadFuncs(c: TestConfig, ini: Ini) returns (ok: bool)
    requires c.funcs == []
    modifies c`funcs
    ensures ok <==> GoodFuncs(ini)
    ensures ok ==> AreFuncs(c.funcs, FuncsOf(ini))
  {
    hide AreFuncs, ValidFunc;
    var errors: nat := 0;
    ghost var vs: seq<FuncV> := [];
    NoneOfFuncs();
    for i := 0 to |ini.funcs|
      invariant errors == 0 <==> forall k :: 0 <= k < i ==> LoadableFunc(ini.funcs[k])
      invariant AreFuncs(c.funcs, vs)
      invariant errors == 0 ==> |vs| == i && forall k :: 0 <= k < i ==> ini.funcs[k] == Some(vs[k])
    {
      var valid := false;
      if ini.funcs[i].Some? {
        var f := LoadFunc(ini.funcs[i].value);
        valid := f.Validate(ini.funcs[i].value);
        if valid {
          OneMoreOfFuncs(c.funcs, vs, f, ini.funcs[i].value);
          c.funcs := c.funcs + [f];
          vs := vs + [ini.funcs[i].value];
        }
      }
      if !valid {
        errors := errors + 1;
      }
    }
    ok := errors == 0;
    assert ok ==> FuncsOf(ini) == vs;
  }

  /** One database category of the file, with the functions loaded before. */
  method LoadDb(d: Option<DbText>, fs: seq<ExtFunc>, ghost vs: seq<FuncV>) returns (db: TestDb?)
    requires AreFuncs(fs, vs) && forall i :: 0 <= i < |vs| ==> vs[i].name.Some?
    ensures db != null <==> LoadableDb(vs, d)
    ensures db != null ==> fresh(db) && db.Is(DbOf(vs, d), fs)
    ensures db != null ==>
      && db.dbpath == d.value.dbpath && db.repeatCount == d.value.repeatCount && db.testThreads == d.value.testThreads
  {
    hide Resolvable, Names;
    if d.None? {
      return null;
    }
    var rec := new TestDb();
    rec.dbpath, rec.repeatCount, rec.testThreads := d.value.dbpath, d.value.repeatCount, d.value.testThreads;
    var good := ParseDbFunctions(rec, d.value.functions, fs, vs);
    db := if good && !Empty(rec.dbpath) && |rec.funcs| > 0 then rec else null;
  }

  method LoadDbs(c: TestConfig, ini: Ini) returns (ok: bool)
    requires c.databases == [] && GoodFuncs(ini) && AreFuncs(c.funcs, FuncsOf(ini))
    modifies c`databases
    ensures ok <==> GoodDbs(ini)
    ensures ok ==> AreDbs(c.databases, DbsOf(FuncsOf(ini), ini.dbs), c.funcs)
  {
    hide AreFuncs, LoadableDb, DbOf;
    var errors: nat := 0;
    ghost var fs := FuncsOf(ini);
    ghost var vs: seq<DbV> := [];
    for i := 0 to |ini.dbs|
      invariant errors == 0 <==> forall k :: 0 <= k < i ==> LoadableDb(fs, ini.dbs[k])
      invariant AreDbs(c.databases, vs, c.funcs)
      invariant errors == 0 ==>
        |vs| == i && forall k :: 0 <= k < i ==> LoadableDb(fs, ini.dbs[k]) && vs[k] == DbOf(fs, ini.dbs[k])
    {
      var db := LoadDb(ini.dbs[i], c.funcs, fs);
      if db != null {
        c.databases := c.databases + [db];
        vs := vs + [DbOf(fs, ini.dbs[i])];
      } else {
        errors := errors + 1;
      }
    }
    ok := errors == 0;
  }

  // ---- Cloning ----

  method CloneTests(src: seq<FuncTest>, ghost vs: seq<TestV>) returns (ts: seq<FuncTest>)
    requires AreTests(src, vs)
    ensures AreTests(ts, vs) && forall t :: t in ts ==> fresh(t)
    ensures |ts| == |src| && forall j :: 0 <= j < |ts| ==> ts[j].sql == src[j].sql && ts[j].result == src[j].result
  {
    ts := [];
    for j := 0 to |src|
      invariant AreTests(ts, vs[..j]) && forall t :: t in ts ==> fresh(t)
      invariant forall k :: 0 <= k < j ==> ts[k].sql == src[k].sql && ts[k].result == src[k].result
    {
      assert src[j].Is(vs[j]);
      var t := new FuncTest();
      t.sql := src[j].sql;
      t.result := src[j].result;
      ts := ts + [t];
    }
  }

  method CloneFunc(src: ExtFunc, ghost v: FuncV) returns (f: ExtFunc)
    requires src.Is(v)
    ensures fresh(f) && f.Is(v) && forall t :: t in f.tests ==> fresh(t)
    ensures f.name == src.name && f.paramList == src.paramList && f.returnType == src.returnType
    ensures f.extName == src.extName && f.engine == src.engine && |f.tests| == |src.tests|
    ensures forall j :: 0 <= j < |f.tests| ==>
      f.tests[j].sql == src.tests[j].sql && f.tests[j].result == src.tests[j].result
  {
    hide AreTests;
    f := new ExtFunc();
    f.name := src.name;
    f.paramList := src.paramList;
    f.returnType := src.returnType;
    f.extName := src.extName;
    f.engine := src.engine;
    f.tests := CloneTests(src.tests, v.tests);
  }

  /** tc_clone: the clone shares no object with the original and says what Cloned
      says of it; there is one exactly if the original passes validate_config. */
  method Clone(config: TestConfig, ghost v: ConfigV) returns (r: TestConfig?)
    requires config.Is(v) && WellFormed(v)
    ensures r != null <==> ValidConfig(v)
    ensures r != null ==>
      && fresh(r) && r.Is(Cloned(v))
      && r.libfbclient == config.libfbclient && r.server == config.server && r.port == config.port
      && r.user == config.user && r.password == config.password && r.dropFuncs == config.dropFuncs
      && r.createOrAlter == config.createOrAlter && r.runReloader == config.runReloader
      && (forall db :: db in r.databases ==> fresh(db))
      && (forall f :: f in r.funcs ==> fresh(f) && forall t :: t in f.tests ==> fresh(t))
  {
    hide AreFuncs, AreDbs;
    var fs := CloneFuncs(config.funcs, v.funcs);
    var dbs := CloneDbs(config.databases, config.funcs, fs, v);
    var c := Assembled(config, fs, dbs);
    var ok := c.Validate(Cloned(v));
    r := if ok then c else null;
  }

  method Assembled(config: TestConfig, fs: seq<ExtFunc>, dbs: seq<TestDb>) returns (c: TestConfig)
    ensures fresh(c) && c.General() == config.General() && c.funcs == fs && c.databases == dbs
    ensures c.libfbclient == config.libfbclient && c.server == config.server && c.port == config.port
    ensures c.user == config.user && c.password == config.password && c.dropFuncs == config.dropFuncs
    ensures c.createOrAlter == config.createOrAlter && c.runReloader == config.runReloader
  {
    c := new TestConfig();
    c.CopyGeneral(config);
    c.funcs, c.databases := fs, dbs;
  }

  method CloneFuncs(src: seq<ExtFunc>, ghost vs: seq<FuncV>) returns (fs: seq<ExtFunc>)
    requires AreFuncs(src, vs)
    ensures AreFuncs(fs, vs)
    ensures forall f :: f in fs ==> fresh(f) && forall t :: t in f.tests ==> fresh(t)
  {
    fs := [];
    for i := 0 to |src|
      invariant AreFuncs(fs, vs[..i])
      invariant forall f :: f in fs ==> fresh(f) && forall t :: t in f.tests ==> fresh(t)
    {
      assert src[i].Is(vs[i]);
      var f := CloneFunc(src[i], vs[i]);
      fs := fs + [f];
    }
    assert vs[..|vs|] == vs;
  }

  method CloneDbs(src: seq<TestDb>, ghost fs: seq<ExtFunc>, newFs: seq<ExtFunc>, ghost v: ConfigV)
    returns (dbs: seq<TestDb>)
    requires WellFormed(v) && AreFuncs(fs, v.funcs) && AreFuncs(newFs, v.funcs) && AreDbs(src, v.dbs, fs)
    ensures AreDbs(dbs, Cloned(v).dbs, newFs) && forall db :: db in dbs ==> fresh(db)
  {
    hide AreFuncs, MovedDb;
    dbs := [];
    for i := 0 to |src|
      invariant AreDbs(dbs, Cloned(v).dbs[..i], newFs)
      invariant forall db :: db in dbs ==> fresh(db)
    {
      assert src[i].Is(v.dbs[i], fs);
      var db := CloneDb(src[i], v.dbs[i], fs, newFs, v.funcs);
      dbs := dbs + [db];
    }
  }

  method CloneDb(src: TestDb, ghost v: DbV, ghost fs: seq<ExtFunc>, newFs: seq<ExtFunc>, ghost vs: seq<FuncV>)
    returns (db: TestDb)
    requires AreFuncs(fs, vs) && AreFuncs(newFs, vs) && src.Is(v, fs)
    requires forall i :: 0 <= i < |vs| ==> vs[i].name.Some?
    ensures fresh(db) && db.Is(MovedDb(vs, v), newFs)
    ensures db.dbpath == src.dbpath && db.repeatCount == src.repeatCount && db.testThreads == src.testThreads
    ensures |db.funcs| == |src.funcs|
  {
    hide Moved;
    var funcs := CloneReferences(src.funcs, v.funcs, fs, newFs, vs);
    db := new TestDb();
    db.dbpath := src.dbpath;
    db.repeatCount := src.repeatCount;
    db.testThreads := src.testThreads;
    db.funcs := funcs;
  }

  /** The function list of a database: each function is looked up by its name among
      those of the clone, and the branch for a name that is not there is dead. */
  method CloneReferences(src: seq<ExtFunc>, ghost at: seq<nat>, ghost fs: seq<ExtFunc>, newFs: seq<ExtFunc>,
                         ghost vs: seq<FuncV>)
    returns (funcs: seq<ExtFunc>)
    requires AreFuncs(fs, vs) && AreFuncs(newFs, vs) && forall i :: 0 <= i < |vs| ==> vs[i].name.Some?
    requires |src| == |at| && forall j :: 0 <= j < |src| ==> at[j] < |fs| && src[j] == fs[at[j]]
    ensures |funcs| == |src| && forall j :: 0 <= j < |src| ==> funcs[j] == newFs[Moved(vs, at[j])]
  {
    funcs := [];
    for j := 0 to |src|
      invariant |funcs| == j && forall k :: 0 <= k < j ==> funcs[k] == newFs[Moved(vs, at[k])]
    {
      assert fs[at[j]].Is(vs[at[j]]);
      var found := FuncByName(newFs, vs, src[j].name.value);
      assert found == Moved(vs, at[j]);
      if found < 0 {
        assert false;
      } else {
        funcs := funcs + [newFs[found]];
      }
    }
  }

  // ---- Comparing ----

  method FeedTests(f: ExtFunc, ghost v: FuncV, fed: seq<nat>) returns (bytes: seq<nat>)
    requires f.Is(v)
    ensures bytes == FedTests(fed, v.tests, |v.tests|)
  {
    bytes := fed;
    for j := 0 to |f.tests|
      invariant bytes == FedTests(fed, v.tests, j)
    {
      assert f.tests[j].Is(v.tests[j]);
      bytes := bytes + StrBytes(f.tests[j].sql);
      bytes := bytes + StrBytes(f.tests[j].result);
    }
  }

  method FeedFunc(f: ExtFunc, ghost v: FuncV, fed: seq<nat>) returns (bytes: seq<nat>)
    requires f.Is(v)
    ensures bytes == FedFunc(fed, v)
  {
    hide FedTests;
    bytes := fed + StrBytes(f.name);
    bytes := bytes + StrBytes(f.paramList);
    bytes := bytes + StrBytes(f.returnType);
    bytes := bytes + StrBytes(f.extName);
    bytes := bytes + StrBytes(f.engine);
    bytes := FeedTests(f, v, bytes);
  }

  method FeedFuncs(fs: seq<ExtFunc>, ghost vs: seq<FuncV>, fed: seq<nat>) returns (bytes: seq<nat>)
    requires AreFuncs(fs, vs)
    ensures bytes == FedFuncs(fed, vs, |vs|)
  {
    hide FedFunc;
    bytes := fed;
    for i := 0 to |fs|
      invariant bytes == FedFuncs(fed, vs, i)
    {
      assert fs[i].Is(vs[i]);
      bytes := FeedFunc(fs[i], vs[i], bytes);
    }
  }

  method FeedDb(db: TestDb, ghost v: DbV, fs: seq<ExtFunc>, ghost vs: seq<FuncV>, fed: seq<nat>)
    returns (bytes: seq<nat>)
    requires AreFuncs(fs, vs) && db.Is(v, fs)
    ensures bytes == FedDb(fed, vs, v)
  {
    hide Bytes;
    bytes := fed + StrBytes(db.dbpath);
    for j := 0 to |db.funcs|
      invariant bytes == FedNames(fed + StrBytes(v.dbpath), vs, v.funcs, j)
    {
      assert fs[v.funcs[j]].Is(vs[v.funcs[j]]);
      bytes := bytes + StrBytes(db.funcs[j].name);
    }
    bytes := bytes + Bytes(db.repeatCount, 4);
    bytes := bytes + Bytes(db.testThreads, 4);
  }

  /** What calc_config_hash feeds to its digest, in its order. */
  method Feed(config: TestConfig, ghost v: ConfigV) returns (bytes: seq<nat>)
    requires config.Is(v) && WellFormed(v)
    ensures bytes == ConfigBytes(v)
  {
    hide FedDb, FedFuncs, Bytes, StrBytes;
    bytes := StrBytes(config.libfbclient);
    bytes := bytes + StrBytes(config.server);
    bytes := bytes + Bytes(config.port, 2);
    bytes := bytes + StrBytes(config.user);
    bytes := bytes + StrBytes(config.password);
    for i := 0 to |config.databases|
      invariant bytes == FedDbs(GeneralBytes(v.general), v.funcs, v.dbs, i)
    {
      assert config.databases[i].Is(v.dbs[i], config.funcs);
      bytes := FeedDb(config.databases[i], v.dbs[i], config.funcs, v.funcs, bytes);
    }
    bytes := FeedFuncs(config.funcs, v.funcs, bytes);
    bytes := bytes + BoolByte(config.dropFuncs);
    bytes := bytes + BoolByte(config.createOrAlter);
    bytes := bytes + BoolByte(config.runReloader);
  }

  /** tc_compare_configs, for any digest. */
  method CompareConfigs(c1: TestConfig, ghost v1: ConfigV, c2: TestConfig, ghost v2: ConfigV,
                        digest: seq<nat> -> string)
    returns (same: bool)
    requires c1.Is(v1) && WellFormed(v1) && c2.Is(v2) && WellFormed(v2)
    ensures same == SameIgnoringCase(digest(ConfigBytes(v1)), digest(ConfigBytes(v2)))
    ensures ConfigBytes(v1) == ConfigBytes(v2) ==> same
  {
    var b1 := Feed(c1, v1);
    var b2 := Feed(c2, v2);
    same := SameIgnoringCase(digest(b1), digest(b2));
  }

  lemma LoadedPasses(ini: Ini)
    requires Loadable(ini)
    ensures GoodFuncs(ini) && GoodDbs(ini) && WellFormed(LoadedValue(ini)) && ValidConfig(LoadedValue(ini))
    ensures Cloned(LoadedValue(ini)) == LoadedValue(ini)
  {
    LoadedRefersToFirst(ini);
  }

  /** tm_clone_config, on a configuration that was loaded: there is a clone, it is
      wholly new, it says the same, and the check of the digests never fails. */
  method CloneForThread(config: TestConfig, ghost ini: Ini, digest: seq<nat> -> string)
    returns (r: TestConfig?, failed: bool)
    requires Loadable(ini) && config.Is(LoadedValue(ini))
    ensures !failed && r != null && r.Is(LoadedValue(ini)) && fresh(r)
    ensures forall db :: db in r.databases ==> fresh(db)
    ensures forall f :: f in r.funcs ==> fresh(f) && forall t :: t in f.tests ==> fresh(t)
  {
    hide AreFuncs, AreDbs, ConfigBytes, SameIgnoringCase, Loadable, LoadedValue, RefersToFirst, Cloned;
    LoadedPasses(ini);
    r := Clone(config, LoadedValue(ini));
    var same := CompareConfigs(config, LoadedValue(ini), r, LoadedValue(ini), digest);
    failed := !same;
  }
}
