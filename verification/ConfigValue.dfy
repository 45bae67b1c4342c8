/** What a test configuration says, apart from the objects that hold it: a database
    refers to its functions by their positions in the configuration's list. */
module ConfigValue {
  import opened Text
  import opened FunctionList

  type Str = Option<string>

  predicate Empty(s: Str) {
    s.None? || s.value == ""
  }

  /** uint16_t */
  type Port = n: nat | n < 0x1_0000

  datatype TestV = TestV(sql: Str, result: Str)
  datatype FuncV = FuncV(name: Str, paramList: Str, returnType: Str, extName: Str, engine: Str, tests: seq<TestV>)
  datatype DbV = DbV(dbpath: Str, funcs: seq<nat>, repeatCount: int, testThreads: int)
  datatype GeneralV = GeneralV(libfbclient: Str, server: Str, port: Port, user: Str, password: Str,
                               dropFuncs: bool, createOrAlter: bool, runReloader: bool)
  datatype ConfigV = ConfigV(general: GeneralV, funcs: seq<FuncV>, dbs: seq<DbV>)

  // ---- Validation ----

  predicate ValidTest(t: TestV) {
    !Empty(t.sql) && !Empty(t.result)
  }

  predicate ValidFunc(f: FuncV) {
    && !Empty(f.name) && !Empty(f.paramList) && !Empty(f.returnType) && !Empty(f.extName) && !Empty(f.engine)
    && forall i :: 0 <= i < |f.tests| ==> ValidTest(f.tests[i])
  }

  /** validate_config */
  predicate ValidConfig(c: ConfigV) {
    && !Empty(c.general.server) && c.general.port != 0 && !Empty(c.general.user) && !Empty(c.general.password)
    && |c.dbs| > 0 && |c.funcs| > 0
  }

  // ---- Functions by name ----

  predicate Answers(f: FuncV, name: string) {
    f.name.Some? && SameIgnoringCase(name, f.name.value)
  }

  /** The first function that answers to a name, or -1. */
  function FirstMatch(fs: seq<FuncV>, name: string): (i: int)
    ensures -1 <= i < |fs|
    ensures i >= 0 ==> Answers(fs[i], name) && forall k :: 0 <= k < i ==> !Answers(fs[k], name)
    ensures i < 0 ==> forall k :: 0 <= k < |fs| ==> !Answers(fs[k], name)
  {
    FirstFrom(fs, name, 0)
  }

  function FirstFrom(fs: seq<FuncV>, name: string, i: nat): (j: int)
    requires i <= |fs| && forall k :: 0 <= k < i ==> !Answers(fs[k], name)
    ensures -1 <= j < |fs|
    ensures j >= 0 ==> Answers(fs[j], name) && forall k :: 0 <= k < j ==> !Answers(fs[k], name)
    ensures j < 0 ==> forall k :: 0 <= k < |fs| ==> !Answers(fs[k], name)
    decreases |fs| - i
  {
    if i == |fs| then -1 else if Answers(fs[i], name) then i else FirstFrom(fs, name, i + 1)
  }

  /** Every name of a database's list is known, and no function is listed twice. */
  predicate Resolvable(fs: seq<FuncV>, names: seq<string>) {
    && (forall j :: 0 <= j < |names| ==> FirstMatch(fs, names[j]) >= 0)
    && (forall i, j :: 0 <= i < j < |names| ==> !SameIgnoringCase(names[i], names[j]))
  }

  function Resolved(fs: seq<FuncV>, names: seq<string>): (at: seq<nat>)
    requires forall j :: 0 <= j < |names| ==> FirstMatch(fs, names[j]) >= 0
    ensures |at| == |names| && forall j :: 0 <= j < |at| ==> at[j] == FirstMatch(fs, names[j])
  {
    seq(|names|, j requires 0 <= j < |names| => FirstMatch(fs, names[j]))
  }

  /** A name that another name stands for ignoring case has the same first match. */
  lemma SameMatch(fs: seq<FuncV>, a: string, b: string)
    requires SameIgnoringCase(a, b)
    ensures FirstMatch(fs, a) == FirstMatch(fs, b)
  {
    var i, j := FirstMatch(fs, a), FirstMatch(fs, b);
    assert forall k :: 0 <= k < |fs| ==> Answers(fs[k], a) == Answers(fs[k], b);
    if i >= 0 {
      assert Answers(fs[i], b);
    }
    if j >= 0 {
      assert Answers(fs[j], a);
    }
  }

  // ---- The text of a configuration ----

  datatype DbText = DbText(dbpath: Str, functions: Str, repeatCount: int, testThreads: int)

  /** The categories of the file that the counts ask for, None where one is missing. */
  datatype Ini = Ini(general: GeneralV, funcs: seq<Option<FuncV>>, dbs: seq<Option<DbText>>)

  function ListedNames(d: DbText): seq<string> {
    if Empty(d.functions) then [] else Names(d.functions.value, 0)
  }

  predicate LoadableFunc(f: Option<FuncV>) {
    f.Some? && ValidFunc(f.value)
  }

  predicate LoadableDb(fs: seq<FuncV>, d: Option<DbText>) {
    d.Some? && !Empty(d.value.dbpath) && ListedNames(d.value) != [] && Resolvable(fs, ListedNames(d.value))
  }

  function FuncsOf(ini: Ini): (fs: seq<FuncV>)
    requires forall i :: 0 <= i < |ini.funcs| ==> ini.funcs[i].Some?
    ensures |fs| == |ini.funcs| && forall i :: 0 <= i < |fs| ==> fs[i] == ini.funcs[i].value
  {
    seq(|ini.funcs|, i requires 0 <= i < |ini.funcs| => ini.funcs[i].value)
  }

  function DbOf(fs: seq<FuncV>, d: Option<DbText>): DbV
    requires LoadableDb(fs, d)
  {
    DbV(d.value.dbpath, Resolved(fs, ListedNames(d.value)), d.value.repeatCount, d.value.testThreads)
  }

  function DbsOf(fs: seq<FuncV>, ds: seq<Option<DbText>>): (r: seq<DbV>)
    requires forall i :: 0 <= i < |ds| ==> LoadableDb(fs, ds[i])
    ensures |r| == |ds| && forall i :: 0 <= i < |ds| ==> r[i] == DbOf(fs, ds[i])
  {
    seq(|ds|, i requires 0 <= i < |ds| => DbOf(fs, ds[i]))
  }

  predicate GoodFuncs(ini: Ini) {
    forall i :: 0 <= i < |ini.funcs| ==> LoadableFunc(ini.funcs[i])
  }

  predicate GoodDbs(ini: Ini)
    requires GoodFuncs(ini)
  {
    forall i :: 0 <= i < |ini.dbs| ==> LoadableDb(FuncsOf(ini), ini.dbs[i])
  }

  function LoadedValue(ini: Ini): ConfigV
    requires GoodFuncs(ini) && GoodDbs(ini)
  {
    ConfigV(ini.general, FuncsOf(ini), DbsOf(FuncsOf(ini), ini.dbs))
  }

  predicate Loadable(ini: Ini) {
    GoodFuncs(ini) && GoodDbs(ini) && ValidConfig(LoadedValue(ini))
  }

  /** A string that is there and not empty. */
  predicate Filled(s: Str) {
    s != None && |s.value| > 0
  }

  /** A function is loaded from a category that fills in all its fields and tests. */
  lemma LoadableFuncIff(f: Option<FuncV>)
    ensures LoadableFunc(f) <==>
      && f != None
      && Filled(f.value.name) && Filled(f.value.paramList) && Filled(f.value.returnType)
      && Filled(f.value.extName) && Filled(f.value.engine)
      && forall j :: 0 <= j < |f.value.tests| ==> Filled(f.value.tests[j].sql) && Filled(f.value.tests[j].result)
  {
  }

  /** A name is known if it is, ignoring case, that of some function. */
  lemma KnownIff(fs: seq<FuncV>, name: string)
    ensures Known(fs, name) <==>
      exists k: nat :: k < |fs| && fs[k].name != None && SameIgnoringCase(name, fs[k].name.value)
  {
    hide SameIgnoringCase;
    if Known(fs, name) {
      var k: nat :| k < |fs| && Answers(fs[k], name);
      assert SameIgnoringCase(name, fs[k].name.value);
    }
    if k: nat :| k < |fs| && fs[k].name != None && SameIgnoringCase(name, fs[k].name.value) {
      assert Answers(fs[k], name);
    }
  }

  lemma MatchedIff(fs: seq<FuncV>, name: string)
    ensures FirstMatch(fs, name) >= 0 <==> Known(fs, name)
  {
    hide Answers;
    if FirstMatch(fs, name) >= 0 {
      assert Answers(fs[FirstMatch(fs, name)], name);
    }
  }

  /** A database is loaded from a category with a path and a list of one or more
      names, each that of some function, and no two the same ignoring case. */
  lemma LoadableDbIff(fs: seq<FuncV>, d: Option<DbText>)
    ensures LoadableDb(fs, d) <==>
      && d != None && Filled(d.value.dbpath) && Filled(d.value.functions)
      && var names := Names(d.value.functions.value, 0);
      && |names| > 0
      && (forall j :: 0 <= j < |names| ==> Known(fs, names[j]))
      && (forall i, j :: 0 <= i < j < |names| ==> !SameIgnoringCase(names[i], names[j]))
  {
    hide SameIgnoringCase, Names, Answers, FirstMatch, Known;
    if d != None && Filled(d.value.functions) {
      var names := Names(d.value.functions.value, 0);
      assert ListedNames(d.value) == names;
      assert names == [] <==> |names| == 0;
      ResolvableIff(fs, names);
      hide Resolvable;
    }
  }

  ghost predicate Known(fs: seq<FuncV>, name: string) {
    exists k: nat :: k < |fs| && Answers(fs[k], name)
  }

  lemma ResolvableIff(fs: seq<FuncV>, names: seq<string>)
    ensures Resolvable(fs, names) <==>
      && (forall j :: 0 <= j < |names| ==> Known(fs, names[j]))
      && (forall i, j :: 0 <= i < j < |names| ==> !SameIgnoringCase(names[i], names[j]))
  {
    forall j | 0 <= j < |names| ensures FirstMatch(fs, names[j]) >= 0 <==> Known(fs, names[j]) {
      MatchedIff(fs, names[j]);
    }
  }

  /** A configuration is loaded from a file all of whose categories can be loaded, and
      which gives a server, a port, a user, a password, and at least one database and
      one function. */
  lemma LoadableIff(ini: Ini)
    ensures Loadable(ini) <==>
      && (forall i :: 0 <= i < |ini.funcs| ==> LoadableFunc(ini.funcs[i]))
      && (forall i :: 0 <= i < |ini.dbs| ==> LoadableDb(FuncsOf(ini), ini.dbs[i]))
      && Filled(ini.general.server) && ini.general.port > 0
      && Filled(ini.general.user) && Filled(ini.general.password)
      && |ini.dbs| > 0 && |ini.funcs| > 0
  {
    hide LoadableDb, DbOf, ValidFunc;
  }

  /** What is loaded, field by field. A database refers, name by name, to the first
      function of that name. */
  lemma LoadedFields(ini: Ini)
    requires Loadable(ini)
    ensures var c := LoadedValue(ini);
      && c.general == ini.general && |c.funcs| == |ini.funcs| && |c.dbs| == |ini.dbs|
      && (forall i :: 0 <= i < |c.funcs| ==> ini.funcs[i] == Some(c.funcs[i]))
      && (forall i :: 0 <= i < |c.dbs| ==> ini.dbs[i] != None && LoadedDb(c.funcs, c.dbs[i], ini.dbs[i].value))
  {
    hide Names, SameIgnoringCase;
    var c := LoadedValue(ini);
    forall i | 0 <= i < |c.dbs| ensures ini.dbs[i] != None && LoadedDb(c.funcs, c.dbs[i], ini.dbs[i].value) {
      assert LoadableDb(FuncsOf(ini), ini.dbs[i]);
      DbFields(FuncsOf(ini), ini.dbs[i]);
    }
  }

  ghost predicate LoadedDb(fs: seq<FuncV>, db: DbV, d: DbText) {
    && db.dbpath == d.dbpath && db.repeatCount == d.repeatCount && db.testThreads == d.testThreads
    && d.functions != None
    && var names := Names(d.functions.value, 0);
    && |db.funcs| == |names|
    && forall j :: 0 <= j < |names| ==>
         && db.funcs[j] < |fs| && Answers(fs[db.funcs[j]], names[j])
         && forall k :: 0 <= k < db.funcs[j] ==> !Answers(fs[k], names[j])
  }

  /** The fields of a database from those of its category. */
  lemma DbFields(fs: seq<FuncV>, d: Option<DbText>)
    requires LoadableDb(fs, d)
    ensures var db := DbOf(fs, d);
      && db.dbpath == d.value.dbpath && db.repeatCount == d.value.repeatCount && db.testThreads == d.value.testThreads
      && LoadedDb(fs, db, d.value)
  {
    hide Names, SameIgnoringCase, Answers;
  }

  // ---- What cloning makes of a value ----

  /** A database refers to functions of the list. */
  predicate InRange(fs: seq<FuncV>, d: DbV) {
    forall j :: 0 <= j < |d.funcs| ==> d.funcs[j] < |fs|
  }

  predicate AllInRange(fs: seq<FuncV>, ds: seq<DbV>) {
    forall i :: 0 <= i < |ds| ==> InRange(fs, ds[i])
  }

  /** Databases refer to functions of the configuration, and these have names. */
  predicate WellFormed(c: ConfigV) {
    && (forall i :: 0 <= i < |c.funcs| ==> c.funcs[i].name.Some?)
    && AllInRange(c.funcs, c.dbs)
  }

  /** Where cloning moves a reference: to the first function of the same name. */
  function Moved(fs: seq<FuncV>, i: nat): (j: nat)
    requires i < |fs| && fs[i].name.Some?
    ensures j <= i && Answers(fs[j], fs[i].name.value)
  {
    assert Answers(fs[i], fs[i].name.value);
    FirstMatch(fs, fs[i].name.value)
  }

  function MovedDb(fs: seq<FuncV>, d: DbV): DbV
    requires forall j :: 0 <= j < |d.funcs| ==> d.funcs[j] < |fs| && fs[d.funcs[j]].name.Some?
  {
    d.(funcs := seq(|d.funcs|, j requires 0 <= j < |d.funcs| => Moved(fs, d.funcs[j])))
  }

  function Cloned(c: ConfigV): (r: ConfigV)
    requires WellFormed(c)
    ensures r.general == c.general && r.funcs == c.funcs && |r.dbs| == |c.dbs|
    ensures forall i :: 0 <= i < |c.dbs| ==> r.dbs[i] == MovedDb(c.funcs, c.dbs[i])
  {
    c.(dbs := seq(|c.dbs|, i requires 0 <= i < |c.dbs| => MovedDb(c.funcs, c.dbs[i])))
  }

  /** Every reference is to the first function of its name. */
  predicate RefersToFirst(c: ConfigV)
    requires WellFormed(c)
  {
    forall i, j :: 0 <= i < |c.dbs| && 0 <= j < |c.dbs[i].funcs| ==>
      Moved(c.funcs, c.dbs[i].funcs[j]) == c.dbs[i].funcs[j]
  }

  /** A configuration is cloned field for field exactly if every reference is to the
      first function of its name. */
  lemma ClonedExactlyIff(c: ConfigV)
    requires WellFormed(c)
    ensures Cloned(c) == c <==> RefersToFirst(c)
  {
    if RefersToFirst(c) {
      assert forall i :: 0 <= i < |c.dbs| ==> MovedDb(c.funcs, c.dbs[i]).funcs == c.dbs[i].funcs;
      assert Cloned(c).dbs == c.dbs;
    }
    if Cloned(c) == c {
      forall i, j | 0 <= i < |c.dbs| && 0 <= j < |c.dbs[i].funcs|
        ensures Moved(c.funcs, c.dbs[i].funcs[j]) == c.dbs[i].funcs[j] {
        assert MovedDb(c.funcs, c.dbs[i]).funcs[j] == Cloned(c).dbs[i].funcs[j];
      }
    }
  }

  /** What is loaded has that property, even if two functions of the list have names
      that differ only in case. */
  lemma LoadedRefersToFirst(ini: Ini)
    requires Loadable(ini)
    ensures WellFormed(LoadedValue(ini)) && RefersToFirst(LoadedValue(ini))
    ensures Cloned(LoadedValue(ini)) == LoadedValue(ini)
  {
    var c := LoadedValue(ini);
    var fs := FuncsOf(ini);
    forall i, j | 0 <= i < |c.dbs| && 0 <= j < |c.dbs[i].funcs|
      ensures c.dbs[i].funcs[j] < |fs| && fs[c.dbs[i].funcs[j]].name.Some?
      ensures FirstMatch(fs, fs[c.dbs[i].funcs[j]].name.value) == c.dbs[i].funcs[j] {
      assert LoadableDb(fs, ini.dbs[i]);
      var name := ListedNames(ini.dbs[i].value)[j];
      assert FirstMatch(fs, name) >= 0;
      SameMatch(fs, name, fs[FirstMatch(fs, name)].name.value);
    }
    ClonedExactlyIff(c);
  }

  /** Not every value has it: here the second function is referred to, and the
      clone refers to the first. */
  lemma CloneMayMove()
    ensures exists c :: WellFormed(c) && ValidConfig(c) && Cloned(c) != c
  {
    var f, g := FuncV(Some("F"), None, None, None, None, []), FuncV(Some("f"), None, None, None, None, []);
    var c := ConfigV(GeneralV(None, Some("s"), 1, Some("u"), Some("p"), false, false, false), [f, g],
                     [DbV(Some("d"), [1], 1, 1)]);
    assert Lower("f") == "f" && Lower("F") == "f";
    assert Answers(f, "f");
    assert Moved(c.funcs, 1) == 0;
    ClonedExactlyIff(c);
    assert c.dbs[0].funcs[0] == 1;
  }

  // ---- The digest ----

  /** The bytes of a little-endian integer of the given width. */
  function Bytes(v: int, width: nat): (bs: seq<nat>)
    ensures |bs| == width
    decreases width
  {
    if width == 0 then [] else [v % 256] + Bytes(v / 256, width - 1)
  }

  /** md5_str */
  function StrBytes(s: Str): seq<nat> {
    if Empty(s) then [] else seq(|s.value|, i requires 0 <= i < |s.value| => s.value[i] as nat)
  }

  function BoolByte(b: bool): seq<nat> {
    [if b then 1 else 0]
  }

  // Each of these is what has been fed once the given part is fed, too.

  function FedTests(fed: seq<nat>, ts: seq<TestV>, n: nat): seq<nat>
    requires n <= |ts|
  {
    if n == 0 then fed else FedTests(fed, ts, n - 1) + StrBytes(ts[n - 1].sql) + StrBytes(ts[n - 1].result)
  }

  function FedFunc(fed: seq<nat>, f: FuncV): seq<nat> {
    FedTests(fed + StrBytes(f.name) + StrBytes(f.paramList) + StrBytes(f.returnType) + StrBytes(f.extName)
             + StrBytes(f.engine), f.tests, |f.tests|)
  }

  function FedFuncs(fed: seq<nat>, fs: seq<FuncV>, n: nat): seq<nat>
    requires n <= |fs|
  {
    if n == 0 then fed else FedFunc(FedFuncs(fed, fs, n - 1), fs[n - 1])
  }

  function FedNames(fed: seq<nat>, fs: seq<FuncV>, at: seq<nat>, n: nat): seq<nat>
    requires n <= |at| && forall j :: 0 <= j < |at| ==> at[j] < |fs|
  {
    if n == 0 then fed else FedNames(fed, fs, at, n - 1) + StrBytes(fs[at[n - 1]].name)
  }

  function FedDb(fed: seq<nat>, fs: seq<FuncV>, d: DbV): seq<nat>
    requires InRange(fs, d)
  {
    FedNames(fed + StrBytes(d.dbpath), fs, d.funcs, |d.funcs|) + Bytes(d.repeatCount, 4) + Bytes(d.testThreads, 4)
  }

  function FedDbs(fed: seq<nat>, fs: seq<FuncV>, ds: seq<DbV>, n: nat): seq<nat>
    requires n <= |ds| && AllInRange(fs, ds)
  {
    if n == 0 then fed else FedDb(FedDbs(fed, fs, ds, n - 1), fs, ds[n - 1])
  }

  function GeneralBytes(g: GeneralV): seq<nat> {
    StrBytes(g.libfbclient) + StrBytes(g.server) + Bytes(g.port, 2) + StrBytes(g.user) + StrBytes(g.password)
  }

  /** All that calc_config_hash feeds to its digest. */
  function ConfigBytes(c: ConfigV): seq<nat>
    requires WellFormed(c)
  {
    FedFuncs(FedDbs(GeneralBytes(c.general), c.funcs, c.dbs, |c.dbs|), c.funcs, |c.funcs|)
    + BoolByte(c.general.dropFuncs) + BoolByte(c.general.createOrAlter) + BoolByte(c.general.runReloader)
  }
}
