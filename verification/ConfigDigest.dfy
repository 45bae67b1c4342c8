/** What the comparison of two configurations can tell apart. The digest is fed
    strings without their lengths and lists without their sizes; so it notices every
    difference in the fed fields between configurations of the same shape, and may
    miss one otherwise. */
module ConfigDigest {
  import opened Text
  import opened ConfigValue

  /** A missing string is fed like an empty one. */
  function Content(s: Str): string {
    if s.None? then "" else s.value
  }

  predicate SameLength(a: Str, b: Str) {
    |Content(a)| == |Content(b)|
  }

  predicate SameContent(a: Str, b: Str) {
    Content(a) == Content(b)
  }

  /** Equal as C ints. */
  predicate SameInt(v: int, w: int) {
    v % 0x1_0000_0000 == w % 0x1_0000_0000
  }

  // ---- Equal shape: corresponding strings are equally long, lists have equal sizes ----

  predicate SameShapeTest(t: TestV, u: TestV) {
    SameLength(t.sql, u.sql) && SameLength(t.result, u.result)
  }

  predicate SameShapeFunc(f: FuncV, g: FuncV) {
    && SameLength(f.name, g.name) && SameLength(f.paramList, g.paramList) && SameLength(f.returnType, g.returnType)
    && SameLength(f.extName, g.extName) && SameLength(f.engine, g.engine)
    && |f.tests| == |g.tests| && forall i :: 0 <= i < |f.tests| ==> SameShapeTest(f.tests[i], g.tests[i])
  }

  predicate SameShapeDb(fs: seq<FuncV>, d: DbV, gs: seq<FuncV>, e: DbV)
    requires InRange(fs, d) && InRange(gs, e)
  {
    && SameLength(d.dbpath, e.dbpath) && |d.funcs| == |e.funcs|
    && forall j :: 0 <= j < |d.funcs| ==> SameLength(fs[d.funcs[j]].name, gs[e.funcs[j]].name)
  }

  predicate SameShapeGeneral(g: GeneralV, h: GeneralV) {
    && SameLength(g.libfbclient, h.libfbclient) && SameLength(g.server, h.server)
    && SameLength(g.user, h.user) && SameLength(g.password, h.password)
  }

  predicate SameShape(a: ConfigV, b: ConfigV)
    requires WellFormed(a) && WellFormed(b)
  {
    && SameShapeGeneral(a.general, b.general)
    && |a.funcs| == |b.funcs| && (forall i :: 0 <= i < |a.funcs| ==> SameShapeFunc(a.funcs[i], b.funcs[i]))
    && |a.dbs| == |b.dbs|
    && SameShapeDbs(a.funcs, a.dbs, b.funcs, b.dbs, |a.dbs|)
  }

  // ---- Equal contents: every fed field agrees ----

  predicate SameTest(t: TestV, u: TestV) {
    SameContent(t.sql, u.sql) && SameContent(t.result, u.result)
  }

  predicate SameFunc(f: FuncV, g: FuncV) {
    && SameContent(f.name, g.name) && SameContent(f.paramList, g.paramList)
    && SameContent(f.returnType, g.returnType) && SameContent(f.extName, g.extName) && SameContent(f.engine, g.engine)
    && |f.tests| == |g.tests| && forall i :: 0 <= i < |f.tests| ==> SameTest(f.tests[i], g.tests[i])
  }

  /** Of the functions of a database their names are fed. */
  predicate SameDb(fs: seq<FuncV>, d: DbV, gs: seq<FuncV>, e: DbV)
    requires InRange(fs, d) && InRange(gs, e)
  {
    && SameContent(d.dbpath, e.dbpath) && |d.funcs| == |e.funcs|
    && (forall j :: 0 <= j < |d.funcs| ==> SameContent(fs[d.funcs[j]].name, gs[e.funcs[j]].name))
    && SameInt(d.repeatCount, e.repeatCount) && SameInt(d.testThreads, e.testThreads)
  }

  predicate SameGeneral(g: GeneralV, h: GeneralV) {
    && SameContent(g.libfbclient, h.libfbclient) && SameContent(g.server, h.server) && g.port == h.port
    && SameContent(g.user, h.user) && SameContent(g.password, h.password)
  }

  predicate SameFlags(g: GeneralV, h: GeneralV) {
    g.dropFuncs == h.dropFuncs && g.createOrAlter == h.createOrAlter && g.runReloader == h.runReloader
  }

  predicate SameFields(a: ConfigV, b: ConfigV)
    requires WellFormed(a) && WellFormed(b)
  {
    && SameGeneral(a.general, b.general) && SameFlags(a.general, b.general)
    && |a.funcs| == |b.funcs| && SameFuncs(a.funcs, b.funcs, |a.funcs|)
    && |a.dbs| == |b.dbs| && SameDbs(a.funcs, a.dbs, b.funcs, b.dbs, |a.dbs|)
  }

  // ---- One more thing fed ----

  /** After pieces of equal length were fed, the whole is the same exactly if what
      was fed before and the pieces are. */
  lemma Cancel(x: seq<nat>, u: seq<nat>, y: seq<nat>, v: seq<nat>)
    requires |u| == |v|
    ensures x + u == y + v <==> x == y && u == v
  {
    if x + u == y + v {
      assert |x| == |y|;
      assert (x + u)[..|x|] == x && (y + v)[..|x|] == y;
      assert (x + u)[|x|..] == u && (y + v)[|x|..] == v;
    }
  }

  lemma StringsFed(a: Str, b: Str)
    requires SameLength(a, b)
    ensures |StrBytes(a)| == |StrBytes(b)|
    ensures StrBytes(a) == StrBytes(b) <==> SameContent(a, b)
  {
    var s, t := Content(a), Content(b);
    assert |StrBytes(a)| == |s| && forall i :: 0 <= i < |s| ==> StrBytes(a)[i] == s[i] as nat;
    assert |StrBytes(b)| == |t| && forall i :: 0 <= i < |t| ==> StrBytes(b)[i] == t[i] as nat;
    if StrBytes(a) == StrBytes(b) {
      assert forall i :: 0 <= i < |s| ==> s[i] as nat == t[i] as nat;
    } else {
      assert exists i :: 0 <= i < |s| && StrBytes(a)[i] != StrBytes(b)[i];
    }
  }

  lemma StringFed(x: seq<nat>, a: Str, y: seq<nat>, b: Str)
    requires SameLength(a, b)
    ensures x + StrBytes(a) == y + StrBytes(b) <==> x == y && SameContent(a, b)
  {
    hide StrBytes, SameContent;
    StringsFed(a, b);
    Cancel(x, StrBytes(a), y, StrBytes(b));
  }

  lemma ByteFed(v: int, w: int, width: nat)
    ensures Bytes(v, width + 1) == Bytes(w, width + 1)
      <==> v % 256 == w % 256 && Bytes(v / 256, width) == Bytes(w / 256, width)
  {
    var x, y := Bytes(v / 256, width), Bytes(w / 256, width);
    assert ([v % 256] + x)[0] == v % 256 && ([v % 256] + x)[1..] == x;
    assert ([w % 256] + y)[0] == w % 256 && ([w % 256] + y)[1..] == y;
  }

  lemma Low16(v: int)
    ensures v % 0x1_0000 == v % 256 + 256 * (v / 256 % 256)
  {
    var q := v / 256;
    var k := q / 256;
    assert v == 0x1_0000 * k + (256 * (q % 256) + v % 256);
  }

  lemma Low24(v: int)
    ensures v % 0x100_0000 == v % 256 + 256 * (v / 256 % 0x1_0000)
  {
    var q := v / 256;
    var k := q / 0x1_0000;
    assert v == 0x100_0000 * k + (256 * (q % 0x1_0000) + v % 256);
  }

  lemma Low32(v: int)
    ensures v % 0x1_0000_0000 == v % 256 + 256 * (v / 256 % 0x100_0000)
  {
    var q := v / 256;
    var k := q / 0x100_0000;
    assert v == 0x1_0000_0000 * k + (256 * (q % 0x100_0000) + v % 256);
  }

  lemma Bytes1(v: int, w: int)
    ensures Bytes(v, 1) == Bytes(w, 1) <==> v % 256 == w % 256
  {
    ByteFed(v, w, 0);
  }

  lemma Bytes2(v: int, w: int)
    ensures Bytes(v, 2) == Bytes(w, 2) <==> v % 0x1_0000 == w % 0x1_0000
  {
    hide Bytes;
    ByteFed(v, w, 1);
    Bytes1(v / 256, w / 256);
    Low16(v);
    Low16(w);
  }

  lemma Bytes3(v: int, w: int)
    ensures Bytes(v, 3) == Bytes(w, 3) <==> v % 0x100_0000 == w % 0x100_0000
  {
    hide Bytes;
    ByteFed(v, w, 2);
    Bytes2(v / 256, w / 256);
    Low24(v);
    Low24(w);
  }

  lemma Bytes4(v: int, w: int)
    ensures Bytes(v, 4) == Bytes(w, 4) <==> SameInt(v, w)
  {
    hide Bytes;
    ByteFed(v, w, 3);
    Bytes3(v / 256, w / 256);
    Low32(v);
    Low32(w);
  }

  lemma IntFed(x: seq<nat>, v: int, y: seq<nat>, w: int)
    ensures x + Bytes(v, 4) == y + Bytes(w, 4) <==> x == y && SameInt(v, w)
  {
    hide Bytes, SameInt;
    Cancel(x, Bytes(v, 4), y, Bytes(w, 4));
    Bytes4(v, w);
  }

  lemma PortFed(x: seq<nat>, v: Port, y: seq<nat>, w: Port)
    ensures x + Bytes(v, 2) == y + Bytes(w, 2) <==> x == y && v == w
  {
    hide Bytes;
    Cancel(x, Bytes(v, 2), y, Bytes(w, 2));
    Bytes2(v, w);
  }

  // ---- The parts of a configuration ----

  lemma {:induction false} TestsFed(x: seq<nat>, ts: seq<TestV>, y: seq<nat>, us: seq<TestV>, n: nat)
    requires n <= |ts| == |us| && forall i :: 0 <= i < n ==> SameShapeTest(ts[i], us[i])
    ensures FedTests(x, ts, n) == FedTests(y, us, n) <==> x == y && forall i :: 0 <= i < n ==> SameTest(ts[i], us[i])
  {
    if n > 0 {
      hide StrBytes, SameContent, SameLength;
      var t, u := ts[n - 1], us[n - 1];
      var x', y' := FedTests(x, ts, n - 1), FedTests(y, us, n - 1);
      TestsFed(x, ts, y, us, n - 1);
      assert SameShapeTest(t, u);
      StringFed(x', t.sql, y', u.sql);
      StringFed(x' + StrBytes(t.sql), t.result, y' + StrBytes(u.sql), u.result);
    }
  }

  lemma FuncFed(x: seq<nat>, f: FuncV, y: seq<nat>, g: FuncV)
    requires SameShapeFunc(f, g)
    ensures FedFunc(x, f) == FedFunc(y, g) <==> x == y && SameFunc(f, g)
  {
    hide StrBytes, SameContent, SameLength, FedTests, SameTest, SameShapeTest;
    var x1, y1 := x + StrBytes(f.name), y + StrBytes(g.name);
    var x2, y2 := x1 + StrBytes(f.paramList), y1 + StrBytes(g.paramList);
    var x3, y3 := x2 + StrBytes(f.returnType), y2 + StrBytes(g.returnType);
    var x4, y4 := x3 + StrBytes(f.extName), y3 + StrBytes(g.extName);
    StringFed(x, f.name, y, g.name);
    StringFed(x1, f.paramList, y1, g.paramList);
    StringFed(x2, f.returnType, y2, g.returnType);
    StringFed(x3, f.extName, y3, g.extName);
    StringFed(x4, f.engine, y4, g.engine);
    TestsFed(x4 + StrBytes(f.engine), f.tests, y4 + StrBytes(g.engine), g.tests, |f.tests|);
  }

  predicate SameFuncs(fs: seq<FuncV>, gs: seq<FuncV>, n: nat)
    requires n <= |fs| == |gs|
  {
    forall i :: 0 <= i < n ==> SameFunc(fs[i], gs[i])
  }

  lemma NoFuncs(x: seq<nat>, fs: seq<FuncV>, gs: seq<FuncV>)
    requires |fs| == |gs|
    ensures SameFuncs(fs, gs, 0) && FedFuncs(x, fs, 0) == x
  {
  }

  lemma OneMoreFunc(x: seq<nat>, fs: seq<FuncV>, gs: seq<FuncV>, n: nat)
    requires n < |fs| == |gs|
    ensures SameFuncs(fs, gs, n + 1) <==> SameFuncs(fs, gs, n) && SameFunc(fs[n], gs[n])
    ensures FedFuncs(x, fs, n + 1) == FedFunc(FedFuncs(x, fs, n), fs[n])
  {
  }

  lemma {:induction false} FuncsFed(x: seq<nat>, fs: seq<FuncV>, y: seq<nat>, gs: seq<FuncV>, n: nat)
    requires n <= |fs| == |gs| && forall i :: 0 <= i < n ==> SameShapeFunc(fs[i], gs[i])
    ensures FedFuncs(x, fs, n) == FedFuncs(y, gs, n) <==> x == y && SameFuncs(fs, gs, n)
  {
    hide FedFunc, SameFunc, SameShapeFunc, FedFuncs, SameFuncs;
    if n == 0 {
      NoFuncs(x, fs, gs);
      NoFuncs(y, gs, fs);
    } else {
      FuncsFed(x, fs, y, gs, n - 1);
      OneMoreFunc(x, fs, gs, n - 1);
      OneMoreFunc(y, gs, fs, n - 1);
      FuncFed(FedFuncs(x, fs, n - 1), fs[n - 1], FedFuncs(y, gs, n - 1), gs[n - 1]);
    }
  }

  lemma NoNames(x: seq<nat>, fs: seq<FuncV>, at: seq<nat>)
    requires forall j :: 0 <= j < |at| ==> at[j] < |fs|
    ensures FedNames(x, fs, at, 0) == x
  {
  }

  lemma OneMoreName(x: seq<nat>, fs: seq<FuncV>, at: seq<nat>, n: nat)
    requires n < |at| && forall j :: 0 <= j < |at| ==> at[j] < |fs|
    ensures FedNames(x, fs, at, n + 1) == FedNames(x, fs, at, n) + StrBytes(fs[at[n]].name)
  {
  }

  lemma {:induction false} NamesFed(x: seq<nat>, fs: seq<FuncV>, at: seq<nat>,
                                    y: seq<nat>, gs: seq<FuncV>, bt: seq<nat>, n: nat)
    requires n <= |at| == |bt|
    requires (forall j :: 0 <= j < |at| ==> at[j] < |fs|) && (forall j :: 0 <= j < |bt| ==> bt[j] < |gs|)
    requires forall j :: 0 <= j < n ==> SameLength(fs[at[j]].name, gs[bt[j]].name)
    ensures FedNames(x, fs, at, n) == FedNames(y, gs, bt, n)
      <==> x == y && forall j :: 0 <= j < n ==> SameContent(fs[at[j]].name, gs[bt[j]].name)
  {
    hide StrBytes, SameContent, SameLength, FedNames;
    if n == 0 {
      NoNames(x, fs, at);
      NoNames(y, gs, bt);
    } else {
      OneMoreName(x, fs, at, n - 1);
      OneMoreName(y, gs, bt, n - 1);
      NamesFed(x, fs, at, y, gs, bt, n - 1);
      StringFed(FedNames(x, fs, at, n - 1), fs[at[n - 1]].name, FedNames(y, gs, bt, n - 1), gs[bt[n - 1]].name);
    }
  }

  lemma DbFed(x: seq<nat>, fs: seq<FuncV>, d: DbV, y: seq<nat>, gs: seq<FuncV>, e: DbV)
    requires InRange(fs, d) && InRange(gs, e) && SameShapeDb(fs, d, gs, e)
    ensures FedDb(x, fs, d) == FedDb(y, gs, e) <==> x == y && SameDb(fs, d, gs, e)
  {
    hide StrBytes, SameContent, SameLength, FedNames, Bytes, SameInt;
    var x1, y1 := x + StrBytes(d.dbpath), y + StrBytes(e.dbpath);
    var x2, y2 := FedNames(x1, fs, d.funcs, |d.funcs|), FedNames(y1, gs, e.funcs, |e.funcs|);
    StringFed(x, d.dbpath, y, e.dbpath);
    NamesFed(x1, fs, d.funcs, y1, gs, e.funcs, |d.funcs|);
    IntFed(x2, d.repeatCount, y2, e.repeatCount);
    IntFed(x2 + Bytes(d.repeatCount, 4), d.testThreads, y2 + Bytes(e.repeatCount, 4), e.testThreads);
  }

  predicate SameDbs(fs: seq<FuncV>, ds: seq<DbV>, gs: seq<FuncV>, es: seq<DbV>, n: nat)
    requires n <= |ds| == |es| && AllInRange(fs, ds) && AllInRange(gs, es)
  {
    forall i :: 0 <= i < n ==> SameDb(fs, ds[i], gs, es[i])
  }

  predicate SameShapeDbs(fs: seq<FuncV>, ds: seq<DbV>, gs: seq<FuncV>, es: seq<DbV>, n: nat)
    requires n <= |ds| == |es| && AllInRange(fs, ds) && AllInRange(gs, es)
  {
    forall i :: 0 <= i < n ==> SameShapeDb(fs, ds[i], gs, es[i])
  }

  lemma NoDbs(x: seq<nat>, fs: seq<FuncV>, ds: seq<DbV>, gs: seq<FuncV>, es: seq<DbV>)
    requires |ds| == |es| && AllInRange(fs, ds) && AllInRange(gs, es)
    ensures SameDbs(fs, ds, gs, es, 0) && FedDbs(x, fs, ds, 0) == x
  {
  }

  lemma OneMoreDb(x: seq<nat>, fs: seq<FuncV>, ds: seq<DbV>, gs: seq<FuncV>, es: seq<DbV>, n: nat)
    requires n < |ds| == |es| && AllInRange(fs, ds) && AllInRange(gs, es)
    ensures InRange(fs, ds[n]) && InRange(gs, es[n])
    ensures SameDbs(fs, ds, gs, es, n + 1) <==> SameDbs(fs, ds, gs, es, n) && SameDb(fs, ds[n], gs, es[n])
    ensures SameShapeDbs(fs, ds, gs, es, n + 1) ==>
      SameShapeDbs(fs, ds, gs, es, n) && SameShapeDb(fs, ds[n], gs, es[n])
    ensures FedDbs(x, fs, ds, n + 1) == FedDb(FedDbs(x, fs, ds, n), fs, ds[n])
  {
    hide SameDb, SameShapeDb, FedDb;
  }

  lemma {:induction false} DbsFed(x: seq<nat>, fs: seq<FuncV>, ds: seq<DbV>,
                                  y: seq<nat>, gs: seq<FuncV>, es: seq<DbV>, n: nat)
    requires n <= |ds| == |es| && AllInRange(fs, ds) && AllInRange(gs, es)
    requires SameShapeDbs(fs, ds, gs, es, n)
    ensures FedDbs(x, fs, ds, n) == FedDbs(y, gs, es, n) <==> x == y && SameDbs(fs, ds, gs, es, n)
  {
    hide FedDb, FedDbs, SameDb, SameDbs, SameShapeDb, SameShapeDbs, InRange, AllInRange;
    if n == 0 {
      NoDbs(x, fs, ds, gs, es);
      NoDbs(y, gs, es, fs, ds);
    } else {
      OneMoreDb(x, fs, ds, gs, es, n - 1);
      OneMoreDb(y, gs, es, fs, ds, n - 1);
      DbsFed(x, fs, ds, y, gs, es, n - 1);
      DbFed(FedDbs(x, fs, ds, n - 1), fs, ds[n - 1], FedDbs(y, gs, es, n - 1), gs, es[n - 1]);
    }
  }

  lemma GeneralFed(g: GeneralV, h: GeneralV)
    requires SameShapeGeneral(g, h)
    ensures GeneralBytes(g) == GeneralBytes(h) <==> SameGeneral(g, h)
  {
    hide StrBytes, SameContent, SameLength, Bytes;
    var x1, y1 := StrBytes(g.libfbclient), StrBytes(h.libfbclient);
    var x2, y2 := x1 + StrBytes(g.server), y1 + StrBytes(h.server);
    var x3, y3 := x2 + Bytes(g.port, 2), y2 + Bytes(h.port, 2);
    StringsFed(g.libfbclient, h.libfbclient);
    StringFed(x1, g.server, y1, h.server);
    PortFed(x2, g.port, y2, h.port);
    StringFed(x3, g.user, y3, h.user);
    StringFed(x3 + StrBytes(g.user), g.password, y3 + StrBytes(h.user), h.password);
  }

  lemma FlagsFed(x: seq<nat>, g: GeneralV, y: seq<nat>, h: GeneralV)
    ensures x + BoolByte(g.dropFuncs) + BoolByte(g.createOrAlter) + BoolByte(g.runReloader)
         == y + BoolByte(h.dropFuncs) + BoolByte(h.createOrAlter) + BoolByte(h.runReloader)
      <==> x == y && SameFlags(g, h)
  {
    var x1, y1 := x + BoolByte(g.dropFuncs), y + BoolByte(h.dropFuncs);
    var x2, y2 := x1 + BoolByte(g.createOrAlter), y1 + BoolByte(h.createOrAlter);
    BoolsFed(g.dropFuncs, h.dropFuncs);
    BoolsFed(g.createOrAlter, h.createOrAlter);
    BoolsFed(g.runReloader, h.runReloader);
    Cancel(x, BoolByte(g.dropFuncs), y, BoolByte(h.dropFuncs));
    Cancel(x1, BoolByte(g.createOrAlter), y1, BoolByte(h.createOrAlter));
    Cancel(x2, BoolByte(g.runReloader), y2, BoolByte(h.runReloader));
  }

  lemma BoolsFed(a: bool, b: bool)
    ensures BoolByte(a) == BoolByte(b) <==> a == b
  {
    assert BoolByte(a)[0] == if a then 1 else 0;
    assert BoolByte(b)[0] == if b then 1 else 0;
  }

  /** Configurations of the same shape feed the digest alike exactly if every fed
      field agrees. */
  lemma SameBytesIffSameFields(a: ConfigV, b: ConfigV)
    requires WellFormed(a) && WellFormed(b) && SameShape(a, b)
    ensures ConfigBytes(a) == ConfigBytes(b) <==> SameFields(a, b)
  {
    hide GeneralBytes, FedDbs, FedFuncs, BoolByte;
    hide SameGeneral, SameFlags, SameFuncs, SameDbs, SameShapeFunc, SameShapeDbs;
    var x1, y1 := GeneralBytes(a.general), GeneralBytes(b.general);
    var x2, y2 := FedDbs(x1, a.funcs, a.dbs, |a.dbs|), FedDbs(y1, b.funcs, b.dbs, |b.dbs|);
    GeneralFed(a.general, b.general);
    DbsFed(x1, a.funcs, a.dbs, y1, b.funcs, b.dbs, |a.dbs|);
    FuncsFed(x2, a.funcs, y2, b.funcs, |a.funcs|);
    FlagsFed(FedFuncs(x2, a.funcs, |a.funcs|), a.general, FedFuncs(y2, b.funcs, |b.funcs|), b.general);
  }

  /** No string is missing, and the integers are C ints. */
  predicate Proper(c: ConfigV) {
    && c.general.libfbclient != None && c.general.server != None
    && c.general.user != None && c.general.password != None
    && (forall i :: 0 <= i < |c.funcs| ==>
          && c.funcs[i].name != None && c.funcs[i].paramList != None && c.funcs[i].returnType != None
          && c.funcs[i].extName != None && c.funcs[i].engine != None
          && forall j :: 0 <= j < |c.funcs[i].tests| ==>
               c.funcs[i].tests[j].sql != None && c.funcs[i].tests[j].result != None)
    && (forall i :: 0 <= i < |c.dbs| ==>
          && c.dbs[i].dbpath != None
          && -0x8000_0000 <= c.dbs[i].repeatCount < 0x8000_0000 && -0x8000_0000 <= c.dbs[i].testThreads < 0x8000_0000)
  }

  predicate SameReferences(a: ConfigV, b: ConfigV) {
    |a.dbs| == |b.dbs| && forall i :: 0 <= i < |a.dbs| ==> a.dbs[i].funcs == b.dbs[i].funcs
  }

  lemma SameFuncIsEqual(f: FuncV, g: FuncV)
    requires SameFunc(f, g)
    requires f.name != None && f.paramList != None && f.returnType != None && f.extName != None && f.engine != None
    requires g.name != None && g.paramList != None && g.returnType != None && g.extName != None && g.engine != None
    requires forall j :: 0 <= j < |f.tests| ==> f.tests[j].sql != None && f.tests[j].result != None
    requires forall j :: 0 <= j < |g.tests| ==> g.tests[j].sql != None && g.tests[j].result != None
    ensures f == g
  {
    forall j | 0 <= j < |f.tests| ensures f.tests[j] == g.tests[j] {
      assert SameTest(f.tests[j], g.tests[j]);
    }
  }

  lemma SameFuncsAreEqual(a: ConfigV, b: ConfigV)
    requires Proper(a) && Proper(b) && |a.funcs| == |b.funcs| && SameFuncs(a.funcs, b.funcs, |a.funcs|)
    ensures a.funcs == b.funcs
  {
    hide SameFunc;
    forall i | 0 <= i < |a.funcs| ensures a.funcs[i] == b.funcs[i] {
      SameFuncIsEqual(a.funcs[i], b.funcs[i]);
    }
  }

  lemma SameDbsAreEqual(a: ConfigV, b: ConfigV)
    requires WellFormed(a) && WellFormed(b) && Proper(a) && Proper(b) && SameReferences(a, b)
    requires SameDbs(a.funcs, a.dbs, b.funcs, b.dbs, |a.dbs|)
    ensures a.dbs == b.dbs
  {
    forall i | 0 <= i < |a.dbs| ensures a.dbs[i] == b.dbs[i] {
      assert InRange(a.funcs, a.dbs[i]) && InRange(b.funcs, b.dbs[i]);
      assert SameDb(a.funcs, a.dbs[i], b.funcs, b.dbs[i]);
      SameDbIsEqual(a.funcs, a.dbs[i], b.funcs, b.dbs[i]);
    }
  }

  lemma SameDbIsEqual(fs: seq<FuncV>, d: DbV, gs: seq<FuncV>, e: DbV)
    requires InRange(fs, d) && InRange(gs, e) && SameDb(fs, d, gs, e) && d.funcs == e.funcs
    requires d.dbpath != None && e.dbpath != None
    requires -0x8000_0000 <= d.repeatCount < 0x8000_0000 && -0x8000_0000 <= d.testThreads < 0x8000_0000
    requires -0x8000_0000 <= e.repeatCount < 0x8000_0000 && -0x8000_0000 <= e.testThreads < 0x8000_0000
    ensures d == e
  {
  }

  lemma SameGeneralIsEqual(a: ConfigV, b: ConfigV)
    requires Proper(a) && Proper(b) && SameGeneral(a.general, b.general) && SameFlags(a.general, b.general)
    ensures a.general == b.general
  {
  }

  /** So of two such configurations of the same shape, whose databases refer to the
      same positions, the digest is fed alike exactly if they are equal. */
  lemma SameBytesIffEqual(a: ConfigV, b: ConfigV)
    requires WellFormed(a) && WellFormed(b) && Proper(a) && Proper(b) && SameReferences(a, b) && SameShape(a, b)
    ensures ConfigBytes(a) == ConfigBytes(b) <==> a == b
  {
    hide ConfigBytes, SameShape, SameFuncs, SameDbs, SameGeneral, SameFlags, Proper, WellFormed;
    SameBytesIffSameFields(a, b);
    if SameFields(a, b) {
      SameFuncsAreEqual(a, b);
      SameDbsAreEqual(a, b);
      SameGeneralIsEqual(a, b);
    }
  }

  // ---- A configuration and its clone ----

  /** Wherever cloning moves a reference, the names agree letter by letter. */
  predicate NamesKept(c: ConfigV)
    requires WellFormed(c)
  {
    forall i, j :: 0 <= i < |c.dbs| && 0 <= j < |c.dbs[i].funcs| ==>
      c.funcs[Moved(c.funcs, c.dbs[i].funcs[j])].name == c.funcs[c.dbs[i].funcs[j]].name
  }

  lemma CloneIsWellFormed(c: ConfigV)
    requires WellFormed(c)
    ensures WellFormed(Cloned(c))
  {
    forall i | 0 <= i < |c.dbs| ensures InRange(c.funcs, Cloned(c).dbs[i]) {
      assert Cloned(c).dbs[i] == MovedDb(c.funcs, c.dbs[i]);
    }
  }

  lemma DbAndItsClone(fs: seq<FuncV>, d: DbV)
    requires InRange(fs, d) && forall i :: 0 <= i < |fs| ==> fs[i].name.Some?
    ensures var e := MovedDb(fs, d);
      && InRange(fs, e) && SameShapeDb(fs, d, fs, e)
      && (SameDb(fs, d, fs, e) <==> forall j :: 0 <= j < |d.funcs| ==> fs[e.funcs[j]].name == fs[d.funcs[j]].name)
  {
    var e := MovedDb(fs, d);
    forall j | 0 <= j < |d.funcs| ensures SameLength(fs[d.funcs[j]].name, fs[e.funcs[j]].name) {
      var m, n := fs[d.funcs[j]].name.value, fs[e.funcs[j]].name.value;
      assert |Lower(m)| == |m| && |Lower(n)| == |n| && Lower(m) == Lower(n);
    }
    assert forall j :: 0 <= j < |d.funcs| ==>
      (SameContent(fs[d.funcs[j]].name, fs[e.funcs[j]].name) <==> fs[e.funcs[j]].name == fs[d.funcs[j]].name);
  }

  lemma CloneHasSameShape(c: ConfigV)
    requires WellFormed(c)
    ensures WellFormed(Cloned(c)) && SameShape(c, Cloned(c))
    ensures SameFields(c, Cloned(c)) <==> NamesKept(c)
  {
    hide SameShapeDb, SameDb, Moved;
    var r := Cloned(c);
    CloneIsWellFormed(c);
    forall i | 0 <= i < |c.dbs|
      ensures SameShapeDb(c.funcs, c.dbs[i], r.funcs, r.dbs[i])
      ensures SameDb(c.funcs, c.dbs[i], r.funcs, r.dbs[i]) <==>
        forall j :: 0 <= j < |c.dbs[i].funcs| ==>
          c.funcs[Moved(c.funcs, c.dbs[i].funcs[j])].name == c.funcs[c.dbs[i].funcs[j]].name
    {
      assert InRange(c.funcs, c.dbs[i]);
      assert r.dbs[i] == MovedDb(c.funcs, c.dbs[i]);
      DbAndItsClone(c.funcs, c.dbs[i]);
    }
  }

  /** So of a configuration and its clone, the only pair the program compares, the
      digest is fed alike exactly if every reference kept the name letter by letter:
      a reference moved to a name of other case is noticed, one moved to an equal
      name is not. */
  lemma CloneFeedsAlikeIff(c: ConfigV)
    requires WellFormed(c)
    ensures WellFormed(Cloned(c))
    ensures ConfigBytes(c) == ConfigBytes(Cloned(c)) <==> NamesKept(c)
  {
    hide ConfigBytes, SameShape, SameFields, NamesKept;
    CloneHasSameShape(c);
    SameBytesIffSameFields(c, Cloned(c));
  }

  /** Without the condition on shapes that fails: the pieces are fed without lengths
      or separators, so moving a letter from the user to the password is not noticed,
      whatever the functions and databases. */
  lemma OtherShapesMayFeedAlike(fs: seq<FuncV>, ds: seq<DbV>)
    requires WellFormed(ConfigV(GeneralV(None, None, 0, None, None, false, false, false), fs, ds))
    ensures exists a, b ::
      && WellFormed(a) && WellFormed(b) && a.funcs == b.funcs == fs && a.dbs == b.dbs == ds
      && !SameFields(a, b) && ConfigBytes(a) == ConfigBytes(b)
  {
    hide FedFuncs, FedDbs;
    var a := ConfigV(GeneralV(None, Some("s"), 1, Some("us"), Some("p"), false, false, false), fs, ds);
    var b := ConfigV(GeneralV(None, Some("s"), 1, Some("u"), Some("sp"), false, false, false), fs, ds);
    assert StrBytes(Some("us")) == StrBytes(Some("u")) + StrBytes(Some("s"));
    assert StrBytes(Some("sp")) == StrBytes(Some("s")) + StrBytes(Some("p"));
    var pre := StrBytes(None) + StrBytes(Some("s")) + Bytes(1, 2);
    assert GeneralBytes(a.general) == pre + StrBytes(Some("us")) + StrBytes(Some("p"));
    assert GeneralBytes(b.general) == pre + StrBytes(Some("u")) + StrBytes(Some("sp"));
    assert GeneralBytes(a.general) == GeneralBytes(b.general);
    assert |Content(a.general.user)| == 2 && |Content(b.general.user)| == 1;
    assert !SameGeneral(a.general, b.general);
  }
}
