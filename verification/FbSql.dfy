/** The statement object of the test program's database layer: preparing a
    statement threads the parameters of equal name into linked lists, which the
    setters by name walk. */
module FbSqlModule {
  import opened Text
  import opened CString
  import opened SqlGrammar
  import opened SqlOutcome
  import opened Preprocess
  import opened NameChains

  /** A C int. */
  newtype Int32 = x: int | -0x8000_0000 <= x < 0x8000_0000

  /** What a parameter's data holds: nothing yet, an integer of one of three
      widths, or an integer converted to a floating type. */
  datatype Data =
    | Unset
    | Int(bits: nat, value: int)
    | Real(single: bool, of: int)

  /** The mutable part of a parameter. */
  datatype Var = Var(data: Data, scale: int, ind: int)

  /** XSQLVAR */
  class XSqlVar {
    const base: SqlBase
    const nullable: bool
    var v: Var

    constructor (base: SqlBase, nullable: bool, scale: int)
      ensures this.base == base && this.nullable == nullable
      ensures v == Var(Unset, scale, if nullable then -1 else 0)
    {
      this.base, this.nullable := base, nullable;
      v := Var(Unset, scale, if nullable then -1 else 0);
    }
  }

  class Name2Param {
    const param: XSqlVar
    const next: Name2Param?
    const nextAllocated: Name2Param?

    constructor (param: XSqlVar, next: Name2Param?, nextAllocated: Name2Param?)
      ensures this.param == param && this.next == next && this.nextAllocated == nextAllocated
    {
      this.param, this.next, this.nextAllocated := param, next, nextAllocated;
    }
  }

  /** The description of one parameter that the database returns. */
  datatype Described = Described(base: SqlBase, nullable: bool, scale: int)

  /** A parameter before anything is stored in it. */
  function Blank(d: Described): Var {
    Var(Unset, d.scale, if d.nullable then -1 else 0)
  }

  /** (short)value */
  function ToShort(v: Int32): int {
    var m := (v as int) % 0x1_0000;
    if m < 0x8000 then m else m - 0x1_0000
  }

  lemma ToShortWraps(v: Int32)
    ensures -0x8000 <= ToShort(v) < 0x8000
    ensures (ToShort(v) - v as int) % 0x1_0000 == 0
    ensures -0x8000 <= v as int < 0x8000 ==> ToShort(v) == v as int
  {
  }

  /** The data an integer leaves in a parameter of a numeric type. */
  function Converted(base: SqlBase, v: Int32): Data {
    match base
    case SqlShort => Int(16, ToShort(v))
    case SqlLong => Int(32, v as int)
    case SqlInt64 => Int(64, v as int)
    case SqlFloat => Real(true, v as int)
    case SqlDouble => Real(false, v as int)
    case SqlDFloat => Real(false, v as int)
    case _ => Unset
  }

  /** A parameter after an integer was stored in it. */
  function Assigned(p: XSqlVar, v: Int32, was: Var): Var {
    Var(Converted(p.base, v), 0, if p.nullable then 0 else was.ind)
  }

  /** A parameter that is not null and holds this integer, unscaled, in the width of
      its type; in a short, the number congruent to it modulo 65536. */
  ghost predicate Carries(p: XSqlVar, now: Var, value: Int32) {
    && now.scale == 0
    && (p.nullable ==> now.ind == 0)
    && (p.base == SqlShort ==>
          now.data.Int? && now.data.bits == 16 && -32768 <= now.data.value <= 32767
          && (now.data.value - value as int) % 65536 == 0)
    && (p.base == SqlLong ==> now.data == Int(32, value as int))
    && (p.base == SqlInt64 ==> now.data == Int(64, value as int))
    && (p.base == SqlFloat ==> now.data == Real(true, value as int))
    && (p.base == SqlDouble || p.base == SqlDFloat ==> now.data == Real(false, value as int))
  }

  /** What an assignment means: on every numeric type the parameter carries the value
      and is not null, and the indicator of one that cannot be null stays. */
  lemma AssignedCarries(p: XSqlVar, value: Int32, was: Var)
    ensures Carries(p, Assigned(p, value, was), value)
    ensures Assigned(p, value, was).scale == 0
    ensures Assigned(p, value, was).ind == if p.nullable then 0 else was.ind
    ensures p.base == SqlShort ==>
      exists v :: Assigned(p, value, was).data == Int(16, v) && -32768 <= v <= 32767 && (v - value as int) % 65536 == 0
    ensures p.base == SqlLong ==> Assigned(p, value, was).data == Int(32, value as int)
    ensures p.base == SqlInt64 ==> Assigned(p, value, was).data == Int(64, value as int)
    ensures p.base == SqlFloat ==> Assigned(p, value, was).data == Real(true, value as int)
    ensures p.base == SqlDouble || p.base == SqlDFloat ==> Assigned(p, value, was).data == Real(false, value as int)
  {
    hide ToShort;
    ToShortWraps(value);
  }

  /** SetParamAsInt */
  method SetParamAsInt(p: XSqlVar?, value: Int32) returns (ok: bool)
    modifies if p == null then {} else {p}
    ensures ok <==> p != null && IsNumeric(p.base)
    ensures p != null ==> p.v == if ok then Assigned(p, value, old(p.v)) else old(p.v)
    ensures ok ==> Carries(p, p.v, value) && p.v.scale == 0 && p.v.ind == if p.nullable then 0 else old(p.v.ind)
  {
    if p != null {
      AssignedCarries(p, value, p.v);
    }
    if p == null {
      return false;
    }
    match p.base {
      case SqlShort => p.v := p.v.(data := Int(16, ToShort(value)));
      case SqlLong => p.v := p.v.(data := Int(32, value as int));
      case SqlInt64 => p.v := p.v.(data := Int(64, value as int));
      case SqlFloat => p.v := p.v.(data := Real(true, value as int));
      case SqlDouble => p.v := p.v.(data := Real(false, value as int));
      case SqlDFloat => p.v := p.v.(data := Real(false, value as int));
      case _ => return false;
    }
    p.v := p.v.(scale := 0);
    if p.nullable {
      p.v := p.v.(ind := 0);
    }
    return true;
  }

  predicate Named(n: Option<string>) {
    n.Some? && n.value != ""
  }

  function TypesOf(ds: seq<Described>): (ts: seq<SqlBase>)
    ensures |ts| == |ds| && forall i :: 0 <= i < |ds| ==> ts[i] == ds[i].base
  {
    seq(|ds|, i requires 0 <= i < |ds| => ds[i].base)
  }

  function BasesOf(ps: seq<XSqlVar>): (ts: seq<SqlBase>)
    ensures |ts| == |ps| && forall i :: 0 <= i < |ps| ==> ts[i] == ps[i].base
  {
    seq(|ps|, i requires 0 <= i < |ps| => ps[i].base)
  }

  type Nodes = map<nat, Name2Param>

  /** The node made for position i: it refers to that parameter, and on to the node
      of the last position before it that bears the same name. */
  ghost predicate NodeOk(nodes: Nodes, names: Names, params: seq<XSqlVar>, i: nat)
    requires i in nodes && i < |names| <= |params| && Named(names[i])
  {
    var j := LastBefore(names, names[i].value, i);
    && nodes[i].param == params[i]
    && (if j < 0 then nodes[i].next == null else j in nodes && nodes[i].next == nodes[j])
  }

  /** A name's table entry is the node of the last of the first k positions that
      bear it. */
  ghost predicate EntryOk(nodes: Nodes, table: map<string, Name2Param>, names: Names, n: string, k: nat)
    requires k <= |names|
  {
    var j := LastBefore(names, n, k);
    && (n in table <==> n != "" && j >= 0)
    && (n in table ==> j in nodes && table[n] == nodes[j])
  }

  ghost predicate NodesOk(nodes: Nodes, names: Names, params: seq<XSqlVar>, k: nat)
    requires k <= |names| <= |params|
  {
    && (forall i :: i in nodes <==> 0 <= i < k && Named(names[i]))
    && (forall i :: i in nodes ==> NodeOk(nodes, names, params, i))
  }

  /** The chains of the first k positions. */
  ghost predicate ChainsOk(nodes: Nodes, table: map<string, Name2Param>, names: Names, params: seq<XSqlVar>, k: nat)
    requires k <= |names| <= |params|
  {
    NodesOk(nodes, names, params, k) && forall n :: EntryOk(nodes, table, names, n, k)
  }

  lemma NoChains(names: Names, params: seq<XSqlVar>)
    requires |names| <= |params|
    ensures ChainsOk(map[], map[], names, params, 0)
  {
  }

  lemma TableEntry(nodes: Nodes, table: map<string, Name2Param>, names: Names, params: seq<XSqlVar>, k: nat, n: string)
    requires k <= |names| <= |params| && ChainsOk(nodes, table, names, params, k) && n != ""
    ensures n in table <==> LastBefore(names, n, k) >= 0
    ensures n in table ==> table[n].param == params[LastBefore(names, n, k)]
  {
    assert EntryOk(nodes, table, names, n, k);
    if n in table {
      assert NodeOk(nodes, names, params, LastBefore(names, n, k));
    }
  }

  lemma NodesGrow(nodes: Nodes, names: Names, params: seq<XSqlVar>, k: nat, node: Name2Param)
    requires k < |names| <= |params| && NodesOk(nodes, names, params, k) && Named(names[k])
    requires node.param == params[k]
    requires var j := LastBefore(names, names[k].value, k);
      if j < 0 then node.next == null else j in nodes && node.next == nodes[j]
    ensures NodesOk(nodes[k := node], names, params, k + 1)
  {
    hide LastBefore;
    var nodes' := nodes[k := node];
    forall i | i in nodes' ensures NodeOk(nodes', names, params, i) {
      if i != k {
        assert NodeOk(nodes, names, params, i);
      }
    }
  }

  lemma LastOneFurther(names: Names, n: string, k: nat)
    requires k < |names|
    ensures LastBefore(names, n, k + 1) == if names[k] == Some(n) then k else LastBefore(names, n, k)
  {
  }

  /** A new node in front of its chain keeps all chains. */
  lemma ChainsGrow(nodes: Nodes, table: map<string, Name2Param>, names: Names, params: seq<XSqlVar>, k: nat,
                   node: Name2Param)
    requires k < |names| <= |params| && ChainsOk(nodes, table, names, params, k) && Named(names[k])
    requires node.param == params[k]
    requires node.next == if names[k].value in table then table[names[k].value] else null
    ensures ChainsOk(nodes[k := node], table[names[k].value := node], names, params, k + 1)
  {
    hide LastBefore, NodeOk;
    var name := names[k].value;
    assert EntryOk(nodes, table, names, name, k);
    NodesGrow(nodes, names, params, k, node);
    var nodes', table', k' := nodes[k := node], table[name := node], k + 1;
    forall n ensures EntryOk(nodes', table', names, n, k') {
      assert EntryOk(nodes, table, names, n, k);
      LastOneFurther(names, n, k);
    }
  }

  lemma ChainsSkip(nodes: Nodes, table: map<string, Name2Param>, names: Names, params: seq<XSqlVar>, k: nat)
    requires k < |names| <= |params| && ChainsOk(nodes, table, names, params, k) && !Named(names[k])
    ensures ChainsOk(nodes, table, names, params, k + 1)
  {
    hide LastBefore, NodeOk;
    var k' := k + 1;
    forall n ensures EntryOk(nodes, table, names, n, k') {
      assert EntryOk(nodes, table, names, n, k);
      LastOneFurther(names, n, k);
    }
  }

  // ---- The list of all nodes, by which they are freed ----

  /** From this node on, the links of allocation visit these nodes, and end. */
  ghost predicate Allocated(node: Name2Param?, all: seq<Name2Param>)
    decreases |all|
  {
    if all == [] then node == null
    else node == all[0] && Allocated(all[0].nextAllocated, all[1..])
  }

  ghost predicate EachOnce(all: seq<Name2Param>) {
    forall i, j :: 0 <= i < j < |all| ==> all[i] != all[j]
  }

  lemma AllocatedMore(storage: Name2Param?, all: seq<Name2Param>, node: Name2Param)
    requires Allocated(storage, all) && EachOnce(all) && node !in all && node.nextAllocated == storage
    ensures Allocated(node, [node] + all) && EachOnce([node] + all)
  {
    assert ([node] + all)[1..] == all;
  }

  predicate Distinct(params: seq<XSqlVar>) {
    forall i, j :: 0 <= i < j < |params| ==> params[i] != params[j]
  }

  class FbSql {
    var sqlText: string
    var isPrepared: bool
    var preparedSql: string
    var params: seq<XSqlVar>
    var paramNames: map<string, Name2Param>
    var storage: Name2Param?
    ghost var names: Names
    ghost var nodes: Nodes
    /** The nodes allocated since the statement was last closed. */
    ghost var stored: seq<Name2Param>

    ghost predicate Valid()
      reads this
    {
      && IsSqlText(sqlText)
      && |names| == |params| && Distinct(params)
      && ChainsOk(nodes, paramNames, names, params, |names|)
      && SharedTypesAgree(names, BasesOf(params), |names|)
      && StorageOk()
      && (!isPrepared ==> Closed())
    }

    /** The list of allocation has every node allocated, each once; and every node
        of a chain is among them. */
    ghost predicate StorageOk()
      reads this`storage, this`stored, this`nodes
    {
      && Allocated(storage, stored) && EachOnce(stored)
      && forall i :: i in nodes ==> nodes[i] in stored
    }

    ghost predicate Closed()
      reads this
    {
      !isPrepared && params == [] && paramNames == map[] && names == [] && nodes == map[]
      && storage == null && stored == []
    }

    constructor (text: string)
      requires IsSqlText(text)
      ensures Valid() && Closed() && sqlText == text
    {
      sqlText, preparedSql, isPrepared := text, "", false;
      params, paramNames, storage := [], map[], null;
      names, nodes, stored := [], map[], [];
    }

    /** fb_close_sql: every node allocated is freed, exactly once. */
    method Close() returns (ghost freed: seq<Name2Param>)
      requires IsSqlText(sqlText) && StorageOk()
      modifies this`isPrepared, this`params, this`paramNames, this`storage, this`names, this`nodes, this`stored
      ensures Valid() && Closed()
      ensures freed == old(stored) && EachOnce(freed)
    {
      params, paramNames := [], map[];
      freed := [];
      var p := storage;
      while p != null
        invariant freed <= stored && Allocated(p, stored[|freed|..])
        decreases |stored| - |freed|
      {
        freed := freed + [p];
        p := p.nextAllocated;
      }
      storage, isPrepared := null, false;
      names, nodes, stored := [], map[], [];
    }

    /** Preparing the statement, within a transaction, succeeds exactly in this case. */
    ghost predicate CanPrepare(described: Option<seq<Described>>)
      reads this`sqlText
    {
      exists ps ::
        && Succeeds(AsWritten, ps, sqlText)
        && described.Some? && |described.value| == |NamesOf(ps)|
        && SharedTypesAgree(NamesOf(ps), TypesOf(described.value), |NamesOf(ps)|)
    }

    /** From this node on, the chain visits these positions. */
    ghost predicate Walks(node: Name2Param?, s: seq<nat>)
      reads this
      decreases |s|
    {
      if s == [] then node == null
      else s[0] in nodes && node == nodes[s[0]] && Walks(nodes[s[0]].next, s[1..])
    }

    /** The chain of a name visits exactly the positions bearing it, from the last
        one down, and ends; a name has a chain exactly if some position bears it. */
    lemma ChainsAreExact(name: string)
      requires Valid()
      ensures name in paramNames <==> exists i: nat :: BearsName(i, name)
      ensures name in paramNames ==>
        && Walks(paramNames[name], Chain(names, name, |names|))
        && StrictlyDecreasing(Chain(names, name, |names|))
        && (forall i: nat :: i in Chain(names, name, |names|) <==> BearsName(i, name))
    {
      assert EntryOk(nodes, paramNames, names, name, |names|);
      if name in paramNames {
        assert BearsName(LastBefore(names, name, |names|), name);
        WalksFrom(name, |names|);
        ChainListsExactly(names, name, |names|);
        assert forall i: nat :: i < |names| ==> (BearsName(i, name) <==> Bears(names, i, name));
      } else {
        NotInTable(name);
      }
    }

    lemma {:induction false} WalksFrom(name: string, k: nat)
      requires Valid() && name != "" && k <= |names|
      ensures var j := LastBefore(names, name, k);
        && (j >= 0 ==> j in nodes)
        && Walks(if j < 0 then null else nodes[j], Chain(names, name, k))
      decreases k
    {
      var j := LastBefore(names, name, k);
      if j >= 0 {
        assert NodeOk(nodes, names, params, j);
        WalksFrom(name, j);
        assert Chain(names, name, k)[1..] == Chain(names, name, j);
      }
    }

    /** Nodes are never shared between positions, so the chains of two names have
        no node in common. */
    lemma ChainsAreDisjoint(i: nat, j: nat)
      requires Valid() && i in nodes && j in nodes && nodes[i] == nodes[j]
      ensures i == j
    {
      assert NodeOk(nodes, names, params, i) && NodeOk(nodes, names, params, j);
    }

    /** fb_prepare_sql. `connected` says whether there is a database and a
        transaction under way; `described` is what the database says about the
        parameters of the rewritten statement, None if any of its calls fails. */
    method Prepare(connected: bool, described: Option<seq<Described>>) returns (ok: bool, ghost ps: seq<Piece>)
      requires Valid()
      modifies this
      ensures Valid() && sqlText == old(sqlText)
      ensures ok <==> connected && CanPrepare(described)
      ensures ok <==> connected && described.Some? && exists qs ::
        && Succeeds(AsWritten, qs, sqlText)
        && |described.value| == |NamesOf(qs)|
        && SharedTypesAgree(NamesOf(qs), TypesOf(described.value), |described.value|)
      ensures !connected ==> unchanged(this)
      ensures connected ==> isPrepared == ok && (!ok ==> Closed())
      ensures ok ==> Prepared(described, ps)
      ensures ok ==> forall i :: 0 <= i < |params| ==> fresh(params[i])
      ensures ok ==> |names| == |params| == |described.value|
      ensures ok ==> forall i :: 0 <= i < |params| ==>
        var p, d := params[i], described.value[i];
        && p.base == d.base && p.nullable == d.nullable
        && p.v.data == Unset && p.v.scale == d.scale && p.v.ind == if p.nullable then -1 else 0
      ensures ok ==> forall i, j ::
        0 <= i < j < |names| && names[i] != None && names[i] != Some("") && names[i] == names[j] ==>
        Compatible(params[i].base, params[j].base)
    {
      if !connected {
        return false, [];
      }
      if isPrepared {
        ghost var freed := Close();
      }
      ok, ps := PrepareClosed(described);
      assert ok ==> forall i :: 0 <= i < |params| ==> Describes(described.value[i], params[i]);
    }

    /** The rewritten statement, its names, and its parameters as described. */
    ghost predicate Prepared(described: Option<seq<Described>>, ps: seq<Piece>)
      reads this, params
    {
      && Succeeds(AsWritten, ps, sqlText) && preparedSql == RewriteAll(ps) && names == NamesOf(ps)
      && described.Some? && |params| == |described.value|
      && (forall i :: 0 <= i < |params| ==> Describes(described.value[i], params[i]))
    }

    method PrepareClosed(described: Option<seq<Described>>) returns (ok: bool, ghost ps: seq<Piece>)
      requires Valid() && Closed()
      modifies this
      ensures Valid() && sqlText == old(sqlText) && isPrepared == ok
      ensures ok <==> CanPrepare(described)
      ensures !ok ==> Closed()
      ensures ok ==> Prepared(described, ps)
      ensures ok ==> forall i :: 0 <= i < |params| ==> fresh(params[i])
    {
      hide ChainsOk, SharedTypesAgree, CanPrepare, Succeeds, RewriteAll, NamesOf, StorageOk;
      ok := false;
      var found, buf, list;
      ghost var why;
      found, buf, list, ps, why := PreprocessSQL(sqlText);
      if found {
        var k := StrLen(buf);
        preparedSql := buf[..k];
      }
      if !found || described.None? || |list| != |described.value| {
        CannotPrepare(described, found, ps);
        return;
      }
      params := MakeVars(described.value);
      names := list;
      assert BasesOf(params) == TypesOf(described.value);
      ok := BindNames(list);
      if ok {
        isPrepared := true;
        CanBePrepared(described, ps);
      } else {
        OnlyOneReading(described, ps);
        ghost var freed := Close();
      }
    }

    lemma CanBePrepared(described: Option<seq<Described>>, ps: seq<Piece>)
      requires Succeeds(AsWritten, ps, sqlText) && described.Some? && |NamesOf(ps)| == |described.value|
      requires SharedTypesAgree(NamesOf(ps), TypesOf(described.value), |NamesOf(ps)|)
      ensures CanPrepare(described)
    {
    }

    lemma CannotPrepare(described: Option<seq<Described>>, found: bool, ps: seq<Piece>)
      requires !found ==> !Readable(AsWritten, sqlText)
      requires found ==>
        && Succeeds(AsWritten, ps, sqlText)
        && (described.None? || |NamesOf(ps)| != |described.value|)
      ensures !CanPrepare(described)
    {
      if CanPrepare(described) {
        var qs :| Succeeds(AsWritten, qs, sqlText) && described.Some? && |described.value| == |NamesOf(qs)|
          && SharedTypesAgree(NamesOf(qs), TypesOf(described.value), |NamesOf(qs)|);
        if found {
          ReadingUnique(AsWritten, ps, qs, sqlText);
        }
      }
    }

    lemma OnlyOneReading(described: Option<seq<Described>>, ps: seq<Piece>)
      requires Succeeds(AsWritten, ps, sqlText) && described.Some? && |NamesOf(ps)| == |described.value|
      requires !SharedTypesAgree(NamesOf(ps), TypesOf(described.value), |NamesOf(ps)|)
      ensures !CanPrepare(described)
    {
      if CanPrepare(described) {
        var qs :| Succeeds(AsWritten, qs, sqlText) && described.Some? && |described.value| == |NamesOf(qs)|
          && SharedTypesAgree(NamesOf(qs), TypesOf(described.value), |NamesOf(qs)|);
        ReadingUnique(AsWritten, ps, qs, sqlText);
      }
    }

    /** Thread the parameters into chains by name, checking each against the one of
        the same name before it. Whether or not that succeeds, the list of allocation
        has every node allocated. */
    method BindNames(list: Names) returns (ok: bool)
      requires names == list && |list| == |params| && paramNames == map[] && nodes == map[]
      requires storage == null && stored == []
      modifies this`paramNames, this`nodes, this`storage, this`stored
      ensures ok <==> SharedTypesAgree(names, BasesOf(params), |names|)
      ensures ok ==> ChainsOk(nodes, paramNames, names, params, |names|)
      ensures StorageOk()
    {
      hide ChainsOk, SharedTypesAgree, LastBefore, Compatible, StorageOk;
      NoChains(names, params);
      NoneToAgree(names, BasesOf(params));
      NothingAllocated();
      for i := 0 to |list|
        invariant ChainsOk(nodes, paramNames, names, params, i)
        invariant SharedTypesAgree(names, BasesOf(params), i)
        invariant StorageOk()
      {
        if Named(list[i]) {
          var name := list[i].value;
          NeighboursSuffice(names, BasesOf(params), i);
          var prev := if name in paramNames then paramNames[name] else null;
          TableEntry(nodes, paramNames, names, params, i, name);
          if prev != null && !Compatible(prev.param.base, params[i].base) {
            LongerDisagrees(names, BasesOf(params), i + 1);
            return false;
          }
          var node := new Name2Param(params[i], prev, storage);
          ChainsGrow(nodes, paramNames, names, params, i, node);
          paramNames := paramNames[name := node];
          Allocate(i, node);
        } else {
          ChainsSkip(nodes, paramNames, names, params, i);
          UnnamedAgrees(names, BasesOf(params), i);
        }
      }
      return true;
    }

    /** A new node becomes the head of the list of allocation. */
    method Allocate(i: nat, node: Name2Param)
      requires StorageOk() && node.nextAllocated == storage && node !in stored
      modifies this`storage, this`nodes, this`stored
      ensures StorageOk() && storage == node
      ensures nodes == old(nodes)[i := node] && stored == [node] + old(stored)
    {
      AllocatedMore(storage, stored, node);
      storage := node;
      nodes := nodes[i := node];
      stored := [node] + stored;
    }

    lemma NothingAllocated()
      requires storage == null && stored == [] && nodes == map[]
      ensures StorageOk()
    {
    }

    /** ParamByName, on a prepared statement: a node is found exactly if the name
        occurs, and the chain from it visits all its occurrences. */
    method ParamByName(name: string) returns (node: Name2Param?)
      requires Valid()
      ensures node != null <==> exists i: nat :: BearsName(i, name)
      ensures node != null ==> Walks(node, Chain(names, name, |names|))
    {
      ChainsAreExact(name);
      node := if name in paramNames then paramNames[name] else null;
    }

    ghost predicate BearsName(i: nat, name: string)
      reads this`names
    {
      i < |names| && name != "" && names[i] == Some(name)
    }

    /** Setting a parameter by name, on a prepared statement. All or nothing: either
        the name occurs and all its occurrences are numeric, and then exactly they
        are set; or nothing is changed and the call fails. */
    method SetByName(name: string, value: Int32) returns (ok: bool)
      requires Valid()
      modifies params
      ensures Valid()
      ensures ok <==> exists i: nat :: BearsName(i, name) && IsNumeric(params[i].base)
      ensures ok ==> forall i: nat :: BearsName(i, name) ==> IsNumeric(params[i].base)
      ensures forall i :: 0 <= i < |params| ==>
        params[i].v ==
          if ok && BearsName(i, name) then Assigned(params[i], value, old(params[i].v)) else old(params[i].v)
      ensures ok ==> forall i: nat :: BearsName(i, name) ==>
        && Carries(params[i], params[i].v, value) && params[i].v.scale == 0
        && (params[i].nullable ==> params[i].v.ind == 0)
    {
      hide Carries, Valid, Assigned, IsNumeric, Walks, Chain;
      var node := ParamByName(name);
      if node == null {
        return false;
      }
      ghost var last: nat := LastOf(name, node);
      ghost var cur: int := last;
      while node != null
        invariant -1 <= cur <= last
        invariant if cur < 0 then node == null else cur in nodes && node == nodes[cur] && BearsName(cur, name)
        invariant cur < last ==> IsNumeric(params[last].base)
        invariant forall i: nat :: i < |params| && (i <= cur || !BearsName(i, name)) ==> params[i].v == old(params[i].v)
        invariant forall i: nat :: cur < i < |params| && BearsName(i, name) ==>
          params[i].v == Assigned(params[i], value, old(params[i].v))
        decreases cur
      {
        ghost var prev := NextInChain(name, cur);
        ok := SetParamAsInt(node.param, value);
        if !ok {
          assert cur == last;
          return false;
        }
        assert forall i :: 0 <= i < |params| && i != cur ==> params[i] != params[cur];
        node := node.next;
        cur := prev;
      }
      forall i: nat | BearsName(i, name)
        ensures Carries(params[i], params[i].v, value) && params[i].v.scale == 0
        ensures params[i].nullable ==> params[i].v.ind == 0
      {
        AssignedCarries(params[i], value, old(params[i].v));
      }
      return true;
    }

    lemma NotInTable(name: string)
      requires Valid() && name !in paramNames
      ensures forall i: nat :: !BearsName(i, name)
    {
      assert EntryOk(nodes, paramNames, names, name, |names|);
      forall i: nat ensures !BearsName(i, name) {
        assert BearsName(i, name) ==> Bears(names, i, name);
      }
    }

    lemma NoneBetween(name: string, cur: nat)
      requires cur <= |names|
      ensures var j := LastBefore(names, name, cur);
        && (forall i: nat :: j < i < cur ==> !BearsName(i, name))
        && (j >= 0 && name != "" ==> BearsName(j, name))
    {
      var j := LastBefore(names, name, cur);
      forall i: nat | j < i < cur ensures !BearsName(i, name) {
        assert !Bears(names, i, name);
      }
    }

    /** Where the chain of a name begins. */
    lemma LastOf(name: string, node: Name2Param) returns (last: nat)
      requires Valid() && (exists i: nat :: BearsName(i, name)) && Walks(node, Chain(names, name, |names|))
      ensures last in nodes && BearsName(last, name) && node == nodes[last]
      ensures forall i: nat :: BearsName(i, name) ==>
        i <= last && IsNumeric(params[i].base) == IsNumeric(params[last].base)
      ensures Distinct(params) && |names| == |params|
    {
      var i: nat :| BearsName(i, name);
      assert Bears(names, i, name);
      last := LastBefore(names, name, |names|);
      NoneBetween(name, |names|);
      OccurrencesAgree(name, last);
      assert Chain(names, name, |names|)[0] == last;
    }

    /** One link of a chain. */
    lemma NextInChain(name: string, cur: nat) returns (j: int)
      requires Valid() && BearsName(cur, name) && cur in nodes
      ensures -1 <= j < cur && nodes[cur].param == params[cur]
      ensures if j < 0 then nodes[cur].next == null else j in nodes && nodes[cur].next == nodes[j] && BearsName(j, name)
      ensures forall i: nat :: j < i < cur ==> !BearsName(i, name)
    {
      assert NodeOk(nodes, names, params, cur);
      j := LastBefore(names, name, cur);
      NoneBetween(name, cur);
    }

    /** fb_set_pbn_as_int; a statement that is not prepared is prepared first. */
    method SetPbnAsInt(name: string, value: Int32, connected: bool, described: Option<seq<Described>>)
      returns (ok: bool)
      requires Valid()
      modifies this, params
      ensures Valid() && sqlText == old(sqlText)
      ensures isPrepared == (old(isPrepared) || (connected && CanPrepare(described)))
      ensures ok <==> isPrepared && exists i: nat :: BearsName(i, name) && IsNumeric(params[i].base)
      ensures old(isPrepared) ==> params == old(params) && names == old(names)
      ensures old(isPrepared) ==> forall i :: 0 <= i < |params| ==>
        params[i].v ==
          if ok && BearsName(i, name) then Assigned(params[i], value, old(params[i].v)) else old(params[i].v)
      ensures !old(isPrepared) && isPrepared ==>
        && described.Some? && |params| == |described.value|
        && (forall i :: 0 <= i < |params| ==>
              var was := Blank(described.value[i]);
              params[i].v == if ok && BearsName(i, name) then Assigned(params[i], value, was) else was)
      ensures ok ==> forall i: nat :: BearsName(i, name) ==>
        && Carries(params[i], params[i].v, value) && params[i].v.scale == 0
        && (params[i].nullable ==> params[i].v.ind == 0)
    {
      hide ChainsOk, SharedTypesAgree, StorageOk, CanPrepare, Succeeds, Assigned, IsNumeric, Carries;
      if !isPrepared {
        ghost var ps;
        ok, ps := Prepare(connected, described);
        if !ok {
          return;
        }
      }
      ok := SetByName(name, value);
    }

    /** All occurrences of a name are numeric or none is. */
    lemma OccurrencesAgree(name: string, last: nat)
      requires Valid() && BearsName(last, name)
      ensures forall i: nat :: BearsName(i, name) ==> IsNumeric(params[i].base) == IsNumeric(params[last].base)
    {
      forall i: nat | BearsName(i, name) ensures IsNumeric(params[i].base) == IsNumeric(params[last].base) {
        var lo, hi := if i < last then i else last, if i < last then last else i;
        if lo < hi {
          assert Compatible(BasesOf(params)[lo], BasesOf(params)[hi]);
          CompatibleIffSameClass(params[lo].base, params[hi].base);
        }
      }
    }
  }

  lemma UnnamedAgrees(names: Names, types: seq<SqlBase>, k: nat)
    requires k < |names| == |types| && SharedTypesAgree(names, types, k) && !Named(names[k])
    ensures SharedTypesAgree(names, types, k + 1)
  {
  }

  lemma NoneToAgree(names: Names, types: seq<SqlBase>)
    requires |names| == |types|
    ensures SharedTypesAgree(names, types, 0)
  {
  }

  lemma LongerDisagrees(names: Names, types: seq<SqlBase>, k: nat)
    requires k <= |names| == |types| && !SharedTypesAgree(names, types, k)
    ensures !SharedTypesAgree(names, types, |names|)
  {
  }

  method MakeVars(ds: seq<Described>) returns (vars: seq<XSqlVar>)
    ensures |vars| == |ds| && Distinct(vars)
    ensures forall i :: 0 <= i < |vars| ==> fresh(vars[i]) && Describes(ds[i], vars[i])
  {
    vars := [];
    for i := 0 to |ds|
      invariant |vars| == i && Distinct(vars)
      invariant forall j :: 0 <= j < i ==> fresh(vars[j]) && Describes(ds[j], vars[j])
    {
      var p := new XSqlVar(ds[i].base, ds[i].nullable, ds[i].scale);
      vars := vars + [p];
    }
  }

  ghost predicate Describes(d: Described, p: XSqlVar)
    reads p
  {
    p.base == d.base && p.nullable == d.nullable && p.v == Blank(d)
  }
}
