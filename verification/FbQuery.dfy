/** Looking up a column of a query by its name: the cache of names against a scan of
    the columns, within one statement and over several. */
module FbQueryModule {
  import opened Text
  import opened FieldOrder

  /** The last column whose alias is the name, ignoring case, or -1. */
  function LastColumn(aliases: seq<string>, name: string): (i: int)
    ensures -1 <= i < |aliases|
    ensures i >= 0 ==> SameIgnoringCase(aliases[i], name)
    ensures forall k :: i < k < |aliases| ==> !SameIgnoringCase(aliases[k], name)
  {
    if aliases == [] then -1
    else if SameIgnoringCase(aliases[|aliases| - 1], name) then |aliases| - 1
    else LastColumn(aliases[..|aliases| - 1], name)
  }

  /** The cache answers for these columns. */
  ghost predicate Caches(es: seq<Entry>, aliases: seq<string>) {
    && Sorted(es)
    && (forall name :: Find(es, name) == Answer(aliases, name))
    && (es == [] <==> aliases == [])
  }

  function Answer(aliases: seq<string>, name: string): Option<int> {
    var i := LastColumn(aliases, name);
    if i < 0 then None else Some(i)
  }

  lemma CacheOneMore(es: seq<Entry>, aliases: seq<string>, alias: string)
    requires Caches(es, aliases)
    ensures Caches(Assign(es, alias, |aliases|), aliases + [alias])
  {
    var r := Assign(es, alias, |aliases|);
    var all := aliases + [alias];
    AssignKeepsOrder(es, alias, |aliases|);
    assert all[..|aliases|] == aliases;
    forall name ensures Find(r, name) == Answer(all, name) {
      FindAfterAssign(es, alias, |aliases|, name);
    }
  }

  /** IFBQuery, as far as columns and their names go. */
  class FbQuery {
    var prepared: bool
    var outMeta: Option<seq<string>>
    var fieldNames: seq<Entry>
    /** The columns from which the cache was filled. */
    ghost var cachedFrom: seq<string>

    ghost predicate Valid()
      reads this
    {
      Caches(fieldNames, cachedFrom)
    }

    /** The cache is empty or was filled from the current columns: so it is from the
        first prepare to the next close, see the contracts below. */
    ghost predicate Agrees()
      reads this
    {
      outMeta == None || cachedFrom == [] || outMeta == Some(cachedFrom)
    }

    constructor ()
      ensures Valid() && !prepared && outMeta == None && cachedFrom == []
    {
      prepared, outMeta, fieldNames, cachedFrom := false, None, [], [];
    }

    /** prepare; `columns` is what the database answers: None if it returns no
        statement. `thrown` is the exception for a query that is already prepared. */
    method Prepare(columns: Option<seq<string>>) returns (ok: bool, thrown: bool)
      requires Valid()
      modifies this`prepared, this`outMeta
      ensures Valid() && thrown == old(prepared)
      ensures ok == (!thrown && columns.Some?)
      ensures prepared == (old(prepared) || ok)
      ensures outMeta == if ok then columns else old(outMeta)
      ensures old(cachedFrom) == [] ==> Agrees()
    {
      if prepared {
        return false, true;
      }
      if columns.None? {
        return false, false;
      }
      prepared, outMeta := true, columns;
      return true, false;
    }

    /** close; the cache is left as it is. */
    method Close()
      requires Valid()
      modifies this`prepared, this`outMeta
      ensures Valid() && !prepared && outMeta == None
    {
      outMeta, prepared := None, false;
    }

    /** fieldIdxByName: the answer of a scan, but of the columns from which the cache
        was filled, and these are the current ones only if it was empty. */
    method FieldIdxByName(name: string) returns (idx: int)
      requires Valid()
      modifies this`fieldNames, this`cachedFrom
      ensures Valid()
      ensures outMeta == None ==> idx == -1 && cachedFrom == old(cachedFrom)
      ensures outMeta != None ==>
        && cachedFrom == (if old(cachedFrom) == [] then outMeta.value else old(cachedFrom))
        && idx == LastColumn(cachedFrom, name)
      ensures old(Agrees()) ==> Agrees() && idx == if outMeta.None? then -1 else LastColumn(outMeta.value, name)
    {
      if outMeta.None? {
        return -1;
      }
      hide Find, Sorted, Assign, LastColumn;
      if fieldNames == [] {
        assert outMeta.value[..0] == cachedFrom;
        for i := 0 to |outMeta.value|
          invariant Caches(fieldNames, outMeta.value[..i])
        {
          CacheOneMore(fieldNames, outMeta.value[..i], outMeta.value[i]);
          assert outMeta.value[..i] + [outMeta.value[i]] == outMeta.value[..i + 1];
          fieldNames := Assign(fieldNames, outMeta.value[i], i);
        }
        assert outMeta.value[..|outMeta.value|] == outMeta.value;
        cachedFrom := outMeta.value;
      }
      var found := Find(fieldNames, name);
      idx := if found.Some? then found.value else -1;
    }
  }

  // ---- When a stale cache is right ----

  /** Column k is the last one of its name. */
  predicate LastOfName(aliases: seq<string>, k: nat) {
    k < |aliases| && forall i :: k < i < |aliases| ==> !SameIgnoringCase(aliases[i], aliases[k])
  }

  /** Column k is the last one of its name in both lists, and has the same name,
      ignoring case, in both; or it is not the last one in either. */
  predicate SameAt(cached: seq<string>, current: seq<string>, k: nat) {
    && LastOfName(cached, k) == LastOfName(current, k)
    && (LastOfName(cached, k) ==> SameIgnoringCase(cached[k], current[k]))
  }

  /** The two lists have the same names, ignoring case, and each name has its last
      column at the same place. */
  ghost predicate SameLastColumns(cached: seq<string>, current: seq<string>) {
    forall k: nat :: SameAt(cached, current, k)
  }

  ghost predicate SameScans(cached: seq<string>, current: seq<string>) {
    forall name :: LastColumn(cached, name) == LastColumn(current, name)
  }

  lemma LastIsFound(aliases: seq<string>, k: nat, name: string)
    requires LastOfName(aliases, k) && SameIgnoringCase(aliases[k], name)
    ensures LastColumn(aliases, name) == k
  {
  }

  lemma LastColumnIsLast(aliases: seq<string>, name: string)
    ensures var k := LastColumn(aliases, name);
      k >= 0 ==> LastOfName(aliases, k) && SameIgnoringCase(aliases[k], name)
  {
  }

  lemma SameColumnsSameScan(cached: seq<string>, current: seq<string>, name: string)
    requires SameLastColumns(cached, current)
    ensures LastColumn(cached, name) == LastColumn(current, name)
  {
    hide LastColumn, LastOfName;
    var i, j := LastColumn(cached, name), LastColumn(current, name);
    LastColumnIsLast(cached, name);
    LastColumnIsLast(current, name);
    if i >= 0 {
      assert SameAt(cached, current, i);
      LastIsFound(current, i, name);
    } else if j >= 0 {
      assert SameAt(cached, current, j);
      LastIsFound(cached, j, name);
    }
  }

  lemma SameScansSameColumn(cached: seq<string>, current: seq<string>, k: nat)
    requires SameScans(cached, current)
    ensures SameAt(cached, current, k)
  {
    hide LastColumn;
    if LastOfName(cached, k) {
      LastIsFound(cached, k, cached[k]);
      LastColumnIsLast(current, cached[k]);
    }
    if LastOfName(current, k) {
      LastIsFound(current, k, current[k]);
      LastColumnIsLast(cached, current[k]);
    }
  }

  /** Of two lists of columns the one answers for the other, for every name there
      is, exactly if they have the same last columns. */
  lemma StaleIsRightIff(cached: seq<string>, current: seq<string>)
    ensures SameScans(cached, current) <==> SameLastColumns(cached, current)
  {
    if SameLastColumns(cached, current) {
      forall name ensures LastColumn(cached, name) == LastColumn(current, name) {
        SameColumnsSameScan(cached, current, name);
      }
    }
    if SameScans(cached, current) {
      forall k: nat ensures SameAt(cached, current, k) {
        SameScansSameColumn(cached, current, k);
      }
    }
  }

  /** It is not always right: after a statement with one column A, a statement with
      columns B and A answers 0 for A, and -1 for B. */
  method StaleExample() returns (a: int, b: int)
    ensures a == 0 != LastColumn(["B", "A"], "A")
    ensures b == -1 != LastColumn(["B", "A"], "B")
  {
    Scans();
    var q := new FbQuery();
    var ok, thrown := q.Prepare(Some(["A"]));
    a := q.FieldIdxByName("A");
    q.Close();
    ok, thrown := q.Prepare(Some(["B", "A"]));
    a := q.FieldIdxByName("A");
    b := q.FieldIdxByName("B");
  }

  lemma Scans()
    ensures LastColumn(["A"], "A") == 0 && LastColumn(["A"], "B") == -1
    ensures LastColumn(["B", "A"], "A") == 1 && LastColumn(["B", "A"], "B") == 0
  {
    assert Lower("A") == "a" && Lower("B") == "b";
    assert ["A"][..0] == [];
    assert ["B", "A"][..1] == ["B"];
  }
}
