/** Parameters that share a name: which positions bear it, in which order the
    chains list them, and when their types may be mixed. */
module NameChains {
  import opened Text

  type Names = seq<Option<string>>

  predicate Bears(names: Names, i: nat, n: string)
    requires i < |names|
  {
    names[i] == Some(n)
  }

  /** The last position before k that bears the name, or -1. */
  function LastBefore(names: Names, n: string, k: nat): (j: int)
    requires k <= |names|
    ensures -1 <= j < k
    ensures j >= 0 ==> Bears(names, j, n)
    ensures forall i :: j < i < k ==> !Bears(names, i, n)
  {
    if k == 0 then -1 else if Bears(names, k - 1, n) then k - 1 else LastBefore(names, n, k - 1)
  }

  /** The chain of a name: its positions before k, from the last one down. */
  function Chain(names: Names, n: string, k: nat): seq<nat>
    requires k <= |names|
  {
    var j := LastBefore(names, n, k);
    if j < 0 then [] else [j] + Chain(names, n, j)
  }

  predicate StrictlyDecreasing(s: seq<nat>) {
    forall i, j :: 0 <= i < j < |s| ==> s[i] > s[j]
  }

  /** A chain is strictly decreasing, hence acyclic, and lists exactly the
      positions that bear its name; so the chains of two names are disjoint. */
  lemma {:induction false} ChainListsExactly(names: Names, n: string, k: nat)
    requires k <= |names|
    ensures StrictlyDecreasing(Chain(names, n, k))
    ensures forall i: nat :: i in Chain(names, n, k) <==> i < k && Bears(names, i, n)
    decreases k
  {
    var j := LastBefore(names, n, k);
    if j >= 0 {
      ChainListsExactly(names, n, j);
      assert forall i :: 0 <= i < |Chain(names, n, j)| ==> Chain(names, n, j)[i] in Chain(names, n, j);
    }
  }

  // ---- Types ----

  datatype SqlBase =
    | SqlText | SqlVarying
    | SqlShort | SqlLong | SqlInt64 | SqlFloat | SqlDouble | SqlDFloat
    | SqlTimestamp | SqlTime | SqlDate
    | SqlOther(code: int)

  predicate IsNumeric(t: SqlBase) {
    t.SqlShort? || t.SqlLong? || t.SqlInt64? || t.SqlFloat? || t.SqlDouble? || t.SqlDFloat?
  }

  /** AreCompatibleTypes */
  predicate Compatible(t1: SqlBase, t2: SqlBase) {
    match t1
    case SqlText => t2.SqlText? || t2.SqlVarying?
    case SqlVarying => t2.SqlText? || t2.SqlVarying?
    case SqlTimestamp => t2.SqlTimestamp? || t2.SqlTime? || t2.SqlDate?
    case SqlTime => t2.SqlTimestamp? || t2.SqlTime? || t2.SqlDate?
    case SqlDate => t2.SqlTimestamp? || t2.SqlTime? || t2.SqlDate?
    case SqlOther(_) => false
    case _ => IsNumeric(t2)
  }

  datatype TypeClass = Texts | Numbers | Times | Others

  function ClassOf(t: SqlBase): TypeClass {
    match t
    case SqlText => Texts
    case SqlVarying => Texts
    case SqlTimestamp => Times
    case SqlTime => Times
    case SqlDate => Times
    case SqlOther(_) => Others
    case _ => Numbers
  }

  /** Two types are compatible exactly if they belong to the same class, other types
      to none. So compatibility is symmetric and transitive, but not reflexive. */
  lemma CompatibleIffSameClass(t1: SqlBase, t2: SqlBase)
    ensures Compatible(t1, t2) <==> ClassOf(t1) == ClassOf(t2) && !ClassOf(t1).Others?
    ensures IsNumeric(t1) <==> ClassOf(t1).Numbers?
  {
  }

  /** The classes, written out. */
  lemma CompatibleTypes(t1: SqlBase, t2: SqlBase)
    ensures Compatible(t1, t2) <==>
      || {t1, t2} <= {SqlText, SqlVarying}
      || {t1, t2} <= {SqlShort, SqlLong, SqlInt64, SqlFloat, SqlDouble, SqlDFloat}
      || {t1, t2} <= {SqlTimestamp, SqlTime, SqlDate}
    ensures IsNumeric(t1) <==> t1 in {SqlShort, SqlLong, SqlInt64, SqlFloat, SqlDouble, SqlDFloat}
  {
    assert t1 in {t1, t2} && t2 in {t1, t2};
  }

  /** Any two of the first k positions that share a name have compatible types. */
  predicate SharedTypesAgree(names: Names, types: seq<SqlBase>, k: nat)
    requires k <= |names| == |types|
  {
    forall i, j :: 0 <= i < j < k && names[i].Some? && names[i].value != "" && names[i] == names[j] ==>
      Compatible(types[i], types[j])
  }

  /** It is enough to compare each position with the last one before it that has
      the same name. */
  lemma NeighboursSuffice(names: Names, types: seq<SqlBase>, k: nat)
    requires k < |names| == |types| && SharedTypesAgree(names, types, k)
    requires names[k].Some? && names[k].value != ""
    ensures var j := LastBefore(names, names[k].value, k);
      SharedTypesAgree(names, types, k + 1) <==> j < 0 || Compatible(types[j], types[k])
  {
    var n := names[k].value;
    var j := LastBefore(names, n, k);
    if j >= 0 && Compatible(types[j], types[k]) {
      forall i | 0 <= i < k && names[i] == names[k] ensures Compatible(types[i], types[k]) {
        assert Bears(names, i, n);
        if i != j {
          CompatibleIffSameClass(types[i], types[j]);
          CompatibleIffSameClass(types[j], types[k]);
          CompatibleIffSameClass(types[i], types[k]);
        }
      }
    }
    assert forall i :: 0 <= i < k && names[i] == names[k] ==> Bears(names, i, n);
  }
}
