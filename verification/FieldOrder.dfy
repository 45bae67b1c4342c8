/** The order of field names that ignores case, and an association kept in that
    order: what std::map does with it, through nothing but the comparison. */
module FieldOrder {
  import opened Text

  /** CaseInsensitiveLess: lexicographic, character by character after tolower. */
  predicate Less(a: string, b: string) {
    if b == [] then false
    else if a == [] then true
    else if LowerChar(a[0]) < LowerChar(b[0]) then true
    else if LowerChar(b[0]) < LowerChar(a[0]) then false
    else Less(a[1..], b[1..])
  }

  lemma LowerTail(s: string)
    requires s != []
    ensures Lower(s) == [LowerChar(s[0])] + Lower(s[1..])
  {
  }

  lemma LowerParts(a: string, b: string)
    requires a != [] && b != []
    ensures SameIgnoringCase(a, b) <==> LowerChar(a[0]) == LowerChar(b[0]) && SameIgnoringCase(a[1..], b[1..])
  {
    LowerTail(a);
    LowerTail(b);
    var x, y := Lower(a), Lower(b);
    assert x[1..] == Lower(a[1..]) && y[1..] == Lower(b[1..]);
  }

  /** Exactly one holds: the first is less, the second is less, or the two are equal
      after lower-casing. So the order's equivalence is equality ignoring case. */
  lemma {:induction false} Trichotomy(a: string, b: string)
    ensures Less(a, b) ==> !Less(b, a) && !SameIgnoringCase(a, b)
    ensures !Less(a, b) && !Less(b, a) <==> SameIgnoringCase(a, b)
  {
    if a != [] && b != [] {
      LowerParts(a, b);
      Trichotomy(a[1..], b[1..]);
    } else {
      assert |Lower(a)| == |a| && |Lower(b)| == |b|;
    }
  }

  lemma {:induction false} LessIsTransitive(a: string, b: string, c: string)
    requires Less(a, b) && Less(b, c)
    ensures Less(a, c)
  {
    if a != [] && LowerChar(a[0]) == LowerChar(b[0]) == LowerChar(c[0]) {
      LessIsTransitive(a[1..], b[1..], c[1..]);
    }
  }

  /** Less is a strict weak order. */
  lemma StrictWeakOrder(a: string, b: string, c: string)
    ensures !Less(a, a)
    ensures Less(a, b) && Less(b, c) ==> Less(a, c)
    ensures !Less(a, b) && !Less(b, a) && !Less(b, c) && !Less(c, b) ==> !Less(a, c) && !Less(c, a)
    ensures Less(a, b) && SameIgnoringCase(b, c) ==> Less(a, c)
    ensures SameIgnoringCase(a, b) && Less(b, c) ==> Less(a, c)
  {
    Trichotomy(a, a);
    Trichotomy(a, b);
    Trichotomy(b, c);
    Trichotomy(a, c);
    if Less(a, b) && Less(b, c) {
      LessIsTransitive(a, b, c);
    }
    if Less(a, b) && SameIgnoringCase(b, c) && Less(c, a) {
      LessIsTransitive(c, a, b);
    }
    if SameIgnoringCase(a, b) && Less(b, c) && Less(c, a) {
      LessIsTransitive(b, c, a);
    }
  }

  // ---- The ordered association ----

  datatype Entry = Entry(key: string, value: int)

  predicate Sorted(es: seq<Entry>) {
    forall i, j :: 0 <= i < j < |es| ==> Less(es[i].key, es[j].key)
  }

  /** The first entry whose key is not less than the given one. */
  function LowerBound(es: seq<Entry>, key: string): (i: nat)
    ensures i <= |es|
    ensures forall k :: 0 <= k < i ==> Less(es[k].key, key)
    ensures i < |es| ==> !Less(es[i].key, key)
  {
    if es == [] || !Less(es[0].key, key) then 0 else 1 + LowerBound(es[1..], key)
  }

  predicate Hits(es: seq<Entry>, key: string) {
    var i := LowerBound(es, key);
    i < |es| && !Less(key, es[i].key)
  }

  /** at */
  function Find(es: seq<Entry>, key: string): Option<int> {
    if Hits(es, key) then Some(es[LowerBound(es, key)].value) else None
  }

  /** operator[] and the assignment to what it returns: an equivalent key stays. */
  function Assign(es: seq<Entry>, key: string, value: int): seq<Entry> {
    var i := LowerBound(es, key);
    if Hits(es, key) then es[i := Entry(es[i].key, value)]
    else es[..i] + [Entry(key, value)] + es[i..]
  }

  /** What is found is the value of the only entry whose key matches ignoring case. */
  lemma FindsTheMatch(es: seq<Entry>, key: string)
    requires Sorted(es)
    ensures Hits(es, key) ==> SameIgnoringCase(es[LowerBound(es, key)].key, key)
    ensures forall k :: 0 <= k < |es| && SameIgnoringCase(es[k].key, key) ==> Hits(es, key) && k == LowerBound(es, key)
  {
    var i := LowerBound(es, key);
    if i < |es| {
      Trichotomy(es[i].key, key);
    }
    forall k | 0 <= k < |es| && SameIgnoringCase(es[k].key, key) ensures Hits(es, key) && k == i {
      Trichotomy(es[k].key, key);
      if i < k {
        StrictWeakOrder(es[i].key, es[k].key, key);
        assert false;
      }
    }
  }

  lemma AssignKeepsOrder(es: seq<Entry>, key: string, value: int)
    requires Sorted(es)
    ensures Sorted(Assign(es, key, value))
  {
    var i := LowerBound(es, key);
    var r := Assign(es, key, value);
    if !Hits(es, key) {
      forall k | i <= k < |es| ensures Less(key, es[k].key) {
        if i < k {
          LessIsTransitive(key, es[i].key, es[k].key);
        }
      }
    }
  }

  /** Which entry is which after an assignment: those before the place of the key
      stay, those after it stay or move up by one. */
  predicate Placed(es: seq<Entry>, r: seq<Entry>, i: nat, replaced: bool) {
    && i < |r| && i <= |es| && |r| == |es| + (if replaced then 0 else 1)
    && (forall j :: 0 <= j < i ==> r[j] == es[j])
    && (forall j :: i < j < |r| ==> r[j] == es[if replaced then j else j - 1])
  }

  lemma PlacedByReplacing(es: seq<Entry>, i: nat, x: Entry)
    requires i < |es|
    ensures Placed(es, es[i := x], i, true)
  {
  }

  lemma PlacedByInserting(es: seq<Entry>, i: nat, x: Entry)
    requires i <= |es|
    ensures Placed(es, es[..i] + [x] + es[i..], i, false) && (es[..i] + [x] + es[i..])[i] == x
  {
  }

  lemma AssignedEntries(es: seq<Entry>, key: string, value: int)
    requires Sorted(es)
    ensures var r, i := Assign(es, key, value), LowerBound(es, key);
      && Placed(es, r, i, Hits(es, key)) && i < |r| && SameIgnoringCase(r[i].key, key) && r[i].value == value
      && (Hits(es, key) ==> i < |es| && SameIgnoringCase(es[i].key, key))
  {
    hide Sorted, Less, LowerBound, Lower, Placed;
    var i := LowerBound(es, key);
    FindsTheMatch(es, key);
    if Hits(es, key) {
      PlacedByReplacing(es, i, Entry(es[i].key, value));
    } else {
      PlacedByInserting(es, i, Entry(key, value));
    }
  }

  /** An entry that matches is what is found. */
  lemma FoundBy(es: seq<Entry>, k: nat, name: string)
    requires Sorted(es) && k < |es| && SameIgnoringCase(es[k].key, name)
    ensures Find(es, name) == Some(es[k].value)
  {
    FindsTheMatch(es, name);
  }

  lemma NotFoundBy(es: seq<Entry>, name: string)
    requires Sorted(es) && forall k :: 0 <= k < |es| ==> !SameIgnoringCase(es[k].key, name)
    ensures Find(es, name) == None
  {
    FindsTheMatch(es, name);
  }

  /** A name other than the key matches an entry after the assignment exactly if it
      matched one before, and that one is found. */
  lemma OtherNames(es: seq<Entry>, r: seq<Entry>, i: nat, replaced: bool, name: string)
    requires Sorted(es) && Sorted(r) && Placed(es, r, i, replaced) && !SameIgnoringCase(r[i].key, name)
    requires replaced ==> !SameIgnoringCase(es[i].key, name)
    ensures Find(r, name) == Find(es, name)
  {
    hide Sorted, Find, LowerBound, Hits, SameIgnoringCase;
    if k: nat :| k < |r| && SameIgnoringCase(r[k].key, name) {
      FoundBy(r, k, name);
      FoundBy(es, if replaced || k < i then k else k - 1, name);
    } else {
      NotFoundBy(r, name);
      forall j | 0 <= j < |es| ensures !SameIgnoringCase(es[j].key, name) {
        if !(replaced && j == i) {
          assert es[j] == r[if replaced || j < i then j else j + 1];
        }
      }
      NotFoundBy(es, name);
    }
  }

  /** Assigning changes what is found for the names that match, and for no other. */
  lemma FindAfterAssign(es: seq<Entry>, key: string, value: int, name: string)
    requires Sorted(es)
    ensures Find(Assign(es, key, value), name) == if SameIgnoringCase(key, name) then Some(value) else Find(es, name)
  {
    hide Sorted, Assign, Find, LowerBound, Hits, Placed;
    var r := Assign(es, key, value);
    var i := LowerBound(es, key);
    AssignKeepsOrder(es, key, value);
    AssignedEntries(es, key, value);
    PlacedBounds(es, r, i, Hits(es, key));
    if SameIgnoringCase(key, name) {
      FoundBy(r, i, name);
    } else {
      OtherNames(es, r, i, Hits(es, key), name);
    }
  }

  lemma PlacedBounds(es: seq<Entry>, r: seq<Entry>, i: nat, replaced: bool)
    requires Placed(es, r, i, replaced)
    ensures i < |r| && (replaced ==> i < |es|)
  {
  }
}
