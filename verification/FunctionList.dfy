/** The list of function names that a database of the test configuration carries:
    names separated by blanks, by a comma, or both. */
module FunctionList {

  predicate IsBlank(c: char) {
    c == ' ' || c == '\t'
  }

  predicate InName(c: char) {
    !IsBlank(c) && c != ','
  }

  function SkipBlanks(s: string, i: nat): (j: nat)
    requires i <= |s|
    ensures i <= j <= |s| && (forall k :: i <= k < j ==> IsBlank(s[k])) && (j < |s| ==> !IsBlank(s[j]))
    decreases |s| - i
  {
    if i < |s| && IsBlank(s[i]) then SkipBlanks(s, i + 1) else i
  }

  function NameEnd(s: string, i: nat): (j: nat)
    requires i <= |s|
    ensures i <= j <= |s| && (forall k :: i <= k < j ==> InName(s[k])) && (j < |s| ==> !InName(s[j]))
    decreases |s| - i
  {
    if i < |s| && InName(s[i]) then NameEnd(s, i + 1) else i
  }

  /** Past the blanks and at most one comma. */
  function PastSeparator(s: string, i: nat): (j: nat)
    requires i <= |s|
    ensures i <= j <= |s|
  {
    var j := SkipBlanks(s, i);
    if j < |s| && s[j] == ',' then j + 1 else j
  }

  /** The names read from position i on, up to the end or the first empty item. */
  function Names(s: string, i: nat): (ns: seq<string>)
    requires i <= |s|
    ensures forall k :: 0 <= k < |ns| ==> ns[k] != ""
    decreases |s| - i
  {
    var start := SkipBlanks(s, i);
    var end := NameEnd(s, start);
    if end == start then [] else [s[start..end]] + Names(s, PastSeparator(s, end))
  }

  /** get_next_token */
  method GetNextToken(s: string, i: nat) returns (found: bool, start: nat, end: nat, next: nat)
    requires i <= |s|
    ensures i <= start <= end <= next <= |s| && (found ==> i < next)
    ensures Names(s, i) == if found then [s[start..end]] + Names(s, next) else []
  {
    next := i;
    while next < |s| && IsBlank(s[next])
      invariant i <= next <= |s| && SkipBlanks(s, next) == SkipBlanks(s, i)
    {
      next := next + 1;
    }
    start, end := next, next;
    if next == |s| {
      return false, start, end, next;
    }
    while next < |s| && InName(s[next])
      invariant start <= next <= |s| && NameEnd(s, next) == NameEnd(s, start)
    {
      next := next + 1;
    }
    end := next;
    while next < |s| && IsBlank(s[next])
      invariant end <= next <= |s| && SkipBlanks(s, next) == SkipBlanks(s, end)
    {
      next := next + 1;
    }
    if next < |s| && s[next] == ',' {
      next := next + 1;
    }
    found := end > start;
  }

  // ---- What a list spells ----

  predicate Blanks(s: string) {
    forall k :: 0 <= k < |s| ==> IsBlank(s[k])
  }

  predicate IsName(s: string) {
    s != "" && forall k :: 0 <= k < |s| ==> InName(s[k])
  }

  /** A name with the blanks around it and, perhaps, the comma after it. */
  datatype Item = Item(before: string, name: string, after: string, comma: bool)

  predicate ItemOk(it: Item) {
    Blanks(it.before) && IsName(it.name) && Blanks(it.after)
  }

  function SpellItem(it: Item): string {
    it.before + it.name + it.after + (if it.comma then "," else "")
  }

  function SpellList(items: seq<Item>): string {
    if items == [] then "" else SpellItem(items[0]) + SpellList(items[1..])
  }

  function NamesOfItems(items: seq<Item>): (ns: seq<string>)
    ensures |ns| == |items| && forall k :: 0 <= k < |items| ==> ns[k] == items[k].name
  {
    if items == [] then [] else [items[0].name] + NamesOfItems(items[1..])
  }

  /** Items that a reader can tell apart: without a comma a blank must separate two
      names. */
  predicate ListOk(items: seq<Item>) {
    forall k :: 0 <= k < |items| ==>
      ItemOk(items[k]) && (k + 1 < |items| && !items[k].comma ==> items[k].after + items[k + 1].before != "")
  }

  /** The text stops the reader here: nothing but blanks, or an empty item. */
  ghost predicate Stops(rest: string) {
    exists n: nat :: n <= |rest| && Blanks(rest[..n]) && (n == |rest| || rest[n] == ',')
  }

  lemma {:induction false} BlanksEnd(s: string, i: nat, j: nat)
    requires i <= j <= |s| && (forall k :: i <= k < j ==> IsBlank(s[k])) && (j < |s| ==> !IsBlank(s[j]))
    ensures forall k: nat :: i <= k <= j ==> SkipBlanks(s, k) == j
    decreases j - i
  {
    if i < j {
      BlanksEnd(s, i + 1, j);
    }
  }

  lemma {:induction false} NothingMore(s: string, i: nat)
    requires i <= |s| && Stops(s[i..])
    ensures Names(s, i) == []
  {
    var rest := s[i..];
    var n: nat :| n <= |rest| && Blanks(rest[..n]) && (n == |rest| || rest[n] == ',');
    assert forall k :: i <= k < i + n ==> s[k] == rest[..n][k - i];
    BlanksEnd(s, i, i + n);
  }

  /** From position i on, the text is this. */
  predicate Rest(s: string, i: nat, text: string) {
    i <= |s| && s[i..] == text
  }

  lemma ItemAt(s: string, i: nat, it: Item, tail: string)
    requires Rest(s, i, SpellItem(it) + tail) && ItemOk(it)
    ensures var start := i + |it.before|;
      var end := start + |it.name|;
      var sep := end + |it.after|;
      && i <= start < end <= sep <= i + |SpellItem(it)| <= |s|
      && s[start..end] == it.name
      && (forall k :: i <= k < start ==> IsBlank(s[k]))
      && (forall k :: start <= k < end ==> InName(s[k]))
      && (forall k :: end <= k < sep ==> IsBlank(s[k]))
      && (if it.comma then i + |SpellItem(it)| == sep + 1 && s[sep] == ',' else i + |SpellItem(it)| == sep)
      && Rest(s, i + |SpellItem(it)|, tail)
  {
    var rest := s[i..];
    var start := |it.before|;
    var end := start + |it.name|;
    assert rest[..start] == it.before;
    assert rest[start..end] == it.name;
    assert rest[end..end + |it.after|] == it.after;
    assert rest[|SpellItem(it)|..] == tail;
    assert forall k :: 0 <= k < |rest| ==> rest[k] == s[i + k];
    forall k | i <= k < i + start ensures IsBlank(s[k]) {
      assert s[k] == it.before[k - i];
    }
    forall k | i + start <= k < i + end ensures InName(s[k]) {
      assert s[k] == it.name[k - i - start];
    }
    forall k | i + end <= k < i + end + |it.after| ensures IsBlank(s[k]) {
      assert s[k] == it.after[k - i - end];
    }
  }

  /** Behind a name that a comma follows. */
  lemma PastComma(s: string, end: nat, sep: nat)
    requires end <= sep < |s| && (forall k :: end <= k < sep ==> IsBlank(s[k])) && s[sep] == ','
    ensures PastSeparator(s, end) == sep + 1 && !InName(s[end])
  {
    BlanksEnd(s, end, sep);
  }

  /** Behind a name that no comma follows. */
  lemma PastBlanks(s: string, end: nat, next: nat, after: string, tail: string)
    requires end + |after| == next <= |s| && (forall k :: end <= k < next ==> IsBlank(s[k]))
    requires Rest(s, next, tail) && StartsApart(after, tail)
    ensures Names(s, PastSeparator(s, end)) == Names(s, next) && (end < |s| ==> !InName(s[end]))
  {
    var n: nat :| n <= |tail| && Blanks(tail[..n])
      && (n == |tail| || (!IsBlank(tail[n]) && tail[n] != ',' && after + tail[..n] != ""));
    assert forall k :: 0 <= k < |tail| ==> tail[k] == s[next + k];
    assert forall k :: next <= k < next + n ==> s[k] == tail[..n][k - next];
    BlanksEnd(s, end, next + n);
    assert PastSeparator(s, end) == next + n;
    assert SkipBlanks(s, next) == SkipBlanks(s, next + n);
  }

  /** Reading one item leaves the reader where the next one begins, or past the
      blanks before it. */
  lemma ReadsItem(s: string, i: nat, it: Item, tail: string)
    requires i <= |s| && Rest(s, i, SpellItem(it) + tail) && ItemOk(it)
    requires !it.comma ==> StartsApart(it.after, tail)
    ensures |SpellItem(it)| + i <= |s| && Rest(s, i + |SpellItem(it)|, tail)
    ensures Names(s, i) == [it.name] + Names(s, i + |SpellItem(it)|)
  {
    hide Rest, StartsApart, ItemOk, SpellItem, PastSeparator, Names, NameEnd, SkipBlanks, IsBlank, InName;
    var start := i + |it.before|;
    var end := start + |it.name|;
    ItemAt(s, i, it, tail);
    if it.comma {
      PastComma(s, end, end + |it.after|);
    } else {
      PastBlanks(s, end, i + |SpellItem(it)|, it.after, tail);
    }
    OneName(s, i, start, end);
  }

  lemma OneName(s: string, i: nat, start: nat, end: nat)
    requires i <= start < end <= |s| && (forall k :: i <= k < start ==> IsBlank(s[k]))
    requires (forall k :: start <= k < end ==> InName(s[k])) && (end < |s| ==> !InName(s[end]))
    ensures Names(s, i) == [s[start..end]] + Names(s, PastSeparator(s, end))
  {
    BlanksEnd(s, i, start);
    assert NameEnd(s, start) == end;
  }

  /** After a name without a comma: the end, or blanks and then no comma. */
  ghost predicate StartsApart(after: string, tail: string) {
    exists n: nat ::
      && n <= |tail| && Blanks(tail[..n])
      && (n == |tail| || (!IsBlank(tail[n]) && tail[n] != ',' && after + tail[..n] != ""))
  }

  ghost predicate EndsList(items: seq<Item>, rest: string) {
    Stops(rest) && (items != [] && !items[|items| - 1].comma ==> Blanks(rest))
  }

  lemma EndsMeansStops(items: seq<Item>, rest: string)
    requires EndsList(items, rest)
    ensures Stops(rest)
  {
  }

  lemma TailOk(items: seq<Item>, rest: string)
    requires items != [] && ListOk(items) && EndsList(items, rest)
    ensures ItemOk(items[0]) && ListOk(items[1..]) && EndsList(items[1..], rest)
  {
  }

  /** The reader finds exactly the names that are spelled, and nothing of what
      stands after an empty item. */
  lemma {:induction false} ReadsList(s: string, i: nat, items: seq<Item>, rest: string)
    requires i <= |s| && s[i..] == SpellList(items) + rest && ListOk(items) && EndsList(items, rest)
    ensures Names(s, i) == NamesOfItems(items)
    decreases |items|
  {
    hide Names, SpellItem, ItemOk, StartsApart, EndsList;
    if items == [] {
      assert Stops(rest) by {
        EndsMeansStops(items, rest);
      }
      assert s[i..] == rest;
      NothingMore(s, i);
    } else {
      var tail := SpellList(items[1..]) + rest;
      assert s[i..] == SpellItem(items[0]) + tail;
      TailOk(items, rest);
      if !items[0].comma {
        Apart(items, rest);
      }
      ReadsItem(s, i, items[0], tail);
      ReadsList(s, i + |SpellItem(items[0])|, items[1..], rest);
    }
  }

  lemma Apart(items: seq<Item>, rest: string)
    requires items != [] && ListOk(items) && EndsList(items, rest) && !items[0].comma
    ensures StartsApart(items[0].after, SpellList(items[1..]) + rest)
  {
    var tail := SpellList(items[1..]) + rest;
    if |items| == 1 {
      assert tail == rest;
      assert tail[..|tail|] == rest;
    } else {
      var it := items[1];
      assert items[1..][0] == it;
      var more := SpellList(items[1..][1..]);
      ItemHead(it, more + rest);
      assert tail == SpellItem(it) + (more + rest);
      assert ItemOk(it) && items[0].after + it.before != "";
      assert Blanks(tail[..|it.before|]);
    }
  }

  lemma ItemHead(it: Item, more: string)
    requires ItemOk(it)
    ensures var text := SpellItem(it) + more;
      |it.before| < |text| && text[..|it.before|] == it.before && InName(text[|it.before|])
  {
    assert (SpellItem(it) + more)[|it.before|] == it.name[0];
  }

  // ---- Lists as they are usually written ----

  /** A name without spaces, tabs and commas. */
  predicate IsPlainName(n: string) {
    n != "" && forall k :: 0 <= k < |n| ==> n[k] != ' ' && n[k] != '\t' && n[k] != ','
  }

  function Joined(names: seq<string>, sep: string): string {
    if names == [] then "" else if |names| == 1 then names[0] else names[0] + sep + Joined(names[1..], sep)
  }

  function ItemsOf(names: seq<string>, after: string, comma: bool): (r: seq<Item>)
    ensures |r| == |names|
    ensures forall k :: 0 <= k < |r| ==>
      r[k] == (if k == |r| - 1 then Item("", names[k], "", false) else Item("", names[k], after, comma))
  {
    if names == [] then []
    else if |names| == 1 then [Item("", names[0], "", false)]
    else [Item("", names[0], after, comma)] + ItemsOf(names[1..], after, comma)
  }

  lemma {:induction false} ItemsSpellJoined(names: seq<string>, after: string, comma: bool)
    ensures SpellList(ItemsOf(names, after, comma)) == Joined(names, after + if comma then "," else "")
  {
    if |names| == 1 {
      assert ItemsOf(names, after, comma)[1..] == [];
      assert SpellItem(Item("", names[0], "", false)) == names[0];
    } else if |names| > 1 {
      ItemsSpellJoined(names[1..], after, comma);
      assert ItemsOf(names, after, comma)[1..] == ItemsOf(names[1..], after, comma);
      assert SpellItem(Item("", names[0], after, comma)) == names[0] + (after + if comma then "," else "");
    }
  }

  /** Names joined by a comma, by a space or by a tab, or by a space and a comma, are
      read back. */
  lemma JoinedNamesAreRead(names: seq<string>, sep: string)
    requires forall k :: 0 <= k < |names| ==> IsPlainName(names[k])
    requires sep == "," || sep == " " || sep == "\t" || sep == " ,"
    ensures Names(Joined(names, sep), 0) == names
  {
    hide Names, Joined;
    if sep == "," {
      assert "," == "" + ",";
      JoinedItemsAreRead(names, "", true);
    } else if sep == " ," {
      assert " ," == " " + ",";
      JoinedItemsAreRead(names, " ", true);
    } else {
      assert sep == sep + "";
      JoinedItemsAreRead(names, sep, false);
    }
  }

  lemma NothingStops()
    ensures Stops("") && Blanks("")
  {
    assert Blanks(""[..0]);
  }

  lemma JoinedItemsAreRead(names: seq<string>, after: string, comma: bool)
    requires forall k :: 0 <= k < |names| ==> IsPlainName(names[k])
    requires (after == "" && comma) || after == " " || after == "\t"
    ensures Names(Joined(names, after + if comma then "," else ""), 0) == names
  {
    hide Names, SpellList, Joined, ListOk, Stops, Blanks, IsPlainName;
    var items := ItemsOf(names, after, comma);
    var text := Joined(names, after + if comma then "," else "");
    ItemsSpellJoined(names, after, comma);
    PlainItemsOk(names, after, comma);
    NothingStops();
    assert text[0..] == SpellList(items) + "";
    ReadsList(text, 0, items, "");
    assert NamesOfItems(items) == names;
  }

  lemma PlainItemsOk(names: seq<string>, after: string, comma: bool)
    requires forall k :: 0 <= k < |names| ==> IsPlainName(names[k])
    requires after == "" || after == " " || after == "\t"
    requires !comma ==> after != ""
    ensures ListOk(ItemsOf(names, after, comma))
  {
    var items := ItemsOf(names, after, comma);
    forall k | 0 <= k < |items| ensures ItemOk(items[k]) {
      assert IsPlainName(names[k]);
    }
  }
}
