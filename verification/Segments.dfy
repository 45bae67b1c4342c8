/** What the rewriting means: the text decomposed around its parameters. */
module Segments {
  import opened Text
  import opened SqlGrammar
  import opened SqlSpelling

  // ---- Segments ----

  /** A stretch of pieces without parameters, and the parameter that ends it. */
  datatype Segment = Segment(pieces: seq<Piece>, param: Piece)

  /** The segments of a reading, and the pieces after the last parameter. */
  function Cut(ps: seq<Piece>): (seq<Segment>, seq<Piece>) {
    if ps == [] then ([], [])
    else
      var (segs, tail) := Cut(ps[1..]);
      if ps[0].Param? then ([Segment([], ps[0])] + segs, tail)
      else if segs == [] then ([], [ps[0]] + tail)
      else ([Segment([ps[0]] + segs[0].pieces, segs[0].param)] + segs[1..], tail)
  }

  predicate NoParams(ps: seq<Piece>) {
    forall i :: 0 <= i < |ps| ==> !ps[i].Param?
  }

  predicate IsSegment(seg: Segment) {
    NoParams(seg.pieces) && seg.param.Param?
  }

  /** seg1 mark1 ... segN markN tail */
  function Weave(segs: seq<Segment>, tail: seq<Piece>, mark: Piece -> string): string {
    if segs == [] then SpellAll(tail)
    else SpellAll(segs[0].pieces) + mark(segs[0].param) + Weave(segs[1..], tail, mark)
  }

  function SegmentNames(segs: seq<Segment>): seq<Option<string>>
    requires forall i :: 0 <= i < |segs| ==> segs[i].param.Param?
  {
    if segs == [] then [] else [NameOf(segs[0].param.name)] + SegmentNames(segs[1..])
  }

  const QUESTION: Piece -> string := (p: Piece) => "?"

  lemma {:induction false} WeaveFront(p: Piece, segs: seq<Segment>, tail: seq<Piece>, mark: Piece -> string)
    requires segs != []
    ensures Weave([Segment([p] + segs[0].pieces, segs[0].param)] + segs[1..], tail, mark)
         == Spell(p) + Weave(segs, tail, mark)
  {
    hide Spell;
    var first := Segment([p] + segs[0].pieces, segs[0].param);
    var woven := [first] + segs[1..];
    assert woven[1..] == segs[1..];
    assert ([p] + segs[0].pieces)[1..] == segs[0].pieces;
    var a, b, c := SpellAll(segs[0].pieces), mark(segs[0].param), Weave(segs[1..], tail, mark);
    Assoc(Spell(p), a, b);
    Assoc(Spell(p), a + b, c);
  }

  /** What one of the two weavings of a reading amounts to, piece by piece. */
  ghost predicate Woven(ps: seq<Piece>, mark: Piece -> string, whole: string) {
    Weave(Cut(ps).0, Cut(ps).1, mark) == whole
  }

  lemma WovenMore(ps: seq<Piece>, mark: Piece -> string, rest: string)
    requires ps != [] && Woven(ps[1..], mark, rest)
    ensures Woven(ps, mark, (if ps[0].Param? then mark(ps[0]) else Spell(ps[0])) + rest)
  {
    hide Spell;
    var p := ps[0];
    var (segs', tail') := Cut(ps[1..]);
    var (segs, tail) := Cut(ps);
    if p.Param? {
      assert segs[1..] == segs';
      assert SpellAll([]) + mark(p) == mark(p);
    } else if segs' == [] {
      assert tail[1..] == tail';
    } else {
      WeaveFront(p, segs', tail', mark);
    }
  }

  lemma {:induction false} CutIsSound(ps: seq<Piece>)
    ensures forall i :: 0 <= i < |Cut(ps).0| ==> IsSegment(Cut(ps).0[i])
    ensures NoParams(Cut(ps).1)
  {
    if ps != [] {
      CutIsSound(ps[1..]);
    }
  }

  lemma {:induction false} CutNames(ps: seq<Piece>)
    requires forall i :: 0 <= i < |Cut(ps).0| ==> Cut(ps).0[i].param.Param?
    ensures NamesOf(ps) == SegmentNames(Cut(ps).0)
  {
    if ps != [] {
      var (segs', tail') := Cut(ps[1..]);
      var (segs, tail) := Cut(ps);
      if ps[0].Param? {
        assert segs[1..] == segs';
      } else if segs' != [] {
        assert segs[0].param == segs'[0].param && segs[1..] == segs'[1..];
      }
      CutIsSound(ps[1..]);
      CutNames(ps[1..]);
    }
  }

  /** The rewriting: the text is seg1 param1 ... segN paramN tail, the output is
      seg1 ? ... segN ? tail, and the names are the parameters' names in order.
      Comments, literals and quoted identifiers are pieces, so each lies wholly
      inside a segment or the tail. */
  lemma CutWeaves(ps: seq<Piece>)
    ensures var (segs, tail) := Cut(ps);
      && (forall i :: 0 <= i < |segs| ==> IsSegment(segs[i]))
      && NoParams(tail)
      && SpellAll(ps) == Weave(segs, tail, Spell)
      && RewriteAll(ps) == Weave(segs, tail, QUESTION)
      && NamesOf(ps) == SegmentNames(segs)
  {
    CutIsSound(ps);
    CutNames(ps);
    BothWoven(ps);
  }

  lemma {:induction false} BothWoven(ps: seq<Piece>)
    ensures Woven(ps, Spell, SpellAll(ps)) && Woven(ps, QUESTION, RewriteAll(ps))
  {
    if ps != [] {
      hide Spell, Woven;
      BothWoven(ps[1..]);
      WovenMore(ps, Spell, SpellAll(ps[1..]));
      WovenMore(ps, QUESTION, RewriteAll(ps[1..]));
      assert QUESTION(ps[0]) == "?";
    }
  }

  /** The parameters between the segments are those of the reading, so each name is
      the one spelled there. */
  lemma {:induction false} CutParams(ps: seq<Piece>)
    ensures |ParamsOf(ps)| == |Cut(ps).0|
    ensures forall i :: 0 <= i < |Cut(ps).0| ==> Cut(ps).0[i].param == ParamsOf(ps)[i]
  {
    if ps != [] {
      CutParams(ps[1..]);
    }
  }

  /** In the text seg1 param1 ... segN paramN tail, the i-th name is what follows the
      designator in parami, without its quotes; none if that is empty. */
  lemma SegmentNamesFromText(d: Reading, ps: seq<Piece>)
    requires AllFit(d, ps, "")
    ensures |NamesOf(ps)| == |Cut(ps).0|
    ensures forall i :: 0 <= i < |NamesOf(ps)| ==>
      var name, param := NamesOf(ps)[i], Spell(Cut(ps).0[i].param);
      && |param| > 0 && (param[0] == '?' || param[0] == ':' || param[0] == '@')
      && (name == None <==> param[1..] == "" || param[1..] == "\"\"")
      && (name != None ==> param[1..] == if param[1] == '"' then "\"" + name.value + "\"" else name.value)
  {
    hide Spell, NamesOf, ParamsOf, Cut, AllFit;
    CutParams(ps);
    NamesFromText(d, ps, "");
  }

  /** No two parameters in a row. */
  predicate NoAdjacent(ps: seq<Piece>) {
    |ps| < 2 || (!(ps[0].Param? && ps[1].Param?) && NoAdjacent(ps[1..]))
  }

  lemma {:induction false} SeparatedIsNoAdjacent(ps: seq<Piece>)
    requires forall i :: 1 <= i < |ps| && ps[i].Param? ==> !ps[i - 1].Param?
    ensures NoAdjacent(ps)
  {
    if |ps| >= 2 {
      assert ps[1].Param? ==> !ps[1 - 1].Param?;
      forall i | 1 <= i < |ps[1..]| && ps[1..][i].Param? ensures !ps[1..][i - 1].Param? {
        assert ps[i + 1].Param? ==> !ps[i + 1 - 1].Param?;
      }
      SeparatedIsNoAdjacent(ps[1..]);
    }
  }

  lemma {:induction false} NoEmptySegment(ps: seq<Piece>, i: nat)
    requires NoAdjacent(ps) && i < |Cut(ps).0| && (i > 0 || (ps != [] && !ps[0].Param?))
    ensures Cut(ps).0[i].pieces != []
  {
    var segs' := Cut(ps[1..]).0;
    if ps[0].Param? {
      assert Cut(ps).0[i] == segs'[i - 1];
      NoEmptySegment(ps[1..], i - 1);
    } else if i > 0 {
      assert Cut(ps).0[i] == segs'[i];
      NoEmptySegment(ps[1..], i);
    }
  }

  /** With separated parameters no segment is empty. */
  lemma SegmentsNonempty(ps: seq<Piece>, i: nat)
    requires Separated(ps) && i < |Cut(ps).0|
    ensures Cut(ps).0[i].pieces != []
  {
    SeparatedIsNoAdjacent(ps);
    NoEmptySegment(ps, i);
  }
}
