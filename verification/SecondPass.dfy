/** What a second pass over the preprocessor's own output does, and when the
    comments it recognises are the comments of SQL. */
module SecondPass {
  import opened Text
  import opened SqlGrammar
  import opened SqlOutcome
  import opened Segments

  const MARK := Param('?', Anonymous)

  lemma MarkSpelling()
    ensures Spell(MARK) == "?" && Rewrite(MARK) == "?"
  {
    assert ['?'] + "" == "?";
  }

  /** Every parameter replaced by a bare question mark. */
  function Anonymized(ps: seq<Piece>): seq<Piece> {
    if ps == [] then []
    else [if ps[0].Param? then MARK else ps[0]] + Anonymized(ps[1..])
  }

  lemma {:induction false} AnonymizedShape(ps: seq<Piece>)
    ensures |Anonymized(ps)| == |ps|
    ensures forall i :: 0 <= i < |ps| ==> Anonymized(ps)[i].Param? == ps[i].Param?
    ensures SpellAll(Anonymized(ps)) == RewriteAll(ps) == RewriteAll(Anonymized(ps))
    ensures |NamesOf(Anonymized(ps))| == |NamesOf(ps)|
    ensures AllAnonymous(NamesOf(Anonymized(ps)))
  {
    if ps != [] {
      AnonymizedShape(ps[1..]);
      MarkSpelling();
      hide Spell;
      assert Anonymized(ps)[1..] == Anonymized(ps[1..]);
    }
  }

  predicate AllAnonymous(names: seq<Option<string>>) {
    forall i :: 0 <= i < |names| ==> names[i] == None
  }

  /** What follows a parameter does not attach to a question mark in its place:
      no quote after an identifier name, no name character after a quoted one. */
  predicate Detached(p: Piece, after: string) {
    p.Param? ==>
      && (p.name.Ident? ==> !StartsWith(after, '"'))
      && (p.name.Quoted? ==> after == "" || !NameChar(after[0]))
  }

  predicate AllDetached(ps: seq<Piece>) {
    ps == [] || (Detached(ps[0], SpellAll(ps[1..])) && AllDetached(ps[1..]))
  }

  // ---- The text after a piece, before and after the rewriting ----

  /** The two begin alike, up to the designator of a parameter. */
  predicate Alike(after: string, after': string) {
    if after == "" then after' == ""
    else after' != "" && (after[0] == after'[0] || (Designator(after[0]) && after'[0] == '?'))
  }

  lemma RewritingIsAlike(d: Reading, ps: seq<Piece>)
    requires AllFit(d, ps, "")
    ensures Alike(SpellAll(ps), RewriteAll(ps))
    ensures ps != [] && !ps[0].Param? ==> RewriteAll(ps) != "" && SpellAll(ps)[0] == RewriteAll(ps)[0]
    ensures ps == [] ==> SpellAll(ps) == "" == RewriteAll(ps)
  {
    if ps != [] {
      assert Fits(d, ps[0], SpellAll(ps[1..]) + "");
      assert SpellAll(ps)[0] == Spell(ps[0])[0];
      assert RewriteAll(ps)[0] == Rewrite(ps[0])[0];
    }
  }

  /** Whether a piece other than a parameter fits does not depend on the rest
      beyond that. */
  lemma FitsAlike(d: Reading, p: Piece, after: string, after': string)
    requires !p.Param? && Alike(after, after')
    ensures Fits(d, p, after) <==> Fits(d, p, after')
  {
    hide Paired, NoCommentEnd;
  }

  /** A bare question mark fits where a parameter did exactly if what follows the
      parameter does not attach to it. */
  lemma MarkFits(d: Reading, p: Piece, after: string, after': string)
    requires p.Param? && Fits(d, p, after)
    requires (after == "" <==> after' == "") && (after != "" ==> after[0] == after'[0])
    ensures Fits(d, MARK, after') <==> Detached(p, after)
  {
    hide Paired;
  }

  lemma HeadKept(d: Reading, ps: seq<Piece>)
    requires ps != [] && AllFit(d, ps, "") && NoAdjacent(ps)
    ensures var after, after' := SpellAll(ps[1..]), RewriteAll(ps[1..]);
      && Fits(d, ps[0], after) && AllFit(d, ps[1..], "") && Alike(after, after')
      && (ps[0].Param? ==> (after == "" <==> after' == "") && (after != "" ==> after[0] == after'[0]))
  {
    hide Fits;
    assert SpellAll(ps[1..]) + "" == SpellAll(ps[1..]);
    RewritingIsAlike(d, ps[1..]);
  }

  lemma {:induction false} AnonymizedFits(d: Reading, ps: seq<Piece>)
    requires AllFit(d, ps, "") && NoAdjacent(ps) && AllDetached(ps)
    ensures AllFit(d, Anonymized(ps), "")
  {
    if ps != [] {
      HeadKept(d, ps);
      var after, after' := SpellAll(ps[1..]), RewriteAll(ps[1..]);
      var qs := Anonymized(ps);
      AnonymizedShape(ps[1..]);
      AnonymizedFits(d, ps[1..]);
      assert qs[1..] == Anonymized(ps[1..]) && after' + "" == after';
      if ps[0].Param? {
        MarkFits(d, ps[0], after, after');
      } else {
        FitsAlike(d, ps[0], after, after');
      }
    }
  }

  // ---- The second pass ----

  /** A second pass succeeds, changes nothing, and finds only anonymous parameters. */
  ghost predicate SecondPassIsIdle(d: Reading, out: string, qs: seq<Piece>) {
    Succeeds(d, qs, out) && RewriteAll(qs) == out && AllAnonymous(NamesOf(qs))
  }

  lemma SecondPassOfDetached(d: Reading, ps: seq<Piece>, text: string)
    requires Succeeds(d, ps, text) && AllDetached(ps)
    ensures SecondPassIsIdle(d, RewriteAll(ps), Anonymized(ps))
    ensures |NamesOf(Anonymized(ps))| == |NamesOf(ps)|
  {
    assert SpellAll(ps) + "" == SpellAll(ps);
    SeparatedIsNoAdjacent(ps);
    AnonymizedShape(ps);
    AnonymizedFits(d, ps);
    var qs := Anonymized(ps);
    assert SpellAll(qs) + "" == SpellAll(qs);
    assert ps != [] && !ps[0].Param?;
    RewritingIsAlike(d, ps);
    forall i | 0 <= i < |qs| && qs[i].Param? ensures i > 0 && !qs[i - 1].Param? {
      assert ps[i].Param?;
    }
  }

  lemma {:induction false} RewritingIsShorter(d: Reading, qs: seq<Piece>)
    requires AllFit(d, qs, "")
    ensures |RewriteAll(qs)| <= |SpellAll(qs)|
    ensures |RewriteAll(qs)| == |SpellAll(qs)| ==>
      forall i :: 0 <= i < |qs| && qs[i].Param? ==> qs[i] == MARK
  {
    if qs != [] {
      RewritingIsShorter(d, qs[1..]);
      assert |Spell(qs[0])| == |Rewrite(qs[0])| && qs[0].Param? ==> qs[0] == MARK by {
        assert Fits(d, qs[0], SpellAll(qs[1..]) + "");
        assert |Spell(qs[0])| >= 1;
      }
      forall i | 0 <= i < |qs| && qs[i].Param? && |RewriteAll(qs)| == |SpellAll(qs)| ensures qs[i] == MARK {
        if i > 0 {
          assert qs[i] == qs[1..][i - 1];
        }
      }
    }
  }

  /** A reading of the output in which every parameter is a bare question mark
      shows that nothing attached to one. */
  lemma {:induction false} IdleMeansDetached(d: Reading, ps: seq<Piece>, qs: seq<Piece>)
    requires AllFit(d, ps, "") && NoAdjacent(ps)
    requires AllFit(d, qs, "") && SpellAll(qs) == RewriteAll(ps)
    requires forall i :: 0 <= i < |qs| && qs[i].Param? ==> qs[i] == MARK
    ensures AllDetached(ps)
  {
    if ps != [] {
      HeadKept(d, ps);
      var after, after' := SpellAll(ps[1..]), RewriteAll(ps[1..]);
      RewritingIsAlike(d, ps);
      assert qs != [];
      var rest := SpellAll(qs[1..]);
      assert rest + "" == rest && Fits(d, qs[0], rest) && AllFit(d, qs[1..], "");
      SameHead(d, ps[0], after, after', qs[0], rest);
      forall i | 0 <= i < |qs[1..]| && qs[1..][i].Param? ensures qs[1..][i] == MARK {
        assert qs[i + 1] == qs[1..][i];
      }
      IdleMeansDetached(d, ps[1..], qs[1..]);
    }
  }

  lemma SameHead(d: Reading, p: Piece, after: string, after': string, q: Piece, rest: string)
    requires Fits(d, p, after) && Fits(d, q, rest) && Rewrite(p) + after' == Spell(q) + rest
    requires q.Param? ==> q == MARK
    requires Alike(after, after')
    requires p.Param? ==> (after == "" <==> after' == "") && (after != "" ==> after[0] == after'[0])
    ensures rest == after' && Detached(p, after)
  {
    MarkSpelling();
    if p.Param? {
      assert (Spell(q) + rest)[0] == '?' == Spell(q)[0];
      assert q == MARK;
      CancelLeft("?", after', "?", rest);
      MarkFits(d, p, after, after');
    } else {
      FitsAlike(d, p, after, after');
      FirstPieceUnique(d, p, after', q, rest);
    }
  }

  /** The second pass, exactly: it succeeds, returns its input unchanged and finds
      only anonymous parameters if and only if in the first text no identifier name
      is directly followed by a double quote and no quoted name by a name character. */
  lemma SecondPassIdleIff(d: Reading, ps: seq<Piece>, text: string)
    requires Succeeds(d, ps, text)
    ensures AllDetached(ps) <==> exists qs :: SecondPassIsIdle(d, RewriteAll(ps), qs)
  {
    if AllDetached(ps) {
      SecondPassOfDetached(d, ps, text);
    }
    if qs :| SecondPassIsIdle(d, RewriteAll(ps), qs) {
      assert SpellAll(qs) + "" == SpellAll(qs);
      RewritingIsShorter(d, qs);
      SeparatedIsNoAdjacent(ps);
      IdleMeansDetached(d, ps, qs);
    }
  }

  // ---- Comments ----

  /** In a reading in the sense of SQL, a comment that the code reads alike: it
      contains no letter r and does not end at a carriage return. */
  predicate Opaque(p: Piece, after: string) {
    p.LineComment? ==> 'r' !in p.body && !StartsWith(after, '\r')
  }

  predicate AllOpaque(ps: seq<Piece>) {
    ps == [] || (Opaque(ps[0], SpellAll(ps[1..])) && AllOpaque(ps[1..]))
  }

  /** In a reading by the code, a comment that SQL reads alike: it contains no
      carriage return and was not cut short at the letter r. */
  predicate SameComment(p: Piece, after: string) {
    p.LineComment? ==> '\r' !in p.body && !StartsWith(after, 'r')
  }

  predicate SameComments(ps: seq<Piece>) {
    ps == [] || (SameComment(ps[0], SpellAll(ps[1..])) && SameComments(ps[1..]))
  }

  lemma OpaqueFits(p: Piece, after: string)
    requires Fits(AsMeant, p, after)
    ensures Fits(AsWritten, p, after) <==> Opaque(p, after)
  {
    hide Paired, NoCommentEnd, NamedFits;
    if p.LineComment? && 'r' in p.body {
      var i :| 0 <= i < |p.body| && p.body[i] == 'r';
      assert LineEnd(AsWritten, p.body[i]);
    }
  }

  lemma SameCommentFits(p: Piece, after: string)
    requires Fits(AsWritten, p, after)
    ensures Fits(AsMeant, p, after) <==> SameComment(p, after)
  {
    hide Paired, NoCommentEnd, NamedFits;
    if p.LineComment? && '\r' in p.body {
      var i :| 0 <= i < |p.body| && p.body[i] == '\r';
      assert LineEnd(AsMeant, p.body[i]);
    }
  }

  lemma {:induction false} OpaqueReadingFits(ps: seq<Piece>)
    requires AllFit(AsMeant, ps, "")
    ensures AllFit(AsWritten, ps, "") <==> AllOpaque(ps)
  {
    if ps != [] {
      hide Fits, Opaque;
      var after := SpellAll(ps[1..]);
      assert after + "" == after;
      OpaqueReadingFits(ps[1..]);
      OpaqueFits(ps[0], after);
    }
  }

  lemma {:induction false} CodeReadingFits(ps: seq<Piece>)
    requires AllFit(AsWritten, ps, "")
    ensures AllFit(AsMeant, ps, "") <==> SameComments(ps)
  {
    if ps != [] {
      hide Fits, SameComment;
      var after := SpellAll(ps[1..]);
      assert after + "" == after;
      CodeReadingFits(ps[1..]);
      SameCommentFits(ps[0], after);
    }
  }

  /** Of every text that SQL reads, with its parameters separated, the code makes
      the same reading if and only if no comment of SQL contains the letter r or ends
      at a carriage return. */
  lemma SqlIsReadAsMeantIff(ps: seq<Piece>, text: string)
    requires Succeeds(AsMeant, ps, text)
    ensures Succeeds(AsWritten, ps, text) <==> AllOpaque(ps)
  {
    OpaqueReadingFits(ps);
  }

  /** The same question asked of a text that the code reads: the reading is that of
      SQL if and only if no comment of it contains a carriage return or was cut short
      at the letter r. */
  lemma CodeReadsAsSqlIff(ps: seq<Piece>, text: string)
    requires Succeeds(AsWritten, ps, text)
    ensures Succeeds(AsMeant, ps, text) <==> SameComments(ps)
  {
    CodeReadingFits(ps);
  }

  /** The quirk at work: SQL reads this text, and the code rejects it, because for
      the code the comment ends inside it and a literal begins there. */
  lemma CommentIsRejected()
    ensures var text := "a--user's";
      && Succeeds(AsMeant, [Plain('a'), LineComment("user's")], text)
      && Fails(AsWritten, text, UnterminatedLiteral)
      && !Readable(AsWritten, text)
  {
    var text := "a--user's";
    var a, m := Plain('a'), LineComment("user's");
    assert [a, m][1..] == [m] && [m][1..] == [];
    assert Spell(a) == "a" && Spell(m) == "--user's";
    assert SpellAll([m]) == "--user's" + "" == "--user's";
    assert SpellAll([a, m]) == "a" + "--user's" == text;
    assert AllFit(AsMeant, [m], "") && AllFit(AsMeant, [a, m], "");
    RejectedAtQuote(text);
    FailsMeansUnreadable(AsWritten, text, UnterminatedLiteral);
  }

  lemma RejectedAtQuote(text: string)
    requires text == "a--user's"
    ensures Fails(AsWritten, text, UnterminatedLiteral)
  {
    var a, c, r := Plain('a'), LineComment("use"), Plain('r');
    var ps, rest := [a, c, r], "'s";
    assert ps[1..] == [c, r] && [c, r][1..] == [r] && [r][1..] == [];
    assert Spell(a) == "a" && Spell(c) == "--use" && Spell(r) == "r";
    assert SpellAll([r]) == "r" + "" == "r";
    assert SpellAll([c, r]) == "--use" + "r" == "--user";
    assert SpellAll(ps) == "a" + "--user" == "a--user";
    assert AllFit(AsWritten, [r], rest);
    assert SpellAll([r]) + rest == "r's";
    assert AllFit(AsWritten, [c, r], rest);
    assert SpellAll([c, r]) + rest == "--user's";
    assert Reads(AsWritten, ps, rest, text);
    assert rest[1..] == "s";
    assert Stuck(ps, rest, UnterminatedLiteral);
  }

  /** And a text that both read, but differently: the code finds a parameter inside
      what SQL takes for a comment. */
  lemma CommentIsNotOpaque()
    ensures var text := "--r:x";
      && Reads(AsMeant, [LineComment("r:x")], "", text)
      && Succeeds(AsWritten, [LineComment(""), Plain('r'), Param(':', Ident("x"))], text)
  {
    var c, r, x := LineComment(""), Plain('r'), Param(':', Ident("x"));
    var m := LineComment("r:x");
    assert [m][1..] == [] && [c, r, x][1..] == [r, x] && [r, x][1..] == [x] && [x][1..] == [];
    assert Spell(x) == ":x" && Spell(r) == "r" && Spell(c) == "--";
    assert SpellAll([x]) == ":x" + "" == ":x";
    assert SpellAll([r, x]) == "r" + ":x" == "r:x";
    assert SpellAll([c, r, x]) == "--" + "r:x" == "--r:x";
    assert SpellAll([m]) == "--" + "r:x" + "" == "--r:x";
    assert AllFit(AsWritten, [x], "") && AllFit(AsWritten, [r, x], "");
  }
}
