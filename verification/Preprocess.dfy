/** PreprocessSQL: the scanner that rewrites a statement, with its cursors and its
    output buffer, proved against the grammar. */
module Preprocess {
  import opened Text
  import opened CString
  import opened SqlGrammar
  import opened SqlOutcome
  import opened SqlSpelling

  /** The characters a statement may consist of: those of a C string that can
      index the table of name characters. */
  predicate IsSqlText(s: string) {
    forall i :: 0 <= i < |s| ==> 0 < s[i] as int < 128
  }

  /** text[from..to] is the piece p, complete in its context. */
  ghost predicate PieceAt(text: string, from: nat, to: nat, p: Piece) {
    from < to <= |text| && Spell(p) == text[from..to] && Fits(AsWritten, p, text[to..])
  }

  lemma ReadsMoreAt(ps: seq<Piece>, p: Piece, text: string, from: nat, to: nat)
    requires from <= |text| && Reads(AsWritten, ps, text[from..], text) && PieceAt(text, from, to, p)
    ensures Reads(AsWritten, ps + [p], text[to..], text)
  {
    hide Fits;
    assert text[from..] == text[from..to] + text[to..];
    ReadsMore(AsWritten, ps, p, text[to..], text);
  }

  /** The closing quote of a text that begins at `from`, or -1. */
  method FindMatchingDoubleQuote(text: string, from: nat) returns (r: int)
    requires from <= |text|
    ensures r >= 0 ==>
      && from <= r < |text| && text[r] == '"' && Paired(text[from..r], '"')
      && !StartsWith(text[r + 1..], '"')
    ensures r < 0 ==> r == -1 && Unclosed(text[from..], '"')
  {
    var i := from;
    while i < |text|
      invariant from <= i <= |text| && Paired(text[from..i], '"')
      decreases |text| - i
    {
      if text[i] == '"' {
        if i + 1 < |text| && text[i + 1] == '"' {
          assert text[from..i + 2] == text[from..i] + "\"\"";
          PairedAppend(text[from..i], "\"\"", '"');
          i := i + 2;
        } else {
          return i;
        }
      } else {
        assert text[from..i + 1] == text[from..i] + [text[i]];
        PairedAppend(text[from..i], [text[i]], '"');
        i := i + 1;
      }
    }
    assert text[from..] == text[from..i];
    AllPairedIsUnclosed(text[from..], '"');
    return -1;
  }

  lemma AllPairedIsUnclosed(s: string, q: char)
    requires Paired(s, q)
    ensures Unclosed(s, q)
  {
    forall j | 0 <= j < |s| && s[j] == q && Paired(s[..j], q) ensures j + 1 < |s| && s[j + 1] == q {
      NoCloserInside(s, q, j);
    }
  }

  /** The end of the literal whose text begins at `from`, or -1. */
  method SkipLiteral(text: string, from: nat) returns (r: int)
    requires from <= |text|
    ensures r >= 0 ==>
      && from <= r < |text| && text[r] == '\'' && Paired(text[from..r], '\'')
      && !StartsWith(text[r + 1..], '\'')
    ensures r < 0 ==> r == -1 && Unclosed(text[from..], '\'')
  {
    var i := from;
    while i < |text|
      invariant from <= i <= |text| && Paired(text[from..i], '\'')
      decreases |text| - i
    {
      if text[i] == '\'' {
        if i + 1 < |text| && text[i + 1] == '\'' {
          assert text[from..i + 2] == text[from..i] + "''";
          PairedAppend(text[from..i], "''", '\'');
          i := i + 2;
        } else {
          break;
        }
      } else {
        assert text[from..i + 1] == text[from..i] + [text[i]];
        PairedAppend(text[from..i], [text[i]], '\'');
        i := i + 1;
      }
    }
    if i >= |text| {
      assert text[from..] == text[from..i];
      AllPairedIsUnclosed(text[from..], '\'');
      return -1;
    }
    return i;
  }

  /** Where the comment end of a block comment whose text begins at `from` starts,
      or -1. */
  method SkipBlockComment(text: string, from: nat) returns (r: int)
    requires from <= |text|
    ensures r >= 0 ==>
      && from <= r && r + 1 < |text| && text[r] == '*' && text[r + 1] == '/'
      && NoCommentEnd(text[from..r])
    ensures r < 0 ==> r == -1 && NoCommentEndIn(text[from..])
  {
    var i := from;
    while i < |text|
      invariant from <= i <= |text|
      invariant forall k :: from <= k < i && k + 1 < |text| && text[k] == '*' ==> text[k + 1] != '/'
    {
      if text[i] == '*' && i + 1 < |text| && text[i + 1] == '/' {
        return i;
      }
      i := i + 1;
    }
    return -1;
  }

  method SkipLineComment(text: string, from: nat) returns (r: nat)
    requires from <= |text|
    ensures from <= r <= |text|
    ensures forall k :: from <= k < r ==> !LineEnd(AsWritten, text[k])
    ensures r < |text| ==> LineEnd(AsWritten, text[r])
  {
    r := from;
    while r < |text| && !(text[r] == 'r' || text[r] == '\n')
      invariant from <= r <= |text|
      invariant forall k :: from <= k < r ==> !LineEnd(AsWritten, text[k])
    {
      r := r + 1;
    }
  }

  lemma LineCommentAt(text: string, lp: nat, r: nat)
    requires lp + 2 <= r <= |text| && text[lp] == '-' && text[lp + 1] == '-'
    requires forall k :: lp + 2 <= k < r ==> !LineEnd(AsWritten, text[k])
    requires r < |text| ==> LineEnd(AsWritten, text[r])
    ensures PieceAt(text, lp, r, LineComment(text[lp + 2..r]))
  {
    assert text[lp..r] == "--" + text[lp + 2..r];
  }

  lemma BlockCommentAt(text: string, lp: nat, r: nat)
    requires lp + 2 <= r && r + 1 < |text| && text[lp] == '/' && text[lp + 1] == '*'
    requires text[r] == '*' && text[r + 1] == '/' && NoCommentEnd(text[lp + 2..r])
    ensures PieceAt(text, lp, r + 2, BlockComment(text[lp + 2..r]))
  {
    assert text[lp..r + 2] == "/*" + text[lp + 2..r] + "*/";
  }

  lemma QuoteAt(text: string, lp: nat, r: nat, q: string)
    requires lp + 1 <= r < |text| && q == [text[lp]] && text[r] == text[lp]
    ensures text[lp..r + 1] == q + text[lp + 1..r] + q
  {
  }

  lemma LiteralAt(text: string, lp: nat, r: nat)
    requires lp + 1 <= r < |text| && text[lp] == text[r] == '\''
    requires Paired(text[lp + 1..r], '\'') && !StartsWith(text[r + 1..], '\'')
    ensures PieceAt(text, lp, r + 1, Literal(text[lp + 1..r]))
  {
    QuoteAt(text, lp, r, "'");
  }

  lemma QuotedIdAt(text: string, lp: nat, r: nat)
    requires lp + 1 <= r < |text| && text[lp] == text[r] == '"'
    requires Paired(text[lp + 1..r], '"') && !StartsWith(text[r + 1..], '"')
    ensures PieceAt(text, lp, r + 1, QuotedId(text[lp + 1..r]))
  {
    QuoteAt(text, lp, r, "\"");
  }

  /** One comment, literal, quoted identifier or single character. */
  method SkipPiece(text: string, lp: nat) returns (ok: bool, next: nat, ghost p: Piece, ghost why: Cause)
    requires lp < |text| && !Designator(text[lp])
    ensures ok ==> PieceAt(text, lp, next, p) && !p.Param?
    ensures !ok ==> Stuck([], text[lp..], why) && why != NoTextBeforeParameter
  {
    hide Paired;
    ok, next, why := true, lp + 1, EmptyText;
    p := Plain(text[lp]);
    var c := text[lp];
    if c == '-' && lp + 1 < |text| && text[lp + 1] == '-' {
      next := SkipLineComment(text, lp + 2);
      p := LineComment(text[lp + 2..next]);
      LineCommentAt(text, lp, next);
    } else if c == '/' && lp + 1 < |text| && text[lp + 1] == '*' {
      var r := SkipBlockComment(text, lp + 2);
      if r < 0 {
        assert text[lp..][2..] == text[lp + 2..];
        ok, why := false, UnterminatedComment;
      } else {
        next := r + 2;
        p := BlockComment(text[lp + 2..r]);
        BlockCommentAt(text, lp, r);
      }
    } else if c == '\'' {
      var r := SkipLiteral(text, lp + 1);
      if r < 0 {
        assert text[lp..][1..] == text[lp + 1..];
        ok, why := false, UnterminatedLiteral;
      } else {
        next := r + 1;
        p := Literal(text[lp + 1..r]);
        LiteralAt(text, lp, r);
      }
    } else if c == '"' {
      var r := FindMatchingDoubleQuote(text, lp + 1);
      if r < 0 {
        assert text[lp..][1..] == text[lp + 1..];
        ok, why := false, UnterminatedIdentifier;
      } else {
        next := r + 1;
        p := QuotedId(text[lp + 1..r]);
        QuotedIdAt(text, lp, r);
      }
    } else {
      assert text[lp..lp + 1] == [c];
    }
  }

  /** The name of a parameter, from its place in the text. */
  lemma NameAt(text: string, lp: nat, next: nat, p: Piece)
    requires PieceAt(text, lp, next, p) && p.Param?
    ensures var name, rest := NameOf(p.name), text[lp + 1..next];
      && (name == None <==> rest == "" || rest == "\"\"")
      && (name != None ==> rest == if rest[0] == '"' then "\"" + name.value + "\"" else name.value)
  {
    hide Spell, NameOf;
    NameFromText(AsWritten, p, text[next..]);
    assert text[lp..next][1..] == text[lp + 1..next];
  }

  /** The name after the designator at lp. */
  method ScanName(text: string, lp: nat)
    returns (ok: bool, next: nat, name: Option<string>, ghost p: Piece, ghost why: Cause)
    requires lp < |text| && Designator(text[lp])
    ensures ok ==> PieceAt(text, lp, next, p) && p.Param? && name == NameOf(p.name)
    ensures ok ==>
      var rest := text[lp + 1..next];
      && (name == None <==> rest == "" || rest == "\"\"")
      && (name != None ==> rest == if rest[0] == '"' then "\"" + name.value + "\"" else name.value)
    ensures !ok ==> Stuck([], text[lp..], why) && why != NoTextBeforeParameter
  {
    hide Paired, Unclosed;
    ok, next, name, why := true, lp + 1, None, EmptyText;
    p := Param(text[lp], Anonymous);
    if lp + 1 < |text| && text[lp + 1] == '"' {
      var r := FindMatchingDoubleQuote(text, lp + 2);
      if r < 0 {
        assert text[lp..][2..] == text[lp + 2..];
        ok, why := false, UnterminatedName;
      } else {
        next := r + 1;
        p := Param(text[lp], Quoted(text[lp + 2..r]));
        assert text[lp..next] == [text[lp]] + ("\"" + text[lp + 2..r] + "\"");
        name := if r == lp + 2 then None else Some(text[lp + 2..r]);
      }
    } else if lp + 1 < |text| && NameChar(text[lp + 1]) {
      next := lp + 2;
      while next < |text| && NameChar(text[next])
        invariant lp + 2 <= next <= |text|
        invariant forall k :: lp < k < next ==> NameChar(text[k])
      {
        next := next + 1;
      }
      p := Param(text[lp], Ident(text[lp + 1..next]));
      assert text[lp..next] == [text[lp]] + text[lp + 1..next];
      name := Some(text[lp + 1..next]);
    } else if text[lp] != '?' {
      ok, why := false, MissingName;
    }
    if ok {
      NameAt(text, lp, next, p);
    }
  }

  // ---- The whole scan ----

  /** The scan has read the pieces ps up to lp; what it has copied, plus what is
      pending since `start`, is their rewriting. */
  ghost predicate Scanned(ps: seq<Piece>, text: string, start: nat, lp: nat, out: string, names: seq<Option<string>>) {
    && start <= lp <= |text|
    && Reads(AsWritten, ps, text[lp..], text)
    && Separated(ps)
    && RewriteAll(ps) == out + text[start..lp]
    && names == NamesOf(ps)
    && (start == lp <==> ps == [] || ps[|ps| - 1].Param?)
  }

  /** Whatever the scan has read, its output is at most as long as the text up to
      `start`, because rewriting never makes a text longer. */
  lemma ScanBounds(ps: seq<Piece>, text: string, start: nat, lp: nat, out: string, names: seq<Option<string>>)
    requires Scanned(ps, text, start, lp, out, names)
    ensures |out| <= start
  {
    RewritingNeverLonger(ps);
    assert |SpellAll(ps)| == lp;
  }

  lemma ScannedText(ps: seq<Piece>, p: Piece, text: string, start: nat, lp: nat, next: nat,
                    out: string, names: seq<Option<string>>)
    requires Scanned(ps, text, start, lp, out, names) && PieceAt(text, lp, next, p) && !p.Param?
    ensures Scanned(ps + [p], text, start, next, out, names)
  {
    hide Fits, Spell, Reads, RewriteAll, NamesOf;
    ReadsMoreAt(ps, p, text, lp, next);
    RewriteAllAppend(ps, p);
    assert Rewrite(p) == Spell(p);
    assert text[start..next] == text[start..lp] + text[lp..next];
    Assoc(out, text[start..lp], text[lp..next]);
  }

  lemma ScannedParam(ps: seq<Piece>, p: Piece, text: string, start: nat, lp: nat, next: nat,
                     out: string, names: seq<Option<string>>)
    requires Scanned(ps, text, start, lp, out, names) && PieceAt(text, lp, next, p) && p.Param?
    requires start < lp
    ensures Scanned(ps + [p], text, next, next, out + text[start..lp] + "?", names + [NameOf(p.name)])
  {
    hide Fits, Spell, Reads, RewriteAll, NamesOf;
    ReadsMoreAt(ps, p, text, lp, next);
    RewriteAllAppend(ps, p);
    assert Rewrite(p) == "?";
    var out' := out + text[start..lp] + "?";
    assert text[next..next] == "" && out' + "" == out';
  }

  lemma NothingScanned(text: string)
    ensures Scanned([], text, 0, 0, "", [])
  {
    assert text[0..] == text && text[0..0] == "";
  }

  lemma StuckMeansFails(ps: seq<Piece>, text: string, start: nat, lp: nat, out: string, names: seq<Option<string>>,
                        why: Cause)
    requires lp < |text| && Scanned(ps, text, start, lp, out, names)
    requires Stuck([], text[lp..], why) && why != NoTextBeforeParameter
    ensures Fails(AsWritten, text, why) && !Readable(AsWritten, text)
  {
    hide Reads, RewriteAll, NamesOf;
    assert Stuck(ps, text[lp..], why);
    FailsMeansUnreadable(AsWritten, text, why);
  }

  lemma NoTextMeansFails(ps: seq<Piece>, text: string, lp: nat, out: string, names: seq<Option<string>>)
    requires lp < |text| && Scanned(ps, text, lp, lp, out, names) && Designator(text[lp])
    ensures Fails(AsWritten, text, NoTextBeforeParameter) && !Readable(AsWritten, text)
  {
    hide Reads, RewriteAll, NamesOf;
    assert Stuck(ps, text[lp..], NoTextBeforeParameter);
    FailsMeansUnreadable(AsWritten, text, NoTextBeforeParameter);
  }

  /** At the end of the text the scan amounts to a complete reading. */
  lemma AllScanned(ps: seq<Piece>, text: string, start: nat, out: string, names: seq<Option<string>>)
    requires text != "" && Scanned(ps, text, start, |text|, out, names)
    ensures Succeeds(AsWritten, ps, text)
    ensures RewriteAll(ps) == out + text[start..] && names == NamesOf(ps)
  {
    hide Reads, RewriteAll, NamesOf;
    assert text[|text|..] == "" && text[start..|text|] == text[start..];
  }

  lemma AllNamed(ps: seq<Piece>, text: string)
    requires Succeeds(AsWritten, ps, text)
    ensures |NamesOf(ps)| == |ParamsOf(ps)|
    ensures forall i :: 0 <= i < |NamesOf(ps)| ==>
      var name, param := NamesOf(ps)[i], Spell(ParamsOf(ps)[i]);
      && |param| > 0 && (param[0] == '?' || param[0] == ':' || param[0] == '@')
      && (name == None <==> param[1..] == "" || param[1..] == "\"\"")
      && (name != None ==> param[1..] == if param[1] == '"' then "\"" + name.value + "\"" else name.value)
  {
    hide Spell, NamesOf, ParamsOf;
    NamesFromText(AsWritten, ps, "");
  }

  /** Copy the text since the last parameter, and a question mark. Since the
      output is never ahead of `start`, both fit. */
  method Relay(buf: array<char>, text: string, start: nat, lp: nat) returns (fits: bool)
    requires NoZero(text) && Terminated(buf[..]) && buf.Length == |text| + 1
    requires |CStr(buf[..])| <= start < lp < |text|
    modifies buf
    ensures fits && Terminated(buf[..])
    ensures CStr(buf[..]) == old(CStr(buf[..])) + text[start..lp] + "?"
  {
    fits := StrNCat(buf, text, start, lp - start);
    if fits {
      fits := StrNCat(buf, "?", 0, 1);
    }
  }

  /** PreprocessSQL. It succeeds exactly on the texts that can be read completely
      with separated parameters; it then yields their rewriting and the names of
      the parameters, in order. On all others it fails, for a cause the text
      contains. The buffer of |text| + 1 characters always suffices. */
  method PreprocessSQL(text: string) returns (ok: bool, buf: array<char>, names: seq<Option<string>>,
                                              ghost ps: seq<Piece>, ghost why: Cause)
    requires IsSqlText(text)
    ensures ok <==> Readable(AsWritten, text)
    ensures ok ==> Succeeds(AsWritten, ps, text)
    ensures ok ==> CStr(buf[..]) == RewriteAll(ps) && names == NamesOf(ps)
    ensures ok ==> |names| == |ParamsOf(ps)| && forall i :: 0 <= i < |names| ==>
      var param := Spell(ParamsOf(ps)[i]);
      && |param| > 0 && (param[0] == '?' || param[0] == ':' || param[0] == '@')
      && (names[i] == None <==> param[1..] == "" || param[1..] == "\"\"")
      && (names[i] != None ==>
            param[1..] == if param[1] == '"' then "\"" + names[i].value + "\"" else names[i].value)
    ensures ok ==> buf.Length == |text| + 1 && Terminated(buf[..])
    ensures !ok ==> Fails(AsWritten, text, why)
  {
    hide Fits, Reads, RewriteAll, NamesOf, ParamsOf, Spell, Stuck, Scanned;
    var len := |text|;
    buf := new char[len + 1](_ => '\0');
    ok, names, ps, why := false, [], [], EmptyText;
    if len == 0 {
      return;
    }
    var lp: nat, start: nat := 0, 0;
    CStrUpTo(buf[..], 0);
    NothingScanned(text);
    while lp < len
      invariant |CStr(buf[..])| <= start <= lp <= len
      invariant fresh(buf) && buf.Length == len + 1 && Terminated(buf[..])
      invariant Scanned(ps, text, start, lp, CStr(buf[..]), names)
      decreases len - lp
    {
      ghost var p;
      var found, next;
      ghost var out := CStr(buf[..]);
      if Designator(text[lp]) {
        if start == lp {
          why := NoTextBeforeParameter;
          NoTextMeansFails(ps, text, lp, out, names);
          return;
        }
        var fits := Relay(buf, text, start, lp);
        if !fits {
          return;
        }
        var name;
        found, next, name, p, why := ScanName(text, lp);
        if !found {
          StuckMeansFails(ps, text, start, lp, out, names, why);
          return;
        }
        ScannedParam(ps, p, text, start, lp, next, out, names);
        names := names + [name];
        start := next;
      } else {
        found, next, p, why := SkipPiece(text, lp);
        if !found {
          StuckMeansFails(ps, text, start, lp, out, names, why);
          return;
        }
        ScannedText(ps, p, text, start, lp, next, out, names);
      }
      ps := ps + [p];
      lp := next;
      ScanBounds(ps, text, start, lp, CStr(buf[..]), names);
    }
    assert lp == len;  // Lp == LpMax
    ghost var out := CStr(buf[..]);
    AllScanned(ps, text, start, out, names);
    AllNamed(ps, text);
    ok := true;
    if start < lp {
      ok := StrNCat(buf, text, start, lp - start);
    } else {
      assert text[start..] == "" && out + "" == out;
    }
  }
}
