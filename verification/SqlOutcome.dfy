/** When the preprocessor is to succeed, and when and why it is to fail. */
module SqlOutcome {
  import opened SqlGrammar

  datatype Cause =
    | EmptyText
    | UnterminatedLiteral
    | UnterminatedComment
    | UnterminatedIdentifier
    | UnterminatedName
    | NoTextBeforeParameter
    | MissingName

  /** The text can be read completely, with its parameters separated. */
  ghost predicate Succeeds(d: Reading, ps: seq<Piece>, text: string) {
    text != "" && Reads(d, ps, "", text) && Separated(ps)
  }

  /** No q in s closes a quoted text that begins at the start of s. */
  predicate Unclosed(s: string, q: char) {
    forall j :: 0 <= j < |s| && s[j] == q && Paired(s[..j], q) ==> j + 1 < |s| && s[j + 1] == q
  }

  predicate NoCommentEndIn(s: string) {
    forall k :: 0 <= k < |s| - 1 && s[k] == '*' ==> s[k + 1] != '/'
  }

  /** No reading can go on from `rest`, after the pieces ps, for this cause. */
  predicate Stuck(ps: seq<Piece>, rest: string, why: Cause) {
    rest != "" &&
    match why
    case EmptyText => false
    case UnterminatedLiteral => rest[0] == '\'' && Unclosed(rest[1..], '\'')
    case UnterminatedComment => |rest| > 1 && rest[0] == '/' && rest[1] == '*' && NoCommentEndIn(rest[2..])
    case UnterminatedIdentifier => rest[0] == '"' && Unclosed(rest[1..], '"')
    case UnterminatedName => |rest| > 1 && Designator(rest[0]) && rest[1] == '"' && Unclosed(rest[2..], '"')
    case NoTextBeforeParameter => Designator(rest[0]) && (ps == [] || ps[|ps| - 1].Param?)
    case MissingName =>
      && (rest[0] == ':' || rest[0] == '@')
      && (|rest| > 1 ==> rest[1] != '"' && !NameChar(rest[1]))
  }

  /** Reading the text gets stuck, for this cause, after some separated pieces. */
  ghost predicate Fails(d: Reading, text: string, why: Cause) {
    if text == "" then why == EmptyText
    else exists ps, rest :: Reads(d, ps, rest, text) && Separated(ps) && Stuck(ps, rest, why)
  }

  // ---- No text both succeeds and fails ----

  lemma UnclosedHasNoBody(body: string, q: char, after: string, s: string)
    requires Paired(body, q) && !StartsWith(after, q) && s == body + [q] + after
    ensures !Unclosed(s, q)
  {
    var j := |body|;
    assert s[..j] == body && s[j] == q;
    assert j + 1 < |s| ==> s[j + 1] == after[0];
  }

  /** What the text after the opening mark of a piece looks like. */
  lemma AfterMark(m: string, b: string, after: string, s: string)
    requires m + b + after == s
    ensures s[|m|..] == b + after
  {
    Assoc(m, b, after);
    assert (m + (b + after))[|m|..] == b + after;
  }

  lemma QuotesNotStuck(d: Reading, p: Piece, after: string)
    requires Fits(d, p, after)
    ensures !Stuck([], Spell(p) + after, UnterminatedLiteral)
    ensures !Stuck([], Spell(p) + after, UnterminatedIdentifier)
  {
    hide Paired, Unclosed, NoCommentEnd, NamedFits;
    var rest := Spell(p) + after;
    assert rest[0] == Spell(p)[0];
    if p.Literal? {
      AfterMark("'", p.body + "'", after, rest);
      UnclosedHasNoBody(p.body, '\'', after, rest[1..]);
    }
    if p.QuotedId? {
      AfterMark("\"", p.body + "\"", after, rest);
      UnclosedHasNoBody(p.body, '"', after, rest[1..]);
    }
  }

  lemma CommentNotStuck(d: Reading, p: Piece, after: string)
    requires Fits(d, p, after)
    ensures !Stuck([], Spell(p) + after, UnterminatedComment)
  {
    var rest := Spell(p) + after;
    if p.BlockComment? {
      AfterMark("/*", p.body + "*/", after, rest);
      assert rest[2..][|p.body|] == '*' && rest[2..][|p.body| + 1] == '/';
    }
  }

  lemma NameNotStuck(p: Piece, after: string)
    requires p.Param? && Designator(p.designator) && NamedFits(p.name, after)
    ensures !Stuck([], Spell(p) + after, UnterminatedName)
  {
    var rest := Spell(p) + after;
    match p.name {
      case Anonymous => assert |rest| > 1 ==> rest[1] == after[0];
      case Ident(n) => assert rest[1] == n[0] && NameChar(n[0]);
      case Quoted(raw) =>
        assert Spell(p) == [p.designator, '"'] + (raw + "\"");
        AfterMark([p.designator, '"'], raw + "\"", after, rest);
        UnclosedHasNoBody(raw, '"', after, rest[2..]);
    }
  }

  lemma NameNotMissing(p: Piece, after: string)
    requires p.Param? && Designator(p.designator) && NamedFits(p.name, after)
    requires p.name.Anonymous? ==> p.designator == '?'
    ensures !Stuck([], Spell(p) + after, MissingName)
  {
    var rest := Spell(p) + after;
    match p.name {
      case Anonymous =>
      case Ident(n) => assert rest[1] == n[0] && NameChar(n[0]);
      case Quoted(raw) => assert rest[1] == '"';
    }
  }

  lemma OnlyParametersBegin(d: Reading, p: Piece, after: string)
    requires Fits(d, p, after)
    ensures Designator((Spell(p) + after)[0]) ==> p.Param? && NamedFits(p.name, after)
    ensures p.Param? ==> Designator(p.designator) && (p.name.Anonymous? ==> p.designator == '?')
  {
    hide Paired, NoCommentEnd, NamedFits;
    assert (Spell(p) + after)[0] == Spell(p)[0];
  }

  /** A piece that fits contradicts being stuck at it. */
  lemma NotStuckAtPiece(d: Reading, ps: seq<Piece>, p: Piece, after: string, why: Cause)
    requires Fits(d, p, after) && (p.Param? ==> ps != [] && !ps[|ps| - 1].Param?)
    ensures !Stuck(ps, Spell(p) + after, why)
  {
    hide Paired, Unclosed, NoCommentEnd, NoCommentEndIn, NamedFits, Fits, Spell;
    var rest := Spell(p) + after;
    if Stuck(ps, rest, why) {
      OnlyParametersBegin(d, p, after);
      match why {
        case UnterminatedComment => CommentNotStuck(d, p, after);
        case UnterminatedName => NameNotStuck(p, after);
        case MissingName => NameNotMissing(p, after);
        case NoTextBeforeParameter =>
        case _ => QuotesNotStuck(d, p, after);
      }
    }
  }

  /** A text that can be read completely gets stuck nowhere, for no cause. */
  lemma SucceedsOrFails(d: Reading, ps: seq<Piece>, text: string, why: Cause)
    requires Succeeds(d, ps, text)
    ensures !Fails(d, text, why)
  {
    if Fails(d, text, why) {
      var qs, rest :| Reads(d, qs, rest, text) && Separated(qs) && Stuck(qs, rest, why);
      ReadingsAgree(d, qs, rest, ps, text);
      var more := ps[|qs|..];
      assert more != [];
      ReadsFirst(d, more, "", rest);
      assert ps[|qs|] == more[0];
      assert qs != [] ==> ps[|qs| - 1] == qs[|qs| - 1];
      NotStuckAtPiece(d, qs, more[0], SpellAll(more[1..]) + "", why);
    }
  }

  /** Some reading of the text is complete and has its parameters separated. */
  ghost predicate Readable(d: Reading, text: string) {
    exists ps :: Succeeds(d, ps, text)
  }

  lemma FailsMeansUnreadable(d: Reading, text: string, why: Cause)
    requires Fails(d, text, why)
    ensures !Readable(d, text)
  {
    if Readable(d, text) {
      var ps :| Succeeds(d, ps, text);
      SucceedsOrFails(d, ps, text, why);
    }
  }
}
