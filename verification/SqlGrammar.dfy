/** What the statement preprocessor of the test program reads: a text is a
    sequence of pieces. The grammar is stated without reference to the scanner;
    what may follow a piece is part of it, so a text has at most one reading. */
module SqlGrammar {
  import opened Text

  /** Where a line comment ends: as the code has it, at the letter r or a line
      feed; as evidently meant, at a carriage return or a line feed. All other
      definitions and results hold for both readings. */
  datatype Reading = AsWritten | AsMeant

  predicate LineEnd(d: Reading, c: char) {
    c == '\n' || c == (match d case AsWritten => 'r' case AsMeant => '\r')
  }

  datatype ParamName =
    | Anonymous
    | Ident(name: string)
    | Quoted(raw: string)

  datatype Piece =
    | Plain(c: char)
    | LineComment(body: string)
    | BlockComment(body: string)
    | Literal(body: string)
    | QuotedId(body: string)
    | Param(designator: char, name: ParamName)

  predicate NameChar(c: char) {
    '0' <= c <= '9' || 'a' <= c <= 'z' || 'A' <= c <= 'Z' || c == '_' || c == '$'
  }

  predicate Designator(c: char) {
    c == '?' || c == ':' || c == '@'
  }

  function SpellName(n: ParamName): string {
    match n
    case Anonymous => ""
    case Ident(name) => name
    case Quoted(raw) => "\"" + raw + "\""
  }

  function Spell(p: Piece): string {
    match p
    case Plain(c) => [c]
    case LineComment(body) => "--" + body
    case BlockComment(body) => "/*" + body + "*/"
    case Literal(body) => "'" + body + "'"
    case QuotedId(body) => "\"" + body + "\""
    case Param(c, n) => [c] + SpellName(n)
  }

  predicate StartsWith(s: string, c: char) {
    s != "" && s[0] == c
  }

  /** Every q in s is one of an adjacent pair, read from the left. */
  predicate Paired(s: string, q: char) {
    s == "" ||
    (if s[0] != q then Paired(s[1..], q)
     else |s| > 1 && s[1] == q && Paired(s[2..], q))
  }

  /** No comment end starts inside the body. */
  predicate NoCommentEnd(body: string) {
    forall k :: 0 <= k < |body| ==>
      !(body[k] == '*' && (if k + 1 < |body| then body[k + 1] == '/' else false))
  }

  predicate NamedFits(n: ParamName, after: string) {
    match n
    case Anonymous => after == "" || (after[0] != '"' && !NameChar(after[0]))
    case Ident(name) =>
      && name != "" && (forall i :: 0 <= i < |name| ==> NameChar(name[i]))
      && (after == "" || !NameChar(after[0]))
    case Quoted(raw) => Paired(raw, '"') && !StartsWith(after, '"')
  }

  /** Piece p is complete and well formed where `after` is the text that follows. */
  predicate Fits(d: Reading, p: Piece, after: string) {
    match p
    case Plain(c) =>
      && c != '\'' && c != '"' && !Designator(c)
      && (c == '-' ==> !StartsWith(after, '-'))
      && (c == '/' ==> !StartsWith(after, '*'))
    case LineComment(body) =>
      && (forall i :: 0 <= i < |body| ==> !LineEnd(d, body[i]))
      && (after == "" || LineEnd(d, after[0]))
    case BlockComment(body) => NoCommentEnd(body)
    case Literal(body) => Paired(body, '\'') && !StartsWith(after, '\'')
    case QuotedId(body) => Paired(body, '"') && !StartsWith(after, '"')
    case Param(c, n) => Designator(c) && (n.Anonymous? ==> c == '?') && NamedFits(n, after)
  }

  function SpellAll(ps: seq<Piece>): string {
    if ps == [] then "" else Spell(ps[0]) + SpellAll(ps[1..])
  }

  /** The pieces are well formed, in a text that goes on with `after`. */
  predicate AllFit(d: Reading, ps: seq<Piece>, after: string) {
    ps == [] || (Fits(d, ps[0], SpellAll(ps[1..]) + after) && AllFit(d, ps[1..], after))
  }

  /** ps is the beginning of a reading of a text that goes on with `after`. */
  ghost predicate Reads(d: Reading, ps: seq<Piece>, after: string, text: string) {
    AllFit(d, ps, after) && SpellAll(ps) + after == text
  }

  /** Each parameter has some text between it and the one before, or the start. */
  predicate Separated(ps: seq<Piece>) {
    forall i :: 0 <= i < |ps| && ps[i].Param? ==> i > 0 && !ps[i - 1].Param?
  }

  // ---- The rewriting ----

  function Rewrite(p: Piece): string {
    if p.Param? then "?" else Spell(p)
  }

  function RewriteAll(ps: seq<Piece>): string {
    if ps == [] then "" else Rewrite(ps[0]) + RewriteAll(ps[1..])
  }

  /** The name handed to the caller; quoted names keep their doubled quotes. */
  function NameOf(n: ParamName): Option<string> {
    match n
    case Anonymous => None
    case Ident(name) => Some(name)
    case Quoted(raw) => if raw == "" then None else Some(raw)
  }

  function NamesOf(ps: seq<Piece>): seq<Option<string>> {
    if ps == [] then []
    else (if ps[0].Param? then [NameOf(ps[0].name)] else []) + NamesOf(ps[1..])
  }

  /** The parameters of a reading, in order. */
  function ParamsOf(ps: seq<Piece>): (r: seq<Piece>)
    ensures forall i :: 0 <= i < |r| ==> r[i].Param?
  {
    if ps == [] then [] else (if ps[0].Param? then [ps[0]] else []) + ParamsOf(ps[1..])
  }

  /** Rewriting never makes a text longer. */
  lemma {:induction false} RewritingNeverLonger(ps: seq<Piece>)
    ensures |RewriteAll(ps)| <= |SpellAll(ps)|
  {
    if ps != [] {
      RewritingNeverLonger(ps[1..]);
    }
  }

  // ---- Concatenation ----

  lemma Assoc(a: string, b: string, c: string)
    ensures (a + b) + c == a + (b + c)
  {
  }

  lemma CancelLeft(a: string, b: string, a': string, b': string)
    requires a + b == a' + b' && |a| == |a'|
    ensures a == a' && b == b'
  {
    assert (a + b)[..|a|] == a && (a' + b')[..|a'|] == a';
    assert (a + b)[|a|..] == b && (a' + b')[|a'|..] == b';
  }

  // ---- Growing at the end ----

  lemma {:induction false} SpellAllAppend(ps: seq<Piece>, p: Piece)
    ensures SpellAll(ps + [p]) == SpellAll(ps) + Spell(p)
  {
    if ps == [] {
      assert [p][1..] == [];
    } else {
      assert (ps + [p])[1..] == ps[1..] + [p];
      SpellAllAppend(ps[1..], p);
    }
  }

  lemma {:induction false} RewriteAllAppend(ps: seq<Piece>, p: Piece)
    ensures RewriteAll(ps + [p]) == RewriteAll(ps) + Rewrite(p)
    ensures NamesOf(ps + [p]) == NamesOf(ps) + if p.Param? then [NameOf(p.name)] else []
  {
    if ps == [] {
      assert [p][1..] == [];
    } else {
      assert (ps + [p])[1..] == ps[1..] + [p];
      RewriteAllAppend(ps[1..], p);
    }
  }

  lemma {:induction false} AllFitAppend(d: Reading, ps: seq<Piece>, p: Piece, after: string)
    requires AllFit(d, ps, Spell(p) + after) && Fits(d, p, after)
    ensures AllFit(d, ps + [p], after)
  {
    hide Fits;
    if ps == [] {
      assert [p][1..] == [];
      assert SpellAll([]) + after == after;
    } else {
      assert (ps + [p])[1..] == ps[1..] + [p];
      SpellAllAppend(ps[1..], p);
      Assoc(SpellAll(ps[1..]), Spell(p), after);
      AllFitAppend(d, ps[1..], p, after);
    }
  }

  /** One more piece of the reading of a text. */
  lemma ReadsMore(d: Reading, ps: seq<Piece>, p: Piece, after: string, text: string)
    requires Reads(d, ps, Spell(p) + after, text) && Fits(d, p, after)
    ensures Reads(d, ps + [p], after, text)
  {
    AllFitAppend(d, ps, p, after);
    SpellAllAppend(ps, p);
    Assoc(SpellAll(ps), Spell(p), after);
  }

  // ---- Pairing ----

  lemma {:induction false} PairedAppend(s: string, t: string, q: char)
    requires Paired(s, q) && Paired(t, q)
    ensures Paired(s + t, q)
  {
    if s == "" {
      assert s + t == t;
    } else if s[0] != q {
      assert (s + t)[1..] == s[1..] + t;
      PairedAppend(s[1..], t, q);
    } else {
      assert (s + t)[2..] == s[2..] + t;
      PairedAppend(s[2..], t, q);
    }
  }

  /** Pairing is read in one way only: a paired prefix leaves a paired rest. */
  lemma {:induction false} PairedRest(s: string, q: char, j: nat)
    requires Paired(s, q) && j <= |s| && Paired(s[..j], q)
    ensures Paired(s[j..], q)
  {
    if j == 0 {
      assert s[0..] == s;
    } else if s[0] != q {
      assert s[..j][1..] == s[1..][..j - 1];
      assert s[1..][j - 1..] == s[j..];
      PairedRest(s[1..], q, j - 1);
    } else {
      assert s[..j][2..] == s[2..][..j - 2];
      assert s[2..][j - 2..] == s[j..];
      PairedRest(s[2..], q, j - 2);
    }
  }

  /** Inside a paired text no q closes: it is followed by another. */
  lemma NoCloserInside(s: string, q: char, j: nat)
    requires Paired(s, q) && j < |s| && Paired(s[..j], q) && s[j] == q
    ensures j + 1 < |s| && s[j + 1] == q
  {
    PairedRest(s, q, j);
    assert s[j..][0] == q;
  }

  // ---- A text has at most one reading ----

  lemma QuotedUnique(q: char, b: string, after: string, b': string, after': string)
    requires Paired(b, q) && Paired(b', q) && !StartsWith(after, q) && !StartsWith(after', q)
    requires b + [q] + after == b' + [q] + after'
    ensures b == b'
  {
    var s := b + [q] + after;
    var n, n' := |b|, |b'|;
    assert s[..n] == b && s[..n'] == b';
    if n < n' {
      assert b'[..n] == b && b'[n] == s[n] == q;
      NoCloserInside(b', q, n);
    } else if n' < n {
      assert b[..n'] == b' && b[n'] == s[n'] == q;
      NoCloserInside(b, q, n');
    }
  }

  /** The longest stretch of one kind of character is determined by the text. */
  lemma StretchUnique(b: string, after: string, b': string, after': string, n: nat, n': nat)
    requires b + after == b' + after' && n == |b| && n' == |b'| && n <= n'
    ensures b' == b + after[..n' - n]
    ensures n < n' ==> after != "" && b'[n] == after[0]
  {
    assert (b + after)[..n'] == b';
  }

  lemma CommentUnique(b: string, after: string, b': string, after': string)
    requires NoCommentEnd(b) && NoCommentEnd(b')
    requires b + "*/" + after == b' + "*/" + after'
    ensures b == b'
  {
    var s := b + "*/" + after;
    assert s[..|b|] == b && s[..|b'|] == b';
    assert s[|b|] == '*' && s[|b| + 1] == '/';
    assert s[|b'|] == '*' && s[|b'| + 1] == '/';
  }

  lemma FirstPieceKind(d: Reading, p: Piece, after: string, q: Piece, after': string)
    requires Fits(d, p, after) && Fits(d, q, after') && Spell(p) + after == Spell(q) + after'
    ensures p.Literal? == q.Literal? && p.QuotedId? == q.QuotedId? && p.Param? == q.Param?
    ensures p.LineComment? == q.LineComment? && p.BlockComment? == q.BlockComment?
  {
    var s := Spell(p) + after;
    assert s[0] == Spell(p)[0] == Spell(q)[0];
    assert |Spell(p)| > 1 ==> s[1] == Spell(p)[1];
    assert |Spell(q)| > 1 ==> s[1] == Spell(q)[1];
    assert p.Plain? ==> s[1..] == after;
    assert q.Plain? ==> s[1..] == after';
  }

  lemma NameKind(n: ParamName, after: string, n': ParamName, after': string)
    requires NamedFits(n, after) && NamedFits(n', after') && SpellName(n) + after == SpellName(n') + after'
    ensures n.Anonymous? == n'.Anonymous? && n.Ident? == n'.Ident? && n.Quoted? == n'.Quoted?
  {
    hide Paired;
    var t := SpellName(n) + after;
    assert n.Quoted? ==> t[0] == SpellName(n)[0] == '"';
    assert n'.Quoted? ==> t[0] == SpellName(n')[0] == '"';
    assert n.Ident? ==> NameChar(n.name[0]) && t[0] == n.name[0];
    assert n'.Ident? ==> NameChar(n'.name[0]) && t[0] == n'.name[0];
    assert n.Anonymous? ==> t == after;
    assert n'.Anonymous? ==> t == after';
  }

  /** Text between quotes: what is between them and what follows. */
  lemma Unquote(q: string, b: string, after: string, b': string, after': string)
    requires q + b + q + after == q + b' + q + after'
    ensures b + q + after == b' + q + after'
  {
    assert q + b + q + after == q + (b + q + after);
    assert q + b' + q + after' == q + (b' + q + after');
    CancelLeft(q, b + q + after, q, b' + q + after');
  }

  lemma NameUnique(n: ParamName, after: string, n': ParamName, after': string)
    requires NamedFits(n, after) && NamedFits(n', after') && SpellName(n) + after == SpellName(n') + after'
    ensures n == n'
  {
    NameKind(n, after, n', after');
    hide Paired;
    match n {
      case Anonymous =>
      case Quoted(raw) =>
        Unquote("\"", raw, after, n'.raw, after');
        QuotedUnique('"', raw, after, n'.raw, after');
      case Ident(name) => IdentUnique(name, after, n'.name, after');
    }
  }

  lemma ParamUnique(d: Reading, p: Piece, after: string, q: Piece, after': string)
    requires Fits(d, p, after) && Fits(d, q, after') && Spell(p) + after == Spell(q) + after'
    requires p.Param? && q.Param?
    ensures p == q
  {
    hide NamedFits;
    Assoc([p.designator], SpellName(p.name), after);
    Assoc([q.designator], SpellName(q.name), after');
    CancelLeft([p.designator], SpellName(p.name) + after, [q.designator], SpellName(q.name) + after');
    NameUnique(p.name, after, q.name, after');
  }

  lemma IdentUnique(n: string, after: string, n': string, after': string)
    requires NamedFits(Ident(n), after) && NamedFits(Ident(n'), after') && n + after == n' + after'
    ensures n == n'
  {
    if |n| <= |n'| {
      StretchUnique(n, after, n', after', |n|, |n'|);
    } else {
      StretchUnique(n', after', n, after, |n'|, |n|);
    }
  }

  lemma LineUnique(d: Reading, b: string, after: string, b': string, after': string)
    requires Fits(d, LineComment(b), after) && Fits(d, LineComment(b'), after') && b + after == b' + after'
    ensures b == b'
  {
    if |b| <= |b'| {
      StretchUnique(b, after, b', after', |b|, |b'|);
    } else {
      StretchUnique(b', after', b, after, |b'|, |b|);
    }
  }

  /** Text after an opening mark. */
  lemma Uncover(m: string, b: string, after: string, b': string, after': string)
    requires m + b + after == m + b' + after'
    ensures b + after == b' + after'
  {
    Assoc(m, b, after);
    Assoc(m, b', after');
    CancelLeft(m, b + after, m, b' + after');
  }

  lemma SamePiece(d: Reading, p: Piece, after: string, q: Piece, after': string)
    requires Fits(d, p, after) && Fits(d, q, after') && Spell(p) + after == Spell(q) + after'
    ensures p == q
  {
    FirstPieceKind(d, p, after, q, after');
    hide Paired;
    hide NoCommentEnd;
    hide NamedFits;
    match p {
      case Plain(c) => assert [c] == Spell(p) && (Spell(p) + after)[0] == c;
      case Param(_, _) => ParamUnique(d, p, after, q, after');
      case Literal(b) =>
        Unquote("'", b, after, q.body, after');
        QuotedUnique('\'', b, after, q.body, after');
      case QuotedId(b) =>
        Unquote("\"", b, after, q.body, after');
        QuotedUnique('"', b, after, q.body, after');
      case LineComment(b) =>
        Uncover("--", b, after, q.body, after');
        LineUnique(d, b, after, q.body, after');
      case BlockComment(b) =>
        Assoc("/*" + b, "*/", after);
        Assoc("/*" + q.body, "*/", after');
        Uncover("/*", b, "*/" + after, q.body, "*/" + after');
        Assoc(b, "*/", after);
        Assoc(q.body, "*/", after');
        CommentUnique(b, after, q.body, after');
    }
  }

  /** The first piece of a text, and where it ends, are determined by the text. */
  lemma FirstPieceUnique(d: Reading, p: Piece, after: string, q: Piece, after': string)
    requires Fits(d, p, after) && Fits(d, q, after') && Spell(p) + after == Spell(q) + after'
    ensures p == q && after == after'
  {
    SamePiece(d, p, after, q, after');
    hide Fits;
    CancelLeft(Spell(p), after, Spell(q), after');
  }

  lemma SpellNonempty(p: Piece, d: Reading, after: string)
    requires Fits(d, p, after)
    ensures Spell(p) != ""
  {
  }

  /** The first piece of a nonempty beginning of a reading, taken off. */
  lemma ReadsFirst(d: Reading, ps: seq<Piece>, after: string, text: string)
    requires Reads(d, ps, after, text) && ps != []
    ensures var rest := SpellAll(ps[1..]) + after;
      Fits(d, ps[0], rest) && Spell(ps[0]) + rest == text && Reads(d, ps[1..], after, rest)
  {
    hide Fits;
    Assoc(Spell(ps[0]), SpellAll(ps[1..]), after);
  }

  /** Of two beginnings of readings of the same text, where one is a complete
      reading, the other is a prefix of it. */
  lemma {:induction false} ReadingsAgree(d: Reading, ps: seq<Piece>, after: string, qs: seq<Piece>, text: string)
    requires Reads(d, ps, after, text) && Reads(d, qs, "", text)
    ensures ps <= qs && Reads(d, qs[|ps|..], "", after)
  {
    hide Fits;
    if ps == [] {
      assert text == after && qs[0..] == qs;
    } else {
      ReadsFirst(d, ps, after, text);
      var restP := SpellAll(ps[1..]) + after;
      SpellNonempty(ps[0], d, restP);
      assert qs != [];
      ReadsFirst(d, qs, "", text);
      FirstPieceUnique(d, ps[0], restP, qs[0], SpellAll(qs[1..]) + "");
      ReadingsAgree(d, ps[1..], after, qs[1..], restP);
      assert qs[1..][|ps| - 1..] == qs[|ps|..];
      assert ps == [ps[0]] + ps[1..] && qs == [qs[0]] + qs[1..];
    }
  }

  /** A text has at most one complete reading. */
  lemma ReadingUnique(d: Reading, ps: seq<Piece>, qs: seq<Piece>, text: string)
    requires Reads(d, ps, "", text) && Reads(d, qs, "", text)
    ensures ps == qs
  {
    ReadingsAgree(d, ps, "", qs, text);
    var rest := qs[|ps|..];
    if rest != [] {
      ReadsFirst(d, rest, "", "");
    }
  }
}
