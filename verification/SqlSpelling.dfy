/** What the grammar of statements comes to in letters: which characters make up each
    piece, what a parameter is called, and what can be written between quotes. */
module SqlSpelling {
  import opened Text
  import opened SqlGrammar
  import opened SqlOutcome

  /** The characters of a name, by their codes: digits, capital and small letters, the
      underscore and the dollar sign. */
  lemma NameLetters(c: char)
    ensures NameChar(c) <==>
      48 <= c as int <= 57 || 65 <= c as int <= 90 || 97 <= c as int <= 122 || c as int == 95 || c as int == 36
  {
  }

  /** A single character: not a quote, not the designator of a parameter, and not the
      beginning of a comment. */
  lemma PlainCharacters(d: Reading, c: char, after: string)
    ensures Fits(d, Plain(c), after) <==>
      && c != '\'' && c != '"' && c != '?' && c != ':' && c != '@'
      && ([c] + after)[..if |after| > 0 then 2 else 1] != "--"
      && ([c] + after)[..if |after| > 0 then 2 else 1] != "/*"
  {
    if |after| > 0 {
      assert ([c] + after)[..2] == [c, after[0]];
    }
  }

  /** A line comment goes on to the next line feed or, as the code has it, to the next
      letter r; in the sense of SQL, to the next carriage return. */
  lemma LineComments(d: Reading, body: string, after: string)
    ensures var other := if d == AsWritten then 'r' else '\r';
      Fits(d, LineComment(body), after) <==>
        && (forall i :: 0 <= i < |body| ==> body[i] != '\n' && body[i] != other)
        && (after != "" ==> after[0] == '\n' || after[0] == other)
  {
  }

  /** A block comment ends at the first star that a slash follows. */
  lemma BlockComments(d: Reading, body: string, after: string)
    ensures Fits(d, BlockComment(body), after) <==>
      forall k :: 0 <= k < |body| - 1 ==> !(body[k] == '*' && body[k + 1] == '/')
  {
  }

  /** A parameter begins with a question mark, a colon or an at sign; only after a
      question mark may the name be missing. A name without quotes is as long as it
      can be. */
  lemma Parameters(d: Reading, c: char, n: ParamName, after: string)
    ensures Fits(d, Param(c, n), after) <==>
      && (c == '?' || c == ':' || c == '@')
      && match n
         case Anonymous => c == '?' && (after != "" ==> after[0] != '"' && !NameChar(after[0]))
         case Ident(name) =>
           && |name| > 0 && (forall i :: 0 <= i < |name| ==> NameChar(name[i]))
           && (after != "" ==> !NameChar(after[0]))
         case Quoted(raw) => Paired(raw, '"') && (after != "" ==> after[0] != '"')
  {
  }

  // ---- When a text can be read ----

  /** Each piece is judged by all of the text after it. */
  lemma {:induction false} AllFitByPiece(d: Reading, ps: seq<Piece>, after: string)
    ensures AllFit(d, ps, after) <==>
      forall k :: 0 <= k < |ps| ==> Fits(d, ps[k], SpellAll(ps[k + 1..]) + after)
  {
    hide Fits, SpellAll;
    if ps != [] {
      AllFitByPiece(d, ps[1..], after);
      forall k | 0 < k < |ps| ensures ps[k] == ps[1..][k - 1] && ps[k + 1..] == ps[1..][k..] {
      }
      if AllFit(d, ps, after) {
        forall k | 0 <= k < |ps| ensures Fits(d, ps[k], SpellAll(ps[k + 1..]) + after) {
          if k > 0 {
            assert Fits(d, ps[1..][k - 1], SpellAll(ps[1..][k - 1 + 1..]) + after);
          }
        }
      }
      if forall k :: 0 <= k < |ps| ==> Fits(d, ps[k], SpellAll(ps[k + 1..]) + after) {
        forall k | 0 <= k < |ps[1..]| ensures Fits(d, ps[1..][k], SpellAll(ps[1..][k + 1..]) + after) {
          assert Fits(d, ps[k + 1], SpellAll(ps[k + 2..]) + after);
        }
      }
    }
  }

  /** A text can be read if it is one or more pieces in a row, each complete where it
      stands, and each parameter preceded by something else than a parameter. */
  lemma ReadableTexts(d: Reading, ps: seq<Piece>, text: string)
    ensures Succeeds(d, ps, text) <==>
      && |text| > 0 && text == SpellAll(ps)
      && (forall k :: 0 <= k < |ps| ==> Fits(d, ps[k], SpellAll(ps[k + 1..])))
      && (forall k :: 0 <= k < |ps| && ps[k].Param? ==> k > 0 && !ps[k - 1].Param?)
  {
    hide Fits, SpellAll, AllFit;
    AllFitByPiece(d, ps, "");
    assert SpellAll(ps) + "" == SpellAll(ps);
    forall k | 0 <= k < |ps|
      ensures Fits(d, ps[k], SpellAll(ps[k + 1..]) + "") == Fits(d, ps[k], SpellAll(ps[k + 1..])) {
      assert SpellAll(ps[k + 1..]) + "" == SpellAll(ps[k + 1..]);
    }
  }

  // ---- What a parameter is called ----

  /** The name of a parameter, from its spelling: what follows the designator, without
      the quotes; nothing if that is empty. */
  lemma NameFromText(d: Reading, p: Piece, after: string)
    requires Fits(d, p, after) && p.Param?
    ensures var name, text := NameOf(p.name), Spell(p);
      && |text| > 0 && (text[0] == '?' || text[0] == ':' || text[0] == '@')
      && (name == None <==> text[1..] == "" || text[1..] == "\"\"")
      && (name != None ==> text[1..] == if text[1] == '"' then "\"" + name.value + "\"" else name.value)
      && (name != None ==> name.value != "")
  {
    hide Paired;
    var text := Spell(p);
    assert text[1..] == SpellName(p.name);
    match p.name {
      case Anonymous =>
      case Ident(n) => assert NameChar(n[0]) && n[0] != '"';
      case Quoted(raw) =>
        assert text[1..] == "\"" + raw + "\"";
        assert |text[1..]| == |raw| + 2;
    }
  }

  /** The names handed to the caller, one for each parameter, from their spellings. */
  lemma {:induction false} NamesFromText(d: Reading, ps: seq<Piece>, after: string)
    requires AllFit(d, ps, after)
    ensures |NamesOf(ps)| == |ParamsOf(ps)|
    ensures forall i :: 0 <= i < |NamesOf(ps)| ==>
      var name, text := NamesOf(ps)[i], Spell(ParamsOf(ps)[i]);
      && |text| > 0 && (text[0] == '?' || text[0] == ':' || text[0] == '@')
      && (name == None <==> text[1..] == "" || text[1..] == "\"\"")
      && (name != None ==> text[1..] == if text[1] == '"' then "\"" + name.value + "\"" else name.value)
  {
    if ps != [] {
      hide Fits, Spell, NameOf;
      NamesFromText(d, ps[1..], after);
      if ps[0].Param? {
        NameFromText(d, ps[0], SpellAll(ps[1..]) + after);
        assert NamesOf(ps)[0] == NameOf(ps[0].name) && ParamsOf(ps)[0] == ps[0];
        assert NamesOf(ps)[1..] == NamesOf(ps[1..]) && ParamsOf(ps)[1..] == ParamsOf(ps[1..]);
        forall i | 0 < i < |NamesOf(ps)|
          ensures NamesOf(ps)[i] == NamesOf(ps[1..])[i - 1] && ParamsOf(ps)[i] == ParamsOf(ps[1..])[i - 1] {
        }
      } else {
        assert NamesOf(ps) == NamesOf(ps[1..]) && ParamsOf(ps) == ParamsOf(ps[1..]);
      }
    }
  }

  // ---- What can be written between quotes ----

  /** A text with every q written twice. */
  function Doubled(raw: string, q: char): string {
    if raw == "" then "" else (if raw[0] == q then [q, q] else [raw[0]]) + Doubled(raw[1..], q)
  }

  /** The text that a paired one stands for. */
  function Undoubled(s: string, q: char): string
    requires Paired(s, q)
  {
    if s == "" then "" else if s[0] == q then [q] + Undoubled(s[2..], q) else [s[0]] + Undoubled(s[1..], q)
  }

  /** Any text at all can be written between quotes, by doubling the quotes in it, and
      is read back from there. */
  lemma {:induction false} DoublingRoundTrip(raw: string, q: char)
    ensures Paired(Doubled(raw, q), q) && Undoubled(Doubled(raw, q), q) == raw
  {
    if raw != "" {
      DoublingRoundTrip(raw[1..], q);
      var s := Doubled(raw, q);
      if raw[0] == q {
        assert s[2..] == Doubled(raw[1..], q);
      } else {
        assert s[1..] == Doubled(raw[1..], q);
      }
    }
  }

  /** And nothing else can: what stands between quotes is a doubled text. */
  lemma {:induction false} PairedIsDoubled(s: string, q: char)
    requires Paired(s, q)
    ensures Doubled(Undoubled(s, q), q) == s
  {
    if s != "" {
      if s[0] == q {
        PairedIsDoubled(s[2..], q);
        assert ([q] + Undoubled(s[2..], q))[1..] == Undoubled(s[2..], q);
        assert s == [q, q] + s[2..];
      } else {
        PairedIsDoubled(s[1..], q);
        assert ([s[0]] + Undoubled(s[1..], q))[1..] == Undoubled(s[1..], q);
        assert s == [s[0]] + s[1..];
      }
    }
  }

  /** Doubling goes character by character: two of each q, one of any other. */
  lemma DoubledFirst(c: char, s: string, q: char)
    ensures Doubled("", q) == "" && Doubled([c] + s, q) == (if c == q then [q, q] else [c]) + Doubled(s, q)
  {
    assert ([c] + s)[1..] == s;
  }

  /** So every string can be written as a literal and as a quoted identifier, in any
      place where no quote of the same kind follows. */
  lemma EveryTextCanBeQuoted(d: Reading, raw: string, after: string)
    ensures after == "" || after[0] != '\'' ==> Fits(d, Literal(Doubled(raw, '\'')), after)
    ensures after == "" || after[0] != '"' ==> Fits(d, QuotedId(Doubled(raw, '"')), after)
    ensures Spell(Literal(Doubled(raw, '\''))) == "'" + Doubled(raw, '\'') + "'"
    ensures Spell(QuotedId(Doubled(raw, '"'))) == "\"" + Doubled(raw, '"') + "\""
  {
    DoublingRoundTrip(raw, '\'');
    DoublingRoundTrip(raw, '"');
  }
}
