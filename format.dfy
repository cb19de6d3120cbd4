/**
  The output file-name template, filled in the way `wavFnFormat.format(fileName=stem)`
  fills it: `{fileName}` becomes the source file's stem, `{{` and `}}` stand for
  single braces, and any other use of a brace fails (the model does not cover
  conversions, format specs or indexing, which `str.format` would accept).
 */
module FileNameFormat {
  import opened Optional

  const Placeholder := "{fileName}"

  /** `template.format(fileName=stem)`, or None outside the modelled subset. */
  function Format(template: string, stem: string): Option<string>
    decreases |template|
  {
    if template == [] then Some([])
    else if |template| >= 2 && template[..2] == "{{" then Prepend("{", Format(template[2..], stem))
    else if |template| >= 2 && template[..2] == "}}" then Prepend("}", Format(template[2..], stem))
    else if |template| >= |Placeholder| && template[..|Placeholder|] == Placeholder then
      Prepend(stem, Format(template[|Placeholder|..], stem))
    else if template[0] == '{' || template[0] == '}' then None
    else Prepend([template[0]], Format(template[1..], stem))
  }

  function Prepend(s: string, o: Option<string>): Option<string> {
    match o
    case None => None
    case Some(t) => Some(s + t)
  }

  // ---------------------------------------------------------------------------
  // An independent description of templates: a sequence of pieces.

  /** One piece of a template: a literal character or the file-name placeholder. */
  datatype Piece = Char(c: char) | FileName

  /** The text a piece stands for, once filled in. */
  function PieceText(p: Piece, stem: string): string {
    match p
    case Char(c) => [c]
    case FileName => stem
  }

  function Fill(pieces: seq<Piece>, stem: string): string {
    if pieces == [] then [] else PieceText(pieces[0], stem) + Fill(pieces[1..], stem)
  }

  /** How the pieces are written in a template string, with braces doubled. */
  function Spell(pieces: seq<Piece>): string {
    if pieces == [] then []
    else SpellPiece(pieces[0]) + Spell(pieces[1..])
  }

  function SpellPiece(p: Piece): string {
    match p
    case FileName => Placeholder
    case Char(c) => if c == '{' then "{{" else if c == '}' then "}}" else [c]
  }

  /** Formatting a template proceeds piece by piece. */
  lemma FormatPiece(p: Piece, rest: string, stem: string)
    ensures Format(SpellPiece(p) + rest, stem)
         == Prepend(PieceText(p, stem), Format(rest, stem))
  {
    var t := SpellPiece(p) + rest;
    match p
    case FileName =>
      assert |t| >= |Placeholder|;
      assert t[..2] == "{f" && t[..2] != "{{" && t[..2] != "}}";
      assert t[..|Placeholder|] == Placeholder;
      assert t[|Placeholder|..] == rest;
      assert Format(t, stem) == Prepend(stem, Format(rest, stem));
    case Char(c) =>
      if c == '{' {
        assert t[..2] == "{{";
        assert t[2..] == rest;
      } else if c == '}' {
        assert t[..2] == "}}" && t[..2] != "{{";
        assert t[2..] == rest;
      } else {
        assert t[0] == c && t[1..] == rest;
        if |t| >= 2 {
          assert t[..2][0] == c;
        }
        if |t| >= |Placeholder| {
          assert t[..|Placeholder|][0] == c;
        }
      }
  }

  /** Every template spelled from pieces formats, and yields exactly those pieces
      filled in: the literal text, single braces for doubled ones, and the stem
      wherever `{fileName}` stands. */
  lemma {:induction false} FormatSpell(pieces: seq<Piece>, stem: string)
    ensures Format(Spell(pieces), stem) == Some(Fill(pieces, stem))
  {
    if pieces != [] {
      FormatSpell(pieces[1..], stem);
      FormatPiece(pieces[0], Spell(pieces[1..]), stem);
    }
  }

  /** Any template that formats is the spelling of some pieces. */
  lemma {:induction false} FormatOnlySpelled(template: string, stem: string) returns (pieces: seq<Piece>)
    requires Format(template, stem).Some?
    ensures Spell(pieces) == template
    ensures Format(template, stem) == Some(Fill(pieces, stem))
    decreases |template|
  {
    if template == [] {
      pieces := [];
    } else {
      var p: Piece, n: nat;
      if |template| >= 2 && template[..2] == "{{" {
        p, n := Char('{'), 2;
      } else if |template| >= 2 && template[..2] == "}}" {
        p, n := Char('}'), 2;
      } else if |template| >= |Placeholder| && template[..|Placeholder|] == Placeholder {
        p, n := FileName, |Placeholder|;
      } else {
        p, n := Char(template[0]), 1;
      }
      assert template[..n] == SpellPiece(p);
      var rest := FormatOnlySpelled(template[n..], stem);
      pieces := [p] + rest;
      assert template == template[..n] + template[n..];
      assert pieces[1..] == rest;
      FormatSpell(pieces, stem);
    }
  }

  /** A template without braces comes out unchanged. */
  lemma {:induction false} FormatLiteral(template: string, stem: string)
    requires '{' !in template && '}' !in template
    ensures Format(template, stem) == Some(template)
    decreases |template|
  {
    if template != [] {
      assert template[0] != '{' && template[0] != '}';
      if |template| >= 2 {
        assert template[..2][0] == template[0];
      }
      if |template| >= |Placeholder| {
        assert template[..|Placeholder|][0] == template[0];
      }
      FormatLiteral(template[1..], stem);
      assert [template[0]] + template[1..] == template;
    }
  }

  /** The template of the script's settings: 'JPN_P1_02' becomes 'JPN_P1_02.wav',
      and so does any other stem, braces included, become itself plus '.wav'. */
  lemma FormatWavTemplate(stem: string)
    ensures Format("{fileName}.wav", stem) == Some(stem + ".wav")
  {
    assert "{fileName}.wav" == Placeholder + ".wav";
    FormatPiece(FileName, ".wav", stem);
    FormatLiteral(".wav", stem);
  }

  /** A replacement field other than `{fileName}` fails in the modelled subset
      of `str.format`, whatever follows it and whatever the stem. */
  lemma FormatUnknownField(n: string, rest: string, stem: string)
    requires n != "fileName" && '{' !in n && '}' !in n
    ensures Format("{" + n + "}" + rest, stem) == None
  {
    var t := "{" + n + "}" + rest;
    assert t[0] == '{';
    assert t[1] == if n == [] then '}' else n[0];
    assert t[..2][1] == t[1];
    if |t| >= |Placeholder| {
      var head := t[..|Placeholder|];
      if |n| < 8 {
        assert head[|n| + 1] == '}' != Placeholder[|n| + 1];
      } else if |n| == 8 {
        assert head[1..9] == n;
        assert Placeholder[1..9] == "fileName";
      } else {
        assert head[9] == n[8] != Placeholder[9];
      }
    }
  }
}
