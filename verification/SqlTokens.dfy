/** Where a script is cut, said without the automaton: a script is a text of tokens, and it
    is cut at the semicolons that are tokens, not at those in comments and literals. */
module SqlTokens {
  import opened SqlSplit

  /** Literal: a closed literal of this content, its quotes written twice. Unclosed: one that
      goes on to the end of the script. */
  datatype Token = Plain(c: char) | Literal(body: string) | Unclosed(body: string) | Comment(text: string) | Semicolon

  function Doubled(s: string): string {
    if s == "" then "" else (if s[0] == '\'' then "''" else [s[0]]) + Doubled(s[1..])
  }

  function Shown(t: Token): string {
    match t
    case Plain(c) => [c]
    case Literal(body) => "'" + Doubled(body) + "'"
    case Unclosed(body) => "'" + Doubled(body)
    case Comment(text) => "--" + text
    case Semicolon => ";"
  }

  function Text(ts: seq<Token>): string {
    if ts == [] then "" else Shown(ts[0]) + Text(ts[1..])
  }

  /** `t` can stand in front of `rest`. */
  predicate Fits(t: Token, rest: string) {
    match t
    case Plain(c) => c != ';' && c != '\'' && (c == '-' && rest != "" ==> rest[0] != '-')
    case Literal(_) => true
    case Unclosed(_) => rest == ""
    case Comment(text) => '\n' !in text && (rest != "" ==> rest[0] == '\n')
    case Semicolon => true
  }

  predicate Good(ts: seq<Token>) {
    ts == [] || (Fits(ts[0], Text(ts[1..])) && Good(ts[1..]))
  }

  /** The groups with a semicolon between each and the next. */
  function Joint(gs: seq<seq<Token>>): seq<Token> {
    if gs == [] then []
    else if |gs| == 1 then gs[0]
    else gs[0] + [Semicolon] + Joint(gs[1..])
  }

  function Texts(gs: seq<seq<Token>>): seq<string> {
    if gs == [] then [] else [Text(gs[0])] + Texts(gs[1..])
  }

  predicate Grouped(gs: seq<seq<Token>>) {
    gs != [] && forall i :: 0 <= i < |gs| ==> Semicolon !in gs[i]
  }

  // --------------------------------------------------------- reading tokens

  lemma {:induction false} ReadBody(body: string, rest: string, cur: string)
    ensures Pieces(Doubled(body) + rest, Quoted, cur) == Pieces(rest, Quoted, cur + Doubled(body))
  {
    if body == "" {
      assert "" + rest == rest && cur + "" == cur;
    } else {
      hide Pieces;
      var c := body[0];
      var shown, s := if c == '\'' then "''" else [c], Doubled(body[1..]) + rest;
      assert Doubled(body) + rest == shown + s;
      ReadCharacter(c, s, cur);
      ReadBody(body[1..], rest, cur + shown);
      assert cur + Doubled(body) == cur + shown + Doubled(body[1..]);
    }
  }

  lemma ReadCharacter(c: char, s: string, cur: string)
    ensures var shown := if c == '\'' then "''" else [c];
      Pieces(shown + s, Quoted, cur) == Pieces(s, Quoted, cur + shown)
  {
    hide Pieces;
    if c == '\'' {
      ReadOne("''" + s, Quoted, cur);
      assert ("''" + s)[1..] == "'" + s && ("'" + s)[1..] == s;
      ReadOne("'" + s, Normal, cur + "'");
      assert cur + "'" + "'" == cur + "''";
    } else {
      ReadOne([c] + s, Quoted, cur);
      assert ([c] + s)[1..] == s;
    }
  }

  lemma {:induction false} ReadQuoted(t: Token, rest: string, cur: string)
    requires (t.Literal? || t.Unclosed?) && Fits(t, rest)
    ensures Pieces(Shown(t) + rest, Normal, cur) == Pieces(rest, Normal, cur + Shown(t))
  {
    hide Pieces, Doubled;
    var s := Doubled(t.body) + if t.Literal? then "'" + rest else "";
    assert Shown(t) + rest == "'" + s && ("'" + s)[1..] == s;
    assert Pieces("'" + s, Normal, cur) == Pieces(s, Quoted, cur + "'") by { ReadOne("'" + s, Normal, cur); }
    if t.Literal? {
      ReadBody(t.body, "'" + rest, cur + "'");
      ReadOne("'" + rest, Quoted, cur + "'" + Doubled(t.body));
      assert ("'" + rest)[1..] == rest;
      assert cur + "'" + Doubled(t.body) + "'" == cur + Shown(t);
    } else {
      ReadBody(t.body, "", cur + "'");
      ReadNone(Quoted, cur + "'" + Doubled(t.body));
      ReadNone(Normal, cur + Shown(t));
      assert cur + "'" + Doubled(t.body) == cur + Shown(t);
    }
  }

  lemma ReadOne(s: string, mode: Mode, cur: string)
    requires s != "" && !Cuts(mode, s)
    ensures Pieces(s, mode, cur) == Pieces(s[1..], After(mode, s), cur + [s[0]])
  {
  }

  lemma ReadNone(mode: Mode, cur: string)
    ensures Pieces("", mode, cur) == [cur]
  {
  }

  lemma {:induction false} ReadToken(t: Token, rest: string, cur: string)
    requires t != Semicolon && Fits(t, rest)
    ensures Pieces(Shown(t) + rest, Normal, cur) == Pieces(rest, Normal, cur + Shown(t))
  {
    hide Pieces, Doubled;
    var s := Shown(t) + rest;
    match t
    case Plain(c) =>
      ReadOne(s, Normal, cur);
      assert s[1..] == rest;
    case Comment(text) =>
      CommentRun(s, |Shown(t)|, cur);
      assert s[|Shown(t)|..] == rest && s[..|Shown(t)|] == Shown(t);
    case _ => ReadQuoted(t, rest, cur);
  }

  lemma {:induction false} ReadGroup(g: seq<Token>, more: seq<Token>, cur: string)
    requires Good(g + more) && Semicolon !in g
    ensures Good(more) && Pieces(Text(g + more), Normal, cur) == Pieces(Text(more), Normal, cur + Text(g))
  {
    hide Pieces, Shown, Fits;
    if g == [] {
      assert g + more == more && cur + "" == cur;
    } else {
      assert (g + more)[1..] == g[1..] + more;
      ReadToken(g[0], Text(g[1..] + more), cur);
      ReadGroup(g[1..], more, cur + Shown(g[0]));
      assert cur + Shown(g[0]) + Text(g[1..]) == cur + Text(g);
    }
  }

  /** The pieces of a text of tokens are the texts between the semicolons among them. */
  lemma {:induction false} PiecesOfTokens(gs: seq<seq<Token>>)
    requires Grouped(gs) && Good(Joint(gs))
    ensures Pieces(Text(Joint(gs)), Normal, "") == Texts(gs)
    decreases |gs|
  {
    hide Good, Text;
    if |gs| == 1 {
      assert gs[0] + [] == gs[0];
      ReadGroup(gs[0], [], "");
      LastPiece(gs[0]);
      assert gs[1..] == [];
    } else {
      var tail := Joint(gs[1..]);
      assert Joint(gs) == gs[0] + ([Semicolon] + tail);
      ReadGroup(gs[0], [Semicolon] + tail, "");
      CutPiece(gs[0], tail);
      assert Grouped(gs[1..]) by { forall i | 0 <= i < |gs[1..]| ensures Semicolon !in gs[1..][i] { assert gs[1..][i] == gs[i + 1]; } }
      PiecesOfTokens(gs[1..]);
    }
  }

  lemma LastPiece(g: seq<Token>)
    ensures Pieces(Text([]), Normal, "" + Text(g)) == [Text(g)]
  {
    assert "" + Text(g) == Text(g);
  }

  lemma CutPiece(g: seq<Token>, tail: seq<Token>)
    requires Good([Semicolon] + tail)
    ensures Good(tail)
    ensures Pieces(Text([Semicolon] + tail), Normal, "" + Text(g)) == [Text(g)] + Pieces(Text(tail), Normal, "")
  {
    assert ([Semicolon] + tail)[1..] == tail;
    assert "" + Text(g) == Text(g);
    assert (";" + Text(tail))[1..] == Text(tail);
  }

  // ------------------------------------------------- every script has tokens

  /** The content of a literal whose opening quote stands before `s`, and what follows it. */
  lemma {:induction false} FindClose(s: string) returns (body: string, closed: bool, rest: string)
    ensures s == Doubled(body) + if closed then "'" + rest else ""
    ensures |rest| <= |s| && (!closed ==> rest == "")
  {
    if s == "" {
      return "", false, "";
    }
    if s[0] != '\'' {
      var b;
      b, closed, rest := FindClose(s[1..]);
      body := [s[0]] + b;
      assert body[1..] == b;
      assert s == [s[0]] + s[1..];
    } else if |s| > 1 && s[1] == '\'' {
      var b;
      b, closed, rest := FindClose(s[2..]);
      body := "'" + b;
      assert body[1..] == b;
      assert s == "''" + s[2..];
    } else {
      body, closed, rest := "", true, s[1..];
      assert s == "'" + rest;
    }
  }

  lemma GoodOn(t: Token, ts: seq<Token>)
    requires Good(ts) && Fits(t, Text(ts))
    ensures Good([t] + ts) && Text([t] + ts) == Shown(t) + Text(ts)
  {
    assert ([t] + ts)[1..] == ts;
  }

  lemma {:induction false} FindNewline(s: string) returns (n: nat)
    ensures n <= |s| && '\n' !in s[..n] && (n < |s| ==> s[n] == '\n')
  {
    if s == "" || s[0] == '\n' {
      n := 0;
    } else {
      var m := FindNewline(s[1..]);
      n := m + 1;
      assert s[..n] == [s[0]] + s[1..][..m];
    }
  }

  lemma {:induction false} Tokenized(s: string) returns (ts: seq<Token>)
    ensures Good(ts) && Text(ts) == s
    decreases |s|
  {
    hide Doubled, Good;
    if s == "" {
      NoTokens();
      return [];
    }
    var t: Token, rest: string;
    if s[0] == ';' {
      t, rest := Semicolon, s[1..];
    } else if s[0] == '\'' {
      var body, closed, r := FindClose(s[1..]);
      t, rest := if closed then Literal(body) else Unclosed(body), r;
    } else if |s| > 1 && s[0] == '-' && s[1] == '-' {
      var n := FindNewline(s[2..]);
      t, rest := Token.Comment(s[2..][..n]), s[2..][n..];
    } else {
      t, rest := Plain(s[0]), s[1..];
    }
    assert s == Shown(t) + rest;
    var more := Tokenized(rest);
    GoodOn(t, more);
    ts := [t] + more;
  }

  lemma NoTokens()
    ensures Good([]) && Text([]) == ""
  {
  }

  lemma {:induction false} Groups(ts: seq<Token>) returns (gs: seq<seq<Token>>)
    ensures Grouped(gs) && Joint(gs) == ts
  {
    if ts == [] {
      gs := [[]];
    } else {
      var more := Groups(ts[1..]);
      if ts[0] == Semicolon {
        gs := [[]] + more;
        assert gs[1..] == more;
      } else {
        gs := [[ts[0]] + more[0]] + more[1..];
        assert gs[1..] == more[1..];
      }
    }
  }

  /** Every script is such a text: its pieces are what stands between the semicolons that are
      neither in a comment nor in a literal. */
  lemma {:induction false} PiecesAre(script: string) returns (gs: seq<seq<Token>>)
    ensures Grouped(gs) && Good(Joint(gs)) && Text(Joint(gs)) == script
    ensures Pieces(script, Normal, "") == Texts(gs)
  {
    hide Good, Text;
    var ts := Tokenized(script);
    gs := Groups(ts);
    PiecesOfTokens(gs);
  }
}
