/** Splitting a SQL script into statements: the program's index-driven loops, and the
    character automaton they amount to. */
module SqlSplit {
  import opened Selections

  datatype Mode = Normal | Comment | Quoted

  /** unicode.IsSpace. */
  predicate IsSpace(c: char) {
    || c in {' ', '\t', '\n', '\U{0B}', '\U{0C}', '\r', '\U{85}', '\U{A0}', '\U{1680}'}
    || '\U{2000}' <= c <= '\U{200A}'
    || c in {'\U{2028}', '\U{2029}', '\U{202F}', '\U{205F}', '\U{3000}'}
  }

  function TrimLeft(s: string): string {
    if s != "" && IsSpace(s[0]) then TrimLeft(s[1..]) else s
  }

  function TrimRight(s: string): string {
    if s != "" && IsSpace(s[|s| - 1]) then TrimRight(s[..|s| - 1]) else s
  }

  function Trim(s: string): string { TrimRight(TrimLeft(s)) }

  // ----------------------------------------------------------- automaton

  /** The mode after the first character of `s`. A quote inside a literal closes it; the
      second of two quotes opens it again. A comment starts at the first of two dashes. */
  function After(mode: Mode, s: string): Mode
    requires s != ""
  {
    match mode
    case Normal =>
      if s[0] == '-' && |s| > 1 && s[1] == '-' then Comment
      else if s[0] == '\'' then Quoted
      else Normal
    case Comment => if s[0] == '\n' then Normal else Comment
    case Quoted => if s[0] == '\'' then Normal else Quoted
  }

  predicate Cuts(mode: Mode, s: string)
    requires s != ""
  {
    mode == Normal && s[0] == ';'
  }

  /** The pieces between top-level semicolons, `cur` being what the first one has so far. */
  function Pieces(s: string, mode: Mode, cur: string): seq<string>
  {
    if s == "" then [cur]
    else if Cuts(mode, s) then [cur] + Pieces(s[1..], Normal, "")
    else Pieces(s[1..], After(mode, s), cur + [s[0]])
  }

  /** The pieces trimmed, and the empty ones left out. */
  function Kept(pieces: seq<string>): seq<string> {
    if pieces == [] then []
    else (if Trim(pieces[0]) == "" then [] else [Trim(pieces[0])]) + Kept(pieces[1..])
  }

  function Statements(script: string): seq<string> {
    Kept(Pieces(script, Normal, ""))
  }

  // -------------------------------------------------- the program's loops

  method IndexByte(s: string, from: nat, c: char) returns (j: int)
    requires from <= |s|
    ensures j == -1 ==> forall k :: from <= k < |s| ==> s[k] != c
    ensures j != -1 ==> from <= j < |s| && s[j] == c && forall k :: from <= k < j ==> s[k] != c
  {
    for i := from to |s|
      invariant forall k :: from <= k < i ==> s[k] != c
    {
      if s[i] == c { return i; }
    }
    return -1;
  }

  method SplitStatements(script: string) returns (out: seq<string>)
    ensures out == Statements(script)
  {
    hide Trim, Pieces, Kept;
    out := [];
    var cur := "";
    var i := 0;
    while i < |script|
      invariant i <= |script|
      invariant Statements(script) == out + Kept(Pieces(script[i..], Normal, cur))
    {
      var c := script[i];
      if c == '-' && i + 1 < |script| && script[i + 1] == '-' {
        var j := IndexByte(script, i, '\n');
        var end := if j < 0 then |script| else j;
        CommentAt(script, i, end, cur);
        cur := cur + script[i..end];
        i := end;
        continue;
      }
      if c == '\'' {
        i, cur := CopyLiteral(script, i, cur);
        continue;
      }
      if c == ';' {
        var s := Trim(cur);
        PieceEnds(script, i, cur);
        if s != "" { out := out + [s]; }
        cur := "";
        i := i + 1;
        continue;
      }
      PieceGrows(script, i, cur);
      cur := cur + [c];
      i := i + 1;
    }
    var s := Trim(cur);
    LastEnds(script, i, cur);
    if s != "" { out := out + [s]; }
  }

  lemma PieceEnds(script: string, i: nat, cur: string)
    requires i < |script| && script[i] == ';'
    ensures Kept(Pieces(script[i..], Normal, cur))
      == (if Trim(cur) == "" then [] else [Trim(cur)]) + Kept(Pieces(script[i + 1..], Normal, ""))
  {
    hide Trim;
    assert script[i..][1..] == script[i + 1..];
    var rest := Pieces(script[i + 1..], Normal, "");
    assert ([cur] + rest)[1..] == rest;
  }

  lemma PieceGrows(script: string, i: nat, cur: string)
    requires i < |script| && !Cuts(Normal, script[i..]) && After(Normal, script[i..]) == Normal
    ensures Pieces(script[i..], Normal, cur) == Pieces(script[i + 1..], Normal, cur + [script[i]])
  {
    assert script[i..][1..] == script[i + 1..];
  }

  lemma LastEnds(script: string, i: nat, cur: string)
    requires i == |script|
    ensures Kept(Pieces(script[i..], Normal, cur)) == if Trim(cur) == "" then [] else [Trim(cur)]
  {
    hide Trim;
    assert script[i..] == "" && [cur][1..] == [];
  }

  /** A quoted literal from its opening quote at `start` on. */
  method CopyLiteral(script: string, start: nat, before: string) returns (i: nat, cur: string)
    requires start < |script| && script[start] == '\''
    ensures start < i <= |script|
    ensures Pieces(script[i..], Normal, cur) == Pieces(script[start..], Normal, before)
  {
    assert script[start..][1..] == script[start + 1..];
    cur := before + ['\''];
    i := start + 1;
    while i < |script|
      invariant start < i <= |script|
      invariant Pieces(script[i..], Quoted, cur) == Pieces(script[start..], Normal, before)
    {
      assert script[i..][1..] == script[i + 1..];
      cur := cur + [script[i]];
      if script[i] == '\'' {
        if i + 1 < |script| && script[i + 1] == '\'' {
          assert script[i + 1..][1..] == script[i + 2..];
          cur := cur + [script[i + 1]];
          i := i + 2;
          continue;
        }
        i := i + 1;
        return;
      }
      i := i + 1;
    }
    assert script[i..] == "";
  }

  lemma {:induction false} CommentRun(s: string, n: nat, cur: string)
    requires 1 < n <= |s| && s[0] == '-' && s[1] == '-'
    requires forall k :: 0 <= k < n ==> s[k] != '\n'
    requires n < |s| ==> s[n] == '\n'
    ensures Pieces(s, Normal, cur) == Pieces(s[n..], Normal, cur + s[..n])
  {
    InComment(s, n, cur);
    if n == |s| { assert s[n..] == ""; }
  }

  lemma {:induction false} InComment(s: string, n: nat, cur: string)
    requires n <= |s|
    requires forall k :: 0 <= k < n ==> s[k] != '\n'
    ensures Pieces(s, Comment, cur) == Pieces(s[n..], Comment, cur + s[..n])
  {
    if n == 0 {
      assert s[n..] == s && cur + s[..n] == cur;
    } else {
      InComment(s[1..], n - 1, cur + [s[0]]);
      assert s[1..][n - 1..] == s[n..];
      assert cur + [s[0]] + s[1..][..n - 1] == cur + s[..n];
    }
  }

  lemma CommentAt(script: string, i: nat, end: nat, cur: string)
    requires i + 1 < end <= |script| && script[i] == '-' && script[i + 1] == '-'
    requires forall k :: i <= k < end ==> script[k] != '\n'
    requires end < |script| ==> script[end] == '\n'
    ensures Pieces(script[i..], Normal, cur) == Pieces(script[end..], Normal, cur + script[i..end])
  {
    hide Pieces;
    CommentRun(script[i..], end - i, cur);
    assert script[i..][end - i..] == script[end..] && script[i..][..end - i] == script[i..end];
  }

  // ------------------------------------------------------ nothing is lost

  /** The texts with a semicolon between each and the next. */
  function Joined(xs: seq<string>): string {
    if xs == [] then ""
    else if |xs| == 1 then xs[0]
    else xs[0] + ";" + Joined(xs[1..])
  }

  lemma {:induction false} PiecesRejoin(s: string, mode: Mode, cur: string)
    ensures Pieces(s, mode, cur) != [] && Joined(Pieces(s, mode, cur)) == cur + s
  {
    if s == "" {
    } else if Cuts(mode, s) {
      PiecesRejoin(s[1..], Normal, "");
      assert ([cur] + Pieces(s[1..], Normal, ""))[1..] == Pieces(s[1..], Normal, "");
      assert cur + ";" + ("" + s[1..]) == cur + s;
    } else {
      PiecesRejoin(s[1..], After(mode, s), cur + [s[0]]);
      assert cur + [s[0]] + s[1..] == cur + s;
    }
  }

  /** The pieces put together again are the script: only separators and, by trimming,
      white space at the ends of pieces are given up. */
  lemma {:induction false} NothingLost(script: string)
    ensures Joined(Pieces(script, Normal, "")) == script
    ensures Statements(script) == Kept(Pieces(script, Normal, ""))
  {
    PiecesRejoin(script, Normal, "");
    assert "" + script == script;
  }

  // ------------------------------------------------- what trimming gives up

  predicate Blank(s: string) { forall k :: 0 <= k < |s| ==> IsSpace(s[k]) }

  lemma {:induction false} TrimLeftCuts(s: string) returns (i: nat)
    ensures i <= |s| && TrimLeft(s) == s[i..] && Blank(s[..i]) && (i < |s| ==> !IsSpace(s[i]))
  {
    hide IsSpace;
    if s != "" && IsSpace(s[0]) {
      var n := TrimLeftCuts(s[1..]);
      i := n + 1;
      assert s[1..][n..] == s[i..] && s[..i] == [s[0]] + s[1..][..n];
    } else {
      i := 0;
      assert s[0..] == s;
    }
  }

  lemma {:induction false} TrimRightCuts(s: string) returns (j: nat)
    ensures j <= |s| && TrimRight(s) == s[..j] && Blank(s[j..]) && (j > 0 ==> !IsSpace(s[j - 1]))
  {
    hide IsSpace;
    if s != "" && IsSpace(s[|s| - 1]) {
      var init := s[..|s| - 1];
      j := TrimRightCuts(init);
      assert init[..j] == s[..j] && s[j..] == init[j..] + [s[|s| - 1]];
    } else {
      j := |s|;
      assert s[..j] == s;
    }
  }

  /** Trimming cuts off white space at both ends, all of it, and nothing else. */
  lemma {:induction false} TrimCuts(s: string) returns (i: nat, j: nat)
    ensures i <= j <= |s| && Trim(s) == s[i..j] && Blank(s[..i]) && Blank(s[j..])
    ensures i < j ==> !IsSpace(s[i]) && !IsSpace(s[j - 1])
  {
    hide IsSpace, TrimLeft, TrimRight;
    i := TrimLeftCuts(s);
    var t := s[i..];
    var n := TrimRightCuts(t);
    j := i + n;
    assert t[..n] == s[i..j] && t[n..] == s[j..];
  }

  lemma {:induction false} TrimEmptyIff(s: string)
    ensures Trim(s) == "" <==> Blank(s)
  {
    hide IsSpace, Trim;
    var i, j := TrimCuts(s);
    if i == j {
      forall k | 0 <= k < |s| ensures IsSpace(s[k]) { assert if k < i then s[k] == s[..i][k] else s[k] == s[j..][k - j]; }
    }
  }

  /** The characters that are not white space, in order. */
  function Ink(s: string): string {
    if s == "" then "" else if IsSpace(s[0]) then Ink(s[1..]) else [s[0]] + Ink(s[1..])
  }

  lemma {:induction false} InkOf(a: string, b: string)
    ensures Ink(a + b) == Ink(a) + Ink(b)
  {
    if a == "" {
      assert a + b == b;
    } else {
      InkOf(a[1..], b);
      assert (a + b)[1..] == a[1..] + b && (a + b)[0] == a[0];
      hide IsSpace;
    }
  }

  lemma {:induction false} InkBlank(s: string)
    requires Blank(s)
    ensures Ink(s) == ""
  {
    hide IsSpace;
    if s != "" { InkBlank(s[1..]); }
  }

  lemma {:induction false} InkTrim(s: string)
    ensures Ink(Trim(s)) == Ink(s)
  {
    hide IsSpace, Trim, Ink, Blank;
    var i, j := TrimCuts(s);
    InkBlank(s[..i]);
    InkBlank(s[j..]);
    InkOf(s[..i], s[i..j]);
    InkOf(s[..i] + s[i..j], s[j..]);
    assert s == s[..i] + s[i..j] + s[j..];
  }

  function InkOfAll(xs: seq<string>): string { if xs == [] then "" else Ink(xs[0]) + InkOfAll(xs[1..]) }

  /** The statements are the pieces at the places `at`, in order and each trimmed; the pieces
      left out are those that are nothing but white space. */
  ghost predicate KeptAt(pieces: seq<string>, kept: seq<string>, at: seq<nat>) {
    && |at| == |kept| && Selects(pieces, p => !Blank(p), at)
    && (forall i :: 0 <= i < |at| ==> kept[i] == Trim(pieces[at[i]]))
  }

  lemma {:induction false} KeptCons(p: string, tail: seq<string>)
    ensures Kept([p] + tail) == if Blank(p) then Kept(tail) else [Trim(p)] + Kept(tail)
    ensures InkOfAll(Kept([p] + tail)) == Ink(p) + InkOfAll(Kept(tail))
    ensures InkOfAll([p] + tail) == Ink(p) + InkOfAll(tail)
  {
    hide Trim, Blank, Ink;
    assert ([p] + tail)[1..] == tail && ([Trim(p)] + Kept(tail))[1..] == Kept(tail);
    assert [] + Kept(tail) == Kept(tail);
    TrimEmptyIff(p);
    InkTrim(p);
    if Blank(p) {
      InkBlank(p);
      assert "" + InkOfAll(Kept(tail)) == InkOfAll(Kept(tail));
    }
  }

  lemma {:induction false} KeptMeans(pieces: seq<string>) returns (at: seq<nat>)
    ensures KeptAt(pieces, Kept(pieces), at)
    ensures InkOfAll(Kept(pieces)) == InkOfAll(pieces)
  {
    hide Trim, Blank, Ink, Selects, Rising;
    if pieces == [] {
      at := [];
      SelectsNone((p: string) => !Blank(p));
    } else {
      hide Kept, InkOfAll;
      var p, tail := pieces[0], pieces[1..];
      var rest := KeptMeans(tail);
      assert pieces == [p] + tail;
      KeptCons(p, tail);
      SelectsCons(p, tail, p => !Blank(p), rest);
      at := if Blank(p) then Shifted(rest) else [0] + Shifted(rest);
      forall i | 0 <= i < |rest| ensures pieces[Shifted(rest)[i]] == tail[rest[i]] {}
    }
  }

  /** `x` is `s` without the white space at its ends. */
  ghost predicate CutOut(x: string, s: string) {
    exists i, j :: 0 <= i <= j <= |s| && CutAt(x, s, i, j)
  }

  predicate CutAt(x: string, s: string, i: nat, j: nat)
    requires i <= j <= |s|
  {
    x == s[i..j] && Blank(s[..i]) && Blank(s[j..]) && (i < j ==> !IsSpace(s[i]) && !IsSpace(s[j - 1]))
  }

  /** The statements are, in order, the pieces that are not all white space, without the white
      space at their ends; no other character is lost. */
  lemma {:induction false} StatementsAre(script: string) returns (at: seq<nat>)
    ensures var pieces := Pieces(script, Normal, "");
      && KeptAt(pieces, Statements(script), at)
      && (forall i :: 0 <= i < |at| ==> CutOut(Statements(script)[i], pieces[at[i]]))
      && InkOfAll(Statements(script)) == InkOfAll(pieces)
  {
    hide Trim, Blank, InkOfAll, Pieces;
    var pieces := Pieces(script, Normal, "");
    at := KeptMeans(pieces);
    forall n | 0 <= n < |at| ensures CutOut(Statements(script)[n], pieces[at[n]]) {
      var i, j := TrimCuts(pieces[at[n]]);
      assert CutAt(Statements(script)[n], pieces[at[n]], i, j);
    }
  }

  // ------------------------------------------------- statements and modes

  /** No semicolon of `s` is at top level when reading starts in `mode`. */
  predicate Uncut(s: string, mode: Mode) {
    s == "" || (!Cuts(mode, s) && Uncut(s[1..], After(mode, s)))
  }

  /** The mode reading ends in. */
  function EndMode(s: string, mode: Mode): Mode {
    if s == "" then mode else EndMode(s[1..], After(mode, s))
  }

  /** Where the first top-level semicolon is, or the length. */
  function FirstCut(s: string, mode: Mode): (n: nat)
    ensures n <= |s|
    ensures n < |s| ==> s[n] == ';'
  {
    if s == "" || Cuts(mode, s) then 0 else 1 + FirstCut(s[1..], After(mode, s))
  }

  lemma {:induction false} PiecesAtCut(s: string, mode: Mode, cur: string)
    ensures var n := FirstCut(s, mode);
      Pieces(s, mode, cur) == [cur + s[..n]] + if n == |s| then [] else Pieces(s[n + 1..], Normal, "")
  {
    var n := FirstCut(s, mode);
    if s == "" || Cuts(mode, s) {
      assert cur + s[..0] == cur;
    } else {
      PiecesAtCut(s[1..], After(mode, s), cur + [s[0]]);
      assert cur + [s[0]] + s[1..][..n - 1] == cur + s[..n];
      if n < |s| { assert s[1..][n..] == s[n + 1..]; }
    }
  }

  /** The text before the cut has none; nor has a prefix that is not followed by a dash. */
  lemma {:induction false} PrefixUncut(s: string, mode: Mode, n: nat)
    requires n <= FirstCut(s, mode) && (n < |s| ==> s[n] != '-')
    ensures Uncut(s[..n], mode)
  {
    if n > 0 {
      assert s[1..][n - 1..] == s[n..];
      PrefixUncut(s[1..], After(mode, s), n - 1);
      assert s[..n][1..] == s[1..][..n - 1];
      assert After(mode, s[..n]) == After(mode, s);
    }
  }

  lemma {:induction false} UncutCut(s: string, mode: Mode)
    ensures Uncut(s, mode) <==> FirstCut(s, mode) == |s|
  {
    if s != "" && !Cuts(mode, s) { UncutCut(s[1..], After(mode, s)); }
  }

  /** A text with no space at either end. */
  predicate Trimmed(s: string) {
    s == "" || (!IsSpace(s[0]) && !IsSpace(s[|s| - 1]))
  }

  lemma {:induction false} TrimRightIs(s: string)
    ensures TrimRight(s) <= s
    ensures TrimRight(s) != "" ==> !IsSpace(TrimRight(s)[|TrimRight(s)| - 1])
    ensures forall k :: 0 <= k < |s| && !IsSpace(s[k]) ==> k < |TrimRight(s)|
    ensures |TrimRight(s)| < |s| ==> IsSpace(s[|TrimRight(s)|])
  {
    hide IsSpace;
    if s != "" && IsSpace(s[|s| - 1]) { TrimRightIs(s[..|s| - 1]); }
  }

  lemma {:induction false} TrimLeftIs(s: string)
    ensures TrimLeft(s) != "" ==> !IsSpace(TrimLeft(s)[0])
    ensures Uncut(s, Normal) ==> Uncut(TrimLeft(s), Normal)
  {
    if s != "" && IsSpace(s[0]) { TrimLeftIs(s[1..]); }
  }

  lemma TrimIs(s: string)
    ensures Trimmed(Trim(s))
    ensures Trimmed(s) ==> Trim(s) == s
    ensures Uncut(s, Normal) ==> Uncut(Trim(s), Normal)
  {
    hide IsSpace, TrimLeft, TrimRight, Uncut;
    var t := TrimLeft(s);
    TrimLeftIs(s);
    TrimRightIs(t);
    var n := |TrimRight(t)|;
    assert t[..n] == TrimRight(t);
    if Uncut(s, Normal) {
      UncutCut(t, Normal);
      if n < |t| { SpaceIsNoDash(t[n]); }
      PrefixUncut(t, Normal, n);
    }
    if s != "" && Trimmed(s) { TrimLeftNone(s); }
    if s == "" { TrimEmpty(); }
  }

  lemma SpaceIsNoDash(c: char)
    requires IsSpace(c)
    ensures c != '-'
  {
  }

  lemma TrimLeftNone(s: string)
    requires s != "" && !IsSpace(s[0])
    ensures TrimLeft(s) == s
  {
  }

  lemma TrimEmpty()
    ensures TrimLeft("") == ""
  {
  }

  /** What SplitStatements may return as one statement. */
  predicate Statement(x: string) {
    x != "" && Trimmed(x) && Uncut(x, Normal)
  }

  lemma {:induction false} PiecesUncut(s: string)
    ensures forall i :: 0 <= i < |Pieces(s, Normal, "")| ==> Uncut(Pieces(s, Normal, "")[i], Normal)
    decreases |s|
  {
    hide Pieces, Uncut;
    var n := FirstCut(s, Normal);
    PiecesAtCut(s, Normal, "");
    PrefixUncut(s, Normal, n);
    assert "" + s[..n] == s[..n];
    if n < |s| { PiecesUncut(s[n + 1..]); }
  }

  lemma {:induction false} KeptAre(pieces: seq<string>)
    requires forall i :: 0 <= i < |pieces| ==> Uncut(pieces[i], Normal)
    ensures forall i :: 0 <= i < |Kept(pieces)| ==> Statement(Kept(pieces)[i])
  {
    hide Trim, Trimmed, Uncut;
    if pieces != [] {
      TrimIs(pieces[0]);
      KeptAre(pieces[1..]);
    }
  }

  lemma OnePiece(x: string)
    requires Uncut(x, Normal)
    ensures Pieces(x, Normal, "") == [x]
  {
    hide Pieces;
    UncutCut(x, Normal);
    PiecesAtCut(x, Normal, "");
    assert "" + x[..|x|] == x;
  }

  lemma KeptFirst(x: string, rest: seq<string>)
    requires x != "" && Trimmed(x)
    ensures Kept([x] + rest) == [x] + Kept(rest)
  {
    hide Trim, Trimmed;
    TrimIs(x);
    assert ([x] + rest)[1..] == rest;
  }

  /** Every emitted statement is trimmed, non-empty and free of top-level semicolons, and
      splitting it again yields just itself. */
  lemma {:induction false} Resplit(script: string, i: nat)
    requires i < |Statements(script)|
    ensures var x := Statements(script)[i];
      Statement(x) && Statements(x) == [x]
  {
    hide Pieces, Kept, Trimmed, Uncut;
    PiecesUncut(script);
    KeptAre(Pieces(script, Normal, ""));
    var x := Statements(script)[i];
    OnePiece(x);
    KeptFirst(x, []);
    assert [x] + [] == [x];
    KeptNone();
  }

  lemma KeptNone()
    ensures Kept([]) == []
  {
  }

  // ------------------------------------------------------ joining back

  /** Reading `x` ends at top level, outside comments and literals. */
  predicate Closed(x: string) { EndMode(x, Normal) == Normal }

  lemma {:induction false} CutAfter(x: string, rest: string, mode: Mode)
    requires Uncut(x, mode)
    ensures var n := FirstCut(x + ";" + rest, mode);
      if EndMode(x, mode) == Normal then n == |x| else n > |x|
  {
    var s := x + ";" + rest;
    if x != "" {
      assert s[1..] == x[1..] + ";" + rest;
      assert After(mode, s) == After(mode, x);
      CutAfter(x[1..], rest, After(mode, x));
    }
  }

  lemma {:induction false} FirstStatement(x: string, rest: string)
    requires Statement(x)
    ensures Closed(x) ==> Statements(x + ";" + rest) == [x] + Statements(rest)
    ensures !Closed(x) ==> Statements(x + ";" + rest) != [] && |Statements(x + ";" + rest)[0]| > |x|
  {
    hide Pieces, Trim, Kept, Uncut, EndMode, FirstCut;
    var s := x + ";" + rest;
    var n := FirstCut(s, Normal);
    CutAfter(x, rest, Normal);
    PiecesAtCut(s, Normal, "");
    if Closed(x) {
      assert "" + s[..n] == x && s[n + 1..] == rest;
      KeptFirst(x, Pieces(rest, Normal, ""));
    } else {
      var p := s[..n];
      assert "" + p == p;
      LongTrim(p, |x|);
      KeptLong(p, if n == |s| then [] else Pieces(s[n + 1..], Normal, ""));
    }
  }

  lemma LongTrim(p: string, k: nat)
    requires k < |p| && !IsSpace(p[0]) && !IsSpace(p[k])
    ensures |Trim(p)| > k
  {
    hide IsSpace, TrimRight;
    TrimRightIs(p);
  }

  lemma KeptLong(p: string, rest: seq<string>)
    requires Trim(p) != ""
    ensures Kept([p] + rest) != [] && Kept([p] + rest)[0] == Trim(p)
  {
    hide Trim;
  }

  /** Splitting a semicolon-join of statements gives the list back exactly when every one
      but the last ends at top level. */
  lemma {:induction false} SplitOfJoin(xs: seq<string>)
    requires forall i :: 0 <= i < |xs| ==> Statement(xs[i])
    ensures Statements(Joined(xs)) == xs <==> forall i :: 0 <= i < |xs| - 1 ==> Closed(xs[i])
    decreases |xs|
  {
    hide Statement, Closed, Statements;
    if |xs| == 0 {
      NoStatement();
    } else if |xs| == 1 {
      OneStatement(xs[0]);
    } else {
      var x, rest := xs[0], xs[1..];
      FirstStatement(x, Joined(rest));
      SplitOfJoin(rest);
      assert xs == [x] + rest;
      assert Joined(xs) == x + ";" + Joined(rest);
      if Closed(x) {
        var got := Statements(Joined(rest));
        assert [x] + got == [x] + rest ==> ([x] + got)[1..] == got && ([x] + rest)[1..] == rest;
        forall i | 0 <= i < |rest| - 1 ensures rest[i] == xs[i + 1] {}
        assert (forall i :: 0 <= i < |xs| - 1 ==> Closed(xs[i])) <==> (forall i :: 0 <= i < |rest| - 1 ==> Closed(rest[i])) by {
          if forall i :: 0 <= i < |xs| - 1 ==> Closed(xs[i]) {
            forall i | 0 <= i < |rest| - 1 ensures Closed(rest[i]) { assert Closed(xs[i + 1]); }
          }
          if forall i :: 0 <= i < |rest| - 1 ==> Closed(rest[i]) {
            forall i | 0 <= i < |xs| - 1 ensures Closed(xs[i]) { if i > 0 { assert Closed(rest[i - 1]); } }
          }
        }
      }
    }
  }

  lemma NoStatement()
    ensures Statements("") == []
  {
  }

  lemma OneStatement(x: string)
    requires Statement(x)
    ensures Statements(x) == [x]
  {
    hide Pieces, Kept, Trimmed, Uncut;
    OnePiece(x);
    KeptFirst(x, []);
    KeptNone();
    assert [x] + [] == [x];
  }
}
