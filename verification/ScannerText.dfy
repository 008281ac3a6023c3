/** What the lexer of `Scanner` makes of a text, written out on the text itself: comments end at
    the first line end or at the first closing delimiter, literals at the first mark that is
    not escaped, and the depth counts the braces outside both. */
module ScannerText {
  import opened Scanner

  /** What may stand between the characters of code. */
  datatype Trivia =
    | LineNote(text: string, ending: char)
    | BlockNote(text: string)
    | Literal(mark: char, text: string)

  predicate NoLineEnd(t: string) {
    forall i :: 0 <= i < |t| ==> t[i] != '\r' && t[i] != '\n'
  }

  predicate NoBlockEnd(t: string) {
    forall i :: 0 <= i < |t| - 1 ==> !(t[i] == '*' && t[i + 1] == '/')
  }

  /** Every mark and every backslash in `t` stands in a pair that a backslash begins. */
  predicate Escaped(t: string, mark: char) {
    t == ""
    || (t[0] == '\\' && |t| >= 2 && Escaped(t[2..], mark))
    || (t[0] != '\\' && t[0] != mark && Escaped(t[1..], mark))
  }

  predicate IsClosed(t: Trivia) {
    match t
    case LineNote(text, ending) => NoLineEnd(text) && (ending == '\n' || ending == '\r')
    case BlockNote(text) => NoBlockEnd(text)
    case Literal(mark, text) => (mark == '\'' || mark == '\"' || mark == '`') && Escaped(text, mark)
  }

  function TriviaText(t: Trivia): (text: string)
    ensures |text| >= 2
  {
    match t
    case LineNote(text, ending) => "//" + text + [ending]
    case BlockNote(text) => "/*" + text + "*/"
    case Literal(mark, text) => [mark] + text + [mark]
  }

  // ---------- one piece ----------

  /** Lexing from `from` gets to code at `end`, and nowhere to code or to another depth before it. */
  ghost predicate LeadsTo(s: string, from: Lex, end: nat) {
    && Reach(s, from, Lex(end, Code, from.depth))
    && forall l :: Reach(s, from, l) && l.pos < end ==> l.mode != Code && l.depth == from.depth
  }

  lemma StepLeads(s: string, from: Lex, end: nat)
    requires from.pos < |s| && from.pos < end && from.mode != Code
    requires Advance(s, from) == Lex(end, Code, from.depth)
             || (Advance(s, from).depth == from.depth && LeadsTo(s, Advance(s, from), end))
    ensures LeadsTo(s, from, end)
  {
    var next := Advance(s, from);
    forall l | Reach(s, from, l) && l.pos < end
      ensures l.mode != Code && l.depth == from.depth
    {
      if l != from {
        ReachForward(s, next, l);
      }
    }
  }

  lemma {:induction false} LineLeads(s: string, pos: nat, depth: int, end: nat)
    requires pos < end <= |s| && (s[end - 1] == '\n' || s[end - 1] == '\r')
    requires forall i :: pos <= i < end - 1 ==> s[i] != '\r' && s[i] != '\n'
    ensures LeadsTo(s, Lex(pos, LineComment, depth), end)
    decreases end - pos
  {
    if pos < end - 1 {
      LineLeads(s, pos + 1, depth, end);
    }
    StepLeads(s, Lex(pos, LineComment, depth), end);
  }

  lemma {:induction false} BlockLeads(s: string, pos: nat, depth: int, end: nat)
    requires pos + 2 <= end <= |s| && s[end - 2] == '*' && s[end - 1] == '/'
    requires forall i :: pos <= i < end - 2 ==> !(s[i] == '*' && s[i + 1] == '/')
    ensures LeadsTo(s, Lex(pos, BlockComment, depth), end)
    decreases end - pos
  {
    if pos < end - 2 {
      BlockLeads(s, pos + 1, depth, end);
    }
    StepLeads(s, Lex(pos, BlockComment, depth), end);
  }

  lemma {:induction false} LiteralLeads(s: string, pos: nat, depth: int, mark: char, text: string)
    requires mark != '\\' && Escaped(text, mark)
    requires pos + |text| < |s| && s[pos + |text|] == mark && forall i :: 0 <= i < |text| ==> s[pos + i] == text[i]
    ensures LeadsTo(s, Lex(pos, Quoted(mark), depth), pos + |text| + 1)
    decreases |text|
  {
    if text != "" {
      var step := if text[0] == '\\' then 2 else 1;
      var rest := text[step..];
      forall i | 0 <= i < |rest|
        ensures s[pos + step + i] == rest[i]
      {
        assert s[pos + (step + i)] == text[step + i];
      }
      LiteralLeads(s, pos + step, depth, mark, rest);
      assert s[pos + 0] == text[0];
    }
    StepLeads(s, Lex(pos, Quoted(mark), depth), pos + |text| + 1);
  }

  lemma CharactersOf(b: string, s: string, o: nat)
    requires PartOf(b, s, o)
    ensures forall i :: 0 <= i < |b| ==> s[o + i] == b[i]
  {
    forall i | 0 <= i < |b|
      ensures s[o + i] == b[i]
    {
      assert s[o + i] == s[o..o + |b|][i];
    }
  }

  /** Opening a piece of trivia leaves code, and lexing from there leads to code at its end. */
  ghost predicate Opens(s: string, o: nat, depth: int, end: nat) {
    o < |s| &&
    var inside := Advance(s, Lex(o, Code, depth));
    inside.mode != Code && inside.depth == depth && LeadsTo(s, inside, end)
  }

  lemma LineOpens(s: string, o: nat, depth: int, text: string, ending: char)
    requires IsClosed(LineNote(text, ending)) && PartOf(TriviaText(LineNote(text, ending)), s, o)
    ensures Opens(s, o, depth, o + |text| + 3)
  {
    var b, end := TriviaText(LineNote(text, ending)), o + |text| + 3;
    CharactersOf(b, s, o);
    assert s[o + 0] == b[0] && s[o + 1] == b[1] && s[o + (|text| + 2)] == b[|text| + 2];
    forall i | o + 2 <= i < end - 1
      ensures s[i] != '\r' && s[i] != '\n'
    {
      assert s[o + (i - o)] == b[i - o] == text[i - o - 2];
    }
    LineLeads(s, o + 2, depth, end);
  }

  lemma BlockOpens(s: string, o: nat, depth: int, text: string)
    requires IsClosed(BlockNote(text)) && PartOf(TriviaText(BlockNote(text)), s, o)
    ensures Opens(s, o, depth, o + |text| + 4)
  {
    var b, end := TriviaText(BlockNote(text)), o + |text| + 4;
    CharactersOf(b, s, o);
    assert s[o + 0] == b[0] && s[o + 1] == b[1];
    assert s[o + (|text| + 2)] == b[|text| + 2] && s[o + (|text| + 3)] == b[|text| + 3];
    forall i | o + 2 <= i < end - 2
      ensures !(s[i] == '*' && s[i + 1] == '/')
    {
      assert s[o + (i - o)] == b[i - o] == text[i - o - 2];
      assert s[o + (i - o + 1)] == b[i - o + 1];
      if i < end - 3 {
        assert b[i - o + 1] == text[i - o - 1];
      }
    }
    BlockLeads(s, o + 2, depth, end);
  }

  lemma LiteralOpens(s: string, o: nat, depth: int, mark: char, text: string)
    requires IsClosed(Literal(mark, text)) && PartOf(TriviaText(Literal(mark, text)), s, o)
    ensures Opens(s, o, depth, o + |text| + 2)
  {
    var b := TriviaText(Literal(mark, text));
    CharactersOf(b, s, o);
    assert s[o + 0] == b[0] && s[o + (|text| + 1)] == b[|text| + 1];
    forall i | 0 <= i < |text|
      ensures s[o + 1 + i] == text[i]
    {
      assert s[o + (1 + i)] == b[1 + i];
    }
    LiteralLeads(s, o + 1, depth, mark, text);
  }

  /** A comment up to its line end, a comment up to its closing delimiter, and a literal up to its
      closing mark are skipped: whatever they hold, braces included, the lexer is back in code
      at the same depth right behind them, and nowhere in code before that. */
  lemma TriviaIsSkipped(t: Trivia, s: string, o: nat, depth: int)
    requires IsClosed(t) && PartOf(TriviaText(t), s, o)
    ensures var end := o + |TriviaText(t)|;
      && Reach(s, Lex(o, Code, depth), Lex(end, Code, depth))
      && forall l :: Reach(s, Lex(o, Code, depth), l) && o < l.pos < end ==> l.mode != Code && l.depth == depth
  {
    match t
    case LineNote(text, ending) => LineOpens(s, o, depth, text, ending);
    case BlockNote(text) => BlockOpens(s, o, depth, text);
    case Literal(mark, text) => LiteralOpens(s, o, depth, mark, text);
    assert Opens(s, o, depth, o + |TriviaText(t)|);
  }

  /** A comment or a literal begins at this place of the text. */
  predicate BeginsTrivia(s: string, o: nat)
    requires o < |s|
  {
    || s[o] == '\'' || s[o] == '\"' || s[o] == '`'
    || (s[o] == '/' && o + 1 < |s| && (s[o + 1] == '/' || s[o + 1] == '*'))
  }

  /** Any other character is code; the braces among them change the depth by one. */
  lemma CharacterIsCode(s: string, o: nat, depth: int)
    requires o < |s| && !BeginsTrivia(s, o)
    ensures var after := depth + (if s[o] == '{' then 1 else if s[o] == '}' then -1 else 0);
      Reach(s, Lex(o, Code, depth), Lex(o + 1, Code, after))
  {
    var after := depth + (if s[o] == '{' then 1 else if s[o] == '}' then -1 else 0);
    assert Advance(s, Lex(o, Code, depth)) == Lex(o + 1, Code, after);
  }

  // ---------- whole texts ----------

  /** A text in pieces: comments and literals, and single characters of code. */
  datatype Piece = Skipped(t: Trivia) | Character(c: char)

  function PieceText(p: Piece): (text: string)
    ensures text != ""
  {
    match p
    case Skipped(t) => TriviaText(t)
    case Character(c) => [c]
  }

  function TextOf(ps: seq<Piece>): string {
    if ps == [] then "" else TextOf(ps[..|ps| - 1]) + PieceText(ps[|ps| - 1])
  }

  function Turn(p: Piece): int {
    if p == Character('{') then 1 else if p == Character('}') then -1 else 0
  }

  /** The opening braces of code less the closing ones. */
  function DepthOf(ps: seq<Piece>): int {
    if ps == [] then 0 else DepthOf(ps[..|ps| - 1]) + Turn(ps[|ps| - 1])
  }

  /** The piece is what it seems: trivia is closed, and a character of code opens none. */
  predicate Fits(ps: seq<Piece>, k: nat)
    requires k < |ps|
  {
    match ps[k]
    case Skipped(t) => IsClosed(t)
    case Character(c) =>
      && c != '\'' && c != '\"' && c != '`'
      && (c == '/' && k + 1 < |ps| ==> PieceText(ps[k + 1])[0] != '/' && PieceText(ps[k + 1])[0] != '*')
  }

  predicate InPieces(ps: seq<Piece>) {
    forall k :: 0 <= k < |ps| ==> Fits(ps, k)
  }

  function StartOf(ps: seq<Piece>, k: nat): nat
    requires k <= |ps|
  {
    |TextOf(ps[..k])|
  }

  lemma TextGrows(ps: seq<Piece>, k: nat)
    requires k < |ps|
    ensures TextOf(ps[..k + 1]) == TextOf(ps[..k]) + PieceText(ps[k])
    ensures StartOf(ps, k + 1) == StartOf(ps, k) + |PieceText(ps[k])|
    ensures DepthOf(ps[..k + 1]) == DepthOf(ps[..k]) + Turn(ps[k])
  {
    assert ps[..k + 1][..k] == ps[..k];
  }

  lemma {:induction false} PrefixOfText(ps: seq<Piece>, k: nat)
    requires k <= |ps|
    ensures StartOf(ps, k) <= |TextOf(ps)| && TextOf(ps)[..StartOf(ps, k)] == TextOf(ps[..k])
    decreases |ps| - k
  {
    if k == |ps| {
      assert ps[..k] == ps;
    } else {
      TextGrows(ps, k);
      PrefixOfText(ps, k + 1);
      assert TextOf(ps)[..StartOf(ps, k)] == TextOf(ps)[..StartOf(ps, k + 1)][..StartOf(ps, k)];
    }
  }

  lemma PieceAt(ps: seq<Piece>, k: nat)
    requires k < |ps|
    ensures PartOf(PieceText(ps[k]), TextOf(ps), StartOf(ps, k))
  {
    TextGrows(ps, k);
    PrefixOfText(ps, k + 1);
    var s, o, e := TextOf(ps), StartOf(ps, k), StartOf(ps, k + 1);
    assert s[o..e] == s[..e][o..];
  }

  lemma CharacterIsPlain(ps: seq<Piece>, k: nat)
    requires InPieces(ps) && k < |ps| && ps[k].Character?
    ensures StartOf(ps, k) < |TextOf(ps)| && TextOf(ps)[StartOf(ps, k)] == ps[k].c
    ensures !BeginsTrivia(TextOf(ps), StartOf(ps, k))
  {
    var s, o := TextOf(ps), StartOf(ps, k);
    assert Fits(ps, k);
    hide TextOf;
    TextGrows(ps, k);
    PieceAt(ps, k);
    CharactersOf(PieceText(ps[k]), s, o);
    assert s[o + 0] == ps[k].c;
    if k + 1 < |ps| {
      PieceAt(ps, k + 1);
      CharactersOf(PieceText(ps[k + 1]), s, o + 1);
      assert s[o + 1 + 0] == PieceText(ps[k + 1])[0];
    } else {
      assert ps[..k + 1] == ps;
    }
  }

  /** What the lexer makes of one piece. */
  lemma PieceStep(ps: seq<Piece>, k: nat, depth: int)
    requires InPieces(ps) && k < |ps|
    ensures var s, o, e := TextOf(ps), StartOf(ps, k), StartOf(ps, k + 1);
      && Reach(s, Lex(o, Code, depth), Lex(e, Code, depth + Turn(ps[k])))
      && forall l :: Reach(s, Lex(o, Code, depth), l) && o < l.pos < e ==> l.mode != Code && l.depth == depth
  {
    hide TextOf, Reach;
    TextGrows(ps, k);
    PieceAt(ps, k);
    assert Fits(ps, k);
    match ps[k]
    case Skipped(t) => TriviaIsSkipped(t, TextOf(ps), StartOf(ps, k), depth);
    case Character(c) =>
      CharacterIsPlain(ps, k);
      CharacterIsCode(TextOf(ps), StartOf(ps, k), depth);
  }

  lemma {:induction false} StartIsReached(ps: seq<Piece>, k: nat)
    requires InPieces(ps) && k <= |ps|
    ensures Reach(TextOf(ps), BEGIN, Lex(StartOf(ps, k), Code, DepthOf(ps[..k])))
    decreases k
  {
    hide InPieces, DepthOf, TextOf;
    if k == 0 {
      NoPieces(ps);
    } else {
      StartIsReached(ps, k - 1);
      PieceStep(ps, k - 1, DepthOf(ps[..k - 1]));
      TextGrows(ps, k - 1);
      ReachJoin(TextOf(ps), BEGIN, Lex(StartOf(ps, k - 1), Code, DepthOf(ps[..k - 1])),
                Lex(StartOf(ps, k), Code, DepthOf(ps[..k])));
    }
  }

  lemma NoPieces(ps: seq<Piece>)
    ensures StartOf(ps, 0) == 0 && DepthOf(ps[..0]) == 0
  {
  }

  /** The piece that this place of the text belongs to. */
  lemma {:induction false} PieceOf(ps: seq<Piece>, n: nat, pos: nat) returns (k: nat)
    requires n <= |ps| && pos < StartOf(ps, n)
    ensures k < n && StartOf(ps, k) <= pos < StartOf(ps, k + 1)
    decreases n
  {
    hide TextOf;
    if n == 0 {
      NoPieces(ps);
    } else {
      k := n - 1;
      if pos < StartOf(ps, k) {
        k := PieceOf(ps, n - 1, pos);
      }
    }
  }

  /** Every state of the lexer lies in a piece, at the depth of the braces before it; it is in code
      exactly at the beginning of a piece. */
  lemma StateBySight(ps: seq<Piece>, l: Lex) returns (k: nat)
    requires InPieces(ps) && Reach(TextOf(ps), BEGIN, l) && l.pos < |TextOf(ps)|
    ensures k < |ps| && StartOf(ps, k) <= l.pos < StartOf(ps, k + 1)
    ensures l.depth == DepthOf(ps[..k]) && (l.mode == Code <==> l.pos == StartOf(ps, k))
  {
    assert ps[..|ps|] == ps;
    k := PieceOf(ps, |ps|, l.pos);
    var start := Lex(StartOf(ps, k), Code, DepthOf(ps[..k]));
    StartIsReached(ps, k);
    PieceStep(ps, k, start.depth);
    hide TextOf, DepthOf, InPieces, StartOf;
    ReachOrder(TextOf(ps), BEGIN, start, l);
  }

  /** Where there is code, and at what depth, can be seen from the pieces alone. */
  lemma CodeBySight(ps: seq<Piece>, i: nat, depth: int)
    requires InPieces(ps) && i < |TextOf(ps)|
    ensures Reach(TextOf(ps), BEGIN, Lex(i, Code, depth)) <==>
      exists k: nat :: k < |ps| && StartOf(ps, k) == i && DepthOf(ps[..k]) == depth
  {
    if Reach(TextOf(ps), BEGIN, Lex(i, Code, depth)) {
      var k := StateBySight(ps, Lex(i, Code, depth));
      assert StartOf(ps, k) == i;
    }
    if k: nat :| k < |ps| && StartOf(ps, k) == i && DepthOf(ps[..k]) == depth {
      StartIsReached(ps, k);
    }
  }

  /** The braces of code come back to depth zero for the first time after `k` pieces. */
  predicate FirstReturn(ps: seq<Piece>, k: nat) {
    0 < k <= |ps| && DepthOf(ps[..k]) == 0 && forall j :: 0 < j < k ==> DepthOf(ps[..j]) >= 1
  }

  lemma LastPieceCloses(ps: seq<Piece>, k: nat)
    requires InPieces(ps) && k < |ps| && DepthOf(ps[..k]) >= 1 && DepthOf(ps[..k + 1]) == 0
    ensures ps[k] == Character('}') && DepthOf(ps[..k]) == 1
    ensures StartOf(ps, k) < |TextOf(ps)| && TextOf(ps)[StartOf(ps, k)] == '}'
  {
    TextGrows(ps, k);
    assert ps[k] == Character('}');
    hide TextOf, DepthOf;
    CharacterIsPlain(ps, k);
  }

  lemma FirstPieceOpens(ps: seq<Piece>)
    requires ps != [] && ps[0] == Character('{')
    ensures StartOf(ps, 0) == 0 && StartOf(ps, 1) == 1 && TextOf(ps) != "" && TextOf(ps)[0] == '{'
  {
    TextGrows(ps, 0);
    PieceAt(ps, 0);
    CharactersOf(PieceText(ps[0]), TextOf(ps), 0);
    assert TextOf(ps)[0 + 0] == '{';
  }

  lemma ReturnIsBalanced(ps: seq<Piece>, k: nat)
    requires InPieces(ps) && ps != [] && ps[0] == Character('{') && FirstReturn(ps, k)
    ensures BlockAt(TextOf(ps), 0, TextOf(ps[..k]))
  {
    FirstPieceOpens(ps);
    var s, c := TextOf(ps), StartOf(ps, k - 1);
    if k == 1 {
      TextGrows(ps, 0);
      NoPieces(ps);
      assert false;
    }
    LastPieceCloses(ps, k - 1);
    StartIsReached(ps, k - 1);
    TextGrows(ps, k - 1);
    PrefixOfText(ps, k);
    forall l | Reach(s, BEGIN, l) && 0 < l.pos <= c
      ensures l.depth >= 1
    {
      var j := StateBySight(ps, l);
      StartsIncrease(ps, k - 1, j);
      assert 0 < j < k;
    }
    StartsIncrease(ps, k - 1, 0);
    hide TextOf, DepthOf;
    assert Balanced(s, 0, c);
    assert FirstBrace(s, 0, 0) && s[0..c + 1] == TextOf(ps[..k]);
  }

  /** A later piece begins later. */
  lemma {:induction false} StartsIncrease(ps: seq<Piece>, a: nat, b: nat)
    requires a < |ps| && b < |ps|
    ensures a < b ==> StartOf(ps, a) < StartOf(ps, b)
    ensures b < a ==> StartOf(ps, b) < StartOf(ps, a)
    decreases a + b
  {
    hide TextOf;
    if a < b {
      TextGrows(ps, b - 1);
      StartsIncrease(ps, a, b - 1);
    } else if b < a {
      TextGrows(ps, a - 1);
      StartsIncrease(ps, a - 1, b);
    }
  }

  lemma TriviaIsNoBrace(t: Trivia)
    requires IsClosed(t)
    ensures TriviaText(t)[0] != '{' && TriviaText(t)[0] != '}'
  {
  }

  lemma BalancedReturns(ps: seq<Piece>, c: nat) returns (k: nat)
    requires InPieces(ps) && ps != [] && ps[0] == Character('{') && Balanced(TextOf(ps), 0, c)
    ensures FirstReturn(ps, k) && TextOf(ps)[0..c + 1] == TextOf(ps[..k])
  {
    FirstPieceOpens(ps);
    var s := TextOf(ps);
    var last := StateBySight(ps, Lex(c, Code, 1));
    k := last + 1;
    TextGrows(ps, last);
    PieceAt(ps, last);
    CharactersOf(PieceText(ps[last]), s, c);
    assert s[c + 0] == PieceText(ps[last])[0];
    assert Fits(ps, last);
    if ps[last].Skipped? {
      TriviaIsNoBrace(ps[last].t);
    }
    assert ps[last] == Character('}');
    PrefixOfText(ps, k);
    forall j | 0 < j < k
      ensures DepthOf(ps[..j]) >= 1
    {
      StartIsReached(ps, j);
      StartsIncrease(ps, j, last);
      StartsIncrease(ps, 0, j);
    }
  }

  /** The block that begins with a text is what stands up to the first return to depth zero, and
      there is none if the depth never returns; braces in comments and literals do not count. */
  lemma BlockBySight(ps: seq<Piece>, block: string)
    requires InPieces(ps) && ps != [] && ps[0] == Character('{')
    ensures BlockAt(TextOf(ps), 0, block) <==> exists k: nat :: FirstReturn(ps, k) && block == TextOf(ps[..k])
  {
    FirstPieceOpens(ps);
    hide TextOf, DepthOf, InPieces, FirstReturn, Balanced;
    if BlockAt(TextOf(ps), 0, block) {
      var o: nat, c: nat :|
        FirstBrace(TextOf(ps), 0, o) && Balanced(TextOf(ps), o, c) && block == TextOf(ps)[o..c + 1];
      var k := BalancedReturns(ps, c);
    }
    if k: nat :| FirstReturn(ps, k) && block == TextOf(ps[..k]) {
      ReturnIsBalanced(ps, k);
    }
  }

  // ---------- names and colons ----------

  /** The characters of identifiers and of space, by their code points. */
  lemma CharactersByCode(c: char)
    ensures IsIdentStart(c) <==> 65 <= c as int <= 90 || 97 <= c as int <= 122 || c as int == 95 || c as int == 36
    ensures IsIdentPart(c) <==> IsIdentStart(c) || 48 <= c as int <= 57
    ensures IsSpace(c) <==> c as int in {9, 10, 11, 12, 13, 28, 29, 30, 31, 32, 133, 160, 5760, 8192, 8193, 8194, 8195,
                                         8196, 8197, 8198, 8199, 8200, 8201, 8202, 8232, 8233, 8239, 8287, 12288}
  {
  }

  predicate AllSpace(s: string, i: nat, j: nat)
    requires i <= j <= |s|
  {
    forall k :: i <= k < j ==> IsSpace(s[k])
  }

  /** The name of a field ends at `i`, that of its colon is at `b`: only space stands between them,
      and at most one question mark, at `a`. */
  predicate ColonIsAt(s: string, i: nat, a: nat, b: nat) {
    && i <= a <= b < |s| && s[b] == ':' && AllSpace(s, i, a)
    && (a == b || (s[a] == '?' && AllSpace(s, a + 1, b)))
  }

  lemma SkipIsUnique(s: string, i: nat, j: nat)
    requires i <= j < |s| && AllSpace(s, i, j) && !IsSpace(s[j])
    ensures SkipSpace(s, i) == j
  {
  }

  /** A field has its colon right behind its name or behind its question mark, spaces aside; a
      property has it without a question mark. */
  lemma ColonBySight(s: string, i: nat)
    requires i <= |s|
    ensures FieldColonAfter(s, i) <==> exists a: nat, b: nat :: ColonIsAt(s, i, a, b)
    ensures ColonAfter(s, i) <==> exists b: nat :: ColonIsAt(s, i, b, b)
  {
    hide IsSpace;
    CharactersAreNoSpace();
    var j := SkipSpace(s, i);
    if FieldColonAfter(s, i) {
      assert ColonIsAt(s, i, j, if s[j] == '?' then SkipSpace(s, j + 1) else j);
    }
    if ColonAfter(s, i) {
      assert ColonIsAt(s, i, j, j);
    }
    if a: nat, b: nat :| ColonIsAt(s, i, a, b) {
      SkipIsUnique(s, i, a);
      if a < b {
        SkipIsUnique(s, a + 1, b);
      }
    }
    if b: nat :| ColonIsAt(s, i, b, b) {
      SkipIsUnique(s, i, b);
    }
  }

  lemma CharactersAreNoSpace()
    ensures !IsSpace(':') && !IsSpace('?')
  {
  }

  /** The word that `i` stands in begins at `j` and has only digits before `i`. */
  predicate DigitsFrom(s: string, j: nat, i: nat)
    requires i <= |s|
  {
    j <= i && (j == 0 || !IsIdentPart(s[j - 1])) && forall k :: j <= k < i ==> '0' <= s[k] <= '9'
  }

  lemma {:induction false} DigitsBySight(s: string, i: nat)
    requires i <= |s|
    ensures OnlyDigitsBefore(s, i) <==> exists j: nat :: DigitsFrom(s, j, i)
    decreases i
  {
    hide IsIdentPart;
    if i == 0 || !IsIdentPart(s[i - 1]) {
      assert DigitsFrom(s, i, i);
    } else {
      DigitsBySight(s, i - 1);
      if j: nat :| DigitsFrom(s, j, i) {
        assert DigitsFrom(s, j, i - 1);
      }
      if OnlyDigitsBefore(s, i) {
        var j: nat :| DigitsFrom(s, j, i - 1);
        assert DigitsFrom(s, j, i);
      }
    }
  }

  /** Which names the scanners find in a text, and where, can be seen from its pieces: a name begins
      with a piece at depth one, at a letter, an underscore or a dollar sign before which its word
      has only digits, and runs to the end of the word. */
  lemma NameBySight(ps: seq<Piece>, i: nat, name: string)
    requires InPieces(ps) && i < |TextOf(ps)|
    ensures var s := TextOf(ps);
      NameAt(s, i, name) <==>
        && (exists k: nat :: k < |ps| && StartOf(ps, k) == i && DepthOf(ps[..k]) == 1)
        && IsIdentStart(s[i])
        && (exists j: nat :: DigitsFrom(s, j, i))
        && i + |name| <= |s| && s[i..i + |name|] == name && (forall k :: i <= k < i + |name| ==> IsIdentPart(s[k]))
        && (i + |name| < |s| ==> !IsIdentPart(s[i + |name|]))
  {
    var s := TextOf(ps);
    CodeBySight(ps, i, 1);
    DigitsBySight(s, i);
    assert i <= IdentEnd(s, i) <= |s|;
    hide TextOf, DepthOf, InPieces, Reach, StartOf, IsIdentPart, IsIdentStart, OnlyDigitsBefore, DigitsFrom;
  }
}
