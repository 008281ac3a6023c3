/** The brace and field scanners of the settings-contract check.

    Three hand-written loops read the same small language: braces, three kinds of quotes
    with backslash escapes, line comments and block comments.  `Advance` is that lexer,
    defined once; `Reach` is its run; each loop is proved against what the lexer reaches. */
module Scanner {
  import opened Options

  datatype Mode = Code | LineComment | BlockComment | Quoted(mark: char)

  datatype Lex = Lex(pos: nat, mode: Mode, depth: int)

  const BEGIN := Lex(0, Code, 0)

  predicate Follows(s: string, i: nat, c: char) {
    i + 1 < |s| && s[i + 1] == c
  }

  predicate IsQuote(c: char) {
    c == '\'' || c == '\"' || c == '`'
  }

  /** One turn of the lexer: past one character, or past the two characters of a comment
      delimiter or an escape. */
  function Advance(s: string, l: Lex): (r: Lex)
    requires l.pos < |s|
    ensures l.pos < r.pos <= l.pos + 2
  {
    var c := s[l.pos];
    match l.mode
    case LineComment => Lex(l.pos + 1, if c == '\r' || c == '\n' then Code else LineComment, l.depth)
    case BlockComment =>
      if c == '*' && Follows(s, l.pos, '/') then Lex(l.pos + 2, Code, l.depth)
      else l.(pos := l.pos + 1)
    case Quoted(mark) =>
      if c == '\\' then l.(pos := l.pos + 2)
      else Lex(l.pos + 1, if c == mark then Code else l.mode, l.depth)
    case Code =>
      if c == '/' && Follows(s, l.pos, '/') then Lex(l.pos + 2, LineComment, l.depth)
      else if c == '/' && Follows(s, l.pos, '*') then Lex(l.pos + 2, BlockComment, l.depth)
      else if IsQuote(c) then Lex(l.pos + 1, Quoted(c), l.depth)
      else Lex(l.pos + 1, Code, l.depth + if c == '{' then 1 else if c == '}' then -1 else 0)
  }

  ghost predicate Reach(s: string, from: Lex, to: Lex)
    decreases |s| - from.pos
  {
    from == to || (from.pos < |s| && Reach(s, Advance(s, from), to))
  }

  lemma {:induction false} ReachForward(s: string, a: Lex, b: Lex)
    requires Reach(s, a, b)
    ensures a.pos < b.pos || a == b
    decreases |s| - a.pos
  {
    if a != b {
      ReachForward(s, Advance(s, a), b);
    }
  }

  lemma {:induction false} ReachStep(s: string, a: Lex, b: Lex)
    requires Reach(s, a, b) && b.pos < |s|
    ensures Reach(s, a, Advance(s, b))
    decreases |s| - a.pos
  {
    if a != b {
      ReachStep(s, Advance(s, a), b);
    }
  }

  lemma {:induction false} ReachJoin(s: string, a: Lex, b: Lex, c: Lex)
    requires Reach(s, a, b) && Reach(s, b, c)
    ensures Reach(s, a, c)
    decreases |s| - a.pos
  {
    if a != b {
      ReachJoin(s, Advance(s, a), b, c);
    }
  }

  /** A run is a line: of two states reached from the same start, one reaches the other. */
  lemma {:induction false} ReachOrder(s: string, a: Lex, b: Lex, c: Lex)
    requires Reach(s, a, b) && Reach(s, a, c) && b.pos <= c.pos
    ensures Reach(s, b, c)
    ensures b.pos == c.pos ==> b == c
    decreases |s| - a.pos
  {
    ReachForward(s, a, b);
    ReachForward(s, a, c);
    if a != b && a != c {
      ReachOrder(s, Advance(s, a), b, c);
    }
  }

  /** Nothing is reached strictly between a state and the next one. */
  lemma NothingBetween(s: string, a: Lex, b: Lex, m: Lex)
    requires Reach(s, a, b) && b.pos < |s| && Reach(s, a, m)
    ensures m.pos < b.pos || m == b || Advance(s, b).pos <= m.pos
  {
    if b.pos <= m.pos && m != b {
      ReachOrder(s, a, b, m);
      ReachForward(s, Advance(s, b), m);
    }
  }

  // ---------- lexing a part of a text ----------

  predicate PartOf(b: string, s: string, o: nat) {
    o + |b| <= |s| && s[o..o + |b|] == b
  }

  function Shift(l: Lex, o: nat, d: int): Lex {
    Lex(l.pos + o, l.mode, l.depth + d)
  }

  lemma AdvanceInPart(b: string, s: string, o: nat, d: int, l: Lex)
    requires PartOf(b, s, o) && l.pos + 1 < |b|
    ensures Advance(s, Shift(l, o, d)) == Shift(Advance(b, l), o, d)
  {
    assert s[o + l.pos] == b[l.pos] && s[o + l.pos + 1] == b[l.pos + 1];
  }

  lemma {:induction false} ReachOutOfPart(b: string, s: string, o: nat, d: int, from: Lex, to: Lex)
    requires PartOf(b, s, o) && Reach(b, from, to) && to.pos < |b|
    ensures Reach(s, Shift(from, o, d), Shift(to, o, d))
    decreases |b| - from.pos
  {
    if from != to {
      ReachForward(b, Advance(b, from), to);
      AdvanceInPart(b, s, o, d, from);
      ReachOutOfPart(b, s, o, d, Advance(b, from), to);
    }
  }

  lemma {:induction false} ReachIntoPart(b: string, s: string, o: nat, d: int, from: Lex, to: Lex)
    requires PartOf(b, s, o) && Reach(s, Shift(from, o, d), to) && to.pos < o + |b|
    ensures from.pos + o <= to.pos && Reach(b, from, Lex(to.pos - o, to.mode, to.depth - d))
    decreases |b| - from.pos
  {
    ReachForward(s, Shift(from, o, d), to);
    if Shift(from, o, d) != to {
      ReachForward(s, Advance(s, Shift(from, o, d)), to);
      AdvanceInPart(b, s, o, d, from);
      ReachIntoPart(b, s, o, d, Advance(b, from), to);
    }
  }

  // ---------- balanced blocks ----------

  predicate FirstBrace(s: string, start: nat, o: nat) {
    start <= o < |s| && s[o] == '{' && forall i :: start <= i < o ==> s[i] != '{'
  }

  /** `s[o..c + 1]` is balanced: lexing from `o`, the depth stays positive up to the brace
      at `c`, which is neither quoted nor commented out and brings it back to zero. */
  ghost predicate Balanced(s: string, o: nat, c: nat) {
    && o < c < |s| && s[c] == '}'
    && Reach(s, Lex(o, Code, 0), Lex(c, Code, 1))
    && forall l :: Reach(s, Lex(o, Code, 0), l) && o < l.pos <= c ==> l.depth >= 1
  }

  lemma BalancedOnce(s: string, o: nat, c: nat, c': nat)
    requires Balanced(s, o, c) && Balanced(s, o, c')
    ensures c == c'
  {
    var a := Lex(o, Code, 0);
    if c < c' {
      ReachStep(s, a, Lex(c, Code, 1));
    } else if c' < c {
      ReachStep(s, a, Lex(c', Code, 1));
    }
  }

  /** `block` is the balanced block at the first brace at or after `start`. */
  ghost predicate BlockAt(s: string, start: nat, block: string) {
    exists o: nat, c: nat :: FirstBrace(s, start, o) && Balanced(s, o, c) && block == s[o..c + 1]
  }

  lemma BalancedPart(s: string, o: nat, c: nat)
    requires Balanced(s, o, c)
    ensures Balanced(s[o..c + 1], 0, c - o)
  {
    var b := s[o..c + 1];
    ReachIntoPart(b, s, o, 0, BEGIN, Lex(c, Code, 1));
    forall l | Reach(b, BEGIN, l) && 0 < l.pos <= c - o
      ensures l.depth >= 1
    {
      ReachOutOfPart(b, s, o, 0, BEGIN, l);
    }
  }

  /** Extracting from an extracted block gives the same block back, and nothing else. */
  lemma ReextractionIsIdentity(s: string, start: nat, block: string, again: string)
    requires BlockAt(s, start, block)
    ensures BlockAt(block, 0, again) <==> again == block
  {
    var o: nat, c: nat :| FirstBrace(s, start, o) && Balanced(s, o, c) && block == s[o..c + 1];
    BalancedPart(s, o, c);
    assert FirstBrace(block, 0, 0) by {
      if s[o] != '{' { assert false; }
    }
    assert block[0..c - o + 1] == block;
    if BlockAt(block, 0, again) {
      var o': nat, c': nat :| FirstBrace(block, 0, o') && Balanced(block, o', c') && again == block[o'..c' + 1];
      BalancedOnce(block, 0, c - o, c');
    }
  }

  /** In a block every state of the lexer between the opening brace and the last character
      is at depth one or more, and the last character ends at depth zero, outside quotes
      and comments. */
  lemma BlockDepth(s: string, start: nat, b: string)
    requires BlockAt(s, start, b)
    ensures |b| >= 2 && Reach(b, BEGIN, Lex(|b|, Code, 0))
    ensures forall l :: Reach(b, BEGIN, l) && 0 < l.pos < |b| ==> l.depth >= 1
  {
    ReextractionIsIdentity(s, start, b, b);
    var o: nat, c: nat :| FirstBrace(b, 0, o) && Balanced(b, o, c) && b == b[o..c + 1];
    ReachStep(b, BEGIN, Lex(c, Code, 1));
  }

  // ---------- identifiers and fields ----------

  predicate IsDigit(c: char) {
    '0' <= c <= '9'
  }

  predicate IsIdentStart(c: char) {
    'A' <= c <= 'Z' || 'a' <= c <= 'z' || c == '_' || c == '$'
  }

  predicate IsIdentPart(c: char) {
    IsIdentStart(c) || IsDigit(c)
  }

  /** Python's `str.isspace` on one character. */
  predicate IsSpace(c: char) {
    var n := c as int;
    || 0x09 <= n <= 0x0d || 0x1c <= n <= 0x20 || n == 0x85 || n == 0xa0 || n == 0x1680
    || 0x2000 <= n <= 0x200a || n == 0x2028 || n == 0x2029 || n == 0x202f || n == 0x205f || n == 0x3000
  }

  function IdentEnd(s: string, i: nat): (j: nat)
    requires i <= |s|
    ensures i <= j <= |s|
    ensures forall k :: i <= k < j ==> IsIdentPart(s[k])
    ensures j < |s| ==> !IsIdentPart(s[j])
    decreases |s| - i
  {
    if i < |s| && IsIdentPart(s[i]) then IdentEnd(s, i + 1) else i
  }

  function SkipSpace(s: string, i: nat): (j: nat)
    requires i <= |s|
    ensures i <= j <= |s|
    ensures forall k :: i <= k < j ==> IsSpace(s[k])
    ensures j < |s| ==> !IsSpace(s[j])
    decreases |s| - i
  {
    if i < |s| && IsSpace(s[i]) then SkipSpace(s, i + 1) else i
  }

  predicate ColonAfter(s: string, i: nat)
    requires i <= |s|
  {
    SkipSpace(s, i) < |s| && s[SkipSpace(s, i)] == ':'
  }

  /** A colon after optional space, an optional question mark and optional space. */
  predicate FieldColonAfter(s: string, i: nat)
    requires i <= |s|
  {
    var j := SkipSpace(s, i);
    if j < |s| && s[j] == '?' then ColonAfter(s, j + 1) else ColonAfter(s, i)
  }

  /** The identifier characters directly before `i` are all digits. */
  predicate OnlyDigitsBefore(s: string, i: nat)
    requires i <= |s|
  {
    i == 0 || !IsIdentPart(s[i - 1]) || (IsDigit(s[i - 1]) && OnlyDigitsBefore(s, i - 1))
  }

  /** An identifier of top-level code begins at `i`: the lexer reaches `i` in code at depth
      one, and `i` is the first character of its word that can begin an identifier. */
  ghost predicate NameAt(s: string, i: nat, name: string) {
    && i < |s| && Reach(s, BEGIN, Lex(i, Code, 1))
    && IsIdentStart(s[i]) && OnlyDigitsBefore(s, i)
    && name == s[i..IdentEnd(s, i)]
  }

  ghost predicate FieldAt(s: string, i: nat, name: string) {
    NameAt(s, i, name) && FieldColonAfter(s, IdentEnd(s, i))
  }

  ghost predicate PropertyAt(s: string, i: nat, name: string) {
    NameAt(s, i, name) && ColonAfter(s, IdentEnd(s, i))
  }

  /** Whatever the property finder can hit, the field extractor collects; the fields it
      cannot hit are the optional ones. */
  lemma PropertiesAreFields(s: string, i: nat, name: string)
    ensures PropertyAt(s, i, name) <==>
      FieldAt(s, i, name) && s[SkipSpace(s, IdentEnd(s, i))] == ':'
  {
  }

  /** Jumping over identifier characters is the same as stepping through them. */
  lemma {:induction false} JumpIsSteps(s: string, i: nat, j: nat, depth: int)
    requires i <= |s| && Reach(s, BEGIN, Lex(i, Code, depth)) && i <= j <= IdentEnd(s, i)
    ensures Reach(s, BEGIN, Lex(j, Code, depth))
    decreases j
  {
    if i < j {
      JumpIsSteps(s, i, j - 1, depth);
      ReachStep(s, BEGIN, Lex(j - 1, Code, depth));
    }
  }

  lemma {:induction false} InsideAName(s: string, i: nat, j: nat)
    requires i < |s| && IsIdentStart(s[i]) && i < j < IdentEnd(s, i)
    ensures !OnlyDigitsBefore(s, j)
    decreases j
  {
    if i + 1 < j {
      InsideAName(s, i, j - 1);
    }
  }

  // ---------- the loops ----------

  /** The lexer mode of the loops' three variables, of which at most one is ever set. */
  function ModeOf(quote: Option<char>, line: bool, block: bool): Mode {
    if line then LineComment
    else if block then BlockComment
    else if quote.Some? then Quoted(quote.value)
    else Code
  }

  predicate OneMode(quote: Option<char>, line: bool, block: bool) {
    !(line && block) && !(quote.Some? && (line || block))
  }

  /** The first half of all three loop bodies: everything up to the test for braces. */
  method SkipTrivia(s: string, i: nat, q: Option<char>, l: bool, b: bool, ghost depth: int)
    returns (handled: bool, index: nat, quote: Option<char>, line: bool, block: bool)
    requires i < |s| && OneMode(q, l, b)
    ensures OneMode(quote, line, block)
    ensures handled ==>
      Lex(index, ModeOf(quote, line, block), depth) == Advance(s, Lex(i, ModeOf(q, l, b), depth))
    ensures handled ==> ModeOf(q, l, b) != Code || (!IsIdentPart(s[i]) && s[i] != '{' && s[i] != '}')
    ensures !handled ==> index == i && (quote, line, block) == (q, l, b) == (None, false, false)
    ensures !handled ==>
      Advance(s, Lex(i, Code, depth)) ==
      Lex(i + 1, Code, depth + if s[i] == '{' then 1 else if s[i] == '}' then -1 else 0)
  {
    handled, index, quote, line, block := true, i, q, l, b;
    var character := s[i];
    if line {
      if character == '\r' || character == '\n' {
        line := false;
      }
      index := index + 1;
    } else if block {
      if character == '*' && Follows(s, i, '/') {
        block := false;
        index := index + 2;
      } else {
        index := index + 1;
      }
    } else if quote.Some? {
      if character == '\\' {
        index := index + 2;
      } else {
        if character == quote.value {
          quote := None;
        }
        index := index + 1;
      }
    } else if character == '/' && Follows(s, i, '/') {
      line := true;
      index := index + 2;
    } else if character == '/' && Follows(s, i, '*') {
      block := true;
      index := index + 2;
    } else if IsQuote(character) {
      quote := Some(character);
      index := index + 1;
    } else {
      handled := false;
    }
  }

  datatype BlockError = NoOpeningBrace | Unterminated

  method FindBrace(s: string, start: nat) returns (opening: int)
    ensures opening == -1 || (opening >= 0 && FirstBrace(s, start, opening))
    ensures opening == -1 ==> forall i :: start <= i < |s| ==> s[i] != '{'
  {
    opening := start;
    while opening < |s|
      invariant start <= opening
      invariant forall i :: start <= i < opening && i < |s| ==> s[i] != '{'
    {
      if s[opening] == '{' {
        return;
      }
      opening := opening + 1;
    }
    opening := -1;
  }

  /** Lexing from the brace at `o` has reached `l` without returning to depth zero. */
  ghost predicate StillOpen(s: string, o: nat, l: Lex) {
    && Reach(s, Lex(o, Code, 0), l)
    && forall m :: Reach(s, Lex(o, Code, 0), m) && o < m.pos <= l.pos ==> m.depth >= 1
  }

  lemma StepKeepsOpen(s: string, o: nat, l: Lex)
    requires StillOpen(s, o, l) && l.pos < |s| && Advance(s, l).depth >= 1
    ensures StillOpen(s, o, Advance(s, l))
  {
    var a, next := Lex(o, Code, 0), Advance(s, l);
    ReachStep(s, a, l);
    forall m | Reach(s, a, m) && o < m.pos <= next.pos
      ensures m.depth >= 1
    {
      NothingBetween(s, a, l, m);
      if m.pos == next.pos {
        ReachOrder(s, a, next, m);
      }
    }
  }

  lemma OpenAtTheEnd(s: string, start: nat, o: nat, l: Lex, block: string)
    requires FirstBrace(s, start, o) && StillOpen(s, o, l) && l.pos >= |s|
    ensures !BlockAt(s, start, block)
  {
    if BlockAt(s, start, block) {
      var o': nat, c: nat :| FirstBrace(s, start, o') && Balanced(s, o', c) && block == s[o'..c + 1];
      ReachStep(s, Lex(o, Code, 0), Lex(c, Code, 1));
      assert false;
    }
  }

  method ExtractBracedBlock(source: string, start: nat) returns (r: Result<string, BlockError>)
    ensures r.Ok? ==> BlockAt(source, start, r.value)
    ensures r == Err(NoOpeningBrace) <==> forall i :: start <= i < |source| ==> source[i] != '{'
    ensures r == Err(Unterminated) ==> forall block :: !BlockAt(source, start, block)
  {
    var opening := FindBrace(source, start);
    if opening < 0 {
      return Err(NoOpeningBrace);
    }
    var depth, index := 0, opening as nat;
    var quote: Option<char>, line, block := None, false, false;
    while index < |source|
      invariant opening <= index && OneMode(quote, line, block)
      invariant if index == opening then depth == 0 && ModeOf(quote, line, block) == Code else depth >= 1
      invariant StillOpen(source, opening, Lex(index, ModeOf(quote, line, block), depth))
    {
      ghost var here := Lex(index, ModeOf(quote, line, block), depth);
      var handled;
      handled, index, quote, line, block := SkipTrivia(source, index, quote, line, block, depth);
      if !handled {
        var character := source[index];
        if character == '{' {
          depth := depth + 1;
        } else if character == '}' {
          depth := depth - 1;
          if depth == 0 {
            assert Balanced(source, opening, index);
            return Ok(source[opening..index + 1]);
          }
        }
        index := index + 1;
      }
      StepKeepsOpen(source, opening, here);
    }
    forall found
      ensures !BlockAt(source, start, found)
    {
      OpenAtTheEnd(source, start, opening, Lex(index, ModeOf(quote, line, block), depth), found);
    }
    return Err(Unterminated);
  }

  method MatchIdentifier(s: string, start: nat) returns (end: nat)
    requires start < |s|
    ensures end == IdentEnd(s, start)
  {
    end := start;
    while end < |s| && IsIdentPart(s[end])
      invariant start <= end <= |s| && IdentEnd(s, end) == IdentEnd(s, start)
    {
      end := end + 1;
    }
  }

  method SkipSpaces(s: string, start: nat) returns (cursor: nat)
    requires start <= |s|
    ensures cursor == SkipSpace(s, start)
  {
    cursor := start;
    while cursor < |s| && IsSpace(s[cursor])
      invariant start <= cursor <= |s| && SkipSpace(s, cursor) == SkipSpace(s, start)
    {
      cursor := cursor + 1;
    }
  }

  /** What both field loops know about their position: it is where the lexer is, and it is
      not inside a name. */
  ghost predicate InStep(s: string, l: Lex) {
    && Reach(s, BEGIN, l)
    && (l.mode.Quoted? ==> IsQuote(l.mode.mark))
    && (l.pos < |s| && l.mode == Code && l.depth == 1 && IsIdentPart(s[l.pos]) ==> OnlyDigitsBefore(s, l.pos))
  }

  lemma StepKeepsInStep(s: string, l: Lex)
    requires InStep(s, l) && l.pos < |s|
    requires !(l.mode == Code && l.depth == 1 && IsIdentStart(s[l.pos]))
    ensures InStep(s, Advance(s, l))
    ensures forall i, name :: l.pos <= i < Advance(s, l).pos ==> !NameAt(s, i, name)
  {
    ReachStep(s, BEGIN, l);
    forall i, name | l.pos <= i < Advance(s, l).pos
      ensures !NameAt(s, i, name)
    {
      if NameAt(s, i, name) {
        NothingBetween(s, BEGIN, l, Lex(i, Code, 1));
      }
    }
  }

  lemma JumpKeepsInStep(s: string, i: nat)
    requires i < |s| && InStep(s, Lex(i, Code, 1)) && IsIdentStart(s[i])
    ensures InStep(s, Lex(IdentEnd(s, i), Code, 1))
    ensures forall j, name :: i <= j < IdentEnd(s, i) ==>
      (NameAt(s, j, name) <==> j == i && name == s[i..IdentEnd(s, i)])
  {
    JumpIsSteps(s, i, IdentEnd(s, i), 1);
    forall j, name | i < j < IdentEnd(s, i)
      ensures !NameAt(s, j, name)
    {
      InsideAName(s, i, j);
    }
  }

  /** `fields` is what the first `index` characters of the block declare. */
  ghost predicate Collected(s: string, index: nat, fields: set<string>) {
    forall name :: name in fields <==> exists i: nat :: i < index && FieldAt(s, i, name)
  }

  lemma CollectNothing(s: string, l: Lex, fields: set<string>)
    requires InStep(s, l) && l.pos < |s| && Collected(s, l.pos, fields)
    requires !(l.mode == Code && l.depth == 1 && IsIdentStart(s[l.pos]))
    ensures InStep(s, Advance(s, l)) && Collected(s, Advance(s, l).pos, fields)
  {
    StepKeepsInStep(s, l);
  }

  lemma CollectName(s: string, i: nat, fields: set<string>)
    requires i < |s| && InStep(s, Lex(i, Code, 1)) && IsIdentStart(s[i]) && Collected(s, i, fields)
    ensures var end := IdentEnd(s, i);
      && InStep(s, Lex(end, Code, 1))
      && Collected(s, end, if FieldColonAfter(s, end) then fields + {s[i..end]} else fields)
  {
    JumpKeepsInStep(s, i);
    var end := IdentEnd(s, i);
    forall name
      ensures (name in fields || (name == s[i..end] && FieldColonAfter(s, end))) <==>
              exists j: nat :: j < end && FieldAt(s, j, name)
    {
      if name == s[i..end] && FieldColonAfter(s, end) {
        assert FieldAt(s, i, name);
      }
    }
  }

  lemma CollectFrom(s: string)
    ensures InStep(s, BEGIN) && Collected(s, 0, {})
  {
  }

  lemma CollectedAll(s: string, index: nat, fields: set<string>)
    requires index >= |s| && Collected(s, index, fields)
    ensures forall name :: name in fields <==> exists i: nat :: FieldAt(s, i, name)
  {
  }

  method ExtractTopLevelFields(block: string) returns (fields: set<string>)
    ensures forall name :: name in fields <==> exists i: nat :: FieldAt(block, i, name)
  {
    hide Collected, InStep, FieldAt, NameAt, Reach, Advance, IsSpace, IsDigit;
    CollectFrom(block);
    fields := {};
    var depth, index := 0, 0;
    var quote: Option<char>, line, blockComment := None, false, false;
    while index < |block|
      invariant OneMode(quote, line, blockComment)
      invariant InStep(block, Lex(index, ModeOf(quote, line, blockComment), depth))
      invariant Collected(block, index, fields)
    {
      ghost var here := Lex(index, ModeOf(quote, line, blockComment), depth);
      var handled;
      handled, index, quote, line, blockComment := SkipTrivia(block, index, quote, line, blockComment, depth);
      if handled {
        CollectNothing(block, here, fields);
      } else if block[index] == '{' {
        CollectNothing(block, here, fields);
        depth := depth + 1;
        index := index + 1;
      } else if block[index] == '}' {
        CollectNothing(block, here, fields);
        depth := depth - 1;
        index := index + 1;
      } else if depth == 1 && IsIdentStart(block[index]) {
        CollectName(block, index, fields);
        var end := MatchIdentifier(block, index);
        var cursor := SkipSpaces(block, end);
        if cursor < |block| && block[cursor] == '?' {
          cursor := SkipSpaces(block, cursor + 1);
        }
        if cursor < |block| && block[cursor] == ':' {
          fields := fields + {block[index..end]};
        }
        index := end;
      } else {
        CollectNothing(block, here, fields);
        index := index + 1;
      }
    }
    CollectedAll(block, index, fields);
  }

  method FindTopLevelProperty(block: string, name: string) returns (r: Option<nat>)
    ensures r.None? ==> forall i: nat :: !PropertyAt(block, i, name)
    ensures r.Some? ==> exists i: nat ::
      && PropertyAt(block, i, name) && r.value == SkipSpace(block, IdentEnd(block, i)) + 1
      && forall j: nat :: j < i ==> !PropertyAt(block, j, name)
  {
    var depth, index := 0, 0;
    var quote: Option<char>, line, blockComment := None, false, false;
    while index < |block|
      invariant OneMode(quote, line, blockComment)
      invariant InStep(block, Lex(index, ModeOf(quote, line, blockComment), depth))
      invariant forall i: nat :: i < index ==> !PropertyAt(block, i, name)
    {
      ghost var here := Lex(index, ModeOf(quote, line, blockComment), depth);
      var handled;
      handled, index, quote, line, blockComment := SkipTrivia(block, index, quote, line, blockComment, depth);
      if handled {
        StepKeepsInStep(block, here);
      } else if block[index] == '{' {
        StepKeepsInStep(block, here);
        depth := depth + 1;
        index := index + 1;
      } else if block[index] == '}' {
        StepKeepsInStep(block, here);
        depth := depth - 1;
        index := index + 1;
      } else if depth == 1 && IsIdentStart(block[index]) {
        JumpKeepsInStep(block, index);
        var end := MatchIdentifier(block, index);
        var cursor := SkipSpaces(block, end);
        if block[index..end] == name && cursor < |block| && block[cursor] == ':' {
          assert PropertyAt(block, index, name);
          return Some(cursor + 1);
        }
        index := end;
      } else {
        StepKeepsInStep(block, here);
        index := index + 1;
      }
    }
    return None;
  }
}
