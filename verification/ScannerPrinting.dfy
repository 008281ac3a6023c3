/** Printing an object literal and scanning it again: the fields that come out are the
    fields that went in, whatever comments stand before them and whatever balanced blocks
    and quoted texts stand as their values. */
module ScannerPrinting {
  import opened Scanner
  import opened ScannerText

  /** A printed value: a zero, a nested block, or a quoted text. */
  datatype Value = Zero | Nested(text: string) | Quote(mark: char, text: string)

  datatype Entry = Entry(notes: seq<Trivia>, name: string, optional: bool, value: Value)

  predicate IsIdentifier(name: string) {
    name != "" && IsIdentStart(name[0]) && forall i :: 0 <= i < |name| ==> IsIdentPart(name[i])
  }

  ghost predicate Printable(e: Entry) {
    AllClosed(e.notes) && IsIdentifier(e.name) && PrintableValue(e.value)
  }

  predicate AllClosed(notes: seq<Trivia>) {
    forall k :: 0 <= k < |notes| ==> IsClosed(notes[k])
  }

  ghost predicate PrintableValue(v: Value) {
    match v
    case Zero => true
    case Nested(text) => text != "" && text[0] == '{' && Balanced(text, 0, |text| - 1)
    case Quote(mark, text) => IsClosed(Literal(mark, text))
  }

  ghost predicate AllPrintable(es: seq<Entry>) {
    forall k :: 0 <= k < |es| ==> Printable(es[k])
  }

  function ValueText(v: Value): string {
    match v
    case Zero => "0"
    case Nested(text) => text
    case Quote(mark, text) => TriviaText(Literal(mark, text))
  }

  function NotesText(notes: seq<Trivia>): string {
    if notes == [] then "" else TriviaText(notes[0]) + NotesText(notes[1..])
  }

  function ColonText(optional: bool): string {
    if optional then "?:" else ":"
  }

  function FieldText(e: Entry): string {
    e.name + ColonText(e.optional) + ValueText(e.value) + ","
  }

  function ItemText(e: Entry): string {
    NotesText(e.notes) + FieldText(e)
  }

  function ItemsText(es: seq<Entry>): string {
    if es == [] then "" else ItemText(es[0]) + ItemsText(es[1..])
  }

  function Print(es: seq<Entry>): string {
    "{" + ItemsText(es) + "}"
  }

  predicate Declares(es: seq<Entry>, name: string) {
    exists k :: 0 <= k < |es| && es[k].name == name
  }

  predicate Requires(es: seq<Entry>, name: string) {
    exists k :: 0 <= k < |es| && es[k].name == name && !es[k].optional
  }

  /** The scanner is at top-level code, at the beginning of a word. */
  ghost predicate AtWord(s: string, o: nat) {
    0 < o <= |s| && !IsIdentPart(s[o - 1]) && Reach(s, BEGIN, Lex(o, Code, 1))
  }

  /** Between `o` and `e` the lexer stays inside the outermost braces. */
  ghost predicate Inside(s: string, o: nat, e: nat) {
    forall l :: Reach(s, BEGIN, l) && o <= l.pos < e ==> l.depth >= 1
  }

  ghost predicate NoNames(s: string, o: nat, e: nat) {
    forall i: nat, name :: o <= i < e ==> !NameAt(s, i, name)
  }

  /** From `o` to `e` the scanner meets no name and is back at top-level code. */
  ghost predicate Gap(s: string, o: nat, e: nat) {
    o < e <= |s| && Reach(s, BEGIN, Lex(e, Code, 1)) && Inside(s, o, e) && NoNames(s, o, e)
  }

  lemma GapJoin(s: string, o: nat, m: nat, e: nat)
    requires Gap(s, o, m) && Gap(s, m, e)
    ensures Gap(s, o, e)
  {
    forall i: nat, name | o <= i < e
      ensures !NameAt(s, i, name)
    {
      if i < m {
        assert !NameAt(s, i, name);
      } else {
        assert !NameAt(s, i, name);
      }
    }
  }

  lemma GapEnd(s: string, o: nat, e: nat)
    requires Gap(s, o, e)
    ensures o < e <= |s| && Reach(s, BEGIN, Lex(e, Code, 1))
  {
  }

  lemma PlainCharacter(s: string, o: nat)
    requires o < |s| && Reach(s, BEGIN, Lex(o, Code, 1))
    requires s[o] == ':' || s[o] == ',' || s[o] == '0' || s[o] == '?'
    ensures Gap(s, o, o + 1)
  {
    ReachStep(s, BEGIN, Lex(o, Code, 1));
    forall l | Reach(s, BEGIN, l) && o <= l.pos < o + 1
      ensures l.depth >= 1
    {
      ReachOrder(s, BEGIN, Lex(o, Code, 1), l);
    }
  }

  /** Seen from outside, the lexer is at depth two or more within a nested block. */
  lemma NestedDepth(s: string, o: nat, b: string, l: Lex)
    requires b != "" && PartOf(b, s, o) && Balanced(b, 0, |b| - 1) && Reach(s, BEGIN, Lex(o, Code, 1))
    requires Reach(s, BEGIN, l) && o <= l.pos < o + |b|
    ensures if l.pos == o then l.depth == 1 else l.depth >= 2
  {
    ReachOrder(s, BEGIN, Lex(o, Code, 1), l);
    ReachIntoPart(b, s, o, 1, BEGIN, l);
  }

  lemma NestedExit(s: string, o: nat, b: string)
    requires b != "" && PartOf(b, s, o) && Balanced(b, 0, |b| - 1) && Reach(s, BEGIN, Lex(o, Code, 1))
    ensures Reach(s, BEGIN, Lex(o + |b|, Code, 1))
  {
    var last := Lex(|b| - 1, Code, 1);
    ReachOutOfPart(b, s, o, 1, BEGIN, last);
    ReachJoin(s, BEGIN, Lex(o, Code, 1), Shift(last, o, 1));
    ReachStep(s, BEGIN, Shift(last, o, 1));
    assert s[o + |b| - 1] == b[|b| - 1];
  }

  lemma NestedBlock(s: string, o: nat, b: string)
    requires b != "" && PartOf(b, s, o) && Balanced(b, 0, |b| - 1) && b[0] == '{'
    requires Reach(s, BEGIN, Lex(o, Code, 1))
    ensures Gap(s, o, o + |b|)
  {
    NestedExit(s, o, b);
    assert s[o] == b[0];
    forall l | Reach(s, BEGIN, l) && o <= l.pos < o + |b|
      ensures l.depth >= 1 && (l.pos > o ==> l.depth >= 2)
    {
      NestedDepth(s, o, b, l);
    }
  }

  /** A comment or a literal is a gap. */
  lemma TriviaGap(s: string, o: nat, t: Trivia)
    requires IsClosed(t) && PartOf(TriviaText(t), s, o) && Reach(s, BEGIN, Lex(o, Code, 1))
    ensures Gap(s, o, o + |TriviaText(t)|) && !IsIdentPart(s[o + |TriviaText(t)| - 1])
  {
    var e := o + |TriviaText(t)|;
    TriviaIsSkipped(t, s, o, 1);
    TriviaEnds(t, s, o);
    hide TriviaText, IsClosed, IsIdentPart, IsIdentStart;
    ReachJoin(s, BEGIN, Lex(o, Code, 1), Lex(e, Code, 1));
    forall l | Reach(s, BEGIN, l) && o <= l.pos < e
      ensures l.depth == 1 && (l.pos > o ==> l.mode != Code)
    {
      ReachOrder(s, BEGIN, Lex(o, Code, 1), l);
    }
  }

  lemma TriviaEnds(t: Trivia, s: string, o: nat)
    requires IsClosed(t) && PartOf(TriviaText(t), s, o)
    ensures !IsIdentStart(s[o]) && !IsIdentPart(s[o + |TriviaText(t)| - 1])
  {
    var b := TriviaText(t);
    CharactersOf(b, s, o);
    assert s[o + 0] == b[0] && s[o + (|b| - 1)] == b[|b| - 1];
  }

  lemma NotesCons(notes: seq<Trivia>)
    requires notes != [] && AllClosed(notes)
    ensures NotesText(notes) == TriviaText(notes[0]) + NotesText(notes[1..])
    ensures IsClosed(notes[0]) && AllClosed(notes[1..])
  {
  }

  lemma NoNotes()
    ensures NotesText([]) == ""
  {
  }

  lemma WordAfterGap(s: string, o: nat, e: nat)
    requires Gap(s, o, e) && !IsIdentPart(s[e - 1])
    ensures AtWord(s, e)
  {
  }

  lemma WordIsReached(s: string, o: nat)
    requires AtWord(s, o)
    ensures o <= |s| && Reach(s, BEGIN, Lex(o, Code, 1))
  {
  }

  /** The comments before a field lead to a word at top level. */
  lemma {:induction false} NotesScan(s: string, o: nat, notes: seq<Trivia>)
    requires AtWord(s, o) && AllClosed(notes) && PartOf(NotesText(notes), s, o)
    ensures AtWord(s, o + |NotesText(notes)|)
    ensures notes != [] ==> Gap(s, o, o + |NotesText(notes)|)
    decreases |notes|
  {
    hide *;
    NoNotes();
    if notes != [] {
      NotesCons(notes);
      var first, rest := TriviaText(notes[0]), NotesText(notes[1..]);
      var m := o + |first|;
      PartsOfSum(s, o, first, rest);
      WordIsReached(s, o);
      TriviaGap(s, o, notes[0]);
      WordAfterGap(s, o, m);
      NotesScan(s, m, notes[1..]);
      if notes[1..] != [] {
        GapJoin(s, o, m, m + |rest|);
      }
    }
  }

  /** From `o` to `e` the scanner meets one field, `name` at `i`, and ends at a new word; the field is
      a property unless it is optional. */
  ghost predicate OneField(s: string, o: nat, e: nat, i: nat, name: string, optional: bool) {
    && AtWord(s, e) && Inside(s, o, e) && o <= i < e
    && FieldAt(s, i, name) && (PropertyAt(s, i, name) <==> !optional)
    && OnlyField(s, o, e, i, name)
  }

  ghost predicate OnlyField(s: string, o: nat, e: nat, i: nat, name: string) {
    forall j: nat, n :: o <= j < e && FieldAt(s, j, n) ==> j == i && n == name
  }

  /** Scanning the name of an item: one name begins there, and the scanner gets past it. */
  lemma ItemName(s: string, o: nat, name: string, optional: bool)
    requires AtWord(s, o) && IsIdentifier(name) && PartOf(name + ColonText(optional), s, o)
    ensures var end := o + |name|;
      && Reach(s, BEGIN, Lex(end, Code, 1)) && Inside(s, o, end)
      && FieldAt(s, o, name) && (PropertyAt(s, o, name) <==> !optional)
      && OnlyField(s, o, end, o, name)
  {
    var end, part := o + |name|, name + ColonText(optional);
    CharactersOf(part, s, o);
    assert s[o + |name|] == part[|name|] && (optional ==> s[o + (|name| + 1)] == part[|name| + 1]);
    forall k | o <= k < end
      ensures s[k] == name[k - o]
    {
      assert s[o + (k - o)] == part[k - o];
    }
    assert IdentEnd(s, o) == end && s[o..end] == name;
    assert InStep(s, Lex(o, Code, 1));
    JumpKeepsInStep(s, o);
    forall l | Reach(s, BEGIN, l) && o <= l.pos < end
      ensures l.depth >= 1
    {
      JumpIsSteps(s, o, l.pos, 1);
      ReachOrder(s, BEGIN, Lex(l.pos, Code, 1), l);
    }
    assert SkipSpace(s, end) == end && (optional ==> SkipSpace(s, end + 1) == end + 1);
  }

  lemma PartOfPart(t: string, s: string, o: nat, u: string, k: nat)
    requires PartOf(t, s, o) && PartOf(u, t, k)
    ensures PartOf(u, s, o + k)
  {
    forall i | 0 <= i < |u|
      ensures s[o + k + i] == u[i]
    {
      assert t[k + i] == t[k..k + |u|][i];
      assert s[o + (k + i)] == s[o..o + |t|][k + i];
    }
    assert s[o + k..o + k + |u|] == u;
  }

  lemma PartsOfSum(s: string, o: nat, a: string, b: string)
    requires PartOf(a + b, s, o)
    ensures PartOf(a, s, o) && PartOf(b, s, o + |a|)
  {
    assert PartOf(a, a + b, 0) && PartOf(b, a + b, |a|);
    PartOfPart(a + b, s, o, a, 0);
    PartOfPart(a + b, s, o, b, |a|);
  }

  lemma ItemParts(s: string, o: nat, e: Entry)
    requires Printable(e) && PartOf(FieldText(e), s, o)
    ensures var v, c, colon := ValueText(e.value), ColonText(e.optional), o + |e.name|;
      && PartOf(e.name + c, s, o) && PartOf(c, s, colon)
      && PartOf(v, s, colon + |c|) && PartOf(",", s, colon + |c| + |v|)
      && |FieldText(e)| == |e.name| + |c| + |v| + 1
    ensures IsIdentifier(e.name) && e.name != "" && PrintableValue(e.value)
  {
    var v, c := ValueText(e.value), ColonText(e.optional);
    hide ValueText, ColonText;
    PartsOfSum(s, o, e.name + c + v, ",");
    PartsOfSum(s, o, e.name + c, v);
    PartsOfSum(s, o, e.name, c);
  }

  lemma PartStart(t: string, s: string, o: nat)
    requires t != "" && PartOf(t, s, o)
    ensures o < |s| && s[o] == t[0]
  {
    assert s[o] == s[o..o + |t|][0];
  }

  lemma ValueGap(s: string, o: nat, v: Value)
    requires PrintableValue(v) && PartOf(ValueText(v), s, o) && Reach(s, BEGIN, Lex(o, Code, 1))
    ensures Gap(s, o, o + |ValueText(v)|)
  {
    match v
    case Zero =>
      PartStart("0", s, o);
      PlainCharacter(s, o);
    case Nested(text) => NestedBlock(s, o, text);
    case Quote(mark, text) => TriviaGap(s, o, Literal(mark, text));
  }

  lemma ColonGap(s: string, o: nat, optional: bool)
    requires PartOf(ColonText(optional), s, o) && Reach(s, BEGIN, Lex(o, Code, 1))
    ensures Gap(s, o, o + |ColonText(optional)|)
  {
    CharactersOf(ColonText(optional), s, o);
    assert s[o + 0] == ColonText(optional)[0];
    PlainCharacter(s, o);
    if optional {
      assert s[o + 1] == ColonText(optional)[1];
      PlainCharacter(s, o + 1);
      GapJoin(s, o, o + 1, o + 2);
    }
  }

  /** The scan of an item from its colon on: no more names, and back at top level. */
  lemma ItemRest(s: string, o: nat, optional: bool, value: Value)
    requires PrintableValue(value) && PartOf(ColonText(optional), s, o) && Reach(s, BEGIN, Lex(o, Code, 1))
    requires PartOf(ValueText(value), s, o + |ColonText(optional)|)
    requires PartOf(",", s, o + |ColonText(optional)| + |ValueText(value)|)
    ensures var comma := o + |ColonText(optional)| + |ValueText(value)|; Gap(s, o, comma + 1) && !IsIdentPart(s[comma])
  {
    hide *;
    var v := o + |ColonText(optional)|;
    var comma := v + |ValueText(value)|;
    ColonGap(s, o, optional);
    GapEnd(s, o, v);
    ValueGap(s, v, value);
    GapEnd(s, v, comma);
    GapJoin(s, o, v, comma);
    PartStart(",", s, comma);
    CommaIsNoWord();
    PlainCharacter(s, comma);
    GapJoin(s, o, comma, comma + 1);
  }

  lemma CommaIsNoWord()
    ensures !IsIdentPart(',')
  {
  }

  lemma NameThenGap(s: string, o: nat, colon: nat, end: nat, name: string, optional: bool)
    requires o < colon && Inside(s, o, colon) && Gap(s, colon, end) && !IsIdentPart(s[end - 1])
    requires FieldAt(s, o, name) && (PropertyAt(s, o, name) <==> !optional) && OnlyField(s, o, colon, o, name)
    ensures OneField(s, o, end, o, name, optional)
  {
    forall j: nat, n | o <= j < end
      ensures FieldAt(s, j, n) ==> j == o && n == name
    {
      if j >= colon {
        assert !NameAt(s, j, n);
      }
    }
  }

  lemma GapThenField(s: string, o: nat, m: nat, end: nat, i: nat, name: string, optional: bool)
    requires Gap(s, o, m) && OneField(s, m, end, i, name, optional)
    ensures OneField(s, o, end, i, name, optional)
  {
    forall j: nat, n | o <= j < end
      ensures FieldAt(s, j, n) ==> j == i && n == name
    {
      if j < m {
        assert !NameAt(s, j, n);
      }
    }
  }

  lemma FieldScan(s: string, o: nat, e: Entry)
    requires AtWord(s, o) && Printable(e) && PartOf(FieldText(e), s, o)
    ensures OneField(s, o, o + |FieldText(e)|, o, e.name, e.optional)
  {
    hide *;
    ItemParts(s, o, e);
    ItemName(s, o, e.name, e.optional);
    ItemRest(s, o + |e.name|, e.optional, e.value);
    NameThenGap(s, o, o + |e.name|, o + |FieldText(e)|, e.name, e.optional);
  }

  lemma ItemSplit(s: string, o: nat, e: Entry)
    requires Printable(e) && PartOf(ItemText(e), s, o)
    ensures AllClosed(e.notes) && |ItemText(e)| == |NotesText(e.notes)| + |FieldText(e)| > 0
    ensures PartOf(NotesText(e.notes), s, o) && PartOf(FieldText(e), s, o + |NotesText(e.notes)|)
  {
    PartsOfSum(s, o, NotesText(e.notes), FieldText(e));
    assert |FieldText(e)| > 0;
    hide NotesText, FieldText;
  }

  /** Scanning one item at top level finds exactly its name, behind its comments; and the property
      finder can hit it exactly if it is not optional. */
  lemma ItemScan(s: string, o: nat, e: Entry)
    requires AtWord(s, o) && Printable(e) && PartOf(ItemText(e), s, o)
    ensures OneField(s, o, o + |ItemText(e)|, o + |NotesText(e.notes)|, e.name, e.optional)
    ensures |ItemText(e)| > 0 && AtWord(s, o + |ItemText(e)|)
  {
    hide *;
    var m := o + |NotesText(e.notes)|;
    ItemSplit(s, o, e);
    NotesScan(s, o, e.notes);
    FieldScan(s, m, e);
    NoNotes();
    if e.notes != [] {
      GapThenField(s, o, m, o + |ItemText(e)|, m, e.name, e.optional);
    }
    FieldEnds(s, o, o + |ItemText(e)|, m, e.name, e.optional);
  }

  lemma FieldEnds(s: string, o: nat, e: nat, i: nat, name: string, optional: bool)
    requires OneField(s, o, e, i, name, optional)
    ensures AtWord(s, e)
  {
  }

  /** From `o` to `e` the scanner meets exactly the fields of these entries, and of them as
      properties exactly those that are not optional. */
  ghost predicate TheseFields(s: string, o: nat, e: nat, es: seq<Entry>) {
    && AtWord(s, e) && Inside(s, o, e)
    && (forall n :: Declares(es, n) <==> FieldWithin(s, o, e, n))
    && (forall n :: Requires(es, n) <==> PropertyWithin(s, o, e, n))
  }

  ghost predicate FieldWithin(s: string, o: nat, e: nat, n: string) {
    exists i: nat :: o <= i < e && FieldAt(s, i, n)
  }

  ghost predicate PropertyWithin(s: string, o: nat, e: nat, n: string) {
    exists i: nat :: o <= i < e && PropertyAt(s, i, n)
  }

  lemma DeclaresCons(es: seq<Entry>, n: string)
    requires es != []
    ensures Declares(es, n) <==> n == es[0].name || Declares(es[1..], n)
    ensures Requires(es, n) <==> (n == es[0].name && !es[0].optional) || Requires(es[1..], n)
  {
    assert es == [es[0]] + es[1..];
  }

  lemma WithinJoin(s: string, o: nat, mid: nat, end: nat, i: nat, name: string, optional: bool, n: string)
    requires o < mid <= end && OneField(s, o, mid, i, name, optional)
    ensures FieldWithin(s, o, end, n) <==> n == name || FieldWithin(s, mid, end, n)
    ensures PropertyWithin(s, o, end, n) <==> (n == name && !optional) || PropertyWithin(s, mid, end, n)
  {
    if j: nat :| o <= j < end && FieldAt(s, j, n) {
      assert j < mid || FieldWithin(s, mid, end, n);
    }
    if j: nat :| o <= j < end && PropertyAt(s, j, n) {
      PropertiesAreFields(s, j, n);
      assert j < mid || PropertyWithin(s, mid, end, n);
    }
    assert FieldWithin(s, o, end, name);
    if n == name && !optional {
      assert PropertyAt(s, i, n);
    }
  }

  lemma FieldsJoin(s: string, o: nat, mid: nat, end: nat, i: nat, es: seq<Entry>)
    requires es != [] && o < mid <= end
    requires OneField(s, o, mid, i, es[0].name, es[0].optional) && TheseFields(s, mid, end, es[1..])
    ensures TheseFields(s, o, end, es)
  {
    forall n
      ensures Declares(es, n) <==> FieldWithin(s, o, end, n)
      ensures Requires(es, n) <==> PropertyWithin(s, o, end, n)
    {
      DeclaresCons(es, n);
      WithinJoin(s, o, mid, end, i, es[0].name, es[0].optional, n);
      hide FieldWithin, PropertyWithin, Declares, Requires, OneField;
    }
  }

  lemma NoItems(s: string, o: nat)
    requires AtWord(s, o)
    ensures TheseFields(s, o, o + |ItemsText([])|, [])
  {
  }

  lemma ItemsTextCons(es: seq<Entry>)
    requires es != [] && AllPrintable(es)
    ensures ItemsText(es) == ItemText(es[0]) + ItemsText(es[1..])
    ensures Printable(es[0]) && AllPrintable(es[1..])
  {
  }

  /** Scanning printed items at top level finds exactly their names. */
  lemma {:induction false} ItemsScan(s: string, o: nat, es: seq<Entry>)
    requires AtWord(s, o) && AllPrintable(es) && PartOf(ItemsText(es), s, o)
    ensures TheseFields(s, o, o + |ItemsText(es)|, es)
    decreases |es|
  {
    hide *;
    if es == [] {
      NoItems(s, o);
    } else {
      ItemsTextCons(es);
      PartsOfSum(s, o, ItemText(es[0]), ItemsText(es[1..]));
      ItemScan(s, o, es[0]);
      ItemsScan(s, o + |ItemText(es[0])|, es[1..]);
      FieldsJoin(s, o, o + |ItemText(es[0])|, o + |ItemsText(es)|, o + |NotesText(es[0].notes)|, es);
    }
  }

  lemma PrintStart(es: seq<Entry>)
    ensures var s := Print(es);
      && AtWord(s, 1) && PartOf(ItemsText(es), s, 1) && |s| == |ItemsText(es)| + 2
      && s[0] == '{' && s[|s| - 1] == '}'
  {
    ReachStep(Print(es), BEGIN, BEGIN);
  }

  lemma FieldsAreBalanced(s: string, es: seq<Entry>)
    requires |s| >= 2 && s[0] == '{' && s[|s| - 1] == '}' && TheseFields(s, 1, |s| - 1, es)
    ensures BlockAt(s, 0, s)
  {
    var last := |s| - 1;
    forall l | Reach(s, BEGIN, l) && 0 < l.pos <= last
      ensures l.depth >= 1
    {
      if l.pos == last {
        ReachOrder(s, BEGIN, Lex(last, Code, 1), l);
      }
    }
    assert Balanced(s, 0, last);
    assert FirstBrace(s, 0, 0) && s == s[0..last + 1];
  }

  lemma FieldsAreComplete(s: string, es: seq<Entry>, name: string)
    requires |s| >= 2 && s[0] == '{' && s[|s| - 1] == '}' && TheseFields(s, 1, |s| - 1, es)
    ensures Declares(es, name) <==> exists i: nat :: FieldAt(s, i, name)
    ensures Requires(es, name) <==> exists i: nat :: PropertyAt(s, i, name)
  {
    assert Declares(es, name) <==> FieldWithin(s, 1, |s| - 1, name);
    assert Requires(es, name) <==> PropertyWithin(s, 1, |s| - 1, name);
    if i: nat :| FieldAt(s, i, name) {
      assert 1 <= i < |s| - 1;
    }
    if i: nat :| PropertyAt(s, i, name) {
      assert 1 <= i < |s| - 1;
    }
  }

  /** Parsing undoes printing: the printed text is one balanced block, its top-level fields are exactly
      the printed names, and its properties exactly those that are not optional. */
  lemma ParsingUndoesPrinting(es: seq<Entry>)
    requires AllPrintable(es)
    ensures BlockAt(Print(es), 0, Print(es))
    ensures forall name :: Declares(es, name) <==> exists i: nat :: FieldAt(Print(es), i, name)
    ensures forall name :: Requires(es, name) <==> exists i: nat :: PropertyAt(Print(es), i, name)
  {
    hide *;
    var s := Print(es);
    PrintStart(es);
    ItemsScan(s, 1, es);
    FieldsAreBalanced(s, es);
    forall name
      ensures Declares(es, name) <==> exists i: nat :: FieldAt(s, i, name)
      ensures Requires(es, name) <==> exists i: nat :: PropertyAt(s, i, name)
    {
      FieldsAreComplete(s, es, name);
    }
  }
}
