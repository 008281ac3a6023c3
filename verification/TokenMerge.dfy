/** Merging a monitor snapshot into the list of tokens on screen: tokens that have not
    really changed keep their object, so that a list without changes is the very same list. */
module TokenMerge {
  import opened Common
  import opened Options
  import opened StableSort
  import J = JsonEquality

  datatype TokenStatus = Skipped | Shown

  /** A token object; `===` on tokens is equality of references.  The other fields only
      matter through the equivalence of two tokens, which ignores their age. */
  class Token {
    const id: string
    const status: TokenStatus
    const detectedAt: int

    constructor (id: string, status: TokenStatus, detectedAt: int)
      ensures this.id == id && this.status == status && this.detectedAt == detectedAt
    {
      this.id, this.status, this.detectedAt := id, status, detectedAt;
    }
  }

  type Equivalence = (Token, Token) -> bool

  ghost predicate Reflexive(same: Equivalence, tokens: seq<Token>) {
    forall i :: 0 <= i < |tokens| ==> same(tokens[i], tokens[i])
  }

  // ---------- what the two loops compute ----------

  /** The last token with this id: what a map built from the list would hold. */
  function LastWith(tokens: seq<Token>, id: string): (r: Option<Token>)
    ensures r.Some? ==> r.value in tokens && r.value.id == id
    ensures r.None? ==> forall t :: t in tokens ==> t.id != id
  {
    if tokens == [] then None
    else
      assert tokens == tokens[..|tokens| - 1] + [tokens[|tokens| - 1]];
      if tokens[|tokens| - 1].id == id then Some(tokens[|tokens| - 1])
      else LastWith(tokens[..|tokens| - 1], id)
  }

  /** The ids in order of first appearance: the insertion order of a map. */
  function FirstIds(tokens: seq<Token>): (ids: seq<string>)
    ensures NoRepeats(ids)
    ensures forall id :: id in ids <==> LastWith(tokens, id).Some?
  {
    if tokens == [] then []
    else
      var ids, t := FirstIds(tokens[..|tokens| - 1]), tokens[|tokens| - 1];
      if t.id in ids then ids else ids + [t.id]
  }

  /** The token kept for an incoming one: the current object if it is equivalent. */
  function Choose(current: seq<Token>, token: Token, same: Equivalence): (r: Token)
    ensures r.id == token.id
  {
    var existing := LastWith(current, token.id);
    if existing.Some? && same(existing.value, token) then existing.value else token
  }

  function Chosen(current: seq<Token>, incoming: seq<Token>, same: Equivalence): (r: seq<Token>)
    ensures |r| == |FirstIds(incoming)|
    ensures forall i :: 0 <= i < |r| ==> r[i].id == FirstIds(incoming)[i]
  {
    var ids := FirstIds(incoming);
    seq(|ids|, i requires 0 <= i < |ids| =>
      assert ids[i] in ids;
      Choose(current, LastWith(incoming, ids[i]).value, same))
  }

  /** The current tokens that stay: not skipped, first with their id, id not yet seen. */
  function Kept(current: seq<Token>, seen: set<string>): seq<Token> {
    if current == [] then []
    else if current[0].status != Skipped && current[0].id !in seen then
      [current[0]] + Kept(current[1..], seen + {current[0].id})
    else Kept(current[1..], seen)
  }

  function Ids(ids: seq<string>): set<string> {
    set id | id in ids
  }

  function NewestFirst(): Token -> int {
    (t: Token) => -t.detectedAt
  }

  function Merged(current: seq<Token>, incoming: seq<Token>, same: Equivalence): seq<Token> {
    Sort(Chosen(current, incoming, same) + Kept(current, Ids(FirstIds(incoming))), NewestFirst())
  }

  // ---------- the function of the application ----------

  function ValuesOf(order: seq<string>, byId: map<string, Token>): seq<Token>
    requires forall id :: id in order ==> id in byId
  {
    seq(|order|, i requires 0 <= i < |order| => assert order[i] in order; byId[order[i]])
  }

  lemma FirstIdsSnoc(tokens: seq<Token>, t: Token)
    ensures FirstIds(tokens + [t]) == if t.id in FirstIds(tokens) then FirstIds(tokens) else FirstIds(tokens) + [t.id]
    ensures forall id :: LastWith(tokens + [t], id) == if t.id == id then Some(t) else LastWith(tokens, id)
  {
    assert (tokens + [t])[..|tokens|] == tokens;
  }

  /** The first loop: one entry per incoming id. */
  method TakeIncoming(current: seq<Token>, incoming: seq<Token>, same: Equivalence)
    returns (order: seq<string>, byId: map<string, Token>)
    ensures order == FirstIds(incoming) && (forall id :: id in order <==> id in byId)
    ensures ValuesOf(order, byId) == Chosen(current, incoming, same)
  {
    hide FirstIds, LastWith, Choose, Chosen;
    order, byId := [], map[];
    NoneTaken(current, same);
    for k := 0 to |incoming|
      invariant order == FirstIds(incoming[..k]) && forall id :: id in order <==> id in byId
      invariant Taken(current, incoming[..k], same, byId)
    {
      var token := incoming[k];
      assert incoming[..k + 1] == incoming[..k] + [token];
      FirstIdsSnoc(incoming[..k], token);
      TakenSnoc(current, incoming[..k], same, byId, token);
      if token.id !in byId {
        order := order + [token.id];
      }
      byId := byId[token.id := Choose(current, token, same)];
    }
    assert incoming[..|incoming|] == incoming;
    TakenIsChosen(current, incoming, same, order, byId);
  }

  /** The map holds, for each incoming id, the choice for its last token. */
  ghost predicate Taken(current: seq<Token>, incoming: seq<Token>, same: Equivalence, byId: map<string, Token>) {
    forall id :: id in byId ==>
      LastWith(incoming, id).Some? && byId[id] == Choose(current, LastWith(incoming, id).value, same)
  }

  lemma NoneTaken(current: seq<Token>, same: Equivalence)
    ensures FirstIds([]) == [] && Taken(current, [], same, map[])
  {
  }

  lemma TakenSnoc(current: seq<Token>, incoming: seq<Token>, same: Equivalence, byId: map<string, Token>, t: Token)
    requires Taken(current, incoming, same, byId)
    ensures Taken(current, incoming + [t], same, byId[t.id := Choose(current, t, same)])
  {
    hide Choose;
    FirstIdsSnoc(incoming, t);
  }

  lemma TakenIsChosen(current: seq<Token>, incoming: seq<Token>, same: Equivalence,
                      order: seq<string>, byId: map<string, Token>)
    requires order == FirstIds(incoming) && forall id :: id in order <==> id in byId
    requires Taken(current, incoming, same, byId)
    ensures ValuesOf(order, byId) == Chosen(current, incoming, same)
  {
    hide Choose, FirstIds, LastWith;
    forall i | 0 <= i < |order|
      ensures order[i] in byId
    {
      assert order[i] in order;
    }
  }

  /** The second loop: the current tokens that stay, appended. */
  method KeepCurrent(current: seq<Token>, order0: seq<string>, byId0: map<string, Token>)
    returns (order: seq<string>, byId: map<string, Token>)
    requires forall id :: id in order0 <==> id in byId0
    ensures forall id :: id in order <==> id in byId
    ensures ValuesOf(order, byId) == ValuesOf(order0, byId0) + Kept(current, Ids(order0))
  {
    order, byId := order0, byId0;
    for k := 0 to |current|
      invariant forall id :: id in order <==> id in byId
      invariant ValuesOf(order, byId) + Kept(current[k..], Ids(order)) ==
                ValuesOf(order0, byId0) + Kept(current, Ids(order0))
    {
      var token := current[k];
      assert current[k..][0] == token && current[k..][1..] == current[k + 1..];
      ghost var before, known := ValuesOf(order, byId), Ids(order);
      if token.status != Skipped && token.id !in byId {
        AppendValue(order, byId, token);
        order := order + [token.id];
        byId := byId[token.id := token];
        assert before + ([token] + Kept(current[k + 1..], known + {token.id})) ==
               (before + [token]) + Kept(current[k + 1..], known + {token.id});
      }
    }
    assert current[|current|..] == [];
  }

  lemma AppendValue(order: seq<string>, byId: map<string, Token>, t: Token)
    requires (forall id :: id in order <==> id in byId) && t.id !in byId
    ensures ValuesOf(order + [t.id], byId[t.id := t]) == ValuesOf(order, byId) + [t]
    ensures Ids(order + [t.id]) == Ids(order) + {t.id}
  {
    forall i | 0 <= i < |order|
      ensures order[i] != t.id
    {
      assert order[i] in order;
    }
  }

  /** The comparison of two lists, object by object. */
  method SameObjects(left: seq<Token>, right: seq<Token>) returns (every: bool)
    ensures every <==> left == right
  {
    if |left| != |right| {
      return false;
    }
    for index := 0 to |left|
      invariant forall i :: 0 <= i < index ==> left[i] == right[i]
    {
      if left[index] != right[index] {
        return false;
      }
    }
    return true;
  }

  /** `isCurrent` says that the very list that came in is returned. */
  method MergeMonitorTokens(current: seq<Token>, incoming: seq<Token>, same: Equivalence)
    returns (tokens: seq<Token>, isCurrent: bool)
    ensures tokens == Merged(current, incoming, same)
    ensures isCurrent <==> tokens == current
  {
    hide Chosen, Kept, ValuesOf, Ids, FirstIds, Sort;
    var order, byId := TakeIncoming(current, incoming, same);
    order, byId := KeepCurrent(current, order, byId);
    var merged := Sort(ValuesOf(order, byId), NewestFirst());
    isCurrent := SameObjects(merged, current);
    tokens := if isCurrent then current else merged;
  }

  // ---------- contents and order ----------

  predicate UniqueIds(tokens: seq<Token>) {
    forall i, j :: 0 <= i < j < |tokens| ==> tokens[i].id != tokens[j].id
  }

  predicate HasId(tokens: seq<Token>, id: string) {
    exists i :: 0 <= i < |tokens| && tokens[i].id == id
  }

  lemma {:induction false} KeptAreCurrent(current: seq<Token>, seen: set<string>)
    ensures UniqueIds(Kept(current, seen))
    ensures forall t :: t in Kept(current, seen) ==> t in current && t.status != Skipped && t.id !in seen
  {
    if current != [] {
      var t, rest := current[0], current[1..];
      KeptAreCurrent(rest, seen + {t.id});
      KeptAreCurrent(rest, seen);
    }
  }

  /** Every current token that is neither skipped nor seen is represented by its id. */
  lemma {:induction false} KeptIsComplete(current: seq<Token>, seen: set<string>, u: Token)
    requires u in current && u.status != Skipped && u.id !in seen
    ensures HasId(Kept(current, seen), u.id)
  {
    var t, rest := current[0], current[1..];
    if t.status != Skipped && t.id !in seen {
      var kept := Kept(rest, seen + {t.id});
      if u.id == t.id {
        assert ([t] + kept)[0].id == u.id;
      } else {
        KeptIsComplete(rest, seen + {t.id}, u);
        var i :| 0 <= i < |kept| && kept[i].id == u.id;
        assert ([t] + kept)[i + 1].id == u.id;
      }
    } else {
      KeptIsComplete(rest, seen, u);
    }
  }

  lemma SortHas(tokens: seq<Token>, t: Token)
    ensures t in Sort(tokens, NewestFirst()) <==> t in tokens
  {
    SortOrders(tokens, NewestFirst());
    assert t in multiset(Sort(tokens, NewestFirst())) <==> t in multiset(tokens);
  }

  lemma SortKeepsIds(tokens: seq<Token>)
    ensures forall t :: t in Sort(tokens, NewestFirst()) <==> t in tokens
    ensures UniqueIds(tokens) ==> UniqueIds(Sort(tokens, NewestFirst()))
  {
    var sorted := Sort(tokens, NewestFirst());
    SortOrders(tokens, NewestFirst());
    forall t
      ensures t in sorted <==> t in tokens
    {
      SortHas(tokens, t);
    }
    if UniqueIds(tokens) {
      UniqueIsMultiplicity(tokens);
      MultiplicityIsUnique(sorted, tokens);
    }
  }

  lemma {:induction false} UniqueIsMultiplicity(tokens: seq<Token>)
    requires UniqueIds(tokens)
    ensures forall t :: multiset(tokens)[t] <= 1
  {
    if tokens != [] {
      assert tokens == [tokens[0]] + tokens[1..];
      UniqueIsMultiplicity(tokens[1..]);
      assert multiset(tokens) == multiset{tokens[0]} + multiset(tokens[1..]);
      assert tokens[0] !in tokens[1..];
    }
  }

  lemma MultiplicityIsUnique(sorted: seq<Token>, tokens: seq<Token>)
    requires multiset(sorted) == multiset(tokens) && UniqueIds(tokens)
    requires forall t :: multiset(tokens)[t] <= 1
    ensures UniqueIds(sorted)
  {
    forall i, j | 0 <= i < j < |sorted|
      ensures sorted[i].id != sorted[j].id
    {
      assert sorted == sorted[..j] + sorted[j..];
      assert sorted[i] in sorted[..j] && sorted[j] in sorted[j..];
      assert multiset(sorted) == multiset(sorted[..j]) + multiset(sorted[j..]);
      assert sorted[i] in multiset(tokens) && sorted[j] in multiset(tokens);
      if sorted[i] == sorted[j] {
        assert false;
      }
    }
  }

  lemma PartsAreUnique(current: seq<Token>, incoming: seq<Token>, same: Equivalence)
    ensures UniqueIds(Chosen(current, incoming, same) + Kept(current, Ids(FirstIds(incoming))))
  {
    var chosen, kept := Chosen(current, incoming, same), Kept(current, Ids(FirstIds(incoming)));
    KeptAreCurrent(current, Ids(FirstIds(incoming)));
    forall i, j | 0 <= i < |chosen| && 0 <= j < |kept|
      ensures chosen[i].id != kept[j].id
    {
      assert FirstIds(incoming)[i] in FirstIds(incoming);
      assert kept[j] in kept;
    }
  }

  /** The merged list has unique ids, is newest first, and holds exactly the incoming ids
      and the ids of current tokens that are not skipped. */
  lemma MergeContents(current: seq<Token>, incoming: seq<Token>, same: Equivalence, id: string)
    ensures var merged := Merged(current, incoming, same);
      && UniqueIds(merged)
      && (forall i, j :: 0 <= i < j < |merged| ==> merged[i].detectedAt >= merged[j].detectedAt)
      && (HasId(merged, id) <==>
            HasId(incoming, id) || exists t :: t in current && t.id == id && t.status != Skipped)
  {
    var ids := FirstIds(incoming);
    var chosen, kept := Chosen(current, incoming, same), Kept(current, Ids(ids));
    var merged := Merged(current, incoming, same);
    PartsAreUnique(current, incoming, same);
    SortKeepsIds(chosen + kept);
    SortOrders(chosen + kept, NewestFirst());
    assert forall i, j :: 0 <= i < j < |merged| ==> NewestFirst()(merged[i]) <= NewestFirst()(merged[j]);
    IdsOfParts(chosen, kept, merged, id);
    IdsOfKept(current, Ids(ids), id);
    assert HasId(chosen, id) <==> id in ids by {
      if id in ids {
        var i :| 0 <= i < |ids| && ids[i] == id;
        assert chosen[i].id == id;
      }
    }
    assert HasId(incoming, id) <==> id in ids by {
      if LastWith(incoming, id).Some? {
        var t := LastWith(incoming, id).value;
        var i :| 0 <= i < |incoming| && incoming[i] == t;
      }
    }
  }

  lemma IdsOfKept(current: seq<Token>, seen: set<string>, id: string)
    ensures HasId(Kept(current, seen), id) <==>
      id !in seen && exists t :: t in current && t.id == id && t.status != Skipped
  {
    KeptAreCurrent(current, seen);
    var kept := Kept(current, seen);
    if i :| 0 <= i < |kept| && kept[i].id == id {
      assert kept[i] in kept;
    }
    if t :| t in current && t.id == id && t.status != Skipped && id !in seen {
      KeptIsComplete(current, seen, t);
    }
  }

  lemma IdsOfParts(chosen: seq<Token>, kept: seq<Token>, merged: seq<Token>, id: string)
    requires forall t :: t in merged <==> t in chosen + kept
    ensures HasId(merged, id) <==> HasId(chosen, id) || HasId(kept, id)
  {
    if i :| 0 <= i < |merged| && merged[i].id == id {
      assert merged[i] in chosen + kept;
      var t := merged[i];
      if t in chosen {
        var j :| 0 <= j < |chosen| && chosen[j] == t;
      } else {
        var j :| 0 <= j < |kept| && kept[j] == t;
      }
    }
    if i :| 0 <= i < |chosen| && chosen[i].id == id {
      assert chosen[i] in merged;
      var j :| 0 <= j < |merged| && merged[j] == chosen[i];
    }
    if i :| 0 <= i < |kept| && kept[i].id == id {
      assert (chosen + kept)[|chosen| + i] in merged;
      var j :| 0 <= j < |merged| && merged[j] == kept[i];
    }
  }

  // ---------- the fixed point ----------

  lemma UniqueLast(tokens: seq<Token>, t: Token)
    requires UniqueIds(tokens) && t in tokens
    ensures LastWith(tokens, t.id) == Some(t)
  {
    var i :| 0 <= i < |tokens| && tokens[i] == t;
    var r := LastWith(tokens, t.id);
    var j :| 0 <= j < |tokens| && tokens[j] == r.value;
  }

  /** The same snapshot in other objects: whatever current token was equivalent to a token is
      equivalent to its copy, and so is the token itself. */
  ghost predicate Copies(current: seq<Token>, incoming: seq<Token>, copy: seq<Token>, same: Equivalence) {
    && |copy| == |incoming|
    && forall i :: 0 <= i < |incoming| ==> IsCopy(current, incoming[i], copy[i], same)
  }

  ghost predicate IsCopy(current: seq<Token>, token: Token, copy: Token, same: Equivalence) {
    && copy.id == token.id && same(token, copy)
    && forall i :: 0 <= i < |current| && same(current[i], token) ==> same(current[i], copy)
  }

  lemma {:induction false} CopiesAlike(current: seq<Token>, incoming: seq<Token>, copy: seq<Token>, same: Equivalence,
                                       id: string)
    requires Copies(current, incoming, copy, same)
    ensures FirstIds(copy) == FirstIds(incoming)
    ensures LastWith(copy, id).Some? <==> LastWith(incoming, id).Some?
    ensures LastWith(copy, id).Some? ==> IsCopy(current, LastWith(incoming, id).value, LastWith(copy, id).value, same)
    decreases |incoming|
  {
    if incoming != [] {
      CopiesAlike(current, incoming[..|incoming| - 1], copy[..|copy| - 1], same, id);
    }
  }

  /** Against the merged list, every token of the copy is given the object that is there. */
  lemma ChosenAgain(current: seq<Token>, incoming: seq<Token>, copy: seq<Token>, same: Equivalence)
    requires Copies(current, incoming, copy, same)
    ensures Chosen(Merged(current, incoming, same), copy, same) == Chosen(current, incoming, same)
    ensures FirstIds(copy) == FirstIds(incoming)
  {
    var merged, chosen := Merged(current, incoming, same), Chosen(current, incoming, same);
    var again, ids := Chosen(merged, copy, same), FirstIds(incoming);
    PartsAreUnique(current, incoming, same);
    SortKeepsIds(chosen + Kept(current, Ids(ids)));
    CopiesAlike(current, incoming, copy, same, "");
    forall i | 0 <= i < |ids|
      ensures again[i] == chosen[i]
    {
      assert ids[i] in ids;
      CopiesAlike(current, incoming, copy, same, ids[i]);
      assert chosen[i] in chosen + Kept(current, Ids(ids));
      UniqueLast(merged, chosen[i]);
    }
  }

  function Unseen(seen: set<string>): Token -> bool {
    (t: Token) => t.id !in seen
  }

  /** In a list with unique ids whose unseen tokens are not skipped, keeping is filtering. */
  lemma {:induction false} KeptIsFilter(tokens: seq<Token>, seen: set<string>, more: set<string>)
    requires UniqueIds(tokens)
    requires forall t :: t in tokens && t.id !in seen ==> t.status != Skipped
    requires forall t :: t in tokens ==> t.id !in more
    ensures Kept(tokens, seen + more) == Filter(tokens, Unseen(seen))
    decreases |tokens|
  {
    if tokens != [] {
      var t, rest := tokens[0], tokens[1..];
      assert tokens == [t] + rest;
      forall u | u in rest
        ensures u in tokens && u.id != t.id
      {
      }
      if t.id !in seen {
        KeptIsFilter(rest, seen, more + {t.id});
        assert seen + more + {t.id} == seen + (more + {t.id});
      } else {
        KeptIsFilter(rest, seen, more);
      }
    }
  }

  lemma {:induction false} FilterAppend(a: seq<Token>, b: seq<Token>, seen: set<string>)
    requires forall t :: t in a ==> t.id in seen
    requires forall t :: t in b ==> t.id !in seen
    ensures Filter(a + b, Unseen(seen)) == b
    decreases |a| + |b|
  {
    if a != [] {
      assert a + b == [a[0]] + (a[1..] + b);
      FilterCons(a[0], a[1..] + b, Unseen(seen));
      FilterAppend(a[1..], b, seen);
    } else if b != [] {
      assert a + b == [b[0]] + ([] + b[1..]);
      FilterCons(b[0], [] + b[1..], Unseen(seen));
      FilterAppend([], b[1..], seen);
    }
  }

  /** Merging a copy of the snapshot that was just merged changes nothing: the merged list comes
      back, object by object, the kept tokens included. */
  lemma CopyKeepsMergedList(current: seq<Token>, incoming: seq<Token>, copy: seq<Token>, same: Equivalence)
    requires Copies(current, incoming, copy, same)
    ensures Merged(Merged(current, incoming, same), copy, same) == Merged(current, incoming, same)
  {
    var seen := Ids(FirstIds(incoming));
    ChosenAgain(current, incoming, copy, same);
    KeptAgain(current, incoming, same);
    SortAbsorbsSort(Chosen(current, incoming, same), Kept(current, seen), NewestFirst());
  }

  /** In particular merging the very same snapshot again, whatever reflexive equivalence is used. */
  lemma MergeIsFixedPoint(current: seq<Token>, incoming: seq<Token>, same: Equivalence)
    requires Reflexive(same, incoming)
    ensures Merged(Merged(current, incoming, same), incoming, same) == Merged(current, incoming, same)
  {
    CopyKeepsMergedList(current, incoming, incoming, same);
  }

  /** The equivalence of tokens that the merge uses, on their decoded fields. */
  ghost function ByFields(fields: Token -> J.Json): Equivalence {
    (a: Token, b: Token) => fields(a).Object? && fields(b).Object? && J.Equivalent(fields(a), fields(b))
  }

  /** And so with the program's own comparison of tokens: a later decoding of the same snapshot,
      in which only ages differ, gives back the list on screen, whatever the fields. */
  lemma DecodedMergeIsFixedPoint(current: seq<Token>, incoming: seq<Token>, copy: seq<Token>, fields: Token -> J.Json)
    requires |copy| == |incoming|
    requires forall i :: 0 <= i < |incoming| ==>
      && copy[i].id == incoming[i].id && J.DifferInAge(fields(incoming[i]), fields(copy[i]))
      && J.WellFormed(fields(incoming[i]))
    ensures var merged := Merged(current, incoming, ByFields(fields));
      Merged(merged, copy, ByFields(fields)) == merged
  {
    forall i | 0 <= i < |incoming|
      ensures IsCopy(current, incoming[i], copy[i], ByFields(fields))
    {
      DecodedIsCopy(current, incoming[i], copy[i], fields);
    }
    CopyKeepsMergedList(current, incoming, copy, ByFields(fields));
  }

  lemma DecodedIsCopy(current: seq<Token>, token: Token, copy: Token, fields: Token -> J.Json)
    requires copy.id == token.id && J.DifferInAge(fields(token), fields(copy)) && J.WellFormed(fields(token))
    ensures IsCopy(current, token, copy, ByFields(fields))
  {
    J.EquivalentToItself(fields(token));
    J.AgeIsIgnored(fields(token), fields(token), fields(copy));
    forall i | 0 <= i < |current| && ByFields(fields)(current[i], token)
      ensures ByFields(fields)(current[i], copy)
    {
      J.AgeIsIgnored(fields(current[i]), fields(token), fields(copy));
    }
  }

  lemma KeptAgain(current: seq<Token>, incoming: seq<Token>, same: Equivalence)
    ensures var seen := Ids(FirstIds(incoming));
      Kept(Merged(current, incoming, same), seen) == Sort(Kept(current, seen), NewestFirst())
  {
    var ids := FirstIds(incoming);
    var seen := Ids(ids);
    var chosen, kept := Chosen(current, incoming, same), Kept(current, seen);
    var merged := Merged(current, incoming, same);
    PartsAreUnique(current, incoming, same);
    SortKeepsIds(chosen + kept);
    KeptAreCurrent(current, seen);
    ChosenAreSeen(current, incoming, same);
    assert merged == Sort(chosen + kept, NewestFirst());
    forall t | t in merged && t.id !in seen
      ensures t.status != Skipped
    {
      SortHas(chosen + kept, t);
    }
    assert seen + {} == seen;
    KeptIsFilter(merged, seen, {});
    SortCommutesWithFilter(chosen + kept, NewestFirst(), Unseen(seen));
    FilterAppend(chosen, kept, seen);
  }

  lemma ChosenAreSeen(current: seq<Token>, incoming: seq<Token>, same: Equivalence)
    ensures forall t :: t in Chosen(current, incoming, same) ==> t.id in Ids(FirstIds(incoming))
  {
    var chosen, ids := Chosen(current, incoming, same), FirstIds(incoming);
    forall t | t in chosen
      ensures t.id in ids
    {
      var i :| 0 <= i < |chosen| && chosen[i] == t;
      assert ids[i] in ids;
    }
  }

  lemma {:induction false} UniqueFirstIds(tokens: seq<Token>)
    requires UniqueIds(tokens)
    ensures |FirstIds(tokens)| == |tokens|
    ensures forall i :: 0 <= i < |tokens| ==> FirstIds(tokens)[i] == tokens[i].id
  {
    if tokens != [] {
      var init, last := tokens[..|tokens| - 1], tokens[|tokens| - 1];
      UniqueFirstIds(init);
      assert LastWith(init, last.id).None?;
    }
  }

  lemma {:induction false} NothingKept(current: seq<Token>, seen: set<string>)
    requires forall t :: t in current ==> t.id in seen
    ensures Kept(current, seen) == []
  {
    if current != [] {
      assert current == [current[0]] + current[1..];
      NothingKept(current[1..], seen);
    }
  }

  /** A snapshot whose tokens are equivalent to those on screen, in the same order, gives
      back the objects on screen: the merged list is the current one. */
  lemma EquivalentSnapshotKeepsList(current: seq<Token>, incoming: seq<Token>, same: Equivalence)
    requires UniqueIds(current) && Ordered(current, NewestFirst()) && |incoming| == |current|
    requires forall i :: 0 <= i < |current| ==>
      incoming[i].id == current[i].id && same(current[i], incoming[i])
    ensures Merged(current, incoming, same) == current
  {
    assert UniqueIds(incoming);
    UniqueFirstIds(incoming);
    var ids, chosen := FirstIds(incoming), Chosen(current, incoming, same);
    forall i | 0 <= i < |current|
      ensures chosen[i] == current[i]
    {
      assert ids[i] == current[i].id;
      assert incoming[i] in incoming && current[i] in current;
      UniqueLast(incoming, incoming[i]);
      UniqueLast(current, current[i]);
    }
    assert chosen == current;
    forall t | t in current
      ensures t.id in Ids(ids)
    {
      var i :| 0 <= i < |current| && current[i] == t;
      assert ids[i] == t.id;
    }
    NothingKept(current, Ids(ids));
    assert current + [] == current;
    SortOfOrdered(current, NewestFirst());
  }
}
