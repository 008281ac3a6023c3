/** The structural comparison of two decoded JSON values, and of two tokens.

    Values come from decoding JSON, so nothing is undefined, a function or not a number; the
    negative zero that `-0` decodes to differs from zero.  The comparison sees an array as the
    object of its indices; reading a property that a value does not own can still answer,
    which is why it is not quite an equivalence. */
module JsonEquality {
  import opened Options

  datatype Json =
    | Null
    | Bool(b: bool)
    | Number(n: real)
    | MinusZero
    | Text(t: string)
    | Array(items: seq<Json>)
    | Object(entries: seq<(string, Json)>)

  predicate Composite(v: Json) {
    v.Array? || v.Object?
  }

  // ---------- property names ----------

  function Digit(d: nat): char
    requires d < 10
  {
    '0' + d as char
  }

  /** The property name of an array index. */
  function Digits(i: nat): (s: string)
    ensures s != ""
  {
    if i < 10 then [Digit(i)] else Digits(i / 10) + [Digit(i % 10)]
  }

  lemma {:induction false} DigitsApart(i: nat, j: nat)
    requires Digits(i) == Digits(j)
    ensures i == j
  {
    var s, t := Digits(i), Digits(j);
    assert s[|s| - 1] == Digit(i % 10) && t[|t| - 1] == Digit(j % 10);
    if i >= 10 && j >= 10 {
      assert s[..|s| - 1] == Digits(i / 10) && t[..|t| - 1] == Digits(j / 10);
      DigitsApart(i / 10, j / 10);
    }
  }

  /** The own enumerable properties, in order. */
  function Count(v: Json): nat {
    match v
    case Array(items) => |items|
    case Object(entries) => |entries|
    case _ => 0
  }

  function KeyAt(v: Json, i: nat): string
    requires i < Count(v)
  {
    match v
    case Array(_) => Digits(i)
    case Object(entries) => entries[i].0
  }

  function ChildAt(v: Json, i: nat): (r: Json)
    requires i < Count(v)
    ensures r < v
  {
    match v
    case Array(items) => items[i]
    case Object(entries) => entries[i].1
  }

  predicate DistinctKeys(v: Json) {
    forall i, j :: 0 <= i < j < Count(v) ==> KeyAt(v, i) != KeyAt(v, j)
  }

  /** Objects have each key once, at every depth. */
  predicate WellFormed(v: Json)
    decreases v
  {
    DistinctKeys(v) && forall i :: 0 <= i < Count(v) ==> WellFormed(ChildAt(v, i))
  }

  function Find(v: Json, key: string, n: nat): (r: Option<nat>)
    requires n <= Count(v)
    ensures r.Some? ==> r.value < n && KeyAt(v, r.value) == key
    ensures r.None? ==> forall i :: 0 <= i < n ==> KeyAt(v, i) != key
  {
    if n == 0 then None else if KeyAt(v, n - 1) == key then Some(n - 1) else Find(v, key, n - 1)
  }

  /** An own property. */
  function Own(v: Json, key: string): (r: Option<Json>)
    ensures r.Some? ==> r.value < v
  {
    var i := Find(v, key, Count(v));
    if i.Some? then Some(ChildAt(v, i.value)) else None
  }

  /** `value[key]`: an own property, the length of an array, or the prototype, which is
      composite and has no enumerable property.  Whatever else is inherited is no JSON value. */
  function Read(v: Json, key: string): Option<Json>
    requires Composite(v)
  {
    if Own(v, key).Some? then Own(v, key)
    else if v.Array? && key == "length" then Some(Number(|v.items| as real))
    else if key == "__proto__" then Some(if v.Array? then Array([]) else Object([]))
    else None
  }

  // ---------- the comparison ----------

  ghost predicate Equal(l: Json, r: Json)
    decreases l
  {
    if l.Array? && r.Array? then
      |l.items| == |r.items| && forall i :: 0 <= i < |l.items| ==> Equal(l.items[i], r.items[i])
    else if Composite(l) && Composite(r) then
      && Count(l) == Count(r)
      && forall i :: 0 <= i < Count(l) ==>
           Read(r, KeyAt(l, i)).Some? && Equal(ChildAt(l, i), Read(r, KeyAt(l, i)).value)
    else l == r
  }

  /** The property of `r` named like property `i` of `l` has an equal value. */
  ghost predicate EqualAt(l: Json, r: Json, i: nat)
    requires Composite(r) && i < Count(l)
  {
    Read(r, KeyAt(l, i)).Some? && Equal(ChildAt(l, i), Read(r, KeyAt(l, i)).value)
  }

  ghost predicate EqualThroughout(l: Json, r: Json)
    requires Composite(r)
  {
    Count(l) == Count(r) && forall i :: 0 <= i < Count(l) ==> EqualAt(l, r, i)
  }

  lemma EqualThroughoutIsEqual(l: Json, r: Json)
    requires Composite(l) && Composite(r) && !(l.Array? && r.Array?)
    ensures Equal(l, r) <==> EqualThroughout(l, r)
  {
    if EqualThroughout(l, r) {
      forall i | 0 <= i < Count(l)
        ensures Read(r, KeyAt(l, i)).Some? && Equal(ChildAt(l, i), Read(r, KeyAt(l, i)).value)
      {
        assert EqualAt(l, r, i);
      }
    }
  }

  method SimpleEqual(l: Json, r: Json) returns (same: bool)
    ensures same == Equal(l, r)
    decreases l
  {
    if l == r && !Composite(l) {
      return true;
    }
    if l.Array? && r.Array? {
      if |l.items| != |r.items| {
        return false;
      }
      for i := 0 to |l.items|
        invariant forall j :: 0 <= j < i ==> Equal(l.items[j], r.items[j])
      {
        var equal := SimpleEqual(l.items[i], r.items[i]);
        if !equal {
          return false;
        }
      }
      return true;
    }
    if Composite(l) && Composite(r) {
      EqualThroughoutIsEqual(l, r);
      if Count(l) != Count(r) {
        return false;
      }
      for i := 0 to Count(l)
        invariant forall j :: 0 <= j < i ==> EqualAt(l, r, j)
      {
        var other := Read(r, KeyAt(l, i));
        if other.None? {
          assert !EqualAt(l, r, i);
          return false;
        }
        var equal := SimpleEqual(ChildAt(l, i), other.value);
        if !equal {
          assert !EqualAt(l, r, i);
          return false;
        }
      }
      return true;
    }
    return false;
  }

  // ---------- what it means ----------

  /** The same value up to the order of keys, an array being the object of its indices. */
  ghost predicate Same(l: Json, r: Json)
    decreases l
  {
    if Composite(l) && Composite(r) then
      forall key ::
        && (Own(l, key).Some? <==> Own(r, key).Some?)
        && (Own(l, key).Some? && Own(r, key).Some? ==> Same(Own(l, key).value, Own(r, key).value))
    else l == r
  }

  /** The two values have the same property of this name, or both have none. */
  ghost predicate SameUnder(l: Json, r: Json, key: string) {
    && (Own(l, key).Some? <==> Own(r, key).Some?)
    && (Own(l, key).Some? && Own(r, key).Some? ==> Same(Own(l, key).value, Own(r, key).value))
  }

  lemma SameByKeys(l: Json, r: Json)
    ensures Composite(l) && Composite(r) ==> (Same(l, r) <==> forall key :: SameUnder(l, r, key))
    ensures !(Composite(l) && Composite(r)) ==> (Same(l, r) <==> l == r)
  {
    if Composite(l) && Composite(r) && forall key :: SameUnder(l, r, key) {
      forall key
        ensures (Own(l, key).Some? <==> Own(r, key).Some?)
        ensures Own(l, key).Some? && Own(r, key).Some? ==> Same(Own(l, key).value, Own(r, key).value)
      {
        assert SameUnder(l, r, key);
      }
    }
  }

  lemma OwnAt(v: Json, i: nat)
    requires DistinctKeys(v) && i < Count(v)
    ensures Own(v, KeyAt(v, i)) == Some(ChildAt(v, i))
  {
    var found := Find(v, KeyAt(v, i), Count(v));
    assert found.Some?;
  }

  lemma OwnIsAt(v: Json, key: string)
    requires Own(v, key).Some?
    ensures exists i :: 0 <= i < Count(v) && KeyAt(v, i) == key && ChildAt(v, i) == Own(v, key).value
  {
    var i := Find(v, key, Count(v)).value;
    assert KeyAt(v, i) == key;
  }

  /** Every value is equal to itself, whatever its keys: comparing references first changes nothing. */
  lemma {:induction false} EqualToItself(v: Json)
    requires WellFormed(v)
    ensures Equal(v, v)
    decreases v
  {
    forall i | 0 <= i < Count(v)
      ensures EqualAt(v, v, i) && Equal(ChildAt(v, i), ChildAt(v, i))
    {
      OwnAt(v, i);
      EqualToItself(ChildAt(v, i));
    }
    if v.Array? {
      forall i | 0 <= i < |v.items|
        ensures Equal(v.items[i], v.items[i])
      {
        assert ChildAt(v, i) == v.items[i];
      }
    }
  }

  // ---------- counting keys ----------

  function KeysBefore(v: Json, n: nat): set<string>
    requires n <= Count(v)
  {
    set i | 0 <= i < n :: KeyAt(v, i)
  }

  lemma {:induction false} KeysAreCounted(v: Json, n: nat)
    requires DistinctKeys(v) && n <= Count(v)
    ensures |KeysBefore(v, n)| == n
  {
    hide KeyAt, Count;
    if n == 0 {
      assert KeysBefore(v, 0) == {};
    } else {
      KeysAreCounted(v, n - 1);
      assert KeyAt(v, n - 1) !in KeysBefore(v, n - 1);
      KeysSnoc(v, n);
    }
  }

  lemma KeysSnoc(v: Json, n: nat)
    requires 0 < n <= Count(v)
    ensures KeysBefore(v, n) == KeysBefore(v, n - 1) + {KeyAt(v, n - 1)}
  {
    hide KeyAt, Count;
    forall i | 0 <= i < n
      ensures KeyAt(v, i) in KeysBefore(v, n - 1) + {KeyAt(v, n - 1)}
    {
      assert i == n - 1 || KeyAt(v, i) in KeysBefore(v, n - 1);
    }
  }

  function KeySet(v: Json): set<string> {
    KeysBefore(v, Count(v))
  }

  lemma OwnsItsKeys(v: Json, key: string)
    ensures Own(v, key).Some? <==> key in KeySet(v)
  {
    if Own(v, key).Some? {
      OwnIsAt(v, key);
    }
  }

  lemma {:induction false} SubsetOfSameSize(a: set<string>, b: set<string>)
    requires a <= b && |a| == |b|
    ensures a == b
  {
    if b != {} {
      var x :| x in b;
      if x in a {
        SubsetOfSameSize(a - {x}, b - {x});
      } else {
        SmallerSubset(a, b - {x});
      }
    }
  }

  lemma {:induction false} SmallerSubset(a: set<string>, b: set<string>)
    requires a <= b
    ensures |a| <= |b|
  {
    if a != {} {
      var x :| x in a;
      SmallerSubset(a - {x}, b - {x});
    }
  }

  // ---------- tokens ----------

  const AGE := "age_seconds"

  /** Two tokens agree on a field that either of them owns. */
  ghost predicate AgreeOn(l: Json, r: Json, key: string)
    requires l.Object? && r.Object?
  {
    && Read(l, key).Some? && Read(r, key).Some? && Equal(Read(l, key).value, Read(r, key).value)
  }

  ghost predicate Equivalent(l: Json, r: Json)
    requires l.Object? && r.Object?
  {
    forall key :: key != AGE && (key in KeySet(l) || key in KeySet(r)) ==> AgreeOn(l, r, key)
  }

  /** The loop over the keys of both tokens; a key of both is looked at twice here. */
  method TokensEquivalent(l: Json, r: Json) returns (same: bool)
    requires l.Object? && r.Object?
    ensures same == Equivalent(l, r) && AGE == "age_seconds"
  {
    var n := Count(l);
    for i := 0 to n + Count(r)
      invariant forall j :: 0 <= j < i && KeyOf(l, r, j) != AGE ==> AgreeOn(l, r, KeyOf(l, r, j))
    {
      var key := KeyOf(l, r, i);
      if key != AGE {
        var left, right := Read(l, key), Read(r, key);
        var agree := false;
        if left.Some? && right.Some? {
          agree := SimpleEqual(left.value, right.value);
        }
        if !agree {
          KeysOfBoth(l, r, key);
          return false;
        }
      }
    }
    forall key | key != AGE && (key in KeySet(l) || key in KeySet(r))
      ensures AgreeOn(l, r, key)
    {
      KeysOfBoth(l, r, key);
    }
    return true;
  }

  function KeyOf(l: Json, r: Json, i: nat): string
    requires i < Count(l) + Count(r)
  {
    if i < Count(l) then KeyAt(l, i) else KeyAt(r, i - Count(l))
  }

  lemma KeysOfBoth(l: Json, r: Json, key: string)
    ensures key in KeySet(l) || key in KeySet(r) <==> exists i :: 0 <= i < Count(l) + Count(r) && KeyOf(l, r, i) == key
  {
    if key in KeySet(l) {
      var i :| 0 <= i < Count(l) && KeyAt(l, i) == key;
      assert KeyOf(l, r, i) == key;
    }
    if key in KeySet(r) {
      var i :| 0 <= i < Count(r) && KeyAt(r, i) == key;
      assert KeyOf(l, r, Count(l) + i) == key;
    }
  }

  /** Every token is equivalent to itself. */
  lemma EquivalentToItself(v: Json)
    requires v.Object? && WellFormed(v)
    ensures Equivalent(v, v)
  {
    forall key | key in KeySet(v)
      ensures AgreeOn(v, v, key)
    {
      OwnsItsKeys(v, key);
      OwnIsAt(v, key);
      EqualToItself(Own(v, key).value);
    }
  }

  /** Two decodings of a token at different times: only the age may differ. */
  ghost predicate DifferInAge(l: Json, r: Json) {
    l.Object? && r.Object? && forall key :: key != AGE ==> Own(l, key) == Own(r, key)
  }

  lemma AgreeAtAnyAge(l: Json, r: Json, later: Json, key: string)
    requires l.Object? && DifferInAge(r, later) && key != AGE
    ensures key in KeySet(r) <==> key in KeySet(later)
    ensures AgreeOn(l, r, key) <==> AgreeOn(l, later, key)
  {
    assert Own(r, key) == Own(later, key);
    OwnsItsKeys(r, key);
    OwnsItsKeys(later, key);
  }

  /** Whatever is equivalent to a token is equivalent to it at any other age. */
  lemma AgeIsIgnored(l: Json, r: Json, later: Json)
    requires l.Object? && DifferInAge(r, later) && Equivalent(l, r)
    ensures Equivalent(l, later)
  {
    hide AgreeOn, KeySet;
    forall key | key != AGE && (key in KeySet(l) || key in KeySet(later))
      ensures AgreeOn(l, later, key)
    {
      AgreeAtAnyAge(l, r, later, key);
    }
  }
}
