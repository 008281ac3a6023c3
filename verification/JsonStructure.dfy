/** When the comparison of two decoded JSON values is structural: exactly when no object inside
    the left one can be mistaken for something that it is not. */
module JsonStructure {
  import opened Options
  import opened JsonEquality

  // ---------- values that can be mistaken ----------

  predicate EmptyComposite(v: Json) {
    Composite(v) && Count(v) == 0
  }

  /** A prototype answers like this object's own property. */
  predicate OwnsEmptyProto(v: Json) {
    v.Object? && Own(v, "__proto__").Some? && EmptyComposite(Own(v, "__proto__").value)
  }

  predicate IsIndex(key: string, n: nat) {
    exists j: nat :: j < n && Digits(j) == key
  }

  /** An array with as many items answers like this object's own properties. */
  predicate ClaimsLength(v: Json) {
    && v.Object? && Own(v, "length") == Some(Number(Count(v) as real))
    && forall i :: 0 <= i < Count(v) ==> KeyAt(v, i) == "length" || IsIndex(KeyAt(v, i), Count(v))
  }

  predicate Mistakable(v: Json) {
    OwnsEmptyProto(v) || ClaimsLength(v)
  }

  /** No object inside the value can be mistaken. */
  predicate Unmistakable(v: Json)
    decreases v
  {
    !Mistakable(v) && forall i :: 0 <= i < Count(v) ==> Unmistakable(ChildAt(v, i))
  }

  // ---------- comparing by keys ----------

  lemma {:induction false} DigitsAreDigits(i: nat)
    ensures Digits(i) != "length" && Digits(i) != "__proto__"
    ensures Digits(i)[0] in "0123456789"
  {
    if i >= 10 {
      DigitsAreDigits(i / 10);
    }
  }

  lemma IndicesAreDistinct(v: Json)
    requires v.Array?
    ensures DistinctKeys(v)
  {
    forall i, j | 0 <= i < j < Count(v)
      ensures KeyAt(v, i) != KeyAt(v, j)
    {
      if KeyAt(v, i) == KeyAt(v, j) {
        DigitsApart(i, j);
      }
    }
  }

  lemma ItemAt(l: Json, r: Json, i: nat)
    requires l.Array? && r.Array? && i < |l.items| == |r.items|
    ensures EqualAt(l, r, i) <==> Equal(l.items[i], r.items[i])
  {
    IndicesAreDistinct(r);
    OwnAt(r, i);
  }

  /** Comparing arrays item by item is comparing them as objects of their indices. */
  lemma EqualByKeys(l: Json, r: Json)
    requires Composite(l) && Composite(r)
    ensures Equal(l, r) <==> EqualThroughout(l, r)
  {
    if l.Array? && r.Array? && |l.items| == |r.items| {
      if Equal(l, r) {
        forall i | 0 <= i < Count(l)
          ensures EqualAt(l, r, i)
        {
          ItemAt(l, r, i);
        }
      }
      if EqualThroughout(l, r) {
        forall i | 0 <= i < |l.items|
          ensures Equal(l.items[i], r.items[i])
        {
          ItemAt(l, r, i);
        }
      }
    } else if !(l.Array? && r.Array?) {
      EqualThroughoutIsEqual(l, r);
    }
  }

  lemma SameCount(l: Json, r: Json)
    requires DistinctKeys(l) && DistinctKeys(r)
    ensures KeySet(l) == KeySet(r) ==> Count(l) == Count(r)
    ensures KeySet(l) <= KeySet(r) && Count(l) == Count(r) ==> KeySet(l) == KeySet(r)
  {
    KeysAreCounted(l, Count(l));
    KeysAreCounted(r, Count(r));
    if KeySet(l) <= KeySet(r) && Count(l) == Count(r) {
      SubsetOfSameSize(KeySet(l), KeySet(r));
    }
  }

  lemma SameCoversKeys(l: Json, r: Json)
    requires forall key :: SameUnder(l, r, key)
    ensures KeySet(l) == KeySet(r)
  {
    forall key
      ensures key in KeySet(l) <==> key in KeySet(r)
    {
      OwnsItsKeys(l, key);
      OwnsItsKeys(r, key);
      assert SameUnder(l, r, key);
    }
  }

  lemma SameUnderNothing(l: Json, r: Json, key: string)
    requires key !in KeySet(l) && key !in KeySet(r)
    ensures SameUnder(l, r, key)
  {
    OwnsItsKeys(l, key);
    OwnsItsKeys(r, key);
  }

  // ---------- the comparison is structural ----------

  lemma EqualToEmpty(v: Json, empty: Json)
    requires Composite(empty) && Count(empty) == 0
    ensures Equal(v, empty) <==> EmptyComposite(v)
  {
    EqualScalar(v, empty);
    if Composite(v) {
      EqualByKeys(v, empty);
    }
  }

  lemma EqualScalar(l: Json, r: Json)
    ensures !(Composite(l) && Composite(r)) ==> (Equal(l, r) <==> l == r)
  {
  }

  /** In an equal value, whatever answers to a key of an object that cannot be mistaken is an
      own property. */
  lemma EqualOwnsKeys(l: Json, r: Json, i: nat)
    requires WellFormed(l) && !Mistakable(l) && Composite(l) && Composite(r) && EqualThroughout(l, r) && i < Count(l)
    ensures Own(r, KeyAt(l, i)).Some?
  {
    hide Equal, Same, Digits;
    assert EqualAt(l, r, i);
    if Own(r, KeyAt(l, i)).None? {
      OwnAt(l, i);
      if l.Array? {
        DigitsAreDigits(i);
      } else if KeyAt(l, i) == "__proto__" {
        EqualToEmpty(ChildAt(l, i), Read(r, "__proto__").value);
      } else {
        LengthIsClaimed(l, r, i);
      }
    }
  }

  lemma LengthIsClaimed(l: Json, r: Json, i: nat)
    requires WellFormed(l) && l.Object? && r.Array? && EqualThroughout(l, r) && !OwnsEmptyProto(l)
    requires i < Count(l) && KeyAt(l, i) == "length" && Own(r, "length").None?
    ensures ClaimsLength(l)
  {
    hide Equal, Same, Digits;
    assert EqualAt(l, r, i);
    OwnAt(l, i);
    EqualScalar(ChildAt(l, i), Number(|r.items| as real));
    forall j | 0 <= j < Count(l)
      ensures KeyAt(l, j) == "length" || IsIndex(KeyAt(l, j), Count(l))
    {
      assert EqualAt(l, r, j);
      OwnAt(l, j);
      if Own(r, KeyAt(l, j)).Some? {
        OwnIsAt(r, KeyAt(l, j));
      } else if KeyAt(l, j) == "__proto__" {
        EqualToEmpty(ChildAt(l, j), Read(r, "__proto__").value);
      }
    }
  }

  lemma EqualCoversKeys(l: Json, r: Json)
    requires WellFormed(l) && WellFormed(r) && !Mistakable(l) && Composite(l) && Composite(r)
    requires EqualThroughout(l, r)
    ensures KeySet(l) == KeySet(r)
  {
    hide Mistakable, EqualAt;
    forall key | key in KeySet(l)
      ensures key in KeySet(r)
    {
      var i :| 0 <= i < Count(l) && KeyAt(l, i) == key;
      EqualOwnsKeys(l, r, i);
      OwnsItsKeys(r, key);
    }
    SameCount(l, r);
  }

  /** If the keys that both own are equal exactly when they are the same, so are the values. */
  lemma EqualIsSame(l: Json, r: Json)
    requires WellFormed(l) && WellFormed(r) && !Mistakable(l) && Composite(l) && Composite(r)
    requires forall i :: 0 <= i < Count(l) && Own(r, KeyAt(l, i)).Some? ==>
      (EqualAt(l, r, i) <==> SameUnder(l, r, KeyAt(l, i)))
    ensures EqualThroughout(l, r) <==> forall key :: SameUnder(l, r, key)
  {
    hide SameUnder, EqualAt, Own, Mistakable;
    if EqualThroughout(l, r) {
      EqualCoversKeys(l, r);
      forall key
        ensures SameUnder(l, r, key)
      {
        if key in KeySet(l) {
          var i :| 0 <= i < Count(l) && KeyAt(l, i) == key;
          EqualOwnsKeys(l, r, i);
          assert EqualAt(l, r, i);
        } else {
          SameUnderNothing(l, r, key);
        }
      }
    }
    if forall key :: SameUnder(l, r, key) {
      SameCoversKeys(l, r);
      SameCount(l, r);
      forall i | 0 <= i < Count(l)
        ensures EqualAt(l, r, i)
      {
        assert KeyAt(l, i) in KeySet(l);
        OwnsItsKeys(r, KeyAt(l, i));
        assert SameUnder(l, r, KeyAt(l, i));
      }
    }
  }

  /** A comparison from a value that cannot be mistaken is structural: it answers whether the
      two values are the same up to the order of keys. */
  lemma {:induction false} UnmistakableIsStructural(l: Json, r: Json)
    requires WellFormed(l) && WellFormed(r) && Unmistakable(l)
    ensures Equal(l, r) <==> Same(l, r)
    decreases l, 1
  {
    hide SameUnder, EqualAt, Own, Mistakable;
    EqualScalar(l, r);
    SameByKeys(l, r);
    if Composite(l) && Composite(r) {
      forall i | 0 <= i < Count(l) && Own(r, KeyAt(l, i)).Some?
        ensures EqualAt(l, r, i) <==> SameUnder(l, r, KeyAt(l, i))
      {
        StructuralAtKey(l, r, i);
      }
      EqualByKeys(l, r);
      EqualIsSame(l, r);
    }
  }

  lemma {:induction false} StructuralAtKey(l: Json, r: Json, i: nat)
    requires WellFormed(l) && WellFormed(r) && Unmistakable(l) && Composite(l) && Composite(r)
    requires i < Count(l) && Own(r, KeyAt(l, i)).Some?
    ensures EqualAt(l, r, i) <==> SameUnder(l, r, KeyAt(l, i))
    decreases l, 0
  {
    var key := KeyAt(l, i);
    OwnAt(l, i);
    OwnIsAt(r, key);
    UnmistakableIsStructural(ChildAt(l, i), Own(r, key).value);
  }

  // ---------- the converse ----------

  /** A key that is longer than all keys of the value and than any that is answered for. */
  function FreshKey(v: Json, n: nat): (key: string)
    requires n <= Count(v)
    ensures |key| >= 10 && forall i :: 0 <= i < n ==> |KeyAt(v, i)| < |key|
  {
    if n == 0 then "__proto__x"
    else
      var key := FreshKey(v, n - 1);
      if |KeyAt(v, n - 1)| < |key| then key else KeyAt(v, n - 1) + "x"
  }

  /** `l` and `r` are compared as equal although they are not the same. */
  ghost predicate Mistaken(l: Json, r: Json) {
    WellFormed(r) && Equal(l, r) && !Same(l, r)
  }

  lemma MistakenAt(l: Json, r: Json, key: string)
    requires Composite(l) && Composite(r) && WellFormed(r) && EqualThroughout(l, r) && !SameUnder(l, r, key)
    ensures Mistaken(l, r)
  {
    EqualByKeys(l, r);
    SameByKeys(l, r);
  }

  /** Giving its empty prototype another name fools the comparison. */
  lemma ProtoIsMistaken(l: Json) returns (r: Json)
    requires WellFormed(l) && OwnsEmptyProto(l)
    ensures Mistaken(l, r)
  {
    hide Equal, Same, Digits;
    OwnIsAt(l, "__proto__");
    var i :| 0 <= i < Count(l) && KeyAt(l, i) == "__proto__" && ChildAt(l, i) == Own(l, "__proto__").value;
    var key := FreshKey(l, Count(l));
    r := Object(l.entries[i := (key, ChildAt(l, i))]);
    forall j | 0 <= j < Count(l)
      ensures KeyAt(r, j) == (if j == i then key else KeyAt(l, j)) && KeyAt(r, j) != "__proto__"
      ensures ChildAt(r, j) == ChildAt(l, j) && KeyAt(l, j) != key
    {
    }
    assert DistinctKeys(r);
    assert Own(r, "__proto__").None?;
    forall j | 0 <= j < Count(l)
      ensures EqualAt(l, r, j)
    {
      if j == i {
        EqualToEmpty(ChildAt(l, i), Object([]));
      } else {
        OwnAt(r, j);
        EqualToItself(ChildAt(l, j));
      }
    }
    MistakenAt(l, r, "__proto__");
  }

  /** The array whose items are the indexed properties of an object. */
  function ArrayOf(v: Json): Json {
    Array(seq(Count(v), j requires 0 <= j < Count(v) =>
      if Own(v, Digits(j)).Some? then Own(v, Digits(j)).value else Null))
  }

  /** The array with the claimed length fools the comparison. */
  lemma LengthIsMistaken(l: Json) returns (r: Json)
    requires WellFormed(l) && ClaimsLength(l)
    ensures Mistaken(l, r)
  {
    hide Equal, Same, Digits;
    r := ArrayOf(l);
    IndicesAreDistinct(r);
    forall j | 0 <= j < Count(r)
      ensures WellFormed(ChildAt(r, j))
    {
      if Own(l, Digits(j)).Some? {
        OwnIsAt(l, Digits(j));
      }
    }
    forall j: nat
      ensures Digits(j) != "length"
    {
      DigitsAreDigits(j);
    }
    assert Own(r, "length").None?;
    forall i | 0 <= i < Count(l)
      ensures EqualAt(l, r, i)
    {
      OwnAt(l, i);
      if KeyAt(l, i) == "length" {
        EqualScalar(ChildAt(l, i), Number(Count(l) as real));
      } else {
        var j: nat :| j < Count(l) && Digits(j) == KeyAt(l, i);
        OwnAt(r, j);
        EqualToItself(ChildAt(l, i));
      }
    }
    MistakenAt(l, r, "length");
  }

  /** The value with one child replaced. */
  function Replace(v: Json, i: nat, child: Json): (r: Json)
    requires i < Count(v)
    ensures Count(r) == Count(v) && Composite(v) && Composite(r)
    ensures forall j :: 0 <= j < Count(v) ==> KeyAt(r, j) == KeyAt(v, j)
    ensures forall j :: 0 <= j < Count(v) ==> ChildAt(r, j) == if j == i then child else ChildAt(v, j)
  {
    match v
    case Array(items) => Array(items[i := child])
    case Object(entries) => Object(entries[i := (entries[i].0, child)])
  }

  lemma ReplacedIsMistaken(l: Json, i: nat, child: Json)
    requires WellFormed(l) && i < Count(l) && Mistaken(ChildAt(l, i), child)
    ensures Mistaken(l, Replace(l, i, child))
  {
    hide Equal, Same, Digits;
    var r := Replace(l, i, child);
    forall j | 0 <= j < Count(l)
      ensures EqualAt(l, r, j)
    {
      OwnAt(r, j);
      EqualToItself(ChildAt(l, j));
    }
    OwnAt(l, i);
    OwnAt(r, i);
    MistakenAt(l, r, KeyAt(l, i));
  }

  lemma {:induction false} MistakableIsMistaken(l: Json) returns (r: Json)
    requires WellFormed(l) && !Unmistakable(l)
    ensures Mistaken(l, r)
    decreases l
  {
    hide Mistaken, OwnsEmptyProto, ClaimsLength;
    if OwnsEmptyProto(l) {
      r := ProtoIsMistaken(l);
    } else if ClaimsLength(l) {
      r := LengthIsMistaken(l);
    } else {
      var i :| 0 <= i < Count(l) && !Unmistakable(ChildAt(l, i));
      var child := MistakableIsMistaken(ChildAt(l, i));
      ReplacedIsMistaken(l, i, child);
      r := Replace(l, i, child);
    }
  }

  /** A value is compared structurally with every value exactly when no object inside it owns
      an empty prototype, or a length that makes it look like an array of as many items. */
  lemma StructuralIff(l: Json)
    requires WellFormed(l)
    ensures (forall r :: WellFormed(r) ==> (Equal(l, r) <==> Same(l, r))) <==> Unmistakable(l)
  {
    hide Equal, Same, Unmistakable;
    if Unmistakable(l) {
      forall r | WellFormed(r)
        ensures Equal(l, r) <==> Same(l, r)
      {
        UnmistakableIsStructural(l, r);
      }
    } else {
      var r := MistakableIsMistaken(l);
      assert Equal(l, r) && !Same(l, r);
    }
  }

  // ---------- sameness ----------

  lemma {:induction false} SameIsReflexive(v: Json)
    ensures Same(v, v)
    decreases v
  {
    hide Same;
    SameByKeys(v, v);
    forall key
      ensures SameUnder(v, v, key)
    {
      if Own(v, key).Some? {
        SameIsReflexive(Own(v, key).value);
      }
    }
  }

  lemma {:induction false} SameIsSymmetric(l: Json, r: Json)
    requires Same(l, r)
    ensures Same(r, l)
    decreases l
  {
    hide Same;
    SameByKeys(l, r);
    SameByKeys(r, l);
    if Composite(l) && Composite(r) {
      forall key
        ensures SameUnder(r, l, key)
      {
        assert SameUnder(l, r, key);
        if Own(l, key).Some? {
          SameIsSymmetric(Own(l, key).value, Own(r, key).value);
        }
      }
    }
  }

  lemma {:induction false} SameIsTransitive(a: Json, b: Json, c: Json)
    requires Same(a, b) && Same(b, c)
    ensures Same(a, c)
    decreases a
  {
    hide Same;
    SameByKeys(a, b);
    SameByKeys(b, c);
    SameByKeys(a, c);
    if Composite(a) && Composite(b) && Composite(c) {
      forall key
        ensures SameUnder(a, c, key)
      {
        assert SameUnder(a, b, key) && SameUnder(b, c, key);
        if Own(a, key).Some? {
          SameIsTransitive(Own(a, key).value, Own(b, key).value, Own(c, key).value);
        }
      }
    }
  }

  /** Structural sameness is an equivalence, and so is the comparison of values that cannot
      be mistaken. */
  lemma ComparisonIsEquivalence(a: Json, b: Json, c: Json)
    requires WellFormed(a) && WellFormed(b) && WellFormed(c)
    ensures Same(a, a) && (Same(a, b) ==> Same(b, a)) && (Same(a, b) && Same(b, c) ==> Same(a, c))
    ensures Unmistakable(a) && Unmistakable(b) ==>
      && Equal(a, a) && (Equal(a, b) ==> Equal(b, a))
      && (Equal(a, b) && Equal(b, c) ==> Equal(a, c))
  {
    hide *;
    SameIsReflexive(a);
    if Same(a, b) {
      SameIsSymmetric(a, b);
      if Same(b, c) {
        SameIsTransitive(a, b, c);
      }
    }
    if Unmistakable(a) && Unmistakable(b) {
      UnmistakableIsStructural(a, a);
      UnmistakableIsStructural(a, b);
      UnmistakableIsStructural(b, a);
      UnmistakableIsStructural(b, c);
      UnmistakableIsStructural(a, c);
    }
  }

  /** Otherwise the comparison need not even be symmetric: an object that claims the
      length of an array is equal to it, but not the other way round. */
  lemma LengthIsRead()
    ensures var claims := Object([("length", Number(1.0))]);
      Equal(claims, Array([Null])) && !Equal(Array([Null]), claims) && !Same(claims, Array([Null]))
  {
    var claims, one := Object([("length", Number(1.0))]), Array([Null]);
    DigitsAreDigits(0);
    assert Own(one, "length") == None;
    assert KeyAt(claims, 0) == "length" && EqualAt(claims, one, 0);
    assert !EqualAt(one, claims, 0);
    assert !SameUnder(claims, one, "length");
  }

  // ---------- tokens ----------

  /** The fields of a token that are compared cannot be mistaken. */
  predicate Clean(v: Json) {
    && !OwnsEmptyProto(v)
    && forall i :: 0 <= i < Count(v) && KeyAt(v, i) != AGE ==> Unmistakable(ChildAt(v, i))
  }

  ghost predicate SameButAge(l: Json, r: Json) {
    forall key :: key != AGE ==> SameUnder(l, r, key)
  }

  lemma FieldAgrees(l: Json, r: Json, key: string)
    requires l.Object? && r.Object? && WellFormed(l) && WellFormed(r) && Clean(l) && !OwnsEmptyProto(r) && key != AGE
    ensures (key in KeySet(l) || key in KeySet(r) ==> AgreeOn(l, r, key)) <==> SameUnder(l, r, key)
  {
    hide Equal, Same;
    OwnsItsKeys(l, key);
    OwnsItsKeys(r, key);
    if key in KeySet(l) {
      OwnIsAt(l, key);
      if key in KeySet(r) {
        OwnIsAt(r, key);
        UnmistakableIsStructural(Own(l, key).value, Own(r, key).value);
      } else {
        EqualToEmpty(Own(l, key).value, Object([]));
      }
    } else if key in KeySet(r) {
      EqualFromEmpty(Object([]), Own(r, key).value);
    }
  }

  lemma EqualFromEmpty(empty: Json, v: Json)
    requires Composite(empty) && Count(empty) == 0
    ensures Equal(empty, v) <==> EmptyComposite(v)
  {
    EqualScalar(empty, v);
    if Composite(v) {
      EqualByKeys(empty, v);
    }
  }

  /** Two tokens are equivalent exactly when they have the same fields with the same values,
      the age aside, unless a field can be mistaken. */
  lemma EquivalentIgnoresAgeOnly(l: Json, r: Json)
    requires l.Object? && r.Object? && WellFormed(l) && WellFormed(r) && Clean(l) && !OwnsEmptyProto(r)
    ensures Equivalent(l, r) <==> SameButAge(l, r)
  {
    hide AgreeOn, SameUnder, KeySet, Clean, OwnsEmptyProto;
    if Equivalent(l, r) {
      forall key | key != AGE
        ensures SameUnder(l, r, key)
      {
        FieldAgrees(l, r, key);
      }
    }
    if SameButAge(l, r) {
      forall key | key != AGE && (key in KeySet(l) || key in KeySet(r))
        ensures AgreeOn(l, r, key)
      {
        FieldAgrees(l, r, key);
      }
    }
  }

  /** `r` is taken for equivalent to `l` although a field differs. */
  ghost predicate TokenMistaken(l: Json, r: Json)
    requires l.Object?
  {
    r.Object? && WellFormed(r) && !OwnsEmptyProto(r) && Equivalent(l, r) && !SameButAge(l, r)
  }

  lemma OwnedAlike(l: Json, r: Json, key: string)
    requires l.Object? && r.Object? && WellFormed(l) && Own(l, key).Some? && Own(r, key) == Own(l, key)
    ensures AgreeOn(l, r, key)
  {
    OwnIsAt(l, key);
    EqualToItself(Own(l, key).value);
  }

  function Without(v: Json, i: nat): Json
    requires v.Object? && i < Count(v)
  {
    Object(v.entries[..i] + v.entries[i + 1..])
  }

  lemma EntryOfWithout(v: Json, i: nat, j: nat)
    requires v.Object? && i < Count(v) && j < Count(v) - 1
    ensures Count(Without(v, i)) == Count(v) - 1
    ensures var k := if j < i then j else j + 1;
      KeyAt(Without(v, i), j) == KeyAt(v, k) && ChildAt(Without(v, i), j) == ChildAt(v, k)
  {
  }

  lemma WithoutIsWellFormed(v: Json, i: nat)
    requires v.Object? && WellFormed(v) && i < Count(v)
    ensures WellFormed(Without(v, i)) && Own(Without(v, i), KeyAt(v, i)).None?
  {
    var r := Without(v, i);
    forall j | 0 <= j < Count(r)
      ensures var k := if j < i then j else j + 1; KeyAt(r, j) == KeyAt(v, k) && ChildAt(r, j) == ChildAt(v, k)
    {
      EntryOfWithout(v, i, j);
    }
    hide KeyAt, ChildAt, Without;
    assert DistinctKeys(r);
    if Own(r, KeyAt(v, i)).Some? {
      OwnIsAt(r, KeyAt(v, i));
    }
  }

  lemma WithoutKeeps(v: Json, i: nat, k: nat)
    requires v.Object? && i < Count(v) && k < Count(v) && k != i
    requires DistinctKeys(v) && DistinctKeys(Without(v, i))
    ensures Own(Without(v, i), KeyAt(v, k)) == Own(v, KeyAt(v, k))
  {
    hide KeyAt, ChildAt, Without, Own, DistinctKeys;
    var j := if k < i then k else k - 1;
    EntryOfWithout(v, i, j);
    OwnAt(v, k);
    OwnAt(Without(v, i), j);
  }

  lemma WithoutAdds(v: Json, i: nat, key: string)
    requires v.Object? && DistinctKeys(v) && i < Count(v) && Own(Without(v, i), key).Some?
    ensures Own(v, key).Some?
  {
    hide KeyAt, ChildAt, Own, DistinctKeys;
    var r := Without(v, i);
    OwnIsAt(r, key);
    var j :| 0 <= j < Count(r) && KeyAt(r, j) == key && ChildAt(r, j) == Own(r, key).value;
    EntryOfWithout(v, i, j);
    OwnAt(v, if j < i then j else j + 1);
  }

  lemma WithoutOwns(v: Json, i: nat, key: string)
    requires v.Object? && WellFormed(v) && i < Count(v) && key != KeyAt(v, i)
    ensures Own(Without(v, i), key) == Own(v, key)
  {
    WithoutIsWellFormed(v, i);
    hide KeyAt, ChildAt, Without, DistinctKeys, Own;
    if Own(v, key).Some? {
      OwnIsAt(v, key);
      var k :| 0 <= k < Count(v) && KeyAt(v, k) == key && ChildAt(v, k) == Own(v, key).value;
      WithoutKeeps(v, i, k);
    } else if Own(Without(v, i), key).Some? {
      WithoutAdds(v, i, key);
    }
  }

  /** Leaving an empty prototype out goes unnoticed. */
  lemma MissingProtoIsMistaken(l: Json) returns (r: Json)
    requires l.Object? && WellFormed(l) && OwnsEmptyProto(l)
    ensures TokenMistaken(l, r)
  {
    hide Equal, Same, Digits, AgreeOn, Without, KeySet;
    OwnIsAt(l, "__proto__");
    var i :| 0 <= i < Count(l) && KeyAt(l, i) == "__proto__" && ChildAt(l, i) == Own(l, "__proto__").value;
    r := Without(l, i);
    WithoutIsObject(l, i);
    WithoutIsWellFormed(l, i);
    forall key | key in KeySet(l) || key in KeySet(r)
      ensures AgreeOn(l, r, key)
    {
      OwnsItsKeys(r, key);
      OwnsItsKeys(l, key);
      if key == "__proto__" {
        ProtoAgrees(l, r);
      } else {
        WithoutOwns(l, i, key);
        OwnedAlike(l, r, key);
      }
    }
    assert !SameUnder(l, r, "__proto__");
  }

  lemma WithoutIsObject(v: Json, i: nat)
    requires v.Object? && i < Count(v)
    ensures Without(v, i).Object?
  {
  }

  lemma ProtoAgrees(l: Json, r: Json)
    requires OwnsEmptyProto(l) && r.Object? && Own(r, "__proto__").None?
    ensures AgreeOn(l, r, "__proto__")
  {
    EqualToEmpty(Own(l, "__proto__").value, Object([]));
  }

  lemma FieldIsMistaken(l: Json, i: nat) returns (r: Json)
    requires l.Object? && WellFormed(l) && !OwnsEmptyProto(l)
    requires i < Count(l) && KeyAt(l, i) != AGE && !Unmistakable(ChildAt(l, i))
    ensures TokenMistaken(l, r)
  {
    hide Equal, Same, Digits, AgreeOn;
    var child := MistakableIsMistaken(ChildAt(l, i));
    r := Replace(l, i, child);
    if EmptyComposite(child) {
      EqualToEmpty(ChildAt(l, i), child);
      assert false;
    }
    OwnAt(l, i);
    OwnAt(r, i);
    if Own(r, "__proto__").Some? {
      OwnIsAt(r, "__proto__");
      var j :| 0 <= j < Count(r) && KeyAt(r, j) == "__proto__" && ChildAt(r, j) == Own(r, "__proto__").value;
      OwnAt(l, j);
    }
    forall key | key in KeySet(l) || key in KeySet(r)
      ensures AgreeOn(l, r, key)
    {
      ReplacedAgrees(l, r, i, child, key);
    }
    assert !SameUnder(l, r, KeyAt(l, i));
  }

  lemma ReplacedAgrees(l: Json, r: Json, i: nat, child: Json, key: string)
    requires l.Object? && r.Object? && WellFormed(l) && WellFormed(r) && i < Count(l) && r == Replace(l, i, child)
    requires Equal(ChildAt(l, i), child) && (key in KeySet(l) || key in KeySet(r))
    ensures AgreeOn(l, r, key)
  {
    hide Equal, Same;
    var j :| 0 <= j < Count(l) && KeyAt(l, j) == key;
    OwnAt(l, j);
    OwnAt(r, j);
    if j != i {
      EqualToItself(ChildAt(l, j));
    }
  }

  /** The equivalence of a token with the tokens that own no empty prototype looks at all
      fields but the age exactly when none of its other fields can be mistaken. */
  lemma TokensAreStructuralIff(l: Json)
    requires l.Object? && WellFormed(l)
    ensures (forall r: Json :: r.Object? && WellFormed(r) && !OwnsEmptyProto(r) ==>
              (Equivalent(l, r) <==> SameButAge(l, r))) <==> Clean(l)
  {
    hide Equivalent, SameButAge, OwnsEmptyProto, Unmistakable;
    if Clean(l) {
      forall r: Json | r.Object? && WellFormed(r) && !OwnsEmptyProto(r)
        ensures Equivalent(l, r) <==> SameButAge(l, r)
      {
        EquivalentIgnoresAgeOnly(l, r);
      }
    } else if OwnsEmptyProto(l) {
      var r := MissingProtoIsMistaken(l);
      assert Equivalent(l, r) && !SameButAge(l, r);
    } else {
      var i :| 0 <= i < Count(l) && KeyAt(l, i) != AGE && !Unmistakable(ChildAt(l, i));
      var r := FieldIsMistaken(l, i);
      assert Equivalent(l, r) && !SameButAge(l, r);
    }
  }
}
