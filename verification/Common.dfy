/** Small definitions that several models share. */
module Common {
  /** Python's `if cond: xs.append(x)`. */
  function Note<T>(xs: seq<T>, cond: bool, x: T): seq<T> {
    if cond then xs + [x] else xs
  }

  predicate Lists<T(==)>(xs: seq<T>, x: T) {
    x in xs
  }

  /** The ranks increase, so nothing is listed twice. */
  predicate Ranked<T>(xs: seq<T>, rank: T -> nat) {
    forall i, j :: 0 <= i < j < |xs| ==> rank(xs[i]) < rank(xs[j])
  }

  predicate Under<T>(xs: seq<T>, rank: T -> nat, bound: nat) {
    forall i :: 0 <= i < |xs| ==> rank(xs[i]) < bound
  }

  /** Noting something that ranks above all that is listed so far. */
  lemma NoteInOrder<T>(xs: seq<T>, cond: bool, x: T, rank: T -> nat, bound: nat) returns (more: seq<T>)
    requires Ranked(xs, rank) && Under(xs, rank, bound) && bound <= rank(x)
    ensures more == Note(xs, cond, x) && Ranked(more, rank) && Under(more, rank, rank(x) + 1)
    ensures more == [] <==> xs == [] && !cond
    ensures forall y :: Lists(more, y) <==> Lists(xs, y) || (y == x && cond)
  {
    more := Note(xs, cond, x);
  }

  lemma NothingNoted<T>(rank: T -> nat) returns (xs: seq<T>)
    ensures xs == [] && Ranked(xs, rank) && Under(xs, rank, 0) && forall x: T :: !Lists(xs, x)
  {
    xs := [];
  }

  predicate NoRepeats(keys: seq<string>) {
    forall i, j :: 0 <= i < j < |keys| ==> keys[i] != keys[j]
  }

  function Max(x: real, y: real): real {
    if x < y then y else x
  }

  function Min(x: real, y: real): real {
    if x < y then x else y
  }

  lemma Distribute(a: nat, b: nat, c: nat)
    ensures a * (b + c) == a * b + a * c && (b + c) * a == b * a + c * a
  {
  }
}
