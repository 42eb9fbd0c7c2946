/** Building blocks shared by the two room registries and the peer layer:
    an optional value, JavaScript truthiness of strings, and the JavaScript
    `Set` of ids, which iterates in insertion order and holds no duplicates,
    represented as a sequence. */
module Basics {

  datatype Option<+T> = None | Some(value: T)

  /** A JavaScript string is falsy exactly when it is empty. */
  predicate Truthy(s: string) {
    |s| > 0
  }

  predicate Distinct<T(==)>(s: seq<T>) {
    forall i, j :: 0 <= i < j < |s| ==> s[i] != s[j]
  }

  /** a occurs before b in s. */
  predicate Precedes<T(==)>(s: seq<T>, a: T, b: T) {
    exists i, j :: 0 <= i < j < |s| && s[i] == a && s[j] == b
  }

  /** `set.add(x)`: a new element goes to the end of the iteration order,
      an element already present leaves the set as it was. */
  function Add<T(==,!new)>(s: seq<T>, x: T): (r: seq<T>)
    ensures |r| == if x in s then |s| else |s| + 1
    ensures r[..|s|] == s
    ensures forall y :: y in r <==> y in s || y == x
    ensures Distinct(s) ==> Distinct(r)
  {
    if x in s then s else s + [x]
  }

  /** `set.delete(x)`: removes x and keeps the others in their order. */
  function Delete<T(==,!new)>(s: seq<T>, x: T): (r: seq<T>)
    ensures |r| <= |s|
    ensures forall y :: y in r <==> y in s && y != x
    ensures x !in s ==> r == s
    ensures Distinct(s) ==> Distinct(r)
    ensures Distinct(s) && x in s ==> |r| == |s| - 1
    ensures Distinct(s) && r != [] ==> |s| >= 2 || s[0] != x
    /** The first element left is the earliest inserted element other than x. */
    ensures Distinct(s) && r != [] ==> r[0] == (if s[0] == x then s[1] else s[0])
  {
    if s == [] then []
    else if s[0] == x then Delete(s[1..], x)
    else
      var rest := Delete(s[1..], x);
      assert Distinct(s) ==> s[0] !in s[1..] && s[0] !in rest;
      [s[0]] + rest
  }

  lemma {:induction false} DeleteDistributes<T(!new)>(a: seq<T>, b: seq<T>, x: T)
    ensures Delete(a + b, x) == Delete(a, x) + Delete(b, x)
  {
    if a != [] {
      assert (a + b)[1..] == a[1..] + b;
      DeleteDistributes(a[1..], b, x);
    } else {
      assert a + b == b;
    }
  }

  /** Deleting the one occurrence of x in a duplicate-free sequence splits
      it around that occurrence. */
  lemma DeleteAt<T(!new)>(a: seq<T>, x: T, b: seq<T>)
    requires x !in a && x !in b
    ensures Delete(a + [x] + b, x) == a + b
  {
    DeleteDistributes(a + [x], b, x);
    DeleteDistributes(a, [x], x);
  }

  lemma TakeOneMore<T>(s: seq<T>, k: nat)
    requires k < |s|
    ensures s[..k + 1] == s[..k] + [s[k]]
  {
  }

  /** Concatenation of n copies of s, in order. */
  function Repeat<T>(s: seq<T>, n: nat): seq<T>
  {
    if n == 0 then [] else Repeat(s, n - 1) + s
  }
}
