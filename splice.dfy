/** The array operations `Control.add`, `insert` and `remove` are built from:
    `Array.prototype.splice` (insert or delete one element) and `indexOf`. */
module Splice {

  /** Where `splice(index, ...)` starts on an array of length `len`: a negative
      index counts from the end, and the result is clamped to `0..len`. */
  function SpliceStart(len: nat, index: int): (k: nat)
    ensures k <= len
  {
    if index < 0 then (if len + index < 0 then 0 else len + index)
    else if index > len then len
    else index
  }

  /** `s.splice(index, 0, x)` */
  function InsertAt<T>(s: seq<T>, index: int, x: T): seq<T> {
    var k := SpliceStart(|s|, index);
    s[..k] + [x] + s[k..]
  }

  /** What `insert` promises: `x` lands at the clamped position and taking it
      out again gives back the old array, so the other entries keep their order. */
  lemma InsertAtPlaces<T>(s: seq<T>, index: int, x: T)
    ensures var k, r := SpliceStart(|s|, index), InsertAt(s, index, x);
      |r| == |s| + 1 && r[k] == x && r[..k] + r[k + 1..] == s
  {
    var k, r := SpliceStart(|s|, index), InsertAt(s, index, x);
    assert r[..k] == s[..k];
    assert r[k + 1..] == s[k..];
  }

  /** `s.indexOf(x)`: the first position holding `x`, or -1. */
  function IndexOf<T(==)>(s: seq<T>, x: T): (i: int)
    ensures -1 <= i < |s|
    ensures i == -1 <==> x !in s
    ensures 0 <= i ==> s[i] == x && x !in s[..i]
  {
    if s == [] then -1
    else if s[0] == x then 0
    else
      var j := IndexOf(s[1..], x);
      if j == -1 then -1 else j + 1
  }

  /** `var i = s.indexOf(x); if (i > -1) s.splice(i, 1);` */
  function RemoveFirst<T(==)>(s: seq<T>, x: T): seq<T> {
    var i := IndexOf(s, x);
    if i > -1 then s[..i] + s[i + 1..] else s
  }

  /** Removing takes out exactly one occurrence of a present element, keeps the
      rest in order, and leaves the array alone when the element is absent. */
  lemma RemoveFirstSpec<T>(s: seq<T>, x: T)
    ensures x !in s ==> RemoveFirst(s, x) == s
    ensures x in s ==> |RemoveFirst(s, x)| == |s| - 1
    ensures x in s ==> multiset(RemoveFirst(s, x)) == multiset(s) - multiset{x}
    ensures x in s ==> exists i :: 0 <= i < |s| && s[i] == x && x !in s[..i] &&
                                  RemoveFirst(s, x) == s[..i] + s[i + 1..]
  {
    if x in s {
      var i := IndexOf(s, x);
      assert s == s[..i] + [x] + s[i + 1..];
      calc {
        multiset(s);
        multiset(s[..i]) + multiset{x} + multiset(s[i + 1..]);
        multiset(s[..i] + s[i + 1..]) + multiset{x};
      }
    }
  }
}
