/** The selection list: an ordered list without duplicates, toggled one entry at a time. */
module Selection {

  /** `sub` is `s` with some elements left out and the rest in their original order. */
  predicate IsSubsequence<T(==)>(sub: seq<T>, s: seq<T>)
  {
    if sub == [] then true
    else if s == [] then false
    else if sub[0] == s[0] then IsSubsequence(sub[1..], s[1..])
    else IsSubsequence(sub, s[1..])
  }

  /** Appending to the list keeps a subsequence one, whether or not the subsequence takes the new element. */
  lemma {:induction false} SubsequenceExtend<T>(sub: seq<T>, s: seq<T>, x: T)
    requires IsSubsequence(sub, s)
    ensures IsSubsequence(sub, s + [x])
    ensures IsSubsequence(sub + [x], s + [x])
    decreases |s|
  {
    if s == [] {
      assert sub == [];
      assert [x][1..] == [];
    } else {
      assert (s + [x])[1..] == s[1..] + [x];
      if sub == [] {
        if x != s[0] {
          SubsequenceExtend(sub, s[1..], x);
        }
      } else {
        assert (sub + [x])[1..] == sub[1..] + [x];
        if sub[0] == s[0] {
          SubsequenceExtend(sub[1..], s[1..], x);
        } else {
          SubsequenceExtend(sub, s[1..], x);
        }
      }
    }
  }

  predicate NoDuplicates<T(==)>(s: seq<T>)
  {
    forall i, j :: 0 <= i < j < |s| ==> s[i] != s[j]
  }

  /** The observable array's `remove(x)`: every element equal to `x` is dropped, the rest keep their order. */
  function Without<T(==,!new)>(s: seq<T>, x: T): (r: seq<T>)
    ensures forall y :: y in r <==> y in s && y != x
    ensures IsSubsequence(r, s)
    ensures NoDuplicates(s) ==> NoDuplicates(r)
  {
    if s == [] then []
    else if s[0] == x then
      var rest := Without(s[1..], x);
      assert rest != [] ==> rest[0] in rest;
      rest
    else
      var rest := Without(s[1..], x);
      assert NoDuplicates(s) ==> s[0] !in s[1..];
      [s[0]] + rest
  }

  /** The array's `indexOf`: the first position holding `x`, or -1 when there is none. */
  function IndexOf<T(==)>(s: seq<T>, x: T): (r: int)
    ensures -1 <= r < |s|
    ensures r == -1 <==> x !in s
    ensures r >= 0 ==> s[r] == x && x !in s[..r]
  {
    if s == [] then -1
    else if s[0] == x then 0
    else
      var k := IndexOf(s[1..], x);
      assert k >= 0 ==> s[..k + 1] == [s[0]] + s[1..][..k];
      if k == -1 then -1 else k + 1
  }

  /** `selectItem`: drop the entry when it is selected, append it otherwise. */
  function Toggled<T(==,!new)>(s: seq<T>, x: T): (r: seq<T>)
  {
    if x in s then Without(s, x) else s + [x]
  }

  /** Toggling flips the toggled entry's membership and leaves every other entry's alone. */
  lemma ToggledFlips<T(!new)>(s: seq<T>, x: T, y: T)
    ensures y in Toggled(s, x) <==> (if y == x then x !in s else y in s)
  {
  }

  /** The selection never holds duplicates. */
  lemma ToggledKeepsNoDuplicates<T(!new)>(s: seq<T>, x: T)
    requires NoDuplicates(s)
    ensures NoDuplicates(Toggled(s, x))
  {
    if x !in s {
      forall i, j | 0 <= i < j < |s| + 1
        ensures (s + [x])[i] != (s + [x])[j]
      {
        if j == |s| {
          assert (s + [x])[i] == s[i];
        }
      }
    }
  }

  /** Appending an absent element and removing it again gives back the original list. */
  lemma {:induction false} WithoutAppended<T(!new)>(s: seq<T>, x: T)
    requires x !in s
    ensures Without(s + [x], x) == s
  {
    if s != [] {
      assert (s + [x])[1..] == s[1..] + [x];
      WithoutAppended(s[1..], x);
    } else {
      assert [x][1..] == [];
    }
  }

  /**
   * Toggling the same entry twice restores the selection's membership, and restores the list
   * itself when the entry was not selected to begin with.
   */
  lemma ToggledTwice<T(!new)>(s: seq<T>, x: T)
    ensures forall y :: y in Toggled(Toggled(s, x), x) <==> y in s
    ensures x !in s ==> Toggled(Toggled(s, x), x) == s
  {
    if x !in s {
      WithoutAppended(s, x);
    }
  }
}
