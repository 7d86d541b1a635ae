/**
 * The listener list of the Steam service is an ordered vector of listener
 * pointers. Removal goes through CryEngine's `stl::find_and_erase`, read here
 * as: find the first element equal to the value (std::find) and erase it when
 * one was found; otherwise leave the vector alone. The helper's own source is
 * not part of this model, so that reading is an assumption.
 */
module Listeners {

  /** The position std::find stops at: the first index holding `x`, or `|s|` when there is none. */
  function FindIndex<T(==)>(s: seq<T>, x: T): (i: nat)
    ensures i <= |s|
    ensures i < |s| ==> s[i] == x
    ensures forall k :: 0 <= k < i ==> s[k] != x
    ensures i == |s| <==> x !in s
  {
    if s == [] || s[0] == x then 0 else 1 + FindIndex(s[1..], x)
  }

  /** `stl::find_and_erase`: drop the first occurrence of `x`, if any. */
  function FindAndErase<T(==)>(s: seq<T>, x: T): (r: seq<T>)
    ensures x !in s ==> r == s
    ensures x in s ==> |r| == |s| - 1
    ensures multiset(r) == multiset(s) - multiset{x}
    ensures forall k :: 0 <= k < FindIndex(s, x) && k < |r| ==> r[k] == s[k]
    ensures forall k :: FindIndex(s, x) <= k < |r| ==> r[k] == s[k + 1]
  {
    var i := FindIndex(s, x);
    if i == |s| then s
    else
      EraseAt(s, i);
      s[..i] + s[i + 1..]
  }

  /** Erasing the element at index `i` removes one copy of it and shifts the tail left by one. */
  lemma EraseAt<T>(s: seq<T>, i: nat)
    requires i < |s|
    ensures multiset(s[..i] + s[i + 1..]) == multiset(s) - multiset{s[i]}
    ensures forall k :: 0 <= k < i ==> (s[..i] + s[i + 1..])[k] == s[k]
    ensures forall k :: i < k < |s| ==> (s[..i] + s[i + 1..])[k - 1] == s[k]
  {
    assert s == s[..i] + [s[i]] + s[i + 1..];
  }

  /** Appending `x` and then erasing it gives back `s` when `x` was not in
      `s`; when it was, the first occurrence is erased and the appended `x`
      stays last. */
  lemma {:induction false} FindAndEraseAfterAppend<T>(s: seq<T>, x: T)
    ensures FindAndErase(s + [x], x) == if x in s then FindAndErase(s, x) + [x] else s
  {
    var t := s + [x];
    var i := FindIndex(s, x);
    if x in s {
      assert t[i] == x;
      assert FindIndex(t, x) == i;
      assert t[..i] == s[..i];
      assert t[i + 1..] == s[i + 1..] + [x];
    } else {
      assert FindIndex(t, x) == |s|;
      assert t[..|s|] == s;
    }
  }

  /** Append-then-erase gives back `s` exactly when every entry from the first
      occurrence of `x` on is `x` (vacuously so when `x` is absent). */
  lemma AppendEraseRestoresIff<T>(s: seq<T>, x: T)
    ensures FindAndErase(s + [x], x) == s <==> forall k :: FindIndex(s, x) <= k < |s| ==> s[k] == x
  {
    FindAndEraseAfterAppend(s, x);
    var i := FindIndex(s, x);
    if i < |s| {
      var e := s[..i] + s[i + 1..];
      assert FindAndErase(s, x) == e;
      assert FindAndErase(s + [x], x) == e + [x];
      if e + [x] == s {
        RestoredTailIsConstant(s, x, i);
      }
      if forall k :: i <= k < |s| ==> s[k] == x {
        ConstantTailIsRestored(s, x, i);
      }
    }
  }

  /** If erasing index `i` and appending `x` gives back `s`, every entry from `i` on is `x`. */
  lemma RestoredTailIsConstant<T>(s: seq<T>, x: T, i: nat)
    requires i < |s|
    requires s[..i] + s[i + 1..] + [x] == s
    ensures forall k :: i <= k < |s| ==> s[k] == x
  {
    var r := s[..i] + s[i + 1..] + [x];
    forall k | i <= k < |s| - 1 ensures s[k] == s[k + 1] {
      assert r[k] == s[i + 1..][k - i] == s[k + 1];
    }
    assert r[|s| - 1] == x;
    ConstantTail(s, x, i);
  }

  /** If every entry from `i` on is `x`, erasing index `i` and appending `x` gives back `s`. */
  lemma ConstantTailIsRestored<T>(s: seq<T>, x: T, i: nat)
    requires i < |s|
    requires forall k :: i <= k < |s| ==> s[k] == x
    ensures s[..i] + s[i + 1..] + [x] == s
  {
  }

  /** A suffix in which each entry equals the next and the last entry is `x` is all `x`. */
  lemma {:induction false} ConstantTail<T>(s: seq<T>, x: T, i: nat)
    requires i < |s| && s[|s| - 1] == x
    requires forall k :: i <= k < |s| - 1 ==> s[k] == s[k + 1]
    ensures forall k :: i <= k < |s| ==> s[k] == x
    decreases |s| - i
  {
    if i < |s| - 1 {
      ConstantTail(s, x, i + 1);
      assert s[i] == s[i + 1];
    }
  }
}
