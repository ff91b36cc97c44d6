/**
 What several parts of the model share: optional values and lists without repetition.
 */
module Basics {
  datatype Option<+T> = None | Some(value: T)

  ghost predicate NoDuplicates<T>(s: seq<T>)
  {
    forall i, j :: 0 <= i < j < |s| ==> s[i] != s[j]
  }

  function DropAt<T>(s: seq<T>, i: nat): seq<T>
    requires i < |s|
  {
    s[..i] + s[i + 1..]
  }

  /** `r` is `s` without one entry, `x`. */
  ghost predicate IsDropOf<T>(s: seq<T>, x: T, r: seq<T>)
  {
    exists i :: 0 <= i < |s| && s[i] == x && r == DropAt(s, i)
  }

  lemma DropAtKeeps<T>(s: seq<T>, i: nat)
    requires i < |s| && NoDuplicates(s)
    ensures NoDuplicates(DropAt(s, i))
    ensures forall x :: x in DropAt(s, i) <==> x in s && x != s[i]
  {
    var r := DropAt(s, i);
    assert forall k :: 0 <= k < |r| ==> r[k] == s[if k < i then k else k + 1];
    forall x | x in s && x != s[i] ensures x in r {
      var k :| 0 <= k < |s| && s[k] == x;
      assert r[if k < i then k else k - 1] == x;
    }
  }
}
