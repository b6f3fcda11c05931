/** GList idioms shared by the models: duplicate-free lists and removal of the first match. */
module Lists {

  datatype Option<+T> = None | Some(value: T)

  ghost predicate NoDup<T>(s: seq<T>) {
    forall i, j :: 0 <= i < j < |s| ==> s[i] != s[j]
  }

  /** The link at position i is unlinked; everything else keeps its order. */
  function RemoveAt<T>(s: seq<T>, i: nat): (r: seq<T>)
    requires i < |s|
    ensures |r| == |s| - 1
  {
    s[..i] + s[i + 1..]
  }

  /** Position of the first match, as g_list_find reports it. */
  function IndexOf<T(==)>(s: seq<T>, x: T): (i: nat)
    requires x in s
    ensures i < |s| && s[i] == x && x !in s[..i]
  {
    if s[0] == x then 0 else 1 + IndexOf(s[1..], x)
  }

  function Remove<T(==)>(s: seq<T>, x: T): (r: seq<T>) {
    if x in s then RemoveAt(s, IndexOf(s, x)) else s
  }

  /** A number above all of them. */
  function Above(s: seq<int>): (m: nat)
    ensures forall i :: 0 <= i < |s| ==> s[i] < m
  {
    if s == [] then 0 else
      var m := Above(s[1..]);
      if s[0] < m then m else s[0] + 1
  }

  lemma IndexUnique<T>(s: seq<T>, x: T, i: nat)
    requires NoDup(s) && i < |s| && s[i] == x
    ensures IndexOf(s, x) == i
  {
    var j := IndexOf(s, x);
    assert s[j] == s[i];
  }

  lemma FirstMatch<T>(s: seq<T>, x: T, i: nat)
    requires i < |s| && s[i] == x && forall k :: 0 <= k < i ==> s[k] != x
    ensures IndexOf(s, x) == i
  {
  }

  lemma RemoveKeeps<T>(s: seq<T>, x: T)
    requires NoDup(s)
    ensures NoDup(Remove(s, x))
    ensures forall y :: y in Remove(s, x) <==> y in s && y != x
  {
    if x in s {
      var i := IndexOf(s, x);
      var r := RemoveAt(s, i);
      forall y ensures y in r <==> y in s && y != x {
        if y in s && y != x {
          var j := IndexOf(s, y);
          assert r[if j < i then j else j - 1] == y;
        }
        if y in r {
          var j := IndexOf(r, y);
          assert s[if j < i then j else j + 1] == y;
        }
      }
    }
  }

  lemma RemoveLast<T>(s: seq<T>, x: T)
    requires x !in s
    ensures Remove(s + [x], x) == s
  {
    var t := s + [x];
    var i := IndexOf(t, x);
    assert t[|s|] == x;
    assert forall j :: 0 <= j < |s| ==> t[j] == s[j];
  }

  ghost function Elems<T>(s: seq<T>): set<T> {
    set x | x in s
  }

  lemma ElemsAppend<T>(s: seq<T>, x: T)
    ensures Elems(s + [x]) == Elems(s) + {x}
  {
  }

  lemma ElemsRemove<T>(s: seq<T>, x: T)
    requires NoDup(s)
    ensures NoDup(Remove(s, x)) && Elems(Remove(s, x)) == Elems(s) - {x}
    ensures x in s ==> |Remove(s, x)| == |s| - 1
  {
    RemoveKeeps(s, x);
  }

  /** A duplicate-free list has as many links as distinct members. */
  lemma {:induction false} Cardinality<T>(s: seq<T>)
    requires NoDup(s)
    ensures |Elems(s)| == |s|
  {
    if s != [] {
      var n := |s| - 1;
      Cardinality(s[..n]);
      assert s == s[..n] + [s[n]];
      ElemsAppend(s[..n], s[n]);
      assert s[n] !in s[..n];
    }
  }
}
