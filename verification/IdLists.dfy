/** Ascending and duplicate-free id lists, as every index in the contracts keeps them. */
module IdLists {
  import opened Common

  ghost predicate Ascending(s: seq<U64>) {
    forall i, j :: 0 <= i < j < |s| ==> s[i] < s[j]
  }

  ghost predicate Distinct(s: seq<U64>) {
    forall i, j :: 0 <= i < j < |s| ==> s[i] != s[j]
  }

  /** `s` lists exactly the members of `ids`, once each. */
  ghost predicate Lists(s: seq<U64>, ids: set<U64>) {
    Distinct(s) && (forall x :: x in s <==> x in ids)
  }

  function Without(s: seq<U64>, id: U64): seq<U64>
    decreases |s|
  {
    if s == [] then []
    else Without(s[..|s| - 1], id) + if s[|s| - 1] == id then [] else [s[|s| - 1]]
  }

  lemma AppendKeeps(s: seq<U64>, last: U64)
    ensures Ascending(s) && (forall x :: x in s ==> x < last) ==> Ascending(s + [last])
    ensures Distinct(s) && last !in s ==> Distinct(s + [last])
    ensures Ascending(s + [last]) ==> Ascending(s) && forall x :: x in s ==> x < last
    ensures Distinct(s + [last]) ==> Distinct(s) && last !in s
  {
    var t := s + [last];
    assert forall i :: 0 <= i < |s| ==> t[i] == s[i] && t[i] in s;
    assert t[|s|] == last;
  }

  lemma AscendingConcat(a: seq<U64>, b: seq<U64>)
    ensures Ascending(a + b) <==>
            Ascending(a) && Ascending(b) && forall x, y :: x in a && y in b ==> x < y
  {
    var c := a + b;
    assert forall i :: 0 <= i < |a| ==> c[i] == a[i] && a[i] in a;
    assert forall i :: 0 <= i < |b| ==> c[|a| + i] == b[i] && b[i] in b;
    if Ascending(c) {
      forall i, j | 0 <= i < j < |b|
        ensures b[i] < b[j]
      {
        assert c[|a| + i] < c[|a| + j];
      }
    }
  }

  /** Dropping an id keeps the rest, in order. */
  lemma {:induction false} WithoutKeeps(s: seq<U64>, id: U64)
    ensures forall x :: x in Without(s, id) <==> x in s && x != id
    ensures Ascending(s) ==> Ascending(Without(s, id))
    ensures Distinct(s) ==> Distinct(Without(s, id))
    decreases |s|
  {
    if s != [] {
      var front, last := s[..|s| - 1], s[|s| - 1];
      assert s == front + [last];
      WithoutKeeps(front, id);
      AppendKeeps(front, last);
      AppendKeeps(Without(front, id), last);
      assert Without(front, id) + [] == Without(front, id);
    }
  }

  /** The copy loop behind every "remove from index" helper of the contracts. */
  method Remove(ids: seq<U64>, id: U64) returns (kept: seq<U64>)
    ensures kept == Without(ids, id)
  {
    kept := [];
    for i := 0 to |ids|
      invariant kept == Without(ids[..i], id)
    {
      assert ids[..i + 1][..i] == ids[..i];
      if ids[i] != id {
        kept := kept + [ids[i]];
      }
    }
    assert ids[..|ids|] == ids;
  }

  lemma ListsSize(s: seq<U64>, ids: set<U64>)
    requires Lists(s, ids)
    ensures |s| == |ids|
  {
    DistinctSize(s);
    assert Members(s) == ids;
  }
}
