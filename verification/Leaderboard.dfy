/** The registry's bounded leaderboard: keeping the best hundred as users arrive is sorting everybody
    and taking the first hundred. */
module Leaderboard {
  import opened Common

  const LEADERBOARD_SIZE := 100
  const UNRANKED := U32_MAX

  datatype Ordering = Less | Equal | Greater

  datatype RankKey = RankKey(points: U64, registeredAt: U64, addr: seq<Byte>)

  datatype Entry = Entry(user: Address, points: U64)

  /** Lexicographic order; a strict prefix sorts first. */
  function Compare(a: seq<Byte>, b: seq<Byte>): Ordering {
    if a == [] && b == [] then Equal
    else if a == [] then Less
    else if b == [] then Greater
    else if a[0] != b[0] then if a[0] < b[0] then Less else Greater
    else Compare(a[1..], b[1..])
  }

  method CmpBytes(a: seq<Byte>, b: seq<Byte>) returns (o: Ordering)
    ensures o == Compare(a, b)
  {
    var i, n := 0, Min(|a|, |b|);
    while i < n
      invariant 0 <= i <= n
      invariant Compare(a, b) == Compare(a[i..], b[i..])
    {
      if a[i] != b[i] {
        return if a[i] < b[i] then Less else Greater;
      }
      assert a[i..][1..] == a[i + 1..] && b[i..][1..] == b[i + 1..];
      i := i + 1;
    }
    return if |a| < |b| then Less else if |a| == |b| then Equal else Greater;
  }

  lemma {:induction false} CompareLaws(a: seq<Byte>, b: seq<Byte>)
    ensures Compare(a, b) == Equal <==> a == b
    ensures Compare(a, b) == Less <==> Compare(b, a) == Greater
  {
    if a != [] && b != [] && a[0] == b[0] {
      CompareLaws(a[1..], b[1..]);
      assert a == [a[0]] + a[1..] && b == [b[0]] + b[1..];
    }
  }

  lemma {:induction false} CompareTransitive(a: seq<Byte>, b: seq<Byte>, c: seq<Byte>)
    requires Compare(a, b) == Less && Compare(b, c) == Less
    ensures Compare(a, c) == Less
  {
    if a != [] && b != [] && c != [] && a[0] == b[0] == c[0] {
      CompareTransitive(a[1..], b[1..], c[1..]);
    }
  }

  /** After a common beginning `a` ends before `b` does, or has the smaller byte. */
  ghost predicate ComesFirst(a: seq<Byte>, b: seq<Byte>) {
    exists i :: 0 <= i <= |a| && i < |b| && a[..i] == b[..i] && (i == |a| || a[i] < b[i])
  }

  /** Which of two addresses comes first. */
  lemma {:induction false} LessIff(a: seq<Byte>, b: seq<Byte>)
    ensures Compare(a, b) == Less <==> ComesFirst(a, b)
    decreases |a|
  {
    if a != [] && b != [] && a[0] == b[0] {
      LessIff(a[1..], b[1..]);
      LaterDifference(a, b);
    } else if b != [] && (a == [] || a[0] < b[0]) {
      assert a[..0] == b[..0];
    } else if ComesFirst(a, b) {
      HeadFirst(a, b);
    }
  }

  lemma HeadFirst(a: seq<Byte>, b: seq<Byte>)
    requires ComesFirst(a, b)
    ensures b != [] && (a == [] || a[0] <= b[0])
  {
    var i :| 0 <= i <= |a| && i < |b| && a[..i] == b[..i] && (i == |a| || a[i] < b[i]);
    if i > 0 {
      assert a[..i][0] == b[..i][0];
    }
  }

  lemma LaterDifference(a: seq<Byte>, b: seq<Byte>)
    requires a != [] && b != [] && a[0] == b[0]
    ensures ComesFirst(a, b) <==> ComesFirst(a[1..], b[1..])
  {
    var x, y := a[1..], b[1..];
    if ComesFirst(a, b) {
      var i :| 0 <= i <= |a| && i < |b| && a[..i] == b[..i] && (i == |a| || a[i] < b[i]);
      assert i > 0;
      assert x[..i - 1] == a[..i][1..] && y[..i - 1] == b[..i][1..];
    }
    if ComesFirst(x, y) {
      var i :| 0 <= i <= |x| && i < |y| && x[..i] == y[..i] && (i == |x| || x[i] < y[i]);
      assert a[..i + 1] == [a[0]] + x[..i] && b[..i + 1] == [b[0]] + y[..i];
    }
  }

  /** More points first, then the earlier registration, then the smaller address. */
  predicate RanksAbove(a: RankKey, b: RankKey) {
    if a.points != b.points then a.points > b.points
    else if a.registeredAt != b.registeredAt then a.registeredAt < b.registeredAt
    else Compare(a.addr, b.addr) == Less
  }

  /** A strict total order on keys of different addresses. */
  lemma RankOrder(a: RankKey, b: RankKey, c: RankKey)
    ensures !RanksAbove(a, a)
    ensures RanksAbove(a, b) && RanksAbove(b, c) ==> RanksAbove(a, c)
    ensures a.addr != b.addr ==> (RanksAbove(a, b) <==> !RanksAbove(b, a))
  {
    CompareLaws(a.addr, a.addr);
    CompareLaws(a.addr, b.addr);
    CompareLaws(b.addr, a.addr);
    if Compare(a.addr, b.addr) == Less && Compare(b.addr, c.addr) == Less {
      CompareTransitive(a.addr, b.addr, c.addr);
    }
  }

  /** `rank_key`: a missing profile sorts last on time. */
  function Key(reg: map<Address, U64>, e: Entry): RankKey {
    RankKey(e.points, if e.user in reg then reg[e.user] else U64_MAX, e.user.xdr)
  }

  predicate Above(reg: map<Address, U64>, x: Entry, y: Entry) {
    RanksAbove(Key(reg, x), Key(reg, y))
  }

  ghost predicate Ranked(reg: map<Address, U64>, s: seq<Entry>) {
    forall i, j :: 0 <= i < j < |s| ==> Above(reg, s[i], s[j])
  }

  ghost predicate OneEach(s: seq<Entry>) {
    forall i, j :: 0 <= i < j < |s| ==> s[i].user != s[j].user
  }

  lemma AboveLaws(reg: map<Address, U64>, x: Entry, y: Entry, z: Entry)
    ensures !Above(reg, x, x)
    ensures Above(reg, x, y) && Above(reg, y, z) ==> Above(reg, x, z)
    ensures x.user != y.user ==> (Above(reg, x, y) <==> !Above(reg, y, x))
  {
    RankOrder(Key(reg, x), Key(reg, y), Key(reg, z));
  }

  // ---- inserting -----------------------------------------------------------------------------

  /** Before the first entry that `e` outranks, or at the end. */
  function Position(reg: map<Address, U64>, s: seq<Entry>, e: Entry): (p: nat)
    ensures p <= |s|
    ensures forall k :: 0 <= k < p ==> !Above(reg, e, s[k])
    ensures p < |s| ==> Above(reg, e, s[p])
  {
    if s == [] || Above(reg, e, s[0]) then 0 else 1 + Position(reg, s[1..], e)
  }

  lemma PositionUnique(reg: map<Address, U64>, s: seq<Entry>, e: Entry, p: nat)
    requires p <= |s| && (forall k :: 0 <= k < p ==> !Above(reg, e, s[k]))
    requires p < |s| ==> Above(reg, e, s[p])
    ensures p == Position(reg, s, e)
  {
  }

  function Place(reg: map<Address, U64>, s: seq<Entry>, e: Entry): seq<Entry> {
    var p := Position(reg, s, e);
    s[..p] + [e] + s[p..]
  }

  /** The board of a ranked list: its first hundred. */
  function Cut(s: seq<Entry>): seq<Entry> {
    s[..Min(LEADERBOARD_SIZE, |s|)]
  }

  /** Two entries of a list into which `e` was placed. */
  lemma PlacedPair(reg: map<Address, U64>, s: seq<Entry>, e: Entry, i: nat, j: nat)
    requires Ranked(reg, s) && forall k :: 0 <= k < |s| ==> s[k].user != e.user
    requires i < j <= |s|
    ensures Above(reg, Place(reg, s, e)[i], Place(reg, s, e)[j])
  {
    var p := Position(reg, s, e);
    if j == p {
      AboveLaws(reg, s[i], e, e);
    } else if i == p {
      AboveLaws(reg, e, s[p], s[j - 1]);
    }
  }

  /** Inserting a new user keeps the list ranked. */
  lemma PlaceKeeps(reg: map<Address, U64>, s: seq<Entry>, e: Entry)
    requires Ranked(reg, s) && forall k :: 0 <= k < |s| ==> s[k].user != e.user
    ensures Ranked(reg, Place(reg, s, e))
    ensures multiset(Place(reg, s, e)) == multiset(s) + multiset{e}
  {
    forall i, j | 0 <= i < j <= |s|
      ensures Above(reg, Place(reg, s, e)[i], Place(reg, s, e)[j])
    {
      PlacedPair(reg, s, e, i, j);
    }
    assert s == s[..Position(reg, s, e)] + s[Position(reg, s, e)..];
  }

  /** Whoever is not on the board cannot come back by an insertion: cutting first loses nothing. */
  lemma CutPlace(reg: map<Address, U64>, s: seq<Entry>, e: Entry)
    ensures Cut(Place(reg, Cut(s), e)) == Cut(Place(reg, s, e))
  {
    var n, p := LEADERBOARD_SIZE, Position(reg, s, e);
    if |s| <= n {
      assert Cut(s) == s;
    } else if p < n {
      PositionUnique(reg, Cut(s), e, p);
      CutInserted(s, e, p);
    } else {
      PositionUnique(reg, Cut(s), e, n);
      assert Cut(Place(reg, Cut(s), e)) == s[..n];
      assert Cut(Place(reg, s, e)) == s[..n];
    }
  }

  lemma CutInserted(s: seq<Entry>, e: Entry, p: nat)
    requires p < LEADERBOARD_SIZE < |s|
    ensures Cut(Cut(s)[..p] + [e] + Cut(s)[p..]) == Cut(s[..p] + [e] + s[p..])
  {
    assert Cut(s)[..p] == s[..p];
  }

  /** Users arriving one by one. */
  function Stream(reg: map<Address, U64>, arrivals: seq<Entry>): seq<Entry>
    decreases |arrivals|
  {
    if arrivals == [] then []
    else Cut(Place(reg, Stream(reg, arrivals[..|arrivals| - 1]), arrivals[|arrivals| - 1]))
  }

  function SortAll(reg: map<Address, U64>, arrivals: seq<Entry>): seq<Entry>
    decreases |arrivals|
  {
    if arrivals == [] then []
    else Place(reg, SortAll(reg, arrivals[..|arrivals| - 1]), arrivals[|arrivals| - 1])
  }

  lemma {:induction false} StreamIsCut(reg: map<Address, U64>, arrivals: seq<Entry>)
    requires OneEach(arrivals)
    ensures Ranked(reg, SortAll(reg, arrivals)) && multiset(SortAll(reg, arrivals)) == multiset(arrivals)
    ensures Stream(reg, arrivals) == Cut(SortAll(reg, arrivals))
    decreases |arrivals|
  {
    if arrivals != [] {
      var front, last := arrivals[..|arrivals| - 1], arrivals[|arrivals| - 1];
      StreamIsCut(reg, front);
      var s := SortAll(reg, front);
      assert arrivals == front + [last];
      NewHere(front, last, s);
      PlaceKeeps(reg, s, last);
      CutPlace(reg, s, last);
    }
  }

  lemma NewHere(front: seq<Entry>, last: Entry, s: seq<Entry>)
    requires OneEach(front + [last]) && multiset(s) == multiset(front)
    ensures forall k :: 0 <= k < |s| ==> s[k].user != last.user
  {
    var all := front + [last];
    forall k | 0 <= k < |s|
      ensures s[k].user != last.user
    {
      assert s[k] in multiset(s);
      var i :| 0 <= i < |front| && front[i] == s[k];
      assert all[i] == s[k] && all[|front|] == last;
    }
  }

  lemma SameBest(reg: map<Address, U64>, a: seq<Entry>, b: seq<Entry>)
    requires Ranked(reg, a) && Ranked(reg, b) && (forall e :: e in a <==> e in b) && a != [] && b != []
    ensures a[0] == b[0]
  {
    assert a[0] in b && b[0] in a;
    var i :| 0 <= i < |b| && b[i] == a[0];
    var j :| 0 <= j < |a| && a[j] == b[0];
    AboveLaws(reg, a[0], b[0], a[0]);
  }

  lemma RankedTail(reg: map<Address, U64>, a: seq<Entry>)
    requires Ranked(reg, a) && a != []
    ensures Ranked(reg, a[1..]) && forall e :: e in a[1..] <==> e in a && e != a[0]
  {
    AboveLaws(reg, a[0], a[0], a[0]);
    assert a == [a[0]] + a[1..];
    assert forall i :: 0 <= i < |a[1..]| ==> a[1..][i] == a[i + 1];
  }

  lemma SomeMember(s: seq<Entry>)
    ensures s == [] || exists e :: e in s
  {
    if s != [] {
      assert s[0] in s;
    }
  }

  /** There is only one ranked arrangement of given entries. */
  lemma {:induction false} RankedSame(reg: map<Address, U64>, a: seq<Entry>, b: seq<Entry>)
    requires Ranked(reg, a) && Ranked(reg, b) && forall e :: e in a <==> e in b
    ensures a == b
    decreases |a|
  {
    if a == [] {
      SomeMember(b);
    } else {
      assert a[0] in b;
      SameBest(reg, a, b);
      RankedTail(reg, a);
      RankedTail(reg, b);
      RankedSame(reg, a[1..], b[1..]);
      assert a == [a[0]] + a[1..] && b == [b[0]] + b[1..];
    }
  }

  lemma RankedUnique(reg: map<Address, U64>, a: seq<Entry>, b: seq<Entry>)
    requires Ranked(reg, a) && Ranked(reg, b) && multiset(a) == multiset(b)
    ensures a == b
  {
    forall e
      ensures e in a <==> e in b
    {
      assert e in a <==> e in multiset(a);
    }
    RankedSame(reg, a, b);
  }

  /** Streaming top-N: for any order of arrival, the board is the first hundred of the arrivals sorted. */
  lemma StreamingTopN(reg: map<Address, U64>, arrivals: seq<Entry>, sorted: seq<Entry>)
    requires OneEach(arrivals) && Ranked(reg, sorted) && multiset(sorted) == multiset(arrivals)
    ensures Stream(reg, arrivals) == Cut(sorted)
  {
    StreamIsCut(reg, arrivals);
    RankedUnique(reg, SortAll(reg, arrivals), sorted);
  }

  // ---- removing ------------------------------------------------------------------------------

  function Without(s: seq<Entry>, user: Address): seq<Entry>
    decreases |s|
  {
    if s == [] then []
    else Without(s[..|s| - 1], user) + if s[|s| - 1].user == user then [] else [s[|s| - 1]]
  }

  predicate Holds(s: seq<Entry>, user: Address) {
    exists e :: e in s && e.user == user
  }

  lemma {:induction false} WithoutSize(s: seq<Entry>, user: Address)
    requires OneEach(s)
    ensures |Without(s, user)| == |s| - if Holds(s, user) then 1 else 0
    ensures !Holds(s, user) ==> Without(s, user) == s
    decreases |s|
  {
    if s != [] {
      var front, last := s[..|s| - 1], s[|s| - 1];
      WithoutSize(front, user);
      assert s == front + [last];
      assert Holds(s, user) <==> Holds(front, user) || last.user == user;
      assert Holds(front, user) ==> last.user != user;
    }
  }

  lemma {:induction false} WithoutConcat(a: seq<Entry>, b: seq<Entry>, user: Address)
    ensures Without(a + b, user) == Without(a, user) + Without(b, user)
    decreases |b|
  {
    if b == [] {
      assert a + b == a;
    } else {
      assert (a + b)[..|a + b| - 1] == a + b[..|b| - 1];
      WithoutConcat(a, b[..|b| - 1], user);
    }
  }

  /** Removing a user leaves the board exact if and only if the user was not on it or nobody waits
      below it: the freed place is not refilled. */
  lemma {:induction false} RemovalExactIff(all: seq<Entry>, user: Address)
    requires OneEach(all)
    ensures Without(Cut(all), user) == Cut(Without(all, user))
            <==> |all| <= LEADERBOARD_SIZE || !Holds(Cut(all), user)
  {
    var board, rest := Cut(all), all[|Cut(all)|..];
    assert all == board + rest;
    WithoutConcat(board, rest, user);
    WithoutSize(all, user);
    WithoutSize(board, user);
    if rest == [] {
      assert Without(rest, user) == [];
    }
  }

  // ---- ranked lists ---------------------------------------------------------------------------

  /** Exactly the entries before it rank above an entry. */
  lemma RankCounts(reg: map<Address, U64>, all: seq<Entry>, i: nat)
    requires Ranked(reg, all) && OneEach(all) && i < |all|
    ensures i == |set e | e in all && Above(reg, e, all[i])|
  {
    var before := all[..i];
    forall k | 0 <= k < |all|
      ensures Above(reg, all[k], all[i]) <==> k < i
    {
      AboveLaws(reg, all[k], all[i], all[k]);
    }
    assert (set e | e in all && Above(reg, e, all[i])) == Members(before);
    DistinctSize(before);
  }

  /** Who does not outrank the last of a ranked board outranks nobody on it. */
  lemma {:induction false} NotAboveLast(reg: map<Address, U64>, s: seq<Entry>, e: Entry)
    requires Ranked(reg, s) && s != [] && !Above(reg, e, s[|s| - 1])
    ensures Position(reg, s, e) == |s|
  {
    var p := Position(reg, s, e);
    if p < |s| {
      AboveLaws(reg, e, s[p], s[|s| - 1]);
    }
  }

  /** The registration times of the users on `s` are the same. */
  ghost predicate Agree(reg: map<Address, U64>, other: map<Address, U64>, s: seq<Entry>) {
    forall e :: e in s ==> (e.user in reg <==> e.user in other) && (e.user in reg ==> reg[e.user] == other[e.user])
  }

  lemma RankedAgree(reg: map<Address, U64>, other: map<Address, U64>, s: seq<Entry>)
    requires Ranked(reg, s) && Agree(reg, other, s)
    ensures Ranked(other, s)
  {
    forall i, j | 0 <= i < j < |s|
      ensures Above(other, s[i], s[j])
    {
      assert Above(reg, s[i], s[j]) && s[i] in s && s[j] in s;
    }
  }

  lemma InsertedLists(s: seq<Entry>, e: Entry, p: nat)
    requires p <= |s| && OneEach(s) && forall k :: 0 <= k < |s| ==> s[k].user != e.user
    ensures OneEach(s[..p] + [e] + s[p..])
    ensures forall x :: x in s[..p] + [e] + s[p..] <==> x in s || x == e
  {
    var t := s[..p] + [e] + s[p..];
    assert t[p] == e;
    assert forall k :: 0 <= k < p ==> t[k] == s[k];
    assert forall k :: p <= k < |s| ==> t[k + 1] == s[k];
  }

  lemma PlaceLists(reg: map<Address, U64>, s: seq<Entry>, e: Entry)
    requires OneEach(s) && forall k :: 0 <= k < |s| ==> s[k].user != e.user
    ensures OneEach(Place(reg, s, e))
    ensures forall x :: x in Place(reg, s, e) <==> x in s || x == e
  {
    InsertedLists(s, e, Position(reg, s, e));
  }

  /** A prefix of a ranked list with one entry a user is one too. */
  lemma CutKeeps(reg: map<Address, U64>, s: seq<Entry>)
    ensures Ranked(reg, s) ==> Ranked(reg, Cut(s))
    ensures OneEach(s) ==> OneEach(Cut(s))
    ensures forall e :: e in Cut(s) ==> e in s
  {
  }

  lemma LastAfter(reg: map<Address, U64>, s: seq<Entry>, last: Entry, w: seq<Entry>)
    requires Ranked(reg, s + [last]) && OneEach(s + [last]) && (forall e :: e in w ==> e in s)
    requires Ranked(reg, w) && OneEach(w)
    ensures Ranked(reg, w + [last]) && OneEach(w + [last])
  {
    var t := s + [last];
    forall k | 0 <= k < |w|
      ensures Above(reg, w[k], last) && w[k].user != last.user
    {
      assert w[k] in s;
      var i :| 0 <= i < |s| && s[i] == w[k];
      assert t[i] == w[k] && t[|s|] == last;
    }
  }

  lemma {:induction false} WithoutKeepsRank(reg: map<Address, U64>, s: seq<Entry>, user: Address)
    requires Ranked(reg, s) && OneEach(s)
    ensures Ranked(reg, Without(s, user)) && OneEach(Without(s, user))
    ensures forall e :: e in Without(s, user) <==> e in s && e.user != user
    ensures |Without(s, user)| <= |s|
    decreases |s|
  {
    if s != [] {
      var front, last := s[..|s| - 1], s[|s| - 1];
      assert s == front + [last];
      WithoutKeepsRank(reg, front, user);
      LastAfter(reg, front, last, Without(front, user));
      assert Without(front, user) + [] == Without(front, user);
    }
  }
}
