/** Vocabulary shared by every module: fixed-width integers, host context and finite sums. */
module Common {
  const I128_MAX: int := 0x7FFF_FFFF_FFFF_FFFF_FFFF_FFFF_FFFF_FFFF
  const U64_MAX: int := 0xFFFF_FFFF_FFFF_FFFF
  const U32_MAX: int := 0xFFFF_FFFF

  type I128 = x: int | -I128_MAX - 1 <= x <= I128_MAX
  type U64 = x: int | 0 <= x <= U64_MAX
  type U32 = x: int | 0 <= x <= U32_MAX
  type Byte = x: int | 0 <= x < 256

  /** An account or contract address, identified by its XDR bytes. */
  datatype Address = Address(xdr: seq<Byte>)

  datatype Option<+T> = None | Some(value: T)

  /** Outcome of an entry point. The host discards every write of an invocation that ends in `Err`. */
  datatype Result<+T, +E> = Ok(value: T) | Err(error: E) {
    predicate IsFailure() {
      Err?
    }

    function PropagateFailure<U>(): Result<U, E>
      requires Err?
    {
      Err(error)
    }

    function Extract(): T
      requires Ok?
    {
      value
    }
  }

  /** What the host supplies to one invocation: who signed it and the current ledger. */
  datatype Context = Context(auth: set<Address>, sequence: U32, now: U64)

  function Min(a: int, b: int): int {
    if a <= b then a else b
  }

  /** `a.saturating_add(b)` on `u64`. */
  function SatAdd64(a: int, b: int): int {
    Min(a + b, U64_MAX)
  }

  /** `a.saturating_mul(b)` on `u64`. */
  function SatMul64(a: int, b: int): int {
    Min(a * b, U64_MAX)
  }

  /** `a.saturating_sub(b)` on unsigned integers. */
  function SatSub(a: int, b: int): int {
    if a < b then 0 else a - b
  }

  // ---- finite sums -------------------------------------------------------

  /** Sum of all values of a finite map. */
  ghost function Total<K(!new)>(m: map<K, int>): int {
    if m == map[] then 0 else
      var k :| k in m;
      m[k] + Total(m - {k})
  }

  /** The sum does not depend on the order in which keys are taken out. */
  lemma {:induction false} TotalPick<K(!new)>(m: map<K, int>, k: K)
    requires k in m
    ensures Total(m) == m[k] + Total(m - {k})
    decreases |m|
  {
    var j :| j in m && Total(m) == m[j] + Total(m - {j});
    if j != k {
      TotalPick(m - {j}, k);
      TotalPick(m - {k}, j);
      assert (m - {j}) - {k} == (m - {k}) - {j};
    }
  }

  lemma TotalUpdate<K(!new)>(m: map<K, int>, k: K, v: int)
    ensures Total(m[k := v]) == Total(m) - (if k in m then m[k] else 0) + v
  {
    TotalPick(m[k := v], k);
    assert m[k := v] - {k} == m - {k};
    if k in m {
      TotalPick(m, k);
    } else {
      assert m - {k} == m;
    }
  }

  lemma {:induction false} TotalNonnegative<K(!new)>(m: map<K, int>)
    requires forall k :: k in m ==> m[k] >= 0
    ensures Total(m) >= 0
    decreases |m|
  {
    if m != map[] {
      var k :| k in m && Total(m) == m[k] + Total(m - {k});
      TotalNonnegative(m - {k});
    }
  }

  /** With no negative entry, one entry, or two different ones, never exceed the sum. */
  lemma TotalBounds<K(!new)>(m: map<K, int>, a: K)
    requires forall k :: k in m ==> m[k] >= 0
    requires a in m
    ensures m[a] <= Total(m)
    ensures forall b :: b in m && b != a ==> m[a] + m[b] <= Total(m)
  {
    TotalPick(m, a);
    TotalNonnegative(m - {a});
    forall b | b in m && b != a
      ensures m[a] + m[b] <= Total(m)
    {
      TotalPick(m - {a}, b);
      TotalNonnegative(m - {a} - {b});
    }
  }

  // ---- finite sets -------------------------------------------------------

  lemma {:induction false} SubsetSize<T>(a: set<T>, b: set<T>)
    requires a <= b
    ensures |a| <= |b|
    decreases |a|
  {
    if a != {} {
      var x :| x in a;
      SubsetSize(a - {x}, b - {x});
    }
  }

  lemma UnionSize<T>(a: set<T>, b: set<T>)
    ensures |a + b| <= |a| + |b|
  {
    assert |a + b| == |a| + |b - a|;
    SubsetSize(b - a, b);
  }

  /** A map that sends different members of `dom` to different values has no more members than its range. */
  lemma {:induction false} InjectionSize<A, B>(dom: set<A>, image: map<A, B>, ran: set<B>)
    requires forall a :: a in dom ==> a in image && image[a] in ran
    requires forall a, b :: a in dom && b in dom && a != b ==> image[a] != image[b]
    ensures |dom| <= |ran|
    decreases |dom|
  {
    if dom != {} {
      var a :| a in dom;
      InjectionSize(dom - {a}, image, ran - {image[a]});
    }
  }

  ghost function Members<T>(s: seq<T>): set<T> {
    set x | x in s
  }

  /** A sequence without repetition is as long as its set of members is large. */
  lemma {:induction false} DistinctSize<T>(s: seq<T>)
    requires forall i, j :: 0 <= i < j < |s| ==> s[i] != s[j]
    ensures |Members(s)| == |s|
    decreases |s|
  {
    if s != [] {
      var front := s[..|s| - 1];
      DistinctSize(front);
      assert s == front + [s[|s| - 1]];
      assert Members(s) == Members(front) + {s[|s| - 1]};
    }
  }
}
