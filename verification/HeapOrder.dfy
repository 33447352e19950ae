/** Heap order on a sequence of ranks, and what one sift step does to it. */
module HeapOrder {
  import opened QueueSpec

  /** Go truncates (0 - 1) / 2 to 0, so the root is its own parent. */
  function Parent(k: nat): nat {
    if k == 0 then 0 else (k - 1) / 2
  }

  /** The first n ranks are heap-ordered, except perhaps `up` with its parent and `down` with its children. */
  ghost predicate Ordered(r: seq<Rank>, n: nat, up: int, down: int)
    requires n <= |r|
  {
    forall k {:trigger Parent(k)} :: 0 < k < n && k != up && Parent(k) != down ==> !Less(r[k], r[Parent(k)])
  }

  /** The children of `at` do not rank before the parent of `at`. */
  ghost predicate Bridged(r: seq<Rank>, n: nat, at: nat)
    requires n <= |r|
  {
    forall k {:trigger Parent(k)} :: 0 < k < n && Parent(k) == at && at > 0 ==> !Less(r[k], r[Parent(at)])
  }

  ghost function Swapped<A>(s: seq<A>, i: nat, j: nat): (t: seq<A>)
    requires i < |s| && j < |s|
    ensures |t| == |s|
  {
    s[i := s[j]][j := s[i]]
  }

  lemma SiftUpStep(r: seq<Rank>, j: nat)
    requires 0 < j < |r| && Ordered(r, |r|, j, -1) && Bridged(r, |r|, j)
    requires Less(r[j], r[Parent(j)])
    ensures Ordered(Swapped(r, Parent(j), j), |r|, Parent(j), -1)
    ensures Bridged(Swapped(r, Parent(j), j), |r|, Parent(j))
  {
  }

  /** Neither child of `i` ranks before `rank`. */
  ghost predicate NoChildBefore(r: seq<Rank>, n: nat, i: nat, rank: Rank)
    requires n <= |r|
  {
    && (2 * i + 1 < n ==> !Less(r[2 * i + 1], rank))
    && (2 * i + 2 < n ==> !Less(r[2 * i + 2], rank))
  }

  lemma ChildrenOf(i: nat, k: nat)
    requires k > 0
    ensures Parent(k) == i <==> k == 2 * i + 1 || k == 2 * i + 2
  {
  }

  /** Sift-down swaps `i` with its first child; `up` is i or nothing. */
  lemma SiftDownStep(r: seq<Rank>, n: nat, i: nat, j: nat, up: int)
    requires i < j < n <= |r| && Parent(j) == i && (up == i || up == -1)
    requires Ordered(r, n, up, i) && Bridged(r, n, i)
    requires Less(r[j], r[i]) && NoChildBefore(r, n, i, r[j])
    ensures Ordered(Swapped(r, i, j), n, -1, j)
    ensures Bridged(Swapped(r, i, j), n, j)
  {
    var t := Swapped(r, i, j);
    forall k | 0 < k < n && Parent(k) != j ensures !Less(t[k], t[Parent(k)]) {
      ChildrenOf(i, k);
      assert Parent(k) == i || k == i || t[k] == r[k];
    }
    forall k | 0 < k < n && Parent(k) == j ensures !Less(t[k], t[i]) {
      assert k > j && t[k] == r[k] && t[i] == r[j];
    }
  }

  /** Sift-down stops at `i`. */
  lemma SiftDownStop(r: seq<Rank>, n: nat, i: nat, up: int)
    requires i < |r| && n <= |r| && Ordered(r, n, up, i) && NoChildBefore(r, n, i, r[i])
    ensures Ordered(r, n, up, -1)
  {
    forall k | 0 < k < n && k != up && Parent(k) == i ensures !Less(r[k], r[i]) {
      ChildrenOf(i, k);
    }
  }

  /** Pop swaps the root out to the end, which disturbs only the root's children. */
  lemma RootSwappedOut(r: seq<Rank>, n: nat)
    requires |r| == n + 1 && Ordered(r, |r|, -1, -1)
    ensures Ordered(Swapped(r, 0, n), n, 0, 0) && Bridged(Swapped(r, 0, n), n, 0)
  {
  }

  lemma PrefixOrdered(r: seq<Rank>, n: nat, up: int)
    requires n <= |r| && Ordered(r, n, up, -1) && (up == 0 || up == -1)
    ensures Ordered(r[..n], n, -1, -1)
  {
  }

  /** Changing one rank disturbs the order only around it. */
  lemma RankChanged(r: seq<Rank>, i: nat, rank: Rank)
    requires i < |r| && Ordered(r, |r|, -1, -1)
    ensures Ordered(r[i := rank], |r|, i, i) && Bridged(r[i := rank], |r|, i)
  {
    forall k | 0 < k < |r| && Parent(k) == i && i > 0 ensures !Less(r[i := rank][k], r[i := rank][Parent(i)]) {
      assert !Less(r[k], r[i]) && !Less(r[i], r[Parent(i)]);
    }
  }

  /** In a heap nothing ranks before the root. */
  lemma {:induction false} RootIsFirst(r: seq<Rank>, k: nat)
    requires k < |r| && Ordered(r, |r|, -1, -1)
    ensures !Less(r[k], r[0])
  {
    if k > 0 {
      RootIsFirst(r, Parent(k));
    }
  }
}
