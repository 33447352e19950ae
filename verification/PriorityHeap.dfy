/**
 The heap of queue entries: a slice of node objects that know their own position,
 kept in heap order by the sift-up, sift-down, Fix, Push and Pop of Go's container/heap.
 */
module PriorityHeap {
  import opened QueueSpec
  import opened HeapOrder

  class Node<T> {
    const value: T
    const seqno: nat
    var priority: int
    var index: int

    constructor (value: T, priority: int, seqno: nat)
      ensures this.value == value && this.priority == priority && this.seqno == seqno
    {
      this.value, this.priority, this.seqno, this.index := value, priority, seqno, 0;
    }

    function Key(): Rank
      reads this`priority
    {
      Rank(priority, seqno)
    }
  }

  class Heap<T> {
    var nodes: seq<Node<T>>

    /** The nodes in the heap, with their ranks. */
    ghost var rank: map<Node<T>, Rank>

    /** Their ranks in position order. */
    ghost var keys: seq<Rank>

    constructor ()
      ensures Ok() && rank == map[]
    {
      nodes, rank, keys := [], map[], [];
    }

    /** Every node sits where its own index says, so no node occurs twice. */
    ghost predicate Indexed()
      reads this, rank.Keys
    {
      && |keys| == |nodes|
      && (forall k {:trigger nodes[k]} :: 0 <= k < |nodes| ==>
            nodes[k] in rank && nodes[k].index == k && keys[k] == rank[nodes[k]])
      && (forall n {:trigger n.index} :: n in rank ==>
            0 <= n.index < |nodes| && nodes[n.index] == n && rank[n] == n.Key())
    }

    ghost predicate Ok()
      reads this, rank.Keys
    {
      Indexed() && Ordered(keys, |keys|, -1, -1)
    }

    predicate RanksBefore(i: nat, j: nat): (before: bool)
      requires Indexed() && i < |nodes| && j < |nodes|
      reads this, rank.Keys
      ensures before == Less(keys[i], keys[j])
      ensures nodes[i].priority > nodes[j].priority ==> before
      ensures nodes[i].priority < nodes[j].priority ==> !before
    {
      var a, b := nodes[i], nodes[j];
      if a.priority == b.priority then a.seqno < b.seqno else a.priority > b.priority
    }

    function FirstChild(i: nat, n: nat): (j: nat)
      requires Indexed() && 2 * i + 1 < n <= |nodes|
      reads this, rank.Keys
      ensures i < j < n && Parent(j) == i && NoChildBefore(keys, n, i, keys[j])
    {
      var left := 2 * i + 1;
      if left + 1 < n && RanksBefore(left + 1, left) then left + 1 else left
    }

    method Swap(i: nat, j: nat)
      requires i < |nodes| && j < |nodes| && Indexed()
      modifies this`nodes, this`keys, rank.Keys`index
      ensures nodes == Swapped(old(nodes), i, j) && keys == Swapped(old(keys), i, j)
      ensures Indexed()
    {
      nodes, keys := nodes[i := nodes[j]][j := nodes[i]], Swapped(keys, i, j);
      nodes[i].index := i;
      nodes[j].index := j;
    }

    method Up(start: nat)
      requires start < |nodes| && Indexed()
      requires Ordered(keys, |keys|, start, -1) && Bridged(keys, |keys|, start)
      modifies this`nodes, this`keys, rank.Keys`index
      ensures Ok() && |nodes| == old(|nodes|)
    {
      var j := start;
      while true
        invariant 0 <= j < |nodes| == old(|nodes|) && Indexed()
        invariant Ordered(keys, |keys|, j, -1) && Bridged(keys, |keys|, j)
        decreases j
      {
        var i := Parent(j);
        if i == j || !RanksBefore(j, i) {
          break;
        }
        SiftUpStep(keys, j);
        Swap(i, j);
        j := i;
      }
    }

    /** One turn of sift-down: `i` changes places with its first child when that ranks before it. */
    method Sink(i: nat, n: nat, ghost up: int) returns (j: nat)
      requires i < |nodes| && i <= n <= |nodes| && Indexed() && (up == i || up == -1)
      requires Ordered(keys, n, up, i) && Bridged(keys, n, i)
      modifies this`nodes, this`keys, rank.Keys`index
      ensures |nodes| == old(|nodes|) && Indexed() && nodes[n..] == old(nodes[n..])
      ensures j == i ==> nodes == old(nodes) && keys == old(keys) && Ordered(keys, n, up, -1)
      ensures j != i ==> i < j < n && Ordered(keys, n, -1, j) && Bridged(keys, n, j)
    {
      j := i;
      if 2 * i + 1 < n {
        var child := FirstChild(i, n);
        if RanksBefore(child, i) {
          SiftDownStep(keys, n, i, child, up);
          Swap(i, child);
          return child;
        }
      }
      SiftDownStop(keys, n, i, up);
    }

    method Down(start: nat, n: nat) returns (moved: bool)
      requires start < |nodes| && start <= n <= |nodes| && Indexed()
      requires Ordered(keys, n, start, start) && Bridged(keys, n, start)
      modifies this`nodes, this`keys, rank.Keys`index
      ensures |nodes| == old(|nodes|) && Indexed()
      ensures nodes[n..] == old(nodes[n..])
      ensures moved ==> Ordered(keys, n, -1, -1)
      ensures !moved ==> nodes == old(nodes) && keys == old(keys) && Ordered(keys, n, start, -1)
    {
      var i := start;
      while true
        invariant start <= i <= n && i < |nodes| && n <= |nodes| == old(|nodes|) && Indexed()
        invariant nodes[n..] == old(nodes[n..])
        invariant i == start ==> nodes == old(nodes) && keys == old(keys)
        invariant Ordered(keys, n, if i == start then start else -1, i) && Bridged(keys, n, i)
        decreases n - i
      {
        var j := Sink(i, n, if i == start then start else -1);
        if j == i {
          break;
        }
        i := j;
      }
      moved := i > start;
    }

    method Fix(i: nat)
      requires i < |nodes| && Indexed()
      requires Ordered(keys, |keys|, i, i) && Bridged(keys, |keys|, i)
      modifies this`nodes, this`keys, rank.Keys`index
      ensures Ok() && |nodes| == old(|nodes|)
    {
      var moved := Down(i, |nodes|);
      if !moved {
        Up(i);
      }
    }

    method Push(entry: Node<T>)
      requires Ok() && entry !in rank
      modifies this, rank.Keys`index, entry`index
      ensures Ok() && |nodes| == old(|nodes|) + 1 && rank == old(rank)[entry := entry.Key()]
    {
      entry.index := |nodes|;
      nodes, keys, rank := nodes + [entry], keys + [entry.Key()], rank[entry := entry.Key()];
      Up(|nodes| - 1);
    }

    method Pop() returns (entry: Node<T>)
      requires Ok() && |nodes| > 0
      modifies this, rank.Keys`index
      ensures Ok() && |nodes| == old(|nodes|) - 1 && rank == old(rank) - {entry}
      ensures entry in old(rank) && entry.index == -1
      ensures forall n :: n in old(rank) ==> !Less(old(rank)[n], old(rank)[entry])
    {
      var n := |nodes| - 1;
      RootIsLeast();
      RootSwappedOut(keys, n);
      Swap(0, n);
      var moved := Down(0, n);
      PrefixOrdered(keys, n, if moved then -1 else 0);
      assert nodes[n] == nodes[n..][0];
      entry := nodes[n];
      entry.index := -1;
      nodes, keys, rank := nodes[..n], keys[..n], rank - {entry};
    }

    lemma KeyIsRank()
      requires Ok()
      ensures forall n :: n in rank ==> rank[n] == n.Key()
    {
      forall n | n in rank ensures rank[n] == n.Key() {
        assert nodes[n.index] == n;
      }
    }

    lemma RootIsLeast()
      requires Ok() && |nodes| > 0
      ensures forall n :: n in rank ==> !Less(rank[n], rank[nodes[0]])
    {
      forall n | n in rank ensures !Less(rank[n], rank[nodes[0]]) {
        RootIsFirst(keys, n.index);
      }
    }

    /** Lifts an entry and restores the heap with Fix at the entry's own index. */
    method Raise(entry: Node<T>, priority: int)
      requires Ok() && entry in rank
      modifies this, rank.Keys`index, entry`priority
      ensures Ok() && rank == old(rank)[entry := Rank(priority, entry.seqno)]
    {
      RankChanged(keys, entry.index, Rank(priority, entry.seqno));
      entry.priority := priority;
      keys, rank := keys[entry.index := entry.Key()], rank[entry := entry.Key()];
      Fix(entry.index);
    }
  }
}
