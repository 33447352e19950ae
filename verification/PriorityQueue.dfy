/** The priority work queue: the heap beside the maps that de-duplicate items. */
module PriorityQueue {
  import opened Common
  import opened QueueSpec
  import opened PriorityHeap

  class Queue<T(==)> {
    const heap: Heap<T>
    var dirty: set<T>
    var processing: set<T>
    var pending: map<T, Node<T>>
    var priorities: map<T, int>
    var shuttingDown: bool
    var drain: bool
    var seqno: nat

    /** The rank of every queued item. */
    ghost var queued: map<T, Rank>

    constructor ()
      ensures Valid() && Abs() == Init() && fresh(heap)
    {
      heap := new Heap();
      dirty, processing, pending, priorities := {}, {}, map[], map[];
      shuttingDown, drain, seqno, queued := false, false, 0, map[];
    }

    /** `pending` is exactly the nodes in the heap, one per item; `queued` gives their ranks. */
    static ghost predicate Link(rank: map<Node<T>, Rank>, pending: map<T, Node<T>>, queued: map<T, Rank>) {
      && queued.Keys == pending.Keys
      && (forall n :: n in rank ==> n.value in pending && pending[n.value] == n && rank[n].seqno == n.seqno)
      && (forall v :: v in pending ==> pending[v] in rank && pending[v].value == v && queued[v] == rank[pending[v]])
    }

    static lemma LinkMore(rank: map<Node<T>, Rank>, pending: map<T, Node<T>>, queued: map<T, Rank>,
                          entry: Node<T>, key: Rank)
      requires Link(rank, pending, queued) && entry !in rank && key.seqno == entry.seqno
      ensures Link(rank[entry := key], pending[entry.value := entry], queued[entry.value := key])
         <==> entry.value !in pending
    {
      if entry.value in pending {
        assert pending[entry.value] in rank[entry := key];
      }
    }

    static lemma LinkLess(rank: map<Node<T>, Rank>, pending: map<T, Node<T>>, queued: map<T, Rank>, entry: Node<T>)
      requires Link(rank, pending, queued) && entry in rank
      ensures Link(rank - {entry}, pending - {entry.value}, queued - {entry.value})
    {
    }

    /** When ranks are distinct, the least node holds the best item. */
    static lemma LeastIsBest(rank: map<Node<T>, Rank>, pending: map<T, Node<T>>, queued: map<T, Rank>, entry: Node<T>)
      requires Link(rank, pending, queued) && entry in rank
      requires forall n :: n in rank ==> !Less(rank[n], rank[entry])
      requires forall x, y :: x in queued && y in queued && x != y ==> queued[x].seqno != queued[y].seqno
      ensures IsBest(queued, entry.value)
    {
      forall v | v in queued && v != entry.value ensures Less(queued[entry.value], queued[v]) {
        assert pending[entry.value] == entry && pending[v] in rank;
      }
    }

    static lemma LinkChanged(rank: map<Node<T>, Rank>, pending: map<T, Node<T>>, queued: map<T, Rank>,
                             entry: Node<T>, key: Rank)
      requires Link(rank, pending, queued) && entry in rank && key.seqno == entry.seqno
      ensures Link(rank[entry := key], pending, queued[entry.value := key])
    {
    }

    ghost predicate Linked()
      reads this, heap
    {
      Link(heap.rank, pending, queued)
    }

    ghost function Abs(): State<T>
      reads this
    {
      State(queued, dirty, processing, priorities, shuttingDown, drain, seqno)
    }

    ghost predicate Valid()
      reads this, heap, heap.rank.Keys
    {
      heap.Ok() && Linked() && Consistent(Abs())
    }

    /** Sets a queued entry's priority and restores the heap around it. */
    method RaisePending(item: T, priority: int)
      requires heap.Ok() && Linked() && item in pending
      modifies this`queued, heap, heap.rank.Keys`index, heap.rank.Keys`priority
      ensures heap.Ok() && Linked() && heap.rank.Keys == old(heap.rank.Keys)
      ensures Abs() == old(Abs()).(queued := old(queued)[item := Rank(priority, old(queued)[item].seqno)])
    {
      var entry := pending[item];
      LinkChanged(heap.rank, pending, queued, entry, Rank(priority, entry.seqno));
      heap.Raise(entry, priority);
      queued := queued[item := Rank(priority, entry.seqno)];
    }

    method EnsurePriority(item: T, requested: int)
      requires Valid()
      modifies this`priorities, this`queued, heap, heap.rank.Keys`index, heap.rank.Keys`priority
      ensures Abs() == QueueSpec.EnsurePriority(old(Abs()), item, requested)
      ensures Valid()
    {
      EnsurePriorityKeeps(Abs(), item, requested);
      var priority := if requested < 0 then 0 else requested;
      if item !in priorities || priorities[item] < priority {
        priorities := priorities[item := priority];
        heap.KeyIsRank();
        if item in pending && priority > pending[item].priority {
          RaisePending(item, priority);
        }
      }
    }

    method ClearPriority(item: T)
      requires Valid()
      modifies this`priorities
      ensures Abs() == QueueSpec.ClearPriority(old(Abs()), item)
      ensures Valid()
    {
      priorities := priorities - {item};
    }

    function PriorityOf(item: T): int
      reads this`priorities
    {
      if item in priorities then priorities[item] else 0
    }

    /** A repeated Add may lift the queued entry to the recorded priority. */
    method RaiseToRecorded(item: T)
      requires Valid()
      modifies this`queued, heap, heap.rank.Keys`index, heap.rank.Keys`priority
      ensures Abs() == Raise(old(Abs()), item, PriorityOf(item))
      ensures Valid() && heap.rank.Keys == old(heap.rank.Keys)
    {
      RaiseKeeps(Abs(), item, PriorityOf(item));
      heap.KeyIsRank();
      if item in pending && PriorityOf(item) > pending[item].priority {
        RaisePending(item, PriorityOf(item));
      }
    }

    /** Puts a node into the heap and into `pending`. */
    method PushPending(entry: Node<T>, key: Rank)
      requires heap.Ok() && Linked() && entry !in heap.rank && entry.Key() == key
      modifies this`pending, this`queued, heap, heap.rank.Keys`index, entry`index
      ensures heap.Ok() && heap.rank.Keys == old(heap.rank.Keys) + {entry}
      ensures queued == old(queued)[entry.value := key]
      ensures Linked() <==> entry.value !in old(pending)
    {
      LinkMore(heap.rank, pending, queued, entry, key);
      heap.Push(entry);
      pending, queued := pending[entry.value := entry], queued[entry.value := key];
    }

    /** What Add and Done do to queue an item: a fresh node under the next sequence number. */
    method Enqueue(item: T)
      requires heap.Ok() && Linked()
      modifies this`pending, this`seqno, this`queued, heap, heap.rank.Keys`index
      ensures heap.Ok() && fresh(heap.rank.Keys - old(heap.rank.Keys))
      ensures Abs() == QueueSpec.Enqueue(old(Abs()), item)
      ensures Linked() <==> item !in old(pending)
    {
      assert PriorityOf(item) == QueueSpec.PriorityOf(Abs(), item);
      var key := Rank(PriorityOf(item), seqno + 1);
      seqno := key.seqno;
      var entry := new Node(item, key.priority, key.seqno);
      PushPending(entry, key);
    }

    /** A first Add: the item becomes dirty, and is queued unless it is being processed. */
    method AddFirst(item: T)
      requires Valid() && !shuttingDown && item !in dirty
      modifies this`dirty, this`pending, this`seqno, this`queued, heap, heap.rank.Keys`index
      ensures heap.Ok() && Linked() && fresh(heap.rank.Keys - old(heap.rank.Keys))
      ensures Abs() == QueueSpec.Add(old(Abs()), item)
    {
      dirty := dirty + {item};
      if item !in processing {
        Enqueue(item);
      }
    }

    method Add(item: T)
      requires Valid()
      modifies this`dirty, this`pending, this`seqno, this`queued, heap, heap.rank.Keys`index, heap.rank.Keys`priority
      ensures Abs() == QueueSpec.Add(old(Abs()), item)
      ensures Valid() && fresh(heap.rank.Keys - old(heap.rank.Keys))
    {
      AddKeeps(Abs(), item);
      if shuttingDown {
        return;
      }
      if item in dirty {
        RaiseToRecorded(item);
        return;
      }
      AddFirst(item);
    }

    /** The least node leaves the heap and `pending`. */
    method Take() returns (item: T)
      requires Valid() && |heap.nodes| > 0
      modifies this`pending, this`queued, heap, heap.rank.Keys`index
      ensures IsBest(old(queued), item) && Abs() == old(Abs()).(queued := old(queued) - {item})
      ensures heap.Ok() && Linked()
    {
      var entry := heap.Pop();
      item := entry.value;
      LeastIsBest(old(heap.rank), pending, queued, entry);
      LinkLess(old(heap.rank), pending, queued, entry);
      pending, queued := pending - {item}, queued - {item};
    }

    /** The hand-out proper: the best item leaves the queue and `dirty` for `processing`. */
    method HandOutBest() returns (item: T)
      requires Valid() && |heap.nodes| > 0
      modifies this`dirty, this`processing, this`pending, this`queued, heap, heap.rank.Keys`index
      ensures IsBest(old(queued), item) && Abs() == HandOut(old(Abs()), item)
      ensures Valid()
    {
      item := Take();
      HandOutKeeps(old(Abs()), item);
      dirty, processing := dirty - {item}, processing + {item};
    }

    /**
     One hand-out attempt. The source waits while the queue is empty and not shutting
     down, so a Get that returns runs from a state where that does not hold.
     */
    method Get() returns (item: Option<T>)
      requires Valid() && (|heap.nodes| > 0 || shuttingDown)
      modifies this`dirty, this`processing, this`pending, this`queued, heap, heap.rank.Keys`index
      ensures item == None <==> old(queued) == map[]
      ensures item == None ==> Abs() == old(Abs()) && shuttingDown
      ensures item.Some? ==> IsBest(old(queued), item.value) && Abs() == HandOut(old(Abs()), item.value)
      ensures item.Some? ==> forall y :: y in old(queued) && y != item.value ==>
                var a, b := old(queued)[item.value], old(queued)[y];
                a.priority > b.priority || (a.priority == b.priority && a.seqno < b.seqno)
      ensures Valid()
    {
      EmptyHeap();
      if |heap.nodes| == 0 {
        return None;
      }
      var value := HandOutBest();
      item := Some(value);
    }

    /**
     Returns an item. Called on an item that is queued (so not one handed out by
     Get and not yet returned) it queues a second node for it, and the invariant is lost.
     */
    method Done(item: T)
      requires Valid()
      modifies this`processing, this`pending, this`seqno, this`queued, heap, heap.rank.Keys`index
      ensures item !in old(pending) ==> Abs() == QueueSpec.Done(old(Abs()), item)
      ensures Valid() <==> item !in old(pending)
    {
      if item !in pending {
        DoneKeeps(Abs(), item);
      }
      processing := processing - {item};
      if item in dirty {
        Enqueue(item);
      }
    }

    method ShutDown()
      requires Valid()
      modifies this`shuttingDown
      ensures Abs() == old(Abs()).(shuttingDown := true)
      ensures Valid()
    {
      shuttingDown := true;
    }

    /** ShutDownWithDrain up to its wait; it returns once the queue and `processing` are both empty. */
    method BeginDrain() returns (finished: bool)
      requires Valid()
      modifies this`shuttingDown, this`drain
      ensures Abs() == old(Abs()).(shuttingDown := true, draining := true)
      ensures Valid()
      ensures finished <==> queued == map[] && processing == {}
      ensures finished ==> dirty == {}
    {
      shuttingDown := true;
      drain := true;
      finished := processing == {} && |heap.nodes| == 0;
      EmptyHeap();
    }

    lemma EmptyHeap()
      requires heap.Ok() && Linked()
      ensures |heap.nodes| == 0 <==> queued == map[]
    {
      if |heap.nodes| > 0 {
        assert heap.nodes[0].value in queued;
      }
      if queued != map[] {
        var v :| v in queued;
        assert heap.nodes[pending[v].index] == pending[v];
      }
    }

    static lemma {:induction false} DistinctCount(values: seq<T>)
      requires forall i, j :: 0 <= i < j < |values| ==> values[i] != values[j]
      ensures |set v | v in values| == |values|
    {
      if values != [] {
        var rest := values[1..];
        DistinctCount(rest);
        assert (set v | v in values) == (set v | v in rest) + {values[0]};
      }
    }

    /** The length of the heap is the number of queued items. */
    method Len() returns (n: nat)
      requires Valid()
      ensures n == |Abs().queued|
    {
      n := |heap.nodes|;
      ghost var q := heap.nodes;
      ghost var values := seq(|q|, k requires 0 <= k < |q| => q[k].value);
      DistinctCount(values);
      forall v | v in pending ensures v in values {
        assert values[pending[v].index] == v;
      }
      assert (set v | v in values) == queued.Keys;
    }
  }

  /** Done on an item that is still queued: the invariant is gone. */
  method DoneTooEarly() returns (q: Queue<int>)
    ensures fresh(q) && !q.Valid()
  {
    q := new Queue();
    q.EmptyHeap();
    q.Add(1);
    assert 1 in q.Abs().queued;
    q.Done(1);
  }
}
