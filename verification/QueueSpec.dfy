/**
 What the priority work queue does, one atomic step at a time.

 Every method of the queue runs under one lock, so a client run is a sequence of
 these steps. `State` forgets the heap layout: it keeps, for each queued item, only
 its rank.
 */
module QueueSpec {

  /** What the heap orders queued entries by. */
  datatype Rank = Rank(priority: int, seqno: nat)

  /** Higher priority first; the earlier sequence number among equals. */
  predicate Less(a: Rank, b: Rank) {
    if a.priority == b.priority then a.seqno < b.seqno else a.priority > b.priority
  }

  datatype State<T> = State(
    queued: map<T, Rank>,
    dirty: set<T>,
    processing: set<T>,
    priorities: map<T, int>,
    shuttingDown: bool,
    draining: bool,
    seqno: nat)

  function Init<T>(): State<T> {
    State(map[], {}, {}, map[], false, false, 0)
  }

  function Clamp(priority: int): int {
    if priority < 0 then 0 else priority
  }

  function PriorityOf<T>(s: State<T>, item: T): int {
    if item in s.priorities then s.priorities[item] else 0
  }

  /** Lifts the priority of a queued entry; its place in line (seqno) stays. */
  function Raise<T>(s: State<T>, item: T, priority: int): State<T> {
    if item in s.queued && priority > s.queued[item].priority
    then s.(queued := s.queued[item := Rank(priority, s.queued[item].seqno)])
    else s
  }

  function EnsurePriority<T>(s: State<T>, item: T, priority: int): State<T> {
    var p := Clamp(priority);
    if item in s.priorities && s.priorities[item] >= p then s
    else Raise(s.(priorities := s.priorities[item := p]), item, p)
  }

  function ClearPriority<T>(s: State<T>, item: T): State<T> {
    s.(priorities := s.priorities - {item})
  }

  function Enqueue<T>(s: State<T>, item: T): State<T> {
    s.(queued := s.queued[item := Rank(PriorityOf(s, item), s.seqno + 1)], seqno := s.seqno + 1)
  }

  function Add<T>(s: State<T>, item: T): State<T> {
    if s.shuttingDown then s
    else if item in s.dirty then Raise(s, item, PriorityOf(s, item))
    else
      var t := s.(dirty := s.dirty + {item});
      if item in s.processing then t else Enqueue(t, item)
  }

  /** The entry every other entry ranks behind. */
  ghost predicate IsBest<T>(queued: map<T, Rank>, item: T) {
    item in queued && forall other :: other in queued && other != item ==> Less(queued[item], queued[other])
  }

  function HandOut<T>(s: State<T>, item: T): State<T> {
    s.(queued := s.queued - {item}, dirty := s.dirty - {item}, processing := s.processing + {item})
  }

  function Done<T>(s: State<T>, item: T): State<T> {
    var t := s.(processing := s.processing - {item});
    if item in s.dirty then Enqueue(t, item) else t
  }

  /**
   The invariant tying the sets to the heap: an item is queued or being processed,
   never both; a dirty item is queued, or owed a re-queue because it is being
   processed; sequence numbers are distinct and already handed out.
   */
  ghost predicate Consistent<T>(s: State<T>) {
    && s.queued.Keys !! s.processing
    && s.queued.Keys <= s.dirty <= s.queued.Keys + s.processing
    && (forall x :: x in s.queued ==> s.queued[x].seqno <= s.seqno)
    && (forall x, y :: x in s.queued && y in s.queued && x != y ==> s.queued[x].seqno != s.queued[y].seqno)
  }

  // ---------- every step keeps the invariant ----------

  lemma EnqueueKeeps<T>(s: State<T>, item: T)
    requires Consistent(s.(dirty := s.dirty - {item})) && item in s.dirty && item !in s.queued && item !in s.processing
    ensures Consistent(Enqueue(s, item))
  {
  }

  lemma RaiseKeeps<T>(s: State<T>, item: T, priority: int)
    requires Consistent(s)
    ensures Consistent(Raise(s, item, priority))
  {
  }

  lemma EnsurePriorityKeeps<T>(s: State<T>, item: T, priority: int)
    requires Consistent(s)
    ensures Consistent(EnsurePriority(s, item, priority))
  {
  }

  lemma AddKeeps<T>(s: State<T>, item: T)
    requires Consistent(s)
    ensures Consistent(Add(s, item))
  {
    if !s.shuttingDown && item !in s.dirty && item !in s.processing {
      assert s.dirty + {item} - {item} == s.dirty;
      EnqueueKeeps(s.(dirty := s.dirty + {item}), item);
    }
  }

  lemma HandOutKeeps<T>(s: State<T>, item: T)
    requires Consistent(s) && item in s.queued
    ensures Consistent(HandOut(s, item))
  {
  }

  /** Returning a queued item would put a second entry for it in line. */
  lemma DoneKeeps<T>(s: State<T>, item: T)
    requires Consistent(s) && item !in s.queued
    ensures Consistent(Done(s, item))
  {
    if item in s.dirty {
      EnqueueKeeps(s.(processing := s.processing - {item}), item);
    }
  }
}
