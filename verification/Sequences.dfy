/** Filtering and de-duplicating lists, as the loops with a `seen` map do. */
module Sequences {

  function Filter<A>(s: seq<A>, keep: A -> bool): seq<A> {
    if s == [] then []
    else Filter(s[..|s| - 1], keep) + if keep(s[|s| - 1]) then [s[|s| - 1]] else []
  }

  /** Each element once, at its first occurrence. */
  function Dedup<A(==)>(s: seq<A>): seq<A> {
    if s == [] then []
    else
      var init := s[..|s| - 1];
      Dedup(init) + if s[|s| - 1] in init then [] else [s[|s| - 1]]
  }

  lemma {:induction false} FilterConcat<A>(s: seq<A>, t: seq<A>, keep: A -> bool)
    ensures Filter(s + t, keep) == Filter(s, keep) + Filter(t, keep)
    decreases |t|
  {
    if t == [] {
      assert s + t == s;
    } else {
      FilterConcat(s, t[..|t| - 1], keep);
      assert (s + t)[..|s + t| - 1] == s + t[..|t| - 1];
    }
  }

  lemma {:induction false} FilterAll<A>(s: seq<A>, keep: A -> bool)
    requires forall x :: x in s ==> keep(x)
    ensures Filter(s, keep) == s
  {
    if s != [] {
      FilterAll(s[..|s| - 1], keep);
      assert s[|s| - 1] in s;
      assert s == s[..|s| - 1] + [s[|s| - 1]];
    }
  }

  lemma {:induction false} FilterNone<A>(s: seq<A>, keep: A -> bool)
    requires forall x :: x in s ==> !keep(x)
    ensures Filter(s, keep) == []
  {
    if s != [] {
      FilterNone(s[..|s| - 1], keep);
      assert s[|s| - 1] in s;
    }
  }

  /** Filtering twice is filtering by both. */
  lemma {:induction false} FilterTwice<A>(s: seq<A>, first: A -> bool, second: A -> bool, both: A -> bool)
    requires forall x :: x in s ==> both(x) == (first(x) && second(x))
    ensures Filter(Filter(s, first), second) == Filter(s, both)
  {
    if s != [] {
      var init, last := s[..|s| - 1], s[|s| - 1];
      assert last in s;
      FilterTwice(init, first, second, both);
      FilterConcat(Filter(init, first), if first(last) then [last] else [], second);
      assert [last][..0] == [];
    }
  }

  lemma {:induction false} FilterMembers<A>(s: seq<A>, keep: A -> bool)
    ensures forall x :: x in Filter(s, keep) <==> x in s && keep(x)
  {
    if s != [] {
      FilterMembers(s[..|s| - 1], keep);
      assert s == s[..|s| - 1] + [s[|s| - 1]];
    }
  }

  lemma {:induction false} DedupMembers<A>(s: seq<A>)
    ensures forall x :: x in Dedup(s) <==> x in s
    ensures forall i, j :: 0 <= i < j < |Dedup(s)| ==> Dedup(s)[i] != Dedup(s)[j]
  {
    if s != [] {
      DedupMembers(s[..|s| - 1]);
      assert s == s[..|s| - 1] + [s[|s| - 1]];
    }
  }

  lemma {:induction false} DedupFirst<A>(s: seq<A>)
    requires s != []
    ensures Dedup(s) != [] && Dedup(s)[0] == s[0]
  {
    if |s| > 1 {
      DedupFirst(s[..|s| - 1]);
    }
  }

  lemma {:induction false} DedupDistinct<A>(s: seq<A>)
    requires forall i, j :: 0 <= i < j < |s| ==> s[i] != s[j]
    ensures Dedup(s) == s
  {
    if s != [] {
      DedupDistinct(s[..|s| - 1]);
      assert s == s[..|s| - 1] + [s[|s| - 1]];
    }
  }

  // ---------- what they mean, by positions ----------

  ghost predicate Increasing(at: seq<nat>) {
    forall a, b :: 0 <= a < b < |at| ==> at[a] < at[b]
  }

  /** `at` picks t out of s, from left to right. */
  ghost predicate Picks<A>(s: seq<A>, at: seq<nat>, t: seq<A>) {
    Increasing(at) && |at| == |t| && forall k :: 0 <= k < |at| ==> at[k] < |s| && s[at[k]] == t[k]
  }

  lemma PicksMore<A>(s: seq<A>, at: seq<nat>, t: seq<A>, x: A)
    requires Picks(s, at, t)
    ensures Picks(s + [x], at, t) && Picks(s + [x], at + [|s|], t + [x])
  {
    forall k | 0 <= k < |at| ensures (s + [x])[at[k]] == t[k] {
      assert (s + [x])[at[k]] == s[at[k]];
    }
  }

  /** Filtering keeps, in order, exactly the elements to be kept. */
  lemma {:induction false} FilterPositions<A>(s: seq<A>, keep: A -> bool) returns (at: seq<nat>)
    ensures Picks(s, at, Filter(s, keep))
    ensures forall p :: 0 <= p < |s| ==> (p in at <==> keep(s[p]))
  {
    if s == [] {
      at := [];
    } else {
      var n := |s| - 1;
      at := FilterPositions(s[..n], keep);
      PicksMore(s[..n], at, Filter(s[..n], keep), s[n]);
      assert s == s[..n] + [s[n]];
      assert n !in at;
      if keep(s[n]) {
        at := at + [n];
      } else {
        assert Filter(s, keep) == Filter(s[..n], keep);
      }
    }
  }

  /** De-duplicating keeps, in order, the first occurrences. */
  lemma {:induction false} DedupPositions<A>(s: seq<A>) returns (at: seq<nat>)
    ensures Picks(s, at, Dedup(s))
    ensures forall k, p :: 0 <= k < |at| && 0 <= p < at[k] ==> s[p] != Dedup(s)[k]
  {
    if s == [] {
      at := [];
    } else {
      var n := |s| - 1;
      at := DedupPositions(s[..n]);
      PicksMore(s[..n], at, Dedup(s[..n]), s[n]);
      assert s == s[..n] + [s[n]];
      if s[n] in s[..n] {
        assert Dedup(s) == Dedup(s[..n]);
      } else {
        at := at + [n];
      }
    }
  }

  /** The order of the kept first occurrences: a later one occurs only after an earlier one has. */
  lemma FirstOccurrenceOrder<A>(s: seq<A>, keep: A -> bool, i: nat, j: nat, b: nat) returns (a: nat)
    requires i < j < |Dedup(Filter(s, keep))| && b < |s| && s[b] == Dedup(Filter(s, keep))[j]
    ensures a < b && s[a] == Dedup(Filter(s, keep))[i]
  {
    var kept := FilterPositions(s, keep);
    var wanted := Filter(s, keep);
    var firsts := DedupPositions(wanted);
    assert s[kept[firsts[j]]] == s[b] && kept[firsts[j]] in kept;
    assert keep(s[b]) && b in kept;
    var q :| 0 <= q < |kept| && kept[q] == b;
    assert wanted[q] == Dedup(wanted)[j] && firsts[j] <= q;
    a := kept[firsts[i]];
  }
}
