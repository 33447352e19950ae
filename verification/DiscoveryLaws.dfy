/** What regrouping aggregated discovery conserves, keeps in order, adds and loses. */
module DiscoveryLaws {
  import opened Common
  import opened GoStrings
  import opened Discovery

  // ---------- conservation ----------

  /** A restored resource with its place. */
  datatype Placed = Placed(group: string, version: string, resource: Resource)

  /** The input side: the resources with a rule, in named versions. */
  function Ruled(entries: seq<Entry>): seq<Placed> {
    if entries == [] then []
    else
      var e := entries[|entries| - 1];
      Ruled(entries[..|entries| - 1]) + if e.restored.Some? then [Placed(e.group, e.version, e.restored.value)] else []
  }

  function PlacedIn(group: string, version: string, resources: seq<Resource>): seq<Placed> {
    if resources == [] then []
    else PlacedIn(group, version, resources[..|resources| - 1]) + [Placed(group, version, resources[|resources| - 1])]
  }

  function PlacedInVersions(group: string, versions: seq<Version>): seq<Placed> {
    if versions == [] then []
    else
      var v := versions[|versions| - 1];
      PlacedInVersions(group, versions[..|versions| - 1]) + PlacedIn(group, v.version, v.resources)
  }

  /** The output side: every resource entry of the list. */
  function PlacedInGroups(groups: seq<Group>): seq<Placed> {
    if groups == [] then []
    else
      var g := groups[|groups| - 1];
      PlacedInGroups(groups[..|groups| - 1]) + PlacedInVersions(g.name, g.versions)
  }

  lemma CountAppended<A>(s: seq<A>, x: A, y: A)
    ensures multiset(s + [x])[y] == multiset(s)[y] + if x == y then 1 else 0
  {
  }

  /** How often p occurs among the ruled resources. */
  function RuledCount(entries: seq<Entry>, p: Placed): nat {
    multiset(Ruled(entries))[p]
  }

  /** How often the bucket for p's place holds p's resource. */
  function HeldCount(entries: seq<Entry>, p: Placed): nat {
    multiset(Present(Bucket(entries, p.group, p.version)))[p.resource]
  }

  lemma RuledAppended(init: seq<Entry>, e: Entry, p: Placed)
    ensures RuledCount(init + [e], p)
         == RuledCount(init, p) + if e == Entry(p.group, p.version, Some(p.resource)) then 1 else 0
  {
    assert (init + [e])[..|init|] == init;
    if e.restored.Some? {
      CountAppended(Ruled(init), Placed(e.group, e.version, e.restored.value), p);
    } else {
      assert Ruled(init + [e]) == Ruled(init);
    }
  }

  lemma HeldAppended(init: seq<Entry>, e: Entry, p: Placed)
    ensures HeldCount(init + [e], p)
         == HeldCount(init, p) + if e == Entry(p.group, p.version, Some(p.resource)) then 1 else 0
  {
    assert (init + [e])[..|init|] == init;
    var bucket := Bucket(init, p.group, p.version);
    if e.group == p.group && e.version == p.version {
      PresentAppend(bucket, e.restored);
      if e.restored.Some? {
        CountAppended(Present(bucket), e.restored.value, p.resource);
      } else {
        assert Present(bucket) + [] == Present(bucket);
      }
    } else {
      assert Bucket(init + [e], p.group, p.version) == bucket;
    }
  }

  lemma {:induction false} CountRuled(entries: seq<Entry>, p: Placed)
    ensures RuledCount(entries, p) == HeldCount(entries, p)
  {
    if entries != [] {
      var init, e := entries[..|entries| - 1], entries[|entries| - 1];
      assert entries == init + [e];
      CountRuled(init, p);
      RuledAppended(init, e, p);
      HeldAppended(init, e, p);
    }
  }

  lemma PresentAppend(items: seq<Option<Resource>>, item: Option<Resource>)
    ensures Present(items + [item]) == Present(items) + if item.Some? then [item.value] else []
  {
    assert (items + [item])[..|items|] == items;
  }

  lemma {:induction false} CountResources(group: string, version: string, resources: seq<Resource>, p: Placed)
    ensures multiset(PlacedIn(group, version, resources))[p]
         == if p.group == group && p.version == version then multiset(resources)[p.resource] else 0
  {
    if resources != [] {
      CountResources(group, version, resources[..|resources| - 1], p);
      assert resources == resources[..|resources| - 1] + [resources[|resources| - 1]];
    }
  }

  lemma VersionsSplit(versions: seq<Version>, name: string)
    requires versions != [] && DistinctVersions(versions)
    ensures var init, last := versions[..|versions| - 1], versions[|versions| - 1].version;
            && DistinctVersions(init)
            && (HasVersion(versions, name) <==> HasVersion(init, name) || last == name)
            && !HasVersion(init, last)
  {
    var init := versions[..|versions| - 1];
    if i :| 0 <= i < |init| && init[i].version == name {
      assert versions[i].version == name;
    }
    if i :| 0 <= i < |versions| && versions[i].version == name {
      assert i < |init| ==> init[i].version == name;
    }
    assert versions[|versions| - 1].version == versions[|versions| - 1].version;
  }

  lemma {:induction false} CountVersions(entries: seq<Entry>, group: string, versions: seq<Version>, p: Placed)
    requires DistinctVersions(versions) && forall i :: 0 <= i < |versions| ==> IsVersionOf(entries, group, versions[i])
    ensures multiset(PlacedInVersions(group, versions))[p]
         == if p.group == group && HasVersion(versions, p.version)
            then multiset(Present(Bucket(entries, group, p.version)))[p.resource] else 0
  {
    if versions != [] {
      var v := versions[|versions| - 1];
      VersionsSplit(versions, p.version);
      CountVersions(entries, group, versions[..|versions| - 1], p);
      CountResources(group, v.version, v.resources, p);
      assert IsVersionOf(entries, group, v);
    }
  }

  lemma GroupsSplit(groups: seq<Group>, name: string)
    requires groups != [] && DistinctGroups(groups)
    ensures var init, last := groups[..|groups| - 1], groups[|groups| - 1].name;
            && DistinctGroups(init)
            && (HasGroup(groups, name) <==> HasGroup(init, name) || last == name)
            && !HasGroup(init, last)
  {
    var init := groups[..|groups| - 1];
    if i :| 0 <= i < |init| && init[i].name == name {
      assert groups[i].name == name;
    }
    if i :| 0 <= i < |groups| && groups[i].name == name {
      assert i < |init| ==> init[i].name == name;
    }
    assert groups[|groups| - 1].name == groups[|groups| - 1].name;
  }

  /** A whole group item holds, for each version, what its bucket holds. */
  lemma CountGroup(entries: seq<Entry>, g: Group, p: Placed)
    requires IsGroupOf(entries, g)
    ensures multiset(PlacedInVersions(g.name, g.versions))[p]
         == if p.group == g.name then multiset(Present(Bucket(entries, g.name, p.version)))[p.resource] else 0
  {
    CountVersions(entries, g.name, g.versions, p);
  }

  lemma {:induction false} CountGroups(entries: seq<Entry>, groups: seq<Group>, p: Placed)
    requires DistinctGroups(groups) && AreGroupsOf(entries, groups)
    ensures multiset(PlacedInGroups(groups))[p]
         == if HasGroup(groups, p.group) then multiset(Present(Bucket(entries, p.group, p.version)))[p.resource] else 0
  {
    if groups != [] {
      GroupsSplit(groups, p.group);
      CountGroups(entries, groups[..|groups| - 1], p);
      CountGroup(entries, groups[|groups| - 1], p);
    }
  }

  /**
   Regrouping conserves resources: each ruled resource of a named version appears as often
   as it came in, under its original group and its version.
   */
  lemma RegroupingConserves(entries: seq<Entry>, groups: seq<Group>)
    requires IsRegrouping(entries, groups)
    ensures multiset(PlacedInGroups(groups)) == multiset(Ruled(entries))
  {
    forall p: Placed ensures multiset(PlacedInGroups(groups))[p] == multiset(Ruled(entries))[p] {
      CountRuled(entries, p);
      CountGroups(entries, groups, p);
    }
  }

  // ---------- the whole list ----------

  lemma {:induction false} PlacedInGroupsConcat(a: seq<Group>, b: seq<Group>)
    ensures PlacedInGroups(a + b) == PlacedInGroups(a) + PlacedInGroups(b)
    decreases |b|
  {
    if b == [] {
      assert a + b == a;
    } else {
      var init, g := b[..|b| - 1], b[|b| - 1];
      PlacedInGroupsConcat(a, init);
      assert (a + b)[..|a + b| - 1] == a + init;
      var tail := PlacedInVersions(g.name, g.versions);
      assert PlacedInGroups(a + b) == PlacedInGroups(a + init) + tail;
      assert PlacedInGroups(b) == PlacedInGroups(init) + tail;
    }
  }

  /** The resources that one item of the list stands for. */
  function Expected(rules: Rules, item: Group): seq<Placed> {
    if item.name in rules.renamedGroups then Ruled(Entries(rules, item.versions))
    else if item.name in rules.originalGroups then []
    else PlacedInVersions(item.name, item.versions)
  }

  function AllExpected(rules: Rules, items: seq<Group>): seq<Placed> {
    if items == [] then [] else AllExpected(rules, items[..|items| - 1]) + Expected(rules, items[|items| - 1])
  }

  lemma PieceConserves(rules: Rules, item: Group, piece: seq<Group>)
    requires IsPiece(rules, item, piece)
    ensures multiset(PlacedInGroups(piece)) == multiset(Expected(rules, item))
  {
    if item.name in rules.renamedGroups && item.versions != [] {
      RegroupingConserves(Entries(rules, item.versions), piece);
    } else if piece == [item] {
      assert piece[..0] == [];
      assert PlacedInGroups(piece) == [] + PlacedInVersions(item.name, item.versions);
    }
  }

  lemma {:induction false} PiecesConserve(rules: Rules, items: seq<Group>, pieces: seq<seq<Group>>)
    requires ArePieces(rules, items, pieces)
    ensures multiset(PlacedInGroups(Concat(pieces))) == multiset(AllExpected(rules, items[..|pieces|]))
    decreases |pieces|
  {
    if pieces != [] {
      var n := |pieces| - 1;
      assert ArePieces(rules, items, pieces[..n]);
      PiecesConserve(rules, items, pieces[..n]);
      assert IsPiece(rules, items[n], pieces[n]);
      PieceConserves(rules, items[n], pieces[n]);
      PlacedInGroupsConcat(Concat(pieces[..n]), pieces[n]);
      assert items[..n + 1][..n] == items[..n];
    }
  }

  /**
   The rewritten list holds, as a multiset, the resources of the items kept as they are and
   the ruled resources of the renamed groups; those of groups that bear an original name are
   dropped as duplicates.
   */
  lemma ListConserves(rules: Rules, items: seq<Group>, out: seq<Group>)
    requires IsRewrittenList(rules, items, out)
    ensures multiset(PlacedInGroups(out)) == multiset(AllExpected(rules, items))
  {
    var pieces :| |pieces| == |items| && ArePieces(rules, items, pieces) && out == Concat(pieces);
    PiecesConserve(rules, items, pieces);
    assert items[..|items|] == items;
  }

  lemma {:induction false} InConcat(pieces: seq<seq<Group>>, g: Group) returns (i: nat)
    requires g in Concat(pieces)
    ensures i < |pieces| && g in pieces[i]
  {
    var n := |pieces| - 1;
    if g in pieces[n] {
      i := n;
    } else {
      i := InConcat(pieces[..n], g);
    }
  }

  lemma PieceFreshness(rules: Rules, item: Group, piece: seq<Group>, k: nat, j: nat)
    requires IsPiece(rules, item, piece) && k < |piece| && j < |piece[k].versions|
    ensures piece[k].versions[j].freshness.Some? ==>
              piece[k] == item && item.name !in rules.renamedGroups && item.name !in rules.originalGroups
  {
    if item.name in rules.renamedGroups && item.versions != [] {
      assert IsGroupOf(Entries(rules, item.versions), piece[k]);
      assert IsVersionOf(Entries(rules, item.versions), piece[k].name, piece[k].versions[j]);
    }
  }

  /** The freshness of a version is lost: only in groups that are passed on unchanged does a version have one. */
  lemma FreshnessIsLost(rules: Rules, items: seq<Group>, out: seq<Group>, g: Group, j: nat)
    requires IsRewrittenList(rules, items, out) && g in out && j < |g.versions| && g.versions[j].freshness.Some?
    ensures g in items && g.name !in rules.renamedGroups && g.name !in rules.originalGroups
  {
    var pieces :| |pieces| == |items| && ArePieces(rules, items, pieces) && out == Concat(pieces);
    var i := InConcat(pieces, g);
    assert IsPiece(rules, items[i], pieces[i]);
    var k :| 0 <= k < |pieces[i]| && pieces[i][k] == g;
    PieceFreshness(rules, items[i], pieces[i], k, j);
  }

  lemma {:induction false} PieceInConcat(pieces: seq<seq<Group>>, i: nat, g: Group)
    requires i < |pieces| && g in pieces[i]
    ensures g in Concat(pieces)
  {
    var n := |pieces| - 1;
    if i < n {
      PieceInConcat(pieces[..n], i, g);
    }
  }

  /** The item goes into the rewritten list as it is. */
  ghost predicate PassedOn(rules: Rules, item: Group) {
    if item.name in rules.renamedGroups then item.versions == [] else item.name !in rules.originalGroups
  }

  lemma PassedOnIsListed(rules: Rules, items: seq<Group>, out: seq<Group>, k: nat)
    requires IsRewrittenList(rules, items, out) && k < |items| && PassedOn(rules, items[k])
    ensures items[k] in out
  {
    var pieces :| |pieces| == |items| && ArePieces(rules, items, pieces) && out == Concat(pieces);
    assert IsPiece(rules, items[k], pieces[k]);
    assert pieces[k] == [items[k]];
    PieceInConcat(pieces, k, items[k]);
  }

  /** An item with a freshness stays in the list exactly when its group is neither renamed nor an original one. */
  lemma FreshnessKeptExactly(rules: Rules, items: seq<Group>, out: seq<Group>, k: nat, j: nat)
    requires IsRewrittenList(rules, items, out) && k < |items|
    requires j < |items[k].versions| && items[k].versions[j].freshness.Some?
    ensures items[k] in out <==> items[k].name !in rules.renamedGroups && items[k].name !in rules.originalGroups
  {
    if items[k] in out {
      FreshnessIsLost(rules, items, out, items[k], j);
    }
    if PassedOn(rules, items[k]) {
      PassedOnIsListed(rules, items, out, k);
    }
  }

  // ---------- positions in the input ----------

  ghost predicate Goes(e: Entry, group: string, version: string) {
    e.group == group && e.version == version && e.restored.Some?
  }

  ghost predicate Increasing(at: seq<nat>) {
    forall a, b :: 0 <= a < b < |at| ==> at[a] < at[b]
  }

  lemma BucketGrows(init: seq<Entry>, e: Entry, group: string, version: string)
    ensures Present(Bucket(init + [e], group, version))
         == Present(Bucket(init, group, version)) + if Goes(e, group, version) then [e.restored.value] else []
  {
    assert (init + [e])[..|init|] == init;
    var bucket := Bucket(init, group, version);
    if e.group == group && e.version == version {
      PresentAppend(bucket, e.restored);
    } else {
      assert Bucket(init + [e], group, version) == bucket;
    }
  }

  /** `at` lists, in order, the positions of the entries that go to the group and version. */
  ghost predicate ArePositions(entries: seq<Entry>, group: string, version: string, at: seq<nat>) {
    && Increasing(at)
    && (forall k :: 0 <= k < |at| ==> at[k] < |entries| && Goes(entries[at[k]], group, version))
    && (forall p :: 0 <= p < |entries| && Goes(entries[p], group, version) ==> p in at)
  }

  ghost predicate ResourcesAt(entries: seq<Entry>, at: seq<nat>, resources: seq<Resource>) {
    |at| == |resources|
    && forall k :: 0 <= k < |at| ==> at[k] < |entries| && entries[at[k]].restored == Some(resources[k])
  }

  lemma PositionsGrow(init: seq<Entry>, e: Entry, group: string, version: string, at: seq<nat>)
    requires ArePositions(init, group, version, at)
    ensures Goes(e, group, version) ==> ArePositions(init + [e], group, version, at + [|init|])
    ensures !Goes(e, group, version) ==> ArePositions(init + [e], group, version, at)
  {
    var entries := init + [e];
    forall p | 0 <= p < |init| && Goes(entries[p], group, version) ensures p in at {
      assert init[p] == entries[p];
    }
    forall k | 0 <= k < |at| ensures at[k] < |entries| && Goes(entries[at[k]], group, version) {
      assert entries[at[k]] == init[at[k]];
    }
  }

  lemma ResourcesGrow(init: seq<Entry>, e: Entry, at: seq<nat>, resources: seq<Resource>)
    requires ResourcesAt(init, at, resources)
    ensures ResourcesAt(init + [e], at, resources)
    ensures e.restored.Some? ==> ResourcesAt(init + [e], at + [|init|], resources + [e.restored.value])
  {
    forall k | 0 <= k < |at| ensures (init + [e])[at[k]].restored == Some(resources[k]) {
      assert (init + [e])[at[k]] == init[at[k]];
    }
  }

  /** A bucket holds what goes there, in the order of the positions, and all of it. */
  lemma {:induction false} BucketPositions(entries: seq<Entry>, group: string, version: string) returns (at: seq<nat>)
    ensures ArePositions(entries, group, version, at)
    ensures ResourcesAt(entries, at, Present(Bucket(entries, group, version)))
  {
    if entries == [] {
      at := [];
    } else {
      var n := |entries| - 1;
      var init, e := entries[..n], entries[n];
      at := BucketPositions(init, group, version);
      var held := Present(Bucket(init, group, version));
      assert entries == init + [e];
      PositionsGrow(init, e, group, version, at);
      ResourcesGrow(init, e, at, held);
      BucketGrows(init, e, group, version);
      if Goes(e, group, version) {
        at := at + [n];
      } else {
        assert held + [] == held;
      }
    }
  }

  /** The listed resource belongs in this group and version. */
  ghost predicate Belongs(rules: Rules, f: Found, group: string, version: string) {
    f.version == version && RuleFor(rules, f.resource).Some? && RuleFor(rules, f.resource).value.group == group
  }

  /**
   The resources of a version item come from strictly increasing positions of the input,
   restored, and every input resource that belongs there is among them.
   */
  lemma OrderWithinVersion(rules: Rules, versions: seq<Version>, groups: seq<Group>, i: nat, j: nat)
    returns (at: seq<nat>)
    requires IsRegrouping(Entries(rules, versions), groups) && i < |groups| && j < |groups[i].versions|
    ensures var item := groups[i].versions[j];
            && Increasing(at) && |at| == |item.resources|
            && (forall k :: 0 <= k < |at| ==>
                  && at[k] < |Listed(versions)| && Belongs(rules, Listed(versions)[at[k]], groups[i].name, item.version)
                  && var r := Listed(versions)[at[k]].resource;
                     item.resources[k] == RestoreResource(rules, r, RuleFor(rules, r).value))
            && (forall p :: 0 <= p < |Listed(versions)| ==>
                  (Belongs(rules, Listed(versions)[p], groups[i].name, item.version) ==> p in at))
  {
    var entries, item := Entries(rules, versions), groups[i].versions[j];
    assert IsGroupOf(entries, groups[i]);
    assert IsVersionOf(entries, groups[i].name, item);
    at := BucketPositions(entries, groups[i].name, item.version);
    forall p | 0 <= p < |Listed(versions)|
      ensures Goes(entries[p], groups[i].name, item.version) ==>
                Belongs(rules, Listed(versions)[p], groups[i].name, item.version)
      ensures Belongs(rules, Listed(versions)[p], groups[i].name, item.version) ==>
                Goes(entries[p], groups[i].name, item.version)
    {
    }
  }

  // ---------- resources without a rule ----------

  ghost predicate GroupsAreNamed(rules: Rules) {
    forall plural :: plural in rules.byPlural ==> rules.byPlural[plural].group != ""
  }

  /** Some version with a name holds a resource that no rule is about. */
  ghost predicate HoldsUnruled(rules: Rules, versions: seq<Version>) {
    exists i, j :: 0 <= i < |versions| && versions[i].version != "" && 0 <= j < |versions[i].resources|
                   && RuleFor(rules, versions[i].resources[j]).None?
  }

  lemma {:induction false} ListedComesFrom(versions: seq<Version>, p: nat) returns (i: nat, j: nat)
    requires p < |Listed(versions)|
    ensures i < |versions| && versions[i].version != "" && j < |versions[i].resources|
    ensures Listed(versions)[p] == Found(versions[i].version, versions[i].resources[j])
  {
    var n := |versions| - 1;
    var before := |Listed(versions[..n])|;
    if p < before {
      i, j := ListedComesFrom(versions[..n], p);
    } else {
      i, j := n, p - before;
    }
  }

  lemma {:induction false} IsListed(versions: seq<Version>, i: nat, j: nat) returns (p: nat)
    requires i < |versions| && versions[i].version != "" && j < |versions[i].resources|
    ensures p < |Listed(versions)| && Listed(versions)[p] == Found(versions[i].version, versions[i].resources[j])
  {
    var n := |versions| - 1;
    if i < n {
      p := IsListed(versions[..n], i, j);
    } else {
      p := |Listed(versions[..n])| + j;
    }
  }

  lemma {:induction false} InBucket(entries: seq<Entry>, p: nat)
    requires p < |entries|
    ensures Bucket(entries, entries[p].group, entries[p].version) != []
  {
    var n := |entries| - 1;
    if p < n {
      InBucket(entries[..n], p);
    }
  }

  lemma {:induction false} BucketComesFrom(entries: seq<Entry>, group: string, version: string) returns (p: nat)
    requires Bucket(entries, group, version) != []
    ensures p < |entries| && entries[p].group == group && entries[p].version == version
  {
    var n := |entries| - 1;
    if entries[n].group == group && entries[n].version == version {
      p := n;
    } else {
      p := BucketComesFrom(entries[..n], group, version);
    }
  }

  /** A group with an empty name is listed exactly when a named version holds a resource without a rule. */
  lemma NamelessGroupExactly(rules: Rules, versions: seq<Version>, groups: seq<Group>)
    requires GroupsAreNamed(rules) && IsRegrouping(Entries(rules, versions), groups)
    ensures HasGroup(groups, "") <==> HoldsUnruled(rules, versions)
  {
    var entries := Entries(rules, versions);
    if i :| 0 <= i < |groups| && groups[i].name == "" {
      assert IsGroupOf(entries, groups[i]);
      var v := groups[i].versions[0];
      assert IsVersionOf(entries, "", v);
      var p := BucketComesFrom(entries, "", v.version);
      var i', j' := ListedComesFrom(versions, p);
    }
    if HoldsUnruled(rules, versions) {
      var i, j :| 0 <= i < |versions| && versions[i].version != "" && 0 <= j < |versions[i].resources|
                  && RuleFor(rules, versions[i].resources[j]).None?;
      var p := IsListed(versions, i, j);
      InBucket(entries, p);
    }
  }

  lemma {:induction false} NamelessBucketHoldsNothing(entries: seq<Entry>, version: string)
    requires forall p :: 0 <= p < |entries| && entries[p].group == "" ==> entries[p].restored.None?
    ensures Present(Bucket(entries, "", version)) == []
  {
    if entries != [] {
      var n := |entries| - 1;
      NamelessBucketHoldsNothing(entries[..n], version);
      BucketGrows(entries[..n], entries[n], "", version);
      assert entries == entries[..n] + [entries[n]];
    }
  }

  /** The group with the empty name holds no resource. */
  lemma NamelessGroupIsEmpty(rules: Rules, versions: seq<Version>, groups: seq<Group>, i: nat, j: nat)
    requires GroupsAreNamed(rules) && IsRegrouping(Entries(rules, versions), groups)
    requires i < |groups| && groups[i].name == "" && j < |groups[i].versions|
    ensures groups[i].versions[j].resources == []
  {
    var entries := Entries(rules, versions);
    assert IsGroupOf(entries, groups[i]);
    assert IsVersionOf(entries, "", groups[i].versions[j]);
    NamelessBucketHoldsNothing(entries, groups[i].versions[j].version);
  }

  ghost predicate NamelessExpected(rules: Rules, item: Group) {
    || (item.name == "" && PassedOn(rules, item))
    || (item.name in rules.renamedGroups && HoldsUnruled(rules, item.versions))
  }

  lemma PieceNameless(rules: Rules, item: Group, piece: seq<Group>)
    requires GroupsAreNamed(rules) && IsPiece(rules, item, piece)
    ensures HasGroup(piece, "") <==> NamelessExpected(rules, item)
  {
    if item.name in rules.renamedGroups && item.versions != [] {
      NamelessGroupExactly(rules, item.versions, piece);
    } else if PassedOn(rules, item) {
      assert piece == [item] && piece[0] == item;
    }
  }

  /**
   In the whole list: a group with an empty name is there exactly when a renamed group holds
   an unruled resource in a named version, or a group without a name was passed on.
   */
  lemma NamelessInListExactly(rules: Rules, items: seq<Group>, out: seq<Group>)
    requires GroupsAreNamed(rules) && IsRewrittenList(rules, items, out)
    ensures HasGroup(out, "") <==> exists k :: 0 <= k < |items| && NamelessExpected(rules, items[k])
  {
    var pieces: seq<seq<Group>> :| |pieces| == |items| && ArePieces(rules, items, pieces) && out == Concat(pieces);
    if i :| 0 <= i < |out| && out[i].name == "" {
      var k := InConcat(pieces, out[i]);
      assert IsPiece(rules, items[k], pieces[k]);
      var a :| 0 <= a < |pieces[k]| && pieces[k][a] == out[i];
      assert pieces[k][a].name == "";
      PieceNameless(rules, items[k], pieces[k]);
    }
    if k :| 0 <= k < |items| && NamelessExpected(rules, items[k]) {
      assert IsPiece(rules, items[k], pieces[k]);
      PieceNameless(rules, items[k], pieces[k]);
      var a :| 0 <= a < |pieces[k]| && pieces[k][a].name == "";
      PieceInConcat(pieces, k, pieces[k][a]);
      var i :| 0 <= i < |out| && out[i] == pieces[k][a];
      assert out[i].name == "";
    }
  }

  // ---------- lists with one resource ----------

  lemma OneBucket(e: Entry, g: string, v: string)
    ensures Bucket([e], g, v) == if g == e.group && v == e.version then [e.restored] else []
    ensures Present([e.restored]) == if e.restored.Some? then [e.restored.value] else []
  {
    assert [e][..0] == [] && Bucket([], g, v) == [];
    assert [e.restored][..0] == [] && Present([]) == [];
  }

  /** The only group a single entry gives. */
  function OneGroup(e: Entry): Group {
    Group(e.group, [Version(e.version, None, if e.restored.Some? then [e.restored.value] else [])])
  }

  lemma OneVersionOf(e: Entry, group: string, v: Version)
    ensures IsVersionOf([e], group, v) <==> group == e.group && v == OneGroup(e).versions[0]
  {
    OneBucket(e, group, v.version);
  }

  /** Versions with distinct names that are all one version. */
  lemma OnlyVersion(versions: seq<Version>, v: Version)
    requires versions != [] && DistinctVersions(versions) && forall i :: 0 <= i < |versions| ==> versions[i] == v
    ensures versions == [v]
  {
    assert versions[0] == v && versions[|versions| - 1] == v;
  }

  lemma OneGroupOnly(e: Entry, name: string, versions: seq<Version>)
    requires versions != [] && DistinctVersions(versions)
    requires forall i :: 0 <= i < |versions| ==> IsVersionOf([e], name, versions[i])
    ensures Group(name, versions) == OneGroup(e)
  {
    var v := OneGroup(e).versions[0];
    forall i | 0 <= i < |versions| ensures versions[i] == v && name == e.group {
      OneVersionOf(e, name, versions[i]);
    }
    OnlyVersion(versions, v);
    assert versions[0] == v;
  }

  lemma OneGroupIs(e: Entry)
    ensures IsGroupOf([e], OneGroup(e))
  {
    var versions := OneGroup(e).versions;
    OneVersionOf(e, e.group, versions[0]);
    forall v | Bucket([e], e.group, v) != [] ensures HasVersion(versions, v) {
      OneBucket(e, e.group, v);
      assert versions[0].version == v;
    }
  }

  lemma OneGroupOf(e: Entry, g: Group)
    ensures IsGroupOf([e], g) <==> g == OneGroup(e)
  {
    OneGroupIs(e);
    if IsGroupOf([e], g) {
      OneGroupOnly(e, g.name, g.versions);
    }
  }

  /** A single entry has one regrouping. */
  lemma OneRegrouping(e: Entry, groups: seq<Group>)
    ensures IsRegrouping([e], groups) <==> groups == [OneGroup(e)]
  {
    forall g: Group ensures IsGroupOf([e], g) <==> g == OneGroup(e) {
      OneGroupOf(e, g);
    }
    forall g, v ensures Bucket([e], g, v) == if g == e.group && v == e.version then [e.restored] else [] {
      OneBucket(e, g, v);
    }
    if IsRegrouping([e], groups) {
      assert Bucket([e], e.group, e.version) != [] && HasGroup(groups, e.group);
      assert IsGroupOf([e], groups[0]);
      forall i | 0 <= i < |groups| ensures groups[i] == groups[0] && i == 0 {
        assert IsGroupOf([e], groups[i]);
      }
      assert groups[|groups| - 1] == groups[0];
      assert groups == [groups[0]];
    }
    if groups == [OneGroup(e)] {
      assert groups[0].name == e.group;
      assert HasGroup(groups, e.group);
    }
  }

  lemma OneResource(rules: Rules, v: Version)
    requires v.version != "" && |v.resources| == 1
    ensures Entries(rules, [v]) == [EntryOf(rules, v.version, v.resources[0])]
  {
    assert [v][..0] == [] && Listed([]) == [];
    assert Listed([v]) == [Found(v.version, v.resources[0])];
  }

  const GPUS := Resource("gpus", None, "", [], None, [])
  const CURRENT := Version("v1", Some("Current"), [GPUS])

  /** One version with one resource and no rule: the list is a group without a name and without resources. */
  lemma StrayResource(rules: Rules, groups: seq<Group>)
    requires rules.byPlural == map[]
    ensures HoldsUnruled(rules, [CURRENT])
    ensures IsRegrouping(Entries(rules, [CURRENT]), groups) <==> groups == [Group("", [Version("v1", None, [])])]
  {
    OneResource(rules, CURRENT);
    assert [CURRENT][0].resources[0] == GPUS && RuleFor(rules, GPUS).None?;
    OneRegrouping(EntryOf(rules, "v1", GPUS), groups);
  }

  const ONE_RULE := Rules(map["gpus" := ResourceRule("original", "GPU", [])], "", "", {"renamed"}, {"original"})

  lemma RuledGpus()
    ensures EntryOf(ONE_RULE, "v1", GPUS) == Entry("original", "v1", Some(GPUS))
  {
    assert Cut("gpus", '/').0 == "gpus";
    assert RestoreResource(ONE_RULE, GPUS, ONE_RULE.byPlural["gpus"]) == GPUS;
  }

  /** A ruled resource under a current version: it is listed under its original group, and "Current" is gone. */
  lemma CurrentIsLost(out: seq<Group>)
    requires IsRewrittenList(ONE_RULE, [Group("renamed", [CURRENT])], out)
    ensures out == [Group("original", [Version("v1", None, [GPUS])])]
  {
    var items := [Group("renamed", [CURRENT])];
    var pieces :| |pieces| == 1 && ArePieces(ONE_RULE, items, pieces) && out == Concat(pieces);
    assert IsPiece(ONE_RULE, items[0], pieces[0]);
    assert pieces[..0] == [] && Concat(pieces) == [] + pieces[0];
    OneResource(ONE_RULE, CURRENT);
    RuledGpus();
    OneRegrouping(Entry("original", "v1", Some(GPUS)), pieces[0]);
  }
}
