/**
 Aggregated discovery: one renamed API group on the server stands for several original
 groups, so its resources are restored one by one and regrouped.
 */
module Discovery {
  import opened Common
  import opened GoStrings

  // ---------- the comma builder ----------

  class SliceBuilder {
    var buf: string
    var begin: bool

    /** The non-empty pieces written so far. */
    ghost var pieces: seq<string>

    ghost predicate Valid()
      reads this
    {
      && buf == "[" + Join(pieces, ',')
      && (begin <==> pieces != [])
    }

    constructor ()
      ensures Valid() && pieces == []
    {
      buf, begin, pieces := "[", false, [];
    }

    method Write(bytes: string)
      requires Valid()
      modifies this
      ensures Valid() && pieces == if bytes == "" then old(pieces) else old(pieces) + [bytes]
    {
      if |bytes| == 0 {
        return;
      }
      if begin {
        buf := buf + ",";
      }
      JoinAppend(pieces, bytes);
      buf := buf + bytes;
      begin := true;
      pieces := pieces + [bytes];
    }

    /** The finished list is exactly the non-empty pieces joined with commas. */
    method Complete() returns (bytes: string)
      requires Valid()
      modifies this`buf
      ensures bytes == "[" + Join(pieces, ',') + "]"
    {
      buf := buf + "]";
      bytes := buf;
    }
  }

  lemma {:induction false} JoinAppend(parts: seq<string>, last: string)
    ensures Join(parts + [last], ',') == if parts == [] then last else Join(parts, ',') + "," + last
  {
    if |parts| == 1 {
      assert (parts + [last])[1..] == [last];
    } else if |parts| > 1 {
      JoinAppend(parts[1..], last);
      assert (parts + [last])[1..] == parts[1..] + [last];
    } else {
      assert parts + [last] == [last];
    }
  }

  // ---------- restoring one resource ----------

  datatype Kind = Kind(group: string, version: string, kind: string)

  datatype Subresource = Subresource(name: string, responseKind: Option<Kind>)

  datatype Resource = Resource(
    resource: string, responseKind: Option<Kind>, singular: string, shortNames: seq<string>,
    categories: Option<seq<string>>, subresources: seq<Subresource>)

  datatype ResourceRule = ResourceRule(group: string, kind: string, categories: seq<string>)

  /** The rules by original plural name, and the prefixes renaming added. */
  datatype Rules = Rules(
    byPlural: map<string, ResourceRule>, resourceTypePrefix: string, shortNamePrefix: string,
    renamedGroups: set<string>, originalGroups: set<string>)

  function OriginalPlural(rules: Rules, r: Resource): string {
    TrimPrefix(r.resource, rules.resourceTypePrefix)
  }

  function RuleFor(rules: Rules, r: Resource): Option<ResourceRule> {
    var plural := Cut(OriginalPlural(rules, r), '/').0;
    if plural in rules.byPlural then Some(rules.byPlural[plural]) else None
  }

  function RestoreKind(k: Option<Kind>, rule: ResourceRule): Option<Kind> {
    if k.Some? then Some(k.value.(group := rule.group, kind := rule.kind)) else None
  }

  function RestoreResource(rules: Rules, r: Resource, rule: ResourceRule): Resource {
    Resource(
      OriginalPlural(rules, r),
      RestoreKind(r.responseKind, rule),
      if r.singular == "" then "" else TrimPrefix(r.singular, rules.resourceTypePrefix),
      seq(|r.shortNames|, i requires 0 <= i < |r.shortNames| => TrimPrefix(r.shortNames[i], rules.shortNamePrefix)),
      if r.categories.Some? then Some(rule.categories) else None,
      seq(|r.subresources|, i requires 0 <= i < |r.subresources| =>
        r.subresources[i].(responseKind := RestoreKind(r.subresources[i].responseKind, rule))))
  }

  // ---------- regrouping ----------

  datatype Version = Version(version: string, freshness: Option<string>, resources: seq<Resource>)

  datatype Group = Group(name: string, versions: seq<Version>)

  /** Where one resource goes: its original group, its version, and what is put there (nothing without a rule). */
  datatype Entry = Entry(group: string, version: string, restored: Option<Resource>)

  function EntryOf(rules: Rules, version: string, r: Resource): Entry {
    var rule := RuleFor(rules, r);
    if rule.None? then Entry("", version, None)
    else Entry(rule.value.group, version, Some(RestoreResource(rules, r, rule.value)))
  }

  /** A resource with the version it came under. */
  datatype Found = Found(version: string, resource: Resource)

  function FoundIn(v: Version): seq<Found> {
    seq(|v.resources|, j requires 0 <= j < |v.resources| => Found(v.version, v.resources[j]))
  }

  /** All resources in input order; a version without a name is passed over. */
  function Listed(versions: seq<Version>): seq<Found> {
    if versions == [] then []
    else
      var last := versions[|versions| - 1];
      Listed(versions[..|versions| - 1]) + if last.version == "" then [] else FoundIn(last)
  }

  /** Where each of them goes. */
  function EntriesOf(rules: Rules, found: seq<Found>): seq<Entry> {
    seq(|found|, p requires 0 <= p < |found| => EntryOf(rules, found[p].version, found[p].resource))
  }

  function Entries(rules: Rules, versions: seq<Version>): seq<Entry> {
    EntriesOf(rules, Listed(versions))
  }

  /** The entries that go to one group and version, in order. */
  function Bucket(entries: seq<Entry>, group: string, version: string): seq<Option<Resource>> {
    if entries == [] then []
    else
      var last := entries[|entries| - 1];
      Bucket(entries[..|entries| - 1], group, version)
      + if last.group == group && last.version == version then [last.restored] else []
  }

  function Present(items: seq<Option<Resource>>): seq<Resource> {
    if items == [] then []
    else
      var last := items[|items| - 1];
      Present(items[..|items| - 1]) + if last.Some? then [last.value] else []
  }

  type Index = map<string, map<string, seq<Option<Resource>>>>

  /** The index holds every non-empty bucket and nothing else. */
  ghost predicate Indexes(idx: Index, entries: seq<Entry>) {
    forall g, v {:trigger Bucket(entries, g, v)} ::
      if g in idx && v in idx[g] then idx[g][v] == Bucket(entries, g, v) != [] else Bucket(entries, g, v) == []
  }

  /** Every group in the index has a version. */
  ghost predicate NoEmptyGroup(idx: Index) {
    forall g :: g in idx ==> idx[g] != map[]
  }

  method Insert(idx: Index, ghost entries: seq<Entry>, entry: Entry) returns (idx': Index)
    requires Indexes(idx, entries) && NoEmptyGroup(idx)
    ensures Indexes(idx', entries + [entry]) && NoEmptyGroup(idx')
  {
    idx' := idx;
    if entry.group !in idx' {
      idx' := idx'[entry.group := map[]];
    }
    var versions := idx'[entry.group];
    if entry.version !in versions {
      versions := versions[entry.version := []];
    }
    versions := versions[entry.version := versions[entry.version] + [entry.restored]];
    idx' := idx'[entry.group := versions];
    assert (entries + [entry])[..|entries|] == entries;
    forall g, v
      ensures if g in idx' && v in idx'[g]
              then idx'[g][v] == Bucket(entries + [entry], g, v) != []
              else Bucket(entries + [entry], g, v) == []
    {
      assert Bucket(entries + [entry], g, v)
          == Bucket(entries, g, v) + if entry.group == g && entry.version == v then [entry.restored] else [];
    }
  }

  lemma EntriesOfConcat(rules: Rules, a: seq<Found>, b: seq<Found>)
    ensures EntriesOf(rules, a + b) == EntriesOf(rules, a) + EntriesOf(rules, b)
  {
  }

  /** The inner loop: the resources of one named version. */
  method IndexVersion(rules: Rules, version: Version, idx0: Index, ghost before: seq<Found>) returns (idx: Index)
    requires Indexes(idx0, EntriesOf(rules, before)) && NoEmptyGroup(idx0)
    ensures Indexes(idx, EntriesOf(rules, before + FoundIn(version))) && NoEmptyGroup(idx)
  {
    idx := idx0;
    ghost var found := before;
    for j := 0 to |version.resources|
      invariant found == before + FoundIn(version)[..j]
      invariant Indexes(idx, EntriesOf(rules, found)) && NoEmptyGroup(idx)
    {
      var entry := EntryOf(rules, version.version, version.resources[j]);
      idx := Insert(idx, EntriesOf(rules, found), entry);
      EntriesOfConcat(rules, found, [FoundIn(version)[j]]);
      assert EntriesOf(rules, [FoundIn(version)[j]]) == [entry];
      found := found + [FoundIn(version)[j]];
    }
    assert FoundIn(version)[..|version.resources|] == FoundIn(version);
  }

  method IndexResources(rules: Rules, versions: seq<Version>) returns (idx: Index)
    ensures Indexes(idx, Entries(rules, versions)) && NoEmptyGroup(idx)
  {
    idx := map[];
    ghost var found: seq<Found> := [];
    for i := 0 to |versions|
      invariant found == Listed(versions[..i])
      invariant Indexes(idx, EntriesOf(rules, found)) && NoEmptyGroup(idx)
    {
      assert versions[..i + 1][..i] == versions[..i];
      var version := versions[i];
      if version.version == "" {
        continue;
      }
      idx := IndexVersion(rules, version, idx, found);
      found := found + FoundIn(version);
    }
    assert versions[..|versions|] == versions;
  }

  // ---------- restoring undoes renaming ----------

  /** How the server names things that rules rename. */
  datatype Renaming = Renaming(group: string, kindPrefix: string, categories: seq<string>)

  function RenameKind(k: Option<Kind>, n: Renaming): Option<Kind> {
    if k.Some? then Some(k.value.(group := n.group, kind := n.kindPrefix + k.value.kind)) else None
  }

  /** The server's view of an original resource. */
  function RenameResource(rules: Rules, n: Renaming, r: Resource): Resource {
    Resource(
      rules.resourceTypePrefix + r.resource,
      RenameKind(r.responseKind, n),
      if r.singular == "" then "" else rules.resourceTypePrefix + r.singular,
      seq(|r.shortNames|, i requires 0 <= i < |r.shortNames| => rules.shortNamePrefix + r.shortNames[i]),
      if r.categories.Some? then Some(n.categories) else None,
      seq(|r.subresources|, i requires 0 <= i < |r.subresources| =>
        r.subresources[i].(responseKind := RenameKind(r.subresources[i].responseKind, n))))
  }

  ghost predicate KindOf(rule: ResourceRule, k: Option<Kind>) {
    k.Some? ==> k.value.group == rule.group && k.value.kind == rule.kind
  }

  /** An original resource: its kinds, group and categories are those of its rule. */
  ghost predicate IsOriginal(rules: Rules, rule: ResourceRule, r: Resource) {
    && Cut(r.resource, '/').0 in rules.byPlural && rules.byPlural[Cut(r.resource, '/').0] == rule
    && KindOf(rule, r.responseKind) && (r.categories.Some? ==> r.categories.value == rule.categories)
    && forall i :: 0 <= i < |r.subresources| ==> KindOf(rule, r.subresources[i].responseKind)
  }

  lemma TrimAdded(prefix: string, s: string)
    ensures TrimPrefix(prefix + s, prefix) == s
  {
  }

  /** The server's view of an original resource is restored to that resource, under the group of its rule. */
  lemma RestoreUndoesRenaming(rules: Rules, n: Renaming, rule: ResourceRule, version: string, r: Resource)
    requires IsOriginal(rules, rule, r)
    ensures EntryOf(rules, version, RenameResource(rules, n, r)) == Entry(rule.group, version, Some(r))
  {
    var renamed := RenameResource(rules, n, r);
    TrimAdded(rules.resourceTypePrefix, r.resource);
    TrimAdded(rules.resourceTypePrefix, r.singular);
    var back := RestoreResource(rules, renamed, rule);
    forall i | 0 <= i < |r.shortNames| ensures back.shortNames[i] == r.shortNames[i] {
      TrimAdded(rules.shortNamePrefix, r.shortNames[i]);
    }
    assert back.shortNames == r.shortNames;
    assert back.subresources == r.subresources;
    assert r.singular == "" || renamed.singular == rules.resourceTypePrefix + r.singular;
  }

  // ---------- the regrouped list ----------

  /** One version item: the resources of its bucket, and no freshness. */
  ghost predicate IsVersionOf(entries: seq<Entry>, group: string, v: Version) {
    && Bucket(entries, group, v.version) != [] && v.resources == Present(Bucket(entries, group, v.version))
    && v.freshness.None?
  }

  ghost predicate DistinctVersions(versions: seq<Version>) {
    forall i, j :: 0 <= i < j < |versions| ==> versions[i].version != versions[j].version
  }

  ghost predicate HasVersion(versions: seq<Version>, name: string) {
    exists i :: 0 <= i < |versions| && versions[i].version == name
  }

  ghost predicate HasGroup(groups: seq<Group>, name: string) {
    exists i :: 0 <= i < |groups| && groups[i].name == name
  }

  /** One group item: each of its versions once. */
  ghost predicate IsGroupOf(entries: seq<Entry>, g: Group) {
    && g.versions != [] && DistinctVersions(g.versions)
    && (forall i :: 0 <= i < |g.versions| ==> IsVersionOf(entries, g.name, g.versions[i]))
    && (forall v :: Bucket(entries, g.name, v) != [] ==> HasVersion(g.versions, v))
  }

  ghost predicate DistinctGroups(groups: seq<Group>) {
    forall i, j :: 0 <= i < j < |groups| ==> groups[i].name != groups[j].name
  }

  ghost predicate AreGroupsOf(entries: seq<Entry>, groups: seq<Group>) {
    forall i :: 0 <= i < |groups| ==> IsGroupOf(entries, groups[i])
  }

  ghost predicate NamedFrom(groups: seq<Group>, names: set<string>) {
    forall i :: 0 <= i < |groups| ==> groups[i].name in names
  }

  lemma OneMoreGroup(entries: seq<Entry>, groups: seq<Group>, group: Group, names: set<string>)
    requires AreGroupsOf(entries, groups) && IsGroupOf(entries, group)
    requires DistinctGroups(groups) && NamedFrom(groups, names) && group.name !in names
    ensures AreGroupsOf(entries, groups + [group])
    ensures DistinctGroups(groups + [group]) && NamedFrom(groups + [group], names + {group.name})
  {
  }

  /** The whole list, in any order: each group with entries once. */
  ghost predicate IsRegrouping(entries: seq<Entry>, groups: seq<Group>) {
    && DistinctGroups(groups) && AreGroupsOf(entries, groups)
    && (forall g, v :: Bucket(entries, g, v) != [] ==> HasGroup(groups, g))
  }

  method PresentOnly(items: seq<Option<Resource>>) returns (out: seq<Resource>)
    ensures out == Present(items)
  {
    out := [];
    for i := 0 to |items|
      invariant out == Present(items[..i])
    {
      assert items[..i + 1][..i] == items[..i];
      if items[i].Some? {
        out := out + [items[i].value];
      }
    }
    assert items[..|items|] == items;
  }

  /** The version items of one group, in any order. */
  method BuildVersions(idx: map<string, seq<Option<Resource>>>, ghost entries: seq<Entry>, ghost group: string)
    returns (versions: seq<Version>)
    requires forall v :: v in idx <==> Bucket(entries, group, v) != []
    requires forall v :: v in idx ==> idx[v] == Bucket(entries, group, v)
    ensures DistinctVersions(versions)
    ensures forall i :: 0 <= i < |versions| ==> IsVersionOf(entries, group, versions[i])
    ensures forall v :: v in idx ==> HasVersion(versions, v)
  {
    versions := [];
    var todo := idx.Keys;
    while todo != {}
      invariant todo <= idx.Keys && DistinctVersions(versions)
      invariant forall i :: 0 <= i < |versions| ==>
                  versions[i].version in idx.Keys - todo && IsVersionOf(entries, group, versions[i])
      invariant forall v :: v in idx && v !in todo ==> HasVersion(versions, v)
      decreases |todo|
    {
      var name :| name in todo;
      todo := todo - {name};
      var resources := PresentOnly(idx[name]);
      ghost var before := versions;
      versions := versions + [Version(name, None, resources)];
      assert versions[|before|].version == name;
      forall v | HasVersion(before, v) ensures HasVersion(versions, v) {
        var i :| 0 <= i < |before| && before[i].version == v;
        assert versions[i].version == v;
      }
    }
  }

  method BuildGroup(idx: Index, ghost entries: seq<Entry>, name: string) returns (group: Group)
    requires Indexes(idx, entries) && NoEmptyGroup(idx) && name in idx
    ensures group.name == name && IsGroupOf(entries, group)
  {
    var versions := BuildVersions(idx[name], entries, name);
    var v :| v in idx[name];
    assert HasVersion(versions, v);
    group := Group(name, versions);
  }

  lemma HasGroupAppended(groups: seq<Group>, group: Group)
    ensures forall g :: HasGroup(groups, g) || g == group.name ==> HasGroup(groups + [group], g)
  {
    var more := groups + [group];
    assert more[|groups|].name == group.name;
    forall g | HasGroup(groups, g) ensures HasGroup(more, g) {
      var i :| 0 <= i < |groups| && groups[i].name == g;
      assert more[i].name == g;
    }
  }

  method BuildGroups(idx: Index, ghost entries: seq<Entry>) returns (groups: seq<Group>)
    requires Indexes(idx, entries) && NoEmptyGroup(idx)
    ensures IsRegrouping(entries, groups)
  {
    groups := [];
    var todo := idx.Keys;
    while todo != {}
      invariant todo <= idx.Keys
      invariant DistinctGroups(groups) && NamedFrom(groups, idx.Keys - todo) && AreGroupsOf(entries, groups)
      invariant forall g :: g in idx && g !in todo ==> HasGroup(groups, g)
      decreases |todo|
    {
      var name :| name in todo;
      var group := BuildGroup(idx, entries, name);
      HasGroupAppended(groups, group);
      OneMoreGroup(entries, groups, group, idx.Keys - todo);
      assert idx.Keys - todo + {name} == idx.Keys - (todo - {name});
      todo := todo - {name};
      groups := groups + [group];
    }
  }

  /** RestoreAggregatedGroupDiscovery: None when the group has no versions at all. */
  method RestoreGroup(rules: Rules, versions: seq<Version>) returns (groups: Option<seq<Group>>)
    ensures groups.None? <==> versions == []
    ensures groups.Some? ==> IsRegrouping(Entries(rules, versions), groups.value)
  {
    if |versions| == 0 {
      return None;
    }
    var idx := IndexResources(rules, versions);
    var list := BuildGroups(idx, Entries(rules, versions));
    groups := Some(list);
  }

  /** What becomes of one item of the discovery list. */
  ghost predicate IsPiece(rules: Rules, item: Group, piece: seq<Group>) {
    if item.name !in rules.renamedGroups then
      piece == if item.name in rules.originalGroups then [] else [item]
    else if item.versions == [] then piece == [item]
    else IsRegrouping(Entries(rules, item.versions), piece)
  }

  function Concat(pieces: seq<seq<Group>>): seq<Group> {
    if pieces == [] then [] else Concat(pieces[..|pieces| - 1]) + pieces[|pieces| - 1]
  }

  /** Each piece is what becomes of the item at its place. */
  ghost predicate ArePieces(rules: Rules, items: seq<Group>, pieces: seq<seq<Group>>) {
    |pieces| <= |items| && forall i :: 0 <= i < |pieces| ==> IsPiece(rules, items[i], pieces[i])
  }

  ghost predicate IsRewrittenList(rules: Rules, items: seq<Group>, out: seq<Group>) {
    exists pieces :: |pieces| == |items| && ArePieces(rules, items, pieces) && out == Concat(pieces)
  }

  /** One turn of the loop over the list. */
  method RewriteItem(rules: Rules, item: Group) returns (piece: seq<Group>)
    ensures IsPiece(rules, item, piece)
  {
    if item.name !in rules.renamedGroups {
      return if item.name in rules.originalGroups then [] else [item];
    }
    var newItems := RestoreGroup(rules, item.versions);
    piece := if newItems.Some? then newItems.value else [item];
  }

  lemma OneMorePiece(rules: Rules, items: seq<Group>, pieces: seq<seq<Group>>, piece: seq<Group>)
    requires |pieces| < |items| && ArePieces(rules, items, pieces) && IsPiece(rules, items[|pieces|], piece)
    ensures ArePieces(rules, items, pieces + [piece])
  {
    var more := pieces + [piece];
    forall i | 0 <= i < |more| ensures IsPiece(rules, items[i], more[i]) {
      assert more[i] == if i < |pieces| then pieces[i] else piece;
    }
  }

  method RewriteDiscoveryList(rules: Rules, items: seq<Group>) returns (out: seq<Group>)
    ensures IsRewrittenList(rules, items, out)
  {
    out := [];
    ghost var pieces: seq<seq<Group>> := [];
    for i := 0 to |items|
      invariant |pieces| == i && ArePieces(rules, items, pieces) && out == Concat(pieces)
    {
      var piece := RewriteItem(rules, items[i]);
      OneMorePiece(rules, items, pieces, piece);
      assert (pieces + [piece])[..i] == pieces;
      out := out + piece;
      pieces := pieces + [piece];
    }
  }
}
