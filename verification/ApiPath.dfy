/** Parsing, printing and rewriting of Kubernetes API paths under /apis. */
module ApiPath {
  import opened Common
  import opened GoStrings

  const CORE_PREFIX := "api"
  const APIS_PREFIX := "apis"
  const NAMESPACES := "namespaces"
  const CRD_GROUP := "apiextensions.k8s.io"
  const CRD_RESOURCE := "customresourcedefinitions"

  datatype Endpoint = Endpoint(
    isUnknown: bool, isRoot: bool, isCore: bool, rawPath: string,
    prefix: string, group: string, version: string, namespace: string,
    resourceType: string, name: string, subresource: string, remainder: seq<string>,
    isCRD: bool, crdResourceType: string, crdGroup: string)

  const EMPTY := Endpoint(false, false, false, "", "", "", "", "", "", "", "", [], false, "", "")

  // ---------- parsing ----------

  method Shift(items: seq<string>) returns (first: string, isLast: bool, rest: seq<string>)
    ensures items == [] ==> first == "" && isLast && rest == []
    ensures items != [] ==> first == items[0] && rest == items[1..] && (isLast <==> |items| == 1)
  {
    if |items| == 0 {
      return "", true, items;
    }
    first := items[0];
    rest := items[1..];
    isLast := |rest| == 0;
  }

  function At(p: seq<string>, i: nat): string {
    if i < |p| then p[i] else ""
  }

  /** /apis/GROUP/VERSION/namespaces/NAMESPACE/RESOURCETYPE... */
  predicate Namespaced(p: seq<string>) {
    |p| >= 6 && p[3] == NAMESPACES
  }

  predicate IsCRDPath(p: seq<string>) {
    |p| >= 4 && p[1] == CRD_GROUP && p[3] == CRD_RESOURCE
  }

  /** Where each field of the endpoint comes from. */
  function ParseApis(p: seq<string>): Endpoint {
    EMPTY.(
      prefix := At(p, 0), group := At(p, 1), version := At(p, 2),
      namespace := if Namespaced(p) then p[4] else "",
      resourceType := if Namespaced(p) then p[5] else At(p, 3),
      name := if Namespaced(p) || |p| >= 7 then At(p, 6) else At(p, 4),
      subresource := if Namespaced(p) || |p| >= 8 then At(p, 7) else At(p, 5),
      remainder := if |p| > 8 then p[8..] else [],
      isCRD := IsCRDPath(p),
      crdResourceType := if IsCRDPath(p) then Cut(At(p, 4), '.').0 else "",
      crdGroup := if IsCRDPath(p) then Cut(At(p, 4), '.').1 else "")
  }

  method ParseAPIsEndpoint(pathItems: seq<string>) returns (ae: Endpoint)
    ensures ae == ParseApis(pathItems)
  {
    ae := EMPTY;
    var items, isLast, part := pathItems, false, "";
    part, isLast, items := Shift(items);
    ae := ae.(prefix := part);
    if isLast {
      return;
    }
    part, isLast, items := Shift(items);
    ae := ae.(group := part);
    if isLast {
      return;
    }
    part, isLast, items := Shift(items);
    ae := ae.(version := part);
    if isLast {
      return;
    }
    part, isLast, items := Shift(items);
    ae := ae.(resourceType := part);
    if ae.group == CRD_GROUP && ae.resourceType == CRD_RESOURCE {
      ae := ae.(isCRD := true);
    }
    if isLast {
      return;
    }
    part, isLast, items := Shift(items);
    ae := ae.(name := part);
    if ae.isCRD {
      var (crdResourceType, crdGroup, _) := Cut(ae.name, '.');
      ae := ae.(crdResourceType := crdResourceType, crdGroup := crdGroup);
    }
    if isLast {
      return;
    }
    part, isLast, items := Shift(items);
    ae := ae.(subresource := part);
    if ae.resourceType == NAMESPACES {
      ae := ae.(namespace := ae.name, resourceType := ae.subresource);
      ae := ae.(name := "", subresource := "");
    }
    if isLast {
      return;
    }
    part, isLast, items := Shift(items);
    ae := ae.(name := part);
    if isLast {
      return;
    }
    part, isLast, items := Shift(items);
    ae := ae.(subresource := part);
    if isLast {
      return;
    }
    ae := ae.(remainder := items);
  }

  function TrimLeft(s: string, c: char): string {
    if s != "" && s[0] == c then TrimLeft(s[1..], c) else s
  }

  function TrimRight(s: string, c: char): string {
    if s != "" && s[|s| - 1] == c then TrimRight(s[..|s| - 1], c) else s
  }

  function Trim(s: string, c: char): string {
    TrimRight(TrimLeft(s, c), c)
  }

  /** Core endpoints keep only what Path reads of them. */
  function Parse(path: string): Endpoint {
    var cleaned := Trim(path, '/');
    var items := Split(cleaned, '/');
    if cleaned == "" then EMPTY.(isRoot := true, rawPath := path)
    else if items[0] == CORE_PREFIX then EMPTY.(isCore := true, rawPath := path)
    else if items[0] == APIS_PREFIX then ParseApis(items).(rawPath := path)
    else EMPTY.(isUnknown := true, rawPath := path)
  }

  // ---------- printing ----------

  function NonEmpty(parts: seq<string>): seq<string> {
    if parts == [] then []
    else (if parts[0] == "" then [] else [parts[0]]) + NonEmpty(parts[1..])
  }

  function Parts(a: Endpoint): seq<string> {
    [a.prefix, a.group, a.version, if a.namespace == "" then "" else NAMESPACES + "/" + a.namespace,
     a.resourceType, a.name, a.subresource] + a.remainder
  }

  function PathOf(a: Endpoint): string {
    if a.isRoot || a.isCore || a.isUnknown then a.rawPath else "/" + Join(NonEmpty(Parts(a)), '/')
  }

  method KeepNonEmpty(parts: seq<string>) returns (kept: seq<string>)
    ensures kept == NonEmpty(parts)
  {
    kept := [];
    for i := 0 to |parts|
      invariant kept + NonEmpty(parts[i..]) == NonEmpty(parts)
    {
      ghost var rest := NonEmpty(parts[i + 1..]);
      assert parts[i..][1..] == parts[i + 1..];
      if parts[i] != "" {
        assert kept + ([parts[i]] + rest) == (kept + [parts[i]]) + rest;
        kept := kept + [parts[i]];
      } else {
        assert [] + rest == rest;
      }
    }
  }

  method Path(a: Endpoint) returns (path: string)
    ensures path == PathOf(a)
  {
    if a.isRoot || a.isCore || a.isUnknown {
      return a.rawPath;
    }
    var ns := "";
    if a.namespace != "" {
      ns := NAMESPACES + "/" + a.namespace;
    }
    var parts := [a.prefix, a.group, a.version, ns, a.resourceType, a.name, a.subresource];
    if |a.remainder| > 0 {
      parts := parts + a.remainder;
    }
    assert parts == Parts(a);
    var nonEmptyParts := KeepNonEmpty(parts);
    path := "/" + Join(nonEmptyParts, '/');
  }

  // ---------- lists of segments ----------

  lemma {:induction false} NonEmptyConcat(a: seq<string>, b: seq<string>)
    ensures NonEmpty(a + b) == NonEmpty(a) + NonEmpty(b)
  {
    if a == [] {
      assert a + b == b;
    } else {
      assert (a + b)[1..] == a[1..] + b;
      NonEmptyConcat(a[1..], b);
    }
  }

  lemma {:induction false} NonEmptyMembers(p: seq<string>)
    ensures forall part :: part in NonEmpty(p) <==> part in p && part != ""
    ensures |NonEmpty(p)| <= |p|
    ensures NonEmpty(p) == p <==> "" !in p
  {
    if p != [] {
      NonEmptyMembers(p[1..]);
      assert p == [p[0]] + p[1..];
      assert NonEmpty(p)[..|NonEmpty(p)| - |NonEmpty(p[1..])|] == if p[0] == "" then [] else [p[0]];
      assert p[0] != "" ==> NonEmpty(p)[1..] == NonEmpty(p[1..]);
    }
  }

  /** A joined part may be split in two without changing the joined string. */
  lemma {:induction false} JoinSplice(x: seq<string>, a: string, b: string, y: seq<string>)
    ensures Join(x + [a + "/" + b] + y, '/') == Join(x + [a, b] + y, '/')
  {
    if x == [] {
      assert x + [a + "/" + b] + y == [a + "/" + b] + y && x + [a, b] + y == [a, b] + y;
      assert ([a + "/" + b] + y)[1..] == y && ([a, b] + y)[1..] == [b] + y && ([b] + y)[1..] == y;
      if y == [] {
        assert Join([a, b] + y, '/') == a + "/" + Join([b] + y, '/');
      } else {
        assert a + "/" + b + "/" + Join(y, '/') == a + "/" + (b + "/" + Join(y, '/'));
      }
    } else {
      assert (x + [a + "/" + b] + y)[1..] == x[1..] + [a + "/" + b] + y;
      assert (x + [a, b] + y)[1..] == x[1..] + [a, b] + y;
      JoinSplice(x[1..], a, b, y);
    }
  }

  /** The slash-free segments an endpoint prints. */
  function Segments(a: Endpoint): seq<string> {
    NonEmpty([a.prefix, a.group, a.version])
    + (if a.namespace == "" then [] else [NAMESPACES, a.namespace])
    + NonEmpty([a.resourceType, a.name, a.subresource] + a.remainder)
  }

  lemma PathIsSegments(a: Endpoint)
    requires !a.isRoot && !a.isCore && !a.isUnknown
    ensures PathOf(a) == "/" + Join(Segments(a), '/')
  {
    var head, tail := [a.prefix, a.group, a.version], [a.resourceType, a.name, a.subresource] + a.remainder;
    var ns := if a.namespace == "" then "" else NAMESPACES + "/" + a.namespace;
    assert Parts(a) == head + ([ns] + tail);
    NonEmptyConcat(head, [ns] + tail);
    NonEmptyConcat([ns], tail);
    if a.namespace == "" {
      assert NonEmpty([""]) == [];
      assert NonEmpty(Parts(a)) == NonEmpty(head) + NonEmpty(tail);
      assert Segments(a) == NonEmpty(head) + NonEmpty(tail);
    } else {
      assert NonEmpty([ns]) == [ns];
      assert NonEmpty(Parts(a)) == NonEmpty(head) + [ns] + NonEmpty(tail);
      JoinSplice(NonEmpty(head), NAMESPACES, a.namespace, NonEmpty(tail));
    }
  }

  // ---------- round trip ----------

  /** Paths whose segments all come back: none empty, and cluster-scoped ones end with the subresource. */
  predicate Printable(p: seq<string>) {
    "" !in p && (Namespaced(p) || |p| <= 6)
  }

  function Blanks(n: nat): seq<string> {
    seq(n, i => "")
  }

  lemma PaddedNonEmpty(p: seq<string>, n: nat)
    requires "" !in p
    ensures NonEmpty(p + Blanks(n)) == p
  {
    NonEmptyConcat(p, Blanks(n));
    NonEmptyMembers(p);
    BlanksVanish(n);
  }

  lemma {:induction false} BlanksVanish(n: nat)
    ensures NonEmpty(Blanks(n)) == []
  {
    if n > 0 {
      BlanksVanish(n - 1);
      assert Blanks(n)[1..] == Blanks(n - 1);
    }
  }

  lemma SegmentsOfNamespaced(p: seq<string>)
    requires "" !in p && Namespaced(p)
    ensures Segments(ParseApis(p)) == p
  {
    var a := ParseApis(p);
    var tail := [a.resourceType, a.name, a.subresource] + a.remainder;
    assert [a.prefix, a.group, a.version] == p[..3] + Blanks(0);
    PaddedNonEmpty(p[..3], 0);
    assert p[4] in p;
    var missing: nat := if |p| < 8 then 8 - |p| else 0;
    assert tail == p[5..] + Blanks(missing);
    PaddedNonEmpty(p[5..], missing);
    assert p == p[..3] + [NAMESPACES, p[4]] + p[5..];
  }

  lemma SegmentsOfParsed(p: seq<string>)
    requires p != [] && Printable(p)
    ensures Segments(ParseApis(p)) == p
  {
    if Namespaced(p) {
      SegmentsOfNamespaced(p);
    } else {
      var a := ParseApis(p);
      var head, tail := [a.prefix, a.group, a.version], [a.resourceType, a.name, a.subresource] + a.remainder;
      assert head + tail == p + Blanks(6 - |p|);
      NonEmptyConcat(head, tail);
      PaddedNonEmpty(p, 6 - |p|);
    }
  }

  /** Otherwise something is dropped. */
  lemma SegmentsDropped(p: seq<string>)
    requires p != [] && !Printable(p)
    ensures Segments(ParseApis(p)) != p
  {
    var a := ParseApis(p);
    var head, tail := [a.prefix, a.group, a.version], [a.resourceType, a.name, a.subresource] + a.remainder;
    NonEmptyMembers(head);
    NonEmptyMembers(tail);
    if "" in p {
      assert "" !in Segments(a);
    } else {
      assert |Segments(a)| <= 6 + |a.remainder| < |p|;
    }
  }

  lemma SegmentsNoSlash(p: seq<string>)
    requires p != [] && p[0] != "" && forall part :: part in p ==> '/' !in part
    ensures Segments(ParseApis(p)) != [] && forall part :: part in Segments(ParseApis(p)) ==> '/' !in part
  {
    var a := ParseApis(p);
    var head, tail := [a.prefix, a.group, a.version], [a.resourceType, a.name, a.subresource] + a.remainder;
    NonEmptyMembers(head);
    NonEmptyMembers(tail);
    assert a.prefix in head && a.prefix in NonEmpty(head);
    forall i: nat ensures '/' !in At(p, i) {
      assert i < |p| ==> p[i] in p;
    }
    assert forall part :: part in a.remainder ==> part in p;
    assert '/' !in NAMESPACES;
  }

  /** Printing what was parsed gives the path with its outer slashes normalised, exactly for the printable paths. */
  lemma PathOfParsed(path: string)
    requires Trim(path, '/') != "" && Split(Trim(path, '/'), '/')[0] == APIS_PREFIX
    ensures PathOf(Parse(path)) == "/" + Trim(path, '/') <==> Printable(Split(Trim(path, '/'), '/'))
  {
    var cleaned := Trim(path, '/');
    var p := Split(cleaned, '/');
    assert APIS_PREFIX[1] != CORE_PREFIX[0] && |APIS_PREFIX| != |CORE_PREFIX|;
    var a := Parse(path);
    assert a == ParseApis(p).(rawPath := path) && Segments(a) == Segments(ParseApis(p));
    JoinSplit(cleaned, '/');
    PathIsSegments(a);
    SegmentsNoSlash(p);
    if Printable(p) {
      SegmentsOfParsed(p);
    } else {
      SegmentsDropped(p);
      SplitJoin(Segments(a), '/');
      assert ("/" + Join(Segments(a), '/'))[1..] == Join(Segments(a), '/');
      assert ("/" + cleaned)[1..] == cleaned;
    }
  }

  // ---------- rewriting custom-resource paths ----------

  /** What the rules say about one original API group. */
  datatype GroupRule = GroupRule(renamed: string, resources: set<string>)

  datatype RewriteRules = RewriteRules(groups: map<string, GroupRule>, resourceTypePrefix: string)

  function RenameGroup(rules: RewriteRules, group: string): string {
    if group in rules.groups then rules.groups[group].renamed else group
  }

  function RenameResource(rules: RewriteRules, resource: string): string {
    rules.resourceTypePrefix + resource
  }

  method RewriteCRApiEndpoint(rules: RewriteRules, ep: Endpoint) returns (res: Option<Endpoint>)
    ensures res == RewriteCR(rules, ep)
  {
    if ep.group == "" {
      return None;
    }
    if ep.group !in rules.groups {
      return None;
    }
    var newGroup := RenameGroup(rules, ep.group);
    var newResource := "";
    if ep.resourceType != "" {
      if ep.resourceType !in rules.groups[ep.group].resources {
        return None;
      }
      newResource := RenameResource(rules, ep.resourceType);
    }
    if newGroup != "" || newResource != "" {
      var clone := ep;
      if newGroup != "" {
        clone := clone.(group := newGroup);
      }
      if newResource != "" {
        clone := clone.(resourceType := newResource);
      }
      return Some(clone);
    }
    return None;
  }

  /** A ruled group with no resource or a ruled resource is renamed; anything else is left to pass unchanged. */
  function RewriteCR(rules: RewriteRules, ep: Endpoint): Option<Endpoint> {
    if ep.group == "" || ep.group !in rules.groups then None
    else if ep.resourceType != "" && ep.resourceType !in rules.groups[ep.group].resources then None
    else
      var newGroup := rules.groups[ep.group].renamed;
      var newResource := if ep.resourceType == "" then "" else rules.resourceTypePrefix + ep.resourceType;
      if newGroup == "" && newResource == "" then None
      else Some(ep.(group := if newGroup == "" then ep.group else newGroup,
                    resourceType := if newResource == "" then ep.resourceType else newResource))
  }

  /** Position of the resource type among the segments. */
  function ResourceIndex(p: seq<string>): nat {
    if Namespaced(p) then 5 else 3
  }

  /** The path with its group and resource type replaced. */
  function Replaced(p: seq<string>, group: string, resourceType: string): seq<string>
    requires |p| >= 2
  {
    var q := p[1 := group];
    if ResourceIndex(p) < |p| then q[ResourceIndex(p) := resourceType] else q
  }

  /** A cluster-scoped path with name and subresource reads as namespaced once its resource is called "namespaces". */
  predicate LooksNamespaced(p: seq<string>, resourceType: string) {
    |p| == 6 && !Namespaced(p) && resourceType == NAMESPACES
  }

  /** What an endpoint says about the place of a resource, without the raw path and the CRD fields. */
  function Located(a: Endpoint): Endpoint {
    a.(rawPath := "", isCRD := false, crdResourceType := "", crdGroup := "")
  }

  /**
   Rewriting the endpoint of a printable custom-resource path replaces the group and
   resource-type segments and nothing else. Parsing the printed result finds everything
   where it was, unless the new resource type makes the path read as a namespaced one.
   */
  lemma RewriteChangesTwoSegments(rules: RewriteRules, p: seq<string>)
    requires p != [] && Printable(p) && !IsCRDPath(p) && RewriteCR(rules, ParseApis(p)).Some?
    ensures var ep, ep' := ParseApis(p), RewriteCR(rules, ParseApis(p)).value;
            && |p| >= 2
            && Segments(ep') == Replaced(p, ep'.group, ep'.resourceType)
            && Printable(Segments(ep'))
            && (Located(ParseApis(Segments(ep'))) == ep' <==> !LooksNamespaced(p, ep'.resourceType))
            && ep' == ep.(group := ep'.group, resourceType := ep'.resourceType)
  {
    var ep, ep' := ParseApis(p), RewriteCR(rules, ParseApis(p)).value;
    assert |p| >= 2;
    assert At(p, 3) != "" <==> |p| > 3 by {
      assert |p| > 3 ==> p[3] in p;
    }
    assert Namespaced(p) ==> p[5] in p;
    assert p[1] in p;
    var q := Replaced(p, ep'.group, ep'.resourceType);
    if LooksNamespaced(p, ep'.resourceType) {
      LooksNamespacedSegments(p, ep'.group);
    } else {
      ReplacedParses(p, ep'.group, ep'.resourceType);
      assert Located(ParseApis(q)) == ep';
      SegmentsOfParsed(q);
      assert Segments(ParseApis(q)) == Segments(ep');
    }
  }

  lemma SixSegments(a: Endpoint)
    requires a.namespace == "" && a.remainder == []
    requires "" !in [a.prefix, a.group, a.version] && "" !in [a.resourceType, a.name, a.subresource]
    ensures Segments(a) == [a.prefix, a.group, a.version, a.resourceType, a.name, a.subresource]
  {
    NonEmptyMembers([a.prefix, a.group, a.version]);
    NonEmptyMembers([a.resourceType, a.name, a.subresource] + a.remainder);
    assert [a.resourceType, a.name, a.subresource] + a.remainder == [a.resourceType, a.name, a.subresource];
  }

  /** The path that reads as namespaced: the name is taken for a namespace. */
  lemma LooksNamespacedSegments(p: seq<string>, group: string)
    requires Printable(p) && LooksNamespaced(p, NAMESPACES) && group != ""
    ensures var a, q := ParseApis(p).(group := group, resourceType := NAMESPACES), Replaced(p, group, NAMESPACES);
            && Segments(a) == q && Printable(q)
            && ParseApis(q).namespace == a.name && a.namespace == "" != a.name
  {
    var a, q := ParseApis(p).(group := group, resourceType := NAMESPACES), Replaced(p, group, NAMESPACES);
    assert q == [p[0], group, p[2], NAMESPACES, p[4], p[5]];
    assert p[0] in p && p[2] in p && p[4] in p && p[5] in p;
    SixSegments(a);
  }

  lemma ReplacedParses(p: seq<string>, group: string, resourceType: string)
    requires |p| >= 2 && Printable(p) && group != "" && !LooksNamespaced(p, resourceType)
    requires ResourceIndex(p) < |p| ==> resourceType != ""
    ensures var q, a, b := Replaced(p, group, resourceType), ParseApis(p), ParseApis(Replaced(p, group, resourceType));
            && q != [] && Printable(q)
            && b.prefix == a.prefix && b.group == group && b.version == a.version && b.namespace == a.namespace
            && b.resourceType == (if ResourceIndex(p) < |p| then resourceType else a.resourceType)
            && b.name == a.name && b.subresource == a.subresource && b.remainder == a.remainder
  {
    var q := Replaced(p, group, resourceType);
    assert Namespaced(q) <==> Namespaced(p);
    forall i | 0 <= i < |q| ensures q[i] != "" {
      assert p[i] in p;
    }
    assert |q| > 8 ==> q[8..] == p[8..];
  }

  lemma {:induction false} JoinEnds(p: seq<string>)
    requires p != [] && "" !in p && forall part :: part in p ==> '/' !in part
    ensures var s := Join(p, '/'); s != "" && s[0] != '/' && s[|s| - 1] != '/'
  {
    assert p[0] in p;
    if |p| > 1 {
      JoinEnds(p[1..]);
    }
  }

  /** Splitting a printed path finds its segments again. */
  lemma PrintedPathSplits(a: Endpoint)
    requires !a.isRoot && !a.isCore && !a.isUnknown && Segments(a) != []
    requires forall part :: part in Segments(a) ==> part != "" && '/' !in part
    ensures Split(Trim(PathOf(a), '/'), '/') == Segments(a)
  {
    PathIsSegments(a);
    JoinEnds(Segments(a));
    var joined := Join(Segments(a), '/');
    assert ("/" + joined)[1..] == joined;
    assert TrimLeft("/" + joined, '/') == TrimLeft(joined, '/') == joined;
    SplitJoin(Segments(a), '/');
  }

  /**
   On whole paths: print the rewritten endpoint, parse it again, and everything but the
   group and the resource type is found where it was, with the same one exception.
   */
  lemma RewrittenPathParses(rules: RewriteRules, path: string)
    requires Trim(path, '/') != "" && Split(Trim(path, '/'), '/')[0] == APIS_PREFIX
    requires var p := Split(Trim(path, '/'), '/'); Printable(p) && !IsCRDPath(p)
    requires RewriteCR(rules, Parse(path)).Some?
    requires var ep' := RewriteCR(rules, Parse(path)).value; '/' !in ep'.group && '/' !in ep'.resourceType
    ensures var ep, ep' := Parse(path), RewriteCR(rules, Parse(path)).value;
            && (Located(Parse(PathOf(ep'))) == Located(ep') <==>
                !LooksNamespaced(Split(Trim(path, '/'), '/'), ep'.resourceType))
            && Located(ep') == Located(ep).(group := ep'.group, resourceType := ep'.resourceType)
  {
    var p := Split(Trim(path, '/'), '/');
    assert |APIS_PREFIX| != |CORE_PREFIX|;
    assert Parse(path) == ParseApis(p).(rawPath := path);
    var ep', plain := RewriteCR(rules, Parse(path)).value, RewriteCR(rules, ParseApis(p)).value;
    assert ep' == plain.(rawPath := path);
    RewriteChangesTwoSegments(rules, p);
    var q := Segments(ep');
    assert q == Segments(plain) == Replaced(p, ep'.group, ep'.resourceType);
    JoinSplit(Trim(path, '/'), '/');
    forall i | 0 <= i < |q| ensures q[i] != "" && '/' !in q[i] {
      assert p[i] in p && q[i] in q;
    }
    PrintedPathSplits(ep');
    assert Trim(PathOf(ep'), '/') != "" by {
      assert q[0] == p[0] && |Split("", '/')[0]| == 0;
    }
    assert Parse(PathOf(ep')) == ParseApis(q).(rawPath := PathOf(ep'));
  }

  // ---------- what is found where ----------

  /** A namespaced path, segment by segment. */
  lemma NamespacedFields(g: string, v: string, ns: string, r: string, n: string, sub: string, rest: seq<string>)
    ensures var a := ParseApis(["apis", g, v, "namespaces", ns, r, n, sub] + rest);
            && a.prefix == "apis" && a.group == g && a.version == v && a.namespace == ns && a.resourceType == r
            && a.name == n && a.subresource == sub && a.remainder == rest
    ensures var a := ParseApis(["apis", g, v, "namespaces", ns, r]);
            && a.group == g && a.version == v && a.namespace == ns && a.resourceType == r
            && a.name == a.subresource == "" && a.remainder == []
  {
    assert (["apis", g, v, "namespaces", ns, r, n, sub] + rest)[8..] == rest;
  }

  /** A cluster-scoped path, segment by segment. */
  lemma ClusterFields(g: string, v: string, r: string, n: string, sub: string)
    requires r != "namespaces"
    ensures var a := ParseApis(["apis", g, v, r, n, sub]);
            && a.prefix == "apis" && a.group == g && a.version == v && a.namespace == "" && a.resourceType == r
            && a.name == n && a.subresource == sub && a.remainder == []
    ensures var a := ParseApis(["apis", g, v, r]);
            a.group == g && a.version == v && a.namespace == "" && a.resourceType == r && a.name == a.subresource == ""
  {
  }

  /** The name of a CRD is its plural name, a dot, and its group, which may hold dots itself. */
  lemma CrdNameParts(v: string, plural: string, group: string)
    requires '.' !in plural
    ensures var a := ParseApis(["apis", "apiextensions.k8s.io", v, "customresourcedefinitions", plural + "." + group]);
            a.isCRD && a.crdResourceType == plural && a.crdGroup == group
  {
    CutFirst(plural, '.', group);
  }

  /** Paths that are not under /apis are printed as they came. */
  lemma OtherPathsUnchanged(path: string)
    requires Trim(path, '/') == "" || Split(Trim(path, '/'), '/')[0] != "apis"
    ensures PathOf(Parse(path)) == path
  {
  }

  /**
   Which custom-resource paths are rewritten, and to what: the group segment becomes the
   renamed group of its rule, and the resource segment gets the prefix.
   */
  lemma RewrittenSegments(rules: RewriteRules, p: seq<string>)
    requires p != [] && Printable(p) && !IsCRDPath(p)
    ensures var k := if |p| >= 6 && p[3] == "namespaces" then 5 else 3;
            var res := RewriteCR(rules, ParseApis(p));
            && (res.Some? <==>
                && |p| >= 2 && p[1] in rules.groups && (k < |p| ==> p[k] in rules.groups[p[1]].resources)
                && (rules.groups[p[1]].renamed != "" || k < |p|))
            && (res.Some? ==>
                  var renamed := rules.groups[p[1]].renamed;
                  var q := p[1 := if renamed == "" then p[1] else renamed];
                  var target := if k < |p| then q[k := rules.resourceTypePrefix + p[k]] else q;
                  Segments(res.value) == target && PathOf(res.value) == "/" + Join(target, '/'))
  {
    var k := if |p| >= 6 && p[3] == "namespaces" then 5 else 3;
    assert |p| >= 2 ==> p[1] in p;
    assert k < |p| ==> p[k] in p;
    if RewriteCR(rules, ParseApis(p)).Some? {
      RewriteChangesTwoSegments(rules, p);
      PathIsSegments(RewriteCR(rules, ParseApis(p)).value);
    }
  }

  // ---------- paths that are not kept ----------

  /** A cluster-scoped path one segment too long: the name is overwritten by the last segment. */
  lemma NameOverwritten()
    ensures Segments(ParseApis(["apis", "g", "v1", "r", "name", "sub", "more"]))
         == ["apis", "g", "v1", "r", "more", "sub"]
  {
    SixSegments(ParseApis(["apis", "g", "v1", "r", "name", "sub", "more"]));
  }

  const NAME_RULES := RewriteRules(map["g" := GroupRule("h", {"spaces"})], "name")

  /** A resource "spaces" renamed to "namespaces": reparsing takes the name for a namespace. */
  lemma NameTakenForNamespace()
    ensures var p := ["apis", "g", "v1", "spaces", "n", "sub"];
            && RewriteCR(NAME_RULES, ParseApis(p)).Some?
            && var ep' := RewriteCR(NAME_RULES, ParseApis(p)).value;
               ep'.resourceType == NAMESPACES && Located(ParseApis(Segments(ep'))) != ep'
  {
    var p := ["apis", "g", "v1", "spaces", "n", "sub"];
    assert "name" + "spaces" == NAMESPACES;
    assert p[3][0] != NAMESPACES[0] && p[1] != CRD_GROUP;
    RewriteChangesTwoSegments(NAME_RULES, p);
  }
}
