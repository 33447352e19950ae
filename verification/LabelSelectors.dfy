/** Label selectors sent by the client select, on the server, the objects the client meant. */
module LabelSelectors {
  import opened Common
  import opened GoStrings
  import opened NameRewriter
  import opened RuleHits
  import opened LabelRewriting

  datatype Requirement = Requirement(key: string, operator: Operator, values: seq<string>)

  datatype Selector = Selector(matchLabels: Labels, matchExpressions: seq<Requirement>)

  predicate MeetsRequirement(r: Requirement, labels: Labels) {
    match r.operator
    case In => r.key in labels && labels[r.key] in r.values
    case NotIn => r.key in labels ==> labels[r.key] !in r.values
    case Exists => r.key in labels
    case DoesNotExist => r.key !in labels
  }

  /** Exists asks for the key, In for one of the values under it; the other two are their negations. */
  lemma OperatorsMean(k: string, values: seq<string>, labels: Labels)
    ensures MeetsRequirement(Requirement(k, Exists, values), labels) <==> k in labels
    ensures MeetsRequirement(Requirement(k, In, values), labels) <==>
            exists i :: 0 <= i < |values| && k in labels && labels[k] == values[i]
    ensures MeetsRequirement(Requirement(k, NotIn, values), labels) <==>
            !MeetsRequirement(Requirement(k, In, values), labels)
    ensures MeetsRequirement(Requirement(k, DoesNotExist, values), labels) <==>
            !MeetsRequirement(Requirement(k, Exists, values), labels)
  {
  }

  ghost predicate HasLabel(labels: Labels, k: string, v: string) {
    k in labels && labels[k] == v
  }

  ghost predicate HasAll(labels: Labels, m: Labels) {
    forall k :: k in m ==> HasLabel(labels, k, m[k])
  }

  ghost predicate Selects(s: Selector, labels: Labels) {
    && HasAll(labels, s.matchLabels)
    && (forall i :: 0 <= i < |s.matchExpressions| ==> MeetsRequirement(s.matchExpressions[i], labels))
  }

  // ---------- rewriting ----------

  /** Where a name goes on its own. */
  function NameTo(rs: Rules, action: Action, name: string): string {
    Rewrite(rs, action, name, "").0
  }

  /** The first new name any of the values leads to. */
  function FirstNewName(rs: Rules, action: Action, name: string, values: seq<string>): string {
    if values == [] then name
    else
      var n := Rewrite(rs, action, name, values[0]).0;
      if n != name then n else FirstNewName(rs, action, name, values[1..])
  }

  method RewriteNameValues(rs: Rules, name: string, values: seq<string>, action: Action)
    returns (rwrName: string, rwrValues: seq<string>)
    ensures values == [] ==> rwrName == NameTo(rs, action, name)
    ensures values != [] ==> rwrName == FirstNewName(rs, action, name, values)
    ensures |rwrValues| == |values|
    ensures forall i :: 0 <= i < |values| ==> rwrValues[i] == Rewrite(rs, action, name, values[i]).1
  {
    if |values| == 0 {
      return NameTo(rs, action, name), values;
    }
    rwrName, rwrValues := name, [];
    for i := 0 to |values|
      invariant |rwrValues| == i
      invariant forall j :: 0 <= j < i ==> rwrValues[j] == Rewrite(rs, action, name, values[j]).1
      invariant FirstNewName(rs, action, name, values) ==
                if rwrName == name then FirstNewName(rs, action, name, values[i..]) else rwrName
    {
      assert values[i..][1..] == values[i + 1..];
      var (n, v) := Rewrite(rs, action, name, values[i]);
      if n != name && rwrName == name {
        rwrName := n;
      }
      rwrValues := rwrValues + [v];
    }
  }

  function RewriteRequirement(rs: Rules, r: Requirement): Requirement {
    Requirement(
      if r.values == [] then NameTo(rs, ToServer, r.key) else FirstNewName(rs, ToServer, r.key, r.values),
      r.operator,
      seq(|r.values|, i requires 0 <= i < |r.values| => Rename(rs, r.key, r.values[i]).1))
  }

  ghost predicate IsRewrittenSelector(rs: Rules, s: Selector, s': Selector) {
    && IsRewrite(rs, ToServer, s.matchLabels, s'.matchLabels)
    && |s'.matchExpressions| == |s.matchExpressions|
    && forall i :: 0 <= i < |s.matchExpressions| ==>
                     s'.matchExpressions[i] == RewriteRequirement(rs, s.matchExpressions[i])
  }

  method RewriteLabelSelector(rs: Rules, s: Selector) returns (s': Selector)
    ensures IsRewrittenSelector(rs, s, s')
  {
    var matchLabels := RewriteMap(rs, s.matchLabels, ToServer);
    var expressions: seq<Requirement> := [];
    for i := 0 to |s.matchExpressions|
      invariant |expressions| == i
      invariant forall j :: 0 <= j < i ==> expressions[j] == RewriteRequirement(rs, s.matchExpressions[j])
    {
      var expr := s.matchExpressions[i];
      var key, values := RewriteNameValues(rs, expr.key, expr.values, ToServer);
      assert values == RewriteRequirement(rs, expr).values;
      expressions := expressions + [expr.(key := key, values := values)];
    }
    s' := Selector(matchLabels, expressions);
  }

  // ---------- labels a client may use ----------

  /** Originals and renameds are kept apart, exactly and under prefixes. */
  ghost predicate Disjoint(rs: Rules) {
    && (forall r, r' :: r in rs.names && r' in rs.names ==> r.renamed != r'.original)
    && (forall p, p' :: p in rs.prefixes && p' in rs.prefixes ==> p.renamed != p'.original)
    && (forall r, p :: r in rs.names && p in rs.prefixes && '/' in r.renamed ==> Cut(r.renamed, '/').0 != p.original)
    && (forall r, p :: r in rs.names && p in rs.prefixes && '/' in r.original ==> Cut(r.original, '/').0 != p.renamed)
  }

  /** Rules under which both directions can be undone. */
  ghost predicate Sound(rs: Rules) {
    WellFormed(rs, Original) && WellFormed(rs, Renamed) && Disjoint(rs)
  }

  /** No name is both renamed and original, whatever its values. */
  lemma SidesApart(rs: Rules, name: string, value: string, value': string)
    requires Disjoint(rs) && Touches(rs, Renamed, name, value)
    ensures !Touches(rs, Original, name, value')
  {
    var h :| Hits(rs, Renamed, name, value, h);
    if h' :| Hits(rs, Original, name, value', h') {
      assert false;
    }
  }

  /** What rules are for: the original becomes the renamed on the way to the server, and comes back as it was. */
  lemma RulesAreApplied(rs: Rules, r: Rule, v: string)
    requires Sound(rs) && r in rs.names
    ensures r.ValueSpecific() ==>
              && Rename(rs, r.original, r.originalValue) == (r.renamed, r.renamedValue)
              && Restore(rs, r.renamed, r.renamedValue) == (r.original, r.originalValue)
              && Restore(rs, r.original, r.originalValue) == ("preserved-original-" + r.original, r.originalValue)
    ensures !r.ValueSpecific() ==>
              && Rename(rs, r.original, v) == (r.renamed, v) && Restore(rs, r.renamed, v) == (r.original, v)
              && Restore(rs, r.original, v) == ("preserved-original-" + r.original, v)
  {
    assert PlainName(NameAt(r, Original)) && PlainName(NameAt(r, Renamed));
    if r.ValueSpecific() {
      HitApplied(rs, r.original, r.originalValue, ByValue(r));
    } else {
      HitApplied(rs, r.original, v, ByName(r));
    }
  }

  /** The same under a prefix, whatever follows it. */
  lemma PrefixesAreApplied(rs: Rules, p: Rule, rest: string, v: string)
    requires Sound(rs) && p in rs.prefixes && !p.ValueSpecific() && PlainName(rest)
    ensures Rename(rs, p.original + "/" + rest, v) == (p.renamed + "/" + rest, v)
    ensures Restore(rs, p.renamed + "/" + rest, v) == (p.original + "/" + rest, v)
    ensures Restore(rs, p.original + "/" + rest, v) == ("preserved-original-" + p.original + "/" + rest, v)
  {
    assert PlainName(NameAt(p, Original)) && PlainName(NameAt(p, Renamed));
    assert '/' !in NameAt(p, Original) && '/' !in NameAt(p, Renamed);
    CutFirst(p.original, '/', rest);
    CutFirst(p.renamed, '/', rest);
    HitApplied(rs, p.original + "/" + rest, v, ByPrefix(p));
    assert "preserved-original-" + (p.original + "/" + rest) == "preserved-original-" + p.original + "/" + rest;
  }

  /** A hit on an original is what renaming does, restoring undoes it, and the original itself is escaped. */
  lemma HitApplied(rs: Rules, name: string, value: string, h: Hit)
    requires Sound(rs) && PlainName(name) && Hits(rs, Original, name, value, h)
    ensures var (n, w) := Landing(h, Original, name, value);
            && Rename(rs, name, value) == (n, w)
            && Restore(rs, n, w) == Landing(h, Renamed, n, w)
            && Restore(rs, name, value) == (PRESERVED + name, value)
  {
    var (n, w) := Landing(h, Original, name, value);
    HitNotPreserved(rs, Original, name, value, h);
    RenameByRules(rs, name, value);
    var g :| Hits(rs, Original, name, value, g) && Rename(rs, name, value) == Landing(g, Original, name, value);
    OneRulePerName(rs, Original, name, value, h, value, g);
    LandingIsHit(rs, Original, name, value, h);
    SidesApart(rs, n, w, w);
    RestoreByRules(rs, n, w);
    var g' :| Hits(rs, Renamed, n, w, g') && Restore(rs, n, w) == Landing(g', Renamed, n, w);
    OneRulePerName(rs, Renamed, n, w, h, w, g');
    RestoreByRules(rs, name, value);
  }

  /** Labels no rule is about pass unchanged, and an escaped name loses its escape. */
  lemma OthersPass(rs: Rules, n: string, v: string)
    requires Sound(rs) && PlainName(n)
    ensures Untouched(rs, n, v) ==> Restore(rs, n, v) == (n, v)
    ensures Untouched(rs, n, v) && !IsPreserved(n) ==> Rename(rs, n, v) == (n, v)
    ensures Rename(rs, "preserved-original-" + n, v) == (n, v)
  {
    RestoreByRules(rs, n, v);
    RenameByRules(rs, n, v);
    assert TrimPrefix(PRESERVED + n, PRESERVED) == n;
  }

  /** A label the client can have seen: an escaped original, or anything a rule does not rename away. */
  ghost predicate ClientLabel(rs: Rules, k: string, v: string) {
    if IsPreserved(k) then Touches(rs, Original, TrimPrefix(k, PRESERVED), v) else !Touches(rs, Renamed, k, v)
  }

  lemma RestoreUndoesRename(rs: Rules, k: string, v: string)
    requires Sound(rs) && PlainName(k) && ClientLabel(rs, k, v)
    ensures var (n, w) := Rename(rs, k, v); ServerName(n) && Restore(rs, n, w) == (k, v)
  {
    RenameByRules(rs, k, v);
    if IsPreserved(k) {
      var n := TrimPrefix(k, PRESERVED);
      assert PRESERVED + n == k;
      var h :| Hits(rs, Original, n, v, h);
      HitNotPreserved(rs, Original, n, v, h);
      RestoreByRules(rs, n, v);
    } else if Touches(rs, Original, k, v) {
      LookupExactly(rs, Original, k, v);
      LookupBack(rs, Original, k, v);
      var h := HitOf(rs, Original, k, v);
      LandingIsHit(rs, Original, k, v, h);
      var (n, w) := Landing(h, Original, k, v);
      SidesApart(rs, n, w, w);
      LookupExactly(rs, Original, n, w);
    } else {
      RestoreByRules(rs, k, v);
    }
  }

  lemma LandingIsClientLabel(rs: Rules, n: string, w: string, h: Hit)
    requires Sound(rs) && PlainName(n) && Hits(rs, Renamed, n, w, h)
    ensures var (k, v) := Landing(h, Renamed, n, w); PlainName(k) && ClientLabel(rs, k, v)
  {
    var (k, v) := Landing(h, Renamed, n, w);
    LandingIsHit(rs, Renamed, n, w, h);
    HitNotPreserved(rs, Original, k, v, h);
    if Touches(rs, Renamed, k, v) {
      SidesApart(rs, k, v, v);
    }
  }

  lemma EscapedIsClientLabel(rs: Rules, n: string, w: string)
    requires PlainName(n) && Touches(rs, Original, n, w)
    ensures PlainName(PRESERVED + n) && ClientLabel(rs, PRESERVED + n, w)
  {
    assert IsPreserved(PRESERVED + n) && TrimPrefix(PRESERVED + n, PRESERVED) == n;
  }

  lemma RestoredIsClientLabel(rs: Rules, n: string, w: string)
    requires Sound(rs) && ServerName(n)
    ensures var (k, v) := Restore(rs, n, w); PlainName(k) && ClientLabel(rs, k, v)
  {
    RestoreByRules(rs, n, w);
    if Touches(rs, Original, n, w) {
      EscapedIsClientLabel(rs, n, w);
    } else if Touches(rs, Renamed, n, w) {
      var h :| Hits(rs, Renamed, n, w, h) && Restore(rs, n, w) == Landing(h, Renamed, n, w);
      LandingIsClientLabel(rs, n, w, h);
    } else {
      assert ClientLabel(rs, n, w);
    }
  }

  /** Client labels are exactly what restoring produces. */
  lemma ClientLabelsAreRestored(rs: Rules, k: string, v: string)
    requires Sound(rs) && PlainName(k)
    ensures ClientLabel(rs, k, v) <==> exists n, w :: ServerName(n) && Restore(rs, n, w) == (k, v)
  {
    if ClientLabel(rs, k, v) {
      RestoreUndoesRename(rs, k, v);
    }
    if n, w :| ServerName(n) && Restore(rs, n, w) == (k, v) {
      RestoredIsClientLabel(rs, n, w);
    }
  }

  // ---------- meaning is preserved ----------

  /** A server object and what the client is shown of it, with nothing lost on the way. */
  ghost predicate Shown(rs: Rules, server: Labels, client: Labels) {
    ServerLabels(server) && NoClash(rs, server) && IsRewrite(rs, ToClient, server, client)
  }

  /** What the client is shown, the server has: the renamed label is on the server object. */
  lemma ShownIsStored(rs: Rules, server: Labels, client: Labels, k: string)
    requires Sound(rs) && ServerLabels(server) && IsRewrite(rs, ToClient, server, client) && k in client
    ensures var (n, w) := Rename(rs, k, client[k]); HasLabel(server, n, w) && Restore(rs, n, w) == (k, client[k])
  {
    var n := RestoredEntry(rs, server, client, k);
  }

  /** What the server has, the client is shown. */
  lemma StoredIsShown(rs: Rules, server: Labels, client: Labels, n: string)
    requires Sound(rs) && Shown(rs, server, client) && n in server
    ensures var (k, v) := Restore(rs, n, server[n]); HasLabel(client, k, v)
  {
    NoCollisionExactly(rs, server);
    AllSurviveExactly(rs, server, client);
    assert HasKey(server, n) && Survives(rs, server, client, n);
  }

  /** A label is on the object the client sees exactly when its renaming is on the server object. */
  lemma LabelCorresponds(rs: Rules, server: Labels, client: Labels, k: string, v: string)
    requires Sound(rs) && Shown(rs, server, client) && PlainName(k) && ClientLabel(rs, k, v)
    ensures var (n, w) := Rename(rs, k, v); HasLabel(client, k, v) <==> HasLabel(server, n, w)
  {
    RestoreUndoesRename(rs, k, v);
    var (n, w) := Rename(rs, k, v);
    if HasLabel(client, k, v) {
      ShownIsStored(rs, server, client, k);
    }
    if HasLabel(server, n, w) {
      StoredIsShown(rs, server, client, n);
    }
  }
}
