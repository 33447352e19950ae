/**
 Renaming of label, annotation and finalizer names between the client's view and the
 server's. `Restore` goes server to client, `Rename` client to server; a server name
 that already looks like a client name is escaped with a "preserved" prefix.
 */
module NameRewriter {
  import opened Common
  import opened GoStrings

  const PRESERVED := "preserved-original-"

  datatype Rule = Rule(original: string, renamed: string, originalValue: string, renamedValue: string) {
    predicate ValueSpecific() {
      originalValue != "" && renamedValue != ""
    }
  }

  /** Which end of a rule is looked up. */
  datatype Side = Original | Renamed {
    function Other(): Side {
      if Original? then Renamed else Original
    }
  }

  function JoinKV(name: string, value: string): string {
    name + "=" + value
  }

  function SplitKV(s: string): (string, string) {
    var c := Cut(s, '=');
    (c.0, c.1)
  }

  function NameAt(r: Rule, side: Side): string {
    if side.Original? then r.original else r.renamed
  }

  function ValueAt(r: Rule, side: Side): string {
    if side.Original? then r.originalValue else r.renamedValue
  }

  /** How a rule is keyed in an index: by name, or by name and value when it is value-specific. */
  function KeyAt(r: Rule, side: Side): string {
    if r.ValueSpecific() then JoinKV(NameAt(r, side), ValueAt(r, side)) else NameAt(r, side)
  }

  // ---------- indices ----------

  /** The index over `rules` from one side to the other; a later rule wins. */
  function Index(rules: seq<Rule>, from: Side): map<string, string> {
    if rules == [] then map[]
    else
      var r := rules[|rules| - 1];
      Index(rules[..|rules| - 1], from)[KeyAt(r, from) := KeyAt(r, from.Other())]
  }

  method IndexRules(rules: seq<Rule>) returns (idx: map<string, string>)
    ensures idx == Index(rules, Original)
  {
    idx := map[];
    for i := 0 to |rules|
      invariant idx == Index(rules[..i], Original)
    {
      var rule := rules[i];
      assert rules[..i + 1][..i] == rules[..i];
      if rule.originalValue != "" && rule.renamedValue != "" {
        var idxKey := JoinKV(rule.original, rule.originalValue);
        idx := idx[idxKey := rule.renamed + "=" + rule.renamedValue];
        continue;
      }
      idx := idx[rule.original := rule.renamed];
    }
    assert rules[..|rules|] == rules;
  }

  method IndexRulesReverse(rules: seq<Rule>) returns (idx: map<string, string>)
    ensures idx == Index(rules, Renamed)
  {
    idx := map[];
    for i := 0 to |rules|
      invariant idx == Index(rules[..i], Renamed)
    {
      var rule := rules[i];
      assert rules[..i + 1][..i] == rules[..i];
      if rule.originalValue != "" && rule.renamedValue != "" {
        var idxKey := JoinKV(rule.renamed, rule.renamedValue);
        idx := idx[idxKey := rule.original + "=" + rule.originalValue];
        continue;
      }
      idx := idx[rule.renamed := rule.original];
    }
    assert rules[..|rules|] == rules;
  }

  ghost predicate DistinctKeys(rules: seq<Rule>) {
    forall i, j, side :: 0 <= i < j < |rules| ==> KeyAt(rules[i], side) != KeyAt(rules[j], side)
  }

  /** A hit in an index is a rule. */
  lemma {:induction false} IndexHit(rules: seq<Rule>, from: Side, key: string) returns (i: nat)
    requires key in Index(rules, from)
    ensures i < |rules| && KeyAt(rules[i], from) == key && Index(rules, from)[key] == KeyAt(rules[i], from.Other())
  {
    var last := |rules| - 1;
    if KeyAt(rules[last], from) == key {
      i := last;
    } else {
      i := IndexHit(rules[..last], from, key);
    }
  }

  /** A rule is a hit when no later rule has its key: the later rule wins. */
  lemma {:induction false} LaterRuleWins(rules: seq<Rule>, from: Side, i: nat)
    requires i < |rules| && forall j :: i < j < |rules| ==> KeyAt(rules[j], from) != KeyAt(rules[i], from)
    ensures KeyAt(rules[i], from) in Index(rules, from)
    ensures Index(rules, from)[KeyAt(rules[i], from)] == KeyAt(rules[i], from.Other())
  {
    var last := |rules| - 1;
    if i < last {
      LaterRuleWins(rules[..last], from, i);
    }
  }

  /** With distinct keys every rule is a hit. */
  lemma RuleIndexed(rules: seq<Rule>, from: Side, i: nat)
    requires DistinctKeys(rules) && i < |rules|
    ensures KeyAt(rules[i], from) in Index(rules, from)
    ensures Index(rules, from)[KeyAt(rules[i], from)] == KeyAt(rules[i], from.Other())
  {
    LaterRuleWins(rules, from, i);
  }

  // ---------- rewriting one name ----------

  datatype Rules = Rules(names: seq<Rule>, prefixes: seq<Rule>)

  /** First name and value, then the exact name, then the prefix before the slash. */
  function Lookup(rs: Rules, from: Side, name: string, value: string): Option<(string, string)> {
    var names, prefixes := Index(rs.names, from), Index(rs.prefixes, from);
    if value != "" && JoinKV(name, value) in names then Some(SplitKV(names[JoinKV(name, value)]))
    else if name in names then Some((names[name], value))
    else
      var (prefix, remainder, found) := Cut(name, '/');
      if found && prefix in prefixes then Some((prefixes[prefix] + "/" + remainder, value)) else None
  }

  predicate IsPreserved(name: string) {
    HasPrefix(name, PRESERVED)
  }

  predicate IsOriginal(rs: Rules, name: string, value: string) {
    Lookup(rs, Original, name, value).Some?
  }

  function Rename(rs: Rules, name: string, value: string): (string, string) {
    if IsPreserved(name) then (TrimPrefix(name, PRESERVED), value)
    else
      var hit := Lookup(rs, Original, name, value);
      if hit.Some? then hit.value else (name, value)
  }

  function Restore(rs: Rules, name: string, value: string): (string, string) {
    if IsOriginal(rs, name, value) then (PRESERVED + name, value)
    else
      var hit := Lookup(rs, Renamed, name, value);
      if hit.Some? then hit.value else (name, value)
  }

  // ---------- rules that can be undone ----------

  /** A Kubernetes name carries no '='; a prefix no '/' either. */
  ghost predicate PlainName(name: string) {
    '=' !in name
  }

  ghost predicate PlainRules(rs: Rules) {
    && (forall r, side :: r in rs.names ==> PlainName(NameAt(r, side)))
    && (forall r, side :: r in rs.prefixes ==> PlainName(NameAt(r, side)) && '/' !in NameAt(r, side))
  }

  /** No name of an exact rule lies under a rewritten prefix of the same side. */
  ghost predicate NoneUnderPrefix(rs: Rules, side: Side) {
    forall r, p :: r in rs.names && p in rs.prefixes && !p.ValueSpecific() ==>
                     Cut(NameAt(r, side), '/').0 != NameAt(p, side) || '/' !in NameAt(r, side)
  }

  ghost predicate NoOverlap(rs: Rules, side: Side) {
    forall r, r' :: r in rs.names && r' in rs.names && r.ValueSpecific() && !r'.ValueSpecific() ==>
                      NameAt(r, side) != NameAt(r', side)
  }

  ghost predicate NonePreserved(rs: Rules, side: Side) {
    && (forall r :: r in rs.names ==> !IsPreserved(NameAt(r, side)))
    && (forall r :: r in rs.prefixes ==> !IsPreserved(NameAt(r, side)))
  }

  /** Rules whose `side` end can be looked up again after rewriting to it. */
  ghost predicate WellFormed(rs: Rules, side: Side) {
    && PlainRules(rs) && DistinctKeys(rs.names) && DistinctKeys(rs.prefixes)
    && NoOverlap(rs, side) && NoneUnderPrefix(rs, side) && NonePreserved(rs, side)
  }

  /** A key with '=' in it comes from a value-specific rule, one without from a plain rule. */
  lemma KeyShape(rs: Rules, i: nat, side: Side)
    requires PlainRules(rs) && i < |rs.names|
    ensures '=' in KeyAt(rs.names[i], side) <==> rs.names[i].ValueSpecific()
    ensures rs.names[i].ValueSpecific() ==>
              SplitKV(KeyAt(rs.names[i], side)) == (NameAt(rs.names[i], side), ValueAt(rs.names[i], side))
  {
    var r := rs.names[i];
    assert r in rs.names && PlainName(NameAt(r, side));
    if r.ValueSpecific() {
      CutFirst(NameAt(r, side), '=', ValueAt(r, side));
      assert KeyAt(r, side)[|NameAt(r, side)|] == '=';
    }
  }

  lemma PreservedHead(head: string, tail: string)
    requires IsPreserved(head + "/" + tail)
    ensures IsPreserved(head)
  {
    var s := head + "/" + tail;
    assert s[|head|] == '/' && '/' !in PRESERVED;
    assert forall k :: 0 <= k < |PRESERVED| ==> PRESERVED[k] == s[k];
    assert |PRESERVED| <= |head|;
    assert head[..|PRESERVED|] == s[..|PRESERVED|];
  }
}
