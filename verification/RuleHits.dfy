/** Which rule answers for a name and a value, read off the rules themselves instead of the indices. */
module RuleHits {
  import opened Common
  import opened GoStrings
  import opened NameRewriter

  /** A rule for the name with this value, for the exact name, or for the prefix of the name. */
  datatype Hit = ByValue(rule: Rule) | ByName(rule: Rule) | ByPrefix(rule: Rule)

  ghost predicate Hits(rs: Rules, side: Side, name: string, value: string, h: Hit) {
    match h
    case ByValue(r) => r in rs.names && r.ValueSpecific() && NameAt(r, side) == name && ValueAt(r, side) == value
    case ByName(r) => r in rs.names && !r.ValueSpecific() && NameAt(r, side) == name
    case ByPrefix(p) => p in rs.prefixes && !p.ValueSpecific() && '/' in name && NameAt(p, side) == Cut(name, '/').0
  }

  /** Some rule is about this name and value. */
  ghost predicate Touches(rs: Rules, side: Side, name: string, value: string) {
    exists h :: Hits(rs, side, name, value, h)
  }

  /** What a hit rewrites the name and value to. */
  function Landing(h: Hit, from: Side, name: string, value: string): (string, string) {
    match h
    case ByValue(r) => (NameAt(r, from.Other()), ValueAt(r, from.Other()))
    case ByName(r) => (NameAt(r, from.Other()), value)
    case ByPrefix(p) => (NameAt(p, from.Other()) + "/" + Cut(name, '/').1, value)
  }

  // ---------- lookups are hits ----------

  lemma HitOf(rs: Rules, from: Side, name: string, value: string) returns (h: Hit)
    requires PlainRules(rs) && PlainName(name) && Lookup(rs, from, name, value).Some?
    ensures Hits(rs, from, name, value, h) && Lookup(rs, from, name, value).value == Landing(h, from, name, value)
  {
    var names := Index(rs.names, from);
    if value != "" && JoinKV(name, value) in names {
      var i := IndexHit(rs.names, from, JoinKV(name, value));
      assert JoinKV(name, value)[|name|] == '=';
      KeyShape(rs, i, from);
      KeyShape(rs, i, from.Other());
      CutFirst(name, '=', value);
      h := ByValue(rs.names[i]);
    } else if name in names {
      var i := IndexHit(rs.names, from, name);
      KeyShape(rs, i, from);
      h := ByName(rs.names[i]);
    } else {
      var prefix := Cut(name, '/').0;
      var i := IndexHit(rs.prefixes, from, prefix);
      var p := rs.prefixes[i];
      assert PlainName(prefix) && JoinKV(NameAt(p, from), ValueAt(p, from))[|NameAt(p, from)|] == '=';
      h := ByPrefix(p);
    }
  }

  lemma HitIsFound(rs: Rules, from: Side, name: string, value: string, h: Hit)
    requires DistinctKeys(rs.names) && DistinctKeys(rs.prefixes) && Hits(rs, from, name, value, h)
    ensures Lookup(rs, from, name, value).Some?
  {
    if h.ByPrefix? {
      var i :| 0 <= i < |rs.prefixes| && rs.prefixes[i] == h.rule;
      RuleIndexed(rs.prefixes, from, i);
    } else {
      var i :| 0 <= i < |rs.names| && rs.names[i] == h.rule;
      RuleIndexed(rs.names, from, i);
    }
  }

  /** A value-specific rule wins over the others. */
  lemma ValueHitWins(rs: Rules, from: Side, name: string, value: string, r: Rule)
    requires PlainRules(rs) && DistinctKeys(rs.names) && Hits(rs, from, name, value, ByValue(r))
    ensures Lookup(rs, from, name, value) == Some(Landing(ByValue(r), from, name, value))
  {
    var i :| 0 <= i < |rs.names| && rs.names[i] == r;
    RuleIndexed(rs.names, from, i);
    KeyShape(rs, i, from.Other());
  }

  /** The indices answer exactly when some rule is about the name and value. */
  lemma LookupExactly(rs: Rules, from: Side, name: string, value: string)
    requires PlainRules(rs) && DistinctKeys(rs.names) && DistinctKeys(rs.prefixes) && PlainName(name)
    ensures Lookup(rs, from, name, value).Some? <==> Touches(rs, from, name, value)
  {
    if Lookup(rs, from, name, value).Some? {
      var h := HitOf(rs, from, name, value);
    }
    if h :| Hits(rs, from, name, value, h) {
      HitIsFound(rs, from, name, value, h);
    }
  }

  // ---------- how hits relate ----------

  /** A hit can be seen from its landing, too. */
  lemma LandingIsHit(rs: Rules, from: Side, name: string, value: string, h: Hit)
    requires PlainRules(rs) && PlainName(name) && Hits(rs, from, name, value, h)
    ensures var (n, v) := Landing(h, from, name, value); PlainName(n) && Hits(rs, from.Other(), n, v, h)
  {
    if h.ByPrefix? {
      CutFirst(NameAt(h.rule, from.Other()), '/', Cut(name, '/').1);
    }
  }

  lemma SameKey(rules: seq<Rule>, side: Side, r: Rule, r': Rule)
    requires DistinctKeys(rules) && r in rules && r' in rules && KeyAt(r, side) == KeyAt(r', side)
    ensures r == r'
  {
    var i :| 0 <= i < |rules| && rules[i] == r;
    var j :| 0 <= j < |rules| && rules[j] == r';
    assert i < j ==> KeyAt(rules[i], side) != KeyAt(rules[j], side);
    assert j < i ==> KeyAt(rules[j], side) != KeyAt(rules[i], side);
  }

  /** One name is hit by one rule, or by value-specific rules only. */
  lemma OneRulePerName(rs: Rules, side: Side, name: string, value: string, h: Hit, value': string, h': Hit)
    requires WellFormed(rs, side) && Hits(rs, side, name, value, h) && Hits(rs, side, name, value', h')
    ensures h == h' || (h.ByValue? && h'.ByValue?)
    ensures value == value' ==> h == h'
  {
    if h.ByPrefix? && h'.ByPrefix? {
      SameKey(rs.prefixes, side, h.rule, h'.rule);
    } else if !h.ByPrefix? && !h'.ByPrefix? && (h.ByName? || value == value') {
      SameKey(rs.names, side, h.rule, h'.rule);
    }
  }

  /** Two names land on one only through value-specific rules. */
  lemma SameLanding(rs: Rules, from: Side, name: string, value: string, h: Hit, name': string, value': string, h': Hit)
    requires WellFormed(rs, from.Other()) && PlainName(name) && PlainName(name')
    requires Hits(rs, from, name, value, h) && Hits(rs, from, name', value', h')
    requires Landing(h, from, name, value).0 == Landing(h', from, name', value').0
    ensures name == name' || (h.ByValue? && h'.ByValue?)
  {
    var (n, v) := Landing(h, from, name, value);
    var (n', v') := Landing(h', from, name', value');
    LandingIsHit(rs, from, name, value, h);
    LandingIsHit(rs, from, name', value', h');
    OneRulePerName(rs, from.Other(), n, v, h, v', h');
    if h.ByPrefix? {
      CutFirst(NameAt(h.rule, from.Other()), '/', Cut(name, '/').1);
      CutFirst(NameAt(h.rule, from.Other()), '/', Cut(name', '/').1);
      assert name == Cut(name, '/').0 + "/" + Cut(name, '/').1;
      assert name' == Cut(name', '/').0 + "/" + Cut(name', '/').1;
    }
  }

  /** A name no rule is about with its value is landed on only through a value-specific rule. */
  lemma LandingUntouched(rs: Rules, from: Side, name: string, value: string, h: Hit, value': string)
    requires PlainRules(rs) && PlainName(name) && Hits(rs, from, name, value, h)
    requires !Touches(rs, from.Other(), Landing(h, from, name, value).0, value')
    ensures h.ByValue?
  {
    LandingIsHit(rs, from, name, value, h);
    if !h.ByValue? {
      assert Hits(rs, from.Other(), Landing(h, from, name, value).0, value', h);
    }
  }

  /** Hits are never on escaped names. */
  lemma HitNotPreserved(rs: Rules, side: Side, name: string, value: string, h: Hit)
    requires NonePreserved(rs, side) && Hits(rs, side, name, value, h)
    ensures !IsPreserved(name)
  {
    if h.ByPrefix? && IsPreserved(name) {
      assert name == Cut(name, '/').0 + "/" + Cut(name, '/').1;
      PreservedHead(Cut(name, '/').0, Cut(name, '/').1);
    }
  }

  // ---------- the round trip ----------

  /** Looking up the other end of a hit gives the name and value back. */
  lemma LookupBack(rs: Rules, from: Side, name: string, value: string)
    requires WellFormed(rs, from.Other()) && PlainName(name) && Lookup(rs, from, name, value).Some?
    ensures var (n, v) := Lookup(rs, from, name, value).value;
            Lookup(rs, from.Other(), n, v) == Some((name, value)) && !IsPreserved(n)
  {
    var h := HitOf(rs, from, name, value);
    var (n, v) := Landing(h, from, name, value);
    LandingIsHit(rs, from, name, value, h);
    HitIsFound(rs, from.Other(), n, v, h);
    var back := HitOf(rs, from.Other(), n, v);
    OneRulePerName(rs, from.Other(), n, v, h, v, back);
    HitNotPreserved(rs, from.Other(), n, v, h);
    if h.ByPrefix? {
      CutFirst(NameAt(h.rule, from.Other()), '/', Cut(name, '/').1);
      assert name == Cut(name, '/').0 + "/" + Cut(name, '/').1;
    }
  }

  /** What the client sees, sent back, is what the server had. */
  lemma RenameUndoesRestore(rs: Rules, name: string, value: string)
    requires WellFormed(rs, Original) && PlainName(name) && !IsPreserved(name)
    ensures var (n, v) := Restore(rs, name, value); Rename(rs, n, v) == (name, value)
  {
    if IsOriginal(rs, name, value) {
      assert TrimPrefix(PRESERVED + name, PRESERVED) == name;
    } else if Lookup(rs, Renamed, name, value).Some? {
      LookupBack(rs, Renamed, name, value);
    }
  }

  // ---------- renaming and restoring, rule by rule ----------

  lemma RestoreByRules(rs: Rules, name: string, value: string)
    requires WellFormed(rs, Original) && PlainName(name)
    ensures Touches(rs, Original, name, value) ==> Restore(rs, name, value) == (PRESERVED + name, value)
    ensures !Touches(rs, Original, name, value) && !Touches(rs, Renamed, name, value) ==>
              Restore(rs, name, value) == (name, value)
    ensures !Touches(rs, Original, name, value) && Touches(rs, Renamed, name, value) ==>
              exists h :: Hits(rs, Renamed, name, value, h)
                          && Restore(rs, name, value) == Landing(h, Renamed, name, value)
  {
    LookupExactly(rs, Original, name, value);
    LookupExactly(rs, Renamed, name, value);
    if Lookup(rs, Renamed, name, value).Some? {
      var h := HitOf(rs, Renamed, name, value);
    }
  }

  lemma RenameByRules(rs: Rules, name: string, value: string)
    requires WellFormed(rs, Original) && PlainName(name)
    ensures IsPreserved(name) ==> Rename(rs, name, value) == (TrimPrefix(name, PRESERVED), value)
    ensures !IsPreserved(name) && !Touches(rs, Original, name, value) ==> Rename(rs, name, value) == (name, value)
    ensures !IsPreserved(name) && Touches(rs, Original, name, value) ==>
              exists h :: Hits(rs, Original, name, value, h)
                          && Rename(rs, name, value) == Landing(h, Original, name, value)
  {
    LookupExactly(rs, Original, name, value);
    if Lookup(rs, Original, name, value).Some? {
      var h := HitOf(rs, Original, name, value);
    }
  }
}
