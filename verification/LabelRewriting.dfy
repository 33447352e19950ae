/** Rewriting whole label maps, and exactly when one survives the way to the client and back. */
module LabelRewriting {
  import opened Common
  import opened GoStrings
  import opened NameRewriter
  import opened RuleHits

  datatype Action = ToServer | ToClient

  function Rewrite(rs: Rules, action: Action, name: string, value: string): (string, string) {
    match action
    case ToServer => Rename(rs, name, value)
    case ToClient => Restore(rs, name, value)
  }

  type Labels = map<string, string>

  /** r is what rewriting m may give: entries that collide on a name overwrite each other in any order. */
  ghost predicate IsRewrite(rs: Rules, action: Action, m: Labels, r: Labels) {
    && (forall n {:trigger HasKey(m, n)} :: HasKey(m, n) ==> Rewrite(rs, action, n, m[n]).0 in r)
    && (forall k {:trigger HasKey(r, k)} :: HasKey(r, k) ==>
          exists n :: HasKey(m, n) && Rewrite(rs, action, n, m[n]) == (k, r[k]))
  }

  method RewriteMap(rs: Rules, names: Labels, action: Action) returns (result: Labels)
    ensures IsRewrite(rs, action, names, result)
  {
    result := map[];
    var todo := names.Keys;
    while todo != {}
      invariant todo <= names.Keys
      invariant forall n :: n in names && n !in todo ==> Rewrite(rs, action, n, names[n]).0 in result
      invariant forall k :: HasKey(result, k) ==>
                  exists n :: HasKey(names, n) && Rewrite(rs, action, n, names[n]) == (k, result[k])
      decreases |todo|
    {
      var name :| name in todo;
      assert HasKey(names, name);
      var (rwrName, rwrValue) := Rewrite(rs, action, name, names[name]);
      assert forall k :: HasKey(result[rwrName := rwrValue], k) ==> k == rwrName || HasKey(result, k);
      result := result[rwrName := rwrValue];
      todo := todo - {name};
    }
  }

  /** A label name as the API server stores it: not carrying the escape prefix. */
  ghost predicate ServerName(name: string) {
    PlainName(name) && !IsPreserved(name)
  }

  ghost predicate ServerLabels(m: Labels) {
    forall n :: n in m ==> ServerName(n)
  }

  // ---------- what survives restoring ----------

  /** No two labels of the map are restored to one name. */
  ghost predicate NoCollision(rs: Rules, m: Labels) {
    forall n, n' :: HasKey(m, n) && HasKey(m, n') && n != n' ==> Restore(rs, n, m[n]).0 != Restore(rs, n', m[n']).0
  }

  /** Every restored entry, renamed, is the server entry it came from. */
  lemma RestoredEntry(rs: Rules, m: Labels, restored: Labels, k: string) returns (n: string)
    requires WellFormed(rs, Original) && ServerLabels(m) && IsRewrite(rs, ToClient, m, restored) && k in restored
    ensures n in m && Restore(rs, n, m[n]) == (k, restored[k]) && Rename(rs, k, restored[k]) == (n, m[n])
  {
    assert HasKey(restored, k);
    n :| HasKey(m, n) && Rewrite(rs, ToClient, n, m[n]) == (k, restored[k]);
    RenameUndoesRestore(rs, n, m[n]);
  }

  /** The entry of m at n is the one kept under its restored name. */
  ghost predicate Survives(rs: Rules, m: Labels, restored: Labels, n: string) {
    n in m && var (k, v) := Restore(rs, n, m[n]); k in restored && restored[k] == v
  }

  /** A server entry comes back exactly when it survived. */
  lemma EntryReturns(rs: Rules, m: Labels, restored: Labels, renamed: Labels, n: string)
    requires WellFormed(rs, Original) && ServerLabels(m)
    requires IsRewrite(rs, ToClient, m, restored) && IsRewrite(rs, ToServer, restored, renamed)
    ensures n in renamed <==> Survives(rs, m, restored, n)
    ensures n in renamed ==> renamed[n] == m[n]
  {
    if n in renamed {
      assert HasKey(renamed, n);
      var k :| HasKey(restored, k) && Rewrite(rs, ToServer, k, restored[k]) == (n, renamed[n]);
      var n' := RestoredEntry(rs, m, restored, k);
    }
    if Survives(rs, m, restored, n) {
      assert HasKey(restored, Restore(rs, n, m[n]).0);
      RenameUndoesRestore(rs, n, m[n]);
    }
  }

  /** Of the labels restored to one name exactly one survives. */
  lemma OneSurvivor(rs: Rules, m: Labels, restored: Labels, n: string) returns (kept: string)
    requires WellFormed(rs, Original) && ServerLabels(m) && IsRewrite(rs, ToClient, m, restored) && n in m
    ensures Survives(rs, m, restored, kept) && Restore(rs, kept, m[kept]).0 == Restore(rs, n, m[n]).0
    ensures Survives(rs, m, restored, n) ==> kept == n
  {
    assert HasKey(m, n);
    kept := RestoredEntry(rs, m, restored, Restore(rs, n, m[n]).0);
    RenameUndoesRestore(rs, n, m[n]);
  }

  lemma AllSurviveExactly(rs: Rules, m: Labels, restored: Labels)
    requires WellFormed(rs, Original) && ServerLabels(m) && IsRewrite(rs, ToClient, m, restored)
    ensures (forall n :: HasKey(m, n) ==> Survives(rs, m, restored, n)) <==> NoCollision(rs, m)
  {
    forall n | HasKey(m, n) && NoCollision(rs, m) ensures Survives(rs, m, restored, n) {
      var kept := OneSurvivor(rs, m, restored, n);
      assert HasKey(m, kept);
    }
    forall n, n' | Survives(rs, m, restored, n) && Survives(rs, m, restored, n')
                   && Restore(rs, n, m[n]).0 == Restore(rs, n', m[n']).0
      ensures n == n'
    {
      RenameUndoesRestore(rs, n, m[n]);
      RenameUndoesRestore(rs, n', m[n']);
    }
  }

  // ---------- which rules and labels clash ----------

  /** The value-specific rule r is what restores the label. */
  ghost predicate RestoredBy(rs: Rules, name: string, value: string, r: Rule) {
    Hits(rs, Renamed, name, value, ByValue(r)) && !Touches(rs, Original, name, value)
  }

  /** No rule is about the label, on either side. */
  ghost predicate Untouched(rs: Rules, name: string, value: string) {
    !Touches(rs, Original, name, value) && !Touches(rs, Renamed, name, value)
  }

  /**
   The label at n is restored by a value-specific rule, and the original name of that rule
   is taken: by another label restored by a value-specific rule with the same original, or
   by a label of that very name that no rule is about.
   */
  ghost predicate Clash(rs: Rules, m: Labels, n: string, n': string)
    requires n in m && n' in m
  {
    n != n' && exists r :: RestoredBy(rs, n, m[n], r)
                           && ((n' == r.original && Untouched(rs, n', m[n']))
                               || exists r' :: RestoredBy(rs, n', m[n'], r') && r'.original == r.original)
  }

  ghost predicate NoClash(rs: Rules, m: Labels) {
    forall n, n' :: HasKey(m, n) && HasKey(m, n') ==> !Clash(rs, m, n, n')
  }

  lemma RestoredByRule(rs: Rules, name: string, value: string, r: Rule)
    requires WellFormed(rs, Original) && PlainName(name) && RestoredBy(rs, name, value, r)
    ensures Restore(rs, name, value) == (r.original, r.originalValue)
  {
    LookupExactly(rs, Original, name, value);
    ValueHitWins(rs, Renamed, name, value, r);
  }

  lemma ClashCollides(rs: Rules, m: Labels, n: string, n': string)
    requires WellFormed(rs, Original) && ServerLabels(m) && n in m && n' in m && Clash(rs, m, n, n')
    ensures Restore(rs, n, m[n]).0 == Restore(rs, n', m[n']).0
  {
    var r :| RestoredBy(rs, n, m[n], r)
             && ((n' == r.original && Untouched(rs, n', m[n']))
                 || exists r' :: RestoredBy(rs, n', m[n'], r') && r'.original == r.original);
    RestoredByRule(rs, n, m[n], r);
    if n' == r.original && Untouched(rs, n', m[n']) {
      RestoreByRules(rs, n', m[n']);
    } else {
      var r' :| RestoredBy(rs, n', m[n'], r') && r'.original == r.original;
      RestoredByRule(rs, n', m[n'], r');
    }
  }

  /** An escaped label shares its name with no other. */
  lemma EscapedIsAlone(rs: Rules, m: Labels, n: string, n': string)
    requires WellFormed(rs, Original) && ServerLabels(m) && n in m && n' in m && Touches(rs, Original, n, m[n])
    requires Restore(rs, n, m[n]).0 == Restore(rs, n', m[n']).0
    ensures n == n'
  {
    RestoreByRules(rs, n, m[n]);
    RestoreByRules(rs, n', m[n']);
    var k := PRESERVED + n;
    assert IsPreserved(k) && TrimPrefix(k, PRESERVED) == n;
    if Touches(rs, Original, n', m[n']) {
      assert TrimPrefix(PRESERVED + n', PRESERVED) == n';
    } else if Touches(rs, Renamed, n', m[n']) {
      LookupExactly(rs, Original, n', m[n']);
      LookupExactly(rs, Renamed, n', m[n']);
      LookupBack(rs, Renamed, n', m[n']);
    }
  }

  lemma CollisionClashes(rs: Rules, m: Labels, n: string, n': string)
    requires WellFormed(rs, Original) && ServerLabels(m) && n in m && n' in m && n != n'
    requires Restore(rs, n, m[n]).0 == Restore(rs, n', m[n']).0
    ensures Clash(rs, m, n, n') || Clash(rs, m, n', n)
  {
    var v, v' := m[n], m[n'];
    if Touches(rs, Original, n, v) {
      EscapedIsAlone(rs, m, n, n');
    } else if Touches(rs, Original, n', v') {
      EscapedIsAlone(rs, m, n', n);
    } else {
      RestoreByRules(rs, n, v);
      RestoreByRules(rs, n', v');
      if Touches(rs, Renamed, n, v) && Touches(rs, Renamed, n', v') {
        var h :| Hits(rs, Renamed, n, v, h) && Restore(rs, n, v) == Landing(h, Renamed, n, v);
        var h' :| Hits(rs, Renamed, n', v', h') && Restore(rs, n', v') == Landing(h', Renamed, n', v');
        SameLanding(rs, Renamed, n, v, h, n', v', h');
        assert RestoredBy(rs, n, v, h.rule) && RestoredBy(rs, n', v', h'.rule);
      } else if Touches(rs, Renamed, n, v) {
        var h :| Hits(rs, Renamed, n, v, h) && Restore(rs, n, v) == Landing(h, Renamed, n, v);
        LandingUntouched(rs, Renamed, n, v, h, v');
        assert RestoredBy(rs, n, v, h.rule);
      } else if Touches(rs, Renamed, n', v') {
        var h' :| Hits(rs, Renamed, n', v', h') && Restore(rs, n', v') == Landing(h', Renamed, n', v');
        LandingUntouched(rs, Renamed, n', v', h', v);
        assert RestoredBy(rs, n', v', h'.rule);
      }
    }
  }

  /** Two labels are restored to one name exactly when they clash. */
  lemma NoCollisionExactly(rs: Rules, m: Labels)
    requires WellFormed(rs, Original) && ServerLabels(m)
    ensures NoCollision(rs, m) <==> NoClash(rs, m)
  {
    forall n, n' | HasKey(m, n) && HasKey(m, n') && Clash(rs, m, n, n') ensures !NoCollision(rs, m) {
      ClashCollides(rs, m, n, n');
    }
    forall n, n' | HasKey(m, n) && HasKey(m, n') && n != n' && Restore(rs, n, m[n]).0 == Restore(rs, n', m[n']).0
      ensures !NoClash(rs, m)
    {
      CollisionClashes(rs, m, n, n');
    }
  }

  /** The label map comes back, for every iteration order, exactly when no two of its labels clash. */
  lemma MapReturnsExactly(rs: Rules, m: Labels, restored: Labels, renamed: Labels)
    requires WellFormed(rs, Original) && ServerLabels(m)
    requires IsRewrite(rs, ToClient, m, restored) && IsRewrite(rs, ToServer, restored, renamed)
    ensures renamed == m <==> NoClash(rs, m)
  {
    NoCollisionExactly(rs, m);
    AllSurviveExactly(rs, m, restored);
    forall n ensures n in renamed <==> Survives(rs, m, restored, n)
             ensures n in renamed ==> renamed[n] == m[n]
    {
      EntryReturns(rs, m, restored, renamed, n);
    }
    assert renamed == m <==> forall n :: HasKey(m, n) ==> Survives(rs, m, restored, n);
  }

  // ---------- without value-specific rules ----------

  ghost predicate NoValueRules(rs: Rules) {
    forall r :: r in rs.names ==> !r.ValueSpecific()
  }

  /** Restoring a label map loses no entry and changes no value. */
  lemma EntryRestored(rs: Rules, m: Labels, restored: Labels, n: string)
    requires WellFormed(rs, Original) && NoValueRules(rs) && ServerLabels(m) && n in m
    requires IsRewrite(rs, ToClient, m, restored)
    ensures var k := Restore(rs, n, m[n]).0; k in restored && restored[k] == m[n]
  {
    NoCollisionExactly(rs, m);
    AllSurviveExactly(rs, m, restored);
    assert HasKey(m, n) && Survives(rs, m, restored, n);
    RestoreByRules(rs, n, m[n]);
  }

  /** Renaming a restored label map gives the map back. */
  lemma RenameMapUndoesRestoreMap(rs: Rules, m: Labels, restored: Labels, renamed: Labels)
    requires WellFormed(rs, Original) && NoValueRules(rs) && ServerLabels(m)
    requires IsRewrite(rs, ToClient, m, restored) && IsRewrite(rs, ToServer, restored, renamed)
    ensures renamed == m
  {
    MapReturnsExactly(rs, m, restored, renamed);
  }

  // ---------- clashes do occur ----------

  const TO_RX := Rule("o", "r", "a", "x")
  const TO_SY := Rule("o", "s", "b", "y")

  /** One rule is enough: the label r=x is restored to the name o, which the label o=c holds already. */
  lemma OneRuleCanLoseEntries()
    ensures var rs, m := Rules([TO_RX], []), map["r" := "x", "o" := "c"];
            && WellFormed(rs, Original) && ServerLabels(m) && Clash(rs, m, "r", "o")
            && Lost(rs, m)
  {
    var rs, m := Rules([TO_RX], []), map["r" := "x", "o" := "c"];
    assert Hits(rs, Renamed, "r", "x", ByValue(TO_RX));
    assert RestoredBy(rs, "r", "x", TO_RX) && Untouched(rs, "o", "c");
    ClashLoses(rs, m, "r", "o");
  }

  /** Two rules with one original name make two renamed labels clash. */
  lemma TwoRulesCanLoseEntries()
    ensures var rs, m := Rules([TO_RX, TO_SY], []), map["r" := "x", "s" := "y"];
            && WellFormed(rs, Original) && ServerLabels(m) && Clash(rs, m, "r", "s")
            && Lost(rs, m)
  {
    var rs, m := Rules([TO_RX, TO_SY], []), map["r" := "x", "s" := "y"];
    SplitRulesAreDistinct();
    assert Hits(rs, Renamed, "r", "x", ByValue(TO_RX)) && Hits(rs, Renamed, "s", "y", ByValue(TO_SY));
    assert RestoredBy(rs, "r", "x", TO_RX) && RestoredBy(rs, "s", "y", TO_SY);
    ClashLoses(rs, m, "r", "s");
  }

  /** The map never comes back. */
  ghost predicate Lost(rs: Rules, m: Labels) {
    forall restored, renamed ::
      IsRewrite(rs, ToClient, m, restored) && IsRewrite(rs, ToServer, restored, renamed) ==> renamed != m
  }

  lemma ClashLoses(rs: Rules, m: Labels, n: string, n': string)
    requires WellFormed(rs, Original) && ServerLabels(m) && n in m && n' in m && Clash(rs, m, n, n')
    ensures Lost(rs, m)
  {
    assert HasKey(m, n) && HasKey(m, n');
    forall restored, renamed | IsRewrite(rs, ToClient, m, restored) && IsRewrite(rs, ToServer, restored, renamed)
      ensures renamed != m
    {
      MapReturnsExactly(rs, m, restored, renamed);
    }
  }

  lemma SplitRulesAreDistinct()
    ensures DistinctKeys([TO_RX, TO_SY])
  {
    assert KeyAt(TO_RX, Original)[2] == 'a' && KeyAt(TO_SY, Original)[2] == 'b';
    assert KeyAt(TO_RX, Renamed)[0] == 'r' && KeyAt(TO_SY, Renamed)[0] == 's';
  }
}
