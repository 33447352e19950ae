/** Equality terms and whole selectors. */
module SelectorMeaning {
  import opened Common
  import opened GoStrings
  import opened NameRewriter
  import opened RuleHits
  import opened LabelRewriting
  import opened LabelSelectors
  import opened SelectorRequirements

  // ---------- equality terms ----------

  ghost predicate ClientLabels(rs: Rules, m: Labels) {
    forall k :: k in m ==> PlainName(k) && ClientLabel(rs, k, m[k])
  }

  /**
   Two terms that are renamed to one name: a value-specific rule sends k to a name that is
   k' or that another such rule sends k' to, or k is the escaped form of k'.
   */
  ghost predicate RenameClash(rs: Rules, m: Labels, k: string, k': string)
    requires k in m && k' in m
  {
    k != k' && ((exists t :: SentTo(rs, k, m[k], t) && (k' == t || SentTo(rs, k', m[k'], t)))
                || (k == PRESERVED + k' && !Touches(rs, Original, k', m[k'])))
  }

  ghost predicate NoRenameClash(rs: Rules, m: Labels) {
    forall k, k' :: HasKey(m, k) && HasKey(m, k') ==> !RenameClash(rs, m, k, k')
  }

  lemma RenameClashCollides(rs: Rules, m: Labels, k: string, k': string)
    requires Sound(rs) && ClientLabels(rs, m) && k in m && k' in m && RenameClash(rs, m, k, k')
    ensures Rename(rs, k, m[k]).0 == Rename(rs, k', m[k']).0
  {
    RenameByRules(rs, k', m[k']);
    if t :| SentTo(rs, k, m[k], t) && (k' == t || SentTo(rs, k', m[k'], t)) {
      SentTarget(rs, k, m[k], t);
      if SentTo(rs, k', m[k'], t) {
        SentTarget(rs, k', m[k'], t);
      } else {
        var r :| Hits(rs, Original, k, m[k], ByValue(r)) && r.renamed == t;
        assert Hits(rs, Renamed, t, r.renamedValue, ByValue(r));
        HitNotPreserved(rs, Renamed, t, r.renamedValue, ByValue(r));
        SidesApart(rs, t, r.renamedValue, m[k']);
      }
    } else {
      RenameByRules(rs, k, m[k]);
      assert TrimPrefix(PRESERVED + k', PRESERVED) == k';
      var h :| Hits(rs, Original, k', m[k], h);
      HitNotPreserved(rs, Original, k', m[k], h);
    }
  }

  lemma EscapedRenameClashes(rs: Rules, m: Labels, k: string, k': string)
    requires Sound(rs) && ClientLabels(rs, m) && k in m && k' in m && k != k' && IsPreserved(k)
    requires Rename(rs, k, m[k]).0 == Rename(rs, k', m[k']).0
    ensures RenameClash(rs, m, k, k')
  {
    var b := TrimPrefix(k, PRESERVED);
    assert k == PRESERVED + b && (IsPreserved(k') ==> k' == PRESERVED + TrimPrefix(k', PRESERVED));
    RenameByRules(rs, k, m[k]);
    RenameByRules(rs, k', m[k']);
    if !IsPreserved(k') && Touches(rs, Original, k', m[k']) {
      var h :| Hits(rs, Original, k', m[k'], h) && Rename(rs, k', m[k']) == Landing(h, Original, k', m[k']);
      LandingIsHit(rs, Original, k', m[k'], h);
      SidesApart(rs, b, Landing(h, Original, k', m[k']).1, m[k]);
    }
  }

  lemma RenameCollisionClashes(rs: Rules, m: Labels, k: string, k': string)
    requires Sound(rs) && ClientLabels(rs, m) && k in m && k' in m && k != k'
    requires Rename(rs, k, m[k]).0 == Rename(rs, k', m[k']).0
    ensures RenameClash(rs, m, k, k') || RenameClash(rs, m, k', k)
  {
    var v, v' := m[k], m[k'];
    if IsPreserved(k) {
      EscapedRenameClashes(rs, m, k, k');
    } else if IsPreserved(k') {
      EscapedRenameClashes(rs, m, k', k);
    } else {
      RenameByRules(rs, k, v);
      RenameByRules(rs, k', v');
      if Touches(rs, Original, k, v) && Touches(rs, Original, k', v') {
        var h :| Hits(rs, Original, k, v, h) && Rename(rs, k, v) == Landing(h, Original, k, v);
        var h' :| Hits(rs, Original, k', v', h') && Rename(rs, k', v') == Landing(h', Original, k', v');
        SameLanding(rs, Original, k, v, h, k', v', h');
        assert SentTo(rs, k, v, h.rule.renamed) && SentTo(rs, k', v', h'.rule.renamed);
      } else if Touches(rs, Original, k, v) {
        var h :| Hits(rs, Original, k, v, h) && Rename(rs, k, v) == Landing(h, Original, k, v);
        LandingUntouched(rs, Original, k, v, h, v');
        assert SentTo(rs, k, v, h.rule.renamed);
      } else if Touches(rs, Original, k', v') {
        var h' :| Hits(rs, Original, k', v', h') && Rename(rs, k', v') == Landing(h', Original, k', v');
        LandingUntouched(rs, Original, k', v', h', v);
        assert SentTo(rs, k', v', h'.rule.renamed);
      }
    }
  }

  /** A renamed term comes from one of the terms. */
  lemma TermOf(rs: Rules, m: Labels, m': Labels, n: string) returns (k: string)
    requires Sound(rs) && ClientLabels(rs, m) && IsRewrite(rs, ToServer, m, m') && n in m'
    ensures k in m && Rename(rs, k, m[k]) == (n, m'[n]) && Restore(rs, n, m'[n]) == (k, m[k]) && ServerName(n)
  {
    assert HasKey(m', n);
    k :| HasKey(m, k) && Rewrite(rs, ToServer, k, m[k]) == (n, m'[n]);
    RestoreUndoesRename(rs, k, m[k]);
  }

  lemma TermKept(rs: Rules, m: Labels, m': Labels, k: string)
    requires Sound(rs) && ClientLabels(rs, m) && IsRewrite(rs, ToServer, m, m') && k in m && NoRenameClash(rs, m)
    ensures var (n, w) := Rename(rs, k, m[k]); HasLabel(m', n, w)
  {
    assert HasKey(m, k);
    var n := Rename(rs, k, m[k]).0;
    var k' := TermOf(rs, m, m', n);
    if k' != k {
      RenameCollisionClashes(rs, m, k, k');
      assert HasKey(m, k');
    }
  }

  lemma MatchLabelsCorrespond(rs: Rules, m: Labels, m': Labels, server: Labels, client: Labels)
    requires Sound(rs) && Shown(rs, server, client) && ClientLabels(rs, m) && IsRewrite(rs, ToServer, m, m')
    requires NoRenameClash(rs, m)
    ensures HasAll(server, m') <==> HasAll(client, m)
  {
    if HasAll(server, m') {
      forall k | k in m ensures HasLabel(client, k, m[k]) {
        TermKept(rs, m, m', k);
        LabelCorresponds(rs, server, client, k, m[k]);
      }
    }
    if HasAll(client, m) {
      forall n | n in m' ensures HasLabel(server, n, m'[n]) {
        var k := TermOf(rs, m, m', n);
        LabelCorresponds(rs, server, client, k, m[k]);
      }
    }
  }

  /** The equality terms and their renaming agree on every object. */
  ghost predicate MatchLabelsAreSafe(rs: Rules, m: Labels, m': Labels) {
    forall server, client :: Shown(rs, server, client) ==> (HasAll(server, m') <==> HasAll(client, m))
  }

  lemma RenamedTermsDoNotClash(rs: Rules, m: Labels, m': Labels)
    requires Sound(rs) && ClientLabels(rs, m) && IsRewrite(rs, ToServer, m, m')
    ensures ServerLabels(m') && NoClash(rs, m')
  {
    forall n | n in m' ensures ServerName(n) {
      var k := TermOf(rs, m, m', n);
    }
    forall n, n' | HasKey(m', n) && HasKey(m', n') && Restore(rs, n, m'[n]).0 == Restore(rs, n', m'[n']).0
      ensures n == n'
    {
      var k := TermOf(rs, m, m', n);
      var k' := TermOf(rs, m, m', n');
    }
    NoCollisionExactly(rs, m');
  }

  ghost function ShownNames(rs: Rules, server: Labels): set<string> {
    set n | n in server :: Restore(rs, n, server[n]).0
  }

  /** One way an object may be shown. */
  ghost function ShownAs(rs: Rules, server: Labels): Labels {
    map k | k in ShownNames(rs, server) ::
      (var n :| HasKey(server, n) && Restore(rs, n, server[n]).0 == k; Restore(rs, n, server[n]).1)
  }

  lemma EveryObjectIsShown(rs: Rules, server: Labels)
    ensures IsRewrite(rs, ToClient, server, ShownAs(rs, server))
  {
    var client := ShownAs(rs, server);
    forall k | HasKey(client, k) ensures exists n :: HasKey(server, n) && Restore(rs, n, server[n]) == (k, client[k]) {
      var n :| HasKey(server, n) && Restore(rs, n, server[n]).0 == k && client[k] == Restore(rs, n, server[n]).1;
    }
  }

  /** Clashing terms are all renamed onto an object on which they do not all hold. */
  lemma ClashIsUnsafe(rs: Rules, m: Labels, m': Labels, k: string, k': string)
    requires Sound(rs) && ClientLabels(rs, m) && IsRewrite(rs, ToServer, m, m')
    requires k in m && k' in m && RenameClash(rs, m, k, k')
    ensures !MatchLabelsAreSafe(rs, m, m')
  {
    RenamedTermsDoNotClash(rs, m, m');
    EveryObjectIsShown(rs, m');
    var client := ShownAs(rs, m');
    assert Shown(rs, m', client) && HasAll(m', m');
    RenameClashCollides(rs, m, k, k');
    if HasAll(client, m) {
      assert HasLabel(client, k, m[k]) && HasLabel(client, k', m[k']);
      ShownIsStored(rs, m', client, k);
      ShownIsStored(rs, m', client, k');
    }
  }

  /** Some server object can carry all the labels, and is shown whole. */
  ghost predicate Possible(rs: Rules, labels: Labels) {
    ServerLabels(labels) && NoClash(rs, labels)
  }

  /** A term on a label the client is never shown holds of no object as shown. */
  lemma HiddenNeverHolds(rs: Rules, m: Labels, server: Labels, client: Labels)
    requires Sound(rs) && Shown(rs, server, client) && !ClientLabels(rs, m) && forall k :: k in m ==> PlainName(k)
    ensures !HasAll(client, m)
  {
    var h :| h in m && !ClientLabel(rs, h, m[h]);
    if HasLabel(client, h, m[h]) {
      var n := RestoredEntry(rs, server, client, h);
      RestoredIsClientLabel(rs, n, server[n]);
    }
  }

  lemma SmallerIsPossible(rs: Rules, server: Labels, labels: Labels)
    requires Possible(rs, server) && HasAll(server, labels)
    ensures Possible(rs, labels)
  {
    forall n | n in labels ensures ServerName(n) {
      assert HasLabel(server, n, labels[n]);
    }
    forall n, n' | HasKey(labels, n) && HasKey(labels, n') ensures !Clash(rs, labels, n, n') {
      assert HasLabel(server, n, labels[n]) && HasLabel(server, n', labels[n']);
      assert HasKey(server, n) && HasKey(server, n') && !Clash(rs, server, n, n');
    }
  }

  lemma HiddenIsSafeExactly(rs: Rules, m: Labels, m': Labels)
    requires Sound(rs) && !ClientLabels(rs, m) && forall k :: k in m ==> PlainName(k)
    ensures MatchLabelsAreSafe(rs, m, m') <==> !Possible(rs, m')
  {
    if Possible(rs, m') {
      EveryObjectIsShown(rs, m');
      var client := ShownAs(rs, m');
      assert Shown(rs, m', client) && HasAll(m', m');
      HiddenNeverHolds(rs, m, m', client);
    } else {
      forall server, client | Shown(rs, server, client) ensures HasAll(server, m') <==> HasAll(client, m) {
        HiddenNeverHolds(rs, m, server, client);
        if HasAll(server, m') {
          SmallerIsPossible(rs, server, m');
        }
      }
    }
  }

  /**
   Exactly when equality terms keep their meaning. Terms on labels the client can see do
   when no two of them clash. With a term on a label the client is never shown they do only
   when no server object can carry the renamed terms, so that neither side ever selects.
   */
  lemma MatchLabelsAreSafeExactly(rs: Rules, m: Labels, m': Labels)
    requires Sound(rs) && IsRewrite(rs, ToServer, m, m') && forall k :: k in m ==> PlainName(k)
    ensures MatchLabelsAreSafe(rs, m, m') <==>
            if ClientLabels(rs, m) then NoRenameClash(rs, m) else !Possible(rs, m')
  {
    if !ClientLabels(rs, m) {
      HiddenIsSafeExactly(rs, m, m');
    } else if NoRenameClash(rs, m) {
      forall server, client | Shown(rs, server, client) ensures HasAll(server, m') <==> HasAll(client, m) {
        MatchLabelsCorrespond(rs, m, m', server, client);
      }
    } else {
      var k, k' :| HasKey(m, k) && HasKey(m, k') && RenameClash(rs, m, k, k');
      ClashIsUnsafe(rs, m, m', k, k');
    }
  }

  // ---------- both failing cases occur ----------

  const PLAIN := Rule("o", "r", "", "")

  lemma PlainRule()
    ensures var rs := Rules([PLAIN], []);
            && Sound(rs) && !ClientLabel(rs, "r", "v") && Possible(rs, map["r" := "v"])
            && Rename(rs, "r", "v") == ("r", "v")
  {
    var rs := Rules([PLAIN], []);
    assert Hits(rs, Renamed, "r", "v", ByName(PLAIN));
    assert !Touches(rs, Original, "r", "v");
    RenameByRules(rs, "r", "v");
  }

  /** Under the rule o to r the term r=v stays r=v: it selects an object that the client is shown with o=v. */
  lemma HiddenTerm(m': Labels)
    requires IsRewrite(Rules([PLAIN], []), ToServer, map["r" := "v"], m')
    ensures var rs, m := Rules([PLAIN], []), map["r" := "v"];
            && Sound(rs) && !ClientLabel(rs, "r", "v") && m' == m && Possible(rs, m')
            && !MatchLabelsAreSafe(rs, m, m')
  {
    var rs, m: Labels := Rules([PLAIN], []), map["r" := "v"];
    PlainRule();
    OnlyTermRenamed(rs, m', "r", "v");
    assert !ClientLabels(rs, m);
    HiddenIsSafeExactly(rs, m, m');
  }

  lemma OnlyTermRenamed(rs: Rules, m': Labels, k: string, v: string)
    requires IsRewrite(rs, ToServer, map[k := v], m')
    ensures var (n, w) := Rename(rs, k, v); m' == map[n := w]
  {
    var n := Rename(rs, k, v).0;
    assert HasKey(map[k := v], k);
    forall x | x in m' ensures x == n && m'[x] == Rename(rs, k, v).1 {
      assert HasKey(m', x);
    }
  }

  /** Under the rule o=a to r=x the terms o=a and r=y clash: both are renamed to r. */
  lemma ClashingTerms(m': Labels)
    requires IsRewrite(Rules([TO_RX], []), ToServer, map["o" := "a", "r" := "y"], m')
    ensures var rs, m := Rules([TO_RX], []), map["o" := "a", "r" := "y"];
            && Sound(rs) && ClientLabels(rs, m) && RenameClash(rs, m, "o", "r")
            && !MatchLabelsAreSafe(rs, m, m')
  {
    var rs, m: Labels := Rules([TO_RX], []), map["o" := "a", "r" := "y"];
    assert Hits(rs, Original, "o", "a", ByValue(TO_RX));
    assert SentTo(rs, "o", "a", "r");
    assert !Touches(rs, Renamed, "o", "a") && !Touches(rs, Renamed, "r", "y");
    ClashIsUnsafe(rs, m, m', "o", "r");
  }

  // ---------- whole selectors ----------

  /** A rewritten selector selects a server object exactly when the original selects what the client is shown of it. */
  lemma SelectorKeepsMeaning(rs: Rules, s: Selector, s': Selector, server: Labels, client: Labels)
    requires Sound(rs) && Shown(rs, server, client) && IsRewrittenSelector(rs, s, s')
    requires ClientLabels(rs, s.matchLabels) && NoRenameClash(rs, s.matchLabels)
    requires forall r :: r in s.matchExpressions ==> PlainName(r.key) && Readable(rs, r)
    ensures Selects(s', server) <==> Selects(s, client)
  {
    MatchLabelsCorrespond(rs, s.matchLabels, s'.matchLabels, server, client);
    forall i | 0 <= i < |s.matchExpressions|
      ensures MeetsRequirement(s'.matchExpressions[i], server) <==> MeetsRequirement(s.matchExpressions[i], client)
    {
      assert s.matchExpressions[i] in s.matchExpressions;
      RequirementCorresponds(rs, s.matchExpressions[i], server, client);
    }
  }

  lemma PlainTermsDoNotClash(rs: Rules, m: Labels)
    requires Sound(rs) && NoValueRules(rs) && forall k :: k in m ==> PlainName(k) && ClientLabel(rs, k, "")
    ensures ClientLabels(rs, m) && NoRenameClash(rs, m)
  {
    forall k | k in m ensures ClientLabel(rs, k, m[k]) {
      SeenWithAnyValue(rs, k, m[k]);
    }
    forall k, k' | HasKey(m, k) && HasKey(m, k') && k == PRESERVED + k' ensures Touches(rs, Original, k', m[k']) {
      assert IsPreserved(k) && TrimPrefix(k, PRESERVED) == k';
      var h :| Hits(rs, Original, k', "", h);
      assert Hits(rs, Original, k', m[k'], h);
    }
  }

  lemma PlainRequirementIsReadable(rs: Rules, r: Requirement)
    requires Sound(rs) && NoValueRules(rs) && PlainName(r.key) && ClientLabel(rs, r.key, "")
    ensures Readable(rs, r)
  {
    forall v ensures ClientLabel(rs, r.key, v) && Unsent(rs, r.key, v) {
      SeenWithAnyValue(rs, r.key, v);
    }
  }

  /** Without value-specific rules it is enough that the client can see the keys. */
  lemma PlainSelectorKeepsMeaning(rs: Rules, s: Selector, s': Selector, server: Labels, client: Labels)
    requires Sound(rs) && NoValueRules(rs)
    requires ServerLabels(server) && IsRewrite(rs, ToClient, server, client) && IsRewrittenSelector(rs, s, s')
    requires forall k :: k in s.matchLabels ==> PlainName(k) && ClientLabel(rs, k, "")
    requires forall r :: r in s.matchExpressions ==> PlainName(r.key) && ClientLabel(rs, r.key, "")
    ensures Selects(s', server) <==> Selects(s, client)
  {
    PlainTermsDoNotClash(rs, s.matchLabels);
    forall r | r in s.matchExpressions ensures Readable(rs, r) {
      PlainRequirementIsReadable(rs, r);
    }
    assert NoClash(rs, server);
    SelectorKeepsMeaning(rs, s, s', server, client);
  }
}
