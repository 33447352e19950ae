/** Single requirements of a selector, and exactly which of them keep their meaning. */
module SelectorRequirements {
  import opened Common
  import opened GoStrings
  import opened NameRewriter
  import opened RuleHits
  import opened LabelRewriting
  import opened LabelSelectors

  // ---------- where a key goes ----------

  /** Some value-specific rule sends the label k=v to the name t. */
  ghost predicate SentTo(rs: Rules, k: string, v: string, t: string) {
    exists r :: Hits(rs, Original, k, v, ByValue(r)) && r.renamed == t
  }

  lemma SentTarget(rs: Rules, k: string, v: string, t: string)
    requires WellFormed(rs, Original) && PlainName(k) && SentTo(rs, k, v, t)
    ensures !IsPreserved(k) && Rename(rs, k, v).0 == t && v != ""
  {
    var r :| Hits(rs, Original, k, v, ByValue(r)) && r.renamed == t;
    HitNotPreserved(rs, Original, k, v, ByValue(r));
    ValueHitWins(rs, Original, k, v, r);
  }

  ghost predicate Unsent(rs: Rules, k: string, v: string) {
    forall t :: !SentTo(rs, k, v, t)
  }

  /** Where value-specific rules play no part, the value is kept and the target does not depend on it. */
  lemma UnsentTarget(rs: Rules, k: string, v: string, v': string)
    requires WellFormed(rs, Original) && PlainName(k) && Unsent(rs, k, v) && Unsent(rs, k, v')
    ensures Rename(rs, k, v) == (Rename(rs, k, v').0, v)
  {
    RenameByRules(rs, k, v);
    RenameByRules(rs, k, v');
    if !IsPreserved(k) && Touches(rs, Original, k, v) {
      var h :| Hits(rs, Original, k, v, h) && Rename(rs, k, v) == Landing(h, Original, k, v);
      NotByValue(rs, k, v, h);
      assert Hits(rs, Original, k, v', h);
      var h' :| Hits(rs, Original, k, v', h') && Rename(rs, k, v') == Landing(h', Original, k, v');
      NotByValue(rs, k, v', h');
      OneRulePerName(rs, Original, k, v, h, v', h');
    } else if !IsPreserved(k) && Touches(rs, Original, k, v') {
      var h' :| Hits(rs, Original, k, v', h');
      NotByValue(rs, k, v', h');
      assert Hits(rs, Original, k, v, h');
    }
  }

  lemma NotByValue(rs: Rules, k: string, v: string, h: Hit)
    requires Unsent(rs, k, v) && Hits(rs, Original, k, v, h)
    ensures !h.ByValue?
  {
    if h.ByValue? {
      assert SentTo(rs, k, v, h.rule.renamed);
    }
  }

  ghost predicate SentAlike(rs: Rules, k: string, v: string, v': string) {
    forall t :: SentTo(rs, k, v, t) <==> SentTo(rs, k, v', t)
  }

  /** Two values of a key go to one name exactly when value-specific rules treat them alike. */
  lemma SameTargetExactly(rs: Rules, k: string, v: string, v': string)
    requires Sound(rs) && PlainName(k)
    ensures Rename(rs, k, v).0 == Rename(rs, k, v').0 <==> SentAlike(rs, k, v, v')
  {
    if t :| SentTo(rs, k, v, t) {
      SentAlikeExactly(rs, k, v, t, v');
    } else if t :| SentTo(rs, k, v', t) {
      SentAlikeExactly(rs, k, v', t, v);
    } else {
      UnsentTarget(rs, k, v, v');
    }
  }

  lemma SentAlikeExactly(rs: Rules, k: string, v: string, t: string, v': string)
    requires Sound(rs) && PlainName(k) && SentTo(rs, k, v, t)
    ensures Rename(rs, k, v).0 == Rename(rs, k, v').0 <==> SentAlike(rs, k, v, v')
  {
    SentTarget(rs, k, v, t);
    OnlySent(rs, k, v, t, v');
    forall t' | SentTo(rs, k, v, t') ensures t' == t {
      SentTarget(rs, k, v, t');
    }
  }

  /** If one value is sent to t, another goes there only by being sent. */
  lemma OnlySent(rs: Rules, k: string, v: string, t: string, v': string)
    requires Sound(rs) && PlainName(k) && SentTo(rs, k, v, t)
    ensures Rename(rs, k, v').0 == t <==> SentTo(rs, k, v', t)
    ensures forall t' :: SentTo(rs, k, v', t') ==> t' == Rename(rs, k, v').0
  {
    SentTarget(rs, k, v, t);
    forall t' | SentTo(rs, k, v', t') ensures t' == Rename(rs, k, v').0 {
      SentTarget(rs, k, v', t');
    }
    var r :| Hits(rs, Original, k, v, ByValue(r)) && r.renamed == t;
    RenameByRules(rs, k, v');
    if Touches(rs, Original, k, v') {
      var h :| Hits(rs, Original, k, v', h) && Rename(rs, k, v') == Landing(h, Original, k, v');
      OneRulePerName(rs, Original, k, v, ByValue(r), v', h);
      assert SentTo(rs, k, v', h.rule.renamed);
    }
  }

  lemma {:induction false} FirstNewNameIsTarget(rs: Rules, name: string, values: seq<string>) returns (v: string)
    requires values != []
    ensures v in values && Rename(rs, name, v).0 == FirstNewName(rs, ToServer, name, values)
  {
    v := values[0];
    if Rename(rs, name, v).0 == name && |values| > 1 {
      v := FirstNewNameIsTarget(rs, name, values[1..]);
    }
  }

  /** The rewritten key is where one of the values goes. */
  lemma RewrittenKeyIsTarget(rs: Rules, r: Requirement) returns (v: string)
    ensures Rename(rs, r.key, v).0 == RewriteRequirement(rs, r).key
    ensures r.values != [] ==> v in r.values
  {
    v := "";
    if r.values != [] {
      v := FirstNewNameIsTarget(rs, r.key, r.values);
    }
  }

  // ---------- requirements ----------

  /** The values that decide a requirement: its own, or for the existence operators all. */
  ghost predicate Covers(r: Requirement, v: string) {
    (r.operator == In || r.operator == NotIn) ==> v in r.values
  }

  /** No server label is restored to such a key. */
  ghost predicate EscapedTwice(k: string) {
    IsPreserved(k) && IsPreserved(TrimPrefix(k, PRESERVED))
  }

  /** The client can see the key with every value that counts. */
  ghost predicate Visible(rs: Rules, r: Requirement) {
    forall v :: Covers(r, v) ==> ClientLabel(rs, r.key, v)
  }

  /** If a value-specific rule sends one value that counts to some name, such rules send them all there. */
  ghost predicate Together(rs: Rules, r: Requirement) {
    forall v, v', t :: Covers(r, v) && Covers(r, v') && SentTo(rs, r.key, v, t) ==> SentTo(rs, r.key, v', t)
  }

  ghost predicate Readable(rs: Rules, r: Requirement) {
    EscapedTwice(r.key) || (Visible(rs, r) && Together(rs, r))
  }

  lemma OneTarget(rs: Rules, r: Requirement, v: string)
    requires Sound(rs) && PlainName(r.key) && Together(rs, r) && Covers(r, v)
    ensures Rename(rs, r.key, v).0 == RewriteRequirement(rs, r).key
  {
    var u := RewrittenKeyIsTarget(rs, r);
    assert Covers(r, u);
    SameTargetExactly(rs, r.key, u, v);
  }

  lemma EscapedTwiceIsNowhere(rs: Rules, r: Requirement, server: Labels, client: Labels)
    requires Sound(rs) && Shown(rs, server, client) && PlainName(r.key) && EscapedTwice(r.key)
    ensures r.key !in client && RewriteRequirement(rs, r).key !in server
  {
    var v := RewrittenKeyIsTarget(rs, r);
    if r.key in client {
      ShownIsStored(rs, server, client, r.key);
    }
  }

  /** The operators that list values. */
  lemma ValuesCorrespond(rs: Rules, r: Requirement, server: Labels, client: Labels)
    requires Sound(rs) && Shown(rs, server, client) && PlainName(r.key) && Visible(rs, r) && Together(rs, r)
    requires r.operator == In || r.operator == NotIn
    ensures var r' := RewriteRequirement(rs, r);
            (r'.key in server && server[r'.key] in r'.values) <==> (r.key in client && client[r.key] in r.values)
  {
    var r' := RewriteRequirement(rs, r);
    if r.key in client && client[r.key] in r.values {
      var v := client[r.key];
      OneTarget(rs, r, v);
      ShownIsStored(rs, server, client, r.key);
      var i :| 0 <= i < |r.values| && r.values[i] == v;
      assert r'.values[i] == Rename(rs, r.key, v).1;
    }
    if r'.key in server && server[r'.key] in r'.values {
      var i :| 0 <= i < |r'.values| && r'.values[i] == server[r'.key];
      var v := r.values[i];
      OneTarget(rs, r, v);
      LabelCorresponds(rs, server, client, r.key, v);
    }
  }

  /** The operators that only ask for the key. */
  lemma KeysCorrespond(rs: Rules, r: Requirement, server: Labels, client: Labels)
    requires Sound(rs) && Shown(rs, server, client) && PlainName(r.key) && Visible(rs, r) && Together(rs, r)
    requires r.operator == Exists || r.operator == DoesNotExist
    ensures RewriteRequirement(rs, r).key in server <==> r.key in client
  {
    var n := RewriteRequirement(rs, r).key;
    if r.key in client {
      OneTarget(rs, r, client[r.key]);
      ShownIsStored(rs, server, client, r.key);
    }
    if n in server {
      forall v ensures Unsent(rs, r.key, v) {
        NeverSent(rs, r, v);
      }
      UnsentTarget(rs, r.key, server[n], server[n]);
      OneTarget(rs, r, server[n]);
      LabelCorresponds(rs, server, client, r.key, server[n]);
    }
  }

  lemma NeverSent(rs: Rules, r: Requirement, v: string)
    requires Sound(rs) && PlainName(r.key) && Together(rs, r) && Covers(r, "") && Covers(r, v)
    ensures Unsent(rs, r.key, v)
  {
    if t :| SentTo(rs, r.key, v, t) {
      SentTarget(rs, r.key, "", t);
    }
  }

  lemma RequirementCorresponds(rs: Rules, r: Requirement, server: Labels, client: Labels)
    requires Sound(rs) && Shown(rs, server, client) && PlainName(r.key) && Readable(rs, r)
    ensures MeetsRequirement(RewriteRequirement(rs, r), server) <==> MeetsRequirement(r, client)
  {
    if EscapedTwice(r.key) {
      EscapedTwiceIsNowhere(rs, r, server, client);
    } else if r.operator == In || r.operator == NotIn {
      ValuesCorrespond(rs, r, server, client);
    } else {
      KeysCorrespond(rs, r, server, client);
    }
  }

  // ---------- exactly which requirements keep their meaning ----------

  /** The requirement and its rewriting agree on every object. */
  ghost predicate RequirementIsSafe(rs: Rules, r: Requirement) {
    forall server, client :: Shown(rs, server, client) ==>
                               (MeetsRequirement(RewriteRequirement(rs, r), server) <==> MeetsRequirement(r, client))
  }

  /** An object with one label. */
  lemma OneLabelShown(rs: Rules, n: string, w: string)
    requires ServerName(n)
    ensures var (k, v) := Restore(rs, n, w); Shown(rs, map[n := w], map[k := v])
  {
    assert HasKey(map[n := w], n);
  }

  /** A label the client cannot see keeps its value when renamed, whatever the value. */
  lemma HiddenKeepsValues(rs: Rules, k: string, v: string, x: string)
    requires Sound(rs) && PlainName(k) && !ClientLabel(rs, k, v) && !EscapedTwice(k)
    ensures var n := Rename(rs, k, v).0; ServerName(n) && Rename(rs, k, x) == (n, x)
  {
    RenameByRules(rs, k, v);
    RenameByRules(rs, k, x);
    if !IsPreserved(k) {
      SidesApart(rs, k, v, v);
      SidesApart(rs, k, v, x);
    }
  }

  /** What is stored under the renamed key is shown under another. */
  lemma HiddenIsElsewhere(rs: Rules, k: string, v: string)
    requires Sound(rs) && PlainName(k) && !ClientLabel(rs, k, v) && !EscapedTwice(k)
    ensures Restore(rs, Rename(rs, k, v).0, v).0 != k
  {
    HiddenKeepsValues(rs, k, v, v);
    var n := Rename(rs, k, v).0;
    RenameUndoesRestore(rs, n, v);
    RestoredIsClientLabel(rs, n, v);
    HiddenKeepsValues(rs, k, v, Restore(rs, n, v).1);
  }

  lemma HiddenRewritten(rs: Rules, r: Requirement, v: string)
    requires Sound(rs) && PlainName(r.key) && !EscapedTwice(r.key) && !ClientLabel(rs, r.key, v)
    ensures RewriteRequirement(rs, r) == r.(key := Rename(rs, r.key, v).0)
  {
    var r' := RewriteRequirement(rs, r);
    var u := RewrittenKeyIsTarget(rs, r);
    HiddenKeepsValues(rs, r.key, v, u);
    forall i | 0 <= i < |r.values| ensures r'.values[i] == r.values[i] {
      HiddenKeepsValues(rs, r.key, v, r.values[i]);
    }
    assert r'.values == r.values;
  }

  lemma HiddenIsUnsafe(rs: Rules, r: Requirement, v: string)
    requires Sound(rs) && PlainName(r.key) && !EscapedTwice(r.key) && Covers(r, v) && !ClientLabel(rs, r.key, v)
    ensures !RequirementIsSafe(rs, r)
  {
    var n := Rename(rs, r.key, v).0;
    HiddenKeepsValues(rs, r.key, v, v);
    HiddenIsElsewhere(rs, r.key, v);
    HiddenRewritten(rs, r, v);
    OneLabelShown(rs, n, v);
    OnlyStored(rs, r, map[n := v], map[Restore(rs, n, v).0 := Restore(rs, n, v).1]);
  }

  lemma OnlyStored(rs: Rules, r: Requirement, server: Labels, client: Labels)
    requires Shown(rs, server, client) && r.key !in client
    requires var r' := RewriteRequirement(rs, r);
             r'.key in server && ((r.operator == In || r.operator == NotIn) ==> server[r'.key] in r'.values)
    ensures !RequirementIsSafe(rs, r)
  {
    assert MeetsRequirement(RewriteRequirement(rs, r), server) != MeetsRequirement(r, client);
  }

  lemma TornIsUnsafe(rs: Rules, r: Requirement, v: string, v': string)
    requires Sound(rs) && PlainName(r.key) && Covers(r, v) && Covers(r, v') && !SentAlike(rs, r.key, v, v')
    requires Visible(rs, r)
    ensures !RequirementIsSafe(rs, r)
  {
    SameTargetExactly(rs, r.key, v, v');
    var r' := RewriteRequirement(rs, r);
    var u := if Rename(rs, r.key, v).0 == r'.key then v' else v;
    var (n, w) := Rename(rs, r.key, u);
    RestoreUndoesRename(rs, r.key, u);
    OneLabelShown(rs, n, w);
    var server: Labels, client: Labels := map[n := w], map[r.key := u];
    assert Shown(rs, server, client) && r'.key !in server;
    assert r.key in client && client[r.key] == u;
  }

  /** A requirement keeps its meaning exactly when it is readable. */
  lemma RequirementIsSafeExactly(rs: Rules, r: Requirement)
    requires Sound(rs) && PlainName(r.key)
    ensures RequirementIsSafe(rs, r) <==> Readable(rs, r)
  {
    if Readable(rs, r) {
      forall server, client | Shown(rs, server, client)
        ensures MeetsRequirement(RewriteRequirement(rs, r), server) <==> MeetsRequirement(r, client)
      {
        RequirementCorresponds(rs, r, server, client);
      }
    } else if !Visible(rs, r) {
      var v :| Covers(r, v) && !ClientLabel(rs, r.key, v);
      HiddenIsUnsafe(rs, r, v);
    } else {
      var v, v', t :| Covers(r, v) && Covers(r, v') && SentTo(rs, r.key, v, t) && !SentTo(rs, r.key, v', t);
      TornIsUnsafe(rs, r, v, v');
    }
  }

  /** The name the server knows a client key by, before any rule. */
  function Base(k: string): string {
    if IsPreserved(k) then TrimPrefix(k, PRESERVED) else k
  }

  ghost predicate NamedWithValue(rs: Rules, name: string) {
    exists r, side :: r in rs.names && r.ValueSpecific() && NameAt(r, side) == name
  }

  /** Asking for a key is safe exactly when the client can see the key and no value-specific rule names it. */
  lemma KeyIsSafeExactly(rs: Rules, k: string)
    requires Sound(rs) && PlainName(k)
    ensures RequirementIsSafe(rs, Requirement(k, Exists, [])) <==>
            EscapedTwice(k) || (ClientLabel(rs, k, "") && !NamedWithValue(rs, Base(k)))
  {
    var r := Requirement(k, Exists, []);
    RequirementIsSafeExactly(rs, r);
    if ClientLabel(rs, k, "") && !NamedWithValue(rs, Base(k)) {
      forall v ensures ClientLabel(rs, k, v) && Unsent(rs, k, v) {
        SeenWithAnyValue(rs, k, v);
      }
    }
    if NamedWithValue(rs, Base(k)) && Visible(rs, r) && Together(rs, r) {
      assert Covers(r, "");
      NamedIsNotReadable(rs, r);
    }
  }

  lemma SeenWithAnyValue(rs: Rules, k: string, v: string)
    requires Sound(rs) && PlainName(k) && ClientLabel(rs, k, "") && !NamedWithValue(rs, Base(k))
    ensures ClientLabel(rs, k, v) && Unsent(rs, k, v)
  {
    if h :| Hits(rs, Original, Base(k), "", h) {
      assert Hits(rs, Original, Base(k), v, h);
    }
    if h :| Hits(rs, Renamed, Base(k), v, h) {
      assert !h.ByValue?;
      assert Hits(rs, Renamed, Base(k), "", h);
    }
    if t :| SentTo(rs, k, v, t) {
      SentTarget(rs, k, v, t);
    }
  }

  lemma NamedIsNotReadable(rs: Rules, r: Requirement)
    requires Sound(rs) && PlainName(r.key) && r.operator == Exists && NamedWithValue(rs, Base(r.key))
    ensures !(Visible(rs, r) && Together(rs, r))
  {
    var b := Base(r.key);
    var rule, side :| rule in rs.names && rule.ValueSpecific() && NameAt(rule, side) == b;
    var v := ValueAt(rule, side);
    assert Hits(rs, side, b, v, ByValue(rule)) && Covers(r, v) && Covers(r, "");
    if Visible(rs, r) && Together(rs, r) {
      assert ClientLabel(rs, r.key, v) && ClientLabel(rs, r.key, "");
      if IsPreserved(r.key) {
        var h :| Hits(rs, Original, b, "", h);
        if side == Original {
          OneRulePerName(rs, Original, b, "", h, v, ByValue(rule));
        } else {
          SidesApart(rs, b, v, "");
        }
      } else if side == Original {
        assert SentTo(rs, b, v, rule.renamed);
        NeverSent(rs, r, v);
      }
    }
  }

  // ---------- a requirement that loses its meaning ----------

  lemma SplitRulesAreSound()
    ensures Sound(Rules([TO_RX, TO_SY], []))
  {
    SplitRulesAreDistinct();
  }

  lemma SplitRenames()
    ensures var rs := Rules([TO_RX, TO_SY], []);
            Rename(rs, "o", "a") == ("r", "x") && Rename(rs, "o", "b") == ("s", "y")
  {
    var rs := Rules([TO_RX, TO_SY], []);
    SplitRulesAreDistinct();
    ValueHitWins(rs, Original, "o", "a", TO_RX);
    ValueHitWins(rs, Original, "o", "b", TO_SY);
  }

  /** Rules that send two values of one name to different names tear a requirement on both apart. */
  lemma SplitRequirement()
    ensures var rs, r := Rules([TO_RX, TO_SY], []), Requirement("o", In, ["a", "b"]);
            && Sound(rs) && RewriteRequirement(rs, r) == Requirement("r", In, ["x", "y"])
            && !RequirementIsSafe(rs, r)
  {
    var rs, r := Rules([TO_RX, TO_SY], []), Requirement("o", In, ["a", "b"]);
    SplitRulesAreSound();
    SplitRenames();
    assert RewriteRequirement(rs, r).values == ["x", "y"];
    SameTargetExactly(rs, "o", "a", "b");
    var v, t :| SentTo(rs, "o", v, t) && (v == "a" || v == "b") && !SentTo(rs, "o", if v == "a" then "b" else "a", t);
    assert Covers(r, "a") && Covers(r, "b") && !EscapedTwice("o");
    RequirementIsSafeExactly(rs, r);
  }
}
