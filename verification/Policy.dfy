/**
 The policy engine of services/llm/policy (policy.go, local.go) and its two enforcement points
 (services/llm/policy_enforcement.go).
 */
module Policy {
  import opened Text
  import opened Wildcard

  const PROVIDER_USE := "provider.use"
  const MODEL_USE := "model.use"

  datatype Effect = Allow | Deny

  datatype Statement = Statement(action: string, effect: string, resource: string)

  datatype Bundle = Bundle(schemaVersion: int, version: string, org: string,
                           defaultAllow: string, statements: seq<Statement>)

  /** A bundle pointer, which may be nil. */
  datatype BundleRef = Nil | Ref(bundle: Bundle)

  /** strings.EqualFold(s, "deny"): none of the four letters folds to anything outside ASCII. */
  predicate EqualFoldDeny(s: string) {
    |s| == 4 && s[0] in "dD" && s[1] in "eE" && s[2] in "nN" && s[3] in "yY"
  }

  function ParseEffect(s: string): Effect {
    if EqualFoldDeny(TrimSpace(s)) then Deny else Allow
  }

  function EffectiveDefault(b: BundleRef): Effect {
    if b.Nil? then Allow else ParseEffect(b.bundle.defaultAllow)
  }

  // ----- Evaluate: find-last-wins -----

  predicate Applies(st: Statement, action: string, resource: string) {
    Accepts(st.action, action) && Accepts(st.resource, resource)
  }

  function LastWins(sts: seq<Statement>, action: string, resource: string, otherwise: Effect): Effect {
    if sts == [] then otherwise
    else
      var last := sts[|sts| - 1];
      if Applies(last, action, resource) then ParseEffect(last.effect)
      else LastWins(sts[..|sts| - 1], action, resource, otherwise)
  }

  /** The effect Evaluate returns. */
  function Decision(b: BundleRef, action: string, resource: string): Effect {
    if b.Nil? then Allow
    else LastWins(b.bundle.statements, action, resource, EffectiveDefault(b))
  }

  method Evaluate(b: BundleRef, action: string, resource: string) returns (effect: Effect, matched: bool)
    ensures effect == Decision(b, action, resource)
    ensures matched <==> b.Ref? && exists st | st in b.bundle.statements :: Applies(st, action, resource)
  {
    if b.Nil? {
      return Allow, false;
    }
    var sts := b.bundle.statements;
    effect, matched := Allow, false;
    for i := 0 to |sts|
      invariant matched <==> exists st | st in sts[..i] :: Applies(st, action, resource)
      invariant LastWins(sts[..i], action, resource, EffectiveDefault(b)) ==
                if matched then effect else EffectiveDefault(b)
    {
      assert sts[..i + 1][..i] == sts[..i];
      var actionMatches, _ := MatchWildcard(sts[i].action, action);
      if actionMatches {
        var resourceMatches, _ := MatchWildcard(sts[i].resource, resource);
        if resourceMatches {
          effect := ParseEffect(sts[i].effect);
          matched := true;
          assert sts[i] in sts[..i + 1];
        }
      }
    }
    assert sts[..|sts|] == sts;
    if !matched {
      effect := EffectiveDefault(b);
    }
  }

  /** The deciding statement: the last that applies, found at i; without one (i < 0) the default
      decides. */
  lemma {:induction false} LastApplicableDecides(sts: seq<Statement>, action: string, resource: string,
                                                 otherwise: Effect)
      returns (i: int)
    ensures -1 <= i < |sts|
    ensures forall j | i < j < |sts| :: !Applies(sts[j], action, resource)
    ensures i >= 0 ==> Applies(sts[i], action, resource) &&
                       LastWins(sts, action, resource, otherwise) == ParseEffect(sts[i].effect)
    ensures i < 0 ==> LastWins(sts, action, resource, otherwise) == otherwise
  {
    i := |sts| - 1;
    if i >= 0 && !Applies(sts[i], action, resource) {
      i := LastApplicableDecides(sts[..|sts| - 1], action, resource, otherwise);
    }
  }

  /** A later block of statements falls back on the decision of an earlier one. */
  lemma {:induction false} LastWinsConcat(a: seq<Statement>, b: seq<Statement>, action: string, resource: string,
                                          otherwise: Effect)
    ensures LastWins(a + b, action, resource, otherwise) ==
            LastWins(b, action, resource, LastWins(a, action, resource, otherwise))
  {
    if b == [] {
      assert a + b == a;
    } else {
      assert (a + b)[..|a + b| - 1] == a + b[..|b| - 1];
      LastWinsConcat(a, b[..|b| - 1], action, resource, otherwise);
    }
  }

  // ----- LocalBundle -----

  function Clean(entries: seq<string>): seq<string> {
    if entries == [] then []
    else
      var t := TrimSpace(entries[|entries| - 1]);
      Clean(entries[..|entries| - 1]) + if t != "" then [t] else []
  }

  method CleanEntries(entries: seq<string>) returns (out: seq<string>)
    ensures out == Clean(entries)
  {
    out := [];
    for i := 0 to |entries|
      invariant out == Clean(entries[..i])
    {
      assert entries[..i + 1][..i] == entries[..i];
      var t := TrimSpace(entries[i]);
      if t != "" {
        out := out + [t];
      }
    }
    assert entries[..|entries|] == entries;
  }

  /** What a cleaned list holds: the non-blank entries, trimmed. */
  lemma {:induction false} CleanMembers(entries: seq<string>, x: string)
    ensures x in Clean(entries) <==> x != "" && exists e | e in entries :: TrimSpace(e) == x
  {
    if entries != [] {
      var init := entries[..|entries| - 1];
      CleanMembers(init, x);
      assert entries == init + [entries[|entries| - 1]];
    }
  }

  /** The two statements one entry produces. */
  function StatementPair(effect: string, entry: string): seq<Statement> {
    [Statement(PROVIDER_USE, effect, entry), Statement(MODEL_USE, effect, entry + "/*")]
  }

  function StatementPairs(effect: string, entries: seq<string>): seq<Statement> {
    if entries == [] then []
    else StatementPairs(effect, entries[..|entries| - 1]) + StatementPair(effect, entries[|entries| - 1])
  }

  function CompiledBundle(enabledProviders: seq<string>, disabledProviders: seq<string>): Bundle {
    var enabled, disabled := Clean(enabledProviders), Clean(disabledProviders);
    Bundle(1, "local", "local", if enabled != [] then "deny" else "allow",
           StatementPairs("allow", enabled) + StatementPairs("deny", disabled))
  }

  method LocalBundle(enabledProviders: seq<string>, disabledProviders: seq<string>) returns (b: Bundle)
    ensures b == CompiledBundle(enabledProviders, disabledProviders)
  {
    var enabled := CleanEntries(enabledProviders);
    var disabled := CleanEntries(disabledProviders);
    b := Bundle(1, "local", "local", "allow", []);
    if |enabled| > 0 {
      b := b.(defaultAllow := "deny");
      for i := 0 to |enabled|
        invariant b == Bundle(1, "local", "local", "deny", StatementPairs("allow", enabled[..i]))
      {
        assert enabled[..i + 1][..i] == enabled[..i];
        b := b.(statements := b.statements + StatementPair("allow", enabled[i]));
      }
      assert enabled[..|enabled|] == enabled;
    }
    ghost var allows := b;
    for i := 0 to |disabled|
      invariant b == allows.(statements := allows.statements + StatementPairs("deny", disabled[..i]))
    {
      assert disabled[..i + 1][..i] == disabled[..i];
      b := b.(statements := b.statements + StatementPair("deny", disabled[i]));
    }
    assert disabled[..|disabled|] == disabled;
  }

  /** The pattern an entry contributes for an action. */
  function EntryPattern(action: string, entry: string): string {
    if action == MODEL_USE then entry + "/*" else entry
  }

  lemma EffectWords()
    ensures ParseEffect("deny") == Deny && ParseEffect("allow") == Allow
  {
    assert TrimLeft("deny") == "deny" && TrimRight("deny") == "deny";
    assert TrimLeft("allow") == "allow" && TrimRight("allow") == "allow";
  }

  lemma PairDecision(effect: string, entry: string, action: string, resource: string, otherwise: Effect)
    requires action == PROVIDER_USE || action == MODEL_USE
    ensures LastWins(StatementPair(effect, entry), action, resource, otherwise) ==
            if Accepts(EntryPattern(action, entry), resource) then ParseEffect(effect) else otherwise
  {
    LiteralPattern(PROVIDER_USE, action);
    LiteralPattern(MODEL_USE, action);
    var pair := StatementPair(effect, entry);
    assert pair == [pair[0]] + [pair[1]];
    LastWinsConcat([pair[0]], [pair[1]], action, resource, otherwise);
    assert [pair[0]][..0] == [] && [pair[1]][..0] == [];
  }

  lemma {:induction false} PairsDecision(effect: string, entries: seq<string>, action: string, resource: string,
                                         otherwise: Effect)
    requires action == PROVIDER_USE || action == MODEL_USE
    ensures LastWins(StatementPairs(effect, entries), action, resource, otherwise) ==
            if exists e | e in entries :: Accepts(EntryPattern(action, e), resource)
            then ParseEffect(effect) else otherwise
  {
    if entries != [] {
      var init, last := entries[..|entries| - 1], entries[|entries| - 1];
      PairsDecision(effect, init, action, resource, otherwise);
      var before := LastWins(StatementPairs(effect, init), action, resource, otherwise);
      LastWinsConcat(StatementPairs(effect, init), StatementPair(effect, last), action, resource, otherwise);
      PairDecision(effect, last, action, resource, before);
      assert entries == init + [last];
    }
  }

  /** What a compiled bundle means, for every pair of lists: a request is denied exactly when a
      disabled entry covers it, or there is an allowlist and nothing on it covers it. */
  lemma CompiledMeaning(enabled: seq<string>, disabled: seq<string>, action: string, resource: string)
    requires action == PROVIDER_USE || action == MODEL_USE
    ensures Decision(Ref(CompiledBundle(enabled, disabled)), action, resource) == Deny <==>
            || (exists e | e in Clean(disabled) :: Accepts(EntryPattern(action, e), resource))
            || (Clean(enabled) != [] && !exists e | e in Clean(enabled) :: Accepts(EntryPattern(action, e), resource))
  {
    EffectWords();
    var b := CompiledBundle(enabled, disabled);
    var allows, denies := StatementPairs("allow", Clean(enabled)), StatementPairs("deny", Clean(disabled));
    var otherwise := EffectiveDefault(Ref(b));
    LastWinsConcat(allows, denies, action, resource, otherwise);
    PairsDecision("allow", Clean(enabled), action, resource, otherwise);
    PairsDecision("deny", Clean(disabled), action, resource, LastWins(allows, action, resource, otherwise));
  }

  /** Narrowing only: disabling more providers never permits what was denied. */
  lemma DisablingNeverPermits(enabled: seq<string>, disabled: seq<string>, more: seq<string>, action: string,
                              resource: string)
    requires action == PROVIDER_USE || action == MODEL_USE
    requires Decision(Ref(CompiledBundle(enabled, disabled)), action, resource) == Deny
    ensures Decision(Ref(CompiledBundle(enabled, disabled + more)), action, resource) == Deny
  {
    CompiledMeaning(enabled, disabled, action, resource);
    CompiledMeaning(enabled, disabled + more, action, resource);
    forall x | x in Clean(disabled)
      ensures x in Clean(disabled + more)
    {
      CleanMembers(disabled, x);
      CleanMembers(disabled + more, x);
    }
  }

  // ----- a provider and its models -----

  predicate Plain(id: string) {
    '*' !in id && '/' !in id
  }

  function ResourceID(provider: string, model: string): string {
    if model == "" then provider else provider + "/" + model
  }

  /** The model id a final `*` of a pattern cannot absorb: it begins with `*` and goes on. */
  predicate EscapesFinalStar(model: string) {
    |model| > 1 && model[0] == '*'
  }

  lemma SlashSplits(e: string, p: string, m: string)
    requires Plain(e) && Plain(p)
    ensures (|e| + 1 <= |p| + 1 + |m| && (p + "/" + m)[..|e| + 1] == e + "/") <==> e == p
  {
    var r := p + "/" + m;
    if |e| + 1 <= |r| && r[..|e| + 1] == e + "/" {
      assert r[|e|] == (e + "/")[|e|] == '/';
      assert |e| <= |p| by {
        assert forall k | 0 <= k < |e| :: e[k] == r[..|e| + 1][k];
        assert r[|p|] == '/';
      }
      assert |e| == |p|;
      assert e == r[..|e| + 1][..|e|] == p;
    }
  }

  /** For plain ids, an entry covers a model of p exactly when it is p, unless the model escapes. */
  lemma EntryCoversModel(e: string, p: string, m: string)
    requires Plain(e) && Plain(p) && m != ""
    ensures Accepts(EntryPattern(MODEL_USE, e), ResourceID(p, m)) <==> e == p && !EscapesFinalStar(m)
  {
    var r := p + "/" + m;
    assert e + "/*" == (e + "/") + "*";
    LiteralThenStar(e + "/", r);
    SlashSplits(e, p, m);
  }

  lemma CleanPlain(entries: seq<string>)
    requires forall e | e in entries :: Plain(e)
    ensures forall x | x in Clean(entries) :: Plain(x)
  {
    forall x | x in Clean(entries)
      ensures Plain(x)
    {
      CleanMembers(entries, x);
    }
  }

  ghost predicate SameDecision(p: string, m: string, enabled: seq<string>, disabled: seq<string>) {
    var b := Ref(CompiledBundle(enabled, disabled));
    Decision(b, MODEL_USE, ResourceID(p, m)) == Decision(b, PROVIDER_USE, p)
  }

  ghost predicate PlainLists(enabled: seq<string>, disabled: seq<string>) {
    && (forall e | e in enabled :: Plain(e))
    && (forall e | e in disabled :: Plain(e))
  }

  lemma CoveredAlike(p: string, m: string, entries: seq<string>)
    requires Plain(p) && m != "" && (forall e | e in entries :: Plain(e))
    requires !(EscapesFinalStar(m) && p != "" && TrimSpace(p) == p)
    ensures (exists e | e in Clean(entries) :: Accepts(EntryPattern(MODEL_USE, e), ResourceID(p, m))) <==>
            (exists e | e in Clean(entries) :: Accepts(EntryPattern(PROVIDER_USE, e), p))
  {
    CleanPlain(entries);
    forall e | e in Clean(entries)
      ensures Accepts(EntryPattern(MODEL_USE, e), ResourceID(p, m)) <==> Accepts(EntryPattern(PROVIDER_USE, e), p)
    {
      EntryCoversModel(e, p, m);
      LiteralPattern(e, p);
      TrimmedIfClean(entries, e);
    }
  }

  lemma FollowsUnless(p: string, m: string, enabled: seq<string>, disabled: seq<string>)
    requires Plain(p) && m != "" && PlainLists(enabled, disabled)
    requires !(EscapesFinalStar(m) && p != "" && TrimSpace(p) == p)
    ensures SameDecision(p, m, enabled, disabled)
  {
    CompiledMeaning(enabled, disabled, PROVIDER_USE, p);
    CompiledMeaning(enabled, disabled, MODEL_USE, ResourceID(p, m));
    CoveredAlike(p, m, enabled);
    CoveredAlike(p, m, disabled);
  }

  /** With p on the disabled list, its models named `*x` stay usable. */
  lemma EscapeIsPossible(p: string, m: string) returns (enabled: seq<string>, disabled: seq<string>)
    requires Plain(p) && p != "" && TrimSpace(p) == p && EscapesFinalStar(m)
    ensures PlainLists(enabled, disabled) && !SameDecision(p, m, enabled, disabled)
    ensures Decision(Ref(CompiledBundle(enabled, disabled)), PROVIDER_USE, p) == Deny
  {
    enabled, disabled := [], [p];
    var r := ResourceID(p, m);
    CompiledMeaning(enabled, disabled, PROVIDER_USE, p);
    CompiledMeaning(enabled, disabled, MODEL_USE, r);
    CleanMembers(disabled, p);
    LiteralPattern(p, p);
    assert Accepts(EntryPattern(PROVIDER_USE, p), p);
    forall e | e in Clean(disabled)
      ensures !Accepts(EntryPattern(MODEL_USE, e), r)
    {
      CleanMembers(disabled, e);
      EntryCoversModel(p, p, m);
    }
  }

  /** A model gets its provider's decision under every pair of plain lists, if and only if its id does
      not begin with `*` and go on (or the provider id is one no cleaned entry can equal). */
  lemma ModelFollowsProvider(p: string, m: string)
    requires Plain(p) && m != ""
    ensures (forall enabled, disabled | PlainLists(enabled, disabled) :: SameDecision(p, m, enabled, disabled)) <==>
            !(EscapesFinalStar(m) && p != "" && TrimSpace(p) == p)
  {
    if EscapesFinalStar(m) && p != "" && TrimSpace(p) == p {
      var enabled, disabled := EscapeIsPossible(p, m);
    } else {
      forall enabled, disabled | PlainLists(enabled, disabled)
        ensures SameDecision(p, m, enabled, disabled)
      {
        FollowsUnless(p, m, enabled, disabled);
      }
    }
  }

  lemma TrimmedIfClean(entries: seq<string>, x: string)
    requires x in Clean(entries)
    ensures x != "" && TrimSpace(x) == x
  {
    CleanMembers(entries, x);
    var e :| e in entries && TrimSpace(e) == x;
    TrimmedStays(e);
  }

  // ----- the words of a bundle -----

  /** ASCII lower case. */
  function Lower(s: string): string {
    seq(|s|, i requires 0 <= i < |s| => if 'A' <= s[i] <= 'Z' then 'a' + (s[i] - 'A') else s[i])
  }

  /** An effect is deny if and only if it is that word in any case, with any white space around it; every
      other word allows. */
  lemma EffectIff(word: string)
    ensures ParseEffect(word) == Deny <==> Lower(TrimSpace(word)) == "deny"
  {
    var t := TrimSpace(word);
    if |t| == 4 {
      assert Lower(t) == [Lower(t)[0], Lower(t)[1], Lower(t)[2], Lower(t)[3]];
      LetterOf(t[0], 'd', 'D', "dD");
      LetterOf(t[1], 'e', 'E', "eE");
      LetterOf(t[2], 'n', 'N', "nN");
      LetterOf(t[3], 'y', 'Y', "yY");
    }
  }

  lemma LetterOf(c: char, lower: char, upper: char, both: string)
    requires both == [lower, upper]
    ensures c in both <==> c == lower || c == upper
  {
  }

  /** What any bundle decides: the last statement whose two patterns accept the request, or without one the
      default; without a bundle everything is allowed. */
  lemma DecisionIs(b: BundleRef, action: string, resource: string) returns (i: int)
    ensures b.Nil? ==> Decision(b, action, resource) == EffectiveDefault(b) == Allow
    ensures b.Ref? ==>
              var sts := b.bundle.statements;
              && -1 <= i < |sts|
              && (forall j | i < j < |sts| :: !(Accepts(sts[j].action, action) && Accepts(sts[j].resource, resource)))
              && (i >= 0 ==> Accepts(sts[i].action, action) && Accepts(sts[i].resource, resource))
              && Decision(b, action, resource) == ParseEffect(if i >= 0 then sts[i].effect else b.bundle.defaultAllow)
  {
    i := -1;
    if b.Ref? {
      i := LastApplicableDecides(b.bundle.statements, action, resource, EffectiveDefault(b));
      assert forall j | i < j < |b.bundle.statements| :: !Applies(b.bundle.statements[j], action, resource);
    }
  }

  /** A resource is named by its provider and, if there is one, its model. */
  lemma ResourceNames(provider: string, model: string)
    ensures ResourceID(provider, "") == provider
    ensures model != "" ==> ResourceID(provider, model) == provider + "/" + model
  {
  }
}
