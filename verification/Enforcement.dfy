/**
 The two enforcement points of services/llm/policy_enforcement.go: the catalog filter and the
 request-time check, and their agreement.
 */
module Enforcement {
  import opened Wildcard
  import opened Policy
  import opened Sieve
  import opened Text

  datatype Model = Model(id: string, name: string, context: int, reasoning: bool, toolCall: bool,
                         inputCost: real, outputCost: real)

  datatype Provider = Provider(id: string, name: string, adapter: string, baseURL: string,
                               envKey: string, needsKey: bool, models: seq<Model>)

  predicate ProviderDenied(b: BundleRef, provider: string) {
    Decision(b, PROVIDER_USE, provider) == Deny
  }

  predicate ModelDenied(b: BundleRef, provider: string, model: string) {
    Decision(b, MODEL_USE, ResourceID(provider, model)) == Deny
  }

  function DropModel(b: BundleRef, provider: string): Model -> bool {
    (m: Model) => ModelDenied(b, provider, m.id)
  }

  function DropProvider(b: BundleRef): Provider -> bool {
    (p: Provider) => ProviderDenied(b, p.id)
  }

  function Unchanged(): Model -> Model {
    m => m
  }

  function KeptModels(b: BundleRef, provider: string, models: seq<Model>): seq<Model> {
    SieveMap(models, DropModel(b, provider), Unchanged())
  }

  function KeepModels(b: BundleRef): Provider -> Provider {
    (p: Provider) => p.(models := KeptModels(b, p.id, p.models))
  }

  function Filtered(b: BundleRef, providers: seq<Provider>): seq<Provider> {
    SieveMap(providers, DropProvider(b), KeepModels(b))
  }

  method FilterCatalogByPolicy(b: BundleRef, providers: seq<Provider>) returns (out: seq<Provider>)
    ensures out == Filtered(b, providers)
  {
    out := [];
    for i := 0 to |providers|
      invariant out == Filtered(b, providers[..i])
    {
      assert providers[..i + 1][..i] == providers[..i];
      var p := providers[i];
      var use, _ := Evaluate(b, PROVIDER_USE, p.id);
      if use == Deny {
        continue;
      }
      var filtered := p;
      if |p.models| > 0 {
        var models := FilterModels(b, p);
        filtered := p.(models := models);
      }
      out := out + [filtered];
    }
    assert providers[..|providers|] == providers;
  }

  /** The inner loop. */
  method FilterModels(b: BundleRef, p: Provider) returns (models: seq<Model>)
    ensures models == KeptModels(b, p.id, p.models)
  {
    models := [];
    for k := 0 to |p.models|
      invariant models == KeptModels(b, p.id, p.models[..k])
    {
      assert p.models[..k + 1][..k] == p.models[..k];
      var m := p.models[k];
      var use, _ := Evaluate(b, MODEL_USE, ResourceID(p.id, m.id));
      if use == Deny {
        continue;
      }
      models := models + [m];
    }
    assert p.models[..|p.models|] == p.models;
  }

  datatype Verdict = Permitted | ProviderNotPermitted(provider: string) | ModelNotPermitted(resource: string)

  function CheckRequest(b: BundleRef, provider: string, model: string): Verdict {
    if provider == "" || provider == "disabled" then Permitted
    else if ProviderDenied(b, provider) then ProviderNotPermitted(provider)
    else if model != "" && ModelDenied(b, provider, model) then ModelNotPermitted(ResourceID(provider, model))
    else Permitted
  }

  /** The verdict, in terms of the policy: which requests pass, and what a refusal names. */
  lemma VerdictIff(b: BundleRef, provider: string, model: string)
    ensures CheckRequest(b, provider, model) == Permitted <==>
            || provider == "" || provider == "disabled"
            || (Decision(b, "provider.use", provider) == Allow
                && (model == "" || Decision(b, "model.use", provider + "/" + model) == Allow))
    ensures CheckRequest(b, provider, model) == ProviderNotPermitted(provider) <==>
            provider != "" && provider != "disabled" && Decision(b, "provider.use", provider) == Deny
    ensures CheckRequest(b, provider, model) == ModelNotPermitted(provider + "/" + model) <==>
            && provider != "" && provider != "disabled" && Decision(b, "provider.use", provider) == Allow
            && model != "" && Decision(b, "model.use", provider + "/" + model) == Deny
  {
  }

  /** A string, taken as a pattern, matches itself. */
  lemma MatchesItself(s: string)
    ensures Accepts(s, s)
  {
    if s != "" {
      var n := |s| - 1;
      Lockstep(s, s, 0, n);
      assert s[|s|..] == "";
    }
  }

  lemma EntryCoversProvider(e: string, provider: string)
    requires Plain(e)
    ensures Accepts(EntryPattern(PROVIDER_USE, e), provider) <==> e == provider
  {
    LiteralPattern(e, provider);
  }

  /** A provider on the disabled list is refused with every model, and without one. */
  lemma DisabledIsRefused(enabled: seq<string>, disabled: seq<string>, entry: string, model: string)
    requires entry in disabled && TrimSpace(entry) != "" && TrimSpace(entry) != "disabled"
    ensures CheckRequest(Ref(CompiledBundle(enabled, disabled)), TrimSpace(entry), model) ==
            ProviderNotPermitted(TrimSpace(entry))
  {
    var provider := TrimSpace(entry);
    CleanMembers(disabled, provider);
    MatchesItself(provider);
    assert Accepts(EntryPattern(PROVIDER_USE, provider), provider);
    CompiledMeaning(enabled, disabled, PROVIDER_USE, provider);
  }

  /** What the two lists let through, for plain ids: everything for a provider that is not disabled when there
      is no allowlist; otherwise the listed providers, without a model or with one that does not escape. */
  lemma LocalRequestIff(enabled: seq<string>, disabled: seq<string>, provider: string, model: string)
    requires PlainLists(enabled, disabled) && Plain(provider)
    ensures CheckRequest(Ref(CompiledBundle(enabled, disabled)), provider, model) == Permitted <==>
            || provider == "" || provider == "disabled"
            || (provider !in Clean(disabled)
                && (Clean(enabled) == [] || (provider in Clean(enabled) && !EscapesFinalStar(model))))
  {
    CleanPlain(enabled);
    CleanPlain(disabled);
    CompiledMeaning(enabled, disabled, PROVIDER_USE, provider);
    ListCovers(enabled, provider, model);
    ListCovers(disabled, provider, model);
    if model != "" {
      CompiledMeaning(enabled, disabled, MODEL_USE, ResourceID(provider, model));
    }
  }

  /** A plain list covers a provider that is on it, and its models that do not escape. */
  lemma ListCovers(entries: seq<string>, provider: string, model: string)
    requires Plain(provider) && forall e | e in Clean(entries) :: Plain(e)
    ensures (exists e | e in Clean(entries) :: Accepts(EntryPattern(PROVIDER_USE, e), provider)) <==>
            provider in Clean(entries)
    ensures model != "" ==>
              ((exists e | e in Clean(entries) :: Accepts(EntryPattern(MODEL_USE, e), ResourceID(provider, model))) <==>
               provider in Clean(entries) && !EscapesFinalStar(model))
  {
    forall e | e in Clean(entries)
      ensures Accepts(EntryPattern(PROVIDER_USE, e), provider) <==> e == provider
      ensures model != "" ==>
                (Accepts(EntryPattern(MODEL_USE, e), ResourceID(provider, model)) <==>
                 e == provider && !EscapesFinalStar(model))
    {
      EntryCoversProvider(e, provider);
      if model != "" {
        EntryCoversModel(e, provider, model);
      }
    }
  }

  // ----- what survives -----

  ghost predicate Offers(providers: seq<Provider>, provider: string, model: string) {
    exists p, m | p in providers && m in p.models :: p.id == provider && m.id == model
  }

  /** A (provider, model) pair is offered after filtering exactly when it was offered before and neither
      decision denies it. */
  lemma SurvivesFiltering(b: BundleRef, providers: seq<Provider>, provider: string, model: string)
    ensures Offers(Filtered(b, providers), provider, model) <==>
            Offers(providers, provider, model) && !ProviderDenied(b, provider) && !ModelDenied(b, provider, model)
  {
    if Offers(Filtered(b, providers), provider, model) {
      var q, m :| q in Filtered(b, providers) && m in q.models && q.id == provider && m.id == model;
      Members(providers, DropProvider(b), KeepModels(b), q);
      var p :| p in providers && !DropProvider(b)(p) && q == KeepModels(b)(p);
      Members(p.models, DropModel(b, p.id), Unchanged(), m);
    }
    if Offers(providers, provider, model) && !ProviderDenied(b, provider) && !ModelDenied(b, provider, model) {
      var p, m :| p in providers && m in p.models && p.id == provider && m.id == model;
      var q := KeepModels(b)(p);
      Members(providers, DropProvider(b), KeepModels(b), q);
      Members(p.models, DropModel(b, p.id), Unchanged(), m);
      assert q in Filtered(b, providers) && m in q.models;
    }
  }

  ghost predicate Agree(b: BundleRef, providers: seq<Provider>, provider: string, model: string) {
    Offers(Filtered(b, providers), provider, model) <==>
    Offers(providers, provider, model) && CheckRequest(b, provider, model) == Permitted
  }

  /** The enforcement points agree on a pair under every bundle and every catalog, if and only if the
      provider is neither empty nor "disabled" and the model is not empty. */
  lemma EnforcementPointsAgree(provider: string, model: string)
    ensures (forall b, providers :: Agree(b, providers, provider, model)) <==>
            provider != "" && provider != "disabled" && model != ""
  {
    if provider != "" && provider != "disabled" && model != "" {
      forall b, providers
        ensures Agree(b, providers, provider, model)
      {
        SurvivesFiltering(b, providers, provider, model);
      }
    } else {
      var b, providers := Disagreement(provider, model);
    }
  }

  lemma Disagreement(provider: string, model: string) returns (b: BundleRef, providers: seq<Provider>)
    requires provider == "" || provider == "disabled" || model == ""
    ensures !Agree(b, providers, provider, model)
  {
    var m := Model(model, "", 0, false, false, 0.0, 0.0);
    providers := [Provider(provider, "", "", "", "", false, [m])];
    assert providers[0] in providers && m in providers[0].models && Offers(providers, provider, model);
    b := DenyOneModel(provider, ResourceID(provider, model));
    SurvivesFiltering(b, providers, provider, model);
  }

  /** A bundle that denies one model and no provider. */
  lemma DenyOneModel(provider: string, resource: string) returns (b: BundleRef)
    ensures Decision(b, MODEL_USE, resource) == Deny && Decision(b, PROVIDER_USE, provider) == Allow
  {
    var st := Statement(MODEL_USE, "deny", resource);
    b := Ref(Bundle(1, "", "", "allow", [st]));
    EffectWords();
    LiteralPattern(MODEL_USE, MODEL_USE);
    LiteralPattern(MODEL_USE, PROVIDER_USE);
    MatchesItself(resource);
    var i := LastApplicableDecides([st], MODEL_USE, resource, Allow);
    var j := LastApplicableDecides([st], PROVIDER_USE, provider, Allow);
  }

  // ----- order and idempotence -----

  /** Filtering twice is filtering once. */
  lemma FilterIdempotent(b: BundleRef, providers: seq<Provider>)
    ensures Filtered(b, Filtered(b, providers)) == Filtered(b, providers)
  {
    forall p | p in providers
      ensures KeepModels(b)(KeepModels(b)(p)) == KeepModels(b)(p)
    {
      Idempotent(p.models, DropModel(b, p.id), Unchanged());
    }
    Idempotent(providers, DropProvider(b), KeepModels(b));
  }

  /** Filtering keeps the order of providers and drops exactly the denied ones: entry k of the result is
      entry at[k] of the input, in everything but its models. */
  lemma FilterKeepsProviderOrder(b: BundleRef, providers: seq<Provider>) returns (at: seq<nat>)
    ensures |at| == |Filtered(b, providers)| && Increasing(at)
    ensures forall k | 0 <= k < |at| ::
              at[k] < |providers| && Filtered(b, providers)[k].(models := []) == providers[at[k]].(models := [])
    ensures forall i | 0 <= i < |providers| :: i in at <==> !ProviderDenied(b, providers[i].id)
  {
    at := Positions(providers, DropProvider(b), KeepModels(b));
    PlacesAreKept(at, providers, Filtered(b, providers), DropProvider(b), KeepModels(b));
  }

  /** The same for the models of every provider that stays: entry k is entry at[k], unchanged. */
  lemma FilterKeepsModelOrder(b: BundleRef, providers: seq<Provider>, q: Provider) returns (p: Provider, at: seq<nat>)
    requires q in Filtered(b, providers)
    ensures p in providers && p.(models := []) == q.(models := [])
    ensures |at| == |q.models| && Increasing(at)
    ensures forall k | 0 <= k < |at| :: at[k] < |p.models| && q.models[k] == p.models[at[k]]
    ensures forall i | 0 <= i < |p.models| :: i in at <==> !ModelDenied(b, p.id, p.models[i].id)
  {
    Members(providers, DropProvider(b), KeepModels(b), q);
    p :| p in providers && !DropProvider(b)(p) && q == KeepModels(b)(p);
    at := Positions(p.models, DropModel(b, p.id), Unchanged());
    PlacesAreKept(at, p.models, KeptModels(b, p.id, p.models), DropModel(b, p.id), Unchanged());
  }
}
