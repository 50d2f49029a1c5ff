/**
 The models a worker may use. The provider's catalog, the alias table and the
 allowlist are built by separate code from one request; they have to name the
 same models, or strict configuration checking refuses the file.
 */
module ModelCatalog {
  import opened Wrappers
  import opened Text

  const GATEWAY_PROVIDER := "agentteams-gateway"

  /** The models listed for every worker. */
  function Known(): seq<string> {
    ["gpt-5.4", "gpt-5.3-codex", "gpt-5-mini", "gpt-5-nano",
     "claude-opus-4-6", "claude-sonnet-4-6", "claude-haiku-4-5",
     "qwen3.6-plus", "qwen3.5-plus",
     "deepseek-chat", "deepseek-reasoner",
     "kimi-k2.5", "glm-5",
     "MiniMax-M2.7", "MiniMax-M2.7-highspeed", "MiniMax-M2.5"]
  }

  lemma KnownIsUnrepeated()
    ensures Unrepeated(Known())
  {
  }

  /** The parameters of a model are opaque. */
  datatype ModelSpec<P> = ModelSpec(id: string, parameters: P)

  datatype Request = Request(provider: string, model: string, defaultModel: string, subagentModel: string)

  datatype Models<P> = Models(
    provider: string,
    primary: string,
    subagent: Option<string>,
    specs: seq<ModelSpec<P>>,
    aliases: map<string, string>,
    allow: seq<string>)

  // ------------------------------------------------------------------- names

  function TrimPrefix(s: string, prefix: string): string {
    if HasPrefix(s, prefix) then s[|prefix|..] else s
  }

  /** The provider whose block serves a worker's models. */
  function ProviderFor(name: string): string {
    var trimmed := TrimSpace(name);
    if trimmed != "" then trimmed else GATEWAY_PROVIDER
  }

  /** A blank name means the gateway; any other is used without the blanks around it. */
  lemma ProviderIs(name: string)
    ensures All(name, c => IsSpace(c)) ==> ProviderFor(name) == "agentteams-gateway"
    ensures !All(name, c => IsSpace(c)) ==>
              ProviderFor(name) != "" && TrimmedTo(name, ProviderFor(name), c => IsSpace(c))
  {
    TrimSpaceEmpty(name);
    StripsTo(name);
  }

  function Qualified(pid: string, name: string): string {
    pid + "/" + name
  }

  /** A model's bare name: without the provider's prefix, and then without the gateway's. */
  function BareName(pid: string, gateway: string, name: string): string {
    TrimPrefix(TrimPrefix(name, pid + "/"), gateway + "/")
  }

  lemma TrimQualified(pid: string, name: string)
    ensures TrimPrefix(Qualified(pid, name), pid + "/") == name
  {
    assert Qualified(pid, name)[..|pid + "/"|] == pid + "/";
  }

  lemma QualifiedInjective(pid: string, a: string, b: string)
    ensures Qualified(pid, a) == Qualified(pid, b) <==> a == b
  {
    TrimQualified(pid, a);
    TrimQualified(pid, b);
  }

  /**
   A model may be named bare or with either prefix. The bare name and the
   provider's own spelling always mean the same model; the gateway's legacy
   spelling does if and only if the provider is the gateway or the spelling
   does not also begin with the provider's prefix.
   */
  lemma SpellingsAgree(pid: string, gateway: string, name: string)
    requires !HasPrefix(name, pid + "/") && !HasPrefix(name, gateway + "/")
    ensures BareName(pid, gateway, name) == name
    ensures BareName(pid, gateway, Qualified(pid, name)) == name
    ensures BareName(pid, gateway, Qualified(gateway, name)) == name
       <==> pid == gateway || !HasPrefix(Qualified(gateway, name), pid + "/")
  {
    TrimQualified(pid, name);
    TrimQualified(gateway, name);
    var legacy := Qualified(gateway, name);
    if pid != gateway && HasPrefix(legacy, pid + "/") {
      var rest := legacy[|pid + "/"|..];
      assert |rest| == |gateway| + |name| - |pid|;
      assert legacy[..|gateway|] == gateway && legacy[..|pid|] == pid;
      assert |rest| != |name|;
    }
  }

  // ----------------------------------------------------------------- catalog

  /** The model names of a worker's catalog, in order. */
  function Catalog(selected: string, subagent: string): seq<string> {
    var listed := if selected in Known() then Known() else Known() + [selected];
    if subagent == "" || subagent in listed then listed else listed + [subagent]
  }

  function Keys(pid: string, names: seq<string>): set<string> {
    set name | name in names :: Qualified(pid, name)
  }

  method AllModelSpecs<P>(selected: string, subagent: string, resolve: string -> P)
    returns (specs: seq<ModelSpec<P>>)
    ensures |specs| == |Catalog(selected, subagent)|
    ensures forall k :: 0 <= k < |specs| ==>
              specs[k] == ModelSpec(Catalog(selected, subagent)[k], resolve(Catalog(selected, subagent)[k]))
  {
    var allModels := Known();
    var seen: set<string> := {};
    specs := [];
    for i := 0 to |allModels|
      invariant |specs| == i
      invariant forall k :: 0 <= k < i ==> specs[k] == ModelSpec(allModels[k], resolve(allModels[k]))
      invariant seen == set name | name in allModels[..i]
    {
      specs := specs + [ModelSpec(allModels[i], resolve(allModels[i]))];
      seen := seen + {allModels[i]};
      assert allModels[..i + 1] == allModels[..i] + [allModels[i]];
    }
    assert allModels[..|allModels|] == allModels;
    if selected !in seen {
      specs := specs + [ModelSpec(selected, resolve(selected))];
      seen := seen + {selected};
    }
    if subagent != "" && subagent !in seen {
      specs := specs + [ModelSpec(subagent, resolve(subagent))];
    }
  }

  /** Every key is a qualified name, and its alias is the bare one. */
  predicate AliasesOf(aliases: map<string, string>, pid: string, names: seq<string>) {
    && aliases.Keys == Keys(pid, names)
    && forall k :: 0 <= k < |names| ==>
         && Qualified(pid, names[k]) in aliases
         && aliases[Qualified(pid, names[k])] == names[k]
  }

  lemma AliasAdded(aliases: map<string, string>, pid: string, names: seq<string>, name: string)
    requires AliasesOf(aliases, pid, names)
    ensures AliasesOf(aliases[Qualified(pid, name) := name], pid, names + [name])
    ensures Qualified(pid, name) in aliases <==> name in names
  {
    forall other ensures Qualified(pid, other) == Qualified(pid, name) <==> other == name {
      QualifiedInjective(pid, other, name);
    }
    assert Keys(pid, names + [name]) == Keys(pid, names) + {Qualified(pid, name)};
  }

  method AllModelAliases(pid: string, selected: string, subagent: string) returns (aliases: map<string, string>)
    ensures AliasesOf(aliases, pid, Catalog(selected, subagent))
  {
    var allModels := Known();
    aliases := map[];
    for i := 0 to |allModels|
      invariant AliasesOf(aliases, pid, allModels[..i])
    {
      AliasAdded(aliases, pid, allModels[..i], allModels[i]);
      assert allModels[..i + 1] == allModels[..i] + [allModels[i]];
      aliases := aliases[pid + "/" + allModels[i] := allModels[i]];
    }
    assert allModels[..|allModels|] == allModels;
    ghost var listed := allModels;
    AliasAdded(aliases, pid, listed, selected);
    if pid + "/" + selected !in aliases {
      aliases := aliases[pid + "/" + selected := selected];
      listed := listed + [selected];
    }
    AliasAdded(aliases, pid, listed, subagent);
    if subagent != "" {
      var subagentKey := pid + "/" + subagent;
      if subagentKey !in aliases {
        aliases := aliases[subagentKey := subagent];
      }
    }
  }

  // ------------------------------------------------------------- sorted keys

  method SortedKeys(values: map<string, string>) returns (keys: seq<string>)
    ensures SortedListOf(keys, values.Keys)
  {
    keys := [];
    var todo := values.Keys;
    while todo != {}
      invariant todo <= values.Keys && SortedListOf(keys, values.Keys - todo)
      decreases todo
    {
      var key :| key in todo;
      InsertedIsSorted(keys, values.Keys - todo, key);
      var k := InsertAt(keys, key);
      keys := keys[..k] + [key] + keys[k..];
      assert values.Keys - todo + {key} == values.Keys - (todo - {key});
      todo := todo - {key};
    }
    assert values.Keys - {} == values.Keys;
  }

  // --------------------------------------------------------- the main results

  lemma CatalogIsExact(selected: string, subagent: string)
    ensures Unrepeated(Catalog(selected, subagent)) && Known() <= Catalog(selected, subagent)
    ensures forall name :: name in Catalog(selected, subagent)
                      <==> name in Known() || name == selected || (name == subagent && subagent != "")
  {
    KnownIsUnrepeated();
    OneMore(Known(), selected);
    OneMore(if selected in Known() then Known() else Known() + [selected], subagent);
  }

  lemma OneMore(names: seq<string>, name: string)
    requires Unrepeated(names)
    ensures name !in names ==> Unrepeated(names + [name])
  {
  }

  /** Catalog, alias table and allowlist name the same models, once each, the references among them. */
  ghost predicate Agree<P>(m: Models<P>) {
    var qualified := set spec | spec in m.specs :: Qualified(m.provider, spec.id);
    && qualified == m.aliases.Keys
    && SortedListOf(m.allow, qualified)
    && (forall i, j :: 0 <= i < j < |m.specs| ==> m.specs[i].id != m.specs[j].id)
    && (forall spec :: spec in m.specs ==> m.aliases[Qualified(m.provider, spec.id)] == spec.id)
    && m.primary in m.aliases
    && (m.subagent.Some? ==> m.subagent.value in m.aliases)
  }

  method GenerateModels<P>(request: Request, resolve: string -> P) returns (m: Models<P>)
    ensures Agree(m)
    ensures m.provider == ProviderFor(request.provider)
    ensures m.provider
         == if TrimSpace(request.provider) == "" then "agentteams-gateway" else TrimSpace(request.provider)
    ensures var name := if request.model == "" then request.defaultModel else request.model;
            m.primary == Qualified(m.provider, BareName(m.provider, GATEWAY_PROVIDER, name))
    ensures var name := BareName(m.provider, GATEWAY_PROVIDER, request.subagentModel);
            m.subagent == if name == "" then None else Some(Qualified(m.provider, name))
    ensures forall spec :: spec in m.specs ==> spec.parameters == resolve(spec.id)
    ensures forall name :: name in Known() ==> Qualified(m.provider, name) in m.allow
  {
    var pid := ProviderFor(request.provider);
    var modelName := request.model;
    if modelName == "" {
      modelName := request.defaultModel;
    }
    modelName := TrimPrefix(modelName, pid + "/");
    modelName := TrimPrefix(modelName, GATEWAY_PROVIDER + "/");
    var subagentModel := TrimPrefix(request.subagentModel, pid + "/");
    subagentModel := TrimPrefix(subagentModel, GATEWAY_PROVIDER + "/");
    var aliases := AllModelAliases(pid, modelName, subagentModel);
    var allow := SortedKeys(aliases);
    var specs := AllModelSpecs(modelName, subagentModel, resolve);
    m := Models(pid, pid + "/" + modelName, if subagentModel != "" then Some(pid + "/" + subagentModel) else None,
                specs, aliases, allow);
    SpecsAgree(m, modelName, subagentModel);
  }

  lemma SpecsAgree<P>(m: Models<P>, selected: string, subagent: string)
    requires |m.specs| == |Catalog(selected, subagent)|
    requires forall k :: 0 <= k < |m.specs| ==> m.specs[k].id == Catalog(selected, subagent)[k]
    requires AliasesOf(m.aliases, m.provider, Catalog(selected, subagent))
    requires SortedListOf(m.allow, m.aliases.Keys)
    requires m.primary == Qualified(m.provider, selected)
    requires m.subagent.Some? ==> subagent != "" && m.subagent.value == Qualified(m.provider, subagent)
    ensures Agree(m)
    ensures forall name :: name in Known() ==> Qualified(m.provider, name) in m.allow
  {
    var names := Catalog(selected, subagent);
    CatalogIsExact(selected, subagent);
    var qualified := set spec | spec in m.specs :: Qualified(m.provider, spec.id);
    forall name | name in names
      ensures Qualified(m.provider, name) in qualified
    {
      var k :| 0 <= k < |names| && names[k] == name;
      assert m.specs[k] in m.specs;
    }
    assert qualified == Keys(m.provider, names);
  }
}
