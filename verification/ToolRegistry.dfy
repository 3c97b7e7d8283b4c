/** Which tools and prompts the server has registered, from pkg/mcp/mcp.go with the filter of
    pkg/mcp/tool_filter.go and the mutators of pkg/mcp/tool_mutator.go. Reloads do not overlap. */
module ToolRegistry {
  import opened Options
  import opened Prompts

  datatype Tool = Tool(
    name: string, description: string, readOnlyHint: Option<bool>, destructiveHint: Option<bool>,
    listsTargets: bool, clusterAware: bool, parameters: set<string>)

  datatype ToolsetPrompt = ToolsetPrompt(prompt: Prompt, clusterAware: bool)

  /** What a reload reads from the provider. What a toolset offers depends on all of it. */
  datatype Provider = Provider(targetParameterName: string, isMultiTarget: bool, isOpenShift: bool)

  /** `None` stands for nil. */
  datatype StaticConfig = StaticConfig(
    readOnly: bool, disableDestructive: bool, enabledTools: Option<seq<string>>, disabledTools: Option<seq<string>>,
    toolsets: seq<string>, toolOverrides: map<string, string>, prompts: seq<Prompt>)

  /** The toolsets by name and what they offer, and which configurations pass validation. */
  datatype Catalog = Catalog(
    resolve: string -> string, getTools: (string, Provider) -> seq<Tool>, getPrompts: string -> seq<ToolsetPrompt>,
    validates: StaticConfig -> bool)

  // Reloading a table of named items.

  class Registry<T> {
    var items: map<string, T>

    constructor ()
      ensures items == map[]
    {
      items := map[];
    }

    method Remove(names: seq<string>)
      modifies this
      ensures items == old(items) - set n | n in names
    {
      items := items - set n | n in names;
    }

    method Add(name: string, item: T)
      modifies this
      ensures items == old(items)[name := item]
    {
      items := items[name := item];
    }
  }

  function Names<T>(items: seq<T>, getName: T -> string): (names: seq<string>)
    ensures |names| == |items|
  {
    seq(|items|, i requires 0 <= i < |items| => getName(items[i]))
  }

  /** The table after the items are registered in turn. */
  function Overlay<T>(table: map<string, T>, items: seq<T>, getName: T -> string): map<string, T>
    decreases items
  {
    if items == [] then table
    else
      var last := items[|items| - 1];
      Overlay(table, items[..|items| - 1], getName)[getName(last) := last]
  }

  function Dropped(previous: seq<string>, enabled: seq<string>): set<string>
  {
    set n | n in previous && n !in enabled
  }

  method ReloadItems<T>(registry: Registry<T>, previous: seq<string>, items: seq<T>, getName: T -> string)
    returns (enabled: seq<string>)
    modifies registry
    ensures enabled == Names(items, getName)
    ensures registry.items == Overlay(old(registry.items) - Dropped(previous, enabled), items, getName)
  {
    enabled := [];
    for i := 0 to |items|
      invariant enabled == Names(items, getName)[..i]
    {
      enabled := enabled + [getName(items[i])];
    }
    var toRemove := [];
    for i := 0 to |previous|
      invariant forall n :: n in toRemove <==> n in previous[..i] && n !in enabled
    {
      if previous[i] !in enabled {
        toRemove := toRemove + [previous[i]];
      }
    }
    assert previous[..|previous|] == previous;
    assert (set n | n in toRemove) == Dropped(previous, enabled);
    registry.Remove(toRemove);
    ghost var kept := registry.items;
    for i := 0 to |items|
      invariant registry.items == Overlay(kept, items[..i], getName)
    {
      assert items[..i + 1][..i] == items[..i];
      registry.Add(getName(items[i]), items[i]);
    }
    assert items[..|items|] == items;
  }

  ghost function ByName<T>(items: seq<T>, getName: T -> string): map<string, T>
  {
    Overlay(map[], items, getName)
  }

  lemma {:induction false} OverlayIs<T>(table: map<string, T>, items: seq<T>, getName: T -> string)
    ensures forall n :: n in Overlay(table, items, getName) <==> n in table || n in ByName(items, getName)
    ensures forall n :: n in Overlay(table, items, getName) ==>
              Overlay(table, items, getName)[n] == if n in ByName(items, getName) then ByName(items, getName)[n] else table[n]
    decreases items
  {
    if items != [] {
      OverlayIs(table, items[..|items| - 1], getName);
    }
  }

  /** The table holds the items under their names, and every name has an item. */
  lemma {:induction false} ByNameIs<T>(items: seq<T>, getName: T -> string)
    ensures forall n :: n in ByName(items, getName) <==> n in Names(items, getName)
    ensures forall n :: n in ByName(items, getName) ==>
              ByName(items, getName)[n] in items && getName(ByName(items, getName)[n]) == n
    decreases items
  {
    if items != [] {
      var k := |items| - 1;
      ByNameIs(items[..k], getName);
      assert items == items[..k] + [items[k]];
      assert Names(items, getName) == Names(items[..k], getName) + [getName(items[k])];
    }
  }

  /** After a reload nothing is left of what was registered before. */
  lemma ReloadForgets<T>(table: map<string, T>, previous: seq<string>, items: seq<T>, getName: T -> string)
    requires forall n :: n in table <==> n in previous
    ensures Overlay(table - Dropped(previous, Names(items, getName)), items, getName) == ByName(items, getName)
  {
    OverlayIs(table - Dropped(previous, Names(items, getName)), items, getName);
    ByNameIs(items, getName);
  }

  /** Among items of one name the last one stands in the table. */
  lemma {:induction false} LastItemStands<T>(items: seq<T>, getName: T -> string, i: nat)
    requires i < |items| && forall j :: i < j < |items| ==> getName(items[j]) != getName(items[i])
    ensures getName(items[i]) in ByName(items, getName) && ByName(items, getName)[getName(items[i])] == items[i]
    decreases items
  {
    var k := |items| - 1;
    if i < k {
      LastItemStands(items[..k], getName, i);
    }
  }

  // Which tools apply.

  predicate IsToolApplicable(c: StaticConfig, tool: Tool)
  {
    && !(c.readOnly && tool.readOnlyHint != Some(true))
    && !(c.disableDestructive && tool.destructiveHint == Some(true))
    && !(c.enabledTools.Some? && tool.name !in c.enabledTools.value)
    && !(c.disabledTools.Some? && tool.name in c.disabledTools.value)
  }

  const KUBECONFIG_TARGET := "context"
  const CONTEXTS_LIST := "configuration_contexts_list"
  const TARGETS_LIST := "targets_list"

  function TargetsListName(p: Provider): string
  {
    p.targetParameterName + "_list"
  }

  predicate ShouldIncludeTargetListTool(p: Provider, tool: Tool)
  {
    !tool.listsTargets
    || (&& p.isMultiTarget
        && !(tool.name == CONTEXTS_LIST && p.targetParameterName != KUBECONFIG_TARGET)
        && !(tool.name == TargetsListName(p) && p.targetParameterName == KUBECONFIG_TARGET))
  }

  predicate Passes(c: StaticConfig, p: Provider, tool: Tool)
  {
    IsToolApplicable(c, tool) && ShouldIncludeTargetListTool(p, tool)
  }

  function WithTargetParameter(p: Provider, tool: Tool): Tool
  {
    if tool.clusterAware && p.isMultiTarget then tool.(parameters := tool.parameters + {p.targetParameterName}) else tool
  }

  function WithTargetListTool(p: Provider, tool: Tool): Tool
  {
    if tool.name != TARGETS_LIST then tool
    else tool.(name := TargetsListName(p),
               description := "List all available " + p.targetParameterName + "s that can be targeted by tools")
  }

  function WithToolOverrides(c: StaticConfig, tool: Tool): Tool
  {
    if tool.name in c.toolOverrides && c.toolOverrides[tool.name] != ""
    then tool.(description := c.toolOverrides[tool.name]) else tool
  }

  function Mutate(c: StaticConfig, p: Provider, tool: Tool): Tool
  {
    WithToolOverrides(c, WithTargetListTool(p, WithTargetParameter(p, tool)))
  }

  function ApplicableIn(c: StaticConfig, p: Provider, tools: seq<Tool>): seq<Tool>
  {
    if tools == [] then []
    else
      var k := |tools| - 1;
      var tool := Mutate(c, p, tools[k]);
      ApplicableIn(c, p, tools[..k]) + if Passes(c, p, tool) then [tool] else []
  }

  function Applicable(cat: Catalog, c: StaticConfig, p: Provider, toolsets: seq<string>): seq<Tool>
  {
    if toolsets == [] then []
    else
      var k := |toolsets| - 1;
      Applicable(cat, c, p, toolsets[..k]) + ApplicableIn(c, p, cat.getTools(toolsets[k], p))
  }

  function WithPromptTargetParameter(p: Provider, t: ToolsetPrompt): Prompt
  {
    if t.clusterAware && p.isMultiTarget
    then t.prompt.(arguments := t.prompt.arguments + [PromptArgument(p.targetParameterName, false)]) else t.prompt
  }

  function MutatePrompts(p: Provider, prompts: seq<ToolsetPrompt>): (r: seq<Prompt>)
    ensures |r| == |prompts|
  {
    seq(|prompts|, i requires 0 <= i < |prompts| => WithPromptTargetParameter(p, prompts[i]))
  }

  function ToolsetPrompts(cat: Catalog, p: Provider, toolsets: seq<string>): seq<Prompt>
  {
    if toolsets == [] then []
    else
      var k := |toolsets| - 1;
      ToolsetPrompts(cat, p, toolsets[..k]) + MutatePrompts(p, cat.getPrompts(toolsets[k]))
  }

  function ApplicablePrompts(cat: Catalog, c: StaticConfig, p: Provider, toolsets: seq<string>): seq<Prompt>
  {
    Merged(ToolsetPrompts(cat, p, toolsets), c.prompts)
  }

  function Resolved(cat: Catalog, names: seq<string>): (r: seq<string>)
    ensures |r| == |names|
  {
    seq(|names|, i requires 0 <= i < |names| => cat.resolve(names[i]))
  }

  function ToolName(t: Tool): string { t.name }

  function PromptName(p: Prompt): string { p.name }

  ghost predicate SameNames<T>(table: map<string, T>, names: seq<string>)
  {
    forall n :: n in table <==> n in names
  }

  class Server {
    const catalog: Catalog
    var configuration: StaticConfig
    var toolsets: seq<string>           // the cache; empty stands for nil
    var enabledTools: seq<string>
    var enabledPrompts: seq<string>
    const tools: Registry<Tool>
    const prompts: Registry<Prompt>
    ghost var provider: Provider        // as the last reload found it

    /** The cached toolsets are those of the configuration. */
    predicate CacheCoherent()
      reads this
    {
      toolsets == [] || toolsets == Resolved(catalog, configuration.toolsets)
    }

    /** What is registered is what is listed as enabled. */
    ghost predicate Listed()
      reads this, tools, prompts
    {
      SameNames(tools.items, enabledTools) && SameNames(prompts.items, enabledPrompts)
    }

    /** What is registered and enabled follows from the configuration in force and the provider. */
    ghost predicate Valid()
      reads this, tools, prompts
    {
      var ts := Applicable(catalog, configuration, provider, Resolved(catalog, configuration.toolsets));
      var ps := ApplicablePrompts(catalog, configuration, provider, Resolved(catalog, configuration.toolsets));
      && CacheCoherent()
      && tools.items == ByName(ts, ToolName) && enabledTools == Names(ts, ToolName)
      && prompts.items == ByName(ps, PromptName) && enabledPrompts == Names(ps, PromptName)
    }

    constructor (catalog: Catalog, configuration: StaticConfig, p: Provider)
      ensures Valid() && fresh(tools) && fresh(prompts)
      ensures this.catalog == catalog && this.configuration == configuration && provider == p
    {
      this.catalog, this.configuration, toolsets := catalog, configuration, [];
      enabledTools, enabledPrompts := [], [];
      tools := new Registry<Tool>();
      prompts := new Registry<Prompt>();
      new;
      ReloadToolsets(p);
    }

    method Toolsets() returns (r: seq<string>)
      requires CacheCoherent()
      modifies this`toolsets
      ensures CacheCoherent() && r == Resolved(catalog, configuration.toolsets)
    {
      if toolsets == [] {
        for i := 0 to |configuration.toolsets|
          invariant toolsets == Resolved(catalog, configuration.toolsets)[..i]
        {
          toolsets := toolsets + [catalog.resolve(configuration.toolsets[i])];
        }
      }
      r := toolsets;
    }

    method CollectApplicableTools(p: Provider) returns (r: seq<Tool>)
      requires CacheCoherent()
      modifies this`toolsets
      ensures CacheCoherent()
      ensures r == Applicable(catalog, configuration, p, Resolved(catalog, configuration.toolsets))
    {
      r := [];
      var all := Toolsets();
      for i := 0 to |all|
        invariant CacheCoherent() && r == Applicable(catalog, configuration, p, all[..i])
      {
        var offered := catalog.getTools(all[i], p);
        ghost var before := r;
        for j := 0 to |offered|
          invariant CacheCoherent() && r == before + ApplicableIn(configuration, p, offered[..j])
        {
          assert offered[..j + 1][..j] == offered[..j];
          var tool := Mutate(configuration, p, offered[j]);
          if Passes(configuration, p, tool) {
            r := r + [tool];
          }
        }
        assert offered[..|offered|] == offered && all[..i + 1][..i] == all[..i];
      }
      assert all[..|all|] == all;
    }

    method CollectApplicablePrompts(p: Provider) returns (r: seq<Prompt>)
      requires CacheCoherent()
      modifies this`toolsets
      ensures CacheCoherent()
      ensures r == ApplicablePrompts(catalog, configuration, p, Resolved(catalog, configuration.toolsets))
    {
      var toolsetPrompts: seq<Prompt> := [];
      var all := Toolsets();
      for i := 0 to |all|
        invariant CacheCoherent() && toolsetPrompts == ToolsetPrompts(catalog, p, all[..i])
      {
        var offered := catalog.getPrompts(all[i]);
        ghost var before := toolsetPrompts;
        for j := 0 to |offered|
          invariant CacheCoherent() && toolsetPrompts == before + MutatePrompts(p, offered)[..j]
        {
          toolsetPrompts := toolsetPrompts + [WithPromptTargetParameter(p, offered[j])];
        }
        assert all[..i + 1][..i] == all[..i];
      }
      assert all[..|all|] == all;
      r := MergePrompts(toolsetPrompts, configuration.prompts);
    }

    method ReloadToolsets(p: Provider)
      requires CacheCoherent() && Listed()
      modifies this, tools, prompts
      ensures Valid() && provider == p && configuration == old(configuration)
    {
      var applicableTools := CollectApplicableTools(p);
      var applicablePrompts := CollectApplicablePrompts(p);
      var previousTools, previousPrompts := enabledTools, enabledPrompts;
      ReloadForgets(tools.items, previousTools, applicableTools, ToolName);
      ReloadForgets(prompts.items, previousPrompts, applicablePrompts, PromptName);
      var newTools := ReloadItems(tools, previousTools, applicableTools, ToolName);
      var newPrompts := ReloadItems(prompts, previousPrompts, applicablePrompts, PromptName);
      enabledTools, enabledPrompts := newTools, newPrompts;
      provider := p;
    }

    /** A configuration that fails validation changes nothing. */
    method ReloadConfiguration(newConfig: StaticConfig, p: Provider) returns (ok: bool)
      requires Valid()
      modifies this, tools, prompts
      ensures Valid() && ok == catalog.validates(newConfig)
      ensures ok ==> configuration == newConfig && provider == p
      ensures !ok ==> unchanged(this, tools, prompts)
    {
      if !catalog.validates(newConfig) {
        return false;
      }
      ValidIsListed();
      configuration := newConfig;
      toolsets := [];
      ReloadToolsets(p);
      ok := true;
    }

    /** The provider's targets changed, or what its cluster is. */
    method TargetsChanged(p: Provider)
      requires Valid()
      modifies this, tools, prompts
      ensures Valid() && provider == p && configuration == old(configuration)
    {
      ValidIsListed();
      ReloadToolsets(p);
    }

    /** The names registered are those enabled. */
    lemma ValidIsListed()
      requires Valid()
      ensures Listed()
    {
      ByNameIs(Applicable(catalog, configuration, provider, Resolved(catalog, configuration.toolsets)), ToolName);
      ByNameIs(ApplicablePrompts(catalog, configuration, provider, Resolved(catalog, configuration.toolsets)), PromptName);
    }
  }

  // What is registered.

  /** Some toolset of the configuration offers the tool. */
  ghost predicate Offered(cat: Catalog, p: Provider, toolsets: seq<string>, tool: Tool)
  {
    exists t :: t in toolsets && tool in cat.getTools(t, p)
  }

  lemma {:induction false} ApplicableInIs(c: StaticConfig, p: Provider, tools: seq<Tool>, tool: Tool)
    ensures tool in ApplicableIn(c, p, tools) <==> Passes(c, p, tool) && exists t :: t in tools && Mutate(c, p, t) == tool
  {
    if tools != [] {
      var k := |tools| - 1;
      ApplicableInIs(c, p, tools[..k], tool);
      assert tools == tools[..k] + [tools[k]];
    }
  }

  lemma {:induction false} ApplicableIs(cat: Catalog, c: StaticConfig, p: Provider, toolsets: seq<string>, tool: Tool)
    ensures tool in Applicable(cat, c, p, toolsets)
            <==> Passes(c, p, tool) && exists t :: Offered(cat, p, toolsets, t) && Mutate(c, p, t) == tool
  {
    if toolsets != [] {
      var k := |toolsets| - 1;
      var offered := cat.getTools(toolsets[k], p);
      ApplicableIs(cat, c, p, toolsets[..k], tool);
      ApplicableInIs(c, p, offered, tool);
      assert toolsets == toolsets[..k] + [toolsets[k]];
      assert forall t :: Offered(cat, p, toolsets, t) <==> Offered(cat, p, toolsets[..k], t) || t in offered;
    }
  }

  ghost function RegisteredTools(cat: Catalog, c: StaticConfig, p: Provider): map<string, Tool>
  {
    ByName(Applicable(cat, c, p, Resolved(cat, c.toolsets)), ToolName)
  }

  /** A toolset the configuration names offers the tool. */
  ghost predicate OfferedBy(cat: Catalog, c: StaticConfig, p: Provider, tool: Tool)
  {
    exists n :: n in c.toolsets && tool in cat.getTools(cat.resolve(n), p)
  }

  /** `tool` is the offered tool `t` as clients are to see it: renamed if it is the one that lists
      targets, with a parameter to choose the target if there are several to choose from, and with
      the description the configuration gives, if any. */
  ghost predicate Presents(c: StaticConfig, p: Provider, t: Tool, tool: Tool)
  {
    && tool.name == (if t.name == "targets_list" then p.targetParameterName + "_list" else t.name)
    && tool.parameters == t.parameters + (if t.clusterAware && p.isMultiTarget then {p.targetParameterName} else {})
    && tool.description == (if tool.name in c.toolOverrides && c.toolOverrides[tool.name] != "" then c.toolOverrides[tool.name]
                            else if t.name == "targets_list"
                            then "List all available " + p.targetParameterName + "s that can be targeted by tools"
                            else t.description)
    && tool.readOnlyHint == t.readOnlyHint && tool.destructiveHint == t.destructiveHint
    && tool.listsTargets == t.listsTargets && tool.clusterAware == t.clusterAware
  }

  /** No setting forbids the tool, and it lists targets only where there are several, one of the two
      list tools for contexts and the other for all else. */
  ghost predicate Permits(c: StaticConfig, p: Provider, tool: Tool)
  {
    && (c.readOnly ==> tool.readOnlyHint == Some(true))
    && (c.disableDestructive ==> tool.destructiveHint != Some(true))
    && (c.enabledTools.Some? ==> tool.name in c.enabledTools.value)
    && (c.disabledTools.Some? ==> tool.name !in c.disabledTools.value)
    && (tool.listsTargets ==>
          && p.isMultiTarget
          && (tool.name == "configuration_contexts_list" ==> p.targetParameterName == "context")
          && (tool.name == p.targetParameterName + "_list" ==> p.targetParameterName != "context"))
  }

  lemma MutateExactly(c: StaticConfig, p: Provider, t: Tool, tool: Tool)
    ensures Presents(c, p, t, tool) <==> tool == Mutate(c, p, t)
    ensures Permits(c, p, tool) <==> Passes(c, p, tool)
  {
    assert t.parameters + {} == t.parameters;
  }

  lemma OfferedExactly(cat: Catalog, c: StaticConfig, p: Provider, tool: Tool)
    ensures Offered(cat, p, Resolved(cat, c.toolsets), tool) <==> OfferedBy(cat, c, p, tool)
  {
    var toolsets := Resolved(cat, c.toolsets);
    if t :| t in toolsets && tool in cat.getTools(t, p) {
      var i :| 0 <= i < |toolsets| && toolsets[i] == t;
      assert c.toolsets[i] in c.toolsets;
    }
    if n :| n in c.toolsets && tool in cat.getTools(cat.resolve(n), p) {
      var i :| 0 <= i < |c.toolsets| && c.toolsets[i] == n;
      assert toolsets[i] in toolsets;
    }
  }

  /** The tools collected are those offered, as clients are to see them, that nothing forbids. */
  lemma ApplicableExactly(cat: Catalog, c: StaticConfig, p: Provider, tool: Tool)
    ensures tool in Applicable(cat, c, p, Resolved(cat, c.toolsets))
            <==> Permits(c, p, tool) && exists t :: OfferedBy(cat, c, p, t) && Presents(c, p, t, tool)
  {
    var toolsets := Resolved(cat, c.toolsets);
    ApplicableIs(cat, c, p, toolsets, tool);
    forall t
      ensures Presents(c, p, t, tool) <==> tool == Mutate(c, p, t)
      ensures Permits(c, p, tool) <==> Passes(c, p, tool)
      ensures Offered(cat, p, toolsets, t) <==> OfferedBy(cat, c, p, t)
    {
      MutateExactly(c, p, t, tool);
      OfferedExactly(cat, c, p, t);
    }
    MutateExactly(c, p, tool, tool);
    if Permits(c, p, tool) && exists t :: OfferedBy(cat, c, p, t) && Presents(c, p, t, tool) {
      var t :| OfferedBy(cat, c, p, t) && Presents(c, p, t, tool);
      assert Offered(cat, p, toolsets, t) && Mutate(c, p, t) == tool;
    }
  }

  /** A name is registered exactly when some toolset of the configuration offers a tool that clients
      are to see under this name and that nothing forbids; and what is registered under it is such
      a tool, as clients are to see it. */
  lemma RegisteredExactly(cat: Catalog, c: StaticConfig, p: Provider, n: string)
    ensures n in RegisteredTools(cat, c, p)
            <==> exists t, tool :: OfferedBy(cat, c, p, t) && Presents(c, p, t, tool) && tool.name == n && Permits(c, p, tool)
    ensures n in RegisteredTools(cat, c, p) ==>
              var tool := RegisteredTools(cat, c, p)[n];
              && tool.name == n && Permits(c, p, tool)
              && exists t :: OfferedBy(cat, c, p, t) && Presents(c, p, t, tool)
  {
    var tools := Applicable(cat, c, p, Resolved(cat, c.toolsets));
    ByNameIs(tools, ToolName);
    if n in RegisteredTools(cat, c, p) {
      ApplicableExactly(cat, c, p, RegisteredTools(cat, c, p)[n]);
    }
    forall t, tool | OfferedBy(cat, c, p, t) && Presents(c, p, t, tool) && tool.name == n && Permits(c, p, tool)
      ensures n in Names(tools, ToolName)
    {
      ApplicableExactly(cat, c, p, tool);
      var i :| 0 <= i < |tools| && tools[i] == tool;
      assert Names(tools, ToolName)[i] == ToolName(tools[i]) == n;
    }
  }

  /** An offered tool that nothing forbids is registered. */
  lemma UnforbiddenIsRegistered(cat: Catalog, c: StaticConfig, p: Provider, t: Tool, tool: Tool)
    requires OfferedBy(cat, c, p, t) && Presents(c, p, t, tool) && Permits(c, p, tool)
    ensures tool.name in RegisteredTools(cat, c, p)
  {
    RegisteredExactly(cat, c, p, tool.name);
  }

  // Which of several tools of one name.

  lemma {:induction false} ByNameSkips<T>(a: seq<T>, b: seq<T>, getName: T -> string, n: string)
    requires forall i :: 0 <= i < |b| ==> getName(b[i]) != n
    ensures n in ByName(a + b, getName) <==> n in ByName(a, getName)
    ensures n in ByName(a, getName) ==> ByName(a + b, getName)[n] == ByName(a, getName)[n]
    decreases b
  {
    if b == [] {
      assert a + b == a;
    } else {
      var k := |b| - 1;
      assert (a + b)[..|a + b| - 1] == a + b[..k];
      ByNameSkips(a, b[..k], getName, n);
    }
  }

  /** What the `k`th toolset the configuration names offers. */
  function Offers(cat: Catalog, c: StaticConfig, p: Provider, k: nat): seq<Tool>
    requires k < |c.toolsets|
  {
    cat.getTools(cat.resolve(c.toolsets[k]), p)
  }

  /** As clients are to see it, the offered tool is forbidden or has another name. */
  ghost predicate NotNamed(c: StaticConfig, p: Provider, t: Tool, n: string)
  {
    Mutate(c, p, t).name != n || !Passes(c, p, Mutate(c, p, t))
  }

  lemma {:induction false} NoneNamed(c: StaticConfig, p: Provider, tools: seq<Tool>, n: string)
    requires forall j :: 0 <= j < |tools| ==> NotNamed(c, p, tools[j], n)
    ensures forall i :: 0 <= i < |ApplicableIn(c, p, tools)| ==> ToolName(ApplicableIn(c, p, tools)[i]) != n
    decreases tools
  {
    if tools != [] {
      assert NotNamed(c, p, tools[|tools| - 1], n);
      NoneNamed(c, p, tools[..|tools| - 1], n);
    }
  }

  lemma {:induction false} LastInToolset(before: seq<Tool>, c: StaticConfig, p: Provider, tools: seq<Tool>, j: nat, tool: Tool)
    requires j < |tools| && Mutate(c, p, tools[j]) == tool && Passes(c, p, tool)
    requires forall i :: j < i < |tools| ==> NotNamed(c, p, tools[i], tool.name)
    ensures var all := ByName(before + ApplicableIn(c, p, tools), ToolName);
            tool.name in all && all[tool.name] == tool
    decreases tools
  {
    var k := |tools| - 1;
    var last := Mutate(c, p, tools[k]);
    var rest := before + ApplicableIn(c, p, tools[..k]);
    assert before + ApplicableIn(c, p, tools) == rest + if Passes(c, p, last) then [last] else [];
    if j == k {
      LastItemStands(rest + [tool], ToolName, |rest|);
    } else {
      LastInToolset(before, c, p, tools[..k], j, tool);
      assert NotNamed(c, p, tools[k], tool.name);
      ByNameSkips(rest, if Passes(c, p, last) then [last] else [], ToolName, tool.name);
    }
  }

  lemma {:induction false} LastInToolsets(cat: Catalog, c: StaticConfig, p: Provider, toolsets: seq<string>, k: nat, j: nat, tool: Tool)
    requires k < |toolsets| && j < |cat.getTools(toolsets[k], p)|
    requires Mutate(c, p, cat.getTools(toolsets[k], p)[j]) == tool && Passes(c, p, tool)
    requires forall i :: j < i < |cat.getTools(toolsets[k], p)| ==> NotNamed(c, p, cat.getTools(toolsets[k], p)[i], tool.name)
    requires forall l :: k < l < |toolsets| ==>
               forall i :: 0 <= i < |cat.getTools(toolsets[l], p)| ==> NotNamed(c, p, cat.getTools(toolsets[l], p)[i], tool.name)
    ensures var all := ByName(Applicable(cat, c, p, toolsets), ToolName);
            tool.name in all && all[tool.name] == tool
    decreases toolsets
  {
    var m := |toolsets| - 1;
    var before, tools := Applicable(cat, c, p, toolsets[..m]), cat.getTools(toolsets[m], p);
    if k == m {
      LastInToolset(before, c, p, tools, j, tool);
    } else {
      LastInToolsets(cat, c, p, toolsets[..m], k, j, tool);
      NoneNamed(c, p, tools, tool.name);
      ByNameSkips(before, ApplicableIn(c, p, tools), ToolName, tool.name);
    }
  }

  /** Of the tools clients are to see under one name, the one offered last, in the order of the
      configured toolsets and of what each offers, is registered. */
  lemma LastOfferedIsRegistered(cat: Catalog, c: StaticConfig, p: Provider, k: nat, j: nat, tool: Tool)
    requires k < |c.toolsets| && j < |Offers(cat, c, p, k)|
    requires Presents(c, p, Offers(cat, c, p, k)[j], tool) && Permits(c, p, tool)
    requires forall l, i, other ::
               (&& k <= l < |c.toolsets| && 0 <= i < |Offers(cat, c, p, l)| && (l == k ==> i > j)
                && Presents(c, p, Offers(cat, c, p, l)[i], other) && Permits(c, p, other)) ==> other.name != tool.name
    ensures tool.name in RegisteredTools(cat, c, p) && RegisteredTools(cat, c, p)[tool.name] == tool
  {
    MutateExactly(c, p, Offers(cat, c, p, k)[j], tool);
    forall l, i | k <= l < |c.toolsets| && 0 <= i < |Offers(cat, c, p, l)| && (l == k ==> i > j)
      ensures NotNamed(c, p, Offers(cat, c, p, l)[i], tool.name)
    {
      MutateExactly(c, p, Offers(cat, c, p, l)[i], Mutate(c, p, Offers(cat, c, p, l)[i]));
    }
    var toolsets := Resolved(cat, c.toolsets);
    forall l, i | k <= l < |toolsets| && 0 <= i < |cat.getTools(toolsets[l], p)| && (l == k ==> i > j)
      ensures NotNamed(c, p, cat.getTools(toolsets[l], p)[i], tool.name)
    {
      assert cat.getTools(toolsets[l], p) == Offers(cat, c, p, l);
    }
    LastInToolsets(cat, c, p, toolsets, k, j, tool);
  }

  // The prompts.

  ghost function RegisteredPrompts(cat: Catalog, c: StaticConfig, p: Provider): map<string, Prompt>
  {
    ByName(ApplicablePrompts(cat, c, p, Resolved(cat, c.toolsets)), PromptName)
  }

  ghost predicate PromptOfferedBy(cat: Catalog, c: StaticConfig, t: ToolsetPrompt)
  {
    exists n :: n in c.toolsets && t in cat.getPrompts(cat.resolve(n))
  }

  /** The prompt as clients are to see it: with an optional argument to choose the target if there
      are several. */
  ghost predicate PresentsPrompt(p: Provider, t: ToolsetPrompt, prompt: Prompt)
  {
    && prompt.name == t.prompt.name && prompt.description == t.prompt.description && prompt.templates == t.prompt.templates
    && prompt.arguments == t.prompt.arguments
                           + if t.clusterAware && p.isMultiTarget then [PromptArgument(p.targetParameterName, false)] else []
  }

  lemma {:induction false} ToolsetPromptsAre(cat: Catalog, p: Provider, toolsets: seq<string>, prompt: Prompt)
    ensures prompt in ToolsetPrompts(cat, p, toolsets)
            <==> exists k, t :: 0 <= k < |toolsets| && t in cat.getPrompts(toolsets[k]) && PresentsPrompt(p, t, prompt)
    decreases toolsets
  {
    if toolsets != [] {
      var m := |toolsets| - 1;
      ToolsetPromptsAre(cat, p, toolsets[..m], prompt);
      MutatedPromptsAre(p, cat.getPrompts(toolsets[m]), prompt);
    }
  }

  lemma MutatedPromptsAre(p: Provider, prompts: seq<ToolsetPrompt>, prompt: Prompt)
    ensures prompt in MutatePrompts(p, prompts) <==> exists t :: t in prompts && PresentsPrompt(p, t, prompt)
  {
    forall t ensures PresentsPrompt(p, t, prompt) <==> prompt == WithPromptTargetParameter(p, t) {
      assert t.prompt.arguments + [] == t.prompt.arguments;
    }
    if t :| t in prompts && PresentsPrompt(p, t, prompt) {
      var i :| 0 <= i < |prompts| && prompts[i] == t;
      assert MutatePrompts(p, prompts)[i] == prompt;
    }
  }

  lemma NamedIsName(prompts: seq<Prompt>, n: string)
    ensures n in Names(prompts, PromptName) <==> Named(prompts, n)
    ensures Named(prompts, n) <==> exists q :: q in prompts && q.name == n
  {
    if i :| 0 <= i < |prompts| && prompts[i].name == n {
      assert Names(prompts, PromptName)[i] == PromptName(prompts[i]) == n && prompts[i] in prompts;
    }
    if n in Names(prompts, PromptName) {
      var i :| 0 <= i < |prompts| && Names(prompts, PromptName)[i] == n;
      assert PromptName(prompts[i]) == n;
    }
  }

  /** A prompt is registered under a name exactly when the configuration has one of that name or a
      toolset offers one; what is registered is the configuration's own if it has one, and else one
      that is offered, as clients are to see it. */
  lemma PromptRegisteredExactly(cat: Catalog, c: StaticConfig, p: Provider, n: string)
    ensures n in RegisteredPrompts(cat, c, p)
            <==> (exists q :: q in c.prompts && q.name == n) || exists t :: PromptOfferedBy(cat, c, t) && t.prompt.name == n
    ensures n in RegisteredPrompts(cat, c, p) ==>
              var prompt := RegisteredPrompts(cat, c, p)[n];
              && prompt.name == n
              && if exists q :: q in c.prompts && q.name == n then prompt in c.prompts
                 else exists t :: PromptOfferedBy(cat, c, t) && PresentsPrompt(p, t, prompt)
  {
    var toolsets := Resolved(cat, c.toolsets);
    var offered := ToolsetPrompts(cat, p, toolsets);
    var all := ApplicablePrompts(cat, c, p, toolsets);
    ByNameIs(all, PromptName);
    OverrideWinsByName(offered, c.prompts, n);
    NamedIsName(all, n);
    NamedIsName(offered, n);
    NamedIsName(c.prompts, n);
    OfferedPromptNamed(cat, c, p, n);
    if n in RegisteredPrompts(cat, c, p) {
      RegisteredPromptIs(cat, c, p, n);
    }
  }

  lemma OfferedPromptNamed(cat: Catalog, c: StaticConfig, p: Provider, n: string)
    ensures (exists q :: q in ToolsetPrompts(cat, p, Resolved(cat, c.toolsets)) && q.name == n)
            <==> exists t :: PromptOfferedBy(cat, c, t) && t.prompt.name == n
  {
    var toolsets := Resolved(cat, c.toolsets);
    if q :| q in ToolsetPrompts(cat, p, toolsets) && q.name == n {
      var t := PromptComesFrom(cat, c, p, q);
    }
    if t :| PromptOfferedBy(cat, c, t) && t.prompt.name == n {
      var q := WithPromptTargetParameter(p, t);
      assert t.prompt.arguments + [] == t.prompt.arguments;
      var name :| name in c.toolsets && t in cat.getPrompts(cat.resolve(name));
      var k :| 0 <= k < |c.toolsets| && c.toolsets[k] == name;
      assert t in cat.getPrompts(toolsets[k]) && PresentsPrompt(p, t, q);
      ToolsetPromptsAre(cat, p, toolsets, q);
    }
  }

  lemma PromptComesFrom(cat: Catalog, c: StaticConfig, p: Provider, q: Prompt) returns (t: ToolsetPrompt)
    requires q in ToolsetPrompts(cat, p, Resolved(cat, c.toolsets))
    ensures PromptOfferedBy(cat, c, t) && PresentsPrompt(p, t, q)
  {
    var toolsets := Resolved(cat, c.toolsets);
    ToolsetPromptsAre(cat, p, toolsets, q);
    var k: int;
    k, t :| 0 <= k < |toolsets| && t in cat.getPrompts(toolsets[k]) && PresentsPrompt(p, t, q);
    assert c.toolsets[k] in c.toolsets;
  }

  lemma RegisteredPromptIs(cat: Catalog, c: StaticConfig, p: Provider, n: string)
    requires n in RegisteredPrompts(cat, c, p)
    ensures var prompt := RegisteredPrompts(cat, c, p)[n];
            && prompt.name == n
            && if Named(c.prompts, n) then prompt in c.prompts
               else exists t :: PromptOfferedBy(cat, c, t) && PresentsPrompt(p, t, prompt)
  {
    var offered := ToolsetPrompts(cat, p, Resolved(cat, c.toolsets));
    var all := Merged(offered, c.prompts);
    ByNameIs(all, PromptName);
    var prompt := RegisteredPrompts(cat, c, p)[n];
    OverrideWinsByName(offered, c.prompts, n);
    OfHolds(all, prompt);
    if Named(c.prompts, n) {
      OfHolds(c.prompts, prompt);
    } else {
      OfHolds(offered, prompt);
      var t := PromptComesFrom(cat, c, p, prompt);
    }
  }

  lemma {:induction false} OfHolds(prompts: seq<Prompt>, prompt: Prompt)
    ensures prompt in prompts <==> prompt in Of(prompts, prompt.name)
    decreases prompts
  {
    if prompts != [] {
      OfHolds(prompts[1..], prompt);
    }
  }

  /** What the configuration forbids is not registered: nothing that may write in a read-only
      server, nothing destructive where that is disabled, nothing outside the enabled names and
      nothing among the disabled ones. */
  lemma ForbiddenIsNotRegistered(cat: Catalog, c: StaticConfig, p: Provider, n: string)
    requires n in RegisteredTools(cat, c, p)
    ensures var tool := RegisteredTools(cat, c, p)[n];
            && (c.readOnly ==> tool.readOnlyHint == Some(true))
            && (c.disableDestructive ==> tool.destructiveHint != Some(true))
            && (c.enabledTools.Some? ==> n in c.enabledTools.value)
            && (c.disabledTools.Some? ==> n !in c.disabledTools.value)
  {
    RegisteredExactly(cat, c, p, n);
  }

  /** Renaming comes before filtering: the generic name of the tool that lists targets is never
      registered, so enabling or disabling it by that name does nothing, unless the targets are
      called just that. */
  lemma GenericNameIsNotRegistered(cat: Catalog, c: StaticConfig, p: Provider)
    requires TARGETS_LIST in RegisteredTools(cat, c, p)
    ensures TargetsListName(p) == TARGETS_LIST
  {
    RegisteredExactly(cat, c, p, TARGETS_LIST);
  }

  /** At most one of the two tools that list targets is registered, and none for a single target. */
  lemma ListToolsExclude(cat: Catalog, c: StaticConfig, p: Provider, m: string, n: string)
    requires m in RegisteredTools(cat, c, p) && RegisteredTools(cat, c, p)[m].listsTargets
    requires n in RegisteredTools(cat, c, p) && RegisteredTools(cat, c, p)[n].listsTargets
    ensures p.isMultiTarget && !(m == CONTEXTS_LIST && n == TargetsListName(p))
  {
    RegisteredExactly(cat, c, p, m);
    RegisteredExactly(cat, c, p, n);
  }

  /** The second configuration differs only in allowing no more tools. */
  ghost predicate Narrower(c: StaticConfig, d: StaticConfig)
  {
    && d.toolsets == c.toolsets && d.toolOverrides == c.toolOverrides
    && (c.readOnly ==> d.readOnly) && (c.disableDestructive ==> d.disableDestructive)
    && (c.enabledTools.Some? ==> d.enabledTools.Some? && forall n :: n in d.enabledTools.value ==> n in c.enabledTools.value)
    && (c.disabledTools.Some? ==> d.disabledTools.Some? && forall n :: n in c.disabledTools.value ==> n in d.disabledTools.value)
  }

  /** Reloading with a narrower configuration adds no tool. */
  lemma NarrowingOnlyRemoves(cat: Catalog, c: StaticConfig, d: StaticConfig, p: Provider, n: string)
    requires Narrower(c, d) && n in RegisteredTools(cat, d, p)
    ensures n in RegisteredTools(cat, c, p)
  {
    RegisteredExactly(cat, d, p, n);
    var t, tool :| OfferedBy(cat, d, p, t) && Presents(d, p, t, tool) && tool.name == n && Permits(d, p, tool);
    assert OfferedBy(cat, c, p, t) && Presents(c, p, t, tool);
    RegisteredExactly(cat, c, p, n);
  }
}
