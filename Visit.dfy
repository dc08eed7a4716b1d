/**
 * What walking a configuration tree does: the sequence of visitor hooks it
 * calls. Each section is dispatched by its kind to its block hook, and each
 * element of a block to the plugin or branch hook of that kind; the walk does
 * not descend into the bodies of branches.
 */
module Visit {
  import opened Ast

  /** One call of a `visit_<kind>_plugin` or `visit_<kind>_branch` hook. */
  datatype Hook =
    | PluginHook(kind: PluginType, plugin: Plugin)
    | BranchHook(kind: PluginType, branch: Branch)

  function ElementHook(kind: PluginType, element: BranchOrPlugin): Hook
  {
    match element
    case Plugin(p) => PluginHook(kind, p)
    case Branch(b) => BranchHook(kind, b)
  }

  /** The hooks the walk of one block of the given kind calls, one per element, in order. */
  function BlockHooks(kind: PluginType, block: Block): (hooks: seq<Hook>)
    ensures |hooks| == |block|
    ensures forall i | 0 <= i < |block| :: hooks[i].kind == kind
    ensures forall i | 0 <= i < |block| :: block[i].Plugin? ==> hooks[i] == PluginHook(kind, block[i].plugin)
    ensures forall i | 0 <= i < |block| :: block[i].Branch? ==> hooks[i] == BranchHook(kind, block[i].branch)
  {
    if block == [] then []
    else BlockHooks(kind, block[..|block| - 1]) + [ElementHook(kind, block[|block| - 1])]
  }

  /** The hooks the walk of the sections calls: section after section. */
  function ConfigHooks(sections: seq<PluginSection>): seq<Hook>
  {
    if sections == [] then []
    else
      var last := sections[|sections| - 1];
      ConfigHooks(sections[..|sections| - 1]) + BlockHooks(last.pluginType, last.block)
  }

  /** Every section is walked once, in order: the walk of a concatenation is the concatenation of the walks. */
  lemma {:induction false} ConfigHooksAppend(a: seq<PluginSection>, b: seq<PluginSection>)
    ensures ConfigHooks(a + b) == ConfigHooks(a) + ConfigHooks(b)
    decreases |b|
  {
    if b == [] {
      assert a + b == a;
    } else {
      var init, last := b[..|b| - 1], b[|b| - 1];
      assert (a + b)[..|a + b| - 1] == a + init;
      ConfigHooksAppend(a, init);
      var lastHooks := BlockHooks(last.pluginType, last.block);
      assert ConfigHooks(a + b) == ConfigHooks(a + init) + lastHooks;
      assert ConfigHooks(b) == ConfigHooks(init) + lastHooks;
    }
  }

  /** A single section is walked by the hooks of its own kind and no other. */
  lemma SectionHooksOfItsKind(section: PluginSection)
    ensures ConfigHooks([section]) == BlockHooks(section.pluginType, section.block)
    ensures forall h | h in ConfigHooks([section]) :: h.kind == section.pluginType
  {
    assert [section][..0] == [];
  }
}
