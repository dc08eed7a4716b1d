/**
 * Compiling a configuration tree into a session: the compiler walks the tree
 * and, in input sections, asks a plugin provider for each plugin; it collects
 * diagnostics instead of stopping at the first problem.
 *
 * The provider is modelled by the set of input plugin names it can build.
 */
module Compile {
  import opened Ast
  import opened Visit
  import opened Pipeline

  const CannotCreateInput: string := "Cannot create input plugin"
  const ConditionalInput: string := "Conditional inputs are forbidden"

  /** The part of a session the compiler changes. */
  datatype SessionState = SessionState(errors: seq<string>, inputs: seq<InputPlugin>)

  // ---------------------------------------------------------- specification

  /** What one hook call does to the session. Only the input hooks do anything. */
  function Effect(provider: set<string>, hook: Hook, st: SessionState): SessionState
  {
    match hook
    case PluginHook(Input, p) =>
      if p.name in provider then st.(inputs := st.inputs + [InputPlugin(p.name)])
      else st.(errors := st.errors + [CannotCreateInput])
    case BranchHook(Input, _) => st.(errors := st.errors + [ConditionalInput])
    case _ => st
  }

  /** The session after a sequence of hook calls. */
  function Run(provider: set<string>, hooks: seq<Hook>, st: SessionState): SessionState
  {
    if hooks == [] then st
    else Effect(provider, hooks[|hooks| - 1], Run(provider, hooks[..|hooks| - 1], st))
  }

  /** The session `compile` returns. */
  function Compiled(provider: set<string>, config: Config): SessionState
  {
    Run(provider, ConfigHooks(config.sections), SessionState([], []))
  }

  // ------------------------------------------------------ a direct reference

  /** The elements of the input sections, in order. */
  function InputElements(sections: seq<PluginSection>): seq<BranchOrPlugin>
  {
    if sections == [] then []
    else
      var last := sections[|sections| - 1];
      InputElements(sections[..|sections| - 1]) + (if last.pluginType == Input then last.block else [])
  }

  /** One diagnostic per input branch and per input plugin the provider does not know. */
  function Errors(provider: set<string>, elements: seq<BranchOrPlugin>): seq<string>
  {
    if elements == [] then []
    else
      var last := elements[|elements| - 1];
      Errors(provider, elements[..|elements| - 1])
        + (if last.Branch? then [ConditionalInput]
           else if last.plugin.name !in provider then [CannotCreateInput]
           else [])
  }

  /** One instance per input plugin the provider knows. */
  function Instances(provider: set<string>, elements: seq<BranchOrPlugin>): seq<InputPlugin>
  {
    if elements == [] then []
    else
      var last := elements[|elements| - 1];
      Instances(provider, elements[..|elements| - 1])
        + (if last.Plugin? && last.plugin.name in provider then [InputPlugin(last.plugin.name)] else [])
  }

  lemma {:induction false} RunAppend(provider: set<string>, a: seq<Hook>, b: seq<Hook>, st: SessionState)
    ensures Run(provider, a + b, st) == Run(provider, b, Run(provider, a, st))
    decreases |b|
  {
    if b == [] {
      assert a + b == a;
    } else {
      assert (a + b)[..|a + b| - 1] == a + b[..|b| - 1];
      RunAppend(provider, a, b[..|b| - 1], st);
    }
  }

  /** Walking a block adds the diagnostics and instances of its elements when it is an input block, and nothing otherwise. */
  lemma {:induction false} RunBlock(provider: set<string>, kind: PluginType, block: Block, st: SessionState)
    ensures kind == Input ==>
      Run(provider, BlockHooks(kind, block), st)
        == SessionState(st.errors + Errors(provider, block), st.inputs + Instances(provider, block))
    ensures kind != Input ==> Run(provider, BlockHooks(kind, block), st) == st
    decreases |block|
  {
    if block == [] {
      assert st.errors + [] == st.errors && st.inputs + [] == st.inputs;
    } else {
      var init, last := block[..|block| - 1], block[|block| - 1];
      var hooks := BlockHooks(kind, block);
      assert hooks[..|hooks| - 1] == BlockHooks(kind, init);
      RunBlock(provider, kind, init, st);
      var errs, insts := Errors(provider, init), Instances(provider, init);
      AppendAssoc(st.errors, errs, if last.Branch? then [ConditionalInput]
        else if last.plugin.name !in provider then [CannotCreateInput] else []);
      AppendAssoc(st.inputs, insts,
        if last.Plugin? && last.plugin.name in provider then [InputPlugin(last.plugin.name)] else []);
    }
  }

  lemma {:induction false} RunSnoc(provider: set<string>, hooks: seq<Hook>, hook: Hook, st: SessionState)
    ensures Run(provider, hooks + [hook], st) == Effect(provider, hook, Run(provider, hooks, st))
  {
    assert (hooks + [hook])[..|hooks|] == hooks;
  }

  lemma {:induction false} BlockHooksSnoc(kind: PluginType, block: Block, i: nat)
    requires i < |block|
    ensures BlockHooks(kind, block[..i + 1]) == BlockHooks(kind, block[..i]) + [ElementHook(kind, block[i])]
  {
    assert block[..i + 1][..i] == block[..i];
  }

  lemma ConfigHooksSnoc(sections: seq<PluginSection>, i: nat)
    requires i < |sections|
    ensures ConfigHooks(sections[..i + 1]) == ConfigHooks(sections[..i]) + BlockHooks(sections[i].pluginType, sections[i].block)
  {
    assert sections[..i + 1][..i] == sections[..i];
  }

  lemma AppendAssoc<T>(a: seq<T>, b: seq<T>, c: seq<T>)
    ensures a + (b + c) == (a + b) + c
  {
  }

  /**
   * Compilation never stops early: the session holds one diagnostic per input
   * branch or unknown input plugin and one instance per known input plugin,
   * in the order of the configuration.
   */
  lemma {:induction false} CompiledReference(provider: set<string>, sections: seq<PluginSection>)
    ensures Run(provider, ConfigHooks(sections), SessionState([], []))
      == SessionState(Errors(provider, InputElements(sections)), Instances(provider, InputElements(sections)))
    decreases |sections|
  {
    if sections != [] {
      var init, last := sections[..|sections| - 1], sections[|sections| - 1];
      var empty := SessionState([], []);
      var before := Run(provider, ConfigHooks(init), empty);
      var lastHooks := BlockHooks(last.pluginType, last.block);
      CompiledReference(provider, init);
      assert ConfigHooks(sections) == ConfigHooks(init) + lastHooks;
      RunAppend(provider, ConfigHooks(init), lastHooks, empty);
      RunBlock(provider, last.pluginType, last.block, before);
      if last.pluginType == Input {
        assert InputElements(sections) == InputElements(init) + last.block;
        ErrorsAppend(provider, InputElements(init), last.block);
        InstancesAppend(provider, InputElements(init), last.block);
      } else {
        assert InputElements(sections) == InputElements(init) + [];
        assert InputElements(init) + [] == InputElements(init);
      }
    }
  }

  lemma {:induction false} ErrorsAppend(provider: set<string>, a: seq<BranchOrPlugin>, b: seq<BranchOrPlugin>)
    ensures Errors(provider, a + b) == Errors(provider, a) + Errors(provider, b)
    decreases |b|
  {
    if b == [] {
      assert a + b == a;
    } else {
      assert (a + b)[..|a + b| - 1] == a + b[..|b| - 1];
      ErrorsAppend(provider, a, b[..|b| - 1]);
    }
  }

  lemma {:induction false} InstancesAppend(provider: set<string>, a: seq<BranchOrPlugin>, b: seq<BranchOrPlugin>)
    ensures Instances(provider, a + b) == Instances(provider, a) + Instances(provider, b)
    decreases |b|
  {
    if b == [] {
      assert a + b == a;
    } else {
      assert (a + b)[..|a + b| - 1] == a + b[..|b| - 1];
      InstancesAppend(provider, a, b[..|b| - 1]);
    }
  }

  /** Every input element gives exactly one diagnostic or exactly one instance. */
  lemma {:induction false} EachInputAccountedFor(provider: set<string>, elements: seq<BranchOrPlugin>)
    ensures |Errors(provider, elements)| + |Instances(provider, elements)| == |elements|
    ensures forall i | 0 <= i < |Errors(provider, elements)| ::
      Errors(provider, elements)[i] == CannotCreateInput || Errors(provider, elements)[i] == ConditionalInput
    ensures forall i | 0 <= i < |Instances(provider, elements)| :: Instances(provider, elements)[i].name in provider
    decreases |elements|
  {
    if elements != [] {
      EachInputAccountedFor(provider, elements[..|elements| - 1]);
    }
  }

  /** Filter and output sections change nothing in the session. */
  lemma FilterAndOutputChangeNothing(provider: set<string>, sections: seq<PluginSection>, section: PluginSection)
    requires section.pluginType != Input
    ensures Compiled(provider, Config(sections + [section])) == Compiled(provider, Config(sections))
  {
    var all := sections + [section];
    assert all[..|all| - 1] == sections;
    CompiledReference(provider, all);
    CompiledReference(provider, sections);
    assert InputElements(all) == InputElements(sections) + [];
    assert InputElements(sections) + [] == InputElements(sections);
  }

  // ------------------------------------------------------------- the classes

  class Session {
    var errors: seq<string>
    const inputs: InputSection

    /** A fresh session: no diagnostics and no input plugins. */
    constructor ()
      ensures errors == [] && inputs.inputs == [] && fresh(inputs)
    {
      errors := [];
      inputs := new InputSection();
    }
  }

  class Compiler {
    const provider: set<string>
    const sess: Session
    /** The hooks called so far, in order. */
    ghost var visited: seq<Hook>

    constructor (provider: set<string>, sess: Session)
      ensures this.provider == provider && this.sess == sess && visited == []
    {
      this.provider := provider;
      this.sess := sess;
      visited := [];
    }

    function State(): SessionState
      reads sess, sess.inputs
    {
      SessionState(sess.errors, sess.inputs.inputs)
    }

    /** A plugin the provider knows is added to the inputs; any other is reported. */
    method VisitInputPlugin(plugin: Plugin)
      modifies this, sess, sess.inputs
      ensures plugin.name in provider ==>
        sess.errors == old(sess.errors) && sess.inputs.inputs == old(sess.inputs.inputs) + [InputPlugin(plugin.name)]
      ensures plugin.name !in provider ==>
        sess.errors == old(sess.errors) + [CannotCreateInput] && sess.inputs.inputs == old(sess.inputs.inputs)
      ensures State() == Effect(provider, PluginHook(Input, plugin), old(State()))
      ensures visited == old(visited) + [PluginHook(Input, plugin)]
    {
      if plugin.name in provider {
        sess.inputs.AddPlugin(InputPlugin(plugin.name));
      } else {
        sess.errors := sess.errors + [CannotCreateInput];
      }
      visited := visited + [PluginHook(Input, plugin)];
    }

    /** A branch in an input section is reported; nothing inside it is built. */
    method VisitInputBranch(branch: Branch)
      modifies this, sess
      ensures sess.errors == old(sess.errors) + [ConditionalInput]
      ensures State() == Effect(provider, BranchHook(Input, branch), old(State()))
      ensures visited == old(visited) + [BranchHook(Input, branch)]
    {
      sess.errors := sess.errors + [ConditionalInput];
      visited := visited + [BranchHook(Input, branch)];
    }

    /** The default hooks: they change nothing. */
    method VisitDefault(hook: Hook)
      requires hook.kind != Input
      modifies this
      ensures State() == old(State()) == Effect(provider, hook, old(State()))
      ensures visited == old(visited) + [hook]
    {
      visited := visited + [hook];
    }

    /** A plugin goes to the plugin hook of the block's kind, a branch to its branch hook. */
    method VisitElement(kind: PluginType, element: BranchOrPlugin)
      modifies this, sess, sess.inputs
      ensures visited == old(visited) + [ElementHook(kind, element)]
      ensures State() == Effect(provider, ElementHook(kind, element), old(State()))
    {
      match element
      case Plugin(p) =>
        if kind == Input {
          VisitInputPlugin(p);
        } else {
          VisitDefault(PluginHook(kind, p));
        }
      case Branch(b) =>
        if kind == Input {
          VisitInputBranch(b);
        } else {
          VisitDefault(BranchHook(kind, b));
        }
    }

    /** Each element goes to the plugin or branch hook of the block's kind, in order. */
    method WalkBlock(kind: PluginType, block: Block)
      modifies this, sess, sess.inputs
      ensures visited == old(visited) + BlockHooks(kind, block)
      ensures State() == Run(provider, BlockHooks(kind, block), old(State()))
    {
      for i := 0 to |block|
        invariant visited == old(visited) + BlockHooks(kind, block[..i])
        invariant State() == Run(provider, BlockHooks(kind, block[..i]), old(State()))
      {
        ghost var done := BlockHooks(kind, block[..i]);
        VisitElement(kind, block[i]);
        BlockHooksSnoc(kind, block, i);
        AppendAssoc(old(visited), done, [ElementHook(kind, block[i])]);
        RunSnoc(provider, done, ElementHook(kind, block[i]), old(State()));
      }
      assert block[..|block|] == block;
    }

    method VisitInputBlock(block: Block)
      modifies this, sess, sess.inputs
      ensures visited == old(visited) + BlockHooks(Input, block)
      ensures State() == Run(provider, BlockHooks(Input, block), old(State()))
    {
      WalkBlock(Input, block);
    }

    method VisitFilterBlock(block: Block)
      modifies this, sess, sess.inputs
      ensures visited == old(visited) + BlockHooks(Filter, block)
      ensures State() == Run(provider, BlockHooks(Filter, block), old(State()))
    {
      WalkBlock(Filter, block);
    }

    method VisitOutputBlock(block: Block)
      modifies this, sess, sess.inputs
      ensures visited == old(visited) + BlockHooks(Output, block)
      ensures State() == Run(provider, BlockHooks(Output, block), old(State()))
    {
      WalkBlock(Output, block);
    }

    /** A section goes to the block hook of its kind and to no other. */
    method WalkPluginSection(section: PluginSection)
      modifies this, sess, sess.inputs
      ensures visited == old(visited) + BlockHooks(section.pluginType, section.block)
      ensures State() == Run(provider, BlockHooks(section.pluginType, section.block), old(State()))
    {
      match section.pluginType
      case Input => VisitInputBlock(section.block);
      case Filter => VisitFilterBlock(section.block);
      case Output => VisitOutputBlock(section.block);
    }

    method VisitSection(section: PluginSection)
      modifies this, sess, sess.inputs
      ensures visited == old(visited) + BlockHooks(section.pluginType, section.block)
      ensures State() == Run(provider, BlockHooks(section.pluginType, section.block), old(State()))
    {
      WalkPluginSection(section);
    }

    /** Every section once, in order. */
    method WalkConfig(config: Config)
      modifies this, sess, sess.inputs
      ensures visited == old(visited) + ConfigHooks(config.sections)
      ensures State() == Run(provider, ConfigHooks(config.sections), old(State()))
    {
      var sections := config.sections;
      for i := 0 to |sections|
        invariant visited == old(visited) + ConfigHooks(sections[..i])
        invariant State() == Run(provider, ConfigHooks(sections[..i]), old(State()))
      {
        ghost var done := ConfigHooks(sections[..i]);
        ghost var hooks := BlockHooks(sections[i].pluginType, sections[i].block);
        VisitSection(sections[i]);
        ConfigHooksSnoc(sections, i);
        AppendAssoc(old(visited), done, hooks);
        RunAppend(provider, done, hooks, old(State()));
      }
      assert sections[..|sections|] == sections;
    }
  }

  /** Compiles a configuration with the given provider into a fresh session. */
  method Compile(config: Config, provider: set<string>) returns (sess: Session)
    ensures SessionState(sess.errors, sess.inputs.inputs) == Compiled(provider, config)
    ensures SessionState(sess.errors, sess.inputs.inputs)
      == SessionState(Errors(provider, InputElements(config.sections)), Instances(provider, InputElements(config.sections)))
  {
    sess := new Session();
    var compiler := new Compiler(provider, sess);
    compiler.WalkConfig(config);
    CompiledReference(provider, config.sections);
  }

  /**
   * The configuration `input { stdin {} file {} } filter {} output { stdout {} file {} }`
   * compiled with a provider of the inputs `stdin` and `file`: no diagnostics and two inputs.
   */
  lemma CompileSimpleExample(provider: set<string>, config: Config)
    requires provider == {"stdin", "file"}
    requires config == Config([
      PluginSection(Input, [BranchOrPlugin.Plugin(Plugin.Plugin("stdin")), BranchOrPlugin.Plugin(Plugin.Plugin("file"))]),
      PluginSection(Filter, []),
      PluginSection(Output, [BranchOrPlugin.Plugin(Plugin.Plugin("stdout")), BranchOrPlugin.Plugin(Plugin.Plugin("file"))])])
    ensures Compiled(provider, config).errors == []
    ensures Compiled(provider, config).inputs == [InputPlugin("stdin"), InputPlugin("file")]
  {
    var ss := config.sections;
    CompiledReference(provider, ss);
    InputSectionFirst(ss);
    KnownInputsExample(provider, ss[0].block);
  }

  /** Of three sections, only the first an input section: the input elements are its block. */
  lemma {:induction false} InputSectionFirst(ss: seq<PluginSection>)
    requires |ss| == 3 && ss[0].pluginType == Input && ss[1].pluginType != Input && ss[2].pluginType != Input
    ensures InputElements(ss) == ss[0].block
  {
    assert ss[..1][..0] == [];
    assert InputElements(ss[..1]) == ss[0].block;
    assert ss[..2][..1] == ss[..1];
    assert InputElements(ss[..2]) == ss[0].block + [];
    assert ss[..2] == ss[..|ss| - 1];
    assert InputElements(ss) == ss[0].block + [] + [];
  }

  lemma KnownInputsExample(provider: set<string>, block: Block)
    requires provider == {"stdin", "file"}
    requires block == [BranchOrPlugin.Plugin(Plugin.Plugin("stdin")), BranchOrPlugin.Plugin(Plugin.Plugin("file"))]
    ensures Errors(provider, block) == []
    ensures Instances(provider, block) == [InputPlugin("stdin"), InputPlugin("file")]
  {
    var first := block[..1];
    assert first[..0] == [];
    assert block[0].plugin.name in provider && block[1].plugin.name in provider;
    assert Errors(provider, first) == [] && Instances(provider, first) == [InputPlugin("stdin")];
    assert block[..|block| - 1] == first;
  }
}
