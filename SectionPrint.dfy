/**
 * Blocks, branches, sections and whole configurations, printed back to text,
 * and the round trip: the grammar reads printed text back as the syntax tree
 * it describes, with `if / else` normalised to a list of cases whose last one
 * carries the condition that is always true.
 *
 * Plugin names are printed single-quoted, so that a name such as `if-1` or
 * `else` cannot be taken for the start of a branch; bare names are covered by
 * `PluginRoundTrip`.
 */
module SectionPrint {
  import opened Wrappers
  import opened Ast
  import opened ConfigLexer
  import opened ConfigParser
  import opened ConfigPrint

  /** A statement of a block: a plugin, or an `if` case, `else if` cases and an optional `else`. */
  datatype Statement =
    | PluginStatement(name: string)
    | BranchStatement(ifCase: Guarded, elseIfs: ElseIfs, elseBody: ElseBody)

  /** The statements of a block, up to its closing brace. */
  datatype Body = Closed | Item(statement: Statement, next: Body)

  /** A condition and the block it guards. */
  datatype Guarded = Guarded(cond: Compound, body: Body)

  datatype ElseIfs = NoElseIf | ElseIf(guarded: Guarded, next: ElseIfs)

  datatype ElseBody = NoElse | Else(body: Body)

  datatype Section = Section(pluginType: PluginType, body: Body)

  // ------------------------------------------------------ well-formedness

  predicate WellFormedStatement(s: Statement)
    decreases s, 0
  {
    match s
    case PluginStatement(name) => NoBackslash(name)
    case BranchStatement(i, eis, eb) => WellFormedGuarded(i) && WellFormedElseIfs(eis) && WellFormedElse(eb)
  }

  predicate WellFormedBody(b: Body)
    decreases b, 1
  {
    match b
    case Closed => true
    case Item(s, next) => WellFormedStatement(s) && WellFormedBody(next)
  }

  predicate WellFormedGuarded(g: Guarded)
    decreases g, 1
  {
    WellFormedCompound(g.cond) && WellFormedBody(g.body)
  }

  predicate WellFormedElseIfs(eis: ElseIfs)
    decreases eis, 1
  {
    match eis
    case NoElseIf => true
    case ElseIf(g, next) => WellFormedGuarded(g) && WellFormedElseIfs(next)
  }

  predicate WellFormedElse(eb: ElseBody)
    decreases eb, 1
  {
    match eb
    case NoElse => true
    case Else(b) => WellFormedBody(b)
  }

  predicate WellFormedSections(ss: seq<Section>)
  {
    forall i | 0 <= i < |ss| :: WellFormedBody(ss[i].body)
  }

  // ------------------------------------------------------------- printing

  /** `'name' {}`. */
  function PluginThen(name: string, rest: string): string
  {
    "'" + (Escape(name, '\'') + ("'" + (" " + ("{" + ("}" + rest)))))
  }

  function StatementThen(s: Statement, rest: string): string
    decreases s, 0
  {
    match s
    case PluginStatement(name) => PluginThen(name, rest)
    case BranchStatement(i, eis, eb) => "if" + (" " + GuardedThen(i, ElseIfsThen(eis, ElseThen(eb, rest))))
  }

  /** Each statement followed by a blank. */
  function BodyThen(b: Body, rest: string): string
    decreases b, 1
  {
    match b
    case Closed => rest
    case Item(s, next) => StatementThen(s, " " + BodyThen(next, rest))
  }

  /** `{ s1 s2 ... }`. */
  function BlockThen(b: Body, rest: string): string
    decreases b, 2
  {
    "{" + (" " + BodyThen(b, "}" + rest))
  }

  /** `condition { ... }`. */
  function GuardedThen(g: Guarded, rest: string): string
    decreases g, 3
  {
    CompoundThen(g.cond, " " + BlockThen(g.body, rest))
  }

  function ElseIfsThen(eis: ElseIfs, rest: string): string
    decreases eis, 4
  {
    match eis
    case NoElseIf => rest
    case ElseIf(g, next) => " " + ("else" + (" " + ("if" + (" " + GuardedThen(g, ElseIfsThen(next, rest))))))
  }

  function ElseThen(eb: ElseBody, rest: string): string
    decreases eb, 4
  {
    match eb
    case NoElse => rest
    case Else(b) => " " + ("else" + (" " + BlockThen(b, rest)))
  }

  /** `input { ... }`, `filter { ... }` or `output { ... }`. */
  function SectionThen(sec: Section, rest: string): string
  {
    PluginTypeText(sec.pluginType) + (" " + BlockThen(sec.body, rest))
  }

  /** Each section followed by a line feed. */
  function SectionsThen(ss: seq<Section>, rest: string): string
    decreases |ss|
  {
    if ss == [] then rest else SectionThen(ss[0], "\n" + SectionsThen(ss[1..], rest))
  }

  // ------------------------------------------------- what the parser builds

  function StatementAst(s: Statement): BranchOrPlugin
    decreases s, 0
  {
    match s
    case PluginStatement(name) => BranchOrPlugin.Plugin(Plugin.Plugin(name))
    case BranchStatement(i, eis, eb) => BranchOrPlugin.Branch(NewBranch(GuardedAst(i), ElseIfsAst(eis), ElseAst(eb)))
  }

  function BodyAst(b: Body): Block
    decreases b, 1
  {
    match b
    case Closed => []
    case Item(s, next) => [StatementAst(s)] + BodyAst(next)
  }

  function GuardedAst(g: Guarded): Case
    decreases g, 1
  {
    Case(CompoundAst(g.cond), BodyAst(g.body))
  }

  function ElseIfsAst(eis: ElseIfs): seq<Case>
    decreases eis, 1
  {
    match eis
    case NoElseIf => []
    case ElseIf(g, next) => [GuardedAst(g)] + ElseIfsAst(next)
  }

  function ElseAst(eb: ElseBody): Option<Case>
    decreases eb, 1
  {
    match eb
    case NoElse => None
    case Else(b) => Some(Case(Truth(), BodyAst(b)))
  }

  function SectionAst(sec: Section): PluginSection
  {
    PluginSection(sec.pluginType, BodyAst(sec.body))
  }

  function SectionsAst(ss: seq<Section>): (r: seq<PluginSection>)
    ensures |r| == |ss|
    decreases |ss|
  {
    if ss == [] then [] else [SectionAst(ss[0])] + SectionsAst(ss[1..])
  }

  // ------------------------------------------------------------ followers

  /** What may follow a branch that has no `else` case: no `else` after the blanks. */
  predicate ElseFree(rest: string)
  {
    Tag(Blank0(rest), "else").None?
  }

  /**
   * What may follow a configuration: text that `blank0` leaves alone, also
   * after a line feed, and that starts no further section.
   */
  predicate ConfigFollower(rest: string)
  {
    Blank0(rest) == rest && Blank0("\n" + rest) == rest && PluginSectionRule(rest).None?
  }

  // -------------------------------------------------------- small helpers

  lemma TagThen(t: string, rest: string)
    ensures Tag(t + rest, t) == Some(rest)
  {
    assert (t + rest)[..|t|] == t;
  }

  /** A statement is written starting with `'` or `i`. */
  lemma StatementFirst(s: Statement, rest: string)
    ensures var t := StatementThen(s, rest); t != [] && (t[0] == '\'' || t[0] == 'i')
  {
  }

  /** The statements of a block, and its closing brace, start with `'`, `i` or `}`. */
  lemma BodyFirst(b: Body, rest: string)
    ensures var t := BodyThen(b, "}" + rest); t != [] && (t[0] == '\'' || t[0] == 'i' || t[0] == '}')
  {
    match b
    case Closed =>
    case Item(s, next) => StatementFirst(s, " " + BodyThen(next, "}" + rest));
  }

  /** A condition is written starting with neither a blank nor `#`. */
  lemma GuardedFirst(g: Guarded, rest: string)
    requires WellFormedGuarded(g)
    ensures var t := GuardedThen(g, rest); t != [] && !IsMultispace(t[0]) && t[0] != '#'
  {
    OperandFirst(g.cond.head, ChainThen(g.cond.tail, " " + BlockThen(g.body, rest)));
  }

  /** After a statement of a block comes another statement or the closing brace, not `else`. */
  lemma ElseFreeInBody(b: Body, rest: string)
    ensures ElseFree(" " + BodyThen(b, "}" + rest))
  {
    var t := BodyThen(b, "}" + rest);
    BodyFirst(b, rest);
    Blank0AfterSpace(t);
    NoTag(t, "else");
  }

  /** A closing brace starts neither a branch nor a plugin. */
  lemma NoStatementAtClose(rest: string)
    ensures BranchOrPluginRule("}" + rest).None?
  {
    var s := "}" + rest;
    NoTag(s, "if");
    assert CaseIfRule(s).None?;
    assert Quoted(s, '\'').None?;
    assert Quoted(s, '"').None?;
    assert NameRule(s).None?;
  }

  // ------------------------------------------------------------- plugins

  /** `{`, blanks, `}` is an empty plugin body. */
  lemma EmptyBodyRoundTrip(w: string, rest: string)
    requires forall i | 0 <= i < |w| :: IsMultispace(w[i])
    ensures EmptyBodyRule("{" + (w + ("}" + rest))) == Some(rest)
  {
    TagThen("{", w + ("}" + rest));
    Blank0SkipsSpaces(w, "}" + rest);
    Blank0Keeps("}" + rest);
    TagThen("}", rest);
  }

  /** A bare plugin name, blanks, `{`, blanks, `}`: the plugin of that name. */
  lemma PluginRoundTrip(name: string, w1: string, w2: string, rest: string)
    requires name != [] && forall i | 0 <= i < |name| :: IsNameChar(name[i])
    requires forall i | 0 <= i < |w1| :: IsMultispace(w1[i])
    requires forall i | 0 <= i < |w2| :: IsMultispace(w2[i])
    ensures PluginRule(name + (w1 + ("{" + (w2 + ("}" + rest))))) == Some((Plugin.Plugin(name), rest))
  {
    var body := "{" + (w2 + ("}" + rest));
    assert (w1 + body)[0] == if w1 == [] then '{' else w1[0];
    NameRoundTrip(name, w1 + body);
    Blank0SkipsSpaces(w1, body);
    EmptyBodyRoundTrip(w2, rest);
  }

  /** A quoted plugin name followed by `{}`: the plugin of that name. */
  lemma QuotedPluginRoundTrip(name: string, rest: string)
    requires NoBackslash(name)
    ensures PluginRule(PluginThen(name, rest)) == Some((Plugin.Plugin(name), rest))
  {
    var afterName := " " + ("{" + ("}" + rest));
    QuotedRoundTrip(name, '\'', afterName);
    assert NameRule(PluginThen(name, rest)) == Some((name, afterName));
    Blank0AfterSpace("{" + ("}" + rest));
    assert "" + ("}" + rest) == "}" + rest;
    EmptyBodyRoundTrip("", rest);
  }

  // ------------------------------------------------------- the statements

  /** A statement reads back as itself, a branch being tried before a plugin. */
  lemma {:induction false} StatementRoundTrip(s: Statement, rest: string)
    requires WellFormedStatement(s) && ElseFree(rest)
    ensures BranchOrPluginRule(StatementThen(s, rest)) == Some((StatementAst(s), rest))
    decreases s, 9
  {
    match s
    case PluginStatement(name) =>
      NoTag(PluginThen(name, rest), "if");
      assert CaseIfRule(PluginThen(name, rest)).None?;
      QuotedPluginRoundTrip(name, rest);
    case BranchStatement(i, eis, eb) =>
      BranchRoundTrip(i, eis, eb, rest);
  }

  /** The statements of a block read back in order, up to the closing brace. */
  lemma {:induction false} BodyRoundTrip(b: Body, rest: string)
    requires WellFormedBody(b)
    ensures ElementsRule(BodyThen(b, "}" + rest)) == (BodyAst(b), "}" + rest)
    decreases b, 3
  {
    match b
    case Closed =>
      Blank0Keeps("}" + rest);
      NoStatementAtClose(rest);
    case Item(s, next) =>
      var after := BodyThen(next, "}" + rest);
      var t := StatementThen(s, " " + after);
      StatementFirst(s, " " + after);
      Blank0Keeps(t);
      ElseFreeInBody(next, rest);
      StatementRoundTrip(s, " " + after);
      BodyFirst(next, rest);
      Blank0AfterSpace(after);
      BodyRoundTrip(next, rest);
  }

  /** A printed block reads back as its statements. */
  lemma {:induction false} BlockRoundTrip(b: Body, rest: string)
    requires WellFormedBody(b)
    ensures BlockRule(BlockThen(b, rest)) == Some((BodyAst(b), rest))
    decreases b, 4
  {
    var inner := BodyThen(b, "}" + rest);
    TagThen("{", " " + inner);
    BodyFirst(b, rest);
    Blank0AfterSpace(inner);
    BodyRoundTrip(b, rest);
    TagThen("}", rest);
  }

  // ---------------------------------------------------------- the branches

  /** `condition { ... }` reads back as the case of that condition and block. */
  lemma {:induction false} GuardedBlockRoundTrip(g: Guarded, rest: string)
    requires WellFormedGuarded(g)
    ensures GuardedBlockRule(GuardedThen(g, rest)) == Some((GuardedAst(g), rest))
    decreases g, 5
  {
    var block := BlockThen(g.body, rest);
    Blank0AfterSpace(block);
    NoCompareOperator(block);
    NoBoolOperator(block);
    CompoundRoundTrip(g.cond, " " + block);
    BlockRoundTrip(g.body, rest);
    GuardedFromParts(GuardedThen(g, rest), CompoundAst(g.cond), " " + block, BodyAst(g.body), rest);
  }

  lemma {:induction false} GuardedFromParts(s: string, cond: Condition, t: string, block: Block, rest: string)
    requires ConditionRule(s) == Some((cond, t))
    requires BlockRule(Blank0(t)) == Some((block, rest))
    ensures GuardedBlockRule(s) == Some((Case(cond, block), rest))
  {
  }

  /** `if condition { ... }` reads back as that case. */
  lemma {:induction false} CaseIfRoundTrip(g: Guarded, rest: string)
    requires WellFormedGuarded(g)
    ensures CaseIfRule("if" + (" " + GuardedThen(g, rest))) == Some((GuardedAst(g), rest))
    decreases g, 6
  {
    TagThen("if", " " + GuardedThen(g, rest));
    GuardedFirst(g, rest);
    Blank0AfterSpace(GuardedThen(g, rest));
    GuardedBlockRoundTrip(g, rest);
  }

  /** `else if condition { ... }` reads back as that case. */
  lemma {:induction false} CaseElseIfRoundTrip(g: Guarded, rest: string)
    requires WellFormedGuarded(g)
    ensures CaseElseIfRule("else" + (" " + ("if" + (" " + GuardedThen(g, rest))))) == Some((GuardedAst(g), rest))
    decreases g, 7
  {
    var caseIf := "if" + (" " + GuardedThen(g, rest));
    TagThen("else", " " + caseIf);
    Blank0AfterSpace(caseIf);
    CaseIfRoundTrip(g, rest);
  }

  /** `else { ... }` reads back as the case of the condition that is always true. */
  lemma {:induction false} CaseElseRoundTrip(b: Body, rest: string)
    requires WellFormedBody(b)
    ensures CaseElseRule("else" + (" " + BlockThen(b, rest))) == Some((Case(Truth(), BodyAst(b)), rest))
    decreases b, 5
  {
    TagThen("else", " " + BlockThen(b, rest));
    Blank0AfterSpace(BlockThen(b, rest));
    BlockRoundTrip(b, rest);
  }

  /** The `else if` cases read back in order; what follows starts no further one. */
  lemma {:induction false} ElseIfsRoundTrip(eis: ElseIfs, rest: string)
    requires WellFormedElseIfs(eis)
    requires CaseElseIfRule(Blank0(rest)).None?
    ensures ElseIfsRule(ElseIfsThen(eis, rest)) == (ElseIfsAst(eis), rest)
    decreases eis, 8
  {
    match eis
    case NoElseIf =>
    case ElseIf(g, next) =>
      var after := ElseIfsThen(next, rest);
      var t := "else" + (" " + ("if" + (" " + GuardedThen(g, after))));
      Blank0AfterSpace(t);
      CaseElseIfRoundTrip(g, after);
      ElseIfsRoundTrip(next, rest);
  }

  /** The optional `else` case reads back; without one, nothing is consumed. */
  lemma {:induction false} OptionalElseRoundTrip(eb: ElseBody, rest: string)
    requires WellFormedElse(eb)
    requires eb.NoElse? ==> ElseFree(rest)
    ensures OptionalElseRule(ElseThen(eb, rest)) == (ElseAst(eb), rest)
    decreases eb, 8
  {
    match eb
    case NoElse =>
      assert CaseElseRule(Blank0(rest)).None?;
    case Else(b) =>
      var t := "else" + (" " + BlockThen(b, rest));
      Blank0AfterSpace(t);
      CaseElseRoundTrip(b, rest);
  }

  /** Neither the end of a branch nor its `else` case starts an `else if` case. */
  lemma NoElseIfAfter(eb: ElseBody, rest: string)
    requires eb.NoElse? ==> ElseFree(rest)
    ensures CaseElseIfRule(Blank0(ElseThen(eb, rest))).None?
  {
    match eb
    case NoElse =>
    case Else(b) =>
      var block := BlockThen(b, rest);
      var t := "else" + (" " + block);
      Blank0AfterSpace(t);
      TagThen("else", " " + block);
      Blank0AfterSpace(block);
      NoTag(block, "if");
  }

  /**
   * A printed branch reads back as the `if` case, the `else if` cases in order
   * and the `else` case with the condition that is always true.
   */
  lemma {:induction false} BranchRoundTrip(i: Guarded, eis: ElseIfs, eb: ElseBody, rest: string)
    requires WellFormedGuarded(i) && WellFormedElseIfs(eis) && WellFormedElse(eb)
    requires eb.NoElse? ==> ElseFree(rest)
    ensures BranchRule(StatementThen(BranchStatement(i, eis, eb), rest))
         == Some((NewBranch(GuardedAst(i), ElseIfsAst(eis), ElseAst(eb)), rest))
    decreases BranchStatement(i, eis, eb), 8
  {
    var afterIf := ElseIfsThen(eis, ElseThen(eb, rest));
    var s := "if" + (" " + GuardedThen(i, afterIf));
    assert StatementThen(BranchStatement(i, eis, eb), rest) == s;
    CaseIfRoundTrip(i, afterIf);
    NoElseIfAfter(eb, rest);
    ElseIfsRoundTrip(eis, ElseThen(eb, rest));
    OptionalElseRoundTrip(eb, rest);
    BranchFromParts(s, GuardedAst(i), afterIf,
                    ElseIfsAst(eis), ElseThen(eb, rest), ElseAst(eb), rest);
  }

  lemma {:induction false} ElseCasesFromParts(s: string, elseIfs: seq<Case>, t: string, caseElse: Option<Case>, rest: string)
    requires ElseIfsRule(s) == (elseIfs, t)
    requires OptionalElseRule(t) == (caseElse, rest)
    ensures ElseCasesRule(s) == (elseIfs, caseElse, rest)
  {
  }

  lemma {:induction false} BranchFromParts(s: string, caseIf: Case, t: string, elseIfs: seq<Case>, u: string, caseElse: Option<Case>, rest: string)
    requires CaseIfRule(s) == Some((caseIf, t))
    requires ElseIfsRule(t) == (elseIfs, u)
    requires OptionalElseRule(u) == (caseElse, rest)
    ensures BranchRule(s) == Some((NewBranch(caseIf, elseIfs, caseElse), rest))
  {
    ElseCasesFromParts(t, elseIfs, u, caseElse, rest);
  }

  /** What follows the `if` case of a printed branch: its other cases, then the rest. */
  lemma ElseCasesRoundTrip(eis: ElseIfs, eb: ElseBody, rest: string)
    requires WellFormedElseIfs(eis) && WellFormedElse(eb)
    requires eb.NoElse? ==> ElseFree(rest)
    ensures ElseCasesRule(ElseIfsThen(eis, ElseThen(eb, rest))) == (ElseIfsAst(eis), ElseAst(eb), rest)
  {
    NoElseIfAfter(eb, rest);
    ElseIfsRoundTrip(eis, ElseThen(eb, rest));
    OptionalElseRoundTrip(eb, rest);
    ElseCasesFromParts(ElseIfsThen(eis, ElseThen(eb, rest)), ElseIfsAst(eis), ElseThen(eb, rest), ElseAst(eb), rest);
  }

  /** `if C { A } else { B }` is the branch of exactly the cases `(C, A)` and `(true, B)`. */
  lemma IfElseIsTwoCases(c: Compound, a: Body, b: Body, rest: string)
    requires WellFormedCompound(c) && WellFormedBody(a) && WellFormedBody(b)
    ensures BranchRule(StatementThen(BranchStatement(Guarded(c, a), NoElseIf, Else(b)), rest))
         == Some((Branch.Branch([Case(CompoundAst(c), BodyAst(a)), Case(Truth(), BodyAst(b))]), rest))
  {
    BranchRoundTrip(Guarded(c, a), NoElseIf, Else(b), rest);
    var caseIf := Case(CompoundAst(c), BodyAst(a));
    var caseElse := Case(Truth(), BodyAst(b));
    assert NewBranch(caseIf, [], Some(caseElse)).cases == [caseIf] + [] + [caseElse] == [caseIf, caseElse];
  }

  /** A branch is tried first: where a branch reads, the statement is that branch. */
  lemma BranchBeforePlugin(s: string)
    ensures BranchRule(s).Some? ==>
      BranchOrPluginRule(s) == Some((BranchOrPlugin.Branch(BranchRule(s).value.0), BranchRule(s).value.1))
    ensures BranchRule(s).None? && PluginRule(s).Some? ==>
      BranchOrPluginRule(s) == Some((BranchOrPlugin.Plugin(PluginRule(s).value.0), PluginRule(s).value.1))
    ensures BranchRule(s).None? && PluginRule(s).None? ==> BranchOrPluginRule(s).None?
  {
  }

  // ------------------------------------------------------------ sections

  /** A section keyword reads back as its section type. */
  lemma PluginTypeRoundTrip(t: PluginType, rest: string)
    ensures PluginTypeRule(PluginTypeText(t) + rest) == Some((t, rest))
  {
    var s := PluginTypeText(t) + rest;
    TagThen(PluginTypeText(t), rest);
    match t
    case Input =>
    case Filter => NoTag(s, "input");
    case Output => NoTag(s, "input"); NoTag(s, "filter");
  }

  /** A printed section reads back with its type and its block. */
  lemma PluginSectionRoundTrip(sec: Section, rest: string)
    requires WellFormedBody(sec.body)
    ensures PluginSectionRule(SectionThen(sec, rest)) == Some((SectionAst(sec), rest))
  {
    var block := BlockThen(sec.body, rest);
    PluginTypeRoundTrip(sec.pluginType, " " + block);
    Blank0AfterSpace(block);
    BlockRoundTrip(sec.body, rest);
  }

  /**
   * The printed sections read back in order, up to `left`: what `blank0`
   * leaves of the text after the last section, where no further section starts.
   */
  lemma {:induction false} SectionsRoundTripTo(ss: seq<Section>, rest: string, left: string)
    requires ss != [] && WellFormedSections(ss)
    requires Blank0("\n" + rest) == left && Blank0(left) == left && PluginSectionRule(left).None?
    ensures SectionsRule(SectionsThen(ss, rest)) == (SectionsAst(ss), left)
    decreases |ss|
  {
    var after := SectionsThen(ss[1..], rest);
    var t := SectionThen(ss[0], "\n" + after);
    assert t[0] == PluginTypeText(ss[0].pluginType)[0];
    Blank0Keeps(t);
    PluginSectionRoundTrip(ss[0], "\n" + after);
    if ss[1..] != [] {
      assert after[0] == PluginTypeText(ss[1].pluginType)[0];
      Blank0SkipsSpaces("\n", after);
      SectionsRoundTripTo(ss[1..], rest, left);
    }
  }

  /** The printed sections read back in order. */
  lemma SectionsRoundTrip(ss: seq<Section>, rest: string)
    requires WellFormedSections(ss) && ConfigFollower(rest)
    ensures SectionsRule(SectionsThen(ss, rest)) == (SectionsAst(ss), rest)
  {
    if ss != [] {
      SectionsRoundTripTo(ss, rest, rest);
    }
  }

  /** A printed configuration reads back as its sections. */
  lemma ConfigRoundTrip(ss: seq<Section>, rest: string)
    requires ss != [] && WellFormedSections(ss) && ConfigFollower(rest)
    ensures ConfigRule(SectionsThen(ss, rest)) == Some((Config(SectionsAst(ss)), rest))
  {
    SectionsRoundTrip(ss, rest);
  }

  /** `parse` accepts every printed configuration and returns its syntax tree. */
  lemma ParseRoundTrip(ss: seq<Section>)
    requires ss != [] && WellFormedSections(ss)
    ensures Parse(SectionsThen(ss, "")) == Ok(Config(SectionsAst(ss)))
  {
    Blank0SkipsSpaces("\n", "");
    assert "\n" + "" == "\n";
    ConfigRoundTrip(ss, "");
  }
}
