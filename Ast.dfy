/**
 * The abstract syntax tree of a pipeline configuration: sections of plugins and
 * if/else-if/else branches, boolean conditions, comparisons and rvalues.
 *
 * Several constructors share their name with a type (`Condition.Branch` and the
 * `Branch` record, `BoolExpr.Rvalue` and `Rvalue`, `Rvalue.Selector` and
 * `Selector`), as in the source; they are written qualified where they are used.
 */
module Ast {
  import opened Wrappers

  datatype PluginType = Input | Filter | Output

  datatype Config = Config(sections: seq<PluginSection>)

  datatype PluginSection = PluginSection(pluginType: PluginType, block: Block)

  /** The statements inside `{ ... }`, in declaration order. */
  type Block = seq<BranchOrPlugin>

  datatype BranchOrPlugin = Branch(branch: Branch) | Plugin(plugin: Plugin)

  datatype Plugin = Plugin(name: string)

  /** `cases[0]` is the `if` case, then the `else if` cases, then the `else` case if any. */
  datatype Branch = Branch(cases: seq<Case>)

  datatype Case = Case(condition: Condition, block: Block)

  datatype Condition =
    | Leaf(expr: BoolExpr)
    | Branch(op: BoolOperator, lhs: Condition, rhs: Condition)

  datatype BoolExpr =
    | Parens(cond: Condition)
    | Negative(operand: BoolExpr)
    | Compare(cmp: CompareOperator, left: Rvalue, right: Rvalue)
    | Rvalue(value: Rvalue)

  /**
   * A number as written: an optional minus sign, the integer digits and, when a
   * `.` was present, the (possibly empty) fractional digits.
   */
  datatype Numeral = Numeral(negative: bool, integer: string, fraction: Option<string>)

  datatype Selector = Selector(elements: seq<string>)

  datatype Rvalue =
    | Number(number: Numeral)
    | String(text: string)
    | Selector(selector: Selector)

  datatype BoolOperator = And | Or

  datatype CompareOperator = Eq | Ne | Lt | Gt | Le | Ge

  /** Assembles the cases of an if / else-if / else chain in source order. */
  function NewBranch(caseIf: Case, elseIfs: seq<Case>, caseElse: Option<Case>): (b: Branch)
    ensures |b.cases| == 1 + |elseIfs| + (if caseElse.Some? then 1 else 0)
    ensures b.cases[0] == caseIf
    ensures b.cases[1..1 + |elseIfs|] == elseIfs
    ensures caseElse.Some? ==> b.cases[|b.cases| - 1] == caseElse.value
  {
    match caseElse
    case None => Branch.Branch([caseIf] + elseIfs)
    case Some(c) => Branch.Branch([caseIf] + elseIfs + [c])
  }

  /** The number 1 written without a fraction: the value that is always true. */
  const One: Numeral := Numeral(false, "1", None)

  /** The condition of an `else` case: a bare rvalue that is always true. */
  function Truth(): Condition
  {
    Leaf(BoolExpr.Rvalue(Number(One)))
  }

  /** Higher binds tighter. */
  function Precedence(op: BoolOperator): (p: int)
    ensures p > 0
  {
    match op
    case Or => 100
    case And => 200
  }

  lemma AndBindsTighterThanOr()
    ensures Precedence(And) > Precedence(Or)
  {
  }

  /** The text of a comparison operator. */
  function CompareText(op: CompareOperator): (t: string)
    ensures t in {"==", "!=", "<", ">", "<=", ">="}
    ensures |t| == 1 <==> op in {Lt, Gt}
  {
    match op
    case Eq => "=="
    case Ne => "!="
    case Lt => "<"
    case Gt => ">"
    case Le => "<="
    case Ge => ">="
  }

  lemma CompareTextInjective(a: CompareOperator, b: CompareOperator)
    requires CompareText(a) == CompareText(b)
    ensures a == b
  {
  }

  /** The text of a boolean operator. */
  function BoolOperatorText(op: BoolOperator): (t: string)
    ensures t in {"and", "or"}
    ensures (t == "and") == (op == And)
  {
    match op
    case And => "and"
    case Or => "or"
  }

  /** The keyword that opens a section of each kind. */
  function PluginTypeText(t: PluginType): (k: string)
    ensures k in {"input", "filter", "output"}
    ensures |k| >= 5 && k[0] in {'i', 'f', 'o'}
  {
    match t
    case Input => "input"
    case Filter => "filter"
    case Output => "output"
  }
}
