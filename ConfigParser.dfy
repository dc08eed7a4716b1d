/**
 * The configuration grammar: sections, blocks, plugins, if / else-if / else
 * branches and boolean conditions, as prefix parsers over the input text.
 *
 * Each rule returns the value it recognised and the rest of the input, or
 * `None`. The recursive rules all consume a non-empty prefix when they succeed;
 * together with a rank for rules that call one another on the same input, that
 * is what makes the mutual recursion terminate.
 */
module ConfigParser {
  import opened Wrappers
  import opened Ast
  import opened ConfigLexer

  // ------------------------------------------------------ parse_condition

  /**
   * One step of `parse_condition`: attach `op e` to the tree built so far. A
   * leaf, or a branch whose operator binds at least as tightly as `op`, becomes
   * the left operand; otherwise `op e` is pushed into the right operand.
   */
  function Step(cond: Condition, op: BoolOperator, e: BoolExpr): (r: Condition)
    ensures Leaves(r) == Leaves(cond) + [e]
    ensures Operators(r) == Operators(cond) + [op]
  {
    assert Operators(Leaf(e)) == [] && Operators(cond) + [op] + [] == Operators(cond) + [op];
    match cond
    case Leaf(_) => Condition.Branch(op, cond, Leaf(e))
    case Branch(op0, lhs, rhs) =>
      if Precedence(op0) >= Precedence(op) then Condition.Branch(op, cond, Leaf(e))
      else
        var inner := Condition.Branch(op, rhs, Leaf(e));
        assert Leaves(inner) == Leaves(rhs) + [e];
        assert Operators(inner) == Operators(rhs) + [op] by {
          assert Operators(rhs) + [op] + [] == Operators(rhs) + [op];
        }
        AppendAssoc(Leaves(lhs), Leaves(rhs), [e]);
        AppendAssoc(Operators(lhs) + [op0], Operators(rhs), [op]);
        Condition.Branch(op0, lhs, inner)
  }

  /** The tree `parse_condition` builds: the steps applied left to right. */
  function Fold(head: Condition, tail: seq<(BoolOperator, BoolExpr)>): Condition
    decreases |tail|
  {
    if tail == [] then head
    else
      var last := tail[|tail| - 1];
      Step(Fold(head, tail[..|tail| - 1]), last.0, last.1)
  }

  /** `parse_condition`: reshapes the tree once per `(operator, operand)` pair. */
  method ParseCondition(head: Condition, tail: seq<(BoolOperator, BoolExpr)>) returns (cond: Condition)
    ensures cond == Fold(head, tail)
    ensures tail == [] ==> cond == head
  {
    cond := head;
    for i := 0 to |tail|
      invariant cond == Fold(head, tail[..i])
    {
      assert tail[..i + 1][..i] == tail[..i];
      cond := Step(cond, tail[i].0, tail[i].1);
    }
    assert tail[..|tail|] == tail;
  }

  // ------------------------------------------------- in-order flattening

  /** The operands of a condition, left to right. */
  function Leaves(c: Condition): seq<BoolExpr>
  {
    match c
    case Leaf(e) => [e]
    case Branch(_, lhs, rhs) => Leaves(lhs) + Leaves(rhs)
  }

  /** The operators of a condition, left to right. */
  function Operators(c: Condition): seq<BoolOperator>
  {
    match c
    case Leaf(_) => []
    case Branch(op, lhs, rhs) => Operators(lhs) + [op] + Operators(rhs)
  }

  function BranchCount(c: Condition): nat
  {
    match c
    case Leaf(_) => 0
    case Branch(_, lhs, rhs) => 1 + BranchCount(lhs) + BranchCount(rhs)
  }

  function Exprs(tail: seq<(BoolOperator, BoolExpr)>): (es: seq<BoolExpr>)
    ensures |es| == |tail| && forall i | 0 <= i < |tail| :: es[i] == tail[i].1
  {
    seq(|tail|, i requires 0 <= i < |tail| => tail[i].1)
  }

  function Ops(tail: seq<(BoolOperator, BoolExpr)>): (ops: seq<BoolOperator>)
    ensures |ops| == |tail| && forall i | 0 <= i < |tail| :: ops[i] == tail[i].0
  {
    seq(|tail|, i requires 0 <= i < |tail| => tail[i].0)
  }

  /** A step appends its operator and operand at the right end of the in-order reading. */
  lemma {:induction false} StepAppends(cond: Condition, op: BoolOperator, e: BoolExpr)
    ensures Leaves(Step(cond, op, e)) == Leaves(cond) + [e]
    ensures Operators(Step(cond, op, e)) == Operators(cond) + [op]
    ensures BranchCount(Step(cond, op, e)) == BranchCount(cond) + 1
  {
    match cond
    case Leaf(_) =>
      assert Step(cond, op, e) == Condition.Branch(op, cond, Leaf(e));
    case Branch(op0, lhs, rhs) =>
      if Precedence(op0) >= Precedence(op) {
        assert Step(cond, op, e) == Condition.Branch(op, cond, Leaf(e));
      } else {
        var inner := Condition.Branch(op, rhs, Leaf(e));
        assert Step(cond, op, e) == Condition.Branch(op0, lhs, inner);
        assert Leaves(inner) == Leaves(rhs) + [e];
        AppendAssoc(Leaves(lhs), Leaves(rhs), [e]);
        assert Operators(inner) == Operators(rhs) + [op] by {
          assert Operators(Leaf(e)) == [];
        }
        AppendAssoc(Operators(lhs) + [op0], Operators(rhs), [op]);
      }
  }

  /**
   * Reshaping never reorders: read left to right, the tree holds the head and
   * then the tail operands, joined by the tail operators, with one branch per
   * pair.
   */
  lemma {:induction false} FoldKeepsOrder(head: BoolExpr, tail: seq<(BoolOperator, BoolExpr)>)
    ensures Leaves(Fold(Leaf(head), tail)) == [head] + Exprs(tail)
    ensures Operators(Fold(Leaf(head), tail)) == Ops(tail)
    ensures BranchCount(Fold(Leaf(head), tail)) == |tail|
    decreases |tail|
  {
    if tail != [] {
      var init, last := tail[..|tail| - 1], tail[|tail| - 1];
      FoldKeepsOrder(head, init);
      StepAppends(Fold(Leaf(head), init), last.0, last.1);
      assert Exprs(tail) == Exprs(init) + [last.1];
      assert Ops(tail) == Ops(init) + [last.0];
    }
  }

  // ------------------------------------------ precedence reference grammar

  /** `e0 and e1 and ... and en`, grouped to the left. */
  function AndChain(first: BoolExpr, rest: seq<BoolExpr>): Condition
    decreases |rest|
  {
    if rest == [] then Leaf(first)
    else Condition.Branch(And, AndChain(first, rest[..|rest| - 1]), Leaf(rest[|rest| - 1]))
  }

  /** Index of the last `or` in `tail`, or -1. */
  function LastOr(tail: seq<(BoolOperator, BoolExpr)>): (k: int)
    ensures -1 <= k < |tail|
    ensures k >= 0 ==> tail[k].0 == Or
    ensures forall i | k < i < |tail| :: tail[i].0 == And
    decreases |tail|
  {
    if tail == [] then -1
    else if tail[|tail| - 1].0 == Or then |tail| - 1
    else
      var init := tail[..|tail| - 1];
      var k := LastOr(init);
      assert forall i | 0 <= i < |init| :: tail[i] == init[i];
      assert tail[|tail| - 1].0 == And;
      k
  }

  /**
   * The usual reading of `and` / `or` with `and` binding tighter, both grouping
   * to the left: `or` joins runs of `and`-joined operands. Split at the last
   * `or`; everything after it is one `and` chain.
   */
  function Reference(head: BoolExpr, tail: seq<(BoolOperator, BoolExpr)>): Condition
    decreases |tail|
  {
    var k := LastOr(tail);
    if k < 0 then AndChain(head, Exprs(tail))
    else Condition.Branch(Or, Reference(head, tail[..k]), AndChain(tail[k].1, Exprs(tail[k + 1..])))
  }

  lemma {:induction false} LastOrSnoc(tail: seq<(BoolOperator, BoolExpr)>, op: BoolOperator, e: BoolExpr)
    ensures LastOr(tail + [(op, e)]) == if op == Or then |tail| else LastOr(tail)
  {
    assert (tail + [(op, e)])[..|tail|] == tail;
  }

  /** An `or` closes the reference reading so far and starts a new `and` chain. */
  lemma {:induction false} StepOrExtendsReference(head: BoolExpr, tail: seq<(BoolOperator, BoolExpr)>, e: BoolExpr)
    ensures Step(Reference(head, tail), Or, e) == Reference(head, tail + [(Or, e)])
  {
    var tail' := tail + [(Or, e)];
    LastOrSnoc(tail, Or, e);
    assert tail'[..|tail|] == tail;
    assert tail'[|tail|].1 == e;
    assert Exprs(tail'[|tail| + 1..]) == [];
    assert Reference(head, tail') == Condition.Branch(Or, Reference(head, tail), Leaf(e));
  }

  /** Without an `or` so far, an `and` extends the single left-grouped chain. */
  lemma {:induction false} StepAndExtendsChain(head: BoolExpr, tail: seq<(BoolOperator, BoolExpr)>, e: BoolExpr)
    requires LastOr(tail) < 0
    ensures Step(Reference(head, tail), And, e) == Reference(head, tail + [(And, e)])
  {
    LastOrSnoc(tail, And, e);
    ExprsSnoc(tail, And, e);
    StepAndOnChain(head, Exprs(tail), e);
    AndChainSnoc(head, Exprs(tail), e);
  }

  lemma ExprsSnoc(tail: seq<(BoolOperator, BoolExpr)>, op: BoolOperator, e: BoolExpr)
    ensures Exprs(tail + [(op, e)]) == Exprs(tail) + [e]
  {
  }

  /** An `and` chain grows on the right by one operand. */
  lemma {:induction false} AndChainSnoc(first: BoolExpr, chain: seq<BoolExpr>, e: BoolExpr)
    ensures AndChain(first, chain + [e]) == Condition.Branch(And, AndChain(first, chain), Leaf(e))
  {
    assert (chain + [e])[..|chain|] == chain;
  }

  /** An `and` after an `and` chain makes the chain its left operand. */
  lemma {:induction false} StepAndOnChain(first: BoolExpr, chain: seq<BoolExpr>, e: BoolExpr)
    ensures Step(AndChain(first, chain), And, e) == Condition.Branch(And, AndChain(first, chain), Leaf(e))
  {
    if chain != [] {
      assert AndChain(first, chain).Branch? && AndChain(first, chain).op == And;
    }
  }

  /** After an `or`, an `and` extends the chain on the right of the last `or`. */
  lemma {:induction false} StepAndExtendsLastChain(head: BoolExpr, tail: seq<(BoolOperator, BoolExpr)>, e: BoolExpr)
    requires LastOr(tail) >= 0
    ensures Step(Reference(head, tail), And, e) == Reference(head, tail + [(And, e)])
  {
    var tail' := tail + [(And, e)];
    LastOrSnoc(tail, And, e);
    var k := LastOr(tail);
    assert tail'[..k] == tail[..k];
    assert tail'[k] == tail[k];
    var chain := Exprs(tail[k + 1..]);
    assert tail'[k + 1..] == tail[k + 1..] + [(And, e)];
    ExprsSnoc(tail[k + 1..], And, e);
    AndChainSnoc(tail[k].1, chain, e);
  }

  /**
   * `parse_condition` builds exactly the tree of the reference precedence
   * grammar: `and` binds tighter than `or`, and both group to the left.
   */
  lemma {:induction false} FoldIsReference(head: BoolExpr, tail: seq<(BoolOperator, BoolExpr)>)
    ensures Fold(Leaf(head), tail) == Reference(head, tail)
    decreases |tail|
  {
    if tail == [] {
      assert Exprs(tail) == [];
    } else {
      var init, last := tail[..|tail| - 1], tail[|tail| - 1];
      FoldIsReference(head, init);
      assert Fold(Leaf(head), tail) == Step(Reference(head, init), last.0, last.1);
      StepExtendsReference(head, init, last.0, last.1);
      assert init + [(last.0, last.1)] == tail;
    }
  }

  /** One more step of the fold is the reference tree of one more pair. */
  lemma {:induction false} StepExtendsReference(head: BoolExpr, tail: seq<(BoolOperator, BoolExpr)>, op: BoolOperator, e: BoolExpr)
    ensures Step(Reference(head, tail), op, e) == Reference(head, tail + [(op, e)])
  {
    if op == Or {
      StepOrExtendsReference(head, tail, e);
    } else if LastOr(tail) < 0 {
      StepAndExtendsChain(head, tail, e);
    } else {
      StepAndExtendsLastChain(head, tail, e);
    }
  }

  /** `a and b or c` is `(a and b) or c`. */
  lemma {:induction false} AndThenOr(a: BoolExpr, b: BoolExpr, c: BoolExpr)
    ensures Fold(Leaf(a), [(And, b), (Or, c)])
         == Condition.Branch(Or, Condition.Branch(And, Leaf(a), Leaf(b)), Leaf(c))
  {
    assert [(And, b), (Or, c)][..1] == [(And, b)];
    assert [(And, b)][..0] == [];
    assert Fold(Leaf(a), [(And, b)]) == Condition.Branch(And, Leaf(a), Leaf(b));
  }

  /** `a or b and c` is `a or (b and c)`. */
  lemma {:induction false} OrThenAnd(a: BoolExpr, b: BoolExpr, c: BoolExpr)
    ensures Fold(Leaf(a), [(Or, b), (And, c)])
         == Condition.Branch(Or, Leaf(a), Condition.Branch(And, Leaf(b), Leaf(c)))
  {
    assert [(Or, b), (And, c)][..1] == [(Or, b)];
    assert [(Or, b)][..0] == [];
    assert Fold(Leaf(a), [(Or, b)]) == Condition.Branch(Or, Leaf(a), Leaf(b));
  }

  // ------------------------------------------------------------ structure

  /** `input`, `filter` or `output`, each giving the section type it names. */
  function PluginTypeRule(s: string): (r: Option<(PluginType, string)>)
    ensures r.Some? ==> Consumes(s, r.value.1)
    ensures r.Some? ==> s == PluginTypeText(r.value.0) + r.value.1
    ensures r.None? <==> !StartsWith(s, "input") && !StartsWith(s, "filter") && !StartsWith(s, "output")
  {
    if StartsWith(s, "input") then Some((Input, Tag(s, "input").value))
    else if StartsWith(s, "filter") then Some((Filter, Tag(s, "filter").value))
    else if StartsWith(s, "output") then Some((Output, Tag(s, "output").value))
    else None
  }

  /** `"{" _ _ "}"`: the body of a plugin, which holds no attributes. */
  function EmptyBodyRule(s: string): (r: Option<string>)
    ensures r.Some? ==> Consumes(s, r.value)
  {
    match Tag(s, "{")
    case None => None
    case Some(afterOpen) =>
      var t := Blank0(Blank0(afterOpen));
      RemainsTrans(afterOpen, Blank0(afterOpen), t);
      match Tag(t, "}")
      case None => None
      case Some(rest) =>
        RemainsTrans(afterOpen, t, rest);
        RemainsTrans(s, afterOpen, rest);
        Some(rest)
  }

  /** `name _ "{" _ _ "}"`: a plugin with an empty body. */
  function PluginRule(s: string): (r: Option<(Plugin, string)>)
    ensures r.Some? ==> Consumes(s, r.value.1)
  {
    match NameRule(s)
    case None => None
    case Some((name, afterName)) =>
      match EmptyBodyRule(Blank0(afterName))
      case None => None
      case Some(rest) =>
        RemainsTrans(afterName, Blank0(afterName), rest);
        RemainsTrans(s, afterName, rest);
        Some((Plugin.Plugin(name), rest))
  }

  /** Many times `blank0 (branch | plugin) blank0`, up to the first element that does not parse. */
  function ElementsRule(s: string): (r: (Block, string))
    ensures Remains(s, r.1)
    decreases |s|, 7
  {
    var t := Blank0(s);
    match BranchOrPluginRule(t)
    case None => ([], s)
    case Some((element, u)) =>
      var (elements, rest) := ElementsRule(Blank0(u));
      RemainsTrans(u, Blank0(u), rest);
      RemainsTrans(t, u, rest);
      RemainsTrans(s, t, rest);
      ([element] + elements, rest)
  }

  /** `"{" _ (branch_or_plugin _)* "}"`. */
  function BlockRule(s: string): (r: Option<(Block, string)>)
    ensures r.Some? ==> Consumes(s, r.value.1)
    decreases |s|, 8
  {
    match Tag(s, "{")
    case None => None
    case Some(afterOpen) =>
      var (elements, t) := ElementsRule(Blank0(afterOpen));
      match Tag(t, "}")
      case None => None
      case Some(rest) =>
        RemainsTrans(afterOpen, Blank0(afterOpen), t);
        RemainsTrans(afterOpen, t, rest);
        RemainsTrans(s, afterOpen, rest);
        Some((elements, rest))
  }

  /** A branch is tried before a plugin. */
  function BranchOrPluginRule(s: string): (r: Option<(BranchOrPlugin, string)>)
    ensures r.Some? ==> Consumes(s, r.value.1)
    decreases |s|, 6
  {
    match BranchRule(s)
    case Some((b, rest)) => Some((BranchOrPlugin.Branch(b), rest))
    case None =>
      match PluginRule(s)
      case Some((p, rest)) => Some((BranchOrPlugin.Plugin(p), rest))
      case None => None
  }

  /** `case_if (_ case_else_if)* (_ case_else)?`. */
  function BranchRule(s: string): (r: Option<(Branch, string)>)
    ensures r.Some? ==> Consumes(s, r.value.1)
    ensures r.Some? ==> r.value.0.cases != []
    decreases |s|, 5
  {
    match CaseIfRule(s)
    case None => None
    case Some((caseIf, t)) =>
      var (elseIfs, caseElse, rest) := ElseCasesRule(t);
      RemainsTrans(s, t, rest);
      Some((NewBranch(caseIf, elseIfs, caseElse), rest))
  }

  /** `(_ case_else_if)* (_ case_else)?`: what follows the `if` case of a branch. */
  function ElseCasesRule(s: string): (r: (seq<Case>, Option<Case>, string))
    ensures Remains(s, r.2)
    decreases |s|, 4
  {
    var (elseIfs, t) := ElseIfsRule(s);
    var (caseElse, rest) := OptionalElseRule(t);
    RemainsTrans(s, t, rest);
    (elseIfs, caseElse, rest)
  }

  /** `(_ case_else)?`: when no `else` case follows, nothing is consumed. */
  function OptionalElseRule(s: string): (r: (Option<Case>, string))
    ensures Remains(s, r.1)
    ensures r.0.Some? ==> r.0.value.condition == Truth()
    decreases |s|, 3
  {
    match CaseElseRule(Blank0(s))
    case Some((caseElse, rest)) =>
      RemainsTrans(s, Blank0(s), rest);
      (Some(caseElse), rest)
    case None => (None, s)
  }

  /** Many times `_ case_else_if`. */
  function ElseIfsRule(s: string): (r: (seq<Case>, string))
    ensures Remains(s, r.1)
    decreases |s|, 3
  {
    match CaseElseIfRule(Blank0(s))
    case None => ([], s)
    case Some((c, t)) =>
      var (cases, rest) := ElseIfsRule(t);
      RemainsTrans(Blank0(s), t, rest);
      RemainsTrans(s, Blank0(s), rest);
      ([c] + cases, rest)
  }

  /** `"if" _ condition _ block`. */
  function CaseIfRule(s: string): (r: Option<(Case, string)>)
    ensures r.Some? ==> Consumes(s, r.value.1)
    decreases |s|, 4
  {
    match Tag(s, "if")
    case None => None
    case Some(afterIf) =>
      match GuardedBlockRule(Blank0(afterIf))
      case None => None
      case Some((c, rest)) =>
        RemainsTrans(afterIf, Blank0(afterIf), rest);
        RemainsTrans(s, afterIf, rest);
        Some((c, rest))
  }

  /** `condition _ block`: the part of an `if` case after the keyword. */
  function GuardedBlockRule(s: string): (r: Option<(Case, string)>)
    ensures r.Some? ==> Consumes(s, r.value.1)
    decreases |s|, 4
  {
    match ConditionRule(s)
    case None => None
    case Some((cond, t)) =>
      match BlockRule(Blank0(t))
      case None => None
      case Some((block, rest)) =>
        RemainsTrans(t, Blank0(t), rest);
        RemainsTrans(s, t, rest);
        Some((Case(cond, block), rest))
  }

  /** `"else" _ case_if`. */
  function CaseElseIfRule(s: string): (r: Option<(Case, string)>)
    ensures r.Some? ==> Consumes(s, r.value.1)
    decreases |s|, 2
  {
    match Tag(s, "else")
    case None => None
    case Some(afterElse) =>
      match CaseIfRule(Blank0(afterElse))
      case None => None
      case Some((c, rest)) =>
        RemainsTrans(afterElse, Blank0(afterElse), rest);
        RemainsTrans(s, afterElse, rest);
        Some((c, rest))
  }

  /** `"else" _ block`; the case carries the condition that is always true. */
  function CaseElseRule(s: string): (r: Option<(Case, string)>)
    ensures r.Some? ==> Consumes(s, r.value.1)
    ensures r.Some? ==> r.value.0.condition == Truth()
    decreases |s|, 2
  {
    match Tag(s, "else")
    case None => None
    case Some(afterElse) =>
      match BlockRule(Blank0(afterElse))
      case None => None
      case Some((block, rest)) =>
        RemainsTrans(afterElse, Blank0(afterElse), rest);
        RemainsTrans(s, afterElse, rest);
        Some((Case(Truth(), block), rest))
  }

  // ---------------------------------------------------------- expressions

  /** `bool_expr (_ bool_operator _ bool_expr)*`, assembled by `parse_condition`. */
  function ConditionRule(s: string): (r: Option<(Condition, string)>)
    ensures r.Some? ==> Consumes(s, r.value.1)
    decreases |s|, 3
  {
    match BoolExprRule(s)
    case None => None
    case Some((head, t)) =>
      var (tail, rest) := ConditionTailRule(t);
      RemainsTrans(s, t, rest);
      Some((Fold(Leaf(head), tail), rest))
  }

  /** Many times `_ bool_operator _ bool_expr`; a pair that does not parse consumes nothing. */
  function ConditionTailRule(s: string): (r: (seq<(BoolOperator, BoolExpr)>, string))
    ensures Remains(s, r.1)
    decreases |s|, 0
  {
    match BoolOperatorRule(Blank0(s))
    case None => ([], s)
    case Some((op, afterOp)) =>
      AppendRemains(BoolOperatorText(op), afterOp);
      match BoolExprRule(Blank0(afterOp))
      case None => ([], s)
      case Some((e, t)) =>
        RemainsTrans(afterOp, Blank0(afterOp), t);
        RemainsTrans(Blank0(s), afterOp, t);
        RemainsTrans(s, Blank0(s), t);
        var (tail, rest) := ConditionTailRule(t);
        RemainsTrans(s, t, rest);
        ([(op, e)] + tail, rest)
  }

  /** Parenthesised, negated, comparison, then bare rvalue, in that order. */
  function BoolExprRule(s: string): (r: Option<(BoolExpr, string)>)
    ensures r.Some? ==> Consumes(s, r.value.1)
    decreases |s|, 2
  {
    match ParensExprRule(s)
    case Some(v) => Some(v)
    case None =>
      match NegativeExprRule(s)
      case Some(v) => Some(v)
      case None =>
        match CompareExprRule(s)
        case Some(v) => Some(v)
        case None => RvalueExprRule(s)
  }

  /** `"(" _ condition _ ")"`. */
  function ParensExprRule(s: string): (r: Option<(BoolExpr, string)>)
    ensures r.Some? ==> Consumes(s, r.value.1)
    ensures r.Some? ==> r.value.0.Parens?
    decreases |s|, 1
  {
    match Tag(s, "(")
    case None => None
    case Some(afterOpen) =>
      match ConditionRule(Blank0(afterOpen))
      case None => None
      case Some((cond, t)) =>
        match Tag(Blank0(t), ")")
        case None => None
        case Some(rest) =>
          RemainsTrans(t, Blank0(t), rest);
          RemainsTrans(Blank0(afterOpen), t, rest);
          RemainsTrans(afterOpen, Blank0(afterOpen), rest);
          RemainsTrans(s, afterOpen, rest);
          Some((Parens(cond), rest))
  }

  /** `"!" _` then a parenthesised expression or a selector, negated. */
  function NegativeExprRule(s: string): (r: Option<(BoolExpr, string)>)
    ensures r.Some? ==> Consumes(s, r.value.1)
    ensures r.Some? ==> r.value.0.Negative?
    ensures r.Some? ==> r.value.0.operand.Parens? || (r.value.0.operand.Rvalue? && r.value.0.operand.value.Selector?)
    decreases |s|, 1
  {
    match Tag(s, "!")
    case None => None
    case Some(afterBang) =>
      var t := Blank0(afterBang);
      RemainsTrans(s, afterBang, t);
      match ParensExprRule(t)
      case Some((e, rest)) =>
        NegatedConsumes(s, afterBang, rest);
        Some((Negative(e), rest))
      case None =>
        match SelectorRule(t)
        case Some((sel, rest)) =>
          NegatedConsumes(s, afterBang, rest);
          Some((Negative(BoolExpr.Rvalue(Rvalue.Selector(sel))), rest))
        case None => None
  }

  /** What is left after `!` and a negated operand is a suffix of the input. */
  lemma {:induction false} NegatedConsumes(s: string, afterBang: string, rest: string)
    requires Tag(s, "!") == Some(afterBang)
    requires Consumes(Blank0(afterBang), rest)
    ensures Consumes(s, rest)
  {
    RemainsTrans(afterBang, Blank0(afterBang), rest);
    RemainsTrans(s, afterBang, rest);
  }

  /** `rvalue _ compare_operator _ rvalue`. */
  function CompareExprRule(s: string): (r: Option<(BoolExpr, string)>)
    ensures r.Some? ==> Consumes(s, r.value.1)
    ensures r.Some? ==> r.value.0.Compare?
  {
    match RvalueRule(s)
    case None => None
    case Some((lhs, t)) =>
      match CompareOperatorRule(Blank0(t))
      case None => None
      case Some((op, afterOp)) =>
        match RvalueRule(Blank0(afterOp))
        case None => None
        case Some((rhs, rest)) =>
          CompareConsumes(s, lhs, t, op, afterOp, rhs, rest);
          Some((Compare(op, lhs, rhs), rest))
  }

  /** A comparison read in three parts consumes its input. */
  lemma {:induction false} CompareConsumes(s: string, lhs: Rvalue, t: string, op: CompareOperator, afterOp: string, rhs: Rvalue, rest: string)
    requires RvalueRule(s) == Some((lhs, t))
    requires CompareOperatorRule(Blank0(t)) == Some((op, afterOp))
    requires RvalueRule(Blank0(afterOp)) == Some((rhs, rest))
    ensures Consumes(s, rest)
  {
    AppendRemains(CompareText(op), afterOp);
    RemainsTrans(afterOp, Blank0(afterOp), rest);
    RemainsTrans(Blank0(t), afterOp, rest);
    RemainsTrans(t, Blank0(t), rest);
    RemainsTrans(s, t, rest);
  }

  function RvalueExprRule(s: string): (r: Option<(BoolExpr, string)>)
    ensures r.Some? ==> Consumes(s, r.value.1)
    ensures r.Some? ==> r.value.0.Rvalue?
  {
    match RvalueRule(s)
    case None => None
    case Some((v, rest)) => Some((BoolExpr.Rvalue(v), rest))
  }

  /** A number, then a quoted string, then a selector. */
  function RvalueRule(s: string): (r: Option<(Rvalue, string)>)
    ensures r.Some? ==> Consumes(s, r.value.1)
  {
    match NumberRule(s)
    case Some((n, rest)) => Some((Rvalue.Number(n), rest))
    case None =>
      match StringRule(s)
      case Some((text, rest)) => Some((Rvalue.String(text), rest))
      case None =>
        match SelectorRule(s)
        case Some((sel, rest)) => Some((Rvalue.Selector(sel), rest))
        case None => None
  }

  // ------------------------------------------------------------- sections

  /** `plugin_type _ block`. */
  function PluginSectionRule(s: string): (r: Option<(PluginSection, string)>)
    ensures r.Some? ==> Consumes(s, r.value.1)
  {
    match PluginTypeRule(s)
    case None => None
    case Some((pluginType, t)) =>
      match BlockRule(Blank0(t))
      case None => None
      case Some((block, rest)) =>
        RemainsTrans(t, Blank0(t), rest);
        RemainsTrans(s, t, rest);
        Some((PluginSection(pluginType, block), rest))
  }

  /** Many times `_ plugin_section _`. */
  function SectionsRule(s: string): (r: (seq<PluginSection>, string))
    ensures Remains(s, r.1)
    decreases |s|
  {
    var t := Blank0(s);
    match PluginSectionRule(t)
    case None => ([], s)
    case Some((section, u)) =>
      var (sections, rest) := SectionsRule(Blank0(u));
      RemainsTrans(u, Blank0(u), rest);
      RemainsTrans(t, u, rest);
      RemainsTrans(s, t, rest);
      ([section] + sections, rest)
  }

  /** One or more sections. */
  function ConfigRule(s: string): (r: Option<(Config, string)>)
    ensures r.Some? ==> Remains(s, r.value.1) && r.value.0.sections != []
    ensures r.None? <==> SectionsRule(s).0 == []
  {
    var (sections, rest) := SectionsRule(s);
    if sections == [] then None else Some((Config(sections), rest))
  }

  /** Any successful parse is accepted, whatever input is left over. */
  function Parse(conf: string): (r: Result<Config, string>)
    ensures r.Ok? <==> ConfigRule(conf).Some?
    ensures r.Ok? ==> r.value == ConfigRule(conf).value.0
    ensures r.Err? ==> r.error == "Config parsing failed"
  {
    match ConfigRule(conf)
    case Some((config, _)) => Ok(config)
    case None => Err("Config parsing failed")
  }
}
