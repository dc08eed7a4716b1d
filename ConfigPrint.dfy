/**
 * Conditions as they are written, printed back to text, and the round trip:
 * the condition grammar reads printed text back as the tree `parse_condition`
 * assembles from it.
 *
 * Printers take the text that follows (`rest`) as a parameter, so that the
 * round-trip lemmas can say what the rules leave unconsumed.
 */
module ConfigPrint {
  import opened Wrappers
  import opened Ast
  import opened ConfigLexer
  import opened ConfigParser

  /** One operand of a condition, in the forms the grammar accepts. */
  datatype Operand =
    | Parenthesised(inner: Compound)
    | NegatedParens(inner: Compound)
    | NegatedSelector(selector: Selector)
    | Comparison(op: CompareOperator, lhs: Rvalue, rhs: Rvalue)
    | Value(value: Rvalue)

  /** A head operand followed by a chain of `and` / `or` operands. */
  datatype Compound = Compound(head: Operand, tail: Chain)

  datatype Chain = End | Then(op: BoolOperator, operand: Operand, next: Chain)

  // ------------------------------------------------------ well-formedness

  /** Values the printer can write so that they read back: see the lexer's round trips. */
  predicate WellFormedRvalue(v: Rvalue)
  {
    match v
    case Number(n) => WellFormedNumeral(n)
    case String(text) => NoBackslash(text)
    case Selector(sel) =>
      sel.elements != [] && forall i | 0 <= i < |sel.elements| :: WellFormedSegment(sel.elements[i])
  }

  predicate WellFormedOperand(o: Operand)
    decreases o, 0
  {
    match o
    case Parenthesised(c) => WellFormedCompound(c)
    case NegatedParens(c) => WellFormedCompound(c)
    case NegatedSelector(sel) => WellFormedRvalue(Rvalue.Selector(sel))
    case Comparison(_, lhs, rhs) => WellFormedRvalue(lhs) && WellFormedRvalue(rhs)
    case Value(v) => WellFormedRvalue(v)
  }

  predicate WellFormedCompound(c: Compound)
    decreases c, 1
  {
    WellFormedOperand(c.head) && WellFormedChain(c.tail)
  }

  predicate WellFormedChain(t: Chain)
    decreases t, 1
  {
    match t
    case End => true
    case Then(_, o, next) => WellFormedOperand(o) && WellFormedChain(next)
  }

  // ------------------------------------------------------------- printing

  function RvalueThen(v: Rvalue, rest: string): string
  {
    match v
    case Number(n) => NumeralThen(n, rest)
    case String(text) => "'" + (Escape(text, '\'') + ("'" + rest))
    case Selector(sel) => SelectorText(sel.elements) + rest
  }

  function OperandThen(o: Operand, rest: string): string
    decreases o, 0
  {
    match o
    case Parenthesised(c) => "(" + CompoundThen(c, ")" + rest)
    case NegatedParens(c) => "!" + ("(" + CompoundThen(c, ")" + rest))
    case NegatedSelector(sel) => "!" + (SelectorText(sel.elements) + rest)
    case Comparison(op, lhs, rhs) => RvalueThen(lhs, " " + (CompareText(op) + (" " + RvalueThen(rhs, rest))))
    case Value(v) => RvalueThen(v, rest)
  }

  function CompoundThen(c: Compound, rest: string): string
    decreases c, 1
  {
    OperandThen(c.head, ChainThen(c.tail, rest))
  }

  function ChainThen(t: Chain, rest: string): string
    decreases t, 1
  {
    match t
    case End => rest
    case Then(op, o, next) => " " + (BoolOperatorText(op) + (" " + OperandThen(o, ChainThen(next, rest))))
  }

  // ------------------------------------------------- what the parser builds

  function OperandAst(o: Operand): BoolExpr
    decreases o, 0
  {
    match o
    case Parenthesised(c) => Parens(CompoundAst(c))
    case NegatedParens(c) => Negative(Parens(CompoundAst(c)))
    case NegatedSelector(sel) => Negative(BoolExpr.Rvalue(Rvalue.Selector(sel)))
    case Comparison(op, lhs, rhs) => Compare(op, lhs, rhs)
    case Value(v) => BoolExpr.Rvalue(v)
  }

  function CompoundAst(c: Compound): Condition
    decreases c, 1
  {
    Fold(Leaf(OperandAst(c.head)), ChainAst(c.tail))
  }

  function ChainAst(t: Chain): seq<(BoolOperator, BoolExpr)>
    decreases t, 1
  {
    match t
    case End => []
    case Then(op, o, next) => [(op, OperandAst(o))] + ChainAst(next)
  }

  // ------------------------------------------------------------ followers

  /** What may follow an operand: the end, a blank, `)` or `{`, but no comparison operator. */
  predicate OperandFollower(rest: string)
  {
    && (rest == [] || IsMultispace(rest[0]) || rest[0] == ')' || rest[0] == '{')
    && CompareOperatorRule(Blank0(rest)).None?
  }

  /** What may follow a whole condition: as for an operand, and no `and` / `or` either. */
  predicate CompoundFollower(rest: string)
  {
    OperandFollower(rest) && BoolOperatorRule(Blank0(rest)).None?
  }

  // -------------------------------------------------------- small helpers

  /** A text that does not start with a blank or a comment is left alone by `blank0`. */
  lemma {:induction false} Blank0Keeps(s: string)
    requires s == [] || (!IsMultispace(s[0]) && s[0] != '#')
    ensures Blank0(s) == s
  {
    assert [] + s == s;
    Blank0SkipsSpaces([], s);
  }

  lemma {:induction false} Blank0AfterSpace(s: string)
    requires s == [] || (!IsMultispace(s[0]) && s[0] != '#')
    ensures Blank0(" " + s) == s
  {
    Blank0SkipsSpaces(" ", s);
  }

  lemma NoTag(s: string, t: string)
    requires t != [] && (s == [] || s[0] != t[0])
    ensures Tag(s, t).None?
  {
    if |t| <= |s| {
      assert s[..|t|][0] != t[0];
    }
  }

  lemma NoCompareOperator(s: string)
    requires s == [] || (s[0] != '=' && s[0] != '!' && s[0] != '<' && s[0] != '>')
    ensures CompareOperatorRule(s).None?
  {
    NoTag(s, "=="); NoTag(s, "!="); NoTag(s, "<="); NoTag(s, ">="); NoTag(s, "<"); NoTag(s, ">");
  }

  lemma NoBoolOperator(s: string)
    requires s == [] || (s[0] != 'a' && s[0] != 'o')
    ensures BoolOperatorRule(s).None?
  {
    NoTag(s, "and"); NoTag(s, "or");
  }

  /** An rvalue is written starting with a sign, a digit, a quote or `[`. */
  lemma RvalueFirst(v: Rvalue, rest: string)
    requires WellFormedRvalue(v)
    ensures var s := RvalueThen(v, rest);
      s != [] && (s[0] == '-' || IsDigit(s[0]) || s[0] == '\'' || s[0] == '[')
  {
    match v
    case Number(n) =>
      if !n.negative {
        assert NumeralThen(n, rest)[0] == n.integer[0];
      }
    case String(_) =>
    case Selector(sel) =>
      SelectorTextCons(sel.elements[0], sel.elements[1..], rest);
      assert sel.elements == [sel.elements[0]] + sel.elements[1..];
  }

  /** An operand is written starting with `(`, `!` or the first character of an rvalue. */
  lemma {:induction false} OperandFirst(o: Operand, rest: string)
    requires WellFormedOperand(o)
    ensures var s := OperandThen(o, rest);
      s != [] && (s[0] == '(' || s[0] == '!' || s[0] == '-' || IsDigit(s[0]) || s[0] == '\'' || s[0] == '[')
  {
    match o
    case Parenthesised(_) =>
    case NegatedParens(_) =>
    case NegatedSelector(_) =>
    case Comparison(op, lhs, rhs) =>
      RvalueFirst(lhs, " " + (CompareText(op) + (" " + RvalueThen(rhs, rest))));
    case Value(v) =>
      RvalueFirst(v, rest);
  }

  /** After an operand comes either what follows the condition or ` and ` / ` or `. */
  lemma {:induction false} ChainFollows(t: Chain, rest: string)
    requires WellFormedChain(t) && CompoundFollower(rest)
    ensures OperandFollower(ChainThen(t, rest))
  {
    match t
    case End =>
    case Then(op, o, next) =>
      var after := BoolOperatorText(op) + (" " + OperandThen(o, ChainThen(next, rest)));
      assert after[0] == BoolOperatorText(op)[0];
      Blank0AfterSpace(after);
      NoCompareOperator(after);
  }

  // ------------------------------------------------------------ rvalues

  lemma NumberRoundTripAsRvalue(n: Numeral, rest: string)
    requires WellFormedNumeral(n)
    requires rest == [] || (!IsDigit(rest[0]) && rest[0] != '.')
    ensures RvalueRule(NumeralThen(n, rest)) == Some((Rvalue.Number(n), rest))
  {
    NumberRoundTrip(n, rest);
  }

  lemma {:induction false} StringRoundTripAsRvalue(text: string, rest: string)
    requires NoBackslash(text)
    ensures RvalueRule("'" + (Escape(text, '\'') + ("'" + rest))) == Some((Rvalue.String(text), rest))
  {
    var s := "'" + (Escape(text, '\'') + ("'" + rest));
    assert !IsDigit(s[0]) && s[0] != '-';
    QuotedRoundTrip(text, '\'', rest);
  }

  lemma SelectorRoundTripAsRvalue(sel: Selector, rest: string)
    requires WellFormedRvalue(Rvalue.Selector(sel))
    requires rest == [] || rest[0] != '['
    ensures RvalueRule(SelectorText(sel.elements) + rest) == Some((Rvalue.Selector(sel), rest))
  {
    var s := SelectorText(sel.elements) + rest;
    RvalueFirst(Rvalue.Selector(sel), rest);
    assert s[0] == '[';
    assert !IsDigit(s[0]) && s[0] != '-';
    assert Quoted(s, '\'').None? && Quoted(s, '"').None?;
    SelectorRoundTrip(sel, rest);
  }

  /** Every well-formed rvalue reads back, whatever follows it but a digit, `.` or `[`. */
  lemma RvalueRoundTrip(v: Rvalue, rest: string)
    requires WellFormedRvalue(v)
    requires rest == [] || (!IsDigit(rest[0]) && rest[0] != '.' && rest[0] != '[')
    ensures RvalueRule(RvalueThen(v, rest)) == Some((v, rest))
  {
    match v
    case Number(n) => NumberRoundTripAsRvalue(n, rest);
    case String(text) => StringRoundTripAsRvalue(text, rest);
    case Selector(sel) => SelectorRoundTripAsRvalue(sel, rest);
  }

  /** Blanks before a text that starts with no blank and no `#` are skipped entirely. */
  lemma {:induction false} Blank0SkipsAll(w: string, t: string)
    requires forall i | 0 <= i < |w| :: IsMultispace(w[i])
    requires t != [] && !IsMultispace(t[0]) && t[0] != '#'
    ensures Blank0(w + t) == t
    ensures w + t != [] && (IsMultispace((w + t)[0]) || (w + t)[0] == t[0])
  {
    Blank0SkipsSpaces(w, t);
    if w == [] { assert w + t == t; } else { assert (w + t)[0] == w[0]; }
  }

  /** What follows the left-hand side of a comparison: the operator and the right-hand side. */
  lemma ComparisonTail(op: CompareOperator, rhs: Rvalue, w2: string, rest: string)
    requires WellFormedRvalue(rhs)
    requires forall i | 0 <= i < |w2| :: IsMultispace(w2[i])
    requires rest == [] || (!IsDigit(rest[0]) && rest[0] != '.' && rest[0] != '[')
    ensures var afterOp := w2 + RvalueThen(rhs, rest);
      && CompareOperatorRule(CompareText(op) + afterOp) == Some((op, afterOp))
      && RvalueRule(Blank0(afterOp)) == Some((rhs, rest))
  {
    var right := RvalueThen(rhs, rest);
    RvalueFirst(rhs, rest);
    Blank0SkipsAll(w2, right);
    CompareOperatorRoundTrip(op, w2 + right);
    RvalueRoundTrip(rhs, rest);
  }

  /**
   * `lhs op rhs` reads back as the comparison, with any white space (none
   * included) on either side of the operator.
   */
  lemma ComparisonRoundTrip(op: CompareOperator, lhs: Rvalue, rhs: Rvalue, w1: string, w2: string, rest: string)
    requires WellFormedRvalue(lhs) && WellFormedRvalue(rhs)
    requires forall i | 0 <= i < |w1| :: IsMultispace(w1[i])
    requires forall i | 0 <= i < |w2| :: IsMultispace(w2[i])
    requires rest == [] || (!IsDigit(rest[0]) && rest[0] != '.' && rest[0] != '[')
    ensures var s := RvalueThen(lhs, w1 + (CompareText(op) + (w2 + RvalueThen(rhs, rest))));
      && CompareExprRule(s) == Some((Compare(op, lhs, rhs), rest))
      && BoolExprRule(s) == Some((Compare(op, lhs, rhs), rest))
  {
    var afterLhs := w1 + (CompareText(op) + (w2 + RvalueThen(rhs, rest)));
    ComparisonCompare(op, lhs, rhs, w1, w2, rest);
    RvalueFirst(lhs, afterLhs);
    BoolExprFromCompare(RvalueThen(lhs, afterLhs));
  }

  lemma ComparisonCompare(op: CompareOperator, lhs: Rvalue, rhs: Rvalue, w1: string, w2: string, rest: string)
    requires WellFormedRvalue(lhs) && WellFormedRvalue(rhs)
    requires forall i | 0 <= i < |w1| :: IsMultispace(w1[i])
    requires forall i | 0 <= i < |w2| :: IsMultispace(w2[i])
    requires rest == [] || (!IsDigit(rest[0]) && rest[0] != '.' && rest[0] != '[')
    ensures CompareExprRule(RvalueThen(lhs, w1 + (CompareText(op) + (w2 + RvalueThen(rhs, rest)))))
      == Some((Compare(op, lhs, rhs), rest))
  {
    var afterOp := w2 + RvalueThen(rhs, rest);
    var opText := CompareText(op) + afterOp;
    var afterLhs := w1 + opText;
    var s := RvalueThen(lhs, afterLhs);
    assert opText[0] == CompareText(op)[0];
    Blank0SkipsAll(w1, opText);
    RvalueRoundTrip(lhs, afterLhs);
    ComparisonTail(op, rhs, w2, rest);
    CompareFromParts(s, lhs, afterLhs, op, afterOp, rhs, rest);
  }

  lemma {:induction false} CompareFromParts(s: string, lhs: Rvalue, afterLhs: string, op: CompareOperator, afterOp: string, rhs: Rvalue, rest: string)
    requires RvalueRule(s) == Some((lhs, afterLhs))
    requires CompareOperatorRule(Blank0(afterLhs)) == Some((op, afterOp))
    requires RvalueRule(Blank0(afterOp)) == Some((rhs, rest))
    ensures CompareExprRule(s) == Some((Compare(op, lhs, rhs), rest))
  {
  }

  /** Text that opens with neither `(` nor `!` is a comparison whenever it can be one. */
  lemma {:induction false} BoolExprFromCompare(s: string)
    requires s != [] && s[0] != '(' && s[0] != '!'
    requires CompareExprRule(s).Some?
    ensures BoolExprRule(s) == CompareExprRule(s)
  {
    NoTag(s, "(");
    NoTag(s, "!");
  }

  // ---------------------------------------------------------- conditions

  /** `( condition )` reads back as the parenthesised tree, whatever follows. */
  lemma {:induction false} ParensRoundTrip(c: Compound, rest: string)
    requires WellFormedCompound(c)
    ensures ParensExprRule("(" + CompoundThen(c, ")" + rest)) == Some((Parens(CompoundAst(c)), rest))
    decreases c, 2
  {
    var closing := ")" + rest;
    var inner := CompoundThen(c, closing);
    OperandFirst(c.head, ChainThen(c.tail, closing));
    Blank0Keeps(inner);
    Blank0Keeps(closing);
    NoCompareOperator(closing);
    NoBoolOperator(closing);
    CompoundRoundTrip(c, closing);
    assert closing[1..] == rest;
    assert ("(" + inner)[1..] == inner;
    ParensFromParts("(" + inner, inner, CompoundAst(c), closing, rest);
  }

  lemma {:induction false} ParensFromParts(s: string, afterOpen: string, cond: Condition, t: string, rest: string)
    requires Tag(s, "(") == Some(afterOpen)
    requires ConditionRule(Blank0(afterOpen)) == Some((cond, t))
    requires Tag(Blank0(t), ")") == Some(rest)
    ensures ParensExprRule(s) == Some((Parens(cond), rest))
  {
  }

  /** Every operand reads back as the expression the grammar builds for it. */
  lemma {:induction false} OperandRoundTrip(o: Operand, rest: string)
    requires WellFormedOperand(o) && OperandFollower(rest)
    ensures BoolExprRule(OperandThen(o, rest)) == Some((OperandAst(o), rest))
    decreases o, 0
  {
    match o
    case Parenthesised(c) =>
      ParensRoundTrip(c, rest);
      ParensFirst("(" + CompoundThen(c, ")" + rest));
    case NegatedParens(c) =>
      ParensRoundTrip(c, rest);
      NegatedParensFirst("(" + CompoundThen(c, ")" + rest));
    case NegatedSelector(sel) =>
      NegatedSelectorRoundTrip(sel, rest);
    case Comparison(op, lhs, rhs) =>
      ComparisonRoundTrip(op, lhs, rhs, " ", " ", rest);
    case Value(v) =>
      ValueRoundTrip(v, rest);
  }

  /** A parenthesised expression is tried first. */
  lemma {:induction false} ParensFirst(s: string)
    requires ParensExprRule(s).Some?
    ensures BoolExprRule(s) == ParensExprRule(s)
  {
  }

  /** `!` before a parenthesised expression negates it. */
  lemma {:induction false} NegatedParensFirst(p: string)
    requires p != [] && p[0] == '(' && ParensExprRule(p).Some?
    ensures BoolExprRule("!" + p) == Some((Negative(ParensExprRule(p).value.0), ParensExprRule(p).value.1))
  {
    var s := "!" + p;
    assert Tag(s, "!") == Some(p);
    Blank0Keeps(p);
    NegativeFromParens(s, p);
    NoParens(s);
    NegativeSecond(s);
  }

  lemma {:induction false} NegativeFromParens(s: string, afterBang: string)
    requires Tag(s, "!") == Some(afterBang) && ParensExprRule(Blank0(afterBang)).Some?
    ensures var (e, rest) := ParensExprRule(Blank0(afterBang)).value;
      NegativeExprRule(s) == Some((Negative(e), rest))
  {
  }

  lemma {:induction false} NegativeFromSelector(s: string, afterBang: string)
    requires Tag(s, "!") == Some(afterBang)
    requires ParensExprRule(Blank0(afterBang)).None? && SelectorRule(Blank0(afterBang)).Some?
    ensures var (sel, rest) := SelectorRule(Blank0(afterBang)).value;
      NegativeExprRule(s) == Some((Negative(BoolExpr.Rvalue(Rvalue.Selector(sel))), rest))
  {
  }

  /** Text that does not open with `(` is no parenthesised expression. */
  lemma {:induction false} NoParens(s: string)
    requires s != [] && s[0] != '('
    ensures ParensExprRule(s).None?
  {
    NoTag(s, "(");
  }

  lemma {:induction false} NegatedSelectorRoundTrip(sel: Selector, rest: string)
    requires WellFormedRvalue(Rvalue.Selector(sel)) && OperandFollower(rest)
    ensures BoolExprRule(OperandThen(NegatedSelector(sel), rest)) == Some((OperandAst(NegatedSelector(sel)), rest))
  {
    RvalueFirst(Rvalue.Selector(sel), rest);
    SelectorRoundTrip(sel, rest);
    NegatedSelectorFirst(SelectorText(sel.elements) + rest);
  }

  /** `!` before a selector negates it. */
  lemma {:induction false} NegatedSelectorFirst(t: string)
    requires t != [] && t[0] == '[' && SelectorRule(t).Some?
    ensures BoolExprRule("!" + t) == Some((Negative(BoolExpr.Rvalue(Rvalue.Selector(SelectorRule(t).value.0))), SelectorRule(t).value.1))
  {
    var s := "!" + t;
    assert Tag(s, "!") == Some(t);
    Blank0Keeps(t);
    NoParens(t);
    NegativeFromSelector(s, t);
    NoParens(s);
    NegativeSecond(s);
  }

  /** A negation is tried when a parenthesised expression fails. */
  lemma {:induction false} NegativeSecond(s: string)
    requires ParensExprRule(s).None? && NegativeExprRule(s).Some?
    ensures BoolExprRule(s) == NegativeExprRule(s)
  {
  }

  lemma ValueRoundTrip(v: Rvalue, rest: string)
    requires WellFormedRvalue(v) && OperandFollower(rest)
    ensures BoolExprRule(RvalueThen(v, rest)) == Some((BoolExpr.Rvalue(v), rest))
  {
    var s := RvalueThen(v, rest);
    RvalueFirst(v, rest);
    NoTag(s, "(");
    NoTag(s, "!");
    RvalueRoundTrip(v, rest);
    assert CompareExprRule(s).None?;
  }

  /**
   * Every printed condition reads back as `parse_condition` applied to its
   * operands and operators, in text order.
   */
  lemma {:induction false} CompoundRoundTrip(c: Compound, rest: string)
    requires WellFormedCompound(c) && CompoundFollower(rest)
    ensures ConditionRule(CompoundThen(c, rest)) == Some((CompoundAst(c), rest))
    decreases c, 1
  {
    ChainFollows(c.tail, rest);
    OperandRoundTrip(c.head, ChainThen(c.tail, rest));
    ChainRoundTrip(c.tail, rest);
  }

  lemma {:induction false} ChainRoundTrip(t: Chain, rest: string)
    requires WellFormedChain(t) && CompoundFollower(rest)
    ensures ConditionTailRule(ChainThen(t, rest)) == (ChainAst(t), rest)
    decreases t, 1
  {
    match t
    case End =>
    case Then(op, o, next) =>
      var operand := OperandThen(o, ChainThen(next, rest));
      var afterOp := " " + operand;
      var after := BoolOperatorText(op) + afterOp;
      assert after[0] == BoolOperatorText(op)[0];
      Blank0AfterSpace(after);
      BoolOperatorRoundTrip(op, afterOp);
      OperandFirst(o, ChainThen(next, rest));
      Blank0AfterSpace(operand);
      ChainFollows(next, rest);
      OperandRoundTrip(o, ChainThen(next, rest));
      ChainRoundTrip(next, rest);
  }
}
