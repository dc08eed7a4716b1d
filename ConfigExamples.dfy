/**
 * Concrete instances of the round trips: the inputs of the parser's own
 * unit tests and what they read back as.
 *
 * Each lemma takes its input text as a parameter fixed by its precondition,
 * which keeps the solver from evaluating the grammar on the literal.
 */
module ConfigExamples {
  import opened Wrappers
  import opened Ast
  import opened ConfigLexer
  import opened ConfigParser
  import opened ConfigPrint
  import opened SectionPrint

  // The operands of the compound condition `1 > 2 and 'foo' != 'bar' or 42 == [sel]`.
  const OneGtTwo: Operand := Comparison(Gt, Number(Numeral(false, "1", None)), Number(Numeral(false, "2", None)))
  const FooNeBar: Operand := Comparison(Ne, String("foo"), String("bar"))
  const FortyTwoEqSel: Operand := Comparison(Eq, Number(Numeral(false, "42", None)), Rvalue.Selector(Selector.Selector(["sel"])))

  lemma {:induction false} OneGtTwoText(rest: string)
    ensures OperandThen(OneGtTwo, rest) == "1 > 2" + rest
  {
  }

  lemma {:induction false} FooNeBarText(rest: string)
    ensures OperandThen(FooNeBar, rest) == "'foo' != 'bar'" + rest
  {
    FooBarPlain();
    QuotedComparisonText(Ne, "foo", "bar", rest);
    assert "'" + ("foo" + ("' " + ("!=" + (" '" + ("bar" + ("'" + rest)))))) == "'foo' != 'bar'" + rest;
  }

  /** A text without quotes or backslashes, written unchanged between quotes. */
  predicate Plain(text: string)
  {
    forall i | 0 <= i < |text| :: text[i] != '\'' && text[i] != '\\'
  }

  lemma FooBarPlain()
    ensures Plain("foo") && Plain("bar")
  {
  }

  lemma {:induction false} QuotedComparisonText(op: CompareOperator, a: string, b: string, rest: string)
    requires Plain(a) && Plain(b)
    ensures OperandThen(Comparison(op, String(a), String(b)), rest)
      == "'" + (a + ("' " + (CompareText(op) + (" '" + (b + ("'" + rest))))))
  {
    EscapeVerbatim(a, '\'');
    EscapeVerbatim(b, '\'');
    var right := "'" + (b + ("'" + rest));
    AppendAssoc(" ", "'", b + ("'" + rest));
    AppendAssoc("'", " ", CompareText(op) + (" " + right));
    assert "' " == "'" + " ";
    assert " '" == " " + "'";
  }

  lemma FortyTwoEqSelText()
    ensures OperandThen(FortyTwoEqSel, "") == "42 == [sel]"
  {
    assert SelectorText(["sel"]) == "[sel]" by {
      assert ["sel"][1..] == [];
    }
  }

  /** `1 > 2 op1 'foo' != 'bar' op2 42 == [sel]`. */
  function CompoundTest(op1: BoolOperator, op2: BoolOperator): Compound
  {
    Compound(OneGtTwo, Then(op1, FooNeBar, Then(op2, FortyTwoEqSel, End)))
  }

  lemma CompoundTestText(op1: BoolOperator, op2: BoolOperator)
    ensures CompoundThen(CompoundTest(op1, op2), "")
      == "1 > 2" + (" " + (BoolOperatorText(op1) + (" " + ("'foo' != 'bar'" + (" " + (BoolOperatorText(op2) + (" " + "42 == [sel]")))))))
  {
    var third := OperandThen(FortyTwoEqSel, "");
    var second := OperandThen(FooNeBar, " " + (BoolOperatorText(op2) + (" " + third)));
    FortyTwoEqSelText();
    FooNeBarText(" " + (BoolOperatorText(op2) + (" " + third)));
    OneGtTwoText(" " + (BoolOperatorText(op1) + (" " + second)));
  }

  lemma CompoundTestReadsBack(op1: BoolOperator, op2: BoolOperator)
    ensures ConditionRule(CompoundThen(CompoundTest(op1, op2), "")) == Some((CompoundAst(CompoundTest(op1, op2)), ""))
  {
    Blank0Keeps("");
    NoCompareOperator("");
    NoBoolOperator("");
    assert WellFormedSegment("sel");
    CompoundRoundTrip(CompoundTest(op1, op2), "");
  }

  lemma AndOrText()
    ensures CompoundThen(CompoundTest(And, Or), "") == "1 > 2 and 'foo' != 'bar' or 42 == [sel]"
  {
    AndOrJoin();
    CompoundTestText(And, Or);
  }

  /** The text of the first compound test, written out from its parts. */
  lemma AndOrJoin()
    ensures "1 > 2" + (" " + ("and" + (" " + ("'foo' != 'bar'" + (" " + ("or" + (" " + "42 == [sel]")))))))
      == "1 > 2 and 'foo' != 'bar' or 42 == [sel]"
  {
  }

  lemma AndOrAst()
    ensures CompoundAst(CompoundTest(And, Or)) ==
      Condition.Branch(Or,
        Condition.Branch(And,
          Leaf(Compare(Gt, Number(Numeral(false, "1", None)), Number(Numeral(false, "2", None)))),
          Leaf(Compare(Ne, String("foo"), String("bar")))),
        Leaf(Compare(Eq, Number(Numeral(false, "42", None)), Rvalue.Selector(Selector.Selector(["sel"])))))
  {
    AndThenOr(OperandAst(OneGtTwo), OperandAst(FooNeBar), OperandAst(FortyTwoEqSel));
  }

  lemma OrAndText()
    ensures CompoundThen(CompoundTest(Or, And), "") == "1 > 2 or 'foo' != 'bar' and 42 == [sel]"
  {
    OrAndJoin();
    CompoundTestText(Or, And);
  }

  /** The text of the second compound test, written out from its parts. */
  lemma OrAndJoin()
    ensures "1 > 2" + (" " + ("or" + (" " + ("'foo' != 'bar'" + (" " + ("and" + (" " + "42 == [sel]")))))))
      == "1 > 2 or 'foo' != 'bar' and 42 == [sel]"
  {
  }

  lemma OrAndAst()
    ensures CompoundAst(CompoundTest(Or, And)) ==
      Condition.Branch(Or,
        Leaf(Compare(Gt, Number(Numeral(false, "1", None)), Number(Numeral(false, "2", None)))),
        Condition.Branch(And,
          Leaf(Compare(Ne, String("foo"), String("bar"))),
          Leaf(Compare(Eq, Number(Numeral(false, "42", None)), Rvalue.Selector(Selector.Selector(["sel"]))))))
  {
    OrThenAnd(OperandAst(OneGtTwo), OperandAst(FooNeBar), OperandAst(FortyTwoEqSel));
  }

  /** `1 > 2 and 'foo' != 'bar' or 42 == [sel]` reads back as `(1 > 2 and 'foo' != 'bar') or 42 == [sel]`. */
  lemma {:induction false} CompoundAndOrExample(text: string)
    requires text == "1 > 2 and 'foo' != 'bar' or 42 == [sel]"
    ensures ConditionRule(text) == Some((
      Condition.Branch(Or,
        Condition.Branch(And,
          Leaf(Compare(Gt, Number(Numeral(false, "1", None)), Number(Numeral(false, "2", None)))),
          Leaf(Compare(Ne, String("foo"), String("bar")))),
        Leaf(Compare(Eq, Number(Numeral(false, "42", None)), Rvalue.Selector(Selector.Selector(["sel"]))))),
      ""))
  {
    AndOrText();
    CompoundTestReadsBack(And, Or);
    AndOrAst();
  }

  /** `1 > 2 or 'foo' != 'bar' and 42 == [sel]` reads back as `1 > 2 or ('foo' != 'bar' and 42 == [sel])`. */
  lemma {:induction false} CompoundOrAndExample(text: string)
    requires text == "1 > 2 or 'foo' != 'bar' and 42 == [sel]"
    ensures ConditionRule(text) == Some((
      Condition.Branch(Or,
        Leaf(Compare(Gt, Number(Numeral(false, "1", None)), Number(Numeral(false, "2", None)))),
        Condition.Branch(And,
          Leaf(Compare(Ne, String("foo"), String("bar"))),
          Leaf(Compare(Eq, Number(Numeral(false, "42", None)), Rvalue.Selector(Selector.Selector(["sel"])))))),
      ""))
  {
    OrAndText();
    CompoundTestReadsBack(Or, And);
    OrAndAst();
  }

  // ------------------------------------------------------ single operands

  /** `[foo][bar]\n==\n  \n  [baz]`: white space of any kind around the operator. */
  lemma {:induction false} SpacedComparisonExample(text: string)
    requires text == "[foo][bar]\n==\n  \n  [baz]"
    ensures BoolExprRule(text) == Some((Compare(Eq,
      Rvalue.Selector(Selector.Selector(["foo", "bar"])),
      Rvalue.Selector(Selector.Selector(["baz"]))), ""))
  {
    var lhs := Rvalue.Selector(Selector.Selector(["foo", "bar"]));
    var rhs := Rvalue.Selector(Selector.Selector(["baz"]));
    SpacedComparisonText();
    SelectorsWellFormed();
    ComparisonRoundTrip(Eq, lhs, rhs, "\n", "\n  \n  ", "");
  }

  lemma SelectorsWellFormed()
    ensures WellFormedRvalue(Rvalue.Selector(Selector.Selector(["foo", "bar"])))
    ensures WellFormedRvalue(Rvalue.Selector(Selector.Selector(["baz"])))
  {
    assert WellFormedSegment("foo") && WellFormedSegment("bar") && WellFormedSegment("baz");
  }

  lemma SpacedComparisonText()
    ensures RvalueThen(Rvalue.Selector(Selector.Selector(["foo", "bar"])),
        "\n" + (CompareText(Eq) + ("\n  \n  " + RvalueThen(Rvalue.Selector(Selector.Selector(["baz"])), ""))))
      == "[foo][bar]\n==\n  \n  [baz]"
  {
    FooBarSelectorText();
    BazSelectorText();
    assert "[foo][bar]" + ("\n" + ("==" + ("\n  \n  " + ("[baz]" + "")))) == "[foo][bar]\n==\n  \n  [baz]";
  }

  lemma FooBarSelectorText()
    ensures SelectorText(["foo", "bar"]) == "[foo][bar]"
  {
    assert ["foo", "bar"][1..] == ["bar"];
    assert ["bar"][1..] == [];
  }

  lemma BazSelectorText()
    ensures SelectorText(["baz"]) == "[baz]"
  {
    assert ["baz"][1..] == [];
  }

  /** `!(1 > 2)` is the negation of the parenthesised comparison. */
  lemma {:induction false} NegatedParensExample(text: string)
    requires text == "!(1 > 2)"
    ensures BoolExprRule(text) == Some((
      Negative(Parens(Leaf(Compare(Gt, Number(Numeral(false, "1", None)), Number(Numeral(false, "2", None)))))), ""))
  {
    var o := NegatedParens(Compound(OneGtTwo, End));
    NegatedParensText();
    Blank0Keeps("");
    NoCompareOperator("");
    OperandRoundTrip(o, "");
  }

  lemma NegatedParensText()
    ensures OperandThen(NegatedParens(Compound(OneGtTwo, End)), "") == "!(1 > 2)"
  {
    OneGtTwoText(")");
  }

  /** `![foo][bar]` is the negation of the selector. */
  lemma {:induction false} NegatedSelectorExample(text: string)
    requires text == "![foo][bar]"
    ensures BoolExprRule(text) == Some((Negative(BoolExpr.Rvalue(Rvalue.Selector(Selector.Selector(["foo", "bar"])))), ""))
  {
    NegatedSelectorText();
    SelectorsWellFormed();
    Blank0Keeps("");
    NoCompareOperator("");
    OperandRoundTrip(NegatedSelector(Selector.Selector(["foo", "bar"])), "");
  }

  lemma NegatedSelectorText()
    ensures OperandThen(NegatedSelector(Selector.Selector(["foo", "bar"])), "") == "![foo][bar]"
  {
    FooBarSelectorText();
  }

  // ------------------------------------------------------------- lexemes

  /** A name stops at the first character that cannot be part of one. */
  lemma NameStopsAtAmpersand(text: string)
    requires text == "foo&bar"
    ensures NameRule(text) == Some(("foo", "&bar"))
  {
    assert text == "foo" + "&bar";
    SpanUnique("foo", "&bar", IsNameChar);
  }

  /** A plus sign does not start a number. */
  lemma PlusIsNotANumber(text: string)
    requires text == "+1"
    ensures NumberRule(text).None?
  {
  }

  /** `-0.123abc` is the number -0.123 followed by `abc`. */
  lemma NumberBeforeLetters(text: string)
    requires text == "-0.123abc"
    ensures NumberRule(text) == Some((Numeral(true, "0", Some("123")), "abc"))
  {
    assert NumeralThen(Numeral(true, "0", Some("123")), "abc") == text;
    NumberRoundTrip(Numeral(true, "0", Some("123")), "abc");
  }

  /** The numbers the parser's tests accept, each read whole; `0.` has an empty fraction. */
  lemma ValidNumbers()
    ensures forall t | t in [("0", Numeral(false, "0", None)), ("123", Numeral(false, "123", None)),
                             ("-1", Numeral(true, "1", None)), ("0.", Numeral(false, "0", Some(""))),
                             ("1.5", Numeral(false, "1", Some("5"))), ("1.123", Numeral(false, "1", Some("123"))),
                             ("-0.42", Numeral(true, "0", Some("42")))] ::
      NumberRule(t.0) == Some((t.1, ""))
  {
    forall t | t in [("0", Numeral(false, "0", None)), ("123", Numeral(false, "123", None)),
                     ("-1", Numeral(true, "1", None)), ("0.", Numeral(false, "0", Some(""))),
                     ("1.5", Numeral(false, "1", Some("5"))), ("1.123", Numeral(false, "1", Some("123"))),
                     ("-0.42", Numeral(true, "0", Some("42")))]
      ensures NumberRule(t.0) == Some((t.1, ""))
    {
      assert NumeralThen(t.1, "") == t.0;
      NumberRoundTrip(t.1, "");
    }
  }

  /** Two quotes between parts without quotes each gain a backslash, and nothing else changes. */
  lemma {:induction false} EscapeTwoQuotes(a: string, b: string, c: string, q: char)
    requires forall i | 0 <= i < |a| :: a[i] != q
    requires forall i | 0 <= i < |b| :: b[i] != q
    requires forall i | 0 <= i < |c| :: c[i] != q
    ensures Escape(a + [q] + b + [q] + c, q) == a + ['\\', q] + b + ['\\', q] + c
  {
    EscapeVerbatim(a, q);
    EscapeQuoteAfter(a, q);
    EscapeVerbatimAfter(a + [q], b, q);
    EscapeQuoteAfter(a + [q] + b, q);
    EscapeVerbatimAfter(a + [q] + b + [q], c, q);
  }

  lemma {:induction false} EscapeQuoteAfter(x: string, q: char)
    ensures Escape(x + [q], q) == Escape(x, q) + ['\\', q]
  {
    assert [q][1..] == [];
    assert Escape([q], q) == ['\\', q] + Escape([], q);
    EscapeAppend(x, [q], q);
  }

  lemma {:induction false} EscapeVerbatimAfter(x: string, y: string, q: char)
    requires forall i | 0 <= i < |y| :: y[i] != q
    ensures Escape(x + y, q) == Escape(x, q) + y
  {
    EscapeVerbatim(y, q);
    EscapeAppend(x, y, q);
  }

  /** Each quote inside `foo 'bar' baz`, or `foo "bar" baz`, gains a backslash. */
  lemma QuotesEscaped(v: string, q: char)
    requires (q == '\'' || q == '"') && v == "foo " + [q] + "bar" + [q] + " baz"
    ensures Escape(v, q) == "foo " + ['\\', q] + "bar" + ['\\', q] + " baz"
  {
    EscapeTwoQuotes("foo ", "bar", " baz", q);
  }

  /**
   * `'foo \'bar\' baz'` reads as `foo 'bar' baz`, and `"foo \"bar\" baz"` as
   * `foo "bar" baz`: the texts of the two quoted-string tests, one per quote.
   */
  lemma QuotedStringExample(q: char)
    requires q == '\'' || q == '"'
    ensures StringRule([q] + "foo \\" + [q] + "bar\\" + [q] + " baz" + [q]) == Some(("foo " + [q] + "bar" + [q] + " baz", ""))
  {
    var v := "foo " + [q] + "bar" + [q] + " baz";
    QuotesEscaped(v, q);
    assert [q] + "foo \\" + [q] + "bar\\" + [q] + " baz" + [q] == [q] + (Escape(v, q) + ([q] + ""));
    QuotedRoundTrip(v, q, "");
  }

  /** A quoted name may hold characters a bare name may not. */
  lemma QuotedNameExample(text: string, v: string)
    requires text == "'foo&bar'" && v == "foo&bar"
    ensures NameRule(text) == Some((v, ""))
  {
    QuotedNameQuoted(text, v);
    assert StringRule(text) == Some((v, ""));
  }

  lemma QuotedNameQuoted(text: string, v: string)
    requires text == "'foo&bar'" && v == "foo&bar"
    ensures Quoted(text, '\'') == Some((v, ""))
  {
    EscapeVerbatim(v, '\'');
    assert text == ['\''] + (Escape(v, '\'') + (['\''] + ""));
    QuotedRoundTrip(v, '\'', "");
  }

  /** Bare names with digits, `_` and `-` are read whole. */
  lemma BareNameExample(name: string)
    requires name == "example123" || name == "ex_amp_le-123"
    ensures NameRule(name) == Some((name, ""))
  {
    assert name == name + "";
    NameRoundTrip(name, "");
  }

  // --------------------------------------------------------------- plugins

  /** `stdin {}` is the plugin `stdin`, with nothing left over. */
  lemma StdinPlugin(text: string)
    requires text == "stdin {}"
    ensures PluginRule(text) == Some((Plugin.Plugin("stdin"), ""))
  {
    assert text == "stdin" + (" " + ("{" + ("" + ("}" + ""))));
    PluginRoundTrip("stdin", " ", "", "");
  }

  /** `file {`, blank lines, `}` is the plugin `file`, with nothing left over. */
  lemma FilePlugin(text: string, w: string)
    requires text == "file {\n\n    \n}" && w == "\n\n    \n"
    ensures PluginRule(text) == Some((Plugin.Plugin("file"), ""))
  {
    assert text == "file" + (" " + ("{" + (w + ("}" + ""))));
    PluginRoundTrip("file", " ", w, "");
  }

  // -------------------------------------------------------------- comments

  /**
   * A last line that is a `#` comment without a line feed is left unread, and
   * the sections before it are the configuration: `input { }` followed by
   * `# end` on its own line is accepted.
   */
  lemma UnterminatedCommentAccepted(ss: seq<Section>, comment: string)
    requires ss != [] && WellFormedSections(ss)
    requires comment != [] && comment[0] == '#' && forall i | 0 <= i < |comment| :: comment[i] != '\n'
    ensures Parse(SectionsThen(ss, comment)) == Ok(Config(SectionsAst(ss)))
  {
    CommentLeftUnread(comment);
    ConfigRoundTrip(ss, comment);
  }

  /** `blank0` stops at a comment that has no line feed, and no section starts there. */
  lemma CommentLeftUnread(comment: string)
    requires comment != [] && comment[0] == '#' && forall i | 0 <= i < |comment| :: comment[i] != '\n'
    ensures ConfigFollower(comment)
  {
    assert PastNewline(comment).None?;
    assert ("\n" + comment)[1..] == comment;
    NoTag(comment, "input");
    NoTag(comment, "filter");
    NoTag(comment, "output");
  }

  /**
   * A comment line followed by blank text is skipped with the blanks, and the
   * sections before it are the configuration: `input { }`, then `# end`, then
   * an empty line is accepted, with nothing left over.
   */
  lemma CommentThenBlanksAccepted(ss: seq<Section>, comment: string, w: string)
    requires ss != [] && WellFormedSections(ss)
    requires comment != [] && comment[0] == '#' && forall i | 0 <= i < |comment| :: comment[i] != '\n'
    requires w != [] && forall i | 0 <= i < |w| :: IsMultispace(w[i])
    ensures ConfigRule(SectionsThen(ss, comment + "\n" + w)) == Some((Config(SectionsAst(ss)), ""))
    ensures Parse(SectionsThen(ss, comment + "\n" + w)) == Ok(Config(SectionsAst(ss)))
  {
    var rest := comment + "\n" + w;
    FirstIndexAt(rest, {'\n'}, |comment|);
    assert rest[|comment| + 1..] == w + "";
    Blank0SkipsSpaces(w, "");
    assert ("\n" + rest)[1..] == rest;
    assert Blank0("\n" + rest) == "";
    Blank0Keeps("");
    NoSectionAtEnd();
    SectionsRoundTripTo(ss, rest, "");
  }

  /** No section starts in an empty text. */
  lemma NoSectionAtEnd()
    ensures PluginSectionRule("").None?
  {
    assert !StartsWith("", "input") && !StartsWith("", "filter") && !StartsWith("", "output");
  }

  /**
   * A last section whose block holds a plugin but is never closed is left
   * unread, and the sections before it are the configuration: `input {}`,
   * then `output { stdout {}`, is accepted as the input section alone.
   */
  lemma UnclosedSectionAccepted(ss: seq<Section>, t: PluginType, name: string)
    requires ss != [] && WellFormedSections(ss)
    requires name != [] && (forall i | 0 <= i < |name| :: IsNameChar(name[i])) && !StartsWith(name, "if")
    ensures Parse(SectionsThen(ss, PluginTypeText(t) + (" { " + (name + " {}")))) == Ok(Config(SectionsAst(ss)))
  {
    UnclosedSectionFollows(t, name);
    ConfigRoundTrip(ss, PluginTypeText(t) + (" { " + (name + " {}")));
  }

  /** A keyword and an unclosed block may follow a configuration. */
  lemma UnclosedSectionFollows(t: PluginType, name: string)
    requires name != [] && (forall i | 0 <= i < |name| :: IsNameChar(name[i])) && !StartsWith(name, "if")
    ensures ConfigFollower(PluginTypeText(t) + (" { " + (name + " {}")))
  {
    var tail := PluginTypeText(t) + (" { " + (name + " {}"));
    UnclosedSectionLeftUnread(t, name);
    Blank0Keeps(tail);
    Blank0SkipsSpaces("\n", tail);
  }

  /** No section is read from a keyword and a block that lacks its closing brace. */
  lemma UnclosedSectionLeftUnread(t: PluginType, name: string)
    requires name != [] && (forall i | 0 <= i < |name| :: IsNameChar(name[i])) && !StartsWith(name, "if")
    ensures PluginSectionRule(PluginTypeText(t) + (" { " + (name + " {}"))).None?
  {
    var open := "{" + (" " + (name + (" " + ("{" + ("" + ("}" + ""))))));
    UnclosedText(name);
    PluginBlockUnclosed(name);
    Blank0AfterSpace(open);
    SectionWithoutBlock(t, " " + open);
  }

  /** `{`, a plugin, and the end of the text: the block is never closed. */
  lemma PluginBlockUnclosed(name: string)
    requires name != [] && (forall i | 0 <= i < |name| :: IsNameChar(name[i])) && !StartsWith(name, "if")
    ensures BlockRule("{" + (" " + (name + (" " + ("{" + ("" + ("}" + ""))))))).None?
  {
    var plugin := name + (" " + ("{" + ("" + ("}" + ""))));
    Blank0AfterSpace(plugin);
    PluginThenEnd(name);
    UnclosedBlock(" " + plugin, [BranchOrPlugin.Plugin(Plugin.Plugin(name))]);
  }

  /** The unclosed section text, regrouped as the rules read it. */
  lemma UnclosedText(name: string)
    ensures " { " + (name + " {}") == " " + ("{" + (" " + (name + (" " + ("{" + ("" + ("}" + "")))))))
  {
  }

  /** Without a block after the keyword there is no section. */
  lemma SectionWithoutBlock(t: PluginType, after: string)
    requires BlockRule(Blank0(after)).None?
    ensures PluginSectionRule(PluginTypeText(t) + after).None?
  {
    PluginTypeRoundTrip(t, after);
  }

  /** A block whose elements run to the end of the text lacks its closing brace. */
  lemma UnclosedBlock(body: string, elements: Block)
    requires ElementsRule(Blank0(body)) == (elements, "")
    ensures BlockRule("{" + body).None?
  {
    TagThen("{", body);
    NoTag("", "}");
  }

  /** A plugin at the very end of the text is the last element, and no `}` follows it. */
  lemma PluginThenEnd(name: string)
    requires name != [] && (forall i | 0 <= i < |name| :: IsNameChar(name[i])) && !StartsWith(name, "if")
    ensures ElementsRule(name + (" " + ("{" + ("" + ("}" + ""))))) == ([BranchOrPlugin.Plugin(Plugin.Plugin(name))], "")
  {
    var plugin := name + (" " + ("{" + ("" + ("}" + ""))));
    PluginElement(name, plugin);
    ElementsAfter(plugin, BranchOrPlugin.Plugin(Plugin.Plugin(name)));
  }

  /** A bare plugin that is not an `if` is read as a plugin element. */
  lemma PluginElement(name: string, plugin: string)
    requires name != [] && (forall i | 0 <= i < |name| :: IsNameChar(name[i])) && !StartsWith(name, "if")
    requires plugin == name + (" " + ("{" + ("" + ("}" + ""))))
    ensures Blank0(plugin) == plugin
    ensures BranchOrPluginRule(plugin) == Some((BranchOrPlugin.Plugin(Plugin.Plugin(name)), ""))
  {
    Blank0Keeps(plugin);
    NoIfAtPlugin(name, plugin);
    PluginRoundTrip(name, " ", "", "");
  }

  /** An element that runs to the end of the text is the last one. */
  lemma ElementsAfter(s: string, e: BranchOrPlugin)
    requires Blank0(s) == s && BranchOrPluginRule(s) == Some((e, ""))
    ensures ElementsRule(s) == ([e], "")
  {
    Blank0Keeps("");
    NothingAtEnd();
    assert [e] + [] == [e];
  }

  /** A plugin whose name does not start with `if` is not read as a branch. */
  lemma NoIfAtPlugin(name: string, plugin: string)
    requires name != [] && !StartsWith(name, "if") && plugin == name + (" " + ("{" + ("" + ("}" + ""))))
    ensures BranchRule(plugin).None?
  {
    assert !StartsWith(plugin, "if") by {
      if |name| == 1 { assert plugin[1] == ' '; } else { assert plugin[..2] == name[..2]; }
    }
    assert CaseIfRule(plugin).None?;
  }

  /** An empty text holds no block element. */
  lemma NothingAtEnd()
    ensures ElementsRule("") == ([], "")
  {
    Blank0Keeps("");
    NoTag("", "if");
    assert CaseIfRule("").None?;
    assert NameRule("").None?;
  }

  /**
   * A trailing part of a section keyword is left unread, and the sections
   * before it are the configuration: `input {}`, then `in`, is accepted.
   */
  lemma KeywordPrefixAccepted(ss: seq<Section>, t: PluginType, n: nat)
    requires ss != [] && WellFormedSections(ss)
    requires 0 < n < |PluginTypeText(t)|
    ensures Parse(SectionsThen(ss, PluginTypeText(t)[..n])) == Ok(Config(SectionsAst(ss)))
  {
    var tail := PluginTypeText(t)[..n];
    assert !StartsWith(tail, "input") && !StartsWith(tail, "filter") && !StartsWith(tail, "output") by {
      match t
      case Input =>
      case Filter => assert tail[0] == 'f';
      case Output => assert tail[0] == 'o';
    }
    Blank0Keeps(tail);
    Blank0SkipsSpaces("\n", tail);
    ConfigRoundTrip(ss, tail);
  }
}
