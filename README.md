# echelon0 configuration front end and rule language, in Dafny

This project models the core of echelon0, a small log-processing pipeline
written in Rust, and proves properties of that model. It covers three parts:

- **The configuration language.** Text of the form
  `input { stdin {} } filter { } output { if [a] == 1 { file {} } }` is parsed
  into a syntax tree: sections, plugins, `if / else if / else` branches,
  conditions with `and`/`or`, negation, comparisons, and rvalues (numbers,
  quoted strings, `[a][b]` selectors). The grammar is a prefix parser over
  `string` whose rules return `Option<(T, rest)>`, one Dafny function per
  grammar rule (`ConfigLexer`, `ConfigParser`, AST in `Ast`). Where the source
  works by mutation, the model keeps the imperative form and proves it
  against the grammar function:
  - the precedence-reshaping loop of `parse_condition` (`ConfigParser.ParseCondition`);
  - the un-escaping fold for quoted strings (`ConfigLexer.UnescapeQuoted`);
  - the fold that builds a bare name (`ConfigLexer.FoldName`).

  A printer writes conditions (`ConfigPrint`) and blocks, branches, sections
  and whole configurations (`SectionPrint`) back as text. Round-trip lemmas
  show that the grammar reads the printed text back to the same tree, with
  `if / else` normalised to a list of cases ending in the always-true case.
- **The tree walker and the compiler.** `Compile.Compiler` is a class whose
  hooks mutate a `Compile.Session`. The session holds the error list and a
  `Pipeline.InputSection`. The walker dispatches each section by kind and
  each block element to the plugin or branch hook of that kind
  (`Compile.Compiler.WalkConfig` and `WalkBlock`). The trace of hook calls is
  specified in `Visit`, and the effect of each call in `Compile.Effect`. A
  separate reference definition, `Compile.Errors`/`Compile.Instances`, counts
  what the input sections produce. The plugin provider is the set of input
  plugin names it can build. As written, src/config/visit.rs does not compile:
  `walk_block` sends both a plugin and a branch to `visit_plugin`
  (src/config/visit.rs:63-64), and the block hooks call a `walk_block!` macro
  that is not defined (src/config/visit.rs:9, 13, 17). The model supplies the
  evident intent: each block is walked with the plugin and branch hooks of its
  section's kind.
- **The legacy rule language** `/regex/ name:type,name,...`. `RuleSpec` gives
  a functional specification of the scanner and of the field parser. `Rule`
  has the classes `RuleReader` (one-character unread buffer), `RuleScanner`
  and `RuleParser`, whose methods are proved to compute exactly those
  functions. `RuleText` prints a well-formed rule and proves that parsing it
  gives the rule back. `RuleFindings` models the field loop as written, which
  rejects a rule whose last field has a type (see Findings).

The regular-expression compiler of the rule parser is a function parameter
`regex: string -> Result<nat, string>`. It gives the capture count of a
pattern (the whole match included), or an error.

Three choices follow the code closely:

- `parse` does not require the whole text to be a configuration
  (src/config/parser.rs:99-108): after the last section, `config` stops at the
  first text where `blank0` and `plugin_section` fail outright, and that text
  is ignored. The source's parser is streaming, though: where a rule runs out
  of text before it can decide, the whole parse fails. The model has no such
  outcome and ignores those endings too (see `ConfigParser.Parse` under
  "Left out").
- A bare name may start with a digit: the `name` rule accepts any run of
  letters, digits, `-` and `_` (src/config/parser.rs:455-463).
- A number is kept as its sign, digits and fraction digits. It is not
  converted to a floating-point value.

## Model

| member | source | states |
|---|---|---|
| Ast.NewBranch | src/config/ast.rs:33-52 | the cases are the `if` case, then the `else if` cases in order, then the `else` case when there is one; the length is 1 + the number of `else if` cases (+1 with `else`) |
| Ast.Precedence | src/config/ast.rs:143-150 | every boolean operator has a positive precedence |
| Ast.AndBindsTighterThanOr | src/config/ast.rs:143-150 | `and` binds tighter than `or` |
| Ast.CompareText | src/config/ast.rs:162-174 | the text of a comparison operator is one of `== != < > <= >=`, and it is one character exactly for `<` and `>` |
| Ast.CompareTextInjective | src/config/ast.rs:162-174 | different comparison operators have different texts |
| Ast.BoolOperatorText | src/config/parser.rs:346-351 | the text of a boolean operator is `and` or `or`, and it is `and` exactly for `And` |
| ConfigLexer.Tag | src/config/parser.rs:127-133 | a literal tag matches exactly when the input starts with it, and the rest is what follows it |
| ConfigLexer.Span | src/config/parser.rs:455-463 | splits the input into the longest prefix whose characters all satisfy the class, and the rest |
| ConfigLexer.SpanUnique | src/config/parser.rs:455-463 | a run of class characters followed by a non-class character is exactly what the split returns |
| ConfigLexer.TakeUntilEither | src/config/parser.rs:411-475 | succeeds exactly when a stop character occurs after at least one other character; the taken part is non-empty, holds no stop character, and the rest starts with one |
| ConfigLexer.PastNewline | src/config/parser.rs:477-490 | finds the position just past the first newline, or reports that there is none |
| ConfigLexer.Blank0 | src/config/parser.rs:477-492 | blank skipping returns a suffix of the input |
| ConfigLexer.Blank0Stops | src/config/parser.rs:477-492 | after blank skipping, the input starts neither with white space nor with a complete `#` comment |
| ConfigLexer.Blank0SkipsSpaces | src/config/parser.rs:477-492 | any run of white space before text that starts with neither white space nor `#` is skipped entirely |
| ConfigLexer.Fraction | src/config/parser.rs:376-386 | reads `.` and the digits after it (possibly none); nothing is read exactly when the input does not start with `.` |
| ConfigLexer.NumberRule | src/config/parser.rs:376-386 | an accepted number is `-`? digits (`.` digits)? and is maximal; a number is rejected exactly when no digit follows the optional `-` (so `+1` is rejected) |
| ConfigLexer.FractionRoundTrip | src/config/parser.rs:376-386 | a printed fraction reads back as itself |
| ConfigLexer.NumberRoundTrip | src/config/parser.rs:376-386 | a printed numeral followed by a non-digit, non-`.` character reads back as itself |
| ConfigLexer.Escape | src/config/parser.rs:411-453 | escaping never shortens the text |
| ConfigLexer.EscapeAppend | src/config/parser.rs:411-453 | escaping distributes over concatenation |
| ConfigLexer.EscapeVerbatim | src/config/parser.rs:411-453 | text without the quote character is written verbatim |
| ConfigLexer.QuotedBody | src/config/parser.rs:411-453 | splits the input into an un-escaped body (without backslashes) and the rest, such that escaping the body and appending the rest gives back the input |
| ConfigLexer.UnescapeQuoted | src/config/parser.rs:411-453 | the accumulating fold computes exactly the quoted body and the rest |
| ConfigLexer.Quoted | src/config/parser.rs:411-453 | an accepted quoted string is quote, escaped body, quote, rest |
| ConfigLexer.QuotedBodyRoundTrip | src/config/parser.rs:411-453 | an escaped body followed by the closing quote reads back as the body |
| ConfigLexer.QuotedRoundTrip | src/config/parser.rs:411-453 | a quoted, escaped string reads back as the original string |
| ConfigLexer.StringRule | src/config/parser.rs:405-409 | an accepted string consumes input |
| ConfigLexer.FoldName | src/config/parser.rs:455-463 | the fold over letters, digits, `-` and `_` builds the longest such prefix |
| ConfigLexer.NameRule | src/config/parser.rs:455-463 | a name starting with a name character is the maximal run of name characters; otherwise it is a quoted string |
| ConfigLexer.NameRoundTrip | src/config/parser.rs:455-463 | a bare name followed by a non-name character reads back as itself |
| ConfigLexer.Segment | src/config/parser.rs:465-475 | a selector segment is `[`, a non-empty text without `]` or `,`, then `]` |
| ConfigLexer.Segments | src/config/parser.rs:465-475 | the segments read are printed back to the consumed prefix, and no further segment follows |
| ConfigLexer.SelectorRule | src/config/parser.rs:465-475 | a selector has at least one segment, its segments are in source order, and it fails exactly when no segment starts the input |
| ConfigLexer.SegmentRoundTrip | src/config/parser.rs:465-475 | a printed segment reads back as itself |
| ConfigLexer.SegmentsRoundTrip | src/config/parser.rs:465-475 | printed segments read back in order |
| ConfigLexer.SelectorRoundTrip | src/config/parser.rs:465-475 | a printed selector reads back as itself |
| ConfigLexer.CompareOperatorRule | src/config/parser.rs:353-362 | an accepted comparison operator is the operator's text followed by the rest |
| ConfigLexer.CompareOperatorRoundTrip | src/config/parser.rs:353-362 | every operator's text reads back as that operator, because the two-character operators are tried before `<` and `>` |
| ConfigLexer.BoolOperatorRule | src/config/parser.rs:346-351 | an accepted boolean operator is its text followed by the rest; it fails exactly when the input starts with neither `and` nor `or` |
| ConfigLexer.BoolOperatorRoundTrip | src/config/parser.rs:346-351 | `and` and `or` read back as their operators |
| ConfigParser.Step | src/config/parser.rs:249-263 | one reshaping step, whether it wraps the tree or pushes into its right operand, keeps the operands and operators in text order and adds the new operator and operand at the end |
| ConfigParser.ParseCondition | src/config/parser.rs:242-268 | the reshaping loop computes the fold of the tail into the tree, and an empty tail leaves the head unchanged |
| ConfigParser.Exprs | src/config/parser.rs:242-268 | the expressions of the tail, in order |
| ConfigParser.Ops | src/config/parser.rs:242-268 | the operators of the tail, in order |
| ConfigParser.StepAppends | src/config/parser.rs:242-268 | one reshaping step adds the new expression as the last leaf, the operator as the last in-order operator, and one branch node |
| ConfigParser.FoldKeepsOrder | src/config/parser.rs:242-268 | the leaves of the built tree are the head followed by the tail expressions in order, its operators are the tail operators in order, and it has as many branch nodes as the tail has pairs |
| ConfigParser.LastOr | src/config/parser.rs:242-268 | finds the last `or` in the tail; every operator after it is `and` |
| ConfigParser.LastOrSnoc | src/config/parser.rs:242-268 | appending an `or` makes it the last one; appending an `and` keeps the last `or` |
| ConfigParser.StepOrExtendsReference | src/config/parser.rs:242-268 | a step with `or` extends the two-level precedence tree of the longer tail |
| ConfigParser.StepAndExtendsChain | src/config/parser.rs:242-268 | a step with `and` extends the precedence tree when the tail has no `or` |
| ConfigParser.StepAndExtendsLastChain | src/config/parser.rs:242-268 | a step with `and` extends the precedence tree when the tail has an `or` |
| ConfigParser.FoldIsReference | src/config/parser.rs:242-268 | the reshaped tree equals the tree of a two-level precedence grammar: an `or` of left-associated `and` chains |
| ConfigParser.AndThenOr | src/config/parser.rs:570-585 | `a and b or c` is `Or(And(a, b), c)` |
| ConfigParser.OrThenAnd | src/config/parser.rs:587-601 | `a or b and c` is `Or(a, And(b, c))` |
| ConfigParser.PluginTypeRule | src/config/parser.rs:127-133 | `input`, `filter` and `output` are read as the section types Input, Filter and Output, the keyword followed by the rest; nothing is read exactly when the input starts with none of them |
| ConfigParser.EmptyBodyRule | src/config/parser.rs:158-169 | an accepted empty plugin body consumes input; `{`, blanks, `}` is read whole (SectionPrint.EmptyBodyRoundTrip) |
| ConfigParser.PluginRule | src/config/parser.rs:158-169 | an accepted plugin consumes input; `name {}` with any blanks is the plugin `name` (SectionPrint.PluginRoundTrip, SectionPrint.QuotedPluginRoundTrip) |
| ConfigParser.ElementsRule | src/config/parser.rs:135-149 | the elements of a block leave a suffix of the input; printed statements are read in order up to the closing brace (SectionPrint.BodyRoundTrip) |
| ConfigParser.BlockRule | src/config/parser.rs:135-149 | an accepted block consumes input; a printed block is read as its statements (SectionPrint.BlockRoundTrip) |
| ConfigParser.BranchOrPluginRule | src/config/parser.rs:151-156 | an accepted block element consumes input; a branch is tried before a plugin (SectionPrint.BranchBeforePlugin) and a printed statement is read as itself (SectionPrint.StatementRoundTrip) |
| ConfigParser.BranchRule | src/config/parser.rs:171-178 | an accepted branch consumes input and has at least one case; a printed branch is the `if` case, the `else if` cases and the `else` case (SectionPrint.BranchRoundTrip, SectionPrint.IfElseIsTwoCases) |
| ConfigParser.ElseCasesRule | src/config/parser.rs:171-178 | the `else if` and `else` cases leave a suffix of the input; printed ones are read in order (SectionPrint.ElseCasesRoundTrip) |
| ConfigParser.OptionalElseRule | src/config/parser.rs:171-178 | the optional `else` case leaves a suffix of the input and has the truth condition; a printed `else` block is read as that case, and nothing is read without one (SectionPrint.OptionalElseRoundTrip) |
| ConfigParser.ElseIfsRule | src/config/parser.rs:171-178 | the `else if` cases leave a suffix of the input; printed ones are read in order (SectionPrint.ElseIfsRoundTrip) |
| ConfigParser.CaseIfRule | src/config/parser.rs:180-189 | an accepted `if` case consumes input; a printed one is the case of its condition and block (SectionPrint.CaseIfRoundTrip) |
| ConfigParser.GuardedBlockRule | src/config/parser.rs:180-198 | an accepted condition and block consume input; printed ones are the case of that condition and block (SectionPrint.GuardedBlockRoundTrip) |
| ConfigParser.CaseElseIfRule | src/config/parser.rs:191-198 | an accepted `else if` case consumes input; a printed one is the case of its condition and block (SectionPrint.CaseElseIfRoundTrip) |
| ConfigParser.CaseElseRule | src/config/parser.rs:200-207 | an accepted `else` case consumes input and has the truth condition (the number 1); a printed one holds its block (SectionPrint.CaseElseRoundTrip) |
| ConfigParser.ConditionRule | src/config/parser.rs:209-240 | an accepted condition consumes input |
| ConfigParser.ConditionTailRule | src/config/parser.rs:209-240 | the `(and|or) expression` continuations leave a suffix of the input |
| ConfigParser.BoolExprRule | src/config/parser.rs:270-286 | an accepted boolean expression consumes input |
| ConfigParser.ParensExprRule | src/config/parser.rs:288-304 | an accepted parenthesised condition consumes input and is a `Parens` node |
| ConfigParser.NegativeExprRule | src/config/parser.rs:306-317 | an accepted negation consumes input and negates either a parenthesised condition or a selector |
| ConfigParser.CompareExprRule | src/config/parser.rs:319-335 | an accepted comparison consumes input and is a `Compare` node |
| ConfigParser.RvalueExprRule | src/config/parser.rs:337-344 | an accepted bare rvalue consumes input and is an `Rvalue` node |
| ConfigParser.RvalueRule | src/config/parser.rs:364-374 | an accepted rvalue consumes input |
| ConfigParser.PluginSectionRule | src/config/parser.rs:118-125 | an accepted section consumes input; a printed section is read with the type its keyword names and the block that follows (SectionPrint.PluginSectionRoundTrip) |
| ConfigParser.SectionsRule | src/config/parser.rs:110-116 | the sections leave a suffix of the input; printed sections are read in order (SectionPrint.SectionsRoundTrip) |
| ConfigParser.ConfigRule | src/config/parser.rs:110-116 | a configuration has at least one section, and it fails exactly when no section can be read; a printed configuration is read as its sections (SectionPrint.ConfigRoundTrip); text that ends mid-rule is not failed (see Left out) |
| ConfigParser.Parse | src/config/parser.rs:100-108 | parsing succeeds exactly when a configuration is read from a prefix of the text, and fails otherwise with the message "Config parsing failed"; every printed configuration parses to its tree (SectionPrint.ParseRoundTrip); text that ends mid-rule is not rejected (see Left out) |
| ConfigPrint.RvalueFirst | src/config/parser.rs:364-374 | a printed rvalue starts with `-`, a digit, a quote or `[` |
| ConfigPrint.OperandFirst | src/config/parser.rs:270-286 | a printed operand starts with a character one of the expression rules accepts first |
| ConfigPrint.ChainFollows | src/config/parser.rs:209-240 | a printed continuation chain can follow an operand |
| ConfigPrint.NumberRoundTripAsRvalue | src/config/parser.rs:364-386 | a printed number reads back as a number rvalue |
| ConfigPrint.StringRoundTripAsRvalue | src/config/parser.rs:364-374 | a printed single-quoted string reads back as a string rvalue |
| ConfigPrint.SelectorRoundTripAsRvalue | src/config/parser.rs:364-374 | a printed selector reads back as a selector rvalue |
| ConfigPrint.RvalueRoundTrip | src/config/parser.rs:364-374 | every well-formed rvalue reads back as itself |
| ConfigPrint.ComparisonTail | src/config/parser.rs:319-335 | the operator and right-hand side of a printed comparison read back, whatever white space surrounds them |
| ConfigPrint.ComparisonRoundTrip | src/config/parser.rs:319-335 | for every comparison operator, `lhs op rhs` with any white space around the operator reads back as `Compare(op, lhs, rhs)`, both as a comparison and as a boolean expression |
| ConfigPrint.CompareFromParts | src/config/parser.rs:319-335 | a comparison is its three parts read in sequence with blanks skipped between them |
| ConfigPrint.BoolExprFromCompare | src/config/parser.rs:270-286 | text that starts with neither `(` nor `!` and holds a comparison is read as that comparison |
| ConfigPrint.ParensRoundTrip | src/config/parser.rs:288-304 | a parenthesised printed condition reads back as `Parens` of that condition |
| ConfigPrint.OperandRoundTrip | src/config/parser.rs:270-317 | every printed operand (parentheses, negation, comparison, bare rvalue) reads back as itself |
| ConfigPrint.ParensFirst | src/config/parser.rs:270-286 | parentheses are tried first |
| ConfigPrint.NegatedParensFirst | src/config/parser.rs:270-317 | `!` before a parenthesised condition is its negation |
| ConfigPrint.NegatedSelectorRoundTrip | src/config/parser.rs:306-317 | a printed negated selector reads back as itself |
| ConfigPrint.NegatedSelectorFirst | src/config/parser.rs:306-317 | `!` before a selector is its negation |
| ConfigPrint.NegativeSecond | src/config/parser.rs:270-286 | a negation is tried second, after parentheses |
| ConfigPrint.ValueRoundTrip | src/config/parser.rs:337-344 | a printed rvalue reads back as a bare-rvalue expression |
| ConfigPrint.CompoundRoundTrip | src/config/parser.rs:209-268 | every printed compound condition reads back as the precedence tree of its operands and operators |
| ConfigPrint.ChainRoundTrip | src/config/parser.rs:209-240 | the printed `(and|or) operand` continuations read back as the list of pairs, in order |
| ConfigExamples.CompoundAndOrExample | src/config/parser.rs:570-585 | `1 > 2 and 'foo' != 'bar' or 42 == [sel]` is `Or(And(1 > 2, 'foo' != 'bar'), 42 == [sel])` |
| ConfigExamples.CompoundOrAndExample | src/config/parser.rs:587-601 | `1 > 2 or 'foo' != 'bar' and 42 == [sel]` is `Or(1 > 2, And('foo' != 'bar', 42 == [sel]))` |
| ConfigExamples.CompoundTestReadsBack | src/config/parser.rs:570-601 | both operator orders of the test condition read back as their precedence trees |
| ConfigExamples.SpacedComparisonExample | src/config/parser.rs:615-642 | a comparison of selectors with newlines and spaces around `==` is read |
| ConfigExamples.NegatedParensExample | src/config/parser.rs:655-670 | `!(1 > 2)` is the negation of the parenthesised comparison |
| ConfigExamples.NegatedSelectorExample | src/config/parser.rs:655-670 | `![foo][bar]` is the negation of the selector `[foo][bar]` |
| ConfigExamples.NameStopsAtAmpersand | src/config/parser.rs:705-726 | `foo&bar` reads the name `foo` and leaves `&bar` |
| ConfigExamples.QuotedNameExample | src/config/parser.rs:705-726 | the quoted name `'foo&bar'` is `foo&bar` |
| ConfigExamples.BareNameExample | src/config/parser.rs:705-726 | `example123` and `ex_amp_le-123` are each read whole as a name |
| ConfigExamples.PlusIsNotANumber | src/config/parser.rs:672-681 | `+1` is not a number |
| ConfigExamples.NumberBeforeLetters | src/config/parser.rs:672-681 | `-0.123abc` is the number -0.123 followed by `abc` |
| ConfigExamples.ValidNumbers | src/config/parser.rs:672-681 | `0`, `123`, `-1`, `0.`, `1.5`, `1.123` and `-0.42` are each read whole |
| ConfigExamples.QuotesEscaped | src/config/parser.rs:411-453 | each `'` inside `foo 'bar' baz`, and each `"` inside `foo "bar" baz`, is written with a backslash |
| ConfigExamples.QuotedStringExample | src/config/parser.rs:683-703 | `'foo \'bar\' baz'` is `foo 'bar' baz`, and `"foo \"bar\" baz"` is `foo "bar" baz` |
| SectionPrint.EmptyBodyRoundTrip | src/config/parser.rs:158-169 | `{`, any white space, `}` is an empty plugin body, and the rest is left |
| SectionPrint.PluginRoundTrip | src/config/parser.rs:158-169 | a bare name, blanks, `{`, blanks, `}` is the plugin of that name, and the rest is left |
| SectionPrint.QuotedPluginRoundTrip | src/config/parser.rs:158-169 | a quoted name followed by `{}` is the plugin of that name |
| SectionPrint.StatementRoundTrip | src/config/parser.rs:151-156 | a printed plugin or branch is read back as itself when no `else` follows |
| SectionPrint.BodyRoundTrip | src/config/parser.rs:135-149 | the printed statements of a block are read back in order, stopping at the closing brace |
| SectionPrint.BlockRoundTrip | src/config/parser.rs:135-149 | a printed block is read back as its statements |
| SectionPrint.GuardedBlockRoundTrip | src/config/parser.rs:180-189 | a printed condition and block are read back as the case of that condition and block |
| SectionPrint.CaseIfRoundTrip | src/config/parser.rs:180-189 | `if`, a condition and a block are read back as that case |
| SectionPrint.CaseElseIfRoundTrip | src/config/parser.rs:191-198 | `else if`, a condition and a block are read back as that case |
| SectionPrint.CaseElseRoundTrip | src/config/parser.rs:200-207 | `else` and a block are read back as the case of the always-true condition and that block |
| SectionPrint.ElseIfsRoundTrip | src/config/parser.rs:171-178 | printed `else if` cases are read back in order, up to the first text that starts no further one |
| SectionPrint.OptionalElseRoundTrip | src/config/parser.rs:171-178 | a printed `else` case is read back; without one nothing is consumed |
| SectionPrint.ElseCasesRoundTrip | src/config/parser.rs:171-178 | what follows the `if` case of a printed branch is read back as its `else if` cases and its `else` case |
| SectionPrint.BranchRoundTrip | src/config/parser.rs:171-207 | a printed branch is read back as the `if` case, the `else if` cases in order and the `else` case last (src/config/ast.rs:42-52) |
| SectionPrint.IfElseIsTwoCases | src/config/ast.rs:42-52 | `if C { A } else { B }` is the branch of exactly the two cases `(C, A)` and `(true, B)` |
| SectionPrint.BranchBeforePlugin | src/config/parser.rs:151-156 | where a branch can be read it is the element, and a plugin is read only where no branch can be |
| SectionPrint.PluginTypeRoundTrip | src/config/parser.rs:127-133 | each section keyword is read back as its type |
| SectionPrint.PluginSectionRoundTrip | src/config/parser.rs:118-125 | a printed section is read back with its type and block |
| SectionPrint.SectionsRoundTripTo | src/config/parser.rs:110-116 | printed sections are read back in order, and reading stops where the trailing `blank0` leaves text that starts no section |
| SectionPrint.SectionsRoundTrip | src/config/parser.rs:110-116 | printed sections are read back in order |
| SectionPrint.ConfigRoundTrip | src/config/parser.rs:110-116 | a printed non-empty list of sections is read back as the configuration of those sections |
| SectionPrint.ParseRoundTrip | src/config/parser.rs:100-116 | `parse` returns exactly the tree of every printed configuration |
| ConfigExamples.StdinPlugin | src/config/parser.rs:520-529 | `stdin {}` is the plugin `stdin` with nothing left, as `test_plugin` expects |
| ConfigExamples.FilePlugin | src/config/parser.rs:520-529 | `file {` blank lines `}` is the plugin `file` with nothing left, as `test_plugin` expects |
| ConfigExamples.UnterminatedCommentAccepted | src/config/parser.rs:477-492 | a printed configuration followed by a `#` comment without a line feed parses to that configuration (see Left out) |
| ConfigExamples.CommentThenBlanksAccepted | src/config/parser.rs:477-492 | a printed configuration followed by a comment line and blanks is read whole and parses to that configuration (see Left out) |
| ConfigExamples.UnclosedSectionAccepted | src/config/parser.rs:135-149 | a printed configuration followed by a section whose block holds a plugin but lacks its `}` parses to that configuration (see Left out) |
| ConfigExamples.KeywordPrefixAccepted | src/config/parser.rs:127-133 | a printed configuration followed by the first letters of a section keyword parses to that configuration (see Left out) |
| Pipeline.InputSection.constructor | src/pipeline/input_section.rs:8-10 | a new input section holds no plugins |
| Pipeline.InputSection.AddPlugin | src/pipeline/input_section.rs:12-14 | the plugin is appended at the end, the earlier plugins stay in order, and the count grows by one |
| Visit.BlockHooks | src/config/visit.rs:60-67 | walking a block calls one hook per element, in order, all of the block's kind: the plugin hook for a plugin and the branch hook for a branch, without entering the branch (the intended dispatch; as written the source does not compile) |
| Visit.ConfigHooksAppend | src/config/visit.rs:46-50 | the hooks of a configuration are the hooks of its sections in order, each section once |
| Visit.SectionHooksOfItsKind | src/config/visit.rs:52-58 | a section is dispatched only to the hooks of its own kind |
| Compile.RunAppend | src/config/visit.rs:46-67 | running two hook sequences in turn is running their concatenation |
| Compile.RunBlock | src/config/compile.rs:13-23 | in an input section a block adds one error per branch or unknown plugin and one instance per known plugin, in order; in a filter or output section it changes nothing |
| Compile.CompiledReference | src/config/compile.rs:33-47 | compiling gives the errors and instances of the input-section elements, in order |
| Compile.EachInputAccountedFor | src/config/compile.rs:14-23 | every input-section element gives exactly one error or one instance; each error is one of the two diagnostics; each instance's name is known to the provider |
| Compile.FilterAndOutputChangeNothing | src/config/visit.rs:28-42 | a filter or output section does not change what compiling produces |
| Compile.Session.constructor | src/config/compile.rs:33-39 | a new session has no errors and an empty input section |
| Compile.Compiler.constructor | src/config/compile.rs:40-43 | the compiler holds the provider and the session, and has visited nothing |
| Compile.Compiler.VisitInputPlugin | src/config/compile.rs:14-19 | a known input plugin adds exactly one instance and no error; an unknown one adds exactly the error "Cannot create input plugin" and no instance |
| Compile.Compiler.VisitInputBranch | src/config/compile.rs:21-23 | an input branch adds exactly the error "Conditional inputs are forbidden" and instantiates nothing |
| Compile.Compiler.VisitDefault | src/config/visit.rs:28-42 | the filter and output hooks leave the session unchanged |
| Compile.Compiler.VisitElement | src/config/visit.rs:60-67 | an element goes to the hook of its kind, with that hook's effect |
| Compile.Compiler.WalkBlock | src/config/visit.rs:60-67 | walking a block calls the hooks of its elements in order, and the session is the result of those calls (the intended dispatch; as written the source does not compile) |
| Compile.Compiler.VisitInputBlock | src/config/visit.rs:8-10 | the input block hook walks the block with the input hooks (the intended dispatch; as written the source does not compile) |
| Compile.Compiler.VisitFilterBlock | src/config/visit.rs:12-14 | the filter block hook walks the block with the filter hooks (the intended dispatch; as written the source does not compile) |
| Compile.Compiler.VisitOutputBlock | src/config/visit.rs:16-18 | the output block hook walks the block with the output hooks (the intended dispatch; as written the source does not compile) |
| Compile.Compiler.WalkPluginSection | src/config/visit.rs:52-58 | a section is dispatched to the block hook of its kind |
| Compile.Compiler.VisitSection | src/config/visit.rs:4-6 | visiting a section walks it |
| Compile.Compiler.WalkConfig | src/config/visit.rs:46-50 | every section is visited once, in order, and the session is the result of all their hooks |
| Compile.Compile | src/config/compile.rs:33-47 | the returned session holds one error per input branch or unknown input plugin and one instance per known input plugin, in order |
| Compile.CompileSimpleExample | src/config/compile.rs:97-126 | with inputs `stdin` and `file` known, the test configuration compiles to no errors and the two inputs |
| Compile.KnownInputsExample | src/config/compile.rs:97-126 | the test's input block yields no errors and both inputs |
| RuleSpec.IdentSymbolClasses | src/rule.rs:404-408 | letters and `_` may stand anywhere in a field name, digits anywhere but first, and no other character anywhere |
| RuleSpec.RunEnd | src/rule.rs:278-294 | the end of the longest run of characters of a class starting at a position |
| RuleSpec.RunEndUnique | src/rule.rs:326-339 | a run followed by a character outside the class ends exactly there |
| RuleSpec.Closing | src/rule.rs:364-393 | finds the first delimiter not preceded by a backslash, or shows that there is none |
| RuleSpec.ScanUntil | src/rule.rs:364-393 | the text up to the first unescaped delimiter, and the position after it; `UnexpectedEndOfRule` when there is none |
| RuleSpec.ScanSymbol | src/rule.rs:345-355 | succeeds exactly when the next character is the symbol, and moves past it |
| RuleSpec.ScanWord | src/rule.rs:357-362 | succeeds exactly when the text continues with the word, and moves past it |
| RuleSpec.ScanBetween | src/rule.rs:395-402 | an opening symbol, then the text up to the closing symbol |
| RuleSpec.ScanDateTime | src/rule.rs:313-324 | `t[...]` after `d` gives a date-time token |
| RuleSpec.ScanFieldType | src/rule.rs:296-320 | after `:` come `int`, `uint`, `float` or `dt[...]`; the end of the rule is `UnexpectedEndOfRule`; any other first letter is `IllegalSymbol` |
| RuleSpec.ScanToken | src/rule.rs:256-276 | the next token and its position (one past its first character), or `EOF` at the current position exactly at the end of the rule |
| RuleSpec.FieldNameIsMaximal | src/rule.rs:278-294 | a field name starts with a letter or `_`, continues with letters, digits or `_`, and stops just before any other character |
| RuleSpec.BlanksAreOneToken | src/rule.rs:326-339 | a run of spaces and tabs is one blank token |
| RuleSpec.Separator | src/rule.rs:138-144 | before a field after the first, a comma is required; at the end of the rule the field list ends (corrected, see Findings) |
| RuleSpec.NameAt | src/rule.rs:146-149 | a field must start with a field name |
| RuleSpec.TypeAt | src/rule.rs:151-160 | after a name come a type, a comma or the end of the rule; a comma or the end gives the type `Str` |
| RuleSpec.FieldsFrom | src/rule.rs:138-169 | the field list after a position; an accepted list without a pending separator is non-empty (corrected, see Findings) |
| RuleSpec.NamedField | src/rule.rs:146-169 | an accepted field list starts with the named field |
| RuleSpec.ParseFields | src/rule.rs:130-173 | a blank must follow the pattern, and an accepted field list is non-empty (corrected, see Findings) |
| RuleSpec.Parse | src/rule.rs:109-128 | an accepted rule has a pattern whose capture count is the number of fields + 1; a mismatch is reported with both counts (corrected, see Findings) |
| RuleSpec.WithPattern | src/rule.rs:111-124 | the same, once the pattern has been scanned |
| Rule.RuleReader.constructor | src/rule.rs:419-427 | a new reader is at position 0 with an empty buffer |
| Rule.RuleReader.ReadChar | src/rule.rs:429-442 | returns the next character and advances by one; at the end returns nothing and stays |
| Rule.RuleReader.Unread | src/rule.rs:444-453 | steps back by one and fills the buffer; it needs a read character and an empty buffer |
| Rule.UnreadThenRead | src/rule.rs:429-453 | unreading and reading again returns the same character and restores the position |
| Rule.RuleScanner.constructor | src/rule.rs:249-254 | a new scanner reads the rule from position 0 |
| Rule.RuleScanner.Scan | src/rule.rs:256-276 | the scanner returns exactly the token and position of the specification, and the reader is after the token |
| Rule.RuleScanner.ScanFieldName | src/rule.rs:278-294 | reads the longest run of identifier characters and returns it as the name |
| Rule.RuleScanner.ScanFieldType | src/rule.rs:296-320 | computes the type token of the specification |
| Rule.RuleScanner.ScanTypeWord | src/rule.rs:298-312 | a type keyword is read after giving back its first letter |
| Rule.RuleScanner.ScanDtPattern | src/rule.rs:322-324 | the date-time pattern is the text between `[` and `]` |
| Rule.RuleScanner.ScanWhitespace | src/rule.rs:326-339 | reads the whole run of blanks and returns one blank token |
| Rule.RuleScanner.ScanRegex | src/rule.rs:341-343 | the pattern is the text up to the first unescaped `/` |
| Rule.RuleScanner.ScanSymbol | src/rule.rs:345-355 | computes the symbol check of the specification |
| Rule.RuleScanner.ScanWord | src/rule.rs:357-362 | computes the word check of the specification |
| Rule.RuleScanner.ScanUntil | src/rule.rs:364-393 | the loop computes the text up to the first unescaped delimiter |
| Rule.RuleScanner.ScanBetween | src/rule.rs:395-402 | computes the delimited text of the specification |
| Rule.RuleParser.constructor | src/rule.rs:105-107 | a new parser scans the rule from position 0 |
| Rule.RuleParser.Parse | src/rule.rs:109-128 | the parser returns exactly the rule or error of the specification (corrected, see Findings) |
| Rule.RuleParser.ParseFields | src/rule.rs:130-173 | the field loop returns exactly the field list or error of the specification (corrected, see Findings) |
| Rule.RuleParser.ParseField | src/rule.rs:138-169 | one loop iteration reads one field and says whether the list ends or which separator state follows (corrected, see Findings) |
| Rule.RuleParser.ExpectSeparator | src/rule.rs:139-144 | computes the separator check of the specification (corrected, see Findings) |
| Rule.RuleParser.ExpectName | src/rule.rs:146-149 | computes the field-name check of the specification |
| Rule.RuleParser.ExpectType | src/rule.rs:151-160 | computes the type check of the specification |
| RuleText.ScanUntilBody | src/rule.rs:364-393 | a body without an unescaped delimiter, followed by the delimiter, is scanned back as itself |
| RuleText.NameTokenRoundTrip | src/rule.rs:278-294 | a printed field name is scanned back as itself |
| RuleText.KeywordRoundTrip | src/rule.rs:296-320 | a printed `:int`, `:uint` or `:float` is scanned back as its type token |
| RuleText.DateTimeRoundTrip | src/rule.rs:313-324 | a printed `:dt[...]` is scanned back as its date-time token |
| RuleText.TypeRoundTrip | src/rule.rs:151-160 | a printed type reads back as that type |
| RuleText.CommaAfterName | src/rule.rs:151-160 | a comma after a name gives the type `Str` |
| RuleText.CommaThenField | src/rule.rs:139-144 | a pending separator that is a comma is consumed |
| RuleText.FieldsRoundTrip | src/rule.rs:130-173 | the printed field list reads back as the fields |
| RuleText.FieldRoundTrip | src/rule.rs:138-169 | a printed field followed by the rest of a list reads back as that field and the rest |
| RuleText.UntypedFieldRoundTrip | src/rule.rs:151-169 | an untyped field followed by a comma or the end reads as a `Str` field |
| RuleText.TypedFieldRoundTrip | src/rule.rs:151-169 | the written type of a field is read back as its token, so the field completes as it does after that token |
| RuleText.RuleRoundTrip | src/rule.rs:109-173 | a printed well-formed rule whose pattern has the right capture count parses back to the same rule (corrected, see Findings) |
| RuleFindings.SeparatorAsWritten | src/rule.rs:139-144 | as written, when a separator is pending, only a comma is accepted, so the end of the rule is an unexpected `EOF` |
| RuleFindings.AsWrittenEndsUntyped | src/rule.rs:138-169 | as written, every accepted field list ends with an untyped field |
| RuleFindings.CorrectedExtendsAsWritten | src/rule.rs:138-169 | every field list accepted as written is accepted by the corrected loop with the same fields |
| RuleFindings.TypedLastField | src/rule.rs:130-173 | `/(\d+)/ n:int` is rejected as written with `EOF` at 13, and gives the one integer field `n` when corrected |
| RuleExamples.UnclosedPattern | src/rule.rs:484-501 | `/` alone is `UnexpectedEndOfRule` |
| RuleExamples.EmptyPattern | src/rule.rs:484-501 | `//` is the empty pattern at position 1 |
| RuleExamples.PlainPattern | src/rule.rs:484-501 | `/hello/` is the pattern `hello` at position 1 |
| RuleExamples.EscapedSlashPattern | src/rule.rs:484-501 | `/\d+ \/foo /` is the pattern `\d+ \/foo ` at position 1 |
| RuleExamples.OnlyBlanks | src/rule.rs:503-520 | a rule of only blanks is one blank token at 1, then `EOF` at its length |
| RuleExamples.BlankRules | src/rule.rs:503-512 | the six blank rules of the test scan as one blank token, then `EOF` |
| RuleExamples.BlankThenName | src/rule.rs:514-519 | ` field_name` is a blank at 1, then the name at 2 |
| RuleExamples.NameBeforeStop | src/rule.rs:522-530 | a name followed by nothing, a comma, a blank or a colon is scanned alone |
| RuleExamples.NameRules | src/rule.rs:522-530 | the seven names of the test are scanned alone at position 1 |
| RuleExamples.DateTimeField | src/rule.rs:532-537 | `time:dt[%H:%m:%s]` is the name `time` at 1, then the date-time type `%H:%m:%s` at 5 |
| RuleExamples.TwoFieldRule | src/rule.rs:459-470 | `/(\d+)\s(\w)/ time:uint,url` parses to the pattern and the fields `time: UInt`, `url: Str` |
| RuleExamples.RuleWithoutFields | src/rule.rs:472-482 | `/some_re/ ` fails with an unexpected `EOF` at position 10 |

## Left out

- Floating-point values: `parse_f64` (src/config/parser.rs:388-403) is not modelled. A number is its sign, integer digits and fraction digits, and the truth condition is the numeral `1`.
- ConfigParser.Parse and ConfigParser.ConfigRule: nom's streaming "incomplete" outcome is not modelled. Every failed rule is `None`, and `config` keeps the sections read so far. The source fails the whole parse with "Config parsing failed" when a rule runs out of text before it can decide, and `blank0`, `many1!` and `config` pass that on (src/config/parser.rs:110-116, 492). So the model accepts, with the sections before them, four endings that the source rejects:
  - a last `#` comment without a line feed, e.g. `input { }` then `# end`: `take_until!("\n")` is incomplete (src/config/parser.rs:483-486; ConfigExamples.UnterminatedCommentAccepted);
  - a comment line followed by blanks, e.g. `input { }\n# end\n\n`: after the blanks, `tag!("#")` is incomplete (src/config/parser.rs:485; ConfigExamples.CommentThenBlanksAccepted);
  - a last section cut short, e.g. `input {}\noutput { stdout {}`: `tag!("}")` is incomplete (src/config/parser.rs:146; ConfigExamples.UnclosedSectionAccepted);
  - the start of a section keyword, e.g. `input {}\nin`: `tag!("input")` is incomplete (src/config/parser.rs:129; ConfigExamples.KeywordPrefixAccepted).
- ConfigParser.ConfigRule: for the same reason it returns the sections read before such an ending instead of failing, and its "fails exactly when no section can be read" holds only for the model.
- Character classes are ASCII, as nom's `alphanumeric` and `multispace` are on bytes. The configuration is a `string` of characters, not bytes, and UTF-8 decoding is not modelled.
- Rule positions are counted in characters. The source counts positions in characters but slices the rule by byte offsets, so a non-ASCII character before a slice point panics or mis-slices (for example `/é/`). The model does not capture this.
- Rule errors: `UnexpectedToken` holds the token itself rather than its debug text, and `Display` for errors and tokens (src/rule.rs:40-55, 214-227) is not modelled. `From` conversions between error kinds are the constructor `ScanFailed`.
- The regular-expression compiler is the parameter `regex`. A rule keeps its pattern text rather than a compiled expression.
- `BoolExpr::not` and the `From` conversions of the AST (src/config/ast.rs:75-99) are the datatype constructors `Negative`, `Leaf` and `Rvalue` themselves. `Ast.Truth` is a constant, so it has no contract of its own; the `else` cases are proved to carry it.
- The printers write one canonical spacing, single quotes, and plugin names quoted (so that a name such as `if-1` cannot be read as a branch). Bare plugin names with any blanks are covered by `SectionPrint.PluginRoundTrip`, and double-quoted strings by the lexer lemmas; comments are not covered by the round trips.
- `Session` keeps only the errors and the input section. The filter and output sections are empty placeholders in the source, and no hook fills them.
- The plugin provider is the set of input names it can build (as the test factory at src/config/compile.rs:58-95 does). `InputPlugin` is a value holding its name.
- `InputSection.Count` is the number of plugins. The method `count` that the compiler test calls is not in src/pipeline/input_section.rs.
- Running the pipeline, worker threads and plugin lifecycles are not modelled (src/pipeline/pipeline.rs, src/pipeline/mod.rs, src/runner.rs).
- Command-line handling and I/O are not part of this model: src/main.rs, src/echelon0.rs, src/bin/echelon0.rs, src/input.rs, src/reader.rs.
- src/parser.rs and src/parser/mod.rs (typed-value extraction with `str::parse` and date parsing) are not part of this model. Neither is src/config/parse.rs, an older duplicate of the string and comment rules.
- The plugin stubs src/plugin/input.rs and src/plugin/factory.rs, the stub src/config/compiler.rs, and the glue files src/lib.rs, src/plugin/mod.rs and src/macros.rs are not modelled. The `err!` macro is an early return of the error.

## Findings

| source | as written | input that shows it | evidently intended | confidence | as-written member | corrected member |
|---|---|---|---|---|---|---|
| src/rule.rs:138-169 | after a typed field the loop requires a comma before the next field, so the end of the rule is reported as an unexpected `EOF`; only a rule whose last field is untyped is accepted | `/(\d+)/ n:int` gives `UnexpectedToken(EOF, 13)` | the end of the rule after a typed field ends the field list, giving `[n: Int]` | not executed | RuleFindings.TypedLastField | RuleSpec.Separator |
