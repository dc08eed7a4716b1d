/**
 * The rule language `/regex/ name:type,name,...` as functions of the rule text:
 * the tokens the scanner produces from each position, and what the parser
 * makes of them.
 *
 * Positions count characters. The position of a token is that of its first
 * character counted from 1 (the reader's position just after reading it); the
 * position of `EOF` is the length of the rule.
 */
module RuleSpec {
  import opened Wrappers

  datatype Token =
    | Regex(pattern: string)
    | FieldName(name: string)
    | TypeInt
    | TypeUInt
    | TypeFloat
    | TypeDateTime(format: string)
    | Comma
    | WS
    | EOF

  datatype ScanError =
    | IllegalSymbol(pos: nat, symbol: char, token: string)
    | UnexpectedEndOfRule

  datatype FieldType = Int | UInt | Float | DateTime(format: string) | Str

  datatype Field = Field(typ: FieldType, name: string)

  datatype Error =
    | UnexpectedToken(token: Token, pos: nat)
    | ScanFailed(cause: ScanError)
    | BadRegex(message: string)
    | CapturesFieldsMismatch(capturesCount: nat, fieldsCount: nat)

  /** A parsed rule: the regular expression as written and the fields its groups fill. */
  datatype ParseRule = ParseRule(re: string, fields: seq<Field>)

  /** A token, the position of its first character (from 1) and the position after it. */
  datatype Scanned = Scanned(token: Token, pos: nat, next: nat)

  // ------------------------------------------------------ character classes

  predicate IsBlank(c: char) { c == ' ' || c == '\t' }

  /** Letters and `_` may start a field name; digits may follow. */
  predicate IsIdentSymbol(c: char, isFirst: bool)
  {
    var isAlpha := ('a' <= c <= 'z') || ('A' <= c <= 'Z');
    var canBeFirst := isAlpha || c == '_';
    canBeFirst || (!isFirst && '0' <= c <= '9')
  }

  predicate IsIdentTail(c: char) { IsIdentSymbol(c, false) }

  /** Letters and `_` may stand anywhere in a name, digits only after its first character, nothing else at all. */
  lemma IdentSymbolClasses(c: char)
    ensures '0' <= c <= '9' ==> !IsIdentSymbol(c, true) && IsIdentSymbol(c, false)
    ensures ('a' <= c <= 'z') || ('A' <= c <= 'Z') || c == '_' ==> IsIdentSymbol(c, true) && IsIdentSymbol(c, false)
    ensures IsIdentSymbol(c, false) ==> ('a' <= c <= 'z') || ('A' <= c <= 'Z') || c == '_' || '0' <= c <= '9'
  {
  }

  // --------------------------------------------------------------- scanning

  /** The end of the longest run of characters satisfying `f` that starts at `p`. */
  function RunEnd(text: string, p: nat, f: char -> bool): (q: nat)
    requires p <= |text|
    ensures p <= q <= |text|
    ensures forall j | p <= j < q :: f(text[j])
    ensures q == |text| || !f(text[q])
    decreases |text| - p
  {
    if p == |text| || !f(text[p]) then p else RunEnd(text, p + 1, f)
  }

  /** The end of a run is the first position from `p` on that does not continue it. */
  lemma {:induction false} RunEndUnique(text: string, p: nat, q: nat, f: char -> bool)
    requires p <= q <= |text|
    requires forall j | p <= j < q :: f(text[j])
    requires q == |text| || !f(text[q])
    ensures q == RunEnd(text, p, f)
  {
  }

  /** `text[j]` closes a token opened just before `start`: it is `symbol`, not preceded by a backslash of the token. */
  predicate Closes(text: string, start: nat, j: nat, symbol: char)
    requires start <= j < |text|
  {
    text[j] == symbol && (j == start || text[j - 1] != '\\')
  }

  /** The first closing position at or after `k`. */
  function Closing(text: string, start: nat, k: nat, symbol: char): (r: Option<nat>)
    requires start <= k <= |text|
    ensures r.Some? ==> k <= r.value < |text| && Closes(text, start, r.value, symbol)
    ensures r.Some? ==> forall j | k <= j < r.value :: !Closes(text, start, j, symbol)
    ensures r.None? ==> forall j | k <= j < |text| :: !Closes(text, start, j, symbol)
    decreases |text| - k
  {
    if k == |text| then None
    else if Closes(text, start, k, symbol) then Some(k)
    else Closing(text, start, k + 1, symbol)
  }

  /**
   * The text from `p` up to the first `symbol` not preceded by a backslash,
   * and the position after that symbol; an unterminated token is an error.
   */
  function ScanUntil(text: string, p: nat, symbol: char): (r: Result<(string, nat), ScanError>)
    requires p <= |text|
    ensures r.Err? ==> r.error == UnexpectedEndOfRule && forall j | p <= j < |text| :: !Closes(text, p, j, symbol)
    ensures r.Ok? ==> p < r.value.1 <= |text| && r.value.0 == text[p..r.value.1 - 1]
    ensures r.Ok? ==> Closes(text, p, r.value.1 - 1, symbol)
    ensures r.Ok? ==> forall j | p <= j < r.value.1 - 1 :: !Closes(text, p, j, symbol)
  {
    match Closing(text, p, p, symbol)
    case None => Err(UnexpectedEndOfRule)
    case Some(k) => Ok((text[p..k], k + 1))
  }

  /** One expected character. */
  function ScanSymbol(text: string, p: nat, symbol: char, token: string): (r: Result<nat, ScanError>)
    requires p <= |text|
    ensures r.Ok? <==> p < |text| && text[p] == symbol
    ensures r.Ok? ==> r.value == p + 1
  {
    if p == |text| then Err(UnexpectedEndOfRule)
    else if text[p] != symbol then Err(IllegalSymbol(p + 1, text[p], token))
    else Ok(p + 1)
  }

  /** The characters `word[i..]`, one by one, from `p + i`. */
  function ScanWord(text: string, p: nat, word: string, i: nat): (r: Result<nat, ScanError>)
    requires i <= |word| && p + i <= |text|
    ensures r.Ok? <==> p + |word| <= |text| && text[p + i..p + |word|] == word[i..]
    ensures r.Ok? ==> r.value == p + |word|
    decreases |word| - i
  {
    if i == |word| then Ok(p + i)
    else
      match ScanSymbol(text, p + i, word[i], word)
      case Err(e) => Err(e)
      case Ok(_) =>
        var r := ScanWord(text, p, word, i + 1);
        assert p + |word| <= |text| ==> text[p + i..p + |word|] == [text[p + i]] + text[p + i + 1..p + |word|];
        assert word[i..] == [word[i]] + word[i + 1..];
        r
  }

  /** A delimited token: the opening character, then the text up to the closing one. */
  function ScanBetween(text: string, p: nat, open: char, close: char, token: string): (r: Result<(string, nat), ScanError>)
    requires p <= |text|
    ensures r.Ok? ==> p + 2 <= r.value.1 <= |text| && text[p] == open && r.value.0 == text[p + 1..r.value.1 - 1]
  {
    match ScanSymbol(text, p, open, token)
    case Err(e) => Err(e)
    case Ok(q) => ScanUntil(text, q, close)
  }

  /** `:dt[pattern]`, from the character after `d`. */
  function ScanDateTime(text: string, p: nat): (r: Result<(Token, nat), ScanError>)
    requires p <= |text|
    ensures r.Ok? ==> r.value.0.TypeDateTime? && p + 3 <= r.value.1 <= |text|
  {
    match ScanSymbol(text, p, 't', "datetime")
    case Err(e) => Err(e)
    case Ok(q) =>
      match ScanBetween(text, q, '[', ']', "datetime pattern")
      case Err(e) => Err(e)
      case Ok((format, next)) => Ok((TypeDateTime(format), next))
  }

  /** A field type, from the character after `:`. */
  function ScanFieldType(text: string, p: nat): (r: Result<(Token, nat), ScanError>)
    requires p <= |text|
    ensures p == |text| ==> r == Err(UnexpectedEndOfRule)
    ensures r.Ok? ==> p < r.value.1 <= |text|
    ensures r.Ok? ==> r.value.0 in {TypeInt, TypeUInt, TypeFloat} || r.value.0.TypeDateTime?
    ensures p < |text| && text[p] !in "iufd" ==> r == Err(IllegalSymbol(p + 1, text[p], "FieldType"))
  {
    if p == |text| then Err(UnexpectedEndOfRule)
    else if text[p] == 'i' then Typed(ScanWord(text, p, "int", 0), TypeInt)
    else if text[p] == 'u' then Typed(ScanWord(text, p, "uint", 0), TypeUInt)
    else if text[p] == 'f' then Typed(ScanWord(text, p, "float", 0), TypeFloat)
    else if text[p] == 'd' then ScanDateTime(text, p + 1)
    else Err(IllegalSymbol(p + 1, text[p], "FieldType"))
  }

  function Typed(r: Result<nat, ScanError>, token: Token): Result<(Token, nat), ScanError>
  {
    match r
    case Err(e) => Err(e)
    case Ok(q) => Ok((token, q))
  }

  /** The token that starts at position `p`. */
  function ScanToken(text: string, p: nat): (r: Result<Scanned, ScanError>)
    requires p <= |text|
    ensures r.Ok? ==> r.value.next <= |text|
    ensures r.Ok? ==> (r.value.token == EOF <==> p == |text|)
    ensures p == |text| ==> r == Ok(Scanned(EOF, p, p))
    ensures r.Ok? && r.value.token != EOF ==> r.value.pos == p + 1 && p < r.value.next
  {
    if p == |text| then Ok(Scanned(EOF, p, p))
    else
      var ch0 := text[p];
      if ch0 == '/' then
        match ScanUntil(text, p + 1, '/')
        case Err(e) => Err(e)
        case Ok((re, q)) => Ok(Scanned(Regex(re), p + 1, q))
      else if IsBlank(ch0) then Ok(Scanned(WS, p + 1, RunEnd(text, p + 1, IsBlank)))
      else if ch0 == ':' then
        match ScanFieldType(text, p + 1)
        case Err(e) => Err(e)
        case Ok((t, q)) => Ok(Scanned(t, p + 1, q))
      else if ch0 == ',' then Ok(Scanned(Comma, p + 1, p + 1))
      else if !IsIdentSymbol(ch0, true) then Err(IllegalSymbol(p + 1, ch0, "FieldName"))
      else
        var q := RunEnd(text, p + 1, IsIdentTail);
        Ok(Scanned(FieldName(text[p..q]), p + 1, q))
  }

  /** A name token is a maximal identifier. */
  lemma FieldNameIsMaximal(text: string, p: nat)
    requires p <= |text| && ScanToken(text, p).Ok? && ScanToken(text, p).value.token.FieldName?
    ensures var s := ScanToken(text, p).value;
      && s.token.name == text[p..s.next]
      && s.token.name != [] && IsIdentSymbol(s.token.name[0], true)
      && (forall j | 0 <= j < |s.token.name| :: IsIdentTail(s.token.name[j]))
      && (s.next == |text| || !IsIdentTail(text[s.next]))
  {
  }

  /** A blank token spans the whole run of spaces and tabs, which the next token does not start with. */
  lemma BlanksAreOneToken(text: string, p: nat)
    requires p < |text| && IsBlank(text[p])
    ensures var s := ScanToken(text, p);
      && s == Ok(Scanned(WS, p + 1, s.value.next))
      && (forall j | p <= j < s.value.next :: IsBlank(text[j]))
      && (s.value.next == |text| || !IsBlank(text[s.value.next]))
  {
  }

  // ---------------------------------------------------------------- parsing

  /** The type a field gets from the token after its name: a comma or the end leave it a string. */
  function TypeOf(token: Token): Option<FieldType>
  {
    match token
    case TypeInt => Some(Int)
    case TypeUInt => Some(UInt)
    case TypeFloat => Some(Float)
    case TypeDateTime(format) => Some(DateTime(format))
    case Comma => Some(Str)
    case EOF => Some(Str)
    case _ => None
  }

  /**
   * What comes before the next field: nothing when no separator is expected;
   * otherwise a comma, or the end of the rule, after which there are no more
   * fields (`None`).
   */
  function Separator(text: string, p: nat, expectSep: bool): (r: Result<Option<nat>, Error>)
    requires p <= |text|
    ensures r.Err? ==> r.error.ScanFailed? || r.error.UnexpectedToken?
    ensures r.Ok? && r.value.Some? ==> p <= r.value.value <= |text|
    ensures !expectSep ==> r == Ok(Some(p))
    ensures expectSep && p == |text| ==> r == Ok(None)
  {
    if !expectSep then Ok(Some(p))
    else
      match ScanToken(text, p)
      case Err(e) => Err(ScanFailed(e))
      case Ok(Scanned(Comma, _, q)) => Ok(Some(q))
      case Ok(Scanned(EOF, _, _)) => Ok(None)
      case Ok(Scanned(t, pos, _)) => Err(UnexpectedToken(t, pos))
  }

  /** A field name. */
  function NameAt(text: string, p: nat): (r: Result<(string, nat), Error>)
    requires p <= |text|
    ensures r.Err? ==> r.error.ScanFailed? || r.error.UnexpectedToken?
    ensures r.Ok? ==> p < r.value.1 <= |text|
  {
    match ScanToken(text, p)
    case Err(e) => Err(ScanFailed(e))
    case Ok(Scanned(FieldName(name), _, q)) => Ok((name, q))
    case Ok(Scanned(t, pos, _)) => Err(UnexpectedToken(t, pos))
  }

  /** The token after a field name: a type, a comma or the end. */
  function TypeAt(text: string, p: nat): (r: Result<(FieldType, Token, nat), Error>)
    requires p <= |text|
    ensures r.Err? ==> r.error.ScanFailed? || r.error.UnexpectedToken?
    ensures r.Ok? ==> p <= r.value.2 <= |text| && TypeOf(r.value.1) == Some(r.value.0)
  {
    match ScanToken(text, p)
    case Err(e) => Err(ScanFailed(e))
    case Ok(Scanned(t, pos, q)) =>
      match TypeOf(t)
      case None => Err(UnexpectedToken(t, pos))
      case Some(typ) => Ok((typ, t, q))
  }

  /**
   * Comma-separated fields from `p` to the end of the rule; each name may carry
   * a type, and a typed field is followed by a comma or the end of the rule.
   */
  function FieldsFrom(text: string, p: nat, expectSep: bool): (r: Result<seq<Field>, Error>)
    requires p <= |text|
    ensures r.Err? ==> r.error.ScanFailed? || r.error.UnexpectedToken?
    ensures r.Ok? && !expectSep ==> r.value != []
    decreases |text| - p, 0
  {
    match Separator(text, p, expectSep)
    case Err(e) => Err(e)
    case Ok(None) => Ok([])
    case Ok(Some(p1)) =>
      match NameAt(text, p1)
      case Err(e) => Err(e)
      case Ok((name, p2)) => NamedField(text, name, TypeAt(text, p2))
  }

  /** The field called `name`, given what follows its name, and the fields after it. */
  function NamedField(text: string, name: string, typed: Result<(FieldType, Token, nat), Error>): (r: Result<seq<Field>, Error>)
    requires typed.Ok? ==> typed.value.2 <= |text|
    requires typed.Err? ==> typed.error.ScanFailed? || typed.error.UnexpectedToken?
    ensures r.Err? ==> r.error.ScanFailed? || r.error.UnexpectedToken?
    ensures r.Ok? ==> r.value != [] && r.value[0].name == name
    decreases if typed.Ok? then |text| - typed.value.2 else 0, 1
  {
    match typed
    case Err(e) => Err(e)
    case Ok((typ, token, q)) =>
      if token == EOF then Ok([Field(typ, name)])
      else
        match FieldsFrom(text, q, token != Comma)
        case Err(e) => Err(e)
        case Ok(fields) => Ok([Field(typ, name)] + fields)
  }

  /** A blank, then the fields. */
  function ParseFields(text: string, p: nat): (r: Result<seq<Field>, Error>)
    requires p <= |text|
    ensures r.Err? ==> r.error.ScanFailed? || r.error.UnexpectedToken?
    ensures r.Ok? ==> r.value != []
  {
    match ScanToken(text, p)
    case Err(e) => Err(ScanFailed(e))
    case Ok(Scanned(WS, _, q)) => FieldsFrom(text, q, false)
    case Ok(Scanned(t, pos, _)) => Err(UnexpectedToken(t, pos))
  }

  /**
   * A rule: the regular expression, then its fields; `regex` stands for the
   * regular-expression compiler and gives the number of capture groups of a
   * pattern, the whole match included, or the compiler's error.
   */
  function Parse(text: string, regex: string -> Result<nat, string>): (r: Result<ParseRule, Error>)
    ensures r.Ok? ==> regex(r.value.re) == Ok(|r.value.fields| + 1) && r.value.fields != []
    ensures r.Err? && r.error.CapturesFieldsMismatch? ==> r.error.capturesCount != r.error.fieldsCount + 1
  {
    match ScanToken(text, 0)
    case Err(e) => Err(ScanFailed(e))
    case Ok(Scanned(Regex(re), _, q)) => WithPattern(text, re, q, regex)
    case Ok(Scanned(t, pos, _)) => Err(UnexpectedToken(t, pos))
  }

  /** The rest of a rule whose pattern `re` ends before `q`: the pattern is compiled before the fields are read. */
  function WithPattern(text: string, re: string, q: nat, regex: string -> Result<nat, string>): (r: Result<ParseRule, Error>)
    requires q <= |text|
    ensures r.Ok? ==> regex(r.value.re) == Ok(|r.value.fields| + 1) && r.value.fields != []
    ensures r.Err? && r.error.CapturesFieldsMismatch? ==> r.error.capturesCount != r.error.fieldsCount + 1
  {
    match regex(re)
    case Err(message) => Err(BadRegex(message))
    case Ok(captures) =>
      match ParseFields(text, q)
      case Err(e) => Err(e)
      case Ok(fields) =>
        if captures != |fields| + 1 then Err(CapturesFieldsMismatch(captures, |fields|))
        else Ok(ParseRule(re, fields))
  }
}
