/**
 * The rule reader, scanner and parser as the stateful objects they are: a
 * reader over the characters of a rule with a one-character unread buffer, a
 * scanner that draws tokens from it, and a parser that draws tokens from the
 * scanner. Each method is proved to compute the function of `RuleSpec` for
 * the reader's position when it is called.
 */
module Rule {
  import opened Wrappers
  import opened RuleSpec

  /**
   * Reads the characters of a rule one by one and can give back the last one.
   * `taken` counts the characters drawn from the underlying character iterator;
   * `pos` is the number of characters read and not given back.
   */
  class RuleReader {
    const rule: string
    var taken: nat
    var pos: nat
    var cur: char
    var buffered: bool

    ghost predicate Valid()
      reads this
    {
      && taken <= |rule|
      && (buffered ==> 0 < taken && pos == taken - 1)
      && (!buffered ==> pos == taken)
      && (0 < taken ==> cur == rule[taken - 1])
    }

    constructor (rule: string)
      ensures Valid() && this.rule == rule && pos == 0 && !buffered
    {
      this.rule := rule;
      taken := 0;
      pos := 0;
      cur := ' ';
      buffered := false;
    }

    /** The character at `pos`, and one step on; at the end of the rule, nothing and no step. */
    method ReadChar() returns (c: Option<char>)
      requires Valid()
      modifies this
      ensures Valid() && !buffered
      ensures old(pos) < |rule| ==> c == Some(rule[old(pos)]) && pos == old(pos) + 1
      ensures old(pos) == |rule| ==> c == None && pos == old(pos)
    {
      if buffered {
        buffered := false;
        pos := pos + 1;
        return Some(cur);
      }
      if taken == |rule| {
        return None;
      }
      cur := rule[taken];
      taken := taken + 1;
      pos := pos + 1;
      c := Some(cur);
    }

    /**
     * One step back, so that the next read gives the last character again.
     * Unreading twice in a row, or before any read, is a programming error.
     */
    method Unread()
      requires Valid() && !buffered && 0 < pos
      modifies this
      ensures Valid() && buffered && pos == old(pos) - 1
    {
      pos := pos - 1;
      buffered := true;
    }
  }

  /** Giving back the last character and reading again yields that same character at the same position. */
  method UnreadThenRead(reader: RuleReader) returns (c: Option<char>)
    requires reader.Valid() && !reader.buffered && 0 < reader.pos
    modifies reader
    ensures reader.Valid() && !reader.buffered && reader.pos == old(reader.pos)
    ensures c == Some(reader.rule[reader.pos - 1])
  {
    reader.Unread();
    c := reader.ReadChar();
  }

  /** Reads the tokens of a rule one by one. */
  class RuleScanner {
    const rule: string
    const reader: RuleReader

    ghost predicate Valid()
      reads this, reader
    {
      reader.rule == rule && reader.Valid()
    }

    constructor (rule: string)
      ensures Valid() && this.rule == rule && reader.pos == 0 && fresh(reader)
    {
      this.rule := rule;
      reader := new RuleReader(rule);
    }

    /** The next token and its position. */
    method Scan() returns (r: Result<(Token, nat), ScanError>)
      requires Valid()
      modifies reader
      ensures Valid()
      ensures var s := ScanToken(rule, old(reader.pos));
        && (s.Err? ==> r == Err(s.error))
        && (s.Ok? ==> r == Ok((s.value.token, s.value.pos)) && reader.pos == s.value.next)
    {
      var ch0 := reader.ReadChar();
      if ch0.None? {
        return Ok((EOF, reader.pos));
      }
      var pos := reader.pos;
      var c := ch0.value;
      var token: Token;
      if c == '/' {
        var re := ScanRegex();
        if re.Err? {
          return Err(re.error);
        }
        token := re.value;
      } else if c == ' ' || c == '\t' {
        token := ScanWhitespace();
      } else if c == ':' {
        var t := ScanFieldType();
        if t.Err? {
          return Err(t.error);
        }
        token := t.value;
      } else if c == ',' {
        token := Comma;
      } else {
        if !IsIdentSymbol(c, true) {
          return Err(IllegalSymbol(reader.pos, c, "FieldName"));
        }
        token := ScanFieldName();
      }
      return Ok((token, pos));
    }

    /** The longest identifier whose first character has just been read. */
    method ScanFieldName() returns (token: Token)
      requires Valid() && 0 < reader.pos
      modifies reader
      ensures Valid()
      ensures reader.pos == RunEnd(rule, old(reader.pos), IsIdentTail)
      ensures token == FieldName(rule[old(reader.pos) - 1..reader.pos])
    {
      var startPos := reader.pos - 1;
      ghost var p := reader.pos;
      while true
        invariant Valid() && p <= reader.pos <= |rule|
        invariant forall j | p <= j < reader.pos :: IsIdentTail(rule[j])
        decreases |rule| - reader.pos
      {
        var ch := reader.ReadChar();
        if ch.Some? {
          if !IsIdentSymbol(ch.value, false) {
            reader.Unread();
            break;
          }
        } else {
          break;
        }
      }
      var endPos := reader.pos;
      RunEndUnique(rule, p, endPos, IsIdentTail);
      token := FieldName(rule[startPos..endPos]);
    }

    /** A field type, after the `:` that has just been read. */
    method ScanFieldType() returns (r: Result<Token, ScanError>)
      requires Valid()
      modifies reader
      ensures Valid()
      ensures var s := RuleSpec.ScanFieldType(rule, old(reader.pos));
        && (s.Err? ==> r == Err(s.error))
        && (s.Ok? ==> r == Ok(s.value.0) && reader.pos == s.value.1)
    {
      var ch := reader.ReadChar();
      if ch.None? {
        return Err(UnexpectedEndOfRule);
      }
      var c := ch.value;
      if c == 'i' {
        assert RuleSpec.ScanFieldType(rule, old(reader.pos)) == Typed(RuleSpec.ScanWord(rule, old(reader.pos), "int", 0), TypeInt);
        r := ScanTypeWord("int", TypeInt);
      } else if c == 'u' {
        assert RuleSpec.ScanFieldType(rule, old(reader.pos)) == Typed(RuleSpec.ScanWord(rule, old(reader.pos), "uint", 0), TypeUInt);
        r := ScanTypeWord("uint", TypeUInt);
      } else if c == 'f' {
        assert RuleSpec.ScanFieldType(rule, old(reader.pos)) == Typed(RuleSpec.ScanWord(rule, old(reader.pos), "float", 0), TypeFloat);
        r := ScanTypeWord("float", TypeFloat);
      } else if c == 'd' {
        var t := ScanSymbol('t', "datetime");
        if t.Err? {
          return Err(t.error);
        }
        r := ScanDtPattern();
      } else {
        return Err(IllegalSymbol(reader.pos, c, "FieldType"));
      }
    }

    /** A type keyword whose first character has just been read, read again from that character. */
    method ScanTypeWord(word: string, token: Token) returns (r: Result<Token, ScanError>)
      requires Valid() && !reader.buffered && 0 < reader.pos
      modifies reader
      ensures Valid()
      ensures var s := Typed(RuleSpec.ScanWord(rule, old(reader.pos) - 1, word, 0), token);
        && (s.Err? ==> r == Err(s.error))
        && (s.Ok? ==> r == Ok(s.value.0) && reader.pos == s.value.1)
    {
      reader.Unread();
      var w := ScanWord(word);
      return if w.Err? then Err(w.error) else Ok(token);
    }

    /** `[pattern]`, after `:dt`. */
    method ScanDtPattern() returns (r: Result<Token, ScanError>)
      requires Valid()
      modifies reader
      ensures Valid()
      ensures var s := RuleSpec.ScanBetween(rule, old(reader.pos), '[', ']', "datetime pattern");
        && (s.Err? ==> r == Err(s.error))
        && (s.Ok? ==> r == Ok(TypeDateTime(s.value.0)) && reader.pos == s.value.1)
    {
      var format := ScanBetween('[', ']', "datetime pattern");
      if format.Err? {
        return Err(format.error);
      }
      return Ok(TypeDateTime(format.value));
    }

    /** The rest of a run of spaces and tabs whose first one has just been read. */
    method ScanWhitespace() returns (token: Token)
      requires Valid()
      modifies reader
      ensures Valid()
      ensures token == WS && reader.pos == RunEnd(rule, old(reader.pos), IsBlank)
    {
      ghost var p := reader.pos;
      while true
        invariant Valid() && p <= reader.pos <= |rule|
        invariant forall j | p <= j < reader.pos :: IsBlank(rule[j])
        decreases |rule| - reader.pos
      {
        var ch := reader.ReadChar();
        if ch == Some(' ') || ch == Some('\t') {
          continue;
        } else if ch.None? {
          break;
        } else {
          reader.Unread();
          break;
        }
      }
      RunEndUnique(rule, p, reader.pos, IsBlank);
      return WS;
    }

    /** A regular expression, after the `/` that has just been read. */
    method ScanRegex() returns (r: Result<Token, ScanError>)
      requires Valid()
      modifies reader
      ensures Valid()
      ensures var s := RuleSpec.ScanUntil(rule, old(reader.pos), '/');
        && (s.Err? ==> r == Err(s.error))
        && (s.Ok? ==> r == Ok(Regex(s.value.0)) && reader.pos == s.value.1)
    {
      var re := ScanUntil('/');
      if re.Err? {
        return Err(re.error);
      }
      return Ok(Regex(re.value));
    }

    /** One expected character. */
    method ScanSymbol(symbol: char, token: string) returns (r: Result<(), ScanError>)
      requires Valid()
      modifies reader
      ensures Valid()
      ensures var s := RuleSpec.ScanSymbol(rule, old(reader.pos), symbol, token);
        && (s.Err? ==> r == Err(s.error))
        && (s.Ok? ==> r.Ok? && reader.pos == s.value)
    {
      var ch := reader.ReadChar();
      if ch.None? {
        return Err(UnexpectedEndOfRule);
      }
      if ch.value != symbol {
        return Err(IllegalSymbol(reader.pos, ch.value, token));
      }
      return Ok(());
    }

    /** The characters of `word`, one by one. */
    method ScanWord(word: string) returns (r: Result<(), ScanError>)
      requires Valid()
      modifies reader
      ensures Valid()
      ensures var s := RuleSpec.ScanWord(rule, old(reader.pos), word, 0);
        && (s.Err? ==> r == Err(s.error))
        && (s.Ok? ==> r.Ok? && reader.pos == s.value)
    {
      ghost var p := reader.pos;
      for i := 0 to |word|
        invariant Valid() && reader.pos == p + i
        invariant RuleSpec.ScanWord(rule, p, word, 0) == RuleSpec.ScanWord(rule, p, word, i)
      {
        var s := ScanSymbol(word[i], word);
        if s.Err? {
          return Err(s.error);
        }
      }
      return Ok(());
    }

    /**
     * The text up to the first `symbol` not preceded by a backslash, and the
     * reader just after that symbol. Reading up to a backslash is not supported.
     */
    method ScanUntil(symbol: char) returns (r: Result<string, ScanError>)
      requires Valid() && symbol != '\\'
      modifies reader
      ensures Valid()
      ensures var s := RuleSpec.ScanUntil(rule, old(reader.pos), symbol);
        && (s.Err? ==> r == Err(s.error))
        && (s.Ok? ==> r == Ok(s.value.0) && reader.pos == s.value.1)
    {
      var startPos := reader.pos;
      var first := reader.ReadChar();
      if first.None? {
        return Err(UnexpectedEndOfRule);
      }
      if first.value == symbol {
        assert Closes(rule, startPos, startPos, symbol);
        assert RuleSpec.ScanUntil(rule, startPos, symbol) == Ok((rule[startPos..startPos], startPos + 1));
        return Ok("");
      }
      var prev := first.value;
      while true
        invariant Valid() && startPos < reader.pos <= |rule|
        invariant prev == rule[reader.pos - 1]
        invariant forall j | startPos <= j < reader.pos :: !Closes(rule, startPos, j, symbol)
        decreases |rule| - reader.pos
      {
        var ch := reader.ReadChar();
        if ch.None? {
          return Err(UnexpectedEndOfRule);
        }
        if ch.value == symbol && prev != '\\' {
          break;
        }
        prev := ch.value;
      }
      var endPos := reader.pos - 1;
      assert Closes(rule, startPos, endPos, symbol);
      return Ok(rule[startPos..endPos]);
    }

    /** A token delimited by `open` and `close`. */
    method ScanBetween(open: char, close: char, token: string) returns (r: Result<string, ScanError>)
      requires Valid() && close != '\\'
      modifies reader
      ensures Valid()
      ensures var s := RuleSpec.ScanBetween(rule, old(reader.pos), open, close, token);
        && (s.Err? ==> r == Err(s.error))
        && (s.Ok? ==> r == Ok(s.value.0) && reader.pos == s.value.1)
    {
      var o := ScanSymbol(open, token);
      if o.Err? {
        return Err(o.error);
      }
      r := ScanUntil(close);
    }
  }

  /** Parses a rule, token by token. */
  class RuleParser {
    const scanner: RuleScanner

    ghost predicate Valid()
      reads this, scanner, scanner.reader
    {
      scanner.Valid()
    }

    constructor (rule: string)
      ensures Valid() && scanner.rule == rule && scanner.reader.pos == 0 && fresh(scanner) && fresh(scanner.reader)
    {
      scanner := new RuleScanner(rule);
    }

    /**
     * The whole rule from the start: the regular expression, compiled by
     * `regex` before the fields are read, then the fields.
     */
    method Parse(regex: string -> Result<nat, string>) returns (r: Result<ParseRule, Error>)
      requires Valid() && scanner.reader.pos == 0
      modifies scanner.reader
      ensures r == RuleSpec.Parse(scanner.rule, regex)
    {
      var first := scanner.Scan();
      if first.Err? {
        return Err(ScanFailed(first.error));
      }
      var (token, pos) := first.value;
      if !token.Regex? {
        return Err(UnexpectedToken(token, pos));
      }
      var compiled := regex(token.pattern);
      if compiled.Err? {
        return Err(BadRegex(compiled.error));
      }
      var fields := ParseFields();
      if fields.Err? {
        return Err(fields.error);
      }
      var captures := compiled.value;
      if captures != |fields.value| + 1 {
        return Err(CapturesFieldsMismatch(captures, |fields.value|));
      }
      return Ok(ParseRule(token.pattern, fields.value));
    }

    /** A blank, then the fields up to the end of the rule. */
    method ParseFields() returns (r: Result<seq<Field>, Error>)
      requires Valid()
      modifies scanner.reader
      ensures r == RuleSpec.ParseFields(scanner.rule, old(scanner.reader.pos))
    {
      var blank := scanner.Scan();
      if blank.Err? {
        return Err(ScanFailed(blank.error));
      }
      var (token, pos) := blank.value;
      if token != WS {
        return Err(UnexpectedToken(token, pos));
      }
      ghost var start := scanner.reader.pos;
      ghost var goal := FieldsFrom(scanner.rule, start, false);
      assert RuleSpec.ParseFields(scanner.rule, old(scanner.reader.pos)) == goal;
      var fields: seq<Field> := [];
      var expectSep := false;
      assert Prepend(fields, goal) == goal by {
        if goal.Ok? {
          assert [] + goal.value == goal.value;
        }
      }
      while true
        invariant Valid() && scanner.reader.pos <= |scanner.rule|
        invariant Prepend(fields, FieldsFrom(scanner.rule, scanner.reader.pos, expectSep)) == goal
        decreases |scanner.rule| - scanner.reader.pos
      {
        ghost var rest := FieldsFrom(scanner.rule, scanner.reader.pos, expectSep);
        var field, last, sep := ParseField(expectSep);
        if field.Err? {
          return Err(field.error);
        }
        if field.value.None? {
          assert fields + [] == fields;
          break;
        }
        var f := field.value.value;
        if last {
          fields := fields + [f];
          break;
        }
        ghost var more := FieldsFrom(scanner.rule, scanner.reader.pos, sep);
        assert rest == Prepend([f], more);
        PrependAssoc(fields, [f], more);
        fields := fields + [f];
        expectSep := sep;
      }
      return Ok(fields);
    }

    /**
     * One turn of the field loop: the separator when one is expected, then a
     * name and the token after it. Gives no field at the end of the rule; says
     * whether the field is the last one and whether a comma must follow it.
     */
    method ParseField(expectSep: bool) returns (r: Result<Option<Field>, Error>, last: bool, sep: bool)
      requires Valid()
      modifies scanner.reader
      ensures Valid()
      ensures var rest := FieldsFrom(scanner.rule, old(scanner.reader.pos), expectSep);
        && (r.Err? ==> rest == Err(r.error))
        && (r.Ok? && r.value.None? ==> rest == Ok([]))
        && (r.Ok? && r.value.Some? && last ==> rest == Ok([r.value.value]))
        && (r.Ok? && r.value.Some? && !last ==>
              old(scanner.reader.pos) < scanner.reader.pos
              && rest == Prepend([r.value.value], FieldsFrom(scanner.rule, scanner.reader.pos, sep)))
    {
      ghost var text, p := scanner.rule, scanner.reader.pos;
      var more := ExpectSeparator(expectSep);
      if more.Err? {
        assert Separator(text, p, expectSep) == Err(more.error);
        return Err(more.error), false, false;
      }
      if !more.value {
        return Ok(None), true, false;
      }
      ghost var p1 := scanner.reader.pos;
      assert Separator(text, p, expectSep) == Ok(Some(p1));
      var name := ExpectName();
      if name.Err? {
        assert NameAt(text, p1) == Err(name.error);
        return Err(name.error), false, false;
      }
      ghost var p2 := scanner.reader.pos;
      assert NameAt(text, p1) == Ok((name.value, p2));
      var typed := ExpectType();
      if typed.Err? {
        assert TypeAt(text, p2) == Err(typed.error);
        return Err(typed.error), false, false;
      }
      var (typ, token) := typed.value;
      assert TypeAt(text, p2) == Ok((typ, token, scanner.reader.pos));
      r := Ok(Some(Field(typ, name.value)));
      last := token == EOF;
      sep := token != Comma;
    }

    /** A comma, when one is expected; `false` at the end of the rule. */
    method ExpectSeparator(expectSep: bool) returns (r: Result<bool, Error>)
      requires Valid()
      modifies scanner.reader
      ensures Valid()
      ensures var s := Separator(scanner.rule, old(scanner.reader.pos), expectSep);
        && (s.Err? ==> r == Err(s.error))
        && (s.Ok? ==> r == Ok(s.value.Some?))
        && (s.Ok? && s.value.Some? ==> scanner.reader.pos == s.value.value)
    {
      if !expectSep {
        return Ok(true);
      }
      var s := scanner.Scan();
      if s.Err? {
        return Err(ScanFailed(s.error));
      }
      var (token, pos) := s.value;
      if token == EOF {
        return Ok(false);
      }
      if token != Comma {
        return Err(UnexpectedToken(token, pos));
      }
      return Ok(true);
    }

    /** A field name. */
    method ExpectName() returns (r: Result<string, Error>)
      requires Valid()
      modifies scanner.reader
      ensures Valid()
      ensures var s := NameAt(scanner.rule, old(scanner.reader.pos));
        && (s.Err? ==> r == Err(s.error))
        && (s.Ok? ==> r == Ok(s.value.0) && scanner.reader.pos == s.value.1)
    {
      var n := scanner.Scan();
      if n.Err? {
        return Err(ScanFailed(n.error));
      }
      var (token, pos) := n.value;
      if !token.FieldName? {
        return Err(UnexpectedToken(token, pos));
      }
      return Ok(token.name);
    }

    /** The type of a field, from the token after its name, and that token. */
    method ExpectType() returns (r: Result<(FieldType, Token), Error>)
      requires Valid()
      modifies scanner.reader
      ensures Valid()
      ensures var s := TypeAt(scanner.rule, old(scanner.reader.pos));
        && (s.Err? ==> r == Err(s.error))
        && (s.Ok? ==> r == Ok((s.value.0, s.value.1)) && scanner.reader.pos == s.value.2)
    {
      var t := scanner.Scan();
      if t.Err? {
        return Err(ScanFailed(t.error));
      }
      var (token, pos) := t.value;
      var typ := TypeOf(token);
      if typ.None? {
        return Err(UnexpectedToken(token, pos));
      }
      return Ok((typ.value, token));
    }
  }

  /** The fields already parsed, followed by those still to come. */
  function Prepend(fields: seq<Field>, rest: Result<seq<Field>, Error>): Result<seq<Field>, Error>
  {
    match rest
    case Err(e) => Err(e)
    case Ok(more) => Ok(fields + more)
  }

  lemma PrependAssoc(a: seq<Field>, b: seq<Field>, rest: Result<seq<Field>, Error>)
    ensures Prepend(a, Prepend(b, rest)) == Prepend(a + b, rest)
  {
    if rest.Ok? {
      assert a + (b + rest.value) == (a + b) + rest.value;
    }
  }
}
