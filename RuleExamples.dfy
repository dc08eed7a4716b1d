/**
 * The behaviour the rule module's own unit tests check, stated about the
 * rule functions: tokens of patterns, blanks, names and date-time types, and
 * two whole rules.
 */
module RuleExamples {
  import opened Wrappers
  import opened RuleSpec
  import opened RuleText

  // ---------------------------------------------------------------- patterns

  /** `/` alone: the pattern never closes. */
  lemma UnclosedPattern(text: string)
    requires text == "/"
    ensures ScanToken(text, 0) == Err(UnexpectedEndOfRule)
  {
  }

  /** `//` is the empty pattern. */
  lemma EmptyPattern(text: string)
    requires text == "//"
    ensures ScanToken(text, 0) == Ok(Scanned(Regex(""), 1, 2))
  {
    assert Closes(text, 1, 1, '/');
  }

  /** `/hello/` is the pattern `hello`. */
  lemma PlainPattern(text: string, body: string)
    requires text == "/hello/" && body == "hello"
    ensures ScanToken(text, 0) == Ok(Scanned(Regex(body), 1, 7))
  {
    assert text[1..6] == body;
    ScanUntilBody(text, 1, body, '/');
  }

  /** A slash after a backslash does not close the pattern, and both stay in it. */
  lemma EscapedSlashPattern(text: string)
    requires text == "/\\d+ \\/foo /"
    ensures ScanToken(text, 0) == Ok(Scanned(Regex("\\d+ \\/foo "), 1, 12))
  {
    ScanUntilBody(text, 1, "\\d+ \\/foo ", '/');
  }

  // ------------------------------------------------------------------ blanks

  /** A rule made only of blanks is one blank token, then the end at its length. */
  lemma OnlyBlanks(text: string)
    requires text != [] && forall j | 0 <= j < |text| :: IsBlank(text[j])
    ensures ScanToken(text, 0) == Ok(Scanned(WS, 1, |text|))
    ensures ScanToken(text, |text|) == Ok(Scanned(EOF, |text|, |text|))
  {
    RunEndUnique(text, 1, |text|, IsBlank);
  }

  lemma BlankRules()
    ensures forall text | text in [" ", "\t", "   ", "\t\t\t", " \t ", "\t \t"] ::
      ScanToken(text, 0) == Ok(Scanned(WS, 1, |text|)) && ScanToken(text, |text|) == Ok(Scanned(EOF, |text|, |text|))
  {
    forall text | text in [" ", "\t", "   ", "\t\t\t", " \t ", "\t \t"]
      ensures ScanToken(text, 0) == Ok(Scanned(WS, 1, |text|))
      ensures ScanToken(text, |text|) == Ok(Scanned(EOF, |text|, |text|))
    {
      OnlyBlanks(text);
    }
  }

  /** A blank, then the name `field_name` from position 2. */
  lemma BlankThenName(text: string)
    requires text == " field_name"
    ensures ScanToken(text, 0) == Ok(Scanned(WS, 1, 1))
    ensures ScanToken(text, 1) == Ok(Scanned(FieldName("field_name"), 2, 11))
  {
    RunEndUnique(text, 1, 1, IsBlank);
    assert text[1..11] == "field_name";
    NameTokenRoundTrip(text, 1, "field_name");
  }

  // ------------------------------------------------------------------- names

  /** A name followed by nothing, a comma, a blank or a colon is scanned alone. */
  lemma NameBeforeStop(text: string, name: string)
    requires IsName(name)
    requires text == name || text == name + "," || text == name + " " || text == name + ":"
    ensures ScanToken(text, 0) == Ok(Scanned(FieldName(name), 1, |name|))
  {
    assert text[..|name|] == name;
    NameTokenRoundTrip(text, 0, name);
  }

  /** The names of the rule module's tests, each with what follows it. */
  lemma NameRules()
    ensures forall t | t in [("field1", "field1"), ("field2,", "field2"), ("field_three ", "field_three"),
                             ("field4:", "field4"), ("_f5", "_f5"), ("_6", "_6"), ("___", "___")] ::
      ScanToken(t.0, 0) == Ok(Scanned(FieldName(t.1), 1, |t.1|))
  {
    forall t | t in [("field1", "field1"), ("field2,", "field2"), ("field_three ", "field_three"),
                     ("field4:", "field4"), ("_f5", "_f5"), ("_6", "_6"), ("___", "___")]
      ensures ScanToken(t.0, 0) == Ok(Scanned(FieldName(t.1), 1, |t.1|))
    {
      NameBeforeStop(t.0, t.1);
    }
  }

  // -------------------------------------------------------------- date-times

  /** `time:dt[%H:%m:%s]`: the name, then the date-time type at position 5. */
  lemma DateTimeField(text: string)
    requires text == "time:dt[%H:%m:%s]"
    ensures ScanToken(text, 0) == Ok(Scanned(FieldName("time"), 1, 4))
    ensures ScanToken(text, 4) == Ok(Scanned(TypeDateTime("%H:%m:%s"), 5, 17))
  {
    DateTimeName(text);
    DateTimeType(text, "%H:%m:%s");
  }

  lemma DateTimeName(text: string)
    requires text == "time:dt[%H:%m:%s]"
    ensures ScanToken(text, 0) == Ok(Scanned(FieldName("time"), 1, 4))
  {
    assert text[..4] == "time";
    NameTokenRoundTrip(text, 0, "time");
  }

  lemma DateTimeType(text: string, format: string)
    requires text == "time:dt[%H:%m:%s]" && format == "%H:%m:%s"
    ensures ScanToken(text, 4) == Ok(Scanned(TypeDateTime(format), 5, 17))
  {
    assert text[4..17] == TypeText(DateTime(format));
    assert forall j | 0 <= j < |format| :: format[j] != ']';
    DateTimeRoundTrip(text, 4, format);
  }

  // ------------------------------------------------------------------- rules

  /** A pattern with two groups and the fields `time:uint,url`. */
  lemma TwoFieldRule(text: string, regex: string -> Result<nat, string>)
    requires text == "/(\\d+)\\s(\\w)/ time:uint,url"
    requires regex("(\\d+)\\s(\\w)") == Ok(3)
    ensures Parse(text, regex) == Ok(ParseRule("(\\d+)\\s(\\w)", [Field(UInt, "time"), Field(Str, "url")]))
  {
    var rule := ParseRule("(\\d+)\\s(\\w)", [Field(UInt, "time"), Field(Str, "url")]);
    TwoFieldRuleText(text, rule);
    RuleRoundTrip(rule, regex);
  }

  /** That rule is well formed, and the text is its rule text. */
  lemma TwoFieldRuleText(text: string, rule: ParseRule)
    requires text == "/(\\d+)\\s(\\w)/ time:uint,url"
    requires rule == ParseRule("(\\d+)\\s(\\w)", [Field(UInt, "time"), Field(Str, "url")])
    ensures WellFormedRule(rule) && RuleText.RuleText(rule) == text
  {
    TwoFieldsWellFormed(rule.fields);
    TwoFieldPattern(rule.re);
    assert FieldsText(rule.fields[1..]) == "url";
    assert FieldsText(rule.fields) == "time:uint" + ("," + "url");
  }

  lemma TwoFieldsWellFormed(fields: seq<Field>)
    requires fields == [Field(UInt, "time"), Field(Str, "url")]
    ensures WellFormedFields(fields)
  {
    assert WellFormedField(fields[0]);
    assert WellFormedField(fields[1]);
  }

  lemma TwoFieldPattern(re: string)
    requires re == "(\\d+)\\s(\\w)"
    ensures Delimitable(re, '/')
  {
    assert forall j | 0 <= j < |re| :: re[j] != '/';
  }

  /** A pattern and a blank but no field: the end of the rule is unexpected at position 10. */
  lemma RuleWithoutFields(text: string, regex: string -> Result<nat, string>)
    requires text == "/some_re/ "
    requires regex("some_re").Ok?
    ensures Parse(text, regex) == Err(UnexpectedToken(EOF, 10))
  {
    ScanUntilBody(text, 1, "some_re", '/');
    assert ScanToken(text, 0) == Ok(Scanned(Regex("some_re"), 1, 9));
    RunEndUnique(text, 10, 10, IsBlank);
    assert ScanToken(text, 9) == Ok(Scanned(WS, 10, 10));
    assert NameAt(text, 10) == Err(UnexpectedToken(EOF, 10));
  }
}
