/**
 * The field list as `parse_fields` is written: once a field has a type, a
 * comma must follow it, so the end of the rule after a typed field is an
 * unexpected token. A rule can then end only with an untyped field, although
 * the grammar makes every type optional. The rest of the model uses the
 * corrected `RuleSpec.Separator`, which accepts the end of the rule there.
 */
module RuleFindings {
  import opened Wrappers
  import opened RuleSpec

  /** The separator check as written: only a comma may follow a typed field. */
  function SeparatorAsWritten(text: string, p: nat, expectSep: bool): (r: Result<Option<nat>, Error>)
    requires p <= |text|
    ensures r != Ok(None)
    ensures r.Err? ==> r.error.ScanFailed? || r.error.UnexpectedToken?
    ensures r.Ok? ==> p <= r.value.value <= |text|
    ensures !expectSep ==> r == Ok(Some(p))
    ensures expectSep && p == |text| ==> r == Err(UnexpectedToken(EOF, p))
  {
    if !expectSep then Ok(Some(p))
    else
      match ScanToken(text, p)
      case Err(e) => Err(ScanFailed(e))
      case Ok(Scanned(Comma, _, q)) => Ok(Some(q))
      case Ok(Scanned(t, pos, _)) => Err(UnexpectedToken(t, pos))
  }

  /** `RuleSpec.FieldsFrom` with the separator check as written. */
  function FieldsFromAsWritten(text: string, p: nat, expectSep: bool): (r: Result<seq<Field>, Error>)
    requires p <= |text|
    ensures r.Ok? ==> r.value != []
    decreases |text| - p, 0
  {
    match SeparatorAsWritten(text, p, expectSep)
    case Err(e) => Err(e)
    case Ok(None) => Ok([])
    case Ok(Some(p1)) =>
      match NameAt(text, p1)
      case Err(e) => Err(e)
      case Ok((name, p2)) => NamedFieldAsWritten(text, name, TypeAt(text, p2))
  }

  function NamedFieldAsWritten(text: string, name: string, typed: Result<(FieldType, Token, nat), Error>): (r: Result<seq<Field>, Error>)
    requires typed.Ok? ==> typed.value.2 <= |text|
    ensures r.Ok? ==> r.value != []
    decreases if typed.Ok? then |text| - typed.value.2 else 0, 1
  {
    match typed
    case Err(e) => Err(e)
    case Ok((typ, token, q)) =>
      if token == EOF then Ok([Field(typ, name)])
      else
        match FieldsFromAsWritten(text, q, token != Comma)
        case Err(e) => Err(e)
        case Ok(fields) => Ok([Field(typ, name)] + fields)
  }

  /** `RuleSpec.ParseFields` with the separator check as written. */
  function ParseFieldsAsWritten(text: string, p: nat): (r: Result<seq<Field>, Error>)
    requires p <= |text|
    ensures r.Ok? ==> r.value != []
  {
    match ScanToken(text, p)
    case Err(e) => Err(ScanFailed(e))
    case Ok(Scanned(WS, _, q)) => FieldsFromAsWritten(text, q, false)
    case Ok(Scanned(t, pos, _)) => Err(UnexpectedToken(t, pos))
  }

  /** As written, every field list that is accepted ends with an untyped field. */
  lemma {:induction false} AsWrittenEndsUntyped(text: string, p: nat, expectSep: bool)
    requires p <= |text|
    ensures var r := FieldsFromAsWritten(text, p, expectSep);
      r.Ok? ==> r.value[|r.value| - 1].typ == Str
    decreases |text| - p, 0
  {
    match SeparatorAsWritten(text, p, expectSep)
    case Err(_) =>
    case Ok(None) =>
    case Ok(Some(p1)) =>
      match NameAt(text, p1)
      case Err(_) =>
      case Ok((name, p2)) => NamedAsWrittenEndsUntyped(text, name, TypeAt(text, p2));
  }

  lemma {:induction false} NamedAsWrittenEndsUntyped(text: string, name: string, typed: Result<(FieldType, Token, nat), Error>)
    requires typed.Ok? ==> typed.value.2 <= |text| && TypeOf(typed.value.1) == Some(typed.value.0)
    ensures var r := NamedFieldAsWritten(text, name, typed);
      r.Ok? ==> r.value[|r.value| - 1].typ == Str
    decreases if typed.Ok? then |text| - typed.value.2 else 0, 1
  {
    match typed
    case Err(_) =>
    case Ok((typ, token, q)) =>
      if token != EOF {
        AsWrittenEndsUntyped(text, q, token != Comma);
      }
  }

  /** Whatever the field list as written accepts, the corrected one accepts too, with the same fields. */
  lemma {:induction false} CorrectedExtendsAsWritten(text: string, p: nat, expectSep: bool)
    requires p <= |text|
    ensures FieldsFromAsWritten(text, p, expectSep).Ok? ==>
      FieldsFrom(text, p, expectSep) == FieldsFromAsWritten(text, p, expectSep)
    decreases |text| - p, 0
  {
    match SeparatorAsWritten(text, p, expectSep)
    case Err(_) =>
    case Ok(None) =>
    case Ok(Some(p1)) =>
      assert Separator(text, p, expectSep) == Ok(Some(p1));
      match NameAt(text, p1)
      case Err(_) =>
      case Ok((name, p2)) => NamedCorrectedExtendsAsWritten(text, name, TypeAt(text, p2));
  }

  lemma {:induction false} NamedCorrectedExtendsAsWritten(text: string, name: string, typed: Result<(FieldType, Token, nat), Error>)
    requires typed.Ok? ==> typed.value.2 <= |text|
    requires typed.Err? ==> typed.error.ScanFailed? || typed.error.UnexpectedToken?
    ensures NamedFieldAsWritten(text, name, typed).Ok? ==>
      NamedField(text, name, typed) == NamedFieldAsWritten(text, name, typed)
    decreases if typed.Ok? then |text| - typed.value.2 else 0, 1
  {
    match typed
    case Err(_) =>
    case Ok((typ, token, q)) =>
      if token != EOF {
        CorrectedExtendsAsWritten(text, q, token != Comma);
      }
  }

  /**
   * The rule `/(\d+)/ n:int`: as written its fields are rejected at the end
   * of the rule, position 13; corrected, they are the one integer field `n`.
   */
  lemma TypedLastField(text: string)
    requires text == "/(\\d+)/ n:int"
    ensures ParseFieldsAsWritten(text, 7) == Err(UnexpectedToken(EOF, 13))
    ensures ParseFields(text, 7) == Ok([Field(Int, "n")])
  {
    TypedLastFieldAsWritten(text);
    TypedLastFieldCorrected(text);
  }

  lemma TypedLastFieldAsWritten(text: string)
    requires text == "/(\\d+)/ n:int"
    ensures ParseFieldsAsWritten(text, 7) == Err(UnexpectedToken(EOF, 13))
  {
    TypedLastFieldTokens(text);
    assert FieldsFromAsWritten(text, 13, true) == Err(UnexpectedToken(EOF, 13));
    assert NamedFieldAsWritten(text, "n", Ok((Int, TypeInt, 13))) == Err(UnexpectedToken(EOF, 13));
  }

  lemma TypedLastFieldCorrected(text: string)
    requires text == "/(\\d+)/ n:int"
    ensures ParseFields(text, 7) == Ok([Field(Int, "n")])
  {
    TypedLastFieldTokens(text);
    assert FieldsFrom(text, 13, true) == Ok([]);
    assert [Field(Int, "n")] + [] == [Field(Int, "n")];
    assert NamedField(text, "n", Ok((Int, TypeInt, 13))) == Ok([Field(Int, "n")]);
  }

  /** The tokens of the fields of that rule: a blank, the name `n`, the type `:int`. */
  lemma TypedLastFieldTokens(text: string)
    requires text == "/(\\d+)/ n:int"
    ensures ScanToken(text, 7) == Ok(Scanned(WS, 8, 8))
    ensures NameAt(text, 8) == Ok(("n", 9))
    ensures TypeAt(text, 9) == Ok((Int, TypeInt, 13))
  {
    assert RunEnd(text, 9, IsIdentTail) == 9;
    assert text[8..9] == "n";
    assert ScanWord(text, 10, "int", 0) == Ok(13);
  }
}
