/**
 * Rules written back as text, and the proof that parsing the text of a
 * well-formed rule gives that rule back.
 */
module RuleText {
  import opened Wrappers
  import opened RuleSpec

  /**
   * `body` can stand between delimiters that end with `symbol`: each `symbol`
   * in it follows a backslash, and it does not itself end with a backslash.
   */
  predicate Delimitable(body: string, symbol: char)
  {
    && (forall j | 0 <= j < |body| :: body[j] == symbol ==> 0 < j && body[j - 1] == '\\')
    && (body == [] || body[|body| - 1] != '\\')
  }

  predicate IsName(name: string)
  {
    && name != []
    && IsIdentSymbol(name[0], true)
    && forall j | 0 <= j < |name| :: IsIdentTail(name[j])
  }

  predicate WellFormedField(field: Field)
  {
    IsName(field.name) && (field.typ.DateTime? ==> Delimitable(field.typ.format, ']'))
  }

  predicate WellFormedFields(fields: seq<Field>)
  {
    fields != [] && forall i | 0 <= i < |fields| :: WellFormedField(fields[i])
  }

  predicate WellFormedRule(rule: ParseRule)
  {
    Delimitable(rule.re, '/') && WellFormedFields(rule.fields)
  }

  function TypeText(typ: FieldType): string
  {
    match typ
    case Int => ":int"
    case UInt => ":uint"
    case Float => ":float"
    case DateTime(format) => ":dt[" + format + "]"
    case Str => ""
  }

  /** The token that announces a type. */
  function TypeToken(typ: FieldType): Token
  {
    match typ
    case Int => TypeInt
    case UInt => TypeUInt
    case Float => TypeFloat
    case DateTime(format) => TypeDateTime(format)
    case Str => EOF
  }

  function FieldText(field: Field): string
  {
    field.name + TypeText(field.typ)
  }

  function FieldsText(fields: seq<Field>): string
    requires fields != []
  {
    if |fields| == 1 then FieldText(fields[0])
    else FieldText(fields[0]) + ("," + FieldsText(fields[1..]))
  }

  function RuleText(rule: ParseRule): string
    requires rule.fields != []
  {
    "/" + rule.re + "/ " + FieldsText(rule.fields)
  }

  // ----------------------------------------------------------------- tokens

  /** A delimited body is read back up to its closing symbol. */
  lemma ScanUntilBody(text: string, p: nat, body: string, symbol: char)
    requires p + |body| < |text| && text[p..p + |body|] == body && text[p + |body|] == symbol
    requires Delimitable(body, symbol)
    ensures ScanUntil(text, p, symbol) == Ok((body, p + |body| + 1))
  {
    var k := p + |body|;
    assert Closes(text, p, k, symbol) by {
      if k != p {
        assert text[k - 1] == body[|body| - 1];
      }
    }
    forall j | p <= j < k
      ensures !Closes(text, p, j, symbol)
    {
      assert text[j] == body[j - p];
      if text[j] == symbol {
        assert text[j - 1] == body[j - p - 1];
      }
    }
    var r := ScanUntil(text, p, symbol);
    assert r.Ok?;
    assert r.value.1 - 1 == k;
  }

  /** A name followed by a character that cannot continue it is one name token. */
  lemma NameTokenRoundTrip(text: string, p: nat, name: string)
    requires IsName(name) && p + |name| <= |text| && text[p..p + |name|] == name
    requires p + |name| == |text| || !IsIdentTail(text[p + |name|])
    ensures ScanToken(text, p) == Ok(Scanned(FieldName(name), p + 1, p + |name|))
    ensures NameAt(text, p) == Ok((name, p + |name|))
  {
    assert text[p] == name[0];
    forall j | p + 1 <= j < p + |name|
      ensures IsIdentTail(text[j])
    {
      assert text[j] == name[j - p];
    }
    RunEndUnique(text, p + 1, p + |name|, IsIdentTail);
  }

  /** The text of a type keyword is read back as its token. */
  lemma KeywordRoundTrip(text: string, p: nat, typ: FieldType)
    requires typ in {Int, UInt, Float}
    requires p + |TypeText(typ)| <= |text| && text[p..p + |TypeText(typ)|] == TypeText(typ)
    ensures ScanToken(text, p) == Ok(Scanned(TypeToken(typ), p + 1, p + |TypeText(typ)|))
  {
    var t := TypeText(typ);
    var word := t[1..];
    assert text[p] == t[0] == ':';
    assert text[p + 1..p + |t|] == word;
    assert text[p + 1] == word[0];
    assert ScanWord(text, p + 1, word, 0) == Ok(p + |t|);
  }

  /** `:dt[format]` is read back as a date-time token. */
  lemma DateTimeRoundTrip(text: string, p: nat, format: string)
    requires Delimitable(format, ']')
    requires p + |TypeText(DateTime(format))| <= |text|
    requires text[p..p + |TypeText(DateTime(format))|] == TypeText(DateTime(format))
    ensures ScanToken(text, p) == Ok(Scanned(TypeDateTime(format), p + 1, p + |format| + 5))
  {
    DateTimeChars(text, p, format);
    ScanUntilBody(text, p + 4, format, ']');
    DateTimeToken(text, p, format, p + |format| + 5);
  }

  /** The characters of `:dt[format]` where it is written. */
  lemma DateTimeChars(text: string, p: nat, format: string)
    requires p + |TypeText(DateTime(format))| <= |text|
    requires text[p..p + |TypeText(DateTime(format))|] == TypeText(DateTime(format))
    ensures p + |format| + 5 <= |text|
    ensures text[p] == ':' && text[p + 1] == 'd' && text[p + 2] == 't' && text[p + 3] == '['
    ensures text[p + 4..p + 4 + |format|] == format && text[p + 4 + |format|] == ']'
  {
    var t := TypeText(DateTime(format));
    var n := |format|;
    var head := ":dt[" + format;
    assert t == head + "]";
    assert head[4..] == format;
    assert t[4..4 + n] == head[4..];
    SliceOfSlice(text, p, t, 4, 4 + n);
    assert text[p] == text[p..p + |t|][0] == ':';
    assert text[p + 1] == text[p..p + |t|][1] == 'd';
    assert text[p + 2] == text[p..p + |t|][2] == 't';
    assert text[p + 3] == text[p..p + |t|][3] == '[';
    assert text[p + 4 + n] == text[p..p + |t|][4 + n] == ']';
  }

  /** `:dt[`, then a format closed by `]`, is a date-time token. */
  lemma DateTimeToken(text: string, p: nat, format: string, q: nat)
    requires p + 4 <= |text|
    requires text[p] == ':' && text[p + 1] == 'd' && text[p + 2] == 't' && text[p + 3] == '['
    requires ScanUntil(text, p + 4, ']') == Ok((format, q))
    ensures ScanToken(text, p) == Ok(Scanned(TypeDateTime(format), p + 1, q))
  {
    assert ScanBetween(text, p + 3, '[', ']', "datetime pattern") == Ok((format, q));
    assert ScanDateTime(text, p + 2) == Ok((TypeDateTime(format), q));
    assert ScanFieldType(text, p + 1) == Ok((TypeDateTime(format), q));
  }

  /** A slice of a slice of `text` is a slice of `text`. */
  lemma SliceOfSlice(text: string, p: nat, t: string, i: nat, j: nat)
    requires p + |t| <= |text| && text[p..p + |t|] == t && i <= j <= |t|
    ensures text[p + i..p + j] == t[i..j]
  {
    forall k | 0 <= k < j - i
      ensures text[p + i..p + j][k] == t[i..j][k]
    {
      assert text[p + i + k] == text[p..p + |t|][i + k];
    }
  }

  /** The text of a type is read back as its token. */
  lemma TypeRoundTrip(text: string, p: nat, q: nat, typ: FieldType)
    requires typ != Str && (typ.DateTime? ==> Delimitable(typ.format, ']'))
    requires q == p + |TypeText(typ)| <= |text| && text[p..q] == TypeText(typ)
    ensures TypeAt(text, p) == Ok((typ, TypeToken(typ), q))
  {
    if typ.DateTime? {
      DateTimeTypeAt(text, p, q, typ);
    } else {
      KeywordTypeAt(text, p, q, typ);
    }
  }

  lemma DateTimeTypeAt(text: string, p: nat, q: nat, typ: FieldType)
    requires typ.DateTime? && Delimitable(typ.format, ']')
    requires q == p + |TypeText(typ)| <= |text| && text[p..q] == TypeText(typ)
    ensures TypeAt(text, p) == Ok((typ, TypeToken(typ), q))
  {
    DateTimeRoundTrip(text, p, typ.format);
    TokenTyped(text, p, q, typ);
  }

  lemma KeywordTypeAt(text: string, p: nat, q: nat, typ: FieldType)
    requires typ in {Int, UInt, Float}
    requires q == p + |TypeText(typ)| <= |text| && text[p..q] == TypeText(typ)
    ensures TypeAt(text, p) == Ok((typ, TypeToken(typ), q))
  {
    KeywordRoundTrip(text, p, typ);
    TokenTyped(text, p, q, typ);
  }

  /** The token of a type gives that type. */
  lemma TokenTyped(text: string, p: nat, q: nat, typ: FieldType)
    requires typ != Str && p <= |text|
    requires ScanToken(text, p) == Ok(Scanned(TypeToken(typ), p + 1, q))
    ensures TypeAt(text, p) == Ok((typ, TypeToken(typ), q))
  {
  }

  // ----------------------------------------------------------------- fields

  /** After a name, a comma leaves the field a string. */
  lemma CommaAfterName(text: string, q: nat)
    requires q < |text| && text[q] == ','
    ensures TypeAt(text, q) == Ok((Str, Comma, q + 1))
  {
    assert ScanToken(text, q) == Ok(Scanned(Comma, q + 1, q + 1));
  }

  /** A comma before a field reads as no separator before it. */
  lemma {:induction false} CommaThenField(text: string, q: nat)
    requires q < |text| && text[q] == ','
    ensures FieldsFrom(text, q, true) == FieldsFrom(text, q + 1, false)
  {
    assert Separator(text, q, true) == Ok(Some(q + 1));
  }

  /** The text of the field `f` sits in `text` from `p` to `q`. */
  predicate FieldAt(text: string, p: nat, q: nat, f: Field)
  {
    WellFormedField(f) && q == p + |FieldText(f)| <= |text| && text[p..q] == FieldText(f)
  }

  /** Where the first field sits in the text of fields, and what follows it. */
  lemma {:induction false} FieldsTextSplit(text: string, p: nat, fields: seq<Field>)
    requires WellFormedFields(fields) && p <= |text| && text[p..] == FieldsText(fields)
    ensures FieldAt(text, p, p + |FieldText(fields[0])|, fields[0])
    ensures |fields| == 1 ==> p + |FieldText(fields[0])| == |text|
    ensures |fields| > 1 ==> FieldsTextTail(text, p + |FieldText(fields[0])|, fields[1..])
  {
    var f := fields[0];
    var q := p + |FieldText(f)|;
    assert text[p..q] == text[p..][..q - p];
    if |fields| > 1 {
      FieldsTextRest(text, p, q, fields);
    }
  }

  /** A comma, then the text of `rest` to the end. */
  predicate FieldsTextTail(text: string, q: nat, rest: seq<Field>)
  {
    rest != [] && q < |text| && text[q] == ',' && text[q + 1..] == FieldsText(rest)
  }

  lemma {:induction false} FieldsTextRest(text: string, p: nat, q: nat, fields: seq<Field>)
    requires |fields| > 1 && p <= |text| && text[p..] == FieldsText(fields) && q == p + |FieldText(fields[0])|
    ensures FieldsTextTail(text, q, fields[1..])
  {
    var f, rest := fields[0], fields[1..];
    assert text[p..] == FieldText(f) + ("," + FieldsText(rest));
    assert text[q..] == text[p..][q - p..];
    assert text[q..] == "," + FieldsText(rest);
    assert text[q] == text[q..][0];
    assert text[q + 1..] == text[q..][1..];
  }

  /** The text of well-formed fields, at the end of a rule, is read back as those fields. */
  lemma {:induction false} FieldsRoundTrip(text: string, p: nat, fields: seq<Field>)
    requires WellFormedFields(fields)
    requires p <= |text| && text[p..] == FieldsText(fields)
    ensures FieldsFrom(text, p, false) == Ok(fields)
    decreases |fields|, 0
  {
    var f, rest := fields[0], fields[1..];
    var q := p + |FieldText(f)|;
    FieldsTextSplit(text, p, fields);
    if |fields| == 1 {
      FieldRoundTrip(text, p, q, f, []);
      assert fields == [f] + [];
    } else {
      WellFormedTail(fields);
      TailRoundTrip(text, q, rest);
      FieldRoundTrip(text, p, q, f, rest);
      assert fields == [f] + rest;
    }
  }

  /** A comma and the text of more fields, at the end of a rule, is what may follow a field. */
  lemma {:induction false} TailRoundTrip(text: string, q: nat, rest: seq<Field>)
    requires WellFormedFields(rest) && FieldsTextTail(text, q, rest)
    ensures Trailing(text, q, rest)
    decreases |rest|, 1
  {
    FieldsRoundTrip(text, q + 1, rest);
  }

  lemma WellFormedTail(fields: seq<Field>)
    requires WellFormedFields(fields) && |fields| > 1
    ensures WellFormedField(fields[0]) && WellFormedFields(fields[1..])
  {
    forall i | 0 <= i < |fields| - 1
      ensures WellFormedField(fields[1..][i])
    {
      assert fields[1..][i] == fields[i + 1];
    }
  }

  /** What follows a field at `q`: the end of the rule, or a comma and the fields `rest`. */
  predicate Trailing(text: string, q: nat, rest: seq<Field>)
  {
    && (rest == [] ==> q == |text|)
    && (rest != [] ==> q < |text| && text[q] == ',' && FieldsFrom(text, q + 1, false) == Ok(rest))
  }

  /** One field, then the fields after it. */
  lemma {:induction false} FieldRoundTrip(text: string, p: nat, q: nat, f: Field, rest: seq<Field>)
    requires FieldAt(text, p, q, f) && Trailing(text, q, rest)
    ensures FieldsFrom(text, p, false) == Ok([f] + rest)
  {
    NameFollowedBy(text, p, f, q);
    NameThenType(text, p, q, f, rest);
  }

  /** Once the name is read, the type and what follows it complete the field. */
  lemma {:induction false} NameThenType(text: string, p: nat, q: nat, f: Field, rest: seq<Field>)
    requires p + |f.name| <= q && TypeTextAt(text, p + |f.name|, q, f) && Trailing(text, q, rest)
    requires FieldsFrom(text, p, false) == NamedField(text, f.name, TypeAt(text, p + |f.name|))
    ensures FieldsFrom(text, p, false) == Ok([f] + rest)
  {
    AfterName(text, p + |f.name|, q, f, rest);
  }

  /** The text of the type of the well-formed field `f` sits in `text` from `n` to `q`. */
  predicate TypeTextAt(text: string, n: nat, q: nat, f: Field)
  {
    WellFormedField(f) && q == n + |TypeText(f.typ)| <= |text| && text[n..q] == TypeText(f.typ)
  }

  /** What follows the name of a field: its type, if any, then a comma or the end of the rule. */
  lemma {:induction false} AfterName(text: string, n: nat, q: nat, f: Field, rest: seq<Field>)
    ensures TypeTextAt(text, n, q, f) && Trailing(text, q, rest) ==>
      NamedField(text, f.name, TypeAt(text, n)) == Ok([f] + rest)
  {
    if TypeTextAt(text, n, q, f) && Trailing(text, q, rest) {
      if f.typ == Str {
        UntypedFieldRoundTrip(text, n, f, rest);
      } else {
        TypedFieldThen(text, q, f, rest);
        TypedFieldRoundTrip(text, n, q, f, rest);
      }
    }
  }

  /** A field without a type ends at a comma or at the end of the rule. */
  lemma {:induction false} UntypedFieldRoundTrip(text: string, n: nat, f: Field, rest: seq<Field>)
    requires f.typ == Str && n <= |text|
    requires Trailing(text, n, rest)
    ensures NamedField(text, f.name, TypeAt(text, n)) == Ok([f] + rest)
  {
    if rest == [] {
      assert TypeAt(text, n) == Ok((Str, EOF, n));
      assert NamedField(text, f.name, Ok((Str, EOF, n))) == Ok([Field(Str, f.name)]);
      assert [f] + rest == [Field(Str, f.name)];
    } else {
      CommaAfterName(text, n);
      assert NamedField(text, f.name, Ok((Str, Comma, n + 1))) == Ok([f] + rest);
    }
  }

  /** The text of a type is read back as its token, so the field completes as it does after that token. */
  lemma {:induction false} TypedFieldRoundTrip(text: string, n: nat, q: nat, f: Field, rest: seq<Field>)
    requires f.typ != Str && (f.typ.DateTime? ==> Delimitable(f.typ.format, ']'))
    requires q == n + |TypeText(f.typ)| <= |text| && text[n..q] == TypeText(f.typ)
    requires NamedField(text, f.name, Ok((f.typ, TypeToken(f.typ), q))) == Ok([f] + rest)
    ensures NamedField(text, f.name, TypeAt(text, n)) == Ok([f] + rest)
  {
    TypeRoundTrip(text, n, q, f.typ);
  }

  /** After a type, a comma or the end of the rule. */
  lemma {:induction false} TypedFieldThen(text: string, q: nat, f: Field, rest: seq<Field>)
    requires f.typ != Str && q <= |text|
    requires Trailing(text, q, rest)
    ensures NamedField(text, f.name, Ok((f.typ, TypeToken(f.typ), q))) == Ok([f] + rest)
  {
    assert TypeToken(f.typ) != EOF && TypeToken(f.typ) != Comma;
    if rest == [] {
      assert FieldsFrom(text, q, true) == Ok([]);
    } else {
      CommaThenField(text, q);
    }
  }

  /** The name of a field is read as one token, whatever type follows it. */
  lemma {:induction false} NameFollowedBy(text: string, p: nat, f: Field, q: nat)
    ensures FieldAt(text, p, q, f) && (q == |text| || (q < |text| && text[q] == ',')) ==>
      && p + |f.name| <= q
      && TypeTextAt(text, p + |f.name|, q, f)
      && FieldsFrom(text, p, false) == NamedField(text, f.name, TypeAt(text, p + |f.name|))
  {
    if FieldAt(text, p, q, f) && (q == |text| || (q < |text| && text[q] == ',')) {
      var n := p + |f.name|;
      assert text[p..n] == f.name by {
        assert FieldText(f)[..|f.name|] == f.name;
      }
      assert text[n..q] == TypeText(f.typ) by {
        assert text[p..q][|f.name|..] == TypeText(f.typ);
      }
      if n < |text| {
        if f.typ == Str {
          assert n == q;
        } else {
          assert text[n] == FieldText(f)[|f.name|] == TypeText(f.typ)[0] == ':';
        }
      }
      NameTokenRoundTrip(text, p, f.name);
    }
  }


  // ------------------------------------------------------------------ rules

  /** Parsing the text of a well-formed rule gives the rule back, when its pattern has one group per field. */
  lemma RuleRoundTrip(rule: ParseRule, regex: string -> Result<nat, string>)
    requires WellFormedRule(rule)
    requires regex(rule.re) == Ok(|rule.fields| + 1)
    ensures Parse(RuleText(rule), regex) == Ok(rule)
  {
    var text := RuleText(rule);
    var re := rule.re;
    var m := |re| + 2;
    assert text[1..1 + |re|] == re;
    assert text[1 + |re|] == '/';
    ScanUntilBody(text, 1, re, '/');
    assert ScanToken(text, 0) == Ok(Scanned(Regex(re), 1, m));
    assert text[m] == ' ';
    assert text[m + 1..] == FieldsText(rule.fields);
    assert !IsBlank(text[m + 1]) by {
      assert text[m + 1] == FieldsText(rule.fields)[0] == rule.fields[0].name[0];
      assert WellFormedField(rule.fields[0]);
    }
    RunEndUnique(text, m + 1, m + 1, IsBlank);
    assert ScanToken(text, m) == Ok(Scanned(WS, m + 1, m + 1));
    FieldsRoundTrip(text, m + 1, rule.fields);
    assert ParseFields(text, m) == Ok(rule.fields);
  }
}
