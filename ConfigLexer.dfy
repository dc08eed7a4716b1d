/**
 * The lexical rules of the configuration grammar: blank and comment skipping,
 * numbers, quoted strings, names, selectors and operators.
 *
 * Every rule is a prefix parser over the input text: it returns the value it
 * recognised together with the rest of the input, or `None` when it does not
 * match.
 */
module ConfigLexer {
  import opened Wrappers
  import opened Ast

  predicate IsDigit(c: char) { '0' <= c <= '9' }

  predicate IsAlphanumeric(c: char) { IsDigit(c) || 'a' <= c <= 'z' || 'A' <= c <= 'Z' }

  predicate IsMultispace(c: char) { c == ' ' || c == '\t' || c == '\r' || c == '\n' }

  predicate IsNameChar(c: char) { IsAlphanumeric(c) || c == '-' || c == '_' }

  predicate StartsWith(s: string, t: string) { |t| <= |s| && s[..|t|] == t }

  /** `rest` is what is left of `s` after a (possibly empty) prefix was consumed. */
  predicate Remains(s: string, rest: string) { |rest| <= |s| && rest == s[|s| - |rest|..] }

  /** `rest` is what is left of `s` after a non-empty prefix was consumed. */
  predicate Consumes(s: string, rest: string) { |rest| < |s| && rest == s[|s| - |rest|..] }

  lemma RemainsTrans(a: string, b: string, c: string)
    requires Remains(a, b) && Remains(b, c)
    ensures Remains(a, c)
  {
    assert a[|a| - |c|..] == a[|a| - |b|..][|b| - |c|..];
  }

  /** Whatever follows a prefix remains after it. */
  lemma AppendRemains(prefix: string, rest: string)
    ensures Remains(prefix + rest, rest)
    ensures prefix != [] ==> Consumes(prefix + rest, rest)
  {
    assert (prefix + rest)[|prefix|..] == rest;
  }

  /** Matches the literal `t` at the start of `s`. */
  function Tag(s: string, t: string): (r: Option<string>)
    ensures r.Some? <==> StartsWith(s, t)
    ensures r.Some? ==> s == t + r.value && Remains(s, r.value)
  {
    if StartsWith(s, t) then
      assert s == s[..|t|] + s[|t|..];
      AppendRemains(t, s[|t|..]);
      Some(s[|t|..])
    else None
  }

  /** Splits `s` after the longest prefix whose characters all satisfy `f`. */
  function Span(s: string, f: char -> bool): (r: (string, string))
    ensures s == r.0 + r.1
    ensures forall i | 0 <= i < |r.0| :: f(r.0[i])
    ensures r.1 == [] || !f(r.1[0])
    decreases |s|
  {
    if |s| > 0 && f(s[0]) then
      var (run, rest) := Span(s[1..], f);
      assert s == [s[0]] + (run + rest);
      ([s[0]] + run, rest)
    else ([], s)
  }

  /** The split is unique: a run of `f` characters followed by a non-`f` character or the end. */
  lemma {:induction false} SpanUnique(run: string, rest: string, f: char -> bool)
    requires forall i | 0 <= i < |run| :: f(run[i])
    requires rest == [] || !f(rest[0])
    ensures Span(run + rest, f) == (run, rest)
    decreases |run|
  {
    if run == [] {
      assert run + rest == rest;
    } else {
      assert (run + rest)[1..] == run[1..] + rest;
      SpanUnique(run[1..], rest, f);
      assert run == [run[0]] + run[1..];
    }
  }

  /** Index of the first character of `s` that belongs to `stops`, or `|s|`. */
  function FirstIndexIn(s: string, stops: set<char>): (n: nat)
    ensures n <= |s|
    ensures forall i | 0 <= i < n :: s[i] !in stops
    ensures n < |s| ==> s[n] in stops
    decreases |s|
  {
    if |s| == 0 || s[0] in stops then 0 else 1 + FirstIndexIn(s[1..], stops)
  }

  /**
   * The non-empty run of characters before the first one in `stops`; no match
   * when `s` starts with a stop character or contains none.
   */
  function TakeUntilEither(s: string, stops: set<char>): (r: Option<(string, string)>)
    ensures r.Some? <==> 0 < FirstIndexIn(s, stops) < |s|
    ensures r.Some? ==> s == r.value.0 + r.value.1
    ensures r.Some? ==> r.value.0 != [] && (forall i | 0 <= i < |r.value.0| :: r.value.0[i] !in stops)
    ensures r.Some? ==> r.value.1[0] in stops
  {
    var n := FirstIndexIn(s, stops);
    if 0 < n < |s| then
      assert s == s[..n] + s[n..];
      Some((s[..n], s[n..]))
    else None
  }

  // ---------------------------------------------------------------- blanks

  /** Index just past the first newline of `s`, if there is one. */
  function PastNewline(s: string): (r: Option<nat>)
    ensures r.None? ==> forall i | 0 <= i < |s| :: s[i] != '\n'
    ensures r.Some? ==> 0 < r.value <= |s| && s[r.value - 1] == '\n'
  {
    var n := FirstIndexIn(s, {'\n'});
    if n < |s| then Some(n + 1) else None
  }

  /**
   * Skips white space (space, tab, carriage return, line feed) and `#` comments
   * that run up to and including a line feed.
   */
  function Blank0(s: string): (rest: string)
    ensures Remains(s, rest)
    decreases |s|
  {
    if |s| > 0 && IsMultispace(s[0]) then
      var rest := Blank0(s[1..]);
      RemainsTrans(s, s[1..], rest);
      rest
    else if |s| > 0 && s[0] == '#' && PastNewline(s).Some? then
      var rest := Blank0(s[PastNewline(s).value..]);
      RemainsTrans(s, s[PastNewline(s).value..], rest);
      rest
    else s
  }

  /** What is left starts with neither white space nor a terminated comment. */
  lemma {:induction false} Blank0Stops(s: string)
    ensures var rest := Blank0(s);
      rest == [] || (!IsMultispace(rest[0]) && !(rest[0] == '#' && PastNewline(rest).Some?))
    decreases |s|
  {
    if |s| > 0 && IsMultispace(s[0]) {
      Blank0Stops(s[1..]);
    } else if |s| > 0 && s[0] == '#' && PastNewline(s).Some? {
      Blank0Stops(s[PastNewline(s).value..]);
    }
  }

  /** Leading white space before a token that does not start a blank is skipped entirely. */
  lemma {:induction false} Blank0SkipsSpaces(w: string, t: string)
    requires forall i | 0 <= i < |w| :: IsMultispace(w[i])
    requires t == [] || (!IsMultispace(t[0]) && t[0] != '#')
    ensures Blank0(w + t) == t
    decreases |w|
  {
    if w == [] {
      assert w + t == t;
    } else {
      assert (w + t)[1..] == w[1..] + t;
      Blank0SkipsSpaces(w[1..], t);
    }
  }

  // --------------------------------------------------------------- numbers

  lemma AppendAssoc<T>(a: seq<T>, b: seq<T>, c: seq<T>)
    ensures a + (b + c) == (a + b) + c
  {
  }

  predicate AllDigits(s: string) { forall i | 0 <= i < |s| :: IsDigit(s[i]) }

  /** A numeral the number rule can produce: at least one integer digit. */
  predicate WellFormedNumeral(n: Numeral)
  {
    && n.integer != [] && AllDigits(n.integer)
    && (n.fraction.Some? ==> AllDigits(n.fraction.value))
  }

  function SignText(negative: bool): string { if negative then "-" else "" }

  function FractionText(fraction: Option<string>): string
  {
    match fraction
    case Some(f) => "." + f
    case None => ""
  }

  /** The text of a numeral followed by `rest`: `-`? digits (`.` digits)? rest. */
  function NumeralThen(n: Numeral, rest: string): string
  {
    SignText(n.negative) + (n.integer + (FractionText(n.fraction) + rest))
  }

  lemma NumeralThenConsumes(n: Numeral, rest: string)
    requires n.integer != []
    ensures Consumes(NumeralThen(n, rest), rest)
  {
    var afterInteger := FractionText(n.fraction) + rest;
    AppendRemains(FractionText(n.fraction), rest);
    AppendRemains(n.integer, afterInteger);
    AppendRemains(SignText(n.negative), n.integer + afterInteger);
    RemainsTrans(n.integer + afterInteger, afterInteger, rest);
    RemainsTrans(NumeralThen(n, rest), n.integer + afterInteger, rest);
  }

  /** `.` digit*, if the input starts with a dot. */
  function Fraction(s: string): (r: (Option<string>, string))
    ensures s == FractionText(r.0) + r.1
    ensures r.0.Some? ==> AllDigits(r.0.value) && (r.1 == [] || !IsDigit(r.1[0]))
    ensures r.0.None? <==> s == [] || s[0] != '.'
  {
    if |s| > 0 && s[0] == '.' then
      var (fraction, rest) := Span(s[1..], IsDigit);
      assert s == "." + (fraction + rest) by {
        assert s == [s[0]] + s[1..];
      }
      AppendAssoc(".", fraction, rest);
      (Some(fraction), rest)
    else (None, s)
  }

  /** `-`? digit+ (`.` digit*)?; a leading `+` or a bare `-` does not match. */
  function NumberRule(s: string): (r: Option<(Numeral, string)>)
    ensures r.Some? ==> WellFormedNumeral(r.value.0) && s == NumeralThen(r.value.0, r.value.1)
    ensures r.Some? ==> Consumes(s, r.value.1)
    ensures r.Some? ==> r.value.1 == [] || !IsDigit(r.value.1[0])
    ensures r.Some? && r.value.0.fraction.None? ==> r.value.1 == [] || r.value.1[0] != '.'
    ensures r.None? <==> (var t := if |s| > 0 && s[0] == '-' then s[1..] else s; t == [] || !IsDigit(t[0]))
  {
    var negative := |s| > 0 && s[0] == '-';
    var t := if negative then s[1..] else s;
    assert s == SignText(negative) + t by {
      if negative { assert s == [s[0]] + s[1..]; }
    }
    var (integer, afterInteger) := Span(t, IsDigit);
    if integer == [] then None
    else
      var (fraction, rest) := Fraction(afterInteger);
      NumeralThenConsumes(Numeral(negative, integer, fraction), rest);
      Some((Numeral(negative, integer, fraction), rest))
  }

  lemma FractionRoundTrip(fraction: Option<string>, rest: string)
    requires fraction.Some? ==> AllDigits(fraction.value) && (rest == [] || !IsDigit(rest[0]))
    requires fraction.None? ==> rest == [] || rest[0] != '.'
    ensures Fraction(FractionText(fraction) + rest) == (fraction, rest)
  {
    match fraction
    case None =>
      assert FractionText(fraction) + rest == rest;
    case Some(digits) =>
      assert (FractionText(fraction) + rest)[1..] == digits + rest;
      SpanUnique(digits, rest, IsDigit);
  }

  /** The number rule reads back exactly the numeral that was written. */
  lemma NumberRoundTrip(n: Numeral, rest: string)
    requires WellFormedNumeral(n)
    requires rest == [] || (!IsDigit(rest[0]) && rest[0] != '.')
    ensures NumberRule(NumeralThen(n, rest)) == Some((n, rest))
  {
    var s := NumeralThen(n, rest);
    var frac := FractionText(n.fraction) + rest;
    var t := n.integer + frac;
    assert (|s| > 0 && s[0] == '-') == n.negative by {
      if !n.negative { assert s[0] == n.integer[0]; }
    }
    assert (if n.negative then s[1..] else s) == t;
    assert frac == [] || !IsDigit(frac[0]) by {
      if n.fraction.Some? { assert frac[0] == '.'; } else { assert frac == rest; }
    }
    SpanUnique(n.integer, frac, IsDigit);
    FractionRoundTrip(n.fraction, rest);
  }

  // --------------------------------------------------------------- strings

  /** `v` written between quotes `q`: every `q` inside is preceded by a backslash. */
  function Escape(v: string, q: char): (e: string)
    ensures |e| >= |v|
    decreases |v|
  {
    if v == [] then []
    else (if v[0] == q then ['\\', q] else [v[0]]) + Escape(v[1..], q)
  }

  lemma {:induction false} EscapeAppend(a: string, b: string, q: char)
    ensures Escape(a + b, q) == Escape(a, q) + Escape(b, q)
    decreases |a|
  {
    if a == [] {
      assert a + b == b;
    } else {
      assert (a + b)[1..] == a[1..] + b;
      EscapeAppend(a[1..], b, q);
      var h := if a[0] == q then ['\\', q] else [a[0]];
      AppendAssoc(h, Escape(a[1..], q), Escape(b, q));
    }
  }

  /** A text without quote characters is written unchanged. */
  lemma {:induction false} EscapeVerbatim(v: string, q: char)
    requires forall i | 0 <= i < |v| :: v[i] != q
    ensures Escape(v, q) == v
    decreases |v|
  {
    if v != [] {
      EscapeVerbatim(v[1..], q);
      assert v == [v[0]] + v[1..];
    }
  }

  predicate NoBackslash(v: string) { forall i | 0 <= i < |v| :: v[i] != '\\' }

  /**
   * The content of a quoted string up to (not including) the closing quote `q`:
   * `\q` stands for `q`, every other character other than a backslash is copied.
   * Returns the unescaped text and the remaining input.
   */
  function QuotedBody(s: string, q: char): (r: (string, string))
    requires q != '\\'
    ensures s == Escape(r.0, q) + r.1
    ensures NoBackslash(r.0)
    decreases |s|
  {
    if |s| == 0 then ([], s)
    else if |s| >= 2 && s[0] == '\\' && s[1] == q then
      var (body, rest) := QuotedBody(s[2..], q);
      EscapedQuoteFirst(s, q, body, rest);
      ([q] + body, rest)
    else
      match TakeUntilEither(s, {'\\', q})
      case None => ([], s)
      case Some((run, afterRun)) =>
        var (body, rest) := QuotedBody(afterRun, q);
        PlainRunFirst(s, q, run, afterRun, body, rest);
        (run + body, rest)
  }

  /** An escaped quote, then the escaped text of `body`: the quote joins the body. */
  lemma EscapedQuoteFirst(s: string, q: char, body: string, rest: string)
    requires q != '\\' && |s| >= 2 && s[0] == '\\' && s[1] == q
    requires s[2..] == Escape(body, q) + rest && NoBackslash(body)
    ensures s == Escape([q] + body, q) + rest && NoBackslash([q] + body)
  {
    assert ([q] + body)[1..] == body;
    assert s == ['\\', q] + s[2..];
    AppendAssoc(['\\', q], Escape(body, q), rest);
  }

  /** A run without backslashes or quotes, then the escaped text of `body`: the run joins the body. */
  lemma PlainRunFirst(s: string, q: char, run: string, afterRun: string, body: string, rest: string)
    requires TakeUntilEither(s, {'\\', q}) == Some((run, afterRun))
    requires afterRun == Escape(body, q) + rest && NoBackslash(body)
    ensures s == Escape(run + body, q) + rest && NoBackslash(run + body)
  {
    EscapeAppend(run, body, q);
    EscapeVerbatim(run, q);
    AppendAssoc(run, Escape(body, q), rest);
  }

  /**
   * The accumulating fold over the items of a quoted string: each escaped quote
   * pushes one quote, each plain run is appended as it is.
   */
  method UnescapeQuoted(s: string, q: char) returns (body: string, rest: string)
    requires q != '\\'
    ensures (body, rest) == QuotedBody(s, q)
  {
    body, rest := [], s;
    while |rest| > 0
      invariant body + QuotedBody(rest, q).0 == QuotedBody(s, q).0
      invariant QuotedBody(rest, q).1 == QuotedBody(s, q).1
      decreases |rest|
    {
      if |rest| >= 2 && rest[0] == '\\' && rest[1] == q {
        assert QuotedBody(rest, q).0 == [q] + QuotedBody(rest[2..], q).0;
        AppendAssoc(body, [q], QuotedBody(rest[2..], q).0);
        body := body + [q];
        rest := rest[2..];
      } else {
        var item := TakeUntilEither(rest, {'\\', q});
        if item.None? {
          assert QuotedBody(rest, q) == ([], rest);
          break;
        }
        AppendAssoc(body, item.value.0, QuotedBody(item.value.1, q).0);
        body := body + item.value.0;
        rest := item.value.1;
      }
    }
    assert QuotedBody(rest, q) == ([], rest);
    assert body + [] == body;
  }

  /** A string between quotes `q`, un-escaped. */
  function Quoted(s: string, q: char): (r: Option<(string, string)>)
    requires q != '\\'
    ensures r.Some? ==> s == [q] + (Escape(r.value.0, q) + ([q] + r.value.1))
    ensures r.Some? ==> NoBackslash(r.value.0)
  {
    if |s| > 0 && s[0] == q then
      var (body, rest) := QuotedBody(s[1..], q);
      if |rest| > 0 && rest[0] == q then
        assert s == [q] + s[1..];
        assert rest == [q] + rest[1..];
        Some((body, rest[1..]))
      else None
    else None
  }

  /** Reading back an escaped string gives the original text. */
  lemma {:induction false} QuotedBodyRoundTrip(v: string, q: char, rest: string)
    requires q != '\\' && NoBackslash(v)
    ensures QuotedBody(Escape(v, q) + ([q] + rest), q) == (v, [q] + rest)
    decreases |v|
  {
    var closing := [q] + rest;
    var s := Escape(v, q) + closing;
    if v == [] {
      assert s == closing;
      assert FirstIndexIn(s, {'\\', q}) == 0;
    } else if v[0] == q {
      assert Escape(v, q) == ['\\', q] + Escape(v[1..], q);
      AppendAssoc(['\\', q], Escape(v[1..], q), closing);
      assert s[2..] == Escape(v[1..], q) + closing;
      QuotedBodyRoundTrip(v[1..], q, rest);
      assert v == [q] + v[1..];
    } else {
      var n := FirstIndexIn(v, {q});
      var run, tail := v[..n], v[n..];
      assert v == run + tail;
      EscapeAppend(run, tail, q);
      EscapeVerbatim(run, q);
      var after := Escape(tail, q) + closing;
      AppendAssoc(run, Escape(tail, q), closing);
      assert s == run + after;
      assert after[0] in {'\\', q} by {
        if tail == [] { assert after[0] == q; }
        else { assert Escape(tail, q)[0] == '\\'; }
      }
      QuotedBodySkipsRun(run, after, q);
      QuotedBodyRoundTrip(tail, q, rest);
    }
  }

  /** A run free of quotes and backslashes is copied into the body as it is. */
  lemma {:induction false} QuotedBodySkipsRun(run: string, after: string, q: char)
    requires q != '\\' && run != []
    requires forall i | 0 <= i < |run| :: run[i] != q && run[i] != '\\'
    requires after != [] && after[0] in {'\\', q}
    ensures QuotedBody(run + after, q) == (run + QuotedBody(after, q).0, QuotedBody(after, q).1)
  {
    var s := run + after;
    assert s[0] == run[0];
    forall i | 0 <= i < |run| ensures s[i] !in {'\\', q} {
      assert s[i] == run[i];
    }
    FirstIndexAt(s, {'\\', q}, |run|);
    assert s[..|run|] == run && s[|run|..] == after;
  }

  lemma {:induction false} FirstIndexAt(s: string, stops: set<char>, n: nat)
    requires n < |s| && s[n] in stops
    requires forall i | 0 <= i < n :: s[i] !in stops
    ensures FirstIndexIn(s, stops) == n
  {
  }

  /** The quoted-string rule inverts escaping for any text without backslashes. */
  lemma {:induction false} QuotedRoundTrip(v: string, q: char, rest: string)
    requires q != '\\' && NoBackslash(v)
    ensures Quoted([q] + (Escape(v, q) + ([q] + rest)), q) == Some((v, rest))
  {
    QuotedBodyRoundTrip(v, q, rest);
    assert ([q] + rest)[1..] == rest;
  }

  /** Single-quoted first, then double-quoted. */
  function StringRule(s: string): (r: Option<(string, string)>)
    ensures r.Some? ==> Consumes(s, r.value.1)
  {
    match Quoted(s, '\'')
    case Some(v) => Some(v)
    case None => Quoted(s, '"')
  }

  // ----------------------------------------------------------------- names

  /**
   * The fold over the items of a bare name (runs of letters and digits, single
   * `-` or `_`), each appended to the accumulated name.
   */
  method FoldName(s: string) returns (name: string, rest: string)
    ensures (name, rest) == Span(s, IsNameChar)
  {
    name, rest := [], s;
    while |rest| > 0
      invariant s == name + rest
      invariant forall i | 0 <= i < |name| :: IsNameChar(name[i])
      decreases |rest|
    {
      var (run, afterRun) := Span(rest, IsAlphanumeric);
      if run != [] {
        AppendAssoc(name, run, afterRun);
        name, rest := name + run, afterRun;
      } else if rest[0] == '-' || rest[0] == '_' {
        assert rest == rest[..1] + rest[1..];
        AppendAssoc(name, rest[..1], rest[1..]);
        name, rest := name + rest[..1], rest[1..];
      } else {
        break;
      }
    }
    SpanUnique(name, rest, IsNameChar);
  }

  /** A bare name (letters, digits, `-`, `_`) or, failing that, a quoted string. */
  function NameRule(s: string): (r: Option<(string, string)>)
    ensures r.Some? ==> Consumes(s, r.value.1)
    ensures s != [] && IsNameChar(s[0]) ==>
      && r.Some? && s == r.value.0 + r.value.1
      && (forall i | 0 <= i < |r.value.0| :: IsNameChar(r.value.0[i]))
      && (r.value.1 == [] || !IsNameChar(r.value.1[0]))
    ensures (s == [] || !IsNameChar(s[0])) ==> r == StringRule(s)
  {
    var (name, rest) := Span(s, IsNameChar);
    if name != [] then Some((name, rest)) else StringRule(s)
  }

  /** A bare name reads back as itself when what follows cannot extend it. */
  lemma NameRoundTrip(name: string, rest: string)
    requires name != [] && forall i | 0 <= i < |name| :: IsNameChar(name[i])
    requires rest == [] || !IsNameChar(rest[0])
    ensures NameRule(name + rest) == Some((name, rest))
  {
    SpanUnique(name, rest, IsNameChar);
  }

  // ------------------------------------------------------------- selectors

  /** A selector element: non-empty and free of `]` and `,`. */
  predicate WellFormedSegment(e: string) { e != [] && forall i | 0 <= i < |e| :: e[i] != ']' && e[i] != ',' }

  function SelectorText(elements: seq<string>): string
  {
    if elements == [] then [] else "[" + elements[0] + "]" + SelectorText(elements[1..])
  }

  /** `[` segment `]` where the segment is a non-empty run without `]` or `,`. */
  function Segment(s: string): (r: Option<(string, string)>)
    ensures r.Some? ==> WellFormedSegment(r.value.0) && s == "[" + r.value.0 + "]" + r.value.1
  {
    if StartsWith(s, "[") then
      match TakeUntilEither(s[1..], {']', ','})
      case None => None
      case Some((e, afterSegment)) =>
        if StartsWith(afterSegment, "]") then
          SegmentSplit(s, e, afterSegment);
          Some((e, afterSegment[1..]))
        else None
    else None
  }

  /** The bracket, the segment, the closing bracket and what follows make up the input. */
  lemma SegmentSplit(s: string, e: string, afterSegment: string)
    requires StartsWith(s, "[") && StartsWith(afterSegment, "]")
    requires s[1..] == e + afterSegment
    ensures s == "[" + e + "]" + afterSegment[1..]
  {
    assert s == [s[0]] + s[1..];
    assert afterSegment == [afterSegment[0]] + afterSegment[1..];
  }

  lemma {:induction false} SelectorTextCons(e: string, es: seq<string>, rest: string)
    ensures SelectorText([e] + es) + rest == "[" + e + "]" + (SelectorText(es) + rest)
  {
    assert ([e] + es)[1..] == es;
    var h, t := "[" + e + "]", SelectorText(es);
    assert h + (t + rest) == (h + t) + rest;
  }

  /** Zero or more segments. */
  function Segments(s: string): (r: (seq<string>, string))
    ensures s == SelectorText(r.0) + r.1
    ensures forall i | 0 <= i < |r.0| :: WellFormedSegment(r.0[i])
    ensures Segment(r.1).None?
    decreases |s|
  {
    match Segment(s)
    case None => ([], s)
    case Some((e, rest)) =>
      var (es, rest') := Segments(rest);
      SelectorTextCons(e, es, rest');
      assert ([e] + es)[1..] == es;
      ([e] + es, rest')
  }

  /** One or more segments, in source order. */
  function SelectorRule(s: string): (r: Option<(Selector, string)>)
    ensures r.Some? ==> r.value.0.elements != []
    ensures r.Some? ==> s == SelectorText(r.value.0.elements) + r.value.1
    ensures r.Some? ==> Consumes(s, r.value.1)
    ensures r.Some? ==> forall i | 0 <= i < |r.value.0.elements| :: WellFormedSegment(r.value.0.elements[i])
    ensures r.None? <==> Segment(s).None?
  {
    match Segment(s)
    case None => None
    case Some((e, rest)) =>
      var (es, rest') := Segments(rest);
      SelectorTextCons(e, es, rest');
      AppendRemains(SelectorText([e] + es), rest');
      Some((Selector.Selector([e] + es), rest'))
  }

  lemma SegmentRoundTrip(e: string, after: string)
    requires WellFormedSegment(e)
    ensures Segment("[" + e + "]" + after) == Some((e, after))
  {
    var s := "[" + e + "]" + after;
    var inner := e + ("]" + after);
    assert s == "[" + inner && s[1..] == inner;
    forall i | 0 <= i < |e| ensures inner[i] !in {']', ','} {
      assert inner[i] == e[i];
    }
    assert inner[|e|] == ']';
    FirstIndexAt(inner, {']', ','}, |e|);
    assert inner[..|e|] == e && inner[|e|..] == "]" + after;
    assert ("]" + after)[1..] == after;
  }

  lemma {:induction false} SegmentsRoundTrip(elements: seq<string>, rest: string)
    requires forall i | 0 <= i < |elements| :: WellFormedSegment(elements[i])
    requires rest == [] || rest[0] != '['
    ensures Segments(SelectorText(elements) + rest) == (elements, rest)
    decreases |elements|
  {
    if elements == [] {
      assert SelectorText(elements) + rest == rest;
      assert !StartsWith(rest, "[");
    } else {
      var e, es := elements[0], elements[1..];
      assert elements == [e] + es;
      SelectorTextCons(e, es, rest);
      SegmentRoundTrip(e, SelectorText(es) + rest);
      SegmentsRoundTrip(es, rest);
    }
  }

  lemma SelectorRoundTrip(sel: Selector, rest: string)
    requires sel.elements != []
    requires forall i | 0 <= i < |sel.elements| :: WellFormedSegment(sel.elements[i])
    requires rest == [] || rest[0] != '['
    ensures SelectorRule(SelectorText(sel.elements) + rest) == Some((sel, rest))
  {
    var e, es := sel.elements[0], sel.elements[1..];
    assert sel.elements == [e] + es;
    SelectorTextCons(e, es, rest);
    SegmentRoundTrip(e, SelectorText(es) + rest);
    SegmentsRoundTrip(es, rest);
  }

  // ------------------------------------------------------------- operators

  /** Two-character operators are tried before `<` and `>`. */
  function CompareOperatorRule(s: string): (r: Option<(CompareOperator, string)>)
    ensures r.Some? ==> s == CompareText(r.value.0) + r.value.1
  {
    if StartsWith(s, "==") then Some((Eq, s[2..]))
    else if StartsWith(s, "!=") then Some((Ne, s[2..]))
    else if StartsWith(s, "<=") then Some((Le, s[2..]))
    else if StartsWith(s, ">=") then Some((Ge, s[2..]))
    else if StartsWith(s, "<") then Some((Lt, s[1..]))
    else if StartsWith(s, ">") then Some((Gt, s[1..]))
    else None
  }

  /** Every operator's text reads back as that operator, whatever follows it but `=`. */
  lemma CompareOperatorRoundTrip(op: CompareOperator, rest: string)
    requires rest == [] || rest[0] != '='
    ensures CompareOperatorRule(CompareText(op) + rest) == Some((op, rest))
  {
    var s := CompareText(op) + rest;
    assert s[..|CompareText(op)|] == CompareText(op);
    if |CompareText(op)| == 1 && rest != [] {
      assert s[1] == rest[0];
    }
  }

  function BoolOperatorRule(s: string): (r: Option<(BoolOperator, string)>)
    ensures r.Some? ==> s == BoolOperatorText(r.value.0) + r.value.1
    ensures r.None? <==> !StartsWith(s, "and") && !StartsWith(s, "or")
  {
    if StartsWith(s, "and") then Some((And, s[3..]))
    else if StartsWith(s, "or") then Some((Or, s[2..]))
    else None
  }

  lemma BoolOperatorRoundTrip(op: BoolOperator, rest: string)
    ensures BoolOperatorRule(BoolOperatorText(op) + rest) == Some((op, rest))
  {
    var s := BoolOperatorText(op) + rest;
    assert s[..|BoolOperatorText(op)|] == BoolOperatorText(op);
    assert s[0] == BoolOperatorText(op)[0];
  }
}
