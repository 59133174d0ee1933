/**
 * The three token grammars of a query (`strCondition`, `strPathDoc`,
 * `strFunction`), written out as scanners over the query text. Each
 * scanner looks at the text from the shared cursor on; since every
 * grammar ends in a catch-all alternative, a token is found at the
 * cursor whenever text remains. The catch-all is reported as an
 * `Other` token and the caller decides what to do with it.
 */
module PathScan {
  import opened Wrappers
  import opened Values
  import PathAst

  // ---------------------------------------------------------------------
  // Character classes
  // ---------------------------------------------------------------------

  /** `\s`: the white space and line terminator characters. */
  predicate IsSpace(c: char) {
    c == ' ' || c == '\t' || c == '\n' || c == '\r' || c == '\U{000B}' || c == '\U{000C}' ||
    c == '\U{00A0}' || c == '\U{1680}' || ('\U{2000}' <= c <= '\U{200A}') ||
    c == '\U{2028}' || c == '\U{2029}' || c == '\U{202F}' || c == '\U{205F}' ||
    c == '\U{3000}' || c == '\U{FEFF}'
  }

  /** `\w` */
  predicate IsWord(c: char) {
    ('a' <= c <= 'z') || ('A' <= c <= 'Z') || IsDigit(c) || c == '_'
  }

  predicate IsLower(c: char) { 'a' <= c <= 'z' }

  /** `[a-z0-9\-]`: the characters after the first of a field name. */
  predicate IsNameChar(c: char) { IsLower(c) || IsDigit(c) || c == '-' }

  /** `[a-z0-9_]`: the characters of a variable in a path. */
  predicate IsVarChar(c: char) { IsLower(c) || IsDigit(c) || c == '_' }

  predicate IsFlag(c: char) { c == 'i' || c == 'g' || c == 'm' }

  /** The end of the longest run of characters satisfying `p` from `i`. */
  function Run(s: string, i: nat, p: char -> bool): (j: nat)
    requires i <= |s|
    ensures i <= j <= |s|
    ensures forall k | i <= k < j :: p(s[k])
    ensures j == |s| || !p(s[j])
    decreases |s| - i
  {
    if i == |s| || !p(s[i]) then i else Run(s, i + 1, p)
  }

  function SkipSpaces(s: string, i: nat): (j: nat)
    requires i <= |s|
    ensures i <= j <= |s|
    ensures forall k | i <= k < j :: IsSpace(s[k])
    ensures j == |s| || !IsSpace(s[j])
  {
    Run(s, i, IsSpace)
  }

  /** An optional `.` after a token. */
  function SkipDot(s: string, i: nat): (j: nat)
    requires i <= |s|
    ensures j == i || (j == i + 1 && i < |s| && s[i] == '.')
  {
    if i < |s| && s[i] == '.' then i + 1 else i
  }

  // ---------------------------------------------------------------------
  // Delimited bodies: strings, regular expressions, call arguments
  // ---------------------------------------------------------------------

  /** Position `k` holds `q` and the character before it is not a backslash. */
  predicate Unescaped(s: string, k: nat, q: char)
    requires 1 <= k < |s|
  {
    s[k] == q && s[k - 1] != '\\'
  }

  predicate Escaped(s: string, k: nat, q: char)
    requires 1 <= k < |s|
  {
    s[k] == q && s[k - 1] == '\\'
  }

  function FirstUnescaped(s: string, k: nat, q: char): (r: Option<nat>)
    requires 1 <= k <= |s|
    ensures r.Some? ==> (k <= r.value < |s| && Unescaped(s, r.value, q) &&
      forall j | k <= j < r.value :: !Unescaped(s, j, q))
    ensures r.None? ==> forall j | k <= j < |s| :: !Unescaped(s, j, q)
    decreases |s| - k
  {
    if k == |s| then None
    else if Unescaped(s, k, q) then Some(k)
    else FirstUnescaped(s, k + 1, q)
  }

  /** The last escaped `q` in `s[from..hi]`. */
  function LastEscaped(s: string, from: nat, hi: nat, q: char): (r: Option<nat>)
    requires 1 <= from <= hi <= |s|
    ensures r.Some? ==> (from <= r.value < hi && Escaped(s, r.value, q) &&
      forall j | r.value < j < hi :: !Escaped(s, j, q))
    ensures r.None? ==> forall j | from <= j < hi :: !Escaped(s, j, q)
    decreases hi - from
  {
    if hi == from then None
    else if Escaped(s, hi - 1, q) then Some(hi - 1)
    else LastEscaped(s, from, hi - 1, q)
  }

  /**
   * Where a body opened just before `from` closes: the body may hold any
   * character and `q` only behind a backslash, and the grammar's greedy
   * repetition closes at the first `q` without one; when there is none it
   * backtracks to the last `q` that has one.
   */
  function CloseDelimiter(s: string, from: nat, q: char): (r: Option<nat>)
    requires 1 <= from <= |s|
    ensures r.Some? ==> from <= r.value < |s| && s[r.value] == q
    ensures FirstUnescaped(s, from, q).Some? ==> r == FirstUnescaped(s, from, q)
  {
    var first := FirstUnescaped(s, from, q);
    if first.Some? then first else LastEscaped(s, from, |s|, q)
  }

  /** `body.replace(/\\q/g, q)`: every backslash-quote pair becomes the quote, left to right. */
  function DropQuoteEscapes(body: string, q: char): (r: string)
    ensures |r| <= |body|
  {
    if body == [] then []
    else if |body| >= 2 && body[0] == '\\' && body[1] == q then [q] + DropQuoteEscapes(body[2..], q)
    else [body[0]] + DropQuoteEscapes(body[1..], q)
  }

  /** How a query author writes text inside quotes: a backslash before each quote. */
  function EscapeQuotes(t: string, q: char): string {
    if t == [] then []
    else (if t[0] == q then ['\\', q] else [t[0]]) + EscapeQuotes(t[1..], q)
  }

  lemma {:induction false} DropEscapeQuotes(t: string, q: char)
    requires q != '\\'
    ensures DropQuoteEscapes(EscapeQuotes(t, q), q) == t
  {
    if t != [] {
      var e := EscapeQuotes(t[1..], q);
      DropEscapeQuotes(t[1..], q);
      if t[0] == q {
        assert EscapeQuotes(t, q) == ['\\', q] + e;
        assert (['\\', q] + e)[2..] == e;
      } else {
        assert EscapeQuotes(t, q) == [t[0]] + e;
        assert ([t[0]] + e)[1..] == e;
        if t[0] == '\\' && |e| >= 1 {
          EscapeQuotesHead(t[1..], q);
        }
      }
      assert t == [t[0]] + t[1..];
    }
  }

  /** Escaped text never starts with a bare quote. */
  lemma EscapeQuotesHead(t: string, q: char)
    requires |EscapeQuotes(t, q)| >= 1 && q != '\\'
    ensures EscapeQuotes(t, q)[0] != q
  {
  }

  lemma {:induction false} EscapeQuotesLength(t: string, q: char)
    ensures |EscapeQuotes(t, q)| >= |t|
    ensures |t| >= 1 && t[|t| - 1] != '\\' && t[|t| - 1] != q ==>
      EscapeQuotes(t, q)[|EscapeQuotes(t, q)| - 1] == t[|t| - 1]
  {
    if t != [] {
      EscapeQuotesLength(t[1..], q);
    }
  }

  /** In escaped text every quote has a backslash in front of it. */
  lemma {:induction false} EscapeQuotesGuarded(t: string, q: char)
    requires q != '\\'
    ensures forall j | 0 <= j < |EscapeQuotes(t, q)| && EscapeQuotes(t, q)[j] == q ::
      j >= 1 && EscapeQuotes(t, q)[j - 1] == '\\'
  {
    if t != [] {
      EscapeQuotesGuarded(t[1..], q);
      var head: string := if t[0] == q then ['\\', q] else [t[0]];
      var e := EscapeQuotes(t[1..], q);
      assert EscapeQuotes(t, q) == head + e;
      forall j | 0 <= j < |head + e| && (head + e)[j] == q
        ensures j >= 1 && (head + e)[j - 1] == '\\'
      {
        if j >= |head| {
          var k := j - |head|;
          assert e[k] == q;
        }
      }
    }
  }

  // ---------------------------------------------------------------------
  // Numbers in conditions
  // ---------------------------------------------------------------------

  /** A position where the number's look-ahead `(?!\.|:)` holds. */
  predicate NumberMayEnd(s: string, k: nat)
    requires k <= |s|
  {
    k == |s| || (s[k] != '.' && s[k] != ':')
  }

  /**
   * The end of `[0-9]+(?:\.[0-9]+)?(?!\.|:)` at `q`, with the regular
   * expression's backtracking: the longest candidate first, then shorter
   * fractions, then the integer part alone, then one digit less.
   */
  function NumberEnd(s: string, q: nat): (r: Option<nat>)
    requires q < |s| && IsDigit(s[q])
    ensures r.Some? ==> q < r.value <= |s| && NumberMayEnd(s, r.value)
  {
    var e1 := Run(s, q, IsDigit);
    var shorter: Option<nat> := if e1 - q >= 2 then Some(e1 - 1) else None;
    if e1 + 1 < |s| && s[e1] == '.' && IsDigit(s[e1 + 1]) then
      var e2 := Run(s, e1 + 1, IsDigit);
      if NumberMayEnd(s, e2) then Some(e2)
      else if e2 - (e1 + 1) >= 2 then Some(e2 - 1)
      else shorter
    else if NumberMayEnd(s, e1) then Some(e1)
    else shorter
  }

  // ---------------------------------------------------------------------
  // The condition grammar
  // ---------------------------------------------------------------------

  datatype CondToken =
    | OpTok(op: string)                   // `!=` or one or two of `<>=`
    | BangTok(count: nat)                 // a run of `!`
    | NextTok(combinator: string)         // `&` or `|`
    | OpenTok                             // `[` or `(`
    | CloseTok                            // `]` or `)`, and an optional `.`
    | NumTok(text: string)                // digits, possibly with a fraction
    | BoolTok(b: bool)                    // `true` or `false`
    | StrTok(text: string)                // a quoted string, escapes dropped
    | RegexTok(source: string, flags: string)
    | VarTok(name: string)                // `$name`
    | OtherTok                            // anything else: re-read as a path

  predicate IsOpChar(c: char) { c == '<' || c == '>' || c == '=' }

  /** The token a condition alternative matches at `q` (after the leading blanks), and where it ends. */
  function CondAt(s: string, q: nat): (r: Option<(CondToken, nat)>)
    requires q <= |s|
    ensures r.Some? ==> q < r.value.1 <= |s|
    ensures q == |s| ==> r.None?
  {
    if q == |s| then None
    else
      var c := s[q];
      if c == '!' && q + 1 < |s| && s[q + 1] == '=' then Some((OpTok("!="), q + 2))
      else if IsOpChar(c) then
        var e := if q + 1 < |s| && IsOpChar(s[q + 1]) then q + 2 else q + 1;
        Some((OpTok(s[q..e]), e))
      else if c == '!' then
        var e := Run(s, q, (x: char) => x == '!');
        Some((BangTok(e - q), e))
      else if c == '&' || c == '|' then Some((NextTok([c]), q + 1))
      else if c == '[' || c == '(' then Some((OpenTok, q + 1))
      else if c == ']' || c == ')' then Some((CloseTok, SkipDot(s, q + 1)))
      else if IsDigit(c) && NumberEnd(s, q).Some? then
        var e := NumberEnd(s, q).value;
        Some((NumTok(s[q..e]), e))
      else if q + 4 <= |s| && s[q..q + 4] == "true" then Some((BoolTok(true), q + 4))
      else if q + 5 <= |s| && s[q..q + 5] == "false" then Some((BoolTok(false), q + 5))
      else if (c == '"' || c == '\'') && CloseDelimiter(s, q + 1, c).Some? then
        var k := CloseDelimiter(s, q + 1, c).value;
        Some((StrTok(DropQuoteEscapes(s[q + 1..k], c)), k + 1))
      else if c == '/' && CloseDelimiter(s, q + 1, '/').Some? then
        Some(RegexAt(s, q, CloseDelimiter(s, q + 1, '/').value))
      else if c == '$' && q + 1 < |s| && IsWord(s[q + 1]) then
        var e := Run(s, q + 1, IsWord);
        Some((VarTok(s[q + 1..e]), e))
      else None
  }

  /** A regular expression whose closing `/` is at `k`, with at most three flags after it. */
  function RegexAt(s: string, q: nat, k: nat): (r: (CondToken, nat))
    requires q < k < |s|
    ensures k < r.1 <= |s|
  {
    var f := Run(s, k + 1, IsFlag);
    var fe := if f - (k + 1) > 3 then k + 4 else f;
    (RegexTok(s[q + 1..k], s[k + 1..fe]), fe)
  }

  /**
   * `regCondition.exec` at the cursor: `None` exactly when no text is
   * left; otherwise the token and the cursor after it and the blanks that
   * follow. A catch-all match ends at the end of the text.
   */
  function ScanCondition(s: string, i: nat): (r: Option<(CondToken, nat)>)
    requires i <= |s|
    ensures r.None? <==> i == |s|
    ensures r.Some? ==> i < r.value.1 <= |s|
  {
    if i == |s| then None
    else
      var q := SkipSpaces(s, i);
      var t := CondAt(s, q);
      if t.Some? then Some((t.value.0, SkipSpaces(s, t.value.1))) else Some((OtherTok, |s|))
  }

  /** No keyword starts at a position holding a character other than `t` or `f`. */
  lemma NoKeyword(s: string, q: nat)
    requires q < |s| && s[q] != 't' && s[q] != 'f'
    ensures !(q + 4 <= |s| && s[q..q + 4] == "true") && !(q + 5 <= |s| && s[q..q + 5] == "false")
  {
    if q + 4 <= |s| { assert s[q..q + 4][0] == s[q]; }
    if q + 5 <= |s| { assert s[q..q + 5][0] == s[q]; }
  }

  /** A quote whose closing quote is found starts a string token running through it. */
  lemma CondAtQuote(s: string, q: nat, c: char, k: nat)
    requires q < |s| && s[q] == c && (c == '"' || c == '\'') && CloseDelimiter(s, q + 1, c) == Some(k)
    ensures CondAt(s, q) == Some((StrTok(DropQuoteEscapes(s[q + 1..k], c)), k + 1))
  {
    NoKeyword(s, q);
  }

  /**
   * A string written with a backslash before each of its quotes scans back
   * as that very string, provided it does not end in a backslash (which
   * would escape the closing quote).
   */
  lemma ScanStringLiteral(t: string, q: char, rest: string)
    requires q == '"' || q == '\''
    requires t == [] || t[|t| - 1] != '\\'
    ensures var s := [q] + EscapeQuotes(t, q) + [q] + rest;
      CondAt(s, 0) == Some((StrTok(t), |EscapeQuotes(t, q)| + 2))
  {
    EscapedBodyCloses(t, q, rest);
    DropEscapeQuotes(t, q);
    QuotedScans(q, EscapeQuotes(t, q), rest, t);
  }

  /** A quoted body whose closing quote is the one written after it scans as its unescaped text. */
  lemma QuotedScans(q: char, e: string, rest: string, t: string)
    requires q == '"' || q == '\''
    requires CloseDelimiter([q] + e + [q] + rest, 1, q) == Some(|e| + 1) && DropQuoteEscapes(e, q) == t
    ensures CondAt([q] + e + [q] + rest, 0) == Some((StrTok(t), |e| + 2))
  {
    QuotedBody(q, e, rest);
    StringTokenAtStart([q] + e + [q] + rest, q, e, t);
  }

  lemma QuotedBody(q: char, e: string, rest: string)
    ensures var s := [q] + e + [q] + rest; s[0] == q && s[1..|e| + 1] == e
  {
  }

  lemma StringTokenAtStart(s: string, q: char, e: string, t: string)
    requires 0 < |s| && s[0] == q && (q == '"' || q == '\'')
    requires CloseDelimiter(s, 1, q) == Some(|e| + 1) && s[1..|e| + 1] == e && DropQuoteEscapes(e, q) == t
    ensures CondAt(s, 0) == Some((StrTok(t), |e| + 2))
  {
    CondAtQuote(s, 0, q, |e| + 1);
  }

  /** The quote written after escaped text is the body's closing quote. */
  lemma EscapedBodyCloses(t: string, q: char, rest: string)
    requires q == '"' || q == '\''
    requires t == [] || t[|t| - 1] != '\\'
    ensures var s := [q] + EscapeQuotes(t, q) + [q] + rest;
      CloseDelimiter(s, 1, q) == Some(|EscapeQuotes(t, q)| + 1)
  {
    var e := EscapeQuotes(t, q);
    var s := [q] + e + [q] + rest;
    var k := |e| + 1;
    EscapeQuotesGuarded(t, q);
    forall j | 1 <= j < k
      ensures !Unescaped(s, j, q)
    {
      assert s[j] == e[j - 1];
      if s[j] == q {
        assert j - 1 >= 1 && e[j - 2] == '\\';
        assert s[j - 1] == e[j - 2];
      }
    }
    assert Unescaped(s, k, q) by {
      assert s[k] == q;
      if |e| == 0 {
        assert s[k - 1] == q;
      } else {
        EscapeQuotesLength(t, q);
        assert s[k - 1] == e[|e| - 1];
        if t[|t| - 1] == q {
          EscapeQuotesLast(t, q);
        }
      }
    }
    FirstUnescapedIs(s, 1, k, q);
  }

  /** Escaped text that ends in a quote ends in that quote. */
  lemma {:induction false} EscapeQuotesLast(t: string, q: char)
    requires |t| >= 1 && t[|t| - 1] == q
    ensures |EscapeQuotes(t, q)| >= 1 && EscapeQuotes(t, q)[|EscapeQuotes(t, q)| - 1] == q
  {
    if |t| == 1 {
    } else {
      EscapeQuotesLast(t[1..], q);
      var head: string := if t[0] == q then ['\\', q] else [t[0]];
      assert EscapeQuotes(t, q) == head + EscapeQuotes(t[1..], q);
    }
  }

  lemma {:induction false} FirstUnescapedIs(s: string, from: nat, k: nat, q: char)
    requires 1 <= from <= k < |s|
    requires Unescaped(s, k, q)
    requires forall j | from <= j < k :: !Unescaped(s, j, q)
    ensures FirstUnescaped(s, from, q) == Some(k)
    decreases k - from
  {
    if from < k {
      FirstUnescapedIs(s, from + 1, k, q);
    }
  }

  // ---------------------------------------------------------------------
  // The path grammar
  // ---------------------------------------------------------------------

  datatype DocToken =
    | ParentTok                                  // `.`
    | SliceTok(start: int, limit: Option<nat>)   // `N~M`, `-N~M` or `-N`
    | NameTok(name: string)                      // digits or a lower-case name
    | RepeatTok(kind: PathAst.RepeatKind)        // `*`, `#` or `+`
    | DocVarTok(name: string)                    // `$name`
    | ColonTok                                   // `:`, a function chain follows
    | FilterTok                                  // `[` or `(`, a filter follows
    | DocOtherTok                                // anything else: the path ends here

  /** `(-?[0-9]+)~([0-9]+)` or `(-[0-9]+)` at `q`: the start, the limit and the end. */
  function SliceAt(s: string, q: nat): (r: Option<(int, Option<nat>, nat)>)
    requires q < |s|
    ensures r.Some? ==> q < r.value.2 <= |s|
  {
    var neg := s[q] == '-';
    var j := if neg then q + 1 else q;
    var m := Run(s, j, IsDigit);
    var magnitude: int := DigitsValue(s[j..m]);
    var start: int := if neg then -magnitude else magnitude;
    if m > j && m + 1 < |s| && s[m] == '~' && IsDigit(s[m + 1]) then
      var e := Run(s, m + 1, IsDigit);
      Some((start, Some(DigitsValue(s[m + 1..e])), e))
    else if neg && m > j then Some((start, None, m))
    else None
  }

  function DocAt(s: string, q: nat): (r: Option<(DocToken, nat)>)
    requires q <= |s|
    ensures r.Some? ==> q < r.value.1 <= |s|
    ensures q == |s| ==> r.None?
  {
    if q == |s| then None
    else
      var c := s[q];
      if c == '.' then Some((ParentTok, q + 1))
      else if SliceAt(s, q).Some? then
        var sl := SliceAt(s, q).value;
        Some((SliceTok(sl.0, sl.1), SkipDot(s, sl.2)))
      else if IsDigit(c) then
        var e := Run(s, q, IsDigit);
        Some((NameTok(s[q..e]), SkipDot(s, e)))
      else if IsLower(c) then
        var e := Run(s, q + 1, IsNameChar);
        Some((NameTok(s[q..e]), SkipDot(s, e)))
      else if c == '*' || c == '#' || c == '+' then
        var kind := if c == '*' then PathAst.Each else if c == '#' then PathAst.Deep else PathAst.Specific;
        Some((RepeatTok(kind), SkipDot(s, q + 1)))
      else if c == '$' && q + 1 < |s| && IsVarChar(s[q + 1]) then
        var e := Run(s, q + 1, IsVarChar);
        Some((DocVarTok(s[q + 1..e]), SkipDot(s, e)))
      else if c == ':' then Some((ColonTok, q + 1))
      else if c == '[' || c == '(' then Some((FilterTok, q + 1))
      else None
  }

  /** `regPathDoc.exec` at the cursor. */
  function ScanDoc(s: string, i: nat): (r: Option<(DocToken, nat)>)
    requires i <= |s|
    ensures r.None? <==> i == |s|
    ensures r.Some? ==> i < r.value.1 <= |s|
  {
    if i == |s| then None
    else
      var q := SkipSpaces(s, i);
      var t := DocAt(s, q);
      if t.Some? then Some((t.value.0, SkipSpaces(s, t.value.1))) else Some((DocOtherTok, |s|))
  }

  // ---------------------------------------------------------------------
  // The function grammar (no leading blanks)
  // ---------------------------------------------------------------------

  datatype FnToken =
    | DotFn                                         // `.`: a `toString` call
    | NamedFn(name: string, args: Option<string>)   // `name` or `name(args)`
    | FnOtherTok                                    // anything else: the chain ends

  /** `regFunction.exec` at the cursor. */
  function ScanFunction(s: string, i: nat): (r: Option<(FnToken, nat)>)
    requires i <= |s|
    ensures r.None? <==> i == |s|
    ensures r.Some? ==> i < r.value.1 <= |s|
  {
    if i == |s| then None
    else if s[i] == '.' then Some((DotFn, SkipSpaces(s, i + 1)))
    else if IsWord(s[i]) then
      var e := Run(s, i, IsWord);
      var close := if e < |s| && s[e] == '(' then CloseDelimiter(s, e + 1, ')') else None;
      var args := if close.Some? then Some(s[e + 1..close.value]) else None;
      var e2 := if close.Some? then close.value + 1 else e;
      Some((NamedFn(s[i..e], args), SkipSpaces(s, SkipDot(s, e2))))
    else Some((FnOtherTok, |s|))
  }
}
