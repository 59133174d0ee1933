/**
 * The query of the repository's filter test, `*.( maker == "Honda" & year > 2009 )`,
 * read by the scanners and the parser one token at a time. The lemmas
 * work on any text laid out like the query, character by character
 * (`Layout`); each fixes one scanner result at one position, and the
 * last ones assemble the query tree.
 */
module ScenarioParse {
  import opened Wrappers
  import opened Values
  import opened PathAst
  import opened PathScan
  import opened PathParse

  const TestPath: string := "*.( maker == \"Honda\" & year > 2009 )"

  const MakerField: Node := Field(Str("maker"), None)
  const YearField: Node := Field(Str("year"), None)
  const MakerTest: Cond := Cond(Some(NodeOperand(MakerField)), 0, "==",
    Some(Cond(Some(NodeOperand(PathAst.Literal(Str("Honda")))), 0, "", None, "")), "&")
  const YearTest: Cond := Cond(Some(NodeOperand(YearField)), 0, ">",
    Some(Cond(Some(NodeOperand(PathAst.Literal(Num(2009)))), 0, "", None, "")), "")
  const TestFilter: Group := Group([MakerTest, YearTest])
  const TestTree: Group := Group([EmptyCond.(child := Some(NodeOperand(Repeat(Each, Some(Filter(TestFilter, None))))))])

  /** The characters of the test query, position by position. */
  predicate Layout(s: string) {
    |s| == 36 && Layout1(s) && Layout2(s) && Layout3(s)
  }

  predicate Layout1(s: string)
    requires |s| == 36
  {
    s[0] == '*' && s[1] == '.' && s[2] == '(' && s[3] == ' ' &&
    s[4] == 'm' && s[5] == 'a' && s[6] == 'k' && s[7] == 'e' && s[8] == 'r' && s[9] == ' ' &&
    s[10] == '=' && s[11] == '=' && s[12] == ' '
  }

  predicate Layout2(s: string)
    requires |s| == 36
  {
    s[13] == '"' && s[14] == 'H' && s[15] == 'o' && s[16] == 'n' && s[17] == 'd' && s[18] == 'a' && s[19] == '"' &&
    s[20] == ' ' && s[21] == '&' && s[22] == ' '
  }

  predicate Layout3(s: string)
    requires |s| == 36
  {
    s[23] == 'y' && s[24] == 'e' && s[25] == 'a' && s[26] == 'r' && s[27] == ' ' &&
    s[28] == '>' && s[29] == ' ' &&
    s[30] == '2' && s[31] == '0' && s[32] == '0' && s[33] == '9' && s[34] == ' ' && s[35] == ')'
  }

  const Head: string := "*.( maker == "
  const Middle: string := "\"Honda\" & "
  const Tail: string := "year > 2009 )"

  lemma TestPathPieces()
    ensures TestPath == Head + Middle + Tail
  {
  }

  lemma TestPathLayout()
    ensures Layout(TestPath)
  {
    TestPathPieces();
    var s := TestPath;
    assert |s| == 36;
    assert Layout1(s) by {
      assert s[..13] == Head;
      assert forall k | 0 <= k < 13 :: s[k] == Head[k];
    }
    assert Layout2(s) by {
      assert s[13..23] == Middle;
      assert forall k | 13 <= k < 23 :: s[k] == Middle[k - 13];
    }
    assert Layout3(s) by {
      assert s[23..] == Tail;
      assert forall k | 23 <= k < 36 :: s[k] == Tail[k - 23];
    }
  }

  // ---------------------------------------------------------------------
  // Generic shapes of the scanners
  // ---------------------------------------------------------------------

  lemma {:induction false} RunExact(s: string, i: nat, j: nat, p: char -> bool)
    requires i <= j <= |s|
    requires forall k | i <= k < j :: p(s[k])
    requires j == |s| || !p(s[j])
    ensures Run(s, i, p) == j
    decreases j - i
  {
    if i < j { RunExact(s, i + 1, j, p); }
  }

  lemma SkipTo(s: string, i: nat, j: nat)
    requires i <= j <= |s|
    requires forall k | i <= k < j :: s[k] == ' '
    requires j == |s| || !IsSpace(s[j])
    ensures SkipSpaces(s, i) == j
  {
    RunExact(s, i, j, IsSpace);
  }

  /** A slice needs a digit or a minus sign at its start. */
  lemma NoSlice(s: string, q: nat)
    requires q < |s| && s[q] != '-' && !IsDigit(s[q])
    ensures SliceAt(s, q).None?
  {
    RunExact(s, q, q, IsDigit);
  }

  /** A character that starts no condition token. */
  predicate CondInert(c: char) {
    c != '!' && !IsOpChar(c) && c != '&' && c != '|' && c != '[' && c != '(' && c != ']' && c != ')' &&
    !IsDigit(c) && c != 't' && c != 'f' && c != '"' && c != '\'' && c != '/' && c != '$'
  }

  lemma CondAtInert(s: string, q: nat)
    requires q < |s| && CondInert(s[q])
    ensures CondAt(s, q).None?
  {
    NoKeyword(s, q);
  }

  /** A character that starts no step. */
  predicate DocInert(c: char) {
    c != '.' && c != '-' && !IsDigit(c) && !IsLower(c) && c != '*' && c != '#' && c != '+' &&
    c != '$' && c != ':' && c != '[' && c != '('
  }

  lemma DocAtInert(s: string, q: nat)
    requires q < |s| && DocInert(s[q])
    ensures DocAt(s, q).None?
  {
    NoSlice(s, q);
  }

  /** A field name: a lower-case letter and the name characters after it. */
  lemma DocAtName(s: string, q: nat, e: nat)
    requires q < |s| && IsLower(s[q]) && q < e
    requires Run(s, q + 1, IsNameChar) == e
    ensures DocAt(s, q) == Some((NameTok(s[q..e]), SkipDot(s, e)))
  {
    NoSlice(s, q);
  }

  /** A field name at a non-blank position, ended by a blank, scans as that name. */
  lemma ScanDocName(s: string, i: nat, e: nat, f: nat)
    requires i < e < |s| && IsLower(s[i]) && s[e] == ' '
    requires Run(s, i + 1, IsNameChar) == e && SkipSpaces(s, i) == i && SkipSpaces(s, e) == f
    ensures ScanDoc(s, i) == Some((NameTok(s[i..e]), f))
  {
    DocAtName(s, i, e);
    assert SkipDot(s, e) == e;
    ScanDocAt(s, i, i);
  }

  /** The condition scanner in terms of the token at the first non-blank. */
  lemma ScanConditionAt(s: string, i: nat, q: nat)
    requires i < |s| && SkipSpaces(s, i) == q
    ensures ScanCondition(s, i) ==
      if CondAt(s, q).Some? then Some((CondAt(s, q).value.0, SkipSpaces(s, CondAt(s, q).value.1)))
      else Some((OtherTok, |s|))
  {
  }

  /** The step scanner in terms of the step at the first non-blank. */
  lemma ScanDocAt(s: string, i: nat, q: nat)
    requires i < |s| && SkipSpaces(s, i) == q
    ensures ScanDoc(s, i) ==
      if DocAt(s, q).Some? then Some((DocAt(s, q).value.0, SkipSpaces(s, DocAt(s, q).value.1)))
      else Some((DocOtherTok, |s|))
  {
  }

  /** A whole number ended by a blank scans as its digits. */
  lemma CondAtNumber(s: string, q: nat, e: nat)
    requires q < e < |s| && IsDigit(s[q]) && s[e] == ' '
    requires Run(s, q, IsDigit) == e
    ensures CondAt(s, q) == Some((NumTok(s[q..e]), e))
  {
    assert NumberEnd(s, q) == Some(e);
  }

  // ---------------------------------------------------------------------
  // The test query, token by token
  // ---------------------------------------------------------------------

  lemma Scan0(s: string) requires Layout(s) ensures ScanCondition(s, 0) == Some((OtherTok, 36)) {
    SkipTo(s, 0, 0);
    CondAtInert(s, 0);
    ScanConditionAt(s, 0, 0);
  }

  lemma Doc0(s: string) requires Layout(s) ensures ScanDoc(s, 0) == Some((RepeatTok(Each), 2)) {
    SkipTo(s, 0, 0);
    NoSlice(s, 0);
    assert DocAt(s, 0) == Some((RepeatTok(Each), 2));
    SkipTo(s, 2, 2);
    ScanDocAt(s, 0, 0);
  }

  lemma Doc2(s: string) requires Layout(s) ensures ScanDoc(s, 2) == Some((FilterTok, 4)) {
    SkipTo(s, 2, 2);
    NoSlice(s, 2);
    assert DocAt(s, 2) == Some((FilterTok, 3));
    SkipTo(s, 3, 4);
    ScanDocAt(s, 2, 2);
  }

  lemma Scan4(s: string) requires Layout(s) ensures ScanCondition(s, 4) == Some((OtherTok, 36)) {
    SkipTo(s, 4, 4);
    CondAtInert(s, 4);
    ScanConditionAt(s, 4, 4);
  }

  lemma Maker(s: string) requires Layout(s) ensures s[4..9] == "maker" {
    assert s[4..9] == [s[4], s[5], s[6], s[7], s[8]];
  }

  lemma Doc4(s: string) requires Layout(s) ensures ScanDoc(s, 4) == Some((NameTok("maker"), 10)) {
    SkipTo(s, 4, 4);
    RunExact(s, 5, 9, IsNameChar);
    SkipTo(s, 9, 10);
    Maker(s);
    ScanDocName(s, 4, 9, 10);
  }

  lemma Doc10(s: string) requires Layout(s) ensures ScanDoc(s, 10) == Some((DocOtherTok, 36)) {
    SkipTo(s, 10, 10);
    DocAtInert(s, 10);
    ScanDocAt(s, 10, 10);
  }

  lemma Scan10(s: string) requires Layout(s) ensures ScanCondition(s, 10) == Some((OpTok("=="), 13)) {
    SkipTo(s, 10, 10);
    assert s[10..12] == [s[10], s[11]];
    assert CondAt(s, 10) == Some((OpTok("=="), 12));
    SkipTo(s, 12, 13);
    ScanConditionAt(s, 10, 10);
  }

  lemma Honda() ensures DropQuoteEscapes("Honda", '"') == "Honda" {
    assert DropQuoteEscapes("a", '"') == "a";
    assert DropQuoteEscapes("da", '"') == "da";
    assert DropQuoteEscapes("nda", '"') == "nda";
    assert DropQuoteEscapes("onda", '"') == "onda";
  }

  lemma HondaBody(s: string) requires Layout(s) ensures DropQuoteEscapes(s[14..19], '"') == "Honda" {
    assert s[14..19] == [s[14], s[15], s[16], s[17], s[18]];
    Honda();
  }

  lemma CondAt13(s: string) requires Layout(s) ensures CondAt(s, 13) == Some((StrTok("Honda"), 20)) {
    FirstUnescapedIs(s, 14, 19, '"');
    HondaBody(s);
    CondAtQuote(s, 13, '"', 19);
  }

  lemma Scan13(s: string) requires Layout(s) ensures ScanCondition(s, 13) == Some((StrTok("Honda"), 21)) {
    SkipTo(s, 13, 13);
    CondAt13(s);
    SkipTo(s, 20, 21);
    ScanConditionAt(s, 13, 13);
  }

  lemma Scan21(s: string) requires Layout(s) ensures ScanCondition(s, 21) == Some((NextTok("&"), 23)) {
    SkipTo(s, 21, 21);
    assert CondAt(s, 21) == Some((NextTok("&"), 22));
    SkipTo(s, 22, 23);
    ScanConditionAt(s, 21, 21);
  }

  lemma Scan23(s: string) requires Layout(s) ensures ScanCondition(s, 23) == Some((OtherTok, 36)) {
    SkipTo(s, 23, 23);
    CondAtInert(s, 23);
    ScanConditionAt(s, 23, 23);
  }

  lemma Year(s: string) requires Layout(s) ensures s[23..27] == "year" {
    assert s[23..27] == [s[23], s[24], s[25], s[26]];
  }

  lemma Doc23(s: string) requires Layout(s) ensures ScanDoc(s, 23) == Some((NameTok("year"), 28)) {
    SkipTo(s, 23, 23);
    RunExact(s, 24, 27, IsNameChar);
    SkipTo(s, 27, 28);
    Year(s);
    ScanDocName(s, 23, 27, 28);
  }

  lemma Doc28(s: string) requires Layout(s) ensures ScanDoc(s, 28) == Some((DocOtherTok, 36)) {
    SkipTo(s, 28, 28);
    DocAtInert(s, 28);
    ScanDocAt(s, 28, 28);
  }

  lemma Scan28(s: string) requires Layout(s) ensures ScanCondition(s, 28) == Some((OpTok(">"), 30)) {
    SkipTo(s, 28, 28);
    assert s[28..29] == [s[28]];
    assert CondAt(s, 28) == Some((OpTok(">"), 29));
    SkipTo(s, 29, 30);
    ScanConditionAt(s, 28, 28);
  }

  lemma Scan30(s: string) requires Layout(s) ensures ScanCondition(s, 30) == Some((NumTok("2009"), 35)) {
    SkipTo(s, 30, 30);
    RunExact(s, 30, 34, IsDigit);
    CondAtNumber(s, 30, 34);
    assert s[30..34] == [s[30], s[31], s[32], s[33]];
    SkipTo(s, 34, 35);
    ScanConditionAt(s, 30, 30);
  }

  lemma Scan35(s: string) requires Layout(s) ensures ScanCondition(s, 35) == Some((CloseTok, 36)) {
    SkipTo(s, 35, 35);
    assert CondAt(s, 35) == Some((CloseTok, 36));
    SkipTo(s, 36, 36);
    ScanConditionAt(s, 35, 35);
  }

  // ---------------------------------------------------------------------
  // The parse, step by step
  // ---------------------------------------------------------------------

  lemma ParseDocEnd(src: Source, i: nat) requires Layout(src.path) && (i == 10 || i == 28)
    ensures ParseDoc(src, i) == Success((None, i))
  {
    if i == 10 { Doc10(src.path); } else { Doc28(src.path); }
  }

  lemma ParseDoc4(src: Source) requires Layout(src.path) ensures ParseDoc(src, 4) == Success((Some(MakerField), 10)) {
    Doc4(src.path); ParseDocEnd(src, 10); ParseDocAtName(src, 4, 10, "maker");
  }

  lemma ParseDoc23(src: Source) requires Layout(src.path) ensures ParseDoc(src, 23) == Success((Some(YearField), 28)) {
    Doc23(src.path); ParseDocEnd(src, 28); ParseDocAtName(src, 23, 28, "year");
  }

  lemma Number2009() ensures AllDigits("2009") && DigitsValue("2009") == 2009 {
    assert "2009"[..3] == "200";
    assert "200"[..2] == "20";
    assert "20"[..1] == "2";
    assert "2"[..0] == "";
  }

  const D1: Draft := SetChild(NewDraft, Some(NodeOperand(MakerField)))
  const D2: Draft := Draft([], [D1.last.(op := "==")], EmptyCond)
  const D3: Draft := SetChild(D2, Some(NodeOperand(PathAst.Literal(Str("Honda")))))
  const D4: Draft := Draft([MakerTest], [], EmptyCond)
  const D5: Draft := SetChild(D4, Some(NodeOperand(YearField)))
  const D6: Draft := Draft([MakerTest], [D5.last.(op := ">")], EmptyCond)
  const D7: Draft := SetChild(D6, Some(NodeOperand(PathAst.Literal(Num(2009)))))

  /** A condition token read at `i` that only updates the draft. */
  lemma ConditionStep(src: Source, i: nat, tok: CondToken, e: nat, d: Draft, d': Draft)
    requires i < |src.path| && ScanCondition(src.path, i) == Some((tok, e))
    requires !tok.OpenTok? && !tok.CloseTok? && !tok.OtherTok?
    requires Step(src, d, tok) == Success(d')
    ensures ParseConds(src, i, d) == ParseConds(src, e, d')
  {
  }

  /** A path read at `i` by the path grammar, as the operand of the current condition. */
  lemma ConditionPath(src: Source, i: nat, d: Draft, n: Node, e: nat)
    requires i < |src.path| && ScanCondition(src.path, i).Some? && ScanCondition(src.path, i).value.0.OtherTok?
    requires ParseDoc(src, i) == Success((Some(n), e)) && e != i
    ensures ParseConds(src, i, d) == ParseConds(src, e, SetChild(d, Some(NodeOperand(n))))
  {
  }

  lemma Conds4(src: Source) requires Layout(src.path)
    ensures ParseConds(src, 4, NewDraft) == ParseConds(src, 10, D1)
  {
    Scan4(src.path); ParseDoc4(src);
    ConditionPath(src, 4, NewDraft, MakerField, 10);
  }

  lemma Conds10(src: Source) requires Layout(src.path)
    ensures ParseConds(src, 10, D1) == ParseConds(src, 13, D2)
  {
    Scan10(src.path);
    assert D1.prev + [D1.last.(op := "==")] == D2.prev;
    ConditionStep(src, 10, OpTok("=="), 13, D1, D2);
  }

  lemma Conds13(src: Source) requires Layout(src.path)
    ensures ParseConds(src, 13, D2) == ParseConds(src, 21, D3)
  {
    Scan13(src.path);
    ConditionStep(src, 13, StrTok("Honda"), 21, D2, D3);
  }

  lemma Conds21(src: Source) requires Layout(src.path)
    ensures ParseConds(src, 21, D3) == ParseConds(src, 23, D4)
  {
    Scan21(src.path);
    assert Linked(D3, "&") == MakerTest;
    assert D3.done + [MakerTest] == D4.done;
    ConditionStep(src, 21, NextTok("&"), 23, D3, D4);
  }

  lemma Conds23(src: Source) requires Layout(src.path)
    ensures ParseConds(src, 23, D4) == ParseConds(src, 28, D5)
  {
    Scan23(src.path); ParseDoc23(src);
    ConditionPath(src, 23, D4, YearField, 28);
  }

  lemma Conds28(src: Source) requires Layout(src.path)
    ensures ParseConds(src, 28, D5) == ParseConds(src, 30, D6)
  {
    Scan28(src.path);
    assert D5.prev + [D5.last.(op := ">")] == D6.prev;
    ConditionStep(src, 28, OpTok(">"), 30, D5, D6);
  }

  lemma Conds30(src: Source) requires Layout(src.path)
    ensures ParseConds(src, 30, D6) == ParseConds(src, 35, D7)
  {
    Scan30(src.path); Number2009();
    ConditionStep(src, 30, NumTok("2009"), 35, D6, D7);
  }

  lemma Conds35(src: Source) requires Layout(src.path)
    ensures ParseConds(src, 35, D7) == Success((TestFilter, 36))
  {
    Scan35(src.path);
    assert Finish(D7).conds == [MakerTest, YearTest];
  }

  lemma FilterParses(src: Source) requires Layout(src.path)
    ensures ParseGroup(src, 4) == Success((TestFilter, 36))
  {
    Conds4(src); Conds10(src); Conds13(src); Conds21(src); Conds23(src); Conds28(src); Conds30(src); Conds35(src);
  }

  lemma ParseDocAtFilter(src: Source, i: nat, e: nat)
    requires i <= |src.path| && ScanDoc(src.path, i) == Some((FilterTok, e))
    ensures e <= |src.path|
    ensures ParseDoc(src, i) ==
      match ParseGroup(src, e)
      case Failure(err) => Failure(err)
      case Success((g, ge)) =>
        match ParseDoc(src, ge)
        case Failure(err) => Failure(err)
        case Success((c, ce)) => Success((Some(Filter(g, c)), ce))
  {
  }

  /** A filter step: its group, then the steps after it. */
  lemma ParseDocFilter(src: Source, i: nat, e: nat, g: Group, ge: nat, c: Option<Node>, ce: nat)
    requires i <= |src.path| && ScanDoc(src.path, i) == Some((FilterTok, e))
    requires ParseGroup(src, e) == Success((g, ge)) && ParseDoc(src, ge) == Success((c, ce))
    ensures ParseDoc(src, i) == Success((Some(Filter(g, c)), ce))
  {
    ParseDocAtFilter(src, i, e);
  }

  /** A repeat step, then the steps after it. */
  lemma ParseDocAtRepeat(src: Source, i: nat, e: nat, kind: RepeatKind)
    requires i <= |src.path| && ScanDoc(src.path, i) == Some((RepeatTok(kind), e))
    ensures e <= |src.path|
    ensures ParseDoc(src, i) ==
      match ParseDoc(src, e)
      case Failure(err) => Failure(err)
      case Success((c, ce)) => Success((Some(Repeat(kind, c)), ce))
  {
  }

  lemma ParseDocRepeat(src: Source, i: nat, e: nat, kind: RepeatKind, c: Option<Node>, ce: nat)
    requires i <= |src.path| && ScanDoc(src.path, i) == Some((RepeatTok(kind), e))
    requires ParseDoc(src, e) == Success((c, ce))
    ensures ParseDoc(src, i) == Success((Some(Repeat(kind, c)), ce))
  {
    ParseDocAtRepeat(src, i, e, kind);
  }

  lemma ParseDocAtName(src: Source, i: nat, e: nat, name: string)
    requires i <= |src.path| && ScanDoc(src.path, i) == Some((NameTok(name), e))
    ensures e <= |src.path|
    ensures ParseDoc(src, i) ==
      match ParseDoc(src, e)
      case Failure(err) => Failure(err)
      case Success((c, ce)) => Success((Some(PathAst.Field(Str(name), c)), ce))
  {
  }

  lemma ParseDoc2(src: Source) requires Layout(src.path)
    ensures ParseDoc(src, 2) == Success((Some(Filter(TestFilter, None)), 36))
  {
    Doc2(src.path); FilterParses(src);
    assert ParseDoc(src, 36) == Success((None, 36));
    ParseDocFilter(src, 2, 4, TestFilter, 36, None, 36);
  }

  lemma ParseDoc0(src: Source) requires Layout(src.path)
    ensures ParseDoc(src, 0) == Success((Some(Repeat(Each, Some(Filter(TestFilter, None)))), 36))
  {
    Doc0(src.path); ParseDoc2(src);
    ParseDocRepeat(src, 0, 2, Each, Some(Filter(TestFilter, None)), 36);
  }

  lemma QueryParses(src: Source) requires Layout(src.path)
    ensures ParseGroup(src, 0) == Success((TestTree, 36))
  {
    var n := Repeat(Each, Some(Filter(TestFilter, None)));
    var d := SetChild(NewDraft, Some(NodeOperand(n)));
    Scan0(src.path); ParseDoc0(src);
    ConditionPath(src, 0, NewDraft, n, 36);
    assert ParseConds(src, 36, d) == Success((Finish(d), 36));
    assert Finish(d).conds == [d.last];
  }

  /** The test's query parses to `*` followed by the filter `maker == "Honda" & year > 2009`. */
  lemma TestPathParses(v: Value) ensures ParseGroup(Source(TestPath, v), 0) == Success((TestTree, 36)) {
    TestPathLayout();
    QueryParses(Source(TestPath, v));
  }
}
