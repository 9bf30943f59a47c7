/**
  Which templates validation accepts, read off the template itself: it is the text of a
  JSON document with variables for holes, and no string of that document, keys
  included, still spells two opening braces.

  In a JSON text two opening braces meet only inside a string, so the check on the
  substituted text is a check of the strings. Outside the accepted templates the reason
  given tells a complete token that names no variable from other leftover braces.
*/
module TemplateBraces {
  import opened Common
  import opened TemplateVocabulary
  import opened JsonText
  import opened PayloadTemplate

  // --------------------------------------------------- two braces in a text

  predicate StartsOpen(t: Text) {
    t != [] && t[0] == LBRACE
  }

  /** Two opening braces stand side by side. */
  predicate Opens(t: Text) {
    exists i | 0 <= i < |t| - 1 :: t[i] == LBRACE && t[i + 1] == LBRACE
  }

  lemma ContainsOpen(t: Text)
    ensures Contains(t, OPEN) <==> Opens(t)
  {
    if Contains(t, OPEN) {
      var i :| 0 <= i <= |t| && OPEN <= t[i..];
      assert t[i..][0] == t[i] && t[i..][1] == t[i + 1];
    }
    if i :| 0 <= i < |t| - 1 && t[i] == LBRACE && t[i + 1] == LBRACE {
      assert t[i..][..2] == OPEN;
    }
  }

  lemma OpensCons(c: CodeUnit, k: Text)
    ensures Opens([c] + k) <==> Opens(k) || (c == LBRACE && StartsOpen(k))
  {
    var t := [c] + k;
    if i :| 0 <= i < |t| - 1 && t[i] == LBRACE && t[i + 1] == LBRACE {
      if i > 0 { assert k[i - 1] == LBRACE && k[i] == LBRACE; }
    }
    if i :| 0 <= i < |k| - 1 && k[i] == LBRACE && k[i + 1] == LBRACE {
      assert t[i + 1] == LBRACE && t[i + 2] == LBRACE;
    }
    if c == LBRACE && StartsOpen(k) { assert t[0] == LBRACE && t[1] == LBRACE; }
  }

  predicate IsCalm(t: Text) {
    forall i | 0 <= i < |t| :: t[i] != LBRACE
  }

  /** Text without a brace in front changes nothing. */
  lemma {:induction false} OpensCalm(a: Text, k: Text)
    requires IsCalm(a)
    ensures Opens(a + k) <==> Opens(k)
    ensures StartsOpen(a + k) <==> a == [] && StartsOpen(k)
  {
    if a == [] {
      assert a + k == k;
    } else {
      OpensCalm(a[1..], k);
      assert a + k == [a[0]] + (a[1..] + k);
      OpensCons(a[0], a[1..] + k);
    }
  }

  lemma BlankIsCalm(t: Text)
    requires IsBlank(t)
    ensures IsCalm(t)
  {
  }

  // -------------------------------------------------- two braces in a string

  predicate EndsOpen(ps: List<Piece>) {
    ps.Snoc? && ps.last == Raw(LBRACE)
  }

  /** Two opening braces stand side by side among the pieces. */
  predicate Spells(ps: List<Piece>) {
    ps.Snoc? && (Spells(ps.init) || (EndsOpen(ps) && EndsOpen(ps.init)))
  }

  /** Some string of the list spells two opening braces. */
  predicate AnySpells(strings: List<List<Piece>>) {
    strings.Snoc? && (AnySpells(strings.init) || Spells(strings.last))
  }

  lemma PieceOpens(p: Piece, k: Text)
    requires WfPiece(p)
    ensures Opens(PrintPiece(p, k)) <==> Opens(k) || (p == Raw(LBRACE) && StartsOpen(k))
    ensures StartsOpen(PrintPiece(p, k)) <==> p == Raw(LBRACE)
  {
    match p
    case Raw(c) => OpensCons(c, k);
    case Short(c) =>
      OpensCons(c, k);
      OpensCons(BACKSLASH, [c] + k);
    case Hex(d) =>
      assert IsCalm(d);
      OpensCalm(d, k);
      OpensCons(LETTER_U, d + k);
      OpensCons(BACKSLASH, [LETTER_U] + (d + k));
  }

  lemma {:induction false} PiecesOpen(ps: List<Piece>, k: Text)
    requires WfPieces(ps)
    ensures Opens(PrintPieces(ps, k)) <==> Spells(ps) || Opens(k) || (EndsOpen(ps) && StartsOpen(k))
    decreases ps
  {
    if ps.Snoc? {
      PieceOpens(ps.last, k);
      PiecesOpen(ps.init, PrintPiece(ps.last, k));
    }
  }

  lemma StringOpens(ps: List<Piece>, k: Text)
    requires WfPieces(ps)
    ensures Opens(PrintString(ps, k)) <==> Spells(ps) || Opens(k)
    ensures !StartsOpen(PrintString(ps, k))
  {
    OpensCons(QUOTE, k);
    PiecesOpen(ps, [QUOTE] + k);
    OpensCons(QUOTE, PrintPieces(ps, [QUOTE] + k));
  }

  // ------------------------------------------------- two braces in a document

  lemma WordIsCalm(w: Text)
    requires IsWord(w)
    ensures IsCalm(w)
  {
  }

  lemma {:induction false} NumberIsCalm(d: Text)
    requires PhaseOf(d).Some?
    ensures IsCalm(d)
    decreases |d|
  {
    if |d| > 1 { NumberIsCalm(d[..|d| - 1]); }
  }

  /** What follows a value: not an opening brace. */
  lemma {:induction false} ValueOpens(v: Value, k: Text, seen: List<List<Piece>>)
    requires WfValue(v) && !StartsOpen(k)
    ensures Opens(PrintValue(v, k)) || AnySpells(seen) <==> AnySpells(Strings(v, seen)) || Opens(k)
    decreases v, 1
  {
    match v
    case Word(w) =>
      WordIsCalm(w);
      OpensCalm(w, k);
    case Num(d) =>
      NumberIsCalm(d);
      OpensCalm(d, k);
    case Str(ps) => StringOpens(ps, k);
    case Arr(blank, es) => ArrayOpens(blank, es, k, seen);
    case Obj(blank, ms) => ObjectOpens(blank, ms, k, seen);
  }

  lemma {:induction false} ArrayOpens(blank: Text, es: List<Elem>, k: Text, seen: List<List<Piece>>)
    requires WfValue(Arr(blank, es)) && !StartsOpen(k)
    ensures Opens(PrintValue(Arr(blank, es), k)) || AnySpells(seen) <==> AnySpells(ElemStrings(es, seen)) || Opens(k)
    decreases es, 1
  {
    OpensCons(RBRACKET, k);
    if es.Nil? {
      BlankIsCalm(blank);
      OpensCalm(blank, [RBRACKET] + k);
      OpensCons(LBRACKET, blank + ([RBRACKET] + k));
    } else {
      ElemsOpen(es, RBRACKET, k, seen);
      OpensCons(LBRACKET, PrintElems(es.init, PrintElem(es.last, [RBRACKET] + k)));
    }
  }

  /** Elements with commas between them and a closing mark. */
  lemma {:induction false} ElemsOpen(es: List<Elem>, mark: CodeUnit, k: Text, seen: List<List<Piece>>)
    requires es.Snoc? && WfElems(es) && mark != LBRACE
    ensures Opens(PrintElems(es.init, PrintElem(es.last, [mark] + k))) || AnySpells(seen) <==>
      AnySpells(ElemStrings(es, seen)) || Opens(k)
    decreases es, 0
  {
    var rest := PrintElem(es.last, [mark] + k);
    OpensCons(mark, k);
    ElemOpens(es.last, [mark] + k, ElemStrings(es.init, seen));
    if es.init.Snoc? { ElemsOpen(es.init, COMMA, rest, seen); }
  }

  lemma {:induction false} ElemOpens(e: Elem, k: Text, seen: List<List<Piece>>)
    requires WfElem(e) && !StartsOpen(k)
    ensures Opens(PrintElem(e, k)) || AnySpells(seen) <==> AnySpells(Strings(e.value, seen)) || Opens(k)
    decreases e, 0
  {
    BlankIsCalm(e.pre);
    BlankIsCalm(e.post);
    OpensCalm(e.post, k);
    ValueOpens(e.value, e.post + k, seen);
    OpensCalm(e.pre, PrintValue(e.value, e.post + k));
  }

  lemma {:induction false} ObjectOpens(blank: Text, ms: List<Member>, k: Text, seen: List<List<Piece>>)
    requires WfValue(Obj(blank, ms)) && !StartsOpen(k)
    ensures Opens(PrintValue(Obj(blank, ms), k)) || AnySpells(seen) <==> AnySpells(MemberStrings(ms, seen)) || Opens(k)
    decreases ms, 1
  {
    OpensCons(RBRACE, k);
    if ms.Nil? {
      BlankIsCalm(blank);
      OpensCalm(blank, [RBRACE] + k);
      OpensCons(LBRACE, blank + ([RBRACE] + k));
    } else {
      MembersOpen(ms, RBRACE, k, seen);
      OpensCons(LBRACE, PrintMembers(ms.init, PrintMember(ms.last, [RBRACE] + k)));
    }
  }

  /** Members with commas between them and a closing mark: they start with a blank or a quote. */
  lemma {:induction false} MembersOpen(ms: List<Member>, mark: CodeUnit, k: Text, seen: List<List<Piece>>)
    requires ms.Snoc? && WfMembers(ms) && mark != LBRACE
    ensures var t := PrintMembers(ms.init, PrintMember(ms.last, [mark] + k));
      !StartsOpen(t) && (Opens(t) || AnySpells(seen) <==> AnySpells(MemberStrings(ms, seen)) || Opens(k))
    decreases ms, 0
  {
    var rest := PrintMember(ms.last, [mark] + k);
    OpensCons(mark, k);
    MemberOpens(ms.last, [mark] + k, MemberStrings(ms.init, seen));
    if ms.init.Snoc? { MembersOpen(ms.init, COMMA, rest, seen); }
  }

  lemma {:induction false} MemberOpens(m: Member, k: Text, seen: List<List<Piece>>)
    requires WfMember(m) && !StartsOpen(k)
    ensures !StartsOpen(PrintMember(m, k))
    ensures Opens(PrintMember(m, k)) || AnySpells(seen) <==>
      AnySpells(Strings(m.elem.value, Snoc(seen, m.key))) || Opens(k)
    decreases m, 0
  {
    var tail := [COLON] + PrintElem(m.elem, k);
    ElemOpens(m.elem, k, Snoc(seen, m.key));
    OpensCons(COLON, PrintElem(m.elem, k));
    BlankIsCalm(m.pre);
    BlankIsCalm(m.mid);
    OpensCalm(m.mid, tail);
    StringOpens(m.key, m.mid + tail);
    OpensCalm(m.pre, PrintString(m.key, m.mid + tail));
  }

  /** In the text of a document two opening braces meet only inside a string. */
  lemma DocumentOpens(d: Elem)
    requires WfElem(d)
    ensures Opens(DocText(d)) <==> AnySpells(Strings(d.value, Nil))
  {
    ElemOpens(d, [], Nil);
  }

  // ------------------------------------------------ the placeholder has no brace

  predicate NoBraces(ps: List<Piece>) {
    ps.Snoc? ==> NoBraces(ps.init) && ps.last != Raw(LBRACE)
  }

  lemma {:induction false} EscapedHasNoBraces(done: List<Piece>, t: Text)
    requires NoBraces(done) && forall i | 0 <= i < |t| :: t[i] == UNDERSCORE || 0x61 <= t[i] <= 0x7A
    ensures NoBraces(EscapeOnto(done, t)) && (done.Snoc? || t != [] ==> EscapeOnto(done, t).Snoc?)
    decreases |t|
  {
    if t != [] { EscapedHasNoBraces(Snoc(done, Raw(t[0])), t[1..]); }
  }

  lemma {:induction false} AppendedSpells(a: List<Piece>, b: List<Piece>)
    requires NoBraces(b)
    ensures Spells(Append(a, b)) <==> Spells(a)
    ensures b.Snoc? ==> !EndsOpen(Append(a, b))
    decreases b
  {
    if b.Snoc? { AppendedSpells(a, b.init); }
  }

  lemma {:induction false} FilledSpells(ps: List<Piece>, vars: Vars, p: Text)
    requires AllPlaceholders(vars, p)
    ensures Spells(FillPieces(ps, vars)) <==> Spells(ps)
    ensures EndsOpen(FillPieces(ps, vars)) <==> EndsOpen(ps)
    decreases ps
  {
    if ps.Snoc? {
      FilledSpells(ps.init, vars, p);
      if ps.last.Hole? {
        assert ValueOf(vars, ps.last.variable) == p;
        EscapedHasNoBraces(Nil, p);
        AppendedSpells(FillPieces(ps.init, vars), EscapePieces(p));
      }
    }
  }

  lemma {:induction false} FilledValueSpells(v: Value, vars: Vars, p: Text, seen: List<List<Piece>>,
      holey: List<List<Piece>>)
    requires AllPlaceholders(vars, p) && (AnySpells(seen) <==> AnySpells(holey))
    ensures AnySpells(Strings(FillValue(v, vars), seen)) <==> AnySpells(Strings(v, holey))
    decreases v
  {
    match v
    case Word(_) =>
    case Num(_) =>
    case Str(ps) => FilledSpells(ps, vars, p);
    case Arr(_, es) => FilledElemsSpell(es, vars, p, seen, holey);
    case Obj(_, ms) => FilledMembersSpell(ms, vars, p, seen, holey);
  }

  lemma {:induction false} FilledElemsSpell(es: List<Elem>, vars: Vars, p: Text, seen: List<List<Piece>>,
      holey: List<List<Piece>>)
    requires AllPlaceholders(vars, p) && (AnySpells(seen) <==> AnySpells(holey))
    ensures AnySpells(ElemStrings(FillElems(es, vars), seen)) <==> AnySpells(ElemStrings(es, holey))
    decreases es
  {
    if es.Snoc? {
      FilledElemsSpell(es.init, vars, p, seen, holey);
      assert FillElem(es.last, vars).value == FillValue(es.last.value, vars);
      FilledValueSpells(
        es.last.value, vars, p, ElemStrings(FillElems(es.init, vars), seen), ElemStrings(es.init, holey));
    }
  }

  lemma {:induction false} FilledMembersSpell(ms: List<Member>, vars: Vars, p: Text, seen: List<List<Piece>>,
      holey: List<List<Piece>>)
    requires AllPlaceholders(vars, p) && (AnySpells(seen) <==> AnySpells(holey))
    ensures AnySpells(MemberStrings(FillMembers(ms, vars), seen)) <==> AnySpells(MemberStrings(ms, holey))
    decreases ms
  {
    if ms.Snoc? {
      var m := ms.last;
      FilledMembersSpell(ms.init, vars, p, seen, holey);
      FilledSpells(m.key, vars, p);
      assert FillElem(m.elem, vars).value == FillValue(m.elem.value, vars);
      assert FillMembers(ms, vars) == Snoc(FillMembers(ms.init, vars), FillMember(m, vars));
      FilledValueSpells(
        m.elem.value, vars, p, Snoc(MemberStrings(FillMembers(ms.init, vars), seen), FillPieces(m.key, vars)),
        Snoc(MemberStrings(ms.init, holey), m.key));
    }
  }

  // --------------------------------------------------------------- acceptance

  /** The leftover braces of the substituted text are those of the template's own strings. */
  lemma LeftoverIsSpelled(t: Text)
    requires TemplateTree(t).Some?
    ensures Contains(SubstitutePlaceholders(t), OPEN) <==> AnySpells(Strings(TemplateTree(t).value.value, Nil))
  {
    var tree, p := TemplateTree(t).value, Placeholder();
    var ph := Uniform(p);
    PlaceholderUnderscored();
    UniformIsPlaceholders(p);
    PlaceholdersRender(t, ph, p);
    TreeIffParses(t);
    RenderFillsTree(t, ph);
    ParseSound(SubstitutePlaceholders(t));
    DocumentOpens(FillElem(tree, ph));
    FilledValueSpells(tree.value, ph, p, Nil, Nil);
    ContainsOpen(SubstitutePlaceholders(t));
  }

  /**
    Acceptance on the template itself: past the length check it is accepted, as trimmed, exactly
    when it is the text of a tree none of whose strings spells two opening braces.
  */
  lemma AcceptedExactly(text: Text)
    requires 0 < |Trim(text)| <= MAX_LENGTH
    ensures ValidatePayloadTemplate(Written(text)) == Accepted(Some(Trim(text))) <==>
      TemplateTree(Trim(text)).Some? && !AnySpells(Strings(TemplateTree(Trim(text)).value.value, Nil))
    ensures ValidatePayloadTemplate(Written(text)).Accepted? ==>
      ValidatePayloadTemplate(Written(text)) == Accepted(Some(Trim(text)))
  {
    var t := Trim(text);
    CheckedParses(t, SubstitutePlaceholders(t));
    TreeIffParses(t);
    if TemplateTree(t).Some? { LeftoverIsSpelled(t); }
  }

  // ------------------------------------------------------------------- trimming

  predicate AllBlank(t: Text) {
    forall i | 0 <= i < |t| :: IsTrimmed(t[i])
  }

  lemma Ends(c: CodeUnit, before: Text, mid: Text, after: Text)
    ensures [c] + (before + mid + after) == [c] + before + mid + after
    ensures before + mid + after + [c] == before + mid + (after + [c])
    ensures AllBlank(before) && IsTrimmed(c) ==> AllBlank([c] + before)
    ensures AllBlank(after) && IsTrimmed(c) ==> AllBlank(after + [c])
  {
  }

  lemma HeadOrLast(t: Text)
    requires t != []
    ensures t == [t[0]] + t[1..] && t == t[..|t| - 1] + [t[|t| - 1]]
  {
  }

  /** Trimming takes the blanks at both ends, all of them and nothing else. */
  lemma {:induction false} TrimIs(t: Text) returns (before: Text, after: Text)
    ensures t == before + Trim(t) + after && AllBlank(before) && AllBlank(after)
    ensures Trim(t) != [] ==> !IsTrimmed(Trim(t)[0]) && !IsTrimmed(Trim(t)[|Trim(t)| - 1])
    decreases |t|
  {
    before, after := [], [];
    if t != [] { HeadOrLast(t); }
    if t != [] && IsTrimmed(t[0]) {
      before, after := TrimIs(t[1..]);
      Ends(t[0], before, Trim(t), after);
      before := [t[0]] + before;
    } else if t != [] && IsTrimmed(t[|t| - 1]) {
      before, after := TrimIs(t[..|t| - 1]);
      Ends(t[|t| - 1], before, Trim(t), after);
      after := after + [t[|t| - 1]];
    }
  }

  // ------------------------------------------------------ the reason of a refusal

  predicate NoBrace(t: Text) {
    forall i | 0 <= i < |t| :: t[i] != LBRACE && t[i] != RBRACE
  }

  /** The text holds a complete token around this name. */
  ghost predicate HoldsToken(t: Text, name: Text) {
    exists a: Text, b: Text :: t == a + (OPEN + name + CLOSE) + b
  }

  ghost predicate NamesSomething(t: Text) {
    exists name: Text :: name != [] && NoBrace(name) && HoldsToken(t, name)
  }

  lemma TokenBetween(t: Text, i: nat, j: nat)
    requires i + 2 < j <= |t| && OPEN <= t[i..] && CLOSE <= t[j..]
    ensures HoldsToken(t, t[i + 2..j])
  {
    var a, b, name := t[..i], t[j + 2..], t[i + 2..j];
    assert t[i..][..2] == OPEN && t[j..][..2] == CLOSE;
    assert t[i..i + 2] == OPEN && t[j..j + 2] == CLOSE;
    assert t == a + (OPEN + name + CLOSE) + b;
  }

  lemma TokenAround(a: Text, name: Text, b: Text)
    requires name != [] && NoBrace(name)
    ensures HasUnknownToken(a + (OPEN + name + CLOSE) + b)
  {
    var t := a + (OPEN + name + CLOSE) + b;
    var i, j := |a|, |a| + 2 + |name|;
    assert t[i..] == OPEN + (name + CLOSE + b) && t[j..] == CLOSE + b;
    forall m | i + 2 <= m < j ensures t[m] != LBRACE && t[m] != RBRACE { assert t[m] == name[m - i - 2]; }
  }

  lemma UnknownTokenNames(t: Text, i: nat, j: nat)
    requires i + 2 < j <= |t| && OPEN <= t[i..] && CLOSE <= t[j..]
    requires forall m | i + 2 <= m < j :: t[m] != LBRACE && t[m] != RBRACE
    ensures NamesSomething(t)
  {
    TokenBetween(t, i, j);
    assert NoBrace(t[i + 2..j]);
  }

  lemma UnknownTokenIs(t: Text)
    ensures HasUnknownToken(t) <==> NamesSomething(t)
  {
    if HasUnknownToken(t) {
      var i, j :| 0 <= i <= |t| && i + 2 < j <= |t| && OPEN <= t[i..] && CLOSE <= t[j..]
        && forall m | i + 2 <= m < j :: t[m] != LBRACE && t[m] != RBRACE;
      UnknownTokenNames(t, i, j);
    }
    if NamesSomething(t) {
      var name: Text :| name != [] && NoBrace(name) && HoldsToken(t, name);
      var a: Text, b: Text :| t == a + (OPEN + name + CLOSE) + b;
      TokenAround(a, name, b);
    }
  }

  lemma UnknownTokenOpens(t: Text)
    ensures HasUnknownToken(t) ==> Contains(t, OPEN)
  {
  }

  /** Every refusal of a written template, by its exact reason. */
  lemma RefusedExactly(text: Text)
    ensures var t, v := Trim(text), ValidatePayloadTemplate(Written(text));
      var left := SubstitutePlaceholders(t);
      && (v == Accepted(None) <==> t == [])
      && (v == Rejected(TooLong) <==> |t| > MAX_LENGTH)
      && (v == Rejected(UnknownVariable) <==> 0 < |t| <= MAX_LENGTH && NamesSomething(left))
      && (v == Rejected(StrayToken) <==> 0 < |t| <= MAX_LENGTH && Opens(left) && !NamesSomething(left))
      && (v == Rejected(NotJson) <==> 0 < |t| <= MAX_LENGTH && !Opens(left) && TemplateTree(t).None?)
  {
    var t := Trim(text);
    var left := SubstitutePlaceholders(t);
    ContainsOpen(left);
    UnknownTokenIs(left);
    UnknownTokenOpens(left);
    TreeIffParses(t);
  }

  // ------------------------------------- names no variable has, in the template

  predicate IsKnown(name: Text) {
    exists v: Variable :: NameOf(v) == name
  }

  lemma NamesHaveNoBrace(v: Variable)
    ensures NoBrace(NameOf(v)) && NameOf(v) != []
  {
    match v case Level => case Message => case Category => case Timestamp => case StackName => case Actor =>
  }

  /** Where braces stand around a name. */
  lemma UnitsAround(u: Text, name: Text, n: nat)
    requires u == OPEN + name + CLOSE && NoBrace(name) && n < |u|
    ensures |u| == |name| + 4 && (u[n] == LBRACE <==> n < 2) && (u[n] == RBRACE <==> |name| + 2 <= n)
    ensures 2 <= n < 2 + |name| ==> u[n] == name[n - 2]
  {
    if 2 <= n < 2 + |name| { assert u[n] == name[n - 2]; }
  }

  lemma QuotedUnits(text: Text, bare: Text, n: nat)
    requires text == [QUOTE] + bare + [QUOTE] && n < |text|
    ensures |text| == |bare| + 2 && text[n] == if 0 < n <= |bare| then bare[n - 1] else QUOTE
  {
  }

  lemma BareBraces(v: Variable, n: nat)
    requires n < |BareToken(v)|
    ensures var u, name := BareToken(v), NameOf(v);
      && |u| == |name| + 4 && (u[n] == LBRACE <==> n < 2) && (u[n] == RBRACE <==> |name| + 2 <= n)
      && (2 <= n < 2 + |name| ==> u[n] == name[n - 2])
  {
    NamesHaveNoBrace(v);
    UnitsAround(BareToken(v), NameOf(v), n);
  }

  /** Where they stand in a token: two in front of the variable's name, two behind. */
  lemma TokenBraces(tok: Token, n: nat)
    requires n < |TokenText(tok)|
    ensures var q, name := if tok.quoted then 1 else 0, NameOf(tok.variable);
      && |TokenText(tok)| == 2 * q + 4 + |name|
      && (TokenText(tok)[n] == LBRACE <==> q <= n < q + 2)
      && (q + 2 <= n < q + 2 + |name| ==> TokenText(tok)[n] == name[n - q - 2])
      && (TokenText(tok)[n] == RBRACE <==> q + 2 + |name| <= n < q + 4 + |name|)
  {
    var bare := BareToken(tok.variable);
    if tok.quoted {
      QuotedUnits(TokenText(tok), bare, n);
      BareBraces(tok.variable, if 0 < n <= |bare| then n - 1 else 0);
    } else {
      BareBraces(tok.variable, n);
    }
  }

  /** A complete token whose name is no variable's. */
  predicate IsUnknown(u: Text, name: Text) {
    u == OPEN + name + CLOSE && name != [] && NoBrace(name) && !IsKnown(name)
  }

  lemma UnknownUnits(u: Text, name: Text, n: nat)
    requires IsUnknown(u, name) && n < |u|
    ensures |u| == |name| + 4 && (u[n] == LBRACE <==> n < 2) && (u[n] == RBRACE <==> |name| + 2 <= n)
    ensures 2 <= n < 2 + |name| ==> u[n] == name[n - 2]
  {
    UnitsAround(u, name, n);
  }

  lemma SameName(a: Text, b: Text)
    requires |a| == |b| && forall i | 0 <= i < |a| :: a[i] == b[i]
    ensures a == b
  {
  }

  lemma NotBare(u: Text, name: Text, b: Text, v: Variable)
    requires IsUnknown(u, name)
    ensures !(BareToken(v) <= u + b)
  {
    var tok, known := Token(false, v), NameOf(v);
    if BareToken(v) <= u + b {
      var m := if |known| < |name| then |known| else |name|;
      TokenBraces(tok, 2 + m);
      UnknownUnits(u, name, 2 + m);
      assert BareToken(v)[2 + m] == (u + b)[2 + m] == u[2 + m];
      assert |known| == |name|;
      forall i | 0 <= i < |name| ensures known[i] == name[i] {
        TokenBraces(tok, 2 + i);
        UnknownUnits(u, name, 2 + i);
        assert BareToken(v)[2 + i] == (u + b)[2 + i];
      }
      SameName(known, name);
    }
  }

  lemma TokenHead(tok: Token, t: Text)
    requires TokenText(tok) <= t
    ensures |t| > 1 && t[1] == LBRACE && t[0] == if tok.quoted then QUOTE else LBRACE
  {
    TokenBraces(tok, 0);
    TokenBraces(tok, 1);
  }

  lemma NoTokenHere(t: Text)
    requires t != [] && (t[0] != LBRACE || |t| == 1 || t[1] != LBRACE)
    requires t[0] != QUOTE || |t| == 1 || t[1] != LBRACE
    ensures TokenAt(t).None?
  {
    forall tok: Token | TokenText(tok) <= t ensures false { TokenHead(tok, t); }
  }

  lemma NoTokenAtFront(u: Text, name: Text, b: Text)
    requires IsUnknown(u, name)
    ensures TokenAt(u + b).None?
  {
    var tok := TokenAt(u + b);
    if tok.Some? {
      TokenHead(tok.value, u + b);
      UnknownUnits(u, name, 0);
      NotBare(u, name, b, tok.value.variable);
    }
  }

  /** No token starts in an unknown one. */
  lemma NoTokenInside(u: Text, name: Text, n: nat, b: Text)
    requires IsUnknown(u, name) && n < |u|
    ensures TokenAt(u[n..] + b).None?
  {
    if n == 0 {
      assert u[n..] == u;
      NoTokenAtFront(u, name, b);
    } else {
      var t := u[n..] + b;
      assert t[0] == u[n] && (n + 1 < |u| ==> t[1] == u[n + 1]);
      UnknownUnits(u, name, n);
      if n + 1 < |u| { UnknownUnits(u, name, n + 1); }
      NoTokenHere(t);
    }
  }

  lemma SubstituteUnit(c: CodeUnit, k: Text, inject: (Variable, bool) -> Text)
    requires TokenAt([c] + k).None?
    ensures SubstituteVars([c] + k, inject) == [c] + SubstituteVars(k, inject)
  {
    assert ([c] + k)[1..] == k;
  }

  lemma SubstituteToken(tok: Token, k: Text, inject: (Variable, bool) -> Text)
    ensures SubstituteVars(TokenText(tok) + k, inject) == inject(tok.variable, tok.quoted) + SubstituteVars(k, inject)
  {
    var t := TokenText(tok) + k;
    TokenExact(t, tok);
    TokenBraces(tok, 0);
    assert t[|TokenText(tok)|..] == k;
  }

  lemma Front(u: Text, n: nat, k: Text)
    requires n < |u|
    ensures u[n..] + k == [u[n]] + (u[n + 1..] + k)
  {
  }

  lemma Spent(u: Text, k: Text)
    ensures u[|u|..] + k == k
  {
  }

  lemma {:induction false} UnknownStays(u: Text, name: Text, n: nat, b: Text, inject: (Variable, bool) -> Text)
    requires IsUnknown(u, name) && n <= |u|
    ensures SubstituteVars(u[n..] + b, inject) == u[n..] + SubstituteVars(b, inject)
    decreases |u| - n
  {
    if n == |u| {
      Spent(u, b);
      Spent(u, SubstituteVars(b, inject));
    } else {
      NoTokenInside(u, name, n, b);
      UnknownStays(u, name, n + 1, b, inject);
      Front(u, n, b);
      Front(u, n, SubstituteVars(b, inject));
      SubstituteUnit(u[n], u[n + 1..] + b, inject);
    }
  }

  /** A token in front of an unknown one does not reach into it. */
  lemma TokenStaysBefore(tok: Token, a: Text, u: Text, name: Text, b: Text)
    requires IsUnknown(u, name) && a != [] && TokenText(tok) <= a + (u + b)
    ensures |TokenText(tok)| <= |a|
  {
    var t, text := a + (u + b), TokenText(tok);
    if |a| < |text| {
      UnknownUnits(u, name, 0);
      UnknownUnits(u, name, 1);
      assert text[|a|] == t[|a|] == u[0];
      TokenBraces(tok, |a|);
      assert |a| + 1 < |text| && text[|a| + 1] == t[|a| + 1] == u[1];
      TokenBraces(tok, |a| + 1);
      BareBehindQuote(tok, a, u + b);
      NotBare(u, name, b, tok.variable);
    }
  }

  lemma BareBehindQuote(tok: Token, a: Text, k: Text)
    requires tok.quoted && |a| == 1 && TokenText(tok) <= a + k
    ensures BareToken(tok.variable) <= k
  {
    var bare := BareToken(tok.variable);
    forall i | 0 <= i < |bare| ensures bare[i] == k[i] { assert TokenText(tok)[i + 1] == (a + k)[i + 1]; }
  }

  lemma Grouped(a: Text, k: Text, m: Text)
    ensures a + k + m == a + (k + m)
  {
  }

  /** Substitution leaves an unknown token standing, whatever surrounds it. */
  lemma {:induction false} UnknownIsLeft(a: Text, u: Text, name: Text, b: Text, inject: (Variable, bool) -> Text)
      returns (before: Text)
    requires IsUnknown(u, name)
    ensures SubstituteVars(a + (u + b), inject) == before + (u + SubstituteVars(b, inject))
    decreases |a|
  {
    var k, left := u + b, u + SubstituteVars(b, inject);
    if a == [] {
      assert a + k == k && u[0..] == u;
      UnknownStays(u, name, 0, b, inject);
      before := [];
      assert before + left == left;
    } else {
      var tok := TokenAt(a + k);
      if tok.Some? {
        var text, put := TokenText(tok.value), inject(tok.value.variable, tok.value.quoted);
        TokenStaysBefore(tok.value, a, u, name, b);
        TokenSplits(text, a, k);
        TokenBraces(tok.value, 0);
        var rest := UnknownIsLeft(a[|text|..], u, name, b, inject);
        SubstituteToken(tok.value, a[|text|..] + k, inject);
        before := put + rest;
        Grouped(put, rest, left);
      } else {
        var rest := UnknownIsLeft(a[1..], u, name, b, inject);
        Uncons(a, k);
        SubstituteUnit(a[0], a[1..] + k, inject);
        before := [a[0]] + rest;
        Grouped([a[0]], rest, left);
      }
    }
  }

  lemma TokenSplits(text: Text, a: Text, k: Text)
    requires text <= a + k && |text| <= |a|
    ensures a + k == text + (a[|text|..] + k)
  {
    assert text <= a;
  }

  /** A template with a complete token around a name that is no variable's is refused for it. */
  lemma UnknownNameIsRefused(text: Text, a: Text, name: Text, b: Text)
    requires |Trim(text)| <= MAX_LENGTH && Trim(text) == a + (OPEN + name + CLOSE) + b
    requires name != [] && NoBrace(name) && !IsKnown(name)
    ensures ValidatePayloadTemplate(Written(text)) == Rejected(UnknownVariable)
  {
    var t := Trim(text);
    Grouped(a, OPEN + name + CLOSE, b);
    UnknownIsHeld(t, a, name, b);
    RefusedExactly(text);
  }

  lemma UnknownIsHeld(t: Text, a: Text, name: Text, b: Text)
    requires t == a + ((OPEN + name + CLOSE) + b) && name != [] && NoBrace(name) && !IsKnown(name)
    ensures NamesSomething(SubstitutePlaceholders(t))
  {
    var u, p := OPEN + name + CLOSE, Placeholder();
    var inject := (v: Variable, quoted: bool) => if quoted then [QUOTE] + p + [QUOTE] else p;
    var before := UnknownIsLeft(a, u, name, b, inject);
    Grouped(before, u, SubstituteVars(b, inject));
    assert SubstitutePlaceholders(t) == SubstituteVars(t, inject);
    assert HoldsToken(SubstitutePlaceholders(t), name);
  }
}
