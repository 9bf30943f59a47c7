/**
  Notification payload templates: every rendering is the template's own tree with its variables filled.
*/
module PayloadTemplate {
  import opened Common
  import opened TemplateVocabulary
  import opened JsonText

  const MAX_LENGTH := 8000

  function PlaceholderUnit(i: nat): CodeUnit
    requires i < 25
  {
    [0x5F, 0x5F, 0x73, 0x65, 0x6E, 0x63, 0x68, 0x6F, 0x5F, 0x74, 0x65, 0x6D, 0x70, 0x6C, 0x61, 0x74, 0x65,
     0x5F, 0x76, 0x61, 0x6C, 0x75, 0x65, 0x5F, 0x5F][i]
  }

  /** `__sencho_template_value__` */
  function Placeholder(): Text {
    seq(25, i requires 0 <= i < 25 => PlaceholderUnit(i))
  }

  // ------------------------------------------------------- string contents

  function HexDigitValue(c: CodeUnit): (n: int)
    requires IsHexDigit(c)
    ensures 0 <= n < 16
  {
    if IsDigit(c) then c - 0x30 else if c >= 0x61 then c - 0x61 + 10 else c - 0x41 + 10
  }

  /** The code unit a well-formed piece stands for. */
  function PieceUnit(p: Piece): CodeUnit
    requires WfPiece(p)
  {
    match p
    case Raw(c) => c
    case Short(c) =>
      if c == 0x62 then 0x08 else if c == 0x66 then 0x0C else if c == 0x6E then 0x0A
      else if c == 0x72 then 0x0D else if c == 0x74 then 0x09 else c
    case Hex(d) =>
      HexDigitValue(d[0]) * 4096 + HexDigitValue(d[1]) * 256 + HexDigitValue(d[2]) * 16 + HexDigitValue(d[3])
  }

  /** The two-character escapes of section 7 of RFC 8259 that do not stand for their own letter. */
  lemma ShortEscapesAre()
    ensures PieceUnit(Short(0x62)) == 0x08 && PieceUnit(Short(0x66)) == 0x0C && PieceUnit(Short(0x6E)) == 0x0A
    ensures PieceUnit(Short(0x72)) == 0x0D && PieceUnit(Short(0x74)) == 0x09
    ensures forall c | c in {QUOTE, BACKSLASH, 0x2F} :: PieceUnit(Short(c)) == c
  {
  }

  /** The string value `JSON.parse` gives a literal. */
  function Decode(ps: List<Piece>): Text
    requires WfPieces(ps)
  {
    match ps
    case Nil => []
    case Snoc(init, p) => Decode(init) + [PieceUnit(p)]
  }

  function LowerHex(n: int): CodeUnit
    requires 0 <= n < 16
  {
    if n < 10 then 0x30 + n else 0x61 + (n - 10)
  }

  function HexDigits(c: CodeUnit): Text {
    [LowerHex(c / 4096), LowerHex(c / 256 % 16), LowerHex(c / 16 % 16), LowerHex(c % 16)]
  }

  lemma LowerHexValue(n: int)
    requires 0 <= n < 16
    ensures IsHexDigit(LowerHex(n)) && HexDigitValue(LowerHex(n)) == n
  {}

  lemma FourDigits(a: int, b: int, c: int, d: int)
    requires 0 <= a < 16 && 0 <= b < 16 && 0 <= c < 16 && 0 <= d < 16
    ensures var p := Hex([LowerHex(a), LowerHex(b), LowerHex(c), LowerHex(d)]);
      WfPiece(p) && PieceUnit(p) == a * 4096 + b * 256 + c * 16 + d
  {
    LowerHexValue(a);
    LowerHexValue(b);
    LowerHexValue(c);
    LowerHexValue(d);
  }

  lemma HexSum(c: CodeUnit)
    ensures 0 <= c / 4096 < 16 && c == c / 4096 * 4096 + c / 256 % 16 * 256 + c / 16 % 16 * 16 + c % 16
  {
    assert c / 16 == c / 256 * 16 + c / 16 % 16;
    assert c / 256 == c / 4096 * 16 + c / 256 % 16;
  }

  lemma HexRoundTrip(c: CodeUnit)
    ensures WfPiece(Hex(HexDigits(c))) && PieceUnit(Hex(HexDigits(c))) == c
  {
    HexSum(c);
    FourDigits(c / 4096, c / 256 % 16, c / 16 % 16, c % 16);
  }

  predicate IsLead(c: CodeUnit) { 0xD800 <= c < 0xDC00 }

  predicate IsTrail(c: CodeUnit) { 0xDC00 <= c < 0xE000 }

  /** How `JSON.stringify` writes one code unit that is not part of a surrogate pair. */
  function EscapeUnit(c: CodeUnit): (p: Piece)
    ensures WfPiece(p) && PieceUnit(p) == c
  {
    if c == 0x08 then Short(0x62)
    else if c == 0x09 then Short(0x74)
    else if c == 0x0A then Short(0x6E)
    else if c == 0x0C then Short(0x66)
    else if c == 0x0D then Short(0x72)
    else if c == QUOTE || c == BACKSLASH then Short(c)
    else if c < 0x20 || IsLead(c) || IsTrail(c) then
      HexRoundTrip(c);
      Hex(HexDigits(c))
    else Raw(c)
  }

  /** The escaped form of `value`, after the pieces already written. */
  function EscapeOnto(done: List<Piece>, value: Text): List<Piece>
    decreases |value|
  {
    if value == [] then done
    else if |value| >= 2 && IsLead(value[0]) && IsTrail(value[1]) then
      EscapeOnto(Snoc(Snoc(done, Raw(value[0])), Raw(value[1])), value[2..])
    else EscapeOnto(Snoc(done, EscapeUnit(value[0])), value[1..])
  }

  function EscapePieces(value: Text): List<Piece> {
    EscapeOnto(Nil, value)
  }

  /** `JSON.stringify` of a string. */
  function Stringify(value: Text): Text {
    PrintString(EscapePieces(value), [])
  }

  /** The literal without its quotes. */
  function EscapeStringContent(value: Text): (t: Text) {
    var literal := Stringify(value);
    PrintPiecesLength(EscapePieces(value), [QUOTE] + []);
    literal[1..|literal| - 1]
  }

  lemma {:induction false} PrintPiecesLength(ps: List<Piece>, k: Text)
    ensures |PrintPieces(ps, k)| >= |k|
    decreases ps
  {
    if ps.Snoc? { PrintPiecesLength(ps.init, PrintPiece(ps.last, k)); }
  }

  lemma JoinHead(a: Text, v: Text)
    requires v != []
    ensures a + [v[0]] + v[1..] == a + v
  {}

  lemma {:induction false} EscapeOntoDecodes(done: List<Piece>, value: Text)
    requires WfPieces(done)
    ensures WfPieces(EscapeOnto(done, value)) && Decode(EscapeOnto(done, value)) == Decode(done) + value
    decreases |value|
  {
    if value == [] {
      assert Decode(done) + value == Decode(done);
    } else if |value| >= 2 && IsLead(value[0]) && IsTrail(value[1]) {
      EscapeOntoDecodes(Snoc(Snoc(done, Raw(value[0])), Raw(value[1])), value[2..]);
      JoinHead(Decode(done) + [value[0]], value[1..]);
      JoinHead(Decode(done), value);
      assert value[1..][1..] == value[2..];
    } else {
      EscapeOntoDecodes(Snoc(done, EscapeUnit(value[0])), value[1..]);
      JoinHead(Decode(done), value);
    }
  }

  /** Stringify round trip: the escaped pieces are well formed and decode to the value, unit by unit. */
  lemma EscapeRoundTrip(value: Text)
    ensures WfPieces(EscapePieces(value)) && Decode(EscapePieces(value)) == value
  {
    EscapeOntoDecodes(Nil, value);
    assert [] + value == value;
  }

  lemma {:induction false} PrintPiecesShift(ps: List<Piece>, k: Text, m: Text)
    ensures PrintPieces(ps, k + m) == PrintPieces(ps, k) + m
    decreases ps
  {
    if ps.Snoc? {
      PrintPieceShift(ps.last, k, m);
      PrintPiecesShift(ps.init, PrintPiece(ps.last, k), m);
    }
  }

  lemma Regroup(a: Text, k: Text, m: Text)
    ensures a + (k + m) == a + k + m
  {}

  lemma PrintPieceShift(p: Piece, k: Text, m: Text)
    ensures PrintPiece(p, k + m) == PrintPiece(p, k) + m
  {
    match p
    case Raw(c) => Regroup([c], k, m);
    case Short(c) =>
      Regroup([c], k, m);
      Regroup([BACKSLASH], [c] + k, m);
    case Hex(d) =>
      Regroup(d, k, m);
      Regroup([LETTER_U], d + k, m);
      Regroup([BACKSLASH], [LETTER_U] + (d + k), m);
    case Hole(v) => Regroup(BareToken(v), k, m);
  }

  lemma Unquote(x: Text)
    ensures var literal := [QUOTE] + (x + [QUOTE]); literal[1..|literal| - 1] == x
  {}

  lemma FromNothing(k: Text)
    ensures var none: Text := []; none + k == k == k + none
  {}

  /** The in-string form is the literal without its quotes. */
  lemma EscapedContent(value: Text, k: Text)
    ensures EscapeStringContent(value) + k == PrintPieces(EscapePieces(value), k)
  {
    var ps, none: Text := EscapePieces(value), [];
    var x := PrintPieces(ps, none);
    FromNothing(k);
    FromNothing([QUOTE]);
    PrintPiecesShift(ps, none, k);
    PrintPiecesShift(ps, none, [QUOTE]);
    Unquote(x);
    assert Stringify(value) == [QUOTE] + (x + [QUOTE]);
  }

  lemma Requote(x: Text, k: Text)
    ensures [QUOTE] + x + k == [QUOTE] + (x + k)
    ensures var none: Text := []; [QUOTE] + none + k == [QUOTE] + k
  {}

  lemma StringifyThen(value: Text, k: Text)
    ensures Stringify(value) + k == PrintString(EscapePieces(value), k)
  {
    var ps := EscapePieces(value);
    PrintPiecesShift(ps, [QUOTE] + [], k);
    Requote(PrintPieces(ps, [QUOTE] + []), k);
  }

  // ---------------------------------------------------------- substitution

  /** A matched variable: `"{{name}}"` when quoted, `{{name}}` otherwise. */
  datatype Token = Token(quoted: bool, variable: Variable)

  function TokenText(tok: Token): Text {
    if tok.quoted then [QUOTE] + BareToken(tok.variable) + [QUOTE] else BareToken(tok.variable)
  }

  const VARIABLES: seq<Variable> := [Level, Message, Category, Timestamp, StackName, Actor]

  /** The first alternative of the given form that matches at the head of `t`. */
  function FirstMatch(t: Text, quoted: bool, from: nat): (r: Option<Token>)
    requires from <= |VARIABLES|
    ensures r.Some? ==> r.value.quoted == quoted && TokenText(r.value) <= t
    ensures r.None? ==> forall i | from <= i < |VARIABLES| :: !(TokenText(Token(quoted, VARIABLES[i])) <= t)
    decreases |VARIABLES| - from
  {
    if from == |VARIABLES| then None
    else if TokenText(Token(quoted, VARIABLES[from])) <= t then Some(Token(quoted, VARIABLES[from]))
    else FirstMatch(t, quoted, from + 1)
  }

  /** The variable token at the head of `t`; the quoted alternative is tried first. */
  function TokenAt(t: Text): (r: Option<Token>)
    ensures r.Some? ==> TokenText(r.value) <= t
    ensures r.None? ==> forall tok: Token :: !(TokenText(tok) <= t)
  {
    var q := FirstMatch(t, true, 0);
    var r := if q.Some? then q else FirstMatch(t, false, 0);
    NoOtherToken(t);
    r
  }

  lemma NoOtherToken(t: Text)
    ensures FirstMatch(t, true, 0).None? && FirstMatch(t, false, 0).None? ==> forall tok: Token ::
      !(TokenText(tok) <= t)
  {
    if FirstMatch(t, true, 0).None? && FirstMatch(t, false, 0).None? {
      forall tok: Token ensures !(TokenText(tok) <= t) {
        var i := match tok.variable
          case Level => 0 case Message => 1 case Category => 2 case Timestamp => 3 case StackName => 4 case Actor => 5;
        assert VARIABLES[i] == tok.variable;
        assert tok == Token(tok.quoted, VARIABLES[i]);
      }
    }
  }

  /** The first unit of its name tells a variable from the others. */
  lemma InitialsDiffer(v: Variable, w: Variable)
    requires NameOf(v)[0] == NameOf(w)[0]
    ensures v == w
  {
  }

  lemma BareStarts(v: Variable)
    ensures |BareToken(v)| > 3 && BareToken(v)[0] != QUOTE && BareToken(v)[2] == NameOf(v)[0]
  {
  }

  lemma TokenStarts(tok: Token, t: Text)
    requires TokenText(tok) <= t
    ensures |t| > 3 && (tok.quoted <==> t[0] == QUOTE) && NameOf(tok.variable)[0] == if tok.quoted then t[3] else t[2]
  {
    BareStarts(tok.variable);
    var text := TokenText(tok);
    assert |text| > 3 && text[0] == t[0] && text[2] == t[2] && text[3] == t[3];
    if tok.quoted { assert text[3] == BareToken(tok.variable)[2]; }
  }

  lemma TokensAgree(a: Token, b: Token, t: Text)
    requires TokenText(a) <= t && TokenText(b) <= t
    ensures a == b
  {
    TokenStarts(a, t);
    TokenStarts(b, t);
    InitialsDiffer(a.variable, b.variable);
  }

  /** Whichever alternative is tried first: the token found is the only one that matches. */
  lemma TokenExact(t: Text, tok: Token)
    ensures TokenAt(t) == Some(tok) <==> TokenText(tok) <= t
  {
    if TokenText(tok) <= t { TokensAgree(TokenAt(t).value, tok, t); }
  }

  /** Replace every token, left to right, with what `inject` gives for it. */
  function SubstituteVars(t: Text, inject: (Variable, bool) -> Text): Text
    decreases |t|
  {
    if t == [] then []
    else
      var tok := TokenAt(t);
      if tok.Some? then
        inject(tok.value.variable, tok.value.quoted) + SubstituteVars(t[|TokenText(tok.value)|..], inject)
      else [t[0]] + SubstituteVars(t[1..], inject)
  }

  type Vars = map<Variable, Text>

  /** A missing variable renders as the empty string. */
  function ValueOf(vars: Vars, v: Variable): Text {
    if v in vars then vars[v] else []
  }

  function InjectValue(vars: Vars, v: Variable, quoted: bool): Text {
    if quoted then Stringify(ValueOf(vars, v)) else EscapeStringContent(ValueOf(vars, v))
  }

  function RenderedText(t: Text, vars: Vars): Text {
    SubstituteVars(t, (v, quoted) => InjectValue(vars, v, quoted))
  }

  /** `None` where rendering throws. */
  function RenderPayloadTemplate(t: Text, vars: Vars): Option<Elem> {
    Parse(RenderedText(t, vars))
  }

  function SubstituteWith(t: Text, placeholder: Text): Text {
    SubstituteVars(t, (v, quoted) => if quoted then [QUOTE] + placeholder + [QUOTE] else placeholder)
  }

  function SubstitutePlaceholders(t: Text): Text {
    SubstituteWith(t, Placeholder())
  }

  // ------------------------------------------------------------ validation

  datatype RawTemplate = Absent | NotAString | Written(text: Text)

  datatype Reason = NotString | TooLong | UnknownVariable | StrayToken | NotJson

  datatype Validation = Accepted(value: Option<Text>) | Rejected(reason: Reason)

  /** The characters `String.prototype.trim` removes. */
  predicate IsTrimmed(c: CodeUnit) {
    || 0x09 <= c <= 0x0D || c == 0x20 || c == 0xA0 || c == 0x1680 || 0x2000 <= c <= 0x200A
    || c == 0x2028 || c == 0x2029 || c == 0x202F || c == 0x205F || c == 0x3000 || c == 0xFEFF
  }

  function Trim(t: Text): Text
    decreases |t|
  {
    if t == [] then []
    else if IsTrimmed(t[0]) then Trim(t[1..])
    else if IsTrimmed(t[|t| - 1]) then Trim(t[..|t| - 1])
    else t
  }

  predicate Contains(t: Text, pattern: Text) {
    exists i | 0 <= i <= |t| :: pattern <= t[i..]
  }

  /** A complete `{{…}}` with something other than braces inside. */
  predicate HasUnknownToken(t: Text) {
    exists i, j | 0 <= i <= |t| && i + 2 < j <= |t| ::
      && OPEN <= t[i..] && CLOSE <= t[j..]
      && forall m | i + 2 <= m < j :: t[m] != LBRACE && t[m] != RBRACE
  }

  function ValidatePayloadTemplate(raw: RawTemplate): Validation {
    match raw
    case Absent => Accepted(None)
    case NotAString => Rejected(NotString)
    case Written(text) =>
      var trimmed := Trim(text);
      if trimmed == [] then Accepted(None)
      else if |trimmed| > MAX_LENGTH then Rejected(TooLong)
      else
        CheckSubstituted(trimmed, SubstitutePlaceholders(trimmed))
  }

  function CheckSubstituted(trimmed: Text, substituted: Text): Validation {
    if HasUnknownToken(substituted) then Rejected(UnknownVariable)
    else if Contains(substituted, OPEN) then Rejected(StrayToken)
    else if Parse(substituted).None? then Rejected(NotJson)
    else Accepted(Some(trimmed))
  }

  // ------------------------------------------- the tree of a template

  /** Reading a whole token in the parse of the template itself. */
  function StepToken(s: State, tok: Token): State {
    match s
    case Want(fs, pre) => if tok.quoted then After(fs, pre, Str(Snoc(Nil, Hole(tok.variable))), []) else Error
    case WantKey(fs, opre, ms, kpre) =>
      if tok.quoted then AfterKey(fs, opre, ms, kpre, Snoc(Nil, Hole(tok.variable)), []) else Error
    case InStr(fs, role, ps, esc) =>
      if tok.quoted then
        // The token's first quote is the escaped one; its last quote closes the string.
        if esc == Slash then CloseString(fs, role, Snoc(Snoc(ps, Short(QUOTE)), Hole(tok.variable))) else Error
      else if esc == Plain then InStr(fs, role, Snoc(ps, Hole(tok.variable)), Plain)
      else Error
    case _ => Error
  }

  function RunTemplate(s: State, t: Text): State
    decreases |t|
  {
    if t == [] then s
    else
      var tok := TokenAt(t);
      if tok.Some? then RunTemplate(StepToken(s, tok.value), t[|TokenText(tok.value)|..])
      else RunTemplate(Step(s, t[0]), t[1..])
  }

  /** The parse of a template, variables read as holes. */
  function TemplateTree(t: Text): Option<Elem> {
    Finish(RunTemplate(START, t))
  }

  function FillPieces(ps: List<Piece>, vars: Vars): List<Piece> {
    match ps
    case Nil => Nil
    case Snoc(init, Hole(v)) => Append(FillPieces(init, vars), EscapePieces(ValueOf(vars, v)))
    case Snoc(init, p) => Snoc(FillPieces(init, vars), p)
  }

  /** A tree with every hole replaced by its variable's escaped value. */
  function FillValue(v: Value, vars: Vars): Value
    decreases v
  {
    match v
    case Word(_) => v
    case Num(_) => v
    case Str(ps) => Str(FillPieces(ps, vars))
    case Arr(blank, es) => Arr(blank, FillElems(es, vars))
    case Obj(blank, ms) => Obj(blank, FillMembers(ms, vars))
  }

  function FillElem(e: Elem, vars: Vars): Elem
    decreases e
  {
    Elem(e.pre, FillValue(e.value, vars), e.post)
  }

  function FillMember(m: Member, vars: Vars): Member
    decreases m
  {
    Member(m.pre, FillPieces(m.key, vars), m.mid, FillElem(m.elem, vars))
  }

  function FillElems(es: List<Elem>, vars: Vars): List<Elem>
    decreases es
  {
    match es
    case Nil => Nil
    case Snoc(init, e) => Snoc(FillElems(init, vars), FillElem(e, vars))
  }

  function FillMembers(ms: List<Member>, vars: Vars): List<Member>
    decreases ms
  {
    match ms
    case Nil => Nil
    case Snoc(init, m) => Snoc(FillMembers(init, vars), FillMember(m, vars))
  }

  function FillFrame(f: Frame, vars: Vars): Frame {
    match f
    case ArrF(pre, es) => ArrF(pre, FillElems(es, vars))
    case ObjF(pre, ms, kpre, key, mid) => ObjF(pre, FillMembers(ms, vars), kpre, FillPieces(key, vars), mid)
  }

  function FillFrames(fs: Frames, vars: Vars): Frames {
    match fs
    case Nil => Nil
    case Snoc(rest, f) => Snoc(FillFrames(rest, vars), FillFrame(f, vars))
  }

  function FillRole(role: Role, vars: Vars): Role {
    match role
    case AsValue(pre) => role
    case AsKey(opre, ms, kpre) => AsKey(opre, FillMembers(ms, vars), kpre)
  }

  function FillState(s: State, vars: Vars): State {
    match s
    case Error => Error
    case Want(fs, pre) => Want(FillFrames(fs, vars), pre)
    case WantKey(fs, opre, ms, kpre) => WantKey(FillFrames(fs, vars), opre, FillMembers(ms, vars), kpre)
    case InStr(fs, role, ps, esc) => InStr(FillFrames(fs, vars), FillRole(role, vars), FillPieces(ps, vars), esc)
    case AfterKey(fs, opre, ms, kpre, key, mid) =>
      AfterKey(FillFrames(fs, vars), opre, FillMembers(ms, vars), kpre, FillPieces(key, vars), mid)
    case InNum(fs, pre, digits, phase) => InNum(FillFrames(fs, vars), pre, digits, phase)
    case InWord(fs, pre, letters) => InWord(FillFrames(fs, vars), pre, letters)
    case After(fs, pre, v, post) => After(FillFrames(fs, vars), pre, FillValue(v, vars), post)
  }

  lemma FillStepAfter(fs: Frames, pre: Text, v: Value, post: Text, c: CodeUnit, vars: Vars)
    ensures FillState(StepAfter(fs, pre, v, post, c), vars)
         == StepAfter(FillFrames(fs, vars), pre, FillValue(v, vars), post, c)
  {
    if fs.Snoc? && !IsSpace(c) {
      var e := Elem(pre, v, post);
      assert FillElem(e, vars) == Elem(pre, FillValue(v, vars), post);
      match fs.last
      case ArrF(apre, es) => assert FillElems(Snoc(es, e), vars) == Snoc(FillElems(es, vars), FillElem(e, vars));
      case ObjF(opre, ms, kpre, key, mid) =>
        var m := Member(kpre, key, mid, e);
        assert FillMembers(Snoc(ms, m), vars) == Snoc(FillMembers(ms, vars), FillMember(m, vars));
    }
  }

  lemma FillSnoc(ps: List<Piece>, p: Piece, vars: Vars)
    requires !p.Hole?
    ensures FillPieces(Snoc(ps, p), vars) == Snoc(FillPieces(ps, vars), p)
  {}

  lemma FillClose(fs: Frames, role: Role, ps: List<Piece>, vars: Vars)
    ensures FillState(CloseString(fs, role, ps), vars)
      == CloseString(FillFrames(fs, vars), FillRole(role, vars), FillPieces(ps, vars))
  {}

  lemma FillStepPlain(fs: Frames, role: Role, ps: List<Piece>, c: CodeUnit, vars: Vars)
    ensures FillState(StepString(fs, role, ps, Plain, c), vars)
         == StepString(FillFrames(fs, vars), FillRole(role, vars), FillPieces(ps, vars), Plain, c)
  {
    FillClose(fs, role, ps, vars);
    FillSnoc(ps, Raw(c), vars);
  }

  lemma FillStepSlash(fs: Frames, role: Role, ps: List<Piece>, c: CodeUnit, vars: Vars)
    ensures FillState(StepString(fs, role, ps, Slash, c), vars)
         == StepString(FillFrames(fs, vars), FillRole(role, vars), FillPieces(ps, vars), Slash, c)
  {
    FillSnoc(ps, Short(c), vars);
  }

  lemma FillStepUnicode(fs: Frames, role: Role, ps: List<Piece>, d: Text, c: CodeUnit, vars: Vars)
    ensures FillState(StepString(fs, role, ps, Unicode(d), c), vars)
         == StepString(FillFrames(fs, vars), FillRole(role, vars), FillPieces(ps, vars), Unicode(d), c)
  {
    FillSnoc(ps, Hex(d + [c]), vars);
  }

  lemma FillStepString(fs: Frames, role: Role, ps: List<Piece>, esc: Escape, c: CodeUnit, vars: Vars)
    ensures FillState(StepString(fs, role, ps, esc, c), vars)
         == StepString(FillFrames(fs, vars), FillRole(role, vars), FillPieces(ps, vars), esc, c)
  {
    match esc
    case Plain => FillStepPlain(fs, role, ps, c, vars);
    case Slash => FillStepSlash(fs, role, ps, c, vars);
    case Unicode(d) => FillStepUnicode(fs, role, ps, d, c, vars);
  }

  lemma FillStepWant(fs: Frames, pre: Text, c: CodeUnit, vars: Vars)
    ensures FillState(StepWant(fs, pre, c), vars) == StepWant(FillFrames(fs, vars), pre, c)
  {}

  lemma FillStepWantKey(fs: Frames, opre: Text, ms: List<Member>, kpre: Text, c: CodeUnit, vars: Vars)
    ensures FillState(StepWantKey(fs, opre, ms, kpre, c), vars)
      == StepWantKey(FillFrames(fs, vars), opre, FillMembers(ms, vars), kpre, c)
  {}

  /** Reading a character commutes with filling the holes. */
  lemma FillStep(s: State, c: CodeUnit, vars: Vars)
    ensures FillState(Step(s, c), vars) == Step(FillState(s, vars), c)
  {
    match s
    case Want(fs, pre) => FillStepWant(fs, pre, c, vars);
    case WantKey(fs, opre, ms, kpre) => FillStepWantKey(fs, opre, ms, kpre, c, vars);
    case InStr(fs, role, ps, esc) => FillStepString(fs, role, ps, esc, c, vars);
    case InNum(fs, pre, digits, phase) => FillStepAfter(fs, pre, Num(digits), [], c, vars);
    case After(fs, pre, v, post) => FillStepAfter(fs, pre, v, post, c, vars);
    case _ =>
  }

  lemma ReadAfterSlash(fs: Frames, role: Role, ps: List<Piece>, es: List<Piece>, k: Text)
    requires WfPieces(es)
    ensures Run(InStr(fs, role, ps, Slash), PrintString(es, k))
      == Run(CloseString(fs, role, Append(Snoc(ps, Short(QUOTE)), es)), k)
  {
    var qs := Snoc(ps, Short(QUOTE));
    RunCons(InStr(fs, role, ps, Slash), QUOTE, PrintPieces(es, [QUOTE] + k));
    RunPieces(fs, role, qs, es, [QUOTE] + k);
    RunCons(InStr(fs, role, Append(qs, es), Plain), QUOTE, k);
  }

  lemma FillBare(fs: Frames, role: Role, ps: List<Piece>, v: Variable, vars: Vars, k: Text)
    ensures Run(FillState(InStr(fs, role, ps, Plain), vars), InjectValue(vars, v, false) + k)
      == Run(FillState(InStr(fs, role, Snoc(ps, Hole(v)), Plain), vars), k)
  {
    var value := ValueOf(vars, v);
    EscapeRoundTrip(value);
    EscapedContent(value, k);
    RunPieces(FillFrames(fs, vars), FillRole(role, vars), FillPieces(ps, vars), EscapePieces(value), k);
  }

  lemma FillQuoted(fs: Frames, role: Role, ps: List<Piece>, v: Variable, vars: Vars, k: Text)
    ensures Run(FillState(InStr(fs, role, ps, Slash), vars), InjectValue(vars, v, true) + k)
      == Run(FillState(CloseString(fs, role, Snoc(Snoc(ps, Short(QUOTE)), Hole(v))), vars), k)
  {
    var value := ValueOf(vars, v);
    var es, qs := EscapePieces(value), FillPieces(ps, vars);
    EscapeRoundTrip(value);
    StringifyThen(value, k);
    assert FillPieces(Snoc(ps, Short(QUOTE)), vars) == Snoc(qs, Short(QUOTE));
    ReadAfterSlash(FillFrames(fs, vars), FillRole(role, vars), qs, es, k);
    FillClose(fs, role, Snoc(Snoc(ps, Short(QUOTE)), Hole(v)), vars);
  }

  lemma FillTokenInString(s: State, tok: Token, vars: Vars, k: Text)
    requires s.InStr? && StepToken(s, tok) != Error
    ensures Run(FillState(s, vars), InjectValue(vars, tok.variable, tok.quoted) + k)
      == Run(FillState(StepToken(s, tok), vars), k)
  {
    if tok.quoted {
      FillQuoted(s.fs, s.role, s.ps, tok.variable, vars, k);
    } else {
      FillBare(s.fs, s.role, s.ps, tok.variable, vars, k);
    }
  }

  lemma FillTokenAlone(s: State, tok: Token, vars: Vars, k: Text)
    requires !s.InStr? && StepToken(s, tok) != Error
    ensures Run(FillState(s, vars), InjectValue(vars, tok.variable, tok.quoted) + k)
      == Run(FillState(StepToken(s, tok), vars), k)
  {
    var value := ValueOf(vars, tok.variable);
    var es, fs := EscapePieces(value), FillFrames(s.fs, vars);
    EscapeRoundTrip(value);
    StringifyThen(value, k);
    AppendNil(es);
    assert FillPieces(Snoc(Nil, Hole(tok.variable)), vars) == es;
    var role := if s.Want? then AsValue(s.pre) else AsKey(s.opre, FillMembers(s.members, vars), s.kpre);
    RunString(FillState(s, vars), fs, role, es, k);
  }

  /** Reading the injected text of a token lands in the filled successor of the token itself. */
  lemma FillStepToken(s: State, tok: Token, vars: Vars, k: Text)
    requires StepToken(s, tok) != Error
    ensures Run(FillState(s, vars), InjectValue(vars, tok.variable, tok.quoted) + k)
      == Run(FillState(StepToken(s, tok), vars), k)
  {
    if s.InStr? { FillTokenInString(s, tok, vars, k); } else { FillTokenAlone(s, tok, vars, k); }
  }

  /** Where the template's own parse does not fail, every rendering runs through its filled states. */
  lemma {:induction false} RenderFollowsTemplate(s: State, t: Text, vars: Vars)
    requires RunTemplate(s, t) != Error
    ensures Run(FillState(s, vars), RenderedText(t, vars)) == FillState(RunTemplate(s, t), vars)
    decreases |t|
  {
    if t != [] {
      var tok := TokenAt(t);
      if tok.Some? {
        var rest := t[|TokenText(tok.value)|..];
        var next := StepToken(s, tok.value);
        if next == Error { RunTemplateError(rest); }
        RenderFollowsTemplate(next, rest, vars);
        FillStepToken(s, tok.value, vars, RenderedText(rest, vars));
      } else {
        var next := Step(s, t[0]);
        if next == Error { RunTemplateError(t[1..]); }
        RenderFollowsTemplate(next, t[1..], vars);
        FillStep(s, t[0], vars);
        RunCons(FillState(s, vars), t[0], RenderedText(t[1..], vars));
      }
    }
  }

  lemma {:induction false} RunTemplateError(t: Text)
    ensures RunTemplate(Error, t) == Error
    decreases |t|
  {
    if t != [] {
      var tok := TokenAt(t);
      RunTemplateError(if tok.Some? then t[|TokenText(tok.value)|..] else t[1..]);
    }
  }

  // -------------------------------------------- the placeholder is exact

  const UNDERSCORE: CodeUnit := 0x5F

  lemma NoUnderscore(t: Text)
    requires t != [] && t[|t| - 1] == UNDERSCORE
    ensures !IsWordPrefix(t) && !IsWord(t)
  {
    assert forall i | 0 <= i < |TRUE| :: TRUE[i] != UNDERSCORE;
    assert forall i | 0 <= i < |FALSE| :: FALSE[i] != UNDERSCORE;
    assert forall i | 0 <= i < |NULL| :: NULL[i] != UNDERSCORE;
  }

  lemma UnderscoreFails(s: State)
    requires !s.InStr? || s.esc != Plain
    ensures Step(s, UNDERSCORE) == Error
  {
    if s.InWord? {
      NoUnderscore(s.letters + [UNDERSCORE]);
    } else if s.Want? {
      NoUnderscore([UNDERSCORE]);
    }
  }

  /** Text like the placeholder: letters and underscores, an underscore first. */
  ghost predicate Underscored(value: Text) {
    && value != [] && value[0] == UNDERSCORE
    && forall i | 0 <= i < |value| :: value[i] == UNDERSCORE || 0x61 <= value[i] <= 0x7A
  }

  lemma {:induction false} PlainEscape(done: List<Piece>, t: Text, k: Text)
    requires forall i | 0 <= i < |t| :: t[i] == UNDERSCORE || 0x61 <= t[i] <= 0x7A
    ensures PrintPieces(EscapeOnto(done, t), k) == PrintPieces(done, t + k)
    decreases |t|
  {
    if t == [] {
      assert t + k == k;
    } else {
      PlainEscape(Snoc(done, Raw(t[0])), t[1..], k);
      Uncons(t, k);
    }
  }

  /** Such text is its own escaped form. */
  lemma UnderscoredIsPlain(p: Text)
    requires Underscored(p)
    ensures EscapeStringContent(p) == p && Stringify(p) == [QUOTE] + p + [QUOTE]
  {
    var none: Text := [];
    PlainEscape(Nil, p, []);
    PlainEscape(Nil, p, [QUOTE] + []);
    EscapedContent(p, []);
    assert EscapeStringContent(p) + none == EscapeStringContent(p) && p + none == p;
    assert [QUOTE] + (p + ([QUOTE] + [])) == [QUOTE] + p + [QUOTE];
  }

  lemma SplitPlaceholder(value: Text, k: Text)
    requires value != [] && value[0] == UNDERSCORE
    ensures value + k == [UNDERSCORE] + (value[1..] + k)
    ensures [QUOTE] + value + [QUOTE] + k == [QUOTE] + ([UNDERSCORE] + (value[1..] + ([QUOTE] + k)))
  {}

  /** A token the template cannot hold is one its placeholder breaks. */
  lemma PlaceholderFails(s: State, tok: Token, vars: Vars, k: Text)
    requires StepToken(s, tok) == Error && Underscored(ValueOf(vars, tok.variable))
    ensures Run(FillState(s, vars), InjectValue(vars, tok.variable, tok.quoted) + k) == Error
  {
    var f := FillState(s, vars);
    var value := ValueOf(vars, tok.variable);
    SplitPlaceholder(value, k);
    UnderscoredIsPlain(value);
    if tok.quoted {
      var tail := value[1..] + ([QUOTE] + k);
      RunError(tail);
      RunError([UNDERSCORE] + tail);
      RunCons(f, QUOTE, [UNDERSCORE] + tail);
      RunCons(Step(f, QUOTE), UNDERSCORE, tail);
      UnderscoreFails(Step(f, QUOTE));
    } else {
      RunError(value[1..] + k);
      RunCons(f, UNDERSCORE, value[1..] + k);
      UnderscoreFails(f);
    }
  }

  lemma PlaceholderUnderscored()
    ensures Underscored(Placeholder())
  {}

  ghost predicate AllPlaceholders(vars: Vars, p: Text) {
    Underscored(p) && forall v: Variable :: ValueOf(vars, v) == p
  }

  ghost function Uniform(p: Text): Vars {
    map[Level := p, Message := p, Category := p, Timestamp := p, StackName := p, Actor := p]
  }

  lemma UniformIsPlaceholders(p: Text)
    requires Underscored(p)
    ensures AllPlaceholders(Uniform(p), p)
  {
    forall v: Variable ensures ValueOf(Uniform(p), v) == p {
      match v
      case Level => case Message => case Category => case Timestamp => case StackName => case Actor =>
    }
  }

  /** Substituting the placeholder is rendering with every variable set to it. */
  lemma {:induction false} PlaceholdersRender(t: Text, vars: Vars, p: Text)
    requires AllPlaceholders(vars, p)
    ensures SubstituteWith(t, p) == RenderedText(t, vars)
    decreases |t|
  {
    if t != [] {
      UnderscoredIsPlain(p);
      var tok := TokenAt(t);
      if tok.Some? {
        assert ValueOf(vars, tok.value.variable) == p;
        PlaceholdersRender(t[|TokenText(tok.value)|..], vars, p);
      } else {
        PlaceholdersRender(t[1..], vars, p);
      }
    }
  }

  lemma {:induction false} PlaceholderFollowsTemplate(s: State, t: Text, vars: Vars, p: Text)
    requires RunTemplate(s, t) == Error && AllPlaceholders(vars, p)
    ensures Run(FillState(s, vars), RenderedText(t, vars)) == Error
    decreases |t|
  {
    if t != [] {
      var f := FillState(s, vars);
      var tok := TokenAt(t);
      if tok.Some? {
        var rest := t[|TokenText(tok.value)|..];
        var k := RenderedText(rest, vars);
        if StepToken(s, tok.value) == Error {
          assert ValueOf(vars, tok.value.variable) == p;
          PlaceholderFails(s, tok.value, vars, k);
        } else {
          PlaceholderFollowsTemplate(StepToken(s, tok.value), rest, vars, p);
          FillStepToken(s, tok.value, vars, k);
        }
      } else {
        PlaceholderFollowsTemplate(Step(s, t[0]), t[1..], vars, p);
        FillStep(s, t[0], vars);
        RunCons(f, t[0], RenderedText(t[1..], vars));
      }
    }
  }

  // -------------------------------------------------------- main theorems

  lemma {:induction false} TemplateText(s: State, t: Text, k: Text)
    requires RunTemplate(s, t) != Error
    ensures PrintState(RunTemplate(s, t), k) == PrintState(s, t + k)
    decreases |t|
  {
    if t == [] {
      assert t + k == k;
    } else {
      var tok := TokenAt(t);
      if tok.Some? {
        var n := |TokenText(tok.value)|;
        var next := StepToken(s, tok.value);
        if next == Error { RunTemplateError(t[n..]); }
        TemplateText(next, t[n..], k);
        TokenStepText(s, tok.value, t[n..] + k);
        RestoreToken(TokenText(tok.value), t, k);
      } else {
        var next := Step(s, t[0]);
        if next == Error { RunTemplateError(t[1..]); }
        TemplateText(next, t[1..], k);
        StepText(s, t[0], t[1..] + k);
        Uncons(t, k);
      }
    }
  }

  lemma RestoreToken(a: Text, t: Text, k: Text)
    requires a <= t
    ensures a + (t[|a|..] + k) == t + k
  {}

  lemma QuotedText(b: Text, k: Text)
    ensures [QUOTE] + b + [QUOTE] + k == [QUOTE] + (b + ([QUOTE] + k))
    ensures var none: Text := []; none + k == k
  {}

  lemma TokenStepText(s: State, tok: Token, k: Text)
    requires StepToken(s, tok) != Error
    ensures PrintState(StepToken(s, tok), k) == PrintState(s, TokenText(tok) + k)
  {
    var h, b := Hole(tok.variable), BareToken(tok.variable);
    QuotedText(b, k);
    if !s.InStr? {
      assert PrintPieces(Snoc(Nil, h), [QUOTE] + k) == b + ([QUOTE] + k);
    } else if tok.quoted {
      assert PrintPieces(Snoc(Snoc(s.ps, Short(QUOTE)), h), [QUOTE] + k)
          == PrintPieces(s.ps, PrintPiece(Short(QUOTE), b + ([QUOTE] + k)));
    }
  }

  /** The filled finish is the finish of the filled state. */
  lemma FinishFills(s: State, vars: Vars)
    ensures Finish(FillState(s, vars)) == if Finish(s).Some? then Some(FillElem(Finish(s).value, vars)) else None
  {}

  lemma RenderFillsTreeFor(t: Text, vars: Vars, p: Text)
    requires Underscored(p) && Parse(SubstituteWith(t, p)).Some?
    ensures TemplateTree(t).Some? && DocText(TemplateTree(t).value) == t
    ensures RenderPayloadTemplate(t, vars) == Some(FillElem(TemplateTree(t).value, vars))
  {
    var ph := Uniform(p);
    UniformIsPlaceholders(p);
    PlaceholdersRender(t, ph, p);
    if RunTemplate(START, t) == Error { PlaceholderFollowsTemplate(START, t, ph, p); }
    RenderFollowsTemplate(START, t, ph);
    RenderFollowsTemplate(START, t, vars);
    FinishFills(RunTemplate(START, t), ph);
    FinishFills(RunTemplate(START, t), vars);
    TemplateTreeText(t);
  }

  lemma TemplateTreeText(t: Text)
    requires TemplateTree(t).Some?
    ensures DocText(TemplateTree(t).value) == t
  {
    TemplateText(START, t, []);
    FinishText(RunTemplate(START, t));
    StartText(t);
  }

  lemma ParsesIffRenders(t: Text, p: Text)
    requires Underscored(p)
    ensures Parse(SubstituteWith(t, p)).Some? <==> forall vars: Vars :: RenderPayloadTemplate(t, vars).Some?
  {
    if Parse(SubstituteWith(t, p)).Some? {
      forall vars: Vars ensures RenderPayloadTemplate(t, vars).Some? { RenderFillsTreeFor(t, vars, p); }
    } else {
      UniformIsPlaceholders(p);
      PlaceholdersRender(t, Uniform(p), p);
      assert RenderPayloadTemplate(t, Uniform(p)).None?;
    }
  }

  /**
    A template whose placeholder form parses is itself the text of one tree with
    holes, and every rendering of it is that tree filled.
  */
  lemma RenderFillsTree(t: Text, vars: Vars)
    ensures Parse(SubstitutePlaceholders(t)).Some? ==>
      && TemplateTree(t).Some? && DocText(TemplateTree(t).value) == t
      && RenderPayloadTemplate(t, vars) == Some(FillElem(TemplateTree(t).value, vars))
  {
    PlaceholderUnderscored();
    if Parse(SubstitutePlaceholders(t)).Some? { RenderFillsTreeFor(t, vars, Placeholder()); }
  }

  /** A template accepted at save time renders to valid JSON for every assignment of values. */
  lemma AcceptedTemplateRenders(raw: RawTemplate, t: Text, vars: Vars)
    ensures ValidatePayloadTemplate(raw) == Accepted(Some(t)) ==> RenderPayloadTemplate(t, vars).Some?
  {
    if ValidatePayloadTemplate(raw) == Accepted(Some(t)) {
      AcceptedParses(raw, t);
      RenderFillsTree(t, vars);
    }
  }

  lemma CheckedParses(trimmed: Text, substituted: Text)
    ensures CheckSubstituted(trimmed, substituted).Accepted? ==>
      CheckSubstituted(trimmed, substituted) == Accepted(Some(trimmed))
    ensures CheckSubstituted(trimmed, substituted).Accepted? <==>
      Parse(substituted).Some? && !Contains(substituted, OPEN)
  {
  }

  lemma AcceptedParses(raw: RawTemplate, t: Text)
    ensures ValidatePayloadTemplate(raw) == Accepted(Some(t)) ==> Parse(SubstitutePlaceholders(t)).Some?
  {
    if raw.Written? { CheckedParses(Trim(raw.text), SubstitutePlaceholders(Trim(raw.text))); }
  }

  lemma PlaceholderParsesIffRenders(t: Text)
    ensures Parse(SubstitutePlaceholders(t)).Some? <==> forall vars: Vars :: RenderPayloadTemplate(t, vars).Some?
  {
    PlaceholderUnderscored();
    ParsesIffRenders(t, Placeholder());
  }

  /** The placeholder form parses exactly when the template itself is the text of a tree. */
  lemma TreeIffParses(t: Text)
    ensures Parse(SubstitutePlaceholders(t)).Some? <==> TemplateTree(t).Some?
  {
    PlaceholderUnderscored();
    var ph := Uniform(Placeholder());
    RenderFillsTree(t, ph);
    if TemplateTree(t).Some? {
      UniformIsPlaceholders(Placeholder());
      PlaceholdersRender(t, ph, Placeholder());
      RenderFollowsTemplate(START, t, ph);
      FinishFills(RunTemplate(START, t), ph);
    }
  }

  /**
    Validation is exact: past the length check it accepts precisely the templates that every
    assignment renders to valid JSON and that leave no `{{` behind.
  */
  lemma ValidationExact(text: Text)
    requires 0 < |Trim(text)| <= MAX_LENGTH
    ensures ValidatePayloadTemplate(Written(text)).Accepted? <==>
      && !Contains(SubstitutePlaceholders(Trim(text)), OPEN)
      && forall vars: Vars :: RenderPayloadTemplate(Trim(text), vars).Some?
  {
    CheckedParses(Trim(text), SubstitutePlaceholders(Trim(text)));
    PlaceholderParsesIffRenders(Trim(text));
  }

  // ---------------------------------------------------- decoded contents

  /** One unit of a template string's decoded text. */
  datatype Symbol = Lit(c: CodeUnit) | Var(variable: Variable)

  predicate WfOrHole(ps: List<Piece>) {
    ps.Snoc? ==> WfOrHole(ps.init) && (ps.last.Hole? || WfPiece(ps.last))
  }

  function DecodeSymbols(ps: List<Piece>): List<Symbol>
    requires WfOrHole(ps)
  {
    match ps
    case Nil => Nil
    case Snoc(init, p) => Snoc(DecodeSymbols(init), if p.Hole? then Var(p.variable) else Lit(PieceUnit(p)))
  }

  /** A decoded template text with each variable replaced by exactly its value. */
  function Instantiate(ss: List<Symbol>, vars: Vars): Text {
    match ss
    case Nil => []
    case Snoc(init, Lit(c)) => Instantiate(init, vars) + [c]
    case Snoc(init, Var(v)) => Instantiate(init, vars) + ValueOf(vars, v)
  }

  lemma {:induction false} DecodeAppend(a: List<Piece>, b: List<Piece>)
    ensures WfPieces(Append(a, b)) <==> WfPieces(a) && WfPieces(b)
    ensures WfPieces(a) && WfPieces(b) ==> Decode(Append(a, b)) == Decode(a) + Decode(b)
    decreases b
  {
    if b.Snoc? { DecodeAppend(a, b.init); }
  }

  /** Filling a string's holes replaces each variable by its value in the decoded text. */
  lemma {:induction false} DecodeFilled(ps: List<Piece>, vars: Vars)
    requires WfPieces(FillPieces(ps, vars))
    ensures WfOrHole(ps)
    ensures Decode(FillPieces(ps, vars)) == Instantiate(DecodeSymbols(ps), vars)
    decreases ps
  {
    if ps.Snoc? {
      if ps.last.Hole? {
        var value := ValueOf(vars, ps.last.variable);
        EscapeRoundTrip(value);
        DecodeAppend(FillPieces(ps.init, vars), EscapePieces(value));
      }
      DecodeFilled(ps.init, vars);
    }
  }

  /** Every string of a value, keys included, in document order, after those already collected. */
  function Strings(v: Value, seen: List<List<Piece>>): List<List<Piece>>
    decreases v
  {
    match v
    case Word(_) => seen
    case Num(_) => seen
    case Str(ps) => Snoc(seen, ps)
    case Arr(_, es) => ElemStrings(es, seen)
    case Obj(_, ms) => MemberStrings(ms, seen)
  }

  function ElemStrings(es: List<Elem>, seen: List<List<Piece>>): List<List<Piece>>
    decreases es
  {
    match es
    case Nil => seen
    case Snoc(init, e) => Strings(e.value, ElemStrings(init, seen))
  }

  function MemberStrings(ms: List<Member>, seen: List<List<Piece>>): List<List<Piece>>
    decreases ms
  {
    match ms
    case Nil => seen
    case Snoc(init, m) => Strings(m.elem.value, Snoc(MemberStrings(init, seen), m.key))
  }

  /** String by string, `rendered` decodes to the instantiated text of `holey`. */
  ghost predicate StringsDecode(rendered: List<List<Piece>>, holey: List<List<Piece>>, vars: Vars) {
    match (rendered, holey)
    case (Nil, Nil) => true
    case (Snoc(rs, r), Snoc(hs, h)) =>
      && StringsDecode(rs, hs, vars)
      && WfPieces(r) && WfOrHole(h) && Decode(r) == Instantiate(DecodeSymbols(h), vars)
    case _ => false
  }

  lemma {:induction false} FilledStrings(v: Value, vars: Vars, seen: List<List<Piece>>, holey: List<List<Piece>>)
    requires WfValue(FillValue(v, vars)) && StringsDecode(seen, holey, vars)
    ensures StringsDecode(Strings(FillValue(v, vars), seen), Strings(v, holey), vars)
    decreases v
  {
    match v
    case Word(_) =>
    case Num(_) =>
    case Str(ps) => DecodeFilled(ps, vars);
    case Arr(_, es) => FilledElemStrings(es, vars, seen, holey);
    case Obj(_, ms) => FilledMemberStrings(ms, vars, seen, holey);
  }

  lemma {:induction false} FilledElemStrings(es: List<Elem>, vars: Vars, seen: List<List<Piece>>,
      holey: List<List<Piece>>)
    requires WfElems(FillElems(es, vars)) && StringsDecode(seen, holey, vars)
    ensures StringsDecode(ElemStrings(FillElems(es, vars), seen), ElemStrings(es, holey), vars)
    decreases es
  {
    if es.Snoc? {
      FilledElemStrings(es.init, vars, seen, holey);
      assert WfElem(FillElem(es.last, vars)) && FillElem(es.last, vars).value == FillValue(es.last.value, vars);
      assert ElemStrings(FillElems(es, vars), seen)
          == Strings(FillValue(es.last.value, vars), ElemStrings(FillElems(es.init, vars), seen));
      FilledStrings(es.last.value, vars, ElemStrings(FillElems(es.init, vars), seen), ElemStrings(es.init, holey));
    }
  }

  lemma {:induction false} FilledMemberStrings(ms: List<Member>, vars: Vars, seen: List<List<Piece>>,
      holey: List<List<Piece>>)
    requires WfMembers(FillMembers(ms, vars)) && StringsDecode(seen, holey, vars)
    ensures StringsDecode(MemberStrings(FillMembers(ms, vars), seen), MemberStrings(ms, holey), vars)
    decreases ms
  {
    if ms.Snoc? {
      var m := ms.last;
      FilledMemberStrings(ms.init, vars, seen, holey);
      assert WfMember(FillMember(m, vars)) && WfElem(FillElem(m.elem, vars));
      DecodeFilled(m.key, vars);
      FilledStrings(m.elem.value, vars,
                    Snoc(MemberStrings(FillMembers(ms.init, vars), seen), FillPieces(m.key, vars)),
                    Snoc(MemberStrings(ms.init, holey), m.key));
    }
  }

  /**
    Every string of the rendered document, keys included, decodes to the template
    string's decoded text with each variable replaced by exactly its value.
  */
  lemma RenderedStringsDecode(t: Text, vars: Vars)
    ensures Parse(SubstitutePlaceholders(t)).Some? ==>
      && TemplateTree(t).Some? && RenderPayloadTemplate(t, vars).Some?
      && StringsDecode(Strings(RenderPayloadTemplate(t, vars).value.value, Nil),
        Strings(TemplateTree(t).value.value, Nil), vars)
  {
    if Parse(SubstitutePlaceholders(t)).Some? {
      RenderFillsTree(t, vars);
      ParseSound(RenderedText(t, vars));
      FilledStrings(TemplateTree(t).value.value, vars, Nil, Nil);
    }
  }
}
