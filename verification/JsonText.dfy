/**
  JSON texts (sections 2 to 7 of RFC 8259) as concrete syntax trees, and a
  parser that reads one code unit at a time.

  A tree keeps every blank and every spelling, so a text has at most one tree
  and a tree exactly one text. A string piece may also be a hole: the place of a
  template variable.
*/
module JsonText {
  import opened Common
  import opened TemplateVocabulary

  const QUOTE: CodeUnit := 0x22
  const BACKSLASH: CodeUnit := 0x5C
  const LBRACKET: CodeUnit := 0x5B
  const RBRACKET: CodeUnit := 0x5D
  const LBRACE: CodeUnit := 0x7B
  const RBRACE: CodeUnit := 0x7D
  const COLON: CodeUnit := 0x3A
  const COMMA: CodeUnit := 0x2C
  const LETTER_U: CodeUnit := 0x75

  const TRUE: Text := [0x74, 0x72, 0x75, 0x65]
  const FALSE: Text := [0x66, 0x61, 0x6C, 0x73, 0x65]
  const NULL: Text := [0x6E, 0x75, 0x6C, 0x6C]

  /** A list that grows at its end, the way the parser collects. */
  datatype List<T> = Nil | Snoc(init: List<T>, last: T)

  // ---------------------------------------------------------------- grammar

  /** One element of a string literal: a plain character, `\n`, `\u000a`, or a template variable. */
  datatype Piece = Raw(c: CodeUnit) | Short(c: CodeUnit) | Hex(digits: Text) | Hole(variable: Variable)

  /** A value; `blank` is the white space of an empty array or object. */
  datatype Value =
    | Word(word: Text)
    | Num(digits: Text)
    | Str(pieces: List<Piece>)
    | Arr(blank: Text, elems: List<Elem>)
    | Obj(blank: Text, members: List<Member>)

  datatype Elem = Elem(pre: Text, value: Value, post: Text)

  datatype Member = Member(pre: Text, key: List<Piece>, mid: Text, elem: Elem)

  predicate IsSpace(c: CodeUnit) {
    c == 0x20 || c == 0x09 || c == 0x0A || c == 0x0D
  }

  predicate IsBlank(t: Text) {
    forall i | 0 <= i < |t| :: IsSpace(t[i])
  }

  predicate IsDigit(c: CodeUnit) {
    0x30 <= c <= 0x39
  }

  predicate IsHexDigit(c: CodeUnit) {
    IsDigit(c) || 0x61 <= c <= 0x66 || 0x41 <= c <= 0x46
  }

  /** What may follow a backslash besides `u`: one of `"`, `\`, `/`, `b`, `f`, `n`, `r`, `t`. */
  predicate IsShortEscape(c: CodeUnit) {
    c == QUOTE || c == BACKSLASH || c == 0x2F || c == 0x62 || c == 0x66 || c == 0x6E || c == 0x72 || c == 0x74
  }

  predicate WfPiece(p: Piece) {
    match p
    case Raw(c) => c >= 0x20 && c != QUOTE && c != BACKSLASH
    case Short(c) => IsShortEscape(c)
    case Hex(d) => |d| == 4 && forall i | 0 <= i < 4 :: IsHexDigit(d[i])
    case Hole(_) => false
  }

  predicate WfPieces(ps: List<Piece>) {
    ps.Snoc? ==> WfPieces(ps.init) && WfPiece(ps.last)
  }

  predicate IsWord(t: Text) {
    t == TRUE || t == FALSE || t == NULL
  }

  predicate WfValue(v: Value) {
    match v
    case Word(w) => IsWord(w)
    case Num(d) => IsNumber(d)
    case Str(ps) => WfPieces(ps)
    case Arr(blank, es) => IsBlank(blank) && (es.Snoc? ==> blank == []) && WfElems(es)
    case Obj(blank, ms) => IsBlank(blank) && (ms.Snoc? ==> blank == []) && WfMembers(ms)
  }

  predicate WfElem(e: Elem) {
    IsBlank(e.pre) && WfValue(e.value) && IsBlank(e.post)
  }

  predicate WfElems(es: List<Elem>) {
    es.Snoc? ==> WfElems(es.init) && WfElem(es.last)
  }

  predicate WfMember(m: Member) {
    IsBlank(m.pre) && WfPieces(m.key) && IsBlank(m.mid) && WfElem(m.elem)
  }

  predicate WfMembers(ms: List<Member>) {
    ms.Snoc? ==> WfMembers(ms.init) && WfMember(ms.last)
  }

  // Printing is in continuation form: `Print…(x, k)` is the text of `x` followed by `k`.

  /** A string piece; a hole prints as the token it stands for. */
  function PrintPiece(p: Piece, k: Text): Text {
    match p
    case Raw(c) => [c] + k
    case Short(c) => [BACKSLASH] + ([c] + k)
    case Hex(d) => [BACKSLASH] + ([LETTER_U] + (d + k))
    case Hole(v) => BareToken(v) + k
  }

  function PrintPieces(ps: List<Piece>, k: Text): Text {
    match ps
    case Nil => k
    case Snoc(init, p) => PrintPieces(init, PrintPiece(p, k))
  }

  function PrintString(ps: List<Piece>, k: Text): Text {
    [QUOTE] + PrintPieces(ps, [QUOTE] + k)
  }

  function PrintValue(v: Value, k: Text): Text
    decreases v
  {
    match v
    case Word(w) => w + k
    case Num(d) => d + k
    case Str(ps) => PrintString(ps, k)
    case Arr(blank, Nil) => [LBRACKET] + (blank + ([RBRACKET] + k))
    case Arr(_, Snoc(es, e)) => [LBRACKET] + PrintElems(es, PrintElem(e, [RBRACKET] + k))
    case Obj(blank, Nil) => [LBRACE] + (blank + ([RBRACE] + k))
    case Obj(_, Snoc(ms, m)) => [LBRACE] + PrintMembers(ms, PrintMember(m, [RBRACE] + k))
  }

  function PrintElem(e: Elem, k: Text): Text
    decreases e
  {
    e.pre + PrintValue(e.value, e.post + k)
  }

  function PrintKey(pre: Text, key: List<Piece>, mid: Text, k: Text): Text {
    pre + PrintString(key, mid + k)
  }

  function PrintMember(m: Member, k: Text): Text
    decreases m
  {
    PrintKey(m.pre, m.key, m.mid, [COLON] + PrintElem(m.elem, k))
  }

  /** Every element followed by a comma, then `k`. */
  function PrintElems(es: List<Elem>, k: Text): Text
    decreases es
  {
    match es
    case Nil => k
    case Snoc(init, e) => PrintElems(init, PrintElem(e, [COMMA] + k))
  }

  /** Every member followed by a comma, then `k`. */
  function PrintMembers(ms: List<Member>, k: Text): Text
    decreases ms
  {
    match ms
    case Nil => k
    case Snoc(init, m) => PrintMembers(init, PrintMember(m, [COMMA] + k))
  }

  /** The text of a JSON document. */
  function DocText(d: Elem): Text {
    PrintElem(d, [])
  }

  // Numbers are the regular language of section 6 of RFC 8259.

  datatype Phase = Minus | Zero | Integer | Dot | Fraction | Exponent | Sign | Power

  function FirstPhase(c: CodeUnit): Option<Phase> {
    if c == 0x2D then Some(Minus)
    else if c == 0x30 then Some(Zero)
    else if IsDigit(c) then Some(Integer)
    else None
  }

  function NextPhase(p: Phase, c: CodeUnit): Option<Phase> {
    if IsDigit(c) then
      match p
      case Minus => Some(if c == 0x30 then Zero else Integer)
      case Zero => None
      case Integer => Some(Integer)
      case Dot => Some(Fraction)
      case Fraction => Some(Fraction)
      case Exponent => Some(Power)
      case Sign => Some(Power)
      case Power => Some(Power)
    else if c == 0x2E then
      if p == Zero || p == Integer then Some(Dot) else None
    else if c == 0x65 || c == 0x45 then
      if p == Zero || p == Integer || p == Fraction then Some(Exponent) else None
    else if c == 0x2B || c == 0x2D then
      if p == Exponent then Some(Sign) else None
    else None
  }

  predicate FinalPhase(p: Phase) {
    p == Zero || p == Integer || p == Fraction || p == Power
  }

  /** The phase a prefix of a number is in, when it is one. */
  function PhaseOf(t: Text): Option<Phase> {
    if t == [] then None
    else if |t| == 1 then FirstPhase(t[0])
    else
      var p := PhaseOf(t[..|t| - 1]);
      if p.None? then None else NextPhase(p.value, t[|t| - 1])
  }

  predicate IsNumber(t: Text) {
    var p := PhaseOf(t);
    p.Some? && FinalPhase(p.value)
  }

  // ---------------------------------------------------------------- parser

  /** An array or object whose next element or member value is being read. */
  datatype Frame =
    | ArrF(pre: Text, elems: List<Elem>)
    | ObjF(pre: Text, members: List<Member>, kpre: Text, key: List<Piece>, mid: Text)

  type Frames = List<Frame>

  /** What a string literal is being read as. */
  datatype Role = AsValue(pre: Text) | AsKey(opre: Text, members: List<Member>, kpre: Text)

  datatype Escape = Plain | Slash | Unicode(digits: Text)

  /** The parser's state; `Error` is absorbing. */
  datatype State =
    | Error
    | Want(fs: Frames, pre: Text)
    | WantKey(fs: Frames, opre: Text, members: List<Member>, kpre: Text)
    | InStr(fs: Frames, role: Role, ps: List<Piece>, esc: Escape)
    | AfterKey(fs: Frames, opre: Text, members: List<Member>, kpre: Text, key: List<Piece>, mid: Text)
    | InNum(fs: Frames, pre: Text, digits: Text, phase: Phase)
    | InWord(fs: Frames, pre: Text, letters: Text)
    | After(fs: Frames, pre: Text, value: Value, post: Text)

  predicate IsWordPrefix(t: Text) {
    t <= TRUE || t <= FALSE || t <= NULL
  }

  /** The state after the closing quote. */
  function CloseString(fs: Frames, role: Role, ps: List<Piece>): State {
    match role
    case AsValue(pre) => After(fs, pre, Str(ps), [])
    case AsKey(opre, members, kpre) => AfterKey(fs, opre, members, kpre, ps, [])
  }

  function StepWant(fs: Frames, pre: Text, c: CodeUnit): State {
    if IsSpace(c) then Want(fs, pre + [c])
    else if c == QUOTE then InStr(fs, AsValue(pre), Nil, Plain)
    else if c == LBRACKET then Want(Snoc(fs, ArrF(pre, Nil)), [])
    else if c == LBRACE then WantKey(fs, pre, Nil, [])
    else if c == RBRACKET then
      if fs.Snoc? && fs.last.ArrF? && fs.last.elems == Nil then After(fs.init, fs.last.pre, Arr(pre, Nil), [])
      else Error
    else if FirstPhase(c).Some? then InNum(fs, pre, [c], FirstPhase(c).value)
    else if IsWordPrefix([c]) then InWord(fs, pre, [c])
    else Error
  }

  function StepWantKey(fs: Frames, opre: Text, members: List<Member>, kpre: Text, c: CodeUnit): State {
    if IsSpace(c) then WantKey(fs, opre, members, kpre + [c])
    else if c == QUOTE then InStr(fs, AsKey(opre, members, kpre), Nil, Plain)
    else if c == RBRACE && members == Nil then After(fs, opre, Obj(kpre, Nil), [])
    else Error
  }

  function StepString(fs: Frames, role: Role, ps: List<Piece>, esc: Escape, c: CodeUnit): State {
    match esc
    case Plain =>
      if c == QUOTE then CloseString(fs, role, ps)
      else if c == BACKSLASH then InStr(fs, role, ps, Slash)
      else if c < 0x20 then Error
      else InStr(fs, role, Snoc(ps, Raw(c)), Plain)
    case Slash =>
      if c == LETTER_U then InStr(fs, role, ps, Unicode([]))
      else if IsShortEscape(c) then InStr(fs, role, Snoc(ps, Short(c)), Plain)
      else Error
    case Unicode(d) =>
      if !IsHexDigit(c) then Error
      else if |d| < 3 then InStr(fs, role, ps, Unicode(d + [c]))
      else InStr(fs, role, Snoc(ps, Hex(d + [c])), Plain)
  }

  function StepAfterKey(fs: Frames, opre: Text, members: List<Member>, kpre: Text, key: List<Piece>, mid: Text,
      c: CodeUnit): State {
    if IsSpace(c) then AfterKey(fs, opre, members, kpre, key, mid + [c])
    else if c == COLON then Want(Snoc(fs, ObjF(opre, members, kpre, key, mid)), [])
    else Error
  }

  function StepAfter(fs: Frames, pre: Text, v: Value, post: Text, c: CodeUnit): State {
    if IsSpace(c) then After(fs, pre, v, post + [c])
    else
      match fs
      case Nil => Error
      case Snoc(rest, ArrF(apre, es)) =>
        if c == COMMA then Want(Snoc(rest, ArrF(apre, Snoc(es, Elem(pre, v, post)))), [])
        else if c == RBRACKET then After(rest, apre, Arr([], Snoc(es, Elem(pre, v, post))), [])
        else Error
      case Snoc(rest, ObjF(opre, ms, kpre, key, mid)) =>
        if c == COMMA then WantKey(rest, opre, Snoc(ms, Member(kpre, key, mid, Elem(pre, v, post))), [])
        else if c == RBRACE then After(rest, opre, Obj([], Snoc(ms, Member(kpre, key, mid, Elem(pre, v, post)))), [])
        else Error
  }

  /** Read one code unit. */
  function Step(s: State, c: CodeUnit): State {
    match s
    case Error => Error
    case Want(fs, pre) => StepWant(fs, pre, c)
    case WantKey(fs, opre, members, kpre) => StepWantKey(fs, opre, members, kpre, c)
    case InStr(fs, role, ps, esc) => StepString(fs, role, ps, esc, c)
    case AfterKey(fs, opre, members, kpre, key, mid) => StepAfterKey(fs, opre, members, kpre, key, mid, c)
    case InNum(fs, pre, digits, phase) =>
      var next := NextPhase(phase, c);
      if next.Some? then InNum(fs, pre, digits + [c], next.value)
      else if FinalPhase(phase) then StepAfter(fs, pre, Num(digits), [], c)
      else Error
    case InWord(fs, pre, letters) =>
      if IsWord(letters + [c]) then After(fs, pre, Word(letters + [c]), [])
      else if IsWordPrefix(letters + [c]) then InWord(fs, pre, letters + [c])
      else Error
    case After(fs, pre, v, post) => StepAfter(fs, pre, v, post, c)
  }

  function Run(s: State, t: Text): State
    decreases |t|
  {
    if t == [] then s else Run(Step(s, t[0]), t[1..])
  }

  const START: State := Want(Nil, [])

  /** The document a complete text left the parser in, if any. */
  function Finish(s: State): Option<Elem> {
    match s
    case After(Nil, pre, v, post) => Some(Elem(pre, v, post))
    case InNum(Nil, pre, digits, phase) => if FinalPhase(phase) then Some(Elem(pre, Num(digits), [])) else None
    case _ => None
  }

  /** `JSON.parse`: the syntax tree of a JSON text, `None` where it throws. */
  function Parse(t: Text): Option<Elem> {
    Finish(Run(START, t))
  }

  lemma {:induction false} RunError(t: Text)
    ensures Run(Error, t) == Error
  {
    if t != [] { RunError(t[1..]); }
  }

  lemma RunCons(s: State, c: CodeUnit, k: Text)
    ensures Run(s, [c] + k) == Run(Step(s, c), k)
  {
    assert ([c] + k)[1..] == k;
  }

  lemma Uncons(t: Text, k: Text)
    requires t != []
    ensures t + k == [t[0]] + (t[1..] + k)
  {}

  // ------------------------------------------------- the parser is sound
  //
  // A state is a partial tree: its text is exactly what was read so far.

  function PrintFrame(f: Frame, k: Text): Text {
    match f
    case ArrF(pre, es) => pre + ([LBRACKET] + PrintElems(es, k))
    case ObjF(pre, ms, kpre, key, mid) => pre + ([LBRACE] + PrintMembers(ms, PrintKey(kpre, key, mid, [COLON] + k)))
  }

  function PrintFrames(fs: Frames, k: Text): Text {
    match fs
    case Nil => k
    case Snoc(rest, f) => PrintFrames(rest, PrintFrame(f, k))
  }

  function PrintRole(role: Role, k: Text): Text {
    match role
    case AsValue(pre) => pre + k
    case AsKey(opre, ms, kpre) => opre + ([LBRACE] + PrintMembers(ms, kpre + k))
  }

  function PrintEscape(e: Escape, k: Text): Text {
    match e
    case Plain => k
    case Slash => [BACKSLASH] + k
    case Unicode(d) => [BACKSLASH] + ([LETTER_U] + (d + k))
  }

  /** The text read so far, followed by `k`. */
  function PrintState(s: State, k: Text): Text {
    match s
    case Error => k
    case Want(fs, pre) => PrintFrames(fs, pre + k)
    case WantKey(fs, opre, ms, kpre) => PrintFrames(fs, opre + ([LBRACE] + PrintMembers(ms, kpre + k)))
    case InStr(fs, role, ps, esc) => PrintFrames(fs, PrintRole(role, [QUOTE] + PrintPieces(ps, PrintEscape(esc, k))))
    case AfterKey(fs, opre, ms, kpre, key, mid) =>
      PrintFrames(fs, opre + ([LBRACE] + PrintMembers(ms, PrintKey(kpre, key, mid, k))))
    case InNum(fs, pre, digits, _) => PrintFrames(fs, pre + (digits + k))
    case InWord(fs, pre, letters) => PrintFrames(fs, pre + (letters + k))
    case After(fs, pre, v, post) => PrintFrames(fs, pre + PrintValue(v, post + k))
  }

  lemma Shift(a: Text, c: CodeUnit, k: Text)
    ensures (a + [c]) + k == a + ([c] + k)
    ensures [] + k == k
  {}

  lemma StepPlainText(fs: Frames, role: Role, ps: List<Piece>, c: CodeUnit, k: Text)
    requires StepString(fs, role, ps, Plain, c) != Error
    ensures PrintState(StepString(fs, role, ps, Plain, c), k) == PrintState(InStr(fs, role, ps, Plain), [c] + k)
  {
    Shift([], c, k);
  }

  lemma StepSlashText(fs: Frames, role: Role, ps: List<Piece>, c: CodeUnit, k: Text)
    requires StepString(fs, role, ps, Slash, c) != Error
    ensures PrintState(StepString(fs, role, ps, Slash, c), k) == PrintState(InStr(fs, role, ps, Slash), [c] + k)
  {
    Shift([], c, k);
  }

  lemma StepUnicodeText(fs: Frames, role: Role, ps: List<Piece>, d: Text, c: CodeUnit, k: Text)
    requires StepString(fs, role, ps, Unicode(d), c) != Error
    ensures PrintState(StepString(fs, role, ps, Unicode(d), c), k)
      == PrintState(InStr(fs, role, ps, Unicode(d)), [c] + k)
  {
    Shift(d, c, k);
  }

  lemma StepStringText(fs: Frames, role: Role, ps: List<Piece>, esc: Escape, c: CodeUnit, k: Text)
    requires StepString(fs, role, ps, esc, c) != Error
    ensures PrintState(StepString(fs, role, ps, esc, c), k) == PrintState(InStr(fs, role, ps, esc), [c] + k)
  {
    match esc
    case Plain => StepPlainText(fs, role, ps, c, k);
    case Slash => StepSlashText(fs, role, ps, c, k);
    case Unicode(d) => StepUnicodeText(fs, role, ps, d, c, k);
  }

  lemma StepAfterText(fs: Frames, pre: Text, v: Value, post: Text, c: CodeUnit, k: Text)
    requires StepAfter(fs, pre, v, post, c) != Error
    ensures PrintState(StepAfter(fs, pre, v, post, c), k) == PrintState(After(fs, pre, v, post), [c] + k)
  {
    Shift(post, c, k);
    if !IsSpace(c) {
      var e := Elem(pre, v, post);
      assert PrintElem(e, [c] + k) == pre + PrintValue(v, post + ([c] + k));
      var rest, f := fs.init, fs.last;
      assert PrintFrames(fs, PrintElem(e, [c] + k)) == PrintFrames(rest, PrintFrame(f, PrintElem(e, [c] + k)));
      Shift([], c, k);
      match f
      case ArrF(apre, es) =>
        assert PrintElems(Snoc(es, e), k) == PrintElems(es, PrintElem(e, [COMMA] + k));
        assert PrintValue(Arr([], Snoc(es, e)), k) == [LBRACKET] + PrintElems(es, PrintElem(e, [RBRACKET] + k));
      case ObjF(opre, ms, kpre, key, mid) =>
        var m := Member(kpre, key, mid, e);
        assert PrintMember(m, [c] + k) == PrintKey(kpre, key, mid, [COLON] + PrintElem(e, [c] + k));
        assert PrintMembers(Snoc(ms, m), k) == PrintMembers(ms, PrintMember(m, [COMMA] + k));
        assert PrintValue(Obj([], Snoc(ms, m)), k) == [LBRACE] + PrintMembers(ms, PrintMember(m, [RBRACE] + k));
    }
  }

  /** Whatever the parser holds is exactly the text it has read. */
  lemma StepText(s: State, c: CodeUnit, k: Text)
    requires Step(s, c) != Error
    ensures PrintState(Step(s, c), k) == PrintState(s, [c] + k)
  {
    match s
    case Error =>
    case Want(fs, pre) => Shift(pre, c, k); Shift([], c, k);
    case WantKey(fs, opre, ms, kpre) => Shift(kpre, c, k);
    case InStr(fs, role, ps, esc) => StepStringText(fs, role, ps, esc, c, k);
    case AfterKey(fs, opre, ms, kpre, key, mid) => Shift(mid, c, k);
    case InNum(fs, pre, digits, phase) =>
      Shift(digits, c, k);
      if NextPhase(phase, c).None? {
        StepAfterText(fs, pre, Num(digits), [], c, k);
        Shift([], c, [c] + k);
      }
    case InWord(fs, pre, letters) => Shift(letters, c, k);
    case After(fs, pre, v, post) => StepAfterText(fs, pre, v, post, c, k);
  }

  predicate WfFrame(f: Frame) {
    match f
    case ArrF(pre, es) => IsBlank(pre) && WfElems(es)
    case ObjF(pre, ms, kpre, key, mid) =>
      IsBlank(pre) && WfMembers(ms) && IsBlank(kpre) && WfPieces(key) && IsBlank(mid)
  }

  predicate WfFrames(fs: Frames) {
    fs.Snoc? ==> WfFrames(fs.init) && WfFrame(fs.last)
  }

  predicate WfRole(role: Role) {
    match role
    case AsValue(pre) => IsBlank(pre)
    case AsKey(opre, ms, kpre) => IsBlank(opre) && WfMembers(ms) && IsBlank(kpre)
  }

  predicate WfState(s: State) {
    match s
    case Error => true
    case Want(fs, pre) => WfFrames(fs) && IsBlank(pre)
    case WantKey(fs, opre, ms, kpre) => WfFrames(fs) && WfRole(AsKey(opre, ms, kpre))
    case InStr(fs, role, ps, esc) =>
      && WfFrames(fs) && WfRole(role) && WfPieces(ps)
      && (esc.Unicode? ==> |esc.digits| <= 3 && forall i | 0 <= i < |esc.digits| :: IsHexDigit(esc.digits[i]))
    case AfterKey(fs, opre, ms, kpre, key, mid) => WfFrames(fs) && WfFrame(ObjF(opre, ms, kpre, key, mid))
    case InNum(fs, pre, digits, phase) => WfFrames(fs) && IsBlank(pre) && PhaseOf(digits) == Some(phase)
    case InWord(fs, pre, letters) => WfFrames(fs) && IsBlank(pre)
    case After(fs, pre, v, post) => WfFrames(fs) && WfElem(Elem(pre, v, post))
  }

  lemma StepAfterWf(fs: Frames, pre: Text, v: Value, post: Text, c: CodeUnit)
    requires WfFrames(fs) && WfElem(Elem(pre, v, post))
    ensures WfState(StepAfter(fs, pre, v, post, c))
  {
    if !IsSpace(c) && fs.Snoc? {
      var e := Elem(pre, v, post);
      match fs.last
      case ArrF(apre, es) => assert WfElems(Snoc(es, e));
      case ObjF(opre, ms, kpre, key, mid) => assert WfMembers(Snoc(ms, Member(kpre, key, mid, e)));
    }
  }

  lemma StepWantWf(fs: Frames, pre: Text, c: CodeUnit)
    requires WfState(Want(fs, pre))
    ensures WfState(StepWant(fs, pre, c))
  {
  }

  lemma StepWantKeyWf(fs: Frames, opre: Text, ms: List<Member>, kpre: Text, c: CodeUnit)
    requires WfState(WantKey(fs, opre, ms, kpre))
    ensures WfState(StepWantKey(fs, opre, ms, kpre, c))
  {
  }

  lemma StepStringWf(fs: Frames, role: Role, ps: List<Piece>, esc: Escape, c: CodeUnit)
    requires WfState(InStr(fs, role, ps, esc))
    ensures WfState(StepString(fs, role, ps, esc, c))
  {
  }

  lemma StepNumberWf(fs: Frames, pre: Text, digits: Text, phase: Phase, c: CodeUnit)
    requires WfState(InNum(fs, pre, digits, phase))
    ensures WfState(Step(InNum(fs, pre, digits, phase), c))
  {
    assert (digits + [c])[..|digits|] == digits;
    if FinalPhase(phase) { StepAfterWf(fs, pre, Num(digits), [], c); }
  }

  lemma StepWf(s: State, c: CodeUnit)
    requires WfState(s)
    ensures WfState(Step(s, c))
  {
    match s
    case Error =>
    case Want(fs, pre) => StepWantWf(fs, pre, c);
    case WantKey(fs, opre, ms, kpre) => StepWantKeyWf(fs, opre, ms, kpre, c);
    case InStr(fs, role, ps, esc) => StepStringWf(fs, role, ps, esc, c);
    case AfterKey(_, _, _, _, _, _) =>
    case InNum(fs, pre, digits, phase) => StepNumberWf(fs, pre, digits, phase, c);
    case InWord(_, _, _) =>
    case After(fs, pre, v, post) => StepAfterWf(fs, pre, v, post, c);
  }

  lemma {:induction false} RunWf(s: State, t: Text)
    requires WfState(s)
    ensures WfState(Run(s, t))
    decreases |t|
  {
    if t != [] {
      StepWf(s, t[0]);
      RunWf(Step(s, t[0]), t[1..]);
    }
  }

  lemma {:induction false} RunText(s: State, t: Text, k: Text)
    requires Run(s, t) != Error
    ensures PrintState(Run(s, t), k) == PrintState(s, t + k)
    decreases |t|
  {
    if t == [] {
      assert t + k == k;
    } else {
      var next, tail := Step(s, t[0]), t[1..] + k;
      if next == Error { RunError(t[1..]); }
      RunText(next, t[1..], k);
      StepText(s, t[0], tail);
      Uncons(t, k);
    }
  }

  /** A finished state's document has the state's text. */
  lemma FinishText(s: State)
    requires Finish(s).Some?
    ensures DocText(Finish(s).value) == PrintState(s, [])
  {
    if s.InNum? {
      var d := Elem(s.pre, Num(s.digits), []);
      assert d.post + [] == d.post;
      assert PrintElem(d, []) == d.pre + PrintValue(d.value, d.post);
    }
  }

  lemma StartText(t: Text)
    ensures PrintState(START, t + []) == t
  {
    assert [] + (t + []) == t;
  }

  /** Soundness: a text that parses is the print of a well-formed tree, the one returned. */
  lemma ParseSound(t: Text)
    requires Parse(t).Some?
    ensures WfElem(Parse(t).value) && DocText(Parse(t).value) == t
  {
    RunWf(START, t);
    RunText(START, t, []);
    FinishText(Run(START, t));
    StartText(t);
  }

  // ---------------------------------------------- the parser is complete

  lemma {:induction false} RunBlank(fs: Frames, pre: Text, b: Text, k: Text)
    requires IsBlank(b)
    ensures Run(Want(fs, pre), b + k) == Run(Want(fs, pre + b), k)
    decreases |b|
  {
    if b == [] {
      assert b + k == k && pre + b == pre;
    } else {
      assert (b + k)[0] == b[0] && (b + k)[1..] == b[1..] + k;
      RunBlank(fs, pre + [b[0]], b[1..], k);
      assert pre + [b[0]] + b[1..] == pre + b;
    }
  }

  lemma {:induction false} RunKeyBlank(fs: Frames, opre: Text, ms: List<Member>, kpre: Text, b: Text, k: Text)
    requires IsBlank(b)
    ensures Run(WantKey(fs, opre, ms, kpre), b + k) == Run(WantKey(fs, opre, ms, kpre + b), k)
    decreases |b|
  {
    if b == [] {
      assert b + k == k && kpre + b == kpre;
    } else {
      assert (b + k)[0] == b[0] && (b + k)[1..] == b[1..] + k;
      RunKeyBlank(fs, opre, ms, kpre + [b[0]], b[1..], k);
      assert kpre + [b[0]] + b[1..] == kpre + b;
    }
  }

  lemma {:induction false} RunMidBlank(fs: Frames, opre: Text, ms: List<Member>, kpre: Text, key: List<Piece>,
      mid: Text, b: Text, k: Text)
    requires IsBlank(b)
    ensures Run(AfterKey(fs, opre, ms, kpre, key, mid), b + k) == Run(AfterKey(fs, opre, ms, kpre, key, mid + b), k)
    decreases |b|
  {
    if b == [] {
      assert b + k == k && mid + b == mid;
    } else {
      assert (b + k)[0] == b[0] && (b + k)[1..] == b[1..] + k;
      RunMidBlank(fs, opre, ms, kpre, key, mid + [b[0]], b[1..], k);
      assert mid + [b[0]] + b[1..] == mid + b;
    }
  }

  lemma {:induction false} RunPostBlank(fs: Frames, pre: Text, v: Value, post: Text, b: Text, k: Text)
    requires IsBlank(b)
    ensures Run(After(fs, pre, v, post), b + k) == Run(After(fs, pre, v, post + b), k)
    decreases |b|
  {
    if b == [] {
      assert b + k == k && post + b == post;
    } else {
      assert (b + k)[0] == b[0] && (b + k)[1..] == b[1..] + k;
      RunPostBlank(fs, pre, v, post + [b[0]], b[1..], k);
      assert post + [b[0]] + b[1..] == post + b;
    }
  }

  lemma {:induction false} RunHexFrom(fs: Frames, role: Role, ps: List<Piece>, d: Text, n: nat, k: Text)
    requires WfPiece(Hex(d)) && n < 4
    ensures Run(InStr(fs, role, ps, Unicode(d[..n])), d[n..] + k) == Run(InStr(fs, role, Snoc(ps, Hex(d)), Plain), k)
    decreases 4 - n
  {
    assert d[n..][0] == d[n] && d[n..][1..] == d[n + 1..];
    Uncons(d[n..], k);
    RunCons(InStr(fs, role, ps, Unicode(d[..n])), d[n], d[n + 1..] + k);
    assert d[..n] + [d[n]] == d[..n + 1];
    if n < 3 {
      RunHexFrom(fs, role, ps, d, n + 1, k);
    } else {
      assert d[..4] == d && d[4..] + k == k;
    }
  }

  lemma RunPiece(fs: Frames, role: Role, ps: List<Piece>, p: Piece, k: Text)
    requires WfPiece(p)
    ensures Run(InStr(fs, role, ps, Plain), PrintPiece(p, k)) == Run(InStr(fs, role, Snoc(ps, p), Plain), k)
  {
    var s := InStr(fs, role, ps, Plain);
    match p
    case Raw(c) => RunCons(s, c, k);
    case Short(c) =>
      RunCons(s, BACKSLASH, [c] + k);
      RunCons(InStr(fs, role, ps, Slash), c, k);
    case Hex(d) =>
      RunCons(s, BACKSLASH, [LETTER_U] + (d + k));
      RunCons(InStr(fs, role, ps, Slash), LETTER_U, d + k);
      assert d[..0] == [] && d[0..] == d;
      RunHexFrom(fs, role, ps, d, 0, k);
  }

  function Append<T>(a: List<T>, b: List<T>): List<T> {
    match b
    case Nil => a
    case Snoc(init, last) => Snoc(Append(a, init), last)
  }

  /** Reading the text of well-formed pieces inside a string appends exactly those pieces. */
  lemma {:induction false} RunPieces(fs: Frames, role: Role, ps: List<Piece>, qs: List<Piece>, k: Text)
    requires WfPieces(qs)
    ensures Run(InStr(fs, role, ps, Plain), PrintPieces(qs, k)) == Run(InStr(fs, role, Append(ps, qs), Plain), k)
    decreases qs
  {
    if qs.Snoc? {
      RunPieces(fs, role, ps, qs.init, PrintPiece(qs.last, k));
      RunPiece(fs, role, Append(ps, qs.init), qs.last, k);
    }
  }

  lemma {:induction false} AppendNil<T>(b: List<T>)
    ensures Append(Nil, b) == b
  {
    if b.Snoc? { AppendNil(b.init); }
  }

  /** Reading a whole string literal. */
  lemma RunString(s: State, fs: Frames, role: Role, ps: List<Piece>, k: Text)
    requires WfPieces(ps) && Step(s, QUOTE) == InStr(fs, role, Nil, Plain)
    ensures Run(s, PrintString(ps, k)) == Run(CloseString(fs, role, ps), k)
  {
    RunCons(s, QUOTE, PrintPieces(ps, [QUOTE] + k));
    RunPieces(fs, role, Nil, ps, [QUOTE] + k);
    AppendNil(ps);
    RunCons(InStr(fs, role, ps, Plain), QUOTE, k);
  }

  lemma {:induction false} RunNumber(fs: Frames, pre: Text, d: Text, k: Text)
    requires PhaseOf(d).Some?
    ensures Run(Want(fs, pre), d + k) == Run(InNum(fs, pre, d, PhaseOf(d).value), k)
    decreases |d|
  {
    if |d| == 1 {
      assert d + k == [d[0]] + k && d == [d[0]];
      RunCons(Want(fs, pre), d[0], k);
    } else {
      var init, c := d[..|d| - 1], d[|d| - 1];
      assert init + [c] == d;
      assert d + k == init + ([c] + k);
      RunNumber(fs, pre, init, [c] + k);
      RunCons(InNum(fs, pre, init, PhaseOf(init).value), c, k);
    }
  }

  lemma WordPrefixes(w: Text, n: nat)
    requires IsWord(w) && 1 <= n < |w|
    ensures IsWordPrefix(w[..n]) && !IsWord(w[..n])
  {
    assert w[..n][0] == w[0];
  }

  lemma StepWord(fs: Frames, pre: Text, w: Text, n: nat)
    requires IsWord(w) && 1 <= n < |w|
    ensures Step(InWord(fs, pre, w[..n]), w[n])
      == if n + 1 == |w| then After(fs, pre, Word(w), []) else InWord(fs, pre, w[..n + 1])
  {
    assert w[..n] + [w[n]] == w[..n + 1];
    if n + 1 == |w| { assert w[..n + 1] == w; } else { WordPrefixes(w, n + 1); }
  }

  lemma {:induction false} RunWordRest(fs: Frames, pre: Text, w: Text, n: nat, k: Text)
    requires IsWord(w) && 1 <= n < |w|
    ensures Run(InWord(fs, pre, w[..n]), w[n..] + k) == Run(After(fs, pre, Word(w), []), k)
    decreases |w| - n
  {
    assert w[n..] + k == [w[n]] + (w[n + 1..] + k);
    RunCons(InWord(fs, pre, w[..n]), w[n], w[n + 1..] + k);
    StepWord(fs, pre, w, n);
    if n + 1 == |w| { assert w[n + 1..] + k == k; } else { RunWordRest(fs, pre, w, n + 1, k); }
  }

  lemma RunWord(fs: Frames, pre: Text, w: Text, k: Text)
    requires IsWord(w)
    ensures Run(Want(fs, pre), w + k) == Run(After(fs, pre, Word(w), []), k)
  {
    Uncons(w, k);
    RunCons(Want(fs, pre), w[0], w[1..] + k);
    WordPrefixes(w, 1);
    assert w[..1] == [w[0]];
    RunWordRest(fs, pre, w, 1, k);
  }

  /** What may follow a number. */
  predicate Delimited(k: Text) {
    k == [] || IsSpace(k[0]) || k[0] == COMMA || k[0] == RBRACKET || k[0] == RBRACE
  }

  /** The document read from state `s` and remaining text `k`. */
  function Rest(s: State, k: Text): Option<Elem> {
    Finish(Run(s, k))
  }

  lemma {:induction false} ReadValue(fs: Frames, pre: Text, v: Value, k: Text)
    requires WfValue(v) && Delimited(k)
    ensures Rest(Want(fs, pre), PrintValue(v, k)) == Rest(After(fs, pre, v, []), k)
    decreases v
  {
    match v
    case Word(w) => RunWord(fs, pre, w, k);
    case Num(d) => ReadNumber(fs, pre, d, k);
    case Str(ps) => RunString(Want(fs, pre), fs, AsValue(pre), ps, k);
    case Arr(blank, es) => if es == Nil { ReadEmptyArray(fs, pre, blank, k); } else { ReadArray(fs, pre, es, k); }
    case Obj(blank, ms) => if ms == Nil { ReadEmptyObject(fs, pre, blank, k); } else { ReadObject(fs, pre, ms, k); }
  }

  lemma NumberEnds(fs: Frames, pre: Text, d: Text, k: Text)
    requires WfValue(Num(d)) && Delimited(k)
    ensures Rest(InNum(fs, pre, d, PhaseOf(d).value), k) == Rest(After(fs, pre, Num(d), []), k)
  {
    if k != [] {
      assert k == [k[0]] + k[1..];
      RunCons(InNum(fs, pre, d, PhaseOf(d).value), k[0], k[1..]);
      RunCons(After(fs, pre, Num(d), []), k[0], k[1..]);
    }
  }

  lemma ReadNumber(fs: Frames, pre: Text, d: Text, k: Text)
    requires WfValue(Num(d)) && Delimited(k)
    ensures Rest(Want(fs, pre), PrintValue(Num(d), k)) == Rest(After(fs, pre, Num(d), []), k)
  {
    RunNumber(fs, pre, d, k);
    NumberEnds(fs, pre, d, k);
  }

  lemma CloseEmptyArray(fs: Frames, pre: Text, blank: Text, k: Text)
    requires IsBlank(blank)
    ensures Run(Want(Snoc(fs, ArrF(pre, Nil)), []), blank + ([RBRACKET] + k))
      == Run(After(fs, pre, Arr(blank, Nil), []), k)
  {
    var gs := Snoc(fs, ArrF(pre, Nil));
    RunBlank(gs, [], blank, [RBRACKET] + k);
    assert [] + blank == blank;
    RunCons(Want(gs, blank), RBRACKET, k);
  }

  lemma ReadEmptyArray(fs: Frames, pre: Text, blank: Text, k: Text)
    requires IsBlank(blank)
    ensures Rest(Want(fs, pre), PrintValue(Arr(blank, Nil), k)) == Rest(After(fs, pre, Arr(blank, Nil), []), k)
  {
    RunCons(Want(fs, pre), LBRACKET, blank + ([RBRACKET] + k));
    CloseEmptyArray(fs, pre, blank, k);
  }

  lemma CloseEmptyObject(fs: Frames, pre: Text, blank: Text, k: Text)
    requires IsBlank(blank)
    ensures Run(WantKey(fs, pre, Nil, []), blank + ([RBRACE] + k)) == Run(After(fs, pre, Obj(blank, Nil), []), k)
  {
    RunKeyBlank(fs, pre, Nil, [], blank, [RBRACE] + k);
    assert [] + blank == blank;
    RunCons(WantKey(fs, pre, Nil, blank), RBRACE, k);
  }

  lemma ReadEmptyObject(fs: Frames, pre: Text, blank: Text, k: Text)
    requires IsBlank(blank)
    ensures Rest(Want(fs, pre), PrintValue(Obj(blank, Nil), k)) == Rest(After(fs, pre, Obj(blank, Nil), []), k)
  {
    RunCons(Want(fs, pre), LBRACE, blank + ([RBRACE] + k));
    CloseEmptyObject(fs, pre, blank, k);
  }

  lemma {:induction false} ReadArray(fs: Frames, pre: Text, es: List<Elem>, k: Text)
    requires es.Snoc? && WfElems(es)
    ensures Rest(Want(fs, pre), PrintValue(Arr([], es), k)) == Rest(After(fs, pre, Arr([], es), []), k)
    decreases es
  {
    RunCons(Want(fs, pre), LBRACKET, PrintElems(es.init, PrintElem(es.last, [RBRACKET] + k)));
    ReadElems(fs, pre, es.init, PrintElem(es.last, [RBRACKET] + k));
    ReadElem(Snoc(fs, ArrF(pre, es.init)), es.last, RBRACKET, k);
  }

  lemma {:induction false} ReadObject(fs: Frames, pre: Text, ms: List<Member>, k: Text)
    requires ms.Snoc? && WfMembers(ms)
    ensures Rest(Want(fs, pre), PrintValue(Obj([], ms), k)) == Rest(After(fs, pre, Obj([], ms), []), k)
    decreases ms
  {
    RunCons(Want(fs, pre), LBRACE, PrintMembers(ms.init, PrintMember(ms.last, [RBRACE] + k)));
    ReadMembers(fs, pre, ms.init, PrintMember(ms.last, [RBRACE] + k));
    ReadMember(fs, pre, ms.init, ms.last, RBRACE, k);
  }

  lemma DelimitedAfter(post: Text, k: Text)
    requires IsBlank(post) && Delimited(k)
    ensures Delimited(post + k)
  {
    if post == [] { assert post + k == k; }
  }

  /** A value and the blanks around it. */
  lemma {:induction false} ReadPadded(fs: Frames, e: Elem, k: Text)
    requires WfElem(e) && Delimited(k)
    ensures Rest(Want(fs, []), PrintElem(e, k)) == Rest(After(fs, e.pre, e.value, e.post), k)
    decreases e, 0
  {
    RunBlank(fs, [], e.pre, PrintValue(e.value, e.post + k));
    assert [] + e.pre == e.pre && [] + e.post == e.post;
    DelimitedAfter(e.post, k);
    ReadValue(fs, e.pre, e.value, e.post + k);
    RunPostBlank(fs, e.pre, e.value, [], e.post, k);
  }

  lemma {:induction false} ReadElem(fs: Frames, e: Elem, c: CodeUnit, k: Text)
    requires WfElem(e) && (c == COMMA || c == RBRACKET || c == RBRACE)
    ensures Rest(Want(fs, []), PrintElem(e, [c] + k)) == Rest(StepAfter(fs, e.pre, e.value, e.post, c), k)
    decreases e, 1
  {
    ReadPadded(fs, e, [c] + k);
    RunCons(After(fs, e.pre, e.value, e.post), c, k);
  }

  lemma ReadKeyName(fs: Frames, opre: Text, ms: List<Member>, kpre: Text, key: List<Piece>, k: Text)
    requires IsBlank(kpre) && WfPieces(key)
    ensures Rest(WantKey(fs, opre, ms, []), kpre + PrintString(key, k))
      == Rest(AfterKey(fs, opre, ms, kpre, key, []), k)
  {
    RunKeyBlank(fs, opre, ms, [], kpre, PrintString(key, k));
    assert [] + kpre == kpre;
    RunString(WantKey(fs, opre, ms, kpre), fs, AsKey(opre, ms, kpre), key, k);
  }

  lemma ReadColon(fs: Frames, opre: Text, ms: List<Member>, kpre: Text, key: List<Piece>, mid: Text, k: Text)
    requires IsBlank(mid)
    ensures Rest(AfterKey(fs, opre, ms, kpre, key, []), mid + ([COLON] + k))
         == Rest(Want(Snoc(fs, ObjF(opre, ms, kpre, key, mid)), []), k)
  {
    RunMidBlank(fs, opre, ms, kpre, key, [], mid, [COLON] + k);
    assert [] + mid == mid;
    RunCons(AfterKey(fs, opre, ms, kpre, key, mid), COLON, k);
  }

  /** A key, the blanks around it and its colon. */
  lemma ReadKey(fs: Frames, opre: Text, ms: List<Member>, m: Member, k: Text)
    requires WfMember(m)
    ensures Rest(WantKey(fs, opre, ms, []), m.pre + PrintString(m.key, m.mid + ([COLON] + k)))
         == Rest(Want(Snoc(fs, ObjF(opre, ms, m.pre, m.key, m.mid)), []), k)
  {
    ReadKeyName(fs, opre, ms, m.pre, m.key, m.mid + ([COLON] + k));
    ReadColon(fs, opre, ms, m.pre, m.key, m.mid, k);
  }

  lemma {:induction false} ReadMember(fs: Frames, opre: Text, ms: List<Member>, m: Member, c: CodeUnit, k: Text)
    requires WfMember(m) && (c == COMMA || c == RBRACE)
    ensures Rest(WantKey(fs, opre, ms, []), PrintMember(m, [c] + k))
         == Rest(StepAfter(Snoc(fs, ObjF(opre, ms, m.pre, m.key, m.mid)), m.elem.pre, m.elem.value, m.elem.post, c), k)
    decreases m
  {
    ReadKey(fs, opre, ms, m, PrintElem(m.elem, [c] + k));
    ReadElem(Snoc(fs, ObjF(opre, ms, m.pre, m.key, m.mid)), m.elem, c, k);
  }

  lemma {:induction false} ReadElems(fs: Frames, pre: Text, es: List<Elem>, k: Text)
    requires WfElems(es)
    ensures Rest(Want(Snoc(fs, ArrF(pre, Nil)), []), PrintElems(es, k)) == Rest(Want(Snoc(fs, ArrF(pre, es)), []), k)
    decreases es
  {
    if es.Snoc? {
      ReadElems(fs, pre, es.init, PrintElem(es.last, [COMMA] + k));
      ReadElem(Snoc(fs, ArrF(pre, es.init)), es.last, COMMA, k);
    }
  }

  lemma {:induction false} ReadMembers(fs: Frames, opre: Text, ms: List<Member>, k: Text)
    requires WfMembers(ms)
    ensures Rest(WantKey(fs, opre, Nil, []), PrintMembers(ms, k)) == Rest(WantKey(fs, opre, ms, []), k)
    decreases ms
  {
    if ms.Snoc? {
      ReadMembers(fs, opre, ms.init, PrintMember(ms.last, [COMMA] + k));
      ReadMember(fs, opre, ms.init, ms.last, COMMA, k);
    }
  }

  /** Completeness: every well-formed tree is read back from its own text. */
  lemma ParseComplete(d: Elem)
    requires WfElem(d)
    ensures Parse(DocText(d)) == Some(d)
  {
    ReadPadded(Nil, d, []);
  }

  /** The parser decides the grammar and finds its only derivation. */
  lemma ParseExact(t: Text, d: Elem)
    ensures Parse(t) == Some(d) <==> WfElem(d) && DocText(d) == t
  {
    if Parse(t) == Some(d) { ParseSound(t); }
    if WfElem(d) && DocText(d) == t { ParseComplete(d); }
  }
}
