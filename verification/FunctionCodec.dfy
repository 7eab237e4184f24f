/**
 The function-signature blob published beside a program: a legacy record per function, followed
 by the sections STAT, STYP and DECL and, only when some function asks for it, HOOK.
 */
module FunctionCodec {
  import opened Options
  import opened Wire
  import opened Int64

  const STAT := 0x54415453
  const STYP := 0x50595453
  const DECL := 0x4c434544
  const HOOK := 0x4b4f4f48

  datatype DeclaredType = DeclaredType(name: Bytes, mask: nat, nominal: bool)

  /** A parameter default; a double travels as its bits. */
  datatype Default =
    | NoDefault
    | Nil
    | Int(value: int)
    | Float(bits: nat)
    | Bool(on: bool)
    | Str(text: Bytes)
    | EmptyArray
    | EmptyDict

  datatype Parameter = Parameter(name: Bytes, typ: int, default: Default, className: Bytes, declared: DeclaredType)

  datatype Signature = Signature(
    name: Bytes, returnType: int, line: int, description: Bytes, required: nat, isCoroutine: bool,
      parameters: seq<Parameter>,
    isStatic: bool,
    returnClass: Bytes,
    hasDeclaration: bool, isAbstract: bool, declaredReturn: DeclaredType,
    requiresHook: bool)

  const UNDECLARED := DeclaredType([], 0, false)

  // ----- encoding -----

  function Kind(d: Default): nat {
    match d
    case NoDefault => 0
    case Nil => 1
    case Int(_) => 2
    case Float(_) => 3
    case Bool(_) => 4
    case Str(_) => 5
    case EmptyArray => 6
    case EmptyDict => 7
  }

  function EncDefault(d: Default): Bytes {
    match d
    case Int(v) => LE(Int64.Unsigned(v), 8)
    case Float(v) => LE(v, 8)
    case Bool(v) => EncFlag(v)
    case Str(v) => EncText(v)
    case _ => []
  }

  function EncParameter(p: Parameter): Bytes {
    EncText(p.name) + (LE(Unsigned32(p.typ), 4) + (LE(Kind(p.default), 1) + EncDefault(p.default)))
  }

  function EncRecord(s: Signature): Bytes {
    EncText(s.name) + (LE(Unsigned32(s.returnType), 4) + (LE(Unsigned32(s.line), 4) + (EncText(s.description) +
      (LE(s.required, 4) + (EncFlag(s.isCoroutine) + EncCounted(EncParameter, s.parameters))))))
  }

  function EncStatic(s: Signature): Bytes {
    EncFlag(s.isStatic)
  }

  function EncClassName(p: Parameter): Bytes {
    EncText(p.className)
  }

  function EncTypes(s: Signature): Bytes {
    EncText(s.returnClass) + (LE(|s.parameters|, 4) + EncodeEach(EncClassName, s.parameters))
  }

  function EncType(t: DeclaredType): Bytes {
    EncText(t.name) + (LE(t.mask, 8) + EncFlag(t.nominal))
  }

  function EncDeclared(p: Parameter): Bytes {
    EncType(p.declared)
  }

  function EncDeclaration(s: Signature): Bytes {
    EncFlag(s.hasDeclaration) + (EncFlag(s.isAbstract) +
      (EncType(s.declaredReturn) + EncodeEach(EncDeclared, s.parameters)))
  }

  function EncHook(s: Signature): Bytes {
    EncFlag(s.requiresHook)
  }

  predicate AnyHook(sigs: seq<Signature>) {
    exists k :: 0 <= k < |sigs| && sigs[k].requiresHook
  }

  function EncLegacy(sigs: seq<Signature>): Bytes {
    EncCounted(EncRecord, sigs)
  }

  function EncHooks(sigs: seq<Signature>): Bytes {
    if AnyHook(sigs) then EncSection(HOOK, EncHook, sigs) else []
  }

  function Encode(sigs: seq<Signature>): Bytes {
    EncLegacy(sigs) + (EncSection(STAT, EncStatic, sigs) + (EncSection(STYP, EncTypes, sigs) +
      (EncSection(DECL, EncDeclaration, sigs) + EncHooks(sigs))))
  }

  // ----- decoding -----

  function ReadDefault(kind: nat, b: Bytes, at: nat): Parsed<Default> {
    match kind
    case 0 => Some((NoDefault, at))
    case 1 => Some((Nil, at))
    case 2 =>
      var (v, a) :- U(b, at, 8);
      Some((Int(Int64.Wrap(v)), a))
    case 3 =>
      var (v, a) :- U(b, at, 8);
      Some((Float(v), a))
    case 4 =>
      var (v, a) :- Loose(b, at);
      Some((Bool(v), a))
    case 5 =>
      var (v, a) :- Text(b, at);
      Some((Str(v), a))
    case 6 => Some((EmptyArray, at))
    case 7 => Some((EmptyDict, at))
    case _ => None
  }

  function ReadParameter(u: (), b: Bytes, at: nat): Parsed<Parameter> {
    var (name, a1) :- Text(b, at);
    var (typ, a2) :- I32(b, a1);
    var (kind, a3) :- U(b, a2, 1);
    var (default, a4) :- ReadDefault(kind, b, a3);
    Some((Parameter(name, typ, default, [], UNDECLARED), a4))
  }

  function ReadRecord(u: (), b: Bytes, at: nat): Parsed<Signature> {
    var (name, a1) :- Text(b, at);
    var (returnType, a2) :- I32(b, a1);
    var (line, a3) :- I32(b, a2);
    var (description, a4) :- Text(b, a3);
    var (required, a5) :- U(b, a4, 4);
    var (isCoroutine, a6) :- Loose(b, a5);
    var (ps, a7) :- Counted(ReadParameter, b, a6);
    Some((Signature(name, returnType, line, description, if required > |ps| then |ps| else required, isCoroutine, ps,
      false, [], false, false, UNDECLARED, false), a7))
  }

  function ReadStatic(s: Signature, b: Bytes, at: nat): Parsed<Signature> {
    var (f, a) :- Flag(b, at);
    Some((s.(isStatic := f), a))
  }

  function ReadClassName(p: Parameter, b: Bytes, at: nat): Parsed<Parameter> {
    var (c, a) :- Text(b, at);
    Some((p.(className := c), a))
  }

  function ReadTypes(s: Signature, b: Bytes, at: nat): Parsed<Signature> {
    var (c, a1) :- Text(b, at);
    var (n, a2) :- U(b, a1, 4);
    if n != |s.parameters| then None
    else
      var (ps, a3) :- Many(ReadClassName, s.parameters, b, a2);
      Some((s.(returnClass := c, parameters := ps), a3))
  }

  function ReadType(b: Bytes, at: nat): Parsed<DeclaredType> {
    var (name, a1) :- Text(b, at);
    var (mask, a2) :- U(b, a1, 8);
    var (nominal, a3) :- Flag(b, a2);
    Some((DeclaredType(name, mask, nominal), a3))
  }

  function ReadDeclared(p: Parameter, b: Bytes, at: nat): Parsed<Parameter> {
    var (t, a) :- ReadType(b, at);
    Some((p.(declared := t), a))
  }

  function ReadDeclaration(s: Signature, b: Bytes, at: nat): Parsed<Signature> {
    var (h, a1) :- Flag(b, at);
    var (i, a2) :- Flag(b, a1);
    var (t, a3) :- ReadType(b, a2);
    var (ps, a4) :- Many(ReadDeclared, s.parameters, b, a3);
    Some((s.(hasDeclaration := h, isAbstract := i, declaredReturn := t, parameters := ps), a4))
  }

  function ReadHook(s: Signature, b: Bytes, at: nat): Parsed<Signature> {
    var (f, a) :- Flag(b, at);
    Some((s.(requiresHook := f), a))
  }

  function ReadLegacy(b: Bytes): Parsed<seq<Signature>> {
    Counted(ReadRecord, b, 0)
  }

  /** The blob is legacy records and then as many of the sections, in order, as it has bytes left for. */
  function Decode(b: Bytes): Option<seq<Signature>> {
    var (legacy, a0) :- ReadLegacy(b);
    if a0 == |b| then Some(legacy)
    else
      var (static_, a1) :- ReadSection(STAT, ReadStatic, legacy, b, a0);
      if a1 == |b| then Some(static_)
      else
        var (typed, a2) :- ReadSection(STYP, ReadTypes, static_, b, a1);
        if a2 == |b| then Some(typed)
        else
          var (declared, a3) :- ReadSection(DECL, ReadDeclaration, typed, b, a2);
          if a3 == |b| then Some(declared)
          else
            var (hooked, a4) :- ReadSection(HOOK, ReadHook, declared, b, a3);
            if a4 == |b| then Some(hooked) else None
  }

  // ----- what a blob of each age carries -----

  /** The fields that the first `level` sections publish; the others are at their defaults. */
  function KeepParameter(p: Parameter, level: nat): Parameter {
    p.(className := if level >= 2 then p.className else [], declared := if level >= 3 then p.declared else UNDECLARED)
  }

  function KeepParameters(ps: seq<Parameter>, level: nat): (r: seq<Parameter>)
    ensures |r| == |ps| && forall k :: 0 <= k < |ps| ==> r[k] == KeepParameter(ps[k], level)
  {
    seq(|ps|, k requires 0 <= k < |ps| => KeepParameter(ps[k], level))
  }

  /** A decoder never reports more required arguments than there are parameters. */
  function Clamped(s: Signature): nat {
    if s.required > |s.parameters| then |s.parameters| else s.required
  }

  function KeepFields(s: Signature, level: nat): Signature {
    s.(required := Clamped(s),
       parameters := KeepParameters(s.parameters, level),
       isStatic := level >= 1 && s.isStatic,
       returnClass := if level >= 2 then s.returnClass else [],
       hasDeclaration := level >= 3 && s.hasDeclaration,
       isAbstract := level >= 3 && s.isAbstract,
       declaredReturn := if level >= 3 then s.declaredReturn else UNDECLARED,
       requiresHook := level >= 4 && s.requiresHook)
  }

  function Keep(sigs: seq<Signature>, level: nat): (r: seq<Signature>)
    ensures |r| == |sigs| && forall k :: 0 <= k < |sigs| ==> r[k] == KeepFields(sigs[k], level)
  {
    seq(|sigs|, k requires 0 <= k < |sigs| => KeepFields(sigs[k], level))
  }

  // ----- sizes the format can carry -----

  predicate FitsDefault(d: Default) {
    match d
    case Int(v) => Int64.In64(v)
    case Float(v) => v < TWO64
    case Str(v) => |v| < TWO32
    case _ => true
  }

  predicate FitsType(t: DeclaredType) {
    |t.name| < TWO32 && t.mask < TWO64
  }

  predicate FitsParameter(p: Parameter) {
    |p.name| < TWO32 && In32(p.typ) && FitsDefault(p.default) && |p.className| < TWO32 && FitsType(p.declared)
  }

  predicate FitsSignature(s: Signature) {
    && |s.name| < TWO32 && In32(s.returnType) && In32(s.line) && |s.description| < TWO32
    && s.required < TWO32 && |s.parameters| < TWO32 && |s.returnClass| < TWO32 && FitsType(s.declaredReturn)
    && forall k :: 0 <= k < |s.parameters| ==> FitsParameter(s.parameters[k])
  }

  predicate Fits(sigs: seq<Signature>) {
    |sigs| < TWO32 && forall k :: 0 <= k < |sigs| ==> FitsSignature(sigs[k])
  }

  // ----- each piece reads back, or fails when cut -----

  lemma WrapUnsigned(v: int)
    requires Int64.In64(v)
    ensures Int64.Wrap(Int64.Unsigned(v)) == v
  {
    if v < 0 {
      assert v % Int64.TWO64 == v + Int64.TWO64;
    }
  }

  lemma DefaultReads(b: Bytes, at: nat, d: Default)
    requires FitsDefault(d) && Follows(b, at, EncDefault(d))
    ensures ReadDefault(Kind(d), b, at) == Taken(b, at, EncDefault(d), d)
  {
    assert at <= |b|;
    hide U, LE, Follows, Text, EncText, Loose, Flag;
    Widths();
    match d
    case Int(v) =>
      UReads(b, at, Int64.Unsigned(v), 8);
      WrapUnsigned(v);
    case Float(v) =>
      UReads(b, at, v, 8);
    case Bool(v) =>
      FlagReads(b, at, v);
    case Str(v) =>
      TextReads(b, at, v);
    case _ =>
  }

  lemma ParameterReads(b: Bytes, at: nat, p: Parameter)
    requires FitsParameter(p) && Follows(b, at, EncParameter(p))
    ensures ReadParameter((), b, at) == Taken(b, at, EncParameter(p), KeepParameter(p, 0))
  {
    hide U, LE, Follows, Text, EncText, I32, ReadDefault, EncDefault, Unsigned32;
    Widths();
    var r3 := EncDefault(p.default);
    var r2 := LE(Kind(p.default), 1) + r3;
    TextThen(b, at, p.name, LE(Unsigned32(p.typ), 4) + r2);
    var a := at + |EncText(p.name)|;
    if a <= |b| {
      I32Then(b, a, p.typ, r2);
      if a + 4 <= |b| {
        UThen(b, a + 4, Kind(p.default), 1, r3);
        if a + 5 <= |b| {
          DefaultReads(b, a + 5, p.default);
        }
      }
    }
  }

  lemma ParametersRead(b: Bytes, at: nat, ps: seq<Parameter>)
    requires |ps| < TWO32 && forall k :: 0 <= k < |ps| ==> FitsParameter(ps[k])
    requires Follows(b, at, EncCounted(EncParameter, ps))
    ensures Counted(ReadParameter, b, at) == Taken(b, at, EncCounted(EncParameter, ps), KeepParameters(ps, 0))
  {
    forall k | 0 <= k < |ps|
      ensures EncParameter(ps[k]) != []
    {
      assert |EncText(ps[k].name)| >= 4;
    }
    hide ReadParameter, FitsParameter, EncParameter, Follows, Counted, EncCounted;
    forall k: nat, a: nat | k < |ps| && Follows(b, a, EncParameter(ps[k]))
      ensures ReadParameter((), b, a) == Taken(b, a, EncParameter(ps[k]), KeepParameters(ps, 0)[k])
    {
      ParameterReads(b, a, ps[k]);
    }
    CountedReads(ReadParameter, EncParameter, ps, KeepParameters(ps, 0), b, at);
  }

  lemma RecordReads(b: Bytes, at: nat, s: Signature)
    requires FitsSignature(s) && Follows(b, at, EncRecord(s))
    ensures ReadRecord((), b, at) == Taken(b, at, EncRecord(s), KeepFields(s, 0))
  {
    hide U, LE, Follows, Text, EncText, I32, Loose, Flag, Counted, EncCounted, Unsigned32, ReadParameter, EncParameter,
      FitsParameter, KeepParameter;
    Widths();
    var ps := s.parameters;
    var r6 := EncCounted(EncParameter, ps);
    var r5 := EncFlag(s.isCoroutine) + r6;
    var r4 := LE(s.required, 4) + r5;
    var r3 := EncText(s.description) + r4;
    var r2 := LE(Unsigned32(s.line), 4) + r3;
    TextThen(b, at, s.name, LE(Unsigned32(s.returnType), 4) + r2);
    var a := at + |EncText(s.name)|;
    if a <= |b| {
      I32Then(b, a, s.returnType, r2);
    }
    if a + 4 <= |b| {
      I32Then(b, a + 4, s.line, r3);
    }
    if a + 8 <= |b| {
      TextThen(b, a + 8, s.description, r4);
    }
    var a' := a + 8 + |EncText(s.description)|;
    if a' <= |b| {
      UThen(b, a', s.required, 4, r5);
    }
    if a' + 4 <= |b| {
      FlagThen(b, a' + 4, s.isCoroutine, r6);
    }
    if a' + 5 <= |b| {
      ParametersRead(b, a' + 5, ps);
    }
  }

  lemma StaticReads(b: Bytes, at: nat, s: Signature)
    requires Follows(b, at, EncStatic(s))
    ensures ReadStatic(KeepFields(s, 0), b, at) == Taken(b, at, EncStatic(s), KeepFields(s, 1))
  {
    hide Flag, Follows;
    FlagReads(b, at, s.isStatic);
    assert KeepParameters(s.parameters, 0) == KeepParameters(s.parameters, 1);
  }

  lemma ClassNamesRead(b: Bytes, at: nat, ps: seq<Parameter>)
    requires forall k :: 0 <= k < |ps| ==> FitsParameter(ps[k])
    requires Follows(b, at, EncodeEach(EncClassName, ps))
    ensures Many(ReadClassName, KeepParameters(ps, 1), b, at) ==
      Taken(b, at, EncodeEach(EncClassName, ps), KeepParameters(ps, 2))
  {
    forall k: nat, a: nat | k < |ps| && Follows(b, a, EncClassName(ps[k]))
      ensures ReadClassName(KeepParameters(ps, 1)[k], b, a) ==
        Taken(b, a, EncClassName(ps[k]), KeepParameters(ps, 2)[k])
    {
      hide Follows, Text, EncText;
      TextReads(b, a, ps[k].className);
    }
    hide ReadClassName, EncClassName, Follows;
    ManyReads(ReadClassName, KeepParameters(ps, 1), EncClassName, ps, KeepParameters(ps, 2), b, at);
  }

  lemma TypesRead(b: Bytes, at: nat, s: Signature)
    requires FitsSignature(s) && Follows(b, at, EncTypes(s))
    ensures ReadTypes(KeepFields(s, 1), b, at) == Taken(b, at, EncTypes(s), KeepFields(s, 2))
  {
    hide U, LE, Follows, Text, EncText, Many, EncodeEach, ReadClassName, EncClassName, FitsParameter, KeepParameter;
    Widths();
    var ps := s.parameters;
    var r := EncodeEach(EncClassName, ps);
    TextThen(b, at, s.returnClass, LE(|ps|, 4) + r);
    var a := at + |EncText(s.returnClass)|;
    if a <= |b| {
      UThen(b, a, |ps|, 4, r);
    }
    if a + 4 <= |b| {
      ClassNamesRead(b, a + 4, ps);
    }
  }

  lemma TypeReads(b: Bytes, at: nat, t: DeclaredType)
    requires FitsType(t) && Follows(b, at, EncType(t))
    ensures ReadType(b, at) == Taken(b, at, EncType(t), t)
  {
    hide U, LE, Follows, Text, EncText, Flag;
    Widths();
    TextThen(b, at, t.name, LE(t.mask, 8) + EncFlag(t.nominal));
    var a := at + |EncText(t.name)|;
    if a <= |b| {
      UThen(b, a, t.mask, 8, EncFlag(t.nominal));
    }
    if a + 8 <= |b| {
      FlagReads(b, a + 8, t.nominal);
    }
  }

  lemma DeclaredRead(b: Bytes, at: nat, ps: seq<Parameter>)
    requires forall k :: 0 <= k < |ps| ==> FitsParameter(ps[k])
    requires Follows(b, at, EncodeEach(EncDeclared, ps))
    ensures Many(ReadDeclared, KeepParameters(ps, 2), b, at) ==
      Taken(b, at, EncodeEach(EncDeclared, ps), KeepParameters(ps, 3))
  {
    forall k: nat, a: nat | k < |ps| && Follows(b, a, EncDeclared(ps[k]))
      ensures ReadDeclared(KeepParameters(ps, 2)[k], b, a) == Taken(b, a, EncDeclared(ps[k]), KeepParameters(ps, 3)[k])
    {
      hide Follows, ReadType, EncType;
      TypeReads(b, a, ps[k].declared);
    }
    hide ReadDeclared, EncDeclared, Follows;
    ManyReads(ReadDeclared, KeepParameters(ps, 2), EncDeclared, ps, KeepParameters(ps, 3), b, at);
  }

  lemma DeclarationReads(b: Bytes, at: nat, s: Signature)
    requires FitsSignature(s) && Follows(b, at, EncDeclaration(s))
    ensures ReadDeclaration(KeepFields(s, 2), b, at) == Taken(b, at, EncDeclaration(s), KeepFields(s, 3))
  {
    hide Follows, Flag, Loose, Many, EncodeEach, ReadType, EncType, ReadDeclared, EncDeclared, FitsParameter, FitsType,
      KeepParameter;
    var r3 := EncodeEach(EncDeclared, s.parameters);
    var r2 := EncType(s.declaredReturn) + r3;
    FlagThen(b, at, s.hasDeclaration, EncFlag(s.isAbstract) + r2);
    if at + 1 <= |b| {
      FlagThen(b, at + 1, s.isAbstract, r2);
    }
    if at + 2 <= |b| {
      FollowsSplit(b, at + 2, EncType(s.declaredReturn), r3);
      TypeReads(b, at + 2, s.declaredReturn);
      var a := at + 2 + |EncType(s.declaredReturn)|;
      if a <= |b| {
        DeclaredRead(b, a, s.parameters);
      }
    }
  }

  lemma HookReads(b: Bytes, at: nat, s: Signature)
    requires Follows(b, at, EncHook(s))
    ensures ReadHook(KeepFields(s, 3), b, at) == Taken(b, at, EncHook(s), KeepFields(s, 4))
  {
    hide Flag, Follows;
    FlagReads(b, at, s.requiresHook);
    assert KeepParameters(s.parameters, 3) == KeepParameters(s.parameters, 4);
  }

  // ----- sections -----

  lemma LegacyReads(b: Bytes, sigs: seq<Signature>)
    requires Fits(sigs) && Follows(b, 0, EncLegacy(sigs))
    ensures ReadLegacy(b) == Taken(b, 0, EncLegacy(sigs), Keep(sigs, 0))
  {
    forall k | 0 <= k < |sigs|
      ensures EncRecord(sigs[k]) != []
    {
      assert |EncText(sigs[k].name)| >= 4;
    }
    hide ReadRecord, EncRecord, Follows, FitsSignature, KeepFields, Counted, EncCounted;
    forall k: nat, a: nat | k < |sigs| && Follows(b, a, EncRecord(sigs[k]))
      ensures ReadRecord((), b, a) == Taken(b, a, EncRecord(sigs[k]), Keep(sigs, 0)[k])
    {
      RecordReads(b, a, sigs[k]);
    }
    CountedReads(ReadRecord, EncRecord, sigs, Keep(sigs, 0), b, 0);
  }

  lemma StatReads(b: Bytes, at: nat, sigs: seq<Signature>)
    requires Fits(sigs) && Follows(b, at, EncSection(STAT, EncStatic, sigs))
    ensures ReadSection(STAT, ReadStatic, Keep(sigs, 0), b, at) ==
      Taken(b, at, EncSection(STAT, EncStatic, sigs), Keep(sigs, 1))
  {
    hide Follows, KeepFields, ReadStatic, EncStatic, ReadSection, EncSection;
    forall k: nat, a: nat | k < |sigs| && Follows(b, a, EncStatic(sigs[k]))
      ensures ReadStatic(Keep(sigs, 0)[k], b, a) == Taken(b, a, EncStatic(sigs[k]), Keep(sigs, 1)[k])
    {
      StaticReads(b, a, sigs[k]);
    }
    SectionReads(STAT, ReadStatic, Keep(sigs, 0), EncStatic, sigs, Keep(sigs, 1), b, at);
  }

  lemma StypReads(b: Bytes, at: nat, sigs: seq<Signature>)
    requires Fits(sigs) && Follows(b, at, EncSection(STYP, EncTypes, sigs))
    ensures ReadSection(STYP, ReadTypes, Keep(sigs, 1), b, at) ==
      Taken(b, at, EncSection(STYP, EncTypes, sigs), Keep(sigs, 2))
  {
    hide Follows, KeepFields, ReadTypes, EncTypes, ReadSection, EncSection, FitsSignature;
    forall k: nat, a: nat | k < |sigs| && Follows(b, a, EncTypes(sigs[k]))
      ensures ReadTypes(Keep(sigs, 1)[k], b, a) == Taken(b, a, EncTypes(sigs[k]), Keep(sigs, 2)[k])
    {
      TypesRead(b, a, sigs[k]);
    }
    SectionReads(STYP, ReadTypes, Keep(sigs, 1), EncTypes, sigs, Keep(sigs, 2), b, at);
  }

  lemma DeclReads(b: Bytes, at: nat, sigs: seq<Signature>)
    requires Fits(sigs) && Follows(b, at, EncSection(DECL, EncDeclaration, sigs))
    ensures ReadSection(DECL, ReadDeclaration, Keep(sigs, 2), b, at) ==
      Taken(b, at, EncSection(DECL, EncDeclaration, sigs), Keep(sigs, 3))
  {
    hide Follows, KeepFields, ReadDeclaration, EncDeclaration, ReadSection, EncSection, FitsSignature;
    forall k: nat, a: nat | k < |sigs| && Follows(b, a, EncDeclaration(sigs[k]))
      ensures ReadDeclaration(Keep(sigs, 2)[k], b, a) == Taken(b, a, EncDeclaration(sigs[k]), Keep(sigs, 3)[k])
    {
      DeclarationReads(b, a, sigs[k]);
    }
    SectionReads(DECL, ReadDeclaration, Keep(sigs, 2), EncDeclaration, sigs, Keep(sigs, 3), b, at);
  }

  lemma HooksRead(b: Bytes, at: nat, sigs: seq<Signature>)
    requires Fits(sigs) && Follows(b, at, EncSection(HOOK, EncHook, sigs))
    ensures ReadSection(HOOK, ReadHook, Keep(sigs, 3), b, at) ==
      Taken(b, at, EncSection(HOOK, EncHook, sigs), Keep(sigs, 4))
  {
    hide Follows, KeepFields, ReadHook, EncHook, ReadSection, EncSection;
    forall k: nat, a: nat | k < |sigs| && Follows(b, a, EncHook(sigs[k]))
      ensures ReadHook(Keep(sigs, 3)[k], b, a) == Taken(b, a, EncHook(sigs[k]), Keep(sigs, 4)[k])
    {
      HookReads(b, a, sigs[k]);
    }
    SectionReads(HOOK, ReadHook, Keep(sigs, 3), EncHook, sigs, Keep(sigs, 4), b, at);
  }

  // ----- the codec -----

  /** Where each generation of the format ends. */
  function Boundary(sigs: seq<Signature>, level: nat): nat
    requires level <= 3
  {
    var legacy, stat := |EncLegacy(sigs)|, |EncSection(STAT, EncStatic, sigs)|;
    var styp, decl := |EncSection(STYP, EncTypes, sigs)|, |EncSection(DECL, EncDeclaration, sigs)|;
    if level == 0 then legacy
    else if level == 1 then legacy + stat
    else if level == 2 then legacy + stat + styp
    else legacy + stat + styp + decl
  }

  /** Without a hook, DECL already says it all. */
  lemma KeepAll(sigs: seq<Signature>)
    ensures !AnyHook(sigs) ==> Keep(sigs, 3) == Keep(sigs, 4)
  {
    forall k | 0 <= k < |sigs|
      ensures !sigs[k].requiresHook ==> KeepFields(sigs[k], 3) == KeepFields(sigs[k], 4)
    {
      assert KeepParameters(sigs[k].parameters, 4) == KeepParameters(sigs[k].parameters, 3);
    }
  }

  /** A strict prefix decodes exactly at a section boundary, to the fields published up to there. */
  lemma {:induction false} PrefixDecodes(sigs: seq<Signature>, n: nat)
    requires Fits(sigs) && n <= |Encode(sigs)|
    ensures Decode(Encode(sigs)[..n]) ==
      if n == |Encode(sigs)| then Some(Keep(sigs, 4))
      else if n == Boundary(sigs, 0) then Some(Keep(sigs, 0))
      else if n == Boundary(sigs, 1) then Some(Keep(sigs, 1))
      else if n == Boundary(sigs, 2) then Some(Keep(sigs, 2))
      else if n == Boundary(sigs, 3) then Some(Keep(sigs, 3))
      else None
  {
    hide Follows, ReadSection, EncSection, ReadLegacy, EncLegacy, KeepFields, AnyHook, FitsSignature;
    var b := Encode(sigs)[..n];
    var e1, e2, e3, e4 := EncSection(STAT, EncStatic, sigs), EncSection(STYP, EncTypes, sigs),
      EncSection(DECL, EncDeclaration, sigs), EncHooks(sigs);
    PrefixFollows(Encode(sigs), n);
    FollowsSplit(b, 0, EncLegacy(sigs), e1 + (e2 + (e3 + e4)));
    LegacyReads(b, sigs);
    KeepAll(sigs);
    SectionsNonEmpty(sigs);
    if Boundary(sigs, 0) <= n {
      FollowsSplit(b, Boundary(sigs, 0), e1, e2 + (e3 + e4));
      StatReads(b, Boundary(sigs, 0), sigs);
    }
    if Boundary(sigs, 1) <= n {
      FollowsSplit(b, Boundary(sigs, 1), e2, e3 + e4);
      StypReads(b, Boundary(sigs, 1), sigs);
    }
    if Boundary(sigs, 2) <= n {
      FollowsSplit(b, Boundary(sigs, 2), e3, e4);
      DeclReads(b, Boundary(sigs, 2), sigs);
    }
    if Boundary(sigs, 3) <= n && AnyHook(sigs) {
      HooksRead(b, Boundary(sigs, 3), sigs);
    }
  }

  lemma SectionsNonEmpty(sigs: seq<Signature>)
    ensures |EncSection(STAT, EncStatic, sigs)| >= 8 && |EncSection(STYP, EncTypes, sigs)| >= 8
    ensures |EncSection(DECL, EncDeclaration, sigs)| >= 8 && |EncSection(HOOK, EncHook, sigs)| >= 8
  {
    hide LE, EncodeEach;
  }

  predicate RequiredInRange(sigs: seq<Signature>) {
    forall k :: 0 <= k < |sigs| ==> sigs[k].required <= |sigs[k].parameters|
  }

  lemma WholeDecodes(sigs: seq<Signature>)
    requires Fits(sigs)
    ensures Decode(Encode(sigs)) == Some(Keep(sigs, 4))
  {
    hide Decode, Encode, Fits;
    PrefixDecodes(sigs, |Encode(sigs)|);
    assert Encode(sigs)[..|Encode(sigs)|] == Encode(sigs);
  }

  lemma KeptExactly(sigs: seq<Signature>)
    ensures Keep(sigs, 4) == sigs <==> RequiredInRange(sigs)
  {
    forall k | 0 <= k < |sigs|
      ensures Keep(sigs, 4)[k] == sigs[k] <==> sigs[k].required <= |sigs[k].parameters|
    {
      assert KeepParameters(sigs[k].parameters, 4) == sigs[k].parameters;
    }
    assert Keep(sigs, 4) == sigs <==> forall k :: 0 <= k < |sigs| ==> Keep(sigs, 4)[k] == sigs[k];
  }

  /** Decoding undoes encoding exactly when no function requires more arguments than it has parameters. */
  lemma {:induction false} RoundTrip(sigs: seq<Signature>)
    requires Fits(sigs)
    ensures Decode(Encode(sigs)) == Some(sigs) <==> RequiredInRange(sigs)
  {
    hide Decode, Encode, Fits, Keep, RequiredInRange;
    WholeDecodes(sigs);
    KeptExactly(sigs);
  }

  // ----- the encoder -----

  method EncodeSignatures(sigs: seq<Signature>) returns (out: Bytes)
    ensures out == Encode(sigs)
    ensures Fits(sigs) && RequiredInRange(sigs) ==> Decode(out) == Some(sigs)
  {
    hide LE, EncodeEach, EncSection, Decode, Fits, RequiredInRange, AnyHook;
    out := WriteEach(LE(|sigs|, 4), EncRecord, sigs);
    out := WriteSection(out, STAT, EncStatic, sigs);
    out := WriteSection(out, STYP, EncTypes, sigs);
    out := WriteSection(out, DECL, EncDeclaration, sigs);
    if AnyHook(sigs) {
      out := WriteSection(out, HOOK, EncHook, sigs);
    }
    assert out == Encode(sigs);
    if Fits(sigs) {
      RoundTrip(sigs);
    }
  }

  // ----- the decoder -----

  method TakeDefault(reader: Reader, kind: nat) returns (d: Default)
    requires reader.Valid() && reader.ok && kind <= 7
    modifies reader
    ensures reader.Holds(ReadDefault(kind, reader.data, old(reader.offset)), d)
  {
    hide U, Text, Loose;
    match kind
    case 0 => d := NoDefault;
    case 1 => d := Nil;
    case 2 =>
      var v := reader.Scalar(8);
      d := Int(Int64.Wrap(v));
    case 3 =>
      var v := reader.Scalar(8);
      d := Float(v);
    case 4 =>
      var v := reader.Lenient();
      d := Bool(v);
    case 5 =>
      var v := reader.String();
      d := Str(v);
    case 6 => d := EmptyArray;
    case _ => d := EmptyDict;
  }

  /** `bad` is the early exit of the decoder. */
  method TakeParameter(reader: Reader) returns (p: Parameter, bad: bool)
    requires reader.Valid()
    modifies reader
    ensures reader.Valid()
    ensures !bad ==> old(reader.ok) && reader.Holds(ReadParameter((), reader.data, old(reader.offset)), p)
    ensures bad ==> !old(reader.ok) || ReadParameter((), reader.data, old(reader.offset)).None?
  {
    hide U, Text, I32, ReadDefault;
    p := Parameter([], 0, NoDefault, [], UNDECLARED);
    bad := false;
    var name := reader.String();
    var typ := reader.Signed();
    var kind := reader.Scalar(1);
    if !reader.ok || kind > 7 {
      bad := true;
      if kind > 7 {
        LargeKind(kind, reader.data, reader.offset);
      }
      return;
    }
    var default := TakeDefault(reader, kind);
    p := Parameter(name, typ, default, [], UNDECLARED);
  }

  lemma LargeKind(kind: nat, b: Bytes, at: nat)
    requires kind > 7
    ensures ReadDefault(kind, b, at).None?
  {
  }

  method TakeRecord(reader: Reader) returns (s: Signature, bad: bool)
    requires reader.Valid()
    modifies reader
    ensures reader.Valid()
    ensures !bad ==> old(reader.ok) && reader.Holds(ReadRecord((), reader.data, old(reader.offset)), s)
    ensures bad ==> !old(reader.ok) || ReadRecord((), reader.data, old(reader.offset)).None?
  {
    hide U, Text, I32, Loose, Many, ReadParameter;
    s := Signature([], 0, 0, [], 0, false, [], false, [], false, false, UNDECLARED, false);
    var b := reader.data;
    var name := reader.String();
    var returnType := reader.Signed();
    var line := reader.Signed();
    var description := reader.String();
    var required := reader.Scalar(4);
    var isCoroutine := reader.Lenient();
    var count := reader.Scalar(4);
    if !reader.ok || count > |b| {
      bad := true;
      return;
    }
    var ps;
    ps, bad := TakeParameters(reader, count);
    if bad {
      return;
    }
    s := Signature(name, returnType, line, description, if required > |ps| then |ps| else required, isCoroutine, ps,
      false, [], false, false, UNDECLARED, false);
  }

  method TakeParameters(reader: Reader, count: nat) returns (ps: seq<Parameter>, bad: bool)
    requires reader.Valid() && reader.ok
    modifies reader
    ensures reader.Valid()
    ensures !bad ==> reader.Holds(Many(ReadParameter, Units(count), reader.data, old(reader.offset)), ps)
    ensures !bad && reader.ok ==> |ps| == count
    ensures bad ==> Many(ReadParameter, Units(count), reader.data, old(reader.offset)).None?
  {
    hide Many, ReadParameter, Units;
    ps, bad := [], false;
    ghost var b, at := reader.data, reader.offset;
    ManyNone(ReadParameter, Units(count), b, at);
    for k := 0 to count
      invariant !bad && reader.Holds(Many(ReadParameter, Units(count)[..k], b, at), ps)
    {
      var p;
      assert Units(count)[k] == ();
      p, bad := TakeParameter(reader);
      ManyNext(ReadParameter, Units(count), b, at, k);
      if bad {
        ManyPrefix(ReadParameter, Units(count), b, at, k + 1);
        return;
      }
      ps := ps + [p];
    }
    assert Units(count)[..count] == Units(count);
  }

  method TakeRecords(reader: Reader, count: nat) returns (out: seq<Signature>, bad: bool)
    requires reader.Valid() && reader.ok
    modifies reader
    ensures reader.Valid()
    ensures !bad ==> reader.Holds(Many(ReadRecord, Units(count), reader.data, old(reader.offset)), out)
    ensures bad ==> Many(ReadRecord, Units(count), reader.data, old(reader.offset)).None?
  {
    hide Many, ReadRecord, Units;
    out, bad := [], false;
    ghost var b, at := reader.data, reader.offset;
    ManyNone(ReadRecord, Units(count), b, at);
    for k := 0 to count
      invariant !bad && reader.Holds(Many(ReadRecord, Units(count)[..k], b, at), out)
    {
      var s;
      assert Units(count)[k] == ();
      s, bad := TakeRecord(reader);
      ManyNext(ReadRecord, Units(count), b, at, k);
      if bad {
        ManyPrefix(ReadRecord, Units(count), b, at, k + 1);
        return;
      }
      out := out + [s];
    }
    assert Units(count)[..count] == Units(count);
  }

  /** STAT: a byte per function, checked as it is read. */
  method TakeStatics(reader: Reader, sigs: seq<Signature>) returns (out: seq<Signature>, bad: bool)
    requires reader.Valid() && reader.ok
    modifies reader
    ensures reader.Valid()
    ensures !bad ==> reader.Holds(ReadSection(STAT, ReadStatic, sigs, reader.data, old(reader.offset)), out)
    ensures bad ==> ReadSection(STAT, ReadStatic, sigs, reader.data, old(reader.offset)).None?
  {
    hide Many, U;
    out, bad := sigs, false;
    ghost var b := reader.data;
    var magic := reader.Scalar(4);
    if magic != STAT {
      bad := true;
      return;
    }
    var count := reader.Scalar(4);
    if !reader.ok || count != |sigs| {
      bad := true;
      return;
    }
    ghost var at := reader.offset;
    ManyNone(ReadStatic, sigs, b, at);
    for k := 0 to |sigs|
      invariant !bad && |out| == |sigs| && out[k..] == sigs[k..]
      invariant reader.Holds(Many(ReadStatic, sigs[..k], b, at), out[..k])
    {
      var value := reader.Scalar(1);
      ManyNext(ReadStatic, sigs, b, at, k);
      if value > 1 {
        ManyPrefix(ReadStatic, sigs, b, at, k + 1);
        bad := true;
        return;
      }
      Replaced(out, sigs, k, out[k].(isStatic := value != 0));
      out := out[k := out[k].(isStatic := value != 0)];
    }
    assert sigs[..|sigs|] == sigs && out[..|sigs|] == out;
  }

  method TakeClassNames(reader: Reader, ps: seq<Parameter>) returns (out: seq<Parameter>)
    requires reader.Valid() && reader.ok
    modifies reader
    ensures |out| == |ps|
    ensures reader.Holds(Many(ReadClassName, ps, reader.data, old(reader.offset)), out)
  {
    hide Many, Text;
    out := ps;
    ghost var b, at := reader.data, reader.offset;
    ManyNone(ReadClassName, ps, b, at);
    for k := 0 to |ps|
      invariant |out| == |ps| && out[k..] == ps[k..]
      invariant reader.Holds(Many(ReadClassName, ps[..k], b, at), out[..k])
    {
      var name := reader.String();
      ManyNext(ReadClassName, ps, b, at, k);
      Replaced(out, ps, k, out[k].(className := name));
      out := out[k := out[k].(className := name)];
    }
    assert ps[..|ps|] == ps && out[..|ps|] == out;
  }

  method TakeTypes(reader: Reader, s: Signature) returns (s': Signature, bad: bool)
    requires reader.Valid()
    modifies reader
    ensures reader.Valid()
    ensures !bad ==> old(reader.ok) && reader.Holds(ReadTypes(s, reader.data, old(reader.offset)), s')
    ensures bad ==> !old(reader.ok) || ReadTypes(s, reader.data, old(reader.offset)).None?
  {
    hide Many, U, Text, ReadClassName;
    s', bad := s, false;
    var returnClass := reader.String();
    var count := reader.Scalar(4);
    if !reader.ok || count != |s.parameters| {
      bad := true;
      return;
    }
    var ps := TakeClassNames(reader, s.parameters);
    s' := s.(returnClass := returnClass, parameters := ps);
  }

  method TakeTyped(reader: Reader, sigs: seq<Signature>) returns (out: seq<Signature>, bad: bool)
    requires reader.Valid() && reader.ok
    modifies reader
    ensures reader.Valid()
    ensures !bad ==> reader.Holds(ReadSection(STYP, ReadTypes, sigs, reader.data, old(reader.offset)), out)
    ensures bad ==> ReadSection(STYP, ReadTypes, sigs, reader.data, old(reader.offset)).None?
  {
    hide Many, U, ReadTypes;
    out, bad := sigs, false;
    ghost var b := reader.data;
    var magic := reader.Scalar(4);
    if magic != STYP {
      bad := true;
      return;
    }
    var count := reader.Scalar(4);
    if !reader.ok || count != |sigs| {
      bad := true;
      return;
    }
    ghost var at := reader.offset;
    ManyNone(ReadTypes, sigs, b, at);
    for k := 0 to |sigs|
      invariant !bad && |out| == |sigs| && out[k..] == sigs[k..]
      invariant reader.Holds(Many(ReadTypes, sigs[..k], b, at), out[..k])
    {
      var s;
      Replaced(out, sigs, k, out[k]);
      s, bad := TakeTypes(reader, out[k]);
      ManyNext(ReadTypes, sigs, b, at, k);
      if bad {
        ManyPrefix(ReadTypes, sigs, b, at, k + 1);
        return;
      }
      Replaced(out, sigs, k, s);
      out := out[k := s];
    }
    assert sigs[..|sigs|] == sigs && out[..|sigs|] == out;
  }

  method TakeType(reader: Reader) returns (t: DeclaredType)
    requires reader.Valid()
    modifies reader
    ensures reader.Did(ReadType(reader.data, old(reader.offset)), t)
  {
    hide U, Text, Flag;
    var name := reader.String();
    var mask := reader.Scalar(8);
    var nominal := reader.Strict();
    t := DeclaredType(name, mask, nominal);
  }

  method TakeDeclared(reader: Reader, ps: seq<Parameter>) returns (out: seq<Parameter>)
    requires reader.Valid()
    modifies reader
    ensures |out| == |ps|
    ensures reader.Did(Many(ReadDeclared, ps, reader.data, old(reader.offset)), out)
  {
    hide Many, ReadType;
    out := ps;
    ghost var b, at, began := reader.data, reader.offset, reader.ok;
    ManyNone(ReadDeclared, ps, b, at);
    for k := 0 to |ps|
      invariant |out| == |ps| && out[k..] == ps[k..] && reader.Valid()
      invariant began ==> reader.Holds(Many(ReadDeclared, ps[..k], b, at), out[..k])
      invariant !began ==> !reader.ok
    {
      var t := TakeType(reader);
      ManyNext(ReadDeclared, ps, b, at, k);
      Replaced(out, ps, k, out[k].(declared := t));
      out := out[k := out[k].(declared := t)];
    }
    assert ps[..|ps|] == ps && out[..|ps|] == out;
  }

  method TakeDeclaration(reader: Reader, s: Signature) returns (s': Signature)
    requires reader.Valid()
    modifies reader
    ensures reader.Did(ReadDeclaration(s, reader.data, old(reader.offset)), s')
  {
    hide Many, Flag, ReadType, ReadDeclared;
    var hasDeclaration := reader.Strict();
    var isAbstract := reader.Strict();
    var declaredReturn := TakeType(reader);
    var ps := TakeDeclared(reader, s.parameters);
    s' := s.(hasDeclaration := hasDeclaration, isAbstract := isAbstract, declaredReturn := declaredReturn,
      parameters := ps);
  }

  /** DECL and HOOK keep reading after a failure and leave the verdict to the end. */
  method TakeDeclarations(reader: Reader, sigs: seq<Signature>) returns (out: seq<Signature>, bad: bool)
    requires reader.Valid() && reader.ok
    modifies reader
    ensures reader.Valid()
    ensures !bad ==> reader.Holds(ReadSection(DECL, ReadDeclaration, sigs, reader.data, old(reader.offset)), out)
    ensures bad ==> ReadSection(DECL, ReadDeclaration, sigs, reader.data, old(reader.offset)).None?
  {
    hide Many, U, ReadDeclaration;
    out, bad := sigs, false;
    ghost var b := reader.data;
    var magic := reader.Scalar(4);
    if magic != DECL {
      bad := true;
      return;
    }
    var count := reader.Scalar(4);
    if count != |sigs| {
      bad := true;
      return;
    }
    ghost var at, began := reader.offset, reader.ok;
    ManyNone(ReadDeclaration, sigs, b, at);
    for k := 0 to |sigs|
      invariant |out| == |sigs| && out[k..] == sigs[k..] && reader.Valid()
      invariant began ==> reader.Holds(Many(ReadDeclaration, sigs[..k], b, at), out[..k])
      invariant !began ==> !reader.ok
    {
      Replaced(out, sigs, k, out[k]);
      var s := TakeDeclaration(reader, out[k]);
      ManyNext(ReadDeclaration, sigs, b, at, k);
      Replaced(out, sigs, k, s);
      out := out[k := s];
    }
    assert sigs[..|sigs|] == sigs && out[..|sigs|] == out;
  }

  method TakeHooks(reader: Reader, sigs: seq<Signature>) returns (out: seq<Signature>, bad: bool)
    requires reader.Valid() && reader.ok
    modifies reader
    ensures reader.Valid()
    ensures !bad ==> reader.Holds(ReadSection(HOOK, ReadHook, sigs, reader.data, old(reader.offset)), out)
    ensures bad ==> ReadSection(HOOK, ReadHook, sigs, reader.data, old(reader.offset)).None?
  {
    hide Many, U, Flag;
    out, bad := sigs, false;
    ghost var b := reader.data;
    var magic := reader.Scalar(4);
    if magic != HOOK {
      bad := true;
      return;
    }
    var count := reader.Scalar(4);
    if count != |sigs| {
      bad := true;
      return;
    }
    ghost var at, began := reader.offset, reader.ok;
    ManyNone(ReadHook, sigs, b, at);
    for k := 0 to |sigs|
      invariant |out| == |sigs| && out[k..] == sigs[k..] && reader.Valid()
      invariant began ==> reader.Holds(Many(ReadHook, sigs[..k], b, at), out[..k])
      invariant !began ==> !reader.ok
    {
      var value := reader.Strict();
      ManyNext(ReadHook, sigs, b, at, k);
      Replaced(out, sigs, k, out[k].(requiresHook := value));
      out := out[k := out[k].(requiresHook := value)];
    }
    assert sigs[..|sigs|] == sigs && out[..|sigs|] == out;
  }

  method DecodeSignatures(data: Bytes) returns (ok: bool, out: seq<Signature>)
    ensures ok <==> Decode(data).Some?
    ensures out == if ok then Decode(data).value else []
  {
    hide U, Many, ReadSection, ReadRecord;
    ok, out := false, [];
    var reader := new Reader(data);
    var count := reader.Scalar(4);
    if !reader.ok || count > |data| {
      return;
    }
    var sigs, bad := TakeRecords(reader, count);
    if bad || !reader.ok {
      return;
    }
    if reader.offset == |data| {
      return true, sigs;
    }
    sigs, bad := TakeStatics(reader, sigs);
    if bad || !reader.ok {
      return;
    }
    if reader.offset == |data| {
      return true, sigs;
    }
    sigs, bad := TakeTyped(reader, sigs);
    if bad {
      return;
    }
    if reader.ok && reader.offset != |data| {
      sigs, bad := TakeDeclarations(reader, sigs);
      if bad {
        return;
      }
    }
    if reader.ok && reader.offset != |data| {
      sigs, bad := TakeHooks(reader, sigs);
      if bad {
        return;
      }
    }
    if !reader.ok || reader.offset != |data| {
      return;
    }
    return true, sigs;
  }
}
