/**
 The register IR that the C backend reads: instructions with their operand roles,
 functions, and what the IR verifier establishes about them. The opcode set is a
 representative subset; opcodes that behave alike for the analyses share a
 constructor (see HostKind).
 */
module Ir {
  import opened Options
  import opened Int64

  type Reg = nat
  type Name = nat
  type Mask = set<nat>

  // Variant type tags.
  const NIL: nat := 0
  const BOOL: nat := 1
  const INT: nat := 2
  const FLOAT: nat := 3
  const STRING: nat := 4
  const VECTOR2: nat := 5
  const VECTOR3: nat := 9
  const VECTOR4: nat := 12
  const OBJECT: nat := 24
  const TAG_COUNT: nat := 39

  /** A native Variant: its type tag and its payload word. */
  datatype Value = Value(tag: nat, data: int)

  const NIL_VALUE := Value(NIL, 0)

  function OfInt(i: int): Value { Value(INT, i) }

  function OfBool(b: bool): Value { Value(BOOL, if b then 1 else 0) }

  datatype CompareOp = Eq | Neq | Lt | Lte | Gt | Gte
  datatype UnaryOp = Neg | BitNot
  datatype LogicOp = And | Or

  /** Opcodes whose result comes from the host, grouped by what the type analysis knows of it. */
  datatype HostKind =
    | Make(made: nat)          // LOAD_STRING, MAKE_ARRAY, MAKE_DICTIONARY, MAKE_CALLABLE, MAKE_VECTOR2, ...
    | Construct(target: int)   // CONSTRUCT
    | Method(name: string)     // VCALL; operand 0 is the receiver
    | Field(name: string)      // VGET, VGET_INLINE; operand 0 is the receiver
    | Math(result: nat)        // GLOBAL_CALL of an inline or engine math function
    | Opaque(code: nat)        // ARRAY_GET, CALL_SYSCALL, PRINT, ...

  datatype Instr =
    | LoadImm(d: Reg, imm: int)
    | LoadFloatImm(d: Reg, bits: int)
    | LoadBool(d: Reg, b: bool)
    | LoadNil(d: Reg)
    | LoadGlobal(d: Reg, g: nat)
    | StoreGlobal(g: nat, s: Reg)
    | Move(d: Reg, s: Reg)
    | Coerce(d: Reg, s: Reg, hint: int)
    | TypeOf(d: Reg, s: Reg)
    | TypeTest(d: Reg, s: Reg, tested: nat)
    | TypeTestMask(d: Reg, s: Reg, mask: Mask)
    | Arith(op: BinaryOp, d: Reg, a: Reg, b2: Reg)
    | Unary(uop: UnaryOp, d: Reg, s: Reg)
    | Compare(cop: CompareOp, d: Reg, a: Reg, b2: Reg)
    | Logic(lop: LogicOp, d: Reg, a: Reg, b2: Reg)
    | Not(d: Reg, s: Reg)
    | Label(l: Name)
    | Jump(l: Name)
    | BranchZero(s: Reg, l: Name)
    | BranchNotZero(s: Reg, l: Name)
    | BranchCompare(cop: CompareOp, a: Reg, b2: Reg, l: Name)
    | Switch(s: Reg, base: int, targets: seq<Name>)
    | Call(callee: nat, d: Reg, args: seq<Reg>)
    | HostOp(kind: HostKind, d: Reg, args: seq<Reg>)
    | HostMutate(code: nat, t: Reg, args: seq<Reg>)   // VARIANT_SET, VSET_INLINE: t is INOUT
    | HostAct(code: nat, t: Reg, args: seq<Reg>)      // VSET, ARRAY_SET, DICT_SET: t is SRC
    | Throw
    | Return

  /** The register of the DST or INOUT operand. */
  function Dest(i: Instr): Option<Reg> {
    match i
    case StoreGlobal(_, _) => None
    case Label(_) => None
    case Jump(_) => None
    case BranchZero(_, _) => None
    case BranchNotZero(_, _) => None
    case BranchCompare(_, _, _, _) => None
    case Switch(_, _, _) => None
    case HostMutate(_, t, _) => Some(t)
    case HostAct(_, _, _) => None
    case Throw => None
    case Return => None
    case _ => Some(i.d)
  }

  /**
   The register the emitted code assigns: the destination, or the receiver of a VSET, ARRAY_SET or
   DICT_SET, which the operand roles call only read.
   */
  function Target(i: Instr): (r: Option<Reg>)
    ensures r.Some? ==> r.value in Reads(i) + Writes(i)
    ensures Dest(i).Some? ==> r == Dest(i)
  {
    if i.HostAct? then Some(i.t) else Dest(i)
  }

  function Writes(i: Instr): set<Reg> {
    match Dest(i)
    case None => {}
    case Some(d) => {d}
  }

  /** Registers of SRC and INOUT operands; a RETURN reads r0. */
  function Reads(i: Instr): set<Reg> {
    match i
    case StoreGlobal(_, s) => {s}
    case Move(_, s) => {s}
    case Coerce(_, s, _) => {s}
    case TypeOf(_, s) => {s}
    case TypeTest(_, s, _) => {s}
    case TypeTestMask(_, s, _) => {s}
    case Arith(_, _, a, b) => {a, b}
    case Unary(_, _, s) => {s}
    case Compare(_, _, a, b) => {a, b}
    case Logic(_, _, a, b) => {a, b}
    case Not(_, s) => {s}
    case BranchZero(s, _) => {s}
    case BranchNotZero(s, _) => {s}
    case BranchCompare(_, a, b, _) => {a, b}
    case Switch(s, _, _) => {s}
    case Call(_, _, args) => set r | r in args
    case HostOp(_, _, args) => set r | r in args
    case HostMutate(_, t, args) => {t} + set r | r in args
    case HostAct(_, t, args) => {t} + set r | r in args
    case Return => {0}
    case _ => {}
  }

  /** Opcodes with the IR_TERMINATOR effect. */
  predicate Terminates(i: Instr) {
    i.Jump? || i.Return?
  }

  /** Label operands of every opcode but LABEL itself. */
  function Targets(i: Instr): seq<Name> {
    match i
    case Jump(l) => [l]
    case BranchZero(_, l) => [l]
    case BranchNotZero(_, l) => [l]
    case BranchCompare(_, _, _, l) => [l]
    case Switch(_, _, targets) => targets
    case _ => []
  }

  /** Position of a label, or the length of the code when there is none. */
  function Find(code: seq<Instr>, l: Name): (k: nat)
    ensures k <= |code|
    ensures k < |code| ==> code[k] == Label(l)
    ensures forall j :: 0 <= j < k ==> code[j] != Label(l)
  {
    if code == [] then 0
    else if code[0] == Label(l) then 0
    else 1 + Find(code[1..], l)
  }

  /** A function body with its declared parameter sets ({} = untyped) and register count. */
  datatype Function = Function(params: seq<Mask>, maxRegisters: nat, code: seq<Instr>)

  function Size(f: Function): (n: nat)
    ensures n >= 1
  {
    if f.maxRegisters == 0 then 1 else f.maxRegisters
  }

  /** Control-flow edges; |code| stands for running off the end. */
  predicate Edge(code: seq<Instr>, at: nat, to: nat)
    requires at < |code|
  {
    || (!Terminates(code[at]) && to == at + 1)
    || (exists j :: 0 <= j < |Targets(code[at])| && to == Find(code, Targets(code[at])[j]))
  }

  ghost predicate UniqueLabels(code: seq<Instr>) {
    forall j, k :: 0 <= j < |code| && 0 <= k < |code| && code[j].Label? && code[j] == code[k] ==> j == k
  }

  ghost predicate TargetsExist(code: seq<Instr>) {
    forall at, j :: 0 <= at < |code| && 0 <= j < |Targets(code[at])| ==>
      Label(Targets(code[at])[j]) in code
  }

  ghost predicate InRange(i: Instr, size: nat) {
    forall r :: r in Reads(i) + Writes(i) ==> r < size
  }

  /** The structural half of the IR verifier. */
  ghost predicate WellFormed(f: Function) {
    && |f.params| <= f.maxRegisters
    && (forall at :: 0 <= at < |f.code| ==> InRange(f.code[at], Size(f)))
    && UniqueLabels(f.code)
    && TargetsExist(f.code)
  }

  /** defined[at] is a set of registers assigned on every path that reaches `at`. */
  ghost predicate DefinedBy(f: Function, defined: seq<set<Reg>>) {
    && |defined| == |f.code| + 1
    && (forall r :: r in defined[0] ==> r < |f.params|)
    && (forall at, to :: 0 <= at < |f.code| && 0 <= to <= |f.code| && Edge(f.code, at, to) ==>
          defined[to] <= defined[at] + Writes(f.code[at]))
    && (forall at :: 0 <= at < |f.code| && !f.code[at].Return? ==> Reads(f.code[at]) <= defined[at])
  }

  /** The definedness half: every read register is assigned first; RETURN's r0 is exempt. */
  ghost predicate DefinitelyAssigned(f: Function) {
    exists defined: seq<set<Reg>> :: DefinedBy(f, defined)
  }

  ghost predicate Path(code: seq<Instr>, p: seq<nat>) {
    && (forall j :: 0 <= j < |p| ==> p[j] <= |code|)
    && (forall j :: 0 <= j < |p| - 1 ==> p[j] < |code| && Edge(code, p[j], p[j + 1]))
  }

  ghost predicate Reachable(code: seq<Instr>, at: nat) {
    exists p: seq<nat> :: |p| > 0 && Path(code, p) && p[0] == 0 && p[|p| - 1] == at
  }

  /** The type-hint half: a reachable COERCE names its target. */
  ghost predicate HintsGiven(code: seq<Instr>) {
    forall at :: 0 <= at < |code| && Reachable(code, at) && code[at].Coerce? ==> code[at].hint != -1
  }

  ghost predicate Verified(f: Function) {
    WellFormed(f) && DefinitelyAssigned(f) && HintsGiven(f.code)
  }

  lemma FindTarget(code: seq<Instr>, at: nat, j: nat)
    requires TargetsExist(code) && at < |code| && j < |Targets(code[at])|
    ensures Find(code, Targets(code[at])[j]) < |code|
    ensures Edge(code, at, Find(code, Targets(code[at])[j]))
  {
    var l := Targets(code[at])[j];
    var k :| 0 <= k < |code| && code[k] == Label(l);
  }
}
