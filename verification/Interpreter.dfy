/**
 The IR interpreter, the compiler's second evaluator, with registers in a map and comparisons that
 yield integers. On everything that needs no engine it does what the emitted code does, step by
 step, up to two representations: a truth value that it keeps as an integer, and the result of a
 RETURN when r0 was never touched. String values are not part of this model.
 */
module Interpreter {
  import opened Options
  import opened Int64
  import opened Ir
  import opened Machine
  import opened Labels
  import A = IntegerAgreement

  datatype IValue = INil | IInt(i: int) | IFloat(bits: int) | IBool(b: bool)

  /** Double arithmetic, which both evaluators leave to the processor. */
  datatype Doubles = Doubles(
    arith: (BinaryOp, IValue, IValue) -> int,
    remainder: (IValue, IValue) -> int,
    order: (CompareOp, IValue, IValue) -> bool,
    nonzero: int -> bool,
    negate: int -> int,
    truncate: int -> int,
    widen: IValue -> int)

  type Registers = map<Reg, IValue>

  datatype IState = IState(pc: nat, regs: Registers, globals: seq<IValue>)
  datatype IConfig = IRunning(s: IState) | IReturned(v: IValue, globals: seq<IValue>) | IThrown

  /** get_register: an absent register becomes nil by being looked at. */
  function Look(regs: Registers, r: Reg): IValue {
    if r in regs then regs[r] else INil
  }

  function Touch(regs: Registers, r: Reg): Registers {
    regs[r := Look(regs, r)]
  }

  function IntOf(d: Doubles, v: IValue): int {
    match v
    case IInt(i) => i
    case IFloat(bits) => d.truncate(bits)
    case IBool(b) => if b then 1 else 0
    case INil => 0
  }

  predicate BoolOf(d: Doubles, v: IValue) {
    match v
    case IBool(b) => b
    case IInt(i) => i != 0
    case IFloat(bits) => d.nonzero(bits)
    case INil => false
  }

  function Bit01(b: bool): IValue {
    IInt(if b then 1 else 0)
  }

  function TagOf(v: IValue): nat {
    match v
    case INil => 0
    case IBool(_) => 1
    case IInt(_) => 2
    case IFloat(_) => 3
  }

  /** compare_op on integers. */
  predicate Ordered(op: CompareOp, l: int, r: int) {
    match op
    case Eq => l == r
    case Neq => l != r
    case Lt => l < r
    case Lte => l <= r
    case Gt => r < l
    case Gte => r <= l
  }

  function CompareOf(d: Doubles, op: CompareOp, l: IValue, r: IValue): Option<IValue> {
    if l.INil? || r.INil? then
      if op == Eq then Some(Bit01(l.INil? && r.INil?))
      else if op == Neq then Some(Bit01(!(l.INil? && r.INil?)))
      else None
    else if l.IFloat? || r.IFloat? then Some(Bit01(d.order(op, l, r)))
    else Some(Bit01(Ordered(op, IntOf(d, l), IntOf(d, r))))
  }

  function BinaryOf(d: Doubles, op: BinaryOp, l: IValue, r: IValue): Option<IValue> {
    if op in {BitAnd, BitOr, BitXor, Shl, Shr} then Some(IInt(A.Interpreted(op, IntOf(d, l), IntOf(d, r))))
    else if l.IFloat? || r.IFloat? then Some(IFloat(if op == Mod then d.remainder(l, r) else d.arith(op, l, r)))
    else Some(IInt(A.Interpreted(op, IntOf(d, l), IntOf(d, r))))
  }

  /** The value an instruction with a destination writes; nothing where the interpreter throws. */
  function Computed(d: Doubles, i: Instr, regs: Registers): Option<IValue> {
    match i
    case LoadImm(_, n) => Some(IInt(n))
    case LoadFloatImm(_, bits) => Some(IFloat(bits))
    case LoadBool(_, b) => Some(IBool(b))
    case LoadNil(_) => Some(INil)
    case Move(_, s) => Some(Look(regs, s))
    case Coerce(_, s, hint) =>
      var v := Look(regs, s);
      if hint == 3 then Some(IFloat(d.widen(v)))
      else if hint == 2 then Some(IInt(IntOf(d, v)))
      else if hint == 1 then Some(IBool(BoolOf(d, v)))
      else None
    case TypeOf(_, s) => Some(IInt(TagOf(Look(regs, s))))
    case TypeTest(_, s, tested) => Some(IBool(TagOf(Look(regs, s)) == tested))
    case TypeTestMask(_, s, mask) => Some(IBool(TagOf(Look(regs, s)) in mask))
    case Arith(op, _, a, b) => BinaryOf(d, op, Look(regs, a), Look(regs, b))
    case Unary(Neg, _, s) =>
      var v := Look(regs, s);
      Some(if v.IFloat? then IFloat(d.negate(v.bits)) else IInt(A.InterpretedNegation(IntOf(d, v))))
    case Unary(BitNot, _, s) => Some(IInt(A.InterpretedComplement(IntOf(d, Look(regs, s)))))
    case Compare(op, _, a, b) => CompareOf(d, op, Look(regs, a), Look(regs, b))
    case Logic(And, _, a, b) => Some(Bit01(BoolOf(d, Look(regs, a)) && BoolOf(d, Look(regs, b))))
    case Logic(Or, _, a, b) => Some(Bit01(BoolOf(d, Look(regs, a)) || BoolOf(d, Look(regs, b))))
    case Not(_, s) => Some(IBool(!BoolOf(d, Look(regs, s))))
    case _ => None
  }

  /** The registers the instruction looks at; AND and OR look at the second only if the first does not decide. */
  function Touched(d: Doubles, i: Instr, regs: Registers): Registers {
    match i
    case Move(_, s) => Touch(regs, s)
    case Coerce(_, s, _) => Touch(regs, s)
    case TypeOf(_, s) => Touch(regs, s)
    case TypeTest(_, s, _) => Touch(regs, s)
    case TypeTestMask(_, s, _) => Touch(regs, s)
    case Unary(_, _, s) => Touch(regs, s)
    case Not(_, s) => Touch(regs, s)
    case StoreGlobal(_, s) => Touch(regs, s)
    case BranchZero(s, _) => Touch(regs, s)
    case BranchNotZero(s, _) => Touch(regs, s)
    case Switch(s, _, _) => Touch(regs, s)
    case Arith(_, _, a, b) => Touch(Touch(regs, a), b)
    case Compare(_, _, a, b) => Touch(Touch(regs, a), b)
    case BranchCompare(_, a, b, _) => Touch(Touch(regs, a), b)
    case Logic(op, _, a, b) =>
      if BoolOf(d, Look(regs, a)) == (op == And) then Touch(Touch(regs, a), b) else Touch(regs, a)
    case _ => regs
  }

  /** The label a control instruction jumps to, if it jumps; the outer option is empty where it throws. */
  function Jumps(d: Doubles, i: Instr, regs: Registers): Option<Option<Name>> {
    match i
    case Jump(l) => Some(Some(l))
    case BranchZero(s, l) => Some(if !BoolOf(d, Look(regs, s)) then Some(l) else None)
    case BranchNotZero(s, l) => Some(if BoolOf(d, Look(regs, s)) then Some(l) else None)
    case BranchCompare(op, a, b, l) =>
      var v :- CompareOf(d, op, Look(regs, a), Look(regs, b));
      Some(if BoolOf(d, v) then Some(l) else None)
    case Switch(s, base, targets) =>
      var v := Look(regs, s);
      Some(if v.IInt? && base <= v.i < base + |targets| then Some(targets[v.i - base]) else None)
    case _ => Some(None)
  }

  predicate Control(i: Instr) {
    i.Label? || i.Jump? || i.BranchZero? || i.BranchNotZero? || i.BranchCompare? || i.Switch?
  }

  /** execute_instruction, and the loop's rule that a counter left alone moves on by one. */
  function IStep(d: Doubles, code: seq<Instr>, s: IState): IConfig {
    if s.pc >= |code| then IReturned(INil, s.globals)
    else
      var i := code[s.pc];
      var regs := Touched(d, i, s.regs);
      if i.Return? then IReturned(if 0 in s.regs then s.regs[0] else IInt(0), s.globals)
      else if i.StoreGlobal? then
        if i.g < |s.globals| then IRunning(IState(s.pc + 1, regs, s.globals[i.g := Look(s.regs, i.s)])) else IThrown
      else if i.LoadGlobal? then
        if i.g < |s.globals| then IRunning(IState(s.pc + 1, regs[i.d := s.globals[i.g]], s.globals)) else IThrown
      else if Control(i) then
        match Jumps(d, i, s.regs)
        case None => IThrown
        case Some(None) => IRunning(IState(s.pc + 1, regs, s.globals))
        case Some(Some(l)) =>
          match LastById(code, l)
          case None => IThrown
          case Some(at) => IRunning(IState(LoopNext(s.pc, at), regs, s.globals))
      else
        match Computed(d, i, s.regs)
        case None => IThrown
        case Some(v) =>
          if Dest(i).Some? then IRunning(IState(s.pc + 1, regs[Dest(i).value := v], s.globals)) else IThrown
  }

  function IRun(d: Doubles, code: seq<Instr>, c: IConfig, n: nat): IConfig
    decreases n
  {
    if n == 0 || !c.IRunning? then c else IRun(d, code, IStep(d, code, c.s), n - 1)
  }

  /** The registers a call starts with: the arguments there are parameters for. */
  function IEntry(f: Function, args: seq<IValue>): Registers {
    map r: Reg | 0 <= r < |args| && r < |f.params| :: args[r]
  }

  const MAX_STEPS: nat := 20_000_000

  /** What a call gives after so many steps: still inside the body, it exceeded the limit. */
  function Finished(code: seq<Instr>, c: IConfig): IConfig {
    if !c.IRunning? then c else if c.s.pc < |code| then IThrown else IReturned(INil, c.s.globals)
  }

  /** execute_function: steps until the function returns, throws, runs off its end or exceeds the step limit. */
  method ExecuteFunction(d: Doubles, f: Function, args: seq<IValue>, globals: seq<IValue>) returns (c: IConfig)
    ensures c == Finished(f.code, IRun(d, f.code, IRunning(IState(0, IEntry(f, args), globals)), MAX_STEPS))
  {
    hide IStep;
    c := IRunning(IState(0, IEntry(f, args), globals));
    ghost var start := c;
    var steps := 0;
    while c.IRunning? && c.s.pc < |f.code|
      invariant 0 <= steps <= MAX_STEPS
      invariant IRun(d, f.code, c, MAX_STEPS - steps) == IRun(d, f.code, start, MAX_STEPS)
      decreases MAX_STEPS - steps, c.IRunning?
    {
      if steps == MAX_STEPS {
        return IThrown;
      }
      steps := steps + 1;
      c := IStep(d, f.code, c.s);
    }
    if c.IRunning? {
      OffTheEnd(d, f.code, c.s, MAX_STEPS - steps);
      c := IReturned(INil, c.s.globals);
    }
  }

  lemma {:induction false} OffTheEnd(d: Doubles, code: seq<Instr>, s: IState, n: nat)
    requires s.pc >= |code|
    ensures IRun(d, code, IRunning(s), n) == if n == 0 then IRunning(s) else IReturned(INil, s.globals)
  {
  }

  // ----- the two evaluators side by side -----

  /** The same value; a truth value may be kept as 0 or 1. */
  predicate Same(v: Value, x: IValue) {
    match v.tag
    case 0 => x == INil
    case 1 => x == IBool(v.data != 0) || x == IInt(if v.data != 0 then 1 else 0)
    case 2 => In64(v.data) && x == IInt(v.data)
    case 3 => x == IFloat(v.data)
    case _ => false
  }

  /** Both evaluators use the same doubles. */
  ghost predicate SameDoubles(h: Host, d: Doubles) {
    && (forall bits: int, w: World :: h.truth(Value(FLOAT, bits), w) == d.nonzero(bits))
    && (forall op: BinaryOp, x: Value, y: Value, l: IValue, r: IValue ::
          Same(x, l) && Same(y, r) && Numeric(x) && Numeric(y) ==> h.float(op, x, y) == d.arith(op, l, r))
    && (forall op: CompareOp, x: Value, y: Value, l: IValue, r: IValue ::
          Same(x, l) && Same(y, r) && Numeric(x) && Numeric(y) ==> h.order(op, x, y) == d.order(op, l, r))
    && (forall bits: int :: d.widen(IFloat(bits)) == bits)
  }

  /** The instruction, on these registers, needs nothing from the engine and no type test of a truth value. */
  ghost predicate Alone(i: Instr, regs: seq<Value>, w: World) {
    match i
    case LoadImm(_, n) => In64(n)
    case LoadGlobal(_, g) => g < |w.globals|
    case StoreGlobal(g, _) => g < |w.globals|
    case Coerce(_, s, hint) => 1 <= hint <= 3 && At(regs, s).tag == hint
    case TypeOf(_, s) => At(regs, s).tag != BOOL
    case TypeTest(_, s, t) => At(regs, s).tag != BOOL && t != OBJECT
    case TypeTestMask(_, s, _) => At(regs, s).tag != BOOL
    case Arith(op, _, a, b) =>
      var x, y := At(regs, a), At(regs, b);
      || (x.tag == INT && y.tag == INT && (op == Div || op == Mod ==> y.data != 0))
      || (op in {Add, Sub, Mul, Div} && Numeric(x) && Numeric(y) && (x.tag == FLOAT || y.tag == FLOAT))
    case Unary(_, _, s) => At(regs, s).tag == INT
    case Compare(_, _, a, b) => Numeric(At(regs, a)) && Numeric(At(regs, b))
    case BranchCompare(_, _, _, _) => false
    case Switch(s, base, targets) =>
      At(regs, s).tag != BOOL && In64(base) && In64(base + |targets|)
    case Call(_, _, _) => false
    case HostOp(_, _, _) => false
    case HostMutate(_, _, _) => false
    case HostAct(_, _, _) => false
    case Throw => false
    case _ => true
  }

  ghost predicate SameRegisters(regs: seq<Value>, xs: Registers) {
    forall r: Reg :: Same(At(regs, r), Look(xs, r))
  }

  ghost predicate SameGlobals(vs: seq<Value>, xs: seq<IValue>) {
    |vs| == |xs| && forall g :: 0 <= g < |vs| ==> Same(vs[g], xs[g])
  }

  ghost predicate SameState(s: State, t: IState) {
    s.pc == t.pc && SameRegisters(s.regs, t.regs) && SameGlobals(s.w.globals, t.globals)
  }

  /** A function that returns without ever having touched r0 gives nil when compiled, 0 when interpreted. */
  ghost predicate SameOutcome(c: Config, x: IConfig) {
    match c
    case Running(s) => x.IRunning? && SameState(s, x.s)
    case Returned(v, w) =>
      x.IReturned? && SameGlobals(w.globals, x.globals) && (Same(v, x.v) || (v.tag == NIL && x.v == IInt(0)))
    case Failed(_) => false
  }

  /** gj_boolean and get_bool. */
  lemma {:induction false} TruthAgrees(h: Host, d: Doubles, v: Value, x: IValue, w: World)
    requires SameDoubles(h, d) && Same(v, x)
    ensures Truth(h, v, w) == BoolOf(d, x)
    ensures v.tag != FLOAT ==> (Truth(h, v, w) <==> v.tag != 0 && v.data != 0)
  {
  }

  /** The emitted integer comparison and compare_op. */
  lemma {:induction false} CompareAgrees(h: Host, d: Doubles, op: CompareOp, x: int, y: int, w: World)
    requires In64(x) && In64(y)
    ensures var truth := match op
                         case Eq => x == y
                         case Neq => x != y
                         case Lt => x < y
                         case Lte => x <= y
                         case Gt => x > y
                         case Gte => x >= y;
      && CompareAction(h, op, Value(2, x), Value(2, y), w) ==
         Action(Some(Value(1, if truth then 1 else 0)), w, Next)
      && CompareOf(d, op, IInt(x), IInt(y)) == Some(IInt(if truth then 1 else 0))
  {
  }

  // ----- one instruction -----

  lemma {:induction false} TouchedSame(d: Doubles, i: Instr, xs: Registers, r: Reg)
    ensures Look(Touched(d, i, xs), r) == Look(xs, r)
  {
    hide BoolOf;
  }

  predicate Evaluates(i: Instr) {
    i.Arith? || i.Compare? || i.Logic? || i.Not? || i.Unary? || i.Coerce?
  }

  ghost predicate ValuesAgree(h: Host, d: Doubles, i: Instr, regs: seq<Value>, xs: Registers, w: World) {
    var a, v := Execute(h, i, regs, w), Computed(d, i, xs);
    a.next == Next && a.w == w && a.out.Some? && v.Some? && Same(a.out.value, v.value)
  }

  lemma {:induction false} EvaluationAgrees(h: Host, d: Doubles, i: Instr, regs: seq<Value>, xs: Registers, w: World)
    requires SameDoubles(h, d) && SameRegisters(regs, xs) && Alone(i, regs, w) && Evaluates(i)
    ensures ValuesAgree(h, d, i, regs, xs, w)
  {
    hide ArithAction, BinaryOf, CompareAction, CompareOf, Truth, BoolOf, SameDoubles, A.InterpretedNegation,
      A.InterpretedComplement, Wrap, Look, IntResult;
    match i
    case Arith(op, _, a, b) => ArithAgrees(h, d, op, At(regs, a), At(regs, b), Look(xs, a), Look(xs, b), w);
    case Compare(op, _, a, b) => OrderAgrees(h, d, op, At(regs, a), At(regs, b), Look(xs, a), Look(xs, b), w);
    case Logic(_, _, a, b) =>
      TruthAgrees(h, d, At(regs, a), Look(xs, a), w);
      TruthAgrees(h, d, At(regs, b), Look(xs, b), w);
    case Not(_, s) => TruthAgrees(h, d, At(regs, s), Look(xs, s), w);
    case Unary(op, _, s) =>
      assert Same(At(regs, s), Look(xs, s));
      NegationAgrees(At(regs, s).data);
    case Coerce(_, s, _) =>
      assert Same(At(regs, s), Look(xs, s));
      CoerceAgrees(h, d, At(regs, s), Look(xs, s), w);
  }

  /** The value written is the same. */
  lemma {:induction false} ValueAgrees(h: Host, d: Doubles, i: Instr, regs: seq<Value>, xs: Registers, w: World)
    requires SameDoubles(h, d) && SameRegisters(regs, xs) && Alone(i, regs, w)
    requires Dest(i).Some? && !i.LoadGlobal?
    ensures ValuesAgree(h, d, i, regs, xs, w)
  {
    if Evaluates(i) {
      hide *;
      EvaluationAgrees(h, d, i, regs, xs, w);
    } else {
      hide Look, SameDoubles;
      if i.TypeOf? || i.TypeTest? || i.TypeTestMask? || i.Move? {
        assert Same(At(regs, i.s), Look(xs, i.s));
      }
    }
  }

  lemma {:induction false} NegationAgrees(x: int)
    requires In64(x)
    ensures In64(Wrap(0 - Unsigned(x))) && Wrap(0 - Unsigned(x)) == A.InterpretedNegation(x)
    ensures In64(-x - 1) && -x - 1 == A.InterpretedComplement(x)
  {
    A.UnaryAgrees(x);
  }

  lemma {:induction false} CoerceAgrees(h: Host, d: Doubles, v: Value, x: IValue, w: World)
    requires SameDoubles(h, d) && Same(v, x)
    ensures v.tag == 3 ==> d.widen(x) == v.data
    ensures v.tag == 1 ==> BoolOf(d, x) == (v.data != 0)
  {
  }

  lemma {:induction false} ArithAgrees(h: Host, d: Doubles, op: BinaryOp, x: Value, y: Value, l: IValue, r: IValue,
                                       w: World)
    requires SameDoubles(h, d) && Same(x, l) && Same(y, r)
    requires || (x.tag == INT && y.tag == INT && (op == Div || op == Mod ==> y.data != 0))
             || (op in {Add, Sub, Mul, Div} && Numeric(x) && Numeric(y) && (x.tag == FLOAT || y.tag == FLOAT))
    ensures var a, v := ArithAction(h, op, x, y, w), BinaryOf(d, op, l, r);
      a.next == Next && a.w == w && a.out.Some? && v.Some? && Same(a.out.value, v.value)
  {
    hide IntResult, A.Interpreted;
    if x.tag == INT && y.tag == INT {
      A.BinaryAgrees(op, x.data, y.data);
      IntegersStay(op, x.data, y.data);
    }
  }

  lemma {:induction false} IntegersStay(op: BinaryOp, x: int, y: int)
    requires In64(x) && In64(y) && (op == Div || op == Mod ==> y != 0)
    ensures In64(IntResult(op, x, y))
  {
    hide Wrap, Unsigned, Bitwise, Masked, Pow2, TruncDiv, TruncMod;
    match op
    case Div => A.QuotientAgrees(x, y);
    case Mod => A.QuotientAgrees(x, y);
    case Shr => A.ShiftAgrees(x, y);
    case _ =>
  }

  lemma {:induction false} OrderAgrees(h: Host, d: Doubles, op: CompareOp, x: Value, y: Value, l: IValue, r: IValue,
                                       w: World)
    requires SameDoubles(h, d) && Same(x, l) && Same(y, r) && Numeric(x) && Numeric(y)
    ensures var a, v := CompareAction(h, op, x, y, w), CompareOf(d, op, l, r);
      a.next == Next && a.w == w && a.out.Some? && v.Some? && Same(a.out.value, v.value)
  {
    if x.tag == INT && y.tag == INT {
      CompareAgrees(h, d, op, x.data, y.data, w);
    }
  }

  /** A dense switch dispatches on exactly the integers of its range. */
  lemma {:induction false} SwitchAgrees(v: Value, x: IValue, base: int, targets: seq<Name>)
    requires Same(v, x) && v.tag != BOOL && In64(base) && In64(base + |targets|)
    ensures SwitchTarget(v, base, targets) ==
      if x.IInt? && base <= x.i < base + |targets| then Some(targets[x.i - base]) else None
    ensures SwitchTarget(v, base, targets).Some? <==> v.tag == 2 && base <= v.data < base + |targets|
  {
  }

  /** The jump taken is the same. */
  lemma {:induction false} JumpAgrees(h: Host, d: Doubles, i: Instr, regs: seq<Value>, xs: Registers, w: World)
    requires SameDoubles(h, d) && SameRegisters(regs, xs) && Alone(i, regs, w) && Control(i)
    ensures var a, j := Execute(h, i, regs, w), Jumps(d, i, xs);
      && a.out.None? && a.w == w && j.Some?
      && a.next == match j.value case Some(l) => Goto(l) case None => Next
  {
    hide SwitchTarget, Truth, BoolOf, SameDoubles, Look, CompareOf, IntResult;
    match i
    case BranchZero(s, _) => TruthAgrees(h, d, At(regs, s), Look(xs, s), w);
    case BranchNotZero(s, _) => TruthAgrees(h, d, At(regs, s), Look(xs, s), w);
    case Switch(s, base, targets) => SwitchAgrees(At(regs, s), Look(xs, s), base, targets);
    case _ =>
  }

  // ----- a step, and a run -----

  lemma {:induction false} WrittenSame(regs: seq<Value>, xs: Registers, ys: Registers, r: Reg, v: Value, x: IValue)
    requires SameRegisters(regs, xs) && r < |regs| && Same(v, x) && forall q: Reg :: Look(ys, q) == Look(xs, q)
    ensures SameRegisters(regs[r := v], ys[r := x])
  {
    var after, ys' := regs[r := v], ys[r := x];
    forall q: Reg
      ensures Same(At(after, q), Look(ys', q))
    {
      assert Same(At(regs, q), Look(xs, q)) && Look(ys, q) == Look(xs, q);
    }
  }

  lemma {:induction false} LookedSame(d: Doubles, i: Instr, regs: seq<Value>, xs: Registers)
    requires SameRegisters(regs, xs)
    ensures SameRegisters(regs, Touched(d, i, xs)) && forall q: Reg :: Look(Touched(d, i, xs), q) == Look(xs, q)
  {
    hide Touched, Look, Same;
    var ys := Touched(d, i, xs);
    forall q: Reg
      ensures Look(ys, q) == Look(xs, q)
    {
      TouchedSame(d, i, xs, q);
    }
    forall q: Reg
      ensures Same(At(regs, q), Look(ys, q))
    {
      assert Look(ys, q) == Look(xs, q) && Same(At(regs, q), Look(xs, q));
    }
  }

  lemma {:induction false} ControlStep(h: Host, d: Doubles, f: Function, s: State, t: IState)
    requires WellFormed(f) && SameDoubles(h, d) && SameState(s, t) && s.pc < |f.code|
    requires Alone(f.code[s.pc], s.regs, s.w) && Control(f.code[s.pc])
    ensures SameOutcome(Step(h, f.code, s), IStep(d, f.code, t))
  {
    hide Execute, Jumps, Touched, SameDoubles, Alone, Same, SameRegisters, InRange, Find, LastById;
    var i := f.code[s.pc];
    JumpAgrees(h, d, i, s.regs, t.regs, s.w);
    LookedSame(d, i, s.regs, t.regs);
    var a := Execute(h, i, s.regs, s.w);
    if a.next.Goto? {
      var j := GotoIsTarget(h, i, s.regs, s.w);
      FindTarget(f.code, s.pc, j);
      LastIsTheOne(f.code, a.next.l);
      assert f.code[Find(f.code, a.next.l)] == Label(a.next.l);
    }
  }

  lemma {:induction false} ValueStep(h: Host, d: Doubles, f: Function, s: State, t: IState)
    requires WellFormed(f) && SameDoubles(h, d) && SameState(s, t) && s.pc < |f.code| && |s.regs| == Size(f)
    requires Alone(f.code[s.pc], s.regs, s.w) && Dest(f.code[s.pc]).Some?
    ensures SameOutcome(Step(h, f.code, s), IStep(d, f.code, t))
  {
    hide Execute, Computed, Touched, SameDoubles, Same, SameRegisters, UniqueLabels, TargetsExist, Find, Reads;
    var i := f.code[s.pc];
    var r := Dest(i).value;
    assert InRange(i, Size(f)) && r in Reads(i) + Writes(i);
    LookedSame(d, i, s.regs, t.regs);
    var ys := Touched(d, i, t.regs);
    if i.LoadGlobal? {
      LoadGlobalAction(h, i, s.regs, s.w);
      WrittenSame(s.regs, t.regs, ys, r, s.w.globals[i.g], t.globals[i.g]);
    } else {
      ValueAgrees(h, d, i, s.regs, t.regs, s.w);
      NotAlone(i, s.regs, s.w);
      WrittenSame(s.regs, t.regs, ys, r, Execute(h, i, s.regs, s.w).out.value, Computed(d, i, t.regs).value);
    }
  }

  lemma {:induction false} LoadGlobalAction(h: Host, i: Instr, regs: seq<Value>, w: World)
    requires i.LoadGlobal? && i.g < |w.globals|
    ensures Execute(h, i, regs, w) == Plain(w.globals[i.g], w)
  {
  }

  lemma {:induction false} NotAlone(i: Instr, regs: seq<Value>, w: World)
    requires Alone(i, regs, w)
    ensures !i.HostAct? && !i.HostMutate?
  {
  }

  /** One step of both evaluators. The results of a RETURN are the same exactly when r0 was touched before. */
  lemma {:induction false} StepAgrees(h: Host, d: Doubles, f: Function, s: State, t: IState)
    requires WellFormed(f) && SameDoubles(h, d) && SameState(s, t) && s.pc < |f.code| && |s.regs| == Size(f)
    requires Alone(f.code[s.pc], s.regs, s.w)
    ensures SameOutcome(Step(h, f.code, s), IStep(d, f.code, t))
    ensures f.code[s.pc].Return? ==>
      && Step(h, f.code, s).Returned? && IStep(d, f.code, t).IReturned?
      && (Same(Step(h, f.code, s).v, IStep(d, f.code, t).v) <==> 0 in t.regs)
  {
    hide SameDoubles, WellFormed;
    var i := f.code[s.pc];
    if Control(i) {
      hide *;
      ControlStep(h, d, f, s, t);
    } else if Dest(i).Some? {
      hide *;
      ValueStep(h, d, f, s, t);
    } else if i.StoreGlobal? {
      LookedSame(d, i, s.regs, t.regs);
      assert Same(At(s.regs, i.s), Look(t.regs, i.s));
    } else {
      assert i.Return?;
      assert Same(At(s.regs, 0), Look(t.regs, 0));
    }
  }

  lemma {:induction false} StepKeepsRegisters(h: Host, code: seq<Instr>, s: State)
    ensures Step(h, code, s).Running? ==> |Step(h, code, s).s.regs| == |s.regs|
  {
    hide Execute, Find;
  }

  /** Every step of the run so far needed no engine and was inside the body. */
  ghost predicate StaysAlone(h: Host, code: seq<Instr>, s: State, n: nat)
    decreases n
  {
    n == 0 ||
    (s.pc < |code| && Alone(code[s.pc], s.regs, s.w) &&
     (Step(h, code, s).Running? ==> StaysAlone(h, code, Step(h, code, s).s, n - 1)))
  }

  lemma {:induction false} RunAgrees(h: Host, d: Doubles, f: Function, s: State, t: IState, n: nat)
    requires WellFormed(f) && SameDoubles(h, d) && SameState(s, t) && |s.regs| == Size(f)
    requires StaysAlone(h, f.code, s, n)
    ensures SameOutcome(Run(h, f.code, Running(s), n), IRun(d, f.code, IRunning(t), n))
    decreases n
  {
    hide WellFormed, SameDoubles, Step, IStep, Alone, SameState;
    if n > 0 {
      StepAgrees(h, d, f, s, t);
      StepKeepsRegisters(h, f.code, s);
      var c, x := Step(h, f.code, s), IStep(d, f.code, t);
      if c.Running? {
        RunAgrees(h, d, f, c.s, x.s, n - 1);
      }
    }
  }

  /**
   The two evaluators on whole runs: as long as a run of the compiled function needs nothing from
   the engine, the interpreter is at the same instruction with the same registers and globals, and
   when the one returns so does the other, with the same result or, from an untouched r0, nil and 0.
   */
  lemma {:induction false} InterpreterAgrees(h: Host, d: Doubles, f: Function, args: seq<Value>, xs: seq<IValue>,
                                             w: World, globals: seq<IValue>, n: nat)
    requires WellFormed(f) && SameDoubles(h, d) && SameGlobals(w.globals, globals)
    requires |args| == |xs| == |f.params| && forall k :: 0 <= k < |args| ==> Same(args[k], xs[k])
    requires StaysAlone(h, f.code, Entry(f, args, w), n)
    ensures SameOutcome(Run(h, f.code, Running(Entry(f, args, w)), n),
                        IRun(d, f.code, IRunning(IState(0, IEntry(f, xs), globals)), n))
  {
    hide SameDoubles, Run, IRun, StaysAlone, InRange, UniqueLabels, TargetsExist;
    var s, t := Entry(f, args, w), IState(0, IEntry(f, xs), globals);
    forall r: Reg
      ensures Same(At(s.regs, r), Look(t.regs, r))
    {
    }
    RunAgrees(h, d, f, s, t, n);
  }

  /** The difference exists: a function that only returns gives nil when compiled and 0 when interpreted. */
  lemma {:induction false} UntouchedReturn(h: Host, d: Doubles, w: World, globals: seq<IValue>)
    ensures var f := Function([], 1, [Return]);
      && Run(h, f.code, Running(Entry(f, [], w)), 1) == Returned(NIL_VALUE, w)
      && IRun(d, f.code, IRunning(IState(0, IEntry(f, []), globals)), 1) == IReturned(IInt(0), globals)
  {
    var f := Function([], 1, [Return]);
    var s, t := Entry(f, [], w), IState(0, IEntry(f, []), globals);
    assert Run(h, f.code, Running(s), 1) == Run(h, f.code, Step(h, f.code, s), 0);
    assert IRun(d, f.code, IRunning(t), 1) == IRun(d, f.code, IStep(d, f.code, t), 0);
  }

  /** Both evaluators with one and the same, if simple, double arithmetic. */
  lemma {:induction false} DoublesMatch(serve: (Request, seq<Value>, World) -> Effect)
    ensures SameDoubles(
      Host(serve, (v: Value, w: World) => v.data != 0, (op: BinaryOp, x: Value, y: Value) => 0,
           (op: CompareOp, x: Value, y: Value) => false),
      Doubles((op: BinaryOp, l: IValue, r: IValue) => 0, (l: IValue, r: IValue) => 0,
              (op: CompareOp, l: IValue, r: IValue) => false, (bits: int) => bits != 0, (bits: int) => bits,
              (bits: int) => 0, (v: IValue) => if v.IFloat? then v.bits else 0))
  {
  }
}
