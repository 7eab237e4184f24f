/**
 What a run of a function does, with the tags and failures of the emitted C. Everything
 outside the function (engine operations, callees, floating point) is a Host: a function
 of the request, the argument values and the world, about which only HostContract is assumed.
 */
module Machine {
  import opened Options
  import opened Int64
  import opened Ir

  /** Script globals, engine state, and the object references held by engine containers. */
  datatype World = World(globals: seq<Value>, engine: int, held: multiset<int>)

  datatype Evaluation = Arithmetic(op: BinaryOp) | Comparison(cop: CompareOp) | Prefix(uop: UnaryOp)

  datatype Request =
    | Evaluate(e: Evaluation)
    | CoerceTo(tag: int)
    | Invoke(callee: nat)
    | Perform(kind: HostKind)
    | Mutate(code: nat)
    | Act(code: nat)

  datatype Effect = Ok(v: Value, w: World) | Err(w: World)

  datatype Host = Host(
    serve: (Request, seq<Value>, World) -> Effect,
    truth: (Value, World) -> bool,
    float: (BinaryOp, Value, Value) -> int,
    order: (CompareOp, Value, Value) -> bool)

  datatype Control = Next | Goto(l: Name) | Finish | Abort
  datatype Action = Action(out: Option<Value>, w: World, next: Control)

  datatype State = State(pc: nat, regs: seq<Value>, w: World)
  datatype Config = Running(s: State) | Returned(v: Value, w: World) | Failed(w: World)

  function At(regs: seq<Value>, r: Reg): Value {
    if r < |regs| then regs[r] else NIL_VALUE
  }

  function Put(regs: seq<Value>, r: Reg, v: Value): (out: seq<Value>)
    ensures |out| == |regs|
  {
    if r < |regs| then regs[r := v] else regs
  }

  function Gather(regs: seq<Value>, args: seq<Reg>): seq<Value> {
    if args == [] then [] else [At(regs, args[0])] + Gather(regs, args[1..])
  }

  predicate Numeric(v: Value) {
    v.tag == INT || v.tag == FLOAT
  }

  /** The C forms of the integer operators; Div and Mod are guarded against zero by the caller. */
  function IntResult(op: BinaryOp, x: int, y: int): (r: int)
    requires (op == Div || op == Mod) ==> y != 0
  {
    match op
    case Add => Wrap(Unsigned(x) + Unsigned(y))
    case Sub => Wrap(Unsigned(x) - Unsigned(y))
    case Mul => Wrap(Unsigned(x) * Unsigned(y))
    case Div => if x == MIN && y == -1 then MIN else TruncDiv(x, y)
    case Mod => if x == MIN && y == -1 then 0 else TruncMod(x, y)
    case BitAnd => Wrap(Bitwise(op, Unsigned(x), Unsigned(y), 64))
    case BitOr => Wrap(Bitwise(op, Unsigned(x), Unsigned(y), 64))
    case BitXor => Wrap(Bitwise(op, Unsigned(x), Unsigned(y), 64))
    case Shl => Wrap(Unsigned(x) * Pow2(Masked(y)))
    case Shr => x / Pow2(Masked(y))
  }

  predicate OrderResult(cop: CompareOp, x: int, y: int) {
    match cop
    case Eq => x == y
    case Neq => x != y
    case Lt => x < y
    case Lte => x <= y
    case Gt => x > y
    case Gte => x >= y
  }

  /** gj_boolean: tags up to INT are decided inline. */
  predicate Truth(h: Host, v: Value, w: World) {
    if v.tag == NIL then false
    else if v.tag == BOOL || v.tag == INT then v.data != 0
    else h.truth(v, w)
  }

  function Plain(v: Value, w: World): Action {
    Action(Some(v), w, Next)
  }

  function Served(e: Effect): Action {
    match e
    case Ok(v, w) => Action(Some(v), w, Next)
    case Err(w) => Action(None, w, Abort)
  }

  function Branch(taken: bool, l: Name, w: World): Action {
    Action(None, w, if taken then Goto(l) else Next)
  }

  function ArithAction(h: Host, op: BinaryOp, x: Value, y: Value, w: World): Action {
    if x.tag == INT && y.tag == INT then
      if (op == Div || op == Mod) && y.data == 0 then Action(None, w, Abort)
      else Plain(OfInt(IntResult(op, x.data, y.data)), w)
    else if op in {Add, Sub, Mul, Div} && Numeric(x) && Numeric(y) then
      Plain(Value(FLOAT, h.float(op, x, y)), w)
    else Served(h.serve(Evaluate(Arithmetic(op)), [x, y], w))
  }

  function CompareAction(h: Host, cop: CompareOp, x: Value, y: Value, w: World): Action {
    if x.tag == INT && y.tag == INT then Plain(OfBool(OrderResult(cop, x.data, y.data)), w)
    else if Numeric(x) && Numeric(y) then Plain(OfBool(h.order(cop, x, y)), w)
    else Served(h.serve(Evaluate(Comparison(cop)), [x, y], w))
  }

  /** A COERCE or typed entry is the identity on a value that already has the tag. */
  function CoerceAction(h: Host, hint: int, v: Value, w: World): Action {
    if v.tag == hint then Plain(v, w) else Served(h.serve(CoerceTo(hint), [v], w))
  }

  function SwitchTarget(v: Value, base: int, targets: seq<Name>): Option<Name> {
    var j := Unsigned(v.data - base);
    if v.tag == INT && j < |targets| then Some(targets[j]) else None
  }

  function Execute(h: Host, i: Instr, regs: seq<Value>, w: World): Action {
    match i
    case LoadImm(_, n) => Plain(OfInt(n), w)
    case LoadFloatImm(_, bits) => Plain(Value(FLOAT, bits), w)
    case LoadBool(_, b) => Plain(OfBool(b), w)
    case LoadNil(_) => Plain(NIL_VALUE, w)
    case LoadGlobal(_, g) =>
      if g < |w.globals| then Plain(w.globals[g], w) else Action(None, w, Abort)
    case StoreGlobal(g, s) =>
      if g < |w.globals| then Action(None, w.(globals := w.globals[g := At(regs, s)]), Next)
      else Action(None, w, Abort)
    case Move(_, s) => Plain(At(regs, s), w)
    case Coerce(_, s, hint) => CoerceAction(h, hint, At(regs, s), w)
    case TypeOf(_, s) => Plain(OfInt(At(regs, s).tag), w)
    case TypeTest(_, s, t) =>
      Plain(OfBool(At(regs, s).tag == t && (t == OBJECT ==> Truth(h, At(regs, s), w))), w)
    case TypeTestMask(_, s, mask) => Plain(OfBool(At(regs, s).tag in mask), w)
    case Arith(op, _, a, b) => ArithAction(h, op, At(regs, a), At(regs, b), w)
    case Unary(op, _, s) =>
      var v := At(regs, s);
      if v.tag == INT then Plain(OfInt(if op == Neg then Wrap(0 - Unsigned(v.data)) else -v.data - 1), w)
      else Served(h.serve(Evaluate(Prefix(op)), [v], w))
    case Compare(op, _, a, b) => CompareAction(h, op, At(regs, a), At(regs, b), w)
    case Logic(op, _, a, b) =>
      var x, y := Truth(h, At(regs, a), w), Truth(h, At(regs, b), w);
      Plain(OfBool(if op == And then x && y else x || y), w)
    case Not(_, s) => Plain(OfBool(!Truth(h, At(regs, s), w)), w)
    case Label(_) => Action(None, w, Next)
    case Jump(l) => Action(None, w, Goto(l))
    case BranchZero(s, l) => Branch(!Truth(h, At(regs, s), w), l, w)
    case BranchNotZero(s, l) => Branch(Truth(h, At(regs, s), w), l, w)
    case BranchCompare(op, a, b, l) =>
      (match h.serve(Evaluate(Comparison(op)), [At(regs, a), At(regs, b)], w)
       case Ok(v, w') => Branch(Truth(h, v, w'), l, w')
       case Err(w') => Action(None, w', Abort))
    case Switch(s, base, targets) =>
      (match SwitchTarget(At(regs, s), base, targets)
       case Some(l) => Action(None, w, Goto(l))
       case None => Action(None, w, Next))
    case Call(callee, _, args) => Served(h.serve(Invoke(callee), Gather(regs, args), w))
    case HostOp(kind, _, args) => Served(h.serve(Perform(kind), Gather(regs, args), w))
    case HostMutate(code, t, args) => Served(h.serve(Mutate(code), [At(regs, t)] + Gather(regs, args), w))
    case HostAct(code, t, args) => Served(h.serve(Act(code), [At(regs, t)] + Gather(regs, args), w))
    case Throw => Action(None, w, Abort)
    case Return => Action(None, w, Finish)
  }

  function Commit(i: Instr, regs: seq<Value>, a: Action): (out: seq<Value>)
    ensures |out| == |regs|
  {
    if Target(i).Some? && a.out.Some? then Put(regs, Target(i).value, a.out.value) else regs
  }

  /** Running off the end returns r0, exactly as a RETURN does. */
  function Step(h: Host, code: seq<Instr>, s: State): Config {
    if s.pc >= |code| then Returned(At(s.regs, 0), s.w)
    else
      var i := code[s.pc];
      var a := Execute(h, i, s.regs, s.w);
      match a.next
      case Finish => Returned(At(s.regs, 0), a.w)
      case Abort => Failed(a.w)
      case Next => Running(State(s.pc + 1, Commit(i, s.regs, a), a.w))
      case Goto(l) => Running(State(Find(code, l), Commit(i, s.regs, a), a.w))
  }

  function Run(h: Host, code: seq<Instr>, c: Config, n: nat): Config
    decreases n
  {
    if n == 0 || !c.Running? then c else Run(h, code, Step(h, code, c.s), n - 1)
  }

  function Entry(f: Function, args: seq<Value>, w: World): State {
    State(0, seq(Size(f), r => if 0 <= r < |f.params| && r < |args| then args[r] else NIL_VALUE), w)
  }

  /** Some number of steps reaches `o`. */
  ghost predicate Ends(h: Host, code: seq<Instr>, s: State, o: Config) {
    exists n: nat :: Run(h, code, Running(s), n) == o
  }

  /** The two bodies have the same results, the same final worlds and the same failures. */
  ghost predicate SameMeaning(h: Host, code: seq<Instr>, s: State, code': seq<Instr>, s': State) {
    forall o: Config :: !o.Running? ==> (Ends(h, code, s, o) <==> Ends(h, code', s', o))
  }

  lemma GatherAgree(r1: seq<Value>, r2: seq<Value>, args: seq<Reg>)
    requires forall r :: r in args ==> At(r1, r) == At(r2, r)
    ensures Gather(r1, args) == Gather(r2, args)
  {
  }

  /** The operand roles are exact: an instruction's action depends only on the registers it reads. */
  lemma {:induction false} ExecuteAgree(h: Host, i: Instr, r1: seq<Value>, r2: seq<Value>, w: World)
    requires forall r :: r in Reads(i) ==> At(r1, r) == At(r2, r)
    ensures Execute(h, i, r1, w) == Execute(h, i, r2, w)
  {
    hide Gather, IntResult, SwitchTarget;
    if i.Call? || i.HostOp? || i.HostMutate? || i.HostAct? {
      GatherAgree(r1, r2, i.args);
    }
  }

  lemma CommitAt(i: Instr, regs: seq<Value>, a: Action, r: Reg)
    ensures At(Commit(i, regs, a), r) ==
      (if Target(i) == Some(r) && a.out.Some? && r < |regs| then a.out.value else At(regs, r))
  {
  }

  /**
   What the operand roles miss: an instruction that does not abort assigns its destination if it
   has one, and else nothing, unless it sets a member or an element; then it assigns its receiver.
   */
  lemma {:induction false} ExecuteWrites(h: Host, i: Instr, regs: seq<Value>, w: World)
    ensures Execute(h, i, regs, w).next != Abort ==>
      (Execute(h, i, regs, w).out.Some? <==> Dest(i).Some? || i.HostAct?)
  {
  }

  /** Every control transfer of a run is an edge of the control-flow graph. */
  lemma {:induction false} StepFollowsEdge(h: Host, code: seq<Instr>, s: State)
    requires s.pc < |code| && Step(h, code, s).Running?
    ensures Edge(code, s.pc, Step(h, code, s).s.pc)
    ensures TargetsExist(code) ==> Step(h, code, s).s.pc <= |code|
  {
    var i := code[s.pc];
    var a := Execute(h, i, s.regs, s.w);
    if a.next.Goto? {
      assert a.next.l in Targets(i);
      var j :| 0 <= j < |Targets(i)| && Targets(i)[j] == a.next.l;
    }
  }

  lemma RunSplit(h: Host, code: seq<Instr>, c: Config, n: nat, m: nat)
    ensures Run(h, code, c, n + m) == Run(h, code, Run(h, code, c, n), m)
    decreases n
  {
    if n != 0 && c.Running? {
      RunSplit(h, code, Step(h, code, c.s), n - 1, m);
    }
  }

  /** A run that has ended took a last step from a running state. */
  lemma LastStep(h: Host, code: seq<Instr>, s: State, n: nat) returns (k: nat, t: State)
    requires !Run(h, code, Running(s), n).Running?
    ensures k < n && Run(h, code, Running(s), k) == Running(t) && Step(h, code, t) == Run(h, code, Running(s), n)
    decreases n
  {
    var c := Step(h, code, s);
    if c.Running? {
      k, t := LastStep(h, code, c.s, n - 1);
      k := k + 1;
    } else {
      k, t := 0, s;
    }
  }

  /** Without an edge to the end, a run stays inside the code. */
  lemma {:induction false} StaysInside(h: Host, code: seq<Instr>, s: State, n: nat)
    requires s.pc < |code| && TargetsExist(code) && Terminates(code[|code| - 1])
    ensures Run(h, code, Running(s), n).Running? ==> Run(h, code, Running(s), n).s.pc < |code|
    decreases n
  {
    var c := Step(h, code, s);
    if n > 0 && c.Running? {
      StepFollowsEdge(h, code, s);
      if !(c.s.pc == s.pc + 1 && !Terminates(code[s.pc])) {
        var j :| 0 <= j < |Targets(code[s.pc])| && c.s.pc == Find(code, Targets(code[s.pc])[j]);
        FindTarget(code, s.pc, j);
      }
      StaysInside(h, code, c.s, n - 1);
    }
  }

  lemma {:induction false} OnlyReturnReturns(h: Host, code: seq<Instr>, s: State)
    requires s.pc < |code| && Step(h, code, s).Returned?
    ensures code[s.pc].Return? && Step(h, code, s).v == At(s.regs, 0)
  {
  }

  lemma FinishReadsR0(h: Host, i: Instr, regs: seq<Value>, w: World)
    requires Execute(h, i, regs, w).next.Finish?
    ensures 0 in Reads(i)
  {
  }
}
