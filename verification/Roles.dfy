/**
 The operand roles and the control-flow graph say no more than what happens: every register an
 instruction is said to read can make a difference, and every edge can be taken.
 */
module Roles {
  import opened Options
  import opened Int64
  import opened Ir
  import opened Machine

  /** Tells whether v is among the arguments, and takes v for true. */
  ghost function TellingHost(v: Value): Host {
    Host(
      (q: Request, args: seq<Value>, w: World) => Ok(OfBool(v in args), w),
      (u: Value, w: World) => u == v,
      (op: BinaryOp, x: Value, y: Value) => 0,
      (op: CompareOp, x: Value, y: Value) => false)
  }

  /** What the other registers hold. */
  function Usual(i: Instr): Value {
    if i.Logic? && i.lop == And then OfBool(true) else NIL_VALUE
  }

  /** A value at which the instruction acts differently. */
  ghost function Telling(i: Instr): (v: Value)
    ensures v != Usual(i)
  {
    match i
    case TypeTest(_, _, t) => Value(if t == NIL then STRING else t, 7)
    case TypeTestMask(_, _, mask) =>
      if t: nat :| t != NIL && (t in mask) != (NIL in mask) then Value(t, 7) else Value(STRING, 7)
    case Switch(_, base, _) => OfInt(base)
    case Logic(And, _, _, _) => OfBool(false)
    case Logic(Or, _, _, _) => OfBool(true)
    case _ => Value(STRING, 7)
  }

  lemma {:induction false} GatherHas(regs: seq<Value>, args: seq<Reg>, v: Value)
    ensures v in Gather(regs, args) <==> exists k :: 0 <= k < |args| && At(regs, args[k]) == v
  {
    if args != [] {
      GatherHas(regs, args[1..], v);
      assert forall k :: 0 < k < |args| ==> args[k] == args[1..][k - 1];
      assert Gather(regs, args) == [At(regs, args[0])] + Gather(regs, args[1..]);
      if v in Gather(regs, args[1..]) {
        var k :| 0 <= k < |args[1..]| && At(regs, args[1..][k]) == v;
        assert At(regs, args[k + 1]) == v;
      }
    }
  }

  lemma {:induction false} GatherTells(x: seq<Value>, args: seq<Reg>, r: Reg, u: Value, v: Value)
    requires r in args && u != v && r < |x| && forall q :: q in args ==> q < |x| && x[q] == u
    ensures v in Gather(x[r := v], args) && v !in Gather(x, args)
  {
    var y := x[r := v];
    GatherHas(y, args, v);
    GatherHas(x, args, v);
    var k :| 0 <= k < |args| && args[k] == r;
    assert At(y, args[k]) == v;
    assert forall j :: 0 <= j < |args| ==> args[j] in args;
  }

  /** An empty table or an empty mask looks at nothing. */
  ghost predicate Looks(i: Instr) {
    && (i.Switch? ==> i.targets != [])
    && (i.TypeTestMask? ==> exists t: nat :: t != NIL && (t in i.mask) != (NIL in i.mask))
  }

  lemma {:induction false} ListMatters(i: Instr, r: Reg, x: seq<Value>, w: World)
    requires r in Reads(i) && (i.Call? || i.HostOp? || i.HostMutate? || i.HostAct?)
    requires forall q :: q in Reads(i) ==> q < |x| && x[q] == Usual(i)
    ensures var v := Telling(i); var h := TellingHost(v); Execute(h, i, x, w) != Execute(h, i, x[r := v], w)
  {
    hide Gather;
    var v := Telling(i);
    if r in i.args {
      forall q | q in i.args
        ensures q < |x| && x[q] == Usual(i)
      {
        assert q in Reads(i);
      }
      GatherTells(x, i.args, r, Usual(i), v);
    } else {
      assert forall q :: q in i.args ==> q != r && At(x, q) == At(x[r := v], q);
      GatherAgree(x, x[r := v], i.args);
      GatherHas(x, i.args, v);
      assert forall j :: 0 <= j < |i.args| ==> i.args[j] in i.args;
    }
  }

  lemma {:induction false} OperandMatters(i: Instr, r: Reg, x: seq<Value>, w: World)
    requires r in Reads(i) && Looks(i) && !i.Return? && !(i.Call? || i.HostOp? || i.HostMutate? || i.HostAct?)
    requires forall q :: q in Reads(i) ==> q < |x| && x[q] == Usual(i)
    requires i.StoreGlobal? ==> i.g < |w.globals|
    ensures var v := Telling(i); var h := TellingHost(v); Execute(h, i, x, w) != Execute(h, i, x[r := v], w)
  {
    hide IntResult;
    var v := Telling(i);
    if i.StoreGlobal? {
      assert w.globals[i.g := NIL_VALUE][i.g] != w.globals[i.g := v][i.g];
    }
  }

  /**
   The roles are exact: for every register an instruction is said to read there are two states,
   different only there, from which it acts differently, or returns a different value.
   */
  lemma {:induction false} ReadsMatter(i: Instr, r: Reg, x: seq<Value>, w: World)
    requires r in Reads(i) && Looks(i) && (i.StoreGlobal? ==> i.g < |w.globals|)
    requires forall q :: q in Reads(i) ==> q < |x| && x[q] == Usual(i)
    ensures var v := Telling(i);
      var h := TellingHost(v);
      if i.Return? then Step(h, [i], State(0, x, w)) != Step(h, [i], State(0, x[r := v], w))
      else Execute(h, i, x, w) != Execute(h, i, x[r := v], w)
  {
    if i.Return? {
      hide Telling;
      assert At(x, 0) != At(x[0 := Telling(i)], 0);
    } else if i.Call? || i.HostOp? || i.HostMutate? || i.HostAct? {
      hide *;
      ListMatters(i, r, x, w);
    } else {
      hide *;
      OperandMatters(i, r, x, w);
    }
  }

  // ----- what the engine is asked -----

  /** The operands of a request, in the order the instruction lists them, a receiver first. */
  function Operands(i: Instr): seq<Reg> {
    match i
    case Coerce(_, s, _) => [s]
    case Unary(_, _, s) => [s]
    case Arith(_, _, a, b) => [a, b]
    case Compare(_, _, a, b) => [a, b]
    case Call(_, _, args) => args
    case HostOp(_, _, args) => args
    case HostMutate(_, t, args) => [t] + args
    case HostAct(_, t, args) => [t] + args
    case _ => []
  }

  /** Gives back the argument at one position. */
  ghost function EchoHost(n: nat): Host {
    Host(
      (q: Request, args: seq<Value>, w: World) => if n < |args| then Ok(args[n], w) else Err(w),
      (u: Value, w: World) => false,
      (op: BinaryOp, x: Value, y: Value) => 0,
      (op: CompareOp, x: Value, y: Value) => false)
  }

  /** The instruction does not decide the matter itself. */
  predicate Asks(i: Instr, regs: seq<Value>) {
    match i
    case Coerce(_, s, hint) => At(regs, s).tag != hint
    case Unary(_, _, s) => At(regs, s).tag != INT
    case Arith(_, _, a, b) => !Numeric(At(regs, a)) || !Numeric(At(regs, b))
    case Compare(_, _, a, b) => !Numeric(At(regs, a)) || !Numeric(At(regs, b))
    case Call(_, _, _) => true
    case HostOp(_, _, _) => true
    case HostMutate(_, _, _) => true
    case HostAct(_, _, _) => true
    case _ => false
  }

  lemma {:induction false} GatherNth(regs: seq<Value>, args: seq<Reg>, n: nat)
    ensures |Gather(regs, args)| == |args|
    ensures n < |args| ==> Gather(regs, args)[n] == At(regs, args[n])
  {
    if args != [] {
      GatherNth(regs, args[1..], if n > 0 then n - 1 else 0);
    }
  }

  /** Requests carry their operands in order: the n-th argument is the n-th operand, and there are no others. */
  lemma {:induction false} OperandsInOrder(i: Instr, regs: seq<Value>, w: World, n: nat)
    requires Asks(i, regs)
    ensures Execute(EchoHost(n), i, regs, w) ==
      if n < |Operands(i)| then Plain(At(regs, Operands(i)[n]), w) else Action(None, w, Abort)
  {
    hide Gather, IntResult;
    if i.Call? || i.HostOp? || i.HostMutate? || i.HostAct? {
      GatherNth(regs, i.args, n);
      GatherNth(regs, i.args, if n > 0 then n - 1 else 0);
    }
  }

  // ----- edges -----

  ghost function AnsweringHost(answer: bool): Host {
    Host(
      (q: Request, args: seq<Value>, w: World) => Ok(OfBool(answer), w),
      (u: Value, w: World) => false,
      (op: BinaryOp, x: Value, y: Value) => 0,
      (op: CompareOp, x: Value, y: Value) => false)
  }

  function RegistersFor(i: Instr, v: Value): seq<Value> {
    if i.BranchZero? || i.BranchNotZero? || i.Switch? then seq(i.s + 1, _ => v) else []
  }

  function GlobalsFor(i: Instr): World {
    World(if i.LoadGlobal? || i.StoreGlobal? then seq(i.g + 1, _ => NIL_VALUE) else [], 0, multiset{})
  }

  lemma {:induction false} FallsToNext(code: seq<Instr>, at: nat)
    requires at < |code| && !Terminates(code[at]) && !code[at].Throw?
    ensures var i := code[at];
      var c := Step(AnsweringHost(false), code, State(at, RegistersFor(i, OfBool(i.BranchZero?)), GlobalsFor(i)));
      c.Running? && c.s.pc == at + 1
  {
    hide IntResult, Gather, Find;
  }

  lemma {:induction false} JumpsTo(code: seq<Instr>, at: nat, j: nat)
    requires at < |code| && j < |Targets(code[at])| && (code[at].Switch? ==> |code[at].targets| <= TWO64)
    ensures var i := code[at];
      var v := if i.Switch? then OfInt(i.base + j) else OfBool(i.BranchNotZero?);
      var c := Step(AnsweringHost(true), code, State(at, RegistersFor(i, v), GlobalsFor(i)));
      c.Running? && c.s.pc == Find(code, Targets(code[at])[j])
  {
    hide IntResult, Gather, Find;
  }

  ghost predicate Goes(h: Host, code: seq<Instr>, s: State, next: nat) {
    Step(h, code, s).Running? && Step(h, code, s).s.pc == next
  }

  /** Every edge of the graph is a step that some state takes, but for the edge past a THROW, which fails. */
  lemma {:induction false} EdgesAreTaken(code: seq<Instr>, at: nat, next: nat)
    requires at < |code| && Edge(code, at, next) && !code[at].Throw?
    requires code[at].Switch? ==> |code[at].targets| <= TWO64
    ensures exists h: Host, s: State :: s.pc == at && Goes(h, code, s, next)
  {
    hide Step, Find, Targets;
    var i := code[at];
    if !Terminates(i) && next == at + 1 {
      FallsToNext(code, at);
      assert Goes(AnsweringHost(false), code, State(at, RegistersFor(i, OfBool(i.BranchZero?)), GlobalsFor(i)), next);
    } else {
      var j :| 0 <= j < |Targets(i)| && next == Find(code, Targets(i)[j]);
      JumpsTo(code, at, j);
      var v := if i.Switch? then OfInt(i.base + j) else OfBool(i.BranchNotZero?);
      assert Goes(AnsweringHost(true), code, State(at, RegistersFor(i, v), GlobalsFor(i)), next);
    }
  }

  /** A THROW and a RETURN go nowhere; the graph has an edge past a THROW all the same, and none past a RETURN. */
  lemma {:induction false} ThrowEnds(h: Host, code: seq<Instr>, s: State)
    requires s.pc < |code| && (code[s.pc].Throw? || code[s.pc].Return?)
    ensures Step(h, code, s) == if code[s.pc].Throw? then Failed(s.w) else Returned(At(s.regs, 0), s.w)
    ensures forall next :: 0 <= next <= |code| ==> (Edge(code, s.pc, next) <==> code[s.pc].Throw? && next == s.pc + 1)
  {
    hide Find;
  }
}
