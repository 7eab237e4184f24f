/**
 The type-set analysis is sound on every run: what a run reads from or writes to a register
 has a tag in the set the analysis reports for it.
 */
module TypeSoundness {
  import opened Options
  import opened Int64
  import opened Ir
  import opened Machine
  import opened Liveness
  import opened TypeFlow

  const TAGS: Mask := set t: nat | 0 <= t < TAG_COUNT
  const VECTORS: Mask := {VECTOR2, VECTOR3, VECTOR4}

  /** The tags a function may return as it is declared; a declared Object may be null. */
  function Declared(s: Signature): Mask {
    if s.returnSet != {} then s.returnSet
    else if 1 <= s.returnHint < 39 && s.returnHint != 24 then {s.returnHint}
    else UNKNOWN
  }

  /** What is promised of a call: what the callee is declared to return. */
  function Returns(sigs: seq<Signature>, callee: nat): Mask {
    if callee < |sigs| then Declared(sigs[callee]) else UNKNOWN
  }

  /** What is promised of a conversion or construction: the type asked for. */
  function Converted(t: int): Mask {
    if 1 <= t < 39 then {t} else UNKNOWN
  }

  /** The component names of the three vector types. */
  predicate HasComponent(tag: nat, name: string) {
    || (tag == 5 && name in {"x", "y"})
    || (tag == 9 && name in {"x", "y", "z"})
    || (tag == 12 && name in {"x", "y", "z", "w"})
  }

  /**
   What the engine promises about the tag of a result, as a function of the request and the argument
   tags. This is said apart from the sets the analysis computes.
   */
  function Promise(sigs: seq<Signature>, q: Request, args: seq<Value>): Mask {
    match q
    case Evaluate(Comparison(_)) => {BOOL}
    case Evaluate(Arithmetic(op)) =>
      if |args| == 2 && op in {Add, Sub, Mul, Div} && args[0].tag in VECTORS && args[0].tag == args[1].tag
        then {args[0].tag}
      else if |args| == 2 && op in {Mul, Div} && args[0].tag in VECTORS && Numeric(args[1]) then {args[0].tag}
      else TAGS
    case CoerceTo(t) => Converted(t)
    case Invoke(callee) => Returns(sigs, callee)
    case Perform(kind) => PerformPromise(kind, args)
    case Act(_) => if args == [] then TAGS else {args[0].tag}
    case _ => TAGS
  }

  function PerformPromise(kind: HostKind, args: seq<Value>): Mask {
    match kind
    case Make(t) => {t}
    case Construct(t) => Converted(t)
    case Method(name) =>
      if args == [] || args[0].tag !in VECTORS then TAGS
      else if name in {"length", "length_squared", "distance_to", "distance_squared_to", "dot"} then {FLOAT}
      else if name in {"normalized", "lerp"} then {args[0].tag}
      else TAGS
    case Field(name) =>
      if args != [] && HasComponent(args[0].tag, name) then {FLOAT} else TAGS
    case Math(t) => if t in {BOOL, INT, FLOAT} then {t} else TAGS
    case Opaque(_) => TAGS
  }

  ghost predicate Tagged(vs: seq<Value>) {
    forall j :: 0 <= j < |vs| ==> vs[j].tag < TAG_COUNT
  }

  ghost predicate Honest(sigs: seq<Signature>, q: Request, args: seq<Value>, e: Effect) {
    Tagged(e.w.globals) && (e.Ok? ==> e.v.tag < TAG_COUNT && e.v.tag in Promise(sigs, q, args))
  }

  ghost predicate HostContract(sigs: seq<Signature>, h: Host) {
    forall q: Request, args: seq<Value>, w: World :: Tagged(w.globals) ==> Honest(sigs, q, args, h.serve(q, args, w))
  }

  /** The argument values a caller may pass: of the declared sets. */
  ghost predicate Conforms(f: Function, args: seq<Value>) {
    && |args| == |f.params|
    && (forall j :: 0 <= j < |args| ==> args[j].tag < TAG_COUNT && (f.params[j] != {} ==> args[j].tag in f.params[j]))
  }

  lemma ArithSound(sigs: seq<Signature>, h: Host, op: BinaryOp, x: Value, y: Value, w: World, mx: Mask, my: Mask)
    requires HostContract(sigs, h) && Tagged(w.globals) && x.tag in mx && y.tag in my
    ensures var a := ArithAction(h, op, x, y, w);
            Tagged(a.w.globals) &&
              (a.out.Some? ==> a.out.value.tag < TAG_COUNT && a.out.value.tag in ArithMask(op, mx, my))
  {
    assert Honest(sigs, Evaluate(Arithmetic(op)), [x, y], h.serve(Evaluate(Arithmetic(op)), [x, y], w));
  }

  lemma GatherFirst(regs: seq<Value>, args: seq<Reg>)
    ensures |Gather(regs, args)| == |args|
    ensures args != [] ==> Gather(regs, args)[0] == At(regs, args[0])
  {
  }

  lemma HostSound(kind: HostKind, args: seq<Value>, v: Value, receiver: Mask)
    requires v.tag < TAG_COUNT && v.tag in PerformPromise(kind, args)
    requires if args == [] then receiver == UNKNOWN else args[0].tag in receiver
    ensures v.tag in HostMask(kind, receiver)
  {
    assert NIL in UNKNOWN;
    if IsVector(receiver) && args != [] {
      assert receiver == {args[0].tag};
    }
  }

  /** The instructions whose whole action is one request to the host. */
  lemma ServedSound(sigs: seq<Signature>, h: Host, i: Instr, regs: seq<Value>, w: World, state: Masks)
    requires HostContract(sigs, h) && Tagged(w.globals)
    requires i.Call? || i.HostOp? || i.HostMutate? || i.HostAct?
    requires i.HostOp? && i.args != [] ==> At(regs, i.args[0]).tag in MaskAt(state, i.args[0])
    requires i.HostAct? ==> At(regs, i.t).tag in MaskAt(state, i.t)
    ensures var a := Execute(h, i, regs, w);
            Tagged(a.w.globals) &&
              (a.out.Some? ==> a.out.value.tag < TAG_COUNT && a.out.value.tag in ResultMask(sigs, i, state))
  {
    hide Promise, PerformPromise, HostMask, ReturnMask, Tagged, Gather;
    GatherFirst(regs, i.args);
    var vs := Gather(regs, i.args);
    match i
    case Call(callee, _, _) =>
      assert Honest(sigs, Invoke(callee), vs, h.serve(Invoke(callee), vs, w));
      assert Promise(sigs, Invoke(callee), vs) == ReturnMask(sigs, callee) by { PromiseCases(sigs, vs); }
    case HostOp(kind, _, args) =>
      var e := h.serve(Perform(kind), vs, w);
      assert Honest(sigs, Perform(kind), vs, e);
      assert Promise(sigs, Perform(kind), vs) == PerformPromise(kind, vs) by { PromiseCases(sigs, vs); }
      if e.Ok? {
        HostSound(kind, vs, e.v, if args == [] then UNKNOWN else MaskAt(state, args[0]));
      }
    case HostMutate(code, t, _) =>
      assert Honest(sigs, Mutate(code), [At(regs, t)] + vs, h.serve(Mutate(code), [At(regs, t)] + vs, w));
    case HostAct(code, t, _) =>
      assert Honest(sigs, Act(code), [At(regs, t)] + vs, h.serve(Act(code), [At(regs, t)] + vs, w));
      ReceiverKeepsTag(sigs, h, i, regs, w);
  }

  /** The write the operand roles do not mention is of no concern to the types: a setter keeps its receiver's tag. */
  lemma {:induction false} ReceiverKeepsTag(sigs: seq<Signature>, h: Host, i: Instr, regs: seq<Value>, w: World)
    requires HostContract(sigs, h) && Tagged(w.globals) && i.HostAct?
    ensures var a := Execute(h, i, regs, w); a.out.Some? ==> a.out.value.tag == At(regs, i.t).tag
    ensures forall state :: ResultMask(sigs, i, state) == MaskAt(state, i.t)
  {
    hide PerformPromise, Gather;
    var vs := [At(regs, i.t)] + Gather(regs, i.args);
    assert Honest(sigs, Act(i.code), vs, h.serve(Act(i.code), vs, w));
  }

  lemma PromiseCases(sigs: seq<Signature>, args: seq<Value>)
    ensures forall callee :: Promise(sigs, Invoke(callee), args) == ReturnMask(sigs, callee)
    ensures forall kind :: Promise(sigs, Perform(kind), args) == PerformPromise(kind, args)
  {
  }

  /** The transfer function over-approximates one instruction. */
  lemma {:induction false} ResultSound(sigs: seq<Signature>, h: Host, i: Instr, regs: seq<Value>, w: World,
                                       state: Masks)
    requires HostContract(sigs, h) && Tagged(w.globals) && Tagged(regs)
    requires forall r :: r in Reads(i) ==> At(regs, r).tag in MaskAt(state, r)
    ensures var a := Execute(h, i, regs, w);
            Tagged(a.w.globals) &&
              (a.out.Some? ==> a.out.value.tag < TAG_COUNT && a.out.value.tag in ResultMask(sigs, i, state))
  {
    hide ArithAction, ArithMask, PerformPromise, HostMask, ReturnMask, IntResult, SwitchTarget, Gather;
    if i.Call? || i.HostOp? || i.HostMutate? || i.HostAct? {
      assert i.args != [] ==> i.args[0] in Reads(i);
      ServedSound(sigs, h, i, regs, w, state);
    } else if i.Coerce? || i.Unary? || i.Compare? || i.BranchCompare? {
      EvaluatedSound(sigs, h, i, regs, w, state);
    } else if i.Arith? {
      ArithSound(sigs, h, i.op, At(regs, i.a), At(regs, i.b2), w, MaskAt(state, i.a), MaskAt(state, i.b2));
    }
  }

  /** The instructions that ask the host only for some operand tags. */
  lemma EvaluatedSound(sigs: seq<Signature>, h: Host, i: Instr, regs: seq<Value>, w: World, state: Masks)
    requires HostContract(sigs, h) && Tagged(w.globals) && Tagged(regs)
    requires i.Coerce? || i.Unary? || i.Compare? || i.BranchCompare?
    requires forall r :: r in Reads(i) ==> At(regs, r).tag in MaskAt(state, r)
    ensures var a := Execute(h, i, regs, w);
            Tagged(a.w.globals) &&
              (a.out.Some? ==> a.out.value.tag < TAG_COUNT && a.out.value.tag in ResultMask(sigs, i, state))
  {
    hide PerformPromise, HostMask, ReturnMask, Gather;
    match i
    case Coerce(_, s, hint) =>
      assert Honest(sigs, CoerceTo(hint), [At(regs, s)], h.serve(CoerceTo(hint), [At(regs, s)], w));
    case Unary(op, _, s) =>
      assert Honest(sigs, Evaluate(Prefix(op)), [At(regs, s)], h.serve(Evaluate(Prefix(op)), [At(regs, s)], w));
    case Compare(op, _, a, b) =>
      var args := [At(regs, a), At(regs, b)];
      assert Honest(sigs, Evaluate(Comparison(op)), args, h.serve(Evaluate(Comparison(op)), args, w));
    case BranchCompare(op, a, b, _) =>
      var args := [At(regs, a), At(regs, b)];
      assert Honest(sigs, Evaluate(Comparison(op)), args, h.serve(Evaluate(Comparison(op)), args, w));
  }

  // ----- the invariant of a run -----

  /** The registers that are assigned here hold tags of the abstract state. r0 always counts as assigned. */
  ghost predicate Described(defined: set<Reg>, regs: seq<Value>, state: Masks) {
    forall r :: r == 0 || r in defined ==> At(regs, r).tag in MaskAt(state, r)
  }

  /**
   The solution read instruction by instruction: before[at] is a state of every run that is at
   `at`, every edge is respected, and the unions cover every instruction that can be reached.
   */
  ghost predicate Flows(sigs: seq<Signature>, f: Function, types: Masks, reached: set<nat>, before: seq<Masks>) {
    && |before| == |f.code| && |types| == Size(f)
    && (forall at :: 0 <= at < |before| ==> |before[at]| == Size(f))
    && (f.code != [] ==> |f.params| <= f.maxRegisters && 0 in reached && Leq(EntryState(f), before[0]))
    && (forall at :: at in reached && at < |f.code| ==> Covers(sigs, f.code[at], before[at], types))
    && (forall at, next :: at in reached && at < |f.code| && 0 <= next < |f.code| && Edge(f.code, at, next) ==>
          next in reached && Leq(Transfer(sigs, f.code[at], before[at]), before[next]))
  }

  ghost predicate InBlock(starts: seq<nat>, b: nat, at: nat) {
    b + 1 < |starts| && starts[b] <= at < starts[b + 1]
  }

  lemma HasBlock(code: seq<Instr>, starts: seq<nat>, at: nat) returns (b: nat)
    requires BlockStarts(code, starts) && at < |code|
    ensures InBlock(starts, b, at)
  {
    b := 0;
    while starts[b + 1] <= at
      invariant b + 1 < |starts| && starts[b] <= at
      decreases |starts| - b
    {
      b := b + 1;
    }
  }

  lemma OneBlock(code: seq<Instr>, starts: seq<nat>, b: nat, c: nat, at: nat)
    requires BlockStarts(code, starts) && InBlock(starts, b, at) && InBlock(starts, c, at)
    ensures b >= c
  {
  }

  ghost function BlockOf(code: seq<Instr>, starts: seq<nat>, at: nat): (b: nat)
    requires BlockStarts(code, starts) && at < |code|
    ensures InBlock(starts, b, at)
    ensures forall c: nat :: InBlock(starts, c, at) ==> c == b
  {
    assert exists b: nat :: InBlock(starts, b, at) by { var b := HasBlock(code, starts, at); }
    var b: nat :| InBlock(starts, b, at);
    assert forall c: nat :: InBlock(starts, c, at) ==> c == b by {
      forall c: nat | InBlock(starts, c, at)
        ensures c == b
      {
        OneBlock(code, starts, b, c, at);
        OneBlock(code, starts, c, b, at);
      }
    }
    b
  }

  ghost function Before(sigs: seq<Signature>, f: Function, starts: seq<nat>, sol: Solution, at: nat): (m: Masks)
    requires Shaped(f, starts, sol) && at < |f.code|
    ensures |m| == Size(f)
  {
    var b := BlockOf(f.code, starts, at);
    After(sigs, f.code, starts[b], at, sol.incoming[b])
  }

  lemma EdgeFlows(sigs: seq<Signature>, f: Function, starts: seq<nat>, sol: Solution, at: nat, next: nat)
    requires WellFormed(f) && Solves(sigs, f, starts, sol) && at < |f.code| && next < |f.code| && Edge(f.code, at, next)
    requires BlockOf(f.code, starts, at) in sol.reached
    ensures BlockOf(f.code, starts, next) in sol.reached
    ensures Leq(Transfer(sigs, f.code[at], Before(sigs, f, starts, sol, at)), Before(sigs, f, starts, sol, next))
  {
    hide Reads, Dest, Targets, Find, Edge, ResultMask, Transfer, Covers, CoversUpTo;
    var b := BlockOf(f.code, starts, at);
    assert Done(sigs, f, starts, sol, b);
    assert After(sigs, f.code, starts[b], at + 1, sol.incoming[b]) ==
      Transfer(sigs, f.code[at], Before(sigs, f, starts, sol, at));
    if at < Last(f.code, starts, b) {
      EdgeInsideBlock(f.code, starts, b, at, next);
      assert InBlock(starts, b, next);
    } else {
      assert at + 1 == Last(f.code, starts, b) + 1;
      var e := EdgeOutOfBlock(f.code, starts, b, next);
      assert starts[e] < starts[e + 1];
      assert InBlock(starts, e, next);
    }
  }

  /** Block boundaries cover every control transfer, so a block solution is an instruction-level one. */
  lemma {:induction false} SolutionFlows(sigs: seq<Signature>, f: Function, starts: seq<nat>, sol: Solution)
    returns (reached: set<nat>, before: seq<Masks>)
    requires WellFormed(f) && Solves(sigs, f, starts, sol)
    ensures Flows(sigs, f, sol.types, reached, before)
  {
    hide Reads, Dest, Targets, Find, Edge, ResultMask, Transfer, Covers, BlockOf, WellFormed, EntryState, EntryTypes;
    reached := set at | 0 <= at < |f.code| && BlockOf(f.code, starts, at) in sol.reached;
    before := seq(|f.code|, at requires 0 <= at < |f.code| => Before(sigs, f, starts, sol, at));
    if f.code != [] {
      assert starts[0] < starts[|starts| - 1] && starts[0] < starts[1];
      assert InBlock(starts, 0, 0);
    }
    forall at | at in reached
      ensures Covers(sigs, f.code[at], before[at], sol.types)
    {
      var b := BlockOf(f.code, starts, at);
      assert Done(sigs, f, starts, sol, b) && at < Last(f.code, starts, b) + 1;
      assert Covers(sigs, f.code[at], After(sigs, f.code, starts[b], at, sol.incoming[b]), sol.types);
    }
    forall at, next | at in reached && 0 <= next < |f.code| && Edge(f.code, at, next)
      ensures next in reached && Leq(Transfer(sigs, f.code[at], before[at]), before[next])
    {
      EdgeFlows(sigs, f, starts, sol, at, next);
    }
  }

  ghost predicate Typed(f: Function, reached: set<nat>, before: seq<Masks>, defined: seq<set<Reg>>, s: State)
    requires |before| == |f.code| && |defined| == |f.code| + 1
  {
    && |s.regs| == Size(f) && Tagged(s.regs) && Tagged(s.w.globals)
    && s.pc <= |f.code|
    && (s.pc < |f.code| ==> s.pc in reached && Described(defined[s.pc], s.regs, before[s.pc]))
  }

  /** What an instruction about to run reads, and what it will write. */
  ghost predicate Respects(h: Host, f: Function, types: Masks, s: State)
    requires s.pc < |f.code|
  {
    var i := f.code[s.pc];
    var a := Execute(h, i, s.regs, s.w);
    && (forall r :: r in Reads(i) ==> At(s.regs, r).tag in MaskAt(types, r))
    && (Target(i).Some? && a.out.Some? ==> a.out.value.tag in MaskAt(types, Target(i).value))
  }

  lemma DescribedAfter(sigs: seq<Signature>, h: Host, f: Function, defined: seq<set<Reg>>, s: State, state: Masks,
                       next: nat)
    requires WellFormed(f) && DefinedBy(f, defined) && s.pc < |f.code| && next <= |f.code| && Edge(f.code, s.pc, next)
    requires HostContract(sigs, h) && Tagged(s.regs) && Tagged(s.w.globals) && |s.regs| == Size(f) == |state|
    requires Described(defined[s.pc], s.regs, state)
    ensures var i := f.code[s.pc]; var a := Execute(h, i, s.regs, s.w);
      a.next != Abort ==>
        && Described(defined[next], Commit(i, s.regs, a), Transfer(sigs, i, state))
        && Tagged(Commit(i, s.regs, a)) && Tagged(a.w.globals)
  {
    hide Targets, Find, Edge, Execute, ResultMask, HostContract;
    var i := f.code[s.pc];
    var a := Execute(h, i, s.regs, s.w);
    assert i.Return? || Reads(i) <= defined[s.pc];
    ResultSound(sigs, h, i, s.regs, s.w, state);
    ExecuteWrites(h, i, s.regs, s.w);
    if i.HostAct? {
      ReceiverKeepsTag(sigs, h, i, s.regs, s.w);
    }
    if a.next != Abort {
      assert InRange(i, Size(f));
      assert defined[next] <= defined[s.pc] + Writes(i);
      forall r | r == 0 || r in defined[next]
        ensures At(Commit(i, s.regs, a), r).tag in MaskAt(Transfer(sigs, i, state), r)
      {
        assert r in Writes(i) ==> r in Reads(i) + Writes(i);
        CommitAt(i, s.regs, a, r);
      }
    }
  }

  lemma StepRespects(sigs: seq<Signature>, h: Host, f: Function, types: Masks, reached: set<nat>, before: seq<Masks>,
                     defined: seq<set<Reg>>, s: State)
    requires WellFormed(f) && DefinedBy(f, defined) && HostContract(sigs, h) && Flows(sigs, f, types, reached, before)
    requires Typed(f, reached, before, defined, s) && s.pc < |f.code|
    ensures Respects(h, f, types, s)
  {
    hide Targets, Find, Edge, Execute, Commit, ResultMask, HostContract;
    var i := f.code[s.pc];
    assert i.Return? || Reads(i) <= defined[s.pc];
    ResultSound(sigs, h, i, s.regs, s.w, before[s.pc]);
    assert InRange(i, Size(f));
    assert Target(i).Some? ==> Target(i).value in Reads(i) + Writes(i);
    if i.HostAct? {
      ReceiverKeepsTag(sigs, h, i, s.regs, s.w);
    }
  }

  lemma StepTyped(sigs: seq<Signature>, h: Host, f: Function, types: Masks, reached: set<nat>, before: seq<Masks>,
                  defined: seq<set<Reg>>, s: State)
    requires WellFormed(f) && DefinedBy(f, defined) && HostContract(sigs, h) && Flows(sigs, f, types, reached, before)
    requires Typed(f, reached, before, defined, s) && s.pc < |f.code|
    ensures var c := Step(h, f.code, s); c.Running? ==> Typed(f, reached, before, defined, c.s)
  {
    hide Reads, Dest, Targets, Find, Edge, Execute, Commit, ResultMask, Transfer, Covers, WellFormed, DefinedBy,
      HostContract;
    var i := f.code[s.pc];
    var c := Step(h, f.code, s);
    if c.Running? {
      StepFollowsEdge(h, f.code, s);
      DescribedAfter(sigs, h, f, defined, s, before[s.pc], c.s.pc);
      if c.s.pc < |f.code| {
        assert Leq(Transfer(sigs, i, before[s.pc]), before[c.s.pc]);
      }
    }
  }

  lemma EntryTyped(sigs: seq<Signature>, f: Function, types: Masks, reached: set<nat>, before: seq<Masks>,
                   defined: seq<set<Reg>>, args: seq<Value>, w: World)
    requires WellFormed(f) && DefinedBy(f, defined) && Flows(sigs, f, types, reached, before) && Conforms(f, args) &&
      Tagged(w.globals)
    ensures Typed(f, reached, before, defined, Entry(f, args, w))
  {
    var s := Entry(f, args, w);
    if f.code != [] {
      forall r | r == 0 || r in defined[0]
        ensures At(s.regs, r).tag in MaskAt(before[0], r)
      {
        assert EntryState(f)[r] <= before[0][r];
      }
    }
  }

  lemma {:induction false} RunTyped(sigs: seq<Signature>, h: Host, f: Function, types: Masks, reached: set<nat>,
                                    before: seq<Masks>, defined: seq<set<Reg>>, s: State, n: nat)
    requires WellFormed(f) && DefinedBy(f, defined) && HostContract(sigs, h) && Flows(sigs, f, types, reached, before)
    requires Typed(f, reached, before, defined, s)
    ensures var c := Run(h, f.code, Running(s), n); c.Running? ==> Typed(f, reached, before, defined, c.s)
    decreases n
  {
    hide Reads, Dest, Targets, Find, Edge, Execute, Commit, Flows, WellFormed, DefinedBy, HostContract;
    if n > 0 && s.pc < |f.code| {
      StepTyped(sigs, h, f, types, reached, before, defined, s);
      var c := Step(h, f.code, s);
      if c.Running? {
        RunTyped(sigs, h, f, types, reached, before, defined, c.s, n - 1);
      }
    }
  }

  /**
   Soundness of any solution of the block equations: on every run from a conforming call,
   the instruction about to execute reads and writes only tags of the solution's unions.
   */
  lemma {:induction false} TypesAreSound(sigs: seq<Signature>, h: Host, f: Function, starts: seq<nat>, sol: Solution,
                                         args: seq<Value>, w: World, n: nat)
    requires Verified(f) && HostContract(sigs, h) && Solves(sigs, f, starts, sol) && Conforms(f, args) &&
      Tagged(w.globals)
    ensures var c := Run(h, f.code, Running(Entry(f, args, w)), n);
            c.Running? && c.s.pc < |f.code| ==> Respects(h, f, sol.types, c.s)
  {
    hide Reads, Dest, Targets, Find, Edge, Execute, Step, Run, Flows, HostContract, DefinedBy, Respects, Typed, Solves;
    var defined: seq<set<Reg>> :| DefinedBy(f, defined);
    var reached, before := SolutionFlows(sigs, f, starts, sol);
    EntryTyped(sigs, f, sol.types, reached, before, defined, args, w);
    RunTyped(sigs, h, f, sol.types, reached, before, defined, Entry(f, args, w), n);
    var c := Run(h, f.code, Running(Entry(f, args, w)), n);
    if c.Running? && c.s.pc < |f.code| {
      StepRespects(sigs, h, f, sol.types, reached, before, defined, c.s);
    }
  }

  /** Every value read from or written to a register of proven kind has exactly that tag. */
  ghost predicate HasProvenTags(h: Host, f: Function, proven: seq<int>, s: State)
    requires s.pc < |f.code|
  {
    var i := f.code[s.pc];
    var a := Execute(h, i, s.regs, s.w);
    && (forall r :: r in Reads(i) && r < |proven| && proven[r] >= 0 ==> At(s.regs, r).tag == proven[r])
    && (Target(i).Some? && a.out.Some? && Target(i).value < |proven| && proven[Target(i).value] >= 0 ==>
          a.out.value.tag == proven[Target(i).value])
  }

  lemma {:induction false} ProvenKindsAreSound(sigs: seq<Signature>, h: Host, f: Function, proven: seq<int>,
                                               args: seq<Value>, w: World, n: nat)
    requires Verified(f) && HostContract(sigs, h) && Conforms(f, args) && Tagged(w.globals)
    requires Reports(sigs, f, proven)
    ensures var c := Run(h, f.code, Running(Entry(f, args, w)), n);
            c.Running? && c.s.pc < |f.code| ==> HasProvenTags(h, f, proven, c.s)
  {
    hide Reads, Dest, Targets, Find, Edge, Execute, Run, Entry, Done, Least, Verified, HostContract, BlockStarts,
      EntryState, EntryTypes;
    var starts, sol :| ProvenBy(sigs, f, starts, sol, proven);
    TypesAreSound(sigs, h, f, starts, sol, args, w, n);
    assert forall r :: 0 <= r < |proven| ==> IsKind(sol.types[r], proven[r]);
  }

  // ----- the implicit return -----

  /** Some step of the run writes r0. */
  ghost predicate WritesR0(h: Host, code: seq<Instr>, s: State, n: nat)
    decreases n
  {
    n > 0 && s.pc < |code| && Step(h, code, s).Running?
    && (Dest(code[s.pc]) == Some(0) || WritesR0(h, code, Step(h, code, s).s, n - 1))
  }

  lemma {:induction false} RunHoldsR0(sigs: seq<Signature>, h: Host, f: Function, types: Masks, reached: set<nat>,
                                      before: seq<Masks>, defined: seq<set<Reg>>, s: State, n: nat)
    requires WellFormed(f) && DefinedBy(f, defined) && HostContract(sigs, h) && Flows(sigs, f, types, reached, before)
    requires Typed(f, reached, before, defined, s)
    ensures var c := Run(h, f.code, Running(s), n);
      c.Running? ==>
        && (At(s.regs, 0).tag in types[0] || WritesR0(h, f.code, s, n) ==> At(c.s.regs, 0).tag in types[0])
        && (!WritesR0(h, f.code, s, n) ==> At(c.s.regs, 0).tag == At(s.regs, 0).tag)
    decreases n
  {
    hide Execute, Commit, Reads, Find, Flows, DefinedBy, WellFormed, HostContract;
    if n > 0 && s.pc < |f.code| && Step(h, f.code, s).Running? {
      StepTyped(sigs, h, f, types, reached, before, defined, s);
      StepRespects(sigs, h, f, types, reached, before, defined, s);
      var i := f.code[s.pc];
      CommitAt(i, s.regs, Execute(h, i, s.regs, s.w), 0);
      ExecuteWrites(h, i, s.regs, s.w);
      if i.HostAct? {
        ReceiverKeepsTag(sigs, h, i, s.regs, s.w);
      }
      RunHoldsR0(sigs, h, f, types, reached, before, defined, Step(h, f.code, s).s, n - 1);
    }
  }

  /**
   The union for r0 also covers the value returned by running off the end, exactly when r0 came
   in as a parameter, or nil is in the union anyway, or the run has assigned r0.
   */
  lemma {:induction false} RunningOffTheEnd(sigs: seq<Signature>, h: Host, f: Function, starts: seq<nat>,
                                            sol: Solution, args: seq<Value>, w: World, n: nat)
    requires Verified(f) && HostContract(sigs, h) && Solves(sigs, f, starts, sol) && Conforms(f, args) &&
      Tagged(w.globals)
    ensures var s := Entry(f, args, w);
      var c := Run(h, f.code, Running(s), n);
      c.Running? && c.s.pc == |f.code| ==>
        (At(c.s.regs, 0).tag in sol.types[0] <==> f.params != [] || NIL in sol.types[0] || WritesR0(h, f.code, s, n))
  {
    hide Reads, Dest, Targets, Find, Edge, Execute, Run, Flows, WellFormed, DefinedBy, HostContract, Typed, WritesR0;
    var defined: seq<set<Reg>> :| DefinedBy(f, defined);
    var reached, before := SolutionFlows(sigs, f, starts, sol);
    EntryTyped(sigs, f, sol.types, reached, before, defined, args, w);
    var s := Entry(f, args, w);
    RunHoldsR0(sigs, h, f, sol.types, reached, before, defined, s, n);
    assert f.params != [] ==> EntryTypes(f)[0] <= sol.types[0];
  }

  /** A run that reaches the end without writing r0 traces a path along which r0 is live. */
  lemma {:induction false} UnwrittenIsLive(h: Host, code: seq<Instr>, s: State, n: nat)
    requires TargetsExist(code) && s.pc <= |code| && !WritesR0(h, code, s, n)
    requires var c := Run(h, code, Running(s), n); c.Running? && c.s.pc == |code|
    ensures LiveIn(code, s.pc, 0)
    decreases n
  {
    hide Execute, LiveIn, Edge, Reads, Commit, Find, TargetsExist;
    if s.pc == |code| {
      LiveInEnd(code, 0);
    } else {
      var next := Step(h, code, s).s;
      StepFollowsEdge(h, code, s);
      UnwrittenIsLive(h, code, next, n - 1);
      assert LiveOut(code, s.pc, 0);
      LiveInUnfold(code, s.pc, 0);
    }
  }

  /**
   What both analyses say before the function is ever called: if r0 comes in as a parameter, or
   nil is in its union, or it is not live on entry, no run off the end escapes the union.
   */
  lemma {:induction false} RunningOffTheEndIsCovered(sigs: seq<Signature>, h: Host, f: Function, starts: seq<nat>,
                                                     sol: Solution, args: seq<Value>, w: World, n: nat)
    requires Verified(f) && HostContract(sigs, h) && Solves(sigs, f, starts, sol) && Conforms(f, args) &&
      Tagged(w.globals)
    requires f.params != [] || NIL in sol.types[0] || !LiveIn(f.code, 0, 0)
    ensures var c := Run(h, f.code, Running(Entry(f, args, w)), n);
      c.Running? && c.s.pc == |f.code| ==> At(c.s.regs, 0).tag in sol.types[0]
  {
    hide Solves, HostContract, DefinitelyAssigned, HintsGiven, Run, WritesR0, LiveIn, Conforms, Tagged, UniqueLabels,
      TargetsExist, InRange;
    var s := Entry(f, args, w);
    RunningOffTheEnd(sigs, h, f, starts, sol, args, w, n);
    var c := Run(h, f.code, Running(s), n);
    if c.Running? && c.s.pc == |f.code| && !WritesR0(h, f.code, s, n) {
      UnwrittenIsLive(h, f.code, s, n);
    }
  }

  lemma ReturnRespects(h: Host, f: Function, types: Masks, s: State)
    requires s.pc < |f.code| && Respects(h, f, types, s) && Step(h, f.code, s).Returned? && types != []
    ensures Step(h, f.code, s).v.tag in types[0]
  {
    OnlyReturnReturns(h, f.code, s);
  }

  /** A body that ends in a terminator never runs off the end, so every result of it is covered. */
  lemma {:induction false} ResultIsCovered(sigs: seq<Signature>, h: Host, f: Function, starts: seq<nat>, sol: Solution,
                                           args: seq<Value>, w: World, n: nat)
    requires Verified(f) && HostContract(sigs, h) && Solves(sigs, f, starts, sol) && Conforms(f, args) &&
      Tagged(w.globals)
    requires f.code != [] && Terminates(f.code[|f.code| - 1])
    ensures var c := Run(h, f.code, Running(Entry(f, args, w)), n); c.Returned? ==> c.v.tag in sol.types[0]
  {
    hide Reads, Dest, Targets, Find, Edge, Execute, Step, Done, HostContract, DefinedBy, BlockStarts, EntryTypes,
      EntryState;
    var s := Entry(f, args, w);
    if Run(h, f.code, Running(s), n).Returned? {
      var k, t := LastStep(h, f.code, s, n);
      StaysInside(h, f.code, s, k);
      TypesAreSound(sigs, h, f, starts, sol, args, w, k);
      ReturnRespects(h, f, sol.types, t);
    }
  }

  /** A body that can run off its end with r0 unassigned, and what the analysis says of it. */
  const ESCAPING := Function([], 2, [LoadGlobal(1, 0), BranchZero(1, 7), LoadImm(0, 5), Label(7)])
  const ESCAPING_STARTS: seq<nat> := [0, 2, 3, 4]
  const ESCAPING_KINDS: seq<int> := [2, -1]
  const ESCAPING_TYPES :=
    Solution({0, 1, 2}, [[{NIL}, {}], [{NIL}, UNKNOWN], [{NIL, INT}, UNKNOWN]], [{INT}, UNKNOWN])

  lemma EscapingLabel()
    ensures Find(ESCAPING.code, 7) == 3
  {
    assert ESCAPING.code[3] == Label(7);
  }

  lemma EscapingTargets(at: nat)
    requires at < 4
    ensures Targets(ESCAPING.code[at]) == if at == 1 then [7] else []
  {
  }

  lemma EscapingEdges(at: nat, next: nat)
    requires at < 4
    ensures Edge(ESCAPING.code, at, next) <==> next == at + 1 || (at == 1 && next == 3)
  {
    hide Find;
    EscapingLabel();
    var i := ESCAPING.code[at];
    EscapingTargets(at);
    assert at == 1 ==> Targets(i)[0] == 7;
  }

  lemma EscapingLabelsFit()
    ensures UniqueLabels(ESCAPING.code) && TargetsExist(ESCAPING.code)
  {
    hide Reads, Targets;
    var code := ESCAPING.code;
    assert forall at :: 0 <= at < 3 ==> !code[at].Label?;
    assert code[3] == Label(7);
    forall at, j | 0 <= at < 4 && 0 <= j < |Targets(code[at])|
      ensures Targets(code[at])[j] == 7
    {
      EscapingTargets(at);
    }
  }

  lemma EscapingIsVerified()
    ensures Verified(ESCAPING)
  {
    hide Find, Edge, Targets, UniqueLabels, TargetsExist, DefinitelyAssigned;
    EscapingLabelsFit();
    EscapingIsAssigned();
  }

  lemma EscapingIsAssigned()
    ensures DefinitelyAssigned(ESCAPING)
  {
    hide Find, Edge, Targets;
    var code := ESCAPING.code;
    var defined: seq<set<Reg>> := [{}, {1}, {1}, {1}, {1}];
    forall at, next | 0 <= at < 4 && 0 <= next <= 4 && Edge(code, at, next)
      ensures defined[next] <= defined[at] + Writes(code[at])
    {
      EscapingEdges(at, next);
    }
    assert DefinedBy(ESCAPING, defined);
  }

  lemma EscapingBlocks()
    ensures BlockStarts(ESCAPING.code, ESCAPING_STARTS)
    ensures Shaped(ESCAPING, ESCAPING_STARTS, ESCAPING_TYPES)
  {
    var starts := ESCAPING_STARTS;
    assert BlockStarts(ESCAPING.code, starts) by {
      hide Targets;
      assert 0 in starts && 2 in starts && 3 in starts && 1 !in starts;
      EscapingTargets(0);
      EscapingTargets(1);
    }
    hide BlockStarts;
  }

  lemma EscapingIsSolved()
    ensures Solves([], ESCAPING, ESCAPING_STARTS, ESCAPING_TYPES)
  {
    hide Find, Edge, Targets, BlockStarts, Shaped;
    var code, starts, sol := ESCAPING.code, ESCAPING_STARTS, ESCAPING_TYPES;
    EscapingBlocks();
    var a1 := After([], code, 0, 1, sol.incoming[0]);
    assert a1 == [{NIL}, UNKNOWN];
    assert After([], code, 0, 2, sol.incoming[0]) == a1;
    assert After([], code, 2, 3, sol.incoming[1]) == [{INT}, UNKNOWN];
    assert After([], code, 3, 4, sol.incoming[2]) == sol.incoming[2];
    forall b: nat | b < 3
      ensures Done([], ESCAPING, starts, sol, b)
    {
      var last := Last(code, starts, b);
      forall c: nat | BlockEdge(code, starts, b, c)
        ensures c in sol.reached && Leq(After([], code, starts[b], last + 1, sol.incoming[b]), sol.incoming[c])
      {
        EscapingEdges(last, starts[c]);
      }
    }
    assert Shaped(ESCAPING, starts, sol) && forall b :: b in sol.reached ==> Done([], ESCAPING, starts, sol, b);
  }

  /** The hand-written solution is below every other. */
  lemma EscapingIsBelow(other: Solution)
    requires Solves([], ESCAPING, ESCAPING_STARTS, other)
    ensures Within(ESCAPING_TYPES, other)
  {
    hide Find, Edge, Targets, BlockStarts;
    var code, starts := ESCAPING.code, ESCAPING_STARTS;
    assert Done([], ESCAPING, starts, other, 0);
    assert Last(code, starts, 0) == 1 && Last(code, starts, 1) == 2;
    EscapingEdges(1, 2);
    EscapingEdges(1, 3);
    EscapingEdges(2, 3);
    assert BlockEdge(code, starts, 0, 1) && BlockEdge(code, starts, 0, 2) && BlockEdge(code, starts, 1, 2);
    var in0, in1 := other.incoming[0], other.incoming[1];
    assert After([], code, 0, 1, in0) == in0[1 := UNKNOWN];
    assert After([], code, 0, 2, in0) == in0[1 := UNKNOWN];
    assert Done([], ESCAPING, starts, other, 1);
    assert After([], code, 2, 3, in1) == in1[0 := {INT}];
    assert Covers([], code[0], After([], code, 0, 0, in0), other.types);
    assert Covers([], code[2], After([], code, 2, 2, in1), other.types);
  }

  ghost predicate Increasing(s: seq<nat>) {
    forall i, j :: 0 <= i < j < |s| ==> s[i] < s[j]
  }

  ghost predicate SameElements(a: seq<nat>, b: seq<nat>) {
    forall x :: x in a <==> x in b
  }

  lemma WithoutLast(s: seq<nat>, x: nat)
    requires Increasing(s) && s != []
    ensures x in s[..|s| - 1] <==> x in s && x != s[|s| - 1]
    ensures x in s ==> x <= s[|s| - 1]
    ensures Increasing(s[..|s| - 1])
  {
    var n := |s| - 1;
    if x in s && x != s[n] {
      var i :| 0 <= i < |s| && s[i] == x;
      assert s[..n][i] == x;
    }
  }

  lemma SameEmptiness(a: seq<nat>, b: seq<nat>)
    requires SameElements(a, b)
    ensures a == [] <==> b == []
  {
    assert a != [] ==> a[0] in b;
    assert b != [] ==> b[0] in a;
  }

  lemma {:induction false} SortedSame(a: seq<nat>, b: seq<nat>)
    requires Increasing(a) && Increasing(b) && SameElements(a, b)
    ensures a == b
  {
    SameEmptiness(a, b);
    if a != [] {
      var n, m := |a| - 1, |b| - 1;
      assert a[n] in b && b[m] in a;
      hide Increasing;
      WithoutLast(a, b[m]);
      WithoutLast(b, a[n]);
      forall x: nat
        ensures x in a[..n] <==> x in b[..m]
      {
        WithoutLast(a, x);
        WithoutLast(b, x);
      }
      SortedSame(a[..n], b[..m]);
      assert a == a[..n] + [a[n]] && b == b[..m] + [b[m]];
    }
  }

  lemma OneSetOfBlocks(code: seq<Instr>, starts: seq<nat>, starts': seq<nat>)
    requires BlockStarts(code, starts) && BlockStarts(code, starts')
    ensures starts == starts'
  {
    hide StartsBlock;
    forall x
      ensures x in starts <==> x in starts'
    {
      if 0 <= x < |code| {
        assert x in starts <==> StartsBlock(code, x);
      }
    }
    SortedSame(starts, starts');
  }

  /** The report of the analysis is determined by the function. */
  lemma {:induction false} ReportsOnce(sigs: seq<Signature>, f: Function, proven: seq<int>, proven': seq<int>)
    requires Reports(sigs, f, proven) && Reports(sigs, f, proven')
    ensures proven == proven'
  {
    hide Done, BlockStarts, EntryTypes, EntryState;
    var starts, sol :| ProvenBy(sigs, f, starts, sol, proven);
    var starts', sol' :| ProvenBy(sigs, f, starts', sol', proven');
    OneSetOfBlocks(f.code, starts, starts');
    assert Within(sol, sol') && Within(sol', sol);
    forall r | 0 <= r < |proven|
      ensures proven[r] == proven'[r]
    {
      assert sol.types[r] == sol'.types[r];
      assert IsKind(sol.types[r], proven[r]) && IsKind(sol'.types[r], proven'[r]);
      assert 0 <= proven[r] ==> proven[r] in sol.types[r];
      assert 0 <= proven'[r] ==> proven'[r] in sol'.types[r];
    }
  }

  /** Whatever solution the analysis arrives at for this body, it reports INT for r0 and nothing for r1. */
  lemma EscapingKinds(starts: seq<nat>, sol: Solution, proven: seq<int>)
    requires ProvenBy([], ESCAPING, starts, sol, proven)
    ensures starts == ESCAPING_STARTS && sol.types == ESCAPING_TYPES.types && proven == ESCAPING_KINDS
  {
    hide Done, StartsBlock, EntryTypes, EntryState;
    EscapingBlocks();
    OneSetOfBlocks(ESCAPING.code, starts, ESCAPING_STARTS);
    EscapingIsSolved();
    EscapingIsBelow(sol);
    assert Within(sol, ESCAPING_TYPES) && Within(ESCAPING_TYPES, sol);
    assert sol.types[0] == {INT} && sol.types[1] == UNKNOWN;
    assert 0 in UNKNOWN && 1 in UNKNOWN;
    assert IsKind(sol.types[0], proven[0]) && IsKind(sol.types[1], proven[1]);
  }

  lemma EscapingIsProven()
    ensures ProvenBy([], ESCAPING, ESCAPING_STARTS, ESCAPING_TYPES, ESCAPING_KINDS)
  {
    hide Done, Within, BlockStarts, Shaped;
    EscapingIsSolved();
    forall other: Solution | Solves([], ESCAPING, ESCAPING_STARTS, other)
      ensures Within(ESCAPING_TYPES, other)
    {
      EscapingIsBelow(other);
    }
    assert 0 in UNKNOWN && 1 in UNKNOWN;
  }

  lemma EscapingRun(h: Host, w: World)
    requires w == World([NIL_VALUE], 0, multiset{})
    ensures Run(h, ESCAPING.code, Running(Entry(ESCAPING, [], w)), 4) == Returned(NIL_VALUE, w)
  {
    hide Find;
    EscapingLabel();
    var code := ESCAPING.code;
    var s0 := Entry(ESCAPING, [], w);
    var s1 := State(1, [NIL_VALUE, NIL_VALUE], w);
    assert s0.regs == [NIL_VALUE, NIL_VALUE];
    assert Step(h, code, s0) == Running(s1);
    assert Step(h, code, s1) == Running(s1.(pc := 3));
    assert Step(h, code, s1.(pc := 3)) == Running(s1.(pc := 4));
    assert Step(h, code, s1.(pc := 4)) == Returned(NIL_VALUE, w);
  }

  /** There the least solution, the only one the analysis can return, has {INT} for r0, yet a run returns nil. */
  lemma {:induction false} RunningOffTheEndCanEscape(h: Host)
    ensures Verified(ESCAPING) && ProvenBy([], ESCAPING, ESCAPING_STARTS, ESCAPING_TYPES, ESCAPING_KINDS)
    ensures forall starts, sol, proven :: ProvenBy([], ESCAPING, starts, sol, proven) ==>
      sol.types == ESCAPING_TYPES.types && proven == ESCAPING_KINDS
    ensures ESCAPING_TYPES.types[0] == {INT}
    ensures var w := World([NIL_VALUE], 0, multiset{});
            Run(h, ESCAPING.code, Running(Entry(ESCAPING, [], w)), 4) == Returned(NIL_VALUE, w)
  {
    hide Verified, Run, Entry, ProvenBy;
    EscapingIsVerified();
    EscapingIsProven();
    forall starts, sol, proven | ProvenBy([], ESCAPING, starts, sol, proven)
      ensures sol.types == ESCAPING_TYPES.types && proven == ESCAPING_KINDS
    {
      EscapingKinds(starts, sol, proven);
    }
    EscapingRun(h, World([NIL_VALUE], 0, multiset{}));
  }
}
