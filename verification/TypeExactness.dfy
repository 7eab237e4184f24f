/**
 The type-set analysis loses nothing it need not lose: sets of single types are transferred
 exactly, parameters start with exactly the tags a call may pass, and a register that only calls
 of one function write is reported as that function is declared.
 */
module TypeExactness {
  import opened Options
  import opened Int64
  import opened Ir
  import opened Machine
  import opened TypeFlow
  import opened TypeSoundness

  // ----- one instruction -----

  /** Answers with tag t wherever that is promised, and else fails. */
  ghost function WillingHost(sigs: seq<Signature>, t: nat): Host {
    Host(
      (q: Request, args: seq<Value>, w: World) => if t in Promise(sigs, q, args) then Ok(Value(t, 0), w) else Err(w),
      (v: Value, w: World) => true,
      (op: BinaryOp, x: Value, y: Value) => 0,
      (op: CompareOp, x: Value, y: Value) => true)
  }

  lemma {:induction false} WillingHostIsHonest(sigs: seq<Signature>, t: nat)
    requires t < TAG_COUNT
    ensures HostContract(sigs, WillingHost(sigs, t))
  {
    hide Promise;
  }

  /** Registers with the given tags and nonzero payloads, and a world all of whose globals have tag t. */
  function Samples(regs: seq<Value>): (out: seq<Value>)
    ensures |out| == |regs| && forall r :: 0 <= r < |regs| ==> out[r] == Value(regs[r].tag, 1)
  {
    seq(|regs|, r requires 0 <= r < |regs| => Value(regs[r].tag, 1))
  }

  function WorldOf(i: Instr, t: nat): World {
    World(if i.LoadGlobal? then seq(i.g + 1, _ => Value(t, 0)) else [], 0, multiset{})
  }

  /** Every operand is of one known type. */
  ghost predicate OneTypeEach(i: Instr, regs: seq<Value>, state: Masks) {
    forall r :: r in Reads(i) ==> r < |regs| && regs[r].tag < TAG_COUNT && MaskAt(state, r) == {regs[r].tag}
  }

  ghost predicate Yields(h: Host, i: Instr, regs: seq<Value>, w: World, t: nat) {
    Execute(h, i, regs, w).out.Some? && Execute(h, i, regs, w).out.value.tag == t
  }

  lemma {:induction false} ArithYields(sigs: seq<Signature>, op: BinaryOp, x: Value, y: Value, w: World, t: nat)
    requires t < TAG_COUNT && y.data == 1 && t in ArithMask(op, {x.tag}, {y.tag})
    ensures var a := ArithAction(WillingHost(sigs, t), op, x, y, w); a.out.Some? && a.out.value.tag == t
  {
    hide IntResult, Returns, PerformPromise;
    assert {x.tag} + {y.tag} <= {INT, FLOAT} ==> x.tag in {INT, FLOAT} && y.tag in {INT, FLOAT} by {
      assert x.tag in {x.tag} + {y.tag} && y.tag in {x.tag} + {y.tag};
    }
    assert x.tag in {x.tag} && y.tag in {y.tag};
  }

  lemma {:induction false} HostYields(sigs: seq<Signature>, kind: HostKind, vs: seq<Value>, w: World, t: nat)
    requires t < TAG_COUNT && t in HostMask(kind, if vs == [] then UNKNOWN else {vs[0].tag})
    ensures t in Promise(sigs, Perform(kind), vs)
  {
    assert NIL in UNKNOWN && BOOL in UNKNOWN;
    if vs != [] {
      assert vs[0].tag in {vs[0].tag};
    }
  }

  lemma {:induction false} ServedYields(sigs: seq<Signature>, i: Instr, regs: seq<Value>, state: Masks, w: World,
                                        t: nat)
    requires OneTypeEach(i, regs, state) && t < TAG_COUNT && t in ResultMask(sigs, i, state)
    requires i.Call? || i.HostOp? || i.HostMutate? || i.HostAct?
    ensures Yields(WillingHost(sigs, t), i, Samples(regs), w, t)
  {
    hide Gather, HostMask, PerformPromise, Returns, ReturnMask, Samples;
    var out := Samples(regs);
    GatherFirst(out, i.args);
    match i
    case Call(callee, _, _) => CallYields(sigs, callee);
    case HostOp(kind, _, args) =>
      assert args != [] ==> args[0] in Reads(i);
      assert t in Promise(sigs, Perform(kind), Gather(out, args)) by {
        HostYields(sigs, kind, Gather(out, args), w, t);
      }
    case HostMutate(_, _, _) =>
    case HostAct(_, r, _) => assert r in Reads(i);
  }

  lemma {:induction false} CallYields(sigs: seq<Signature>, callee: nat)
    ensures ReturnMask(sigs, callee) == Returns(sigs, callee)
  {
  }

  lemma {:induction false} PlainYields(sigs: seq<Signature>, i: Instr, regs: seq<Value>, state: Masks, t: nat)
    requires OneTypeEach(i, regs, state) && t < TAG_COUNT && t in ResultMask(sigs, i, state) && Dest(i).Some?
    requires !(i.Call? || i.HostOp? || i.HostMutate? || i.HostAct? || i.Arith?) && (i.Coerce? ==> i.hint != NIL)
    ensures Yields(WillingHost(sigs, t), i, Samples(regs), WorldOf(i, t), t)
  {
    hide Returns, PerformPromise, IntResult;
  }

  /**
   The transfer is exact on single types: each tag of the computed set is what some honest host and
   some operands of those types yield. (A COERCE without a target, of nil, is the identity.)
   */
  lemma {:induction false} ResultExact(sigs: seq<Signature>, i: Instr, regs: seq<Value>, state: Masks, t: nat)
    requires OneTypeEach(i, regs, state) && Target(i).Some? && t < TAG_COUNT && t in ResultMask(sigs, i, state)
    requires i.Coerce? ==> i.hint != NIL
    ensures HostContract(sigs, WillingHost(sigs, t)) && Tagged(WorldOf(i, t).globals)
    ensures Yields(WillingHost(sigs, t), i, Samples(regs), WorldOf(i, t), t)
  {
    hide Execute, ResultMask, WillingHost, HostContract;
    WillingHostIsHonest(sigs, t);
    if i.Call? || i.HostOp? || i.HostMutate? || i.HostAct? {
      ServedYields(sigs, i, regs, state, WorldOf(i, t), t);
    } else if i.Arith? {
      ArithInstr(sigs, i, regs, state, t);
    } else {
      PlainYields(sigs, i, regs, state, t);
    }
  }

  lemma {:induction false} ArithInstr(sigs: seq<Signature>, i: Instr, regs: seq<Value>, state: Masks, t: nat)
    requires OneTypeEach(i, regs, state) && i.Arith? && t < TAG_COUNT && t in ResultMask(sigs, i, state)
    ensures Yields(WillingHost(sigs, t), i, Samples(regs), WorldOf(i, t), t)
  {
    hide ArithAction, ArithMask, WillingHost;
    assert i.a in Reads(i) && i.b2 in Reads(i);
    ArithYields(sigs, i.op, At(Samples(regs), i.a), At(Samples(regs), i.b2), WorldOf(i, t), t);
  }

  // ----- entry -----

  /** A parameter starts with exactly the tags a conforming call can pass; without parameters r0 starts as nil. */
  lemma {:induction false} EntryExact(f: Function, args: seq<Value>, w: World, r: Reg, t: nat)
    requires WellFormed(f) && Conforms(f, args) && r < Size(f) && t < TAG_COUNT
    ensures r < |f.params| ==> (t in EntryState(f)[r] <==> Conforms(f, args[r := Value(t, 0)]))
    ensures r >= |f.params| && r > 0 ==> t !in EntryState(f)[r]
    ensures f.params == [] && r == 0 ==> (t in EntryState(f)[r] <==> t == At(Entry(f, args, w).regs, 0).tag)
    ensures t in EntryTypes(f)[r] <==> r < |f.params| && t in EntryState(f)[r]
  {
    hide UniqueLabels, TargetsExist, InRange;
  }

  // ----- a register with one kind of writer -----

  /** Every write of r gives exactly the set m, whatever the operands. */
  ghost predicate WritesOnly(sigs: seq<Signature>, code: seq<Instr>, r: Reg, m: Mask) {
    forall at, state :: 0 <= at < |code| && Dest(code[at]) == Some(r) ==> ResultMask(sigs, code[at], state) == m
  }

  /** The state cut down to real tags, and to m at r. */
  function Cut(state: Masks, r: Reg, m: Mask): (out: Masks)
    ensures |out| == |state|
    ensures forall q :: 0 <= q < |state| ==> out[q] == if q == r then state[q] * UNKNOWN * m else state[q] * UNKNOWN
  {
    seq(|state|, q requires 0 <= q < |state| => if q == r then state[q] * UNKNOWN * m else state[q] * UNKNOWN)
  }

  lemma {:induction false} CutBelow(state: Masks, r: Reg, m: Mask)
    ensures Leq(Cut(state, r, m), state) && Bounded(Cut(state, r, m)) && MaskAt(Cut(state, r, m), r) <= m
  {
  }

  lemma {:induction false} BelowCut(x: Masks, y: Masks, r: Reg, m: Mask)
    requires Leq(x, y) && Bounded(x) && MaskAt(x, r) <= m
    ensures Leq(x, Cut(y, r, m))
  {
  }

  lemma {:induction false} AfterKeepsCut(sigs: seq<Signature>, f: Function, lo: nat, hi: nat, x: Masks, r: Reg, m: Mask)
    requires hi <= |f.code| && WritesOnly(sigs, f.code, r, m) && MaskAt(x, r) <= m
    ensures MaskAt(After(sigs, f.code, lo, hi, x), r) <= m
    decreases hi
  {
    hide ResultMask, Dest;
    if lo < hi {
      AfterKeepsCut(sigs, f, lo, hi - 1, x, r, m);
      var before := After(sigs, f.code, lo, hi - 1, x);
      assert Dest(f.code[hi - 1]) == Some(r) ==> ResultMask(sigs, f.code[hi - 1], before) == m;
    }
  }

  /** Cutting a state before a stretch of code leaves a smaller, cut state after it. */
  lemma {:induction false} AfterCut(sigs: seq<Signature>, f: Function, lo: nat, hi: nat, x: Masks, r: Reg, m: Mask)
    requires hi <= |f.code| && WordSized(sigs, f) && WritesOnly(sigs, f.code, r, m)
    ensures var a, b := After(sigs, f.code, lo, hi, Cut(x, r, m)), After(sigs, f.code, lo, hi, x);
      Leq(a, b) && Leq(a, Cut(b, r, m)) && Bounded(a)
  {
    hide WordSized, WritesOnly, After, Cut;
    CutBelow(x, r, m);
    AfterMonotone(sigs, f, lo, hi, Cut(x, r, m), x);
    AfterKeepsCut(sigs, f, lo, hi, Cut(x, r, m), r, m);
    BelowCut(After(sigs, f.code, lo, hi, Cut(x, r, m)), After(sigs, f.code, lo, hi, x), r, m);
  }

  lemma {:induction false} CoversCut(sigs: seq<Signature>, f: Function, at: nat, x: Masks, y: Masks, types: Masks,
                                     r: Reg, m: Mask)
    requires at < |f.code| && WordSized(sigs, f) && WritesOnly(sigs, f.code, r, m)
    requires Covers(sigs, f.code[at], y, types) && Leq(x, y) && Leq(x, Cut(y, r, m)) && Bounded(x)
    requires |types| == |y|
    ensures Covers(sigs, f.code[at], x, Cut(types, r, m))
  {
    hide ResultMask, Dest, Reads;
    var i := f.code[at];
    MaskMonotone(sigs, i, x, y);
    MaskBounded(sigs, i, x);
    assert Dest(i) == Some(r) ==> ResultMask(sigs, i, x) == m;
  }

  function CutSolution(sol: Solution, r: Reg, m: Mask): Solution {
    Solution(sol.reached, seq(|sol.incoming|, b requires 0 <= b < |sol.incoming| => Cut(sol.incoming[b], r, m)),
             Cut(sol.types, r, m))
  }

  lemma {:induction false} DoneCut(sigs: seq<Signature>, f: Function, starts: seq<nat>, sol: Solution, r: Reg, m: Mask,
                                   b: nat)
    requires Shaped(f, starts, sol) && WordSized(sigs, f) && WritesOnly(sigs, f.code, r, m)
    requires b in sol.reached && Done(sigs, f, starts, sol, b)
    ensures b < Blocks(starts) == |CutSolution(sol, r, m).incoming|
    ensures Done(sigs, f, starts, CutSolution(sol, r, m), b)
  {
    hide WordSized, WritesOnly, Covers, Cut, BlockStarts, EntryTypes, EntryState, After, Edge;
    var x, end := sol.incoming[b], Last(f.code, starts, b) + 1;
    forall at | starts[b] <= at < end
      ensures Covers(sigs, f.code[at], After(sigs, f.code, starts[b], at, Cut(x, r, m)), Cut(sol.types, r, m))
    {
      AfterCut(sigs, f, starts[b], at, x, r, m);
      CoversCut(sigs, f, at, After(sigs, f.code, starts[b], at, Cut(x, r, m)), After(sigs, f.code, starts[b], at, x),
                sol.types, r, m);
    }
    forall c: nat | BlockEdge(f.code, starts, b, c)
      ensures c in sol.reached &&
        Leq(After(sigs, f.code, starts[b], end, Cut(x, r, m)), Cut(sol.incoming[c], r, m))
    {
      AfterCut(sigs, f, starts[b], end, x, r, m);
      CutMonotone(After(sigs, f.code, starts[b], end, x), sol.incoming[c], r, m);
      LeqTransitive(After(sigs, f.code, starts[b], end, Cut(x, r, m)),
                    Cut(After(sigs, f.code, starts[b], end, x), r, m), Cut(sol.incoming[c], r, m));
    }
  }

  lemma {:induction false} CutMonotone(x: Masks, y: Masks, r: Reg, m: Mask)
    requires Leq(x, y)
    ensures Leq(Cut(x, r, m), Cut(y, r, m))
  {
  }

  lemma {:induction false} EntryCut(sigs: seq<Signature>, f: Function, starts: seq<nat>, sol: Solution, r: Reg, m: Mask)
    requires Shaped(f, starts, sol) && WordSized(sigs, f) && |f.params| <= r && 0 < r
    ensures Shaped(f, starts, CutSolution(sol, r, m))
  {
    hide BlockStarts, Constructs, Cut;
    BelowCut(EntryTypes(f), sol.types, r, m);
    if f.code != [] {
      assert 0 < Blocks(starts);
      BelowCut(EntryState(f), sol.incoming[0], r, m);
    }
  }

  /** The least solution gives such a register no more than m. */
  lemma {:induction false} NoMoreThanWritten(sigs: seq<Signature>, f: Function, starts: seq<nat>, sol: Solution, r: Reg,
                                             m: Mask)
    requires Solves(sigs, f, starts, sol) && Least(sigs, f, starts, sol) && WordSized(sigs, f)
    requires WritesOnly(sigs, f.code, r, m) && |f.params| <= r < Size(f) && 0 < r
    ensures sol.types[r] <= m
  {
    hide WordSized, WritesOnly, Done, Shaped, BlockStarts;
    var cut := CutSolution(sol, r, m);
    EntryCut(sigs, f, starts, sol, r, m);
    assert Shaped(f, starts, sol) && Shaped(f, starts, cut);
    ShapeOf(f, starts, sol);
    forall b | b in cut.reached
      ensures b < Blocks(starts) == |cut.incoming| && Done(sigs, f, starts, cut, b)
    {
      assert Done(sigs, f, starts, sol, b);
      DoneCut(sigs, f, starts, sol, r, m, b);
    }
    assert Solves(sigs, f, starts, cut);
    assert Within(sol, cut);
    assert Cut(sol.types, r, m)[r] <= m;
  }

  lemma {:induction false} ShapeOf(f: Function, starts: seq<nat>, sol: Solution)
    requires Shaped(f, starts, sol)
    ensures |sol.types| == Size(f) && BlockStarts(f.code, starts) && |starts| > 0 && |sol.incoming| == Blocks(starts)
    ensures forall b :: b in sol.reached ==> b < Blocks(starts)
  {
    hide EntryTypes, EntryState;
  }

  lemma {:induction false} ReachedByPath(sigs: seq<Signature>, f: Function, types: Masks, reached: set<nat>,
                                         before: seq<Masks>, p: seq<nat>)
    requires Flows(sigs, f, types, reached, before) && Path(f.code, p) && p != [] && p[0] == 0
    requires p[|p| - 1] < |f.code|
    ensures p[|p| - 1] in reached
    decreases |p|
  {
    hide Covers, Transfer, Edge, EntryState;
    if |p| > 1 {
      var n := |p| - 1;
      var q := p[..n];
      assert p[n - 1] < |f.code| && Edge(f.code, p[n - 1], p[n - 1 + 1]);
      ReachedByPath(sigs, f, types, reached, before, q);
    }
  }

  /** A register that all its reachable writers give the set m is reported as kind t exactly when m is {t}. */
  lemma {:induction false} KindExactly(sigs: seq<Signature>, f: Function, kinds: seq<int>, r: Reg, m: Mask, at: nat,
                                       t: nat)
    requires WellFormed(f) && WordSized(sigs, f) && Reports(sigs, f, kinds) && |f.params| <= r < Size(f) && 0 < r
    requires WritesOnly(sigs, f.code, r, m)
    requires at < |f.code| && Reachable(f.code, at) && Dest(f.code[at]) == Some(r) && t < TAG_COUNT
    ensures |kinds| == Size(f) && (kinds[r] == t <==> m == {t})
  {
    hide WellFormed, WordSized, WritesOnly, Solves, Least, Dest, Flows, Path;
    var starts, sol :| ProvenBy(sigs, f, starts, sol, kinds);
    NoMoreThanWritten(sigs, f, starts, sol, r, m);
    var reached, before := SolutionFlows(sigs, f, starts, sol);
    var p: seq<nat> :| |p| > 0 && Path(f.code, p) && p[0] == 0 && p[|p| - 1] == at;
    ReachedByPath(sigs, f, sol.types, reached, before, p);
    WrittenIsCovered(sigs, f, sol.types, reached, before, r, m, at);
    assert IsKind(sol.types[r], kinds[r]) && sol.types[r] == m;
  }

  lemma {:induction false} WrittenIsCovered(sigs: seq<Signature>, f: Function, types: Masks, reached: set<nat>,
                                            before: seq<Masks>, r: Reg, m: Mask, at: nat)
    requires Flows(sigs, f, types, reached, before) && WritesOnly(sigs, f.code, r, m) && r < Size(f)
    requires at < |f.code| && at in reached && Dest(f.code[at]) == Some(r)
    ensures |types| == Size(f) && m <= types[r]
  {
    hide Transfer, Edge, EntryState, ResultMask, Dest, Reads;
    assert Covers(sigs, f.code[at], before[at], types);
    assert ResultMask(sigs, f.code[at], before[at]) == m;
  }

  /**
   What calls give: a register that only calls of one function write is reported as kind t exactly
   when the function is declared to return the set {t}, or has no set and the type hint t, which is
   a type other than Object. A declared Object may be null.
   */
  lemma {:induction false} CallKindExactly(sigs: seq<Signature>, f: Function, kinds: seq<int>, r: Reg, callee: nat,
                                           at: nat, t: nat)
    requires WellFormed(f) && WordSized(sigs, f) && Reports(sigs, f, kinds) && |f.params| <= r < Size(f) && 0 < r
    requires callee < |sigs| && t < 39
    requires forall k :: 0 <= k < |f.code| && Dest(f.code[k]) == Some(r) ==>
      f.code[k].Call? && f.code[k].callee == callee
    requires at < |f.code| && Reachable(f.code, at) && Dest(f.code[at]) == Some(r)
    ensures |kinds| == Size(f)
    ensures kinds[r] == t <==>
      || sigs[callee].returnSet == {t}
      || (sigs[callee].returnSet == {} && sigs[callee].returnHint == t && 1 <= t && t != 24)
  {
    hide WellFormed, WordSized, Reports, Dest, Reachable;
    KindExactly(sigs, f, kinds, r, ReturnMask(sigs, callee), at, t);
    assert 0 in UNKNOWN && 1 in UNKNOWN;
  }

  /** A function declared to return an Object may return null, and a host that lets it is honest. */
  lemma {:induction false} NullIsHonest(sigs: seq<Signature>, callee: nat, args: seq<Value>, w: World)
    requires callee < |sigs| && sigs[callee] == Signature({}, 24) && Tagged(w.globals)
    ensures Honest(sigs, Invoke(callee), args, Ok(NIL_VALUE, w))
  {
    hide Tagged;
  }
}
