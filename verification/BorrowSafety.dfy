/**
 Which functions may borrow their arguments: those that cannot re-enter scripts, found by a
 scan of each body and a fixed point over the call graph.
 */
module BorrowSafety {
  import opened Ir
  import opened Machine
  import opened TypeFlow
  import opened TypeSoundness

  const ARRAY: nat := 28

  /**
   What the opcode table says: which opcodes have the effects IR_CALL or IR_SIDE_EFFECTS, and
   which opaque codes are ARRAY_GET or one of the four size and element queries.
   */
  datatype Table = Table(effectful: Instr -> bool, query: nat -> bool)

  predicate IsBuiltin(kind: int, name: string) {
    || kind == VECTOR2 || kind == VECTOR3 || kind == VECTOR4
    || ((kind == ARRAY || kind == STRING) && name in {"size", "length", "is_empty"})
  }

  function KindOf(known: seq<int>, r: Reg): int {
    if r < |known| then known[r] else -1
  }

  /** Instructions that may re-enter a script, given the proven kinds of the registers. */
  predicate Unsafe(t: Table, i: Instr, known: seq<int>) {
    match i
    case Coerce(_, _, hint) => hint == STRING || t.effectful(i)
    case Call(_, _, _) => false
    case HostOp(Construct(target), _, _) => target == STRING || t.effectful(i)
    case HostOp(Method(name), _, args) => args == [] || !IsBuiltin(KindOf(known, args[0]), name)
    case HostOp(Math(_), _, _) => false
    case HostOp(Opaque(code), _, _) => !t.query(code) && t.effectful(i)
    case Label(_) => false
    case Jump(_) => false
    case BranchZero(_, _) => false
    case BranchNotZero(_, _) => false
    case BranchCompare(_, _, _, _) => false
    case Switch(_, _, _) => false
    case Return => false
    case _ => t.effectful(i)
  }

  predicate LocallyUnsafe(t: Table, f: Function, known: seq<int>) {
    exists k :: 0 <= k < |f.code| && Unsafe(t, f.code[k], known)
  }

  /** Function j has an instruction that calls function k. */
  ghost predicate Calls(funcs: seq<Function>, j: nat, k: nat)
    requires j < |funcs|
  {
    exists i :: 0 <= i < |funcs[j].code| && funcs[j].code[i].Call? &&
      funcs[j].code[i].callee == k
  }

  ghost predicate CallPath(funcs: seq<Function>, p: seq<nat>) {
    && |p| > 0
    && (forall i :: 0 <= i < |p| ==> p[i] < |funcs|)
    && (forall i :: 0 <= i < |p| - 1 ==> Calls(funcs, p[i], p[i + 1]))
  }

  /** Some function reachable through calls, the function itself included, has an unsafe instruction. */
  ghost predicate ReachesUnsafe(t: Table, funcs: seq<Function>, kinds: seq<seq<int>>, j: nat)
    requires |kinds| == |funcs|
  {
    exists p :: CallPath(funcs, p) && p[0] == j && UnsafeAt(t, funcs, kinds, p[|p| - 1])
  }

  predicate UnsafeAt(t: Table, funcs: seq<Function>, kinds: seq<seq<int>>, j: nat)
    requires |kinds| == |funcs| && j < |funcs|
  {
    LocallyUnsafe(t, funcs[j], kinds[j])
  }

  /** The kinds are what the type analysis reports for each body. */
  ghost predicate Analysed(sigs: seq<Signature>, funcs: seq<Function>, kinds: seq<seq<int>>) {
    && |kinds| == |funcs|
    && forall j :: 0 <= j < |funcs| ==> Reports(sigs, funcs[j], kinds[j])
  }

  ghost predicate Analysable(sigs: seq<Signature>, funcs: seq<Function>) {
    forall j :: 0 <= j < |funcs| ==> WellFormed(funcs[j]) && WordSized(sigs, funcs[j])
  }

  ghost predicate CalleesExist(funcs: seq<Function>) {
    forall j, i :: 0 <= j < |funcs| && 0 <= i < |funcs[j].code| && funcs[j].code[i].Call? ==>
      funcs[j].code[i].callee < |funcs|
  }

  lemma CallerReaches(t: Table, funcs: seq<Function>, kinds: seq<seq<int>>, j: nat, k: nat)
    requires |kinds| == |funcs| && j < |funcs| && Calls(funcs, j, k) && ReachesUnsafe(t, funcs, kinds, k)
    ensures ReachesUnsafe(t, funcs, kinds, j)
  {
    hide Calls, UnsafeAt;
    var p :| CallPath(funcs, p) && p[0] == k && UnsafeAt(t, funcs, kinds, p[|p| - 1]);
    var q := [j] + p;
    forall i | 0 <= i < |q| - 1
      ensures Calls(funcs, q[i], q[i + 1])
    {
      assert i > 0 ==> q[i] == p[i - 1] && q[i + 1] == p[i];
    }
    assert CallPath(funcs, q) && q[|q| - 1] == p[|p| - 1];
  }

  /** A closed set of locally safe functions never reaches an unsafe one. */
  lemma {:induction false} ClosedIsSafe(t: Table, funcs: seq<Function>, kinds: seq<seq<int>>, safe: seq<bool>,
                                        p: seq<nat>)
    requires |safe| == |funcs| == |kinds| && CallPath(funcs, p) && safe[p[0]]
    requires forall j, k :: 0 <= j < |funcs| && 0 <= k < |funcs| && safe[j] && Calls(funcs, j, k) ==> safe[k]
    requires forall j :: 0 <= j < |funcs| && safe[j] ==> !UnsafeAt(t, funcs, kinds, j)
    ensures !UnsafeAt(t, funcs, kinds, p[|p| - 1])
    decreases |p|
  {
    hide Calls, UnsafeAt;
    if |p| > 1 {
      var q := p[1..];
      assert Calls(funcs, p[0], p[0 + 1]);
      forall i | 0 <= i < |q| - 1
        ensures Calls(funcs, q[i], q[i + 1])
      {
        assert q[i] == p[i + 1] && q[i + 1] == p[i + 2];
      }
      ClosedIsSafe(t, funcs, kinds, safe, q);
    }
  }

  method ScanBody(t: Table, f: Function, known: seq<int>) returns (safe: bool)
    ensures safe <==> !LocallyUnsafe(t, f, known)
  {
    safe := true;
    for i := 0 to |f.code|
      invariant safe <==> !exists k :: 0 <= k < i && Unsafe(t, f.code[k], known)
    {
      if Unsafe(t, f.code[i], known) {
        safe := false;
      }
    }
  }

  /** The first pass: each body is scanned with the kinds the type analysis proves for it. */
  method ScanBodies(sigs: seq<Signature>, t: Table, funcs: seq<Function>)
    returns (safe: seq<bool>, ghost kinds: seq<seq<int>>)
    requires Analysable(sigs, funcs)
    ensures |safe| == |funcs| && Analysed(sigs, funcs, kinds)
    ensures forall j :: 0 <= j < |funcs| ==> (safe[j] <==> !UnsafeAt(t, funcs, kinds, j))
  {
    hide LocallyUnsafe, ProvenBy, WellFormed, WordSized;
    safe, kinds := seq(|funcs|, _ => true), [];
    for j := 0 to |funcs|
      invariant |safe| == |funcs| && |kinds| == j
      invariant forall k :: 0 <= k < j ==> Reports(sigs, funcs[k], kinds[k])
      invariant forall k :: 0 <= k < j ==> (safe[k] <==> !LocallyUnsafe(t, funcs[k], kinds[k]))
    {
      var known := ProvenLocals(sigs, funcs[j]);
      kinds := kinds + [known];
      var ok := ScanBody(t, funcs[j], known);
      safe := safe[j := ok];
    }
  }

  /** Looks for a call from function j to a function already known to be unsafe. */
  method CallsUnsafe(funcs: seq<Function>, safe: seq<bool>, j: nat) returns (found: bool)
    requires |safe| == |funcs| && j < |funcs| && CalleesExist(funcs)
    ensures found <==> exists k :: 0 <= k < |funcs| && Calls(funcs, j, k) && !safe[k]
  {
    found := false;
    for i := 0 to |funcs[j].code|
      invariant !found
      invariant forall m :: 0 <= m < i && funcs[j].code[m].Call? ==>
        safe[funcs[j].code[m].callee]
    {
      var op := funcs[j].code[i];
      if op.Call? {
        var k := op.callee;
        if !safe[k] {
          assert Calls(funcs, j, k);
          return true;
        }
      }
    }
  }

  ghost function SafeSet(safe: seq<bool>): set<nat> {
    set j | 0 <= j < |safe| && safe[j]
  }

  /** What the call-graph loop keeps: unsafe answers are justified, safe ones are locally safe. */
  ghost predicate Justified(t: Table, funcs: seq<Function>, kinds: seq<seq<int>>, safe: seq<bool>) {
    && |safe| == |funcs| == |kinds|
    && (forall j :: 0 <= j < |funcs| && !safe[j] ==> ReachesUnsafe(t, funcs, kinds, j))
    && (forall j :: 0 <= j < |funcs| && safe[j] ==> !UnsafeAt(t, funcs, kinds, j))
  }

  ghost predicate ClosedAt(funcs: seq<Function>, safe: seq<bool>, j: nat)
    requires |safe| == |funcs| && j < |funcs|
  {
    safe[j] ==> forall k :: 0 <= k < |funcs| && Calls(funcs, j, k) ==> safe[k]
  }

  /** The fixed point terminates, and safe means: no reachable function is locally unsafe. */
  method BorrowSafe(sigs: seq<Signature>, t: Table, funcs: seq<Function>)
    returns (safe: seq<bool>, ghost kinds: seq<seq<int>>)
    requires CalleesExist(funcs) && Analysable(sigs, funcs)
    ensures |safe| == |funcs| && Analysed(sigs, funcs, kinds)
    ensures forall j :: 0 <= j < |funcs| ==> (safe[j] <==> !ReachesUnsafe(t, funcs, kinds, j))
  {
    hide Calls, UnsafeAt, ReachesUnsafe, CalleesExist, Analysable, ProvenBy;
    safe, kinds := ScanBodies(sigs, t, funcs);
    assert Justified(t, funcs, kinds, safe) by { LocalIsReachable(t, funcs, kinds); }
    var changed := true;
    while changed
      invariant Justified(t, funcs, kinds, safe)
      invariant !changed ==> forall j :: 0 <= j < |funcs| ==> ClosedAt(funcs, safe, j)
      decreases SafeSet(safe), changed
    {
      changed := false;
      ghost var was := safe;
      for j := 0 to |funcs|
        invariant Justified(t, funcs, kinds, safe)
        invariant if changed then SafeSet(safe) < SafeSet(was) else safe == was
        invariant !changed ==> forall k :: 0 <= k < j ==> ClosedAt(funcs, safe, k)
      {
        if safe[j] {
          var found := CallsUnsafe(funcs, safe, j);
          if found {
            ghost var k :| 0 <= k < |funcs| && Calls(funcs, j, k) && !safe[k];
            CallerReaches(t, funcs, kinds, j, k);
            assert j in SafeSet(safe) && SafeSet(safe[j := false]) == SafeSet(safe) - {j};
            safe := safe[j := false];
            changed := true;
          }
        }
      }
    }
    forall j | 0 <= j < |funcs| && safe[j]
      ensures !ReachesUnsafe(t, funcs, kinds, j)
    {
      SafeReachesNothing(t, funcs, kinds, safe, j);
    }
  }

  lemma LocalIsReachable(t: Table, funcs: seq<Function>, kinds: seq<seq<int>>)
    requires |kinds| == |funcs|
    ensures forall j :: 0 <= j < |funcs| && UnsafeAt(t, funcs, kinds, j) ==> ReachesUnsafe(t, funcs, kinds, j)
  {
    forall j | 0 <= j < |funcs| && UnsafeAt(t, funcs, kinds, j)
      ensures ReachesUnsafe(t, funcs, kinds, j)
    {
      assert CallPath(funcs, [j]);
    }
  }

  lemma {:induction false} SafeReachesNothing(t: Table, funcs: seq<Function>, kinds: seq<seq<int>>, safe: seq<bool>,
                                              j: nat)
    requires Justified(t, funcs, kinds, safe) && j < |funcs| && safe[j]
    requires forall k :: 0 <= k < |funcs| ==> ClosedAt(funcs, safe, k)
    ensures !ReachesUnsafe(t, funcs, kinds, j)
  {
    hide Calls, UnsafeAt;
    if ReachesUnsafe(t, funcs, kinds, j) {
      var p :| CallPath(funcs, p) && p[0] == j && UnsafeAt(t, funcs, kinds, p[|p| - 1]);
      forall i, k | 0 <= i < |funcs| && 0 <= k < |funcs| && safe[i] && Calls(funcs, i, k)
        ensures safe[k]
      {
        assert ClosedAt(funcs, safe, i);
      }
      ClosedIsSafe(t, funcs, kinds, safe, p);
    }
  }

  /**
   What a safe answer means for a run: a method call that the scan let pass has, whenever any run
   under any honest host reaches it, a receiver of the built-in type it was judged by.
   */
  lemma {:induction false} SafeReceiverIsBuiltin(sigs: seq<Signature>, t: Table, h: Host, f: Function, known: seq<int>,
                                                 args: seq<Value>, w: World, n: nat)
    requires Verified(f) && HostContract(sigs, h) && Conforms(f, args) && Tagged(w.globals)
    requires Reports(sigs, f, known) && !LocallyUnsafe(t, f, known)
    ensures var c := Run(h, f.code, Running(Entry(f, args, w)), n);
      c.Running? && c.s.pc < |f.code| && f.code[c.s.pc].HostOp? && f.code[c.s.pc].kind.Method? ==>
        var i := f.code[c.s.pc];
        i.args != [] && IsBuiltin(At(c.s.regs, i.args[0]).tag, i.kind.name)
  {
    hide ProvenBy, HostContract, Verified, Run, Entry, Conforms, Tagged, Execute;
    ProvenKindsAreSound(sigs, h, f, known, args, w, n);
    var c := Run(h, f.code, Running(Entry(f, args, w)), n);
    if c.Running? && c.s.pc < |f.code| && f.code[c.s.pc].HostOp? && f.code[c.s.pc].kind.Method? {
      var i := f.code[c.s.pc];
      assert !Unsafe(t, i, known);
      assert i.args[0] in Reads(i);
    }
  }

  // ----- the scan, opcode by opcode -----

  /** Opcodes the scan looks at first: conversions, constructions, calls, methods, and control flow. */
  predicate Singled(t: Table, i: Instr) {
    || i.Coerce? || i.Call? || i.Label? || i.Jump? || i.Return?
    || i.BranchZero? || i.BranchNotZero? || i.BranchCompare? || i.Switch?
    || (i.HostOp? && (i.kind.Construct? || i.kind.Method? || i.kind.Math?))
    || (i.HostOp? && i.kind.Opaque? && t.query(i.kind.code))
  }

  /**
   When a body may borrow, opcode by opcode: no conversion and no construction makes a String; every
   method is called on a vector, or is size, length or is_empty of an Array or String; control
   transfers, calls of the program's functions, math functions and element queries do not matter;
   and no other instruction, nor a conversion or construction, has effects in the opcode table.
   */
  lemma {:induction false} SafeExactly(t: Table, f: Function, known: seq<int>)
    ensures !LocallyUnsafe(t, f, known) <==>
      forall k :: 0 <= k < |f.code| ==>
        var i := f.code[k];
        && (i.Coerce? ==> i.hint != 4 && !t.effectful(i))
        && (i.HostOp? && i.kind.Construct? ==> i.kind.target != 4 && !t.effectful(i))
        && (i.HostOp? && i.kind.Method? ==> i.args != [] && MayBorrow(KindOf(known, i.args[0]), i.kind.name))
        && (!Singled(t, i) ==> !t.effectful(i))
  {
    forall k | 0 <= k < |f.code|
      ensures var i := f.code[k];
        !Unsafe(t, i, known) <==>
          && (i.Coerce? ==> i.hint != 4 && !t.effectful(i))
          && (i.HostOp? && i.kind.Construct? ==> i.kind.target != 4 && !t.effectful(i))
          && (i.HostOp? && i.kind.Method? ==> i.args != [] && MayBorrow(KindOf(known, i.args[0]), i.kind.name))
          && (!Singled(t, i) ==> !t.effectful(i))
    {
      SafeInstruction(t, f.code[k], known);
    }
  }

  /** The receivers the scan accepts, as type numbers. */
  predicate MayBorrow(kind: int, name: string) {
    kind == 5 || kind == 9 || kind == 12 || ((kind == 28 || kind == 4) && name in {"size", "length", "is_empty"})
  }

  lemma {:induction false} SafeInstruction(t: Table, i: Instr, known: seq<int>)
    ensures !Unsafe(t, i, known) <==>
      && (i.Coerce? ==> i.hint != 4 && !t.effectful(i))
      && (i.HostOp? && i.kind.Construct? ==> i.kind.target != 4 && !t.effectful(i))
      && (i.HostOp? && i.kind.Method? ==> i.args != [] && MayBorrow(KindOf(known, i.args[0]), i.kind.name))
      && (!Singled(t, i) ==> !t.effectful(i))
  {
  }
}
