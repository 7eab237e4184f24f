/**
 The type-set analysis behind proven_locals: a worklist over basic blocks that keeps, for
 every block entry and register, the set of Variant tags that can be there.
 */
module TypeFlow {
  import opened Int64
  import opened Ir

  type Masks = seq<Mask>

  const UNKNOWN: Mask := set t: nat | 0 <= t < 64

  /** The declared result of a callee: an explicit set, else a type hint. */
  datatype Signature = Signature(returnSet: Mask, returnHint: int)

  function ReturnMask(sigs: seq<Signature>, callee: nat): Mask {
    if callee >= |sigs| then UNKNOWN
    else if sigs[callee].returnSet != {} then sigs[callee].returnSet
    else HintMask(if sigs[callee].returnHint == OBJECT then -1 else sigs[callee].returnHint)
  }

  function HintMask(hint: int): Mask {
    if 1 <= hint < TAG_COUNT then {hint} else UNKNOWN
  }

  function MaskAt(state: Masks, r: Reg): Mask {
    if r < |state| then state[r] else {}
  }

  predicate IsVector(v: Mask) {
    v == {VECTOR2} || v == {VECTOR3} || v == {VECTOR4}
  }

  /** A component name of the vector type. */
  predicate Component(v: Mask, name: string) {
    || name == "x" || name == "y"
    || (name == "z" && v != {VECTOR2})
    || (name == "w" && v == {VECTOR4})
  }

  function MethodMask(v: Mask, name: string): Mask {
    if IsVector(v) then
      if name in {"length", "length_squared", "distance_to", "distance_squared_to", "dot"} then {FLOAT}
      else if name in {"normalized", "lerp"} then v
      else UNKNOWN
    else if v == {} then {}
    else UNKNOWN
  }

  function FieldMask(v: Mask, name: string): Mask {
    if IsVector(v) && Component(v, name) then {FLOAT}
    else if v == {} then {}
    else UNKNOWN
  }

  function HostMask(kind: HostKind, receiver: Mask): Mask {
    match kind
    case Make(t) => {t}
    case Construct(t) => HintMask(t)
    case Method(name) => MethodMask(receiver, name)
    case Field(name) => FieldMask(receiver, name)
    case Math(t) => if t in {BOOL, INT, FLOAT} then {t} else UNKNOWN
    case Opaque(_) => UNKNOWN
  }

  function ArithMask(op: BinaryOp, x: Mask, y: Mask): Mask {
    if x == {} || y == {} then {}
    else if op in {Add, Sub, Mul, Div} then
      if x + y <= {INT, FLOAT} then
        (if INT in x && INT in y then {INT} else {}) + (if FLOAT in x + y then {FLOAT} else {})
      else if x == y && IsVector(x) then x
      else if (op == Mul || op == Div) && IsVector(x) && y <= {INT, FLOAT} then x
      else UNKNOWN
    else if x == {INT} && y == {INT} then {INT}
    else UNKNOWN
  }

  /** The set computed for the destination of an instruction. */
  function ResultMask(sigs: seq<Signature>, i: Instr, state: Masks): Mask {
    match i
    case LoadImm(_, _) => {INT}
    case TypeOf(_, _) => {INT}
    case LoadFloatImm(_, _) => {FLOAT}
    case LoadBool(_, _) => {BOOL}
    case TypeTest(_, _, _) => {BOOL}
    case TypeTestMask(_, _, _) => {BOOL}
    case Compare(_, _, _, _) => {BOOL}
    case Logic(_, _, _, _) => {BOOL}
    case Not(_, _) => {BOOL}
    case LoadNil(_) => {NIL}
    case Move(_, s) => MaskAt(state, s)
    case Coerce(_, _, hint) => HintMask(hint)
    case Arith(op, _, a, b) => ArithMask(op, MaskAt(state, a), MaskAt(state, b))
    case Unary(_, _, s) =>
      var v := MaskAt(state, s);
      if v == {INT} || v == {} then v else UNKNOWN
    case Call(callee, _, _) => ReturnMask(sigs, callee)
    case HostOp(kind, _, args) => HostMask(kind, if args == [] then UNKNOWN else MaskAt(state, args[0]))
    case HostAct(_, t, _) => MaskAt(state, t)
    case _ => UNKNOWN
  }

  function Transfer(sigs: seq<Signature>, i: Instr, state: Masks): (out: Masks)
    ensures |out| == |state|
  {
    match Dest(i)
    case None => state
    case Some(d) => if d < |state| then state[d := ResultMask(sigs, i, state)] else state
  }

  /** The state before instruction `hi`, starting from `state` before `lo`. */
  function After(sigs: seq<Signature>, code: seq<Instr>, lo: nat, hi: nat, state: Masks): (out: Masks)
    requires hi <= |code|
    ensures |out| == |state|
    decreases hi
  {
    if hi <= lo then state else Transfer(sigs, code[hi - 1], After(sigs, code, lo, hi - 1, state))
  }

  function EntryTypes(f: Function): (types: Masks)
    requires |f.params| <= f.maxRegisters
    ensures |types| == Size(f)
  {
    seq(Size(f), r => if 0 <= r < |f.params| then (if f.params[r] != {} then f.params[r] else UNKNOWN) else {})
  }

  /** Without parameters r0 starts as nil: a bare RETURN may read it unassigned. */
  function EntryState(f: Function): (state: Masks)
    requires |f.params| <= f.maxRegisters
    ensures |state| == Size(f)
  {
    if f.params == [] then EntryTypes(f)[0 := {NIL}] else EntryTypes(f)
  }

  // ----- basic blocks -----

  predicate EndsBlock(i: Instr) {
    Terminates(i) || Targets(i) != []
  }

  predicate StartsBlock(code: seq<Instr>, at: nat)
    requires at < |code|
  {
    at == 0 || code[at].Label? || EndsBlock(code[at - 1])
  }

  /** The block starts in order, followed by the length of the code. */
  ghost predicate BlockStarts(code: seq<Instr>, starts: seq<nat>) {
    && |starts| > 0
    && starts[|starts| - 1] == |code|
    && starts[0] == 0
    && (forall b, c :: 0 <= b < c < |starts| ==> starts[b] < starts[c] <= |code|)
    && (forall at :: 0 <= at < |code| ==> (StartsBlock(code, at) <==> at in starts))
  }

  function Blocks(starts: seq<nat>): nat
    requires |starts| > 0
  {
    |starts| - 1
  }

  /** Position of the last instruction of a block. */
  function Last(code: seq<Instr>, starts: seq<nat>, b: nat): (at: nat)
    requires BlockStarts(code, starts) && b < Blocks(starts)
    ensures starts[b] <= at < |code| && at + 1 == starts[b + 1]
  {
    assert starts[b] < starts[b + 1];
    starts[b + 1] - 1
  }

  ghost predicate BlockEdge(code: seq<Instr>, starts: seq<nat>, b: nat, c: nat)
    requires BlockStarts(code, starts) && b < Blocks(starts)
  {
    c < Blocks(starts) && Edge(code, Last(code, starts, b), starts[c])
  }

  lemma InsideIsNoStart(code: seq<Instr>, starts: seq<nat>, b: nat, at: nat)
    requires BlockStarts(code, starts) && b < Blocks(starts) && starts[b] < at < starts[b + 1]
    ensures at !in starts
  {
    forall c | 0 <= c < |starts|
      ensures starts[c] != at
    {
      assert c < b ==> starts[c] < starts[b];
      assert b + 1 < c ==> starts[b + 1] < starts[c];
    }
  }

  /** A run that does not leave its block goes to the next instruction of the block. */
  lemma EdgeInsideBlock(code: seq<Instr>, starts: seq<nat>, b: nat, at: nat, next: nat)
    requires BlockStarts(code, starts) && b < Blocks(starts)
    requires starts[b] <= at < Last(code, starts, b)
    requires Edge(code, at, next)
    ensures next == at + 1
  {
    InsideIsNoStart(code, starts, b, at + 1);
    assert !StartsBlock(code, at + 1);
  }

  /** A transfer out of a block lands on a block start, or past the end. */
  lemma {:induction false} EdgeOutOfBlock(code: seq<Instr>, starts: seq<nat>, b: nat, next: nat) returns (c: nat)
    requires BlockStarts(code, starts) && b < Blocks(starts) && TargetsExist(code)
    requires Edge(code, Last(code, starts, b), next) && next < |code|
    ensures c < Blocks(starts) && starts[c] == next && BlockEdge(code, starts, b, c)
  {
    hide Reads, Dest, Targets;
    var at := Last(code, starts, b);
    if next == at + 1 {
      c := b + 1;
    } else {
      assert StartsBlock(code, next);
      c :| 0 <= c < |starts| && starts[c] == next;
    }
  }

  // ----- the equations -----

  datatype Solution = Solution(reached: set<nat>, incoming: seq<Masks>, types: Masks)

  ghost predicate Leq(x: Masks, y: Masks) {
    |x| == |y| && forall r :: 0 <= r < |x| ==> x[r] <= y[r]
  }

  /** `types` holds everything instruction i reads or writes in `state`. */
  ghost predicate Covers(sigs: seq<Signature>, i: Instr, state: Masks, types: Masks) {
    && (forall r :: r in Reads(i) ==> MaskAt(state, r) <= MaskAt(types, r))
    && (Dest(i).Some? && Dest(i).value < |types| ==> ResultMask(sigs, i, state) <= types[Dest(i).value])
  }

  ghost predicate CoversUpTo(sigs: seq<Signature>, code: seq<Instr>, lo: nat, hi: nat, state: Masks, types: Masks)
    requires hi <= |code|
  {
    forall at :: lo <= at < hi ==> Covers(sigs, code[at], After(sigs, code, lo, at, state), types)
  }

  /** Block b already flows into its successors and into the per-register union. */
  ghost predicate Done(sigs: seq<Signature>, f: Function, starts: seq<nat>, sol: Solution, b: nat)
    requires BlockStarts(f.code, starts) && b < Blocks(starts) == |sol.incoming|
  {
    var end := Last(f.code, starts, b) + 1;
    && CoversUpTo(sigs, f.code, starts[b], end, sol.incoming[b], sol.types)
    && (forall c: nat :: BlockEdge(f.code, starts, b, c) ==>
          c in sol.reached && Leq(After(sigs, f.code, starts[b], end, sol.incoming[b]), sol.incoming[c]))
  }

  ghost predicate Shaped(f: Function, starts: seq<nat>, sol: Solution) {
    && BlockStarts(f.code, starts)
    && |f.params| <= f.maxRegisters
    && |sol.incoming| == Blocks(starts)
    && |sol.types| == Size(f)
    && (forall b :: 0 <= b < |sol.incoming| ==> |sol.incoming[b]| == Size(f))
    && (forall b :: b in sol.reached ==> b < Blocks(starts))
    && Leq(EntryTypes(f), sol.types)
    && (f.code != [] ==> 0 in sol.reached && Leq(EntryState(f), sol.incoming[0]))
  }

  ghost predicate Solves(sigs: seq<Signature>, f: Function, starts: seq<nat>, sol: Solution) {
    Shaped(f, starts, sol) && forall b :: b in sol.reached ==> Done(sigs, f, starts, sol, b)
  }

  /** sol is componentwise below other, on the blocks it has reached. */
  ghost predicate Within(sol: Solution, other: Solution) {
    && sol.reached <= other.reached
    && |sol.incoming| == |other.incoming|
    && (forall b :: b in sol.reached && b < |sol.incoming| ==> Leq(sol.incoming[b], other.incoming[b]))
    && Leq(sol.types, other.types)
  }

  lemma LeqTransitive(x: Masks, y: Masks, z: Masks)
    requires Leq(x, y) && Leq(y, z)
    ensures Leq(x, z)
  {
  }

  /** Every declared set is a 64-bit word and every constructed tag a Variant type. */
  ghost predicate WordSized(sigs: seq<Signature>, f: Function) {
    && SetsFit(sigs)
    && (forall j :: 0 <= j < |f.params| ==> f.params[j] <= UNKNOWN)
    && (forall at :: 0 <= at < |f.code| ==> Constructs(f.code[at]))
  }

  predicate Constructs(i: Instr) {
    i.HostOp? && i.kind.Make? ==> i.kind.made < TAG_COUNT
  }

  ghost predicate Bounded(state: Masks) {
    forall r :: 0 <= r < |state| ==> state[r] <= UNKNOWN
  }

  ghost predicate SetsFit(sigs: seq<Signature>) {
    forall c :: 0 <= c < |sigs| ==> sigs[c].returnSet <= UNKNOWN
  }

  lemma MaskBounded(sigs: seq<Signature>, i: Instr, state: Masks)
    requires SetsFit(sigs) && Constructs(i) && Bounded(state)
    ensures ResultMask(sigs, i, state) <= UNKNOWN
  {
  }

  lemma ArithMonotone(op: BinaryOp, x: Mask, y: Mask, x': Mask, y': Mask)
    requires x <= x' && y <= y' && x <= UNKNOWN && y <= UNKNOWN
    ensures ArithMask(op, x, y) <= ArithMask(op, x', y')
  {
  }

  lemma HostMonotone(kind: HostKind, v: Mask, v': Mask)
    requires v <= v' && v <= UNKNOWN
    ensures HostMask(kind, v) <= HostMask(kind, v')
  {
  }

  lemma {:induction false} MaskMonotone(sigs: seq<Signature>, i: Instr, x: Masks, y: Masks)
    requires Leq(x, y) && Bounded(x) && SetsFit(sigs) && Constructs(i)
    ensures ResultMask(sigs, i, x) <= ResultMask(sigs, i, y)
  {
    match i
    case Arith(op, _, a, b) => ArithMonotone(op, MaskAt(x, a), MaskAt(x, b), MaskAt(y, a), MaskAt(y, b));
    case HostOp(kind, _, args) =>
      if args != [] {
        HostMonotone(kind, MaskAt(x, args[0]), MaskAt(y, args[0]));
      }
    case _ =>
  }

  lemma TransferMonotone(sigs: seq<Signature>, i: Instr, x: Masks, y: Masks)
    requires Leq(x, y) && Bounded(x) && SetsFit(sigs) && Constructs(i)
    ensures Leq(Transfer(sigs, i, x), Transfer(sigs, i, y)) && Bounded(Transfer(sigs, i, x))
  {
    MaskMonotone(sigs, i, x, y);
    MaskBounded(sigs, i, x);
  }

  /** The flow through a stretch of code is monotone and stays within 64 bits. */
  lemma {:induction false} AfterMonotone(sigs: seq<Signature>, f: Function, lo: nat, hi: nat, x: Masks, y: Masks)
    requires hi <= |f.code| && Leq(x, y) && Bounded(x) && WordSized(sigs, f)
    ensures Leq(After(sigs, f.code, lo, hi, x), After(sigs, f.code, lo, hi, y))
    ensures Bounded(After(sigs, f.code, lo, hi, x))
    decreases hi
  {
    if lo < hi {
      AfterMonotone(sigs, f, lo, hi - 1, x, y);
      TransferMonotone(sigs, f.code[hi - 1], After(sigs, f.code, lo, hi - 1, x), After(sigs, f.code, lo, hi - 1, y));
    }
  }

  // ----- the worklist -----

  function Union(x: Masks, y: Masks): (z: Masks)
    requires |x| == |y|
    ensures |z| == |x|
  {
    seq(|x|, r requires 0 <= r < |x| => x[r] + y[r])
  }

  lemma UnionAbove(x: Masks, y: Masks)
    requires |x| == |y|
    ensures Leq(x, Union(x, y)) && Leq(y, Union(x, y))
  {
  }

  ghost function Merged(incoming: seq<Masks>, edges: set<nat>, out: Masks): (m: seq<Masks>)
    requires forall b :: 0 <= b < |incoming| ==> |incoming[b]| == |out|
    ensures |m| == |incoming|
    ensures forall b :: 0 <= b < |m| ==> m[b] == if b in edges then Union(incoming[b], out) else incoming[b]
  {
    seq(|incoming|, b requires 0 <= b < |incoming| => if b in edges then Union(incoming[b], out) else incoming[b])
  }

  ghost predicate Bottom(state: Masks) {
    forall r :: 0 <= r < |state| ==> state[r] == {}
  }

  ghost predicate WellSized(sol: Solution) {
    && (forall b :: 0 <= b < |sol.incoming| ==> Bounded(sol.incoming[b]))
    && (forall b :: 0 <= b < |sol.incoming| && b !in sol.reached ==> Bottom(sol.incoming[b]))
    && Bounded(sol.types)
  }

  ghost predicate Least(sigs: seq<Signature>, f: Function, starts: seq<nat>, sol: Solution) {
    forall other: Solution :: Solves(sigs, f, starts, other) ==> Within(sol, other)
  }

  /** Reached blocks that are not queued already flow into everything they must flow into. */
  ghost predicate Working(sigs: seq<Signature>, f: Function, starts: seq<nat>, sol: Solution, queued: set<nat>) {
    && Shaped(f, starts, sol)
    && WellSized(sol)
    && queued <= sol.reached
    && (forall b :: b in sol.reached - queued ==> Done(sigs, f, starts, sol, b))
    && Least(sigs, f, starts, sol)
  }

  ghost function Facts(incoming: seq<Masks>): set<(nat, Reg, nat)> {
    set b, r, t | 0 <= b < |incoming| && 0 <= r < |incoming[b]| && t in incoming[b][r] :: (b, r, t)
  }

  ghost function Universe(blocks: nat, size: nat): set<(nat, Reg, nat)> {
    set b, r, t | 0 <= b < blocks && 0 <= r < size && 0 <= t < 64 :: (b, r, t)
  }

  /** The starts among the first j instructions. */
  ghost predicate StartsUpTo(code: seq<Instr>, starts: seq<nat>, j: nat)
    requires j <= |code|
  {
    && (forall b :: 0 <= b < |starts| ==> starts[b] < j)
    && (forall b, c :: 0 <= b < c < |starts| ==> starts[b] < starts[c])
    && (forall at :: 0 <= at < j ==> (StartsBlock(code, at) <==> at in starts))
    && (j > 0 ==> starts != [] && starts[0] == 0)
  }

  lemma StartsNext(code: seq<Instr>, starts: seq<nat>, j: nat)
    requires j < |code| && StartsUpTo(code, starts, j)
    ensures StartsUpTo(code, if StartsBlock(code, j) then starts + [j] else starts, j + 1)
  {
    hide EndsBlock;
    var next := if StartsBlock(code, j) then starts + [j] else starts;
    forall at | 0 <= at <= j
      ensures StartsBlock(code, at) <==> at in next
    {
      assert at < j ==> (at in next <==> at in starts);
    }
  }

  lemma StartsAll(code: seq<Instr>, starts: seq<nat>)
    requires StartsUpTo(code, starts, |code|)
    ensures BlockStarts(code, starts + [|code|])
  {
    hide EndsBlock;
    var all := starts + [|code|];
    forall at | 0 <= at < |code|
      ensures StartsBlock(code, at) <==> at in all
    {
      assert at in all <==> at in starts;
    }
  }

  method FindBlocks(code: seq<Instr>) returns (starts: seq<nat>, labels: map<Name, nat>)
    requires UniqueLabels(code)
    ensures BlockStarts(code, starts)
    ensures LabelBlocks(code, starts, labels)
  {
    hide Reads, Dest, Find, BlockStarts, StartsUpTo;
    starts, labels := [], map[];
    var start := true;
    assert StartsUpTo(code, starts, 0) by { NoStarts(code); }
    for j := 0 to |code|
      invariant start <==> (j == 0 || EndsBlock(code[j - 1]))
      invariant StartsUpTo(code, starts, j)
      invariant forall l :: l in labels <==> Label(l) in code[..j]
      invariant forall l :: l in labels ==> labels[l] < |starts| && starts[labels[l]] == Find(code, l)
    {
      var i := code[j];
      StartsNext(code, starts, j);
      if start || i.Label? {
        starts := starts + [j];
      }
      start := Terminates(i);
      if i.Label? {
        labels := labels[i.l := |starts| - 1];
      } else if Targets(i) != [] {
        start := true;
      }
    }
    assert code[..|code|] == code;
    StartsAll(code, starts);
    starts := starts + [|code|];
  }

  lemma NoStarts(code: seq<Instr>)
    ensures StartsUpTo(code, [], 0)
  {
  }

  /** The per-register union after instruction i has been visited in `state`. */
  function Extend(sigs: seq<Signature>, i: Instr, state: Masks, types: Masks): (out: Masks)
    requires |state| == |types|
    ensures |out| == |types|
  {
    var read := seq(|types|, r requires 0 <= r < |types| => if r in Reads(i) then types[r] + state[r] else types[r]);
    if Dest(i).Some? && Dest(i).value < |types| then
      read[Dest(i).value := read[Dest(i).value] + ResultMask(sigs, i, state)]
    else read
  }

  lemma ExtendCovers(sigs: seq<Signature>, i: Instr, state: Masks, types: Masks)
    requires |state| == |types|
    ensures Leq(types, Extend(sigs, i, state, types)) && Covers(sigs, i, state, Extend(sigs, i, state, types))
    ensures Bounded(types) && Bounded(state) && SetsFit(sigs) && Constructs(i) ==>
      Bounded(Extend(sigs, i, state, types))
  {
    hide Reads, Dest, ResultMask;
    if Bounded(state) && SetsFit(sigs) && Constructs(i) {
      MaskBounded(sigs, i, state);
    }
  }

  lemma ExtendIsLeast(sigs: seq<Signature>, i: Instr, state: Masks, types: Masks, other: Masks)
    requires |state| == |types| && Leq(types, other) && Covers(sigs, i, state, other)
    ensures Leq(Extend(sigs, i, state, types), other)
  {
  }

  lemma CoversMonotone(sigs: seq<Signature>, i: Instr, state: Masks, types: Masks, types': Masks)
    requires Covers(sigs, i, state, types) && Leq(types, types')
    ensures Covers(sigs, i, state, types')
  {
  }

  lemma CoversUpToMonotone(sigs: seq<Signature>, code: seq<Instr>, lo: nat, hi: nat, state: Masks, types: Masks,
                           types': Masks)
    requires hi <= |code| && CoversUpTo(sigs, code, lo, hi, state, types) && Leq(types, types')
    ensures CoversUpTo(sigs, code, lo, hi, state, types')
  {
    forall at | lo <= at < hi
      ensures Covers(sigs, code[at], After(sigs, code, lo, at, state), types')
    {
      CoversMonotone(sigs, code[at], After(sigs, code, lo, at, state), types, types');
    }
  }

  /** One pass through a block: the state at its end, and the per-register union extended by it. */
  method FlowBlock(sigs: seq<Signature>, f: Function, lo: nat, hi: nat, incoming: Masks, was: Masks)
    returns (state: Masks, types: Masks)
    requires lo <= hi <= |f.code| && |incoming| == |was| && WordSized(sigs, f)
    requires Bounded(incoming) && Bounded(was)
    ensures state == After(sigs, f.code, lo, hi, incoming)
    ensures Leq(was, types) && Bounded(types)
    ensures CoversUpTo(sigs, f.code, lo, hi, incoming, types)
    ensures forall other: Masks :: Leq(was, other) && CoversUpTo(sigs, f.code, lo, hi, incoming, other) ==>
      Leq(types, other)
  {
    hide Reads, Dest, Targets, Find, Edge, ResultMask, Transfer, Extend, Covers, Bounded;
    state, types := incoming, was;
    for at := lo to hi
      invariant state == After(sigs, f.code, lo, at, incoming)
      invariant Leq(was, types) && Bounded(types)
      invariant CoversUpTo(sigs, f.code, lo, at, incoming, types)
      invariant forall other: Masks :: Leq(was, other) && CoversUpTo(sigs, f.code, lo, at, incoming, other) ==>
        Leq(types, other)
    {
      var i := f.code[at];
      ghost var earlier := types;
      AfterMonotone(sigs, f, lo, at, incoming, incoming);
      ExtendCovers(sigs, i, state, types);
      types := Extend(sigs, i, state, types);
      LeqTransitive(was, earlier, types);
      CoversUpToMonotone(sigs, f.code, lo, at, incoming, earlier, types);
      forall other: Masks | Leq(was, other) && CoversUpTo(sigs, f.code, lo, at + 1, incoming, other)
        ensures Leq(types, other)
      {
        assert CoversUpTo(sigs, f.code, lo, at, incoming, other);
        ExtendIsLeast(sigs, i, state, earlier, other);
      }
      state := Transfer(sigs, i, state);
    }
  }

  ghost predicate Grows(sol: Solution, sol': Solution) {
    && sol.reached <= sol'.reached
    && |sol.incoming| == |sol'.incoming|
    && (forall b :: 0 <= b < |sol.incoming| ==> Leq(sol.incoming[b], sol'.incoming[b]))
    && Leq(sol.types, sol'.types)
  }

  lemma DoneStays(sigs: seq<Signature>, f: Function, starts: seq<nat>, sol: Solution, sol': Solution, b: nat)
    requires BlockStarts(f.code, starts) && b < Blocks(starts) == |sol.incoming|
    requires Done(sigs, f, starts, sol, b) && Grows(sol, sol') && sol'.incoming[b] == sol.incoming[b]
    ensures Done(sigs, f, starts, sol', b)
  {
    hide Reads, Dest, Targets, Find, Edge, ResultMask, Transfer, After, Covers, CoversUpTo, BlockStarts, EntryTypes,
      EntryState;
    var end := Last(f.code, starts, b) + 1;
    CoversUpToMonotone(sigs, f.code, starts[b], end, sol.incoming[b], sol.types, sol'.types);
    forall c: nat | BlockEdge(f.code, starts, b, c)
      ensures Leq(After(sigs, f.code, starts[b], end, sol.incoming[b]), sol'.incoming[c])
    {
      LeqTransitive(After(sigs, f.code, starts[b], end, sol.incoming[b]), sol.incoming[c], sol'.incoming[c]);
    }
  }

  /** The solution after block b has been visited. */
  ghost function Visited(sigs: seq<Signature>, f: Function, starts: seq<nat>, sol: Solution, b: nat, edges: set<nat>,
                         types: Masks): Solution
    requires Shaped(f, starts, sol) && b < Blocks(starts)
  {
    var out := After(sigs, f.code, starts[b], Last(f.code, starts, b) + 1, sol.incoming[b]);
    Solution(sol.reached + edges, Merged(sol.incoming, edges, out), types)
  }

  /** The successors whose entry state changed. */
  ghost predicate Changed(sol: Solution, sol': Solution, c: nat)
    requires |sol.incoming| == |sol'.incoming|
  {
    c < |sol.incoming| && (c !in sol.reached || sol'.incoming[c] != sol.incoming[c])
  }

  /** The arguments of one worklist step. */
  ghost predicate Visiting(sigs: seq<Signature>, f: Function, starts: seq<nat>, sol: Solution, queued: set<nat>, b: nat,
                           edges: set<nat>, types: Masks) {
    && Working(sigs, f, starts, sol, queued) && WordSized(sigs, f) && b in queued
    && Leq(sol.types, types) && Bounded(types)
    && CoversUpTo(sigs, f.code, starts[b], Last(f.code, starts, b) + 1, sol.incoming[b], types)
    && (forall other: Masks ::
          (Leq(sol.types, other) &&
            CoversUpTo(sigs, f.code, starts[b], Last(f.code, starts, b) + 1, sol.incoming[b], other))
          ==> Leq(types, other))
    && (forall c: nat :: c in edges <==> BlockEdge(f.code, starts, b, c))
  }

  lemma MergedGrows(incoming: seq<Masks>, edges: set<nat>, out: Masks, b: nat)
    requires b < |incoming| && forall c :: 0 <= c < |incoming| ==> |incoming[c]| == |out|
    requires Bounded(incoming[b]) && Bounded(out)
    ensures Leq(incoming[b], Merged(incoming, edges, out)[b]) && Bounded(Merged(incoming, edges, out)[b])
  {
  }

  lemma VisitGrows(sigs: seq<Signature>, f: Function, starts: seq<nat>, sol: Solution, b: nat, edges: set<nat>,
                   types: Masks)
    requires Shaped(f, starts, sol) && WellSized(sol) && WordSized(sigs, f) && b < Blocks(starts)
    requires Leq(sol.types, types) && Bounded(types) && forall c :: c in edges ==> c < Blocks(starts)
    ensures var sol' := Visited(sigs, f, starts, sol, b, edges, types);
            Grows(sol, sol') && Shaped(f, starts, sol') && WellSized(sol')
  {
    hide Reads, Dest, Targets, Find, Edge, ResultMask, Transfer, After, Covers, CoversUpTo, EntryTypes, EntryState,
      Union, Merged, Leq, Bounded;
    var out := After(sigs, f.code, starts[b], Last(f.code, starts, b) + 1, sol.incoming[b]);
    AfterMonotone(sigs, f, starts[b], Last(f.code, starts, b) + 1, sol.incoming[b], sol.incoming[b]);
    var sol' := Visited(sigs, f, starts, sol, b, edges, types);
    forall c | 0 <= c < |sol.incoming|
      ensures Leq(sol.incoming[c], sol'.incoming[c]) && Bounded(sol'.incoming[c])
    {
      MergedGrows(sol.incoming, edges, out, c);
    }
    LeqTransitive(EntryTypes(f), sol.types, sol'.types);
    if f.code != [] {
      LeqTransitive(EntryState(f), sol.incoming[0], sol'.incoming[0]);
    }
  }

  lemma VisitIsDone(sigs: seq<Signature>, f: Function, starts: seq<nat>, sol: Solution, queued: set<nat>, b: nat,
                    edges: set<nat>, types: Masks, c: nat)
    requires Visiting(sigs, f, starts, sol, queued, b, edges, types)
    requires c in sol.reached && c !in queued - {b}
    requires !Changed(sol, Visited(sigs, f, starts, sol, b, edges, types), c)
    ensures Done(sigs, f, starts, Visited(sigs, f, starts, sol, b, edges, types), c)
  {
    hide Reads, Dest, Targets, Find, Edge, ResultMask, Transfer, After, Covers, CoversUpTo, EntryTypes, EntryState,
      Union, Merged, Leq, Bounded, Least;
    VisitGrows(sigs, f, starts, sol, b, edges, types);
    var sol' := Visited(sigs, f, starts, sol, b, edges, types);
    if c == b {
      var out := After(sigs, f.code, starts[b], Last(f.code, starts, b) + 1, sol.incoming[b]);
      forall e: nat | BlockEdge(f.code, starts, b, e)
        ensures e in sol'.reached && Leq(out, sol'.incoming[e])
      {
        assert e in edges;
        UnionAbove(sol.incoming[e], out);
      }
    } else {
      DoneStays(sigs, f, starts, sol, sol', c);
    }
  }

  lemma StretchIsCovered(sigs: seq<Signature>, f: Function, lo: nat, hi: nat, x: Masks, y: Masks, types: Masks)
    requires hi <= |f.code| && WordSized(sigs, f) && Leq(x, y) && Bounded(x)
    requires CoversUpTo(sigs, f.code, lo, hi, y, types)
    ensures CoversUpTo(sigs, f.code, lo, hi, x, types)
  {
    forall at | lo <= at < hi
      ensures Covers(sigs, f.code[at], After(sigs, f.code, lo, at, x), types)
    {
      AfterMonotone(sigs, f, lo, at, x, y);
      MaskMonotone(sigs, f.code[at], After(sigs, f.code, lo, at, x), After(sigs, f.code, lo, at, y));
      assert Covers(sigs, f.code[at], After(sigs, f.code, lo, at, y), types);
    }
  }

  lemma MergedBelow(incoming: seq<Masks>, edges: set<nat>, out: Masks, c: nat, above: Masks)
    requires c < |incoming| && forall b :: 0 <= b < |incoming| ==> |incoming[b]| == |out|
    requires c in edges ==> Leq(out, above)
    requires Leq(incoming[c], above)
    ensures Leq(Merged(incoming, edges, out)[c], above)
  {
  }

  /** Every solution of the equations is also above the visited one. */
  lemma VisitIsLeast(sigs: seq<Signature>, f: Function, starts: seq<nat>, sol: Solution, queued: set<nat>, b: nat,
                     edges: set<nat>, types: Masks, other: Solution)
    requires Visiting(sigs, f, starts, sol, queued, b, edges, types) && Solves(sigs, f, starts, other)
    ensures Within(Visited(sigs, f, starts, sol, b, edges, types), other)
  {
    hide Reads, Dest, Targets, Find, Edge, ResultMask, Transfer, After, Covers, CoversUpTo, EntryTypes, EntryState,
      BlockStarts;
    var lo, hi := starts[b], Last(f.code, starts, b) + 1;
    assert Within(sol, other) && Done(sigs, f, starts, other, b);
    AfterMonotone(sigs, f, lo, hi, sol.incoming[b], other.incoming[b]);
    var out, above := After(sigs, f.code, lo, hi, sol.incoming[b]), After(sigs, f.code, lo, hi, other.incoming[b]);
    forall c | c in sol.reached + edges && c < |sol.incoming|
      ensures c in other.reached && Leq(Merged(sol.incoming, edges, out)[c], other.incoming[c])
    {
      if c in edges {
        assert BlockEdge(f.code, starts, b, c);
        LeqTransitive(out, above, other.incoming[c]);
      }
      assert c in sol.reached || Bottom(sol.incoming[c]);
      MergedBelow(sol.incoming, edges, out, c, other.incoming[c]);
    }
    StretchIsCovered(sigs, f, lo, hi, sol.incoming[b], other.incoming[b], other.types);
  }

  lemma VisitKeepsWorking(sigs: seq<Signature>, f: Function, starts: seq<nat>, sol: Solution, queued: set<nat>, b: nat,
                          edges: set<nat>, types: Masks, queued': set<nat>)
    requires Visiting(sigs, f, starts, sol, queued, b, edges, types)
    requires forall c :: c in queued' <==>
      c in queued - {b} || (c in edges && Changed(sol, Visited(sigs, f, starts, sol, b, edges, types), c))
    ensures Working(sigs, f, starts, Visited(sigs, f, starts, sol, b, edges, types), queued')
  {
    hide Reads, Dest, Targets, Find, Edge, ResultMask, Transfer, After, Covers, CoversUpTo, EntryTypes, EntryState,
      BlockStarts;
    var sol' := Visited(sigs, f, starts, sol, b, edges, types);
    VisitGrows(sigs, f, starts, sol, b, edges, types);
    forall c | c in sol'.reached - queued'
      ensures Done(sigs, f, starts, sol', c)
    {
      assert c !in edges ==> !Changed(sol, sol', c);
      VisitIsDone(sigs, f, starts, sol, queued, b, edges, types, c);
    }
    forall other: Solution | Solves(sigs, f, starts, other)
      ensures Within(sol', other)
    {
      VisitIsLeast(sigs, f, starts, sol, queued, b, edges, types, other);
    }
  }

  lemma FactsGrow(incoming: seq<Masks>, incoming': seq<Masks>, size: nat)
    requires |incoming| == |incoming'|
    requires forall b :: 0 <= b < |incoming| ==>
      |incoming'[b]| == size && Leq(incoming[b], incoming'[b]) && Bounded(incoming'[b])
    ensures Facts(incoming) <= Facts(incoming') <= Universe(|incoming|, size)
    ensures incoming != incoming' ==> Facts(incoming) < Facts(incoming')
  {
    if incoming != incoming' {
      var b :| 0 <= b < |incoming| && incoming[b] != incoming'[b];
      var r :| 0 <= r < size && incoming[b][r] != incoming'[b][r];
      var t :| t in incoming'[b][r] && t !in incoming[b][r];
      assert (b, r, t) in Facts(incoming') && (b, r, t) !in Facts(incoming);
    }
  }

  method Smallest(s: set<nat>) returns (m: nat)
    requires s != {}
    ensures m in s && forall x :: x in s ==> m <= x
  {
    m :| m in s;
    var rest := s - {m};
    while rest != {}
      invariant m in s && rest <= s && forall x :: x in s && x !in rest ==> m <= x
    {
      var x :| x in rest;
      rest := rest - {x};
      if x < m {
        m := x;
      }
    }
  }

  /** The block successors, as the worklist enumerates them. */
  lemma BlockEdges(code: seq<Instr>, starts: seq<nat>, labels: map<Name, nat>, b: nat, c: nat)
    requires BlockStarts(code, starts) && b < Blocks(starts) && TargetsExist(code)
    requires LabelBlocks(code, starts, labels)
    ensures var i := code[Last(code, starts, b)];
      BlockEdge(code, starts, b, c) <==>
        (!Terminates(i) && c == b + 1 < Blocks(starts)) ||
        exists j :: 0 <= j < |Targets(i)| && Targets(i)[j] in labels && c == labels[Targets(i)[j]]
  {
    hide Reads, Dest, Targets, Find;
    var at := Last(code, starts, b);
    var i := code[at];
    if BlockEdge(code, starts, b, c) {
      if !Terminates(i) && starts[c] == at + 1 {
        assert starts[c] == starts[b + 1];
      } else {
        var j :| 0 <= j < |Targets(i)| && starts[c] == Find(code, Targets(i)[j]);
        assert starts[c] == starts[labels[Targets(i)[j]]];
      }
    }
  }

  lemma MergedAdd(incoming: seq<Masks>, edges: set<nat>, out: Masks, e: nat)
    requires e < |incoming| && forall b :: 0 <= b < |incoming| ==> |incoming[b]| == |out|
    ensures Merged(incoming, edges, out)[e := Union(Merged(incoming, edges, out)[e], out)] ==
      Merged(incoming, edges + {e}, out)
  {
    var m := Merged(incoming, edges, out);
    assert Union(m[e], out) == Union(incoming[e], out);
  }

  lemma MergedNone(incoming: seq<Masks>, out: Masks, sol: Solution, queued: set<nat>)
    requires incoming == sol.incoming && forall b :: 0 <= b < |incoming| ==> |incoming[b]| == |out|
    ensures MergedSoFar(sol, queued, {}, out, sol, queued)
  {
    assert Merged(incoming, {}, out) == incoming;
  }

  ghost predicate LabelBlocks(code: seq<Instr>, starts: seq<nat>, labels: map<Name, nat>)
    requires |starts| > 0
  {
    && (forall l :: l in labels <==> Label(l) in code)
    && (forall l :: l in labels ==> labels[l] < Blocks(starts) && starts[labels[l]] == Find(code, l))
  }

  /** The blocks a block can fall through or jump to. */
  method Successors(f: Function, starts: seq<nat>, labels: map<Name, nat>, block: nat) returns (edges: seq<nat>)
    requires WellFormed(f) && BlockStarts(f.code, starts) && LabelBlocks(f.code, starts, labels) &&
      block < Blocks(starts)
    ensures forall c: nat :: c in edges <==> BlockEdge(f.code, starts, block, c)
  {
    hide Reads, Dest, Targets, Find, Edge, BlockStarts, BlockEdge;
    var i := f.code[Last(f.code, starts, block)];
    edges := if !Terminates(i) && block + 1 < Blocks(starts) then [block + 1] else [];
    for j := 0 to |Targets(i)|
      invariant forall c :: c in edges <==>
        (!Terminates(i) && c == block + 1 < Blocks(starts)) ||
        exists k :: 0 <= k < j && Targets(i)[k] in labels && c == labels[Targets(i)[k]]
    {
      assert Label(Targets(i)[j]) in f.code;
      edges := edges + [labels[Targets(i)[j]]];
    }
    forall c: nat
      ensures c in edges <==> BlockEdge(f.code, starts, block, c)
    {
      BlockEdges(f.code, starts, labels, block, c);
    }
  }

  /** Merges a state into the entries of some blocks, queueing the ones that change. */
  method MergeInto(edges: seq<nat>, state: Masks, sol: Solution, queued: set<nat>)
    returns (sol': Solution, queued': set<nat>)
    requires forall b :: 0 <= b < |sol.incoming| ==> |sol.incoming[b]| == |state|
    requires forall c :: c in edges ==> c < |sol.incoming|
    ensures MergedSoFar(sol, queued, (set c | c in edges), state, sol', queued') && sol'.types == sol.types
  {
    hide Union, Merged;
    sol', queued' := sol, queued;
    ghost var done: set<nat> := {};
    MergedNone(sol.incoming, state, sol, queued);
    for j := 0 to |edges|
      invariant forall c :: c in done <==> c in edges[..j]
      invariant |sol'.incoming| == |sol.incoming| && sol'.types == sol.types
      invariant MergedSoFar(sol, queued, done, state, sol', queued')
    {
      assert edges[j] in edges && edges[..j + 1] == edges[..j] + [edges[j]];
      sol', queued' := MergeEdge(sol', queued', edges[j], state, sol, queued, done);
      done := done + {edges[j]};
    }
    assert edges[..|edges|] == edges;
    assert done == set c | c in edges;
  }

  /** Takes a block off the queue and flows it into the rest. */
  method VisitBlock(sigs: seq<Signature>, f: Function, starts: seq<nat>, labels: map<Name, nat>, sol: Solution,
                    queued: set<nat>, block: nat)
    returns (sol': Solution, queued': set<nat>)
    requires WellFormed(f) && WordSized(sigs, f) && Working(sigs, f, starts, sol, queued) && block in queued
    requires LabelBlocks(f.code, starts, labels)
    ensures Working(sigs, f, starts, sol', queued')
    ensures Grows(sol, sol') && (sol'.incoming == sol.incoming && sol'.reached == sol.reached ==> queued' < queued)
  {
    hide Reads, Dest, Targets, Find, Edge, ResultMask, Transfer, After, Covers, CoversUpTo, EntryTypes, EntryState,
      Done, MergedSoFar;
    var edges := Successors(f, starts, labels, block);
    var state, types := FlowBlock(sigs, f, starts[block], Last(f.code, starts, block) + 1, sol.incoming[block],
      sol.types);
    sol', queued' := MergeInto(edges, state, sol.(types := types), queued - {block});
    VisitLemma(sigs, f, starts, sol, queued, block, (set c | c in edges), state, types, sol', queued');
  }

  lemma VisitLemma(sigs: seq<Signature>, f: Function, starts: seq<nat>, sol: Solution, queued: set<nat>, block: nat,
                   edges: set<nat>, state: Masks, types: Masks, sol': Solution, queued': set<nat>)
    requires Visiting(sigs, f, starts, sol, queued, block, edges, types)
    requires state == After(sigs, f.code, starts[block], Last(f.code, starts, block) + 1, sol.incoming[block])
    requires MergedSoFar(sol.(types := types), queued - {block}, edges, state, sol', queued') && sol'.types == types
    ensures Working(sigs, f, starts, sol', queued')
    ensures Grows(sol, sol') && (sol'.incoming == sol.incoming && sol'.reached == sol.reached ==> queued' < queued)
  {
    hide Reads, Dest, Targets, Find, Edge, ResultMask, Transfer, After, Covers, CoversUpTo, EntryTypes, EntryState,
      Done, Union, Merged, Leq, Bounded, Least;
    VisitGrows(sigs, f, starts, sol, block, edges, types);
    assert sol' == Visited(sigs, f, starts, sol, block, edges, types);
    assert forall c :: Changed(sol.(types := types), sol', c) <==> Changed(sol, sol', c);
    VisitKeepsWorking(sigs, f, starts, sol, queued, block, edges, types, queued');
    assert sol'.incoming == sol.incoming && sol'.reached == sol.reached ==> queued' == queued - {block};
  }

  ghost function AllBlocks(n: nat): (s: set<nat>)
    ensures forall b: nat :: b in s <==> b < n
  {
    if n == 0 then {} else AllBlocks(n - 1) + {n - 1}
  }

  lemma SeedIsWorking(sigs: seq<Signature>, f: Function, starts: seq<nat>, sol: Solution)
    requires WellFormed(f) && WordSized(sigs, f) && BlockStarts(f.code, starts)
    requires |sol.incoming| == Blocks(starts) && sol.types == EntryTypes(f)
    requires sol.reached == if f.code == [] then {} else {0}
    requires forall b :: 0 <= b < |sol.incoming| ==> |sol.incoming[b]| == Size(f)
    requires forall b :: 0 < b < |sol.incoming| ==> Bottom(sol.incoming[b])
    requires f.code != [] ==> sol.incoming[0] == EntryState(f)
    ensures Working(sigs, f, starts, sol, sol.reached)
  {
    hide Reads, Dest, Targets, Find, Edge, ResultMask, Transfer, After, Covers, CoversUpTo, BlockEdge;
    assert f.code != [] ==> |starts| > 1;
    assert Bounded(EntryTypes(f)) && Bounded(EntryState(f));
    assert forall b :: 0 < b < |sol.incoming| ==> Bounded(sol.incoming[b]);
    assert f.code == [] ==> |starts| == 1;
    forall other: Solution | Solves(sigs, f, starts, other)
      ensures Within(sol, other)
    {
      assert Leq(EntryTypes(f), other.types);
    }
  }

  /** The worklist terminates in the least solution of the block equations. */
  method SolveTypes(sigs: seq<Signature>, f: Function) returns (starts: seq<nat>, sol: Solution)
    requires WellFormed(f) && WordSized(sigs, f)
    ensures Solves(sigs, f, starts, sol)
    ensures Least(sigs, f, starts, sol)
  {
    hide Reads, Dest, Targets, Find, Edge, ResultMask, Transfer, After, Covers, CoversUpTo, Done, Least;
    var labels;
    starts, labels := FindBlocks(f.code);
    var blocks, size := |starts| - 1, Size(f);
    sol := Solution({}, seq(blocks, _ => seq(size, _ => {})), EntryTypes(f));
    if f.code != [] {
      sol := sol.(incoming := sol.incoming[0 := EntryState(f)], reached := {0});
    }
    SeedIsWorking(sigs, f, starts, sol);
    var queued := sol.reached;
    while queued != {}
      invariant Working(sigs, f, starts, sol, queued)
      decreases Universe(blocks, size) - Facts(sol.incoming), AllBlocks(blocks) - sol.reached, queued
    {
      ghost var was := sol;
      var block := Smallest(queued);
      sol, queued := VisitBlock(sigs, f, starts, labels, sol, queued, block);
      FactsGrow(was.incoming, sol.incoming, size);
    }
  }

  /** The state of the merge loop after the edges in `edges`. */
  ghost predicate MergedSoFar(was: Solution, wasQueued: set<nat>, edges: set<nat>, out: Masks, sol: Solution,
                              queued: set<nat>) {
    && (forall b :: 0 <= b < |was.incoming| ==> |was.incoming[b]| == |out|)
    && sol.incoming == Merged(was.incoming, edges, out)
    && sol.reached == was.reached + edges
    && (forall c :: c in edges ==> c < |was.incoming|)
    && (forall c :: c in queued <==> c in wasQueued || (c in edges && Changed(was, sol, c)))
  }

  method MergeEdge(sol: Solution, queued: set<nat>, edge: nat, state: Masks, ghost was: Solution,
                   ghost wasQueued: set<nat>, ghost edges: set<nat>)
    returns (sol': Solution, queued': set<nat>)
    requires MergedSoFar(was, wasQueued, edges, state, sol, queued) && edge < |sol.incoming|
    ensures MergedSoFar(was, wasQueued, edges + {edge}, state, sol', queued') && sol'.types == sol.types
    ensures |sol'.incoming| == |sol.incoming|
  {
    var value := Union(sol.incoming[edge], state);
    var changed := edge !in sol.reached || value != sol.incoming[edge];
    sol' := sol.(reached := sol.reached + {edge}, incoming := sol.incoming[edge := value]);
    queued' := if changed then queued + {edge} else queued;
    MergedAdd(was.incoming, edges, state, edge);
  }

  /** The one tag of a set, or -1. */
  predicate IsKind(m: Mask, kind: int) {
    if kind >= 0 then kind < TAG_COUNT && m == {kind} else kind == -1 && forall t :: 0 <= t < TAG_COUNT ==> m != {t}
  }

  /** `proven` holds, per register, the single tag of the least solution, or -1. */
  ghost predicate ProvenBy(sigs: seq<Signature>, f: Function, starts: seq<nat>, sol: Solution, proven: seq<int>) {
    && Solves(sigs, f, starts, sol)
    && Least(sigs, f, starts, sol)
    && |proven| == Size(f)
    && (forall r :: 0 <= r < |proven| ==> IsKind(sol.types[r], proven[r]))
  }

  /** The kinds the analysis reports for a function. */
  ghost predicate Reports(sigs: seq<Signature>, f: Function, proven: seq<int>) {
    exists starts, sol :: ProvenBy(sigs, f, starts, sol, proven)
  }

  method ProvenLocals(sigs: seq<Signature>, f: Function) returns (proven: seq<int>)
    requires WellFormed(f) && WordSized(sigs, f)
    ensures Reports(sigs, f, proven)
  {
    hide Reads, Dest, Targets, Find, Edge, ResultMask, Transfer, After, Covers, CoversUpTo, EntryTypes, EntryState,
      Done, Least;
    var starts, sol := SolveTypes(sigs, f);
    proven := [];
    for r := 0 to Size(f)
      invariant |proven| == r && forall q :: 0 <= q < r ==> IsKind(sol.types[q], proven[q])
    {
      var kind := -1;
      for t := 0 to TAG_COUNT
        invariant if kind >= 0 then kind < t && sol.types[r] == {kind} else kind == -1 && forall u :: 0 <= u < t ==>
          sol.types[r] != {u}
      {
        if sol.types[r] == {t} {
          kind := t;
        }
      }
      proven := proven + [kind];
    }
    assert ProvenBy(sigs, f, starts, sol, proven);
  }
}
