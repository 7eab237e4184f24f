/**
 Whole programs. A run is a stack of frames: a CALL enters the callee, a RETURN hands its value to
 the caller, a failure fails every caller. Entering a function checks the number of arguments and
 converts those of a declared type, as the emitted entry does.
 */
module Programs {
  import opened Options
  import opened Ir
  import opened Machine
  import opened TypeFlow
  import opened TypeSoundness
  import opened Rewrites

  /** The functions, and for each the parameters its entry looks at: those the emitted body mentions. */
  datatype Program = Program(funcs: seq<Function>, looked: seq<set<Reg>>)

  function Looked(prog: Program, j: nat): set<Reg> {
    if j < |prog.looked| then prog.looked[j] else {}
  }

  // ----- entering a function -----

  /** The type an entry checks for: the one member of the declared set, unless that is NIL or OBJECT. */
  ghost function CheckedTag(mask: Mask): (t: Option<nat>)
    ensures t.Some? ==> 1 <= t.value < TAG_COUNT && t.value != OBJECT && mask == {t.value}
    ensures t.None? ==> forall k: nat :: 1 <= k < TAG_COUNT && k != OBJECT ==> mask != {k}
  {
    if k: nat :| 1 <= k < TAG_COUNT && k != OBJECT && mask == {k} then Some(k) else None
  }

  datatype Entered = Admitted(args: seq<Value>, w: World) | Refused(w: World)

  /** What becomes of argument k: converted, or passed on; one nobody looks at counts as of its type. */
  ghost function AdmitOne(h: Host, f: Function, looked: set<Reg>, args: seq<Value>, w: World, k: nat): Action
    requires k < |args| == |f.params|
  {
    match CheckedTag(f.params[k])
    case Some(t) =>
      if k in looked then CoerceAction(h, t, args[k], w)
      else Plain(if args[k].tag == t then args[k] else Value(t, 0), w)
    case None => Plain(args[k], w)
  }

  /** The arguments from |done| on, after those in `done`. */
  ghost function Admit(h: Host, f: Function, looked: set<Reg>, args: seq<Value>, w: World, done: seq<Value>): Entered
    requires |done| <= |args| == |f.params|
    decreases |args| - |done|
  {
    if |done| == |args| then Admitted(done, w)
    else
      var a := AdmitOne(h, f, looked, args, w, |done|);
      match a.out
      case Some(v) => Admit(h, f, looked, args, a.w, done + [v])
      case None => Refused(a.w)
  }

  ghost function Enter(h: Host, f: Function, looked: set<Reg>, args: seq<Value>, w: World): Entered {
    if |args| != |f.params| then Refused(w) else Admit(h, f, looked, args, w, [])
  }

  // ----- the stack -----

  datatype Frame = Frame(fn: nat, pc: nat, regs: seq<Value>)

  /** The caller is below its callee; `Over` holds the outcome of the whole run. */
  datatype Stack = Live(frames: seq<Frame>, w: World) | Over(o: Config)

  ghost function Enclose(prog: Program, frames: seq<Frame>, j: nat, e: Entered): Stack
    requires j < |prog.funcs|
  {
    match e
    case Admitted(vs, w) => Live(frames + [Frame(j, 0, Entry(prog.funcs[j], vs, w).regs)], w)
    case Refused(w) => Over(Failed(w))
  }

  ghost function Launch(h: Host, prog: Program, j: nat, args: seq<Value>, w: World): Stack
    requires j < |prog.funcs|
  {
    Enclose(prog, [], j, Enter(h, prog.funcs[j], Looked(prog, j), args, w))
  }

  /** The call a frame is at. */
  predicate AtCall(prog: Program, fr: Frame) {
    fr.fn < |prog.funcs| && fr.pc < |prog.funcs[fr.fn].code| && prog.funcs[fr.fn].code[fr.pc].Call?
  }

  function CallOf(prog: Program, fr: Frame): Instr
    requires AtCall(prog, fr)
  {
    prog.funcs[fr.fn].code[fr.pc]
  }

  /** The callee's outcome reaches the frames below it. */
  ghost function Deliver(prog: Program, frames: seq<Frame>, o: Config): Stack
    requires !o.Running?
  {
    if frames == [] || o.Failed? then Over(o)
    else
      var top := frames[|frames| - 1];
      if !AtCall(prog, top) then Over(o)
      else
        var regs := Put(top.regs, CallOf(prog, top).d, o.v);
        Live(frames[..|frames| - 1] + [Frame(top.fn, top.pc + 1, regs)], o.w)
  }

  ghost function Advance(h: Host, prog: Program, c: Stack): Stack {
    if c.Over? || c.frames == [] || c.frames[|c.frames| - 1].fn >= |prog.funcs| then c
    else
      var top, below := c.frames[|c.frames| - 1], c.frames[..|c.frames| - 1];
      if AtCall(prog, top) then
        var i := CallOf(prog, top);
        if i.callee >= |prog.funcs| then Over(Failed(c.w))
        else
          Enclose(prog, c.frames, i.callee,
                  Enter(h, prog.funcs[i.callee], Looked(prog, i.callee), Gather(top.regs, i.args), c.w))
      else
        match Step(h, prog.funcs[top.fn].code, State(top.pc, top.regs, c.w))
        case Running(s) => Live(below + [Frame(top.fn, s.pc, s.regs)], s.w)
        case Returned(v, w) => Deliver(prog, below, Returned(v, w))
        case Failed(w) => Deliver(prog, below, Failed(w))
  }

  ghost function RunStack(h: Host, prog: Program, c: Stack, n: nat): Stack
    decreases n
  {
    if n == 0 || c.Over? then c else RunStack(h, prog, Advance(h, prog, c), n - 1)
  }

  /** The whole run ends, with outcome `o`. */
  ghost predicate StackEnds(h: Host, prog: Program, c: Stack, o: Config) {
    exists n: nat :: RunStack(h, prog, c, n) == Over(o)
  }

  lemma {:induction false} RunStackSplit(h: Host, prog: Program, c: Stack, n: nat, m: nat)
    ensures RunStack(h, prog, c, n + m) == RunStack(h, prog, RunStack(h, prog, c, n), m)
    decreases n
  {
    hide Advance;
    if n != 0 && c.Live? {
      RunStackSplit(h, prog, Advance(h, prog, c), n - 1, m);
    }
  }

  // ----- calls -----

  /** Arguments for parameters whose declared set no entry checks are of that set. */
  ghost predicate Acceptable(f: Function, args: seq<Value>) {
    |args| == |f.params| ==>
      forall k :: 0 <= k < |args| && f.params[k] != {} && CheckedTag(f.params[k]).None? ==> args[k].tag in f.params[k]
  }

  ghost predicate Good(prog: Program, callee: nat, args: seq<Value>, w: World) {
    callee < |prog.funcs| && Tagged(args) && Tagged(w.globals) && Acceptable(prog.funcs[callee], args)
  }

  /** One argument through the entry: tagged, of its set, and the world stays tagged. */
  lemma {:induction false} AdmitOneConforms(sigs: seq<Signature>, h: Host, f: Function, looked: set<Reg>,
                                            args: seq<Value>, w: World, k: nat)
    requires HostContract(sigs, h) && Tagged(w.globals) && Tagged(args) && k < |args| == |f.params|
    requires Acceptable(f, args)
    ensures var a := AdmitOne(h, f, looked, args, w, k);
      && Tagged(a.w.globals)
      && (a.out.Some? ==> a.out.value.tag < TAG_COUNT && (f.params[k] != {} ==> a.out.value.tag in f.params[k]))
  {
    match CheckedTag(f.params[k])
    case Some(t) => assert Honest(sigs, CoerceTo(t), [args[k]], h.serve(CoerceTo(t), [args[k]], w));
    case None =>
  }

  ghost predicate ConformsUpTo(f: Function, done: seq<Value>) {
    && |done| <= |f.params|
    && (forall k :: 0 <= k < |done| ==> done[k].tag < TAG_COUNT && (f.params[k] != {} ==> done[k].tag in f.params[k]))
  }

  lemma {:induction false} AdmitConforms(sigs: seq<Signature>, h: Host, f: Function, looked: set<Reg>, args: seq<Value>,
                                         w: World, done: seq<Value>)
    requires HostContract(sigs, h) && Tagged(w.globals) && Tagged(args) && |done| <= |args| == |f.params|
    requires Acceptable(f, args) && ConformsUpTo(f, done)
    ensures var e := Admit(h, f, looked, args, w, done);
      Tagged(e.w.globals) && (e.Admitted? ==> Conforms(f, e.args))
    decreases |args| - |done|
  {
    hide AdmitOne, HostContract, Acceptable, Tagged;
    if |done| < |args| {
      AdmitOneConforms(sigs, h, f, looked, args, w, |done|);
      var a := AdmitOne(h, f, looked, args, w, |done|);
      if a.out.Some? {
        AdmitConforms(sigs, h, f, looked, args, a.w, done + [a.out.value]);
      }
    }
  }

  /** What an entry admits conforms, whatever was passed. */
  lemma {:induction false} EnterConforms(sigs: seq<Signature>, h: Host, f: Function, looked: set<Reg>, args: seq<Value>,
                                         w: World)
    requires HostContract(sigs, h) && Tagged(w.globals) && Tagged(args) && Acceptable(f, args)
    ensures var e := Enter(h, f, looked, args, w);
      Tagged(e.w.globals) && (e.Admitted? ==> Conforms(f, e.args))
  {
    hide Admit, HostContract, Acceptable, Tagged;
    if |args| == |f.params| {
      AdmitConforms(sigs, h, f, looked, args, w, []);
    }
  }

  /**
   What an entry does with an argument of its own: it asks the engine to convert it exactly when the
   body mentions the parameter, the declared set is one type, which is neither nil nor Object, and
   the argument is of another.
   */
  lemma {:induction false} EntryConvertsExactly(h: Host, f: Function, looked: set<Reg>, args: seq<Value>, w: World,
                                                k: nat, t: nat)
    requires k < |args| == |f.params| && k in looked
    ensures f.params[k] == {t} && 1 <= t < 39 && t != 24 && args[k].tag != t ==>
      AdmitOne(h, f, looked, args, w, k) == Served(h.serve(CoerceTo(t), [args[k]], w))
    ensures f.params[k] == {t} && (t == 0 || t >= 39 || t == 24 || args[k].tag == t) ==>
      AdmitOne(h, f, looked, args, w, k) == Plain(args[k], w)
    ensures |f.params[k]| != 1 ==> AdmitOne(h, f, looked, args, w, k) == Plain(args[k], w)
  {
    hide Served;
    var c := CheckedTag(f.params[k]);
    if c.Some? && f.params[k] == {t} {
      assert t in {c.value};
    }
  }

  /** On arguments that conform already an entry does nothing. */
  lemma {:induction false} ConformingAdmitted(h: Host, f: Function, looked: set<Reg>, args: seq<Value>, w: World,
                                              done: seq<Value>)
    requires Conforms(f, args) && |done| <= |args| && done == args[..|done|]
    ensures Admit(h, f, looked, args, w, done) == Admitted(args, w)
    decreases |args| - |done|
  {
    if |done| < |args| {
      assert AdmitOne(h, f, looked, args, w, |done|) == Plain(args[|done|], w);
      assert done + [args[|done|]] == args[..|done| + 1];
      ConformingAdmitted(h, f, looked, args, w, done + [args[|done|]]);
    } else {
      assert args[..|done|] == args;
    }
  }

  // ----- functions that call and return as declared, whatever the host -----

  ghost predicate Proper(sigs: seq<Signature>, prog: Program, j: nat, c: Config)
    requires j < |prog.funcs|
  {
    match c
    case Running(s) =>
      var code := prog.funcs[j].code;
      s.pc < |code| && code[s.pc].Call? ==> Good(prog, code[s.pc].callee, Gather(s.regs, code[s.pc].args), s.w)
    case Returned(v, w) => v.tag < TAG_COUNT && v.tag in Returns(sigs, j) && Tagged(w.globals)
    case Failed(w) => Tagged(w.globals)
  }

  ghost predicate RunsProperly(sigs: seq<Signature>, prog: Program, j: nat, h: Host, args: seq<Value>, w: World)
    requires j < |prog.funcs|
  {
    forall n: nat :: Proper(sigs, prog, j, Run(h, prog.funcs[j].code, Running(Entry(prog.funcs[j], args, w)), n))
  }

  ghost predicate Behaves(sigs: seq<Signature>, prog: Program, j: nat)
    requires j < |prog.funcs|
  {
    forall h: Host, args: seq<Value>, w: World ::
      HostContract(sigs, h) && Conforms(prog.funcs[j], args) && Tagged(w.globals) ==>
        RunsProperly(sigs, prog, j, h, args, w)
  }

  ghost predicate Sound(sigs: seq<Signature>, prog: Program) {
    forall j :: 0 <= j < |prog.funcs| ==> Behaves(sigs, prog, j)
  }

  // ----- programs the type analysis accepts -----

  /** Where a function returns, its result is of its declared set; where it calls, unchecked arguments are of theirs. */
  ghost predicate Fits(sigs: seq<Signature>, funcs: seq<Function>, j: nat, reached: set<nat>, before: seq<Masks>)
    requires j < |funcs|
  {
    var f := funcs[j];
    && |before| == |f.code|
    && (forall at :: at in reached && at < |f.code| && f.code[at].Return? ==>
      MaskAt(before[at], 0) <= Returns(sigs, j))
    && (forall at :: at in reached && at < |f.code| && f.code[at].Call? ==>
          CallFits(funcs, f.code[at].callee, f.code[at].args, before[at]))
  }

  ghost predicate CallFits(funcs: seq<Function>, callee: nat, args: seq<Reg>, state: Masks) {
    && callee < |funcs|
    && (|args| == |funcs[callee].params| ==>
          forall k :: 0 <= k < |args| ==>
            var mask := funcs[callee].params[k];
            mask == {} || CheckedTag(mask).Some? || MaskAt(state, args[k]) <= mask)
  }

  /** A verified function with a solution of the type equations under which it fits. */
  ghost predicate Accepted(sigs: seq<Signature>, funcs: seq<Function>, j: nat)
    requires j < |funcs|
  {
    && Verified(funcs[j]) && WordSized(sigs, funcs[j]) && EndsInTerminator(funcs[j].code)
    && exists types, reached, before ::
         Flows(sigs, funcs[j], types, reached, before) && Fits(sigs, funcs, j, reached, before)
  }

  ghost predicate AcceptedProgram(sigs: seq<Signature>, funcs: seq<Function>) {
    forall j :: 0 <= j < |funcs| ==> Accepted(sigs, funcs, j)
  }

  /** A state reached by a run of an accepted function, with the certificate it was accepted by. */
  lemma {:induction false} RunFits(sigs: seq<Signature>, h: Host, funcs: seq<Function>, j: nat, args: seq<Value>,
                                   w: World, n: nat)
    returns (reached: set<nat>, before: seq<Masks>, defined: seq<set<Reg>>)
    requires j < |funcs| && Accepted(sigs, funcs, j) && HostContract(sigs, h) && Conforms(funcs[j], args) &&
      Tagged(w.globals)
    requires Run(h, funcs[j].code, Running(Entry(funcs[j], args, w)), n).Running?
    ensures Fits(sigs, funcs, j, reached, before) && DefinedBy(funcs[j], defined)
    ensures var s := Run(h, funcs[j].code, Running(Entry(funcs[j], args, w)), n).s;
      s.pc < |funcs[j].code| && |defined| == |funcs[j].code| + 1 && Typed(funcs[j], reached, before, defined, s)
  {
    hide Fits, Flows, DefinedBy, HostContract, WordSized, Typed, Run, Entry, HintsGiven, UniqueLabels, InRange,
      Conforms;
    var f := funcs[j];
    defined :| DefinedBy(f, defined);
    var types;
    types, reached, before :| Flows(sigs, f, types, reached, before) && Fits(sigs, funcs, j, reached, before);
    var s := Entry(f, args, w);
    EntryStart(f, args, w);
    SizesOf(sigs, f, types, reached, before, defined);
    EntryTyped(sigs, f, types, reached, before, defined, args, w);
    RunTyped(sigs, h, f, types, reached, before, defined, s, n);
    StaysInside(h, f.code, s, n);
  }

  lemma {:induction false} SizesOf(sigs: seq<Signature>, f: Function, types: Masks, reached: set<nat>,
                                   before: seq<Masks>, defined: seq<set<Reg>>)
    requires Flows(sigs, f, types, reached, before) && DefinedBy(f, defined)
    ensures |before| == |f.code| && |defined| == |f.code| + 1
  {
    hide Covers, Edge, Transfer, EntryState;
  }

  /** A terminal step from a typed state: what it returns is declared, and the world stays tagged. */
  lemma {:induction false} StepAnswers(sigs: seq<Signature>, h: Host, funcs: seq<Function>, j: nat, reached: set<nat>,
                                       before: seq<Masks>, defined: seq<set<Reg>>, s: State)
    requires j < |funcs| && WellFormed(funcs[j]) && DefinedBy(funcs[j], defined) && HostContract(sigs, h) &&
      Fits(sigs, funcs, j, reached, before)
    requires s.pc < |funcs[j].code| && |defined| == |funcs[j].code| + 1 && Typed(funcs[j], reached, before, defined, s)
    requires !Step(h, funcs[j].code, s).Running?
    ensures var o := Step(h, funcs[j].code, s);
      && Tagged(o.w.globals)
      && (o.Returned? ==> o.v.tag < TAG_COUNT && o.v.tag in Returns(sigs, j))
  {
    hide Execute, Reads, HostContract, Returns, CallFits;
    var f := funcs[j];
    var i := f.code[s.pc];
    assert i.Return? || Reads(i) <= defined[s.pc];
    ReturnReads0(i);
    ResultSound(sigs, h, i, s.regs, s.w, before[s.pc]);
    if Step(h, f.code, s).Returned? {
      OnlyReturnReturns(h, f.code, s);
      assert |s.regs| > 0;
    }
  }

  lemma {:induction false} ReturnReads0(i: Instr)
    ensures i.Return? ==> Reads(i) == {0}
  {
  }

  lemma {:induction false} GatherAt(regs: seq<Value>, args: seq<Reg>)
    ensures |Gather(regs, args)| == |args|
    ensures forall k :: 0 <= k < |args| ==> Gather(regs, args)[k] == At(regs, args[k])
  {
    if args != [] {
      GatherAt(regs, args[1..]);
    }
  }

  lemma {:induction false} CallConforms(sigs: seq<Signature>, prog: Program, j: nat, reached: set<nat>,
                                        before: seq<Masks>, defined: seq<set<Reg>>, s: State)
    requires j < |prog.funcs| && Fits(sigs, prog.funcs, j, reached, before) && DefinedBy(prog.funcs[j], defined)
    requires s.pc < |prog.funcs[j].code| && |defined| == |prog.funcs[j].code| + 1
    requires Typed(prog.funcs[j], reached, before, defined, s) && prog.funcs[j].code[s.pc].Call?
    ensures var i := prog.funcs[j].code[s.pc]; Good(prog, i.callee, Gather(s.regs, i.args), s.w)
  {
    hide Returns, Edge, Gather;
    var i := prog.funcs[j].code[s.pc];
    assert CallFits(prog.funcs, i.callee, i.args, before[s.pc]);
    assert Reads(i) <= defined[s.pc];
    var vs := Gather(s.regs, i.args);
    GatherAt(s.regs, i.args);
    forall k | 0 <= k < |i.args|
      ensures vs[k].tag < TAG_COUNT && vs[k].tag in MaskAt(before[s.pc], i.args[k])
    {
      assert i.args[k] in Reads(i);
      assert vs[k] == At(s.regs, i.args[k]);
    }
  }

  lemma {:induction false} AcceptedRunsProperly(sigs: seq<Signature>, prog: Program, j: nat, h: Host, args: seq<Value>,
                                                w: World, n: nat)
    requires j < |prog.funcs| && Accepted(sigs, prog.funcs, j) && HostContract(sigs, h)
    requires Conforms(prog.funcs[j], args) && Tagged(w.globals)
    ensures Proper(sigs, prog, j, Run(h, prog.funcs[j].code, Running(Entry(prog.funcs[j], args, w)), n))
  {
    hide Step, Fits, Flows, DefinedBy, HostContract, WordSized, Typed, Run, Entry, WellFormed, HintsGiven, Conforms,
      Tagged, Returns, Good, Gather;
    var f, s := prog.funcs[j], Entry(prog.funcs[j], args, w);
    var c := Run(h, f.code, Running(s), n);
    if c.Running? {
      var reached, before, defined := RunFits(sigs, h, prog.funcs, j, args, w, n);
      if f.code[c.s.pc].Call? {
        CallConforms(sigs, prog, j, reached, before, defined, c.s);
      }
    } else {
      var k, t := LastStep(h, f.code, s, n);
      var reached, before, defined := RunFits(sigs, h, prog.funcs, j, args, w, k);
      StepAnswers(sigs, h, prog.funcs, j, reached, before, defined, t);
    }
  }

  /** An accepted program makes only good calls and returns only declared results, under any honest host. */
  lemma {:induction false} AcceptedIsSound(sigs: seq<Signature>, prog: Program)
    requires AcceptedProgram(sigs, prog.funcs)
    ensures Sound(sigs, prog)
  {
    hide Accepted, HostContract, Conforms, Tagged, Proper;
    forall j, h: Host, args: seq<Value>, w: World, n: nat | 0 <= j < |prog.funcs| && HostContract(sigs, h) &&
      Conforms(prog.funcs[j], args) && Tagged(w.globals)
      ensures Proper(sigs, prog, j, Run(h, prog.funcs[j].code, Running(Entry(prog.funcs[j], args, w)), n))
    {
      AcceptedRunsProperly(sigs, prog, j, h, args, w, n);
    }
  }

  // ----- rewriting keeps that, whatever the rewriting is -----

  /** Both programs can be called in the same ways, and function by function the second is equivalent to the first. */
  ghost predicate Rewritten(sigs: seq<Signature>, prog: Program, prog': Program) {
    && |prog.funcs| == |prog'.funcs| && prog.looked == prog'.looked
    && forall j :: 0 <= j < |prog.funcs| ==> Equivalent(sigs, prog.funcs[j], prog'.funcs[j])
  }

  /** The host that answers any other than a good call with a failure it marks. */
  ghost function Guarded(prog: Program, h: Host, mark: int): Host {
    Host((q: Request, args: seq<Value>, w: World) =>
           if q.Invoke? && !Good(prog, q.callee, args, w) then Err(w.(engine := mark))
           else h.serve(q, args, w),
         h.truth, h.float, h.order)
  }

  lemma {:induction false} GuardedIsHonest(sigs: seq<Signature>, prog: Program, h: Host, mark: int)
    requires HostContract(sigs, h)
    ensures HostContract(sigs, Guarded(prog, h, mark))
  {
    hide Good, Promise;
  }

  ghost predicate Bad(prog: Program, code: seq<Instr>, s: State) {
    s.pc < |code| && code[s.pc].Call? && !Good(prog, code[s.pc].callee, Gather(s.regs, code[s.pc].args), s.w)
  }

  lemma {:induction false} GuardedStep(prog: Program, h: Host, mark: int, code: seq<Instr>, s: State)
    ensures Step(Guarded(prog, h, mark), code, s) ==
      if Bad(prog, code, s) then Failed(s.w.(engine := mark)) else Step(h, code, s)
  {
    hide Good, Gather, IntResult, SwitchTarget, Find;
    if s.pc < |code| {
      GuardedExecute(prog, h, mark, code[s.pc], s.regs, s.w);
    }
  }

  lemma {:induction false} GuardedExecute(prog: Program, h: Host, mark: int, i: Instr, regs: seq<Value>, w: World)
    ensures !i.Call? || Good(prog, i.callee, Gather(regs, i.args), w) ==>
      Execute(Guarded(prog, h, mark), i, regs, w) == Execute(h, i, regs, w)
    ensures i.Call? && !Good(prog, i.callee, Gather(regs, i.args), w) ==>
      Execute(Guarded(prog, h, mark), i, regs, w) == Action(None, w.(engine := mark), Abort)
  {
    hide Good, Gather, IntResult, SwitchTarget;
  }

  /** Under the guard a run goes as before until it is marked. */
  lemma {:induction false} RunGuarded(prog: Program, h: Host, mark: int, code: seq<Instr>, c: Config, n: nat)
    ensures var d := Run(Guarded(prog, h, mark), code, c, n);
      d == Run(h, code, c, n) || (d.Failed? && d.w.engine == mark)
    decreases n
  {
    hide Step, Guarded, Bad;
    if n > 0 && c.Running? {
      GuardedStep(prog, h, mark, code, c.s);
      RunGuarded(prog, h, mark, code, Step(h, code, c.s), n - 1);
    }
  }

  /** A run that makes only good calls does not notice the guard. */
  lemma {:induction false} RunUnguarded(prog: Program, h: Host, mark: int, code: seq<Instr>, s: State, n: nat)
    requires forall k: nat :: Run(h, code, Running(s), k).Running? ==>
      !Bad(prog, code, Run(h, code, Running(s), k).s)
    ensures Run(Guarded(prog, h, mark), code, Running(s), n) == Run(h, code, Running(s), n)
    decreases n
  {
    hide Step, Guarded, Bad;
    if n > 0 {
      assert Run(h, code, Running(s), 0) == Running(s);
      GuardedStep(prog, h, mark, code, s);
      var c := Step(h, code, s);
      if c.Running? {
        forall k: nat | Run(h, code, c, k).Running?
          ensures !Bad(prog, code, Run(h, code, c, k).s)
        {
          assert Run(h, code, Running(s), k + 1) == Run(h, code, c, k);
        }
        RunUnguarded(prog, h, mark, code, c.s, n - 1);
      }
    }
  }

  lemma {:induction false} EndsOnce(h: Host, code: seq<Instr>, s: State, o: Config, o': Config)
    requires !o.Running? && !o'.Running? && Ends(h, code, s, o) && Ends(h, code, s, o')
    ensures o == o'
  {
    hide Step;
    var n: nat :| Run(h, code, Running(s), n) == o;
    var m: nat :| Run(h, code, Running(s), m) == o';
    RunSplit(h, code, Running(s), n, m);
    RunSplit(h, code, Running(s), m, n);
  }

  /** A bad call in a run of an equivalent function would show in the function itself, with any mark. */
  lemma {:induction false} MarkShows(sigs: seq<Signature>, prog: Program, j: nat, g: Function, h: Host,
                                     args: seq<Value>, w: World, n: nat, mark: int) returns (marked: World)
    requires j < |prog.funcs| && Equivalent(sigs, prog.funcs[j], g) && Behaves(sigs, prog, j) && HostContract(sigs, h)
    requires Conforms(prog.funcs[j], args) && Tagged(w.globals)
    requires var c := Run(h, g.code, Running(Entry(g, args, w)), n); c.Running? && Bad(prog, g.code, c.s)
    ensures marked.engine == mark && Ends(h, prog.funcs[j].code, Entry(prog.funcs[j], args, w), Failed(marked))
  {
    hide Step, Guarded, Bad, Verified, WordSized, EndsInTerminator, HostContract, Conforms, Tagged, Proper, Entry;
    var f, s, s' := prog.funcs[j], Entry(prog.funcs[j], args, w), Entry(g, args, w);
    var guarded := Guarded(prog, h, mark);
    GuardedIsHonest(sigs, prog, h, mark);
    marked := MarkedEnd(prog, h, mark, g.code, s', n);
    assert SameMeaning(guarded, f.code, s, g.code, s');
    assert Ends(guarded, f.code, s, Failed(marked));
    var m: nat :| Run(guarded, f.code, Running(s), m) == Failed(marked);
    assert RunsProperly(sigs, prog, j, h, args, w);
    ProperIsNotBad(sigs, prog, j, h, args, w);
    RunUnguarded(prog, h, mark, f.code, s, m);
  }

  lemma {:induction false} ProperIsNotBad(sigs: seq<Signature>, prog: Program, j: nat, h: Host, args: seq<Value>,
                                          w: World)
    requires j < |prog.funcs| && RunsProperly(sigs, prog, j, h, args, w)
    ensures var f := prog.funcs[j];
      forall k: nat :: Run(h, f.code, Running(Entry(f, args, w)), k).Running? ==>
        !Bad(prog, f.code, Run(h, f.code, Running(Entry(f, args, w)), k).s)
  {
    hide Run, Entry, Good, Gather;
  }

  lemma {:induction false} MarkedEnd(prog: Program, h: Host, mark: int, code: seq<Instr>, s: State, n: nat)
    returns (marked: World)
    requires var c := Run(h, code, Running(s), n); c.Running? && Bad(prog, code, c.s)
    ensures marked.engine == mark && Ends(Guarded(prog, h, mark), code, s, Failed(marked))
  {
    hide Step, Guarded, Bad;
    var guarded := Guarded(prog, h, mark);
    RunGuarded(prog, h, mark, code, Running(s), n);
    var d := Run(guarded, code, Running(s), n);
    if d.Failed? {
      marked := d.w;
    } else {
      GuardedStep(prog, h, mark, code, d.s);
      RunSplit(guarded, code, Running(s), n, 1);
      marked := d.s.w.(engine := mark);
      assert Run(guarded, code, d, 1) == Failed(marked);
      assert Run(guarded, code, Running(s), n + 1) == Failed(marked);
    }
  }

  lemma {:induction false} GoodInBoth(sigs: seq<Signature>, prog: Program, prog': Program, callee: nat,
                                      args: seq<Value>, w: World)
    requires Rewritten(sigs, prog, prog')
    ensures Good(prog, callee, args, w) <==> Good(prog', callee, args, w)
  {
    hide Equivalent;
    if callee < |prog.funcs| {
      EquivalentIsVerified(sigs, prog.funcs[callee], prog'.funcs[callee]);
    }
  }

  lemma {:induction false} RewrittenRunsProperly(sigs: seq<Signature>, prog: Program, prog': Program, j: nat, h: Host,
                                                 args: seq<Value>, w: World, n: nat)
    requires Rewritten(sigs, prog, prog') && j < |prog'.funcs| && Behaves(sigs, prog, j) && HostContract(sigs, h)
    requires Conforms(prog'.funcs[j], args) && Tagged(w.globals)
    ensures Proper(sigs, prog', j, Run(h, prog'.funcs[j].code, Running(Entry(prog'.funcs[j], args, w)), n))
  {
    hide Run, Verified, WordSized, EndsInTerminator, HostContract, Tagged, Entry, Good, Gather, Returns;
    var f, g := prog.funcs[j], prog'.funcs[j];
    assert Equivalent(sigs, f, g) && Conforms(f, args);
    var c := Run(h, g.code, Running(Entry(g, args, w)), n);
    if c.Running? {
      if Bad(prog, g.code, c.s) {
        var w0 := MarkShows(sigs, prog, j, g, h, args, w, n, 0);
        var w1 := MarkShows(sigs, prog, j, g, h, args, w, n, 1);
        EndsOnce(h, f.code, Entry(f, args, w), Failed(w0), Failed(w1));
        assert false;
      }
      if c.s.pc < |g.code| && g.code[c.s.pc].Call? {
        GoodInBoth(sigs, prog, prog', g.code[c.s.pc].callee, Gather(c.s.regs, g.code[c.s.pc].args), c.s.w);
      }
    } else {
      assert Ends(h, g.code, Entry(g, args, w), c);
      assert SameMeaning(h, f.code, Entry(f, args, w), g.code, Entry(g, args, w));
      var m: nat :| Run(h, f.code, Running(Entry(f, args, w)), m) == c;
      assert RunsProperly(sigs, prog, j, h, args, w);
      assert Proper(sigs, prog, j, c);
    }
  }

  /**
   Equivalence is stated about results, worlds and failures alone, yet the rewritten program too
   makes only good calls: a host could otherwise tell the two apart.
   */
  lemma {:induction false} RewrittenIsSound(sigs: seq<Signature>, prog: Program, prog': Program)
    requires Rewritten(sigs, prog, prog') && Sound(sigs, prog)
    ensures Sound(sigs, prog')
  {
    hide Rewritten, HostContract, Conforms, Tagged, Proper, Run;
    assert |prog.funcs| == |prog'.funcs| by { RewrittenSizes(sigs, prog, prog'); }
    forall j, h: Host, args: seq<Value>, w: World, n: nat | 0 <= j < |prog'.funcs| && HostContract(sigs, h) &&
      Conforms(prog'.funcs[j], args) && Tagged(w.globals)
      ensures Proper(sigs, prog', j, Run(h, prog'.funcs[j].code, Running(Entry(prog'.funcs[j], args, w)), n))
    {
      assert Behaves(sigs, prog, j);
      RewrittenRunsProperly(sigs, prog, prog', j, h, args, w, n);
    }
  }

  lemma {:induction false} RewrittenSizes(sigs: seq<Signature>, prog: Program, prog': Program)
    requires Rewritten(sigs, prog, prog')
    ensures |prog.funcs| == |prog'.funcs|
  {
    hide Equivalent;
  }
}
