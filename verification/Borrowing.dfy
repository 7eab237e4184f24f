/**
 What borrowing rests on. A borrowed argument is not copied: it stays in a global or in a register
 of a waiting caller, and what it holds must not change while the function runs. It does not, for
 functions the closure calls safe, up to one thing the scan does not look at: a CALL converts its
 arguments on entry, and a conversion to String may run a script.
 */
module Borrowing {
  import opened Options
  import opened Ir
  import opened Machine
  import opened TypeFlow
  import opened TypeSoundness
  import opened Rewrites
  import opened Backend
  import opened Programs
  import opened Linking
  import opened BorrowSafety

  function TagsOf(regs: seq<Value>): seq<int> {
    seq(|regs|, r requires 0 <= r < |regs| => regs[r].tag)
  }

  /**
   What the scan takes for granted about the engine: what it lets pass, judged by the tags at
   hand, changes no global, and neither does a conversion to a type other than String.
   */
  ghost predicate Discreet(t: Table, h: Host) {
    && (forall i: Instr, regs: seq<Value>, w: World :: !i.Call? && !Unsafe(t, i, TagsOf(regs)) ==>
          Execute(h, i, regs, w).w.globals == w.globals)
    && (forall k: int, v: Value, w: World :: k != STRING ==> h.serve(CoerceTo(k), [v], w).w.globals == w.globals)
  }

  /** With the proven tags, what the scan let pass is what the engine's promise covers. */
  lemma {:induction false} ScannedIsCovered(t: Table, h: Host, f: Function, known: seq<int>, s: State)
    requires !LocallyUnsafe(t, f, known) && s.pc < |f.code| && HasProvenTags(h, f, known, s)
    ensures !Unsafe(t, f.code[s.pc], TagsOf(s.regs))
  {
    hide Execute;
    var i := f.code[s.pc];
    assert !Unsafe(t, i, known);
    if i.HostOp? && i.kind.Method? {
      assert i.args[0] in Reads(i);
    }
  }

  /** The arguments an entry would have to convert to String are Strings already. */
  ghost predicate QuietArgs(f: Function, looked: set<Reg>, args: seq<Value>) {
    |args| == |f.params| ==>
      forall k :: 0 <= k < |args| && k in looked && f.params[k] == {STRING} ==> args[k].tag == STRING
  }

  lemma {:induction false} AdmitOneQuiet(t: Table, h: Host, f: Function, looked: set<Reg>, args: seq<Value>, w: World,
                                         k: nat)
    requires Discreet(t, h) && QuietArgs(f, looked, args) && k < |args| == |f.params|
    ensures AdmitOne(h, f, looked, args, w, k).w.globals == w.globals
  {
    hide Unsafe, Execute;
  }

  lemma {:induction false} AdmitQuiet(t: Table, h: Host, f: Function, looked: set<Reg>, args: seq<Value>, w: World,
                                      done: seq<Value>)
    requires Discreet(t, h) && QuietArgs(f, looked, args) && |done| <= |args| == |f.params|
    ensures Admit(h, f, looked, args, w, done).w.globals == w.globals
    decreases |args| - |done|
  {
    hide Discreet, QuietArgs, AdmitOne;
    if |done| < |args| {
      AdmitOneQuiet(t, h, f, looked, args, w, |done|);
      var a := AdmitOne(h, f, looked, args, w, |done|);
      if a.out.Some? {
        AdmitQuiet(t, h, f, looked, args, a.w, done + [a.out.value]);
      }
    }
  }

  lemma {:induction false} EnterQuiet(t: Table, h: Host, f: Function, looked: set<Reg>, args: seq<Value>, w: World)
    requires Discreet(t, h) && QuietArgs(f, looked, args)
    ensures Enter(h, f, looked, args, w).w.globals == w.globals
  {
    hide Discreet, QuietArgs, Admit;
    if |args| == |f.params| {
      AdmitQuiet(t, h, f, looked, args, w, []);
    }
  }

  /** Every call instruction of the function passes proven Strings where the callee's entry would convert to String. */
  ghost predicate StringsProven(prog: Program, known: seq<int>, j: nat)
    requires j < |prog.funcs|
  {
    var code := prog.funcs[j].code;
    forall at, k :: 0 <= at < |code| && code[at].Call? && 0 <= k < |code[at].args| ==>
      ArgumentProven(prog, known, code[at].callee, code[at].args, k)
  }

  ghost predicate ArgumentProven(prog: Program, known: seq<int>, callee: nat, args: seq<Reg>, k: nat)
    requires k < |args|
  {
    callee < |prog.funcs| && |args| == |prog.funcs[callee].params| && k in Looked(prog, callee) ==>
      prog.funcs[callee].params[k] == {STRING} ==> KindOf(known, args[k]) == STRING
  }

  lemma {:induction false} ProvenCallIsQuiet(prog: Program, h: Host, known: seq<int>, j: nat, s: State)
    requires j < |prog.funcs| && StringsProven(prog, known, j) && s.pc < |prog.funcs[j].code|
    requires prog.funcs[j].code[s.pc].Call? && HasProvenTags(h, prog.funcs[j], known, s)
    ensures var i := prog.funcs[j].code[s.pc];
      i.callee < |prog.funcs| ==>
        QuietArgs(prog.funcs[i.callee], Looked(prog, i.callee), Gather(s.regs, i.args))
  {
    hide Gather, Execute;
    var i := prog.funcs[j].code[s.pc];
    GatherAt(s.regs, i.args);
    if i.callee < |prog.funcs| && |i.args| == |prog.funcs[i.callee].params| {
      forall k | 0 <= k < |i.args| && k in Looked(prog, i.callee) && prog.funcs[i.callee].params[k] == {STRING}
        ensures Gather(s.regs, i.args)[k].tag == STRING
      {
        assert ArgumentProven(prog, known, i.callee, i.args, k);
        assert i.args[k] in Reads(i);
      }
    }
  }

  /** A function of the program that the closure calls safe. */
  ghost predicate Borrows(t: Table, prog: Program, kinds: seq<seq<int>>, j: nat)
    requires |kinds| == |prog.funcs|
  {
    j < |prog.funcs| && !ReachesUnsafe(t, prog.funcs, kinds, j)
  }

  /** The program, its kinds, and the engine, as the borrowing theorem needs them. */
  ghost predicate Borrowing(sigs: seq<Signature>, t: Table, prog: Program, kinds: seq<seq<int>>) {
    && Sound(sigs, prog) && Analysed(sigs, prog.funcs, kinds)
    && (forall j :: 0 <= j < |prog.funcs| ==> Verified(prog.funcs[j]))
    && (forall j: nat :: Borrows(t, prog, kinds, j) ==> StringsProven(prog, kinds[j], j))
  }

  lemma {:induction false} CalleeBorrows(t: Table, prog: Program, kinds: seq<seq<int>>, fr: Frame)
    requires |kinds| == |prog.funcs| && Borrows(t, prog, kinds, fr.fn) && AtCall(prog, fr)
    requires CallOf(prog, fr).callee < |prog.funcs|
    ensures Borrows(t, prog, kinds, CallOf(prog, fr).callee)
  {
    hide ReachesUnsafe;
    var k := CallOf(prog, fr).callee;
    assert Calls(prog.funcs, fr.fn, k);
    if ReachesUnsafe(t, prog.funcs, kinds, k) {
      CallerReaches(t, prog.funcs, kinds, fr.fn, k);
    }
  }

  lemma {:induction false} BorrowsIsScanned(t: Table, prog: Program, kinds: seq<seq<int>>, j: nat)
    requires |kinds| == |prog.funcs| && Borrows(t, prog, kinds, j)
    ensures !LocallyUnsafe(t, prog.funcs[j], kinds[j])
  {
    hide ReachesUnsafe, LocallyUnsafe;
    LocalIsReachable(t, prog.funcs, kinds);
    if UnsafeAt(t, prog.funcs, kinds, j) {
      assert false;
    }
  }

  /** What a run of safe functions keeps. */
  ghost predicate Undisturbed(t: Table, prog: Program, kinds: seq<seq<int>>, c: Stack, globals: seq<Value>)
    requires |kinds| == |prog.funcs|
  {
    match c
    case Live(frames, w) =>
      w.globals == globals && frames != [] && forall i :: 0 <= i < |frames| ==> Borrows(t, prog, kinds, frames[i].fn)
    case Over(o) => !o.Running? && o.w.globals == globals
  }

  lemma {:induction false} StepUndisturbed(sigs: seq<Signature>, t: Table, prog: Program, kinds: seq<seq<int>>, h: Host,
                                           depth: nat, fr: Frame, from: Origin)
    requires Borrowing(sigs, t, prog, kinds) && HostContract(sigs, h) && Discreet(t, h)
    requires OnRun(prog, h, depth, fr, from) && Borrows(t, prog, kinds, fr.fn) && !AtCall(prog, fr)
    ensures var o := Step(h, prog.funcs[fr.fn].code, StateOf(fr, from.w));
      if o.Running? then o.s.w.globals == from.w.globals else o.w.globals == from.w.globals
  {
    hide Sound, HostContract, Verified, Reports, StringsProven, Borrows, OnRun, Unsafe, Execute, LocallyUnsafe,
      HasProvenTags, Linked, SameEngine, Find, Commit;
    BorrowsIsKnown(t, prog, kinds, fr.fn);
    var f, s := prog.funcs[fr.fn], StateOf(fr, from.w);
    if s.pc < |f.code| {
      FrameHasKinds(sigs, prog, h, depth, fr, from, kinds[fr.fn]);
      BorrowsIsScanned(t, prog, kinds, fr.fn);
      ScannedIsCovered(t, Linked(prog, h, depth), f, kinds[fr.fn], s);
      assert Execute(h, f.code[s.pc], s.regs, s.w).w.globals == s.w.globals;
    }
  }

  lemma {:induction false} CallUndisturbed(sigs: seq<Signature>, t: Table, prog: Program, kinds: seq<seq<int>>, h: Host,
                                           depth: nat, fr: Frame, from: Origin)
    requires Borrowing(sigs, t, prog, kinds) && HostContract(sigs, h) && Discreet(t, h)
    requires OnRun(prog, h, depth, fr, from) && Borrows(t, prog, kinds, fr.fn) && AtCall(prog, fr)
    requires CallOf(prog, fr).callee < |prog.funcs|
    ensures var i := CallOf(prog, fr);
      var e := Enter(h, prog.funcs[i.callee], Looked(prog, i.callee), Gather(fr.regs, i.args), from.w);
      e.w.globals == from.w.globals
  {
    hide Sound, HostContract, Verified, Reports, StringsProven, Borrows, OnRun, Discreet, HasProvenTags, Linked, Gather,
      Enter, QuietArgs;
    var i := CallOf(prog, fr);
    FrameHasKinds(sigs, prog, h, depth, fr, from, kinds[fr.fn]);
    ProvenCallIsQuiet(prog, Linked(prog, h, depth), kinds[fr.fn], fr.fn, StateOf(fr, from.w));
    EnterQuiet(t, h, prog.funcs[i.callee], Looked(prog, i.callee), Gather(fr.regs, i.args), from.w);
  }

  lemma {:induction false} AdvanceUndisturbed(sigs: seq<Signature>, t: Table, prog: Program, kinds: seq<seq<int>>,
                                              h: Host, depth: nat, frames: seq<Frame>, w: World, from: seq<Origin>)
    requires Borrowing(sigs, t, prog, kinds) && HostContract(sigs, h) && Discreet(t, h)
    requires |kinds| == |prog.funcs|
    requires Traces(prog, h, depth, frames, w, from) && Undisturbed(t, prog, kinds, Live(frames, w), w.globals)
    ensures Undisturbed(t, prog, kinds, Advance(h, prog, Live(frames, w)), w.globals)
  {
    hide Borrowing, HostContract, Discreet, OnRun, Waits, Borrows, Step, Enter, Gather;
    BorrowingIsSound(sigs, t, prog, kinds);
    var k := |frames| - 1;
    var fr, below := frames[k], frames[..k];
    assert frames == below + [fr];
    assert OnRun(prog, h, depth - k, frames[k], from[k]) && Borrows(t, prog, kinds, frames[k].fn);
    BorrowsIsKnown(t, prog, kinds, fr.fn);
    if AtCall(prog, fr) {
      if CallOf(prog, fr).callee < |prog.funcs| {
        CallUndisturbed(sigs, t, prog, kinds, h, depth - k, fr, from[k]);
        CalleeBorrows(t, prog, kinds, fr);
        AdvanceCall(h, prog, below, fr, w);
      }
    } else {
      StepUndisturbed(sigs, t, prog, kinds, h, depth - k, fr, from[k]);
      AdvanceStep(h, prog, below, fr, w);
    }
  }

  lemma {:induction false} BorrowsIsKnown(t: Table, prog: Program, kinds: seq<seq<int>>, j: nat)
    requires |kinds| == |prog.funcs| && Borrows(t, prog, kinds, j)
    ensures j < |prog.funcs|
  {
  }

  /**
   Borrowing is sound: from the moment the body of a safe function starts, through every step of
   it and of everything it calls, until its outcome, no global changes.
   */
  lemma {:induction false} SafeRunKeepsGlobals(sigs: seq<Signature>, t: Table, prog: Program, kinds: seq<seq<int>>,
                                               h: Host, j: nat, vs: seq<Value>, w: World, n: nat)
    requires Borrowing(sigs, t, prog, kinds) && HostContract(sigs, h) && Discreet(t, h)
    requires |kinds| == |prog.funcs| && Borrows(t, prog, kinds, j) && Conforms(prog.funcs[j], vs) && Tagged(w.globals)
    ensures Undisturbed(t, prog, kinds, RunStack(h, prog, Live([First(prog, j, vs, w)], w), n), w.globals)
    decreases n
  {
    hide Borrowing, HostContract, Discreet, Borrows, Conforms, Tagged, Advance, Traces;
    BorrowsIsKnown(t, prog, kinds, j);
    var start := Live([First(prog, j, vs, w)], w);
    if n > 0 {
      SafeRunKeepsGlobals(sigs, t, prog, kinds, h, j, vs, w, n - 1);
      RunStackSplit(h, prog, start, n - 1, 1);
      var c := RunStack(h, prog, start, n - 1);
      if c.Live? {
        OneStep(h, prog, c);
        BorrowingIsSound(sigs, t, prog, kinds);
        var frames, from := RunTraces(sigs, prog, h, n - 1, j, vs, w, n - 1);
        AdvanceUndisturbed(sigs, t, prog, kinds, h, n - 1, frames, c.w, from);
      }
    }
  }

  lemma {:induction false} BorrowingIsSound(sigs: seq<Signature>, t: Table, prog: Program, kinds: seq<seq<int>>)
    requires Borrowing(sigs, t, prog, kinds)
    ensures Sound(sigs, prog) && |kinds| == |prog.funcs|
  {
    hide Sound, Reports;
  }

  // ----- the slots an argument pointer can point to -----

  /** A slot outside the call: a global, or a register of a frame that waits. */
  datatype Place = Global(g: nat) | Register(i: nat, r: Reg)

  function Content(c: Stack, at: Place): Value
    requires c.Live?
  {
    match at
    case Global(g) => At(c.w.globals, g)
    case Register(i, r) => if i < |c.frames| then At(c.frames[i].regs, r) else NIL_VALUE
  }

  lemma {:induction false} AdvanceOnTop(h: Host, prog: Program, below: seq<Frame>, frames: seq<Frame>, w: World)
    requires frames != [] && Advance(h, prog, Live(frames, w)).Live?
    ensures var d := Advance(h, prog, Live(frames, w));
      d.frames != [] && Advance(h, prog, Live(below + frames, w)) == Live(below + d.frames, d.w)
  {
    hide Step, Enter, Gather, Entry, Put;
    var k := |frames| - 1;
    var all, fr, rest := below + frames, frames[k], frames[..k];
    assert all[|all| - 1] == fr && all[..|all| - 1] == below + rest && all == (below + rest) + [fr];
    if rest != [] {
      var under := below + rest;
      assert under[|under| - 1] == rest[k - 1] && under[..|under| - 1] == below + rest[..k - 1];
    }
  }

  /** Until it returns, a call leaves the frames below it alone and goes as it would by itself. */
  lemma {:induction false} RunOnTop(h: Host, prog: Program, below: seq<Frame>, frames: seq<Frame>, w: World, n: nat)
    requires frames != [] && RunStack(h, prog, Live(frames, w), n).Live?
    ensures var c := RunStack(h, prog, Live(frames, w), n);
      RunStack(h, prog, Live(below + frames, w), n) == Live(below + c.frames, c.w)
    decreases n
  {
    hide Advance;
    if n > 0 {
      var d := Advance(h, prog, Live(frames, w));
      assert d.Live?;
      AdvanceOnTop(h, prog, below, frames, w);
      RunOnTop(h, prog, below, d.frames, d.w, n - 1);
    }
  }

  /**
   A borrowed argument keeps its value: while a safe function runs on top of waiting frames, every
   global and every register of those frames holds what it held when the body started.
   */
  lemma {:induction false} BorrowedKeepsItsValue(sigs: seq<Signature>, t: Table, prog: Program, kinds: seq<seq<int>>,
                                                 h: Host, below: seq<Frame>, j: nat, vs: seq<Value>, w: World, n: nat,
                                                 at: Place)
    requires Borrowing(sigs, t, prog, kinds) && HostContract(sigs, h) && Discreet(t, h)
    requires |kinds| == |prog.funcs| && Borrows(t, prog, kinds, j) && Conforms(prog.funcs[j], vs) && Tagged(w.globals)
    requires RunStack(h, prog, Live([First(prog, j, vs, w)], w), n).Live? && (at.Register? ==> at.i < |below|)
    ensures var start := Live(below + [First(prog, j, vs, w)], w);
      var c := RunStack(h, prog, start, n);
      c.Live? && Content(c, at) == Content(start, at)
  {
    hide Borrowing, HostContract, Discreet, Borrows, Conforms, Tagged, RunStack, First;
    BorrowsIsKnown(t, prog, kinds, j);
    SafeRunKeepsGlobals(sigs, t, prog, kinds, h, j, vs, w, n);
    RunOnTop(h, prog, below, [First(prog, j, vs, w)], w, n);
  }

  // ----- what the scan does not look at: conversions on entry -----

  /** The opcode table calls STORE_GLOBAL effectful. */
  ghost predicate TableFits(t: Table) {
    forall g: nat, s: Reg :: t.effectful(StoreGlobal(g, s))
  }

  /** Answers as promised, and runs a script when it converts to String: the first global changes. */
  ghost function ConvertingHost(sigs: seq<Signature>): Host {
    Host(
      (q: Request, args: seq<Value>, w: World) =>
        if q == CoerceTo(STRING) && w.globals != []
        then Ok(Value(STRING, 0), w.(globals := w.globals[0 := Value(INT, 1)]))
        else ObligingHost(sigs).serve(q, args, w),
      ObligingHost(sigs).truth, ObligingHost(sigs).float, ObligingHost(sigs).order)
  }

  lemma {:induction false} ConvertingHostIsHonest(sigs: seq<Signature>)
    ensures HostContract(sigs, ConvertingHost(sigs))
  {
    hide ObligingHost, Promise;
    ObligingHostIsHonest(sigs);
    forall q: Request, args: seq<Value>, w: World | Tagged(w.globals)
      ensures Honest(sigs, q, args, ConvertingHost(sigs).serve(q, args, w))
    {
      if q == CoerceTo(STRING) {
        assert Promise(sigs, q, args) == {STRING} by { StringPromise(sigs, args); }
      }
      Asked(sigs, ObligingHost(sigs), q, args, w);
    }
  }

  lemma {:induction false} StringPromise(sigs: seq<Signature>, args: seq<Value>)
    ensures Promise(sigs, CoerceTo(STRING), args) == {STRING}
  {
  }

  lemma {:induction false} ConvertingHostIsDiscreet(sigs: seq<Signature>, t: Table)
    requires TableFits(t)
    ensures Discreet(t, ConvertingHost(sigs))
  {
    forall i: Instr, regs: seq<Value>, w: World | !i.Call? && !Unsafe(t, i, TagsOf(regs))
      ensures Execute(ConvertingHost(sigs), i, regs, w).w.globals == w.globals
    {
      ConvertingExecutes(sigs, t, i, regs, w);
    }
  }

  lemma {:induction false} ConvertingExecutes(sigs: seq<Signature>, t: Table, i: Instr, regs: seq<Value>, w: World)
    requires TableFits(t) && !Unsafe(t, i, TagsOf(regs))
    ensures Execute(ConvertingHost(sigs), i, regs, w).w.globals == w.globals
  {
    hide Gather, IntResult, SwitchTarget, PromisedTag;
  }

  lemma {:induction false} ConvertingAdmitsOne(sigs: seq<Signature>, f: Function, looked: set<Reg>, args: seq<Value>,
                                               w: World, k: nat)
    requires k < |args| == |f.params| && w.globals != []
    ensures var a := AdmitOne(ConvertingHost(sigs), f, looked, args, w, k);
      && a.out.Some? && a.w.globals != []
      && (a.w.globals == w.globals || a.w.globals[0] == Value(INT, 1))
      && (k in looked && f.params[k] == {STRING} && args[k].tag != STRING ==> a.w.globals[0] == Value(INT, 1))
  {
    hide PromisedTag;
    var c := CheckedTag(f.params[k]);
    if f.params[k] == {STRING} {
      assert c == Some(STRING);
    }
    if c.Some? {
      var tag := PromisedTag(sigs, CoerceTo(c.value), [args[k]]);
      assert c.value in Promise(sigs, CoerceTo(c.value), [args[k]]);
    }
  }

  lemma {:induction false} ConvertingAdmits(sigs: seq<Signature>, f: Function, looked: set<Reg>, args: seq<Value>,
                                            w: World, done: seq<Value>, k: nat)
    requires |done| <= k < |args| == |f.params| && w.globals != [] && k in looked && f.params[k] == {STRING}
    requires args[k].tag != STRING
    ensures var e := Admit(ConvertingHost(sigs), f, looked, args, w, done);
      e.w.globals != [] && e.w.globals[0] == Value(INT, 1)
    decreases k - |done|
  {
    hide AdmitOne, ConvertingHost;
    ConvertingAdmitsOne(sigs, f, looked, args, w, |done|);
    var a := AdmitOne(ConvertingHost(sigs), f, looked, args, w, |done|);
    if |done| < k {
      ConvertingAdmits(sigs, f, looked, args, a.w, done + [a.out.value], k);
    } else {
      ConvertingStays(sigs, f, looked, args, a.w, done + [a.out.value]);
    }
  }

  lemma {:induction false} ConvertingStays(sigs: seq<Signature>, f: Function, looked: set<Reg>, args: seq<Value>,
                                           w: World, done: seq<Value>)
    requires |done| <= |args| == |f.params| && w.globals != [] && w.globals[0] == Value(INT, 1)
    ensures var e := Admit(ConvertingHost(sigs), f, looked, args, w, done);
      e.w.globals != [] && e.w.globals[0] == Value(INT, 1)
    decreases |args| - |done|
  {
    hide AdmitOne, ConvertingHost;
    if |done| < |args| {
      ConvertingAdmitsOne(sigs, f, looked, args, w, |done|);
      var a := AdmitOne(ConvertingHost(sigs), f, looked, args, w, |done|);
      ConvertingStays(sigs, f, looked, args, a.w, done + [a.out.value]);
    }
  }

  /** An entry leaves the globals alone, whatever the engine does, exactly when it need not convert to String. */
  lemma {:induction false} EntryKeepsGlobalsExactly(sigs: seq<Signature>, t: Table, f: Function, looked: set<Reg>,
                                                    args: seq<Value>)
    requires TableFits(t)
    ensures QuietArgs(f, looked, args) <==>
      forall h: Host, w: World :: HostContract(sigs, h) && Discreet(t, h) ==>
        Enter(h, f, looked, args, w).w.globals == w.globals
  {
    hide HostContract, Discreet, Enter, ConvertingHost;
    if QuietArgs(f, looked, args) {
      forall h: Host, w: World | HostContract(sigs, h) && Discreet(t, h)
        ensures Enter(h, f, looked, args, w).w.globals == w.globals
      {
        EnterQuiet(t, h, f, looked, args, w);
      }
    } else {
      ConvertingEnters(sigs, f, looked, args);
      ConvertingHostIsHonest(sigs);
      ConvertingHostIsDiscreet(sigs, t);
    }
  }

  const QUIET_WORLD := World([NIL_VALUE], 0, multiset{})

  lemma {:induction false} ConvertingEnters(sigs: seq<Signature>, f: Function, looked: set<Reg>, args: seq<Value>)
    requires !QuietArgs(f, looked, args)
    ensures Enter(ConvertingHost(sigs), f, looked, args, QUIET_WORLD).w.globals != QUIET_WORLD.globals
  {
    hide ConvertingHost, Admit;
    var k :| 0 <= k < |args| && k in looked && f.params[k] == {STRING} && args[k].tag != STRING;
    ConvertingAdmits(sigs, f, looked, args, QUIET_WORLD, [], k);
  }

  /** Passes what it is given to a function that declares a String. */
  const BORROWER := Function([{}], 1, [Call(1, 0, [0]), Return])
  const STRING_TAKER := Function([{STRING}], 1, [Return])
  const BORROWERS := Program([BORROWER, STRING_TAKER], [{0}, {0}])

  lemma {:induction false} BorrowersAreSafe(t: Table, kinds: seq<seq<int>>)
    requires |kinds| == 2
    ensures !ReachesUnsafe(t, BORROWERS.funcs, kinds, 0) && !ReachesUnsafe(t, BORROWERS.funcs, kinds, 1)
  {
    SafelyPlain(t, kinds[0]);
    SafelyPlain(t, kinds[1]);
    hide LocallyUnsafe;
  }

  lemma {:induction false} SafelyPlain(t: Table, known: seq<int>)
    ensures !LocallyUnsafe(t, BORROWER, known) && !LocallyUnsafe(t, STRING_TAKER, known)
  {
  }

  /** Straight-line code on one register. */
  ghost predicate Plainly(f: Function) {
    && |f.params| == 1 && f.maxRegisters == 1
    && forall i :: i in f.code ==>
      Targets(i) == [] && Reads(i) <= {0} && Writes(i) <= {0} && !i.Label? && !i.Coerce? && Constructs(i)
  }

  lemma {:induction false} BorrowersArePlain()
    ensures Plainly(BORROWER) && Plainly(STRING_TAKER)
  {
  }

  lemma {:induction false} PlainIsWellFormed(f: Function)
    requires Plainly(f)
    ensures WellFormed(f)
  {
    hide Reads, Writes, Targets;
    forall at | 0 <= at < |f.code|
      ensures InRange(f.code[at], 1) && Targets(f.code[at]) == []
    {
      assert f.code[at] in f.code;
    }
  }

  lemma {:induction false} PlainIsVerified(f: Function)
    requires Plainly(f)
    ensures Verified(f)
  {
    hide Reads, Writes, Targets, Edge, WellFormed, Find, Reachable;
    PlainIsWellFormed(f);
    var defined: seq<set<Reg>> := seq(|f.code| + 1, _ => {0});
    forall at | 0 <= at < |f.code|
      ensures Reads(f.code[at]) <= defined[at] && !f.code[at].Coerce?
    {
      assert f.code[at] in f.code;
    }
    assert DefinedBy(f, defined);
  }

  lemma {:induction false} UnknownFlows(f: Function, i: Instr)
    requires Plainly(f) && i in f.code
    ensures Covers([], i, [UNKNOWN], [UNKNOWN]) && Leq(Transfer([], i, [UNKNOWN]), [UNKNOWN])
  {
    hide ResultMask;
    MaskBounded([], i, [UNKNOWN]);
    if Dest(i).Some? {
      assert Dest(i).value == 0;
    }
  }

  lemma {:induction false} BorrowersFlow()
    ensures Flows([], BORROWER, [UNKNOWN], {0, 1}, [[UNKNOWN], [UNKNOWN]])
    ensures Flows([], STRING_TAKER, [UNKNOWN], {0}, [[UNKNOWN]])
  {
    hide Covers, Transfer, Edge, Plainly;
    BorrowersArePlain();
    assert BORROWER.code[0] in BORROWER.code && BORROWER.code[1] in BORROWER.code;
    assert STRING_TAKER.code[0] in STRING_TAKER.code;
    UnknownFlows(BORROWER, BORROWER.code[0]);
    UnknownFlows(BORROWER, BORROWER.code[1]);
    UnknownFlows(STRING_TAKER, STRING_TAKER.code[0]);
  }

  lemma {:induction false} BorrowersFit()
    ensures Fits([], BORROWERS.funcs, 0, {0, 1}, [[UNKNOWN], [UNKNOWN]])
    ensures Fits([], BORROWERS.funcs, 1, {0}, [[UNKNOWN]])
  {
    assert CheckedTag(STRING_TAKER.params[0]).Some?;
  }

  lemma {:induction false} BorrowersAreAccepted()
    ensures AcceptedProgram([], BORROWERS.funcs)
  {
    hide Verified, Flows, Fits, Plainly;
    BorrowersArePlain();
    PlainIsVerified(BORROWER);
    PlainIsVerified(STRING_TAKER);
    BorrowersFlow();
    BorrowersFit();
    BorrowersFitWords();
    hide WordSized, EndsInTerminator;
    assert Accepted([], BORROWERS.funcs, 0);
    assert Accepted([], BORROWERS.funcs, 1);
  }

  lemma {:induction false} BorrowersFitWords()
    ensures forall j :: 0 <= j < 2 ==> WordSized([], BORROWERS.funcs[j]) && EndsInTerminator(BORROWERS.funcs[j].code)
  {
  }

  /** The scan calls this program safe, and yet a global changes in the middle of a call of its first function. */
  lemma {:induction false} SafeCallCanChangeGlobals(t: Table, kinds: seq<seq<int>>)
    requires TableFits(t) && |kinds| == 2
    ensures AcceptedProgram([], BORROWERS.funcs)
    ensures !ReachesUnsafe(t, BORROWERS.funcs, kinds, 0)
    ensures HostContract([], ConvertingHost([])) && Discreet(t, ConvertingHost([]))
    ensures var start := Live([First(BORROWERS, 0, [NIL_VALUE], QUIET_WORLD)], QUIET_WORLD);
      var c := RunStack(ConvertingHost([]), BORROWERS, start, 1);
      c.Live? && |c.frames| == 2 && c.w.globals != QUIET_WORLD.globals
  {
    hide HostContract, Discreet, ConvertingHost, ReachesUnsafe, AcceptedProgram;
    BorrowersAreSafe(t, kinds);
    BorrowersAreAccepted();
    ConvertingHostIsHonest([]);
    ConvertingHostIsDiscreet([], t);
    var h, fr := ConvertingHost([]), First(BORROWERS, 0, [NIL_VALUE], QUIET_WORLD);
    assert Gather(fr.regs, [0]) == [NIL_VALUE];
    ConvertingEnters([], STRING_TAKER, {0}, [NIL_VALUE]);
    ConvertingAdmitsOne([], STRING_TAKER, {0}, [NIL_VALUE], QUIET_WORLD, 0);
    var a := AdmitOne(h, STRING_TAKER, {0}, [NIL_VALUE], QUIET_WORLD, 0);
    assert [] + [a.out.value] == [a.out.value];
    assert Admit(h, STRING_TAKER, {0}, [NIL_VALUE], a.w, [a.out.value]) == Admitted([a.out.value], a.w);
    assert Enter(h, STRING_TAKER, {0}, [NIL_VALUE], QUIET_WORLD).Admitted?;
    OneStep(h, BORROWERS, Live([fr], QUIET_WORLD));
    assert [] + [fr] == [fr];
    AdvanceCall(h, BORROWERS, [], fr, QUIET_WORLD);
  }

  // ----- the premises can be met -----

  const ALONE := Program([STRING_TAKER], [{0}])

  lemma {:induction false} AloneIsSound()
    ensures Sound([], ALONE) && Verified(STRING_TAKER) && Analysable([], ALONE.funcs)
  {
    hide Verified, Flows, Plainly, Sound, WordSized, EndsInTerminator, WellFormed;
    BorrowersArePlain();
    PlainIsVerified(STRING_TAKER);
    PlainIsWellFormed(STRING_TAKER);
    BorrowersFlow();
    BorrowersFitWords();
    assert BORROWERS.funcs[1] == STRING_TAKER;
    assert Fits([], ALONE.funcs, 0, {0}, [[UNKNOWN]]);
    assert Accepted([], ALONE.funcs, 0);
    AcceptedIsSound([], ALONE);
  }

  lemma {:induction false} AloneIsSafe(t: Table, kinds: seq<seq<int>>)
    requires |kinds| == 1
    ensures !ReachesUnsafe(t, ALONE.funcs, kinds, 0)
  {
    SafelyPlain(t, kinds[0]);
    hide LocallyUnsafe;
  }

  /** A function that borrows the String it is given: all that the theorem asks for holds of it. */
  method BorrowAlone(t: Table) returns (safe: seq<bool>, ghost kinds: seq<seq<int>>)
    ensures safe == [true] && |kinds| == |ALONE.funcs|
    ensures Borrowing([], t, ALONE, kinds) && Borrows(t, ALONE, kinds, 0)
  {
    hide ReachesUnsafe, Sound, Verified, Reports, Analysable;
    AloneIsSound();
    safe, kinds := BorrowSafe([], t, ALONE.funcs);
    AloneIsSafe(t, kinds);
  }
}
