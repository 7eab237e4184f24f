/**
 A program's run as a stack of frames, and as functions whose calls a host answers, are the same.
 `Linked` is the host that answers a call with the callee's own outcome, to a given depth; below
 it, and for a callee that never returns, the base host answers. What a stack run does in n steps
 shows at every depth from n on; an outcome that does not come from the base host is the stack
 run's. So what is proved of one function under every honest host carries over to programs.
 */
module Linking {
  import opened Options
  import opened Ir
  import opened Machine
  import opened TypeFlow
  import opened TypeSoundness
  import opened Rewrites
  import opened Programs

  // ----- calls that run the callee -----

  ghost function Outcome(h: Host, f: Function, args: seq<Value>, w: World): (o: Option<Config>)
    ensures o.Some? ==> !o.value.Running? && Ends(h, f.code, Entry(f, args, w), o.value)
    ensures o.None? ==> forall c: Config :: !c.Running? ==> !Ends(h, f.code, Entry(f, args, w), c)
  {
    if c: Config :| !c.Running? && Ends(h, f.code, Entry(f, args, w), c) then Some(c) else None
  }

  lemma {:induction false} OutcomeIs(h: Host, f: Function, args: seq<Value>, w: World, o: Config)
    requires !o.Running? && Ends(h, f.code, Entry(f, args, w), o)
    ensures Outcome(h, f, args, w) == Some(o)
  {
    hide Ends, Entry;
    var c := Outcome(h, f, args, w);
    EndsOnce(h, f.code, Entry(f, args, w), o, c.value);
  }

  function Answer(o: Config): Effect
    requires !o.Running?
  {
    match o
    case Returned(v, w) => Ok(v, w)
    case Failed(w) => Err(w)
  }

  ghost function Called(prog: Program, base: Host, inner: Host, callee: nat, args: seq<Value>, w: World): Effect
    requires callee < |prog.funcs|
  {
    match Enter(base, prog.funcs[callee], Looked(prog, callee), args, w)
    case Refused(w') => Err(w')
    case Admitted(vs, w') =>
      match Outcome(inner, prog.funcs[callee], vs, w')
      case Some(o) => Answer(o)
      case None => base.serve(Invoke(callee), args, w)
  }

  ghost function Through(prog: Program, base: Host, inner: Host, q: Request, args: seq<Value>, w: World): Effect {
    if q.Invoke? && Good(prog, q.callee, args, w) then Called(prog, base, inner, q.callee, args, w)
    else base.serve(q, args, w)
  }

  ghost function Linked(prog: Program, base: Host, depth: nat): Host {
    if depth == 0 then base
    else
      var inner := Linked(prog, base, depth - 1);
      Host((q, args, w) => Through(prog, base, inner, q, args, w), base.truth, base.float, base.order)
  }

  // ----- assume and guarantee, by induction on depth -----

  lemma {:induction false} CalledIsHonest(sigs: seq<Signature>, prog: Program, base: Host, inner: Host, callee: nat,
                                          args: seq<Value>, w: World)
    requires Sound(sigs, prog) && HostContract(sigs, base) && HostContract(sigs, inner) && Good(prog, callee, args, w)
    ensures Honest(sigs, Invoke(callee), args, Called(prog, base, inner, callee, args, w))
  {
    hide HostContract, Conforms, Tagged, Returns, Enter, Outcome, Acceptable, Run;
    var f := prog.funcs[callee];
    Asked(sigs, base, Invoke(callee), args, w);
    EnterConforms(sigs, base, f, Looked(prog, callee), args, w);
    var e := Enter(base, f, Looked(prog, callee), args, w);
    if e.Admitted? {
      var o := Outcome(inner, f, e.args, e.w);
      if o.Some? {
        assert Behaves(sigs, prog, callee);
        assert RunsProperly(sigs, prog, callee, inner, e.args, e.w);
        var n: nat :| Run(inner, f.code, Running(Entry(f, e.args, e.w)), n) == o.value;
        assert Proper(sigs, prog, callee, o.value);
      }
    }
  }

  lemma {:induction false} Asked(sigs: seq<Signature>, h: Host, q: Request, args: seq<Value>, w: World)
    requires HostContract(sigs, h) && Tagged(w.globals)
    ensures Honest(sigs, q, args, h.serve(q, args, w))
  {
    hide Honest, Tagged;
  }

  /** Callees keep what callers assume of them: the linked host is honest at every depth. */
  lemma {:induction false} LinkedIsHonest(sigs: seq<Signature>, prog: Program, base: Host, depth: nat)
    requires Sound(sigs, prog) && HostContract(sigs, base)
    ensures HostContract(sigs, Linked(prog, base, depth))
  {
    hide Sound, Tagged, Honest, Good, Called;
    if depth > 0 {
      LinkedIsHonest(sigs, prog, base, depth - 1);
      var inner := Linked(prog, base, depth - 1);
      forall q: Request, args: seq<Value>, w: World | Tagged(w.globals)
        ensures Honest(sigs, q, args, Linked(prog, base, depth).serve(q, args, w))
      {
        if q.Invoke? && Good(prog, q.callee, args, w) {
          CalledIsHonest(sigs, prog, base, inner, q.callee, args, w);
        }
      }
    }
  }

  // ----- hosts that differ only in how they answer calls -----

  ghost predicate SameEngine(h: Host, h': Host) {
    && h.truth == h'.truth && h.float == h'.float && h.order == h'.order
    && forall q: Request, args: seq<Value>, w: World :: !q.Invoke? ==> h.serve(q, args, w) == h'.serve(q, args, w)
  }

  lemma {:induction false} ExecuteSame(h: Host, h': Host, i: Instr, regs: seq<Value>, w: World)
    requires SameEngine(h, h') && !i.Call?
    ensures Execute(h, i, regs, w) == Execute(h', i, regs, w)
  {
    hide IntResult, SwitchTarget, Gather;
  }

  lemma {:induction false} StepSame(h: Host, h': Host, code: seq<Instr>, s: State)
    requires SameEngine(h, h') && (s.pc < |code| ==> !code[s.pc].Call?)
    ensures Step(h, code, s) == Step(h', code, s)
  {
    hide Execute, Find, SameEngine;
    if s.pc < |code| {
      ExecuteSame(h, h', code[s.pc], s.regs, s.w);
    }
  }

  lemma {:induction false} AdmitSame(h: Host, h': Host, f: Function, looked: set<Reg>, args: seq<Value>, w: World,
                                     done: seq<Value>)
    requires SameEngine(h, h') && |done| <= |args| == |f.params|
    ensures Admit(h, f, looked, args, w, done) == Admit(h', f, looked, args, w, done)
    decreases |args| - |done|
  {
    if |done| < |args| {
      var a := AdmitOne(h, f, looked, args, w, |done|);
      assert a == AdmitOne(h', f, looked, args, w, |done|);
      if a.out.Some? {
        AdmitSame(h, h', f, looked, args, a.w, done + [a.out.value]);
      }
    }
  }

  lemma {:induction false} EnterSame(h: Host, h': Host, f: Function, looked: set<Reg>, args: seq<Value>, w: World)
    requires SameEngine(h, h')
    ensures Enter(h, f, looked, args, w) == Enter(h', f, looked, args, w)
  {
    hide Admit, SameEngine;
    if |args| == |f.params| {
      AdmitSame(h, h', f, looked, args, w, []);
    }
  }

  lemma {:induction false} LinkedEngine(prog: Program, base: Host, depth: nat)
    ensures SameEngine(base, Linked(prog, base, depth))
  {
  }

  lemma {:induction false} AdvanceSame(h: Host, h': Host, prog: Program, c: Stack)
    requires SameEngine(h, h')
    ensures Advance(h, prog, c) == Advance(h', prog, c)
  {
    hide SameEngine, Enter, Step, Gather;
    if c.Live? && c.frames != [] && c.frames[|c.frames| - 1].fn < |prog.funcs| {
      var top := c.frames[|c.frames| - 1];
      if AtCall(prog, top) {
        var i := CallOf(prog, top);
        if i.callee < |prog.funcs| {
          EnterSame(h, h', prog.funcs[i.callee], Looked(prog, i.callee), Gather(top.regs, i.args), c.w);
        }
      } else {
        StepSame(h, h', prog.funcs[top.fn].code, State(top.pc, top.regs, c.w));
      }
    }
  }

  /** How calls would be answered is of no concern to a stack run: it answers them itself. */
  lemma {:induction false} RunStackSame(h: Host, h': Host, prog: Program, c: Stack, n: nat)
    requires SameEngine(h, h')
    ensures RunStack(h, prog, c, n) == RunStack(h', prog, c, n)
    decreases n
  {
    hide SameEngine, Advance;
    if n > 0 && c.Live? {
      AdvanceSame(h, h', prog, c);
      RunStackSame(h, h', prog, Advance(h, prog, c), n - 1);
    }
  }

  // ----- a stack run shows in the linked hosts -----

  /** How a frame came to be: the admitted arguments, the world on entry, the steps since and the world now. */
  datatype Origin = Origin(args: seq<Value>, w0: World, steps: nat, w: World)

  function StateOf(fr: Frame, w: World): State {
    State(fr.pc, fr.regs, w)
  }

  /** The frame is where its function is after that many steps when a host answers its calls. */
  ghost predicate OnRun(prog: Program, base: Host, depth: nat, fr: Frame, from: Origin) {
    && fr.fn < |prog.funcs|
    && var f := prog.funcs[fr.fn];
    && Conforms(f, from.args) && Tagged(from.w0.globals)
    && Run(Linked(prog, base, depth), f.code, Running(Entry(f, from.args, from.w0)), from.steps) ==
       Running(StateOf(fr, from.w))
  }

  /** The frame waits for a call of `callee` that was entered as `entered`. */
  ghost predicate Waits(prog: Program, base: Host, fr: Frame, w: World, callee: nat, entered: Origin) {
    && AtCall(prog, fr) && CallOf(prog, fr).callee == callee < |prog.funcs|
    && var args := Gather(fr.regs, CallOf(prog, fr).args);
    && Good(prog, callee, args, w)
    && Enter(base, prog.funcs[callee], Looked(prog, callee), args, w) == Admitted(entered.args, entered.w0)
  }

  ghost predicate Traces(prog: Program, base: Host, depth: nat, frames: seq<Frame>, w: World, from: seq<Origin>) {
    && |from| == |frames| > 0 && |frames| <= depth + 1
    && from[|from| - 1].w == w
    && (forall i :: 0 <= i < |frames| ==> OnRun(prog, base, depth - i, frames[i], from[i]))
    && (forall i :: 0 <= i < |frames| - 1 ==>
          Waits(prog, base, frames[i], from[i].w, frames[i + 1].fn, from[i + 1]))
  }

  ghost predicate SameRoot(frames: seq<Frame>, from: seq<Origin>, frames': seq<Frame>, from': seq<Origin>) {
    && |frames| == |from| > 0 && |frames'| == |from'| > 0
    && frames[0].fn == frames'[0].fn && from[0].args == from'[0].args && from[0].w0 == from'[0].w0
  }

  /** What the linked host answers the waiting frame. */
  lemma {:induction false} WaitingStep(prog: Program, base: Host, depth: nat, fr: Frame, w: World, callee: nat,
                                       entered: Origin, o: Config)
    requires Waits(prog, base, fr, w, callee, entered) && !o.Running?
    requires var g := prog.funcs[callee]; Ends(Linked(prog, base, depth), g.code, Entry(g, entered.args, entered.w0), o)
    ensures Execute(Linked(prog, base, depth + 1), CallOf(prog, fr), fr.regs, w) == Served(Answer(o))
    ensures Step(Linked(prog, base, depth + 1), prog.funcs[fr.fn].code, StateOf(fr, w)) ==
      match o
      case Returned(v, w') => Running(State(fr.pc + 1, Put(fr.regs, CallOf(prog, fr).d, v), w'))
      case Failed(w') => Failed(w')
  {
    hide Ends, Entry, Enter, Good, Gather, Outcome, IntResult, SwitchTarget;
    OutcomeIs(Linked(prog, base, depth), prog.funcs[callee], entered.args, entered.w0, o);
    ServedCall(prog, base, depth, callee, Gather(fr.regs, CallOf(prog, fr).args), w);
  }

  lemma {:induction false} ServedCall(prog: Program, base: Host, depth: nat, callee: nat, args: seq<Value>, w: World)
    requires Good(prog, callee, args, w)
    ensures Linked(prog, base, depth + 1).serve(Invoke(callee), args, w) ==
      Called(prog, base, Linked(prog, base, depth), callee, args, w)
  {
    hide Good, Called;
    var inner := Linked(prog, base, depth + 1 - 1);
    assert Linked(prog, base, depth + 1).serve(Invoke(callee), args, w) ==
      Through(prog, base, inner, Invoke(callee), args, w);
  }

  lemma {:induction false} EndsNext(h: Host, code: seq<Instr>, s: State, n: nat, t: State)
    requires Run(h, code, Running(s), n) == Running(t)
    ensures Run(h, code, Running(s), n + 1) == Step(h, code, t)
  {
    hide Step;
    RunSplit(h, code, Running(s), n, 1);
    assert Run(h, code, Running(t), 1) == Run(h, code, Step(h, code, t), 0);
  }

  /** A failure fails every caller. */
  lemma {:induction false} FailsDown(prog: Program, base: Host, depth: nat, frames: seq<Frame>, w: World,
                                     from: seq<Origin>, i: nat, failed: World)
    requires Traces(prog, base, depth, frames, w, from) && i < |frames|
    requires var g := prog.funcs[frames[i].fn];
      Ends(Linked(prog, base, depth - i), g.code, Entry(g, from[i].args, from[i].w0), Failed(failed))
    ensures frames[0].fn < |prog.funcs|
    ensures var f := prog.funcs[frames[0].fn];
      Ends(Linked(prog, base, depth), f.code, Entry(f, from[0].args, from[0].w0), Failed(failed))
  {
    hide Linked, Entry, Step, Waits, Run, Conforms, Tagged;
    if i > 0 {
      var fr, o := frames[i - 1], from[i - 1];
      assert OnRun(prog, base, depth - (i - 1), fr, o) && OnRun(prog, base, depth - i, frames[i], from[i]);
      assert Waits(prog, base, frames[i - 1], from[i - 1].w, frames[i - 1 + 1].fn, from[i - 1 + 1]);
      WaitingStep(prog, base, depth - i, fr, o.w, frames[i].fn, from[i], Failed(failed));
      var f := prog.funcs[fr.fn];
      EndsNext(Linked(prog, base, depth - (i - 1)), f.code, Entry(f, o.args, o.w0), o.steps, StateOf(fr, o.w));
      FailsDown(prog, base, depth, frames, w, from, i - 1, failed);
    } else {
      assert OnRun(prog, base, depth - 0, frames[0], from[0]);
    }
  }

  lemma {:induction false} FrameIsProper(sigs: seq<Signature>, prog: Program, base: Host, depth: nat, fr: Frame,
                                         from: Origin)
    requires Sound(sigs, prog) && HostContract(sigs, base) && OnRun(prog, base, depth, fr, from)
    ensures Proper(sigs, prog, fr.fn, Running(StateOf(fr, from.w)))
  {
    hide HostContract, Linked, Conforms, Tagged, Run, Proper;
    var h := Linked(prog, base, depth);
    LinkedIsHonest(sigs, prog, base, depth);
    assert Behaves(sigs, prog, fr.fn);
    assert RunsProperly(sigs, prog, fr.fn, h, from.args, from.w0);
  }

  /** Every frame of the run has the tags the type analysis reports for its function. */
  lemma {:induction false} FrameHasKinds(sigs: seq<Signature>, prog: Program, base: Host, depth: nat, fr: Frame,
                                         from: Origin, kinds: seq<int>)
    requires Sound(sigs, prog) && HostContract(sigs, base) && OnRun(prog, base, depth, fr, from)
    requires Verified(prog.funcs[fr.fn]) && Reports(sigs, prog.funcs[fr.fn], kinds)
    ensures var f := prog.funcs[fr.fn];
      fr.pc < |f.code| ==> HasProvenTags(Linked(prog, base, depth), f, kinds, StateOf(fr, from.w))
  {
    hide Sound, HostContract, Linked, Verified, Reports, Conforms, Tagged, HasProvenTags, Run;
    LinkedIsHonest(sigs, prog, base, depth);
    ProvenKindsAreSound(sigs, Linked(prog, base, depth), prog.funcs[fr.fn], kinds, from.args, from.w0, from.steps);
  }

  /** Entering a callee extends the trace. */
  lemma {:induction false} TracePush(sigs: seq<Signature>, prog: Program, base: Host, depth: nat, frames: seq<Frame>,
                                     w: World, from: seq<Origin>, vs: seq<Value>, w': World)
    returns (from': seq<Origin>)
    requires Sound(sigs, prog) && HostContract(sigs, base) && Traces(prog, base, depth, frames, w, from)
    requires |frames| <= depth && AtCall(prog, frames[|frames| - 1])
    requires var top := frames[|frames| - 1];
      var i := CallOf(prog, top);
      && i.callee < |prog.funcs|
      && Enter(base, prog.funcs[i.callee], Looked(prog, i.callee), Gather(top.regs, i.args), w) == Admitted(vs, w')
    ensures var callee := CallOf(prog, frames[|frames| - 1]).callee;
      var frames' := frames + [Frame(callee, 0, Entry(prog.funcs[callee], vs, w').regs)];
      Traces(prog, base, depth, frames', w', from') && SameRoot(frames, from, frames', from')
  {
    hide HostContract, Linked, Conforms, Tagged, Enter, Acceptable, Sound, Gather;
    var top := frames[|frames| - 1];
    assert OnRun(prog, base, depth - (|frames| - 1), frames[|frames| - 1], from[|frames| - 1]);
    FrameIsProper(sigs, prog, base, depth - (|frames| - 1), top, from[|from| - 1]);
    var i := CallOf(prog, top);
    var args := Gather(top.regs, i.args);
    assert Good(prog, i.callee, args, w);
    EnterConforms(sigs, base, prog.funcs[i.callee], Looked(prog, i.callee), args, w);
    var entered := Origin(vs, w', 0, w');
    from' := from + [entered];
    var fr := Frame(i.callee, 0, Entry(prog.funcs[i.callee], vs, w').regs);
    assert OnRun(prog, base, depth - |frames|, fr, entered);
    assert Waits(prog, base, top, w, i.callee, entered);
  }

  /** A step of the top frame moves the trace on. */
  lemma {:induction false} TraceMove(prog: Program, base: Host, depth: nat, frames: seq<Frame>, w: World,
                                     from: seq<Origin>, t: State)
    returns (from': seq<Origin>)
    requires Traces(prog, base, depth, frames, w, from)
    requires var top := frames[|frames| - 1];
      && top.fn < |prog.funcs|
      && Step(Linked(prog, base, depth - (|frames| - 1)), prog.funcs[top.fn].code, StateOf(top, w)) == Running(t)
    ensures var top := frames[|frames| - 1];
      var frames' := frames[..|frames| - 1] + [Frame(top.fn, t.pc, t.regs)];
      Traces(prog, base, depth, frames', t.w, from') && SameRoot(frames, from, frames', from')
  {
    hide Linked, Conforms, Tagged, Entry, Step, Run, Waits;
    var k := |frames| - 1;
    var top, o := frames[k], from[k];
    assert OnRun(prog, base, depth - k, frames[k], from[k]);
    var f := prog.funcs[top.fn];
    EndsNext(Linked(prog, base, depth - k), f.code, Entry(f, o.args, o.w0), o.steps, StateOf(top, w));
    var o' := o.(steps := o.steps + 1, w := t.w);
    var fr := Frame(top.fn, t.pc, t.regs);
    from' := from[..k] + [o'];
    var frames' := frames[..k] + [fr];
    assert OnRun(prog, base, depth - k, fr, o');
    forall i | 0 <= i < |frames'| - 1
      ensures Waits(prog, base, frames'[i], from'[i].w, frames'[i + 1].fn, from'[i + 1])
    {
      assert Waits(prog, base, frames[i], from[i].w, frames[i + 1].fn, from[i + 1]);
      SameEntry(prog, base, frames[i], from[i].w, frames[i + 1].fn, from[i + 1], from'[i + 1]);
    }
  }

  lemma {:induction false} SameEntry(prog: Program, base: Host, fr: Frame, w: World, callee: nat, entered: Origin,
                                     entered': Origin)
    requires Waits(prog, base, fr, w, callee, entered)
    requires entered'.args == entered.args && entered'.w0 == entered.w0
    ensures Waits(prog, base, fr, w, callee, entered')
  {
  }

  lemma {:induction false} TracePop(prog: Program, base: Host, depth: nat, frames: seq<Frame>, w: World,
                                    from: seq<Origin>)
    requires Traces(prog, base, depth, frames, w, from) && |frames| > 1
    ensures var k := |frames| - 1; Traces(prog, base, depth, frames[..k], from[k - 1].w, from[..k])
    ensures var k := |frames| - 1;
      Waits(prog, base, frames[k - 1], from[k - 1].w, frames[k].fn, from[k]) &&
      OnRun(prog, base, depth - k, frames[k], from[k])
  {
    hide OnRun, Waits;
    var k := |frames| - 1;
    assert Waits(prog, base, frames[k - 1], from[k - 1].w, frames[k - 1 + 1].fn, from[k - 1 + 1]);
  }

  lemma {:induction false} TopWorld(prog: Program, base: Host, depth: nat, frames: seq<Frame>, w: World,
                                    from: seq<Origin>)
    requires Traces(prog, base, depth, frames, w, from) && |frames| > 1
    ensures |from| == |frames| && from[|frames| - 1].w == w && |frames| - 1 <= depth
    ensures OnRun(prog, base, depth - (|frames| - 2), frames[|frames| - 2], from[|frames| - 2])
  {
    hide OnRun, Waits;
    var k := |frames| - 2;
    assert OnRun(prog, base, depth - k, frames[k], from[k]);
  }

  /** A return hands its value to the waiting frame. */
  lemma {:induction false} TraceReturn(prog: Program, base: Host, depth: nat, frames: seq<Frame>, w: World,
                                       from: seq<Origin>, v: Value, w': World)
    returns (from': seq<Origin>)
    requires Traces(prog, base, depth, frames, w, from) && |frames| > 1
    requires var top := frames[|frames| - 1];
      && top.fn < |prog.funcs|
      && Step(Linked(prog, base, depth - (|frames| - 1)), prog.funcs[top.fn].code, StateOf(top, w)) == Returned(v, w')
    ensures var d := Deliver(prog, frames[..|frames| - 1], Returned(v, w'));
      d.Live? && Traces(prog, base, depth, d.frames, d.w, from') && SameRoot(frames, from, d.frames, from')
  {
    hide Linked, Conforms, Tagged, Entry, Step, Run, Good, Gather, Enter, Traces;
    var k := |frames| - 1;
    TracePop(prog, base, depth, frames, w, from);
    TopWorld(prog, base, depth, frames, w, from);
    var o, f := from[k], prog.funcs[frames[k].fn];
    EndsNext(Linked(prog, base, depth - k), f.code, Entry(f, o.args, o.w0), o.steps, StateOf(frames[k], w));
    assert Ends(Linked(prog, base, depth - k), f.code, Entry(f, o.args, o.w0), Returned(v, w'));
    WaitingStep(prog, base, depth - k, frames[k - 1], from[k - 1].w, frames[k].fn, o, Returned(v, w'));
    var caller := frames[k - 1];
    var t := State(caller.pc + 1, Put(caller.regs, CallOf(prog, caller).d, v), w');
    assert frames[..k][k - 1] == caller && frames[..k][..k - 1] == frames[..k - 1];
    from' := TraceMove(prog, base, depth, frames[..k], from[k - 1].w, from[..k], t);
  }

  /** The run of the bottom frame's function ends in `o` when the host answers its calls. */
  ghost predicate RootEnds(prog: Program, base: Host, depth: nat, frames: seq<Frame>, from: seq<Origin>, o: Config) {
    && |frames| == |from| > 0 && frames[0].fn < |prog.funcs|
    && var f := prog.funcs[frames[0].fn];
    Ends(Linked(prog, base, depth), f.code, Entry(f, from[0].args, from[0].w0), o)
  }

  /** A step of the top frame that ends it, and the whole run with it. */
  lemma {:induction false} TraceEnd(prog: Program, base: Host, depth: nat, frames: seq<Frame>, w: World,
                                    from: seq<Origin>, o: Config)
    requires Traces(prog, base, depth, frames, w, from) && !o.Running?
    requires var top := frames[|frames| - 1];
      && top.fn < |prog.funcs|
      && Step(Linked(prog, base, depth - (|frames| - 1)), prog.funcs[top.fn].code, StateOf(top, w)) == o
    requires |frames| == 1 || o.Failed?
    ensures RootEnds(prog, base, depth, frames, from, o)
  {
    hide Linked, Conforms, Tagged, Entry, Step, Run, Waits;
    var k := |frames| - 1;
    assert OnRun(prog, base, depth - k, frames[k], from[k]);
    var f, og := prog.funcs[frames[k].fn], from[k];
    EndsNext(Linked(prog, base, depth - k), f.code, Entry(f, og.args, og.w0), og.steps, StateOf(frames[k], w));
    assert Ends(Linked(prog, base, depth - k), f.code, Entry(f, og.args, og.w0), o);
    if o.Failed? {
      FailsDown(prog, base, depth, frames, w, from, k, o.w);
    }
  }

  /** An entry that refuses its arguments fails the call. */
  lemma {:induction false} RefusedStep(prog: Program, base: Host, depth: nat, fr: Frame, w: World, w': World)
    requires AtCall(prog, fr)
    requires var i := CallOf(prog, fr);
      var args := Gather(fr.regs, i.args);
      && Good(prog, i.callee, args, w)
      && Enter(base, prog.funcs[i.callee], Looked(prog, i.callee), args, w) == Refused(w')
    ensures Step(Linked(prog, base, depth + 1), prog.funcs[fr.fn].code, StateOf(fr, w)) == Failed(w')
  {
    hide Enter, Good, Gather, Outcome, IntResult, SwitchTarget, Linked;
    var i := CallOf(prog, fr);
    ServedCall(prog, base, depth, i.callee, Gather(fr.regs, i.args), w);
  }

  lemma {:induction false} TraceCall(sigs: seq<Signature>, prog: Program, base: Host, depth: nat, frames: seq<Frame>,
                                     w: World, from: seq<Origin>) returns (from': seq<Origin>)
    requires Sound(sigs, prog) && HostContract(sigs, base) && Traces(prog, base, depth, frames, w, from)
    requires |frames| <= depth && AtCall(prog, frames[|frames| - 1])
    ensures var d := Advance(base, prog, Live(frames, w));
      if d.Live? then Traces(prog, base, depth, d.frames, d.w, from') && SameRoot(frames, from, d.frames, from')
      else !d.o.Running? && RootEnds(prog, base, depth, frames, from, d.o)
  {
    hide HostContract, Linked, Conforms, Tagged, Enter, Acceptable, Sound, Gather, Entry, Step, Waits, RootEnds, Run;
    var k := |frames| - 1;
    var top := frames[k];
    assert OnRun(prog, base, depth - k, frames[k], from[k]);
    FrameIsProper(sigs, prog, base, depth - k, top, from[k]);
    var i := CallOf(prog, top);
    var args := Gather(top.regs, i.args);
    assert Good(prog, i.callee, args, w);
    var e := Enter(base, prog.funcs[i.callee], Looked(prog, i.callee), args, w);
    from' := from;
    if e.Admitted? {
      from' := TracePush(sigs, prog, base, depth, frames, w, from, e.args, e.w);
    } else {
      RefusedStep(prog, base, depth - k - 1, top, w, e.w);
      TraceEnd(prog, base, depth, frames, w, from, Failed(e.w));
    }
  }

  /** One step of the stack, in the linked hosts. */
  lemma {:induction false} TraceAdvance(sigs: seq<Signature>, prog: Program, base: Host, depth: nat,
                                        frames: seq<Frame>, w: World, from: seq<Origin>) returns (from': seq<Origin>)
    requires Sound(sigs, prog) && HostContract(sigs, base) && Traces(prog, base, depth, frames, w, from)
    requires |frames| <= depth
    ensures var d := Advance(base, prog, Live(frames, w));
      if d.Live? then Traces(prog, base, depth, d.frames, d.w, from') && SameRoot(frames, from, d.frames, from')
      else !d.o.Running? && RootEnds(prog, base, depth, frames, from, d.o)
  {
    hide HostContract, Linked, OnRun, Waits, RootEnds, Step, Enter, Gather, Sound, Advance, Deliver, SameRoot;
    var k := |frames| - 1;
    var top, below := frames[k], frames[..k];
    assert frames == below + [top];
    if AtCall(prog, top) {
      from' := TraceCall(sigs, prog, base, depth, frames, w, from);
    } else {
      assert OnRun(prog, base, depth - k, frames[k], from[k]);
      KnownFrame(prog, base, depth - k, top, from[k]);
      AdvanceStep(base, prog, below, top, w);
      var code, h := prog.funcs[top.fn].code, Linked(prog, base, depth - k);
      LinkedEngine(prog, base, depth - k);
      StepSame(base, h, code, StateOf(top, w));
      from' := TraceStep(prog, base, depth, frames, w, from, Step(h, code, StateOf(top, w)));
    }
  }

  lemma {:induction false} KnownFrame(prog: Program, base: Host, depth: nat, fr: Frame, from: Origin)
    requires OnRun(prog, base, depth, fr, from)
    ensures fr.fn < |prog.funcs|
  {
    hide Run, Linked;
  }

  /** What a step of the top frame that is no call does to the trace. */
  lemma {:induction false} TraceStep(prog: Program, base: Host, depth: nat, frames: seq<Frame>, w: World,
                                     from: seq<Origin>, o: Config) returns (from': seq<Origin>)
    requires Traces(prog, base, depth, frames, w, from)
    requires var top := frames[|frames| - 1];
      && top.fn < |prog.funcs|
      && Step(Linked(prog, base, depth - (|frames| - 1)), prog.funcs[top.fn].code, StateOf(top, w)) == o
    ensures var top, below := frames[|frames| - 1], frames[..|frames| - 1];
      var d := if o.Running? then Live(below + [Frame(top.fn, o.s.pc, o.s.regs)], o.s.w) else Deliver(prog, below, o);
      if d.Live? then Traces(prog, base, depth, d.frames, d.w, from') && SameRoot(frames, from, d.frames, from')
      else !d.o.Running? && RootEnds(prog, base, depth, frames, from, d.o)
  {
    hide Linked, OnRun, Waits, RootEnds, Step, SameRoot;
    from' := from;
    if o.Running? {
      from' := TraceMove(prog, base, depth, frames, w, from, o.s);
    } else if o.Returned? && |frames| > 1 {
      from' := TraceReturn(prog, base, depth, frames, w, from, o.v, o.w);
    } else {
      TraceEnd(prog, base, depth, frames, w, from, o);
    }
  }

  /** The frame a launched call starts in. */
  function First(prog: Program, j: nat, vs: seq<Value>, w: World): Frame
    requires j < |prog.funcs|
  {
    Frame(j, 0, Entry(prog.funcs[j], vs, w).regs)
  }

  lemma {:induction false} TraceStart(prog: Program, base: Host, depth: nat, j: nat, vs: seq<Value>, w: World)
    requires j < |prog.funcs| && Conforms(prog.funcs[j], vs) && Tagged(w.globals)
    ensures Traces(prog, base, depth, [First(prog, j, vs, w)], w, [Origin(vs, w, 0, w)])
  {
    hide Linked, Conforms, Tagged;
    assert OnRun(prog, base, depth - 0, First(prog, j, vs, w), Origin(vs, w, 0, w));
  }

  /** Every state of a stack run, frame by frame, is a state of a run whose calls a linked host answers. */
  lemma {:induction false} RunTraces(sigs: seq<Signature>, prog: Program, base: Host, depth: nat, j: nat,
                                     vs: seq<Value>, w: World, n: nat) returns (frames: seq<Frame>, from: seq<Origin>)
    requires Sound(sigs, prog) && HostContract(sigs, base) && n <= depth
    requires j < |prog.funcs| && Conforms(prog.funcs[j], vs) && Tagged(w.globals)
    ensures SameRoot([First(prog, j, vs, w)], [Origin(vs, w, 0, w)], frames, from)
    ensures var c := RunStack(base, prog, Live([First(prog, j, vs, w)], w), n);
      if c.Live? then c.frames == frames && |frames| <= n + 1 && Traces(prog, base, depth, frames, c.w, from)
      else !c.o.Running? && RootEnds(prog, base, depth, frames, from, c.o)
    decreases n
  {
    hide HostContract, Linked, Traces, Advance, RootEnds, Conforms, Tagged, Sound, First;
    var start := Live([First(prog, j, vs, w)], w);
    frames, from := [First(prog, j, vs, w)], [Origin(vs, w, 0, w)];
    if n == 0 {
      TraceStart(prog, base, depth, j, vs, w);
    } else {
      frames, from := RunTraces(sigs, prog, base, depth, j, vs, w, n - 1);
      RunStackSplit(base, prog, start, n - 1, 1);
      var c := RunStack(base, prog, start, n - 1);
      if c.Live? {
        var d := Advance(base, prog, c);
        assert RunStack(base, prog, c, 1) == RunStack(base, prog, d, 0) == d;
        var from' := TraceAdvance(sigs, prog, base, depth, frames, c.w, from);
        if d.Live? {
          GrowsByOne(base, prog, c);
          frames, from := d.frames, from';
        }
      }
    }
  }

  lemma {:induction false} GrowsByOne(h: Host, prog: Program, c: Stack)
    requires c.Live?
    ensures Advance(h, prog, c).Live? ==> |Advance(h, prog, c).frames| <= |c.frames| + 1
  {
    hide Step, Enter, Gather;
  }

  // ----- an outcome the base host had no part in is the stack run's -----

  /** The host that answers every call with a failure it marks. */
  ghost function Exhausted(h: Host, mark: int): Host {
    Host((q: Request, args: seq<Value>, w: World) =>
           if q.Invoke? then Err(w.(engine := mark)) else h.serve(q, args, w),
         h.truth, h.float, h.order)
  }

  lemma {:induction false} ExhaustedIsHonest(sigs: seq<Signature>, h: Host, mark: int)
    requires HostContract(sigs, h)
    ensures HostContract(sigs, Exhausted(h, mark)) && SameEngine(h, Exhausted(h, mark))
  {
    hide Promise;
  }

  ghost predicate Marked(o: Config, mark: int) {
    o.Failed? && o.w.engine == mark
  }

  /** An unmarked step of a call: the entry refused, or the callee ended, unmarked. */
  lemma {:induction false} UnmarkedCall(prog: Program, h: Host, mark: int, depth: nat, fr: Frame, w: World)
    requires AtCall(prog, fr)
    requires !Marked(Step(Linked(prog, Exhausted(h, mark), depth), prog.funcs[fr.fn].code, StateOf(fr, w)), mark)
    ensures var i, base := CallOf(prog, fr), Exhausted(h, mark);
      && depth > 0 && i.callee < |prog.funcs|
      && var g := prog.funcs[i.callee];
      var o := Step(Linked(prog, base, depth), prog.funcs[fr.fn].code, StateOf(fr, w));
      match Enter(base, g, Looked(prog, i.callee), Gather(fr.regs, i.args), w)
      case Refused(w') => o == Failed(w')
      case Admitted(vs, w') =>
        var inner := Outcome(Linked(prog, base, depth - 1), g, vs, w');
        && inner.Some? && !Marked(inner.value, mark)
        && o == match inner.value
                case Returned(v, w'') => Running(State(fr.pc + 1, Put(fr.regs, i.d, v), w''))
                case Failed(w'') => Failed(w'')
  {
    hide Enter, Acceptable, Tagged, Gather, Outcome, IntResult, SwitchTarget, Linked;
    var i, base := CallOf(prog, fr), Exhausted(h, mark);
    var args := Gather(fr.regs, i.args);
    if depth > 0 && Good(prog, i.callee, args, w) {
      ServedCall(prog, base, depth - 1, i.callee, args, w);
    } else {
      FallsThrough(prog, base, depth, i.callee, args, w);
    }
  }

  lemma {:induction false} FallsThrough(prog: Program, base: Host, depth: nat, callee: nat, args: seq<Value>, w: World)
    requires depth == 0 || !Good(prog, callee, args, w)
    ensures Linked(prog, base, depth).serve(Invoke(callee), args, w) == base.serve(Invoke(callee), args, w)
  {
    hide Good;
    if depth > 0 {
      var inner := Linked(prog, base, depth - 1);
      assert Linked(prog, base, depth).serve(Invoke(callee), args, w) ==
        Through(prog, base, inner, Invoke(callee), args, w);
    }
  }

  lemma {:induction false} RunStackJoins(h: Host, prog: Program, a: Stack, b: Stack, c: Stack, n: nat, m: nat)
    requires RunStack(h, prog, a, n) == b && RunStack(h, prog, b, m) == c
    ensures RunStack(h, prog, a, n + m) == c
  {
    hide RunStack;
    RunStackSplit(h, prog, a, n, m);
  }

  lemma {:induction false} AdvanceRuns(h: Host, prog: Program, a: Stack, b: Stack, m: nat, c: Stack)
    requires a.Live? && Advance(h, prog, a) == b && RunStack(h, prog, b, m) == c
    ensures RunStack(h, prog, a, m + 1) == c
  {
    hide Advance;
  }

  /** From an outcome under the linked host to the stack: how many steps reach it. */
  lemma {:induction false} LinkedReaches(prog: Program, h: Host, mark: int, depth: nat, below: seq<Frame>, j: nat,
                                         s: State, n: nat, o: Config) returns (m: nat)
    requires j < |prog.funcs| && !o.Running? && !Marked(o, mark)
    requires Run(Linked(prog, Exhausted(h, mark), depth), prog.funcs[j].code, Running(s), n) == o
    ensures RunStack(Exhausted(h, mark), prog, Live(below + [Frame(j, s.pc, s.regs)], s.w), m) ==
      Deliver(prog, below, o)
    decreases depth, n
  {
    hide Linked, Step, Exhausted, Enter, Gather, Deliver, RunStack, Advance, Marked, Outcome, Entry;
    var base, fr := Exhausted(h, mark), Frame(j, s.pc, s.regs);
    var code, a := prog.funcs[j].code, Live(below + [fr], s.w);
    var next := Step(Linked(prog, base, depth), code, s);
    assert n > 0 && Run(Linked(prog, base, depth), code, next, n - 1) == o;
    assert !Marked(next, mark) by { FinalStays(Linked(prog, base, depth), code, next, n - 1, mark); }
    if AtCall(prog, fr) {
      m := CallReaches(prog, h, mark, depth, below, fr, s.w, n, o);
    } else {
      LinkedEngine(prog, base, depth);
      StepSame(base, Linked(prog, base, depth), code, s);
      AdvanceStep(base, prog, below, fr, s.w);
      if next.Running? {
        m := LinkedReaches(prog, h, mark, depth, below, j, next.s, n - 1, o);
        var b := Live(below + [Frame(j, next.s.pc, next.s.regs)], next.s.w);
        AdvanceRuns(base, prog, a, b, m, Deliver(prog, below, o));
        m := m + 1;
      } else {
        assert next == o;
        m := 1;
        OneStep(base, prog, a);
      }
    }
  }

  lemma {:induction false} OneStep(h: Host, prog: Program, a: Stack)
    requires a.Live?
    ensures RunStack(h, prog, a, 1) == Advance(h, prog, a)
  {
    hide Advance;
    assert RunStack(h, prog, Advance(h, prog, a), 0) == Advance(h, prog, a);
  }

  lemma {:induction false} FinalStays(h: Host, code: seq<Instr>, c: Config, n: nat, mark: int)
    requires !Marked(Run(h, code, c, n), mark)
    ensures !Marked(c, mark)
  {
  }

  lemma {:induction false} AdvanceStep(h: Host, prog: Program, below: seq<Frame>, fr: Frame, w: World)
    requires fr.fn < |prog.funcs| && !AtCall(prog, fr)
    ensures var o := Step(h, prog.funcs[fr.fn].code, StateOf(fr, w));
      Advance(h, prog, Live(below + [fr], w)) ==
        if o.Running? then Live(below + [Frame(fr.fn, o.s.pc, o.s.regs)], o.s.w) else Deliver(prog, below, o)
  {
    hide Step, Deliver;
    assert (below + [fr])[..|below|] == below;
  }

  lemma {:induction false} AdvanceCall(h: Host, prog: Program, below: seq<Frame>, fr: Frame, w: World)
    requires AtCall(prog, fr) && CallOf(prog, fr).callee < |prog.funcs|
    ensures var i := CallOf(prog, fr);
      Advance(h, prog, Live(below + [fr], w)) ==
        Enclose(prog, below + [fr], i.callee,
                Enter(h, prog.funcs[i.callee], Looked(prog, i.callee), Gather(fr.regs, i.args), w))
  {
    hide Enter, Gather, Enclose;
  }

  lemma {:induction false} CallReaches(prog: Program, h: Host, mark: int, depth: nat, below: seq<Frame>, fr: Frame,
                                       w: World, n: nat, o: Config) returns (m: nat)
    requires AtCall(prog, fr) && !o.Running? && !Marked(o, mark) && n > 0
    requires var next := Step(Linked(prog, Exhausted(h, mark), depth), prog.funcs[fr.fn].code, StateOf(fr, w));
      && !Marked(next, mark)
      && Run(Linked(prog, Exhausted(h, mark), depth), prog.funcs[fr.fn].code, next, n - 1) == o
    ensures RunStack(Exhausted(h, mark), prog, Live(below + [fr], w), m) == Deliver(prog, below, o)
    decreases depth, n, 0
  {
    hide Linked, Step, Exhausted, Enter, Gather, RunStack, Advance, Marked, Outcome;
    var base, i := Exhausted(h, mark), CallOf(prog, fr);
    var a := Live(below + [fr], w);
    UnmarkedCall(prog, h, mark, depth, fr, w);
    AdvanceCall(base, prog, below, fr, w);
    OneStep(base, prog, a);
    var g := prog.funcs[i.callee];
    var e := Enter(base, g, Looked(prog, i.callee), Gather(fr.regs, i.args), w);
    if e.Refused? {
      m := 1;
    } else {
      var inner := Linked(prog, base, depth - 1);
      var o' := Outcome(inner, g, e.args, e.w).value;
      var k: nat :| Run(inner, g.code, Running(Entry(g, e.args, e.w)), k) == o';
      var m1 := LinkedReaches(prog, h, mark, depth - 1, below + [fr], i.callee, Entry(g, e.args, e.w), k, o');
      var b := Deliver(prog, below + [fr], o');
      AdvanceRuns(base, prog, a, Advance(base, prog, a), m1, b);
      m := m1 + 1;
      if o'.Returned? {
        var t := State(fr.pc + 1, Put(fr.regs, i.d, o'.v), o'.w);
        assert (below + [fr])[..|below|] == below && b == Live(below + [Frame(fr.fn, t.pc, t.regs)], t.w);
        var m2 := LinkedReaches(prog, h, mark, depth, below, fr.fn, t, n - 1, o);
        RunStackJoins(base, prog, a, b, Deliver(prog, below, o), m, m2);
        m := m + m2;
      }
    }
  }

  // ----- hosts that answer alike -----

  ghost predicate Alike(h: Host, h': Host) {
    && h.truth == h'.truth && h.float == h'.float && h.order == h'.order
    && forall q: Request, args: seq<Value>, w: World :: h.serve(q, args, w) == h'.serve(q, args, w)
  }

  lemma {:induction false} ExecuteAlike(h: Host, h': Host, i: Instr, regs: seq<Value>, w: World)
    requires Alike(h, h')
    ensures Execute(h, i, regs, w) == Execute(h', i, regs, w)
  {
    hide IntResult, SwitchTarget;
  }

  lemma {:induction false} RunAlike(h: Host, h': Host, code: seq<Instr>, c: Config, n: nat)
    requires Alike(h, h')
    ensures Run(h, code, c, n) == Run(h', code, c, n)
    decreases n
  {
    hide Execute, Alike, Find;
    if n > 0 && c.Running? {
      if c.s.pc < |code| {
        ExecuteAlike(h, h', code[c.s.pc], c.s.regs, c.s.w);
      }
      RunAlike(h, h', code, Step(h, code, c.s), n - 1);
    }
  }

  lemma {:induction false} EndsAlike(h: Host, h': Host, code: seq<Instr>, s: State, o: Config)
    requires Alike(h, h')
    ensures Ends(h, code, s, o) <==> Ends(h', code, s, o)
  {
    hide Alike, Run;
    forall n: nat
      ensures Run(h, code, Running(s), n) == Run(h', code, Running(s), n)
    {
      RunAlike(h, h', code, Running(s), n);
    }
  }

  /** Equivalent functions under hosts that answer alike end alike. */
  lemma {:induction false} EquivalentEnds(sigs: seq<Signature>, f: Function, g: Function, h: Host, h': Host,
                                          args: seq<Value>, w: World, o: Config)
    requires Equivalent(sigs, f, g) && HostContract(sigs, h) && Alike(h, h') && Conforms(f, args) && Tagged(w.globals)
    requires !o.Running?
    ensures Ends(h, f.code, Entry(f, args, w), o) <==> Ends(h', g.code, Entry(g, args, w), o)
  {
    hide Alike, Ends, Entry, Verified, WordSized, HostContract, Conforms, Tagged, EndsInTerminator;
    assert SameMeaning(h, f.code, Entry(f, args, w), g.code, Entry(g, args, w));
    EndsAlike(h, h', g.code, Entry(g, args, w), o);
  }

  lemma {:induction false} EquivalentOutcomes(sigs: seq<Signature>, f: Function, g: Function, h: Host, h': Host,
                                              args: seq<Value>, w: World)
    requires Equivalent(sigs, f, g) && HostContract(sigs, h) && Alike(h, h') && Conforms(f, args) && Tagged(w.globals)
    ensures Outcome(h, f, args, w) == Outcome(h', g, args, w)
  {
    hide Alike, Ends, Entry, Equivalent, HostContract, Conforms, Tagged;
    var o, o' := Outcome(h, f, args, w), Outcome(h', g, args, w);
    if o.Some? {
      EquivalentEnds(sigs, f, g, h, h', args, w, o.value);
      OutcomeIs(h', g, args, w, o.value);
    } else if o'.Some? {
      EquivalentEnds(sigs, f, g, h, h', args, w, o'.value);
      OutcomeIs(h, f, args, w, o'.value);
    }
  }

  lemma {:induction false} AdmitParams(h: Host, f: Function, g: Function, looked: set<Reg>, args: seq<Value>, w: World,
                                       done: seq<Value>)
    requires f.params == g.params && |done| <= |args| == |f.params|
    ensures Admit(h, f, looked, args, w, done) == Admit(h, g, looked, args, w, done)
    decreases |args| - |done|
  {
    if |done| < |args| {
      var a := AdmitOne(h, f, looked, args, w, |done|);
      assert a == AdmitOne(h, g, looked, args, w, |done|);
      if a.out.Some? {
        AdmitParams(h, f, g, looked, args, a.w, done + [a.out.value]);
      }
    }
  }

  /** An entry depends on what is declared, not on the body. */
  lemma {:induction false} EnterParams(h: Host, f: Function, g: Function, looked: set<Reg>, args: seq<Value>, w: World)
    requires f.params == g.params
    ensures Enter(h, f, looked, args, w) == Enter(h, g, looked, args, w)
  {
    hide Admit;
    if |args| == |f.params| {
      AdmitParams(h, f, g, looked, args, w, []);
    }
  }

  lemma {:induction false} CalledAlike(sigs: seq<Signature>, prog: Program, prog': Program, base: Host, inner: Host,
                                       inner': Host, callee: nat, args: seq<Value>, w: World)
    requires Rewritten(sigs, prog, prog') && HostContract(sigs, base) && HostContract(sigs, inner) &&
      Alike(inner, inner') && Good(prog, callee, args, w)
    ensures Called(prog, base, inner, callee, args, w) == Called(prog', base, inner', callee, args, w)
  {
    hide HostContract, Alike, Conforms, Tagged, Acceptable, Enter, Outcome, Equivalent;
    var f, g := prog.funcs[callee], prog'.funcs[callee];
    EquivalentIsVerified(sigs, f, g);
    var looked := Looked(prog, callee);
    EnterParams(base, f, g, looked, args, w);
    EnterConforms(sigs, base, f, looked, args, w);
    var e := Enter(base, f, looked, args, w);
    if e.Admitted? {
      EquivalentOutcomes(sigs, f, g, inner, inner', e.args, e.w);
    }
  }

  /** At every depth, calls that run rewritten functions are answered as calls that run the original ones. */
  lemma {:induction false} LinkedAlike(sigs: seq<Signature>, prog: Program, prog': Program, base: Host, depth: nat)
    requires Rewritten(sigs, prog, prog') && Sound(sigs, prog) && HostContract(sigs, base)
    ensures Alike(Linked(prog, base, depth), Linked(prog', base, depth))
  {
    hide Rewritten, Sound, HostContract, Good, Called;
    if depth > 0 {
      LinkedAlike(sigs, prog, prog', base, depth - 1);
      LinkedIsHonest(sigs, prog, base, depth - 1);
      var h, h' := Linked(prog, base, depth - 1), Linked(prog', base, depth - 1);
      forall q: Request, args: seq<Value>, w: World
        ensures Through(prog, base, h, q, args, w) == Through(prog', base, h', q, args, w)
      {
        if q.Invoke? {
          GoodInBoth(sigs, prog, prog', q.callee, args, w);
          if Good(prog, q.callee, args, w) {
            CalledAlike(sigs, prog, prog', base, h, h', q.callee, args, w);
          }
        }
      }
    }
  }

  // ----- rewriting a program -----

  /** Whatever the marks, an outcome of the first program's function is one of the second's. */
  ghost predicate Carries(prog: Program, prog': Program, h: Host, j: nat, vs: seq<Value>, w: World, o: Config)
    requires j < |prog.funcs| == |prog'.funcs|
  {
    var f, g := prog.funcs[j], prog'.funcs[j];
    forall depth: nat, mark: int ::
      Ends(Linked(prog, Exhausted(h, mark), depth), f.code, Entry(f, vs, w), o) ==>
        Ends(Linked(prog', Exhausted(h, mark), depth), g.code, Entry(g, vs, w), o)
  }

  lemma {:induction false} CarriesOver(sigs: seq<Signature>, prog: Program, prog': Program, h: Host, j: nat,
                                       vs: seq<Value>, w: World, o: Config)
    requires Sound(sigs, prog) && HostContract(sigs, h) && j < |prog.funcs| == |prog'.funcs|
    requires Conforms(prog.funcs[j], vs) && Tagged(w.globals)
    requires Carries(prog, prog', h, j, vs, w, o)
    requires StackEnds(h, prog, Live([First(prog, j, vs, w)], w), o)
    ensures StackEnds(h, prog', Live([First(prog', j, vs, w)], w), o)
  {
    hide Sound, HostContract, Conforms, Tagged, Linked, Exhausted, RunStack, Run, Traces;
    var mark := if o.Failed? then o.w.engine + 1 else 0;
    var base := Exhausted(h, mark);
    ExhaustedIsHonest(sigs, h, mark);
    var n: nat :| RunStack(h, prog, Live([First(prog, j, vs, w)], w), n) == Over(o);
    RunStackSame(h, base, prog, Live([First(prog, j, vs, w)], w), n);
    var frames, from := RunTraces(sigs, prog, base, n, j, vs, w, n);
    var f, g := prog.funcs[j], prog'.funcs[j];
    assert Ends(Linked(prog, base, n), f.code, Entry(f, vs, w), o);
    var k: nat :| Run(Linked(prog', base, n), g.code, Running(Entry(g, vs, w)), k) == o;
    var m := LinkedReaches(prog', h, mark, n, [], j, Entry(g, vs, w), k, o);
    assert [] + [First(prog', j, vs, w)] == [First(prog', j, vs, w)];
    RunStackSame(h, base, prog', Live([First(prog', j, vs, w)], w), m);
  }

  lemma {:induction false} RewrittenCarries(sigs: seq<Signature>, prog: Program, prog': Program, h: Host, j: nat,
                                            vs: seq<Value>, w: World, o: Config)
    requires Rewritten(sigs, prog, prog') && Sound(sigs, prog) && HostContract(sigs, h) && j < |prog.funcs|
    requires Conforms(prog.funcs[j], vs) && Tagged(w.globals) && !o.Running?
    ensures |prog.funcs| == |prog'.funcs|
    ensures Carries(prog, prog', h, j, vs, w, o) && Carries(prog', prog, h, j, vs, w, o)
  {
    hide Sound, HostContract, Conforms, Tagged, Linked, Exhausted, Ends, Entry, Equivalent, Alike;
    forall depth: nat, mark: int
      ensures var f, g := prog.funcs[j], prog'.funcs[j];
        Ends(Linked(prog, Exhausted(h, mark), depth), f.code, Entry(f, vs, w), o) <==>
          Ends(Linked(prog', Exhausted(h, mark), depth), g.code, Entry(g, vs, w), o)
    {
      var base := Exhausted(h, mark);
      ExhaustedIsHonest(sigs, h, mark);
      LinkedIsHonest(sigs, prog, base, depth);
      LinkedAlike(sigs, prog, prog', base, depth);
      var inner, inner' := Linked(prog, base, depth), Linked(prog', base, depth);
      EquivalentEnds(sigs, prog.funcs[j], prog'.funcs[j], inner, inner', vs, w, o);
    }
  }

  /**
   Rewriting function by function preserves the meaning of the program: for every call, with
   arguments of any number and type, the stack run of the original ends in an outcome exactly when
   the stack run of the rewritten program does. A run of one that never ends never ends in the other.
   */
  lemma {:induction false} RewrittenRunsTheSame(sigs: seq<Signature>, prog: Program, prog': Program, h: Host, j: nat,
                                                args: seq<Value>, w: World, o: Config)
    requires Rewritten(sigs, prog, prog') && Sound(sigs, prog) && HostContract(sigs, h)
    requires Good(prog, j, args, w) && !o.Running?
    ensures |prog.funcs| == |prog'.funcs|
    ensures StackEnds(h, prog, Launch(h, prog, j, args, w), o) <==> StackEnds(h, prog', Launch(h, prog', j, args, w), o)
  {
    hide Sound, HostContract, Conforms, Tagged, Acceptable, Enter, StackEnds, Carries, Equivalent;
    var f, g, looked := prog.funcs[j], prog'.funcs[j], Looked(prog, j);
    EquivalentIsVerified(sigs, f, g);
    EnterParams(h, f, g, looked, args, w);
    EnterConforms(sigs, h, f, looked, args, w);
    RewrittenIsSound(sigs, prog, prog');
    var e := Enter(h, f, looked, args, w);
    if e.Refused? {
      assert Launch(h, prog, j, args, w) == Launch(h, prog', j, args, w) == Over(Failed(e.w));
      OverStays(h, prog, prog', Over(Failed(e.w)), o);
    } else {
      assert Conforms(g, e.args) by { SameParams(f, g, e.args); }
      RewrittenCarries(sigs, prog, prog', h, j, e.args, e.w, o);
      assert [] + [First(prog, j, e.args, e.w)] == [First(prog, j, e.args, e.w)];
      assert [] + [First(prog', j, e.args, e.w)] == [First(prog', j, e.args, e.w)];
      if StackEnds(h, prog, Launch(h, prog, j, args, w), o) {
        CarriesOver(sigs, prog, prog', h, j, e.args, e.w, o);
      }
      if StackEnds(h, prog', Launch(h, prog', j, args, w), o) {
        CarriesOver(sigs, prog', prog, h, j, e.args, e.w, o);
      }
    }
  }

  lemma {:induction false} SameParams(f: Function, g: Function, args: seq<Value>)
    requires f.params == g.params && Conforms(f, args)
    ensures Conforms(g, args)
  {
  }

  lemma {:induction false} OverStays(h: Host, prog: Program, prog': Program, c: Stack, o: Config)
    requires c.Over?
    ensures StackEnds(h, prog, c, o) <==> StackEnds(h, prog', c, o)
  {
    hide Advance;
    assert RunStack(h, prog, c, 0) == RunStack(h, prog', c, 0) == c;
  }
}
