/**
 Whole runs of the emitted code: a stack of frames of Variant slots over one set of reference
 counts. A CALL passes the caller's slots by address and the destination slot for the result; the
 callee copies what it uses, converts what is declared, and hands its r0 over when it cleans up.
 */
module NativeRuns {
  import opened Options
  import opened Ir
  import opened Machine
  import opened Liveness
  import opened TypeFlow
  import opened TypeSoundness
  import opened Rewrites
  import opened Ownership
  import opened Backend
  import opened Programs
  import opened Linking

  /** What the generator makes of a function: the rewritten body and the plan for it. */
  datatype Compiled = Compiled(g: Function, p: Plan)

  /** Every function was rewritten into an equivalent one and planned, and starts as the IR does. */
  ghost predicate CompiledProgram(sigs: seq<Signature>, funcs: seq<Function>, units: seq<Compiled>) {
    |units| == |funcs| && forall j :: 0 <= j < |funcs| ==> CompiledAs(sigs, funcs[j], units[j])
  }

  ghost predicate CompiledAs(sigs: seq<Signature>, f: Function, k: Compiled) {
    Equivalent(sigs, f, k.g) && Planned(sigs, k.g, k.p) && StartsAlike(k.g, k.p)
  }

  /** The program as the generator reads it, and as it emits it: an entry looks at what the emitted body mentions. */
  function Source(funcs: seq<Function>, units: seq<Compiled>): Program {
    Program(funcs, seq(|units|, j requires 0 <= j < |units| => units[j].p.used))
  }

  function Emitted(units: seq<Compiled>): Program {
    Source(seq(|units|, j requires 0 <= j < |units| => units[j].g), units)
  }

  // ----- entering a function -----

  datatype CEntered = CAdmitted(slots: seq<Value>, w: World, m: Mem) | CRefused(slots: seq<Value>, w: World, m: Mem)

  ghost function Fetch(h: Host, f: Function, args: seq<Value>, w: World, j: nat): Action
    requires j < |args| == |f.params|
  {
    match CheckedTag(f.params[j])
    case Some(t) => CoerceAction(h, t, args[j], w)
    case None => Plain(args[j], w)
  }

  ghost function CAdmit(h: Host, f: Function, p: Plan, args: seq<Value>, w: World, m: Mem, slots: seq<Value>, j: nat)
    : CEntered
    requires j <= |args| == |f.params|
    decreases |args| - j
  {
    if j == |args| then CAdmitted(slots, w, m)
    else if j !in p.used then CAdmit(h, f, p, args, w, m, slots, j + 1)
    else
      var a := Fetch(h, f, args, w, j);
      var m' := Exchange(m, w, a.w);
      match a.out
      case None => CRefused(slots, a.w, m')
      case Some(v) =>
        var m'' := if Unboxed(KindAt(p, j)) then m' else Release(Retain(m', v), At(slots, j));
        CAdmit(h, f, p, args, a.w, m'', Put(slots, j, Kept(p, j, v)), j + 1)
  }

  ghost function CEnter(h: Host, f: Function, p: Plan, args: seq<Value>, w: World, m: Mem): CEntered {
    var blank := EntrySlots(f, p, []);
    if |args| != |f.params| then CRefused(blank, w, m) else CAdmit(h, f, p, args, w, m, blank, 0)
  }

  // ----- the stack -----

  datatype CFrame = CFrame(fn: nat, pc: nat, slots: seq<Value>)
  datatype CStack = CLive(frames: seq<CFrame>, w: World, m: Mem) | COver(o: CConfig)

  predicate Runnable(units: seq<Compiled>, fr: CFrame) {
    fr.fn < |units| && |units[fr.fn].p.code| == |units[fr.fn].p.live| && fr.slots != []
  }

  predicate CAtCall(units: seq<Compiled>, fr: CFrame) {
    && Runnable(units, fr) && fr.pc < |units[fr.fn].p.code| && units[fr.fn].p.code[fr.pc].Call?
    && units[fr.fn].p.code[fr.pc].callee < |units|
  }

  function CCallOf(units: seq<Compiled>, fr: CFrame): Instr
    requires CAtCall(units, fr)
  {
    units[fr.fn].p.code[fr.pc]
  }

  /** What is in the slot the result will go to: the caller's destination, or the slot the host gave. */
  function ResultSlot(units: seq<Compiled>, below: seq<CFrame>, result: Value): Value {
    if below == [] || !CAtCall(units, below[|below| - 1]) then result
    else At(below[|below| - 1].slots, CCallOf(units, below[|below| - 1]).d)
  }

  /** The callee is done: its caller goes on, or cleans up and fails in turn. */
  function CDeliver(units: seq<Compiled>, below: seq<CFrame>, result: Value, o: CConfig): CStack
    requires o.CDone?
    decreases |below|
  {
    if below == [] || !CAtCall(units, below[|below| - 1]) then COver(o)
    else
      var caller, rest := below[|below| - 1], below[..|below| - 1];
      var p, d := units[caller.fn].p, CCallOf(units, caller).d;
      if o.ok then
        CLive(rest + [CFrame(caller.fn, caller.pc + 1, Put(caller.slots, d, Kept(p, d, o.result)))], o.w, o.m)
      else CDeliver(units, rest, result, Cleanup(p, false, caller.slots, ResultSlot(units, rest, result), o.w, o.m))
  }

  /** A frame for function j on top of `below`, or its cleanup when the entry refused. */
  ghost function CEnclose(units: seq<Compiled>, below: seq<CFrame>, result: Value, j: nat, e: CEntered): CStack
    requires j < |units|
  {
    match e
    case CAdmitted(slots, w, m) => CLive(below + [CFrame(j, 0, slots)], w, m)
    case CRefused(slots, w, m) =>
      if slots == [] then COver(CDone(false, result, w, m))
      else CDeliver(units, below, result, Cleanup(units[j].p, false, slots, ResultSlot(units, below, result), w, m))
  }

  ghost function CLaunch(h: Host, units: seq<Compiled>, result: Value, j: nat, args: seq<Value>, w: World, m: Mem)
    : CStack
    requires j < |units|
  {
    CEnclose(units, [], result, j, CEnter(h, units[j].g, units[j].p, args, w, m))
  }

  ghost function CAdvance(h: Host, units: seq<Compiled>, result: Value, c: CStack): CStack {
    if c.COver? || c.frames == [] || !Runnable(units, c.frames[|c.frames| - 1]) then c
    else
      var top, below := c.frames[|c.frames| - 1], c.frames[..|c.frames| - 1];
      if CAtCall(units, top) then
        var i := CCallOf(units, top);
        var k := units[i.callee];
        CEnclose(units, c.frames, result, i.callee, CEnter(h, k.g, k.p, Gather(top.slots, i.args), c.w, c.m))
      else
        var o := CStep(h, units[top.fn].p, ResultSlot(units, below, result), CState(top.pc, top.slots, c.w, c.m));
        if o.CRunning? then CLive(below + [CFrame(top.fn, o.s.pc, o.s.slots)], o.s.w, o.s.m)
        else CDeliver(units, below, result, o)
  }

  ghost function CRunStack(h: Host, units: seq<Compiled>, result: Value, c: CStack, n: nat): CStack
    decreases n
  {
    if n == 0 || c.COver? then c else CRunStack(h, units, result, CAdvance(h, units, result, c), n - 1)
  }

  ghost predicate CStackEnds(h: Host, units: seq<Compiled>, result: Value, c: CStack, o: CConfig) {
    exists n: nat :: CRunStack(h, units, result, c, n) == COver(o)
  }

  lemma {:induction false} CRunStackLast(h: Host, units: seq<Compiled>, result: Value, c: CStack, n: nat)
    requires n > 0
    ensures var d := CRunStack(h, units, result, c, n - 1);
      CRunStack(h, units, result, c, n) == if d.CLive? then CAdvance(h, units, result, d) else d
    decreases n
  {
    hide CAdvance;
    if c.CLive? && n > 1 {
      CRunStackLast(h, units, result, CAdvance(h, units, result, c), n - 1);
    }
  }

  // ----- accounting -----

  function TotalHeld(frames: seq<CFrame>): multiset<int> {
    if frames == [] then multiset{}
    else TotalHeld(frames[..|frames| - 1]) + Held(frames[|frames| - 1].slots)
  }

  /** What the counts hold besides the top frame, the world and the slot its result will go to. */
  function Rest(units: seq<Compiled>, below: seq<CFrame>, result: Value, outer: multiset<int>): multiset<int> {
    if below == [] then outer else TotalHeld(below) - Owned(ResultSlot(units, below, result)) + (Owned(result) + outer)
  }

  /** Frames that wait for their callee, with what their cleanup skips inline. */
  ghost predicate Waiting(units: seq<Compiled>, below: seq<CFrame>) {
    forall i :: 0 <= i < |below| ==>
      && CAtCall(units, below[i]) && CCallOf(units, below[i]).d < |below[i].slots|
      && SkipsInline(units[below[i].fn].p, below[i].slots)
  }

  ghost predicate SkipsInline(p: Plan, slots: seq<Value>) {
    forall r :: 0 <= r < |slots| && Skipped(p, r) ==> Trivial(slots[r].tag)
  }

  lemma {:induction false} ResultIsHeld(units: seq<Compiled>, below: seq<CFrame>, result: Value)
    requires Waiting(units, below) && below != []
    ensures Owned(ResultSlot(units, below, result)) <= TotalHeld(below)
  {
    hide Owned, Held, SkipsInline;
    var top := below[|below| - 1];
    HeldHas(top.slots, CCallOf(units, top).d);
  }

  /** Result slot and rest together are what the frames below, the host's slot and the callers hold. */
  lemma {:induction false} RestAdds(units: seq<Compiled>, below: seq<CFrame>, result: Value, outer: multiset<int>)
    requires Waiting(units, below)
    ensures Owned(ResultSlot(units, below, result)) + Rest(units, below, result, outer) ==
      TotalHeld(below) + (Owned(result) + outer)
  {
    hide Owned, Held, Waiting, ResultSlot;
    if below == [] {
      assert ResultSlot(units, below, result) == result by { NoCaller(units, result); }
    } else {
      ResultIsHeld(units, below, result);
      hide TotalHeld;
      var r, t := Owned(ResultSlot(units, below, result)), TotalHeld(below);
      assert r + (t - r + (Owned(result) + outer)) == t + (Owned(result) + outer);
    }
  }

  lemma {:induction false} NoCaller(units: seq<Compiled>, result: Value)
    ensures ResultSlot(units, [], result) == result
  {
  }

  ghost predicate Counted(frames: seq<CFrame>, w: World, m: Mem, result: Value, outer: multiset<int>) {
    m == Mem(TotalHeld(frames) + (Outside(w) + (Owned(result) + outer)), true)
  }

  /** The counts of the whole stack, seen from its top frame. */
  lemma {:induction false} CountedFromTop(units: seq<Compiled>, below: seq<CFrame>, top: CFrame, w: World, m: Mem,
                                          result: Value, outer: multiset<int>)
    requires Waiting(units, below) && top.fn < |units| && SkipsInline(units[top.fn].p, top.slots)
    ensures Counted(below + [top], w, m, result, outer) <==>
      Balanced(units[top.fn].p, top.slots, w, m, ResultSlot(units, below, result), Rest(units, below, result, outer))
  {
    hide Owned, Held, Waiting, ResultSlot, Outside, Rest, Skipped, Trivial;
    RestAdds(units, below, result, outer);
    var frames := below + [top];
    assert frames[..|frames| - 1] == below;
    var t, s, o, a := TotalHeld(below), Held(top.slots), Outside(w), Owned(result) + outer;
    assert TotalHeld(frames) == t + s;
    assert (t + s) + (o + a) == s + (o + (t + a));
  }

  /** The counts once the top frame is gone: what it handed over and what the rest holds. */
  lemma {:induction false} CountedAfter(units: seq<Compiled>, below: seq<CFrame>, w: World, result: Value,
                                        outer: multiset<int>)
    requires Waiting(units, below)
    ensures Counted(below, w, Mem(Outside(w) + (Owned(ResultSlot(units, below, result)) +
                                                  Rest(units, below, result, outer)), true), result, outer)
  {
    hide Owned, Held, Waiting, ResultSlot, Outside, Rest, TotalHeld;
    RestAdds(units, below, result, outer);
    var t, o, a := TotalHeld(below), Outside(w), Owned(result) + outer;
    assert o + (t + a) == t + (o + a);
  }

  // ----- entries -----

  lemma {:induction false} BlanksHoldNothing(vs: seq<Value>)
    requires forall k :: 0 <= k < |vs| ==> Trivial(vs[k].tag)
    ensures Held(vs) == multiset{}
  {
    hide Trivial;
    if vs != [] {
      BlanksHoldNothing(vs[1..]);
      assert Owned(vs[0]) == multiset{};
    }
  }

  /** A frame before any argument was copied in balances. */
  lemma {:induction false} BlankBalances(f: Function, p: Plan, w: World, slot: Value, rest: multiset<int>)
    ensures Balanced(p, EntrySlots(f, p, []), w, Mem(Outside(w) + (Owned(slot) + rest), true), slot, rest)
  {
    hide Outside, Owned, Held, Skipped;
    var blank := EntrySlots(f, p, []);
    NilIsInline();
    forall k | 0 <= k < |blank|
      ensures Trivial(blank[k].tag)
    {
      assert blank[k] == Blank(p, k);
    }
    BlanksHoldNothing(blank);
    assert multiset{} + (Outside(w) + (Owned(slot) + rest)) == Outside(w) + (Owned(slot) + rest);
  }

  lemma {:induction false} NextSlots(f: Function, p: Plan, done: seq<Value>, v: Value)
    requires |done| < |f.params| <= Size(f)
    ensures var slots, j := EntrySlots(f, p, done), |done|;
      EntrySlots(f, p, done + [v]) == if j in p.used then Put(slots, j, Kept(p, j, v)) else slots
  {
    hide Kept;
  }

  lemma {:induction false} FetchedIsAdmitted(h: Host, f: Function, looked: set<Reg>, args: seq<Value>, w: World, j: nat)
    requires j < |args| == |f.params|
    ensures j in looked ==> AdmitOne(h, f, looked, args, w, j) == Fetch(h, f, args, w, j)
    ensures j !in looked ==> AdmitOne(h, f, looked, args, w, j).out.Some? && AdmitOne(h, f, looked, args, w, j).w == w
  {
    hide CoerceAction;
  }

  /** How the emitted entry stands to the IR's, with the books balanced either way. */
  ghost predicate EntryRealizes(f: Function, p: Plan, e: Entered, c: CEntered, slot: Value, rest: multiset<int>) {
    && Balanced(p, c.slots, c.w, c.m, slot, rest) && c.w == e.w && |c.slots| == Size(f)
    && match e
       case Admitted(vs, _) => c.CAdmitted? && c.slots == EntrySlots(f, p, vs)
       case Refused(_) => c.CRefused?
  }

  lemma {:induction false} AdmitRealizes(sigs: seq<Signature>, h: Host, f: Function, p: Plan, args: seq<Value>,
                                         w: World, m: Mem, done: seq<Value>, slot: Value, rest: multiset<int>)
    requires Planned(sigs, f, p) && |f.params| <= Size(f) && HostContract(sigs, h) && Tagged(w.globals) && Tagged(args)
    requires |done| <= |args| == |f.params| && Acceptable(f, args) && ConformsUpTo(f, done)
    requires Balanced(p, EntrySlots(f, p, done), w, m, slot, rest)
    ensures EntryRealizes(f, p, Admit(h, f, p.used, args, w, done),
                          CAdmit(h, f, p, args, w, m, EntrySlots(f, p, done), |done|), slot, rest)
    decreases |args| - |done|
  {
    hide Planned, HostContract, Tagged, Acceptable, AdmitOne, Fetch, Balanced, EntrySlots, Kept, Exchange, Release,
      Retain, Unboxed, Skipped, Trivial;
    var j := |done|;
    if j < |args| {
      var a, slots := AdmitOne(h, f, p.used, args, w, j), EntrySlots(f, p, done);
      AdmitOneConforms(sigs, h, f, p.used, args, w, j);
      FetchedIsAdmitted(h, f, p.used, args, w, j);
      if j in p.used {
        ExchangeBalances(p, slots, w, a.w, m, slot, rest);
      }
      if a.out.Some? {
        var v := a.out.value;
        NextSlots(f, p, done, v);
        var m' := Exchange(m, w, a.w);
        var m'' := if Unboxed(KindAt(p, j)) then m' else Release(Retain(m', v), At(slots, j));
        if j in p.used {
          ArgumentKept(sigs, f, p, j, v);
          StoreBalances(p, slots, a.w, m', slot, rest, j, v);
        }
        AdmitRealizes(sigs, h, f, p, args, a.w, if j in p.used then m'' else m, done + [v], slot, rest);
      }
    }
  }

  lemma {:induction false} EnterRealizes(sigs: seq<Signature>, h: Host, f: Function, p: Plan, args: seq<Value>,
                                         w: World, slot: Value, rest: multiset<int>)
    requires Planned(sigs, f, p) && |f.params| <= Size(f) && HostContract(sigs, h) && Tagged(w.globals) && Tagged(args)
    requires Acceptable(f, args)
    ensures EntryRealizes(f, p, Enter(h, f, p.used, args, w),
                          CEnter(h, f, p, args, w, Mem(Outside(w) + (Owned(slot) + rest), true)), slot, rest)
  {
    hide Planned, HostContract, Tagged, Acceptable, Admit, CAdmit, Balanced, EntrySlots, Outside, Owned;
    BlankBalances(f, p, w, slot, rest);
    if |args| == |f.params| {
      AdmitRealizes(sigs, h, f, p, args, w, Mem(Outside(w) + (Owned(slot) + rest), true), [], slot, rest);
    }
  }

  // ----- lockstep -----

  ghost predicate Ready(sigs: seq<Signature>, k: Compiled) {
    Verified(k.g) && Planned(sigs, k.g, k.p) && StartsAlike(k.g, k.p)
  }

  ghost predicate AllReady(sigs: seq<Signature>, units: seq<Compiled>) {
    forall j :: 0 <= j < |units| ==> Ready(sigs, units[j])
  }

  /** The emitted frame is where the IR frame is and agrees with it on live registers. */
  ghost predicate FrameAgrees(units: seq<Compiled>, fr: Frame, cf: CFrame) {
    && cf.fn == fr.fn < |units| && cf.pc == fr.pc
    && var k := units[fr.fn];
    && cf.pc <= |k.p.code| && |cf.slots| == |fr.regs| == Size(k.g)
    && (forall r: Reg :: LiveIn(k.p.code, fr.pc, r) ==> At(cf.slots, r) == At(fr.regs, r))
    && SkipsInline(k.p, cf.slots)
  }

  /**
   The emitted run is where the IR run is: frame by frame while it goes on, and then with its
   result and world. At any time every count is what the frames, the world, the result slot and
   the callers hold, and no release was unfounded.
   */
  ghost predicate Keeps(units: seq<Compiled>, s: Stack, c: CStack, result: Value, outer: multiset<int>) {
    match s
    case Live(frames, w) =>
      && c.CLive? && c.w == w && |c.frames| == |frames| > 0
      && (forall i :: 0 <= i < |frames| ==> FrameAgrees(units, frames[i], c.frames[i]))
      && Counted(c.frames, w, c.m, result, outer)
    case Over(o) => !o.Running? && c == COver(Ended(o, result, outer))
  }

  lemma {:induction false} ReadyShape(sigs: seq<Signature>, k: Compiled)
    requires Ready(sigs, k)
    ensures k.p.code == k.g.code && |k.p.live| == |k.p.code| && WellFormed(k.g) && |k.g.params| <= Size(k.g)
  {
    hide Reports, LiveOut, UsedRegs, StartsAlike, DefinitelyAssigned, HintsGiven, UniqueLabels, TargetsExist, InRange;
  }

  lemma {:induction false} TopMatches(sigs: seq<Signature>, units: seq<Compiled>, below: seq<CFrame>, fr: Frame,
                                      cf: CFrame, w: World, m: Mem, result: Value, outer: multiset<int>)
    requires Waiting(units, below) && FrameAgrees(units, fr, cf) && Counted(below + [cf], w, m, result, outer)
    ensures Matches(units[cf.fn].p, StateOf(fr, w), CState(cf.pc, cf.slots, w, m), ResultSlot(units, below, result),
                    Rest(units, below, result, outer))
  {
    hide LiveIn, Waiting, ResultSlot, Rest, Counted, Balanced, SkipsInline;
    CountedFromTop(units, below, cf, w, m, result, outer);
  }

  lemma {:induction false} MatchesTop(units: seq<Compiled>, below: seq<CFrame>, fn: nat, s: State, c: CState,
                                      result: Value, outer: multiset<int>)
    requires Waiting(units, below) && fn < |units| && |s.regs| == Size(units[fn].g)
    requires Matches(units[fn].p, s, c, ResultSlot(units, below, result), Rest(units, below, result, outer))
    ensures var cf := CFrame(fn, c.pc, c.slots);
      FrameAgrees(units, Frame(fn, s.pc, s.regs), cf) && Counted(below + [cf], s.w, c.m, result, outer)
  {
    hide LiveIn, Waiting, ResultSlot, Rest, Counted, Skipped, Trivial, Outside, Owned, Held;
    var cf := CFrame(fn, c.pc, c.slots);
    CountedFromTop(units, below, cf, s.w, c.m, result, outer);
  }

  /** A failure unwinds the stack: every frame is cleaned up, and only what is outside it stays counted. */
  lemma {:induction false} Unwinds(units: seq<Compiled>, below: seq<CFrame>, w: World, result: Value,
                                   outer: multiset<int>)
    requires Waiting(units, below)
    ensures var slot := ResultSlot(units, below, result);
      CDeliver(units, below, result,
               CDone(false, slot, w, Mem(Outside(w) + (Owned(slot) + Rest(units, below, result, outer)), true))) ==
        COver(Ended(Failed(w), result, outer))
    decreases |below|
  {
    hide Outside, Owned, Counted, Balanced, SkipsInline, Rest, ResultSlot, Cleanup;
    var slot := ResultSlot(units, below, result);
    var m := Mem(Outside(w) + (Owned(slot) + Rest(units, below, result, outer)), true);
    if below == [] {
      NoCaller(units, result);
      assert Rest(units, below, result, outer) == outer by { NoRest(units, result, outer); }
    } else {
      var caller, rest := below[|below| - 1], below[..|below| - 1];
      CountedAfter(units, below, w, result, outer);
      assert below == rest + [caller];
      CountedFromTop(units, rest, caller, w, m, result, outer);
      var slot', rest' := ResultSlot(units, rest, result), Rest(units, rest, result, outer);
      CleanupBalances(units[caller.fn].p, false, caller.slots, slot', w, m, rest');
      Unwinds(units, rest, w, result, outer);
    }
  }

  lemma {:induction false} NoRest(units: seq<Compiled>, result: Value, outer: multiset<int>)
    ensures Rest(units, [], result, outer) == outer
  {
  }

  lemma {:induction false} SwapBooks(t: multiset<int>, h: multiset<int>, h': multiset<int>, o: multiset<int>,
                                     v: multiset<int>, a: multiset<int>, out: multiset<int>)
    requires h' + o == h + v && o <= h
    ensures out + (v + ((t + h) - o + a)) == (t + h') + (out + a)
  {
    forall x
      ensures (out + (v + ((t + h) - o + a)))[x] == ((t + h') + (out + a))[x]
    {
      assert (h' + o)[x] == (h + v)[x] && o[x] <= h[x];
    }
  }

  /** A callee that returns: its value replaces the one in the caller's destination slot. */
  lemma {:induction false} ReturnCounts(units: seq<Compiled>, rest: seq<CFrame>, caller: CFrame, v: Value, w: World,
                                        result: Value, outer: multiset<int>)
    requires CAtCall(units, caller) && CCallOf(units, caller).d < |caller.slots|
    ensures var d := CCallOf(units, caller).d;
      Counted(rest + [CFrame(caller.fn, caller.pc + 1, caller.slots[d := v])], w,
              Mem(Outside(w) + (Owned(v) + Rest(units, rest + [caller], result, outer)), true), result, outer)
  {
    hide Outside, Owned, Held;
    var d, below := CCallOf(units, caller).d, rest + [caller];
    assert below[|below| - 1] == caller && below[..|below| - 1] == rest;
    var next := CFrame(caller.fn, caller.pc + 1, caller.slots[d := v]);
    var frames := rest + [next];
    assert frames[|frames| - 1] == next && frames[..|frames| - 1] == rest;
    assert ResultSlot(units, below, result) == caller.slots[d];
    HeldPut(caller.slots, d, v);
    HeldHas(caller.slots, d);
    SwapBooks(TotalHeld(rest), Held(caller.slots), Held(next.slots), Owned(caller.slots[d]), Owned(v),
              Owned(result) + outer, Outside(w));
  }

  lemma {:induction false} ReturnAgrees(sigs: seq<Signature>, units: seq<Compiled>, fr: Frame, cf: CFrame, v: Value)
    requires AllReady(sigs, units) && FrameAgrees(units, fr, cf) && CAtCall(units, cf)
    requires var p, d := units[cf.fn].p, CCallOf(units, cf).d; Skipped(p, d) ==> Trivial(v.tag)
    ensures var d := CCallOf(units, cf).d;
      && d < |cf.slots|
      && FrameAgrees(units, Frame(fr.fn, fr.pc + 1, Put(fr.regs, d, v)), CFrame(cf.fn, cf.pc + 1, cf.slots[d := v]))
  {
    hide LiveIn, Skipped, Trivial, Ready;
    var k, i := units[cf.fn], CCallOf(units, cf);
    ReadyShape(sigs, k);
    assert InRange(k.g.code[cf.pc], Size(k.g)) && i.d in Reads(i) + Writes(i);
    forall r: Reg | LiveIn(k.p.code, fr.pc + 1, r)
      ensures At(cf.slots[i.d := v], r) == At(Put(fr.regs, i.d, v), r)
    {
      if r != i.d {
        CallEdge(k.p.code, cf.pc);
        assert LiveOut(k.p.code, cf.pc, r);
        LiveInUnfold(k.p.code, cf.pc, r);
      }
    }
  }

  lemma {:induction false} CallEdge(code: seq<Instr>, at: nat)
    requires at < |code| && code[at].Call?
    ensures Edge(code, at, at + 1)
  {
  }

  lemma {:induction false} EmittedShape(units: seq<Compiled>)
    ensures var prog := Emitted(units);
      && |prog.funcs| == |units|
      && forall j :: 0 <= j < |units| ==> prog.funcs[j] == units[j].g && Looked(prog, j) == units[j].p.used
  {
  }

  lemma {:induction false} SameCalls(sigs: seq<Signature>, units: seq<Compiled>, fr: Frame, cf: CFrame)
    requires AllReady(sigs, units) && FrameAgrees(units, fr, cf)
    ensures Runnable(units, cf)
    ensures !AtCall(Emitted(units), fr) ==> !CAtCall(units, cf)
    ensures AtCall(Emitted(units), fr) && CallOf(Emitted(units), fr).callee < |units| ==>
      CAtCall(units, cf) && CCallOf(units, cf) == CallOf(Emitted(units), fr) && CCallOf(units, cf).d < |cf.slots|
  {
    hide LiveIn, SkipsInline, Ready, Emitted;
    EmittedShape(units);
    var k := units[cf.fn];
    ReadyShape(sigs, k);
    if AtCall(Emitted(units), fr) {
      var i := CallOf(Emitted(units), fr);
      assert InRange(k.g.code[cf.pc], Size(k.g)) && i.d in Reads(i) + Writes(i);
    }
  }

  ghost predicate FramesAgree(units: seq<Compiled>, frames: seq<Frame>, cframes: seq<CFrame>) {
    |cframes| == |frames| > 0 && forall i :: 0 <= i < |frames| ==> FrameAgrees(units, frames[i], cframes[i])
  }

  lemma {:induction false} FrameWaits(sigs: seq<Signature>, units: seq<Compiled>, base: Host, fr: Frame, w: World,
                                      callee: nat, entered: Origin, cf: CFrame)
    requires AllReady(sigs, units) && FrameAgrees(units, fr, cf) && Waits(Emitted(units), base, fr, w, callee, entered)
    ensures CAtCall(units, cf) && CCallOf(units, cf).d < |cf.slots| && SkipsInline(units[cf.fn].p, cf.slots)
  {
    hide AllReady, LiveIn, SkipsInline, Emitted, Good, Enter, Gather;
    EmittedShape(units);
    SameCalls(sigs, units, fr, cf);
  }

  /** The frames below the top one wait for it. */
  lemma {:induction false} BelowWaits(sigs: seq<Signature>, units: seq<Compiled>, base: Host, depth: nat,
                                      frames: seq<Frame>, w: World, from: seq<Origin>, cframes: seq<CFrame>)
    requires AllReady(sigs, units) && FramesAgree(units, frames, cframes)
    requires Traces(Emitted(units), base, depth, frames, w, from)
    ensures Waiting(units, cframes[..|cframes| - 1])
  {
    hide AllReady, FrameAgrees, Emitted, OnRun, Waits, SkipsInline;
    forall i | 0 <= i < |frames| - 1
      ensures CAtCall(units, cframes[i]) && CCallOf(units, cframes[i]).d < |cframes[i].slots|
      ensures SkipsInline(units[cframes[i].fn].p, cframes[i].slots)
    {
      FrameWaits(sigs, units, base, frames[i], from[i].w, frames[i + 1].fn, from[i + 1], cframes[i]);
    }
  }

  /** Every frame of the run has the tags its plan relies on. */
  lemma {:induction false} FrameTags(sigs: seq<Signature>, units: seq<Compiled>, base: Host, depth: nat, fr: Frame,
                                     from: Origin)
    requires AllReady(sigs, units) && Sound(sigs, Emitted(units)) && HostContract(sigs, base)
    requires OnRun(Emitted(units), base, depth, fr, from)
    ensures fr.fn < |units|
    ensures var k := units[fr.fn];
      fr.pc < |k.g.code| ==> HasProvenTags(Linked(Emitted(units), base, depth), k.g, k.p.kinds, StateOf(fr, from.w))
  {
    hide Sound, HostContract, Linked, Verified, Reports, LiveOut, UsedRegs, StartsAlike, Conforms, Tagged, Emitted,
      HasProvenTags, Run;
    EmittedShape(units);
    var k := units[fr.fn];
    assert Ready(sigs, k);
    FrameHasKinds(sigs, Emitted(units), base, depth, fr, from, k.p.kinds);
  }

  lemma {:induction false} SameTags(h: Host, h': Host, f: Function, kinds: seq<int>, s: State)
    requires SameEngine(h, h') && s.pc < |f.code| && !f.code[s.pc].Call? && HasProvenTags(h', f, kinds, s)
    ensures HasProvenTags(h, f, kinds, s)
  {
    hide SameEngine, Execute, Reads;
    ExecuteSame(h, h', f.code[s.pc], s.regs, s.w);
  }

  /** What a caller gets back is of the kind its destination is kept as. */
  lemma {:induction false} ReturnedKind(sigs: seq<Signature>, units: seq<Compiled>, base: Host, depth: nat, fr: Frame,
                                        from: Origin, callee: nat, entered: Origin, v: Value, w: World)
    requires AllReady(sigs, units) && Sound(sigs, Emitted(units)) && HostContract(sigs, base)
    requires OnRun(Emitted(units), base, depth + 1, fr, from)
    requires Waits(Emitted(units), base, fr, from.w, callee, entered)
    requires var g := Emitted(units).funcs[callee];
      Ends(Linked(Emitted(units), base, depth), g.code, Entry(g, entered.args, entered.w0), Returned(v, w))
    ensures AtCall(Emitted(units), fr) && fr.fn < |units|
    ensures var p, d := units[fr.fn].p, CallOf(Emitted(units), fr).d;
      Kept(p, d, v) == v && (Skipped(p, d) ==> Trivial(v.tag))
  {
    hide Sound, HostContract, Linked, Verified, Reports, LiveOut, UsedRegs, StartsAlike, Conforms, Tagged, Emitted,
      HasProvenTags, Run, Execute, Kept, Skipped, Trivial, Good, Enter, Gather, Ends, Entry;
    EmittedShape(units);
    var prog, k := Emitted(units), units[fr.fn];
    var h, s := Linked(prog, base, depth + 1), StateOf(fr, from.w);
    FrameTags(sigs, units, base, depth + 1, fr, from);
    WaitingStep(prog, base, depth, fr, from.w, callee, entered, Returned(v, w));
    assert Ready(sigs, k);
    var d := CallOf(prog, fr).d;
    assert Execute(h, k.g.code[s.pc], s.regs, s.w).out == Some(v);
    KeptWhole(h, k.g, k.p, s, d, v);
    SkippedStaysInline(sigs, h, k.g, k.p, s, d, v);
  }

  /** The emitted stack after the top frame took a step that was no call. */
  ghost function CStepped(units: seq<Compiled>, below: seq<CFrame>, result: Value, fn: nat, o: CConfig): CStack {
    if o.CRunning? then CLive(below + [CFrame(fn, o.s.pc, o.s.slots)], o.s.w, o.s.m)
    else CDeliver(units, below, result, o)
  }

  lemma {:induction false} CAdvanceStep(h: Host, units: seq<Compiled>, result: Value, below: seq<CFrame>, top: CFrame,
                                        w: World, m: Mem)
    requires Runnable(units, top) && !CAtCall(units, top)
    ensures CAdvance(h, units, result, CLive(below + [top], w, m)) ==
      CStepped(units, below, result, top.fn,
               CStep(h, units[top.fn].p, ResultSlot(units, below, result), CState(top.pc, top.slots, w, m)))
  {
    hide CStep, CDeliver, ResultSlot;
    assert (below + [top])[..|below|] == below;
  }

  lemma {:induction false} CAdvanceCall(h: Host, units: seq<Compiled>, result: Value, below: seq<CFrame>, top: CFrame,
                                        w: World, m: Mem)
    requires CAtCall(units, top)
    ensures var i := CCallOf(units, top);
      var k := units[i.callee];
      CAdvance(h, units, result, CLive(below + [top], w, m)) ==
        CEnclose(units, below + [top], result, i.callee, CEnter(h, k.g, k.p, Gather(top.slots, i.args), w, m))
  {
    hide CEnter, CEnclose, Gather;
  }

  /** The top frame's step in both machines, with the result slot and the rest of the stack as its callers. */
  lemma {:induction false} TopSteps(sigs: seq<Signature>, units: seq<Compiled>, h: Host, depth: nat, fr: Frame,
                                    from: Origin, below: seq<CFrame>, cf: CFrame, m: Mem, result: Value,
                                    outer: multiset<int>)
    requires AllReady(sigs, units) && Sound(sigs, Emitted(units)) && HostContract(sigs, h)
    requires OnRun(Emitted(units), h, depth, fr, from) && !AtCall(Emitted(units), fr)
    requires FrameAgrees(units, fr, cf) && Waiting(units, below) && Counted(below + [cf], from.w, m, result, outer)
    ensures Runnable(units, cf)
    ensures var p := units[cf.fn].p;
      var slot, rest := ResultSlot(units, below, result), Rest(units, below, result, outer);
      Realizes(p, Step(h, p.code, StateOf(fr, from.w)), CStep(h, p, slot, CState(cf.pc, cf.slots, from.w, m)), slot,
               rest)
    ensures var o := Step(h, units[cf.fn].p.code, StateOf(fr, from.w));
      o.Running? ==> |o.s.regs| == Size(units[cf.fn].g)
  {
    hide Sound, HostContract, Linked, Emitted, OnRun, Waiting, Counted, ResultSlot, Rest, Realizes, Step, CStep,
      Verified, HasProvenTags, Reports, LiveOut, UsedRegs, StartsAlike, LiveIn, SkipsInline, Matches;
    EmittedShape(units);
    var prog, k, s := Emitted(units), units[cf.fn], StateOf(fr, from.w);
    assert Ready(sigs, k);
    ReadyShape(sigs, k);
    SameCalls(sigs, units, fr, cf);
    TopMatches(sigs, units, below, fr, cf, from.w, m, result, outer);
    if fr.pc < |k.g.code| {
      FrameTags(sigs, units, h, depth, fr, from);
      LinkedEngine(prog, h, depth);
      SameTags(h, Linked(prog, h, depth), k.g, k.p.kinds, s);
    }
    StepRealizes(sigs, h, k.g, k.p, s, CState(cf.pc, cf.slots, from.w, m), ResultSlot(units, below, result),
                 Rest(units, below, result, outer));
    StepSize(h, k.g.code, s);
  }

  lemma {:induction false} MoveKeeps(units: seq<Compiled>, below: seq<Frame>, cbelow: seq<CFrame>, fn: nat, t: State,
                                     c: CState, result: Value, outer: multiset<int>)
    requires Waiting(units, cbelow) && |below| == |cbelow|
    requires forall i :: 0 <= i < |below| ==> FrameAgrees(units, below[i], cbelow[i])
    requires fn < |units| && |t.regs| == Size(units[fn].g)
    requires Matches(units[fn].p, t, c, ResultSlot(units, cbelow, result), Rest(units, cbelow, result, outer))
    ensures Keeps(units, Live(below + [Frame(fn, t.pc, t.regs)], t.w),
                  CLive(cbelow + [CFrame(fn, c.pc, c.slots)], c.w, c.m), result, outer)
  {
    hide FrameAgrees, Waiting, Counted, ResultSlot, Rest, LiveIn, Balanced;
    MatchesTop(units, cbelow, fn, t, c, result, outer);
  }

  /** A return reaches the caller below, or ends the run. */
  lemma {:induction false} ReturnKeeps(sigs: seq<Signature>, units: seq<Compiled>, below: seq<Frame>,
                                       cbelow: seq<CFrame>, v: Value, w: World, result: Value, outer: multiset<int>)
    requires AllReady(sigs, units) && Waiting(units, cbelow) && |below| == |cbelow|
    requires forall i :: 0 <= i < |below| ==> FrameAgrees(units, below[i], cbelow[i])
    requires below != [] ==>
      && var fr := below[|below| - 1];
      && AtCall(Emitted(units), fr) && CallOf(Emitted(units), fr).callee < |units| && fr.fn < |units|
      && var p, d := units[fr.fn].p, CallOf(Emitted(units), fr).d;
      Kept(p, d, v) == v && (Skipped(p, d) ==> Trivial(v.tag))
    ensures Keeps(units, Deliver(Emitted(units), below, Returned(v, w)),
                  CDeliver(units, cbelow, result, CDone(true, v, w, Mem(Outside(w) + (Owned(v) +
                    Rest(units, cbelow, result, outer)), true))),
                  result, outer)
  {
    hide AllReady, FrameAgrees, SkipsInline, Counted, LiveIn, Outside, Owned, Kept, Skipped, Trivial, Emitted, Rest;
    if below == [] {
      NoRest(units, result, outer);
    } else {
      var fr, cf, rest, crest := below[|below| - 1], cbelow[|below| - 1], below[..|below| - 1], cbelow[..|below| - 1];
      assert FrameAgrees(units, below[|below| - 1], cbelow[|below| - 1]);
      AgreeingFns(units, fr, cf);
      SameCalls(sigs, units, fr, cf);
      ReturnAgrees(sigs, units, fr, cf, v);
      ReturnCounts(units, crest, cf, v, w, result, outer);
      assert cbelow == crest + [cf];
    }
  }

  lemma {:induction false} AgreeingFns(units: seq<Compiled>, fr: Frame, cf: CFrame)
    requires FrameAgrees(units, fr, cf)
    ensures cf.fn == fr.fn && cf.pc == fr.pc
  {
  }

  lemma {:induction false} StepKeeps(sigs: seq<Signature>, units: seq<Compiled>, h: Host, depth: nat,
                                     frames: seq<Frame>, w: World, from: seq<Origin>, cframes: seq<CFrame>, m: Mem,
                                     result: Value, outer: multiset<int>)
    requires AllReady(sigs, units) && Sound(sigs, Emitted(units)) && HostContract(sigs, h)
    requires Traces(Emitted(units), h, depth, frames, w, from) && FramesAgree(units, frames, cframes)
    requires Counted(cframes, w, m, result, outer) && !AtCall(Emitted(units), frames[|frames| - 1])
    ensures Keeps(units, Advance(h, Emitted(units), Live(frames, w)),
                  CAdvance(h, units, result, CLive(cframes, w, m)), result, outer)
  {
    hide AllReady, Sound, HostContract, Emitted, OnRun, Waits, Waiting, Counted, ResultSlot, Rest, Step, CStep,
      FrameAgrees, CDeliver, Deliver, Advance, CAdvance, Matches, AtCall, CAtCall, Outside, Owned;
    EmittedShape(units);
    var prog, k := Emitted(units), |frames| - 1;
    var fr, cf, below, cbelow := frames[k], cframes[k], frames[..k], cframes[..k];
    assert frames == below + [fr] && cframes == cbelow + [cf];
    assert OnRun(prog, h, depth - k, frames[k], from[k]) && FrameAgrees(units, frames[k], cframes[k]);
    AgreeingFns(units, fr, cf);
    BelowWaits(sigs, units, h, depth, frames, w, from, cframes);
    TopSteps(sigs, units, h, depth - k, fr, from[k], cbelow, cf, m, result, outer);
    SameCalls(sigs, units, fr, cf);
    FrameKnown(sigs, units, fr, cf);
    AdvanceStep(h, prog, below, fr, w);
    CAdvanceStep(h, units, result, cbelow, cf, w, m);
    var o := Step(h, units[cf.fn].p.code, StateOf(fr, w));
    if o.Running? {
      var c := CStep(h, units[cf.fn].p, ResultSlot(units, cbelow, result), CState(cf.pc, cf.slots, w, m));
      SameWorld(units[cf.fn].p, o.s, c.s, ResultSlot(units, cbelow, result), Rest(units, cbelow, result, outer));
      MoveKeeps(units, below, cbelow, cf.fn, o.s, c.s, result, outer);
    } else if o.Failed? {
      Unwinds(units, cbelow, o.w, result, outer);
      assert Deliver(prog, below, o) == Over(o) by { FailedDelivered(prog, below, o); }
    } else {
      if below != [] {
        CallerReady(sigs, units, h, depth, frames, w, from, o.v, o.w);
      }
      ReturnKeeps(sigs, units, below, cbelow, o.v, o.w, result, outer);
    }
  }

  lemma {:induction false} FailedDelivered(prog: Program, below: seq<Frame>, o: Config)
    requires o.Failed?
    ensures Deliver(prog, below, o) == Over(o)
  {
  }

  lemma {:induction false} SameWorld(p: Plan, s: State, c: CState, slot: Value, rest: multiset<int>)
    requires Matches(p, s, c, slot, rest)
    ensures c.w == s.w
  {
  }

  lemma {:induction false} FrameKnown(sigs: seq<Signature>, units: seq<Compiled>, fr: Frame, cf: CFrame)
    requires AllReady(sigs, units) && FrameAgrees(units, fr, cf)
    ensures fr.fn < |Emitted(units).funcs| && Emitted(units).funcs[fr.fn].code == units[cf.fn].p.code
  {
    hide LiveIn, SkipsInline, Ready;
    ReadyShape(sigs, units[cf.fn]);
  }

  /** The caller of a frame that returns is at its call, and gets a value of the kind it expects. */
  lemma {:induction false} CallerReady(sigs: seq<Signature>, units: seq<Compiled>, h: Host, depth: nat,
                                       frames: seq<Frame>, w: World, from: seq<Origin>, v: Value, w': World)
    requires AllReady(sigs, units) && Sound(sigs, Emitted(units)) && HostContract(sigs, h)
    requires Traces(Emitted(units), h, depth, frames, w, from) && |frames| > 1
    requires var fr := frames[|frames| - 1];
      && fr.fn < |Emitted(units).funcs| && !AtCall(Emitted(units), fr)
      && Step(h, Emitted(units).funcs[fr.fn].code, StateOf(fr, w)) == Returned(v, w')
    ensures var fr := frames[|frames| - 2];
      && AtCall(Emitted(units), fr) && CallOf(Emitted(units), fr).callee < |units| && fr.fn < |units|
      && var p, d := units[fr.fn].p, CallOf(Emitted(units), fr).d;
      Kept(p, d, v) == v && (Skipped(p, d) ==> Trivial(v.tag))
  {
    hide AllReady, Sound, HostContract, Emitted, Step, Kept, Skipped, Trivial, Linked, Run, Entry, Conforms, Tagged,
      Good, Enter, Gather, Traces;
    EmittedShape(units);
    var prog, k := Emitted(units), |frames| - 1;
    TracePop(prog, h, depth, frames, w, from);
    TopWorld(prog, h, depth, frames, w, from);
    var g, o, linked := prog.funcs[frames[k].fn], from[k], Linked(prog, h, depth - k);
    LinkedEngine(prog, h, depth - k);
    StepSame(h, linked, g.code, StateOf(frames[k], w));
    EndsNext(linked, g.code, Entry(g, o.args, o.w0), o.steps, StateOf(frames[k], w));
    assert Ends(linked, g.code, Entry(g, o.args, o.w0), Returned(v, w'));
    ReturnedKind(sigs, units, h, depth - k, frames[k - 1], from[k - 1], frames[k].fn, o, v, w');
  }

  /** A fresh frame agrees with the IR's. */
  lemma {:induction false} FirstAgrees(sigs: seq<Signature>, units: seq<Compiled>, j: nat, vs: seq<Value>, w: World)
    requires AllReady(sigs, units) && j < |units| && Conforms(units[j].g, vs)
    ensures var k := units[j];
      FrameAgrees(units, Frame(j, 0, Entry(k.g, vs, w).regs), CFrame(j, 0, EntrySlots(k.g, k.p, vs)))
  {
    hide Conforms, LiveIn, Reports, LiveOut, UsedRegs, StartsAlike, Verified, Trivial, Skipped, EntrySlots;
    var k := units[j];
    assert Ready(sigs, k);
    EntryAgreesExactly(sigs, k.g, k.p, vs, w);
    forall r | 0 <= r < Size(k.g) && Skipped(k.p, r)
      ensures Trivial(EntrySlots(k.g, k.p, vs)[r].tag)
    {
      EntrySkipsInline(sigs, k.g, k.p, vs, r);
    }
  }

  /** Entering a function on top of a waiting stack, in both machines. */
  lemma {:induction false} EncloseKeeps(sigs: seq<Signature>, units: seq<Compiled>, below: seq<Frame>,
                                        cbelow: seq<CFrame>, j: nat, e: Entered, c: CEntered, result: Value,
                                        outer: multiset<int>)
    requires AllReady(sigs, units) && Waiting(units, cbelow) && |below| == |cbelow| && j < |units|
    requires forall i :: 0 <= i < |below| ==> FrameAgrees(units, below[i], cbelow[i])
    requires e.Admitted? ==> Conforms(units[j].g, e.args)
    requires EntryRealizes(units[j].g, units[j].p, e, c, ResultSlot(units, cbelow, result),
                           Rest(units, cbelow, result, outer))
    ensures j < |Emitted(units).funcs|
    ensures Keeps(units, Enclose(Emitted(units), below, j, e), CEnclose(units, cbelow, result, j, c), result, outer)
  {
    hide AllReady, Waiting, FrameAgrees, Counted, ResultSlot, Rest, Emitted, Conforms, CDeliver, EntrySlots, Outside,
      Owned, Cleanup;
    EmittedShape(units);
    var g, p := units[j].g, units[j].p;
    if e.Admitted? {
      var fr, cf := Frame(j, 0, Entry(g, e.args, e.w).regs), CFrame(j, 0, c.slots);
      FirstAgrees(sigs, units, j, e.args, e.w);
      CountedFromTop(units, cbelow, cf, c.w, c.m, result, outer);
    } else {
      var slot, rest := ResultSlot(units, cbelow, result), Rest(units, cbelow, result, outer);
      CleanupBalances(p, false, c.slots, slot, c.w, c.m, rest);
      Unwinds(units, cbelow, c.w, result, outer);
    }
  }

  lemma {:induction false} SameArguments(units: seq<Compiled>, fr: Frame, cf: CFrame)
    requires FrameAgrees(units, fr, cf) && CAtCall(units, cf)
    ensures var i := CCallOf(units, cf); Gather(cf.slots, i.args) == Gather(fr.regs, i.args)
  {
    hide LiveIn, SkipsInline, Gather;
    var code, i := units[cf.fn].p.code, CCallOf(units, cf);
    forall r | r in i.args
      ensures At(cf.slots, r) == At(fr.regs, r)
    {
      assert r in Reads(i);
      LiveInUnfold(code, cf.pc, r);
    }
    GatherAgree(cf.slots, fr.regs, i.args);
  }

  /** The counts when the callee starts: its result slot is the caller's destination. */
  lemma {:induction false} CountedForCallee(units: seq<Compiled>, frames: seq<CFrame>, w: World, m: Mem, result: Value,
                                            outer: multiset<int>)
    requires Waiting(units, frames) && Counted(frames, w, m, result, outer)
    ensures m == Mem(Outside(w) + (Owned(ResultSlot(units, frames, result)) + Rest(units, frames, result, outer)), true)
  {
    hide Waiting, ResultSlot, Rest, Outside, Owned, TotalHeld;
    CountedAfter(units, frames, w, result, outer);
  }

  lemma {:induction false} AllWait(units: seq<Compiled>, below: seq<CFrame>, top: CFrame)
    requires Waiting(units, below) && CAtCall(units, top) && CCallOf(units, top).d < |top.slots|
    requires SkipsInline(units[top.fn].p, top.slots)
    ensures Waiting(units, below + [top])
  {
    hide CAtCall, SkipsInline;
  }

  lemma {:induction false} CallKeeps(sigs: seq<Signature>, units: seq<Compiled>, h: Host, depth: nat,
                                     frames: seq<Frame>, w: World, from: seq<Origin>, cframes: seq<CFrame>, m: Mem,
                                     result: Value, outer: multiset<int>)
    requires AllReady(sigs, units) && Sound(sigs, Emitted(units)) && HostContract(sigs, h)
    requires Traces(Emitted(units), h, depth, frames, w, from) && FramesAgree(units, frames, cframes)
    requires Counted(cframes, w, m, result, outer) && AtCall(Emitted(units), frames[|frames| - 1])
    ensures Keeps(units, Advance(h, Emitted(units), Live(frames, w)),
                  CAdvance(h, units, result, CLive(cframes, w, m)), result, outer)
  {
    hide Sound, HostContract, Emitted, OnRun, Waits, Waiting, Counted, ResultSlot, Rest, FrameAgrees, Advance, CAdvance,
      CAtCall, Outside, Owned, Acceptable, Tagged, Enter, CEnter, Gather, EntryRealizes, Ready, Keeps, Conforms;
    EmittedShape(units);
    var prog, k := Emitted(units), |frames| - 1;
    var fr, cf, below, cbelow := frames[k], cframes[k], frames[..k], cframes[..k];
    assert frames == below + [fr] && cframes == cbelow + [cf];
    assert OnRun(prog, h, depth - k, frames[k], from[k]) && FrameAgrees(units, frames[k], cframes[k]);
    FrameIsProper(sigs, prog, h, depth - k, fr, from[k]);
    BelowWaits(sigs, units, h, depth, frames, w, from, cframes);
    var i := CallOf(prog, fr);
    var args := Gather(fr.regs, i.args);
    assert Good(prog, i.callee, args, w);
    SameCalls(sigs, units, fr, cf);
    FrameSkips(units, fr, cf);
    AllWait(units, cbelow, cf);
    SameArguments(units, fr, cf);
    AdvanceCall(h, prog, below, fr, w);
    CAdvanceCall(h, units, result, cbelow, cf, w, m);
    CountedForCallee(units, cframes, w, m, result, outer);
    var u := units[i.callee];
    assert Ready(sigs, u);
    ReadyShape(sigs, u);
    EnterConforms(sigs, h, u.g, u.p.used, args, w);
    assert Planned(sigs, u.g, u.p) by { ReadyPlan(sigs, u); }
    EnterRealizes(sigs, h, u.g, u.p, args, w, ResultSlot(units, cframes, result), Rest(units, cframes, result, outer));
    EncloseKeeps(sigs, units, frames, cframes, i.callee, Enter(h, u.g, u.p.used, args, w),
                 CEnter(h, u.g, u.p, args, w, m), result, outer);
  }

  lemma {:induction false} ReadyPlan(sigs: seq<Signature>, k: Compiled)
    requires Ready(sigs, k)
    ensures Planned(sigs, k.g, k.p)
  {
    hide Planned, Verified, StartsAlike;
  }

  lemma {:induction false} FrameSkips(units: seq<Compiled>, fr: Frame, cf: CFrame)
    requires FrameAgrees(units, fr, cf)
    ensures cf.fn < |units| && SkipsInline(units[cf.fn].p, cf.slots)
  {
    hide LiveIn, SkipsInline;
  }

  lemma {:induction false} LaunchKeeps(sigs: seq<Signature>, units: seq<Compiled>, h: Host, j: nat, args: seq<Value>,
                                       w: World, result: Value, outer: multiset<int>)
    requires AllReady(sigs, units) && HostContract(sigs, h) && Good(Emitted(units), j, args, w)
    ensures j < |units|
    ensures Keeps(units, Launch(h, Emitted(units), j, args, w),
                  CLaunch(h, units, result, j, args, w, Mem(Outside(w) + (Owned(result) + outer), true)), result, outer)
  {
    hide HostContract, Emitted, Outside, Owned, Acceptable, Tagged, Enter, CEnter, EntryRealizes, Ready, Keeps,
      Conforms, Enclose, CEnclose, ResultSlot, Rest;
    EmittedShape(units);
    var u := units[j];
    assert Ready(sigs, u);
    ReadyShape(sigs, u);
    ReadyPlan(sigs, u);
    NoCaller(units, result);
    NoRest(units, result, outer);
    EnterConforms(sigs, h, u.g, u.p.used, args, w);
    EnterRealizes(sigs, h, u.g, u.p, args, w, result, outer);
    var m := Mem(Outside(w) + (Owned(result) + outer), true);
    var e, c := Enter(h, u.g, u.p.used, args, w), CEnter(h, u.g, u.p, args, w, m);
    EncloseKeeps(sigs, units, [], [], j, e, c, result, outer);
  }

  /**
   Refinement and conservation for whole runs: after any number of steps the emitted program is
   where the IR program is, frame by frame, whether or not the run ever ends. Callees work on the
   counts of their callers, and at every step each count is what the frames of the stack, the
   globals, the engine, the result slot and the callers hold.
   */
  lemma {:induction false} EmittedRunKeeps(sigs: seq<Signature>, units: seq<Compiled>, h: Host, j: nat,
                                           args: seq<Value>, w: World, result: Value, outer: multiset<int>, n: nat)
    requires AllReady(sigs, units) && Sound(sigs, Emitted(units)) && HostContract(sigs, h)
    requires Good(Emitted(units), j, args, w)
    ensures j < |units|
    ensures Keeps(units, RunStack(h, Emitted(units), Launch(h, Emitted(units), j, args, w), n),
                  CRunStack(h, units, result,
                            CLaunch(h, units, result, j, args, w, Mem(Outside(w) + (Owned(result) + outer), true)), n),
                  result, outer)
    decreases n
  {
    hide AllReady, Sound, HostContract, Emitted, Outside, Owned, Acceptable, Tagged, Counted, FrameAgrees, Advance,
      CAdvance, Launch, CLaunch, AtCall, Traces;
    EmittedShape(units);
    LaunchKeeps(sigs, units, h, j, args, w, result, outer);
    var prog, m := Emitted(units), Mem(Outside(w) + (Owned(result) + outer), true);
    var a, c := Launch(h, prog, j, args, w), CLaunch(h, units, result, j, args, w, m);
    if n > 0 {
      EmittedRunKeeps(sigs, units, h, j, args, w, result, outer, n - 1);
      RunStackLast(h, prog, a, n);
      CRunStackLast(h, units, result, c, n);
      var a', c' := RunStack(h, prog, a, n - 1), CRunStack(h, units, result, c, n - 1);
      if a'.Live? {
        var from := LaunchTraces(sigs, units, h, j, args, w, n - 1);
        if AtCall(prog, a'.frames[|a'.frames| - 1]) {
          CallKeeps(sigs, units, h, n - 1, a'.frames, a'.w, from, c'.frames, c'.m, result, outer);
        } else {
          StepKeeps(sigs, units, h, n - 1, a'.frames, a'.w, from, c'.frames, c'.m, result, outer);
        }
      }
    }
  }

  lemma {:induction false} RunStackLast(h: Host, prog: Program, c: Stack, n: nat)
    requires n > 0
    ensures var d := RunStack(h, prog, c, n - 1);
      RunStack(h, prog, c, n) == if d.Live? then Advance(h, prog, d) else d
  {
    hide Advance;
    RunStackSplit(h, prog, c, n - 1, 1);
    var d := RunStack(h, prog, c, n - 1);
    if d.Live? {
      OneStep(h, prog, d);
    }
  }

  lemma {:induction false} LaunchTraces(sigs: seq<Signature>, units: seq<Compiled>, h: Host, j: nat, args: seq<Value>,
                                        w: World, n: nat) returns (from: seq<Origin>)
    requires AllReady(sigs, units) && Sound(sigs, Emitted(units)) && HostContract(sigs, h)
    requires Good(Emitted(units), j, args, w)
    requires RunStack(h, Emitted(units), Launch(h, Emitted(units), j, args, w), n).Live?
    ensures var c := RunStack(h, Emitted(units), Launch(h, Emitted(units), j, args, w), n);
      Traces(Emitted(units), h, n, c.frames, c.w, from)
  {
    hide AllReady, Sound, HostContract, Emitted, Acceptable, Tagged, Traces, Enter, Conforms, Advance;
    var prog := Emitted(units);
    EnterConforms(sigs, h, prog.funcs[j], Looked(prog, j), args, w);
    var e := Enter(h, prog.funcs[j], Looked(prog, j), args, w);
    assert e.Admitted? by { LaunchedLive(h, prog, j, args, w, n); }
    var frames;
    frames, from := RunTraces(sigs, prog, h, n, j, e.args, e.w, n);
    assert [] + [First(prog, j, e.args, e.w)] == [First(prog, j, e.args, e.w)];
  }

  lemma {:induction false} LaunchedLive(h: Host, prog: Program, j: nat, args: seq<Value>, w: World, n: nat)
    requires j < |prog.funcs| && RunStack(h, prog, Launch(h, prog, j, args, w), n).Live?
    ensures Enter(h, prog.funcs[j], Looked(prog, j), args, w).Admitted?
  {
    hide Enter, Advance;
  }

  // ----- unboxed registers have no tag of their own, in any frame -----

  ghost predicate FrameUntagged(units: seq<Compiled>, fr: CFrame) {
    fr.fn < |units| ==> Untagged(units[fr.fn].p, fr.slots)
  }

  ghost predicate AllUntagged(units: seq<Compiled>, c: CStack) {
    c.CLive? ==> forall i :: 0 <= i < |c.frames| ==> FrameUntagged(units, c.frames[i])
  }

  lemma {:induction false} PutUntagged(p: Plan, slots: seq<Value>, r: Reg, v: Value)
    requires Untagged(p, slots)
    ensures Untagged(p, Put(slots, r, Kept(p, r, v)))
  {
    hide Unboxed;
  }

  lemma {:induction false} AdmitUntagged(h: Host, f: Function, p: Plan, args: seq<Value>, w: World, m: Mem,
                                         slots: seq<Value>, j: nat)
    requires j <= |args| == |f.params| && Untagged(p, slots)
    ensures Untagged(p, CAdmit(h, f, p, args, w, m, slots, j).slots)
    decreases |args| - j
  {
    hide Untagged, Fetch, Kept, Exchange, Release, Retain, Unboxed;
    if j < |args| {
      if j !in p.used {
        AdmitUntagged(h, f, p, args, w, m, slots, j + 1);
      } else {
        var a := Fetch(h, f, args, w, j);
        var m' := Exchange(m, w, a.w);
        if a.out.Some? {
          var v := a.out.value;
          PutUntagged(p, slots, j, v);
          var m'' := if Unboxed(KindAt(p, j)) then m' else Release(Retain(m', v), At(slots, j));
          AdmitUntagged(h, f, p, args, a.w, m'', Put(slots, j, Kept(p, j, v)), j + 1);
        }
      }
    }
  }

  lemma {:induction false} DeliverUntagged(units: seq<Compiled>, below: seq<CFrame>, result: Value, o: CConfig)
    requires o.CDone? && forall i :: 0 <= i < |below| ==> FrameUntagged(units, below[i])
    ensures AllUntagged(units, CDeliver(units, below, result, o))
    decreases |below|
  {
    hide Untagged, Kept, Cleanup, ResultSlot;
    if below != [] && CAtCall(units, below[|below| - 1]) {
      var caller, rest := below[|below| - 1], below[..|below| - 1];
      var p := units[caller.fn].p;
      if o.ok {
        assert FrameUntagged(units, below[|below| - 1]);
        PutUntagged(p, caller.slots, CCallOf(units, caller).d, o.result);
      } else {
        var slot := ResultSlot(units, rest, result);
        CleanupIsDone(p, caller.slots, slot, o.w, o.m);
        DeliverUntagged(units, rest, result, Cleanup(p, false, caller.slots, slot, o.w, o.m));
      }
    }
  }

  lemma {:induction false} CleanupIsDone(p: Plan, slots: seq<Value>, slot: Value, w: World, m: Mem)
    requires slots != []
    ensures Cleanup(p, false, slots, slot, w, m).CDone?
  {
    hide ClearFrom;
  }

  lemma {:induction false} EncloseUntagged(h: Host, units: seq<Compiled>, below: seq<CFrame>, result: Value, j: nat,
                                           args: seq<Value>, w: World, m: Mem)
    requires j < |units| && forall i :: 0 <= i < |below| ==> FrameUntagged(units, below[i])
    ensures AllUntagged(units, CEnclose(units, below, result, j, CEnter(h, units[j].g, units[j].p, args, w, m)))
  {
    hide Untagged, CAdmit, CDeliver, Cleanup, ResultSlot, EntrySlots;
    var k := units[j];
    EntryUntagged(k.g, k.p, []);
    if |args| == |k.g.params| {
      AdmitUntagged(h, k.g, k.p, args, w, m, EntrySlots(k.g, k.p, []), 0);
    }
    var e := CEnter(h, k.g, k.p, args, w, m);
    if e.CRefused? && e.slots != [] {
      var slot := ResultSlot(units, below, result);
      CleanupIsDone(k.p, e.slots, slot, e.w, e.m);
      DeliverUntagged(units, below, result, Cleanup(k.p, false, e.slots, slot, e.w, e.m));
    }
  }

  lemma {:induction false} AdvanceUntagged(h: Host, units: seq<Compiled>, result: Value, c: CStack)
    requires AllUntagged(units, c)
    ensures AllUntagged(units, CAdvance(h, units, result, c))
  {
    hide Untagged, CStep, CDeliver, ResultSlot, CEnter, CEnclose, Gather;
    if c.CLive? && c.frames != [] && Runnable(units, c.frames[|c.frames| - 1]) {
      var top, below := c.frames[|c.frames| - 1], c.frames[..|c.frames| - 1];
      assert c.frames == below + [top] && FrameUntagged(units, c.frames[|c.frames| - 1]);
      if CAtCall(units, top) {
        var i := CCallOf(units, top);
        EncloseUntagged(h, units, c.frames, result, i.callee, Gather(top.slots, i.args), c.w, c.m);
      } else {
        var p, s := units[top.fn].p, CState(top.pc, top.slots, c.w, c.m);
        StepUntagged(h, p, ResultSlot(units, below, result), s);
        var o := CStep(h, p, ResultSlot(units, below, result), s);
        if o.CDone? {
          DeliverUntagged(units, below, result, o);
        }
      }
    }
  }

  /** Through calls and returns, whatever the plans say: every frame keeps only payloads in its unboxed registers. */
  lemma {:induction false} StackUntagged(h: Host, units: seq<Compiled>, result: Value, j: nat, args: seq<Value>,
                                         w: World, m: Mem, n: nat)
    requires j < |units|
    ensures AllUntagged(units, CRunStack(h, units, result, CLaunch(h, units, result, j, args, w, m), n))
    decreases n
  {
    hide AllUntagged, CAdvance, CEnclose, CEnter;
    var c := CLaunch(h, units, result, j, args, w, m);
    if n == 0 {
      EncloseUntagged(h, units, [], result, j, args, w, m);
    } else {
      StackUntagged(h, units, result, j, args, w, m, n - 1);
      CRunStackLast(h, units, result, c, n);
      AdvanceUntagged(h, units, result, CRunStack(h, units, result, c, n - 1));
    }
  }

  // ----- whole programs, from source IR to emitted code -----

  lemma {:induction false} CompiledIsReady(sigs: seq<Signature>, funcs: seq<Function>, units: seq<Compiled>)
    requires CompiledProgram(sigs, funcs, units)
    ensures AllReady(sigs, units) && Rewritten(sigs, Source(funcs, units), Emitted(units))
  {
    hide Equivalent, Planned, StartsAlike, Verified;
    forall j | 0 <= j < |units|
      ensures Ready(sigs, units[j])
      ensures Equivalent(sigs, funcs[j], Emitted(units).funcs[j])
    {
      assert CompiledAs(sigs, funcs[j], units[j]);
      EquivalentIsVerified(sigs, funcs[j], units[j].g);
    }
  }

  /** Where a call of the compiled program starts, given what is counted outside it. */
  ghost function CStart(h: Host, units: seq<Compiled>, result: Value, outer: multiset<int>, j: nat, args: seq<Value>,
                        w: World): CStack
    requires j < |units|
  {
    CLaunch(h, units, result, j, args, w, Mem(Outside(w) + (Owned(result) + outer), true))
  }

  /**
   Whole programs: a program the type analysis accepts, compiled function by function, called with
   arguments of any number and type. The run of the source IR ends in an outcome exactly when the
   run of the emitted code ends in it, with every reference count what the result, the globals,
   the engine and the callers hold.
   */
  lemma {:induction false} ProgramIsFaithful(sigs: seq<Signature>, funcs: seq<Function>, units: seq<Compiled>, h: Host,
                                             j: nat, args: seq<Value>, w: World, result: Value, outer: multiset<int>,
                                             o: Config)
    requires AcceptedProgram(sigs, funcs) && CompiledProgram(sigs, funcs, units) && HostContract(sigs, h)
    requires Good(Source(funcs, units), j, args, w) && !o.Running?
    ensures j < |units|
    ensures StackEnds(h, Source(funcs, units), Launch(h, Source(funcs, units), j, args, w), o) <==>
      CStackEnds(h, units, result, CStart(h, units, result, outer, j, args, w), Ended(o, result, outer))
  {
    hide AcceptedProgram, CompiledProgram, HostContract, Good, Source, Launch, CLaunch, StackEnds, CStackEnds, Outside,
      Owned, AllReady, Sound, Rewritten;
    var prog, prog' := Source(funcs, units), Emitted(units);
    AcceptedSource(sigs, funcs, units);
    CompiledIsReady(sigs, funcs, units);
    RewrittenIsSound(sigs, prog, prog');
    GoodInBoth(sigs, prog, prog', j, args, w);
    KnownCallee(prog', j, args, w);
    EmittedShape(units);
    RewrittenRunsTheSame(sigs, prog, prog', h, j, args, w, o);
    EmittedEndsSame(sigs, units, h, j, args, w, result, outer, o);
  }

  lemma {:induction false} KnownCallee(prog: Program, j: nat, args: seq<Value>, w: World)
    requires Good(prog, j, args, w)
    ensures j < |prog.funcs|
  {
  }

  lemma {:induction false} AcceptedSource(sigs: seq<Signature>, funcs: seq<Function>, units: seq<Compiled>)
    requires AcceptedProgram(sigs, funcs)
    ensures Sound(sigs, Source(funcs, units)) && Source(funcs, units).funcs == funcs
  {
    hide AcceptedProgram;
    AcceptedIsSound(sigs, Source(funcs, units));
  }

  lemma {:induction false} EmittedEndsSame(sigs: seq<Signature>, units: seq<Compiled>, h: Host, j: nat,
                                           args: seq<Value>, w: World, result: Value, outer: multiset<int>, o: Config)
    requires AllReady(sigs, units) && Sound(sigs, Emitted(units)) && HostContract(sigs, h)
    requires Good(Emitted(units), j, args, w) && !o.Running? && j < |units|
    ensures StackEnds(h, Emitted(units), Launch(h, Emitted(units), j, args, w), o) <==>
      CStackEnds(h, units, result, CStart(h, units, result, outer, j, args, w), Ended(o, result, outer))
  {
    hide AllReady, Sound, HostContract, Good, Emitted, Launch, CLaunch, RunStack, CRunStack, Outside, Owned, Counted,
      FrameAgrees;
    EmittedShape(units);
    var a, c := Launch(h, Emitted(units), j, args, w), CStart(h, units, result, outer, j, args, w);
    if StackEnds(h, Emitted(units), a, o) {
      var n: nat :| RunStack(h, Emitted(units), a, n) == Over(o);
      EmittedRunKeeps(sigs, units, h, j, args, w, result, outer, n);
    }
    if CStackEnds(h, units, result, c, Ended(o, result, outer)) {
      var n: nat :| CRunStack(h, units, result, c, n) == COver(Ended(o, result, outer));
      EmittedRunKeeps(sigs, units, h, j, args, w, result, outer, n);
      assert RunStack(h, Emitted(units), a, n) == Over(o);
    }
  }

  /** Emitted code ends in no other way; so a source run that never ends is emitted as one that never ends. */
  lemma {:induction false} ProgramEndsLikeSource(sigs: seq<Signature>, funcs: seq<Function>, units: seq<Compiled>,
                                                 h: Host, j: nat, args: seq<Value>, w: World, result: Value,
                                                 outer: multiset<int>, c: CConfig) returns (o: Config)
    requires AcceptedProgram(sigs, funcs) && CompiledProgram(sigs, funcs, units) && HostContract(sigs, h)
    requires Good(Source(funcs, units), j, args, w) && j < |units|
    requires CStackEnds(h, units, result, CStart(h, units, result, outer, j, args, w), c)
    ensures !o.Running? && c == Ended(o, result, outer)
    ensures j < |funcs| && StackEnds(h, Source(funcs, units), Launch(h, Source(funcs, units), j, args, w), o)
  {
    hide AcceptedProgram, CompiledProgram, HostContract, Good, Source, Launch, CLaunch, RunStack, CRunStack, Outside,
      Owned, AllReady, Sound, Rewritten, Counted, FrameAgrees, StackEnds;
    var prog, prog' := Source(funcs, units), Emitted(units);
    AcceptedSource(sigs, funcs, units);
    CompiledIsReady(sigs, funcs, units);
    RewrittenIsSound(sigs, prog, prog');
    GoodInBoth(sigs, prog, prog', j, args, w);
    KnownCallee(prog, j, args, w);
    var start := CStart(h, units, result, outer, j, args, w);
    var n: nat :| CRunStack(h, units, result, start, n) == COver(c);
    EmittedRunKeeps(sigs, units, h, j, args, w, result, outer, n);
    EmittedShape(units);
    o := RunStack(h, prog', Launch(h, prog', j, args, w), n).o;
    ProgramIsFaithful(sigs, funcs, units, h, j, args, w, result, outer, o);
  }
}
