/**
 The C backend end to end: rewrite a verified function, plan its slots, and run what is emitted.
 */
module Backend {
  import opened Options
  import opened Int64
  import opened Ir
  import opened Machine
  import opened Liveness
  import opened TypeFlow
  import opened TypeSoundness
  import opened Rewrites
  import opened Ownership

  /** How the emitted call must end when the IR ends in `o`: the IR's result and world, and only live references. */
  function Ended(o: Config, result: Value, outer: multiset<int>): CConfig
    requires !o.Running?
  {
    match o
    case Returned(v, w) => CDone(true, v, w, Mem(Outside(w) + (Owned(v) + outer), true))
    case Failed(w) => CDone(false, result, w, Mem(Outside(w) + (Owned(result) + outer), true))
  }

  ghost predicate CEnds(h: Host, p: Plan, result: Value, s: CState, o: CConfig)
    requires |p.code| == |p.live| && s.slots != []
  {
    exists n: nat :: CRun(h, p, result, CRunning(s), n) == o
  }

  /**
   For every equivalent rewriting, every plan for it, every host, every conforming call and every final outcome: the
   source IR ends in it exactly when the emitted code, after the rewrites, does, and then every
   reference count is what the result, the globals, the engine and the callers hold.
   */
  lemma {:induction false} CompiledCallIsFaithful(sigs: seq<Signature>, h: Host, f: Function, g: Function, p: Plan,
                                                  args: seq<Value>, w: World, result: Value, outer: multiset<int>,
                                                  m: Mem, o: Config)
    requires Equivalent(sigs, f, g) && Planned(sigs, g, p)
    requires HostContract(sigs, h) && Conforms(f, args) && Tagged(w.globals)
    requires StartsAlike(g, p) && m == Mem(Outside(w) + (Owned(result) + outer), true) && !o.Running?
    ensures Ends(h, f.code, Entry(f, args, w), o) <==>
      CEnds(h, p, result, CEntry(g, p, args, w, m), Ended(o, result, outer))
  {
    hide StartsAlike, WordSized, Verified, HostContract, Tagged, Run, CRun, Outside, Owned, LiveOut, ProvenBy, UsedRegs;
    assert Conforms(g, args);
    var s, c := Entry(g, args, w), CEntry(g, p, args, w, m);
    if Ends(h, g.code, s, o) {
      var n: nat :| Run(h, g.code, Running(s), n) == o;
      EmittedCodeIsFaithful(sigs, h, g, p, args, w, result, outer, m, n);
      assert CRun(h, p, result, CRunning(c), n) == Ended(o, result, outer);
    }
    if CEnds(h, p, result, c, Ended(o, result, outer)) {
      var n: nat :| CRun(h, p, result, CRunning(c), n) == Ended(o, result, outer);
      EmittedCodeIsFaithful(sigs, h, g, p, args, w, result, outer, m, n);
      assert Run(h, g.code, Running(s), n) == o;
    }
  }

  /** Emitted code that ends, ends in a way the IR could: no other result, world or reference count is possible. */
  lemma {:induction false} CompiledCallEndsLikeIr(sigs: seq<Signature>, h: Host, f: Function, g: Function, p: Plan,
                                                  args: seq<Value>, w: World, result: Value, outer: multiset<int>,
                                                  m: Mem, c: CConfig) returns (o: Config)
    requires Equivalent(sigs, f, g) && Planned(sigs, g, p)
    requires HostContract(sigs, h) && Conforms(f, args) && Tagged(w.globals)
    requires StartsAlike(g, p) && m == Mem(Outside(w) + (Owned(result) + outer), true)
    requires c.CDone? && CEnds(h, p, result, CEntry(g, p, args, w, m), c)
    ensures !o.Running? && c == Ended(o, result, outer)
  {
    hide StartsAlike, WordSized, Verified, HostContract, Tagged, Run, CRun, Outside, Owned, LiveOut, Reports, UsedRegs;
    assert Conforms(g, args);
    var n: nat :| CRun(h, p, result, CRunning(CEntry(g, p, args, w, m)), n) == c;
    EmittedCodeIsFaithful(sigs, h, g, p, args, w, result, outer, m, n);
    o := Run(h, g.code, Running(Entry(g, args, w)), n);
  }

  /** The IR's final outcomes are exactly those of the emitted code. */
  ghost predicate SameOutcomes(h: Host, f: Function, g: Function, p: Plan, args: seq<Value>, w: World, result: Value,
                               outer: multiset<int>)
    requires |p.code| == |p.live|
  {
    var c0 := CEntry(g, p, args, w, Mem(Outside(w) + (Owned(result) + outer), true));
    && (forall o: Config :: !o.Running? ==>
          (Ends(h, f.code, Entry(f, args, w), o) <==> CEnds(h, p, result, c0, Ended(o, result, outer))))
    && (forall c: CConfig :: c.CDone? && CEnds(h, p, result, c0, c) ==>
          exists o: Config :: !o.Running? && c == Ended(o, result, outer))
  }

  /** Calling the emitted function is calling the source function, whatever the host, the arguments and the world. */
  ghost predicate Faithful(sigs: seq<Signature>, f: Function, g: Function, p: Plan) {
    && |p.code| == |p.live|
    && forall h: Host, args: seq<Value>, w: World, result: Value, outer: multiset<int> ::
      HostContract(sigs, h) && Conforms(f, args) && Tagged(w.globals) ==>
        SameOutcomes(h, f, g, p, args, w, result, outer)
  }

  /**
   The generator on one function: rewrite, then plan. What it plans is faithful when the body
   ends in a terminator.
   */
  method Compile(sigs: seq<Signature>, copies: Function -> Function, elsewhere: bool, f: Function)
    returns (g: Function, p: Plan)
    requires Verified(f) && WordSized(sigs, f) && SafePass(sigs, copies)
    ensures OptimizedFrom(sigs, copies, elsewhere, f, g) && Planned(sigs, g, p)
    ensures EndsInTerminator(f.code) ==> Faithful(sigs, f, g, p)
  {
    hide OptimizedFrom, StartsAlike, WordSized, Verified, Faithful, Equivalent, Planned;
    g := Optimize(sigs, copies, elsewhere, f);
    OptimizedMeansTheSame(sigs, copies, elsewhere, f, g);
    EquivalentIsVerified(sigs, f, g);
    p := PlanVerified(sigs, g);
    if EndsInTerminator(f.code) {
      EquivalentTerminates(sigs, f, g);
      TerminatedPlanStartsAlike(sigs, g, p);
      PlannedIsFaithful(sigs, f, g, p);
    }
  }

  method PlanVerified(sigs: seq<Signature>, g: Function) returns (p: Plan)
    requires Verified(g) && WordSized(sigs, g)
    ensures Planned(sigs, g, p)
  {
    hide WordSized, WellFormed, DefinitelyAssigned, HintsGiven, Planned;
    p := MakePlan(sigs, g);
  }

  lemma EquivalentTerminates(sigs: seq<Signature>, f: Function, g: Function)
    requires Equivalent(sigs, f, g) && EndsInTerminator(f.code)
    ensures EndsInTerminator(g.code)
  {
    hide Verified, WordSized, SameMeaning;
  }

  lemma TerminatedPlanStartsAlike(sigs: seq<Signature>, g: Function, p: Plan)
    requires Verified(g) && Planned(sigs, g, p) && EndsInTerminator(g.code)
    ensures StartsAlike(g, p)
  {
    hide Planned, StartsAlike, WellFormed, DefinitelyAssigned, HintsGiven;
    TerminatedStartsAlike(sigs, g, p);
  }

  lemma PlannedIsFaithful(sigs: seq<Signature>, f: Function, g: Function, p: Plan)
    requires Equivalent(sigs, f, g) && Planned(sigs, g, p) && StartsAlike(g, p)
    ensures Faithful(sigs, f, g, p)
  {
    hide Equivalent, StartsAlike, HostContract, Tagged, SameOutcomes, LiveOut, Reports, UsedRegs;
    forall h: Host, args: seq<Value>, w: World, result: Value, outer: multiset<int>
      | HostContract(sigs, h) && Conforms(f, args) && Tagged(w.globals)
      ensures SameOutcomes(h, f, g, p, args, w, result, outer)
    {
      PlannedSameOutcomes(sigs, h, f, g, p, args, w, result, outer);
    }
  }

  lemma PlannedSameOutcomes(sigs: seq<Signature>, h: Host, f: Function, g: Function, p: Plan, args: seq<Value>,
                            w: World,
                            result: Value, outer: multiset<int>)
    requires Equivalent(sigs, f, g) && Planned(sigs, g, p) && StartsAlike(g, p)
    requires HostContract(sigs, h) && Conforms(f, args) && Tagged(w.globals)
    ensures SameOutcomes(h, f, g, p, args, w, result, outer)
  {
    hide Equivalent, StartsAlike, HostContract, Tagged, Conforms, Ends, CEnds, Outside, Owned, LiveOut, Reports,
      UsedRegs;
    var m := Mem(Outside(w) + (Owned(result) + outer), true);
    forall o: Config | !o.Running?
      ensures Ends(h, f.code, Entry(f, args, w), o) <==>
        CEnds(h, p, result, CEntry(g, p, args, w, m), Ended(o, result, outer))
    {
      CompiledCallIsFaithful(sigs, h, f, g, p, args, w, result, outer, m, o);
    }
    forall c: CConfig | c.CDone? && CEnds(h, p, result, CEntry(g, p, args, w, m), c)
      ensures exists o: Config :: !o.Running? && c == Ended(o, result, outer)
    {
      var o := CompiledCallEndsLikeIr(sigs, h, f, g, p, args, w, result, outer, m, c);
    }
  }

  // ----- the assumptions can be met -----

  /** A host that answers with a promised tag whenever there is one. */
  ghost function PromisedTag(sigs: seq<Signature>, q: Request, args: seq<Value>): (t: Option<nat>)
    ensures t.Some? ==> t.value < TAG_COUNT && t.value in Promise(sigs, q, args)
    ensures t.None? ==> forall k: nat :: k < TAG_COUNT ==> k !in Promise(sigs, q, args)
  {
    if k: nat :| k < TAG_COUNT && k in Promise(sigs, q, args) then Some(k) else None
  }

  ghost function ObligingHost(sigs: seq<Signature>): Host {
    Host(
      (q: Request, args: seq<Value>, w: World) =>
        match PromisedTag(sigs, q, args)
        case Some(t) => Ok(Value(t, 0), w)
        case None => Err(w),
      (v: Value, w: World) => v.data != 0,
      (op: BinaryOp, x: Value, y: Value) => 0,
      (op: CompareOp, x: Value, y: Value) => false)
  }

  lemma ObligingHostIsHonest(sigs: seq<Signature>)
    ensures HostContract(sigs, ObligingHost(sigs))
  {
    hide Promise;
  }

  /** A loop over a dynamic condition, with a COERCE in it. */
  const LOOP := Function([{}], 2,
    [Label(0), BranchZero(0, 1), LoadImm(1, 1), Coerce(0, 1, INT), Jump(0), Label(1), Return])

  lemma LoopLabels()
    ensures Find(LOOP.code, 0) == 0 && Find(LOOP.code, 1) == 5
  {
    assert LOOP.code[0] == Label(0) && LOOP.code[5] == Label(1);
  }

  lemma LoopTargets(at: nat)
    requires at < 7
    ensures Targets(LOOP.code[at]) == if at == 1 then [1] else if at == 4 then [0] else []
    ensures Terminates(LOOP.code[at]) <==> at == 4 || at == 6
  {
  }

  lemma LoopEdges(at: nat, next: nat)
    requires at < 7
    ensures Edge(LOOP.code, at, next) <==>
      (at != 4 && at != 6 && next == at + 1) || (at == 1 && next == 5) || (at == 4 && next == 0)
  {
    hide Find, Targets, Terminates;
    LoopLabels();
    LoopTargets(at);
    assert at == 1 ==> Targets(LOOP.code[at])[0] == 1;
    assert at == 4 ==> Targets(LOOP.code[at])[0] == 0;
  }

  lemma LoopLabelsFit()
    ensures UniqueLabels(LOOP.code) && TargetsExist(LOOP.code)
  {
    hide Reads, Targets;
    var code := LOOP.code;
    assert code[0] == Label(0) && code[5] == Label(1);
    assert forall at :: 0 <= at < 7 && code[at].Label? ==> at == 0 || at == 5;
    forall at, j | 0 <= at < 7 && 0 <= j < |Targets(code[at])|
      ensures Label(Targets(code[at])[j]) in code
    {
      LoopTargets(at);
    }
  }

  lemma LoopIsWellFormed()
    ensures WellFormed(LOOP)
  {
    hide UniqueLabels, TargetsExist;
    LoopLabelsFit();
    forall at | 0 <= at < 7
      ensures InRange(LOOP.code[at], 2)
    {
      assert Reads(LOOP.code[at]) <= {0, 1} && Writes(LOOP.code[at]) <= {0, 1};
    }
  }

  lemma LoopIsAssigned()
    ensures DefinitelyAssigned(LOOP)
  {
    hide Find, Edge, Targets;
    var code := LOOP.code;
    var defined: seq<set<Reg>> := [{0}, {0}, {0}, {0, 1}, {0}, {0}, {0}, {0}];
    forall at, next | 0 <= at < 7 && 0 <= next <= 7 && Edge(code, at, next)
      ensures defined[next] <= defined[at] + Writes(code[at])
    {
      LoopEdges(at, next);
    }
    assert DefinedBy(LOOP, defined);
  }

  /** The premises of the theorems about compiled calls hold together, for a body with a loop. */
  lemma {:induction false} LoopIsVerified(sigs: seq<Signature>)
    requires SetsFit(sigs)
    ensures Verified(LOOP) && WordSized(sigs, LOOP) && EndsInTerminator(LOOP.code)
    ensures Conforms(LOOP, [NIL_VALUE]) && HostContract(sigs, ObligingHost(sigs)) && SafePass(sigs, f => f)
  {
    hide WellFormed, DefinitelyAssigned, Reachable, HostContract, ObligingHost, SafePass;
    DoingNothingIsSafe(sigs);
    LoopIsWellFormed();
    LoopIsAssigned();
    ObligingHostIsHonest(sigs);
  }
}
