/**
 The generator on a whole program: rewrite every function, then plan every function. A recursive
 sample shows that what the theorems about programs ask for can be met.
 */
module Generator {
  import opened Options
  import opened Ir
  import opened Machine
  import opened TypeFlow
  import opened TypeSoundness
  import opened Rewrites
  import opened Ownership
  import opened Backend
  import opened Programs
  import opened NativeRuns

  ghost predicate Compilable(sigs: seq<Signature>, f: Function) {
    Verified(f) && WordSized(sigs, f) && EndsInTerminator(f.code)
  }

  /** Function by function, the rewritten program is equivalent to the source. */
  ghost predicate AllEquivalent(sigs: seq<Signature>, funcs: seq<Function>, work: seq<Function>) {
    |work| == |funcs| && forall j :: 0 <= j < |funcs| ==> Equivalent(sigs, funcs[j], work[j])
  }

  lemma OneMore(sigs: seq<Signature>, funcs: seq<Function>, work: seq<Function>, j: nat, g: Function)
    requires AllEquivalent(sigs, funcs, work) && j < |work| && Equivalent(sigs, work[j], g)
    ensures AllEquivalent(sigs, funcs, work[j := g])
  {
    hide Equivalent;
    EquivalentTransitive(sigs, funcs[j], work[j], g);
  }

  lemma EquivalentToItself(sigs: seq<Signature>, f: Function)
    requires Verified(f) && WordSized(sigs, f)
    ensures Equivalent(sigs, f, f)
  {
    hide Verified, WordSized, HostContract, Entry;
  }

  method CopyAndPrune(sigs: seq<Signature>, copies: Function -> Function, f: Function) returns (g: Function)
    requires Verified(f) && WordSized(sigs, f) && SafePass(sigs, copies)
    ensures Equivalent(sigs, f, g)
  {
    hide Equivalent, Verified, WordSized, Pruned;
    var f1 := copies(f);
    EquivalentIsVerified(sigs, f, f1);
    var code := Prune(f1.code);
    g := f1.(code := code);
    PruneIsEquivalent(sigs, f1);
    EquivalentTransitive(sigs, f, f1, g);
  }

  method SimplifyFunction(sigs: seq<Signature>, f: Function) returns (g: Function, simplified: bool)
    requires Verified(f) && WordSized(sigs, f)
    ensures Equivalent(sigs, f, g)
  {
    hide Equivalent, Verified, WordSized, Reports, SimplifiedFrom;
    var proven := ProvenKinds(sigs, f);
    var out;
    out, simplified := Simplify(f.code, proven);
    g := f.(code := out);
    SimplifyIsEquivalent(sigs, f, proven, out);
  }

  /**
   The generator on a program: copies and prune everywhere, simplify everywhere, once more copies
   and prune everywhere if anything was simplified, then plan each function.
   */
  method CompileProgram(sigs: seq<Signature>, copies: Function -> Function, funcs: seq<Function>)
    returns (units: seq<Compiled>)
    requires SafePass(sigs, copies) && forall j :: 0 <= j < |funcs| ==> Compilable(sigs, funcs[j])
    ensures CompiledProgram(sigs, funcs, units)
  {
    hide SafePass, Equivalent, Verified, WordSized, Planned, StartsAlike, EndsInTerminator;
    var work := funcs;
    forall j | 0 <= j < |funcs|
      ensures Equivalent(sigs, funcs[j], funcs[j])
    {
      EquivalentToItself(sigs, funcs[j]);
    }
    for j := 0 to |work|
      invariant AllEquivalent(sigs, funcs, work)
    {
      EquivalentIsVerified(sigs, funcs[j], work[j]);
      var g := CopyAndPrune(sigs, copies, work[j]);
      OneMore(sigs, funcs, work, j, g);
      work := work[j := g];
    }
    var simplified := false;
    for j := 0 to |work|
      invariant AllEquivalent(sigs, funcs, work)
    {
      EquivalentIsVerified(sigs, funcs[j], work[j]);
      var g, changed := SimplifyFunction(sigs, work[j]);
      simplified := simplified || changed;
      OneMore(sigs, funcs, work, j, g);
      work := work[j := g];
    }
    if simplified {
      for j := 0 to |work|
        invariant AllEquivalent(sigs, funcs, work)
      {
        EquivalentIsVerified(sigs, funcs[j], work[j]);
        var g := CopyAndPrune(sigs, copies, work[j]);
        OneMore(sigs, funcs, work, j, g);
        work := work[j := g];
      }
    }
    units := [];
    for j := 0 to |work|
      invariant |units| == j && forall k :: 0 <= k < j ==> CompiledAs(sigs, funcs[k], units[k])
    {
      EquivalentIsVerified(sigs, funcs[j], work[j]);
      EquivalentTerminates(sigs, funcs[j], work[j]);
      var p := PlanVerified(sigs, work[j]);
      TerminatedPlanStartsAlike(sigs, work[j], p);
      units := units + [Compiled(work[j], p)];
    }
  }

  // ----- a recursive program is accepted -----

  /** Calls itself on its declared argument until that is false. */
  const RECURSIVE := Function([{INT}], 1, [BranchZero(0, 5), Call(0, 0, [0]), Label(5), Return])
  const UNTYPED: seq<Signature> := [Signature({}, -1)]

  lemma RecursiveTargets(at: nat)
    requires at < 4
    ensures Targets(RECURSIVE.code[at]) == if at == 0 then [5] else []
    ensures Terminates(RECURSIVE.code[at]) <==> at == 3
    ensures Find(RECURSIVE.code, 5) == 2
  {
    assert RECURSIVE.code[2] == Label(5);
  }

  lemma RecursiveLabelsFit()
    ensures UniqueLabels(RECURSIVE.code) && TargetsExist(RECURSIVE.code)
  {
    hide Find, Targets, Reads;
    var code := RECURSIVE.code;
    assert code[2] == Label(5);
    forall at, j | 0 <= at < 4 && 0 <= j < |Targets(code[at])|
      ensures Label(Targets(code[at])[j]) in code
    {
      RecursiveTargets(at);
    }
  }

  lemma RecursiveReads(at: nat)
    requires at < 4
    ensures var i := RECURSIVE.code[at]; Reads(i) <= {0} && Writes(i) <= {0}
  {
  }

  lemma RecursiveIsWellFormed()
    ensures WellFormed(RECURSIVE)
  {
    hide UniqueLabels, TargetsExist, Reads, Writes;
    RecursiveLabelsFit();
    forall at | 0 <= at < 4
      ensures InRange(RECURSIVE.code[at], 1)
    {
      RecursiveReads(at);
    }
  }

  lemma RecursiveIsAssigned()
    ensures DefinitelyAssigned(RECURSIVE)
  {
    hide Find, Edge, Targets, Reads, Writes;
    var defined: seq<set<Reg>> := [{0}, {0}, {0}, {0}, {0}];
    forall at | 0 <= at < 4
      ensures Reads(RECURSIVE.code[at]) <= defined[at]
    {
      RecursiveReads(at);
    }
    assert DefinedBy(RECURSIVE, defined);
  }

  lemma RecursiveIsVerified()
    ensures Verified(RECURSIVE) && WordSized(UNTYPED, RECURSIVE) && EndsInTerminator(RECURSIVE.code)
  {
    hide WellFormed, DefinitelyAssigned, Reachable;
    RecursiveIsWellFormed();
    RecursiveIsAssigned();
  }

  lemma RecursiveState(at: nat)
    requires at < 4
    ensures var i, state := RECURSIVE.code[at], [UNKNOWN];
      Covers(UNTYPED, i, state, state) && Transfer(UNTYPED, i, state) == state
  {
  }

  lemma RecursiveFlows()
    ensures Flows(UNTYPED, RECURSIVE, [UNKNOWN], {0, 1, 2, 3}, [[UNKNOWN], [UNKNOWN], [UNKNOWN], [UNKNOWN]])
  {
    hide Find, Edge, Targets, Covers, Transfer;
    var code, before := RECURSIVE.code, [[UNKNOWN], [UNKNOWN], [UNKNOWN], [UNKNOWN]];
    forall at: nat | at < 4
      ensures Covers(UNTYPED, code[at], before[at], [UNKNOWN]) && Transfer(UNTYPED, code[at], before[at]) == [UNKNOWN]
    {
      RecursiveState(at);
    }
  }

  /** The premises about programs hold together: recursion, a converted argument, and a copy propagation. */
  lemma {:induction false} RecursiveIsAccepted()
    ensures AcceptedProgram(UNTYPED, [RECURSIVE]) && HostContract(UNTYPED, ObligingHost(UNTYPED))
    ensures SafePass(UNTYPED, f => f)
  {
    hide Flows, Verified, WordSized, HostContract, EndsInTerminator, SafePass;
    RecursiveIsVerified();
    RecursiveFlows();
    ObligingHostIsHonest(UNTYPED);
    DoingNothingIsSafe(UNTYPED);
    var before: seq<Masks> := [[UNKNOWN], [UNKNOWN], [UNKNOWN], [UNKNOWN]];
    assert CheckedTag(RECURSIVE.params[0]).Some?;
    assert Fits(UNTYPED, [RECURSIVE], 0, {0, 1, 2, 3}, before);
    assert Accepted(UNTYPED, [RECURSIVE], 0);
  }

  /** It compiles, so the premises about compiled programs are met as well. */
  method CompileRecursive() returns (units: seq<Compiled>)
    ensures CompiledProgram(UNTYPED, [RECURSIVE], units) && AcceptedProgram(UNTYPED, [RECURSIVE])
  {
    hide CompiledProgram, AcceptedProgram, HostContract, SafePass, Verified, WordSized, EndsInTerminator;
    RecursiveIsAccepted();
    RecursiveIsVerified();
    units := CompileProgram(UNTYPED, f => f, [RECURSIVE]);
  }

  // ----- which arguments an entry looks at -----

  /** The two sets ask for the same conversions of these arguments. */
  ghost predicate SameChecks(f: Function, looked: set<Reg>, looked': set<Reg>, args: seq<Value>) {
    |args| == |f.params| ==>
      forall k :: 0 <= k < |args| && CheckedTag(f.params[k]).Some? && (k in looked) != (k in looked') ==>
        args[k].tag == CheckedTag(f.params[k]).value
  }

  lemma {:induction false} SameChecksAdmit(h: Host, f: Function, looked: set<Reg>, looked': set<Reg>, args: seq<Value>,
                                           w: World, done: seq<Value>)
    requires SameChecks(f, looked, looked', args) && |done| <= |args| == |f.params|
    ensures Admit(h, f, looked, args, w, done) == Admit(h, f, looked', args, w, done)
    decreases |args| - |done|
  {
    if |done| < |args| {
      var a := AdmitOne(h, f, looked, args, w, |done|);
      assert a == AdmitOne(h, f, looked', args, w, |done|);
      if a.out.Some? {
        SameChecksAdmit(h, f, looked, looked', args, a.w, done + [a.out.value]);
      }
    }
  }

  /** Answers as promised, and converts to values nothing else gives. */
  ghost function OnesHost(sigs: seq<Signature>): Host {
    Host(
      (q: Request, args: seq<Value>, w: World) =>
        if q.CoerceTo? && 1 <= q.tag < TAG_COUNT then Ok(Value(q.tag, 1), w) else ObligingHost(sigs).serve(q, args, w),
      ObligingHost(sigs).truth, ObligingHost(sigs).float, ObligingHost(sigs).order)
  }

  lemma {:induction false} OnesHostIsHonest(sigs: seq<Signature>)
    ensures HostContract(sigs, OnesHost(sigs))
  {
    hide ObligingHost;
    ObligingHostIsHonest(sigs);
  }

  lemma {:induction false} OnesAdmit(sigs: seq<Signature>, f: Function, looked: set<Reg>, args: seq<Value>, w: World,
                                     done: seq<Value>, k: nat)
    requires |done| <= |args| == |f.params| && k < |args|
    ensures var e := Admit(OnesHost(sigs), f, looked, args, w, done);
      && e.Admitted? && |e.args| == |args|
      && (k < |done| ==> e.args[k] == done[k])
      && (k >= |done| ==> Some(e.args[k]) == AdmitOne(OnesHost(sigs), f, looked, args, w, k).out)
    decreases |args| - |done|
  {
    hide OnesHost, AdmitOne;
    if |done| < |args| {
      var a := AdmitOne(OnesHost(sigs), f, looked, args, w, |done|);
      assert a.out.Some? && a.w == w by { OnesAdmitOne(sigs, f, looked, args, w, |done|); }
      OnesAdmit(sigs, f, looked, args, w, done + [a.out.value], k);
    }
  }

  lemma {:induction false} OnesAdmitOne(sigs: seq<Signature>, f: Function, looked: set<Reg>, args: seq<Value>, w: World,
                                        k: nat)
    requires k < |args| == |f.params|
    ensures var a := AdmitOne(OnesHost(sigs), f, looked, args, w, k);
      && a.out.Some? && a.w == w
      && (CheckedTag(f.params[k]).Some? && args[k].tag != CheckedTag(f.params[k]).value ==>
            a.out.value.data == if k in looked then 1 else 0)
  {
  }

  /**
   What it can change that an entry looks only at parameters the emitted body mentions: nothing, for
   any host and world, exactly when the arguments it looks at in one way only have their type already.
   */
  lemma {:induction false} ChecksMatterExactly(sigs: seq<Signature>, f: Function, looked: set<Reg>, looked': set<Reg>,
                                               args: seq<Value>)
    ensures SameChecks(f, looked, looked', args) <==>
      forall h: Host, w: World :: HostContract(sigs, h) ==>
        Enter(h, f, looked, args, w) == Enter(h, f, looked', args, w)
  {
    hide HostContract, Admit, AdmitOne, OnesHost;
    if SameChecks(f, looked, looked', args) {
      forall h: Host, w: World | HostContract(sigs, h)
        ensures Enter(h, f, looked, args, w) == Enter(h, f, looked', args, w)
      {
        if |args| == |f.params| {
          SameChecksAdmit(h, f, looked, looked', args, w, []);
        }
      }
    } else {
      var k :| 0 <= k < |args| && CheckedTag(f.params[k]).Some? && (k in looked) != (k in looked') &&
        args[k].tag != CheckedTag(f.params[k]).value;
      var w := World([], 0, multiset{});
      OnesHostIsHonest(sigs);
      OnesAdmit(sigs, f, looked, args, w, [], k);
      OnesAdmit(sigs, f, looked', args, w, [], k);
      OnesAdmitOne(sigs, f, looked, args, w, k);
      OnesAdmitOne(sigs, f, looked', args, w, k);
      assert Enter(OnesHost(sigs), f, looked, args, w) != Enter(OnesHost(sigs), f, looked', args, w);
    }
  }

  /** Its second parameter is mentioned only by a MOVE that nothing reads. */
  const IGNORING := Function([{}, {INT}], 3, [Move(2, 1), Return])

  /** Deleting a dead MOVE can take the last mention of a parameter, and with it the check of its argument. */
  lemma {:induction false} PruningCanDropACheck()
    ensures 1 in UsedRegs(IGNORING.code) && 1 !in UsedRegs(Pruned(IGNORING.code))
    ensures !SameChecks(IGNORING, UsedRegs(IGNORING.code), UsedRegs(Pruned(IGNORING.code)), [NIL_VALUE, NIL_VALUE])
  {
    var code := IGNORING.code;
    assert code[1..] == [Return] && code[1..][1..] == [];
    assert ReadRegs([Return]) == {0} && ReadRegs(code) == {0, 1};
    assert Keep([Return], {0, 1}) == [Return] && Keep(code, {0, 1}) == [Return];
    assert Keep([Return], {0}) == [Return] && Pruned([Return]) == [Return];
    assert UsedRegs([Return]) == {0};
    assert CheckedTag({INT}) == Some(INT);
    assert CheckedTag(IGNORING.params[1]).value == INT;
  }
}
