/**
 Backward liveness over instruction edges. The specification is path liveness: a register
 is live where some control-flow path reaches a use of it without writing it first. Running
 off the end of the code is a use of r0.
 */
module Liveness {
  import opened Ir
  import opened Machine

  ghost predicate UsedAt(code: seq<Instr>, at: nat, r: Reg) {
    if at < |code| then r in Reads(code[at]) else r == 0
  }

  ghost predicate LivePath(code: seq<Instr>, r: Reg, p: seq<nat>) {
    && |p| > 0
    && Path(code, p)
    && (forall j :: 0 <= j < |p| - 1 ==> r !in Writes(code[p[j]]))
    && UsedAt(code, p[|p| - 1], r)
  }

  ghost predicate LiveIn(code: seq<Instr>, at: nat, r: Reg) {
    exists p :: LivePath(code, r, p) && p[0] == at
  }

  ghost predicate LiveOut(code: seq<Instr>, at: nat, r: Reg)
    requires at < |code|
  {
    exists to: nat :: to <= |code| && Edge(code, at, to) && LiveIn(code, to, r)
  }

  lemma PathPrepend(code: seq<Instr>, r: Reg, at: nat, p: seq<nat>)
    requires at < |code| && LivePath(code, r, p) && Edge(code, at, p[0]) && r !in Writes(code[at])
    ensures LivePath(code, r, [at] + p)
  {
    hide Reads, Dest, Targets, Find, Edge;
    var q := [at] + p;
    forall j | 0 <= j < |q| - 1
      ensures q[j] < |code| && Edge(code, q[j], q[j + 1]) && r !in Writes(code[q[j]])
    {
      assert j > 0 ==> q[j] == p[j - 1] && q[j + 1] == p[j];
    }
    assert q[|q| - 1] == p[|p| - 1];
  }

  lemma PathTail(code: seq<Instr>, r: Reg, p: seq<nat>)
    requires LivePath(code, r, p) && |p| > 1
    ensures LivePath(code, r, p[1..])
    ensures p[0] < |code| && Edge(code, p[0], p[1]) && r !in Writes(code[p[0]])
  {
    hide Reads, Dest, Targets, Find, Edge;
    var q := p[1..];
    forall j | 0 <= j < |q| - 1
      ensures q[j] < |code| && Edge(code, q[j], q[j + 1]) && r !in Writes(code[q[j]])
    {
      assert q[j] == p[j + 1] && q[j + 1] == p[j + 2];
    }
    assert p[1] == p[0 + 1];
  }

  /** Path liveness satisfies the backward data-flow equation at every instruction. */
  lemma {:induction false} LiveInUnfold(code: seq<Instr>, at: nat, r: Reg)
    requires at < |code|
    ensures LiveIn(code, at, r) <==> r in Reads(code[at]) || (r !in Writes(code[at]) && LiveOut(code, at, r))
  {
    hide Reads, Dest, Targets, Find;
    if r in Reads(code[at]) {
      assert LivePath(code, r, [at]);
    } else if r !in Writes(code[at]) && LiveOut(code, at, r) {
      var to: nat :| to <= |code| && Edge(code, at, to) && LiveIn(code, to, r);
      var p :| LivePath(code, r, p) && p[0] == to;
      PathPrepend(code, r, at, p);
    }
    if LiveIn(code, at, r) && r !in Reads(code[at]) {
      var p :| LivePath(code, r, p) && p[0] == at;
      PathTail(code, r, p);
      assert LivePath(code, r, p[1..]) && p[1..][0] == p[1];
    }
  }

  lemma LiveInEnd(code: seq<Instr>, r: Reg)
    ensures LiveIn(code, |code|, r) <==> r == 0
  {
    if r == 0 {
      assert LivePath(code, r, [|code|]);
    }
  }

  // ----- the fixed point -----

  type LiveSets = seq<set<Reg>>

  /** r is in the union of the sets at the successors of `at`. */
  ghost predicate InJoin(code: seq<Instr>, live: LiveSets, at: nat, r: Reg)
    requires |live| == |code| && at < |code|
  {
    exists to: nat :: to <= |code| && Edge(code, at, to) && (if to < |code| then r in live[to] else r == 0)
  }

  ghost predicate InFlow(code: seq<Instr>, live: LiveSets, at: nat, r: Reg)
    requires |live| == |code| && at < |code|
  {
    r in Reads(code[at]) || (r !in Writes(code[at]) && InJoin(code, live, at, r))
  }

  ghost predicate Below(live: LiveSets, live': LiveSets) {
    |live| == |live'| && forall at :: 0 <= at < |live| ==> live[at] <= live'[at]
  }

  /** Each set is contained in what the equation gives for it, and holds only live registers. */
  ghost predicate Rising(code: seq<Instr>, size: nat, live: LiveSets) {
    && |live| == |code|
    && (forall at, r :: 0 <= at < |code| && r in live[at] ==> r < size)
    && (forall at, r :: 0 <= at < |code| && r in live[at] ==> InFlow(code, live, at, r))
    && (forall at, r :: 0 <= at < |code| && r in live[at] ==> LiveIn(code, at, r))
  }

  ghost predicate Settled(code: seq<Instr>, live: LiveSets, after: LiveSets, at: nat)
    requires |live| == |after| == |code| && at < |code|
  {
    forall r :: (r in after[at] <==> InJoin(code, live, at, r)) && (r in live[at] <==> InFlow(code, live, at, r))
  }

  ghost function Facts(live: LiveSets): set<(nat, Reg)> {
    set at, r | 0 <= at < |live| && r in live[at] :: (at, r)
  }

  ghost function Universe(n: nat, size: nat): set<(nat, Reg)> {
    set at, r | 0 <= at < n && 0 <= r < size :: (at, r)
  }

  lemma FlowMonotone(code: seq<Instr>, live: LiveSets, live': LiveSets, at: nat, r: Reg)
    requires |live| == |code| && Below(live, live') && at < |code| && InFlow(code, live, at, r)
    ensures InFlow(code, live', at, r)
  {
    hide Reads, Dest, Targets, Find;
    if r !in Reads(code[at]) {
      var to: nat :| to <= |code| && Edge(code, at, to) && (if to < |code| then r in live[to] else r == 0);
    }
  }

  lemma JoinIsLive(code: seq<Instr>, live: LiveSets, at: nat, r: Reg)
    requires |live| == |code| && at < |code| && InJoin(code, live, at, r)
    requires forall k, q :: 0 <= k < |code| && q in live[k] ==> LiveIn(code, k, q)
    ensures LiveOut(code, at, r)
  {
    hide Reads, Dest, Targets, Find;
    var to: nat :| to <= |code| && Edge(code, at, to) && (if to < |code| then r in live[to] else r == 0);
    LiveInEnd(code, r);
  }

  /** Replacing one set by its equation keeps the sets rising, and strictly adds facts if it changed. */
  lemma RaiseKeepsRising(code: seq<Instr>, size: nat, live: LiveSets, at: nat, next: set<Reg>)
    requires Rising(code, size, live) && at < |code| && InRange(code[at], size) && size > 0
    requires forall r :: r in next <==> InFlow(code, live, at, r)
    ensures Rising(code, size, live[at := next]) && Below(live, live[at := next])
    ensures next != live[at] ==> Facts(live) < Facts(live[at := next])
    ensures Facts(live[at := next]) <= Universe(|code|, size)
  {
    hide Reads, Dest, Targets, Find;
    var live' := live[at := next];
    forall r | r in next
      ensures r < size && LiveIn(code, at, r)
    {
      LiveInUnfold(code, at, r);
      assert r in Reads(code[at]) ==> r in Reads(code[at]) + Writes(code[at]);
      if r !in Reads(code[at]) {
        JoinIsLive(code, live, at, r);
        var to: nat :| to <= |code| && Edge(code, at, to) && (if to < |code| then r in live[to] else r == 0);
      }
    }
    forall k, r | 0 <= k < |code| && r in live'[k]
      ensures InFlow(code, live', k, r)
    {
      FlowMonotone(code, live, live', k, r);
    }
    if next != live[at] {
      var r :| r in next && r !in live[at];
      assert (at, r) in Facts(live') && (at, r) !in Facts(live);
    }
  }

  /** A set that satisfies the equations contains every path-live register. */
  lemma {:induction false} SettledIsComplete(code: seq<Instr>, live: LiveSets, r: Reg, p: seq<nat>)
    requires |live| == |code| && LivePath(code, r, p) && p[0] < |code|
    requires forall at, q :: 0 <= at < |code| && InFlow(code, live, at, q) ==> q in live[at]
    ensures r in live[p[0]]
    decreases |p|
  {
    hide Reads, Dest, Targets, Find;
    if |p| > 1 {
      var q := p[1..];
      PathTail(code, r, p);
      if p[1] < |code| {
        SettledIsComplete(code, live, r, q);
      }
      assert InJoin(code, live, p[0], r);
    }
    assert InFlow(code, live, p[0], r);
  }

  lemma SettledIsExact(code: seq<Instr>, live: LiveSets, after: LiveSets, at: nat, r: Reg)
    requires |live| == |after| == |code| && at < |code|
    requires forall k :: 0 <= k < |code| ==> Settled(code, live, after, k)
    requires forall k, q :: 0 <= k < |code| && q in live[k] ==> LiveIn(code, k, q)
    ensures r in after[at] <==> LiveOut(code, at, r)
  {
    hide Reads, Dest, Targets, Find;
    assert Settled(code, live, after, at);
    if r in after[at] {
      JoinIsLive(code, live, at, r);
    }
    if LiveOut(code, at, r) {
      var to: nat :| to <= |code| && Edge(code, at, to) && LiveIn(code, to, r);
      if to < |code| {
        var p :| LivePath(code, r, p) && p[0] == to;
        forall k, q | 0 <= k < |code| && InFlow(code, live, k, q)
          ensures q in live[k]
        {
          assert Settled(code, live, after, k);
        }
        SettledIsComplete(code, live, r, p);
      } else {
        LiveInEnd(code, r);
      }
    }
  }

  /** Label positions, as the analyses collect them. */
  method CollectLabels(code: seq<Instr>) returns (labels: map<Name, nat>)
    requires UniqueLabels(code)
    ensures forall l :: l in labels <==> Label(l) in code
    ensures forall l :: l in labels ==> labels[l] == Find(code, l)
  {
    labels := map[];
    for j := 0 to |code|
      invariant forall l :: l in labels <==> Label(l) in code[..j]
      invariant forall l :: l in labels ==> labels[l] == Find(code, l)
    {
      if code[j].Label? {
        labels := labels[code[j].l := j];
      }
    }
    assert code[..|code|] == code;
  }

  ghost predicate InTargets(code: seq<Instr>, live: LiveSets, targets: seq<Name>, r: Reg)
    requires |live| == |code|
  {
    exists k :: 0 <= k < |targets| && Find(code, targets[k]) < |code| && r in live[Find(code, targets[k])]
  }

  lemma TargetsGrow(code: seq<Instr>, live: LiveSets, targets: seq<Name>, j: nat)
    requires |live| == |code| && j < |targets| && Find(code, targets[j]) < |code|
    ensures forall r :: InTargets(code, live, targets[..j + 1], r) <==>
      InTargets(code, live, targets[..j], r) || r in live[Find(code, targets[j])]
  {
    hide Reads, Dest, Targets, Find;
    assert targets[..j + 1] == targets[..j] + [targets[j]];
    forall r
      ensures InTargets(code, live, targets[..j + 1], r) <==>
        InTargets(code, live, targets[..j], r) || r in live[Find(code, targets[j])]
    {
      if InTargets(code, live, targets[..j], r) {
        var k :| 0 <= k < j && Find(code, targets[..j][k]) < |code| && r in live[Find(code, targets[..j][k])];
        assert targets[..j + 1][k] == targets[..j][k];
      } else if r in live[Find(code, targets[j])] {
        assert targets[..j + 1][j] == targets[j];
      }
    }
  }

  /** The union over the successors: the next instruction or the end, and the label operands. */
  lemma JoinParts(code: seq<Instr>, live: LiveSets, at: nat, r: Reg)
    requires |live| == |code| && at < |code| && TargetsExist(code)
    ensures InJoin(code, live, at, r) <==>
      || (!Terminates(code[at]) && (if at + 1 < |code| then r in live[at + 1] else r == 0))
      || InTargets(code, live, Targets(code[at]), r)
  {
    hide Reads, Dest, Targets, Find;
    if InJoin(code, live, at, r) {
      var to: nat :| to <= |code| && Edge(code, at, to) && (if to < |code| then r in live[to] else r == 0);
      if !(!Terminates(code[at]) && to == at + 1) {
        var j :| 0 <= j < |Targets(code[at])| && to == Find(code, Targets(code[at])[j]);
        FindTarget(code, at, j);
      }
    }
    if InTargets(code, live, Targets(code[at]), r) {
      var k :| 0 <= k < |Targets(code[at])| && Find(code, Targets(code[at])[k]) < |code| &&
        r in live[Find(code, Targets(code[at])[k])];
      FindTarget(code, at, k);
    }
    if !Terminates(code[at]) {
      assert Edge(code, at, at + 1);
    }
  }

  method Join(code: seq<Instr>, labels: map<Name, nat>, live: LiveSets, at: nat) returns (next: set<Reg>)
    requires |live| == |code| && at < |code| && TargetsExist(code)
    requires forall l :: l in labels <==> Label(l) in code
    requires forall l :: l in labels ==> labels[l] == Find(code, l)
    ensures forall r :: r in next <==> InJoin(code, live, at, r)
  {
    hide Reads, Dest, Targets, Find, Edge, InTargets, InJoin;
    var i := code[at];
    next := {};
    if !Terminates(i) {
      if at + 1 < |code| {
        next := next + live[at + 1];
      } else {
        next := next + {0};
      }
    }
    ghost var base := next;
    NoTargets(code, live, Targets(i));
    for j := 0 to |Targets(i)|
      invariant forall r :: r in next <==> r in base || InTargets(code, live, Targets(i)[..j], r)
    {
      FindTarget(code, at, j);
      next := next + live[labels[Targets(i)[j]]];
      TargetsGrow(code, live, Targets(i), j);
    }
    assert Targets(i)[..|Targets(i)|] == Targets(i);
    forall r
      ensures r in next <==> InJoin(code, live, at, r)
    {
      JoinParts(code, live, at, r);
    }
  }

  lemma NoTargets(code: seq<Instr>, live: LiveSets, targets: seq<Name>)
    requires |live| == |code|
    ensures forall r :: !InTargets(code, live, targets[..0], r)
  {
  }

  /** The do-while fixed point stops, and what it returns is exactly path liveness. */
  method LiveAfter(f: Function) returns (after: LiveSets)
    requires WellFormed(f)
    ensures |after| == |f.code|
    ensures forall at, r :: 0 <= at < |f.code| ==> (r in after[at] <==> LiveOut(f.code, at, r))
  {
    hide Reads, Dest, Targets, Find;
    var code, n := f.code, |f.code|;
    var live: LiveSets := seq(n, _ => {});
    after := live;
    var labels := CollectLabels(code);
    var changed := true;
    while changed
      invariant |after| == n && Rising(code, Size(f), live)
      invariant !changed ==> forall k :: 0 <= k < n ==> Settled(code, live, after, k)
      decreases Universe(n, Size(f)) - Facts(live), changed
    {
      changed := false;
      ghost var before := live;
      var at := n;
      while at > 0
        invariant 0 <= at <= n && |after| == n && Rising(code, Size(f), live)
        invariant if changed then Facts(before) < Facts(live) <= Universe(n, Size(f)) else live == before
        invariant !changed ==> forall k :: at <= k < n ==> Settled(code, live, after, k)
      {
        at := at - 1;
        var i := code[at];
        var next := Join(code, labels, live, at);
        ghost var earlier := after;
        after := after[at := next];
        forall k | at < k < n && !changed
          ensures Settled(code, live, after, k)
        {
          assert Settled(code, live, earlier, k);
        }
        next := next - Writes(i) + Reads(i);
        RaiseKeepsRising(code, Size(f), live, at, next);
        assert next == live[at] ==> Settled(code, live, after, at);
        if next != live[at] {
          live := live[at := next];
          changed := true;
        }
      }
    }
    forall at, r | 0 <= at < n
      ensures r in after[at] <==> LiveOut(code, at, r)
    {
      SettledIsExact(code, live, after, at, r);
    }
  }

  // ----- what liveness means for runs -----

  /** Two states at the same place that differ at most in dead registers. */
  ghost predicate AgreeOnLive(code: seq<Instr>, s: State, s': State) {
    && s.pc == s'.pc <= |code|
    && s.w == s'.w
    && |s.regs| == |s'.regs|
    && (forall r :: LiveIn(code, s.pc, r) ==> At(s.regs, r) == At(s'.regs, r))
  }

  ghost predicate AgreeOutcome(code: seq<Instr>, c: Config, c': Config) {
    if c.Running? then c'.Running? && AgreeOnLive(code, c.s, c'.s) else c == c'
  }

  lemma {:induction false} StepAgrees(h: Host, code: seq<Instr>, s: State, s': State)
    requires AgreeOnLive(code, s, s') && TargetsExist(code)
    ensures AgreeOutcome(code, Step(h, code, s), Step(h, code, s'))
  {
    hide Execute, Commit, Reads, Dest, Targets, Find;
    if s.pc == |code| {
      LiveInEnd(code, 0);
    } else {
      var i := code[s.pc];
      forall r | r in Reads(i)
        ensures At(s.regs, r) == At(s'.regs, r)
      {
        LiveInUnfold(code, s.pc, r);
      }
      ExecuteAgree(h, i, s.regs, s'.regs, s.w);
      var a := Execute(h, i, s.regs, s.w);
      ExecuteWrites(h, i, s.regs, s.w);
      if a.next.Finish? {
        FinishReadsR0(h, i, s.regs, s.w);
      }
      var c, c' := Step(h, code, s), Step(h, code, s');
      if c.Running? {
        StepFollowsEdge(h, code, s);
        forall r | LiveIn(code, c.s.pc, r)
          ensures At(c.s.regs, r) == At(c'.s.regs, r)
        {
          CommitAt(i, s.regs, a, r);
          CommitAt(i, s'.regs, a, r);
          LiveInUnfold(code, s.pc, r);
        }
      }
    }
  }

  lemma {:induction false} RunAgrees(h: Host, code: seq<Instr>, c: Config, c': Config, n: nat)
    requires AgreeOutcome(code, c, c') && TargetsExist(code)
    ensures AgreeOutcome(code, Run(h, code, c, n), Run(h, code, c', n))
    decreases n
  {
    hide Execute, Commit, Find;
    if n > 0 && c.Running? {
      StepAgrees(h, code, c.s, c'.s);
      RunAgrees(h, code, Step(h, code, c.s), Step(h, code, c'.s), n - 1);
    }
  }

  /**
   Non-interference: changing a register that is not live after `at`, at any place a run can
   reach from `at` in one step, changes neither the result, nor the world, nor the failures.
   */
  lemma {:induction false} DeadRegistersDoNotInterfere(h: Host, f: Function, at: nat, s: State, r: Reg, v: Value)
    requires WellFormed(f) && at < |f.code| && s.pc <= |f.code| && Edge(f.code, at, s.pc)
    requires !LiveOut(f.code, at, r)
    ensures SameMeaning(h, f.code, s, f.code, s.(regs := Put(s.regs, r, v)))
    ensures forall n: nat :: AgreeOutcome(f.code, Run(h, f.code, Running(s), n),
                                          Run(h, f.code, Running(s.(regs := Put(s.regs, r, v))), n))
  {
    var s' := s.(regs := Put(s.regs, r, v));
    assert AgreeOnLive(f.code, s, s');
    forall n: nat
      ensures AgreeOutcome(f.code, Run(h, f.code, Running(s), n), Run(h, f.code, Running(s'), n))
    {
      RunAgrees(h, f.code, Running(s), Running(s'), n);
    }
  }
}
