/**
 The two rewrites the C backend makes on a function body: deleting moves into registers that
 are never read, to a fixed point, and replacing a COERCE by a MOVE where the source kind is
 proven. Both leave results, worlds and failures of every run unchanged.
 */
module Rewrites {
  import opened Ir
  import opened Machine
  import opened TypeFlow
  import opened TypeSoundness

  /** Registers some instruction reads; r0 always counts as read. */
  function ReadRegs(code: seq<Instr>): (read: set<Reg>)
    ensures 0 in read
    ensures forall at :: 0 <= at < |code| ==> Reads(code[at]) <= read
  {
    if code == [] then {0} else Reads(code[0]) + ReadRegs(code[1..])
  }

  predicate Dead(i: Instr, read: set<Reg>) {
    i.Move? && i.d !in read
  }

  function Keep(code: seq<Instr>, read: set<Reg>): (out: seq<Instr>)
    ensures |out| <= |code|
    ensures |out| == |code| ==> out == code
  {
    if code == [] then []
    else if Dead(code[0], read) then Keep(code[1..], read)
    else [code[0]] + Keep(code[1..], read)
  }

  /** Deletes dead moves until none is left. */
  function Pruned(code: seq<Instr>): (out: seq<Instr>)
    decreases |code|
  {
    var next := Keep(code, ReadRegs(code));
    if |next| == |code| then code else Pruned(next)
  }

  // ----- positions -----

  /** Where position `at` of the code ends up. */
  function Moved(code: seq<Instr>, read: set<Reg>, at: nat): nat
    requires at <= |code|
  {
    |Keep(code[..at], read)|
  }

  lemma KeepConcat(a: seq<Instr>, b: seq<Instr>, read: set<Reg>)
    ensures Keep(a + b, read) == Keep(a, read) + Keep(b, read)
  {
    if a == [] {
      assert a + b == b;
    } else {
      assert (a + b)[1..] == a[1..] + b;
      KeepConcat(a[1..], b, read);
    }
  }

  lemma MovedStep(code: seq<Instr>, read: set<Reg>, at: nat)
    requires at < |code|
    ensures Moved(code, read, at + 1) == Moved(code, read, at) + (if Dead(code[at], read) then 0 else 1)
    ensures Moved(code, read, at) <= |Keep(code, read)|
    ensures !Dead(code[at], read) ==>
      Moved(code, read, at) < |Keep(code, read)| && Keep(code, read)[Moved(code, read, at)] == code[at]
  {
    assert code[..at + 1] == code[..at] + [code[at]];
    KeepConcat(code[..at], [code[at]], read);
    assert code == code[..at] + code[at..];
    KeepConcat(code[..at], code[at..], read);
    assert code[at..][0] == code[at];
  }

  lemma MovedEnds(code: seq<Instr>, read: set<Reg>)
    ensures Moved(code, read, 0) == 0 && Moved(code, read, |code|) == |Keep(code, read)|
  {
    assert code[..|code|] == code && code[..0] == [];
  }

  /** Labels are never deleted, so a label is found where its position moved to. */
  lemma {:induction false} FindMoved(code: seq<Instr>, read: set<Reg>, l: Name)
    ensures Find(Keep(code, read), l) == Moved(code, read, Find(code, l))
  {
    if code != [] && code[0] != Label(l) {
      FindMoved(code[1..], read, l);
      var k := Find(code[1..], l);
      assert code[..k + 1] == [code[0]] + code[1..][..k];
      KeepConcat([code[0]], code[1..][..k], read);
      assert Keep([code[0]], read) == if Dead(code[0], read) then [] else [code[0]];
      if !Dead(code[0], read) {
        assert Keep(code, read)[1..] == Keep(code[1..], read);
      }
    } else if code != [] {
      assert code[..0] == [];
    }
  }

  /** Every kept instruction comes from a position that was not deleted. */
  lemma {:induction false} Origin(code: seq<Instr>, read: set<Reg>, j: nat) returns (p: nat)
    requires j < |Keep(code, read)|
    ensures p < |code| && !Dead(code[p], read) && Moved(code, read, p) == j && code[p] == Keep(code, read)[j]
  {
    if Dead(code[0], read) || j > 0 {
      p := Origin(code[1..], read, if Dead(code[0], read) then j else j - 1);
      assert code[..p + 1] == [code[0]] + code[1..][..p];
      KeepConcat([code[0]], code[1..][..p], read);
      assert Keep([code[0]], read) == if Dead(code[0], read) then [] else [code[0]];
      p := p + 1;
    } else {
      p := 0;
      assert code[..0] == [];
    }
  }

  // ----- simulation -----

  /** The pruned body is at the moved position and agrees on every register that is read anywhere. */
  ghost predicate Related(code: seq<Instr>, read: set<Reg>, s: State, t: State) {
    && s.pc <= |code| && t.pc == Moved(code, read, s.pc)
    && s.w == t.w && |s.regs| == |t.regs|
    && (forall r :: r in read ==> At(s.regs, r) == At(t.regs, r))
  }

  lemma DeadStep(h: Host, code: seq<Instr>, read: set<Reg>, s: State, t: State)
    requires Related(code, read, s, t) && s.pc < |code| && Dead(code[s.pc], read)
    ensures Step(h, code, s).Running? && Related(code, read, Step(h, code, s).s, t)
    ensures Step(h, code, s).s.pc == s.pc + 1
  {
    hide Find, Keep, Moved, Reads;
    MovedStep(code, read, s.pc);
    var i := code[s.pc];
    var a := Execute(h, i, s.regs, s.w);
    forall r | r in read
      ensures At(Commit(i, s.regs, a), r) == At(t.regs, r)
    {
      CommitAt(i, s.regs, a, r);
    }
  }

  lemma KeptStep(h: Host, code: seq<Instr>, read: set<Reg>, s: State, t: State)
    requires Related(code, read, s, t) && 0 in read && TargetsExist(code)
    requires forall at :: 0 <= at < |code| ==> Reads(code[at]) <= read
    requires s.pc < |code| ==> !Dead(code[s.pc], read)
    ensures var c, d := Step(h, code, s), Step(h, Keep(code, read), t);
            if c.Running? then d.Running? && Related(code, read, c.s, d.s) else c == d
  {
    hide Execute, Commit, Reads, Dest, Targets, Find, Keep, Moved, TargetsExist;
    MovedEnds(code, read);
    if s.pc < |code| {
      MovedStep(code, read, s.pc);
      var i := code[s.pc];
      ExecuteAgree(h, i, s.regs, t.regs, s.w);
      var a := Execute(h, i, s.regs, s.w);
      if a.next.Finish? {
        FinishReadsR0(h, i, s.regs, s.w);
      }
      if a.next.Goto? {
        FindMoved(code, read, a.next.l);
      }
      forall r | r in read
        ensures At(Commit(i, s.regs, a), r) == At(Commit(i, t.regs, a), r)
      {
        CommitAt(i, s.regs, a, r);
        CommitAt(i, t.regs, a, r);
      }
    }
  }

  lemma {:induction false} PrunedFollows(h: Host, code: seq<Instr>, read: set<Reg>, s: State, t: State, n: nat)
    returns (m: nat)
    requires Related(code, read, s, t) && 0 in read && TargetsExist(code)
    requires forall at :: 0 <= at < |code| ==> Reads(code[at]) <= read
    requires !Run(h, code, Running(s), n).Running?
    ensures Run(h, Keep(code, read), Running(t), m) == Run(h, code, Running(s), n)
    decreases n
  {
    hide Execute, Commit, Find, Keep, Moved, Reads, TargetsExist, Related;
    if s.pc < |code| && Dead(code[s.pc], read) {
      DeadStep(h, code, read, s, t);
      m := PrunedFollows(h, code, read, Step(h, code, s).s, t, n - 1);
    } else {
      KeptStep(h, code, read, s, t);
      var c, d := Step(h, code, s), Step(h, Keep(code, read), t);
      if c.Running? {
        m := PrunedFollows(h, code, read, c.s, d.s, n - 1);
        m := m + 1;
      } else {
        m := 1;
      }
    }
  }

  lemma {:induction false} OriginalFollows(h: Host, code: seq<Instr>, read: set<Reg>, s: State, t: State, m: nat)
    returns (n: nat)
    requires Related(code, read, s, t) && 0 in read && TargetsExist(code)
    requires forall at :: 0 <= at < |code| ==> Reads(code[at]) <= read
    requires !Run(h, Keep(code, read), Running(t), m).Running?
    ensures Run(h, code, Running(s), n) == Run(h, Keep(code, read), Running(t), m)
    decreases m, |code| - s.pc
  {
    hide Execute, Commit, Find, Keep, Moved, Reads, TargetsExist;
    if s.pc < |code| && Dead(code[s.pc], read) {
      DeadStep(h, code, read, s, t);
      n := OriginalFollows(h, code, read, Step(h, code, s).s, t, m);
      n := n + 1;
    } else {
      KeptStep(h, code, read, s, t);
      var c, d := Step(h, code, s), Step(h, Keep(code, read), t);
      if c.Running? {
        n := OriginalFollows(h, code, read, c.s, d.s, m - 1);
        n := n + 1;
      } else {
        n := 1;
      }
    }
  }

  /** One round of deletion preserves meaning although positions shift. */
  lemma {:induction false} KeepMeansTheSame(h: Host, code: seq<Instr>, s: State)
    requires TargetsExist(code) && s.pc == 0
    ensures SameMeaning(h, code, s, Keep(code, ReadRegs(code)), s)
  {
    var read := ReadRegs(code);
    MovedEnds(code, read);
    assert Related(code, read, s, s);
    forall o: Config | !o.Running?
      ensures Ends(h, code, s, o) <==> Ends(h, Keep(code, read), s, o)
    {
      if n: nat :| Run(h, code, Running(s), n) == o {
        var m := PrunedFollows(h, code, read, s, s, n);
      }
      if m: nat :| Run(h, Keep(code, read), Running(s), m) == o {
        var n := OriginalFollows(h, code, read, s, s, m);
      }
    }
  }

  // ----- what the verifier established still holds -----

  lemma KeepInstr(code: seq<Instr>, read: set<Reg>, at: nat)
    requires at < |code| && !Dead(code[at], read)
    ensures code[at] in Keep(code, read)
  {
    MovedStep(code, read, at);
  }

  lemma KeepWellFormed(f: Function, read: set<Reg>)
    requires WellFormed(f)
    ensures WellFormed(f.(code := Keep(f.code, read)))
  {
    hide Reads, Dest, Targets, Find, Keep, Moved;
    var code, kept := f.code, Keep(f.code, read);
    forall j | 0 <= j < |kept|
      ensures InRange(kept[j], Size(f))
    {
      var p := Origin(code, read, j);
    }
    forall j, k | 0 <= j < |kept| && 0 <= k < |kept| && kept[j].Label? && kept[j] == kept[k]
      ensures j == k
    {
      var p := Origin(code, read, j);
      var q := Origin(code, read, k);
    }
    forall j, t | 0 <= j < |kept| && 0 <= t < |Targets(kept[j])|
      ensures Label(Targets(kept[j])[t]) in kept
    {
      var p := Origin(code, read, j);
      FindTarget(code, p, t);
      KeepInstr(code, read, Find(code, Targets(code[p])[t]));
    }
  }

  /** Position j of the pruned code as a position of the original; the end goes to the end. */
  ghost function Back(code: seq<Instr>, read: set<Reg>, j: nat): (p: nat)
    requires j <= |Keep(code, read)|
    ensures p <= |code| && Moved(code, read, p) == j
    ensures j < |Keep(code, read)| ==> p < |code| && !Dead(code[p], read) && code[p] == Keep(code, read)[j]
    ensures j == |Keep(code, read)| ==> p == |code|
  {
    if j == |Keep(code, read)| then
      MovedEnds(code, read);
      |code|
    else
      assert exists p: nat ::
          && p < |code| && !Dead(code[p], read) && Moved(code, read, p) == j
          && code[p] == Keep(code, read)[j] by {
        var p := Origin(code, read, j);
      }
      var p: nat :| p < |code| && !Dead(code[p], read) && Moved(code, read, p) == j && code[p] == Keep(code, read)[j];
      p
  }

  lemma {:induction false} MovedIncreases(code: seq<Instr>, read: set<Reg>, p: nat, q: nat)
    requires p <= q <= |code|
    ensures Moved(code, read, p) <= Moved(code, read, q)
    ensures p < q && !Dead(code[p], read) ==> Moved(code, read, p) < Moved(code, read, q)
    decreases q - p
  {
    if p < q {
      MovedStep(code, read, p);
      MovedIncreases(code, read, p + 1, q);
    }
  }

  /** Between two positions that move to the same place there are only deleted moves. */
  lemma {:induction false} DefinedAcross(f: Function, defined: seq<set<Reg>>, read: set<Reg>, p: nat, q: nat)
    requires DefinedBy(f, defined) && p <= q <= |f.code| && Moved(f.code, read, p) == Moved(f.code, read, q)
    ensures defined[q] * read <= defined[p]
    decreases q - p
  {
    hide Reads, Targets, Find, Keep, Moved;
    if p < q {
      MovedStep(f.code, read, p);
      MovedIncreases(f.code, read, p + 1, q);
      assert Dead(f.code[p], read);
      assert Edge(f.code, p, p + 1);
      DefinedAcross(f, defined, read, p + 1, q);
    }
  }

  lemma DefinedEdge(f: Function, defined: seq<set<Reg>>, read: set<Reg>, j: nat, k: nat)
    requires WellFormed(f) && DefinedBy(f, defined) && j < |Keep(f.code, read)| && k <= |Keep(f.code, read)|
    requires Edge(Keep(f.code, read), j, k)
    ensures var p := Back(f.code, read, j);
            defined[Back(f.code, read, k)] * read <= defined[p] + Writes(f.code[p])
  {
    hide Reads, Targets, Keep, Moved, Dest;
    var code, kept := f.code, Keep(f.code, read);
    var p, q := Back(code, read, j), Back(code, read, k);
    MovedStep(code, read, p);
    if !Terminates(code[p]) && k == j + 1 {
      if q < p + 1 {
        MovedIncreases(code, read, q, p);
        assert false;
      }
      DefinedAcross(f, defined, read, p + 1, q);
      assert Edge(code, p, p + 1);
    } else {
      var t :| 0 <= t < |Targets(kept[j])| && k == Find(kept, Targets(kept[j])[t]);
      FindTarget(code, p, t);
      var at := Find(code, Targets(code[p])[t]);
      FindMoved(code, read, Targets(code[p])[t]);
      SameOrigin(code, read, at, q);
    }
  }

  lemma SameOrigin(code: seq<Instr>, read: set<Reg>, p: nat, q: nat)
    requires p < |code| && q <= |code| && !Dead(code[p], read) && (q < |code| ==> !Dead(code[q], read))
    requires Moved(code, read, p) == Moved(code, read, q)
    ensures p == q
  {
    if p < q {
      MovedIncreases(code, read, p, q);
    } else if q < p {
      MovedIncreases(code, read, q, p);
    }
  }

  lemma KeepAssigned(f: Function, read: set<Reg>)
    requires WellFormed(f) && DefinitelyAssigned(f)
    requires forall at :: 0 <= at < |f.code| ==> Reads(f.code[at]) <= read
    ensures DefinitelyAssigned(f.(code := Keep(f.code, read)))
  {
    hide Reads, Targets, Keep, Moved, Dest, Find, Edge, WellFormed;
    KeepWellFormed(f, read);
    var defined: seq<set<Reg>> :| DefinedBy(f, defined);
    var kept := Keep(f.code, read);
    var defined' := seq(|kept| + 1, j requires 0 <= j <= |kept| => defined[Back(f.code, read, j)] * read);
    var g := f.(code := kept);
    forall j, k | 0 <= j < |kept| && 0 <= k <= |kept| && Edge(kept, j, k)
      ensures defined'[k] <= defined'[j] + Writes(kept[j])
    {
      DefinedEdge(f, defined, read, j, k);
    }
    MovedEnds(f.code, read);
    DefinedAcross(f, defined, read, 0, Back(f.code, read, 0));
    assert DefinedBy(g, defined');
  }

  // ----- pruning to a fixed point -----

  lemma SameMeaningTransitive(h: Host, c1: seq<Instr>, s1: State, c2: seq<Instr>, s2: State, c3: seq<Instr>, s3: State)
    requires SameMeaning(h, c1, s1, c2, s2) && SameMeaning(h, c2, s2, c3, s3)
    ensures SameMeaning(h, c1, s1, c3, s3)
  {
    hide Run;
  }

  /** Deleting dead moves to a fixed point preserves meaning, for every body and every start. */
  lemma {:induction false} PrunedMeansTheSame(h: Host, f: Function, s: State)
    requires WellFormed(f) && s.pc == 0
    ensures SameMeaning(h, f.code, s, Pruned(f.code), s)
    decreases |f.code|
  {
    hide SameMeaning, WellFormed, Keep;
    var next := Keep(f.code, ReadRegs(f.code));
    assert TargetsExist(f.code) by { WellFormedTargets(f); }
    KeepMeansTheSame(h, f.code, s);
    if |next| != |f.code| {
      KeepWellFormed(f, ReadRegs(f.code));
      PrunedMeansTheSame(h, f.(code := next), s);
      SameMeaningTransitive(h, f.code, s, next, s, Pruned(next), s);
    }
  }

  lemma WellFormedTargets(f: Function)
    requires WellFormed(f)
    ensures TargetsExist(f.code)
  {
  }

  lemma {:induction false} PrunedVerified(sigs: seq<Signature>, f: Function)
    requires Verified(f) && WordSized(sigs, f)
    ensures Verified(f.(code := Pruned(f.code))) && WordSized(sigs, f.(code := Pruned(f.code)))
    decreases |f.code|
  {
    hide Verified, Keep, Moved, Reads;
    var read := ReadRegs(f.code);
    var next := Keep(f.code, read);
    if |next| != |f.code| {
      KeepVerified(f, read);
      forall j | 0 <= j < |next|
        ensures Constructs(next[j])
      {
        var p := Origin(f.code, read, j);
      }
      PrunedVerified(sigs, f.(code := next));
    }
  }

  lemma {:induction false} KeptIsNotDead(code: seq<Instr>, read: set<Reg>, at: nat)
    requires Keep(code, read) == code && at < |code|
    ensures !Dead(code[at], read)
  {
    if at > 0 && !Dead(code[0], read) {
      assert Keep(code[1..], read) == code[1..];
      KeptIsNotDead(code[1..], read, at - 1);
    }
  }

  /** The registers collected are those some instruction reads, and r0. */
  lemma {:induction false} ReadExactly(code: seq<Instr>, r: Reg)
    ensures r in ReadRegs(code) <==> r == 0 || exists k :: 0 <= k < |code| && r in Reads(code[k])
  {
    hide Reads;
    if code != [] {
      ReadExactly(code[1..], r);
      assert forall k :: 0 < k < |code| ==> code[k] == code[1..][k - 1];
      if k :| 0 <= k < |code[1..]| && r in Reads(code[1..][k]) {
        assert r in Reads(code[k + 1]);
      }
    }
  }

  /** The fixed point: no move is left whose destination nothing reads. */
  lemma {:induction false} PrunedIsClean(code: seq<Instr>, at: nat)
    requires at < |Pruned(code)|
    ensures var i := Pruned(code)[at];
      i.Move? ==> i.d == 0 || exists k :: 0 <= k < |Pruned(code)| && i.d in Reads(Pruned(code)[k])
    decreases |code|
  {
    hide Reads, Keep;
    var read := ReadRegs(code);
    if code[..] == Pruned(code) && at < |code| && code[at].Move? {
      ReadExactly(code, code[at].d);
    }
    var next := Keep(code, read);
    if |next| == |code| {
      KeptIsNotDead(code, read, at);
    } else {
      PrunedIsClean(next, at);
    }
  }

  method CollectReads(code: seq<Instr>) returns (read: set<Reg>)
    ensures read == ReadRegs(code)
  {
    hide Reads;
    read := {0};
    for j := 0 to |code|
      invariant 0 in read && read + ReadRegs(code[j..]) == ReadRegs(code)
    {
      read := read + Reads(code[j]);
      assert code[j..][0] == code[j] && code[j..][1..] == code[j + 1..];
    }
  }

  method RemoveDead(code: seq<Instr>, read: set<Reg>) returns (kept: seq<Instr>)
    ensures kept == Keep(code, read)
  {
    hide Reads, Dead;
    kept := [];
    for j := 0 to |code|
      invariant kept + Keep(code[j..], read) == Keep(code, read)
    {
      assert code[j..][0] == code[j] && code[j..][1..] == code[j + 1..];
      if !Dead(code[j], read) {
        kept := kept + [code[j]];
      }
    }
  }

  method Prune(code: seq<Instr>) returns (out: seq<Instr>)
    ensures out == Pruned(code)
  {
    hide Reads, ReadRegs, Keep;
    out := code;
    var changed := true;
    while changed
      invariant Pruned(out) == Pruned(code)
      invariant !changed ==> Pruned(out) == out
      decreases |out|, changed
    {
      var read := CollectReads(out);
      var kept := RemoveDead(out, read);
      changed := |kept| != |out|;
      out := kept;
    }
  }

  // ----- COERCE to MOVE -----

  function Simplified(i: Instr, proven: seq<int>): Instr {
    if i.Coerce? && i.s < |proven| && proven[i.s] == i.hint then Move(i.d, i.s) else i
  }

  ghost predicate SimplifiedFrom(code: seq<Instr>, proven: seq<int>, out: seq<Instr>) {
    |out| == |code| && forall at :: 0 <= at < |code| ==> out[at] == Simplified(code[at], proven)
  }

  lemma SimplifiedShape(i: Instr, proven: seq<int>)
    ensures var j := Simplified(i, proven);
      && Reads(j) == Reads(i) && Dest(j) == Dest(i) && Target(j) == Target(i)
      && Targets(j) == Targets(i) && Terminates(j) == Terminates(i)
      && (Constructs(j) <==> Constructs(i)) && (j.Return? <==> i.Return?) && (j.Label? <==> i.Label?) &&
        (i.Label? ==> j == i)
  {
  }

  lemma SimplifiedFind(code: seq<Instr>, proven: seq<int>, out: seq<Instr>, l: Name)
    requires SimplifiedFrom(code, proven, out)
    ensures Find(out, l) == Find(code, l)
  {
    hide Reads, Dest, Targets, Simplified;
    forall at | 0 <= at < |code|
      ensures out[at] == Label(l) <==> code[at] == Label(l)
    {
      SimplifiedShape(code[at], proven);
    }
    var k, k' := Find(code, l), Find(out, l);
    assert k < |code| ==> code[k] == Label(l);
    assert k' < |out| ==> out[k'] == Label(l);
  }

  lemma SimplifiedEdge(code: seq<Instr>, proven: seq<int>, out: seq<Instr>, at: nat, next: nat)
    requires SimplifiedFrom(code, proven, out) && at < |code|
    ensures Edge(out, at, next) <==> Edge(code, at, next)
  {
    hide Reads, Dest, Targets, Simplified, Find;
    SimplifiedShape(code[at], proven);
    forall j | 0 <= j < |Targets(code[at])|
      ensures Find(out, Targets(code[at])[j]) == Find(code, Targets(code[at])[j])
    {
      SimplifiedFind(code, proven, out, Targets(code[at])[j]);
    }
  }

  lemma SimplifiedAssigned(sigs: seq<Signature>, f: Function, proven: seq<int>, out: seq<Instr>)
    requires WellFormed(f) && DefinitelyAssigned(f) && WordSized(sigs, f) && SimplifiedFrom(f.code, proven, out)
    ensures WellFormed(f.(code := out)) && DefinitelyAssigned(f.(code := out)) && WordSized(sigs, f.(code := out))
  {
    hide Reads, Dest, Targets, Simplified, Find, Edge, Constructs;
    var code, g := f.code, f.(code := out);
    forall at | 0 <= at < |code|
      ensures Reads(out[at]) == Reads(code[at]) && Writes(out[at]) == Writes(code[at]) &&
        Targets(out[at]) == Targets(code[at])
      ensures (out[at].Return? <==> code[at].Return?) && (Constructs(out[at]) <==> Constructs(code[at]))
      ensures out[at].Label? <==> code[at].Label?
      ensures code[at].Label? ==> out[at] == code[at]
    {
      SimplifiedShape(code[at], proven);
    }
    forall at, j | 0 <= at < |out| && 0 <= j < |Targets(out[at])|
      ensures Label(Targets(out[at])[j]) in out
    {
      FindTarget(code, at, j);
      assert out[Find(code, Targets(code[at])[j])] == Label(Targets(code[at])[j]);
    }
    var defined: seq<set<Reg>> :| DefinedBy(f, defined);
    forall at, next | 0 <= at < |out| && 0 <= next <= |out| && Edge(out, at, next)
      ensures defined[next] <= defined[at] + Writes(out[at])
    {
      SimplifiedEdge(code, proven, out, at, next);
    }
    assert DefinedBy(g, defined);
  }

  lemma SimplifiedVerified(sigs: seq<Signature>, f: Function, proven: seq<int>, out: seq<Instr>)
    requires Verified(f) && WordSized(sigs, f) && SimplifiedFrom(f.code, proven, out)
    ensures Verified(f.(code := out)) && WordSized(sigs, f.(code := out))
  {
    hide WellFormed, DefinitelyAssigned, HintsGiven, WordSized, SimplifiedFrom;
    SimplifiedAssigned(sigs, f, proven, out);
    SimplifiedHints(f.code, proven, out);
  }

  lemma SimplifiedStep(h: Host, f: Function, proven: seq<int>, out: seq<Instr>, s: State)
    requires SimplifiedFrom(f.code, proven, out)
    requires s.pc < |f.code| ==> HasProvenTags(h, f, proven, s) && (f.code[s.pc].Coerce? ==> f.code[s.pc].hint != -1)
    requires forall r :: 0 <= r < |proven| ==> proven[r] >= -1
    ensures Step(h, out, s) == Step(h, f.code, s)
  {
    if s.pc < |f.code| {
      var i := f.code[s.pc];
      hide Find, Commit;
      assert Execute(h, out[s.pc], s.regs, s.w) == Execute(h, i, s.regs, s.w) by {
        if i.Coerce? && i.s < |proven| && proven[i.s] == i.hint {
          assert At(s.regs, i.s).tag == i.hint;
        }
      }
      hide Execute, HasProvenTags;
      SimplifiedShape(i, proven);
      var a := Execute(h, i, s.regs, s.w);
      CommitSame(i, out[s.pc], s.regs, a);
      if a.next.Goto? {
        SimplifiedFind(f.code, proven, out, a.next.l);
      }
    }
  }

  lemma CommitSame(i: Instr, j: Instr, regs: seq<Value>, a: Action)
    requires Target(i) == Target(j)
    ensures Commit(i, regs, a) == Commit(j, regs, a)
  {
  }

  lemma {:induction false} RunReachable(h: Host, code: seq<Instr>, s: State, n: nat)
    requires TargetsExist(code) && s.pc == 0
    ensures var c := Run(h, code, Running(s), n); c.Running? ==> c.s.pc <= |code| && Reachable(code, c.s.pc)
    decreases n
  {
    hide Step, Edge, TargetsExist;
    if n == 0 {
      assert Path(code, [0]);
      assert Reachable(code, 0);
    } else {
      RunSplit(h, code, Running(s), n - 1, 1);
      RunReachable(h, code, s, n - 1);
      var b := Run(h, code, Running(s), n - 1);
      if Run(h, code, Running(s), n).Running? {
        assert Run(h, code, b, 1) == Step(h, code, b.s);
        StepReachable(h, code, b.s);
      }
    }
  }

  lemma EdgeReachable(code: seq<Instr>, at: nat, next: nat)
    requires at < |code| && next <= |code| && Reachable(code, at) && Edge(code, at, next)
    ensures Reachable(code, next)
  {
    hide Edge;
    var p: seq<nat> :| |p| > 0 && Path(code, p) && p[0] == 0 && p[|p| - 1] == at;
    var q := p + [next];
    forall j | 0 <= j < |q| - 1
      ensures q[j] < |code| && Edge(code, q[j], q[j + 1])
    {
      assert j < |p| - 1 ==> q[j] == p[j] && q[j + 1] == p[j + 1];
    }
    assert Path(code, q);
  }

  lemma StepReachable(h: Host, code: seq<Instr>, s: State)
    requires TargetsExist(code) && s.pc <= |code| && Reachable(code, s.pc) && Step(h, code, s).Running?
    ensures Step(h, code, s).s.pc <= |code| && Reachable(code, Step(h, code, s).s.pc)
  {
    hide Edge, Execute, Commit, Find, Targets;
    assert s.pc < |code|;
    StepFollowsEdge(h, code, s);
    EdgeReachable(code, s.pc, Step(h, code, s).s.pc);
  }

  /** With proven kinds the rewritten body takes the same steps, state by state. */
  lemma {:induction false} SimplifiedRunsTheSame(sigs: seq<Signature>, h: Host, f: Function, proven: seq<int>,
                                                 out: seq<Instr>, args: seq<Value>, w: World, n: nat)
    requires Verified(f) && HostContract(sigs, h) && Conforms(f, args) && Tagged(w.globals)
    requires Reports(sigs, f, proven)
    requires SimplifiedFrom(f.code, proven, out)
    ensures Run(h, out, Running(Entry(f, args, w)), n) == Run(h, f.code, Running(Entry(f, args, w)), n)
    decreases n
  {
    hide Step, ProvenBy, HostContract, Entry, DefinitelyAssigned, HasProvenTags, SimplifiedFrom, UniqueLabels,
      TargetsExist;
    if n > 0 {
      var s := Entry(f, args, w);
      assert s.pc == 0 by { EntryStart(f, args, w); }
      RunSplit(h, out, Running(s), n - 1, 1);
      RunSplit(h, f.code, Running(s), n - 1, 1);
      SimplifiedRunsTheSame(sigs, h, f, proven, out, args, w, n - 1);
      var b := Run(h, f.code, Running(s), n - 1);
      if b.Running? {
        assert Run(h, out, b, 1) == Step(h, out, b.s) && Run(h, f.code, b, 1) == Step(h, f.code, b.s);
        RunReachable(h, f.code, s, n - 1);
        ProvenKindsAreSound(sigs, h, f, proven, args, w, n - 1);
        ProvenRange(sigs, f, proven);
        SimplifiedStep(h, f, proven, out, b.s);
      }
    }
  }

  lemma EntryStart(f: Function, args: seq<Value>, w: World)
    ensures Entry(f, args, w).pc == 0
  {
  }

  lemma ProvenRange(sigs: seq<Signature>, f: Function, proven: seq<int>)
    requires Reports(sigs, f, proven)
    ensures forall r :: 0 <= r < |proven| ==> proven[r] >= -1
  {
    var starts, sol :| ProvenBy(sigs, f, starts, sol, proven);
    assert forall r :: 0 <= r < |proven| ==> IsKind(sol.types[r], proven[r]);
  }

  // ----- reachability through pruning -----

  lemma {:induction false} ReachableAcross(code: seq<Instr>, read: set<Reg>, p: nat, q: nat)
    requires p <= q <= |code| && Moved(code, read, p) == Moved(code, read, q) && Reachable(code, p)
    ensures Reachable(code, q)
    decreases q - p
  {
    hide Moved, Keep, Reachable, Find, Targets;
    if p < q {
      MovedStep(code, read, p);
      MovedIncreases(code, read, p + 1, q);
      assert Dead(code[p], read);
      EdgeReachable(code, p, p + 1);
      ReachableAcross(code, read, p + 1, q);
    }
  }

  lemma ReachableEdge(code: seq<Instr>, read: set<Reg>, j: nat, k: nat)
    requires TargetsExist(code) && j < |Keep(code, read)| && k <= |Keep(code, read)| && Edge(Keep(code, read), j, k)
    requires Reachable(code, Back(code, read, j))
    ensures Reachable(code, Back(code, read, k))
  {
    hide Reads, Targets, Keep, Moved, Dest, Reachable;
    var kept := Keep(code, read);
    var p, q := Back(code, read, j), Back(code, read, k);
    MovedStep(code, read, p);
    if !Terminates(code[p]) && k == j + 1 {
      if q < p + 1 {
        MovedIncreases(code, read, q, p);
        assert false;
      }
      EdgeReachable(code, p, p + 1);
      ReachableAcross(code, read, p + 1, q);
    } else {
      var t :| 0 <= t < |Targets(kept[j])| && k == Find(kept, Targets(kept[j])[t]);
      FindTarget(code, p, t);
      var at := Find(code, Targets(code[p])[t]);
      FindMoved(code, read, Targets(code[p])[t]);
      SameOrigin(code, read, at, q);
      EdgeReachable(code, p, q);
    }
  }

  lemma {:induction false} PathReachable(code: seq<Instr>, read: set<Reg>, path: seq<nat>, n: nat)
    requires TargetsExist(code) && 0 < n <= |path| && Path(Keep(code, read), path) && path[0] == 0
    ensures Reachable(code, Back(code, read, path[n - 1]))
    decreases n
  {
    hide Keep, Moved, Edge, Reachable;
    if n == 1 {
      MovedEnds(code, read);
      StartReachable(code);
      ReachableAcross(code, read, 0, Back(code, read, 0));
    } else {
      PathReachable(code, read, path, n - 1);
      assert path[n - 1] == path[n - 2 + 1];
      ReachableEdge(code, read, path[n - 2], path[n - 1]);
    }
  }

  lemma StartReachable(code: seq<Instr>)
    ensures Reachable(code, 0)
  {
    assert Path(code, [0]);
  }

  lemma KeepHints(code: seq<Instr>, read: set<Reg>)
    requires TargetsExist(code) && HintsGiven(code)
    ensures HintsGiven(Keep(code, read))
  {
    hide Keep, Moved, TargetsExist, Edge;
    var kept := Keep(code, read);
    forall j | 0 <= j < |kept| && Reachable(kept, j) && kept[j].Coerce?
      ensures kept[j].hint != -1
    {
      var path: seq<nat> :| |path| > 0 && Path(kept, path) && path[0] == 0 && path[|path| - 1] == j;
      PathReachable(code, read, path, |path|);
    }
  }

  /** One round of deletion keeps everything the verifier established. */
  lemma KeepVerified(f: Function, read: set<Reg>)
    requires Verified(f) && forall at :: 0 <= at < |f.code| ==> Reads(f.code[at]) <= read
    ensures Verified(f.(code := Keep(f.code, read)))
  {
    hide WellFormed, DefinitelyAssigned, HintsGiven, Keep, Reads, TargetsExist;
    KeepWellFormed(f, read);
    KeepAssigned(f, read);
    WellFormedTargets(f);
    KeepHints(f.code, read);
  }

  lemma {:induction false} SimplifiedPath(code: seq<Instr>, proven: seq<int>, out: seq<Instr>, path: seq<nat>)
    requires SimplifiedFrom(code, proven, out) && Path(out, path)
    ensures Path(code, path)
  {
    hide Edge, SimplifiedFrom;
    assert |out| == |code| by { SimplifiedSize(code, proven, out); }
    forall j | 0 <= j < |path| - 1
      ensures path[j] < |code| && Edge(code, path[j], path[j + 1])
    {
      SimplifiedEdge(code, proven, out, path[j], path[j + 1]);
    }
  }

  lemma SimplifiedSize(code: seq<Instr>, proven: seq<int>, out: seq<Instr>)
    requires SimplifiedFrom(code, proven, out)
    ensures |out| == |code|
  {
  }

  lemma SimplifiedHints(code: seq<Instr>, proven: seq<int>, out: seq<Instr>)
    requires SimplifiedFrom(code, proven, out) && HintsGiven(code)
    ensures HintsGiven(out)
  {
    hide Path;
    forall at | 0 <= at < |out| && Reachable(out, at) && out[at].Coerce?
      ensures out[at].hint != -1
    {
      var path: seq<nat> :| |path| > 0 && Path(out, path) && path[0] == 0 && path[|path| - 1] == at;
      SimplifiedPath(code, proven, out, path);
      assert Reachable(code, at);
    }
  }

  method Simplify(code: seq<Instr>, proven: seq<int>) returns (out: seq<Instr>, simplified: bool)
    ensures SimplifiedFrom(code, proven, out)
    ensures simplified <==> out != code
  {
    out, simplified := code, false;
    for at := 0 to |code|
      invariant |out| == |code|
      invariant forall k :: 0 <= k < at ==> out[k] == Simplified(code[k], proven)
      invariant forall k :: at <= k < |code| ==> out[k] == code[k]
      invariant simplified <==> out != code
    {
      var i := code[at];
      if i.Coerce? && i.s < |proven| && proven[i.s] == i.hint {
        out := out[at := Move(i.d, i.s)];
        simplified := true;
      }
    }
  }

  // ----- what the passes leave alone -----

  /** The instructions that are not MOVEs, in order. */
  function Others(code: seq<Instr>): seq<Instr> {
    if code == [] then [] else (if code[0].Move? then [] else [code[0]]) + Others(code[1..])
  }

  lemma {:induction false} KeepOthers(code: seq<Instr>, read: set<Reg>)
    ensures Others(Keep(code, read)) == Others(code)
    ensures forall r: Reg :: r in read ==> MovesTo(Keep(code, read), r) == MovesTo(code, r)
  {
    if code != [] {
      KeepOthers(code[1..], read);
      if !Dead(code[0], read) {
        assert Keep(code, read)[1..] == Keep(code[1..], read);
      }
    }
  }

  /** How many MOVEs write a register. */
  function MovesTo(code: seq<Instr>, r: Reg): nat {
    if code == [] then 0 else (if code[0].Move? && code[0].d == r then 1 else 0) + MovesTo(code[1..], r)
  }

  /** Pruning deletes MOVEs and nothing else; every other instruction stays, in order, and so do moves to r0. */
  lemma {:induction false} OnlyMovesGo(code: seq<Instr>)
    ensures Others(Pruned(code)) == Others(code) && MovesTo(Pruned(code), 0) == MovesTo(code, 0)
    decreases |code|
  {
    hide Keep, ReadRegs, Others, MovesTo;
    var next := Keep(code, ReadRegs(code));
    KeepOthers(code, ReadRegs(code));
    if |next| < |code| {
      OnlyMovesGo(next);
    }
  }

  /** After the simplification no COERCE of a proven kind to that kind is left, and nothing else has changed. */
  lemma {:induction false} SimplifiedIsClean(code: seq<Instr>, proven: seq<int>, out: seq<Instr>, at: nat)
    requires SimplifiedFrom(code, proven, out) && at < |code|
    ensures out[at].Coerce? && out[at].s < |proven| ==> proven[out[at].s] != out[at].hint
    ensures out[at] != code[at] ==>
      && code[at].Coerce? && code[at].s < |proven| && proven[code[at].s] == code[at].hint
      && out[at] == Move(code[at].d, code[at].s)
  {
  }

  // ----- the generator's sequence of passes -----

  ghost predicate EndsInTerminator(code: seq<Instr>) {
    code != [] && Terminates(code[|code| - 1])
  }

  /** g can stand for f: verified, called the same way, and with the same outcomes on every conforming call. */
  ghost predicate Equivalent(sigs: seq<Signature>, f: Function, g: Function) {
    && Verified(g) && WordSized(sigs, g) && g.params == f.params
    && (EndsInTerminator(f.code) ==> EndsInTerminator(g.code))
    && forall h: Host, args: seq<Value>, w: World :: HostContract(sigs, h) && Conforms(f, args) && Tagged(w.globals) ==>
         SameMeaning(h, f.code, Entry(f, args, w), g.code, Entry(g, args, w))
  }

  lemma EquivalentTransitive(sigs: seq<Signature>, f: Function, g: Function, k: Function)
    requires Equivalent(sigs, f, g) && Equivalent(sigs, g, k)
    ensures Equivalent(sigs, f, k)
  {
    hide Verified, WordSized, HostContract, Tagged, SameMeaning, Entry;
    forall h: Host, args: seq<Value>, w: World | HostContract(sigs, h) && Conforms(f, args) && Tagged(w.globals)
      ensures SameMeaning(h, f.code, Entry(f, args, w), k.code, Entry(k, args, w))
    {
      assert Conforms(g, args);
      SameMeaningTransitive(h, f.code, Entry(f, args, w), g.code, Entry(g, args, w), k.code, Entry(k, args, w));
    }
  }

  /** What is asked of copy propagation, a pass of the IR optimizer: an equivalent function. */
  ghost predicate SafePass(sigs: seq<Signature>, pass: Function -> Function) {
    forall f :: Verified(f) && WordSized(sigs, f) ==> Equivalent(sigs, f, pass(f))
  }

  lemma DoingNothingIsSafe(sigs: seq<Signature>)
    ensures SafePass(sigs, f => f)
  {
    hide Verified, WordSized, HostContract, Entry;
  }

  function PrunedFunction(f: Function): Function {
    f.(code := Pruned(f.code))
  }

  /** Copies and prune, simplify, and copies and prune again if this or another function was simplified. */
  ghost predicate OptimizedBy(sigs: seq<Signature>, copies: Function -> Function, elsewhere: bool, f: Function,
                              proven: seq<int>, out: seq<Instr>, g: Function) {
    var f1 := PrunedFunction(copies(f));
    && Reports(sigs, f1, proven)
    && SimplifiedFrom(f1.code, proven, out)
    && g == if out == f1.code && !elsewhere then f1 else PrunedFunction(copies(f1.(code := out)))
  }

  ghost predicate OptimizedFrom(sigs: seq<Signature>, copies: Function -> Function, elsewhere: bool, f: Function,
                                g: Function) {
    exists proven: seq<int>, out: seq<Instr> :: OptimizedBy(sigs, copies, elsewhere, f, proven, out, g)
  }

  method Optimize(sigs: seq<Signature>, copies: Function -> Function, elsewhere: bool, f: Function)
    returns (g: Function)
    requires Verified(f) && WordSized(sigs, f) && SafePass(sigs, copies)
    ensures OptimizedFrom(sigs, copies, elsewhere, f, g)
  {
    hide Pruned, ProvenBy, SimplifiedFrom, WordSized, Verified, Equivalent;
    var f1 := copies(f);
    EquivalentIsVerified(sigs, f, f1);
    var code := Prune(f1.code);
    PrunedVerified(sigs, f1);
    f1 := f1.(code := code);
    var proven := ProvenKinds(sigs, f1);
    var out, simplified := Simplify(code, proven);
    g := f1.(code := out);
    if simplified || elsewhere {
      g := copies(g);
      var pruned := Prune(g.code);
      g := g.(code := pruned);
    }
    assert OptimizedBy(sigs, copies, elsewhere, f, proven, out, g);
  }

  method ProvenKinds(sigs: seq<Signature>, f: Function) returns (proven: seq<int>)
    requires Verified(f) && WordSized(sigs, f)
    ensures Reports(sigs, f, proven)
  {
    hide ProvenBy, WordSized, DefinitelyAssigned, HintsGiven, WellFormed;
    proven := ProvenLocals(sigs, f);
  }

  lemma EquivalentIsVerified(sigs: seq<Signature>, f: Function, g: Function)
    requires Equivalent(sigs, f, g)
    ensures Verified(g) && WordSized(sigs, g) && g.params == f.params
  {
    hide Verified, WordSized, SameMeaning;
  }

  lemma {:induction false} KeepTerminator(code: seq<Instr>, read: set<Reg>)
    requires EndsInTerminator(code)
    ensures EndsInTerminator(Keep(code, read))
  {
    if |code| > 1 {
      KeepTerminator(code[1..], read);
    } else {
      assert Keep(code[1..], read) == [];
    }
  }

  lemma {:induction false} PrunedTerminator(code: seq<Instr>)
    requires EndsInTerminator(code)
    ensures EndsInTerminator(Pruned(code))
    decreases |code|
  {
    hide Keep, ReadRegs;
    var next := Keep(code, ReadRegs(code));
    if |next| != |code| {
      KeepTerminator(code, ReadRegs(code));
      PrunedTerminator(next);
    }
  }

  lemma SimplifiedTerminator(code: seq<Instr>, proven: seq<int>, out: seq<Instr>)
    requires SimplifiedFrom(code, proven, out) && EndsInTerminator(code)
    ensures EndsInTerminator(out)
  {
    SimplifiedShape(code[|code| - 1], proven);
  }

  lemma {:induction false} PruneIsEquivalent(sigs: seq<Signature>, f: Function)
    requires Verified(f) && WordSized(sigs, f)
    ensures Equivalent(sigs, f, PrunedFunction(f))
  {
    hide Pruned, HintsGiven, WellFormed, DefinitelyAssigned, WordSized, SameMeaning, HostContract, EndsInTerminator;
    PrunedVerified(sigs, f);
    if EndsInTerminator(f.code) {
      PrunedTerminator(f.code);
    }
    forall h: Host, args: seq<Value>, w: World
      ensures SameMeaning(h, f.code, Entry(f, args, w), Pruned(f.code), Entry(PrunedFunction(f), args, w))
    {
      PrunedMeansTheSame(h, f, Entry(f, args, w));
    }
  }

  lemma {:induction false} SimplifyIsEquivalent(sigs: seq<Signature>, f: Function, proven: seq<int>, out: seq<Instr>)
    requires Verified(f) && WordSized(sigs, f) && SimplifiedFrom(f.code, proven, out)
    requires Reports(sigs, f, proven)
    ensures Equivalent(sigs, f, f.(code := out))
  {
    hide SimplifiedFrom, ProvenBy, WordSized, Verified, SameMeaning, HostContract, EndsInTerminator, Tagged;
    var g := f.(code := out);
    SimplifiedVerified(sigs, f, proven, out);
    if EndsInTerminator(f.code) {
      SimplifiedTerminator(f.code, proven, out);
    }
    forall h: Host, args: seq<Value>, w: World | HostContract(sigs, h) && Conforms(f, args) && Tagged(w.globals)
      ensures SameMeaning(h, f.code, Entry(f, args, w), g.code, Entry(g, args, w))
    {
      forall n: nat
        ensures Run(h, out, Running(Entry(f, args, w)), n) == Run(h, f.code, Running(Entry(f, args, w)), n)
      {
        SimplifiedRunsTheSame(sigs, h, f, proven, out, args, w, n);
      }
      SameRuns(h, f.code, out, Entry(f, args, w));
    }
  }

  /**
   Meaning preservation of the whole sequence: for any copy propagation that preserves meaning,
   on every conforming call, under every host, the rewritten function has the results, the final
   worlds and the failures of the original.
   */
  lemma {:induction false} OptimizedMeansTheSame(sigs: seq<Signature>, copies: Function -> Function, elsewhere: bool,
                                                 f: Function, g: Function)
    requires Verified(f) && WordSized(sigs, f) && SafePass(sigs, copies) && OptimizedFrom(sigs, copies, elsewhere, f, g)
    ensures Equivalent(sigs, f, g)
  {
    hide Pruned, ProvenBy, SimplifiedFrom, WordSized, Verified, Equivalent;
    var f0 := copies(f);
    var f1 := PrunedFunction(f0);
    var proven: seq<int>, out: seq<Instr> :| OptimizedBy(sigs, copies, elsewhere, f, proven, out, g);
    EquivalentIsVerified(sigs, f, f0);
    PruneIsEquivalent(sigs, f0);
    EquivalentTransitive(sigs, f, f0, f1);
    EquivalentIsVerified(sigs, f, f1);
    if g != f1 {
      var f2 := f1.(code := out);
      SimplifyIsEquivalent(sigs, f1, proven, out);
      EquivalentTransitive(sigs, f, f1, f2);
      EquivalentIsVerified(sigs, f, f2);
      var f3 := copies(f2);
      EquivalentTransitive(sigs, f, f2, f3);
      EquivalentIsVerified(sigs, f, f3);
      PruneIsEquivalent(sigs, f3);
      EquivalentTransitive(sigs, f, f3, g);
    }
  }

  lemma SameRuns(h: Host, code: seq<Instr>, code': seq<Instr>, s: State)
    requires forall n: nat :: Run(h, code', Running(s), n) == Run(h, code, Running(s), n)
    ensures SameMeaning(h, code, s, code', s)
  {
    hide Run;
  }
}
