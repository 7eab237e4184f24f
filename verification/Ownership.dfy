/**
 Ownership in the emitted code. Registers are Variant slots; a slot whose value is not of an
 inline type owns one reference to an object. The emitted code turns a MOVE from a dead source
 into a transfer, keeps registers of proven inline kind unboxed, and does not clear them at the
 end. The machine below does what the emitted code does to the slots and to the reference
 counts; it is proved to compute what the IR computes and to lose or free no reference.
 */
module Ownership {
  import opened Options
  import opened Int64
  import opened Ir
  import opened Machine
  import opened Liveness
  import opened TypeFlow
  import opened TypeSoundness

  /** Variant types stored inline: they own nothing. The tags up to 3, and the set bits of 0x90f7ef. */
  const INLINE: Mask := {0, 1, 2, 3, 5, 6, 7, 8, 9, 10, 12, 13, 14, 15, 20, 23}

  predicate Trivial(tag: nat) {
    tag in INLINE
  }

  predicate Scalar(kind: int) {
    1 <= kind <= 3
  }

  /** Kinds kept as C scalars or component arrays instead of Variants. */
  predicate Unboxed(kind: int) {
    Scalar(kind) || kind in {5, 6, 7, 8, 9, 10, 12, 13, 14, 15, 20, 23}
  }

  // ----- reference counts -----

  /** Outstanding reference counts; `clean` records that every release found a reference to release. */
  datatype Mem = Mem(rc: multiset<int>, clean: bool)

  function Owned(v: Value): multiset<int> {
    if Trivial(v.tag) then multiset{} else multiset{v.data}
  }

  function Held(slots: seq<Value>): multiset<int> {
    if slots == [] then multiset{} else Owned(slots[0]) + Held(slots[1..])
  }

  /** References held outside the frame: by globals and by the engine. */
  function Outside(w: World): multiset<int> {
    Held(w.globals) + w.held
  }

  function Release(m: Mem, v: Value): Mem {
    Mem(m.rc - Owned(v), m.clean && Owned(v) <= m.rc)
  }

  function Retain(m: Mem, v: Value): Mem {
    Mem(m.rc + Owned(v), m.clean)
  }

  /** Host code accounts for its own references; this is the only assumption about it here. */
  function Exchange(m: Mem, w: World, w': World): Mem {
    Mem(m.rc - Outside(w) + Outside(w'), m.clean)
  }

  // ----- the emitted machine -----

  /** What the generator decides before emitting: kinds, liveness, and the registers in use. */
  datatype Plan = Plan(code: seq<Instr>, kinds: seq<int>, live: LiveSets, used: set<Reg>)

  datatype CState = CState(pc: nat, slots: seq<Value>, w: World, m: Mem)
  datatype CConfig = CRunning(s: CState) | CDone(ok: bool, result: Value, w: World, m: Mem)

  function KindAt(p: Plan, r: Reg): int {
    if r < |p.kinds| then p.kinds[r] else -1
  }

  /** A MOVE that becomes an ownership transfer. */
  predicate Takes(p: Plan, at: nat)
    requires at < |p.code| == |p.live|
  {
    var i := p.code[at];
    i.Move? && !Unboxed(KindAt(p, i.d)) && !Unboxed(KindAt(p, i.s)) && i.d != i.s && i.s !in p.live[at]
  }

  /** Registers the cleanup does not clear. */
  predicate Skipped(p: Plan, r: Reg) {
    r !in p.used || (KindAt(p, r) >= 0 && Trivial(KindAt(p, r)))
  }

  function ClearFrom(p: Plan, slots: seq<Value>, m: Mem, j: nat): Mem
    requires j <= |slots|
    decreases |slots| - j
  {
    if j == |slots| then m
    else ClearFrom(p, slots, if Skipped(p, j) then m else Release(m, slots[j]), j + 1)
  }

  /** The cleanup block: hand r0 to the caller unless the call failed, then clear the frame. */
  function Cleanup(p: Plan, ok: bool, slots: seq<Value>, result: Value, w: World, m: Mem): CConfig
    requires slots != []
  {
    if !ok then CDone(false, result, w, ClearFrom(p, slots, m, 0))
    else if Scalar(KindAt(p, 0)) then
      CDone(true, slots[0], w, ClearFrom(p, slots, Release(Retain(m, slots[0]), result), 0))
    else
      CDone(true, slots[0], w, ClearFrom(p, slots[0 := NIL_VALUE], Release(m, result), 0))
  }

  /**
   What a register retains of a value written to it. An unboxed register is a C scalar or a
   component array: it has room for the payload only, and its tag is the planned kind.
   */
  function Kept(p: Plan, r: Reg, v: Value): Value {
    if Unboxed(KindAt(p, r)) then Value(KindAt(p, r), v.data) else v
  }

  /** What an instruction does to the slots and the counts once it has not failed. */
  function Store(p: Plan, at: nat, s: CState, a: Action): (seq<Value>, Mem)
    requires at < |p.code| == |p.live|
  {
    var i := p.code[at];
    if Takes(p, at) then
      (Put(Put(s.slots, i.d, At(s.slots, i.s)), i.s, NIL_VALUE), Release(s.m, At(s.slots, i.d)))
    else if i.StoreGlobal? && i.g < |s.w.globals| then
      (s.slots, Release(Retain(s.m, At(s.slots, i.s)), s.w.globals[i.g]))
    else if Target(i).Some? && a.out.Some? then
      var d, v := Target(i).value, a.out.value;
      var m := Exchange(s.m, s.w, a.w);
      (Put(s.slots, d, Kept(p, d, v)), if Unboxed(KindAt(p, d)) then m else Release(Retain(m, v), At(s.slots, d)))
    else (s.slots, Exchange(s.m, s.w, a.w))
  }

  function CStep(h: Host, p: Plan, result: Value, s: CState): CConfig
    requires |p.code| == |p.live| && s.slots != []
  {
    if s.pc >= |p.code| then Cleanup(p, true, s.slots, result, s.w, s.m)
    else
      var a := Execute(h, p.code[s.pc], s.slots, s.w);
      match a.next
      case Finish => Cleanup(p, true, s.slots, result, a.w, Exchange(s.m, s.w, a.w))
      case Abort => Cleanup(p, false, s.slots, result, a.w, Exchange(s.m, s.w, a.w))
      case Next => var (slots, m) := Store(p, s.pc, s, a); CRunning(CState(s.pc + 1, slots, a.w, m))
      case Goto(l) => var (slots, m) := Store(p, s.pc, s, a); CRunning(CState(Find(p.code, l), slots, a.w, m))
  }

  function CRun(h: Host, p: Plan, result: Value, c: CConfig, n: nat): CConfig
    requires |p.code| == |p.live| && (c.CRunning? ==> c.s.slots != [])
    decreases n
  {
    if n == 0 || !c.CRunning? then c
    else
      StepKeepsSize(h, p, result, c.s);
      CRun(h, p, result, CStep(h, p, result, c.s), n - 1)
  }

  lemma StepKeepsSize(h: Host, p: Plan, result: Value, s: CState)
    requires |p.code| == |p.live| && s.slots != []
    ensures var c := CStep(h, p, result, s); c.CRunning? ==> |c.s.slots| == |s.slots|
  {
    hide Execute, Find, ClearFrom;
  }

  /** The frame on entry: used parameters are copied in, the rest is nil or an empty inline value. */
  function EntrySlots(f: Function, p: Plan, args: seq<Value>): (slots: seq<Value>)
    ensures |slots| == Size(f)
  {
    seq(Size(f), r => if 0 <= r < |f.params| && r < |args| && r in p.used then Kept(p, r, args[r]) else Blank(p, r))
  }

  function Blank(p: Plan, r: int): Value {
    if r >= 0 && KindAt(p, r) >= 0 && Trivial(KindAt(p, r)) then Value(KindAt(p, r), 0) else NIL_VALUE
  }

  function RetainAll(m: Mem, vs: seq<Value>): Mem
    decreases vs
  {
    if vs == [] then m else RetainAll(Retain(m, vs[0]), vs[1..])
  }

  function CEntry(f: Function, p: Plan, args: seq<Value>, w: World, m: Mem): CState {
    var slots := EntrySlots(f, p, args);
    CState(0, slots, w, RetainAll(m, slots))
  }

  // ----- accounting -----

  /** Trading `before` for `now` inside a total. */
  lemma Trade(total: multiset<int>, part: multiset<int>, part': multiset<int>, before: multiset<int>,
              now: multiset<int>, rest: multiset<int>)
    requires part' + before == part + now && total == part + rest && before <= part
    ensures total + now - before == part' + rest && before <= total && before <= total + now
  {
    forall x
      ensures (total + now - before)[x] == (part' + rest)[x]
    {
      assert (part' + before)[x] == (part + now)[x];
    }
  }

  lemma {:induction false} HeldPut(slots: seq<Value>, r: Reg, v: Value)
    requires r < |slots|
    ensures Held(slots[r := v]) + Owned(slots[r]) == Held(slots) + Owned(v)
  {
    hide Owned;
    if r > 0 {
      HeldPut(slots[1..], r - 1, v);
      assert slots[r := v][1..] == slots[1..][r - 1 := v] && slots[r := v][0] == slots[0];
      var tail, tail' := Held(slots[1..]), Held(slots[1..][r - 1 := v]);
      assert (Owned(slots[0]) + tail') + Owned(slots[r]) == Owned(slots[0]) + (tail' + Owned(slots[r]));
      assert Owned(slots[0]) + (tail + Owned(v)) == (Owned(slots[0]) + tail) + Owned(v);
    } else {
      assert slots[r := v][1..] == slots[1..] && slots[r := v][0] == v;
    }
  }

  lemma {:induction false} HeldHas(slots: seq<Value>, r: Reg)
    requires r < |slots|
    ensures Owned(slots[r]) <= Held(slots)
  {
    if r > 0 {
      HeldHas(slots[1..], r - 1);
    }
  }

  lemma {:induction false} RetainAllHeld(m: Mem, vs: seq<Value>)
    ensures RetainAll(m, vs) == Mem(m.rc + Held(vs), m.clean)
    decreases vs
  {
    if vs != [] {
      RetainAllHeld(Retain(m, vs[0]), vs[1..]);
    }
  }

  /** Overwriting a slot with a copy keeps the books. */
  lemma {:induction false} CopyBalances(m: Mem, slots: seq<Value>, d: Reg, v: Value, rest: multiset<int>)
    requires d < |slots| && m.clean && m.rc == Held(slots) + rest
    ensures var m' := Release(Retain(m, v), slots[d]); m'.clean && m'.rc == Held(slots[d := v]) + rest
  {
    hide Owned, Held;
    HeldPut(slots, d, v);
    HeldHas(slots, d);
    Trade(m.rc, Held(slots), Held(slots[d := v]), Owned(slots[d]), Owned(v), rest);
  }

  /** An inline value may overwrite an inline value without touching any count. */
  lemma InlineBalances(slots: seq<Value>, d: Reg, v: Value)
    requires d < |slots| && Trivial(slots[d].tag) && Trivial(v.tag)
    ensures Held(slots[d := v]) == Held(slots)
  {
    hide Held;
    HeldPut(slots, d, v);
    assert Owned(slots[d]) == Owned(v) == multiset{};
    assert Held(slots[d := v]) + multiset{} == Held(slots[d := v]);
    assert Held(slots) + multiset{} == Held(slots);
  }

  /** A transfer releases the old destination and nothing else. */
  lemma {:induction false} TakeBalances(m: Mem, slots: seq<Value>, d: Reg, s: Reg, rest: multiset<int>)
    requires d < |slots| && s < |slots| && d != s && m.clean && m.rc == Held(slots) + rest
    ensures var m' := Release(m, slots[d]);
            m'.clean && m'.rc == Held(slots[d := slots[s]][s := NIL_VALUE]) + rest
  {
    hide Owned, Held;
    var v, mid := slots[s], slots[d := slots[s]];
    HeldPut(slots, d, v);
    HeldPut(mid, s, NIL_VALUE);
    HeldHas(slots, d);
    var end := Held(mid[s := NIL_VALUE]);
    assert Owned(NIL_VALUE) == multiset{} by { NilOwnsNothing(); }
    assert end + Owned(slots[d]) == Held(slots) by {
      assert end + Owned(v) == Held(mid) + multiset{} == Held(mid);
      Cancel(end, Owned(slots[d]), Held(slots), Owned(v), Held(mid));
    }
    Trade(m.rc, Held(slots), end, Owned(slots[d]), multiset{}, rest);
    assert m.rc + multiset{} - Owned(slots[d]) == m.rc - Owned(slots[d]);
  }

  lemma Cancel(end: multiset<int>, before: multiset<int>, start: multiset<int>, v: multiset<int>, mid: multiset<int>)
    requires end + v == mid && mid + before == start + v
    ensures end + before == start
  {
    forall x
      ensures (end + before)[x] == start[x]
    {
      assert (end + v)[x] == mid[x] && (mid + before)[x] == (start + v)[x];
    }
  }

  lemma NilOwnsNothing()
    ensures Owned(NIL_VALUE) == multiset{}
  {
  }

  lemma {:induction false} ClearBalances(p: Plan, slots: seq<Value>, m: Mem, j: nat, rest: multiset<int>)
    requires j <= |slots| && m.clean && m.rc == Held(slots[j..]) + rest
    requires forall r :: j <= r < |slots| && Skipped(p, r) ==> Trivial(slots[r].tag)
    ensures ClearFrom(p, slots, m, j) == Mem(rest, true)
    decreases |slots| - j
  {
    hide Skipped, Trivial;
    if j < |slots| {
      assert slots[j..][0] == slots[j] && slots[j..][1..] == slots[j + 1..];
      ClearBalances(p, slots, if Skipped(p, j) then m else Release(m, slots[j]), j + 1, rest);
    }
  }

  lemma GlobalBalances(m: Mem, w: World, g: nat, v: Value, rest: multiset<int>)
    requires g < |w.globals| && m.clean && m.rc == Outside(w) + rest
    ensures var m' := Release(Retain(m, v), w.globals[g]);
            m'.clean && m'.rc == Outside(w.(globals := w.globals[g := v])) + rest
  {
    hide Owned, Held;
    HeldPut(w.globals, g, v);
    HeldHas(w.globals, g);
    assert m.rc == Held(w.globals) + (w.held + rest);
    Trade(m.rc, Held(w.globals), Held(w.globals[g := v]), Owned(w.globals[g]), Owned(v), w.held + rest);
    assert Held(w.globals[g := v]) + (w.held + rest) == Held(w.globals[g := v]) + w.held + rest;
  }

  // ----- the plan -----

  function UsedRegs(code: seq<Instr>): (used: set<Reg>)
    ensures 0 in used
    ensures forall at :: 0 <= at < |code| ==> Reads(code[at]) + Writes(code[at]) <= used
  {
    if code == [] then {0} else Reads(code[0]) + Writes(code[0]) + UsedRegs(code[1..])
  }

  /** The registers in use are r0 and those some instruction names. */
  lemma {:induction false} UsedExactly(code: seq<Instr>, r: Reg)
    ensures r in UsedRegs(code) <==> r == 0 || exists k :: 0 <= k < |code| && r in Reads(code[k]) + Writes(code[k])
  {
    hide Reads, Writes;
    if code != [] {
      UsedExactly(code[1..], r);
      assert forall k :: 0 < k < |code| ==> code[k] == code[1..][k - 1];
      if k :| 0 <= k < |code[1..]| && r in Reads(code[1..][k]) + Writes(code[1..][k]) {
        assert r in Reads(code[k + 1]) + Writes(code[k + 1]);
      }
    }
  }

  /** The decisions the generator takes from its two analyses. */
  ghost predicate Planned(sigs: seq<Signature>, f: Function, p: Plan) {
    && p.code == f.code && |p.live| == |f.code|
    && Reports(sigs, f, p.kinds)
    && (forall at, r :: 0 <= at < |f.code| ==> (r in p.live[at] <==> LiveOut(f.code, at, r)))
    && p.used == UsedRegs(f.code)
  }

  method MakePlan(sigs: seq<Signature>, f: Function) returns (p: Plan)
    requires WellFormed(f) && WordSized(sigs, f)
    ensures Planned(sigs, f, p)
  {
    var kinds := ProvenLocals(sigs, f);
    var live := LiveAfter(f);
    p := Plan(f.code, kinds, live, UsedRegs(f.code));
  }

  // ----- lockstep -----

  /** The frame agrees with the IR on live registers, skipped slots own nothing, and the books balance. */
  ghost predicate Matches(p: Plan, s: State, c: CState, result: Value, outer: multiset<int>) {
    && c.pc == s.pc <= |p.code| && c.w == s.w
    && |c.slots| == |s.regs| > 0
    && (forall r :: LiveIn(p.code, s.pc, r) ==> At(c.slots, r) == At(s.regs, r))
    && Balanced(p, c.slots, c.w, c.m, result, outer)
  }

  ghost predicate Balanced(p: Plan, slots: seq<Value>, w: World, m: Mem, result: Value, outer: multiset<int>) {
    && (forall r :: 0 <= r < |slots| && Skipped(p, r) ==> Trivial(slots[r].tag))
    && m.clean && m.rc == Held(slots) + (Outside(w) + (Owned(result) + outer))
  }

  lemma UnboxedIsSkipped(p: Plan, r: Reg)
    requires Unboxed(KindAt(p, r))
    ensures Skipped(p, r)
  {
  }

  lemma ExchangeBalances(p: Plan, slots: seq<Value>, w: World, w': World, m: Mem, result: Value, outer: multiset<int>)
    requires Balanced(p, slots, w, m, result, outer)
    ensures Balanced(p, slots, w', Exchange(m, w, w'), result, outer)
  {
    hide Held, Outside, Owned, Skipped;
    var a, o, o', r := Held(slots), Outside(w), Outside(w'), Owned(result) + outer;
    assert (a + (o + r)) - o == a + r;
    assert (a + r) + o' == a + (o' + r);
  }

  /** Storing a result of an instruction, boxed or unboxed. */
  lemma StoreBalances(p: Plan, slots: seq<Value>, w: World, m: Mem, result: Value, outer: multiset<int>, d: Reg,
                      v: Value)
    requires Balanced(p, slots, w, m, result, outer) && d < |slots|
    requires Skipped(p, d) ==> Trivial(v.tag)
    ensures
      var m' := if Unboxed(KindAt(p, d)) then m else Release(Retain(m, v), slots[d]);
      Balanced(p, slots[d := v], w, m', result, outer)
  {
    hide Held, Outside, Owned, Trivial, Unboxed, Skipped;
    if Unboxed(KindAt(p, d)) {
      UnboxedIsSkipped(p, d);
      InlineBalances(slots, d, v);
    } else {
      CopyBalances(m, slots, d, v, Outside(w) + (Owned(result) + outer));
    }
  }

  lemma TransferBalances(p: Plan, slots: seq<Value>, w: World, m: Mem, result: Value, outer: multiset<int>, d: Reg,
                         s: Reg)
    requires Balanced(p, slots, w, m, result, outer) && d < |slots| && s < |slots| && d != s
    requires Skipped(p, d) ==> Trivial(slots[s].tag)
    ensures Balanced(p, slots[d := slots[s]][s := NIL_VALUE], w, Release(m, slots[d]), result, outer)
  {
    hide Held, Outside, Owned, Skipped;
    TakeBalances(m, slots, d, s, Outside(w) + (Owned(result) + outer));
  }

  lemma GlobalStoreBalances(p: Plan, slots: seq<Value>, w: World, m: Mem, result: Value, outer: multiset<int>, g: nat,
                            v: Value)
    requires Balanced(p, slots, w, m, result, outer) && g < |w.globals|
    ensures Balanced(p, slots, w.(globals := w.globals[g := v]), Release(Retain(m, v), w.globals[g]), result, outer)
  {
    hide Held, Outside, Owned, Skipped;
    var a, r := Held(slots), Owned(result) + outer;
    var w' := w.(globals := w.globals[g := v]);
    assert a + (Outside(w) + r) == Outside(w) + (a + r);
    GlobalBalances(m, w, g, v, a + r);
    assert Outside(w') + (a + r) == a + (Outside(w') + r);
  }

  /** Failed or not, the cleanup leaves exactly the references outside the frame. */
  lemma {:induction false} CleanupBalances(p: Plan, ok: bool, slots: seq<Value>, result: Value, w: World, m: Mem,
                                           outer: multiset<int>)
    requires Balanced(p, slots, w, m, result, outer) && slots != []
    ensures var c := Cleanup(p, ok, slots, result, w, m);
      && c == CDone(ok, if ok then slots[0] else result, w, c.m)
      && c.m == Mem(Outside(w) + (Owned(c.result) + outer), true)
  {
    hide Held, Outside, Owned, Skipped, Trivial;
    assert slots[0..] == slots;
    var o := Outside(w);
    if !ok {
      ClearBalances(p, slots, m, 0, o + (Owned(result) + outer));
    } else if Scalar(KindAt(p, 0)) {
      UnboxedIsSkipped(p, 0);
      var v := Owned(slots[0]);
      assert Held(slots) + (o + (Owned(result) + outer)) == Owned(result) + (Held(slots) + (o + outer));
      Trade(m.rc, Owned(result), v, Owned(result), v, Held(slots) + (o + outer));
      assert v + (Held(slots) + (o + outer)) == Held(slots) + (o + (v + outer));
      ClearBalances(p, slots, Release(Retain(m, slots[0]), result), 0, o + (v + outer));
    } else {
      var v, rest := Owned(slots[0]), slots[0 := NIL_VALUE];
      assert rest[0..] == rest;
      HeldPut(slots, 0, NIL_VALUE);
      NilOwnsNothing();
      assert Held(rest) + v == Held(slots) + multiset{} == Held(slots);
      assert Held(slots) + (o + (Owned(result) + outer)) == Owned(result) + (Held(rest) + (o + (v + outer)));
      assert Owned(result) + (Held(rest) + (o + (v + outer))) - Owned(result) == Held(rest) + (o + (v + outer));
      assert Trivial(NIL_VALUE.tag) by { NilIsInline(); }
      ClearBalances(p, rest, Release(m, result), 0, o + (v + outer));
    }
  }

  lemma NilIsInline()
    ensures Trivial(NIL_VALUE.tag)
  {
  }

  /** A register the cleanup skips is only ever written inline values: its kind is proven. */
  lemma SkippedStaysInline(sigs: seq<Signature>, h: Host, f: Function, p: Plan, s: State, d: Reg, v: Value)
    requires Planned(sigs, f, p) && s.pc < |f.code| && HasProvenTags(h, f, p.kinds, s)
    requires Target(f.code[s.pc]) == Some(d) && Execute(h, f.code[s.pc], s.regs, s.w).out == Some(v)
    ensures Skipped(p, d) ==> Trivial(v.tag)
  {
    hide Execute, Reads, Trivial, ProvenBy;
    assert d in Reads(f.code[s.pc]) + Writes(f.code[s.pc]);
  }

  lemma SlotsReadTheSame(h: Host, p: Plan, s: State, c: CState, result: Value, outer: multiset<int>)
    requires Matches(p, s, c, result, outer) && s.pc < |p.code|
    ensures Execute(h, p.code[s.pc], c.slots, c.w) == Execute(h, p.code[s.pc], s.regs, s.w)
    ensures forall r :: r in Reads(p.code[s.pc]) ==> At(c.slots, r) == At(s.regs, r)
  {
    hide Execute, Reads, Balanced, LiveIn;
    forall r | r in Reads(p.code[s.pc])
      ensures At(c.slots, r) == At(s.regs, r)
    {
      LiveInUnfold(p.code, s.pc, r);
    }
    ExecuteAgree(h, p.code[s.pc], c.slots, s.regs, s.w);
  }

  /** A value written to a register of proven kind survives without its tag. */
  lemma {:induction false} KeptWhole(h: Host, f: Function, p: Plan, s: State, d: Reg, v: Value)
    requires s.pc < |f.code| && HasProvenTags(h, f, p.kinds, s)
    requires Target(f.code[s.pc]) == Some(d) && Execute(h, f.code[s.pc], s.regs, s.w).out == Some(v)
    ensures Kept(p, d, v) == v
  {
    hide Execute, Reads;
  }

  /**
   After a step that goes on, live registers agree again: a transferred source is dead there, and
   an unboxed destination lost no more than the tag the analysis proved.
   */
  lemma StoreAgrees(sigs: seq<Signature>, h: Host, f: Function, p: Plan, s: State, c: CState, result: Value,
                    outer: multiset<int>, next: nat, r: Reg)
    requires WellFormed(f) && Planned(sigs, f, p) && Matches(p, s, c, result, outer) && s.pc < |f.code|
    requires HasProvenTags(h, f, p.kinds, s) && Execute(h, f.code[s.pc], s.regs, s.w).next != Abort
    requires next <= |f.code| && Edge(f.code, s.pc, next) && LiveIn(f.code, next, r)
    ensures var a := Execute(h, f.code[s.pc], s.regs, s.w);
            At(Store(p, s.pc, c, a).0, r) == At(Commit(f.code[s.pc], s.regs, a), r)
  {
    hide Execute, Reads, Balanced, LiveIn, ProvenBy, Edge, UsedRegs, Unboxed, Exchange, Release, Retain, HasProvenTags,
      Kept;
    var i := f.code[s.pc];
    var a := Execute(h, i, s.regs, s.w);
    LiveInUnfold(f.code, s.pc, r);
    assert LiveOut(f.code, s.pc, r);
    CommitAt(i, s.regs, a, r);
    ExecuteWrites(h, i, s.regs, s.w);
    SlotsReadTheSame(h, p, s, c, result, outer);
    if Target(i).Some? && a.out.Some? {
      KeptWhole(h, f, p, s, Target(i).value, a.out.value);
    }
    if i.Move? {
      MoveAction(h, i, s.regs, s.w);
    }
  }

  lemma MoveAction(h: Host, i: Instr, regs: seq<Value>, w: World)
    requires i.Move?
    ensures Execute(h, i, regs, w) == Plain(At(regs, i.s), w) && i.s in Reads(i)
  {
  }

  lemma StoreGlobalAction(h: Host, i: Instr, regs: seq<Value>, w: World)
    requires i.StoreGlobal? && Execute(h, i, regs, w).next != Abort
    ensures i.g < |w.globals| &&
      Execute(h, i, regs, w) == Action(None, w.(globals := w.globals[i.g := At(regs, i.s)]), Next)
    ensures i.s in Reads(i)
  {
  }

  lemma StoreStaysBalanced(sigs: seq<Signature>, h: Host, f: Function, p: Plan, s: State, c: CState, result: Value,
                           outer: multiset<int>)
    requires WellFormed(f) && Planned(sigs, f, p) && Matches(p, s, c, result, outer) && s.pc < |f.code|
    requires HasProvenTags(h, f, p.kinds, s) && |s.regs| == Size(f)
    requires Execute(h, f.code[s.pc], s.regs, s.w).next != Abort
    ensures var a := Execute(h, f.code[s.pc], s.regs, s.w);
            var t := Store(p, s.pc, c, a);
            |t.0| == |c.slots| && Balanced(p, t.0, a.w, t.1, result, outer)
  {
    hide Execute, Reads, Balanced, LiveIn, LiveOut, ProvenBy, UsedRegs, Unboxed, Exchange, Release, Retain,
      HasProvenTags, Skipped, Kept;
    var i := f.code[s.pc];
    var a := Execute(h, i, s.regs, s.w);
    assert InRange(i, Size(f));
    SlotsReadTheSame(h, p, s, c, result, outer);
    if Target(i).Some? && a.out.Some? {
      assert Target(i).value in Reads(i) + Writes(i);
      SkippedStaysInline(sigs, h, f, p, s, Target(i).value, a.out.value);
      KeptWhole(h, f, p, s, Target(i).value, a.out.value);
    }
    if Takes(p, s.pc) {
      MoveAction(h, i, s.regs, s.w);
      assert i.s in Reads(i) + Writes(i);
      TransferBalances(p, c.slots, c.w, c.m, result, outer, i.d, i.s);
    } else if i.StoreGlobal? {
      StoreGlobalAction(h, i, s.regs, s.w);
      GlobalStoreBalances(p, c.slots, c.w, c.m, result, outer, i.g, At(c.slots, i.s));
    } else {
      ExchangeBalances(p, c.slots, c.w, a.w, c.m, result, outer);
      if Target(i).Some? && a.out.Some? {
        StoreBalances(p, c.slots, a.w, Exchange(c.m, c.w, a.w), result, outer, Target(i).value, a.out.value);
      }
    }
  }

  /** The outcome of the emitted code for an outcome of the IR. */
  ghost predicate Realizes(p: Plan, o: Config, c: CConfig, result: Value, outer: multiset<int>) {
    match o
    case Running(s) => c.CRunning? && Matches(p, s, c.s, result, outer)
    case Returned(v, w) => c == CDone(true, v, w, Mem(Outside(w) + (Owned(v) + outer), true))
    case Failed(w) => c == CDone(false, result, w, Mem(Outside(w) + (Owned(result) + outer), true))
  }

  lemma {:induction false} StepRealizes(sigs: seq<Signature>, h: Host, f: Function, p: Plan, s: State, c: CState,
                                        result: Value, outer: multiset<int>)
    requires WellFormed(f) && Planned(sigs, f, p) && Matches(p, s, c, result, outer) && |s.regs| == Size(f)
    requires s.pc < |f.code| ==> HasProvenTags(h, f, p.kinds, s)
    ensures Realizes(p, Step(h, f.code, s), CStep(h, p, result, c), result, outer)
  {
    hide Execute, Balanced, LiveIn, ProvenBy, UsedRegs, HasProvenTags, Store, Cleanup, Edge, WellFormed, Outside, Owned,
      Exchange;
    if s.pc == |f.code| {
      LiveInEnd(f.code, 0);
      CleanupBalances(p, true, c.slots, result, c.w, c.m, outer);
    } else {
      var i := f.code[s.pc];
      var a := Execute(h, i, s.regs, s.w);
      SlotsReadTheSame(h, p, s, c, result, outer);
      if a.next.Abort? || a.next.Finish? {
        ExchangeBalances(p, c.slots, c.w, a.w, c.m, result, outer);
        CleanupBalances(p, a.next.Finish?, c.slots, result, a.w, Exchange(c.m, c.w, a.w), outer);
        if a.next.Finish? {
          FinishReadsR0(h, i, s.regs, s.w);
        }
      } else {
        WellFormedEdges(h, f, s);
        StoreStaysBalanced(sigs, h, f, p, s, c, result, outer);
        var next := Step(h, f.code, s).s.pc;
        forall r | LiveIn(f.code, next, r)
          ensures At(Store(p, s.pc, c, a).0, r) == At(Commit(i, s.regs, a), r)
        {
          StoreAgrees(sigs, h, f, p, s, c, result, outer, next, r);
        }
      }
    }
  }

  lemma WellFormedEdges(h: Host, f: Function, s: State)
    requires WellFormed(f) && s.pc < |f.code| && Step(h, f.code, s).Running?
    ensures var next := Step(h, f.code, s).s.pc; next <= |f.code| && Edge(f.code, s.pc, next)
  {
    StepFollowsEdge(h, f.code, s);
  }

  // ----- entry -----

  lemma {:induction false} LiveIsUsedAndAssigned(f: Function, defined: seq<set<Reg>>, r: Reg, path: seq<nat>)
    requires DefinedBy(f, defined) && LivePath(f.code, r, path) && r != 0
    ensures r in UsedRegs(f.code) && r in defined[path[0]]
    decreases |path|
  {
    hide Reads, Dest, Targets, Find, Edge, UsedRegs, Path;
    if |path| > 1 {
      PathTail(f.code, r, path);
      assert path[1] <= |f.code| by { PathBound(f.code, path, 1); }
      LiveIsUsedAndAssigned(f, defined, r, path[1..]);
      assert defined[path[1]] <= defined[path[0]] + Writes(f.code[path[0]]);
    } else {
      var at := path[0];
      assert at < |f.code| && r in Reads(f.code[at]) by { PathBound(f.code, path, 0); }
      if f.code[at].Return? {
        assert Reads(f.code[at]) == {0} by { ReturnReads(f.code[at]); }
      }
      assert r in Reads(f.code[at]) + Writes(f.code[at]);
    }
  }

  lemma PathBound(code: seq<Instr>, p: seq<nat>, j: nat)
    requires Path(code, p) && j < |p|
    ensures p[j] <= |code|
  {
  }

  lemma ReturnReads(i: Instr)
    requires i.Return?
    ensures Reads(i) == {0}
  {
  }

  /** On entry only parameters, and possibly r0, are live. */
  lemma LiveAtEntry(f: Function, r: Reg)
    requires DefinitelyAssigned(f) && LiveIn(f.code, 0, r) && r != 0
    ensures r < |f.params| && r in UsedRegs(f.code)
  {
    hide UsedRegs, Path, UsedAt;
    var defined: seq<set<Reg>> :| DefinedBy(f, defined);
    var path :| LivePath(f.code, r, path) && path[0] == 0;
    LiveIsUsedAndAssigned(f, defined, r, path);
  }

  /**
   The empty value r0 starts with is the nil the IR starts with, or nobody looks at it. Both
   analyses have answered by then, so the generator could test this before emitting.
   */
  ghost predicate StartsAlike(f: Function, p: Plan) {
    f.params != [] || KindAt(p, 0) <= 0 || !Trivial(KindAt(p, 0)) || !LiveIn(f.code, 0, 0)
  }

  ghost predicate EntryAgrees(f: Function, p: Plan, args: seq<Value>, w: World) {
    forall r: Reg :: LiveIn(f.code, 0, r) ==> At(EntrySlots(f, p, args), r) == At(Entry(f, args, w).regs, r)
  }

  /** A conforming argument arrives whole in an unboxed parameter. */
  lemma {:induction false} ArgumentKept(sigs: seq<Signature>, f: Function, p: Plan, r: Reg, v: Value)
    requires Planned(sigs, f, p) && r < |f.params| && r < Size(f)
    requires v.tag < TAG_COUNT && (f.params[r] != {} ==> v.tag in f.params[r])
    ensures Kept(p, r, v) == v
    ensures r in p.used && Skipped(p, r) ==> Trivial(v.tag)
  {
    hide Least, Done, LiveOut, UsedRegs, BlockStarts;
    var starts, sol :| ProvenBy(sigs, f, starts, sol, p.kinds);
    assert IsKind(sol.types[r], p.kinds[r]) && EntryTypes(f)[r] <= sol.types[r];
    assert v.tag in EntryTypes(f)[r];
  }

  /** The emitted frame starts in agreement with the IR exactly under that condition. */
  lemma {:induction false} EntryAgreesExactly(sigs: seq<Signature>, f: Function, p: Plan, args: seq<Value>, w: World)
    requires Verified(f) && Planned(sigs, f, p) && Conforms(f, args)
    ensures EntryAgrees(f, p, args, w) <==> StartsAlike(f, p)
  {
    hide LiveIn, UsedRegs, ProvenBy, Reads, LiveOut, Kept, Unboxed;
    var slots, regs := EntrySlots(f, p, args), Entry(f, args, w).regs;
    if StartsAlike(f, p) {
      forall r: Reg | LiveIn(f.code, 0, r)
        ensures At(slots, r) == At(regs, r)
      {
        if r != 0 {
          LiveAtEntry(f, r);
        }
        if r < |f.params| {
          ArgumentKept(sigs, f, p, r, args[r]);
        }
      }
    } else {
      assert At(slots, 0).tag == KindAt(p, 0) && At(regs, 0) == NIL_VALUE;
    }
  }

  /** Parameters of inline kind arrive inline. */
  lemma EntrySkipsInline(sigs: seq<Signature>, f: Function, p: Plan, args: seq<Value>, r: Reg)
    requires Planned(sigs, f, p) && Conforms(f, args) && r < Size(f) && Skipped(p, r)
    ensures Trivial(EntrySlots(f, p, args)[r].tag)
  {
    hide Planned, Kept;
    NilIsInline();
    if r < |f.params| && r in p.used {
      ArgumentKept(sigs, f, p, r, args[r]);
    }
  }

  lemma EntryMatches(sigs: seq<Signature>, f: Function, p: Plan, args: seq<Value>, w: World, result: Value,
                     outer: multiset<int>, m: Mem)
    requires Verified(f) && Planned(sigs, f, p) && Conforms(f, args) && StartsAlike(f, p)
    requires m == Mem(Outside(w) + (Owned(result) + outer), true)
    ensures Matches(p, Entry(f, args, w), CEntry(f, p, args, w, m), result, outer)
  {
    hide Held, Outside, Owned, LiveIn, Skipped, UsedRegs, LiveOut, ProvenBy, EntrySlots, StartsAlike, Verified, Trivial,
      Conforms;
    var slots := EntrySlots(f, p, args);
    EntryAgreesExactly(sigs, f, p, args, w);
    RetainAllHeld(m, slots);
    assert m.rc + Held(slots) == Held(slots) + (Outside(w) + (Owned(result) + outer));
    forall r | 0 <= r < |slots| && Skipped(p, r)
      ensures Trivial(slots[r].tag)
    {
      EntrySkipsInline(sigs, f, p, args, r);
    }
  }

  /** A reachable nil in r0 is in the union of every instruction that can read it. */
  lemma {:induction false} NilReachesRead(sigs: seq<Signature>, f: Function, types: Masks, reached: set<nat>,
                                          before: seq<Masks>, path: seq<nat>)
    requires Flows(sigs, f, types, reached, before) && LivePath(f.code, 0, path) && TargetsExist(f.code)
    requires f.code != [] && Terminates(f.code[|f.code| - 1])
    requires path[0] < |f.code| && path[0] in reached && NIL in before[path[0]][0]
    ensures NIL in types[0]
    decreases |path|
  {
    hide Reads, Targets, Find, ResultMask, EntryState;
    var at := path[0];
    if |path| > 1 {
      PathTail(f.code, 0, path);
      var next := path[1];
      NoEdgeToEnd(f.code, at, next);
      assert Leq(Transfer(sigs, f.code[at], before[at]), before[next]);
      assert Transfer(sigs, f.code[at], before[at])[0] == before[at][0];
      NilReachesRead(sigs, f, types, reached, before, path[1..]);
    } else {
      assert Covers(sigs, f.code[at], before[at], types);
    }
  }

  lemma NoEdgeToEnd(code: seq<Instr>, at: nat, next: nat)
    requires TargetsExist(code) && at < |code| && Edge(code, at, next) && Terminates(code[|code| - 1])
    ensures next < |code|
  {
    if !(!Terminates(code[at]) && next == at + 1) {
      var j :| 0 <= j < |Targets(code[at])| && next == Find(code, Targets(code[at])[j]);
      FindTarget(code, at, j);
    }
  }

  /** A body that ends in a terminator, as the front end always emits, starts alike. */
  lemma {:induction false} TerminatedStartsAlike(sigs: seq<Signature>, f: Function, p: Plan)
    requires WellFormed(f) && Planned(sigs, f, p) && f.code != [] && Terminates(f.code[|f.code| - 1])
    ensures StartsAlike(f, p)
  {
    hide UsedRegs, LiveOut, Least, Done, BlockStarts, Path, UsedAt, Edge, Trivial, Covers, Transfer, Shaped,
      UniqueLabels, TargetsExist, InRange;
    if f.params == [] && LiveIn(f.code, 0, 0) {
      var starts, sol :| ProvenBy(sigs, f, starts, sol, p.kinds);
      var reached, before := SolutionFlows(sigs, f, starts, sol);
      var path :| LivePath(f.code, 0, path) && path[0] == 0;
      assert EntryState(f)[0] <= before[0][0];
      NilReachesRead(sigs, f, sol.types, reached, before, path);
      assert IsKind(sol.types[0], p.kinds[0]);
    }
  }

  // ----- the whole run -----

  lemma {:induction false} CRunLast(h: Host, p: Plan, result: Value, c: CConfig, n: nat)
    requires |p.code| == |p.live| && (c.CRunning? ==> c.s.slots != []) && n > 0
    ensures var d := CRun(h, p, result, c, n - 1);
      CRun(h, p, result, c, n) == if d.CRunning? && d.s.slots != [] then CStep(h, p, result, d.s) else d
    decreases n
  {
    hide CStep;
    if c.CRunning? {
      StepKeepsSize(h, p, result, c.s);
      if n > 1 {
        CRunLast(h, p, result, CStep(h, p, result, c.s), n - 1);
      }
    }
  }

  /**
   Refinement and conservation: after any number of steps the emitted code is where the IR is.
   When the call returns it has the IR's result and world; when it fails it has the IR's world
   and the caller's result slot is untouched. Either way the reference counts are exactly those
   of the result, the globals, the engine and the callers, and no release was unfounded.
   */
  lemma {:induction false} EmittedCodeIsFaithful(sigs: seq<Signature>, h: Host, f: Function, p: Plan, args: seq<Value>,
                                                 w: World, result: Value, outer: multiset<int>, m: Mem, n: nat)
    requires Verified(f) && HostContract(sigs, h) && Planned(sigs, f, p) && Conforms(f, args) && Tagged(w.globals)
    requires StartsAlike(f, p) && m == Mem(Outside(w) + (Owned(result) + outer), true)
    ensures Realizes(p, Run(h, f.code, Running(Entry(f, args, w)), n),
                     CRun(h, p, result, CRunning(CEntry(f, p, args, w, m)), n), result, outer)
    ensures var o := Run(h, f.code, Running(Entry(f, args, w)), n); o.Running? ==> |o.s.regs| == Size(f)
    decreases n
  {
    hide Step, CStep, HostContract, DefinitelyAssigned, HasProvenTags, LiveOut, UsedRegs, ProvenBy, StartsAlike,
      Outside, Owned, Matches, UniqueLabels, TargetsExist, Tagged, Conforms, Entry, CEntry;
    var s, c := Entry(f, args, w), CEntry(f, p, args, w, m);
    EntrySizes(f, p, args, w, m);
    if n == 0 {
      EntryMatches(sigs, f, p, args, w, result, outer, m);
    } else {
      EmittedCodeIsFaithful(sigs, h, f, p, args, w, result, outer, m, n - 1);
      RunSplit(h, f.code, Running(s), n - 1, 1);
      CRunLast(h, p, result, CRunning(c), n);
      var o, d := Run(h, f.code, Running(s), n - 1), CRun(h, p, result, CRunning(c), n - 1);
      if o.Running? {
        assert Run(h, f.code, o, 1) == Step(h, f.code, o.s);
        ProvenKindsAreSound(sigs, h, f, p.kinds, args, w, n - 1);
        StepRealizes(sigs, h, f, p, o.s, d.s, result, outer);
        MatchedSizes(p, o.s, d.s, result, outer);
        StepSize(h, f.code, o.s);
      }
    }
  }

  lemma MatchedSizes(p: Plan, s: State, c: CState, result: Value, outer: multiset<int>)
    requires Matches(p, s, c, result, outer)
    ensures c.slots != []
  {
  }

  lemma EntrySizes(f: Function, p: Plan, args: seq<Value>, w: World, m: Mem)
    ensures |Entry(f, args, w).regs| == Size(f) == |CEntry(f, p, args, w, m).slots|
  {
  }

  lemma StepSize(h: Host, code: seq<Instr>, s: State)
    ensures Step(h, code, s).Running? ==> |Step(h, code, s).s.regs| == |s.regs|
  {
    hide Execute, Find;
  }

  // ----- unboxed registers have no tag of their own -----

  ghost predicate Untagged(p: Plan, slots: seq<Value>) {
    forall r :: 0 <= r < |slots| && Unboxed(KindAt(p, r)) ==> slots[r].tag == KindAt(p, r)
  }

  lemma StepUntagged(h: Host, p: Plan, result: Value, s: CState)
    requires |p.code| == |p.live| && s.slots != [] && Untagged(p, s.slots)
    ensures var c := CStep(h, p, result, s); c.CRunning? ==> Untagged(p, c.s.slots)
  {
    hide Execute, Find, ClearFrom, Unboxed;
  }

  lemma {:induction false} StaysUntagged(h: Host, p: Plan, result: Value, c: CConfig, n: nat)
    requires |p.code| == |p.live| && (c.CRunning? ==> c.s.slots != [] && Untagged(p, c.s.slots))
    ensures var d := CRun(h, p, result, c, n); d.CRunning? ==> Untagged(p, d.s.slots)
    decreases n
  {
    hide CStep, Untagged;
    if n > 0 && c.CRunning? {
      StepKeepsSize(h, p, result, c.s);
      StepUntagged(h, p, result, c.s);
      StaysUntagged(h, p, result, CStep(h, p, result, c.s), n - 1);
    }
  }

  lemma {:induction false} EntryUntagged(f: Function, p: Plan, args: seq<Value>)
    ensures Untagged(p, EntrySlots(f, p, args))
  {
    assert forall kind :: Unboxed(kind) ==> kind >= 0 && Trivial(kind);
  }

  lemma {:induction false} UntaggedIsKept(p: Plan, slots: seq<Value>, r: Reg)
    requires Untagged(p, slots) && r < |slots|
    ensures Kept(p, r, slots[r]) == slots[r]
  {
    hide Unboxed;
  }

  /**
   Whatever the plan says, right or wrong, no run of the emitted code ever distinguishes two
   values in an unboxed register by anything but their payload: writing back what a register
   holds would change nothing.
   */
  lemma {:induction false} RunsUntagged(h: Host, f: Function, p: Plan, args: seq<Value>, w: World, m: Mem,
                                        result: Value, n: nat, r: Reg)
    requires |p.code| == |p.live|
    ensures CEntry(f, p, args, w, m).slots != []
    ensures var d := CRun(h, p, result, CRunning(CEntry(f, p, args, w, m)), n);
      d.CRunning? && r < |d.s.slots| ==> Kept(p, r, d.s.slots[r]) == d.s.slots[r]
  {
    hide CRun, Kept, Untagged, Entry, EntrySlots;
    EntrySizes(f, p, args, w, m);
    EntryUntagged(f, p, args);
    StaysUntagged(h, p, result, CRunning(CEntry(f, p, args, w, m)), n);
    var d := CRun(h, p, result, CRunning(CEntry(f, p, args, w, m)), n);
    if d.CRunning? && r < |d.s.slots| {
      UntaggedIsKept(p, d.s.slots, r);
    }
  }

  // ----- which values own a reference -----

  /** The macro gj_trivial, as C evaluates it: a shift and a mask. */
  predicate MacroTrivial(tag: nat) {
    tag <= 3 || (tag < 24 && Bitwise(BitAnd, 0x90f7ef / Pow2(tag), 1, 32) != 0)
  }

  lemma {:induction false} Powers()
    ensures Pow2(4) == 16 && Pow2(5) == 32 && Pow2(6) == 64 && Pow2(7) == 128
    ensures Pow2(8) == 256 && Pow2(9) == 512 && Pow2(10) == 1024 && Pow2(11) == 2048
    ensures Pow2(12) == 0x1000 && Pow2(13) == 0x2000 && Pow2(14) == 0x4000 && Pow2(15) == 0x8000
    ensures Pow2(16) == 0x1_0000 && Pow2(17) == 0x2_0000 && Pow2(18) == 0x4_0000 && Pow2(19) == 0x8_0000
    ensures Pow2(20) == 0x10_0000 && Pow2(21) == 0x20_0000 && Pow2(22) == 0x40_0000 && Pow2(23) == 0x80_0000
  {
    assert Pow2(2) == 4;
    assert Pow2(4) == 2 * Pow2(3);
  }

  lemma {:induction false} MacroBits(tag: nat)
    requires 3 < tag < 24
    ensures 0x90f7ef / Pow2(tag) % 2 == 1 <==> tag in {5, 6, 7, 8, 9, 10, 12, 13, 14, 15, 20, 23}
  {
    Powers();
    hide Pow2;
  }

  /** The inline types are exactly those the macro names. */
  lemma {:induction false} InlineIsMacro(tag: nat)
    ensures Trivial(tag) <==> MacroTrivial(tag)
  {
    hide Pow2, Bitwise;
    if 3 < tag < 24 {
      MacroBits(tag);
      LowBit(0x90f7ef / Pow2(tag), 32);
    }
  }

  lemma {:induction false} LowBit(a: nat, n: nat)
    requires n > 0
    ensures Bitwise(BitAnd, a, 1, n) == a % 2
  {
    assert Bitwise(BitAnd, a / 2, 0, n - 1) == 0 by { NoBit(a / 2, n - 1); }
  }

  lemma {:induction false} NoBit(a: nat, n: nat)
    ensures Bitwise(BitAnd, a, 0, n) == 0
  {
    if n > 0 {
      NoBit(a / 2, n - 1);
    }
  }

  /**
   Who owns: a value holds one reference to its payload, or none, as the tag test of the C header
   says. Strings, Objects, Arrays and Dictionaries own; numbers, vectors and colors do not. Every
   inline kind but nil, and no other, is kept unboxed.
   */
  lemma {:induction false} OwnsExactly(v: Value)
    ensures Owned(v) == if MacroTrivial(v.tag) then multiset{} else multiset{v.data}
    ensures v.tag in {4, 11, 16, 17, 18, 19, 21, 22, 24, 25, 26, 27, 28} || 29 <= v.tag < 39 ==>
      Owned(v) == multiset{v.data}
    ensures Unboxed(v.tag) <==> v.tag != 0 && MacroTrivial(v.tag)
    ensures Scalar(v.tag) <==> 1 <= v.tag <= 3
  {
    InlineIsMacro(v.tag);
    OwnsOrNot(v);
    hide Pow2, Bitwise, Owned;
  }

  lemma {:induction false} OwnsOrNot(v: Value)
    ensures if Trivial(v.tag) then Owned(v) == multiset{} != multiset{v.data} else Owned(v) == multiset{v.data}
  {
    hide Trivial;
    assert v.data in multiset{v.data};
  }

  /** The cleanup skips a register exactly when it is unused or of a reported kind the macro names. */
  lemma {:induction false} SkippedExactly(sigs: seq<Signature>, f: Function, p: Plan, r: Reg)
    requires Planned(sigs, f, p) && r < |p.kinds|
    ensures Skipped(p, r) <==>
      r !in p.used || (p.kinds[r] >= 0 && MacroTrivial(p.kinds[r]))
    ensures r in p.used && p.kinds[r] in {-1, 4, 24, 28} ==> !Skipped(p, r)
  {
    hide Reports, LiveOut, UsedRegs, MacroTrivial;
    if p.kinds[r] >= 0 {
      InlineIsMacro(p.kinds[r]);
    }
    InlineIsMacro(4);
  }

  lemma {:induction false} ClearsNothing(p: Plan, slots: seq<Value>, m: Mem, j: nat)
    requires j <= |slots| && forall r :: j <= r < |slots| ==> slots[r] == NIL_VALUE
    ensures ClearFrom(p, slots, m, j) == m
    decreases |slots| - j
  {
    hide Skipped;
    if j < |slots| {
      NilOwnsNothing();
      assert Release(m, slots[j]) == m;
      ClearsNothing(p, slots, m, j + 1);
    }
  }

  lemma {:induction false} ClearsOne(p: Plan, slots: seq<Value>, m: Mem, j: nat, r: Reg)
    requires j <= r < |slots| && !Skipped(p, r)
    requires forall k :: j <= k < |slots| && k != r ==> slots[k] == NIL_VALUE
    ensures ClearFrom(p, slots, m, j) == Release(m, slots[r])
    decreases |slots| - j
  {
    hide Skipped;
    if j < r {
      NilOwnsNothing();
      assert Release(m, slots[j]) == m;
      ClearsOne(p, slots, m, j + 1, r);
    } else {
      ClearsNothing(p, slots, Release(m, slots[r]), r + 1);
    }
  }

  /** A String, Object or Array left in a used register is released by the cleanup of a failed call. */
  lemma {:induction false} CleanupReleases(sigs: seq<Signature>, f: Function, p: Plan, slots: seq<Value>, result: Value,
                                           w: World, m: Mem, r: Reg)
    requires Planned(sigs, f, p) && r < |slots| && r < |p.kinds| && r in p.used
    requires slots[r].tag in {4, 24, 28} && (p.kinds[r] == -1 || p.kinds[r] == slots[r].tag)
    requires forall k :: 0 <= k < |slots| && k != r ==> slots[k] == NIL_VALUE
    ensures Cleanup(p, false, slots, result, w, m) ==
      CDone(false, result, w, Mem(m.rc - multiset{slots[r].data}, m.clean && slots[r].data in m.rc))
  {
    hide Planned, Skipped;
    SkippedExactly(sigs, f, p, r);
    ClearsOne(p, slots, m, 0, r);
    OwnsExactly(slots[r]);
    assert Owned(slots[r]) <= m.rc <==> slots[r].data in m.rc;
  }

  /**
   The transfer: a MOVE between boxed registers hands its reference over, retaining nothing and
   leaving nil, exactly when the source is dead after it; else it takes a reference of its own.
   */
  lemma {:induction false} MoveTransfersExactly(sigs: seq<Signature>, h: Host, f: Function, p: Plan, result: Value,
                                                s: CState)
    requires Planned(sigs, f, p) && s.pc < |f.code| && f.code[s.pc].Move? && s.slots != [] && Outside(s.w) <= s.m.rc
    requires var i := f.code[s.pc];
      && i.d < |s.slots| && i.s < |s.slots| && i.d != i.s
      && (KindAt(p, i.d) < 1 || !MacroTrivial(KindAt(p, i.d))) && (KindAt(p, i.s) < 1 || !MacroTrivial(KindAt(p, i.s)))
    ensures var i := f.code[s.pc];
      var d, v := s.slots[i.d], s.slots[i.s];
      CStep(h, p, result, s) ==
        if LiveOut(f.code, s.pc, i.s)
        then CRunning(CState(s.pc + 1, s.slots[i.d := v], s.w, Release(Retain(s.m, v), d)))
        else CRunning(CState(s.pc + 1, s.slots[i.d := v][i.s := NIL_VALUE], s.w, Release(s.m, d)))
  {
    hide Reports, UsedRegs, LiveOut, MacroTrivial, Release, Retain, Outside;
    var i := f.code[s.pc];
    MoveAction(h, i, s.slots, s.w);
    BoxedKind(KindAt(p, i.d));
    BoxedKind(KindAt(p, i.s));
    assert s.m.rc - Outside(s.w) + Outside(s.w) == s.m.rc;
  }

  lemma {:induction false} BoxedKind(kind: int)
    requires kind < 1 || !MacroTrivial(kind)
    ensures !Unboxed(kind)
  {
    hide MacroTrivial;
    if kind >= 1 {
      InlineIsMacro(kind);
    }
  }

  // ----- the case the condition shuts out -----

  lemma EscapingPlan(p: Plan)
    requires Planned([], ESCAPING, p)
    ensures p.code == ESCAPING.code && |p.live| == |p.code| && p.kinds == ESCAPING_KINDS
  {
    hide LiveOut, UsedRegs, ProvenBy;
    var starts, sol :| ProvenBy([], ESCAPING, starts, sol, p.kinds);
    EscapingKinds(starts, sol, p.kinds);
  }

  /** With r0 kept as an int, the body that runs off its end starts with 0 where the IR has nil ... */
  lemma EscapingDoesNotStartAlike(p: Plan)
    requires p.kinds == ESCAPING_KINDS
    ensures !StartsAlike(ESCAPING, p)
  {
    hide Edge;
    var code := ESCAPING.code;
    EscapingEdges(0, 1);
    EscapingEdges(1, 3);
    EscapingEdges(3, 4);
    assert LivePath(code, 0, [0, 1, 3, 4]);
  }

  lemma EscapingCStep(h: Host, p: Plan, s: CState)
    requires p.code == ESCAPING.code && |p.live| == |p.code| && p.kinds == ESCAPING_KINDS
    requires s.slots == [Value(INT, 0), NIL_VALUE] && s.w == World([NIL_VALUE], 0, multiset{}) && s.pc in {0, 1, 3}
    ensures var c := CStep(h, p, NIL_VALUE, s);
      && c.CRunning? && c.s.slots == s.slots && c.s.w == s.w
      && c.s.pc == if s.pc == 0 then 1 else if s.pc == 1 then 3 else 4
  {
    hide Find, Exchange, Release, Retain, ClearFrom;
    EscapingLabel();
  }

  lemma EscapingCRun(h: Host, p: Plan, w: World, m: Mem)
    requires p.code == ESCAPING.code && |p.live| == |p.code| && p.kinds == ESCAPING_KINDS
    requires w == World([NIL_VALUE], 0, multiset{})
    ensures var c := CRun(h, p, NIL_VALUE, CRunning(CEntry(ESCAPING, p, [], w, m)), 4);
            c.CDone? && c.ok && c.result == Value(INT, 0)
  {
    var s0 := CEntry(ESCAPING, p, [], w, m);
    assert s0.slots == [Value(INT, 0), NIL_VALUE];
    hide Find, Execute, Store, ClearFrom, CEntry;
    EscapingCStep(h, p, s0);
    var c1 := CStep(h, p, NIL_VALUE, s0);
    EscapingCStep(h, p, c1.s);
    var c2 := CStep(h, p, NIL_VALUE, c1.s);
    EscapingCStep(h, p, c2.s);
    var c3 := CStep(h, p, NIL_VALUE, c2.s);
    var c4 := CStep(h, p, NIL_VALUE, c3.s);
    assert CRun(h, p, NIL_VALUE, c3, 1) == c4;
    assert CRun(h, p, NIL_VALUE, c2, 2) == c4;
    assert CRun(h, p, NIL_VALUE, c1, 3) == c4;
  }

  /** ... and returns it, under the plan the generator makes for this body. */
  lemma {:induction false} EscapingReturnsZero(h: Host, p: Plan, w: World, m: Mem)
    requires Planned([], ESCAPING, p) && w == World([NIL_VALUE], 0, multiset{})
    ensures !StartsAlike(ESCAPING, p)
    ensures Run(h, ESCAPING.code, Running(Entry(ESCAPING, [], w)), 4) == Returned(NIL_VALUE, w)
    ensures var c := CRun(h, p, NIL_VALUE, CRunning(CEntry(ESCAPING, p, [], w, m)), 4);
            c.CDone? && c.ok && c.result == Value(INT, 0)
  {
    EscapingPlan(p);
    hide Planned, StartsAlike, Run, CRun, CEntry, Entry;
    EscapingDoesNotStartAlike(p);
    EscapingRun(h, w);
    EscapingCRun(h, p, w, m);
  }
}
