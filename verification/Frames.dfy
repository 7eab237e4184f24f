/**
 The slot operations of the C ABI header as in-place updates of a frame, each proved against the
 function on slots and counts that the emitted machine is written with.
 */
module Frames {
  import opened Ir
  import opened Ownership

  class Frame {
    var slots: array<Value>
    var mem: Mem

    constructor (count: nat, m: Mem)
      ensures fresh(slots) && slots.Length == count && mem == m
      ensures forall r :: 0 <= r < count ==> slots[r] == NIL_VALUE
    {
      slots := new Value[count](_ => NIL_VALUE);
      mem := m;
    }

    /** gj_clear: destroy what is owned, leave nil. */
    method Clear(r: nat)
      requires r < slots.Length
      modifies this`mem, slots
      ensures slots[..] == old(slots[..])[r := NIL_VALUE]
      ensures mem == Release(old(mem), old(slots[r]))
      ensures var v := old(slots[r]);
        mem.rc == old(mem.rc) - if MacroTrivial(v.tag) then multiset{} else multiset{v.data}
    {
      OwnsExactly(slots[r]);
      hide MacroTrivial;
      if !Trivial(slots[r].tag) {
        mem := Release(mem, slots[r]);
      }
      slots[r] := NIL_VALUE;
    }

    /** gj_move: a plain copy between inline values, else a counted copy. */
    method Move(d: nat, s: nat)
      requires d < slots.Length && s < slots.Length
      modifies this`mem, slots
      ensures slots[..] == old(slots[..])[d := old(slots[s])]
      ensures mem == Release(Retain(old(mem), old(slots[s])), old(slots[d]))
    {
      if !(Trivial(slots[d].tag) && Trivial(slots[s].tag)) {
        mem := Release(Retain(mem, slots[s]), slots[d]);
      }
      slots[d] := slots[s];
    }

    /** gj_take: clear the destination, move the bits, leave the source nil; nothing on itself. */
    method Take(d: nat, s: nat)
      requires d < slots.Length && s < slots.Length
      modifies this`mem, slots
      ensures d == s ==> slots[..] == old(slots[..]) && mem == old(mem)
      ensures d != s ==> slots[..] == old(slots[..])[d := old(slots[s])][s := NIL_VALUE]
      ensures d != s ==> mem == Release(old(mem), old(slots[d]))
    {
      hide MacroTrivial, Release;
      if d != s {
        Clear(d);
        slots[d] := slots[s];
        slots[s] := NIL_VALUE;
      }
    }

    /** The clears at the end of an emitted function. */
    method ClearFrame(p: Plan)
      modifies this`mem, slots
      ensures mem == ClearFrom(p, old(slots[..]), old(mem), 0)
      ensures forall r :: 0 <= r < slots.Length ==>
        slots[r] == if Skipped(p, r) then old(slots[r]) else NIL_VALUE
    {
      hide Skipped, Release, Trivial;
      ghost var was := slots[..];
      for j := 0 to slots.Length
        invariant ClearFrom(p, was, mem, j) == ClearFrom(p, was, old(mem), 0)
        invariant forall r :: 0 <= r < j ==> slots[r] == if Skipped(p, r) then was[r] else NIL_VALUE
        invariant forall r :: j <= r < slots.Length ==> slots[r] == was[r]
      {
        ghost var before := slots[..];
        if !Skipped(p, j) {
          Clear(j);
          assert forall r :: 0 <= r < slots.Length ==>
            slots[r] == slots[..][r] == if r == j then NIL_VALUE else before[r];
        }
      }
    }

    /** On a balanced frame the clears leave exactly the references held elsewhere. */
    method ClearBalanced(p: Plan, ghost rest: multiset<int>)
      requires mem.clean && mem.rc == Held(slots[..]) + rest
      requires forall r :: 0 <= r < slots.Length && Skipped(p, r) ==> Trivial(slots[r].tag)
      modifies this`mem, slots
      ensures mem == Mem(rest, true)
    {
      assert slots[..][0..] == slots[..];
      ClearBalances(p, slots[..], mem, 0, rest);
      ClearFrame(p);
    }
  }
}
