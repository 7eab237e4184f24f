/**
 Label names. Operands carry interned ids; the interpreter resolves a jump by the text of the
 id, the C backend by the id itself, and the interpreter's step loop tells a taken jump from
 falling through by whether the program counter moved.
 */
module Labels {
  import opened Options
  import opened Int64
  import opened Ir
  import opened Machine

  const INVALID_ID: nat := TWO32 - 1

  ghost predicate Different(strings: seq<string>) {
    forall i, j :: 0 <= i < j < |strings| ==> strings[i] != strings[j]
  }

  /** operator[]: a missing id reads as the empty text. */
  function TextOf(strings: seq<string>, id: nat): string {
    if id < |strings| then strings[id] else ""
  }

  /** The id given to the text at a position, in 32 bits. */
  function IdAt(i: nat): (id: nat)
    ensures id < TWO32 && (i < TWO32 ==> id == i)
  {
    i % TWO32
  }

  ghost predicate Consistent(strings: seq<string>, ids: map<string, nat>) {
    && Different(strings)
    && (forall t :: t in ids <==> t in strings)
    && (forall i :: 0 <= i < |strings| ==> ids[strings[i]] == IdAt(i))
  }

  lemma Appended(strings: seq<string>, ids: map<string, nat>, text: string)
    requires Consistent(strings, ids) && text !in strings
    ensures Consistent(strings + [text], ids[text := IdAt(|strings|)])
  {
    hide IdAt;
    var more := strings + [text];
    forall i, j | 0 <= i < j < |more|
      ensures more[i] != more[j]
    {
      assert more[i] in strings;
    }
  }

  lemma ReadsBack(strings: seq<string>, ids: map<string, nat>, text: string)
    requires Consistent(strings, ids)
    ensures text in ids <==> text in strings
    ensures text in ids ==> ids[text] < TWO32 && (|strings| <= TWO32 ==> TextOf(strings, ids[text]) == text)
  {
    hide IdAt;
    if text in strings {
      var i :| 0 <= i < |strings| && strings[i] == text;
    }
  }

  /** IRStringTable: texts by id, and the ids of texts. */
  class StringTable {
    var strings: seq<string>
    var ids: map<string, nat>

    ghost predicate Valid()
      reads this
    {
      Consistent(strings, ids)
    }

    constructor ()
      ensures Valid() && strings == []
    {
      strings, ids := [], map[];
    }

    /** A known text keeps its id; a new one goes last. No text already there moves. */
    method Intern(text: string) returns (id: nat)
      requires Valid()
      modifies this
      ensures Valid() && text in ids && id == ids[text] < TWO32
      ensures text in old(ids) ==> strings == old(strings) && ids == old(ids)
      ensures text !in old(ids) ==> strings == old(strings) + [text] && ids == old(ids)[text := id]
      ensures |strings| <= TWO32 ==> TextOf(strings, id) == text
    {
      hide Consistent, TextOf, IdAt;
      ReadsBack(strings, ids, text);
      if text in ids {
        id := ids[text];
        return;
      }
      Appended(strings, ids, text);
      id := IdAt(|strings|);
      strings := strings + [text];
      ids := ids[text := id];
      ReadsBack(strings, ids, text);
    }

    /** Any sequence of calls: old ids never change, every id reads back, and ids tell texts apart. */
    method InternAll(texts: seq<string>) returns (out: seq<nat>)
      requires Valid()
      modifies this
      ensures Valid() && old(strings) <= strings && |out| == |texts|
      ensures forall t :: t in old(ids) ==> t in ids && ids[t] == old(ids)[t]
      ensures forall k :: 0 <= k < |texts| ==> texts[k] in ids && out[k] == ids[texts[k]]
      ensures |strings| <= TWO32 ==> forall k :: 0 <= k < |texts| ==> TextOf(strings, out[k]) == texts[k]
      ensures |strings| <= TWO32 ==> forall j, k :: 0 <= j < |texts| && 0 <= k < |texts| ==>
        (out[j] == out[k] <==> texts[j] == texts[k])
    {
      hide Consistent, TextOf;
      out := [];
      for n := 0 to |texts|
        invariant Valid() && old(strings) <= strings && |out| == n
        invariant forall t :: t in old(ids) ==> t in ids && ids[t] == old(ids)[t]
        invariant forall k :: 0 <= k < n ==> texts[k] in ids && out[k] == ids[texts[k]]
      {
        var id := Intern(texts[n]);
        out := out + [id];
      }
      forall k | 0 <= k < |texts| && |strings| <= TWO32
        ensures TextOf(strings, out[k]) == texts[k]
      {
        ReadsBack(strings, ids, texts[k]);
      }
    }
  }

  /** Ids and texts are mutually inverse exactly while there are at most 2^32 texts. */
  lemma {:induction false} InverseExactly(strings: seq<string>)
    requires Different(strings)
    ensures (forall i :: 0 <= i < |strings| ==> TextOf(strings, IdAt(i)) == strings[i]) <==> |strings| <= TWO32
    ensures (forall i :: 0 <= i < |strings| ==> IdAt(i) != INVALID_ID) <==> |strings| <= INVALID_ID
  {
    if |strings| > TWO32 {
      assert IdAt(TWO32) == 0 && TextOf(strings, IdAt(TWO32)) == strings[0];
    }
    if |strings| > INVALID_ID {
      assert IdAt(INVALID_ID) == INVALID_ID;
    }
  }

  // ----- resolving jumps -----

  /** The last LABEL with a given id. */
  function LastById(code: seq<Instr>, l: Name): Option<nat> {
    if code == [] then None
    else if code[|code| - 1] == Label(l) then Some(|code| - 1)
    else LastById(code[..|code| - 1], l)
  }

  /** The last LABEL whose id has a given text. */
  function LastByText(code: seq<Instr>, strings: seq<string>, t: string): Option<nat> {
    if code == [] then None
    else if code[|code| - 1].Label? && TextOf(strings, code[|code| - 1].l) == t then Some(|code| - 1)
    else LastByText(code[..|code| - 1], strings, t)
  }

  /** The interpreter's label map. */
  method CollectTexts(code: seq<Instr>, strings: seq<string>) returns (labels: map<string, nat>)
    ensures forall t :: LastByText(code, strings, t) == if t in labels then Some(labels[t]) else None
  {
    labels := map[];
    for i := 0 to |code|
      invariant forall t :: LastByText(code[..i], strings, t) == if t in labels then Some(labels[t]) else None
    {
      assert code[..i + 1][..i] == code[..i];
      if code[i].Label? {
        labels := labels[TextOf(strings, code[i].l) := i];
      }
    }
    assert code[..|code|] == code;
  }

  ghost predicate IdsInTable(code: seq<Instr>, strings: seq<string>) {
    forall i :: 0 <= i < |code| && code[i].Label? ==> code[i].l < |strings|
  }

  /** Jumps resolved by text and by id hit the same instruction. */
  lemma {:induction false} TextAndIdAgree(code: seq<Instr>, strings: seq<string>, l: Name)
    requires Different(strings) && IdsInTable(code, strings) && l < |strings|
    ensures LastByText(code, strings, TextOf(strings, l)) == LastById(code, l)
  {
    if code != [] {
      TextAndIdAgree(code[..|code| - 1], strings, l);
    }
  }

  lemma {:induction false} LastIsTheOne(code: seq<Instr>, l: Name)
    requires UniqueLabels(code)
    ensures LastById(code, l) == if Label(l) in code then Some(Find(code, l)) else None
  {
    if code != [] {
      var n := |code| - 1;
      var k := Find(code, l);
      LastIsTheOne(code[..n], l);
      if code[n] != Label(l) && Label(l) in code[..n] {
        var k' := Find(code[..n], l);
        assert code[k'] == Label(l) && code[k] == Label(l);
      }
    }
  }

  // ----- the step loop -----

  /** Where execute_instruction leaves the program counter: a taken jump moves it, anything else does not. */
  function Left(code: seq<Instr>, strings: seq<string>, next: Control, pc: nat): Option<nat> {
    match next
    case Goto(l) => LastByText(code, strings, TextOf(strings, l))
    case _ => Some(pc)
  }

  /** The loop advances only when the counter did not move. */
  function LoopNext(pc: nat, left: nat): nat {
    if left == pc then pc + 1 else left
  }

  /** Every label operand was interned. */
  ghost predicate TargetsInTable(code: seq<Instr>, strings: seq<string>) {
    forall at, j :: 0 <= at < |code| && 0 <= j < |Targets(code[at])| ==> Targets(code[at])[j] < |strings|
  }

  /** The loop goes where the instruction says: a taken jump is never mistaken for falling through. */
  lemma {:induction false} LoopFollowsStep(h: Host, code: seq<Instr>, strings: seq<string>, s: State)
    requires Different(strings) && IdsInTable(code, strings) && TargetsInTable(code, strings)
    requires UniqueLabels(code) && TargetsExist(code) && s.pc < |code|
    requires Step(h, code, s).Running?
    ensures var left := Left(code, strings, Execute(h, code[s.pc], s.regs, s.w).next, s.pc);
      left.Some? && LoopNext(s.pc, left.value) == Step(h, code, s).s.pc
  {
    var next := Execute(h, code[s.pc], s.regs, s.w).next;
    if next.Goto? {
      var j := GotoIsTarget(h, code[s.pc], s.regs, s.w);
      FindTarget(code, s.pc, j);
      TextAndIdAgree(code, strings, next.l);
      LastIsTheOne(code, next.l);
    }
  }

  lemma GotoIsTarget(h: Host, i: Instr, regs: seq<Value>, w: World) returns (j: nat)
    requires Execute(h, i, regs, w).next.Goto?
    ensures j < |Targets(i)| && Targets(i)[j] == Execute(h, i, regs, w).next.l && !i.Label?
  {
    j := 0;
    if i.Switch? {
      j :| 0 <= j < |i.targets| && i.targets[j] == Execute(h, i, regs, w).next.l;
    }
  }
}
