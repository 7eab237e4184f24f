/**
 Debug live ranges across optimization. Every instruction is stamped with its position before
 the passes run; afterwards a recorded range is moved to where its stamps now sit.
 */
module DebugRanges {

  const UINT32_MAX: int := 0xFFFF_FFFF

  type Stamp32 = x: int | 0 <= x <= UINT32_MAX

  /** A debug local: its register and the half-open range of positions where it is live. */
  datatype Local = Local(register: int, begin: nat, end: nat)

  /** The stamp of a position: one more, in 32 bits, so that 0 marks a synthesised instruction. */
  function StampOf(i: nat): Stamp32 {
    (i + 1) % (UINT32_MAX + 1)
  }

  method StampAll(count: nat) returns (stamps: seq<Stamp32>)
    ensures |stamps| == count && forall i :: 0 <= i < count ==> stamps[i] == StampOf(i)
    ensures count <= UINT32_MAX ==> forall i :: 0 <= i < count ==> stamps[i] == i + 1
  {
    stamps := [];
    for i := 0 to count
      invariant |stamps| == i && forall k :: 0 <= k < i ==> stamps[k] == StampOf(k)
    {
      stamps := stamps + [StampOf(i)];
    }
  }

  // ----- the searched array -----

  /** The largest stamp up to and including position i. */
  function Highest(stamps: seq<Stamp32>, i: nat): (m: Stamp32)
    requires i < |stamps|
  {
    if i == 0 then stamps[0]
    else
      var m := Highest(stamps, i - 1);
      if m >= stamps[i] then m else stamps[i]
  }

  lemma {:induction false} HighestIsMaximum(stamps: seq<Stamp32>, i: nat) returns (at: nat)
    requires i < |stamps|
    ensures forall k :: 0 <= k <= i ==> stamps[k] <= Highest(stamps, i)
    ensures at <= i && stamps[at] == Highest(stamps, i)
  {
    at := i;
    if i > 0 {
      var before := HighestIsMaximum(stamps, i - 1);
      if stamps[before] >= stamps[i] {
        at := before;
      }
    }
  }

  predicate Sorted(order: seq<Stamp32>) {
    forall i, j :: 0 <= i < j < |order| ==> order[i] <= order[j]
  }

  function Order(stamps: seq<Stamp32>): (order: seq<Stamp32>)
    ensures |order| == |stamps| && forall i :: 0 <= i < |order| ==> order[i] == Highest(stamps, i)
  {
    seq(|stamps|, i requires 0 <= i < |stamps| => Highest(stamps, i))
  }

  lemma OrderIsSorted(stamps: seq<Stamp32>)
    ensures Sorted(Order(stamps))
  {
    forall i, j | 0 <= i < j < |stamps|
      ensures Highest(stamps, i) <= Highest(stamps, j)
    {
      var k := HighestIsMaximum(stamps, i);
      var _ := HighestIsMaximum(stamps, j);
    }
  }

  lemma HighestNext(stamps: seq<Stamp32>, i: nat)
    requires 0 < i < |stamps|
    ensures Highest(stamps, i) == if Highest(stamps, i - 1) >= stamps[i] then Highest(stamps, i - 1) else stamps[i]
  {
  }

  method RunningMaximum(stamps: seq<Stamp32>) returns (order: seq<Stamp32>)
    ensures order == Order(stamps) && Sorted(order)
  {
    hide Highest, Sorted, Order;
    order := [];
    var running: Stamp32 := 0;
    for i := 0 to |stamps|
      invariant order == Order(stamps)[..i]
      invariant running == if i == 0 then 0 else Highest(stamps, i - 1)
    {
      if i == 0 {
        FirstIsHighest(stamps);
      } else {
        HighestNext(stamps, i);
      }
      running := if running >= stamps[i] then running else stamps[i];
      order := order + [running];
    }
    OrderIsSorted(stamps);
  }

  lemma FirstIsHighest(stamps: seq<Stamp32>)
    requires stamps != []
    ensures Highest(stamps, 0) == stamps[0]
  {
  }

  // ----- lower bound -----

  ghost predicate Splits(order: seq<Stamp32>, stamp: Stamp32, p: nat) {
    && p <= |order|
    && (forall i :: 0 <= i < p ==> order[i] < stamp)
    && (forall i :: p <= i < |order| ==> stamp <= order[i])
  }

  function Below(order: seq<Stamp32>, stamp: Stamp32): (n: nat)
    ensures n <= |order|
  {
    if order == [] || order[0] >= stamp then 0 else 1 + Below(order[1..], stamp)
  }

  lemma {:induction false} BelowSplits(order: seq<Stamp32>, stamp: Stamp32)
    requires Sorted(order)
    ensures Splits(order, stamp, Below(order, stamp))
  {
    if order != [] && order[0] < stamp {
      BelowSplits(order[1..], stamp);
      var n := Below(order[1..], stamp);
      forall i | 0 <= i < |order|
        ensures if i < n + 1 then order[i] < stamp else stamp <= order[i]
      {
        assert i > 0 ==> order[i] == order[1..][i - 1];
      }
    }
  }

  lemma SplitsOnce(order: seq<Stamp32>, stamp: Stamp32, p: nat, q: nat)
    requires Splits(order, stamp, p) && Splits(order, stamp, q)
    ensures p == q
  {
    assert p < |order| ==> stamp <= order[p];
    assert q < |order| ==> stamp <= order[q];
  }

  method LowerBound(order: seq<Stamp32>, stamp: Stamp32) returns (p: nat)
    requires Sorted(order)
    ensures Splits(order, stamp, p) && p == Below(order, stamp)
  {
    p := 0;
    var length: nat := |order|;
    while length > 0
      invariant p + length <= |order|
      invariant forall i :: 0 <= i < p ==> order[i] < stamp
      invariant forall i :: p + length <= i < |order| ==> stamp <= order[i]
    {
      var half := length / 2;
      if order[p + half] < stamp {
        p := p + half + 1;
        length := length - half - 1;
      } else {
        length := half;
      }
    }
    BelowSplits(order, stamp);
    SplitsOnce(order, stamp, p, Below(order, stamp));
  }

  // ----- remapping -----

  function Sought(recorded: nat): Stamp32 {
    if recorded < UINT32_MAX then recorded + 1 else UINT32_MAX
  }

  function Position(stamps: seq<Stamp32>, recorded: nat): (p: nat)
    ensures p <= |stamps|
  {
    Below(Order(stamps), Sought(recorded))
  }

  function Moved(stamps: seq<Stamp32>, local: Local): Local {
    local.(begin := Position(stamps, local.begin), end := Position(stamps, local.end))
  }

  /** Locals whose register the function still has, each moved. */
  function MovedAll(stamps: seq<Stamp32>, registers: int, locals: seq<Local>): seq<Local> {
    if locals == [] then []
    else
      var n := |locals| - 1;
      MovedAll(stamps, registers, locals[..n]) +
        if 0 <= locals[n].register < registers then [Moved(stamps, locals[n])] else []
  }

  method Remap(stamps: seq<Stamp32>, registers: int, locals: seq<Local>) returns (out: seq<Local>)
    ensures out == MovedAll(stamps, registers, locals)
  {
    hide Order, Below, Sorted;
    var order := RunningMaximum(stamps);
    out := [];
    for k := 0 to |locals|
      invariant out == MovedAll(stamps, registers, locals[..k])
    {
      var local := locals[k];
      assert locals[..k + 1][..k] == locals[..k] && locals[..k + 1][k] == local;
      if 0 <= local.register < registers {
        var begin := LowerBound(order, Sought(local.begin));
        var end := LowerBound(order, Sought(local.end));
        out := out + [local.(begin := begin, end := end)];
      }
    }
    assert locals[..|locals|] == locals;
  }

  /** An instruction is at or after a moved position exactly when its region's stamp reaches the one sought. */
  lemma AtOrAfter(stamps: seq<Stamp32>, recorded: nat, i: nat)
    requires i < |stamps|
    ensures Position(stamps, recorded) <= i <==> Sought(recorded) <= Highest(stamps, i)
  {
    OrderIsSorted(stamps);
    BelowSplits(Order(stamps), Sought(recorded));
    assert Order(stamps)[i] == Highest(stamps, i);
  }

  lemma PositionMonotone(stamps: seq<Stamp32>, a: nat, b: nat)
    requires a <= b
    ensures Position(stamps, a) <= Position(stamps, b)
  {
    var p := Position(stamps, b);
    if p < |stamps| {
      AtOrAfter(stamps, b, p);
      AtOrAfter(stamps, a, p);
    }
  }

  /** Whatever the optimizer did, ranges do not invert and disjoint ranges stay disjoint. */
  lemma {:induction false} RangesStayApart(stamps: seq<Stamp32>, l: Local, m: Local)
    ensures l.begin <= l.end ==> Moved(stamps, l).begin <= Moved(stamps, l).end <= |stamps|
    ensures l.end <= m.begin ==> Moved(stamps, l).end <= Moved(stamps, m).begin
  {
    if l.begin <= l.end {
      PositionMonotone(stamps, l.begin, l.end);
    }
    if l.end <= m.begin {
      PositionMonotone(stamps, l.end, m.begin);
    }
  }

  // ----- which instructions a range keeps -----

  predicate Within(l: Local, i: int) {
    l.begin <= i < l.end
  }

  /** Surviving instructions kept their order; synthesised ones do not matter. */
  ghost predicate InOrder(stamps: seq<Stamp32>) {
    forall i, j :: 0 <= i < j < |stamps| && stamps[j] != 0 ==> stamps[i] <= stamps[j]
  }

  lemma OwnRegion(stamps: seq<Stamp32>, i: nat)
    requires InOrder(stamps) && i < |stamps| && stamps[i] != 0
    ensures Highest(stamps, i) == stamps[i]
  {
    var k := HighestIsMaximum(stamps, i);
  }

  /** The one range that loses its instruction: it ends past the stamps, and the instruction has the last stamp. */
  predicate CutOff(stamp: Stamp32, l: Local) {
    stamp == UINT32_MAX && l.begin < UINT32_MAX <= l.end
  }

  /** An instruction that stands in its own region is in a moved range exactly when it was in the range. */
  lemma {:induction false} RegionMembership(stamps: seq<Stamp32>, i: nat, l: Local)
    requires i < |stamps| && stamps[i] != 0 && Highest(stamps, i) == stamps[i]
    ensures (Within(Moved(stamps, l), i) <==> Within(l, stamps[i] - 1)) <==> !CutOff(stamps[i], l)
  {
    AtOrAfter(stamps, l.begin, i);
    AtOrAfter(stamps, l.end, i);
  }

  /** Membership is kept by every range when stamps kept their order. */
  lemma {:induction false} MembershipKept(stamps: seq<Stamp32>, i: nat, l: Local)
    requires InOrder(stamps) && i < |stamps| && stamps[i] != 0
    ensures (Within(Moved(stamps, l), i) <==> Within(l, stamps[i] - 1)) <==> !CutOff(stamps[i], l)
  {
    OwnRegion(stamps, i);
    RegionMembership(stamps, i, l);
  }

  /** For one instruction, all ranges agree exactly when no earlier stamp is higher and its own is not the last. */
  lemma {:induction false} MembershipExactly(stamps: seq<Stamp32>, i: nat)
    requires i < |stamps| && stamps[i] != 0
    ensures (forall l: Local :: Within(Moved(stamps, l), i) <==> Within(l, stamps[i] - 1)) <==>
      (forall k :: 0 <= k < i ==> stamps[k] <= stamps[i]) && stamps[i] != UINT32_MAX
  {
    hide Position;
    if (forall k :: 0 <= k < i ==> stamps[k] <= stamps[i]) && stamps[i] != UINT32_MAX {
      var k := HighestIsMaximum(stamps, i);
      forall l: Local
        ensures Within(Moved(stamps, l), i) <==> Within(l, stamps[i] - 1)
      {
        RegionMembership(stamps, i, l);
      }
    } else {
      var own := Local(0, stamps[i] - 1, stamps[i]);
      AtOrAfter(stamps, own.begin, i);
      AtOrAfter(stamps, own.end, i);
      var k := HighestIsMaximum(stamps, i);
      assert Within(own, stamps[i] - 1) && !Within(Moved(stamps, own), i);
    }
  }
}
