/**
 Little-endian wire format shared by the metadata codecs: scalars, length-prefixed strings and
 lists. A parser maps a buffer and a position to a value and the position after it, or fails.
 One law covers reading back and truncation alike: on a buffer that agrees with an encoding for
 as long as both last, the parser returns the encoded value if the whole encoding is there, and
 fails if it is cut short.
 */
module Wire {
  import opened Int64
  import opened Options

  type byte = x: int | 0 <= x < 256

  type Bytes = seq<byte>

  type Parsed<+T> = Option<(T, nat)>

  // ----- scalars -----

  function Pow256(n: nat): (r: nat)
    ensures r > 0
  {
    if n == 0 then 1 else 256 * Pow256(n - 1)
  }

  function LE(v: nat, n: nat): (r: Bytes)
    ensures |r| == n
  {
    if n == 0 then [] else [v % 256] + LE(v / 256, n - 1)
  }

  function FromLE(s: Bytes): (r: nat)
    ensures r < Pow256(|s|)
  {
    if s == [] then 0 else s[0] + 256 * FromLE(s[1..])
  }

  lemma {:induction false} ReadsWhatWasWritten(v: nat, n: nat)
    requires v < Pow256(n)
    ensures FromLE(LE(v, n)) == v
  {
    if n > 0 {
      ReadsWhatWasWritten(v / 256, n - 1);
      assert LE(v, n)[1..] == LE(v / 256, n - 1);
    }
  }

  lemma {:induction false} WritesWhatWasRead(s: Bytes)
    ensures LE(FromLE(s), |s|) == s
  {
    if s != [] {
      WritesWhatWasRead(s[1..]);
      var rest := FromLE(s[1..]);
      assert (s[0] + 256 * rest) % 256 == s[0] && (s[0] + 256 * rest) / 256 == rest;
      assert s == [s[0]] + s[1..];
    }
  }

  lemma Widths()
    ensures Pow256(1) == 256 && Pow256(2) == 0x1_0000 && Pow256(4) == TWO32 && Pow256(8) == TWO64
  {
    assert Pow256(2) == 256 * Pow256(1);
    assert Pow256(4) == 256 * (256 * Pow256(2));
    assert Pow256(6) == 256 * (256 * Pow256(4));
    assert Pow256(8) == 256 * (256 * Pow256(6));
  }

  predicate In32(v: int) {
    -0x8000_0000 <= v < 0x8000_0000
  }

  function Unsigned32(v: int): (u: nat) {
    v % TWO32
  }

  function Signed32(u: nat): (v: int) {
    if u % TWO32 < 0x8000_0000 then u % TWO32 else u % TWO32 - TWO32
  }

  lemma Signed32Inverse(v: int)
    requires In32(v)
    ensures Unsigned32(v) < TWO32 && Signed32(Unsigned32(v)) == v
  {
    if v < 0 {
      assert v % TWO32 == v + TWO32;
    }
  }

  lemma Unsigned32Inverse(u: nat)
    requires u < TWO32
    ensures In32(Signed32(u)) && Unsigned32(Signed32(u)) == u
  {
    if u >= 0x8000_0000 {
      assert (u - TWO32) % TWO32 == u;
    }
  }

  // ----- parsers -----

  function U(b: Bytes, at: nat, n: nat): Parsed<nat> {
    if at + n <= |b| then Some((FromLE(b[at..at + n]), at + n)) else None
  }

  function I32(b: Bytes, at: nat): Parsed<int> {
    var (u, a) :- U(b, at, 4);
    Some((Signed32(u), a))
  }

  /** A byte that must be 0 or 1. */
  function Flag(b: Bytes, at: nat): Parsed<bool> {
    var (v, a) :- U(b, at, 1);
    if v > 1 then None else Some((v != 0, a))
  }

  /** A byte of which only zero means no. */
  function Loose(b: Bytes, at: nat): Parsed<bool> {
    var (v, a) :- U(b, at, 1);
    Some((v != 0, a))
  }

  function Text(b: Bytes, at: nat): Parsed<Bytes> {
    var (n, a) :- U(b, at, 4);
    if a + n <= |b| then Some((b[a..a + n], a + n)) else None
  }

  /** One item after another; each item may depend on what is already known of it. */
  function Many<E, T>(p: (E, Bytes, nat) -> Parsed<T>, items: seq<E>, b: Bytes, at: nat): (r: Parsed<seq<T>>)
    ensures r.Some? ==> |r.value.0| == |items|
  {
    if items == [] then Some(([], at))
    else
      var n := |items| - 1;
      var (xs, a) :- Many(p, items[..n], b, at);
      var (x, a') :- p(items[n], b, a);
      Some((xs + [x], a'))
  }

  /** A count and that many items; a count larger than the buffer cannot be honest. */
  function Counted<T>(p: ((), Bytes, nat) -> Parsed<T>, b: Bytes, at: nat): Parsed<seq<T>> {
    var (n, a) :- U(b, at, 4);
    if n > |b| then None else Many(p, Units(n), b, a)
  }

  /** A tagged section: one entry for each item already known. */
  function ReadSection<T>(magic: nat, p: (T, Bytes, nat) -> Parsed<T>, items: seq<T>, b: Bytes,
                          at: nat): Parsed<seq<T>> {
    var (m, a) :- U(b, at, 4);
    if m != magic then None
    else
      var (n, a') :- U(b, a, 4);
      if n != |items| then None else Many(p, items, b, a')
  }

  function Units(n: nat): (r: seq<()>)
    ensures |r| == n
  {
    seq(n, _ => ())
  }

  // ----- encodings -----

  function EncText(s: Bytes): Bytes {
    LE(|s|, 4) + s
  }

  function EncFlag(f: bool): Bytes {
    [if f then 1 else 0]
  }

  function EncodeEach<S>(enc: S -> Bytes, xs: seq<S>): Bytes {
    if xs == [] then [] else EncodeEach(enc, xs[..|xs| - 1]) + enc(xs[|xs| - 1])
  }

  function EncCounted<S>(enc: S -> Bytes, xs: seq<S>): Bytes {
    LE(|xs|, 4) + EncodeEach(enc, xs)
  }

  function EncSection<S>(magic: nat, enc: S -> Bytes, xs: seq<S>): Bytes {
    LE(magic, 4) + (LE(|xs|, 4) + EncodeEach(enc, xs))
  }

  // ----- the law -----

  /** From `at` on, the buffer and the encoding agree for as long as both last. */
  predicate Follows(b: Bytes, at: nat, e: Bytes) {
    && at <= |b|
    && forall i :: 0 <= i < |e| && at + i < |b| ==> b[at + i] == e[i]
  }

  /** What reading an encoding of `x` must yield: `x` if all of it is there, else nothing. */
  function Taken<T>(b: Bytes, at: nat, e: Bytes, x: T): Parsed<T> {
    if at + |e| <= |b| then Some((x, at + |e|)) else None
  }

  lemma FollowsSplit(b: Bytes, at: nat, e: Bytes, f: Bytes)
    requires Follows(b, at, e + f)
    ensures Follows(b, at, e)
    ensures at + |e| <= |b| ==> Follows(b, at + |e|, f)
  {
    forall i | 0 <= i < |e| && at + i < |b|
      ensures b[at + i] == e[i]
    {
      assert (e + f)[i] == e[i];
    }
    if at + |e| <= |b| {
      forall i | 0 <= i < |f| && at + |e| + i < |b|
        ensures b[at + |e| + i] == f[i]
      {
        assert b[at + (|e| + i)] == (e + f)[|e| + i];
      }
    }
  }

  lemma PrefixFollows(e: Bytes, n: nat)
    requires n <= |e|
    ensures Follows(e[..n], 0, e)
  {
  }

  lemma Whole(b: Bytes, at: nat, e: Bytes)
    requires Follows(b, at, e) && at + |e| <= |b|
    ensures b[at..at + |e|] == e
  {
    forall i | 0 <= i < |e|
      ensures b[at..at + |e|][i] == e[i]
    {
      assert b[at + i] == e[i];
    }
  }

  lemma UReads(b: Bytes, at: nat, v: nat, n: nat)
    requires v < Pow256(n) && Follows(b, at, LE(v, n))
    ensures U(b, at, n) == Taken(b, at, LE(v, n), v)
  {
    hide LE, FromLE, Pow256;
    if at + n <= |b| {
      Whole(b, at, LE(v, n));
      ReadsWhatWasWritten(v, n);
    }
  }

  lemma I32Reads(b: Bytes, at: nat, v: int)
    requires In32(v) && Follows(b, at, LE(Unsigned32(v), 4))
    ensures I32(b, at) == Taken(b, at, LE(Unsigned32(v), 4), v)
  {
    hide LE, U;
    Widths();
    Signed32Inverse(v);
    UReads(b, at, Unsigned32(v), 4);
  }

  lemma FlagReads(b: Bytes, at: nat, f: bool)
    requires Follows(b, at, EncFlag(f))
    ensures Flag(b, at) == Taken(b, at, EncFlag(f), f) == Loose(b, at)
  {
    var v := if f then 1 else 0;
    Widths();
    assert LE(v, 1) == EncFlag(f);
    UReads(b, at, v, 1);
  }

  lemma {:induction false} TextReads(b: Bytes, at: nat, s: Bytes)
    requires |s| < TWO32 && Follows(b, at, EncText(s))
    ensures Text(b, at) == Taken(b, at, EncText(s), s)
  {
    hide LE, Follows;
    Widths();
    FollowsSplit(b, at, LE(|s|, 4), s);
    UReads(b, at, |s|, 4);
    if at + 4 + |s| <= |b| {
      Whole(b, at + 4, s);
    }
  }

  /** The same, in front of a rest. */
  lemma TextThen(b: Bytes, at: nat, s: Bytes, rest: Bytes)
    requires |s| < TWO32 && Follows(b, at, EncText(s) + rest)
    ensures Text(b, at) == Taken(b, at, EncText(s), s)
    ensures at + |EncText(s)| <= |b| ==> Follows(b, at + |EncText(s)|, rest)
  {
    hide Follows, Text, EncText;
    FollowsSplit(b, at, EncText(s), rest);
    TextReads(b, at, s);
  }

  lemma UThen(b: Bytes, at: nat, v: nat, n: nat, rest: Bytes)
    requires v < Pow256(n) && Follows(b, at, LE(v, n) + rest)
    ensures U(b, at, n) == Taken(b, at, LE(v, n), v)
    ensures at + n <= |b| ==> Follows(b, at + n, rest)
  {
    hide Follows, U, LE, Pow256;
    FollowsSplit(b, at, LE(v, n), rest);
    UReads(b, at, v, n);
  }

  lemma I32Then(b: Bytes, at: nat, v: int, rest: Bytes)
    requires In32(v) && Follows(b, at, LE(Unsigned32(v), 4) + rest)
    ensures I32(b, at) == Taken(b, at, LE(Unsigned32(v), 4), v)
    ensures at + 4 <= |b| ==> Follows(b, at + 4, rest)
  {
    hide Follows, I32, LE;
    FollowsSplit(b, at, LE(Unsigned32(v), 4), rest);
    I32Reads(b, at, v);
  }

  lemma FlagThen(b: Bytes, at: nat, f: bool, rest: Bytes)
    requires Follows(b, at, EncFlag(f) + rest)
    ensures Flag(b, at) == Taken(b, at, EncFlag(f), f) == Loose(b, at)
    ensures at + 1 <= |b| ==> Follows(b, at + 1, rest)
  {
    hide Follows, Flag, Loose;
    FollowsSplit(b, at, EncFlag(f), rest);
    FlagReads(b, at, f);
  }

  lemma {:induction false} ManyReads<E, S, T>(p: (E, Bytes, nat) -> Parsed<T>, items: seq<E>, enc: S -> Bytes,
                                              src: seq<S>, xs: seq<T>, b: Bytes, at: nat)
    requires |items| == |src| == |xs|
    requires forall k: nat, a: nat :: k < |items| && Follows(b, a, enc(src[k])) ==>
      p(items[k], b, a) == Taken(b, a, enc(src[k]), xs[k])
    requires Follows(b, at, EncodeEach(enc, src))
    ensures Many(p, items, b, at) == Taken(b, at, EncodeEach(enc, src), xs)
  {
    if items == [] {
      assert xs == [];
    } else {
      var n := |items| - 1;
      FollowsSplit(b, at, EncodeEach(enc, src[..n]), enc(src[n]));
      forall k: nat, a: nat | k < n && Follows(b, a, enc(src[..n][k]))
        ensures p(items[..n][k], b, a) == Taken(b, a, enc(src[..n][k]), xs[..n][k])
      {
        assert src[..n][k] == src[k] && items[..n][k] == items[k];
      }
      ManyReads(p, items[..n], enc, src[..n], xs[..n], b, at);
      assert xs == xs[..n] + [xs[n]];
    }
  }

  lemma CountedReads<S, T>(p: ((), Bytes, nat) -> Parsed<T>, enc: S -> Bytes, src: seq<S>, xs: seq<T>, b: Bytes,
                           at: nat)
    requires |src| == |xs| < TWO32 && forall k :: 0 <= k < |src| ==> enc(src[k]) != []
    requires forall k: nat, a: nat :: k < |src| && Follows(b, a, enc(src[k])) ==>
      p((), b, a) == Taken(b, a, enc(src[k]), xs[k])
    requires Follows(b, at, EncCounted(enc, src))
    ensures Counted(p, b, at) == Taken(b, at, EncCounted(enc, src), xs)
  {
    hide Follows, U, Many, EncodeEach, LE;
    Widths();
    UThen(b, at, |src|, 4, EncodeEach(enc, src));
    if at + 4 <= |b| {
      forall k: nat
        ensures k < |src| ==> Units(|src|)[k] == ()
      {
      }
      EachNonEmpty(enc, src);
      ManyReads(p, Units(|src|), enc, src, xs, b, at + 4);
    }
  }

  lemma SectionReads<S, T>(magic: nat, p: (T, Bytes, nat) -> Parsed<T>, items: seq<T>, enc: S -> Bytes, src: seq<S>,
                           xs: seq<T>, b: Bytes, at: nat)
    requires magic < TWO32 && |items| == |src| == |xs| < TWO32
    requires forall k: nat, a: nat :: k < |items| && Follows(b, a, enc(src[k])) ==>
      p(items[k], b, a) == Taken(b, a, enc(src[k]), xs[k])
    requires Follows(b, at, EncSection(magic, enc, src))
    ensures ReadSection(magic, p, items, b, at) == Taken(b, at, EncSection(magic, enc, src), xs)
  {
    hide Follows, U, Many, EncodeEach, LE;
    Widths();
    var r := EncodeEach(enc, src);
    UThen(b, at, magic, 4, LE(|src|, 4) + r);
    if at + 4 <= |b| {
      UThen(b, at + 4, |src|, 4, r);
    }
    if at + 8 <= |b| {
      ManyReads(p, items, enc, src, xs, b, at + 8);
    }
  }

  /** Once a list fails it stays failed, and what was read is not revised. */
  lemma {:induction false} ManyPrefix<E, T>(p: (E, Bytes, nat) -> Parsed<T>, items: seq<E>, b: Bytes, at: nat, k: nat)
    requires k <= |items|
    ensures Many(p, items, b, at).Some? ==>
      Many(p, items[..k], b, at).Some? && Many(p, items[..k], b, at).value.0 == Many(p, items, b, at).value.0[..k]
    decreases |items|
  {
    if k == |items| {
      assert items[..k] == items;
    } else {
      var n := |items| - 1;
      assert items[..n][..k] == items[..k];
      ManyPrefix(p, items[..n], b, at, k);
    }
  }

  lemma ManyNext<E, T>(p: (E, Bytes, nat) -> Parsed<T>, items: seq<E>, b: Bytes, at: nat, k: nat)
    requires k < |items|
    ensures Many(p, items[..k + 1], b, at) ==
      (if Many(p, items[..k], b, at).None? then None
       else
         var (xs, a) := Many(p, items[..k], b, at).value;
         if p(items[k], b, a).None? then None else Some((xs + [p(items[k], b, a).value.0], p(items[k], b, a).value.1)))
  {
    assert items[..k + 1][..k] == items[..k] && items[..k + 1][k] == items[k];
  }

  lemma ManyNone<E, T>(p: (E, Bytes, nat) -> Parsed<T>, items: seq<E>, b: Bytes, at: nat)
    ensures Many(p, items[..0], b, at) == Some(([], at))
  {
  }

  lemma {:induction false} EachNonEmpty<S>(enc: S -> Bytes, xs: seq<S>)
    requires forall k :: 0 <= k < |xs| ==> enc(xs[k]) != []
    ensures |xs| <= |EncodeEach(enc, xs)|
  {
    if xs != [] {
      EachNonEmpty(enc, xs[..|xs| - 1]);
    }
  }

  lemma EachNext<S>(enc: S -> Bytes, xs: seq<S>, k: nat)
    requires k < |xs|
    ensures EncodeEach(enc, xs[..k + 1]) == EncodeEach(enc, xs[..k]) + enc(xs[k])
  {
    assert xs[..k + 1][..k] == xs[..k] && xs[..k + 1][k] == xs[k];
  }

  lemma NothingEncoded<S>(enc: S -> Bytes, xs: seq<S>)
    ensures EncodeEach(enc, xs[..0]) == []
  {
  }

  /** The append loop of every encoder. */
  method WriteEach<S>(out: Bytes, enc: S -> Bytes, xs: seq<S>) returns (out': Bytes)
    ensures out' == out + EncodeEach(enc, xs)
  {
    hide EncodeEach;
    out' := out;
    NothingEncoded(enc, xs);
    for k := 0 to |xs|
      invariant out' == out + EncodeEach(enc, xs[..k])
    {
      EachNext(enc, xs, k);
      out' := out' + enc(xs[k]);
    }
    assert xs[..|xs|] == xs;
  }

  method WriteSection<S>(out: Bytes, magic: nat, enc: S -> Bytes, xs: seq<S>) returns (out': Bytes)
    ensures out' == out + EncSection(magic, enc, xs)
  {
    hide LE, EncodeEach;
    out' := out + LE(magic, 4);
    out' := out' + LE(|xs|, 4);
    out' := WriteEach(out', enc, xs);
  }

  lemma Replaced<T>(out: seq<T>, was: seq<T>, k: nat, x: T)
    requires k < |out| == |was| && out[k..] == was[k..]
    ensures out[k := x][..k + 1] == out[..k] + [x] && out[k := x][k + 1..] == was[k + 1..] && out[k] == was[k]
  {
    assert out[k..][0] == was[k..][0];
    assert out[k + 1..] == out[k..][1..] == was[k + 1..];
  }

  // ----- the cursor -----

  /** Bounds-checked cursor: once a read overruns the buffer, every later read fails. */
  class Reader {
    const data: Bytes
    var offset: nat
    var ok: bool

    ghost predicate Valid()
      reads this
    {
      offset <= |data|
    }

    constructor (data: Bytes)
      ensures Valid() && this.data == data && offset == 0 && ok
    {
      this.data := data;
      offset, ok := 0, true;
    }

    /** The cursor did what the parser says, or was already broken and stays so. */
    twostate predicate Did<T>(r: Parsed<T>, v: T)
      reads this
    {
      && Valid()
      && (ok <==> old(ok) && r.Some?)
      && (ok ==> r == Some((v, offset)))
    }

    /** The cursor is where the parser leaves it, or broken because the parser fails. */
    ghost predicate Holds<T>(r: Parsed<T>, v: T)
      reads this
    {
      && Valid()
      && (ok <==> r.Some?)
      && (ok ==> r == Some((v, offset)))
    }

    method Scalar(n: nat) returns (v: nat)
      requires Valid()
      modifies this
      ensures Did(U(data, old(offset), n), v)
      ensures !ok ==> v == 0
    {
      if !ok || offset + n > |data| {
        ok := false;
        return 0;
      }
      v := FromLE(data[offset..offset + n]);
      offset := offset + n;
    }

    method Signed() returns (v: int)
      requires Valid()
      modifies this
      ensures Did(I32(data, old(offset)), v)
    {
      var u := Scalar(4);
      v := Signed32(u);
    }

    /** A byte above 1 breaks the cursor. */
    method Strict() returns (f: bool)
      requires Valid()
      modifies this
      ensures Did(Flag(data, old(offset)), f)
    {
      var v := Scalar(1);
      if v > 1 {
        ok := false;
      }
      f := v != 0;
    }

    method Lenient() returns (f: bool)
      requires Valid()
      modifies this
      ensures Did(Loose(data, old(offset)), f)
    {
      var v := Scalar(1);
      f := v != 0;
    }

    method String() returns (v: Bytes)
      requires Valid()
      modifies this
      ensures Did(Text(data, old(offset)), v)
    {
      var n := Scalar(4);
      if !ok || offset + n > |data| {
        ok := false;
        return [];
      }
      v := data[offset..offset + n];
      offset := offset + n;
    }
  }
}
