/**
 What existing readers of the metadata depend on: which bytes the encoders write, in which order,
 under which section names, and that the decoders take exactly these.
 */
module KnownBlobs {
  import opened Options
  import opened Wire
  import F = FunctionCodec
  import C = ClassCodec
  import D = DebugCodec

  // ----- small pieces -----

  lemma {:induction false} FourBytes(v: nat)
    ensures LE(v, 4) == [v % 256, v / 256 % 256, v / 0x1_0000 % 256, v / 0x100_0000 % 256]
  {
    assert LE(v, 4) == [v % 256] + LE(v / 256, 3);
    assert LE(v / 256, 3) == [v / 256 % 256] + LE(v / 256 / 256, 2);
    assert LE(v / 256 / 256, 2) == [v / 256 / 256 % 256] + LE(v / 256 / 256 / 256, 1);
    assert LE(v / 256 / 256 / 256, 1) == [v / 256 / 256 / 256 % 256];
    assert v / 256 / 256 == v / 0x1_0000 && v / 256 / 256 / 256 == v / 0x100_0000;
  }

  /** A number given by its four bytes. */
  lemma {:induction false} Spelled(v: nat, a: byte, b: byte, c: byte, d: byte)
    requires v == a + 256 * (b + 256 * (c + 256 * d))
    ensures LE(v, 4) == [a, b, c, d]
  {
    assert LE(v, 4) == [a] + LE(b + 256 * (c + 256 * d), 3);
    assert LE(b + 256 * (c + 256 * d), 3) == [b] + LE(c + 256 * d, 2);
    assert LE(c + 256 * d, 2) == [c] + LE(d, 1);
    assert LE(d, 1) == [d];
  }

  lemma {:induction false} TwoBytes(v: nat)
    ensures LE(v, 2) == [v % 256, v / 256 % 256]
  {
    assert LE(v, 2) == [v % 256] + LE(v / 256, 1);
  }

  lemma {:induction false} OneByte(v: nat)
    requires v < 256
    ensures LE(v, 1) == [v]
  {
  }

  lemma {:induction false} OneOf<S>(enc: S -> Bytes, x: S)
    ensures EncodeEach(enc, [x]) == enc(x)
  {
    assert [x][..0] == [];
    assert EncodeEach(enc, []) + enc(x) == enc(x);
  }

  lemma {:induction false} OneCounted<S>(enc: S -> Bytes, x: S)
    ensures EncCounted(enc, [x]) == [1, 0, 0, 0] + enc(x)
  {
    OneOf(enc, x);
    FourBytes(1);
  }

  lemma {:induction false} OneSection<S>(magic: nat, enc: S -> Bytes, x: S)
    ensures EncSection(magic, enc, [x]) == LE(magic, 4) + ([1, 0, 0, 0] + enc(x))
  {
    OneOf(enc, x);
    FourBytes(1);
  }

  /** A length in four bytes, least significant first, and the text. */
  lemma {:induction false} TextBytes(s: Bytes)
    ensures EncText(s) == [|s| % 256, |s| / 256 % 256, |s| / 0x1_0000 % 256, |s| / 0x100_0000 % 256] + s
  {
    FourBytes(|s|);
  }

  // ----- functions -----

  /** The byte that says which default follows, and what follows. */
  lemma {:induction false} DefaultBytes(d: F.Default)
    ensures LE(F.Kind(d), 1) + F.EncDefault(d) ==
      match d
      case NoDefault => [0]
      case Nil => [1]
      case Int(v) => [2] + LE(Int64.Unsigned(v), 8)
      case Float(v) => [3] + LE(v, 8)
      case Bool(v) => [4] + [if v then 1 else 0]
      case Str(v) => [5] + EncText(v)
      case EmptyArray => [6]
      case EmptyDict => [7]
  {
    OneByte(F.Kind(d));
    hide LE, EncText;
  }

  lemma {:induction false} FunctionMagics()
    ensures LE(F.STAT, 4) == [0x53, 0x54, 0x41, 0x54] && LE(F.STYP, 4) == [0x53, 0x54, 0x59, 0x50]
    ensures LE(F.DECL, 4) == [0x44, 0x45, 0x43, 0x4c] && LE(F.HOOK, 4) == [0x48, 0x4f, 0x4f, 0x4b]
  {
    Spelled(F.STAT, 0x53, 0x54, 0x41, 0x54);
    Spelled(F.STYP, 0x53, 0x54, 0x59, 0x50);
    Spelled(F.DECL, 0x44, 0x45, 0x43, 0x4c);
    Spelled(F.HOOK, 0x48, 0x4f, 0x4f, 0x4b);
    hide LE;
  }

  function TypeBytes(t: F.DeclaredType): Bytes {
    EncText(t.name) + (LE(t.mask, 8) + [if t.nominal then 1 else 0])
  }

  /**
   The blob of one function with one parameter: the legacy record, then "STAT", "STYP" and "DECL",
   and "HOOK" exactly when the function asks for it.
   */
  lemma {:induction false} FunctionBlob(s: F.Signature, p: F.Parameter)
    requires s.parameters == [p]
    ensures F.Encode([s]) ==
      ([1, 0, 0, 0] + (EncText(s.name) + (LE(Unsigned32(s.returnType), 4) + (LE(Unsigned32(s.line), 4) +
         (EncText(s.description) + (LE(s.required, 4) + ([if s.isCoroutine then 1 else 0] + ([1, 0, 0, 0] +
         (EncText(p.name) + (LE(Unsigned32(p.typ), 4) + (LE(F.Kind(p.default), 1) + F.EncDefault(p.default)))))))))))) +
      (([0x53, 0x54, 0x41, 0x54] + ([1, 0, 0, 0] + [if s.isStatic then 1 else 0])) +
      (([0x53, 0x54, 0x59, 0x50] + ([1, 0, 0, 0] + (EncText(s.returnClass) + ([1, 0, 0, 0] + EncText(p.className))))) +
      (([0x44, 0x45, 0x43, 0x4c] + ([1, 0, 0, 0] + ([if s.hasDeclaration then 1 else 0] +
         ([if s.isAbstract then 1 else 0] + (TypeBytes(s.declaredReturn) + TypeBytes(p.declared)))))) +
      (if s.requiresHook then [0x48, 0x4f, 0x4f, 0x4b] + ([1, 0, 0, 0] + [1]) else []))))
  {
    hide LE, EncText, EncCounted, EncSection, EncodeEach, F.EncDefault, F.Kind;
    FunctionMagics();
    FourBytes(1);
    OneCounted(F.EncRecord, s);
    OneCounted(F.EncParameter, p);
    OneSection(F.STAT, F.EncStatic, s);
    OneSection(F.STYP, F.EncTypes, s);
    OneOf(F.EncClassName, p);
    OneSection(F.DECL, F.EncDeclaration, s);
    OneOf(F.EncDeclared, p);
    OneSection(F.HOOK, F.EncHook, s);
    assert F.AnyHook([s]) <==> s.requiresHook by {
      assert [s][0] == s;
    }
  }

  // ----- classes -----

  lemma {:induction false} ClassMagics()
    ensures LE(C.SDOC, 4) == [0x53, 0x44, 0x4f, 0x43] && LE(C.TRAT, 4) == [0x54, 0x52, 0x41, 0x54]
    ensures LE(C.CSIG, 4) == [0x43, 0x53, 0x49, 0x47]
  {
    Spelled(C.SDOC, 0x53, 0x44, 0x4f, 0x43);
    Spelled(C.TRAT, 0x54, 0x52, 0x41, 0x54);
    Spelled(C.CSIG, 0x43, 0x53, 0x49, 0x47);
    hide LE;
  }

  function Nested(sigs: seq<F.Signature>): Bytes {
    LE(|F.Encode(sigs)|, 4) + F.Encode(sigs)
  }

  /** The blob of one class with one field, one method, one use and one trait field. */
  lemma {:induction false} ClassBlob(c: C.Class, f: C.Field, m: C.Method, u: Bytes, t: C.Field)
    requires c.fields == [f] && c.methods == [m] && c.uses == [u] && c.traitFields == [t]
    ensures C.Encode([c]) ==
      ([1, 0, 0, 0] + (EncText(c.name) + (EncText(c.baseName) + (EncText(c.nativeBase) + (LE(Unsigned32(c.line), 4) +
         (([1, 0, 0, 0] + (EncText(f.name) + LE(Unsigned32(f.typ), 4))) +
          ([1, 0, 0, 0] + (EncText(m.name) + [if m.isStatic then 1 else 0])))))))) +
      (([0x53, 0x44, 0x4f, 0x43] + ([1, 0, 0, 0] + ([if c.isStruct then 1 else 0] + (EncText(c.description) +
         ([1, 0, 0, 0] + (EncText(f.className) + EncText(f.description))))))) +
      (([0x54, 0x52, 0x41, 0x54] + ([1, 0, 0, 0] + ([if c.isTrait then 1 else 0] + (([1, 0, 0, 0] + EncText(u)) +
         (Nested(c.traitMethods) + (([1, 0, 0, 0] + (EncText(t.name) + (LE(Unsigned32(t.typ), 4) +
            (EncText(t.className) + EncText(t.description))))) + Nested(c.traitSignals))))))) +
      ([0x43, 0x53, 0x49, 0x47] + ([1, 0, 0, 0] + Nested(c.signals)))))
  {
    hide LE, EncText, EncCounted, EncSection, EncodeEach, F.Encode;
    ClassMagics();
    FourBytes(1);
    OneCounted(C.EncRecord, c);
    OneCounted(C.EncField, f);
    OneCounted(C.EncMethod, m);
    OneSection(C.SDOC, C.EncDoc, c);
    OneOf(C.EncFieldDoc, f);
    OneSection(C.TRAT, C.EncTrait, c);
    OneCounted(EncText, u);
    OneCounted(C.EncTraitField, t);
    OneSection(C.CSIG, C.EncSignals, c);
  }

  // ----- debug variables -----

  /** The blob of one debug variable: "DVAR", version 1.0, one record; frame, member and global are 0, 1 and 2. */
  lemma {:induction false} DebugBlob(r: D.Record)
    ensures D.Encode([r]) ==
      [0x44, 0x56, 0x41, 0x52] + ([1, 0] + ([0, 0] + ([1, 0, 0, 0] +
        (LE(r.functionIndex, 4) + (EncText(r.name) + (LE(Unsigned32(r.typ), 4) +
        ([if r.storage.Frame? then 0 else if r.storage.Member? then 1 else 2] +
        (LE(Unsigned32(r.offset), 4) + (LE(r.pcBegin, 8) + LE(r.pcEnd, 8))))))))))
  {
    Spelled(D.MAGIC, 0x44, 0x56, 0x41, 0x52);
    TwoBytes(D.MAJOR);
    TwoBytes(0);
    OneByte(D.StorageCode(r.storage));
    OneCounted(D.EncRecord, r);
    hide LE, EncText, EncCounted;
  }

  /** The limits of a debug blob, as numbers. */
  lemma {:induction false} DebugLimits(rs: seq<D.Record>, b: Bytes)
    requires D.Decode(b) == Some(rs)
    ensures |rs| <= 100000 && |b| <= 16777216
    ensures forall k :: 0 <= k < |rs| ==>
      && 0 < |rs[k].name| <= 1048576 && -1 <= rs[k].typ <= 64 && 0 <= rs[k].offset < 0x8000_0000
      && rs[k].pcBegin <= rs[k].pcEnd
  {
    hide D.Decode, D.EncodeAs;
    D.DecodesExactly(b, rs);
  }
}
