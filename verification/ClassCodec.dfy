/**
 The class-signature blob: a legacy record per class, then the sections SDOC (documentation),
 TRAT (traits, with nested function-signature blobs) and CSIG (signals, one nested blob each).
 */
module ClassCodec {
  import opened Int64
  import opened Options
  import opened Wire
  import F = FunctionCodec

  const SDOC := 0x434F4453
  const TRAT := 0x54415254
  const CSIG := 0x47495343

  datatype Field = Field(name: Bytes, typ: int, className: Bytes, description: Bytes)

  datatype Method = Method(name: Bytes, isStatic: bool)

  datatype Class = Class(
    name: Bytes, baseName: Bytes, nativeBase: Bytes, line: int, fields: seq<Field>, methods: seq<Method>,
    isStruct: bool, description: Bytes,
    isTrait: bool, uses: seq<Bytes>, traitMethods: seq<F.Signature>, traitFields: seq<Field>,
      traitSignals: seq<F.Signature>,
    signals: seq<F.Signature>)

  // ----- encoding -----

  function EncField(f: Field): Bytes {
    EncText(f.name) + LE(Unsigned32(f.typ), 4)
  }

  function EncMethod(m: Method): Bytes {
    EncText(m.name) + EncFlag(m.isStatic)
  }

  function EncRecord(c: Class): Bytes {
    EncText(c.name) + (EncText(c.baseName) + (EncText(c.nativeBase) + (LE(Unsigned32(c.line), 4) +
      (EncCounted(EncField, c.fields) + EncCounted(EncMethod, c.methods)))))
  }

  function EncFieldDoc(f: Field): Bytes {
    EncText(f.className) + EncText(f.description)
  }

  function EncDoc(c: Class): Bytes {
    EncFlag(c.isStruct) + (EncText(c.description) + (LE(|c.fields|, 4) + EncodeEach(EncFieldDoc, c.fields)))
  }

  function EncBlob(sigs: seq<F.Signature>): Bytes {
    LE(|F.Encode(sigs)|, 4) + F.Encode(sigs)
  }

  function EncTraitField(f: Field): Bytes {
    EncText(f.name) + (LE(Unsigned32(f.typ), 4) + (EncText(f.className) + EncText(f.description)))
  }

  function EncTrait(c: Class): Bytes {
    EncFlag(c.isTrait) + (EncCounted(EncText, c.uses) + (EncBlob(c.traitMethods) +
      (EncCounted(EncTraitField, c.traitFields) + EncBlob(c.traitSignals))))
  }

  function EncSignals(c: Class): Bytes {
    EncBlob(c.signals)
  }

  function EncLegacy(cs: seq<Class>): Bytes {
    EncCounted(EncRecord, cs)
  }

  function Encode(cs: seq<Class>): Bytes {
    EncLegacy(cs) + (EncSection(SDOC, EncDoc, cs) + (EncSection(TRAT, EncTrait, cs) + EncSection(CSIG, EncSignals, cs)))
  }

  // ----- decoding -----

  function ReadField(u: (), b: Bytes, at: nat): Parsed<Field> {
    var (name, a1) :- Text(b, at);
    var (typ, a2) :- I32(b, a1);
    Some((Field(name, typ, [], []), a2))
  }

  function ReadMethod(u: (), b: Bytes, at: nat): Parsed<Method> {
    var (name, a1) :- Text(b, at);
    var (f, a2) :- Loose(b, a1);
    Some((Method(name, f), a2))
  }

  function ReadRecord(u: (), b: Bytes, at: nat): Parsed<Class> {
    var (name, a1) :- Text(b, at);
    var (baseName, a2) :- Text(b, a1);
    var (nativeBase, a3) :- Text(b, a2);
    var (line, a4) :- I32(b, a3);
    var (fields, a5) :- Counted(ReadField, b, a4);
    var (methods, a6) :- Counted(ReadMethod, b, a5);
    Some((Class(name, baseName, nativeBase, line, fields, methods, false, [], false, [], [], [], [], []), a6))
  }

  function ReadFieldDoc(f: Field, b: Bytes, at: nat): Parsed<Field> {
    var (c, a1) :- Text(b, at);
    var (d, a2) :- Text(b, a1);
    Some((f.(className := c, description := d), a2))
  }

  function ReadDoc(c: Class, b: Bytes, at: nat): Parsed<Class> {
    var (isStruct, a1) :- Flag(b, at);
    var (description, a2) :- Text(b, a1);
    var (n, a3) :- U(b, a2, 4);
    if n != |c.fields| then None
    else
      var (fields, a4) :- Many(ReadFieldDoc, c.fields, b, a3);
      Some((c.(isStruct := isStruct, description := description, fields := fields), a4))
  }

  function ReadUse(u: (), b: Bytes, at: nat): Parsed<Bytes> {
    Text(b, at)
  }

  /** A nested function-signature blob, decoded on exactly its own bytes. */
  function ReadBlob(b: Bytes, at: nat): Parsed<seq<F.Signature>> {
    var (n, a) :- U(b, at, 4);
    if a + n > |b| then None
    else
      var sigs :- F.Decode(b[a..a + n]);
      Some((sigs, a + n))
  }

  function ReadTraitField(u: (), b: Bytes, at: nat): Parsed<Field> {
    var (name, a1) :- Text(b, at);
    var (typ, a2) :- I32(b, a1);
    var (c, a3) :- Text(b, a2);
    var (d, a4) :- Text(b, a3);
    Some((Field(name, typ, c, d), a4))
  }

  function ReadTrait(c: Class, b: Bytes, at: nat): Parsed<Class> {
    var (isTrait, a1) :- Flag(b, at);
    var (uses, a2) :- Counted(ReadUse, b, a1);
    var (methods, a3) :- ReadBlob(b, a2);
    var (fields, a4) :- Counted(ReadTraitField, b, a3);
    var (signals, a5) :- ReadBlob(b, a4);
    var c' := c.(isTrait := isTrait, uses := uses, traitMethods := methods, traitFields := fields,
      traitSignals := signals);
    Some((c', a5))
  }

  function ReadSignals(c: Class, b: Bytes, at: nat): Parsed<Class> {
    var (signals, a) :- ReadBlob(b, at);
    Some((c.(signals := signals), a))
  }

  function Decode(b: Bytes): Option<seq<Class>> {
    var (legacy, a0) :- Counted(ReadRecord, b, 0);
    if a0 == |b| then Some(legacy)
    else
      var (documented, a1) :- ReadSection(SDOC, ReadDoc, legacy, b, a0);
      if a1 == |b| then Some(documented)
      else
        var (traits, a2) :- ReadSection(TRAT, ReadTrait, documented, b, a1);
        if a2 == |b| then Some(traits)
        else
          var (full, a3) :- ReadSection(CSIG, ReadSignals, traits, b, a2);
          if a3 == |b| then Some(full) else None
  }

  // ----- what a blob of each age carries -----

  function KeepField(f: Field, level: nat): Field {
    if level >= 1 then f else f.(className := [], description := [])
  }

  function KeepFieldsOf(fs: seq<Field>, level: nat): (r: seq<Field>)
    ensures |r| == |fs| && forall k :: 0 <= k < |fs| ==> r[k] == KeepField(fs[k], level)
  {
    seq(|fs|, k requires 0 <= k < |fs| => KeepField(fs[k], level))
  }

  /** Nested signatures as their own decoder gives them back, required arguments clamped. */
  function Nested(sigs: seq<F.Signature>): seq<F.Signature> {
    F.Keep(sigs, 4)
  }

  function KeepClass(c: Class, level: nat): Class {
    c.(fields := KeepFieldsOf(c.fields, level),
       isStruct := level >= 1 && c.isStruct,
       description := if level >= 1 then c.description else [],
       isTrait := level >= 2 && c.isTrait,
       uses := if level >= 2 then c.uses else [],
       traitMethods := if level >= 2 then Nested(c.traitMethods) else [],
       traitFields := if level >= 2 then c.traitFields else [],
       traitSignals := if level >= 2 then Nested(c.traitSignals) else [],
       signals := if level >= 3 then Nested(c.signals) else [])
  }

  function Keep(cs: seq<Class>, level: nat): (r: seq<Class>)
    ensures |r| == |cs| && forall k :: 0 <= k < |cs| ==> r[k] == KeepClass(cs[k], level)
  {
    seq(|cs|, k requires 0 <= k < |cs| => KeepClass(cs[k], level))
  }

  // ----- sizes the format can carry -----

  predicate FitsField(f: Field) {
    |f.name| < TWO32 && In32(f.typ) && |f.className| < TWO32 && |f.description| < TWO32
  }

  predicate FitsFields(fs: seq<Field>) {
    |fs| < TWO32 && forall k :: 0 <= k < |fs| ==> FitsField(fs[k])
  }

  predicate FitsMethods(ms: seq<Method>) {
    |ms| < TWO32 && forall k :: 0 <= k < |ms| ==> |ms[k].name| < TWO32
  }

  predicate FitsUses(us: seq<Bytes>) {
    |us| < TWO32 && forall k :: 0 <= k < |us| ==> |us[k]| < TWO32
  }

  predicate FitsBlob(sigs: seq<F.Signature>) {
    F.Fits(sigs) && |F.Encode(sigs)| < TWO32
  }

  predicate FitsClass(c: Class) {
    && |c.name| < TWO32 && |c.baseName| < TWO32 && |c.nativeBase| < TWO32 && In32(c.line)
    && FitsFields(c.fields) && FitsMethods(c.methods) && |c.description| < TWO32
    && FitsUses(c.uses) && FitsFields(c.traitFields)
    && FitsBlob(c.traitMethods) && FitsBlob(c.traitSignals) && FitsBlob(c.signals)
  }

  predicate Fits(cs: seq<Class>) {
    |cs| < TWO32 && forall k :: 0 <= k < |cs| ==> FitsClass(cs[k])
  }

  // ----- each piece reads back, or fails when cut -----

  lemma FieldReads(b: Bytes, at: nat, f: Field)
    requires FitsField(f) && Follows(b, at, EncField(f))
    ensures ReadField((), b, at) == Taken(b, at, EncField(f), KeepField(f, 0))
  {
    hide LE, Follows, Text, EncText, I32, Unsigned32;
    TextThen(b, at, f.name, LE(Unsigned32(f.typ), 4));
    var a := at + |EncText(f.name)|;
    if a <= |b| {
      I32Reads(b, a, f.typ);
    }
  }

  lemma FieldsRead(b: Bytes, at: nat, fs: seq<Field>)
    requires FitsFields(fs) && Follows(b, at, EncCounted(EncField, fs))
    ensures Counted(ReadField, b, at) == Taken(b, at, EncCounted(EncField, fs), KeepFieldsOf(fs, 0))
  {
    forall k | 0 <= k < |fs|
      ensures EncField(fs[k]) != []
    {
      assert |EncText(fs[k].name)| >= 4;
    }
    hide ReadField, FitsField, EncField, Follows, Counted, EncCounted;
    forall k: nat, a: nat | k < |fs| && Follows(b, a, EncField(fs[k]))
      ensures ReadField((), b, a) == Taken(b, a, EncField(fs[k]), KeepFieldsOf(fs, 0)[k])
    {
      FieldReads(b, a, fs[k]);
    }
    CountedReads(ReadField, EncField, fs, KeepFieldsOf(fs, 0), b, at);
  }

  lemma MethodReads(b: Bytes, at: nat, m: Method)
    requires |m.name| < TWO32 && Follows(b, at, EncMethod(m))
    ensures ReadMethod((), b, at) == Taken(b, at, EncMethod(m), m)
  {
    hide Follows, Text, EncText, Loose, Flag;
    TextThen(b, at, m.name, EncFlag(m.isStatic));
    var a := at + |EncText(m.name)|;
    if a <= |b| {
      FlagReads(b, a, m.isStatic);
    }
  }

  lemma MethodsRead(b: Bytes, at: nat, ms: seq<Method>)
    requires FitsMethods(ms) && Follows(b, at, EncCounted(EncMethod, ms))
    ensures Counted(ReadMethod, b, at) == Taken(b, at, EncCounted(EncMethod, ms), ms)
  {
    forall k | 0 <= k < |ms|
      ensures EncMethod(ms[k]) != []
    {
      assert |EncText(ms[k].name)| >= 4;
    }
    hide ReadMethod, EncMethod, Follows, Counted, EncCounted;
    forall k: nat, a: nat | k < |ms| && Follows(b, a, EncMethod(ms[k]))
      ensures ReadMethod((), b, a) == Taken(b, a, EncMethod(ms[k]), ms[k])
    {
      MethodReads(b, a, ms[k]);
    }
    CountedReads(ReadMethod, EncMethod, ms, ms, b, at);
  }

  lemma RecordReads(b: Bytes, at: nat, c: Class)
    requires FitsClass(c) && Follows(b, at, EncRecord(c))
    ensures ReadRecord((), b, at) == Taken(b, at, EncRecord(c), KeepClass(c, 0))
  {
    hide LE, Follows, Text, EncText, I32, Unsigned32, Counted, EncCounted, FitsBlob, FitsFields, FitsMethods, FitsUses,
      KeepField, KeepFieldsOf;
    var r5 := EncCounted(EncMethod, c.methods);
    var r4 := EncCounted(EncField, c.fields) + r5;
    var r3 := LE(Unsigned32(c.line), 4) + r4;
    var r2 := EncText(c.nativeBase) + r3;
    TextThen(b, at, c.name, EncText(c.baseName) + r2);
    var a1 := at + |EncText(c.name)|;
    if a1 <= |b| {
      TextThen(b, a1, c.baseName, r2);
    }
    var a2 := a1 + |EncText(c.baseName)|;
    if a2 <= |b| {
      TextThen(b, a2, c.nativeBase, r3);
    }
    var a3 := a2 + |EncText(c.nativeBase)|;
    if a3 <= |b| {
      I32Then(b, a3, c.line, r4);
    }
    if a3 + 4 <= |b| {
      FollowsSplit(b, a3 + 4, EncCounted(EncField, c.fields), r5);
      FieldsRead(b, a3 + 4, c.fields);
    }
    var a4 := a3 + 4 + |EncCounted(EncField, c.fields)|;
    if a4 <= |b| {
      MethodsRead(b, a4, c.methods);
    }
  }

  lemma FieldDocReads(b: Bytes, at: nat, f: Field)
    requires FitsField(f) && Follows(b, at, EncFieldDoc(f))
    ensures ReadFieldDoc(KeepField(f, 0), b, at) == Taken(b, at, EncFieldDoc(f), KeepField(f, 1))
  {
    hide Follows, Text, EncText;
    TextThen(b, at, f.className, EncText(f.description));
    var a := at + |EncText(f.className)|;
    if a <= |b| {
      TextReads(b, a, f.description);
    }
  }

  lemma FieldDocsRead(b: Bytes, at: nat, fs: seq<Field>)
    requires FitsFields(fs) && Follows(b, at, EncodeEach(EncFieldDoc, fs))
    ensures Many(ReadFieldDoc, KeepFieldsOf(fs, 0), b, at) ==
      Taken(b, at, EncodeEach(EncFieldDoc, fs), KeepFieldsOf(fs, 1))
  {
    hide ReadFieldDoc, FitsField, EncFieldDoc, Follows, KeepField;
    forall k: nat, a: nat | k < |fs| && Follows(b, a, EncFieldDoc(fs[k]))
      ensures ReadFieldDoc(KeepFieldsOf(fs, 0)[k], b, a) == Taken(b, a, EncFieldDoc(fs[k]), KeepFieldsOf(fs, 1)[k])
    {
      FieldDocReads(b, a, fs[k]);
    }
    ManyReads(ReadFieldDoc, KeepFieldsOf(fs, 0), EncFieldDoc, fs, KeepFieldsOf(fs, 1), b, at);
  }

  lemma FieldCount(fs: seq<Field>)
    requires FitsFields(fs)
    ensures |fs| < TWO32
  {
  }

  lemma DocReads(b: Bytes, at: nat, c: Class)
    requires FitsClass(c) && Follows(b, at, EncDoc(c))
    ensures ReadDoc(KeepClass(c, 0), b, at) == Taken(b, at, EncDoc(c), KeepClass(c, 1))
  {
    hide U, LE, Follows, Text, EncText, Flag, Loose, Many, EncodeEach, FitsBlob, FitsFields, FitsMethods, FitsUses,
      KeepField;
    Widths();
    FieldCount(c.fields);
    var r := EncodeEach(EncFieldDoc, c.fields);
    FlagThen(b, at, c.isStruct, EncText(c.description) + (LE(|c.fields|, 4) + r));
    if at + 1 <= |b| {
      TextThen(b, at + 1, c.description, LE(|c.fields|, 4) + r);
    }
    var a := at + 1 + |EncText(c.description)|;
    if a <= |b| {
      UThen(b, a, |c.fields|, 4, r);
    }
    if a + 4 <= |b| {
      FieldDocsRead(b, a + 4, c.fields);
    }
  }

  lemma {:induction false} BlobReads(b: Bytes, at: nat, sigs: seq<F.Signature>)
    requires FitsBlob(sigs) && Follows(b, at, EncBlob(sigs))
    ensures ReadBlob(b, at) == Taken(b, at, EncBlob(sigs), Nested(sigs))
  {
    hide U, LE, Follows, F.Encode, F.Decode, F.Fits, F.Keep;
    Widths();
    var e := F.Encode(sigs);
    UThen(b, at, |e|, 4, e);
    if at + 4 + |e| <= |b| {
      Whole(b, at + 4, e);
      F.WholeDecodes(sigs);
    }
  }

  lemma TraitFieldReads(b: Bytes, at: nat, f: Field)
    requires FitsField(f) && Follows(b, at, EncTraitField(f))
    ensures ReadTraitField((), b, at) == Taken(b, at, EncTraitField(f), f)
  {
    hide LE, Follows, Text, EncText, I32, Unsigned32;
    var r3 := EncText(f.description);
    var r2 := EncText(f.className) + r3;
    TextThen(b, at, f.name, LE(Unsigned32(f.typ), 4) + r2);
    var a := at + |EncText(f.name)|;
    if a <= |b| {
      I32Then(b, a, f.typ, r2);
    }
    if a + 4 <= |b| {
      TextThen(b, a + 4, f.className, r3);
    }
    var a' := a + 4 + |EncText(f.className)|;
    if a' <= |b| {
      TextReads(b, a', f.description);
    }
  }

  lemma TraitFieldsRead(b: Bytes, at: nat, fs: seq<Field>)
    requires FitsFields(fs) && Follows(b, at, EncCounted(EncTraitField, fs))
    ensures Counted(ReadTraitField, b, at) == Taken(b, at, EncCounted(EncTraitField, fs), fs)
  {
    forall k | 0 <= k < |fs|
      ensures EncTraitField(fs[k]) != []
    {
      assert |EncText(fs[k].name)| >= 4;
    }
    hide ReadTraitField, FitsField, EncTraitField, Follows, Counted, EncCounted;
    forall k: nat, a: nat | k < |fs| && Follows(b, a, EncTraitField(fs[k]))
      ensures ReadTraitField((), b, a) == Taken(b, a, EncTraitField(fs[k]), fs[k])
    {
      TraitFieldReads(b, a, fs[k]);
    }
    CountedReads(ReadTraitField, EncTraitField, fs, fs, b, at);
  }

  lemma UsesRead(b: Bytes, at: nat, us: seq<Bytes>)
    requires FitsUses(us) && Follows(b, at, EncCounted(EncText, us))
    ensures Counted(ReadUse, b, at) == Taken(b, at, EncCounted(EncText, us), us)
  {
    hide Text, Follows, Counted, EncCounted;
    forall k: nat, a: nat | k < |us| && Follows(b, a, EncText(us[k]))
      ensures ReadUse((), b, a) == Taken(b, a, EncText(us[k]), us[k])
    {
      TextReads(b, a, us[k]);
    }
    CountedReads(ReadUse, EncText, us, us, b, at);
  }

  lemma TraitReads(b: Bytes, at: nat, c: Class)
    requires FitsClass(c) && Follows(b, at, EncTrait(c))
    ensures ReadTrait(KeepClass(c, 1), b, at) == Taken(b, at, EncTrait(c), KeepClass(c, 2))
  {
    hide Follows, Flag, Loose, Counted, EncCounted, ReadBlob, EncBlob, FitsBlob, FitsFields, FitsMethods, FitsUses,
      Nested;
    var r4 := EncBlob(c.traitSignals);
    var r3 := EncCounted(EncTraitField, c.traitFields) + r4;
    var r2 := EncBlob(c.traitMethods) + r3;
    FlagThen(b, at, c.isTrait, EncCounted(EncText, c.uses) + r2);
    if at + 1 <= |b| {
      FollowsSplit(b, at + 1, EncCounted(EncText, c.uses), r2);
      UsesRead(b, at + 1, c.uses);
    }
    var a1 := at + 1 + |EncCounted(EncText, c.uses)|;
    if a1 <= |b| {
      FollowsSplit(b, a1, EncBlob(c.traitMethods), r3);
      BlobReads(b, a1, c.traitMethods);
    }
    var a2 := a1 + |EncBlob(c.traitMethods)|;
    if a2 <= |b| {
      FollowsSplit(b, a2, EncCounted(EncTraitField, c.traitFields), r4);
      TraitFieldsRead(b, a2, c.traitFields);
    }
    var a3 := a2 + |EncCounted(EncTraitField, c.traitFields)|;
    if a3 <= |b| {
      BlobReads(b, a3, c.traitSignals);
    }
    assert KeepFieldsOf(c.fields, 1) == KeepFieldsOf(c.fields, 2);
  }

  lemma SignalsRead(b: Bytes, at: nat, c: Class)
    requires FitsClass(c) && Follows(b, at, EncSignals(c))
    ensures ReadSignals(KeepClass(c, 2), b, at) == Taken(b, at, EncSignals(c), KeepClass(c, 3))
  {
    hide Follows, ReadBlob, EncBlob, FitsBlob, FitsFields, FitsMethods, FitsUses, Nested;
    BlobReads(b, at, c.signals);
    assert KeepFieldsOf(c.fields, 2) == KeepFieldsOf(c.fields, 3);
  }

  // ----- sections -----

  lemma LegacyReads(b: Bytes, cs: seq<Class>)
    requires Fits(cs) && Follows(b, 0, EncLegacy(cs))
    ensures Counted(ReadRecord, b, 0) == Taken(b, 0, EncLegacy(cs), Keep(cs, 0))
  {
    forall k | 0 <= k < |cs|
      ensures EncRecord(cs[k]) != []
    {
      assert |EncText(cs[k].name)| >= 4;
    }
    hide ReadRecord, EncRecord, Follows, FitsClass, KeepClass, Counted, EncCounted;
    forall k: nat, a: nat | k < |cs| && Follows(b, a, EncRecord(cs[k]))
      ensures ReadRecord((), b, a) == Taken(b, a, EncRecord(cs[k]), Keep(cs, 0)[k])
    {
      RecordReads(b, a, cs[k]);
    }
    CountedReads(ReadRecord, EncRecord, cs, Keep(cs, 0), b, 0);
  }

  lemma SdocReads(b: Bytes, at: nat, cs: seq<Class>)
    requires Fits(cs) && Follows(b, at, EncSection(SDOC, EncDoc, cs))
    ensures ReadSection(SDOC, ReadDoc, Keep(cs, 0), b, at) == Taken(b, at, EncSection(SDOC, EncDoc, cs), Keep(cs, 1))
  {
    hide Follows, KeepClass, ReadDoc, EncDoc, ReadSection, EncSection, FitsClass;
    forall k: nat, a: nat | k < |cs| && Follows(b, a, EncDoc(cs[k]))
      ensures ReadDoc(Keep(cs, 0)[k], b, a) == Taken(b, a, EncDoc(cs[k]), Keep(cs, 1)[k])
    {
      DocReads(b, a, cs[k]);
    }
    SectionReads(SDOC, ReadDoc, Keep(cs, 0), EncDoc, cs, Keep(cs, 1), b, at);
  }

  lemma TratReads(b: Bytes, at: nat, cs: seq<Class>)
    requires Fits(cs) && Follows(b, at, EncSection(TRAT, EncTrait, cs))
    ensures ReadSection(TRAT, ReadTrait, Keep(cs, 1), b, at) ==
      Taken(b, at, EncSection(TRAT, EncTrait, cs), Keep(cs, 2))
  {
    hide Follows, KeepClass, ReadTrait, EncTrait, ReadSection, EncSection, FitsClass;
    forall k: nat, a: nat | k < |cs| && Follows(b, a, EncTrait(cs[k]))
      ensures ReadTrait(Keep(cs, 1)[k], b, a) == Taken(b, a, EncTrait(cs[k]), Keep(cs, 2)[k])
    {
      TraitReads(b, a, cs[k]);
    }
    SectionReads(TRAT, ReadTrait, Keep(cs, 1), EncTrait, cs, Keep(cs, 2), b, at);
  }

  lemma CsigReads(b: Bytes, at: nat, cs: seq<Class>)
    requires Fits(cs) && Follows(b, at, EncSection(CSIG, EncSignals, cs))
    ensures ReadSection(CSIG, ReadSignals, Keep(cs, 2), b, at) ==
      Taken(b, at, EncSection(CSIG, EncSignals, cs), Keep(cs, 3))
  {
    hide Follows, KeepClass, ReadSignals, EncSignals, ReadSection, EncSection, FitsClass;
    forall k: nat, a: nat | k < |cs| && Follows(b, a, EncSignals(cs[k]))
      ensures ReadSignals(Keep(cs, 2)[k], b, a) == Taken(b, a, EncSignals(cs[k]), Keep(cs, 3)[k])
    {
      SignalsRead(b, a, cs[k]);
    }
    SectionReads(CSIG, ReadSignals, Keep(cs, 2), EncSignals, cs, Keep(cs, 3), b, at);
  }

  // ----- the codec -----

  function Boundary(cs: seq<Class>, level: nat): nat
    requires level <= 2
  {
    var legacy := |EncLegacy(cs)|;
    if level == 0 then legacy
    else if level == 1 then legacy + |EncSection(SDOC, EncDoc, cs)|
    else legacy + |EncSection(SDOC, EncDoc, cs)| + |EncSection(TRAT, EncTrait, cs)|
  }

  lemma SectionsNonEmpty(cs: seq<Class>)
    ensures |EncSection(SDOC, EncDoc, cs)| >= 8 && |EncSection(TRAT, EncTrait, cs)| >= 8 &&
      |EncSection(CSIG, EncSignals, cs)| >= 8
  {
    hide LE, EncodeEach;
  }

  /** A strict prefix decodes exactly at a section boundary, to the fields published up to there. */
  lemma {:induction false} PrefixDecodes(cs: seq<Class>, n: nat)
    requires Fits(cs) && n <= |Encode(cs)|
    ensures Decode(Encode(cs)[..n]) ==
      if n == |Encode(cs)| then Some(Keep(cs, 3))
      else if n == Boundary(cs, 0) then Some(Keep(cs, 0))
      else if n == Boundary(cs, 1) then Some(Keep(cs, 1))
      else if n == Boundary(cs, 2) then Some(Keep(cs, 2))
      else None
  {
    hide Follows, ReadSection, EncSection, Counted, EncLegacy, KeepClass, FitsClass;
    var b := Encode(cs)[..n];
    var e1, e2, e3 := EncSection(SDOC, EncDoc, cs), EncSection(TRAT, EncTrait, cs), EncSection(CSIG, EncSignals, cs);
    PrefixFollows(Encode(cs), n);
    FollowsSplit(b, 0, EncLegacy(cs), e1 + (e2 + e3));
    LegacyReads(b, cs);
    SectionsNonEmpty(cs);
    if Boundary(cs, 0) <= n {
      FollowsSplit(b, Boundary(cs, 0), e1, e2 + e3);
      SdocReads(b, Boundary(cs, 0), cs);
    }
    if Boundary(cs, 1) <= n {
      FollowsSplit(b, Boundary(cs, 1), e2, e3);
      TratReads(b, Boundary(cs, 1), cs);
    }
    if Boundary(cs, 2) <= n {
      CsigReads(b, Boundary(cs, 2), cs);
    }
  }

  predicate RequiredInRange(c: Class) {
    F.RequiredInRange(c.traitMethods) && F.RequiredInRange(c.traitSignals) && F.RequiredInRange(c.signals)
  }

  lemma KeptExactly(c: Class)
    ensures KeepClass(c, 3) == c <==> RequiredInRange(c)
  {
    hide F.Keep, F.RequiredInRange;
    assert KeepFieldsOf(c.fields, 3) == c.fields;
    F.KeptExactly(c.traitMethods);
    F.KeptExactly(c.traitSignals);
    F.KeptExactly(c.signals);
  }

  /** Every class comes back exactly when no nested function requires more arguments than it has parameters. */
  lemma {:induction false} RoundTrip(cs: seq<Class>)
    requires Fits(cs)
    ensures Decode(Encode(cs)) == Some(cs) <==> forall k :: 0 <= k < |cs| ==> RequiredInRange(cs[k])
  {
    hide Decode, Encode, Fits, KeepClass, RequiredInRange;
    PrefixDecodes(cs, |Encode(cs)|);
    assert Encode(cs)[..|Encode(cs)|] == Encode(cs);
    forall k | 0 <= k < |cs|
      ensures Keep(cs, 3)[k] == cs[k] <==> RequiredInRange(cs[k])
    {
      KeptExactly(cs[k]);
    }
    assert Keep(cs, 3) == cs <==> forall k :: 0 <= k < |cs| ==> Keep(cs, 3)[k] == cs[k];
  }

  // ----- the encoder -----

  method EncodeClasses(cs: seq<Class>) returns (out: Bytes)
    ensures out == Encode(cs)
    ensures Fits(cs) && (forall k :: 0 <= k < |cs| ==> RequiredInRange(cs[k])) ==> Decode(out) == Some(cs)
  {
    hide LE, EncodeEach, EncSection, Decode, Fits, RequiredInRange;
    out := WriteEach(LE(|cs|, 4), EncRecord, cs);
    out := WriteSection(out, SDOC, EncDoc, cs);
    out := WriteSection(out, TRAT, EncTrait, cs);
    out := WriteSection(out, CSIG, EncSignals, cs);
    assert out == Encode(cs);
    if Fits(cs) {
      RoundTrip(cs);
    }
  }

  // ----- the decoder -----

  method TakeFields(reader: Reader, count: nat) returns (out: seq<Field>)
    requires reader.Valid() && reader.ok
    modifies reader
    ensures reader.Holds(Many(ReadField, Units(count), reader.data, old(reader.offset)), out)
  {
    hide Many, Text, I32, Units;
    out := [];
    ghost var b, at := reader.data, reader.offset;
    ManyNone(ReadField, Units(count), b, at);
    for k := 0 to count
      invariant reader.Holds(Many(ReadField, Units(count)[..k], b, at), out)
    {
      assert Units(count)[k] == ();
      ManyNext(ReadField, Units(count), b, at, k);
      var name := reader.String();
      var typ := reader.Signed();
      out := out + [Field(name, typ, [], [])];
    }
    assert Units(count)[..count] == Units(count);
  }

  method TakeMethods(reader: Reader, count: nat) returns (out: seq<Method>)
    requires reader.Valid() && reader.ok
    modifies reader
    ensures reader.Holds(Many(ReadMethod, Units(count), reader.data, old(reader.offset)), out)
  {
    hide Many, Text, Loose, Units;
    out := [];
    ghost var b, at := reader.data, reader.offset;
    ManyNone(ReadMethod, Units(count), b, at);
    for k := 0 to count
      invariant reader.Holds(Many(ReadMethod, Units(count)[..k], b, at), out)
    {
      assert Units(count)[k] == ();
      ManyNext(ReadMethod, Units(count), b, at, k);
      var name := reader.String();
      var isStatic := reader.Lenient();
      out := out + [Method(name, isStatic)];
    }
    assert Units(count)[..count] == Units(count);
  }

  /** `bad` is the early exit of the decoder. */
  method TakeRecord(reader: Reader) returns (c: Class, bad: bool)
    requires reader.Valid()
    modifies reader
    ensures reader.Valid()
    ensures !bad ==> old(reader.ok) && reader.Holds(ReadRecord((), reader.data, old(reader.offset)), c)
    ensures bad ==> !old(reader.ok) || ReadRecord((), reader.data, old(reader.offset)).None?
  {
    hide U, Text, I32, Many, Units;
    c, bad := Class([], [], [], 0, [], [], false, [], false, [], [], [], [], []), true;
    var name := reader.String();
    var baseName := reader.String();
    var nativeBase := reader.String();
    var line := reader.Signed();
    var count := reader.Scalar(4);
    if !reader.ok || count > |reader.data| {
      return;
    }
    var fields := TakeFields(reader, count);
    count := reader.Scalar(4);
    if !reader.ok || count > |reader.data| {
      return;
    }
    var methods := TakeMethods(reader, count);
    c, bad := Class(name, baseName, nativeBase, line, fields, methods, false, [], false, [], [], [], [], []), false;
  }

  method TakeRecords(reader: Reader, count: nat) returns (out: seq<Class>, bad: bool)
    requires reader.Valid() && reader.ok
    modifies reader
    ensures reader.Valid()
    ensures !bad ==> reader.Holds(Many(ReadRecord, Units(count), reader.data, old(reader.offset)), out)
    ensures bad ==> Many(ReadRecord, Units(count), reader.data, old(reader.offset)).None?
  {
    hide Many, ReadRecord, Units;
    out, bad := [], false;
    ghost var b, at := reader.data, reader.offset;
    ManyNone(ReadRecord, Units(count), b, at);
    for k := 0 to count
      invariant !bad && reader.Holds(Many(ReadRecord, Units(count)[..k], b, at), out)
    {
      var c;
      assert Units(count)[k] == ();
      c, bad := TakeRecord(reader);
      ManyNext(ReadRecord, Units(count), b, at, k);
      if bad {
        ManyPrefix(ReadRecord, Units(count), b, at, k + 1);
        return;
      }
      out := out + [c];
    }
    assert Units(count)[..count] == Units(count);
  }

  method TakeFieldDocs(reader: Reader, fields: seq<Field>) returns (out: seq<Field>)
    requires reader.Valid() && reader.ok
    modifies reader
    ensures reader.Holds(Many(ReadFieldDoc, fields, reader.data, old(reader.offset)), out)
  {
    hide Many, Text;
    out := fields;
    ghost var b, at := reader.data, reader.offset;
    ManyNone(ReadFieldDoc, fields, b, at);
    for k := 0 to |fields|
      invariant |out| == |fields| && out[k..] == fields[k..]
      invariant reader.Holds(Many(ReadFieldDoc, fields[..k], b, at), out[..k])
    {
      var className := reader.String();
      var description := reader.String();
      ManyNext(ReadFieldDoc, fields, b, at, k);
      var f := out[k].(className := className, description := description);
      Replaced(out, fields, k, f);
      out := out[k := f];
    }
    assert fields[..|fields|] == fields && out[..|fields|] == out;
  }

  method TakeDoc(reader: Reader, c: Class) returns (c': Class, bad: bool)
    requires reader.Valid()
    modifies reader
    ensures reader.Valid()
    ensures !bad ==> old(reader.ok) && reader.Holds(ReadDoc(c, reader.data, old(reader.offset)), c')
    ensures bad ==> !old(reader.ok) || ReadDoc(c, reader.data, old(reader.offset)).None?
  {
    hide Many, U, Text, ReadFieldDoc;
    c', bad := c, true;
    var kind := reader.Scalar(1);
    if kind > 1 {
      return;
    }
    var description := reader.String();
    var count := reader.Scalar(4);
    if !reader.ok || count != |c.fields| {
      return;
    }
    var fields := TakeFieldDocs(reader, c.fields);
    c', bad := c.(isStruct := kind != 0, description := description, fields := fields), false;
  }

  method TakeDocs(reader: Reader, cs: seq<Class>) returns (out: seq<Class>, bad: bool)
    requires reader.Valid() && reader.ok
    modifies reader
    ensures reader.Valid()
    ensures !bad ==> reader.Holds(ReadSection(SDOC, ReadDoc, cs, reader.data, old(reader.offset)), out)
    ensures bad ==> ReadSection(SDOC, ReadDoc, cs, reader.data, old(reader.offset)).None?
  {
    hide Many, U, ReadDoc;
    out, bad := cs, true;
    ghost var b := reader.data;
    var magic := reader.Scalar(4);
    if magic != SDOC {
      return;
    }
    var count := reader.Scalar(4);
    if !reader.ok || count != |cs| {
      return;
    }
    ghost var at := reader.offset;
    ManyNone(ReadDoc, cs, b, at);
    for k := 0 to |cs|
      invariant |out| == |cs| && out[k..] == cs[k..]
      invariant reader.Holds(Many(ReadDoc, cs[..k], b, at), out[..k])
    {
      var c;
      Replaced(out, cs, k, out[k]);
      c, bad := TakeDoc(reader, out[k]);
      ManyNext(ReadDoc, cs, b, at, k);
      if bad {
        ManyPrefix(ReadDoc, cs, b, at, k + 1);
        return;
      }
      Replaced(out, cs, k, c);
      out := out[k := c];
    }
    bad := false;
    assert cs[..|cs|] == cs && out[..|cs|] == out;
  }

  method TakeUses(reader: Reader, count: nat) returns (out: seq<Bytes>)
    requires reader.Valid() && reader.ok
    modifies reader
    ensures reader.Holds(Many(ReadUse, Units(count), reader.data, old(reader.offset)), out)
  {
    hide Many, Text, Units;
    out := [];
    ghost var b, at := reader.data, reader.offset;
    ManyNone(ReadUse, Units(count), b, at);
    for k := 0 to count
      invariant reader.Holds(Many(ReadUse, Units(count)[..k], b, at), out)
    {
      assert Units(count)[k] == ();
      ManyNext(ReadUse, Units(count), b, at, k);
      var name := reader.String();
      out := out + [name];
    }
    assert Units(count)[..count] == Units(count);
  }

  method TakeTraitFields(reader: Reader, count: nat) returns (out: seq<Field>)
    requires reader.Valid() && reader.ok
    modifies reader
    ensures reader.Holds(Many(ReadTraitField, Units(count), reader.data, old(reader.offset)), out)
  {
    hide Many, Text, I32, Units;
    out := [];
    ghost var b, at := reader.data, reader.offset;
    ManyNone(ReadTraitField, Units(count), b, at);
    for k := 0 to count
      invariant reader.Holds(Many(ReadTraitField, Units(count)[..k], b, at), out)
    {
      assert Units(count)[k] == ();
      ManyNext(ReadTraitField, Units(count), b, at, k);
      var name := reader.String();
      var typ := reader.Signed();
      var className := reader.String();
      var description := reader.String();
      out := out + [Field(name, typ, className, description)];
    }
    assert Units(count)[..count] == Units(count);
  }

  /** The nested blob is decoded by the function-signature decoder, on exactly its own bytes. */
  method TakeBlob(reader: Reader) returns (sigs: seq<F.Signature>, bad: bool)
    requires reader.Valid()
    modifies reader
    ensures reader.Valid()
    ensures !bad ==> old(reader.ok) && reader.Holds(ReadBlob(reader.data, old(reader.offset)), sigs) && reader.ok
    ensures bad ==> !old(reader.ok) || ReadBlob(reader.data, old(reader.offset)).None?
  {
    hide U, F.Decode;
    sigs, bad := [], true;
    var size := reader.Scalar(4);
    if !reader.ok || reader.offset + size > |reader.data| {
      return;
    }
    var ok;
    ok, sigs := F.DecodeSignatures(reader.data[reader.offset..reader.offset + size]);
    if !ok {
      return;
    }
    reader.offset := reader.offset + size;
    bad := false;
  }

  method TakeTrait(reader: Reader, c: Class) returns (c': Class, bad: bool)
    requires reader.Valid()
    modifies reader
    ensures reader.Valid()
    ensures !bad ==> old(reader.ok) && reader.Holds(ReadTrait(c, reader.data, old(reader.offset)), c') && reader.ok
    ensures bad ==> !old(reader.ok) || ReadTrait(c, reader.data, old(reader.offset)).None?
  {
    hide Many, U, Units, ReadBlob, ReadUse, ReadTraitField;
    c', bad := c, true;
    var kind := reader.Scalar(1);
    var count := reader.Scalar(4);
    if !reader.ok || kind > 1 || count > |reader.data| {
      return;
    }
    var uses := TakeUses(reader, count);
    var methods, failed := TakeBlob(reader);
    if failed {
      return;
    }
    count := reader.Scalar(4);
    if !reader.ok || count > |reader.data| {
      return;
    }
    var fields := TakeTraitFields(reader, count);
    var signals;
    signals, failed := TakeBlob(reader);
    if failed {
      return;
    }
    c' := c.(isTrait := kind != 0, uses := uses, traitMethods := methods, traitFields := fields,
      traitSignals := signals);
    bad := false;
  }

  method TakeTraits(reader: Reader, cs: seq<Class>) returns (out: seq<Class>, bad: bool)
    requires reader.Valid() && reader.ok
    modifies reader
    ensures reader.Valid()
    ensures !bad ==> reader.Holds(ReadSection(TRAT, ReadTrait, cs, reader.data, old(reader.offset)), out) && reader.ok
    ensures bad ==> ReadSection(TRAT, ReadTrait, cs, reader.data, old(reader.offset)).None?
  {
    hide Many, U, ReadTrait;
    out, bad := cs, true;
    ghost var b := reader.data;
    var magic := reader.Scalar(4);
    if magic != TRAT {
      return;
    }
    var count := reader.Scalar(4);
    if !reader.ok || count != |cs| {
      return;
    }
    ghost var at := reader.offset;
    ManyNone(ReadTrait, cs, b, at);
    for k := 0 to |cs|
      invariant |out| == |cs| && out[k..] == cs[k..]
      invariant reader.Holds(Many(ReadTrait, cs[..k], b, at), out[..k]) && reader.ok
    {
      var c;
      Replaced(out, cs, k, out[k]);
      c, bad := TakeTrait(reader, out[k]);
      ManyNext(ReadTrait, cs, b, at, k);
      if bad {
        ManyPrefix(ReadTrait, cs, b, at, k + 1);
        return;
      }
      Replaced(out, cs, k, c);
      out := out[k := c];
    }
    bad := false;
    assert cs[..|cs|] == cs && out[..|cs|] == out;
  }

  method TakeSignals(reader: Reader, cs: seq<Class>) returns (out: seq<Class>, bad: bool)
    requires reader.Valid() && reader.ok
    modifies reader
    ensures reader.Valid()
    ensures !bad ==> reader.Holds(ReadSection(CSIG, ReadSignals, cs, reader.data, old(reader.offset)), out)
    ensures bad ==> ReadSection(CSIG, ReadSignals, cs, reader.data, old(reader.offset)).None?
  {
    hide Many, U, ReadBlob;
    out, bad := cs, true;
    ghost var b := reader.data;
    var magic := reader.Scalar(4);
    if magic != CSIG {
      return;
    }
    var count := reader.Scalar(4);
    if count != |cs| {
      return;
    }
    ghost var at, began := reader.offset, reader.ok;
    ManyNone(ReadSignals, cs, b, at);
    for k := 0 to |cs|
      invariant |out| == |cs| && out[k..] == cs[k..]
      invariant began ==> reader.Holds(Many(ReadSignals, cs[..k], b, at), out[..k])
      invariant !began ==> !reader.ok && reader.Valid()
    {
      var signals;
      signals, bad := TakeBlob(reader);
      ManyNext(ReadSignals, cs, b, at, k);
      if bad {
        ManyPrefix(ReadSignals, cs, b, at, k + 1);
        return;
      }
      Replaced(out, cs, k, out[k].(signals := signals));
      out := out[k := out[k].(signals := signals)];
    }
    bad := false;
    assert cs[..|cs|] == cs && out[..|cs|] == out;
  }

  method DecodeClasses(data: Bytes) returns (ok: bool, out: seq<Class>)
    ensures ok <==> Decode(data).Some?
    ensures out == if ok then Decode(data).value else []
  {
    hide U, Many, ReadSection, ReadRecord, Units;
    ok, out := false, [];
    var reader := new Reader(data);
    var count := reader.Scalar(4);
    if !reader.ok || count > |data| {
      return;
    }
    var cs, bad := TakeRecords(reader, count);
    if bad || !reader.ok {
      return;
    }
    if reader.offset == |data| {
      return true, cs;
    }
    cs, bad := TakeDocs(reader, cs);
    if bad || !reader.ok {
      return;
    }
    if reader.offset == |data| {
      return true, cs;
    }
    cs, bad := TakeTraits(reader, cs);
    if bad {
      return;
    }
    if reader.ok && reader.offset == |data| {
      return true, cs;
    }
    cs, bad := TakeSignals(reader, cs);
    if bad || !reader.ok || reader.offset != |data| {
      return;
    }
    return true, cs;
  }
}
