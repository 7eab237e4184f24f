/**
 The debug-variable blob. Unlike the signature blobs it is canonical: apart from the ignored
 minor version, an accepted blob is byte for byte the encoding of what it decodes to.
 */
module DebugCodec {
  import opened Int64
  import opened Options
  import opened Wire

  const MAGIC := 0x52415644
  const MAJOR := 1
  const MAX_RECORDS := 100000
  const MAX_STRING := 1024 * 1024
  const MAX_BLOB := 16 * 1024 * 1024

  datatype Storage = Frame | Member | Global

  datatype Record = Record(functionIndex: nat, name: Bytes, typ: int, storage: Storage, offset: int, pcBegin: nat,
                           pcEnd: nat)

  function StorageCode(s: Storage): nat {
    match s
    case Frame => 0
    case Member => 1
    case Global => 2
  }

  // ----- encoding -----

  function EncRecord(r: Record): Bytes {
    LE(r.functionIndex, 4) + (EncText(r.name) + (LE(Unsigned32(r.typ), 4) + (LE(StorageCode(r.storage), 1) +
      (LE(Unsigned32(r.offset), 4) + (LE(r.pcBegin, 8) + LE(r.pcEnd, 8))))))
  }

  /** A blob with a given minor version; the encoder writes 0. */
  function EncodeAs(rs: seq<Record>, minor: nat): Bytes {
    LE(MAGIC, 4) + (LE(MAJOR, 2) + (LE(minor, 2) + EncCounted(EncRecord, rs)))
  }

  function Encode(rs: seq<Record>): Bytes {
    EncodeAs(rs, 0)
  }

  // ----- decoding -----

  function Name(b: Bytes, at: nat): Parsed<Bytes> {
    var (n, a) :- U(b, at, 4);
    if n > MAX_STRING || a + n > |b| then None else Some((b[a..a + n], a + n))
  }

  /** What the decoder insists on. */
  predicate Sound(r: Record) {
    && r.functionIndex < TWO32 && 0 < |r.name| <= MAX_STRING
    && -1 <= r.typ <= 64 && 0 <= r.offset < 0x8000_0000
    && r.pcBegin <= r.pcEnd < TWO64
  }

  function StorageOf(code: nat): Storage
    requires code <= 2
  {
    if code == 0 then Frame else if code == 1 then Member else Global
  }

  function ReadRecord(u: (), b: Bytes, at: nat): Parsed<Record> {
    var (functionIndex, a1) :- U(b, at, 4);
    var (name, a2) :- Name(b, a1);
    var (typ, a3) :- I32(b, a2);
    var (code, a4) :- U(b, a3, 1);
    var (offset, a5) :- I32(b, a4);
    var (pcBegin, a6) :- U(b, a5, 8);
    var (pcEnd, a7) :- U(b, a6, 8);
    if name == [] || code > 2 || typ < -1 || typ > 64 || offset < 0 || pcBegin > pcEnd then None
    else Some((Record(functionIndex, name, typ, StorageOf(code), offset, pcBegin, pcEnd), a7))
  }

  function ReadHeader(b: Bytes): Parsed<nat> {
    var (magic, a1) :- U(b, 0, 4);
    if magic != MAGIC then None
    else
      var (major, a2) :- U(b, a1, 2);
      if major != MAJOR then None
      else
        var (minor, a3) :- U(b, a2, 2);
        var (count, a4) :- U(b, a3, 4);
        if count > MAX_RECORDS || count > |b| then None else Some((count, a4))
  }

  function Decode(b: Bytes): Option<seq<Record>> {
    if |b| > MAX_BLOB then None
    else
      var (count, a) :- ReadHeader(b);
      var (rs, end) :- Many(ReadRecord, Units(count), b, a);
      if end == |b| then Some(rs) else None
  }

  // ----- reading what was written -----

  lemma NameReads(b: Bytes, at: nat, s: Bytes, rest: Bytes)
    requires |s| <= MAX_STRING && Follows(b, at, EncText(s) + rest)
    ensures Name(b, at) == Taken(b, at, EncText(s), s)
    ensures at + |EncText(s)| <= |b| ==> Follows(b, at + |EncText(s)|, rest)
  {
    hide Follows, LE;
    Widths();
    FollowsSplit(b, at, EncText(s), rest);
    FollowsSplit(b, at, LE(|s|, 4), s);
    UReads(b, at, |s|, 4);
    if at + 4 + |s| <= |b| {
      Whole(b, at + 4, s);
    }
  }

  lemma RecordReads(b: Bytes, at: nat, r: Record)
    requires Sound(r) && Follows(b, at, EncRecord(r))
    ensures ReadRecord((), b, at) == Taken(b, at, EncRecord(r), r)
  {
    hide LE, U, Follows, Name, EncText, I32, Unsigned32;
    Widths();
    var r6 := LE(r.pcEnd, 8);
    var r5 := LE(r.pcBegin, 8) + r6;
    var r4 := LE(Unsigned32(r.offset), 4) + r5;
    var r3 := LE(StorageCode(r.storage), 1) + r4;
    var r2 := LE(Unsigned32(r.typ), 4) + r3;
    UThen(b, at, r.functionIndex, 4, EncText(r.name) + r2);
    if at + 4 <= |b| {
      NameReads(b, at + 4, r.name, r2);
    }
    var a := at + 4 + |EncText(r.name)|;
    if a <= |b| {
      I32Then(b, a, r.typ, r3);
    }
    if a + 4 <= |b| {
      UThen(b, a + 4, StorageCode(r.storage), 1, r4);
    }
    if a + 5 <= |b| {
      I32Then(b, a + 5, r.offset, r5);
    }
    if a + 9 <= |b| {
      UThen(b, a + 9, r.pcBegin, 8, r6);
    }
    if a + 17 <= |b| {
      UReads(b, a + 17, r.pcEnd, 8);
    }
  }

  ghost predicate Limits(rs: seq<Record>) {
    |rs| <= MAX_RECORDS && forall k :: 0 <= k < |rs| ==> Sound(rs[k])
  }

  lemma RecordsRead(b: Bytes, at: nat, rs: seq<Record>)
    requires Limits(rs) && Follows(b, at, EncodeEach(EncRecord, rs))
    ensures Many(ReadRecord, Units(|rs|), b, at) == Taken(b, at, EncodeEach(EncRecord, rs), rs)
  {
    hide ReadRecord, EncRecord, Follows, Sound;
    forall k: nat, a: nat | k < |rs| && Follows(b, a, EncRecord(rs[k]))
      ensures ReadRecord(Units(|rs|)[k], b, a) == Taken(b, a, EncRecord(rs[k]), rs[k])
    {
      RecordReads(b, a, rs[k]);
    }
    ManyReads(ReadRecord, Units(|rs|), EncRecord, rs, rs, b, at);
  }

  lemma RecordsNonEmpty(rs: seq<Record>)
    ensures |rs| <= |EncodeEach(EncRecord, rs)|
  {
    forall k | 0 <= k < |rs|
      ensures EncRecord(rs[k]) != []
    {
      assert |LE(rs[k].functionIndex, 4)| == 4;
    }
    hide EncRecord;
    EachNonEmpty(EncRecord, rs);
  }

  lemma HeaderReads(b: Bytes, rs: seq<Record>, minor: nat)
    requires |rs| <= MAX_RECORDS && minor < 0x1_0000 && Follows(b, 0, EncodeAs(rs, minor))
    ensures 12 <= |b| && |rs| <= |b| ==> ReadHeader(b) == Some((|rs|, 12)) && Follows(b, 12, EncodeEach(EncRecord, rs))
    ensures |b| < 12 || |rs| > |b| ==> ReadHeader(b) == None
  {
    hide LE, U, Follows, EncodeEach;
    Widths();
    var r4 := EncodeEach(EncRecord, rs);
    var r3 := LE(|rs|, 4) + r4;
    var r2 := LE(minor, 2) + r3;
    UThen(b, 0, MAGIC, 4, LE(MAJOR, 2) + r2);
    if 4 <= |b| {
      UThen(b, 4, MAJOR, 2, r2);
    }
    if 6 <= |b| {
      UThen(b, 6, minor, 2, r3);
    }
    if 8 <= |b| {
      UThen(b, 8, |rs|, 4, r4);
    }
  }

  /** Whole blobs within the limits decode whatever their minor version; cut short they are rejected. */
  lemma {:induction false} PrefixDecodes(rs: seq<Record>, minor: nat, n: nat)
    requires Limits(rs) && minor < 0x1_0000 && |EncodeAs(rs, minor)| <= MAX_BLOB && n <= |EncodeAs(rs, minor)|
    ensures Decode(EncodeAs(rs, minor)[..n]) == if n == |EncodeAs(rs, minor)| then Some(rs) else None
  {
    hide Follows, Many, EncodeEach, ReadHeader, LE, Sound;
    var b := EncodeAs(rs, minor)[..n];
    PrefixFollows(EncodeAs(rs, minor), n);
    HeaderReads(b, rs, minor);
    RecordsNonEmpty(rs);
    if 12 <= |b| && |rs| <= |b| {
      RecordsRead(b, 12, rs);
    }
  }

  // ----- writing what was read -----

  lemma UWrites(b: Bytes, at: nat, n: nat)
    requires U(b, at, n).Some?
    ensures var (v, a) := U(b, at, n).value; a == at + n && v < Pow256(n) && LE(v, n) == b[at..a]
  {
    WritesWhatWasRead(b[at..at + n]);
  }

  lemma I32Writes(b: Bytes, at: nat)
    requires I32(b, at).Some?
    ensures var (v, a) := I32(b, at).value; a == at + 4 && In32(v) && LE(Unsigned32(v), 4) == b[at..a]
  {
    hide LE;
    Widths();
    UWrites(b, at, 4);
    Unsigned32Inverse(U(b, at, 4).value.0);
  }

  lemma NameWrites(b: Bytes, at: nat)
    requires Name(b, at).Some?
    ensures var (s, a) := Name(b, at).value; at <= a <= |b| && |s| <= MAX_STRING && EncText(s) == b[at..a]
  {
    hide LE;
    UWrites(b, at, 4);
    var (s, a) := Name(b, at).value;
    assert b[at..a] == b[at..at + 4] + b[at + 4..a];
  }

  lemma RecordWrites(b: Bytes, at: nat)
    requires ReadRecord((), b, at).Some?
    ensures var (r, a) := ReadRecord((), b, at).value; at <= a <= |b| && Sound(r) && EncRecord(r) == b[at..a]
  {
    hide LE, Name, I32, Unsigned32, EncText;
    Widths();
    UWrites(b, at, 4);
    NameWrites(b, at + 4);
    var a := Name(b, at + 4).value.1;
    I32Writes(b, a);
    UWrites(b, a + 4, 1);
    I32Writes(b, a + 5);
    UWrites(b, a + 9, 8);
    UWrites(b, a + 17, 8);
    Joined(b, [at, at + 4, a, a + 4, a + 5, a + 9, a + 17, a + 25]);
  }

  /** Seven adjacent slices make one. */
  lemma Joined(b: Bytes, c: seq<nat>)
    requires |c| == 8 && c[0] <= c[1] <= c[2] <= c[3] <= c[4] <= c[5] <= c[6] <= c[7] <= |b|
    ensures b[c[0]..c[7]] ==
      b[c[0]..c[1]] + (b[c[1]..c[2]] + (b[c[2]..c[3]] + (b[c[3]..c[4]] +
        (b[c[4]..c[5]] + (b[c[5]..c[6]] + b[c[6]..c[7]])))))
  {
    assert b[c[5]..c[7]] == b[c[5]..c[6]] + b[c[6]..c[7]];
    assert b[c[4]..c[7]] == b[c[4]..c[5]] + b[c[5]..c[7]];
    assert b[c[3]..c[7]] == b[c[3]..c[4]] + b[c[4]..c[7]];
    assert b[c[2]..c[7]] == b[c[2]..c[3]] + b[c[3]..c[7]];
    assert b[c[1]..c[7]] == b[c[1]..c[2]] + b[c[2]..c[7]];
    assert b[c[0]..c[7]] == b[c[0]..c[1]] + b[c[1]..c[7]];
  }

  lemma {:induction false} RecordsWrite(b: Bytes, at: nat, n: nat)
    requires at <= |b| && Many(ReadRecord, Units(n), b, at).Some?
    ensures var (rs, a) := Many(ReadRecord, Units(n), b, at).value;
      && at <= a <= |b| && EncodeEach(EncRecord, rs) == b[at..a]
      && forall k :: 0 <= k < |rs| ==> Sound(rs[k])
  {
    hide ReadRecord, EncRecord, Sound;
    if n == 0 {
      assert Units(0) == [];
    } else {
      assert Units(n)[..n - 1] == Units(n - 1) && Units(n)[n - 1] == ();
      RecordsWrite(b, at, n - 1);
      var (xs, a') := Many(ReadRecord, Units(n - 1), b, at).value;
      RecordWrites(b, a');
      var (rs, a) := Many(ReadRecord, Units(n), b, at).value;
      assert rs[..n - 1] == xs;
      assert b[at..a] == b[at..a'] + b[a'..a];
    }
  }

  /** An accepted blob is the encoding of its records, up to the minor version. */
  lemma {:induction false} AcceptedIsEncoded(b: Bytes)
    requires Decode(b).Some?
    ensures Limits(Decode(b).value) && FromLE(b[6..8]) < 0x1_0000
    ensures b == EncodeAs(Decode(b).value, FromLE(b[6..8]))
  {
    hide LE, Many, EncodeEach, Sound;
    Widths();
    UWrites(b, 0, 4);
    UWrites(b, 4, 2);
    UWrites(b, 6, 2);
    UWrites(b, 8, 4);
    RecordsWrite(b, 12, ReadHeader(b).value.0);
    Joined(b, [0, 4, 6, 8, 12, 12, 12, |b|]);
    assert b[0..|b|] == b;
  }

  /** The decoder accepts exactly the encodings, within the limits, of what it returns. */
  lemma {:induction false} DecodesExactly(b: Bytes, rs: seq<Record>)
    ensures Decode(b) == Some(rs) <==>
      Limits(rs) && |b| <= MAX_BLOB && exists minor: nat :: minor < 0x1_0000 && b == EncodeAs(rs, minor)
  {
    hide EncodeAs, Limits, ReadHeader, Many;
    if Decode(b) == Some(rs) {
      AcceptedIsEncoded(b);
    }
    if Limits(rs) && |b| <= MAX_BLOB && exists minor: nat :: minor < 0x1_0000 && b == EncodeAs(rs, minor) {
      var minor: nat :| minor < 0x1_0000 && b == EncodeAs(rs, minor);
      PrefixDecodes(rs, minor, |b|);
      assert b[..|b|] == b;
    }
  }

  /** Re-encoding an accepted blob changes bytes 6 and 7 only. */
  lemma {:induction false} Canonical(b: Bytes)
    requires Decode(b).Some?
    ensures var e := Encode(Decode(b).value);
      |e| == |b| && forall i :: 0 <= i < |b| && i != 6 && i != 7 ==> e[i] == b[i]
  {
    hide LE, EncCounted, Decode;
    AcceptedIsEncoded(b);
    var rs, minor := Decode(b).value, FromLE(b[6..8]);
    var head, tail := LE(MAGIC, 4) + LE(MAJOR, 2), EncCounted(EncRecord, rs);
    assert b == head + LE(minor, 2) + tail;
    assert Encode(rs) == head + LE(0, 2) + tail;
  }

  // ----- the code -----

  method EncodeVariables(rs: seq<Record>) returns (out: Bytes)
    ensures out == Encode(rs)
    ensures Limits(rs) && |out| <= MAX_BLOB ==> Decode(out) == Some(rs)
  {
    hide LE, EncodeEach, Decode, Limits;
    out := LE(MAGIC, 4) + LE(MAJOR, 2) + LE(0, 2) + LE(|rs|, 4);
    out := WriteEach(out, EncRecord, rs);
    assert out == Encode(rs);
    DecodesExactly(out, rs);
  }

  method TakeName(reader: Reader) returns (v: Bytes)
    requires reader.Valid()
    modifies reader
    ensures reader.Did(Name(reader.data, old(reader.offset)), v)
  {
    hide U;
    var n := reader.Scalar(4);
    if !reader.ok || n > MAX_STRING || n > |reader.data| - reader.offset {
      reader.ok := false;
      return [];
    }
    v := reader.data[reader.offset..reader.offset + n];
    reader.offset := reader.offset + n;
  }

  method TakeRecord(reader: Reader) returns (r: Record, bad: bool)
    requires reader.Valid() && reader.ok
    modifies reader
    ensures reader.Valid()
    ensures !bad ==> reader.ok && ReadRecord((), reader.data, old(reader.offset)) == Some((r, reader.offset))
    ensures bad ==> ReadRecord((), reader.data, old(reader.offset)).None?
  {
    hide U, Name, I32;
    r, bad := Record(0, [], -1, Frame, 0, 0, 0), true;
    var functionIndex := reader.Scalar(4);
    var name := TakeName(reader);
    var typ := reader.Signed();
    var storage := reader.Scalar(1);
    var offset := reader.Signed();
    var pcBegin := reader.Scalar(8);
    var pcEnd := reader.Scalar(8);
    if !reader.ok || name == [] || storage > 2 || typ < -1 || typ > 64 || offset < 0 || pcBegin > pcEnd {
      return;
    }
    r, bad := Record(functionIndex, name, typ, StorageOf(storage), offset, pcBegin, pcEnd), false;
  }

  /** Records are staged and published only once the whole blob is read; `data` may be absent. */
  method DecodeVariables(data: Option<Bytes>) returns (ok: bool, out: seq<Record>)
    ensures ok <==> data.Some? && Decode(data.value).Some?
    ensures out == if ok then Decode(data.value).value else []
  {
    hide U, Many, ReadRecord, Units;
    ok, out := false, [];
    if data.None? || |data.value| > MAX_BLOB {
      return;
    }
    var b := data.value;
    var reader := new Reader(b);
    var magic := reader.Scalar(4);
    if magic != MAGIC {
      return;
    }
    var major := reader.Scalar(2);
    if major != MAJOR {
      return;
    }
    var minor := reader.Scalar(2);
    var count := reader.Scalar(4);
    if !reader.ok || count > MAX_RECORDS || count > |b| {
      return;
    }
    var staged: seq<Record> := [];
    ghost var at := reader.offset;
    ManyNone(ReadRecord, Units(count), b, at);
    for k := 0 to count
      invariant reader.Valid() && reader.data == b && reader.ok
      invariant Many(ReadRecord, Units(count)[..k], b, at) == Some((staged, reader.offset))
      invariant ReadHeader(b) == Some((count, at)) && !ok && out == []
    {
      assert Units(count)[k] == ();
      ManyNext(ReadRecord, Units(count), b, at, k);
      var r, bad := TakeRecord(reader);
      if bad {
        ManyPrefix(ReadRecord, Units(count), b, at, k + 1);
        return;
      }
      staged := staged + [r];
    }
    assert Units(count)[..count] == Units(count);
    if !reader.ok || reader.offset != |b| {
      return;
    }
    return true, staged;
  }
}
