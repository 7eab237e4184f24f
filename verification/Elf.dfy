/**
 The RISC-V ELF image: file layout, string tables and headers. A reader that knows only the
 ELF64 structures recovers every section, every segment and every symbol from the file.
 */
module Elf {
  import opened Int64
  import opened Options
  import opened Wire

  const BASE_ADDR := 0x10000
  const FAST_EXIT_SIZE := 8
  const PAGE := 0x1000

  // ----- structures: scalar fields of given widths -----

  const EHDR_FRONT: seq<nat> := [8, 8, 2, 2, 4, 8, 8]
  const EHDR_BACK: seq<nat> := [8, 4, 2, 2, 2, 2, 2, 2]
  const EHDR: seq<nat> := EHDR_FRONT + EHDR_BACK
  const PHDR: seq<nat> := [4, 4, 8, 8, 8, 8, 8, 8]
  const SHDR: seq<nat> := [4, 4, 8, 8, 8, 8, 4, 4, 8, 8]
  const SYM: seq<nat> := [4, 1, 1, 2, 8, 8]

  function Width(widths: seq<nat>): nat {
    if widths == [] then 0 else widths[0] + Width(widths[1..])
  }

  function EncStruct(values: seq<nat>, widths: seq<nat>): (r: Bytes)
    requires |values| == |widths|
    ensures |r| == Width(widths)
  {
    if widths == [] then [] else LE(values[0], widths[0]) + EncStruct(values[1..], widths[1..])
  }

  function ReadStruct(widths: seq<nat>, b: Bytes, at: nat): (r: Parsed<seq<nat>>)
    ensures r.Some? ==> |r.value.0| == |widths|
  {
    if widths == [] then Some(([], at))
    else
      var (v, a) :- U(b, at, widths[0]);
      var (vs, a') :- ReadStruct(widths[1..], b, a);
      Some(([v] + vs, a'))
  }

  ghost predicate FitsStruct(values: seq<nat>, widths: seq<nat>) {
    |values| == |widths| && forall k :: 0 <= k < |values| ==> values[k] < Pow256(widths[k])
  }

  lemma {:induction false} StructReads(b: Bytes, at: nat, values: seq<nat>, widths: seq<nat>)
    requires FitsStruct(values, widths) && Follows(b, at, EncStruct(values, widths)) && at <= |b|
    ensures ReadStruct(widths, b, at) == Taken(b, at, EncStruct(values, widths), values)
    decreases |widths|
  {
    if widths == [] {
      assert values == [];
    } else {
      var v, w := values[0], widths[0];
      hide LE, Follows, U, Pow256;
      UThen(b, at, v, w, EncStruct(values[1..], widths[1..]));
      assert values == [v] + values[1..];
      if at + w <= |b| {
        StructReads(b, at + w, values[1..], widths[1..]);
      }
    }
  }

  lemma HeaderSize()
    ensures Width(EHDR) == 64
  {
    hide Width;
    WidthSplit(EHDR, 7);
    assert EHDR[..7] == EHDR_FRONT && EHDR[7..] == EHDR_BACK;
    HalfSizes();
  }

  lemma HalfSizes()
    ensures Width(EHDR_FRONT) == 40 && Width(EHDR_BACK) == 24
  {
  }

  lemma {:induction false} WidthSplit(widths: seq<nat>, k: nat)
    requires k <= |widths|
    ensures Width(widths) == Width(widths[..k]) + Width(widths[k..])
  {
    if k > 0 {
      WidthSplit(widths[1..], k - 1);
      assert widths[..k][1..] == widths[1..][..k - 1] && widths[1..][k - 1..] == widths[k..];
    } else {
      assert widths[0..] == widths;
    }
  }

  lemma RecordSizes()
    ensures Width(PHDR) == 56 && Width(SHDR) == 64 && Width(SYM) == 24
  {
  }

  // ----- placing bytes at aligned offsets -----

  function Align(n: nat, a: nat): (r: nat)
    requires a > 0
  {
    (n + a - 1) / a * a
  }

  /** The alignments the file uses. */
  predicate Alignment(a: nat) {
    a == 1 || a == 8 || a == PAGE
  }

  lemma AlignUp(n: nat, a: nat)
    requires Alignment(a)
    ensures n <= Align(n, a) < n + a && Align(n, a) % a == 0
  {
  }

  datatype Part = Part(align: nat, size: nat)

  datatype Chunk = Chunk(align: nat, bytes: Bytes)

  ghost predicate Aligned(ps: seq<Part>) {
    forall k :: 0 <= k < |ps| ==> Alignment(ps[k].align)
  }

  /** Where a run of parts ends. */
  function End(ps: seq<Part>): nat {
    if ps == [] then 0
    else
      var p, before := ps[|ps| - 1], End(ps[..|ps| - 1]);
      (if p.align > 0 then Align(before, p.align) else before) + p.size
  }

  /** Where a part starts. */
  function Start(ps: seq<Part>, k: nat): nat
    requires k < |ps|
  {
    if ps[k].align > 0 then Align(End(ps[..k]), ps[k].align) else End(ps[..k])
  }

  function Zeros(n: nat): (r: Bytes)
    ensures |r| == n
  {
    seq(n, _ => 0)
  }

  function Shape(cs: seq<Chunk>): (r: seq<Part>)
    ensures |r| == |cs| && forall k :: 0 <= k < |cs| ==> r[k] == Part(cs[k].align, |cs[k].bytes|)
  {
    seq(|cs|, k requires 0 <= k < |cs| => Part(cs[k].align, |cs[k].bytes|))
  }

  /** The chunks one after another, each at its start, with zeros between. */
  function Laid(cs: seq<Chunk>): Bytes {
    if cs == [] then []
    else
      var c, before := cs[|cs| - 1], Laid(cs[..|cs| - 1]);
      var start := if c.align > 0 then Align(|before|, c.align) else |before|;
      before + Zeros(if start >= |before| then start - |before| else 0) + c.bytes
  }

  lemma EndNext(ps: seq<Part>, k: nat)
    requires k < |ps|
    ensures End(ps[..k + 1]) == Start(ps, k) + ps[k].size
  {
    assert ps[..k + 1][..k] == ps[..k] && ps[..k + 1][k] == ps[k];
  }

  lemma ShapePrefix(cs: seq<Chunk>, k: nat)
    requires k <= |cs|
    ensures Shape(cs[..k]) == Shape(cs)[..k]
  {
  }

  lemma {:induction false} LaidLength(cs: seq<Chunk>)
    requires Aligned(Shape(cs))
    ensures |Laid(cs)| == End(Shape(cs))
  {
    if cs != [] {
      var n := |cs| - 1;
      ShapePrefix(cs, n);
      assert Shape(cs)[n] == Part(cs[n].align, |cs[n].bytes|);
      assert Aligned(Shape(cs[..n]));
      LaidLength(cs[..n]);
      AlignUp(|Laid(cs[..n])|, cs[n].align);
    }
  }

  /** One more chunk: pad to its start, then its bytes. */
  lemma LaidNext(cs: seq<Chunk>, k: nat)
    requires k < |cs| && Aligned(Shape(cs))
    ensures var before, at := Laid(cs[..k]), Start(Shape(cs), k);
      |before| <= at && Laid(cs[..k + 1]) == before + Zeros(at - |before|) + cs[k].bytes
  {
    assert cs[..k + 1][..k] == cs[..k] && cs[..k + 1][k] == cs[k];
    ShapePrefix(cs, k);
    assert Shape(cs)[k] == Part(cs[k].align, |cs[k].bytes|);
    LaidLength(cs[..k]);
    AlignUp(|Laid(cs[..k])|, cs[k].align);
  }

  ghost predicate Holds(f: Bytes, at: nat, bytes: Bytes) {
    at + |bytes| <= |f| && f[at..at + |bytes|] == bytes
  }

  lemma HoldsLonger(f: Bytes, more: Bytes, at: nat, bytes: Bytes)
    requires Holds(f, at, bytes)
    ensures Holds(f + more, at, bytes)
  {
    assert (f + more)[at..at + |bytes|] == f[at..at + |bytes|];
  }

  /** Every chunk's bytes land at its start. */
  lemma {:induction false} ChunkLands(cs: seq<Chunk>, k: nat, n: nat)
    requires k < n <= |cs| && Aligned(Shape(cs))
    ensures Holds(Laid(cs[..n]), Start(Shape(cs), k), cs[k].bytes)
    decreases n
  {
    hide Laid, Start;
    LaidNext(cs, n - 1);
    var before, at := Laid(cs[..n - 1]), Start(Shape(cs), n - 1);
    var pad := Zeros(at - |before|);
    if k == n - 1 {
      var f := before + pad + cs[k].bytes;
      assert f[at..at + |cs[k].bytes|] == cs[k].bytes;
    } else {
      ChunkLands(cs, k, n - 1);
      HoldsLonger(before, pad + cs[n - 1].bytes, Start(Shape(cs), k), cs[k].bytes);
      assert before + (pad + cs[n - 1].bytes) == before + pad + cs[n - 1].bytes;
    }
  }

  /** Parts do not overlap. */
  lemma {:induction false} PartsApart(ps: seq<Part>, i: nat, j: nat)
    requires i < j < |ps| && Aligned(ps)
    ensures Start(ps, i) + ps[i].size <= End(ps[..j]) <= Start(ps, j)
    decreases j
  {
    hide Align, End;
    AlignUp(End(ps[..j]), ps[j].align);
    EndNext(ps, j - 1);
    if i < j - 1 {
      PartsApart(ps, i, j - 1);
    }
  }

  // ----- string tables -----

  /** Names one after another, each with a terminating zero. */
  function Table(names: seq<Bytes>): Bytes {
    if names == [] then [] else Table(names[..|names| - 1]) + names[|names| - 1] + [0]
  }

  function NameOffset(names: seq<Bytes>, k: nat): nat
    requires k <= |names|
  {
    |Table(names[..k])|
  }

  /** The bytes from an offset up to the next zero. */
  function CString(table: Bytes, at: nat): Bytes
    decreases |table| - at
  {
    if at >= |table| || table[at] == 0 then [] else [table[at]] + CString(table, at + 1)
  }

  lemma TableNext(names: seq<Bytes>, k: nat)
    requires k < |names|
    ensures Table(names[..k + 1]) == Table(names[..k]) + names[k] + [0]
  {
    assert names[..k + 1][..k] == names[..k] && names[..k + 1][k] == names[k];
  }

  lemma {:induction false} TablePrefix(names: seq<Bytes>, k: nat, n: nat)
    requires k <= n <= |names|
    ensures Table(names[..k]) <= Table(names[..n])
    decreases n
  {
    if k < n {
      TableNext(names, n - 1);
      TablePrefix(names, k, n - 1);
    }
  }

  lemma {:induction false} CStringReads(table: Bytes, at: nat, name: Bytes)
    requires at + |name| < |table| && table[at..at + |name|] == name && table[at + |name|] == 0
    ensures CString(table, at) == name <==> 0 !in name
    ensures |CString(table, at)| <= |name|
    decreases |name|
  {
    if name != [] {
      assert table[at] == table[at..at + |name|][0] == name[0];
      assert table[at + 1..at + |name|] == table[at..at + |name|][1..] == name[1..];
      if table[at] != 0 {
        CStringReads(table, at + 1, name[1..]);
        assert name == [name[0]] + name[1..];
        assert CString(table, at) == [name[0]] + CString(table, at + 1);
        assert CString(table, at)[1..] == CString(table, at + 1);
      }
    }
  }

  /** A name reads back from its offset exactly when it has no zero in it. */
  lemma {:induction false} NameReadsBack(names: seq<Bytes>, k: nat)
    requires k < |names|
    ensures NameOffset(names, k) < |Table(names)|
    ensures CString(Table(names), NameOffset(names, k)) == names[k] <==> 0 !in names[k]
  {
    var table, at := Table(names), NameOffset(names, k);
    TableNext(names, k);
    TablePrefix(names, k + 1, |names|);
    assert names[..|names|] == names;
    var entry := Table(names[..k]) + names[k] + [0];
    assert entry == table[..|entry|];
    assert table[at..at + |names[k]|] == entry[at..at + |names[k]|] == names[k];
    assert table[at + |names[k]|] == entry[at + |names[k]|] == 0;
    CStringReads(table, at, names[k]);
  }

  /** The loop that fills a string table and records where each name starts. */
  method BuildTable(names: seq<Bytes>) returns (table: Bytes, offsets: seq<nat>)
    ensures table == Table(names)
    ensures |offsets| == |names| && forall k :: 0 <= k < |names| ==> offsets[k] == NameOffset(names, k)
  {
    table, offsets := [], [];
    for k := 0 to |names|
      invariant table == Table(names[..k])
      invariant |offsets| == k && forall i :: 0 <= i < k ==> offsets[i] == NameOffset(names, i)
    {
      TableNext(names, k);
      offsets := offsets + [|table|];
      table := table + names[k];
      table := table + [0];
    }
    assert names[..|names|] == names;
  }

  // ----- tables of equal records -----

  function Records(rows: seq<seq<nat>>, widths: seq<nat>): (r: Bytes)
    requires forall k :: 0 <= k < |rows| ==> |rows[k]| == |widths|
  {
    if rows == [] then [] else Records(rows[..|rows| - 1], widths) + EncStruct(rows[|rows| - 1], widths)
  }

  lemma {:induction false} RecordLands(rows: seq<seq<nat>>, widths: seq<nat>, k: nat)
    requires k < |rows| && forall i :: 0 <= i < |rows| ==> |rows[i]| == |widths|
    ensures |Records(rows, widths)| == |rows| * Width(widths)
    ensures Holds(Records(rows, widths), k * Width(widths), EncStruct(rows[k], widths))
  {
    hide Width, EncStruct;
    var n := |rows| - 1;
    var before, last := Records(rows[..n], widths), EncStruct(rows[n], widths);
    RecordsLength(rows[..n], widths);
    if k == n {
      assert (before + last)[|before|..|before| + |last|] == last;
    } else {
      RecordLands(rows[..n], widths, k);
      HoldsLonger(before, last, k * Width(widths), EncStruct(rows[k], widths));
    }
    RecordsLength(rows, widths);
  }

  lemma {:induction false} RecordsLength(rows: seq<seq<nat>>, widths: seq<nat>)
    requires forall i :: 0 <= i < |rows| ==> |rows[i]| == |widths|
    ensures |Records(rows, widths)| == |rows| * Width(widths)
  {
    if rows != [] {
      RecordsLength(rows[..|rows| - 1], widths);
      assert |rows| * Width(widths) == (|rows| - 1) * Width(widths) + Width(widths);
    }
  }

  lemma HoldsFollows(f: Bytes, at: nat, e: Bytes)
    requires Holds(f, at, e)
    ensures Follows(f, at, e)
  {
    forall i | 0 <= i < |e| && at + i < |f|
      ensures f[at + i] == e[i]
    {
      assert f[at..at + |e|][i] == e[i];
    }
  }

  lemma HoldsWithin(f: Bytes, at: nat, e: Bytes, i: nat, inner: Bytes)
    requires Holds(f, at, e) && Holds(e, i, inner)
    ensures Holds(f, at + i, inner)
  {
    forall j | 0 <= j < |inner|
      ensures f[at + i + j] == inner[j]
    {
      assert f[at..at + |e|][i + j] == e[i + j] && e[i..i + |inner|][j] == inner[j];
    }
  }

  /** A record of a table that the file holds reads as what was written. */
  lemma RecordReads(f: Bytes, at: nat, rows: seq<seq<nat>>, widths: seq<nat>, k: nat)
    requires k < |rows| && forall i :: 0 <= i < |rows| ==> |rows[i]| == |widths|
    requires FitsStruct(rows[k], widths) && Holds(f, at, Records(rows, widths))
    ensures var here := at + k * Width(widths); ReadStruct(widths, f, here) == Some((rows[k], here + Width(widths)))
  {
    hide Records, EncStruct, ReadStruct, FitsStruct;
    RecordLands(rows, widths, k);
    var here, e := at + k * Width(widths), EncStruct(rows[k], widths);
    HoldsWithin(f, at, Records(rows, widths), k * Width(widths), e);
    HoldsFollows(f, here, e);
    StructReads(f, here, rows[k], widths);
  }

  // ----- symbols -----

  datatype Symbol = Symbol(name: Bytes, info: nat, shndx: nat, value: nat, size: nat)

  /** Names in table order; the empty name comes first. */
  function SymbolNames(symbols: seq<Symbol>): (r: seq<Bytes>)
    ensures |r| == |symbols| + 1 && r[0] == [] && forall k :: 0 <= k < |symbols| ==> r[k + 1] == symbols[k].name
  {
    [[]] + seq(|symbols|, k requires 0 <= k < |symbols| => symbols[k].name)
  }

  /** The entries of the symbol table; the first is the null symbol. */
  function SymbolRows(symbols: seq<Symbol>): (r: seq<seq<nat>>)
    ensures |r| == |symbols| + 1 && forall k :: 0 <= k < |r| ==> |r[k]| == |SYM|
    ensures forall k :: 0 <= k < |symbols| ==>
      r[k + 1] == [NameOffset(SymbolNames(symbols), k + 1), symbols[k].info, 0, symbols[k].shndx, symbols[k].value,
        symbols[k].size]
  {
    [[0, 0, 0, 0, 0, 0]] + seq(|symbols|, k requires 0 <= k < |symbols| =>
      [NameOffset(SymbolNames(symbols), k + 1), symbols[k].info, 0, symbols[k].shndx, symbols[k].value,
        symbols[k].size])
  }

  function SymTab(symbols: seq<Symbol>): Bytes {
    Records(SymbolRows(symbols), SYM)
  }

  function StrTab(symbols: seq<Symbol>): Bytes {
    Table(SymbolNames(symbols))
  }

  /** A reader's view of a symbol: its entry, and the text its name offset points to. */
  function SymbolOf(symtab: Bytes, strtab: Bytes, k: nat): Option<Symbol> {
    var (v, a) :- ReadStruct(SYM, symtab, k * 24);
    Some(Symbol(CString(strtab, v[0]), v[1], v[3], v[4], v[5]))
  }

  predicate FitsSymbol(s: Symbol) {
    s.info < 256 && s.shndx < 0x1_0000 && s.value < TWO64 && s.size < TWO64
  }

  /** Every symbol reads back, its name exactly when it has no zero in it. */
  lemma {:induction false} SymbolsReadBack(symbols: seq<Symbol>, k: nat)
    requires k < |symbols| && FitsSymbol(symbols[k]) && |StrTab(symbols)| <= TWO32
    ensures var r := SymbolOf(SymTab(symbols), StrTab(symbols), k + 1);
      && r.Some? && r.value == symbols[k].(name := r.value.name)
      && (r.value.name == symbols[k].name <==> 0 !in symbols[k].name)
  {
    hide Records, Table, ReadStruct, Width, CString;
    var names, rows := SymbolNames(symbols), SymbolRows(symbols);
    NameReadsBack(names, k + 1);
    Widths();
    RecordSizes();
    assert FitsStruct(rows[k + 1], SYM);
    RecordReads(SymTab(symbols), 0, rows, SYM, k + 1) by {
      assert SymTab(symbols)[0..|SymTab(symbols)|] == SymTab(symbols);
    }
  }

  // ----- sections -----

  datatype Section = Section(pad: nat, content: Bytes, typ: nat, flags: nat, addr: nat, link: nat, info: nat,
                             align: nat, entsize: nat)

  /** The file: headers, then each section, then the section headers. */
  function Parts(head: nat, ss: seq<Section>): (r: seq<Part>)
    ensures |r| == |ss| + 2 && r[0] == Part(1, head) && r[|ss| + 1] == Part(8, 64 * (|ss| + 1))
    ensures forall k :: 0 <= k < |ss| ==> r[k + 1] == Part(ss[k].pad, |ss[k].content|)
  {
    [Part(1, head)] +
      seq(|ss|, k requires 0 <= k < |ss| => Part(ss[k].pad, |ss[k].content|)) +
      [Part(8, 64 * (|ss| + 1))]
  }

  function SectionRow(s: Section, nameOffset: nat, offset: nat): (r: seq<nat>)
    ensures |r| == |SHDR|
  {
    [nameOffset, s.typ, s.flags, s.addr, offset, |s.content|, s.link, s.info, s.align, s.entsize]
  }

  const NULL_SECTION := Section(1, [], 0, 0, 0, 0, 0, 0, 0)

  /** Section headers; the first, of the null section, is all zero. */
  function SectionRows(ss: seq<Section>, names: seq<Bytes>, at: seq<nat>): (r: seq<seq<nat>>)
    requires |names| == |ss| + 1 && |at| == |ss|
    ensures |r| == |ss| + 1 && r[0] == SectionRow(NULL_SECTION, 0, 0) && forall k :: 0 <= k < |r| ==> |r[k]| == |SHDR|
    ensures forall k :: 1 <= k <= |ss| ==> r[k] == SectionRow(ss[k - 1], NameOffset(names, k), at[k - 1])
  {
    [SectionRow(NULL_SECTION, 0, 0)] +
      seq(|ss|, k requires 0 <= k < |ss| => SectionRow(ss[k], NameOffset(names, k + 1), at[k]))
  }

  /** Where the sections start. */
  function Starts(head: nat, ss: seq<Section>): (r: seq<nat>)
    ensures |r| == |ss| && forall k :: 0 <= k < |ss| ==> r[k] == Start(Parts(head, ss), k + 1)
  {
    seq(|ss|, k requires 0 <= k < |ss| => Start(Parts(head, ss), k + 1))
  }

  function TableStart(head: nat, ss: seq<Section>): nat {
    Start(Parts(head, ss), |ss| + 1)
  }

  /** 0x7f 'E' 'L' 'F', 64-bit, little-endian, version 1, as one little-endian word. */
  const IDENT: nat := 0x0001_0102_464c_457f

  /** e_phoff, e_shoff, e_phnum, e_shnum and e_shstrndx are fields 6, 7, 11, 13 and 14. */
  function FileHeader(shoff: nat, segments: nat, sections: nat): (r: seq<nat>)
    ensures |r| == |EHDR|
  {
    [IDENT, 0, 2, 243, 1, BASE_ADDR + FAST_EXIT_SIZE, 64, shoff, 5, 64, 56, segments, 64, sections + 1, sections]
  }

  function HeadSize(segments: nat): nat {
    64 + 56 * segments
  }

  predicate SegmentShaped(segments: seq<seq<nat>>) {
    forall k :: 0 <= k < |segments| ==> |segments[k]| == |PHDR|
  }

  function Headers(ss: seq<Section>, segments: seq<seq<nat>>): Bytes
    requires SegmentShaped(segments)
  {
    EncStruct(FileHeader(TableStart(HeadSize(|segments|), ss), |segments|, |ss|), EHDR) + Records(segments, PHDR)
  }

  function Chunks(ss: seq<Section>, head: Bytes, table: Bytes): (r: seq<Chunk>)
    ensures |r| == |ss| + 2 && r[0] == Chunk(1, head) && r[|ss| + 1] == Chunk(8, table)
    ensures forall k :: 0 <= k < |ss| ==> r[k + 1] == Chunk(ss[k].pad, ss[k].content)
  {
    [Chunk(1, head)] + seq(|ss|, k requires 0 <= k < |ss| => Chunk(ss[k].pad, ss[k].content)) + [Chunk(8, table)]
  }

  function Rows(ss: seq<Section>, names: seq<Bytes>, segments: seq<seq<nat>>): Bytes
    requires |names| == |ss| + 1
  {
    Records(SectionRows(ss, names, Starts(HeadSize(|segments|), ss)), SHDR)
  }

  function FileChunks(ss: seq<Section>, names: seq<Bytes>, segments: seq<seq<nat>>): seq<Chunk>
    requires |names| == |ss| + 1 && SegmentShaped(segments)
  {
    Chunks(ss, Headers(ss, segments), Rows(ss, names, segments))
  }

  /** The whole file. */
  function File(ss: seq<Section>, names: seq<Bytes>, segments: seq<seq<nat>>): Bytes
    requires |names| == |ss| + 1 && SegmentShaped(segments)
  {
    Laid(FileChunks(ss, names, segments))
  }

  // ----- a reader of the file -----

  /** Follows the headers to section k: its name and its bytes. */
  function SectionOf(f: Bytes, k: nat): Option<(Bytes, Bytes)> {
    var (e, a) :- ReadStruct(EHDR, f, 0);
    if k >= e[13] then None
    else
      var (s, a') :- ReadStruct(SHDR, f, e[7] + k * 64);
      var (t, a'') :- ReadStruct(SHDR, f, e[7] + e[14] * 64);
      if s[4] + s[5] > |f| || t[4] + t[5] > |f| then None
      else Some((CString(f[t[4]..t[4] + t[5]], s[0]), f[s[4]..s[4] + s[5]]))
  }

  /** Follows the file header to section header k. */
  function HeaderOf(f: Bytes, k: nat): (r: Option<seq<nat>>)
    ensures r.Some? ==> |r.value| == 10
  {
    var (e, a) :- ReadStruct(EHDR, f, 0);
    if k >= e[13] then None
    else
      var (s, a') :- ReadStruct(SHDR, f, e[7] + k * 64);
      Some(s)
  }

  const SHT_SYMTAB := 2

  /** Symbol k of section s, if that is a symbol table: its entry, and its name from the table sh_link leads to. */
  function SymbolInFile(f: Bytes, s: nat, k: nat): Option<Symbol> {
    var h :- HeaderOf(f, s);
    if h[1] != SHT_SYMTAB then None
    else
      var t :- HeaderOf(f, h[6]);
      if h[4] + h[5] > |f| || t[4] + t[5] > |f| then None
      else SymbolOf(f[h[4]..h[4] + h[5]], f[t[4]..t[4] + t[5]], k)
  }

  /** Follows the headers to segment k: its header. */
  function SegmentOf(f: Bytes, k: nat): Option<seq<nat>> {
    var (e, a) :- ReadStruct(EHDR, f, 0);
    if k >= e[11] then None
    else
      var (p, a') :- ReadStruct(PHDR, f, e[6] + k * 56);
      Some(p)
  }

  // ----- the reader finds what the file holds -----

  predicate FitsSection(s: Section) {
    s.typ < TWO32 && s.flags < TWO64 && s.addr < TWO64 && s.link < TWO32 && s.info < TWO32 && s.align < TWO64 &&
      s.entsize < TWO64
  }

  /** What a section list must meet: 32-bit and 64-bit fields, known alignments, and a name table at the end. */
  ghost predicate Layable(ss: seq<Section>, names: seq<Bytes>, segments: seq<seq<nat>>) {
    && |names| == |ss| + 1 && names[0] == [] && 0 < |ss| < 0xFFFF && |segments| < 0x1_0000 && SegmentShaped(segments)
    && (forall k :: 0 <= k < |ss| ==> 0 !in names[k + 1] && Alignment(ss[k].pad) && FitsSection(ss[k]))
    && ss[|ss| - 1].content == Table(names) && |Table(names)| <= TWO32
    && (forall k :: 0 <= k < |segments| ==> FitsStruct(segments[k], PHDR))
  }

  /** The file holds the two header tables and, at given places, every section. */
  ghost predicate Describes(f: Bytes, ss: seq<Section>, names: seq<Bytes>, segments: seq<seq<nat>>, at: seq<nat>,
                            shoff: nat) {
    && |names| == |ss| + 1 && |at| == |ss| && |f| < TWO64 && SegmentShaped(segments)
    && ReadStruct(EHDR, f, 0) == Some((FileHeader(shoff, |segments|, |ss|), 64))
    && Holds(f, 64, Records(segments, PHDR))
    && Holds(f, shoff, Records(SectionRows(ss, names, at), SHDR))
    && forall k :: 0 <= k < |ss| ==> Holds(f, at[k], ss[k].content)
  }

  lemma RowFits(s: Section, nameOffset: nat, offset: nat)
    requires FitsSection(s) && nameOffset < TWO32 && offset < TWO64 && |s.content| < TWO64
    ensures FitsStruct(SectionRow(s, nameOffset, offset), SHDR)
  {
    Widths();
  }

  lemma RowReads(f: Bytes, ss: seq<Section>, names: seq<Bytes>, segments: seq<seq<nat>>, at: seq<nat>, shoff: nat,
                 k: nat)
    requires Layable(ss, names, segments) && Describes(f, ss, names, segments, at, shoff) && k <= |ss|
    ensures ReadStruct(SHDR, f, shoff + k * 64) == Some((SectionRows(ss, names, at)[k], shoff + k * 64 + 64))
  {
    hide Records, ReadStruct, Width, Table, FitsStruct, SectionRows, SectionRow, NameOffset;
    var rows := SectionRows(ss, names, at);
    RecordSizes();
    if k == 0 {
      RowFits(NULL_SECTION, 0, 0);
    } else {
      NameReadsBack(names, k);
      assert Holds(f, at[k - 1], ss[k - 1].content);
      RowFits(ss[k - 1], NameOffset(names, k), at[k - 1]);
    }
    RecordReads(f, shoff, rows, SHDR, k);
  }

  lemma RowFields(s: Section, nameOffset: nat, offset: nat)
    ensures var r := SectionRow(s, nameOffset, offset); r[0] == nameOffset && r[4] == offset && r[5] == |s.content|
  {
  }

  lemma HeaderFields(shoff: nat, segments: nat, sections: nat)
    ensures var e := FileHeader(shoff, segments, sections); e[7] == shoff && e[13] == sections + 1 && e[14] == sections
  {
  }

  lemma FirstName(names: seq<Bytes>)
    ensures NameOffset(names, 0) == 0
  {
  }

  /** The reader recovers the name and the bytes of every section. */
  lemma SectionReads(f: Bytes, ss: seq<Section>, names: seq<Bytes>, segments: seq<seq<nat>>, at: seq<nat>, shoff: nat,
                     k: nat)
    requires Layable(ss, names, segments) && Describes(f, ss, names, segments, at, shoff) && k <= |ss|
    ensures SectionOf(f, k) == Some((names[k], if k == 0 then [] else ss[k - 1].content))
  {
    hide Records, ReadStruct, Table, FitsStruct, SectionRows, SectionRow, FileHeader, NameOffset, CString, FitsSection,
      SegmentShaped, Alignment;
    RowReads(f, ss, names, segments, at, shoff, k);
    RowReads(f, ss, names, segments, at, shoff, |ss|);
    HeaderFields(shoff, |segments|, |ss|);
    RowFields(if k == 0 then NULL_SECTION else ss[k - 1], NameOffset(names, k), if k == 0 then 0 else at[k - 1]);
    RowFields(ss[|ss| - 1], NameOffset(names, |ss|), at[|ss| - 1]);
    NameReadsBack(names, k);
    FirstName(names);
    assert Holds(f, at[|ss| - 1], ss[|ss| - 1].content);
    if k > 0 {
      assert Holds(f, at[k - 1], ss[k - 1].content);
    }
  }

  lemma HeaderOfReads(f: Bytes, ss: seq<Section>, names: seq<Bytes>, segments: seq<seq<nat>>, at: seq<nat>, shoff: nat,
                      k: nat)
    requires Layable(ss, names, segments) && Describes(f, ss, names, segments, at, shoff) && k <= |ss|
    ensures HeaderOf(f, k) == Some(SectionRows(ss, names, at)[k])
  {
    hide Records, ReadStruct, Table, FitsStruct, SectionRows, FileHeader, FitsSection, SegmentShaped, Alignment, Holds;
    RowReads(f, ss, names, segments, at, shoff, k);
    HeaderFields(shoff, |segments|, |ss|);
  }

  /** A reader that looks for a symbol table and follows its link reads the two tables that were laid out. */
  lemma LinkedTables(f: Bytes, ss: seq<Section>, names: seq<Bytes>, segments: seq<seq<nat>>, at: seq<nat>, shoff: nat,
                     s: nat, k: nat)
    requires Layable(ss, names, segments) && Describes(f, ss, names, segments, at, shoff) && s <= |ss|
    requires s > 0 && ss[s - 1].typ == SHT_SYMTAB ==> 0 < ss[s - 1].link <= |ss|
    ensures SymbolInFile(f, s, k) ==
      if s > 0 && ss[s - 1].typ == SHT_SYMTAB then SymbolOf(ss[s - 1].content, ss[ss[s - 1].link - 1].content, k)
        else None
  {
    hide Records, ReadStruct, Table, FitsStruct, SectionRows, FileHeader, FitsSection, SegmentShaped, Alignment,
      HeaderOf, SymbolOf, NameOffset, Layable;
    HeaderOfReads(f, ss, names, segments, at, shoff, s);
    if s > 0 {
      assert Holds(f, at[s - 1], ss[s - 1].content);
      if ss[s - 1].typ == SHT_SYMTAB {
        var link := ss[s - 1].link;
        HeaderOfReads(f, ss, names, segments, at, shoff, link);
        assert Holds(f, at[link - 1], ss[link - 1].content);
      }
    }
  }

  /** The reader recovers every program header. */
  lemma SegmentReads(f: Bytes, ss: seq<Section>, names: seq<Bytes>, segments: seq<seq<nat>>, at: seq<nat>, shoff: nat,
                     k: nat)
    requires Layable(ss, names, segments) && Describes(f, ss, names, segments, at, shoff) && k < |segments|
    ensures SegmentOf(f, k) == Some(segments[k])
  {
    hide Records, ReadStruct, Table, FitsStruct, SectionRows, Width, Holds;
    RecordSizes();
    RecordReads(f, 64, segments, PHDR, k);
  }

  // ----- the file holds what was laid out -----

  lemma ShapeOfChunks(ss: seq<Section>, head: Bytes, table: Bytes)
    requires |table| == 64 * (|ss| + 1) && forall k :: 0 <= k < |ss| ==> Alignment(ss[k].pad)
    ensures Shape(Chunks(ss, head, table)) == Parts(|head|, ss) && Aligned(Parts(|head|, ss))
  {
    var cs, ps := Chunks(ss, head, table), Parts(|head|, ss);
    forall k | 0 <= k < |ps|
      ensures Shape(cs)[k] == ps[k] && Alignment(ps[k].align)
    {
      if 0 < k <= |ss| {
        assert ps[k] == ps[k - 1 + 1] && cs[k] == cs[k - 1 + 1] && Alignment(ss[k - 1].pad);
      }
    }
  }

  lemma HeaderLengths(ss: seq<Section>, names: seq<Bytes>, segments: seq<seq<nat>>)
    requires |names| == |ss| + 1 && SegmentShaped(segments)
    ensures |Headers(ss, segments)| == HeadSize(|segments|) && |Rows(ss, names, segments)| == 64 * (|ss| + 1)
  {
    hide EncStruct, Width, SectionRows, Records, Starts, TableStart;
    HeaderSize();
    RecordSizes();
    RecordsLength(segments, PHDR);
    RecordsLength(SectionRows(ss, names, Starts(HeadSize(|segments|), ss)), SHDR);
  }

  lemma ShapeOfFile(ss: seq<Section>, names: seq<Bytes>, segments: seq<seq<nat>>)
    requires Layable(ss, names, segments)
    ensures Shape(FileChunks(ss, names, segments)) == Parts(HeadSize(|segments|), ss)
    ensures Aligned(Parts(HeadSize(|segments|), ss))
  {
    hide Headers, Rows, Records, Chunks, Parts, Shape, Aligned, Table, FitsSection, FitsStruct;
    HeaderLengths(ss, names, segments);
    ShapeOfChunks(ss, Headers(ss, segments), Rows(ss, names, segments));
  }

  /** Each chunk of the file is where its part starts. */
  lemma FileHolds(ss: seq<Section>, names: seq<Bytes>, segments: seq<seq<nat>>, k: nat)
    requires Layable(ss, names, segments) && k < |ss| + 2
    ensures Holds(File(ss, names, segments), Start(Parts(HeadSize(|segments|), ss), k),
      FileChunks(ss, names, segments)[k].bytes)
  {
    hide Headers, Rows, Laid, Start, Holds, FitsSection, FitsStruct, Table;
    ShapeOfFile(ss, names, segments);
    var cs := FileChunks(ss, names, segments);
    ChunkLands(cs, k, |cs|);
    assert cs[..|cs|] == cs;
  }

  lemma StartsAtZero(head: nat, ss: seq<Section>)
    ensures Start(Parts(head, ss), 0) == 0
  {
  }

  lemma HeaderFits(shoff: nat, segments: nat, sections: nat)
    requires shoff < TWO64 && segments < 0x1_0000 && sections < 0xFFFF
    ensures FitsStruct(FileHeader(shoff, segments, sections), EHDR)
  {
    Widths();
  }

  lemma HoldsParts(f: Bytes, at: nat, e: Bytes, rest: Bytes)
    requires Holds(f, at, e + rest)
    ensures Holds(f, at, e) && Holds(f, at + |e|, rest)
  {
    assert (e + rest)[0..|e|] == e && (e + rest)[|e|..|e + rest|] == rest;
    HoldsWithin(f, at, e + rest, 0, e);
    HoldsWithin(f, at, e + rest, |e|, rest);
  }

  lemma HeaderReads(f: Bytes, shoff: nat, segments: seq<seq<nat>>, sections: nat)
    requires SegmentShaped(segments) &&
      Holds(f, 0, EncStruct(FileHeader(shoff, |segments|, sections), EHDR) + Records(segments, PHDR))
    requires shoff < TWO64 && |segments| < 0x1_0000 && sections < 0xFFFF
    ensures ReadStruct(EHDR, f, 0) == Some((FileHeader(shoff, |segments|, sections), 64))
    ensures Holds(f, 64, Records(segments, PHDR))
  {
    hide Records, EncStruct, ReadStruct, Width, FileHeader;
    var e := FileHeader(shoff, |segments|, sections);
    HeaderSize();
    HeaderFits(shoff, |segments|, sections);
    HoldsParts(f, 0, EncStruct(e, EHDR), Records(segments, PHDR));
    HoldsFollows(f, 0, EncStruct(e, EHDR));
    StructReads(f, 0, e, EHDR);
  }

  lemma FileDescribes(ss: seq<Section>, names: seq<Bytes>, segments: seq<seq<nat>>)
    requires Layable(ss, names, segments) && |File(ss, names, segments)| < TWO64
    ensures Describes(File(ss, names, segments), ss, names, segments, Starts(HeadSize(|segments|), ss),
      TableStart(HeadSize(|segments|), ss))
  {
    hide Records, Laid, EncStruct, ReadStruct, Start, Parts, FileHeader, SectionRows, Table, FitsSection, FitsStruct;
    var f, shoff, at := File(ss, names, segments), TableStart(HeadSize(|segments|), ss),
      Starts(HeadSize(|segments|), ss);
    FileHolds(ss, names, segments, 0);
    FileHolds(ss, names, segments, |ss| + 1);
    StartsAtZero(HeadSize(|segments|), ss);
    HeaderReads(f, shoff, segments, |ss|);
    forall k | 0 <= k < |ss|
      ensures Holds(f, at[k], ss[k].content)
    {
      FileHolds(ss, names, segments, k + 1);
    }
  }

  /** Headers, sections and section headers occupy disjoint ranges of the file. */
  lemma {:induction false} SectionsApart(ss: seq<Section>, names: seq<Bytes>, segments: seq<seq<nat>>, i: nat, j: nat)
    requires Layable(ss, names, segments) && i < j < |ss| + 2
    ensures var ps := Parts(HeadSize(|segments|), ss);
      Start(ps, i) + ps[i].size <= Start(ps, j) && Start(ps, j) + ps[j].size <= |File(ss, names, segments)|
  {
    hide Laid, Start, Parts, Table, FitsStruct, FitsSection, Headers, Rows, Aligned, End;
    ShapeOfFile(ss, names, segments);
    var cs := FileChunks(ss, names, segments);
    PartsApart(Parts(HeadSize(|segments|), ss), i, j);
    FileHolds(ss, names, segments, j);
    assert Shape(cs)[j].size == |cs[j].bytes|;
  }

  // ----- the image -----

  /** What goes in: machine code with its trailing data, the named symbols and the encoded metadata. */
  datatype Image = Image(code: Bytes, dataSize: nat, symbols: seq<Symbol>, meta: Bytes)

  /** The code generator reports no more data than code; a vector holds fewer than 2^63 bytes. */
  predicate ValidImage(im: Image) {
    im.dataSize <= |im.code| < 0x8000_0000_0000_0000
  }

  function Text(im: Image): Bytes
    requires ValidImage(im)
  {
    im.code[..|im.code| - im.dataSize]
  }

  function Data(im: Image): Bytes
    requires ValidImage(im)
  {
    im.code[|im.code| - im.dataSize..]
  }

  function Ascii(s: string): (r: Bytes)
    ensures |r| == |s|
  {
    seq(|s|, k requires 0 <= k < |s| => if s[k] as int < 256 then s[k] as int else 0)
  }

  const COMMENT: Bytes := Ascii("Godot GDScript API v1") + [0]

  function DataAddr(im: Image): nat
    requires ValidImage(im)
  {
    Align(BASE_ADDR + |Text(im)|, PAGE)
  }

  /** Section names in header order, with the null section first. */
  function SectionNames(im: Image): (r: seq<Bytes>)
    ensures |r| == (if im.dataSize > 0 then 8 else 7) && r[0] == []
  {
    [[], Ascii(".text")] + (if im.dataSize > 0 then [Ascii(".data")] else []) +
      [Ascii(".symtab"), Ascii(".strtab"), Ascii(".comment"), Ascii(".gdsmeta"), Ascii(".shstrtab")]
  }

  /** Every section but the null one. */
  function Sections(im: Image): (r: seq<Section>)
    requires ValidImage(im)
    ensures |r| == |SectionNames(im)| - 1
  {
    [Section(PAGE, Text(im), 1, 6, BASE_ADDR, 0, 0, 4, 0)] +
      (if im.dataSize > 0 then [Section(PAGE, Data(im), 1, 3, DataAddr(im), 0, 0, 8, 0)] else []) +
      [Section(8, SymTab(im.symbols), 2, 0, 0, if im.dataSize > 0 then 4 else 3, 1, 8, 24),
       Section(1, StrTab(im.symbols), 3, 0, 0, 0, 0, 1, 0),
       Section(1, COMMENT, 1, 0, 0, 0, 0, 1, 0),
       Section(8, im.meta, 1, 0, 0, 0, 0, 8, 0),
       Section(1, Table(SectionNames(im)), 3, 0, 0, 0, 0, 1, 0)]
  }

  function SegmentCount(im: Image): nat {
    if im.dataSize > 0 then 2 else 1
  }

  /** Text follows the headers at the next page, data follows text at the next page. */
  const TEXT_OFFSET := PAGE

  function DataOffset(im: Image): nat
    requires ValidImage(im)
  {
    Align(TEXT_OFFSET + |Text(im)|, PAGE)
  }

  /** The loadable segments: text, readable and executable, and data, readable and writable. */
  function Segments(im: Image): (r: seq<seq<nat>>)
    requires ValidImage(im)
    ensures |r| == SegmentCount(im) && SegmentShaped(r)
  {
    [[1, 5, TEXT_OFFSET, BASE_ADDR, BASE_ADDR, |Text(im)|, |Text(im)|, PAGE]] +
      if im.dataSize > 0 then [[1, 6, DataOffset(im), DataAddr(im), DataAddr(im), |Data(im)|, |Data(im)|, PAGE]] else []
  }

  function ImageFile(im: Image): Bytes
    requires ValidImage(im)
  {
    File(Sections(im), SectionNames(im), Segments(im))
  }

  lemma {:induction false} TableBound(names: seq<Bytes>, m: nat)
    requires forall k :: 0 <= k < |names| ==> |names[k]| < m
    ensures |Table(names)| <= |names| * m
  {
    if names != [] {
      TableBound(names[..|names| - 1], m);
      assert |names| * m == (|names| - 1) * m + m;
    }
  }

  lemma NamesFit(im: Image)
    ensures |Table(SectionNames(im))| <= 80
    ensures forall k :: 0 <= k < |SectionNames(im)| ==> 0 !in SectionNames(im)[k]
  {
    TableBound(SectionNames(im), 10);
  }

  lemma SegmentsFit(im: Image)
    requires ValidImage(im)
    ensures forall k :: 0 <= k < |Segments(im)| ==> FitsStruct(Segments(im)[k], PHDR)
    ensures DataAddr(im) < TWO64
  {
    Widths();
    AlignUp(TEXT_OFFSET + |Text(im)|, PAGE);
    AlignUp(BASE_ADDR + |Text(im)|, PAGE);
  }

  lemma ImageLayable(im: Image)
    requires ValidImage(im)
    ensures Layable(Sections(im), SectionNames(im), Segments(im))
  {
    hide Table, Align, FitsStruct, SymTab, StrTab;
    NamesFit(im);
    SegmentsFit(im);
  }

  /** The inputs fit in memory together. */
  predicate FitsMemory(im: Image) {
    |im.code| + |im.meta| + |SymTab(im.symbols)| + |StrTab(im.symbols)| < 0x8000_0000_0000_0000
  }

  lemma Grows(ps: seq<Part>, k: nat)
    requires k < |ps| && Alignment(ps[k].align)
    ensures End(ps[..k + 1]) < End(ps[..k]) + ps[k].align + ps[k].size
  {
    hide End, Align;
    EndNext(ps, k);
    AlignUp(End(ps[..k]), ps[k].align);
  }

  /** The file is no larger than its inputs and three pages. */
  lemma {:induction false} ImageSize(im: Image)
    requires ValidImage(im)
    ensures |ImageFile(im)| < |im.code| + |im.meta| + |SymTab(im.symbols)| + |StrTab(im.symbols)| + 3 * PAGE
  {
    hide SymTab, StrTab, Table, End, Laid, FileChunks, Layable, Aligned;
    var ss := Sections(im);
    ImageLayable(im);
    ShapeOfFile(ss, SectionNames(im), Segments(im));
    LaidLength(FileChunks(ss, SectionNames(im), Segments(im)));
    NamesFit(im);
    var ps := Parts(HeadSize(SegmentCount(im)), ss);
    NothingBefore(ps);
    Grows(ps, 0);
    Grows(ps, 1);
    Grows(ps, 2);
    Grows(ps, 3);
    Grows(ps, 4);
    Grows(ps, 5);
    Grows(ps, 6);
    Grows(ps, 7);
    if im.dataSize > 0 {
      Grows(ps, 8);
    }
    assert ps[..|ps|] == ps;
  }

  /** Reading the built file gives every section its name and its bytes. */
  lemma {:induction false} ImageSections(im: Image, k: nat)
    requires ValidImage(im) && FitsMemory(im) && k < |SectionNames(im)|
    ensures SectionOf(ImageFile(im), k) ==
      Some((SectionNames(im)[k], if k == 0 then [] else Sections(im)[k - 1].content))
  {
    hide SectionOf, File, Sections, SectionNames, Segments, Layable, Describes, Starts, TableStart, HeadSize, SymTab,
      StrTab;
    ImageLayable(im);
    ImageSize(im);
    FileDescribes(Sections(im), SectionNames(im), Segments(im));
    var head := HeadSize(|Segments(im)|);
    SectionReads(ImageFile(im), Sections(im), SectionNames(im), Segments(im), Starts(head, Sections(im)),
      TableStart(head, Sections(im)), k);
  }

  /** The section header index of .symtab. */
  function SymbolSection(im: Image): nat {
    if im.dataSize > 0 then 3 else 2
  }

  /**
   From the file alone: exactly one section is a symbol table, and every symbol read from it has
   the value it was given and, through the linked string table, its name iff that has no zero byte.
   */
  lemma {:induction false} ImageSymbols(im: Image, s: nat, k: nat)
    requires ValidImage(im) && FitsMemory(im) && s < |SectionNames(im)|
    requires k < |im.symbols| && FitsSymbol(im.symbols[k]) && |StrTab(im.symbols)| <= TWO32
    ensures var r := SymbolInFile(ImageFile(im), s, k + 1);
      && (r.Some? <==> s == SymbolSection(im))
      && (r.Some? ==> r.value == im.symbols[k].(name := r.value.name))
      && (r.Some? ==> (r.value.name == im.symbols[k].name <==> 0 !in im.symbols[k].name))
  {
    hide SymbolInFile, File, Layable, Describes, Starts, TableStart, HeadSize, SymTab, StrTab, Table, SymbolOf,
      FitsMemory;
    ImageLayable(im);
    SmallFile(im);
    var ss, names, segments := Sections(im), SectionNames(im), Segments(im);
    FileDescribes(ss, names, segments);
    var head := HeadSize(|segments|);
    LinkedTables(ImageFile(im), ss, names, segments, Starts(head, ss), TableStart(head, ss), s, k + 1);
    SymbolsReadBack(im.symbols, k);
  }

  lemma SmallFile(im: Image)
    requires ValidImage(im) && FitsMemory(im)
    ensures |ImageFile(im)| < TWO64
  {
    hide File, SymTab, StrTab, Sections, Segments, SectionNames;
    ImageSize(im);
  }

  lemma SegmentOffsets(im: Image)
    requires ValidImage(im)
    ensures var ps := Parts(HeadSize(SegmentCount(im)), Sections(im));
      Start(ps, 1) == TEXT_OFFSET && (im.dataSize > 0 ==> Start(ps, 2) == DataOffset(im))
  {
    hide SymTab, StrTab, Table, SectionNames, Align;
    var ps := Parts(HeadSize(SegmentCount(im)), Sections(im));
    EndNext(ps, 0);
    EndNext(ps, 1);
    StartsAtZero(HeadSize(SegmentCount(im)), Sections(im));
    assert ps[1] == Part(PAGE, |Text(im)|) && (im.dataSize > 0 ==> ps[2].align == PAGE);
    FirstPage(HeadSize(SegmentCount(im)));
  }

  lemma FirstPage(head: nat)
    requires 0 < head <= PAGE
    ensures Align(head, PAGE) == PAGE
  {
  }

  /** A loadable segment's bytes are in the file, and its offset and address agree modulo its alignment. */
  lemma {:induction false} ImageSegments(im: Image, k: nat)
    requires ValidImage(im) && FitsMemory(im) && k < SegmentCount(im)
    ensures var p := Segments(im)[k];
      && SegmentOf(ImageFile(im), k) == Some(p)
      && p[7] == PAGE && p[2] % p[7] == p[3] % p[7]
      && Holds(ImageFile(im), p[2], if k == 0 then Text(im) else Data(im))
      && p[5] == p[6] == |if k == 0 then Text(im) else Data(im)|
    ensures BASE_ADDR + |Text(im)| <= DataAddr(im)
  {
    hide SegmentOf, Layable, Describes, Starts, TableStart, SymTab, StrTab, Table, Laid, FileChunks, Start;
    ImageLayable(im);
    ImageSize(im);
    FileDescribes(Sections(im), SectionNames(im), Segments(im));
    var head := HeadSize(|Segments(im)|);
    SegmentReads(ImageFile(im), Sections(im), SectionNames(im), Segments(im), Starts(head, Sections(im)),
      TableStart(head, Sections(im)), k);
    FileHolds(Sections(im), SectionNames(im), Segments(im), k + 1);
    SegmentOffsets(im);
    assert Sections(im)[k].content == if k == 0 then Text(im) else Data(im);
    Chunked(Sections(im), SectionNames(im), Segments(im), k);
    AlignUp(TEXT_OFFSET + |Text(im)|, PAGE);
    AlignUp(BASE_ADDR + |Text(im)|, PAGE);
  }

  lemma Chunked(ss: seq<Section>, names: seq<Bytes>, segments: seq<seq<nat>>, k: nat)
    requires |names| == |ss| + 1 && SegmentShaped(segments) && k < |ss|
    ensures FileChunks(ss, names, segments)[k + 1] == Chunk(ss[k].pad, ss[k].content)
  {
    hide Headers, Rows;
  }

  // ----- the numbers in the file -----

  /** Where a field starts in its structure. */
  function FieldOffset(widths: seq<nat>, k: nat): nat
    requires k <= |widths|
  {
    if k == 0 then 0 else FieldOffset(widths, k - 1) + widths[k - 1]
  }

  lemma {:induction false} FieldOffsetTail(widths: seq<nat>, k: nat)
    requires 0 < k <= |widths|
    ensures FieldOffset(widths, k) == widths[0] + FieldOffset(widths[1..], k - 1)
  {
    if k > 1 {
      FieldOffsetTail(widths, k - 1);
    }
  }

  ghost predicate NumberAt(f: Bytes, at: nat, n: nat, v: nat) {
    U(f, at, n) == Some((v, at + n))
  }

  /** A structure that reads as `vs` has each number at its offset. */
  lemma {:induction false} FieldReads(widths: seq<nat>, f: Bytes, at: nat, vs: seq<nat>, end: nat, k: nat)
    requires ReadStruct(widths, f, at) == Some((vs, end)) && k < |widths|
    ensures |vs| == |widths| && NumberAt(f, at + FieldOffset(widths, k), widths[k], vs[k])
    decreases |widths|
  {
    hide U;
    var (v, a) := U(f, at, widths[0]).value;
    var (rest, a') := ReadStruct(widths[1..], f, a).value;
    assert vs == [v] + rest;
    if k > 0 {
      FieldOffsetTail(widths, k);
      UEnd(f, at, widths[0]);
      FieldReads(widths[1..], f, a, rest, a', k - 1);
    } else {
      UEnd(f, at, widths[0]);
    }
  }

  lemma {:induction false} UEnd(f: Bytes, at: nat, n: nat)
    ensures U(f, at, n).Some? ==> U(f, at, n).value.1 == at + n
  {
  }

  /** The structures are those of ELF64: widths and offsets of every field. */
  lemma {:induction false} ProgramHeaderLayout()
    ensures PHDR == [4, 4, 8, 8, 8, 8, 8, 8]
    ensures FieldOffset(PHDR, 0) == 0 && FieldOffset(PHDR, 1) == 4 && FieldOffset(PHDR, 2) == 8
    ensures FieldOffset(PHDR, 3) == 16 && FieldOffset(PHDR, 4) == 24 && FieldOffset(PHDR, 5) == 32
    ensures FieldOffset(PHDR, 6) == 40 && FieldOffset(PHDR, 7) == 48
  {
    assert FieldOffset(PHDR, 2) == 8;
    assert FieldOffset(PHDR, 4) == 24;
    assert FieldOffset(PHDR, 6) == 40;
  }

  lemma {:induction false} SectionHeaderLayout()
    ensures SHDR == [4, 4, 8, 8, 8, 8, 4, 4, 8, 8]
    ensures FieldOffset(SHDR, 0) == 0 && FieldOffset(SHDR, 1) == 4 && FieldOffset(SHDR, 2) == 8
    ensures FieldOffset(SHDR, 3) == 16 && FieldOffset(SHDR, 4) == 24 && FieldOffset(SHDR, 5) == 32
    ensures FieldOffset(SHDR, 6) == 40 && FieldOffset(SHDR, 7) == 44 && FieldOffset(SHDR, 8) == 48
    ensures FieldOffset(SHDR, 9) == 56
  {
    assert FieldOffset(SHDR, 2) == 8;
    assert FieldOffset(SHDR, 4) == 24;
    assert FieldOffset(SHDR, 6) == 40;
    assert FieldOffset(SHDR, 8) == 48;
  }

  lemma {:induction false} FileHeaderLayout()
    ensures EHDR == [8, 8, 2, 2, 4, 8, 8, 8, 4, 2, 2, 2, 2, 2, 2]
    ensures FieldOffset(EHDR, 2) == 16 && FieldOffset(EHDR, 3) == 18 && FieldOffset(EHDR, 4) == 20
    ensures FieldOffset(EHDR, 5) == 24 && FieldOffset(EHDR, 6) == 32 && FieldOffset(EHDR, 7) == 40
    ensures FieldOffset(EHDR, 8) == 48 && FieldOffset(EHDR, 9) == 52 && FieldOffset(EHDR, 10) == 54
    ensures FieldOffset(EHDR, 11) == 56 && FieldOffset(EHDR, 12) == 58 && FieldOffset(EHDR, 13) == 60
    ensures FieldOffset(EHDR, 14) == 62
  {
    var w: seq<nat> := [8, 8, 2, 2, 4, 8, 8, 8, 4, 2, 2, 2, 2, 2, 2];
    assert EHDR == w;
    assert FieldOffset(w, 1) == 8;
    assert FieldOffset(w, 2) == 16;
    assert FieldOffset(w, 4) == 20;
    assert FieldOffset(w, 6) == 32;
    assert FieldOffset(w, 8) == 48;
    assert FieldOffset(w, 10) == 54;
    assert FieldOffset(w, 12) == 58;
    assert FieldOffset(w, 14) == 62;
  }

  lemma {:induction false} ImageDescribes(im: Image)
    requires ValidImage(im) && FitsMemory(im)
    ensures var ss, head := Sections(im), HeadSize(SegmentCount(im));
      && Layable(ss, SectionNames(im), Segments(im))
      && Describes(ImageFile(im), ss, SectionNames(im), Segments(im), Starts(head, ss), TableStart(head, ss))
  {
    hide File, Layable, Describes, Starts, TableStart, SymTab, StrTab, Table, FitsMemory;
    ImageLayable(im);
    SmallFile(im);
    FileDescribes(Sections(im), SectionNames(im), Segments(im));
  }

  /** The file header, byte by byte: a 64-bit little-endian RISC-V executable. */
  lemma {:induction false} ImageHeader(im: Image)
    requires ValidImage(im) && FitsMemory(im)
    ensures var f, n := ImageFile(im), if im.dataSize > 0 then 8 else 7;
      && NumberAt(f, 0, 8, 0x0001_0102_464c_457f) && NumberAt(f, 8, 8, 0)
      && NumberAt(f, 16, 2, 2) && NumberAt(f, 18, 2, 243) && NumberAt(f, 20, 4, 1) && NumberAt(f, 24, 8, 0x10008)
      && NumberAt(f, 32, 8, 64) && NumberAt(f, 48, 4, 5) && NumberAt(f, 52, 2, 64) && NumberAt(f, 54, 2, 56)
      && NumberAt(f, 56, 2, if im.dataSize > 0 then 2 else 1)
      && NumberAt(f, 58, 2, 64) && NumberAt(f, 60, 2, n) && NumberAt(f, 62, 2, n - 1)
  {
    hide File, Layable, Starts, TableStart, SymTab, StrTab, Table, FitsMemory, ReadStruct, NumberAt, Holds, SectionRows,
      Records, FieldOffset;
    ImageDescribes(im);
    var f, ss, segments := ImageFile(im), Sections(im), Segments(im);
    var e := FileHeader(TableStart(HeadSize(|segments|), ss), |segments|, |ss|);
    assert ReadStruct(EHDR, f, 0) == Some((e, 64));
    FileHeaderLayout();
    forall k | 0 <= k < 15
      ensures NumberAt(f, FieldOffset(EHDR, k), EHDR[k], e[k])
    {
      FieldReads(EHDR, f, 0, e, 64, k);
    }
    assert NumberAt(f, FieldOffset(EHDR, 0), EHDR[0], e[0]) && NumberAt(f, FieldOffset(EHDR, 1), EHDR[1], e[1]);
    FirstOffsets();
  }

  lemma {:induction false} FirstOffsets()
    ensures FieldOffset(EHDR, 0) == 0 && FieldOffset(EHDR, 1) == 8
  {
  }

  /** A loadable segment as the file gives it: type, flags, offset, both addresses, both sizes, alignment. */
  lemma {:induction false} SegmentNumbers(im: Image, k: nat)
    requires ValidImage(im) && FitsMemory(im) && k < SegmentCount(im)
    ensures var f, at, p := ImageFile(im), 64 + 56 * k, Segments(im)[k];
      && NumberAt(f, at, 4, p[0]) && NumberAt(f, at + 4, 4, p[1]) && NumberAt(f, at + 8, 8, p[2])
      && NumberAt(f, at + 16, 8, p[3]) && NumberAt(f, at + 24, 8, p[4]) && NumberAt(f, at + 32, 8, p[5])
      && NumberAt(f, at + 40, 8, p[6]) && NumberAt(f, at + 48, 8, p[7])
  {
    hide File, Layable, Starts, TableStart, SymTab, StrTab, Table, FitsMemory, ReadStruct, NumberAt, Segments, Records,
      FieldOffset, SectionRows, FileHeader, Width, FitsStruct;
    ImageDescribes(im);
    RecordSizes();
    var f, at, p := ImageFile(im), 64 + 56 * k, Segments(im)[k];
    LayableSegments(Sections(im), SectionNames(im), Segments(im), k);
    RecordReads(f, 64, Segments(im), PHDR, k);
    ProgramHeaderLayout();
    forall j | 0 <= j < 8
      ensures NumberAt(f, at + FieldOffset(PHDR, j), PHDR[j], p[j])
    {
      FieldReads(PHDR, f, at, p, at + 56, j);
    }
    assert NumberAt(f, at + FieldOffset(PHDR, 0), PHDR[0], p[0]);
  }

  lemma {:induction false} LayableSegments(ss: seq<Section>, names: seq<Bytes>, segments: seq<seq<nat>>, k: nat)
    requires Layable(ss, names, segments) && k < |segments|
    ensures FitsStruct(segments[k], PHDR) && SegmentShaped(segments)
  {
    hide Table, FitsStruct;
  }

  /** A section header as the file gives it. */
  lemma {:induction false} SectionNumbers(im: Image, k: nat)
    requires ValidImage(im) && FitsMemory(im) && 0 < k < |SectionNames(im)|
    ensures var s, at := Sections(im)[k - 1], Starts(HeadSize(SegmentCount(im)), Sections(im))[k - 1];
      HeaderOf(ImageFile(im), k) ==
        Some([NameOffset(SectionNames(im), k), s.typ, s.flags, s.addr, at, |s.content|, s.link, s.info, s.align,
              s.entsize])
  {
    hide File, Layable, Describes, Starts, TableStart, SymTab, StrTab, Table, FitsMemory, HeaderOf, Sections,
      NameOffset, SectionNames;
    ImageDescribes(im);
    var ss, head := Sections(im), HeadSize(SegmentCount(im));
    HeaderOfReads(ImageFile(im), ss, SectionNames(im), Segments(im), Starts(head, ss), TableStart(head, ss), k);
  }

  /** A section header that is found is where ELF64 says, number by number. */
  lemma {:induction false} SectionHeaderBytes(f: Bytes, k: nat, v: seq<nat>, shoff: nat)
    requires HeaderOf(f, k) == Some(v) && NumberAt(f, 40, 8, shoff)
    ensures |v| == 10
    ensures var at := shoff + 64 * k;
      && NumberAt(f, at, 4, v[0]) && NumberAt(f, at + 4, 4, v[1]) && NumberAt(f, at + 8, 8, v[2])
      && NumberAt(f, at + 16, 8, v[3]) && NumberAt(f, at + 24, 8, v[4]) && NumberAt(f, at + 32, 8, v[5])
      && NumberAt(f, at + 40, 4, v[6]) && NumberAt(f, at + 44, 4, v[7]) && NumberAt(f, at + 48, 8, v[8])
      && NumberAt(f, at + 56, 8, v[9])
  {
    hide ReadStruct, FieldOffset, U;
    var (e, a) := ReadStruct(EHDR, f, 0).value;
    FieldReads(EHDR, f, 0, e, a, 7);
    FileHeaderLayout();
    assert e[7] == shoff;
    var at := shoff + 64 * k;
    var (s, a') := ReadStruct(SHDR, f, at).value;
    hide NumberAt;
    SectionHeaderLayout();
    forall j | 0 <= j < 10
      ensures NumberAt(f, at + FieldOffset(SHDR, j), SHDR[j], v[j])
    {
      FieldReads(SHDR, f, at, s, a', j);
    }
    assert NumberAt(f, at + FieldOffset(SHDR, 0), SHDR[0], v[0]);
  }

  lemma {:induction false} SymbolLayout()
    ensures SYM == [4, 1, 1, 2, 8, 8]
    ensures FieldOffset(SYM, 0) == 0 && FieldOffset(SYM, 1) == 4 && FieldOffset(SYM, 3) == 6
    ensures FieldOffset(SYM, 4) == 8 && FieldOffset(SYM, 5) == 16
  {
    assert FieldOffset(SYM, 2) == 5;
    assert FieldOffset(SYM, 4) == 8;
  }

  /** A symbol that is read is where ELF64 says. */
  lemma {:induction false} SymbolBytes(symtab: Bytes, strtab: Bytes, k: nat, s: Symbol)
    requires SymbolOf(symtab, strtab, k) == Some(s)
    ensures var at := 24 * k;
      && NumberAt(symtab, at + 4, 1, s.info) && NumberAt(symtab, at + 6, 2, s.shndx)
      && NumberAt(symtab, at + 8, 8, s.value) && NumberAt(symtab, at + 16, 8, s.size)
    ensures exists name: nat :: NumberAt(symtab, 24 * k, 4, name) && s.name == CString(strtab, name)
  {
    hide ReadStruct, FieldOffset, NumberAt, CString;
    var at := 24 * k;
    var (v, a) := ReadStruct(SYM, symtab, at).value;
    SymbolLayout();
    forall j | 0 <= j < 6
      ensures NumberAt(symtab, at + FieldOffset(SYM, j), SYM[j], v[j])
    {
      FieldReads(SYM, symtab, at, v, a, j);
    }
    assert NumberAt(symtab, at + FieldOffset(SYM, 0), SYM[0], v[0]);
  }

  /** The names of the sections, as bytes, and their types: contents, symbols and strings. */
  lemma {:induction false} SectionsSpelled(im: Image)
    requires ValidImage(im)
    ensures var names, b := SectionNames(im), if im.dataSize > 0 then 1 else 0;
      && names[1] == [46, 116, 101, 120, 116]
      && (b == 1 ==> names[2] == [46, 100, 97, 116, 97])
      && names[2 + b] == [46, 115, 121, 109, 116, 97, 98] && names[3 + b] == [46, 115, 116, 114, 116, 97, 98]
      && names[4 + b] == [46, 99, 111, 109, 109, 101, 110, 116]
      && names[5 + b] == [46, 103, 100, 115, 109, 101, 116, 97]
      && names[6 + b] == [46, 115, 104, 115, 116, 114, 116, 97, 98]
    ensures var ss, b := Sections(im), if im.dataSize > 0 then 1 else 0;
      && ss[0].content + (if b == 1 then ss[1].content else []) == im.code
      && ss[4 + b].content == im.meta
      && ss[1 + b].typ == 2 && ss[1 + b].link == 3 + b && ss[1 + b].info == 1 && ss[1 + b].entsize == 24
      && ss[2 + b].typ == 3 && ss[3 + b].typ == 1 && ss[4 + b].typ == 1 && ss[5 + b].typ == 3
  {
    hide SymTab, StrTab, Table, Align;
  }

  /** Where data goes: the first page boundary at or after the end of text, in the file and in memory. */
  lemma {:induction false} DataGoes(im: Image)
    requires ValidImage(im)
    ensures DataAddr(im) % 0x1000 == 0 && 0x10000 + |Text(im)| <= DataAddr(im) < 0x10000 + |Text(im)| + 0x1000
    ensures DataOffset(im) % 0x1000 == 0 && 0x1000 + |Text(im)| <= DataOffset(im) < 0x1000 + |Text(im)| + 0x1000
  {
    hide Align;
    AlignUp(TEXT_OFFSET + |Text(im)|, PAGE);
    AlignUp(BASE_ADDR + |Text(im)|, PAGE);
  }

  /** A segment and the section whose bytes it loads say the same. */
  ghost predicate SameRange(segment: seq<nat>, section: seq<nat>) {
    && |segment| == 8 && |section| == 10
    && section[3] == segment[3] == segment[4] && section[4] == segment[2] && section[5] == segment[5] == segment[6]
  }

  lemma {:induction false} TextLoaded(im: Image)
    requires ValidImage(im) && FitsMemory(im)
    ensures var p, s := SegmentOf(ImageFile(im), 0), HeaderOf(ImageFile(im), 1);
      && p == Some([1, 5, 0x1000, 0x10000, 0x10000, |im.code| - im.dataSize, |im.code| - im.dataSize, 0x1000])
      && s.Some? && s.value[2] == 6 && SameRange(p.value, s.value)
  {
    hide File, SymTab, StrTab, Table, FitsMemory, SegmentOf, HeaderOf, Start, NameOffset, DataAddr, DataOffset, Holds,
      SectionNames;
    ImageSegments(im, 0);
    SectionNumbers(im, 1);
    SegmentOffsets(im);
  }

  lemma {:induction false} DataLoaded(im: Image)
    requires ValidImage(im) && FitsMemory(im) && im.dataSize > 0
    ensures var p, s := SegmentOf(ImageFile(im), 1), HeaderOf(ImageFile(im), 2);
      && p == Some([1, 6, DataOffset(im), DataAddr(im), DataAddr(im), im.dataSize, im.dataSize, 0x1000])
      && s.Some? && s.value[2] == 3 && SameRange(p.value, s.value)
  {
    hide File, SymTab, StrTab, Table, FitsMemory, SegmentOf, HeaderOf, Start, NameOffset, DataAddr, DataOffset, Holds,
      SectionNames;
    ImageSegments(im, 1);
    SectionNumbers(im, 2);
    SegmentOffsets(im);
  }

  /**
   What is loaded, as numbers read from the file. The first segment is readable and executable, at
   0x10000, with the bytes of text; the second, present exactly when there is data, is readable and
   writable, at the first page boundary after text, with the bytes of data. Each is where its
   section header says, the two do not overlap in memory, and the entry point is inside the first
   exactly when text is longer than the exit stub.
   */
  lemma {:induction false} LoadedImage(im: Image)
    requires ValidImage(im) && FitsMemory(im)
    ensures var f, size := ImageFile(im), |im.code| - im.dataSize;
      var p, s := SegmentOf(f, 0), HeaderOf(f, 1);
      && p == Some([1, 5, 0x1000, 0x10000, 0x10000, size, size, 0x1000])
      && s.Some? && s.value[2] == 6 && SameRange(p.value, s.value)
      && NumberAt(f, 24, 8, 0x10008) && (p.value[3] <= 0x10008 < p.value[3] + p.value[6] <==> size > 8)
    ensures SegmentOf(ImageFile(im), 1).Some? <==> im.dataSize > 0
    ensures im.dataSize > 0 ==>
      var f, size := ImageFile(im), |im.code| - im.dataSize;
      var q, s := SegmentOf(f, 1).value, HeaderOf(f, 2);
      && |q| == 8 && q[0] == 1 && q[1] == 6 && q[5] == q[6] == im.dataSize && q[7] == 0x1000
      && q[3] == q[4] && q[3] % 0x1000 == 0 && 0x10000 + size <= q[3] < 0x10000 + size + 0x1000
      && q[2] % 0x1000 == 0 && 0x1000 + size <= q[2] < 0x1000 + size + 0x1000
      && s.Some? && s.value[2] == 3 && SameRange(q, s.value)
  {
    hide File, SymTab, StrTab, Table, FitsMemory, SegmentOf, HeaderOf, NumberAt, DataAddr, DataOffset, SectionNames,
      SameRange;
    TextLoaded(im);
    ImageHeader(im);
    SegmentPresent(im);
    if im.dataSize > 0 {
      DataLoaded(im);
      DataGoes(im);
    }
  }

  lemma {:induction false} SegmentPresent(im: Image)
    requires ValidImage(im) && FitsMemory(im)
    ensures SegmentOf(ImageFile(im), 1).Some? <==> im.dataSize > 0
  {
    hide File, SymTab, StrTab, Table, FitsMemory, Starts, TableStart, Layable, Records, Holds, SectionRows;
    if im.dataSize > 0 {
      hide SegmentOf;
      ImageSegments(im, 1);
    } else {
      ImageDescribes(im);
    }
  }

  // ----- the builder -----

  /** Next offset: round up, remember where the part starts, step over it. */
  method Advance(offset: nat, pad: nat, size: nat, ghost ps: seq<Part>, ghost k: nat) returns (start: nat, end: nat)
    requires k < |ps| && ps[k] == Part(pad, size) && Alignment(pad) && offset == End(ps[..k])
    ensures start == Start(ps, k) && end == End(ps[..k + 1])
  {
    hide End, Align;
    start := Align(offset, pad);
    end := start + size;
    EndNext(ps, k);
  }

  /** Pushes zeros until the part starts, then its bytes. */
  method Place(elf: Bytes, offset: nat, bytes: Bytes, ghost cs: seq<Chunk>, ghost k: nat) returns (elf': Bytes)
    requires k < |cs| && Aligned(Shape(cs)) && bytes == cs[k].bytes
    requires elf == Laid(cs[..k]) && offset == Start(Shape(cs), k)
    ensures elf' == Laid(cs[..k + 1])
  {
    hide Laid, Start;
    LaidNext(cs, k);
    elf' := elf;
    while |elf'| < offset
      invariant |elf| <= |elf'| <= offset && elf' == elf + Zeros(|elf'| - |elf|)
    {
      elf' := elf' + [0];
    }
    elf' := elf' + bytes;
  }

  method WriteRecords(rows: seq<seq<nat>>, widths: seq<nat>) returns (out: Bytes)
    requires forall k :: 0 <= k < |rows| ==> |rows[k]| == |widths|
    ensures out == Records(rows, widths)
  {
    out := [];
    for k := 0 to |rows|
      invariant out == Records(rows[..k], widths)
    {
      assert rows[..k + 1][..k] == rows[..k];
      out := out + EncStruct(rows[k], widths);
    }
    assert rows[..|rows|] == rows;
  }

  /** The symbol table, from names already placed in the string table. */
  method BuildSymbols(symbols: seq<Symbol>, offsets: seq<nat>) returns (symtab: Bytes)
    requires |offsets| == |symbols| + 1
    requires forall k :: 0 <= k < |offsets| ==> offsets[k] == NameOffset(SymbolNames(symbols), k)
    ensures symtab == SymTab(symbols)
  {
    hide NameOffset, Records, EncStruct, SymbolNames;
    var rows: seq<seq<nat>> := [[0, 0, 0, 0, 0, 0]];
    ghost var all := SymbolRows(symbols);
    for k := 0 to |symbols|
      invariant rows == all[..k + 1]
    {
      var s := symbols[k];
      rows := rows + [[offsets[k + 1], s.info, 0, s.shndx, s.value, s.size]];
      assert rows[k + 1] == all[k + 1];
    }
    assert rows == all;
    symtab := WriteRecords(rows, SYM);
  }

  /** Section starts and the place of the section headers. */
  method LayOut(im: Image, symtab: nat, strtab: nat, comment: nat, shstrtab: nat) returns (at: seq<nat>, shoff: nat)
    requires ValidImage(im)
    requires symtab == |SymTab(im.symbols)| && strtab == |StrTab(im.symbols)| && comment == |COMMENT| &&
      shstrtab == |Table(SectionNames(im))|
    ensures at == Starts(HeadSize(SegmentCount(im)), Sections(im)) &&
      shoff == TableStart(HeadSize(SegmentCount(im)), Sections(im))
  {
    hide SymTab, StrTab, Table, End, Start;
    ghost var ss := Sections(im);
    ghost var ps := Parts(HeadSize(SegmentCount(im)), ss);
    ghost var all := Starts(HeadSize(SegmentCount(im)), ss);
    NothingBefore(ps);
    var start, offset := Advance(0, 1, 64 + 56 * SegmentCount(im), ps, 0);
    start, offset := Advance(offset, PAGE, |im.code| - im.dataSize, ps, 1);
    at := [start];
    assert at == all[..1];
    ghost var b := 0;
    if im.dataSize > 0 {
      start, offset := Advance(offset, PAGE, im.dataSize, ps, 2);
      at := at + [start];
      b := 1;
      assert at == all[..2];
    }
    start, offset := Advance(offset, 8, symtab, ps, 2 + b);
    at := at + [start];
    assert at == all[..2 + b];
    start, offset := Advance(offset, 1, strtab, ps, 3 + b);
    at := at + [start];
    assert at == all[..3 + b];
    start, offset := Advance(offset, 1, comment, ps, 4 + b);
    at := at + [start];
    assert at == all[..4 + b];
    start, offset := Advance(offset, 8, |im.meta|, ps, 5 + b);
    at := at + [start];
    assert at == all[..5 + b];
    start, offset := Advance(offset, 1, shstrtab, ps, 6 + b);
    at := at + [start];
    assert at == all[..6 + b];
    shoff, offset := Advance(offset, 8, 64 * |SectionNames(im)|, ps, 7 + b);
  }

  lemma NothingBefore(ps: seq<Part>)
    ensures End(ps[..0]) == 0
  {
  }

  /** Builds the file: string tables, symbols, offsets, headers, sections and section headers. */
  method Build(im: Image) returns (elf: Bytes)
    requires ValidImage(im)
    ensures elf == ImageFile(im)
    ensures FitsMemory(im) ==> forall k: nat :: k < |SectionNames(im)| ==>
      SectionOf(elf, k) == Some((SectionNames(im)[k], if k == 0 then [] else Sections(im)[k - 1].content))
  {
    hide SectionOf, FitsMemory, Table, SymTab, StrTab, Records, Laid, Start, NameOffset, EncStruct, FileHeader, Starts,
      TableStart, SectionRow, Aligned, Layable, Align;
    var names := SectionNames(im);
    var shstrtab, nameOffsets := BuildTable(names);
    var strtab, symbolOffsets := BuildTable(SymbolNames(im.symbols));
    StrTabIs(im.symbols);
    var symtab := BuildSymbols(im.symbols, symbolOffsets);
    var at, shoff := LayOut(im, |symtab|, |strtab|, |COMMENT|, |shstrtab|);
    var ss, segments := Sections(im), Segments(im);
    ghost var cs := FileChunks(ss, names, segments);
    ImageLayable(im);
    ShapeOfFile(ss, names, segments);
    NothingLaid(cs);
    StartsAtZero(HeadSize(|segments|), ss);
    var table := WriteRecords(segments, PHDR);
    elf := Place([], 0, EncStruct(FileHeader(shoff, |segments|, |ss|), EHDR) + table, cs, 0);
    elf := WriteSections(elf, ss, at, cs, im);
    var rows := SectionRows(ss, names, at);
    table := WriteRecords(rows, SHDR);
    TableStartIs(HeadSize(|segments|), ss);
    elf := Place(elf, shoff, table, cs, |ss| + 1);
    assert cs[..|cs|] == cs;
    forall k: nat | FitsMemory(im) && k < |names|
      ensures SectionOf(elf, k) == Some((names[k], if k == 0 then [] else ss[k - 1].content))
    {
      ImageSections(im, k);
    }
  }

  lemma StrTabIs(symbols: seq<Symbol>)
    ensures StrTab(symbols) == Table(SymbolNames(symbols))
  {
  }

  lemma TableStartIs(head: nat, ss: seq<Section>)
    ensures TableStart(head, ss) == Start(Parts(head, ss), |ss| + 1)
  {
  }

  lemma NothingLaid(cs: seq<Chunk>)
    ensures Laid(cs[..0]) == []
  {
  }

  method WriteSections(elf: Bytes, ss: seq<Section>, at: seq<nat>, ghost cs: seq<Chunk>, ghost im: Image)
    returns (elf': Bytes)
    requires ValidImage(im) && ss == Sections(im) && |cs| == |ss| + 2 && Aligned(Shape(cs))
    requires at == Starts(HeadSize(SegmentCount(im)), ss) && Shape(cs) == Parts(HeadSize(SegmentCount(im)), ss)
    requires forall k :: 0 <= k < |ss| ==> cs[k + 1].bytes == ss[k].content
    requires elf == Laid(cs[..1])
    ensures elf' == Laid(cs[..|ss| + 1])
  {
    hide Table, SymTab, StrTab, Laid, Start, Sections, Shape, Parts, Aligned;
    elf' := Place(elf, at[0], ss[0].content, cs, 1);
    var b := 0;
    if |ss| == 7 {
      elf' := Place(elf', at[1], ss[1].content, cs, 2);
      b := 1;
    }
    elf' := Place(elf', at[1 + b], ss[1 + b].content, cs, 2 + b);
    elf' := Place(elf', at[2 + b], ss[2 + b].content, cs, 3 + b);
    elf' := Place(elf', at[3 + b], ss[3 + b].content, cs, 4 + b);
    elf' := Place(elf', at[4 + b], ss[4 + b].content, cs, 5 + b);
    elf' := Place(elf', at[5 + b], ss[5 + b].content, cs, 6 + b);
  }
}
