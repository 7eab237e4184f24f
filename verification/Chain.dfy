/**
 Folding an `extends` chain into one flat program. Every declared function survives; one that
 a derived script overrides is moved onto a mangled symbol so that `super` can still name it.
 */
module Chain {
  import opened Options

  const MAX_CHAIN_DEPTH := 16

  /** A function declaration; `body` stands for everything the merge moves along untouched. */
  datatype FunctionDecl = FunctionDecl(name: string, chainName: string, link: nat, body: nat)

  function DeclaredName(f: FunctionDecl): string {
    if f.chainName == "" then f.name else f.chainName
  }

  datatype Origin = Origin(link: nat, symbol: string)

  /** A script, or the merged program: member and type names, functions, and where they come from. */
  datatype Program = Program(
    globals: seq<string>, signals: seq<string>,
    structs: seq<string>, traits: seq<string>, enums: seq<string>,
    functions: seq<FunctionDecl>,
    origins: map<string, seq<Origin>>)

  const EMPTY := Program([], [], [], [], [], [], map[])

  datatype ChainLink = ChainLink(path: string, program: Program)

  datatype ChainError = TooDeep | RepeatedPath(path: string) | Redeclared(name: string) | DeclaredTwice(name: string)

  datatype Outcome = Merged(program: Program) | Rejected(error: ChainError)

  // ----- symbols -----

  function Digit(d: nat): char
    requires d < 10
  {
    '0' + d as char
  }

  function Decimal(n: nat): (s: string)
    ensures s != [] && '.' !in s
  {
    if n < 10 then [Digit(n)] else Decimal(n / 10) + [Digit(n % 10)]
  }

  function Value(s: string): int {
    if s == [] then 0 else 10 * Value(s[..|s| - 1]) + (s[|s| - 1] as int - '0' as int)
  }

  lemma {:induction false} DecimalReadsBack(n: nat)
    ensures Value(Decimal(n)) == n
  {
    var s := Decimal(n);
    if n >= 10 {
      DecimalReadsBack(n / 10);
      assert s[..|s| - 1] == Decimal(n / 10) && s[|s| - 1] == Digit(n % 10);
    } else {
      assert s[..|s| - 1] == [];
    }
  }

  function DisplacedSymbol(link: nat, name: string): string {
    "@super" + (Decimal(link) + "." + name)
  }

  function FirstDot(s: string): nat {
    if s == [] || s[0] == '.' then 0 else 1 + FirstDot(s[1..])
  }

  lemma {:induction false} FirstDotOf(a: string, x: string)
    requires '.' !in a
    ensures FirstDot(a + "." + x) == |a|
  {
    if a != [] {
      assert (a + "." + x)[1..] == a[1..] + "." + x;
      FirstDotOf(a[1..], x);
    }
  }

  /** A text splits at its first dot in one way only. */
  lemma SplitAtDot(a: string, x: string, b: string, y: string)
    requires '.' !in a && '.' !in b && a + "." + x == b + "." + y
    ensures a == b && x == y
  {
    FirstDotOf(a, x);
    FirstDotOf(b, y);
    var s, t := a + "." + x, b + "." + y;
    assert a == s[..|a|] && b == t[..|b|] && x == s[|a| + 1..] && y == t[|b| + 1..];
  }

  lemma {:induction false} DisplacedSymbolInjective(link: nat, name: string, link': nat, name': string)
    requires DisplacedSymbol(link, name) == DisplacedSymbol(link', name')
    ensures link == link' && name == name'
  {
    var s, t := DisplacedSymbol(link, name), DisplacedSymbol(link', name');
    assert s[6..] == Decimal(link) + "." + name && t[6..] == Decimal(link') + "." + name';
    SplitAtDot(Decimal(link), name, Decimal(link'), name');
    DecimalReadsBack(link);
    DecimalReadsBack(link');
  }

  /** The spelling of a displaced symbol. */
  lemma {:induction false} DisplacedSpelling(name: string)
    ensures DisplacedSymbol(0, name) == "@super0." + name && DisplacedSymbol(15, name) == "@super15." + name
  {
    assert Decimal(1) == ['1'] && Decimal(15) == Decimal(1) + ['5'];
  }

  // ----- what a merge should produce -----

  predicate Distinct(s: seq<string>) {
    forall i, j :: 0 <= i < j < |s| ==> s[i] != s[j]
  }

  /** The declarations of a script, stamped with its position in the chain. */
  function Stamped(fs: seq<FunctionDecl>, link: nat): (r: seq<FunctionDecl>)
    ensures |r| == |fs| && forall k :: 0 <= k < |fs| ==> r[k] == fs[k].(link := link)
  {
    seq(|fs|, k requires 0 <= k < |fs| => fs[k].(link := link))
  }

  /** Every declaration of the chain, root first, in source order. */
  function Declarations(links: seq<ChainLink>): seq<FunctionDecl> {
    if links == [] then []
    else Declarations(links[..|links| - 1]) + Stamped(links[|links| - 1].program.functions, |links| - 1)
  }

  predicate Overridden(all: seq<FunctionDecl>, k: nat)
    requires k < |all|
  {
    exists j :: k < j < |all| && all[j].name == all[k].name
  }

  /** The k-th declaration as it stands in the merged program. */
  function Placed(all: seq<FunctionDecl>, k: nat): FunctionDecl
    requires k < |all|
  {
    if Overridden(all, k) then all[k].(name := DisplacedSymbol(all[k].link, all[k].name), chainName := all[k].name)
    else all[k]
  }

  function PlacedAll(all: seq<FunctionDecl>): (r: seq<FunctionDecl>)
    ensures |r| == |all| && forall k :: 0 <= k < |all| ==> r[k] == Placed(all, k)
  {
    seq(|all|, k requires 0 <= k < |all| => Placed(all, k))
  }

  /** The positions that declare a name, in order. */
  function Positions(all: seq<FunctionDecl>, name: string): (r: seq<nat>)
    ensures forall i :: 0 <= i < |r| ==> r[i] < |all| && all[r[i]].name == name
    ensures forall i, j :: 0 <= i < j < |r| ==> r[i] < r[j]
    ensures forall k :: 0 <= k < |all| && all[k].name == name ==> k in r
  {
    if all == [] then []
    else
      var n := |all| - 1;
      var rest := Positions(all[..n], name);
      if all[n].name == name then rest + [n] else rest
  }

  function OriginsOf(all: seq<FunctionDecl>, name: string): (r: seq<Origin>)
    ensures |r| == |Positions(all, name)|
  {
    var at := Positions(all, name);
    seq(|at|, i requires 0 <= i < |at| => Origin(all[at[i]].link, Placed(all, at[i]).name))
  }

  /** Links do not go down, and no link declares a name twice. */
  ghost predicate WellDeclared(all: seq<FunctionDecl>) {
    forall i, j :: 0 <= i < j < |all| ==>
      all[i].link <= all[j].link && (all[i].link == all[j].link ==> all[i].name != all[j].name)
  }

  function Names(fs: seq<FunctionDecl>): (r: seq<string>)
    ensures |r| == |fs| && forall k :: 0 <= k < |fs| ==> r[k] == fs[k].name
  {
    seq(|fs|, k requires 0 <= k < |fs| => fs[k].name)
  }

  function Members(links: seq<ChainLink>): seq<string> {
    if links == [] then []
    else
      var p := links[|links| - 1].program;
      Members(links[..|links| - 1]) + (p.globals + p.signals)
  }

  function Named(names: seq<string>): seq<string> {
    if names == [] then []
    else Named(names[..|names| - 1]) + (if names[|names| - 1] == "" then [] else [names[|names| - 1]])
  }

  function Types(links: seq<ChainLink>): seq<string> {
    if links == [] then []
    else
      var p := links[|links| - 1].program;
      Types(links[..|links| - 1]) + (p.structs + p.traits + Named(p.enums))
  }

  ghost predicate PathsDiffer(links: seq<ChainLink>) {
    forall i, j :: 0 <= i < j < |links| && links[i].path != "" ==> links[i].path != links[j].path
  }

  ghost predicate FunctionsDiffer(links: seq<ChainLink>) {
    forall k :: 0 <= k < |links| ==> Distinct(Names(links[k].program.functions))
  }

  /** When a chain of two or more scripts can be merged. */
  ghost predicate Mergeable(links: seq<ChainLink>) {
    && |links| <= MAX_CHAIN_DEPTH
    && PathsDiffer(links)
    && Distinct(Members(links)) && Distinct(Types(links))
    && FunctionsDiffer(links)
  }

  /** The name tables of the chain, appended link by link. */
  function AllGlobals(links: seq<ChainLink>): seq<string> {
    if links == [] then [] else AllGlobals(links[..|links| - 1]) + links[|links| - 1].program.globals
  }

  function AllSignals(links: seq<ChainLink>): seq<string> {
    if links == [] then [] else AllSignals(links[..|links| - 1]) + links[|links| - 1].program.signals
  }

  function AllStructs(links: seq<ChainLink>): seq<string> {
    if links == [] then [] else AllStructs(links[..|links| - 1]) + links[|links| - 1].program.structs
  }

  function AllTraits(links: seq<ChainLink>): seq<string> {
    if links == [] then [] else AllTraits(links[..|links| - 1]) + links[|links| - 1].program.traits
  }

  function AllEnums(links: seq<ChainLink>): seq<string> {
    if links == [] then [] else AllEnums(links[..|links| - 1]) + links[|links| - 1].program.enums
  }

  // ----- the merge -----

  lemma NotDistinct(s: seq<string>, i: nat, j: nat)
    requires i < j < |s| && s[i] == s[j]
    ensures !Distinct(s)
  {
  }

  /** reject_redeclaration over a list: records each name, stops at the first one already seen. */
  method Declare(seen: set<string>, names: seq<string>, ghost before: seq<string>)
    returns (seen': set<string>, clash: Option<string>)
    requires Distinct(before) && forall n :: n in seen <==> n in before
    ensures clash.None? <==> Distinct(before + names)
    ensures clash.None? ==> forall n :: n in seen' <==> n in before + names
  {
    seen', clash := seen, None;
    for k := 0 to |names|
      invariant clash.None?
      invariant Distinct(before + names[..k]) && forall n :: n in seen' <==> n in before + names[..k]
    {
      assert before + names[..k + 1] == before + names[..k] + [names[k]];
      if names[k] in seen' {
        clash := Some(names[k]);
        ghost var i :| 0 <= i < |before + names[..k]| && (before + names[..k])[i] == names[k];
        NotDistinct(before + names, i, |before| + k);
        return;
      }
      seen' := seen' + {names[k]};
    }
    assert names[..|names|] == names;
  }

  lemma DistinctPrefix(s: seq<string>, t: seq<string>)
    requires Distinct(s + t)
    ensures Distinct(s)
  {
    forall i, j | 0 <= i < j < |s|
      ensures s[i] != s[j]
    {
      assert (s + t)[i] == s[i] && (s + t)[j] == s[j];
    }
  }

  lemma {:induction false} MembersGrow(links: seq<ChainLink>, k: nat)
    requires k <= |links|
    ensures Distinct(Members(links)) ==> Distinct(Members(links[..k]))
    ensures Distinct(Types(links)) ==> Distinct(Types(links[..k]))
  {
    if k < |links| {
      var n := |links| - 1;
      assert links[..n][..k] == links[..k];
      if Distinct(Members(links)) {
        DistinctPrefix(Members(links[..n]), links[n].program.globals + links[n].program.signals);
      }
      if Distinct(Types(links)) {
        DistinctPrefix(Types(links[..n]),
          links[n].program.structs + links[n].program.traits + Named(links[n].program.enums));
      }
      MembersGrow(links[..n], k);
    } else {
      assert links[..k] == links;
    }
  }

  method CheckPaths(links: seq<ChainLink>) returns (repeated: Option<string>)
    ensures repeated.None? <==> PathsDiffer(links)
  {
    var seen: set<string> := {};
    repeated := None;
    for k := 0 to |links|
      invariant repeated.None?
      invariant forall i, j :: 0 <= i < j < k && links[i].path != "" ==> links[i].path != links[j].path
      invariant forall p :: p in seen <==> exists i :: 0 <= i < k && links[i].path == p && p != ""
    {
      var path := links[k].path;
      if path != "" {
        if path in seen {
          return Some(path);
        }
        seen := seen + {path};
      }
    }
  }

  /** The flat tables of the first k links. */
  ghost predicate TablesUpTo(links: seq<ChainLink>, k: nat, p: Program)
    requires k <= |links|
  {
    && p.globals == AllGlobals(links[..k]) && p.signals == AllSignals(links[..k])
    && p.structs == AllStructs(links[..k]) && p.traits == AllTraits(links[..k]) && p.enums == AllEnums(links[..k])
  }

  /**
   The names of a flat program: no two globals, signals, structs or traits are called alike, no two
   enums that have a name are, and neither are a global and a signal, or a struct, a trait and an enum.
   */
  ghost predicate NamesApart(p: Program) {
    && Distinct(p.globals) && Distinct(p.signals) && Distinct(p.structs) && Distinct(p.traits)
    && NamedApart(p.enums)
    && (forall n :: n in p.globals ==> n !in p.signals)
    && (forall n :: n in p.structs ==> n !in p.traits)
    && (forall n :: n in p.enums && n != "" ==> n !in p.structs && n !in p.traits)
  }

  lemma {:induction false} CountOnce(s: seq<string>)
    ensures Distinct(s) <==> forall n :: multiset(s)[n] <= 1
  {
    if s != [] {
      var k := |s| - 1;
      CountOnce(s[..k]);
      assert s == s[..k] + [s[k]];
      DistinctSnoc(s[..k], s[k]);
      assert forall n :: multiset(s)[n] == multiset(s[..k])[n] + if n == s[k] then 1 else 0;
      assert s[k] in s[..k] <==> multiset(s[..k])[s[k]] > 0;
    }
  }

  lemma {:induction false} DistinctSnoc(s: seq<string>, n: string)
    ensures Distinct(s + [n]) <==> Distinct(s) && n !in s
  {
    var t := s + [n];
    assert forall i :: 0 <= i < |s| ==> t[i] == s[i];
    assert t[|s|] == n;
    if n in s {
      var i :| 0 <= i < |s| && s[i] == n;
      NotDistinct(t, i, |s|);
    }
  }

  lemma {:induction false} NamedAppend(s: seq<string>, t: seq<string>)
    ensures Named(s + t) == Named(s) + Named(t)
  {
    if t == [] {
      assert s + t == s;
    } else {
      var k := |t| - 1;
      NamedAppend(s, t[..k]);
      assert (s + t)[..|s + t| - 1] == s + t[..k];
    }
  }

  lemma {:induction false} NamedCounts(s: seq<string>, n: string)
    ensures multiset(Named(s))[n] == if n == "" then 0 else multiset(s)[n]
  {
    if s != [] {
      var k := |s| - 1;
      NamedCounts(s[..k], n);
      assert s == s[..k] + [s[k]];
    }
  }

  /** The names of the chain, counted link by link and table by table. */
  lemma {:induction false} TypesCount(links: seq<ChainLink>)
    ensures multiset(Types(links)) ==
      multiset(AllStructs(links)) + multiset(AllTraits(links)) + multiset(Named(AllEnums(links)))
    ensures multiset(Members(links)) == multiset(AllGlobals(links)) + multiset(AllSignals(links))
  {
    if links != [] {
      var n := |links| - 1;
      TypesCount(links[..n]);
      NamedAppend(AllEnums(links[..n]), links[n].program.enums);
    }
  }

  ghost predicate NamedApart(s: seq<string>) {
    forall i, j :: 0 <= i < j < |s| && s[i] != "" ==> s[i] != s[j]
  }

  lemma {:induction false} NamedSnoc(s: seq<string>, n: string)
    ensures NamedApart(s + [n]) <==> NamedApart(s) && (n == "" || n !in s)
  {
    var t := s + [n];
    assert forall i :: 0 <= i < |s| ==> t[i] == s[i];
    assert t[|s|] == n;
    if n != "" && n in s {
      var i :| 0 <= i < |s| && s[i] == n;
      assert t[i] == t[|s|];
    }
  }

  lemma {:induction false} NamedOnce(s: seq<string>)
    ensures NamedApart(s) <==> Distinct(Named(s))
  {
    if s != [] {
      var k := |s| - 1;
      hide NamedApart, Distinct;
      NamedOnce(s[..k]);
      assert s == s[..k] + [s[k]];
      NamedSnoc(s[..k], s[k]);
      assert Named(s) == Named(s[..k]) + if s[k] == "" then [] else [s[k]];
      if s[k] != "" {
        DistinctSnoc(Named(s[..k]), s[k]);
        NamedIn(s[..k], s[k]);
      } else {
        assert Named(s) == Named(s[..k]);
      }
    }
  }

  lemma {:induction false} MembersApart(links: seq<ChainLink>)
    ensures Distinct(Members(links)) <==>
      && Distinct(AllGlobals(links)) && Distinct(AllSignals(links))
      && forall n :: n in AllGlobals(links) ==> n !in AllSignals(links)
  {
    hide Members, AllGlobals, AllSignals, Distinct;
    TypesCount(links);
    CountOnce(Members(links));
    CountOnce(AllGlobals(links));
    CountOnce(AllSignals(links));
    var g, t := multiset(AllGlobals(links)), multiset(AllSignals(links));
    assert forall n :: multiset(Members(links))[n] == g[n] + t[n];
    assert forall n :: n in AllGlobals(links) <==> g[n] > 0;
    assert forall n :: n in AllSignals(links) <==> t[n] > 0;
  }

  lemma {:induction false} TypesApart(links: seq<ChainLink>)
    ensures Distinct(Types(links)) <==>
      && Distinct(AllStructs(links)) && Distinct(AllTraits(links)) && Distinct(Named(AllEnums(links)))
      && (forall n :: n in AllStructs(links) ==> n !in AllTraits(links))
      && (forall n :: n in Named(AllEnums(links)) ==> n !in AllStructs(links) && n !in AllTraits(links))
  {
    hide Types, AllStructs, AllTraits, AllEnums, Named, Distinct;
    TypesCount(links);
    CountOnce(Types(links));
    CountOnce(AllStructs(links));
    CountOnce(AllTraits(links));
    CountOnce(Named(AllEnums(links)));
    var a, b, c := multiset(AllStructs(links)), multiset(AllTraits(links)), multiset(Named(AllEnums(links)));
    assert forall n :: multiset(Types(links))[n] == a[n] + b[n] + c[n];
    assert forall n :: n in AllStructs(links) <==> a[n] > 0;
    assert forall n :: n in AllTraits(links) <==> b[n] > 0;
    assert forall n :: n in Named(AllEnums(links)) <==> c[n] > 0;
  }

  lemma {:induction false} NamedIn(s: seq<string>, n: string)
    ensures n in Named(s) <==> n in s && n != ""
  {
    hide Named;
    NamedCounts(s, n);
    assert n in Named(s) <==> multiset(Named(s))[n] > 0;
    assert n in s <==> multiset(s)[n] > 0;
  }

  /** The two name tests of the merge are, said of the appended tables, exactly that their names are apart. */
  lemma {:induction false} NamesApartExactly(links: seq<ChainLink>)
    ensures Distinct(Members(links)) && Distinct(Types(links)) <==>
      NamesApart(Program(AllGlobals(links), AllSignals(links), AllStructs(links), AllTraits(links), AllEnums(links),
                         [], map[]))
  {
    hide Members, Types, AllGlobals, AllSignals, AllStructs, AllTraits, AllEnums, Named, Distinct, NamedApart;
    MembersApart(links);
    TypesApart(links);
    NamedOnce(AllEnums(links));
    forall n: string
      ensures n in Named(AllEnums(links)) <==> n in AllEnums(links) && n != ""
    {
      NamedIn(AllEnums(links), n);
    }
  }

  lemma {:induction false} ApartInTables(links: seq<ChainLink>, p: Program)
    requires TablesUpTo(links, |links|, p)
    ensures NamesApart(p) <==>
      NamesApart(Program(AllGlobals(links), AllSignals(links), AllStructs(links), AllTraits(links), AllEnums(links),
                         [], map[]))
  {
    hide AllGlobals, AllSignals, AllStructs, AllTraits, AllEnums, Distinct;
    assert links[..|links|] == links;
  }

  lemma {:induction false} LastApart(links: seq<ChainLink>, k: nat)
    requires k < |links| - 1
    ensures var n, back := |links| - 1, links[k + 1..];
      && links[..n][..k] == links[..k] && back != [] && back[|back| - 1] == links[n]
      && links[..n][k + 1..] == back[..|back| - 1]
  {
  }

  lemma {:induction false} GlobalsInOrder(links: seq<ChainLink>, k: nat)
    requires k < |links|
    ensures AllGlobals(links) == AllGlobals(links[..k]) + links[k].program.globals + AllGlobals(links[k + 1..])
  {
    var n := |links| - 1;
    if k < n {
      GlobalsInOrder(links[..n], k);
      LastApart(links, k);
    }
  }

  lemma {:induction false} SignalsInOrder(links: seq<ChainLink>, k: nat)
    requires k < |links|
    ensures AllSignals(links) == AllSignals(links[..k]) + links[k].program.signals + AllSignals(links[k + 1..])
  {
    var n := |links| - 1;
    if k < n {
      SignalsInOrder(links[..n], k);
      LastApart(links, k);
    }
  }

  lemma {:induction false} StructsInOrder(links: seq<ChainLink>, k: nat)
    requires k < |links|
    ensures AllStructs(links) == AllStructs(links[..k]) + links[k].program.structs + AllStructs(links[k + 1..])
  {
    var n := |links| - 1;
    if k < n {
      StructsInOrder(links[..n], k);
      LastApart(links, k);
    }
  }

  lemma {:induction false} TraitsInOrder(links: seq<ChainLink>, k: nat)
    requires k < |links|
    ensures AllTraits(links) == AllTraits(links[..k]) + links[k].program.traits + AllTraits(links[k + 1..])
  {
    var n := |links| - 1;
    if k < n {
      TraitsInOrder(links[..n], k);
      LastApart(links, k);
    }
  }

  lemma {:induction false} EnumsInOrder(links: seq<ChainLink>, k: nat)
    requires k < |links|
    ensures AllEnums(links) == AllEnums(links[..k]) + links[k].program.enums + AllEnums(links[k + 1..])
  {
    var n := |links| - 1;
    if k < n {
      EnumsInOrder(links[..n], k);
      LastApart(links, k);
    }
  }

  /** The appended tables hold the table of every link, whole, in its place, and nothing else. */
  lemma {:induction false} TablesInOrder(links: seq<ChainLink>, k: nat)
    requires k < |links|
    ensures var p, front, back := links[k].program, links[..k], links[k + 1..];
      && AllGlobals(links) == AllGlobals(front) + p.globals + AllGlobals(back)
      && AllSignals(links) == AllSignals(front) + p.signals + AllSignals(back)
      && AllStructs(links) == AllStructs(front) + p.structs + AllStructs(back)
      && AllTraits(links) == AllTraits(front) + p.traits + AllTraits(back)
      && AllEnums(links) == AllEnums(front) + p.enums + AllEnums(back)
    ensures AllGlobals([]) == AllSignals([]) == AllStructs([]) == AllTraits([]) == AllEnums([]) == []
  {
    GlobalsInOrder(links, k);
    SignalsInOrder(links, k);
    StructsInOrder(links, k);
    TraitsInOrder(links, k);
    EnumsInOrder(links, k);
  }

  /** How many declarations come before link k. */
  function Earlier(links: seq<ChainLink>, k: nat): nat
    requires k <= |links|
  {
    if k == 0 then 0 else Earlier(links, k - 1) + |links[k - 1].program.functions|
  }

  lemma {:induction false} EarlierPrefix(links: seq<ChainLink>, n: nat, k: nat)
    requires k <= n <= |links|
    ensures Earlier(links[..n], k) == Earlier(links, k)
  {
    if k > 0 {
      EarlierPrefix(links, n, k - 1);
    }
  }

  /** Function i of link k is in the merge, once, at its place, under the number of its link. */
  lemma {:induction false} DeclarationAt(links: seq<ChainLink>, k: nat, i: nat)
    requires k < |links| && i < |links[k].program.functions|
    ensures |Declarations(links)| == Earlier(links, |links|)
    ensures Earlier(links, k) + i < |Declarations(links)|
    ensures Declarations(links)[Earlier(links, k) + i] == links[k].program.functions[i].(link := k)
  {
    var n := |links| - 1;
    EarlierPrefix(links, n, n);
    if k < n {
      DeclarationAt(links[..n], k, i);
      EarlierPrefix(links, n, k);
    } else {
      DeclarationCount(links[..n]);
    }
  }

  lemma {:induction false} DeclarationCount(links: seq<ChainLink>)
    ensures |Declarations(links)| == Earlier(links, |links|)
  {
    if links != [] {
      var n := |links| - 1;
      DeclarationCount(links[..n]);
      EarlierPrefix(links, n, n);
    }
  }

  /** Appends the tables of every link; a base and a derived script cannot share a member or type name. */
  method MergeTables(links: seq<ChainLink>) returns (r: Outcome)
    ensures r.Merged? <==> Distinct(Members(links)) && Distinct(Types(links))
    ensures r.Rejected? ==> r.error.Redeclared?
    ensures r.Merged? ==> TablesUpTo(links, |links|, r.program)
    ensures r.Merged? ==> r.program.functions == [] && r.program.origins == map[]
  {
    hide Distinct, AllGlobals, AllSignals, AllStructs, AllTraits, AllEnums, Named;
    var merged := EMPTY;
    var members: set<string>, types: set<string> := {}, {};
    TablesEmpty(links);
    for k := 0 to |links|
      invariant Distinct(Members(links[..k])) && Distinct(Types(links[..k]))
      invariant forall n :: n in members <==> n in Members(links[..k])
      invariant forall n :: n in types <==> n in Types(links[..k])
      invariant TablesUpTo(links, k, merged)
      invariant merged.functions == [] && merged.origins == map[]
    {
      var p := links[k].program;
      ghost var before, kinds := Members(links[..k]), Types(links[..k]);
      assert links[..k + 1][..k] == links[..k] && links[..k + 1][k] == links[k];
      MembersGrow(links, k + 1);
      var clash;
      members, clash := Declare(members, p.globals + p.signals, before);
      if clash.Some? {
        return Rejected(Redeclared(clash.value));
      }
      types, clash := Declare(types, p.structs + p.traits + Named(p.enums), kinds);
      if clash.Some? {
        return Rejected(Redeclared(clash.value));
      }
      TablesNext(links, k, merged);
      merged := merged.(globals := merged.globals + p.globals, signals := merged.signals + p.signals,
        structs := merged.structs + p.structs, traits := merged.traits + p.traits, enums := merged.enums + p.enums);
    }
    assert links[..|links|] == links;
    r := Merged(merged);
  }

  lemma TablesEmpty(links: seq<ChainLink>)
    ensures TablesUpTo(links, 0, EMPTY) && Distinct(Members(links[..0])) && Distinct(Types(links[..0]))
  {
  }

  lemma TablesNext(links: seq<ChainLink>, k: nat, p: Program)
    requires k < |links| && TablesUpTo(links, k, p)
    ensures var q := links[k].program;
      TablesUpTo(links, k + 1, p.(globals := p.globals + q.globals, signals := p.signals + q.signals,
        structs := p.structs + q.structs, traits := p.traits + q.traits, enums := p.enums + q.enums))
  {
    assert links[..k + 1][..k] == links[..k] && links[..k + 1][k] == links[k];
  }

  // ----- functions -----

  ghost predicate IndexedName(all: seq<FunctionDecl>, origins: map<string, seq<Origin>>, visible: map<string, nat>,
                              n: string) {
    var at := Positions(all, n);
    && (n in origins <==> at != []) && (n in visible <==> at != [])
    && (at != [] ==> origins[n] == OriginsOf(all, n) && visible[n] == at[|at| - 1])
  }

  /** The function tables of the merge after the declarations `all`. */
  ghost predicate Indexed(all: seq<FunctionDecl>, fns: seq<FunctionDecl>, origins: map<string, seq<Origin>>,
                          visible: map<string, nat>) {
    && fns == PlacedAll(all)
    && forall n :: IndexedName(all, origins, visible, n)
  }

  /** Each declared name is listed with the link and the symbol of every declaration, root first. */
  ghost predicate HasOrigins(all: seq<FunctionDecl>, origins: map<string, seq<Origin>>) {
    forall n :: if Positions(all, n) == [] then n !in origins else n in origins && origins[n] == OriginsOf(all, n)
  }

  lemma IndexedTables(all: seq<FunctionDecl>, fns: seq<FunctionDecl>, origins: map<string, seq<Origin>>,
                      visible: map<string, nat>)
    requires Indexed(all, fns, origins, visible)
    ensures fns == PlacedAll(all) && HasOrigins(all, origins)
  {
    hide Positions, OriginsOf, PlacedAll;
    forall n: string
      ensures if Positions(all, n) == [] then n !in origins else n in origins && origins[n] == OriginsOf(all, n)
    {
      assert IndexedName(all, origins, visible, n);
    }
  }

  lemma PositionsSnoc(all: seq<FunctionDecl>, d: FunctionDecl, n: string)
    ensures Positions(all + [d], n) == if d.name == n then Positions(all, n) + [|all|] else Positions(all, n)
  {
    assert (all + [d])[..|all|] == all;
  }

  lemma OverriddenSnoc(all: seq<FunctionDecl>, d: FunctionDecl, k: nat)
    requires k < |all|
    ensures Overridden(all + [d], k) <==> Overridden(all, k) || all[k].name == d.name
    ensures !Overridden(all + [d], |all|)
  {
    var more := all + [d];
    if Overridden(all, k) {
      var j :| k < j < |all| && all[j].name == all[k].name;
      assert more[j].name == more[k].name;
    } else if all[k].name == d.name {
      assert more[|all|].name == more[k].name;
    }
    if Overridden(more, k) && all[k].name != d.name {
      var j :| k < j < |more| && more[j].name == more[k].name;
      assert all[j].name == all[k].name;
    }
  }

  /** The last position of a name is the one that is not overridden. */
  lemma LastIsNotOverridden(all: seq<FunctionDecl>, n: string, k: nat)
    requires k < |all| && all[k].name == n
    ensures var at := Positions(all, n); at != [] && (Overridden(all, k) <==> k != at[|at| - 1])
  {
    hide Positions;
    var at := Positions(all, n);
    assert k in at;
    var last := at[|at| - 1];
    if k != last {
      assert k < last && all[last].name == all[k].name;
    }
    if Overridden(all, k) {
      var j :| k < j < |all| && all[j].name == all[k].name;
      assert j in at;
    }
  }

  lemma PlacedSnoc(all: seq<FunctionDecl>, d: FunctionDecl)
    ensures var at := Positions(all, d.name);
      PlacedAll(all + [d]) ==
        (if at == [] then PlacedAll(all)
         else var v := at[|at| - 1];
           PlacedAll(all)[v := all[v].(name := DisplacedSymbol(all[v].link, d.name), chainName := d.name)]) + [d]
  {
    hide Overridden, Positions;
    var at, more := Positions(all, d.name), all + [d];
    forall k | 0 <= k < |all|
      ensures Placed(more, k) ==
        if at != [] && k == at[|at| - 1] then all[k].(name := DisplacedSymbol(all[k].link, d.name), chainName := d.name)
          else Placed(all, k)
    {
      OverriddenSnoc(all, d, k);
      if all[k].name == d.name {
        LastIsNotOverridden(all, d.name, k);
      }
    }
    if all != [] {
      OverriddenSnoc(all, d, 0);
    } else {
      NothingOverrides(d);
    }
    assert Placed(more, |all|) == d;
  }

  lemma NothingOverrides(d: FunctionDecl)
    ensures !Overridden([d], 0) && [] + [d] == [d]
  {
  }

  lemma OriginsSnoc(all: seq<FunctionDecl>, d: FunctionDecl, n: string)
    ensures var was := OriginsOf(all, n);
      OriginsOf(all + [d], n) ==
        if d.name != n then was
        else if was == [] then [Origin(d.link, n)]
        else was[|was| - 1 :=
          Origin(was[|was| - 1].link, DisplacedSymbol(was[|was| - 1].link, n))] + [Origin(d.link, n)]
  {
    hide Overridden, Positions, DisplacedSymbol;
    var more, at := all + [d], Positions(all, n);
    PositionsSnoc(all, d, n);
    PlacedSnoc(all, d);
    forall i | 0 <= i < |at|
      ensures Placed(more, at[i]).name ==
        (if d.name == n && i == |at| - 1 then DisplacedSymbol(all[at[i]].link, n) else Placed(all, at[i]).name)
    {
      assert PlacedAll(more)[at[i]] == Placed(more, at[i]);
      OverriddenSnoc(all, d, at[i]);
      LastIsNotOverridden(all, n, at[i]);
    }
    assert PlacedAll(more)[|all|] == d;
  }

  /** The copy that is visible under a name, and its origin. */
  lemma VisibleCopy(all: seq<FunctionDecl>, n: string)
    requires Positions(all, n) != []
    ensures var v, o := Positions(all, n)[|Positions(all, n)| - 1], OriginsOf(all, n);
      v < |all| && PlacedAll(all)[v] == all[v] && o != [] && o[|o| - 1].link == all[v].link
  {
    hide Positions;
    var at := Positions(all, n);
    LastIsNotOverridden(all, n, at[|at| - 1]);
  }

  lemma IndexedNext(all: seq<FunctionDecl>, decl: FunctionDecl, origins: map<string, seq<Origin>>,
                    visible: map<string, nat>, n: string)
    requires IndexedName(all, origins, visible, n)
    ensures IndexedName(all + [decl], origins[decl.name := OriginsOf(all + [decl], decl.name)],
      visible[decl.name := |all|], n)
  {
    hide Positions, OriginsOf;
    PositionsSnoc(all, decl, n);
    OriginsSnoc(all, decl, n);
  }

  /** One declaration: displace the copy it overrides, then become the visible one. */
  method AddFunction(fns: seq<FunctionDecl>, origins: map<string, seq<Origin>>, visible: map<string, nat>,
                     decl: FunctionDecl, ghost all: seq<FunctionDecl>)
    returns (fns': seq<FunctionDecl>, origins': map<string, seq<Origin>>, visible': map<string, nat>)
    requires Indexed(all, fns, origins, visible)
    ensures Indexed(all + [decl], fns', origins', visible')
  {
    hide Overridden, Positions, DisplacedSymbol, PlacedAll, OriginsOf;
    var name := decl.name;
    assert IndexedName(all, origins, visible, name);
    var found := if name in origins then origins[name] else [];
    fns' := fns;
    if found != [] {
      VisibleCopy(all, name);
      var displaced := found[|found| - 1];
      var symbol := DisplacedSymbol(displaced.link, name);
      found := found[|found| - 1 := displaced.(symbol := symbol)];
      var v := visible[name];
      fns' := fns'[v := fns'[v].(name := symbol, chainName := name)];
    }
    origins' := origins[name := found + [Origin(decl.link, name)]];
    visible' := visible[name := |fns'|];
    fns' := fns' + [decl];
    PlacedSnoc(all, decl);
    OriginsSnoc(all, decl, name);
    forall n
      ensures IndexedName(all + [decl], origins', visible', n)
    {
      IndexedNext(all, decl, origins, visible, n);
    }
  }

  lemma {:induction false} DeclarationsUpTo(links: seq<ChainLink>, k: nat)
    requires k < |links|
    ensures Declarations(links[..k + 1]) == Declarations(links[..k]) + Stamped(links[k].program.functions, k)
  {
    assert links[..k + 1][..k] == links[..k] && links[..k + 1][k] == links[k];
  }

  method MergeFunctions(links: seq<ChainLink>)
    returns (fns: seq<FunctionDecl>, origins: map<string, seq<Origin>>, ghost visible: map<string, nat>,
      twice: Option<string>)
    ensures twice.None? <==> FunctionsDiffer(links)
    ensures twice.None? ==> Indexed(Declarations(links), fns, origins, visible)
  {
    hide Indexed, Distinct;
    fns, origins, twice := [], map[], None;
    var shown: map<string, nat> := map[];
    NothingIndexed();
    for link := 0 to |links|
      invariant twice.None? && forall k :: 0 <= k < link ==> Distinct(Names(links[k].program.functions))
      invariant Indexed(Declarations(links[..link]), fns, origins, shown)
    {
      var source := links[link].program.functions;
      var here: set<string> := {};
      ghost var all := Declarations(links[..link]);
      DeclarationsUpTo(links, link);
      NoNames();
      assert all + Stamped(source, link)[..0] == all;
      for k := 0 to |source|
        invariant Distinct(Names(source)[..k]) && forall n :: n in here <==> n in Names(source)[..k]
        invariant Indexed(all + Stamped(source, link)[..k], fns, origins, shown)
      {
        var name := source[k].name;
        NextName(Names(source), k);
        if name in here {
          twice := Some(name);
          visible := shown;
          return;
        }
        here := here + {name};
        fns, origins, shown :=
          AddFunction(fns, origins, shown, source[k].(link := link), all + Stamped(source, link)[..k]);
        assert all + Stamped(source, link)[..k + 1] == (all + Stamped(source, link)[..k]) + [source[k].(link := link)];
      }
      assert Names(source)[..|source|] == Names(source) && Stamped(source, link)[..|source|] == Stamped(source, link);
    }
    assert links[..|links|] == links;
    visible := shown;
  }

  lemma NothingIndexed()
    ensures Indexed([], [], map[], map[])
  {
  }

  lemma NoNames()
    ensures Distinct([])
  {
  }

  lemma NextName(names: seq<string>, k: nat)
    requires k < |names| && Distinct(names[..k])
    ensures names[..k + 1] == names[..k] + [names[k]]
    ensures names[k] in names[..k] ==> !Distinct(names)
    ensures names[k] !in names[..k] ==> Distinct(names[..k + 1])
  {
    if names[k] in names[..k] {
      var i :| 0 <= i < k && names[..k][i] == names[k];
      NotDistinct(names, i, k);
    }
  }

  /** The whole merge: it succeeds exactly on mergeable chains. */
  method MergeChain(links: seq<ChainLink>) returns (r: Outcome)
    ensures links == [] ==> r == Merged(EMPTY)
    ensures |links| == 1 ==> r == Merged(links[0].program)
    ensures |links| >= 2 ==> (r.Merged? <==> Mergeable(links))
    ensures r.Rejected? && r.error.TooDeep? <==> |links| > MAX_CHAIN_DEPTH
    ensures r.Rejected? && r.error.RepeatedPath? <==> 2 <= |links| <= MAX_CHAIN_DEPTH && !PathsDiffer(links)
    ensures r.Rejected? && r.error.DeclaredTwice? ==> !FunctionsDiffer(links)
    ensures |links| >= 2 && r.Merged? ==> TablesUpTo(links, |links|, r.program)
    ensures |links| >= 2 && r.Merged? ==> r.program.functions == PlacedAll(Declarations(links))
    ensures |links| >= 2 && r.Merged? ==> HasOrigins(Declarations(links), r.program.origins)
    ensures |links| >= 2 && r.Merged? ==> NamesApart(r.program)
    ensures |links| > 16 <==> r == Rejected(TooDeep)
    ensures 2 <= |links| <= 16 && PathsDiffer(links) && FunctionsDiffer(links) ==>
      (r.Merged? <==>
         NamesApart(Program(AllGlobals(links), AllSignals(links), AllStructs(links), AllTraits(links), AllEnums(links),
                            [], map[])))
  {
    hide NamesApart, AllGlobals, AllSignals, AllStructs, AllTraits, AllEnums;
    NamesApartExactly(links);
    hide Indexed, HasOrigins, Distinct, TablesUpTo, Members, Types, Declarations, PathsDiffer, FunctionsDiffer;
    if links == [] {
      return Merged(EMPTY);
    }
    if |links| == 1 {
      return Merged(links[0].program);
    }
    if |links| > MAX_CHAIN_DEPTH {
      return Rejected(TooDeep);
    }
    var repeated := CheckPaths(links);
    if repeated.Some? {
      return Rejected(RepeatedPath(repeated.value));
    }
    r := MergeTables(links);
    if r.Rejected? {
      return;
    }
    var fns, origins, visible, twice := MergeFunctions(links);
    if twice.Some? {
      return Rejected(DeclaredTwice(twice.value));
    }
    IndexedTables(Declarations(links), fns, origins, visible);
    SameTables(links, r.program, r.program.(functions := fns, origins := origins));
    ApartInTables(links, r.program.(functions := fns, origins := origins));
    r := Merged(r.program.(functions := fns, origins := origins));
  }

  lemma SameTables(links: seq<ChainLink>, p: Program, q: Program)
    requires TablesUpTo(links, |links|, p)
    requires q == p.(functions := q.functions, origins := q.origins)
    ensures TablesUpTo(links, |links|, q)
  {
  }

  // ----- what the merge guarantees -----

  lemma {:induction false} ChainIsWellDeclared(links: seq<ChainLink>)
    requires FunctionsDiffer(links)
    ensures WellDeclared(Declarations(links))
    ensures forall k :: 0 <= k < |Declarations(links)| ==> Declarations(links)[k].link < |links|
  {
    if links != [] {
      var n := |links| - 1;
      var fs := links[n].program.functions;
      ChainIsWellDeclared(links[..n]);
      var before, here := Declarations(links[..n]), Stamped(fs, n);
      var all := before + here;
      forall i, j | 0 <= i < j < |all|
        ensures all[i].link <= all[j].link && (all[i].link == all[j].link ==> all[i].name != all[j].name)
      {
        if |before| <= i {
          assert Names(fs)[i - |before|] != Names(fs)[j - |before|];
        }
      }
    }
  }

  /** Each declaration is in the merged program exactly once, in order, with its link and its body. */
  lemma {:induction false} MergeConserves(links: seq<ChainLink>, k: nat)
    requires FunctionsDiffer(links) && k < |Declarations(links)|
    ensures var all, fns := Declarations(links), PlacedAll(Declarations(links));
      && |fns| == |all| && fns[k].link == all[k].link && fns[k].body == all[k].body
      && (forall j :: 0 <= j < |all| && all[j].name == all[k].name && all[j].link == all[k].link ==> j == k)
  {
    hide Declarations, Overridden, DisplacedSymbol;
    ChainIsWellDeclared(links);
  }

  /** Whether displacing a declaration leaves its declared name alone. */
  predicate KeepsDeclaredName(f: FunctionDecl) {
    if f.name == "" then f.chainName == DisplacedSymbol(f.link, "")
    else f.chainName == "" || f.chainName == f.name
  }

  lemma {:induction false} DeclaredNameKept(all: seq<FunctionDecl>, k: nat)
    requires k < |all|
    ensures DeclaredName(PlacedAll(all)[k]) == DeclaredName(all[k]) <==>
      !Overridden(all, k) || KeepsDeclaredName(all[k])
  {
    hide Overridden;
    assert PlacedAll(all)[k] == Placed(all, k);
  }

  /** A base and a derived script may each displace a trait method onto the same symbol. */
  const TRAIT_COPIES: seq<FunctionDecl> :=
    [FunctionDecl("@trait.T.f", "f", 0, 0), FunctionDecl("@trait.T.f", "f", 1, 1)]

  lemma {:induction false} TraitCopyIsRenamed()
    ensures WellDeclared(TRAIT_COPIES) && DeclaredName(TRAIT_COPIES[0]) == "f"
    ensures DeclaredName(PlacedAll(TRAIT_COPIES)[0]) == "@trait.T.f"
  {
    assert TRAIT_COPIES[1].name == TRAIT_COPIES[0].name;
    assert Overridden(TRAIT_COPIES, 0);
  }

  /** No function that stays visible carries the symbol of a displaced one. */
  ghost predicate SymbolsFree(all: seq<FunctionDecl>) {
    forall j, k :: 0 <= j < |all| && 0 <= k < |all| && !Overridden(all, j) && Overridden(all, k) ==>
      all[j].name != DisplacedSymbol(all[k].link, all[k].name)
  }

  lemma PlacedApart(all: seq<FunctionDecl>, i: nat, j: nat)
    requires WellDeclared(all) && SymbolsFree(all) && i < j < |all|
    ensures Placed(all, i).name != Placed(all, j).name
  {
    hide DisplacedSymbol;
    if Overridden(all, i) && Overridden(all, j) && Placed(all, i).name == Placed(all, j).name {
      DisplacedSymbolInjective(all[i].link, all[i].name, all[j].link, all[j].name);
    }
  }

  /** Symbols of the merged program are pairwise distinct exactly when the displaced ones are free. */
  lemma {:induction false} SymbolsDistinct(all: seq<FunctionDecl>)
    requires WellDeclared(all)
    ensures Distinct(Names(PlacedAll(all))) <==> SymbolsFree(all)
  {
    hide WellDeclared, DisplacedSymbol, Overridden;
    var names := Names(PlacedAll(all));
    if SymbolsFree(all) {
      forall i, j | 0 <= i < j < |names|
        ensures names[i] != names[j]
      {
        PlacedApart(all, i, j);
      }
    }
    if Distinct(names) {
      forall j, k | 0 <= j < |all| && 0 <= k < |all| && !Overridden(all, j) && Overridden(all, k)
        ensures all[j].name != DisplacedSymbol(all[k].link, all[k].name)
      {
        assert names[j] == all[j].name && names[k] == DisplacedSymbol(all[k].link, all[k].name) && j != k;
      }
    }
  }

  ghost predicate PlainNames(all: seq<FunctionDecl>) {
    forall k :: 0 <= k < |all| ==> !("@super" <= all[k].name)
  }

  lemma {:induction false} PlainNamesAreFree(all: seq<FunctionDecl>)
    requires PlainNames(all)
    ensures SymbolsFree(all)
  {
    hide Overridden;
    forall j, k | 0 <= j < |all| && 0 <= k < |all| && !Overridden(all, j) && Overridden(all, k)
      ensures all[j].name != DisplacedSymbol(all[k].link, all[k].name)
    {
      assert "@super" <= DisplacedSymbol(all[k].link, all[k].name);
    }
  }

  /** A merged function answers to a source name exactly when it is the most derived declaration of it. */
  lemma {:induction false} MostDerivedIsVisible(all: seq<FunctionDecl>, n: string, k: nat)
    requires WellDeclared(all) && !("@super" <= n) && k < |all|
    ensures PlacedAll(all)[k].name == n <==>
      all[k].name == n && forall j :: 0 <= j < |all| && j != k && all[j].name == n ==> all[j].link < all[k].link
  {
    assert "@super" <= DisplacedSymbol(all[k].link, all[k].name);
    assert PlacedAll(all)[k] == Placed(all, k);
    if PlacedAll(all)[k].name == n {
      assert !Overridden(all, k);
    } else if all[k].name == n {
      var j :| k < j < |all| && all[j].name == all[k].name;
      assert all[k].link <= all[j].link;
    }
  }

  // ----- super -----

  ghost predicate NearestAt(list: seq<Origin>, link: int, o: Origin, i: nat) {
    && i < |list| && list[i] == o && o.link < link
    && forall j :: i < j < |list| ==> link <= list[j].link
  }

  /** The origin of `name` nearest below `link`: the last one listed with a smaller link. */
  ghost predicate NearestBelow(origins: map<string, seq<Origin>>, name: string, link: int, r: Option<Origin>) {
    if name !in origins then r.None?
    else
      var list := origins[name];
      if r.None? then forall i :: 0 <= i < |list| ==> link <= list[i].link
      else exists i :: NearestAt(list, link, r.value, i)
  }

  method SuperOf(origins: map<string, seq<Origin>>, name: string, link: int) returns (r: Option<Origin>)
    ensures NearestBelow(origins, name, link, r)
  {
    r := None;
    if name !in origins {
      return;
    }
    var list := origins[name];
    ghost var at: nat := 0;
    for i := 0 to |list|
      invariant r.None? ==> forall j :: 0 <= j < i ==> link <= list[j].link
      invariant r.Some? ==> NearestAt(list[..i], link, r.value, at)
    {
      if list[i].link < link {
        r := Some(list[i]);
        at := i;
      }
    }
    assert list[..|list|] == list;
  }

  /** `super` has a target exactly when some lower link declares the name. */
  lemma {:induction false} SuperExists(all: seq<FunctionDecl>, origins: map<string, seq<Origin>>, name: string,
                                       link: int, r: Option<Origin>)
    requires HasOrigins(all, origins) && NearestBelow(origins, name, link, r)
    ensures r.None? <==> forall k :: 0 <= k < |all| && all[k].name == name ==> link <= all[k].link
  {
    hide Positions, Placed;
    var at := Positions(all, name);
    if r.None? {
      forall k | 0 <= k < |all| && all[k].name == name
        ensures link <= all[k].link
      {
        var i :| 0 <= i < |at| && at[i] == k;
        assert OriginsOf(all, name)[i].link == all[k].link;
      }
    } else {
      var i: nat :| NearestAt(origins[name], link, r.value, i);
      assert origins[name] == OriginsOf(all, name);
      assert all[at[i]].name == name && all[at[i]].link < link;
    }
  }

  /** The target is the nearest strictly lower declaration, and its symbol names that function and no other. */
  lemma {:induction false} SuperIsNearest(all: seq<FunctionDecl>, origins: map<string, seq<Origin>>, name: string,
                                          link: int, r: Option<Origin>) returns (k: nat)
    requires WellDeclared(all) && SymbolsFree(all)
    requires HasOrigins(all, origins) && NearestBelow(origins, name, link, r) && r.Some?
    ensures k < |all| && all[k].name == name && all[k].link == r.value.link < link
    ensures forall j :: 0 <= j < |all| && all[j].name == name && all[j].link < link && j != k ==>
      all[j].link < all[k].link
    ensures forall j :: 0 <= j < |all| ==> (PlacedAll(all)[j].name == r.value.symbol <==> j == k)
  {
    hide Positions, Placed, SymbolsFree, PlacedAll, WellDeclared, OriginsOf, HasOrigins, NearestBelow;
    var i := ListedNearest(all, origins, name, link, r);
    k := Positions(all, name)[i];
    NothingBetween(all, name, link, i);
    OnlyOneCarries(all, k);
  }

  /** The entry that `super_of` settles on, as a declaration. */
  lemma ListedNearest(all: seq<FunctionDecl>, origins: map<string, seq<Origin>>, name: string, link: int,
                      r: Option<Origin>) returns (i: nat)
    requires HasOrigins(all, origins) && NearestBelow(origins, name, link, r) && r.Some?
    ensures var at := Positions(all, name);
      && i < |at| && r.value == Origin(all[at[i]].link, Placed(all, at[i]).name) && r.value.link < link
      && forall m :: i < m < |at| ==> link <= all[at[m]].link
  {
    hide Positions, Placed;
    var at, list := Positions(all, name), origins[name];
    i :| NearestAt(list, link, r.value, i);
    assert list == OriginsOf(all, name);
    forall m | i < m < |at|
      ensures link <= all[at[m]].link
    {
      assert list[m].link == all[at[m]].link;
    }
  }

  /** Declarations of a name are listed by strictly rising link, so the last one below a link is the nearest. */
  lemma NothingBetween(all: seq<FunctionDecl>, name: string, link: int, i: nat)
    requires WellDeclared(all) && i < |Positions(all, name)|
    requires forall m :: i < m < |Positions(all, name)| ==> link <= all[Positions(all, name)[m]].link
    ensures forall j :: 0 <= j < |all| && all[j].name == name && all[j].link < link && j != Positions(all, name)[i] ==>
      all[j].link < all[Positions(all, name)[i]].link
  {
    hide Positions;
    var at := Positions(all, name);
    forall j | 0 <= j < |all| && all[j].name == name && all[j].link < link && j != at[i]
      ensures all[j].link < all[at[i]].link
    {
      var m :| 0 <= m < |at| && at[m] == j;
    }
  }

  lemma OnlyOneCarries(all: seq<FunctionDecl>, k: nat)
    requires WellDeclared(all) && SymbolsFree(all) && k < |all|
    ensures forall j :: 0 <= j < |all| ==> (PlacedAll(all)[j].name == Placed(all, k).name <==> j == k)
  {
    hide Placed, SymbolsFree, WellDeclared;
    forall j | 0 <= j < |all|
      ensures PlacedAll(all)[j].name == Placed(all, k).name <==> j == k
    {
      if j < k {
        PlacedApart(all, j, k);
      } else if k < j {
        PlacedApart(all, k, j);
      }
    }
  }

  /** The merged tables name every global once and every signal once, and no signal after a global. */
  lemma {:induction false} TablesDistinct(links: seq<ChainLink>)
    requires Distinct(Members(links))
    ensures Distinct(AllGlobals(links)) && Distinct(AllSignals(links))
    ensures forall g, t :: g in AllGlobals(links) && t in AllSignals(links) ==> g != t
    ensures forall n :: n in Members(links) <==> n in AllGlobals(links) || n in AllSignals(links)
  {
    if links != [] {
      var n := |links| - 1;
      var p, before := links[n].program, Members(links[..n]);
      DistinctPrefix(before, p.globals + p.signals);
      TablesDistinct(links[..n]);
      DistinctParts(before, p.globals, p.signals);
      DistinctAppend(AllGlobals(links[..n]), p.globals);
      DistinctAppend(AllSignals(links[..n]), p.signals);
    }
  }

  lemma DistinctAppend(s: seq<string>, t: seq<string>)
    requires Distinct(s) && Distinct(t) && forall n :: n in s ==> n !in t
    ensures Distinct(s + t)
  {
    forall i, j | 0 <= i < j < |s + t|
      ensures (s + t)[i] != (s + t)[j]
    {
      if i < |s| <= j {
        assert s[i] in s && t[j - |s|] in t;
      }
    }
  }

  lemma DistinctParts(s: seq<string>, t: seq<string>, u: seq<string>)
    requires Distinct(s + (t + u))
    ensures Distinct(t) && Distinct(u)
    ensures forall n :: n in s ==> n !in t && n !in u
    ensures forall n :: n in t ==> n !in u
  {
    var all := s + (t + u);
    assert forall i :: 0 <= i < |s| ==> all[i] == s[i];
    assert forall i :: 0 <= i < |t| ==> all[|s| + i] == t[i];
    assert forall i :: 0 <= i < |u| ==> all[|s| + |t| + i] == u[i];
  }
}
