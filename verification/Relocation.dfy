/** Objects that move: what a relocation does to memory, and what it leaves of a string-keyed
    map object. */
module Relocation {
  import O = Objects
  import OM = OrderedMap

  type Addr = O.Ref

  type Val = O.Slot

  /** Heap objects by what their fields mean: a string owns its bytes, an array, a closure
      and a map object own their blocks of slots. */
  datatype Cell =
    | Bytes(text: seq<int>)
    | Str(len: int, bytes: Val)
    | Slots(data: seq<Val>)
    | Arr(len: int, cap: int, slots: Val)
    | Dict(len: int, cap: int, keys: Val, vals: Val)
    | Clo(func: int, upvals: Val)
    | Cursor(idx: int, end: int, arr: Val)
    | Other(fields: seq<int>, kids: seq<Val>)

  type Mem = map<Addr, Cell>

  /** Where objects went. */
  type Names = map<Addr, Addr>

  function Kids(c: Cell): seq<Val> {
    match c
    case Bytes(_) => []
    case Str(_, b) => [b]
    case Slots(data) => data
    case Arr(_, _, b) => [b]
    case Dict(_, _, keys, vals) => [keys, vals]
    case Clo(_, b) => [b]
    case Cursor(_, _, a) => [a]
    case Other(_, kids) => kids
  }

  predicate Within(s: set<Addr>, v: Val) {
    v.Ptr? ==> v.ref in s
  }

  predicate AllWithin(s: set<Addr>, vs: seq<Val>) {
    forall i :: 0 <= i < |vs| ==> Within(s, vs[i])
  }

  predicate Closed(mem: Mem) {
    forall a :: a in mem ==> AllWithin(mem.Keys, Kids(mem[a]))
  }

  function Rename(n: Names, a: Addr): Addr {
    if a in n then n[a] else a
  }

  function RenVal(n: Names, v: Val): Val {
    if v.Ptr? then O.Ptr(Rename(n, v.ref)) else v
  }

  function RenVals(n: Names, vs: seq<Val>): (r: seq<Val>)
    ensures |r| == |vs|
  {
    seq(|vs|, i requires 0 <= i < |vs| => RenVal(n, vs[i]))
  }

  function RenAll(n: Names, hs: seq<Addr>): (r: seq<Addr>)
    ensures |r| == |hs|
  {
    seq(|hs|, i requires 0 <= i < |hs| => Rename(n, hs[i]))
  }

  function RenCell(n: Names, c: Cell): Cell {
    match c
    case Bytes(_) => c
    case Str(len, b) => Str(len, RenVal(n, b))
    case Slots(data) => Slots(RenVals(n, data))
    case Arr(len, cap, b) => Arr(len, cap, RenVal(n, b))
    case Dict(len, cap, keys, vals) => Dict(len, cap, RenVal(n, keys), RenVal(n, vals))
    case Clo(f, b) => Clo(f, RenVal(n, b))
    case Cursor(i, end, a) => Cursor(i, end, RenVal(n, a))
    case Other(fields, kids) => Other(fields, RenVals(n, kids))
  }

  predicate Injective(n: Names) {
    forall a, b :: a in n && b in n && n[a] == n[b] ==> a == b
  }

  /** The objects in `n` moved; the others may be gone. */
  ghost predicate Moved(m0: Mem, m1: Mem, n: Names) {
    && n.Keys <= m0.Keys && Injective(n) && n.Values <= m1.Keys && Closed(m1)
    && forall a {:trigger n[a]} :: a in n ==> n[a] in m1 && m1[n[a]] == RenCell(n, m0[a]) && AllWithin(n.Keys, Kids(m0[a]))
  }

  function Identity(s: set<Addr>): (n: Names)
    ensures n.Keys == s
  {
    map a | a in s :: a
  }

  function Then(n1: Names, n2: Names): Names {
    map a | a in n1 && n1[a] in n2 :: n2[n1[a]]
  }

  lemma IdentityMoves(mem: Mem)
    requires Closed(mem)
    ensures Moved(mem, mem, Identity(mem.Keys))
  {
    var n := Identity(mem.Keys);
    assert n.Values == mem.Keys by {
      forall a | a in mem ensures a in n.Values { assert n[a] == a; }
    }
    forall a | a in n ensures RenCell(n, mem[a]) == mem[a] {
      RenamesNothing(mem.Keys, mem[a]);
    }
  }

  lemma RenamesNothing(s: set<Addr>, c: Cell)
    ensures RenCell(Identity(s), c) == c
  {
    var n := Identity(s);
    match c
    case Slots(data) => assert RenVals(n, data) == data;
    case Other(_, kids) => assert RenVals(n, kids) == kids;
    case _ =>
  }

  lemma RenamedKids(n: Names, c: Cell, s: set<Addr>)
    requires AllWithin(n.Keys, Kids(c)) && n.Values <= s
    ensures AllWithin(s, Kids(RenCell(n, c)))
    ensures Kids(RenCell(n, c)) == RenVals(n, Kids(c))
  {
    var kids, kids' := Kids(c), Kids(RenCell(n, c));
    assert |kids'| == |kids| && forall i :: 0 <= i < |kids| ==> kids'[i] == RenVal(n, kids[i]);
    forall i | 0 <= i < |kids'| ensures Within(s, kids'[i]) {
      assert Within(n.Keys, kids[i]);
      if kids[i].Ptr? { assert n[kids[i].ref] in n.Values; }
    }
  }

  /** Renaming twice is renaming once. */
  lemma RenThen(n1: Names, n2: Names, v: Val)
    requires Within(n1.Keys, v) && Within(n2.Keys, RenVal(n1, v))
    ensures RenVal(n2, RenVal(n1, v)) == RenVal(Then(n1, n2), v) && Within(Then(n1, n2).Keys, v)
  {
  }

  lemma RenValsThen(n1: Names, n2: Names, vs: seq<Val>)
    requires AllWithin(n1.Keys, vs) && AllWithin(n2.Keys, RenVals(n1, vs))
    ensures RenVals(n2, RenVals(n1, vs)) == RenVals(Then(n1, n2), vs) && AllWithin(Then(n1, n2).Keys, vs)
  {
    hide Then, RenVal;
    forall i | 0 <= i < |vs| ensures RenVal(n2, RenVal(n1, vs[i])) == RenVal(Then(n1, n2), vs[i]) && Within(Then(n1, n2).Keys, vs[i]) {
      assert Within(n2.Keys, RenVals(n1, vs)[i]);
      RenThen(n1, n2, vs[i]);
    }
  }

  lemma RenCellThen(n1: Names, n2: Names, c: Cell)
    requires AllWithin(n1.Keys, Kids(c)) && AllWithin(n2.Keys, Kids(RenCell(n1, c)))
    ensures RenCell(n2, RenCell(n1, c)) == RenCell(Then(n1, n2), c) && AllWithin(Then(n1, n2).Keys, Kids(c))
  {
    hide Then, RenVal;
    var kids, kids' := Kids(c), Kids(RenCell(n1, c));
    RenamedKids(n1, c, n1.Values);
    RenValsThen(n1, n2, kids);
    assert forall i :: 0 <= i < |kids| ==> RenVals(n2, RenVals(n1, kids))[i] == RenVals(Then(n1, n2), kids)[i];
    forall i | 0 <= i < |kids| ensures RenVal(n2, RenVal(n1, kids[i])) == RenVal(Then(n1, n2), kids[i]) {
      assert RenVals(n2, RenVals(n1, kids))[i] == RenVals(Then(n1, n2), kids)[i];
    }
    match c
    case Dict(_, _, keys, vals) => assert kids[0] == keys && kids[1] == vals;
    case Str(_, b) => assert kids[0] == b;
    case Arr(_, _, b) => assert kids[0] == b;
    case Clo(_, b) => assert kids[0] == b;
    case Cursor(_, _, a) => assert kids[0] == a;
    case _ =>
  }

  // ---- memory followed through several moves and writes ----------------------------------------

  /** Every object in `n` is where `n` says, and as it was but for the ones in `skip`. */
  ghost predicate Tracks(m0: Mem, m1: Mem, n: Names, skip: set<Addr>) {
    && n.Keys <= m0.Keys && Injective(n)
    && (forall a {:trigger n[a]} :: a in n ==> n[a] in m1)
    && (forall a {:trigger RenCell(n, m0[a])} :: a in n && a !in skip ==> m1[n[a]] == RenCell(n, m0[a]) && AllWithin(n.Keys, Kids(m0[a])))
  }

  lemma TracksFromStart(mem: Mem, skip: set<Addr>)
    requires Closed(mem)
    ensures Tracks(mem, mem, Identity(mem.Keys), skip)
  {
    IdentityMoves(mem);
    forall a | a in mem ensures RenCell(Identity(mem.Keys), mem[a]) == mem[a] { RenamesNothing(mem.Keys, mem[a]); }
  }

  lemma TracksMoved(m0: Mem, m1: Mem, n1: Names, skip: set<Addr>, m2: Mem, n2: Names)
    requires Tracks(m0, m1, n1, skip) && Moved(m1, m2, n2)
    ensures Tracks(m0, m2, Then(n1, n2), skip)
  {
    hide RenCell, Kids, AllWithin;
    var n := Then(n1, n2);
    forall a | a in n ensures n[a] in m2 { assert n2[n1[a]] in n2.Values; }
    forall a, b | a in n && b in n && n[a] == n[b] ensures a == b {
      assert n2[n1[a]] == n2[n1[b]];
    }
    forall a | a in n && a !in skip ensures m2[n[a]] == RenCell(n, m0[a]) && AllWithin(n.Keys, Kids(m0[a])) {
      assert m1[n1[a]] == RenCell(n1, m0[a]);
      RenCellThen(n1, n2, m0[a]);
    }
  }

  /** Writing an object outside the followed ones, or one that may differ. */
  lemma TracksWritten(m0: Mem, m1: Mem, n: Names, skip: set<Addr>, b: Addr, c: Cell)
    requires Tracks(m0, m1, n, skip) && forall a {:trigger n[a]} :: a in n && n[a] == b ==> a in skip
    ensures Tracks(m0, m1[b := c], n, skip)
  {
    hide RenCell, Kids, AllWithin;
    var m2 := m1[b := c];
    forall a | a in n && a !in skip ensures m2[n[a]] == RenCell(n, m0[a]) && AllWithin(n.Keys, Kids(m0[a])) {
      assert m1[n[a]] == RenCell(n, m0[a]);
    }
  }

  // ---- map objects --------------------------------------------------------------------------------

  /** A string object and its bytes. */
  predicate IsText(mem: Mem, v: Val) {
    v.Ptr? && v.ref in mem && mem[v.ref].Str? && mem[v.ref].bytes.Ptr? && mem[v.ref].bytes.ref in mem &&
    mem[mem[v.ref].bytes.ref].Bytes? && |mem[mem[v.ref].bytes.ref].text| == mem[v.ref].len
  }

  function TextOf(mem: Mem, v: Val): OM.Key
    requires IsText(mem, v)
  {
    mem[mem[v.ref].bytes.ref].text
  }

  predicate IsBlock(mem: Mem, v: Val, cap: int) {
    if cap == 0 then v.Null? else v.Ptr? && v.ref in mem && mem[v.ref].Slots? && |mem[v.ref].data| == cap
  }

  function Block(mem: Mem, v: Val): seq<Val> {
    if v.Ptr? && v.ref in mem && mem[v.ref].Slots? then mem[v.ref].data else []
  }

  /** A map object: two blocks of its own, string keys in the first `len` places. */
  predicate Shape(mem: Mem, m: Addr) {
    m in mem && mem[m].Dict? &&
    var d := mem[m];
    0 <= d.len <= d.cap && IsBlock(mem, d.keys, d.cap) && IsBlock(mem, d.vals, d.cap) && (d.cap > 0 ==> d.keys != d.vals) &&
    forall i :: 0 <= i < d.len ==> IsText(mem, Block(mem, d.keys)[i])
  }

  function Entries(mem: Mem, m: Addr): (es: seq<OM.Entry<Val>>)
    requires Shape(mem, m)
    ensures |es| == mem[m].len
  {
    var d := mem[m];
    seq(d.len, i requires 0 <= i < d.len => (TextOf(mem, Block(mem, d.keys)[i]), Block(mem, d.vals)[i]))
  }

  predicate DictOk(mem: Mem, m: Addr) {
    Shape(mem, m) && OM.Unique(Entries(mem, m))
  }

  /** The object and its two blocks. */
  function Owned(mem: Mem, m: Addr): set<Addr>
    requires m in mem && mem[m].Dict?
  {
    {m} + (if mem[m].keys.Ptr? then {mem[m].keys.ref} else {}) + (if mem[m].vals.Ptr? then {mem[m].vals.ref} else {})
  }

  function RenEntries(n: Names, es: seq<OM.Entry<Val>>): (r: seq<OM.Entry<Val>>)
    ensures |r| == |es|
  {
    seq(|es|, i requires 0 <= i < |es| => (es[i].0, RenVal(n, es[i].1)))
  }

  predicate EntriesWithin(s: set<Addr>, es: seq<OM.Entry<Val>>) {
    forall i :: 0 <= i < |es| ==> Within(s, es[i].1)
  }

  lemma RenEntriesThen(n1: Names, n2: Names, es: seq<OM.Entry<Val>>)
    requires EntriesWithin(n1.Keys, es) && EntriesWithin(n2.Keys, RenEntries(n1, es))
    ensures RenEntries(n2, RenEntries(n1, es)) == RenEntries(Then(n1, n2), es) && EntriesWithin(Then(n1, n2).Keys, es)
  {
    hide Then, RenVal;
    forall i | 0 <= i < |es| ensures RenVal(n2, RenVal(n1, es[i].1)) == RenVal(Then(n1, n2), es[i].1) && Within(Then(n1, n2).Keys, es[i].1) {
      assert Within(n2.Keys, RenEntries(n1, es)[i].1);
      RenThen(n1, n2, es[i].1);
    }
  }

  /** A text moves with its bytes. */
  lemma TextMoves(m0: Mem, m1: Mem, n: Names, v: Val)
    requires Moved(m0, m1, n) && IsText(m0, v) && v.ref in n
    ensures IsText(m1, RenVal(n, v)) && TextOf(m1, RenVal(n, v)) == TextOf(m0, v)
  {
    var s := m0[v.ref];
    assert m1[n[v.ref]] == RenCell(n, s) && AllWithin(n.Keys, Kids(s));
    assert Kids(s)[0] == s.bytes && Within(n.Keys, Kids(s)[0]);
    assert m1[n[s.bytes.ref]] == RenCell(n, m0[s.bytes.ref]);
  }

  /** A block moves with its contents. */
  lemma BlockMoves(m0: Mem, m1: Mem, n: Names, v: Val, cap: int)
    requires Moved(m0, m1, n) && IsBlock(m0, v, cap) && Within(n.Keys, v)
    ensures IsBlock(m1, RenVal(n, v), cap) && Block(m1, RenVal(n, v)) == RenVals(n, Block(m0, v)) && AllWithin(n.Keys, Block(m0, v))
  {
    if v.Ptr? {
      assert m1[n[v.ref]] == RenCell(n, m0[v.ref]);
    }
  }

  /** A map object that moves is the same map, its values renamed. */
  lemma DictMoves(m0: Mem, m1: Mem, n: Names, m: Addr)
    requires Moved(m0, m1, n) && DictOk(m0, m) && m in n
    ensures DictOk(m1, n[m]) && Entries(m1, n[m]) == RenEntries(n, Entries(m0, m)) && EntriesWithin(n.Keys, Entries(m0, m))
  {
    hide Moved, IsText, TextOf, IsBlock, Block, RenVal, AllWithin;
    DictParts(m0, m1, n, m);
    var d := m0[m];
    BlockMoves(m0, m1, n, d.keys, d.cap);
    BlockMoves(m0, m1, n, d.vals, d.cap);
    forall i | 0 <= i < d.len
      ensures IsText(m1, RenVal(n, Block(m0, d.keys)[i])) && TextOf(m1, RenVal(n, Block(m0, d.keys)[i])) == TextOf(m0, Block(m0, d.keys)[i])
      ensures Within(n.Keys, Block(m0, d.vals)[i])
    {
      BlockEntry(n, m0, d.keys, i, d.cap);
      BlockEntry(n, m0, d.vals, i, d.cap);
      TextPtr(m0, Block(m0, d.keys)[i]);
      TextMoves(m0, m1, n, Block(m0, d.keys)[i]);
    }
    var es, es' := Entries(m0, m), Entries(m1, n[m]);
    forall i | 0 <= i < d.len ensures es'[i] == (es[i].0, RenVal(n, es[i].1)) {
      assert Block(m1, RenVal(n, d.keys))[i] == RenVal(n, Block(m0, d.keys)[i]);
    }
    assert es' == RenEntries(n, es);
    forall i, j | 0 <= i < j < d.len ensures es'[i].0 != es'[j].0 {
      assert es[i].0 != es[j].0;
    }
  }

  lemma TextPtr(mem: Mem, v: Val)
    requires IsText(mem, v)
    ensures v.Ptr?
  {
  }

  lemma BlockEntry(n: Names, mem: Mem, v: Val, i: nat, cap: int)
    requires AllWithin(n.Keys, Block(mem, v)) && i < cap && IsBlock(mem, v, cap)
    ensures i < |Block(mem, v)| && Within(n.Keys, Block(mem, v)[i])
  {
  }

  lemma DictParts(m0: Mem, m1: Mem, n: Names, m: Addr)
    requires Moved(m0, m1, n) && Shape(m0, m) && m in n
    ensures n[m] in m1 && m1[n[m]] == Dict(m0[m].len, m0[m].cap, RenVal(n, m0[m].keys), RenVal(n, m0[m].vals))
    ensures Within(n.Keys, m0[m].keys) && Within(n.Keys, m0[m].vals)
    ensures m0[m].cap > 0 ==> RenVal(n, m0[m].keys) != RenVal(n, m0[m].vals)
    ensures |Block(m0, m0[m].keys)| == m0[m].cap && |Block(m0, m0[m].vals)| == m0[m].cap
  {
    var d := m0[m];
    assert n[m] in n.Values && m1[n[m]] == RenCell(n, d) && AllWithin(n.Keys, Kids(d));
    assert Kids(d)[0] == d.keys && Kids(d)[1] == d.vals;
    assert Within(n.Keys, Kids(d)[0]) && Within(n.Keys, Kids(d)[1]);
  }

  lemma BlocksAre(mem: Mem, m: Addr)
    requires DictOk(mem, m)
    ensures m in mem && mem[m].Dict? && 0 <= mem[m].len <= mem[m].cap && |Block(mem, mem[m].keys)| == |Block(mem, mem[m].vals)| == mem[m].cap
    ensures mem[m].cap > 0 ==> mem[m].keys.Ptr? && mem[m].vals.Ptr? && mem[m].keys.ref != mem[m].vals.ref
  {
  }
}
