/** Heap objects: an address is an arena plus an offset, an object is a kind, a
    header (age, mark, forwarding address), scalar fields and an ordered list of
    child slots. A memory maps the header addresses of the objects that are not
    poisoned to those objects, so reading anything else does not verify. */
module Objects {

  datatype Option<+T> = None | Some(value: T)

  datatype Arena = SpaceA | SpaceB | Old

  datatype Ref = Ref(arena: Arena, off: nat)

  /** A child slot: a null pointer, a value that is not an object, or a pointer. */
  datatype Slot = Null | Scalar(bits: int) | Ptr(ref: Ref)

  datatype Kind = String | Array | Map | Function | Bytes | Slots | Closure | Iter

  /** `data` holds the scalar fields: String [len], Array [len, cap], Map [len, cap],
      Function [func_index], Closure [func_index], Iter [idx, len], Bytes its bytes.
      `slots` holds the children in the order in which the collector visits them. */
  datatype Object = Object(kind: Kind, age: nat, mark: bool, fwd: Option<Ref>,
                           data: seq<int>, slots: seq<Slot>)

  type Mem = map<Ref, Object>

  const PROMOTE_THRESHOLD := 2

  /** The age of a survivor that stays young (a saturating byte). */
  function Aged(age: nat): nat {
    if age < 255 then age + 1 else 255
  }

  function Align8(n: nat): nat {
    (n + 7) / 8 * 8
  }

  /** The unaligned footprint by kind, with the sizes of the C++ structs. */
  function SizeOf(o: Object): nat {
    match o.kind
    case Bytes => 24 + |o.data|
    case Slots => 40 + 16 * |o.slots|
    case String => 32
    case Array => 32
    case Map => 40
    case Function => 24
    case Closure => 32
    case Iter => 32
  }

  function Extent(o: Object): (n: nat)
    ensures n >= 24
  {
    Align8(SizeOf(o))
  }

  lemma ExtentIsAligned(o: Object)
    ensures Extent(o) == Align8(SizeOf(o))
  {
  }

  predicate WellFormed(o: Object) {
    match o.kind
    case Bytes => |o.slots| == 0
    case Slots => |o.data| == 0
    case String => |o.slots| == 1 && |o.data| == 1
    case Array => |o.slots| == 1 && |o.data| == 2
    case Map => |o.slots| == 2 && |o.data| == 2
    case Function => |o.slots| == 0 && |o.data| == 1
    case Closure => |o.slots| == 1 && |o.data| == 1
    case Iter => |o.slots| == 1 && |o.data| == 2
  }

  /** Equal up to the header and to what the pointers are. */
  predicate SameShape(a: Object, b: Object) {
    a.kind == b.kind && a.data == b.data && |a.slots| == |b.slots|
  }

  lemma SameExtent(a: Object, b: Object)
    requires SameShape(a, b)
    ensures Extent(a) == Extent(b)
  {
  }

  predicate CleanHeader(o: Object) {
    o.fwd.None? && !o.mark
  }

  /** Every pointer of `o` leads to an object of `m`. */
  ghost predicate PointsInto(o: Object, m: Mem) {
    forall i :: 0 <= i < |o.slots| && o.slots[i].Ptr? ==> o.slots[i].ref in m
  }

  ghost predicate Closed(m: Mem) {
    forall r {:trigger PointsInto(m[r], m)} :: r in m ==> PointsInto(m[r], m)
  }

  ghost predicate RootsInto(roots: seq<Slot>, m: Mem) {
    forall i :: 0 <= i < |roots| && roots[i].Ptr? ==> roots[i].ref in m
  }

  /** One of the first `n` slots of `o` holds a pointer into `arena`. */
  ghost predicate HoldsBelow(o: Object, n: nat, arena: Arena)
    requires n <= |o.slots|
  {
    exists i :: 0 <= i < n && o.slots[i].Ptr? && o.slots[i].ref.arena == arena
  }

  ghost predicate Holds(o: Object, arena: Arena) {
    HoldsBelow(o, |o.slots|, arena)
  }

  lemma StoreSame(m: Mem, h: Ref, i: nat)
    requires h in m && i < |m[h].slots|
    ensures m[h := m[h].(slots := m[h].slots[i := m[h].slots[i]])] == m
  {
    assert m[h].slots[i := m[h].slots[i]] == m[h].slots;
  }

  ghost predicate NoDuplicates(s: seq<Ref>) {
    forall i, j :: 0 <= i < j < |s| ==> s[i] != s[j]
  }

  // ---- arenas as gap-free runs of objects --------------------------------

  /** The objects of `arena` are exactly a gap-free run filling [0, top). */
  ghost predicate Tiles(m: Mem, arena: Arena, top: nat) {
    && (top == 0 || Ref(arena, 0) in m)
    && (forall r {:trigger FitsRun(m, r, top)} :: r in m && r.arena == arena ==> FitsRun(m, r, top))
    && (forall r, q {:trigger Apart(m, r, q)} ::
          r in m && q in m && r.arena == arena && q.arena == arena && r.off < q.off ==> Apart(m, r, q))
  }

  ghost predicate FitsRun(m: Mem, r: Ref, top: nat)
    requires r in m
  {
    var end := r.off + Extent(m[r]);
    end == top || (end < top && Ref(r.arena, end) in m)
  }

  ghost predicate Apart(m: Mem, r: Ref, q: Ref)
    requires r in m
  {
    r.off + Extent(m[r]) <= q.off
  }

  /** A walk position: an object header or the end of the run. */
  ghost predicate Boundary(m: Mem, arena: Arena, top: nat, s: nat) {
    s == top || (s < top && Ref(arena, s) in m)
  }

  /** `m'` has the same headers with the same extents in `arena`. */
  ghost predicate SameRun(m: Mem, m': Mem, arena: Arena) {
    forall r: Ref :: r.arena == arena ==> (r in m <==> r in m') && (r in m ==> Extent(m'[r]) == Extent(m[r]))
  }

  lemma SameRunTiles(m: Mem, m': Mem, arena: Arena, top: nat)
    requires Tiles(m, arena, top) && SameRun(m, m', arena)
    ensures Tiles(m', arena, top)
  {
    hide Extent;
    assert Ref(arena, 0).arena == arena;
    forall r | r in m' && r.arena == arena ensures FitsRun(m', r, top) {
      assert FitsRun(m, r, top);
      assert Ref(arena, r.off + Extent(m[r])).arena == arena;
    }
    forall r, q | r in m' && q in m' && r.arena == arena && q.arena == arena && r.off < q.off
      ensures Apart(m', r, q)
    {
      assert Apart(m, r, q);
    }
  }

  /** Placing a fresh object at the end of the run extends the run by its extent. */
  lemma AppendTiles(m: Mem, arena: Arena, top: nat, o: Object)
    requires Tiles(m, arena, top)
    ensures Ref(arena, top) !in m
    ensures Tiles(m[Ref(arena, top) := o], arena, top + Extent(o))
  {
    hide Extent;
    var n := Ref(arena, top);
    forall r | r in m && r.arena == arena ensures r.off < top {
      assert FitsRun(m, r, top);
    }
    var m' := m[n := o];
    forall r | r in m' && r.arena == arena ensures FitsRun(m', r, top + Extent(o)) {
      assert r != n ==> FitsRun(m, r, top);
    }
    forall r, q | r in m' && q in m' && r.arena == arena && q.arena == arena && r.off < q.off
      ensures Apart(m', r, q)
    {
      assert q in m || q == n;
      assert r != n ==> FitsRun(m, r, top);
      assert r != n && q != n ==> Apart(m, r, q);
    }
  }

  /** What a heap looks like between collections. */
  ghost predicate GoodHeap(m: Mem, from: Arena, top: nat, oldTop: nat, semi: nat, oldSize: nat) {
    && from != Old
    && (forall r :: r in m ==> (r.arena == from || r.arena == Old) && CleanHeader(m[r]))
    && Closed(m)
    && Tiles(m, from, top) && Tiles(m, Old, oldTop)
    && top <= semi && oldTop <= oldSize
  }

  // ---- total size of a set of objects ------------------------------------

  ghost function TotalExtent(m: Mem, s: set<Ref>): nat
    requires s <= m.Keys
  {
    if s == {} then 0 else
      var x :| x in s;
      Extent(m[x]) + TotalExtent(m, s - {x})
  }

  lemma {:induction false} TotalExtentRemove(m: Mem, s: set<Ref>, x: Ref)
    requires s <= m.Keys && x in s
    ensures TotalExtent(m, s) == Extent(m[x]) + TotalExtent(m, s - {x})
    decreases s
  {
    var y :| y in s && TotalExtent(m, s) == Extent(m[y]) + TotalExtent(m, s - {y});
    if y != x {
      TotalExtentRemove(m, s - {y}, x);
      TotalExtentRemove(m, s - {x}, y);
      assert s - {y} - {x} == s - {x} - {y};
    }
  }

  lemma {:induction false} TotalExtentSubset(m: Mem, s: set<Ref>, t: set<Ref>)
    requires s <= t <= m.Keys
    ensures TotalExtent(m, s) <= TotalExtent(m, t)
    decreases t
  {
    if s != t {
      assert exists x :: x in t && x !in s;
      var x :| x in t && x !in s;
      TotalExtentRemove(m, t, x);
      TotalExtentSubset(m, s, t - {x});
    }
  }

  lemma {:induction false} TotalExtentSame(m: Mem, m': Mem, s: set<Ref>)
    requires s <= m.Keys && s <= m'.Keys && forall r :: r in s ==> Extent(m[r]) == Extent(m'[r])
    ensures TotalExtent(m, s) == TotalExtent(m', s)
    decreases s
  {
    if s != {} {
      var x :| x in s;
      TotalExtentRemove(m, s, x);
      TotalExtentRemove(m', s, x);
      TotalExtentSame(m, m', s - {x});
    }
  }

  /** A part as large as the whole is the whole. */
  lemma TotalExtentStrict(m: Mem, s: set<Ref>, t: set<Ref>)
    requires s <= t <= m.Keys && TotalExtent(m, s) == TotalExtent(m, t)
    ensures s == t
  {
    hide Extent;
    if x :| x in t && x !in s {
      TotalExtentRemove(m, t, x);
      TotalExtentSubset(m, s, t - {x});
    }
  }

  ghost function Below(m: Mem, arena: Arena, s: nat): set<Ref> {
    set r | r in m && r.arena == arena && r.off < s
  }

  /** In a gap-free run the objects below a walk position fill exactly that many bytes. */
  lemma {:induction false} RunExtent(m: Mem, arena: Arena, top: nat, s: nat)
    requires Tiles(m, arena, top) && Boundary(m, arena, top, s)
    ensures TotalExtent(m, Below(m, arena, s)) == s
    decreases s
  {
    hide Extent;
    var b := Below(m, arena, s);
    if s != 0 {
      var p := LastBelow(m, arena, top, s, 0);
      RunExtent(m, arena, top, p);
      forall r | r in b - {Ref(arena, p)} ensures r in Below(m, arena, p) {
        assert r.off > p ==> Apart(m, Ref(arena, p), r);
      }
      assert b - {Ref(arena, p)} == Below(m, arena, p);
      TotalExtentRemove(m, b, Ref(arena, p));
    } else {
      assert b == {};
    }
  }

  /** The object that ends at walk position `s`, found by walking up from `from`. */
  lemma {:induction false} LastBelow(m: Mem, arena: Arena, top: nat, s: nat, from: nat) returns (p: nat)
    requires Tiles(m, arena, top) && Boundary(m, arena, top, s)
    requires Ref(arena, from) in m && from < s
    ensures Ref(arena, p) in m && p + Extent(m[Ref(arena, p)]) == s
    decreases s - from
  {
    hide Extent;
    var r := Ref(arena, from);
    assert FitsRun(m, r, top);
    assert s != top ==> Ref(arena, s) in m && Apart(m, r, Ref(arena, s));
    var next := from + Extent(m[r]);
    if next == s { return from; }
    p := LastBelow(m, arena, top, s, next);
  }
}
