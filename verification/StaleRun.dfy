/** The stale remembered set is reachable: from an empty heap, by nothing but allocations,
    one store and collections, and without ever exceeding the cap. */
module StaleRun {
  import opened Objects
  import Graph
  import opened Minor
  import opened Major
  import opened Remembered
  import opened HeapModel

  const EMPTY := Object(Slots, 0, false, None, [], [Null])

  /** What a minor collection that started with nothing remembered tells about the root cells. */
  ghost predicate Minored(m0: Mem, from0: Arena, cells0: seq<Slot>, m: Mem, cells: seq<Slot>, names: map<Ref, Ref>, oldTop: nat, oldSize: nat) {
    && Graph.Renaming(m0, m, names) && Graph.RootsRenamed(cells0, cells, names)
    && (forall r :: r in m0 && r.arena == Old ==> r in names && names[r] == r)
    && (forall r :: r in names && r.arena == from0 ==> r in m0 && TenuredAs(m0[r], m, names[r], oldTop, oldSize))
    && (forall x :: x in m ==> exists r :: r in names && names[r] == x)
    && StayYoung(m0, from0, cells0, cells)
  }

  lemma MinoredIf(m0: Mem, from0: Arena, cells0: seq<Slot>, m: Mem, cells: seq<Slot>, names: map<Ref, Ref>, oldTop: nat, oldSize: nat)
    requires Graph.Renaming(m0, m, names) && Graph.RootsRenamed(cells0, cells, names)
    requires forall r :: r in m0 && r.arena == Old ==> r in names && names[r] == r
    requires forall r :: r in m0 && r in names && r.arena == from0 ==> TenuredAs(m0[r], m, names[r], oldTop, oldSize)
    requires forall x :: x in m ==> exists r :: r in names && names[r] == x
    requires StayYoung(m0, from0, cells0, cells)
    ensures Minored(m0, from0, cells0, m, cells, names, oldTop, oldSize)
  {
    hide TenuredAs, StayYoung, Graph.RootsRenamed;
  }

  lemma YoungBelow(m: Mem, from: Arena, top: nat, oldTop: nat, semi: nat, oldSize: nat)
    requires GoodHeap(m, from, top, oldTop, semi, oldSize)
    ensures from != Old && Ref(from, top) !in m
  {
    assert Ref(from, top) in m ==> FitsRun(m, Ref(from, top), top);
  }

  /** `m` holds just `o` at `r`, aged `age`. */
  predicate Holding(m: Mem, r: Ref, o: Object, age: nat) {
    r in m && m[r] == o.(age := age)
  }

  lemma Sizes()
    ensures Extent(DEAD) == Extent(CHILD) == 24 && Extent(EMPTY) == 56
    ensures forall a: nat :: Extent(DEAD.(age := a)) == Extent(CHILD.(age := a)) == 24 && Extent(EMPTY.(age := a)) == 56
  {
  }

  /** A root below promotion age is one cycle older, and still young. */
  lemma StaysYoung(m0: Mem, from0: Arena, cells0: seq<Slot>, m: Mem, from: Arena, cells: seq<Slot>, names: map<Ref, Ref>,
                   top: nat, oldTop: nat, semi: nat, oldSize: nat, i: nat, o: Object)
    requires Minored(m0, from0, cells0, m, cells, names, oldTop, oldSize) && GoodHeap(m, from, top, oldTop, semi, oldSize)
    requires i < |cells0| && cells0[i].Ptr? && cells0[i].ref.arena == from0 && Holding(m0, cells0[i].ref, o, 0)
    requires o.slots == [] || o.slots == [Null]
    ensures i < |cells| && cells[i] == Ptr(names[cells0[i].ref]) && cells[i].ref.arena == from
    ensures CleanHeader(o) ==> Holding(m, cells[i].ref, o, 1)
  {
    hide Extent, Tiles;
    assert Newcomer(m0, from0, cells0[i]);
    assert Graph.SlotRenamed(cells0[i], cells[i], names);
    var r := cells0[i].ref;
    assert Graph.ObjectRenamed(m0[r], m[names[r]], names) && TenuredAs(m0[r], m, names[r], oldTop, oldSize);
  }

  /** A root of promotion age is promoted if it fits. */
  lemma IsPromoted(m0: Mem, from0: Arena, cells0: seq<Slot>, m: Mem, from: Arena, cells: seq<Slot>, names: map<Ref, Ref>,
                   top: nat, oldTop: nat, semi: nat, oldSize: nat, i: nat, o: Object)
    requires Minored(m0, from0, cells0, m, cells, names, oldTop, oldSize) && GoodHeap(m, from, top, oldTop, semi, oldSize)
    requires i < |cells0| && cells0[i].Ptr? && cells0[i].ref.arena == from0 && Holding(m0, cells0[i].ref, o, 1)
    requires top + oldTop <= oldSize
    ensures i < |cells| && cells[i] == Ptr(names[cells0[i].ref]) && cells[i].ref.arena == Old && cells[i].ref in m
    ensures m[cells[i].ref].age == 0 && Graph.ObjectRenamed(m0[cells0[i].ref], m[cells[i].ref], names)
  {
    assert Graph.SlotRenamed(cells0[i], cells[i], names);
    var r := cells0[i].ref;
    assert Graph.ObjectRenamed(m0[r], m[names[r]], names) && TenuredAs(m0[r], m, names[r], oldTop, oldSize);
    hide Extent;
    assert names[r].arena == from ==> FitsRun(m, names[r], top);
  }

  /** Nobody holds anything, so nothing is remembered. */
  lemma NoneRemembered(m: Mem, from: Arena, rem: seq<Ref>)
    requires RemembersExactly(m, from, rem) && forall r :: r in m && r.arena == Old ==> m[r].slots == []
    ensures rem == []
  {
    if rem != [] {
      HasFirst(rem);
    }
  }

  lemma HasFirst(rem: seq<Ref>)
    requires rem != []
    ensures exists h :: h in rem
  {
    assert rem[0] in rem;
  }

  lemma FirstRound(m0: Mem, x0: Ref, from0: Arena, m: Mem, from: Arena, cells: seq<Slot>, names: map<Ref, Ref>,
                   top: nat, oldTop: nat, semi: nat, oldSize: nat) returns (x: Ref)
    requires m0 == map[x0 := DEAD] && x0.arena == from0
    requires Minored(m0, from0, [Ptr(x0)], m, cells, names, oldTop, oldSize) && GoodHeap(m, from, top, oldTop, semi, oldSize)
    ensures cells == [Ptr(x)] && x.arena == from && m == map[x := DEAD.(age := 1)]
  {
    StaysYoung(m0, from0, [Ptr(x0)], m, from, cells, names, top, oldTop, semi, oldSize, 0, DEAD);
    x := cells[0].ref;
    forall y | y in m ensures y == x {
      var r :| r in names && names[r] == y;
    }
    hide GoodHeap;
  }

  lemma SecondRound(m0: Mem, x0: Ref, y0: Ref, from0: Arena, m: Mem, from: Arena, cells: seq<Slot>, names: map<Ref, Ref>,
                    top: nat, oldTop: nat, semi: nat, oldSize: nat) returns (x: Ref, y: Ref)
    requires m0 == map[x0 := DEAD.(age := 1), y0 := EMPTY] && x0 != y0 && x0.arena == from0 && y0.arena == from0 && from0 != Old
    requires Minored(m0, from0, [Ptr(x0), Ptr(y0)], m, cells, names, oldTop, oldSize) && GoodHeap(m, from, top, oldTop, semi, oldSize)
    requires top + oldTop <= oldSize
    ensures cells == [Ptr(x), Ptr(y)] && x == Ref(Old, 0) && y.arena == from
    ensures m == map[x := DEAD, y := EMPTY.(age := 1)] && oldTop >= 24
  {
    hide Extent, GoodHeap, StayYoung, TenuredAs;
    var cells0 := [Ptr(x0), Ptr(y0)];
    IsPromoted(m0, from0, cells0, m, from, cells, names, top, oldTop, semi, oldSize, 0, DEAD);
    StaysYoung(m0, from0, cells0, m, from, cells, names, top, oldTop, semi, oldSize, 1, EMPTY);
    x, y := cells[0].ref, cells[1].ref;
    forall z | z in m ensures z == x || z == y {
      var r :| r in names && names[r] == z;
    }
    OnlyOld(m, x, y, from, top, oldTop, semi, oldSize);
  }

  /** An old object by itself is at the bottom. */
  lemma OnlyOld(m: Mem, x: Ref, y: Ref, from: Arena, top: nat, oldTop: nat, semi: nat, oldSize: nat)
    requires GoodHeap(m, from, top, oldTop, semi, oldSize) && m.Keys == {x, y} && x.arena == Old && y.arena == from
    ensures x == Ref(Old, 0) && oldTop >= 24 && CleanHeader(m[x])
  {
    hide Extent;
    assert FitsRun(m, x, oldTop) && Extent(m[x]) >= 24;
    assert Ref(Old, 0) in m;
  }

  lemma ThirdRound(m0: Mem, x: Ref, y0: Ref, c0: Ref, from0: Arena, m: Mem, from: Arena, cells: seq<Slot>, names: map<Ref, Ref>,
                   top: nat, oldTop: nat, semi: nat, oldSize: nat) returns (y: Ref, c: Ref)
    requires m0 == map[x := DEAD, y0 := EMPTY.(age := 1, slots := [Ptr(c0)]), c0 := CHILD] && x == Ref(Old, 0) && y0 != c0
    requires y0.arena == from0 && c0.arena == from0 && from0 != Old
    requires Minored(m0, from0, [Ptr(y0), Ptr(c0)], m, cells, names, oldTop, oldSize) && GoodHeap(m, from, top, oldTop, semi, oldSize)
    requires top + oldTop <= oldSize
    ensures cells == [Ptr(y), Ptr(c)] && y.arena == Old && c.arena == from && x != y && oldTop >= 80
    ensures m.Keys == {x, y, c} && m[x].slots == [] && m[y].slots == [Ptr(c)] && m[c].slots == []
  {
    hide Extent, GoodHeap, StayYoung, TenuredAs;
    var cells0 := [Ptr(y0), Ptr(c0)];
    IsPromoted(m0, from0, cells0, m, from, cells, names, top, oldTop, semi, oldSize, 0, EMPTY.(slots := [Ptr(c0)]));
    StaysYoung(m0, from0, cells0, m, from, cells, names, top, oldTop, semi, oldSize, 1, CHILD);
    y, c := cells[0].ref, cells[1].ref;
    forall z | z in m ensures z == x || z == y || z == c {
      var r :| r in names && names[r] == z;
    }
    assert x in names && names[x] == x && Graph.ObjectRenamed(m0[x], m[x], names);
    assert Graph.SlotRenamed(Ptr(c0), m[y].slots[0], names);
    TwoOld(m, x, y, from, top, oldTop, semi, oldSize);
  }

  /** The dead object at the bottom and the holder take up eighty bytes. */
  lemma TwoOld(m: Mem, x: Ref, y: Ref, from: Arena, top: nat, oldTop: nat, semi: nat, oldSize: nat)
    requires GoodHeap(m, from, top, oldTop, semi, oldSize) && x in m && y in m
    requires x == Ref(Old, 0) && y.arena == Old && x != y && SameShape(m[x], DEAD) && SameShape(m[y], EMPTY)
    ensures oldTop >= 80
  {
    Sizes();
    SameExtent(m[y], EMPTY);
    SameExtent(m[x], DEAD);
    hide Extent;
    assert FitsRun(m, y, oldTop) && Apart(m, x, y);
  }

  /** Then the object at the bottom of the old arena is dead, and the holder above it is remembered. */
  lemma DeadBelow(m: Mem, x: Ref, y: Ref, c: Ref, from: Arena, rem: seq<Ref>)
    requires m.Keys == {x, y, c} && m[x].slots == [] && m[y].slots == [Ptr(c)] && m[c].slots == []
    requires x == Ref(Old, 0) && y.arena == Old && c.arena == from && from != Old && x != y && RemembersExactly(m, from, rem)
    ensures !NoneDeadUpTo(m, from, [Ptr(y), Ptr(c)], rem)
  {
    assert m[y].slots[0] == Ptr(c);
    assert Holds(m[y], from) && y in rem;
    Graph.Unreachable(m, [Ptr(y), Ptr(c)], {y, c}, x);
    forall z | z in m && z.arena == from ensures !Graph.Reachable(m, [Ptr(z)], x) {
      Graph.Unreachable(m, [Ptr(z)], {y, c}, x);
    }
    assert !Held(m, from, [Ptr(y), Ptr(c)], x);
  }

  /** An object is promoted, and a holder of nothing has survived one collection. */
  method Prepare() returns (h: Heap, ghost x: Ref, y: Ref)
    ensures fresh(h) && h.Shape() && h.RememberedInv() && h.remembered == [] && h.handles == [] && !h.overCap
    ensures h.semi == h.oldSize == 104 && h.oldTop >= 24 && h.top + h.oldTop <= 80
    ensures h.cells == [Ptr(x), Ptr(y)] && x == Ref(Old, 0) && y.arena == h.from
    ensures h.mem == map[x := DEAD, y := EMPTY.(age := 1)]
  {
    hide Extent, GoodHeap, Minored, RemembersExactly, NoDuplicates, StayYoung, TenuredAs, Graph.Renaming, Graph.RootsRenamed;
    Sizes();
    h := new Heap(104);
    var s, lost, names, stale := h.NewObject(DEAD);
    x := s.ref;
    h.cells := [s];
    ghost var m0, from0, cells0 := h.mem, h.from, h.cells;
    lost, names := h.CollectMinor();
    MinoredIf(m0, from0, cells0, h.mem, h.cells, names, h.oldTop, h.oldSize);
    x := FirstRound(m0, x, from0, h.mem, h.from, h.cells, names, h.top, h.oldTop, h.semi, h.oldSize);
    NoneRemembered(h.mem, h.from, h.remembered);
    NoRoots(h.handles, names);
    Again(h, x);
    x := h.cells[0].ref;
    y := h.cells[1].ref;
  }

  lemma NoRoots(handles: seq<Slot>, names: map<Ref, Ref>)
    requires Graph.RootsRenamed([], handles, names)
    ensures handles == []
  {
  }

  /** Allocates the holder and collects once more. */
  method Again(h: Heap, ghost x0: Ref)
    requires h.Shape() && h.RememberedInv() && h.remembered == [] && h.handles == [] && !h.overCap
    requires h.semi == h.oldSize == 104 && h.top + h.oldTop <= 24
    requires h.cells == [Ptr(x0)] && x0.arena == h.from && h.mem == map[x0 := DEAD.(age := 1)]
    modifies h
    ensures h.Shape() && h.RememberedInv() && h.remembered == [] && h.handles == [] && !h.overCap
    ensures h.oldTop >= 24 && h.top + h.oldTop <= 80
    ensures |h.cells| == 2 && h.cells[0] == Ptr(Ref(Old, 0)) && h.cells[1].Ptr? && h.cells[1].ref.arena == h.from
    ensures h.mem == map[h.cells[0].ref := DEAD, h.cells[1].ref := EMPTY.(age := 1)]
  {
    hide Extent, GoodHeap, Minored, RemembersExactly, NoDuplicates, StayYoung, TenuredAs, Graph.Renaming, Graph.RootsRenamed;
    Sizes();
    YoungBelow(h.mem, h.from, h.top, h.oldTop, h.semi, h.oldSize);
    var s, lost, names, stale := h.NewObject(EMPTY);
    ghost var y0 := s.ref;
    h.cells := h.cells + [s];
    ghost var m0, from0, cells0 := h.mem, h.from, h.cells;
    assert cells0 == [Ptr(x0), Ptr(y0)];
    lost, names := h.CollectMinor();
    MinoredIf(m0, from0, cells0, h.mem, h.cells, names, h.oldTop, h.oldSize);
    ghost var x, y := SecondRound(m0, x0, y0, from0, h.mem, h.from, h.cells, names, h.top, h.oldTop, h.semi, h.oldSize);
    NoneRemembered(h.mem, h.from, h.remembered);
    NoRoots(h.handles, names);
  }

  /** Drops the first root, and stores a new, rooted object in the holder. */
  method GiveChild(h: Heap, ghost x: Ref, y: Ref) returns (ghost c: Ref)
    requires h.Shape() && h.RememberedInv() && h.remembered == [] && h.handles == []
    requires h.semi == h.oldSize == 104 && h.oldTop >= 24 && h.top + h.oldTop <= 80
    requires h.cells == [Ptr(x), Ptr(y)] && x == Ref(Old, 0) && y.arena == h.from
    requires h.mem == map[x := DEAD, y := EMPTY.(age := 1)]
    modifies h
    ensures h.Shape() && h.RememberedInv() && h.remembered == [] && h.handles == [] && h.overCap == old(h.overCap)
    ensures h.oldTop == old(h.oldTop) && h.top + h.oldTop <= 104 && h.from == old(h.from) && h.from != Old
    ensures h.cells == [Ptr(y), Ptr(c)] && c.arena == h.from && y != c
    ensures h.mem == map[x := DEAD, y := EMPTY.(age := 1, slots := [Ptr(c)]), c := CHILD]
  {
    hide Extent, GoodHeap, NoDuplicates, Graph.Renaming, Graph.RootsRenamed;
    Sizes();
    h.cells := [h.cells[1]];
    YoungBelow(h.mem, h.from, h.top, h.oldTop, h.semi, h.oldSize);
    var s, lost, names, stale := h.NewObject(CHILD);
    c := s.ref;
    h.cells := h.cells + [s];
    assert h.mem[y].slots[0 := s] == [s];
    h.Store(y, 0, s);
  }

  /** Allocate an object and let it be promoted; drop it, give a holder a child, and
      collect: the holder is promoted above the dead object with its child still young,
      the old arena is three quarters full, and the compaction that follows moves the
      holder away from the address that is remembered. */
  method Stale() returns (h: Heap)
    ensures fresh(h) && h.HeapShape() && !h.overCap
    ensures !RemembersExactly(h.mem, h.from, h.remembered)
  {
    hide Extent, GoodHeap, Minored, RemembersExactly, NoDuplicates, StayYoung, TenuredAs, Graph.Renaming, Graph.RootsRenamed, NoneDeadUpTo, Compaction;
    ghost var x, c;
    var y;
    h, x, y := Prepare();
    c := GiveChild(h, x, y);
    ghost var m0, from0 := h.mem, h.from;
    var lost, names := h.CollectMinor();
    MinoredIf(m0, from0, [Ptr(y), Ptr(c)], h.mem, h.cells, names, h.oldTop, h.oldSize);
    ghost var y', c' := ThirdRound(m0, x, y, c, from0, h.mem, h.from, h.cells, names, h.top, h.oldTop, h.semi, h.oldSize);
    NoRoots(h.handles, names);
    assert h.oldTop * 4 >= h.oldSize * 3;
    Compacts(h, x, y', c');
  }

  method Compacts(h: Heap, ghost x: Ref, ghost y: Ref, ghost c: Ref)
    requires h.HeapShape() && h.handles == [] && h.cells == [Ptr(y), Ptr(c)] && RemembersExactly(h.mem, h.from, h.remembered)
    requires h.mem.Keys == {x, y, c} && h.mem[x].slots == [] && h.mem[y].slots == [Ptr(c)] && h.mem[c].slots == []
    requires x == Ref(Old, 0) && y.arena == Old && c.arena == h.from && x != y
    modifies h
    ensures h.HeapShape() && h.overCap == old(h.overCap) && !RemembersExactly(h.mem, h.from, h.remembered)
  {
    hide Extent, GoodHeap, RemembersExactly, NoneDeadUpTo, Compaction, Graph.RootsRenamed;
    ghost var mid, top, roots := h.mem, h.oldTop, h.handles + h.cells;
    assert roots == [Ptr(y), Ptr(c)];
    GoodArenas(mid, h.from, h.top, h.oldTop, h.semi, h.oldSize);
    YoungBelow(mid, h.from, h.top, h.oldTop, h.semi, h.oldSize);
    DeadBelow(mid, x, y, c, h.from, h.remembered);
    var names := h.CompactOld();
    RememberedSurvives(mid, h.from, roots, h.mem, names, h.remembered, top);
  }
}
