/** The collector's own contract is a relocation: what allocation does on the modelled heap is
    one of the moves that the map and the two-step allocators are proved against. */
module HeapMoves {
  import O = Objects
  import Graph
  import HeapModel
  import Remembered
  import opened Relocation

  /** An object by the meaning of its fields. */
  function View(o: O.Object): Cell {
    if !O.WellFormed(o) then Other(o.data, o.slots)
    else
      match o.kind
      case Bytes => Bytes(o.data)
      case Slots => Slots(o.slots)
      case String => Str(o.data[0], o.slots[0])
      case Array => Arr(o.data[0], o.data[1], o.slots[0])
      case Map => Dict(o.data[0], o.data[1], o.slots[0], o.slots[1])
      case Closure => Clo(o.data[0], o.slots[0])
      case Iter => Cursor(o.data[0], o.data[1], o.slots[0])
      case Function => Other(o.data, o.slots)
  }

  function ViewMem(m: O.Mem): Mem {
    map r | r in m :: View(m[r])
  }

  lemma ViewKids(o: O.Object)
    ensures Kids(View(o)) == o.slots
  {
  }

  lemma ViewRenamed(a: O.Object, b: O.Object, names: Names)
    requires Graph.ObjectRenamed(a, b, names)
    ensures View(b) == RenCell(names, View(a)) && AllWithin(names.Keys, Kids(View(a)))
  {
    ViewKids(a);
    forall i | 0 <= i < |a.slots| ensures b.slots[i] == RenVal(names, a.slots[i]) && Within(names.Keys, a.slots[i]) {
      assert Graph.SlotRenamed(a.slots[i], b.slots[i], names);
    }
    assert b.slots == RenVals(names, a.slots);
  }

  /** A graph renaming into a heap without dangling pointers is a relocation. */
  lemma RenamingMoves(m: O.Mem, m': O.Mem, names: Names)
    requires Graph.Renaming(m, m', names) && O.Closed(m')
    ensures Moved(ViewMem(m), ViewMem(m'), names)
  {
    forall r | r in names ensures ViewMem(m')[names[r]] == RenCell(names, ViewMem(m)[r]) && AllWithin(names.Keys, Kids(ViewMem(m)[r])) {
      ViewRenamed(m[r], m'[names[r]], names);
    }
    forall r | r in m' ensures AllWithin(ViewMem(m').Keys, Kids(ViewMem(m')[r])) {
      ViewKids(m'[r]);
      assert O.PointsInto(m'[r], m');
    }
  }

  lemma RootsMove(roots: seq<Val>, roots': seq<Val>, names: Names)
    requires Graph.RootsRenamed(roots, roots', names)
    ensures roots' == RenVals(names, roots) && AllWithin(names.Keys, roots)
  {
    forall i | 0 <= i < |roots| ensures roots'[i] == RenVal(names, roots[i]) && Within(names.Keys, roots[i]) {
      assert Graph.SlotRenamed(roots[i], roots'[i], names);
    }
  }

  lemma GoodIsClosed(m: O.Mem, from: O.Arena, top: nat, oldTop: nat, semi: nat, oldSize: nat)
    requires O.GoodHeap(m, from, top, oldTop, semi, oldSize)
    ensures O.Closed(m) && O.Ref(from, top) !in m
  {
    O.AppendTiles(m, from, top, O.Object(O.Bytes, 0, false, O.None, [], []));
  }

  /** Memory and roots moved together. */
  ghost predicate Relocated(m: O.Mem, hs: seq<Val>, cells: seq<Val>, m': O.Mem, hs': seq<Val>, cells': seq<Val>, names: Names) {
    && Moved(ViewMem(m), ViewMem(m'), names)
    && AllWithin(names.Keys, hs) && hs' == RenVals(names, hs) && AllWithin(names.Keys, cells) && cells' == RenVals(names, cells)
  }

  lemma IsRelocated(m: O.Mem, hs: seq<Val>, cells: seq<Val>, m': O.Mem, hs': seq<Val>, cells': seq<Val>, names: Names)
    requires Graph.Renaming(m, m', names) && O.Closed(m') && Graph.RootsRenamed(hs, hs', names) && Graph.RootsRenamed(cells, cells', names)
    ensures Relocated(m, hs, cells, m', hs', cells', names)
  {
    RenamingMoves(m, m', names);
    RootsMove(hs, hs', names);
    RootsMove(cells, cells', names);
  }

  /** A minor collection is a relocation, unless it is lost with the over-cap flag set. */
  method CollectMinor(h: HeapModel.Heap) returns (lost: bool, ghost names: Names)
    requires h.Shape() && h.RememberedInv()
    modifies h
    ensures lost ==> h.overCap && !old(h.Collectable())
    ensures !lost ==> Relocated(old(h.mem), old(h.handles), old(h.cells), h.mem, h.handles, h.cells, names)
  {
    hide Graph.Renaming, Graph.RootsRenamed, O.GoodHeap, O.Closed, Relocated;
    lost, names := h.CollectMinor();
    if lost {
      return;
    }
    GoodIsClosed(h.mem, h.from, h.top, h.oldTop, h.semi, h.oldSize);
    IsRelocated(old(h.mem), old(h.handles), old(h.cells), h.mem, h.handles, h.cells, names);
  }

  /** So is a compaction. */
  method CompactOld(h: HeapModel.Heap) returns (ghost names: Names)
    requires h.HeapShape()
    modifies h
    ensures Relocated(old(h.mem), old(h.handles), old(h.cells), h.mem, h.handles, h.cells, names)
  {
    hide Graph.Renaming, Graph.RootsRenamed, O.GoodHeap, O.Closed, Relocated;
    names := h.CompactOld();
    Remembered.CompactionNames(old(h.mem), old(h.from), old(h.handles + h.cells), h.mem, names);
    GoodIsClosed(h.mem, h.from, h.top, h.oldTop, h.semi, h.oldSize);
    IsRelocated(old(h.mem), old(h.handles), old(h.cells), h.mem, h.handles, h.cells, names);
  }

  /** And a bump allocation, whether or not it collects: with room, the new place is free. */
  method Bump(h: HeapModel.Heap, n: nat) returns (p: O.Option<O.Ref>, lost: bool, ghost names: Names)
    requires h.Shape() && h.RememberedInv()
    modifies h
    ensures lost ==> h.overCap && !old(h.Collectable())
    ensures !lost ==> Relocated(old(h.mem), old(h.handles), old(h.cells), h.mem, h.handles, h.cells, names)
    ensures !lost && p.Some? ==> p.value !in h.mem
    ensures p.None? ==> h.overCap
  {
    hide Graph.Renaming, Graph.RootsRenamed, O.GoodHeap, O.Closed, Relocated;
    ghost var stale;
    p, lost, names, stale := h.Bump(n);
    if lost {
      return;
    }
    if p.Some? {
      GoodIsClosed(h.mem, h.from, p.value.off, h.oldTop, h.semi, h.oldSize);
    } else {
      GoodIsClosed(h.mem, h.from, h.top, h.oldTop, h.semi, h.oldSize);
    }
    IsRelocated(old(h.mem), old(h.handles), old(h.cells), h.mem, h.handles, h.cells, names);
  }
}
