/** What a compaction does to the remembered set, which it leaves as it was. */
module Remembered {
  import opened Objects
  import Graph
  import opened Major

  /** Exactly the old objects that hold a young pointer are remembered. */
  ghost predicate RemembersExactly(m: Mem, from: Arena, rem: seq<Ref>) {
    && (forall h :: h in rem ==> h in m && h.arena == Old)
    && (forall r :: r in m && r.arena == Old ==> (r in rem <==> Holds(m[r], from)))
  }

  ghost predicate ArenasOk(m: Mem, from: Arena) {
    from != Old && Closed(m) && forall r :: r in m ==> r.arena == from || r.arena == Old
  }

  /** Young objects do not move, so an object and its compacted copy hold young pointers alike. */
  lemma HoldsAlike(m0: Mem, from: Arena, roots: seq<Slot>, m: Mem, names: map<Ref, Ref>, r: Ref)
    requires ArenasOk(m0, from) && Compaction(m0, from, roots, m, names) && r in names
    ensures names[r] in m && (Holds(m[names[r]], from) <==> Holds(m0[r], from))
  {
    hide Extent, Held, TotalExtent;
    var a, b := m0[r], m[names[r]];
    assert Graph.ObjectRenamed(a, b, names) && PointsInto(a, m0);
    forall i | 0 <= i < |a.slots|
      ensures (a.slots[i].Ptr? && a.slots[i].ref.arena == from) <==> (b.slots[i].Ptr? && b.slots[i].ref.arena == from)
    {
      assert Graph.SlotRenamed(a.slots[i], b.slots[i], names);
    }
  }

  lemma NamesInHeap(m0: Mem, from: Arena, roots: seq<Slot>, m: Mem, names: map<Ref, Ref>)
    requires Compaction(m0, from, roots, m, names)
    ensures forall r :: r in names ==> r in m0 && names[r] in m
    ensures forall r, q :: r in names && q in names && names[r] == names[q] ==> r == q
    ensures forall r :: r in names ==> (r.arena == Old <==> names[r].arena == Old) && names[r].off <= r.off
    ensures forall r :: r in names && r.arena == Old ==> Held(m0, from, roots, r)
    ensures forall r :: r in m0 && Held(m0, from, roots, r) ==> r in names
  {
    hide Held, TotalExtent;
  }

  lemma OwnerOf(m0: Mem, from: Arena, roots: seq<Slot>, m: Mem, names: map<Ref, Ref>, x: Ref) returns (r: Ref)
    requires Compaction(m0, from, roots, m, names) && x in m
    ensures r in names && names[r] == x
  {
    hide Held, TotalExtent, Graph.Renaming;
    r :| r in names && names[r] == x;
  }

  lemma PlaceOf(m0: Mem, from: Arena, roots: seq<Slot>, m: Mem, names: map<Ref, Ref>, h: Ref)
    requires Compaction(m0, from, roots, m, names) && h in names && h.arena == Old
    ensures names[h] == Ref(Old, TotalExtent(m0, HeldBelow(m0, from, roots, h.off)))
  {
    hide Extent, Held, TotalExtent, Graph.Renaming;
  }

  /** An object keeps its address exactly if nothing below it is dead. */
  lemma StaysIfNoneDeadBelow(m0: Mem, from: Arena, roots: seq<Slot>, m: Mem, names: map<Ref, Ref>, oldTop: nat, h: Ref)
    requires Tiles(m0, Old, oldTop) && Compaction(m0, from, roots, m, names) && h in names && h.arena == Old
    ensures names[h] == h <==> forall r :: r in m0 && r.arena == Old && r.off < h.off ==> Held(m0, from, roots, r)
  {
    hide Extent, Held, TotalExtent, Compaction;
    NamesInHeap(m0, from, roots, m, names);
    PlaceOf(m0, from, roots, m, names, h);
    var below, held := Below(m0, Old, h.off), HeldBelow(m0, from, roots, h.off);
    RunFits(m0, oldTop, h);
    hide Tiles;
    RunExtent(m0, Old, oldTop, h.off);
    if names[h] == h {
      TotalExtentStrict(m0, held, below);
      forall r | r in m0 && r.arena == Old && r.off < h.off ensures Held(m0, from, roots, r) {
        assert r in held;
      }
    }
    if forall r :: r in m0 && r.arena == Old && r.off < h.off ==> Held(m0, from, roots, r) {
      assert held == below;
    }
  }

  /** Every remembered holder stays where it is if the set is still exact afterwards:
      the one that would come to a holder's address is itself a holder above it. */
  lemma {:induction false} HolderStays(m0: Mem, from: Arena, roots: seq<Slot>, m: Mem, names: map<Ref, Ref>,
                                       rem: seq<Ref>, top: nat, h: Ref)
    requires ArenasOk(m0, from) && Compaction(m0, from, roots, m, names)
    requires RemembersExactly(m0, from, rem) && RemembersExactly(m, from, rem)
    requires forall r :: r in m0 && r.arena == Old ==> r.off < top
    requires h in rem
    ensures h in names && names[h] == h
    decreases top - h.off
  {
    hide Extent, Held, TotalExtent, Holds, ArenasOk, Compaction;
    NamesInHeap(m0, from, roots, m, names);
    var r := OwnerOf(m0, from, roots, m, names, h);
    HoldsAlike(m0, from, roots, m, names, r);
    if r != h {
      assert r.arena == Old && r in m0 && r in rem;
      HolderStays(m0, from, roots, m, names, rem, top, r);
    }
  }

  /** The remembered set survives a compaction exactly if no dead old object lies at or
      below a remembered holder: then no holder moves. */
  lemma RememberedSurvives(m0: Mem, from: Arena, roots: seq<Slot>, m: Mem, names: map<Ref, Ref>,
                           rem: seq<Ref>, oldTop: nat)
    requires ArenasOk(m0, from) && Tiles(m0, Old, oldTop) && Compaction(m0, from, roots, m, names)
    requires RemembersExactly(m0, from, rem)
    ensures RemembersExactly(m, from, rem) <==> NoneDeadUpTo(m0, from, roots, rem)
  {
    hide Extent, Held, TotalExtent, Holds, Compaction;
    NamesInHeap(m0, from, roots, m, names);
    if RemembersExactly(m, from, rem) {
      forall r | r in m0 && r.arena == Old ensures r.off < oldTop { RunFits(m0, oldTop, r); }
      forall h | h in rem ensures Held(m0, from, roots, h)
        && forall r :: r in m0 && r.arena == Old && r.off < h.off ==> Held(m0, from, roots, r)
      {
        HolderStays(m0, from, roots, m, names, rem, oldTop, h);
        StaysIfNoneDeadBelow(m0, from, roots, m, names, oldTop, h);
      }
    }
    if NoneDeadUpTo(m0, from, roots, rem) {
      HoldersStaying(m0, from, roots, m, names, rem, oldTop);
    }
  }

  /** No dead old object at or below a remembered holder. */
  ghost predicate NoneDeadUpTo(m: Mem, from: Arena, roots: seq<Slot>, rem: seq<Ref>) {
    forall h, r :: h in rem && r in m && r.arena == Old && r.off <= h.off ==> Held(m, from, roots, r)
  }

  lemma HoldersStaying(m0: Mem, from: Arena, roots: seq<Slot>, m: Mem, names: map<Ref, Ref>, rem: seq<Ref>, oldTop: nat)
    requires ArenasOk(m0, from) && Tiles(m0, Old, oldTop) && Compaction(m0, from, roots, m, names)
    requires RemembersExactly(m0, from, rem) && NoneDeadUpTo(m0, from, roots, rem)
    ensures RemembersExactly(m, from, rem)
  {
    hide Extent, Held, TotalExtent, Holds, Compaction, Tiles, ArenasOk;
    NamesInHeap(m0, from, roots, m, names);
    forall h | h in rem ensures h in names && names[h] == h {
      assert h in m0 && h.arena == Old;
      StaysIfNoneDeadBelow(m0, from, roots, m, names, oldTop, h);
    }
    hide NoneDeadUpTo;
    forall h | h in rem ensures h in m {
      HoldsAlike(m0, from, roots, m, names, h);
    }
    forall x | x in m && x.arena == Old ensures x in rem <==> Holds(m[x], from) {
      var r := OwnerOf(m0, from, roots, m, names, x);
      HoldsAlike(m0, from, roots, m, names, r);
    }
  }

  lemma CompactionNames(m0: Mem, from: Arena, roots: seq<Slot>, m: Mem, names: map<Ref, Ref>)
    requires Compaction(m0, from, roots, m, names)
    ensures Graph.Renaming(m0, m, names)
  {
    hide Held, TotalExtent, Graph.Renaming;
  }

  lemma NoHoldersNoneDead(m: Mem, from: Arena, roots: seq<Slot>, rem: seq<Ref>)
    ensures rem == [] ==> NoneDeadUpTo(m, from, roots, rem)
  {
  }

  lemma KeepsItself(m: Mem, from: Arena, top: nat, oldTop: nat, semi: nat, oldSize: nat, roots: seq<Slot>)
    requires GoodHeap(m, from, top, oldTop, semi, oldSize) && RootsInto(roots, m)
    ensures Graph.Renaming(m, m, Graph.Identity(m)) && Graph.RootsRenamed(roots, roots, Graph.Identity(m))
  {
    hide Tiles;
    Graph.IdentityRenaming(m);
  }

  /** Appending a pointer-free object to the young run keeps the heap and the renaming. */
  lemma AppendObject(m0: Mem, m: Mem, names: map<Ref, Ref>, from: Arena, top: nat, oldTop: nat, semi: nat, oldSize: nat,
                     o: Object, handles: seq<Slot>, cells: seq<Slot>)
    requires GoodHeap(m, from, top, oldTop, semi, oldSize) && Graph.Renaming(m0, m, names)
    requires RootsInto(handles, m) && RootsInto(cells, m)
    requires CleanHeader(o) && forall i :: 0 <= i < |o.slots| ==> !o.slots[i].Ptr?
    requires top + Extent(o) <= semi
    ensures var m' := m[Ref(from, top) := o];
            && Ref(from, top) !in m
            && GoodHeap(m', from, top + Extent(o), oldTop, semi, oldSize) && Graph.Renaming(m0, m', names)
            && RootsInto(handles, m') && RootsInto(cells, m')
            && forall r :: r in names ==> names[r] != Ref(from, top)
  {
    hide Extent;
    AppendTiles(m, from, top, o);
    var m' := m[Ref(from, top) := o];
    SameRunTiles(m, m', Old, oldTop);
    hide Tiles;
    forall r | r in m' ensures PointsInto(m'[r], m') {
      assert r in m ==> PointsInto(m[r], m);
    }
  }

  lemma StoreKeeps(m: Mem, from: Arena, top: nat, oldTop: nat, semi: nat, oldSize: nat,
                   holder: Ref, i: nat, v: Slot, rem: seq<Ref>)
    requires GoodHeap(m, from, top, oldTop, semi, oldSize)
    requires holder in m && i < |m[holder].slots| && (v.Ptr? ==> v.ref in m)
    requires forall r :: r in m && r.arena == Old && Holds(m[r], from) ==> r in rem
    ensures var m' := m[holder := m[holder].(slots := m[holder].slots[i := v])];
            && GoodHeap(m', from, top, oldTop, semi, oldSize)
            && (holder.arena == Old ==> holder.off < oldTop)
            && (v.Ptr? && v.ref.arena == from ==> v.ref.off < semi)
            && forall r :: r in m' && r.arena == Old && Holds(m'[r], from) ==>
                 r in rem || (r == holder && v.Ptr? && v.ref.arena == from)
  {
    hide Extent;
    var o := m[holder].(slots := m[holder].slots[i := v]);
    var m' := m[holder := o];
    SameExtent(o, m[holder]);
    SameRunTiles(m, m', Old, oldTop);
    SameRunTiles(m, m', from, top);
    assert holder.arena == Old ==> FitsRun(m, holder, oldTop);
    assert v.Ptr? && v.ref.arena == from ==> FitsRun(m, v.ref, top);
    hide Tiles;
    assert PointsInto(m[holder], m);
    forall r | r in m' ensures PointsInto(m'[r], m') {
      assert r != holder ==> PointsInto(m[r], m);
    }
    if Holds(o, from) && !(v.Ptr? && v.ref.arena == from) {
      var j :| 0 <= j < |o.slots| && o.slots[j].Ptr? && o.slots[j].ref.arena == from;
      assert m[holder].slots[j] == o.slots[j];
    }
  }

  lemma GoodArenas(m: Mem, from: Arena, top: nat, oldTop: nat, semi: nat, oldSize: nat)
    requires GoodHeap(m, from, top, oldTop, semi, oldSize)
    ensures ArenasOk(m, from) && Tiles(m, Old, oldTop)
  {
  }

  // ---- the stale remembered set, concretely ----------------------------------

  const DEAD := Object(Function, 0, false, None, [7], [])
  const CHILD := Object(Function, 0, false, None, [8], [])
  const HOLDER := Object(Slots, 0, false, None, [], [Ptr(Ref(SpaceA, 0))])

  /** A dead function object, above it a holder of a young function object. */
  function StaleExample(): Mem {
    map[Ref(Old, 0) := DEAD, Ref(Old, 24) := HOLDER, Ref(SpaceA, 0) := CHILD]
  }

  lemma StaleExampleOk()
    ensures var m := StaleExample();
            && GoodHeap(m, SpaceA, 24, 80, 96, 96) && RootsInto([Ptr(Ref(Old, 24))], m)
            && RemembersExactly(m, SpaceA, [Ref(Old, 24)])
  {
    var m := StaleExample();
    assert Extent(DEAD) == 24 && Extent(CHILD) == 24 && Extent(HOLDER) == 56;
    assert HOLDER.slots[0] == Ptr(Ref(SpaceA, 0));
    assert Holds(HOLDER, SpaceA) && !Holds(DEAD, SpaceA);
  }

  /** In the example the collector's compaction loses the remembered holder: the old
      object that then holds the young pointer is not remembered. */
  lemma StaleExampleFails(m: Mem, names: map<Ref, Ref>)
    requires Compaction(StaleExample(), SpaceA, [Ptr(Ref(Old, 24))], m, names)
    ensures !RemembersExactly(m, SpaceA, [Ref(Old, 24)])
  {
    hide Compaction, Held, Extent, Holds, GoodHeap, RemembersExactly;
    var m0, roots := StaleExample(), [Ptr(Ref(Old, 24))];
    StaleExampleOk();
    DeadIsNotHeld();
    GoodArenas(m0, SpaceA, 24, 80, 96, 96);
    assert Ref(Old, 24) in [Ref(Old, 24)] && Ref(Old, 0) in m0;
    hide StaleExample;
    RememberedSurvives(m0, SpaceA, roots, m, names, [Ref(Old, 24)], 80);
  }

  lemma DeadIsNotHeld()
    ensures !Held(StaleExample(), SpaceA, [Ptr(Ref(Old, 24))], Ref(Old, 0))
  {
    var m := StaleExample();
    var inside := {Ref(Old, 24), Ref(SpaceA, 0)};
    Graph.Unreachable(m, [Ptr(Ref(Old, 24))], inside, Ref(Old, 0));
    forall y | y in m && y.arena == SpaceA ensures !Graph.Reachable(m, [Ptr(y)], Ref(Old, 0)) {
      Graph.Unreachable(m, [Ptr(y)], inside, Ref(Old, 0));
    }
  }
}
