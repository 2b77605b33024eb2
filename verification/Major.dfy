/** The old arena's sliding compaction: marking, the address every live object
    gets, and why moving the objects in place destroys nothing still needed. */
module Major {
  import opened Objects
  import Graph

  // ---- marking ---------------------------------------------------------------

  /** `m` is `m0` up to marks, which only old objects carry. */
  ghost predicate OnlyMarks(m0: Mem, m: Mem) {
    && m.Keys == m0.Keys
    && forall r :: r in m ==> m[r] == m0[r].(mark := m[r].mark) && (m[r].mark ==> r.arena == Old)
  }

  ghost predicate SlotMarked(m: Mem, s: Slot) {
    s.Ptr? && s.ref.arena == Old ==> s.ref in m && m[s.ref].mark
  }

  /** The first `k` slots of `o` lead to marked objects as far as they lead to old ones. */
  ghost predicate ChildrenMarked(m: Mem, o: Object, k: nat)
    requires k <= |o.slots|
  {
    forall i :: 0 <= i < k ==> SlotMarked(m, o.slots[i])
  }

  ghost predicate AllMarked(m: Mem, o: Object) {
    ChildrenMarked(m, o, |o.slots|)
  }

  /** Marks are set only on objects of `live`; a marked object that is neither on the
      worklist nor in `open` has its children marked. */
  ghost predicate Marking(m0: Mem, m: Mem, work: seq<Ref>, live: set<Ref>, open: set<Ref>) {
    && OnlyMarks(m0, m)
    && (forall r :: r in m && m[r].mark ==> r in live)
    && (forall r :: r in work ==> r in m && m[r].mark)
    && (forall r {:trigger AllMarked(m, m[r])} ::
          r in m && m[r].mark && r !in work && r !in open ==> AllMarked(m, m[r]))
  }

  ghost predicate MarksGrow(m: Mem, m': Mem) {
    m.Keys == m'.Keys && forall r :: r in m ==> m'[r] == m[r].(mark := m'[r].mark) && (m[r].mark ==> m'[r].mark)
  }

  ghost function Unmarked(m: Mem): set<Ref> {
    set r | r in m && r.arena == Old && !m[r].mark
  }

  /** Every object of `live` points into `live` only. */
  ghost predicate ClosedSet(m: Mem, live: set<Ref>) {
    forall r {:trigger SlotsIn(m[r], live)} :: r in m && r in live ==> SlotsIn(m[r], live)
  }

  ghost predicate SlotsIn(o: Object, live: set<Ref>) {
    forall i :: 0 <= i < |o.slots| && o.slots[i].Ptr? ==> o.slots[i].ref in live
  }

  lemma MarksGrowChildren(m: Mem, m': Mem, o: Object, k: nat)
    requires MarksGrow(m, m') && k <= |o.slots| && ChildrenMarked(m, o, k)
    ensures ChildrenMarked(m', o, k)
  {
    forall i | 0 <= i < k ensures SlotMarked(m', o.slots[i]) {
      assert SlotMarked(m, o.slots[i]);
    }
  }

  /** Marking one more live old object and pushing it on the worklist. */
  lemma MarkStep(m0: Mem, m: Mem, work: seq<Ref>, live: set<Ref>, open: set<Ref>, o: Ref)
    requires Marking(m0, m, work, live, open)
    requires o in m && o.arena == Old && o in live && !m[o].mark
    ensures var m' := m[o := m[o].(mark := true)];
            && Marking(m0, m', work + [o], live, open) && MarksGrow(m, m')
            && |Unmarked(m')| == |Unmarked(m)| - 1
  {
    var m' := m[o := m[o].(mark := true)];
    assert Unmarked(m') == Unmarked(m) - {o} && o in Unmarked(m);
    forall r | r in work + [o] ensures r in m' && m'[r].mark {
      assert r in work || r == o;
    }
    forall r | r in m' && m'[r].mark && r !in work + [o] && r !in open ensures AllMarked(m', m'[r]) {
      assert r !in work && r != o by {
        assert (work + [o])[|work|] == o;
        assert r in work ==> r in work + [o];
      }
      assert AllMarked(m, m[r]);
      MarksGrowChildren(m, m', m[r], |m[r].slots|);
    }
  }

  /** Taking the last object off the worklist leaves it open. */
  lemma PopStep(m0: Mem, m: Mem, work: seq<Ref>, live: set<Ref>)
    requires Marking(m0, m, work, live, {}) && work != []
    ensures Marking(m0, m, work[..|work| - 1], live, {work[|work| - 1]})
  {
    var rest := work[..|work| - 1];
    forall r | r in m && m[r].mark && r !in rest && r != work[|work| - 1] ensures AllMarked(m, m[r]) {
      assert work == rest + [work[|work| - 1]];
    }
  }

  lemma ChildrenReady(m0: Mem, m: Mem, work: seq<Ref>, live: set<Ref>, open: set<Ref>, o: Ref)
    requires Marking(m0, m, work, live, open) && Closed(m0) && ClosedSet(m0, live) && o in m && o in live
    ensures forall i :: 0 <= i < |m[o].slots| && m[o].slots[i].Ptr? ==> m[o].slots[i].ref in m && m[o].slots[i].ref in live
  {
    assert PointsInto(m0[o], m0) && SlotsIn(m0[o], live);
  }

  lemma MarkedNone(m: Mem, o: Object)
    ensures ChildrenMarked(m, o, 0)
  {
  }

  lemma MarkedOneMore(m: Mem, m': Mem, o: Object, o': Object, i: nat)
    requires MarksGrow(m, m') && o'.slots == o.slots && i < |o.slots|
    requires ChildrenMarked(m, o, i) && SlotMarked(m', o.slots[i])
    ensures ChildrenMarked(m', o', i + 1)
  {
    MarksGrowChildren(m, m', o, i);
  }

  lemma CloseStep(m0: Mem, m: Mem, work: seq<Ref>, live: set<Ref>, o: Ref)
    requires Marking(m0, m, work, live, {o}) && o in m && AllMarked(m, m[o])
    ensures Marking(m0, m, work, live, {})
  {
  }

  lemma MarkedKeys(m0: Mem, m: Mem, work: seq<Ref>, live: set<Ref>, open: set<Ref>)
    requires Marking(m0, m, work, live, open)
    ensures m.Keys == m0.Keys && forall r :: r in m ==> Extent(m[r]) == Extent(m0[r])
  {
    forall r | r in m ensures Extent(m[r]) == Extent(m0[r]) {
      SameExtent(m[r], m0[r]);
    }
  }

  // ---- what a compaction keeps -----------------------------------------------

  /** Reachable from a root cell or from a young object. */
  ghost predicate Held(m: Mem, from: Arena, roots: seq<Slot>, r: Ref) {
    Graph.Reachable(m, roots, r) || exists y :: y in m && y.arena == from && Graph.Reachable(m, [Ptr(y)], r)
  }

  ghost function HeldSet(m: Mem, from: Arena, roots: seq<Slot>): set<Ref> {
    set r | r in m && Held(m, from, roots, r)
  }

  lemma HeldSetClosed(m: Mem, from: Arena, roots: seq<Slot>)
    requires Closed(m) && RootsInto(roots, m)
    ensures ClosedSet(m, HeldSet(m, from, roots)) && RootsIn(roots, HeldSet(m, from, roots))
    ensures forall y :: y in m && y.arena == from ==> y in HeldSet(m, from, roots)
  {
    var live := HeldSet(m, from, roots);
    forall r | r in m && r in live ensures SlotsIn(m[r], live) {
      assert PointsInto(m[r], m);
      forall i | 0 <= i < |m[r].slots| && m[r].slots[i].Ptr? ensures m[r].slots[i].ref in live {
        if Graph.Reachable(m, roots, r) {
          Graph.ReachableChild(m, roots, r, i);
        } else {
          var y :| y in m && y.arena == from && Graph.Reachable(m, [Ptr(y)], r);
          Graph.ReachableChild(m, [Ptr(y)], r, i);
        }
      }
    }
    forall i | 0 <= i < |roots| && roots[i].Ptr? ensures roots[i].ref in live {
      Graph.ReachableRoot(m, roots, i);
    }
    forall y | y in m && y.arena == from ensures y in live {
      Graph.ReachableRoot(m, [Ptr(y)], 0);
    }
  }

  ghost predicate RootsIn(roots: seq<Slot>, live: set<Ref>) {
    forall i :: 0 <= i < |roots| && roots[i].Ptr? ==> roots[i].ref in live
  }

  // ---- forwarding addresses -----------------------------------------------------

  ghost function MarkedBelow(m: Mem, s: nat): set<Ref> {
    set r | r in m && r.arena == Old && m[r].mark && r.off < s
  }

  /** Where the object at `s` slides to: the bytes of the live objects below it. */
  ghost function Slid(m: Mem, s: nat): nat {
    TotalExtent(m, MarkedBelow(m, s))
  }

  lemma SlidMonotone(m: Mem, s: nat, t: nat)
    requires s <= t
    ensures Slid(m, s) <= Slid(m, t)
  {
    TotalExtentSubset(m, MarkedBelow(m, s), MarkedBelow(m, t));
  }

  /** The address never exceeds the position. */
  lemma SlidBelow(m: Mem, top: nat, s: nat)
    requires Tiles(m, Old, top) && Boundary(m, Old, top, s)
    ensures Slid(m, s) <= s
  {
    hide Extent, TotalExtent, Tiles;
    RunExtent(m, Old, top, s);
    TotalExtentSubset(m, MarkedBelow(m, s), Below(m, Old, s));
  }

  /** One object further, the address grows by that object's extent if it is live. */
  lemma SlidNext(m: Mem, top: nat, r: Ref)
    requires Tiles(m, Old, top) && r in m && r.arena == Old
    ensures Slid(m, r.off + Extent(m[r])) == Slid(m, r.off) + if m[r].mark then Extent(m[r]) else 0
  {
    hide Extent, TotalExtent;
    var a, b := MarkedBelow(m, r.off), MarkedBelow(m, r.off + Extent(m[r]));
    forall q | q in b ensures q in a || q == r {
      assert q.off > r.off ==> Apart(m, r, q);
      assert q.off == r.off ==> q == r;
    }
    if m[r].mark {
      assert b - {r} == a;
      TotalExtentRemove(m, b, r);
    } else {
      assert a == b;
    }
  }

  /** Live objects keep their order and do not overlap. */
  lemma SlidOrder(m: Mem, top: nat, r: Ref, q: Ref)
    requires Tiles(m, Old, top) && r in m && q in m && r.arena == Old && q.arena == Old
    requires m[r].mark && r.off < q.off
    ensures Slid(m, r.off) + Extent(m[r]) <= Slid(m, q.off)
  {
    hide Extent, Slid;
    assert Apart(m, r, q);
    SlidNext(m, top, r);
    SlidMonotone(m, r.off + Extent(m[r]), q.off);
  }

  /** No gap: the next live object at or above `s` slides to exactly Slid(s). */
  lemma {:induction false} NextLive(m: Mem, top: nat, s: nat) returns (q: Ref)
    requires Tiles(m, Old, top) && Boundary(m, Old, top, s)
    ensures Slid(m, s) == Slid(m, top) || (q in m && q.arena == Old && m[q].mark && q.off >= s && Slid(m, q.off) == Slid(m, s))
    decreases top - s
  {
    hide Extent, Slid;
    q := Ref(Old, s);
    if s != top && !m[q].mark {
      SlidNext(m, top, q);
      assert FitsRun(m, q, top);
      q := NextLive(m, top, s + Extent(m[q]));
    }
  }

  /** Each live old object and the address it slides to; young objects stay. */
  ghost function Places(m: Mem): map<Ref, Ref> {
    map r | r in m && (r.arena == Old ==> m[r].mark) :: if r.arena == Old then Ref(Old, Slid(m, r.off)) else r
  }

  lemma PlacesInjective(m: Mem, top: nat)
    requires Tiles(m, Old, top)
    ensures Graph.Injective(Places(m))
  {
    hide Extent, Slid, Tiles;
    var p := Places(m);
    forall r, q | r in p && q in p && p[r] == p[q] ensures r == q {
      if r.arena == Old && q.arena == Old {
        if r.off < q.off { SlidOrder(m, top, r, q); }
        if q.off < r.off { SlidOrder(m, top, q, r); }
      }
    }
  }

  // ---- after marking ----------------------------------------------------------------

  ghost predicate RootsMarked(m: Mem, roots: seq<Slot>, k: nat)
    requires k <= |roots|
  {
    forall i :: 0 <= i < k ==> SlotMarked(m, roots[i])
  }

  ghost predicate YoungMarked(m: Mem, from: Arena, s: nat) {
    forall y {:trigger AllMarked(m, m[y])} :: y in m && y.arena == from && y.off < s ==> AllMarked(m, m[y])
  }

  lemma RootsMarkedGrow(m: Mem, m': Mem, roots: seq<Slot>, k: nat)
    requires k <= |roots| && RootsMarked(m, roots, k) && MarksGrow(m, m')
    ensures RootsMarked(m', roots, k)
  {
    forall i | 0 <= i < k ensures SlotMarked(m', roots[i]) {
      assert SlotMarked(m, roots[i]);
    }
  }

  lemma YoungMarkedStep(m0: Mem, m: Mem, m': Mem, from: Arena, top: nat, s: nat)
    requires Tiles(m0, from, top) && m.Keys == m0.Keys && MarksGrow(m, m')
    requires Ref(from, s) in m0 && Extent(m'[Ref(from, s)]) == Extent(m0[Ref(from, s)])
    requires YoungMarked(m, from, s) && AllMarked(m', m'[Ref(from, s)])
    ensures YoungMarked(m', from, s + Extent(m'[Ref(from, s)]))
  {
    hide Extent;
    forall y | y in m' && y.arena == from && y.off < s + Extent(m'[Ref(from, s)]) ensures AllMarked(m', m'[y]) {
      if y.off < s {
        assert AllMarked(m, m[y]);
        MarksGrowChildren(m, m', m[y], |m[y].slots|);
      } else {
        assert y.off > s ==> Apart(m0, Ref(from, s), y);
      }
    }
  }

  ghost function Kept(m: Mem): set<Ref> {
    set r | r in m && (r.arena == Old ==> m[r].mark)
  }

  /** The finished marking, seen as a pointer-closed set that contains the roots. */
  lemma KeptClosed(m0: Mem, m: Mem, from: Arena, top: nat, live: set<Ref>, r: Ref, i: nat)
    requires Closed(m0) && Marking(m0, m, [], live, {}) && from != Old
    requires forall r :: r in m0 ==> (r.arena == from ==> r.off < top) && (r.arena == from || r.arena == Old)
    requires YoungMarked(m, from, top)
    requires r in m0 && r in Kept(m) && i < |m0[r].slots| && m0[r].slots[i].Ptr?
    ensures m0[r].slots[i].ref in Kept(m)
  {
    assert PointsInto(m0[r], m0);
    assert AllMarked(m, m[r]);
    assert SlotMarked(m, m[r].slots[i]);
  }

  /** Marking is exact: the marked old objects are those held by a root or a young object. */
  lemma MarkedExactly(m0: Mem, m: Mem, from: Arena, top: nat, roots: seq<Slot>, r: Ref)
    requires Closed(m0) && RootsInto(roots, m0) && from != Old
    requires forall r :: r in m0 ==> (r.arena == from ==> r.off < top) && (r.arena == from || r.arena == Old)
    requires Marking(m0, m, [], HeldSet(m0, from, roots), {})
    requires YoungMarked(m, from, top) && RootsMarked(m, roots, |roots|)
    requires r in m0 && r.arena == Old
    ensures m[r].mark <==> Held(m0, from, roots, r)
  {
    if Held(m0, from, roots, r) {
      forall q, i | q in m0 && q in Kept(m) && 0 <= i < |m0[q].slots| && m0[q].slots[i].Ptr?
        ensures m0[q].slots[i].ref in Kept(m)
      {
        KeptClosed(m0, m, from, top, HeldSet(m0, from, roots), q, i);
      }
      if Graph.Reachable(m0, roots, r) {
        var i, path :| 0 <= i < |roots| && Graph.Follow(m0, roots[i], path) == Some(Ptr(r));
        assert SlotMarked(m, roots[i]);
        Graph.FollowStays(m0, roots[i], path, Kept(m));
      } else {
        var y :| y in m0 && y.arena == from && Graph.Reachable(m0, [Ptr(y)], r);
        var i, path :| 0 <= i < 1 && Graph.Follow(m0, [Ptr(y)][i], path) == Some(Ptr(r));
        Graph.FollowStays(m0, Ptr(y), path, Kept(m));
      }
    }
  }

  lemma MarkingStart(m0: Mem, from: Arena, top: nat, oldTop: nat, semi: nat, oldSize: nat,
                     handles: seq<Slot>, cells: seq<Slot>, live: set<Ref>)
    requires GoodHeap(m0, from, top, oldTop, semi, oldSize) && RootsInto(handles, m0) && RootsInto(cells, m0)
    requires live == HeldSet(m0, from, handles + cells)
    ensures from != Old && Marking(m0, m0, [], live, {}) && ClosedSet(m0, live) && Closed(m0) && Tiles(m0, from, top)
    ensures RootsIn(handles, live) && RootsIn(cells, live)
    ensures forall y :: y in m0 && y.arena == from ==> y in live
    ensures forall r :: r in m0 && r.arena == Old ==> r.off < oldTop
  {
    hide Extent, Held, Tiles, Closed;
    var roots := handles + cells;
    RootsIntoConcat(handles, cells, m0);
    HeldSetClosed(m0, from, roots);
    forall i | 0 <= i < |handles| && handles[i].Ptr? ensures handles[i].ref in live {
      assert roots[i] == handles[i];
    }
    forall i | 0 <= i < |cells| && cells[i].Ptr? ensures cells[i].ref in live {
      assert roots[|handles| + i] == cells[i];
    }
    forall r | r in m0 && r.arena == Old ensures r.off < oldTop {
      RunFits(m0, oldTop, r);
    }
  }

  lemma RootsIntoConcat(handles: seq<Slot>, cells: seq<Slot>, m: Mem)
    requires RootsInto(handles, m) && RootsInto(cells, m)
    ensures RootsInto(handles + cells, m)
  {
  }

  /** The finished marking is exact, and what it keeps is closed and holds the roots. */
  lemma MarkingDone(m0: Mem, m1: Mem, m2: Mem, m: Mem, from: Arena, top: nat, oldTop: nat, semi: nat, oldSize: nat,
                    handles: seq<Slot>, cells: seq<Slot>)
    requires GoodHeap(m0, from, top, oldTop, semi, oldSize) && RootsInto(handles, m0) && RootsInto(cells, m0)
    requires Marking(m0, m, [], HeldSet(m0, from, handles + cells), {})
    requires MarksGrow(m1, m2) && MarksGrow(m2, m)
    requires RootsMarked(m1, handles, |handles|) && RootsMarked(m1, cells, |cells|) && YoungMarked(m2, from, top)
    ensures OnlyMarks(m0, m)
    ensures forall r :: r in m && r.arena == Old ==> (m[r].mark <==> Held(m0, from, handles + cells, r))
    ensures ClosedSet(m, Kept(m)) && RootsIn(handles, Kept(m)) && RootsIn(cells, Kept(m))
  {
    hide Extent, Held, Tiles, Closed, HeldSet;
    var roots := handles + cells;
    RootsMarkedGrow(m1, m2, handles, |handles|);
    RootsMarkedGrow(m2, m, handles, |handles|);
    RootsMarkedGrow(m1, m2, cells, |cells|);
    RootsMarkedGrow(m2, m, cells, |cells|);
    YoungMarkedGrow(m2, m, from, top);
    YoungBelowTop(m0, from, top, oldTop, semi, oldSize);
    RootsIntoConcat(handles, cells, m0);
    RootsKept(m0, m, handles);
    RootsKept(m0, m, cells);
    assert RootsMarked(m, roots, |roots|);
    hide RootsMarked, Kept, YoungMarked, Marking, MarksGrow, RootsInto, GoodHeap;
    assert Closed(m0) && OnlyMarks(m0, m);
    forall r | r in m && r.arena == Old ensures m[r].mark <==> Held(m0, from, roots, r) {
      MarkedExactly(m0, m, from, top, roots, r);
    }
    forall r | r in m && r in Kept(m) ensures SlotsIn(m[r], Kept(m)) {
      forall i | 0 <= i < |m[r].slots| && m[r].slots[i].Ptr? ensures m[r].slots[i].ref in Kept(m) {
        KeptClosed(m0, m, from, top, HeldSet(m0, from, roots), r, i);
      }
    }
  }

  lemma RootsKept(m0: Mem, m: Mem, roots: seq<Slot>)
    requires OnlyMarks(m0, m) && RootsInto(roots, m0) && RootsMarked(m, roots, |roots|)
    ensures RootsIn(roots, Kept(m))
  {
    forall i | 0 <= i < |roots| && roots[i].Ptr? ensures roots[i].ref in Kept(m) {
      assert SlotMarked(m, roots[i]);
    }
  }

  lemma YoungMarkedGrow(m: Mem, m': Mem, from: Arena, top: nat)
    requires YoungMarked(m, from, top) && MarksGrow(m, m')
    ensures YoungMarked(m', from, top)
  {
    forall y | y in m' && y.arena == from && y.off < top ensures AllMarked(m', m'[y]) {
      assert AllMarked(m, m[y]);
      MarksGrowChildren(m, m', m[y], |m[y].slots|);
    }
  }

  lemma YoungBelowTop(m: Mem, from: Arena, top: nat, oldTop: nat, semi: nat, oldSize: nat)
    requires GoodHeap(m, from, top, oldTop, semi, oldSize)
    ensures forall r :: r in m ==> (r.arena == from ==> r.off < top) && (r.arena == from || r.arena == Old)
  {
    hide Extent;
    forall r | r in m && r.arena == from ensures r.off < top {
      assert FitsRun(m, r, top);
    }
  }

  // ---- storing the addresses ---------------------------------------------------------

  ghost function Address(m: Mem, r: Ref): Option<Ref>
    requires r in m
  {
    if r.arena == Old && m[r].mark then Some(Ref(Old, Slid(m, r.off))) else None
  }

  /** `m` is the marked memory `b` with the addresses of the objects below `s` stored. */
  ghost predicate Addressed(b: Mem, m: Mem, s: nat) {
    && m.Keys == b.Keys
    && forall r :: r in b ==> m[r] == b[r].(fwd := if r.arena == Old && r.off < s then Address(b, r) else None)
  }

  lemma AddressStep(b: Mem, m: Mem, top: nat, s: nat)
    requires Tiles(b, Old, top) && Addressed(b, m, s) && s < top && Ref(Old, s) in b
    ensures var r := Ref(Old, s);
            && r in m && Extent(m[r]) == Extent(b[r]) && m[r].mark == b[r].mark && FitsRun(b, r, top)
            && Addressed(b, if m[r].mark then m[r := m[r].(fwd := Some(Ref(Old, Slid(b, s))))] else m, s + Extent(b[r]))
  {
    hide Extent, Slid;
    var r := Ref(Old, s);
    SameExtent(m[r], b[r]);
    var m' := if m[r].mark then m[r := m[r].(fwd := Some(Ref(Old, Slid(b, s))))] else m;
    assert FitsRun(b, r, top);
    forall q | q in b
      ensures m'[q] == b[q].(fwd := if q.arena == Old && q.off < s + Extent(b[r]) then Address(b, q) else None)
    {
      assert q.arena == Old && q.off > s ==> Apart(b, r, q);
    }
  }

  lemma NothingSlid(m: Mem)
    ensures Slid(m, 0) == 0
  {
    assert MarkedBelow(m, 0) == {};
  }

  // ---- updating the pointers -----------------------------------------------------------

  /** forward_old: an old pointer goes to its stored address, anything else stays. */
  function ForwardOld(m: Mem, oldTop: nat, s: Slot): Slot {
    if s.Ptr? && s.ref.arena == Old && s.ref.off < oldTop && s.ref in m && m[s.ref].fwd.Some?
    then Ptr(m[s.ref].fwd.value) else s
  }

  /** Rewriting children leaves every stored address alone. */
  lemma ForwardOldSame(m: Mem, m': Mem, oldTop: nat, s: Slot)
    requires m'.Keys == m.Keys && forall r :: r in m ==> m'[r].fwd == m[r].fwd
    ensures ForwardOld(m', oldTop, s) == ForwardOld(m, oldTop, s)
  {
  }

  /** `m` is the addressed memory `a` with the children of `done` updated. */
  ghost predicate Updated(a: Mem, m: Mem, names: map<Ref, Ref>, done: set<Ref>) {
    && m.Keys == a.Keys
    && forall r {:trigger UpdatedAt(a, m, names, done, r)} :: r in a ==> UpdatedAt(a, m, names, done, r)
  }

  ghost predicate UpdatedAt(a: Mem, m: Mem, names: map<Ref, Ref>, done: set<Ref>, r: Ref)
    requires r in a && r in m
  {
    if r in done then m[r] == a[r].(slots := m[r].slots) && Graph.ObjectRenamed(a[r], m[r], names)
    else m[r] == a[r]
  }

  /** Rewriting every slot of one more kept object. */
  lemma UpdateStep(b: Mem, top: nat, a: Mem, m: Mem, done: set<Ref>, r: Ref, slots: seq<Slot>)
    requires Tiles(b, Old, top) && Addressed(b, a, top) && Updated(a, m, Places(b), done)
    requires r in a && r !in done && |slots| == |m[r].slots|
    requires forall i :: 0 <= i < |slots| ==> slots[i] == ForwardOld(m, top, m[r].slots[i])
    requires forall i :: 0 <= i < |a[r].slots| && a[r].slots[i].Ptr? ==> a[r].slots[i].ref in Kept(b)
    ensures Updated(a, m[r := m[r].(slots := slots)], Places(b), done + {r})
  {
    hide Tiles;
    var m' := m[r := m[r].(slots := slots)];
    assert UpdatedAt(a, m, Places(b), done, r);
    forall i | 0 <= i < |slots| ensures Graph.SlotRenamed(a[r].slots[i], slots[i], Places(b)) {
      ForwardRenames(b, top, a, m, done, m[r].slots[i]);
    }
    forall q | q in a ensures UpdatedAt(a, m', Places(b), done + {r}, q) {
      assert UpdatedAt(a, m, Places(b), done, q);
    }
  }

  lemma ForwardRenames(b: Mem, top: nat, a: Mem, m: Mem, done: set<Ref>, s: Slot)
    requires Tiles(b, Old, top) && Addressed(b, a, top) && Updated(a, m, Places(b), done)
    requires s.Ptr? ==> s.ref in Kept(b)
    ensures Graph.SlotRenamed(s, ForwardOld(m, top, s), Places(b))
  {
    hide Slid, Extent;
    if s.Ptr? {
      assert UpdatedAt(a, m, Places(b), done, s.ref);
      assert s.ref.arena == Old ==> FitsRun(b, s.ref, top);
    }
  }

  lemma RootsForwardOld(b: Mem, top: nat, a: Mem, roots: seq<Slot>)
    requires Tiles(b, Old, top) && Addressed(b, a, top) && RootsIn(roots, Kept(b))
    ensures forall i :: 0 <= i < |roots| ==> Graph.SlotRenamed(roots[i], ForwardOld(a, top, roots[i]), Places(b))
  {
    hide Tiles, Places, Addressed;
    NothingUpdated(a, Places(b));
    forall i | 0 <= i < |roots|
      ensures Graph.SlotRenamed(roots[i], ForwardOld(a, top, roots[i]), Places(b))
    {
      ForwardRenames(b, top, a, a, {}, roots[i]);
    }
  }

  lemma NothingUpdated(a: Mem, names: map<Ref, Ref>)
    ensures Updated(a, a, names, {})
  {
  }

  lemma UpdateReady(b: Mem, top: nat, a: Mem, m: Mem, done: set<Ref>, r: Ref)
    requires Addressed(b, a, top) && Updated(a, m, Places(b), done)
    requires ClosedSet(b, Kept(b)) && r in b && r in Kept(b) && r !in done
    ensures r in a && r in m && m[r] == a[r]
    ensures forall i :: 0 <= i < |a[r].slots| && a[r].slots[i].Ptr? ==> a[r].slots[i].ref in Kept(b)
  {
    hide Address, Places;
    assert UpdatedAt(a, m, Places(b), done, r) && SlotsIn(b[r], Kept(b));
  }

  lemma UpdatedHeader(b: Mem, a: Mem, m: Mem, top: nat, done: set<Ref>, r: Ref)
    requires Addressed(b, a, top) && Updated(a, m, Places(b), done) && r in b
    ensures r in m && m[r].mark == b[r].mark && Extent(m[r]) == Extent(b[r])
  {
    hide Address, Places;
    assert UpdatedAt(a, m, Places(b), done, r);
    SameExtent(m[r], b[r]);
  }

  lemma SameExtentOf(b: Mem, m: Mem, r: Ref)
    requires SameExtents(b, m) && r in b
    ensures r in m && Extent(m[r]) == Extent(b[r])
  {
  }

  lemma BelowNext(b: Mem, arena: Arena, top: nat, s: nat)
    requires Tiles(b, arena, top) && Ref(arena, s) in b
    ensures Below(b, arena, s + Extent(b[Ref(arena, s)])) == Below(b, arena, s) + {Ref(arena, s)}
  {
    hide Extent;
    forall r | r in Below(b, arena, s + Extent(b[Ref(arena, s)])) ensures r in Below(b, arena, s) + {Ref(arena, s)} {
      assert r.off > s ==> Apart(b, Ref(arena, s), r);
    }
  }

  lemma MarkedBelowNext(b: Mem, top: nat, s: nat)
    requires Tiles(b, Old, top) && Ref(Old, s) in b
    ensures MarkedBelow(b, s + Extent(b[Ref(Old, s)])) ==
              MarkedBelow(b, s) + if b[Ref(Old, s)].mark then {Ref(Old, s)} else {}
  {
    hide Extent;
    forall r | r in MarkedBelow(b, s + Extent(b[Ref(Old, s)])) ensures r in MarkedBelow(b, s) || r == Ref(Old, s) {
      assert r.off > s ==> Apart(b, Ref(Old, s), r);
    }
  }

  lemma KeptIsBelow(b: Mem, from: Arena, top: nat, oldTop: nat)
    requires Tiles(b, Old, oldTop) && Tiles(b, from, top) && forall r :: r in b ==> r.arena == Old || r.arena == from
    requires from != Old
    ensures Below(b, from, top) + MarkedBelow(b, oldTop) == Kept(b)
  {
    hide Extent;
    forall r | r in b ensures r.off < (if r.arena == Old then oldTop else top) {
      assert r.arena == Old ==> FitsRun(b, r, oldTop);
      assert r.arena == from ==> FitsRun(b, r, top);
    }
  }

  // ---- sliding in place ------------------------------------------------------------------

  predicate Overlaps(p: nat, pSize: nat, q: nat, qSize: nat) {
    p < q + qSize && q < p + pSize
  }

  /** memmove of object `o` to `dst`: every object whose bytes it touches is gone. */
  function Overwrite(m: Mem, dst: Ref, o: Object): Mem {
    (map r | r in m && !(r.arena == dst.arena && Overlaps(r.off, Extent(m[r]), dst.off, Extent(o))) :: m[r])[dst := o]
  }

  /** `x` is the place of a live object below `s`. */
  ghost predicate IsPlace(b: Mem, s: nat, x: Ref) {
    exists r :: r in b && r.arena == Old && b[r].mark && r.off < s && Ref(Old, Slid(b, r.off)) == x
  }

  /** The slide at scan position `s`: `b` gives marks and places, `u` is the memory just
      before the slide. Everything written ends at Slid(s), at or below `s`; nothing at
      or above `s` was touched; every live object below `s` is at its place. */
  ghost predicate Sliding(b: Mem, u: Mem, m: Mem, s: nat) {
    Ahead(u, m, s) && LandedBelow(b, u, m, s) && OnlyPlaces(b, m, s)
  }

  ghost predicate Ahead(u: Mem, m: Mem, s: nat) {
    && (forall r :: r in u && (r.arena != Old || r.off >= s) ==> r in m && m[r] == u[r])
    && (forall x :: x in m && (x.arena != Old || x.off >= s) ==> x in u)
  }

  ghost predicate LandedBelow(b: Mem, u: Mem, m: Mem, s: nat) {
    forall r {:trigger Landed(b, u, m, r)} :: r in b && r.arena == Old && b[r].mark && r.off < s ==> Landed(b, u, m, r)
  }

  ghost predicate OnlyPlaces(b: Mem, m: Mem, s: nat) {
    forall x {:trigger IsPlace(b, s, x)} :: x in m && x.arena == Old && x.off < Slid(b, s) ==> IsPlace(b, s, x)
  }

  ghost predicate Landed(b: Mem, u: Mem, m: Mem, r: Ref)
    requires r in b
  {
    r in u && Ref(Old, Slid(b, r.off)) in m && m[Ref(Old, Slid(b, r.off))] == u[r]
  }

  ghost predicate SameExtents(b: Mem, u: Mem) {
    b.Keys == u.Keys && forall r {:trigger Extent(u[r])} :: r in b ==> Extent(u[r]) == Extent(b[r])
  }

  lemma IsPlaceGrows(b: Mem, s: nat, t: nat, x: Ref)
    requires IsPlace(b, s, x) && s <= t
    ensures IsPlace(b, t, x)
  {
  }

  lemma IsPlaceOf(b: Mem, s: nat, r: Ref)
    requires r in b && r.arena == Old && b[r].mark && r.off < s
    ensures IsPlace(b, s, Ref(Old, Slid(b, r.off)))
  {
  }

  lemma OnlyOneWithin(b: Mem, top: nat, o: Ref, r: Ref)
    requires Tiles(b, Old, top) && o in b && r in b && o.arena == Old && r.arena == Old
    requires o.off <= r.off < o.off + Extent(b[o])
    ensures r == o
  {
    hide Extent;
    assert r.off > o.off ==> Apart(b, o, r);
  }

  /** Nothing lands when a dead object is passed. */
  lemma SlideSkip(b: Mem, u: Mem, m: Mem, top: nat, s: nat)
    requires Tiles(b, Old, top) && SameExtents(b, u) && Sliding(b, u, m, s) && s < top
    requires Ref(Old, s) in b && !b[Ref(Old, s)].mark
    ensures Sliding(b, u, m, s + Extent(b[Ref(Old, s)]))
  {
    hide Extent, Slid, IsPlace;
    var o := Ref(Old, s);
    var t := s + Extent(b[o]);
    SlidNext(b, top, o);
    forall r | r in b && r.arena == Old && b[r].mark && r.off < t ensures Landed(b, u, m, r) {
      if r.off >= s { OnlyOneWithin(b, top, o, r); }
    }
    forall x | x in m && x.arena == Old && x.off < Slid(b, t) ensures IsPlace(b, t, x) {
      IsPlaceGrows(b, s, t, x);
    }
  }

  /** An object that is already in place is not moved. */
  lemma SlideStay(b: Mem, u: Mem, m: Mem, top: nat, s: nat)
    requires Tiles(b, Old, top) && SameExtents(b, u) && Sliding(b, u, m, s) && s < top
    requires Ref(Old, s) in b && b[Ref(Old, s)].mark && Slid(b, s) == s
    ensures Sliding(b, u, m, s + Extent(b[Ref(Old, s)]))
  {
    hide Extent, Slid, Tiles, OnlyPlaces, LandedBelow;
    StayLanded(b, u, m, top, s);
    StayPlaces(b, u, m, top, s);
  }

  lemma StayLanded(b: Mem, u: Mem, m: Mem, top: nat, s: nat)
    requires Tiles(b, Old, top) && SameExtents(b, u) && Ahead(u, m, s) && LandedBelow(b, u, m, s)
    requires Ref(Old, s) in b && b[Ref(Old, s)].mark && Slid(b, s) == s
    ensures LandedBelow(b, u, m, s + Extent(b[Ref(Old, s)]))
  {
    hide Extent, Slid, Tiles;
    var o := Ref(Old, s);
    forall r | r in b && r.arena == Old && b[r].mark && r.off < s + Extent(b[o]) ensures Landed(b, u, m, r) {
      if r.off >= s { OnlyOneWithin(b, top, o, r); }
    }
  }

  lemma StayPlaces(b: Mem, u: Mem, m: Mem, top: nat, s: nat)
    requires Tiles(b, Old, top) && SameExtents(b, u) && Ahead(u, m, s) && OnlyPlaces(b, m, s)
    requires Ref(Old, s) in b && b[Ref(Old, s)].mark && Slid(b, s) == s
    ensures OnlyPlaces(b, m, s + Extent(b[Ref(Old, s)]))
  {
    hide Extent, Slid, Tiles, IsPlace;
    var o := Ref(Old, s);
    var t := s + Extent(b[o]);
    SlidNext(b, top, o);
    IsPlaceOf(b, t, o);
    forall x | x in m && x.arena == Old && x.off < Slid(b, t) ensures IsPlace(b, t, x) {
      if x.off >= s { OnlyOneWithin(b, top, o, x); } else { IsPlaceGrows(b, s, t, x); }
    }
  }

  /** Moving an object down overwrites only what was already moved away or is dead. */
  lemma SlideMove(b: Mem, u: Mem, m: Mem, top: nat, s: nat)
    requires Tiles(b, Old, top) && SameExtents(b, u) && Sliding(b, u, m, s) && s < top
    requires Ref(Old, s) in b && b[Ref(Old, s)].mark
    ensures Ref(Old, s) in m && m[Ref(Old, s)] == u[Ref(Old, s)]
    ensures Sliding(b, u, Overwrite(m, Ref(Old, Slid(b, s)), u[Ref(Old, s)]), s + Extent(b[Ref(Old, s)]))
  {
    hide Extent, Slid, IsPlace;
    var o, dst := Ref(Old, s), Ref(Old, Slid(b, s));
    var t := s + Extent(b[o]);
    var m' := Overwrite(m, dst, u[o]);
    IsPlaceOf(b, t, o);
    SlidNext(b, top, o);
    SlidBelow(b, top, s);
    assert Extent(u[o]) == Extent(b[o]);
    forall r | r in u && (r.arena != Old || r.off >= t) ensures r in m' && m'[r] == u[r] {
    }
    forall r | r in b && r.arena == Old && b[r].mark && r.off < t ensures Landed(b, u, m', r) {
      if r != o {
        assert r.off > s ==> Apart(b, o, r);
        assert Landed(b, u, m, r) && Extent(u[r]) == Extent(b[r]);
        SlidOrder(b, top, r, o);
      }
    }
    forall x | x in m' && x.arena == Old && x.off < Slid(b, t) ensures IsPlace(b, t, x) {
      if x != dst {
        assert x in m && x.off < Slid(b, s);
        IsPlaceGrows(b, s, t, x);
      }
    }
  }

  lemma SlideStart(b: Mem, u: Mem)
    requires SameExtents(b, u)
    ensures Sliding(b, u, u, 0)
  {
    hide Slid, Extent;
    NothingSlid(b);
  }

  lemma FirstBoundary(b: Mem, top: nat)
    requires Tiles(b, Old, top)
    ensures Boundary(b, Old, top, 0)
  {
  }

  /** At the scan position stands the untouched object, with its address if it is live. */
  lemma SlideReady(b: Mem, u: Mem, m: Mem, top: nat, s: nat)
    requires Tiles(b, Old, top) && SameExtents(b, u) && Sliding(b, u, m, s)
    requires Boundary(b, Old, top, s) && s < top
    ensures var o := Ref(Old, s);
            && o in b && o in u && o in m && m[o] == u[o] && Extent(m[o]) == Extent(b[o]) && FitsRun(b, o, top)
  {
    hide Extent, OnlyPlaces, LandedBelow;
    RunFits(b, top, Ref(Old, s));
  }

  // ---- after the slide ----------------------------------------------------------------------

  /** The memory once the tail above `newTop` is poisoned. */
  function Truncated(m: Mem, newTop: nat): Mem {
    map r | r in m && (r.arena == Old ==> r.off < newTop) :: m[r]
  }

  /** The live object that ended up at `x`. */
  lemma PlaceOwner(b: Mem, u: Mem, m: Mem, top: nat, x: Ref) returns (r: Ref)
    requires SameExtents(b, u) && Sliding(b, u, m, top) && Tiles(b, Old, top)
    requires x in m && x.arena == Old && x.off < Slid(b, top)
    ensures r in b && r.arena == Old && b[r].mark && r.off < top && x == Ref(Old, Slid(b, r.off))
    ensures r in u && m[x] == u[r] && Extent(m[x]) == Extent(b[r])
  {
    hide Extent, Slid, Tiles, Ahead;
    assert IsPlace(b, top, x);
    r :| r in b && r.arena == Old && b[r].mark && r.off < top && Ref(Old, Slid(b, r.off)) == x;
    assert Landed(b, u, m, r);
    assert Extent(u[r]) == Extent(b[r]);
  }

  /** The place right after a live object is the next live object's, or the new end. */
  lemma PlaceAfter(b: Mem, u: Mem, m: Mem, top: nat, s: nat)
    requires SameExtents(b, u) && Sliding(b, u, m, top) && Tiles(b, Old, top)
    requires Boundary(b, Old, top, s)
    ensures Slid(b, s) == Slid(b, top) || (Slid(b, s) < Slid(b, top) && Ref(Old, Slid(b, s)) in m)
  {
    hide Extent, Slid, Ahead, OnlyPlaces;
    var q := NextLive(b, top, s);
    if Slid(b, s) != Slid(b, top) {
      assert FitsRun(b, q, top);
      assert Landed(b, u, m, q);
      SlidNext(b, top, q);
      SlidMonotone(b, q.off + Extent(b[q]), top);
    }
  }

  /** What the slide leaves below the new end is a gap-free run. */
  lemma SlidTiles(b: Mem, u: Mem, m: Mem, top: nat)
    requires SameExtents(b, u) && Sliding(b, u, m, top) && Tiles(b, Old, top)
    ensures Tiles(Truncated(m, Slid(b, top)), Old, Slid(b, top))
  {
    hide Extent, Slid, Sliding, SameExtents;
    var t, newTop := Truncated(m, Slid(b, top)), Slid(b, top);
    SlidBelow(b, top, 0);
    PlaceAfter(b, u, m, top, 0);
    forall x | x in t && x.arena == Old ensures FitsRun(t, x, newTop) {
      var r := PlaceOwner(b, u, m, top, x);
      assert FitsRun(b, r, top);
      SlidNext(b, top, r);
      PlaceAfter(b, u, m, top, r.off + Extent(b[r]));
    }
    forall x, y | x in t && y in t && x.arena == Old && y.arena == Old && x.off < y.off ensures Apart(t, x, y) {
      var r := PlaceOwner(b, u, m, top, x);
      var q := PlaceOwner(b, u, m, top, y);
      if q.off < r.off { SlidOrder(b, top, q, r); }
      SlidOrder(b, top, r, q);
    }
  }

  /** `f` is `t` with the headers of the old objects below `s` cleared. */
  ghost predicate Cleared(t: Mem, f: Mem, s: nat) {
    && f.Keys == t.Keys
    && forall r :: r in t ==>
         f[r] == if r.arena == Old && r.off < s then t[r].(mark := false, fwd := None) else t[r]
  }

  lemma NothingCleared(t: Mem)
    ensures Cleared(t, t, 0)
  {
  }

  lemma ClearStep(t: Mem, f: Mem, top: nat, s: nat)
    requires Tiles(t, Old, top) && Cleared(t, f, s) && s < top && Ref(Old, s) in t
    ensures var r := Ref(Old, s);
            && r in f && Extent(f[r]) == Extent(t[r]) && FitsRun(t, r, top)
            && Cleared(t, f[r := f[r].(mark := false, fwd := None)], s + Extent(t[r]))
  {
    hide Extent, Tiles;
    var r := Ref(Old, s);
    var f' := f[r := f[r].(mark := false, fwd := None)];
    SameExtent(f[r], t[r]);
    assert FitsRun(t, r, top) by { RunFits(t, top, r); }
    forall q | q in t
      ensures f'[q] == if q.arena == Old && q.off < s + Extent(t[r]) then t[q].(mark := false, fwd := None) else t[q]
    {
      if q.arena == Old && s <= q.off < s + Extent(t[r]) { OnlyOneWithin(t, top, r, q); }
    }
  }

  lemma RunFits(t: Mem, top: nat, r: Ref)
    requires Tiles(t, Old, top) && r in t && r.arena == Old
    ensures FitsRun(t, r, top)
  {
  }

  /** A finished compaction: `m0` before, `b` marked, `a` addressed, `u` updated, `m`
      slid, `f` the result. It renamed the kept objects to their places and left a
      heap fit for the mutator. */
  lemma CompactionRenames(m0: Mem, b: Mem, a: Mem, u: Mem, m: Mem, f: Mem, top: nat)
    requires OnlyMarks(m0, b) && Addressed(b, a, top) && Updated(a, u, Places(b), Kept(b))
    requires Tiles(b, Old, top) && SameExtents(b, u) && Sliding(b, u, m, top)
    requires Cleared(Truncated(m, Slid(b, top)), f, Slid(b, top))
    ensures Graph.Renaming(m0, f, Places(b))
  {
    hide Extent, Slid, Tiles, Addressed;
    PlacesInjective(b, top);
    forall r | r in Places(b)
      ensures r in m0 && Places(b)[r] in f && Graph.ObjectRenamed(m0[r], f[Places(b)[r]], Places(b))
    {
      KeptObjectRenamed(m0, b, a, u, m, f, top, r);
    }
  }

  lemma KeptObjectRenamed(m0: Mem, b: Mem, a: Mem, u: Mem, m: Mem, f: Mem, top: nat, r: Ref)
    requires OnlyMarks(m0, b) && Addressed(b, a, top) && Updated(a, u, Places(b), Kept(b))
    requires Tiles(b, Old, top) && SameExtents(b, u) && Sliding(b, u, m, top)
    requires Cleared(Truncated(m, Slid(b, top)), f, Slid(b, top))
    requires r in Places(b)
    ensures r in m0 && Places(b)[r] in f && Graph.ObjectRenamed(m0[r], f[Places(b)[r]], Places(b))
    ensures f[Places(b)[r]] == if r.arena == Old then u[r].(mark := false, fwd := None) else u[r]
  {
    hide Extent, Slid, Address, OnlyPlaces, Tiles;
    assert UpdatedAt(a, u, Places(b), Kept(b), r);
    if r.arena == Old {
      RunFits(b, top, r);
      assert Landed(b, u, m, r);
      SlidNext(b, top, r);
      SlidMonotone(b, r.off + Extent(b[r]), top);
    }
  }

  /** Every object of the result is a kept object at its place. */
  lemma ResultOwner(m0: Mem, b: Mem, a: Mem, u: Mem, m: Mem, f: Mem, top: nat, x: Ref) returns (r: Ref)
    requires OnlyMarks(m0, b) && Addressed(b, a, top) && Updated(a, u, Places(b), Kept(b))
    requires Tiles(b, Old, top) && SameExtents(b, u) && Sliding(b, u, m, top)
    requires Cleared(Truncated(m, Slid(b, top)), f, Slid(b, top))
    requires x in f
    ensures r in Places(b) && Places(b)[r] == x && (r.arena == Old <==> x.arena == Old)
  {
    hide Extent, Slid, Tiles, OnlyPlaces, LandedBelow;
    if x.arena == Old {
      r := PlaceOwner(b, u, m, top, x);
    } else {
      r := x;
    }
  }

  lemma ResultObject(m0: Mem, b: Mem, a: Mem, u: Mem, m: Mem, f: Mem, from: Arena, top: nat, x: Ref)
    requires OnlyMarks(m0, b) && Addressed(b, a, top) && Updated(a, u, Places(b), Kept(b))
    requires Tiles(b, Old, top) && SameExtents(b, u) && Sliding(b, u, m, top)
    requires Cleared(Truncated(m, Slid(b, top)), f, Slid(b, top))
    requires forall r :: r in m0 ==> (r.arena == from || r.arena == Old) && CleanHeader(m0[r])
    requires x in f
    ensures PointsInto(f[x], f) && CleanHeader(f[x]) && (x.arena == from || x.arena == Old)
    ensures x.arena != Old ==> x in m0 && Extent(f[x]) == Extent(m0[x])
  {
    var r := ResultOwner(m0, b, a, u, m, f, top, x);
    KeptObjectRenamed(m0, b, a, u, m, f, top, r);
    CompactionRenames(m0, b, a, u, m, f, top);
    assert UpdatedAt(a, u, Places(b), Kept(b), r);
    hide Extent, Slid, Address, Tiles, Sliding, Cleared, SameExtents;
    SameExtent(m0[r], f[x]);
    assert Graph.ObjectRenamed(m0[r], f[x], Places(b));
    forall i | 0 <= i < |f[x].slots| && f[x].slots[i].Ptr? ensures f[x].slots[i].ref in f {
      assert Graph.SlotRenamed(m0[r].slots[i], f[x].slots[i], Places(b));
    }
  }

  /** The result is a good heap whose old arena ends where the live bytes end. */
  lemma ResultHeap(m0: Mem, b: Mem, a: Mem, u: Mem, m: Mem, f: Mem,
                   from: Arena, youngTop: nat, top: nat, semi: nat, oldSize: nat)
    requires GoodHeap(m0, from, youngTop, top, semi, oldSize)
    requires OnlyMarks(m0, b) && Addressed(b, a, top) && Updated(a, u, Places(b), Kept(b))
    requires Tiles(b, Old, top) && SameExtents(b, u) && Sliding(b, u, m, top)
    requires Cleared(Truncated(m, Slid(b, top)), f, Slid(b, top))
    ensures GoodHeap(f, from, youngTop, Slid(b, top), semi, oldSize)
  {
    SlidTiles(b, u, m, top);
    SlidBelow(b, top, top);
    forall x | x in f
      ensures PointsInto(f[x], f) && CleanHeader(f[x]) && (x.arena == from || x.arena == Old)
      ensures x.arena != Old ==> x in m0 && Extent(f[x]) == Extent(m0[x])
    {
      ResultObject(m0, b, a, u, m, f, from, top, x);
    }
    RunsOfResult(m0, b, u, m, f, from, top);
    hide Extent, Slid, Tiles, Sliding, Cleared, SameExtents, Addressed, Updated;
    SameRunTiles(m0, f, from, youngTop);
    SameRunTiles(Truncated(m, Slid(b, top)), f, Old, Slid(b, top));
  }

  lemma RunsOfResult(m0: Mem, b: Mem, u: Mem, m: Mem, f: Mem, from: Arena, top: nat)
    requires from != Old && OnlyMarks(m0, b) && SameExtents(b, u) && Sliding(b, u, m, top)
    requires Cleared(Truncated(m, Slid(b, top)), f, Slid(b, top))
    ensures SameRun(m0, f, from) && SameRun(Truncated(m, Slid(b, top)), f, Old)
  {
    hide Extent, Slid, LandedBelow, OnlyPlaces;
    var t := Truncated(m, Slid(b, top));
    forall r: Ref | r.arena == from ensures (r in m0 <==> r in f) && (r in m0 ==> Extent(f[r]) == Extent(m0[r])) {
      if r in m0 {
        assert Extent(u[r]) == Extent(b[r]);
        SameExtent(b[r], m0[r]);
      }
    }
    forall r: Ref | r.arena == Old ensures (r in t <==> r in f) && (r in t ==> Extent(f[r]) == Extent(t[r])) {
      if r in t { SameExtent(f[r], t[r]); }
    }
  }

  lemma UpdatedExtents(b: Mem, a: Mem, u: Mem, top: nat, names: map<Ref, Ref>, done: set<Ref>)
    requires Addressed(b, a, top) && Updated(a, u, names, done)
    ensures SameExtents(b, u)
  {
    hide Address;
    forall r | r in b ensures Extent(u[r]) == Extent(b[r]) {
      assert UpdatedAt(a, u, names, done, r);
      SameExtent(u[r], b[r]);
    }
  }

  lemma MarkedHeap(m0: Mem, b: Mem, from: Arena, top: nat, oldTop: nat, semi: nat, oldSize: nat)
    requires GoodHeap(m0, from, top, oldTop, semi, oldSize) && OnlyMarks(m0, b)
    ensures from != Old && Tiles(b, Old, oldTop) && Tiles(b, from, top) && Addressed(b, b, 0)
    ensures Boundary(b, Old, oldTop, oldTop)
    ensures forall r :: r in b ==> r.arena == Old || r.arena == from
  {
    hide Extent, Tiles, Closed;
    forall r | r in b ensures Extent(b[r]) == Extent(m0[r]) {
      SameExtent(b[r], m0[r]);
    }
    SameRunTiles(m0, b, Old, oldTop);
    SameRunTiles(m0, b, from, top);
  }

  lemma HeadersKept(b: Mem, a: Mem, u: Mem, top: nat, names: map<Ref, Ref>, done: set<Ref>)
    requires Tiles(b, Old, top) && Addressed(b, a, top) && Updated(a, u, names, done)
    ensures u.Keys == b.Keys
    ensures forall r :: r in b ==> u[r].mark == b[r].mark && (r.arena == Old ==> u[r].fwd == Address(b, r))
  {
    hide Extent, Tiles, Address;
    forall r | r in b ensures u[r].mark == b[r].mark && (r.arena == Old ==> u[r].fwd == Address(b, r)) {
      assert UpdatedAt(a, u, names, done, r);
      if r.arena == Old { RunFits(b, top, r); }
    }
  }

  /** The old objects below `s` that a root or a young object holds. */
  ghost function HeldBelow(m: Mem, from: Arena, roots: seq<Slot>, s: nat): set<Ref> {
    set r | r in m && r.arena == Old && r.off < s && Held(m, from, roots, r)
  }

  lemma SlidIsHeldBelow(m0: Mem, b: Mem, from: Arena, roots: seq<Slot>, s: nat)
    requires OnlyMarks(m0, b)
    requires forall r :: r in b && r.arena == Old ==> (b[r].mark <==> Held(m0, from, roots, r))
    ensures Slid(b, s) == TotalExtent(m0, HeldBelow(m0, from, roots, s))
  {
    hide Held, Extent;
    assert MarkedBelow(b, s) == HeldBelow(m0, from, roots, s);
    forall r | r in MarkedBelow(b, s) ensures Extent(b[r]) == Extent(m0[r]) {
      SameExtent(b[r], m0[r]);
    }
    TotalExtentSame(b, m0, MarkedBelow(b, s));
  }

  /** The whole effect of a compaction: `names` renames the graph; exactly the young
      objects and the held old ones survive; young objects stay where they are, old ones
      slide down to the end of the held bytes below them, keeping their order; nothing else is left in the heap. */
  ghost predicate Compaction(m0: Mem, from: Arena, roots: seq<Slot>, m: Mem, names: map<Ref, Ref>) {
    && Graph.Renaming(m0, m, names)
    && (forall r :: r in m0 ==> (r in names <==> r.arena != Old || Held(m0, from, roots, r)))
    && (forall r :: r in names && r.arena != Old ==> names[r] == r)
    && (forall r :: r in names && r.arena == Old ==>
          names[r] == Ref(Old, TotalExtent(m0, HeldBelow(m0, from, roots, r.off))))
    && (forall r :: r in names && r.arena == Old ==> names[r].off <= r.off)
    && (forall r, q :: r in names && q in names && r.arena == Old && q.arena == Old && r.off < q.off ==>
          names[r].off < names[q].off)
    && (forall x :: x in m ==> exists r :: r in names && names[r] == x)
  }

  lemma PlacesFacts(m0: Mem, b: Mem, from: Arena, top: nat, roots: seq<Slot>, m: Mem)
    requires OnlyMarks(m0, b) && Tiles(b, Old, top) && Graph.Renaming(m0, m, Places(b))
    requires forall r :: r in b && r.arena == Old ==> (b[r].mark <==> Held(m0, from, roots, r))
    requires forall x :: x in m ==> exists r :: r in Places(b) && Places(b)[r] == x
    ensures Compaction(m0, from, roots, m, Places(b))
  {
    hide Extent, Slid, Held, Tiles, TotalExtent, Graph.Renaming;
    forall r | r in Places(b) && r.arena == Old
      ensures Slid(b, r.off) <= r.off && Slid(b, r.off) == TotalExtent(m0, HeldBelow(m0, from, roots, r.off))
    {
      RunFits(b, top, r);
      SlidBelow(b, top, r.off);
      SlidIsHeldBelow(m0, b, from, roots, r.off);
    }
    forall r, q | r in Places(b) && q in Places(b) && r.arena == Old && q.arena == Old && r.off < q.off
      ensures Slid(b, r.off) < Slid(b, q.off)
    {
      SlidOrder(b, top, r, q);
    }
  }

  lemma CompactedRoots(m0: Mem, from: Arena, roots: seq<Slot>, m: Mem, names: map<Ref, Ref>, before: seq<Slot>, now: seq<Slot>)
    requires Compaction(m0, from, roots, m, names) && Graph.RootsRenamed(before, now, names)
    ensures RootsInto(now, m)
  {
    Graph.RenamedInto(m0, m, names, before, now);
  }

  lemma ResultCovered(m0: Mem, b: Mem, a: Mem, u: Mem, m: Mem, f: Mem, top: nat)
    requires OnlyMarks(m0, b) && Addressed(b, a, top) && Updated(a, u, Places(b), Kept(b))
    requires Tiles(b, Old, top) && SameExtents(b, u) && Sliding(b, u, m, top)
    requires Cleared(Truncated(m, Slid(b, top)), f, Slid(b, top))
    ensures forall x :: x in f ==> exists r :: r in Places(b) && Places(b)[r] == x
  {
    hide Extent, Slid, Tiles, Sliding, Cleared, Places, SameExtents, Addressed, Updated, OnlyMarks;
    forall x | x in f ensures exists r :: r in Places(b) && Places(b)[r] == x {
      var r := ResultOwner(m0, b, a, u, m, f, top, x);
    }
  }

  lemma CompactionDone(m0: Mem, b: Mem, a: Mem, u: Mem, m: Mem, f: Mem,
                       from: Arena, youngTop: nat, top: nat, semi: nat, oldSize: nat, roots: seq<Slot>)
    requires GoodHeap(m0, from, youngTop, top, semi, oldSize)
    requires OnlyMarks(m0, b) && Addressed(b, a, top) && Updated(a, u, Places(b), Kept(b))
    requires Tiles(b, Old, top) && SameExtents(b, u) && Sliding(b, u, m, top)
    requires Cleared(Truncated(m, Slid(b, top)), f, Slid(b, top))
    requires forall r :: r in b && r.arena == Old ==> (b[r].mark <==> Held(m0, from, roots, r))
    ensures Compaction(m0, from, roots, f, Places(b))
    ensures GoodHeap(f, from, youngTop, Slid(b, top), semi, oldSize)
    ensures Slid(b, top) <= top
  {
    hide Extent, Slid, Tiles, GoodHeap, OnlyMarks, Addressed, Updated, Sliding, Cleared, SameExtents, Kept, Places, Held, Compaction;
    CompactionRenames(m0, b, a, u, m, f, top);
    ResultHeap(m0, b, a, u, m, f, from, youngTop, top, semi, oldSize);
    ResultCovered(m0, b, a, u, m, f, top);
    PlacesFacts(m0, b, from, top, roots, f);
    SlidBelow(b, top, top);
  }
}
