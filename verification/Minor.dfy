/** One minor collection as a state machine: what every evacuation and every
    rewritten slot keeps, and what holds once both scan frontiers are drained. */
module Minor {
  import opened Objects
  import Graph

  /** What a cycle starts from. `live` is any set of objects that contains the
      roots and the remembered holders and is closed under pointers. */
  datatype Start = Start(mem: Mem, from: Arena, top: nat, oldTop: nat, semi: nat, oldSize: nat, live: set<Ref>)

  /** The moving part. `org` names the object each object outside from-space is a
      copy of (itself if it was old before the cycle); `prog` counts its slots
      that have been forwarded. */
  datatype Now = Now(mem: Mem, toTop: nat, oldTop: nat, org: map<Ref, Ref>, prog: map<Ref, nat>)

  function Other(a: Arena): Arena {
    if a == SpaceA then SpaceB else SpaceA
  }

  ghost predicate GoodStart(z: Start) {
    GoodHeap(z.mem, z.from, z.top, z.oldTop, z.semi, z.oldSize) && LiveClosed(z)
  }

  ghost predicate LiveClosed(z: Start) {
    forall r {:trigger PointsToLive(z, z.mem[r])} :: r in z.live && r in z.mem ==> PointsToLive(z, z.mem[r])
  }

  ghost predicate PointsToLive(z: Start, o: Object) {
    forall i :: 0 <= i < |o.slots| && o.slots[i].Ptr? ==> o.slots[i].ref in z.live
  }

  ghost function FromObjects(z: Start): set<Ref> {
    set r | r in z.mem && r.arena == z.from
  }

  /** Old before the cycle began. */
  ghost predicate Prior(z: Start, d: Ref) {
    d.arena == Old && d.off < z.oldTop
  }

  /** `t` is `s` after forwarding: a from-space pointer became its forwarding address. */
  ghost predicate Forwarded(z: Start, m: Mem, s: Slot, t: Slot) {
    if s.Ptr? && s.ref.arena == z.from
    then s.ref in m && m[s.ref].fwd.Some? && t == Ptr(m[s.ref].fwd.value)
    else t == s
  }

  // ---- the invariant -------------------------------------------------------

  ghost predicate FromKept(z: Start, c: Now) {
    && (forall r :: r in c.mem && r.arena == z.from ==> r in z.mem)
    && (forall r :: r in z.mem && r.arena == z.from ==>
          r in c.mem && c.mem[r] == z.mem[r].(fwd := c.mem[r].fwd))
  }

  ghost predicate ForwardingSound(z: Start, c: Now) {
    forall r :: r in z.mem && r.arena == z.from && r in c.mem && c.mem[r].fwd.Some? ==>
      c.mem[r].fwd.value in c.org && c.org[c.mem[r].fwd.value] == r && !Prior(z, c.mem[r].fwd.value)
  }

  ghost predicate Copies(z: Start, c: Now) {
    && (forall d :: d in c.org <==> d in c.mem && d.arena != z.from)
    && (forall d :: d in z.mem && d.arena == Old ==> d in c.org && Prior(z, d))
    && (forall d {:trigger CopyOf(z, c, d)} :: d in c.org ==> CopyOf(z, c, d))
  }

  ghost predicate CopyOf(z: Start, c: Now, d: Ref)
    requires d in c.org
  {
    && d in c.mem && c.org[d] in z.mem && d in c.prog
    && SameShape(z.mem[c.org[d]], c.mem[d])
    && CleanHeader(c.mem[d])
    && c.prog[d] <= |c.mem[d].slots|
    && Tenured(z, c, d)
    && (if Prior(z, d) then c.org[d] == d
        else c.org[d].arena == z.from && c.org[d] in c.mem && c.mem[c.org[d]].fwd == Some(d) && c.org[d] in z.live)
    && (forall i :: 0 <= i < c.prog[d] ==> Forwarded(z, c.mem, z.mem[c.org[d]].slots[i], c.mem[d].slots[i]))
    && (forall i :: c.prog[d] <= i < |c.mem[d].slots| ==> c.mem[d].slots[i] == z.mem[c.org[d]].slots[i])
  }

  /** Promotion resets the age, staying young adds one; a survivor that is old enough
      stays young only if the old arena has no room for it. */
  ghost predicate Tenured(z: Start, c: Now, d: Ref)
    requires d in c.org && d in c.mem && c.org[d] in z.mem
  {
    var was := z.mem[c.org[d]].age;
    && c.mem[d].age == (if Prior(z, d) then was else if d.arena == Old then 0 else Aged(was))
    && (d.arena != Old && was + 1 >= PROMOTE_THRESHOLD ==> c.oldTop + Extent(c.mem[d]) > z.oldSize)
  }

  ghost function Pending(z: Start, c: Now): set<Ref> {
    set r | r in z.mem && r.arena == z.from && r in c.mem && c.mem[r].fwd.None?
  }

  /** Every from-space byte is either still pending or was copied once. */
  ghost predicate BytesConserved(z: Start, c: Now) {
    && Pending(z, c) <= z.mem.Keys
    && z.oldTop <= c.oldTop
    && TotalExtent(z.mem, Pending(z, c)) + c.toTop + (c.oldTop - z.oldTop) == z.top
  }

  ghost predicate Inv(z: Start, c: Now) {
    && FromKept(z, c) && ForwardingSound(z, c) && Copies(z, c) && BytesConserved(z, c)
    && Tiles(c.mem, Other(z.from), c.toTop) && Tiles(c.mem, Old, c.oldTop)
    && c.oldTop <= z.oldSize
  }

  /** What later steps never undo, outside the object `traced` that is being rewritten. */
  ghost predicate Grows(z: Start, c: Now, c': Now, traced: set<Ref>) {
    && c.toTop <= c'.toTop && c.oldTop <= c'.oldTop
    && (forall d :: d in c.org ==> (d in c'.org && c'.org[d] == c.org[d]))
    && (forall d :: d in c.org && d !in traced ==>
          (d in c.mem && d in c'.mem && d in c.prog && d in c'.prog
           && c'.mem[d] == c.mem[d] && c'.prog[d] == c.prog[d]))
    && (forall d :: d in c'.org && d !in c.org ==>
          (d in c'.prog && c'.prog[d] == 0
           && (if d.arena == Old then d.off >= c.oldTop else d.off >= c.toTop)))
    && (forall r :: r in c.mem && r.arena == z.from && c.mem[r].fwd.Some? ==>
          (r in c'.mem && c'.mem[r].fwd == c.mem[r].fwd))
  }

  lemma GrowsReflexive(z: Start, c: Now)
    requires Copies(z, c)
    ensures forall traced :: Grows(z, c, c, traced)
  {
    hide CopyOf;
    CopiesInDomain(z, c);
  }

  lemma GrowsTransitive(z: Start, a: Now, b: Now, c: Now, traced: set<Ref>)
    requires Grows(z, a, b, traced) && Grows(z, b, c, traced)
    requires forall d :: d in b.org && d !in a.org ==> d !in traced
    ensures Grows(z, a, c, traced)
  {
  }

  lemma ForwardedGrows(z: Start, m: Mem, m': Mem, s: Slot, t: Slot)
    requires Forwarded(z, m, s, t)
    requires forall r :: r in m && r.arena == z.from && m[r].fwd.Some? ==> r in m' && m'[r].fwd == m[r].fwd
    ensures Forwarded(z, m', s, t)
  {
  }

  /** What `copy` may rely on about an object it is handed. */
  lemma CopyReady(z: Start, c: Now, o: Ref)
    requires GoodStart(z) && Inv(z, c)
    requires o in c.mem && (o.arena == Old || o.arena == z.from)
    ensures o.arena == Old ==> o.off < c.oldTop
    ensures z.from != Old && Grows(z, c, c, {})
  {
    hide Extent, CopyOf, Grows, Forwarded, Closed, LiveClosed, BytesConserved;
    assert o.arena == Old ==> FitsRun(c.mem, o, c.oldTop);
    GrowsReflexive(z, c);
  }

  /** To-space cannot overflow: what is pending still fits what is left of `top`. */
  lemma ToSpaceFits(z: Start, c: Now, r: Ref)
    requires GoodStart(z) && Inv(z, c)
    requires r in c.mem && r.arena == z.from && c.mem[r].fwd.None?
    ensures c.toTop + Extent(c.mem[r]) <= z.semi
  {
    hide Extent, Closed, LiveClosed, Tiles, Copies, ForwardingSound;
    EvacuateBytes(z, c, r, Ref(Other(z.from), c.toTop));
  }

  // ---- the initial state ---------------------------------------------------

  /** Before the first step: nothing copied; an old object off the remembered set
      holds no young pointer, so it counts as forwarded already. */
  ghost function Initial(z: Start, holders: set<Ref>): Now {
    Now(z.mem, 0, z.oldTop,
        map d | d in z.mem && d.arena == Old :: d,
        map d | d in z.mem && d.arena == Old :: if d in holders then 0 else |z.mem[d].slots|)
  }

  lemma InitialBytes(z: Start, holders: set<Ref>)
    requires GoodStart(z)
    ensures BytesConserved(z, Initial(z, holders))
  {
    hide Extent, Closed, LiveClosed;
    assert Pending(z, Initial(z, holders)) == Below(z.mem, z.from, z.top) by {
      forall r | r in z.mem && r.arena == z.from ensures r.off < z.top {
        assert FitsRun(z.mem, r, z.top);
      }
    }
    RunExtent(z.mem, z.from, z.top, z.top);
  }

  lemma InitialCopies(z: Start, holders: set<Ref>)
    requires GoodStart(z)
    requires forall r :: r in z.mem && r.arena == Old && Holds(z.mem[r], z.from) ==> r in holders
    ensures Copies(z, Initial(z, holders))
  {
    hide Extent, LiveClosed;
    var c := Initial(z, holders);
    forall d | d in c.org ensures Prior(z, d) {
      assert FitsRun(z.mem, d, z.oldTop);
    }
    forall d | d in c.org ensures CopyOf(z, c, d) {
      forall i | 0 <= i < c.prog[d] ensures Forwarded(z, c.mem, z.mem[d].slots[i], c.mem[d].slots[i]) {
        assert !Holds(z.mem[d], z.from);
      }
    }
  }

  lemma InitialInv(z: Start, holders: set<Ref>)
    requires GoodStart(z)
    requires forall r :: r in z.mem && r.arena == Old && Holds(z.mem[r], z.from) ==> r in holders
    ensures Inv(z, Initial(z, holders))
    ensures Pending(z, Initial(z, holders)) == FromObjects(z)
  {
    hide Extent, Closed, LiveClosed, Tiles, BytesConserved, Copies;
    InitialBytes(z, holders);
    InitialCopies(z, holders);
    NoneTiles(z.mem, Other(z.from));
  }

  lemma InitialParts(z: Start, holders: set<Ref>)
    ensures var c := Initial(z, holders);
            c == Now(z.mem, 0, z.oldTop, c.org, c.prog)
  {
  }

  lemma NoneTiles(m: Mem, arena: Arena)
    requires forall r :: r in m ==> r.arena != arena
    ensures Tiles(m, arena, 0)
  {
  }

  // ---- the two steps -------------------------------------------------------

  /** The age of the copy of `o` in `arena`. */
  function AgeIn(o: Object, arena: Arena): nat {
    if arena == Old then 0 else Aged(o.age)
  }

  /** The state after evacuating `r` to `n`. */
  ghost function Evacuated(z: Start, c: Now, r: Ref, n: Ref): Now
    requires r in c.mem
  {
    var o := c.mem[r].(age := AgeIn(c.mem[r], n.arena));
    Now(c.mem[n := o][r := c.mem[r].(fwd := Some(n))],
        if n.arena == Old then c.toTop else c.toTop + Extent(o),
        if n.arena == Old then c.oldTop + Extent(o) else c.oldTop,
        c.org[n := r], c.prog[n := 0])
  }

  /** Copying from a third arena to the end of one run extends that run and leaves the other. */
  lemma CopyTiles(m: Mem, r: Ref, arena: Arena, top: nat, o: Object, stamped: Object, other: Arena, otherTop: nat)
    requires Tiles(m, arena, top) && Tiles(m, other, otherTop)
    requires r in m && r.arena != arena && r.arena != other && arena != other
    ensures Ref(arena, top) !in m
    ensures Tiles(m[Ref(arena, top) := o][r := stamped], arena, top + Extent(o))
    ensures Tiles(m[Ref(arena, top) := o][r := stamped], other, otherTop)
  {
    hide Extent;
    var m1 := m[Ref(arena, top) := o];
    var m2 := m1[r := stamped];
    AppendTiles(m, arena, top, o);
    SameRunTiles(m1, m2, arena, top + Extent(o));
    SameRunTiles(m, m2, other, otherTop);
  }

  lemma EvacuateTiles(z: Start, c: Now, r: Ref, n: Ref)
    requires Tiles(c.mem, Other(z.from), c.toTop) && Tiles(c.mem, Old, c.oldTop)
    requires z.from != Old && z.oldTop <= c.oldTop
    requires r in c.mem && r.arena == z.from
    requires n == Ref(Other(z.from), c.toTop) || n == Ref(Old, c.oldTop)
    ensures n !in c.mem && !Prior(z, n)
    ensures var c' := Evacuated(z, c, r, n);
            Tiles(c'.mem, Other(z.from), c'.toTop) && Tiles(c'.mem, Old, c'.oldTop)
  {
    hide Extent, Tiles;
    var o, stamped := c.mem[r].(age := AgeIn(c.mem[r], n.arena)), c.mem[r].(fwd := Some(n));
    if n.arena == Old {
      CopyTiles(c.mem, r, Old, c.oldTop, o, stamped, Other(z.from), c.toTop);
    } else {
      CopyTiles(c.mem, r, Other(z.from), c.toTop, o, stamped, Old, c.oldTop);
    }
  }

  lemma EvacuateBytes(z: Start, c: Now, r: Ref, n: Ref)
    requires FromKept(z, c) && BytesConserved(z, c)
    requires r in c.mem && r.arena == z.from && c.mem[r].fwd.None?
    requires n.arena != z.from
    ensures BytesConserved(z, Evacuated(z, c, r, n))
    ensures r in Pending(z, c) && Pending(z, Evacuated(z, c, r, n)) == Pending(z, c) - {r}
    ensures Extent(c.mem[r]) + c.toTop + (c.oldTop - z.oldTop) <= z.top
  {
    hide Extent;
    var c' := Evacuated(z, c, r, n);
    assert r in z.mem && c.mem[r] == z.mem[r].(fwd := c.mem[r].fwd);
    assert Pending(z, c') == Pending(z, c) - {r};
    TotalExtentRemove(z.mem, Pending(z, c), r);
    SameExtent(c.mem[r], z.mem[r]);
    SameExtent(c.mem[r].(age := AgeIn(c.mem[r], n.arena)), z.mem[r]);
  }

  /** The guard of the promoting branch: an object old enough to be promoted is not
      copied to to-space while there is room. */
  ghost predicate MayStayYoung(z: Start, c: Now, r: Ref, n: Ref)
    requires r in c.mem
  {
    n.arena != Old && c.mem[r].age + 1 >= PROMOTE_THRESHOLD ==> c.oldTop + Extent(c.mem[r]) > z.oldSize
  }

  /** A copy that is left alone stays a copy. */
  lemma CopyOfKept(z: Start, c: Now, c': Now, d: Ref)
    requires d in c.org && CopyOf(z, c, d) && d in c'.org && c'.org[d] == c.org[d]
    requires d in c'.mem && c'.mem[d] == c.mem[d] && d in c'.prog && c'.prog[d] == c.prog[d]
    requires c.oldTop <= c'.oldTop
    requires forall r :: r in c.mem && r.arena == z.from && c.mem[r].fwd.Some? ==> r in c'.mem && c'.mem[r].fwd == c.mem[r].fwd
    ensures CopyOf(z, c', d)
  {
    hide Extent;
    forall i | 0 <= i < c.prog[d]
      ensures Forwarded(z, c'.mem, z.mem[c.org[d]].slots[i], c'.mem[d].slots[i])
    {
      ForwardedGrows(z, c.mem, c'.mem, z.mem[c.org[d]].slots[i], c.mem[d].slots[i]);
    }
  }

  lemma EvacuateCopies(z: Start, c: Now, r: Ref, n: Ref)
    requires FromKept(z, c) && Copies(z, c)
    requires r in c.mem && r.arena == z.from && c.mem[r].fwd.None? && r in z.live
    requires n !in c.mem && n.arena != z.from && !Prior(z, n)
    requires CleanHeader(z.mem[r]) && MayStayYoung(z, c, r, n)
    ensures Copies(z, Evacuated(z, c, r, n))
  {
    hide Extent;
    var c' := Evacuated(z, c, r, n);
    SameExtent(c'.mem[n], c.mem[r]);
    assert CopyOf(z, c', n);
    hide CopyOf;
    CopiesInDomain(z, c);
    forall d | d in c'.org ensures CopyOf(z, c', d) {
      if d != n {
        CopyOfKept(z, c, c', d);
      }
    }
  }

  lemma EvacuateFrom(z: Start, c: Now, r: Ref, n: Ref)
    requires FromKept(z, c) && ForwardingSound(z, c)
    requires r in c.mem && r.arena == z.from && c.mem[r].fwd.None?
    requires n.arena != z.from && n !in c.org && !Prior(z, n)
    ensures FromKept(z, Evacuated(z, c, r, n)) && ForwardingSound(z, Evacuated(z, c, r, n))
  {
    hide Extent;
  }

  lemma CopiesInDomain(z: Start, c: Now)
    requires Copies(z, c)
    ensures forall d :: d in c.org ==> d in c.mem && d in c.prog && d.arena != z.from && c.prog[d] <= |c.mem[d].slots|
  {
    forall d | d in c.org ensures d in c.mem && d in c.prog && c.prog[d] <= |c.mem[d].slots| {
      assert CopyOf(z, c, d);
    }
  }

  lemma EvacuateGrows(z: Start, c: Now, r: Ref, n: Ref)
    requires Copies(z, c)
    requires r in c.mem && r.arena == z.from && c.mem[r].fwd.None?
    requires n == Ref(Other(z.from), c.toTop) || n == Ref(Old, c.oldTop)
    requires n !in c.mem && n.arena != z.from
    ensures Grows(z, c, Evacuated(z, c, r, n), {})
  {
    hide Extent, CopyOf;
    CopiesInDomain(z, c);
  }

  lemma EvacuateStep(z: Start, c: Now, r: Ref, n: Ref)
    requires GoodStart(z) && Inv(z, c)
    requires r in c.mem && r.arena == z.from && c.mem[r].fwd.None? && r in z.live
    requires n == Ref(Other(z.from), c.toTop) || n == Ref(Old, c.oldTop)
    requires n.arena == Old ==> c.oldTop + Extent(c.mem[r]) <= z.oldSize
    requires MayStayYoung(z, c, r, n)
    ensures Inv(z, Evacuated(z, c, r, n)) && Grows(z, c, Evacuated(z, c, r, n), {})
    ensures Pending(z, Evacuated(z, c, r, n)) == Pending(z, c) - {r}
  {
    assert z.from != Old && z.oldTop <= c.oldTop && r in z.mem && CleanHeader(z.mem[r]);
    hide Extent, GoodStart, Tiles, CopyOf, Pending, BytesConserved, FromKept, ForwardingSound, Grows;
    EvacuateTiles(z, c, r, n);
    assert n !in c.org;
    hide Copies;
    EvacuateBytes(z, c, r, n);
    EvacuateCopies(z, c, r, n);
    EvacuateFrom(z, c, r, n);
    EvacuateGrows(z, c, r, n);
    SameExtent(c.mem[r].(age := AgeIn(c.mem[r], n.arena)), c.mem[r]);
  }

  /** The state after storing `t` into slot prog[d] of `d`. */
  ghost function Stored(c: Now, d: Ref, t: Slot): Now
    requires d in c.mem && d in c.prog && c.prog[d] < |c.mem[d].slots|
  {
    var i := c.prog[d];
    c.(mem := c.mem[d := c.mem[d].(slots := c.mem[d].slots[i := t])], prog := c.prog[d := i + 1])
  }

  lemma StoreCopies(z: Start, c: Now, d: Ref, t: Slot)
    requires Copies(z, c)
    requires d in c.org && d in c.mem && d in c.prog && c.prog[d] < |c.mem[d].slots|
    requires Forwarded(z, c.mem, c.mem[d].slots[c.prog[d]], t)
    ensures Copies(z, Stored(c, d, t))
  {
    var c' := Stored(c, d, t);
    assert CopyOf(z, c, d);
    forall x | x in c'.org ensures CopyOf(z, c', x) {
      assert CopyOf(z, c, x);
      forall i | 0 <= i < c'.prog[x]
        ensures Forwarded(z, c'.mem, z.mem[c.org[x]].slots[i], c'.mem[x].slots[i])
      {
        if x != d || i < c.prog[d] {
          ForwardedGrows(z, c.mem, c'.mem, z.mem[c.org[x]].slots[i], c.mem[x].slots[i]);
        }
      }
    }
  }

  lemma StoreTiles(m: Mem, d: Ref, o: Object, arena: Arena, top: nat)
    requires d in m && SameShape(m[d], o) && Tiles(m, arena, top)
    ensures Tiles(m[d := o], arena, top)
  {
    SameExtent(m[d], o);
    hide Extent, Tiles;
    SameRunTiles(m, m[d := o], arena, top);
  }

  lemma StoreFrom(z: Start, c: Now, d: Ref, t: Slot)
    requires FromKept(z, c) && ForwardingSound(z, c)
    requires d in c.mem && d in c.prog && c.prog[d] < |c.mem[d].slots| && d.arena != z.from
    ensures FromKept(z, Stored(c, d, t)) && ForwardingSound(z, Stored(c, d, t))
    ensures Pending(z, Stored(c, d, t)) == Pending(z, c)
  {
  }

  lemma StoreStep(z: Start, c: Now, d: Ref, t: Slot)
    requires GoodStart(z) && Inv(z, c)
    requires d in c.org && d in c.mem && d in c.prog && c.prog[d] < |c.mem[d].slots|
    requires Forwarded(z, c.mem, c.mem[d].slots[c.prog[d]], t)
    ensures Inv(z, Stored(c, d, t))
    ensures Pending(z, Stored(c, d, t)) == Pending(z, c)
  {
    assert z.from != Old && d.arena != z.from;
    hide GoodStart, CopyOf, Forwarded, Tiles, Copies, TotalExtent, FromKept, ForwardingSound, Pending;
    StoreCopies(z, c, d, t);
    StoreFrom(z, c, d, t);
    StoreTiles(c.mem, d, Stored(c, d, t).mem[d], Other(z.from), c.toTop);
    StoreTiles(c.mem, d, Stored(c, d, t).mem[d], Old, c.oldTop);
  }

  lemma StoreGrows(z: Start, c: Now, d: Ref, t: Slot)
    requires Copies(z, c)
    requires d in c.org && d in c.mem && d in c.prog && c.prog[d] < |c.mem[d].slots|
    ensures Grows(z, c, Stored(c, d, t), {d})
  {
    hide CopyOf;
    CopiesInDomain(z, c);
  }

  // ---- tracing one object ----------------------------------------------------

  ghost predicate Done(c: Now, d: Ref) {
    d in c.mem && d in c.prog && c.prog[d] == |c.mem[d].slots|
  }

  ghost predicate Fresh(c: Now, d: Ref) {
    d in c.prog && c.prog[d] == 0
  }

  /** A slot not yet forwarded leads to an old object or to a live from-space object. */
  lemma SlotReady(z: Start, c: Now, d: Ref)
    requires GoodStart(z) && Inv(z, c)
    requires d in c.org && c.org[d] in z.live
    ensures d in c.mem && d.arena != z.from && d in c.prog && c.prog[d] <= |c.mem[d].slots|
    ensures Grows(z, c, c, {d}) && Grows(z, c, c, {})
    ensures c.prog[d] < |c.mem[d].slots| && c.mem[d].slots[c.prog[d]].Ptr? ==>
              var p := c.mem[d].slots[c.prog[d]].ref;
              p in c.mem && (p.arena == Old || (p.arena == z.from && p in z.live && p in z.mem))
    ensures c.org[d] in z.mem && |z.mem[c.org[d]].slots| == |c.mem[d].slots|
    ensures c.prog[d] < |c.mem[d].slots| ==>
              c.mem[d].slots[c.prog[d]] == z.mem[c.org[d]].slots[c.prog[d]]
  {
    hide Tiles, Forwarded, BytesConserved, Grows;
    assert CopyOf(z, c, d);
    GrowsReflexive(z, c);
    assert PointsInto(z.mem[c.org[d]], z.mem) && PointsToLive(z, z.mem[c.org[d]]);
  }

  /** One turn of a tracing loop: the child was forwarded, then the slot is rewritten. */
  lemma AdvanceStep(z: Start, c: Now, c1: Now, d: Ref, t: Slot)
    requires GoodStart(z) && Inv(z, c1) && Grows(z, c, c1, {})
    requires d in c.org && d in c.mem && d in c.prog && c.prog[d] < |c.mem[d].slots|
    requires Forwarded(z, c1.mem, c.mem[d].slots[c.prog[d]], t)
    ensures d in c1.org && c1.org[d] == c.org[d]
    ensures d in c1.mem && d in c1.prog && c1.mem[d] == c.mem[d] && c1.prog[d] == c.prog[d]
    ensures Inv(z, Stored(c1, d, t)) && Grows(z, c, Stored(c1, d, t), {d})
    ensures Pending(z, Stored(c1, d, t)) == Pending(z, c1)
  {
    StoreStep(z, c1, d, t);
    StoreGrows(z, c1, d, t);
    assert d in c1.org && c1.org[d] == c.org[d];
    hide Inv, GoodStart, Stored, Forwarded, Pending;
    AdvanceGrows(z, c, c1, Stored(c1, d, t), d);
  }

  lemma AdvanceGrows(z: Start, c: Now, c1: Now, c2: Now, d: Ref)
    requires Grows(z, c, c1, {}) && Grows(z, c1, c2, {d}) && d in c.org
    ensures Grows(z, c, c2, {d})
  {
    assert Grows(z, c, c1, {d});
    GrowsTransitive(z, c, c1, c2, {d});
  }

  lemma TracedGrows(z: Start, e: Now, c: Now, c': Now, d: Ref)
    requires Grows(z, e, c, {d}) && Grows(z, c, c', {d}) && d in e.org
    ensures Grows(z, e, c', {d})
  {
    GrowsTransitive(z, e, c, c', {d});
  }

  lemma ShapeKept(z: Start, c: Now, c': Now, d: Ref)
    requires Inv(z, c) && Inv(z, c') && Grows(z, c, c', {d}) && d in c.org
    ensures d in c.mem && d in c'.mem && SameShape(c.mem[d], c'.mem[d])
  {
    hide FromKept, ForwardingSound, BytesConserved, Tiles, CopyOf;
    StillSameShape(z, c, c', d);
  }

  // ---- the remembered set of the next cycle -----------------------------------

  /** Outside `but`, exactly the old objects that hold a to-space pointer are listed. */
  ghost predicate RememberedExact(z: Start, c: Now, rem: seq<Ref>, but: set<Ref>) {
    && NoDuplicates(rem)
    && (forall d :: d in rem ==> d in c.org && d.arena == Old && d !in but)
    && (forall d :: d in c.org && d in c.mem && d.arena == Old && d !in but ==>
          (d in rem <==> Holds(c.mem[d], Other(z.from))))
  }

  lemma FreshHoldsNoToSpace(z: Start, c: Now, d: Ref)
    requires GoodStart(z) && Inv(z, c) && d in c.org && Fresh(c, d)
    ensures d in c.mem && !Holds(c.mem[d], Other(z.from))
  {
    hide Tiles, LiveClosed, BytesConserved;
    assert CopyOf(z, c, d);
    assert PointsInto(z.mem[c.org[d]], z.mem);
  }

  lemma RememberedGrows(z: Start, c: Now, c': Now, rem: seq<Ref>, but: set<Ref>)
    requires GoodStart(z) && Inv(z, c) && Inv(z, c')
    requires Grows(z, c, c', but) && RememberedExact(z, c, rem, but)
    requires forall d :: d in but ==> d in c.org
    ensures RememberedExact(z, c', rem, but)
  {
    hide GoodStart, CopyOf, BytesConserved, Tiles;
    CopiesInDomain(z, c);
    forall d | d in c'.org && d in c'.mem && d.arena == Old && d !in but
      ensures d in rem <==> Holds(c'.mem[d], Other(z.from))
    {
      if d !in c.org {
        FreshHoldsNoToSpace(z, c', d);
      }
    }
  }

  /** Tracing a to-space object does not touch what old objects hold. */
  lemma RememberedTraced(z: Start, c: Now, c': Now, rem: seq<Ref>, d: Ref)
    requires GoodStart(z) && Inv(z, c) && Inv(z, c') && Grows(z, c, c', {d}) && RememberedExact(z, c, rem, {})
    requires d in c.org && d.arena != Old
    ensures RememberedExact(z, c', rem, {})
  {
    assert RememberedExact(z, c, rem, {d});
    RememberedGrows(z, c, c', rem, {d});
  }

  lemma RememberedForget(z: Start, c: Now, rem: seq<Ref>, h: Ref)
    requires RememberedExact(z, c, rem, {}) && h in c.org && h in c.mem && h.arena == Old
    requires !Holds(c.mem[h], Other(z.from))
    ensures RememberedExact(z, c, rem, {h})
  {
  }

  lemma RememberedRestore(z: Start, c: Now, rem: seq<Ref>, h: Ref, young: bool)
    requires RememberedExact(z, c, rem, {h}) && h in c.org && h in c.mem && h.arena == Old
    requires young <==> Holds(c.mem[h], Other(z.from))
    ensures RememberedExact(z, c, if young then rem + [h] else rem, {})
  {
    forall d | d in rem + [h] ensures d in rem || d == h {}
    assert h in rem + [h];
    forall d | d in rem ensures d in rem + [h] {}
  }

  /** With to-space empty, a traced object points at nothing there. */
  lemma DoneHoldsNone(z: Start, c: Now, h: Ref)
    requires GoodStart(z) && Inv(z, c) && c.toTop == 0
    requires h in c.org && Done(c, h)
    ensures h in c.mem && !Holds(c.mem[h], Other(z.from))
  {
    assert CopyOf(z, c, h) && PointsInto(z.mem[c.org[h]], z.mem);
    hide Extent;
    forall i | 0 <= i < |c.mem[h].slots| && c.mem[h].slots[i].Ptr? ensures c.mem[h].slots[i].ref.arena != Other(z.from) {
      var p := c.mem[h].slots[i].ref;
      assert p in c.mem && (p.arena == Other(z.from) ==> FitsRun(c.mem, p, 0));
    }
  }

  /** A traced object that holds nothing in to-space points only at old objects. */
  lemma DonePointsToOld(z: Start, c: Now, h: Ref)
    requires GoodStart(z) && Inv(z, c)
    requires h in c.org && h in c.mem && Done(c, h) && !Holds(c.mem[h], Other(z.from))
    ensures forall i :: 0 <= i < |c.mem[h].slots| && c.mem[h].slots[i].Ptr? ==>
              c.mem[h].slots[i].ref in c.mem && c.mem[h].slots[i].ref.arena == Old
  {
    hide Tiles, Extent, BytesConserved, LiveClosed;
    assert CopyOf(z, c, h) && PointsInto(z.mem[c.org[h]], z.mem);
  }

  lemma NotYetRemembered(z: Start, c: Now, h: Ref)
    requires GoodStart(z) && Inv(z, c) && h in c.org && h in c.mem
    requires Fresh(c, h) || !Holds(c.mem[h], Other(z.from))
    ensures !Holds(c.mem[h], Other(z.from))
  {
    if Fresh(c, h) { FreshHoldsNoToSpace(z, c, h); }
  }

  /** Where an object was evacuated to lies inside the space it is in. */
  lemma ForwardedRef(z: Start, c: Now, o: Ref)
    requires GoodStart(z) && Inv(z, c)
    requires o in c.mem && o.arena == z.from && c.mem[o].fwd.Some?
    ensures var n := c.mem[o].fwd.value;
            n in c.mem && n.arena != z.from && (n.arena == Other(z.from) ==> n.off < z.semi)
  {
    hide Extent, Closed, LiveClosed, CopyOf;
    var n := c.mem[o].fwd.value;
    assert n in c.org;
    assert n.arena == Other(z.from) ==> FitsRun(c.mem, n, c.toTop);
  }

  lemma HoldsOneMore(a: Object, b: Object, i: nat, arena: Arena)
    requires i < |a.slots| == |b.slots| && a.slots[..i] == b.slots[..i]
    ensures HoldsBelow(b, i + 1, arena) <==>
              HoldsBelow(a, i, arena) || (b.slots[i].Ptr? && b.slots[i].ref.arena == arena)
  {
    forall j | 0 <= j < i ensures a.slots[j] == b.slots[j] {
      assert a.slots[j] == a.slots[..i][j] && b.slots[j] == b.slots[..i][j];
    }
  }

  lemma HoldsAll(o: Object, arena: Arena)
    ensures Holds(o, arena) <==> HoldsBelow(o, |o.slots|, arena)
  {
  }

  // ---- phase 1: force-promoting the remembered children ------------------------

  /** The young objects that the remembered holders point at. */
  ghost function Kids(z: Start, holders: seq<Ref>): set<Ref> {
    set r | r in z.mem && r.arena == z.from
      && exists h, i :: h in holders && h in z.mem && 0 <= i < |z.mem[h].slots| && z.mem[h].slots[i] == Ptr(r)
  }

  ghost function KidsOf(z: Start, h: Ref): set<Ref>
    requires h in z.mem
  {
    set i | 0 <= i < |z.mem[h].slots| && z.mem[h].slots[i].Ptr? && z.mem[h].slots[i].ref.arena == z.from
      :: z.mem[h].slots[i].ref
  }

  lemma KidReady(z: Start, h: Ref, i: nat)
    requires h in z.mem && i < |z.mem[h].slots|
    ensures z.mem[h].slots[i].Ptr? && z.mem[h].slots[i].ref.arena == z.from ==> z.mem[h].slots[i].ref in KidsOf(z, h)
  {
  }

  /** The old arena has room for all of them. */
  ghost predicate KidsFit(z: Start, kids: set<Ref>) {
    kids <= z.mem.Keys && z.oldTop + TotalExtent(z.mem, kids) <= z.oldSize
  }

  /** While they fit, phase 1 copies only them and leaves to-space empty. */
  ghost predicate Phase1(z: Start, c: Now, kids: set<Ref>) {
    && kids <= FromObjects(z) && KidsFit(z, kids)
    && c.toTop == 0
    && FromObjects(z) - Pending(z, c) <= kids
  }

  /** The state after slot `i` of holder `h` was rewritten to `t`; a holder traced
      `again` has nothing left to count. */
  ghost function Rewritten(c: Now, h: Ref, i: nat, t: Slot, again: bool): Now
    requires h in c.mem && i < |c.mem[h].slots|
  {
    c.(mem := c.mem[h := c.mem[h].(slots := c.mem[h].slots[i := t])],
       prog := if again then c.prog else c.prog[h := i + 1])
  }

  lemma RewriteAgain(c: Now, h: Ref, i: nat)
    requires h in c.mem && i < |c.mem[h].slots|
    ensures Rewritten(c, h, i, c.mem[h].slots[i], true) == c
  {
    StoreSame(c.mem, h, i);
  }

  lemma RewriteChild(z: Start, c: Now, c1: Now, h: Ref, i: nat, t: Slot, fits: bool, kids: set<Ref>)
    requires GoodStart(z) && Inv(z, c1) && Grows(z, c, c1, {})
    requires h in c.org && h in c.mem && h in c.prog && i == c.prog[h] < |c.mem[h].slots|
    requires Forwarded(z, c1.mem, c.mem[h].slots[i], t)
    requires fits ==> Phase1(z, c1, kids)
    ensures h in c1.org && c1.org[h] == c.org[h] && h in c1.mem && c1.mem[h] == c.mem[h]
    ensures var c2 := Rewritten(c1, h, i, t, false);
            && Inv(z, c2) && Grows(z, c, c2, {h}) && (fits ==> Phase1(z, c2, kids))
  {
    hide Inv, GoodStart, Grows, Pending, KidsFit, FromObjects, Forwarded;
    AdvanceStep(z, c, c1, h, t);
    assert Rewritten(c1, h, i, t, false) == Stored(c1, h, t);
  }

  lemma ChildFromOldReady(z: Start, c: Now, h: Ref, i: nat, again: bool)
    requires GoodStart(z) && Inv(z, c)
    requires h in c.org && c.org[h] in z.live && h in c.mem && h in c.prog && i < |c.mem[h].slots|
    requires if again then Done(c, h) && !Holds(c.mem[h], Other(z.from)) else c.prog[h] == i
    ensures z.from != Old && h.arena != z.from && Grows(z, c, c, {h}) && Grows(z, c, c, {})
    ensures c.mem[h].slots[i].Ptr? ==>
              var p := c.mem[h].slots[i].ref;
              && p in c.mem && (p.arena == Old || (!again && p.arena == z.from && p in z.live && p in z.mem))
              && (p.arena == z.from && c.org[h] in z.mem ==> p in KidsOf(z, c.org[h]))
    ensures !c.mem[h].slots[i].Ptr? ==> Forwarded(z, c.mem, c.mem[h].slots[i], c.mem[h].slots[i])
  {
    assert z.from != Old;
    hide Inv, GoodStart, Grows, KidsOf, Holds;
    SlotReady(z, c, h);
    if again { DonePointsToOld(z, c, h); } else { KidReady(z, c.org[h], i); }
  }

  lemma KidsLive(z: Start, y: Start, rem: seq<Ref>)
    requires y == z.(live := y.live)
    ensures Kids(y, rem) == Kids(z, rem) && (KidsFit(y, Kids(y, rem)) <==> KidsFit(z, Kids(z, rem)))
  {
  }

  lemma {:induction false} TotalExtentDisjoint(m: Mem, s: set<Ref>, t: set<Ref>)
    requires s + t <= m.Keys && s !! t
    ensures TotalExtent(m, s + t) == TotalExtent(m, s) + TotalExtent(m, t)
    decreases s
  {
    if s == {} {
      assert s + t == t;
    } else {
      var x :| x in s;
      TotalExtentRemove(m, s, x);
      TotalExtentRemove(m, s + t, x);
      assert s + t - {x} == (s - {x}) + t;
      TotalExtentDisjoint(m, s - {x}, t);
    }
  }

  /** The bytes copied so far are those of the objects no longer pending. */
  lemma CopiedBytes(z: Start, c: Now)
    requires GoodStart(z) && Inv(z, c)
    ensures FromObjects(z) <= z.mem.Keys && Pending(z, c) <= FromObjects(z)
    ensures TotalExtent(z.mem, FromObjects(z) - Pending(z, c)) == c.toTop + (c.oldTop - z.oldTop)
  {
    hide Extent, Closed, LiveClosed, Copies, ForwardingSound, TotalExtent;
    var done, pending := FromObjects(z) - Pending(z, c), Pending(z, c);
    assert done + pending == FromObjects(z);
    assert FromObjects(z) == Below(z.mem, z.from, z.top) by {
      forall r | r in z.mem && r.arena == z.from ensures r.off < z.top {
        assert FitsRun(z.mem, r, z.top);
      }
    }
    RunExtent(z.mem, z.from, z.top, z.top);
    TotalExtentDisjoint(z.mem, done, pending);
  }

  lemma Phase1Room(z: Start, c: Now, kids: set<Ref>, r: Ref)
    requires GoodStart(z) && Inv(z, c) && Phase1(z, c, kids)
    requires r in kids && r in c.mem && c.mem[r].fwd.None?
    ensures c.oldTop + Extent(c.mem[r]) <= z.oldSize
  {
    hide Extent, GoodStart, Copies, ForwardingSound, Tiles, TotalExtent;
    CopiedBytes(z, c);
    var done := FromObjects(z) - Pending(z, c);
    SameExtent(c.mem[r], z.mem[r]);
    assert done + {r} - {r} == done;
    TotalExtentRemove(z.mem, done + {r}, r);
    TotalExtentSubset(z.mem, done + {r}, kids);
  }

  /** If phase 1 forwarded every remembered child without spilling, they did fit. */
  lemma NoSpillMeansFit(z: Start, c: Now, kids: set<Ref>)
    requires GoodStart(z) && Inv(z, c) && c.toTop == 0
    requires kids <= FromObjects(z) && kids !! Pending(z, c)
    ensures KidsFit(z, kids)
  {
    hide Extent, GoodStart, Copies, ForwardingSound, Tiles, TotalExtent;
    CopiedBytes(z, c);
    TotalExtentSubset(z.mem, kids, FromObjects(z) - Pending(z, c));
  }

  /** With room in the old arena for everything young, the holders' children fit, however
      often a holder is listed. */
  lemma RoomyKidsFit(z: Start, holders: seq<Ref>)
    requires GoodHeap(z.mem, z.from, z.top, z.oldTop, z.semi, z.oldSize) && z.top + z.oldTop <= z.oldSize
    ensures KidsFit(z, Kids(z, holders))
  {
    hide Extent, Closed, TotalExtent;
    assert FromObjects(z) == Below(z.mem, z.from, z.top) by {
      forall r | r in z.mem && r.arena == z.from ensures r.off < z.top {
        assert FitsRun(z.mem, r, z.top);
      }
    }
    RunExtent(z.mem, z.from, z.top, z.top);
    TotalExtentSubset(z.mem, Kids(z, holders), FromObjects(z));
  }

  /** Phase 1 before its step `j`: what is off the rest of the list is traced. */
  ghost predicate Remaining(z: Start, c: Now, rem: seq<Ref>, j: nat) {
    && j <= |rem|
    && (forall d {:trigger HolderState(z, c, rem, j, d)} :: d in c.org ==> HolderState(z, c, rem, j, d))
    && (forall i :: j <= i < |rem| && rem[i] !in rem[..j] ==> Fresh(c, rem[i]))
  }

  ghost predicate HolderState(z: Start, c: Now, rem: seq<Ref>, j: nat, d: Ref)
    requires j <= |rem|
  {
    if Prior(z, d) then Done(c, d) || (Fresh(c, d) && d in rem[j..]) else Fresh(c, d)
  }

  /** The remembered set holds old objects, among them all that hold a young pointer. */
  ghost predicate GoodHolders(z: Start, rem: seq<Ref>) {
    && (forall h :: h in rem ==> h in z.mem && h.arena == Old && h in z.live)
    && (forall r :: r in z.mem && r.arena == Old && Holds(z.mem[r], z.from) ==> r in rem)
  }

  ghost function Elements(rem: seq<Ref>): set<Ref> {
    set h | h in rem
  }

  lemma RemainingInitial(z: Start, rem: seq<Ref>)
    requires GoodStart(z) && GoodHolders(z, rem)
    ensures Remaining(z, Initial(z, Elements(rem)), rem, 0)
    ensures RememberedExact(z, Initial(z, Elements(rem)), [], {})
  {
    hide Extent, LiveClosed, Tiles;
    var c := Initial(z, Elements(rem));
    assert rem[0..] == rem;
    forall d | d in c.org ensures Prior(z, d) && !Holds(c.mem[d], Other(z.from)) {
      InitialPrior(z, d);
    }
  }

  lemma InitialPrior(z: Start, d: Ref)
    requires GoodStart(z) && d in z.mem && d.arena == Old
    ensures Prior(z, d) && !Holds(z.mem[d], Other(z.from))
  {
    hide Extent, LiveClosed;
    assert FitsRun(z.mem, d, z.oldTop) && PointsInto(z.mem[d], z.mem);
  }

  lemma RemainingStep(z: Start, c: Now, c': Now, rem: seq<Ref>, j: nat)
    requires j < |rem| && Remaining(z, c, rem, j) && rem[j] in c.org && Prior(z, rem[j])
    requires Grows(z, c, c', {rem[j]}) && Done(c', rem[j])
    requires forall d :: d in c'.org && d !in c.org ==> !Prior(z, d)
    requires forall h :: h in rem ==> h in c.org
    ensures Remaining(z, c', rem, j + 1)
  {
    forall d | d in c'.org ensures HolderState(z, c', rem, j + 1, d) {
      assert d in c.org ==> HolderState(z, c, rem, j, d);
      assert rem[j..] == [rem[j]] + rem[j + 1..];
    }
    assert rem[..j + 1] == rem[..j] + [rem[j]];
    forall i | j + 1 <= i < |rem| && rem[i] !in rem[..j + 1] ensures Fresh(c', rem[i]) {
      assert rem[i] in rem && Fresh(c, rem[i]);
    }
  }

  lemma NewIsNotPrior(z: Start, c: Now, c': Now, traced: set<Ref>)
    requires GoodStart(z) && Inv(z, c) && Grows(z, c, c', traced)
    ensures forall d :: d in c'.org && d !in c.org ==> !Prior(z, d)
  {
  }

  lemma RemainingDone(z: Start, c: Now, rem: seq<Ref>)
    requires GoodStart(z) && Inv(z, c) && Remaining(z, c, rem, |rem|)
    ensures Scanned(z, c, 0, z.oldTop)
  {
    hide Extent, CopyOf, ForwardingSound, BytesConserved, FromKept, Closed, LiveClosed;
    forall d | d in c.org ensures ScanState(c, 0, z.oldTop, d) {
      assert HolderState(z, c, rem, |rem|, d);
    }
    OldTopIsBoundary(z, c);
  }

  lemma OldTopIsBoundary(z: Start, c: Now)
    requires GoodStart(z) && Inv(z, c)
    ensures Boundary(c.mem, Old, c.oldTop, z.oldTop) && z.oldTop <= c.oldTop
  {
    hide Extent, ForwardingSound, FromKept, LiveClosed;
    assert RunKept(z.mem, c.mem, Old) by {
      forall r: Ref | r in z.mem && r.arena == Old ensures r in c.mem && Extent(c.mem[r]) == Extent(z.mem[r]) {
        assert CopyOf(z, c, r);
        SameExtent(z.mem[r], c.mem[r]);
      }
    }
    BoundaryGrows(z.mem, c.mem, Old, z.oldTop, c.oldTop, z.oldTop);
  }

  /** Once every holder is traced, all their young children were forwarded. */
  lemma KidsForwarded(z: Start, c: Now, rem: seq<Ref>)
    requires GoodStart(z) && Inv(z, c) && GoodHolders(z, rem)
    requires forall h :: h in rem ==> Done(c, h)
    ensures Kids(z, rem) <= FromObjects(z) && Kids(z, rem) !! Pending(z, c)
  {
    hide Extent, Tiles, BytesConserved, LiveClosed;
    forall r | r in Kids(z, rem) ensures r !in Pending(z, c) {
      var h, i :| h in rem && h in z.mem && 0 <= i < |z.mem[h].slots| && z.mem[h].slots[i] == Ptr(r);
      assert CopyOf(z, c, h) && Prior(z, h);
      assert Forwarded(z, c.mem, z.mem[h].slots[i], c.mem[h].slots[i]);
    }
  }

  lemma Phase1Initial(z: Start, rem: seq<Ref>, kids: set<Ref>, fits: bool)
    requires GoodStart(z) && GoodHolders(z, rem) && kids == Kids(z, rem) && (fits ==> KidsFit(z, kids))
    ensures fits ==> Phase1(z, Initial(z, Elements(rem)), kids)
    ensures Initial(z, Elements(rem)).toTop == 0
    ensures var c := Initial(z, Elements(rem));
            forall h :: h in rem ==> h in c.org && c.org[h] == h && Prior(z, h)
  {
    hide Extent, LiveClosed, Closed, KidsFit;
    forall h | h in rem ensures Prior(z, h) {
      assert FitsRun(z.mem, h, z.oldTop);
    }
    assert FromObjects(z) - Pending(z, Initial(z, Elements(rem))) == {};
  }

  lemma Phase1Holder(z: Start, c: Now, rem: seq<Ref>, j: nat, kids: set<Ref>)
    requires GoodStart(z) && GoodHolders(z, rem) && kids == Kids(z, rem)
    requires j < |rem| && Remaining(z, c, rem, j) && rem[j] in c.org && Prior(z, rem[j])
    ensures rem[j] in z.mem && rem[j] in z.live && KidsOf(z, rem[j]) <= kids && rem[j].arena == Old
    ensures Fresh(c, rem[j]) || Done(c, rem[j])
    ensures rem[j] !in rem[..j] ==> Fresh(c, rem[j])
  {
    hide Extent, Tiles, LiveClosed;
    assert HolderState(z, c, rem, j, rem[j]);
    var h := rem[j];
    assert PointsInto(z.mem[h], z.mem);
    forall r | r in KidsOf(z, h) ensures r in kids {
      var i :| 0 <= i < |z.mem[h].slots| && z.mem[h].slots[i].Ptr? && z.mem[h].slots[i].ref == r;
      assert z.mem[h].slots[i] == Ptr(r);
    }
  }

  /** Only a holder met before can hold a spilled child, and only once something was spilled. */
  lemma HolderReady(z: Start, c: Now, rem: seq<Ref>, j: nat)
    requires GoodStart(z) && Inv(z, c) && j < |rem| && rem[j] in c.org
    requires Fresh(c, rem[j]) || Done(c, rem[j])
    requires rem[j] !in rem[..j] ==> Fresh(c, rem[j])
    ensures rem[j] in c.mem && (c.toTop == 0 || rem[j] !in rem[..j] ==> !Holds(c.mem[rem[j]], Other(z.from)))
    ensures NoDuplicates(rem) ==> rem[j] !in rem[..j]
  {
    CopiesInDomain(z, c);
    hide Inv, GoodStart, Done, Holds;
    if Fresh(c, rem[j]) {
      FreshHoldsNoToSpace(z, c, rem[j]);
    } else if c.toTop == 0 {
      DoneHoldsNone(z, c, rem[j]);
    }
  }

  lemma GrowsKeepsOrigins(z: Start, c: Now, c': Now, traced: set<Ref>)
    requires Grows(z, c, c', traced)
    ensures forall d :: d in c.org ==> d in c'.org && c'.org[d] == c.org[d]
  {
  }

  lemma AllKidsForwarded(z: Start, c: Now, rem: seq<Ref>)
    requires GoodStart(z) && Inv(z, c) && GoodHolders(z, rem) && Remaining(z, c, rem, |rem|)
    requires forall h :: h in rem ==> h in c.org && Prior(z, h)
    ensures Kids(z, rem) <= FromObjects(z) && Kids(z, rem) !! Pending(z, c)
  {
    hide GoodStart, Inv, Kids, FromObjects, Pending;
    forall h | h in rem ensures Done(c, h) {
      assert HolderState(z, c, rem, |rem|, h);
    }
    KidsForwarded(z, c, rem);
  }

  // ---- phase 2: roots -----------------------------------------------------------

  /** The first `k` root cells were forwarded, the others not yet. */
  ghost predicate RootsForwarded(z: Start, m: Mem, before: seq<Slot>, now: seq<Slot>, k: nat) {
    && |now| == |before| && k <= |now|
    && (forall i :: 0 <= i < k ==> Forwarded(z, m, before[i], now[i]))
    && (forall i :: k <= i < |now| ==> now[i] == before[i])
  }

  /** Each root leads to a live object of the starting memory. */
  ghost predicate RootsLive(z: Start, roots: seq<Slot>) {
    forall i :: 0 <= i < |roots| && roots[i].Ptr? ==> roots[i].ref in z.mem && roots[i].ref in z.live
  }

  /** Forwarding addresses once set stay set. */
  ghost predicate ForwardsKept(z: Start, m: Mem, m': Mem) {
    forall r :: r in m && r.arena == z.from && m[r].fwd.Some? ==> r in m' && m'[r].fwd == m[r].fwd
  }

  lemma RootsForwardedKept(z: Start, m: Mem, m': Mem, before: seq<Slot>, now: seq<Slot>, k: nat)
    requires RootsForwarded(z, m, before, now, k) && ForwardsKept(z, m, m')
    ensures RootsForwarded(z, m', before, now, k)
  {
    forall i | 0 <= i < k ensures Forwarded(z, m', before[i], now[i]) {
      ForwardedGrows(z, m, m', before[i], now[i]);
    }
  }

  lemma ForwardsKeptReflexive(z: Start, m: Mem)
    ensures ForwardsKept(z, m, m)
  {
  }

  lemma GrowsKeepsForwards(z: Start, m: Mem, c: Now, c': Now, traced: set<Ref>)
    requires Grows(z, c, c', traced) && ForwardsKept(z, m, c.mem)
    ensures ForwardsKept(z, m, c'.mem)
  {
  }

  lemma RootReady(z: Start, c: Now, p: Ref)
    requires GoodStart(z) && Inv(z, c) && p in z.mem
    ensures p in c.mem && (p.arena == Old || p.arena == z.from) && z.from != Old
  {
    hide CopyOf, BytesConserved, Tiles;
    CopiesInDomain(z, c);
  }

  /** Nothing below promotion age was promoted. */
  ghost predicate YoungStay(z: Start, m: Mem) {
    forall r :: r in m && r in z.mem && r.arena == z.from && m[r].fwd.Some? && z.mem[r].age + 1 < PROMOTE_THRESHOLD ==>
      m[r].fwd.value.arena != Old
  }

  lemma StayStep(z: Start, c: Now, o: Ref, n: Ref)
    requires GoodStart(z) && Inv(z, c) && o in c.mem && o.arena == z.from && c.mem[o].fwd.None? && n.arena != z.from
    requires n.arena == Old ==> c.mem[o].age + 1 >= PROMOTE_THRESHOLD
    ensures YoungStay(z, c.mem) ==> YoungStay(z, Evacuated(z, c, o, n).mem)
  {
    hide Extent, CopyOf, BytesConserved, Tiles, Closed, LiveClosed;
  }

  lemma StayInitial(z: Start, holders: set<Ref>)
    requires GoodStart(z)
    ensures YoungStay(z, Initial(z, holders).mem)
  {
    hide Extent, Tiles, Closed, LiveClosed;
  }

  /** A pointer to a young object below promotion age. */
  predicate Newcomer(m: Mem, from: Arena, s: Slot) {
    s.Ptr? && s.ref in m && s.ref.arena == from && m[s.ref].age + 1 < PROMOTE_THRESHOLD
  }

  /** Roots to newcomers lead to young objects. */
  ghost predicate StayYoung(m: Mem, from: Arena, before: seq<Slot>, now: seq<Slot>) {
    |now| == |before| &&
    forall i {:trigger before[i]} :: 0 <= i < |before| && Newcomer(m, from, before[i]) ==> now[i].Ptr? && now[i].ref.arena != Old
  }

  lemma RootsStayYoung(z: Start, m: Mem, before: seq<Slot>, now: seq<Slot>)
    requires RootsForwarded(z, m, before, now, |now|)
    ensures YoungStay(z, m) ==> StayYoung(z.mem, z.from, before, now)
  {
  }

  /** With room in the old arena for everything young, nothing ever spills. */
  lemma RoomyFits(z: Start, c: Now, r: Ref)
    requires GoodStart(z) && Inv(z, c)
    requires r in c.mem && r.arena == z.from && c.mem[r].fwd.None?
    ensures c.oldTop + Extent(c.mem[r]) <= z.top + z.oldTop
  {
    hide Extent, Closed, LiveClosed, Tiles, Copies, ForwardingSound;
    EvacuateBytes(z, c, r, Ref(Old, c.oldTop));
  }

  // ---- phase 3: the two scan frontiers --------------------------------------------

  /** Exactly the objects below the frontiers are traced, the others untouched. */
  ghost predicate Scanned(z: Start, c: Now, yscan: nat, oldScan: nat) {
    ScanBounds(z, c, yscan, oldScan) && ScanStates(c, yscan, oldScan)
  }

  ghost predicate ScanBounds(z: Start, c: Now, yscan: nat, oldScan: nat) {
    && Boundary(c.mem, Other(z.from), c.toTop, yscan) && Boundary(c.mem, Old, c.oldTop, oldScan)
    && z.oldTop <= oldScan
  }

  ghost predicate ScanStates(c: Now, yscan: nat, oldScan: nat) {
    forall d {:trigger ScanState(c, yscan, oldScan, d)} :: d in c.org ==> ScanState(c, yscan, oldScan, d)
  }

  ghost predicate ScanState(c: Now, yscan: nat, oldScan: nat, d: Ref) {
    if d.off < (if d.arena == Old then oldScan else yscan) then Done(c, d) else Fresh(c, d)
  }

  /** A walk position stays one while the run only grows at its end. */
  lemma BoundaryGrows(m: Mem, m': Mem, arena: Arena, top: nat, top': nat, s: nat)
    requires Tiles(m, arena, top) && Tiles(m', arena, top') && Boundary(m, arena, top, s) && top <= top'
    requires RunKept(m, m', arena)
    ensures Boundary(m', arena, top', s)
  {
    hide Extent;
    if s == top && s != 0 {
      var p := LastBelow(m, arena, top, s, 0);
      assert FitsRun(m', Ref(arena, p), top');
    }
  }

  ghost predicate RunKept(m: Mem, m': Mem, arena: Arena) {
    forall r: Ref :: r in m && r.arena == arena ==> r in m' && Extent(m'[r]) == Extent(m[r])
  }

  lemma GrowsKeepsRuns(z: Start, c: Now, c': Now, traced: set<Ref>)
    requires GoodStart(z) && Inv(z, c) && Inv(z, c') && Grows(z, c, c', traced)
    requires forall d :: d in traced && d in c.org && d in c.mem ==> d in c'.mem && SameShape(c.mem[d], c'.mem[d])
    ensures RunKept(c.mem, c'.mem, Old) && RunKept(c.mem, c'.mem, Other(z.from))
  {
    hide CopyOf, BytesConserved, Tiles, FromKept, ForwardingSound, Extent;
    forall r: Ref | r in c.mem && r.arena != z.from ensures r in c'.mem && Extent(c'.mem[r]) == Extent(c.mem[r]) {
      assert r in c.org;
      if r in traced { SameExtent(c.mem[r], c'.mem[r]); }
    }
  }

  lemma ScannedGrows(z: Start, c: Now, c': Now, yscan: nat, oldScan: nat)
    requires GoodStart(z) && Inv(z, c) && Inv(z, c') && Grows(z, c, c', {}) && Scanned(z, c, yscan, oldScan)
    ensures Scanned(z, c', yscan, oldScan)
  {
    GrowsKeepsRuns(z, c, c', {});
    assert c.toTop <= c'.toTop && c.oldTop <= c'.oldTop;
    ScanStatesGrow(z, c, c', yscan, oldScan);
    hide GoodStart, Tiles, Boundary, RunKept, Grows, ScanStates, Copies, FromKept, ForwardingSound, BytesConserved;
    BoundaryGrows(c.mem, c'.mem, Old, c.oldTop, c'.oldTop, oldScan);
    BoundaryGrows(c.mem, c'.mem, Other(z.from), c.toTop, c'.toTop, yscan);
  }

  lemma ScanStatesGrow(z: Start, c: Now, c': Now, yscan: nat, oldScan: nat)
    requires Grows(z, c, c', {}) && ScanStates(c, yscan, oldScan)
    requires yscan <= c.toTop && oldScan <= c.oldTop
    ensures ScanStates(c', yscan, oldScan)
  {
    forall d | d in c'.org ensures ScanState(c', yscan, oldScan, d) {
      assert d in c.org ==> ScanState(c, yscan, oldScan, d);
    }
  }

  /** Tracing the object at a frontier moves that frontier past it. */
  lemma ScannedAdvance(z: Start, c: Now, c': Now, d: Ref, yscan: nat, oldScan: nat, yscan': nat, oldScan': nat)
    requires GoodStart(z) && Inv(z, c) && Inv(z, c') && Scanned(z, c, yscan, oldScan)
    requires Grows(z, c, c', {d}) && Done(c', d) && d in c.mem && SameShape(c.mem[d], c'.mem[d])
    requires if d.arena == Old
             then d.off == oldScan && oldScan' == oldScan + Extent(c'.mem[d]) && yscan' == yscan
             else d == Ref(Other(z.from), yscan) && yscan' == yscan + Extent(c'.mem[d]) && oldScan' == oldScan
    ensures Scanned(z, c', yscan', oldScan')
  {
    hide RunKept, ScanStates, Copies, CopyOf, FromKept, ForwardingSound, BytesConserved, Extent, Closed, LiveClosed;
    InRun(z, c, d);
    InRun(z, c', d);
    hide Tiles;
    GrowsKeepsRuns(z, c, c', {d});
    SameExtent(c.mem[d], c'.mem[d]);
    ScanStatesAdvance(z, c, c', d, TopOf(c, d), yscan, oldScan, yscan', oldScan');
    if d.arena == Old {
      BoundaryGrows(c.mem, c'.mem, Other(z.from), c.toTop, c'.toTop, yscan);
    } else {
      BoundaryGrows(c.mem, c'.mem, Old, c.oldTop, c'.oldTop, oldScan);
    }
  }

  ghost function TopOf(c: Now, d: Ref): nat {
    if d.arena == Old then c.oldTop else c.toTop
  }

  lemma InRun(z: Start, c: Now, d: Ref)
    requires GoodStart(z) && Inv(z, c) && d in c.mem && d.arena != z.from
    ensures FitsRun(c.mem, d, TopOf(c, d))
  {
    hide Extent, Copies, FromKept, ForwardingSound, BytesConserved, Closed, LiveClosed;
  }

  lemma ScanStatesAdvance(z: Start, c: Now, c': Now, d: Ref, top: nat,
                          yscan: nat, oldScan: nat, yscan': nat, oldScan': nat)
    requires Copies(z, c) && Copies(z, c') && Tiles(c.mem, d.arena, top) && d in c.mem && FitsRun(c.mem, d, top)
    requires top == (if d.arena == Old then c.oldTop else c.toTop)
    requires yscan <= c.toTop && oldScan <= c.oldTop && z.from != Old
    requires Grows(z, c, c', {d}) && ScanStates(c, yscan, oldScan) && Done(c', d)
    requires if d.arena == Old
             then d.off == oldScan && oldScan' == oldScan + Extent(c.mem[d]) && yscan' == yscan
             else d == Ref(Other(z.from), yscan) && yscan' == yscan + Extent(c.mem[d]) && oldScan' == oldScan
    ensures ScanStates(c', yscan', oldScan')
  {
    hide CopyOf, Extent;
    forall x | x in c'.org ensures ScanState(c', yscan', oldScan', x) {
      assert x in c.org ==> x in c.mem && ScanState(c, yscan, oldScan, x);
      assert x in c.mem && x.arena == d.arena && d.off < x.off ==> Apart(c.mem, d, x);
    }
  }

  /** The object at a frontier is an untraced copy of a live object. */
  lemma FrontierReady(z: Start, c: Now, yscan: nat, oldScan: nat, d: Ref)
    requires GoodStart(z) && Inv(z, c) && Scanned(z, c, yscan, oldScan)
    requires (d == Ref(Other(z.from), yscan) && yscan < c.toTop) || (d == Ref(Old, oldScan) && oldScan < c.oldTop)
    ensures d in c.mem && d in c.org && c.org[d] in z.live && Fresh(c, d) && z.from != Old
  {
    hide Extent, ForwardingSound, BytesConserved, FromKept, Closed, LiveClosed;
    assert ScanState(c, yscan, oldScan, d) && CopyOf(z, c, d);
  }

  lemma ScanWithin(z: Start, c: Now, yscan: nat, oldScan: nat)
    requires GoodStart(z) && Inv(z, c) && Scanned(z, c, yscan, oldScan)
    ensures yscan <= c.toTop && oldScan <= c.oldTop && yscan + oldScan <= z.top + z.oldTop
  {
  }

  lemma StillSameShape(z: Start, c: Now, c': Now, d: Ref)
    requires Copies(z, c) && Copies(z, c') && d in c.org && d in c'.org && c.org[d] == c'.org[d]
    ensures d in c.mem && d in c'.mem && SameShape(c.mem[d], c'.mem[d])
  {
    assert CopyOf(z, c, d) && CopyOf(z, c', d);
  }

  lemma ScannedIsDrained(z: Start, c: Now)
    requires GoodStart(z) && Inv(z, c) && Scanned(z, c, c.toTop, c.oldTop)
    ensures Drained(z, c)
  {
    hide Extent, ForwardingSound, BytesConserved, FromKept, Closed, LiveClosed, CopyOf;
    CopiesInDomain(z, c);
    forall d | d in c.org ensures Done(c, d) {
      assert ScanState(c, c.toTop, c.oldTop, d);
      InRun(z, c, d);
    }
  }

  // ---- the final state -----------------------------------------------------

  ghost predicate Drained(z: Start, c: Now) {
    forall d :: d in c.org && d in c.mem && d in c.prog ==> c.prog[d] == |c.mem[d].slots|
  }

  /** The renaming a finished cycle performed: old objects stay, young ones move. */
  ghost function Names(z: Start, c: Now): map<Ref, Ref> {
    map r | r in z.mem && r in c.mem && (r.arena == z.from ==> c.mem[r].fwd.Some?)
      :: if r.arena == z.from then c.mem[r].fwd.value else r
  }

  /** The memory the mutator sees afterwards: from-space is gone. */
  function Survivors(from: Arena, m: Mem): Mem {
    map r | r in m && r.arena != from :: m[r]
  }

  lemma ForwardedIsRenamed(z: Start, c: Now, s: Slot, t: Slot)
    requires GoodStart(z) && Inv(z, c)
    requires s.Ptr? ==> s.ref in z.mem
    requires Forwarded(z, c.mem, s, t)
    ensures Graph.SlotRenamed(s, t, Names(z, c))
  {
  }

  /** A drained cycle renamed the whole graph it kept, and nothing it kept dangles. */
  lemma DrainedIsRenaming(z: Start, c: Now)
    requires GoodStart(z) && Inv(z, c) && Drained(z, c)
    ensures Graph.Renaming(z.mem, Survivors(z.from, c.mem), Names(z, c))
    ensures Closed(Survivors(z.from, c.mem))
    ensures forall r :: r in Survivors(z.from, c.mem) ==>
              CleanHeader(c.mem[r]) && (r.arena == Old || r.arena == Other(z.from))
  {
    var names, m' := Names(z, c), Survivors(z.from, c.mem);
    forall d | d in c.org
      ensures d in c.mem && c.org[d] in z.mem
      ensures Graph.ObjectRenamed(z.mem[c.org[d]], c.mem[d], names) && PointsInto(c.mem[d], m')
    {
      assert CopyOf(z, c, d);
      assert PointsInto(z.mem[c.org[d]], z.mem);
      forall i | 0 <= i < |c.mem[d].slots|
        ensures Graph.SlotRenamed(z.mem[c.org[d]].slots[i], c.mem[d].slots[i], names)
        ensures c.mem[d].slots[i].Ptr? ==> c.mem[d].slots[i].ref in m'
      {
        ForwardedIsRenamed(z, c, z.mem[c.org[d]].slots[i], c.mem[d].slots[i]);
      }
    }
    forall r | r in names ensures names[r] in c.org && c.org[names[r]] == r {
      assert r.arena == Old ==> CopyOf(z, c, r);
    }
    forall r | r in m' ensures CleanHeader(c.mem[r]) && (r.arena == Old || r.arena == Other(z.from)) {
      assert CopyOf(z, c, r);
    }
  }

  /** Nothing unreachable is kept: each surviving young object is a copy of one in `live`. */
  lemma OnlyLiveKept(z: Start, c: Now, r: Ref)
    requires GoodStart(z) && Inv(z, c) && r in Names(z, c) && r.arena == z.from
    ensures r in z.live
  {
    assert CopyOf(z, c, c.mem[r].fwd.value);
  }

  /** Nothing else is left: whatever the mutator sees afterwards was there before. */
  lemma NothingElse(z: Start, c: Now, x: Ref)
    requires GoodStart(z) && Inv(z, c) && x in Survivors(z.from, c.mem)
    ensures exists r :: r in Names(z, c) && Names(z, c)[r] == x
  {
    assert CopyOf(z, c, x);
    assert c.org[x] in Names(z, c) && Names(z, c)[c.org[x]] == x;
  }

  lemma RootsForwardedRenamed(z: Start, c: Now, before: seq<Slot>, now: seq<Slot>)
    requires GoodStart(z) && Inv(z, c) && RootsLive(z, before) && RootsForwarded(z, c.mem, before, now, |now|)
    ensures Graph.RootsRenamed(before, now, Names(z, c))
    ensures RootsInto(now, Survivors(z.from, c.mem))
  {
    hide Extent, Closed, LiveClosed, BytesConserved, Tiles, CopyOf;
    forall i | 0 <= i < |now| ensures Graph.SlotRenamed(before[i], now[i], Names(z, c)) {
      ForwardedIsRenamed(z, c, before[i], now[i]);
    }
  }

  lemma FinishedHeap(z: Start, c: Now)
    requires GoodStart(z) && Inv(z, c) && Drained(z, c)
    ensures GoodHeap(Survivors(z.from, c.mem), Other(z.from), c.toTop, c.oldTop, z.semi, z.oldSize)
    ensures c.toTop <= z.top && c.toTop + c.oldTop <= z.top + z.oldTop
  {
    DrainedIsRenaming(z, c);
    var m' := Survivors(z.from, c.mem);
    assert z.from != Old && Tiles(c.mem, Other(z.from), c.toTop) && Tiles(c.mem, Old, c.oldTop);
    assert z.oldTop <= c.oldTop && c.toTop + (c.oldTop - z.oldTop) <= z.top;
    hide GoodStart, Inv, Closed, Tiles, Drained, Extent;
    SameRunTiles(c.mem, m', Other(z.from), c.toTop);
    SameRunTiles(c.mem, m', Old, c.oldTop);
  }

  /** What is kept is exactly the old arena and the live young objects. */
  lemma KeptExactly(z: Start, c: Now, roots: seq<Slot>, now: seq<Slot>, r: Ref)
    requires GoodStart(z) && Inv(z, c) && Drained(z, c)
    requires z.live == Graph.LiveSet(z.mem, roots) && Graph.RootsRenamed(roots, now, Names(z, c))
    requires r in z.mem
    ensures r in Names(z, c) <==> r.arena == Old || Graph.Reachable(z.mem, roots, r)
    ensures r.arena == Old ==> r in Names(z, c) && Names(z, c)[r] == r
  {
    hide Extent, Tiles, BytesConserved, Closed, LiveClosed, ForwardingSound, FromKept, CopyOf, Drained;
    CopiesInDomain(z, c);
    if r in Names(z, c) && r.arena != Old {
      OnlyLiveKept(z, c, r);
    }
    if Graph.Reachable(z.mem, roots, r) {
      DrainedIsRenaming(z, c);
      Graph.ReachableIsRenamed(z.mem, roots, Survivors(z.from, c.mem), now, Names(z, c), r);
    }
  }

  lemma LiveSetIsLive(z: Start, roots: seq<Slot>)
    requires Closed(z.mem) && RootsInto(roots, z.mem) && z.live == Graph.LiveSet(z.mem, roots)
    ensures LiveClosed(z) && RootsLive(z, roots)
  {
    forall r | r in z.live && r in z.mem ensures PointsToLive(z, z.mem[r]) {
      assert PointsInto(z.mem[r], z.mem);
      forall i | 0 <= i < |z.mem[r].slots| && z.mem[r].slots[i].Ptr? ensures z.mem[r].slots[i].ref in z.live {
        Graph.ReachableChild(z.mem, roots, r, i);
      }
    }
    forall i | 0 <= i < |roots| && roots[i].Ptr? ensures roots[i].ref in z.live {
      Graph.ReachableRoot(z.mem, roots, i);
    }
  }

  /** After the flip, exactly the old objects holding a young pointer are remembered. */
  lemma RememberedAfter(z: Start, c: Now, rem: seq<Ref>)
    requires GoodStart(z) && Inv(z, c) && RememberedExact(z, c, rem, {})
    ensures var m' := Survivors(z.from, c.mem);
            && NoDuplicates(rem)
            && (forall h :: h in rem ==> h in m' && h.arena == Old)
            && (forall r :: r in m' && r.arena == Old ==> (r in rem <==> Holds(m'[r], Other(z.from))))
  {
    hide Extent, Tiles, BytesConserved, Closed, LiveClosed, ForwardingSound, FromKept, CopyOf;
    CopiesInDomain(z, c);
  }

  /** The roots a cycle keeps alive: handles, root cells, remembered holders. */
  function Seeds(handles: seq<Slot>, cells: seq<Slot>, rem: seq<Ref>): seq<Slot> {
    handles + cells + Graph.Pointers(rem)
  }

  lemma StartReady(z: Start, handles: seq<Slot>, cells: seq<Slot>, rem: seq<Ref>)
    requires GoodHeap(z.mem, z.from, z.top, z.oldTop, z.semi, z.oldSize)
    requires RootsInto(handles, z.mem) && RootsInto(cells, z.mem)
    requires forall h :: h in rem ==> h in z.mem && h.arena == Old
    requires forall r :: r in z.mem && r.arena == Old && Holds(z.mem[r], z.from) ==> r in rem
    requires z.live == Graph.LiveSet(z.mem, Seeds(handles, cells, rem))
    ensures GoodStart(z) && GoodHolders(z, rem) && RootsLive(z, handles) && RootsLive(z, cells)
  {
    hide Extent, Tiles, Closed, LiveClosed;
    var seeds := Seeds(handles, cells, rem);
    LiveSetIsLive(z, seeds);
    forall h | h in rem ensures h in z.live {
      var i :| 0 <= i < |rem| && rem[i] == h;
      assert seeds[|handles| + |cells| + i] == Ptr(h);
    }
    forall i | 0 <= i < |handles| && handles[i].Ptr? ensures handles[i].ref in z.live {
      assert seeds[i] == handles[i];
    }
    forall i | 0 <= i < |cells| && cells[i].Ptr? ensures cells[i].ref in z.live {
      assert seeds[|handles| + i] == cells[i];
    }
  }

  lemma SeedsRenamed(names: map<Ref, Ref>, h0: seq<Slot>, h1: seq<Slot>, c0: seq<Slot>, c1: seq<Slot>, rem: seq<Ref>)
    requires Graph.RootsRenamed(h0, h1, names) && Graph.RootsRenamed(c0, c1, names)
    requires forall h :: h in rem ==> h in names && names[h] == h
    ensures Graph.RootsRenamed(Seeds(h0, c0, rem), Seeds(h1, c1, rem), names)
  {
    var a, b := Seeds(h0, c0, rem), Seeds(h1, c1, rem);
    forall i | 0 <= i < |a| ensures Graph.SlotRenamed(a[i], b[i], names) {
      if |h0| + |c0| <= i {
        assert a[i] == Ptr(rem[i - |h0| - |c0|]) && rem[i - |h0| - |c0|] in rem;
      }
    }
  }

  /** The whole effect of a finished cycle on the graph. */
  lemma Finish(z: Start, c: Now, h0: seq<Slot>, h1: seq<Slot>, c0: seq<Slot>, c1: seq<Slot>, rem: seq<Ref>)
    requires GoodStart(z) && Inv(z, c) && Drained(z, c) && GoodHolders(z, rem)
    requires z.live == Graph.LiveSet(z.mem, Seeds(h0, c0, rem))
    requires RootsLive(z, h0) && RootsForwarded(z, c.mem, h0, h1, |h1|)
    requires RootsLive(z, c0) && RootsForwarded(z, c.mem, c0, c1, |c1|)
    ensures Graph.Renaming(z.mem, Survivors(z.from, c.mem), Names(z, c))
    ensures Graph.RootsRenamed(h0, h1, Names(z, c)) && Graph.RootsRenamed(c0, c1, Names(z, c))
    ensures RootsInto(h1, Survivors(z.from, c.mem)) && RootsInto(c1, Survivors(z.from, c.mem))
    ensures forall r :: r in z.mem ==>
              (r in Names(z, c) <==> r.arena == Old || Graph.Reachable(z.mem, Seeds(h0, c0, rem), r))
    ensures forall r :: r in z.mem && r.arena == Old ==> r in Names(z, c) && Names(z, c)[r] == r
  {
    DrainedIsRenaming(z, c);
    RootsForwardedRenamed(z, c, h0, h1);
    RootsForwardedRenamed(z, c, c0, c1);
    OldStays(z, c);
    hide Inv, GoodStart, Drained, Names, RootsLive, RootsForwarded;
    SeedsRenamed(Names(z, c), h0, h1, c0, c1, rem);
    forall r | r in z.mem
      ensures r in Names(z, c) <==> r.arena == Old || Graph.Reachable(z.mem, Seeds(h0, c0, rem), r)
    {
      KeptExactly(z, c, Seeds(h0, c0, rem), Seeds(h1, c1, rem), r);
    }
  }

  lemma OldStays(z: Start, c: Now)
    requires GoodStart(z) && Inv(z, c)
    ensures forall r :: r in z.mem && r.arena == Old ==> r in Names(z, c) && Names(z, c)[r] == r
  {
    hide Extent, Tiles, BytesConserved, Closed, LiveClosed, ForwardingSound, FromKept, CopyOf;
    CopiesInDomain(z, c);
  }

  /** `n` holds a survivor that was `o`: promoted with age 0, or one cycle older. It
      stays young at promotion age only if it no longer fits the old arena. */
  ghost predicate TenuredAs(o: Object, m: Mem, n: Ref, oldTop: nat, oldSize: nat) {
    && n in m && m[n].age == AgeIn(o, n.arena)
    && (n.arena != Old && o.age + 1 >= PROMOTE_THRESHOLD ==> oldTop + Extent(m[n]) > oldSize)
  }

  lemma TenureAfter(z: Start, c: Now)
    requires GoodStart(z) && Inv(z, c)
    ensures forall r :: r in Names(z, c) && r.arena == z.from ==>
              TenuredAs(z.mem[r], Survivors(z.from, c.mem), Names(z, c)[r], c.oldTop, z.oldSize)
  {
    hide Extent, Tiles, BytesConserved, Closed, LiveClosed, Forwarded;
    forall r | r in Names(z, c) && r.arena == z.from
      ensures TenuredAs(z.mem[r], Survivors(z.from, c.mem), Names(z, c)[r], c.oldTop, z.oldSize)
    {
      assert CopyOf(z, c, Names(z, c)[r]);
    }
  }
}
