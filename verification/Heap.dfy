/** The collector's state and operations, updated in place. */
module HeapModel {
  import opened Objects
  import Graph
  import opened Minor
  import opened Major
  import opened Remembered

  class Heap {
    const semi: nat
    const oldSize: nat
    var mem: Mem
    var from: Arena
    var top: nat
    var toTop: nat
    var oldTop: nat
    var overCap: bool
    var remembered: seq<Ref>
    var rememberedNext: seq<Ref>
    var handles: seq<Slot>   // HandleScope root slots
    var cells: seq<Slot>     // the cells the root enumerator visits, in order
    var markWork: seq<Ref>   // major-mark worklist
    ghost var z: Start
    ghost var org: map<Ref, Ref>
    ghost var prog: map<Ref, nat>

    constructor (maxBytes: nat)
      ensures semi == (if maxBytes > 0 then maxBytes else 1) && oldSize == semi
      ensures Shape() && RememberedInv() && mem == map[] && top == 0 && oldTop == 0 && from == SpaceA
      ensures remembered == [] && handles == [] && cells == [] && !overCap
    {
      semi, oldSize := if maxBytes > 0 then maxBytes else 1, if maxBytes > 0 then maxBytes else 1;
      mem, from, top, toTop, oldTop, overCap := map[], SpaceA, 0, 0, 0, false;
      remembered, rememberedNext, handles, cells, markWork := [], [], [], [], [];
      z, org, prog := Start(map[], SpaceA, 0, 0, 1, 1, {}), map[], map[];
    }

    // ---- minor collection -------------------------------------------------

    ghost function Cur(): Now
      reads this
    {
      Now(mem, toTop, oldTop, org, prog)
    }

    ghost predicate InCycle()
      reads this
    {
      && z.from == from && z.semi == semi && z.oldSize == oldSize
      && GoodStart(z) && Inv(z, Cur())
    }

    /** Everything young would fit the old arena. */
    ghost predicate Roomy()
      reads `z
    {
      z.top + z.oldTop <= z.oldSize
    }

    predicate IsOld(p: Ref)
      reads `oldTop
    {
      p.arena == Old && p.off < oldTop
    }

    predicate IsYoung(p: Ref)
      reads `from
    {
      p.arena == from && p.off < semi
    }

    predicate InToSpace(p: Ref)
      reads `from
    {
      p.arena == Other(from) && p.off < semi
    }

    /** Evacuates `o` by age, or returns where it already is. The source's last
        fallback, giving up with over_cap_ set, is unreachable. */
    method Copy(o: Ref) returns (n: Ref)
      requires InCycle()
      requires o in mem && (o.arena == Old || (o.arena == from && o in z.live))
      modifies `mem, `toTop, `oldTop, `org, `prog
      ensures InCycle() && Grows(z, old(Cur()), Cur(), {})
      ensures if o.arena == from then o in mem && mem[o].fwd == Some(n) else n == o
      ensures YoungStay(z, old(mem)) ==> YoungStay(z, mem)
    {
      hide Inv, GoodStart, Grows, Extent, YoungStay;
      ghost var c := Cur();
      CopyReady(z, c, o);
      if IsOld(o) {
        return o;
      }
      if mem[o].fwd.Some? {
        return mem[o].fwd.value;
      }
      var obj := mem[o];
      var a := Extent(obj);
      if obj.age + 1 >= PROMOTE_THRESHOLD && oldTop + a <= oldSize {
        n := Ref(Old, oldTop);
        oldTop := oldTop + a;
        mem := mem[n := obj.(age := 0)];
        SameExtent(obj, obj.(age := 0));
        EvacuateStep(z, c, o, n);
        StayStep(z, c, o, n);
      } else {
        ToSpaceFits(z, c, o);
        if toTop + a <= semi {
          n := Ref(Other(from), toTop);
          toTop := toTop + a;
          var age := if obj.age < 255 then obj.age + 1 else 255;
          mem := mem[n := obj.(age := age)];
          SameExtent(obj, obj.(age := age));
          EvacuateStep(z, c, o, n);
          StayStep(z, c, o, n);
        } else {
          assert false;
        }
      }
      mem := mem[o := obj.(fwd := Some(n))];
      org, prog := org[n := o], prog[n := 0];
    }

    /** Evacuates `o` into the old arena; if that is full, sets the over-cap flag and
        falls back on `Copy`. While phase 1 runs with room for `kids`, it never does. */
    method CopyPromote(o: Ref, ghost fits: bool, ghost kids: set<Ref>) returns (n: Ref)
      requires InCycle()
      requires o in mem && (o.arena == Old || (o.arena == from && o in z.live))
      requires fits ==> Phase1(z, Cur(), kids) && (o.arena == from ==> o in kids)
      modifies `mem, `toTop, `oldTop, `overCap, `org, `prog
      ensures InCycle() && Grows(z, old(Cur()), Cur(), {})
      ensures if o.arena == from then o in mem && mem[o].fwd == Some(n) else n == o
      ensures fits ==> Phase1(z, Cur(), kids) && overCap == old(overCap)
      ensures old(overCap) ==> overCap
      ensures !overCap ==> toTop == old(toTop)
      ensures o.arena == Old ==> Cur() == old(Cur()) && overCap == old(overCap)
      ensures Roomy() ==> overCap == old(overCap)
    {
      hide Inv, GoodStart, Grows, Extent, KidsFit;
      ghost var c := Cur();
      CopyReady(z, c, o);
      if IsOld(o) {
        return o;
      }
      if mem[o].fwd.Some? {
        return mem[o].fwd.value;
      }
      var obj := mem[o];
      var a := Extent(obj);
      if fits { Phase1Room(z, c, kids, o); }
      RoomyFits(z, c, o);
      if oldTop + a > oldSize {
        overCap := true;
        n := Copy(o);
        return n;
      }
      n := Ref(Old, oldTop);
      oldTop := oldTop + a;
      mem := mem[n := obj.(age := 0)];
      SameExtent(obj, obj.(age := 0));
      EvacuateStep(z, c, o, n);
      mem := mem[o := obj.(fwd := Some(n))];
      org, prog := org[n := o], prog[n := 0];
    }

    /** One child of the young-frontier tracer. */
    method ForwardChild(d: Ref, i: nat)
      requires InCycle() && d in org && org[d] in z.live && d in mem && d in prog && prog[d] == i < |mem[d].slots|
      modifies `mem, `toTop, `oldTop, `org, `prog
      ensures InCycle() && Grows(z, old(Cur()), Cur(), {d})
      ensures d in org && org[d] == old(org[d])
      ensures d in mem && d in prog && prog[d] == i + 1 && |mem[d].slots| == |old(mem[d].slots)|
    {
      hide Inv, GoodStart, Grows;
      ghost var c := Cur();
      SlotReady(z, c, d);
      var s := mem[d].slots[i];
      if s.Ptr? {
        var n := Copy(s.ref);
        AdvanceStep(z, c, Cur(), d, Ptr(n));
        mem := mem[d := mem[d].(slots := mem[d].slots[i := Ptr(n)])];
      } else {
        AdvanceStep(z, c, c, d, s);
        StoreSame(mem, d, i);
      }
      prog := prog[d := i + 1];
    }

    /** Young-frontier tracer: forwards every child of `d` with `Copy`. */
    method Trace(d: Ref)
      requires InCycle() && d in org && org[d] in z.live && Fresh(Cur(), d)
      modifies `mem, `toTop, `oldTop, `org, `prog
      ensures InCycle() && Grows(z, old(Cur()), Cur(), {d}) && Done(Cur(), d)
      ensures d in old(mem) && SameShape(old(mem[d]), mem[d])
    {
      hide Inv, GoodStart, Grows;
      ghost var e := Cur();
      SlotReady(z, e, d);
      var i := 0;
      while i < |mem[d].slots|
        invariant InCycle() && Grows(z, e, Cur(), {d})
        invariant d in org && org[d] in z.live && d in mem && d in prog && prog[d] == i <= |mem[d].slots|
      {
        ghost var c := Cur();
        ForwardChild(d, i);
        TracedGrows(z, e, c, Cur(), d);
        i := i + 1;
      }
      ShapeKept(z, e, Cur(), d);
    }

    /** One child of the old-frontier tracer; says whether it ended up in to-space.
        A holder traced `again` is left as it is. */
    method ForwardChildFromOld(h: Ref, i: nat, ghost again: bool, ghost fits: bool, ghost kids: set<Ref>)
      returns (young: bool)
      requires InCycle() && h in org && org[h] in z.live && h in mem && h in prog && i < |mem[h].slots|
      requires if again then Done(Cur(), h) && !Holds(mem[h], Other(from)) else prog[h] == i
      requires fits ==> Phase1(z, Cur(), kids) && org[h] in z.mem && KidsOf(z, org[h]) <= kids
      modifies `mem, `toTop, `oldTop, `overCap, `org, `prog
      ensures InCycle() && Grows(z, old(Cur()), Cur(), {h})
      ensures h in org && org[h] == old(org[h])
      ensures h in mem && h in prog && |mem[h].slots| == |old(mem[h].slots)|
      ensures if again then Cur() == old(Cur()) && overCap == old(overCap) else prog[h] == i + 1
      ensures mem[h].slots[..i] == old(mem[h].slots)[..i]
      ensures young <==> mem[h].slots[i].Ptr? && mem[h].slots[i].ref.arena == Other(from)
      ensures fits ==> Phase1(z, Cur(), kids) && overCap == old(overCap)
      ensures old(overCap) ==> overCap
      ensures !overCap ==> toTop == old(toTop)
      ensures Roomy() ==> overCap == old(overCap)
    {
      hide Inv, GoodStart, Grows, Phase1, KidsOf, Done;
      ghost var c := Cur();
      ChildFromOldReady(z, c, h, i, again);
      var s := mem[h].slots[i];
      var t := s;
      if s.Ptr? {
        var n := CopyPromote(s.ref, fits, kids);
        if s.ref.arena == from { ForwardedRef(z, Cur(), s.ref); }
        t := Ptr(n);
      }
      ghost var c1 := Cur();
      assert again ==> t == s;
      if again { RewriteAgain(c, h, i); } else { RewriteChild(z, c, c1, h, i, t, fits, kids); }
      mem := mem[h := mem[h].(slots := mem[h].slots[i := t])];
      young := t.Ptr? && InToSpace(t.ref);
      if !again { prog := prog[h := i + 1]; }
      assert Cur() == Rewritten(c1, h, i, t, again);
    }

    /** Old-frontier tracer: forwards every child of `h` with `CopyPromote` and
        re-remembers `h` exactly if a child stayed young. Tracing a holder a second
        time, as duplicates in the remembered set cause, changes nothing as long as
        nothing was spilled. */
    method TraceFromOld(h: Ref, ghost fits: bool, ghost kids: set<Ref>)
      requires InCycle() && h in org && h.arena == Old && org[h] in z.live
      requires Fresh(Cur(), h) || (Done(Cur(), h) && h in mem && !Holds(mem[h], Other(from)))
      requires fits ==> Phase1(z, Cur(), kids) && org[h] in z.mem && KidsOf(z, org[h]) <= kids
      requires RememberedExact(z, Cur(), rememberedNext, {})
      modifies `mem, `toTop, `oldTop, `overCap, `org, `prog, `rememberedNext
      ensures InCycle() && Grows(z, old(Cur()), Cur(), {h}) && Done(Cur(), h)
      ensures h in old(mem) && SameShape(old(mem[h]), mem[h])
      ensures fits ==> Phase1(z, Cur(), kids) && overCap == old(overCap)
      ensures old(overCap) ==> overCap
      ensures !overCap ==> toTop == old(toTop)
      ensures RememberedExact(z, Cur(), rememberedNext, {})
      ensures Roomy() ==> overCap == old(overCap)
    {
      hide Inv, GoodStart, Grows, RememberedExact, Phase1, Holds;
      ghost var e := Cur();
      ghost var again := !Fresh(e, h);
      SlotReady(z, e, h);
      NotYetRemembered(z, e, h);
      RememberedForget(z, e, rememberedNext, h);
      var youngChild := false;
      var i := 0;
      while i < |mem[h].slots|
        invariant InCycle() && Grows(z, e, Cur(), {h})
        invariant h in org && org[h] == e.org[h] && h in mem && h in prog && i <= |mem[h].slots|
        invariant if again then Cur() == e && overCap == old(overCap) else prog[h] == i
        invariant fits ==> Phase1(z, Cur(), kids) && overCap == old(overCap)
        invariant old(overCap) ==> overCap
        invariant !overCap ==> toTop == old(toTop)
        invariant Roomy() ==> overCap == old(overCap)
        invariant youngChild <==> HoldsBelow(mem[h], i, Other(from))
        invariant rememberedNext == old(rememberedNext)
      {
        ghost var c := Cur();
        var young := ForwardChildFromOld(h, i, again, fits, kids);
        TracedGrows(z, e, c, Cur(), h);
        HoldsOneMore(c.mem[h], mem[h], i, Other(from));
        if young {
          youngChild := true;
        }
        i := i + 1;
      }
      ShapeKept(z, e, Cur(), h);
      RememberedGrows(z, e, Cur(), rememberedNext, {h});
      HoldsAll(mem[h], Other(from));
      RememberedRestore(z, Cur(), rememberedNext, h, youngChild);
      if youngChild {
        rememberedNext := rememberedNext + [h];
      }
    }

    /** One of its slots points at a copy made in this cycle that stayed young. */
    predicate HoldsSpilled(o: Object)
      reads `from
    {
      exists i | 0 <= i < |o.slots| :: o.slots[i].Ptr? && o.slots[i].ref.arena == Other(from)
    }

    /** Phase 1: traces the remembered holders before any root is forwarded. A holder that is
        listed again after a child of it was spilled has that child copied once more; the
        over-cap flag is set by then, and the cycle is given up as `lost`: what it does from
        there on is not modelled. */
    method TraceRemembered(rem: seq<Ref>, ghost fits: bool, ghost kids: set<Ref>) returns (lost: bool)
      requires InCycle() && GoodHolders(z, rem) && Cur() == Initial(z, Elements(rem)) && rememberedNext == []
      requires kids == Kids(z, rem) && (fits <==> KidsFit(z, kids))
      modifies `mem, `toTop, `oldTop, `overCap, `org, `prog, `rememberedNext
      ensures lost ==> overCap && !fits && !NoDuplicates(rem)
      ensures InCycle() && (!lost ==> Scanned(z, Cur(), 0, z.oldTop))
      ensures RememberedExact(z, Cur(), rememberedNext, {})
      ensures fits ==> overCap == old(overCap)
      ensures old(overCap) ==> overCap
      ensures !overCap ==> fits
      ensures Roomy() ==> overCap == old(overCap)
      ensures rem == [] ==> mem == old(mem)
    {
      hide Inv, GoodStart, Grows, RememberedExact, Scanned, KidsFit, Initial, Kids;
      Phase1Initial(z, rem, kids, fits);
      RemainingInitial(z, rem);
      lost := false;
      var j := 0;
      while j < |rem|
        invariant InCycle() && Remaining(z, Cur(), rem, j)
        invariant forall h :: h in rem ==> h in org && org[h] == h && Prior(z, h)
        invariant RememberedExact(z, Cur(), rememberedNext, {})
        invariant if fits then Phase1(z, Cur(), kids) && overCap == old(overCap) else true
        invariant old(overCap) ==> overCap
        invariant !overCap ==> toTop == 0
        invariant Roomy() ==> overCap == old(overCap)
        invariant j == 0 ==> mem == old(mem)
      {
        ghost var c := Cur();
        assert rem[j] in rem;
        Phase1Holder(z, c, rem, j, kids);
        HolderReady(z, c, rem, j);
        if rem[j] in rem[..j] && HoldsSpilled(mem[rem[j]]) {
          lost := true;
          return;
        }
        TraceFromOld(rem[j], fits, kids);
        NewIsNotPrior(z, c, Cur(), {rem[j]});
        GrowsKeepsOrigins(z, c, Cur(), {rem[j]});
        RemainingStep(z, c, Cur(), rem, j);
        j := j + 1;
      }
      RemainingDone(z, Cur(), rem);
      if !overCap {
        AllKidsForwarded(z, Cur(), rem);
        NoSpillMeansFit(z, Cur(), kids);
      }
    }

    /** Phase 2: forwards the handles, then the cells of the root enumerator. */
    method ForwardRoots()
      requires InCycle() && RootsLive(z, handles) && RootsLive(z, cells)
      requires Scanned(z, Cur(), 0, z.oldTop) && RememberedExact(z, Cur(), rememberedNext, {})
      modifies `mem, `toTop, `oldTop, `org, `prog, `handles, `cells
      ensures InCycle() && Scanned(z, Cur(), 0, z.oldTop) && RememberedExact(z, Cur(), rememberedNext, {})
      ensures RootsForwarded(z, mem, old(handles), handles, |handles|)
      ensures RootsForwarded(z, mem, old(cells), cells, |cells|)
      ensures YoungStay(z, old(mem)) ==> StayYoung(z.mem, z.from, old(handles), handles) && StayYoung(z.mem, z.from, old(cells), cells)
    {
      hide Inv, GoodStart, Grows, RememberedExact, Scanned, ForwardsKept, YoungStay, StayYoung;
      var i := 0;
      while i < |handles|
        invariant InCycle() && Scanned(z, Cur(), 0, z.oldTop) && RememberedExact(z, Cur(), rememberedNext, {})
        invariant RootsForwarded(z, mem, old(handles), handles, i)
        invariant cells == old(cells)
        invariant YoungStay(z, old(mem)) ==> YoungStay(z, mem)
      {
        ghost var m := mem;
        var t := ForwardRoot(handles[i]);
        RootsForwardedKept(z, m, mem, old(handles), handles, i);
        handles := handles[i := t];
        i := i + 1;
      }
      i := 0;
      while i < |cells|
        invariant InCycle() && Scanned(z, Cur(), 0, z.oldTop) && RememberedExact(z, Cur(), rememberedNext, {})
        invariant RootsForwarded(z, mem, old(handles), handles, |handles|)
        invariant RootsForwarded(z, mem, old(cells), cells, i)
        invariant YoungStay(z, old(mem)) ==> YoungStay(z, mem)
      {
        ghost var m := mem;
        var t := ForwardRoot(cells[i]);
        RootsForwardedKept(z, m, mem, old(handles), handles, |handles|);
        RootsForwardedKept(z, m, mem, old(cells), cells, i);
        cells := cells[i := t];
        i := i + 1;
      }
      RootsStayYoung(z, mem, old(handles), handles);
      RootsStayYoung(z, mem, old(cells), cells);
    }

    /** Forwards one root cell. */
    method ForwardRoot(s: Slot) returns (t: Slot)
      requires InCycle() && (s.Ptr? ==> s.ref in z.mem && s.ref in z.live)
      requires Scanned(z, Cur(), 0, z.oldTop) && RememberedExact(z, Cur(), rememberedNext, {})
      modifies `mem, `toTop, `oldTop, `org, `prog
      ensures InCycle() && Scanned(z, Cur(), 0, z.oldTop) && RememberedExact(z, Cur(), rememberedNext, {})
      ensures Forwarded(z, mem, s, t)
      ensures ForwardsKept(z, old(mem), mem)
      ensures YoungStay(z, old(mem)) ==> YoungStay(z, mem)
    {
      hide Inv, GoodStart, Grows, RememberedExact, Scanned, YoungStay;
      if !s.Ptr? {
        return s;
      }
      ghost var c := Cur();
      RootReady(z, c, s.ref);
      var n := Copy(s.ref);
      t := Ptr(n);
      ScannedGrows(z, c, Cur(), 0, z.oldTop);
      RememberedGrows(z, c, Cur(), rememberedNext, {});
      GrowsKeepsForwards(z, c.mem, c, Cur(), {});
    }

    /** Phase 3: traces both frontiers until neither moves. */
    method ScanFrontiers(start: nat)
      requires start == z.oldTop && InCycle() && Scanned(z, Cur(), 0, z.oldTop) && RememberedExact(z, Cur(), rememberedNext, {})
      modifies `mem, `toTop, `oldTop, `overCap, `org, `prog, `rememberedNext
      ensures InCycle() && Drained(z, Cur()) && RememberedExact(z, Cur(), rememberedNext, {})
      ensures old(overCap) ==> overCap
      ensures Roomy() ==> overCap == old(overCap)
      ensures ForwardsKept(z, old(mem), mem)
    {
      hide Inv, GoodStart, Grows, RememberedExact, Scanned, ForwardsKept, Drained, Extent;
      var yscan: nat, oldScan: nat := 0, start;
      var progress := true;
      ForwardsKeptReflexive(z, mem);
      while progress
        invariant InCycle() && Scanned(z, Cur(), yscan, oldScan) && RememberedExact(z, Cur(), rememberedNext, {})
        invariant ForwardsKept(z, old(mem), mem)
        invariant old(overCap) ==> overCap
        invariant Roomy() ==> overCap == old(overCap)
        invariant !progress ==> yscan == toTop && oldScan == oldTop
        decreases z.top + z.oldTop - yscan - oldScan, progress
      {
        progress := false;
        ghost var left := z.top + z.oldTop - yscan - oldScan;
        ScanWithin(z, Cur(), yscan, oldScan);
        while yscan < toTop
          invariant InCycle() && Scanned(z, Cur(), yscan, oldScan) && RememberedExact(z, Cur(), rememberedNext, {})
          invariant ForwardsKept(z, old(mem), mem)
          invariant old(overCap) ==> overCap
          invariant Roomy() ==> overCap == old(overCap)
          invariant yscan <= toTop && yscan + oldScan <= z.top + z.oldTop
          invariant left >= z.top + z.oldTop - yscan - oldScan
          invariant progress ==> left > z.top + z.oldTop - yscan - oldScan
          invariant oldScan == oldTop || progress || left == z.top + z.oldTop - yscan - oldScan
          decreases z.top + z.oldTop - yscan - oldScan
        {
          yscan := ScanYoung(yscan, oldScan);
          ScanWithin(z, Cur(), yscan, oldScan);
          progress := true;
        }
        ScanWithin(z, Cur(), yscan, oldScan);
        while oldScan < oldTop
          invariant InCycle() && Scanned(z, Cur(), yscan, oldScan) && RememberedExact(z, Cur(), rememberedNext, {})
          invariant ForwardsKept(z, old(mem), mem)
          invariant old(overCap) ==> overCap
          invariant Roomy() ==> overCap == old(overCap)
          invariant oldScan <= oldTop && yscan + oldScan <= z.top + z.oldTop
          invariant if progress then left > z.top + z.oldTop - yscan - oldScan else yscan == toTop
          invariant left >= z.top + z.oldTop - yscan - oldScan
          decreases z.top + z.oldTop - yscan - oldScan
        {
          oldScan := ScanOld(yscan, oldScan);
          ScanWithin(z, Cur(), yscan, oldScan);
          progress := true;
        }
      }
      ScannedIsDrained(z, Cur());
    }

    /** One step of the young frontier. */
    method ScanYoung(yscan: nat, ghost oldScan: nat) returns (next: nat)
      requires InCycle() && Scanned(z, Cur(), yscan, oldScan) && RememberedExact(z, Cur(), rememberedNext, {})
      requires yscan < toTop
      modifies `mem, `toTop, `oldTop, `org, `prog
      ensures InCycle() && Scanned(z, Cur(), next, oldScan) && RememberedExact(z, Cur(), rememberedNext, {})
      ensures next > yscan
      ensures forall m :: ForwardsKept(z, m, old(mem)) ==> ForwardsKept(z, m, mem)
    {
      hide Inv, GoodStart, Grows, RememberedExact, Scanned, ForwardsKept, Extent;
      ghost var c := Cur();
      var d := Ref(Other(from), yscan);
      FrontierReady(z, c, yscan, oldScan, d);
      Trace(d);
      next := yscan + Extent(mem[d]);
      ScannedAdvance(z, c, Cur(), d, yscan, oldScan, next, oldScan);
      RememberedTraced(z, c, Cur(), rememberedNext, d);
      forall m | ForwardsKept(z, m, c.mem) ensures ForwardsKept(z, m, mem) {
        GrowsKeepsForwards(z, m, c, Cur(), {d});
      }
    }

    /** One step of the old frontier. */
    method ScanOld(ghost yscan: nat, oldScan: nat) returns (next: nat)
      requires InCycle() && Scanned(z, Cur(), yscan, oldScan) && RememberedExact(z, Cur(), rememberedNext, {})
      requires oldScan < oldTop
      modifies `mem, `toTop, `oldTop, `overCap, `org, `prog, `rememberedNext
      ensures InCycle() && Scanned(z, Cur(), yscan, next) && RememberedExact(z, Cur(), rememberedNext, {})
      ensures next > oldScan
      ensures old(overCap) ==> overCap
      ensures Roomy() ==> overCap == old(overCap)
      ensures forall m :: ForwardsKept(z, m, old(mem)) ==> ForwardsKept(z, m, mem)
    {
      hide Inv, GoodStart, Grows, RememberedExact, Scanned, ForwardsKept, Extent;
      ghost var c := Cur();
      var d := Ref(Old, oldScan);
      FrontierReady(z, c, yscan, oldScan, d);
      TraceFromOld(d, false, {});
      next := oldScan + Extent(mem[d]);
      ScannedAdvance(z, c, Cur(), d, yscan, oldScan, yscan, next);
      forall m | ForwardsKept(z, m, c.mem) ensures ForwardsKept(z, m, mem) {
        GrowsKeepsForwards(z, m, c, Cur(), {d});
      }
    }

    // ---- what the mutator sees ----------------------------------------------

    ghost predicate HeapShape()
      reads this
    {
      && GoodHeap(mem, from, top, oldTop, semi, oldSize)
      && RootsInto(handles, mem) && RootsInto(cells, mem)
    }

    ghost predicate Shape()
      reads this
    {
      && HeapShape()
      && (forall h :: h in remembered ==> h in mem && h.arena == Old)
    }

    /** Every old object that holds a young pointer is remembered. */
    ghost predicate RememberedInv()
      reads this
    {
      forall r :: r in mem && r.arena == Old && Holds(mem[r], from) ==> r in remembered
    }

    /** Duplicates in the remembered set are harmless if what the holders point at
        fits the old arena; without duplicates nothing is asked. */
    ghost predicate Collectable()
      reads this
    {
      NoDuplicates(remembered) || RoomForKids()
    }

    ghost predicate RoomForKids()
      reads this
    {
      var s := Start(mem, from, top, oldTop, semi, oldSize, {});
      KidsFit(s, Kids(s, remembered))
    }

    /** A heap whose young objects would all fit the old arena may list holders twice. */
    lemma RoomyIsCollectable()
      requires HeapShape() && top + oldTop <= oldSize
      ensures Collectable()
    {
      hide KidsFit, Kids;
      RoomyKidsFit(Start(mem, from, top, oldTop, semi, oldSize, {}), remembered);
    }

    /** The three phases of a minor collection, up to the flip. */
    method Evacuate() returns (lost: bool)
      requires Shape() && RememberedInv()
      modifies this
      ensures lost ==> overCap && !old(Collectable())
      ensures !lost ==> InCycle() && Drained(z, Cur()) && RememberedExact(z, Cur(), rememberedNext, {})
      ensures z == Start(old(mem), old(from), old(top), old(oldTop), semi, oldSize,
                         Graph.LiveSet(old(mem), old(Seeds(handles, cells, remembered))))
      ensures GoodHolders(z, old(remembered)) && RootsLive(z, old(handles)) && RootsLive(z, old(cells))
      ensures !lost ==> RootsForwarded(z, mem, old(handles), handles, |handles|) && RootsForwarded(z, mem, old(cells), cells, |cells|)
      ensures from == old(from) && remembered == []
      ensures old(overCap) ==> overCap
      ensures !overCap ==> old(RoomForKids())
      ensures Roomy() ==> overCap == old(overCap)
      ensures !lost && old(remembered) == [] ==>
                StayYoung(z.mem, z.from, old(handles), handles) && StayYoung(z.mem, z.from, old(cells), cells)
    {
      hide YoungStay, StayYoung;
      hide Inv, GoodHeap, Initial, Scanned, Drained, RememberedExact, Names, Kids, KidsFit, NoDuplicates, Closed, LiveClosed;
      hide Seeds, RootsForwarded, RootsLive, Survivors;
      z := Start(mem, from, top, oldTop, semi, oldSize, Graph.LiveSet(mem, Seeds(handles, cells, remembered)));
      StartReady(z, handles, cells, remembered);
      KidsLive(z, z.(live := {}), remembered);
      toTop := 0;
      rememberedNext := [];
      var oldScan := oldTop;
      var rem := remembered;
      remembered := [];
      ghost var kids := Kids(z, rem);
      ghost var c0 := Initial(z, Elements(rem));
      org, prog := c0.org, c0.prog;
      InitialInv(z, Elements(rem));
      InitialParts(z, Elements(rem));
      StayInitial(z, Elements(rem));
      lost := TraceRemembered(rem, KidsFit(z, kids), kids);
      if lost {
        return;
      }
      ForwardRoots();
      ghost var m := mem;
      ScanFrontiers(oldScan);
      RootsForwardedKept(z, m, mem, old(handles), handles, |handles|);
      RootsForwardedKept(z, m, mem, old(cells), cells, |cells|);
    }

    /** The minor collection. `names` is the renaming it performed. It is `lost` only with
        the over-cap flag set, and only if a holder was remembered twice and the holders'
        children do not fit the old arena. */
    method CollectMinor() returns (lost: bool, ghost names: map<Ref, Ref>)
      requires Shape() && RememberedInv()
      modifies this
      ensures lost ==> overCap && !old(Collectable())
      ensures !lost ==> Shape() && from == Other(old(from))
      ensures !lost ==> NoDuplicates(remembered) && RemembersExactly(mem, from, remembered)
      ensures !lost ==> Graph.Renaming(old(mem), mem, names)
      ensures !lost ==> Graph.RootsRenamed(old(handles), handles, names) && Graph.RootsRenamed(old(cells), cells, names)
      ensures !lost ==> forall r :: r in old(mem) ==>
                (r in names <==>
                  r.arena == Old || Graph.Reachable(old(mem), old(Seeds(handles, cells, remembered)), r))
      ensures !lost ==> forall r :: r in old(mem) && r.arena == Old ==> r in names && names[r] == r
      ensures !lost ==> forall r :: r in names && r in old(mem) && r.arena == old(from) ==>
                TenuredAs(old(mem[r]), mem, names[r], oldTop, oldSize)
      ensures !lost ==> top <= old(top) && top + oldTop <= old(top + oldTop)
      ensures !lost ==> forall x :: x in mem ==> exists r :: r in names && names[r] == x
      ensures !lost && old(remembered) == [] ==>
                StayYoung(old(mem), old(from), old(handles), handles) && StayYoung(old(mem), old(from), old(cells), cells)
      ensures old(overCap) ==> overCap
      ensures !overCap ==> old(RoomForKids())
      ensures old(top + oldTop) <= oldSize ==> !lost && overCap == old(overCap)
    {
      hide StayYoung;
      hide Inv, Scanned, Drained, RememberedExact, Names, TenuredAs, Kids, KidsFit, NoDuplicates;
      hide Seeds, RootsForwarded, RootsLive, Survivors, GoodHolders, GoodHeap, LiveClosed;
      if top + oldTop <= oldSize { RoomyIsCollectable(); }
      names := map[];
      lost := Evacuate();
      if lost {
        return;
      }
      ghost var c := Cur();
      names := Names(z, c);
      Finish(z, c, old(handles), handles, old(cells), cells, old(remembered));
      FinishedHeap(z, c);
      RememberedAfter(z, c, rememberedNext);
      TenureAfter(z, c);
      forall x | x in Survivors(from, mem) ensures exists r :: r in names && names[r] == x {
        NothingElse(z, c, x);
      }
      mem := Survivors(from, mem);
      remembered, rememberedNext := rememberedNext, remembered;
      from := Other(from);
      top := toTop;
    }

    // ---- major collection: marking ------------------------------------------

    ghost predicate OldBelowTop()
      reads this
    {
      forall r :: r in mem && r.arena == Old ==> r.off < oldTop
    }

    ghost function MarkMeasure(): nat
      reads this
    {
      2 * |Unmarked(mem)| + |markWork|
    }

    /** Marks a live old object and queues it; anything else is left alone. */
    method MarkOld(s: Slot, ghost m0: Mem, ghost live: set<Ref>, ghost open: set<Ref>)
      requires Marking(m0, mem, markWork, live, open) && OldBelowTop()
      requires s.Ptr? ==> s.ref in mem && s.ref in live
      modifies `mem, `markWork
      ensures Marking(m0, mem, markWork, live, open) && MarksGrow(old(mem), mem) && OldBelowTop()
      ensures SlotMarked(mem, s) && MarkMeasure() <= old(MarkMeasure())
    {
      hide Marking, Unmarked;
      if !s.Ptr? || !IsOld(s.ref) || mem[s.ref].mark {
        return;
      }
      MarkStep(m0, mem, markWork, live, open, s.ref);
      mem := mem[s.ref := mem[s.ref].(mark := true)];
      markWork := markWork + [s.ref];
    }

    /** Marks every old object that `o`, young or old, points at. */
    method MarkChildren(o: Ref, ghost m0: Mem, ghost live: set<Ref>, ghost open: set<Ref>)
      requires Marking(m0, mem, markWork, live, open) && OldBelowTop()
      requires Closed(m0) && ClosedSet(m0, live) && o in mem && o in live
      modifies `mem, `markWork
      ensures Marking(m0, mem, markWork, live, open) && MarksGrow(old(mem), mem) && OldBelowTop()
      ensures AllMarked(mem, mem[o]) && MarkMeasure() <= old(MarkMeasure())
    {
      hide MarkMeasure, ChildrenMarked, Closed, ClosedSet;
      ChildrenReady(m0, mem, markWork, live, open, o);
      hide Marking;
      ghost var slots := mem[o].slots;
      var i := 0;
      MarkedNone(mem, mem[o]);
      while i < |mem[o].slots|
        invariant Marking(m0, mem, markWork, live, open) && MarksGrow(old(mem), mem) && OldBelowTop()
        invariant o in mem && mem[o].slots == slots && i <= |slots|
        invariant ChildrenMarked(mem, mem[o], i) && MarkMeasure() <= old(MarkMeasure())
      {
        ghost var m := mem;
        MarkOld(mem[o].slots[i], m0, live, open);
        MarkedOneMore(m, mem, m[o], mem[o], i);
        i := i + 1;
      }
    }

    method MarkRoots(ghost m0: Mem, ghost live: set<Ref>)
      requires Marking(m0, mem, markWork, live, {}) && OldBelowTop()
      requires RootsInto(handles, mem) && RootsInto(cells, mem) && RootsIn(handles, live) && RootsIn(cells, live)
      modifies `mem, `markWork
      ensures Marking(m0, mem, markWork, live, {}) && MarksGrow(old(mem), mem) && OldBelowTop()
      ensures RootsMarked(mem, handles, |handles|) && RootsMarked(mem, cells, |cells|)
    {
      hide Marking, OldBelowTop;
      var i := 0;
      while i < |handles|
        invariant Marking(m0, mem, markWork, live, {}) && MarksGrow(old(mem), mem) && OldBelowTop()
        invariant i <= |handles| && RootsMarked(mem, handles, i)
      {
        ghost var m := mem;
        MarkOld(handles[i], m0, live, {});
        RootsMarkedGrow(m, mem, handles, i);
        i := i + 1;
      }
      i := 0;
      while i < |cells|
        invariant Marking(m0, mem, markWork, live, {}) && MarksGrow(old(mem), mem) && OldBelowTop()
        invariant RootsMarked(mem, handles, |handles|)
        invariant i <= |cells| && RootsMarked(mem, cells, i)
      {
        ghost var m := mem;
        MarkOld(cells[i], m0, live, {});
        RootsMarkedGrow(m, mem, handles, |handles|);
        RootsMarkedGrow(m, mem, cells, i);
        i := i + 1;
      }
    }

    /** Young survivors are roots: marks what they point at. */
    method MarkYoung(ghost m0: Mem, ghost live: set<Ref>)
      requires Marking(m0, mem, markWork, live, {}) && OldBelowTop() && from != Old
      requires Closed(m0) && ClosedSet(m0, live) && Tiles(m0, from, top)
      requires forall y :: y in m0 && y.arena == from ==> y in live
      modifies `mem, `markWork
      ensures Marking(m0, mem, markWork, live, {}) && MarksGrow(old(mem), mem) && OldBelowTop()
      ensures YoungMarked(mem, from, top)
    {
      hide Marking, OldBelowTop, Closed, ClosedSet, Extent;
      var s := 0;
      while s < top
        invariant Marking(m0, mem, markWork, live, {}) && MarksGrow(old(mem), mem) && OldBelowTop()
        invariant Boundary(m0, from, top, s) && YoungMarked(mem, from, s)
        decreases top - s
      {
        ghost var m := mem;
        var y := Ref(from, s);
        MarkedKeys(m0, mem, markWork, live, {});
        assert FitsRun(m0, y, top);
        MarkChildren(y, m0, live, {});
        MarkedKeys(m0, mem, markWork, live, {});
        YoungMarkedStep(m0, m, mem, from, top, s);
        s := s + Extent(mem[y]);
      }
    }

    /** Follows old-to-old edges until the worklist is empty. */
    method DrainMarkWork(ghost m0: Mem, ghost live: set<Ref>)
      requires Marking(m0, mem, markWork, live, {}) && OldBelowTop()
      requires Closed(m0) && ClosedSet(m0, live)
      modifies `mem, `markWork
      ensures Marking(m0, mem, markWork, live, {}) && MarksGrow(old(mem), mem) && markWork == []
    {
      hide Closed, ClosedSet, Unmarked;
      while markWork != []
        invariant Marking(m0, mem, markWork, live, {}) && MarksGrow(old(mem), mem) && OldBelowTop()
        decreases MarkMeasure()
      {
        var o := markWork[|markWork| - 1];
        PopStep(m0, mem, markWork, live);
        assert o in markWork;
        markWork := markWork[..|markWork| - 1];
        MarkChildren(o, m0, live, {o});
        CloseStep(m0, mem, markWork, live, o);
      }
    }

    // ---- major collection: addresses, pointers, slide --------------------------

    /** Clears the scratch header fields of every old object. */
    method ClearOldScratch()
      requires GoodHeap(mem, from, top, oldTop, semi, oldSize)
      modifies `mem
      ensures mem == old(mem)
    {
      hide Extent;
      var s := 0;
      while s < oldTop
        invariant mem == old(mem) && Boundary(mem, Old, oldTop, s)
        decreases oldTop - s
      {
        var o := Ref(Old, s);
        assert FitsRun(mem, o, oldTop);
        assert mem[o].(mark := false, fwd := None) == mem[o];
        mem := mem[o := mem[o].(mark := false, fwd := None)];
        s := s + Extent(mem[o]);
      }
    }

    /** Packs the live old objects downward on paper: stores each one's new address. */
    method AssignAddresses(ghost b: Mem) returns (newTop: nat)
      requires mem == b && Tiles(b, Old, oldTop) && Addressed(b, b, 0)
      modifies `mem
      ensures Addressed(b, mem, oldTop) && newTop == Slid(b, oldTop)
    {
      hide Extent, Slid, Addressed;
      newTop := 0;
      NothingSlid(b);
      var s := 0;
      while s < oldTop
        invariant Addressed(b, mem, s) && Boundary(b, Old, oldTop, s) && newTop == Slid(b, s)
        decreases oldTop - s
      {
        var o := Ref(Old, s);
        AddressStep(b, mem, oldTop, s);
        SlidNext(b, oldTop, o);
        var a := Extent(mem[o]);
        if mem[o].mark {
          mem := mem[o := mem[o].(fwd := Some(Ref(Old, newTop)))];
          newTop := newTop + a;
        }
        s := s + a;
      }
    }

    /** Rewrites every child of `o` to its new address. */
    method UpdateChildren(o: Ref) returns (ghost slots: seq<Slot>)
      requires o in mem
      modifies `mem
      ensures o in old(mem) && mem == old(mem)[o := old(mem)[o].(slots := slots)]
      ensures |slots| == |old(mem)[o].slots|
      ensures forall i :: 0 <= i < |slots| ==> slots[i] == ForwardOld(old(mem), oldTop, old(mem)[o].slots[i])
    {
      var i := 0;
      assert mem[o].(slots := mem[o].slots) == mem[o];
      while i < |mem[o].slots|
        invariant o in mem && |mem[o].slots| == |old(mem)[o].slots| && i <= |mem[o].slots|
        invariant mem == old(mem)[o := old(mem)[o].(slots := mem[o].slots)]
        invariant forall j :: 0 <= j < i ==> mem[o].slots[j] == ForwardOld(old(mem), oldTop, old(mem)[o].slots[j])
        invariant forall j :: i <= j < |mem[o].slots| ==> mem[o].slots[j] == old(mem)[o].slots[j]
      {
        ForwardOldSame(old(mem), mem, oldTop, mem[o].slots[i]);
        mem := mem[o := mem[o].(slots := mem[o].slots[i := ForwardOld(mem, oldTop, mem[o].slots[i])])];
        i := i + 1;
      }
      slots := mem[o].slots;
    }

    /** Every root cell that leads to an old object is given its new address. */
    method UpdateRoots(ghost b: Mem)
      requires Tiles(b, Old, oldTop) && Addressed(b, mem, oldTop)
      requires RootsIn(handles, Kept(b)) && RootsIn(cells, Kept(b))
      modifies `handles, `cells
      ensures Graph.RootsRenamed(old(handles), handles, Places(b))
      ensures Graph.RootsRenamed(old(cells), cells, Places(b))
    {
      hide Addressed, Tiles, Kept, Places;
      RootsForwardOld(b, oldTop, mem, handles);
      RootsForwardOld(b, oldTop, mem, cells);
      var i := 0;
      while i < |handles|
        invariant |handles| == |old(handles)| && i <= |handles| && cells == old(cells)
        invariant forall j :: 0 <= j < i ==> handles[j] == ForwardOld(mem, oldTop, old(handles)[j])
        invariant forall j :: i <= j < |handles| ==> handles[j] == old(handles)[j]
      {
        handles := handles[i := ForwardOld(mem, oldTop, handles[i])];
        i := i + 1;
      }
      i := 0;
      while i < |cells|
        invariant |cells| == |old(cells)| && i <= |cells|
        invariant |handles| == |old(handles)|
        invariant forall j :: 0 <= j < |handles| ==> handles[j] == ForwardOld(mem, oldTop, old(handles)[j])
        invariant forall j :: 0 <= j < i ==> cells[j] == ForwardOld(mem, oldTop, old(cells)[j])
        invariant forall j :: i <= j < |cells| ==> cells[j] == old(cells)[j]
      {
        cells := cells[i := ForwardOld(mem, oldTop, cells[i])];
        i := i + 1;
      }
    }

    /** Updates the children of one more kept object. */
    method UpdateObject(r: Ref, ghost b: Mem, ghost a: Mem, ghost done: set<Ref>)
      requires Tiles(b, Old, oldTop) && Addressed(b, a, oldTop) && Updated(a, mem, Places(b), done)
      requires ClosedSet(b, Kept(b)) && r in b && r in Kept(b) && r !in done
      modifies `mem
      ensures Updated(a, mem, Places(b), done + {r})
    {
      hide Tiles, ClosedSet, Places;
      UpdateReady(b, oldTop, a, mem, done, r);
      hide Addressed, Updated, Kept;
      ghost var m := mem;
      ghost var slots := UpdateChildren(r);
      UpdateStep(b, oldTop, a, m, done, r, slots);
    }

    /** The young survivors' old children, then the live old objects' old children. */
    method UpdatePointers(ghost b: Mem, ghost a: Mem)
      requires mem == a && Tiles(b, Old, oldTop) && Tiles(b, from, top) && from != Old && Addressed(b, a, oldTop)
      requires ClosedSet(b, Kept(b)) && forall r :: r in b ==> r.arena == Old || r.arena == from
      modifies `mem
      ensures Updated(a, mem, Places(b), Kept(b)) && SameExtents(b, mem)
    {
      hide Addressed, Updated, Places, Extent, ClosedSet, SameExtents;
      NothingUpdated(a, Places(b));
      var s := 0;
      assert Below(b, from, 0) == {};
      while s < top
        invariant Updated(a, mem, Places(b), Below(b, from, s)) && Boundary(b, from, top, s)
        decreases top - s
      {
        var y := Ref(from, s);
        assert FitsRun(b, y, top);
        UpdateObject(y, b, a, Below(b, from, s));
        UpdatedExtents(b, a, mem, oldTop, Places(b), Below(b, from, s) + {y});
        BelowNext(b, from, top, s);
        SameExtentOf(b, mem, y);
        s := s + Extent(mem[y]);
      }
      ghost var young := Below(b, from, top);
      s := 0;
      assert young + MarkedBelow(b, 0) == young;
      while s < oldTop
        invariant Updated(a, mem, Places(b), young + MarkedBelow(b, s)) && Boundary(b, Old, oldTop, s)
        decreases oldTop - s
      {
        var o := Ref(Old, s);
        assert FitsRun(b, o, oldTop);
        UpdatedHeader(b, a, mem, oldTop, young + MarkedBelow(b, s), o);
        MarkedBelowNext(b, oldTop, s);
        assert young + MarkedBelow(b, s) + (if mem[o].mark then {o} else {}) == young + MarkedBelow(b, s + Extent(b[o]));
        assert young + MarkedBelow(b, s) + {} == young + MarkedBelow(b, s);
        if mem[o].mark {
          UpdateObject(o, b, a, young + MarkedBelow(b, s));
          UpdatedHeader(b, a, mem, oldTop, young + MarkedBelow(b, s + Extent(b[o])), o);
        }
        s := s + Extent(mem[o]);
      }
      KeptIsBelow(b, from, top, oldTop);
      UpdatedExtents(b, a, mem, oldTop, Places(b), Kept(b));
    }

    /** Slides the live objects down in place, each to its stored address. */
    method SlideOld(ghost b: Mem, ghost u: Mem)
      requires mem == u && Tiles(b, Old, oldTop) && SameExtents(b, u)
      requires forall r :: r in b ==> u[r].mark == b[r].mark && (r.arena == Old ==> u[r].fwd == Address(b, r))
      modifies `mem
      ensures Sliding(b, u, mem, oldTop)
    {
      hide Extent, Slid, Sliding, SameExtents, Tiles;
      SlideStart(b, u);
      var s := 0;
      FirstBoundary(b, oldTop);
      while s < oldTop
        invariant Sliding(b, u, mem, s) && Boundary(b, Old, oldTop, s)
        decreases oldTop - s
      {
        var o := Ref(Old, s);
        SlideReady(b, u, mem, oldTop, s);
        var obj := mem[o];
        var a := Extent(obj);
        if obj.mark {
          var dst := obj.fwd.value;
          if dst != o {
            SlideMove(b, u, mem, oldTop, s);
            mem := Overwrite(mem, dst, obj);
          } else {
            SlideStay(b, u, mem, oldTop, s);
          }
        } else {
          SlideSkip(b, u, mem, oldTop, s);
        }
        s := s + a;
      }
    }

    /** Clears the scratch of the compacted region. */
    method ClearCompacted(newTop: nat, ghost t: Mem)
      requires t == Truncated(mem, newTop) && Tiles(t, Old, newTop)
      modifies `mem
      ensures Cleared(t, Truncated(mem, newTop), newTop)
    {
      hide Extent, Cleared, Tiles;
      FirstBoundary(t, newTop);
      NothingCleared(t);
      var s := 0;
      while s < newTop
        invariant Cleared(t, Truncated(mem, newTop), s) && Boundary(t, Old, newTop, s)
        decreases newTop - s
      {
        var o := Ref(Old, s);
        ghost var f := Truncated(mem, newTop);
        ClearStep(t, f, newTop, s);
        ghost var m := mem;
        mem := mem[o := mem[o].(mark := false, fwd := None)];
        assert Truncated(mem, newTop) == f[o := m[o].(mark := false, fwd := None)];
        SameExtent(mem[o], m[o]);
        s := s + Extent(mem[o]);
      }
    }

    /** Clears scratch, then marks from the roots and the young survivors. */
    method MarkLive()
      requires HeapShape()
      modifies `mem, `markWork
      ensures OnlyMarks(old(mem), mem)
      ensures forall r :: r in mem && r.arena == Old ==>
                (mem[r].mark <==> Held(old(mem), from, handles + cells, r))
      ensures ClosedSet(mem, Kept(mem)) && RootsIn(handles, Kept(mem)) && RootsIn(cells, Kept(mem))
    {
      hide Extent, Held, Marking, Kept, ClosedSet, RootsIn;
      ghost var m0, roots := mem, handles + cells;
      ghost var live := HeldSet(m0, from, roots);
      ClearOldScratch();
      markWork := [];
      MarkingStart(m0, from, top, oldTop, semi, oldSize, handles, cells, live);
      hide GoodHeap;
      MarkRoots(m0, live);
      ghost var m1 := mem;
      MarkYoung(m0, live);
      ghost var m2 := mem;
      DrainMarkWork(m0, live);
      MarkingDone(m0, m1, m2, mem, from, top, oldTop, semi, oldSize, handles, cells);
    }

    /** Addresses, pointer updates, slide and clearing for the marked memory `b`; the
        ghost results are the memories between these steps. */
    method Relocate(ghost b: Mem) returns (newTop: nat, ghost a: Mem, ghost u: Mem, ghost m: Mem)
      requires mem == b && from != Old && Tiles(b, Old, oldTop) && Tiles(b, from, top) && Addressed(b, b, 0)
      requires forall r :: r in b ==> r.arena == Old || r.arena == from
      requires ClosedSet(b, Kept(b)) && RootsIn(handles, Kept(b)) && RootsIn(cells, Kept(b))
      modifies `mem, `handles, `cells
      ensures newTop == Slid(b, oldTop)
      ensures Addressed(b, a, oldTop) && Updated(a, u, Places(b), Kept(b)) && SameExtents(b, u) && Sliding(b, u, m, oldTop)
      ensures Cleared(Truncated(m, newTop), Truncated(mem, newTop), newTop)
      ensures Graph.RootsRenamed(old(handles), handles, Places(b)) && Graph.RootsRenamed(old(cells), cells, Places(b))
    {
      hide Extent, Slid, Tiles, Addressed, Updated, Sliding, Cleared, SameExtents, ClosedSet, Kept, RootsIn, Places;
      newTop := AssignAddresses(b);
      a := mem;
      UpdateRoots(b);
      UpdatePointers(b, a);
      u := mem;
      HeadersKept(b, a, u, oldTop, Places(b), Kept(b));
      SlideOld(b, u);
      m := mem;
      SlidTiles(b, u, m, oldTop);
      ClearCompacted(newTop, Truncated(m, newTop));
    }

    /** The major collection: a sliding compaction of the old arena, to be run right
        after a minor one. It does not look at the remembered set. */
    method CompactOld() returns (ghost names: map<Ref, Ref>)
      requires HeapShape()
      modifies `mem, `markWork, `handles, `cells, `oldTop
      ensures HeapShape()
      ensures Compaction(old(mem), from, old(handles + cells), mem, names)
      ensures Graph.RootsRenamed(old(handles), handles, names) && Graph.RootsRenamed(old(cells), cells, names)
      ensures oldTop <= old(oldTop)
    {
      hide Extent, Slid, Tiles, GoodHeap, OnlyMarks, Addressed, Updated, Sliding, Cleared, SameExtents, Held, ClosedSet, Kept, RootsIn, Places, RootsInto, Truncated, Compaction;
      ghost var m0 := mem;
      MarkLive();
      ghost var b := mem;
      MarkedHeap(m0, b, from, top, oldTop, semi, oldSize);
      var newTop, a, u, m := Relocate(b);
      names := Places(b);
      CompactionDone(m0, b, a, u, m, Truncated(mem, newTop), from, top, oldTop, semi, oldSize, old(handles + cells));
      mem := Truncated(mem, newTop);
      oldTop := newTop;
      CompactedRoots(m0, from, old(handles + cells), mem, names, old(handles), handles);
      CompactedRoots(m0, from, old(handles + cells), mem, names, old(cells), cells);
    }

    // ---- collecting, allocating, storing -----------------------------------------

    /** A minor collection, then a major one if the old arena is three quarters full.
        The remembered set is exact afterwards unless the major one moved or dropped a
        holder; `mid` and `midRoots` are the heap and its roots between the two. */
    method Collect() returns (lost: bool, ghost names: map<Ref, Ref>, ghost compacted: bool, ghost mid: Mem, ghost midRoots: seq<Slot>)
      requires Shape() && RememberedInv()
      modifies this
      ensures lost ==> overCap && !old(Collectable())
      ensures !lost ==> HeapShape() && NoDuplicates(remembered)
      ensures !lost ==> Graph.Renaming(old(mem), mem, names)
      ensures !lost ==> Graph.RootsRenamed(old(handles), handles, names) && Graph.RootsRenamed(old(cells), cells, names)
      ensures !lost ==> (RemembersExactly(mem, from, remembered) <==> !compacted || NoneDeadUpTo(mid, from, midRoots, remembered))
      ensures !lost ==> RemembersExactly(mid, from, remembered)
      ensures !lost ==> top <= old(top)
      ensures old(overCap) ==> overCap
      ensures old(top + oldTop) <= oldSize ==> !lost && overCap == old(overCap)
    {
      hide Graph.Renaming, Graph.RootsRenamed, GoodHeap, RemembersExactly, NoneDeadUpTo, Compaction, TenuredAs, NoDuplicates;
      hide KidsFit, Kids, Seeds;
      lost, names := CollectMinor();
      mid, midRoots, compacted := mem, handles + cells, false;
      if lost {
        return;
      }
      GoodArenas(mem, from, top, oldTop, semi, oldSize);
      if oldTop * 4 >= oldSize * 3 {
        compacted := true;
        ghost var h, c, t := handles, cells, oldTop;
        ghost var places := CompactOld();
        RememberedSurvives(mid, from, midRoots, mem, places, remembered, t);
        CompactionNames(mid, from, midRoots, mem, places);
        Graph.RenamingCompose(old(mem), mid, mem, names, places);
        Graph.RootsRenamedCompose(old(handles), h, handles, names, places);
        Graph.RootsRenamedCompose(old(cells), c, cells, names, places);
        names := Graph.Compose(names, places);
      }
    }

    /** Reserves `n` bytes at the end of the young run, collecting if they do not fit.
        `stale` tells that a compaction ran while holders were remembered. After a `lost`
        collection the source may still hand out memory; its callers test the flag. */
    method Bump(n: nat) returns (p: Option<Ref>, lost: bool, ghost names: map<Ref, Ref>, ghost stale: bool)
      requires Shape() && RememberedInv()
      modifies this
      ensures lost ==> overCap && !old(Collectable())
      ensures !lost ==> Graph.Renaming(old(mem), mem, names)
      ensures !lost ==> Graph.RootsRenamed(old(handles), handles, names) && Graph.RootsRenamed(old(cells), cells, names)
      ensures !lost ==> RootsInto(handles, mem) && RootsInto(cells, mem)
      ensures !lost && p.None? ==> overCap && HeapShape()
      ensures !lost && p.Some? ==>
                (p.value.arena == from && top == p.value.off + Align8(n) <= semi
                 && GoodHeap(mem, from, p.value.off, oldTop, semi, oldSize))
      ensures !lost && !stale ==> RememberedInv() && forall h :: h in remembered ==> h in mem && h.arena == Old
      ensures !lost && stale ==> remembered != []
      ensures old(overCap) ==> overCap
      ensures old(top) + Align8(n) <= semi ==>
                p == Some(Ref(from, old(top))) && !lost && !stale && mem == old(mem) && from == old(from) && oldTop == old(oldTop)
                && handles == old(handles) && cells == old(cells) && remembered == old(remembered) && overCap == old(overCap)
    {
      hide Graph.Renaming, Graph.RootsRenamed, GoodHeap, NoneDeadUpTo, NoDuplicates, Align8, KidsFit, Kids;
      var a := Align8(n);
      stale, lost := false, false;
      names := Graph.Identity(mem);
      KeepsItself(mem, from, top, oldTop, semi, oldSize, handles);
      KeepsItself(mem, from, top, oldTop, semi, oldSize, cells);
      if top + a > semi {
        ghost var compacted, mid, midRoots;
        lost, names, compacted, mid, midRoots := Collect();
        if lost {
          return None, lost, names, stale;
        }
        stale := compacted && remembered != [];
        NoHoldersNoneDead(mid, from, midRoots, remembered);
        if top + a > semi {
          overCap := true;
          return None, lost, names, stale;
        }
      }
      p := Some(Ref(from, top));
      top := top + a;
    }

    /** Allocates `o`, which holds no pointer yet: the rest of the graph is kept up to
        renaming and the new object is none of it. */
    method NewObject(o: Object) returns (s: Slot, lost: bool, ghost names: map<Ref, Ref>, ghost stale: bool)
      requires Shape() && RememberedInv()
      requires CleanHeader(o) && o.age == 0 && forall i :: 0 <= i < |o.slots| ==> !o.slots[i].Ptr?
      modifies this
      ensures lost ==> overCap && !old(Collectable())
      ensures !lost ==> HeapShape()
      ensures !lost ==> Graph.Renaming(old(mem), mem, names)
      ensures !lost ==> Graph.RootsRenamed(old(handles), handles, names) && Graph.RootsRenamed(old(cells), cells, names)
      ensures !lost ==> (s == Null && overCap) || (s.Ptr? && IsYoung(s.ref) && s.ref in mem && mem[s.ref] == o)
      ensures !lost && s.Ptr? ==> forall r :: r in names ==> names[r] != s.ref
      ensures !lost && !stale ==> Shape() && RememberedInv()
      ensures !lost && stale ==> remembered != []
      ensures old(top) + Extent(o) <= semi ==>
                s == Ptr(Ref(from, old(top))) && !lost && !stale && mem == old(mem)[s.ref := o] && from == old(from) && top == old(top) + Extent(o)
                && oldTop == old(oldTop) && handles == old(handles) && cells == old(cells) && remembered == old(remembered)
                && overCap == old(overCap)
    {
      hide Graph.Renaming, GoodHeap, NoDuplicates, Extent, KidsFit, Kids, SizeOf, Align8;
      ExtentIsAligned(o);
      var p;
      p, lost, names, stale := Bump(SizeOf(o));
      if lost || p.None? {
        return Null, lost, names, stale;
      }
      AppendObject(old(mem), mem, names, from, p.value.off, oldTop, semi, oldSize, o, handles, cells);
      mem := mem[p.value := o];
      s := Ptr(p.value);
    }

    method NewSlots(count: nat) returns (s: Slot, lost: bool, ghost names: map<Ref, Ref>, ghost stale: bool)
      requires Shape() && RememberedInv()
      modifies this
      ensures lost ==> overCap && !old(Collectable())
      ensures !lost ==> HeapShape()
      ensures !lost ==> Graph.Renaming(old(mem), mem, names)
      ensures !lost ==> Graph.RootsRenamed(old(handles), handles, names) && Graph.RootsRenamed(old(cells), cells, names)
      ensures !lost ==> ((s == Null && overCap)
           || (s.Ptr? && IsYoung(s.ref) && s.ref in mem
               && mem[s.ref] == Object(Kind.Slots, 0, false, None, [], seq(count, _ => Null))))
      ensures !lost && s.Ptr? ==> forall r :: r in names ==> names[r] != s.ref
      ensures !lost && !stale ==> Shape() && RememberedInv()
      ensures !lost && stale ==> remembered != []
    {
      s, lost, names, stale := NewObject(Object(Kind.Slots, 0, false, None, [], seq(count, _ => Null)));
    }

    /** Records `holder` if it is old and `stored` is young. */
    method WriteBarrier(holder: Ref, stored: Slot)
      modifies `remembered
      ensures remembered == if stored.Ptr? && IsOld(holder) && IsYoung(stored.ref)
                            then old(remembered) + [holder] else old(remembered)
    {
      if !stored.Ptr? {
        return;
      }
      if IsOld(holder) && IsYoung(stored.ref) {
        remembered := remembered + [holder];
      }
    }

    /** A store followed by the barrier keeps every old-to-young edge remembered. */
    method Store(holder: Ref, i: nat, v: Slot)
      requires Shape() && RememberedInv()
      requires holder in mem && i < |mem[holder].slots| && (v.Ptr? ==> v.ref in mem)
      modifies `mem, `remembered
      ensures Shape() && RememberedInv()
      ensures mem == old(mem[holder := mem[holder].(slots := mem[holder].slots[i := v])])
      ensures remembered == old(if v.Ptr? && IsOld(holder) && IsYoung(v.ref) then remembered + [holder] else remembered)
    {
      hide Extent, KidsFit, Kids, Tiles;
      StoreKeeps(mem, from, top, oldTop, semi, oldSize, holder, i, v, remembered);
      mem := mem[holder := mem[holder].(slots := mem[holder].slots[i := v])];
      WriteBarrier(holder, v);
    }
  }
}
