/** An insertion under way: what still holds of the map and of every other object after any
    number of relocations and of writes to blocks nobody else sees. */
module Following {
  import opened Relocation
  import OM = OrderedMap

  /** Where an insertion began: the memory, the map, the value, the handles and the roots. */
  datatype Start = Start(mem: Mem, m: Addr, v: Val, hs: seq<Addr>, roots: seq<Val>)

  predicate AllIn(s: set<Addr>, hs: seq<Addr>) {
    forall i :: 0 <= i < |hs| ==> hs[i] in s
  }

  ghost predicate Begun(s: Start) {
    DictOk(s.mem, s.m) && Closed(s.mem) && Within(s.mem.Keys, s.v) && AllIn(s.mem.Keys, s.hs) && AllWithin(s.mem.Keys, s.roots)
  }

  /** Handles: the caller's, then the map, then the value if it is an object, then more. */
  ghost predicate Rooted(s: Start, n: Names, hs: seq<Addr>) {
    var k := |s.hs|;
    && |hs| >= k + (if s.v.Ptr? then 2 else 1) && AllIn(n.Keys, s.hs) && hs[..k] == RenAll(n, s.hs)
    && s.m in n && hs[k] == n[s.m] && Within(n.Keys, s.v) && (s.v.Ptr? ==> hs[k + 1] == n[s.v.ref])
  }

  /** The objects followed, other than the map's own, are none of the map's own now. */
  ghost predicate Apart(s: Start, n: Names, mem: Mem)
    requires s.m in s.mem && s.mem[s.m].Dict? && s.m in n && n[s.m] in mem && mem[n[s.m]].Dict?
  {
    forall a {:trigger n[a]} :: a in n && a !in Owned(s.mem, s.m) ==> n[a] !in Owned(mem, n[s.m])
  }

  /** The map is where it was, its entries with it, and all else is followed. */
  ghost predicate Same(s: Start, n: Names, mem: Mem)
    requires DictOk(s.mem, s.m)
  {
    && s.m in n && Tracks(s.mem, mem, n, Owned(s.mem, s.m)) && Closed(mem)
    && DictOk(mem, n[s.m]) && Entries(mem, n[s.m]) == RenEntries(n, Entries(s.mem, s.m)) && EntriesWithin(n.Keys, Entries(s.mem, s.m))
    && Apart(s, n, mem)
  }

  ghost predicate Going(s: Start, n: Names, mem: Mem, hs: seq<Addr>, roots: seq<Val>) {
    Begun(s) && Same(s, n, mem) && Rooted(s, n, hs) && AllIn(mem.Keys, hs) && roots == RenVals(n, s.roots) && AllWithin(n.Keys, s.roots)
  }

  lemma Starts(s: Start, hs: seq<Addr>)
    requires Begun(s) && hs == s.hs + [s.m] + (if s.v.Ptr? then [s.v.ref] else [])
    ensures Going(s, Identity(s.mem.Keys), s.mem, hs, s.roots)
  {
    var n := Identity(s.mem.Keys);
    TracksFromStart(s.mem, Owned(s.mem, s.m));
    var es := Entries(s.mem, s.m);
    assert RenEntries(n, es) == es;
    assert RenAll(n, s.hs) == s.hs && RenVals(n, s.roots) == s.roots;
    assert hs[..|s.hs|] == s.hs;
    IdentityMoves(s.mem);
    DictMoves(s.mem, s.mem, n, s.m);
    hide DictOk, Tracks, Moved, Closed;
    forall i | 0 <= i < |hs| ensures hs[i] in s.mem.Keys {
      if i >= |s.hs| { assert s.m in s.mem; }
    }
  }

  // ---- a relocation ----------------------------------------------------------------------------

  lemma RootedMoves(s: Start, n: Names, hs: seq<Addr>, n2: Names)
    requires Rooted(s, n, hs) && AllIn(n2.Keys, hs)
    ensures Rooted(s, Then(n, n2), RenAll(n2, hs))
  {
    var k, t := |s.hs|, Then(n, n2);
    forall i | 0 <= i < k ensures s.hs[i] in t && RenAll(n2, hs)[i] == t[s.hs[i]] {
      assert hs[i] == hs[..k][i] == n[s.hs[i]];
    }
    assert RenAll(n2, hs)[..k] == RenAll(t, s.hs);
    assert hs[k] in n2 && (s.v.Ptr? ==> hs[k + 1] in n2);
  }

  lemma ApartMoves(s: Start, n: Names, mem: Mem, mem2: Mem, n2: Names)
    requires DictOk(s.mem, s.m) && s.m in n && n[s.m] in n2 && Apart'(s, n, mem) && DictOk(mem, n[s.m]) && Moved(mem, mem2, n2)
    ensures n2[n[s.m]] in mem2 && mem2[n2[n[s.m]]].Dict? && Apart(s, Then(n, n2), mem2)
  {
    DictParts(mem, mem2, n2, n[s.m]);
    hide Moved, DictOk;
    var t := Then(n, n2);
    assert Injective(n2) by { MovedInjective(mem, mem2, n2); }
    forall a | a in t && a !in Owned(s.mem, s.m) ensures t[a] !in Owned(mem2, t[s.m]) {
      assert n[a] !in Owned(mem, n[s.m]);
    }
  }

  lemma MovedInjective(m0: Mem, m1: Mem, n: Names)
    requires Moved(m0, m1, n)
    ensures Injective(n) && n.Values <= m1.Keys
  {
  }

  ghost predicate Apart'(s: Start, n: Names, mem: Mem) {
    s.m in s.mem && s.mem[s.m].Dict? && s.m in n && n[s.m] in mem && mem[n[s.m]].Dict? && Apart(s, n, mem)
  }

  lemma MovedClosed(m0: Mem, m1: Mem, n: Names)
    requires Moved(m0, m1, n)
    ensures Closed(m1)
  {
  }

  /** A relocation that keeps the handles and the roots keeps the insertion going. */
  lemma GoingMoves(s: Start, n: Names, mem: Mem, hs: seq<Addr>, roots: seq<Val>, mem2: Mem, n2: Names)
    requires Going(s, n, mem, hs, roots) && Moved(mem, mem2, n2) && AllIn(n2.Keys, hs) && AllWithin(n2.Keys, roots)
    ensures Going(s, Then(n, n2), mem2, RenAll(n2, hs), RenVals(n2, roots))
  {
    var t, k := Then(n, n2), |s.hs|;
    assert hs[k] == n[s.m] && hs[k] in n2;
    MovedClosed(mem, mem2, n2);
    TracksMoved(s.mem, mem, n, Owned(s.mem, s.m), mem2, n2);
    hide Tracks, DictOk, Moved, Closed, Apart, Entries, RenEntries, AllWithin, Begun;
    DictMoves(mem, mem2, n2, n[s.m]);
    RenEntriesThen(n, n2, Entries(s.mem, s.m));
    RenValsThen(n, n2, s.roots);
    RootedMoves(s, n, hs, n2);
    ApartMoves(s, n, mem, mem2, n2);
    HandlesMove(mem, mem2, n2, hs);
  }

  lemma HandlesMove(mem: Mem, mem2: Mem, n2: Names, hs: seq<Addr>)
    requires Moved(mem, mem2, n2) && AllIn(n2.Keys, hs)
    ensures AllIn(mem2.Keys, RenAll(n2, hs))
  {
    forall i | 0 <= i < |hs| ensures RenAll(n2, hs)[i] in mem2 { assert n2[hs[i]] in n2.Values; }
  }

  // ---- writes nobody else sees -----------------------------------------------------------------------

  /** No write to a text, and none to the map's own objects. */
  predicate Keeps(mem: Mem, mem2: Mem, m: Addr)
    requires m in mem && mem[m].Dict?
  {
    mem.Keys <= mem2.Keys && (forall a :: a in mem && (mem[a].Str? || mem[a].Bytes?) ==> mem2[a] == mem[a]) && forall a :: a in Owned(mem, m) && a in mem ==> mem2[a] == mem[a]
  }

  lemma TextKept(mem: Mem, mem2: Mem, m: Addr, v: Val)
    requires m in mem && mem[m].Dict? && Keeps(mem, mem2, m) && IsText(mem, v)
    ensures IsText(mem2, v) && TextOf(mem2, v) == TextOf(mem, v)
  {
  }

  lemma DictKept(mem: Mem, mem2: Mem, m: Addr)
    requires DictOk(mem, m) && Keeps(mem, mem2, m)
    ensures DictOk(mem2, m) && Entries(mem2, m) == Entries(mem, m) && Owned(mem2, m) == Owned(mem, m)
  {
    var d := mem[m];
    assert m in Owned(mem, m) && mem2[m] == d;
    assert Block(mem2, d.keys) == Block(mem, d.keys) && Block(mem2, d.vals) == Block(mem, d.vals);
    forall i | 0 <= i < d.len
      ensures IsText(mem2, Block(mem, d.keys)[i]) && TextOf(mem2, Block(mem, d.keys)[i]) == TextOf(mem, Block(mem, d.keys)[i])
    {
      TextKept(mem, mem2, m, Block(mem, d.keys)[i]);
    }
    hide Keeps, IsText, TextOf;
    assert Shape(mem2, m);
    assert Entries(mem2, m) == Entries(mem, m);
  }

  /** An object the insertion has made and nobody else knows of. */
  ghost predicate Spare(s: Start, n: Names, mem: Mem, a: Addr) {
    a in mem && a !in n.Values && s.m in n && n[s.m] in mem && mem[n[s.m]].Dict? && a !in Owned(mem, n[s.m])
  }

  /** A new object, or new contents for a block of its own. */
  lemma GoingWrites(s: Start, n: Names, mem: Mem, hs: seq<Addr>, roots: seq<Val>, b: Addr, c: Cell)
    requires Going(s, n, mem, hs, roots) && AllWithin(mem.Keys, Kids(c))
    requires b !in mem || (Spare(s, n, mem, b) && mem[b].Slots?)
    ensures Going(s, n, mem[b := c], hs, roots) && Spare(s, n, mem[b := c], b)
  {
    var mem2, m := mem[b := c], n[s.m];
    OwnedIn(mem, m);
    assert Keeps(mem, mem2, m);
    DictKept(mem, mem2, m);
    NotFollowed(s, n, mem, b);
    TracksWritten(s.mem, mem, n, Owned(s.mem, s.m), b, c);
    ClosedWritten(mem, b, c);
    hide Tracks, DictOk, Closed, Entries, RenEntries, Begun, Rooted, Keeps, Kids;
  }

  lemma OwnedIn(mem: Mem, m: Addr)
    requires DictOk(mem, m)
    ensures Owned(mem, m) <= mem.Keys
  {
  }

  lemma NotFollowed(s: Start, n: Names, mem: Mem, b: Addr)
    requires DictOk(s.mem, s.m) && Same(s, n, mem) && (b !in mem || Spare(s, n, mem, b))
    ensures b !in n.Values && forall a {:trigger n[a]} :: a in n ==> n[a] != b
  {
    if b !in mem {
      forall a | a in n ensures n[a] != b { assert n[a] in mem; }
    } else {
      forall a | a in n ensures n[a] != b { assert n[a] in n.Values; }
    }
  }

  lemma ClosedWritten(mem: Mem, b: Addr, c: Cell)
    requires Closed(mem) && AllWithin(mem.Keys, Kids(c))
    ensures Closed(mem[b := c])
  {
    var mem2 := mem[b := c];
    forall a | a in mem2 ensures AllWithin(mem2.Keys, Kids(mem2[a])) {
      if a != b { assert AllWithin(mem.Keys, Kids(mem[a])); }
    }
  }

  /** A spare object moves with the rest. */
  lemma SpareMoves(s: Start, n: Names, mem: Mem, a: Addr, mem2: Mem, n2: Names)
    requires Begun(s) && Same(s, n, mem) && Spare(s, n, mem, a) && Moved(mem, mem2, n2) && a in n2 && n[s.m] in n2
    ensures Spare(s, Then(n, n2), mem2, n2[a]) && mem2[n2[a]] == RenCell(n2, mem[a])
  {
    var t := Then(n, n2);
    DictParts(mem, mem2, n2, n[s.m]);
    MovedInjective(mem, mem2, n2);
    assert mem2[n2[a]] == RenCell(n2, mem[a]);
    hide Moved, DictOk, Tracks, Same, Begun;
    forall b | b in t ensures t[b] != n2[a] {
      assert n[b] in n.Values;
    }
  }

  lemma HandleMore(s: Start, n: Names, mem: Mem, hs: seq<Addr>, roots: seq<Val>, a: Addr)
    requires Going(s, n, mem, hs, roots) && a in mem
    ensures Going(s, n, mem, hs + [a], roots)
  {
    var hs2, k := hs + [a], |s.hs|;
    assert hs2[..k] == hs[..k];
    hide Same, Begun;
  }

  // ---- the map's own objects -----------------------------------------------------------------------

  /** The two blocks replaced by larger ones with the same first entries. */
  lemma GoingGrows(s: Start, n: Names, mem: Mem, hs: seq<Addr>, roots: seq<Val>, nk: Addr, nv: Addr, cap: nat)
    requires Going(s, n, mem, hs, roots) && Spare(s, n, mem, nk) && Spare(s, n, mem, nv) && nk != nv
    requires mem[nk].Slots? && mem[nv].Slots? && |mem[nk].data| == |mem[nv].data| == cap
    requires var d := mem[n[s.m]]; cap > 0 && cap >= d.len && mem[nk].data[..d.len] == Block(mem, d.keys)[..d.len] && mem[nv].data[..d.len] == Block(mem, d.vals)[..d.len]
    ensures var d := mem[n[s.m]]; Going(s, n, mem[n[s.m] := Dict(d.len, cap, O.Ptr(nk), O.Ptr(nv))], hs, roots)
  {
    var m := n[s.m];
    var d := mem[m];
    var mem2 := mem[m := Dict(d.len, cap, O.Ptr(nk), O.Ptr(nv))];
    assert s.m in Owned(s.mem, s.m);
    InjectiveAt(s, n, mem);
    TracksWritten(s.mem, mem, n, Owned(s.mem, s.m), m, mem2[m]);
    ClosedWritten(mem, m, mem2[m]);
    GrownDict(mem, m, nk, nv, cap);
    GrownApart(s, n, mem, nk, nv, cap);
    hide Tracks, DictOk, Closed, Entries, RenEntries, Begun, Rooted, Apart, Owned;
  }

  lemma InjectiveAt(s: Start, n: Names, mem: Mem)
    requires Begun(s) && Same(s, n, mem)
    ensures forall a {:trigger n[a]} :: a in n && n[a] == n[s.m] ==> a in Owned(s.mem, s.m)
  {
  }

  lemma GrownApart(s: Start, n: Names, mem: Mem, nk: Addr, nv: Addr, cap: nat)
    requires Begun(s) && Same(s, n, mem) && Spare(s, n, mem, nk) && Spare(s, n, mem, nv)
    ensures Apart'(s, n, mem[n[s.m] := Dict(mem[n[s.m]].len, cap, O.Ptr(nk), O.Ptr(nv))])
  {
    InjectiveAt(s, n, mem);
    forall a | a in n ensures n[a] in n.Values {}
    hide DictOk, Tracks, Closed;
  }

  lemma GrownDict(mem: Mem, m: Addr, nk: Addr, nv: Addr, cap: nat)
    requires DictOk(mem, m) && nk in mem && nv in mem && nk != m && nv != m && nk != nv && cap > 0 && cap >= mem[m].len
    requires mem[nk].Slots? && mem[nv].Slots? && |mem[nk].data| == |mem[nv].data| == cap
    requires var d := mem[m]; mem[nk].data[..d.len] == Block(mem, d.keys)[..d.len] && mem[nv].data[..d.len] == Block(mem, d.vals)[..d.len]
    ensures var mem2 := mem[m := Dict(mem[m].len, cap, O.Ptr(nk), O.Ptr(nv))]; DictOk(mem2, m) && Entries(mem2, m) == Entries(mem, m)
  {
    var d := mem[m];
    var mem2 := mem[m := Dict(d.len, cap, O.Ptr(nk), O.Ptr(nv))];
    forall i | 0 <= i < d.len
      ensures mem[nk].data[i] == Block(mem, d.keys)[i] && mem[nv].data[i] == Block(mem, d.vals)[i]
      ensures IsText(mem2, mem[nk].data[i]) && TextOf(mem2, mem[nk].data[i]) == TextOf(mem, mem[nk].data[i])
    {
      assert mem[nk].data[..d.len][i] == Block(mem, d.keys)[..d.len][i];
      assert mem[nv].data[..d.len][i] == Block(mem, d.vals)[..d.len][i];
    }
    hide IsText, TextOf;
    assert Shape(mem2, m);
    assert Entries(mem2, m) == Entries(mem, m);
  }

  // ---- the end ----------------------------------------------------------------------------------------

  /** The map now has the entries `es`, renamed; everything else the caller can reach is as it
      was, renamed; the handles are the caller's. */
  ghost predicate Ended(s: Start, n: Names, mem: Mem, hs: seq<Addr>, roots: seq<Val>, es: seq<OM.Entry<Val>>) {
    && Begun(s) && Closed(mem) && Tracks(s.mem, mem, n, Owned(s.mem, s.m)) && s.m in n && DictOk(mem, n[s.m])
    && Entries(mem, n[s.m]) == RenEntries(n, es) && EntriesWithin(n.Keys, es) && Apart'(s, n, mem)
    && AllIn(n.Keys, s.hs) && hs == RenAll(n, s.hs) && AllWithin(n.Keys, s.roots) && roots == RenVals(n, s.roots)
  }

  /** Giving up leaves the map as it was. */
  lemma EndsUnchanged(s: Start, n: Names, mem: Mem, hs: seq<Addr>, roots: seq<Val>)
    requires Going(s, n, mem, hs, roots)
    ensures |hs| >= |s.hs| && Ended(s, n, mem, hs[..|s.hs|], roots, Entries(s.mem, s.m))
  {
    hide Tracks, Shape, Closed, Entries, RenEntries;
    BlocksAre(s.mem, s.m);
    BlocksAre(mem, n[s.m]);
  }

  /** A new last entry. */
  lemma PushedDict(mem: Mem, m: Addr, ks: Addr, key: OM.Key, v: Val)
    requires DictOk(mem, m) && mem[m].len < mem[m].cap && IsText(mem, O.Ptr(ks)) && TextOf(mem, O.Ptr(ks)) == key
    requires !OM.Has(Entries(mem, m), key)
    ensures var d := mem[m];
            d.keys.Ptr? && d.vals.Ptr? &&
            var mem1 := mem[d.keys.ref := Slots(Block(mem, d.keys)[d.len := O.Ptr(ks)])];
            var mem2 := mem1[d.vals.ref := Slots(Block(mem, d.vals)[d.len := v])];
            var mem3 := mem2[m := Dict(d.len + 1, d.cap, d.keys, d.vals)];
            DictOk(mem3, m) && Entries(mem3, m) == Entries(mem, m) + [(key, v)] && Owned(mem3, m) == Owned(mem, m)
  {
    var d := mem[m];
    var mem1 := mem[d.keys.ref := Slots(Block(mem, d.keys)[d.len := O.Ptr(ks)])];
    var mem2 := mem1[d.vals.ref := Slots(Block(mem, d.vals)[d.len := v])];
    var mem3 := mem2[m := Dict(d.len + 1, d.cap, d.keys, d.vals)];
    var es := Entries(mem, m);
    forall i | 0 <= i < d.len + 1
      ensures IsText(mem3, Block(mem3, d.keys)[i]) && TextOf(mem3, Block(mem3, d.keys)[i]) == if i < d.len then es[i].0 else key
    {
      var t := if i < d.len then Block(mem, d.keys)[i] else O.Ptr(ks);
      assert IsText(mem, t) && Block(mem3, d.keys)[i] == t;
      TextUntouched(mem, mem3, t);
    }
    hide IsText, TextOf;
    assert Shape(mem3, m);
    assert Entries(mem3, m) == es + [(key, v)];
    forall i | 0 <= i < d.len ensures es[i].0 != key {}
  }

  lemma TextUntouched(mem: Mem, mem2: Mem, v: Val)
    requires IsText(mem, v) && forall a :: a in mem && (mem[a].Str? || mem[a].Bytes?) ==> a in mem2 && mem2[a] == mem[a]
    ensures IsText(mem2, v) && TextOf(mem2, v) == TextOf(mem, v)
  {
  }

  /** An entry's value replaced. */
  lemma ReplacedDict(mem: Mem, m: Addr, j: nat, v: Val)
    requires DictOk(mem, m) && j < mem[m].len
    ensures var d := mem[m];
            d.vals.Ptr? &&
            var mem2 := mem[d.vals.ref := Slots(Block(mem, d.vals)[j := v])];
            DictOk(mem2, m) && Entries(mem2, m) == Entries(mem, m)[j := (Entries(mem, m)[j].0, v)] && Owned(mem2, m) == Owned(mem, m)
  {
    var d := mem[m];
    var mem2 := mem[d.vals.ref := Slots(Block(mem, d.vals)[j := v])];
    forall i | 0 <= i < d.len
      ensures IsText(mem2, Block(mem2, d.keys)[i]) && TextOf(mem2, Block(mem2, d.keys)[i]) == TextOf(mem, Block(mem, d.keys)[i])
    {
      TextUntouched(mem, mem2, Block(mem, d.keys)[i]);
    }
    hide IsText, TextOf;
    assert Shape(mem2, m);
    assert Entries(mem2, m) == Entries(mem, m)[j := (Entries(mem, m)[j].0, v)];
  }

  /** Writing to the map's own objects. */
  lemma OwnWritten(s: Start, n: Names, mem: Mem, b: Addr, c: Cell)
    requires Begun(s) && s.m in n && Tracks(s.mem, mem, n, Owned(s.mem, s.m)) && Closed(mem) && AllWithin(mem.Keys, Kids(c))
    requires forall a {:trigger n[a]} :: a in n && n[a] == b ==> a in Owned(s.mem, s.m)
    ensures Tracks(s.mem, mem[b := c], n, Owned(s.mem, s.m)) && Closed(mem[b := c])
  {
    TracksWritten(s.mem, mem, n, Owned(s.mem, s.m), b, c);
    ClosedWritten(mem, b, c);
  }

  lemma OwnNames(s: Start, n: Names, mem: Mem, b: Addr)
    requires Begun(s) && Same(s, n, mem) && b in Owned(mem, n[s.m])
    ensures forall a {:trigger n[a]} :: a in n && n[a] == b ==> a in Owned(s.mem, s.m)
  {
  }

  lemma RenEntriesPut(n: Names, es: seq<OM.Entry<Val>>, key: OM.Key, v: Val)
    requires !OM.Has(es, key)
    ensures OM.Put(es, key, v) == es + [(key, v)] && RenEntries(n, es + [(key, v)]) == RenEntries(n, es) + [(key, RenVal(n, v))]
    ensures !OM.Has(RenEntries(n, es), key)
  {
    OM.HasFound(es, key);
    hide OM.Find;
    forall i | 0 <= i < |es| ensures RenEntries(n, es)[i].0 != key { assert es[i].0 != key; }
  }

  /** The key and the value stored behind the last entry, wherever they are now. */
  lemma EndsPushed(s: Start, n: Names, mem: Mem, hs: seq<Addr>, roots: seq<Val>, ks: Addr, key: OM.Key, v: Val)
    requires Going(s, n, mem, hs, roots) && mem[n[s.m]].len < mem[n[s.m]].cap && !OM.Has(Entries(s.mem, s.m), key)
    requires IsText(mem, O.Ptr(ks)) && TextOf(mem, O.Ptr(ks)) == key && v == RenVal(n, s.v)
    ensures var m := n[s.m];
            var d := mem[m];
            d.keys.Ptr? && d.vals.Ptr? && |hs| >= |s.hs| &&
            var mem1 := mem[d.keys.ref := Slots(Block(mem, d.keys)[d.len := O.Ptr(ks)])];
            var mem2 := mem1[d.vals.ref := Slots(Block(mem, d.vals)[d.len := v])];
            var mem3 := mem2[m := Dict(d.len + 1, d.cap, d.keys, d.vals)];
            Ended(s, n, mem3, hs[..|s.hs|], roots, OM.Put(Entries(s.mem, s.m), key, s.v))
  {
    var m := n[s.m];
    var d := mem[m];
    var es := Entries(s.mem, s.m);
    RenEntriesPut(n, es, key, s.v);
    PushedDict(mem, m, ks, key, v);
    var c1, c2, c3 := Slots(Block(mem, d.keys)[d.len := O.Ptr(ks)]), Slots(Block(mem, d.vals)[d.len := v]), Dict(d.len + 1, d.cap, d.keys, d.vals);
    var mem1 := mem[d.keys.ref := c1];
    var mem2 := mem1[d.vals.ref := c2];
    OwnNames(s, n, mem, d.keys.ref);
    OwnNames(s, n, mem, d.vals.ref);
    OwnNames(s, n, mem, m);
    BlockKids(mem, d.keys, d.cap);
    BlockKids(mem, d.vals, d.cap);
    ValueNow(s, n, mem, hs, roots);
    OwnWritten(s, n, mem, d.keys.ref, c1);
    OwnWritten(s, n, mem1, d.vals.ref, c2);
    OwnWritten(s, n, mem2, m, c3);
    hide Tracks, DictOk, Closed, Entries, RenEntries, OM.Put, Owned;
  }

  lemma BlockKids(mem: Mem, b: Val, cap: int)
    requires Closed(mem) && IsBlock(mem, b, cap)
    ensures AllWithin(mem.Keys, Block(mem, b))
  {
    if b.Ptr? { assert AllWithin(mem.Keys, Kids(mem[b.ref])); }
  }

  lemma ValueNow(s: Start, n: Names, mem: Mem, hs: seq<Addr>, roots: seq<Val>)
    requires Going(s, n, mem, hs, roots)
    ensures Within(mem.Keys, RenVal(n, s.v))
  {
    hide DictOk, Entries;
  }

  /** The value of an existing key replaced in place. */
  lemma EndsReplaced(s: Start, j: nat)
    requires Begun(s) && j < |Entries(s.mem, s.m)|
    ensures var d := s.mem[s.m];
            d.vals.Ptr? && var mem2 := s.mem[d.vals.ref := Slots(Block(s.mem, d.vals)[j := s.v])];
            Ended(s, Identity(s.mem.Keys), mem2, s.hs, s.roots, Entries(s.mem, s.m)[j := (Entries(s.mem, s.m)[j].0, s.v)])
  {
    hide Tracks, Shape, Closed, Entries, RenEntries, Owned, Same, Going, Rooted, Apart, Block, AllIn, AllWithin, RenAll, RenVals, Identity;
    var n := Identity(s.mem.Keys);
    var hs := s.hs + [s.m] + (if s.v.Ptr? then [s.v.ref] else []);
    var es := Entries(s.mem, s.m);
    Starts(s, hs);
    GoingParts(s, n, s.mem, hs, s.roots);
    IdentityRenames(s, es[j := (es[j].0, s.v)]);
    ReplacedDict(s.mem, s.m, j, s.v);
    BlocksAre(s.mem, s.m);
    var d := s.mem[s.m];
    ReplacedKids(s, j);
    OwnWritten(s, n, s.mem, d.vals.ref, Slots(Block(s.mem, d.vals)[j := s.v]));
    ReplacedApart(s, j);
  }

  lemma ReplacedApart(s: Start, j: nat)
    requires Begun(s) && j < |Entries(s.mem, s.m)| && s.mem[s.m].vals.Ptr?
    ensures var d, n := s.mem[s.m], Identity(s.mem.Keys);
            EntriesWithin(n.Keys, Entries(s.mem, s.m)[j := (Entries(s.mem, s.m)[j].0, s.v)]) &&
            j < |Block(s.mem, d.vals)| && Apart'(s, n, s.mem[d.vals.ref := Slots(Block(s.mem, d.vals)[j := s.v])])
  {
    var d := s.mem[s.m];
    BlockKids(s.mem, d.vals, d.cap);
    assert forall i :: 0 <= i < d.len ==> Within(s.mem.Keys, Block(s.mem, d.vals)[i]);
  }

  lemma GoingParts(s: Start, n: Names, mem: Mem, hs: seq<Addr>, roots: seq<Val>)
    requires Going(s, n, mem, hs, roots)
    ensures Begun(s) && Same(s, n, mem) && s.m in n && Tracks(s.mem, mem, n, Owned(s.mem, s.m)) && Closed(mem) && AllIn(n.Keys, s.hs)
    ensures AllWithin(n.Keys, s.roots) && roots == RenVals(n, s.roots)
  {
    hide Tracks, DictOk, Closed, Entries, RenEntries, Owned;
  }

  lemma IdentityRenames(s: Start, es: seq<OM.Entry<Val>>)
    requires s.m in s.mem
    ensures var n := Identity(s.mem.Keys); n[s.m] == s.m && RenEntries(n, es) == es && RenAll(n, s.hs) == s.hs && RenVals(n, s.roots) == s.roots
  {
    var n := Identity(s.mem.Keys);
    assert RenEntries(n, es) == es && RenAll(n, s.hs) == s.hs && RenVals(n, s.roots) == s.roots;
  }

  lemma ReplacedKids(s: Start, j: nat)
    requires Begun(s) && j < |Entries(s.mem, s.m)|
    ensures var d := s.mem[s.m];
            d.vals.Ptr? && j < |Block(s.mem, d.vals)| && AllWithin(s.mem.Keys, Kids(Slots(Block(s.mem, d.vals)[j := s.v]))) &&
            forall a {:trigger Identity(s.mem.Keys)[a]} :: a in s.mem && Identity(s.mem.Keys)[a] == d.vals.ref ==> a in Owned(s.mem, s.m)
  {
    BlockKids(s.mem, s.mem[s.m].vals, s.mem[s.m].cap);
  }

  /** What a step of the insertion can rely on. */
  lemma GoingFacts(s: Start, n: Names, mem: Mem, hs: seq<Addr>, roots: seq<Val>)
    requires Going(s, n, mem, hs, roots)
    ensures DictOk(s.mem, s.m) && s.m in n && n[s.m] in mem && DictOk(mem, n[s.m]) && mem[n[s.m]].Dict? && 0 <= mem[n[s.m]].len <= mem[n[s.m]].cap
    ensures Entries(mem, n[s.m]) == RenEntries(n, Entries(s.mem, s.m)) && Closed(mem) && AllIn(mem.Keys, hs) && Begun(s) && Same(s, n, mem)
    ensures |hs| >= |s.hs| + (if s.v.Ptr? then 2 else 1) && hs[|s.hs|] == n[s.m] && Within(n.Keys, s.v)
    ensures s.v.Ptr? ==> s.v.ref in n && hs[|s.hs| + 1] == n[s.v.ref]
    ensures RenVal(n, s.v) == if s.v.Ptr? then O.Ptr(hs[|s.hs| + 1]) else s.v
    ensures AllWithin(mem.Keys, roots)
  {
    RootsHere(s, n, mem, hs, roots);
    hide Tracks, Closed, Entries, RenEntries;
  }

  lemma RootsHere(s: Start, n: Names, mem: Mem, hs: seq<Addr>, roots: seq<Val>)
    requires Going(s, n, mem, hs, roots)
    ensures AllWithin(mem.Keys, roots)
  {
    forall i | 0 <= i < |roots| ensures Within(mem.Keys, roots[i]) {
      assert Within(n.Keys, s.roots[i]);
      if s.roots[i].Ptr? { assert n[s.roots[i].ref] in mem; }
    }
    hide DictOk, Entries;
  }

  lemma EndedFacts(s: Start, n: Names, mem: Mem, hs: seq<Addr>, roots: seq<Val>, es: seq<OM.Entry<Val>>)
    requires Ended(s, n, mem, hs, roots, es)
    ensures Closed(mem) && AllIn(mem.Keys, hs) && AllWithin(mem.Keys, roots)
  {
    forall i | 0 <= i < |hs| ensures hs[i] in mem {
      assert s.hs[i] in n && n[s.hs[i]] in mem;
    }
    forall i | 0 <= i < |roots| ensures Within(mem.Keys, roots[i]) {
      assert Within(n.Keys, s.roots[i]);
      if s.roots[i].Ptr? { assert n[s.roots[i].ref] in mem; }
    }
    hide DictOk, Entries;
  }

  // ---- several insertions in a row ----------------------------------------------------------------------

  /** Two stretches of following are one, if the second one disturbs nothing of the first. */
  lemma TracksThen(m0: Mem, m1: Mem, m2: Mem, n1: Names, n2: Names, skip: set<Addr>)
    requires Tracks(m0, m1, n1, {}) && Tracks(m1, m2, n2, skip) && n1.Values !! skip
    ensures Tracks(m0, m2, Then(n1, n2), {})
  {
    hide RenCell, Kids, AllWithin;
    var n := Then(n1, n2);
    forall a, b | a in n && b in n && n[a] == n[b] ensures a == b {
      assert n2[n1[a]] == n2[n1[b]];
    }
    forall a | a in n ensures n[a] in m2 && m2[n[a]] == RenCell(n, m0[a]) && AllWithin(n.Keys, Kids(m0[a])) {
      assert m1[n1[a]] == RenCell(n1, m0[a]) && n1[a] in n1.Values;
      assert m2[n2[n1[a]]] == RenCell(n2, m1[n1[a]]);
      RenCellThen(n1, n2, m0[a]);
    }
  }

  lemma MovedTracks(m0: Mem, m1: Mem, n: Names)
    requires Moved(m0, m1, n)
    ensures Tracks(m0, m1, n, {})
  {
  }

  /** A map object that is followed is the same map, its values renamed. */
  lemma DictTracked(m0: Mem, m1: Mem, n: Names, m: Addr)
    requires DictOk(m0, m) && Tracks(m0, m1, n, {}) && Closed(m1) && m in n
    ensures DictOk(m1, n[m]) && Entries(m1, n[m]) == RenEntries(n, Entries(m0, m)) && EntriesWithin(n.Keys, Entries(m0, m))
  {
    assert n.Values <= m1.Keys;
    assert Moved(m0, m1, n);
    DictMoves(m0, m1, n, m);
  }

  /** What has been followed is none of the map's own, before and after an insertion. */
  lemma ApartThen(s: Start, n1: Names, n2: Names, mem: Mem)
    requires Apart'(s, n2, mem) && n1.Values !! Owned(s.mem, s.m)
    ensures Then(n1, n2).Values !! Owned(mem, n2[s.m])
  {
    var n := Then(n1, n2);
    forall a | a in n ensures n[a] !in Owned(mem, n2[s.m]) {
      assert n1[a] in n1.Values;
      assert n2[n1[a]] !in Owned(mem, n2[s.m]);
    }
  }

  /** Renaming and putting in commute. */
  lemma RenPut(n: Names, es: seq<OM.Entry<Val>>, key: OM.Key, v: Val)
    ensures RenEntries(n, OM.Put(es, key, v)) == OM.Put(RenEntries(n, es), key, RenVal(n, v))
  {
    var es' := RenEntries(n, es);
    var j := OM.Find(es, key);
    assert forall i :: 0 <= i < |es| ==> es'[i].0 == es[i].0;
    OM.FindIs(es', key, j);
    assert RenEntries(n, OM.Put(es, key, v)) == OM.Put(es', key, RenVal(n, v));
  }

  lemma PutWithin(s: set<Addr>, es: seq<OM.Entry<Val>>, key: OM.Key, v: Val)
    requires EntriesWithin(s, es) && Within(s, v)
    ensures EntriesWithin(s, OM.Put(es, key, v))
  {
  }

  /** A merge under way: the new map at handle `|hs|`, everything of the start followed and
      apart from it. */
  ghost predicate Merging(m0: Mem, hs0: seq<Addr>, cells0: seq<Val>, mem: Mem, hs: seq<Addr>, cells: seq<Val>, n: Names, es: seq<OM.Entry<Val>>) {
    var k := |hs0|;
    && Closed(mem) && Tracks(m0, mem, n, {}) && |hs| == k + 1 && AllIn(n.Keys, hs0) && hs[..k] == RenAll(n, hs0) && AllIn(mem.Keys, hs)
    && AllWithin(n.Keys, cells0) && cells == RenVals(n, cells0) && AllWithin(mem.Keys, cells)
    && DictOk(mem, hs[k]) && Entries(mem, hs[k]) == RenEntries(n, es) && EntriesWithin(n.Keys, es) && n.Values !! Owned(mem, hs[k])
  }

  /** One more entry. */
  lemma MergesOn(m0: Mem, hs0: seq<Addr>, cells0: seq<Val>, mem: Mem, hs: seq<Addr>, cells: seq<Val>, n: Names, es: seq<OM.Entry<Val>>,
                 key: OM.Key, v: Val, mem2: Mem, hs2: seq<Addr>, cells2: seq<Val>, n2: Names)
    requires Merging(m0, hs0, cells0, mem, hs, cells, n, es) && Within(n.Keys, v)
    requires var s := Start(mem, hs[|hs0|], RenVal(n, v), hs, cells); Ended(s, n2, mem2, hs2, cells2, OM.Put(Entries(mem, hs[|hs0|]), key, RenVal(n, v)))
    ensures Merging(m0, hs0, cells0, mem2, hs2, cells2, Then(n, n2), OM.Put(es, key, v))
  {
    var k, t := |hs0|, Then(n, n2);
    var s := Start(mem, hs[k], RenVal(n, v), hs, cells);
    TracksThen(m0, mem, mem2, n, n2, Owned(mem, hs[k]));
    ApartThen(s, n, n2, mem2);
    RenPut(n, es, key, v);
    PutWithin(n.Keys, es, key, v);
    MergedEntries(n, n2, OM.Put(es, key, v));
    MergedRoots(n, n2, hs0, cells0, hs, cells);
    EndedFacts(s, n2, mem2, hs2, cells2, OM.Put(Entries(mem, hs[k]), key, RenVal(n, v)));
    hide Tracks, DictOk, Closed, Entries, RenEntries, OM.Put, Owned, Begun, Then, AllWithin, AllIn, RenVals;
  }

  /** An insertion that gave up. */
  lemma MergeHalts(m0: Mem, hs0: seq<Addr>, cells0: seq<Val>, mem: Mem, hs: seq<Addr>, cells: seq<Val>, n: Names, es: seq<OM.Entry<Val>>,
                   v: Val, mem2: Mem, hs2: seq<Addr>, cells2: seq<Val>, n2: Names)
    requires Merging(m0, hs0, cells0, mem, hs, cells, n, es)
    requires var s := Start(mem, hs[|hs0|], RenVal(n, v), hs, cells); Ended(s, n2, mem2, hs2, cells2, Entries(mem, hs[|hs0|]))
    ensures Merging(m0, hs0, cells0, mem2, hs2, cells2, Then(n, n2), es)
  {
    var k, t := |hs0|, Then(n, n2);
    var s := Start(mem, hs[k], RenVal(n, v), hs, cells);
    TracksThen(m0, mem, mem2, n, n2, Owned(mem, hs[k]));
    ApartThen(s, n, n2, mem2);
    MergedEntries(n, n2, es);
    MergedRoots(n, n2, hs0, cells0, hs, cells);
    EndedFacts(s, n2, mem2, hs2, cells2, Entries(mem, hs[k]));
    hide Tracks, DictOk, Closed, Entries, RenEntries, Owned, Begun, Then, AllWithin, AllIn, RenVals;
  }

  /** What a merge can rely on: the new map, and a source map read through its root. */
  lemma MergeFacts(m0: Mem, hs0: seq<Addr>, cells0: seq<Val>, mem: Mem, hs: seq<Addr>, cells: seq<Val>, n: Names, es: seq<OM.Entry<Val>>, i: nat)
    requires Merging(m0, hs0, cells0, mem, hs, cells, n, es) && i < |cells0| && cells0[i].Ptr? && DictOk(m0, cells0[i].ref)
    ensures |cells| == |cells0| && |hs| == |hs0| + 1 && DictOk(mem, hs[|hs0|]) && Closed(mem) && AllIn(mem.Keys, hs) && AllWithin(mem.Keys, cells)
    ensures var a := cells0[i].ref;
            a in n && cells[i] == O.Ptr(n[a]) && DictOk(mem, n[a]) && Entries(mem, n[a]) == RenEntries(n, Entries(m0, a)) && EntriesWithin(n.Keys, Entries(m0, a))
  {
    assert Within(n.Keys, cells0[i]);
    DictTracked(m0, mem, n, cells0[i].ref);
    hide Tracks, DictOk, Closed, Entries, RenEntries, Owned;
  }

  lemma MergeStarts(m0: Mem, hs0: seq<Addr>, cells0: seq<Val>, mem: Mem, hs: seq<Addr>, cells: seq<Val>, n: Names, a: Addr)
    requires Moved(m0, mem, n) && AllIn(n.Keys, hs0) && AllWithin(n.Keys, cells0) && hs == RenAll(n, hs0) && cells == RenVals(n, cells0)
    requires a in mem && a !in n.Values && mem[a] == Dict(0, 0, O.Null, O.Null) && AllIn(mem.Keys, hs) && AllWithin(mem.Keys, cells)
    ensures Merging(m0, hs0, cells0, mem, hs + [a], cells, n, [])
  {
    MovedTracks(m0, mem, n);
    MovedClosed(m0, mem, n);
    hide Tracks, Closed;
    assert Shape(mem, a) && Entries(mem, a) == [] && RenEntries(n, []) == [];
    assert (hs + [a])[..|hs0|] == hs;
  }

  lemma MergedEntries(n1: Names, n2: Names, es: seq<OM.Entry<Val>>)
    requires EntriesWithin(n1.Keys, es) && EntriesWithin(n2.Keys, RenEntries(n1, es))
    ensures RenEntries(n2, RenEntries(n1, es)) == RenEntries(Then(n1, n2), es) && EntriesWithin(Then(n1, n2).Keys, es)
  {
    RenEntriesThen(n1, n2, es);
  }

  lemma MergedRoots(n1: Names, n2: Names, hs0: seq<Addr>, cells0: seq<Val>, hs: seq<Addr>, cells: seq<Val>)
    requires |hs| == |hs0| + 1 && AllIn(n1.Keys, hs0) && hs[..|hs0|] == RenAll(n1, hs0) && AllIn(n2.Keys, hs)
    requires AllWithin(n1.Keys, cells0) && cells == RenVals(n1, cells0) && AllWithin(n2.Keys, cells)
    ensures AllIn(Then(n1, n2).Keys, hs0) && RenAll(n2, hs)[..|hs0|] == RenAll(Then(n1, n2), hs0) && RenAll(n2, hs)[|hs0|] == n2[hs[|hs0|]]
    ensures AllWithin(Then(n1, n2).Keys, cells0) && RenVals(n2, cells) == RenVals(Then(n1, n2), cells0)
  {
    RenValsThen(n1, n2, cells0);
    var k := |hs0|;
    forall i | 0 <= i < k ensures hs0[i] in Then(n1, n2) && RenAll(n2, hs)[i] == Then(n1, n2)[hs0[i]] {
      assert hs[i] == hs[..k][i] == n1[hs0[i]];
    }
    assert RenAll(n2, hs)[..k] == RenAll(Then(n1, n2), hs0);
    assert hs[k] in n2;
  }
}
