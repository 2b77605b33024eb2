/** A heap whose every allocation may move everything that is still reachable, drop the rest,
    or fail: the two-step allocators and the string-keyed map over it. */
module MovingHeapModel {
  import opened Relocation
  import opened Following
  import O = Objects
  import OM = OrderedMap

  /** What one allocation does: where the surviving objects go, the place for the new one,
      and whether there is room for it. */
  datatype Move = Move(to: Names, at: Addr, fails: bool)

  datatype Opt<T> = None | Some(v: T)

  /** A collection may do this: it keeps the roots and whatever the survivors point to, no
      two objects meet, and the new place is free. */
  predicate Legit(mv: Move, mem: Mem, hs: seq<Addr>, roots: seq<Val>) {
    && mv.to.Keys <= mem.Keys && Injective(mv.to) && mv.at !in mv.to.Values
    && (forall a :: a in mv.to ==> AllWithin(mv.to.Keys, Kids(mem[a])))
    && AllIn(mv.to.Keys, hs) && AllWithin(mv.to.Keys, roots)
  }

  /** The survivors at their new places. */
  function Survivors(mem: Mem, to: Names): Mem
    requires to.Keys <= mem.Keys && Injective(to)
  {
    map a | a in to :: to[a] := RenCell(to, mem[a])
  }

  lemma SurvivorsMoved(mv: Move, mem: Mem, hs: seq<Addr>, roots: seq<Val>)
    requires Legit(mv, mem, hs, roots)
    ensures Moved(mem, Survivors(mem, mv.to), mv.to) && mv.at !in Survivors(mem, mv.to)
  {
    var m1 := Survivors(mem, mv.to);
    assert m1.Keys == mv.to.Values;
    forall b | b in m1 ensures AllWithin(m1.Keys, Kids(m1[b])) {
      var a :| a in mv.to && mv.to[a] == b;
      RenamedKids(mv.to, mem[a], m1.Keys);
    }
  }

  /** Two relocations are one. */
  lemma MovedThen(m0: Mem, m1: Mem, m2: Mem, n1: Names, n2: Names)
    requires Moved(m0, m1, n1) && Moved(m1, m2, n2)
    ensures Moved(m0, m2, Then(n1, n2))
  {
    hide RenCell, Kids, AllWithin, Closed;
    var n := Then(n1, n2);
    forall a, b | a in n && b in n && n[a] == n[b] ensures a == b {
      assert n2[n1[a]] == n2[n1[b]];
    }
    forall a | a in n ensures n[a] in m2 && m2[n[a]] == RenCell(n, m0[a]) && AllWithin(n.Keys, Kids(m0[a])) {
      assert m1[n1[a]] == RenCell(n1, m0[a]);
      RenCellThen(n1, n2, m0[a]);
    }
    forall b | b in n.Values ensures b in m2 {}
  }

  /** An object added at a free place. */
  lemma MovedPlus(m0: Mem, m1: Mem, n: Names, b: Addr, c: Cell)
    requires Moved(m0, m1, n) && b !in m1 && AllWithin(m1.Keys, Kids(c))
    ensures Moved(m0, m1[b := c], n) && b !in n.Values
  {
    ClosedWritten(m1, b, c);
    hide RenCell, Kids, AllWithin, Closed;
  }

  lemma RenAllThen(n1: Names, n2: Names, hs: seq<Addr>)
    requires AllIn(n1.Keys, hs) && AllIn(n2.Keys, RenAll(n1, hs))
    ensures RenAll(n2, RenAll(n1, hs)) == RenAll(Then(n1, n2), hs) && AllIn(Then(n1, n2).Keys, hs)
  {
    forall i | 0 <= i < |hs| ensures hs[i] in Then(n1, n2) && RenAll(n2, RenAll(n1, hs))[i] == RenAll(Then(n1, n2), hs)[i] {
      assert RenAll(n1, hs)[i] in n2;
    }
  }

  function Nils(n: nat): (vs: seq<Val>)
    ensures |vs| == n && forall i :: 0 <= i < n ==> vs[i] == O.Null
  {
    seq(n, _ => O.Null)
  }

  /** What every allocation promises: memory, handles and roots moved together, and the new
      object is none of the old ones. */
  ghost predicate Allocated(m0: Mem, hs0: seq<Addr>, cells0: seq<Val>, mem: Mem, hs: seq<Addr>, cells: seq<Val>, n: Names) {
    Moved(m0, mem, n) && AllIn(n.Keys, hs0) && AllWithin(n.Keys, cells0) && hs == RenAll(n, hs0) && cells == RenVals(n, cells0)
  }

  class MovingHeap {
    const oracle: nat -> Move
    var mem: Mem
    var handles: seq<Addr>
    var cells: seq<Val>
    var count: nat
    var overCap: bool

    /** No pointer dangles. */
    ghost predicate Valid()
      reads this
    {
      Closed(mem) && AllIn(mem.Keys, handles) && AllWithin(mem.Keys, cells)
    }

    constructor (oracle: nat -> Move)
      ensures this.oracle == oracle && Valid() && mem == map[] && handles == [] && cells == []
    {
      this.oracle := oracle;
      mem, handles, cells, count, overCap := map[], [], [], 0, false;
    }

    // ---- handles ------------------------------------------------------------------------------

    /** HandleScope::root: the index of the new handle within the scope that began at `mark`. */
    method Root(mark: nat, a: Addr) returns (i: nat)
      requires Valid() && mark <= |handles| && a in mem
      modifies this`handles
      ensures Valid() && handles == old(handles) + [a] && i == |old(handles)| - mark
    {
      i := |handles| - mark;
      handles := handles + [a];
    }

    /** HandleScope::get: wherever the object is now. */
    function Get(mark: nat, i: nat): Addr
      requires mark + i < |handles|
      reads this
    {
      handles[mark + i]
    }

    /** The end of a scope. */
    method Release(mark: nat)
      requires Valid() && mark <= |handles|
      modifies this`handles
      ensures Valid() && handles == old(handles)[..mark]
    {
      handles := handles[..mark];
    }

    // ---- allocation --------------------------------------------------------------------------------

    /** A safepoint: everything may move, and there may be no room. */
    method Bump() returns (at: Opt<Addr>, ghost n: Names)
      requires Valid()
      modifies this
      ensures Valid() && Allocated(old(mem), old(handles), old(cells), mem, handles, cells, n)
      ensures at.Some? ==> at.v !in mem
      ensures overCap == (old(overCap) || at.None?)
    {
      var mv := oracle(count);
      count := count + 1;
      if Legit(mv, mem, handles, cells) {
        SurvivorsMoved(mv, mem, handles, cells);
        Carried(mem, Survivors(mem, mv.to), handles, cells, mv.to);
        n := mv.to;
        mem, handles, cells := Survivors(mem, mv.to), RenAll(mv.to, handles), RenVals(mv.to, cells);
        at := if mv.fails then None else Some(mv.at);
        overCap := overCap || mv.fails;
      } else {
        n := Identity(mem.Keys);
        IdentityMoves(mem);
        assert RenAll(n, handles) == handles && RenVals(n, cells) == cells;
        at := None;
        overCap := true;
      }
    }

    method NewSlots(size: nat) returns (a: Opt<Addr>, ghost n: Names)
      requires Valid()
      modifies this
      ensures Valid() && Allocated(old(mem), old(handles), old(cells), mem, handles, cells, n)
      ensures overCap == (old(overCap) || a.None?)
      ensures a.Some? ==> a.v in mem && a.v !in n.Values && mem[a.v] == Slots(Nils(size))
    {
      hide Closed, Allocated, AllIn;
      a, n := Bump();
      if a.Some? { Put(a.v, Slots(Nils(size)), old(mem), old(handles), old(cells), n); }
    }

    method NewBytes(text: seq<int>) returns (a: Opt<Addr>, ghost n: Names)
      requires Valid()
      modifies this
      ensures Valid() && Allocated(old(mem), old(handles), old(cells), mem, handles, cells, n)
      ensures overCap == (old(overCap) || a.None?)
      ensures a.Some? ==> a.v in mem && a.v !in n.Values && mem[a.v] == Bytes(text)
    {
      hide Closed, Allocated, AllIn, AllWithin;
      a, n := Bump();
      if a.Some? { Put(a.v, Bytes(text), old(mem), old(handles), old(cells), n); }
    }

    /** The new object's fields are written at its place. */
    method Put(a: Addr, c: Cell, ghost m0: Mem, ghost hs0: seq<Addr>, ghost cells0: seq<Val>, ghost n: Names)
      requires Valid() && a !in mem && AllWithin(mem.Keys, Kids(c)) && Allocated(m0, hs0, cells0, mem, handles, cells, n)
      modifies this`mem
      ensures Valid() && mem == old(mem)[a := c] && Allocated(m0, hs0, cells0, mem, handles, cells, n) && a !in n.Values
    {
      MovedPlus(m0, mem, n, a, c);
      ClosedWritten(mem, a, c);
      mem := mem[a := c];
    }

    /** A first object is kept by a handle while a second one that owns it is allocated. */
    method Second(first: Addr, ghost m0: Mem, ghost hs0: seq<Addr>, ghost cells0: seq<Val>, ghost n1: Names)
      returns (at: Opt<Addr>, inner: Addr, ghost n: Names, ghost n2: Names)
      requires Valid() && first in mem && first !in n1.Values && Allocated(m0, hs0, cells0, mem, handles, cells, n1)
      modifies this
      ensures Valid() && Allocated(m0, hs0, cells0, mem, handles, cells, n)
      ensures overCap == (old(overCap) || at.None?)
      ensures at.Some? ==> at.v !in mem && inner in mem && inner !in n.Values && mem[inner] == RenCell(n2, old(mem[first]))
    {
      ghost var m1, hs1, cells1 := mem, handles, cells;
      var mark := |handles|;
      var i := Root(mark, first);
      at, n2 := Bump();
      inner := Get(mark, i);
      n := Then(n1, n2);
      Kept(m0, m1, mem, n1, n2, hs0, hs1, cells0, cells1, first, handles, cells);
      Release(mark);
    }

    /** new_string: the bytes first, then the object that owns them. */
    method NewString(text: seq<int>) returns (a: Opt<Addr>, ghost n: Names)
      requires Valid()
      modifies this
      ensures Valid() && Allocated(old(mem), old(handles), old(cells), mem, handles, cells, n)
      ensures overCap == (old(overCap) || a.None?)
      ensures a.Some? ==> a.v in mem && a.v !in n.Values && IsText(mem, O.Ptr(a.v)) && TextOf(mem, O.Ptr(a.v)) == text
    {
      hide Closed, Allocated, AllIn;
      var b;
      b, n := NewBytes(text);
      if b.None? {
        return None, n;
      }
      var inner;
      ghost var n2;
      a, inner, n, n2 := Second(b.v, old(mem), old(handles), old(cells), n);
      if a.Some? { Put(a.v, Str(|text|, O.Ptr(inner)), old(mem), old(handles), old(cells), n); }
    }

    /** new_array: `len` nils and the object that owns them. */
    method NewArray(len: nat) returns (a: Opt<Addr>, ghost n: Names)
      requires Valid()
      modifies this
      ensures Valid() && Allocated(old(mem), old(handles), old(cells), mem, handles, cells, n)
      ensures overCap == (old(overCap) || a.None?)
      ensures a.Some? ==> a.v in mem && a.v !in n.Values && mem[a.v].Arr? && mem[a.v].len == mem[a.v].cap == len &&
                          mem[a.v].slots.Ptr? && Block(mem, mem[a.v].slots) == Nils(len)
    {
      hide Closed, Allocated, AllIn;
      var b;
      b, n := NewSlots(len);
      if b.None? {
        return None, n;
      }
      var inner;
      ghost var n2;
      a, inner, n, n2 := Second(b.v, old(mem), old(handles), old(cells), n);
      if a.Some? {
        NilsStay(n2, len);
        Put(a.v, Arr(len, len, O.Ptr(inner)), old(mem), old(handles), old(cells), n);
      }
    }

    /** new_closure: the captured values' slots, and the function value over them. */
    method NewClosure(func: nat, upvals: nat) returns (a: Opt<Addr>, ghost n: Names)
      requires Valid()
      modifies this
      ensures Valid() && Allocated(old(mem), old(handles), old(cells), mem, handles, cells, n)
      ensures overCap == (old(overCap) || a.None?)
      ensures a.Some? ==> a.v in mem && a.v !in n.Values && mem[a.v].Clo? && mem[a.v].func == func &&
                          mem[a.v].upvals.Ptr? && Block(mem, mem[a.v].upvals) == Nils(upvals)
    {
      hide Closed, Allocated, AllIn;
      var b;
      b, n := NewSlots(upvals);
      if b.None? {
        return None, n;
      }
      var inner;
      ghost var n2;
      a, inner, n, n2 := Second(b.v, old(mem), old(handles), old(cells), n);
      if a.Some? {
        NilsStay(n2, upvals);
        Put(a.v, Clo(func, O.Ptr(inner)), old(mem), old(handles), old(cells), n);
      }
    }

    /** new_iter: over an array that is kept by a handle meanwhile. */
    method NewIter(arr: Addr) returns (a: Opt<Addr>, ghost n: Names)
      requires Valid() && arr in mem && mem[arr].Arr?
      modifies this
      ensures Valid() && Allocated(old(mem), old(handles), old(cells), mem, handles, cells, n)
      ensures overCap == (old(overCap) || a.None?)
      ensures arr in n
      ensures a.Some? ==> a.v in mem && a.v !in n.Values && mem[a.v] == Cursor(0, old(mem)[arr].len, O.Ptr(n[arr]))
    {
      ghost var hs := handles + [arr];
      var mark := |handles|;
      var i := Root(mark, arr);
      a, n := Bump();
      Scoped(old(mem), old(handles), old(cells), arr, mem, handles, cells, n);
      var kept := Get(mark, i);
      assert mem[n[arr]] == RenCell(n, old(mem)[arr]);
      Release(mark);
      if a.Some? { Put(a.v, Cursor(0, mem[kept].len, O.Ptr(kept)), old(mem), old(handles), old(cells), n); }
    }

    method NewMap() returns (a: Opt<Addr>, ghost n: Names)
      requires Valid()
      modifies this
      ensures Valid() && Allocated(old(mem), old(handles), old(cells), mem, handles, cells, n)
      ensures overCap == (old(overCap) || a.None?)
      ensures a.Some? ==> a.v in mem && a.v !in n.Values && mem[a.v] == Dict(0, 0, O.Null, O.Null)
    {
      hide Closed, Allocated, AllIn;
      a, n := Bump();
      if a.Some? { Put(a.v, Dict(0, 0, O.Null, O.Null), old(mem), old(handles), old(cells), n); }
    }

    // ---- maps ----------------------------------------------------------------------------------------

    /** map_find, map_index: the first slot with the key's bytes, or -1. */
    method Find(m: Addr, key: OM.Key) returns (j: int)
      requires DictOk(mem, m)
      ensures var es := Entries(mem, m); if OM.Find(es, key) < |es| then j == OM.Find(es, key) else j == -1
    {
      var d := mem[m];
      ghost var es := Entries(mem, m);
      j := 0;
      while j < d.len
        invariant 0 <= j <= d.len && forall i :: 0 <= i < j ==> es[i].0 != key
      {
        var k := Block(mem, d.keys)[j];
        assert es[j].0 == TextOf(mem, k);
        if mem[k.ref].len == |key| && TextOf(mem, k) == key {
          OM.FindIs(es, key, j);
          return;
        }
        j := j + 1;
      }
      OM.FindIs(es, key, |es|);
      j := -1;
    }

    /** map_set, map_put: overwrites in place, or makes room, makes the key and appends. Where
        an allocation fails the map keeps its entries. */
    method MapSet(m: Addr, key: OM.Key, v: Val) returns (ok: bool, ghost n: Names)
      requires Valid() && DictOk(mem, m) && Within(mem.Keys, v)
      modifies this
      ensures overCap == (old(overCap) || !ok)
      ensures Valid()
      ensures var s := Start(old(mem), m, v, old(handles), old(cells));
              Ended(s, n, mem, handles, cells, if ok then OM.Put(Entries(s.mem, m), key, v) else Entries(s.mem, m))
    {
      hide Closed, Going, Entries, AllWithin, AllIn, Shape, Tracks, Ended, OM.Put;
      ghost var s := Start(mem, m, v, handles, cells);
      ghost var es := Entries(mem, m);
      var j := Find(m, key);
      if j >= 0 {
        n := Identity(mem.Keys);
        ReplacesAt(es, key, v, j);
        EndsReplaced(s, j);
        BlocksAre(mem, m);
        var d := mem[m];
        mem := mem[d.vals.ref := Slots(Block(mem, d.vals)[j := v])];
        EndedFacts(s, n, mem, handles, cells, OM.Put(es, key, v));
        return true, n;
      }
      OM.HasFound(es, key);
      BlocksAre(mem, m);
      var mark := |handles|;
      var mi := Root(mark, m);
      if v.Ptr? {
        var vi := Root(mark, v.ref);
      }
      Starts(s, handles);
      ok, n := Insert(key, v, mark, s, Identity(mem.Keys));
      Release(mark);
      EndedFacts(s, n, mem, handles, cells, if ok then OM.Put(es, key, v) else es);
    }

    /** The key is new: the map is handle 0 of the scope at `mark`, the value handle 1. */
    method Insert(key: OM.Key, v: Val, mark: nat, ghost s: Start, ghost n0: Names) returns (ok: bool, ghost n: Names)
      requires Valid() && Going(s, n0, mem, handles, cells) && v == s.v && mark == |s.hs| && |handles| == mark + (if v.Ptr? then 2 else 1)
      requires Begun(s) && !OM.Has(Entries(s.mem, s.m), key)
      modifies this
      ensures overCap == (old(overCap) || !ok)
      ensures Valid() && mark <= |handles|
      ensures Ended(s, n, mem, handles[..mark], cells, if ok then OM.Put(Entries(s.mem, s.m), key, v) else Entries(s.mem, s.m))
    {
      hide Closed, Going, Ended, Entries, OM.Put, AllWithin, AllIn, Shape, IsText, TextOf, Same, Allocated, Tracks, Begun;
      n := n0;
      BegunDict(s);
      GoingFacts(s, n, mem, handles, cells);
      var m := Get(mark, 0);
      if mem[m].len == mem[m].cap {
        ok, n := Grow(mark, s, n);
        GoingFacts(s, n, mem, handles, cells);
        if !ok {
          EndsUnchanged(s, n, mem, handles, cells);
          return;
        }
      }
      ghost var was, hs, roots := mem, handles, cells;
      GoingFacts(s, n, mem, handles, cells);
      var ks;
      ghost var n2;
      ks, n2 := NewString(key);
      GoingAllocated(s, n, was, hs, roots, mem, handles, cells, n2);
      AllocatedMoved(was, hs, roots, mem, handles, cells, n2);
      SizeKept(s, n, was, hs, roots, mem, n2);
      n := Then(n, n2);
      GoingFacts(s, n, mem, handles, cells);
      if ks.None? {
        EndsUnchanged(s, n, mem, handles, cells);
        return false, n;
      }
      var w := if v.Ptr? then O.Ptr(Get(mark, 1)) else v;
      Append(Get(mark, 0), ks.v, key, w, s, n);
      ok := true;
    }

    /** The key and the value in the next free place. */
    method Append(m: Addr, ks: Addr, key: OM.Key, w: Val, ghost s: Start, ghost n: Names)
      requires Valid() && Going(s, n, mem, handles, cells) && s.m in n && m == n[s.m] && m in mem && mem[m].Dict? && mem[m].len < mem[m].cap
      requires Begun(s) && !OM.Has(Entries(s.mem, s.m), key) && IsText(mem, O.Ptr(ks)) && TextOf(mem, O.Ptr(ks)) == key && w == RenVal(n, s.v)
      modifies this`mem
      ensures Valid() && |s.hs| <= |handles| && Ended(s, n, mem, handles[..|s.hs|], cells, OM.Put(Entries(s.mem, s.m), key, s.v))
    {
      hide Closed, Going, Entries, OM.Put, AllWithin, AllIn, Shape, IsText, TextOf, Tracks;
      GoingFacts(s, n, mem, handles, cells);
      var d := mem[m];
      BlocksAre(mem, m);
      EndsPushed(s, n, mem, handles, cells, ks, key, w);
      var keys, vals := Block(mem, d.keys), Block(mem, d.vals);
      PushKeeps(mem, m, handles, cells, ks, w);
      mem := mem[d.keys.ref := Slots(keys[d.len := O.Ptr(ks)])];
      mem := mem[d.vals.ref := Slots(vals[d.len := w])];
      mem := mem[m := Dict(d.len + 1, d.cap, d.keys, d.vals)];
    }

    /** Twice the room: two new blocks, each kept by a handle, then the entries copied over. */
    method Grow(mark: nat, ghost s: Start, ghost n0: Names) returns (ok: bool, ghost n: Names)
      requires Valid() && Going(s, n0, mem, handles, cells) && mark == |s.hs| && |handles| == mark + (if s.v.Ptr? then 2 else 1)
      requires s.m in n0 && n0[s.m] in mem && mem[n0[s.m]].Dict? && mem[n0[s.m]].len == mem[n0[s.m]].cap
      modifies this
      ensures overCap == (old(overCap) || !ok)
      ensures Valid() && Going(s, n, mem, handles, cells)
      ensures ok ==> s.m in n && n[s.m] in mem && mem[n[s.m]].Dict? && mem[n[s.m]].len < mem[n[s.m]].cap
    {
      hide Closed, Going, Entries, AllWithin, AllIn, DictOk, Spare, Same, Begun, Allocated;
      GoingFacts(s, n0, mem, handles, cells);
      var m := Get(mark, 0);
      var newcap := if mem[m].cap != 0 then 2 * mem[m].cap else 4;
      ghost var room := newcap - mem[m].len;
      ok, n := RootedSlots(newcap, s, n0);
      if !ok {
        return;
      }
      var ki := |handles| - mark - 1;
      ghost var n1 := n;
      ok, n := SecondSlots(mark, ki, newcap, s, n1);
      GoingFacts(s, n, mem, handles, cells);
      if ok { CopyOver(Get(mark, 0), Get(mark, ki), Get(mark, ki + 1), newcap, s, n); }
    }

    /** A block of slots, kept by a handle. */
    method RootedSlots(size: nat, ghost s: Start, ghost n0: Names) returns (ok: bool, ghost n: Names)
      requires Valid() && Going(s, n0, mem, handles, cells)
      modifies this
      ensures overCap == (old(overCap) || !ok)
      ensures Valid() && Going(s, n, mem, handles, cells) && SameSize(s, n0, old(mem), n, mem)
      ensures ok ==> |handles| == |old(handles)| + 1 && Spare(s, n, mem, handles[|old(handles)|]) && mem[handles[|old(handles)|]] == Slots(Nils(size))
    {
      hide Closed, Going, AllWithin, AllIn, Spare, Moved;
      ghost var was, hs, roots := mem, handles, cells;
      var a;
      ghost var n2;
      a, n2 := NewSlots(size);
      GoingAllocated(s, n0, was, hs, roots, mem, handles, cells, n2);
      SizeKept(s, n0, was, hs, roots, mem, n2);
      n := Then(n0, n2);
      ok := a.Some?;
      if ok {
        FreshIsSpare(s, n0, was, hs, roots, mem, n2, a.v);
        HandleMore(s, n, mem, handles, cells, a.v);
        var i := Root(0, a.v);
      }
    }

    /** A second block; the first one may move meanwhile. */
    method SecondSlots(mark: nat, ki: nat, size: nat, ghost s: Start, ghost n0: Names) returns (ok: bool, ghost n: Names)
      requires Valid() && Going(s, n0, mem, handles, cells) && mark + ki + 1 == |handles|
      requires Spare(s, n0, mem, handles[mark + ki]) && mem[handles[mark + ki]] == Slots(Nils(size))
      modifies this
      ensures overCap == (old(overCap) || !ok)
      ensures Valid() && Going(s, n, mem, handles, cells) && SameSize(s, n0, old(mem), n, mem)
      ensures ok ==>
                |handles| == mark + ki + 2 && handles[mark + ki] != handles[mark + ki + 1] &&
                handles[mark + ki] in mem && handles[mark + ki + 1] in mem &&
                Spare(s, n, mem, handles[mark + ki]) && Spare(s, n, mem, handles[mark + ki + 1]) &&
                mem[handles[mark + ki]] == mem[handles[mark + ki + 1]] == Slots(Nils(size))
    {
      hide Closed, Going, AllWithin, AllIn, Spare, Moved;
      ghost var was, hs, roots := mem, handles, cells;
      var a;
      ghost var n2;
      a, n2 := NewSlots(size);
      GoingAllocated(s, n0, was, hs, roots, mem, handles, cells, n2);
      SizeKept(s, n0, was, hs, roots, mem, n2);
      n := Then(n0, n2);
      ok := a.Some?;
      if ok {
        FreshIsSpare(s, n0, was, hs, roots, mem, n2, a.v);
        KeptIsSpare(s, n0, was, hs, roots, mem, handles, n2, mark + ki);
        NilsStay(n2, size);
        HandleMore(s, n, mem, handles, cells, a.v);
        var i := Root(mark, a.v);
      }
    }

    /** The first entries copied to the new blocks, and the blocks hung in. */
    method CopyOver(m: Addr, nk: Addr, nv: Addr, newcap: nat, ghost s: Start, ghost n: Names)
      requires Valid() && Going(s, n, mem, handles, cells) && s.m in n && m == n[s.m] && nk != nv
      requires Spare(s, n, mem, nk) && Spare(s, n, mem, nv) && nk in mem && nv in mem && mem[nk] == mem[nv] == Slots(Nils(newcap))
      requires m in mem && mem[m].Dict? && mem[m].len <= newcap && newcap > 0
      modifies this`mem
      ensures Valid() && Going(s, n, mem, handles, cells)
      ensures m in mem && mem[m].Dict? && mem[m].len == old(mem)[m].len && mem[m].cap == newcap
    {
      hide Closed, Going, Entries, AllWithin, AllIn, DictOk, Spare, Same, Begun;
      GoingFacts(s, n, mem, handles, cells);
      BlocksAre(mem, m);
      var d := mem[m];
      var keys, vals := Block(mem, d.keys), Block(mem, d.vals);
      var i := 0;
      assert mem[nk].data[..0] == keys[..0] && mem[nv].data[..0] == vals[..0];
      while i < d.len
        invariant 0 <= i <= d.len && Going(s, n, mem, handles, cells) && Valid()
        invariant Spare(s, n, mem, nk) && Spare(s, n, mem, nv) && m in mem && mem[m] == d && Block(mem, d.keys) == keys && Block(mem, d.vals) == vals
        invariant nk in mem && mem[nk].Slots? && |mem[nk].data| == newcap && mem[nk].data[..i] == keys[..i]
        invariant nv in mem && mem[nv].Slots? && |mem[nv].data| == newcap && mem[nv].data[..i] == vals[..i]
      {
        CopySlot(m, d.keys, nk, nv, i, s, n);
        CopySlot(m, d.vals, nv, nk, i, s, n);
        assert mem[nk].data[..i + 1] == keys[..i] + [keys[i]] == keys[..i + 1];
        assert mem[nv].data[..i + 1] == vals[..i] + [vals[i]] == vals[..i + 1];
        i := i + 1;
      }
      GoingGrows(s, n, mem, handles, cells, nk, nv, newcap);
      mem := mem[m := Dict(d.len, newcap, O.Ptr(nk), O.Ptr(nv))];
      GoingFacts(s, n, mem, handles, cells);
    }

    /** to.data[i] = from.data[i]. */
    method CopySlot(m: Addr, from: Val, to: Addr, other: Addr, i: nat, ghost s: Start, ghost n: Names)
      requires Valid() && Going(s, n, mem, handles, cells) && s.m in n && m == n[s.m] && to != other && m in mem && mem[m].Dict?
      requires Spare(s, n, mem, to) && Spare(s, n, mem, other) && to in mem && mem[to].Slots? && i < |mem[to].data|
      requires (from == mem[m].keys || from == mem[m].vals) && i < |Block(mem, from)|
      modifies this`mem
      ensures Valid() && Going(s, n, mem, handles, cells) && Spare(s, n, mem, to) && Spare(s, n, mem, other)
      ensures to in old(mem) && mem == old(mem)[to := Slots(old(mem)[to].data[i := Block(old(mem), from)[i]])]
      ensures m in mem && mem[m] == old(mem)[m]
      ensures Block(mem, mem[m].keys) == Block(old(mem), mem[m].keys) && Block(mem, mem[m].vals) == Block(old(mem), mem[m].vals)
    {
      hide Going, Entries, Same, Begun, DictOk, AllIn;
      GoingFacts(s, n, mem, handles, cells);
      SlotWithin(mem, to, from, i);
      SpareApart(s, n, mem, to);
      var c := Slots(mem[to].data[i := Block(mem, from)[i]]);
      GoingWrites(s, n, mem, handles, cells, to, c);
      mem := mem[to := c];
      GoingFacts(s, n, mem, handles, cells);
    }

    /** merge: a new map with the entries of two maps, which are read through their root cells
        again for every entry. */
    method Merge(i0: nat, i1: nat) returns (r: Opt<Addr>, ghost n: Names)
      requires Valid() && i0 < |cells| && i1 < |cells| && cells[i0].Ptr? && cells[i1].Ptr?
      requires DictOk(mem, cells[i0].ref) && DictOk(mem, cells[i1].ref)
      modifies this
      ensures Valid() && Tracks(old(mem), mem, n, {})
      ensures AllIn(n.Keys, old(handles)) && handles == RenAll(n, old(handles)) && AllWithin(n.Keys, old(cells)) && cells == RenVals(n, old(cells))
      ensures r.None? ==> overCap
      ensures r.Some? ==>
                r.v in mem && r.v !in n.Values && DictOk(mem, r.v) &&
                var e0, e1 := Entries(old(mem), old(cells[i0].ref)), Entries(old(mem), old(cells[i1].ref));
                Entries(mem, r.v) == RenEntries(n, OM.PutAll(OM.PutAll([], e0), e1))
    {
      hide Closed, Moved, Merging, Shape, AllWithin, AllIn, OM.PutAll, Tracks, Entries;
      ghost var m0, hs0, cells0 := mem, handles, cells;
      ghost var e0, e1 := Entries(mem, cells[i0].ref), Entries(mem, cells[i1].ref);
      r, n := NewMap();
      if r.None? {
        AllocatedMoved(m0, hs0, cells0, mem, handles, cells, n);
        MovedTracks(m0, mem, n);
        return;
      }
      MergeStarts(m0, hs0, cells0, mem, handles, cells, n, r.v);
      var mark := |handles|;
      var mi := Root(mark, r.v);
      var ok;
      ghost var es;
      ok, n, es := MergeFrom(i0, mark, m0, hs0, cells0, n, []);
      if ok {
        ok, n, es := MergeFrom(i1, mark, m0, hs0, cells0, n, es);
      }
      MergeEnds(m0, hs0, cells0, mem, handles, cells, n, es);
      r := if ok then Some(Get(mark, mi)) else None;
      Release(mark);
    }

    /** The entries of one source, from the first on. */
    method MergeFrom(src: nat, mark: nat, ghost m0: Mem, ghost hs0: seq<Addr>, ghost cells0: seq<Val>, ghost n0: Names, ghost es0: seq<OM.Entry<Val>>)
      returns (ok: bool, ghost n: Names, ghost es: seq<OM.Entry<Val>>)
      requires Valid() && Merging(m0, hs0, cells0, mem, handles, cells, n0, es0) && mark == |hs0|
      requires src < |cells0| && cells0[src].Ptr? && DictOk(m0, cells0[src].ref)
      modifies this
      ensures Valid() && Merging(m0, hs0, cells0, mem, handles, cells, n, es)
      ensures !ok ==> overCap
      ensures ok ==> es == OM.PutAll(es0, Entries(m0, cells0[src].ref))
    {
      hide Closed, Merging, Shape, AllWithin, AllIn, OM.PutAll, OM.Put, Tracks, Entries, Ended;
      ghost var from := Entries(m0, cells0[src].ref);
      n, es := n0, es0;
      MergeFacts(m0, hs0, cells0, mem, handles, cells, n, es, src);
      BlocksAre(mem, cells[src].ref);
      var len := mem[cells[src].ref].len;
      var i := 0;
      NonePut(es0, from);
      while i < len
        invariant 0 <= i <= len == |from| && Valid() && Merging(m0, hs0, cells0, mem, handles, cells, n, es)
        invariant es == OM.PutAll(es0, from[..i])
      {
        MergeFacts(m0, hs0, cells0, mem, handles, cells, n, es, src);
        EntryAt(mem, cells[src].ref, n, from, i);
        var source := mem[cells[src].ref];
        var key, v := TextOf(mem, Block(mem, source.keys)[i]), Block(mem, source.vals)[i];
        ghost var was, hs, roots := mem, handles, cells;
        var put;
        ghost var n2;
        put, n2 := MapSet(Get(mark, 0), key, v);
        if put {
          MergesOn(m0, hs0, cells0, was, hs, roots, n, es, key, from[i].1, mem, handles, cells, n2);
          OnePut(es0, from, i);
          es := OM.Put(es, key, from[i].1);
        } else {
          MergeHalts(m0, hs0, cells0, was, hs, roots, n, es, from[i].1, mem, handles, cells, n2);
        }
        n := Then(n, n2);
        if overCap {
          return false, n, es;
        }
        i := i + 1;
      }
      assert from[..i] == from;
      ok := true;
    }

    /** remove_key: the entries behind the key move up by one. */
    method RemoveKey(m: Addr, key: OM.Key) returns (removed: bool)
      requires Valid() && DictOk(mem, m)
      modifies this`mem
      ensures Valid() && DictOk(old(mem), m) && DictOk(mem, m)
      ensures removed == OM.Has(Entries(old(mem), m), key) && Entries(mem, m) == OM.Remove(Entries(old(mem), m), key)
      ensures mem.Keys == old(mem).Keys && forall a :: a in mem && a !in Owned(old(mem), m) ==> mem[a] == old(mem)[a]
    {
      hide Closed, Entries, AllWithin, AllIn, Shape, Shifting;
      var j := Find(m, key);
      OM.HasFound(Entries(mem, m), key);
      if j < 0 {
        return false;
      }
      BlocksAre(mem, m);
      var d := mem[m];
      var keys, vals := Block(mem, d.keys), Block(mem, d.vals);
      var i := j;
      ShiftStarts(mem, m, j);
      while i + 1 < d.len
        invariant j <= i < d.len && Shifting(old(mem), mem, m, keys, vals, j, i)
      {
        ShiftFacts(old(mem), mem, m, keys, vals, j, i);
        ShiftStep(old(mem), mem, m, keys, vals, j, i);
        var ks, vs := Block(mem, d.keys), Block(mem, d.vals);
        mem := mem[d.keys.ref := Slots(ks[i := ks[i + 1]])];
        mem := mem[d.vals.ref := Slots(vs[i := vs[i + 1]])];
        i := i + 1;
      }
      ShiftEnds(old(mem), mem, m, key, keys, vals, j);
      mem := mem[m := Dict(d.len - 1, d.cap, d.keys, d.vals)];
      removed := true;
    }
  }

  lemma Carried(m0: Mem, m1: Mem, hs: seq<Addr>, cells: seq<Val>, n: Names)
    requires Moved(m0, m1, n) && AllIn(n.Keys, hs) && AllWithin(n.Keys, cells)
    ensures Closed(m1) && AllIn(m1.Keys, RenAll(n, hs)) && AllWithin(m1.Keys, RenVals(n, cells))
  {
    HandlesMove(m0, m1, n, hs);
    forall i | 0 <= i < |cells| ensures Within(m1.Keys, RenVals(n, cells)[i]) {
      assert Within(n.Keys, cells[i]);
      if cells[i].Ptr? { assert n[cells[i].ref] in n.Values; }
    }
  }

  lemma Kept(m0: Mem, m1: Mem, m2: Mem, n1: Names, n2: Names, hs0: seq<Addr>, hs1: seq<Addr>, cells0: seq<Val>, cells1: seq<Val>,
             first: Addr, hs2: seq<Addr>, cells2: seq<Val>)
    requires Allocated(m0, hs0, cells0, m1, hs1, cells1, n1) && Allocated(m1, hs1 + [first], cells1, m2, hs2, cells2, n2)
    requires first in m1 && first !in n1.Values
    ensures |hs2| == |hs1| + 1 && Allocated(m0, hs0, cells0, m2, hs2[..|hs1|], cells2, Then(n1, n2))
    ensures hs2[|hs1|] in m2 && hs2[|hs1|] !in Then(n1, n2).Values && m2[hs2[|hs1|]] == RenCell(n2, m1[first])
  {
    var k, hs := |hs1|, hs1 + [first];
    assert hs[k] == first && hs[k] in n2;
    assert hs2[k] == n2[first];
    MovedThen(m0, m1, m2, n1, n2);
    assert forall i :: 0 <= i < k ==> hs[i] == hs1[i];
    assert AllIn(n2.Keys, hs1);
    assert hs2[..k] == RenAll(n2, hs1);
    RenAllThen(n1, n2, hs0);
    RenValsThen(n1, n2, cells0);
    var t := Then(n1, n2);
    assert Injective(n2);
    assert m2[n2[first]] == RenCell(n2, m1[first]);
    forall a | a in t ensures t[a] != n2[first] {
      assert n1[a] in n1.Values;
    }
  }

  lemma NilsStay(n: Names, len: nat)
    ensures RenCell(n, Slots(Nils(len))) == Slots(Nils(len))
  {
    assert RenVals(n, Nils(len)) == Nils(len);
  }

  lemma Scoped(m0: Mem, hs0: seq<Addr>, cells0: seq<Val>, first: Addr, m1: Mem, hs1: seq<Addr>, cells1: seq<Val>, n: Names)
    requires Allocated(m0, hs0 + [first], cells0, m1, hs1, cells1, n)
    ensures |hs1| == |hs0| + 1 && first in n && hs1[|hs0|] == n[first] && Allocated(m0, hs0, cells0, m1, hs1[..|hs0|], cells1, n)
  {
    var k, hs := |hs0|, hs0 + [first];
    assert hs[k] == first && forall i :: 0 <= i < k ==> hs[i] == hs0[i];
    assert hs[k] in n;
    assert hs1[..k] == RenAll(n, hs0);
  }

  lemma GoingAllocated(s: Start, n: Names, mem: Mem, hs: seq<Addr>, roots: seq<Val>, mem2: Mem, hs2: seq<Addr>, roots2: seq<Val>, n2: Names)
    requires Going(s, n, mem, hs, roots) && Allocated(mem, hs, roots, mem2, hs2, roots2, n2)
    ensures Going(s, Then(n, n2), mem2, hs2, roots2) && |hs2| == |hs|
  {
    hide Going, Moved;
    GoingMoves(s, n, mem, hs, roots, mem2, n2);
  }

  lemma AllocatedMoved(m0: Mem, hs0: seq<Addr>, cells0: seq<Val>, mem: Mem, hs: seq<Addr>, cells: seq<Val>, n: Names)
    requires Allocated(m0, hs0, cells0, mem, hs, cells, n)
    ensures Moved(m0, mem, n) && AllIn(n.Keys, hs0)
  {
  }

  /** The map object has the same length and capacity. */
  ghost predicate SameSize(s: Start, n: Names, mem: Mem, n': Names, mem': Mem) {
    && s.m in n && n[s.m] in mem && mem[n[s.m]].Dict? && s.m in n' && n'[s.m] in mem' && mem'[n'[s.m]].Dict?
    && mem'[n'[s.m]].len == mem[n[s.m]].len && mem'[n'[s.m]].cap == mem[n[s.m]].cap
  }

  lemma SizeKept(s: Start, n: Names, mem: Mem, hs: seq<Addr>, roots: seq<Val>, mem2: Mem, n2: Names)
    requires Going(s, n, mem, hs, roots) && Moved(mem, mem2, n2) && AllIn(n2.Keys, hs)
    ensures SameSize(s, n, mem, Then(n, n2), mem2)
  {
    GoingFacts(s, n, mem, hs, roots);
    assert hs[|s.hs|] in n2;
    DictParts(mem, mem2, n2, n[s.m]);
    hide Going, Moved, DictOk;
  }

  lemma BegunDict(s: Start)
    requires Begun(s)
    ensures DictOk(s.mem, s.m)
  {
  }

  /** The three writes keep the handles and the roots in memory. */
  lemma PushKeeps(mem: Mem, m: Addr, hs: seq<Addr>, cells: seq<Val>, ks: Addr, w: Val)
    requires AllIn(mem.Keys, hs) && AllWithin(mem.Keys, cells) && m in mem && mem[m].Dict? && mem[m].keys.Ptr? && mem[m].vals.Ptr?
    ensures forall mem3: Mem :: mem.Keys <= mem3.Keys ==> AllIn(mem3.Keys, hs) && AllWithin(mem3.Keys, cells)
  {
  }

  lemma NonePut(es: seq<OM.Entry<Val>>, fs: seq<OM.Entry<Val>>)
    ensures OM.PutAll(es, fs[..0]) == es
  {
  }

  lemma OnePut(es: seq<OM.Entry<Val>>, fs: seq<OM.Entry<Val>>, i: nat)
    requires i < |fs|
    ensures OM.PutAll(es, fs[..i + 1]) == OM.Put(OM.PutAll(es, fs[..i]), fs[i].0, fs[i].1)
  {
    hide OM.Put;
    var next := fs[..i + 1];
    assert next[..i] == fs[..i] && next[|next| - 1] == fs[i];
  }

  /** Entry `i` of a followed map: the key, and the value renamed. */
  lemma EntryAt(mem: Mem, m: Addr, n: Names, from: seq<OM.Entry<Val>>, i: nat)
    requires DictOk(mem, m) && Closed(mem) && Entries(mem, m) == RenEntries(n, from) && EntriesWithin(n.Keys, from) && i < |from|
    ensures m in mem && mem[m].Dict? && mem[m].len == |from| && i < |Block(mem, mem[m].keys)| && i < |Block(mem, mem[m].vals)|
    ensures IsText(mem, Block(mem, mem[m].keys)[i]) && TextOf(mem, Block(mem, mem[m].keys)[i]) == from[i].0
    ensures Block(mem, mem[m].vals)[i] == RenVal(n, from[i].1) && Within(n.Keys, from[i].1) && Within(mem.Keys, Block(mem, mem[m].vals)[i])
  {
    var d := mem[m];
    BlockKids(mem, d.vals, d.cap);
    hide IsText, TextOf, Closed;
    assert Entries(mem, m)[i] == RenEntries(n, from)[i];
  }

  lemma MergeEnds(m0: Mem, hs0: seq<Addr>, cells0: seq<Val>, mem: Mem, hs: seq<Addr>, cells: seq<Val>, n: Names, es: seq<OM.Entry<Val>>)
    requires Merging(m0, hs0, cells0, mem, hs, cells, n, es)
    ensures |hs| == |hs0| + 1 && Tracks(m0, mem, n, {}) && AllIn(n.Keys, hs0) && hs[..|hs0|] == RenAll(n, hs0)
    ensures AllWithin(n.Keys, cells0) && cells == RenVals(n, cells0)
    ensures hs[|hs0|] in mem && hs[|hs0|] !in n.Values && DictOk(mem, hs[|hs0|]) && Entries(mem, hs[|hs0|]) == RenEntries(n, es)
  {
    var a := hs[|hs0|];
    assert a in Owned(mem, a);
    hide Tracks, Closed, Entries, RenEntries;
  }

  lemma ReplacesAt(es: seq<OM.Entry<Val>>, key: OM.Key, v: Val, j: nat)
    requires j == OM.Find(es, key) && j < |es|
    ensures OM.Put(es, key, v) == es[j := (es[j].0, v)]
  {
  }

  /** A new object is nobody's. */
  lemma FreshIsSpare(s: Start, n: Names, mem: Mem, hs: seq<Addr>, roots: seq<Val>, mem2: Mem, n2: Names, a: Addr)
    requires Going(s, n, mem, hs, roots) && Moved(mem, mem2, n2) && AllIn(n2.Keys, hs) && a in mem2 && a !in n2.Values
    ensures Spare(s, Then(n, n2), mem2, a)
  {
    GoingFacts(s, n, mem, hs, roots);
    var m := n[s.m];
    assert m in n2 by { assert hs[|s.hs|] in n2; }
    DictParts(mem, mem2, n2, m);
    hide Going, Begun, Same, DictOk, Moved;
    var t := Then(n, n2);
    forall b | b in t ensures t[b] != a { assert n2[n[b]] in n2.Values; }
    assert n2[m] in n2.Values;
    var d := mem[m];
    if d.keys.Ptr? { assert n2[d.keys.ref] in n2.Values; }
    if d.vals.Ptr? { assert n2[d.vals.ref] in n2.Values; }
  }

  lemma KeptIsSpare(s: Start, n: Names, mem: Mem, hs: seq<Addr>, roots: seq<Val>, mem2: Mem, hs2: seq<Addr>, n2: Names, k: nat)
    requires Going(s, n, mem, hs, roots) && Moved(mem, mem2, n2) && AllIn(n2.Keys, hs) && hs2 == RenAll(n2, hs) && k < |hs| && Spare(s, n, mem, hs[k])
    ensures hs2[k] in mem2 && Spare(s, Then(n, n2), mem2, hs2[k]) && mem2[hs2[k]] == RenCell(n2, mem[hs[k]]) && hs2[k] in n2.Values
  {
    GoingFacts(s, n, mem, hs, roots);
    assert hs[|s.hs|] in n2 && hs[k] in n2;
    hide Going;
    SpareMoves(s, n, mem, hs[k], mem2, n2);
    assert n2[hs[k]] in n2.Values;
  }

  lemma SlotWithin(mem: Mem, to: Addr, from: Val, i: nat)
    requires Closed(mem) && to in mem && mem[to].Slots? && i < |mem[to].data| && i < |Block(mem, from)|
    ensures AllWithin(mem.Keys, Kids(Slots(mem[to].data[i := Block(mem, from)[i]])))
  {
    assert AllWithin(mem.Keys, Kids(mem[to])) && AllWithin(mem.Keys, Kids(mem[from.ref]));
  }

  lemma SpareApart(s: Start, n: Names, mem: Mem, a: Addr)
    requires Spare(s, n, mem, a)
    ensures var d := mem[n[s.m]]; a != n[s.m] && d.keys != O.Ptr(a) && d.vals != O.Ptr(a)
  {
  }

  // ---- taking an entry out ---------------------------------------------------------------------------

  /** The places from `j` to `i` hold what stood one further. */
  predicate Up(was: seq<Val>, now: seq<Val>, j: nat, i: nat) {
    |now| == |was| && i < |was| && forall k :: 0 <= k < |was| ==> now[k] == if j <= k < i then was[k + 1] else was[k]
  }

  lemma UpAt(was: seq<Val>, now: seq<Val>, j: nat, i: nat, k: nat)
    requires Up(was, now, j, i) && k < |was|
    ensures |now| == |was| && i < |was| && now[k] == if j <= k < i then was[k + 1] else was[k]
  {
  }

  lemma UpStep(was: seq<Val>, now: seq<Val>, j: nat, i: nat)
    requires Up(was, now, j, i) && j <= i && i + 1 < |was|
    ensures |now| == |was| && Up(was, now[i := now[i + 1]], j, i + 1)
  {
    UpAt(was, now, j, i, i + 1);
    var next := now[i := now[i + 1]];
    forall k | 0 <= k < |was| ensures next[k] == if j <= k < i + 1 then was[k + 1] else was[k] {
      UpAt(was, now, j, i, k);
      if k == i { assert next[k] == now[i + 1]; } else { assert next[k] == now[k]; }
    }
    assert |next| == |was| && Up(was, next, j, i + 1);
  }

  ghost predicate Shifting(m0: Mem, mem: Mem, m: Addr, keys: seq<Val>, vals: seq<Val>, j: nat, i: nat) {
    && m in m0 && m in mem && mem[m] == m0[m] && mem[m].Dict? && mem[m].keys.Ptr? && mem[m].vals.Ptr? && mem.Keys == m0.Keys && Closed(mem)
    && (forall a :: a in mem && a !in Owned(m0, m) ==> mem[a] == m0[a])
    && IsBlock(mem, mem[m].keys, |keys|) && IsBlock(mem, mem[m].vals, |vals|)
    && Up(keys, Block(mem, mem[m].keys), j, i) && Up(vals, Block(mem, mem[m].vals), j, i)
  }

  lemma ShiftStarts(mem: Mem, m: Addr, j: nat)
    requires DictOk(mem, m) && Closed(mem) && j < mem[m].len
    ensures Shifting(mem, mem, m, Block(mem, mem[m].keys), Block(mem, mem[m].vals), j, j)
  {
  }

  lemma ShiftFacts(m0: Mem, mem: Mem, m: Addr, keys: seq<Val>, vals: seq<Val>, j: nat, i: nat)
    requires Shifting(m0, mem, m, keys, vals, j, i)
    ensures m in m0 && m in mem && mem[m] == m0[m] && mem[m].Dict? && mem[m].keys.Ptr? && mem[m].vals.Ptr? && mem.Keys == m0.Keys && Closed(mem)
    ensures |Block(mem, mem[m].keys)| == |keys| && |Block(mem, mem[m].vals)| == |vals|
  {
  }

  lemma ShiftStep(m0: Mem, mem: Mem, m: Addr, keys: seq<Val>, vals: seq<Val>, j: nat, i: nat)
    requires Shifting(m0, mem, m, keys, vals, j, i) && j <= i && i + 1 < |keys| == |vals| && mem[m].keys.ref != mem[m].vals.ref
    ensures var d := mem[m];
            var ks, vs := Block(mem, d.keys), Block(mem, d.vals);
            |ks| == |vs| == |keys| &&
            var mem2 := mem[d.keys.ref := Slots(ks[i := ks[i + 1]])][d.vals.ref := Slots(vs[i := vs[i + 1]])];
            Shifting(m0, mem2, m, keys, vals, j, i + 1)
  {
    var d := mem[m];
    var ks, vs := Block(mem, d.keys), Block(mem, d.vals);
    var c1, c2 := Slots(ks[i := ks[i + 1]]), Slots(vs[i := vs[i + 1]]);
    var mem1 := mem[d.keys.ref := c1];
    BlockKids(mem, d.keys, |keys|);
    BlockKids(mem, d.vals, |vals|);
    assert mem1.Keys == mem.Keys;
    ClosedWritten(mem, d.keys.ref, c1);
    ClosedWritten(mem1, d.vals.ref, c2);
    var mem2 := mem1[d.vals.ref := c2];
    hide Closed;
    assert Block(mem2, d.keys) == c1.data && Block(mem2, d.vals) == c2.data;
    assert d.keys.ref != m && d.vals.ref != m;
    assert mem2[m] == m0[m] && mem2.Keys == m0.Keys;
    assert IsBlock(mem2, d.keys, |keys|) && IsBlock(mem2, d.vals, |vals|);
    UpStep(keys, ks, j, i);
    UpStep(vals, vs, j, i);
    assert forall a :: a in mem2 && a !in Owned(m0, m) ==> mem2[a] == m0[a];
  }

  lemma ShiftEnds(m0: Mem, mem: Mem, m: Addr, key: OM.Key, keys: seq<Val>, vals: seq<Val>, j: nat)
    requires DictOk(m0, m) && j < m0[m].len && j == OM.Find(Entries(m0, m), key) && Shifting(m0, mem, m, keys, vals, j, m0[m].len - 1)
    requires keys == Block(m0, m0[m].keys) && vals == Block(m0, m0[m].vals)
    ensures var d := m0[m];
            var mem2 := mem[m := Dict(d.len - 1, d.cap, d.keys, d.vals)];
            DictOk(mem2, m) && Closed(mem2) && mem2.Keys == m0.Keys && Entries(mem2, m) == OM.Remove(Entries(m0, m), key) &&
            forall a :: a in mem2 && a !in Owned(m0, m) ==> mem2[a] == m0[a]
  {
    hide Closed, OM.Find, IsText, TextOf, Up;
    var d := m0[m];
    var es := Entries(m0, m);
    var mem2 := mem[m := Dict(d.len - 1, d.cap, d.keys, d.vals)];
    ShiftedClosed(m0, mem, m, keys, vals, j);
    ShiftedTexts(m0, mem, m, keys, vals, j);
    ShiftedBlocks(m0, mem, m, keys, vals, j);
    assert Shape(mem2, m);
    var es2 := Entries(mem2, m);
    forall i | 0 <= i < d.len - 1 ensures es2[i] == es[if i < j then i else i + 1] {
      UpAt(vals, Block(mem, d.vals), j, d.len - 1, i);
      assert Block(mem2, d.keys)[i] == Block(mem2, d.keys)[i];
    }
    assert es2 == es[..j] + es[j + 1..];
    OM.Closes(es, j);
  }

  lemma ShiftedBlocks(m0: Mem, mem: Mem, m: Addr, keys: seq<Val>, vals: seq<Val>, j: nat)
    requires DictOk(m0, m) && m0[m].len > 0 && Shifting(m0, mem, m, keys, vals, j, m0[m].len - 1)
    requires |keys| == |vals| == m0[m].cap
    ensures var d := m0[m];
            var mem2 := mem[m := Dict(d.len - 1, d.cap, d.keys, d.vals)];
            IsBlock(mem2, d.keys, d.cap) && IsBlock(mem2, d.vals, d.cap) &&
            Block(mem2, d.keys) == Block(mem, d.keys) && Block(mem2, d.vals) == Block(mem, d.vals)
  {
    hide Closed, Up;
  }

  lemma ShiftedClosed(m0: Mem, mem: Mem, m: Addr, keys: seq<Val>, vals: seq<Val>, j: nat)
    requires m in m0 && m0[m].Dict? && m0[m].len > 0 && Shifting(m0, mem, m, keys, vals, j, m0[m].len - 1)
    ensures Closed(mem[m := Dict(m0[m].len - 1, m0[m].cap, m0[m].keys, m0[m].vals)])
  {
    var c := Dict(m0[m].len - 1, m0[m].cap, m0[m].keys, m0[m].vals);
    assert AllWithin(mem.Keys, Kids(mem[m])) && Kids(c) == Kids(mem[m]);
    ClosedWritten(mem, m, c);
  }

  lemma ShiftedTexts(m0: Mem, mem: Mem, m: Addr, keys: seq<Val>, vals: seq<Val>, j: nat)
    requires DictOk(m0, m) && j < m0[m].len && Shifting(m0, mem, m, keys, vals, j, m0[m].len - 1) && keys == Block(m0, m0[m].keys)
    ensures var d := m0[m];
            var mem2 := mem[m := Dict(d.len - 1, d.cap, d.keys, d.vals)];
            forall i {:trigger Block(mem2, d.keys)[i]} :: 0 <= i < d.len - 1 ==>
              IsText(mem2, Block(mem2, d.keys)[i]) && TextOf(mem2, Block(mem2, d.keys)[i]) == Entries(m0, m)[if i < j then i else i + 1].0
  {
    var d := m0[m];
    var mem2 := mem[m := Dict(d.len - 1, d.cap, d.keys, d.vals)];
    forall i | 0 <= i < d.len - 1
      ensures IsText(mem2, Block(mem2, d.keys)[i]) && TextOf(mem2, Block(mem2, d.keys)[i]) == Entries(m0, m)[if i < j then i else i + 1].0
    {
      var k := if i < j then i else i + 1;
      assert IsText(m0, keys[k]);
      assert d.keys.ref != m && Block(mem2, d.keys) == Block(mem, d.keys);
      UpAt(keys, Block(mem, d.keys), j, d.len - 1, i);
      TextUntouched(m0, mem2, keys[k]);
    }
  }
}
