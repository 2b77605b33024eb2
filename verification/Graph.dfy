/** What "the same object graph" means: a renaming of addresses that keeps
    contents, child order and sharing, and the theorems that make it the right
    notion for a program, which sees the heap only by following pointers. */
module Graph {
  import opened Objects

  /** `t` is `s` with its pointer renamed. */
  ghost predicate SlotRenamed(s: Slot, t: Slot, names: map<Ref, Ref>) {
    if s.Ptr? then s.ref in names && t == Ptr(names[s.ref]) else t == s
  }

  ghost predicate ObjectRenamed(a: Object, b: Object, names: map<Ref, Ref>) {
    SameShape(a, b) && forall i :: 0 <= i < |a.slots| ==> SlotRenamed(a.slots[i], b.slots[i], names)
  }

  ghost predicate Injective(names: map<Ref, Ref>) {
    forall r, q :: r in names && q in names && names[r] == names[q] ==> r == q
  }

  /** `names` is a graph isomorphism from a pointer-closed part of `m` into `m'`. */
  ghost predicate Renaming(m: Mem, m': Mem, names: map<Ref, Ref>) {
    && Injective(names)
    && forall r :: r in names ==> r in m && names[r] in m' && ObjectRenamed(m[r], m'[names[r]], names)
  }

  ghost predicate RootsRenamed(roots: seq<Slot>, roots': seq<Slot>, names: map<Ref, Ref>) {
    |roots| == |roots'| && forall i :: 0 <= i < |roots| ==> SlotRenamed(roots[i], roots'[i], names)
  }

  /** The value reached from `s` through the child indices of `path`, if there is one. */
  function Follow(m: Mem, s: Slot, path: seq<nat>): Option<Slot>
    decreases path
  {
    if path == [] then Some(s)
    else if s.Ptr? && s.ref in m && path[0] < |m[s.ref].slots|
    then Follow(m, m[s.ref].slots[path[0]], path[1..])
    else None
  }

  ghost predicate Reachable(m: Mem, roots: seq<Slot>, r: Ref) {
    exists i, path :: 0 <= i < |roots| && Follow(m, roots[i], path) == Some(Ptr(r))
  }

  ghost function LiveSet(m: Mem, roots: seq<Slot>): set<Ref> {
    set r | r in m && Reachable(m, roots, r)
  }

  function Pointers(rs: seq<Ref>): (s: seq<Slot>)
    ensures |s| == |rs| && forall i :: 0 <= i < |rs| ==> s[i] == Ptr(rs[i])
  {
    seq(|rs|, i requires 0 <= i < |rs| => Ptr(rs[i]))
  }

  /** One more step at the end of a path. */
  lemma {:induction false} FollowSnoc(m: Mem, s: Slot, path: seq<nat>, k: nat)
    requires Follow(m, s, path).Some? && Follow(m, s, path).value.Ptr?
    requires var r := Follow(m, s, path).value.ref; r in m && k < |m[r].slots|
    ensures Follow(m, s, path + [k]) == Some(m[Follow(m, s, path).value.ref].slots[k])
    decreases path
  {
    if path == [] {
      assert [k][1..] == [];
    } else {
      assert (path + [k])[1..] == path[1..] + [k];
      FollowSnoc(m, m[s.ref].slots[path[0]], path[1..], k);
    }
  }

  /** A child of a reachable object is reachable. */
  lemma ReachableChild(m: Mem, roots: seq<Slot>, r: Ref, k: nat)
    requires Reachable(m, roots, r) && r in m && k < |m[r].slots| && m[r].slots[k].Ptr?
    ensures Reachable(m, roots, m[r].slots[k].ref)
  {
    var i, path :| 0 <= i < |roots| && Follow(m, roots[i], path) == Some(Ptr(r));
    FollowSnoc(m, roots[i], path, k);
    assert Follow(m, roots[i], path + [k]) == Some(Ptr(m[r].slots[k].ref));
  }

  /** A path from inside a pointer-closed set stays inside. */
  lemma {:induction false} FollowStays(m: Mem, s: Slot, path: seq<nat>, inside: set<Ref>)
    requires s.Ptr? ==> s.ref in inside
    requires forall r, i :: r in m && r in inside && 0 <= i < |m[r].slots| && m[r].slots[i].Ptr? ==> m[r].slots[i].ref in inside
    ensures Follow(m, s, path).Some? && Follow(m, s, path).value.Ptr? ==> Follow(m, s, path).value.ref in inside
    decreases path
  {
    if path != [] && s.Ptr? && s.ref in m && path[0] < |m[s.ref].slots| {
      FollowStays(m, m[s.ref].slots[path[0]], path[1..], inside);
    }
  }

  /** Whatever a pointer-closed set with the roots leaves out is unreachable. */
  lemma Unreachable(m: Mem, roots: seq<Slot>, inside: set<Ref>, x: Ref)
    requires forall i :: 0 <= i < |roots| && roots[i].Ptr? ==> roots[i].ref in inside
    requires forall r, i :: r in m && r in inside && 0 <= i < |m[r].slots| && m[r].slots[i].Ptr? ==> m[r].slots[i].ref in inside
    requires x !in inside
    ensures !Reachable(m, roots, x)
  {
    forall i, path | 0 <= i < |roots| ensures Follow(m, roots[i], path) != Some(Ptr(x)) {
      FollowStays(m, roots[i], path, inside);
    }
  }

  lemma ReachableRoot(m: Mem, roots: seq<Slot>, i: nat)
    requires i < |roots| && roots[i].Ptr?
    ensures Reachable(m, roots, roots[i].ref)
  {
    assert Follow(m, roots[i], []) == Some(Ptr(roots[i].ref));
  }

  /** Following the same path in both graphs fails in both or reaches renamed values. */
  lemma {:induction false} FollowRenamed(m: Mem, m': Mem, names: map<Ref, Ref>, s: Slot, t: Slot, path: seq<nat>)
    requires Renaming(m, m', names) && SlotRenamed(s, t, names)
    ensures Follow(m, s, path).None? <==> Follow(m', t, path).None?
    ensures Follow(m, s, path).Some? ==>
              SlotRenamed(Follow(m, s, path).value, Follow(m', t, path).value, names)
    decreases path
  {
    if path != [] && s.Ptr? {
      var k := path[0];
      if k < |m[s.ref].slots| {
        FollowRenamed(m, m', names, m[s.ref].slots[k], m'[t.ref].slots[k], path[1..]);
      }
    }
  }

  /** A program cannot tell the two graphs apart: on every path from every root it finds
      the same scalar, or objects of the same kind and fields, and two paths meet at one
      object in the first graph exactly when they do in the second. */
  lemma Indistinguishable(m: Mem, roots: seq<Slot>, m': Mem, roots': seq<Slot>, names: map<Ref, Ref>,
                          i: nat, path: seq<nat>, j: nat, path': seq<nat>)
    requires Renaming(m, m', names) && RootsRenamed(roots, roots', names)
    requires i < |roots| && j < |roots|
    ensures var a, a' := Follow(m, roots[i], path), Follow(m', roots'[i], path);
            && (a.None? <==> a'.None?)
            && (a.Some? && !a.value.Ptr? ==> a' == a)
            && (a.Some? && a.value.Ptr? ==>
                  a'.value.Ptr? && a.value.ref in m && a'.value.ref in m'
                  && SameShape(m[a.value.ref], m'[a'.value.ref]))
            && (a.Some? ==>
                  (a == Follow(m, roots[j], path') <==> a' == Follow(m', roots'[j], path')))
  {
    FollowRenamed(m, m', names, roots[i], roots'[i], path);
    FollowRenamed(m, m', names, roots[j], roots'[j], path');
  }

  /** Everything reachable is renamed: nothing live is lost. */
  lemma ReachableIsRenamed(m: Mem, roots: seq<Slot>, m': Mem, roots': seq<Slot>, names: map<Ref, Ref>, r: Ref)
    requires Renaming(m, m', names) && RootsRenamed(roots, roots', names) && Reachable(m, roots, r)
    ensures r in names && r in m && SameShape(m[r], m'[names[r]])
  {
    var i, path :| 0 <= i < |roots| && Follow(m, roots[i], path) == Some(Ptr(r));
    FollowRenamed(m, m', names, roots[i], roots'[i], path);
  }

  lemma RenamedInto(m: Mem, m': Mem, names: map<Ref, Ref>, roots: seq<Slot>, roots': seq<Slot>)
    requires Renaming(m, m', names) && RootsRenamed(roots, roots', names)
    ensures RootsInto(roots', m')
  {
    forall i | 0 <= i < |roots'| && roots'[i].Ptr? ensures roots'[i].ref in m' {
      assert SlotRenamed(roots[i], roots'[i], names);
    }
  }

  // ---- composing renamings ------------------------------------------------

  ghost function Compose(f: map<Ref, Ref>, g: map<Ref, Ref>): map<Ref, Ref> {
    map r | r in f && f[r] in g :: g[f[r]]
  }

  lemma SlotRenamedCompose(a: Slot, b: Slot, c: Slot, f: map<Ref, Ref>, g: map<Ref, Ref>)
    requires SlotRenamed(a, b, f) && SlotRenamed(b, c, g)
    ensures SlotRenamed(a, c, Compose(f, g))
  {
  }

  lemma RootsRenamedCompose(a: seq<Slot>, b: seq<Slot>, c: seq<Slot>, f: map<Ref, Ref>, g: map<Ref, Ref>)
    requires RootsRenamed(a, b, f) && RootsRenamed(b, c, g)
    ensures RootsRenamed(a, c, Compose(f, g))
  {
    forall i | 0 <= i < |a| ensures SlotRenamed(a[i], c[i], Compose(f, g)) {
      SlotRenamedCompose(a[i], b[i], c[i], f, g);
    }
  }

  lemma RenamingCompose(m: Mem, m1: Mem, m2: Mem, f: map<Ref, Ref>, g: map<Ref, Ref>)
    requires Renaming(m, m1, f) && Renaming(m1, m2, g)
    ensures Renaming(m, m2, Compose(f, g))
  {
    var h := Compose(f, g);
    forall r | r in h ensures r in m && h[r] in m2 && ObjectRenamed(m[r], m2[h[r]], h) {
      var a, b, c := m[r], m1[f[r]], m2[h[r]];
      assert ObjectRenamed(a, b, f) && ObjectRenamed(b, c, g);
      forall i | 0 <= i < |a.slots| ensures SlotRenamed(a.slots[i], c.slots[i], h) {
        SlotRenamedCompose(a.slots[i], b.slots[i], c.slots[i], f, g);
      }
    }
  }

  /** The identity renaming of a pointer-closed memory. */
  ghost function Identity(m: Mem): map<Ref, Ref> {
    map r | r in m :: r
  }

  lemma IdentityRenaming(m: Mem)
    requires Closed(m)
    ensures Renaming(m, m, Identity(m))
  {
    forall r | r in m ensures ObjectRenamed(m[r], m[r], Identity(m)) {
      assert PointsInto(m[r], m);
    }
  }
}
