/** The edit distance builtin: a rolling two-row table computes the least number of
    single-character edits between two strings. */
module EditDistance {

  // ---- the distance -------------------------------------------------------------------------

  function Init(s: string): string
    requires s != []
  {
    s[..|s| - 1]
  }

  function Last(s: string): char
    requires s != []
  {
    s[|s| - 1]
  }

  function Min(a: nat, b: nat): nat {
    if a < b then a else b
  }

  function Mismatch(c: char, d: char): nat {
    if c == d then 0 else 1
  }

  /** The recurrence behind the table. */
  function Dist(x: string, y: string): nat
    decreases |x| + |y|
  {
    if x == [] then |y|
    else if y == [] then |x|
    else Min(Min(Dist(Init(x), y) + 1, Dist(x, Init(y)) + 1), Dist(Init(x), Init(y)) + Mismatch(Last(x), Last(y)))
  }

  // ---- edits ----------------------------------------------------------------------------------

  datatype Edit = Insert(i: nat, c: char) | Delete(i: nat) | Replace(i: nat, c: char)

  predicate CanEdit(e: Edit, x: string) {
    if e.Insert? then e.i <= |x| else e.i < |x|
  }

  function Apply(e: Edit, x: string): string
    requires CanEdit(e, x)
  {
    match e
    case Insert(i, c) => x[..i] + [c] + x[i..]
    case Delete(i) => x[..i] + x[i + 1..]
    case Replace(i, c) => x[i := c]
  }

  /** The edits, one after the other, turn `x` into `y`. */
  predicate Turns(es: seq<Edit>, x: string, y: string) {
    if es == [] then x == y else CanEdit(es[0], x) && Turns(es[1..], Apply(es[0], x), y)
  }

  lemma {:induction false} TurnsOn(es: seq<Edit>, fs: seq<Edit>, x: string, y: string, z: string)
    requires Turns(es, x, y) && Turns(fs, y, z)
    ensures Turns(es + fs, x, z)
  {
    if es == [] {
      assert es + fs == fs;
    } else {
      TurnsOn(es[1..], fs, Apply(es[0], x), y, z);
      assert (es + fs)[1..] == es[1..] + fs;
    }
  }

  /** Edits of a string work on it as part of a longer one. */
  lemma {:induction false} TurnsBefore(es: seq<Edit>, x: string, y: string, d: char)
    requires Turns(es, x, y)
    ensures Turns(es, x + [d], y + [d])
  {
    if es != [] {
      var x' := Apply(es[0], x);
      assert Apply(es[0], x + [d]) == x' + [d];
      TurnsBefore(es[1..], x', y, d);
    }
  }

  lemma OneEdit(e: Edit, x: string)
    requires CanEdit(e, x)
    ensures Turns([e], x, Apply(e, x))
  {
    assert [e][1..] == [];
  }

  // ---- no fewer edits do ------------------------------------------------------------------------

  lemma {:induction false} DistToEmpty(x: string)
    ensures Dist(x, []) == |x| && Dist([], x) == |x|
  {
  }

  /** The three neighbours of a table entry. */
  lemma DistSteps(x: string, y: string)
    ensures x != [] ==> Dist(x, y) <= Dist(Init(x), y) + 1
    ensures y != [] ==> Dist(x, y) <= Dist(x, Init(y)) + 1
    ensures x != [] && y != [] ==> Dist(x, y) <= Dist(Init(x), Init(y)) + Mismatch(Last(x), Last(y))
  {
  }

  /** A last character more or less, or another one, changes the distance by at most one. */
  lemma {:induction false} LastMatters(x: string, c: char, y: string)
    ensures Dist(x, y) <= Dist(x + [c], y) + 1
    decreases |y|
  {
    var x' := x + [c];
    assert Init(x') == x;
    if y != [] {
      LastMatters(x, c, Init(y));
      DistSteps(x, y);
    }
  }

  lemma {:induction false} LastDiffers(x: string, c: char, d: char, y: string)
    ensures Dist(x + [c], y) <= Dist(x + [d], y) + 1
    decreases |y|
  {
    var u, v := x + [c], x + [d];
    assert Init(u) == x && Init(v) == x;
    if y != [] {
      LastDiffers(x, c, d, Init(y));
      DistSteps(u, y);
    }
  }

  /** A common last character keeps a difference of at most one. */
  lemma {:induction false} SameLast(x: string, x': string, d: char, y: string)
    requires forall z: string {:trigger Dist(x', z)} :: |z| <= |y| ==> Dist(x, z) <= Dist(x', z) + 1
    requires |x| <= |x'| + 1
    ensures Dist(x + [d], y) <= Dist(x' + [d], y) + 1
    decreases |y|
  {
    var u, v := x + [d], x' + [d];
    assert Init(u) == x && Init(v) == x' && Last(u) == d && Last(v) == d;
    DistToEmpty(u);
    DistToEmpty(v);
    if y != [] {
      SameLast(x, x', d, Init(y));
      DistSteps(u, y);
      assert Dist(x, y) <= Dist(x', y) + 1 && Dist(x, Init(y)) <= Dist(x', Init(y)) + 1;
    }
  }

  /** An edit before the last character is an edit of the rest. */
  lemma ApplyInit(e: Edit, x: string)
    requires x != [] && CanEdit(e, x) && e.i < |x| - (if e.Insert? then 0 else 1)
    ensures CanEdit(e, Init(x)) && Apply(e, x) == Apply(e, Init(x)) + [Last(x)] && x == Init(x) + [Last(x)]
  {
  }

  /** One edit brings two strings closer by at most one. */
  lemma {:induction false} EditMatters(e: Edit, x: string, y: string)
    requires CanEdit(e, x)
    ensures Dist(x, y) <= Dist(Apply(e, x), y) + 1
    decreases |x|
  {
    if e.Insert? && e.i == |x| {
      assert Apply(e, x) == x + [e.c];
      LastMatters(x, e.c, y);
    } else if e.Delete? && e.i == |x| - 1 {
      assert Apply(e, x) == Init(x);
      DistSteps(x, y);
    } else if e.Replace? && e.i == |x| - 1 {
      assert x == Init(x) + [Last(x)] && Apply(e, x) == Init(x) + [e.c];
      LastDiffers(Init(x), Last(x), e.c, y);
    } else {
      ApplyInit(e, x);
      var u, v := Init(x), Apply(e, Init(x));
      forall z: string | |z| <= |y| ensures Dist(u, z) <= Dist(v, z) + 1 {
        EditMatters(e, u, z);
      }
      SameLast(u, v, Last(x), y);
    }
  }

  /** Whatever edits turn `x` into `y`, there are at least `Dist(x, y)` of them. */
  lemma {:induction false} NoFewer(es: seq<Edit>, x: string, y: string)
    requires Turns(es, x, y)
    ensures Dist(x, y) <= |es|
  {
    if es == [] {
      DistSelf(x);
    } else {
      NoFewer(es[1..], Apply(es[0], x), y);
      EditMatters(es[0], x, y);
    }
  }

  lemma {:induction false} DistSelf(x: string)
    ensures Dist(x, x) == 0
  {
    if x != [] { DistSelf(Init(x)); }
  }

  // ---- so many edits do ------------------------------------------------------------------------------

  lemma NoEdits(x: string)
    ensures Turns([], x, x)
  {
  }

  lemma InsertLast(y: string)
    requires y != []
    ensures Turns([Insert(|y| - 1, Last(y))], Init(y), y)
  {
    hide Turns, Dist;
    var e := Insert(|y| - 1, Last(y));
    OneEdit(e, Init(y));
    assert y == Init(y) + [Last(y)] && Init(y)[|y| - 1..] == [];
    assert Apply(e, Init(y)) == y;
  }

  lemma DeleteLast(x: string)
    requires x != []
    ensures Turns([Delete(|x| - 1)], x, Init(x))
  {
    hide Turns, Dist;
    var e := Delete(|x| - 1);
    OneEdit(e, x);
    assert Apply(e, x) == Init(x);
  }

  lemma ReplaceLast(y: string, c: char)
    requires y != []
    ensures Turns([Replace(|y| - 1, Last(y))], Init(y) + [c], y)
  {
    hide Turns, Dist;
    var e, w := Replace(|y| - 1, Last(y)), Init(y) + [c];
    OneEdit(e, w);
    assert Apply(e, w) == y;
  }

  lemma InitLast(x: string)
    requires x != []
    ensures Init(x) + [Last(x)] == x
  {
  }

  /** One of the three neighbours decides a table entry. */
  lemma Neighbour(x: string, y: string)
    requires x != [] || y != []
    ensures (y != [] && Dist(x, y) == Dist(x, Init(y)) + 1) || (x != [] && Dist(x, y) == Dist(Init(x), y) + 1) ||
            (x != [] && y != [] && Dist(x, y) == Dist(Init(x), Init(y)) + Mismatch(Last(x), Last(y)))
  {
    if x == [] {
      DistToEmpty(y);
      DistToEmpty(Init(y));
    }
    if y == [] {
      DistToEmpty(x);
      DistToEmpty(Init(x));
    }
  }

  /** Edits that turn `x` into `y`, as few as the distance says. */
  lemma {:induction false} SoMany(x: string, y: string) returns (es: seq<Edit>)
    ensures Turns(es, x, y) && |es| == Dist(x, y)
    decreases |x| + |y|
  {
    hide Dist, Turns, Apply;
    if x == [] && y == [] {
      es := [];
      NoEdits([]);
      DistSelf([]);
      return;
    }
    Neighbour(x, y);
    if y != [] && Dist(x, y) == Dist(x, Init(y)) + 1 {
      var fs := SoMany(x, Init(y));
      InsertLast(y);
      TurnsOn(fs, [Insert(|y| - 1, Last(y))], x, Init(y), y);
      es := fs + [Insert(|y| - 1, Last(y))];
    } else if x != [] && Dist(x, y) == Dist(Init(x), y) + 1 {
      var fs := SoMany(Init(x), y);
      DeleteLast(x);
      TurnsOn([Delete(|x| - 1)], fs, x, Init(x), y);
      es := [Delete(|x| - 1)] + fs;
    } else {
      var fs := SoMany(Init(x), Init(y));
      es := SubstituteLast(x, y, fs);
    }
  }

  lemma SubstituteLast(x: string, y: string, fs: seq<Edit>) returns (es: seq<Edit>)
    requires x != [] && y != [] && Turns(fs, Init(x), Init(y))
    ensures Turns(es, x, y) && |es| == |fs| + Mismatch(Last(x), Last(y))
  {
    hide Turns, Apply;
    TurnsBefore(fs, Init(x), Init(y), Last(x));
    InitLast(x);
    InitLast(y);
    es := fs;
    if Last(x) != Last(y) {
      ReplaceLast(y, Last(x));
      TurnsOn(fs, [Replace(|y| - 1, Last(y))], x, Init(y) + [Last(x)], y);
      es := fs + [Replace(|y| - 1, Last(y))];
    }
  }

  // ---- a metric ------------------------------------------------------------------------------------------

  lemma {:induction false} Symmetric(x: string, y: string)
    ensures Dist(x, y) == Dist(y, x)
    decreases |x| + |y|
  {
    if x != [] && y != [] {
      Symmetric(Init(x), y);
      Symmetric(x, Init(y));
      Symmetric(Init(x), Init(y));
    }
  }

  lemma Triangle(x: string, y: string, z: string)
    ensures Dist(x, z) <= Dist(x, y) + Dist(y, z)
  {
    var es := SoMany(x, y);
    var fs := SoMany(y, z);
    TurnsOn(es, fs, x, y, z);
    NoFewer(es + fs, x, z);
  }

  lemma ZeroMeansEqual(x: string, y: string)
    ensures Dist(x, y) == 0 <==> x == y
  {
    DistSelf(x);
    if Dist(x, y) == 0 { var es := SoMany(x, y); }
  }

  // ---- the builtin -----------------------------------------------------------------------------------------

  /** The first `j` entries of the table's row for `u`. */
  ghost predicate Row(a: seq<nat>, u: string, y: string, j: nat) {
    j <= |a| && j <= |y| + 1 && forall k :: 0 <= k < j ==> a[k] == Dist(u, y[..k])
  }

  lemma RowNext(a: seq<nat>, u: string, y: string, j: nat)
    requires Row(a, u, y, j) && j < |a| && j <= |y| && a[j] == Dist(u, y[..j])
    ensures Row(a, u, y, j + 1)
  {
    hide Dist;
  }

  lemma RowAt(a: seq<nat>, u: string, y: string, j: nat, k: nat)
    requires Row(a, u, y, j) && k < j
    ensures a[k] == Dist(u, y[..k])
  {
    hide Dist;
  }

  lemma RowSame(a: seq<nat>, b: seq<nat>, u: string, y: string, j: nat)
    requires Row(a, u, y, j) && j <= |b| && a[..j] == b[..j]
    ensures Row(b, u, y, j)
  {
    hide Dist;
    forall k | 0 <= k < j ensures b[k] == Dist(u, y[..k]) {
      assert b[k] == b[..j][k] == a[..j][k];
    }
  }

  lemma Entry(x: string, y: string, i: nat, j: nat)
    requires 1 <= i <= |x| && 1 <= j <= |y|
    ensures Dist(x[..i], y[..j]) ==
            Min(Min(Dist(x[..i - 1], y[..j]) + 1, Dist(x[..i], y[..j - 1]) + 1), Dist(x[..i - 1], y[..j - 1]) + Mismatch(x[i - 1], y[j - 1]))
  {
    assert Init(x[..i]) == x[..i - 1] && Init(y[..j]) == y[..j - 1];
  }

  /** The row of the empty prefix. */
  method FirstRow(y: string) returns (prev: array<nat>)
    ensures fresh(prev) && prev.Length == |y| + 1 && Row(prev[..], [], y, |y| + 1)
  {
    prev := new nat[|y| + 1];
    var j := 0;
    while j <= |y|
      invariant 0 <= j <= |y| + 1 && Row(prev[..], [], y, j)
    {
      ghost var before := prev[..];
      prev[j] := j;
      RowSame(before, prev[..], [], y, j);
      RowNext(prev[..], [], y, j);
      j := j + 1;
    }
  }

  /** The row of `x[..i]` from the one above it. */
  method NextRow(x: string, y: string, i: nat, prev: array<nat>, cur: array<nat>)
    requires 1 <= i <= |x| && prev != cur && prev.Length == cur.Length == |y| + 1
    requires Row(prev[..], x[..i - 1], y, |y| + 1)
    modifies cur
    ensures Row(cur[..], x[..i], y, |y| + 1)
  {
    hide Dist, Row;
    cur[0] := i;
    var j := 1;
    FirstEntry(cur[..], x, y, i);
    while j <= |y|
      invariant 1 <= j <= |y| + 1
      invariant Row(prev[..], x[..i - 1], y, |y| + 1) && Row(cur[..], x[..i], y, j)
    {
      var cost := if x[i - 1] == y[j - 1] then 0 else 1;
      var del, ins, sub := prev[j] + 1, cur[j - 1] + 1, prev[j - 1] + cost;
      var best := if del < ins then del else ins;
      ghost var before := cur[..];
      cur[j] := if best < sub then best else sub;
      EntryStep(x, y, i, j, prev[..], before, cur[..]);
      j := j + 1;
    }
  }

  lemma FirstEntry(cur: seq<nat>, x: string, y: string, i: nat)
    requires 1 <= i <= |x| && |cur| == |y| + 1 && cur[0] == i
    ensures Row(cur, x[..i], y, 1)
  {
    assert y[..0] == [];
  }

  lemma EntryStep(x: string, y: string, i: nat, j: nat, prev: seq<nat>, before: seq<nat>, cur: seq<nat>)
    requires 1 <= i <= |x| && 1 <= j <= |y| && |prev| == |cur| == |before| == |y| + 1
    requires Row(prev, x[..i - 1], y, |y| + 1) && Row(before, x[..i], y, j)
    requires cur == before[j := Min(Min(prev[j] + 1, before[j - 1] + 1), prev[j - 1] + Mismatch(x[i - 1], y[j - 1]))]
    ensures Row(cur, x[..i], y, j + 1)
  {
    hide Dist, Row;
    Entry(x, y, i, j);
    RowAt(prev, x[..i - 1], y, |y| + 1, j);
    RowAt(prev, x[..i - 1], y, |y| + 1, j - 1);
    RowAt(before, x[..i], y, j, j - 1);
    RowSame(before, cur, x[..i], y, j);
    RowNext(cur, x[..i], y, j);
  }

  /** levenshtein: one row of the table at a time, the two rows swapped after each. */
  method Levenshtein(x: string, y: string) returns (d: nat)
    ensures d == Dist(x, y)
  {
    hide *;
    var n, m := |x|, |y|;
    var prev := FirstRow(y);
    var cur := new nat[m + 1];
    assert x[..0] == [];
    var i := 1;
    while i <= n
      invariant 1 <= i <= n + 1 && prev != cur && prev.Length == cur.Length == m + 1 && fresh(prev) && fresh(cur)
      invariant Row(prev[..], x[..i - 1], y, m + 1)
    {
      NextRow(x, y, i, prev, cur);
      prev, cur := cur, prev;
      i := i + 1;
    }
    assert x[..n] == x && y[..m] == y;
    RowAt(prev[..], x, y, m + 1, m);
    d := prev[m];
  }
}
