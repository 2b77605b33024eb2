/** The map a program sees: keys in order of insertion, each once. */
module OrderedMap {

  /** A key's bytes. */
  type Key = seq<int>

  type Entry<V> = (Key, V)

  function KeysOf<V>(es: seq<Entry<V>>): seq<Key> {
    seq(|es|, i requires 0 <= i < |es| => es[i].0)
  }

  predicate Unique<V>(es: seq<Entry<V>>) {
    forall i, j :: 0 <= i < j < |es| ==> es[i].0 != es[j].0
  }

  /** The place of a key, or the number of entries. */
  function Find<V>(es: seq<Entry<V>>, key: Key): (j: nat)
    ensures j <= |es| && (j < |es| ==> es[j].0 == key) && forall i :: 0 <= i < j ==> es[i].0 != key
  {
    if es == [] then 0 else if es[0].0 == key then 0 else
    var j := Find(es[1..], key);
    assert forall i :: 1 <= i < j + 1 ==> es[i].0 == es[1..][i - 1].0;
    j + 1
  }

  /** An existing key gets the value in its place; a new one goes to the end. */
  function Put<V>(es: seq<Entry<V>>, key: Key, v: V): seq<Entry<V>> {
    var j := Find(es, key);
    if j < |es| then es[j := (key, v)] else es + [(key, v)]
  }

  function Remove<V>(es: seq<Entry<V>>, key: Key): seq<Entry<V>> {
    var j := Find(es, key);
    if j < |es| then es[..j] + es[j + 1..] else es
  }

  predicate Has<V>(es: seq<Entry<V>>, key: Key) {
    exists i :: 0 <= i < |es| && es[i].0 == key
  }

  lemma FindIs<V>(es: seq<Entry<V>>, key: Key, j: nat)
    requires j <= |es| && (j < |es| ==> es[j].0 == key) && forall i :: 0 <= i < j ==> es[i].0 != key
    ensures Find(es, key) == j
  {
  }

  lemma LookupAt<V>(es: seq<Entry<V>>, key: Key, i: nat)
    requires Unique(es) && i < |es| && es[i].0 == key
    ensures Lookup(es, key) == Found(es[i].1)
  {
    FindIs(es, key, i);
  }

  lemma LookupNone<V>(es: seq<Entry<V>>, key: Key)
    requires forall i :: 0 <= i < |es| ==> es[i].0 != key
    ensures Lookup(es, key) == Missing
  {
  }

  lemma HasFound<V>(es: seq<Entry<V>>, key: Key)
    ensures Has(es, key) <==> Find(es, key) < |es|
  {
    var j := Find(es, key);
    assert j < |es| ==> es[j].0 == key;
  }

  /** Keys stay unique; the order is that of first insertion; and the finite map is updated. */
  lemma PutRefines<V>(es: seq<Entry<V>>, key: Key, v: V)
    requires Unique(es)
    ensures Unique(Put(es, key, v))
    ensures KeysOf(Put(es, key, v)) == if Has(es, key) then KeysOf(es) else KeysOf(es) + [key]
    ensures Lookup(Put(es, key, v), key) == Found(v)
    ensures forall k :: k != key ==> Lookup(Put(es, key, v), k) == Lookup(es, k)
  {
    var j, es' := Find(es, key), Put(es, key, v);
    HasFound(es, key);
    FindIs(es', key, j);
    forall k | k != key ensures Lookup(es', k) == Lookup(es, k) {
      var i, i' := Find(es, k), Find(es', k);
      if i < |es| { assert es'[i].0 == k; }
      if i' < |es'| { assert i' < |es| && es[i'].0 == k; }
    }
  }

  datatype Result<V> = Missing | Found(v: V)

  function Lookup<V>(es: seq<Entry<V>>, key: Key): Result<V> {
    var j := Find(es, key);
    if j < |es| then Found(es[j].1) else Missing
  }

  /** Removing takes one entry out and closes the gap. */
  lemma RemoveRefines<V>(es: seq<Entry<V>>, key: Key)
    requires Unique(es)
    ensures Unique(Remove(es, key)) && Lookup(Remove(es, key), key) == Missing
    ensures forall k :: k != key ==> Lookup(Remove(es, key), k) == Lookup(es, k)
    ensures Has(es, key) ==> |Remove(es, key)| == |es| - 1
    ensures !Has(es, key) ==> Remove(es, key) == es
  {
    hide Find, Lookup;
    HasFound(es, key);
    var j, es' := Find(es, key), Remove(es, key);
    if j < |es| {
      Closes(es, j);
      LookupNone(es', key);
      forall k | k != key ensures Lookup(es', k) == Lookup(es, k) {
        OthersStay(es, j, k);
      }
    } else {
      LookupNone(es, key);
    }
  }

  /** What remains after position `j` is taken out. */
  lemma Closes<V>(es: seq<Entry<V>>, j: nat)
    requires Unique(es) && j < |es|
    ensures var es' := es[..j] + es[j + 1..];
            Unique(es') && (forall i :: 0 <= i < |es'| ==> es'[i] == es[if i < j then i else i + 1]) && forall i :: 0 <= i < |es'| ==> es'[i].0 != es[j].0
  {
  }

  lemma OthersStay<V>(es: seq<Entry<V>>, j: nat, k: Key)
    requires Unique(es) && j < |es| && k != es[j].0
    ensures Lookup(es[..j] + es[j + 1..], k) == Lookup(es, k)
  {
    hide Find, Lookup;
    var es' := es[..j] + es[j + 1..];
    Closes(es, j);
    if i :| 0 <= i < |es| && es[i].0 == k {
      LookupAt(es, k, i);
      LookupAt(es', k, if i < j then i else i - 1);
    } else {
      LookupNone(es, k);
      LookupNone(es', k);
    }
  }

  /** Removing what was put in new takes the map back to where it was. */
  lemma PutThenRemove<V>(es: seq<Entry<V>>, key: Key, v: V)
    requires !Has(es, key)
    ensures Remove(Put(es, key, v), key) == es
  {
    HasFound(es, key);
    FindIs(es + [(key, v)], key, |es|);
  }

  /** The entries of `fs` put in one after the other. */
  function PutAll<V>(es: seq<Entry<V>>, fs: seq<Entry<V>>): seq<Entry<V>> {
    if fs == [] then es
    else
      var last := fs[|fs| - 1];
      Put(PutAll(es, fs[..|fs| - 1]), last.0, last.1)
  }

  /** Keys stay unique, and the later map wins where both have a key. */
  lemma {:induction false} PutAllRefines<V>(es: seq<Entry<V>>, fs: seq<Entry<V>>)
    requires Unique(es) && Unique(fs)
    ensures Unique(PutAll(es, fs))
    ensures forall k :: Lookup(PutAll(es, fs), k) == if Has(fs, k) then Lookup(fs, k) else Lookup(es, k)
    decreases |fs|
  {
    hide Put, Lookup, Find;
    if fs != [] {
      var n := |fs| - 1;
      var init := fs[..n];
      PutAllRefines(es, init);
      PutRefines(PutAll(es, init), fs[n].0, fs[n].1);
      forall k ensures Lookup(PutAll(es, fs), k) == if Has(fs, k) then Lookup(fs, k) else Lookup(es, k) {
        if k == fs[n].0 {
          LookupAt(fs, k, n);
        } else {
          InitLookup(fs, k);
        }
      }
    }
  }

  lemma InitLookup<V>(fs: seq<Entry<V>>, k: Key)
    requires Unique(fs) && fs != [] && k != fs[|fs| - 1].0
    ensures var init := fs[..|fs| - 1]; Has(init, k) == Has(fs, k) && (Has(fs, k) ==> Lookup(init, k) == Lookup(fs, k))
  {
    hide Lookup, Find;
    var init := fs[..|fs| - 1];
    if Has(fs, k) {
      var i :| 0 <= i < |fs| && fs[i].0 == k;
      assert init[i].0 == k;
      LookupAt(fs, k, i);
      LookupAt(init, k, i);
    } else {
      forall i | 0 <= i < |init| ensures init[i].0 != k { assert fs[i].0 != k; }
    }
  }
}
