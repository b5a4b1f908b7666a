/** Python's insertion-ordered `dict`, as a sequence of (key, value) entries.
    Assigning to a key that is present replaces its value where it stands;
    assigning to a new key appends an entry. */
module Dicts {
  import opened Results

  type Dict<K, V> = seq<(K, V)>

  /** The values stored in the records the parser produces. */
  datatype Value = Str(s: string) | Int(i: int) | Null

  /** A parsed table row or block: field name to value. */
  type Record = Dict<string, Value>

  function Keys<K, V>(d: Dict<K, V>): (ks: seq<K>)
    ensures |ks| == |d|
    ensures forall i :: 0 <= i < |d| ==> ks[i] == d[i].0
  {
    seq(|d|, i requires 0 <= i < |d| => d[i].0)
  }

  predicate UniqueKeys<K(==), V>(d: Dict<K, V>) {
    forall i, j :: 0 <= i < j < |d| ==> d[i].0 != d[j].0
  }

  /** Position of the entry with key `k`, the first one if several. */
  function IndexOf<K(==), V>(d: Dict<K, V>, k: K, from: nat := 0): (r: Option<nat>)
    requires from <= |d|
    decreases |d| - from
    ensures r.Some? ==> from <= r.value < |d| && d[r.value].0 == k
    ensures r.Some? ==> forall j :: from <= j < r.value ==> d[j].0 != k
    ensures r.None? ==> forall j :: from <= j < |d| ==> d[j].0 != k
  {
    if from == |d| then None
    else if d[from].0 == k then Some(from)
    else IndexOf(d, k, from + 1)
  }

  /** The first entry with key `k` is the one at `i`. */
  lemma {:induction false} IndexOfFirst<K, V>(d: Dict<K, V>, k: K, i: nat, from: nat := 0)
    requires from <= i < |d| && d[i].0 == k
    requires forall j :: from <= j < i ==> d[j].0 != k
    ensures IndexOf(d, k, from) == Some(i)
    decreases i - from
  {
    if from < i {
      IndexOfFirst(d, k, i, from + 1);
    }
  }

  /** `d.get(k)` */
  function Get<K(==), V>(d: Dict<K, V>, k: K): (r: Option<V>)
    ensures r.Some? <==> k in Keys(d)
  {
    match IndexOf(d, k)
    case Some(i) => Some(d[i].1)
    case None => None
  }

  /** `d[k] = v` */
  function Put<K(==), V>(d: Dict<K, V>, k: K, v: V): Dict<K, V> {
    match IndexOf(d, k)
    case Some(i) => d[i := (k, v)]
    case None => d + [(k, v)]
  }

  /** After `d[k] = v`, `d[k]` is `v`; an existing key keeps its place and a
      new key is appended at the end. */
  lemma PutSpec<K, V>(d: Dict<K, V>, k: K, v: V)
    ensures Get(Put(d, k, v), k) == Some(v)
    ensures Keys(Put(d, k, v)) == if k in Keys(d) then Keys(d) else Keys(d) + [k]
    ensures k !in Keys(d) ==> Put(d, k, v) == d + [(k, v)]
  {
    match IndexOf(d, k)
    case Some(i) =>
      IndexOfFirst(d[i := (k, v)], k, i);
    case None =>
      IndexOfFirst(d + [(k, v)], k, |d|);
  }

  /** Assignment keeps keys distinct. */
  lemma PutUnique<K, V>(d: Dict<K, V>, k: K, v: V)
    requires UniqueKeys(d)
    ensures UniqueKeys(Put(d, k, v))
  {
    var r := Put(d, k, v);
    PutSpec(d, k, v);
    forall i, j | 0 <= i < j < |r| ensures r[i].0 != r[j].0 {
      assert Keys(r)[i] == r[i].0 && Keys(r)[j] == r[j].0;
      if j == |d| {
        assert k !in Keys(d);
        assert Keys(d)[i] == d[i].0;
      } else {
        assert Keys(d)[i] == d[i].0 && Keys(d)[j] == d[j].0;
      }
    }
  }

  /** Assigning again to the key just appended replaces its value there. */
  lemma PutReplaceLast<K, V>(d: Dict<K, V>, k: K, v: V, w: V)
    requires k !in Keys(d)
    ensures Put(d + [(k, v)], k, w) == d + [(k, w)]
  {
    var r := d + [(k, v)];
    forall j | 0 <= j < |d| ensures r[j].0 != k {
      assert Keys(d)[j] == d[j].0;
    }
    IndexOfFirst(r, k, |d|);
  }

  /** Assigning one key leaves every other key's value as it was. */
  lemma GetPutOther<K, V>(d: Dict<K, V>, k: K, v: V, other: K)
    requires other != k
    ensures Get(Put(d, k, v), other) == Get(d, other)
  {
    var r := Put(d, k, v);
    match IndexOf(d, other)
    case Some(i) =>
      assert r[i] == d[i];
      IndexOfFirst(r, other, i);
    case None =>
      assert IndexOf(r, other).None? by {
        forall j | 0 <= j < |r| ensures r[j].0 != other {
          assert (j < |d| && r[j] == d[j]) || r[j].0 == k;
        }
      }
  }

  /** Assigns every entry of `entries` to `d`, left to right. */
  function PutAll<K(==), V>(d: Dict<K, V>, entries: seq<(K, V)>): Dict<K, V>
    decreases |entries|
  {
    if entries == [] then d
    else
      var last := entries[|entries| - 1];
      Put(PutAll(d, entries[..|entries| - 1]), last.0, last.1)
  }

  /** The value of the last entry with key `k`, if there is one. */
  function LastValue<K(==), V>(entries: seq<(K, V)>, k: K): Option<V>
    decreases |entries|
  {
    if entries == [] then None
    else if entries[|entries| - 1].0 == k then Some(entries[|entries| - 1].1)
    else LastValue(entries[..|entries| - 1], k)
  }

  /** There is a last value for `k` exactly when some entry has key `k`. */
  lemma {:induction false} LastValueSome<K, V>(entries: seq<(K, V)>, k: K)
    ensures LastValue(entries, k).Some? <==> k in Keys(entries)
    decreases |entries|
  {
    if entries != [] {
      assert Keys(entries) == Keys(entries[..|entries| - 1]) + [entries[|entries| - 1].0];
      LastValueSome(entries[..|entries| - 1], k);
    }
  }

  /** Each key of the result holds the value of its last assignment: a dict
      built from a list of assignments keeps the last value per key. */
  lemma {:induction false} GetPutAll<K, V>(d: Dict<K, V>, entries: seq<(K, V)>, k: K)
    ensures Get(PutAll(d, entries), k) ==
            if k in Keys(entries) then LastValue(entries, k) else Get(d, k)
    decreases |entries|
  {
    if entries != [] {
      var init := entries[..|entries| - 1];
      var last := entries[|entries| - 1];
      assert Keys(entries) == Keys(init) + [last.0];
      GetPutAll(d, init, k);
      PutSpec(PutAll(d, init), last.0, last.1);
      if last.0 != k {
        GetPutOther(PutAll(d, init), last.0, last.1, k);
      }
    }
  }

  /** Assigning distinct keys to an empty dict yields exactly the entries, in order. */
  lemma {:induction false} PutAllDistinct<K, V>(entries: seq<(K, V)>)
    requires UniqueKeys(entries)
    ensures PutAll([], entries) == entries
    decreases |entries|
  {
    if entries != [] {
      var init := entries[..|entries| - 1];
      var last := entries[|entries| - 1];
      PutAllDistinct(init);
      PutSpec(init, last.0, last.1);
      assert last.0 !in Keys(init) by {
        forall i | 0 <= i < |init| ensures Keys(init)[i] != last.0 {
          assert entries[i].0 != entries[|entries| - 1].0;
        }
      }
      assert init + [last] == entries;
    }
  }

  /** In a dict with distinct keys, looking up the key of an entry gives that entry's value. */
  lemma {:induction false} GetUnique<K, V>(d: Dict<K, V>, i: nat)
    requires UniqueKeys(d) && i < |d|
    ensures Get(d, d[i].0) == Some(d[i].1)
    decreases i
  {
    if i > 0 {
      assert UniqueKeys(d[1..]) by {
        forall a, b | 0 <= a < b < |d[1..]| ensures d[1..][a].0 != d[1..][b].0 {
          assert d[1..][a] == d[a + 1] && d[1..][b] == d[b + 1];
        }
      }
      assert d[0].0 != d[i].0;
      GetUnique(d[1..], i - 1);
    }
  }

  /** A key is in the result of assigning `entries` iff it was in `d` or is
      assigned by some entry. */
  lemma {:induction false} KeysPutAll<K, V>(d: Dict<K, V>, entries: seq<(K, V)>, k: K)
    ensures k in Keys(PutAll(d, entries)) <==> k in Keys(d) || k in Keys(entries)
    decreases |entries|
  {
    if entries != [] {
      var init := entries[..|entries| - 1];
      var last := entries[|entries| - 1];
      assert Keys(entries) == Keys(init) + [last.0];
      KeysPutAll(d, init, k);
      PutSpec(PutAll(d, init), last.0, last.1);
    }
  }

  /** Assigning entries keeps keys distinct. */
  lemma {:induction false} PutAllUnique<K, V>(d: Dict<K, V>, entries: seq<(K, V)>)
    requires UniqueKeys(d)
    ensures UniqueKeys(PutAll(d, entries))
    decreases |entries|
  {
    if entries != [] {
      var init := entries[..|entries| - 1];
      var last := entries[|entries| - 1];
      PutAllUnique(d, init);
      PutUnique(PutAll(d, init), last.0, last.1);
    }
  }

  /** The value of an entry that no later entry reassigns is the one that is kept. */
  lemma {:induction false} LastValueAt<K, V>(entries: seq<(K, V)>, i: nat)
    requires i < |entries|
    requires forall j :: i < j < |entries| ==> entries[j].0 != entries[i].0
    ensures LastValue(entries, entries[i].0) == Some(entries[i].1)
    decreases |entries|
  {
    if i < |entries| - 1 {
      var init := entries[..|entries| - 1];
      assert init[i] == entries[i];
      LastValueAt(init, i);
    }
  }

  /** In a dict with distinct keys, the last entry with a key is its only one. */
  lemma {:induction false} LastValueUnique<K, V>(d: Dict<K, V>, k: K)
    requires UniqueKeys(d)
    ensures LastValue(d, k) == Get(d, k)
    decreases |d|
  {
    if d != [] {
      var init := d[..|d| - 1];
      var last := d[|d| - 1];
      if last.0 == k {
        GetUnique(d, |d| - 1);
      } else {
        assert UniqueKeys(init) by {
          forall a, b | 0 <= a < b < |init| ensures init[a].0 != init[b].0 {
            assert init[a] == d[a] && init[b] == d[b];
          }
        }
        LastValueUnique(init, k);
        assert last.0 !in Keys(init) by {
          forall i | 0 <= i < |init| ensures Keys(init)[i] != last.0 {
            assert d[i].0 != d[|d| - 1].0;
          }
        }
        PutSpec(init, last.0, last.1);
        assert Put(init, last.0, last.1) == d by {
          assert init + [last] == d;
        }
        GetPutOther(init, last.0, last.1, k);
      }
    }
  }

  /** `{**base_entries, **dict(entries)}`: merging the dict built from `entries`
      into `base` gives each key its last assigned value, or its old one. */
  lemma GetMerge<K, V>(base: Dict<K, V>, entries: seq<(K, V)>, k: K)
    ensures Get(PutAll(base, PutAll([], entries)), k) ==
            if k in Keys(entries) then LastValue(entries, k) else Get(base, k)
  {
    var inner := PutAll([], entries);
    GetPutAll(base, inner, k);
    KeysPutAll([], entries, k);
    PutAllUnique([], entries);
    LastValueUnique(inner, k);
    GetPutAll([], entries, k);
  }

  lemma {:induction false} KeysAppend<K, V>(a: seq<(K, V)>, b: seq<(K, V)>)
    ensures Keys(a + b) == Keys(a) + Keys(b)
    decreases |a|
  {
    if a != [] {
      assert (a + b)[1..] == a[1..] + b;
      KeysAppend(a[1..], b);
    } else {
      assert a + b == b;
    }
  }

  /** Assigning `a` then `b` is assigning `a + b`. */
  lemma {:induction false} PutAllAppend<K, V>(d: Dict<K, V>, a: seq<(K, V)>, b: seq<(K, V)>)
    ensures PutAll(d, a + b) == PutAll(PutAll(d, a), b)
    decreases |b|
  {
    if b == [] {
      assert a + b == a;
    } else {
      var init := b[..|b| - 1];
      assert (a + b)[..|a + b| - 1] == a + init;
      PutAllAppend(d, a, init);
    }
  }

  /** Assigning one more entry at the end is one more `Put`. */
  lemma PutAllSnoc<K, V>(d: Dict<K, V>, entries: seq<(K, V)>, e: (K, V))
    ensures PutAll(d, entries + [e]) == Put(PutAll(d, entries), e.0, e.1)
  {
    assert (entries + [e])[..|entries|] == entries;
  }

  /** Assigning two more entries at the end is two more `Put`s. */
  lemma PutAllPair<K, V>(d: Dict<K, V>, entries: seq<(K, V)>, a: (K, V), b: (K, V))
    ensures PutAll(d, entries + [a, b]) == Put(Put(PutAll(d, entries), a.0, a.1), b.0, b.1)
  {
    assert entries + [a, b] == (entries + [a]) + [b];
    PutAllSnoc(d, entries + [a], b);
    PutAllSnoc(d, entries, a);
  }

  /** Entries for other keys appended at the end do not change the last value of `k`. */
  lemma {:induction false} LastValueAppendOther<K, V>(a: seq<(K, V)>, b: seq<(K, V)>, k: K)
    requires k !in Keys(b)
    ensures LastValue(a + b, k) == LastValue(a, k)
    decreases |b|
  {
    if b == [] {
      assert a + b == a;
    } else {
      var init := b[..|b| - 1];
      assert Keys(b) == Keys(init) + [b[|b| - 1].0];
      assert (a + b)[..|a + b| - 1] == a + init;
      LastValueAppendOther(a, init, k);
    }
  }
}
