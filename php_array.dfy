/**
 * A PHP array with string keys and string values, as `parse_headers` returns
 * it: an ordered list of entries in which no key appears twice.
 */
module PhpArray {
  import opened Wrappers

  type Entry = (string, string)

  predicate UniqueKeys(m: seq<Entry>)
  {
    forall i, j :: 0 <= i < j < |m| ==> m[i].0 != m[j].0
  }

  predicate HasKey(m: seq<Entry>, k: string)
  {
    exists i :: 0 <= i < |m| && m[i].0 == k
  }

  type OrderedMap = m: seq<Entry> | UniqueKeys(m) witness []

  /** The position of key `k` in `m`. */
  function Find(m: OrderedMap, k: string): (r: Option<nat>)
    ensures r.Some? ==> r.value < |m| && m[r.value].0 == k
    ensures r.None? <==> !HasKey(m, k)
  {
    FindFrom(m, k, 0)
  }

  function FindFrom(m: seq<Entry>, k: string, from: nat): (r: Option<nat>)
    decreases |m| - from
    ensures r.Some? ==> from <= r.value < |m| && m[r.value].0 == k
    ensures r.None? ==> forall i :: from <= i < |m| ==> m[i].0 != k
  {
    if from >= |m| then None
    else if m[from].0 == k then Some(from)
    else FindFrom(m, k, from + 1)
  }

  /** isset($m[$k]): the values are strings, never null. */
  function Isset(m: OrderedMap, k: string): (r: bool)
    ensures r <==> HasKey(m, k)
  {
    Find(m, k).Some?
  }

  /** $m[$k] for a key that is set: the one value stored under `k`. */
  function Get(m: OrderedMap, k: string): (v: string)
    requires Isset(m, k)
    ensures (k, v) in m
    ensures forall e :: e in m && e.0 == k ==> e.1 == v
  {
    m[Find(m, k).value].1
  }

  /** The entries of `m` whose key is not `k`, in their order: the reference for Unset. */
  function Without(m: seq<Entry>, k: string): seq<Entry>
  {
    if m == [] then []
    else (if m[0].0 == k then [] else [m[0]]) + Without(m[1..], k)
  }

  /**
   * unset($m[$k]): the entry under `k`, if any, is removed; every other entry
   * stays, in its order.
   */
  function Unset(m: OrderedMap, k: string): (r: OrderedMap)
    ensures r == Without(m, k)
    ensures !HasKey(r, k)
    ensures forall e :: e in r <==> e in m && e.0 != k
    ensures |r| == if HasKey(m, k) then |m| - 1 else |m|
  {
    match Find(m, k)
    case None =>
      WithoutAbsent(m, k);
      WithoutMembers(m, k);
      m
    case Some(i) =>
      SpliceIsWithout(m, k, i);
      WithoutMembers(m, k);
      SpliceKeepsKeysUnique(m, i);
      m[..i] + m[i + 1..]
  }

  /** With unique keys, cutting out the entry at the position of `k` is the same as filtering `k` out. */
  lemma {:induction false} SpliceIsWithout(m: seq<Entry>, k: string, i: nat)
    requires UniqueKeys(m) && i < |m| && m[i].0 == k
    ensures m[..i] + m[i + 1..] == Without(m, k)
  {
    var before, tail := m[..i], m[i..];
    KeyOnlyAt(m, k, i);
    WithoutAbsent(before, k);
    DropHead(tail, k);
    assert tail[1..] == m[i + 1..];
    assert m == before + tail;
    WithoutConcat(before, tail, k);
  }

  /** In a map with unique keys, the entries before and after the one under `k` have other keys. */
  lemma {:induction false} KeyOnlyAt(m: seq<Entry>, k: string, i: nat)
    requires UniqueKeys(m) && i < |m| && m[i].0 == k
    ensures forall j :: 0 <= j < |m| && j != i ==> m[j].0 != k
  {
  }

  lemma {:induction false} DropHead(tail: seq<Entry>, k: string)
    requires tail != [] && tail[0].0 == k
    requires forall j :: 1 <= j < |tail| ==> tail[j].0 != k
    ensures Without(tail, k) == tail[1..]
  {
    WithoutAbsent(tail[1..], k);
  }

  lemma {:induction false} SpliceKeepsKeysUnique(m: seq<Entry>, i: nat)
    requires UniqueKeys(m) && i < |m|
    ensures UniqueKeys(m[..i] + m[i + 1..])
  {
    var r := m[..i] + m[i + 1..];
    forall a, b | 0 <= a < b < |r| ensures r[a].0 != r[b].0 {
      var a' := if a < i then a else a + 1;
      var b' := if b < i then b else b + 1;
      assert r[a] == m[a'] && r[b] == m[b'] && a' < b';
    }
  }

  lemma {:induction false} WithoutAbsent(m: seq<Entry>, k: string)
    requires forall i :: 0 <= i < |m| ==> m[i].0 != k
    ensures Without(m, k) == m
  {
    if m != [] {
      WithoutAbsent(m[1..], k);
      assert m == [m[0]] + m[1..];
    }
  }

  lemma {:induction false} WithoutConcat(a: seq<Entry>, b: seq<Entry>, k: string)
    ensures Without(a + b, k) == Without(a, k) + Without(b, k)
  {
    if a == [] {
      assert a + b == b;
    } else {
      assert (a + b)[1..] == a[1..] + b;
      WithoutConcat(a[1..], b, k);
    }
  }

  lemma {:induction false} WithoutMembers(m: seq<Entry>, k: string)
    ensures forall e :: e in Without(m, k) <==> e in m && e.0 != k
  {
    if m != [] {
      WithoutMembers(m[1..], k);
      assert m == [m[0]] + m[1..];
    }
  }
}
