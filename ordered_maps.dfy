/**
 * PHP arrays keyed by strings, as the router uses them for its pattern registry and its
 * substitution list: an ordered sequence of key/value entries in which assigning an existing
 * key replaces its value in place and assigning a new key appends it, and `unset` removes it.
 */
module OrderedMaps {
  import opened Wrappers

  type OrderedMap<K, V> = seq<(K, V)>

  /** The keys in insertion order (the order `foreach` visits them). */
  function Keys<K, V>(m: OrderedMap<K, V>): (ks: seq<K>)
    ensures |ks| == |m|
    ensures forall i :: 0 <= i < |m| ==> ks[i] == m[i].0
  {
    seq(|m|, i requires 0 <= i < |m| => m[i].0)
  }

  /** No key occurs twice: the shape of every PHP array. */
  ghost predicate DistinctKeys<K, V>(m: OrderedMap<K, V>) {
    forall i, j :: 0 <= i < j < |m| ==> m[i].0 != m[j].0
  }

  /** The position of the first entry under key `k`. */
  function IndexOf<K(==), V>(m: OrderedMap<K, V>, k: K): (r: Option<nat>)
    ensures r.Some? ==> r.value < |m| && m[r.value].0 == k
    ensures r.Some? ==> forall j :: 0 <= j < r.value ==> m[j].0 != k
    ensures r.None? <==> forall j :: 0 <= j < |m| ==> m[j].0 != k
  {
    if m == [] then None
    else if m[0].0 == k then Some(0)
    else match IndexOf(m[1..], k)
      case None => None
      case Some(i) => Some(i + 1)
  }

  /** `isset($m[$k])` (values are never null here). */
  predicate Has<K(==), V>(m: OrderedMap<K, V>, k: K) {
    IndexOf(m, k).Some?
  }

  /** `$m[$k]`, `None` where PHP reads an undefined index. */
  function Get<K(==), V>(m: OrderedMap<K, V>, k: K): (r: Option<V>)
    ensures r.Some? <==> Has(m, k)
    ensures r.Some? ==> (k, r.value) in m
  {
    match IndexOf(m, k)
    case None => None
    case Some(i) => Some(m[i].1)
  }

  /** `$m[$k] = $v`. */
  function Set<K(==), V>(m: OrderedMap<K, V>, k: K, v: V): OrderedMap<K, V> {
    match IndexOf(m, k)
    case Some(i) => m[i := (k, v)]
    case None => m + [(k, v)]
  }

  /** `unset($m[$k])`: every entry under `k` goes, the others keep their order. */
  function Remove<K(==), V>(m: OrderedMap<K, V>, k: K): OrderedMap<K, V> {
    if m == [] then []
    else (if m[0].0 == k then [] else [m[0]]) + Remove(m[1..], k)
  }

  /** `unset` keeps exactly the entries under other keys. */
  lemma {:induction false} RemoveRead<K, V>(m: OrderedMap<K, V>, k: K)
    ensures |Remove(m, k)| <= |m|
    ensures forall i :: 0 <= i < |Remove(m, k)| ==> Remove(m, k)[i] in m && Remove(m, k)[i].0 != k
    ensures forall i :: 0 <= i < |m| && m[i].0 != k ==> m[i] in Remove(m, k)
  {
    if m != [] {
      RemoveRead(m[1..], k);
      assert forall i :: 1 <= i < |m| ==> m[i] == m[1..][i - 1];
    }
  }

  /** After `$m[$k] = $v`, reading `$m[$k]` gives `$v`. */
  lemma GetAfterSet<K, V>(m: OrderedMap<K, V>, k: K, v: V)
    ensures Get(Set(m, k, v), k) == Some(v)
    ensures Has(Set(m, k, v), k)
  {
    match IndexOf(m, k)
    case None =>
      assert Set(m, k, v)[|m|] == (k, v);
    case Some(i) =>
      assert Set(m, k, v)[i] == (k, v);
  }

  /** `$m[$k] = $v` leaves every other key's value as it was. */
  lemma {:induction false} GetOtherAfterSet<K, V>(m: OrderedMap<K, V>, k: K, v: V, k': K)
    requires k' != k
    ensures Get(Set(m, k, v), k') == Get(m, k')
  {
    var m' := Set(m, k, v);
    assert forall j :: 0 <= j < |m| ==> (m'[j].0 == k' <==> m[j].0 == k');
    assert |m'| == |m| || (|m'| == |m| + 1 && m'[|m|].0 == k);
    match IndexOf(m, k')
    case None =>
      assert IndexOf(m', k').None?;
    case Some(i) =>
      assert m'[i] == m[i];
      assert IndexOf(m', k') == Some(i);
  }

  /** `$m[$k] = $v` keeps the insertion order: an existing key stays in place, a new one goes last. */
  lemma KeysAfterSet<K, V>(m: OrderedMap<K, V>, k: K, v: V)
    ensures Has(m, k) ==> Keys(Set(m, k, v)) == Keys(m)
    ensures !Has(m, k) ==> Keys(Set(m, k, v)) == Keys(m) + [k]
  {
    if Has(m, k) {
      assert Keys(Set(m, k, v)) == Keys(m);
    } else {
      assert Keys(Set(m, k, v)) == Keys(m) + [k];
    }
  }

  /** After `unset($m[$k])`, `isset($m[$k])` is false and the other keys read as before. */
  lemma {:induction false} GetAfterRemove<K, V>(m: OrderedMap<K, V>, k: K, k': K)
    ensures !Has(Remove(m, k), k)
    ensures k' != k ==> Get(Remove(m, k), k') == Get(m, k')
  {
    RemoveRead(m, k);
    if k' != k {
      GetOtherAfterRemove(m, k, k');
    }
  }

  lemma {:induction false} GetOtherAfterRemove<K, V>(m: OrderedMap<K, V>, k: K, k': K)
    requires k' != k
    ensures Get(Remove(m, k), k') == Get(m, k')
  {
    if m != [] {
      var rest := Remove(m[1..], k);
      if m[0].0 == k' {
        assert Remove(m, k) == [m[0]] + rest;
      } else {
        GetOtherAfterRemove(m[1..], k, k');
        GetPastHead(m, k');
        if m[0].0 != k {
          assert Remove(m, k) == [m[0]] + rest;
          GetPastHead([m[0]] + rest, k');
          assert ([m[0]] + rest)[1..] == rest;
        } else {
          assert Remove(m, k) == [] + rest == rest;
        }
      }
    }
  }

  /** A lookup skips a first entry under another key. */
  lemma GetPastHead<K, V>(m: OrderedMap<K, V>, k: K)
    requires m != [] && m[0].0 != k
    ensures Get(m, k) == Get(m[1..], k)
  {
  }

  /**
   * In a map without repeated keys, `unset($m[$k])` takes out the one entry under `k` and
   * closes the gap, so every other entry keeps its place in the order; without `k` it
   * changes nothing.
   */
  lemma {:induction false} RemoveAt<K, V>(m: OrderedMap<K, V>, k: K)
    requires DistinctKeys(m)
    ensures IndexOf(m, k).None? ==> Remove(m, k) == m
    ensures IndexOf(m, k).Some? ==>
      var i := IndexOf(m, k).value;
      Remove(m, k) == m[..i] + m[i + 1..]
  {
    if m != [] {
      var tail := m[1..];
      DistinctTail(m);
      RemoveAt(tail, k);
      if m[0].0 == k {
        assert Remove(m, k) == Remove(tail, k) == tail;
        assert m[..0] + m[1..] == tail;
      } else {
        assert Remove(m, k) == [m[0]] + Remove(tail, k);
        match IndexOf(tail, k)
        case None =>
          assert m == [m[0]] + tail;
        case Some(i) =>
          assert m[..i + 1] == [m[0]] + tail[..i];
          assert m[i + 2..] == tail[i + 1..];
      }
    }
  }

  /** Past the first entry the keys stay distinct, and none of them is the first key. */
  lemma DistinctTail<K, V>(m: OrderedMap<K, V>)
    requires m != [] && DistinctKeys(m)
    ensures DistinctKeys(m[1..])
    ensures forall j :: 0 <= j < |m| - 1 ==> m[1..][j].0 != m[0].0
  {
    assert forall j :: 0 <= j < |m| - 1 ==> m[1..][j] == m[j + 1];
  }

  /** Both writes keep the keys distinct, so the registry stays a map. */
  lemma DistinctKeysPreserved<K, V>(m: OrderedMap<K, V>, k: K, v: V)
    requires DistinctKeys(m)
    ensures DistinctKeys(Set(m, k, v))
    ensures DistinctKeys(Remove(m, k))
  {
    RemoveKeepsDistinct(m, k);
  }

  lemma {:induction false} RemoveKeepsDistinct<K, V>(m: OrderedMap<K, V>, k: K)
    requires DistinctKeys(m)
    ensures DistinctKeys(Remove(m, k))
  {
    if m != [] {
      RemoveKeepsDistinct(m[1..], k);
      var rest := Remove(m[1..], k);
      if m[0].0 != k {
        RemoveRead(m[1..], k);
        assert forall i :: 0 <= i < |rest| ==> rest[i] in m[1..];
        assert forall i :: 0 <= i < |m| - 1 ==> m[1..][i].0 != m[0].0;
        assert Remove(m, k) == [m[0]] + rest;
      }
    }
  }
}
