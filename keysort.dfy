/**
 * The `CollationKey[]` array of Main.java's sort pipelines: its elements
 * (null or a key that remembers its source string), the in-place
 * `Arrays.sort` over it, and reading the source strings back.
 */
module KeySort {
  import opened Wrappers
  import opened Platform

  /** A `CollationKey`: `getSourceString()` is `source`, `compareTo` orders by `key`. */
  datatype CollationKey<K> = CollationKey(source: string, key: K)

  /** A slot of the `CollationKey[]` array; `None` is a null slot. */
  type Slot<K> = Option<CollationKey<K>>

  /** Slot `x` holds a key no greater than the key in slot `y` (both non-null). */
  predicate SlotLe<K>(le: (K, K) -> bool, x: Slot<K>, y: Slot<K>)
  {
    x.Some? && y.Some? && le(x.value.key, y.value.key)
  }

  /** No slot is null and the keys are non-decreasing under `le`. */
  ghost predicate SortedSlots<K>(le: (K, K) -> bool, s: seq<Slot<K>>)
  {
    None !in s && forall i, j :: 0 <= i < j < |s| ==> SlotLe(le, s[i], s[j])
  }

  /** The source strings of a null-free slot sequence, in slot order. */
  function Sources<K>(s: seq<Slot<K>>): (r: seq<string>)
    requires None !in s
    ensures |r| == |s|
    ensures forall i :: 0 <= i < |s| ==> r[i] == s[i].value.source
  {
    if s == [] then [] else [s[0].value.source] + Sources(s[1..])
  }

  /** Every non-null slot holds the collation key that `keyOf` gives its source string. */
  ghost predicate KeysOf<K>(keyOf: string -> K, s: seq<Slot<K>>)
  {
    forall x :: x in s && x.Some? ==> x.value.key == keyOf(x.value.source)
  }

  /** The keys in slots `lo` up to (excluding) `hi` are non-null and non-decreasing under `le`. */
  ghost predicate SortedBetween<K>(le: (K, K) -> bool, s: seq<Slot<K>>, lo: int, hi: int)
    requires 0 <= lo <= hi <= |s|
  {
    forall p, q :: lo <= p < q < hi ==> SlotLe(le, s[p], s[q])
  }

  /** Exchanges the slots `j - 1` and `j`. */
  method SwapDown<K>(a: array<Slot<K>>, j: int)
    requires 0 < j < a.Length
    modifies a
    ensures a[..] == old(a[..])[j - 1 := old(a[j])][j := old(a[j - 1])]
    ensures multiset(a[..]) == multiset(old(a[..]))
  {
    a[j - 1], a[j] := a[j], a[j - 1];
  }

  /**
   * One step of the sort: with slots `0..i` already in order, moves the key
   * in slot `i` down past every greater key, leaving slots `0..i+1` in order.
   */
  method InsertDown<K(==,!new)>(a: array<Slot<K>>, i: int, le: (K, K) -> bool)
    requires TotalPreorder(le)
    requires 0 <= i < a.Length && None !in a[..]
    requires SortedBetween(le, a[..], 0, i)
    modifies a
    ensures None !in a[..] && multiset(a[..]) == multiset(old(a[..]))
    ensures SortedBetween(le, a[..], 0, i + 1)
  {
    var j := i;
    while 0 < j && !le(a[j - 1].value.key, a[j].value.key)
      invariant 0 <= j <= i
      invariant None !in a[..]
      invariant multiset(a[..]) == multiset(old(a[..]))
      invariant forall p, q :: 0 <= p < q <= i && q != j ==> SlotLe(le, a[p], a[q])
      invariant forall q :: j < q <= i ==> SlotLe(le, a[j], a[q])
      invariant 0 < j < i ==> SlotLe(le, a[j - 1], a[j + 1])
    {
      SwapDown(a, j);
      j := j - 1;
    }
  }

  /**
   * `Arrays.sort(collationKeys)`.  A null slot makes the sort (or, failing
   * that, the `getSourceString()` call that follows it) dereference null, so
   * a null slot is reported as `npe` (what the array then holds is not
   * modelled: it is a local that the exception abandons); otherwise the
   * array ends up as a permutation of its old contents, non-decreasing by key.
   */
  method ArraysSort<K(==,!new)>(a: array<Slot<K>>, le: (K, K) -> bool) returns (npe: bool)
    requires TotalPreorder(le)
    modifies a
    ensures npe <==> None in old(a[..])
    ensures !npe ==> SortedSlots(le, a[..]) && multiset(a[..]) == multiset(old(a[..]))
  {
    if None in a[..] {
      return true;
    }
    npe := false;
    var i := 0;
    while i < a.Length
      invariant 0 <= i <= a.Length
      invariant None !in a[..]
      invariant multiset(a[..]) == multiset(old(a[..]))
      invariant SortedBetween(le, a[..], 0, i)
    {
      InsertDown(a, i, le);
      i := i + 1;
    }
  }

  /**
   * The assembly loop: `result.add(key.getSourceString())` for every slot of
   * a null-free array, in array order.
   */
  method CollectSources<K>(a: array<Slot<K>>) returns (result: seq<string>)
    requires None !in a[..]
    ensures result == Sources(a[..])
  {
    result := [];
    for i := 0 to a.Length
      invariant result == Sources(a[..i])
    {
      assert a[..i + 1] == a[..i] + [a[i]];
      result := result + [a[i].value.source];
    }
    assert a[..] == a[..a.Length];
  }

  /**
   * When every slot holds its source's own key, the source strings of the
   * slots occur exactly as often as the slots that hold them.
   */
  lemma {:induction false} SourcesCount<K>(keyOf: string -> K, s: seq<Slot<K>>, w: string)
    requires None !in s && KeysOf(keyOf, s)
    ensures multiset(Sources(s))[w] == multiset(s)[Some(CollationKey(w, keyOf(w)))]
  {
    if s != [] {
      assert s == [s[0]] + s[1..];
      SourcesCount(keyOf, s[1..], w);
      assert Sources(s) == [s[0].value.source] + Sources(s[1..]);
    }
  }

  /** Permuting the slots permutes their source strings. */
  lemma SourcesOfPermutation<K>(keyOf: string -> K, s: seq<Slot<K>>, t: seq<Slot<K>>)
    requires None !in s && KeysOf(keyOf, s)
    requires multiset(s) == multiset(t)
    ensures None !in t && KeysOf(keyOf, t)
    ensures multiset(Sources(s)) == multiset(Sources(t))
  {
    assert forall x :: x in t <==> x in multiset(t);
    assert forall x :: x in s <==> x in multiset(s);
    forall w
      ensures multiset(Sources(s))[w] == multiset(Sources(t))[w]
    {
      SourcesCount(keyOf, s, w);
      SourcesCount(keyOf, t, w);
    }
  }

  /**
   * Sorting the keys and reading the sources back, as the pipelines do
   * after filling the array: a null slot ends in NullPointerException,
   * otherwise the result lists the array's source strings in an order that
   * is non-decreasing by collation key.
   */
  method SortAndCollect<K(==,!new)>(a: array<Slot<K>>, keyOf: string -> K, le: (K, K) -> bool)
    returns (r: Result<seq<string>, JavaException>)
    requires TotalPreorder(le)
    requires KeysOf(keyOf, a[..])
    modifies a
    ensures None in old(a[..]) <==> r == Err(NullPointerException)
    ensures None !in old(a[..]) ==>
              r.Ok? && |r.value| == a.Length &&
              multiset(r.value) == multiset(Sources(old(a[..]))) &&
              forall i, j :: 0 <= i < j < |r.value| ==> le(keyOf(r.value[i]), keyOf(r.value[j]))
  {
    var npe := ArraysSort(a, le);
    if npe {
      return Err(NullPointerException);
    }
    SourcesOfPermutation(keyOf, old(a[..]), a[..]);
    var result := CollectSources(a);
    forall i, j | 0 <= i < j < |result|
      ensures le(keyOf(result[i]), keyOf(result[j]))
    {
      assert SlotLe(le, a[..][i], a[..][j]);
      assert a[..][i] in a[..] && a[..][j] in a[..];
    }
    r := Ok(result);
  }
}
