/** The ordered key/value store the index is kept in, seen through the three
    operations the index uses: an atomic batch of puts, a point lookup, and a
    scan of the keys strictly between two bounds in ascending order. Its state
    is the sequence of its entries in key order. */
module Backend {
  import opened Strings
  import opened Results

  datatype Entry<V> = Entry(key: string, value: V)

  /** Keys strictly ascending: the store's order, and no key twice. */
  predicate Sorted<V>(es: seq<Entry<V>>) {
    forall i, j :: 0 <= i < j < |es| ==> Less(es[i].key, es[j].key)
  }

  /** Point lookup. */
  function Get<V>(es: seq<Entry<V>>, k: string): (r: Option<V>)
    ensures r.Some? ==> Entry(k, r.value) in es
    ensures r.None? ==> forall i :: 0 <= i < |es| ==> es[i].key != k
  {
    if es == [] then None
    else if es[0].key == k then Some(es[0].value)
    else Get(es[1..], k)
  }

  /** One put: the entry for `k` now holds `v`; every other key keeps its
      value, and the keys stay in order. */
  function Put<V>(es: seq<Entry<V>>, k: string, v: V): (r: seq<Entry<V>>)
    requires Sorted(es)
    ensures Sorted(r)
    ensures forall e :: e in r ==> e == Entry(k, v) || e in es
    ensures forall k' :: Get(r, k') == if k' == k then Some(v) else Get(es, k')
  {
    if es == [] then [Entry(k, v)]
    else if es[0].key == k then [Entry(k, v)] + es[1..]
    else if Less(k, es[0].key) then
      var r := [Entry(k, v)] + es;
      forall i, j | 0 <= i < j < |r| ensures Less(r[i].key, r[j].key) {
        if i == 0 && j > 1 { LessTransitive(k, es[0].key, es[j - 1].key); }
      }
      r
    else
      var tail := Put(es[1..], k, v);
      LessTotal(k, es[0].key);
      var r := [es[0]] + tail;
      forall i, j | 0 <= i < j < |r| ensures Less(r[i].key, r[j].key) {
        if i == 0 {
          assert r[j] in tail;
          if r[j] != Entry(k, v) {
            var m :| 0 <= m < |es[1..]| && es[1..][m] == r[j];
            assert es[m + 1] == r[j];
          }
        }
      }
      r
  }

  /** The value of the last put for `k` in a batch, if any. */
  function LastPut<V>(ops: seq<Entry<V>>, k: string): (r: Option<V>)
    ensures r.Some? ==> Entry(k, r.value) in ops
    ensures r.None? ==> forall i :: 0 <= i < |ops| ==> ops[i].key != k
    decreases |ops|
  {
    if ops == [] then None
    else if ops[|ops| - 1].key == k then Some(ops[|ops| - 1].value)
    else LastPut(ops[..|ops| - 1], k)
  }

  /** A batch of puts applied in order. A lookup afterwards sees the last put
      for its key in the batch, or the old value when the batch does not
      touch that key. */
  function ApplyBatch<V>(es: seq<Entry<V>>, ops: seq<Entry<V>>): (r: seq<Entry<V>>)
    requires Sorted(es)
    ensures Sorted(r)
    ensures forall k :: Get(r, k) == if LastPut(ops, k).Some? then LastPut(ops, k) else Get(es, k)
    decreases |ops|
  {
    if ops == [] then es
    else
      var last := ops[|ops| - 1];
      Put(ApplyBatch(es, ops[..|ops| - 1]), last.key, last.value)
  }

  /** The entries whose keys lie strictly between `lo` and `hi`, in the
      store's order. */
  function Scan<V>(es: seq<Entry<V>>, lo: string, hi: string): (r: seq<Entry<V>>)
    ensures forall e :: e in r ==> e in es && Less(lo, e.key) && Less(e.key, hi)
    ensures forall e :: e in es && Less(lo, e.key) && Less(e.key, hi) ==> e in r
  {
    if es == [] then []
    else
      var tail := Scan(es[1..], lo, hi);
      assert forall e :: e in es[1..] ==> e in es;
      if Less(lo, es[0].key) && Less(es[0].key, hi) then [es[0]] + tail else tail
  }

  /** A scan returns its entries in the store's key order. */
  lemma {:induction false} ScanSorted<V>(es: seq<Entry<V>>, lo: string, hi: string)
    requires Sorted(es)
    ensures Sorted(Scan(es, lo, hi))
  {
    if es != [] {
      var tail := Scan(es[1..], lo, hi);
      ScanSorted(es[1..], lo, hi);
      if Less(lo, es[0].key) && Less(es[0].key, hi) {
        forall j | 0 <= j < |tail| ensures Less(es[0].key, tail[j].key) {
          assert tail[j] in es[1..];
          var m :| 0 <= m < |es[1..]| && es[1..][m] == tail[j];
          assert es[m + 1] == tail[j];
        }
      }
    }
  }

  /** In a sorted store a lookup finds the entry holding the key. */
  lemma {:induction false} GetSorted<V>(es: seq<Entry<V>>, e: Entry<V>)
    requires Sorted(es) && e in es
    ensures Get(es, e.key) == Some(e.value)
  {
    if es[0] != e {
      var m :| 0 <= m < |es| && es[m] == e;
      assert m > 0 && Less(es[0].key, e.key);
      LessIrreflexive(e.key);
      assert es[1..][m - 1] == e;
      GetSorted(es[1..], e);
    }
  }
}
