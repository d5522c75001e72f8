/**
 * `KeyValuePair<string, string>` and `Dictionary<string, string>` as the generator
 * uses them. A dictionary that is only ever assigned to (never removed from) is
 * enumerated by .NET in insertion order, and `d[key] = value` on a key already
 * present replaces the value in place. Both facts are visible in the generated
 * text, so a dictionary is modelled as an association list in enumeration order.
 */
module Dictionaries {
  import opened Wrappers

  datatype Pair = Pair(key: string, value: string)

  type Dict = seq<Pair>

  function Keys(d: seq<Pair>): (ks: seq<string>)
    ensures |ks| == |d|
    ensures forall i :: 0 <= i < |d| ==> ks[i] == d[i].key
  {
    seq(|d|, i requires 0 <= i < |d| => d[i].key)
  }

  /** `d.Values`, in enumeration order. */
  function Values(d: Dict): (vs: seq<string>)
    ensures |vs| == |d|
    ensures forall i :: 0 <= i < |d| ==> vs[i] == d[i].value
  {
    seq(|d|, i requires 0 <= i < |d| => d[i].value)
  }

  predicate Distinct(s: seq<string>) {
    forall i, j :: 0 <= i < j < |s| ==> s[i] != s[j]
  }

  /** `d.TryGetValue(k, out v)`. */
  function Get(d: Dict, k: string): (r: Option<string>)
    ensures r.Some? <==> k in Keys(d)
  {
    if |d| == 0 then None
    else if d[0].key == k then Some(d[0].value)
    else
      assert Keys(d) == [d[0].key] + Keys(d[1..]);
      Get(d[1..], k)
  }

  /** `d[k] = v`. */
  function Put(d: Dict, k: string, v: string): Dict {
    if |d| == 0 then [Pair(k, v)]
    else if d[0].key == k then [Pair(k, v)] + d[1..]
    else [d[0]] + Put(d[1..], k, v)
  }

  /** `d[k] = v` appends a new key at the end; an existing key keeps its place and
      takes the new value; every other key keeps its value. */
  lemma PutMeaning(d: Dict, k: string, v: string)
    ensures Get(Put(d, k, v), k) == Some(v)
    ensures forall k' :: k' != k ==> Get(Put(d, k, v), k') == Get(d, k')
    ensures k in Keys(d) ==> Keys(Put(d, k, v)) == Keys(d)
    ensures k !in Keys(d) ==> Keys(Put(d, k, v)) == Keys(d) + [k]
    ensures forall e :: e in Put(d, k, v) ==> e in d || e == Pair(k, v)
  {
    PutGet(d, k, v);
    forall k' | k' != k ensures Get(Put(d, k, v), k') == Get(d, k') {
      PutOther(d, k, v, k');
    }
    PutKeys(d, k, v);
    PutEntries(d, k, v);
  }

  lemma {:induction false} PutGet(d: Dict, k: string, v: string)
    ensures Get(Put(d, k, v), k) == Some(v)
    decreases |d|
  {
    if |d| > 0 && d[0].key != k {
      PutGet(d[1..], k, v);
      assert Put(d, k, v)[1..] == Put(d[1..], k, v);
    }
  }

  lemma {:induction false} PutOther(d: Dict, k: string, v: string, k': string)
    requires k' != k
    ensures Get(Put(d, k, v), k') == Get(d, k')
    decreases |d|
  {
    if |d| > 0 {
      var r := Put(d, k, v);
      if d[0].key == k {
        assert r[1..] == d[1..];
      } else if d[0].key != k' {
        PutOther(d[1..], k, v, k');
        assert r[1..] == Put(d[1..], k, v);
      }
    }
  }

  lemma {:induction false} PutKeys(d: Dict, k: string, v: string)
    ensures k in Keys(d) ==> Keys(Put(d, k, v)) == Keys(d)
    ensures k !in Keys(d) ==> Keys(Put(d, k, v)) == Keys(d) + [k]
    decreases |d|
  {
    if |d| > 0 {
      var tail := d[1..];
      assert d == [d[0]] + tail;
      KeysCons(d[0], tail);
      if d[0].key == k {
        KeysCons(Pair(k, v), tail);
      } else {
        PutKeys(tail, k, v);
        KeysCons(d[0], Put(tail, k, v));
      }
    }
  }

  lemma KeysCons(p: Pair, d: Dict)
    ensures Keys([p] + d) == [p.key] + Keys(d)
  {
  }

  lemma {:induction false} PutEntries(d: Dict, k: string, v: string)
    ensures forall e :: e in Put(d, k, v) ==> e in d || e == Pair(k, v)
    decreases |d|
  {
    if |d| > 0 && d[0].key != k {
      PutEntries(d[1..], k, v);
      assert Put(d, k, v) == [d[0]] + Put(d[1..], k, v);
    }
  }

  /** The keys of `s` in the order of their first occurrence. */
  function Dedup(s: seq<string>): (r: seq<string>)
    ensures Distinct(r)
    ensures forall x :: x in r <==> x in s
  {
    if |s| == 0 then []
    else
      var r := Dedup(s[..|s| - 1]);
      assert s == s[..|s| - 1] + [s[|s| - 1]];
      if s[|s| - 1] in r then r else r + [s[|s| - 1]]
  }

  /** The value of the last pair of `path` whose key is `k`. */
  function LastValue(path: seq<Pair>, k: string): Option<string> {
    if |path| == 0 then None
    else if path[|path| - 1].key == k then Some(path[|path| - 1].value)
    else LastValue(path[..|path| - 1], k)
  }

  /** The dictionary that assigns the pairs of `path` one after the other. */
  function Snapshot(path: seq<Pair>): Dict {
    if |path| == 0 then []
    else
      var last := path[|path| - 1];
      Put(Snapshot(path[..|path| - 1]), last.key, last.value)
  }

  /** A snapshot holds each key of the path once, in the order in which the keys
      first occur. */
  lemma {:induction false} SnapshotKeys(path: seq<Pair>)
    ensures Keys(Snapshot(path)) == Dedup(Keys(path))
    ensures Distinct(Keys(Snapshot(path)))
    decreases |path|
  {
    if |path| > 0 {
      var init := path[..|path| - 1];
      var last := path[|path| - 1];
      SnapshotKeys(init);
      PutMeaning(Snapshot(init), last.key, last.value);
      assert Keys(path)[..|path| - 1] == Keys(init);
    }
  }

  /** Each key of a snapshot has the value of its last occurrence on the path. */
  lemma {:induction false} SnapshotValues(path: seq<Pair>, k: string)
    ensures Get(Snapshot(path), k) == LastValue(path, k)
    decreases |path|
  {
    if |path| > 0 {
      var init := path[..|path| - 1];
      var last := path[|path| - 1];
      SnapshotValues(init, k);
      PutMeaning(Snapshot(init), last.key, last.value);
    }
  }

  /** Every entry of a snapshot is a pair of the path. */
  lemma {:induction false} SnapshotEntries(path: seq<Pair>)
    ensures forall e :: e in Snapshot(path) ==> e in path
    decreases |path|
  {
    if |path| > 0 {
      var init := path[..|path| - 1];
      SnapshotEntries(init);
      PutMeaning(Snapshot(init), path[|path| - 1].key, path[|path| - 1].value);
      assert forall e :: e in init ==> e in path;
    }
  }

  /** Assigning a new key appends it. */
  lemma {:induction false} PutNew(d: Dict, k: string, v: string)
    requires k !in Keys(d)
    ensures Put(d, k, v) == d + [Pair(k, v)]
    decreases |d|
  {
    if |d| > 0 {
      assert Keys(d) == [d[0].key] + Keys(d[1..]);
      PutNew(d[1..], k, v);
      assert d == [d[0]] + d[1..];
    }
  }

  /** A path whose keys are distinct is its own snapshot. */
  lemma {:induction false} SnapshotOfDistinct(path: seq<Pair>)
    requires Distinct(Keys(path))
    ensures Snapshot(path) == path
    decreases |path|
  {
    if |path| > 0 {
      var init := path[..|path| - 1];
      var last := path[|path| - 1];
      assert Keys(init) == Keys(path)[..|path| - 1];
      SnapshotOfDistinct(init);
      assert last.key !in Keys(init) by {
        forall i | 0 <= i < |init| ensures Keys(init)[i] != last.key {
          assert Keys(path)[i] == Keys(init)[i];
          assert Keys(path)[|path| - 1] == last.key;
        }
      }
      PutNew(init, last.key, last.value);
      assert init + [last] == path;
    }
  }
}
