/** JSON-like Python values: the `Mergeable` union of the settings merge
    and the records `json.loads` produces from ansible-lint's output.
    A Python `dict` is an insertion-ordered list of entries. */
module Values {
  import opened Wrappers

  datatype Value =
    | Null
    | Bool(b: bool)
    | Int(i: int)
    | Float(f: real)
    | Str(s: string)
    | List(items: seq<Value>)
    | Tuple(items: seq<Value>)
    | Dict(entries: seq<Entry>)
      /** Any other Python object (a set, bytes, a class instance, ...). */
    | Unsupported

  datatype Entry = Entry(key: string, val: Value)

  /** The keys of a dict, in insertion order. */
  function KeySeq(es: seq<Entry>): (ks: seq<string>)
    ensures |ks| == |es|
    ensures forall i :: 0 <= i < |es| ==> ks[i] == es[i].key
  {
    seq(|es|, i requires 0 <= i < |es| => es[i].key)
  }

  function Keys(es: seq<Entry>): (ks: set<string>)
    ensures forall i :: 0 <= i < |es| ==> es[i].key in ks
  {
    if es == [] then {} else {es[0].key} + Keys(es[1..])
  }

  /** No key occurs twice, as in every Python dict. */
  predicate DistinctKeys(es: seq<Entry>) {
    forall i, j :: 0 <= i < j < |es| ==> es[i].key != es[j].key
  }

  lemma DistinctKeysTail(es: seq<Entry>)
    requires es != [] && DistinctKeys(es)
    ensures es[0].key !in Keys(es[1..]) && DistinctKeys(es[1..])
  {
    if es[0].key in Keys(es[1..]) {
      var j := KeyIndex(es[1..], es[0].key);
    }
  }

  /** A position where key `k` occurs. */
  lemma KeyIndex(es: seq<Entry>, k: string) returns (i: nat)
    requires k in Keys(es)
    ensures i < |es| && es[i].key == k
  {
    if es[0].key == k {
      i := 0;
    } else {
      var j := KeyIndex(es[1..], k);
      i := 1 + j;
    }
  }

  /** Python's `d.get(k)`: the value stored under `k`, if any. */
  function Get(es: seq<Entry>, k: string): (r: Option<Value>)
    ensures r.Some? <==> k in Keys(es)
  {
    if es == [] then None
    else if es[0].key == k then Some(es[0].val)
    else Get(es[1..], k)
  }

  /** Python's `d[k] = v`: an existing key keeps its position and takes
      the new value; a new key is appended. */
  function Put(es: seq<Entry>, k: string, v: Value): (r: seq<Entry>)
    ensures Keys(r) == Keys(es) + {k}
    ensures Get(r, k) == Some(v)
    ensures forall j :: j != k ==> Get(r, j) == Get(es, j)
    ensures k in Keys(es) ==> KeySeq(r) == KeySeq(es)
    ensures k !in Keys(es) ==> KeySeq(r) == KeySeq(es) + [k]
  {
    if es == [] then [Entry(k, v)]
    else if es[0].key == k then [Entry(k, v)] + es[1..]
    else
      var tail := Put(es[1..], k, v);
      var r := [es[0]] + tail;
      assert r[1..] == tail;
      assert KeySeq(r) == [es[0].key] + KeySeq(tail);
      assert KeySeq(es) == [es[0].key] + KeySeq(es[1..]);
      r
  }

  /** The stores `d[k1] = v1; d[k2] = v2; ...` made one after another. */
  function PutAll(es: seq<Entry>, kvs: seq<Entry>): (r: seq<Entry>)
    ensures Keys(r) == Keys(es) + Keys(kvs)
    ensures forall k :: k !in Keys(kvs) ==> Get(r, k) == Get(es, k)
    decreases |kvs|
  {
    if kvs == [] then es else PutAll(Put(es, kvs[0].key, kvs[0].val), kvs[1..])
  }

  /** After a run of stores, a key holds the value of its last store. */
  lemma {:induction false} PutAllLast(es: seq<Entry>, kvs: seq<Entry>, i: nat)
    requires i < |kvs| && kvs[i].key !in Keys(kvs[i + 1..])
    ensures Get(PutAll(es, kvs), kvs[i].key) == Some(kvs[i].val)
    decreases i
  {
    var e1 := Put(es, kvs[0].key, kvs[0].val);
    assert PutAll(es, kvs) == PutAll(e1, kvs[1..]);
    if i > 0 {
      assert kvs[1..][i - 1] == kvs[i] && kvs[1..][i - 1 + 1..] == kvs[i + 1..];
      PutAllLast(e1, kvs[1..], i - 1);
    }
  }

  /** Every entry after `d[k] = v` is an old entry or holds `v`. */
  lemma PutValues(es: seq<Entry>, k: string, v: Value)
    ensures forall i :: 0 <= i < |Put(es, k, v)| ==> Put(es, k, v)[i].val == v || Put(es, k, v)[i] in es
  {
    if es != [] && es[0].key != k {
      PutValues(es[1..], k, v);
      assert Put(es, k, v) == [es[0]] + Put(es[1..], k, v);
    }
  }

  /** `d[k] = v` keeps a dict's keys distinct. */
  lemma PutDistinct(es: seq<Entry>, k: string, v: Value)
    requires DistinctKeys(es)
    ensures DistinctKeys(Put(es, k, v))
  {
    var r := Put(es, k, v);
    assert forall i :: 0 <= i < |r| ==> r[i].key == KeySeq(r)[i];
    assert forall i :: 0 <= i < |es| ==> es[i].key == KeySeq(es)[i];
    if k in Keys(es) {
      assert forall i :: 0 <= i < |r| ==> r[i].key == es[i].key;
    } else {
      var i := |es|;
      assert r[i].key == k;
      forall j | 0 <= j < |es|
        ensures r[j].key != k
      {
        assert r[j].key == es[j].key;
      }
    }
  }

  /** Every dict inside `v`, at any depth, has distinct keys. */
  predicate WellFormed(v: Value) {
    match v
    case List(items) => forall i :: 0 <= i < |items| ==> WellFormed(items[i])
    case Tuple(items) => forall i :: 0 <= i < |items| ==> WellFormed(items[i])
    case Dict(es) => DistinctKeys(es) && forall i :: 0 <= i < |es| ==> WellFormed(es[i].val)
    case _ => true
  }
}
