/** `in_place_list_replace` (utils/dict_merge.py): merge the value `right`
    into the value `left`. Primitives and lists are replaced wholesale,
    dicts are merged key by key, and every other combination is a
    `DictMergeError`. */
module DictMerge {
  import opened Wrappers
  import opened Values

  /** The two `DictMergeError` messages the merge raises. */
  datatype MergeError =
    | NonDictIntoDict(right: Value, left: Value)
    | NotImplemented(right: Value, left: Value)

  /** None, str, int, float and bool: the values `right` simply replaces. */
  predicate IsPrimitive(v: Value) {
    v.Null? || v.Bool? || v.Int? || v.Float? || v.Str?
  }

  /** The merge of `right` into `left`. */
  function Merge(left: Value, right: Value): (res: Result<Value, MergeError>)
    ensures IsPrimitive(left) ==> res == Success(right)
    ensures left.List? || left.Tuple? ==> res == Success(right)
    ensures left.Dict? && !right.Dict? ==> res == Failure(NonDictIntoDict(right, left))
    ensures left.Unsupported? ==> res == Failure(NotImplemented(right, left))
    ensures left.Dict? && right.Dict? && res.Success? ==>
              res.value.Dict?
              && Keys(res.value.entries) == Keys(left.entries) + Keys(right.entries)
              && KeySeq(left.entries) <= KeySeq(res.value.entries)
    decreases right, 1
  {
    match left
    case Dict(ls) =>
      if right.Dict? then
        var merged :- MergeEntries(ls, right.entries);
        Success(Dict(merged))
      else
        Failure(NonDictIntoDict(right, left))
    case Unsupported => Failure(NotImplemented(right, left))
    case _ => Success(right)
  }

  /** The loop `for key in right: ...` over the entries of the right dict,
      applied to the entries `ls` of the left one. */
  function MergeEntries(ls: seq<Entry>, rs: seq<Entry>): (res: Result<seq<Entry>, MergeError>)
    ensures res.Success? ==> Keys(res.value) == Keys(ls) + Keys(rs)
    ensures res.Success? ==> forall k :: k !in Keys(rs) ==> Get(res.value, k) == Get(ls, k)
    ensures res.Success? ==> KeySeq(ls) <= KeySeq(res.value)
    decreases rs, 0
  {
    if rs == [] then Success(ls)
    else
      var next :- MergeKey(ls, rs[0]);
      MergeEntries(next, rs[1..])
  }

  /** One iteration of that loop: a key the left dict has takes the merge
      of the two values, a new key takes the right value. */
  function MergeKey(ls: seq<Entry>, e: Entry): (res: Result<seq<Entry>, MergeError>)
    ensures res.Success? ==> Keys(res.value) == Keys(ls) + {e.key}
    ensures res.Success? ==> forall k :: k != e.key ==> Get(res.value, k) == Get(ls, k)
    ensures res.Success? && e.key in Keys(ls) ==> KeySeq(res.value) == KeySeq(ls)
    ensures res.Success? && e.key !in Keys(ls) ==> KeySeq(res.value) == KeySeq(ls) + [e.key]
    decreases e, 2
  {
    match Get(ls, e.key)
    case Some(lv) =>
      var mv :- Merge(lv, e.val);
      Success(Put(ls, e.key, mv))
    case None => Success(Put(ls, e.key, e.val))
  }

  // ---------------------------------------------------------------------
  // Dict into dict, key by key
  // ---------------------------------------------------------------------

  /** Every key the two dicts share merges without error. */
  ghost predicate CommonKeysMerge(ls: seq<Entry>, rs: seq<Entry>) {
    forall k :: k in Keys(ls) && k in Keys(rs) ==> Merge(Get(ls, k).value, Get(rs, k).value).Success?
  }

  /** Merging dict `rs` into dict `ls` fails exactly when some shared key
      fails to merge; on success a key only in `rs` takes its value from
      `rs`, and a shared key holds the merge of its two values. */
  lemma {:induction false} MergeEntriesPointwise(ls: seq<Entry>, rs: seq<Entry>)
    requires DistinctKeys(rs)
    ensures MergeEntries(ls, rs).Success? <==> CommonKeysMerge(ls, rs)
    ensures MergeEntries(ls, rs).Success? ==>
              forall k :: k in Keys(rs) && k !in Keys(ls) ==>
                Get(MergeEntries(ls, rs).value, k) == Get(rs, k)
    ensures MergeEntries(ls, rs).Success? ==>
              forall k :: k in Keys(rs) && k in Keys(ls) ==>
                Merge(Get(ls, k).value, Get(rs, k).value) == Success(Get(MergeEntries(ls, rs).value, k).value)
    decreases |rs|
  {
    if rs != [] {
      var e := rs[0];
      var rest := rs[1..];
      DistinctKeysTail(rs);
      assert Keys(rs) == {e.key} + Keys(rest);
      assert forall k :: k != e.key ==> Get(rs, k) == Get(rest, k);
      var step := MergeKey(ls, e);
      if step.Failure? {
        assert e.key in Keys(ls) && e.key in Keys(rs);
        assert !Merge(Get(ls, e.key).value, Get(rs, e.key).value).Success?;
      } else {
        var next := step.value;
        MergeEntriesPointwise(next, rest);
        assert MergeEntries(ls, rs) == MergeEntries(next, rest);
        assert CommonKeysMerge(ls, rs) <==> CommonKeysMerge(next, rest) by {
          if e.key in Keys(ls) {
            assert Merge(Get(ls, e.key).value, Get(rs, e.key).value).Success?;
          }
        }
      }
    }
  }

  /** The dict-into-dict case of the merge, stated on the two dicts. */
  lemma MergeDicts(ls: seq<Entry>, rs: seq<Entry>)
    requires DistinctKeys(rs)
    ensures Merge(Dict(ls), Dict(rs)).Success? <==> CommonKeysMerge(ls, rs)
    ensures Merge(Dict(ls), Dict(rs)).Success? ==>
              var out := Merge(Dict(ls), Dict(rs)).value.entries;
              && Keys(out) == Keys(ls) + Keys(rs)
              && (forall k :: k in Keys(ls) && k !in Keys(rs) ==> Get(out, k) == Get(ls, k))
              && (forall k :: k in Keys(rs) && k !in Keys(ls) ==> Get(out, k) == Get(rs, k))
              && (forall k :: k in Keys(ls) && k in Keys(rs) ==>
                    Merge(Get(ls, k).value, Get(rs, k).value) == Success(Get(out, k).value))
  {
    MergeEntriesPointwise(ls, rs);
  }

  /** Merging an empty dict into a dict leaves it unchanged. */
  lemma MergeEmptyDict(ls: seq<Entry>)
    ensures Merge(Dict(ls), Dict([])) == Success(Dict(ls))
  {
  }

  // ---------------------------------------------------------------------
  // Key order
  // ---------------------------------------------------------------------

  /** The keys of `rs`, in order, that are not in `known`. */
  function NewKeys(known: set<string>, rs: seq<Entry>): (ks: seq<string>)
    ensures forall i :: 0 <= i < |ks| ==> ks[i] !in known
  {
    if rs == [] then []
    else if rs[0].key in known then NewKeys(known, rs[1..])
    else [rs[0].key] + NewKeys(known, rs[1..])
  }

  lemma {:induction false} NewKeysIgnoresAbsent(known: set<string>, k: string, rs: seq<Entry>)
    requires k !in Keys(rs)
    ensures NewKeys(known + {k}, rs) == NewKeys(known, rs)
  {
    if rs != [] {
      NewKeysIgnoresAbsent(known, k, rs[1..]);
    }
  }

  /** The merged dict lists the left dict's keys in their order, followed
      by the right dict's new keys in the right dict's order. */
  lemma {:induction false} MergeEntriesKeyOrder(ls: seq<Entry>, rs: seq<Entry>)
    requires DistinctKeys(rs)
    requires MergeEntries(ls, rs).Success?
    ensures KeySeq(MergeEntries(ls, rs).value) == KeySeq(ls) + NewKeys(Keys(ls), rs)
    decreases |rs|
  {
    if rs != [] {
      DistinctKeysTail(rs);
      var step := MergeKey(ls, rs[0]);
      assert step.Success?;
      assert MergeEntries(ls, rs) == MergeEntries(step.value, rs[1..]);
      MergeEntriesKeyOrder(step.value, rs[1..]);
      KeyOrderStep(Keys(ls), KeySeq(ls), KeySeq(step.value), rs);
    }
  }

  /** One step of the key order: the first right key joins the `known`
      keys, and the key sequence `before` becomes `after` (the same when
      the key was known, the key appended when it was new). */
  lemma KeyOrderStep(known: set<string>, before: seq<string>, after: seq<string>, rs: seq<Entry>)
    requires rs != [] && rs[0].key !in Keys(rs[1..])
    requires rs[0].key in known ==> after == before
    requires rs[0].key !in known ==> after == before + [rs[0].key]
    ensures after + NewKeys(known + {rs[0].key}, rs[1..]) == before + NewKeys(known, rs)
  {
    var k := rs[0].key;
    var tail := NewKeys(known + {k}, rs[1..]);
    if k in known {
      assert known + {k} == known;
    } else {
      NewKeysIgnoresAbsent(known, k, rs[1..]);
      assert NewKeys(known, rs) == [k] + tail;
      assert before + [k] + tail == before + ([k] + tail);
    }
  }

  // ---------------------------------------------------------------------
  // Well-formedness and idempotence
  // ---------------------------------------------------------------------

  predicate AllWellFormed(es: seq<Entry>) {
    forall i :: 0 <= i < |es| ==> WellFormed(es[i].val)
  }

  /** Merging two well-formed values gives a well-formed value: every dict
      of the result still has distinct keys. */
  lemma {:induction false} MergeWellFormed(left: Value, right: Value)
    requires WellFormed(left) && WellFormed(right)
    requires Merge(left, right).Success?
    ensures WellFormed(Merge(left, right).value)
    decreases right, 1
  {
    if left.Dict? {
      MergeEntriesWellFormed(left.entries, right.entries);
    }
  }

  lemma {:induction false} MergeEntriesWellFormed(ls: seq<Entry>, rs: seq<Entry>)
    requires DistinctKeys(ls) && AllWellFormed(ls) && AllWellFormed(rs)
    requires MergeEntries(ls, rs).Success?
    ensures DistinctKeys(MergeEntries(ls, rs).value) && AllWellFormed(MergeEntries(ls, rs).value)
    decreases rs, 0
  {
    if rs != [] {
      var e := rs[0];
      assert WellFormed(e.val);
      var v: Value;
      if e.key in Keys(ls) {
        var lv := Get(ls, e.key).value;
        var i := KeyIndex(ls, e.key);
        GetAt(ls, i);
        MergeWellFormed(lv, e.val);
        v := Merge(lv, e.val).value;
      } else {
        v := e.val;
      }
      var next := Put(ls, e.key, v);
      assert MergeKey(ls, e) == Success(next);
      PutDistinct(ls, e.key, v);
      PutValues(ls, e.key, v);
      assert MergeEntries(ls, rs) == MergeEntries(next, rs[1..]);
      MergeEntriesWellFormed(next, rs[1..]);
    }
  }

  /** In a dict with distinct keys, `Get` finds the entry at its position. */
  lemma {:induction false} GetAt(es: seq<Entry>, i: nat)
    requires DistinctKeys(es) && i < |es|
    ensures Get(es, es[i].key) == Some(es[i].val)
  {
    if i > 0 {
      DistinctKeysTail(es);
      assert es[0].key != es[i].key;
      GetAt(es[1..], i - 1);
    }
  }

  /** `v` holds no value of an unsupported type at any depth. */
  predicate Plain(v: Value) {
    match v
    case List(items) => forall i :: 0 <= i < |items| ==> Plain(items[i])
    case Tuple(items) => forall i :: 0 <= i < |items| ==> Plain(items[i])
    case Dict(es) => forall i :: 0 <= i < |es| ==> Plain(es[i].val)
    case Unsupported => false
    case _ => true
  }

  /** Merging a well-formed settings tree into itself changes nothing. */
  lemma {:induction false} MergeIdempotent(v: Value)
    requires WellFormed(v) && Plain(v)
    ensures Merge(v, v) == Success(v)
    decreases v, 1
  {
    if v.Dict? {
      var es := v.entries;
      forall i | 0 <= i < |es|
        ensures Get(es, es[i].key) == Some(es[i].val)
      {
        GetAt(es, i);
      }
      MergeEntriesUnchanged(es, es);
    }
  }

  /** Merging entries that `ls` already holds, value for value, leaves
      `ls` unchanged. */
  lemma {:induction false} MergeEntriesUnchanged(ls: seq<Entry>, rs: seq<Entry>)
    requires forall i :: 0 <= i < |rs| ==> Get(ls, rs[i].key) == Some(rs[i].val)
    requires forall i :: 0 <= i < |rs| ==> WellFormed(rs[i].val) && Plain(rs[i].val)
    ensures MergeEntries(ls, rs) == Success(ls)
    decreases rs, 0
  {
    if rs != [] {
      var e := rs[0];
      assert Get(ls, e.key) == Some(e.val);
      MergeIdempotent(e.val);
      PutSame(ls, e.key, e.val);
      assert MergeKey(ls, e) == Success(ls);
      MergeEntriesUnchanged(ls, rs[1..]);
    }
  }

  /** Storing the value a key already holds changes nothing. */
  lemma {:induction false} PutSame(es: seq<Entry>, k: string, v: Value)
    requires Get(es, k) == Some(v)
    ensures Put(es, k, v) == es
  {
    if es[0].key != k {
      PutSame(es[1..], k, v);
    }
  }
}
