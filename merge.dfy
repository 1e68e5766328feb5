/**
  The small shallow merge of the snapshot command: a reduce over the
  inputs, starting from a fresh object, that writes every own key `k` of
  each input as `obj[k] ?? target[k]`.
 */
module ShallowMerge {
  import opened Js

  /** One step of the reduce: every key of `obj` is written as `obj[k] ?? target[k]`. */
  function Assign(target: map<string, Value>, obj: map<string, Value>): map<string, Value>
  {
    map k | k in target.Keys + obj.Keys :: if k in obj then Coalesce(obj[k], Get(target, k)) else target[k]
  }

  /** The value of `merge(...objs)`. */
  function MergeAll(objs: seq<map<string, Value>>): map<string, Value>
  {
    if objs == [] then map[] else Assign(MergeAll(objs[..|objs| - 1]), objs[|objs| - 1])
  }

  /**
    Visiting one more key `k` of `obj` performs `target[k] = obj[k] ?? target[k]`
    on the result of the keys visited so far (those not in `pending`).
   */
  lemma AssignVisitsOneKey(start: map<string, Value>, obj: map<string, Value>, pending: set<string>, k: string)
    requires k in obj && k in pending
    ensures Assign(start, obj - (pending - {k}))
         == Assign(start, obj - pending)[k := Coalesce(obj[k], Get(Assign(start, obj - pending), k))]
  {
    var lhs := Assign(start, obj - (pending - {k}));
    var rhs := Assign(start, obj - pending)[k := Coalesce(obj[k], Get(Assign(start, obj - pending), k))];
    assert lhs.Keys == rhs.Keys;
    forall j | j in lhs
      ensures lhs[j] == rhs[j]
    {
    }
  }

  /** Before the loop no key is visited; after it, every key of `obj` is. */
  lemma VisitedBounds(start: map<string, Value>, obj: map<string, Value>)
    ensures Assign(start, obj - obj.Keys) == start
    ensures obj - {} == obj
  {
    assert obj - obj.Keys == map[];
  }

  /** The body of the reduce callback: `for (let k in obj) target[k] = obj[k] ?? target[k]`. */
  method AssignKeys(start: map<string, Value>, obj: map<string, Value>) returns (target: map<string, Value>)
    ensures target == Assign(start, obj)
  {
    target := start;
    var pending := obj.Keys;
    VisitedBounds(start, obj);
    while pending != {}
      invariant pending <= obj.Keys
      invariant target == Assign(start, obj - pending)
      decreases |pending|
    {
      var k :| k in pending;
      AssignVisitsOneKey(start, obj, pending, k);
      target := target[k := Coalesce(obj[k], Get(target, k))];
      pending := pending - {k};
    }
  }

  /** `merge(...objs)`: the reduce, starting from a fresh object. */
  method Merge(objs: seq<map<string, Value>>) returns (target: map<string, Value>)
    ensures target == MergeAll(objs)
  {
    target := map[];
    for i := 0 to |objs|
      invariant target == MergeAll(objs[..i])
    {
      target := AssignKeys(target, objs[i]);
      assert objs[..i + 1][..i] == objs[..i];
    }
    assert objs[..|objs|] == objs;
  }

  /** The result's keys are exactly the keys of the inputs together. */
  lemma {:induction false} MergeAllKeys(objs: seq<map<string, Value>>, k: string)
    ensures k in MergeAll(objs) <==> exists i :: 0 <= i < |objs| && k in objs[i]
  {
    if objs != [] {
      var n := |objs| - 1;
      var init := objs[..n];
      MergeAllKeys(init, k);
      if k in MergeAll(init) {
        var i :| 0 <= i < |init| && k in init[i];
        assert objs[i] == init[i];
      }
      if exists i :: 0 <= i < |objs| && k in objs[i] {
        var i :| 0 <= i < |objs| && k in objs[i];
        if i < n {
          assert init[i] == objs[i];
        }
      }
    }
  }

  /**
    A key takes its value from the last input whose value for it is neither
    null nor undefined: later nullish values never replace it.
   */
  lemma {:induction false} LastDefinedWins(objs: seq<map<string, Value>>, k: string, i: int)
    requires 0 <= i < |objs| && k in objs[i] && !IsNullish(objs[i][k])
    requires forall j :: i < j < |objs| && k in objs[j] ==> IsNullish(objs[j][k])
    ensures k in MergeAll(objs) && MergeAll(objs)[k] == objs[i][k]
  {
    var n := |objs| - 1;
    var init := objs[..n];
    if i < n {
      forall j | i < j < |init| && k in init[j]
        ensures IsNullish(init[j][k])
      {
        assert init[j] == objs[j];
      }
      LastDefinedWins(init, k, i);
    }
  }

  /** A key that every input leaves nullish ends up `undefined`, never `null`. */
  lemma {:induction false} AllNullishIsUndefined(objs: seq<map<string, Value>>, k: string)
    requires k in MergeAll(objs)
    requires forall i :: 0 <= i < |objs| && k in objs[i] ==> IsNullish(objs[i][k])
    ensures MergeAll(objs)[k] == Undefined
  {
    var n := |objs| - 1;
    var init := objs[..n];
    forall i | 0 <= i < |init| && k in init[i]
      ensures IsNullish(init[i][k])
    {
      assert init[i] == objs[i];
    }
    if k in MergeAll(init) {
      AllNullishIsUndefined(init, k);
    }
  }

  /** The merge never yields `null`: a null input value becomes `undefined` or is skipped. */
  lemma {:induction false} MergeAllHasNoNull(objs: seq<map<string, Value>>, k: string)
    requires k in MergeAll(objs)
    ensures MergeAll(objs)[k] != Null
  {
    var n := |objs| - 1;
    var init := objs[..n];
    if k in MergeAll(init) {
      MergeAllHasNoNull(init, k);
    }
  }

  /** Appending an input whose value for a key is nullish keeps the merged value of that key. */
  lemma NullishDoesNotOverride(objs: seq<map<string, Value>>, obj: map<string, Value>, k: string)
    requires k in MergeAll(objs) && k in obj && IsNullish(obj[k])
    ensures k in MergeAll(objs + [obj]) && MergeAll(objs + [obj])[k] == MergeAll(objs)[k]
  {
    assert (objs + [obj])[..|objs|] == objs;
  }

  /** The scenario `{a:1}`, `{a:2,b:3}`, `{b:4}` merges to `{a:2,b:4}`. */
  lemma MergeScenario()
    ensures MergeAll([map["a" := Num(1)], map["a" := Num(2), "b" := Num(3)], map["b" := Num(4)]])
         == map["a" := Num(2), "b" := Num(4)]
  {
    var o1, o2, o3 := map["a" := Num(1)], map["a" := Num(2), "b" := Num(3)], map["b" := Num(4)];
    var m1, m2 := map["a" := Num(1)], map["a" := Num(2), "b" := Num(3)];
    assert [o1, o2, o3][..2] == [o1, o2];
    assert [o1, o2][..1] == [o1];
    assert [o1][..0] == [];
    assert Assign(map[], o1) == m1 by {
      assert Assign(map[], o1).Keys == m1.Keys;
    }
    assert Assign(m1, o2) == m2 by {
      assert Assign(m1, o2).Keys == m2.Keys;
    }
    assert Assign(m2, o3) == map["a" := Num(2), "b" := Num(4)] by {
      assert Assign(m2, o3).Keys == {"a", "b"};
    }
    assert MergeAll([o1]) == Assign(MergeAll([]), o1) == m1;
    assert MergeAll([o1, o2]) == Assign(MergeAll([o1]), o2) == m2;
    assert MergeAll([o1, o2, o3]) == Assign(MergeAll([o1, o2]), o3);
  }
}
