/**
 * The `byId` record the drivers and teams slices derive from their `items`
 * (screens/driversSlice.ts, screens/teamsSlice.ts): `items.reduce((acc, x) => { acc[x.id] = x; return acc }, {})`.
 */
module ById {
  import opened Wrappers

  /** The record the reduce builds over `items`, visiting them in order; a later item overwrites an earlier one with the same id. */
  function Index<T>(items: seq<T>, key: T -> int): map<int, T>
    decreases |items|
  {
    if items == [] then map[]
    else Index(items[..|items| - 1], key)[key(items[|items| - 1]) := items[|items| - 1]]
  }

  /** `byId[id]`: the entry, or `undefined`. */
  function Lookup<T>(byId: map<int, T>, id: int): Option<T> {
    if id in byId then Some(byId[id]) else None
  }

  /** The keys of the record are exactly the ids of the items. */
  lemma {:induction false} IndexKeys<T>(items: seq<T>, key: T -> int, k: int)
    ensures k in Index(items, key) <==> exists i :: 0 <= i < |items| && key(items[i]) == k
    decreases |items|
  {
    if items != [] {
      var init := items[..|items| - 1];
      IndexKeys(init, key, k);
      if k in Index(init, key) {
        var i :| 0 <= i < |init| && key(init[i]) == k;
        assert items[i] == init[i];
      }
      if i :| 0 <= i < |items| && key(items[i]) == k {
        if i < |init| {
          assert init[i] == items[i];
        }
      }
    }
  }

  /** Each entry is the last item with that id. */
  lemma {:induction false} IndexLast<T>(items: seq<T>, key: T -> int, k: int)
    requires k in Index(items, key)
    ensures exists i :: 0 <= i < |items| && key(items[i]) == k && Index(items, key)[k] == items[i]
                        && forall j :: i < j < |items| ==> key(items[j]) != k
    decreases |items|
  {
    var n := |items| - 1;
    var init := items[..n];
    if key(items[n]) == k {
      assert Index(items, key)[k] == items[n];
    } else {
      IndexLast(init, key, k);
      var i :| 0 <= i < |init| && key(init[i]) == k && Index(init, key)[k] == init[i]
               && forall j :: i < j < |init| ==> key(init[j]) != k;
      assert items[i] == init[i];
      assert forall j :: i < j < |items| ==> key(items[j]) != k by {
        forall j | i < j < |items|
          ensures key(items[j]) != k
        {
          if j < n {
            assert items[j] == init[j];
          }
        }
      }
    }
  }

  /**
   * Looking an id up in the record of `items` gives an item with that id, the last
   * one, or nothing exactly when no item has that id.
   */
  lemma LookupIndexed<T>(items: seq<T>, key: T -> int, id: int)
    ensures Lookup(Index(items, key), id).None? <==> forall i :: 0 <= i < |items| ==> key(items[i]) != id
    ensures Lookup(Index(items, key), id).Some? ==>
              exists i :: 0 <= i < |items| && key(items[i]) == id && Lookup(Index(items, key), id).value == items[i]
                          && forall j :: i < j < |items| ==> key(items[j]) != id
  {
    IndexKeys(items, key, id);
    if id in Index(items, key) {
      IndexLast(items, key, id);
    }
  }

  /** The reduce as the slices run it: one assignment into `acc` per item, in order. */
  method BuildIndex<T>(items: seq<T>, key: T -> int) returns (acc: map<int, T>)
    ensures acc == Index(items, key)
  {
    acc := map[];
    var i := 0;
    while i < |items|
      invariant 0 <= i <= |items|
      invariant acc == Index(items[..i], key)
    {
      assert items[..i + 1][..i] == items[..i];
      acc := acc[key(items[i]) := items[i]];
      i := i + 1;
    }
    assert items[..|items|] == items;
  }
}
