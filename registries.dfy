/**
 * Abstract models of the two identity registries the filler consults: ParameterIdDb
 * (name/engineering type/raw type -> parameter id) and ParameterGroupIdDb (sorted parameter
 * ids -> group id). Both are append-only tables that hand out the next fresh id to a key seen
 * for the first time.
 */
module Registries {
  import opened Wrappers
  import opened Samples

  /** An append-only table; `next` is the id the next new key receives. */
  datatype IdTable<K> = IdTable(ids: map<K, int>, next: int)

  /** Every issued id is below `next`, and no two keys share an id. */
  ghost predicate ValidTable<K>(t: IdTable<K>)
  {
    (forall k :: k in t.ids ==> t.ids[k] < t.next) &&
    (forall k1, k2 :: k1 in t.ids && k2 in t.ids && t.ids[k1] == t.ids[k2] ==> k1 == k2)
  }

  /** `u` keeps every entry of `t`. */
  ghost predicate Extends<K>(t: map<K, int>, u: map<K, int>)
  {
    forall k :: k in t ==> k in u && u[k] == t[k]
  }

  /** createAndGet: the id of `k`, recorded on first sight. */
  function Assign<K>(t: IdTable<K>, k: K): (r: IdTable<K>)
    ensures k in r.ids && r.ids.Keys == t.ids.Keys + {k}
    ensures Extends(t.ids, r.ids) && t.next <= r.next
    ensures k in t.ids ==> r == t
    ensures ValidTable(t) ==> ValidTable(r)
    ensures ValidTable(t) && k !in t.ids ==> forall k' :: k' in t.ids ==> t.ids[k'] < r.ids[k]
  {
    if k in t.ids then t else IdTable(t.ids[k := t.next], t.next + 1)
  }

  /** Asking twice for the same key gives the same id and changes nothing the second time. */
  lemma AssignIdempotent<K>(t: IdTable<K>, k: K)
    ensures Assign(Assign(t, k), k) == Assign(t, k)
  {
  }

  /** Two distinct keys seen for the first time, one after the other, get increasing ids. */
  lemma FirstSeenOrder<K>(t: IdTable<K>, a: K, b: K)
    requires ValidTable(t) && a != b && a !in t.ids && b !in t.ids
    ensures Assign(t, a).ids[a] < Assign(Assign(t, a), b).ids[b]
  {
  }

  /** ParameterIdDb: parameter ids for (qualified name, engineering type, raw type). */
  class ParameterIdDb {
    var table: IdTable<ParameterKey>

    constructor ()
      ensures table == IdTable(map[], 0)
    {
      table := IdTable(map[], 0);
    }

    method CreateAndGet(key: ParameterKey) returns (id: int)
      modifies this`table
      ensures table == Assign(old(table), key)
      ensures id == table.ids[key]
    {
      table := Assign(table, key);
      id := table.ids[key];
    }
  }

  /**
   * ParameterGroupIdDb: group ids for sorted parameter-id arrays. Recording a new key goes to
   * the store and may fail (a RocksDBException); `healthy` says whether the store accepts it.
   */
  class ParameterGroupIdDb {
    var table: IdTable<seq<int>>
    var healthy: bool

    constructor (healthy: bool)
      ensures table == IdTable(map[], 0) && this.healthy == healthy
    {
      table := IdTable(map[], 0);
      this.healthy := healthy;
    }

    method CreateAndGet(key: seq<int>) returns (id: Option<int>)
      modifies this`table
      ensures key in old(table).ids || healthy ==> table == Assign(old(table), key) && id == Some(table.ids[key])
      ensures key !in old(table).ids && !healthy ==> table == old(table) && id == None
    {
      if key in table.ids || healthy {
        table := Assign(table, key);
        id := Some(table.ids[key]);
      } else {
        id := None;
      }
    }
  }
}
