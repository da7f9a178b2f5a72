/** internal/cache/cache.go: a cache whose Get drops its lock between reading an
    item and, if it has expired, deleting it. */
module TtlCache {
  import opened Text

  datatype Item = Item(payload: string, mimeType: string, expiresAt: int)

  /** One critical section of some goroutine; `Lazy` is the delete in a Get. */
  datatype Op = Put(key: string, item: Item) | Remove(key: string) | ClearAll | Lazy(key: string)

  function Effect(items: map<string, Item>, op: Op): map<string, Item> {
    match op
    case Put(k, x) => items[k := x]
    case Remove(k) => items - {k}
    case ClearAll => map[]
    case Lazy(k) => items - {k}
  }

  /** The items after a history of critical sections. */
  function Replay(log: seq<Op>): map<string, Item> {
    if log == [] then map[] else Effect(Replay(log[..|log| - 1]), log[|log| - 1])
  }

  /** What the cache stands for: the last Set of a key not followed by a Delete
      of it or a Clear; lazy deletes are no part of it. */
  function Promised(log: seq<Op>, key: string): Option<Item> {
    if log == [] then None
    else
      match log[|log| - 1]
      case Put(k, x) => if k == key then Some(x) else Promised(log[..|log| - 1], key)
      case Remove(k) => if k == key then None else Promised(log[..|log| - 1], key)
      case ClearAll => None
      case Lazy(_) => Promised(log[..|log| - 1], key)
  }

  // ----- what a history promises -----

  predicate Ends(op: Op, key: string) {
    op.ClearAll? || (op.Remove? && op.key == key) || (op.Put? && op.key == key)
  }

  /** Section `s` set `key`, and nothing after it set, deleted or cleared it. */
  ghost predicate LastPut(log: seq<Op>, key: string, x: Item, s: nat) {
    s < |log| && log[s] == Put(key, x) && forall j :: s < j < |log| ==> !Ends(log[j], key)
  }

  lemma {:induction false} PromiseIsLastPut(log: seq<Op>, key: string) returns (s: nat)
    ensures Promised(log, key).Some? ==> LastPut(log, key, Promised(log, key).value, s)
  {
    s := 0;
    if log != [] && Promised(log, key).Some? {
      var init := log[..|log| - 1];
      if !Ends(log[|log| - 1], key) {
        s := PromiseIsLastPut(init, key);
        forall j | s < j < |log| ensures !Ends(log[j], key) {
          if j < |log| - 1 { assert init[j] == log[j]; }
        }
      } else {
        s := |log| - 1;
      }
    }
  }

  lemma {:induction false} LastPutIsPromised(log: seq<Op>, key: string, x: Item, s: nat)
    requires LastPut(log, key, x, s)
    ensures Promised(log, key) == Some(x)
  {
    if s < |log| - 1 {
      var init := log[..|log| - 1];
      assert !Ends(log[|log| - 1], key);
      LastPutIsPromised(init, key, x, s);
    }
  }

  /** Nothing set before a Clear is promised after it. */
  lemma NothingFromBeforeClear(log: seq<Op>, c: nat, key: string) returns (s: nat)
    requires c < |log| && log[c] == ClearAll && Promised(log, key).Some?
    ensures c < s && LastPut(log, key, Promised(log, key).value, s)
  {
    s := PromiseIsLastPut(log, key);
    assert Ends(log[c], key);
  }

  /** An item that is there is the one promised; one that is promised is there
      unless a lazy delete came after it was set. */
  lemma {:induction false} ItemsKeepPromises(log: seq<Op>, key: string, s: nat)
    ensures key in Replay(log) ==> Promised(log, key) == Some(Replay(log)[key])
    ensures Promised(log, key).Some? && LastPut(log, key, Promised(log, key).value, s) ==>
              (key in Replay(log) <==> forall j :: s < j < |log| ==> log[j] != Lazy(key))
  {
    if log != [] {
      var init, op := log[..|log| - 1], log[|log| - 1];
      ItemsKeepPromises(init, key, s);
      if Promised(log, key).Some? && LastPut(log, key, Promised(log, key).value, s) && s < |init| {
        assert !Ends(op, key);
        assert LastPut(init, key, Promised(log, key).value, s) by {
          forall j | s < j < |init| ensures !Ends(init[j], key) {
            assert init[j] == log[j];
          }
        }
        assert forall j :: s < j < |init| ==> init[j] == log[j];
      }
    }
  }

  lemma ReplayConcat(a: seq<Op>, op: Op)
    ensures Replay(a + [op]) == Effect(Replay(a), op)
  {
    assert (a + [op])[..|a|] == a;
  }

  // ----- the cache -----

  class Cache {
    var items: map<string, Item>
    ghost var log: seq<Op>

    ghost predicate Valid()
      reads this
    {
      items == Replay(log)
    }

    constructor ()
      ensures Valid() && log == []
    {
      items := map[];
      log := [];
    }

    method Set(key: string, payload: string, mimeType: string, now: int, ttl: int)
      requires Valid()
      modifies this
      ensures Valid() && log == old(log) + [Put(key, Item(payload, mimeType, now + ttl))]
    {
      ReplayConcat(log, Put(key, Item(payload, mimeType, now + ttl)));
      items := items[key := Item(payload, mimeType, now + ttl)];
      log := log + [Put(key, Item(payload, mimeType, now + ttl))];
    }

    method Delete(key: string)
      requires Valid()
      modifies this
      ensures Valid() && log == old(log) + [Remove(key)]
    {
      ReplayConcat(log, Remove(key));
      items := items - {key};
      log := log + [Remove(key)];
    }

    method Clear()
      requires Valid()
      modifies this
      ensures Valid() && log == old(log) + [ClearAll]
    {
      ReplayConcat(log, ClearAll);
      items := map[];
      log := log + [ClearAll];
    }

    /** The critical sections of other goroutines. */
    method Others(ops: seq<Op>)
      requires Valid()
      modifies this
      ensures Valid() && log == old(log) + ops
    {
      for i := 0 to |ops|
        invariant Valid() && log == old(log) + ops[..i]
      {
        ReplayConcat(log, ops[i]);
        assert ops[..i + 1] == ops[..i] + [ops[i]];
        items := Effect(items, ops[i]);
        log := log + [ops[i]];
      }
      assert ops[..|ops|] == ops;
    }

    /** Get, with `others` run by other goroutines once it has dropped its lock. A
        hit returns what was promised when it read, not expired at its check;
        a miss is one only for an item that is absent or expired. */
    method Get(key: string, now: int, others: seq<Op>) returns (payload: string, mimeType: string, hit: bool)
      requires Valid()
      modifies this
      ensures Valid()
      ensures hit <==> key in Replay(old(log)) && now <= Replay(old(log))[key].expiresAt
      ensures hit ==> exists e :: Promised(old(log), key) == Some(Item(payload, mimeType, e)) && now <= e
      ensures log == old(log) + others + (if !hit && key in Replay(old(log)) then [Lazy(key)] else [])
    {
      ItemsKeepPromises(log, key, 0);
      var found := key in items;
      var item := if found then items[key] else Item("", "", 0);
      Others(others);
      if !found {
        return "", "", false;
      }
      if now > item.expiresAt {
        ReplayConcat(log, Lazy(key));
        items := items - {key};
        log := log + [Lazy(key)];
        return "", "", false;
      }
      return item.payload, item.mimeType, true;
    }
  }

  /** A Get that starts after a Clear returns only what was set after it. */
  method GetAfterClear(cache: Cache, key: string, now: int, before: seq<Op>, others: seq<Op>)
    returns (payload: string, mimeType: string, hit: bool, ghost s: nat)
    requires cache.Valid()
    modifies cache
    ensures hit ==> |old(cache.log)| < s < |old(cache.log)| + 1 + |before|
    ensures hit ==> s < |cache.log| && cache.log[s].Put? && cache.log[s].key == key
                    && cache.log[s].item.payload == payload && cache.log[s].item.mimeType == mimeType
  {
    ghost var c := |cache.log|;
    s := 0;
    cache.Clear();
    cache.Others(before);
    ghost var log := cache.log;
    payload, mimeType, hit := cache.Get(key, now, others);
    if hit {
      s := NothingFromBeforeClear(log, c, key);
    }
  }

  /** The lazy delete can hit a newer item: `recent` was set while an earlier Get
      was between its read and its delete, and the next Get misses although
      the item is promised and has not expired. */
  method LazyDeleteLosesFreshItem(key: string, stale: Item, recent: Item, now: int) returns (hit: bool, ghost promised: Option<Item>)
    requires stale.expiresAt < now <= recent.expiresAt
    ensures !hit && promised == Some(recent)
  {
    var cache := new Cache();
    cache.Others([Put(key, stale)]);
    var payload, mimeType;
    LastPutIsPromised([Put(key, stale)], key, stale, 0);
    assert [] + [Put(key, stale)] == [Put(key, stale)];
    ReplayConcat([], Put(key, stale));
    payload, mimeType, hit := cache.Get(key, now, [Put(key, recent)]);
    assert cache.log == [Put(key, stale), Put(key, recent), Lazy(key)];
    LastPutIsPromised(cache.log, key, recent, 1);
    ItemsKeepPromises(cache.log, key, 1);
    promised := Promised(cache.log, key);
    payload, mimeType, hit := cache.Get(key, now, []);
  }
}
