/** The bounded least-recently-used map. */
module Lru {
  import opened Core

  datatype LruState<K(==), V> = LruState(entries: map<K, V>, recency: seq<K>, capacity: nat)

  function Remove<K(==)>(recency: seq<K>, key: K): seq<K> {
    if recency == [] then []
    else if recency[0] == key then recency[1..]
    else [recency[0]] + Remove(recency[1..], key)
  }

  /** Move a key to the most recent end. */
  function Touch<K(==)>(recency: seq<K>, key: K): seq<K> {
    Remove(recency, key) + [key]
  }

  function Get<K(==), V>(s: LruState<K, V>, key: K): (LruState<K, V>, Option<V>) {
    if key in s.entries then (s.(recency := Touch(s.recency, key)), Some(s.entries[key])) else (s, None)
  }

  /** The first key in recency order whose value may be evicted. */
  function Victim<K(==), V>(recency: seq<K>, entries: map<K, V>, mayEvict: V -> bool): (v: Option<K>)
    ensures v.Some? ==> v.value in recency && v.value in entries && mayEvict(entries[v.value])
    ensures v.None? ==> forall k :: k in recency && k in entries ==> !mayEvict(entries[k])
  {
    if recency == [] then None
    else if recency[0] in entries && mayEvict(entries[recency[0]]) then Some(recency[0])
    else Victim(recency[1..], entries, mayEvict)
  }

  function Put<K(==), V>(s: LruState<K, V>, key: K, value: V): LruState<K, V> {
    s.(entries := s.entries[key := value], recency := Touch(s.recency, key))
  }

  function Discard<K(==), V>(s: LruState<K, V>, key: K): LruState<K, V> {
    s.(entries := s.entries - {key}, recency := Remove(s.recency, key))
  }

  function Insert<K(==), V>(s: LruState<K, V>, key: K, value: V, mayEvict: V -> bool): (LruState<K, V>, bool) {
    if key in s.entries then (Put(s, key, value), true)
    else if s.capacity == 0 then (s, false)
    else if |s.entries| < s.capacity then (Put(s, key, value), true)
    else
      match Victim(s.recency, s.entries, mayEvict)
      case None => (s, false)
      case Some(victim) => (Put(Discard(s, victim), key, value), true)
  }

  function Delete<K(==), V>(s: LruState<K, V>, key: K): (LruState<K, V>, Option<V>) {
    if key in s.entries then (Discard(s, key), Some(s.entries[key])) else (s, None)
  }

  class BoundedLru<K(==), V> {
    var entries: map<K, V>
    var recency: seq<K>
    const capacity: nat

    constructor (capacity: nat)
      ensures View() == LruState(map[], [], capacity)
    {
      entries, recency, this.capacity := map[], [], capacity;
    }

    ghost function View(): LruState<K, V>
      reads this
    {
      LruState(entries, recency, capacity)
    }

    method GetCloned(key: K) returns (r: Option<V>)
      modifies this`recency
      ensures (View(), r) == Get(old(View()), key)
    {
      if key !in entries {
        return None;
      }
      recency := Touch(recency, key);
      r := Some(entries[key]);
    }

    method RemoveKey(key: K) returns (r: Option<V>)
      modifies this
      ensures (View(), r) == Delete(old(View()), key)
    {
      if key !in entries {
        return None;
      }
      r := Some(entries[key]);
      entries := entries - {key};
      recency := Remove(recency, key);
    }

    method InsertEvictingWhere(key: K, value: V, mayEvict: V -> bool) returns (ok: bool)
      modifies this
      ensures (View(), ok) == Insert(old(View()), key, value, mayEvict)
    {
      if key in entries {
        entries := entries[key := value];
        recency := Touch(recency, key);
        return true;
      }
      if capacity == 0 {
        return false;
      }
      if |entries| >= capacity {
        var victim := Victim(recency, entries, mayEvict);
        if victim.None? {
          return false;
        }
        recency := Remove(recency, victim.value);
        entries := entries - {victim.value};
      }
      entries := entries[key := value];
      recency := Touch(recency, key);
      ok := true;
    }
  }

  // ----- the structural invariant -----

  /** Recency is a duplicate-free permutation of the keys, and there are no more keys than the capacity. */
  ghost predicate Valid<K(!new), V>(s: LruState<K, V>) {
    && NoDuplicates(s.recency)
    && (forall k :: k in s.recency <==> k in s.entries)
    && |s.entries| <= s.capacity
  }

  lemma {:induction false} RemoveFacts<K(!new)>(recency: seq<K>, key: K)
    requires NoDuplicates(recency)
    ensures NoDuplicates(Remove(recency, key))
    ensures forall k :: k in Remove(recency, key) <==> k in recency && k != key
  {
    if recency != [] && recency[0] != key {
      var rest := recency[1..];
      RemoveFacts(rest, key);
      assert recency == [recency[0]] + rest;
      forall j | 0 <= j < |Remove(rest, key)|
        ensures Remove(rest, key)[j] != recency[0]
      {
        assert Remove(rest, key)[j] in rest;
      }
    }
  }

  lemma TouchFacts<K(!new)>(recency: seq<K>, key: K)
    requires NoDuplicates(recency)
    ensures NoDuplicates(Touch(recency, key))
    ensures forall k :: k in Touch(recency, key) <==> k in recency || k == key
  {
    var rest := Remove(recency, key);
    RemoveFacts(recency, key);
    assert forall i :: 0 <= i < |rest| ==> rest[i] in rest;
  }

  lemma GetKeepsValid<K(!new), V>(s: LruState<K, V>, key: K)
    requires Valid(s)
    ensures Valid(Get(s, key).0) && Get(s, key).0.entries == s.entries
  {
    TouchFacts(s.recency, key);
  }

  lemma DiscardKeepsValid<K(!new), V>(s: LruState<K, V>, key: K)
    requires Valid(s) && key in s.entries
    ensures Valid(Discard(s, key)) && |Discard(s, key).entries| == |s.entries| - 1
  {
    RemoveFacts(s.recency, key);
    assert (s.entries - {key}).Keys == s.entries.Keys - {key};
  }

  lemma PutKeepsValid<K(!new), V>(s: LruState<K, V>, key: K, value: V)
    requires Valid(s) && (key in s.entries || |s.entries| < s.capacity)
    ensures Valid(Put(s, key, value))
  {
    TouchFacts(s.recency, key);
    assert s.entries[key := value].Keys == s.entries.Keys + {key};
  }

  lemma InsertKeepsValid<K(!new), V>(s: LruState<K, V>, key: K, value: V, mayEvict: V -> bool)
    requires Valid(s)
    ensures Valid(Insert(s, key, value, mayEvict).0)
  {
    var victim := Victim(s.recency, s.entries, mayEvict);
    if key in s.entries || |s.entries| < s.capacity {
      PutKeepsValid(s, key, value);
    } else if victim.Some? {
      DiscardKeepsValid(s, victim.value);
      PutKeepsValid(Discard(s, victim.value), key, value);
    }
  }

  // ----- runs, beside the clock of touches and an unbounded map -----

  datatype Op<K, !V> =
    | GetOp(key: K)
    | InsertOp(key: K, value: V, mayEvict: V -> bool)
    | DeleteOp(key: K)

  /** The cache, when each key was last touched, and what an unbounded map would hold. */
  datatype World<K, V> = World(lru: LruState<K, V>, now: nat, touched: map<K, nat>, unbounded: map<K, V>)

  ghost function After<K(!new), V>(w: World<K, V>, op: Op<K, V>): World<K, V> {
    match op
    case GetOp(key) =>
      var touched := if key in w.lru.entries then w.touched[key := w.now] else w.touched;
      World(Get(w.lru, key).0, w.now + 1, touched, w.unbounded)
    case InsertOp(key, value, mayEvict) =>
      var (next, ok) := Insert(w.lru, key, value, mayEvict);
      World(next, w.now + 1, if ok then w.touched[key := w.now] else w.touched, w.unbounded[key := value])
    case DeleteOp(key) =>
      World(Delete(w.lru, key).0, w.now + 1, w.touched, w.unbounded - {key})
  }

  ghost function Run<K(!new), V>(capacity: nat, ops: seq<Op<K, V>>): World<K, V> {
    if ops == [] then World(LruState(map[], [], capacity), 0, map[], map[])
    else After(Run(capacity, ops[..|ops| - 1]), ops[|ops| - 1])
  }

  /** Recency lists the keys by the time of their last touch. */
  ghost predicate ByTouch<K(!new)>(recency: seq<K>, touched: map<K, nat>, now: nat) {
    && (forall k :: k in recency ==> k in touched && touched[k] < now)
    && (forall i, j :: 0 <= i < j < |recency| ==>
          recency[i] in touched && recency[j] in touched && touched[recency[i]] < touched[recency[j]])
  }

  lemma {:induction false} RemoveByTouch<K(!new)>(recency: seq<K>, touched: map<K, nat>, now: nat, key: K)
    requires NoDuplicates(recency) && ByTouch(recency, touched, now)
    ensures ByTouch(Remove(recency, key), touched, now)
  {
    if recency != [] && recency[0] != key {
      var rest := recency[1..];
      RemoveByTouch(rest, touched, now, key);
      RemoveFacts(rest, key);
      assert recency == [recency[0]] + rest;
      forall j | 0 <= j < |Remove(rest, key)|
        ensures touched[recency[0]] < touched[Remove(rest, key)[j]]
      {
        assert Remove(rest, key)[j] in rest;
      }
    }
  }

  lemma TouchByTouch<K(!new)>(recency: seq<K>, touched: map<K, nat>, now: nat, key: K)
    requires NoDuplicates(recency) && ByTouch(recency, touched, now)
    ensures ByTouch(Touch(recency, key), touched[key := now], now + 1)
  {
    var rest := Remove(recency, key);
    RemoveByTouch(recency, touched, now, key);
    RemoveFacts(recency, key);
    assert forall i :: 0 <= i < |rest| ==> rest[i] in rest;
  }

  /** The structural invariant together with the order of touches. */
  ghost predicate Ordered<K(!new), V>(s: LruState<K, V>, touched: map<K, nat>, now: nat) {
    Valid(s) && ByTouch(s.recency, touched, now)
  }

  lemma DiscardKeepsOrdered<K(!new), V>(s: LruState<K, V>, touched: map<K, nat>, now: nat, key: K)
    requires Ordered(s, touched, now) && key in s.entries
    ensures Ordered(Discard(s, key), touched, now)
  {
    DiscardKeepsValid(s, key);
    RemoveByTouch(s.recency, touched, now, key);
  }

  lemma PutKeepsOrdered<K(!new), V>(s: LruState<K, V>, touched: map<K, nat>, now: nat, key: K, value: V)
    requires Ordered(s, touched, now) && (key in s.entries || |s.entries| < s.capacity)
    ensures Ordered(Put(s, key, value), touched[key := now], now + 1)
  {
    PutKeepsValid(s, key, value);
    TouchByTouch(s.recency, touched, now, key);
  }

  lemma GetKeepsOrdered<K(!new), V>(s: LruState<K, V>, touched: map<K, nat>, now: nat, key: K)
    requires Ordered(s, touched, now)
    ensures Ordered(Get(s, key).0, if key in s.entries then touched[key := now] else touched, now + 1)
  {
    if key in s.entries {
      GetKeepsValid(s, key);
      TouchByTouch(s.recency, touched, now, key);
    }
  }

  lemma InsertKeepsOrdered<K(!new), V>(
    s: LruState<K, V>, touched: map<K, nat>, now: nat, key: K, value: V, mayEvict: V -> bool)
    requires Ordered(s, touched, now)
    ensures var (next, ok) := Insert(s, key, value, mayEvict);
            Ordered(next, if ok then touched[key := now] else touched, now + 1)
  {
    var victim := Victim(s.recency, s.entries, mayEvict);
    if key in s.entries || |s.entries| < s.capacity {
      PutKeepsOrdered(s, touched, now, key, value);
    } else if victim.Some? {
      DiscardKeepsValid(s, victim.value);
      DiscardKeepsOrdered(s, touched, now, victim.value);
      PutKeepsOrdered(Discard(s, victim.value), touched, now, key, value);
    }
  }

  /** Over every run the cache is well formed and its recency is the order of last touches. */
  lemma {:induction false} CacheIsOrdered<K(!new), V>(capacity: nat, ops: seq<Op<K, V>>)
    ensures var w := Run(capacity, ops);
            Ordered(w.lru, w.touched, w.now) && w.lru.capacity == capacity
  {
    if ops != [] {
      CacheIsOrdered(capacity, ops[..|ops| - 1]);
      var w := Run(capacity, ops[..|ops| - 1]);
      match ops[|ops| - 1]
      case GetOp(key) =>
        GetKeepsOrdered(w.lru, w.touched, w.now, key);
      case DeleteOp(key) =>
        if key in w.lru.entries {
          DiscardKeepsOrdered(w.lru, w.touched, w.now, key);
        }
      case InsertOp(key, value, mayEvict) =>
        InsertKeepsOrdered(w.lru, w.touched, w.now, key, value, mayEvict);
    }
  }

  lemma {:induction false} VictimIsOldest<K(!new), V>(
    recency: seq<K>, entries: map<K, V>, mayEvict: V -> bool, touched: map<K, nat>, now: nat, other: K)
    requires ByTouch(recency, touched, now) && Victim(recency, entries, mayEvict).Some?
    requires other in recency && other in entries && mayEvict(entries[other])
    ensures var victim := Victim(recency, entries, mayEvict).value;
            victim in touched && other in touched && touched[victim] <= touched[other]
  {
    if recency[0] in entries && mayEvict(entries[recency[0]]) {
    } else {
      assert other in recency[1..];
      VictimIsOldest(recency[1..], entries, mayEvict, touched, now, other);
    }
  }

  /**
   * Eviction: after any run, an insertion that must make room removes exactly one key, of those that may be evicted
   * the one touched longest ago; if none may be evicted it refuses and changes nothing.
   */
  lemma EvictsLeastRecentlyTouched<K(!new), V>(capacity: nat, ops: seq<Op<K, V>>, key: K, value: V, mayEvict: V -> bool)
    requires key !in Run(capacity, ops).lru.entries && |Run(capacity, ops).lru.entries| == capacity > 0
    ensures var w := Run(capacity, ops);
            var (next, ok) := Insert(w.lru, key, value, mayEvict);
            if !ok then next == w.lru && forall k :: k in w.lru.entries ==> !mayEvict(w.lru.entries[k])
            else
              exists victim :: victim in w.lru.entries && mayEvict(w.lru.entries[victim])
                               && next.entries == (w.lru.entries - {victim})[key := value]
                               && forall k :: k in w.lru.entries && mayEvict(w.lru.entries[k]) ==>
                                    victim in w.touched && k in w.touched && w.touched[victim] <= w.touched[k]
  {
    CacheIsOrdered(capacity, ops);
    var w := Run(capacity, ops);
    var victim := Victim(w.lru.recency, w.lru.entries, mayEvict);
    if victim.Some? {
      forall k | k in w.lru.entries && mayEvict(w.lru.entries[k])
        ensures victim.value in w.touched && k in w.touched && w.touched[victim.value] <= w.touched[k]
      {
        VictimIsOldest(w.lru.recency, w.lru.entries, mayEvict, w.touched, w.now, k);
      }
    }
  }

  // ----- while the distinct keys fit, the bound is invisible -----

  ghost function InsertedKeys<K(!new), V>(ops: seq<Op<K, V>>): set<K> {
    if ops == [] then {}
    else
      var op := ops[|ops| - 1];
      InsertedKeys(ops[..|ops| - 1]) + if op.InsertOp? then {op.key} else {}
  }

  lemma SmallerSet<K(!new)>(a: set<K>, b: set<K>)
    requires a <= b
    ensures |a| <= |b| && (|a| == |b| ==> a == b)
  {
    assert b == a + (b - a);
  }

  /** A bounded cache that never needs to evict answers as an unbounded map would. */
  lemma {:induction false} AgreesWithMap<K(!new), V>(capacity: nat, ops: seq<Op<K, V>>)
    requires |InsertedKeys(ops)| <= capacity
    ensures var w := Run(capacity, ops);
            w.lru.entries == w.unbounded && w.unbounded.Keys <= InsertedKeys(ops)
  {
    if ops != [] {
      var before, op := ops[..|ops| - 1], ops[|ops| - 1];
      SmallerSet(InsertedKeys(before), InsertedKeys(ops));
      AgreesWithMap(capacity, before);
      CacheIsOrdered(capacity, before);
      var w := Run(capacity, before);
      if op.InsertOp? && op.key !in w.lru.entries {
        var keys := w.lru.entries.Keys + {op.key};
        SmallerSet(keys, InsertedKeys(ops));
        assert |keys| == |w.lru.entries| + 1;
      }
    }
  }

  /** What an unbounded map answers. */
  ghost function MapAnswer<K(!new), V>(m: map<K, V>, key: K): Option<V> {
    if key in m then Some(m[key]) else None
  }

  /** Whatever was evicted, an answered value is the last one inserted under its key and not removed since. */
  lemma {:induction false} AnswersAreCurrent<K(!new), V>(capacity: nat, ops: seq<Op<K, V>>, key: K)
    ensures var w := Run(capacity, ops);
            && (key in w.lru.entries ==> key in w.unbounded && w.lru.entries[key] == w.unbounded[key])
            && Get(w.lru, key).1 == Delete(w.lru, key).1
            && (Get(w.lru, key).1.Some? <==> key in w.lru.entries)
            && (Get(w.lru, key).1.Some? ==> Get(w.lru, key).1 == MapAnswer(w.unbounded, key))
  {
    if ops != [] {
      AnswersAreCurrent(capacity, ops[..|ops| - 1], key);
    }
  }

  /** While the distinct keys fit, lookups and removals answer exactly as the unbounded map, and removals remove. */
  lemma AnswersAsMap<K(!new), V>(capacity: nat, ops: seq<Op<K, V>>, key: K)
    requires |InsertedKeys(ops)| <= capacity
    ensures var w := Run(capacity, ops);
            && Get(w.lru, key).1 == Delete(w.lru, key).1 == MapAnswer(w.unbounded, key)
            && Delete(w.lru, key).0.entries == w.unbounded - {key}
  {
    AgreesWithMap(capacity, ops);
  }
}
