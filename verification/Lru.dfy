/** A map of last uses, and the list and map that refine it (internal/cache/lru.go). */
module Lru {
  import opened Common

  type Key = string

  type Value = int

  datatype Entry = Entry(value: Value, storedAt: Time)

  /** The recency list, most recently used first, and the entries by key. */
  datatype State = State(order: seq<Key>, entries: map<Key, Entry>)

  function Without(order: seq<Key>, key: Key): seq<Key> {
    if order == [] then []
    else if order[0] == key then Without(order[1..], key)
    else [order[0]] + Without(order[1..], key)
  }

  function ToFront(order: seq<Key>, key: Key): seq<Key> {
    [key] + Without(order, key)
  }

  /** The list holds each key once. */
  ghost predicate Lists(order: seq<Key>, keys: set<Key>) {
    && (forall i, j :: 0 <= i < j < |order| ==> order[i] != order[j])
    && (forall k :: k in order <==> k in keys)
  }

  /** The list holds each key of the map once, and no more than the cache may. */
  ghost predicate Agrees(s: State, maxEntries: nat) {
    Lists(s.order, s.entries.Keys) && |s.order| <= maxEntries
  }

  predicate Fresh(s: State, key: Key, now: Time, ttl: int) {
    key in s.entries && now - s.entries[key].storedAt <= ttl
  }

  function Lookup(s: State, key: Key, now: Time, ttl: int): Option<Value> {
    if Fresh(s, key, now, ttl) then Some(s.entries[key].value) else None
  }

  function AfterGet(s: State, key: Key, now: Time, ttl: int): State {
    if Fresh(s, key, now, ttl) then s.(order := ToFront(s.order, key)) else s
  }

  function AfterSet(s: State, key: Key, value: Value, now: Time, maxEntries: nat): State {
    var order := ToFront(s.order, key);
    var entries := s.entries[key := Entry(value, now)];
    if key !in s.entries && |order| > maxEntries
    then State(order[..|order| - 1], entries - {order[|order| - 1]})
    else State(order, entries)
  }

  function AfterDelete(s: State, key: Key): State {
    State(Without(s.order, key), s.entries - {key})
  }

  lemma ListsRest(order: seq<Key>, keys: set<Key>)
    requires Lists(order, keys) && order != []
    ensures order[0] in keys && Lists(order[1..], keys - {order[0]})
  {
    var rest := order[1..];
    assert order == [order[0]] + rest;
    assert order[0] !in rest;
    forall k ensures k in rest <==> k in keys - {order[0]} {
      assert k in order <==> k == order[0] || k in rest;
    }
  }

  lemma ListsCons(order: seq<Key>, keys: set<Key>, key: Key)
    requires Lists(order, keys) && key !in keys
    ensures Lists([key] + order, keys + {key})
  {
  }

  lemma {:induction false} WithoutLists(order: seq<Key>, keys: set<Key>, key: Key)
    requires Lists(order, keys)
    ensures Lists(Without(order, key), keys - {key})
    ensures |Without(order, key)| == if key in keys then |order| - 1 else |order|
  {
    if order != [] {
      ListsRest(order, keys);
      WithoutLists(order[1..], keys - {order[0]}, key);
      if order[0] == key {
        assert keys - {order[0]} - {key} == keys - {key};
      } else {
        ListsCons(Without(order[1..], key), keys - {order[0]} - {key}, order[0]);
        assert keys - {order[0]} - {key} + {order[0]} == keys - {key};
      }
    }
  }

  /** Moving a key to the front keeps the list free of repeats. */
  lemma FrontLists(order: seq<Key>, keys: set<Key>, key: Key)
    requires Lists(order, keys)
    ensures Lists(ToFront(order, key), keys + {key})
    ensures |ToFront(order, key)| == if key in keys then |order| else |order| + 1
  {
    WithoutLists(order, keys, key);
    ListsCons(Without(order, key), keys - {key}, key);
    assert keys - {key} + {key} == keys + {key};
  }

  lemma AllButLast(order: seq<Key>, keys: set<Key>)
    requires Lists(order, keys) && order != []
    ensures Lists(order[..|order| - 1], keys - {order[|order| - 1]})
  {
    assert order == order[..|order| - 1] + [order[|order| - 1]];
  }

  lemma GetKeepsAgreement(s: State, key: Key, now: Time, ttl: int, maxEntries: nat)
    requires Agrees(s, maxEntries)
    ensures Agrees(AfterGet(s, key, now, ttl), maxEntries)
  {
    if Fresh(s, key, now, ttl) {
      FrontLists(s.order, s.entries.Keys, key);
      assert s.entries.Keys + {key} == s.entries.Keys;
    }
  }

  lemma SetKeepsAgreement(s: State, key: Key, value: Value, now: Time, maxEntries: nat)
    requires Agrees(s, maxEntries) && maxEntries >= 1
    ensures Agrees(AfterSet(s, key, value, now, maxEntries), maxEntries)
  {
    var order, entries := ToFront(s.order, key), s.entries[key := Entry(value, now)];
    FrontLists(s.order, s.entries.Keys, key);
    assert entries.Keys == s.entries.Keys + {key};
    if key !in s.entries && |order| > maxEntries {
      AllButLast(order, entries.Keys);
      assert (entries - {order[|order| - 1]}).Keys == entries.Keys - {order[|order| - 1]};
    }
  }

  lemma DeleteKeepsAgreement(s: State, key: Key, maxEntries: nat)
    requires Agrees(s, maxEntries)
    ensures Agrees(AfterDelete(s, key), maxEntries)
  {
    WithoutLists(s.order, s.entries.Keys, key);
    assert (s.entries - {key}).Keys == s.entries.Keys - {key};
  }

  /** Each operation keeps map and list in agreement and the size within bounds. */
  lemma OperationsKeepAgreement(s: State, key: Key, value: Value, now: Time, ttl: int, maxEntries: nat)
    requires Agrees(s, maxEntries) && maxEntries >= 1
    ensures Agrees(AfterGet(s, key, now, ttl), maxEntries)
    ensures Agrees(AfterSet(s, key, value, now, maxEntries), maxEntries)
    ensures Agrees(AfterDelete(s, key), maxEntries)
  {
    GetKeepsAgreement(s, key, now, ttl, maxEntries);
    SetKeepsAgreement(s, key, value, now, maxEntries);
    DeleteKeepsAgreement(s, key, maxEntries);
  }

  // ---- The reference: every entry carries when it was last used ----

  datatype Used = Used(value: Value, storedAt: Time, lastUse: nat)

  datatype Reference = Reference(entries: map<Key, Used>, uses: nat)

  function RefLookup(r: Reference, key: Key, now: Time, ttl: int): Option<Value> {
    if key in r.entries && now - r.entries[key].storedAt <= ttl then Some(r.entries[key].value) else None
  }

  function RefGet(r: Reference, key: Key, now: Time, ttl: int): Reference {
    if key in r.entries && now - r.entries[key].storedAt <= ttl
    then Reference(r.entries[key := r.entries[key].(lastUse := r.uses)], r.uses + 1) else r
  }

  predicate LeastUsed(r: Reference, key: Key) {
    key in r.entries && forall k | k in r.entries && k != key :: r.entries[key].lastUse < r.entries[k].lastUse
  }

  /** What a store may leave: all entries, or when they are too many all but the one used longest ago. */
  ghost predicate RefSet(r: Reference, key: Key, value: Value, now: Time, maxEntries: nat, r': Reference) {
    var entries := r.entries[key := Used(value, now, r.uses)];
    && r'.uses == r.uses + 1
    && if |entries| <= maxEntries then r'.entries == entries
       else exists victim :: LeastUsed(Reference(entries, r.uses + 1), victim) && r'.entries == entries - {victim}
  }

  /** The list is the reference's keys by last use, the latest first. */
  ghost predicate Represents(s: State, r: Reference) {
    EntriesMatch(s.entries, r) && ByLastUse(s.order, r.entries)
  }

  lemma {:induction false} WithoutKeepsOrder(order: seq<Key>, key: Key, i: nat, j: nat)
    returns (i': nat, j': nat)
    requires i < j < |Without(order, key)|
    ensures i' < j' < |order| && order[i'] == Without(order, key)[i] && order[j'] == Without(order, key)[j]
  {
    if order[0] == key {
      i', j' := WithoutKeepsOrder(order[1..], key, i, j);
      i', j' := i' + 1, j' + 1;
    } else if i == 0 {
      var j1 := WithoutKeeps(order[1..], key, j - 1);
      i', j' := 0, j1 + 1;
    } else {
      i', j' := WithoutKeepsOrder(order[1..], key, i - 1, j - 1);
      i', j' := i' + 1, j' + 1;
    }
  }

  lemma {:induction false} WithoutKeeps(order: seq<Key>, key: Key, j: nat) returns (j': nat)
    requires j < |Without(order, key)|
    ensures j' < |order| && order[j'] == Without(order, key)[j]
  {
    if order[0] == key {
      j' := WithoutKeeps(order[1..], key, j);
      j' := j' + 1;
    } else if j == 0 {
      j' := 0;
    } else {
      j' := WithoutKeeps(order[1..], key, j - 1);
      j' := j' + 1;
    }
  }

  lemma WithoutRepresents(order: seq<Key>, entries: map<Key, Used>, key: Key)
    requires ByLastUse(order, entries)
    ensures ByLastUse(Without(order, key), entries - {key})
  {
    WithoutLists(order, entries.Keys, key);
    assert (entries - {key}).Keys == entries.Keys - {key};
    var order' := Without(order, key);
    forall i | 0 <= i < |order'| ensures order'[i] in entries {
      assert order'[i] in order';
    }
    forall i, j | 0 <= i < j < |order'| ensures entries[order'[i]].lastUse > entries[order'[j]].lastUse {
      var i', j' := WithoutKeepsOrder(order, key, i, j);
    }
  }

  /** Reading answers as the reference does, and moves the same key to the front of both. */
  lemma GetRefines(s: State, r: Reference, key: Key, now: Time, ttl: int)
    requires Represents(s, r)
    ensures Lookup(s, key, now, ttl) == RefLookup(r, key, now, ttl)
    ensures Represents(AfterGet(s, key, now, ttl), RefGet(r, key, now, ttl))
  {
    if Fresh(s, key, now, ttl) {
      FrontRepresents(s, r, key, s.entries[key]);
    }
  }

  ghost predicate ByLastUse(order: seq<Key>, entries: map<Key, Used>) {
    && Lists(order, entries.Keys)
    && (forall i, j :: 0 <= i < j < |order| ==> entries[order[i]].lastUse > entries[order[j]].lastUse)
  }

  lemma FrontByLastUse(order: seq<Key>, entries: map<Key, Used>, key: Key, u: Used)
    requires ByLastUse(order, entries - {key}) && key !in order
    requires forall k :: k in entries && k != key ==> entries[k].lastUse < u.lastUse
    ensures ByLastUse([key] + order, entries[key := u])
  {
    var order', entries' := [key] + order, entries[key := u];
    forall i, j | 0 <= i < j < |order'|
      ensures order'[i] != order'[j] && order'[j] in entries' && order'[i] in entries' &&
              entries'[order'[i]].lastUse > entries'[order'[j]].lastUse
    {
      assert order'[j] == order[j - 1] && order'[j] in order;
      if i > 0 {
        assert order'[i] == order[i - 1] && order'[i] in order;
      }
    }
    forall k ensures k in order' <==> k in entries' {
      assert k in order <==> k in entries - {key};
    }
  }

  ghost predicate EntriesMatch(entries: map<Key, Entry>, r: Reference) {
    && entries.Keys == r.entries.Keys
    && forall k :: k in entries ==>
         entries[k] == Entry(r.entries[k].value, r.entries[k].storedAt) && r.entries[k].lastUse < r.uses
  }

  lemma SameEntries(s: State, r: Reference, key: Key, e: Entry)
    requires EntriesMatch(s.entries, r)
    ensures EntriesMatch(s.entries[key := e], Reference(r.entries[key := Used(e.value, e.storedAt, r.uses)], r.uses + 1))
  {
  }

  /** Using `key` last puts it first. */
  lemma FrontRepresents(s: State, r: Reference, key: Key, e: Entry)
    requires Represents(s, r)
    ensures Represents(State(ToFront(s.order, key), s.entries[key := e]),
                       Reference(r.entries[key := Used(e.value, e.storedAt, r.uses)], r.uses + 1))
  {
    var u := Used(e.value, e.storedAt, r.uses);
    WithoutRepresents(s.order, r.entries, key);
    FrontByLastUse(Without(s.order, key), r.entries, key, u);
    SameEntries(s, r, key, e);
  }

  lemma DistinctCount(order: seq<Key>, keys: set<Key>)
    requires Lists(order, keys)
    ensures |order| == |keys|
  {
    if order != [] {
      ListsRest(order, keys);
      DistinctCount(order[1..], keys - {order[0]});
    } else {
      assert keys == {};
    }
  }

  lemma LastIsLeast(order: seq<Key>, entries: map<Key, Used>, k: Key)
    requires ByLastUse(order, entries) && order != [] && k in entries && k != order[|order| - 1]
    ensures entries[order[|order| - 1]].lastUse < entries[k].lastUse
  {
    assert k in order;
    var i :| 0 <= i < |order| && order[i] == k;
  }

  lemma FewerMatch(entries: map<Key, Entry>, r: Reference, key: Key)
    requires EntriesMatch(entries, r)
    ensures EntriesMatch(entries - {key}, Reference(r.entries - {key}, r.uses))
  {
  }

  /** The last of the list is the reference's least used entry, and dropping it from both keeps them together. */
  lemma DropLast(s: State, r: Reference)
    requires Represents(s, r) && s.order != []
    ensures var victim := s.order[|s.order| - 1];
            && LeastUsed(r, victim)
            && Represents(State(s.order[..|s.order| - 1], s.entries - {victim}), Reference(r.entries - {victim}, r.uses))
  {
    var victim := s.order[|s.order| - 1];
    forall k | k in r.entries && k != victim ensures r.entries[victim].lastUse < r.entries[k].lastUse {
      LastIsLeast(s.order, r.entries, k);
    }
    ShorterByLastUse(s.order, r.entries);
    FewerMatch(s.entries, r, victim);
  }

  lemma ShorterByLastUse(order: seq<Key>, entries: map<Key, Used>)
    requires ByLastUse(order, entries) && order != []
    ensures ByLastUse(order[..|order| - 1], entries - {order[|order| - 1]})
  {
    AllButLast(order, entries.Keys);
    assert (entries - {order[|order| - 1]}).Keys == entries.Keys - {order[|order| - 1]};
  }

  /** Only a key not in the cache can take it over its size. */
  lemma SetShape(s: State, key: Key, value: Value, now: Time, maxEntries: nat)
    requires Agrees(s, maxEntries)
    ensures var s1 := State(ToFront(s.order, key), s.entries[key := Entry(value, now)]);
            AfterSet(s, key, value, now, maxEntries) ==
              if |s1.order| <= maxEntries then s1
              else State(s1.order[..|s1.order| - 1], s1.entries - {s1.order[|s1.order| - 1]})
  {
    FrontLists(s.order, s.entries.Keys, key);
  }

  /** Storing evicts the key the reference used longest ago, and only when the cache is over its size. */
  lemma SetRefines(s: State, r: Reference, key: Key, value: Value, now: Time, maxEntries: nat) returns (r': Reference)
    requires Represents(s, r) && |s.order| <= maxEntries && maxEntries >= 1
    ensures RefSet(r, key, value, now, maxEntries, r')
    ensures Represents(AfterSet(s, key, value, now, maxEntries), r')
  {
    var e := Entry(value, now);
    var s1 := State(ToFront(s.order, key), s.entries[key := e]);
    var r1 := Reference(r.entries[key := Used(value, now, r.uses)], r.uses + 1);
    FrontRepresents(s, r, key, e);
    RepresentedCount(s1, r1);
    SetShape(s, key, value, now, maxEntries);
    r' := r1;
    if |s1.order| > maxEntries {
      DropLast(s1, r1);
      r' := Reference(r1.entries - {s1.order[|s1.order| - 1]}, r1.uses);
    }
  }

  lemma RepresentedCount(s: State, r: Reference)
    requires Represents(s, r)
    ensures |s.order| == |r.entries|
  {
    DistinctCount(s.order, r.entries.Keys);
    assert |r.entries| == |r.entries.Keys|;
  }

  /** Deleting from both keeps them together. */
  lemma DeleteRefines(s: State, r: Reference, key: Key)
    requires Represents(s, r)
    ensures Represents(AfterDelete(s, key), Reference(r.entries - {key}, r.uses))
  {
    WithoutRepresents(s.order, r.entries, key);
    FewerMatch(s.entries, r, key);
  }

  // ---- The cache ----

  class Cache {
    const maxEntries: nat
    const ttl: int
    var order: seq<Key>
    var entries: map<Key, Entry>

    ghost function Model(): State
      reads this
    {
      State(order, entries)
    }

    ghost predicate Valid()
      reads this
    {
      maxEntries >= 1 && Agrees(Model(), maxEntries)
    }

    constructor (maxEntries: nat, ttl: int)
      requires maxEntries >= 1
      ensures Valid() && this.maxEntries == maxEntries && this.ttl == ttl && Model() == State([], map[])
    {
      this.maxEntries, this.ttl := maxEntries, ttl;
      order, entries := [], map[];
    }

    method Get(key: Key, now: Time) returns (v: Option<Value>)
      requires Valid()
      modifies this
      ensures Valid()
      ensures v == Lookup(old(Model()), key, now, ttl)
      ensures Model() == AfterGet(old(Model()), key, now, ttl)
    {
      GetKeepsAgreement(Model(), key, now, ttl, maxEntries);
      if key !in entries {
        return None;
      }
      var e := entries[key];
      if now - e.storedAt > ttl {
        return None;
      }
      order := ToFront(order, key);
      v := Some(e.value);
    }

    /** `Get` with the caller's `maxAge` in place of the cache's own, and with no use counted. */
    method LastGoodWithin(key: Key, maxAge: int, now: Time) returns (v: Option<Value>)
      requires Valid()
      ensures v == Lookup(Model(), key, now, maxAge)
    {
      if key !in entries || now - entries[key].storedAt > maxAge {
        return None;
      }
      v := Some(entries[key].value);
    }

    method Set(key: Key, value: Value, now: Time)
      requires Valid()
      modifies this
      ensures Valid()
      ensures Model() == AfterSet(old(Model()), key, value, now, maxEntries)
    {
      SetKeepsAgreement(Model(), key, value, now, maxEntries);
      if key in entries {
        entries := entries[key := Entry(value, now)];
        order := ToFront(order, key);
        return;
      }
      entries := entries[key := Entry(value, now)];
      order := ToFront(order, key);
      if |order| > maxEntries {
        var oldest := order[|order| - 1];
        order := order[..|order| - 1];
        entries := entries - {oldest};
      }
    }

    /** `Set` on condition that `Get` would have found nothing. */
    method SetIfAbsent(key: Key, value: Value, now: Time) returns (stored: bool)
      requires Valid()
      modifies this
      ensures Valid()
      ensures stored <==> !Fresh(old(Model()), key, now, ttl)
      ensures Model() == if stored then AfterSet(old(Model()), key, value, now, maxEntries)
                         else AfterGet(old(Model()), key, now, ttl)
    {
      GetKeepsAgreement(Model(), key, now, ttl, maxEntries);
      if key in entries && now - entries[key].storedAt <= ttl {
        order := ToFront(order, key);
        return false;
      }
      Set(key, value, now);
      stored := true;
    }

    method DeleteIf(key: Key, match_: Value -> bool) returns (removed: bool)
      requires Valid()
      modifies this
      ensures Valid()
      ensures removed <==> key in old(entries) && match_(old(entries)[key].value)
      ensures Model() == if removed then AfterDelete(old(Model()), key) else old(Model())
    {
      DeleteKeepsAgreement(Model(), key, maxEntries);
      if key !in entries || !match_(entries[key].value) {
        return false;
      }
      order := Without(order, key);
      entries := entries - {key};
      removed := true;
    }
  }

  /** A store never evicts the key it stores. */
  lemma FrontIsKept(s: State, key: Key, value: Value, now: Time, maxEntries: nat)
    requires Agrees(s, maxEntries) && maxEntries >= 1
    ensures key in AfterSet(s, key, value, now, maxEntries).entries
    ensures AfterSet(s, key, value, now, maxEntries).entries[key] == Entry(value, now)
  {
    FrontLists(s.order, s.entries.Keys, key);
    var order := ToFront(s.order, key);
    assert |order| > maxEntries ==> order[0] != order[|order| - 1];
  }

  /** What was stored is served until it is older than asked for, and no longer. */
  lemma ServedWhileFresh(s: State, key: Key, value: Value, storedAt: Time, now: Time, ttl: int, maxEntries: nat)
    requires Agrees(s, maxEntries) && maxEntries >= 1
    ensures Lookup(AfterSet(s, key, value, storedAt, maxEntries), key, now, ttl) ==
            if now <= storedAt + ttl then Some(value) else None
  {
    FrontIsKept(s, key, value, storedAt, maxEntries);
  }
}
