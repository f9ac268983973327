/** The in-memory store of OOM kills, by workload and container (internal/oomwatch/cache.go). */
module OomCache {
  import opened Common

  datatype Key = Key(id: Identity, container: string)

  datatype Record = Record(
    policy: string, pod: string, observedAt: Time, terminatedAt: Time, restartCount: int, limit: int)

  /** Names one kill of a container: when it died and how often it had restarted. */
  datatype Kill = Kill(terminatedAt: Time, restartCount: int)

  function KillOf(r: Record): Kill {
    Kill(r.terminatedAt, r.restartCount)
  }

  /** Kills by time, then by restart count. */
  predicate Later(a: Kill, b: Kill) {
    a.terminatedAt > b.terminatedAt || (a.terminatedAt == b.terminatedAt && a.restartCount > b.restartCount)
  }

  // ---- One slot ----

  /** The slot after one more record: the newer identity, the larger limit, the later observation. */
  function Merged(e: Option<Record>, r: Record): Record {
    if e.None? then r
    else if KillOf(e.value) == KillOf(r) then e.value.(limit := Max(r.limit, e.value.limit))
    else
      (if Later(KillOf(r), KillOf(e.value)) then r else e.value).(
        limit := Max(r.limit, e.value.limit),
        observedAt := Max(r.observedAt, e.value.observedAt))
  }

  /** The slot after all its records. */
  function Stored(h: seq<Record>): Option<Record> {
    if h == [] then None else Some(Merged(Stored(h[..|h| - 1]), h[|h| - 1]))
  }

  /** The record repeats the kill the slot held when it came. */
  predicate Duplicate(h: seq<Record>, i: int)
    requires 0 <= i < |h|
  {
    i > 0 && Stored(h[..i]).Some? && KillOf(Stored(h[..i]).value) == KillOf(h[i])
  }

  /** The first record with the latest time of death and, of those, the most restarts. */
  ghost predicate FirstOfLatest(h: seq<Record>, i: int) {
    && 0 <= i < |h|
    && forall j :: 0 <= j < |h| ==>
         || h[j].terminatedAt < h[i].terminatedAt
         || (h[j].terminatedAt == h[i].terminatedAt && h[j].restartCount < h[i].restartCount)
         || (h[j].terminatedAt == h[i].terminatedAt && h[j].restartCount == h[i].restartCount && i <= j)
  }

  ghost predicate Largest(h: seq<Record>, v: int) {
    (exists i :: 0 <= i < |h| && h[i].limit == v) && forall i :: 0 <= i < |h| ==> h[i].limit <= v
  }

  /** The latest observation among the records that were not duplicates. */
  ghost predicate LatestObservation(h: seq<Record>, t: Time) {
    && (exists i :: 0 <= i < |h| && !Duplicate(h, i) && h[i].observedAt == t)
    && (forall i :: 0 <= i < |h| && !Duplicate(h, i) ==> h[i].observedAt <= t)
  }

  ghost predicate IdentityOf(h: seq<Record>, i: int, r: Record) {
    && FirstOfLatest(h, i)
    && r.terminatedAt == h[i].terminatedAt && r.restartCount == h[i].restartCount
    && r.policy == h[i].policy && r.pod == h[i].pod
  }

  /**
   * A slot holds the identity of the first record of the latest kill, the largest limit of any record, and the latest
   * time anything but a repeat of the stored kill was observed.
   */
  lemma StoredDescribes(h: seq<Record>) returns (i: int)
    requires h != []
    ensures Stored(h).Some? && IdentityOf(h, i, Stored(h).value)
    ensures Largest(h, Stored(h).value.limit) && LatestObservation(h, Stored(h).value.observedAt)
  {
    i := IdentityIsFirst(h);
    LimitIsLargest(h);
    ObservationIsLatest(h);
  }

  lemma StoredNext(h: seq<Record>)
    requires h != []
    ensures Stored(h) == Some(Merged(Stored(h[..|h| - 1]), h[|h| - 1]))
    ensures Stored(h[..|h| - 1]).Some? <==> |h| > 1
  {
  }

  lemma {:induction false} IdentityIsFirst(h: seq<Record>) returns (i: int)
    requires h != []
    ensures Stored(h).Some? && IdentityOf(h, i, Stored(h).value)
  {
    StoredNext(h);
    var g, n := h[..|h| - 1], |h| - 1;
    if n == 0 {
      i := 0;
    } else {
      i := IdentityIsFirst(g);
      i := IdentityStep(g, i, Stored(g).value, h[n]);
      assert h == g + [h[n]];
    }
  }

  lemma IdentityStep(g: seq<Record>, i: int, e: Record, r: Record) returns (k: int)
    requires IdentityOf(g, i, e)
    ensures IdentityOf(g + [r], k, Merged(Some(e), r))
  {
    var h := g + [r];
    if Later(KillOf(r), KillOf(e)) {
      k := |g|;
      forall j | 0 <= j < |g| ensures Later(KillOf(h[k]), KillOf(h[j])) {
        assert h[j] == g[j] && !Later(KillOf(g[j]), KillOf(e));
      }
    } else {
      k := i;
    }
  }

  lemma {:induction false} LimitIsLargest(h: seq<Record>)
    requires h != []
    ensures Stored(h).Some? && Largest(h, Stored(h).value.limit)
  {
    StoredNext(h);
    var g, n := h[..|h| - 1], |h| - 1;
    if n == 0 {
      assert Largest(h, h[0].limit);
    } else {
      LimitIsLargest(g);
      LargestStep(g, Stored(g).value.limit, h[n]);
      assert h == g + [h[n]];
    }
  }

  lemma LargestStep(g: seq<Record>, v: int, r: Record)
    requires Largest(g, v)
    ensures Largest(g + [r], Max(r.limit, v))
  {
    var h := g + [r];
    var i :| 0 <= i < |g| && g[i].limit == v;
    assert h[i] == g[i] && h[|g|] == r;
  }

  lemma {:induction false} ObservationIsLatest(h: seq<Record>)
    requires h != []
    ensures Stored(h).Some? && LatestObservation(h, Stored(h).value.observedAt)
  {
    StoredNext(h);
    var g, n := h[..|h| - 1], |h| - 1;
    if n == 0 {
      assert !Duplicate(h, 0);
    } else {
      ObservationIsLatest(g);
      assert h == g + [h[n]];
      ObservationStep(g, Stored(g).value.observedAt, h[n], KillOf(Stored(g).value) == KillOf(h[n]));
    }
  }

  lemma ObservationStep(g: seq<Record>, t: Time, r: Record, duplicate: bool)
    requires g != [] && LatestObservation(g, t)
    requires duplicate <==> Duplicate(g + [r], |g|)
    ensures LatestObservation(g + [r], if duplicate then t else Max(r.observedAt, t))
  {
    var h := g + [r];
    forall j | 0 <= j < |g| ensures Duplicate(h, j) == Duplicate(g, j) && h[j] == g[j] {
      assert h[..j] == g[..j];
    }
    var i :| 0 <= i < |g| && !Duplicate(g, i) && g[i].observedAt == t;
    assert h[i].observedAt == t && !Duplicate(h, i) && h[|g|] == r;
  }

  /** The kill and the limit stored do not depend on the order the records came in. */
  lemma OrderDecidesNeitherKillNorLimit(h: seq<Record>, k: seq<Record>)
    requires multiset(h) == multiset(k) && h != []
    ensures Stored(h).Some? && Stored(k).Some?
    ensures KillOf(Stored(h).value) == KillOf(Stored(k).value)
    ensures Stored(h).value.limit == Stored(k).value.limit
  {
    assert h[0] in multiset(k);
    var i := StoredDescribes(h);
    var j := StoredDescribes(k);
    forall r ensures r in h <==> r in k {
      assert r in multiset(h) <==> r in multiset(k);
    }
    assert h[i] in k && k[j] in h;
    NoLaterThan(h, i, k[j]);
    NoLaterThan(k, j, h[i]);
    var a :| 0 <= a < |h| && h[a].limit == Stored(h).value.limit;
    var b :| 0 <= b < |k| && k[b].limit == Stored(k).value.limit;
    assert h[a] in k && k[b] in h;
  }

  lemma NoLaterThan(h: seq<Record>, i: int, r: Record)
    requires FirstOfLatest(h, i) && r in h
    ensures !Later(KillOf(r), KillOf(h[i]))
  {
  }

  /** The time it ages from does: a repeat of the stored kill refreshes nothing. */
  lemma OrderDecidesObservation(r: Record, later: Time)
    requires later > r.observedAt
    ensures Stored([r, r.(observedAt := later)]).value.observedAt == r.observedAt
    ensures Stored([r.(observedAt := later), r]).value.observedAt == later
  {
    var s := r.(observedAt := later);
    assert [r, s][..1] == [r] && [s, r][..1] == [s];
    assert [r][..0] == [] && [s][..0] == [];
    assert Stored([r]) == Some(r) && Stored([s]) == Some(s);
  }

  /** No record was observed after `t`, and one was at it. */
  ghost predicate ObservedLast(h: seq<Record>, t: Time) {
    (exists i :: 0 <= i < |h| && h[i].observedAt == t) && forall i :: 0 <= i < |h| ==> h[i].observedAt <= t
  }

  /** Some kill's records were all observed at `t`, so that it has no repeat that another record of it hides. */
  ghost predicate UnhiddenAt(h: seq<Record>, t: Time) {
    exists i :: 0 <= i < |h| && AllObservedAt(h, KillOf(h[i]), t)
  }

  ghost predicate AllObservedAt(h: seq<Record>, kill: Kill, t: Time) {
    forall j :: 0 <= j < |h| && KillOf(h[j]) == kill ==> h[j].observedAt == t
  }

  /** Whichever order the records of `h` come in, the observation stored is one. */
  ghost predicate OrderImmaterial(h: seq<Record>) {
    forall k, l :: multiset(k) == multiset(h) && multiset(l) == multiset(h) && k != [] && l != [] ==>
      Stored(k).value.observedAt == Stored(l).value.observedAt
  }

  lemma SameRecords(h: seq<Record>, k: seq<Record>, t: Time)
    requires multiset(h) == multiset(k)
    ensures forall r :: r in h <==> r in k
    ensures ObservedLast(h, t) ==> ObservedLast(k, t)
    ensures UnhiddenAt(h, t) ==> UnhiddenAt(k, t)
  {
    forall r ensures r in h <==> r in k {
      assert r in multiset(h) <==> r in multiset(k);
    }
    if ObservedLast(h, t) {
      var i :| 0 <= i < |h| && h[i].observedAt == t;
      assert h[i] in k;
      forall j | 0 <= j < |k| ensures k[j].observedAt <= t {
        assert k[j] in h;
      }
    }
    if UnhiddenAt(h, t) {
      var i :| 0 <= i < |h| && AllObservedAt(h, KillOf(h[i]), t);
      assert h[i] in k;
      var n :| 0 <= n < |k| && k[n] == h[i];
      forall j | 0 <= j < |k| && KillOf(k[j]) == KillOf(k[n]) ensures k[j].observedAt == t {
        assert k[j] in h;
      }
    }
  }

  /** The first record of a kill is no repeat. */
  lemma FirstIsNew(h: seq<Record>, i: int)
    requires 0 <= i < |h| && forall j :: 0 <= j < i ==> KillOf(h[j]) != KillOf(h[i])
    ensures !Duplicate(h, i)
  {
    if i > 0 {
      var k := IdentityIsFirst(h[..i]);
    }
  }

  lemma UnhiddenStored(h: seq<Record>, t: Time)
    requires h != [] && ObservedLast(h, t) && UnhiddenAt(h, t)
    ensures Stored(h).value.observedAt == t
  {
    var i :| 0 <= i < |h| && AllObservedAt(h, KillOf(h[i]), t);
    var n := FirstOfKill(h, i);
    FirstIsNew(h, n);
    ObservationIsLatest(h);
  }

  lemma FirstOfKill(h: seq<Record>, i: int) returns (n: int)
    requires 0 <= i < |h|
    ensures 0 <= n <= i && KillOf(h[n]) == KillOf(h[i]) && forall j :: 0 <= j < n ==> KillOf(h[j]) != KillOf(h[n])
  {
    n := 0;
    while KillOf(h[n]) != KillOf(h[i])
      invariant 0 <= n <= i && forall j :: 0 <= j < n ==> KillOf(h[j]) != KillOf(h[i])
      decreases i - n
    {
      n := n + 1;
    }
  }

  // By kill, and the records of one kill by observation.
  predicate NotAfter(a: Record, b: Record) {
    Later(KillOf(b), KillOf(a)) || (KillOf(a) == KillOf(b) && a.observedAt <= b.observedAt)
  }

  ghost predicate Ascending(h: seq<Record>) {
    forall i, j :: 0 <= i < j < |h| ==> NotAfter(h[i], h[j])
  }

  lemma {:induction false} Insertion(h: seq<Record>, r: Record) returns (k: seq<Record>)
    requires Ascending(h)
    ensures Ascending(k) && multiset(k) == multiset(h) + multiset{r}
  {
    if h == [] || NotAfter(h[|h| - 1], r) {
      k := h + [r];
    } else {
      var n := |h| - 1;
      var rest := Insertion(h[..n], r);
      assert h == h[..n] + [h[n]];
      k := rest + [h[n]];
      LastStays(h, r, rest);
    }
  }

  lemma LastStays(h: seq<Record>, r: Record, rest: seq<Record>)
    requires h != [] && Ascending(h) && NotAfter(r, h[|h| - 1])
    requires Ascending(rest) && multiset(rest) == multiset(h[..|h| - 1]) + multiset{r}
    ensures Ascending(rest + [h[|h| - 1]])
  {
    forall i | 0 <= i < |rest| ensures NotAfter(rest[i], h[|h| - 1]) {
      assert rest[i] in multiset(rest);
      assert rest[i] in h[..|h| - 1] || rest[i] == r;
    }
  }

  lemma {:induction false} Arrangement(h: seq<Record>) returns (k: seq<Record>)
    ensures Ascending(k) && multiset(k) == multiset(h)
  {
    if h == [] {
      k := [];
    } else {
      var n := |h| - 1;
      k := Arrangement(h[..n]);
      k := Insertion(k, h[n]);
      assert h == h[..n] + [h[n]];
    }
  }

  lemma EarlierInOrder(h: seq<Record>, j: int, i: int)
    requires Ascending(h) && 0 <= j < |h| && 0 <= i < |h|
    requires KillOf(h[j]) == KillOf(h[i]) && h[j].observedAt < h[i].observedAt
    ensures j < i
  {
  }

  /** In ascending order a record of the kill before it is a repeat. */
  lemma RepeatsInOrder(h: seq<Record>, j: int, i: int)
    requires Ascending(h) && 0 <= j < i < |h| && KillOf(h[j]) == KillOf(h[i])
    ensures Duplicate(h, i)
  {
    var k := IdentityIsFirst(h[..i]);
    assert NotAfter(h[k], h[i]) && !Later(KillOf(h[j]), KillOf(h[k]));
  }

  /** Where every kill observed last was also observed before, ascending order stores an earlier observation. */
  lemma HiddenStored(h: seq<Record>, t: Time)
    requires h != [] && Ascending(h) && ObservedLast(h, t) && !UnhiddenAt(h, t)
    ensures Stored(h).value.observedAt < t
  {
    ObservationIsLatest(h);
    forall i | 0 <= i < |h| && h[i].observedAt == t ensures Duplicate(h, i) {
      assert !AllObservedAt(h, KillOf(h[i]), t);
      var j :| 0 <= j < |h| && KillOf(h[j]) == KillOf(h[i]) && h[j].observedAt != t;
      EarlierInOrder(h, j, i);
      RepeatsInOrder(h, j, i);
    }
  }

  /** A record that comes first is stored with its observation, and no later one moves it back. */
  lemma FirstIsObserved(h: seq<Record>, t: Time)
    requires h != [] && ObservedLast(h, t) && h[0].observedAt == t
    ensures Stored(h).value.observedAt == t
  {
    ObservationIsLatest(h);
    assert !Duplicate(h, 0);
  }

  /**
   * The observation stored depends on the order exactly when every kill observed last was observed before as well: then
   * its last observation is a repeat in one order and the first record in another.
   */
  lemma OrderImmaterialExactly(h: seq<Record>, t: Time)
    requires h != [] && ObservedLast(h, t)
    ensures OrderImmaterial(h) <==> UnhiddenAt(h, t)
  {
    if UnhiddenAt(h, t) {
      forall k | multiset(k) == multiset(h) && k != [] ensures Stored(k).value.observedAt == t {
        SameRecords(h, k, t);
        UnhiddenStored(k, t);
      }
    } else {
      var k := Arrangement(h);
      var l := Foremost(h, t);
      assert |multiset(k)| == |multiset(h)| == |h|;
      SameRecords(h, k, t);
      SameRecords(k, h, t);
      SameRecords(h, l, t);
      HiddenStored(k, t);
      FirstIsObserved(l, t);
      assert Stored(k).value.observedAt != Stored(l).value.observedAt;
    }
  }

  lemma Foremost(h: seq<Record>, t: Time) returns (l: seq<Record>)
    requires ObservedLast(h, t)
    ensures l != [] && multiset(l) == multiset(h) && l[0].observedAt == t
  {
    var i :| 0 <= i < |h| && h[i].observedAt == t;
    l := [h[i]] + h[..i] + h[i + 1..];
    assert h == h[..i] + [h[i]] + h[i + 1..];
  }

  // ---- The index ----

  type Index = map<Identity, set<string>>

  /** The index holds exactly the keys, and no workload without one. */
  ghost predicate Indexes(index: Index, keys: set<Key>) {
    && (forall id, c :: Key(id, c) in keys <==> id in index && c in index[id])
    && (forall id :: id in index ==> exists c :: c in index[id])
  }

  function WithKey(index: Index, k: Key): Index {
    index[k.id := (if k.id in index then index[k.id] else {}) + {k.container}]
  }

  function WithoutKey(index: Index, k: Key): Index {
    if k.id !in index then index
    else if index[k.id] - {k.container} == {} then index - {k.id}
    else index[k.id := index[k.id] - {k.container}]
  }

  lemma IndexKept(index: Index, keys: set<Key>, k: Key)
    requires Indexes(index, keys)
    ensures Indexes(WithKey(index, k), keys + {k})
    ensures Indexes(WithoutKey(index, k), keys - {k})
  {
    forall id, c ensures Key(id, c) in keys - {k} <==> id in WithoutKey(index, k) && c in WithoutKey(index, k)[id] {
      if id == k.id && id in index && index[id] - {k.container} == {} && c in index[id] {
        assert c in index[id] - {k.container} + {k.container};
      }
    }
  }

  // ---- The cache ----

  predicate Stale(r: Record, now: Time, ttl: int) {
    now - r.observedAt > ttl
  }

  function EntryOf(entries: map<Key, Record>, k: Key): Option<Record> {
    if k in entries then Some(entries[k]) else None
  }

  datatype Mark = Mark(podUid: string, container: string, restartCount: int, terminatedAt: Time)

  /** Room was made for one more key: nothing left at the cap but the entry observed longest ago. */
  ghost predicate RoomMade(before: map<Key, Record>, maxEntries: nat, after: map<Key, Record>) {
    if |before| < maxEntries then after == before
    else exists victim :: Oldest(before, victim) && after == before - {victim}
  }

  ghost predicate MarkRoomMade(before: map<Mark, Time>, maxEntries: nat, after: map<Mark, Time>) {
    if |before| < maxEntries then after == before
    else exists victim :: OldestMark(before, victim) && after == before - {victim}
  }

  /** The index lists the entries, and each entry is what its records since it was last removed merge to. */
  ghost predicate Consistent(entries: map<Key, Record>, index: Index, histories: map<Key, seq<Record>>) {
    Indexes(index, entries.Keys) && Merging(entries, histories)
  }

  /** Consistent, and no more entries than the cache may hold. */
  ghost predicate Within(maxEntries: nat, entries: map<Key, Record>, index: Index, histories: map<Key, seq<Record>>) {
    Consistent(entries, index, histories) && |entries| <= maxEntries
  }

  ghost predicate Merging(entries: map<Key, Record>, histories: map<Key, seq<Record>>) {
    histories.Keys == entries.Keys && forall k :: k in entries ==> Stored(histories[k]) == Some(entries[k])
  }

  /** What is kept is kept with its records. */
  ghost predicate HistoriesKept(entries: map<Key, Record>, before: map<Key, seq<Record>>, after: map<Key, seq<Record>>) {
    forall k :: k in entries ==> k in before && k in after && after[k] == before[k]
  }

  function HistoryOf(histories: map<Key, seq<Record>>, k: Key): seq<Record> {
    if k in histories then histories[k] else []
  }

  lemma HistoryNext(h: seq<Record>, r: Record)
    ensures Stored(h + [r]) == Some(Merged(Stored(h), r))
  {
    assert (h + [r])[..|h|] == h;
  }

  lemma PutSize<K, V>(m: map<K, V>, k: K, v: V)
    ensures m[k := v].Keys == m.Keys + {k}
    ensures |m[k := v]| == if k in m then |m| else |m| + 1
  {
    var after := m[k := v];
    assert after.Keys == m.Keys + {k};
    assert |after.Keys| == |after| && |m.Keys| == |m|;
    if k in m {
      assert m.Keys + {k} == m.Keys;
    }
  }

  lemma PutElsewhere<K, V>(m: map<K, V>, k: K, v: V)
    ensures m[k := v] - {k} == m - {k}
    ensures k !in m ==> m[k := v] - {k} == m
  {
  }

  lemma PutMerging(entries: map<Key, Record>, histories: map<Key, seq<Record>>, k: Key, v: Record, h: seq<Record>)
    requires Merging(entries, histories) && Stored(h) == Some(v)
    ensures Merging(entries[k := v], histories[k := h])
  {
    PutSize(entries, k, v);
    PutSize(histories, k, h);
  }

  lemma PutWithin(maxEntries: nat, entries: map<Key, Record>, index: Index, histories: map<Key, seq<Record>>, k: Key,
                  v: Record,
                  h: seq<Record>)
    requires Within(maxEntries, entries, index, histories) && Stored(h) == Some(v)
    requires k in entries || |entries| < maxEntries
    ensures Within(maxEntries, entries[k := v], WithKey(index, k), histories[k := h])
  {
    IndexKept(index, entries.Keys, k);
    PutSize(entries, k, v);
    PutMerging(entries, histories, k, v, h);
  }

  lemma DropWithin(maxEntries: nat, entries: map<Key, Record>, index: Index, histories: map<Key, seq<Record>>, k: Key)
    requires Within(maxEntries, entries, index, histories) && k in entries
    ensures Within(maxEntries, entries - {k}, WithoutKey(index, k), histories - {k})
    ensures |entries - {k}| == |entries| - 1
  {
    IndexKept(index, entries.Keys, k);
    DropSize(entries, k);
    DropSize(histories, k);
  }

  lemma DropSize<K, V>(m: map<K, V>, k: K)
    requires k in m
    ensures (m - {k}).Keys == m.Keys - {k} && |m - {k}| == |m| - 1
  {
    assert |(m - {k}).Keys| == |m - {k}| && |m.Keys| == |m|;
  }

  /** One record more in its slot, room made for a new one, and every other slot left kept as it was. */
  ghost predicate Recorded(entries: map<Key, Record>, histories: map<Key, seq<Record>>, maxEntries: nat, key: Key, r: Record,
                           entries': map<Key, Record>, histories': map<Key, seq<Record>>)
  {
    && key in entries' && key in histories'
    && entries'[key] == Merged(EntryOf(entries, key), r)
    && histories'[key] == HistoryOf(histories, key) + [r]
    && (if key in entries then entries' - {key} == entries - {key} else RoomMade(entries, maxEntries, entries' - {key}))
    && forall k :: k in histories' && k != key ==> k in histories && histories'[k] == histories[k]
  }

  lemma MergeRecords(entries: map<Key, Record>, histories: map<Key, seq<Record>>, maxEntries: nat, k: Key, r: Record)
    requires k in entries && k in histories
    ensures Recorded(entries, histories, maxEntries, k, r, entries[k := Merged(Some(entries[k]), r)],
                     histories[k := histories[k] + [r]])
  {
    PutElsewhere(entries, k, Merged(Some(entries[k]), r));
  }

  lemma InsertRecords(entries: map<Key, Record>, histories: map<Key, seq<Record>>, maxEntries: nat, kept: map<Key, Record>,
                      keptHistories: map<Key, seq<Record>>, k: Key, r: Record)
    requires k !in entries && k !in histories && RoomMade(entries, maxEntries, kept)
    requires keptHistories.Keys == kept.Keys && forall j :: j in kept ==> j in histories && keptHistories[j] == histories[j]
    ensures Recorded(entries, histories, maxEntries, k, r, kept[k := r], keptHistories[k := [r]])
  {
    PutElsewhere(kept, k, r);
  }

  /** The entry observed longest ago. */
  ghost predicate Oldest(entries: map<Key, Record>, k: Key) {
    k in entries && forall j :: j in entries ==> entries[k].observedAt <= entries[j].observedAt
  }

  class Cache {
    const ttl: int
    const maxEntries: nat
    var entries: map<Key, Record>
    var byWorkload: Index
    var resolved: map<Mark, Time>
    /** Every stored key's records since it was last removed. */
    ghost var histories: map<Key, seq<Record>>
    /** Every kill ever marked handled, when it last was; those evicted since for want of room; the latest sweep. */
    ghost var marked: map<Mark, Time>
    ghost var evicted: set<Mark>
    ghost var sweptAt: Option<Time>

    ghost predicate EntriesValid()
      reads this`entries, this`byWorkload, this`histories
    {
      ttl > 0 && maxEntries > 0 && Within(maxEntries, entries, byWorkload, histories)
    }

    ghost predicate MarksValid()
      reads this`resolved, this`marked, this`evicted, this`sweptAt
    {
      maxEntries > 0 && MarksAgree(resolved, marked, evicted, sweptAt, ttl) && |resolved| <= maxEntries
    }

    /** The entries and the marks share nothing, so that a method on one half leaves the other as it is. */
    ghost predicate Valid()
      reads this
    {
      EntriesValid() && MarksValid()
    }

    constructor (ttl: int, maxEntries: int)
      ensures Valid() && entries == map[] && resolved == map[] && marked == map[] && sweptAt == None
      ensures this.ttl == (if ttl <= 0 then 30 * MINUTE else ttl)
      ensures this.maxEntries == if maxEntries <= 0 then 5000 else maxEntries
    {
      this.ttl := if ttl <= 0 then 30 * MINUTE else ttl;
      this.maxEntries := if maxEntries <= 0 then 5000 else maxEntries;
      entries, byWorkload, resolved, histories := map[], map[], map[], map[];
      marked, evicted, sweptAt := map[], {}, None;
    }

    method AddIndexLocked(k: Key)
      modifies this`byWorkload
      ensures byWorkload == WithKey(old(byWorkload), k)
    {
      if k.id !in byWorkload {
        byWorkload := byWorkload[k.id := {}];
      }
      byWorkload := byWorkload[k.id := byWorkload[k.id] + {k.container}];
    }

    method RemoveIndexLocked(k: Key)
      modifies this`byWorkload
      ensures byWorkload == WithoutKey(old(byWorkload), k)
    {
      if k.id !in byWorkload {
        return;
      }
      byWorkload := byWorkload[k.id := byWorkload[k.id] - {k.container}];
      if |byWorkload[k.id]| == 0 {
        byWorkload := byWorkload - {k.id};
      }
    }

    method DeleteEntryLocked(k: Key)
      requires EntriesValid() && k in entries
      modifies this`entries, this`byWorkload, this`histories
      ensures EntriesValid()
      ensures entries == old(entries) - {k} && histories == old(histories) - {k}
      ensures |entries| == |old(entries)| - 1
    {
      var left := entries - {k};
      ghost var merging := histories - {k};
      DropWithin(maxEntries, entries, byWorkload, histories, k);
      RemoveIndexLocked(k);
      entries, histories := left, merging;
    }

    /** Drops an entry observed no later than any other. */
    method EvictOldestLocked() returns (ghost victim: Key)
      requires EntriesValid() && entries != map[]
      modifies this`entries, this`byWorkload, this`histories
      ensures EntriesValid()
      ensures |entries| == |old(entries)| - 1
      ensures Oldest(old(entries), victim) && entries == old(entries) - {victim} && histories == old(histories) - {victim}
    {
      var oldest: Option<Key> := None;
      var keys := entries.Keys;
      while keys != {}
        invariant keys <= entries.Keys
        invariant oldest.None? ==> keys == entries.Keys
        invariant oldest.Some? ==> oldest.value in entries &&
                                   forall k :: k in entries && k !in keys ==> entries[oldest.value].observedAt <= entries[k].observedAt
      {
        var k :| k in keys;
        if oldest.None? || entries[k].observedAt < entries[oldest.value].observedAt {
          oldest := Some(k);
        }
        keys := keys - {k};
      }
      victim := oldest.value;
      DeleteEntryLocked(oldest.value);
    }

    /** Merges a record into its slot and reports whether it was of a kill other than the one stored. */
    method Record(key: Key, r: Record) returns (isNew: bool)
      requires EntriesValid()
      modifies this`entries, this`byWorkload, this`histories
      ensures EntriesValid()
      ensures isNew <==> !(key in old(entries) && KillOf(old(entries)[key]) == KillOf(r))
      ensures Recorded(old(entries), old(histories), maxEntries, key, r, entries, histories)
    {
      if key in entries {
        isNew := MergeLocked(key, r);
      } else {
        InsertLocked(key, r);
        isNew := true;
      }
    }

    method MergeLocked(key: Key, r: Record) returns (isNew: bool)
      requires EntriesValid() && key in entries
      modifies this`entries, this`byWorkload, this`histories
      ensures EntriesValid()
      ensures isNew <==> KillOf(old(entries)[key]) != KillOf(r)
      ensures Recorded(old(entries), old(histories), maxEntries, key, r, entries, histories)
    {
      HistoryNext(histories[key], r);
      MergeRecords(entries, histories, maxEntries, key, r);
      var merged;
      merged, isNew := Combine(entries[key], r);
      StoreLocked(key, merged, histories[key] + [r]);
    }

    method StoreLocked(key: Key, r: Record, ghost h: seq<Record>)
      requires EntriesValid() && Stored(h) == Some(r)
      requires key in entries || |entries| < maxEntries
      modifies this`entries, this`byWorkload, this`histories
      ensures EntriesValid()
      ensures entries == old(entries)[key := r] && histories == old(histories)[key := h]
    {
      var stored := entries[key := r];
      ghost var merging := histories[key := h];
      PutWithin(maxEntries, entries, byWorkload, histories, key, r, h);
      AddIndexLocked(key);
      entries, histories := stored, merging;
    }

    /** Field by field: the later kill's identity, the larger limit, the later observation; a repeat only raises the limit. */
    method Combine(existing: Record, r: Record) returns (merged: Record, isNew: bool)
      ensures merged == Merged(Some(existing), r)
      ensures isNew <==> KillOf(existing) != KillOf(r)
    {
      if existing.restartCount == r.restartCount && existing.terminatedAt == r.terminatedAt {
        merged := existing;
        if r.limit > existing.limit {
          merged := merged.(limit := r.limit);
        }
        return merged, false;
      }
      merged := r;
      if !Later(KillOf(r), KillOf(existing)) {
        merged := existing;
      }
      merged := merged.(limit := Max(r.limit, existing.limit), observedAt := Max(r.observedAt, existing.observedAt));
      isNew := true;
    }

    method InsertLocked(key: Key, r: Record)
      requires EntriesValid() && key !in entries
      modifies this`entries, this`byWorkload, this`histories
      ensures EntriesValid()
      ensures Recorded(old(entries), old(histories), maxEntries, key, r, entries, histories)
    {
      MakeRoomLocked();
      HistoryNext([], r);
      assert [] + [r] == [r];
      InsertRecords(old(entries), old(histories), maxEntries, entries, histories, key, r);
      StoreLocked(key, r, [r]);
    }

    method MakeRoomLocked()
      requires EntriesValid()
      modifies this`entries, this`byWorkload, this`histories
      ensures EntriesValid() && |entries| < maxEntries
      ensures RoomMade(old(entries), maxEntries, entries)
      ensures HistoriesKept(entries, old(histories), histories)
    {
      if |entries| >= maxEntries {
        ghost var victim := EvictOldestLocked();
        assert Oldest(old(entries), victim);
      }
    }

    method DeleteIfStaleLocked(key: Key, now: Time)
      requires EntriesValid()
      modifies this`entries, this`byWorkload, this`histories
      ensures EntriesValid()
      ensures entries == if key in old(entries) && Stale(old(entries)[key], now, ttl) then old(entries) - {key} else old(entries)
      ensures HistoriesKept(entries, old(histories), histories)
    {
      if key !in entries {
        return;
      }
      if now - entries[key].observedAt > ttl {
        DeleteEntryLocked(key);
      }
    }

    /** The first phase of a read: the workload's fresh records, and the keys it found stale. */
    method Scan(id: Identity, now: Time) returns (out: map<string, Record>, stale: seq<Key>)
      requires EntriesValid()
      ensures out == FreshOf(entries, id, now, ttl)
      ensures forall k :: k in stale <==> k in entries && k.id == id && Stale(entries[k], now, ttl)
    {
      out, stale := map[], [];
      var containers := if id in byWorkload then byWorkload[id] else {};
      ghost var all := containers;
      while containers != {}
        invariant containers <= all
        invariant Scanned(entries, id, now, ttl, all - containers, out, stale)
      {
        var c :| c in containers;
        ScannedNext(entries, id, now, ttl, all, containers, out, stale, c);
        containers := containers - {c};
        var key := Key(id, c);
        if key in entries {
          if now - entries[key].observedAt > ttl {
            stale := stale + [key];
          } else {
            out := out[c := entries[key]];
          }
        }
      }
      assert all - {} == all;
      ScannedAll(entries, id, now, ttl, all, out, stale);
    }

    /**
     * The second phase, after any records and sweeps in between: of the keys found stale it deletes those that still
     * are, and nothing else.
     */
    method Purge(stale: seq<Key>, now: Time)
      requires EntriesValid()
      modifies this`entries, this`byWorkload, this`histories
      ensures EntriesValid()
      ensures entries == Purged(old(entries), Elements(stale), now, ttl)
      ensures forall k :: k in entries <==> k in old(entries) && (k in stale ==> old(entries)[k].observedAt >= now - ttl)
      ensures forall k :: k in entries ==> entries[k] == old(entries)[k]
      ensures HistoriesKept(entries, old(histories), histories)
    {
      PurgedStart(entries, now, ttl);
      for i := 0 to |stale|
        invariant EntriesValid()
        invariant entries == Purged(old(entries), Elements(stale[..i]), now, ttl)
        invariant HistoriesKept(entries, old(histories), histories)
      {
        PurgedNext(old(entries), Elements(stale[..i]), stale[i], now, ttl);
        assert Elements(stale[..i + 1]) == Elements(stale[..i]) + {stale[i]};
        DeleteIfStaleLocked(stale[i], now);
      }
      assert stale[..|stale|] == stale;
    }

    /** A read with nothing in between: every fresh record of the workload, and no record dropped but stale ones of it. */
    method ByWorkload(id: Identity, now: Time) returns (out: map<string, Record>)
      requires EntriesValid()
      modifies this`entries, this`byWorkload, this`histories
      ensures EntriesValid()
      ensures forall c :: c in out <==> Key(id, c) in old(entries) && old(entries)[Key(id, c)].observedAt >= now - ttl
      ensures forall c :: c in out ==> out[c] == old(entries)[Key(id, c)]
      ensures forall k :: k in entries <==> k in old(entries) && (k.id == id ==> old(entries)[k].observedAt >= now - ttl)
      ensures forall k :: k in entries ==> entries[k] == old(entries)[k]
    {
      var stale: seq<Key>;
      out, stale := Scan(id, now);
      Purge(stale, now);
    }

    /** Drops everything older than the TTL, records and marks. */
    method Sweep(now: Time)
      requires Valid()
      modifies this`entries, this`byWorkload, this`histories, this`resolved, this`sweptAt
      ensures Valid()
      ensures forall k :: k in entries <==> k in old(entries) && old(entries)[k].observedAt >= now - ttl
      ensures forall k :: k in entries ==> entries[k] == old(entries)[k]
      ensures HistoriesKept(entries, old(histories), histories)
      ensures forall m :: m in resolved <==> m in old(resolved) && old(resolved)[m] >= now - ttl
      ensures forall m :: m in resolved ==> resolved[m] == old(resolved)[m]
      ensures sweptAt == Some(LatestOf(old(sweptAt), now))
    {
      SweepEntries(now);
      SweepMarks(now);
    }

    method SweepEntries(now: Time)
      requires EntriesValid()
      modifies this`entries, this`byWorkload, this`histories
      ensures EntriesValid()
      ensures entries == Purged(old(entries), old(entries).Keys, now, ttl)
      ensures HistoriesKept(entries, old(histories), histories)
    {
      PurgedNone(entries, now, ttl);
      ghost var all := entries.Keys;
      var keys := entries.Keys;
      while keys != {}
        invariant EntriesValid() && keys <= all
        invariant entries == Purged(old(entries), all - keys, now, ttl)
        invariant HistoriesKept(entries, old(histories), histories)
      {
        var k :| k in keys;
        PurgedTaking(old(entries), all, keys, k, now, ttl);
        DeleteIfStaleLocked(k, now);
        keys := keys - {k};
      }
      assert all - keys == all;
    }

    method SweepMarks(now: Time)
      requires MarksValid()
      modifies this`resolved, this`sweptAt
      ensures MarksValid()
      ensures resolved == Kept(old(resolved), {}, now, ttl)
      ensures sweptAt == Some(LatestOf(old(sweptAt), now))
    {
      SweptLater(resolved, marked, evicted, sweptAt, now, ttl);
      sweptAt := Some(LatestOf(sweptAt, now));
      var marks := resolved.Keys;
      KeptStart(resolved, now, ttl);
      while marks != {}
        modifies this`resolved
        invariant marks <= old(resolved).Keys && MarksValid()
        invariant resolved == Kept(old(resolved), marks, now, ttl)
      {
        var m :| m in marks;
        marks := marks - {m};
        KeptNext(old(resolved), marks, m, now, ttl);
        SweepMark(m, now);
      }
    }

    method SweepMark(m: Mark, now: Time)
      requires MarksValid() && m in resolved && sweptAt.Some? && sweptAt.value >= now
      modifies this`resolved
      ensures MarksValid()
      ensures resolved == if now - old(resolved)[m] > ttl then old(resolved) - {m} else old(resolved)
    {
      if now - resolved[m] > ttl {
        DropSize(resolved, m);
        SweptAgrees(resolved, marked, evicted, sweptAt, ttl, m);
        resolved := resolved - {m};
      }
    }

    /**
     * On a clock that does not run back, a kill counts as handled exactly when it was last marked within the TTL and its
     * mark has not been evicted since; on any clock, only then.
     */
    method AlreadyResolved(m: Mark, now: Time) returns (already: bool)
      requires MarksValid()
      ensures already ==> m in marked && m !in evicted && now - marked[m] <= ttl
      ensures sweptAt.None? || sweptAt.value <= now ==>
                (already <==> m in marked && m !in evicted && now - marked[m] <= ttl)
    {
      already := m in resolved && now - resolved[m] <= ttl;
    }

    /** Marks a kill handled, making room among the marks like `Record` among the entries. */
    method MarkResolved(m: Mark, now: Time)
      requires MarksValid()
      modifies this`resolved, this`marked, this`evicted
      ensures MarksValid()
      ensures m in resolved && resolved[m] == now
      ensures if m in old(resolved) then resolved - {m} == old(resolved) - {m}
              else MarkRoomMade(old(resolved), maxEntries, resolved - {m})
      ensures marked == old(marked)[m := now]
      ensures evicted == old(evicted) + (old(resolved).Keys - resolved.Keys) - {m}
    {
      if m !in resolved {
        MakeMarkRoom();
      }
      PutSize(resolved, m, now);
      PutElsewhere(resolved, m, now);
      MarkedAgrees(resolved, marked, evicted, sweptAt, ttl, m, now);
      resolved, marked, evicted := resolved[m := now], marked[m := now], evicted - {m};
    }

    method MakeMarkRoom()
      requires MarksValid()
      modifies this`resolved, this`evicted
      ensures MarksValid() && |resolved| < maxEntries
      ensures MarkRoomMade(old(resolved), maxEntries, resolved)
      ensures evicted == old(evicted) + (old(resolved).Keys - resolved.Keys)
    {
      if |resolved| >= maxEntries {
        ghost var victim := EvictOldestMark();
        assert OldestMark(old(resolved), victim);
      }
    }

    method EvictOldestMark() returns (ghost victim: Mark)
      requires MarksValid() && resolved != map[]
      modifies this`resolved, this`evicted
      ensures MarksValid() && |resolved| == |old(resolved)| - 1
      ensures OldestMark(old(resolved), victim) && resolved == old(resolved) - {victim} && evicted == old(evicted) + {victim}
    {
      var oldest: Option<Mark> := None;
      var marks := resolved.Keys;
      while marks != {}
        invariant marks <= resolved.Keys
        invariant oldest.None? ==> marks == resolved.Keys
        invariant oldest.Some? ==> oldest.value in resolved &&
                                   forall k :: k in resolved && k !in marks ==> resolved[oldest.value] <= resolved[k]
      {
        var m :| m in marks;
        if oldest.None? || resolved[m] < resolved[oldest.value] {
          oldest := Some(m);
        }
        marks := marks - {m};
      }
      victim := oldest.value;
      DropSize(resolved, victim);
      EvictedAgrees(resolved, marked, evicted, sweptAt, ttl, victim);
      resolved, evicted := resolved - {oldest.value}, evicted + {oldest.value};
    }
  }

  /** `m` was marked no later than any other mark. */
  ghost predicate OldestMark(marks: map<Mark, Time>, m: Mark) {
    m in marks && forall k :: k in marks ==> marks[m] <= marks[k]
  }

  ghost function LatestOf(t: Option<Time>, now: Time): Time {
    if t.Some? && t.value > now then t.value else now
  }

  /** The marks kept are of the kills last marked, less those evicted and those some sweep found past the TTL. */
  ghost predicate MarksAgree(resolved: map<Mark, Time>, marked: map<Mark, Time>, evicted: set<Mark>,
                             sweptAt: Option<Time>, ttl: int) {
    && (forall m :: m in resolved ==> m in marked && resolved[m] == marked[m] && m !in evicted)
    && (forall m :: m in marked ==> m in resolved || m in evicted || (sweptAt.Some? && sweptAt.value - marked[m] > ttl))
  }

  /** The fresh records and stale keys among the containers looked at. */
  ghost predicate Scanned(entries: map<Key, Record>, id: Identity, now: Time, ttl: int, seen: set<string>,
                          out: map<string, Record>, stale: seq<Key>)
  {
    && (forall c :: c in out <==> c in seen && Key(id, c) in entries && !Stale(entries[Key(id, c)], now, ttl))
    && (forall c :: c in out ==> out[c] == entries[Key(id, c)])
    && (forall k :: k in stale <==> k.id == id && k.container in seen && k in entries && Stale(entries[k], now, ttl))
  }

  lemma ScannedNext(entries: map<Key, Record>, id: Identity, now: Time, ttl: int, all: set<string>, containers: set<string>,
                    out: map<string, Record>, stale: seq<Key>, c: string)
    requires containers <= all && c in containers && Scanned(entries, id, now, ttl, all - containers, out, stale)
    ensures var key := Key(id, c);
            Scanned(entries, id, now, ttl, all - (containers - {c}),
                    if key in entries && !Stale(entries[key], now, ttl) then out[c := entries[key]] else out,
                    if key in entries && Stale(entries[key], now, ttl) then stale + [key] else stale)
  {
    assert all - (containers - {c}) == all - containers + {c};
  }

  lemma ScannedAll(entries: map<Key, Record>, id: Identity, now: Time, ttl: int, all: set<string>,
                   out: map<string, Record>, stale: seq<Key>)
    requires Scanned(entries, id, now, ttl, all, out, stale) && forall c :: Key(id, c) in entries ==> c in all
    ensures out == FreshOf(entries, id, now, ttl)
    ensures forall k :: k in stale <==> k in entries && k.id == id && Stale(entries[k], now, ttl)
  {
    var kept := FreshOf(entries, id, now, ttl);
    forall c ensures c in out <==> c in kept {
      if c in out {
        assert Key(id, c) in entries;
      }
    }
    forall k | k in entries && k.id == id ensures k.container in all {
      assert k == Key(id, k.container);
    }
  }

  /** The marks within the TTL, and those still to be looked at. */
  ghost function Kept(marks: map<Mark, Time>, left: set<Mark>, now: Time, ttl: int): map<Mark, Time> {
    map k | k in marks && (k in left || now - marks[k] <= ttl) :: marks[k]
  }

  lemma KeptStart(marks: map<Mark, Time>, now: Time, ttl: int)
    ensures Kept(marks, marks.Keys, now, ttl) == marks
  {
  }

  lemma KeptNext(marks: map<Mark, Time>, left: set<Mark>, m: Mark, now: Time, ttl: int)
    requires m in marks && m !in left
    ensures var so := Kept(marks, left + {m}, now, ttl);
            && m in so && so[m] == marks[m]
            && Kept(marks, left, now, ttl) == if now - marks[m] > ttl then so - {m} else so
  {
  }

  lemma MarkedAgrees(resolved: map<Mark, Time>, marked: map<Mark, Time>, evicted: set<Mark>, sweptAt: Option<Time>,
                     ttl: int, m: Mark, now: Time)
    requires MarksAgree(resolved, marked, evicted, sweptAt, ttl)
    ensures MarksAgree(resolved[m := now], marked[m := now], evicted - {m}, sweptAt, ttl)
  {
  }

  lemma EvictedAgrees(resolved: map<Mark, Time>, marked: map<Mark, Time>, evicted: set<Mark>, sweptAt: Option<Time>,
                      ttl: int, m: Mark)
    requires MarksAgree(resolved, marked, evicted, sweptAt, ttl)
    ensures MarksAgree(resolved - {m}, marked, evicted + {m}, sweptAt, ttl)
  {
  }

  lemma SweptLater(resolved: map<Mark, Time>, marked: map<Mark, Time>, evicted: set<Mark>, sweptAt: Option<Time>,
                   now: Time, ttl: int)
    requires MarksAgree(resolved, marked, evicted, sweptAt, ttl)
    ensures MarksAgree(resolved, marked, evicted, Some(LatestOf(sweptAt, now)), ttl)
  {
  }

  lemma SweptAgrees(resolved: map<Mark, Time>, marked: map<Mark, Time>, evicted: set<Mark>, sweptAt: Option<Time>,
                    ttl: int, m: Mark)
    requires MarksAgree(resolved, marked, evicted, sweptAt, ttl)
    requires m in resolved && sweptAt.Some? && sweptAt.value - resolved[m] > ttl
    ensures MarksAgree(resolved - {m}, marked, evicted, sweptAt, ttl)
  {
  }

  ghost function Elements<T>(xs: seq<T>): set<T> {
    set x | x in xs
  }

  /** The entries less those of `keys` that are stale. */
  ghost function Purged(entries: map<Key, Record>, keys: set<Key>, now: Time, ttl: int): map<Key, Record> {
    map k | k in entries && !(k in keys && Stale(entries[k], now, ttl)) :: entries[k]
  }

  lemma PurgedStart(entries: map<Key, Record>, now: Time, ttl: int)
    ensures Purged(entries, {}, now, ttl) == entries
    ensures Elements<Key>([]) == {}
  {
  }

  lemma PurgedNext(entries: map<Key, Record>, keys: set<Key>, k: Key, now: Time, ttl: int)
    ensures var so := Purged(entries, keys, now, ttl);
            Purged(entries, keys + {k}, now, ttl) == if k in so && Stale(so[k], now, ttl) then so - {k} else so
  {
  }

  lemma PurgedNone(entries: map<Key, Record>, now: Time, ttl: int)
    ensures Purged(entries, entries.Keys - entries.Keys, now, ttl) == entries
  {
  }

  lemma PurgedTaking(entries: map<Key, Record>, all: set<Key>, keys: set<Key>, k: Key, now: Time, ttl: int)
    requires keys <= all && k in keys
    ensures var so := Purged(entries, all - keys, now, ttl);
            Purged(entries, all - (keys - {k}), now, ttl) == if k in so && Stale(so[k], now, ttl) then so - {k} else so
  {
    assert all - (keys - {k}) == all - keys + {k};
    PurgedNext(entries, all - keys, k, now, ttl);
  }

  /** A full scan: the workload's records no older than the TTL. */
  function FreshOf(entries: map<Key, Record>, id: Identity, now: Time, ttl: int): map<string, Record> {
    map k | k in entries && k.id == id && !Stale(entries[k], now, ttl) :: k.container := entries[k]
  }
}
