/** Reading every signal for many identities through sharded queries (internal/recommender/prom_inputs.go). */
module PromInputs {
  import opened Arithmetic
  import opened Common
  import opened Ordering
  import opened Shards

  /** An identity to read, and its container count, zero when unknown. */
  datatype Request = Request(id: Identity, containers: int)

  predicate MalformedId(id: Identity) {
    id.namespace == "" || id.kind == "" || id.name == ""
  }

  /** The container count of an identity's first request. */
  function FirstSize(reqs: seq<Request>, id: Identity): int {
    if reqs == [] then 0 else if reqs[0].id == id then reqs[0].containers else FirstSize(reqs[1..], id)
  }

  ghost function RequestedIn(reqs: seq<Request>): set<Identity> {
    set r | r in reqs :: r.id
  }

  lemma RequestedNext(reqs: seq<Request>, i: nat)
    requires i < |reqs|
    ensures RequestedIn(reqs[..i + 1]) == RequestedIn(reqs[..i]) + {reqs[i].id}
  {
    var before, after := reqs[..i], reqs[..i + 1];
    assert after == before + [reqs[i]];
    assert reqs[i] in after;
    forall r | r in before ensures r in after {
    }
  }

  lemma {:induction false} FirstSizeHere(reqs: seq<Request>, i: nat)
    requires i < |reqs| && reqs[i].id !in RequestedIn(reqs[..i])
    ensures FirstSize(reqs, reqs[i].id) == reqs[i].containers
  {
    if i > 0 {
      assert reqs[..i][0] == reqs[0] && reqs[0] in reqs[..i];
      var rest := reqs[1..][..i - 1];
      forall r | r in rest ensures r.id != reqs[i].id {
        assert rest == reqs[..i][1..];
        assert r in reqs[..i];
      }
      FirstSizeHere(reqs[1..], i - 1);
    }
  }

  // ---- Planning ----

  /** The shard of one identity. */
  function Single(id: Identity): Shard {
    Shard(id.namespace, id.kind, [id.name])
  }

  /** A shard alone with its identity, or of sized identities whose costs together stay within the budget. */
  ghost predicate Budgeted(reqs: seq<Request>, spc: int, maxSamples: int, s: Shard, chunk: seq<Member>) {
    && s.names == Names(chunk) && 1 <= |chunk| <= 1000 && (|chunk| == 1 || Cost(chunk) <= maxSamples)
    && forall m :: m in chunk ==>
         var size := FirstSize(reqs, Identity(s.namespace, s.kind, m.name));
         m.cost == (if size <= 0 then 1 else size) * spc && (|chunk| > 1 ==> size > 0)
  }

  /** Every identity asked for that can be queried is in one shard, once, and no other is in any. */
  ghost predicate Planned(reqs: seq<Request>, spc: int, maxSamples: int, shards: seq<Shard>) {
    && (forall id :: Count(IdentitiesOf(shards), id) ==
                     if id in RequestedIn(reqs) && id.namespace != "" && id.kind != "" && id.name != "" then 1 else 0)
    && AllBudgeted(reqs, spc, maxSamples, shards)
  }

  ghost predicate AllBudgeted(reqs: seq<Request>, spc: int, maxSamples: int, shards: seq<Shard>) {
    forall k :: 0 <= k < |shards| ==> WithinBudget(reqs, spc, maxSamples, shards[k])
  }

  ghost predicate WithinBudget(reqs: seq<Request>, spc: int, maxSamples: int, s: Shard) {
    exists chunk :: Budgeted(reqs, spc, maxSamples, s, chunk)
  }

  ghost predicate Distinct(cands: seq<Candidate>) {
    forall i, j :: 0 <= i < j < |cands| ==> cands[i].id != cands[j].id
  }

  ghost function IdsOf(cands: seq<Candidate>): set<Identity> {
    set c | c in cands :: c.id
  }

  /** The first request of each identity seen, split by whether its size is known. */
  ghost predicate Split(reqs: seq<Request>, seen: set<Identity>, sized: seq<Candidate>, unsized: seq<Candidate>) {
    && (forall c :: c in sized ==> c.containers == FirstSize(reqs, c.id) && c.containers > 0)
    && (forall c :: c in unsized ==> c.containers == FirstSize(reqs, c.id) && c.containers <= 0)
    && IdsOf(sized) + IdsOf(unsized) == seen
    && Distinct(sized + unsized)
  }

  method SplitRequests(reqs: seq<Request>) returns (sized: seq<Candidate>, unsized: seq<Candidate>)
    ensures Split(reqs, RequestedIn(reqs), sized, unsized)
  {
    var seen: set<Identity> := {};
    sized, unsized := [], [];
    for i := 0 to |reqs|
      invariant seen == RequestedIn(reqs[..i])
      invariant Split(reqs, seen, sized, unsized)
    {
      var r := reqs[i];
      RequestedNext(reqs, i);
      if r.id !in seen {
        FirstSizeHere(reqs, i);
        SplitNext(reqs, seen, sized, unsized, Candidate(r.id, r.containers));
        seen := seen + {r.id};
        var c := Candidate(r.id, r.containers);
        if r.containers > 0 {
          sized := sized + [c];
        } else {
          unsized := unsized + [c];
        }
      } else {
        assert seen + {r.id} == seen;
      }
    }
    assert reqs[..|reqs|] == reqs;
  }

  lemma IdsGrow(cands: seq<Candidate>, c: Candidate)
    ensures IdsOf(cands + [c]) == IdsOf(cands) + {c.id}
    ensures forall x :: x in cands + [c] <==> x in cands || x == c
  {
    assert c in cands + [c];
    forall x | x in cands ensures x in cands + [c] {
    }
  }

  lemma SplitNext(reqs: seq<Request>, seen: set<Identity>, sized: seq<Candidate>, unsized: seq<Candidate>, c: Candidate)
    requires Split(reqs, seen, sized, unsized) && c.id !in seen && c.containers == FirstSize(reqs, c.id)
    ensures c.containers > 0 ==> Split(reqs, seen + {c.id}, sized + [c], unsized)
    ensures c.containers <= 0 ==> Split(reqs, seen + {c.id}, sized, unsized + [c])
  {
    IdsGrow(sized, c);
    IdsGrow(unsized, c);
    forall x | x in sized || x in unsized ensures x.id != c.id {
      assert x.id in IdsOf(sized) + IdsOf(unsized);
    }
    DistinctInserted(sized, unsized, c);
  }

  lemma DistinctInserted(sized: seq<Candidate>, unsized: seq<Candidate>, c: Candidate)
    requires Distinct(sized + unsized)
    requires forall x :: x in sized || x in unsized ==> x.id != c.id
    ensures Distinct(sized + [c] + unsized) && Distinct(sized + (unsized + [c]))
  {
    var all, a := sized + unsized, sized + [c] + unsized;
    forall i, j | 0 <= i < j < |a| ensures a[i].id != a[j].id {
      var i', j' := if i < |sized| then i else i - 1, if j < |sized| then j else j - 1;
      if i != |sized| && j != |sized| {
        assert a[i] == all[i'] && a[j] == all[j'];
      } else if i == |sized| {
        assert a[j] in unsized;
      } else {
        assert a[i] in sized;
      }
    }
    var b := sized + (unsized + [c]);
    forall i, j | 0 <= i < j < |b| ensures b[i].id != b[j].id {
      assert i < |all| ==> b[i] == all[i] && (b[i] in sized || b[i] in unsized);
      assert j < |all| ==> b[j] == all[j];
    }
  }

  lemma {:induction false} InQueryable(cands: seq<Candidate>, c: Candidate)
    requires c in cands && !Malformed(c)
    ensures c.id in Queryable(cands)
  {
    var n := |cands| - 1;
    if c in cands[..n] {
      InQueryable(cands[..n], c);
    }
  }

  /** What can be queried among distinct candidates is queried once. */
  lemma QueriedExactly(cands: seq<Candidate>, id: Identity)
    requires Distinct(cands)
    ensures Count(Queryable(cands), id) == if id in IdsOf(cands) && !MalformedId(id) then 1 else 0
  {
    QueriedOnce(cands, id);
    assert cands[..|cands|] == cands;
    if id in Queryable(cands) {
      var k := QueryableComesFrom(cands, |cands|, id);
      assert cands[k] in cands;
    }
    if id in IdsOf(cands) && !MalformedId(id) {
      var c :| c in cands && c.id == id;
      InQueryable(cands, c);
    }
  }

  lemma QueryableOneMore(cands: seq<Candidate>, c: Candidate, id: Identity)
    ensures Count(Queryable(cands + [c]), id) == Count(Queryable(cands), id) + Count(Queryable([c]), id)
  {
    assert (cands + [c])[..|cands|] == cands;
    assert [c][..0] == [];
    CountAppend(Queryable(cands), Queryable([c]), id);
  }

  lemma {:induction false} NoLongerThanAll(shards: seq<Shard>, k: nat)
    requires k < |shards|
    ensures |shards[k].names| <= |IdentitiesOf(shards)|
  {
    var n := |shards| - 1;
    if k < n {
      NoLongerThanAll(shards[..n], k);
    }
  }

  /** The shards of sized candidates, or of one candidate alone, stay within the budget. */
  lemma CollectedFits(reqs: seq<Request>, cands: seq<Candidate>, spc: int, maxSamples: int, shards: seq<Shard>, b: Build)
    requires BuiltAs(cands, PerContainer(spc), maxSamples, shards, b)
    requires forall c :: c in cands ==> c.containers == FirstSize(reqs, c.id) && (|cands| > 1 ==> c.containers > 0)
    ensures AllBudgeted(reqs, PerContainer(spc), maxSamples, shards)
  {
    forall k | 0 <= k < |shards| ensures WithinBudget(reqs, PerContainer(spc), maxSamples, shards[k]) {
      var chunk := EveryShardFits(cands, PerContainer(spc), maxSamples, shards, b, k);
      if |cands| <= 1 {
        Conservation(cands, PerContainer(spc), maxSamples, shards, b);
        AtMostOneQueried(cands);
        assert |multiset(IdentitiesOf(shards))| == |multiset(Queryable(cands))|;
        NoLongerThanAll(shards, k);
      }
      WithinIsBudgeted(reqs, cands, PerContainer(spc), maxSamples, shards[k], chunk);
    }
  }

  lemma AtMostOneQueried(cands: seq<Candidate>)
    requires |cands| <= 1
    ensures |Queryable(cands)| <= 1
  {
    if cands != [] {
      assert cands[..0] == [];
    }
  }

  lemma WithinIsBudgeted(reqs: seq<Request>, cands: seq<Candidate>, spc: int, maxSamples: int, s: Shard, chunk: seq<Member>)
    requires Within(cands, spc, maxSamples, s, chunk)
    requires forall c :: c in cands ==> c.containers == FirstSize(reqs, c.id) && (|chunk| > 1 ==> c.containers > 0)
    ensures Budgeted(reqs, spc, maxSamples, s, chunk)
  {
    forall m | m in chunk
      ensures var size := FirstSize(reqs, Identity(s.namespace, s.kind, m.name));
              m.cost == (if size <= 0 then 1 else size) * spc && (|chunk| > 1 ==> size > 0)
    {
      var c :| c in cands && StandsFor(c, s, m, spc);
    }
  }

  /** Each candidate set collected so far adds its queryable identities and drops the malformed ones. */
  ghost predicate CollectedSo(reqs: seq<Request>, cands: seq<Candidate>, spc: int, maxSamples: int, shards: seq<Shard>,
                              dropped: seq<Identity>)
  {
    && (forall id :: Count(IdentitiesOf(shards), id) == Count(Queryable(cands), id))
    && AllBudgeted(reqs, spc, maxSamples, shards)
    && dropped == Ids(Dropped(cands))
  }

  function Ids(cands: seq<Candidate>): seq<Identity> {
    seq(|cands|, i requires 0 <= i < |cands| => cands[i].id)
  }

  lemma CollectNext(reqs: seq<Request>, cands: seq<Candidate>, c: Candidate, spc: int, maxSamples: int, shards: seq<Shard>,
                    dropped: seq<Identity>, more: seq<Shard>, b: Build)
    requires CollectedSo(reqs, cands, PerContainer(spc), maxSamples, shards, dropped)
    requires BuiltAs([c], PerContainer(spc), maxSamples, more, b) && c.containers == FirstSize(reqs, c.id)
    ensures CollectedSo(reqs, cands + [c], PerContainer(spc), maxSamples, shards + more, dropped + Ids(Dropped([c])))
  {
    CollectedFits(reqs, [c], spc, maxSamples, more, b);
    BudgetedTogether(reqs, PerContainer(spc), maxSamples, shards, more);
    forall id ensures Count(IdentitiesOf(shards + more), id) == Count(Queryable(cands + [c]), id) {
      ConservesOne([c], PerContainer(spc), maxSamples, more, b, id);
      CountNext(cands, c, shards, more, id);
    }
    DroppedOneMore(cands, c);
  }

  lemma CountNext(cands: seq<Candidate>, c: Candidate, shards: seq<Shard>, more: seq<Shard>, id: Identity)
    requires Count(IdentitiesOf(shards), id) == Count(Queryable(cands), id)
    requires Count(IdentitiesOf(more), id) == Count(Queryable([c]), id)
    ensures Count(IdentitiesOf(shards + more), id) == Count(Queryable(cands + [c]), id)
  {
    CollectAppend(Identities, shards, more);
    CountAppend(IdentitiesOf(shards), IdentitiesOf(more), id);
    QueryableOneMore(cands, c, id);
  }

  lemma DroppedOneMore(cands: seq<Candidate>, c: Candidate)
    ensures Ids(Dropped(cands + [c])) == Ids(Dropped(cands)) + Ids(Dropped([c]))
  {
    assert (cands + [c])[..|cands|] == cands;
    assert [c][..0] == [];
  }

  lemma BudgetedTogether(reqs: seq<Request>, spc: int, maxSamples: int, shards: seq<Shard>, more: seq<Shard>)
    requires AllBudgeted(reqs, spc, maxSamples, shards) && AllBudgeted(reqs, spc, maxSamples, more)
    ensures AllBudgeted(reqs, spc, maxSamples, shards + more)
  {
    forall k | 0 <= k < |shards + more| ensures WithinBudget(reqs, spc, maxSamples, (shards + more)[k]) {
      assert (shards + more)[k] == if k < |shards| then shards[k] else more[k - |shards|];
    }
  }

  /** Gives each candidate of unknown size a shard of its own. */
  method CollectEach(ghost reqs: seq<Request>, ghost sized: seq<Candidate>, unsized: seq<Candidate>,
                     samplesPerContainer: int,
                     maxSamples: int, shards0: seq<Shard>, dropped0: seq<Identity>)
    returns (shards: seq<Shard>, dropped: seq<Identity>)
    requires CollectedSo(reqs, sized + [], PerContainer(samplesPerContainer), maxSamples, shards0, dropped0)
    requires forall c :: c in unsized ==> c.containers == FirstSize(reqs, c.id)
    ensures CollectedSo(reqs, sized + unsized, PerContainer(samplesPerContainer), maxSamples, shards, dropped)
  {
    shards, dropped := shards0, dropped0;
    for i := 0 to |unsized|
      invariant CollectedSo(reqs, sized + unsized[..i], PerContainer(samplesPerContainer), maxSamples, shards, dropped)
    {
      assert sized + unsized[..i] + [unsized[i]] == sized + unsized[..i + 1];
      shards, dropped := CollectOne(reqs, sized + unsized[..i], unsized[i], samplesPerContainer, maxSamples, shards, dropped);
    }
    assert unsized[..|unsized|] == unsized;
  }

  /**
   * Partitions the requests into shards, the first request of an identity standing for all of them and one of unknown
   * size getting a shard of its own.
   */
  method Plan(reqs: seq<Request>, samplesPerContainer: int, maxSamples: int)
    returns (shards: seq<Shard>, dropped: seq<Identity>)
    ensures Planned(reqs, PerContainer(samplesPerContainer), maxSamples, shards)
    ensures forall id :: id in dropped <==>
                           (exists r :: r in reqs && r.id == id) && (id.namespace == "" || id.kind == "" || id.name == "")
  {
    var sized, unsized := SplitRequests(reqs);
    ghost var b: Build;
    var d: seq<Candidate>;
    shards, d, b := BuildShards(sized, samplesPerContainer, maxSamples);
    dropped := Ids(d);
    CollectStart(reqs, sized, samplesPerContainer, maxSamples, shards, b);
    shards, dropped := CollectEach(reqs, sized, unsized, samplesPerContainer, maxSamples, shards, dropped);
    CollectedIsPlanned(reqs, sized, unsized, PerContainer(samplesPerContainer), maxSamples, shards, dropped);
  }

  /** Gives one candidate a shard of its own. */
  method CollectOne(ghost reqs: seq<Request>, ghost cands: seq<Candidate>, c: Candidate, samplesPerContainer: int,
                    maxSamples: int,
                    shards: seq<Shard>, dropped: seq<Identity>)
    returns (shards': seq<Shard>, dropped': seq<Identity>)
    requires CollectedSo(reqs, cands, PerContainer(samplesPerContainer), maxSamples, shards, dropped)
    requires c.containers == FirstSize(reqs, c.id)
    ensures CollectedSo(reqs, cands + [c], PerContainer(samplesPerContainer), maxSamples, shards', dropped')
  {
    var more, d, b := BuildShards([c], samplesPerContainer, maxSamples);
    CollectNext(reqs, cands, c, samplesPerContainer, maxSamples, shards, dropped, more, b);
    shards', dropped' := shards + more, dropped + Ids(d);
  }

  lemma CollectStart(reqs: seq<Request>, sized: seq<Candidate>, spc: int, maxSamples: int, shards: seq<Shard>, b: Build)
    requires BuiltAs(sized, PerContainer(spc), maxSamples, shards, b)
    requires forall c :: c in sized ==> c.containers == FirstSize(reqs, c.id) && c.containers > 0
    ensures CollectedSo(reqs, sized + [], PerContainer(spc), maxSamples, shards, Ids(Dropped(sized)))
  {
    assert sized + [] == sized;
    forall id ensures Count(IdentitiesOf(shards), id) == Count(Queryable(sized), id) {
      ConservesOne(sized, PerContainer(spc), maxSamples, shards, b, id);
    }
    CollectedFits(reqs, sized, spc, maxSamples, shards, b);
  }

  lemma {:induction false} DroppedAreMalformed(cands: seq<Candidate>, id: Identity)
    ensures id in Ids(Dropped(cands)) <==> id in IdsOf(cands) && MalformedId(id)
  {
    if cands != [] {
      var rest, c := cands[..|cands| - 1], cands[|cands| - 1];
      DroppedAreMalformed(rest, id);
      assert cands == rest + [c];
      IdsGrow(rest, c);
      assert Ids(Dropped(cands)) == Ids(Dropped(rest)) + if Malformed(c) then [c.id] else [];
    }
  }

  lemma CollectedIsPlanned(reqs: seq<Request>, sized: seq<Candidate>, unsized: seq<Candidate>, spc: int, maxSamples: int,
                           shards: seq<Shard>, dropped: seq<Identity>)
    requires Split(reqs, RequestedIn(reqs), sized, unsized)
    requires CollectedSo(reqs, sized + unsized, spc, maxSamples, shards, dropped)
    ensures Planned(reqs, spc, maxSamples, shards)
    ensures forall id :: id in dropped <==> id in RequestedIn(reqs) && MalformedId(id)
  {
    var all := sized + unsized;
    assert IdsOf(all) == RequestedIn(reqs) by {
      assert forall c :: c in all <==> c in sized || c in unsized;
    }
    forall id ensures Count(IdentitiesOf(shards), id) == if id in RequestedIn(reqs) && !MalformedId(id) then 1 else 0 {
      QueriedExactly(all, id);
    }
    forall id ensures id in dropped <==> id in RequestedIn(reqs) && MalformedId(id) {
      DroppedAreMalformed(all, id);
    }
  }

  /** With no budget every identity is queried on its own. */
  lemma NoBudgetSeparates(reqs: seq<Request>, spc: int, maxSamples: int, s: Shard)
    requires WithinBudget(reqs, spc, maxSamples, s) && spc >= 1 && maxSamples <= 0
    ensures |s.names| == 1
  {
    var chunk: seq<Member> :| Budgeted(reqs, spc, maxSamples, s, chunk);
    forall i | 0 <= i < |chunk| ensures chunk[i].cost >= 1 {
      assert chunk[i] in chunk;
      var size := FirstSize(reqs, Identity(s.namespace, s.kind, chunk[i].name));
      MulMonotone(1, if size <= 0 then 1 else size, spc);
    }
    CostIsPositive(chunk);
  }

  lemma {:induction false} CostIsPositive(ms: seq<Member>)
    requires ms != [] && forall i :: 0 <= i < |ms| ==> ms[i].cost >= 1
    ensures Cost(ms) >= 1
  {
    if |ms| > 1 {
      CostIsPositive(ms[..|ms| - 1]);
    }
  }

  // ---- Querying one signal ----

  type Samples = seq<int>

  type Error = string

  type Answer = Result<map<Identity, Samples>, Error>

  /** The two instants at which the context may be found cancelled, before a retry and before falling back. */
  datatype Instant = BeforeRetry | BeforeFallback

  /** What Prometheus answers a shard's first and second query, and when the context is found cancelled. */
  datatype World = World(answer: (Shard, nat) -> Answer, cancelled: (Shard, Instant) -> bool)

  function RunAnswer(w: World, s: Shard): Answer {
    var first := w.answer(s, 0);
    if first.Err? && !w.cancelled(s, BeforeRetry) then w.answer(s, 1) else first
  }

  function SamplesFor(m: map<Identity, Samples>, id: Identity): Samples {
    if id in m then m[id] else []
  }

  /** What becomes of one identity of a shard: its samples, or the error that kept them from being read. */
  function Outcome(w: World, s: Shard, id: Identity): Result<Samples, Error> {
    match RunAnswer(w, s)
    case Ok(m) => Ok(SamplesFor(m, id))
    case Err(e) =>
      if |s.names| == 1 || w.cancelled(s, BeforeFallback) then Err(e)
      else
        match RunAnswer(w, Single(id))
        case Ok(m) => Ok(SamplesFor(m, id))
        case Err(e1) => Err(e1)
  }

  ghost predicate NeverCancelled(w: World) {
    forall s, i :: !w.cancelled(s, i)
  }

  /** Without cancellation an identity fails exactly when its shard's two queries and both of its own failed. */
  lemma FailsOnlyAlone(w: World, s: Shard, id: Identity)
    requires NeverCancelled(w) && id in Identities(s)
    ensures Outcome(w, s, id).Err? <==>
              w.answer(s, 0).Err? && w.answer(s, 1).Err? && w.answer(Single(id), 0).Err? && w.answer(Single(id), 1).Err?
  {
    if |s.names| == 1 {
      assert s == Single(id);
    }
  }

  /** Without cancellation an identity's samples are those of the first of its queries to succeed, its shard's coming first. */
  lemma FirstSuccessAnswers(w: World, s: Shard, id: Identity)
    requires NeverCancelled(w) && id in Identities(s)
    ensures w.answer(s, 0).Ok? ==> TakesSamples(w, s, id, w.answer(s, 0).value)
    ensures w.answer(s, 0).Err? && w.answer(s, 1).Ok? ==> TakesSamples(w, s, id, w.answer(s, 1).value)
    ensures w.answer(s, 0).Err? && w.answer(s, 1).Err? ==>
              var own, again := w.answer(Single(id), 0), w.answer(Single(id), 1);
              && (own.Ok? ==> TakesSamples(w, s, id, own.value))
              && (own.Err? && again.Ok? ==> TakesSamples(w, s, id, again.value))
  {
    if |s.names| == 1 {
      assert s == Single(id);
    }
  }

  /** The identity's samples in the answer are taken, none where it has none. */
  ghost predicate TakesSamples(w: World, s: Shard, id: Identity, answer: map<Identity, Samples>) {
    Outcome(w, s, id) == Ok(if id in answer then answer[id] else [])
  }

  /** A context cancelled before the retry or before falling back ends the queries there, with the last error there was. */
  lemma CancellationStops(w: World, s: Shard, id: Identity)
    requires w.answer(s, 0).Err?
    ensures w.cancelled(s, BeforeRetry) && w.cancelled(s, BeforeFallback) ==> Outcome(w, s, id) == Err(w.answer(s, 0).error)
    ensures !w.cancelled(s, BeforeRetry) && w.answer(s, 1).Err? && w.cancelled(s, BeforeFallback) ==>
              Outcome(w, s, id) == Err(w.answer(s, 1).error)
    ensures !w.cancelled(s, BeforeRetry) && w.answer(s, 1).Ok? ==> TakesSamples(w, s, id, w.answer(s, 1).value)
    ensures w.cancelled(s, BeforeRetry) && !w.cancelled(s, BeforeFallback) && |s.names| != 1 ==>
              var own := w.answer(Single(id), 0);
              && (own.Ok? ==> TakesSamples(w, s, id, own.value))
              && (own.Err? && w.cancelled(Single(id), BeforeRetry) ==> Outcome(w, s, id) == Err(own.error))
  {
  }

  /** What a signal's reads leave: errors, samples, and how often each identity's samples were applied. */
  datatype Reads = Reads(errs: map<Identity, Error>, values: map<Identity, Samples>, applied: multiset<Identity>)

  /** The identity's samples were applied once, or it is reported failed and nothing was applied. */
  ghost predicate Settled(w: World, s: Shard, id: Identity, r: Reads) {
    match Outcome(w, s, id)
    case Ok(v) => id in r.values && r.values[id] == v && id !in r.errs && r.applied[id] == 1
    case Err(e) => id in r.errs && r.errs[id] == e && id !in r.values && r.applied[id] == 0
  }

  ghost predicate Untouched(id: Identity, r: Reads) {
    id !in r.errs && id !in r.values && r.applied[id] == 0
  }

  ghost predicate SameFor(id: Identity, r: Reads, r': Reads) {
    && (id in r.errs <==> id in r'.errs) && (id in r.errs ==> r.errs[id] == r'.errs[id])
    && (id in r.values <==> id in r'.values) && (id in r.values ==> r.values[id] == r'.values[id])
    && r.applied[id] == r'.applied[id]
  }

  /** One identity's outcome taken down. */
  function TakenDown(r: Reads, id: Identity, o: Result<Samples, Error>): Reads {
    match o
    case Ok(v) => r.(values := r.values[id := v], applied := r.applied + multiset{id})
    case Err(e) => r.(errs := r.errs[id := e])
  }

  /** Of the shard's identities exactly those in `done` are settled, and the rest of `r` is as it was in `r0`. */
  ghost predicate SettledUpTo(w: World, s: Shard, done: seq<Identity>, r0: Reads, r: Reads) {
    && (forall id :: id in done ==> Settled(w, s, id, r))
    && (forall id :: id !in done ==> SameFor(id, r0, r))
  }

  lemma TakenDownSettles(w: World, s: Shard, id: Identity, r: Reads)
    requires Untouched(id, r)
    ensures Settled(w, s, id, TakenDown(r, id, Outcome(w, s, id)))
  {
  }

  lemma TakenDownSpares(r: Reads, id: Identity, o: Result<Samples, Error>, other: Identity)
    requires other != id
    ensures SameFor(other, r, TakenDown(r, id, o))
  {
  }

  lemma SettledNext(w: World, s: Shard, ids: seq<Identity>, i: nat, r0: Reads, r: Reads)
    requires NoDuplicates(ids) && i < |ids| && SettledUpTo(w, s, ids[..i], r0, r) && Untouched(ids[i], r0)
    ensures SettledUpTo(w, s, ids[..i + 1], r0, TakenDown(r, ids[i], Outcome(w, s, ids[i])))
  {
    var o := Outcome(w, s, ids[i]);
    var r' := TakenDown(r, ids[i], o);
    assert ids[i] !in ids[..i];
    assert ids[..i + 1] == ids[..i] + [ids[i]];
    TakenDownSettles(w, s, ids[i], r);
    forall id | id in ids[..i] ensures Settled(w, s, id, r') {
      TakenDownSpares(r, ids[i], o, id);
      SettledCarries(w, s, id, r, r');
    }
    forall id | id !in ids[..i + 1] ensures SameFor(id, r0, r') {
      TakenDownSpares(r, ids[i], o, id);
    }
  }

  lemma SettledCarries(w: World, s: Shard, id: Identity, r: Reads, r': Reads)
    requires Settled(w, s, id, r) && SameFor(id, r, r')
    ensures Settled(w, s, id, r')
  {
  }

  method Run(w: World, s: Shard) returns (a: Answer)
    ensures a == RunAnswer(w, s)
  {
    a := w.answer(s, 0);
    if a.Err? && !w.cancelled(s, BeforeRetry) {
      a := w.answer(s, 1);
    }
  }

  /** Applies an answer to every identity of the shard. */
  method ApplyAll(w: World, s: Shard, m: map<Identity, Samples>, r0: Reads) returns (r: Reads)
    requires RunAnswer(w, s) == Ok(m) && NoDuplicates(Identities(s))
    requires forall id :: id in Identities(s) ==> Untouched(id, r0)
    ensures SettledUpTo(w, s, Identities(s), r0, r)
  {
    var ids := Identities(s);
    r := r0;
    for i := 0 to |ids|
      invariant SettledUpTo(w, s, ids[..i], r0, r)
    {
      SettledNext(w, s, ids, i, r0, r);
      r := r.(values := r.values[ids[i] := SamplesFor(m, ids[i])], applied := r.applied + multiset{ids[i]});
    }
    assert ids[..|ids|] == ids;
  }

  /** Queries the identities of a failed shard one at a time. */
  method FallBack(w: World, s: Shard, r0: Reads) returns (r: Reads)
    requires RunAnswer(w, s).Err? && |s.names| != 1 && !w.cancelled(s, BeforeFallback) && NoDuplicates(Identities(s))
    requires forall id :: id in Identities(s) ==> Untouched(id, r0)
    ensures SettledUpTo(w, s, Identities(s), r0, r)
  {
    var ids := Identities(s);
    r := r0;
    for i := 0 to |ids|
      invariant SettledUpTo(w, s, ids[..i], r0, r)
    {
      SettledNext(w, s, ids, i, r0, r);
      var a := Run(w, Single(ids[i]));
      if a.Err? {
        r := r.(errs := r.errs[ids[i] := a.error]);
      } else {
        r := r.(values := r.values[ids[i] := SamplesFor(a.value, ids[i])], applied := r.applied + multiset{ids[i]});
      }
    }
    assert ids[..|ids|] == ids;
  }

  /** Reports every identity of a shard that is not queried further. */
  method FailAll(w: World, s: Shard, e: Error, r0: Reads) returns (r: Reads)
    requires RunAnswer(w, s) == Err(e) && (|s.names| == 1 || w.cancelled(s, BeforeFallback)) && NoDuplicates(Identities(s))
    requires forall id :: id in Identities(s) ==> Untouched(id, r0)
    ensures SettledUpTo(w, s, Identities(s), r0, r)
  {
    var ids := Identities(s);
    r := r0;
    for i := 0 to |ids|
      invariant SettledUpTo(w, s, ids[..i], r0, r)
    {
      SettledNext(w, s, ids, i, r0, r);
      r := r.(errs := r.errs[ids[i] := e]);
    }
    assert ids[..|ids|] == ids;
  }

  method SettleShard(w: World, s: Shard, r0: Reads) returns (r: Reads)
    requires NoDuplicates(Identities(s)) && forall id :: id in Identities(s) ==> Untouched(id, r0)
    ensures SettledUpTo(w, s, Identities(s), r0, r)
  {
    var a := Run(w, s);
    if a.Ok? {
      r := ApplyAll(w, s, a.value, r0);
    } else if |s.names| == 1 || w.cancelled(s, BeforeFallback) {
      r := FailAll(w, s, a.error, r0);
    } else {
      r := FallBack(w, s, r0);
    }
  }

  predicate NamedBySettled(shards: seq<Shard>, pending: set<nat>, id: Identity) {
    exists k: nat :: k < |shards| && k !in pending && id in Identities(shards[k])
  }

  /** The shards not pending are settled, and nothing is known of any identity of none of them. */
  ghost predicate SettledBut(w: World, shards: seq<Shard>, pending: set<nat>, r: Reads) {
    && (forall k: nat, id :: k < |shards| && k !in pending && id in Identities(shards[k]) ==> Settled(w, shards[k], id, r))
    && (forall id :: !NamedBySettled(shards, pending, id) ==> Untouched(id, r))
  }

  lemma SettledButNext(w: World, shards: seq<Shard>, pending: set<nat>, k: nat, r0: Reads, r: Reads)
    requires NoDuplicates(IdentitiesOf(shards)) && k < |shards| && k in pending && SettledBut(w, shards, pending, r0)
    requires SettledUpTo(w, shards[k], Identities(shards[k]), r0, r)
    ensures SettledBut(w, shards, pending - {k}, r)
  {
    ShardsAreApart(shards, k);
    forall j: nat, id | j < |shards| && j !in pending - {k} && id in Identities(shards[j]) ensures Settled(w, shards[j], id, r) {
      if j != k {
        SettledCarries(w, shards[j], id, r0, r);
      }
    }
    forall id | !NamedBySettled(shards, pending - {k}, id) ensures Untouched(id, r) {
      assert id !in Identities(shards[k]);
      assert SameFor(id, r0, r);
      assert !NamedBySettled(shards, pending, id);
    }
  }

  function Indices(n: nat): (s: set<nat>)
    ensures forall k: nat :: k in s <==> k < n
  {
    if n == 0 then {} else Indices(n - 1) + {n - 1}
  }

  /** Whatever order the shards finish in, each identity planned ends as its own outcome says and nothing else is touched. */
  method EachShard(w: World, shards: seq<Shard>) returns (r: Reads)
    requires NoDuplicates(IdentitiesOf(shards))
    ensures forall k, id :: 0 <= k < |shards| && id in Identities(shards[k]) ==> Settled(w, shards[k], id, r)
    ensures forall id :: id !in IdentitiesOf(shards) ==> Untouched(id, r)
  {
    r := Reads(map[], map[], multiset{});
    var pending := Indices(|shards|);
    while pending != {}
      invariant forall k :: k in pending ==> k < |shards|
      invariant SettledBut(w, shards, pending, r)
    {
      var k :| k in pending;
      NotSettledYet(w, shards, pending, k, r);
      ghost var r0 := r;
      r := SettleShard(w, shards[k], r);
      SettledButNext(w, shards, pending, k, r0, r);
      pending := pending - {k};
    }
    forall id | id !in IdentitiesOf(shards) ensures Untouched(id, r) {
      NamedNowhere(shards, id);
    }
  }

  lemma NotSettledYet(w: World, shards: seq<Shard>, pending: set<nat>, k: nat, r: Reads)
    requires NoDuplicates(IdentitiesOf(shards)) && k < |shards| && k in pending && SettledBut(w, shards, pending, r)
    ensures NoDuplicates(Identities(shards[k])) && forall id :: id in Identities(shards[k]) ==> Untouched(id, r)
  {
    ShardsAreApart(shards, k);
    forall id | id in Identities(shards[k]) ensures Untouched(id, r) {
      assert !NamedBySettled(shards, pending, id);
    }
  }

  lemma NamedNowhere(shards: seq<Shard>, id: Identity)
    requires id !in IdentitiesOf(shards)
    ensures forall k :: 0 <= k < |shards| ==> id !in Identities(shards[k])
  {
    forall k | 0 <= k < |shards| ensures id !in Identities(shards[k]) {
      if id in Identities(shards[k]) {
        CollectedOnce(shards, id, k);
      }
    }
  }

  /** A shard names nothing twice and nothing another shard names. */
  lemma ShardsAreApart(shards: seq<Shard>, k: nat)
    requires NoDuplicates(IdentitiesOf(shards)) && k < |shards|
    ensures NoDuplicates(Identities(shards[k]))
    ensures forall j, id :: 0 <= j < |shards| && j != k && id in Identities(shards[j]) ==> id !in Identities(shards[k])
  {
    NoDuplicatesCounts(IdentitiesOf(shards));
    forall j, id | 0 <= j < |shards| && j != k && id in Identities(shards[j]) ensures id !in Identities(shards[k]) {
      if id in Identities(shards[k]) {
        CollectedTwice(shards, id, if j < k then j else k, if j < k then k else j);
      }
    }
    PartOfAll(shards, k);
  }

  lemma {:induction false} PartOfAll(shards: seq<Shard>, k: nat)
    requires NoDuplicates(IdentitiesOf(shards)) && k < |shards|
    ensures NoDuplicates(Identities(shards[k]))
  {
    var n := |shards| - 1;
    var before, last := IdentitiesOf(shards[..n]), Identities(shards[n]);
    assert IdentitiesOf(shards) == before + last;
    assert before == IdentitiesOf(shards)[..|before|] && last == IdentitiesOf(shards)[|before|..];
    if k < n {
      PartOfAll(shards[..n], k);
    }
  }

  // ---- Every signal ----

  datatype Signal = CpuUsage | MemoryUsage | OomFloor

  const SIGNALS := [CpuUsage, MemoryUsage, OomFloor]

  predicate IsRequired(s: Signal) {
    !s.OomFloor?
  }

  /** A workload's samples, signal by signal, empty where there are none. */
  datatype Inputs = Inputs(cpu: Samples, memory: Samples, oom: Samples)

  const NO_INPUTS := Inputs([], [], [])

  function WithSignal(i: Inputs, s: Signal, v: Samples): Inputs {
    match s
    case CpuUsage => i.(cpu := v)
    case MemoryUsage => i.(memory := v)
    case OomFloor => i.(oom := v)
  }

  /** The required signal that could not be read, and why. */
  datatype Failure = Failure(signal: Signal, error: Error)

  predicate InSome(shards: seq<Shard>, id: Identity) {
    exists k: nat :: k < |shards| && id in Identities(shards[k])
  }

  /** One signal's outcome for an identity: its shard's, or no samples when it is in none. */
  ghost function Read(w: World, shards: seq<Shard>, id: Identity): Result<Samples, Error> {
    if InSome(shards, id) then
      var k: nat :| k < |shards| && id in Identities(shards[k]);
      Outcome(w, shards[k], id)
    else Ok([])
  }

  /** Every signal's outcome together: the first required signal that failed, or the inputs without what best effort missed. */
  ghost function Expected(worlds: Signal -> World, plans: seq<seq<Shard>>, id: Identity): Result<Inputs, Failure>
    requires |plans| == 3
  {
    var cpu := Read(worlds(CpuUsage), plans[0], id);
    if cpu.Err? then Err(Failure(CpuUsage, cpu.error))
    else
      var memory := Read(worlds(MemoryUsage), plans[1], id);
      if memory.Err? then Err(Failure(MemoryUsage, memory.error))
      else
        var oom := Read(worlds(OomFloor), plans[2], id);
        Ok(Inputs(cpu.value, memory.value, if oom.Ok? then oom.value else []))
  }

  /**
   * An identity's inputs are its shards' samples of each signal; CPU that could not be read fails it before memory does,
   * and a kill floor that could not be read is left out.
   */
  lemma InputsMean(worlds: Signal -> World, plans: seq<seq<Shard>>, id: Identity, a: nat, b: nat, c: nat)
    requires |plans| == 3 && forall n :: 0 <= n < 3 ==> NoDuplicates(IdentitiesOf(plans[n]))
    requires a < |plans[0]| && id in Identities(plans[0][a]) && b < |plans[1]| && id in Identities(plans[1][b])
    requires c < |plans[2]| && id in Identities(plans[2][c])
    ensures var cpu, memory := Outcome(worlds(CpuUsage), plans[0][a], id), Outcome(worlds(MemoryUsage), plans[1][b], id);
            var oom, expected := Outcome(worlds(OomFloor), plans[2][c], id), Expected(worlds, plans, id);
            && (expected.Ok? <==> cpu.Ok? && memory.Ok?)
            && (cpu.Err? ==> expected == Err(Failure(CpuUsage, cpu.error)))
            && (cpu.Ok? && memory.Err? ==> expected == Err(Failure(MemoryUsage, memory.error)))
            && (expected.Ok? ==>
                  && expected.value.cpu == cpu.value && expected.value.memory == memory.value
                  && expected.value.oom == if oom.Ok? then oom.value else [])
  {
    ReadIsOutcome(worlds(CpuUsage), plans[0], id, a);
    ReadIsOutcome(worlds(MemoryUsage), plans[1], id, b);
    ReadIsOutcome(worlds(OomFloor), plans[2], id, c);
  }

  lemma ReadIsOutcome(w: World, shards: seq<Shard>, id: Identity, k: nat)
    requires NoDuplicates(IdentitiesOf(shards)) && k < |shards| && id in Identities(shards[k])
    ensures Read(w, shards, id) == Outcome(w, shards[k], id)
  {
    ShardsAreApart(shards, k);
  }

  function OutcomeIn(r: Reads, id: Identity): Result<Samples, Error> {
    if id in r.errs then Err(r.errs[id]) else Ok(SamplesFor(r.values, id))
  }

  /** Reads one signal of every request. */
  method ReadSignal(w: World, reqs: seq<Request>, samplesPerContainer: int, maxSamples: int)
    returns (r: Reads, ghost shards: seq<Shard>)
    ensures r.errs.Keys !! r.values.Keys
    ensures Planned(reqs, PerContainer(samplesPerContainer), maxSamples, shards)
    ensures forall id :: OutcomeIn(r, id) == Read(w, shards, id)
  {
    var plan, dropped := Plan(reqs, samplesPerContainer, maxSamples);
    shards := plan;
    PlannedOnce(reqs, PerContainer(samplesPerContainer), maxSamples, plan);
    r := EachShard(w, plan);
    forall id ensures OutcomeIn(r, id) == Read(w, shards, id) && !(id in r.errs && id in r.values) {
      if InSome(shards, id) {
        var k: nat :| k < |shards| && id in Identities(shards[k]) && Read(w, shards, id) == Outcome(w, shards[k], id);
        assert Settled(w, shards[k], id, r);
      } else if id in IdentitiesOf(shards) {
        var k := CollectedFrom(shards, id);
      }
    }
  }

  lemma PlannedOnce(reqs: seq<Request>, spc: int, maxSamples: int, shards: seq<Shard>)
    requires Planned(reqs, spc, maxSamples, shards)
    ensures NoDuplicates(IdentitiesOf(shards))
  {
    NoDuplicatesCounts(IdentitiesOf(shards));
    forall id | id in multiset(IdentitiesOf(shards)) ensures multiset(IdentitiesOf(shards))[id] == 1 {
      assert Count(IdentitiesOf(shards), id) <= 1;
    }
  }

  datatype Progress = Progress(failed: Option<Failure>, inputs: Inputs)

  /** One more signal: the first required failure stays, and a signal not read keeps the empty samples it starts with. */
  function Advance(p: Progress, s: Signal, o: Result<Samples, Error>): Progress {
    Progress(if IsRequired(s) && o.Err? && p.failed.None? then Some(Failure(s, o.error)) else p.failed,
             WithSignal(p.inputs, s, if o.Ok? then o.value else []))
  }

  /** Where an identity stands once the signals planned so far are read. */
  ghost function ProgressOf(worlds: Signal -> World, plans: seq<seq<Shard>>, id: Identity): Progress
    requires |plans| <= 3
  {
    if plans == [] then Progress(None, NO_INPUTS)
    else
      var n := |plans| - 1;
      Advance(ProgressOf(worlds, plans[..n], id), SIGNALS[n], Read(worlds(SIGNALS[n]), plans[n], id))
  }

  function FailureOf(failed: map<Identity, Failure>, id: Identity): Option<Failure> {
    if id in failed then Some(failed[id]) else None
  }

  /** Takes one signal's reads down for every identity. */
  method TakeSignal(s: Signal, r: Reads, failed: map<Identity, Failure>, inputs: map<Identity, Inputs>)
    returns (failed': map<Identity, Failure>, inputs': map<Identity, Inputs>)
    requires r.errs.Keys !! r.values.Keys
    ensures inputs'.Keys == inputs.Keys
    ensures forall id :: id in inputs' ==>
              Progress(FailureOf(failed', id), inputs'[id]) ==
                Advance(Progress(FailureOf(failed, id), inputs[id]), s, OutcomeIn(r, id))
  {
    failed' := failed;
    if IsRequired(s) {
      failed' := map id | id in failed.Keys + r.errs.Keys :: if id in failed then failed[id] else Failure(s, r.errs[id]);
    }
    inputs' := map id | id in inputs :: WithSignal(inputs[id], s, SamplesFor(r.values, id));
  }

  /** Every identity asked for stands where the signals planned so far leave it. */
  ghost predicate Fetched(worlds: Signal -> World, plans: seq<seq<Shard>>, failed: map<Identity,
                          Failure>, inputs: map<Identity, Inputs>)
    requires |plans| <= 3
  {
    forall id :: id in inputs ==> Progress(FailureOf(failed, id), inputs[id]) == ProgressOf(worlds, plans, id)
  }

  lemma FetchedNext(worlds: Signal -> World, plans: seq<seq<Shard>>, failed: map<Identity,
                    Failure>, inputs: map<Identity, Inputs>,
                    r: Reads, shards: seq<Shard>, failed': map<Identity, Failure>, inputs': map<Identity, Inputs>)
    requires |plans| < 3 && Fetched(worlds, plans, failed, inputs) && inputs'.Keys == inputs.Keys
    requires forall id :: OutcomeIn(r, id) == Read(worlds(SIGNALS[|plans|]), shards, id)
    requires forall id :: id in inputs' ==>
               Progress(FailureOf(failed', id), inputs'[id]) ==
                 Advance(Progress(FailureOf(failed, id), inputs[id]), SIGNALS[|plans|], OutcomeIn(r, id))
    ensures Fetched(worlds, plans + [shards], failed', inputs')
  {
    assert (plans + [shards])[..|plans|] == plans;
  }

  /** The fold over the signals comes to what they mean together. */
  lemma ProgressIsExpected(worlds: Signal -> World, plans: seq<seq<Shard>>, id: Identity)
    requires |plans| == 3
    ensures var p := ProgressOf(worlds, plans, id);
            Expected(worlds, plans, id) == if p.failed.Some? then Err(p.failed.value) else Ok(p.inputs)
  {
    assert plans[..2][..1] == plans[..1] && plans[..1][..0] == [];
    assert ProgressOf(worlds, plans[..1], id) == Advance(Progress(None, NO_INPUTS), CpuUsage, Read(worlds(CpuUsage), plans[0], id));
    assert ProgressOf(worlds, plans[..2], id) ==
           Advance(ProgressOf(worlds, plans[..1], id), MemoryUsage, Read(worlds(MemoryUsage), plans[1], id));
  }

  /** Each signal read so far was read over a plan of its own. */
  ghost predicate EachPlanned(reqs: seq<Request>, cost: Signal -> int, maxSamples: int, plans: seq<seq<Shard>>) {
    |plans| <= 3 && forall n :: 0 <= n < |plans| ==> Planned(reqs, PerContainer(cost(SIGNALS[n])), maxSamples, plans[n])
  }

  lemma EachPlannedNext(reqs: seq<Request>, cost: Signal -> int, maxSamples: int, plans: seq<seq<Shard>>, shards: seq<Shard>)
    requires EachPlanned(reqs, cost, maxSamples, plans) && |plans| < 3
    requires Planned(reqs, PerContainer(cost(SIGNALS[|plans|])), maxSamples, shards)
    ensures EachPlanned(reqs, cost, maxSamples, plans + [shards])
  {
  }

  /** The signals in their fixed order, each over a plan of its own, gathered into an answer per identity. */
  method FetchInputs(worlds: Signal -> World, cost: Signal -> int, reqs: seq<Request>, maxSamples: int)
    returns (out: map<Identity, Result<Inputs, Failure>>, ghost plans: seq<seq<Shard>>)
    ensures |plans| == 3 && EachPlanned(reqs, cost, maxSamples, plans)
    ensures out.Keys == RequestedIn(reqs)
    ensures forall id :: id in out ==> out[id] == Expected(worlds, plans, id)
  {
    var inputs: map<Identity, Inputs> := map r | r in reqs :: r.id := NO_INPUTS;
    var failed: map<Identity, Failure> := map[];
    plans := [];
    for n := 0 to 3
      invariant inputs.Keys == RequestedIn(reqs) && |plans| == n
      invariant Fetched(worlds, plans, failed, inputs)
      invariant EachPlanned(reqs, cost, maxSamples, plans)
    {
      var s := SIGNALS[n];
      var r, shards := ReadSignal(worlds(s), reqs, cost(s), maxSamples);
      ghost var failed0, inputs0 := failed, inputs;
      failed, inputs := TakeSignal(s, r, failed, inputs);
      FetchedNext(worlds, plans, failed0, inputs0, r, shards, failed, inputs);
      EachPlannedNext(reqs, cost, maxSamples, plans, shards);
      plans := plans + [shards];
    }
    out := map id | id in inputs :: if id in failed then Err(failed[id]) else Ok(inputs[id]);
    forall id | id in out ensures out[id] == Expected(worlds, plans, id) {
      ProgressIsExpected(worlds, plans, id);
    }
  }
}
