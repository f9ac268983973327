/** Packing workloads into batched queries (internal/prometheus/shard.go). */
module Shards {
  import opened Arithmetic
  import opened Common
  import opened Ordering

  const MAX_SHARD_MEMBERS: nat := 1000

  datatype Candidate = Candidate(id: Identity, containers: int)

  /** One batched query: a namespace, an owner kind and the owners' names. */
  datatype Shard = Shard(namespace: string, kind: string, names: seq<string>)

  datatype Group = Group(namespace: string, kind: string)

  datatype Member = Member(name: string, cost: int)

  function Identities(s: Shard): seq<Identity> {
    seq(|s.names|, i requires 0 <= i < |s.names| => Identity(s.namespace, s.kind, s.names[i]))
  }

  predicate Malformed(c: Candidate) {
    c.id.namespace == "" || c.id.kind == "" || c.id.name == ""
  }

  function GroupOf(c: Candidate): Group {
    Group(c.id.namespace, c.id.kind)
  }

  predicate Joins(c: Candidate, g: Group) {
    !Malformed(c) && GroupOf(c) == g
  }

  function MemberOf(c: Candidate, samplesPerContainer: int): Member {
    Member(c.id.name, (if c.containers <= 0 then 1 else c.containers) * samplesPerContainer)
  }

  function Dropped(cands: seq<Candidate>): seq<Candidate> {
    if cands == [] then []
    else Dropped(cands[..|cands| - 1]) + if Malformed(cands[|cands| - 1]) then [cands[|cands| - 1]] else []
  }

  /** The identities that can be queried, in order. */
  function Queryable(cands: seq<Candidate>): seq<Identity> {
    if cands == [] then []
    else Queryable(cands[..|cands| - 1]) + if Malformed(cands[|cands| - 1]) then [] else [cands[|cands| - 1].id]
  }

  /** A group's members, in the candidates' order. */
  function MembersOf(cands: seq<Candidate>, g: Group, spc: int): seq<Member> {
    if cands == [] then []
    else
      var c := cands[|cands| - 1];
      MembersOf(cands[..|cands| - 1], g, spc) + if Joins(c, g) then [MemberOf(c, spc)] else []
  }

  // ---- Packing one group ----

  function Flatten<T>(xss: seq<seq<T>>): seq<T> {
    if xss == [] then [] else xss[0] + Flatten(xss[1..])
  }

  lemma FlattenCons<T>(xs: seq<T>, xss: seq<seq<T>>)
    ensures Flatten([xs] + xss) == xs + Flatten(xss)
  {
    assert ([xs] + xss)[1..] == xss;
  }

  lemma {:induction false} FlattenAppend<T>(xss: seq<seq<T>>, yss: seq<seq<T>>)
    ensures Flatten(xss + yss) == Flatten(xss) + Flatten(yss)
  {
    if xss == [] {
      assert xss + yss == yss;
    } else {
      FlattenAppend(xss[1..], yss);
      FlattenCons(xss[0], xss[1..] + yss);
      assert xss + yss == [xss[0]] + (xss[1..] + yss);
      Associates(xss[0], Flatten(xss[1..]), Flatten(yss));
    }
  }

  lemma FlattenOne<T>(xs: seq<T>)
    ensures Flatten([xs]) == xs
  {
    assert [xs][1..] == [];
  }

  function Cost(ms: seq<Member>): int {
    if ms == [] then 0 else Cost(ms[..|ms| - 1]) + ms[|ms| - 1].cost
  }

  /** No more than the budget or a single member, and never more names than a selector may hold. */
  predicate Fits(chunk: seq<Member>, maxSamples: int) {
    chunk != [] && |chunk| <= MAX_SHARD_MEMBERS && (|chunk| == 1 || Cost(chunk) <= maxSamples)
  }

  /** The next member would not have fitted. */
  predicate Full(chunk: seq<Member>, next: Member, maxSamples: int) {
    Cost(chunk) + next.cost > maxSamples || |chunk| >= MAX_SHARD_MEMBERS
  }

  /** The members cut into chunks that fit, each closed only when the next member would not. */
  ghost predicate Packing(ms: seq<Member>, maxSamples: int, chunks: seq<seq<Member>>) {
    && Flatten(chunks) == ms
    && (forall i :: 0 <= i < |chunks| ==> Fits(chunks[i], maxSamples))
    && (forall i :: 0 <= i < |chunks| - 1 ==> Full(chunks[i], chunks[i + 1][0], maxSamples))
  }

  lemma {:induction false} CostOfPrefix(ms: seq<Member>, k: nat)
    requires k < |ms| && forall i :: 0 <= i < |ms| ==> ms[i].cost > 0
    ensures Cost(ms[..k]) + ms[k].cost <= Cost(ms)
  {
    var n := |ms| - 1;
    if k < n {
      CostOfPrefix(ms[..n], k);
      assert ms[..n][..k] == ms[..k];
    }
  }

  lemma PackingTail(ms: seq<Member>, maxSamples: int, chunks: seq<seq<Member>>)
    requires Packing(ms, maxSamples, chunks) && chunks != []
    ensures ms == chunks[0] + Flatten(chunks[1..]) && Packing(Flatten(chunks[1..]), maxSamples, chunks[1..])
    ensures |chunks| > 1 ==> |chunks[0]| < |ms| && Full(chunks[0], ms[|chunks[0]|], maxSamples)
  {
    if |chunks| > 1 {
      assert Flatten(chunks[1..]) == chunks[1] + Flatten(chunks[2..]);
      assert Full(chunks[0], chunks[1][0], maxSamples);
    }
  }

  /** In any two packings of the same members the first chunks agree. */
  lemma FirstChunkIsLongest(ms: seq<Member>, maxSamples: int, chunks: seq<seq<Member>>, other: seq<seq<Member>>)
    requires forall i :: 0 <= i < |ms| ==> ms[i].cost > 0
    requires Packing(ms, maxSamples, chunks) && Packing(ms, maxSamples, other) && chunks != [] && other != []
    ensures |other[0]| <= |chunks[0]|
  {
    PackingTail(ms, maxSamples, chunks);
    PackingTail(ms, maxSamples, other);
    var a, b := chunks[0], other[0];
    if |a| < |b| {
      assert a == ms[..|a|] && b == ms[..|b|];
      assert b[..|a|] == a && b[|a|] == ms[|a|];
      assert forall i :: 0 <= i < |b| ==> b[i] == ms[i];
      CostOfPrefix(b, |a|);
    }
  }

  lemma PackingOfSome(ms: seq<Member>, maxSamples: int, chunks: seq<seq<Member>>)
    requires Packing(ms, maxSamples, chunks) && chunks != []
    ensures ms != []
  {
    assert Fits(chunks[0], maxSamples);
  }

  /** There is one packing. */
  lemma {:induction false} PackingIsUnique(ms: seq<Member>, maxSamples: int, chunks: seq<seq<Member>>,
                                           other: seq<seq<Member>>)
    requires forall i :: 0 <= i < |ms| ==> ms[i].cost > 0
    requires Packing(ms, maxSamples, chunks) && Packing(ms, maxSamples, other)
    ensures chunks == other
    decreases |chunks|
  {
    if chunks == [] {
      if other != [] {
        PackingOfSome(ms, maxSamples, other);
      }
    } else {
      PackingOfSome(ms, maxSamples, chunks);
      FirstChunkIsLongest(ms, maxSamples, chunks, other);
      FirstChunkIsLongest(ms, maxSamples, other, chunks);
      PackingTail(ms, maxSamples, chunks);
      PackingTail(ms, maxSamples, other);
      var k := |chunks[0]|;
      assert chunks[0] == ms[..k] && other[0] == ms[..k];
      assert Flatten(chunks[1..]) == ms[k..] && Flatten(other[1..]) == ms[k..];
      PackingIsUnique(ms[k..], maxSamples, chunks[1..], other[1..]);
      assert chunks == [chunks[0]] + chunks[1..] && other == [other[0]] + other[1..];
    }
  }

  function Names(ms: seq<Member>): seq<string> {
    seq(|ms|, i requires 0 <= i < |ms| => ms[i].name)
  }

  function ShardOf(g: Group, chunk: seq<Member>): Shard {
    Shard(g.namespace, g.kind, Names(chunk))
  }

  function ShardsOf(g: Group, chunks: seq<seq<Member>>): seq<Shard> {
    seq(|chunks|, i requires 0 <= i < |chunks| => ShardOf(g, chunks[i]))
  }

  /** What is packed so far, the open chunk included. */
  function SoFar(closed: seq<seq<Member>>, open: seq<Member>): seq<seq<Member>> {
    if open == [] then closed else closed + [open]
  }

  lemma PackNext(seen: seq<Member>, maxSamples: int, closed: seq<seq<Member>>, open: seq<Member>, m: Member)
    requires Packing(seen, maxSamples, SoFar(closed, open)) && (open == [] ==> closed == [])
    ensures open != [] && Full(open, m, maxSamples) ==> Packing(seen + [m], maxSamples, SoFar(closed + [open], [m]))
    ensures open == [] || !Full(open, m, maxSamples) ==> Packing(seen + [m], maxSamples, SoFar(closed, open + [m]))
  {
    if open != [] && Full(open, m, maxSamples) {
      FlattenAppend(closed + [open], [[m]]);
      FlattenOne([m]);
    } else if open == [] {
      FlattenOne([m]);
      assert [] + [m] == [m];
    } else {
      OpenGrows(seen, maxSamples, closed, open, m);
    }
  }

  lemma OpenGrows(seen: seq<Member>, maxSamples: int, closed: seq<seq<Member>>, open: seq<Member>, m: Member)
    requires Packing(seen, maxSamples, closed + [open]) && open != [] && !Full(open, m, maxSamples)
    ensures Packing(seen + [m], maxSamples, closed + [open + [m]])
  {
    var before, after := closed + [open], closed + [open + [m]];
    FlattenAppend(closed, [open + [m]]);
    FlattenAppend(closed, [open]);
    FlattenOne(open + [m]);
    FlattenOne(open);
    assert (open + [m])[..|open|] == open;
    forall i | 0 <= i < |after| ensures Fits(after[i], maxSamples) {
      assert Fits(before[i], maxSamples);
    }
    forall i | 0 <= i < |after| - 1 ensures Full(after[i], after[i + 1][0], maxSamples) {
      assert Full(before[i], before[i + 1][0], maxSamples);
      assert before[i] == after[i] && before[i + 1][0] == after[i + 1][0];
    }
  }

  lemma MemberAdds(g: Group, closed: seq<seq<Member>>, open: seq<Member>, m: Member)
    ensures Names(open + [m]) == Names(open) + [m.name] && Cost(open + [m]) == Cost(open) + m.cost
    ensures Names([m]) == [m.name] && Cost([m]) == m.cost
    ensures ShardsOf(g, closed + [open]) == ShardsOf(g, closed) + [Shard(g.namespace, g.kind, Names(open))]
  {
    assert (open + [m])[..|open|] == open && [m][..0] == [];
  }

  /** What the accumulators hold once `seen` is packed into `closed` and the open chunk. */
  ghost predicate Packed(g: Group, seen: seq<Member>, maxSamples: int, closed: seq<seq<Member>>, open: seq<Member>,
                         shards: seq<Shard>, names: seq<string>, total: int) {
    && Packing(seen, maxSamples, SoFar(closed, open)) && (open == [] ==> closed == [] && seen == [])
    && shards == ShardsOf(g, closed) && names == Names(open) && total == Cost(open)
  }

  /** The next member joins the open chunk, or opens another once that is closed. */
  method PackOne(g: Group, m: Member, maxSamples: int, shards: seq<Shard>, names: seq<string>, total: int,
                 ghost seen: seq<Member>, ghost closed: seq<seq<Member>>, ghost open: seq<Member>)
    returns (shardsAfter: seq<Shard>, namesAfter: seq<string>, totalAfter: int, ghost closedAfter: seq<seq<Member>>,
             ghost openAfter: seq<Member>)
    requires Packed(g, seen, maxSamples, closed, open, shards, names, total)
    ensures Packed(g, seen + [m], maxSamples, closedAfter, openAfter, shardsAfter, namesAfter, totalAfter) && openAfter != []
  {
    PackNext(seen, maxSamples, closed, open, m);
    MemberAdds(g, closed, open, m);
    if |names| > 0 && (total + m.cost > maxSamples || |names| >= MAX_SHARD_MEMBERS) {
      shardsAfter := shards + [Shard(g.namespace, g.kind, names)];
      namesAfter, totalAfter := [m.name], m.cost;
      closedAfter, openAfter := closed + [open], [m];
    } else {
      shardsAfter := shards;
      namesAfter, totalAfter := names + [m.name], total + m.cost;
      closedAfter, openAfter := closed, open + [m];
    }
  }

  lemma LastIsClosed(g: Group, members: seq<Member>, maxSamples: int, closed: seq<seq<Member>>, open: seq<Member>,
                     shards: seq<Shard>, names: seq<string>, total: int)
    requires Packed(g, members, maxSamples, closed, open, shards, names, total)
    ensures Packing(members, maxSamples, SoFar(closed, open)) && (|names| > 0 <==> open != [])
    ensures ShardsOf(g, SoFar(closed, open)) == if |names| > 0 then shards + [Shard(g.namespace, g.kind, names)] else shards
  {
  }

  /** Packs one group's members, in the order given, closing a shard when the next member would not fit. */
  method PackGroup(g: Group, members: seq<Member>, maxSamples: int) returns (shards: seq<Shard>,
                   ghost chunks: seq<seq<Member>>)
    ensures Packing(members, maxSamples, chunks) && shards == ShardsOf(g, chunks)
    ensures forall s :: s in shards ==> s.namespace == g.namespace && s.kind == g.kind && 1 <= |s.names| <= MAX_SHARD_MEMBERS
  {
    shards, chunks := [], [];
    var names: seq<string> := [];
    var total := 0;
    ghost var open: seq<Member> := [];
    assert members[..0] == [];
    for i := 0 to |members|
      invariant Packed(g, members[..i], maxSamples, chunks, open, shards, names, total)
    {
      assert members[..i + 1] == members[..i] + [members[i]];
      shards, names, total, chunks, open := PackOne(g, members[i], maxSamples, shards, names, total, members[..i], chunks, open);
    }
    assert members[..|members|] == members;
    LastIsClosed(g, members, maxSamples, chunks, open, shards, names, total);
    if |names| > 0 {
      shards := shards + [Shard(g.namespace, g.kind, names)];
    }
    chunks := SoFar(chunks, open);
    ChunksName(g, maxSamples, members, chunks);
  }

  lemma ChunksName(g: Group, maxSamples: int, members: seq<Member>, chunks: seq<seq<Member>>)
    requires Packing(members, maxSamples, chunks)
    ensures forall s :: s in ShardsOf(g, chunks) ==> s.namespace == g.namespace && s.kind == g.kind && 1 <= |s.names| <= MAX_SHARD_MEMBERS
  {
    forall s | s in ShardsOf(g, chunks)
      ensures s.namespace == g.namespace && s.kind == g.kind && 1 <= |s.names| <= MAX_SHARD_MEMBERS
    {
      var i :| 0 <= i < |chunks| && s == ShardOf(g, chunks[i]);
      assert Fits(chunks[i], maxSamples);
    }
  }

  // ---- All groups ----

  function GroupKey(): Group -> seq<string> {
    (g: Group) => [g.namespace, g.kind]
  }

  function MemberKey(): Member -> seq<string> {
    (m: Member) => [m.name]
  }

  /** Some candidate that can be queried is of the group. */
  predicate Present(cands: seq<Candidate>, g: Group) {
    exists i :: 0 <= i < |cands| && !Malformed(cands[i]) && GroupOf(cands[i]) == g
  }

  /** How shards come about: the groups in key order, each group's members in name order, cut into chunks. */
  datatype Build = Build(order: seq<Group>, sorted: seq<seq<Member>>, chunks: seq<seq<seq<Member>>>)

  ghost predicate GroupsInOrder(cands: seq<Candidate>, order: seq<Group>) {
    Sorted(order, GroupKey()) && NoDuplicates(order) && forall g :: g in order <==> Present(cands, g)
  }

  ghost predicate PackedGroups(cands: seq<Candidate>, spc: int, maxSamples: int, b: Build, n: nat) {
    && n <= |b.order| && |b.sorted| == |b.chunks| == n
    && (forall i :: 0 <= i < n ==> PackedAs(cands, b.order[i], spc, maxSamples, b.sorted[i], b.chunks[i]))
  }

  ghost predicate PackedAs(cands: seq<Candidate>, g: Group, spc: int, maxSamples: int, sorted: seq<Member>,
                           chunks: seq<seq<Member>>) {
    Sorted(sorted, MemberKey()) && multiset(sorted) == multiset(MembersOf(cands, g, spc)) && Packing(sorted, maxSamples, chunks)
  }

  function AllShards(order: seq<Group>, chunks: seq<seq<seq<Member>>>): seq<Shard>
    requires |chunks| <= |order|
  {
    if chunks == [] then []
    else AllShards(order, chunks[..|chunks| - 1]) + ShardsOf(order[|chunks| - 1], chunks[|chunks| - 1])
  }

  ghost predicate BuiltAs(cands: seq<Candidate>, spc: int, maxSamples: int, shards: seq<Shard>, b: Build) {
    && GroupsInOrder(cands, b.order)
    && PackedGroups(cands, spc, maxSamples, b, |b.order|)
    && shards == AllShards(b.order, b.chunks)
  }

  function PerContainer(samplesPerContainer: int): int {
    if samplesPerContainer <= 0 then 1 else samplesPerContainer
  }

  // ---- Building ----

  method SortGroups(order: seq<Group>) returns (sorted: seq<Group>)
    ensures Sorted(sorted, GroupKey()) && multiset(sorted) == multiset(order)
  {
    SortSorts(order, GroupKey());
    sorted := Sort(order, GroupKey());
  }

  /** By name; members of one name may come in any order, so nothing here says which. */
  method SortMembers(members: seq<Member>) returns (sorted: seq<Member>)
    ensures Sorted(sorted, MemberKey()) && multiset(sorted) == multiset(members)
  {
    SortSorts(members, MemberKey());
    sorted := Sort(members, MemberKey());
  }

  /** The candidates seen, grouped and set aside. */
  ghost predicate Grouped(seen: seq<Candidate>, spc: int, order: seq<Group>, groups: map<Group, seq<Member>>,
                          dropped: seq<Candidate>) {
    && NoDuplicates(order) && (forall g :: g in order <==> Present(seen, g))
    && GroupsHold(seen, spc, order, groups)
    && dropped == Dropped(seen)
  }

  ghost predicate GroupsHold(seen: seq<Candidate>, spc: int, order: seq<Group>, groups: map<Group, seq<Member>>) {
    && (forall g :: g in groups <==> g in order)
    && (forall g :: g in groups ==> groups[g] == MembersOf(seen, g, spc))
  }

  lemma GroupStep(seen: seq<Candidate>, c: Candidate, g: Group, spc: int)
    ensures Present(seen + [c], g) <==> Present(seen, g) || Joins(c, g)
    ensures MembersOf(seen + [c], g, spc) == MembersOf(seen, g, spc) + if Joins(c, g) then [MemberOf(c, spc)] else []
    ensures !Present(seen, g) ==> MembersOf(seen, g, spc) == []
    ensures Dropped(seen + [c]) == Dropped(seen) + if Malformed(c) then [c] else []
  {
    assert (seen + [c])[..|seen|] == seen;
    PresentLast(seen + [c], g);
    if !Present(seen, g) {
      AbsentHasNone(seen, g, spc);
    }
  }

  lemma GroupMalformed(seen: seq<Candidate>, c: Candidate, spc: int, order: seq<Group>, groups: map<Group, seq<Member>>,
                       dropped: seq<Candidate>)
    requires Grouped(seen, spc, order, groups, dropped) && Malformed(c)
    ensures Grouped(seen + [c], spc, order, groups, dropped + [c])
  {
    GroupStep(seen, c, GroupOf(c), spc);
    forall g ensures g in order <==> Present(seen + [c], g) {
      GroupStep(seen, c, g, spc);
    }
    forall g | g in groups ensures groups[g] == MembersOf(seen + [c], g, spc) {
      GroupStep(seen, c, g, spc);
    }
  }

  lemma OrderJoined(seen: seq<Candidate>, c: Candidate, spc: int, order: seq<Group>, order': seq<Group>)
    requires NoDuplicates(order) && (forall g :: g in order <==> Present(seen, g)) && !Malformed(c)
    requires order' == if GroupOf(c) in order then order else order + [GroupOf(c)]
    ensures NoDuplicates(order') && forall g :: g in order' <==> Present(seen + [c], g)
  {
    forall g ensures g in order' <==> Present(seen + [c], g) {
      GroupStep(seen, c, g, spc);
    }
  }

  lemma GroupsJoined(seen: seq<Candidate>, c: Candidate, spc: int, order: seq<Group>, groups: map<Group, seq<Member>>,
                     order': seq<Group>, members: seq<Member>)
    requires (forall g :: g in order <==> Present(seen, g)) && GroupsHold(seen, spc, order, groups) && !Malformed(c)
    requires order' == if GroupOf(c) in order then order else order + [GroupOf(c)]
    requires members == (if GroupOf(c) in groups then groups[GroupOf(c)] else []) + [MemberOf(c, spc)]
    ensures GroupsHold(seen + [c], spc, order', groups[GroupOf(c) := members])
  {
    forall g | g in groups || g == GroupOf(c) ensures groups[GroupOf(c) := members][g] == MembersOf(seen + [c], g, spc) {
      GroupStep(seen, c, g, spc);
    }
  }

  /** The next candidate joins its group, the group's first opening it, or is set aside. */
  method GroupOne(c: Candidate, spc: int, order: seq<Group>, groups: map<Group, seq<Member>>, dropped: seq<Candidate>,
                  ghost seen: seq<Candidate>)
    returns (orderAfter: seq<Group>, groupsAfter: map<Group, seq<Member>>, droppedAfter: seq<Candidate>)
    requires Grouped(seen, spc, order, groups, dropped)
    ensures Grouped(seen + [c], spc, orderAfter, groupsAfter, droppedAfter)
  {
    orderAfter, groupsAfter, droppedAfter := order, groups, dropped;
    GroupStep(seen, c, GroupOf(c), spc);
    if c.id.namespace == "" || c.id.kind == "" || c.id.name == "" {
      GroupMalformed(seen, c, spc, order, groups, dropped);
      droppedAfter := dropped + [c];
    } else {
      var containers := if c.containers <= 0 then 1 else c.containers;
      var key := Group(c.id.namespace, c.id.kind);
      var members: seq<Member> := [];
      if key in groups {
        members := groups[key];
      } else {
        orderAfter := order + [key];
      }
      members := members + [Member(c.id.name, containers * spc)];
      OrderJoined(seen, c, spc, order, orderAfter);
      GroupsJoined(seen, c, spc, order, groups, orderAfter, members);
      groupsAfter := groups[key := members];
    }
  }

  /** Groups the candidates, setting the malformed ones aside. */
  method GroupAll(cands: seq<Candidate>, spc: int)
    returns (order: seq<Group>, groups: map<Group, seq<Member>>, dropped: seq<Candidate>)
    ensures Grouped(cands, spc, order, groups, dropped)
  {
    order, groups, dropped := [], map[], [];
    assert cands[..0] == [];
    for i := 0 to |cands|
      invariant Grouped(cands[..i], spc, order, groups, dropped)
    {
      assert cands[..i + 1] == cands[..i] + [cands[i]];
      order, groups, dropped := GroupOne(cands[i], spc, order, groups, dropped, cands[..i]);
    }
    assert cands[..|cands|] == cands;
  }

  lemma PresentStep(cands: seq<Candidate>, i: nat, g: Group)
    requires i < |cands|
    ensures Present(cands[..i + 1], g) <==> Present(cands[..i], g) || (!Malformed(cands[i]) && GroupOf(cands[i]) == g)
  {
    var before, after := cands[..i], cands[..i + 1];
    if k :| 0 <= k < |before| && !Malformed(before[k]) && GroupOf(before[k]) == g {
      assert after[k] == before[k];
    }
    if !Malformed(cands[i]) && GroupOf(cands[i]) == g {
      assert after[i] == cands[i];
    }
    if k :| 0 <= k < |after| && !Malformed(after[k]) && GroupOf(after[k]) == g {
      assert k < i ==> before[k] == after[k];
    }
  }

  lemma {:induction false} AbsentHasNone(cands: seq<Candidate>, g: Group, spc: int)
    requires !Present(cands, g)
    ensures MembersOf(cands, g, spc) == []
  {
    if cands != [] {
      var rest := cands[..|cands| - 1];
      assert forall i :: 0 <= i < |rest| ==> rest[i] == cands[i];
      assert !Present(rest, g);
      AbsentHasNone(rest, g, spc);
    }
  }

  lemma OrderSorted(cands: seq<Candidate>, order: seq<Group>, sorted: seq<Group>)
    requires NoDuplicates(order) && forall g :: g in order <==> Present(cands, g)
    requires Sorted(sorted, GroupKey()) && multiset(sorted) == multiset(order)
    ensures GroupsInOrder(cands, sorted)
  {
    NoDuplicatesCounts(order);
    NoDuplicatesCounts(sorted);
    forall g ensures g in sorted <==> g in order {
      assert g in sorted <==> g in multiset(sorted);
      assert g in order <==> g in multiset(order);
    }
  }

  lemma InOrder(cands: seq<Candidate>, order: seq<Group>, i: nat)
    requires GroupsInOrder(cands, order) && i < |order|
    ensures Present(cands, order[i])
  {
    assert order[i] in order;
  }

  lemma PackedStep(cands: seq<Candidate>, spc: int, maxSamples: int, b: Build, members: seq<Member>,
                   chunks: seq<seq<Member>>)
    requires |b.chunks| < |b.order| && PackedGroups(cands, spc, maxSamples, b, |b.chunks|)
    requires Sorted(members, MemberKey()) && multiset(members) == multiset(MembersOf(cands, b.order[|b.chunks|], spc))
    requires Packing(members, maxSamples, chunks)
    ensures PackedGroups(cands, spc, maxSamples, Build(b.order, b.sorted + [members], b.chunks + [chunks]), |b.chunks| + 1)
  {
    forall i | 0 <= i < |b.chunks| + 1
      ensures PackedAs(cands, b.order[i], spc, maxSamples, (b.sorted + [members])[i], (b.chunks + [chunks])[i])
    {
      if i < |b.chunks| {
        assert PackedAs(cands, b.order[i], spc, maxSamples, b.sorted[i], b.chunks[i]);
      }
    }
  }

  lemma AllShardsStep(order: seq<Group>, chunks: seq<seq<seq<Member>>>, more: seq<seq<Member>>)
    requires |chunks| < |order|
    ensures AllShards(order, chunks + [more]) == AllShards(order, chunks) + ShardsOf(order[|chunks|], more)
  {
    assert (chunks + [more])[..|chunks|] == chunks;
  }

  /** Grouping, sorting and packing in turn, which together give a `Build`. */
  method BuildShards(cands: seq<Candidate>, samplesPerContainer: int, maxSamples: int)
    returns (shards: seq<Shard>, dropped: seq<Candidate>, ghost b: Build)
    ensures BuiltAs(cands, if samplesPerContainer <= 0 then 1 else samplesPerContainer, maxSamples, shards, b)
    ensures dropped == Dropped(cands)
  {
    var spc := samplesPerContainer;
    if spc <= 0 {
      spc := 1;
    }
    var order, groups, d := GroupAll(cands, spc);
    dropped := d;
    var sortedOrder := SortGroups(order);
    OrderSorted(cands, order, sortedOrder);
    shards := [];
    b := Build(sortedOrder, [], []);
    for i := 0 to |sortedOrder|
      invariant b.order == sortedOrder && PackedGroups(cands, spc, maxSamples, b, i)
      invariant shards == AllShards(sortedOrder, b.chunks)
    {
      InOrder(cands, sortedOrder, i);
      var members := SortMembers(groups[sortedOrder[i]]);
      var more, chunks := PackGroup(sortedOrder[i], members, maxSamples);
      shards := shards + more;
      PackedStep(cands, spc, maxSamples, b, members, chunks);
      AllShardsStep(sortedOrder, b.chunks, chunks);
      b := Build(sortedOrder, b.sorted + [members], b.chunks + [chunks]);
    }
  }

  // ---- Conservation ----

  ghost function IdentitiesOf(shards: seq<Shard>): seq<Identity> {
    Collect(Identities, shards)
  }

  ghost function Named(g: Group): Member -> seq<Identity> {
    (m: Member) => [Identity(g.namespace, g.kind, m.name)]
  }

  lemma {:induction false} NamesAreCollected(g: Group, ms: seq<Member>)
    ensures Identities(ShardOf(g, ms)) == Collect(Named(g), ms)
  {
    if ms != [] {
      NamesAreCollected(g, ms[..|ms| - 1]);
      assert ms == ms[..|ms| - 1] + [ms[|ms| - 1]];
    }
  }

  /** A group's shards hold its packed members, in order. */
  lemma {:induction false} GroupHolds(g: Group, chunks: seq<seq<Member>>)
    ensures IdentitiesOf(ShardsOf(g, chunks)) == Collect(Named(g), Flatten(chunks))
  {
    if chunks != [] {
      var first := [ShardOf(g, chunks[0])];
      assert ShardsOf(g, chunks) == first + ShardsOf(g, chunks[1..]);
      CollectAppend(Identities, first, ShardsOf(g, chunks[1..]));
      CollectOne(Identities, ShardOf(g, chunks[0]));
      NamesAreCollected(g, chunks[0]);
      GroupHolds(g, chunks[1..]);
      CollectAppend(Named(g), chunks[0], Flatten(chunks[1..]));
    }
  }

  /** The identities of one group's members, in the candidates' order. */
  ghost function HeldIn(cands: seq<Candidate>, g: Group, spc: int): seq<Identity> {
    Collect(Named(g), MembersOf(cands, g, spc))
  }

  ghost function Count<T>(xs: seq<T>, x: T): nat {
    multiset(xs)[x]
  }

  lemma CountAppend<T>(xs: seq<T>, ys: seq<T>, x: T)
    ensures Count(xs + ys, x) == Count(xs, x) + Count(ys, x)
  {
  }

  /** How often the first `n` groups hold an identity. */
  ghost function HeldBy(cands: seq<Candidate>, order: seq<Group>, n: nat, spc: int, id: Identity): nat
    requires n <= |order|
  {
    if n == 0 then 0 else HeldBy(cands, order, n - 1, spc, id) + Count(HeldIn(cands, order[n - 1], spc), id)
  }

  lemma GroupShardsHold(cands: seq<Candidate>, spc: int, maxSamples: int, b: Build, i: nat, id: Identity)
    requires i < |b.order| && PackedGroups(cands, spc, maxSamples, b, |b.order|)
    ensures Count(IdentitiesOf(ShardsOf(b.order[i], b.chunks[i])), id) == Count(HeldIn(cands, b.order[i], spc), id)
  {
    GroupHolds(b.order[i], b.chunks[i]);
    CollectRearranged(Named(b.order[i]), b.sorted[i], MembersOf(cands, b.order[i], spc));
  }

  /** Each group's shards hold an identity as often as its candidates do. */
  ghost predicate GroupsAgree(cands: seq<Candidate>, spc: int, order: seq<Group>, chunks: seq<seq<seq<Member>>>,
                              id: Identity)
    requires |chunks| == |order|
  {
    forall i :: 0 <= i < |order| ==> Count(IdentitiesOf(ShardsOf(order[i], chunks[i])), id) == Count(HeldIn(cands, order[i], spc), id)
  }

  lemma {:induction false} ShardsHold(cands: seq<Candidate>, spc: int, order: seq<Group>, chunks: seq<seq<seq<Member>>>,
                                      n: nat, id: Identity)
    requires n <= |order| == |chunks| && GroupsAgree(cands, spc, order, chunks, id)
    ensures Count(IdentitiesOf(AllShards(order, chunks[..n])), id) == HeldBy(cands, order, n, spc, id)
  {
    if n > 0 {
      ShardsHold(cands, spc, order, chunks, n - 1, id);
      ShardsHoldNext(cands, spc, order, chunks, n, id);
    } else {
      assert chunks[..0] == [];
    }
  }

  lemma ShardsHoldNext(cands: seq<Candidate>, spc: int, order: seq<Group>, chunks: seq<seq<seq<Member>>>, n: nat,
                       id: Identity)
    requires 0 < n <= |order| == |chunks|
    requires Count(IdentitiesOf(ShardsOf(order[n - 1], chunks[n - 1])), id) == Count(HeldIn(cands, order[n - 1], spc), id)
    requires Count(IdentitiesOf(AllShards(order, chunks[..n - 1])), id) == HeldBy(cands, order, n - 1, spc, id)
    ensures Count(IdentitiesOf(AllShards(order, chunks[..n])), id) == HeldBy(cands, order, n, spc, id)
  {
    AllShardsNext(order, chunks, n, id);
  }

  lemma AllShardsNext(order: seq<Group>, chunks: seq<seq<seq<Member>>>, n: nat, id: Identity)
    requires 0 < n <= |chunks| <= |order|
    ensures Count(IdentitiesOf(AllShards(order, chunks[..n])), id) ==
              Count(IdentitiesOf(AllShards(order, chunks[..n - 1])), id) + Count(IdentitiesOf(ShardsOf(order[n - 1], chunks[n - 1])), id)
  {
    assert chunks[..n][..n - 1] == chunks[..n - 1];
    var before, more := AllShards(order, chunks[..n - 1]), ShardsOf(order[n - 1], chunks[n - 1]);
    CollectAppend(Identities, before, more);
    CountAppend(IdentitiesOf(before), IdentitiesOf(more), id);
  }

  lemma {:induction false} HeldByNone(order: seq<Group>, n: nat, spc: int, id: Identity)
    requires n <= |order|
    ensures HeldBy([], order, n, spc, id) == 0
  {
    if n > 0 {
      HeldByNone(order, n - 1, spc, id);
    }
  }

  lemma GroupOneMore(cands: seq<Candidate>, g: Group, spc: int, id: Identity)
    requires cands != []
    ensures var c := cands[|cands| - 1];
            Count(HeldIn(cands, g, spc), id) == Count(HeldIn(cands[..|cands| - 1], g, spc), id) + if Joins(c, g) && c.id == id then 1 else 0
  {
    var c, rest := cands[|cands| - 1], cands[..|cands| - 1];
    var ms := MembersOf(rest, g, spc);
    if Joins(c, g) {
      var m := MemberOf(c, spc);
      assert MembersOf(cands, g, spc) == ms + [m];
      CollectAppend(Named(g), ms, [m]);
      CollectOne(Named(g), m);
      assert c.id == Identity(g.namespace, g.kind, m.name);
      CountAppend(HeldIn(rest, g, spc), [c.id], id);
    } else {
      assert MembersOf(cands, g, spc) == ms + [];
      assert ms + [] == ms;
    }
  }

  /** How often a candidate adds an identity to some groups. */
  function AddsTo(c: Candidate, groups: seq<Group>, id: Identity): nat {
    if !Malformed(c) && GroupOf(c) in groups && c.id == id then 1 else 0
  }

  lemma AddsToOneGroup(c: Candidate, groups: seq<Group>, g: Group, id: Identity)
    requires g !in groups
    ensures AddsTo(c, groups + [g], id) == AddsTo(c, groups, id) + if Joins(c, g) && c.id == id then 1 else 0
  {
  }

  lemma NotAmongEarlier<T>(xs: seq<T>, n: nat)
    requires NoDuplicates(xs) && 0 < n <= |xs|
    ensures xs[..n] == xs[..n - 1] + [xs[n - 1]] && xs[n - 1] !in xs[..n - 1]
  {
  }

  /** One more candidate adds its identity once, in its group. */
  lemma {:induction false} HeldByOneMore(cands: seq<Candidate>, order: seq<Group>, n: nat, spc: int, id: Identity)
    requires n <= |order| && NoDuplicates(order) && cands != []
    ensures HeldBy(cands, order, n, spc, id) ==
              HeldBy(cands[..|cands| - 1], order, n, spc, id) + AddsTo(cands[|cands| - 1], order[..n], id)
  {
    if n > 0 {
      HeldByOneMore(cands, order, n - 1, spc, id);
      GroupOneMore(cands, order[n - 1], spc, id);
      NotAmongEarlier(order, n);
      AddsToOneGroup(cands[|cands| - 1], order[..n - 1], order[n - 1], id);
    }
  }

  lemma PresentLast(cands: seq<Candidate>, g: Group)
    requires cands != []
    ensures Present(cands, g) <==> Present(cands[..|cands| - 1], g) || Joins(cands[|cands| - 1], g)
  {
    PresentStep(cands, |cands| - 1, g);
    assert cands[..|cands| - 1 + 1] == cands;
  }

  lemma QueryableNext(cands: seq<Candidate>, groups: seq<Group>, id: Identity)
    requires cands != [] && forall g :: Joins(cands[|cands| - 1], g) ==> g in groups
    ensures Count(Queryable(cands), id) == Count(Queryable(cands[..|cands| - 1]), id) + AddsTo(cands[|cands| - 1], groups, id)
  {
    var c := cands[|cands| - 1];
    CountAppend(Queryable(cands[..|cands| - 1]), if Malformed(c) then [] else [c.id], id);
    assert !Malformed(c) ==> Joins(c, GroupOf(c));
  }

  lemma {:induction false} GroupsHoldAll(cands: seq<Candidate>, order: seq<Group>, spc: int, id: Identity)
    requires NoDuplicates(order) && forall g :: Present(cands, g) ==> g in order
    ensures HeldBy(cands, order, |order|, spc, id) == Count(Queryable(cands), id)
  {
    if cands == [] {
      HeldByNone(order, |order|, spc, id);
    } else {
      forall g | Present(cands[..|cands| - 1], g) || Joins(cands[|cands| - 1], g) ensures g in order {
        PresentLast(cands, g);
      }
      GroupsHoldAll(cands[..|cands| - 1], order, spc, id);
      HeldByOneMore(cands, order, |order|, spc, id);
      assert order[..|order|] == order;
      QueryableNext(cands, order, id);
    }
  }

  lemma ConservesOne(cands: seq<Candidate>, spc: int, maxSamples: int, shards: seq<Shard>, b: Build, id: Identity)
    requires BuiltAs(cands, spc, maxSamples, shards, b)
    ensures Count(IdentitiesOf(shards), id) == Count(Queryable(cands), id)
  {
    forall i | 0 <= i < |b.order|
      ensures Count(IdentitiesOf(ShardsOf(b.order[i], b.chunks[i])), id) == Count(HeldIn(cands, b.order[i], spc), id)
    {
      GroupShardsHold(cands, spc, maxSamples, b, i, id);
    }
    ShardsHold(cands, spc, b.order, b.chunks, |b.order|, id);
    assert b.chunks[..|b.order|] == b.chunks;
    GroupsHoldAll(cands, b.order, spc, id);
  }

  /** Every queryable candidate's identity is in the shards as often as it was asked for, and nothing else is. */
  lemma Conservation(cands: seq<Candidate>, spc: int, maxSamples: int, shards: seq<Shard>, b: Build)
    requires BuiltAs(cands, spc, maxSamples, shards, b)
    ensures multiset(IdentitiesOf(shards)) == multiset(Queryable(cands))
  {
    forall id ensures Count(IdentitiesOf(shards), id) == Count(Queryable(cands), id) {
      ConservesOne(cands, spc, maxSamples, shards, b, id);
    }
    SameCounts(IdentitiesOf(shards), Queryable(cands));
  }

  lemma SameCounts<T(!new)>(xs: seq<T>, ys: seq<T>)
    requires forall x :: Count(xs, x) == Count(ys, x)
    ensures multiset(xs) == multiset(ys)
  {
    forall x ensures multiset(xs)[x] == multiset(ys)[x] {
      assert Count(xs, x) == Count(ys, x);
    }
  }

  // ---- What every shard is ----

  /** A shard within the budget, every name in it a candidate of its namespace and kind, at that candidate's cost. */
  ghost predicate Within(cands: seq<Candidate>, spc: int, maxSamples: int, s: Shard, chunk: seq<Member>) {
    && s.names == Names(chunk) && 1 <= |chunk| <= 1000 && (|chunk| == 1 || Cost(chunk) <= maxSamples)
    && forall m :: m in chunk ==> exists c :: c in cands && StandsFor(c, s, m, spc)
  }

  /** The candidate has the member's name and the shard's namespace and kind, and an unknown size counts as one container. */
  predicate StandsFor(c: Candidate, s: Shard, m: Member, spc: int) {
    && c.id == Identity(s.namespace, s.kind, m.name) && s.namespace != "" && s.kind != "" && m.name != ""
    && m.cost == (if c.containers <= 0 then 1 else c.containers) * spc
  }

  lemma {:induction false} ShardIsChunk(order: seq<Group>, chunks: seq<seq<seq<Member>>>, k: nat) returns (i: nat, j: nat)
    requires |chunks| <= |order| && k < |AllShards(order, chunks)|
    ensures i < |chunks| && j < |chunks[i]| && AllShards(order, chunks)[k] == ShardOf(order[i], chunks[i][j])
  {
    var n := |chunks| - 1;
    var before := AllShards(order, chunks[..n]);
    if k < |before| {
      i, j := ShardIsChunk(order, chunks[..n], k);
    } else {
      i, j := n, k - |before|;
    }
  }

  lemma {:induction false} InFlatten<T>(xss: seq<seq<T>>, i: nat, x: T)
    requires i < |xss| && x in xss[i]
    ensures x in Flatten(xss)
  {
    if i > 0 {
      InFlatten(xss[1..], i - 1, x);
    }
  }

  lemma {:induction false} MemberIsCandidate(cands: seq<Candidate>, g: Group, spc: int, m: Member) returns (k: nat)
    requires m in MembersOf(cands, g, spc)
    ensures k < |cands| && Joins(cands[k], g) && MemberOf(cands[k], spc) == m
  {
    var n := |cands| - 1;
    if m in MembersOf(cands[..n], g, spc) {
      k := MemberIsCandidate(cands[..n], g, spc, m);
    } else {
      k := n;
    }
  }

  /** Every shard stays within the sample budget and the name limit, a single member aside, and in one group. */
  lemma EveryShardFits(cands: seq<Candidate>, spc: int, maxSamples: int, shards: seq<Shard>, b: Build, k: nat)
    returns (chunk: seq<Member>)
    requires BuiltAs(cands, spc, maxSamples, shards, b) && k < |shards|
    ensures Within(cands, spc, maxSamples, shards[k], chunk)
  {
    var i, j := ShardIsChunk(b.order, b.chunks, k);
    chunk := b.chunks[i][j];
    var g := b.order[i];
    assert Fits(chunk, maxSamples);
    forall m | m in chunk ensures exists c :: c in cands && StandsFor(c, shards[k], m, spc) {
      InFlatten(b.chunks[i], j, m);
      assert m in b.sorted[i];
      assert m in multiset(MembersOf(cands, g, spc));
      var c := MemberIsCandidate(cands, g, spc, m);
      assert cands[c] in cands && StandsFor(cands[c], shards[k], m, spc);
    }
  }

  /** What was asked for is queried or set aside, the latter exactly where a part of the identity is missing. */
  lemma {:induction false} SplitExactly(cands: seq<Candidate>, id: Identity)
    ensures |Queryable(cands)| + |Dropped(cands)| == |cands|
    ensures var named := id.namespace != "" && id.kind != "" && id.name != "";
            && (id in Queryable(cands) <==> named && exists c :: c in cands && c.id == id)
            && ((exists d :: d in Dropped(cands) && d.id == id) <==> !named && exists c :: c in cands && c.id == id)
  {
    if cands != [] {
      var rest, c := cands[..|cands| - 1], cands[|cands| - 1];
      SplitExactly(rest, id);
      assert cands == rest + [c];
      if Malformed(c) {
        assert Dropped(cands) == Dropped(rest) + [c];
      }
    }
  }

  lemma {:induction false} NextChunk(order: seq<Group>, chunks: seq<seq<seq<Member>>>, k: nat)
    returns (i: nat, j: nat, i': nat, j': nat)
    requires |chunks| <= |order| && k + 1 < |AllShards(order, chunks)|
    ensures i < |chunks| && j < |chunks[i]| && AllShards(order, chunks)[k] == ShardOf(order[i], chunks[i][j])
    ensures i' < |chunks| && j' < |chunks[i']| && AllShards(order, chunks)[k + 1] == ShardOf(order[i'], chunks[i'][j'])
    ensures i < i' || (i == i' && j' == j + 1)
  {
    var n := |chunks| - 1;
    var before := AllShards(order, chunks[..n]);
    if k + 1 < |before| {
      i, j, i', j' := NextChunk(order, chunks[..n], k);
    } else if k < |before| {
      i, j := ShardIsChunk(order, chunks[..n], k);
      i', j' := n, 0;
    } else {
      i, j, i', j' := n, k - |before|, n, k + 1 - |before|;
    }
  }

  /**
   * Shards come in the order of their groups, and a group's next shard is opened only by a member the one before could
   * not have taken.
   */
  lemma ShardsAreFull(cands: seq<Candidate>, spc: int, maxSamples: int, shards: seq<Shard>, b: Build, k: nat)
    returns (chunk: seq<Member>, next: seq<Member>)
    requires BuiltAs(cands, spc, maxSamples, shards, b) && k + 1 < |shards|
    ensures shards[k].names == Names(chunk) && shards[k + 1].names == Names(next) && chunk != [] && next != []
    ensures var s, t := shards[k], shards[k + 1];
            if s.namespace == t.namespace && s.kind == t.kind then Cost(chunk) + next[0].cost > maxSamples || |chunk| >= 1000
            else KeyLess([s.namespace, s.kind], [t.namespace, t.kind])
    ensures forall m :: m in chunk ==> exists c :: c in cands && StandsFor(c, shards[k], m, spc)
    ensures forall m :: m in next ==> exists c :: c in cands && StandsFor(c, shards[k + 1], m, spc)
  {
    var i, j, i', j' := NextChunk(b.order, b.chunks, k);
    chunk, next := b.chunks[i][j], b.chunks[i'][j'];
    ChunkStandsFor(cands, spc, maxSamples, b, i, j);
    ChunkStandsFor(cands, spc, maxSamples, b, i', j');
    if i < i' {
      GroupsAscend(cands, b.order, i, i');
    } else {
      assert Full(b.chunks[i][j], b.chunks[i][j + 1][0], maxSamples);
    }
  }

  lemma ChunkStandsFor(cands: seq<Candidate>, spc: int, maxSamples: int, b: Build, i: nat, j: nat)
    requires i < |b.order| && PackedGroups(cands, spc, maxSamples, b, |b.order|) && j < |b.chunks[i]|
    ensures Fits(b.chunks[i][j], maxSamples)
    ensures forall m :: m in b.chunks[i][j] ==>
              exists c :: c in cands && StandsFor(c, ShardOf(b.order[i], b.chunks[i][j]), m, spc)
  {
    var g, chunk := b.order[i], b.chunks[i][j];
    forall m | m in chunk ensures exists c :: c in cands && StandsFor(c, ShardOf(g, chunk), m, spc) {
      InFlatten(b.chunks[i], j, m);
      assert m in b.sorted[i];
      assert m in multiset(MembersOf(cands, g, spc));
      var c := MemberIsCandidate(cands, g, spc, m);
      assert cands[c] in cands && StandsFor(cands[c], ShardOf(g, chunk), m, spc);
    }
  }

  lemma GroupsAscend(cands: seq<Candidate>, order: seq<Group>, i: nat, j: nat)
    requires GroupsInOrder(cands, order) && i < j < |order|
    ensures order[i] != order[j]
    ensures KeyLess([order[i].namespace, order[i].kind], [order[j].namespace, order[j].kind])
  {
    var a, b := [order[i].namespace, order[i].kind], [order[j].namespace, order[j].kind];
    KeyLessTotal(a, b);
    assert order[i] != order[j];
    assert GroupKey()(order[i]) == a && GroupKey()(order[j]) == b;
    assert a[0] == order[i].namespace && a[1] == order[i].kind && b[0] == order[j].namespace && b[1] == order[j].kind;
  }

  /** The names of a shard come in order. */
  lemma NamesAscend(cands: seq<Candidate>, spc: int, maxSamples: int, shards: seq<Shard>, b: Build, k: nat, i: nat, j: nat)
    requires BuiltAs(cands, spc, maxSamples, shards, b) && k < |shards| && i < j < |shards[k].names|
    ensures !Less(shards[k].names[j], shards[k].names[i])
  {
    var g, n := ShardIsChunk(b.order, b.chunks, k);
    SortedChunk(b.chunks[g], n);
    var chunk := b.chunks[g][n];
    assert MemberKey()(chunk[i]) == [chunk[i].name] && MemberKey()(chunk[j]) == [chunk[j].name];
  }

  lemma {:induction false} SortedChunk(chunks: seq<seq<Member>>, n: nat)
    requires n < |chunks| && Sorted(Flatten(chunks), MemberKey())
    ensures Sorted(chunks[n], MemberKey())
  {
    var first, rest := chunks[0], Flatten(chunks[1..]);
    assert Flatten(chunks) == first + rest;
    if n == 0 {
      forall i, j | 0 <= i < j < |first| ensures !KeyLess(MemberKey()(first[j]), MemberKey()(first[i])) {
        assert (first + rest)[i] == first[i] && (first + rest)[j] == first[j];
      }
    } else {
      forall i, j | 0 <= i < j < |rest| ensures !KeyLess(MemberKey()(rest[j]), MemberKey()(rest[i])) {
        assert (first + rest)[|first| + i] == rest[i] && (first + rest)[|first| + j] == rest[j];
      }
      SortedChunk(chunks[1..], n - 1);
    }
  }

  // ---- One shard each ----

  ghost predicate DistinctIdentities(cands: seq<Candidate>) {
    forall i, j :: 0 <= i < j < |cands| && !Malformed(cands[i]) && !Malformed(cands[j]) ==> cands[i].id != cands[j].id
  }

  lemma {:induction false} QueryableComesFrom(cands: seq<Candidate>, n: nat, id: Identity) returns (k: nat)
    requires n <= |cands| && id in Queryable(cands[..n])
    ensures k < n && !Malformed(cands[k]) && cands[k].id == id
  {
    assert n > 0 && cands[..n][..n - 1] == cands[..n - 1];
    if id in Queryable(cands[..n - 1]) {
      k := QueryableComesFrom(cands, n - 1, id);
    } else {
      k := n - 1;
    }
  }

  lemma {:induction false} QueriedOnce(cands: seq<Candidate>, id: Identity)
    requires DistinctIdentities(cands)
    ensures Count(Queryable(cands), id) <= 1
  {
    if cands != [] {
      var n := |cands| - 1;
      var rest, c := cands[..n], cands[n];
      QueriedOnce(rest, id);
      CountAppend(Queryable(rest), if Malformed(c) then [] else [c.id], id);
      if !Malformed(c) && c.id == id && id in Queryable(rest) {
        var k := QueryableComesFrom(cands, n, id);
      }
    }
  }

  lemma {:induction false} CollectedFrom(shards: seq<Shard>, id: Identity) returns (k: nat)
    requires id in IdentitiesOf(shards)
    ensures k < |shards| && id in Identities(shards[k])
  {
    var n := |shards| - 1;
    if id in IdentitiesOf(shards[..n]) {
      k := CollectedFrom(shards[..n], id);
    } else {
      k := n;
    }
  }

  lemma {:induction false} CollectedOnce(shards: seq<Shard>, id: Identity, j: nat)
    requires j < |shards| && id in Identities(shards[j])
    ensures Count(IdentitiesOf(shards), id) >= 1
  {
    var n := |shards| - 1;
    CountAppend(IdentitiesOf(shards[..n]), Identities(shards[n]), id);
    if j < n {
      CollectedOnce(shards[..n], id, j);
    }
  }

  lemma {:induction false} CollectedTwice(shards: seq<Shard>, id: Identity, j: nat, k: nat)
    requires j < k < |shards| && id in Identities(shards[j]) && id in Identities(shards[k])
    ensures Count(IdentitiesOf(shards), id) >= 2
  {
    var n := |shards| - 1;
    CountAppend(IdentitiesOf(shards[..n]), Identities(shards[n]), id);
    if k < n {
      CollectedTwice(shards[..n], id, j, k);
    } else {
      CollectedOnce(shards[..n], id, j);
    }
  }

  /** With distinct identities every queryable one is in exactly one shard, of its own namespace and kind. */
  lemma ExactlyOneShard(cands: seq<Candidate>, spc: int, maxSamples: int, shards: seq<Shard>, b: Build, id: Identity)
    returns (k: nat)
    requires BuiltAs(cands, spc, maxSamples, shards, b) && DistinctIdentities(cands)
    requires id.namespace != "" && id.kind != "" && id.name != "" && exists c :: c in cands && c.id == id
    ensures k < |shards| && id in Identities(shards[k]) && shards[k].namespace == id.namespace && shards[k].kind == id.kind
    ensures forall j :: 0 <= j < |shards| && id in Identities(shards[j]) ==> j == k
  {
    SplitExactly(cands, id);
    ConservesOne(cands, spc, maxSamples, shards, b, id);
    QueriedOnce(cands, id);
    assert Count(IdentitiesOf(shards), id) == 1;
    k := CollectedFrom(shards, id);
    forall j | 0 <= j < |shards| && id in Identities(shards[j]) ensures j == k {
      if j != k {
        CollectedTwice(shards, id, if j < k then j else k, if j < k then k else j);
      }
    }
  }

  // ---- Order ----

  ghost function MemberIn(g: Group, spc: int): Candidate -> seq<Member> {
    (c: Candidate) => if Joins(c, g) then [MemberOf(c, spc)] else []
  }

  lemma {:induction false} MembersAreCollected(cands: seq<Candidate>, g: Group, spc: int)
    ensures MembersOf(cands, g, spc) == Collect(MemberIn(g, spc), cands)
  {
    if cands != [] {
      MembersAreCollected(cands[..|cands| - 1], g, spc);
    }
  }

  lemma SamePresent(cands: seq<Candidate>, others: seq<Candidate>, g: Group)
    requires multiset(cands) == multiset(others) && Present(cands, g)
    ensures Present(others, g)
  {
    var k :| 0 <= k < |cands| && !Malformed(cands[k]) && GroupOf(cands[k]) == g;
    assert cands[k] in multiset(others);
    var j :| 0 <= j < |others| && others[j] == cands[k];
  }

  lemma SameOrder(cands: seq<Candidate>, others: seq<Candidate>, order: seq<Group>, order': seq<Group>)
    requires multiset(cands) == multiset(others) && GroupsInOrder(cands, order) && GroupsInOrder(others, order')
    ensures order == order'
  {
    forall g ensures g in order <==> g in order' {
      if Present(cands, g) {
        SamePresent(cands, others, g);
      }
      if Present(others, g) {
        SamePresent(others, cands, g);
      }
    }
    SameElements(order, order');
    forall x, y | GroupKey()(x) == GroupKey()(y) ensures x == y {
      assert GroupKey()(x)[0] == GroupKey()(y)[0] && GroupKey()(x)[1] == GroupKey()(y)[1];
    }
    SortedIsUnique(order, order', GroupKey());
  }

  lemma SameElements<T>(xs: seq<T>, ys: seq<T>)
    requires NoDuplicates(xs) && NoDuplicates(ys) && forall x :: x in xs <==> x in ys
    ensures multiset(xs) == multiset(ys)
  {
    NoDuplicatesCounts(xs);
    NoDuplicatesCounts(ys);
    forall x ensures multiset(xs)[x] == multiset(ys)[x] {
      assert x in multiset(xs) <==> x in xs;
      assert x in multiset(ys) <==> x in ys;
    }
  }

  /** No identity is asked for at two sizes. */
  ghost predicate OneSizeEach(cands: seq<Candidate>, spc: int) {
    forall i, j :: 0 <= i < |cands| && 0 <= j < |cands| && cands[i].id == cands[j].id ==> MemberOf(cands[i], spc) == MemberOf(cands[j], spc)
  }

  lemma NamesIdentify(cands: seq<Candidate>, g: Group, spc: int)
    requires OneSizeEach(cands, spc)
    ensures KeyIdentifies(multiset(MembersOf(cands, g, spc)), MemberKey())
  {
    var ms := MembersOf(cands, g, spc);
    forall x, y | x in multiset(ms) && y in multiset(ms) && MemberKey()(x) == MemberKey()(y) ensures x == y {
      assert MemberKey()(x)[0] == MemberKey()(y)[0];
      var i := MemberIsCandidate(cands, g, spc, x);
      var j := MemberIsCandidate(cands, g, spc, y);
      assert cands[i].id == cands[j].id;
    }
  }

  lemma CostsArePositive(cands: seq<Candidate>, g: Group, spc: int, ms: seq<Member>)
    requires spc >= 1 && multiset(ms) == multiset(MembersOf(cands, g, spc))
    ensures forall i :: 0 <= i < |ms| ==> ms[i].cost > 0
  {
    forall i | 0 <= i < |ms| ensures ms[i].cost > 0 {
      assert ms[i] in multiset(ms);
      var k := MemberIsCandidate(cands, g, spc, ms[i]);
      MulMonotone(1, if cands[k].containers <= 0 then 1 else cands[k].containers, spc);
    }
  }

  lemma SameGroup(cands: seq<Candidate>, others: seq<Candidate>, spc: int, maxSamples: int, b: Build, b': Build, i: nat)
    requires multiset(cands) == multiset(others) && OneSizeEach(cands, spc) && spc >= 1
    requires b.order == b'.order && i < |b.order|
    requires PackedGroups(cands, spc, maxSamples, b, |b.order|) && PackedGroups(others, spc, maxSamples, b', |b.order|)
    ensures b.chunks[i] == b'.chunks[i]
  {
    var g := b.order[i];
    MembersAreCollected(cands, g, spc);
    MembersAreCollected(others, g, spc);
    CollectRearranged(MemberIn(g, spc), cands, others);
    NamesIdentify(cands, g, spc);
    SortedIsUnique(b.sorted[i], b'.sorted[i], MemberKey());
    CostsArePositive(cands, g, spc, b.sorted[i]);
    PackingIsUnique(b.sorted[i], maxSamples, b.chunks[i], b'.chunks[i]);
  }

  /** With no identity asked for at two sizes the shards do not depend on the candidates' order. */
  lemma OrderIsImmaterial(cands: seq<Candidate>, others: seq<Candidate>, spc: int, maxSamples: int, shards: seq<Shard>,
                          shards': seq<Shard>, b: Build, b': Build)
    requires multiset(cands) == multiset(others) && OneSizeEach(cands, spc) && spc >= 1
    requires BuiltAs(cands, spc, maxSamples, shards, b) && BuiltAs(others, spc, maxSamples, shards', b')
    ensures shards == shards'
  {
    SameOrder(cands, others, b.order, b'.order);
    forall i | 0 <= i < |b.order| ensures b.chunks[i] == b'.chunks[i] {
      SameGroup(cands, others, spc, maxSamples, b, b', i);
    }
    assert b.chunks == b'.chunks;
  }

  // ---- One identity asked for at two sizes ----

  /** Every build of the candidates comes to the same shards, however the sort leaves members of one name. */
  ghost predicate Determined(cands: seq<Candidate>, spc: int, maxSamples: int) {
    forall shards, shards', b, b' ::
      BuiltAs(cands, spc, maxSamples, shards, b) && BuiltAs(cands, spc, maxSamples, shards', b') ==> shards == shards'
  }

  /** An identity asked for twice, and a neighbour of its group that comes after it. */
  datatype Trio = Trio(g: Group, name: string, first: int, second: int, neighbour: string, third: int) {
    ghost predicate Valid() {
      g.namespace != "" && g.kind != "" && name != "" && Less(name, neighbour)
    }

    function Candidates(): seq<Candidate> {
      [Candidate(Identity(g.namespace, g.kind, name), first), Candidate(Identity(g.namespace, g.kind, name), second),
       Candidate(Identity(g.namespace, g.kind, neighbour), third)]
    }

    function Member(i: nat, spc: int): Member
      requires i < 3
    {
      MemberOf(Candidates()[i], spc)
    }
  }

  /** The candidates come to one group of three members, two of one name before the third. */
  ghost predicate OneGroupOf(cands: seq<Candidate>, g: Group, spc: int, x: Member, y: Member, z: Member) {
    && GroupsInOrder(cands, [g])
    && multiset(MembersOf(cands, g, spc)) == multiset{x, y, z}
    && x.name == y.name && Less(x.name, z.name) && x.cost > 0 && y.cost > 0 && z.cost > 0
  }

  lemma TrioMembers(t: Trio, spc: int)
    requires t.Valid() && spc >= 1
    ensures MembersOf(t.Candidates(), t.g, spc) == [t.Member(0, spc), t.Member(1, spc), t.Member(2, spc)]
    ensures GroupsInOrder(t.Candidates(), [t.g])
    ensures forall i :: 0 <= i < 3 ==> t.Member(i, spc).cost > 0
    ensures OneGroupOf(t.Candidates(), t.g, spc, t.Member(0, spc), t.Member(1, spc), t.Member(2, spc))
  {
    var cs := t.Candidates();
    assert cs[..3] == cs && cs[..2][..1] == cs[..1] && cs[..3][..2] == cs[..2] && cs[..1][..0] == [];
    assert MembersOf(cs[..1], t.g, spc) == [MemberOf(cs[0], spc)];
    assert MembersOf(cs[..2], t.g, spc) == [MemberOf(cs[0], spc), MemberOf(cs[1], spc)];
    assert Present(cs, t.g) by {
      assert GroupOf(cs[0]) == t.g;
    }
    forall i | 0 <= i < 3 ensures t.Member(i, spc).cost > 0 {
      MulMonotone(1, if cs[i].containers <= 0 then 1 else cs[i].containers, spc);
    }
  }

  /** Three members packed in the order given. */
  function ThreeChunks(x: Member, y: Member, z: Member, maxSamples: int): seq<seq<Member>> {
    if x.cost + y.cost <= maxSamples then
      if x.cost + y.cost + z.cost <= maxSamples then [[x, y, z]] else [[x, y], [z]]
    else if y.cost + z.cost <= maxSamples then [[x], [y, z]]
    else [[x], [y], [z]]
  }

  lemma SmallCosts(x: Member, y: Member, z: Member)
    ensures Cost([x]) == x.cost && Cost([x, y]) == x.cost + y.cost && Cost([x, y, z]) == x.cost + y.cost + z.cost
  {
    assert [x][..0] == [] && [x, y][..1] == [x] && [x, y, z][..2] == [x, y];
  }

  lemma ThreePacked(x: Member, y: Member, z: Member, maxSamples: int)
    ensures Packing([x, y, z], maxSamples, ThreeChunks(x, y, z, maxSamples))
  {
    var chunks := ThreeChunks(x, y, z, maxSamples);
    SmallCosts(x, y, z);
    SmallCosts(y, z, x);
    SmallCosts(z, x, y);
    FlattenOne(chunks[|chunks| - 1]);
    if |chunks| == 2 {
      assert chunks == [chunks[0]] + [chunks[1]];
      FlattenAppend([chunks[0]], [chunks[1]]);
      FlattenOne(chunks[0]);
    } else if |chunks| == 3 {
      assert chunks == ([[x]] + [[y]]) + [[z]];
      FlattenAppend([[x]] + [[y]], [[z]]);
      FlattenAppend([[x]], [[y]]);
      FlattenOne([x]);
      FlattenOne([y]);
    }
  }

  lemma ThreeSorted(x: Member, y: Member, z: Member)
    requires x.name == y.name && Less(x.name, z.name)
    ensures Sorted([x, y, z], MemberKey())
  {
    LessTotal(x.name, z.name);
    LessTotal(x.name, x.name);
  }

  /** Of three members, two of one name before the third, the third comes last. */
  lemma ThirdIsLast(ms: seq<Member>, x: Member, y: Member, z: Member)
    requires Sorted(ms, MemberKey()) && multiset(ms) == multiset{x, y, z}
    requires x.name == y.name && Less(x.name, z.name)
    ensures |ms| == 3 && ms[2] == z
  {
    assert |ms| == |multiset(ms)| == 3;
    LessTotal(x.name, z.name);
    assert KeyLess(MemberKey()(x), MemberKey()(z)) && KeyLess(MemberKey()(y), MemberKey()(z));
    assert z in multiset(ms);
    var k :| 0 <= k < 3 && ms[k] == z;
    assert ms[2] in multiset(ms);
    assert k < 2 ==> !KeyLess(MemberKey()(ms[2]), MemberKey()(ms[k]));
  }

  /** And only the two may change places. */
  lemma TwoArrangements(ms: seq<Member>, x: Member, y: Member, z: Member)
    requires Sorted(ms, MemberKey()) && multiset(ms) == multiset{x, y, z}
    requires x.name == y.name && Less(x.name, z.name)
    ensures ms == [x, y, z] || ms == [y, x, z]
  {
    ThirdIsLast(ms, x, y, z);
    ThreeOf(ms);
    PairsAlike(ms[0], ms[1], x, y, z);
  }

  lemma ThreeOf(ms: seq<Member>)
    requires |ms| == 3
    ensures multiset(ms) == multiset{ms[0], ms[1], ms[2]}
  {
    assert ms == [ms[0], ms[1], ms[2]];
  }

  lemma PairsAlike(a: Member, b: Member, x: Member, y: Member, z: Member)
    requires multiset{a, b, z} == multiset{x, y, z}
    ensures (a == x && b == y) || (a == y && b == x)
  {
    assert multiset{a, b} == multiset{a, b, z} - multiset{z} == multiset{x, y};
    assert a in multiset{x, y} && b in multiset{x, y} && x in multiset{a, b} && y in multiset{a, b};
  }

  lemma BuiltOfOne(cands: seq<Candidate>, g: Group, spc: int, maxSamples: int, ms: seq<Member>, chunks: seq<seq<Member>>)
    requires GroupsInOrder(cands, [g]) && PackedAs(cands, g, spc, maxSamples, ms, chunks)
    ensures BuiltAs(cands, spc, maxSamples, ShardsOf(g, chunks), Build([g], [ms], [chunks]))
  {
    assert [chunks][..0] == [];
  }

  lemma OneGroupBuild(cands: seq<Candidate>, g: Group, spc: int, maxSamples: int, shards: seq<Shard>, b: Build)
    requires GroupsInOrder(cands, [g]) && BuiltAs(cands, spc, maxSamples, shards, b)
    ensures |b.sorted| == |b.chunks| == 1 && PackedAs(cands, g, spc, maxSamples, b.sorted[0], b.chunks[0])
    ensures shards == ShardsOf(g, b.chunks[0])
  {
    SameOrder(cands, cands, b.order, [g]);
    assert b.chunks[..0] == [];
    assert AllShards(b.order, b.chunks[..0]) == [];
  }

  lemma BuiltAlone(cands: seq<Candidate>, g: Group, spc: int, maxSamples: int, x: Member, y: Member, z: Member)
    requires OneGroupOf(cands, g, spc, x, y, z)
    ensures var chunks := ThreeChunks(x, y, z, maxSamples);
            BuiltAs(cands, spc, maxSamples, ShardsOf(g, chunks), Build([g], [[x, y, z]], [chunks]))
  {
    ThreeSorted(x, y, z);
    ThreePacked(x, y, z, maxSamples);
    BuiltOfOne(cands, g, spc, maxSamples, [x, y, z], ThreeChunks(x, y, z, maxSamples));
  }

  lemma TwoPackings(ms: seq<Member>, maxSamples: int, x: Member, y: Member, z: Member, chunks: seq<seq<Member>>)
    requires Sorted(ms, MemberKey()) && multiset(ms) == multiset{x, y, z} && Packing(ms, maxSamples, chunks)
    requires x.name == y.name && Less(x.name, z.name) && x.cost > 0 && y.cost > 0 && z.cost > 0
    ensures chunks == ThreeChunks(x, y, z, maxSamples) || chunks == ThreeChunks(y, x, z, maxSamples)
  {
    TwoArrangements(ms, x, y, z);
    if ms == [x, y, z] {
      PackingOfThree(x, y, z, maxSamples, chunks);
    } else {
      PackingOfThree(y, x, z, maxSamples, chunks);
    }
  }

  lemma PackingOfThree(x: Member, y: Member, z: Member, maxSamples: int, chunks: seq<seq<Member>>)
    requires Packing([x, y, z], maxSamples, chunks) && x.cost > 0 && y.cost > 0 && z.cost > 0
    ensures chunks == ThreeChunks(x, y, z, maxSamples)
  {
    ThreePacked(x, y, z, maxSamples);
    PackingIsUnique([x, y, z], maxSamples, chunks, ThreeChunks(x, y, z, maxSamples));
  }

  lemma TrioBuild(cands: seq<Candidate>, g: Group, spc: int, maxSamples: int, x: Member, y: Member, z: Member,
                  shards: seq<Shard>, b: Build)
    requires OneGroupOf(cands, g, spc, x, y, z) && BuiltAs(cands, spc, maxSamples, shards, b)
    ensures || shards == ShardsOf(g, ThreeChunks(x, y, z, maxSamples))
            || shards == ShardsOf(g, ThreeChunks(y, x, z, maxSamples))
  {
    OneGroupBuild(cands, g, spc, maxSamples, shards, b);
    TwoPackings(b.sorted[0], maxSamples, x, y, z, b.chunks[0]);
  }

  /** What tells the two arrangements' shards apart is how many names each holds. */
  lemma ArrangementsDiffer(g: Group, maxSamples: int, x: Member, y: Member, z: Member)
    requires x.name == y.name && x.cost > 0 && y.cost > 0 && z.cost > 0
    ensures ShardsOf(g, ThreeChunks(x, y, z, maxSamples)) == ShardsOf(g, ThreeChunks(y, x, z, maxSamples)) <==>
            (x.cost + y.cost > maxSamples ==> (x.cost + z.cost <= maxSamples <==> y.cost + z.cost <= maxSamples))
  {
    var one, other := ThreeChunks(x, y, z, maxSamples), ThreeChunks(y, x, z, maxSamples);
    if |one| == |other| {
      forall i | 0 <= i < |one| && |one[i]| == |other[i]| ensures Names(one[i]) == Names(other[i]) {
      }
    }
  }

  lemma GroupDeterminedExactly(cands: seq<Candidate>, g: Group, spc: int, maxSamples: int, x: Member, y: Member, z: Member)
    requires OneGroupOf(cands, g, spc, x, y, z)
    ensures Determined(cands, spc, maxSamples) <==>
            ShardsOf(g, ThreeChunks(x, y, z, maxSamples)) == ShardsOf(g, ThreeChunks(y, x, z, maxSamples))
  {
    if Determined(cands, spc, maxSamples) {
      DeterminedAlike(cands, g, spc, maxSamples, x, y, z);
    } else if ShardsOf(g, ThreeChunks(x, y, z, maxSamples)) == ShardsOf(g, ThreeChunks(y, x, z, maxSamples)) {
      AlikeDetermined(cands, g, spc, maxSamples, x, y, z);
    }
  }

  lemma DeterminedAlike(cands: seq<Candidate>, g: Group, spc: int, maxSamples: int, x: Member, y: Member, z: Member)
    requires OneGroupOf(cands, g, spc, x, y, z) && Determined(cands, spc, maxSamples)
    ensures ShardsOf(g, ThreeChunks(x, y, z, maxSamples)) == ShardsOf(g, ThreeChunks(y, x, z, maxSamples))
  {
    OneGroupSwapped(cands, g, spc, x, y, z);
    var b := BuildOf(cands, g, spc, maxSamples, x, y, z);
    var b' := BuildOf(cands, g, spc, maxSamples, y, x, z);
    BuiltTwice(cands, spc, maxSamples, ShardsOf(g, ThreeChunks(x, y, z, maxSamples)),
               ShardsOf(g, ThreeChunks(y, x, z, maxSamples)), b, b');
  }

  lemma OneGroupSwapped(cands: seq<Candidate>, g: Group, spc: int, x: Member, y: Member, z: Member)
    requires OneGroupOf(cands, g, spc, x, y, z)
    ensures OneGroupOf(cands, g, spc, y, x, z)
  {
    assert multiset{x, y, z} == multiset{y, x, z};
  }

  lemma BuildOf(cands: seq<Candidate>, g: Group, spc: int, maxSamples: int, x: Member, y: Member,
                z: Member) returns (b: Build)
    requires OneGroupOf(cands, g, spc, x, y, z)
    ensures BuiltAs(cands, spc, maxSamples, ShardsOf(g, ThreeChunks(x, y, z, maxSamples)), b)
  {
    BuiltAlone(cands, g, spc, maxSamples, x, y, z);
    b := Build([g], [[x, y, z]], [ThreeChunks(x, y, z, maxSamples)]);
  }

  lemma BuiltTwice(cands: seq<Candidate>, spc: int, maxSamples: int, shards: seq<Shard>, shards': seq<Shard>, b: Build,
                   b': Build)
    requires Determined(cands, spc, maxSamples)
    requires BuiltAs(cands, spc, maxSamples, shards, b) && BuiltAs(cands, spc, maxSamples, shards', b')
    ensures shards == shards'
  {
  }

  lemma AlikeDetermined(cands: seq<Candidate>, g: Group, spc: int, maxSamples: int, x: Member, y: Member, z: Member)
    requires OneGroupOf(cands, g, spc, x, y, z)
    requires ShardsOf(g, ThreeChunks(x, y, z, maxSamples)) == ShardsOf(g, ThreeChunks(y, x, z, maxSamples))
    ensures Determined(cands, spc, maxSamples)
  {
    var one := ShardsOf(g, ThreeChunks(x, y, z, maxSamples));
    forall shards, b | BuiltAs(cands, spc, maxSamples, shards, b) ensures shards == one {
      TrioBuild(cands, g, spc, maxSamples, x, y, z, shards, b);
    }
  }

  /**
   * The shards of an identity asked for twice beside a neighbour are not determined exactly when its two requests never
   * share a shard and the neighbour fits beside one of them and not beside the other.
   */
  lemma TrioDeterminedExactly(t: Trio, spc: int, maxSamples: int)
    requires t.Valid() && spc >= 1
    ensures var x, y, z := t.Member(0, spc).cost, t.Member(1, spc).cost, t.Member(2, spc).cost;
            Determined(t.Candidates(), spc, maxSamples) <==>
            (x + y > maxSamples ==> (x + z <= maxSamples <==> y + z <= maxSamples))
  {
    var x, y, z := t.Member(0, spc), t.Member(1, spc), t.Member(2, spc);
    TrioMembers(t, spc);
    GroupDeterminedExactly(t.Candidates(), t.g, spc, maxSamples, x, y, z);
    ArrangementsDiffer(t.g, maxSamples, x, y, z);
  }

  /** One sequence of candidates with two builds: two shards or three, as the sort leaves the one name. */
  lemma SharedIdentityPacksTwoWays() returns (shards: seq<Shard>, shards': seq<Shard>, b: Build, b': Build)
    ensures var cands := Trio(Group("n", "k"), "a", 10, 1, "b", 9).Candidates();
            && BuiltAs(cands, 1, 10, shards, b) && BuiltAs(cands, 1, 10, shards', b')
            && |shards| == 2 && |shards'| == 3
  {
    var t := Trio(Group("n", "k"), "a", 10, 1, "b", 9);
    assert Less("a", "b");
    var x, y, z := t.Member(0, 1), t.Member(1, 1), t.Member(2, 1);
    TrioMembers(t, 1);
    OneGroupSwapped(t.Candidates(), t.g, 1, x, y, z);
    b := BuildOf(t.Candidates(), t.g, 1, 10, x, y, z);
    b' := BuildOf(t.Candidates(), t.g, 1, 10, y, x, z);
    shards, shards' := ShardsOf(t.g, ThreeChunks(x, y, z, 10)), ShardsOf(t.g, ThreeChunks(y, x, z, 10));
    TwoOrThree(t.g, x, y, z, 10);
  }

  lemma TwoOrThree(g: Group, x: Member, y: Member, z: Member, maxSamples: int)
    requires x.cost + y.cost > maxSamples && x.cost + z.cost > maxSamples && y.cost + z.cost <= maxSamples
    ensures |ShardsOf(g, ThreeChunks(x, y, z, maxSamples))| == 2 && |ShardsOf(g, ThreeChunks(y, x, z, maxSamples))| == 3
  {
  }
}
