/** The Policies that may govern, and which namespaces and labels each accepts (internal/governance/policies.go). */
module Policies {
  import opened Common

  type Labels = map<string, string>

  // ---- Label selectors ----

  datatype Operator = In | NotIn | Exists | DoesNotExist | UnknownOperator

  datatype Requirement = Requirement(key: string, op: Operator, values: set<string>)

  /** `wellFormed` says whether every key and value is written as Kubernetes writes labels. */
  datatype LabelSelector = LabelSelector(matchLabels: Labels, expressions: seq<Requirement>, wellFormed: bool)

  predicate OperatorFits(q: Requirement) {
    match q.op
    case In => q.values != {}
    case NotIn => q.values != {}
    case Exists => q.values == {}
    case DoesNotExist => q.values == {}
    case UnknownOperator => false
  }

  /** The selector can be compiled. */
  predicate Parses(ls: LabelSelector) {
    ls.wellFormed && forall i :: 0 <= i < |ls.expressions| ==> OperatorFits(ls.expressions[i])
  }

  predicate Meets(q: Requirement, labels: Labels) {
    match q.op
    case In => q.key in labels && labels[q.key] in q.values
    case NotIn => q.key !in labels || labels[q.key] !in q.values
    case Exists => q.key in labels
    case DoesNotExist => q.key !in labels
    case UnknownOperator => false
  }

  predicate Matches(ls: LabelSelector, labels: Labels) {
    && (forall k :: k in ls.matchLabels ==> k in labels && labels[k] == ls.matchLabels[k])
    && (forall i :: 0 <= i < |ls.expressions| ==> Meets(ls.expressions[i], labels))
  }

  /** A selector matches where every label it names has its value and every expression holds by its operator. */
  lemma MatchesMeans(ls: LabelSelector, labels: Labels)
    ensures Matches(ls, labels) <==>
            && (forall k :: k in ls.matchLabels ==> k in labels && labels[k] == ls.matchLabels[k])
            && (forall q :: q in ls.expressions ==>
                  || (q.op.In? && q.key in labels && labels[q.key] in q.values)
                  || (q.op.NotIn? && !(q.key in labels && labels[q.key] in q.values))
                  || (q.op.Exists? && q.key in labels)
                  || (q.op.DoesNotExist? && q.key !in labels))
  {
    if Matches(ls, labels) {
      forall q | q in ls.expressions ensures Meets(q, labels) {
        var i :| 0 <= i < |ls.expressions| && ls.expressions[i] == q;
      }
    }
  }

  /** It parses where it is well formed and its operators are known, the two on values having some and the others none. */
  lemma ParsesMeans(ls: LabelSelector)
    ensures Parses(ls) <==>
            ls.wellFormed &&
            forall q :: q in ls.expressions ==>
              if q.op.In? || q.op.NotIn? then exists v :: v in q.values
              else (q.op.Exists? || q.op.DoesNotExist?) && forall v :: v !in q.values
  {
    if Parses(ls) {
      forall q | q in ls.expressions ensures OperatorFits(q) {
        var i :| 0 <= i < |ls.expressions| && ls.expressions[i] == q;
      }
    }
  }

  predicate Mentions(ls: LabelSelector, key: string) {
    key in ls.matchLabels || exists i :: 0 <= i < |ls.expressions| && ls.expressions[i].key == key
  }

  /** Labels that agree wherever the selector looks are matched alike. */
  lemma MatchedAlike(ls: LabelSelector, a: Labels, b: Labels)
    requires forall k :: Mentions(ls, k) ==> (k in a <==> k in b) && (k in a ==> a[k] == b[k])
    ensures Matches(ls, a) <==> Matches(ls, b)
  {
    forall i | 0 <= i < |ls.expressions| ensures Meets(ls.expressions[i], a) <==> Meets(ls.expressions[i], b) {
      assert Mentions(ls, ls.expressions[i].key);
    }
    forall k | k in ls.matchLabels ensures k in a && a[k] == ls.matchLabels[k] <==> k in b && b[k] == ls.matchLabels[k] {
      assert Mentions(ls, k);
    }
  }

  // ---- Policies ----

  datatype Mode = OnCreate | Ongoing

  datatype UpdateTypes = UpdateTypes(
    deployment: Option<Mode>, statefulSet: Option<Mode>, daemonSet: Option<Mode>, cronJob: Option<Mode>, job: Option<Mode>,
    argoRollout: Option<Mode>, pod: Option<Mode>)

  function ModeForKind(t: UpdateTypes, kind: string): Option<Mode> {
    if kind == "Deployment" then t.deployment
    else if kind == "StatefulSet" then t.statefulSet
    else if kind == "DaemonSet" then t.daemonSet
    else if kind == "CronJob" then t.cronJob
    else if kind == "Job" then t.job
    else if kind == "Rollout" then t.argoRollout
    else if kind == "Pod" then t.pod
    else None
  }

  predicate Manages(t: UpdateTypes, kind: string, mode: Mode) {
    || (kind == "Deployment" && t.deployment == Some(mode))
    || (kind == "StatefulSet" && t.statefulSet == Some(mode))
    || (kind == "DaemonSet" && t.daemonSet == Some(mode))
    || (kind == "CronJob" && t.cronJob == Some(mode))
    || (kind == "Job" && t.job == Some(mode))
    || (kind == "Rollout" && t.argoRollout == Some(mode))
    || (kind == "Pod" && t.pod == Some(mode))
  }

  /** A kind is managed in the mode of its own field, and no other kind is. */
  lemma ModeMeans(t: UpdateTypes, kind: string, mode: Mode)
    ensures ModeForKind(t, kind) == Some(mode) <==> Manages(t, kind, mode)
  {
  }

  /** One stored version of a Policy; an empty `version` was never stored. */
  datatype Policy = Policy(
    name: string, uid: string, version: string, namespaces: seq<string>, selector: Option<LabelSelector>, types: UpdateTypes)

  /** A Policy with its selector compiled: none matches everything, one that does not parse matches nothing yet refuses. */
  datatype Compiled = Compiled(policy: Policy, selector: Option<LabelSelector>, invalid: bool)

  datatype PolicySet = PolicySet(byName: map<string, Compiled>, excluded: seq<string>)

  datatype Refusal =
    | NoOwner | NoPolicySelects | NotOptedIn | OptedOut | PolicyMissing | NamespaceExcluded | NamespaceNotSelected
    | SelectorInvalid | LabelsNotSelected | KindNotManaged

  function Compile(p: Policy): Compiled {
    if p.selector.None? then Compiled(p, None, false)
    else if Parses(p.selector.value) then Compiled(p, p.selector, false)
    else Compiled(p, None, true)
  }

  /** Every Policy by name, the last of a name standing. */
  function CompiledAll(items: seq<Policy>): map<string, Compiled> {
    if items == [] then map[]
    else
      var p := items[|items| - 1];
      CompiledAll(items[..|items| - 1])[p.name := Compile(p)]
  }

  function NamespaceRefusal(ps: PolicySet, c: Compiled, namespace: string): Option<Refusal> {
    if namespace in ps.excluded then Some(NamespaceExcluded)
    else if |c.policy.namespaces| > 0 && namespace !in c.policy.namespaces then Some(NamespaceNotSelected)
    else None
  }

  function LabelRefusal(c: Compiled, labels: Labels): Option<Refusal> {
    if c.invalid then Some(SelectorInvalid)
    else if c.selector.Some? && !Matches(c.selector.value, labels) then Some(LabelsNotSelected)
    else None
  }

  /** `Consent` less the labels, which a Departed identity does not have. */
  function NamespaceConsent(ps: PolicySet, name: string, namespace: string): Result<Compiled, Refusal> {
    if name !in ps.byName then Err(PolicyMissing)
    else
      var refusal := NamespaceRefusal(ps, ps.byName[name], namespace);
      if refusal.Some? then Err(refusal.value) else Ok(ps.byName[name])
  }

  /** The first refusal met, of namespace before labels, or the Policy itself. */
  function Consent(ps: PolicySet, name: string, namespace: string, labels: Labels): Result<Policy, Refusal> {
    match NamespaceConsent(ps, name, namespace)
    case Err(refusal) => Err(refusal)
    case Ok(c) =>
      var refusal := LabelRefusal(c, labels);
      if refusal.Some? then Err(refusal.value) else Ok(c.policy)
  }

  /** Consent for an identity without live members, whose labels nothing can match. */
  function DepartedConsent(ps: PolicySet, name: string, namespace: string): Result<Policy, Refusal> {
    match NamespaceConsent(ps, name, namespace)
    case Err(refusal) => Err(refusal)
    case Ok(c) => if c.invalid then Err(SelectorInvalid) else Ok(c.policy)
  }

  /** Some Policy might accept the namespace and labels, as one that does not parse might. */
  predicate SomeMight(ps: PolicySet, namespace: string, labels: Labels) {
    exists name :: name in ps.byName && NamespaceRefusal(ps, ps.byName[name], namespace).None? &&
                   LabelRefusal(ps.byName[name], labels) != Some(LabelsNotSelected)
  }

  /** An excluded namespace first; otherwise `None` as soon as one Policy may accept. */
  function GateRefusal(ps: PolicySet, namespace: string, labels: Labels): Option<Refusal> {
    if namespace in ps.excluded then Some(NamespaceExcluded)
    else if SomeMight(ps, namespace, labels) then None
    else Some(NoPolicySelects)
  }

  /**
   * The gate refuses only what no Policy would consent to, and lets everything pass that some Policy consents to or
   * refuses for a selector of its own that does not parse.
   */
  lemma GateIsSound(ps: PolicySet, namespace: string, labels: Labels)
    ensures GateRefusal(ps, namespace, labels).Some? <==>
              forall name :: Consent(ps, name, namespace, labels).Err? && Consent(ps, name, namespace, labels).error != SelectorInvalid
  {
    if namespace !in ps.excluded && SomeMight(ps, namespace, labels) {
      var name :| name in ps.byName && NamespaceRefusal(ps, ps.byName[name], namespace).None? &&
                  LabelRefusal(ps.byName[name], labels) != Some(LabelsNotSelected);
      var answer := Consent(ps, name, namespace, labels);
      assert !(answer.Err? && answer.error != SelectorInvalid);
    } else {
      forall name ensures var answer := Consent(ps, name, namespace, labels); answer.Err? && answer.error != SelectorInvalid {
        RefusedByGate(ps, name, namespace, labels);
      }
    }
  }

  lemma RefusedByGate(ps: PolicySet, name: string, namespace: string, labels: Labels)
    requires namespace in ps.excluded || !SomeMight(ps, namespace, labels)
    ensures var answer := Consent(ps, name, namespace, labels); answer.Err? && answer.error != SelectorInvalid
  {
    if name in ps.byName && namespace !in ps.excluded {
      assert NamespaceRefusal(ps, ps.byName[name], namespace).Some? || LabelRefusal(ps.byName[name], labels) == Some(LabelsNotSelected);
    }
  }

  /** The Policy exists, is not shut out of the namespace and selects the labels. */
  predicate Accepts(ps: PolicySet, name: string, namespace: string, labels: Labels, p: Policy) {
    && name in ps.byName && p == ps.byName[name].policy
    && namespace !in ps.excluded && (p.namespaces == [] || namespace in p.namespaces)
    && (p.selector.None? || (Parses(p.selector.value) && Matches(p.selector.value, labels)))
  }

  /** Consent says yes exactly for a Policy that exists, is not shut out of the namespace and selects the labels. */
  lemma ConsentMeans(ps: PolicySet, name: string, namespace: string, labels: Labels, p: Policy)
    requires forall n :: n in ps.byName ==> ps.byName[n] == Compile(ps.byName[n].policy)
    ensures Consent(ps, name, namespace, labels) == Ok(p) <==> Accepts(ps, name, namespace, labels, p)
    ensures DepartedConsent(ps, name, namespace) == Ok(p) <==>
              && name in ps.byName && p == ps.byName[name].policy
              && namespace !in ps.excluded && (p.namespaces == [] || namespace in p.namespaces)
              && (p.selector.None? || Parses(p.selector.value))
  {
  }

  /** The gate as the code runs it, stopping at the first Policy that might accept. */
  method FindGateRefusal(ps: PolicySet, namespace: string, labels: Labels) returns (refusal: Option<Refusal>)
    ensures refusal == GateRefusal(ps, namespace, labels)
  {
    if namespace in ps.excluded {
      return Some(NamespaceExcluded);
    }
    var names := ps.byName.Keys;
    while names != {}
      invariant names <= ps.byName.Keys
      invariant forall n :: n in ps.byName && n !in names ==>
                  NamespaceRefusal(ps, ps.byName[n], namespace).Some? || LabelRefusal(ps.byName[n], labels) == Some(LabelsNotSelected)
    {
      var n :| n in names;
      var c := ps.byName[n];
      if NamespaceRefusal(ps, c, namespace).None? && LabelRefusal(c, labels) != Some(LabelsNotSelected) {
        return None;
      }
      names := names - {n};
    }
    refusal := Some(NoPolicySelects);
  }

  // ---- Listing ----

  /** A name, UID and version name one content, as the API server promises of what it stores. */
  ghost predicate OneContentEach(stored: set<Policy>) {
    forall p, q :: p in stored && q in stored && p.name == q.name && p.uid == q.uid && p.version == q.version && p.version != "" ==> p == q
  }

  /** Everything compiled earlier was compiled from a stored Policy of that name. */
  ghost predicate CompiledFrom(stored: set<Policy>, last: map<string, Compiled>) {
    forall n :: n in last ==> last[n].policy in stored && last[n].policy.name == n && last[n] == Compile(last[n].policy)
  }

  class PolicyLister {
    const excluded: seq<string>
    const built: bool
    var last: map<string, Compiled>

    constructor (excluded: seq<string>)
      ensures built && this.excluded == excluded && last == map[]
    {
      this.excluded, built, last := excluded, true, map[];
    }

    /** Indexes the Policies by name, reusing what was compiled for an unchanged version. */
    method Index(items: seq<Policy>, ghost stored: set<Policy>) returns (ps: PolicySet)
      requires OneContentEach(stored) && CompiledFrom(stored, last) && forall p :: p in items ==> p in stored
      ensures ps == PolicySet(CompiledAll(items), excluded) && CompiledFrom(stored, ps.byName)
    {
      var byName: map<string, Compiled> := map[];
      for i := 0 to |items|
        invariant byName == CompiledAll(items[..i]) && CompiledFrom(stored, byName)
      {
        var p := items[i];
        assert items[..i + 1][..i] == items[..i];
        if p.name in last && p.version != "" && last[p.name].policy.uid == p.uid && last[p.name].policy.version == p.version {
          byName := byName[p.name := last[p.name]];
        } else {
          byName := byName[p.name := Compile(p)];
        }
      }
      assert items[..|items|] == items;
      ps := PolicySet(byName, excluded);
    }

    /** Whatever was listed before, a listing is what compiling every Policy afresh gives; an unbuilt lister refuses. */
    method List(listed: Result<seq<Policy>, string>, ghost stored: set<Policy>) returns (r: Result<PolicySet, string>)
      requires OneContentEach(stored) && CompiledFrom(stored, last)
      requires listed.Ok? ==> forall p :: p in listed.value ==> p in stored
      modifies this`last
      ensures CompiledFrom(stored, last)
      ensures r.Ok? <==> built && listed.Ok?
      ensures r.Ok? ==> r.value == PolicySet(CompiledAll(listed.value), excluded)
      ensures !built ==> r == Err("no PolicyLister built") && last == old(last)
      ensures built && listed.Err? ==> r == Err(listed.error) && last == old(last)
    {
      if !built {
        return Err("no PolicyLister built");
      }
      if listed.Err? {
        return Err(listed.error);
      }
      var ps := Index(listed.value, stored);
      last := ps.byName;
      r := Ok(ps);
    }
  }

  /** A listing holds every Policy compiled, under its own name. */
  lemma {:induction false} CompiledAllIsCompiled(items: seq<Policy>)
    ensures forall n :: n in CompiledAll(items) <==> exists i :: 0 <= i < |items| && items[i].name == n
    ensures forall n :: n in CompiledAll(items) ==>
              var c := CompiledAll(items)[n]; c == Compile(c.policy) && c.policy in items && c.policy.name == n
  {
    if items != [] {
      var rest := items[..|items| - 1];
      CompiledAllIsCompiled(rest);
      assert items == rest + [items[|items| - 1]];
      forall n ensures n in CompiledAll(items) <==> exists i :: 0 <= i < |items| && items[i].name == n {
        if i :| 0 <= i < |rest| && rest[i].name == n {
          assert items[i].name == n;
        }
        if i :| 0 <= i < |items| && items[i].name == n {
          assert i < |rest| ==> rest[i].name == n;
        }
      }
    }
  }
}
