/** Who governs a pod or a pod template, and under which identity (internal/governance/governance.go). */
module Governance {
  import opened Common
  import opened Policies

  const POLICY_ANNOTATION := "k8s.sustain.io/policy"
  const OWNER_NAME_ANNOTATION := "k8s.sustain.io/owner-name"
  const OPT_OUT_ANNOTATION := "k8s.sustain.io/opt-out"

  /** On these alone a pod's labels may differ from its template's, and no selector looks at them. */
  const RESERVED_LABELS: set<string> := {
    "pod-template-hash", "rollouts-pod-template-hash", "controller-revision-hash", "pod-template-generation",
    "statefulset.kubernetes.io/pod-name", "apps.kubernetes.io/pod-index", "controller-uid", "job-name",
    "batch.kubernetes.io/controller-uid", "batch.kubernetes.io/job-name", "batch.kubernetes.io/job-completion-index"
  }

  type Annotations = map<string, string>

  type Error = string

  datatype Owner = Owner(kind: string, name: string)

  /** What is decided about: only a template and a pod carry labels and annotations of their own. */
  datatype Subject =
    | Template(namespace: string, labels: Labels, annotations: Annotations, workload: Owner, workloadAnnotations: Annotations)
    | Pod(namespace: string, labels: Labels, annotations: Annotations, controlled: bool)
    | Departed(identity: Identity, policy: string)

  /** What each of a reader's methods answers. */
  datatype Reader = Reader(
    policies: Result<PolicySet, Error>, owner: Result<Owner, Error>, workload: Owner -> Result<Annotations, Error>,
    namespace: Result<Annotations, Error>)

  datatype Level = LevelNone | LevelPodTemplate | LevelWorkload | LevelNamespace

  datatype Decision = Decision(
    identity: Option<Identity>, optIn: string, level: Level, policy: Option<Policy>, mode: Option<Mode>, refusal: Option<Refusal>)

  const UNDECIDED := Decision(None, "", LevelNone, None, None, None)

  // ---- Identity ----

  predicate Alphanumeric(c: char) {
    'a' <= c <= 'z' || 'A' <= c <= 'Z' || '0' <= c <= '9'
  }

  /** At most 63 letters, digits, dashes, underscores and dots, the first and last a letter or digit. */
  predicate ValidLabelValue(v: string) {
    |v| <= 63 &&
    (v == "" ||
     (Alphanumeric(v[0]) && Alphanumeric(v[|v| - 1]) &&
      forall i :: 0 <= i < |v| ==> Alphanumeric(v[i]) || v[i] == '-' || v[i] == '_' || v[i] == '.'))
  }

  /** Non-empty and valid: letters and digits, and between the first and the last dashes, underscores and dots besides. */
  lemma LabelValueMeans(v: string)
    requires v != ""
    ensures ValidLabelValue(v) <==>
            |v| <= 63 &&
            forall i :: 0 <= i < |v| ==>
              var c := v[i] as int;
              48 <= c <= 57 || 65 <= c <= 90 || 97 <= c <= 122 || (0 < i < |v| - 1 && c in {45, 46, 95})
  {
    forall i | 0 <= i < |v|
      ensures Alphanumeric(v[i]) <==> 48 <= v[i] as int <= 57 || 65 <= v[i] as int <= 90 || 97 <= v[i] as int <= 122
      ensures v[i] == '-' || v[i] == '_' || v[i] == '.' <==> v[i] as int in {45, 46, 95}
    {
    }
  }

  function ValueOf(annotations: Annotations, key: string): string {
    if key in annotations then annotations[key] else ""
  }

  function Overridden(o: Owner, annotations: Annotations): Owner {
    if OWNER_NAME_ANNOTATION !in annotations || annotations[OWNER_NAME_ANNOTATION] == "" ||
       !ValidLabelValue(annotations[OWNER_NAME_ANNOTATION]) then o
    else Owner(if o.kind == "" then "Pod" else o.kind, annotations[OWNER_NAME_ANNOTATION])
  }

  function IdentityFor(namespace: string, o: Owner, annotations: Annotations): Identity {
    var p := Overridden(o, annotations);
    Identity(namespace, p.kind, p.name)
  }

  /**
   * The override names the identity exactly when it holds a valid, non-empty label value; the namespace and the kind are
   * never its to change, but that what has no owner becomes a Pod.
   */
  lemma OverrideNamesIdentity(namespace: string, o: Owner, annotations: Annotations)
    ensures var id, key := IdentityFor(namespace, o, annotations), "k8s.sustain.io/owner-name";
            var v := if key in annotations then annotations[key] else "";
            && id.namespace == namespace
            && (v != "" && ValidLabelValue(v) ==> id.name == v && (if o.kind == "" then id.kind == "Pod" else id.kind == o.kind))
            && (v == "" || !ValidLabelValue(v) ==> id.name == o.name && id.kind == o.kind)
  {
  }

  // ---- Levels ----

  /** What one level's annotations decide. */
  datatype Said = Silent | Out | Names(name: string)

  function SaidBy(annotations: Annotations): Said {
    if ValueOf(annotations, OPT_OUT_ANNOTATION) == "true" then Out
    else if ValueOf(annotations, POLICY_ANNOTATION) != "" then Names(ValueOf(annotations, POLICY_ANNOTATION))
    else Silent
  }

  predicate Controlled(s: Subject) {
    s.Pod? && s.controlled
  }

  const LEVELS := [LevelPodTemplate, LevelWorkload, LevelNamespace]

  /** Reading a level: its annotations, or the gate's refusal to pay for the read. */
  datatype LevelRead = Told(annotations: Annotations) | Gated(refusal: Refusal)

  /** The walk's pre-gate, when `gating`. */
  function GateOf(s: Subject, r: Reader, gating: bool): Result<Option<Refusal>, Error>
    requires !s.Departed?
  {
    if !gating then Ok(None)
    else if r.policies.Err? then Err(r.policies.error)
    else Ok(GateRefusal(r.policies.value, s.namespace, s.labels))
  }

  function ReadLevel(s: Subject, r: Reader, gating: bool, i: nat): Result<LevelRead, Error>
    requires !s.Departed? && i < 3
  {
    if i == 0 then Ok(Told(s.annotations))
    else if i == 1 && s.Template? then Ok(Told(s.workloadAnnotations))
    else if i == 1 && !Controlled(s) then Ok(Told(map[]))
    else
      var gate := GateOf(s, r, gating);
      if gate.Err? then Err(gate.error)
      else if gate.value.Some? then Ok(Gated(gate.value.value))
      else if i == 2 then (if r.namespace.Err? then Err(r.namespace.error) else Ok(Told(r.namespace.value)))
      else if r.owner.Err? then Err(r.owner.error)
      else
        var ann := r.workload(r.owner.value);
        if ann.Err? then Err(ann.error) else Ok(Told(ann.value))
  }

  /** What the levels decide, and whether the owner is known by then. */
  datatype OptIn = Chosen(name: string, level: Level, known: bool) | NotChosen(refusal: Refusal, known: bool)

  /** The walk from level `i` on, recursing where the level says nothing. */
  function OptInFrom(s: Subject, r: Reader, gating: bool, i: nat): Result<OptIn, Error>
    requires !s.Departed? && i <= 3
    decreases 3 - i
  {
    if i == 3 then Ok(NotChosen(NotOptedIn, true))
    else
      match ReadLevel(s, r, gating, i)
      case Err(e) => Err(e)
      case Ok(Gated(refusal)) => Ok(NotChosen(refusal, !Controlled(s) || i >= 2))
      case Ok(Told(annotations)) =>
        match SaidBy(annotations)
        case Out => Ok(NotChosen(OptedOut, !Controlled(s) || i >= 1))
        case Names(name) => Ok(Chosen(name, LEVELS[i], !Controlled(s) || i >= 1))
        case Silent => OptInFrom(s, r, gating, i + 1)
  }

  /** The workload a subject belongs to, as far as it says or the reader resolves it. */
  function OwnerOf(s: Subject, r: Reader): Result<Owner, Error>
    requires !s.Departed?
  {
    if s.Template? then Ok(s.workload) else if s.controlled then r.owner else Ok(Owner("", ""))
  }

  function ManagedBy(d: Decision, p: Policy, kind: string): Decision {
    var mode := ModeForKind(p.types, kind);
    if mode.None? then d.(refusal := Some(KindNotManaged)) else d.(policy := Some(p), mode := mode)
  }

  function Known(s: Subject, r: Reader, known: bool): Option<Identity>
    requires !s.Departed?
  {
    if known && OwnerOf(s, r).Ok? then Some(IdentityFor(s.namespace, OwnerOf(s, r).value, s.annotations)) else None
  }

  /** The decision as the lazy walk takes it, gated or not. */
  function Walked(s: Subject, r: Reader, gating: bool): Result<Decision, Error> {
    if s.Departed? then
      var d := UNDECIDED.(identity := Some(s.identity));
      if r.policies.Err? then Err(r.policies.error)
      else
        match DepartedConsent(r.policies.value, s.policy, s.identity.namespace)
        case Err(refusal) => Ok(d.(refusal := Some(refusal)))
        case Ok(p) => Ok(ManagedBy(d, p, s.identity.kind))
    else if s.Pod? && !s.controlled && IdentityFor(s.namespace, Owner("", ""), s.annotations).kind == "" then
      Ok(UNDECIDED.(refusal := Some(NoOwner)))
    else
      match OptInFrom(s, r, gating, 0)
      case Err(e) => Err(e)
      case Ok(NotChosen(refusal, known)) => Ok(UNDECIDED.(identity := Known(s, r, known), refusal := Some(refusal)))
      case Ok(Chosen(name, level, known)) =>
        var d := UNDECIDED.(optIn := name, level := level);
        if r.policies.Err? then Err(r.policies.error)
        else
          match Consent(r.policies.value, name, s.namespace, s.labels)
          case Err(refusal) => Ok(d.(identity := Known(s, r, known), refusal := Some(refusal)))
          case Ok(p) =>
            var owner := OwnerOf(s, r);
            if owner.Err? then Err(owner.error)
            else
              var id := IdentityFor(s.namespace, owner.value, s.annotations);
              Ok(ManagedBy(d.(identity := Some(id)), p, id.kind))
  }

  // ---- The eager reference ----

  /** Every method of the reader answers. */
  ghost predicate Total(r: Reader) {
    r.policies.Ok? && r.owner.Ok? && r.namespace.Ok? && forall o :: r.workload(o).Ok?
  }

  /** Every level a subject has, most specific first, all read. */
  ghost function LevelsOf(s: Subject, r: Reader): seq<Annotations>
    requires !s.Departed? && Total(r)
  {
    [s.annotations,
     if s.Template? then s.workloadAnnotations else if s.controlled then r.workload(r.owner.value).value else map[],
     r.namespace.value]
  }

  predicate OptsOut(annotations: Annotations) {
    "k8s.sustain.io/opt-out" in annotations && annotations["k8s.sustain.io/opt-out"] == "true"
  }

  /** An empty name is none. */
  predicate NamesPolicy(annotations: Annotations, name: string) {
    name != "" && "k8s.sustain.io/policy" in annotations && annotations["k8s.sustain.io/policy"] == name
  }

  predicate NamesSome(annotations: Annotations) {
    "k8s.sustain.io/policy" in annotations && annotations["k8s.sustain.io/policy"] != ""
  }

  /** The level names the Policy, no level up to it opts out, and none before it names any. */
  ghost predicate OptsInto(levels: seq<Annotations>, name: string, i: nat) {
    && i < |levels| && NamesPolicy(levels[i], name)
    && (forall j :: 0 <= j <= i ==> !OptsOut(levels[j]))
    && (forall j :: 0 <= j < i ==> !NamesSome(levels[j]))
  }

  /** The first level that opts out or names a Policy opts out, whatever it names besides. */
  ghost predicate OptsOutFirst(levels: seq<Annotations>, i: nat) {
    i < |levels| && OptsOut(levels[i]) && forall j :: 0 <= j < i ==> !OptsOut(levels[j]) && !NamesSome(levels[j])
  }

  lemma SaidMeans(annotations: Annotations, name: string)
    ensures SaidBy(annotations) == Out <==> OptsOut(annotations)
    ensures SaidBy(annotations) == Names(name) <==> NamesPolicy(annotations, name) && !OptsOut(annotations)
    ensures SaidBy(annotations) == Silent <==> !OptsOut(annotations) && !NamesSome(annotations)
  {
  }

  /** The Policy the first level that says anything names accepts the subject, as `p`. */
  ghost predicate Opted(s: Subject, r: Reader, p: Policy)
    requires !s.Departed? && Total(r)
  {
    exists name, i :: OptsInto(LevelsOf(s, r), name, i) && Consent(r.policies.value, name, s.namespace, s.labels) == Ok(p)
  }

  /** With everything read beforehand: the Policy opted into accepts the subject and manages its kind. */
  ghost predicate Governs(s: Subject, r: Reader, p: Policy, mode: Mode, id: Identity)
    requires Total(r)
  {
    if s.Departed? then
      id == s.identity && DepartedConsent(r.policies.value, s.policy, id.namespace) == Ok(p) && ModeForKind(p.types, id.kind) == Some(mode)
    else
      && id == IdentityFor(s.namespace, OwnerOf(s, r).value, s.annotations)
      && (s.Pod? && !s.controlled ==> id.kind != "")
      && Opted(s, r, p)
      && ModeForKind(p.types, id.kind) == Some(mode)
  }

  /** The first level from `i` on that is not silent is `k`, and names the Policy. */
  ghost predicate FirstNamed(levels: seq<Annotations>, i: nat, k: nat, name: string) {
    i <= k < |levels| && SaidBy(levels[k]) == Names(name) && forall j :: i <= j < k ==> SaidBy(levels[j]).Silent?
  }

  lemma FirstNamedStep(levels: seq<Annotations>, i: nat)
    requires i < |levels|
    ensures forall k: nat, name :: FirstNamed(levels, i, k, name) <==>
              if k == i then SaidBy(levels[i]) == Names(name) else SaidBy(levels[i]).Silent? && FirstNamed(levels, i + 1, k, name)
  {
  }

  /** The ungated walk chooses what the first level that is not silent says. */
  lemma {:induction false} UngatedChooses(s: Subject, r: Reader, i: nat)
    requires !s.Departed? && Total(r) && i <= 3
    ensures OptInFrom(s, r, false, i).Ok?
    ensures var o := OptInFrom(s, r, false, i).value;
            && (forall k: nat, name :: FirstNamed(LevelsOf(s, r), i, k, name) ==> o.Chosen? && o.name == name && o.level == LEVELS[k])
            && (o.Chosen? ==> exists k: nat :: FirstNamed(LevelsOf(s, r), i, k, o.name))
    decreases 3 - i
  {
    if i < 3 {
      var levels := LevelsOf(s, r);
      assert ReadLevel(s, r, false, i) == Ok(Told(levels[i]));
      UngatedChooses(s, r, i + 1);
      FirstNamedStep(levels, i);
      var o := OptInFrom(s, r, false, i).value;
      if o.Chosen? {
        if SaidBy(levels[i]).Names? {
          assert FirstNamed(levels, i, i, o.name);
        } else {
          var k: nat :| FirstNamed(levels, i + 1, k, o.name);
          assert FirstNamed(levels, i, k, o.name);
        }
      }
    }
  }

  /** When the gate refuses, the gated walk governs nothing and no Policy would have consented. */
  lemma {:induction false} GateOnlySaves(s: Subject, r: Reader, i: nat)
    requires !s.Departed? && Total(r) && i <= 3
    ensures OptInFrom(s, r, true, i).Ok?
    ensures var refusal := GateRefusal(r.policies.value, s.namespace, s.labels);
            var o, u := OptInFrom(s, r, true, i).value, OptInFrom(s, r, false, i);
            && (refusal.None? ==> u == Ok(o))
            && (o.Chosen? ==> u == Ok(o))
            && (refusal.Some? && u.Ok? && u.value.Chosen? && o.NotChosen? ==>
                  Consent(r.policies.value, u.value.name, s.namespace, s.labels).Err?)
    decreases 3 - i
  {
    var refusal := GateRefusal(r.policies.value, s.namespace, s.labels);
    GateIsSound(r.policies.value, s.namespace, s.labels);
    if i < 3 {
      GateOnlySaves(s, r, i + 1);
      UngatedChooses(s, r, i);
    }
  }

  /**
   * With a reader that answers, the gated walk governs exactly when the ungated one does, with the same Policy in the
   * same mode; and when the gate does not refuse, the whole decision is the same.
   */
  lemma GatedAgrees(s: Subject, r: Reader)
    requires Total(r)
    ensures var g, u := Walked(s, r, true), Walked(s, r, false);
            && g.Ok? && u.Ok?
            && g.value.policy == u.value.policy && g.value.mode == u.value.mode
            && (!s.Departed? && GateRefusal(r.policies.value, s.namespace, s.labels).None? ==> g == u)
            && (g.value.policy.Some? ==> g == u)
  {
    if !s.Departed? {
      GateOnlySaves(s, r, 0);
      UngatedChooses(s, r, 0);
    }
  }

  lemma ChosenIsOptedInto(s: Subject, r: Reader, name: string)
    requires !s.Departed? && Total(r)
    ensures var o := OptInFrom(s, r, false, 0);
            o.Ok? && (o.value.Chosen? && o.value.name == name <==> exists i :: OptsInto(LevelsOf(s, r), name, i))
  {
    UngatedChooses(s, r, 0);
    var levels := LevelsOf(s, r);
    forall k: nat ensures FirstNamed(levels, 0, k, name) <==> OptsInto(levels, name, k) {
      FirstNamedMeans(levels, k, name);
    }
  }

  lemma FirstNamedMeans(levels: seq<Annotations>, k: nat, name: string)
    ensures FirstNamed(levels, 0, k, name) <==> OptsInto(levels, name, k)
  {
    forall j | 0 <= j < |levels|
      ensures SaidBy(levels[j]).Silent? <==> !OptsOut(levels[j]) && !NamesSome(levels[j])
      ensures SaidBy(levels[j]) == Names(name) <==> NamesPolicy(levels[j], name) && !OptsOut(levels[j])
    {
      SaidMeans(levels[j], name);
    }
  }

  /** The ungated walk refuses a subject as opted out exactly when its first level to say anything opts out. */
  lemma {:induction false} OptedOutFrom(s: Subject, r: Reader, i: nat)
    requires !s.Departed? && Total(r) && i <= 3
    ensures OptInFrom(s, r, false, i).Ok?
    ensures var o := OptInFrom(s, r, false, i).value;
            && (o.NotChosen? ==> o.refusal in {OptedOut, NotOptedIn})
            && (o.NotChosen? && o.refusal == OptedOut <==> exists k: nat :: OutFirstFrom(LevelsOf(s, r), i, k))
    decreases 3 - i
  {
    if i < 3 {
      var levels := LevelsOf(s, r);
      assert ReadLevel(s, r, false, i) == Ok(Told(levels[i]));
      OptedOutFrom(s, r, i + 1);
      OutFirstStep(levels, i);
      if SaidBy(levels[i]).Out? {
        assert OutFirstFrom(levels, i, i);
      } else if SaidBy(levels[i]).Silent? {
        var next := i + 1;
        forall k: nat | OutFirstFrom(levels, next, k) ensures OutFirstFrom(levels, i, k) {
          OutFirstLater(levels, i, k);
        }
      }
    }
  }

  ghost predicate OutFirstFrom(levels: seq<Annotations>, i: nat, k: nat) {
    i <= k < |levels| && SaidBy(levels[k]).Out? && forall j :: i <= j < k ==> SaidBy(levels[j]).Silent?
  }

  lemma OutFirstStep(levels: seq<Annotations>, i: nat)
    requires i < |levels|
    ensures forall k: nat :: OutFirstFrom(levels, i, k) <==>
              if k == i then SaidBy(levels[i]).Out? else SaidBy(levels[i]).Silent? && OutFirstFrom(levels, i + 1, k)
  {
  }

  lemma OutFirstLater(levels: seq<Annotations>, i: nat, k: nat)
    requires i < |levels| && SaidBy(levels[i]).Silent? && OutFirstFrom(levels, i + 1, k)
    ensures OutFirstFrom(levels, i, k)
  {
  }

  lemma OutFirstMeans(levels: seq<Annotations>, k: nat)
    ensures OutFirstFrom(levels, 0, k) <==> OptsOutFirst(levels, k)
  {
    forall j | 0 <= j < |levels|
      ensures SaidBy(levels[j]).Silent? <==> !OptsOut(levels[j]) && !NamesSome(levels[j])
      ensures SaidBy(levels[j]).Out? <==> OptsOut(levels[j])
    {
      SaidMeans(levels[j], "");
    }
  }

  /** What a subject's annotations decide, its own levels read out. */
  ghost function Levels(s: Subject, r: Reader): seq<Annotations>
    requires !s.Departed? && Total(r)
  {
    if s.Template? then [s.annotations, s.workloadAnnotations, r.namespace.value]
    else if s.controlled then [s.annotations, r.workload(r.owner.value).value, r.namespace.value]
    else [s.annotations, map[], r.namespace.value]
  }

  /** What a subject opts into is reported with the level that names it, most specific first. */
  lemma OptInIsReported(s: Subject, r: Reader, name: string, i: nat)
    requires !s.Departed? && Total(r) && OptsInto(Levels(s, r), name, i)
    requires Walked(s, r, false).Ok? && Walked(s, r, false).value.refusal != Some(NoOwner)
    ensures var d := Walked(s, r, false).value;
            d.optIn == name && d.level == if i == 0 then LevelPodTemplate else if i == 1 then LevelWorkload else LevelNamespace
  {
    assert LevelsOf(s, r) == Levels(s, r);
    FirstNamedMeans(LevelsOf(s, r), i, name);
    UngatedChooses(s, r, 0);
  }

  /**
   * A decision reports the identity of the real owner, unless that was never resolved: a controlled pod's whose own
   * template opted out, named a Policy that refused, or was silent where the gate refused.
   */
  lemma IdentityIsReported(s: Subject, r: Reader, gating: bool)
    requires !s.Departed? && Total(r)
    requires Walked(s, r, gating).Ok? && Walked(s, r, gating).value.refusal != Some(NoOwner)
    ensures var d := Walked(s, r, gating).value;
            && (d.identity.Some? ==> IdentifiedAs(s, r, d.identity.value))
            && (d.identity.None? <==>
                  && s.Pod? && s.controlled
                  && (|| OptsOut(s.annotations)
                      || (NamesSome(s.annotations) && d.policy.None? && d.refusal != Some(KindNotManaged))
                      || (!NamesSome(s.annotations) && gating && GateRefusal(r.policies.value, s.namespace, s.labels).Some?)))
  {
    SaidMeans(s.annotations, "");
    LaterLevelsKnow(s, r, gating);
    ConsentNeverOptsOut(s, r);
  }

  /** From the workload level on the owner is known, the gate's refusal there aside. */
  lemma LaterLevelsKnow(s: Subject, r: Reader, gating: bool)
    requires !s.Departed? && Total(r)
    ensures OptInFrom(s, r, gating, 1).Ok?
    ensures OptInFrom(s, r, gating, 1).value.known <==>
            !(Controlled(s) && gating && GateRefusal(r.policies.value, s.namespace, s.labels).Some?)
  {
    assert OptInFrom(s, r, gating, 3) == Ok(NotChosen(NotOptedIn, true));
    assert OptInFrom(s, r, gating, 2).Ok? && OptInFrom(s, r, gating, 2).value.known;
  }

  /**
   * The walk refuses as opted out exactly where the first level with either annotation opts out, a pod of no identity
   * aside; the gate may refuse it first.
   */
  lemma OptedOutExactly(s: Subject, r: Reader)
    requires !s.Departed? && Total(r) && Walked(s, r, false).Ok?
    ensures Walked(s, r, false).value.refusal == Some(OptedOut) <==>
              && Walked(s, r, false).value.refusal != Some(NoOwner)
              && exists i: nat :: OptsOutFirst(Levels(s, r), i)
    ensures Walked(s, r, true).Ok? && Walked(s, r, true).value.refusal == Some(OptedOut) ==>
              exists i: nat :: OptsOutFirst(Levels(s, r), i)
  {
    OptedOutFrom(s, r, 0);
    var levels := LevelsOf(s, r);
    assert levels == Levels(s, r);
    forall k: nat ensures OutFirstFrom(levels, 0, k) <==> OptsOutFirst(levels, k) {
      OutFirstMeans(levels, k);
    }
    ConsentNeverOptsOut(s, r);
    GatedOptsOut(s, r);
  }

  lemma ConsentNeverOptsOut(s: Subject, r: Reader)
    requires !s.Departed? && Total(r)
    ensures forall name :: var c := Consent(r.policies.value, name, s.namespace, s.labels);
              c.Err? ==> c.error !in {OptedOut, NoOwner}
  {
  }

  lemma {:induction false} GatedOptOut(s: Subject, r: Reader, i: nat)
    requires !s.Departed? && Total(r) && i <= 3
    ensures OptInFrom(s, r, true, i).Ok?
    ensures var o := OptInFrom(s, r, true, i).value;
            o.NotChosen? && o.refusal == OptedOut ==> OptInFrom(s, r, false, i) == Ok(o)
    decreases 3 - i
  {
    if i < 3 {
      GatedOptOut(s, r, i + 1);
    }
  }

  lemma GatedOptsOut(s: Subject, r: Reader)
    requires !s.Departed? && Total(r)
    ensures var g, u := Walked(s, r, true), Walked(s, r, false);
            g.Ok? && (g.value.refusal == Some(OptedOut) ==> g == u)
  {
    GatedOptOut(s, r, 0);
    ConsentNeverOptsOut(s, r);
    GatedAgrees(s, r);
  }

  /** `id` is the subject's own, its workload's or its controller's as the override names it. */
  ghost predicate IdentifiedAs(s: Subject, r: Reader, id: Identity)
    requires !s.Departed? && Total(r)
  {
    id == IdentityFor(s.namespace, if s.Template? then s.workload else if s.controlled then r.owner.value else Owner("", ""), s.annotations)
  }

  /**
   * A live subject is governed exactly by the Policy the first of its levels to name one names, no level up to it opting
   * out, where that Policy accepts its namespace and labels and manages the kind of its identity.
   */
  lemma GovernedExactly(s: Subject, r: Reader, p: Policy, mode: Mode, id: Identity)
    requires !s.Departed? && Total(r)
    requires forall n :: n in r.policies.value.byName ==> r.policies.value.byName[n] == Compile(r.policies.value.byName[n].policy)
    ensures Walked(s, r, true).Ok?
    ensures var d, ps := Walked(s, r, true).value, r.policies.value;
            d.policy == Some(p) && d.mode == Some(mode) && d.identity == Some(id) <==>
              && IdentifiedAs(s, r, id) && (s.Pod? && !s.controlled ==> id.kind != "")
              && Manages(p.types, id.kind, mode)
              && exists name, i :: OptsInto(Levels(s, r), name, i) && Accepts(ps, name, s.namespace, s.labels, p)
  {
    WalkIsEager(s, r, p, mode, id);
    assert LevelsOf(s, r) == Levels(s, r);
    ModeMeans(p.types, id.kind, mode);
    forall name ensures Consent(r.policies.value, name, s.namespace, s.labels) == Ok(p) <==>
                        Accepts(r.policies.value, name, s.namespace, s.labels, p)
    {
      ConsentMeans(r.policies.value, name, s.namespace, s.labels, p);
    }
  }

  lemma ChosenIsOpted(s: Subject, r: Reader, p: Policy)
    requires !s.Departed? && Total(r)
    ensures var o := OptInFrom(s, r, false, 0);
            o.Ok? && (Opted(s, r, p) <==> o.value.Chosen? && Consent(r.policies.value, o.value.name, s.namespace, s.labels) == Ok(p))
  {
    UngatedChooses(s, r, 0);
    var o := OptInFrom(s, r, false, 0).value;
    if o.Chosen? {
      ChosenIsOptedInto(s, r, o.name);
    }
    if Opted(s, r, p) {
      var name, i: nat :| OptsInto(LevelsOf(s, r), name, i) && Consent(r.policies.value, name, s.namespace, s.labels) == Ok(p);
      ChosenIsOptedInto(s, r, name);
    }
  }

  lemma UngatedIsEager(s: Subject, r: Reader, p: Policy, mode: Mode, id: Identity)
    requires !s.Departed? && Total(r)
    ensures Walked(s, r, false).Ok?
    ensures var d := Walked(s, r, false).value;
            Governs(s, r, p, mode, id) <==> d.policy == Some(p) && d.mode == Some(mode) && d.identity == Some(id)
  {
    ChosenIsOpted(s, r, p);
  }

  /** The lazy walk is the eager decision: it names a Policy, mode and identity exactly when they govern. */
  lemma WalkIsEager(s: Subject, r: Reader, p: Policy, mode: Mode, id: Identity)
    requires Total(r)
    ensures Walked(s, r, true).Ok?
    ensures var d := Walked(s, r, true).value;
            Governs(s, r, p, mode, id) <==> d.policy == Some(p) && d.mode == Some(mode) && d.identity == Some(id)
  {
    if !s.Departed? {
      GatedAgrees(s, r);
      UngatedIsEager(s, r, p, mode, id);
    }
  }

  /** A decision governs or says why not. */
  lemma DecidedOrRefused(s: Subject, r: Reader, gating: bool)
    requires Walked(s, r, gating).Ok?
    ensures var d := Walked(s, r, gating).value;
            && (d.policy.Some? <==> d.refusal.None?) && (d.policy.Some? <==> d.mode.Some?)
            && (d.policy.Some? ==> d.identity.Some? && ModeForKind(d.policy.value.types, d.identity.value.kind) == d.mode)
  {
  }

  // ---- A pod and its template ----

  predicate SameValue(a: Annotations, b: Annotations, key: string) {
    (key in a <==> key in b) && (key in a ==> a[key] == b[key])
  }

  /** The pod runs the template: it carries its annotations and its labels, those controllers add aside. */
  ghost predicate Runs(pod: Subject, template: Subject, r: Reader) {
    && Controlled(pod) && template.Template?
    && pod.namespace == template.namespace
    && (forall k :: k in {POLICY_ANNOTATION, OWNER_NAME_ANNOTATION, OPT_OUT_ANNOTATION} ==>
          SameValue(pod.annotations, template.annotations, k))
    && (forall k :: k !in RESERVED_LABELS ==> SameValue(pod.labels, template.labels, k))
    && (r.owner.Ok? ==> r.owner.value == template.workload)
    && (r.workload(template.workload).Ok? ==> r.workload(template.workload).value == template.workloadAnnotations)
  }

  /** No selector uses a label controllers add, as Policy validation enforces. */
  ghost predicate SparesReserved(ps: PolicySet) {
    forall n, k :: n in ps.byName && ps.byName[n].selector.Some? && Mentions(ps.byName[n].selector.value, k) ==> k !in RESERVED_LABELS
  }

  /** The reader with an answer wherever it has none. */
  ghost function Answering(r: Reader, owner: Owner, annotations: Annotations): (a: Reader)
    ensures Total(a)
  {
    Reader(if r.policies.Ok? then r.policies else Ok(PolicySet(map[], [])),
           if r.owner.Ok? then r.owner else Ok(owner),
           o => if r.workload(o).Ok? then r.workload(o) else Ok(annotations),
           if r.namespace.Ok? then r.namespace else Ok(map[]))
  }

  lemma {:induction false} AnsweredWalk(s: Subject, r: Reader, owner: Owner, annotations: Annotations, i: nat)
    requires !s.Departed? && i <= 3 && OptInFrom(s, r, true, i).Ok?
    ensures OptInFrom(s, Answering(r, owner, annotations), true, i) == OptInFrom(s, r, true, i)
    decreases 3 - i
  {
    if i < 3 {
      assert ReadLevel(s, r, true, i).Ok?;
      assert ReadLevel(s, Answering(r, owner, annotations), true, i) == ReadLevel(s, r, true, i);
      if OptInFrom(s, r, true, i) == OptInFrom(s, r, true, i + 1) {
        AnsweredWalk(s, r, owner, annotations, i + 1);
      }
    }
  }

  /** A decision taken never depended on an answer that failed. */
  lemma AnsweredDecision(s: Subject, r: Reader, owner: Owner, annotations: Annotations)
    requires Walked(s, r, true).Ok?
    ensures var d, a := Walked(s, r, true).value, Walked(s, Answering(r, owner, annotations), true).value;
            d.policy == a.policy && d.mode == a.mode && (d.policy.Some? ==> d == a)
  {
    if !s.Departed? {
      AnsweredWalkStart(s, r, owner, annotations);
    }
  }

  lemma AnsweredWalkStart(s: Subject, r: Reader, owner: Owner, annotations: Annotations)
    requires !s.Departed?
    ensures OptInFrom(s, r, true, 0).Ok? ==> OptInFrom(s, Answering(r, owner, annotations), true, 0) == OptInFrom(s, r, true, 0)
  {
    if OptInFrom(s, r, true, 0).Ok? {
      AnsweredWalk(s, r, owner, annotations, 0);
    }
  }

  lemma SelectedAlike(ps: PolicySet, name: string, pod: Subject, template: Subject, r: Reader)
    requires Runs(pod, template, r) && SparesReserved(ps)
    ensures Consent(ps, name, pod.namespace, pod.labels) == Consent(ps, name, template.namespace, template.labels)
  {
    if name in ps.byName && ps.byName[name].selector.Some? {
      var ls := ps.byName[name].selector.value;
      forall k | Mentions(ls, k) ensures SameValue(pod.labels, template.labels, k) {
        assert k !in RESERVED_LABELS;
      }
      MatchedAlike(ls, pod.labels, template.labels);
    }
  }

  lemma SaysAlike(a: Annotations, b: Annotations)
    requires forall k :: k in {POLICY_ANNOTATION, OWNER_NAME_ANNOTATION, OPT_OUT_ANNOTATION} ==> SameValue(a, b, k)
    ensures SaidBy(a) == SaidBy(b) && forall o :: Overridden(o, a) == Overridden(o, b)
  {
    assert SameValue(a, b, POLICY_ANNOTATION) && SameValue(a, b, OWNER_NAME_ANNOTATION) && SameValue(a, b, OPT_OUT_ANNOTATION);
  }

  lemma OptedAlike(pod: Subject, template: Subject, r: Reader, p: Policy)
    requires Total(r) && Runs(pod, template, r) && SparesReserved(r.policies.value)
    ensures Opted(pod, r, p) <==> Opted(template, r, p)
  {
    SaysAlike(pod.annotations, template.annotations);
    var a, b := LevelsOf(pod, r), LevelsOf(template, r);
    assert a[1] == b[1] && a[2] == b[2] && SaidBy(a[0]) == SaidBy(b[0]);
    forall name, i: nat ensures OptsInto(a, name, i) <==> OptsInto(b, name, i) {
    }
    if Opted(pod, r, p) {
      var name, i: nat :| OptsInto(a, name, i) && Consent(r.policies.value, name, pod.namespace, pod.labels) == Ok(p);
      SelectedAlike(r.policies.value, name, pod, template, r);
      assert OptsInto(b, name, i);
    }
    if Opted(template, r, p) {
      var name, i: nat :| OptsInto(b, name, i) && Consent(r.policies.value, name, template.namespace, template.labels) == Ok(p);
      SelectedAlike(r.policies.value, name, pod, template, r);
      assert OptsInto(a, name, i);
    }
  }

  lemma GovernedAlikeByAnswers(pod: Subject, template: Subject, r: Reader, p: Policy, mode: Mode, id: Identity)
    requires Total(r) && Runs(pod, template, r) && SparesReserved(r.policies.value)
    ensures Governs(pod, r, p, mode, id) <==> Governs(template, r, p, mode, id)
  {
    SaysAlike(pod.annotations, template.annotations);
    OptedAlike(pod, template, r, p);
  }

  /**
   * A pod and the template it runs, both decided, are governed by the same Policy, in the same mode and under the same
   * identity, or neither is governed.
   */
  lemma PodAndTemplateAlike(pod: Subject, template: Subject, r: Reader)
    requires Runs(pod, template, r) && (r.policies.Ok? ==> SparesReserved(r.policies.value))
    requires Walked(pod, r, true).Ok? && Walked(template, r, true).Ok?
    ensures var d, e := Walked(pod, r, true).value, Walked(template, r, true).value;
            d.policy == e.policy && d.mode == e.mode && (d.policy.Some? ==> d.identity == e.identity)
  {
    var a := Answering(r, template.workload, template.workloadAnnotations);
    assert Runs(pod, template, a);
    AnsweredDecision(pod, r, template.workload, template.workloadAnnotations);
    AnsweredDecision(template, r, template.workload, template.workloadAnnotations);
    GovernedAlike(pod, template, a);
  }

  lemma GovernedAlike(pod: Subject, template: Subject, r: Reader)
    requires Total(r) && Runs(pod, template, r) && SparesReserved(r.policies.value)
    ensures Walked(pod, r, true).Ok? && Walked(template, r, true).Ok?
    ensures var d, e := Walked(pod, r, true).value, Walked(template, r, true).value;
            d.policy == e.policy && d.mode == e.mode && (d.policy.Some? ==> d.identity == e.identity)
  {
    GatedAgrees(pod, r);
    GatedAgrees(template, r);
    var d, e := Walked(pod, r, true).value, Walked(template, r, true).value;
    DecidedOrRefused(pod, r, true);
    DecidedOrRefused(template, r, true);
    if d.policy.Some? {
      WalkIsEager(pod, r, d.policy.value, d.mode.value, d.identity.value);
      GovernedAlikeByAnswers(pod, template, r, d.policy.value, d.mode.value, d.identity.value);
      WalkIsEager(template, r, d.policy.value, d.mode.value, d.identity.value);
    }
    if e.policy.Some? {
      WalkIsEager(template, r, e.policy.value, e.mode.value, e.identity.value);
      GovernedAlikeByAnswers(pod, template, r, e.policy.value, e.mode.value, e.identity.value);
      WalkIsEager(pod, r, e.policy.value, e.mode.value, e.identity.value);
    }
  }

  // ---- The walk ----

  datatype Call = PoliciesCall | OwnerCall | WorkloadCall | NamespaceCall

  /** A call to the reader is in the log once or not at all. */
  ghost predicate AtMostOnceEach(calls: seq<Call>) {
    forall i, j :: 0 <= i < j < |calls| ==> calls[i] != calls[j]
  }

  lemma OneMoreCall(calls: seq<Call>, c: Call)
    requires AtMostOnceEach(calls) && c !in calls
    ensures AtMostOnceEach(calls + [c]) && forall d :: d in calls + [c] <==> d in calls || d == c
  {
  }

  class Walk {
    const s: Subject
    const r: Reader
    var policies: Option<PolicySet>
    var gated: bool
    var ownerKnown: bool
    var owner: Owner
    ghost var calls: seq<Call>

    /** What is memoised is what the reader said, and nothing memoised is asked for again. */
    ghost predicate Valid()
      reads this
    {
      && !s.Departed?
      && AtMostOnceEach(calls)
      && (policies.Some? <==> PoliciesCall in calls) && (policies.Some? ==> r.policies == Ok(policies.value))
      && (ownerKnown ==> OwnerOf(s, r) == Ok(owner))
      && (!Controlled(s) ==> ownerKnown) && (Controlled(s) ==> (ownerKnown <==> OwnerCall in calls))
      && (gated ==> policies.Some? && GateRefusal(policies.value, s.namespace, s.labels).None?)
    }

    constructor (s: Subject, r: Reader)
      requires !s.Departed?
      ensures Valid() && this.s == s && this.r == r && calls == [] && policies.None? && !gated && (ownerKnown <==> !Controlled(s))
    {
      this.s, this.r := s, r;
      policies, gated, calls := None, false, [];
      ownerKnown := s.Template? || !s.controlled;
      owner := if s.Template? then s.workload else Owner("", "");
    }

    method ReadPolicies() returns (ps: Result<PolicySet, Error>)
      requires Valid()
      modifies this`policies, this`calls
      ensures ps == r.policies && (ps.Ok? ==> Valid()) && AtMostOnceEach(calls)
      ensures forall c :: c in calls <==> c in old(calls) || c == PoliciesCall
      ensures ps.Ok? ==> policies == Some(ps.value)
    {
      if policies.Some? {
        return Ok(policies.value);
      }
      OneMoreCall(calls, PoliciesCall);
      calls := calls + [PoliciesCall];
      ps := r.policies;
      if ps.Ok? {
        policies := Some(ps.value);
      }
    }

    method ReadOwner() returns (err: Option<Error>)
      requires Valid()
      modifies this`ownerKnown, this`owner, this`calls
      ensures AtMostOnceEach(calls)
      ensures forall c :: c in calls ==> c in old(calls) || c == OwnerCall
      ensures forall c :: c in old(calls) ==> c in calls
      ensures err.None? ==> Valid() && ownerKnown && OwnerOf(s, r) == Ok(owner)
      ensures err.Some? ==> OwnerOf(s, r) == Err(err.value)
    {
      if ownerKnown {
        return None;
      }
      OneMoreCall(calls, OwnerCall);
      calls := calls + [OwnerCall];
      if r.owner.Err? {
        return Some(r.owner.error);
      }
      ownerKnown, owner := true, r.owner.value;
      err := None;
    }

    /** Refuses a subject no Policy could select, once; a walk that passed it is not gated again. */
    method Gate() returns (refusal: Result<Option<Refusal>, Error>)
      requires Valid()
      modifies this`policies, this`gated, this`calls
      ensures refusal == GateOf(s, r, true) && AtMostOnceEach(calls)
      ensures forall c :: c in calls <==> c in old(calls) || c == PoliciesCall
      ensures refusal == Ok(None) ==> Valid()
      ensures refusal.Ok? ==> policies.Some?
    {
      if gated {
        return Ok(None);
      }
      var ps := ReadPolicies();
      if ps.Err? {
        return Err(ps.error);
      }
      var g := FindGateRefusal(ps.value, s.namespace, s.labels);
      gated := true;
      refusal := Ok(g);
    }

    method WorkloadAnnotations() returns (read: Result<LevelRead, Error>)
      requires Valid() && WorkloadCall !in calls
      modifies this`policies, this`gated, this`ownerKnown, this`owner, this`calls
      ensures read == ReadLevel(s, r, true, 1) && AtMostOnceEach(calls)
      ensures read.Ok? && read.value.Told? ==> Valid() && (Controlled(s) ==> ownerKnown)
      ensures read.Ok? && read.value.Gated? ==> Controlled(s) && ownerKnown == old(ownerKnown) && owner == old(owner)
      ensures forall c :: c in calls ==> c in old(calls) || c == PoliciesCall || c == OwnerCall || c == WorkloadCall
    {
      if s.Template? {
        return Ok(Told(s.workloadAnnotations));
      }
      if ownerKnown && !s.controlled {
        return Ok(Told(map[]));
      }
      var gate := Gate();
      if gate.Err? {
        return Err(gate.error);
      }
      if gate.value.Some? {
        return Ok(Gated(gate.value.value));
      }
      var err := ReadOwner();
      if err.Some? {
        return Err(err.value);
      }
      OneMoreCall(calls, WorkloadCall);
      calls := calls + [WorkloadCall];
      var ann := r.workload(owner);
      read := if ann.Err? then Err(ann.error) else Ok(Told(ann.value));
    }

    method NamespaceAnnotations() returns (read: Result<LevelRead, Error>)
      requires Valid() && NamespaceCall !in calls
      modifies this`policies, this`gated, this`calls
      ensures read == ReadLevel(s, r, true, 2) && AtMostOnceEach(calls)
      ensures read.Ok? && read.value.Told? ==> Valid()
      ensures forall c :: c in calls ==> c in old(calls) || c == PoliciesCall || c == NamespaceCall
    {
      var gate := Gate();
      if gate.Err? {
        return Err(gate.error);
      }
      if gate.value.Some? {
        return Ok(Gated(gate.value.value));
      }
      OneMoreCall(calls, NamespaceCall);
      calls := calls + [NamespaceCall];
      read := if r.namespace.Err? then Err(r.namespace.error) else Ok(Told(r.namespace.value));
    }

    method Read(i: nat) returns (read: Result<LevelRead, Error>)
      requires Valid() && i < 3 && (i <= 1 ==> WorkloadCall !in calls) && NamespaceCall !in calls
      modifies this`policies, this`gated, this`ownerKnown, this`owner, this`calls
      ensures read == ReadLevel(s, r, true, i) && AtMostOnceEach(calls)
      ensures read.Ok? && read.value.Told? ==> Valid() && (i == 1 && Controlled(s) ==> ownerKnown)
      ensures i != 1 || (read.Ok? && read.value.Gated?) ==> ownerKnown == old(ownerKnown) && owner == old(owner)
      ensures i == 0 ==> calls == old(calls)
      ensures i <= 1 ==> NamespaceCall !in calls
    {
      if i == 0 {
        read := Ok(Told(s.annotations));
      } else if i == 1 {
        read := WorkloadAnnotations();
      } else {
        read := NamespaceAnnotations();
      }
    }

    /** `OptInFrom` unrolled into a loop that stops where it stops. */
    method OptIn() returns (o: Result<OptIn, Error>)
      requires Valid() && calls == [] && (ownerKnown <==> !Controlled(s))
      modifies this`policies, this`gated, this`ownerKnown, this`owner, this`calls
      ensures o == OptInFrom(s, r, true, 0) && AtMostOnceEach(calls)
      ensures o.Ok? ==> (o.value.known <==> ownerKnown) && (ownerKnown ==> OwnerOf(s, r) == Ok(owner))
      ensures o.Ok? && o.value.Chosen? ==> Valid()
    {
      for i := 0 to 3
        invariant Valid() && OptInFrom(s, r, true, i) == OptInFrom(s, r, true, 0)
        invariant (i <= 1 ==> WorkloadCall !in calls) && (i <= 2 ==> NamespaceCall !in calls)
        invariant if i <= 1 then ownerKnown <==> !Controlled(s) else ownerKnown
      {
        var read := Read(i);
        if read.Err? {
          return Err(read.error);
        }
        if read.value.Gated? {
          return Ok(NotChosen(read.value.refusal, ownerKnown));
        }
        var annotations := read.value.annotations;
        if ValueOf(annotations, OPT_OUT_ANNOTATION) == "true" {
          return Ok(NotChosen(OptedOut, ownerKnown));
        }
        var name := ValueOf(annotations, POLICY_ANNOTATION);
        if name != "" {
          return Ok(Chosen(name, LEVELS[i], ownerKnown));
        }
      }
      o := Ok(NotChosen(NotOptedIn, ownerKnown));
    }

    /** The decision before the identity is filled in. */
    method DecideWalk() returns (d: Result<Decision, Error>)
      requires Valid() && calls == [] && (ownerKnown <==> !Controlled(s))
      requires !(s.Pod? && !s.controlled && IdentityFor(s.namespace, Owner("", ""), s.annotations).kind == "")
      modifies this`policies, this`gated, this`ownerKnown, this`owner, this`calls
      ensures d == Walked(s, r, true) && AtMostOnceEach(calls)
    {
      var o := OptIn();
      if o.Err? {
        return Err(o.error);
      }
      if o.value.NotChosen? {
        d := Ok(Identified(UNDECIDED.(refusal := Some(o.value.refusal))));
        return;
      }
      var start := UNDECIDED.(optIn := o.value.name, level := o.value.level);
      var ps := ReadPolicies();
      if ps.Err? {
        return Err(ps.error);
      }
      var consent := Consent(ps.value, o.value.name, s.namespace, s.labels);
      if consent.Err? {
        d := Ok(Identified(start.(refusal := Some(consent.error))));
        return;
      }
      var err := ReadOwner();
      if err.Some? {
        return Err(err.value);
      }
      d := Ok(ManagedBy(Identified(start), consent.value, IdentityFor(s.namespace, owner, s.annotations).kind));
    }

    function Identified(d: Decision): Decision
      requires !s.Departed?
      reads this
    {
      if ownerKnown then d.(identity := Some(IdentityFor(s.namespace, owner, s.annotations))) else d
    }
  }

  /** Decides as the walk says, calling each of the reader's methods at most once and passing its errors on. */
  method Decide(s: Subject, r: Reader) returns (d: Result<Decision, Error>, ghost calls: seq<Call>)
    ensures d == Walked(s, r, true) && AtMostOnceEach(calls)
  {
    calls := [];
    if s.Departed? {
      calls := [PoliciesCall];
      if r.policies.Err? {
        return Err(r.policies.error), calls;
      }
      var consent := DepartedConsent(r.policies.value, s.policy, s.identity.namespace);
      var start := UNDECIDED.(identity := Some(s.identity));
      if consent.Err? {
        return Ok(start.(refusal := Some(consent.error))), calls;
      }
      return Ok(ManagedBy(start, consent.value, s.identity.kind)), calls;
    }
    if s.Pod? && !s.controlled && IdentityFor(s.namespace, Owner("", ""), s.annotations).kind == "" {
      return Ok(UNDECIDED.(refusal := Some(NoOwner))), calls;
    }
    var w := new Walk(s, r);
    d := w.DecideWalk();
    calls := w.calls;
  }

  /** Any error is one of the reader's own. */
  lemma ErrorsArePassedOn(s: Subject, r: Reader)
    requires Walked(s, r, true).Err?
    ensures var e := Walked(s, r, true).error;
            || r.policies == Err(e) || r.owner == Err(e) || r.namespace == Err(e)
            || (r.owner.Ok? && r.workload(r.owner.value) == Err(e))
  {
    if !s.Departed? {
      WalkErrors(s, r, 0);
    }
  }

  lemma {:induction false} WalkErrors(s: Subject, r: Reader, i: nat)
    requires !s.Departed? && i <= 3
    ensures var o := OptInFrom(s, r, true, i);
            o.Err? ==> (|| r.policies == Err(o.error) || r.owner == Err(o.error) || r.namespace == Err(o.error)
                        || (r.owner.Ok? && r.workload(r.owner.value) == Err(o.error)))
    decreases 3 - i
  {
    if i < 3 {
      WalkErrors(s, r, i + 1);
    }
  }

  // ---- Departed identities ----

  /** For a Departed subject the whole walk comes to one lookup and four conditions on what it finds. */
  lemma DepartedIsGoverned(s: Subject, r: Reader, p: Policy, mode: Mode)
    requires s.Departed? && r.policies.Ok?
    requires forall n :: n in r.policies.value.byName ==> r.policies.value.byName[n] == Compile(r.policies.value.byName[n].policy)
    ensures Walked(s, r, true).Ok?
    ensures Walked(s, r, true).value.identity == Some(s.identity)
    ensures Walked(s, r, true).value.policy == Some(p) && Walked(s, r, true).value.mode == Some(mode) <==>
              var ps := r.policies.value;
              && s.policy in ps.byName && p == ps.byName[s.policy].policy
              && s.identity.namespace !in ps.excluded && (p.namespaces == [] || s.identity.namespace in p.namespaces)
              && (p.selector.None? || Parses(p.selector.value))
              && Manages(p.types, s.identity.kind, mode)
  {
    ModeMeans(p.types, s.identity.kind, mode);
    ConsentMeans(r.policies.value, s.policy, s.identity.namespace, map[], p);
  }
}
