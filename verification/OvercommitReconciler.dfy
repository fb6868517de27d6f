/** OvercommitReconciler.Reconcile and the label map its three deployment generators share
    (internal/controller/overcommit/overcommit_controller.go,
    internal/resources/generate_resources_validating_webhooks.go,
    internal/resources/generate_resources_overcommit_class_controller_controller.go).

    A Go map is a reference: a generator writes "app" into the map of the Overcommit it is given, and the
    deployment it returns holds the same map. Objects in memory are therefore classes here; what the API
    server stores are values. */
module OvercommitReconciler {
  import opened Wrappers
  import opened Api
  import opened Comparators
  import opened Generators
  import opened ClassState
  import opened ClassReconciler
  import opened Answers

  // ---------- The three deployments ----------

  datatype Kind = ClassValidator | PodValidator | ClassController

  function NameOf(kind: Kind): string {
    match kind
    case ClassValidator => "k8s-overcommit-class-validating-webhook"
    case PodValidator => "k8s-overcommit-pod-validating-webhook"
    case ClassController => "k8s-overcommit-overcommitclass-controller"
  }

  /** The value of the label "app", also the name of the container. */
  function AppOf(kind: Kind): string {
    if kind.ClassController? then "overcommit-controller" else NameOf(kind)
  }

  function SelectorOf(kind: Kind): StringMap {
    map["app" := AppOf(kind)]
  }

  function SecretOf(kind: Kind): string {
    match kind
    case ClassValidator => "oc-validating-webhook"
    case PodValidator => "pod-validating-webhook"
    case ClassController => ""
  }

  function EnvOf(kind: Kind, env: Environment): seq<EnvVar> {
    var images := [EnvVar("IMAGE_REGISTRY", env.imageRegistry, None),
                   EnvVar("IMAGE_REPOSITORY", env.imageRepository, None),
                   EnvVar("APP_VERSION", env.appVersion, None)];
    var certificates := EnvVar("WEBHOOK_CERT_DIR", "/etc/webhook/config", None);
    var account := EnvVar("SERVICE_ACCOUNT_NAME", env.serviceAccount, None);
    var namespace := EnvVar("POD_NAMESPACE", env.podNamespace, None);
    var podName := EnvVar("POD_NAME", "", Some("metadata.name"));
    match kind
    case ClassValidator =>
      [EnvVar("ENABLE_OC_VALIDATING_WEBHOOK", "true", None)] + images + [certificates, podName, namespace]
    case PodValidator =>
      [EnvVar("ENABLE_POD_VALIDATING_WEBHOOK", "true", None)] + images + [certificates, account, namespace, podName]
    case ClassController =>
      [EnvVar("ENABLE_OVERCOMMIT_CLASS_CONTROLLER", "true", None)] + images + [namespace, account, podName]
  }

  function ContainersOf(kind: Kind, env: Environment): seq<Container> {
    [Container(AppOf(kind), Image(env), EnvOf(kind, env))]
  }

  // ---------- Stored objects ----------

  datatype OvercommitSpec = OvercommitSpec(
    podLabel: string,
    labels: Option<StringMap>,
    annotations: Option<StringMap>,
    nodeSelector: Option<StringMap>,
    tolerations: Option<seq<Toleration>>)

  datatype StoredOvercommit = StoredOvercommit(version: nat, uid: string, finalizers: seq<string>, spec: OvercommitSpec)

  datatype StoredDeployment = StoredDeployment(version: nat, deployment: Deployment)

  /** An empty map or list is left out when the operator writes the object back. */
  function NormalSpec(s: OvercommitSpec): OvercommitSpec {
    s.(labels := NormalMap(s.labels),
       annotations := NormalMap(s.annotations),
       nodeSelector := NormalMap(s.nodeSelector),
       tolerations := if s.tolerations == Some([]) then None else s.tolerations)
  }

  /** The deployment that the user's spec asks for: the user's labels, and "app" on top of them. */
  function Desired(kind: Kind, spec: OvercommitSpec, env: Environment): Deployment {
    Deployment(None, None, [], SelectorOf(kind),
      PodTemplate(
        Some(WithApp(spec.labels, AppOf(kind))),
        if kind.ClassController? && spec.annotations.None? then Some(map[]) else spec.annotations,
        env.serviceAccount,
        ContainersOf(kind, env),
        spec.nodeSelector,
        spec.tolerations,
        SecretOf(kind)))
  }

  lemma DesiredShape(kind: Kind, spec: OvercommitSpec, env: Environment)
    ensures var d := Desired(kind, spec, env); d.template.containers != [] && d.owners == []
  {
  }

  class LabelMap {
    var m: StringMap

    constructor (m: StringMap)
      ensures this.m == m
    {
      this.m := m;
    }
  }

  function Contents(labels: LabelMap?): (m: Option<StringMap>)
    reads labels
  {
    if labels == null then None else Some(labels.m)
  }

  class Overcommit {
    var version: nat
    var uid: string
    var finalizers: seq<string>
    var labels: LabelMap?
    /** The spec but for its labels. */
    var rest: OvercommitSpec

    /** A freshly decoded object shares nothing with any other. */
    constructor (stored: StoredOvercommit)
      ensures Encoded() == stored
      ensures labels != null ==> fresh(labels)
    {
      version, uid, finalizers, rest := stored.version, stored.uid, stored.finalizers, stored.spec;
      labels := null;
      new;
      if stored.spec.labels.Some? { labels := new LabelMap(stored.spec.labels.value); }
    }

    function Spec(): OvercommitSpec
      reads this, labels
    {
      rest.(labels := Contents(labels))
    }

    function Encoded(): StoredOvercommit
      reads this, labels
    {
      StoredOvercommit(version, uid, finalizers, Spec())
    }
  }

  function OvercommitRef(uid: string): OwnerReference {
    OwnerReference("Overcommit", "cluster", uid, true)
  }

  // ---------- Objects in memory ----------

  class DeploymentObject {
    var created: bool
    var version: nat
    /** The object but for the labels of its pod template. */
    var rest: Deployment
    var labels: LabelMap?

    constructor (rest: Deployment, labels: LabelMap?)
      ensures !created && this.rest == rest && this.labels == labels
    {
      created, version := false, 0;
      this.rest, this.labels := rest, labels;
    }

    function Encoded(): Deployment
      reads this, labels
    {
      rest.(template := rest.template.(labels := Contents(labels)))
    }

    /** Get overwrites the object with a fresh copy of the stored one. */
    method Load(stored: StoredDeployment)
      modifies this
      ensures created && version == stored.version && Encoded() == stored.deployment
      ensures labels != null ==> fresh(labels)
    {
      created, version, rest, labels := true, stored.version, stored.deployment, null;
      if stored.deployment.template.labels.Some? { labels := new LabelMap(stored.deployment.template.labels.value); }
    }
  }

  /** What a generator sees of an Overcommit whose map earlier generators may have written to. */
  ghost predicate Reflects(o: Overcommit, spec: OvercommitSpec)
    reads o, o.labels
  {
    && o.rest.(labels := None) == spec.(labels := None)
    && (o.labels == null <==> spec.labels.None?)
    && (o.labels != null ==> o.labels.m - {"app"} == spec.labels.value - {"app"})
  }

  lemma WithAppForgetsApp(a: StringMap, b: StringMap, app: string)
    ensures WithApp(Some(a), app) == WithApp(Some(b), app) <==> a - {"app"} == b - {"app"}
  {
    if a - {"app"} == b - {"app"} {
      forall k | k != "app"
        ensures k in a <==> k in b
        ensures k in a ==> a[k] == b[k]
      {
        assert k in a <==> k in a - {"app"};
        assert k in b <==> k in b - {"app"};
      }
      assert a["app" := app] == b["app" := app];
    }
    if a["app" := app] == b["app" := app] {
      assert a - {"app"} == a["app" := app] - {"app"};
      assert b - {"app"} == b["app" := app] - {"app"};
    }
  }

  lemma WithAppKeepsOthers(a: StringMap, app: string)
    ensures a["app" := app] - {"app"} == a - {"app"}
  {
  }

  // ---------- The generators ----------

  /** Any of the three generators. The label map of `o` is written to; when it is not nil, the deployment
      holds that very map, and the spec in memory is no longer the user's unless "app" already had its value. */
  method GenerateDeployment(kind: Kind, o: Overcommit, env: Environment, ghost spec: OvercommitSpec)
    returns (d: DeploymentObject)
    requires Reflects(o, spec)
    modifies o.labels
    ensures fresh(d) && !d.created
    ensures d.Encoded() == Desired(kind, spec, env)
    ensures if o.labels == null then fresh(d.labels) else d.labels == o.labels
    ensures Reflects(o, spec)
    ensures o.Spec() == old(o.Spec()) <==>
            o.labels == null || old("app" in o.labels.m && o.labels.m["app"] == AppOf(kind))
  {
    var labels := o.labels;
    if labels == null { labels := new LabelMap(map[]); }
    ghost var before := labels.m;
    labels.m := labels.m["app" := AppOf(kind)];
    WithAppKeepsOthers(before, AppOf(kind));
    assert labels.m == WithApp(spec.labels, AppOf(kind)) by {
      if spec.labels.Some? { WithAppForgetsApp(before, spec.labels.value, AppOf(kind)); }
    }
    assert o.labels != null ==> (labels.m == before <==> "app" in before && before["app"] == AppOf(kind));
    var annotations := o.rest.annotations;
    if kind.ClassController? && annotations.None? { annotations := Some(map[]); }
    d := new DeploymentObject(
      Deployment(None, None, [], SelectorOf(kind),
                 PodTemplate(None, annotations, env.serviceAccount, ContainersOf(kind, env),
                             o.rest.nodeSelector, o.rest.tolerations, SecretOf(kind))),
      labels);
  }

  /** The deployments whose names the status needs. */
  method GenerateAll(o: Overcommit, env: Environment, ghost spec: OvercommitSpec)
    requires Reflects(o, spec)
    modifies o.labels
    ensures Reflects(o, spec)
  {
    hide Desired;
    var _ := GenerateDeployment(ClassValidator, o, env, spec);
    var _ := GenerateDeployment(PodValidator, o, env, spec);
    var _ := GenerateDeployment(ClassController, o, env, spec);
  }

  ghost predicate OwnLabel(kind: Kind, d: Deployment) {
    d.template.labels.Some? && "app" in d.template.labels.value && d.template.labels.value["app"] == AppOf(kind)
  }

  lemma DesiredOwnLabel(kind: Kind, spec: OvercommitSpec, env: Environment)
    ensures OwnLabel(kind, Desired(kind, spec, env))
  {
  }

  lemma AppsDiffer(first: Kind, second: Kind)
    ensures AppOf(first) == AppOf(second) <==> first == second
  {
    assert AppOf(ClassController)[0] == 'o';
    assert AppOf(ClassValidator)[15] == 'c' && AppOf(PodValidator)[15] == 'p';
  }

  /** The hazard: after a second generator, the first deployment keeps its own label only if the user gave no labels. */
  method LaterGeneratorRelabels(first: Kind, second: Kind, o: Overcommit, env: Environment, ghost spec: OvercommitSpec)
    returns (d: DeploymentObject)
    requires Reflects(o, spec) && first != second
    modifies o.labels
    ensures OwnLabel(first, d.Encoded()) <==> spec.labels.None?
  {
    hide Desired, AppOf;
    DesiredOwnLabel(first, spec, env);
    DesiredOwnLabel(second, spec, env);
    AppsDiffer(first, second);
    d := GenerateDeployment(first, o, env, spec);
    var _ := GenerateDeployment(second, o, env, spec);
  }

  // ---------- The closure of CreateOrUpdate ----------

  /** Field by field, what the comparators reject is taken from the regenerated deployment. */
  method CopyRejected(d: DeploymentObject, updated: DeploymentObject) returns (changed: bool)
    requires d != updated && d.rest.template.containers != [] && updated.rest.template.containers != []
    modifies d
    ensures d.created == old(d.created) && d.version == old(d.version) && d.rest.owners == old(d.rest.owners)
    ensures changed <==> !DeploymentAccepted(updated.Encoded(), old(d.Encoded()))
    ensures d.Encoded() == if changed then MergeDeployment(updated.Encoded(), old(d.Encoded())) else old(d.Encoded())
  {
    hide TolerationsAgree, SameBindings, EnvPairs;
    var source, template := updated.rest.template, d.rest.template;
    var containers, different := SyncContainers(source.containers, template.containers);
    changed := different;
    template := template.(containers := containers);
    var annotationsSame := MapsEqual(source.annotations, template.annotations);
    if !annotationsSame {
      template := template.(annotations := source.annotations);
      changed := true;
    }
    var labelsSame := MapsEqual(Contents(updated.labels), Contents(d.labels));
    if !labelsSame {
      d.labels := updated.labels;
      changed := true;
    }
    var selectorSame := MapsEqual(source.nodeSelector, template.nodeSelector);
    if !selectorSame {
      template := template.(nodeSelector := source.nodeSelector);
      changed := true;
    }
    var tolerationsSame := TolerationsEqual(source.tolerations, template.tolerations);
    if !tolerationsSame {
      template := template.(tolerations := source.tolerations);
      changed := true;
    }
    d.rest := d.rest.(template := template);
  }

  function Rewritten(generated: Deployment, existing: Deployment, ref: OwnerReference): Deployment {
    if DeploymentAccepted(generated, existing) then existing
    else MergeDeployment(generated, existing).(owners := Upsert(ref, existing.owners))
  }

  /** A new deployment takes everything from the regenerated one; of an existing one, only the fields that a
      comparator rejects are overwritten. The maps are assigned, not copied. */
  method Mutate(d: DeploymentObject, updated: DeploymentObject, ref: OwnerReference) returns (ok: bool)
    requires d != updated && d.rest.template.containers != [] && updated.rest.template.containers != []
    requires !d.created ==> d.rest.owners == []
    modifies d
    ensures d.created == old(d.created) && d.version == old(d.version)
    ensures var (generated, existing) := (updated.Encoded(), old(d.Encoded()));
            if !d.created then ok && d.Encoded() == generated.(owners := [ref])
            else
              && ok == (DeploymentAccepted(generated, existing) || !OwnedByOther(ref, existing.owners))
              && (ok ==> d.Encoded() == Rewritten(generated, existing, ref))
  {
    if !d.created {
      d.rest := updated.rest.(owners := d.rest.owners);
      d.labels := updated.labels;
      var owners := SetController(ref, d.rest.owners);
      d.rest := d.rest.(owners := owners.value);
      return true;
    }
    hide DeploymentAccepted, MergeDeployment, Upsert;
    var changed := CopyRejected(d, updated);
    if changed {
      var owners := SetController(ref, d.rest.owners);
      if owners.None? { return false; }
      d.rest := d.rest.(owners := owners.value);
    }
    return true;
  }

  // ---------- Legacy finalizers ----------

  const LEGACY_FINALIZERS: seq<string> := ["overcommit.finalizer", "webhook.finalizer"]

  function Cleaned(finalizers: seq<string>): seq<string> {
    RemoveAll(RemoveAll(finalizers, LEGACY_FINALIZERS[0]), LEGACY_FINALIZERS[1])
  }

  datatype CallResult = Errored | NotFound | Requeued | Reconciled

  lemma {:induction false} RemoveAbsent(items: seq<string>, x: string)
    ensures RemoveAll(items, x) == items <==> x !in items
  {
    if items != [] { RemoveAbsent(items[1..], x); }
  }

  lemma {:induction false} RemoveKeepsOthers(items: seq<string>, x: string, y: string)
    ensures y in RemoveAll(items, x) <==> y in items && y != x
  {
    if items != [] { RemoveKeepsOthers(items[1..], x, y); }
  }

  predicate HasLegacy(finalizers: seq<string>) {
    "overcommit.finalizer" in finalizers || "webhook.finalizer" in finalizers
  }

  method RemoveFinalizers(o: Overcommit) returns (removed: bool)
    modifies o`finalizers
    ensures removed <==> HasLegacy(old(o.finalizers))
    ensures o.finalizers == Cleaned(old(o.finalizers))
  {
    removed := false;
    ghost var before := o.finalizers;
    RemoveAbsent(before, LEGACY_FINALIZERS[0]);
    RemoveAbsent(RemoveAll(before, LEGACY_FINALIZERS[0]), LEGACY_FINALIZERS[1]);
    RemoveKeepsOthers(before, LEGACY_FINALIZERS[0], LEGACY_FINALIZERS[1]);
    for i := 0 to |LEGACY_FINALIZERS|
      invariant i == 0 ==> o.finalizers == before && !removed
      invariant i == 1 ==> o.finalizers == RemoveAll(before, LEGACY_FINALIZERS[0])
      invariant i == 1 ==> removed == (LEGACY_FINALIZERS[0] in before)
      invariant i == 2 ==> o.finalizers == RemoveAll(RemoveAll(before, LEGACY_FINALIZERS[0]), LEGACY_FINALIZERS[1])
      invariant i == 2 ==> removed == (LEGACY_FINALIZERS[0] in before || LEGACY_FINALIZERS[1] in before)
    {
      if LEGACY_FINALIZERS[i] in o.finalizers {
        o.finalizers := RemoveAll(o.finalizers, LEGACY_FINALIZERS[i]);
        removed := true;
      }
    }
  }

  // ---------- The API server and everyone who writes to it ----------

  /** Unneeded: nothing had changed, and CreateOrUpdate sent nothing. */
  datatype WriteOutcome = Stored | Refused | Unneeded

  /** A deployment as this reconciler would have it, the one it read before, if any, the user's spec it worked
      from, and what came of it. */
  datatype Write = Write(kind: Kind, ref: OwnerReference, env: Environment, spec: OvercommitSpec,
                         before: Option<Deployment>, submitted: Deployment, outcome: WriteOutcome)

  /** What is submitted is what a generator with a map of its own would have led to: the aliasing never shows. */
  ghost predicate Faithful(w: Write) {
    SyncDeployment(Desired(w.kind, w.spec, w.env), w.ref, w.before) == Some(NormalDeployment(w.submitted))
  }

  /** The deployment of this kind was found or left as the spec asks. */
  predicate Settles(w: Write, kind: Kind, spec: OvercommitSpec) {
    w.kind == kind && w.spec == spec && w.outcome != Refused
  }

  /** Three more entries: all deployments, in the source's order, settled for one spec. */
  predicate SettlesAll(writes: seq<Write>, from: nat, spec: OvercommitSpec) {
    && |writes| == from + 3
    && Settles(writes[from], ClassValidator, spec)
    && Settles(writes[from + 1], PodValidator, spec)
    && Settles(writes[from + 2], ClassController, spec)
  }

  lemma RewrittenIsSynced(generated: Deployment, existing: Deployment, ref: OwnerReference)
    requires DeploymentAccepted(generated, existing) || !OwnedByOther(ref, existing.owners)
    requires NormalDeployment(existing) == existing
    ensures SyncDeployment(generated, ref, Some(existing))
            == Some(NormalDeployment(Rewritten(generated, existing, ref)))
  {
    hide MergeDeployment, DeploymentAccepted, Upsert, OwnedByOther;
  }

  /** Get into the generated object, then the closure, which generates again. */
  method LoadAndMutate(kind: Kind, o: Overcommit, env: Environment, ghost spec: OvercommitSpec,
                       d: DeploymentObject, stored: Option<StoredDeployment>)
    returns (ok: bool)
    requires Reflects(o, spec) && !d.created && d.Encoded() == Desired(kind, spec, env)
    requires stored.Some? ==>
               && NormalDeployment(stored.value.deployment) == stored.value.deployment
               && stored.value.deployment.template.containers != []
    modifies d, o.labels
    ensures Reflects(o, spec)
    ensures var before := if stored.Some? then Some(stored.value.deployment) else None;
            var synced := SyncDeployment(Desired(kind, spec, env), OvercommitRef(o.uid), before);
            ok == synced.Some? && (ok ==> synced.value == NormalDeployment(d.Encoded()))
    ensures d.created == stored.Some? && (stored.Some? ==> d.version == stored.value.version)
  {
    hide Desired, DeploymentAccepted, MergeDeployment, Upsert, OwnedByOther, NormalDeployment, Reflects;
    DesiredShape(kind, spec, env);
    if stored.Some? { d.Load(stored.value); }
    var updated := GenerateDeployment(kind, o, env, spec);
    ok := Mutate(d, updated, OvercommitRef(o.uid));
    if ok && stored.Some? {
      RewrittenIsSynced(Desired(kind, spec, env), stored.value.deployment, OvercommitRef(o.uid));
    }
  }

  /** The server refuses a deployment whose selector does not match the labels of its own template. */
  predicate SelectorMatches(d: Deployment) {
    && d.template.labels.Some?
    && forall k <- d.selector :: k in d.template.labels.value && d.template.labels.value[k] == d.selector[k]
  }

  predicate Storable(d: Deployment) {
    NormalDeployment(d) == d && d.template.containers != [] && SelectorMatches(d)
  }

  /** The deployment is new, or has the generated selector; a selector cannot be changed once stored. */
  predicate OwnSelector(w: Write) {
    w.before.None? || w.before.value.selector == SelectorOf(w.kind)
  }

  /** Every submitted deployment carries the user's labels with its own "app", whatever the shared map held
      before and after, and keeps the selector it was read with. */
  lemma WritesCarryTheirOwnLabel(w: Write)
    requires Faithful(w)
    ensures w.submitted.template.labels == Some(WithApp(w.spec.labels, AppOf(w.kind)))
    ensures w.submitted.selector == if w.before.Some? then w.before.value.selector else SelectorOf(w.kind)
    ensures OwnSelector(w) ==> SelectorMatches(w.submitted) && w.submitted.selector == SelectorOf(w.kind)
                               && OwnLabel(w.kind, w.submitted)
  {
    assert NormalMap(Some(WithApp(w.spec.labels, AppOf(w.kind)))) == Some(WithApp(w.spec.labels, AppOf(w.kind))) by {
      assert "app" in WithApp(w.spec.labels, AppOf(w.kind));
    }
    hide TolerationsAgree, SameBindings, EnvOf;
  }

  lemma NormalTwice(spec: OvercommitSpec)
    ensures NormalSpec(NormalSpec(spec)) == NormalSpec(spec)
  {
  }

  // ---------- Calls ----------

  /** A resource of another kind: its type and its name. */
  type Resource = (string, string)

  /** The resources that are created if missing and never rewritten. */
  const ISSUER: Resource := ("issuer", "k8s-overcommit-issuer")

  function CertificateOf(kind: Kind): Resource
    requires !kind.ClassController?
  {
    (if kind.ClassValidator? then "overcommitclass-certificate" else "pod-certificate", SecretOf(kind))
  }

  function ServiceOf(kind: Kind): Resource
    requires !kind.ClassController?
  {
    (if kind.ClassValidator? then "overcommitclass-service" else "pod-service", NameOf(kind) + "-service")
  }

  function WebhookOf(kind: Kind): Resource
    requires !kind.ClassController?
  {
    (if kind.ClassValidator? then "overcommitclass-webhook" else "pod-webhook", NameOf(kind))
  }

  /** All of them, by the names the cluster knows them by. */
  const RESOURCES_ENSURED: set<Resource> := {
    ("issuer", "k8s-overcommit-issuer"),
    ("overcommitclass-certificate", "oc-validating-webhook"),
    ("overcommitclass-service", "k8s-overcommit-class-validating-webhook-service"),
    ("overcommitclass-webhook", "k8s-overcommit-class-validating-webhook"),
    ("pod-certificate", "pod-validating-webhook"),
    ("pod-service", "k8s-overcommit-pod-validating-webhook-service"),
    ("pod-webhook", "k8s-overcommit-pod-validating-webhook")}

  lemma ResourcesOfKinds()
    ensures RESOURCES_ENSURED
            == {ISSUER} + {CertificateOf(ClassValidator), ServiceOf(ClassValidator), WebhookOf(ClassValidator)}
               + {CertificateOf(PodValidator), ServiceOf(PodValidator), WebhookOf(PodValidator)}
  {
    assert NameOf(ClassValidator) + "-service" == "k8s-overcommit-class-validating-webhook-service";
    assert NameOf(PodValidator) + "-service" == "k8s-overcommit-pod-validating-webhook-service";
  }

  /** What others may do. */
  datatype Edit =
    | EditOvercommit(written: StoredOvercommit) | DeleteOvercommit
    | EditDeployment(name: string, deployment: Deployment) | DeleteDeployment(name: string)
    | CreateResource(resource: Resource) | DeleteResource(resource: Resource)

  /** The calls of the reconciler. CreateOrUpdate is one call for a resource of another kind, a read and, if anything
      has changed, a write for a deployment. */
  datatype Op =
    | ReadLabel | ReadOvercommit | WriteOvercommit
    | Ensure(resource: Resource) | ReadDeployment(kind: Kind) | WriteDeployment(kind: Kind)
    | ReadForStatus | WriteStatus

  datatype Entry = Entry(op: Op, refusal: Refusal)

  /** A refusal that does not end the call: of the status update, or a conflict over the pod webhook. */
  predicate Tolerated(e: Entry) {
    || e.refusal.Accepted? || e.op.ReadForStatus? || e.op.WriteStatus?
    || e == Entry(Ensure(("pod-webhook", "k8s-overcommit-pod-validating-webhook")), Conflicts)
  }

  /** A refusal that ends the status update: of its read, or of its write for another reason than a conflict. */
  predicate EndsStatus(e: Entry) {
    !e.refusal.Accepted? && (e.op.ReadForStatus? || (e.op.WriteStatus? && e.refusal.Fails?))
  }

  ghost predicate ToleratedFrom(log: seq<Entry>, from: nat) {
    forall i :: from <= i < |log| ==> Tolerated(log[i])
  }

  /** Of the calls from number `from` on, only the last may have been refused and not tolerated. */
  ghost predicate StopsAtRefusal(log: seq<Entry>, from: nat) {
    forall i :: from <= i < |log| - 1 ==> Tolerated(log[i])
  }

  /** Of the other resources' calls, only a conflict over the pod webhook is tolerated. */
  lemma ToleratedEnsures(kind: Kind, refusal: Refusal)
    requires !kind.ClassController?
    ensures Tolerated(Entry(Ensure(ISSUER), refusal)) <==> refusal.Accepted?
    ensures Tolerated(Entry(Ensure(CertificateOf(kind)), refusal)) <==> refusal.Accepted?
    ensures Tolerated(Entry(Ensure(ServiceOf(kind)), refusal)) <==> refusal.Accepted?
    ensures Tolerated(Entry(Ensure(WebhookOf(kind)), refusal)) <==>
            refusal.Accepted? || (kind.PodValidator? && refusal.Conflicts?)
  {
    assert |"issuer"| == 6 && |"pod-webhook"| == 11 && |"overcommitclass-webhook"| == 23;
    assert |"pod-certificate"| == 15 && |"overcommitclass-certificate"| == 27;
    assert "pod-service"[4] == 's' && "pod-webhook"[4] == 'w' && |"overcommitclass-service"| == 23;
  }

  /** What a read says. */
  datatype Read<T> = Found(value: T) | Absent | ReadError

  /** The deployment as CreateOrUpdate would leave it; None where someone else controls it or the server refuses it. */
  function Wanted(kind: Kind, spec: OvercommitSpec, env: Environment, ref: OwnerReference,
                  before: Option<Deployment>): Option<Deployment> {
    var synced := SyncDeployment(Desired(kind, spec, env), ref, before);
    if synced.Some? && Storable(synced.value) then synced else None
  }

  function StoredUnder(deployments: map<string, StoredDeployment>, name: string): Option<Deployment> {
    if name in deployments then Some(deployments[name].deployment) else None
  }

  /** What is stored after the three deployments were reconciled one after the other, as far as they could be. */
  ghost predicate DeployedInOrder(before: map<string, StoredDeployment>, after: map<string, StoredDeployment>,
                                  spec: OvercommitSpec, env: Environment, ref: OwnerReference, all: bool) {
    var b0, b1 := StoredUnder(before, NameOf(ClassValidator)), StoredUnder(before, NameOf(PodValidator));
    var b2 := StoredUnder(before, NameOf(ClassController));
    var w0, w1 := Wanted(ClassValidator, spec, env, ref, b0), Wanted(PodValidator, spec, env, ref, b1);
    var w2 := Wanted(ClassController, spec, env, ref, b2);
    && (all <==> w0.Some? && w1.Some? && w2.Some?)
    && StoredUnder(after, NameOf(ClassValidator)) == (if w0.Some? then w0 else b0)
    && StoredUnder(after, NameOf(PodValidator)) == (if w0.Some? && w1.Some? then w1 else b1)
    && StoredUnder(after, NameOf(ClassController)) == (if all then w2 else b2)
    && forall name :: (forall kind :: name != NameOf(kind)) ==> StoredUnder(after, name) == StoredUnder(before, name)
  }

  lemma NamesDiffer(first: Kind, second: Kind)
    ensures NameOf(first) == NameOf(second) <==> first == second
  {
    assert NameOf(ClassValidator)[15] == 'c' && NameOf(PodValidator)[15] == 'p' && NameOf(ClassController)[15] == 'o';
  }

  lemma SameElsewhere(before: map<string, StoredDeployment>, after: map<string, StoredDeployment>, name: string,
                      other: string)
    requires after - {name} == before - {name} && other != name
    ensures StoredUnder(after, other) == StoredUnder(before, other)
  {
    assert other in after <==> other in after - {name};
    assert other in before <==> other in before - {name};
  }

  /** One deployment of the order. */
  ghost predicate Reconciles(kind: Kind, before: map<string, StoredDeployment>, after: map<string, StoredDeployment>,
                             spec: OvercommitSpec, env: Environment, ref: OwnerReference, ok: bool) {
    var stored := StoredUnder(before, NameOf(kind));
    var wanted := Wanted(kind, spec, env, ref, stored);
    && after - {NameOf(kind)} == before - {NameOf(kind)}
    && (ok <==> wanted.Some?)
    && StoredUnder(after, NameOf(kind)) == if ok then wanted else stored
  }

  lemma OneAfterTheOther(d0: map<string, StoredDeployment>, d1: map<string, StoredDeployment>,
                         d2: map<string, StoredDeployment>, d3: map<string, StoredDeployment>,
                         spec: OvercommitSpec, env: Environment, ref: OwnerReference, ok0: bool, ok1: bool, ok2: bool)
    requires Reconciles(ClassValidator, d0, d1, spec, env, ref, ok0)
    requires if ok0 then Reconciles(PodValidator, d1, d2, spec, env, ref, ok1) else d2 == d1
    requires if ok0 && ok1 then Reconciles(ClassController, d2, d3, spec, env, ref, ok2) else d3 == d2
    ensures DeployedInOrder(d0, d3, spec, env, ref, ok0 && ok1 && ok2)
  {
    NamesDiffer(ClassValidator, PodValidator);
    NamesDiffer(ClassValidator, ClassController);
    NamesDiffer(PodValidator, ClassController);
    var n0, n1, n2 := NameOf(ClassValidator), NameOf(PodValidator), NameOf(ClassController);
    hide Wanted, NameOf, StoredUnder;
    forall name
      ensures name != n0 ==> StoredUnder(d1, name) == StoredUnder(d0, name)
      ensures name != n1 ==> StoredUnder(d2, name) == StoredUnder(d1, name)
      ensures name != n2 ==> StoredUnder(d3, name) == StoredUnder(d2, name)
    {
      if name != n0 { SameElsewhere(d0, d1, n0, name); }
      if name != n1 && ok0 { SameElsewhere(d1, d2, n1, name); }
      if name != n2 && ok0 && ok1 { SameElsewhere(d2, d3, n2, name); }
    }
  }

  predicate SameButVersion(a: Option<StoredOvercommit>, b: Option<StoredOvercommit>) {
    a.Some? == b.Some? && (a.Some? ==> b.value == a.value.(version := b.value.version))
  }

  lemma SameVersionToo(a: Option<StoredOvercommit>)
    ensures SameButVersion(a, a)
  {
  }

  /** The entry of this name may differ, if something was written. */
  predicate OnlyEntry(name: string, before: map<string, StoredDeployment>, after: map<string, StoredDeployment>,
                      written: bool) {
    after - {name} == before - {name} && (!written ==> after == before)
  }

  /** What a call does when nobody else writes and none of its calls is refused: it fails without an Overcommit,
      requeues one with a legacy finalizer, and else deploys what can be deployed. */
  ghost predicate ExactCall(o: Option<StoredOvercommit>, o': Option<StoredOvercommit>,
                            d: map<string, StoredDeployment>, d': map<string, StoredDeployment>, env: Environment,
                            result: CallResult, seen: Option<StoredOvercommit>) {
    if o.None? then result.Errored? && o' == o && d' == d
    else
      && seen == o
      && if HasLegacy(o.value.finalizers) then result.Requeued? && d' == d
         else
           && result in [Reconciled, Errored] && SameButVersion(o, o')
           && DeployedInOrder(d, d', o.value.spec, env, OvercommitRef(o.value.uid), result.Reconciled?)
  }

  class Cluster {
    var overcommit: Option<StoredOvercommit>
    var deployments: map<string, StoredDeployment>
    var resources: set<Resource>
    var latest: nat
    /** Every object that was ever stored, by version: what a cache that lags behind may still show. */
    var overcommits: map<nat, StoredOvercommit>
    var pastDeployments: map<nat, (string, StoredDeployment)>
    /** The answers to the calls to come. */
    var script: seq<Answer<Edit>>
    /** Every spec a user wrote, up to empty maps, every deployment this reconciler submitted, and its calls. */
    ghost var edits: seq<OvercommitSpec>
    ghost var writes: seq<Write>
    ghost var log: seq<Entry>

    constructor (script: seq<Answer<Edit>>)
      ensures Valid() && overcommit.None? && deployments == map[] && resources == {} && edits == [] && writes == []
      ensures this.script == script && log == []
    {
      overcommit, deployments, resources, latest := None, map[], {}, 0;
      overcommits, pastDeployments, edits, writes := map[], map[], [], [];
      this.script, log := script, [];
    }

    /** The stored spec is the user's latest, and every stored one was the user's. */
    ghost predicate ValidOvercommits()
      reads this`overcommit, this`overcommits, this`latest, this`edits
    {
      && (forall v <- overcommits ::
            overcommits[v].version == v && v <= latest && NormalSpec(overcommits[v].spec) in edits)
      && (overcommit.Some? ==>
            && overcommit.value.version in overcommits && overcommits[overcommit.value.version] == overcommit.value
            && edits != [] && NormalSpec(overcommit.value.spec) == edits[|edits| - 1])
    }

    ghost predicate ValidDeployments()
      reads this`deployments, this`pastDeployments, this`latest
    {
      && (forall v <- pastDeployments ::
            pastDeployments[v].1.version == v && v <= latest && Storable(pastDeployments[v].1.deployment))
      && (forall name <- deployments ::
            && deployments[name].version in pastDeployments
            && pastDeployments[deployments[name].version] == (name, deployments[name]))
    }

    /** Besides, every submitted deployment was made from a spec of the user's. */
    ghost predicate Valid()
      reads this`overcommit, this`overcommits, this`latest, this`edits, this`deployments, this`pastDeployments,
            this`writes
    {
      && ValidOvercommits() && ValidDeployments()
      && (forall w <- writes :: Faithful(w) && NormalSpec(w.spec) in edits)
    }

    /** What was stored stays known. */
    twostate predicate Later()
      reads this`edits, this`overcommits, this`pastDeployments
    {
      && old(edits) <= edits
      && (forall v <- old(overcommits) :: v in overcommits && overcommits[v] == old(overcommits)[v])
      && (forall v <- old(pastDeployments) :: v in pastDeployments && pastDeployments[v] == old(pastDeployments)[v])
    }

    /** Nothing stored has changed. */
    twostate predicate Untouched()
      reads this`overcommit, this`deployments, this`resources, this`latest
    {
      && overcommit == old(overcommit) && deployments == old(deployments) && resources == old(resources)
      && latest == old(latest)
    }

    predicate Known(o: StoredOvercommit)
      reads this`overcommits
    {
      o.version in overcommits && overcommits[o.version] == o
    }

    /** A deployment of this name was stored at some time. */
    predicate WasStored(name: string, d: Deployment)
      reads this`pastDeployments
    {
      exists v :: v in pastDeployments && pastDeployments[v].0 == name && pastDeployments[v].1.deployment == d
    }

    method PutOvercommit(o: StoredOvercommit)
      requires ValidOvercommits() && ValidDeployments() && o.version == latest + 1
      requires edits != [] && NormalSpec(o.spec) == edits[|edits| - 1]
      modifies this`overcommit, this`overcommits, this`latest
      ensures ValidOvercommits() && ValidDeployments() && Later()
      ensures overcommit == Some(o) && latest == old(latest) + 1
    {
      hide NormalSpec, Storable;
      overcommit, overcommits, latest := Some(o), overcommits[o.version := o], o.version;
    }

    method PutDeployment(name: string, d: Deployment)
      requires Valid() && Storable(d)
      modifies this`deployments, this`pastDeployments, this`latest
      ensures Valid() && Later()
      ensures deployments == old(deployments)[name := StoredDeployment(latest, d)] && latest == old(latest) + 1
    {
      hide NormalSpec, Storable, Faithful;
      latest := latest + 1;
      var stored := StoredDeployment(latest, d);
      deployments, pastDeployments := deployments[name := stored], pastDeployments[latest := (name, stored)];
    }

    method PutSpec(written: StoredOvercommit)
      requires Valid()
      modifies this`overcommit, this`overcommits, this`latest, this`edits
      ensures Valid() && Later()
    {
      hide NormalSpec, Storable, Faithful;
      var o := written.(version := latest + 1);
      edits := edits + [NormalSpec(o.spec)];
      overcommit, overcommits, latest := Some(o), overcommits[o.version := o], o.version;
    }

    /** Users and other controllers: any edits of the Overcommit, of any deployment and of the other resources. */
    method Interfere(others: seq<Edit>)
      requires Valid()
      modifies this`overcommit, this`overcommits, this`deployments, this`pastDeployments, this`latest, this`edits,
               this`resources
      ensures Valid() && Later()
      ensures others == [] ==> Untouched()
    {
      hide NormalSpec, Storable, Faithful;
      for i := 0 to |others|
        invariant Valid() && Later()
        invariant others == [] ==> Untouched()
      {
        match others[i]
        case EditOvercommit(written) => PutSpec(written);
        case DeleteOvercommit => overcommit := None;
        case EditDeployment(name, deployment) => if Storable(deployment) { PutDeployment(name, deployment); }
        case DeleteDeployment(name) => deployments := deployments - {name};
        case CreateResource(resource) => resources := resources + {resource};
        case DeleteResource(resource) => resources := resources - {resource};
      }
    }

    /** One call of the reconciler: others act first, then it is answered. */
    method Call(op: Op) returns (answer: Answer<Edit>)
      requires Valid()
      modifies this`overcommit, this`overcommits, this`deployments, this`pastDeployments, this`latest, this`edits,
               this`resources, this`script, this`log
      ensures Valid() && Later()
      ensures answer == Next(old(script)) && script == Rest(old(script))
      ensures log == old(log) + [Entry(op, answer.refusal)]
      ensures Still(old(script)) ==> Untouched()
    {
      hide Valid, Still, Quiet;
      answer := Next(script);
      script, log := Rest(script), log + [Entry(op, answer.refusal)];
      Interfere(answer.others);
    }

    // ---------- Reads, from a cache ----------

    method GetOvercommit(op: Op) returns (read: Read<StoredOvercommit>)
      requires Valid()
      modifies this`overcommit, this`overcommits, this`deployments, this`pastDeployments, this`latest, this`edits,
               this`resources, this`script, this`log
      ensures Valid() && Later() && script == Rest(old(script))
      ensures log == old(log) + [Entry(op, Next(old(script)).refusal)]
      ensures read.ReadError? <==> !Next(old(script)).refusal.Accepted?
      ensures read.Found? ==> Known(read.value) && NormalSpec(read.value.spec) in edits
      ensures Still(old(script)) ==> Untouched()
      ensures Still(old(script)) && !read.ReadError? ==>
                read == if overcommit.Some? then Found(overcommit.value) else Absent
    {
      hide NormalSpec, Storable, Faithful, Still;
      var answer := Call(op);
      if !answer.refusal.Accepted? { return ReadError; }
      match answer.shown
      case Present => return if overcommit.Some? then Found(overcommit.value) else Absent;
      case Past(v) => return if v in overcommits then Found(overcommits[v]) else Absent;
      case Nothing => return Absent;
    }

    method GetDeployment(kind: Kind) returns (read: Read<StoredDeployment>)
      requires Valid()
      modifies this`overcommit, this`overcommits, this`deployments, this`pastDeployments, this`latest, this`edits,
               this`resources, this`script, this`log
      ensures Valid() && Later() && script == Rest(old(script))
      ensures log == old(log) + [Entry(ReadDeployment(kind), Next(old(script)).refusal)]
      ensures read.ReadError? <==> !Next(old(script)).refusal.Accepted?
      ensures read.Found? ==> WasStored(NameOf(kind), read.value.deployment) && Storable(read.value.deployment)
      ensures Still(old(script)) ==> Untouched()
      ensures Still(old(script)) && !read.ReadError? ==>
                read == if NameOf(kind) in deployments then Found(deployments[NameOf(kind)]) else Absent
    {
      hide Storable, NormalSpec, Faithful, Still, NameOf;
      var answer := Call(ReadDeployment(kind));
      var name := NameOf(kind);
      if !answer.refusal.Accepted? { return ReadError; }
      match answer.shown
      case Present => return if name in deployments then Found(deployments[name]) else Absent;
      case Past(v) =>
        return if v in pastDeployments && pastDeployments[v].0 == name then Found(pastDeployments[v].1) else Absent;
      case Nothing => return Absent;
    }

    // ---------- Writes of this reconciler ----------

    /** CreateOrUpdate of a resource of another kind. */
    method EnsureExists(resource: Resource) returns (refusal: Refusal)
      requires Valid()
      modifies this`overcommit, this`overcommits, this`deployments, this`pastDeployments, this`latest, this`edits,
               this`resources, this`script, this`log
      ensures Valid() && Later() && script == Rest(old(script))
      ensures refusal == Next(old(script)).refusal && log == old(log) + [Entry(Ensure(resource), refusal)]
      ensures refusal.Accepted? ==> resource in resources
      ensures Still(old(script)) ==>
                && overcommit == old(overcommit) && deployments == old(deployments) && latest == old(latest)
                && resources == if refusal.Accepted? then old(resources) + {resource} else old(resources)
    {
      hide Valid, Still;
      var answer := Call(Ensure(resource));
      refusal := answer.refusal;
      if refusal.Accepted? { resources := resources + {resource}; }
    }

    /** One more entry in the log of submissions. */
    ghost method Record(w: Write)
      requires Valid() && Faithful(w) && NormalSpec(w.spec) in edits
      modifies this`writes
      ensures Valid() && writes == old(writes) + [w]
    {
      hide Faithful, Storable, NormalSpec;
      writes := writes + [w];
    }

    /** The object in memory is new and nothing is stored, or it has the version that is stored. */
    predicate IsCurrent(name: string, d: DeploymentObject)
      reads this`deployments, d
    {
      if d.created then name in deployments && deployments[name].version == d.version else name !in deployments
    }

    /** Create or Update of a deployment: refused unless it is new, or its version is current, and the server takes
        its selector. */
    method Submit(kind: Kind, d: DeploymentObject, env: Environment, ref: OwnerReference,
                  ghost spec: OvercommitSpec, ghost before: Option<Deployment>)
      returns (ok: bool)
      requires Valid() && NormalSpec(spec) in edits
      requires Faithful(Write(kind, ref, env, spec, before, d.Encoded(), Stored))
      modifies this
      ensures Valid() && Later() && script == Rest(old(script))
      ensures log == old(log) + [Entry(WriteDeployment(kind), Next(old(script)).refusal)]
      ensures writes == old(writes) + [Write(kind, ref, env, spec, before, d.Encoded(), if ok then Stored else Refused)]
      ensures ok ==> Next(old(script)).refusal.Accepted?
      ensures ok ==> StoredUnder(deployments, NameOf(kind)) == Some(NormalDeployment(d.Encoded()))
      ensures Still(old(script)) ==>
                && overcommit == old(overcommit) && resources == old(resources)
                && OnlyEntry(NameOf(kind), old(deployments), deployments, ok)
                && (Next(old(script)).refusal.Accepted? ==>
                      (ok <==> old(IsCurrent(NameOf(kind), d)) && Storable(NormalDeployment(d.Encoded()))))
    {
      hide NormalDeployment, Storable, NormalSpec, SyncDeployment, Desired, Still, NameOf, Valid;
      var answer := Call(WriteDeployment(kind));
      var name, stored := NameOf(kind), NormalDeployment(d.Encoded());
      ok := answer.refusal.Accepted? && IsCurrent(name, d) && Storable(stored);
      Record(Write(kind, ref, env, spec, before, d.Encoded(), if ok then Stored else Refused));
      if ok { PutDeployment(name, stored); }
    }

    /** How the log records a success: the deployment is now stored, or was when it was read. */
    ghost predicate Logged(count: nat, kind: Kind, spec: OvercommitSpec, before: Option<Deployment>)
      reads this`writes, this`deployments, this`pastDeployments
    {
      && |writes| == count + 1
      && var w := writes[count];
      && Settles(w, kind, spec) && w.before == before
      && (w.outcome.Stored? ==> StoredUnder(deployments, NameOf(kind)) == Some(NormalDeployment(w.submitted)))
      && (w.outcome.Unneeded? ==>
            before == Some(NormalDeployment(w.submitted)) && WasStored(NameOf(kind), before.value))
    }

    /** The object in memory is the stored one, which was read, or new. */
    predicate ReadBack(kind: Kind, d: DeploymentObject, before: Option<Deployment>)
      reads this`deployments, d
    {
      IsCurrent(NameOf(kind), d) && StoredUnder(deployments, NameOf(kind)) == before
    }

    /** The end of CreateOrUpdate. */
    method WriteIfChanged(kind: Kind, d: DeploymentObject, env: Environment, ref: OwnerReference,
                          ghost spec: OvercommitSpec, before: Option<Deployment>)
      returns (ok: bool)
      requires Valid() && NormalSpec(spec) in edits
      requires SyncDeployment(Desired(kind, spec, env), ref, before) == Some(NormalDeployment(d.Encoded()))
      requires before.Some? ==> WasStored(NameOf(kind), before.value) && Storable(before.value)
      modifies this
      ensures Valid() && Later() && old(writes) <= writes && old(log) <= log
      ensures ok ==> Logged(|old(writes)|, kind, spec, before)
      ensures ok ==> SyncDeployment(Desired(kind, spec, env), ref, before)
                     == Some(NormalDeployment(writes[|old(writes)|].submitted))
      ensures ok || Quiet(old(script)) ==> ToleratedFrom(log, |old(log)|)
      ensures StopsAtRefusal(log, |old(log)|)
      ensures Quiet(old(script)) ==> Quiet(script)
      ensures Still(old(script)) ==>
                && Still(script) && overcommit == old(overcommit) && resources == old(resources)
                && OnlyEntry(NameOf(kind), old(deployments), deployments, ok)
      ensures Still(old(script)) && ToleratedFrom(log, |old(log)|) && old(ReadBack(kind, d, before)) ==>
                && (ok <==> Storable(NormalDeployment(d.Encoded())))
                && (ok ==> StoredUnder(deployments, NameOf(kind)) == Some(NormalDeployment(d.Encoded())))
    {
      hide Desired, SyncDeployment, Storable, NormalSpec, NormalDeployment, NameOf, Valid, WasStored, Still, Quiet,
           StoredUnder;
      if before.Some? && NormalDeployment(d.Encoded()) == before.value {
        Record(Write(kind, ref, env, spec, before, d.Encoded(), Unneeded));
        return true;
      }
      ok := Submit(kind, d, env, ref, spec, before);
      assert log[|old(log)|].op == WriteDeployment(kind);
    }

    /** CreateOrUpdate of a deployment: read, regenerate in the closure, write if anything changed. Without others in
        between, and with no call refused, it succeeds exactly where the deployment wanted can be stored, and that is
        then stored; if it does not succeed, no deployment has changed. */
    method CreateOrUpdate(kind: Kind, d: DeploymentObject, o: Overcommit, env: Environment, ghost spec: OvercommitSpec)
      returns (ok: bool, before: Option<Deployment>)
      requires Valid() && Reflects(o, spec) && NormalSpec(spec) in edits
      requires !d.created && d.Encoded() == Desired(kind, spec, env)
      modifies this, d, o.labels
      ensures Valid() && Later() && old(writes) <= writes && old(log) <= log
      ensures Reflects(o, spec)
      ensures |log| > |old(log)| && log[|old(log)|].op == ReadDeployment(kind)
      ensures ok ==> Logged(|old(writes)|, kind, spec, before)
      ensures ok ==> SyncDeployment(Desired(kind, spec, env), OvercommitRef(o.uid), before)
                     == Some(NormalDeployment(writes[|old(writes)|].submitted))
      ensures ok || Quiet(old(script)) ==> ToleratedFrom(log, |old(log)|)
      ensures StopsAtRefusal(log, |old(log)|)
      ensures Quiet(old(script)) ==> Quiet(script)
      ensures Still(old(script)) ==>
                && Still(script) && overcommit == old(overcommit) && resources == old(resources)
                && OnlyEntry(NameOf(kind), old(deployments), deployments, ok)
      ensures Still(old(script)) && ToleratedFrom(log, |old(log)|) ==>
                var wanted := Wanted(kind, spec, env, OvercommitRef(o.uid),
                                     StoredUnder(old(deployments), NameOf(kind)));
                && (ok <==> wanted.Some?)
                && (ok ==> StoredUnder(deployments, NameOf(kind)) == wanted)
    {
      hide Desired, SyncDeployment, SelectorMatches, NormalSpec, NormalDeployment, Reflects, NameOf, OvercommitRef,
           Valid, Logged, WasStored, Still, Quiet;
      before := None;
      var read := GetDeployment(kind);
      assert log[|old(log)|].op.ReadDeployment?;
      if read.ReadError? { return false, None; }
      var stored := if read.Found? then Some(read.value) else None;
      if stored.Some? { before := Some(stored.value.deployment); }
      ok := LoadAndMutate(kind, o, env, spec, d, stored);
      if !ok { return; }
      ok := WriteIfChanged(kind, d, env, OvercommitRef(o.uid), spec, before);
    }

    /** The certificate of a validator is created if it is missing, between the generator and CreateOrUpdate. */
    method ReconcileDeployment(kind: Kind, o: Overcommit, env: Environment, ghost spec: OvercommitSpec)
      returns (ok: bool, before: Option<Deployment>)
      requires Valid() && Reflects(o, spec) && NormalSpec(spec) in edits
      modifies this, o.labels
      ensures Valid() && Later() && old(writes) <= writes && old(log) <= log
      ensures Reflects(o, spec)
      ensures ok && !kind.ClassController? ==>
                && |log| > |old(log)| + 1 && log[|old(log)|].op == Ensure(CertificateOf(kind))
                && log[|old(log)| + 1].op == ReadDeployment(kind)
      ensures ok ==> Logged(|old(writes)|, kind, spec, before)
      ensures ok ==> SyncDeployment(Desired(kind, spec, env), OvercommitRef(o.uid), before)
                     == Some(NormalDeployment(writes[|old(writes)|].submitted))
      ensures ok || Quiet(old(script)) ==> ToleratedFrom(log, |old(log)|)
      ensures StopsAtRefusal(log, |old(log)|)
      ensures Quiet(old(script)) ==> Quiet(script)
      ensures Still(old(script)) ==>
                && Still(script) && overcommit == old(overcommit)
                && OnlyEntry(NameOf(kind), old(deployments), deployments, ok)
                && (ok ==> resources == if kind.ClassController? then old(resources)
                                        else old(resources) + {CertificateOf(kind)})
      ensures Still(old(script)) && ToleratedFrom(log, |old(log)|) ==>
                Reconciles(kind, old(deployments), deployments, spec, env, OvercommitRef(o.uid), ok)
    {
      hide Desired, SyncDeployment, Storable, NormalSpec, NormalDeployment, Reflects, NameOf, OvercommitRef, Wanted,
           Valid, Logged, WasStored, Still, Quiet, CertificateOf, StoredUnder, Tolerated, ServiceOf, WebhookOf,
           SelectorMatches;
      before := None;
      var d := GenerateDeployment(kind, o, env, spec);
      if !kind.ClassController? {
        var refusal := EnsureExists(CertificateOf(kind));
        ToleratedEnsures(kind, refusal);
        assert log[|old(log)|] == Entry(Ensure(CertificateOf(kind)), refusal);
        if !refusal.Accepted? { return false, None; }
      }
      ok, before := CreateOrUpdate(kind, d, o, env, spec);
    }

    /** A full update of the Overcommit, which writes its spec too; refused unless its version is current. */
    method Update(o: Overcommit) returns (ok: bool)
      requires Valid() && o.version in overcommits && NormalSpec(o.Spec()) == NormalSpec(overcommits[o.version].spec)
      modifies this`overcommit, this`overcommits, this`deployments, this`pastDeployments, this`latest, this`edits,
               this`resources, this`script, this`log
      ensures Valid() && Later() && script == Rest(old(script))
      ensures log == old(log) + [Entry(WriteOvercommit, Next(old(script)).refusal)]
      ensures ok ==> Next(old(script)).refusal.Accepted?
      ensures ok ==> overcommit == Some(StoredOvercommit(latest, o.uid, o.finalizers, NormalSpec(o.Spec())))
      ensures Still(old(script)) ==>
                && deployments == old(deployments) && resources == old(resources)
                && (Next(old(script)).refusal.Accepted? ==>
                      (ok <==> old(overcommit).Some? && old(overcommit).value.version == o.version))
    {
      hide NormalSpec, Storable, Faithful, Still;
      var answer := Call(WriteOvercommit);
      if !answer.refusal.Accepted? || overcommit.None? || overcommit.value.version != o.version { return false; }
      assert NormalSpec(NormalSpec(o.Spec())) == NormalSpec(o.Spec()) by { NormalTwice(o.Spec()); }
      PutOvercommit(StoredOvercommit(latest + 1, o.uid, o.finalizers, NormalSpec(o.Spec())));
      return true;
    }

    /** A status update leaves the stored object alone but for its version, whatever the object in memory says. */
    method UpdateStatus(o: Overcommit) returns (refusal: Refusal)
      requires Valid()
      modifies this`overcommit, this`overcommits, this`deployments, this`pastDeployments, this`latest, this`edits,
               this`resources, this`script, this`log
      ensures Valid() && Later() && script == Rest(old(script))
      ensures log == old(log) + [Entry(WriteStatus, Next(old(script)).refusal)]
      ensures Still(old(script)) ==>
                && deployments == old(deployments) && resources == old(resources)
                && SameButVersion(old(overcommit), overcommit)
      ensures Still(old(script)) && old(overcommit).Some? && old(overcommit).value.version == o.version ==>
                && refusal == Next(old(script)).refusal
                && (refusal.Accepted? ==>
                      latest == old(latest) + 1 && overcommit == Some(old(overcommit).value.(version := latest)))
    {
      hide NormalSpec, Storable, Faithful, Still, Quiet;
      var answer := Call(WriteStatus);
      if !answer.refusal.Accepted? { return answer.refusal; }
      if overcommit.None? { return Fails; }
      if overcommit.value.version != o.version { return Conflicts; }
      PutOvercommit(overcommit.value.(version := latest + 1));
      return Accepted;
    }

    lemma VersionKnown()
      requires Valid() && overcommit.Some?
      ensures overcommit.value.version <= latest
    {
    }

    /** One attempt of updateOvercommitStatusSafely, which runs all three generators on the object it reads. */
    method TryStatus(env: Environment) returns (refusal: Refusal)
      requires Valid()
      modifies this`overcommit, this`overcommits, this`deployments, this`pastDeployments, this`latest, this`edits,
               this`resources, this`script, this`log
      ensures Valid() && Later() && old(log) <= log && ToleratedFrom(log, |old(log)|)
      ensures Still(old(script)) ==>
                && Still(script) && deployments == old(deployments) && resources == old(resources)
                && SameButVersion(old(overcommit), overcommit)
      ensures Quiet(old(script)) ==> Quiet(script)
      ensures Still(old(script)) ==>
                match refusal
                case Accepted => true
                case Conflicts => |log| == |old(log)| + 2
                case Fails => |log| > |old(log)| && EndsStatus(log[|log| - 1])
      ensures Quiet(old(script)) && old(overcommit).Some? ==>
                && refusal.Accepted? && latest == old(latest) + 1
                && overcommit == Some(old(overcommit).value.(version := latest))
    {
      hide Desired, Storable, NormalSpec, Faithful, Valid, Still, Quiet;
      QuietIsStill(script);
      var read := GetOvercommit(ReadForStatus);
      if !read.Found? { return if read.Absent? then Accepted else Fails; }
      var o := new Overcommit(read.value);
      GenerateAll(o, env, read.value.spec);
      refusal := UpdateStatus(o);
    }

    /** updateOvercommitStatusSafely: conflicts are tried again, five times in all. */
    method UpdateStatusSafely(env: Environment) returns (ok: bool)
      requires Valid()
      modifies this`overcommit, this`overcommits, this`deployments, this`pastDeployments, this`latest, this`edits,
               this`resources, this`script, this`log
      ensures Valid() && Later() && old(log) <= log && ToleratedFrom(log, |old(log)|)
      ensures Still(old(script)) ==>
                && Still(script) && deployments == old(deployments) && resources == old(resources)
                && SameButVersion(old(overcommit), overcommit)
      ensures Quiet(old(script)) ==> Quiet(script)
      ensures Still(old(script)) && !ok ==>
                |log| == |old(log)| + 10 || (|log| > |old(log)| && EndsStatus(log[|log| - 1]))
      ensures Quiet(old(script)) && old(overcommit).Some? ==>
                ok && latest == old(latest) + 1 && overcommit == Some(old(overcommit).value.(version := latest))
    {
      hide Valid, Still, Quiet;
      for attempt := 0 to 5
        invariant Valid() && Later() && old(log) <= log && ToleratedFrom(log, |old(log)|)
        invariant Still(old(script)) ==>
                    && Still(script) && deployments == old(deployments) && resources == old(resources)
                    && SameButVersion(old(overcommit), overcommit)
        invariant Quiet(old(script)) ==> Quiet(script)
        invariant Still(old(script)) ==> |log| == |old(log)| + 2 * attempt
        invariant Quiet(old(script)) && old(overcommit).Some? ==> attempt == 0 && Untouched()
      {
        var refusal := TryStatus(env);
        if !refusal.Conflicts? { return refusal.Accepted?; }
      }
      return false;
    }

    // ---------- Reconcile ----------

    /** A validator: its certificate and deployment, then its service and its webhook configuration. A conflict over
        the latter is passed over for the validator of pods. */
    method ReconcileValidator(kind: Kind, o: Overcommit, env: Environment, ghost spec: OvercommitSpec)
      returns (ok: bool)
      requires Valid() && Reflects(o, spec) && NormalSpec(spec) in edits && !kind.ClassController?
      modifies this, o.labels
      ensures Valid() && Reflects(o, spec) && Later() && old(writes) <= writes && old(log) <= log
      ensures ok ==> |writes| == |old(writes)| + 1 && Settles(writes[|old(writes)|], kind, spec)
      ensures ok ==>
                && |log| >= |old(log)| + 4 && log[|old(log)|].op == Ensure(CertificateOf(kind))
                && log[|old(log)| + 1].op == ReadDeployment(kind)
                && log[|log| - 2].op == Ensure(ServiceOf(kind)) && log[|log| - 1].op == Ensure(WebhookOf(kind))
      ensures ok || Quiet(old(script)) ==> ToleratedFrom(log, |old(log)|)
      ensures StopsAtRefusal(log, |old(log)|)
      ensures Quiet(old(script)) ==>
                && Quiet(script)
                && (ok ==> resources == old(resources) + {CertificateOf(kind), ServiceOf(kind), WebhookOf(kind)})
      ensures Still(old(script)) ==>
                && Still(script) && overcommit == old(overcommit)
                && deployments - {NameOf(kind)} == old(deployments) - {NameOf(kind)}
      ensures Still(old(script)) && ToleratedFrom(log, |old(log)|) ==>
                Reconciles(kind, old(deployments), deployments, spec, env, OvercommitRef(o.uid), ok)
    {
      hide Valid, Desired, SyncDeployment, Storable, NormalSpec, Reflects, NormalDeployment, NameOf, OvercommitRef,
           Settles, Still, Quiet, Wanted, StoredUnder, CertificateOf, ServiceOf, WebhookOf, WasStored, Tolerated;
      QuietIsStill(script);
      var before;
      ok, before := ReconcileDeployment(kind, o, env, spec);
      if !ok { return; }
      ghost var asked := |log|;
      var refusal := EnsureExists(ServiceOf(kind));
      ToleratedEnsures(kind, refusal);
      assert log[asked] == Entry(Ensure(ServiceOf(kind)), refusal);
      if !refusal.Accepted? { return false; }
      refusal := EnsureExists(WebhookOf(kind));
      ToleratedEnsures(kind, refusal);
      assert log[asked + 1] == Entry(Ensure(WebhookOf(kind)), refusal);
      ok := refusal.Accepted? || (kind.PodValidator? && refusal.Conflicts?);
      ghost var c, s, w := CertificateOf(kind), ServiceOf(kind), WebhookOf(kind);
      assert old(resources) + {c, s, w} == old(resources) + {c} + {s} + {w};
    }

    /** The two validators and the class controller, in order. */
    method ReconcileDeployments(o: Overcommit, env: Environment, ghost spec: OvercommitSpec) returns (ok: bool)
      requires Valid() && Reflects(o, spec) && NormalSpec(spec) in edits
      modifies this, o.labels
      ensures Valid() && Later() && old(writes) <= writes && old(log) <= log
      ensures ok ==> SettlesAll(writes, |old(writes)|, spec)
      ensures ok || Quiet(old(script)) ==> ToleratedFrom(log, |old(log)|)
      ensures StopsAtRefusal(log, |old(log)|)
      ensures Quiet(old(script)) && ok ==>
                && Quiet(script)
                && resources == old(resources)
                                + {CertificateOf(ClassValidator), ServiceOf(ClassValidator), WebhookOf(ClassValidator)}
                                + {CertificateOf(PodValidator), ServiceOf(PodValidator), WebhookOf(PodValidator)}
      ensures Still(old(script)) ==> Still(script) && overcommit == old(overcommit)
      ensures Still(old(script)) && ToleratedFrom(log, |old(log)|) ==>
                DeployedInOrder(old(deployments), deployments, spec, env, OvercommitRef(o.uid), ok)
    {
      hide Valid, Desired, SyncDeployment, Storable, NormalSpec, Faithful, Reflects, NormalDeployment, NameOf,
           OvercommitRef, Settles, Still, Quiet, Wanted, StoredUnder, Tolerated, CertificateOf, ServiceOf, WebhookOf,
           Reconciles, DeployedInOrder;
      QuietIsStill(script);
      ghost var d0, ref := deployments, OvercommitRef(o.uid);
      ok := ReconcileValidator(ClassValidator, o, env, spec);
      ghost var d1 := deployments;
      if !ok {
        if Still(old(script)) && ToleratedFrom(log, |old(log)|) {
          OneAfterTheOther(d0, d1, d1, d1, spec, env, ref, false, false, false);
        }
        return;
      }
      ok := ReconcileValidator(PodValidator, o, env, spec);
      ghost var d2 := deployments;
      if !ok {
        if Still(old(script)) && ToleratedFrom(log, |old(log)|) {
          OneAfterTheOther(d0, d1, d2, d2, spec, env, ref, true, false, false);
        }
        return;
      }
      var seen;
      ok, seen := ReconcileDeployment(ClassController, o, env, spec);
      if Still(old(script)) && ToleratedFrom(log, |old(log)|) {
        OneAfterTheOther(d0, d1, d2, deployments, spec, env, ref, true, true, ok);
      }
    }

    /** The issuer, the deployments with what belongs to them, then the status. */
    method ReconcileResources(o: Overcommit, env: Environment, ghost spec: OvercommitSpec) returns (result: CallResult)
      requires Valid() && Reflects(o, spec) && NormalSpec(spec) in edits
      modifies this, o.labels
      ensures Valid() && Later() && old(writes) <= writes && old(log) <= log
      ensures result in [Reconciled, Errored]
      ensures result.Reconciled? ==> SettlesAll(writes, |old(writes)|, spec)
      ensures result.Reconciled? || Quiet(old(script)) ==> ToleratedFrom(log, |old(log)|)
      ensures StopsAtRefusal(log, |old(log)|)
      ensures Still(old(script)) ==> Still(script) && SameButVersion(old(overcommit), overcommit)
      ensures Still(old(script)) && ToleratedFrom(log, |old(log)|) ==>
                DeployedInOrder(old(deployments), deployments, spec, env, OvercommitRef(o.uid), result.Reconciled?)
      ensures Quiet(old(script)) && result.Reconciled? ==>
                && Quiet(script)
                && resources == old(resources) + RESOURCES_ENSURED
                && (old(overcommit).Some? ==>
                      && overcommit == Some(old(overcommit).value.(version := latest))
                      && latest > old(overcommit).value.version)
    {
      ResourcesOfKinds();
      hide Valid, NormalSpec, Reflects, OvercommitRef, SettlesAll, Still, Quiet, Tolerated, CertificateOf,
           ServiceOf, WebhookOf, DeployedInOrder, SameButVersion, Wanted, StoredUnder, NameOf, Desired;
      QuietIsStill(script);
      SameVersionToo(overcommit);
      var refusal := EnsureExists(ISSUER);
      ToleratedEnsures(PodValidator, refusal);
      assert log[|old(log)|] == Entry(Ensure(ISSUER), refusal);
      if !refusal.Accepted? { return Errored; }
      var ok := ReconcileDeployments(o, env, spec);
      if !ok { return Errored; }
      if overcommit.Some? { VersionKnown(); }
      var _ := UpdateStatusSafely(env); // its error is only logged
      return Reconciled;
    }

    /** The label, then the Overcommit itself; without a label the call fails. */
    method ReadLabelAndOvercommit() returns (read: Read<StoredOvercommit>)
      requires Valid()
      modifies this`overcommit, this`overcommits, this`deployments, this`pastDeployments, this`latest, this`edits,
               this`resources, this`script, this`log
      ensures Valid() && Later() && old(log) <= log
      ensures read.Found? ==> Known(read.value) && NormalSpec(read.value.spec) in edits
      ensures !read.ReadError? || Quiet(old(script)) ==> ToleratedFrom(log, |old(log)|)
      ensures StopsAtRefusal(log, |old(log)|)
      ensures Quiet(old(script)) ==> Quiet(script)
      ensures Still(old(script)) ==> Still(script) && Untouched()
      ensures Still(old(script)) && ToleratedFrom(log, |old(log)|) ==>
                read == if old(overcommit).Some? then Found(old(overcommit).value) else ReadError
    {
      hide NormalSpec, Valid, Still, Quiet;
      QuietIsStill(script);
      read := GetOvercommit(ReadLabel);
      assert log[|old(log)|].op.ReadLabel?;
      if !read.Found? { return ReadError; }
      read := GetOvercommit(ReadOvercommit);
      assert log[|old(log)| + 1].op.ReadOvercommit?;
    }

    /** Legacy finalizers are removed from the object, and if there were any it is written back. */
    method MigrateFinalizers(o: Overcommit) returns (removed: bool, ok: bool)
      requires Valid() && o.version in overcommits && NormalSpec(o.Spec()) == NormalSpec(overcommits[o.version].spec)
      modifies this`overcommit, this`overcommits, this`deployments, this`pastDeployments, this`latest, this`edits,
               this`resources, this`script, this`log, o`finalizers
      ensures Valid() && Later() && old(log) <= log
      ensures removed <==> HasLegacy(old(o.finalizers))
      ensures !removed ==> Untouched() && log == old(log) && script == old(script)
      ensures removed && (ok || Quiet(old(script))) ==> ToleratedFrom(log, |old(log)|)
      ensures StopsAtRefusal(log, |old(log)|)
      ensures removed && ok ==>
                overcommit == Some(StoredOvercommit(latest, o.uid, Cleaned(old(o.finalizers)), NormalSpec(o.Spec())))
      ensures Quiet(old(script)) ==> Quiet(script)
      ensures removed && Still(old(script)) ==>
                && deployments == old(deployments) && resources == old(resources)
                && (ToleratedFrom(log, |old(log)|) ==>
                      (ok <==> old(overcommit).Some? && old(overcommit).value.version == o.version))
    {
      hide NormalSpec, Valid, Still, Quiet, HasLegacy, Cleaned;
      removed := RemoveFinalizers(o);
      ok := true;
      if removed {
        ok := Update(o);
        assert log[|old(log)|].op.WriteOvercommit?;
      }
    }

    /** One call of Reconcile, against any other writers. `seen` is the Overcommit it read.
        It requeues only for one with a legacy finalizer, and has then stored it without; it is done only for one with
        none, and has then settled all three deployments for its spec. It stops at the first refusal that is not
        tolerated, and fails then. Without others and such refusals, ExactCall says what it does. */
    method Reconcile(env: Environment) returns (result: CallResult, ghost seen: Option<StoredOvercommit>)
      requires Valid()
      modifies this
      ensures Valid() && Later() && old(writes) <= writes && old(log) <= log
      ensures seen.Some? ==> Known(seen.value)
      ensures !result.Errored? || Quiet(old(script)) ==> ToleratedFrom(log, |old(log)|)
      ensures StopsAtRefusal(log, |old(log)|)
      ensures result.NotFound? || result.Requeued? ==> writes == old(writes)
      ensures result.Requeued? ==>
                && seen.Some? && HasLegacy(seen.value.finalizers)
                && overcommit == Some(StoredOvercommit(latest, seen.value.uid, Cleaned(seen.value.finalizers),
                                                       NormalSpec(seen.value.spec)))
      ensures result.Reconciled? ==>
                && seen.Some? && !HasLegacy(seen.value.finalizers)
                && SettlesAll(writes, |old(writes)|, seen.value.spec)
      ensures Quiet(old(script)) && !result.Errored? ==> Quiet(script)
      ensures Still(old(script)) && ToleratedFrom(log, |old(log)|) ==>
                ExactCall(old(overcommit), overcommit, old(deployments), deployments, env, result, seen)
      ensures Quiet(old(script)) && result.Reconciled? ==>
                && resources == old(resources) + RESOURCES_ENSURED
                && overcommit == Some(old(overcommit).value.(version := latest))
                && latest > old(overcommit).value.version
    {
      hide Desired, NormalSpec, Valid, Still, Quiet, HasLegacy, Cleaned, DeployedInOrder, SettlesAll, OvercommitRef,
           Tolerated;
      QuietIsStill(script);
      var read := ReadLabelAndOvercommit();
      if read.ReadError? { return Errored, None; }
      if read.Absent? { return NotFound, None; }
      seen := Some(read.value);
      ghost var spec := read.value.spec;
      var o := new Overcommit(read.value);
      var removed, ok := MigrateFinalizers(o);
      if removed { return if ok then Requeued else Errored, seen; }
      result := ReconcileResources(o, env, spec);
    }

    /** Any number of calls, with any edits before, between and inside them. */
    method Run(calls: nat, env: Environment)
      requires Valid()
      modifies this
      ensures Valid() && Later() && old(writes) <= writes
      ensures overcommit.Some? ==> NormalSpec(overcommit.value.spec) == edits[|edits| - 1]
      ensures forall w <- writes :: w.submitted.template.labels == Some(WithApp(w.spec.labels, AppOf(w.kind)))
      ensures forall w <- writes :: OwnSelector(w) ==>
                && OwnLabel(w.kind, w.submitted)
                && w.submitted.selector == SelectorOf(w.kind) && SelectorMatches(w.submitted)
    {
      hide WithApp, NormalSpec, OwnSelector, OwnLabel, SelectorMatches;
      for i := 0 to calls
        invariant Valid() && Later() && old(writes) <= writes
      {
        var _, _ := Reconcile(env);
      }
      forall w <- writes
        ensures w.submitted.template.labels == Some(WithApp(w.spec.labels, AppOf(w.kind)))
        ensures OwnSelector(w) ==> OwnLabel(w.kind, w.submitted) && SelectorMatches(w.submitted)
        ensures OwnSelector(w) ==> w.submitted.selector == SelectorOf(w.kind)
      {
        WritesCarryTheirOwnLabel(w);
      }
    }
  }
}
