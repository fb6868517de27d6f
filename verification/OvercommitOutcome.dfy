/** The three deployments of the singleton's reconciler, as the user asked for them, field by field and under the
    names the cluster knows (internal/controller/overcommit/overcommit_controller.go). */
module OvercommitOutcome {
  import opened Wrappers
  import opened Api
  import opened Comparators
  import opened Generators
  import opened ClassState
  import opened ClassConvergence
  import opened Answers
  import opened OvercommitReconciler
  import ResourceFit

  function DeploymentName(kind: Kind): string {
    match kind
    case ClassValidator => "k8s-overcommit-class-validating-webhook"
    case PodValidator => "k8s-overcommit-pod-validating-webhook"
    case ClassController => "k8s-overcommit-overcommitclass-controller"
  }

  function AppLabel(kind: Kind): string {
    match kind
    case ClassValidator => "k8s-overcommit-class-validating-webhook"
    case PodValidator => "k8s-overcommit-pod-validating-webhook"
    case ClassController => "overcommit-controller"
  }

  /** The variable that turns a process into the one of this kind. */
  function Switch(kind: Kind): string {
    match kind
    case ClassValidator => "ENABLE_OC_VALIDATING_WEBHOOK"
    case PodValidator => "ENABLE_POD_VALIDATING_WEBHOOK"
    case ClassController => "ENABLE_OVERCOMMIT_CLASS_CONTROLLER"
  }

  predicate TellsProcess(kind: Kind, env: Environment, variables: seq<EnvVar>) {
    && |variables| == (if kind.PodValidator? then 8 else 7)
    && HasVariable(variables, Switch(kind), "true")
    && HasVariable(variables, "IMAGE_REGISTRY", env.imageRegistry)
    && HasVariable(variables, "IMAGE_REPOSITORY", env.imageRepository)
    && HasVariable(variables, "APP_VERSION", env.appVersion)
    && HasVariable(variables, "POD_NAMESPACE", env.podNamespace)
    && HasVariable(variables, "POD_NAME", "")
    && (!kind.ClassController? ==> HasVariable(variables, "WEBHOOK_CERT_DIR", "/etc/webhook/config"))
    && (!kind.ClassValidator? ==> HasVariable(variables, "SERVICE_ACCOUNT_NAME", env.serviceAccount))
  }

  /** What the comparators look at is as the user's spec and the environment have it. */
  ghost predicate AsAsked(kind: Kind, spec: OvercommitSpec, env: Environment, d: Deployment) {
    && LabelValue(d.template.labels, "app") == Some(AppLabel(kind))
    && (forall key :: key != "app" ==> LabelValue(d.template.labels, key) == LabelValue(spec.labels, key))
    && ResourceFit.SameValues(d.template.annotations, spec.annotations)
    && ResourceFit.SameValues(d.template.nodeSelector, spec.nodeSelector)
    && d.template.containers != []
    && d.template.containers[0].image == env.imageRegistry + "/" + env.imageRepository + ":" + env.appVersion
    && TellsProcess(kind, env, d.template.containers[0].env)
    && TolerationsUnseen(spec.tolerations, d.template.tolerations)
  }

  /** Of a deployment that did not exist before, so is the rest. */
  predicate CreatedAsAsked(kind: Kind, spec: OvercommitSpec, env: Environment, uid: string, d: Deployment) {
    && d.selector == map["app" := AppLabel(kind)]
    && d.template.serviceAccount == env.serviceAccount
    && d.template.secretVolume
       == (match kind
           case ClassValidator => "oc-validating-webhook"
           case PodValidator => "pod-validating-webhook"
           case ClassController => "")
    && |d.template.containers| == 1 && d.template.containers[0].name == AppLabel(kind)
    && EnvVar("POD_NAME", "", Some("metadata.name")) in d.template.containers[0].env
    && d.template.tolerations == (if spec.tolerations == Some([]) then None else spec.tolerations)
    && d.owners == [OwnerReference("Overcommit", "cluster", uid, true)]
  }

  // ---------- What a reconcile wants is that ----------

  lemma VariableNames(kind: Kind, env: Environment)
    ensures var v := EnvOf(kind, env);
            && v[0].name == Switch(kind) && v[1].name == "IMAGE_REGISTRY" && v[2].name == "IMAGE_REPOSITORY"
            && v[3].name == "APP_VERSION"
            && match kind
               case ClassValidator =>
                 |v| == 7 && v[4].name == "WEBHOOK_CERT_DIR" && v[5].name == "POD_NAME" && v[6].name == "POD_NAMESPACE"
               case PodValidator =>
                 && |v| == 8 && v[4].name == "WEBHOOK_CERT_DIR" && v[5].name == "SERVICE_ACCOUNT_NAME"
                 && v[6].name == "POD_NAMESPACE" && v[7].name == "POD_NAME"
               case ClassController =>
                 && |v| == 7 && v[4].name == "POD_NAMESPACE" && v[5].name == "SERVICE_ACCOUNT_NAME"
                 && v[6].name == "POD_NAME"
  {
  }

  lemma GeneratedNamesDistinct(kind: Kind, env: Environment)
    ensures DistinctNames(EnvOf(kind, env)) && DistinctKeys(EnvPairs(EnvOf(kind, env)))
  {
    VariableNames(kind, env);
    var v := EnvOf(kind, env);
    hide EnvOf;
    assert Switch(kind)[0] == 'E' && "IMAGE_REGISTRY"[8] == 'G' && "IMAGE_REPOSITORY"[8] == 'P';
    assert |"APP_VERSION"| == 11 && |"POD_NAME"| == 8 && |"POD_NAMESPACE"| == 13;
    assert "WEBHOOK_CERT_DIR"[0] == 'W' && "SERVICE_ACCOUNT_NAME"[0] == 'S' && "IMAGE_REGISTRY"[0] == 'I';
    assert "IMAGE_REPOSITORY"[0] == 'I' && "APP_VERSION"[0] == 'A' && "POD_NAME"[0] == 'P' && "POD_NAMESPACE"[0] == 'P';
    assert DistinctNames(v);
    assert forall i :: 0 <= i < |v| ==> EnvPairs(v)[i].0 == v[i].name;
  }

  lemma GeneratedTells(kind: Kind, env: Environment)
    ensures TellsProcess(kind, env, EnvOf(kind, env))
    ensures EnvVar("POD_NAME", "", Some("metadata.name")) in EnvOf(kind, env)
  {
    VariableNames(kind, env);
  }

  lemma GeneratedVariables(kind: Kind, env: Environment)
    ensures DistinctNames(EnvOf(kind, env)) && TellsProcess(kind, env, EnvOf(kind, env))
    ensures EnvVar("POD_NAME", "", Some("metadata.name")) in EnvOf(kind, env)
    ensures DistinctKeys(EnvPairs(EnvOf(kind, env)))
  {
    hide EnvOf, TellsProcess, DistinctNames, EnvPairs;
    GeneratedNamesDistinct(kind, env);
    GeneratedTells(kind, env);
  }

  lemma StoredVariables(kind: Kind, env: Environment, variables: seq<EnvVar>)
    requires multiset(EnvPairs(variables)) == multiset(EnvPairs(EnvOf(kind, env)))
    ensures TellsProcess(kind, env, variables)
  {
    GeneratedVariables(kind, env);
    var a := EnvOf(kind, env);
    SameBindingsIsPermutation(EnvPairs(a), EnvPairs(variables));
    EnvVarsEqualOnVariables(a, variables);
    hide EnvOf, HasVariable, SameBindings, EnvPairs;
    ResourceFit.VariableKept(a, variables, Switch(kind), "true");
    ResourceFit.VariableKept(a, variables, "IMAGE_REGISTRY", env.imageRegistry);
    ResourceFit.VariableKept(a, variables, "IMAGE_REPOSITORY", env.imageRepository);
    ResourceFit.VariableKept(a, variables, "APP_VERSION", env.appVersion);
    ResourceFit.VariableKept(a, variables, "POD_NAMESPACE", env.podNamespace);
    ResourceFit.VariableKept(a, variables, "POD_NAME", "");
    ResourceFit.VariableKept(a, variables, "WEBHOOK_CERT_DIR", "/etc/webhook/config");
    ResourceFit.VariableKept(a, variables, "SERVICE_ACCOUNT_NAME", env.serviceAccount);
  }

  lemma InSyncAsAsked(kind: Kind, spec: OvercommitSpec, env: Environment, d: Deployment)
    requires DeploymentInSync(Desired(kind, spec, env), d) && d.template.containers != []
    ensures AsAsked(kind, spec, env, d)
  {
    ResourceFit.NormalMapValues(spec.annotations);
    ResourceFit.NormalMapValues(spec.nodeSelector);
    ResourceFit.WithAppValues(spec.labels, AppOf(kind));
    assert NormalMap(Some(map[])) == None;
    assert AppOf(kind) == AppLabel(kind);
    hide WithApp, NormalMap, TolerationsAgree, EnvOf, LabelValue, EnvPairs, TellsProcess;
    StoredVariables(kind, env, d.template.containers[0].env);
  }

  lemma WantedInSync(kind: Kind, spec: OvercommitSpec, env: Environment, ref: OwnerReference,
                     before: Option<Deployment>)
    requires before.Some? ==> Storable(before.value)
    requires Wanted(kind, spec, env, ref, before).Some?
    ensures DeploymentInSync(Desired(kind, spec, env), Wanted(kind, spec, env, ref, before).value)
    ensures Wanted(kind, spec, env, ref, before).value.template.containers != []
  {
    var updated := Desired(kind, spec, env);
    GeneratedVariables(kind, env);
    assert |updated.template.containers| == 1 && updated.template.containers[0].env == EnvOf(kind, env);
    hide SyncDeployment, Desired, EnvOf, EnvPairs, NormalDeployment, DeploymentInSync, SelectorMatches, TellsProcess;
    SyncedInSync(updated, ref, before);
  }

  /** Whatever was stored before: the deployment wanted is as the user asked. */
  lemma WantedAsAsked(kind: Kind, spec: OvercommitSpec, env: Environment, ref: OwnerReference,
                      before: Option<Deployment>)
    requires before.Some? ==> Storable(before.value)
    requires Wanted(kind, spec, env, ref, before).Some?
    ensures AsAsked(kind, spec, env, Wanted(kind, spec, env, ref, before).value)
  {
    hide Wanted, DeploymentInSync, Storable, AsAsked;
    WantedInSync(kind, spec, env, ref, before);
    InSyncAsAsked(kind, spec, env, Wanted(kind, spec, env, ref, before).value);
  }

  lemma WantedNew(kind: Kind, spec: OvercommitSpec, env: Environment, ref: OwnerReference)
    requires Wanted(kind, spec, env, ref, None).Some?
    ensures Wanted(kind, spec, env, ref, None) == Some(NormalDeployment(Desired(kind, spec, env).(owners := [ref])))
  {
    hide Desired, NormalDeployment, Storable;
  }

  lemma CreatedIsAsAsked(kind: Kind, spec: OvercommitSpec, env: Environment, uid: string)
    requires Wanted(kind, spec, env, OvercommitRef(uid), None).Some?
    ensures CreatedAsAsked(kind, spec, env, uid, Wanted(kind, spec, env, OvercommitRef(uid), None).value)
  {
    GeneratedTells(kind, env);
    WantedNew(kind, spec, env, OvercommitRef(uid));
    assert AppOf(kind) == AppLabel(kind);
    hide Wanted, WithApp, EnvOf, NormalMap, TellsProcess;
  }

  /** It can be stored if nothing is stored yet, or what is stored has the generated selector and nobody else
      controls it. */
  predicate NotInTheWay(kind: Kind, uid: string, before: Option<Deployment>) {
    before.Some? ==>
      && before.value.selector == map["app" := AppLabel(kind)]
      && !OwnedByOther(OwnerReference("Overcommit", "cluster", uid, true), before.value.owners)
  }

  lemma AppSelected(selector: StringMap, labels: Option<StringMap>, app: string)
    requires selector == map["app" := app] && LabelValue(labels, "app") == Some(app)
    ensures labels.Some? && forall k <- selector :: k in labels.value && labels.value[k] == selector[k]
  {
  }

  lemma SyncKeepsSelector(updated: Deployment, ref: OwnerReference, before: Option<Deployment>)
    requires SyncDeployment(updated, ref, before).Some?
    ensures SyncDeployment(updated, ref, before).value.selector
            == if before.Some? then before.value.selector else updated.selector
    ensures |SyncDeployment(updated, ref, before).value.template.containers|
            == |if before.Some? then before.value.template.containers else updated.template.containers|
  {
    hide DeploymentAccepted, OwnedByOther, Upsert, NormalMap, TolerationsAgree, SameBindings, EnvPairs;
  }

  lemma SyncPossible(updated: Deployment, ref: OwnerReference, before: Option<Deployment>)
    requires before.Some? ==> !OwnedByOther(ref, before.value.owners)
    ensures SyncDeployment(updated, ref, before).Some?
  {
    hide DeploymentAccepted, OwnedByOther, Upsert, NormalDeployment;
  }

  lemma AppAsAsked(kind: Kind, spec: OvercommitSpec, env: Environment, d: Deployment)
    requires AsAsked(kind, spec, env, d)
    ensures LabelValue(d.template.labels, "app") == Some(AppLabel(kind))
  {
    hide TellsProcess, LabelValue;
  }

  lemma DesiredParts(kind: Kind, spec: OvercommitSpec, env: Environment)
    ensures var d := Desired(kind, spec, env);
            && |d.template.containers| == 1 && d.template.containers[0].env == EnvOf(kind, env)
            && d.selector == map["app" := AppLabel(kind)]
  {
  }

  lemma SyncStorable(kind: Kind, spec: OvercommitSpec, env: Environment, ref: OwnerReference,
                     before: Option<Deployment>)
    requires ref.controller && SyncDeployment(Desired(kind, spec, env), ref, before).Some?
    requires before.Some? ==> Storable(before.value) && before.value.selector == map["app" := AppLabel(kind)]
    ensures Storable(SyncDeployment(Desired(kind, spec, env), ref, before).value)
  {
    var updated, d := Desired(kind, spec, env), SyncDeployment(Desired(kind, spec, env), ref, before).value;
    DesiredParts(kind, spec, env);
    hide SyncDeployment, Desired, EnvOf, EnvPairs, NormalDeployment, DeploymentInSync, AsAsked, OwnedByOther;
    GeneratedVariables(kind, env);
    DeploymentStable(updated, ref, before);
    SyncedInSync(updated, ref, before);
    SyncKeepsSelector(updated, ref, before);
    InSyncAsAsked(kind, spec, env, d);
    AppAsAsked(kind, spec, env, d);
    AppSelected(d.selector, d.template.labels, AppLabel(kind));
  }

  lemma WantedExists(kind: Kind, spec: OvercommitSpec, env: Environment, uid: string, before: Option<Deployment>)
    requires NotInTheWay(kind, uid, before) && (before.Some? ==> Storable(before.value))
    ensures Wanted(kind, spec, env, OvercommitRef(uid), before).Some?
  {
    hide SyncDeployment, Desired, Storable;
    SyncPossible(Desired(kind, spec, env), OvercommitRef(uid), before);
    SyncStorable(kind, spec, env, OvercommitRef(uid), before);
  }

  /** What is wanted, once stored, is wanted again: a second reconcile leaves it as it is. */
  lemma WantedTwice(kind: Kind, spec: OvercommitSpec, env: Environment, uid: string, before: Option<Deployment>)
    requires before.Some? ==> Storable(before.value)
    requires Wanted(kind, spec, env, OvercommitRef(uid), before).Some?
    ensures var once := Wanted(kind, spec, env, OvercommitRef(uid), before);
            Wanted(kind, spec, env, OvercommitRef(uid), once) == once
  {
    DesiredParts(kind, spec, env);
    hide SyncDeployment, Desired, SelectorMatches;
    DeploymentStable(Desired(kind, spec, env), OvercommitRef(uid), before);
  }

  /** Where the user gave no annotations, the class controller's deployment is rejected on every reconcile, because its
      generator makes an empty map of nil, and none is stored: it gets its owner back each time, and cannot be
      reconciled under another's control even with nothing to change. The validators' are left alone once in sync. */
  lemma ControllerNeverAccepted(kind: Kind, spec: OvercommitSpec, env: Environment, uid: string, d: Deployment)
    requires Storable(d) && spec.annotations.None?
    ensures var ref := OwnerReference("Overcommit", "cluster", uid, true);
            var wanted := Wanted(kind, spec, env, ref, Some(d));
            && (kind.ClassController? ==>
                  && !DeploymentAccepted(Desired(kind, spec, env), d)
                  && (wanted.Some? ==> ref in wanted.value.owners)
                  && (OwnedByOther(ref, d.owners) ==> wanted.None?))
            && (!kind.ClassController? && DeploymentAccepted(Desired(kind, spec, env), d.(owners := [])) ==>
                  wanted == Some(d))
  {
    var ref := OwnerReference("Overcommit", "cluster", uid, true);
    UpsertIdempotent(ref, d.owners);
    assert Desired(ClassController, spec, env).template.annotations == Some(map[]);
    assert d.template.annotations != Some(map[]);
    hide Desired, OwnedByOther, Upsert, SelectorMatches, SameBindings, EnvPairs, TolerationsAgree;
  }

  // ---------- From a stored Overcommit to its deployments ----------

  lemma UnseenByNone(stored: Option<seq<Toleration>>)
    ensures TolerationsUnseen(None, stored) <==> stored == None
  {
  }

  lemma NormalSpecAsAsked(kind: Kind, spec: OvercommitSpec, env: Environment, uid: string, d: Deployment)
    ensures AsAsked(kind, NormalSpec(spec), env, d) ==> AsAsked(kind, spec, env, d)
    ensures CreatedAsAsked(kind, NormalSpec(spec), env, uid, d) ==> CreatedAsAsked(kind, spec, env, uid, d)
  {
    ResourceFit.NormalMapValues(spec.labels);
    ResourceFit.NormalMapValues(spec.annotations);
    ResourceFit.NormalMapValues(spec.nodeSelector);
    if spec.tolerations == Some([]) { UnseenByNone(d.template.tolerations); }
    hide TellsProcess, TolerationsAgree, LabelValue, NormalMap;
  }

  /** The deployment of this kind is stored as the user asked, all of it if there was none before. */
  ghost predicate DeployedAsAsked(kind: Kind, spec: OvercommitSpec, env: Environment, uid: string,
                                  before: Option<Deployment>, after: Option<Deployment>) {
    && after.Some?
    && AsAsked(kind, spec, env, after.value)
    && (before.None? ==> CreatedAsAsked(kind, spec, env, uid, after.value))
  }

  lemma DeployedForNormal(kind: Kind, spec: OvercommitSpec, env: Environment, uid: string, before: Option<Deployment>,
                          after: Option<Deployment>)
    requires DeployedAsAsked(kind, NormalSpec(spec), env, uid, before, after)
    ensures DeployedAsAsked(kind, spec, env, uid, before, after)
  {
    NormalSpecAsAsked(kind, spec, env, uid, after.value);
    hide AsAsked, CreatedAsAsked, NormalSpec;
  }

  lemma StoredStorable(cluster: Cluster, name: string)
    requires cluster.Valid() && name in cluster.deployments
    ensures Storable(cluster.deployments[name].deployment)
  {
    hide Storable, Faithful, NormalSpec;
  }

  lemma DeployedKind(kind: Kind, spec: OvercommitSpec, env: Environment, uid: string, before: Option<Deployment>)
    requires NotInTheWay(kind, uid, before) && (before.Some? ==> Storable(before.value))
    ensures var wanted := Wanted(kind, spec, env, OvercommitRef(uid), before);
            wanted.Some? && DeployedAsAsked(kind, spec, env, uid, before, wanted)
  {
    WantedExists(kind, spec, env, uid, before);
    hide Wanted, AsAsked, CreatedAsAsked, NotInTheWay, Storable;
    WantedAsAsked(kind, spec, env, OvercommitRef(uid), before);
    if before.None? { CreatedIsAsAsked(kind, spec, env, uid); }
  }

  lemma DeployedAll(before: map<string, StoredDeployment>, after: map<string, StoredDeployment>, spec: OvercommitSpec,
                    env: Environment, uid: string, all: bool)
    requires DeployedInOrder(before, after, spec, env, OvercommitRef(uid), all)
    requires forall kind :: NotInTheWay(kind, uid, StoredUnder(before, DeploymentName(kind)))
    requires forall name <- before :: Storable(before[name].deployment)
    ensures all
    ensures forall kind ::
              DeployedAsAsked(kind, spec, env, uid, StoredUnder(before, DeploymentName(kind)),
                              StoredUnder(after, DeploymentName(kind)))
  {
    assert forall kind: Kind :: NameOf(kind) == DeploymentName(kind);
    hide Wanted, NotInTheWay, Storable, DeployedAsAsked, NameOf, DeploymentName, OvercommitRef;
    DeployedKind(ClassValidator, spec, env, uid, StoredUnder(before, DeploymentName(ClassValidator)));
    DeployedKind(PodValidator, spec, env, uid, StoredUnder(before, DeploymentName(PodValidator)));
    DeployedKind(ClassController, spec, env, uid, StoredUnder(before, DeploymentName(ClassController)));
    forall kind: Kind
      ensures DeployedAsAsked(kind, spec, env, uid, StoredUnder(before, DeploymentName(kind)),
                              StoredUnder(after, DeploymentName(kind)))
    {
      match kind
      case ClassValidator =>
      case PodValidator =>
      case ClassController =>
    }
  }

  /** The resources that are only created: issuer, certificates, services and webhook configurations. */
  predicate OthersExist(resources: set<Resource>) {
    && ("issuer", "k8s-overcommit-issuer") in resources
    && ("overcommitclass-certificate", "oc-validating-webhook") in resources
    && ("overcommitclass-service", "k8s-overcommit-class-validating-webhook-service") in resources
    && ("overcommitclass-webhook", "k8s-overcommit-class-validating-webhook") in resources
    && ("pod-certificate", "pod-validating-webhook") in resources
    && ("pod-service", "k8s-overcommit-pod-validating-webhook-service") in resources
    && ("pod-webhook", "k8s-overcommit-pod-validating-webhook") in resources
  }

  lemma CleanedMembers(finalizers: seq<string>, f: string)
    ensures f in Cleaned(finalizers) <==>
            f in finalizers && f != "overcommit.finalizer" && f != "webhook.finalizer"
    ensures !HasLegacy(Cleaned(finalizers))
  {
    var once := RemoveAll(finalizers, LEGACY_FINALIZERS[0]);
    RemoveKeepsOthers(finalizers, LEGACY_FINALIZERS[0], f);
    RemoveKeepsOthers(once, LEGACY_FINALIZERS[1], f);
    RemoveKeepsOthers(finalizers, LEGACY_FINALIZERS[0], "overcommit.finalizer");
    RemoveKeepsOthers(once, LEGACY_FINALIZERS[1], "overcommit.finalizer");
    RemoveKeepsOthers(once, LEGACY_FINALIZERS[1], "webhook.finalizer");
  }

  /** As the work queue does: a call, and another one if it asks for that. With nobody else writing, no call refused,
      and no deployment of someone else's in the way: the Overcommit loses its legacy finalizers and keeps its others
      and its spec, all three deployments are stored as its user asked, and everything else exists. */
  method ReconcileUntilDone(cluster: Cluster, env: Environment) returns (calls: nat)
    requires cluster.Valid() && Quiet(cluster.script) && cluster.overcommit.Some?
    requires forall kind ::
               NotInTheWay(kind, cluster.overcommit.value.uid, StoredUnder(cluster.deployments, DeploymentName(kind)))
    modifies cluster
    ensures cluster.Valid() && cluster.overcommit.Some?
    ensures var before, after := old(cluster.overcommit).value, cluster.overcommit.value;
            && calls == (if HasLegacy(before.finalizers) then 2 else 1)
            && after.uid == before.uid && NormalSpec(after.spec) == NormalSpec(before.spec)
            && (forall f :: f in after.finalizers <==>
                  f in before.finalizers && f != "overcommit.finalizer" && f != "webhook.finalizer")
            && after.version > before.version
    ensures var o := old(cluster.overcommit).value;
            forall kind ::
              DeployedAsAsked(kind, o.spec, env, o.uid, StoredUnder(old(cluster.deployments), DeploymentName(kind)),
                              StoredUnder(cluster.deployments, DeploymentName(kind)))
    ensures OthersExist(cluster.resources)
  {
    ghost var o, before := cluster.overcommit.value, cluster.deployments;
    forall name | name in before ensures Storable(before[name].deployment) { StoredStorable(cluster, name); }
    QuietIsStill(cluster.script);
    forall f
      ensures f in Cleaned(o.finalizers) <==>
              f in o.finalizers && f != "overcommit.finalizer" && f != "webhook.finalizer"
      ensures !HasLegacy(Cleaned(o.finalizers))
    {
      CleanedMembers(o.finalizers, f);
    }
    assert OthersExist(RESOURCES_ENSURED);
    hide NotInTheWay, Storable, DeployedAsAsked, DeployedInOrder, Still, Quiet, NormalSpec, OvercommitRef, Cleaned;
    var result, seen := cluster.Reconcile(env);
    calls := 1;
    if result.Requeued? {
      QuietIsStill(cluster.script);
      ghost var stored := cluster.overcommit.value;
      result, seen := cluster.Reconcile(env);
      calls := 2;
      DeployedAll(before, cluster.deployments, stored.spec, env, o.uid, result.Reconciled?);
      forall kind: Kind
        ensures DeployedAsAsked(kind, o.spec, env, o.uid, StoredUnder(before, DeploymentName(kind)),
                                StoredUnder(cluster.deployments, DeploymentName(kind)))
      {
        DeployedForNormal(kind, o.spec, env, o.uid, StoredUnder(before, DeploymentName(kind)),
                          StoredUnder(cluster.deployments, DeploymentName(kind)));
      }
    } else {
      DeployedAll(before, cluster.deployments, o.spec, env, o.uid, result.Reconciled?);
    }
  }
}
