/** What one call of OvercommitClassReconciler.Reconcile does to the stored objects
    (internal/controller/overcommitclass/overcommitclass_controller.go), as functions on values.

    The reconciler itself is in ClassReconciler; it is proved to do exactly this. */
module ClassState {
  import opened Wrappers
  import opened Api
  import opened Comparators
  import opened Generators

  // ---------- Owner references (controllerutil.SetControllerReference) ----------

  predicate SameOwner(a: OwnerReference, b: OwnerReference) {
    a.kind == b.kind && a.name == b.name
  }

  /** The first controller reference. */
  function ControllerOf(owners: seq<OwnerReference>): Option<OwnerReference> {
    if owners == [] then None
    else if owners[0].controller then Some(owners[0])
    else ControllerOf(owners[1..])
  }

  /** Replaces the first reference to the same owner, or appends. */
  function Upsert(ref: OwnerReference, owners: seq<OwnerReference>): seq<OwnerReference> {
    if owners == [] then [ref]
    else if SameOwner(owners[0], ref) then [ref] + owners[1..]
    else [owners[0]] + Upsert(ref, owners[1..])
  }

  predicate OwnedByOther(ref: OwnerReference, owners: seq<OwnerReference>) {
    ControllerOf(owners).Some? && !SameOwner(ControllerOf(owners).value, ref)
  }

  /** None stands for the AlreadyOwned error. */
  function SetController(ref: OwnerReference, owners: seq<OwnerReference>): Option<seq<OwnerReference>> {
    if OwnedByOther(ref, owners) then None else Some(Upsert(ref, owners))
  }

  lemma {:induction false} UpsertIdempotent(ref: OwnerReference, owners: seq<OwnerReference>)
    ensures ref in Upsert(ref, owners)
    ensures Upsert(ref, Upsert(ref, owners)) == Upsert(ref, owners)
  {
    if owners != [] && !SameOwner(owners[0], ref) {
      UpsertIdempotent(ref, owners[1..]);
      assert ([owners[0]] + Upsert(ref, owners[1..]))[1..] == Upsert(ref, owners[1..]);
    }
  }

  lemma {:induction false} UpsertController(ref: OwnerReference, owners: seq<OwnerReference>)
    requires ref.controller && !OwnedByOther(ref, owners)
    ensures !OwnedByOther(ref, Upsert(ref, owners))
  {
    if owners != [] && !SameOwner(owners[0], ref) {
      UpsertController(ref, owners[1..]);
      assert ([owners[0]] + Upsert(ref, owners[1..]))[1..] == Upsert(ref, owners[1..]);
    }
  }

  /** Setting a controller reference again changes nothing. */
  lemma SetControllerIdempotent(ref: OwnerReference, owners: seq<OwnerReference>)
    requires ref.controller && SetController(ref, owners).Some?
    ensures SetController(ref, SetController(ref, owners).value) == SetController(ref, owners)
    ensures ref in SetController(ref, owners).value
  {
    UpsertIdempotent(ref, owners);
    UpsertController(ref, owners);
  }

  // ---------- The singleton Overcommit, as this reconciler sees it ----------

  datatype Singleton = Singleton(uid: string, labelKey: string)

  const LEGACY_FINALIZER: string := "overcommitclass.finalizer"

  function SingletonRef(oc: Singleton): OwnerReference {
    OwnerReference("Overcommit", "cluster", oc.uid, true)
  }

  function ClassRef(c: OvercommitClass): OwnerReference {
    OwnerReference("OvercommitClass", c.name, c.uid, true)
  }

  predicate HasCorrectOwner(c: OvercommitClass, oc: Singleton) {
    exists i :: 0 <= i < |c.owners| && c.owners[i].uid == oc.uid && c.owners[i].kind == "Overcommit"
  }

  function RemoveAll(items: seq<string>, x: string): (rest: seq<string>)
    ensures x !in rest
  {
    if items == [] then []
    else if items[0] == x then RemoveAll(items[1..], x)
    else [items[0]] + RemoveAll(items[1..], x)
  }

  /** What is left is what was there, as often as before, but for the one removed. */
  lemma {:induction false} RemoveAllKeeps(items: seq<string>, x: string, y: string)
    ensures multiset(RemoveAll(items, x))[y] == if y == x then 0 else multiset(items)[y]
  {
    if items != [] {
      RemoveAllKeeps(items[1..], x, y);
      assert items == [items[0]] + items[1..];
    }
  }

  /** Every reference to another owner stays. */
  lemma {:induction false} UpsertKeepsOthers(ref: OwnerReference, owners: seq<OwnerReference>, o: OwnerReference)
    requires !(o.kind == ref.kind && o.name == ref.name)
    ensures o in Upsert(ref, owners) <==> o in owners
  {
    if owners != [] {
      UpsertKeepsOthers(ref, owners[1..], o);
      assert owners == [owners[0]] + owners[1..];
    }
  }

  // ---------- The four mutate functions of CreateOrUpdate ----------
  // For each kind: which comparators accept, what the existing object becomes, and what is stored.
  // None as a result stands for the AlreadyOwned error.

  /** CreateOrUpdate writes only a changed object. */
  function Written<T(==)>(existing: T, desired: T, normal: T): T {
    if desired == existing then existing else normal
  }

  predicate BothHaveContainers(updated: Deployment, d: Deployment) {
    |updated.template.containers| > 0 && |d.template.containers| > 0
  }

  predicate ImageAndEnvAccepted(updated: Deployment, d: Deployment) {
    BothHaveContainers(updated, d) ==>
      && updated.template.containers[0].image == d.template.containers[0].image
      && SameBindings(EnvPairs(updated.template.containers[0].env), EnvPairs(d.template.containers[0].env))
  }

  predicate DeploymentAccepted(updated: Deployment, d: Deployment) {
    && ImageAndEnvAccepted(updated, d)
    && updated.template.annotations == d.template.annotations
    && updated.template.labels == d.template.labels
    && updated.template.nodeSelector == d.template.nodeSelector
    && TolerationsAgree(updated.template.tolerations, d.template.tolerations)
  }

  function MergeContainers(updated: seq<Container>, current: seq<Container>): seq<Container> {
    if |updated| == 0 || |current| == 0 then current
    else
      var same := SameBindings(EnvPairs(updated[0].env), EnvPairs(current[0].env));
      var env := if same then current[0].env else updated[0].env;
      current[0 := Container(current[0].name, updated[0].image, env)]
  }

  function MergeDeployment(updated: Deployment, d: Deployment): Deployment {
    d.(template := d.template.(
      containers := MergeContainers(updated.template.containers, d.template.containers),
      annotations := updated.template.annotations,
      labels := updated.template.labels,
      nodeSelector := updated.template.nodeSelector,
      tolerations := if TolerationsAgree(updated.template.tolerations, d.template.tolerations)
                     then d.template.tolerations else updated.template.tolerations))
  }

  function SyncDeployment(updated: Deployment, ref: OwnerReference, existing: Option<Deployment>): Option<Deployment> {
    match existing
    case None => Some(NormalDeployment(updated.(owners := [ref])))
    case Some(d) =>
      if DeploymentAccepted(updated, d) then Some(d)
      else if OwnedByOther(ref, d.owners) then None
      else
        var merged := MergeDeployment(updated, d).(owners := Upsert(ref, d.owners));
        Some(Written(d, merged, NormalDeployment(merged)))
  }

  predicate ServiceAccepted(updated: Service, s: Service) {
    && updated.selector == s.selector
    && SameBindings(PortPairs(updated.ports), PortPairs(s.ports))
    && updated.serviceType == s.serviceType
    && updated.annotations == s.annotations
    && updated.labels == s.labels
  }

  function MergeService(updated: Service, s: Service): Service {
    s.(selector := updated.selector,
       ports := if SameBindings(PortPairs(updated.ports), PortPairs(s.ports)) then s.ports else updated.ports,
       serviceType := updated.serviceType,
       annotations := updated.annotations,
       labels := updated.labels)
  }

  function SyncService(updated: Service, ref: OwnerReference, existing: Option<Service>): Option<Service> {
    match existing
    case None => Some(NormalService(updated.(owners := [ref])))
    case Some(s) =>
      if ServiceAccepted(updated, s) then Some(s)
      else if OwnedByOther(ref, s.owners) then None
      else
        var merged := MergeService(updated, s).(owners := Upsert(ref, s.owners));
        Some(Written(s, merged, NormalService(merged)))
  }

  predicate CertificateAccepted(updated: Certificate, c: Certificate) {
    && SameBindings(ItemPairs(updated.dnsNames), ItemPairs(c.dnsNames))
    && updated.issuerName == c.issuerName && updated.issuerKind == c.issuerKind
    && updated.secretName == c.secretName
    && updated.annotations == c.annotations
    && updated.labels == c.labels
  }

  function MergeCertificate(updated: Certificate, c: Certificate): Certificate {
    c.(dnsNames := if SameBindings(ItemPairs(updated.dnsNames), ItemPairs(c.dnsNames)) then c.dnsNames
                   else updated.dnsNames,
       issuerName := updated.issuerName,
       issuerKind := updated.issuerKind,
       secretName := updated.secretName,
       annotations := updated.annotations,
       labels := updated.labels)
  }

  function SyncCertificate(updated: Certificate, ref: OwnerReference,
                           existing: Option<Certificate>): Option<Certificate> {
    match existing
    case None => Some(NormalCertificate(updated.(owners := [ref])))
    case Some(c) =>
      if CertificateAccepted(updated, c) then Some(c)
      else if OwnedByOther(ref, c.owners) then None
      else
        var merged := MergeCertificate(updated, c).(owners := Upsert(ref, c.owners));
        Some(Written(c, merged, NormalCertificate(merged)))
  }

  predicate WebhookConfigAccepted(updated: WebhookConfig, w: WebhookConfig) {
    && updated.annotations == w.annotations
    && updated.labels == w.labels
    && WebhooksAgree(updated.webhooks, w.webhooks)
  }

  function MergeWebhookConfig(updated: WebhookConfig, w: WebhookConfig): WebhookConfig {
    w.(annotations := updated.annotations,
       labels := updated.labels,
       webhooks := if WebhooksAgree(updated.webhooks, w.webhooks) then w.webhooks else updated.webhooks)
  }

  function SyncWebhookConfig(updated: WebhookConfig, ref: OwnerReference,
                             existing: Option<WebhookConfig>): Option<WebhookConfig> {
    match existing
    case None => Some(NormalWebhookConfig(updated.(owners := [ref])))
    case Some(w) =>
      if WebhookConfigAccepted(updated, w) then Some(w)
      else if OwnedByOther(ref, w.owners) then None
      else
        var merged := MergeWebhookConfig(updated, w).(owners := Upsert(ref, w.owners));
        Some(Written(w, merged, NormalWebhookConfig(merged)))
  }

  // ---------- One class and its four resources ----------

  datatype Cell = Cell(
    class_: Option<OvercommitClass>,
    deployment: Option<Deployment>,
    service: Option<Service>,
    certificate: Option<Certificate>,
    webhook: Option<WebhookConfig>)

  /** How a Reconcile call ended for its caller; Completed is an end without an error after all four resources. */
  datatype Outcome = Failed | ClassMissing | FinalizerRemoved | OwnerSet | Completed

  function StepResources(oc: Singleton, env: Environment, c: OvercommitClass, cell: Cell): (Cell, Outcome) {
    var ref := ClassRef(c);
    var d := SyncDeployment(CreateDeployment(c, env), ref, cell.deployment);
    if d.None? then (cell, Failed) else
    var cell1 := cell.(deployment := d);
    var s := SyncService(CreateService(c.name), ref, cell.service);
    if s.None? then (cell1, Failed) else
    var cell2 := cell1.(service := s);
    var k := SyncCertificate(CreateCertificate(c.name, env), ref, cell.certificate);
    if k.None? then (cell2, Failed) else
    var cell3 := cell2.(certificate := k);
    var w := SyncWebhookConfig(CreateWebhookConfig(c, env, oc.labelKey), ref, cell.webhook);
    if w.None? then (cell3, Failed) else (cell3.(webhook := w), Completed)
  }

  /** One Reconcile call for the class of the cell. */
  function Step(singleton: Option<Singleton>, env: Environment, cell: Cell): (Cell, Outcome) {
    if singleton.None? then (cell, Failed)
    else if cell.class_.None? then (cell, ClassMissing)
    else
      var oc, c := singleton.value, cell.class_.value;
      if LEGACY_FINALIZER in c.finalizers then
        (cell.(class_ := Some(c.(finalizers := RemoveAll(c.finalizers, LEGACY_FINALIZER)))), FinalizerRemoved)
      else if !HasCorrectOwner(c, oc) then
        match SetController(SingletonRef(oc), c.owners) {
          case None => (cell, Failed)
          case Some(owners) => (cell.(class_ := Some(c.(owners := owners))), OwnerSet)
        }
      else StepResources(oc, env, c, cell)
  }

  // ---------- Calls in which the API fails ----------

  /** The resources after a pass in which the API fails once `n` of them are done. */
  function StepResourcesUpTo(oc: Singleton, env: Environment, c: OvercommitClass, cell: Cell, n: nat): Cell {
    var ref := ClassRef(c);
    var d := SyncDeployment(CreateDeployment(c, env), ref, cell.deployment);
    if n == 0 || d.None? then cell else
    var cell1 := cell.(deployment := d);
    var s := SyncService(CreateService(c.name), ref, cell.service);
    if n == 1 || s.None? then cell1 else
    var cell2 := cell1.(service := s);
    var k := SyncCertificate(CreateCertificate(c.name, env), ref, cell.certificate);
    if n == 2 || k.None? then cell2 else
    var cell3 := cell2.(certificate := k);
    var w := SyncWebhookConfig(CreateWebhookConfig(c, env, oc.labelKey), ref, cell.webhook);
    if n == 3 || w.None? then cell3 else cell3.(webhook := w)
  }

  const METRICS: nat := 4

  /** One Reconcile call. With a failure n, the API refuses a call once n resources are done, or before that a
      read or the update of the class. Number 4 is the count of the classes for the metrics, whose failure ends
      the call without an error; what is later concerns the status. */
  function StepWith(singleton: Option<Singleton>, env: Environment, cell: Cell, failure: Option<nat>): (Cell, Outcome) {
    if failure.None? then Step(singleton, env, cell)
    else if singleton.None? || cell.class_.None? then (cell, Failed)
    else
      var oc, c := singleton.value, cell.class_.value;
      if LEGACY_FINALIZER in c.finalizers || !HasCorrectOwner(c, oc) then (cell, Failed)
      else
        (StepResourcesUpTo(oc, env, c, cell, failure.value),
         if failure == Some(METRICS) then StepResources(oc, env, c, cell).1 else Failed)
  }
}
