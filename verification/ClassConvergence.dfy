/** Repeated Reconcile calls for one class converge, and what they converge to. */
module ClassConvergence {
  import opened Wrappers
  import opened Api
  import opened Comparators
  import opened Generators
  import opened ClassState

  /** Stored objects have been through the API server. */
  predicate NormalCell(cell: Cell) {
    && (cell.deployment.Some? ==> NormalDeployment(cell.deployment.value) == cell.deployment.value)
    && (cell.service.Some? ==> NormalService(cell.service.value) == cell.service.value)
    && (cell.certificate.Some? ==> NormalCertificate(cell.certificate.value) == cell.certificate.value)
    && (cell.webhook.Some? ==> NormalWebhookConfig(cell.webhook.value) == cell.webhook.value)
  }

  // ---------- Synchronising one resource twice is synchronising it once ----------

  lemma OwnersStable(ref: OwnerReference, owners: seq<OwnerReference>)
    requires ref.controller && !OwnedByOther(ref, owners)
    ensures !OwnedByOther(ref, Upsert(ref, owners))
    ensures Upsert(ref, Upsert(ref, owners)) == Upsert(ref, owners)
  {
    UpsertIdempotent(ref, owners);
    UpsertController(ref, owners);
  }

  lemma SingleOwner(ref: OwnerReference)
    requires ref.controller
    ensures !OwnedByOther(ref, [ref]) && Upsert(ref, [ref]) == [ref]
  {
    assert Upsert(ref, []) == [ref];
    OwnersStable(ref, []);
  }

  lemma MergeContainersStable(updated: seq<Container>, current: seq<Container>)
    ensures MergeContainers(updated, MergeContainers(updated, current)) == MergeContainers(updated, current)
    ensures |updated| == 1 ==> MergeContainers(updated, updated) == updated
  {
    hide SameBindings;
  }

  lemma MergeDeploymentStable(updated: Deployment, d: Deployment)
    requires |updated.template.containers| == 1
    requires NormalDeployment(d) == d
    ensures var m := NormalDeployment(MergeDeployment(updated, d));
            NormalDeployment(m) == m && NormalDeployment(MergeDeployment(updated, m)) == m
    ensures var n := NormalDeployment(updated);
            NormalDeployment(n) == n && NormalDeployment(MergeDeployment(updated, n)) == n
  {
    MergeContainersStable(updated.template.containers, d.template.containers);
    hide MergeContainers;
  }

  lemma DeploymentStable(updated: Deployment, ref: OwnerReference, existing: Option<Deployment>)
    requires ref.controller && |updated.template.containers| == 1 && SyncDeployment(updated, ref, existing).Some?
    requires existing.Some? ==> NormalDeployment(existing.value) == existing.value
    ensures var d := SyncDeployment(updated, ref, existing).value;
            NormalDeployment(d) == d && SyncDeployment(updated, ref, Some(d)) == Some(d)
  {
    SingleOwner(ref);
    var d := SyncDeployment(updated, ref, existing).value;
    if existing.Some? {
      MergeDeploymentStable(updated, existing.value);
      if !OwnedByOther(ref, existing.value.owners) { OwnersStable(ref, existing.value.owners); }
    } else {
      MergeDeploymentStable(updated, NormalDeployment(updated));
    }
    hide MergeContainers, DeploymentAccepted, NormalMap, OwnedByOther, Upsert;
  }

  lemma NormalPortsIdempotent(ports: seq<ServicePort>)
    ensures NormalPorts(NormalPorts(ports)) == NormalPorts(ports)
  {
  }

  lemma ServiceStable(updated: Service, ref: OwnerReference, existing: Option<Service>)
    requires ref.controller && SyncService(updated, ref, existing).Some?
    requires existing.Some? ==> NormalService(existing.value) == existing.value
    ensures var s := SyncService(updated, ref, existing).value;
            NormalService(s) == s && SyncService(updated, ref, Some(s)) == Some(s)
  {
    SingleOwner(ref);
    NormalPortsIdempotent(updated.ports);
    if existing.Some? && !OwnedByOther(ref, existing.value.owners) { OwnersStable(ref, existing.value.owners); }
    hide SameBindings, OwnedByOther, Upsert, NormalPorts;
  }

  lemma CertificateStable(updated: Certificate, ref: OwnerReference, existing: Option<Certificate>)
    requires ref.controller && SyncCertificate(updated, ref, existing).Some?
    requires existing.Some? ==> NormalCertificate(existing.value) == existing.value
    ensures var c := SyncCertificate(updated, ref, existing).value;
            NormalCertificate(c) == c && SyncCertificate(updated, ref, Some(c)) == Some(c)
  {
    SingleOwner(ref);
    if existing.Some? && !OwnedByOther(ref, existing.value.owners) { OwnersStable(ref, existing.value.owners); }
    hide SameBindings, OwnedByOther, Upsert;
  }

  lemma WebhookConfigStable(updated: WebhookConfig, ref: OwnerReference, existing: Option<WebhookConfig>)
    requires ref.controller && SyncWebhookConfig(updated, ref, existing).Some?
    requires existing.Some? ==> NormalWebhookConfig(existing.value) == existing.value
    ensures var w := SyncWebhookConfig(updated, ref, existing).value;
            NormalWebhookConfig(w) == w && SyncWebhookConfig(updated, ref, Some(w)) == Some(w)
  {
    SingleOwner(ref);
    if existing.Some? && !OwnedByOther(ref, existing.value.owners) { OwnersStable(ref, existing.value.owners); }
    hide WebhooksAgree, OwnedByOther, Upsert;
  }

  // ---------- The fixed point ----------

  function StepTo(singleton: Option<Singleton>, env: Environment, cell: Cell): Cell {
    Step(singleton, env, cell).0
  }

  function Iterate(singleton: Option<Singleton>, env: Environment, cell: Cell, n: nat): Cell
    decreases n
  {
    if n == 0 then cell else Iterate(singleton, env, StepTo(singleton, env, cell), n - 1)
  }

  /** Each of the four, when synchronised, is normal and stays as it is when synchronised again. */
  lemma SyncedTwice(oc: Singleton, env: Environment, c: OvercommitClass, cell: Cell)
    requires NormalCell(cell)
    ensures var d := SyncDeployment(CreateDeployment(c, env), ClassRef(c), cell.deployment);
            d.Some? ==> NormalDeployment(d.value) == d.value
                        && SyncDeployment(CreateDeployment(c, env), ClassRef(c), d) == d
    ensures var s := SyncService(CreateService(c.name), ClassRef(c), cell.service);
            s.Some? ==> NormalService(s.value) == s.value && SyncService(CreateService(c.name), ClassRef(c), s) == s
    ensures var k := SyncCertificate(CreateCertificate(c.name, env), ClassRef(c), cell.certificate);
            k.Some? ==> NormalCertificate(k.value) == k.value
                        && SyncCertificate(CreateCertificate(c.name, env), ClassRef(c), k) == k
    ensures var w := SyncWebhookConfig(CreateWebhookConfig(c, env, oc.labelKey), ClassRef(c), cell.webhook);
            w.Some? ==> NormalWebhookConfig(w.value) == w.value
                        && SyncWebhookConfig(CreateWebhookConfig(c, env, oc.labelKey), ClassRef(c), w) == w
  {
    var ref := ClassRef(c);
    var d, s := CreateDeployment(c, env), CreateService(c.name);
    var k, w := CreateCertificate(c.name, env), CreateWebhookConfig(c, env, oc.labelKey);
    if SyncDeployment(d, ref, cell.deployment).Some? { DeploymentStable(d, ref, cell.deployment); }
    if SyncService(s, ref, cell.service).Some? { ServiceStable(s, ref, cell.service); }
    if SyncCertificate(k, ref, cell.certificate).Some? { CertificateStable(k, ref, cell.certificate); }
    if SyncWebhookConfig(w, ref, cell.webhook).Some? { WebhookConfigStable(w, ref, cell.webhook); }
    hide SyncDeployment, SyncService, SyncCertificate, SyncWebhookConfig, NormalDeployment, NormalService,
         NormalCertificate, NormalWebhookConfig, CreateDeployment, CreateService, CreateCertificate,
         CreateWebhookConfig;
  }

  /** A pass over the resources leaves nothing to do for a second pass, even where it stopped at an error. */
  lemma ResourcesStable(oc: Singleton, env: Environment, c: OvercommitClass, cell: Cell)
    requires NormalCell(cell)
    ensures NormalCell(StepResources(oc, env, c, cell).0)
    ensures StepResources(oc, env, c, StepResources(oc, env, c, cell).0) == StepResources(oc, env, c, cell)
  {
    SyncedTwice(oc, env, c, cell);
    hide SyncDeployment, SyncService, SyncCertificate, SyncWebhookConfig, NormalDeployment, NormalService,
         NormalCertificate, NormalWebhookConfig, CreateDeployment, CreateService, CreateCertificate,
         CreateWebhookConfig,
         ClassRef;
  }

  lemma StepKeepsOrSynchronises(singleton: Option<Singleton>, env: Environment, cell: Cell)
    ensures var next := StepTo(singleton, env, cell);
            || next == cell.(class_ := next.class_)
            || (singleton.Some? && cell.class_.Some?
                && next == StepResources(singleton.value, env, cell.class_.value, cell).0)
  {
    hide StepResources, SetController, HasCorrectOwner, RemoveAll;
  }

  lemma StepNormal(singleton: Option<Singleton>, env: Environment, cell: Cell)
    requires NormalCell(cell)
    ensures NormalCell(StepTo(singleton, env, cell))
  {
    hide StepTo, StepResources, NormalDeployment, NormalService, NormalCertificate, NormalWebhookConfig;
    StepKeepsOrSynchronises(singleton, env, cell);
    if singleton.Some? && cell.class_.Some? {
      ResourcesStable(singleton.value, env, cell.class_.value, cell);
    }
  }

  predicate ResourcesPhase(singleton: Option<Singleton>, cell: Cell) {
    singleton.Some? && cell.class_.Some?
    && LEGACY_FINALIZER !in cell.class_.value.finalizers && HasCorrectOwner(cell.class_.value, singleton.value)
  }

  lemma ResourcesKeepClass(oc: Singleton, env: Environment, c: OvercommitClass, cell: Cell)
    ensures StepResources(oc, env, c, cell).0.class_ == cell.class_
  {
  }

  lemma ResourcesPhaseStable(singleton: Option<Singleton>, env: Environment, cell: Cell)
    requires NormalCell(cell) && ResourcesPhase(singleton, cell)
    ensures Step(singleton, env, StepTo(singleton, env, cell)) == Step(singleton, env, cell)
  {
    ResourcesStable(singleton.value, env, cell.class_.value, cell);
    ResourcesKeepClass(singleton.value, env, cell.class_.value, cell);
    hide StepResources;
  }

  lemma OwnerIsSet(oc: Singleton, c: OvercommitClass, owners: seq<OwnerReference>)
    requires SetController(SingletonRef(oc), c.owners) == Some(owners)
    ensures HasCorrectOwner(c.(owners := owners), oc)
  {
    UpsertIdempotent(SingletonRef(oc), c.owners);
    var i :| 0 <= i < |owners| && owners[i] == SingletonRef(oc);
  }

  lemma {:induction false} FixedStays(singleton: Option<Singleton>, env: Environment, cell: Cell, n: nat)
    requires StepTo(singleton, env, cell) == cell
    ensures Iterate(singleton, env, cell, n) == cell
  {
    hide StepTo;
    if n > 0 { FixedStays(singleton, env, cell, n - 1); }
  }

  lemma {:induction false} IterateAdd(singleton: Option<Singleton>, env: Environment, cell: Cell, m: nat, n: nat)
    ensures Iterate(singleton, env, Iterate(singleton, env, cell, m), n) == Iterate(singleton, env, cell, m + n)
    decreases m
  {
    hide StepTo;
    if m > 0 { IterateAdd(singleton, env, StepTo(singleton, env, cell), m - 1, n); }
  }

  lemma FixedInResourcesPhase(singleton: Option<Singleton>, env: Environment, cell: Cell)
    requires NormalCell(cell) && ResourcesPhase(singleton, cell)
    ensures var next := StepTo(singleton, env, cell); StepTo(singleton, env, next) == next
  {
    ResourcesPhaseStable(singleton, env, cell);
    hide Step, NormalCell, ResourcesPhase;
  }

  /** How many of the two metadata phases are still to come. */
  function PhasesLeft(singleton: Option<Singleton>, cell: Cell): nat {
    if singleton.None? || cell.class_.None? then 0
    else
      var c := cell.class_.value;
      (if LEGACY_FINALIZER in c.finalizers then 1 else 0) + (if HasCorrectOwner(c, singleton.value) then 0 else 1)
  }

  lemma PhaseAdvances(singleton: Option<Singleton>, env: Environment, cell: Cell)
    ensures StepTo(singleton, env, cell) == cell || ResourcesPhase(singleton, cell)
            || PhasesLeft(singleton, StepTo(singleton, env, cell)) < PhasesLeft(singleton, cell)
    ensures PhasesLeft(singleton, StepTo(singleton, env, cell)) <= PhasesLeft(singleton, cell)
    ensures ResourcesPhase(singleton, cell) ==> ResourcesPhase(singleton, StepTo(singleton, env, cell))
  {
    if singleton.Some? && cell.class_.Some? {
      var oc, c := singleton.value, cell.class_.value;
      ResourcesKeepClass(oc, env, c, cell);
      var owners := SetController(SingletonRef(oc), c.owners);
      if owners.Some? { OwnerIsSet(oc, c, owners.value); }
      hide StepResources, SetController;
    }
  }

  /** After two calls either the metadata phases are over or nothing changes any more. */
  lemma PhasesEnd(singleton: Option<Singleton>, env: Environment, cell: Cell)
    ensures var c2 := StepTo(singleton, env, StepTo(singleton, env, cell));
            ResourcesPhase(singleton, c2) || StepTo(singleton, env, c2) == c2
  {
    var c1 := StepTo(singleton, env, cell);
    PhaseAdvances(singleton, env, cell);
    PhaseAdvances(singleton, env, c1);
    PhaseAdvances(singleton, env, StepTo(singleton, env, c1));
    assert PhasesLeft(singleton, cell) <= 2;
    hide *;
  }

  lemma IterateThree(singleton: Option<Singleton>, env: Environment, cell: Cell)
    ensures Iterate(singleton, env, cell, 3)
            == StepTo(singleton, env, StepTo(singleton, env, StepTo(singleton, env, cell)))
  {
    hide StepTo;
    var c1 := StepTo(singleton, env, cell);
    assert Iterate(singleton, env, StepTo(singleton, env, c1), 1) == StepTo(singleton, env, StepTo(singleton, env, c1));
    assert Iterate(singleton, env, c1, 2) == Iterate(singleton, env, StepTo(singleton, env, c1), 1);
  }

  /** Whatever is stored, whoever owns it and wherever a call stops at an error: after at most three calls
      the stored objects no longer change. */
  lemma FixedAfterThree(singleton: Option<Singleton>, env: Environment, cell: Cell, n: nat)
    requires NormalCell(cell) && n >= 3
    ensures Iterate(singleton, env, cell, n) == Iterate(singleton, env, cell, 3)
    ensures StepTo(singleton, env, Iterate(singleton, env, cell, 3)) == Iterate(singleton, env, cell, 3)
  {
    hide StepTo, NormalCell, ResourcesPhase;
    var c1 := StepTo(singleton, env, cell);
    var c2 := StepTo(singleton, env, c1);
    var c3 := StepTo(singleton, env, c2);
    StepNormal(singleton, env, cell);
    StepNormal(singleton, env, c1);
    PhasesEnd(singleton, env, cell);
    assert StepTo(singleton, env, c3) == c3 by {
      if ResourcesPhase(singleton, c2) { FixedInResourcesPhase(singleton, env, c2); }
    }
    IterateThree(singleton, env, cell);
    IterateAdd(singleton, env, cell, 3, n - 3);
    FixedStays(singleton, env, c3, n - 3);
  }

  // ---------- Calls in which the API fails ----------

  lemma NothingDone(oc: Singleton, env: Environment, c: OvercommitClass, cell: Cell)
    ensures StepResourcesUpTo(oc, env, c, cell, 0) == cell
  {
  }

  /** Of the four resources, each is as it was or synchronised. */
  lemma UpToFields(oc: Singleton, env: Environment, c: OvercommitClass, cell: Cell, n: nat)
    ensures var next := StepResourcesUpTo(oc, env, c, cell, n);
            && next.class_ == cell.class_
            && (next.deployment == cell.deployment
                || (next.deployment.Some?
                    && next.deployment == SyncDeployment(CreateDeployment(c, env), ClassRef(c), cell.deployment)))
            && (next.service == cell.service
                || (next.service.Some?
                    && next.service == SyncService(CreateService(c.name), ClassRef(c), cell.service)))
            && (next.certificate == cell.certificate
                || (next.certificate.Some?
                    && next.certificate
                       == SyncCertificate(CreateCertificate(c.name, env), ClassRef(c), cell.certificate)))
            && (next.webhook == cell.webhook
                || (next.webhook.Some?
                    && next.webhook
                       == SyncWebhookConfig(CreateWebhookConfig(c, env, oc.labelKey), ClassRef(c), cell.webhook)))
  {
    hide SyncDeployment, SyncService, SyncCertificate, SyncWebhookConfig, CreateDeployment, CreateService,
         CreateCertificate, CreateWebhookConfig, ClassRef;
  }

  lemma UpToKeepsClass(oc: Singleton, env: Environment, c: OvercommitClass, cell: Cell, n: nat)
    ensures StepResourcesUpTo(oc, env, c, cell, n).class_ == cell.class_
  {
  }

  lemma CutPassNormal(oc: Singleton, env: Environment, c: OvercommitClass, cell: Cell, n: nat)
    requires NormalCell(cell)
    ensures NormalCell(StepResourcesUpTo(oc, env, c, cell, n))
  {
    SyncedTwice(oc, env, c, cell);
    UpToFields(oc, env, c, cell, n);
    hide StepResourcesUpTo, SyncDeployment, SyncService, SyncCertificate, SyncWebhookConfig, NormalDeployment,
         NormalService,
         NormalCertificate, NormalWebhookConfig, CreateDeployment, CreateService, CreateCertificate,
         CreateWebhookConfig,
         ClassRef;
  }

  lemma EarlyCutPass(oc: Singleton, env: Environment, c: OvercommitClass, cell: Cell, n: nat)
    requires NormalCell(cell) && n <= 2
    ensures StepResources(oc, env, c, StepResourcesUpTo(oc, env, c, cell, n)) == StepResources(oc, env, c, cell)
  {
    SyncedTwice(oc, env, c, cell);
    hide SyncDeployment, SyncService, SyncCertificate, SyncWebhookConfig, NormalCell, NormalDeployment, NormalService,
         NormalCertificate, NormalWebhookConfig, CreateDeployment, CreateService, CreateCertificate,
         CreateWebhookConfig,
         ClassRef;
    assert n == 0 || n == 1 || n == 2;
  }

  lemma LateCutPass(oc: Singleton, env: Environment, c: OvercommitClass, cell: Cell)
    requires NormalCell(cell)
    ensures StepResources(oc, env, c, StepResourcesUpTo(oc, env, c, cell, 3)) == StepResources(oc, env, c, cell)
  {
    SyncedTwice(oc, env, c, cell);
    hide SyncDeployment, SyncService, SyncCertificate, SyncWebhookConfig, NormalCell, NormalDeployment, NormalService,
         NormalCertificate, NormalWebhookConfig, CreateDeployment, CreateService, CreateCertificate,
         CreateWebhookConfig,
         ClassRef;
  }

  lemma UncutPass(oc: Singleton, env: Environment, c: OvercommitClass, cell: Cell, n: nat)
    requires n >= 4
    ensures StepResourcesUpTo(oc, env, c, cell, n) == StepResources(oc, env, c, cell).0
  {
    hide SyncDeployment, SyncService, SyncCertificate, SyncWebhookConfig, CreateDeployment, CreateService,
         CreateCertificate, CreateWebhookConfig, ClassRef;
  }

  /** A pass cut short changes nothing about what a full pass ends in. */
  lemma FullPassAfterFailure(oc: Singleton, env: Environment, c: OvercommitClass, cell: Cell, n: nat)
    requires NormalCell(cell)
    ensures var partial := StepResourcesUpTo(oc, env, c, cell, n);
            NormalCell(partial) && StepResources(oc, env, c, partial) == StepResources(oc, env, c, cell)
  {
    hide StepResources, StepResourcesUpTo, NormalCell;
    CutPassNormal(oc, env, c, cell, n);
    if n <= 2 {
      EarlyCutPass(oc, env, c, cell, n);
    } else if n == 3 {
      LateCutPass(oc, env, c, cell);
    } else {
      UncutPass(oc, env, c, cell, n);
      ResourcesStable(oc, env, c, cell);
    }
  }

  lemma FailureIsForgotten(singleton: Option<Singleton>, env: Environment, cell: Cell, n: nat)
    requires NormalCell(cell)
    ensures var after := StepWith(singleton, env, cell, Some(n)).0;
            NormalCell(after) && Step(singleton, env, after) == Step(singleton, env, cell)
  {
    if singleton.Some? && cell.class_.Some? {
      FullPassAfterFailure(singleton.value, env, cell.class_.value, cell, n);
      UpToKeepsClass(singleton.value, env, cell.class_.value, cell, n);
    }
    hide StepResources, StepResourcesUpTo, HasCorrectOwner, RemoveAll, SetController, NormalCell;
  }

  lemma FailureAtFixedPoint(singleton: Option<Singleton>, env: Environment, cell: Cell, n: nat)
    requires StepTo(singleton, env, cell) == cell
    ensures StepWith(singleton, env, cell, Some(n)).0 == cell
  {
    hide SyncDeployment, SyncService, SyncCertificate, SyncWebhookConfig, HasCorrectOwner, RemoveAll, SetController,
         CreateDeployment, CreateService, CreateCertificate, CreateWebhookConfig;
  }

  /** A run of calls, each with its failure if it has one. */
  function RunCalls(singleton: Option<Singleton>, env: Environment, cell: Cell, calls: seq<Option<nat>>): Cell {
    if calls == [] then cell
    else StepWith(singleton, env, RunCalls(singleton, env, cell, calls[..|calls| - 1]), calls[|calls| - 1]).0
  }

  function Successes(calls: seq<Option<nat>>): nat {
    if calls == [] then 0 else Successes(calls[..|calls| - 1]) + if calls[|calls| - 1].None? then 1 else 0
  }

  lemma IterateOnce(singleton: Option<Singleton>, env: Environment, cell: Cell, n: nat)
    ensures StepTo(singleton, env, Iterate(singleton, env, cell, n)) == Iterate(singleton, env, cell, n + 1)
    ensures Iterate(singleton, env, cell, 0) == cell
  {
    IterateAdd(singleton, env, cell, n, 1);
    hide StepTo;
    var c := Iterate(singleton, env, cell, n);
    assert Iterate(singleton, env, StepTo(singleton, env, c), 0) == StepTo(singleton, env, c);
  }

  lemma OneMoreCall(singleton: Option<Singleton>, env: Environment, start: Cell, n: nat, cell: Cell, call: Option<nat>)
    requires NormalCell(cell) && StepTo(singleton, env, cell) == Iterate(singleton, env, start, n + 1)
    ensures var after, m := StepWith(singleton, env, cell, call).0, n + if call.None? then 1 else 0;
            NormalCell(after) && StepTo(singleton, env, after) == Iterate(singleton, env, start, m + 1)
  {
    if call.Some? {
      FailureIsForgotten(singleton, env, cell, call.value);
    } else {
      StepNormal(singleton, env, cell);
      IterateOnce(singleton, env, start, n + 1);
    }
    hide Step, Iterate, NormalCell;
  }

  /** After any run the next call does what it would have done without the failed ones. */
  lemma {:induction false} NextCallIgnoresFailures(singleton: Option<Singleton>, env: Environment, cell: Cell,
                                                   calls: seq<Option<nat>>)
    requires NormalCell(cell)
    ensures var after := RunCalls(singleton, env, cell, calls);
            && NormalCell(after)
            && StepTo(singleton, env, after) == Iterate(singleton, env, cell, Successes(calls) + 1)
  {
    hide NormalCell, StepTo, StepWith, Iterate;
    if calls == [] {
      IterateOnce(singleton, env, cell, 0);
    } else {
      var before, last := calls[..|calls| - 1], calls[|calls| - 1];
      NextCallIgnoresFailures(singleton, env, cell, before);
      OneMoreCall(singleton, env, cell, Successes(before), RunCalls(singleton, env, cell, before), last);
    }
  }

  lemma SuccessfulCall(singleton: Option<Singleton>, env: Environment, cell: Cell)
    ensures StepWith(singleton, env, cell, None).0 == StepTo(singleton, env, cell)
  {
  }

  /** Failures only delay: a run of calls that fail wherever they may ends, from its third successful call on,
      in the fixed point of three successful calls. */
  lemma {:induction false} FailuresOnlyDelay(singleton: Option<Singleton>, env: Environment, cell: Cell,
                                             calls: seq<Option<nat>>)
    requires NormalCell(cell) && Successes(calls) >= 3
    ensures RunCalls(singleton, env, cell, calls) == Iterate(singleton, env, cell, 3)
  {
    var before, last := calls[..|calls| - 1], calls[|calls| - 1];
    FixedAfterThree(singleton, env, cell, Successes(before) + 1);
    hide Step, Iterate, NormalCell, StepTo;
    if last.Some? {
      FailuresOnlyDelay(singleton, env, cell, before);
      FailureAtFixedPoint(singleton, env, RunCalls(singleton, env, cell, before), last.value);
    } else {
      NextCallIgnoresFailures(singleton, env, cell, before);
      SuccessfulCall(singleton, env, RunCalls(singleton, env, cell, before));
    }
  }

  // ---------- Progress towards four synchronised resources ----------

  /** No controller other than the operator's own objects. */
  predicate NoForeignController(oc: Singleton, c: OvercommitClass, cell: Cell) {
    && !OwnedByOther(SingletonRef(oc), c.owners)
    && (cell.deployment.Some? ==> !OwnedByOther(ClassRef(c), cell.deployment.value.owners))
    && (cell.service.Some? ==> !OwnedByOther(ClassRef(c), cell.service.value.owners))
    && (cell.certificate.Some? ==> !OwnedByOther(ClassRef(c), cell.certificate.value.owners))
    && (cell.webhook.Some? ==> !OwnedByOther(ClassRef(c), cell.webhook.value.owners))
  }

  /** Phases left, plus one while a pass over the resources would change something. */
  function Rank(oc: Singleton, env: Environment, cell: Cell): nat
    requires cell.class_.Some?
  {
    PhasesLeft(Some(oc), cell) + if StepResources(oc, env, cell.class_.value, cell).0 == cell then 0 else 1
  }

  /** Resources are generated from the class's name, uid and spec alone. */
  lemma ResourcesIgnoreMetadata(oc: Singleton, env: Environment, c: OvercommitClass, c': OvercommitClass, cell: Cell)
    requires c' == c.(finalizers := c'.finalizers, owners := c'.owners)
    ensures var (next, outcome) := StepResources(oc, env, c, cell);
            StepResources(oc, env, c', cell.(class_ := Some(c'))) == (next.(class_ := Some(c')), outcome)
  {
    hide SyncDeployment, SyncService, SyncCertificate, SyncWebhookConfig;
  }

  lemma OwnersKept(ref: OwnerReference, owners: seq<OwnerReference>)
    requires ref.controller
    ensures !OwnedByOther(ref, owners) ==> !OwnedByOther(ref, Upsert(ref, owners))
    ensures !OwnedByOther(ref, [ref])
  {
    SingleOwner(ref);
    if !OwnedByOther(ref, owners) { OwnersStable(ref, owners); }
  }

  lemma DeploymentOwners(updated: Deployment, ref: OwnerReference, existing: Option<Deployment>)
    requires ref.controller && (existing.Some? ==> !OwnedByOther(ref, existing.value.owners))
    ensures var d := SyncDeployment(updated, ref, existing);
            d.Some? && !OwnedByOther(ref, d.value.owners)
  {
    OwnersKept(ref, if existing.Some? then existing.value.owners else []);
    hide OwnedByOther, Upsert, DeploymentAccepted;
  }

  lemma ServiceOwners(updated: Service, ref: OwnerReference, existing: Option<Service>)
    requires ref.controller && (existing.Some? ==> !OwnedByOther(ref, existing.value.owners))
    ensures var s := SyncService(updated, ref, existing);
            s.Some? && !OwnedByOther(ref, s.value.owners)
  {
    OwnersKept(ref, if existing.Some? then existing.value.owners else []);
    hide OwnedByOther, Upsert, ServiceAccepted;
  }

  lemma CertificateOwners(updated: Certificate, ref: OwnerReference, existing: Option<Certificate>)
    requires ref.controller && (existing.Some? ==> !OwnedByOther(ref, existing.value.owners))
    ensures var c := SyncCertificate(updated, ref, existing);
            c.Some? && !OwnedByOther(ref, c.value.owners)
  {
    OwnersKept(ref, if existing.Some? then existing.value.owners else []);
    hide OwnedByOther, Upsert, CertificateAccepted;
  }

  lemma WebhookConfigOwners(updated: WebhookConfig, ref: OwnerReference, existing: Option<WebhookConfig>)
    requires ref.controller && (existing.Some? ==> !OwnedByOther(ref, existing.value.owners))
    ensures var w := SyncWebhookConfig(updated, ref, existing);
            w.Some? && !OwnedByOther(ref, w.value.owners)
  {
    OwnersKept(ref, if existing.Some? then existing.value.owners else []);
    hide OwnedByOther, Upsert, WebhookConfigAccepted;
  }

  lemma SyncKeepsOwners(oc: Singleton, env: Environment, c: OvercommitClass, cell: Cell)
    requires NoForeignController(oc, c, cell)
    ensures var (next, outcome) := StepResources(oc, env, c, cell);
            outcome == Completed && NoForeignController(oc, c, next)
  {
    var ref := ClassRef(c);
    DeploymentOwners(CreateDeployment(c, env), ref, cell.deployment);
    ServiceOwners(CreateService(c.name), ref, cell.service);
    CertificateOwners(CreateCertificate(c.name, env), ref, cell.certificate);
    WebhookConfigOwners(CreateWebhookConfig(c, env, oc.labelKey), ref, cell.webhook);
    hide SyncDeployment, SyncService, SyncCertificate, SyncWebhookConfig, OwnedByOther;
  }

  lemma ResourcesRankDecreases(oc: Singleton, env: Environment, cell: Cell)
    requires NormalCell(cell) && ResourcesPhase(Some(oc), cell) && NoForeignController(oc, cell.class_.value, cell)
    ensures var (next, outcome) := Step(Some(oc), env, cell);
            && next.class_.Some?
            && (|| Rank(oc, env, next) < Rank(oc, env, cell)
                || (Rank(oc, env, cell) == 0 && next == cell && outcome == Completed))
  {
    var c := cell.class_.value;
    ResourcesKeepClass(oc, env, c, cell);
    ResourcesStable(oc, env, c, cell);
    SyncKeepsOwners(oc, env, c, cell);
    hide StepResources, NormalCell, NoForeignController, HasCorrectOwner;
  }

  lemma MetadataRankDecreases(oc: Singleton, env: Environment, cell: Cell)
    requires cell.class_.Some? && !ResourcesPhase(Some(oc), cell)
    requires !OwnedByOther(SingletonRef(oc), cell.class_.value.owners)
    ensures var next := StepTo(Some(oc), env, cell);
            next.class_.Some? && Rank(oc, env, next) < Rank(oc, env, cell)
  {
    var c := cell.class_.value;
    PhaseAdvances(Some(oc), env, cell);
    var next := StepTo(Some(oc), env, cell);
    ResourcesIgnoreMetadata(oc, env, c, next.class_.value, cell);
    var owners := SetController(SingletonRef(oc), c.owners);
    OwnerIsSet(oc, c, owners.value);
    hide StepResources, Upsert, HasCorrectOwner, RemoveAll, OwnedByOther;
  }

  /** While something is left to do, a call does some of it. */
  lemma RankDecreases(oc: Singleton, env: Environment, cell: Cell)
    requires NormalCell(cell) && cell.class_.Some? && NoForeignController(oc, cell.class_.value, cell)
    ensures var (next, outcome) := Step(Some(oc), env, cell);
            && next.class_.Some?
            && (|| Rank(oc, env, next) < Rank(oc, env, cell)
                || (Rank(oc, env, cell) == 0 && next == cell && outcome == Completed))
  {
    if ResourcesPhase(Some(oc), cell) {
      ResourcesRankDecreases(oc, env, cell);
    } else {
      MetadataRankDecreases(oc, env, cell);
      hide Step, Rank;
    }
  }

  // ---------- What the fixed point contains ----------

  predicate DeploymentInSync(updated: Deployment, d: Deployment) {
    && (BothHaveContainers(updated, d) ==>
          && d.template.containers[0].image == updated.template.containers[0].image
          && multiset(EnvPairs(d.template.containers[0].env)) == multiset(EnvPairs(updated.template.containers[0].env)))
    && d.template.labels == NormalMap(updated.template.labels)
    && d.template.annotations == NormalMap(updated.template.annotations)
    && d.template.nodeSelector == NormalMap(updated.template.nodeSelector)
    && (TolerationsAgree(updated.template.tolerations, d.template.tolerations)
        || (d.template.tolerations.None? && updated.template.tolerations == Some([])))
  }

  predicate ServiceInSync(updated: Service, s: Service) {
    && s.selector == NormalMap(updated.selector)
    && s.ports == NormalPorts(updated.ports)
    && s.serviceType == "ClusterIP"
    && s.labels == NormalMap(updated.labels) && s.annotations == NormalMap(updated.annotations)
  }

  predicate CertificateInSync(updated: Certificate, c: Certificate) {
    && multiset(c.dnsNames) == multiset(updated.dnsNames)
    && c.issuerName == updated.issuerName && c.issuerKind == updated.issuerKind
    && c.secretName == updated.secretName
    && c.labels == NormalMap(updated.labels) && c.annotations == NormalMap(updated.annotations)
  }

  predicate WebhookConfigInSync(updated: WebhookConfig, w: WebhookConfig) {
    && WebhooksAgree(updated.webhooks, w.webhooks)
    && w.labels == NormalMap(updated.labels) && w.annotations == NormalMap(updated.annotations)
  }

  /** All four resources exist and say what the class asks for, in every respect the comparators look at. */
  predicate InSync(oc: Singleton, env: Environment, cell: Cell) {
    && cell.class_.Some? && cell.deployment.Some? && cell.service.Some? && cell.certificate.Some? && cell.webhook.Some?
    && var c := cell.class_.value;
    && LEGACY_FINALIZER !in c.finalizers && HasCorrectOwner(c, oc)
    && DeploymentInSync(CreateDeployment(c, env), cell.deployment.value)
    && ServiceInSync(CreateService(c.name), cell.service.value)
    && CertificateInSync(CreateCertificate(c.name, env), cell.certificate.value)
    && WebhookConfigInSync(CreateWebhookConfig(c, env, oc.labelKey), cell.webhook.value)
  }

  lemma GeneratedEnvDistinct(className: string, env: Environment)
    ensures DistinctKeys(EnvPairs(WebhookEnv(className, env)))
  {
    var e := WebhookEnv(className, env);
    assert forall i :: 0 <= i < |e| ==> EnvPairs(e)[i].0 == e[i].name;
  }

  /** A synchronised deployment says what any generated one with distinct variables asks for. */
  lemma SyncedInSync(updated: Deployment, ref: OwnerReference, existing: Option<Deployment>)
    requires |updated.template.containers| == 1 && DistinctKeys(EnvPairs(updated.template.containers[0].env))
    requires existing.Some? ==> NormalDeployment(existing.value) == existing.value
    requires SyncDeployment(updated, ref, existing).Some?
    ensures DeploymentInSync(updated, SyncDeployment(updated, ref, existing).value)
  {
    var env0 := updated.template.containers[0].env;
    if existing.Some? && BothHaveContainers(updated, existing.value) {
      SameBindingsIsPermutation(EnvPairs(env0), EnvPairs(existing.value.template.containers[0].env));
    }
    hide SameBindings, OwnedByOther, Upsert, EnvPairs;
  }

  lemma SyncedDeployment(c: OvercommitClass, env: Environment, ref: OwnerReference, existing: Option<Deployment>)
    requires existing.Some? ==> NormalDeployment(existing.value) == existing.value
    requires SyncDeployment(CreateDeployment(c, env), ref, existing).Some?
    ensures DeploymentInSync(CreateDeployment(c, env), SyncDeployment(CreateDeployment(c, env), ref, existing).value)
  {
    GeneratedEnvDistinct(c.name, env);
    assert |CreateDeployment(c, env).template.containers| == 1;
    assert CreateDeployment(c, env).template.containers[0].env == WebhookEnv(c.name, env);
    hide SyncDeployment, CreateDeployment, DeploymentInSync, NormalDeployment, WebhookEnv, EnvPairs;
    SyncedInSync(CreateDeployment(c, env), ref, existing);
  }

  lemma ServiceNeverAccepted(name: string, s: Service)
    requires NormalService(s) == s
    ensures !SameBindings(PortPairs(CreateService(name).ports), PortPairs(s.ports))
    ensures CreateService(name).serviceType != s.serviceType
  {
    var a, b := PortPairs(CreateService(name).ports), PortPairs(s.ports);
    if |a| == |b| {
      assert a[0] == ("", (443, 9443, ""));
      assert b[0] == (s.ports[0].name, (s.ports[0].port, s.ports[0].targetPort, s.ports[0].protocol));
      assert NormalPorts(s.ports)[0] == s.ports[0];
      assert s.ports[0].protocol != "";
      assert LastBindings(a)[""] == (443, 9443, "");
      assert b[..0] == [];
      assert LastBindings(b) == map[b[0].0 := b[0].1];
    }
  }

  /** Every completed reconcile sends the service again, because the server's defaults are never accepted;
      what is stored afterwards is the same. */
  lemma ServiceRewrittenEveryTime(c: OvercommitClass, s: Service)
    requires NormalService(s) == s && !OwnedByOther(ClassRef(c), s.owners)
    ensures !ServiceAccepted(CreateService(c.name), s)
    ensures MergeService(CreateService(c.name), s).(owners := Upsert(ClassRef(c), s.owners)) != s
    ensures var once := SyncService(CreateService(c.name), ClassRef(c), Some(s));
            once.Some? && SyncService(CreateService(c.name), ClassRef(c), once) == once
  {
    ServiceNeverAccepted(c.name, s);
    ServiceStable(CreateService(c.name), ClassRef(c), Some(s));
  }

  lemma SyncedService(name: string, ref: OwnerReference, existing: Option<Service>)
    requires existing.Some? ==> NormalService(existing.value) == existing.value
    requires SyncService(CreateService(name), ref, existing).Some?
    ensures ServiceInSync(CreateService(name), SyncService(CreateService(name), ref, existing).value)
  {
    if existing.Some? { ServiceNeverAccepted(name, existing.value); }
    hide SameBindings, OwnedByOther, Upsert, NormalPorts;
  }

  lemma SyncedCertificate(name: string, env: Environment, ref: OwnerReference, existing: Option<Certificate>)
    requires existing.Some? ==> NormalCertificate(existing.value) == existing.value
    requires SyncCertificate(CreateCertificate(name, env), ref, existing).Some?
    ensures CertificateInSync(CreateCertificate(name, env),
                              SyncCertificate(CreateCertificate(name, env), ref, existing).value)
  {
    if existing.Some? { SameItemsIsPermutation(CreateCertificate(name, env).dnsNames, existing.value.dnsNames); }
    hide SameBindings, OwnedByOther, Upsert;
  }

  lemma SyncedWebhookConfig(updated: WebhookConfig, ref: OwnerReference, existing: Option<WebhookConfig>)
    requires existing.Some? ==> NormalWebhookConfig(existing.value) == existing.value
    requires SyncWebhookConfig(updated, ref, existing).Some?
    ensures WebhookConfigInSync(updated, SyncWebhookConfig(updated, ref, existing).value)
  {
    hide OwnedByOther, Upsert;
  }

  /** A completed call leaves everything in sync. */
  lemma CompletedIsInSync(oc: Singleton, env: Environment, cell: Cell)
    requires NormalCell(cell) && cell.class_.Some? && Step(Some(oc), env, cell).1 == Completed
    ensures InSync(oc, env, StepTo(Some(oc), env, cell))
  {
    var c := cell.class_.value;
    var ref := ClassRef(c);
    hide CreateDeployment, CreateService, CreateCertificate, CreateWebhookConfig, NormalDeployment, NormalService,
         NormalCertificate, NormalWebhookConfig, SyncDeployment, SyncService, SyncCertificate, SyncWebhookConfig,
         DeploymentInSync, ServiceInSync, CertificateInSync, WebhookConfigInSync, HasCorrectOwner, SetController,
         RemoveAll;
    SyncedDeployment(c, env, ref, cell.deployment);
    SyncedService(c.name, ref, cell.service);
    SyncedCertificate(c.name, env, ref, cell.certificate);
    SyncedWebhookConfig(CreateWebhookConfig(c, env, oc.labelKey), ref, cell.webhook);
  }

  // ---------- Convergence ----------

  lemma NoForeignKept(oc: Singleton, env: Environment, cell: Cell)
    requires cell.class_.Some? && NoForeignController(oc, cell.class_.value, cell)
    ensures var next := StepTo(Some(oc), env, cell);
            next.class_.Some? && NoForeignController(oc, next.class_.value, next)
  {
    var c := cell.class_.value;
    SyncKeepsOwners(oc, env, c, cell);
    ResourcesKeepClass(oc, env, c, cell);
    OwnersKept(SingletonRef(oc), c.owners);
    hide StepResources, OwnedByOther, Upsert, HasCorrectOwner, RemoveAll;
  }

  lemma RankAtMostThree(oc: Singleton, env: Environment, cell: Cell)
    requires cell.class_.Some?
    ensures Rank(oc, env, cell) <= 3
  {
    hide StepResources;
  }

  /** From any stored class and resources that no one else controls, three calls reach a fixed point in which
      all four resources exist and are in sync. */
  lemma ConvergesInThree(oc: Singleton, env: Environment, cell: Cell)
    requires NormalCell(cell) && cell.class_.Some? && NoForeignController(oc, cell.class_.value, cell)
    ensures var final := Iterate(Some(oc), env, cell, 3);
            InSync(oc, env, final) && Step(Some(oc), env, final) == (final, Completed)
  {
    var s := Some(oc);
    var c1 := StepTo(s, env, cell);
    var c2 := StepTo(s, env, c1);
    var c3 := StepTo(s, env, c2);
    hide NormalCell, NoForeignController, InSync, Rank, StepResources;
    RankAtMostThree(oc, env, cell);
    StepNormal(s, env, cell);
    StepNormal(s, env, c1);
    StepNormal(s, env, c2);
    NoForeignKept(oc, env, cell);
    NoForeignKept(oc, env, c1);
    NoForeignKept(oc, env, c2);
    hide Step;
    RankDecreases(oc, env, cell);
    RankDecreases(oc, env, c1);
    RankDecreases(oc, env, c2);
    RankDecreases(oc, env, c3);
    CompletedIsInSync(oc, env, c3);
    IterateThree(s, env, cell);
  }

  // ---------- Runs of spec edits and reconciles ----------

  /** A call may fail, as in StepWith. */
  datatype Event = EditSpec(spec: ClassSpec) | Reconcile(failure: Option<nat>)

  function Apply(oc: Singleton, env: Environment, cell: Cell, e: Event): Cell {
    match e
    case Reconcile(failure) => StepWith(Some(oc), env, cell, failure).0
    case EditSpec(spec) =>
      if cell.class_.Some? then cell.(class_ := Some(cell.class_.value.(spec := spec))) else cell
  }

  function Run(oc: Singleton, env: Environment, cell: Cell, events: seq<Event>): Cell
    decreases |events|
  {
    if events == [] then cell else Run(oc, env, Apply(oc, env, cell, events[0]), events[1..])
  }

  ghost predicate GeneratedFor(name: string, env: Environment, labelKey: string, webhooks: seq<Webhook>,
                               spec: ClassSpec) {
    webhooks == CreateWebhooks(name, spec, env, labelKey)
  }

  /** The fields that no later call changes are as they were generated, whatever the spec was. */
  predicate CreatedDeployment(name: string, env: Environment, ref: OwnerReference, d: Deployment) {
    && d.template.containers == WebhookContainers(name, env)
    && d.labels == Some(map["app" := name + WEBHOOK_SUFFIX])
    && d.selector == map["app" := name + WEBHOOK_SUFFIX]
    && d.template.serviceAccount == env.serviceAccount
    && d.template.secretVolume == name + SECRET_SUFFIX
    && ref in d.owners
  }

  predicate CreatedCertificate(name: string, env: Environment, ref: OwnerReference, k: Certificate) {
    && k.dnsNames == CreateCertificate(name, env).dnsNames
    && k.durationHours == CreateCertificate(name, env).durationHours
    && k.renewBeforeHours == CreateCertificate(name, env).renewBeforeHours
    && ref in k.owners
  }

  /** What holds between events: everything stored was generated, for the current spec or an earlier one. */
  ghost predicate Managed(oc: Singleton, env: Environment, cell: Cell) {
    && NormalCell(cell) && cell.class_.Some? && NoForeignController(oc, cell.class_.value, cell)
    && var name, ref := cell.class_.value.name, ClassRef(cell.class_.value);
    && (cell.deployment.Some? ==> CreatedDeployment(name, env, ref, cell.deployment.value))
    && (cell.service.Some? ==> ref in cell.service.value.owners)
    && (cell.certificate.Some? ==> CreatedCertificate(name, env, ref, cell.certificate.value))
    && (cell.webhook.Some? ==>
          && ref in cell.webhook.value.owners
          && exists spec :: GeneratedFor(name, env, oc.labelKey, cell.webhook.value.webhooks, spec))
  }

  /** Generated fields are exactly the current generator output, as the server stores it, and all four resources
      belong to the class. */
  predicate Exact(oc: Singleton, env: Environment, cell: Cell) {
    && cell.class_.Some? && cell.deployment.Some? && cell.service.Some? && cell.certificate.Some? && cell.webhook.Some?
    && var c, template := cell.class_.value, cell.deployment.value.template;
    && var updated := CreateDeployment(c, env).template;
    && cell.webhook.value.webhooks == CreateWebhooks(c.name, c.spec, env, oc.labelKey)
    && template.containers == updated.containers
    && template.labels == NormalMap(updated.labels)
    && template.annotations == NormalMap(updated.annotations)
    && template.nodeSelector == NormalMap(updated.nodeSelector)
    && cell.service.value.ports == NormalPorts(CreateService(c.name).ports)
    && CreatedDeployment(c.name, env, ClassRef(c), cell.deployment.value)
    && ClassRef(c) in cell.service.value.owners
    && CreatedCertificate(c.name, env, ClassRef(c), cell.certificate.value)
    && ClassRef(c) in cell.webhook.value.owners
  }

  lemma SyncKeepsCertificate(name: string, env: Environment, ref: OwnerReference, existing: Option<Certificate>)
    requires existing.Some? ==> CreatedCertificate(name, env, ref, existing.value)
    ensures var c := SyncCertificate(CreateCertificate(name, env), ref, existing);
            c.Some? ==> CreatedCertificate(name, env, ref, c.value)
  {
    if existing.Some? { UpsertIdempotent(ref, existing.value.owners); }
    hide CertificateAccepted, OwnedByOther, Upsert, NormalMap;
  }

  lemma SyncKeepsService(name: string, ref: OwnerReference, existing: Option<Service>)
    requires existing.Some? ==> ref in existing.value.owners
    ensures var s := SyncService(CreateService(name), ref, existing);
            s.Some? ==> ref in s.value.owners
  {
    if existing.Some? { UpsertIdempotent(ref, existing.value.owners); }
    hide ServiceAccepted, OwnedByOther, Upsert, NormalMap, NormalPorts, SameBindings;
  }

  /** What a synchronisation takes from the existing object, and what it leaves of the owners. */
  lemma SyncKeepsCreation(updated: Deployment, ref: OwnerReference, d: Deployment)
    requires SyncDeployment(updated, ref, Some(d)).Some?
    ensures var next := SyncDeployment(updated, ref, Some(d)).value;
            && next.labels in [d.labels, NormalMap(d.labels)]
            && next.selector == d.selector
            && next.template.serviceAccount == d.template.serviceAccount
            && next.template.secretVolume == d.template.secretVolume
            && next.template.containers
               in [d.template.containers, MergeContainers(updated.template.containers, d.template.containers)]
            && (ref in d.owners ==> ref in next.owners)
  {
    UpsertIdempotent(ref, d.owners);
    hide MergeContainers, DeploymentAccepted, OwnedByOther, Upsert, NormalMap, TolerationsAgree;
  }

  lemma SyncKeepsDeployment(c: OvercommitClass, env: Environment, ref: OwnerReference, existing: Option<Deployment>)
    requires existing.Some? ==> CreatedDeployment(c.name, env, ref, existing.value)
    ensures var d := SyncDeployment(CreateDeployment(c, env), ref, existing);
            d.Some? ==> CreatedDeployment(c.name, env, ref, d.value)
  {
    var labels := map["app" := c.name + WEBHOOK_SUFFIX];
    assert "app" in labels;
    assert NormalMap(Some(labels)) == Some(labels);
    MergeContainersStable(WebhookContainers(c.name, env), WebhookContainers(c.name, env));
    assert |WebhookContainers(c.name, env)| == 1;
    hide MergeContainers, WebhookContainers, WithApp, NormalMap;
    if existing.Some? {
      hide SyncDeployment;
      if SyncDeployment(CreateDeployment(c, env), ref, existing).Some? {
        SyncKeepsCreation(CreateDeployment(c, env), ref, existing.value);
      }
    }
  }

  lemma SyncKeepsGenerated(c: OvercommitClass, env: Environment, labelKey: string, ref: OwnerReference,
                           existing: Option<WebhookConfig>, old_: ClassSpec)
    requires existing.Some? ==>
               GeneratedFor(c.name, env, labelKey, existing.value.webhooks, old_) && ref in existing.value.owners
    ensures var w := SyncWebhookConfig(CreateWebhookConfig(c, env, labelKey), ref, existing);
            w.Some? ==> GeneratedFor(c.name, env, labelKey, w.value.webhooks, c.spec) && ref in w.value.owners
  {
    if existing.Some? { UpsertIdempotent(ref, existing.value.owners); }
    GeneratedWebhooksComplete(c.name, c.spec, old_, env, labelKey);
    hide CreateWebhooks, WebhooksAgree, OwnedByOther, Upsert, NormalMap;
  }

  /** A pass over managed resources ends either with every generated field exact, or before the webhooks. */
  lemma ManagedPass(oc: Singleton, env: Environment, cell: Cell)
    requires Managed(oc, env, cell)
    ensures var (next, outcome) := StepResources(oc, env, cell.class_.value, cell);
            outcome == Completed && Managed(oc, env, next) && Exact(oc, env, next)
  {
    var c := cell.class_.value;
    var ref := ClassRef(c);
    SyncKeepsOwners(oc, env, c, cell);
    ResourcesStable(oc, env, c, cell);
    SyncKeepsDeployment(c, env, ref, cell.deployment);
    SyncKeepsService(c.name, ref, cell.service);
    SyncKeepsCertificate(c.name, env, ref, cell.certificate);
    if SyncService(CreateService(c.name), ref, cell.service).Some? { SyncedService(c.name, ref, cell.service); }
    var old_ :| cell.webhook.Some? ==> GeneratedFor(c.name, env, oc.labelKey, cell.webhook.value.webhooks, old_);
    SyncKeepsGenerated(c, env, oc.labelKey, ref, cell.webhook, old_);
    if SyncDeployment(CreateDeployment(c, env), ref, cell.deployment).Some? {
      SyncedDeployment(c, env, ref, cell.deployment);
    }
    hide SyncDeployment, SyncService, SyncCertificate, SyncWebhookConfig, CreateWebhooks, WebhookContainers,
         NormalCell, NoForeignController, NormalMap, NormalPorts, WithApp, CreateCertificate, CreateService,
         CreatedCertificate, ClassRef;
  }

  lemma StepKeepsIdentity(oc: Singleton, env: Environment, cell: Cell)
    requires cell.class_.Some?
    ensures var next := StepTo(Some(oc), env, cell).class_;
            next.Some?
            && next.value == cell.class_.value.(finalizers := next.value.finalizers, owners := next.value.owners)
  {
    ResourcesKeepClass(oc, env, cell.class_.value, cell);
    hide StepResources, SetController, HasCorrectOwner, RemoveAll;
  }

  lemma StepClassCases(oc: Singleton, env: Environment, cell: Cell)
    requires cell.class_.Some?
    ensures var c, next := cell.class_.value, StepTo(Some(oc), env, cell).class_;
            || next == Some(c)
            || next == Some(c.(finalizers := RemoveAll(c.finalizers, LEGACY_FINALIZER)))
            || next == Some(c.(owners := Upsert(SingletonRef(oc), c.owners)))
  {
    ResourcesKeepClass(oc, env, cell.class_.value, cell);
    hide StepResources, HasCorrectOwner, RemoveAll, Upsert, OwnedByOther;
  }

  /** A call takes nothing from the class but the legacy finalizer, and no reference but to the singleton. */
  lemma MetadataKept(oc: Singleton, env: Environment, cell: Cell, finalizer: string, owner: OwnerReference)
    requires cell.class_.Some?
    ensures var c, next := cell.class_.value, StepTo(Some(oc), env, cell).class_;
            && next.Some? && next.value.name == c.name && next.value.uid == c.uid && next.value.spec == c.spec
            && (finalizer != "overcommitclass.finalizer" ==>
                  multiset(next.value.finalizers)[finalizer] == multiset(c.finalizers)[finalizer])
            && (!(owner.kind == "Overcommit" && owner.name == "cluster") ==>
                  (owner in next.value.owners <==> owner in c.owners))
  {
    var c := cell.class_.value;
    StepClassCases(oc, env, cell);
    RemoveAllKeeps(c.finalizers, LEGACY_FINALIZER, finalizer);
    if !(owner.kind == "Overcommit" && owner.name == "cluster") {
      UpsertKeepsOthers(SingletonRef(oc), c.owners, owner);
    }
    hide StepTo, RemoveAll, Upsert;
  }

  lemma ManagedStep(oc: Singleton, env: Environment, cell: Cell)
    requires Managed(oc, env, cell)
    ensures Managed(oc, env, StepTo(Some(oc), env, cell))
  {
    ManagedPass(oc, env, cell);
    NoForeignKept(oc, env, cell);
    StepNormal(Some(oc), env, cell);
    StepKeepsIdentity(oc, env, cell);
    StepKeepsOrSynchronises(Some(oc), env, cell);
    hide StepTo, StepResources, Exact, NormalCell, NoForeignController, CreatedDeployment, CreatedCertificate,
         GeneratedFor;
  }

  lemma CutPassOwners(oc: Singleton, env: Environment, c: OvercommitClass, cell: Cell, n: nat)
    requires NoForeignController(oc, c, cell)
    ensures NoForeignController(oc, c, StepResourcesUpTo(oc, env, c, cell, n))
  {
    var ref := ClassRef(c);
    DeploymentOwners(CreateDeployment(c, env), ref, cell.deployment);
    ServiceOwners(CreateService(c.name), ref, cell.service);
    CertificateOwners(CreateCertificate(c.name, env), ref, cell.certificate);
    WebhookConfigOwners(CreateWebhookConfig(c, env, oc.labelKey), ref, cell.webhook);
    UpToFields(oc, env, c, cell, n);
    hide StepResourcesUpTo, SyncDeployment, SyncService, SyncCertificate, SyncWebhookConfig, OwnedByOther,
         CreateDeployment, CreateService,
         CreateCertificate, CreateWebhookConfig, ClassRef, SingletonRef;
  }

  /** A pass cut short leaves managed resources managed. */
  lemma ManagedCutPass(oc: Singleton, env: Environment, cell: Cell, n: nat)
    requires Managed(oc, env, cell)
    ensures Managed(oc, env, StepResourcesUpTo(oc, env, cell.class_.value, cell, n))
  {
    var c := cell.class_.value;
    var ref := ClassRef(c);
    CutPassNormal(oc, env, c, cell, n);
    CutPassOwners(oc, env, c, cell, n);
    UpToKeepsClass(oc, env, c, cell, n);
    SyncKeepsDeployment(c, env, ref, cell.deployment);
    SyncKeepsService(c.name, ref, cell.service);
    SyncKeepsCertificate(c.name, env, ref, cell.certificate);
    var old_ :| cell.webhook.Some? ==> GeneratedFor(c.name, env, oc.labelKey, cell.webhook.value.webhooks, old_);
    SyncKeepsGenerated(c, env, oc.labelKey, ref, cell.webhook, old_);
    UpToFields(oc, env, c, cell, n);
    hide StepResourcesUpTo, SyncDeployment, SyncService, SyncCertificate, SyncWebhookConfig, CreateWebhooks,
         WebhookContainers, NormalCell,
         NoForeignController, CreateCertificate, CreateService, CreateDeployment, GeneratedFor, CreatedDeployment,
         CreatedCertificate, ClassRef;
  }

  lemma ManagedCall(oc: Singleton, env: Environment, cell: Cell, failure: Option<nat>)
    requires Managed(oc, env, cell)
    ensures Managed(oc, env, StepWith(Some(oc), env, cell, failure).0)
  {
    if failure.None? {
      ManagedStep(oc, env, cell);
    } else {
      ManagedCutPass(oc, env, cell, failure.value);
    }
    hide Managed, Step, StepResources, StepResourcesUpTo, HasCorrectOwner;
  }

  lemma CompletedStep(oc: Singleton, env: Environment, cell: Cell)
    requires cell.class_.Some?
    ensures Step(Some(oc), env, cell).1 == Completed <==>
            ResourcesPhase(Some(oc), cell) && StepResources(oc, env, cell.class_.value, cell).1 == Completed
    ensures ResourcesPhase(Some(oc), cell) ==>
              Step(Some(oc), env, cell) == StepResources(oc, env, cell.class_.value, cell)
  {
    hide StepResources, SetController, HasCorrectOwner, RemoveAll;
  }

  /** A call that ends without an error after all four resources, whether or not the metrics were counted. */
  lemma CompletedIsPass(oc: Singleton, env: Environment, cell: Cell, failure: Option<nat>)
    requires cell.class_.Some? && StepWith(Some(oc), env, cell, failure).1 == Completed
    ensures StepWith(Some(oc), env, cell, failure).0 == StepResources(oc, env, cell.class_.value, cell).0
    ensures StepResources(oc, env, cell.class_.value, cell).1 == Completed
  {
    CompletedStep(oc, env, cell);
    UncutPass(oc, env, cell.class_.value, cell, METRICS);
    hide Step, StepResources, StepResourcesUpTo, HasCorrectOwner;
  }

  lemma ManagedKept(oc: Singleton, env: Environment, cell: Cell, e: Event)
    requires Managed(oc, env, cell)
    ensures Managed(oc, env, Apply(oc, env, cell, e))
  {
    if e.Reconcile? { ManagedCall(oc, env, cell, e.failure); }
    hide StepWith, NormalCell, CreatedDeployment, CreatedCertificate, GeneratedFor, OwnedByOther;
  }

  function NormalTolerations(tolerations: Option<seq<Toleration>>): Option<seq<Toleration>> {
    if tolerations == Some([]) then None else tolerations
  }

  function TolerationsAfter(tolerations: Option<seq<Toleration>>,
                            existing: Option<Deployment>): Option<seq<Toleration>> {
    if existing.Some? && TolerationsAgree(tolerations, existing.value.template.tolerations) then
      existing.value.template.tolerations
    else NormalTolerations(tolerations)
  }

  /** The stored tolerations stay while the comparator takes them for the new ones. */
  lemma SyncedTolerations(c: OvercommitClass, env: Environment, ref: OwnerReference, existing: Option<Deployment>)
    requires existing.Some? ==> NormalDeployment(existing.value) == existing.value
    requires SyncDeployment(CreateDeployment(c, env), ref, existing).Some?
    ensures SyncDeployment(CreateDeployment(c, env), ref, existing).value.template.tolerations
            == TolerationsAfter(c.spec.tolerations, existing)
  {
    hide TolerationsAgree, WebhookContainers, WithApp, ImageAndEnvAccepted, OwnedByOther, Upsert, MergeContainers,
         NormalMap;
  }

  lemma PassedTolerations(oc: Singleton, env: Environment, c: OvercommitClass, cell: Cell)
    requires NormalCell(cell) && StepResources(oc, env, c, cell).1 == Completed
    ensures var next := StepResources(oc, env, c, cell).0;
            next.deployment.Some?
            && next.deployment.value.template.tolerations == TolerationsAfter(c.spec.tolerations, cell.deployment)
  {
    if SyncDeployment(CreateDeployment(c, env), ClassRef(c), cell.deployment).Some? {
      SyncedTolerations(c, env, ClassRef(c), cell.deployment);
    }
    hide CreateDeployment, CreateService, CreateCertificate, CreateWebhooks, SyncDeployment, SyncService,
         SyncCertificate,
         SyncWebhookConfig, TolerationsAfter, NormalDeployment, NormalService, NormalCertificate, NormalWebhookConfig;
  }

  lemma {:induction false} ManagedRun(oc: Singleton, env: Environment, cell: Cell, events: seq<Event>)
    requires Managed(oc, env, cell)
    ensures Managed(oc, env, Run(oc, env, cell, events))
    decreases |events|
  {
    hide Managed, Apply;
    if events != [] {
      ManagedKept(oc, env, cell, events[0]);
      ManagedRun(oc, env, Apply(oc, env, cell, events[0]), events[1..]);
    }
  }

  /** The comparators miss nothing but tolerations: after any run of spec edits and reconciles, failing ones among
      them, from a class without resources, a reconcile that ends without an error leaves exactly the generated
      webhooks, containers, labels, annotations, node selector, ports and DNS names of the current spec. Its
      tolerations are the current ones, or those stored before if the comparator takes them for the current ones. */
  lemma CompletedReconcileIsExact(oc: Singleton, env: Environment, c: OvercommitClass, events: seq<Event>,
                                  failure: Option<nat>)
    requires !OwnedByOther(SingletonRef(oc), c.owners)
    ensures var cell := Run(oc, env, Cell(Some(c), None, None, None, None), events);
            var (after, outcome) := StepWith(Some(oc), env, cell, failure);
            && cell.class_.Some?
            && (outcome == Completed ==>
                  && Exact(oc, env, after)
                  && after.deployment.value.template.tolerations
                     == TolerationsAfter(cell.class_.value.spec.tolerations, cell.deployment))
  {
    var start := Cell(Some(c), None, None, None, None);
    var cell := Run(oc, env, start, events);
    ManagedRun(oc, env, start, events);
    if StepWith(Some(oc), env, cell, failure).1 == Completed {
      CompletedIsPass(oc, env, cell, failure);
      ManagedPass(oc, env, cell);
      PassedTolerations(oc, env, cell.class_.value, cell);
    }
    hide Exact, StepWith, StepResources, NormalCell, NoForeignController, GeneratedFor, TolerationsAfter;
  }

  lemma {:induction false} ManagedIterate(oc: Singleton, env: Environment, cell: Cell, n: nat)
    requires Managed(oc, env, cell)
    ensures Managed(oc, env, Iterate(Some(oc), env, cell, n))
    decreases n
  {
    hide Managed, StepTo;
    if n > 0 {
      ManagedStep(oc, env, cell);
      ManagedIterate(oc, env, StepTo(Some(oc), env, cell), n - 1);
    }
  }

  /** And after the last edit three reconciles without a failure always get there, whatever fails in between. */
  lemma ThreeReconcilesAreExact(oc: Singleton, env: Environment, c: OvercommitClass, events: seq<Event>,
                                calls: seq<Option<nat>>)
    requires !OwnedByOther(SingletonRef(oc), c.owners) && Successes(calls) >= 3
    ensures var final := RunCalls(Some(oc), env, Run(oc, env, Cell(Some(c), None, None, None, None), events), calls);
            Exact(oc, env, final) && InSync(oc, env, final)
  {
    var cell := Run(oc, env, Cell(Some(c), None, None, None, None), events);
    ManagedRun(oc, env, Cell(Some(c), None, None, None, None), events);
    FailuresOnlyDelay(Some(oc), env, cell, calls);
    ConvergesInThree(oc, env, cell);
    hide Step, Exact, InSync, RunCalls, Iterate, NormalCell, NoForeignController, GeneratedFor;
    ManagedIterate(oc, env, cell, 3);
    var final := Iterate(Some(oc), env, cell, 3);
    CompletedStep(oc, env, final);
    ManagedPass(oc, env, final);
    hide StepResources;
  }

  /** Equal but for numbers of seconds, toleration by toleration. */
  predicate OnlySecondsDiffer(a: Option<seq<Toleration>>, b: Option<seq<Toleration>>) {
    a.Some? == b.Some? && (a.Some? ==> ContentsOf(a.value) == ContentsOf(b.value))
  }

  lemma SecondsUnseen(a: Option<seq<Toleration>>, b: Option<seq<Toleration>>, stored: Option<seq<Toleration>>)
    requires OnlySecondsDiffer(a, b)
    ensures TolerationsAgree(a, stored) <==> TolerationsAgree(b, stored)
  {
    if a.Some? {
      forall i | 0 <= i < |a.value| ensures TolerationKey(a.value[i]) == TolerationKey(b.value[i]) {
        assert ContentsOf(a.value)[i] == ContentsOf(b.value)[i];
        ContentDecidesKey(a.value[i], b.value[i]);
      }
      assert |a.value| == |ContentsOf(a.value)| == |b.value|;
      assert TolerationKeys(a.value) == TolerationKeys(b.value);
    }
  }

  // ---------- Edits of tolerations ----------

  function WithTolerations(c: OvercommitClass, tolerations: Option<seq<Toleration>>): OvercommitClass {
    c.(spec := c.spec.(tolerations := tolerations))
  }

  /** The comparator accepts the stored list for the new one, or both say that there are none. */
  predicate TolerationsUnseen(tolerations: Option<seq<Toleration>>, stored: Option<seq<Toleration>>) {
    TolerationsAgree(tolerations, stored) || (tolerations == Some([]) && stored.None?)
  }

  lemma TolerationsAgreeReflexive(tolerations: Option<seq<Toleration>>)
    ensures TolerationsAgree(tolerations, tolerations)
  {
  }

  lemma EditedDeployment(c: OvercommitClass, tolerations: Option<seq<Toleration>>, env: Environment,
                         ref: OwnerReference, d: Deployment)
    requires NormalDeployment(d) == d && SyncDeployment(CreateDeployment(c, env), ref, Some(d)) == Some(d)
    ensures var synced := SyncDeployment(CreateDeployment(WithTolerations(c, tolerations), env), ref, Some(d));
            && (TolerationsAgree(tolerations, d.template.tolerations) ==> synced == Some(d))
            && (synced.None? ==> OwnedByOther(ref, d.owners))
            && (synced.Some? ==>
                  synced.value.template.tolerations
                  == if TolerationsAgree(tolerations, d.template.tolerations) then d.template.tolerations
                     else NormalTolerations(tolerations))
            && (OwnedByOther(ref, d.owners) && !TolerationsAgree(tolerations, d.template.tolerations) ==> synced.None?)
  {
    SyncedDeployment(c, env, ref, Some(d));
    hide TolerationsAgree, WebhookContainers, WithApp, ImageAndEnvAccepted, OwnedByOther, Upsert, MergeContainers,
         NormalMap;
  }

  lemma TolerationsKeptIff(tolerations: Option<seq<Toleration>>, stored: Option<seq<Toleration>>)
    requires NormalTolerations(stored) == stored && !TolerationsAgree(tolerations, stored)
    ensures NormalTolerations(tolerations) == stored <==> TolerationsUnseen(tolerations, stored)
  {
    TolerationsAgreeReflexive(stored);
    hide TolerationsAgree;
  }

  /** What a pass does after such an edit: all but the deployment stays as it is. */
  lemma EditedPass(oc: Singleton, env: Environment, c: OvercommitClass, c': OvercommitClass, cell: Cell)
    requires c' == WithTolerations(c, c'.spec.tolerations)
    requires StepResources(oc, env, c, cell) == (cell, Completed)
    ensures var edited := cell.(class_ := Some(c'));
            var synced := SyncDeployment(CreateDeployment(c', env), ClassRef(c), cell.deployment);
            StepResources(oc, env, c', edited)
            == if synced.None? then (edited, Failed) else (edited.(deployment := synced), Completed)
  {
    hide CreateDeployment, CreateService, CreateCertificate, CreateWebhook, SyncDeployment, SyncService,
         SyncCertificate,
         SyncWebhookConfig;
  }

  lemma OwnersAlone(oc: Singleton, c: OvercommitClass, c': OvercommitClass)
    requires c.owners == c'.owners
    ensures HasCorrectOwner(c, oc) == HasCorrectOwner(c', oc)
  {
  }

  lemma StepSynced(oc: Singleton, env: Environment, c: OvercommitClass, cell: Cell)
    requires StepResources(oc, env, c, cell) == (cell, Completed)
    ensures cell.deployment.Some?
    ensures SyncDeployment(CreateDeployment(c, env), ClassRef(c), cell.deployment) == cell.deployment
  {
    hide CreateDeployment, CreateService, CreateCertificate, CreateWebhooks, SyncDeployment, SyncService,
         SyncCertificate,
         SyncWebhookConfig;
  }

  /** One call after an edit of the tolerations of a class that was in sync. */
  lemma EditedStep(oc: Singleton, env: Environment, cell: Cell, tolerations: Option<seq<Toleration>>)
    requires cell.class_.Some? && Step(Some(oc), env, cell) == (cell, Completed)
    ensures cell.deployment.Some?
    ensures var c := cell.class_.value;
            var edited := cell.(class_ := Some(WithTolerations(c, tolerations)));
            var generated := CreateDeployment(WithTolerations(c, tolerations), env);
            var synced := SyncDeployment(generated, ClassRef(c), cell.deployment);
            && SyncDeployment(CreateDeployment(c, env), ClassRef(c), cell.deployment) == cell.deployment
            && Step(Some(oc), env, edited)
               == if synced.None? then (edited, Failed) else (edited.(deployment := synced), Completed)
  {
    var c := cell.class_.value;
    var c' := WithTolerations(c, tolerations);
    var edited := cell.(class_ := Some(c'));
    CompletedStep(oc, env, cell);
    CompletedStep(oc, env, edited);
    StepSynced(oc, env, c, cell);
    OwnersAlone(oc, c, c');
    hide Step, StepResources, HasCorrectOwner, SyncDeployment, CreateDeployment;
    EditedPass(oc, env, c, c', cell);
  }

  /** Which edits of the tolerations never reach the deployment of a class that was in sync: those whose new list
      the comparator takes the stored one for, or that only empty a list that was not there; unless someone else
      controls the deployment, which then no edit reaches. Any other list is stored by the next call. */
  lemma TolerationEditReaches(oc: Singleton, env: Environment, cell: Cell, tolerations: Option<seq<Toleration>>)
    requires NormalCell(cell) && cell.class_.Some? && Step(Some(oc), env, cell) == (cell, Completed)
    ensures cell.deployment.Some?
    ensures var c, d := cell.class_.value, cell.deployment.value;
            var after := StepTo(Some(oc), env, cell.(class_ := Some(WithTolerations(c, tolerations)))).deployment;
            && after.Some?
            && (after.value.template.tolerations == d.template.tolerations <==>
                  TolerationsUnseen(tolerations, d.template.tolerations) || OwnedByOther(ClassRef(c), d.owners))
            && (after.value.template.tolerations != d.template.tolerations ==>
                  after.value.template.tolerations == NormalTolerations(tolerations))
  {
    EditedStep(oc, env, cell, tolerations);
    var c, d := cell.class_.value, cell.deployment.value;
    assert NormalTolerations(d.template.tolerations) == d.template.tolerations;
    hide Step, SyncDeployment, CreateDeployment, NormalDeployment, TolerationsAgree, OwnedByOther;
    EditedDeployment(c, tolerations, env, ClassRef(c), d);
    if !TolerationsAgree(tolerations, d.template.tolerations) {
      TolerationsKeptIff(tolerations, d.template.tolerations);
    }
  }

  /** In particular an edit of seconds alone changes nothing at all: the next call completes. */
  lemma SecondsNeverPropagate(oc: Singleton, env: Environment, cell: Cell, tolerations: Option<seq<Toleration>>)
    requires NormalCell(cell) && cell.class_.Some? && Step(Some(oc), env, cell) == (cell, Completed)
    requires OnlySecondsDiffer(cell.class_.value.spec.tolerations, tolerations)
    ensures var edited := cell.(class_ := Some(WithTolerations(cell.class_.value, tolerations)));
            Step(Some(oc), env, edited) == (edited, Completed)
  {
    EditedStep(oc, env, cell, tolerations);
    var c, d := cell.class_.value, cell.deployment.value;
    SyncedDeployment(c, env, ClassRef(c), Some(d));
    SecondsUnseen(c.spec.tolerations, tolerations, d.template.tolerations);
    assert c.spec.tolerations == Some([]) ==> tolerations == Some([]) by {
      if c.spec.tolerations == Some([]) { assert |ContentsOf(tolerations.value)| == 0; }
    }
    hide Step, SyncDeployment, CreateDeployment, NormalDeployment, TolerationsAgree, OnlySecondsDiffer;
    EditedDeployment(c, tolerations, env, ClassRef(c), d);
  }

  // ---------- Edits of the overcommit label ----------

  lemma AgreeForEveryLabel(name: string, spec: ClassSpec, env: Environment, labelKey: string, labelKey': string,
                           stored: seq<Webhook>)
    ensures WebhooksAgree(CreateWebhooks(name, spec, env, labelKey), stored) <==>
            WebhooksAgree(CreateWebhooks(name, spec, env, labelKey'), stored)
  {
    var a, b := CreateWebhooks(name, spec, env, labelKey), CreateWebhooks(name, spec, env, labelKey');
    assert |a| == |b|;
    assert forall i :: 0 <= i < |a| ==> a[i] == b[i].(objectSelector := a[i].objectSelector);
    hide CreateWebhooks;
  }

  lemma RelabelledWebhooks(c: OvercommitClass, env: Environment, labelKey: string, labelKey': string,
                           ref: OwnerReference,
                           w: WebhookConfig)
    requires NormalWebhookConfig(w) == w
    requires SyncWebhookConfig(CreateWebhookConfig(c, env, labelKey), ref, Some(w)) == Some(w)
    ensures SyncWebhookConfig(CreateWebhookConfig(c, env, labelKey'), ref, Some(w)) == Some(w)
  {
    SyncedWebhookConfig(CreateWebhookConfig(c, env, labelKey), ref, Some(w));
    AgreeForEveryLabel(c.name, c.spec, env, labelKey, labelKey', w.webhooks);
    hide CreateWebhooks, WebhooksAgree, OwnedByOther, Upsert;
  }

  lemma RelabelledPass(oc: Singleton, env: Environment, c: OvercommitClass, cell: Cell, labelKey: string)
    requires NormalCell(cell) && StepResources(oc, env, c, cell) == (cell, Completed)
    ensures StepResources(oc.(labelKey := labelKey), env, c, cell) == (cell, Completed)
  {
    assert cell.webhook.Some?;
    hide CreateDeployment, CreateService, CreateCertificate, CreateWebhookConfig, SyncDeployment, SyncService,
         SyncCertificate,
         SyncWebhookConfig, NormalDeployment, NormalService, NormalCertificate, NormalWebhookConfig;
    RelabelledWebhooks(c, env, oc.labelKey, labelKey, ClassRef(c), cell.webhook.value);
  }

  /** An edit of the overcommit label never reaches the webhooks of a class that was in sync: every later call
      completes and changes nothing, and they go on selecting by the old label. */
  lemma LabelEditNeverPropagates(oc: Singleton, env: Environment, cell: Cell, labelKey: string)
    requires NormalCell(cell) && cell.class_.Some? && Step(Some(oc), env, cell) == (cell, Completed)
    ensures Step(Some(oc.(labelKey := labelKey)), env, cell) == (cell, Completed)
  {
    var c := cell.class_.value;
    CompletedStep(oc, env, cell);
    CompletedStep(oc.(labelKey := labelKey), env, cell);
    assert HasCorrectOwner(c, oc) == HasCorrectOwner(c, oc.(labelKey := labelKey));
    hide Step, StepResources, NormalCell, HasCorrectOwner;
    RelabelledPass(oc, env, c, cell, labelKey);
  }
}
