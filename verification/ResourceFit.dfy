/** The four objects stored for a class fit together: the service finds the pods of the deployment, the webhooks
    call that service, and the certificate is the one they are trusted by and the one the pods serve with.

    What follows names every field as the cluster sees it, apart from the generators. */
module ResourceFit {
  import opened Wrappers
  import opened Api
  import opened Comparators
  import opened Generators
  import opened ClassState
  import opened ClassConvergence

  // ---------- After any completed reconcile, whatever was stored before ----------

  /** A selector by labels selects the pods of a deployment. */
  predicate SelectsPods(selector: StringMap, d: Deployment) {
    forall key <- selector :: LabelValue(d.template.labels, key) == Some(selector[key])
  }

  /** The same value under every key: nil and empty are alike. */
  ghost predicate SameValues(a: Option<StringMap>, b: Option<StringMap>) {
    forall key :: LabelValue(a, key) == LabelValue(b, key)
  }

  /** What the webhook's process is told. */
  predicate TellsProcess(c: OvercommitClass, env: Environment, variables: seq<EnvVar>) {
    && |variables| == 8
    && HasVariable(variables, "APP_VERSION", env.appVersion)
    && HasVariable(variables, "WEBHOOK_CERT_DIR", "/etc/webhook/config")
    && HasVariable(variables, "ENABLE_CONTROLLER", "false")
    && HasVariable(variables, "ENABLE_POD_MUTATING_WEBHOOK", "true")
    && HasVariable(variables, "OVERCOMMIT_CLASS_NAME", c.name)
    && HasVariable(variables, "SERVICE_ACCOUNT_NAME", env.serviceAccount)
    && HasVariable(variables, "POD_NAMESPACE", env.podNamespace)
    && HasVariable(variables, "POD_NAME", "")
  }

  ghost predicate DeploymentFits(c: OvercommitClass, env: Environment, d: Deployment) {
    && LabelValue(d.template.labels, "app") == Some(c.name + "-overcommit-webhook")
    && (forall key :: key != "app" ==> LabelValue(d.template.labels, key) == LabelValue(c.spec.labels, key))
    && SameValues(d.template.annotations, c.spec.annotations)
    && SameValues(d.template.nodeSelector, c.spec.nodeSelector)
    && (d.template.containers != [] ==>
          && d.template.containers[0].image
             == env.imageRegistry + "/" + env.imageRepository + ":" + env.appVersion
          && TellsProcess(c, env, d.template.containers[0].env))
  }

  predicate ServiceFits(c: OvercommitClass, s: Service, d: Deployment) {
    && s.selector == Some(map["app" := c.name + "-overcommit-webhook"])
    && SelectsPods(s.selector.value, d)
    && s.ports == [ServicePort("", 443, 9443, "TCP")]
    && s.serviceType == "ClusterIP"
  }

  predicate CertificateFits(c: OvercommitClass, env: Environment, k: Certificate) {
    var host := c.name + "-webhook-service" + "." + env.podNamespace + ".svc";
    && |k.dnsNames| == 2 && host in k.dnsNames && host + ".cluster.local" in k.dnsNames
    && k.issuerName == "k8s-overcommit-issuer" && k.issuerKind == "Issuer"
    && k.secretName == c.name + "-webhook-secret"
  }

  predicate WebhookFits(c: OvercommitClass, env: Environment, hook: Webhook, name: string) {
    && hook.name == name
    && hook.service.Some?
    && hook.service.value.name == c.name + "-webhook-service"
    && hook.service.value.namespace == env.podNamespace
    && |hook.rules| == 2
    && hook.reviewVersions == ["v1"]
    && hook.matchConditions
       == [MatchCondition("exclude-namespaces",
                          "!object.metadata.namespace.matches('" + c.spec.excludedNamespaces + "')")]
  }

  predicate WebhookConfigFits(c: OvercommitClass, env: Environment, w: WebhookConfig) {
    && |w.webhooks| == (if c.spec.isDefault then 2 else 1)
    && WebhookFits(c, env, w.webhooks[0], c.name + "-overcommit.inditex.dev")
    && (c.spec.isDefault ==> WebhookFits(c, env, w.webhooks[1], "default-" + c.name + "-overcommit.inditex.dev"))
    && w.annotations
       == Some(map["cert-manager.io/inject-ca-from" := env.podNamespace + "/" + c.name + "-webhook-certificate"])
  }

  predicate ClassFits(oc: Singleton, c: OvercommitClass) {
    && "overcommitclass.finalizer" !in c.finalizers
    && exists i :: 0 <= i < |c.owners| && c.owners[i].kind == "Overcommit" && c.owners[i].uid == oc.uid
  }

  /** All four exist and fit the class and each other. */
  ghost predicate FitTogether(oc: Singleton, env: Environment, cell: Cell) {
    && cell.class_.Some? && cell.deployment.Some? && cell.service.Some? && cell.certificate.Some? && cell.webhook.Some?
    && var c := cell.class_.value;
    && ClassFits(oc, c)
    && DeploymentFits(c, env, cell.deployment.value)
    && ServiceFits(c, cell.service.value, cell.deployment.value)
    && CertificateFits(c, env, cell.certificate.value)
    && WebhookConfigFits(c, env, cell.webhook.value)
  }

  lemma NormalMapValues(m: Option<StringMap>)
    ensures SameValues(NormalMap(m), m)
  {
  }

  lemma GeneratedVariables(c: OvercommitClass, env: Environment)
    ensures DistinctNames(WebhookEnv(c.name, env)) && TellsProcess(c, env, WebhookEnv(c.name, env))
  {
    var v := WebhookEnv(c.name, env);
    assert v[0].name == "APP_VERSION" && v[1].name == "WEBHOOK_CERT_DIR" && v[2].name == "ENABLE_CONTROLLER";
    assert v[3].name == "ENABLE_POD_MUTATING_WEBHOOK" && v[4].name == "OVERCOMMIT_CLASS_NAME";
    assert v[5].name == "SERVICE_ACCOUNT_NAME" && v[6].name == "POD_NAMESPACE" && v[7].name == "POD_NAME";
  }

  lemma VariableKept(a: seq<EnvVar>, b: seq<EnvVar>, name: string, value: string)
    requires forall i :: 0 <= i < |a| ==> HasVariable(b, a[i].name, a[i].value)
    ensures HasVariable(a, name, value) ==> HasVariable(b, name, value)
  {
  }

  lemma StoredVariables(c: OvercommitClass, env: Environment, variables: seq<EnvVar>)
    requires multiset(EnvPairs(variables)) == multiset(EnvPairs(WebhookEnv(c.name, env)))
    ensures TellsProcess(c, env, variables)
  {
    GeneratedVariables(c, env);
    GeneratedEnvDistinct(c.name, env);
    var a := WebhookEnv(c.name, env);
    SameBindingsIsPermutation(EnvPairs(a), EnvPairs(variables));
    EnvVarsEqualOnVariables(a, variables);
    hide WebhookEnv, HasVariable, SameBindings, EnvPairs;
    VariableKept(a, variables, "APP_VERSION", env.appVersion);
    VariableKept(a, variables, "WEBHOOK_CERT_DIR", "/etc/webhook/config");
    VariableKept(a, variables, "ENABLE_CONTROLLER", "false");
    VariableKept(a, variables, "ENABLE_POD_MUTATING_WEBHOOK", "true");
    VariableKept(a, variables, "OVERCOMMIT_CLASS_NAME", c.name);
    VariableKept(a, variables, "SERVICE_ACCOUNT_NAME", env.serviceAccount);
    VariableKept(a, variables, "POD_NAMESPACE", env.podNamespace);
    VariableKept(a, variables, "POD_NAME", "");
  }

  lemma WithAppValues(labels: Option<StringMap>, app: string)
    ensures LabelValue(NormalMap(Some(WithApp(labels, app))), "app") == Some(app)
    ensures forall key :: key != "app" ==>
              LabelValue(NormalMap(Some(WithApp(labels, app))), key) == LabelValue(labels, key)
  {
    assert "app" in WithApp(labels, app);
  }

  lemma DeploymentInSyncFits(c: OvercommitClass, env: Environment, d: Deployment)
    requires DeploymentInSync(CreateDeployment(c, env), d)
    ensures DeploymentFits(c, env, d)
  {
    NormalMapValues(c.spec.annotations);
    NormalMapValues(c.spec.nodeSelector);
    WithAppValues(c.spec.labels, c.name + WEBHOOK_SUFFIX);
    hide WithApp, NormalMap, TolerationsAgree, WebhookEnv, LabelValue, EnvPairs, TellsProcess, SameValues;
    if d.template.containers != [] { StoredVariables(c, env, d.template.containers[0].env); }
  }

  lemma ServiceInSyncFits(c: OvercommitClass, env: Environment, s: Service, d: Deployment)
    requires ServiceInSync(CreateService(c.name), s) && DeploymentFits(c, env, d)
    ensures ServiceFits(c, s, d)
  {
    var selector := map["app" := c.name + WEBHOOK_SUFFIX];
    assert "app" in selector;
    assert NormalPorts(CreateService(c.name).ports)[0] == ServicePort("", 443, 9443, "TCP");
    hide TellsProcess, SameValues;
  }

  lemma CertificateInSyncFits(c: OvercommitClass, env: Environment, k: Certificate)
    requires CertificateInSync(CreateCertificate(c.name, env), k)
    ensures CertificateFits(c, env, k)
  {
    var names := CreateCertificate(c.name, env).dnsNames;
    assert |k.dnsNames| == |multiset(k.dnsNames)| == |names|;
    assert names[0] in multiset(k.dnsNames) && names[1] in multiset(k.dnsNames);
  }

  lemma WebhooksInSyncFit(c: OvercommitClass, env: Environment, labelKey: string, w: WebhookConfig)
    requires WebhookConfigInSync(CreateWebhookConfig(c, env, labelKey), w)
    ensures WebhookConfigFits(c, env, w)
  {
    var generated := CreateWebhooks(c.name, c.spec, env, labelKey);
    assert WebhookAgrees(generated[0], w.webhooks[0]);
    assert c.spec.isDefault ==> WebhookAgrees(generated[1], w.webhooks[1]);
    var annotations := map["cert-manager.io/inject-ca-from" := env.podNamespace + "/" + c.name + CERTIFICATE_SUFFIX];
    assert "cert-manager.io/inject-ca-from" in annotations;
  }

  lemma InSyncFits(oc: Singleton, env: Environment, cell: Cell)
    requires InSync(oc, env, cell)
    ensures FitTogether(oc, env, cell)
  {
    var c := cell.class_.value;
    DeploymentInSyncFits(c, env, cell.deployment.value);
    ServiceInSyncFits(c, env, cell.service.value, cell.deployment.value);
    CertificateInSyncFits(c, env, cell.certificate.value);
    WebhooksInSyncFit(c, env, oc.labelKey, cell.webhook.value);
    hide DeploymentInSync, ServiceInSync, CertificateInSync, WebhookConfigInSync, DeploymentFits, ServiceFits,
         CertificateFits, WebhookConfigFits, CreateDeployment, CreateService, CreateCertificate, CreateWebhookConfig;
  }

  /** Whatever was stored before, under whatever environment: a call that ends without an error after all four
      resources leaves them fitting the class and each other. */
  lemma CompletedFitsTogether(oc: Singleton, env: Environment, cell: Cell, failure: Option<nat>)
    requires NormalCell(cell) && cell.class_.Some?
    ensures var (after, outcome) := StepWith(Some(oc), env, cell, failure);
            outcome == Completed ==> FitTogether(oc, env, after)
  {
    if StepWith(Some(oc), env, cell, failure).1 == Completed {
      CompletedIsPass(oc, env, cell, failure);
      CompletedStep(oc, env, cell);
      assert ResourcesPhase(Some(oc), cell) by { hide StepResources, StepResourcesUpTo, SetController; }
      hide StepWith, Step, StepResources, NormalCell, InSync, ResourcesPhase, FitTogether;
      CompletedIsInSync(oc, env, cell);
      InSyncFits(oc, env, StepTo(Some(oc), env, cell));
    }
  }

  // ---------- What the comparators do not look at ----------

  predicate OwnedByClass(c: OvercommitClass, owners: seq<OwnerReference>) {
    OwnerReference("OvercommitClass", c.name, c.uid, true) in owners
  }

  /** The rules: creates of pods and updates of their resize subresource, and nothing else. */
  predicate WebhookExact(c: OvercommitClass, env: Environment, hook: Webhook, selector: Requirement) {
    && hook.service == Some(ServiceReference(c.name + "-webhook-service", env.podNamespace, "/mutate--v1-pod"))
    && hook.rules == [Rule("CREATE", "pods"), Rule("UPDATE", "pods/resize")]
    && hook.objectSelector == [selector]
  }

  predicate DeploymentExact(c: OvercommitClass, env: Environment, d: Deployment, k: Certificate) {
    && d.labels == Some(map["app" := c.name + "-overcommit-webhook"])
    && d.selector == map["app" := c.name + "-overcommit-webhook"]
    && SelectsPods(d.selector, d)
    && d.template.secretVolume == k.secretName
    && d.template.serviceAccount == env.serviceAccount
    && |d.template.containers| == 1
    && d.template.containers[0].name == "k8s-overcommit"
    && EnvVar("POD_NAME", "", Some("metadata.name")) in d.template.containers[0].env
  }

  /** Besides fitting together, all are the class's, and the parts that no comparator looks at are right too. */
  ghost predicate FitExactly(oc: Singleton, env: Environment, cell: Cell) {
    && FitTogether(oc, env, cell)
    && var c, d, k, w := cell.class_.value, cell.deployment.value, cell.certificate.value, cell.webhook.value;
    && DeploymentExact(c, env, d, k)
    && k.durationHours == 8760 && k.renewBeforeHours == 720
    && WebhookExact(c, env, w.webhooks[0], Requirement(oc.labelKey, In, [c.name]))
    && (c.spec.isDefault ==> WebhookExact(c, env, w.webhooks[1], Requirement(oc.labelKey, DoesNotExist, [])))
    && OwnedByClass(c, d.owners) && OwnedByClass(c, cell.service.value.owners)
    && OwnedByClass(c, k.owners) && OwnedByClass(c, w.owners)
  }

  lemma CreatedDeploymentExact(c: OvercommitClass, env: Environment, d: Deployment, k: Certificate)
    requires CreatedDeployment(c.name, env, ClassRef(c), d)
    requires DeploymentFits(c, env, d) && CertificateFits(c, env, k)
    ensures DeploymentExact(c, env, d, k)
  {
    assert d.template.containers[0].env[7] == EnvVar("POD_NAME", "", Some("metadata.name"));
    hide TellsProcess, SameValues, LabelValue;
  }

  lemma GeneratedWebhooksExact(c: OvercommitClass, env: Environment, labelKey: string)
    ensures var hooks := CreateWebhooks(c.name, c.spec, env, labelKey);
            && WebhookExact(c, env, hooks[0], Requirement(labelKey, In, [c.name]))
            && (c.spec.isDefault ==> WebhookExact(c, env, hooks[1], Requirement(labelKey, DoesNotExist, [])))
  {
  }

  lemma ExactFits(oc: Singleton, env: Environment, cell: Cell)
    requires Exact(oc, env, cell) && FitTogether(oc, env, cell)
    ensures FitExactly(oc, env, cell)
  {
    var c := cell.class_.value;
    CreatedDeploymentExact(c, env, cell.deployment.value, cell.certificate.value);
    GeneratedWebhooksExact(c, env, oc.labelKey);
    hide DeploymentFits, ServiceFits, CertificateFits, WebhookConfigFits, CreatedDeployment, DeploymentExact,
         WebhookExact, CreateWebhooks, NormalMap, NormalPorts, WithApp;
  }

  /** From no resources: after any run of spec edits and reconciles, failing ones among them, a call that ends
      without an error leaves everything fitting exactly. */
  lemma CompletedFitsExactly(oc: Singleton, env: Environment, c: OvercommitClass, events: seq<Event>,
                             failure: Option<nat>)
    requires !OwnedByOther(SingletonRef(oc), c.owners)
    ensures var cell := Run(oc, env, Cell(Some(c), None, None, None, None), events);
            var (after, outcome) := StepWith(Some(oc), env, cell, failure);
            outcome == Completed ==> FitExactly(oc, env, after)
  {
    var start := Cell(Some(c), None, None, None, None);
    var cell := Run(oc, env, start, events);
    CompletedReconcileIsExact(oc, env, c, events, failure);
    ManagedRun(oc, env, start, events);
    hide StepWith, Exact, FitTogether, FitExactly, NormalCell, NoForeignController, GeneratedFor, CreatedDeployment,
         CreatedCertificate;
    CompletedFitsTogether(oc, env, cell, failure);
    if StepWith(Some(oc), env, cell, failure).1 == Completed {
      ExactFits(oc, env, StepWith(Some(oc), env, cell, failure).0);
    }
  }
}
