/** The four objects generated for one class (internal/resources/generate_resources_pod_mutating_webhooks.go),
    and what the API server stores when they are written. */
module Generators {
  import opened Wrappers
  import opened Api
  import opened Comparators

  /** The process environment the generators read. */
  datatype Environment = Environment(
    podNamespace: string,
    serviceAccount: string,
    imageRegistry: string,
    imageRepository: string,
    appVersion: string)

  // ---------- Names ----------

  const WEBHOOK_SUFFIX: string := "-overcommit-webhook"
  const SERVICE_SUFFIX: string := "-webhook-service"
  const CERTIFICATE_SUFFIX: string := "-webhook-certificate"
  const SECRET_SUFFIX: string := "-webhook-secret"
  const HOOK_SUFFIX: string := "-overcommit.inditex.dev"

  lemma SuffixInjective(a: string, b: string, suffix: string)
    ensures a + suffix == b + suffix <==> a == b
  {
    if a + suffix == b + suffix {
      assert (a + suffix)[..|a|] == a && (b + suffix)[..|b|] == b;
    }
  }

  // ---------- Generators ----------

  function Image(env: Environment): string {
    env.imageRegistry + "/" + env.imageRepository + ":" + env.appVersion
  }

  function WebhookEnv(className: string, env: Environment): seq<EnvVar> {
    [ EnvVar("APP_VERSION", env.appVersion, None),
      EnvVar("WEBHOOK_CERT_DIR", "/etc/webhook/config", None),
      EnvVar("ENABLE_CONTROLLER", "false", None),
      EnvVar("ENABLE_POD_MUTATING_WEBHOOK", "true", None),
      EnvVar("OVERCOMMIT_CLASS_NAME", className, None),
      EnvVar("SERVICE_ACCOUNT_NAME", env.serviceAccount, None),
      EnvVar("POD_NAMESPACE", env.podNamespace, None),
      EnvVar("POD_NAME", "", Some("metadata.name")) ]
  }

  function WebhookContainers(className: string, env: Environment): seq<Container> {
    [Container("k8s-overcommit", Image(env), WebhookEnv(className, env))]
  }

  function WithApp(labels: Option<StringMap>, app: string): StringMap {
    (if labels.Some? then labels.value else map[])["app" := app]
  }

  function CreateDeployment(c: OvercommitClass, env: Environment): Deployment {
    var app := c.name + WEBHOOK_SUFFIX;
    Deployment(
      Some(map["app" := app]),
      None,
      [],
      map["app" := app],
      PodTemplate(
        Some(WithApp(c.spec.labels, app)),
        c.spec.annotations,
        env.serviceAccount,
        WebhookContainers(c.name, env),
        c.spec.nodeSelector,
        c.spec.tolerations,
        c.name + SECRET_SUFFIX))
  }

  function CreateService(name: string): Service {
    Service(None, None, [], Some(map["app" := name + WEBHOOK_SUFFIX]), [ServicePort("", 443, 9443, "")], "")
  }

  function CreateCertificate(name: string, env: Environment): Certificate {
    var host := name + SERVICE_SUFFIX + "." + env.podNamespace + ".svc";
    Certificate(None, None, [], name + SECRET_SUFFIX, [host, host + ".cluster.local"],
                "k8s-overcommit-issuer", "Issuer", 8760, 720)
  }

  const MATCH_PREFIX: string := "!object.metadata.namespace.matches('"
  const MATCH_SUFFIX: string := "')"

  function MatchConditions(excludedNamespaces: string): seq<MatchCondition> {
    [MatchCondition("exclude-namespaces", MATCH_PREFIX + excludedNamespaces + MATCH_SUFFIX)]
  }

  function ObjectSelector(isDefault: bool, labelKey: string, name: string): seq<Requirement> {
    if isDefault then [Requirement(labelKey, DoesNotExist, [])] else [Requirement(labelKey, In, [name])]
  }

  function CreateWebhook(hookName: string, name: string, excluded: string, selectDefault: bool,
                         env: Environment, labelKey: string): Webhook {
    Webhook(
      hookName,
      Some(ServiceReference(name + SERVICE_SUFFIX, env.podNamespace, "/mutate--v1-pod")),
      [Rule("CREATE", "pods"), Rule("UPDATE", "pods/resize")],
      ["v1"],
      MatchConditions(excluded),
      ObjectSelector(selectDefault, labelKey, name))
  }

  /** A default class gets a second webhook, for pods without the label. */
  function CreateWebhooks(name: string, spec: ClassSpec, env: Environment, labelKey: string): seq<Webhook> {
    [CreateWebhook(name + HOOK_SUFFIX, name, spec.excludedNamespaces, false, env, labelKey)]
    + if spec.isDefault then
        [CreateWebhook("default-" + name + HOOK_SUFFIX, name, spec.excludedNamespaces, true, env, labelKey)]
      else []
  }

  function CreateWebhookConfig(c: OvercommitClass, env: Environment, labelKey: string): WebhookConfig {
    WebhookConfig(
      None,
      Some(map["cert-manager.io/inject-ca-from" := env.podNamespace + "/" + c.name + CERTIFICATE_SUFFIX]),
      [],
      CreateWebhooks(c.name, c.spec, env, labelKey))
  }

  // ---------- What the API server stores ----------

  /** An empty map or list is left out of the encoding, and so reads back as nil. */
  function NormalMap(m: Option<StringMap>): (n: Option<StringMap>) {
    if m == Some(map[]) then None else m
  }

  function NormalDeployment(d: Deployment): Deployment {
    d.(labels := NormalMap(d.labels),
       annotations := NormalMap(d.annotations),
       template := d.template.(
         labels := NormalMap(d.template.labels),
         annotations := NormalMap(d.template.annotations),
         nodeSelector := NormalMap(d.template.nodeSelector),
         tolerations := if d.template.tolerations == Some([]) then None else d.template.tolerations))
  }

  function NormalPorts(ports: seq<ServicePort>): (normal: seq<ServicePort>)
    ensures |normal| == |ports|
  {
    seq(|ports|, i requires 0 <= i < |ports| =>
      if ports[i].protocol == "" then ports[i].(protocol := "TCP") else ports[i])
  }

  /** The server fills in the service type and the port protocols. */
  function NormalService(s: Service): Service {
    s.(labels := NormalMap(s.labels),
       annotations := NormalMap(s.annotations),
       selector := NormalMap(s.selector),
       ports := NormalPorts(s.ports),
       serviceType := if s.serviceType == "" then "ClusterIP" else s.serviceType)
  }

  function NormalCertificate(c: Certificate): Certificate {
    c.(labels := NormalMap(c.labels), annotations := NormalMap(c.annotations))
  }

  function NormalWebhookConfig(w: WebhookConfig): WebhookConfig {
    w.(labels := NormalMap(w.labels), annotations := NormalMap(w.annotations))
  }

  // ---------- The comparator is complete on generated webhooks ----------

  lemma MatchConditionsInjective(x: string, y: string)
    ensures MatchConditions(x) == MatchConditions(y) <==> x == y
  {
    var p, s := MATCH_PREFIX, MATCH_SUFFIX;
    if MatchConditions(x) == MatchConditions(y) {
      assert MatchConditions(x)[0].expression == p + x + s;
      assert MatchConditions(y)[0].expression == p + y + s;
      SuffixInjective(p + x, p + y, s);
      assert (p + x)[|p|..] == x && (p + y)[|p|..] == y;
    }
  }

  /** Under one label and one environment, generated lists that webhookChanged takes for equal are equal. */
  lemma GeneratedWebhooksComplete(name: string, spec: ClassSpec, spec': ClassSpec, env: Environment, labelKey: string)
    ensures WebhooksAgree(CreateWebhooks(name, spec, env, labelKey), CreateWebhooks(name, spec', env, labelKey))
            <==> CreateWebhooks(name, spec, env, labelKey) == CreateWebhooks(name, spec', env, labelKey)
    ensures CreateWebhooks(name, spec, env, labelKey) == CreateWebhooks(name, spec', env, labelKey)
            <==> spec.isDefault == spec'.isDefault && spec.excludedNamespaces == spec'.excludedNamespaces
  {
    var a, b := CreateWebhooks(name, spec, env, labelKey), CreateWebhooks(name, spec', env, labelKey);
    MatchConditionsInjective(spec.excludedNamespaces, spec'.excludedNamespaces);
    if WebhooksAgree(a, b) {
      assert WebhookAgrees(a[0], b[0]);
    }
    if a == b {
      assert a[0] == b[0] && |a| == |b|;
    }
  }

  /** A changed overcommit label goes unnoticed: the lists agree for every pair of labels, although they are
      equal only when the labels are. */
  lemma LabelChangeUndetected(name: string, spec: ClassSpec, env: Environment, labelKey: string, labelKey': string)
    ensures WebhooksAgree(CreateWebhooks(name, spec, env, labelKey), CreateWebhooks(name, spec, env, labelKey'))
    ensures CreateWebhooks(name, spec, env, labelKey) == CreateWebhooks(name, spec, env, labelKey') <==>
            labelKey == labelKey'
  {
    var a, b := CreateWebhooks(name, spec, env, labelKey), CreateWebhooks(name, spec, env, labelKey');
    if a == b {
      assert a[0] == b[0];
      assert a[0].objectSelector[0].key == labelKey && b[0].objectSelector[0].key == labelKey';
    }
  }
}
