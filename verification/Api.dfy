/** The parts of the Kubernetes objects that the operator reads or writes.

    A Go map or slice that may be nil is an Option: None is nil. */
module Api {
  import opened Wrappers

  type StringMap = map<string, string>

  datatype OwnerReference = OwnerReference(kind: string, name: string, uid: string, controller: bool)

  datatype Toleration = Toleration(key: string, operator: string, value: string, effect: string, seconds: Option<int>)

  // ---------- Custom resources ----------

  datatype ClassSpec = ClassSpec(
    cpuOvercommit: real,
    memoryOvercommit: real,
    excludedNamespaces: string,
    isDefault: bool,
    labels: Option<StringMap>,
    annotations: Option<StringMap>,
    nodeSelector: Option<StringMap>,
    tolerations: Option<seq<Toleration>>)

  datatype OvercommitClass = OvercommitClass(
    name: string,
    uid: string,
    finalizers: seq<string>,
    owners: seq<OwnerReference>,
    spec: ClassSpec)

  // ---------- Generated resources ----------

  /** `fieldPath` stands for ValueFrom, which only POD_NAME uses. */
  datatype EnvVar = EnvVar(name: string, value: string, fieldPath: Option<string>)

  datatype Container = Container(name: string, image: string, env: seq<EnvVar>)

  datatype PodTemplate = PodTemplate(
    labels: Option<StringMap>,
    annotations: Option<StringMap>,
    serviceAccount: string,
    containers: seq<Container>,
    nodeSelector: Option<StringMap>,
    tolerations: Option<seq<Toleration>>,
    secretVolume: string)

  datatype Deployment = Deployment(
    labels: Option<StringMap>,
    annotations: Option<StringMap>,
    owners: seq<OwnerReference>,
    selector: StringMap,
    template: PodTemplate)

  datatype ServicePort = ServicePort(name: string, port: int, targetPort: int, protocol: string)

  datatype Service = Service(
    labels: Option<StringMap>,
    annotations: Option<StringMap>,
    owners: seq<OwnerReference>,
    selector: Option<StringMap>,
    ports: seq<ServicePort>,
    serviceType: string)

  datatype Certificate = Certificate(
    labels: Option<StringMap>,
    annotations: Option<StringMap>,
    owners: seq<OwnerReference>,
    secretName: string,
    dnsNames: seq<string>,
    issuerName: string,
    issuerKind: string,
    durationHours: int,
    renewBeforeHours: int)

  datatype ServiceReference = ServiceReference(name: string, namespace: string, path: string)

  datatype Rule = Rule(operation: string, resource: string)

  datatype MatchCondition = MatchCondition(name: string, expression: string)

  datatype SelectorOperator = In | Exists | DoesNotExist

  datatype Requirement = Requirement(key: string, operator: SelectorOperator, values: seq<string>)

  datatype Webhook = Webhook(
    name: string,
    service: Option<ServiceReference>,
    rules: seq<Rule>,
    reviewVersions: seq<string>,
    matchConditions: seq<MatchCondition>,
    objectSelector: seq<Requirement>)

  datatype WebhookConfig = WebhookConfig(
    labels: Option<StringMap>,
    annotations: Option<StringMap>,
    owners: seq<OwnerReference>,
    webhooks: seq<Webhook>)

  // ---------- Label selectors ----------

  function LabelValue(labels: Option<StringMap>, key: string): Option<string> {
    if labels.Some? && key in labels.value then Some(labels.value[key]) else None
  }

  predicate Satisfies(labels: Option<StringMap>, r: Requirement) {
    match r.operator
    case In => labels.Some? && r.key in labels.value && labels.value[r.key] in r.values
    case Exists => labels.Some? && r.key in labels.value
    case DoesNotExist => labels.None? || r.key !in labels.value
  }

  predicate Selects(selector: seq<Requirement>, labels: Option<StringMap>) {
    forall i :: 0 <= i < |selector| ==> Satisfies(labels, selector[i])
  }
}
