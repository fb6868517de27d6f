/** Which class and ratios a pod gets (pkg/overcommit/calculate_values_from_labels.go,
    internal/utils/getOvercommitClass.go), and how that agrees with the webhook that routed it. */
module Resolution {
  import opened Wrappers
  import opened Api
  import opened Generators
  import opened ClassAdmission
  import opened Owners

  /** What the client's reads return. An entry that is missing, or None, stands for any failing read. */
  datatype View = View(
    labelKey: Option<string>,
    classes: map<string, OvercommitClass>,
    listing: Option<seq<OvercommitClass>>,
    namespaces: map<string, Option<StringMap>>)

  /** The part of a pod that resolution reads. */
  datatype PodMeta = PodMeta(name: string, namespace: string, labels: Option<StringMap>, owners: seq<Reference>)

  datatype Resolved = Resolved(
    className: string,
    cpu: real,
    memory: real,
    ownerName: string,
    ownerKind: string,
    resolved: bool)

  function Unresolved(ownerName: string, ownerKind: string): Resolved {
    Resolved("", 1.0, 1.0, ownerName, ownerKind, false)
  }

  function ResolvedTo(c: OvercommitClass, ownerName: string, ownerKind: string): Resolved {
    Resolved(c.name, c.spec.cpuOvercommit, c.spec.memoryOvercommit, ownerName, ownerKind, true)
  }

  function GetOvercommitClass(view: View, name: string): Option<OvercommitClass> {
    if name == "" || name !in view.classes then None else Some(view.classes[name])
  }

  function FirstDefault(items: seq<OvercommitClass>): Option<OvercommitClass> {
    if items == [] then None
    else if items[0].spec.isDefault then Some(items[0])
    else FirstDefault(items[1..])
  }

  method GetDefaultClass(items: seq<OvercommitClass>) returns (c: Option<OvercommitClass>)
    ensures c == FirstDefault(items)
  {
    for i := 0 to |items|
      invariant FirstDefault(items) == FirstDefault(items[i..])
    {
      if items[i].spec.isDefault { return Some(items[i]); }
    }
    return None;
  }

  function GetNamespaceOvercommit(view: View, namespace: string, labelKey: string, ownerName: string,
                                  ownerKind: string): Resolved {
    if namespace !in view.namespaces then Unresolved(ownerName, ownerKind)
    else
      match LabelValue(view.namespaces[namespace], labelKey) {
        case Some(value) =>
          var c := GetOvercommitClass(view, value);
          if c.None? then Unresolved(ownerName, ownerKind)
          else ResolvedTo(c.value, ownerName, ownerKind).(className := value)
        case None =>
          if view.listing.None? || FirstDefault(view.listing.value).None? then Unresolved(ownerName, ownerKind)
          else ResolvedTo(FirstDefault(view.listing.value).value, ownerName, ownerKind)
      }
  }

  /** The names are empty after an owner error. */
  function OwnerNames(owner: PodOwner): (string, string) {
    if owner.Owner? then (owner.name, owner.kind) else ("", "")
  }

  function CheckOvercommitType(view: View, pod: PodMeta, owner: PodOwner): Resolved {
    var (ownerName, ownerKind) := OwnerNames(owner);
    if view.labelKey.None? then Unresolved(ownerName, ownerKind)
    else
      match LabelValue(pod.labels, view.labelKey.value) {
        case Some(value) =>
          var c := GetOvercommitClass(view, value);
          if c.None? then GetNamespaceOvercommit(view, pod.namespace, view.labelKey.value, ownerName, ownerKind)
          else ResolvedTo(c.value, ownerName, ownerKind).(className := value)
        case None => GetNamespaceOvercommit(view, pod.namespace, view.labelKey.value, ownerName, ownerKind)
      }
  }

  /** A failing owner lookup only blanks the owner's name and kind. */
  lemma OwnerDoesNotMatter(view: View, pod: PodMeta, owner: PodOwner, owner': PodOwner)
    ensures var (ownerName, ownerKind) := OwnerNames(owner);
            CheckOvercommitType(view, pod, owner)
            == CheckOvercommitType(view, pod, owner').(ownerName := ownerName, ownerKind := ownerKind)
  {
  }

  lemma {:induction false} FirstDefaultIsListed(items: seq<OvercommitClass>)
    ensures FirstDefault(items).None? <==> forall i :: 0 <= i < |items| ==> !items[i].spec.isDefault
    ensures FirstDefault(items).Some? ==>
              exists i :: 0 <= i < |items| && items[i] == FirstDefault(items).value && items[i].spec.isDefault
  {
    if items != [] {
      FirstDefaultIsListed(items[1..]);
      if FirstDefault(items[1..]).Some? {
        var i :| && 0 <= i < |items| - 1
                 && items[1..][i] == FirstDefault(items[1..]).value && items[1..][i].spec.isDefault;
        assert items[i + 1] == FirstDefault(items[1..]).value;
      }
      assert forall i :: 1 <= i < |items| ==> items[i] == items[1..][i - 1];
    }
  }

  /** What a resolution reports besides: the owner's name and kind, or nothing after an owner error, and whether a
      class was found. */
  lemma ResolutionReports(view: View, pod: PodMeta, owner: PodOwner)
    ensures var r := CheckOvercommitType(view, pod, owner);
            && (owner.Owner? ==> r.ownerName == owner.name && r.ownerKind == owner.kind)
            && (!owner.Owner? ==> r.ownerName == "" && r.ownerKind == "")
            && (!r.resolved ==> r.className == "" && r.cpu == 1.0 && r.memory == 1.0)
            && ((forall n <- view.classes :: view.classes[n].name == n)
                && (view.listing.Some? ==> forall c <- view.listing.value :: c.name != "") ==>
                  (r.resolved <==> r.className != ""))
  {
    if view.listing.Some? && FirstDefault(view.listing.value).Some? { FirstDefaultIsListed(view.listing.value); }
    hide FirstDefault;
  }

  /** An empty label value names no class, whatever classes there are: on the pod it is as no label, on the namespace
      as a wrong one. */
  lemma EmptyLabel(view: View, pod: PodMeta, owner: PodOwner, labelKey: string)
    requires view.labelKey == Some(labelKey)
    ensures LabelValue(pod.labels, labelKey) == Some("") ==>
              CheckOvercommitType(view, pod, owner) == CheckOvercommitType(view, pod.(labels := None), owner)
    ensures LabelValue(pod.labels, labelKey) == None && pod.namespace in view.namespaces
            && LabelValue(view.namespaces[pod.namespace], labelKey) == Some("") ==>
              !CheckOvercommitType(view, pod, owner).resolved
  {
    hide FirstDefault;
  }

  // ---------- The default class ----------

  /** With at most one default, the first default of a listing is the stored default, whatever the order. */
  lemma DefaultIndependentOfOrder(items: seq<OvercommitClass>, classes: Classes)
    requires Lists(items, classes) && AtMostOneDefault(classes)
    ensures FirstDefault(items).Some? ==>
              var c := FirstDefault(items).value; c.name in classes && classes[c.name] == c && c.spec.isDefault
    ensures forall n <- classes :: classes[n].spec.isDefault ==> FirstDefault(items) == Some(classes[n])
  {
    FirstDefaultIsListed(items);
    if FirstDefault(items).Some? {
      var i :| 0 <= i < |items| && items[i] == FirstDefault(items).value && items[i].spec.isDefault;
      assert classes[items[i].name] == items[i];
    }
    forall n | n in classes && classes[n].spec.isDefault ensures FirstDefault(items) == Some(classes[n]) {
      var i :| 0 <= i < |items| && items[i] == classes[n];
      assert classes[FirstDefault(items).value.name].spec.isDefault;
    }
  }

  // ---------- Routing by object selector ----------

  /** Webhook `i` generated for `c` selects a pod with these labels. */
  predicate Routes(c: OvercommitClass, i: nat, labels: Option<StringMap>, env: Environment, labelKey: string) {
    var hooks := CreateWebhooks(c.name, c.spec, env, labelKey);
    i < |hooks| && Selects(hooks[i].objectSelector, labels)
  }

  lemma SingleRequirement(r: Requirement, labels: Option<StringMap>)
    ensures Selects([r], labels) <==> Satisfies(labels, r)
  {
    if Selects([r], labels) { assert Satisfies(labels, [r][0]); }
  }

  /** A labelled pod goes to the first webhook of the class it names, an unlabelled one to the second
      webhook of the default class. */
  lemma RoutesExactly(c: OvercommitClass, i: nat, labels: Option<StringMap>, env: Environment, labelKey: string)
    ensures Routes(c, i, labels, env, labelKey) <==>
            || (i == 0 && LabelValue(labels, labelKey) == Some(c.name))
            || (i == 1 && c.spec.isDefault && LabelValue(labels, labelKey) == None)
  {
    SingleRequirement(Requirement(labelKey, In, [c.name]), labels);
    SingleRequirement(Requirement(labelKey, DoesNotExist, []), labels);
  }

  /** No pod is selected by two generated webhooks. */
  lemma AtMostOneRoute(classes: Classes, n: string, i: nat, m: string, j: nat,
                       labels: Option<StringMap>, env: Environment, labelKey: string)
    requires AtMostOneDefault(classes) && n in classes && m in classes
    requires classes[n].name == n && classes[m].name == m
    requires Routes(classes[n], i, labels, env, labelKey) && Routes(classes[m], j, labels, env, labelKey)
    ensures n == m && i == j
  {
    RoutesExactly(classes[n], i, labels, env, labelKey);
    RoutesExactly(classes[m], j, labels, env, labelKey);
    hide Routes;
  }

  /** The store as a client reads it when no read fails. */
  ghost predicate Faithful(view: View, classes: Classes) {
    && view.classes == classes
    && view.labelKey.Some?
    && view.listing.Some? && Lists(view.listing.value, classes)
    && "" !in classes && forall n <- classes :: classes[n].name == n
  }

  /** What the documentation promises: the pod's class, else the namespace's class, else the default class.
      A label that names no class on the pod falls through; on the namespace it switches overcommit off. */
  ghost predicate Agrees(view: View, classes: Classes, pod: PodMeta, r: Resolved)
    requires view.labelKey.Some?
  {
    var labelKey := view.labelKey.value;
    var podLabel := LabelValue(pod.labels, labelKey);
    if podLabel.Some? && podLabel.value in classes then
      r == ResolvedTo(classes[podLabel.value], r.ownerName, r.ownerKind)
    else if pod.namespace !in view.namespaces then
      r == Unresolved(r.ownerName, r.ownerKind)
    else
      var nsLabel := LabelValue(view.namespaces[pod.namespace], labelKey);
      if nsLabel.Some? then
        r == if nsLabel.value in classes then ResolvedTo(classes[nsLabel.value], r.ownerName, r.ownerKind)
             else Unresolved(r.ownerName, r.ownerKind)
      else
        && (forall n <- classes :: classes[n].spec.isDefault ==> r == ResolvedTo(classes[n], r.ownerName, r.ownerKind))
        && ((forall n <- classes :: !classes[n].spec.isDefault) ==> r == Unresolved(r.ownerName, r.ownerKind))
  }

  /** Resolution agrees with the promise, for every order in which classes are listed. */
  lemma ResolutionAgrees(view: View, classes: Classes, pod: PodMeta, owner: PodOwner)
    requires view.labelKey.Some? && Faithful(view, classes) && AtMostOneDefault(classes)
    ensures Agrees(view, classes, pod, CheckOvercommitType(view, pod, owner))
  {
    DefaultIndependentOfOrder(view.listing.value, classes);
    hide FirstDefault, Lists, AtMostOneDefault;
  }

  /** The class that routed a labelled pod is the class it resolves to. An unlabelled pod is routed by the
      default class alone, and resolves to that class exactly when its namespace is found and carries no
      label, or a label naming the default class itself. */
  lemma RoutingAgreesWithResolution(view: View, classes: Classes, n: string, i: nat, pod: PodMeta, owner: PodOwner,
                                    env: Environment)
    requires view.labelKey.Some? && Faithful(view, classes) && AtMostOneDefault(classes) && n in classes
    requires Routes(classes[n], i, pod.labels, env, view.labelKey.value)
    ensures var r := CheckOvercommitType(view, pod, owner);
            && i <= 1
            && (i == 0 ==> r == ResolvedTo(classes[n], r.ownerName, r.ownerKind))
            && (i == 1 ==>
                  (r == ResolvedTo(classes[n], r.ownerName, r.ownerKind) <==>
                    (pod.namespace in view.namespaces
                     && LabelValue(view.namespaces[pod.namespace], view.labelKey.value) in [None, Some(n)])))
  {
    RoutesExactly(classes[n], i, pod.labels, env, view.labelKey.value);
    ResolutionAgrees(view, classes, pod, owner);
    hide Routes, CheckOvercommitType, Lists, AtMostOneDefault;
  }
}
