/** Creating a pod: the generated mutating webhooks, then the pod validator
    (internal/resources/generate_resources_pod_mutating_webhooks.go, pkg/overcommit/make_overcommit.go,
    internal/webhook/v1alphav1/validating/pod_webhook.go).

    The webhook configurations are taken to be in sync with the stored classes, which do not change meanwhile.
    CEL is not interpreted: `holds` says which match expressions hold for a namespace. */
module PodAdmission {
  import opened Wrappers
  import opened Ratios
  import opened Api
  import opened Generators
  import opened ClassAdmission
  import opened Owners
  import opened Resolution
  import opened PodMutation

  datatype World = World(
    view: View,
    classes: Classes,
    env: Environment,
    holds: (string, string) -> bool)

  ghost predicate InSync(w: World) {
    && w.view.labelKey.Some? && Faithful(w.view, w.classes) && AtMostOneDefault(w.classes)
  }

  predicate ConditionsHold(w: World, conditions: seq<MatchCondition>, namespace: string) {
    forall i :: 0 <= i < |conditions| ==> w.holds(conditions[i].expression, namespace)
  }

  /** Webhook `i` of a class is called for the pod. */
  predicate Called(w: World, c: OvercommitClass, i: nat, meta: PodMeta)
    requires w.view.labelKey.Some?
  {
    && Routes(c, i, meta.labels, w.env, w.view.labelKey.value)
    && ConditionsHold(w, MatchConditions(c.spec.excludedNamespaces), meta.namespace)
  }

  /** The webhook process of a class handles one call, for a create or for the resize subresource. */
  function Handle(w: World, owner: PodOwner, c: OvercommitClass, p: PodState, isResize: bool): PodState {
    var r := CheckOvercommitType(w.view, p.meta, owner);
    if isResize then ResizeState(p, r, c.name) else OvercommitState(p, r, c.name)
  }

  function CallWebhook(w: World, owner: PodOwner, c: OvercommitClass, i: nat, p: PodState, isResize: bool): PodState
    requires w.view.labelKey.Some?
  {
    if Called(w, c, i, p.meta) then Handle(w, owner, c, p, isResize) else p
  }

  /** The API server goes through the configurations in some order; naming a class again is a reinvocation. */
  function Mutate(w: World, owner: PodOwner, order: seq<OvercommitClass>, p: PodState, isResize: bool): PodState
    requires w.view.labelKey.Some?
    decreases |order|
  {
    if order == [] then p
    else
      var p0 := CallWebhook(w, owner, order[0], 0, p, isResize);
      Mutate(w, owner, order[1..], CallWebhook(w, owner, order[0], 1, p0, isResize), isResize)
  }

  // ---------- The pod validator ----------

  function ValidatorCondition(w: World): string {
    MATCH_PREFIX + w.env.podNamespace + MATCH_SUFFIX
  }

  /** The validating webhook selects labelled pods outside the operator's namespace. */
  predicate ValidatorCalled(w: World, meta: PodMeta)
    requires w.view.labelKey.Some?
  {
    && Selects([Requirement(w.view.labelKey.value, Exists, [])], meta.labels)
    && w.holds(ValidatorCondition(w), meta.namespace)
  }

  /** PodCustomValidator.ValidateCreate. */
  predicate ValidatePod(view: View, meta: PodMeta) {
    && view.labelKey.Some?
    && LabelValue(meta.labels, view.labelKey.value).Some?
    && LabelValue(meta.labels, view.labelKey.value).value in view.classes
  }

  /** Creating a pod; None stands for a rejected one. */
  function AdmitPod(w: World, owner: PodOwner, order: seq<OvercommitClass>, p: PodState): Option<PodState>
    requires w.view.labelKey.Some?
  {
    var q := Mutate(w, owner, order, p, false);
    if ValidatorCalled(w, q.meta) && !ValidatePod(w.view, q.meta) then None else Some(q)
  }

  /** Resizing a pod: the validator's rules name pods but not their subresources. */
  function AdmitResize(w: World, owner: PodOwner, order: seq<OvercommitClass>, p: PodState): PodState
    requires w.view.labelKey.Some?
  {
    Mutate(w, owner, order, p, true)
  }

  // ---------- Any order and number of calls is one call ----------

  lemma MutatedOnceMore(c: PodContainer, cpu: real, memory: real)
    ensures Mutated(Mutated(c, cpu, memory), cpu, memory) == Mutated(c, cpu, memory)
  {
    hide RequestFor;
    if c.limits.Some? {
      var m := Mutated(c, cpu, memory);
      var limits, requests := c.limits.value, m.requests.value;
      if CPU in limits && cpu != 1.0 { assert requests[CPU := RequestFor(limits[CPU], cpu)] == requests; }
      if MEMORY in limits && memory != 1.0 {
        assert requests[MEMORY := RequestFor(limits[MEMORY], memory)] == requests;
      }
    }
  }

  lemma MutatedTwice(containers: seq<PodContainer>, cpu: real, memory: real)
    ensures MutatedAll(MutatedAll(containers, cpu, memory), cpu, memory) == MutatedAll(containers, cpu, memory)
  {
    forall i | 0 <= i < |containers|
      ensures Mutated(Mutated(containers[i], cpu, memory), cpu, memory) == Mutated(containers[i], cpu, memory)
    {
      MutatedOnceMore(containers[i], cpu, memory);
    }
  }

  lemma AnnotatedTwice(annotations: Option<StringMap>, className: string, cpu: real, memory: real)
    ensures var once := WithAnnotations(annotations, className, cpu, memory);
            WithAnnotations(once, className, cpu, memory) == once && AlreadyApplied(once, className)
  {
    hide FormatRatio;
    var once := WithAnnotations(annotations, className, cpu, memory).value;
    assert once == once[APPLIED := className] == once[CPU_ANNOTATION := FormatRatio(cpu)]
                == once[MEMORY_ANNOTATION := FormatRatio(memory)];
  }

  lemma HandledTwice(w: World, owner: PodOwner, c: OvercommitClass, p: PodState, isResize: bool)
    ensures var once := Handle(w, owner, c, p, isResize);
            Handle(w, owner, c, once, isResize) == once && once.meta == p.meta
  {
    var r := CheckOvercommitType(w.view, p.meta, owner);
    AnnotatedTwice(p.annotations, EffectiveClass(r, c.name), r.cpu, r.memory);
    MutatedTwice(p.containers, r.cpu, r.memory);
    hide CheckOvercommitType, MutatedAll, WithAnnotations, EffectiveClass;
  }

  /** Webhook `i` of `c` is the only one of these classes that is called for the pod. */
  predicate OnlyCall(w: World, order: seq<OvercommitClass>, c: OvercommitClass, i: nat, meta: PodMeta)
    requires w.view.labelKey.Some?
  {
    forall k, j: nat :: 0 <= k < |order| && j <= 1 && Called(w, order[k], j, meta) ==> order[k] == c && j == i
  }

  /** One configuration, that is both its webhooks. */
  lemma OneConfiguration(w: World, owner: PodOwner, order: seq<OvercommitClass>, c: OvercommitClass, i: nat,
                         p: PodState, isResize: bool)
    requires w.view.labelKey.Some? && order != [] && i <= 1 && OnlyCall(w, order, c, i, p.meta)
    ensures CallWebhook(w, owner, order[0], 1, CallWebhook(w, owner, order[0], 0, p, isResize), isResize)
            == if order[0] == c && Called(w, c, i, p.meta) then Handle(w, owner, c, p, isResize) else p
  {
    hide Called, Handle;
    HandledTwice(w, owner, c, p, isResize);
    assert Called(w, order[0], 0, p.meta) ==> order[0] == c && i == 0;
    assert Called(w, order[0], 1, p.meta) ==> order[0] == c && i == 1;
  }

  lemma {:induction false} MutateIsOneCall(w: World, owner: PodOwner, order: seq<OvercommitClass>, c: OvercommitClass,
                                           i: nat, p: PodState, isResize: bool)
    requires w.view.labelKey.Some? && i <= 1 && OnlyCall(w, order, c, i, p.meta)
    ensures Mutate(w, owner, order, p, isResize)
            == if c in order && Called(w, c, i, p.meta) then Handle(w, owner, c, p, isResize) else p
    decreases |order|
  {
    hide Called, Handle, CallWebhook;
    if order != [] {
      OneConfiguration(w, owner, order, c, i, p, isResize);
      HandledTwice(w, owner, c, p, isResize);
      var next := if order[0] == c && Called(w, c, i, p.meta) then Handle(w, owner, c, p, isResize) else p;
      assert OnlyCall(w, order[1..], c, i, next.meta) by {
        forall k, j: nat | 0 <= k < |order| - 1 && j <= 1 && Called(w, order[1..][k], j, p.meta)
          ensures order[1..][k] == c && j == i
        {
          assert order[1..][k] == order[k + 1];
        }
      }
      MutateIsOneCall(w, owner, order[1..], c, i, next, isResize);
      assert order == [order[0]] + order[1..];
    }
  }

  // ---------- Labelled pods ----------

  /** The pod once a class has been applied to it. */
  function AppliedTo(c: OvercommitClass, p: PodState): PodState {
    if AlreadyApplied(p.annotations, c.name) then p
    else PodState(p.meta,
                  WithAnnotations(p.annotations, c.name, c.spec.cpuOvercommit, c.spec.memoryOvercommit),
                  MutatedAll(p.containers, c.spec.cpuOvercommit, c.spec.memoryOvercommit),
                  MutatedAll(p.initContainers, c.spec.cpuOvercommit, c.spec.memoryOvercommit))
  }

  /** The pod once a class has been applied to a resize of it. */
  function ResizedTo(c: OvercommitClass, p: PodState): PodState {
    p.(annotations := WithAnnotations(p.annotations, c.name, c.spec.cpuOvercommit, c.spec.memoryOvercommit),
       containers := MutatedAll(p.containers, c.spec.cpuOvercommit, c.spec.memoryOvercommit))
  }

  function AppliedOrResized(c: OvercommitClass, p: PodState, isResize: bool): PodState {
    if isResize then ResizedTo(c, p) else AppliedTo(c, p)
  }

  lemma HandleResolved(w: World, owner: PodOwner, c: OvercommitClass, d: OvercommitClass, p: PodState, isResize: bool)
    requires var r := CheckOvercommitType(w.view, p.meta, owner); r == ResolvedTo(d, r.ownerName, r.ownerKind)
    requires d.name != ""
    ensures Handle(w, owner, c, p, isResize) == AppliedOrResized(d, p, isResize)
  {
    hide CheckOvercommitType, MutatedAll, WithAnnotations, AlreadyApplied;
  }

  /** Calling the webhooks of any class applies the pod's own class when it is that one, and does nothing otherwise. */
  lemma CallForLabelled(w: World, owner: PodOwner, c: OvercommitClass, i: nat, p: PodState, value: string,
                        isResize: bool)
    requires InSync(w) && LabelValue(p.meta.labels, w.view.labelKey.value) == Some(value)
    requires c.name in w.classes && w.classes[c.name] == c
    ensures CallWebhook(w, owner, c, i, p, isResize)
            == if c.name == value && i == 0
                  && ConditionsHold(w, MatchConditions(c.spec.excludedNamespaces), p.meta.namespace)
               then AppliedOrResized(c, p, isResize) else p
  {
    RoutesExactly(c, i, p.meta.labels, w.env, w.view.labelKey.value);
    ResolutionAgrees(w.view, w.classes, p.meta, owner);
    hide Routes, CheckOvercommitType, ConditionsHold, AppliedOrResized, Lists, AtMostOneDefault, Handle;
    if c.name == value { HandleResolved(w, owner, c, c, p, isResize); }
  }

  lemma OnlyOwnClassCalled(w: World, order: seq<OvercommitClass>, meta: PodMeta, value: string, c: OvercommitClass)
    requires InSync(w) && Lists(order, w.classes) && LabelValue(meta.labels, w.view.labelKey.value) == Some(value)
    requires value in w.classes ==> c == w.classes[value]
    ensures OnlyCall(w, order, c, 0, meta)
    ensures value !in w.classes ==> forall k :: 0 <= k < |order| ==> !Called(w, order[k], 0, meta)
  {
    forall k, j: nat | 0 <= k < |order| && j <= 1 && Called(w, order[k], j, meta)
      ensures j == 0 && order[k].name == value && value in w.classes
    {
      RoutesExactly(order[k], j, meta.labels, w.env, w.view.labelKey.value);
    }
    hide Called;
  }

  lemma Listed(order: seq<OvercommitClass>, classes: Classes, name: string)
    requires Lists(order, classes) && name in classes
    ensures classes[name] in order
  {
  }

  lemma NothingToCall(w: World, owner: PodOwner, p: PodState, isResize: bool)
    requires w.view.labelKey.Some?
    ensures Mutate(w, owner, [], p, isResize) == p
  {
  }

  lemma CalledIff(w: World, c: OvercommitClass, i: nat, meta: PodMeta)
    requires w.view.labelKey.Some?
    ensures Called(w, c, i, meta) <==>
            Routes(c, i, meta.labels, w.env, w.view.labelKey.value)
            && ConditionsHold(w, MatchConditions(c.spec.excludedNamespaces), meta.namespace)
  {
  }

  lemma CalledMeansHandled(w: World, owner: PodOwner, c: OvercommitClass, i: nat, p: PodState, isResize: bool)
    requires w.view.labelKey.Some?
    ensures CallWebhook(w, owner, c, i, p, isResize)
            == if Called(w, c, i, p.meta) then Handle(w, owner, c, p, isResize) else p
  {
  }

  /** The webhooks, called in any order and any number of times, apply the class the pod names once, or nothing. */
  lemma MutateLabelled(w: World, owner: PodOwner, order: seq<OvercommitClass>, p: PodState, value: string,
                       isResize: bool)
    requires InSync(w) && Lists(order, w.classes) && LabelValue(p.meta.labels, w.view.labelKey.value) == Some(value)
    ensures Mutate(w, owner, order, p, isResize)
            == if value in w.classes
                  && ConditionsHold(w, MatchConditions(w.classes[value].spec.excludedNamespaces), p.meta.namespace)
               then AppliedOrResized(w.classes[value], p, isResize) else p
  {
    hide Mutate, Called, Handle, AppliedOrResized, ConditionsHold, Lists, AtMostOneDefault;
    if order == [] {
      if value in w.classes { Listed(order, w.classes, value); }
      NothingToCall(w, owner, p, isResize);
    } else {
      var c := if value in w.classes then w.classes[value] else order[0];
      OnlyOwnClassCalled(w, order, p.meta, value, c);
      MutateIsOneCall(w, owner, order, c, 0, p, isResize);
      if value in w.classes {
        Listed(order, w.classes, value);
        CallForLabelled(w, owner, c, 0, p, value, isResize);
        CalledMeansHandled(w, owner, c, 0, p, isResize);
        RoutesExactly(c, 0, p.meta.labels, w.env, w.view.labelKey.value);
        CalledIff(w, c, 0, p.meta);
      } else {
        assert !Called(w, order[0], 0, p.meta);
      }
    }
  }

  lemma AppliedMarks(c: OvercommitClass, p: PodState)
    ensures AlreadyApplied(AppliedTo(c, p).annotations, c.name) && AppliedTo(c, p).meta == p.meta
  {
    hide MutatedAll, FormatRatio;
  }

  /** A labelled pod that is admitted, outside the operator's namespace and those its class excludes, has had
      exactly the class it names applied to it: unless it arrived marked with that class, its requests are
      computed from that class's ratios and the annotation names it. The namespace and the default class play
      no part, whatever order the webhooks are called in and however often. */
  lemma LabelledPodGetsItsClass(w: World, owner: PodOwner, order: seq<OvercommitClass>, p: PodState, value: string)
    requires InSync(w) && Lists(order, w.classes)
    requires LabelValue(p.meta.labels, w.view.labelKey.value) == Some(value)
    requires w.holds(ValidatorCondition(w), p.meta.namespace)
    requires value in w.classes ==>
               ConditionsHold(w, MatchConditions(w.classes[value].spec.excludedNamespaces), p.meta.namespace)
    requires AdmitPod(w, owner, order, p).Some?
    ensures value in w.classes
    ensures var q, c := AdmitPod(w, owner, order, p).value, w.classes[value];
            && q == AppliedTo(c, p)
            && LabelValue(q.annotations, APPLIED) == Some(value)
            && (LabelValue(p.annotations, APPLIED) != Some(value) ==>
                  && q.containers == MutatedAll(p.containers, c.spec.cpuOvercommit, c.spec.memoryOvercommit)
                  && q.initContainers == MutatedAll(p.initContainers, c.spec.cpuOvercommit, c.spec.memoryOvercommit))
  {
    MutateLabelled(w, owner, order, p, value, false);
    SingleRequirement(Requirement(w.view.labelKey.value, Exists, []), p.meta.labels);
    if value in w.classes { AppliedMarks(w.classes[value], p); }
    hide Mutate, ConditionsHold, MutatedAll, WithAnnotations, Lists, AtMostOneDefault;
  }

  /** The one exception: a pod that arrives marked with the class it names is admitted with the requests it
      came with. */
  lemma MarkedPodKeepsItsRequests(w: World, owner: PodOwner, order: seq<OvercommitClass>, p: PodState, value: string)
    requires InSync(w) && Lists(order, w.classes) && value in w.classes
    requires LabelValue(p.meta.labels, w.view.labelKey.value) == Some(value)
    ensures LabelValue(p.annotations, APPLIED) == Some(value) ==> AdmitPod(w, owner, order, p) == Some(p)
  {
    MutateLabelled(w, owner, order, p, value, false);
    hide Mutate, ConditionsHold, MutatedAll, WithAnnotations, Lists, AtMostOneDefault;
  }

  /** A resize has no such exception: outside the excluded namespaces the regular containers are computed anew
      from the class the pod names, and init containers stay as they are. */
  lemma LabelledResizeFollowsItsClass(w: World, owner: PodOwner, order: seq<OvercommitClass>, p: PodState,
                                      value: string)
    requires InSync(w) && Lists(order, w.classes) && LabelValue(p.meta.labels, w.view.labelKey.value) == Some(value)
    ensures AdmitResize(w, owner, order, p)
            == if value in w.classes
                  && ConditionsHold(w, MatchConditions(w.classes[value].spec.excludedNamespaces), p.meta.namespace)
               then ResizedTo(w.classes[value], p) else p
  {
    MutateLabelled(w, owner, order, p, value, true);
    hide Mutate, ConditionsHold, ResizedTo, Lists, AtMostOneDefault;
  }

  // ---------- Unlabelled pods ----------

  lemma OnlyDefaultCalled(w: World, order: seq<OvercommitClass>, meta: PodMeta, d: OvercommitClass)
    requires InSync(w) && Lists(order, w.classes) && LabelValue(meta.labels, w.view.labelKey.value) == None
    requires forall n <- w.classes :: w.classes[n].spec.isDefault ==> w.classes[n] == d
    ensures OnlyCall(w, order, d, 1, meta)
    ensures !d.spec.isDefault ==> !Called(w, d, 1, meta)
  {
    RoutesExactly(d, 1, meta.labels, w.env, w.view.labelKey.value);
    forall k, j: nat | 0 <= k < |order| && j <= 1 && Called(w, order[k], j, meta) ensures order[k] == d && j == 1 {
      RoutesExactly(order[k], j, meta.labels, w.env, w.view.labelKey.value);
      assert w.classes[order[k].name] == order[k];
    }
  }

  /** A container whose limits are set gets a request map, which stays empty if there was none. */
  function Touched(c: PodContainer): PodContainer {
    if c.limits.Some? && c.requests.None? then c.(requests := Some(map[])) else c
  }

  function TouchedAll(containers: seq<PodContainer>): seq<PodContainer> {
    seq(|containers|, i requires 0 <= i < |containers| => Touched(containers[i]))
  }

  function MarkedOnly(d: OvercommitClass, p: PodState, isResize: bool): PodState {
    if !isResize && AlreadyApplied(p.annotations, d.name) then p
    else PodState(p.meta, WithAnnotations(p.annotations, d.name, 1.0, 1.0), TouchedAll(p.containers),
                  if isResize then p.initContainers else TouchedAll(p.initContainers))
  }

  /** What the default class's webhook does to an unlabelled pod: the namespace's class if its label names one,
      the default class if there is no label, and otherwise only a mark: the annotations name the default class
      and the ratio 1. */
  function DefaultApplied(w: World, d: OvercommitClass, p: PodState, isResize: bool): PodState
    requires w.view.labelKey.Some?
  {
    if p.meta.namespace !in w.view.namespaces then MarkedOnly(d, p, isResize)
    else
      match LabelValue(w.view.namespaces[p.meta.namespace], w.view.labelKey.value)
      case None => AppliedOrResized(d, p, isResize)
      case Some(value) =>
        if value in w.classes then AppliedOrResized(w.classes[value], p, isResize) else MarkedOnly(d, p, isResize)
  }

  lemma RatioOneTouches(containers: seq<PodContainer>)
    ensures MutatedAll(containers, 1.0, 1.0) == TouchedAll(containers)
  {
    hide RequestFor;
  }

  lemma HandleUnresolved(w: World, owner: PodOwner, d: OvercommitClass, p: PodState, isResize: bool)
    requires var r := CheckOvercommitType(w.view, p.meta, owner); r == Unresolved(r.ownerName, r.ownerKind)
    ensures Handle(w, owner, d, p, isResize) == MarkedOnly(d, p, isResize)
  {
    RatioOneTouches(p.containers);
    RatioOneTouches(p.initContainers);
    hide CheckOvercommitType, MutatedAll, TouchedAll, WithAnnotations, AlreadyApplied;
  }

  lemma HandleUnlabelled(w: World, owner: PodOwner, d: OvercommitClass, p: PodState, isResize: bool)
    requires InSync(w) && LabelValue(p.meta.labels, w.view.labelKey.value) == None
    requires d.name in w.classes && w.classes[d.name] == d && d.spec.isDefault
    ensures Handle(w, owner, d, p, isResize) == DefaultApplied(w, d, p, isResize)
  {
    ResolutionAgrees(w.view, w.classes, p.meta, owner);
    hide Handle, CheckOvercommitType, MarkedOnly, AppliedOrResized, Lists, AtMostOneDefault;
    var r := CheckOvercommitType(w.view, p.meta, owner);
    if r == Unresolved(r.ownerName, r.ownerKind) {
      HandleUnresolved(w, owner, d, p, isResize);
    } else if LabelValue(w.view.namespaces[p.meta.namespace], w.view.labelKey.value).Some? {
      var value := LabelValue(w.view.namespaces[p.meta.namespace], w.view.labelKey.value).value;
      HandleResolved(w, owner, d, w.classes[value], p, isResize);
    } else {
      HandleResolved(w, owner, d, d, p, isResize);
    }
  }

  lemma MutateUnlabelled(w: World, owner: PodOwner, order: seq<OvercommitClass>, p: PodState, d: OvercommitClass,
                         isResize: bool)
    requires InSync(w) && Lists(order, w.classes) && LabelValue(p.meta.labels, w.view.labelKey.value) == None
    requires d.name in w.classes && w.classes[d.name] == d && d.spec.isDefault
    ensures Mutate(w, owner, order, p, isResize)
            == if ConditionsHold(w, MatchConditions(d.spec.excludedNamespaces), p.meta.namespace)
               then DefaultApplied(w, d, p, isResize) else p
  {
    assert forall n <- w.classes :: w.classes[n].spec.isDefault ==> w.classes[n] == d;
    OnlyDefaultCalled(w, order, p.meta, d);
    MutateIsOneCall(w, owner, order, d, 1, p, isResize);
    Listed(order, w.classes, d.name);
    HandleUnlabelled(w, owner, d, p, isResize);
    RoutesExactly(d, 1, p.meta.labels, w.env, w.view.labelKey.value);
    CalledIff(w, d, 1, p.meta);
    hide Mutate, Handle, Called, Routes, DefaultApplied, ConditionsHold, Lists, AtMostOneDefault;
  }

  lemma DefaultKeepsMeta(w: World, d: OvercommitClass, p: PodState)
    requires w.view.labelKey.Some?
    ensures DefaultApplied(w, d, p, false).meta == p.meta
  {
    hide MutatedAll, WithAnnotations, TouchedAll;
  }

  /** An unlabelled pod is always admitted, and only the default class's webhook sees it. */
  lemma UnlabelledPodFollowsNamespace(w: World, owner: PodOwner, order: seq<OvercommitClass>, p: PodState,
                                      d: OvercommitClass)
    requires InSync(w) && Lists(order, w.classes) && LabelValue(p.meta.labels, w.view.labelKey.value) == None
    requires d.name in w.classes && w.classes[d.name] == d && d.spec.isDefault
    ensures var sees := ConditionsHold(w, MatchConditions(d.spec.excludedNamespaces), p.meta.namespace);
            && AdmitPod(w, owner, order, p) == Some(if sees then DefaultApplied(w, d, p, false) else p)
            && AdmitResize(w, owner, order, p) == if sees then DefaultApplied(w, d, p, true) else p
  {
    MutateUnlabelled(w, owner, order, p, d, false);
    MutateUnlabelled(w, owner, order, p, d, true);
    SingleRequirement(Requirement(w.view.labelKey.value, Exists, []), p.meta.labels);
    DefaultKeepsMeta(w, d, p);
    hide Mutate, DefaultApplied, ConditionsHold, Lists, AtMostOneDefault;
  }

  /** Without a default class nothing happens to it. */
  lemma UnlabelledPodWithoutDefault(w: World, owner: PodOwner, order: seq<OvercommitClass>, p: PodState)
    requires InSync(w) && Lists(order, w.classes) && LabelValue(p.meta.labels, w.view.labelKey.value) == None
    requires forall n <- w.classes :: !w.classes[n].spec.isDefault
    ensures AdmitPod(w, owner, order, p) == Some(p) && AdmitResize(w, owner, order, p) == p
  {
    SingleRequirement(Requirement(w.view.labelKey.value, Exists, []), p.meta.labels);
    if order != [] {
      forall k, j: nat | 0 <= k < |order| && j <= 1 && Called(w, order[k], j, p.meta) ensures false {
        RoutesExactly(order[k], j, p.meta.labels, w.env, w.view.labelKey.value);
      }
      hide Called, Mutate, Handle;
      MutateIsOneCall(w, owner, order, order[0], 0, p, false);
      MutateIsOneCall(w, owner, order, order[0], 0, p, true);
    }
  }

  // ---------- Requests stay within limits ----------

  /** A resource's request, where there is a limit too, does not exceed it. */
  predicate Within(c: PodContainer, resource: string) {
    c.limits.Some? && c.requests.Some? && resource in c.limits.value && resource in c.requests.value ==>
      c.requests.value[resource] <= c.limits.value[resource]
  }

  predicate LimitInRange(c: PodContainer, resource: string) {
    c.limits.Some? && resource in c.limits.value ==> 0 <= c.limits.value[resource] < INT64_LIMIT
  }

  predicate WithinLimits(c: PodContainer) {
    && Within(c, CPU) && Within(c, MEMORY)
    && LimitInRange(c, CPU) && LimitInRange(c, MEMORY)
  }

  predicate PodWithinLimits(p: PodState) {
    && (forall i :: 0 <= i < |p.containers| ==> WithinLimits(p.containers[i]))
    && (forall i :: 0 <= i < |p.initContainers| ==> WithinLimits(p.initContainers[i]))
  }

  /** The ratios that resolution can yield. */
  predicate RatioOfClass(ratio: real) {
    ratio == 1.0 || Admitted(ratio)
  }

  lemma RequestWithin(limit: int, ratio: real)
    requires RatioOfClass(ratio) && ratio != 1.0 && 0 <= limit < INT64_LIMIT
    ensures RequestFor(limit, ratio) <= limit
  {
    assert ratio < 1.0;
    hide Admitted, RequestFor;
    RequestWithinLimit(limit, ratio);
  }

  lemma MutatedWithin(c: PodContainer, cpu: real, memory: real)
    requires WithinLimits(c) && RatioOfClass(cpu) && RatioOfClass(memory)
    ensures WithinLimits(Mutated(c, cpu, memory))
  {
    hide RequestFor, RatioOfClass;
    if c.limits.Some? {
      if CPU in c.limits.value && cpu != 1.0 { RequestWithin(c.limits.value[CPU], cpu); }
      if MEMORY in c.limits.value && memory != 1.0 { RequestWithin(c.limits.value[MEMORY], memory); }
    }
  }

  predicate RatiosOfClasses(classes: Classes) {
    forall n <- classes :: RatioOfClass(classes[n].spec.cpuOvercommit) && RatioOfClass(classes[n].spec.memoryOvercommit)
  }

  lemma ValidRatios(compiles: string -> bool, classes: Classes)
    requires ValidClasses(compiles, classes)
    ensures RatiosOfClasses(classes)
  {
    hide Admitted, AtMostOneDefault;
    assert forall n <- classes :: ValidSpec(compiles, classes[n].spec);
  }

  lemma FoundRatios(classes: Classes, n: string, r: Resolved)
    requires RatiosOfClasses(classes) && n in classes && r == ResolvedTo(classes[n], r.ownerName, r.ownerKind)
    ensures RatioOfClass(r.cpu) && RatioOfClass(r.memory)
  {
    hide RatioOfClass;
  }

  lemma AgreedRatios(view: View, classes: Classes, meta: PodMeta, r: Resolved)
    requires view.labelKey.Some? && Agrees(view, classes, meta, r) && RatiosOfClasses(classes)
    ensures RatioOfClass(r.cpu) && RatioOfClass(r.memory)
  {
    assert RatioOfClass(1.0);
    hide RatioOfClass, LabelValue, RatiosOfClasses;
    if r != Unresolved(r.ownerName, r.ownerKind) {
      var n :| n in classes && r == ResolvedTo(classes[n], r.ownerName, r.ownerKind);
      FoundRatios(classes, n, r);
    }
  }

  lemma ResolvedRatios(compiles: string -> bool, w: World, meta: PodMeta, owner: PodOwner)
    requires InSync(w) && ValidClasses(compiles, w.classes)
    ensures var r := CheckOvercommitType(w.view, meta, owner); RatioOfClass(r.cpu) && RatioOfClass(r.memory)
  {
    hide CheckOvercommitType, Agrees, Faithful, AtMostOneDefault, ValidClasses, RatioOfClass, RatiosOfClasses;
    ResolutionAgrees(w.view, w.classes, meta, owner);
    ValidRatios(compiles, w.classes);
    AgreedRatios(w.view, w.classes, meta, CheckOvercommitType(w.view, meta, owner));
  }

  lemma AllMutatedWithin(containers: seq<PodContainer>, cpu: real, memory: real)
    requires RatioOfClass(cpu) && RatioOfClass(memory)
    requires forall i :: 0 <= i < |containers| ==> WithinLimits(containers[i])
    ensures forall i :: 0 <= i < |containers| ==> WithinLimits(MutatedAll(containers, cpu, memory)[i])
  {
    hide WithinLimits, Mutated, RatioOfClass;
    forall i | 0 <= i < |containers| ensures WithinLimits(Mutated(containers[i], cpu, memory)) {
      MutatedWithin(containers[i], cpu, memory);
    }
  }

  lemma HandleWithin(compiles: string -> bool, w: World, owner: PodOwner, c: OvercommitClass, p: PodState,
                     isResize: bool)
    requires InSync(w) && ValidClasses(compiles, w.classes) && PodWithinLimits(p)
    ensures PodWithinLimits(Handle(w, owner, c, p, isResize))
  {
    ResolvedRatios(compiles, w, p.meta, owner);
    var r := CheckOvercommitType(w.view, p.meta, owner);
    AllMutatedWithin(p.containers, r.cpu, r.memory);
    AllMutatedWithin(p.initContainers, r.cpu, r.memory);
    hide CheckOvercommitType, WithinLimits, Mutated, RatioOfClass, ValidClasses, WithAnnotations, InSync, MutatedAll;
  }

  lemma {:induction false} MutateWithin(compiles: string -> bool, w: World, owner: PodOwner,
                                        order: seq<OvercommitClass>,
                                        p: PodState, isResize: bool)
    requires InSync(w) && ValidClasses(compiles, w.classes) && PodWithinLimits(p)
    ensures PodWithinLimits(Mutate(w, owner, order, p, isResize))
    decreases |order|
  {
    hide Handle, Called, ValidClasses, PodWithinLimits, Faithful, AtMostOneDefault;
    if order != [] {
      var c := order[0];
      var p0 := CallWebhook(w, owner, c, 0, p, isResize);
      HandleWithin(compiles, w, owner, c, p, isResize);
      HandleWithin(compiles, w, owner, c, p0, isResize);
      MutateWithin(compiles, w, owner, order[1..], CallWebhook(w, owner, c, 1, p0, isResize), isResize);
    }
  }

  /** As long as every stored class went through the validator, no pod leaves admission, on create or resize, with
      a CPU or memory request above its limit if it came with none; whatever it is labelled with, whichever class
      it resolves to, and in whatever order the webhooks are called. */
  lemma AdmissionKeepsWithinLimits(compiles: string -> bool, w: World, owner: PodOwner, order: seq<OvercommitClass>,
                                   p: PodState)
    requires InSync(w) && ValidClasses(compiles, w.classes) && PodWithinLimits(p)
    ensures AdmitPod(w, owner, order, p).Some? ==> PodWithinLimits(AdmitPod(w, owner, order, p).value)
    ensures PodWithinLimits(AdmitResize(w, owner, order, p))
  {
    MutateWithin(compiles, w, owner, order, p, false);
    MutateWithin(compiles, w, owner, order, p, true);
    hide Mutate, PodWithinLimits, ValidClasses, InSync;
  }
}
