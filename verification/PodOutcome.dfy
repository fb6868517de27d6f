/** What a pod looks like once it is admitted, field by field and under the names the cluster knows
    (pkg/overcommit/make_overcommit.go). */
module PodOutcome {
  import opened Wrappers
  import opened Ratios
  import opened Api
  import opened Generators
  import opened ClassAdmission
  import opened Owners
  import opened Resolution
  import opened PodMutation
  import opened PodAdmission

  // ---------- What carrying out a class means ----------

  function LimitOf(c: PodContainer, resource: string): Option<int> {
    if c.limits.Some? && resource in c.limits.value then Some(c.limits.value[resource]) else None
  }

  /** A resource is requested by its limit and the ratio, or as before if it has no limit or the ratio is 1. */
  predicate RequestFollows(before: PodContainer, after: PodContainer, resource: string, ratio: real) {
    RequestOf(after, resource)
    == if LimitOf(before, resource).Some? && ratio != 1.0 then Some(RequestFor(LimitOf(before, resource).value, ratio))
       else RequestOf(before, resource)
  }

  ghost predicate ContainerFollows(before: PodContainer, after: PodContainer, cpu: real, memory: real) {
    && after.name == before.name && after.limits == before.limits
    && RequestFollows(before, after, "cpu", cpu)
    && RequestFollows(before, after, "memory", memory)
    && (forall resource :: resource != "cpu" && resource != "memory" ==>
          RequestOf(after, resource) == RequestOf(before, resource))
    && (before.limits.None? ==> after == before)
  }

  ghost predicate ContainersFollow(before: seq<PodContainer>, after: seq<PodContainer>, cpu: real, memory: real) {
    && |after| == |before|
    && forall i :: 0 <= i < |before| ==> ContainerFollows(before[i], after[i], cpu, memory)
  }

  /** The annotation under a key reads as the ten-thousandths of a ratio. */
  predicate Says(annotations: Option<StringMap>, key: string, ratio: real) {
    && LabelValue(annotations, key).Some?
    && ParseFraction(LabelValue(annotations, key).value) == Some(TenThousandths(Steps(ratio)))
  }

  ghost predicate AnnotationsFollow(before: Option<StringMap>, after: Option<StringMap>, className: string, cpu: real,
                                    memory: real) {
    && LabelValue(after, "overcommit.inditex.dev/applied") == Some(className)
    && Says(after, "overcommit.inditex.dev/cpu", cpu)
    && Says(after, "overcommit.inditex.dev/memory", memory)
    && forall key ::
         key !in ["overcommit.inditex.dev/applied", "overcommit.inditex.dev/cpu", "overcommit.inditex.dev/memory"] ==>
           LabelValue(after, key) == LabelValue(before, key)
  }

  /** `q` is `p` with a class of these ratios carried out on it; a resize leaves the init containers alone. */
  ghost predicate CarriedOut(p: PodState, q: PodState, className: string, cpu: real, memory: real, isResize: bool) {
    && q.meta == p.meta
    && AnnotationsFollow(p.annotations, q.annotations, className, cpu, memory)
    && ContainersFollow(p.containers, q.containers, cpu, memory)
    && (if isResize then q.initContainers == p.initContainers
        else ContainersFollow(p.initContainers, q.initContainers, cpu, memory))
  }

  /** The pod came with the mark of this class, and is only being created. */
  predicate Marked(p: PodState, className: string, isResize: bool) {
    !isResize && LabelValue(p.annotations, "overcommit.inditex.dev/applied") == Some(className)
  }

  /** With it, the pod stays as it came; without, the class is carried out. */
  ghost predicate Follows(p: PodState, q: PodState, className: string, cpu: real, memory: real, isResize: bool) {
    if Marked(p, className, isResize) then q == p else CarriedOut(p, q, className, cpu, memory, isResize)
  }

  // ---------- The operations do that ----------

  lemma MutatedFollows(c: PodContainer, cpu: real, memory: real)
    ensures ContainerFollows(c, Mutated(c, cpu, memory), cpu, memory)
  {
    hide RequestFor;
  }

  lemma AllMutatedFollow(containers: seq<PodContainer>, cpu: real, memory: real)
    ensures ContainersFollow(containers, MutatedAll(containers, cpu, memory), cpu, memory)
  {
    hide Mutated, ContainerFollows;
    forall i | 0 <= i < |containers|
      ensures ContainerFollows(containers[i], Mutated(containers[i], cpu, memory), cpu, memory)
    {
      MutatedFollows(containers[i], cpu, memory);
    }
  }

  lemma KeysDiffer()
    ensures APPLIED != CPU_ANNOTATION && APPLIED != MEMORY_ANNOTATION && CPU_ANNOTATION != MEMORY_ANNOTATION
  {
    assert APPLIED[23] == 'a' && CPU_ANNOTATION[23] == 'c' && MEMORY_ANNOTATION[23] == 'm';
  }

  lemma ThreeKeysWritten(m: StringMap, a: string, b: string, c: string, u: string, v: string, w: string, key: string)
    requires a != b && a != c && b != c
    ensures LabelValue(Some(m[a := u][b := v][c := w]), key)
            == if key == a then Some(u) else if key == b then Some(v) else if key == c then Some(w)
               else LabelValue(Some(m), key)
  {
  }

  lemma WrittenUnder(annotations: Option<StringMap>, className: string, cpu: real, memory: real, key: string)
    ensures LabelValue(WithAnnotations(annotations, className, cpu, memory), key)
            == if key == APPLIED then Some(className)
               else if key == CPU_ANNOTATION then Some(FormatRatio(cpu))
               else if key == MEMORY_ANNOTATION then Some(FormatRatio(memory))
               else LabelValue(annotations, key)
  {
    KeysDiffer();
    hide FormatRatio;
    var m := if annotations.Some? then annotations.value else map[];
    ThreeKeysWritten(m, APPLIED, CPU_ANNOTATION, MEMORY_ANNOTATION, className, FormatRatio(cpu), FormatRatio(memory),
                     key);
  }

  lemma RatioSaid(annotations: Option<StringMap>, key: string, ratio: real)
    requires RatioOfClass(ratio) && LabelValue(annotations, key) == Some(FormatRatio(ratio))
    ensures Says(annotations, key, ratio)
  {
    OneIsAdmitted();
    hide Admitted, FormatRatio, ParseFraction, Steps, TenThousandths, LabelValue;
    FormatRoundTrip(ratio);
  }

  lemma OthersKept(annotations: Option<StringMap>, className: string, cpu: real, memory: real, key: string)
    requires key !in [APPLIED, CPU_ANNOTATION, MEMORY_ANNOTATION]
    ensures LabelValue(WithAnnotations(annotations, className, cpu, memory), key) == LabelValue(annotations, key)
  {
    WrittenUnder(annotations, className, cpu, memory, key);
    hide LabelValue, WithAnnotations;
  }

  lemma AnnotationsWritten(annotations: Option<StringMap>, className: string, cpu: real, memory: real)
    requires RatioOfClass(cpu) && RatioOfClass(memory)
    ensures AnnotationsFollow(annotations, WithAnnotations(annotations, className, cpu, memory), className, cpu, memory)
  {
    var after := WithAnnotations(annotations, className, cpu, memory);
    KeysDiffer();
    hide RatioOfClass, FormatRatio, WithAnnotations, LabelValue, Says;
    WrittenUnder(annotations, className, cpu, memory, APPLIED);
    WrittenUnder(annotations, className, cpu, memory, CPU_ANNOTATION);
    WrittenUnder(annotations, className, cpu, memory, MEMORY_ANNOTATION);
    RatioSaid(after, CPU_ANNOTATION, cpu);
    RatioSaid(after, MEMORY_ANNOTATION, memory);
    forall key | key !in [APPLIED, CPU_ANNOTATION, MEMORY_ANNOTATION]
      ensures LabelValue(after, key) == LabelValue(annotations, key)
    {
      OthersKept(annotations, className, cpu, memory, key);
    }
  }

  /** What a call of a webhook does to a pod it is called for. */
  lemma HandleFollows(w: World, owner: PodOwner, c: OvercommitClass, p: PodState, isResize: bool)
    requires var r := CheckOvercommitType(w.view, p.meta, owner); RatioOfClass(r.cpu) && RatioOfClass(r.memory)
    ensures var r := CheckOvercommitType(w.view, p.meta, owner);
            Follows(p, Handle(w, owner, c, p, isResize), if r.className == "" then c.name else r.className, r.cpu,
                    r.memory, isResize)
  {
    var r := CheckOvercommitType(w.view, p.meta, owner);
    AnnotationsWritten(p.annotations, EffectiveClass(r, c.name), r.cpu, r.memory);
    AllMutatedFollow(p.containers, r.cpu, r.memory);
    AllMutatedFollow(p.initContainers, r.cpu, r.memory);
    hide CheckOvercommitType, MutatedAll, WithAnnotations, ContainersFollow, AnnotationsFollow, RatioOfClass;
  }

  // ---------- Pods that name a class ----------

  /** The webhooks of a class take pods of this namespace. */
  predicate TakesNamespace(w: World, c: OvercommitClass, namespace: string) {
    w.holds("!object.metadata.namespace.matches('" + c.spec.excludedNamespaces + "')", namespace)
  }

  lemma TakesNamespaceIff(w: World, c: OvercommitClass, namespace: string)
    ensures ConditionsHold(w, MatchConditions(c.spec.excludedNamespaces), namespace) <==>
            TakesNamespace(w, c, namespace)
  {
    var conditions := MatchConditions(c.spec.excludedNamespaces);
    assert conditions[0].expression == "!object.metadata.namespace.matches('" + c.spec.excludedNamespaces + "')";
  }

  lemma ClassRatios(compiles: string -> bool, classes: Classes, name: string)
    requires ValidClasses(compiles, classes) && name in classes
    ensures RatioOfClass(classes[name].spec.cpuOvercommit) && RatioOfClass(classes[name].spec.memoryOvercommit)
    ensures classes[name].name == name
  {
    hide Admitted;
    assert ValidSpec(compiles, classes[name].spec);
  }

  /** A class applied to a pod. */
  lemma AppliedFollows(c: OvercommitClass, p: PodState, isResize: bool)
    requires RatioOfClass(c.spec.cpuOvercommit) && RatioOfClass(c.spec.memoryOvercommit)
    ensures Follows(p, AppliedOrResized(c, p, isResize), c.name, c.spec.cpuOvercommit, c.spec.memoryOvercommit,
                    isResize)
  {
    var cpu, memory := c.spec.cpuOvercommit, c.spec.memoryOvercommit;
    AnnotationsWritten(p.annotations, c.name, cpu, memory);
    AllMutatedFollow(p.containers, cpu, memory);
    AllMutatedFollow(p.initContainers, cpu, memory);
    hide MutatedAll, WithAnnotations, ContainersFollow, AnnotationsFollow, RatioOfClass;
  }

  /** The validator takes pods of this namespace. */
  predicate ValidatorTakes(w: World, namespace: string) {
    w.holds("!object.metadata.namespace.matches('" + w.env.podNamespace + "')", namespace)
  }

  lemma AdmittedIffClassExists(w: World, owner: PodOwner, order: seq<OvercommitClass>, p: PodState, value: string)
    requires InSync(w) && LabelValue(p.meta.labels, w.view.labelKey.value) == Some(value)
    requires Mutate(w, owner, order, p, false).meta == p.meta
    ensures AdmitPod(w, owner, order, p)
            == if ValidatorTakes(w, p.meta.namespace) && value !in w.classes then None
               else Some(Mutate(w, owner, order, p, false))
  {
    SingleRequirement(Requirement(w.view.labelKey.value, Exists, []), p.meta.labels);
    assert ValidatorCondition(w) == "!object.metadata.namespace.matches('" + w.env.podNamespace + "')";
    hide Mutate, Lists, AtMostOneDefault;
  }

  /** A labelled pod that the validator sees is admitted exactly when the class it names exists. In the namespaces
      this class takes, it is then carried out on the pod, once, unless the pod came with its mark; elsewhere the pod
      stays as it came. */
  lemma LabelledPodOutcome(compiles: string -> bool, w: World, owner: PodOwner, order: seq<OvercommitClass>,
                           p: PodState, value: string)
    requires InSync(w) && Lists(order, w.classes) && ValidClasses(compiles, w.classes)
    requires LabelValue(p.meta.labels, w.view.labelKey.value) == Some(value)
    ensures ValidatorTakes(w, p.meta.namespace) ==> (AdmitPod(w, owner, order, p).Some? <==> value in w.classes)
    ensures value in w.classes ==>
              var q, c := AdmitPod(w, owner, order, p), w.classes[value];
              && q.Some?
              && if TakesNamespace(w, c, p.meta.namespace) then
                   Follows(p, q.value, value, c.spec.cpuOvercommit, c.spec.memoryOvercommit, false)
                 else q.value == p
  {
    MutateLabelled(w, owner, order, p, value, false);
    if value in w.classes {
      ClassRatios(compiles, w.classes, value);
      TakesNamespaceIff(w, w.classes[value], p.meta.namespace);
      AppliedFollows(w.classes[value], p, false);
      AppliedMarks(w.classes[value], p);
    }
    hide Mutate, ConditionsHold, AppliedTo, AdmitPod, Lists, AtMostOneDefault, Follows, ValidClasses, TakesNamespace,
         RatioOfClass, ValidatorTakes, Faithful;
    AdmittedIffClassExists(w, owner, order, p, value);
  }

  /** A resize carries the class out again, marked or not. */
  lemma LabelledResizeOutcome(compiles: string -> bool, w: World, owner: PodOwner, order: seq<OvercommitClass>,
                              p: PodState, value: string)
    requires InSync(w) && Lists(order, w.classes) && ValidClasses(compiles, w.classes)
    requires LabelValue(p.meta.labels, w.view.labelKey.value) == Some(value)
    ensures var q := AdmitResize(w, owner, order, p);
            if value in w.classes && TakesNamespace(w, w.classes[value], p.meta.namespace) then
              var spec := w.classes[value].spec;
              CarriedOut(p, q, value, spec.cpuOvercommit, spec.memoryOvercommit, true)
            else q == p
  {
    MutateLabelled(w, owner, order, p, value, true);
    if value in w.classes {
      ClassRatios(compiles, w.classes, value);
      TakesNamespaceIff(w, w.classes[value], p.meta.namespace);
      AppliedFollows(w.classes[value], p, true);
    }
    hide Mutate, ConditionsHold, AppliedOrResized, Lists, AtMostOneDefault, CarriedOut, ValidClasses, TakesNamespace,
         RatioOfClass;
  }

  // ---------- Pods that name none ----------

  /** The class and the ratios that an unlabelled pod gets from the webhook of the default class. */
  function ClassForNamespace(w: World, d: OvercommitClass, namespace: string): (string, real, real)
    requires w.view.labelKey.Some?
  {
    if namespace !in w.view.namespaces then (d.name, 1.0, 1.0)
    else
      match LabelValue(w.view.namespaces[namespace], w.view.labelKey.value)
      case None => (d.name, d.spec.cpuOvercommit, d.spec.memoryOvercommit)
      case Some(value) =>
        if value in w.classes then
          (value, w.classes[value].spec.cpuOvercommit, w.classes[value].spec.memoryOvercommit)
        else (d.name, 1.0, 1.0)
  }

  lemma ResolvedForNamespace(w: World, d: OvercommitClass, meta: PodMeta, owner: PodOwner)
    requires InSync(w) && LabelValue(meta.labels, w.view.labelKey.value) == None
    requires d.name in w.classes && w.classes[d.name] == d && d.spec.isDefault
    ensures var r := CheckOvercommitType(w.view, meta, owner);
            ClassForNamespace(w, d, meta.namespace)
            == (if r.className == "" then d.name else r.className, r.cpu, r.memory)
  {
    ResolutionAgrees(w.view, w.classes, meta, owner);
    hide CheckOvercommitType, Lists, AtMostOneDefault, LabelValue;
    var r := CheckOvercommitType(w.view, meta, owner);
    assert meta.namespace !in w.view.namespaces ==> r == Unresolved(r.ownerName, r.ownerKind);
  }

  lemma HandleForNamespace(compiles: string -> bool, w: World, owner: PodOwner, d: OvercommitClass, p: PodState,
                           isResize: bool)
    requires InSync(w) && LabelValue(p.meta.labels, w.view.labelKey.value) == None && ValidClasses(compiles, w.classes)
    requires d.name in w.classes && w.classes[d.name] == d && d.spec.isDefault
    ensures var (className, cpu, memory) := ClassForNamespace(w, d, p.meta.namespace);
            Follows(p, Handle(w, owner, d, p, isResize), className, cpu, memory, isResize)
  {
    hide Handle, CheckOvercommitType, Follows, Faithful, AtMostOneDefault, ValidClasses, RatioOfClass,
         ClassForNamespace;
    ResolvedForNamespace(w, d, p.meta, owner);
    ResolvedRatios(compiles, w, p.meta, owner);
    HandleFollows(w, owner, d, p, isResize);
  }

  /** An unlabelled pod is always admitted. Where there is a default class, and it takes the pod's namespace, the
      class that the namespace asks for is carried out on it; otherwise nothing happens. */
  lemma UnlabelledPodOutcome(compiles: string -> bool, w: World, owner: PodOwner, order: seq<OvercommitClass>,
                             p: PodState, d: OvercommitClass)
    requires InSync(w) && Lists(order, w.classes) && ValidClasses(compiles, w.classes)
    requires LabelValue(p.meta.labels, w.view.labelKey.value) == None
    requires d.name in w.classes && w.classes[d.name] == d && d.spec.isDefault
    ensures var (className, cpu, memory) := ClassForNamespace(w, d, p.meta.namespace);
            && AdmitPod(w, owner, order, p).Some?
            && var q, q' := AdmitPod(w, owner, order, p).value, AdmitResize(w, owner, order, p);
            if TakesNamespace(w, d, p.meta.namespace) then
              && Follows(p, q, className, cpu, memory, false)
              && CarriedOut(p, q', className, cpu, memory, true)
            else q == p && q' == p
  {
    UnlabelledPodFollowsNamespace(w, owner, order, p, d);
    TakesNamespaceIff(w, d, p.meta.namespace);
    HandleUnlabelled(w, owner, d, p, false);
    HandleUnlabelled(w, owner, d, p, true);
    HandleForNamespace(compiles, w, owner, d, p, false);
    HandleForNamespace(compiles, w, owner, d, p, true);
    hide Handle, Mutate, DefaultApplied, ConditionsHold, Lists, AtMostOneDefault, CarriedOut, ValidClasses,
         TakesNamespace, ClassForNamespace;
  }
}
