/** Rewriting the requests of a pod in place (pkg/overcommit/make_overcommit.go,
    internal/webhook/v1alphav1/mutating/pod_webhook.go). */
module PodMutation {
  import opened Wrappers
  import opened Ratios
  import opened Api
  import opened Owners
  import opened Resolution

  const CPU: string := "cpu"
  const MEMORY: string := "memory"
  const APPLIED: string := "overcommit.inditex.dev/applied"
  const CPU_ANNOTATION: string := "overcommit.inditex.dev/cpu"
  const MEMORY_ANNOTATION: string := "overcommit.inditex.dev/memory"

  /** Amounts by resource name: milli-CPU for cpu, bytes for memory. */
  type Amounts = map<string, int>

  datatype PodContainer = PodContainer(name: string, limits: Option<Amounts>, requests: Option<Amounts>)

  function RequestOf(c: PodContainer, resource: string): Option<int> {
    if c.requests.Some? && resource in c.requests.value then Some(c.requests.value[resource]) else None
  }

  // ---------- Containers ----------

  function Mutated(c: PodContainer, cpu: real, memory: real): PodContainer {
    if c.limits.None? then c
    else
      var limits := c.limits.value;
      var requests := if c.requests.Some? then c.requests.value else map[];
      var withCpu := if CPU in limits && cpu != 1.0 then requests[CPU := RequestFor(limits[CPU], cpu)] else requests;
      var withBoth :=
        if MEMORY in limits && memory != 1.0 then withCpu[MEMORY := RequestFor(limits[MEMORY], memory)] else withCpu;
      c.(requests := Some(withBoth))
  }

  function MutatedAll(containers: seq<PodContainer>, cpu: real, memory: real): (mutated: seq<PodContainer>)
    ensures |mutated| == |containers|
  {
    seq(|containers|, i requires 0 <= i < |containers| => Mutated(containers[i], cpu, memory))
  }

  lemma NothingToMutate(containers: seq<PodContainer>, cpu: real, memory: real)
    requires containers == []
    ensures MutatedAll(containers, cpu, memory) == containers
  {
  }

  method MutateContainers(containers: array<PodContainer>, cpu: real, memory: real)
    modifies containers
    ensures containers[..] == MutatedAll(old(containers[..]), cpu, memory)
  {
    for i := 0 to containers.Length
      invariant forall j :: 0 <= j < i ==> containers[j] == Mutated(old(containers[j]), cpu, memory)
      invariant forall j :: i <= j < containers.Length ==> containers[j] == old(containers[j])
    {
      var limits := containers[i].limits;
      var requests := if containers[i].requests.Some? then containers[i].requests.value else map[];
      if limits.None? { continue; }
      if CPU in limits.value && cpu != 1.0 {
        requests := requests[CPU := RequestFor(limits.value[CPU], cpu)];
      }
      if MEMORY in limits.value && memory != 1.0 {
        requests := requests[MEMORY := RequestFor(limits.value[MEMORY], memory)];
      }
      containers[i] := containers[i].(requests := Some(requests));
    }
  }

  // ---------- Pods ----------

  datatype PodState = PodState(
    meta: PodMeta,
    annotations: Option<StringMap>,
    containers: seq<PodContainer>,
    initContainers: seq<PodContainer>)

  function WithAnnotations(annotations: Option<StringMap>, className: string, cpu: real,
                           memory: real): Option<StringMap> {
    var m := if annotations.Some? then annotations.value else map[];
    Some(m[APPLIED := className][CPU_ANNOTATION := FormatRatio(cpu)][MEMORY_ANNOTATION := FormatRatio(memory)])
  }

  /** The class a call acts for: the resolved one, else the one the webhook process serves. */
  function EffectiveClass(r: Resolved, webhookClass: string): string {
    if r.className == "" then webhookClass else r.className
  }

  predicate AlreadyApplied(annotations: Option<StringMap>, className: string) {
    LabelValue(annotations, APPLIED) == Some(className)
  }

  /** The pod after a create call. */
  function OvercommitState(p: PodState, r: Resolved, webhookClass: string): PodState {
    var className := EffectiveClass(r, webhookClass);
    if AlreadyApplied(p.annotations, className) then p
    else PodState(p.meta,
                  WithAnnotations(p.annotations, className, r.cpu, r.memory),
                  MutatedAll(p.containers, r.cpu, r.memory),
                  MutatedAll(p.initContainers, r.cpu, r.memory))
  }

  /** The pod after a resize call: no check of the annotation, and init containers stay as they are. */
  function ResizeState(p: PodState, r: Resolved, webhookClass: string): PodState {
    p.(annotations := WithAnnotations(p.annotations, EffectiveClass(r, webhookClass), r.cpu, r.memory),
       containers := MutatedAll(p.containers, r.cpu, r.memory))
  }

  function Increment(counter: map<string, nat>, className: string): map<string, nat> {
    counter[className := (if className in counter then counter[className] else 0) + 1]
  }

  function CountOf(counter: map<string, nat>, className: string): nat {
    if className in counter then counter[className] else 0
  }

  predicate Adds(requested: map<string, nat>, mutated: map<string, nat>, skipped: map<string, nat>, className: string) {
    CountOf(requested, className) == CountOf(mutated, className) + CountOf(skipped, className)
  }

  /** Counting a request together with its mutation, or with its skip, keeps the books balanced. */
  lemma IncrementsAdd(requested: map<string, nat>, mutated: map<string, nat>, skipped: map<string, nat>,
                      className: string)
    requires forall k: string :: Adds(requested, mutated, skipped, k)
    ensures forall k: string :: Adds(Increment(requested, className), Increment(mutated, className), skipped, k)
    ensures forall k: string :: Adds(Increment(requested, className), mutated, Increment(skipped, className), k)
  {
    forall k: string
      ensures Adds(Increment(requested, className), Increment(mutated, className), skipped, k)
      ensures Adds(Increment(requested, className), mutated, Increment(skipped, className), k)
    {
      assert Adds(requested, mutated, skipped, k);
    }
  }

  class Metrics {
    var requested: map<string, nat>
    var mutated: map<string, nat>
    ghost var skipped: map<string, nat>

    constructor ()
      ensures Balanced() && requested == map[]
    {
      requested, mutated, skipped := map[], map[], map[];
    }

    /** Every request was either carried out or skipped. */
    ghost predicate Balanced()
      reads this
    {
      forall k: string :: Adds(requested, mutated, skipped, k)
    }
  }

  class Pod {
    const meta: PodMeta
    var annotations: Option<StringMap>
    const containers: array<PodContainer>
    const initContainers: array<PodContainer>

    constructor (meta: PodMeta, annotations: Option<StringMap>, containers: array<PodContainer>,
                 initContainers: array<PodContainer>)
      ensures this.meta == meta && this.annotations == annotations
      ensures this.containers == containers && this.initContainers == initContainers
    {
      this.meta := meta;
      this.annotations := annotations;
      this.containers := containers;
      this.initContainers := initContainers;
    }

    ghost function State(): PodState
      reads this, containers, initContainers
    {
      PodState(meta, annotations, containers[..], initContainers[..])
    }

    method SetOvercommitAnnotation(className: string, cpu: real, memory: real)
      modifies this`annotations
      ensures annotations == WithAnnotations(old(annotations), className, cpu, memory)
    {
      if annotations.None? { annotations := Some(map[]); }
      annotations := Some(annotations.value[APPLIED := className]);
      annotations := Some(annotations.value[CPU_ANNOTATION := FormatRatio(cpu)]);
      annotations := Some(annotations.value[MEMORY_ANNOTATION := FormatRatio(memory)]);
    }

    /** Overcommit on a pod as it is created. */
    method Overcommit(view: View, owner: PodOwner, webhookClass: string, metrics: Metrics)
      requires containers != initContainers
      requires metrics.Balanced()
      modifies this, containers, initContainers, metrics
      ensures var r := CheckOvercommitType(view, meta, owner);
              var className := EffectiveClass(r, webhookClass);
              && State() == OvercommitState(old(State()), r, webhookClass)
              && metrics.Balanced()
              && metrics.requested == Increment(old(metrics.requested), className)
              && metrics.mutated == (if AlreadyApplied(old(annotations), className) then old(metrics.mutated)
                                     else Increment(old(metrics.mutated), className))
    {
      hide CheckOvercommitType, MutatedAll, WithAnnotations, Adds, Increment;
      var r := CheckOvercommitType(view, meta, owner);
      var className := r.className;
      if className == "" { className := webhookClass; }
      IncrementsAdd(metrics.requested, metrics.mutated, metrics.skipped, className);
      metrics.requested := Increment(metrics.requested, className);
      if annotations.Some? {
        if APPLIED in annotations.value && annotations.value[APPLIED] == className {
          metrics.skipped := Increment(metrics.skipped, className);
          return;
        }
      }
      MutateContainers(containers, r.cpu, r.memory);
      if initContainers.Length > 0 {
        MutateContainers(initContainers, r.cpu, r.memory);
      } else {
        NothingToMutate(initContainers[..], r.cpu, r.memory);
      }
      SetOvercommitAnnotation(className, r.cpu, r.memory);
      metrics.mutated := Increment(metrics.mutated, className);
    }

    /** Overcommit on a pod that is being resized. */
    method OvercommitOnResize(view: View, owner: PodOwner, webhookClass: string, metrics: Metrics)
      requires containers != initContainers
      requires metrics.Balanced()
      modifies this, containers, metrics
      ensures var r := CheckOvercommitType(view, meta, owner);
              && State() == ResizeState(old(State()), r, webhookClass)
              && metrics.Balanced()
              && metrics.requested == Increment(old(metrics.requested), EffectiveClass(r, webhookClass))
              && metrics.mutated == Increment(old(metrics.mutated), EffectiveClass(r, webhookClass))
    {
      hide CheckOvercommitType, MutatedAll, WithAnnotations, Adds, Increment;
      var r := CheckOvercommitType(view, meta, owner);
      var className := r.className;
      if className == "" { className := webhookClass; }
      IncrementsAdd(metrics.requested, metrics.mutated, metrics.skipped, className);
      metrics.requested := Increment(metrics.requested, className);
      MutateContainers(containers, r.cpu, r.memory);
      SetOvercommitAnnotation(className, r.cpu, r.memory);
      metrics.mutated := Increment(metrics.mutated, className);
    }

    /** PodCustomDefaulter.Default: the subresource of the admission request decides. */
    method Default(isResize: bool, view: View, owner: PodOwner, webhookClass: string, metrics: Metrics)
      requires containers != initContainers
      requires metrics.Balanced()
      modifies this, containers, initContainers, metrics
      ensures var r := CheckOvercommitType(view, meta, owner);
              State() == if isResize then ResizeState(old(State()), r, webhookClass)
                         else OvercommitState(old(State()), r, webhookClass)
      ensures var className := EffectiveClass(CheckOvercommitType(view, meta, owner), webhookClass);
              && metrics.Balanced()
              && metrics.requested == Increment(old(metrics.requested), className)
              && metrics.mutated
                 == (if !isResize && AlreadyApplied(old(annotations), className) then old(metrics.mutated)
                     else Increment(old(metrics.mutated), className))
    {
      if isResize {
        OvercommitOnResize(view, owner, webhookClass, metrics);
        return;
      }
      Overcommit(view, owner, webhookClass, metrics);
    }
  }

  // ---------- Repeated create calls ----------

  function OvercommitTimes(p: PodState, r: Resolved, webhookClass: string, n: nat): PodState
    decreases n
  {
    if n == 0 then p else OvercommitTimes(OvercommitState(p, r, webhookClass), r, webhookClass, n - 1)
  }

  lemma OvercommitMarks(p: PodState, r: Resolved, webhookClass: string)
    ensures var q := OvercommitState(p, r, webhookClass);
            AlreadyApplied(q.annotations, EffectiveClass(r, webhookClass)) && q.meta == p.meta
  {
    hide FormatRatio, MutatedAll;
  }

  /** In a fixed cluster any positive number of calls leaves the pod as one call does. A call's resolution
      depends on the pod's metadata alone, which no call changes, so it is the same every time. */
  lemma {:induction false} OvercommitIdempotent(p: PodState, view: View, owner: PodOwner, webhookClass: string, n: nat)
    requires n >= 1
    ensures var r := CheckOvercommitType(view, p.meta, owner);
            var once := OvercommitState(p, r, webhookClass);
            once.meta == p.meta && OvercommitTimes(p, r, webhookClass, n) == once
    decreases n
  {
    var r := CheckOvercommitType(view, p.meta, owner);
    hide CheckOvercommitType;
    OvercommitMarks(p, r, webhookClass);
    var once := OvercommitState(p, r, webhookClass);
    assert OvercommitState(once, r, webhookClass) == once;
    if n > 1 { OvercommitIdempotent(once, view, owner, webhookClass, n - 1); }
  }
}
