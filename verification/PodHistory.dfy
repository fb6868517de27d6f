/** What a container's requests are after any sequence of mutations and limit edits
    (pkg/overcommit/make_overcommit.go). */
module PodHistory {
  import opened Wrappers
  import opened Api
  import opened Ratios
  import opened Resolution
  import opened PodMutation

  /** Create and resize calls with the ratios they resolved to, and edits of one container's limits in between.
      A create call that is skipped because of the applied annotation is no event. */
  datatype Event =
    | CreateCall(cpu: real, memory: real)
    | ResizeCall(cpu: real, memory: real)
    | SetLimits(init: bool, index: nat, limits: Option<Amounts>)

  datatype Containers = Containers(regular: seq<PodContainer>, initial: seq<PodContainer>)

  function EditLimits(containers: seq<PodContainer>, i: nat, limits: Option<Amounts>): seq<PodContainer> {
    if i < |containers| then containers[i := containers[i].(limits := limits)] else containers
  }

  function Apply(c: Containers, e: Event): Containers {
    match e
    case CreateCall(cpu, memory) => Containers(MutatedAll(c.regular, cpu, memory), MutatedAll(c.initial, cpu, memory))
    case ResizeCall(cpu, memory) => c.(regular := MutatedAll(c.regular, cpu, memory))
    case SetLimits(init, i, limits) =>
      if init then c.(initial := EditLimits(c.initial, i, limits)) else c.(regular := EditLimits(c.regular, i, limits))
  }

  function Play(c: Containers, events: seq<Event>): Containers {
    if events == [] then c else Apply(Play(c, events[..|events| - 1]), events[|events| - 1])
  }

  // ---------- Reading the history backwards ----------

  /** The limits of a container: those of its last edit, else the original ones. */
  function LimitsNow(original: PodContainer, init: bool, i: nat, events: seq<Event>): Option<Amounts> {
    if events == [] then original.limits
    else
      var last := events[|events| - 1];
      if last.SetLimits? && last.init == init && last.index == i then last.limits
      else LimitsNow(original, init, i, events[..|events| - 1])
  }

  function RatioOf(e: Event, resource: string): real
    requires e.CreateCall? || e.ResizeCall?
  {
    if resource == CPU then e.cpu else e.memory
  }

  /** Whether a call rewrites this resource of a container whose limits are as given. */
  predicate Rewrites(e: Event, init: bool, limits: Option<Amounts>, resource: string) {
    && (e.CreateCall? || (e.ResizeCall? && !init))
    && (resource == CPU || resource == MEMORY)
    && limits.Some? && resource in limits.value && RatioOf(e, resource) != 1.0
  }

  /** The request computed from the limit at the last call that had a limit and a ratio other than 1,
      else the original request. */
  function RequestNow(original: PodContainer, init: bool, i: nat, events: seq<Event>, resource: string): Option<int> {
    if events == [] then RequestOf(original, resource)
    else
      var before, last := events[..|events| - 1], events[|events| - 1];
      var limits := LimitsNow(original, init, i, before);
      if Rewrites(last, init, limits, resource) then Some(RequestFor(limits.value[resource], RatioOf(last, resource)))
      else RequestNow(original, init, i, before, resource)
  }

  /** No call ever saw limits on this container. */
  predicate NeverLimited(original: PodContainer, init: bool, i: nat, events: seq<Event>) {
    events == [] ||
    (NeverLimited(original, init, i, events[..|events| - 1])
     && (events[|events| - 1].SetLimits? || LimitsNow(original, init, i, events[..|events| - 1]).None?))
  }

  function At(c: Containers, init: bool): seq<PodContainer> {
    if init then c.initial else c.regular
  }

  lemma MutatedRequests(c: PodContainer, cpu: real, memory: real, resource: string)
    ensures var ratio := if resource == CPU then cpu else memory;
            RequestOf(Mutated(c, cpu, memory), resource)
            == if (resource == CPU || resource == MEMORY)
                  && c.limits.Some? && resource in c.limits.value && ratio != 1.0
               then Some(RequestFor(c.limits.value[resource], ratio))
               else RequestOf(c, resource)
    ensures Mutated(c, cpu, memory) == c.(requests := Mutated(c, cpu, memory).requests)
  {
    hide RequestFor;
  }

  lemma PlayLast(start: Containers, events: seq<Event>)
    requires events != []
    ensures Play(start, events) == Apply(Play(start, events[..|events| - 1]), events[|events| - 1])
  {
  }

  lemma UnlimitedStays(c: PodContainer, cpu: real, memory: real)
    requires c.limits.None?
    ensures Mutated(c, cpu, memory) == c
  {
  }

  /** The law of one container: after any history its limits and its request for any resource are what reading
      the history backwards says, its name never changes, and without limits nothing does. */
  lemma {:induction false} HistoryLaw(start: Containers, init: bool, i: nat, events: seq<Event>, resource: string)
    requires i < |At(start, init)|
    ensures |At(Play(start, events), init)| == |At(start, init)|
    ensures var c, original := At(Play(start, events), init)[i], At(start, init)[i];
            && c.name == original.name
            && c.limits == LimitsNow(original, init, i, events)
            && RequestOf(c, resource) == RequestNow(original, init, i, events, resource)
            && (NeverLimited(original, init, i, events) ==> c.requests == original.requests)
  {
    if events != [] {
      var before, last := events[..|events| - 1], events[|events| - 1];
      HistoryLaw(start, init, i, before, resource);
      var c := At(Play(start, before), init)[i];
      hide Mutated, RequestFor, Play;
      if last.CreateCall? || last.ResizeCall? {
        MutatedRequests(c, last.cpu, last.memory, resource);
        if c.limits.None? { UnlimitedStays(c, last.cpu, last.memory); }
      }
      assert Play(start, events) == Apply(Play(start, before), last) by { PlayLast(start, events); }
    }
  }

  /** Resources other than CPU and memory are never rewritten. */
  lemma {:induction false} OtherResourcesKept(original: PodContainer, init: bool, i: nat, events: seq<Event>,
                                              resource: string)
    requires resource != CPU && resource != MEMORY
    ensures RequestNow(original, init, i, events, resource) == RequestOf(original, resource)
  {
    if events != [] { OtherResourcesKept(original, init, i, events[..|events| - 1], resource); }
  }

  /** Resize calls and edits leave the requests of init containers as they were. */
  lemma {:induction false} ResizesKeepInitContainers(start: Containers, i: nat, events: seq<Event>)
    requires i < |start.initial| && forall j :: 0 <= j < |events| ==> !events[j].CreateCall?
    ensures |Play(start, events).initial| == |start.initial|
    ensures Play(start, events).initial[i].requests == start.initial[i].requests
  {
    if events != [] { ResizesKeepInitContainers(start, i, events[..|events| - 1]); }
  }

  // ---------- Whole pods ----------

  /** Calls of the mutating webhook with what they resolved to, and edits by others in between. */
  datatype Call =
    | Create(r: Resolved, webhookClass: string)
    | Resize(r: Resolved, webhookClass: string)
    | EditContainer(init: bool, index: nat, limits: Option<Amounts>)
    | EditAnnotations(annotations: Option<StringMap>)

  predicate Skipped(p: PodState, call: Call) {
    call.Create? && AlreadyApplied(p.annotations, EffectiveClass(call.r, call.webhookClass))
  }

  function AfterCall(p: PodState, call: Call): PodState {
    match call
    case Create(r, webhookClass) => OvercommitState(p, r, webhookClass)
    case Resize(r, webhookClass) => ResizeState(p, r, webhookClass)
    case EditContainer(init, i, limits) =>
      if init then p.(initContainers := EditLimits(p.initContainers, i, limits))
      else p.(containers := EditLimits(p.containers, i, limits))
    case EditAnnotations(annotations) => p.(annotations := annotations)
  }

  function Run(p: PodState, calls: seq<Call>): PodState {
    if calls == [] then p else AfterCall(Run(p, calls[..|calls| - 1]), calls[|calls| - 1])
  }

  function EventsOf(p: PodState, call: Call): seq<Event> {
    match call
    case Create(r, _) => if Skipped(p, call) then [] else [CreateCall(r.cpu, r.memory)]
    case Resize(r, _) => [ResizeCall(r.cpu, r.memory)]
    case EditContainer(init, i, limits) => [SetLimits(init, i, limits)]
    case EditAnnotations(_) => []
  }

  /** The events of a run: its calls but the skipped ones, and its edits of limits. */
  function Trace(p: PodState, calls: seq<Call>): seq<Event> {
    if calls == [] then []
    else
      var before := calls[..|calls| - 1];
      Trace(p, before) + EventsOf(Run(p, before), calls[|calls| - 1])
  }

  function ContainersOf(p: PodState): Containers {
    Containers(p.containers, p.initContainers)
  }

  lemma PlayMore(start: Containers, events: seq<Event>, e: Event)
    ensures Play(start, events + [e]) == Apply(Play(start, events), e)
  {
    assert (events + [e])[..|events|] == events;
  }

  lemma CallFollowsEvents(p: PodState, call: Call)
    ensures |EventsOf(p, call)| <= 1
    ensures ContainersOf(AfterCall(p, call))
            == if EventsOf(p, call) == [] then ContainersOf(p) else Apply(ContainersOf(p), EventsOf(p, call)[0])
    ensures AfterCall(p, call).meta == p.meta
  {
    hide MutatedAll, WithAnnotations, EditLimits;
  }

  /** Every run of calls on a pod does to its containers what its trace does, so that the law of one container
      holds of whole pods. */
  lemma {:induction false} RunFollowsTrace(p: PodState, calls: seq<Call>)
    ensures ContainersOf(Run(p, calls)) == Play(ContainersOf(p), Trace(p, calls))
    ensures Run(p, calls).meta == p.meta
  {
    if calls != [] {
      var before, call := calls[..|calls| - 1], calls[|calls| - 1];
      RunFollowsTrace(p, before);
      CallFollowsEvents(Run(p, before), call);
      hide AfterCall, EventsOf, Apply, ContainersOf, Play;
      var trace, events := Trace(p, before), EventsOf(Run(p, before), call);
      if events == [] {
        assert trace + events == trace;
      } else {
        assert events == [events[0]];
        PlayMore(ContainersOf(p), trace, events[0]);
      }
    }
  }

  // ---------- Counters ----------

  datatype Ledger = Ledger(requested: map<string, nat>, mutated: map<string, nat>)

  /** What a call on a pod in a given state adds to the counters. */
  function Count(ledger: Ledger, p: PodState, call: Call): Ledger {
    if !call.Create? && !call.Resize? then ledger
    else
      var className := EffectiveClass(call.r, call.webhookClass);
      Ledger(Increment(ledger.requested, className),
             if Skipped(p, call) then ledger.mutated else Increment(ledger.mutated, className))
  }

  function CountAll(ledger: Ledger, calls: seq<(PodState, Call)>): Ledger {
    if calls == [] then ledger
    else Count(CountAll(ledger, calls[..|calls| - 1]), calls[|calls| - 1].0, calls[|calls| - 1].1)
  }

  function Skips(calls: seq<(PodState, Call)>, className: string): nat {
    if calls == [] then 0
    else
      var (p, call) := calls[|calls| - 1];
      Skips(calls[..|calls| - 1], className)
      + if Skipped(p, call) && EffectiveClass(call.r, call.webhookClass) == className then 1 else 0
  }

  /** How many calls were for a class. */
  function Requests(calls: seq<(PodState, Call)>, className: string): nat {
    if calls == [] then 0
    else
      var call := calls[|calls| - 1].1;
      Requests(calls[..|calls| - 1], className)
      + if (call.Create? || call.Resize?) && EffectiveClass(call.r, call.webhookClass) == className then 1 else 0
  }

  /** Over any run of calls on any pods, a class's requested counter grows by one for every call for it, and its mutated
      counter by one for every such call that was not skipped. */
  lemma {:induction false} CountersBalance(ledger: Ledger, calls: seq<(PodState, Call)>, className: string)
    ensures var after := CountAll(ledger, calls);
            && CountOf(after.requested, className) == CountOf(ledger.requested, className) + Requests(calls, className)
            && CountOf(after.mutated, className) + Skips(calls, className)
               == CountOf(ledger.mutated, className) + Requests(calls, className)
  {
    if calls != [] { CountersBalance(ledger, calls[..|calls| - 1], className); }
  }
}
