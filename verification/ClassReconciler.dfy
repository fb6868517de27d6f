/** OvercommitClassReconciler.Reconcile over an API server that may refuse any of its calls
    (internal/controller/overcommitclass/overcommitclass_controller.go).

    Which calls it refuses is an input. Every method is proved against the functions of ClassState and ClassStore. */
module ClassReconciler {
  import opened Wrappers
  import opened Api
  import opened Comparators
  import opened Generators
  import opened ClassState
  import opened ClassConvergence
  import opened ClassStore
  import opened ResourceFit

  /** Image and environment of the first container. */
  method SyncContainers(generated: seq<Container>, current: seq<Container>) returns (containers: seq<Container>,
                        updated: bool)
    ensures containers == MergeContainers(generated, current)
    ensures updated <==>
            (&& |generated| > 0 && |current| > 0
             && !(&& generated[0].image == current[0].image
                  && SameBindings(EnvPairs(generated[0].env), EnvPairs(current[0].env))))
  {
    containers, updated := current, false;
    if |generated| > 0 && |containers| > 0 {
      if generated[0].image != containers[0].image {
        containers := containers[0 := containers[0].(image := generated[0].image)];
        updated := true;
      }
    }
    if |generated| > 0 && |containers| > 0 {
      var same := EnvVarsEqual(generated[0].env, containers[0].env);
      if !same {
        containers := containers[0 := containers[0].(env := generated[0].env)];
        updated := true;
      }
    }
  }

  /** The fields of a deployment that a comparator rejects are overwritten. */
  method OverwriteRejected(generated: Deployment, existing: Deployment) returns (desired: Deployment, updated: bool)
    ensures updated <==> !DeploymentAccepted(generated, existing)
    ensures desired == MergeDeployment(generated, existing) && (!updated ==> desired == existing)
  {
    hide TolerationsAgree, SameBindings, EnvPairs;
    var template := existing.template;
    var containers, different := SyncContainers(generated.template.containers, template.containers);
    updated := different;
    template := template.(containers := containers);
    var annotationsSame := MapsEqual(generated.template.annotations, template.annotations);
    if !annotationsSame {
      template := template.(annotations := generated.template.annotations);
      updated := true;
    }
    var labelsSame := MapsEqual(generated.template.labels, template.labels);
    if !labelsSame {
      template := template.(labels := generated.template.labels);
      updated := true;
    }
    var selectorSame := MapsEqual(generated.template.nodeSelector, template.nodeSelector);
    if !selectorSame {
      template := template.(nodeSelector := generated.template.nodeSelector);
      updated := true;
    }
    var tolerationsSame := TolerationsEqual(generated.template.tolerations, template.tolerations);
    if !tolerationsSame {
      template := template.(tolerations := generated.template.tolerations);
      updated := true;
    }
    desired := existing.(template := template);
  }

  /** The simplified comparison of webhook lists: their lengths, then webhook by webhook. */
  method WebhookListChanged(generated: seq<Webhook>, current: seq<Webhook>) returns (changed: bool)
    ensures changed <==> !WebhooksAgree(generated, current)
  {
    if |generated| != |current| { return true; }
    for i := 0 to |generated|
      invariant forall j :: 0 <= j < i ==> WebhookAgrees(generated[j], current[j])
    {
      changed := WebhookChanged(generated[i], current[i]);
      if changed { return; }
    }
    return false;
  }

  /** The loop over the owner references. */
  method NeedsOwnerUpdate(c: OvercommitClass, oc: Singleton) returns (needed: bool)
    ensures needed <==> !HasCorrectOwner(c, oc)
  {
    if |c.owners| == 0 { return true; }
    for i := 0 to |c.owners|
      invariant forall j :: 0 <= j < i ==> !(c.owners[j].uid == oc.uid && c.owners[j].kind == "Overcommit")
    {
      var ownerRef := c.owners[i];
      if ownerRef.uid == oc.uid && ownerRef.kind == "Overcommit" { return false; }
    }
    return true;
  }

  // ---------- Which calls are refused ----------

  /** Call number `i` is refused; what the list does not cover is answered. */
  predicate Refuses(refusals: seq<bool>, i: nat) {
    i < |refusals| && refusals[i]
  }

  /** The first refused call from number `from` on and before number `end`. */
  function FirstRefused(refusals: seq<bool>, from: nat, end: nat): (first: Option<nat>)
    ensures first.Some? ==> from <= first.value < end && Refuses(refusals, first.value)
    ensures forall i: nat :: from <= i < (if first.Some? then first.value else end) ==> !Refuses(refusals, i)
    decreases end - from
  {
    if from >= end then None
    else if Refuses(refusals, from) then Some(from)
    else FirstRefused(refusals, from + 1, end)
  }

  /** How many calls are refused from number `from` on. */
  function RefusalsFrom(refusals: seq<bool>, from: nat): nat
    decreases |refusals| - from
  {
    if from >= |refusals| then 0 else (if refusals[from] then 1 else 0) + RefusalsFrom(refusals, from + 1)
  }

  lemma {:induction false} RefusalUsedUp(refusals: seq<bool>, from: nat, end: nat)
    requires from <= end
    ensures var first := FirstRefused(refusals, from, end);
            RefusalsFrom(refusals, from) >= (
              if first.Some? then 1 + RefusalsFrom(refusals, first.value + 1) else RefusalsFrom(refusals, end))
    decreases end - from
  {
    if from < end && !Refuses(refusals, from) { RefusalUsedUp(refusals, from + 1, end); }
  }

  /** The calls of a pass over the resources that is not refused any: one for each resource up to the first that
      someone else controls, then the count for the metrics and the status. */
  function ResourceCalls(oc: Singleton, env: Environment, c: OvercommitClass, cell: Cell): nat {
    if SyncDeployment(CreateDeployment(c, env), ClassRef(c), cell.deployment).None? then 1
    else if SyncService(CreateService(c.name), ClassRef(c), cell.service).None? then 2
    else if SyncCertificate(CreateCertificate(c.name, env), ClassRef(c), cell.certificate).None? then 3
    else if SyncWebhookConfig(CreateWebhookConfig(c, env, oc.labelKey), ClassRef(c), cell.webhook).None? then 4
    else 6
  }

  lemma FirstAt(refusals: seq<bool>, from: nat, i: nat, end: nat)
    requires from <= i < end && Refuses(refusals, i) && forall j: nat :: from <= j < i ==> !Refuses(refusals, j)
    ensures FirstRefused(refusals, from, end) == Some(i)
  {
    assert FirstRefused(refusals, from, end).Some?;
  }

  lemma NoneRefused(refusals: seq<bool>, from: nat, end: nat)
    requires forall j: nat :: from <= j < end ==> !Refuses(refusals, j)
    ensures FirstRefused(refusals, from, end) == None
  {
  }

  /** The same, found call by call: how many resources are done when the first refused call, number `m` or later,
      ends a pass over them. */
  function PassFailure(refusals: seq<bool>, m: nat, oc: Singleton, env: Environment, c: OvercommitClass,
                       cell: Cell): Option<nat> {
    if Refuses(refusals, m) then Some(0)
    else if SyncDeployment(CreateDeployment(c, env), ClassRef(c), cell.deployment).None? then None
    else if Refuses(refusals, m + 1) then Some(1)
    else if SyncService(CreateService(c.name), ClassRef(c), cell.service).None? then None
    else if Refuses(refusals, m + 2) then Some(2)
    else if SyncCertificate(CreateCertificate(c.name, env), ClassRef(c), cell.certificate).None? then None
    else if Refuses(refusals, m + 3) then Some(3)
    else if SyncWebhookConfig(CreateWebhookConfig(c, env, oc.labelKey), ClassRef(c), cell.webhook).None? then None
    else if Refuses(refusals, m + 4) then Some(4)
    else if Refuses(refusals, m + 5) then Some(5)
    else None
  }

  lemma PassFailureIsFirst(refusals: seq<bool>, m: nat, oc: Singleton, env: Environment, c: OvercommitClass, cell: Cell)
    ensures var n, failure := ResourceCalls(oc, env, c, cell), PassFailure(refusals, m, oc, env, c, cell);
            FirstRefused(refusals, m, m + n) == if failure.None? then None else Some(m + failure.value)
  {
    hide Refuses, FirstRefused, SyncDeployment, SyncService, SyncCertificate, SyncWebhookConfig, CreateDeployment,
         CreateService, CreateCertificate, CreateWebhookConfig, ClassRef;
    var n, failure := ResourceCalls(oc, env, c, cell), PassFailure(refusals, m, oc, env, c, cell);
    if failure.Some? {
      FirstAt(refusals, m, m + failure.value, m + n);
    } else {
      NoneRefused(refusals, m, m + n);
    }
  }

  /** A pass over the resources that a refused call may end. */
  function PassWith(oc: Singleton, env: Environment, c: OvercommitClass, cell: Cell,
                    failure: Option<nat>): (Cell, Outcome) {
    match failure
    case None => StepResources(oc, env, c, cell)
    case Some(n) =>
      (StepResourcesUpTo(oc, env, c, cell, n), if n == METRICS then StepResources(oc, env, c, cell).1 else Failed)
  }

  /** Resource by resource. */
  lemma PassByResource(refusals: seq<bool>, m: nat, oc: Singleton, env: Environment, c: OvercommitClass, cell: Cell)
    ensures var (next, outcome) := PassWith(oc, env, c, cell, PassFailure(refusals, m, oc, env, c, cell));
            var d := SyncDeployment(CreateDeployment(c, env), ClassRef(c), cell.deployment);
            var s := SyncService(CreateService(c.name), ClassRef(c), cell.service);
            var k := SyncCertificate(CreateCertificate(c.name, env), ClassRef(c), cell.certificate);
            var w := SyncWebhookConfig(CreateWebhookConfig(c, env, oc.labelKey), ClassRef(c), cell.webhook);
            var first := !Refuses(refusals, m);
            var second := first && d.Some? && !Refuses(refusals, m + 1);
            var third := second && s.Some? && !Refuses(refusals, m + 2);
            var fourth := third && k.Some? && !Refuses(refusals, m + 3);
            && next.class_ == cell.class_
            && next.deployment == (if first && d.Some? then d else cell.deployment)
            && next.service == (if second && s.Some? then s else cell.service)
            && next.certificate == (if third && k.Some? then k else cell.certificate)
            && next.webhook == (if fourth && w.Some? then w else cell.webhook)
            && outcome == (if fourth && w.Some? && (Refuses(refusals, m + 4) || !Refuses(refusals, m + 5))
                           then Completed else Failed)
  {
    hide Refuses, SyncDeployment, SyncService, SyncCertificate, SyncWebhookConfig, CreateDeployment, CreateService,
         CreateCertificate, CreateWebhookConfig, ClassRef;
  }

  /** The number of the call after the pass. */
  function PassEnd(refusals: seq<bool>, m: nat, oc: Singleton, env: Environment, c: OvercommitClass, cell: Cell): nat {
    match PassFailure(refusals, m, oc, env, c, cell)
    case None => m + ResourceCalls(oc, env, c, cell)
    case Some(n) => m + n + 1
  }

  lemma PassEndByResource(refusals: seq<bool>, m: nat, oc: Singleton, env: Environment, c: OvercommitClass, cell: Cell)
    ensures var d := SyncDeployment(CreateDeployment(c, env), ClassRef(c), cell.deployment);
            var s := SyncService(CreateService(c.name), ClassRef(c), cell.service);
            var k := SyncCertificate(CreateCertificate(c.name, env), ClassRef(c), cell.certificate);
            var w := SyncWebhookConfig(CreateWebhookConfig(c, env, oc.labelKey), ClassRef(c), cell.webhook);
            PassEnd(refusals, m, oc, env, c, cell)
            == if Refuses(refusals, m) || d.None? then m + 1
               else if Refuses(refusals, m + 1) || s.None? then m + 2
               else if Refuses(refusals, m + 2) || k.None? then m + 3
               else if Refuses(refusals, m + 3) || w.None? then m + 4
               else if Refuses(refusals, m + 4) then m + 5 else m + 6
  {
    hide Refuses, SyncDeployment, SyncService, SyncCertificate, SyncWebhookConfig, CreateDeployment, CreateService,
         CreateCertificate, CreateWebhookConfig, ClassRef;
  }

  /** The calls of a Reconcile that is not refused any: label and class are read; then the class is updated without
      its finalizer, or the Overcommit is read, and the class updated with its owner or the resources gone through. */
  function CallsOf(singleton: Option<Singleton>, env: Environment, cell: Cell): nat {
    if singleton.None? then 1
    else if cell.class_.None? then 2
    else
      var oc, c := singleton.value, cell.class_.value;
      if LEGACY_FINALIZER in c.finalizers then 3
      else if HasCorrectOwner(c, oc) then 3 + ResourceCalls(oc, env, c, cell)
      else if SetController(SingletonRef(oc), c.owners).None? then 3
      else 4
  }

  /** What a Reconcile whose calls are numbered from `from` has done when its first refused call, if it has one,
      ends it: that many of the resources. */
  function FailureOf(refusals: seq<bool>, from: nat, calls: nat): (failure: Option<nat>)
    ensures failure.None? <==> forall i: nat :: from <= i < from + calls ==> !Refuses(refusals, i)
    ensures failure.Some? ==>
              exists i: nat :: from <= i < from + calls && Refuses(refusals, i)
                               && (forall j: nat :: from <= j < i ==> !Refuses(refusals, j))
                               && failure.value == if i <= from + 3 then 0 else i - from - 3
  {
    match FirstRefused(refusals, from, from + calls)
    case None => None
    case Some(i) => Some(if i <= from + 3 then 0 else i - from - 3)
  }

  /** The number of the call after it. */
  function CallsEnd(refusals: seq<bool>, from: nat, calls: nat): nat {
    match FirstRefused(refusals, from, from + calls)
    case None => from + calls
    case Some(i) => i + 1
  }

  /** Where a Reconcile whose calls are numbered from `m` is ended by a refusal, if it is. */
  function ReconcileFailure(refusals: seq<bool>, m: nat, singleton: Option<Singleton>, env: Environment,
                            cell: Cell): Option<nat> {
    FailureOf(refusals, m, CallsOf(singleton, env, cell))
  }

  function ReconcileEnd(refusals: seq<bool>, m: nat, singleton: Option<Singleton>, env: Environment, cell: Cell): nat {
    CallsEnd(refusals, m, CallsOf(singleton, env, cell))
  }

  lemma EndsAt(refusals: seq<bool>, m: nat, singleton: Option<Singleton>, env: Environment, cell: Cell, i: nat)
    requires i < CallsOf(singleton, env, cell) && Refuses(refusals, m + i)
    requires forall j: nat :: m <= j < m + i ==> !Refuses(refusals, j)
    ensures ReconcileFailure(refusals, m, singleton, env, cell) == Some(if i <= 3 then 0 else i - 3)
    ensures ReconcileEnd(refusals, m, singleton, env, cell) == m + i + 1
  {
    FirstAt(refusals, m, m + i, m + CallsOf(singleton, env, cell));
    hide CallsOf, FirstRefused, Refuses;
  }

  lemma EndsUnrefused(refusals: seq<bool>, m: nat, singleton: Option<Singleton>, env: Environment, cell: Cell)
    requires forall j: nat :: m <= j < m + CallsOf(singleton, env, cell) ==> !Refuses(refusals, j)
    ensures ReconcileFailure(refusals, m, singleton, env, cell) == None
    ensures ReconcileEnd(refusals, m, singleton, env, cell) == m + CallsOf(singleton, env, cell)
  {
    NoneRefused(refusals, m, m + CallsOf(singleton, env, cell));
    hide CallsOf, FirstRefused, Refuses;
  }

  /** A refusal before the resources ends the call with nothing done. */
  lemma RefusedEarly(refusals: seq<bool>, m: nat, singleton: Option<Singleton>, env: Environment, cell: Cell, i: nat)
    requires i < CallsOf(singleton, env, cell) && i <= 2 && Refuses(refusals, m + i)
    requires forall j: nat :: m <= j < m + i ==> !Refuses(refusals, j)
    ensures ReconcileEnd(refusals, m, singleton, env, cell) == m + i + 1
    ensures var failure := ReconcileFailure(refusals, m, singleton, env, cell);
            StepWith(singleton, env, cell, failure) == (cell, Failed)
  {
    EndsAt(refusals, m, singleton, env, cell, i);
    hide ReconcileFailure, ReconcileEnd, CallsOf, Refuses, StepResources, StepResourcesUpTo, HasCorrectOwner;
    if singleton.Some? && cell.class_.Some? { NothingDone(singleton.value, env, cell.class_.value, cell); }
  }

  /** So does one of the update of the owners. */
  lemma OwnerUpdateRefused(refusals: seq<bool>, m: nat, oc: Singleton, env: Environment, cell: Cell)
    requires cell.class_.Some? && !HasCorrectOwner(cell.class_.value, oc)
    requires CallsOf(Some(oc), env, cell) == 4 && Refuses(refusals, m + 3)
    requires forall j: nat :: m <= j < m + 3 ==> !Refuses(refusals, j)
    ensures ReconcileEnd(refusals, m, Some(oc), env, cell) == m + 4
    ensures StepWith(Some(oc), env, cell, ReconcileFailure(refusals, m, Some(oc), env, cell)) == (cell, Failed)
  {
    EndsAt(refusals, m, Some(oc), env, cell, 3);
    hide ReconcileFailure, ReconcileEnd, CallsOf, Refuses, StepResources, StepResourcesUpTo, HasCorrectOwner;
  }

  /** In the resources' phase the rest of the call is the pass. */
  lemma PassAfterMetadata(refusals: seq<bool>, m: nat, oc: Singleton, env: Environment, cell: Cell)
    requires ResourcesPhase(Some(oc), cell) && forall j: nat :: m <= j < m + 3 ==> !Refuses(refusals, j)
    ensures var c, failure := cell.class_.value, PassFailure(refusals, m + 3, oc, env, cell.class_.value, cell);
            && StepWith(Some(oc), env, cell, ReconcileFailure(refusals, m, Some(oc), env, cell))
               == PassWith(oc, env, c, cell, failure)
            && ReconcileEnd(refusals, m, Some(oc), env, cell) == PassEnd(refusals, m + 3, oc, env, c, cell)
  {
    var c := cell.class_.value;
    var n := ResourceCalls(oc, env, c, cell);
    var failure := PassFailure(refusals, m + 3, oc, env, c, cell);
    PassFailureIsFirst(refusals, m + 3, oc, env, c, cell);
    assert CallsOf(Some(oc), env, cell) == 3 + n by { hide ResourceCalls, HasCorrectOwner; }
    hide PassFailure, ResourceCalls, FirstRefused, Refuses, CallsOf, StepResources, StepResourcesUpTo, HasCorrectOwner;
    if failure.Some? {
      EndsAt(refusals, m, Some(oc), env, cell, 3 + failure.value);
    } else {
      EndsUnrefused(refusals, m, Some(oc), env, cell);
    }
    hide ReconcileFailure, ReconcileEnd;
  }

  lemma LabelUnread(refusals: seq<bool>, m: nat, singleton: Option<Singleton>, env: Environment, cell: Cell)
    requires Refuses(refusals, m) || singleton.None?
    ensures ReconcileEnd(refusals, m, singleton, env, cell) == m + 1
    ensures StepWith(singleton, env, cell, ReconcileFailure(refusals, m, singleton, env, cell)) == (cell, Failed)
  {
    assert CallsOf(singleton, env, cell) >= 1;
    if Refuses(refusals, m) {
      RefusedEarly(refusals, m, singleton, env, cell, 0);
    } else {
      EndsUnrefused(refusals, m, singleton, env, cell);
    }
    hide ReconcileFailure, ReconcileEnd, Refuses;
  }

  lemma ClassUnread(refusals: seq<bool>, m: nat, oc: Singleton, env: Environment, cell: Cell)
    requires !Refuses(refusals, m) && (Refuses(refusals, m + 1) || cell.class_.None?)
    ensures ReconcileEnd(refusals, m, Some(oc), env, cell) == m + 2
    ensures StepWith(Some(oc), env, cell, ReconcileFailure(refusals, m, Some(oc), env, cell))
            == (cell, if Refuses(refusals, m + 1) then Failed else ClassMissing)
  {
    assert CallsOf(Some(oc), env, cell) >= 2;
    if Refuses(refusals, m + 1) {
      RefusedEarly(refusals, m, Some(oc), env, cell, 1);
    } else {
      EndsUnrefused(refusals, m, Some(oc), env, cell);
    }
    hide ReconcileFailure, ReconcileEnd, Refuses;
  }

  /** The ends of a call in its metadata phases, as ReconcileMetadata has them. */
  lemma MetadataEnds(refusals: seq<bool>, m: nat, oc: Singleton, env: Environment, cell: Cell)
    requires cell.class_.Some? && !Refuses(refusals, m) && !Refuses(refusals, m + 1)
    ensures var c := cell.class_.value;
            var after, end := StepWith(Some(oc), env, cell, ReconcileFailure(refusals, m, Some(oc), env, cell)),
                              ReconcileEnd(refusals, m, Some(oc), env, cell);
            if Refuses(refusals, m + 2) then after == (cell, Failed) && end == m + 3
            else if LEGACY_FINALIZER in c.finalizers then
              && end == m + 3
              && after == (cell.(class_ := Some(c.(finalizers := RemoveAll(c.finalizers, LEGACY_FINALIZER)))),
                           FinalizerRemoved)
            else
              !HasCorrectOwner(c, oc) ==>
                match SetController(SingletonRef(oc), c.owners)
                case None => after == (cell, Failed) && end == m + 3
                case Some(owners) =>
                  && end == m + 4
                  && after == if Refuses(refusals, m + 3) then (cell, Failed)
                              else (cell.(class_ := Some(c.(owners := owners))), OwnerSet)
  {
    var c := cell.class_.value;
    hide ResourceCalls, SetController, HasCorrectOwner, RemoveAll, Refuses, StepResources, StepResourcesUpTo;
    assert CallsOf(Some(oc), env, cell) >= 3;
    if Refuses(refusals, m + 2) {
      RefusedEarly(refusals, m, Some(oc), env, cell, 2);
    } else if LEGACY_FINALIZER in c.finalizers {
      EndsUnrefused(refusals, m, Some(oc), env, cell);
    } else if !HasCorrectOwner(c, oc) {
      if SetController(SingletonRef(oc), c.owners).Some? && Refuses(refusals, m + 3) {
        OwnerUpdateRefused(refusals, m, oc, env, cell);
      } else {
        EndsUnrefused(refusals, m, Some(oc), env, cell);
      }
    }
    hide ReconcileFailure, ReconcileEnd;
  }

  // ---------- Runs of calls ----------

  /** Stored classes are filed under their names. */
  predicate FiledByName(classes: map<string, OvercommitClass>) {
    forall n <- classes :: classes[n].name == n
  }

  lemma CallKeepsNames(s: Store, env: Environment, name: string, failure: Option<nat>)
    requires FiledByName(s.classes)
    ensures FiledByName(ReconcileStoreWith(s, env, name, failure).classes)
    ensures ReconcileStoreWith(s, env, name, failure).singleton == s.singleton
  {
    var cell := CellOf(s, name);
    if s.singleton.Some? && cell.class_.Some? {
      StepKeepsIdentity(s.singleton.value, env, cell);
      if failure.Some? { UpToKeepsClass(s.singleton.value, env, cell.class_.value, cell, failure.value); }
    }
    hide StepResources, StepResourcesUpTo, HasCorrectOwner, SetController, RemoveAll;
  }

  function Failures(calls: seq<Call>): nat {
    if calls == [] then 0 else Failures(calls[..|calls| - 1]) + if calls[|calls| - 1].failure.Some? then 1 else 0
  }

  lemma OneMoreFailure(calls: seq<Call>, call: Call)
    ensures Failures(calls + [call]) == Failures(calls) + if call.failure.Some? then 1 else 0
  {
    assert (calls + [call])[..|calls|] == calls;
  }

  lemma OneMoreInSchedule(s: Store, env: Environment, calls: seq<Call>, call: Call)
    ensures RunCallSchedule(s, env, calls + [call])
            == ReconcileStoreWith(RunCallSchedule(s, env, calls), env, call.name, call.failure)
  {
    assert (calls + [call])[..|calls|] == calls;
  }

  /** A failed call uses up a refusal. */
  lemma FailureUsesRefusal(refusals: seq<bool>, m: nat, singleton: Option<Singleton>, env: Environment, cell: Cell)
    ensures RefusalsFrom(refusals, m)
            >= RefusalsFrom(refusals, ReconcileEnd(refusals, m, singleton, env, cell))
               + if ReconcileFailure(refusals, m, singleton, env, cell).Some? then 1 else 0
  {
    RefusalUsedUp(refusals, m, m + CallsOf(singleton, env, cell));
    hide CallsOf, FirstRefused, RefusalsFrom;
  }

  lemma {:induction false} CallsOfOneClass(calls: seq<Call>, name: string)
    requires forall i :: 0 <= i < |calls| ==> calls[i].name == name
    ensures Successes(CallsFor(calls, name)) == |calls| - Failures(calls)
  {
    if calls != [] {
      var before, last := calls[..|calls| - 1], calls[|calls| - 1];
      CallsOfOneClass(before, name);
      var c := CallsFor(before, name);
      assert (c + [last.failure])[..|c|] == c;
    }
  }

  lemma {:induction false} NoCallsForOthers(calls: seq<Call>, name: string, other: string)
    requires other != name && forall i :: 0 <= i < |calls| ==> calls[i].name == name
    ensures CallsFor(calls, other) == []
  {
    if calls != [] { NoCallsForOthers(calls[..|calls| - 1], name, other); }
  }

  lemma {:induction false} IterateKeepsIdentity(oc: Singleton, env: Environment, cell: Cell, n: nat)
    requires cell.class_.Some?
    ensures var last := Iterate(Some(oc), env, cell, n).class_;
            last.Some?
            && last.value == cell.class_.value.(finalizers := last.value.finalizers, owners := last.value.owners)
    decreases n
  {
    hide StepTo;
    if n > 0 {
      StepKeepsIdentity(oc, env, cell);
      IterateKeepsIdentity(oc, env, StepTo(Some(oc), env, cell), n - 1);
    }
  }

  /** From no resources, three successful calls leave everything fitting exactly. */
  lemma ThreeCallsFitExactly(oc: Singleton, env: Environment, c: OvercommitClass, calls: seq<Option<nat>>)
    requires !OwnedByOther(SingletonRef(oc), c.owners) && Successes(calls) >= 3
    ensures FitExactly(oc, env, RunCalls(Some(oc), env, Cell(Some(c), None, None, None, None), calls))
  {
    var start := Cell(Some(c), None, None, None, None);
    ThreeReconcilesAreExact(oc, env, c, [], calls);
    assert Run(oc, env, start, []) == start;
    hide Run, Exact, InSync, RunCalls;
    InSyncFits(oc, env, RunCalls(Some(oc), env, start, calls));
    ExactFits(oc, env, RunCalls(Some(oc), env, start, calls));
  }

  lemma RepeatedCalls(s: Store, env: Environment, name: string, calls: seq<Call>)
    requires WellFormed(s) && s.singleton.Some? && name in s.classes
    requires NoForeignController(s.singleton.value, s.classes[name], CellOf(s, name))
    requires |calls| >= 3 + Failures(calls) && forall i :: 0 <= i < |calls| ==> calls[i].name == name
    ensures var oc, t := s.singleton.value, RunCallSchedule(s, env, calls);
            var last := CellOf(t, name);
            && t.singleton == s.singleton && last.class_.Some?
            && last.class_.value
               == s.classes[name].(finalizers := last.class_.value.finalizers, owners := last.class_.value.owners)
            && FitTogether(oc, env, last)
            && Step(Some(oc), env, last) == (last, Completed)
            && (CellOf(s, name) == Cell(Some(s.classes[name]), None, None, None, None) ==> FitExactly(oc, env, last))
            && forall other :: other != name ==> CellOf(t, other) == CellOf(s, other)
  {
    var oc, cell, c := s.singleton.value, CellOf(s, name), CallsFor(calls, name);
    CallsOfOneClass(calls, name);
    ConvergesDespiteFailures(s, env, calls, name);
    CallsEvolveAlone(s, env, calls, name);
    CellsNormal(s, name);
    forall other | other != name ensures CellOf(RunCallSchedule(s, env, calls), other) == CellOf(s, other) {
      CallsEvolveAlone(s, env, calls, other);
      NoCallsForOthers(calls, name, other);
    }
    assert !OwnedByOther(SingletonRef(oc), s.classes[name].owners);
    hide WellFormed, NormalCell, NoForeignController, Iterate, RunCallSchedule, Step, InSync, FitTogether, FitExactly,
         RunCalls;
    ConvergesInThree(oc, env, cell);
    IterateKeepsIdentity(oc, env, cell, 3);
    InSyncFits(oc, env, Iterate(Some(oc), env, cell, 3));
    ThreeCallsFitExactly(oc, env, s.classes[name], c);
  }

  class ApiServer {
    var singleton: Option<Singleton>
    var classes: map<string, OvercommitClass>
    var deployments: map<string, Deployment>
    var services: map<string, Service>
    var certificates: map<string, Certificate>
    var webhooks: map<string, WebhookConfig>
    /** Which calls are refused, by number, and the number of the next call. */
    const refusals: seq<bool>
    var made: nat

    constructor (s: Store, refusals: seq<bool>)
      ensures Snapshot() == s && this.refusals == refusals && made == 0
    {
      singleton, classes, deployments := s.singleton, s.classes, s.deployments;
      services, certificates, webhooks := s.services, s.certificates, s.webhooks;
      this.refusals, made := refusals, 0;
    }

    ghost function Snapshot(): Store
      reads this`singleton, this`classes, this`deployments, this`services, this`certificates, this`webhooks
    {
      Store(singleton, classes, deployments, services, certificates, webhooks)
    }

    /** The answer to the next call. */
    method Ask() returns (refused: bool)
      modifies this`made
      ensures refused == Refuses(refusals, old(made)) && made == old(made) + 1
    {
      refused := made < |refusals| && refusals[made];
      made := made + 1;
    }

    // ---------- Metadata phases ----------

    method UpdateClass(c: OvercommitClass)
      modifies this`classes
      ensures classes == old(classes)[c.name := c]
    {
      classes := classes[c.name := c];
    }

    // ---------- The four resources ----------

    method SyncDeploymentOf(c: OvercommitClass, env: Environment) returns (ok: bool)
      modifies this`deployments
      ensures var key := c.name + WEBHOOK_SUFFIX;
              var synced := SyncDeployment(CreateDeployment(c, env), ClassRef(c), Lookup(old(deployments), key));
              ok == synced.Some? && deployments == Put(old(deployments), key, synced)
    {
      var key := c.name + WEBHOOK_SUFFIX;
      var generated := CreateDeployment(c, env);
      hide CreateDeployment, DeploymentAccepted, MergeDeployment, Upsert, NormalDeployment;
      if key !in deployments {
        deployments := deployments[key := NormalDeployment(generated.(owners := [ClassRef(c)]))];
        return true;
      }
      var existing := deployments[key];
      var desired, updated := OverwriteRejected(generated, existing);
      if updated {
        var owners := SetController(ClassRef(c), existing.owners);
        if owners.None? { return false; }
        desired := desired.(owners := owners.value);
      }
      if desired != existing { deployments := deployments[key := NormalDeployment(desired)]; }
      return true;
    }

    method SyncServiceOf(c: OvercommitClass) returns (ok: bool)
      modifies this`services
      ensures var key := c.name + SERVICE_SUFFIX;
              var synced := SyncService(CreateService(c.name), ClassRef(c), Lookup(old(services), key));
              ok == synced.Some? && services == Put(old(services), key, synced)
    {
      var key := c.name + SERVICE_SUFFIX;
      var generated := CreateService(c.name);
      hide CreateService, SameBindings, PortPairs, PortBoundAlike, LastPortOfName, NormalService, Upsert, OwnedByOther;
      if key !in services {
        services := services[key := NormalService(generated.(owners := [ClassRef(c)]))];
        return true;
      }
      var existing := services[key];
      var service := existing;
      var updated := false;
      var selectorSame := MapsEqual(generated.selector, service.selector);
      if !selectorSame {
        service := service.(selector := generated.selector);
        updated := true;
      }
      var portsSame := PortsEqual(generated.ports, service.ports);
      if !portsSame {
        service := service.(ports := generated.ports);
        updated := true;
      }
      if generated.serviceType != service.serviceType {
        service := service.(serviceType := generated.serviceType);
        updated := true;
      }
      var annotationsSame := MapsEqual(generated.annotations, service.annotations);
      if !annotationsSame {
        service := service.(annotations := generated.annotations);
        updated := true;
      }
      var labelsSame := MapsEqual(generated.labels, service.labels);
      if !labelsSame {
        service := service.(labels := generated.labels);
        updated := true;
      }
      assert updated <==> !ServiceAccepted(generated, existing);
      assert service == MergeService(generated, existing);
      if updated {
        var owners := SetController(ClassRef(c), existing.owners);
        assert owners.None? <==> OwnedByOther(ClassRef(c), existing.owners);
        if owners.None? { return false; }
        service := service.(owners := owners.value);
      }
      if service != existing { services := services[key := NormalService(service)]; }
      return true;
    }

    method SyncCertificateOf(c: OvercommitClass, env: Environment) returns (ok: bool)
      modifies this`certificates
      ensures var key := c.name + CERTIFICATE_SUFFIX;
              var generated := CreateCertificate(c.name, env);
              var synced := SyncCertificate(generated, ClassRef(c), Lookup(old(certificates), key));
              ok == synced.Some? && certificates == Put(old(certificates), key, synced)
    {
      var key := c.name + CERTIFICATE_SUFFIX;
      var generated := CreateCertificate(c.name, env);
      hide CreateCertificate, SameBindings, ItemPairs, NormalCertificate, Upsert, OwnedByOther;
      if key !in certificates {
        certificates := certificates[key := NormalCertificate(generated.(owners := [ClassRef(c)]))];
        return true;
      }
      var existing := certificates[key];
      var certificate := existing;
      var updated := false;
      var namesSame := SlicesEqual(generated.dnsNames, certificate.dnsNames);
      if !namesSame {
        certificate := certificate.(dnsNames := generated.dnsNames);
        updated := true;
      }
      if generated.issuerName != certificate.issuerName || generated.issuerKind != certificate.issuerKind {
        certificate := certificate.(issuerName := generated.issuerName, issuerKind := generated.issuerKind);
        updated := true;
      }
      if generated.secretName != certificate.secretName {
        certificate := certificate.(secretName := generated.secretName);
        updated := true;
      }
      var annotationsSame := MapsEqual(generated.annotations, certificate.annotations);
      if !annotationsSame {
        certificate := certificate.(annotations := generated.annotations);
        updated := true;
      }
      var labelsSame := MapsEqual(generated.labels, certificate.labels);
      if !labelsSame {
        certificate := certificate.(labels := generated.labels);
        updated := true;
      }
      assert updated <==> !CertificateAccepted(generated, existing);
      assert certificate == MergeCertificate(generated, existing);
      if updated {
        var owners := SetController(ClassRef(c), existing.owners);
        assert owners.None? <==> OwnedByOther(ClassRef(c), existing.owners);
        if owners.None? { return false; }
        certificate := certificate.(owners := owners.value);
      }
      if certificate != existing { certificates := certificates[key := NormalCertificate(certificate)]; }
      return true;
    }

    method SyncWebhookConfigOf(c: OvercommitClass, env: Environment, labelKey: string) returns (ok: bool)
      modifies this`webhooks
      ensures var key := c.name + WEBHOOK_SUFFIX;
              var generated := CreateWebhookConfig(c, env, labelKey);
              var synced := SyncWebhookConfig(generated, ClassRef(c), Lookup(old(webhooks), key));
              ok == synced.Some? && webhooks == Put(old(webhooks), key, synced)
    {
      var key := c.name + WEBHOOK_SUFFIX;
      var generated := CreateWebhookConfig(c, env, labelKey);
      hide CreateWebhookConfig, WebhooksAgree, NormalWebhookConfig, Upsert, OwnedByOther;
      if key !in webhooks {
        webhooks := webhooks[key := NormalWebhookConfig(generated.(owners := [ClassRef(c)]))];
        return true;
      }
      var existing := webhooks[key];
      var config := existing;
      var updated := false;
      var annotationsSame := MapsEqual(generated.annotations, config.annotations);
      if !annotationsSame {
        config := config.(annotations := generated.annotations);
        updated := true;
      }
      var labelsSame := MapsEqual(generated.labels, config.labels);
      if !labelsSame {
        config := config.(labels := generated.labels);
        updated := true;
      }
      var listChanged := WebhookListChanged(generated.webhooks, config.webhooks);
      if listChanged {
        config := config.(webhooks := generated.webhooks);
        updated := true;
      }
      assert updated <==> !WebhookConfigAccepted(generated, existing);
      assert config == MergeWebhookConfig(generated, existing);
      if updated {
        var owners := SetController(ClassRef(c), existing.owners);
        assert owners.None? <==> OwnedByOther(ClassRef(c), existing.owners);
        if owners.None? { return false; }
        config := config.(owners := owners.value);
      }
      if config != existing { webhooks := webhooks[key := NormalWebhookConfig(config)]; }
      return true;
    }

    // ---------- Reconcile ----------

    /** The phases before the resources: the legacy finalizer, then the owner reference. Either ends the call. */
    method ReconcileMetadata(c: OvercommitClass) returns (ended: bool, outcome: Outcome)
      requires singleton.Some? && c.name in classes && classes[c.name] == c
      modifies this`classes, this`made
      ensures outcome == Failed ==> ended && classes == old(classes)
      ensures var m := old(made);
              if LEGACY_FINALIZER in c.finalizers then
                && ended && made == m + 1
                && (Refuses(refusals, m) ==> outcome == Failed)
                && (!Refuses(refusals, m) ==>
                      && outcome == FinalizerRemoved
                      && classes == old(classes)[c.name := c.(finalizers := RemoveAll(c.finalizers, LEGACY_FINALIZER))])
              else if Refuses(refusals, m) then ended && made == m + 1 && outcome == Failed
              else if HasCorrectOwner(c, singleton.value) then !ended && made == m + 1 && classes == old(classes)
              else
                && ended
                && match SetController(SingletonRef(singleton.value), c.owners)
                   case None => made == m + 1 && outcome == Failed
                   case Some(owners) =>
                     && made == m + 2
                     && (Refuses(refusals, m + 1) ==> outcome == Failed)
                     && (!Refuses(refusals, m + 1) ==>
                           outcome == OwnerSet && classes == old(classes)[c.name := c.(owners := owners)])
    {
      hide RemoveAll, SetController;
      if LEGACY_FINALIZER in c.finalizers {
        var refused := Ask();
        if refused { return true, Failed; }
        UpdateClass(c.(finalizers := RemoveAll(c.finalizers, LEGACY_FINALIZER)));
        return true, FinalizerRemoved;
      }
      var refused := Ask(); // reading the Overcommit
      if refused { return true, Failed; }
      var needsOwnerUpdate := NeedsOwnerUpdate(c, singleton.value);
      if needsOwnerUpdate {
        var owners := SetController(SingletonRef(singleton.value), c.owners);
        if owners.None? { return true, Failed; }
        refused := Ask();
        if refused { return true, Failed; }
        UpdateClass(c.(owners := owners.value));
        return true, OwnerSet;
      }
      return false, Completed;
    }

    /** The deployment, then the service. */
    method SyncDeploymentAndService(c: OvercommitClass, env: Environment) returns (ok: bool)
      modifies this`deployments, this`services, this`made
      ensures var m := old(made);
              var d := SyncDeployment(CreateDeployment(c, env), ClassRef(c),
                                      Lookup(old(deployments), c.name + WEBHOOK_SUFFIX));
              var s := SyncService(CreateService(c.name), ClassRef(c), Lookup(old(services), c.name + SERVICE_SUFFIX));
              var first, second := !Refuses(refusals, m), d.Some? && !Refuses(refusals, m + 1);
              && ok == (first && second && s.Some?)
              && deployments == (if first then Put(old(deployments), c.name + WEBHOOK_SUFFIX, d) else old(deployments))
              && services == (if first && second then Put(old(services), c.name + SERVICE_SUFFIX, s) else old(services))
              && made == (if first && d.Some? then m + 2 else m + 1)
    {
      hide CreateDeployment, CreateService, SyncDeployment, SyncService;
      var refused := Ask();
      if refused { return false; }
      ok := SyncDeploymentOf(c, env);
      if !ok { return false; }
      refused := Ask();
      if refused { return false; }
      ok := SyncServiceOf(c);
    }

    /** The certificate, then the webhook configuration. */
    method SyncCertificateAndWebhooks(c: OvercommitClass, env: Environment, labelKey: string) returns (ok: bool)
      modifies this`certificates, this`webhooks, this`made
      ensures var m := old(made);
              var k := SyncCertificate(CreateCertificate(c.name, env), ClassRef(c),
                                       Lookup(old(certificates), c.name + CERTIFICATE_SUFFIX));
              var w := SyncWebhookConfig(CreateWebhookConfig(c, env, labelKey), ClassRef(c),
                                         Lookup(old(webhooks), c.name + WEBHOOK_SUFFIX));
              var first, second := !Refuses(refusals, m), k.Some? && !Refuses(refusals, m + 1);
              && ok == (first && second && w.Some?)
              && certificates
                 == (if first then Put(old(certificates), c.name + CERTIFICATE_SUFFIX, k) else old(certificates))
              && webhooks == (if first && second then Put(old(webhooks), c.name + WEBHOOK_SUFFIX, w) else old(webhooks))
              && made == (if first && k.Some? then m + 2 else m + 1)
    {
      hide CreateCertificate, CreateWebhookConfig, SyncCertificate, SyncWebhookConfig;
      var refused := Ask();
      if refused { return false; }
      ok := SyncCertificateOf(c, env);
      if !ok { return false; }
      refused := Ask();
      if refused { return false; }
      ok := SyncWebhookConfigOf(c, env, labelKey);
    }

    /** The four resources in order, then metrics and status, which change nothing that is modelled; an error of
        the metrics is lost, and ends the call. */
    method ReconcileResources(c: OvercommitClass, env: Environment) returns (outcome: Outcome)
      requires singleton.Some?
      modifies this`deployments, this`services, this`certificates, this`webhooks, this`made
      ensures var cell := old(CellOf(Snapshot(), c.name));
              var failure := PassFailure(refusals, old(made), singleton.value, env, c, cell);
              var (next, result) := PassWith(singleton.value, env, c, cell, failure);
              && outcome == result && Snapshot() == PutCell(old(Snapshot()), c.name, next)
              && made == PassEnd(refusals, old(made), singleton.value, env, c, cell)
    {
      hide CreateDeployment, CreateService, CreateCertificate, CreateWebhookConfig, SyncDeployment, SyncService,
           SyncCertificate, SyncWebhookConfig, Put, Lookup, ClassRef, Refuses, PassWith, PassFailure, PassEnd;
      ghost var cell := CellOf(Snapshot(), c.name);
      PassByResource(refusals, made, singleton.value, env, c, cell);
      PassEndByResource(refusals, made, singleton.value, env, c, cell);
      PutOwn(classes, c.name);
      PutOwn(deployments, c.name + WEBHOOK_SUFFIX);
      PutOwn(services, c.name + SERVICE_SUFFIX);
      PutOwn(certificates, c.name + CERTIFICATE_SUFFIX);
      PutOwn(webhooks, c.name + WEBHOOK_SUFFIX);
      var ok := SyncDeploymentAndService(c, env);
      if !ok { return Failed; }
      ok := SyncCertificateAndWebhooks(c, env, singleton.value.labelKey);
      if !ok { return Failed; }
      var refused := Ask();
      if refused { return Completed; }
      refused := Ask();
      if refused { return Failed; }
      return Completed;
    }

    /** One call for the class `name`: the stored objects become exactly those of ReconcileStoreWith for the place
        of its first refused call, if one is refused. */
    method Reconcile(name: string, env: Environment) returns (outcome: Outcome)
      requires name in classes ==> classes[name].name == name
      modifies this`classes, this`deployments, this`services, this`certificates, this`webhooks, this`made
      ensures var cell := old(CellOf(Snapshot(), name));
              var failure := ReconcileFailure(refusals, old(made), singleton, env, cell);
              && Snapshot() == ReconcileStoreWith(old(Snapshot()), env, name, failure)
              && outcome == StepWith(singleton, env, cell, failure).1
              && made == ReconcileEnd(refusals, old(made), singleton, env, cell)
    {
      hide StepWith, PutCell, SetController, RemoveAll, HasCorrectOwner, PassWith, ReconcileFailure, ReconcileEnd,
           PassFailure, PassEnd, CallsOf, Refuses;
      ghost var before, m, cell := Snapshot(), made, CellOf(Snapshot(), name);
      PutSame(before, name);
      var refused := Ask(); // reading the label
      if refused || singleton.None? {
        LabelUnread(refusals, m, singleton, env, cell);
        return Failed;
      }
      refused := Ask(); // reading the class
      if refused || name !in classes {
        ClassUnread(refusals, m, singleton.value, env, cell);
        return if refused then Failed else ClassMissing;
      }
      var overcommitClass := classes[name];
      var ended;
      ended, outcome := ReconcileMetadata(overcommitClass);
      if ended {
        MetadataEnds(refusals, m, singleton.value, env, cell);
        if outcome != Failed { PutClass(before, name, classes[name]); }
        return;
      }
      PassAfterMetadata(refusals, m, singleton.value, env, cell);
      outcome := ReconcileResources(overcommitClass, env);
    }

    /** A call for each class of a schedule in turn, as the work queue makes them. The store becomes that of
        RunCallSchedule, and no more calls fail than the API refuses. */
    method ReconcileAll(schedule: seq<string>, env: Environment) returns (ghost calls: seq<Call>)
      requires FiledByName(classes)
      modifies this`classes, this`deployments, this`services, this`certificates, this`webhooks, this`made
      ensures Snapshot() == RunCallSchedule(old(Snapshot()), env, calls)
      ensures |calls| == |schedule| && forall i :: 0 <= i < |calls| ==> calls[i].name == schedule[i]
      ensures Failures(calls) + RefusalsFrom(refusals, made) <= RefusalsFrom(refusals, old(made))
    {
      hide ReconcileStoreWith, ReconcileFailure, ReconcileEnd, RefusalsFrom, CellOf, StepWith;
      ghost var start := Snapshot();
      calls := [];
      for i := 0 to |schedule|
        invariant FiledByName(classes)
        invariant Snapshot() == RunCallSchedule(start, env, calls)
        invariant |calls| == i && forall j :: 0 <= j < i ==> calls[j].name == schedule[j]
        invariant Failures(calls) + RefusalsFrom(refusals, made) <= RefusalsFrom(refusals, old(made))
      {
        var name := schedule[i];
        ghost var before, m := Snapshot(), made;
        ghost var failure := ReconcileFailure(refusals, m, singleton, env, CellOf(before, name));
        var _ := Reconcile(name, env);
        CallKeepsNames(before, env, name, failure);
        FailureUsesRefusal(refusals, m, singleton, env, CellOf(before, name));
        OneMoreInSchedule(start, env, calls, Call(name, failure));
        OneMoreFailure(calls, Call(name, failure));
        calls := calls + [Call(name, failure)];
      }
    }

    /** However many calls the API refuses, three more calls for a class than that leave its four objects stored
        under the names the cluster knows them by, fitting the class and each other, and at rest; provided that
        nobody else controls them. If there were none before, they fit exactly. Other classes keep theirs. */
    method ReconcileRepeatedly(name: string, env: Environment, n: nat)
      requires WellFormed(Snapshot()) && singleton.Some? && name in classes
      requires NoForeignController(singleton.value, classes[name], CellOf(Snapshot(), name))
      requires n >= 3 + RefusalsFrom(refusals, made)
      modifies this`classes, this`deployments, this`services, this`certificates, this`webhooks, this`made
      ensures name in classes && classes[name] == old(classes[name]).(finalizers := classes[name].finalizers,
                                                                      owners := classes[name].owners)
      ensures name + "-overcommit-webhook" in deployments && name + "-webhook-service" in services
      ensures name + "-webhook-certificate" in certificates && name + "-overcommit-webhook" in webhooks
      ensures var cell := Cell(Some(classes[name]), Some(deployments[name + "-overcommit-webhook"]),
                               Some(services[name + "-webhook-service"]),
                               Some(certificates[name + "-webhook-certificate"]),
                               Some(webhooks[name + "-overcommit-webhook"]));
              && FitTogether(singleton.value, env, cell)
              && Step(singleton, env, cell) == (cell, Completed)
              && (old(CellOf(Snapshot(), name)) == Cell(Some(old(classes[name])), None, None, None, None) ==>
                    FitExactly(singleton.value, env, cell))
      ensures forall other :: other != name ==> CellOf(Snapshot(), other) == old(CellOf(Snapshot(), other))
    {
      hide NoForeignController, ClassFits, DeploymentFits, ServiceFits, CertificateFits, WebhookConfigFits, FitExactly,
           RunCallSchedule, RefusalsFrom, Step;
      ghost var start := Snapshot();
      assert FiledByName(classes);
      ghost var calls := ReconcileAll(seq(n, _ => name), env);
      hide WellFormed;
      RepeatedCalls(start, env, name, calls);
    }
  }
}
