/** Updating the Overcommit status against other writers (internal/controller/overcommit/utils.go). */
module StatusRetry {
  import opened Wrappers
  import opened Text
  import opened Conditions
  import opened Answers
  import O = OvercommitReconciler

  datatype ResourceStatus = ResourceStatus(name: string, ready: bool)

  datatype StatusValue = StatusValue(resources: seq<ResourceStatus>, conditions: seq<Condition>)

  /** The stored singleton; `spec` stands for everything but version and status. */
  datatype Stored = Stored(version: nat, spec: string, status: StatusValue)

  // ---------- The new status ----------

  /** Resource types in the order of the status, with the names of the resources. */
  const RESOURCES: seq<(string, string)> := [
    ("issuer", "k8s-overcommit-issuer"),
    ("overcommitclass-deployment", "k8s-overcommit-class-validating-webhook"),
    ("overcommitclass-service", "k8s-overcommit-class-validating-webhook-service"),
    ("overcommitclass-certificate", "oc-validating-webhook"),
    ("overcommitclass-webhook", "k8s-overcommit-class-validating-webhook"),
    ("pod-deployment", "k8s-overcommit-pod-validating-webhook"),
    ("pod-service", "k8s-overcommit-pod-validating-webhook-service"),
    ("pod-certificate", "pod-validating-webhook"),
    ("pod-webhook", "k8s-overcommit-pod-validating-webhook"),
    ("overcommitclass-controller", "k8s-overcommit-overcommitclass-controller")]

  const TYPES: nat := 10

  /** What the ten lookups said. */
  type Lookups = s: seq<bool> | |s| == TYPES witness seq(TYPES, _ => true)

  function EntriesOf(resources: seq<(string, string)>, ready: seq<bool>): (entries: seq<ResourceStatus>)
    requires |resources| == |ready|
    ensures |entries| == |ready|
  {
    seq(|ready|, i requires 0 <= i < |ready| => ResourceStatus(resources[i].1, ready[i]))
  }

  function CountReady(ready: seq<bool>): nat {
    if ready == [] then 0 else CountReady(ready[..|ready| - 1]) + if ready[|ready| - 1] then 1 else 0
  }

  predicate AllReady(ready: seq<bool>) {
    forall i :: 0 <= i < |ready| ==> ready[i]
  }

  function ReadyUpdate(ready: seq<bool>, now: int): Update {
    if AllReady(ready) then
      Update("ResourcesReady", "True", "AllResourcesReady",
             "All " + Itoa(|ready|) + " managed resources are ready", Some(now), now)
    else
      Update("ResourcesReady", "False", "ResourcesNotReady",
             Itoa(CountReady(ready)) + " of " + Itoa(|ready|) + " resources are ready", Some(now), now)
  }

  function StatusFrom(previous: StatusValue, ready: Lookups, now: int): StatusValue {
    StatusValue(EntriesOf(RESOURCES, ready), SetCondition(OnStatusFlip, previous.conditions, ReadyUpdate(ready, now)))
  }

  lemma {:induction false} CountIsNumberReady(ready: seq<bool>)
    ensures CountReady(ready) == |set i | 0 <= i < |ready| && ready[i]|
  {
    var now := set i | 0 <= i < |ready| && ready[i];
    if ready == [] {
      assert now == {};
    } else {
      var n := |ready| - 1;
      CountIsNumberReady(ready[..n]);
      var before := set i | 0 <= i < |ready[..n]| && ready[..n][i];
      assert now == before + (if ready[n] then {n} else {});
    }
  }

  lemma TenInDecimal()
    ensures Itoa(10) == "10"
  {
    assert Decimal(1, 0) == Decimal(0, 0) + ["0123456789"[1]];
    assert Decimal(10, 1) == Decimal(1, 0) + ["0123456789"[0]];
  }

  /** The message of the condition: that all are ready, or how many are. */
  function Message(ready: Lookups): string {
    if forall i :: 0 <= i < 10 ==> ready[i] then "All 10 managed resources are ready"
    else Itoa(|set i | 0 <= i < 10 && ready[i]|) + " of 10 resources are ready"
  }

  lemma AllReadyText()
    ensures "All " + Itoa(10) + " managed resources are ready" == "All 10 managed resources are ready"
  {
    TenInDecimal();
    hide Itoa;
  }

  lemma SomeReadyText(n: string)
    ensures n + " of " + Itoa(10) + " resources are ready" == n + " of 10 resources are ready"
  {
    TenInDecimal();
    hide Itoa;
    assert " of " + "10" + " resources are ready" == " of 10 resources are ready";
    assert n + " of " + "10" + " resources are ready" == n + (" of " + "10" + " resources are ready");
  }

  lemma CountOfTen(ready: Lookups)
    ensures CountReady(ready) == |set i | 0 <= i < 10 && ready[i]|
  {
    CountIsNumberReady(ready);
    assert (set i | 0 <= i < |ready| && ready[i]) == (set i | 0 <= i < 10 && ready[i]);
  }

  lemma UpdateSays(ready: Lookups, now: int)
    ensures var u, all := ReadyUpdate(ready, now), forall i :: 0 <= i < 10 ==> ready[i];
            && u.kind == "ResourcesReady"
            && u.status == (if all then "True" else "False")
            && u.reason == (if all then "AllResourcesReady" else "ResourcesNotReady")
            && u.message == Message(ready)
  {
    assert AllReady(ready) <==> forall i :: 0 <= i < 10 ==> ready[i];
    CountOfTen(ready);
    AllReadyText();
    SomeReadyText(Itoa(CountReady(ready)));
    hide Itoa, CountReady, AllReady;
  }

  /** The ten resources in fixed order. */
  function Entries(ready: Lookups): seq<ResourceStatus> {
    [ ResourceStatus("k8s-overcommit-issuer", ready[0]),
      ResourceStatus("k8s-overcommit-class-validating-webhook", ready[1]),
      ResourceStatus("k8s-overcommit-class-validating-webhook-service", ready[2]),
      ResourceStatus("oc-validating-webhook", ready[3]),
      ResourceStatus("k8s-overcommit-class-validating-webhook", ready[4]),
      ResourceStatus("k8s-overcommit-pod-validating-webhook", ready[5]),
      ResourceStatus("k8s-overcommit-pod-validating-webhook-service", ready[6]),
      ResourceStatus("pod-validating-webhook", ready[7]),
      ResourceStatus("k8s-overcommit-pod-validating-webhook", ready[8]),
      ResourceStatus("k8s-overcommit-overcommitclass-controller", ready[9]) ]
  }

  lemma EntriesListed(ready: Lookups)
    ensures EntriesOf(RESOURCES, ready) == Entries(ready)
  {
  }

  /** The status lists the ten resources with what their lookups said; the condition is True exactly when all ten
      succeeded, its message counts those that did, and it keeps its time while its status stays the same. Other
      conditions stay as they were. */
  lemma StatusReportsLookups(previous: StatusValue, ready: Lookups, now: int)
    ensures StatusFrom(previous, ready, now).resources == Entries(ready)
    ensures Find(StatusFrom(previous, ready, now).conditions, "ResourcesReady").Some?
    ensures var c := Find(StatusFrom(previous, ready, now).conditions, "ResourcesReady").value;
            var all := forall i :: 0 <= i < 10 ==> ready[i];
            && c.status == (if all then "True" else "False")
            && c.reason == (if all then "AllResourcesReady" else "ResourcesNotReady")
            && c.message == Message(ready)
    ensures var c := Find(StatusFrom(previous, ready, now).conditions, "ResourcesReady").value;
            var before := Find(previous.conditions, "ResourcesReady");
            c.time == if before.Some? && before.value.status == c.status then before.value.time else now
    ensures forall kind :: kind != "ResourcesReady" ==>
              Find(StatusFrom(previous, ready, now).conditions, kind) == Find(previous.conditions, kind)
  {
    EntriesListed(ready);
    UpdateSays(ready, now);
    var u := ReadyUpdate(ready, now);
    assert u.given == Some(now) && u.now == now;
    hide ReadyUpdate, SetCondition, Find, Message, EntriesOf, Entries;
    forall kind
      ensures Find(StatusFrom(previous, ready, now).conditions, kind)
              == if kind == "ResourcesReady" then Some(Stamp(OnStatusFlip, Find(previous.conditions, kind), u))
                 else Find(previous.conditions, kind)
    {
      FindAfterSet(OnStatusFlip, previous.conditions, u, kind);
    }
  }

  /** The resources looked up are the ones the reconciler deploys or creates. */
  lemma LooksUpWhatIsReconciled()
    ensures RESOURCES[0] == O.ISSUER
    ensures RESOURCES[1] == ("overcommitclass-deployment", O.NameOf(O.ClassValidator))
    ensures RESOURCES[2] == O.ServiceOf(O.ClassValidator) && RESOURCES[3] == O.CertificateOf(O.ClassValidator)
    ensures RESOURCES[4] == O.WebhookOf(O.ClassValidator)
    ensures RESOURCES[5] == ("pod-deployment", O.NameOf(O.PodValidator))
    ensures RESOURCES[6] == O.ServiceOf(O.PodValidator) && RESOURCES[7] == O.CertificateOf(O.PodValidator)
    ensures RESOURCES[8] == O.WebhookOf(O.PodValidator)
    ensures RESOURCES[9] == ("overcommitclass-controller", O.NameOf(O.ClassController))
  {
    assert O.NameOf(O.ClassValidator) + "-service" == "k8s-overcommit-class-validating-webhook-service";
    assert O.NameOf(O.PodValidator) + "-service" == "k8s-overcommit-pod-validating-webhook-service";
  }

  // ---------- The API server ----------

  datatype WriteResult = Written | Conflict | OtherError

  /** Which of the looked up resources exist. */
  type Inventory = set<(string, string)>

  /** A lookup: the state of the store it found, and whether it failed for another reason. */
  datatype Lookup = Lookup(at: nat, failed: bool)

  /** One attempt: the object it started from, its lookups and what they said, when, and how its write ended. */
  datatype Attempt = Attempt(seen: Stored, lookups: seq<Lookup>, ready: Lookups, now: int, result: WriteResult,
                             replaced: Option<Stored>)

  /** Each answer is that of a store the server went through, in this order. */
  ghost predicate Observed(inventories: seq<Inventory>, lookups: seq<Lookup>, ready: seq<bool>) {
    && |lookups| == |ready| <= TYPES
    && (forall i :: 0 <= i < |ready| ==>
          && lookups[i].at < |inventories|
          && (ready[i] <==> RESOURCES[i] in inventories[lookups[i].at] && !lookups[i].failed))
    && (forall i, j :: 0 <= i < j < |lookups| ==> lookups[i].at <= lookups[j].at)
  }

  /** What a read of the singleton says. */
  datatype ReadResult = Found(found: Stored) | NotFound | ReadError

  /** What others may do: write the singleton, delete it, or change which of the looked up resources exist. */
  datatype Edit = WriteObject(spec: string, status: StatusValue) | DeleteObject | SetInventory(inventory: Inventory)

  class Server {
    var stored: Option<Stored>
    var latest: nat
    var slept: nat
    var present: Inventory
    /** The answers to the calls to come. */
    var script: seq<Answer<Edit>>
    /** Every inventory there was; the last one is the present. */
    ghost var inventories: seq<Inventory>
    /** Every object that was ever stored, by version, and whether there ever was none: what a cache that lags
        behind may still show. */
    var history: map<nat, Stored>
    var wasAbsent: bool
    ghost var attempts: seq<Attempt>

    ghost predicate Valid()
      reads this`stored, this`latest, this`present, this`inventories, this`history, this`wasAbsent
    {
      && inventories != [] && inventories[|inventories| - 1] == present
      && (forall v <- history :: v <= latest && history[v].version == v)
      && (if stored.Some? then stored.value.version in history && history[stored.value.version] == stored.value
          else wasAbsent)
    }

    constructor (script: seq<Answer<Edit>>)
      ensures Valid() && stored.None? && attempts == [] && slept == 0 && this.script == script
    {
      stored, latest, slept, present, inventories := None, 0, 0, {}, [{}];
      history, wasAbsent, attempts := map[], true, [];
      this.script := script;
    }

    /** The object was stored at some time. */
    predicate Known(o: Stored)
      reads this`history
    {
      o.version in history && history[o.version] == o
    }

    /** The history goes on. */
    twostate predicate Later()
      reads this`history, this`latest, this`inventories
    {
      && (forall v <- old(history) :: v in history && history[v] == old(history)[v])
      && latest >= old(latest) && old(inventories) <= inventories
    }

    /** The same, seen from a state gone by. */
    ghost predicate Since(earlier: map<nat, Stored>, version: nat, seen: seq<Inventory>)
      reads this`history, this`latest, this`inventories
    {
      && (forall v <- earlier :: v in history && history[v] == earlier[v])
      && latest >= version && seen <= inventories
    }

    method Store(o: Stored)
      requires Valid() && o.version == latest + 1
      modifies this`stored, this`latest, this`history
      ensures Valid() && Later() && stored == Some(o) && latest == o.version
    {
      stored := Some(o);
      latest := o.version;
      history := history[o.version := o];
    }

    /** Other writers: updates, deletions and recreations. */
    method Interfere(others: seq<Edit>)
      requires Valid()
      modifies this`stored, this`latest, this`history, this`wasAbsent, this`present, this`inventories
      ensures Valid() && Later()
      ensures others == [] ==> stored == old(stored) && present == old(present)
    {
      for i := 0 to |others|
        invariant Valid() && Later()
        invariant others == [] ==> stored == old(stored) && present == old(present)
      {
        match others[i]
        case WriteObject(spec, status) => Store(Stored(latest + 1, spec, status));
        case DeleteObject => stored, wasAbsent := None, true;
        case SetInventory(inventory) =>
          present := inventory;
          inventories := inventories + [present];
      }
    }

    /** One call: others act first, then it is answered. */
    method Call() returns (answer: Answer<Edit>)
      requires Valid()
      modifies this`stored, this`latest, this`history, this`wasAbsent, this`present, this`inventories, this`script
      ensures Valid() && Later()
      ensures answer == Next(old(script)) && script == Rest(old(script))
      ensures Still(old(script)) ==> stored == old(stored) && present == old(present)
    {
      hide Still, Quiet, Valid;
      answer := Next(script);
      script := Rest(script);
      Interfere(answer.others);
    }

    /** Get from the cache: some state of the object, not necessarily the present one. */
    method Get() returns (result: ReadResult)
      requires Valid()
      modifies this`stored, this`latest, this`history, this`wasAbsent, this`present, this`inventories, this`script
      ensures Valid() && Later() && script == Rest(old(script))
      ensures result.Found? ==> Known(result.found)
      ensures result.NotFound? ==> wasAbsent
      ensures result.ReadError? <==> !Next(old(script)).refusal.Accepted?
      ensures Still(old(script)) ==> stored == old(stored) && present == old(present)
      ensures Still(old(script)) && !result.ReadError? ==>
                result == if stored.Some? then Found(stored.value) else NotFound
    {
      hide Still, Quiet;
      var answer := Call();
      if !answer.refusal.Accepted? { return ReadError; }
      if answer.shown.Nothing? && wasAbsent { return NotFound; }
      if answer.shown.Past? && answer.shown.version in history { return Found(history[answer.shown.version]); }
      return if stored.Some? then Found(stored.value) else NotFound;
    }

    /** Status().Update: refused unless the version is current; the spec of the argument is ignored. */
    method UpdateStatus(version: nat, status: StatusValue) returns (result: WriteResult, ghost replaced: Option<Stored>)
      requires Valid()
      modifies this`stored, this`latest, this`history, this`wasAbsent, this`present, this`inventories, this`script
      ensures Valid() && Later() && script == Rest(old(script))
      ensures result == Written ==>
                && replaced.Some? && Known(replaced.value) && replaced.value.version == version
                && stored == Some(Stored(latest, replaced.value.spec, status)) && latest > old(latest)
      ensures result != Written ==> replaced == None
      ensures match Next(old(script)).refusal
              case Conflicts => result == Conflict
              case Fails => result == OtherError
              case Accepted => Still(old(script)) && old(stored).Some? && old(stored).value.version == version ==>
                                 result == Written
      ensures Still(old(script)) ==>
                present == old(present) && old(stored) == if result == Written then replaced else stored
    {
      hide Still, Quiet;
      var answer := Call();
      match answer.refusal
      case Conflicts => return Conflict, None;
      case Fails => return OtherError, None;
      case Accepted =>
        if stored.None? { return OtherError, None; }
        if stored.value.version != version { return Conflict, None; }
        replaced := stored;
        Store(Stored(latest + 1, stored.value.spec, status));
        return Written, replaced;
    }
  }

  // ---------- updateOvercommitStatus ----------

  /** One lookup: it succeeds if the object exists and the call is not refused. */
  method LookUp(server: Server, resource: (string, string)) returns (found: bool, ghost lookup: Lookup)
    requires server.Valid()
    modifies server`stored, server`latest, server`history, server`wasAbsent, server`present, server`inventories,
             server`script
    ensures server.Valid() && server.Later() && server.script == Rest(old(server.script))
    ensures lookup.at == |server.inventories| - 1
    ensures lookup.failed <==> !Next(old(server.script)).refusal.Accepted?
    ensures found <==> resource in server.inventories[lookup.at] && !lookup.failed
    ensures Still(old(server.script)) ==>
              && server.stored == old(server.stored) && server.present == old(server.present)
              && (found <==> resource in server.present && !lookup.failed)
  {
    hide Still, Quiet;
    var answer := server.Call();
    found := resource in server.present && answer.refusal.Accepted?;
    lookup := Lookup(|server.inventories| - 1, !answer.refusal.Accepted?);
  }

  lemma OneMoreObserved(before: seq<Inventory>, after: seq<Inventory>, lookups: seq<Lookup>, ready: seq<bool>,
                        lookup: Lookup, found: bool)
    requires Observed(before, lookups, ready) && before <= after && |ready| < TYPES && before != []
    requires lookup.at == |after| - 1
    requires found <==> RESOURCES[|ready|] in after[lookup.at] && !lookup.failed
    ensures Observed(after, lookups + [lookup], ready + [found])
  {
  }

  /** Lookups in an inventory that does not change. */
  ghost predicate FoundIn(inventory: Inventory, script: seq<Answer<Edit>>, ready: seq<bool>) {
    && |ready| <= TYPES
    && forall i :: 0 <= i < |ready| ==> (ready[i] <==> RESOURCES[i] in inventory && At(script, i).refusal.Accepted?)
  }

  lemma OneMoreFound(inventory: Inventory, script: seq<Answer<Edit>>, ready: seq<bool>, found: bool)
    requires FoundIn(inventory, script, ready) && |ready| < TYPES
    requires found <==> RESOURCES[|ready|] in inventory && At(script, |ready|).refusal.Accepted?
    ensures FoundIn(inventory, script, ready + [found])
  {
  }

  /** Each lookup was made no earlier than on a given inventory, and failed exactly when it was refused. */
  ghost predicate Answered(lookups: seq<Lookup>, script: seq<Answer<Edit>>, first: nat) {
    forall i :: 0 <= i < |lookups| ==>
      lookups[i].at >= first && (lookups[i].failed <==> !At(script, i).refusal.Accepted?)
  }

  lemma OneMoreAnswered(lookups: seq<Lookup>, script: seq<Answer<Edit>>, first: nat, lookup: Lookup)
    requires Answered(lookups, script, first) && lookup.at >= first
    requires lookup.failed <==> !At(script, |lookups|).refusal.Accepted?
    ensures Answered(lookups + [lookup], script, first)
  {
  }

  /** The ten lookups, with other writers in between. */
  method CheckResources(server: Server) returns (ready: Lookups, ghost lookups: seq<Lookup>)
    requires server.Valid()
    modifies server`stored, server`latest, server`history, server`wasAbsent, server`present, server`inventories,
             server`script
    ensures server.Valid() && server.Later() && server.script == Drop(old(server.script), TYPES)
    ensures Observed(server.inventories, lookups, ready)
    ensures Answered(lookups, old(server.script), |old(server.inventories)| - 1)
    ensures Still(old(server.script)) ==>
              && server.stored == old(server.stored) && server.present == old(server.present)
              && FoundIn(server.present, old(server.script), ready)
  {
    var found: seq<bool> := [];
    lookups := [];
    OneCallLater(server.script, 0);
    assert FoundIn(server.present, server.script, found) && Observed(server.inventories, lookups, found);
    ghost var first: nat := |server.inventories| - 1;
    assert Answered(lookups, server.script, first);
    hide Still, Quiet, Drop, At, Observed, FoundIn, Answered;
    for i := 0 to TYPES
      invariant |found| == |lookups| == i && server.Valid() && server.Later()
      invariant server.script == Drop(old(server.script), i)
      invariant Observed(server.inventories, lookups, found)
      invariant Answered(lookups, old(server.script), first)
      invariant Still(old(server.script)) ==>
                  && server.stored == old(server.stored) && server.present == old(server.present)
                  && FoundIn(server.present, old(server.script), found)
    {
      OneCallLater(old(server.script), i);
      ghost var before := server.inventories;
      var bit, lookup := LookUp(server, RESOURCES[i]);
      OneMoreObserved(before, server.inventories, lookups, found, lookup, bit);
      OneMoreAnswered(lookups, old(server.script), first, lookup);
      if Still(old(server.script)) { OneMoreFound(server.present, old(server.script), found, bit); }
      found := found + [bit];
      lookups := lookups + [lookup];
    }
    ready := found;
  }

  ghost predicate DistinctTypes(resources: seq<(string, string)>) {
    forall i, j :: 0 <= i < j < |resources| ==> resources[i].0 != resources[j].0
  }

  /** The status map, filled lookup by lookup. */
  method CollectStatuses(resources: seq<(string, string)>, ready: seq<bool>)
    returns (statuses: map<string, ResourceStatus>)
    requires |resources| == |ready| && DistinctTypes(resources)
    ensures forall i :: 0 <= i < |ready| ==>
      resources[i].0 in statuses && statuses[resources[i].0] == ResourceStatus(resources[i].1, ready[i])
  {
    statuses := map[];
    for i := 0 to |ready|
      invariant forall j :: 0 <= j < i ==>
        resources[j].0 in statuses && statuses[resources[j].0] == ResourceStatus(resources[j].1, ready[j])
    {
      statuses := statuses[resources[i].0 := ResourceStatus(resources[i].1, ready[i])];
    }
  }

  /** From the map to the ordered list, counting as it goes. */
  method OrderStatuses(resources: seq<(string, string)>, statuses: map<string, ResourceStatus>, ghost ready: seq<bool>)
    returns (slice: seq<ResourceStatus>, allReady: bool, readyCount: nat)
    requires |resources| == |ready|
    requires forall i :: 0 <= i < |ready| ==>
      resources[i].0 in statuses && statuses[resources[i].0] == ResourceStatus(resources[i].1, ready[i])
    ensures slice == EntriesOf(resources, ready)
    ensures allReady == AllReady(ready) && readyCount == CountReady(ready)
  {
    slice, allReady, readyCount := [], true, 0;
    for i := 0 to |resources|
      invariant slice == EntriesOf(resources, ready)[..i]
      invariant allReady == AllReady(ready[..i])
      invariant readyCount == CountReady(ready[..i])
    {
      assert ready[..i + 1][..i] == ready[..i];
      if resources[i].0 in statuses {
        var status := statuses[resources[i].0];
        slice := slice + [status];
        if status.ready { readyCount := readyCount + 1; } else { allReady := false; }
      }
    }
    assert ready[..|resources|] == ready;
  }

  lemma ResourceTypesDistinct()
    ensures DistinctTypes(RESOURCES) && |RESOURCES| == TYPES
  {
  }

  method BuildStatus(previous: StatusValue, ready: Lookups, now: int) returns (status: StatusValue)
    ensures status == StatusFrom(previous, ready, now)
  {
    ResourceTypesDistinct();
    var resources := RESOURCES;
    var statuses := CollectStatuses(resources, ready);
    var slice, allReady, readyCount := OrderStatuses(resources, statuses, ready);
    hide SetCondition, Itoa, CountReady;
    var update := Update("ResourcesReady", "True", "AllResourcesReady",
                         "All " + Itoa(|slice|) + " managed resources are ready", Some(now), now);
    if !allReady {
      update := update.(status := "False", reason := "ResourcesNotReady",
                        message := Itoa(readyCount) + " of " + Itoa(|slice|) + " resources are ready");
    }
    assert update == ReadyUpdate(ready, now);
    var holder := new Status(previous.conditions);
    holder.SetOvercommitCondition(update);
    status := StatusValue(slice, holder.conditions);
  }

  // ---------- updateOvercommitStatusSafely ----------

  const MAX_RETRIES: nat := 5

  function DelayAfter(attempt: nat): nat {
    if attempt == 0 then 50 else 2 * DelayAfter(attempt - 1)
  }

  /** Milliseconds slept after `n` conflicts: 50, 100, 200, 400 and no more. */
  function Backoff(n: nat): nat {
    if n == 0 then 0 else Backoff(n - 1) + DelayAfter(n - 1)
  }

  /** Every attempt but the last lost to another writer. */
  ghost predicate OnlyConflictsRetried(attempts: seq<Attempt>) {
    forall i :: 0 <= i < |attempts| - 1 ==> attempts[i].result == Conflict
  }

  /** A successful attempt replaced the very object its status was computed from. */
  ghost predicate NoLostUpdate(a: Attempt) {
    a.result == Written ==> a.replaced == Some(a.seen)
  }

  /** No attempt lost an update, and each saw what there was. */
  ghost predicate Sound(inventories: seq<Inventory>, attempts: seq<Attempt>) {
    forall a <- attempts :: NoLostUpdate(a) && Observed(inventories, a.lookups, a.ready)
  }

  lemma NoAttemptsSound(inventories: seq<Inventory>)
    ensures Sound(inventories, [])
  {
  }

  lemma StaysSound(inventories: seq<Inventory>, later: seq<Inventory>, attempts: seq<Attempt>)
    requires inventories <= later && Sound(inventories, attempts)
    ensures Sound(later, attempts)
  {
  }

  lemma OneMoreSound(inventories: seq<Inventory>, attempts: seq<Attempt>)
    requires attempts != [] && Sound(inventories, attempts[..|attempts| - 1])
    requires var a := attempts[|attempts| - 1]; NoLostUpdate(a) && Observed(inventories, a.lookups, a.ready)
    ensures Sound(inventories, attempts)
  {
    hide NoLostUpdate, Observed;
    assert attempts == attempts[..|attempts| - 1] + [attempts[|attempts| - 1]];
  }

  datatype Outcome = Updated | NothingToUpdate | GetFailed | GaveUp(result: WriteResult)

  /** The attempt that ends the loop is not followed by a sleep. */
  function CountConflictsSlept(outcome: Outcome, attempts: nat): nat {
    if (outcome.Updated? || outcome.GaveUp?) && attempts > 0 then attempts - 1 else attempts
  }

  /** The last attempt of a log, whose result is `result`; a success left the computed status in place of the
      object it was computed from. */
  ghost predicate Logged(server: Server, before: seq<Attempt>, result: WriteResult)
    reads server
  {
    && |server.attempts| == |before| + 1 && server.attempts[..|before|] == before
    && var a := server.attempts[|before|];
    && a.result == result && NoLostUpdate(a) && Observed(server.inventories, a.lookups, a.ready)
    && (result == Written ==>
          server.stored == Some(Stored(server.latest, a.seen.spec, StatusFrom(a.seen.status, a.ready, a.now))))
  }

  /** One call of updateOvercommitStatus on an object that was read, fresh or not: the lookups, then the write, with
      other writers before each. */
  method TryUpdate(server: Server, seen: Stored, now: int) returns (result: WriteResult)
    requires server.Valid() && server.Known(seen)
    modifies server
    ensures server.Valid() && server.Later() && server.slept == old(server.slept)
    ensures Logged(server, old(server.attempts), result) && server.script == Drop(old(server.script), 11)
    ensures server.attempts[|old(server.attempts)|].now == now && server.attempts[|old(server.attempts)|].seen == seen
    ensures match At(old(server.script), 10).refusal
            case Conflicts => result == Conflict
            case Fails => result == OtherError
            case Accepted => Still(old(server.script)) && old(server.stored) == Some(seen) ==> result == Written
    ensures Still(old(server.script)) ==>
              && server.present == old(server.present)
              && (result != Written ==> server.stored == old(server.stored))
              && FoundIn(server.present, old(server.script), server.attempts[|old(server.attempts)|].ready)
  {
    hide StatusFrom, Still, Quiet, Drop, At, FoundIn;
    OneCallLater(server.script, 10);
    ghost var start := server.script;
    var ready, lookups := CheckResources(server);
    var status := BuildStatus(seen.status, ready, now);
    OneCallLater(start, TYPES);
    ghost var replaced;
    result, replaced := server.UpdateStatus(seen.version, status);
    server.attempts := server.attempts + [Attempt(seen, lookups, ready, now, result, replaced)];
  }

  lemma BackoffStep(n: nat)
    ensures Backoff(n + 1) == Backoff(n) + DelayAfter(n)
  {
  }

  lemma BackoffBounds()
    ensures Backoff(0) == 0 && Backoff(1) == 50 && Backoff(2) == 150 && Backoff(3) == 350 && Backoff(4) == 750
  {
    assert DelayAfter(1) == 100;
    assert DelayAfter(2) == 200;
    assert DelayAfter(3) == 400;
    assert Backoff(2) == 150;
    assert Backoff(3) == 350;
  }

  datatype AttemptEnd = ReadFailed | NothingFound | Tried(result: WriteResult)

  /** How an attempt ends when nobody else writes: it makes twelve calls, a read, ten lookups and the write. */
  function AttemptEndOf(script: seq<Answer<Edit>>, exists_: bool): AttemptEnd {
    if !At(script, 0).refusal.Accepted? then ReadFailed
    else if !exists_ then NothingFound
    else
      match At(script, 11).refusal
      case Accepted => Tried(Written)
      case Conflicts => Tried(Conflict)
      case Fails => Tried(OtherError)
  }

  /** The body of the loop. */
  method ReadAndUpdate(server: Server, now: int) returns (end: AttemptEnd)
    requires server.Valid() && Sound(server.inventories, server.attempts)
    modifies server
    ensures server.Valid() && server.Later() && server.slept == old(server.slept)
    ensures Sound(server.inventories, server.attempts)
    ensures server.script == Drop(old(server.script), if end.Tried? then 12 else 1)
    ensures end.NothingFound? ==> server.wasAbsent
    ensures if end.Tried? then Logged(server, old(server.attempts), end.result)
            else server.attempts == old(server.attempts)
    ensures Still(old(server.script)) ==>
              && server.present == old(server.present)
              && (end != Tried(Written) ==> server.stored == old(server.stored))
              && end == AttemptEndOf(old(server.script), old(server.stored).Some?)
    ensures Still(old(server.script)) && end.Tried? ==>
              var a := server.attempts[|old(server.attempts)|];
              && a.now == now && Some(a.seen) == old(server.stored)
              && FoundIn(server.present, Drop(old(server.script), 1), a.ready)
  {
    hide StatusFrom, NoLostUpdate, Observed, Sound, Still, Quiet, Drop, At, FoundIn;
    ghost var script, before, made := server.script, server.inventories, server.attempts;
    OneCallLater(script, 0);
    OneCallLater(script, 1);
    DropTwice(script, 1, 10);
    DropTwice(script, 1, 11);
    var read := server.Get();
    StaysSound(before, server.inventories, server.attempts);
    if read.ReadError? { return ReadFailed; }
    if read.NotFound? { return NothingFound; }
    ghost var known := server.inventories;
    var result := TryUpdate(server, read.found, now);
    StaysSound(known, server.inventories, made);
    OneMoreSound(server.inventories, server.attempts);
    end := Tried(result);
  }

  /** Whether an attempt ends the loop, and how. */
  function LoopEnd(end: AttemptEnd, k: nat): Option<Outcome> {
    match end
    case ReadFailed => Some(GetFailed)
    case NothingFound => Some(NothingToUpdate)
    case Tried(result) =>
      if result == Written then Some(Updated)
      else if result == Conflict && k < MAX_RETRIES - 1 then None
      else Some(GaveUp(result))
  }

  /** How the loop ends when nobody else writes, from attempt number `k` on. */
  function EndFrom(script: seq<Answer<Edit>>, exists_: bool, k: nat): Outcome
    decreases MAX_RETRIES - k
  {
    var end := LoopEnd(AttemptEndOf(Drop(script, 12 * k), exists_), k);
    if end.Some? then end.value else EndFrom(script, exists_, k + 1)
  }

  lemma LoggedAttempt(server: Server, before: seq<Attempt>, result: WriteResult)
    requires Logged(server, before, result)
    ensures |server.attempts| == |before| + 1 && server.attempts[..|before|] == before
    ensures server.attempts == before + [server.attempts[|before|]]
    ensures server.attempts[|before|].result == result
  {
    hide NoLostUpdate, Observed, StatusFrom;
    assert server.attempts == server.attempts[..|before|] + [server.attempts[|before|]];
  }

  /** Every attempt started from the stored object, at the time of the clock, and saw what there was. */
  ghost predicate AttemptsSaw(attempts: seq<Attempt>, stored: Option<Stored>, present: Inventory,
                              script: seq<Answer<Edit>>, clock: nat -> int) {
    forall i :: 0 <= i < |attempts| ==>
      && attempts[i].now == clock(i) && Some(attempts[i].seen) == stored
      && FoundIn(present, Drop(script, 12 * i + 1), attempts[i].ready)
  }

  /** Besides, how the loop ended, from a store and a script that nobody else interfered with. */
  ghost predicate EndedBy(outcome: Outcome, stored: Option<Stored>, present: Inventory, script: seq<Answer<Edit>>,
                          clock: nat -> int, attempts: seq<Attempt>, stored': Option<Stored>, present': Inventory) {
    && outcome == EndFrom(script, stored.Some?, 0)
    && present' == present && (!outcome.Updated? ==> stored' == stored)
    && AttemptsSaw(attempts, stored, present, script, clock)
  }

  /** The loop before attempt number |attempts|. */
  ghost predicate Undecided(stored: Option<Stored>, present: Inventory, script: seq<Answer<Edit>>, clock: nat -> int,
                            attempts: seq<Attempt>, stored': Option<Stored>, present': Inventory) {
    && EndFrom(script, stored.Some?, 0) == EndFrom(script, stored.Some?, |attempts|)
    && present' == present && stored' == stored
    && AttemptsSaw(attempts, stored, present, script, clock)
  }

  lemma AttemptsSawNext(attempts: seq<Attempt>, a: Attempt, stored: Option<Stored>, present: Inventory,
                        script: seq<Answer<Edit>>, clock: nat -> int)
    requires AttemptsSaw(attempts, stored, present, script, clock)
    requires a.now == clock(|attempts|) && Some(a.seen) == stored
    requires FoundIn(present, Drop(script, 12 * |attempts| + 1), a.ready)
    ensures AttemptsSaw(attempts + [a], stored, present, script, clock)
  {
    hide FoundIn, Drop;
  }

  lemma AfterAttempt(stored: Option<Stored>, present: Inventory, script: seq<Answer<Edit>>, clock: nat -> int,
                     made: seq<Attempt>, end: AttemptEnd, attempts: seq<Attempt>, stored': Option<Stored>,
                     present': Inventory)
    requires Undecided(stored, present, script, clock, made, stored, present)
    requires end == AttemptEndOf(Drop(script, 12 * |made|), stored.Some?)
    requires present' == present && (end != Tried(Written) ==> stored' == stored)
    requires end.Tried? ==>
               && |attempts| == |made| + 1 && attempts == made + [attempts[|made|]]
               && attempts[|made|].now == clock(|made|) && Some(attempts[|made|].seen) == stored
               && FoundIn(present, Drop(script, 12 * |made| + 1), attempts[|made|].ready)
    requires !end.Tried? ==> attempts == made
    ensures var stop := LoopEnd(end, |made|);
            if stop.Some? then EndedBy(stop.value, stored, present, script, clock, attempts, stored', present')
            else Undecided(stored, present, script, clock, attempts, stored', present')
  {
    hide AttemptEndOf, Drop, FoundIn, AttemptsSaw;
    if end.Tried? { AttemptsSawNext(made, attempts[|made|], stored, present, script, clock); }
  }

  /** Every attempt so far lost to another writer. */
  ghost predicate AllLost(attempts: seq<Attempt>) {
    forall i :: 0 <= i < |attempts| ==> attempts[i].result == Conflict
  }

  /** One turn of the loop. */
  method Turn(server: Server, attempt: nat, clock: nat -> int, ghost start: seq<Answer<Edit>>,
              ghost stored: Option<Stored>, ghost present: Inventory, ghost earlier: map<nat, Stored>,
              ghost version: nat, ghost seen: seq<Inventory>)
    returns (end: AttemptEnd)
    requires server.Valid() && Sound(server.inventories, server.attempts)
    requires AllLost(server.attempts) && server.Since(earlier, version, seen)
    requires attempt == |server.attempts| && server.script == Drop(start, 12 * attempt)
    modifies server
    ensures server.Valid() && server.Since(earlier, version, seen) && server.slept == old(server.slept)
    ensures Sound(server.inventories, server.attempts)
    ensures end.Tried? ==> server.script == Drop(start, 12 * |server.attempts|)
    ensures OnlyConflictsRetried(server.attempts) && (end == Tried(Conflict) ==> AllLost(server.attempts))
    ensures end.NothingFound? ==> server.wasAbsent
    ensures if end.Tried? then
              && |server.attempts| == attempt + 1 && server.attempts[attempt].result == end.result
              && Logged(server, server.attempts[..|server.attempts| - 1], end.result)
            else server.attempts == old(server.attempts)
    ensures Still(start)
            && old(Undecided(stored, present, start, clock, server.attempts, server.stored, server.present)) ==>
              var stop := LoopEnd(end, attempt);
              if stop.Some? then
                EndedBy(stop.value, stored, present, start, clock, server.attempts, server.stored, server.present)
              else Undecided(stored, present, start, clock, server.attempts, server.stored, server.present)
  {
    hide Still, Quiet, Drop, At, FoundIn, AttemptEndOf, Logged, EndFrom, Server.Valid, Sound, LoopEnd, EndedBy;
    ghost var made := server.attempts;
    assert Undecided(stored, present, start, clock, made, server.stored, server.present) ==>
             stored == server.stored && present == server.present;
    hide Undecided;
    OneCallLater(start, 12 * |made|);
    DropTwice(start, 12 * |made|, 12);
    DropTwice(start, 12 * |made|, 1);
    end := ReadAndUpdate(server, clock(attempt));
    if end.Tried? { LoggedAttempt(server, made, end.result); }
    if Still(start) && old(Undecided(stored, present, start, clock, server.attempts, server.stored, server.present)) {
      AfterAttempt(stored, present, start, clock, made, end, server.attempts, server.stored, server.present);
    }
  }

  /** How the loop may end. */
  ghost predicate EndsWell(server: Server, outcome: Outcome)
    reads server
  {
    && |server.attempts| <= 5
    && (outcome.NothingToUpdate? ==> server.wasAbsent)
    && (outcome.Updated? ==>
          server.attempts != [] && Logged(server, server.attempts[..|server.attempts| - 1], Written))
    && (outcome.GaveUp? ==>
          && server.attempts != []
          && server.attempts[|server.attempts| - 1].result == outcome.result != Written
          && (outcome.result == Conflict ==> |server.attempts| == 5))
  }

  /** What the loop makes of it: how it ends, or None to try again. */
  method Decide(server: Server, attempt: nat, clock: nat -> int, ghost start: seq<Answer<Edit>>,
                ghost stored: Option<Stored>, ghost present: Inventory, ghost earlier: map<nat, Stored>,
                ghost version: nat, ghost seen: seq<Inventory>)
    returns (stop: Option<Outcome>)
    requires server.Valid() && Sound(server.inventories, server.attempts)
    requires AllLost(server.attempts) && server.Since(earlier, version, seen)
    requires attempt == |server.attempts| < MAX_RETRIES && server.script == Drop(start, 12 * attempt)
    requires Still(start) ==>
               Undecided(stored, present, start, clock, server.attempts, server.stored, server.present)
    modifies server
    ensures server.Valid() && server.Since(earlier, version, seen) && server.slept == old(server.slept)
    ensures Sound(server.inventories, server.attempts) && OnlyConflictsRetried(server.attempts)
    ensures stop.None? ==>
              && attempt + 1 == |server.attempts| < MAX_RETRIES && AllLost(server.attempts)
              && server.script == Drop(start, 12 * |server.attempts|)
              && (Still(start) ==>
                    Undecided(stored, present, start, clock, server.attempts, server.stored, server.present))
    ensures stop.Some? ==>
              && EndsWell(server, stop.value) && CountConflictsSlept(stop.value, |server.attempts|) == attempt
              && (Still(start) ==>
                    EndedBy(stop.value, stored, present, start, clock, server.attempts, server.stored, server.present))
  {
    hide Server.Since, Sound, Still, Quiet, Drop, At, Logged, Server.Valid, Undecided, EndedBy, EndFrom, AttemptsSaw,
         AttemptEndOf, AllLost, OnlyConflictsRetried, NoLostUpdate, Observed, FoundIn, StatusFrom;
    var end := Turn(server, attempt, clock, start, stored, present, earlier, version, seen);
    if end.ReadFailed? { return Some(GetFailed); }
    if end.NothingFound? { return Some(NothingToUpdate); }
    if end.result != Written {
      if attempt == MAX_RETRIES - 1 { return Some(GaveUp(end.result)); }
      if end.result == Conflict { return None; }
      return Some(GaveUp(end.result));
    }
    return Some(Updated);
  }

  /** At most five attempts, and only conflicts are tried again, after a sleep. Without other writers the end is that of
      EndFrom: the answers to reads and writes alone decide it. */
  method UpdateStatusSafely(server: Server, clock: nat -> int) returns (outcome: Outcome)
    requires server.Valid() && server.attempts == [] && server.slept == 0
    modifies server
    ensures server.Valid()
    ensures server.Since(old(server.history), old(server.latest), old(server.inventories))
    ensures EndsWell(server, outcome)
    ensures server.slept == Backoff(CountConflictsSlept(outcome, |server.attempts|)) <= 750
    ensures Sound(server.inventories, server.attempts) && OnlyConflictsRetried(server.attempts)
    ensures Still(old(server.script)) ==>
              EndedBy(outcome, old(server.stored), old(server.present), old(server.script), clock, server.attempts,
                      server.stored, server.present)
  {
    ghost var script, stored, present := server.script, server.stored, server.present;
    ghost var earlier, version, seen := server.history, server.latest, server.inventories;
    NoAttemptsSound(server.inventories);
    assert server.Since(earlier, version, seen) && AllLost(server.attempts);
    assert Undecided(stored, present, script, clock, server.attempts, stored, present);
    BackoffBounds();
    OneCallLater(script, 0);
    hide Backoff, DelayAfter, Server.Since, Sound, Still, Quiet, Drop, At, Logged, Server.Valid, Undecided, EndedBy,
         EndFrom, AttemptsSaw, AttemptEndOf, AllLost, OnlyConflictsRetried, NoLostUpdate, Observed, FoundIn, StatusFrom,
         EndsWell;
    for attempt := 0 to MAX_RETRIES
      invariant server.Valid() && server.Since(earlier, version, seen)
      invariant |server.attempts| == attempt < MAX_RETRIES && server.slept == Backoff(attempt)
      invariant AllLost(server.attempts) && Sound(server.inventories, server.attempts)
      invariant server.script == Drop(script, 12 * |server.attempts|)
      invariant Still(script) ==>
                  Undecided(stored, present, script, clock, server.attempts, server.stored, server.present)
    {
      var stop := Decide(server, attempt, clock, script, stored, present, earlier, version, seen);
      if stop.Some? { return stop.value; }
      BackoffStep(attempt);
      server.slept := server.slept + DelayAfter(attempt);
    }
    assert false; // the source's final return: no run gets here
  }
}
