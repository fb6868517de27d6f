/** Reconciles of several classes over one store: each touches only its own objects, so interleaving does not matter. */
module ClassStore {
  import opened Wrappers
  import opened Api
  import opened Generators
  import opened ClassState
  import opened ClassConvergence

  /** The stored objects the class reconciler reads or writes, by name; namespaced ones live in POD_NAMESPACE. */
  datatype Store = Store(
    singleton: Option<Singleton>,
    classes: map<string, OvercommitClass>,
    deployments: map<string, Deployment>,
    services: map<string, Service>,
    certificates: map<string, Certificate>,
    webhooks: map<string, WebhookConfig>)

  function Lookup<V>(m: map<string, V>, key: string): Option<V> {
    if key in m then Some(m[key]) else None
  }

  /** Reconciling never deletes: an absent object leaves the map alone. */
  function Put<V>(m: map<string, V>, key: string, v: Option<V>): map<string, V> {
    if v.Some? then m[key := v.value] else m
  }

  function CellOf(s: Store, name: string): Cell {
    Cell(Lookup(s.classes, name),
         Lookup(s.deployments, name + WEBHOOK_SUFFIX),
         Lookup(s.services, name + SERVICE_SUFFIX),
         Lookup(s.certificates, name + CERTIFICATE_SUFFIX),
         Lookup(s.webhooks, name + WEBHOOK_SUFFIX))
  }

  function PutCell(s: Store, name: string, cell: Cell): Store {
    s.(classes := Put(s.classes, name, cell.class_),
       deployments := Put(s.deployments, name + WEBHOOK_SUFFIX, cell.deployment),
       services := Put(s.services, name + SERVICE_SUFFIX, cell.service),
       certificates := Put(s.certificates, name + CERTIFICATE_SUFFIX, cell.certificate),
       webhooks := Put(s.webhooks, name + WEBHOOK_SUFFIX, cell.webhook))
  }

  /** The store after Reconcile for the class `name`. */
  function ReconcileStore(s: Store, env: Environment, name: string): Store {
    PutCell(s, name, StepTo(s.singleton, env, CellOf(s, name)))
  }

  /** Stored classes are filed under their names, and stored resources have been through the API server. */
  predicate WellFormed(s: Store) {
    && (forall n <- s.classes :: s.classes[n].name == n)
    && (forall n <- s.deployments :: NormalDeployment(s.deployments[n]) == s.deployments[n])
    && (forall n <- s.services :: NormalService(s.services[n]) == s.services[n])
    && (forall n <- s.certificates :: NormalCertificate(s.certificates[n]) == s.certificates[n])
    && (forall n <- s.webhooks :: NormalWebhookConfig(s.webhooks[n]) == s.webhooks[n])
  }

  // ---------- Names ----------

  lemma NamesDistinct(n: string, m: string)
    requires n != m
    ensures n + WEBHOOK_SUFFIX != m + WEBHOOK_SUFFIX
    ensures n + SERVICE_SUFFIX != m + SERVICE_SUFFIX
    ensures n + CERTIFICATE_SUFFIX != m + CERTIFICATE_SUFFIX
  {
    SuffixInjective(n, m, WEBHOOK_SUFFIX);
    SuffixInjective(n, m, SERVICE_SUFFIX);
    SuffixInjective(n, m, CERTIFICATE_SUFFIX);
  }

  /** A reconcile for one class leaves the objects of every other class alone. */
  lemma ReconcileTouchesOwnCell(s: Store, env: Environment, n: string, m: string)
    requires n != m
    ensures CellOf(ReconcileStore(s, env, n), m) == CellOf(s, m)
    ensures ReconcileStore(s, env, n).singleton == s.singleton
  {
    NamesDistinct(n, m);
    hide StepTo;
  }

  predicate Keeps(before: Cell, after: Cell) {
    && (before.class_.Some? ==> after.class_.Some?)
    && (before.deployment.Some? ==> after.deployment.Some?)
    && (before.service.Some? ==> after.service.Some?)
    && (before.certificate.Some? ==> after.certificate.Some?)
    && (before.webhook.Some? ==> after.webhook.Some?)
  }

  lemma StepKeeps(singleton: Option<Singleton>, env: Environment, cell: Cell)
    ensures Keeps(cell, StepTo(singleton, env, cell))
  {
    hide SyncDeployment, SyncService, SyncCertificate, SyncWebhookConfig, SetController, HasCorrectOwner, RemoveAll;
  }

  lemma PutThenGet(s: Store, n: string, cell: Cell)
    requires Keeps(CellOf(s, n), cell)
    ensures CellOf(PutCell(s, n, cell), n) == cell
  {
  }

  lemma ReconcileOwnCell(s: Store, env: Environment, n: string)
    ensures CellOf(ReconcileStore(s, env, n), n) == StepTo(s.singleton, env, CellOf(s, n))
    ensures ReconcileStore(s, env, n).singleton == s.singleton
  {
    StepKeeps(s.singleton, env, CellOf(s, n));
    PutThenGet(s, n, StepTo(s.singleton, env, CellOf(s, n)));
    hide StepTo, CellOf;
  }

  lemma PutsCommute<V>(a: map<string, V>, n: string, v: Option<V>, m: string, w: Option<V>)
    requires n != m
    ensures Put(Put(a, n, v), m, w) == Put(Put(a, m, w), n, v)
  {
  }

  /** Reconciles of different classes commute. */
  lemma ReconcilesCommute(s: Store, env: Environment, n: string, m: string)
    requires n != m
    ensures ReconcileStore(ReconcileStore(s, env, n), env, m) == ReconcileStore(ReconcileStore(s, env, m), env, n)
  {
    ReconcileTouchesOwnCell(s, env, n, m);
    ReconcileTouchesOwnCell(s, env, m, n);
    NamesDistinct(n, m);
    var a, b := StepTo(s.singleton, env, CellOf(s, n)), StepTo(s.singleton, env, CellOf(s, m));
    hide StepTo, CellOf, Put;
    PutsCommute(s.classes, n, a.class_, m, b.class_);
    PutsCommute(s.deployments, n + WEBHOOK_SUFFIX, a.deployment, m + WEBHOOK_SUFFIX, b.deployment);
    PutsCommute(s.services, n + SERVICE_SUFFIX, a.service, m + SERVICE_SUFFIX, b.service);
    PutsCommute(s.certificates, n + CERTIFICATE_SUFFIX, a.certificate, m + CERTIFICATE_SUFFIX, b.certificate);
    PutsCommute(s.webhooks, n + WEBHOOK_SUFFIX, a.webhook, m + WEBHOOK_SUFFIX, b.webhook);
  }

  // ---------- Schedules ----------

  /** The store after reconciling the named classes in order. */
  function RunSchedule(s: Store, env: Environment, schedule: seq<string>): Store
    decreases |schedule|
  {
    if schedule == [] then s else RunSchedule(ReconcileStore(s, env, schedule[0]), env, schedule[1..])
  }

  function Repeat(s: Store, env: Environment, name: string, n: nat): Store
    decreases n
  {
    if n == 0 then s else Repeat(ReconcileStore(s, env, name), env, name, n - 1)
  }

  function Occurrences(schedule: seq<string>, name: string): nat {
    if schedule == [] then 0 else (if schedule[0] == name then 1 else 0) + Occurrences(schedule[1..], name)
  }

  function Without(schedule: seq<string>, name: string): (rest: seq<string>)
    ensures |rest| <= |schedule|
  {
    if schedule == [] then []
    else if schedule[0] == name then Without(schedule[1..], name)
    else [schedule[0]] + Without(schedule[1..], name)
  }

  lemma {:induction false} RepeatCommutes(s: Store, env: Environment, name: string, n: nat, other: string)
    requires name != other
    ensures Repeat(ReconcileStore(s, env, other), env, name, n) == ReconcileStore(Repeat(s, env, name, n), env, other)
    decreases n
  {
    hide ReconcileStore;
    if n > 0 {
      ReconcilesCommute(s, env, name, other);
      RepeatCommutes(ReconcileStore(s, env, name), env, name, n - 1, other);
    }
  }

  /** All reconciles of one class can be moved to the front of a schedule. */
  lemma {:induction false} PullToFront(s: Store, env: Environment, schedule: seq<string>, name: string)
    ensures RunSchedule(s, env, schedule)
            == RunSchedule(Repeat(s, env, name, Occurrences(schedule, name)), env, Without(schedule, name))
    decreases |schedule|
  {
    hide ReconcileStore;
    if schedule != [] {
      PullToFront(ReconcileStore(s, env, schedule[0]), env, schedule[1..], name);
      if schedule[0] != name {
        RepeatCommutes(s, env, name, Occurrences(schedule[1..], name), schedule[0]);
        assert ([schedule[0]] + Without(schedule[1..], name))[1..] == Without(schedule[1..], name);
      }
    }
  }

  lemma {:induction false} RepeatIsIterate(s: Store, env: Environment, name: string, n: nat)
    ensures CellOf(Repeat(s, env, name, n), name) == Iterate(s.singleton, env, CellOf(s, name), n)
    ensures Repeat(s, env, name, n).singleton == s.singleton
    decreases n
  {
    hide ReconcileStore, StepTo, CellOf;
    if n > 0 {
      ReconcileOwnCell(s, env, name);
      RepeatIsIterate(ReconcileStore(s, env, name), env, name, n - 1);
    }
  }

  lemma PutOwn<V>(m: map<string, V>, key: string)
    ensures Put(m, key, Lookup(m, key)) == m && Put(m, key, None) == m
  {
  }

  lemma PutSame(s: Store, n: string)
    ensures PutCell(s, n, CellOf(s, n)) == s
  {
    assert forall k <- s.classes :: s.classes == s.classes[k := s.classes[k]];
    assert forall k <- s.deployments :: s.deployments == s.deployments[k := s.deployments[k]];
    assert forall k <- s.services :: s.services == s.services[k := s.services[k]];
    assert forall k <- s.certificates :: s.certificates == s.certificates[k := s.certificates[k]];
    assert forall k <- s.webhooks :: s.webhooks == s.webhooks[k := s.webhooks[k]];
  }

  lemma PutClass(s: Store, n: string, c: OvercommitClass)
    ensures PutCell(s, n, CellOf(s, n).(class_ := Some(c))) == s.(classes := s.classes[n := c])
  {
    PutSame(s, n);
  }

  lemma {:induction false} RepeatAdd(s: Store, env: Environment, name: string, m: nat, n: nat)
    ensures Repeat(Repeat(s, env, name, m), env, name, n) == Repeat(s, env, name, m + n)
    decreases m
  {
    hide ReconcileStore;
    if m > 0 { RepeatAdd(ReconcileStore(s, env, name), env, name, m - 1, n); }
  }

  lemma {:induction false} RepeatFixed(s: Store, env: Environment, name: string, n: nat)
    requires ReconcileStore(s, env, name) == s
    ensures Repeat(s, env, name, n) == s
    decreases n
  {
    hide ReconcileStore;
    if n > 0 { RepeatFixed(s, env, name, n - 1); }
  }

  lemma FixedCellFixesStore(t: Store, env: Environment, name: string)
    requires StepTo(t.singleton, env, CellOf(t, name)) == CellOf(t, name)
    ensures ReconcileStore(t, env, name) == t
  {
    PutSame(t, name);
    hide StepTo, CellOf, PutCell;
  }

  /** From the third call on, reconciling one class changes nothing in the store. */
  lemma RepeatSettles(s: Store, env: Environment, name: string, n: nat)
    requires NormalCell(CellOf(s, name)) && n >= 3
    ensures Repeat(s, env, name, n) == Repeat(s, env, name, 3)
  {
    hide StepTo, CellOf, NormalCell, ReconcileStore, Repeat, Iterate;
    var t := Repeat(s, env, name, 3);
    RepeatIsIterate(s, env, name, 3);
    FixedAfterThree(s.singleton, env, CellOf(s, name), 3);
    FixedCellFixesStore(t, env, name);
    RepeatFixed(t, env, name, n - 3);
    RepeatAdd(s, env, name, 3, n - 3);
  }

  // ---------- Confluence ----------

  lemma CellsNormal(s: Store, name: string)
    requires WellFormed(s)
    ensures NormalCell(CellOf(s, name))
  {
    hide NormalDeployment, NormalService, NormalCertificate, NormalWebhookConfig;
  }

  lemma PutCellWellFormed(s: Store, name: string, cell: Cell)
    requires WellFormed(s) && NormalCell(cell)
    requires cell.class_.Some? ==> cell.class_.value.name == name
    ensures WellFormed(PutCell(s, name, cell))
  {
    hide NormalDeployment, NormalService, NormalCertificate, NormalWebhookConfig;
  }

  lemma StepKeepsNoClass(singleton: Option<Singleton>, env: Environment, cell: Cell)
    ensures singleton.None? || cell.class_.None? ==> StepTo(singleton, env, cell) == cell
  {
  }

  lemma WellFormedKept(s: Store, env: Environment, name: string)
    requires WellFormed(s)
    ensures WellFormed(ReconcileStore(s, env, name))
  {
    var cell := CellOf(s, name);
    CellsNormal(s, name);
    StepNormal(s.singleton, env, cell);
    StepKeepsNoClass(s.singleton, env, cell);
    if s.singleton.Some? && cell.class_.Some? { StepKeepsIdentity(s.singleton.value, env, cell); }
    assert cell.class_.Some? ==> cell.class_.value.name == name;
    hide StepTo, CellOf, NormalCell, WellFormed, PutCell;
    PutCellWellFormed(s, name, StepTo(s.singleton, env, cell));
  }

  lemma {:induction false} WellFormedRepeat(s: Store, env: Environment, name: string, n: nat)
    requires WellFormed(s)
    ensures WellFormed(Repeat(s, env, name, n))
    decreases n
  {
    hide WellFormed, ReconcileStore;
    if n > 0 {
      WellFormedKept(s, env, name);
      WellFormedRepeat(ReconcileStore(s, env, name), env, name, n - 1);
    }
  }

  lemma {:induction false} WithoutOccurrences(schedule: seq<string>, name: string, m: string)
    ensures Occurrences(Without(schedule, name), m) == if m == name then 0 else Occurrences(schedule, m)
  {
    if schedule != [] {
      WithoutOccurrences(schedule[1..], name, m);
      if schedule[0] != name {
        assert ([schedule[0]] + Without(schedule[1..], name))[1..] == Without(schedule[1..], name);
      }
    }
  }

  /** A schedule names exactly the classes of a set, each often enough to converge. */
  ghost predicate Covers(schedule: seq<string>, names: set<string>) {
    forall n :: if n in names then Occurrences(schedule, n) >= 3 else Occurrences(schedule, n) == 0
  }

  lemma CoversWithout(schedule: seq<string>, names: set<string>, name: string)
    requires Covers(schedule, names)
    ensures Covers(Without(schedule, name), names - {name})
  {
    forall m ensures Occurrences(Without(schedule, name), m) == if m == name then 0 else Occurrences(schedule, m) {
      WithoutOccurrences(schedule, name, m);
    }
  }

  lemma CoversNobody(schedule: seq<string>)
    requires Covers(schedule, {})
    ensures schedule == []
  {
    if schedule != [] {
      assert Occurrences(schedule, schedule[0]) >= 1;
      assert false;
    }
  }

  lemma CoversMember(schedule: seq<string>, names: set<string>, n: string)
    requires Covers(schedule, names) && n in names
    ensures Occurrences(schedule, n) >= 3
  {
  }

  /** Any two interleavings that let every class converge end in the same store. */
  lemma {:induction false} Confluent(s: Store, env: Environment, a: seq<string>, b: seq<string>, names: set<string>)
    requires WellFormed(s) && Covers(a, names) && Covers(b, names)
    ensures RunSchedule(s, env, a) == RunSchedule(s, env, b)
    decreases |names|
  {
    hide WellFormed, ReconcileStore, Repeat, Without;
    if names == {} {
      CoversNobody(a);
      CoversNobody(b);
    } else {
      hide RunSchedule, Covers;
      var n :| n in names;
      assert Occurrences(a, n) >= 3 && Occurrences(b, n) >= 3 by {
        CoversMember(a, names, n);
        CoversMember(b, names, n);
      }
      PullToFront(s, env, a, n);
      PullToFront(s, env, b, n);
      CellsNormal(s, n);
      RepeatSettles(s, env, n, Occurrences(a, n));
      RepeatSettles(s, env, n, Occurrences(b, n));
      WellFormedRepeat(s, env, n, 3);
      CoversWithout(a, names, n);
      CoversWithout(b, names, n);
      Confluent(Repeat(s, env, n, 3), env, Without(a, n), Without(b, n), names - {n});
    }
  }

  /** In any schedule each class evolves as if it were reconciled alone. */
  lemma {:induction false} EvolvesAlone(s: Store, env: Environment, schedule: seq<string>, name: string)
    ensures CellOf(RunSchedule(s, env, schedule), name)
            == Iterate(s.singleton, env, CellOf(s, name), Occurrences(schedule, name))
    decreases |schedule|
  {
    hide StepTo, CellOf, ReconcileStore;
    if schedule != [] {
      EvolvesAlone(ReconcileStore(s, env, schedule[0]), env, schedule[1..], name);
      if schedule[0] == name {
        ReconcileOwnCell(s, env, name);
      } else {
        ReconcileTouchesOwnCell(s, env, schedule[0], name);
      }
    }
  }

  // ---------- Schedules in which calls fail ----------

  /** The store after Reconcile for the class `name` with the given failure, if any. */
  function ReconcileStoreWith(s: Store, env: Environment, name: string, failure: Option<nat>): Store {
    PutCell(s, name, StepWith(s.singleton, env, CellOf(s, name), failure).0)
  }

  datatype Call = Call(name: string, failure: Option<nat>)

  function RunCallSchedule(s: Store, env: Environment, schedule: seq<Call>): Store {
    if schedule == [] then s
    else
      var last := schedule[|schedule| - 1];
      ReconcileStoreWith(RunCallSchedule(s, env, schedule[..|schedule| - 1]), env, last.name, last.failure)
  }

  /** The calls for one class. */
  function CallsFor(schedule: seq<Call>, name: string): seq<Option<nat>> {
    if schedule == [] then []
    else
      var last := schedule[|schedule| - 1];
      CallsFor(schedule[..|schedule| - 1], name) + if last.name == name then [last.failure] else []
  }

  lemma StepWithKeeps(singleton: Option<Singleton>, env: Environment, cell: Cell, failure: Option<nat>)
    ensures Keeps(cell, StepWith(singleton, env, cell, failure).0)
  {
    if failure.None? { StepKeeps(singleton, env, cell); }
    hide SyncDeployment, SyncService, SyncCertificate, SyncWebhookConfig, Step, HasCorrectOwner;
  }

  lemma CallCells(s: Store, env: Environment, n: string, failure: Option<nat>, m: string)
    ensures CellOf(ReconcileStoreWith(s, env, n, failure), m)
            == if m == n then StepWith(s.singleton, env, CellOf(s, n), failure).0 else CellOf(s, m)
    ensures ReconcileStoreWith(s, env, n, failure).singleton == s.singleton
  {
    if m == n {
      StepWithKeeps(s.singleton, env, CellOf(s, n), failure);
      PutThenGet(s, n, StepWith(s.singleton, env, CellOf(s, n), failure).0);
      hide StepWith, CellOf;
    } else {
      NamesDistinct(n, m);
      hide StepWith;
    }
  }

  lemma {:induction false} CallsEvolveAlone(s: Store, env: Environment, schedule: seq<Call>, name: string)
    ensures CellOf(RunCallSchedule(s, env, schedule), name)
            == RunCalls(s.singleton, env, CellOf(s, name), CallsFor(schedule, name))
    ensures RunCallSchedule(s, env, schedule).singleton == s.singleton
  {
    hide StepWith, CellOf, ReconcileStoreWith;
    if schedule != [] {
      var before, last := schedule[..|schedule| - 1], schedule[|schedule| - 1];
      CallsEvolveAlone(s, env, before, name);
      CallCells(RunCallSchedule(s, env, before), env, last.name, last.failure, name);
      var calls := CallsFor(before, name);
      assert (calls + [last.failure])[..|calls|] == calls;
      assert calls + [] == calls;
    }
  }

  /** In any interleaving, with failures anywhere, a class with three successful calls ends in the state that
      three calls for it alone lead to. */
  lemma ConvergesDespiteFailures(s: Store, env: Environment, schedule: seq<Call>, name: string)
    requires WellFormed(s) && Successes(CallsFor(schedule, name)) >= 3
    ensures CellOf(RunCallSchedule(s, env, schedule), name) == Iterate(s.singleton, env, CellOf(s, name), 3)
  {
    CellsNormal(s, name);
    CallsEvolveAlone(s, env, schedule, name);
    hide NormalCell, CellOf, WellFormed;
    FailuresOnlyDelay(s.singleton, env, CellOf(s, name), CallsFor(schedule, name));
  }

  lemma SameLookups<V>(a: map<string, V>, b: map<string, V>)
    requires forall key :: Lookup(a, key) == Lookup(b, key)
    ensures a == b
  {
    forall key ensures key in a <==> key in b {
      assert Lookup(a, key) == Lookup(b, key);
    }
    forall key | key in a ensures a[key] == b[key] {
      assert Lookup(a, key) == Lookup(b, key);
    }
  }

  /** The keys that a kind of resource has for these classes. */
  predicate IsKeyOf(key: string, names: set<string>, suffix: string) {
    exists n :: n in names && key == n + suffix
  }

  predicate SameElsewhere<V(==)>(a: map<string, V>, b: map<string, V>, names: set<string>, suffix: string) {
    && (forall key <- a :: !IsKeyOf(key, names, suffix) ==> key in b && a[key] == b[key])
    && (forall key <- b :: !IsKeyOf(key, names, suffix) ==> key in a)
  }

  /** Two stores differ in the objects of these classes only. */
  predicate DifferWithin(s: Store, t: Store, names: set<string>) {
    && s.singleton == t.singleton
    && SameElsewhere(s.classes, t.classes, names, "")
    && SameElsewhere(s.deployments, t.deployments, names, WEBHOOK_SUFFIX)
    && SameElsewhere(s.services, t.services, names, SERVICE_SUFFIX)
    && SameElsewhere(s.certificates, t.certificates, names, CERTIFICATE_SUFFIX)
    && SameElsewhere(s.webhooks, t.webhooks, names, WEBHOOK_SUFFIX)
  }

  lemma PutWithin<V>(a: map<string, V>, b: map<string, V>, names: set<string>, suffix: string, name: string,
                     v: Option<V>)
    requires SameElsewhere(a, b, names, suffix) && name in names
    ensures SameElsewhere(a, Put(b, name + suffix, v), names, suffix)
  {
    assert IsKeyOf(name + suffix, names, suffix);
    hide IsKeyOf;
  }

  lemma CallWithin(s: Store, t: Store, env: Environment, names: set<string>, name: string, failure: Option<nat>)
    requires DifferWithin(s, t, names) && name in names
    ensures DifferWithin(s, ReconcileStoreWith(t, env, name, failure), names)
  {
    var cell := StepWith(t.singleton, env, CellOf(t, name), failure).0;
    assert name + "" == name;
    PutWithin(s.classes, t.classes, names, "", name, cell.class_);
    PutWithin(s.deployments, t.deployments, names, WEBHOOK_SUFFIX, name, cell.deployment);
    PutWithin(s.services, t.services, names, SERVICE_SUFFIX, name, cell.service);
    PutWithin(s.certificates, t.certificates, names, CERTIFICATE_SUFFIX, name, cell.certificate);
    PutWithin(s.webhooks, t.webhooks, names, WEBHOOK_SUFFIX, name, cell.webhook);
    hide StepWith, CellOf, SameElsewhere, Put;
  }

  lemma SameAsItself<V>(a: map<string, V>, names: set<string>, suffix: string)
    ensures SameElsewhere(a, a, names, suffix)
  {
  }

  lemma {:induction false} ScheduleWithin(s: Store, env: Environment, schedule: seq<Call>, names: set<string>)
    requires forall i :: 0 <= i < |schedule| ==> schedule[i].name in names
    ensures DifferWithin(s, RunCallSchedule(s, env, schedule), names)
  {
    hide ReconcileStoreWith, SameElsewhere;
    if schedule == [] {
      SameAsItself(s.classes, names, "");
      SameAsItself(s.deployments, names, WEBHOOK_SUFFIX);
      SameAsItself(s.services, names, SERVICE_SUFFIX);
      SameAsItself(s.certificates, names, CERTIFICATE_SUFFIX);
      SameAsItself(s.webhooks, names, WEBHOOK_SUFFIX);
    } else {
      hide DifferWithin;
      var before, last := schedule[..|schedule| - 1], schedule[|schedule| - 1];
      ScheduleWithin(s, env, before, names);
      CallWithin(s, RunCallSchedule(s, env, before), env, names, last.name, last.failure);
    }
  }

  lemma SameEverywhere<V>(s: map<string, V>, a: map<string, V>, b: map<string, V>, names: set<string>, suffix: string)
    requires SameElsewhere(s, a, names, suffix) && SameElsewhere(s, b, names, suffix)
    requires forall n <- names :: Lookup(a, n + suffix) == Lookup(b, n + suffix)
    ensures a == b
  {
    forall key ensures Lookup(a, key) == Lookup(b, key) {
      if IsKeyOf(key, names, suffix) {
        var n :| n in names && key == n + suffix;
        assert Lookup(a, n + suffix) == Lookup(b, n + suffix);
      }
    }
    SameLookups(a, b);
  }

  lemma SameCellsSameStore(s: Store, a: Store, b: Store, names: set<string>)
    requires DifferWithin(s, a, names) && DifferWithin(s, b, names)
    requires forall n <- names :: CellOf(a, n) == CellOf(b, n)
    ensures a == b
  {
    hide SameElsewhere;
    forall n | n in names
      ensures Lookup(a.classes, n + "") == Lookup(b.classes, n + "")
      ensures Lookup(a.deployments, n + WEBHOOK_SUFFIX) == Lookup(b.deployments, n + WEBHOOK_SUFFIX)
      ensures Lookup(a.services, n + SERVICE_SUFFIX) == Lookup(b.services, n + SERVICE_SUFFIX)
      ensures Lookup(a.certificates, n + CERTIFICATE_SUFFIX) == Lookup(b.certificates, n + CERTIFICATE_SUFFIX)
      ensures Lookup(a.webhooks, n + WEBHOOK_SUFFIX) == Lookup(b.webhooks, n + WEBHOOK_SUFFIX)
    {
      assert CellOf(a, n) == CellOf(b, n);
      assert n + "" == n;
    }
    SameEverywhere(s.classes, a.classes, b.classes, names, "");
    SameEverywhere(s.deployments, a.deployments, b.deployments, names, WEBHOOK_SUFFIX);
    SameEverywhere(s.services, a.services, b.services, names, SERVICE_SUFFIX);
    SameEverywhere(s.certificates, a.certificates, b.certificates, names, CERTIFICATE_SUFFIX);
    SameEverywhere(s.webhooks, a.webhooks, b.webhooks, names, WEBHOOK_SUFFIX);
  }

  /** A schedule of calls for exactly these classes, each with three successful ones. */
  predicate Serves(schedule: seq<Call>, names: set<string>) {
    && (forall i :: 0 <= i < |schedule| ==> schedule[i].name in names)
    && (forall n <- names :: Successes(CallsFor(schedule, n)) >= 3)
  }

  /** Any two interleavings, with failures anywhere, that give every class three successful calls end in the same
      store. */
  lemma ConfluentDespiteFailures(s: Store, env: Environment, a: seq<Call>, b: seq<Call>, names: set<string>)
    requires WellFormed(s) && Serves(a, names) && Serves(b, names)
    ensures RunCallSchedule(s, env, a) == RunCallSchedule(s, env, b)
  {
    ScheduleWithin(s, env, a, names);
    ScheduleWithin(s, env, b, names);
    hide WellFormed, RunCallSchedule, CellOf, Iterate, DifferWithin;
    forall n | n in names
      ensures CellOf(RunCallSchedule(s, env, a), n) == CellOf(RunCallSchedule(s, env, b), n)
    {
      ConvergesDespiteFailures(s, env, a, n);
      ConvergesDespiteFailures(s, env, b, n);
    }
    SameCellsSameStore(s, RunCallSchedule(s, env, a), RunCallSchedule(s, env, b), names);
  }
}
