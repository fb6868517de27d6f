/** Admission of OvercommitClass objects (api/v1alphav1/overcommitclass_webhook.go, webhook_validations.go)
    and the invariant it keeps on the stored classes.

    Regular expressions are not interpreted: `compiles` says which patterns regexp.Compile accepts. */
module ClassAdmission {
  import opened Wrappers
  import opened Float64
  import opened Ratios
  import opened Api
  import opened ClassState
  import opened ClassConvergence
  import Generators

  datatype Reason =
    | ListFailed | SecondDefault
    | CpuOutOfRange | MemoryOutOfRange
    | CpuDecimals | MemoryDecimals
    | PatternTooLong | PatternInvalid

  datatype Verdict = Allowed | Denied(reason: Reason)

  type Classes = map<string, OvercommitClass>

  const MAX_PATTERN_LENGTH: nat := 512

  // ---------- The checks ----------

  /** isClassDefault; a listing of None stands for a failing List call. */
  function DefaultVerdict(c: OvercommitClass, listing: Option<seq<OvercommitClass>>): Verdict {
    if listing.None? then Denied(ListFailed)
    else if c.spec.isDefault && exists i :: 0 <= i < |listing.value| && listing.value[i].spec.isDefault then
      Denied(SecondDefault)
    else Allowed
  }

  method IsClassDefault(c: OvercommitClass, listing: Option<seq<OvercommitClass>>) returns (verdict: Verdict)
    ensures verdict == DefaultVerdict(c, listing)
  {
    if listing.None? { return Denied(ListFailed); }
    var items := listing.value;
    var existsDefault := false;
    if c.spec.isDefault {
      for i := 0 to |items|
        invariant existsDefault <==> exists j :: 0 <= j < i && items[j].spec.isDefault
      {
        if items[i].spec.isDefault { existsDefault := true; }
      }
    }
    if existsDefault { return Denied(SecondDefault); }
    return Allowed;
  }

  function SpecVerdict(compiles: string -> bool, spec: ClassSpec): Verdict {
    if !InRange(spec.cpuOvercommit) then Denied(CpuOutOfRange)
    else if !InRange(spec.memoryOvercommit) then Denied(MemoryOutOfRange)
    else if !FourDecimals(spec.cpuOvercommit) then Denied(CpuDecimals)
    else if !FourDecimals(spec.memoryOvercommit) then Denied(MemoryDecimals)
    else if |spec.excludedNamespaces| > MAX_PATTERN_LENGTH then Denied(PatternTooLong)
    else if !compiles(spec.excludedNamespaces) then Denied(PatternInvalid)
    else Allowed
  }

  function ValidateCreate(compiles: string -> bool, listing: Option<seq<OvercommitClass>>,
                          c: OvercommitClass): Verdict {
    var byDefault := DefaultVerdict(c, listing);
    if byDefault.Denied? then byDefault else SpecVerdict(compiles, c.spec)
  }

  function ValidateUpdate(compiles: string -> bool, listing: Option<seq<OvercommitClass>>,
                          existing: OvercommitClass, c: OvercommitClass): Verdict {
    var byDefault := if existing.spec.isDefault then Allowed else DefaultVerdict(c, listing);
    if byDefault.Denied? then byDefault else SpecVerdict(compiles, c.spec)
  }

  // ---------- Requests ----------

  datatype Request = Create(c: OvercommitClass) | Update(c: OvercommitClass) | Delete(name: string)

  /** The schema of the custom resource: both ratios are doubles from 0.0001 to 1. */
  predicate SchemaValid(spec: ClassSpec) {
    && Fl(spec.cpuOvercommit) == spec.cpuOvercommit && Fl(0.0001) <= spec.cpuOvercommit <= 1.0
    && Fl(spec.memoryOvercommit) == spec.memoryOvercommit && Fl(0.0001) <= spec.memoryOvercommit <= 1.0
  }

  /** A listing shows every stored class, in any order. */
  ghost predicate Lists(items: seq<OvercommitClass>, classes: Classes) {
    && (forall i :: 0 <= i < |items| ==> items[i].name in classes && classes[items[i].name] == items[i])
    && (forall n <- classes :: exists i :: 0 <= i < |items| && items[i] == classes[n])
  }

  /** The validator's verdict on a request, given the store it goes to and a listing. */
  function VerdictOn(compiles: string -> bool, classes: Classes, listing: Option<seq<OvercommitClass>>,
                     r: Request): Verdict {
    match r
    case Delete(_) => Allowed
    case Create(c) => ValidateCreate(compiles, listing, c)
    case Update(c) => if c.name in classes then ValidateUpdate(compiles, listing, classes[c.name], c) else Allowed
  }

  /** Creating an existing name and updating a missing one fail in the API server. */
  predicate Commits(compiles: string -> bool, classes: Classes, listing: Option<seq<OvercommitClass>>, r: Request) {
    && VerdictOn(compiles, classes, listing, r).Allowed?
    && (r.Create? ==> r.c.name != "" && r.c.name !in classes && SchemaValid(r.c.spec))
    && (r.Update? ==> r.c.name in classes && SchemaValid(r.c.spec))
  }

  /** The store after one request; a refused request changes nothing. */
  function Commit(compiles: string -> bool, classes: Classes, listing: Option<seq<OvercommitClass>>,
                  r: Request): Classes {
    if !Commits(compiles, classes, listing, r) then classes
    else if r.Delete? then classes - {r.name}
    else classes[r.c.name := r.c]
  }

  // ---------- The invariant ----------

  ghost predicate AtMostOneDefault(classes: Classes) {
    forall n, m :: n in classes && m in classes && classes[n].spec.isDefault && classes[m].spec.isDefault ==> n == m
  }

  predicate ValidSpec(compiles: string -> bool, spec: ClassSpec) {
    && Admitted(spec.cpuOvercommit) && Admitted(spec.memoryOvercommit)
    && |spec.excludedNamespaces| <= MAX_PATTERN_LENGTH && compiles(spec.excludedNamespaces)
  }

  ghost predicate ValidClasses(compiles: string -> bool, classes: Classes) {
    && AtMostOneDefault(classes)
    && forall n <- classes :: n != "" && classes[n].name == n && ValidSpec(compiles, classes[n].spec)
  }

  lemma SpecVerdictExact(compiles: string -> bool, spec: ClassSpec)
    ensures SchemaValid(spec) && SpecVerdict(compiles, spec).Allowed? <==> ValidSpec(compiles, spec)
  {
    NormalRange(0.0001);
    hide Fl, FourDecimals;
  }

  /** Why a spec is refused: the first of these that applies. */
  lemma SpecVerdictReasons(compiles: string -> bool, spec: ClassSpec)
    ensures var cpu, memory, pattern := spec.cpuOvercommit, spec.memoryOvercommit, spec.excludedNamespaces;
            match SpecVerdict(compiles, spec)
            case Allowed =>
              && 0.0 < cpu <= 1.0 && 0.0 < memory <= 1.0 && FourDecimals(cpu) && FourDecimals(memory)
              && |pattern| <= 512 && compiles(pattern)
            case Denied(CpuOutOfRange) => !(0.0 < cpu <= 1.0)
            case Denied(MemoryOutOfRange) => 0.0 < cpu <= 1.0 && !(0.0 < memory <= 1.0)
            case Denied(CpuDecimals) => !FourDecimals(cpu)
            case Denied(MemoryDecimals) => !FourDecimals(memory)
            case Denied(PatternTooLong) => |pattern| > 512
            case Denied(PatternInvalid) => |pattern| <= 512 && !compiles(pattern)
            case Denied(_) => false
  {
    hide FourDecimals;
  }

  lemma SomeDefaultListed(items: seq<OvercommitClass>, classes: Classes)
    requires Lists(items, classes)
    ensures (exists i :: 0 <= i < |items| && items[i].spec.isDefault) <==>
            exists n :: n in classes && classes[n].spec.isDefault
  {
    if n :| n in classes && classes[n].spec.isDefault {
      var i :| 0 <= i < |items| && items[i] == classes[n];
    }
    if i :| 0 <= i < |items| && items[i].spec.isDefault {
      assert items[i].name in classes && classes[items[i].name].spec.isDefault;
    }
  }

  /** The validator on a listing of the store: a create is allowed exactly for a valid spec that adds no second
      default, an update exactly for one that adds none either or was the default before. */
  lemma VerdictExact(compiles: string -> bool, classes: Classes, items: seq<OvercommitClass>, existing: OvercommitClass,
                     c: OvercommitClass)
    requires Lists(items, classes) && SchemaValid(c.spec)
    ensures ValidateCreate(compiles, Some(items), c).Allowed? <==>
            ValidSpec(compiles, c.spec) && (c.spec.isDefault ==> forall n <- classes :: !classes[n].spec.isDefault)
    ensures ValidateUpdate(compiles, Some(items), existing, c).Allowed? <==>
            && ValidSpec(compiles, c.spec)
            && (c.spec.isDefault && !existing.spec.isDefault ==> forall n <- classes :: !classes[n].spec.isDefault)
  {
    SpecVerdictExact(compiles, c.spec);
    SomeDefaultListed(items, classes);
    hide SpecVerdict, ValidSpec, SchemaValid, Lists;
  }

  lemma PutKeepsValid(compiles: string -> bool, classes: Classes, c: OvercommitClass)
    requires ValidClasses(compiles, classes) && c.name != "" && ValidSpec(compiles, c.spec)
    requires c.spec.isDefault ==> forall n <- classes :: n != c.name ==> !classes[n].spec.isDefault
    ensures ValidClasses(compiles, classes[c.name := c])
  {
    hide ValidSpec;
  }

  lemma NoDefaultListed(c: OvercommitClass, classes: Classes, items: seq<OvercommitClass>)
    requires Lists(items, classes) && DefaultVerdict(c, Some(items)).Allowed? && c.spec.isDefault
    ensures forall n <- classes :: !classes[n].spec.isDefault
  {
    forall n | n in classes ensures !classes[n].spec.isDefault {
      var i :| 0 <= i < |items| && items[i] == classes[n];
    }
  }

  lemma CreateKeepsValid(compiles: string -> bool, classes: Classes, items: seq<OvercommitClass>, c: OvercommitClass)
    requires ValidClasses(compiles, classes) && Lists(items, classes)
    requires c.name != "" && SchemaValid(c.spec) && ValidateCreate(compiles, Some(items), c).Allowed?
    ensures ValidClasses(compiles, classes[c.name := c])
  {
    SpecVerdictExact(compiles, c.spec);
    hide SpecVerdict, ValidSpec, SchemaValid, ValidClasses, Lists;
    if c.spec.isDefault { NoDefaultListed(c, classes, items); }
    PutKeepsValid(compiles, classes, c);
  }

  lemma UpdateKeepsValid(compiles: string -> bool, classes: Classes, items: seq<OvercommitClass>, c: OvercommitClass)
    requires ValidClasses(compiles, classes) && Lists(items, classes) && c.name in classes
    requires c.name != "" && SchemaValid(c.spec) && ValidateUpdate(compiles, Some(items), classes[c.name], c).Allowed?
    ensures ValidClasses(compiles, classes[c.name := c])
  {
    SpecVerdictExact(compiles, c.spec);
    hide SpecVerdict, ValidSpec, SchemaValid, Lists;
    if c.spec.isDefault && !classes[c.name].spec.isDefault { NoDefaultListed(c, classes, items); }
    PutKeepsValid(compiles, classes, c);
  }

  /** Every request keeps the invariant, whatever order the classes are listed in. */
  lemma CommitKeepsValid(compiles: string -> bool, classes: Classes, items: seq<OvercommitClass>, r: Request)
    requires ValidClasses(compiles, classes) && Lists(items, classes)
    ensures ValidClasses(compiles, Commit(compiles, classes, Some(items), r))
  {
    hide SchemaValid, ValidateCreate, ValidateUpdate, ValidSpec, Lists;
    match r
    case Delete(_) =>
    case Create(c) =>
      hide AtMostOneDefault;
      if Commit(compiles, classes, Some(items), r) != classes { CreateKeepsValid(compiles, classes, items, c); }
    case Update(c) =>
      hide AtMostOneDefault;
      if Commit(compiles, classes, Some(items), r) != classes { UpdateKeepsValid(compiles, classes, items, c); }
  }

  datatype ListedRequest = ListedRequest(request: Request, items: seq<OvercommitClass>)

  function CommitAll(compiles: string -> bool, classes: Classes, run: seq<ListedRequest>): Classes
    decreases |run|
  {
    if run == [] then classes
    else CommitAll(compiles, Commit(compiles, classes, Some(run[0].items), run[0].request), run[1..])
  }

  /** Each request of the run is checked against a listing of the store it commits to. */
  ghost predicate Atomic(compiles: string -> bool, classes: Classes, run: seq<ListedRequest>)
    decreases |run|
  {
    run == [] || (Lists(run[0].items, classes)
                  && Atomic(compiles, Commit(compiles, classes, Some(run[0].items), run[0].request), run[1..]))
  }

  lemma {:induction false} AtomicRunFrom(compiles: string -> bool, classes: Classes, run: seq<ListedRequest>)
    requires ValidClasses(compiles, classes) && Atomic(compiles, classes, run)
    ensures ValidClasses(compiles, CommitAll(compiles, classes, run))
    decreases |run|
  {
    hide ValidClasses, Commit;
    if run != [] {
      CommitKeepsValid(compiles, classes, run[0].items, run[0].request);
      AtomicRunFrom(compiles, Commit(compiles, classes, Some(run[0].items), run[0].request), run[1..]);
    }
  }

  /** After any run of atomic admissions from an empty store, at most one class is default and every class is valid. */
  lemma AtomicRunsStayValid(compiles: string -> bool, run: seq<ListedRequest>)
    requires Atomic(compiles, map[], run)
    ensures ValidClasses(compiles, CommitAll(compiles, map[], run))
  {
    AtomicRunFrom(compiles, map[], run);
  }

  function TargetOf(r: Request): string {
    if r.Delete? then r.name else r.c.name
  }

  /** A request that commits changes one class: it is stored as requested, or gone. */
  lemma CommitChangesOne(compiles: string -> bool, classes: Classes, listing: Option<seq<OvercommitClass>>, r: Request,
                         n: string)
    ensures var next := Commit(compiles, classes, listing, r);
            if Commits(compiles, classes, listing, r) && n == TargetOf(r) then
              if r.Delete? then n !in next else n in next && next[n] == r.c
            else (n in next <==> n in classes) && (n in next ==> next[n] == classes[n])
  {
    hide Commits;
  }

  // ---------- Consequences ----------

  /** A metadata-only update of a stored class is refused exactly when the classes cannot be listed and the
      class is not the default. */
  lemma MetadataUpdateAllowed(compiles: string -> bool, classes: Classes, listing: Option<seq<OvercommitClass>>,
                              c: OvercommitClass)
    requires ValidClasses(compiles, classes) && c.name in classes && c.spec == classes[c.name].spec
    ensures ValidateUpdate(compiles, listing, classes[c.name], c)
            == if listing.None? && !c.spec.isDefault then Denied(ListFailed) else Allowed
    ensures listing.Some? ==> Commit(compiles, classes, listing, Update(c)) == classes[c.name := c]
  {
    SpecVerdictExact(compiles, c.spec);
    hide SpecVerdict, ValidSpec, SchemaValid;
  }

  /** So the validator admits every update the class reconciler makes. */
  lemma ReconcilerUpdateAllowed(compiles: string -> bool, classes: Classes, items: seq<OvercommitClass>,
                                oc: Singleton, env: Generators.Environment, cell: Cell)
    requires ValidClasses(compiles, classes)
    requires cell.class_.Some? && cell.class_.value.name in classes
    requires classes[cell.class_.value.name] == cell.class_.value
    ensures var next := StepTo(Some(oc), env, cell).class_;
            next.Some? && ValidateUpdate(compiles, Some(items), cell.class_.value, next.value) == Allowed
  {
    StepKeepsIdentity(oc, env, cell);
    MetadataUpdateAllowed(compiles, classes, Some(items), StepTo(Some(oc), env, cell).class_.value);
  }

  // ---------- Requests checked against one store and committed to another ----------

  ghost predicate OtherDefault(classes: Classes, name: string) {
    exists n :: n in classes && n != name && classes[n].spec.isDefault
  }

  /** An allowed create, or an allowed update that turns a class into a default, commits while another class
      is the default. */
  ghost predicate AddsSecondDefault(compiles: string -> bool, classes: Classes, items: seq<OvercommitClass>,
                                    r: Request) {
    && Commits(compiles, classes, Some(items), r)
    && match r
       case Delete(_) => false
       case Create(c) => c.spec.isDefault && OtherDefault(classes, c.name)
       case Update(c) => c.spec.isDefault && !classes[c.name].spec.isDefault && OtherDefault(classes, c.name)
  }

  lemma PutKeepsOneDefaultIff(classes: Classes, c: OvercommitClass)
    requires AtMostOneDefault(classes)
    ensures AtMostOneDefault(classes[c.name := c]) <==>
            !c.spec.isDefault || (c.name in classes && classes[c.name].spec.isDefault) || !OtherDefault(classes, c.name)
  {
    var next := classes[c.name := c];
    if c.spec.isDefault && OtherDefault(classes, c.name) {
      var n :| n in classes && n != c.name && classes[n].spec.isDefault;
      assert n in next && next[n].spec.isDefault && next[c.name].spec.isDefault;
    }
  }

  lemma DeleteKeepsOneDefault(classes: Classes, name: string)
    requires AtMostOneDefault(classes)
    ensures AtMostOneDefault(classes - {name})
  {
  }

  /** One request keeps the invariant unless it adds a second default, whatever listing it was checked against. */
  lemma CommitKeepsOneDefaultIff(compiles: string -> bool, classes: Classes, items: seq<OvercommitClass>, r: Request)
    requires AtMostOneDefault(classes)
    ensures AtMostOneDefault(Commit(compiles, classes, Some(items), r)) <==>
            !AddsSecondDefault(compiles, classes, items, r)
  {
    hide AtMostOneDefault, OtherDefault, SchemaValid, ValidateCreate, ValidateUpdate;
    match r
    case Delete(name) => DeleteKeepsOneDefault(classes, name);
    case Create(c) => PutKeepsOneDefaultIff(classes, c);
    case Update(c) => PutKeepsOneDefaultIff(classes, c);
  }

  lemma SpecNeverSecondDefault(compiles: string -> bool, spec: ClassSpec)
    ensures SpecVerdict(compiles, spec) != Denied(SecondDefault)
  {
  }

  /** Such a request is one that the validator allowed on the listing it saw and would have refused on a listing
      of the store it commits to. */
  lemma SecondDefaultIsStaleVerdict(compiles: string -> bool, classes: Classes, seen: seq<OvercommitClass>,
                                    current: seq<OvercommitClass>, r: Request)
    requires Lists(current, classes) && forall n <- classes :: classes[n].name == n
    ensures AddsSecondDefault(compiles, classes, seen, r) <==>
            Commits(compiles, classes, Some(seen), r)
            && VerdictOn(compiles, classes, Some(current), r) == Denied(SecondDefault)
  {
    SomeDefaultListed(current, classes);
    hide Lists, SpecVerdict, SchemaValid;
    if !r.Delete? {
      assert OtherDefault(classes, r.c.name) ==> exists n :: n in classes && classes[n].spec.isDefault;
      if n :| n in classes && classes[n].spec.isDefault {
        assert n != r.c.name ==> OtherDefault(classes, r.c.name);
      }
      SpecNeverSecondDefault(compiles, r.c.spec);
    }
  }

  /** At most one default in every store of a run. */
  ghost predicate AlwaysOneDefault(compiles: string -> bool, classes: Classes, run: seq<ListedRequest>)
    decreases |run|
  {
    AtMostOneDefault(classes)
    && (run != [] ==>
          AlwaysOneDefault(compiles, Commit(compiles, classes, Some(run[0].items), run[0].request), run[1..]))
  }

  ghost predicate NeverSecondDefault(compiles: string -> bool, classes: Classes, run: seq<ListedRequest>)
    decreases |run|
  {
    run != [] ==>
      && !AddsSecondDefault(compiles, classes, run[0].items, run[0].request)
      && NeverSecondDefault(compiles, Commit(compiles, classes, Some(run[0].items), run[0].request), run[1..])
  }

  /** Over any run, with any listings, old or new: there is never more than one default exactly when no allowed
      create and no allowed update to default commits while another class is the default. */
  lemma {:induction false} SplitRunsKeepOneDefaultIff(compiles: string -> bool, classes: Classes,
                                                      run: seq<ListedRequest>)
    requires AtMostOneDefault(classes)
    ensures AlwaysOneDefault(compiles, classes, run) <==> NeverSecondDefault(compiles, classes, run)
    decreases |run|
  {
    hide AtMostOneDefault, Commit, AddsSecondDefault;
    if run != [] {
      CommitKeepsOneDefaultIff(compiles, classes, run[0].items, run[0].request);
      var next := Commit(compiles, classes, Some(run[0].items), run[0].request);
      if AtMostOneDefault(next) { SplitRunsKeepOneDefaultIff(compiles, next, run[1..]); }
    }
  }

  /** Each request is checked against a listing of some store the run has been through. */
  ghost predicate Split(compiles: string -> bool, past: seq<Classes>, classes: Classes, run: seq<ListedRequest>)
    decreases |run|
  {
    run != [] ==>
      && (exists i :: 0 <= i < |past| && Lists(run[0].items, past[i]))
      && var next := Commit(compiles, classes, Some(run[0].items), run[0].request);
         Split(compiles, past + [next], next, run[1..])
  }

  lemma OneIsAdmitted()
    ensures Admitted(1.0)
  {
    hide Fl, Admitted;
    FlInteger(1);
    FourDecimalsAdmitted(10000);
  }

  function Plain(isDefault: bool): ClassSpec {
    ClassSpec(1.0, 1.0, "", isDefault, None, None, None, None)
  }

  function Named(name: string, isDefault: bool): OvercommitClass {
    OvercommitClass(name, name, [], [], Plain(isDefault))
  }

  lemma PlainAllowed(compiles: string -> bool, isDefault: bool)
    requires compiles("")
    ensures SchemaValid(Plain(isDefault)) && SpecVerdict(compiles, Plain(isDefault)) == Allowed
  {
    OneIsAdmitted();
    SpecVerdictExact(compiles, Plain(isDefault));
    hide Admitted, SpecVerdict, SchemaValid;
  }

  /** Plain classes are admitted unless a default is listed. */
  lemma AllowedCommits(compiles: string -> bool, classes: Classes, items: seq<OvercommitClass>, c: OvercommitClass)
    requires c.name != "" && SchemaValid(c.spec)
    requires DefaultVerdict(c, Some(items)) == Allowed && SpecVerdict(compiles, c.spec) == Allowed
    ensures c.name !in classes ==> Commit(compiles, classes, Some(items), Create(c)) == classes[c.name := c]
    ensures c.name in classes ==> Commit(compiles, classes, Some(items), Update(c)) == classes[c.name := c]
  {
    hide SpecVerdict, SchemaValid, DefaultVerdict;
  }

  lemma PlainCommits(compiles: string -> bool, classes: Classes, items: seq<OvercommitClass>, name: string,
                     isDefault: bool)
    requires compiles("") && name != "" && (isDefault ==> forall i :: 0 <= i < |items| ==> !items[i].spec.isDefault)
    ensures name !in classes ==> Commit(compiles, classes, Some(items), Create(Named(name, isDefault)))
                                 == classes[name := Named(name, isDefault)]
    ensures name in classes ==> Commit(compiles, classes, Some(items), Update(Named(name, isDefault)))
                                == classes[name := Named(name, isDefault)]
  {
    hide SpecVerdict, SchemaValid, Commit;
    PlainAllowed(compiles, isDefault);
    AllowedCommits(compiles, classes, items, Named(name, isDefault));
  }

  lemma TwoDefaults(classes: Classes, a: string, b: string)
    requires a != b && a in classes && b in classes && classes[a].spec.isDefault && classes[b].spec.isDefault
    ensures !AtMostOneDefault(classes)
  {
  }

  lemma NamedSpec(name: string, isDefault: bool)
    ensures Named(name, isDefault).spec == Plain(isDefault) && Named(name, isDefault).name == name
  {
  }

  lemma SplitTwo(compiles: string -> bool, s0: Classes, s1: Classes, r0: ListedRequest, r1: ListedRequest)
    requires Commit(compiles, s0, Some(r0.items), r0.request) == s1 && Lists(r0.items, s0) && Lists(r1.items, s0)
    ensures Split(compiles, [s0], s0, [r0, r1])
    ensures CommitAll(compiles, s0, [r0, r1]) == Commit(compiles, s1, Some(r1.items), r1.request)
  {
    hide Commit, Lists;
    assert [r0, r1][1..] == [r1] && [r1][1..] == [];
    assert [s0][0] == s0;
    assert [s0] + [s1] == [s0, s1] && [s0, s1][0] == s0;
    assert Split(compiles, [s0, s1], s1, [r1]);
    assert CommitAll(compiles, s1, [r1]) == Commit(compiles, s1, Some(r1.items), r1.request);
  }

  /** Two defaults, each created against the empty store that neither saw the other's commit in. */
  lemma SplitCreatesAllowTwoDefaults(compiles: string -> bool)
    requires compiles("")
    ensures var run := [ListedRequest(Create(Named("a", true)), []), ListedRequest(Create(Named("b", true)), [])];
            && Split(compiles, [map[]], map[], run)
            && CommitAll(compiles, map[], run) == map["a" := Named("a", true), "b" := Named("b", true)]
            && !AtMostOneDefault(CommitAll(compiles, map[], run))
  {
    hide Commit, AtMostOneDefault, Named;
    var a, b := Named("a", true), Named("b", true);
    var s0: Classes, s1, s2 := map[], map["a" := a], map["a" := a, "b" := b];
    PlainCommits(compiles, s0, [], "a", true);
    PlainCommits(compiles, s1, [], "b", true);
    assert s1["b" := b] == s2;
    SplitTwo(compiles, s0, s1, ListedRequest(Create(a), []), ListedRequest(Create(b), []));
    assert a.spec.isDefault && b.spec.isDefault by { NamedSpec("a", true); NamedSpec("b", true); }
    TwoDefaults(s2, "a", "b");
  }

  lemma SplitThree(compiles: string -> bool, s0: Classes, s1: Classes, s2: Classes,
                   r0: ListedRequest, r1: ListedRequest, r2: ListedRequest)
    requires Commit(compiles, s0, Some(r0.items), r0.request) == s1
    requires Commit(compiles, s1, Some(r1.items), r1.request) == s2
    requires Lists(r0.items, s0) && Lists(r1.items, s1) && Lists(r2.items, s1)
    ensures Split(compiles, [s0], s0, [r0, r1, r2])
    ensures CommitAll(compiles, s0, [r0, r1, r2]) == Commit(compiles, s2, Some(r2.items), r2.request)
  {
    hide Commit, Lists;
    var s3 := Commit(compiles, s2, Some(r2.items), r2.request);
    assert [r0, r1, r2][1..] == [r1, r2] && [r1, r2][1..] == [r2] && [r2][1..] == [];
    assert [s0][0] == s0;
    assert [s0] + [s1] == [s0, s1] && [s0, s1][1] == s1;
    assert [s0, s1] + [s2] == [s0, s1, s2] && [s0, s1, s2][1] == s1;
    assert Split(compiles, [s0, s1, s2], s2, [r2]);
    assert Split(compiles, [s0, s1], s1, [r1, r2]);
    assert CommitAll(compiles, s2, [r2]) == s3;
    assert CommitAll(compiles, s1, [r1, r2]) == s3;
  }

  /** An update breaks it too: "b" is stored, "a" is created as the default, and "b" becomes one as well, checked
      against a listing from before "a" came. */
  lemma SplitUpdateAllowsTwoDefaults(compiles: string -> bool)
    requires compiles("")
    ensures var run := [ListedRequest(Create(Named("b", false)), []),
                        ListedRequest(Create(Named("a", true)), [Named("b", false)]),
                        ListedRequest(Update(Named("b", true)), [Named("b", false)])];
            && Split(compiles, [map[]], map[], run)
            && !AtMostOneDefault(CommitAll(compiles, map[], run))
  {
    hide Commit, AtMostOneDefault, Named;
    NamedSpec("a", true);
    NamedSpec("b", false);
    NamedSpec("b", true);
    var a, b, b' := Named("a", true), Named("b", false), Named("b", true);
    var r0, r1, r2 := ListedRequest(Create(b), []), ListedRequest(Create(a), [b]), ListedRequest(Update(b'), [b]);
    var s0: Classes, s1, s2, s3 := map[], map["b" := b], map["b" := b, "a" := a], map["b" := b', "a" := a];
    PlainCommits(compiles, s0, [], "b", false);
    PlainCommits(compiles, s1, [b], "a", true);
    PlainCommits(compiles, s2, [b], "b", true);
    assert s0["b" := b] == s1 && s1["a" := a] == s2 && s2["b" := b'] == s3;
    assert Lists([b], s1) by { assert [b][0] == s1["b"]; }
    SplitThree(compiles, s0, s1, s2, r0, r1, r2);
    TwoDefaults(s3, "a", "b");
  }
}
