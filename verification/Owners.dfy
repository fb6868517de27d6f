/** Finding the owner of a pod by following first owner references (internal/utils/getOwner.go). */
module Owners {
  import opened Wrappers

  datatype Reference = Reference(kind: string, apiVersion: string, name: string)

  datatype Object = Object(name: string, kind: string, apiVersion: string, namespace: string, owners: seq<Reference>)

  /** What a Get by reference and namespace returns; a missing key stands for any failing Get. */
  type Key = (Reference, string)
  type Objects = map<Key, Object>

  datatype Search = Root(object: Object) | Missing | OutOfFuel

  function OwnerKey(o: Object): Key
    requires o.owners != []
  {
    (o.owners[0], o.namespace)
  }

  /** findRootOwner. The source has no bound on its recursion; OutOfFuel says that `fuel` calls did not suffice. */
  function FindRootOwner(objects: Objects, o: Object, fuel: nat): Search
    decreases fuel
  {
    if o.owners == [] then Root(o)
    else if fuel == 0 then OutOfFuel
    else if OwnerKey(o) !in objects then Missing
    else FindRootOwner(objects, objects[OwnerKey(o)], fuel - 1)
  }

  // ---------- The chain of first owners ----------

  /** The object reached from `o` after `n` successful lookups. */
  function Walk(objects: Objects, o: Object, n: nat): Option<Object>
    decreases n
  {
    if n == 0 then Some(o)
    else if o.owners != [] && OwnerKey(o) in objects then Walk(objects, objects[OwnerKey(o)], n - 1)
    else None
  }

  /** The key of the lookup number `i`. */
  function LookedUp(objects: Objects, o: Object, i: nat): Option<Key> {
    var p := Walk(objects, o, i);
    if p.Some? && p.value.owners != [] && OwnerKey(p.value) in objects then Some(OwnerKey(p.value)) else None
  }

  /** The chain that starts at `o` never comes back to an object it has looked up. */
  ghost predicate AcyclicFrom(objects: Objects, o: Object) {
    forall i: nat, j: nat ::
      i < j && LookedUp(objects, o, i).Some? ==> LookedUp(objects, o, i) != LookedUp(objects, o, j)
  }

  lemma {:induction false} WalkAdd(objects: Objects, o: Object, m: nat, n: nat)
    ensures Walk(objects, o, m + n)
            == if Walk(objects, o, m).Some? then Walk(objects, Walk(objects, o, m).value, n) else None
    decreases m
  {
    if m > 0 && o.owners != [] && OwnerKey(o) in objects {
      WalkAdd(objects, objects[OwnerKey(o)], m - 1, n);
    }
  }

  /** What a finished search found: the ownerless end of the chain, or an object whose first owner is missing. */
  lemma {:induction false} SearchFollowsChain(objects: Objects, o: Object, fuel: nat)
    ensures match FindRootOwner(objects, o, fuel)
            case Root(r) => r.owners == [] && exists n: nat :: n <= fuel && Walk(objects, o, n) == Some(r)
            case Missing =>
              exists n: nat :: n < fuel && Walk(objects, o, n).Some? && Walk(objects, o, n).value.owners != []
                               && OwnerKey(Walk(objects, o, n).value) !in objects
            case OutOfFuel => Walk(objects, o, fuel).Some? && Walk(objects, o, fuel).value.owners != []
    decreases fuel
  {
    if o.owners == [] || fuel == 0 || OwnerKey(o) !in objects {
      assert Walk(objects, o, 0) == Some(o);
    } else {
      var next := objects[OwnerKey(o)];
      SearchFollowsChain(objects, next, fuel - 1);
      assert forall n: nat :: Walk(objects, next, n) == Walk(objects, o, n + 1);
    }
  }

  /** The ownerless end of a chain is unique, and a search with enough fuel returns it. */
  lemma {:induction false} EndIsFound(objects: Objects, o: Object, n: nat, r: Object, fuel: nat)
    requires Walk(objects, o, n) == Some(r) && r.owners == [] && n <= fuel
    ensures FindRootOwner(objects, o, fuel) == Root(r)
    decreases n
  {
    if n > 0 { EndIsFound(objects, objects[OwnerKey(o)], n - 1, r, fuel - 1); }
  }

  /** A search that fails because a link is missing fails so with any enough fuel. */
  lemma {:induction false} BreakIsFound(objects: Objects, o: Object, n: nat, fuel: nat)
    requires Walk(objects, o, n).Some? && Walk(objects, o, n).value.owners != []
    requires OwnerKey(Walk(objects, o, n).value) !in objects && n < fuel
    ensures FindRootOwner(objects, o, fuel) == Missing
    decreases n
  {
    if n > 0 { BreakIsFound(objects, objects[OwnerKey(o)], n - 1, fuel - 1); }
  }

  // ---------- Termination ----------

  ghost function KeysUpTo(objects: Objects, o: Object, n: nat): set<Key> {
    if n == 0 then {}
    else
      var key := LookedUp(objects, o, n - 1);
      KeysUpTo(objects, o, n - 1) + (if key.Some? then {key.value} else {})
  }

  lemma {:induction false} KeysUpToContents(objects: Objects, o: Object, n: nat)
    ensures KeysUpTo(objects, o, n) <= objects.Keys
    ensures forall k <- KeysUpTo(objects, o, n) :: exists i: nat :: i < n && LookedUp(objects, o, i) == Some(k)
  {
    if n > 0 { KeysUpToContents(objects, o, n - 1); }
  }

  lemma {:induction false} WalkPrefix(objects: Objects, o: Object, m: nat, n: nat)
    requires m <= n && Walk(objects, o, n).Some?
    ensures Walk(objects, o, m).Some? && (m < n ==> LookedUp(objects, o, m).Some?)
  {
    WalkAdd(objects, o, m, n - m);
  }

  lemma NextKeyIsNew(objects: Objects, o: Object, n: nat)
    requires AcyclicFrom(objects, o) && LookedUp(objects, o, n).Some?
    ensures LookedUp(objects, o, n).value !in KeysUpTo(objects, o, n)
  {
    KeysUpToContents(objects, o, n);
    hide LookedUp, KeysUpTo;
  }

  /** Without a cycle, n lookups see n different keys. */
  lemma {:induction false} AcyclicCountsKeys(objects: Objects, o: Object, n: nat)
    requires AcyclicFrom(objects, o) && Walk(objects, o, n).Some?
    ensures |KeysUpTo(objects, o, n)| == n
  {
    if n > 0 {
      hide AcyclicFrom, Walk, LookedUp;
      WalkPrefix(objects, o, n - 1, n);
      AcyclicCountsKeys(objects, o, n - 1);
      NextKeyIsNew(objects, o, n - 1);
    }
  }

  lemma SubsetSmaller<T>(a: set<T>, b: set<T>)
    requires a <= b
    ensures |a| <= |b|
  {
    assert b == a + (b - a);
  }

  lemma CycleRestarts(objects: Objects, o: Object, next: Object, j: nat)
    requires j > 0 && o.owners != [] && OwnerKey(o) in objects && next == objects[OwnerKey(o)]
    requires LookedUp(objects, o, j) == Some(OwnerKey(o))
    ensures LookedUp(objects, next, j - 1) == Some(OwnerKey(o))
    ensures LookedUp(objects, next, 2 * j - 1) == Some(OwnerKey(o))
  {
    assert Walk(objects, next, j - 1) == Walk(objects, o, j);
    var p := Walk(objects, o, j).value;
    WalkAdd(objects, o, j, 1);
    assert Walk(objects, o, j + 1) == Walk(objects, p, 1);
    assert Walk(objects, p, 1) == Walk(objects, next, 0);
    WalkAdd(objects, next, j, j - 1);
    assert Walk(objects, next, j) == Walk(objects, o, j + 1) == Some(next);
  }

  /** A cycle keeps the search going forever. */
  lemma {:induction false} CycleNeverEnds(objects: Objects, o: Object, i: nat, j: nat, fuel: nat)
    requires i < j && LookedUp(objects, o, i).Some? && LookedUp(objects, o, i) == LookedUp(objects, o, j)
    ensures FindRootOwner(objects, o, fuel) == OutOfFuel
    decreases fuel, i
  {
    WalkPrefix(objects, o, 0, i);
    if i > 0 || fuel > 0 {
      WalkAdd(objects, o, i, 1);
      WalkAdd(objects, o, j, 1);
    }
    if fuel > 0 {
      assert LookedUp(objects, o, 0).Some? by { if i > 0 { WalkPrefix(objects, o, 0, i); } }
      var next := objects[OwnerKey(o)];
      assert forall n: nat :: Walk(objects, o, n + 1) == Walk(objects, next, n);
      if i > 0 {
        CycleNeverEnds(objects, next, i - 1, j - 1, fuel - 1);
      } else {
        // The object found by lookup 0 is found again by lookup j.
        assert Walk(objects, o, 1) == Some(next) == Walk(objects, o, j + 1);
        CycleRestarts(objects, o, next, j);
        CycleNeverEnds(objects, next, j - 1, 2 * j - 1, fuel - 1);
      }
    }
  }

  /** The search terminates exactly when the chain of first owners has no cycle, and then one more call than
      there are objects is always enough. */
  lemma TerminatesIffAcyclic(objects: Objects, o: Object)
    ensures AcyclicFrom(objects, o) <==> FindRootOwner(objects, o, |objects| + 1) != OutOfFuel
    ensures AcyclicFrom(objects, o) <==> exists fuel: nat :: FindRootOwner(objects, o, fuel) != OutOfFuel
  {
    var bound := |objects| + 1;
    SearchFollowsChain(objects, o, bound);
    if AcyclicFrom(objects, o) && FindRootOwner(objects, o, bound) == OutOfFuel {
      AcyclicCountsKeys(objects, o, bound);
      KeysUpToContents(objects, o, bound);
      SubsetSmaller(KeysUpTo(objects, o, bound), objects.Keys);
      assert false;
    }
    if fuel: nat :| FindRootOwner(objects, o, fuel) != OutOfFuel {
      forall i: nat, j: nat | i < j && LookedUp(objects, o, i).Some?
        ensures LookedUp(objects, o, i) != LookedUp(objects, o, j)
      {
        if LookedUp(objects, o, i) == LookedUp(objects, o, j) { CycleNeverEnds(objects, o, i, j, fuel); }
      }
    }
  }

  // ---------- GetPodOwner ----------

  /** An error leaves the owner unknown; Diverges stands for the endless recursion on a cyclic chain. */
  datatype PodOwner = Owner(name: string, kind: string) | OwnerError | Diverges

  function GetPodOwner(objects: Objects, podName: string, namespace: string, owners: seq<Reference>): PodOwner {
    if owners == [] then Owner(podName, "pod")
    else if owners[0].kind == "ReplicaSet" then
      var key := (Reference("ReplicaSet", "apps/v1", owners[0].name), namespace);
      if key !in objects || objects[key].owners == [] || objects[key].owners[0].kind != "Deployment" then OwnerError
      else Owner(objects[key].owners[0].name, "Deployment")
    else if (owners[0], namespace) !in objects then OwnerError
    else
      match FindRootOwner(objects, objects[(owners[0], namespace)], |objects| + 1)
      case Root(r) => Owner(r.name, r.kind + "/" + r.apiVersion)
      case Missing => OwnerError
      case OutOfFuel => Diverges
  }

  /** For a pod whose first owner exists and is no replica set: the owner found is the ownerless end of the
      chain, an error means a missing link, and only a cycle keeps the search from returning. */
  lemma PodOwnerEndsTheChain(objects: Objects, podName: string, namespace: string, owners: seq<Reference>)
    requires owners != [] && owners[0].kind != "ReplicaSet" && (owners[0], namespace) in objects
    ensures var o := objects[(owners[0], namespace)];
            match GetPodOwner(objects, podName, namespace, owners)
            case Owner(name, kind) =>
              exists n: nat :: Walk(objects, o, n).Some? && Walk(objects, o, n).value.owners == []
                               && name == Walk(objects, o, n).value.name
                               && kind == Walk(objects, o, n).value.kind + "/" + Walk(objects, o, n).value.apiVersion
            case OwnerError =>
              exists n: nat :: Walk(objects, o, n).Some? && Walk(objects, o, n).value.owners != []
                               && OwnerKey(Walk(objects, o, n).value) !in objects
            case Diverges => !AcyclicFrom(objects, o)
  {
    var o := objects[(owners[0], namespace)];
    SearchFollowsChain(objects, o, |objects| + 1);
    TerminatesIffAcyclic(objects, o);
    hide Walk, AcyclicFrom, FindRootOwner;
  }

  /** A pod without owners is its own owner. */
  lemma OwnerlessPod(objects: Objects, podName: string, namespace: string)
    ensures GetPodOwner(objects, podName, namespace, []) == Owner(podName, "pod")
  {
  }

  /** The ordinary case, a pod of a replica set: its owner is the deployment that the replica set names first, and an
      error says that there is no replica set or that it names none; the search never diverges. Where that deployment
      is stored under its name and has no owner, it is the end of the chain that starts at the replica set. */
  lemma PodOfReplicaSet(objects: Objects, podName: string, namespace: string, owners: seq<Reference>)
    requires owners != [] && owners[0].kind == "ReplicaSet"
    ensures var key := (Reference("ReplicaSet", "apps/v1", owners[0].name), namespace);
            match GetPodOwner(objects, podName, namespace, owners)
            case Owner(name, kind) =>
              && kind == "Deployment" && key in objects
              && objects[key].owners != [] && objects[key].owners[0].kind == "Deployment"
              && objects[key].owners[0].name == name
              && (OwnerKey(objects[key]) in objects && objects[OwnerKey(objects[key])].owners == []
                  && objects[OwnerKey(objects[key])].name == name ==>
                    exists end: Object ::
                      FindRootOwner(objects, objects[key], |objects| + 1) == Root(end) && end.name == name)
            case OwnerError =>
              key !in objects || objects[key].owners == [] || objects[key].owners[0].kind != "Deployment"
            case Diverges => false
  {
    var key := (Reference("ReplicaSet", "apps/v1", owners[0].name), namespace);
    if key in objects && objects[key].owners != [] && OwnerKey(objects[key]) in objects
       && objects[OwnerKey(objects[key])].owners == []
    {
      var o, end := objects[key], objects[OwnerKey(objects[key])];
      assert Walk(objects, end, 0) == Some(end);
      assert Walk(objects, o, 1) == Some(end);
      EndIsFound(objects, o, 1, end, |objects| + 1);
    }
  }
}
