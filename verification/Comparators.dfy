/** The hand-written comparators that decide which fields a reconciler rewrites
    (internal/controller/overcommitclass/utils.go, internal/utils/comparison.go).

    Each method is proved against a predicate, and the predicates are characterised below. */
module Comparators {
  import opened Wrappers
  import opened Api
  import opened Text

  // ---------- Maps built from lists ----------

  /** What is left in a Go map after assigning the pairs in order. */
  function LastBindings<K, V>(pairs: seq<(K, V)>): map<K, V> {
    if pairs == [] then map[]
    else LastBindings(pairs[..|pairs| - 1])[pairs[|pairs| - 1].0 := pairs[|pairs| - 1].1]
  }

  predicate Covers<K(==), V(==)>(b: map<K, V>, a: map<K, V>) {
    forall k <- a :: k in b && a[k] == b[k]
  }

  /** Equal length, and every binding of the first list is one of the second. */
  predicate SameBindings<K(==), V(==)>(a: seq<(K, V)>, b: seq<(K, V)>) {
    |a| == |b| && Covers(LastBindings(b), LastBindings(a))
  }

  ghost predicate DistinctKeys<K(!new), V(!new)>(pairs: seq<(K, V)>) {
    forall i, j :: 0 <= i < j < |pairs| ==> pairs[i].0 != pairs[j].0
  }

  method Collect<K(==), V>(pairs: seq<(K, V)>) returns (m: map<K, V>)
    ensures m == LastBindings(pairs)
  {
    m := map[];
    for i := 0 to |pairs|
      invariant m == LastBindings(pairs[..i])
    {
      assert pairs[..i + 1][..i] == pairs[..i];
      m := m[pairs[i].0 := pairs[i].1];
    }
    assert pairs[..|pairs|] == pairs;
  }

  method CheckCovers<K(==), V(==)>(b: map<K, V>, a: map<K, V>) returns (covered: bool)
    ensures covered <==> Covers(b, a)
  {
    var rest := a.Keys;
    while rest != {}
      invariant rest <= a.Keys
      invariant forall k <- a :: k !in rest ==> k in b && a[k] == b[k]
      decreases rest
    {
      var k :| k in rest;
      if k !in b || a[k] != b[k] { return false; }
      rest := rest - {k};
    }
    return true;
  }

  // ---------- The comparators ----------

  function EnvPairs(env: seq<EnvVar>): (pairs: seq<(string, string)>)
    ensures |pairs| == |env|
  {
    seq(|env|, i requires 0 <= i < |env| => (env[i].name, env[i].value))
  }

  function PortPairs(ports: seq<ServicePort>): (pairs: seq<(string, (int, int, string))>)
    ensures |pairs| == |ports|
  {
    seq(|ports|, i requires 0 <= i < |ports| =>
      (ports[i].name, (ports[i].port, ports[i].targetPort, ports[i].protocol)))
  }

  function ItemPairs(items: seq<string>): (pairs: seq<(string, bool)>)
    ensures |pairs| == |items|
  {
    seq(|items|, i requires 0 <= i < |items| => (items[i], true))
  }

  /** Of the variables with its name, the list's last one. */
  predicate LastOfName(env: seq<EnvVar>, i: nat)
    requires i < |env|
  {
    forall j :: i < j < |env| ==> env[j].name != env[i].name
  }

  /** The last variable of that name has the same value. */
  predicate BoundAlike(env: seq<EnvVar>, v: EnvVar) {
    exists j: nat :: j < |env| && LastOfName(env, j) && env[j].name == v.name && env[j].value == v.value
  }

  /** Position `i` holds the last binding of its key. */
  predicate LastOfKey<K(==), V>(pairs: seq<(K, V)>, i: nat)
    requires i < |pairs|
  {
    forall j :: i < j < |pairs| ==> pairs[j].0 != pairs[i].0
  }

  lemma {:induction false} LastBindingAt<K, V>(pairs: seq<(K, V)>, i: nat)
    requires i < |pairs| && LastOfKey(pairs, i)
    ensures pairs[i].0 in LastBindings(pairs) && LastBindings(pairs)[pairs[i].0] == pairs[i].1
  {
    if i < |pairs| - 1 {
      assert LastOfKey(pairs[..|pairs| - 1], i);
      LastBindingAt(pairs[..|pairs| - 1], i);
    }
  }

  lemma {:induction false} BindingHasPosition<K, V>(pairs: seq<(K, V)>, k: K)
    requires k in LastBindings(pairs)
    ensures exists i: nat :: i < |pairs| && LastOfKey(pairs, i) && pairs[i] == (k, LastBindings(pairs)[k])
  {
    var init, last := pairs[..|pairs| - 1], pairs[|pairs| - 1];
    if last.0 == k {
      assert LastOfKey(pairs, |pairs| - 1);
    } else {
      BindingHasPosition(init, k);
      var i: nat :| i < |init| && LastOfKey(init, i) && init[i] == (k, LastBindings(init)[k]);
      assert LastOfKey(pairs, i);
    }
  }

  /** What SameBindings says position by position, whatever the lists repeat. */
  lemma SameBindingsByPosition<K(!new), V(!new)>(a: seq<(K, V)>, b: seq<(K, V)>)
    ensures SameBindings(a, b) <==>
            && |a| == |b|
            && forall i: nat :: i < |a| && LastOfKey(a, i) ==>
                 exists j: nat :: j < |b| && LastOfKey(b, j) && b[j] == a[i]
  {
    hide LastOfKey;
    if SameBindings(a, b) {
      forall i: nat | i < |a| && LastOfKey(a, i)
        ensures exists j: nat :: j < |b| && LastOfKey(b, j) && b[j] == a[i]
      {
        LastBindingAt(a, i);
        BindingHasPosition(b, a[i].0);
      }
    }
    if |a| == |b| && (forall i: nat :: i < |a| && LastOfKey(a, i) ==>
                        exists j: nat :: j < |b| && LastOfKey(b, j) && b[j] == a[i])
    {
      forall k | k in LastBindings(a) ensures k in LastBindings(b) && LastBindings(a)[k] == LastBindings(b)[k] {
        BindingHasPosition(a, k);
        var i: nat :| i < |a| && LastOfKey(a, i) && a[i] == (k, LastBindings(a)[k]);
        var j: nat :| j < |b| && LastOfKey(b, j) && b[j] == a[i];
        LastBindingAt(b, j);
      }
    }
  }

  lemma VariablesByPosition(a: seq<EnvVar>, b: seq<EnvVar>)
    ensures SameBindings(EnvPairs(a), EnvPairs(b)) <==>
            |a| == |b| && forall i: nat :: i < |a| && LastOfName(a, i) ==> BoundAlike(b, a[i])
  {
    var pa, pb := EnvPairs(a), EnvPairs(b);
    SameBindingsByPosition(pa, pb);
    forall i: nat | i < |a| ensures pa[i] == (a[i].name, a[i].value) && (LastOfKey(pa, i) <==> LastOfName(a, i)) {
      assert forall j :: 0 <= j < |a| ==> pa[j].0 == a[j].name;
    }
    forall i: nat | i < |b| ensures pb[i] == (b[i].name, b[i].value) && (LastOfKey(pb, i) <==> LastOfName(b, i)) {
      assert forall j :: 0 <= j < |b| ==> pb[j].0 == b[j].name;
    }
    hide SameBindings, EnvPairs, LastOfKey, LastOfName;
  }

  method EnvVarsEqual(a: seq<EnvVar>, b: seq<EnvVar>) returns (equal: bool)
    ensures equal <==> SameBindings(EnvPairs(a), EnvPairs(b))
    ensures equal <==> |a| == |b| && forall i: nat :: i < |a| && LastOfName(a, i) ==> BoundAlike(b, a[i])
  {
    VariablesByPosition(a, b);
    if |a| != |b| { return false; }
    var mapA := Collect(EnvPairs(a));
    var mapB := Collect(EnvPairs(b));
    equal := CheckCovers(mapB, mapA);
  }

  predicate LastPortOfName(ports: seq<ServicePort>, i: nat)
    requires i < |ports|
  {
    forall j :: i < j < |ports| ==> ports[j].name != ports[i].name
  }

  predicate SamePort(p: ServicePort, q: ServicePort) {
    p.name == q.name && p.port == q.port && p.targetPort == q.targetPort && p.protocol == q.protocol
  }

  predicate PortBoundAlike(ports: seq<ServicePort>, p: ServicePort) {
    exists j: nat :: j < |ports| && LastPortOfName(ports, j) && SamePort(ports[j], p)
  }

  lemma PortsByPosition(a: seq<ServicePort>, b: seq<ServicePort>)
    ensures SameBindings(PortPairs(a), PortPairs(b)) <==>
            |a| == |b| && forall i: nat :: i < |a| && LastPortOfName(a, i) ==> PortBoundAlike(b, a[i])
  {
    var pa, pb := PortPairs(a), PortPairs(b);
    SameBindingsByPosition(pa, pb);
    forall i: nat, j: nat | i < |a| && j < |b| ensures pb[j] == pa[i] <==> SamePort(b[j], a[i]) {
    }
    forall i: nat | i < |a| ensures LastOfKey(pa, i) <==> LastPortOfName(a, i) {
      assert forall j :: 0 <= j < |a| ==> pa[j].0 == a[j].name;
    }
    forall i: nat | i < |b| ensures LastOfKey(pb, i) <==> LastPortOfName(b, i) {
      assert forall j :: 0 <= j < |b| ==> pb[j].0 == b[j].name;
    }
    hide SameBindings, PortPairs, LastOfKey, LastPortOfName, SamePort;
  }

  method PortsEqual(a: seq<ServicePort>, b: seq<ServicePort>) returns (equal: bool)
    ensures equal <==> SameBindings(PortPairs(a), PortPairs(b))
    ensures equal <==> |a| == |b| && forall i: nat :: i < |a| && LastPortOfName(a, i) ==> PortBoundAlike(b, a[i])
  {
    PortsByPosition(a, b);
    if |a| != |b| { return false; }
    var mapA := Collect(PortPairs(a));
    var mapB := Collect(PortPairs(b));
    equal := CheckCovers(mapB, mapA);
  }

  lemma {:induction false} BindingIsPair<K, V>(pairs: seq<(K, V)>, k: K)
    ensures k in LastBindings(pairs) <==> exists i :: 0 <= i < |pairs| && pairs[i].0 == k
    ensures k in LastBindings(pairs) ==> (k, LastBindings(pairs)[k]) in pairs
  {
    if pairs != [] {
      var init, last := pairs[..|pairs| - 1], pairs[|pairs| - 1];
      BindingIsPair(init, k);
      assert pairs == init + [last];
    }
  }

  lemma ItemsByMembership(a: seq<string>, b: seq<string>)
    ensures SameBindings(ItemPairs(a), ItemPairs(b)) <==> |a| == |b| && forall x <- a :: x in b
  {
    var pa, pb := ItemPairs(a), ItemPairs(b);
    forall x ensures x in LastBindings(pa) <==> x in a {
      BindingIsPair(pa, x);
      assert forall i :: 0 <= i < |a| ==> pa[i].0 == a[i];
    }
    forall x ensures x in LastBindings(pb) <==> x in b {
      BindingIsPair(pb, x);
      assert forall i :: 0 <= i < |b| ==> pb[i].0 == b[i];
    }
    forall x | x in LastBindings(pa) ensures LastBindings(pa)[x] { BindingIsPair(pa, x); }
    forall x | x in LastBindings(pb) ensures LastBindings(pb)[x] { BindingIsPair(pb, x); }
  }

  method SlicesEqual(a: seq<string>, b: seq<string>) returns (equal: bool)
    ensures equal <==> SameBindings(ItemPairs(a), ItemPairs(b))
    ensures equal <==> |a| == |b| && forall x <- a :: x in b
  {
    ItemsByMembership(a, b);
    if |a| != |b| { return false; }
    var mapA := Collect(ItemPairs(a));
    var mapB := Collect(ItemPairs(b));
    equal := CheckCovers(mapB, mapA);
  }

  lemma SubsetOfSameSize<T>(a: set<T>, b: set<T>)
    requires a <= b && |a| == |b|
    ensures a == b
  {
    var d := b - a;
    assert b == a + d;
    assert |b| == |a| + |d|;
    assert d == {};
  }

  lemma CoverOfSameSize<K, V>(b: map<K, V>, a: map<K, V>)
    requires |a| == |b| && Covers(b, a)
    ensures a == b
  {
    SubsetOfSameSize(a.Keys, b.Keys);
  }

  /** mapsEqual decides equality, telling nil from empty. */
  method MapsEqual(a: Option<StringMap>, b: Option<StringMap>) returns (equal: bool)
    ensures equal <==> a == b
  {
    if a.None? && b.None? { return true; }
    if a.None? || b.None? { return false; }
    if |a.value| != |b.value| { return false; }
    equal := CheckCovers(b.value, a.value);
    if equal { CoverOfSameSize(b.value, a.value); }
  }

  // ---------- The comparators decide permutation ----------

  /** A list without repetitions whose items all occur in an equally long list is a permutation of it. */
  lemma {:induction false} DistinctCoverIsPermutation<T>(a: seq<T>, b: seq<T>)
    requires |a| == |b|
    requires forall i, j :: 0 <= i < j < |a| ==> a[i] != a[j]
    requires forall x <- a :: x in b
    ensures multiset(a) == multiset(b)
  {
    if a != [] {
      var x := a[0];
      assert x in a;
      var j :| 0 <= j < |b| && b[j] == x;
      var b' := b[..j] + b[j + 1..];
      assert b == b[..j] + [x] + b[j + 1..];
      forall y | y in a[1..] ensures y in b' {
        assert y in a && y != x;
      }
      DistinctCoverIsPermutation(a[1..], b');
      assert a == [x] + a[1..];
    }
  }

  /** With distinct keys in the first list, SameBindings holds exactly when the second list is a permutation of it. */
  lemma SameBindingsIsPermutation<K(!new), V(!new)>(a: seq<(K, V)>, b: seq<(K, V)>)
    requires DistinctKeys(a)
    ensures SameBindings(a, b) <==> multiset(a) == multiset(b)
  {
    if SameBindings(a, b) {
      forall p | p in a ensures p in b {
        BindingIsPair(a, p.0);
        BindingIsPair(b, p.0);
      }
      DistinctCoverIsPermutation(a, b);
    }
    if multiset(a) == multiset(b) {
      assert |a| == |multiset(a)| == |multiset(b)| == |b|;
      forall k | k in LastBindings(a) ensures k in LastBindings(b) && LastBindings(a)[k] == LastBindings(b)[k] {
        BindingIsPair(a, k);
        BindingIsPair(b, k);
        assert (k, LastBindings(a)[k]) in multiset(b);
        assert (k, LastBindings(b)[k]) in multiset(a);
      }
    }
  }

  predicate DistinctNames(env: seq<EnvVar>) {
    forall i, j :: 0 <= i < j < |env| ==> env[i].name != env[j].name
  }

  /** Some variable of the list has this name and this value. */
  predicate HasVariable(env: seq<EnvVar>, name: string, value: string) {
    exists i :: 0 <= i < |env| && env[i].name == name && env[i].value == value
  }

  /** envVarsEqual on variables: with distinct names in the first list it accepts exactly the lists of the same
      length that have every variable of the first, with its value. */
  lemma EnvVarsEqualOnVariables(a: seq<EnvVar>, b: seq<EnvVar>)
    requires DistinctNames(a)
    ensures SameBindings(EnvPairs(a), EnvPairs(b)) <==>
            |a| == |b| && forall i :: 0 <= i < |a| ==> HasVariable(b, a[i].name, a[i].value)
  {
    var pa, pb := EnvPairs(a), EnvPairs(b);
    assert forall i :: 0 <= i < |a| ==> pa[i] == (a[i].name, a[i].value);
    assert forall i :: 0 <= i < |b| ==> pb[i] == (b[i].name, b[i].value);
    SameBindingsIsPermutation(pa, pb);
    hide SameBindings, EnvPairs;
    if multiset(pa) == multiset(pb) {
      assert |pa| == |multiset(pa)| == |pb|;
      forall i | 0 <= i < |a| ensures HasVariable(b, a[i].name, a[i].value) {
        assert pa[i] in multiset(pb);
      }
    }
    if |a| == |b| && forall i :: 0 <= i < |a| ==> HasVariable(b, a[i].name, a[i].value) {
      forall x | x in pa ensures x in pb {
        var i :| 0 <= i < |a| && pa[i] == x;
        var j :| 0 <= j < |b| && b[j].name == a[i].name && b[j].value == a[i].value;
        assert pb[j] == x;
      }
      DistinctCoverIsPermutation(pa, pb);
    }
  }

  /** Some port of the list has this name, these numbers and this protocol. */
  predicate HasPort(ports: seq<ServicePort>, p: ServicePort) {
    exists i :: 0 <= i < |ports| && SamePort(ports[i], p)
  }

  /** portsEqual on ports: the same, with port, target port and protocol. */
  lemma PortsEqualOnPorts(a: seq<ServicePort>, b: seq<ServicePort>)
    requires forall i, j :: 0 <= i < j < |a| ==> a[i].name != a[j].name
    ensures SameBindings(PortPairs(a), PortPairs(b)) <==>
            |a| == |b| && forall i :: 0 <= i < |a| ==> HasPort(b, a[i])
  {
    var pa, pb := PortPairs(a), PortPairs(b);
    assert forall i :: 0 <= i < |a| ==> pa[i] == (a[i].name, (a[i].port, a[i].targetPort, a[i].protocol));
    assert forall i :: 0 <= i < |b| ==> pb[i] == (b[i].name, (b[i].port, b[i].targetPort, b[i].protocol));
    SameBindingsIsPermutation(pa, pb);
    hide SameBindings, PortPairs;
    if multiset(pa) == multiset(pb) {
      assert |pa| == |multiset(pa)| == |pb|;
      forall i | 0 <= i < |a| ensures HasPort(b, a[i]) {
        assert pa[i] in multiset(pb);
      }
    }
    if |a| == |b| && forall i :: 0 <= i < |a| ==> HasPort(b, a[i]) {
      forall x | x in pa ensures x in pb {
        var i :| 0 <= i < |a| && pa[i] == x;
        assert HasPort(b, a[i]);
        var j :| 0 <= j < |b| && SamePort(b[j], a[i]);
        assert pb[j] == x;
      }
      DistinctCoverIsPermutation(pa, pb);
    }
  }

  /** slicesEqual on a first list without repetitions. */
  lemma SameItemsIsPermutation(a: seq<string>, b: seq<string>)
    requires forall i, j :: 0 <= i < j < |a| ==> a[i] != a[j]
    ensures SameBindings(ItemPairs(a), ItemPairs(b)) <==> multiset(a) == multiset(b)
  {
    var pa, pb := ItemPairs(a), ItemPairs(b);
    if SameBindings(pa, pb) {
      forall x | x in a ensures x in b {
        var i :| 0 <= i < |a| && a[i] == x;
        assert pa[i].0 == x;
        BindingIsPair(pa, x);
        BindingIsPair(pb, x);
      }
      DistinctCoverIsPermutation(a, b);
    }
    if multiset(a) == multiset(b) {
      assert |a| == |multiset(a)| == |b|;
      forall x | x in LastBindings(pa) ensures x in LastBindings(pb) && LastBindings(pa)[x] == LastBindings(pb)[x] {
        BindingIsPair(pa, x);
        var i :| 0 <= i < |a| && pa[i].0 == x;
        assert x in multiset(b);
        var j :| 0 <= j < |b| && b[j] == x;
        assert pb[j].0 == x;
        BindingIsPair(pb, x);
      }
    }
  }

  // ---------- Tolerations ----------

  function TolerationParts(t: Toleration): seq<string> {
    [t.key, t.operator, t.value, t.effect, if t.seconds.Some? then "seconds-not-nil" else "seconds-nil"]
  }

  /** createTolerationKey. */
  function TolerationKey(t: Toleration): string {
    Join(TolerationParts(t), '-')
  }

  function TolerationKeys(tolerations: seq<Toleration>): (keys: seq<string>)
    ensures |keys| == |tolerations|
  {
    seq(|tolerations|, i requires 0 <= i < |tolerations| => TolerationKey(tolerations[i]))
  }

  predicate TolerationsAgree(a: Option<seq<Toleration>>, b: Option<seq<Toleration>>) {
    if a.None? || b.None? then a == b
    else |a.value| == |b.value| && forall k <- TolerationKeys(b.value) :: k in TolerationKeys(a.value)
  }

  method TolerationsEqual(a: Option<seq<Toleration>>, b: Option<seq<Toleration>>) returns (equal: bool)
    ensures equal <==> TolerationsAgree(a, b)
  {
    if a.None? && b.None? { return true; }
    if a.None? || b.None? { return false; }
    if |a.value| != |b.value| { return false; }
    var keysA, keysB := TolerationKeys(a.value), TolerationKeys(b.value);
    var tolerationMapA: map<string, Toleration> := map[];
    for i := 0 to |a.value|
      invariant forall k :: k in tolerationMapA <==> k in keysA[..i]
    {
      assert keysA[..i + 1] == keysA[..i] + [keysA[i]];
      tolerationMapA := tolerationMapA[TolerationKey(a.value[i]) := a.value[i]];
    }
    for i := 0 to |b.value|
      invariant forall k <- keysB[..i] :: k in keysA
    {
      assert keysB[..i + 1] == keysB[..i] + [keysB[i]];
      if TolerationKey(b.value[i]) !in tolerationMapA {
        assert keysB[i] in keysB;
        return false;
      }
    }
    return true;
  }

  /** With distinct keys in the second list, TolerationsEqual holds exactly when the keys are permuted. */
  lemma TolerationsAgreeIsPermutation(a: seq<Toleration>, b: seq<Toleration>)
    requires forall i, j :: 0 <= i < j < |b| ==> TolerationKeys(b)[i] != TolerationKeys(b)[j]
    ensures TolerationsAgree(Some(a), Some(b)) <==> multiset(TolerationKeys(a)) == multiset(TolerationKeys(b))
  {
    var keysA, keysB := TolerationKeys(a), TolerationKeys(b);
    if TolerationsAgree(Some(a), Some(b)) {
      DistinctCoverIsPermutation(keysB, keysA);
    }
    if multiset(keysA) == multiset(keysB) {
      assert |keysA| == |multiset(keysA)| == |keysB|;
      forall k | k in keysB ensures k in keysA {
        assert k in multiset(keysA);
      }
    }
  }

  lemma FiveParts(a: string, b: string, c: string, d: string, e: string)
    ensures Join([a, b, c, d, e], '-') == a + "-" + b + "-" + c + "-" + d + "-" + e
  {
    assert [a, b, c, d, e][1..] == [b, c, d, e] && [b, c, d, e][1..] == [c, d, e];
    assert [c, d, e][1..] == [d, e] && [d, e][1..] == [e];
    assert Join([d, e], '-') == d + "-" + e;
    assert Join([c, d, e], '-') == c + "-" + (d + "-" + e);
    assert Join([b, c, d, e], '-') == b + "-" + (c + "-" + (d + "-" + e));
  }

  // ---------- Which tolerations share a key ----------

  /** Operators and effects are enumerations without dashes: the API server stores no deployment with any other.
      Keys and values may contain dashes. */
  predicate Dashless(t: Toleration) {
    '-' !in t.operator && '-' !in t.effect
  }

  /** Equal but for the number of seconds. */
  predicate SameUpToSeconds(t: Toleration, u: Toleration) {
    u.(seconds := t.seconds) == t && t.seconds.Some? == u.seconds.Some?
  }

  /** The key of `u` is that of `t` continued by a dash and t's operator, and then ends or has another dash. */
  predicate KeyContinues(t: Toleration, u: Toleration) {
    var start := t.key + "-" + t.operator;
    start <= u.key && (u.key == start || u.key[|start|] == '-')
  }

  /** The value of `t` is the rest of u's key, u's operator and u's value. */
  predicate ValueRepeats(t: Toleration, u: Toleration)
    requires KeyContinues(t, u)
  {
    var start := t.key + "-" + t.operator;
    t.value == (if u.key == start then "" else u.key[|start| + 1..] + "-") + u.operator + "-" + u.value
  }

  /** `u` reads like `t` with the boundary between key and value moved. */
  predicate Shifted(t: Toleration, u: Toleration) {
    && t.effect == u.effect && t.seconds.Some? == u.seconds.Some?
    && KeyContinues(t, u) && ValueRepeats(t, u)
  }

  function Head(t: Toleration): string {
    t.key + "-" + t.operator + "-" + t.value
  }

  function Seconds(t: Toleration): string {
    if t.seconds.Some? then "seconds-not-nil" else "seconds-nil"
  }

  lemma KeyText(t: Toleration)
    ensures TolerationKey(t) == Head(t) + "-" + t.effect + "-" + Seconds(t)
  {
    FiveParts(t.key, t.operator, t.value, t.effect, Seconds(t));
    hide Join;
  }

  lemma FifthFromTheEnd(a: string, end: string)
    requires |end| >= 5
    ensures |a + end| >= 5 && (a + end)[|a + end| - 5] == end[|end| - 5]
  {
  }

  /** Whatever comes before, the two endings differ. */
  lemma SecondsDiffer(a: string, b: string)
    ensures a + "-seconds-nil" != b + "-seconds-not-nil"
  {
    FifthFromTheEnd(a, "-seconds-nil");
    FifthFromTheEnd(b, "-seconds-not-nil");
  }

  lemma DashPosition(a: string, x: string)
    ensures |a + "-" + x| == |a| + 1 + |x| && (a + "-" + x)[|a|] == '-'
    ensures (a + "-" + x)[..|a|] == a && (a + "-" + x)[|a| + 1..] == x
    ensures '-' !in a ==> forall i :: 0 <= i < |a| ==> (a + "-" + x)[i] != '-'
    ensures '-' !in x ==> forall i :: |a| < i < |a + "-" + x| ==> (a + "-" + x)[i] != '-'
  {
    if '-' !in x {
      forall i | |a| < i < |a + "-" + x| ensures (a + "-" + x)[i] != '-' {
        assert (a + "-" + x)[i] == x[i - |a| - 1];
      }
    }
  }

  /** What precedes and follows the last dash. */
  lemma LastDash(a: string, x: string, b: string, y: string)
    requires '-' !in x && '-' !in y
    ensures a + "-" + x == b + "-" + y <==> a == b && x == y
  {
    DashPosition(a, x);
    DashPosition(b, y);
  }

  /** What precedes and follows the first dash. */
  lemma FirstDash(x: string, a: string, y: string, b: string)
    requires '-' !in x && '-' !in y
    ensures x + "-" + a == y + "-" + b <==> x == y && a == b
  {
    DashPosition(x, a);
    DashPosition(y, b);
  }

  lemma CommonEnd(a: string, b: string, end: string)
    ensures a + end == b + end <==> a == b
  {
    if a + end == b + end { assert a == (a + end)[..|a|] == (b + end)[..|b|] == b; }
  }

  lemma SecondsSuffix(a: string, t: Toleration)
    ensures a + "-" + Seconds(t) == a + if t.seconds.Some? then "-seconds-not-nil" else "-seconds-nil"
  {
  }

  lemma SecondsEnd(a: string, t: Toleration, b: string, u: Toleration)
    ensures a + "-" + Seconds(t) == b + "-" + Seconds(u) <==> a == b && t.seconds.Some? == u.seconds.Some?
  {
    SecondsSuffix(a, t);
    SecondsSuffix(b, u);
    hide Seconds;
    if t.seconds.Some? == u.seconds.Some? {
      CommonEnd(a, b, if t.seconds.Some? then "-seconds-not-nil" else "-seconds-nil");
    } else if t.seconds.Some? {
      SecondsDiffer(b, a);
    } else {
      SecondsDiffer(a, b);
    }
  }

  /** Effects and the presence of seconds can be read off a key; only the heads may be confused. */
  lemma KeyTail(t: Toleration, u: Toleration)
    requires Dashless(t) && Dashless(u)
    ensures TolerationKey(t) == TolerationKey(u) <==>
            Head(t) == Head(u) && t.effect == u.effect && t.seconds.Some? == u.seconds.Some?
  {
    hide TolerationKey, Head, Seconds;
    KeyText(t);
    KeyText(u);
    SecondsEnd(Head(t) + "-" + t.effect, t, Head(u) + "-" + u.effect, u);
    LastDash(Head(t), t.effect, Head(u), u.effect);
  }

  lemma HeadsOfEqualKeyLength(t: Toleration, u: Toleration)
    requires Dashless(t) && Dashless(u) && |t.key| == |u.key|
    ensures Head(t) == Head(u) <==> t.key == u.key && t.operator == u.operator && t.value == u.value
  {
    if Head(t) == Head(u) {
      assert t.key == Head(t)[..|t.key|] == Head(u)[..|u.key|] == u.key;
      assert Head(t)[|t.key| + 1..] == t.operator + "-" + t.value;
      assert Head(u)[|u.key| + 1..] == u.operator + "-" + u.value;
      FirstDash(t.operator, t.value, u.operator, u.value);
    }
  }

  lemma SecondDash(t: Toleration)
    requires '-' !in t.operator
    ensures var h, start := Head(t), t.key + "-" + t.operator;
            && |h| == |start| + 1 + |t.value| && h[..|start|] == start && h[|start|] == '-'
            && h[|start| + 1..] == t.value
            && h[|t.key|] == '-' && (forall i :: |t.key| < i < |start| ==> h[i] != '-')
  {
    var h, start := Head(t), t.key + "-" + t.operator;
    DashPosition(start, t.value);
    DashPosition(t.key, t.operator);
    assert forall i :: 0 <= i < |start| ==> h[i] == start[i];
  }

  lemma HeadFromKey(u: Toleration)
    ensures var h := Head(u);
            && |h| > |u.key| && h[..|u.key|] == u.key && h[|u.key|] == '-'
            && h[|u.key| + 1..] == u.operator + "-" + u.value
  {
    DashPosition(u.key, u.operator + "-" + u.value);
    assert Head(u) == u.key + "-" + (u.operator + "-" + u.value);
  }

  /** Two ways to cut a text at a dash, the first one earlier or at the same place. */
  lemma TwoCuts(start: string, v: string, k: string, r: string)
    requires start + "-" + v == k + "-" + r && |start| <= |k|
    ensures start <= k && (k == start || k[|start|] == '-')
    ensures v == (if k == start then "" else k[|start| + 1..] + "-") + r
  {
    DashPosition(start, v);
    DashPosition(k, r);
    var h := k + "-" + r;
    assert k[..|start|] == h[..|start|];
    if |k| > |start| {
      assert k[|start|] == h[|start|];
      assert h[|start| + 1..] == k[|start| + 1..] + "-" + r;
    }
  }

  lemma KeyReachesStart(t: Toleration, u: Toleration)
    requires Dashless(t) && |t.key| < |u.key| && Head(t) == Head(u)
    ensures |t.key + "-" + t.operator| <= |u.key|
  {
    SecondDash(t);
    HeadFromKey(u);
    hide Head;
  }

  lemma Regrouped(z: string, a: string, b: string)
    ensures z + (a + "-" + b) == z + a + "-" + b
  {
  }

  lemma HeadForcesShift(t: Toleration, u: Toleration)
    requires Dashless(t) && |t.key| < |u.key| && Head(t) == Head(u)
    ensures KeyContinues(t, u) && ValueRepeats(t, u)
  {
    KeyReachesStart(t, u);
    Regrouped(u.key + "-", u.operator, u.value);
    var start := t.key + "-" + t.operator;
    TwoCuts(start, t.value, u.key, u.operator + "-" + u.value);
    Regrouped(if u.key == start then "" else u.key[|start| + 1..] + "-", u.operator, u.value);
  }

  /** With a shorter key, a head is another's exactly when the boundary between key and value has moved. */
  lemma HeadsOfShorterKey(t: Toleration, u: Toleration)
    requires Dashless(t) && Dashless(u) && |t.key| < |u.key|
    ensures Head(t) == Head(u) <==> KeyContinues(t, u) && ValueRepeats(t, u)
  {
    var start := t.key + "-" + t.operator;
    if KeyContinues(t, u) && ValueRepeats(t, u) {
      if u.key != start { assert u.key == start + "-" + u.key[|start| + 1..]; }
      assert Head(t) == start + "-" + t.value;
      assert Head(t) == Head(u);
    }
    if Head(t) == Head(u) { HeadForcesShift(t, u); }
  }

  lemma ContinuedIsLonger(t: Toleration, u: Toleration)
    ensures KeyContinues(t, u) ==> |t.key| < |u.key|
  {
  }

  /** Two tolerations share a key exactly when they agree up to the seconds or one is the other with the
      boundary between key and value moved. */
  lemma TolerationKeyInjective(t: Toleration, u: Toleration)
    requires Dashless(t) && Dashless(u)
    ensures TolerationKey(t) == TolerationKey(u) <==> SameUpToSeconds(t, u) || Shifted(t, u) || Shifted(u, t)
  {
    KeyTail(t, u);
    hide TolerationKey, Head, KeyContinues, ValueRepeats;
    ContinuedIsLonger(t, u);
    ContinuedIsLonger(u, t);
    if |t.key| == |u.key| {
      HeadsOfEqualKeyLength(t, u);
    } else if |t.key| < |u.key| {
      HeadsOfShorterKey(t, u);
    } else {
      HeadsOfShorterKey(u, t);
    }
  }

  // ---------- What that means for lists ----------

  /** A toleration as the comparator is meant to see it. */
  function Content(t: Toleration): Toleration {
    t.(seconds := if t.seconds.Some? then Some(0) else None)
  }

  function ContentsOf(tolerations: seq<Toleration>): (contents: seq<Toleration>)
    ensures |contents| == |tolerations|
  {
    seq(|tolerations|, i requires 0 <= i < |tolerations| => Content(tolerations[i]))
  }

  predicate Over(tolerations: seq<Toleration>, s: set<Toleration>) {
    forall i :: 0 <= i < |tolerations| ==> tolerations[i] in s
  }

  predicate DistinctContents(tolerations: seq<Toleration>) {
    forall i, j :: 0 <= i < j < |tolerations| ==> ContentsOf(tolerations)[i] != ContentsOf(tolerations)[j]
  }

  /** TolerationsEqual says whether the second list is a permutation of the first, up to seconds. */
  predicate DecidesPermutation(a: seq<Toleration>, b: seq<Toleration>) {
    TolerationsAgree(Some(a), Some(b)) <==> multiset(ContentsOf(a)) == multiset(ContentsOf(b))
  }

  predicate NoneShifted(s: set<Toleration>) {
    forall t, u :: t in s && u in s ==> !Shifted(t, u)
  }

  lemma ContentDecidesKey(t: Toleration, u: Toleration)
    ensures Content(t) == Content(u) <==> SameUpToSeconds(t, u)
    ensures Content(t) == Content(u) ==> TolerationKey(t) == TolerationKey(u)
  {
    hide Join;
  }

  lemma CoverAgrees(a: seq<Toleration>, b: seq<Toleration>)
    requires |a| == |b| && forall x <- ContentsOf(b) :: x in ContentsOf(a)
    ensures TolerationsAgree(Some(a), Some(b))
  {
    hide TolerationKey, Content;
    forall k | k in TolerationKeys(b) ensures k in TolerationKeys(a) {
      var j :| 0 <= j < |b| && TolerationKeys(b)[j] == k;
      assert ContentsOf(b)[j] in ContentsOf(b);
      var i :| 0 <= i < |a| && ContentsOf(a)[i] == ContentsOf(b)[j];
      ContentDecidesKey(a[i], b[j]);
      assert TolerationKeys(a)[i] == k;
    }
  }

  lemma PermutationAgrees(a: seq<Toleration>, b: seq<Toleration>)
    requires multiset(ContentsOf(a)) == multiset(ContentsOf(b))
    ensures TolerationsAgree(Some(a), Some(b))
  {
    assert |a| == |multiset(ContentsOf(a))| == |b|;
    forall x | x in ContentsOf(b) ensures x in ContentsOf(a) {
      assert x in multiset(ContentsOf(a));
    }
    CoverAgrees(a, b);
  }

  lemma AgreementCovers(a: seq<Toleration>, b: seq<Toleration>, s: set<Toleration>)
    requires (forall t <- s :: Dashless(t)) && NoneShifted(s) && Over(a, s) && Over(b, s)
    requires TolerationsAgree(Some(a), Some(b))
    ensures forall x <- ContentsOf(b) :: x in ContentsOf(a)
  {
    hide TolerationKey, Shifted, Dashless, SameUpToSeconds, Content;
    forall x | x in ContentsOf(b) ensures x in ContentsOf(a) {
      var j :| 0 <= j < |b| && ContentsOf(b)[j] == x;
      assert TolerationKeys(b)[j] in TolerationKeys(b);
      var i :| 0 <= i < |a| && TolerationKeys(a)[i] == TolerationKeys(b)[j];
      TolerationKeyInjective(a[i], b[j]);
      ContentDecidesKey(a[i], b[j]);
      assert ContentsOf(a)[i] == x;
    }
  }

  /** On lists without shifted tolerations: equal length, and whatever the second list holds is in the first. */
  lemma AgreementIsCover(a: seq<Toleration>, b: seq<Toleration>, s: set<Toleration>)
    requires (forall t <- s :: Dashless(t)) && NoneShifted(s) && Over(a, s) && Over(b, s)
    ensures TolerationsAgree(Some(a), Some(b)) <==> |a| == |b| && forall x <- ContentsOf(b) :: x in ContentsOf(a)
  {
    if TolerationsAgree(Some(a), Some(b)) { AgreementCovers(a, b, s); }
    if |a| == |b| && forall x <- ContentsOf(b) :: x in ContentsOf(a) { CoverAgrees(a, b); }
  }

  lemma AgreementPermutes(a: seq<Toleration>, b: seq<Toleration>, s: set<Toleration>)
    requires (forall t <- s :: Dashless(t)) && NoneShifted(s) && Over(a, s) && Over(b, s) && DistinctContents(b)
    requires TolerationsAgree(Some(a), Some(b))
    ensures multiset(ContentsOf(a)) == multiset(ContentsOf(b))
  {
    AgreementCovers(a, b, s);
    hide NoneShifted, TolerationKeys, Content;
    DistinctCoverIsPermutation(ContentsOf(b), ContentsOf(a));
  }

  lemma ShiftedPairFools(t: Toleration, u: Toleration)
    requires Dashless(t) && Dashless(u) && Shifted(t, u)
    ensures DistinctContents([u]) && !DecidesPermutation([t], [u])
  {
    TolerationKeyInjective(t, u);
    ContinuedIsLonger(t, u);
    hide TolerationKey, KeyContinues, ValueRepeats;
    assert TolerationKeys([u]) == [TolerationKey(u)] == TolerationKeys([t]);
    assert ContentsOf([t]) == [Content(t)] && ContentsOf([u]) == [Content(u)];
    assert Content(t) in multiset([Content(t)]);
  }

  /** TolerationsEqual is right about all lists of tolerations from a set, the second without repetitions,
      exactly when no toleration of the set is another with the boundary between key and value moved. */
  lemma TolerationsEqualRightIff(s: set<Toleration>)
    requires forall t <- s :: Dashless(t)
    ensures NoneShifted(s) <==>
            forall a, b :: Over(a, s) && Over(b, s) && DistinctContents(b) ==> DecidesPermutation(a, b)
  {
    hide TolerationsAgree, Shifted, ContentsOf, DistinctContents;
    if NoneShifted(s) {
      forall a, b | Over(a, s) && Over(b, s) && DistinctContents(b) ensures DecidesPermutation(a, b) {
        if TolerationsAgree(Some(a), Some(b)) { AgreementPermutes(a, b, s); }
        if multiset(ContentsOf(a)) == multiset(ContentsOf(b)) { PermutationAgrees(a, b); }
      }
    } else {
      var t, u :| t in s && u in s && Shifted(t, u);
      ShiftedPairFools(t, u);
      assert Over([t], s) && Over([u], s);
    }
  }

  /** In particular when no key is another's continued by a dash and that one's operator, which the keys and
      operators alone tell. */
  lemma KeysThatNeverContinue(s: set<Toleration>, a: seq<Toleration>, b: seq<Toleration>)
    requires (forall t <- s :: Dashless(t)) && Over(a, s) && Over(b, s) && DistinctContents(b)
    requires forall t, u :: t in s && u in s ==> !KeyContinues(t, u)
    ensures DecidesPermutation(a, b)
  {
    assert NoneShifted(s);
    TolerationsEqualRightIff(s);
  }

  /** Up to seconds, the set holds one toleration at most. */
  predicate OneContent(s: set<Toleration>) {
    forall t, u :: t in s && u in s ==> Content(t) == Content(u)
  }

  lemma OneContentPermutes(a: seq<Toleration>, b: seq<Toleration>, s: set<Toleration>)
    requires OneContent(s) && Over(a, s) && Over(b, s) && |a| == |b|
    ensures ContentsOf(a) == ContentsOf(b)
  {
  }

  /** A repetition in the second list hides a toleration of the first. */
  lemma RepetitionFools(b: seq<Toleration>, i: nat, j: nat, z: Toleration)
    requires i < j < |b| && Content(b[i]) == Content(b[j]) != Content(z)
    ensures !DecidesPermutation(b[j := z], b)
  {
    var a := b[j := z];
    hide Content, TolerationKey;
    forall x | x in ContentsOf(b) ensures x in ContentsOf(a) {
      var k :| 0 <= k < |b| && ContentsOf(b)[k] == x;
      assert ContentsOf(a)[if k == j then i else k] == x;
    }
    CoverAgrees(a, b);
    var x := Content(b[j]);
    var before, after := ContentsOf(b)[..j], ContentsOf(b)[j + 1..];
    assert ContentsOf(b) == before + [x] + after;
    assert ContentsOf(a) == before + [Content(z)] + after;
    assert multiset(ContentsOf(b))[x] == multiset(before)[x] + 1 + multiset(after)[x];
    assert multiset(ContentsOf(a))[x] == multiset(before)[x] + multiset(after)[x];
  }

  /** For one second list, the stored one: TolerationsEqual is right whatever the first list is, exactly when the
      second repeats nothing, or there is nothing to confuse its repetitions with. */
  lemma RightAboutStoredListIff(s: set<Toleration>, b: seq<Toleration>)
    requires (forall t <- s :: Dashless(t)) && NoneShifted(s) && Over(b, s)
    ensures (forall a :: Over(a, s) ==> DecidesPermutation(a, b)) <==> DistinctContents(b) || OneContent(s)
  {
    hide NoneShifted, Content, TolerationsAgree, Dashless;
    if DistinctContents(b) || OneContent(s) {
      forall a | Over(a, s) ensures DecidesPermutation(a, b) {
        if multiset(ContentsOf(a)) == multiset(ContentsOf(b)) { PermutationAgrees(a, b); }
        if TolerationsAgree(Some(a), Some(b)) {
          if DistinctContents(b) {
            AgreementPermutes(a, b, s);
          } else {
            AgreementIsCover(a, b, s);
            OneContentPermutes(a, b, s);
          }
        }
      }
    } else {
      var i, j :| 0 <= i < j < |b| && ContentsOf(b)[i] == ContentsOf(b)[j];
      var t, u :| t in s && u in s && Content(t) != Content(u);
      var z := if Content(t) != Content(b[i]) then t else u;
      RepetitionFools(b, i, j, z);
      assert Over(b[j := z], s);
    }
  }

  /** A stored list that holds one toleration twice is taken for a list of two different ones. */
  lemma RepeatedTolerationHides()
    ensures var t := Toleration("a", "Exists", "", "NoSchedule", None);
            var u := Toleration("b", "Exists", "", "NoSchedule", None);
            && Dashless(t) && Dashless(u) && NoneShifted({t, u}) && !KeyContinues(t, u) && !KeyContinues(u, t)
            && TolerationsAgree(Some([t, u]), Some([t, t]))
            && multiset(ContentsOf([t, u])) != multiset(ContentsOf([t, t]))
  {
    var t := Toleration("a", "Exists", "", "NoSchedule", None);
    var u := Toleration("b", "Exists", "", "NoSchedule", None);
    ContinuedIsLonger(t, u);
    ContinuedIsLonger(u, t);
    ContinuedIsLonger(t, t);
    ContinuedIsLonger(u, u);
    hide KeyContinues, ValueRepeats, TolerationKey;
    assert Content(t) == t && Content(u) == u;
    assert [t, t][1 := u] == [t, u];
    RepetitionFools([t, t], 0, 1, u);
    var a, b := ContentsOf([t, u]), ContentsOf([t, t]);
    assert a == [t, u] && b == [t, t];
    CoverAgrees([t, u], [t, t]);
  }

  /** A dash in a value breaks the key: two different tolerations, both legal, are taken for the same one. */
  lemma TolerationKeyCollision()
    ensures var t := Toleration("a", "Equal", "b-Equal-c", "NoSchedule", None);
            var u := Toleration("a-Equal-b", "Equal", "c", "NoSchedule", None);
            t != u && TolerationsAgree(Some([t]), Some([u]))
  {
    var t := Toleration("a", "Equal", "b-Equal-c", "NoSchedule", None);
    var u := Toleration("a-Equal-b", "Equal", "c", "NoSchedule", None);
    FiveParts(t.key, t.operator, t.value, t.effect, "seconds-nil");
    FiveParts(u.key, u.operator, u.value, u.effect, "seconds-nil");
    assert t.key + "-" + t.operator + "-" + t.value == "a-Equal-b-Equal-c" == u.key + "-" + u.operator + "-" + u.value;
    assert TolerationKey(t) == TolerationKey(u);
    assert TolerationKeys([t]) == [TolerationKey(t)] == TolerationKeys([u]);
  }

  // ---------- webhookChanged ----------

  predicate ServiceAgrees(updated: Option<ServiceReference>, current: Option<ServiceReference>) {
    if updated.Some? && current.Some? then
      updated.value.name == current.value.name && updated.value.namespace == current.value.namespace
    else updated == current
  }

  /** What webhookChanged looks at: not the object selector, and of the rules only their number. */
  predicate WebhookAgrees(updated: Webhook, current: Webhook) {
    && updated.name == current.name
    && |updated.rules| == |current.rules|
    && ServiceAgrees(updated.service, current.service)
    && updated.reviewVersions == current.reviewVersions
    && updated.matchConditions == current.matchConditions
  }

  predicate WebhooksAgree(updated: seq<Webhook>, current: seq<Webhook>) {
    && |updated| == |current|
    && forall i :: 0 <= i < |updated| ==> WebhookAgrees(updated[i], current[i])
  }

  method WebhookChanged(updated: Webhook, current: Webhook) returns (changed: bool)
    ensures changed <==> !WebhookAgrees(updated, current)
  {
    if updated.name != current.name { return true; }
    if |updated.rules| != |current.rules| { return true; }
    if updated.service.Some? && current.service.Some? {
      if updated.service.value.name != current.service.value.name
         || updated.service.value.namespace != current.service.value.namespace {
        return true;
      }
    } else if updated.service.None? != current.service.None? {
      return true;
    }
    if |updated.reviewVersions| != |current.reviewVersions| { return true; }
    for i := 0 to |updated.reviewVersions|
      invariant updated.reviewVersions[..i] == current.reviewVersions[..i]
    {
      if updated.reviewVersions[i] != current.reviewVersions[i] { return true; }
    }
    if |updated.matchConditions| != |current.matchConditions| { return true; }
    for i := 0 to |updated.matchConditions|
      invariant updated.matchConditions[..i] == current.matchConditions[..i]
    {
      if updated.matchConditions[i].name != current.matchConditions[i].name
         || updated.matchConditions[i].expression != current.matchConditions[i].expression {
        return true;
      }
    }
    return false;
  }
}
