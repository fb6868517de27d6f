/** Status conditions: the two setCondition functions (internal/controller/overcommit/utils.go,
    internal/controller/overcommitclass/conditions.go) and the times they leave behind. */
module Conditions {
  import opened Wrappers

  datatype Condition = Condition(kind: string, status: string, reason: string, message: string, time: int)

  /** A call: the new condition, the transition time it came with if any, and the clock. */
  datatype Update = Update(kind: string, status: string, reason: string, message: string, given: Option<int>, now: int)

  /** The Overcommit variant keeps the time unless the status flips; the class variant stamps every change. */
  datatype Variant = OnStatusFlip | OnAnyChange

  predicate SameContent(c: Condition, u: Update) {
    c.status == u.status && c.reason == u.reason && c.message == u.message
  }

  function Stamp(v: Variant, existing: Option<Condition>, u: Update): Condition {
    match existing
    case None =>
      Condition(u.kind, u.status, u.reason, u.message,
                if v.OnStatusFlip? && u.given.Some? then u.given.value else u.now)
    case Some(c) =>
      if SameContent(c, u) then c
      else
        Condition(u.kind, u.status, u.reason, u.message,
                  if v.OnStatusFlip? && c.status == u.status then c.time else u.now)
  }

  function SetCondition(v: Variant, conditions: seq<Condition>, u: Update): seq<Condition> {
    if conditions == [] then [Stamp(v, None, u)]
    else if conditions[0].kind == u.kind then [Stamp(v, Some(conditions[0]), u)] + conditions[1..]
    else [conditions[0]] + SetCondition(v, conditions[1..], u)
  }

  lemma {:induction false} SetAtIndex(v: Variant, conditions: seq<Condition>, u: Update, i: nat)
    requires i <= |conditions| && forall j :: 0 <= j < i ==> conditions[j].kind != u.kind
    requires i < |conditions| ==> conditions[i].kind == u.kind
    ensures SetCondition(v, conditions, u)
            == if i < |conditions| then conditions[i := Stamp(v, Some(conditions[i]), u)]
               else conditions + [Stamp(v, None, u)]
  {
    if i > 0 {
      SetAtIndex(v, conditions[1..], u, i - 1);
    }
  }

  class Status {
    var conditions: seq<Condition>

    constructor (conditions: seq<Condition>)
      ensures this.conditions == conditions
    {
      this.conditions := conditions;
    }

    /** setCondition of the Overcommit controller. */
    method SetOvercommitCondition(u: Update)
      modifies this`conditions
      ensures conditions == SetCondition(OnStatusFlip, old(conditions), u)
    {
      var time := if u.given.None? then u.now else u.given.value;
      var newCondition := Condition(u.kind, u.status, u.reason, u.message, time);
      for i := 0 to |conditions|
        invariant conditions == old(conditions)
        invariant forall j :: 0 <= j < i ==> conditions[j].kind != u.kind
      {
        var existing := conditions[i];
        if existing.kind == newCondition.kind {
          SetAtIndex(OnStatusFlip, conditions, u, i);
          if existing.status != newCondition.status || existing.reason != newCondition.reason
             || existing.message != newCondition.message {
            if existing.status != newCondition.status {
              newCondition := newCondition.(time := u.now);
            } else {
              newCondition := newCondition.(time := existing.time);
            }
            conditions := conditions[i := newCondition];
          }
          return;
        }
      }
      SetAtIndex(OnStatusFlip, conditions, u, |conditions|);
      conditions := conditions + [newCondition];
    }

    /** setCondition of the OvercommitClass controller. */
    method SetClassCondition(u: Update)
      modifies this`conditions
      ensures conditions == SetCondition(OnAnyChange, old(conditions), u)
    {
      for i := 0 to |conditions|
        invariant conditions == old(conditions)
        invariant forall j :: 0 <= j < i ==> conditions[j].kind != u.kind
      {
        var existing := conditions[i];
        if existing.kind == u.kind {
          SetAtIndex(OnAnyChange, conditions, u, i);
          if existing.status != u.status || existing.reason != u.reason || existing.message != u.message {
            conditions := conditions[i := Condition(u.kind, u.status, u.reason, u.message, u.now)];
          }
          return;
        }
      }
      SetAtIndex(OnAnyChange, conditions, u, |conditions|);
      conditions := conditions + [Condition(u.kind, u.status, u.reason, u.message, u.now)];
    }
  }

  // ---------- Runs ----------

  function RunUpdates(v: Variant, updates: seq<Update>): seq<Condition> {
    if updates == [] then [] else SetCondition(v, RunUpdates(v, updates[..|updates| - 1]), updates[|updates| - 1])
  }

  function Kinds(conditions: seq<Condition>): (kinds: seq<string>)
    ensures |kinds| == |conditions|
  {
    seq(|conditions|, i requires 0 <= i < |conditions| => conditions[i].kind)
  }

  function Find(conditions: seq<Condition>, kind: string): Option<Condition> {
    if conditions == [] then None
    else if conditions[0].kind == kind then Some(conditions[0])
    else Find(conditions[1..], kind)
  }

  /** Kinds in the order of their first update. */
  function FirstUpdates(updates: seq<Update>): seq<string> {
    if updates == [] then []
    else
      var before, kind := FirstUpdates(updates[..|updates| - 1]), updates[|updates| - 1].kind;
      if kind in before then before else before + [kind]
  }

  /** The last update of a kind. */
  function Latest(updates: seq<Update>, kind: string): Option<Update> {
    if updates == [] then None
    else if updates[|updates| - 1].kind == kind then Some(updates[|updates| - 1])
    else Latest(updates[..|updates| - 1], kind)
  }

  /** Whether an update changes what this variant puts the time stamp on. */
  predicate Turns(v: Variant, previous: Update, u: Update) {
    previous.status != u.status || (v.OnAnyChange? && (previous.reason != u.reason || previous.message != u.message))
  }

  /** The moment of the last turn of a kind, or of its insertion if it never turned. */
  function LastTurn(v: Variant, updates: seq<Update>, kind: string): Option<int> {
    if updates == [] then None
    else
      var before, u := updates[..|updates| - 1], updates[|updates| - 1];
      if u.kind != kind then LastTurn(v, before, kind)
      else
        match Latest(before, kind)
        case None => Some(if v.OnStatusFlip? && u.given.Some? then u.given.value else u.now)
        case Some(previous) => if Turns(v, previous, u) then Some(u.now) else LastTurn(v, before, kind)
  }

  lemma StampKind(v: Variant, existing: Option<Condition>, u: Update)
    ensures existing.None? || existing.value.kind == u.kind ==> Stamp(v, existing, u).kind == u.kind
  {
  }

  lemma {:induction false} FindAfterSet(v: Variant, conditions: seq<Condition>, u: Update, kind: string)
    ensures Find(SetCondition(v, conditions, u), kind)
            == if kind == u.kind then Some(Stamp(v, Find(conditions, kind), u)) else Find(conditions, kind)
  {
    hide Stamp;
    StampKind(v, None, u);
    if conditions != [] {
      FindAfterSet(v, conditions[1..], u, kind);
      StampKind(v, Some(conditions[0]), u);
    } else {
      var s := [Stamp(v, None, u)];
      assert s[1..] == [];
    }
  }

  lemma {:induction false} KindsAfterSet(v: Variant, conditions: seq<Condition>, u: Update)
    ensures Kinds(SetCondition(v, conditions, u))
            == if u.kind in Kinds(conditions) then Kinds(conditions) else Kinds(conditions) + [u.kind]
  {
    var i := 0;
    while i < |conditions| && conditions[i].kind != u.kind
      invariant 0 <= i <= |conditions|
      invariant forall j :: 0 <= j < i ==> conditions[j].kind != u.kind
    {
      i := i + 1;
    }
    SetAtIndex(v, conditions, u, i);
    if i < |conditions| { assert Kinds(conditions)[i] == u.kind; }
  }

  lemma {:induction false} HistoryOfKinds(v: Variant, updates: seq<Update>)
    ensures Kinds(RunUpdates(v, updates)) == FirstUpdates(updates)
    ensures forall i, j :: 0 <= i < j < |FirstUpdates(updates)| ==> FirstUpdates(updates)[i] != FirstUpdates(updates)[j]
  {
    if updates != [] {
      var before, u := updates[..|updates| - 1], updates[|updates| - 1];
      HistoryOfKinds(v, before);
      KindsAfterSet(v, RunUpdates(v, before), u);
      hide SetCondition, Kinds;
    }
  }

  lemma {:induction false} HistoryOfKind(v: Variant, updates: seq<Update>, kind: string)
    ensures var c, u := Find(RunUpdates(v, updates), kind), Latest(updates, kind);
            && c.Some? == u.Some?
            && (c.Some? ==> c.value.kind == kind && SameContent(c.value, u.value)
                            && Some(c.value.time) == LastTurn(v, updates, kind))
  {
    if updates != [] {
      var before, u := updates[..|updates| - 1], updates[|updates| - 1];
      HistoryOfKind(v, before, kind);
      FindAfterSet(v, RunUpdates(v, before), u, kind);
      hide SetCondition, Find;
    }
  }

  /** After any run from an empty status: kinds are those updated, once each and in the order of first update;
      each condition says what the last update of its kind said, and carries the time of its last turn. */
  lemma HistoryOfConditions(v: Variant, updates: seq<Update>, kind: string)
    ensures Kinds(RunUpdates(v, updates)) == FirstUpdates(updates)
    ensures forall i, j :: 0 <= i < j < |FirstUpdates(updates)| ==> FirstUpdates(updates)[i] != FirstUpdates(updates)[j]
    ensures var c, u := Find(RunUpdates(v, updates), kind), Latest(updates, kind);
            && c.Some? == u.Some?
            && (c.Some? ==> c.value.kind == kind && SameContent(c.value, u.value)
                            && Some(c.value.time) == LastTurn(v, updates, kind))
  {
    HistoryOfKinds(v, updates);
    HistoryOfKind(v, updates, kind);
  }

  /** The clock of a run never goes back, and times given by the caller were read from it. */
  ghost predicate MonotoneClock(updates: seq<Update>) {
    && (forall i, j :: 0 <= i < j < |updates| ==> updates[i].now <= updates[j].now)
    && (forall i :: 0 <= i < |updates| && updates[i].given.Some? ==>
          updates[i].given.value <= updates[i].now && (i > 0 ==> updates[i - 1].now <= updates[i].given.value))
  }

  lemma {:induction false} LatestHasTurn(v: Variant, updates: seq<Update>, kind: string)
    ensures Latest(updates, kind).Some? <==> LastTurn(v, updates, kind).Some?
  {
    if updates != [] { LatestHasTurn(v, updates[..|updates| - 1], kind); }
  }

  /** With such a clock a transition time is never in the future and never moves back. */
  lemma {:induction false} TransitionTimesAdvance(v: Variant, updates: seq<Update>, kind: string)
    requires MonotoneClock(updates) && updates != []
    ensures LastTurn(v, updates, kind).Some? ==> LastTurn(v, updates, kind).value <= updates[|updates| - 1].now
    ensures var before := LastTurn(v, updates[..|updates| - 1], kind);
            before.Some? ==> LastTurn(v, updates, kind).Some? && before.value <= LastTurn(v, updates, kind).value
  {
    var before := updates[..|updates| - 1];
    LatestHasTurn(v, before, kind);
    if before != [] { TransitionTimesAdvance(v, before, kind); }
  }
}
