/** What an API server does with the calls made to it, one after the other: what others write before each call,
    whether it is refused, and how old a state a read is shown. A script gives all that as an input; after its end
    nothing happens any more. */
module Answers {

  datatype Refusal = Accepted | Conflicts | Fails

  /** A read through a cache shows the present state, that of an earlier version, or nothing. */
  datatype Shown = Present | Past(version: nat) | Nothing

  datatype Answer<E> = Answer(others: seq<E>, refusal: Refusal, shown: Shown)

  /** Nobody else writes, and no read is out of date. */
  predicate Still<E>(script: seq<Answer<E>>) {
    forall i :: 0 <= i < |script| ==> |script[i].others| == 0 && script[i].shown.Present?
  }

  /** Besides, no call is refused. */
  predicate Quiet<E>(script: seq<Answer<E>>) {
    Still(script) && forall i :: 0 <= i < |script| ==> script[i].refusal.Accepted?
  }

  function Next<E>(script: seq<Answer<E>>): (answer: Answer<E>)
    ensures Still(script) ==> answer.others == [] && answer.shown.Present?
    ensures Quiet(script) ==> Still(script) && answer == Answer([], Accepted, Present)
  {
    if script == [] then Answer([], Accepted, Present) else script[0]
  }

  function Rest<E>(script: seq<Answer<E>>): (rest: seq<Answer<E>>)
    ensures Still(script) ==> Still(rest)
    ensures Quiet(script) ==> Quiet(rest)
  {
    if script == [] then [] else script[1..]
  }

  lemma QuietIsStill<E>(script: seq<Answer<E>>)
    ensures Quiet(script) ==> Still(script)
  {
  }

  /** The script after `n` calls, and the answer to call number `n`, counted from 0. */
  function Drop<E>(script: seq<Answer<E>>, n: nat): seq<Answer<E>> {
    if n <= |script| then script[n..] else []
  }

  function At<E>(script: seq<Answer<E>>, n: nat): Answer<E> {
    if n < |script| then script[n] else Answer([], Accepted, Present)
  }

  lemma OneCallLater<E>(script: seq<Answer<E>>, n: nat)
    ensures Next(Drop(script, n)) == At(script, n) && Rest(Drop(script, n)) == Drop(script, n + 1)
    ensures Drop(script, 0) == script
    ensures Still(script) ==> Still(Drop(script, n))
    ensures Quiet(script) ==> Quiet(Drop(script, n)) && At(script, n).refusal.Accepted?
  {
  }

  lemma DropTwice<E>(script: seq<Answer<E>>, m: nat, n: nat)
    ensures Drop(Drop(script, m), n) == Drop(script, m + n)
    ensures At(Drop(script, m), n) == At(script, m + n)
  {
  }
}
