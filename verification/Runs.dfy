/** Runs of a step function that says which events are possible in a state. */
module Runs {
  import opened Common

  /** The state after the events `es`; None if one of them was not possible. */
  function Run<S, E>(step: (S, E) -> Option<S>, s: S, es: seq<E>): Option<S> {
    if es == [] then Some(s)
    else
      match step(s, es[0])
      case None => None
      case Some(t) => Run(step, t, es[1..])
  }

  /** What every step keeps holds after every run. */
  lemma {:induction false} Invariant<S(!new), E(!new)>(step: (S, E) -> Option<S>, inv: S -> bool, s: S, es: seq<E>)
    requires inv(s)
    requires forall t, e :: inv(t) && step(t, e).Some? ==> inv(step(t, e).value)
    ensures Run(step, s, es).Some? ==> inv(Run(step, s, es).value)
    decreases |es|
  {
    if es != [] && step(s, es[0]).Some? {
      Invariant(step, inv, step(s, es[0]).value, es[1..]);
    }
  }

  /** A run goes on from where it was. */
  lemma {:induction false} RunAppend<S, E>(step: (S, E) -> Option<S>, s: S, es: seq<E>, fs: seq<E>)
    requires Run(step, s, es).Some?
    ensures Run(step, s, es + fs) == Run(step, Run(step, s, es).value, fs)
    decreases |es|
  {
    if es == [] {
      assert es + fs == fs;
    } else {
      RunAppend(step, step(s, es[0]).value, es[1..], fs);
      assert (es + fs)[1..] == es[1..] + fs;
    }
  }

  /** The first part of a run is a run. */
  lemma {:induction false} RunSplit<S, E>(step: (S, E) -> Option<S>, s: S, es: seq<E>, fs: seq<E>)
    requires Run(step, s, es + fs).Some?
    ensures Run(step, s, es).Some? && Run(step, Run(step, s, es).value, fs) == Run(step, s, es + fs)
    decreases |es|
  {
    if es == [] {
      assert es + fs == fs;
    } else {
      assert (es + fs)[1..] == es[1..] + fs;
      RunSplit(step, step(s, es[0]).value, es[1..], fs);
    }
  }

  lemma RunNone<S, E>(step: (S, E) -> Option<S>, s: S)
    ensures Run(step, s, []) == Some(s)
  {
  }

  lemma RunOne<S, E>(step: (S, E) -> Option<S>, s: S, e: E)
    ensures Run(step, s, [e]) == step(s, e)
  {
    assert [e][1..] == [];
    match step(s, e)
    case None =>
    case Some(t) => RunNone(step, t);
  }

  lemma RunExtend<S, E>(step: (S, E) -> Option<S>, s: S, es: seq<E>, t: S, e: E)
    requires Run(step, s, es) == Some(t)
    ensures Run(step, s, es + [e]) == step(t, e)
  {
    RunAppend(step, s, es, [e]);
    RunOne(step, t, e);
  }

  /** What an observer notes of a run, step by step. */
  function Trace<S, E, X>(step: (S, E) -> Option<S>, note: (S, E) -> seq<X>, s: S, es: seq<E>): seq<X> {
    if es == [] || step(s, es[0]).None? then []
    else note(s, es[0]) + Trace(step, note, step(s, es[0]).value, es[1..])
  }

  /** A log in the state that grows by the notes of every step holds the notes of the run. */
  lemma {:induction false} LogIsTrace<S(!new), E(!new), X(!new)>(
      step: (S, E) -> Option<S>, note: (S, E) -> seq<X>, log: S -> seq<X>, s: S, es: seq<E>)
    requires forall t, e :: step(t, e).Some? ==> log(step(t, e).value) == log(t) + note(t, e)
    requires Run(step, s, es).Some?
    ensures log(Run(step, s, es).value) == log(s) + Trace(step, note, s, es)
    decreases |es|
  {
    if es == [] {
      assert log(s) + [] == log(s);
    } else {
      var t := step(s, es[0]).value;
      LogIsTrace(step, note, log, t, es[1..]);
      assert log(s) + note(s, es[0]) + Trace(step, note, t, es[1..])
          == log(s) + (note(s, es[0]) + Trace(step, note, t, es[1..]));
    }
  }

  /** The same event `k` times. */
  function Repeat<E>(e: E, k: nat): seq<E> {
    if k == 0 then [] else [e] + Repeat(e, k - 1)
  }

  lemma RunRepeat<S, E>(step: (S, E) -> Option<S>, s: S, e: E, k: nat)
    ensures Run(step, s, Repeat(e, 0)) == Some(s)
    ensures Run(step, s, Repeat(e, k + 1))
         == if step(s, e).None? then None else Run(step, step(s, e).value, Repeat(e, k))
  {
    assert Repeat(e, k + 1)[1..] == Repeat(e, k);
  }

}
