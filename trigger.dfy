/**
 * triggerEvent's walk over the listeners of one event: every listener's
 * callback acts on the one shared event and on the rest of the program (the
 * "world"), and the walk stops right after a listener has set the prevent
 * default flag.
 */
module Triggering {
  import opened Wrappers
  import opened EventObject
  import opened Listeners
  import opened Registry

  /**
   * The effect of invoking a callback with the event: the new event state and
   * the new state of the world. Reflection-based invocation is not modelled;
   * the caller supplies this function.
   */
  type Invoke<!W> = (Callback, EventState, W) -> (EventState, W)

  /** The outcome of a trigger: final event state, final world, number of listeners invoked. */
  datatype Run<W> = Run(state: EventState, world: W, invoked: nat)

  /**
   * Invoke the listeners in order and stop after the first one that leaves
   * the event with prevent default set.
   */
  function Dispatch<W>(ls: seq<Listener>, s: EventState, w: W, invoke: Invoke<W>): (r: Run<W>)
    ensures r.invoked <= |ls|
    ensures ls != [] ==> r.invoked >= 1
    ensures r.invoked < |ls| ==> r.state.preventDefault
    ensures ls == [] ==> r == Run(s, w, 0)
    decreases |ls|
  {
    if ls == [] then Run(s, w, 0)
    else
      var next := invoke(ls[0].callback, s, w);
      if next.0.preventDefault then Run(next.0, next.1, 1)
      else
        var rest := Dispatch(ls[1..], next.0, next.1, invoke);
        Run(rest.state, rest.world, rest.invoked + 1)
  }

  /** The reference run: invoke every listener in order, ignoring the flag. */
  function RunAll<W>(ls: seq<Listener>, s: EventState, w: W, invoke: Invoke<W>): (EventState, W)
    decreases |ls|
  {
    if ls == [] then (s, w)
    else
      var next := invoke(ls[0].callback, s, w);
      RunAll(ls[1..], next.0, next.1, invoke)
  }

  /**
   * The dispatch of n listeners is the full run of the first n listeners;
   * none of the earlier ones left the flag set, and when listeners were
   * skipped the n-th one did set it.
   */
  lemma {:induction false} DispatchIsStoppedRun<W>(ls: seq<Listener>, s: EventState, w: W, invoke: Invoke<W>)
    ensures var r := Dispatch(ls, s, w, invoke);
      && (r.state, r.world) == RunAll(ls[..r.invoked], s, w, invoke)
      && (forall j | 1 <= j < r.invoked :: !RunAll(ls[..j], s, w, invoke).0.preventDefault)
      && (r.invoked < |ls| ==> RunAll(ls[..r.invoked], s, w, invoke).0.preventDefault)
    decreases |ls|
  {
    if ls != [] {
      var next := invoke(ls[0].callback, s, w);
      var r := Dispatch(ls, s, w, invoke);
      assert RunAll(ls[..1], s, w, invoke) == RunAll(ls[1..][..0], next.0, next.1, invoke);
      if !next.0.preventDefault {
        DispatchIsStoppedRun(ls[1..], next.0, next.1, invoke);
        forall j | 1 <= j <= |ls|
          ensures RunAll(ls[..j], s, w, invoke) == RunAll(ls[1..][..j - 1], next.0, next.1, invoke)
        {
          assert ls[..j][1..] == ls[1..][..j - 1];
        }
      }
    }
  }

  /** Listeners after the one that stopped the event are never invoked. */
  lemma {:induction false} StopSkipsLaterListeners<W>(ls: seq<Listener>, more: seq<Listener>, s: EventState, w: W, invoke: Invoke<W>)
    requires ls != [] && Dispatch(ls, s, w, invoke).state.preventDefault
    ensures Dispatch(ls + more, s, w, invoke) == Dispatch(ls, s, w, invoke)
    decreases |ls|
  {
    var next := invoke(ls[0].callback, s, w);
    assert (ls + more)[0] == ls[0];
    if !next.0.preventDefault {
      assert (ls + more)[1..] == ls[1..] + more;
      StopSkipsLaterListeners(ls[1..], more, next.0, next.1, invoke);
    }
  }

  /**
   * When no listener of a first part stops the event, the listeners after it
   * run on the state the first part left, and the counts add up.
   */
  lemma {:induction false} DispatchContinues<W>(ls: seq<Listener>, more: seq<Listener>, s: EventState, w: W, invoke: Invoke<W>)
    requires !Dispatch(ls, s, w, invoke).state.preventDefault
    ensures var first := Dispatch(ls, s, w, invoke);
      var rest := Dispatch(more, first.state, first.world, invoke);
      Dispatch(ls + more, s, w, invoke) == Run(rest.state, rest.world, first.invoked + rest.invoked)
    decreases |ls|
  {
    if ls == [] {
      assert ls + more == more;
    } else {
      var next := invoke(ls[0].callback, s, w);
      assert (ls + more)[0] == ls[0];
      assert (ls + more)[1..] == ls[1..] + more;
      DispatchContinues(ls[1..], more, next.0, next.1, invoke);
    }
  }

  /** A run that started i listeners earlier. */
  function Later<W>(r: Run<W>, i: nat): Run<W>
  {
    Run(r.state, r.world, r.invoked + i)
  }

  /**
   * Where triggerEvent's loop stands after i listeners: none of them stopped
   * the event, and dispatching the rest from here completes the whole dispatch.
   */
  ghost predicate DispatchedSoFar<W>(ls: seq<Listener>, s: EventState, w: W, invoke: Invoke<W>, i: nat, state: EventState, world: W)
  {
    && i <= |ls|
    && !state.preventDefault
    && Dispatch(ls, s, w, invoke) == Later(Dispatch(ls[i..], state, world, invoke), i)
  }

  /** Before the first listener, the whole dispatch is still ahead. */
  lemma DispatchStart<W>(ls: seq<Listener>, s: EventState, w: W, invoke: Invoke<W>)
    requires !s.preventDefault
    ensures DispatchedSoFar(ls, s, w, invoke, 0, s, w)
  {
    assert ls[0..] == ls;
  }

  /** After listener i returned `next`: the dispatch ended there, or the loop goes on from `next`. */
  ghost predicate DispatchAdvanced<W>(ls: seq<Listener>, s: EventState, w: W, invoke: Invoke<W>, i: nat, next: (EventState, W))
  {
    && (next.0.preventDefault ==> Dispatch(ls, s, w, invoke) == Run(next.0, next.1, i + 1))
    && (!next.0.preventDefault ==> DispatchedSoFar(ls, s, w, invoke, i + 1, next.0, next.1))
  }

  /**
   * Invoking the next listener either stops the event, and then the dispatch
   * ends there, or leaves the loop one listener further on.
   */
  lemma DispatchStep<W>(ls: seq<Listener>, s: EventState, w: W, invoke: Invoke<W>, i: nat, state: EventState, world: W)
    requires DispatchedSoFar(ls, s, w, invoke, i, state, world) && i < |ls|
    ensures DispatchAdvanced(ls, s, w, invoke, i, invoke(ls[i].callback, state, world))
  {
    assert ls[i..][0] == ls[i] && ls[i..][1..] == ls[i + 1..];
  }

  /** Once every listener ran without stopping the event, the dispatch is what the loop holds. */
  lemma DispatchDone<W>(ls: seq<Listener>, s: EventState, w: W, invoke: Invoke<W>, state: EventState, world: W)
    requires DispatchedSoFar(ls, s, w, invoke, |ls|, state, world)
    ensures Dispatch(ls, s, w, invoke) == Run(state, world, |ls|)
  {
    assert ls[|ls|..] == [];
  }
}
