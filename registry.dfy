/**
 * The registry of GenericEventManager as a value: event name -> weight ->
 * listener, and the pure effect of adding and removing a listener. The
 * manager class applies exactly these functions to its `events` field.
 *
 * PHP keeps each event's array ksort-ed after every insert, and unset keeps
 * the relative order, so iterating an event's listeners always visits them in
 * ascending weight: `Ordered` is that iteration order.
 */
module Registry {
  import opened Wrappers
  import opened Listeners
  import opened Sets

  type Slots = map<int, Listener>
  type Events = map<string, Slots>

  const DEFAULT_MAX_EVENT_LISTENERS: int := 100

  /** (int) floor(maxEventListeners / 2): the first weight tried when none is given. */
  function DefaultWeight(max: int): (w: int)
    requires max > 0
    ensures 0 <= w < max
    ensures 2 * w <= max < 2 * w + 2
  {
    max / 2
  }

  function SlotsOf(events: Events, event: string): Slots
  {
    if event in events then events[event] else map[]
  }

  /**
   * The registry invariant: no event has an empty entry, every listener sits
   * under its own (positive, below maximum) weight and its own event name, and
   * was accepted by the EventListener setters.
   */
  predicate WellFormed(events: Events, max: int)
  {
    forall e | e in events ::
      && e != ""
      && events[e] != map[]
      && forall w | w in events[e] ::
           && 1 <= w < max
           && events[e][w].event == e
           && events[e][w].weight == Some(w)
           && !IsEmptyCallback(events[e][w].callback)
  }

  // ----- getNewWeight -----

  /** The smallest weight in [from, max) that no listener of the event uses. */
  function FirstFree(slots: Slots, from: int, max: int): (r: Option<int>)
    ensures r.Some? ==> from <= r.value < max && r.value !in slots
    ensures r.Some? ==> forall w | from <= w < r.value :: w in slots
    ensures r.None? <==> forall w | from <= w < max :: w in slots
    decreases max - from
  {
    if from >= max then None
    else if from !in slots then Some(from)
    else FirstFree(slots, from + 1, max)
  }

  // ----- addEventListener -----

  datatype Added = Added(events: Events, listener: Listener)

  /**
   * addEventListener(event, callback, weight): validate through the
   * EventListener constructor; with no weight take the first free weight from
   * the default one on and pass it to setWeight; with a weight reject it when
   * it reaches the maximum or is already used; then store the listener.
   */
  function Add(events: Events, max: int, event: string, callback: Callback, weight: Option<int>): Result<Added, EventError>
    requires max > 0
  {
    match Validate(event, callback, weight)
    case Failure(e) => Failure(e)
    case Success(l) =>
      var slots := SlotsOf(events, event);
      if weight.None? then
        match FirstFree(slots, DefaultWeight(max), max)
        case None => Failure(NoFreeWeight)
        case Some(w) =>
          match CheckWeight(Some(w))
          case Fail(e) => Failure(e)
          case Pass =>
            var placed := Listener(event, callback, Some(w));
            Success(Added(events[event := slots[w := placed]], placed))
      else if weight.value >= max then Failure(WeightOutOfRange)
      else if weight.value in slots then Failure(WeightTaken)
      else Success(Added(events[event := slots[weight.value := l]], l))
  }

  /** The weight a successful add stored the listener under. */
  function AddedWeight(a: Added): int
    requires a.listener.weight.Some?
  {
    a.listener.weight.value
  }

  /**
   * An explicit weight is accepted exactly when the listener is valid, the
   * weight is below the maximum and the slot is free; each rejection has its
   * own error, checked in the source's order.
   */
  lemma AddExplicitWeight(events: Events, max: int, event: string, callback: Callback, w: int)
    requires max > 0
    ensures var r := Add(events, max, event, callback, Some(w));
      && (r.Success? <==> Validate(event, callback, Some(w)).Success? && w < max && w !in SlotsOf(events, event))
      && (Validate(event, callback, Some(w)).Success? && w >= max ==> r == Failure(WeightOutOfRange))
      && (Validate(event, callback, Some(w)).Success? && w < max && w in SlotsOf(events, event) ==> r == Failure(WeightTaken))
      && (r.Success? ==> r.value.listener == Listener(event, callback, Some(w)))
  {
  }

  /**
   * Without a weight the listener gets the smallest free weight in
   * [defaultWeight, max); the add fails when there is none, and also when that
   * weight is 0 (only with max = 1), because setWeight rejects 0.
   */
  lemma AddAutomaticWeight(events: Events, max: int, event: string, callback: Callback)
    requires max > 0 && WellFormed(events, max)
    requires Validate(event, callback, None).Success?
    ensures var r := Add(events, max, event, callback, None);
      var slots := SlotsOf(events, event);
      var d := DefaultWeight(max);
      && ((forall w | d <= w < max :: w in slots) ==> r == Failure(NoFreeWeight))
      && (max == 1 ==> r == Failure(InvalidWeight))
      && (r.Success? <==> max > 1 && exists w :: d <= w < max && w !in slots)
      && (r.Success? ==>
            var w := AddedWeight(r.value);
            && d <= w < max && w !in slots
            && (forall v | d <= v < w :: v in slots)
            && r.value.listener == Listener(event, callback, Some(w)))
  {
    var slots := SlotsOf(events, event);
    var d := DefaultWeight(max);
    var f := FirstFree(slots, d, max);
    if f.Some? && max > 1 {
      assert d >= 1;
    }
    if max == 1 {
      assert 0 !in slots;
    }
  }

  /**
   * A successful add stores the listener under its weight in its event and
   * changes nothing else: the other weights of the event and all other events
   * keep their listeners.
   */
  lemma AddStoresOnlyThatListener(events: Events, max: int, event: string, callback: Callback, weight: Option<int>)
    requires max > 0
    requires Add(events, max, event, callback, weight).Success?
    ensures var a := Add(events, max, event, callback, weight).value;
      && a.listener.weight.Some?
      && a.listener.event == event && a.listener.callback == callback
      && (weight.Some? ==> a.listener.weight == weight)
      && event in a.events && a.events[event] == SlotsOf(events, event)[AddedWeight(a) := a.listener]
      && AddedWeight(a) !in SlotsOf(events, event)
      && a.events.Keys == events.Keys + {event}
      && forall e | e in events && e != event :: a.events[e] == events[e]
  {
  }

  /** Adding keeps the registry invariant. */
  lemma {:induction false} AddPreservesWellFormed(events: Events, max: int, event: string, callback: Callback, weight: Option<int>)
    requires max > 0 && WellFormed(events, max)
    requires Add(events, max, event, callback, weight).Success?
    ensures WellFormed(Add(events, max, event, callback, weight).value.events, max)
  {
    var a := Add(events, max, event, callback, weight).value;
    AddStoresOnlyThatListener(events, max, event, callback, weight);
    if weight.None? {
      AddAutomaticWeight(events, max, event, callback);
    }
    forall e | e in a.events
      ensures e != "" && a.events[e] != map[]
      ensures forall w | w in a.events[e] ::
        1 <= w < max && a.events[e][w].event == e && a.events[e][w].weight == Some(w)
        && !IsEmptyCallback(a.events[e][w].callback)
    {
      if e == event {
        assert AddedWeight(a) in a.events[e];
      }
    }
  }

  /**
   * With maxEventListeners = 3 the default weight is 1: two listeners added
   * without weight take 1 and 2, and the third add finds no free weight.
   */
  lemma ThirdAutomaticAddFails(callback: Callback)
    requires !IsEmptyCallback(callback)
    ensures Add(map[], 3, "event", callback, None).Success?
    ensures var e1 := Add(map[], 3, "event", callback, None).value;
      && AddedWeight(e1) == 1
      && Add(e1.events, 3, "event", callback, None).Success?
      && var e2 := Add(e1.events, 3, "event", callback, None).value;
         && AddedWeight(e2) == 2
         && Add(e2.events, 3, "event", callback, None) == Failure(NoFreeWeight)
  {
    var s1 := map[1 := Listener("event", callback, Some(1))];
    assert FirstFree(s1, 1, 3) == Some(2);
    var s2 := s1[2 := Listener("event", callback, Some(2))];
    assert FirstFree(s2, 1, 3) == None;
  }

  // ----- iteration order -----

  predicate StrictlyIncreasing(s: seq<int>)
  {
    forall i, j | 0 <= i < j < |s| :: s[i] < s[j]
  }

  function Smallest(ws: set<int>): (m: int)
    requires ws != {}
    ensures m in ws && forall x | x in ws :: m <= x
  {
    SmallestExists(ws);
    var m :| m in ws && forall x | x in ws :: m <= x;
    m
  }

  lemma {:induction false} SmallestExists(ws: set<int>)
    requires ws != {}
    ensures exists m :: m in ws && forall x | x in ws :: m <= x
    decreases |ws|
  {
    var y := NonEmptyHasMember(ws);
    if ws == {y} {
      assert forall x | x in ws :: y <= x;
    } else {
      var rest := ws - {y};
      SmallestExists(rest);
      var m :| m in rest && forall x | x in rest :: m <= x;
      var best := if y < m then y else m;
      forall x | x in ws ensures best <= x {
        if x != y { assert x in rest; }
      }
      assert best in ws;
    }
  }

  /** The weights of an event in the order ksort leaves them: smallest first. */
  function SortedWeights(ws: set<int>): (r: seq<int>)
    ensures |r| == |ws|
    ensures forall x :: x in r <==> x in ws
    decreases |ws|
  {
    if ws == {} then []
    else
      var m := Smallest(ws);
      [m] + SortedWeights(ws - {m})
  }

  /** The listing is ascending, so every weight appears once. */
  lemma {:induction false} SortedWeightsAscending(ws: set<int>)
    ensures StrictlyIncreasing(SortedWeights(ws))
    decreases |ws|
  {
    if ws != {} {
      var m := Smallest(ws);
      var rest := SortedWeights(ws - {m});
      SortedWeightsAscending(ws - {m});
      forall i | 0 <= i < |rest| ensures m < rest[i] {
        assert rest[i] in ws - {m};
      }
    }
  }

  lemma AscendingAt(s: seq<int>, a: nat, b: nat)
    requires StrictlyIncreasing(s) && a <= b < |s|
    ensures s[a] <= s[b]
  {
  }

  /** An ascending listing of a set of weights is the one SortedWeights gives. */
  lemma {:induction false} SortedWeightsUnique(ws: set<int>, s: seq<int>)
    requires StrictlyIncreasing(s)
    requires forall x :: x in s <==> x in ws
    ensures SortedWeights(ws) == s
    decreases |s|
  {
    if s == [] {
      assert (forall x :: x !in ws) ==> ws == {};
    } else {
      var m, tail := s[0], s[1..];
      ListingSplits(ws, s);
      SortedWeightsUnique(ws - {m}, tail);
      calc {
        SortedWeights(ws);
        [Smallest(ws)] + SortedWeights(ws - {Smallest(ws)});
        [m] + tail;
        s;
      }
    }
  }

  /** The head of an ascending listing is the smallest weight, the tail lists the others. */
  lemma ListingSplits(ws: set<int>, s: seq<int>)
    requires s != [] && StrictlyIncreasing(s)
    requires forall x :: x in s <==> x in ws
    ensures ws != {} && s[0] == Smallest(ws)
    ensures StrictlyIncreasing(s[1..])
    ensures forall x :: x in s[1..] <==> x in ws - {s[0]}
  {
    assert s[0] in s;
    var m := Smallest(ws);
    assert m in s;
    var tail := s[1..];
    forall x ensures x in tail <==> x in ws - {s[0]} {
      if x in tail {
        var k :| 0 <= k < |tail| && tail[k] == x;
        assert s[k + 1] == x && s[0] < s[k + 1];
      }
      if x in ws - {s[0]} {
        assert x in s;
        var k :| 0 <= k < |s| && s[k] == x;
        assert tail[k - 1] == x;
      }
    }
  }

  /** The listeners stored under a listing of weights, in the listing's order. */
  function ListenersAt(ws: seq<int>, slots: Slots): (r: seq<Listener>)
    requires forall i | 0 <= i < |ws| :: ws[i] in slots
    ensures |r| == |ws|
    ensures forall i | 0 <= i < |ws| :: r[i] == slots[ws[i]]
    decreases |ws|
  {
    if ws == [] then [] else [slots[ws[0]]] + ListenersAt(ws[1..], slots)
  }

  /** The listeners of one event in the order triggerEvent and removeEventListener visit them. */
  function Ordered(slots: Slots): (r: seq<Listener>)
    ensures |r| == |slots|
  {
    var ws := SortedWeights(slots.Keys);
    assert forall i | 0 <= i < |ws| :: ws[i] in slots;
    ListenersAt(ws, slots)
  }

  /** Given any ascending listing of the weights, Ordered visits the listeners in that listing's order. */
  lemma OrderedFollowsListing(slots: Slots, ws: seq<int>)
    requires StrictlyIncreasing(ws)
    requires forall x :: x in ws <==> x in slots
    ensures forall i | 0 <= i < |ws| :: ws[i] in slots
    ensures Ordered(slots) == ListenersAt(ws, slots)
  {
    SortedWeightsUnique(slots.Keys, ws);
  }

  // ----- removeEventListener -----

  /** The three ways removeEventListener names what to remove. */
  datatype Selector = ByWeight(weight: int) | ByCallback(callback: Callback) | ByListener(listener: Listener)

  predicate Selects(sel: Selector, w: int, l: Listener)
  {
    match sel
    case ByWeight(x) => x == w
    case ByCallback(c) => l.callback == c
    case ByListener(x) => l == x
  }

  /** The position of the first weight of `ws` whose listener the selector picks, |ws| when none does. */
  function FirstSelected(ws: seq<int>, slots: Slots, sel: Selector): (k: nat)
    requires forall i | 0 <= i < |ws| :: ws[i] in slots
    ensures k <= |ws|
    ensures k < |ws| ==> Selects(sel, ws[k], slots[ws[k]])
    ensures forall i | 0 <= i < k :: !Selects(sel, ws[i], slots[ws[i]])
    decreases |ws|
  {
    if ws == [] then 0
    else if Selects(sel, ws[0], slots[ws[0]]) then 0
    else 1 + FirstSelected(ws[1..], slots, sel)
  }

  /** A position where the selector first matches is the one FirstSelected finds. */
  lemma FirstSelectedIs(ws: seq<int>, slots: Slots, sel: Selector, k: nat)
    requires forall i | 0 <= i < |ws| :: ws[i] in slots
    requires k <= |ws| && (k < |ws| ==> Selects(sel, ws[k], slots[ws[k]]))
    requires forall i | 0 <= i < k :: !Selects(sel, ws[i], slots[ws[i]])
    ensures FirstSelected(ws, slots, sel) == k
  {
  }

  /**
   * The weight removeEventListener removes from an event: by weight that slot
   * when it is set, otherwise the first listener in weight order that matches.
   */
  function Target(slots: Slots, sel: Selector): (r: Option<int>)
  {
    match sel
    case ByWeight(w) => if w in slots then Some(w) else None
    case _ =>
      var ws := SortedWeights(slots.Keys);
      var k := FirstSelected(ws, slots, sel);
      if k < |ws| then Some(ws[k]) else None
  }

  /** The weight removed is the lowest one whose listener matches; none matches when nothing is removed. */
  lemma TargetIsLowestMatch(slots: Slots, sel: Selector)
    ensures var r := Target(slots, sel);
      && (r.Some? ==> r.value in slots && Selects(sel, r.value, slots[r.value]))
      && (r.Some? ==> forall w | w in slots && w < r.value :: !Selects(sel, w, slots[w]))
      && (r.None? <==> forall w | w in slots :: !Selects(sel, w, slots[w]))
  {
    if !sel.ByWeight? {
      var ws := SortedWeights(slots.Keys);
      SortedWeightsAscending(slots.Keys);
      var k := FirstSelected(ws, slots, sel);
      forall w | w in slots && (k < |ws| ==> w < ws[k]) ensures !Selects(sel, w, slots[w]) {
        assert w in ws;
        var i :| 0 <= i < |ws| && ws[i] == w;
        if k < |ws| && k <= i {
          AscendingAt(ws, k, i);
        }
      }
    }
  }

  /** unset($events[$event][$weight]), then unset($events[$event]) when that emptied it. */
  function RemoveAt(events: Events, event: string, w: int): (after: Events)
    requires event in events
    ensures SlotsOf(after, event) == events[event] - {w}
    ensures event in after <==> SlotsOf(after, event) != map[]
    ensures forall e | e != event :: (e in after <==> e in events) && (e in after ==> after[e] == events[e])
  {
    var rest := events[event] - {w};
    if rest == map[] then events - {event} else events[event := rest]
  }

  /**
   * removeEventListener(event, selector) once the event has listeners: drop
   * the target weight, and the whole event when that was its last listener.
   * The flag says whether a listener was removed.
   */
  function Remove(events: Events, event: string, sel: Selector): (Events, bool)
  {
    if event !in events then (events, false)
    else match Target(events[event], sel)
      case None => (events, false)
      case Some(w) => (RemoveAt(events, event, w), true)
  }

  /**
   * Removal reports true exactly when the event has a listener the selector
   * picks (TargetIsLowestMatch says which one); it then removes that weight and
   * nothing else, and drops the event when no listener is left.
   */
  lemma RemoveRemovesTarget(events: Events, event: string, sel: Selector)
    ensures var r := Remove(events, event, sel);
      && (r.1 <==> event in events && Target(events[event], sel).Some?)
      && (!r.1 ==> r.0 == events)
      && (r.1 ==> r.0 == RemoveAt(events, event, Target(events[event], sel).value))
  {
  }

  /** Removal keeps the registry invariant; in particular no event is left without listeners. */
  lemma RemovePreservesWellFormed(events: Events, max: int, event: string, sel: Selector)
    requires WellFormed(events, max)
    ensures WellFormed(Remove(events, event, sel).0, max)
  {
  }

  /**
   * In a well-formed registry a listener value names its own slot: removing
   * by listener removes it exactly when it is registered under its weight.
   */
  lemma RemoveByListener(events: Events, max: int, l: Listener)
    requires WellFormed(events, max)
    ensures Remove(events, l.event, ByListener(l)).1 <==>
      l.event in events && l.weight.Some? && l.weight.value in events[l.event] && events[l.event][l.weight.value] == l
  {
    RemoveRemovesTarget(events, l.event, ByListener(l));
    if l.event in events {
      TargetIsLowestMatch(events[l.event], ByListener(l));
    }
  }
}
