/**
 * Lazy loading of listener definitions, as values: what registering an
 * event's definitions, one GenericEventLoader and a ChainedEventLoader do to
 * the registry and to the loaders' caches. The loader classes in the
 * EventManager module are proved to do exactly this.
 */
module Loading {
  import opened Wrappers
  import opened Listeners
  import opened Registry
  import opened ListenerIO

  /** The registry after a series of addEventListener calls, and the exception that ended it, if any. */
  datatype Registered = Registered(events: Events, error: Option<EventError>)

  /**
   * registerEventListeners: addEventListener(event, callback, weight) for
   * each definition in order, the callback passed through processCallback
   * (the identity). The first exception ends the loop and propagates; the
   * listeners added before it stay registered.
   */
  function AddAll(events: Events, max: int, event: string, defs: seq<Listener>): (r: Registered)
    requires max > 0
    decreases |defs|
  {
    if defs == [] then Registered(events, None)
    else match Add(events, max, event, defs[0].callback, defs[0].weight)
      case Failure(e) => Registered(events, Some(e))
      case Success(a) => AddAll(a.events, max, event, defs[1..])
  }

  /** Registration keeps the registry invariant, also when it stops half-way. */
  lemma {:induction false} AddAllPreservesWellFormed(events: Events, max: int, event: string, defs: seq<Listener>)
    requires max > 0 && WellFormed(events, max)
    ensures WellFormed(AddAll(events, max, event, defs).events, max)
    decreases |defs|
  {
    if defs != [] {
      var add := Add(events, max, event, defs[0].callback, defs[0].weight);
      if add.Success? {
        AddPreservesWellFormed(events, max, event, defs[0].callback, defs[0].weight);
        AddAllPreservesWellFormed(add.value.events, max, event, defs[1..]);
      }
    }
  }

  /** `after` keeps every listener `before` has for the event, with its weight, and leaves every other event as it was. */
  ghost predicate OnlyAddsTo(before: Events, after: Events, event: string)
  {
    && (forall w | w in SlotsOf(before, event) :: w in SlotsOf(after, event) && SlotsOf(after, event)[w] == SlotsOf(before, event)[w])
    && (forall e | e != event :: SlotsOf(after, e) == SlotsOf(before, e))
  }

  /**
   * Registration only adds to the event it loads: every listener already
   * registered keeps its weight, other events do not change, and when no
   * exception is thrown the event gained exactly one listener per definition.
   */
  lemma {:induction false} AddAllOnlyAdds(events: Events, max: int, event: string, defs: seq<Listener>)
    requires max > 0
    ensures OnlyAddsTo(events, AddAll(events, max, event, defs).events, event)
    ensures AddAll(events, max, event, defs).error.None? ==>
      |SlotsOf(AddAll(events, max, event, defs).events, event)| == |SlotsOf(events, event)| + |defs|
    decreases |defs|
  {
    if defs != [] {
      var add := Add(events, max, event, defs[0].callback, defs[0].weight);
      if add.Success? {
        AddOnlyAdds(events, max, event, defs[0].callback, defs[0].weight);
        AddAllOnlyAdds(add.value.events, max, event, defs[1..]);
        OnlyAddsToTransitive(events, add.value.events, AddAll(events, max, event, defs).events, event);
      }
    }
  }

  /** One successful addEventListener only adds to its event, and adds exactly one listener. */
  lemma AddOnlyAdds(events: Events, max: int, event: string, callback: Callback, weight: Option<int>)
    requires max > 0 && Add(events, max, event, callback, weight).Success?
    ensures OnlyAddsTo(events, Add(events, max, event, callback, weight).value.events, event)
    ensures |SlotsOf(Add(events, max, event, callback, weight).value.events, event)| == |SlotsOf(events, event)| + 1
  {
    AddStoresOnlyThatListener(events, max, event, callback, weight);
    var a := Add(events, max, event, callback, weight).value;
    StoreOnlyAdds(events, a.events, event, AddedWeight(a), a.listener);
  }

  /** Storing one listener at a free weight of one event only adds to that event. */
  lemma StoreOnlyAdds(before: Events, after: Events, event: string, w: int, listener: Listener)
    requires w !in SlotsOf(before, event)
    requires event in after && after[event] == SlotsOf(before, event)[w := listener]
    requires after.Keys == before.Keys + {event}
    requires forall e | e in before && e != event :: after[e] == before[e]
    ensures OnlyAddsTo(before, after, event)
    ensures |SlotsOf(after, event)| == |SlotsOf(before, event)| + 1
  {
    forall e | e != event ensures SlotsOf(after, e) == SlotsOf(before, e) {
    }
  }

  lemma OnlyAddsToTransitive(a: Events, b: Events, c: Events, event: string)
    requires OnlyAddsTo(a, b, event) && OnlyAddsTo(b, c, event)
    ensures OnlyAddsTo(a, c, event)
  {
  }

  // ----- GenericEventLoader -----

  /** A loader's cache after a load, and what registering did. */
  datatype Loaded = Loaded(cache: Definitions, registered: Registered)

  /**
   * loadEventListeners(event, manager) of GenericEventLoader: read the IO when
   * the cache is still empty (false in PHP); when the cache has the event,
   * register its definitions and, if that did not throw, evict the event.
   */
  function GenericLoad(cache: Option<Definitions>, io: Definitions, events: Events, max: int, event: string): (r: Loaded)
    requires max > 0
  {
    var c := if cache.Some? then cache.value else io;
    if event !in c then Loaded(c, Registered(events, None))
    else
      var registered := AddAll(events, max, event, c[event]);
      Loaded(if registered.error.None? then c - {event} else c, registered)
  }

  /**
   * The IO is read only while nothing is cached: once it is, the load does
   * not depend on what the IO would return.
   */
  lemma GenericLoadReadsOnce(cache: Option<Definitions>, io1: Definitions, io2: Definitions, events: Events, max: int, event: string)
    requires max > 0
    ensures cache.Some? ==> GenericLoad(cache, io1, events, max, event) == GenericLoad(cache, io2, events, max, event)
    ensures cache.None? ==> GenericLoad(cache, io1, events, max, event) == GenericLoad(Some(io1), io2, events, max, event)
  {
  }

  /**
   * An event that is not cached causes no addEventListener call and leaves the
   * cache as read; a cached event is registered from its list, in order, and
   * after a successful registration it is evicted while every other entry stays.
   */
  lemma GenericLoadSpec(cache: Option<Definitions>, io: Definitions, events: Events, max: int, event: string)
    requires max > 0
    ensures var c := if cache.Some? then cache.value else io;
      var r := GenericLoad(cache, io, events, max, event);
      && (event !in c ==> r == Loaded(c, Registered(events, None)))
      && (event in c ==> r.registered == AddAll(events, max, event, c[event]))
      && (event in c && r.registered.error.None? ==> event !in r.cache)
      && (event in c && r.registered.error.Some? ==> r.cache == c)
      && (forall e | e != event :: (e in r.cache <==> e in c) && (e in r.cache ==> r.cache[e] == c[e]))
  {
  }

  /** After a successful load of an event, loading it again with the same loader adds nothing. */
  lemma {:induction false} SecondLoadAddsNothing(cache: Option<Definitions>, io: Definitions, events: Events, max: int, event: string)
    requires max > 0
    requires GenericLoad(cache, io, events, max, event).registered.error.None?
    ensures var first := GenericLoad(cache, io, events, max, event);
      GenericLoad(Some(first.cache), io, first.registered.events, max, event)
        == Loaded(first.cache, Registered(first.registered.events, None))
  {
    var c := if cache.Some? then cache.value else io;
    if event in c {
      assert event !in c - {event};
    }
  }

  // ----- ChainedEventLoader -----

  /** The caches of all loaders after a chained load, and what registering did. */
  datatype ChainLoaded<L> = ChainLoaded(caches: map<L, Option<Definitions>>, registered: Registered)

  /**
   * loadEventListeners of ChainedEventLoader: each loader of the chain in
   * order, each with its own cache and IO. An exception from one loader ends
   * the loop; the loaders after it are not called.
   */
  function ChainLoad<L(==)>(chain: seq<L>, caches: map<L, Option<Definitions>>, ios: map<L, Definitions>,
                           events: Events, max: int, event: string): (r: ChainLoaded<L>)
    requires max > 0
    requires forall l | l in chain :: l in caches && l in ios
    ensures r.caches.Keys == caches.Keys
    ensures forall l | l in caches && l !in chain :: r.caches[l] == caches[l]
    decreases |chain|
  {
    if chain == [] then ChainLoaded(caches, Registered(events, None))
    else
      var l := chain[0];
      var step := GenericLoad(caches[l], ios[l], events, max, event);
      var next := caches[l := Some(step.cache)];
      if step.registered.error.Some? then ChainLoaded(next, step.registered)
      else ChainLoad(chain[1..], next, ios, step.registered.events, max, event)
  }

  /**
   * The loaders run one after the other: a chain split in two loads the first
   * part, then, unless that threw, the second part from where the first left off.
   */
  lemma {:induction false} ChainLoadInOrder<L>(first: seq<L>, second: seq<L>, caches: map<L, Option<Definitions>>,
                                              ios: map<L, Definitions>, events: Events, max: int, event: string)
    requires max > 0
    requires forall l | l in first + second :: l in caches && l in ios
    ensures forall l | l in first :: l in caches && l in ios
    ensures var a := ChainLoad(first, caches, ios, events, max, event);
      && (forall l | l in second :: l in a.caches)
      && ChainLoad(first + second, caches, ios, events, max, event)
           == if a.registered.error.Some? then a
              else ChainLoad(second, a.caches, ios, a.registered.events, max, event)
    decreases |first|
  {
    assert forall l | l in first :: l in first + second;
    assert forall l | l in second :: l in first + second;
    if first == [] {
      assert first + second == second;
    } else {
      var l := first[0];
      var step := GenericLoad(caches[l], ios[l], events, max, event);
      var next := caches[l := Some(step.cache)];
      assert (first + second)[0] == l;
      assert (first + second)[1..] == first[1..] + second;
      if step.registered.error.None? {
        ChainLoadInOrder(first[1..], second, next, ios, step.registered.events, max, event);
      }
    }
  }

  /** A chain of one loader behaves as that loader. */
  lemma SingleLoaderChain<L>(l: L, caches: map<L, Option<Definitions>>, ios: map<L, Definitions>, events: Events, max: int, event: string)
    requires max > 0 && l in caches && l in ios
    ensures var step := GenericLoad(caches[l], ios[l], events, max, event);
      ChainLoad([l], caches, ios, events, max, event) == ChainLoaded(caches[l := Some(step.cache)], step.registered)
  {
  }

  /** A chained load keeps the registry invariant. */
  lemma {:induction false} ChainLoadPreservesWellFormed<L>(chain: seq<L>, caches: map<L, Option<Definitions>>, ios: map<L, Definitions>,
                                                          events: Events, max: int, event: string)
    requires max > 0 && WellFormed(events, max)
    requires forall l | l in chain :: l in caches && l in ios
    ensures WellFormed(ChainLoad(chain, caches, ios, events, max, event).registered.events, max)
    decreases |chain|
  {
    if chain != [] {
      var l := chain[0];
      var c := if caches[l].Some? then caches[l].value else ios[l];
      if event in c {
        AddAllPreservesWellFormed(events, max, event, c[event]);
      }
      var step := GenericLoad(caches[l], ios[l], events, max, event);
      if step.registered.error.None? {
        ChainLoadPreservesWellFormed(chain[1..], caches[l := Some(step.cache)], ios, step.registered.events, max, event);
      }
    }
  }
}
