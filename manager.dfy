/**
 * The event manager and its lazy loaders as objects. GenericEventManager keeps
 * the registry and the set of events already loaded; hasEventListeners asks
 * the loader once per event; GenericEventLoader reads its IO once and hands
 * each event's definitions to addEventListener; ChainedEventLoader asks its
 * loaders in order. Each method is proved to do what the value-level
 * functions of Registry, Loading and Triggering say.
 */
module EventManager {
  import opened Wrappers
  import opened EventObject
  import opened Listeners
  import opened Registry
  import opened Chains
  import opened ListenerIO
  import opened Loading
  import opened Triggering

  /** The IO behind a GenericEventLoader: one source of definitions, or a chain of them. */
  datatype EventListenerIO = Source(source: DefinitionSource) | Chain(chain: ChainedEventListenerIO)

  /** What the IO's readEventListeners returns. */
  function IoContents(io: EventListenerIO): Definitions
    reads if io.Chain? then {io.chain} else {}
  {
    match io
    case Source(s) => s.definitions
    case Chain(c) => c.Read()
  }

  method ReadEventListeners(io: EventListenerIO) returns (d: Definitions)
    ensures d == IoContents(io)
  {
    match io
    case Source(s) =>
      d := s.definitions;
    case Chain(c) =>
      d := c.ReadEventListeners();
  }

  /** The IO chains a list of loaders reads from. */
  function IoObjects(loaders: seq<GenericEventLoader>): set<ChainedEventListenerIO>
  {
    set l | l in loaders && l.io.Chain? :: l.io.chain
  }

  /** Each loader's cache. */
  function Caches(loaders: seq<GenericEventLoader>): map<GenericEventLoader, Option<Definitions>>
    reads (set l | l in loaders)`eventListeners
  {
    map l | l in loaders :: l.eventListeners
  }

  /** What each loader's IO would return. */
  function Ios(loaders: seq<GenericEventLoader>): map<GenericEventLoader, Definitions>
    reads IoObjects(loaders)
  {
    map l | l in loaders :: IoContents(l.io)
  }

  /** The hook a subclass may override; here it hands the callback on unchanged. */
  function ProcessCallback(callback: Callback): Callback
  {
    callback
  }

  // ----- GenericEventLoader -----

  class GenericEventLoader {
    const io: EventListenerIO
    /** The definitions read from the IO and not yet registered; None before the first load (false in PHP). */
    var eventListeners: Option<Definitions>

    constructor (io: EventListenerIO)
      ensures this.io == io && eventListeners == None
    {
      this.io := io;
      eventListeners := None;
    }

    /**
     * loadEventListeners(event, manager): read the IO on the first call only;
     * register the event's definitions, if any, and evict them unless
     * registering threw.
     */
    method LoadEventListeners(event: string, manager: GenericEventManager) returns (error: Option<EventError>)
      requires manager.Valid()
      modifies this`eventListeners, manager`events
      ensures manager.Valid()
      ensures eventListeners.Some?
      ensures GenericLoad(old(eventListeners), old(IoContents(io)), old(manager.events), manager.maxEventListeners, event)
        == Loaded(eventListeners.value, Registered(manager.events, error))
    {
      if eventListeners.None? {
        var read := ReadEventListeners(io);
        eventListeners := Some(read);
      }
      var c := eventListeners.value;
      error := None;
      if event in c {
        error := RegisterEventListeners(event, manager);
        if error.None? {
          eventListeners := Some(c - {event});
        }
      }
    }

    /** registerEventListeners(event, manager): addEventListener for each definition, in order. */
    method RegisterEventListeners(event: string, manager: GenericEventManager) returns (error: Option<EventError>)
      requires eventListeners.Some? && event in eventListeners.value
      requires manager.Valid()
      modifies manager`events
      ensures manager.Valid()
      ensures AddAll(old(manager.events), manager.maxEventListeners, event, eventListeners.value[event])
        == Registered(manager.events, error)
    {
      var defs := eventListeners.value[event];
      var i := 0;
      while i < |defs|
        invariant 0 <= i <= |defs|
        invariant manager.Valid()
        invariant AddAll(old(manager.events), manager.maxEventListeners, event, defs)
          == AddAll(manager.events, manager.maxEventListeners, event, defs[i..])
      {
        assert defs[i..][0] == defs[i] && defs[i..][1..] == defs[i + 1..];
        var callback := ProcessCallback(defs[i].callback);
        var added := manager.AddEventListener(event, callback, defs[i].weight);
        if added.Failure? {
          return Some(added.error);
        }
        i := i + 1;
      }
      return None;
    }
  }

  // ----- ChainedEventLoader -----

  class ChainedEventLoader {
    var eventLoaders: seq<GenericEventLoader>

    constructor ()
      ensures eventLoaders == []
    {
      eventLoaders := [];
    }

    /** addEventLoader(loader, prepend): append, or put it first. */
    method AddEventLoader(eventLoader: GenericEventLoader, prepend: bool := false)
      modifies this`eventLoaders
      ensures eventLoaders == Chains.Added(old(eventLoaders), eventLoader, prepend)
    {
      if prepend {
        eventLoaders := [eventLoader] + eventLoaders;
      } else {
        eventLoaders := eventLoaders + [eventLoader];
      }
    }

    /** removeEventLoader(loader): remove the first entry that is this very object. */
    method RemoveEventLoader(eventLoader: GenericEventLoader) returns (removed: bool)
      modifies this`eventLoaders
      ensures (eventLoaders, removed) == RemoveFirst(old(eventLoaders), eventLoader)
    {
      var i := 0;
      while i < |eventLoaders|
        invariant 0 <= i <= |eventLoaders|
        invariant forall j | 0 <= j < i :: eventLoaders[j] != eventLoader
      {
        if eventLoaders[i] == eventLoader {
          assert FirstIndex(eventLoaders, eventLoader) == i by {
            FirstIndexIsFirst(eventLoaders, eventLoader, i);
          }
          eventLoaders := eventLoaders[..i] + eventLoaders[i + 1..];
          return true;
        }
        i := i + 1;
      }
      FirstIndexIsFirst(eventLoaders, eventLoader, |eventLoaders|);
      return false;
    }

    /** loadEventListeners(event, manager): every loader of the chain, in order, until one throws. */
    method LoadEventListeners(event: string, manager: GenericEventManager) returns (error: Option<EventError>)
      requires manager.Valid()
      modifies (set l | l in eventLoaders), manager`events
      ensures manager.Valid()
      ensures ChainLoad(eventLoaders, old(Caches(eventLoaders)), old(Ios(eventLoaders)), old(manager.events), manager.maxEventListeners, event)
        == ChainLoaded(Caches(eventLoaders), Registered(manager.events, error))
    {
      ghost var ios := Ios(eventLoaders);
      ghost var caches := Caches(eventLoaders);
      TrackedAtStart(eventLoaders);
      ghost var final;
      error, final := LoadChain(eventLoaders, event, manager, caches, ios);
      SameCaches(eventLoaders, final, ios);
    }
  }

  /**
   * The foreach of ChainedEventLoader.loadEventListeners: ask each loader in
   * turn and stop at the first exception. The ghost maps follow the loaders'
   * caches and what their IOs read.
   */
  method LoadChain(loaders: seq<GenericEventLoader>, event: string, manager: GenericEventManager,
                   ghost caches: map<GenericEventLoader, Option<Definitions>>, ghost ios: map<GenericEventLoader, Definitions>)
    returns (error: Option<EventError>, ghost final: map<GenericEventLoader, Option<Definitions>>)
    requires manager.Valid() && Tracked(loaders, caches, ios)
    modifies (set l | l in loaders)`eventListeners, manager`events
    ensures manager.Valid() && Tracked(loaders, final, ios)
    ensures ChainLoad(loaders, caches, ios, old(manager.events), manager.maxEventListeners, event)
      == ChainLoaded(final, Registered(manager.events, error))
  {
    ghost var goal := ChainLoad(loaders, caches, ios, manager.events, manager.maxEventListeners, event);
    final := caches;
    var i := 0;
    error := None;
    while i < |loaders| && error.None?
      invariant i <= |loaders|
      invariant manager.Valid() && Tracked(loaders, final, ios)
      invariant goal == if error.Some? then ChainLoaded(final, Registered(manager.events, error))
        else ChainLoad(loaders[i..], final, ios, manager.events, manager.maxEventListeners, event)
    {
      error, final := LoadAt(loaders, i, event, manager, final, ios);
      i := i + 1;
    }
  }

  /** The ghost maps of the chained loader's loop agree with the loaders: their caches and what their IOs read. */
  ghost predicate Tracked(loaders: seq<GenericEventLoader>, caches: map<GenericEventLoader, Option<Definitions>>, ios: map<GenericEventLoader, Definitions>)
    reads (set l | l in loaders)`eventListeners, IoObjects(loaders)
  {
    && caches.Keys == ios.Keys == (set l | l in loaders)
    && forall l | l in loaders :: l.eventListeners == caches[l] && ios[l] == IoContents(l.io)
  }

  /**
   * One round of the chained loader's loop: the loader at position i loads,
   * and the chained load of the rest goes on from the caches it leaves.
   */
  method LoadAt(loaders: seq<GenericEventLoader>, i: nat, event: string, manager: GenericEventManager,
                ghost caches: map<GenericEventLoader, Option<Definitions>>, ghost ios: map<GenericEventLoader, Definitions>)
    returns (error: Option<EventError>, ghost next: map<GenericEventLoader, Option<Definitions>>)
    requires i < |loaders| && manager.Valid() && Tracked(loaders, caches, ios)
    modifies {loaders[i]}`eventListeners, manager`events
    ensures manager.Valid() && Tracked(loaders, next, ios)
    ensures ChainLoad(loaders[i..], caches, ios, old(manager.events), manager.maxEventListeners, event)
      == if error.Some? then ChainLoaded(next, Registered(manager.events, error))
         else ChainLoad(loaders[i + 1..], next, ios, manager.events, manager.maxEventListeners, event)
  {
    assert loaders[i..][0] == loaders[i] && loaders[i..][1..] == loaders[i + 1..];
    error := loaders[i].LoadEventListeners(event, manager);
    next := caches[loaders[i] := loaders[i].eventListeners];
  }

  /** Before the loop, the ghost maps are the loaders' caches and what their IOs read. */
  lemma TrackedAtStart(loaders: seq<GenericEventLoader>)
    ensures Tracked(loaders, Caches(loaders), Ios(loaders))
  {
  }

  /** The cache map tracked by the chained loader's loop is the loaders' caches. */
  lemma SameCaches(loaders: seq<GenericEventLoader>, caches: map<GenericEventLoader, Option<Definitions>>, ios: map<GenericEventLoader, Definitions>)
    requires Tracked(loaders, caches, ios)
    ensures Caches(loaders) == caches
  {
  }

  // ----- GenericEventManager -----

  /** The lazy loader set on a manager. */
  datatype EventLoader = Generic(generic: GenericEventLoader) | Chained(chained: ChainedEventLoader)

  class GenericEventManager {
    const maxEventListeners: int
    const defaultWeight: int
    /** Event name -> weight -> listener; PHP keeps each inner array ksorted, Ordered gives that order. */
    var events: Events
    var loader: Option<EventLoader>
    /** The events the loader has been asked for since it was set. */
    var loaded: set<string>

    ghost predicate Valid()
      reads this
    {
      && maxEventListeners > 0
      && defaultWeight == DefaultWeight(maxEventListeners)
      && WellFormed(events, maxEventListeners)
      && (loader.None? ==> loaded == {})
    }

    /** The chained loader, when that is the loader. */
    function ChainObject(): set<ChainedEventLoader>
      reads this`loader
    {
      if loader.Some? && loader.value.Chained? then {loader.value.chained} else {}
    }

    /** The loaders a lazy load asks, in order: the one generic loader, or the chain's loaders. */
    function Loaders(): seq<GenericEventLoader>
      reads this`loader, ChainObject()`eventLoaders
    {
      match loader
      case None => []
      case Some(Generic(g)) => [g]
      case Some(Chained(c)) => c.eventLoaders
    }

    /**
     * What hasEventListeners(event) does before it answers: nothing when there
     * is no loader or the event was loaded before, otherwise the loaders' load.
     */
    function LoadOutcome(event: string): ChainLoaded<GenericEventLoader>
      requires maxEventListeners > 0
      reads this`loader, this`loaded, this`events, ChainObject()`eventLoaders
      reads (set l | l in Loaders())`eventListeners, IoObjects(Loaders())
    {
      if loader.None? || event in loaded then ChainLoaded(Caches(Loaders()), Registered(events, None))
      else LoaderLoad(event)
    }

    /** What asking the loaders for the event does: their chained load from their current caches. */
    function LoaderLoad(event: string): ChainLoaded<GenericEventLoader>
      requires maxEventListeners > 0
      reads this`loader, this`events, ChainObject()`eventLoaders
      reads (set l | l in Loaders())`eventListeners, IoObjects(Loaders())
    {
      ChainLoad(Loaders(), Caches(Loaders()), Ios(Loaders()), events, maxEventListeners, event)
    }

    /**
     * The loader side of the state after hasEventListeners(event) loaded,
     * given what LoadOutcome said before and the loaded marks before: the
     * caches as the outcome says, the exception the load threw if any, and
     * the event marked loaded when a loader is set and the load did not throw.
     */
    ghost predicate LoadedAs(outcome: ChainLoaded<GenericEventLoader>, loadedBefore: set<string>, event: string, error: Option<EventError>)
      reads this`loader, this`loaded, ChainObject()`eventLoaders, (set l | l in Loaders())`eventListeners
    {
      && outcome.registered.error == error
      && Caches(Loaders()) == outcome.caches
      && loaded == (if error.None? && loader.Some? then loadedBefore + {event} else loadedBefore)
    }

    /** Nothing was loaded: caches and loaded marks as before. */
    twostate predicate NothingLoaded()
      reads this`loader, this`loaded, ChainObject()`eventLoaders, (set l | l in Loaders())`eventListeners
    {
      && Caches(Loaders()) == old(Caches(Loaders()))
      && loaded == old(loaded)
    }

    /**
     * The loader side of what hasEventListeners(event) leaves, against the
     * state before the call: an empty name throws and loads nothing; any
     * other name is loaded as LoadOutcome says.
     */
    twostate predicate Loading(event: string, error: Option<EventError>)
      requires maxEventListeners > 0
      reads this`loader, this`loaded, ChainObject()`eventLoaders, (set l | l in Loaders())`eventListeners
    {
      if event == "" then error == Some(InvalidEventName) && NothingLoaded()
      else LoadedAs(old(LoadOutcome(event)), old(loaded), event, error)
    }

    /** The registry hasEventListeners(event) leaves: unchanged for an empty name, otherwise as the load left it. */
    twostate function LoadedEvents(event: string): Events
      requires maxEventListeners > 0
    {
      if event == "" then old(events) else old(LoadOutcome(event)).registered.events
    }

    constructor Init(maxEventListeners: int)
      requires maxEventListeners > 0
      ensures Valid()
      ensures this.maxEventListeners == maxEventListeners && events == map[] && loader == None
    {
      this.maxEventListeners := maxEventListeners;
      defaultWeight := DefaultWeight(maxEventListeners);
      events := map[];
      loader := None;
      loaded := {};
    }

    /**
     * new GenericEventManager(invoker, maxEventListeners): throws unless the
     * maximum is positive; the default weight is half of it, rounded down.
     */
    static method New(maxEventListeners: int := DEFAULT_MAX_EVENT_LISTENERS) returns (r: Result<GenericEventManager, EventError>)
      ensures r.Failure? <==> maxEventListeners <= 0
      ensures r.Failure? ==> r.error == InvalidMaximum
      ensures r.Success? ==> fresh(r.value) && r.value.Valid() && r.value.events == map[] && r.value.loader == None
      ensures r.Success? ==> r.value.maxEventListeners == maxEventListeners
      ensures r.Success? ==> 2 * r.value.defaultWeight <= maxEventListeners < 2 * r.value.defaultWeight + 2
    {
      if maxEventListeners <= 0 {
        return Failure(InvalidMaximum);
      }
      var m := new GenericEventManager.Init(maxEventListeners);
      return Success(m);
    }

    /** setEventLoader(loader): replace the loader and forget which events were loaded. */
    method SetEventLoader(eventLoader: EventLoader)
      requires Valid()
      modifies this`loader, this`loaded
      ensures Valid()
      ensures loader == Some(eventLoader) && loaded == {}
    {
      loader := Some(eventLoader);
      loaded := {};
    }

    function GetEventLoader(): Option<EventLoader>
      reads this`loader
    {
      loader
    }

    /** The loading half of hasEventListeners: the loader is asked for an event the first time only. */
    method Load(event: string) returns (error: Option<EventError>)
      requires Valid()
      modifies this`events, this`loaded, (set l | l in Loaders())
      ensures Valid()
      ensures LoadedAs(old(LoadOutcome(event)), old(loaded), event, error)
      ensures events == old(LoadOutcome(event)).registered.events
    {
      error := None;
      if loader.Some? && event !in loaded {
        error := AskLoader(event);
        if error.None? {
          ghost var loaders, caches := Loaders(), Caches(Loaders());
          loaded := loaded + {event};
          assert Loaders() == loaders && Caches(Loaders()) == caches;
        }
      }
    }

    /** loadEventListeners(event, manager) on the loader that is set, generic or chained. */
    method AskLoader(event: string) returns (error: Option<EventError>)
      requires Valid() && loader.Some?
      modifies this`events, (set l | l in Loaders())
      ensures Valid()
      ensures old(LoaderLoad(event)) == ChainLoaded(Caches(Loaders()), Registered(events, error))
    {
      match loader.value {
        case Generic(g) =>
          ghost var caches := Caches([g]);
          SingleLoaderChain(g, caches, Ios([g]), events, maxEventListeners, event);
          error := g.LoadEventListeners(event, this);
          assert Caches([g]) == caches[g := g.eventListeners];
        case Chained(c) =>
          error := c.LoadEventListeners(event, this);
      }
    }

    /**
     * hasEventListeners(event): throws on an empty name; lets the loader load
     * the event the first time it is asked for; then tells whether the event
     * has a listener.
     */
    method HasEventListeners(event: string) returns (r: Result<bool, EventError>)
      requires Valid()
      modifies this`events, this`loaded, (set l | l in Loaders())
      ensures Valid()
      ensures Loading(event, ErrorOf(r)) && events == LoadedEvents(event)
      ensures r.Success? ==> r.value == (event in events)
    {
      if event == "" {
        return Failure(InvalidEventName);
      }
      var error := Load(event);
      if error.Some? {
        return Failure(error.value);
      }
      return Success(event in events);
    }

    /**
     * hasEventListeners(event) asked twice in a row. Once the first call has
     * not thrown, the event is marked loaded, so the second asks no loader,
     * changes nothing and gives the same answer: the two calls together leave
     * the registry, the loaders' caches and the loaded marks exactly as the
     * first alone does.
     */
    method HasEventListenersTwice(event: string) returns (first: Result<bool, EventError>, second: Result<bool, EventError>)
      requires Valid()
      modifies this`events, this`loaded, (set l | l in Loaders())
      ensures Valid()
      ensures first.Success? ==> second == first
      ensures first.Success? ==> Loading(event, None) && events == LoadedEvents(event)
    {
      first := HasEventListeners(event);
      second := HasEventListeners(event);
    }

    /**
     * addEventListener(event, callback, weight): exactly Registry.Add; on an
     * exception nothing is registered, otherwise the returned listener object
     * is a new one holding a copy of the stored listener value (PHP hands
     * back the stored object itself).
     */
    method AddEventListener(event: string, callback: Callback, weight: Option<int> := None)
      returns (r: Result<EventListener, EventError>)
      requires Valid()
      modifies this`events
      ensures Valid()
      ensures Add(old(events), maxEventListeners, event, callback, weight).Failure? <==> r.Failure?
      ensures r.Failure? ==> Add(old(events), maxEventListeners, event, callback, weight).error == r.error && events == old(events)
      ensures r.Success? ==> Add(old(events), maxEventListeners, event, callback, weight).value == Added(events, r.value.Value())
      ensures r.Success? ==> fresh(r.value)
    {
      var created := EventListener.New(event, callback, weight);
      if created.Failure? {
        return Failure(created.error);
      }
      var listener := created.value;
      var slots := SlotsOf(events, event);
      if weight.None? {
        var w := GetNewWeight(event);
        if w.Failure? {
          return Failure(w.error);
        }
        var outcome := listener.SetWeight(Some(w.value));
        if outcome.Fail? {
          return Failure(outcome.error);
        }
      } else if weight.value >= maxEventListeners {
        return Failure(WeightOutOfRange);
      } else if weight.value in slots {
        return Failure(WeightTaken);
      }
      AddPreservesWellFormed(events, maxEventListeners, event, callback, weight);
      events := events[event := slots[listener.weight.value := listener.Value()]];
      return Success(listener);
    }

    /**
     * getNewWeight(event): the first weight from the default weight on that
     * the event does not use, trying up to the maximum.
     */
    method GetNewWeight(event: string) returns (r: Result<int, EventError>)
      requires Valid()
      ensures r.Success? ==> FirstFree(SlotsOf(events, event), defaultWeight, maxEventListeners) == Some(r.value)
      ensures r.Failure? ==> FirstFree(SlotsOf(events, event), defaultWeight, maxEventListeners) == None && r.error == NoFreeWeight
    {
      var slots := SlotsOf(events, event);
      var weight := defaultWeight;
      while true
        invariant defaultWeight <= weight < maxEventListeners
        invariant forall w | defaultWeight <= w < weight :: w in slots
        decreases maxEventListeners - weight
      {
        if weight !in slots {
          return Success(weight);
        }
        weight := weight + 1;
        if weight >= maxEventListeners {
          break;
        }
      }
      return Failure(NoFreeWeight);
    }

    /**
     * removeEventListener(event, selector). With neither argument the registry
     * is cleared. A listener selector names its own event. The event is loaded
     * as by hasEventListeners; then the target listener, if any, is removed.
     */
    method RemoveEventListener(event: Option<string> := None, selector: Option<Selector> := None)
      returns (r: Result<bool, EventError>)
      requires Valid()
      modifies this`events, this`loaded, (set l | l in Loaders())
      ensures Valid()
      ensures event.None? && selector.None? ==> r == Success(false) && events == map[] && NothingLoaded()
      ensures !(event.None? && selector.None?) ==>
        var name := RemovalEvent(event, selector);
        && Loading(name, ErrorOf(r))
        && (r.Failure? || selector.None? ==> events == LoadedEvents(name))
        && (r.Success? && selector.None? ==> !r.value)
        && (r.Success? && selector.Some? ==> Remove(LoadedEvents(name), name, selector.value) == (events, r.value))
    {
      if event.None? && selector.None? {
        events := map[];
        return Success(false);
      }
      var name := RemovalEvent(event, selector);
      var has := HasEventListeners(name);
      if has.Failure? {
        return Failure(has.error);
      }
      var removed := RemoveLoaded(name, selector);
      return Success(removed);
    }

    /**
     * The removal part of removeEventListener once the event is loaded:
     * nothing without listeners or without a selector; otherwise the target
     * listener goes, and the event with it when it was the last one.
     */
    method RemoveLoaded(name: string, selector: Option<Selector>) returns (removed: bool)
      requires Valid()
      modifies this`events
      ensures Valid()
      ensures Loaders() == old(Loaders()) && Caches(Loaders()) == old(Caches(Loaders()))
      ensures selector.None? ==> !removed && events == old(events)
      ensures selector.Some? ==> (events, removed) == Remove(old(events), name, selector.value)
    {
      removed := false;
      if name in events && selector.Some? {
        var target := FindTarget(events[name], selector.value);
        if target.Some? {
          RemovePreservesWellFormed(events, maxEventListeners, name, selector.value);
          events := RemoveAt(events, name, target.value);
          removed := true;
        }
      }
      LoaderKept();
    }

    /** A step that changes neither the loader nor its loaders leaves the loaders and their caches as they were. */
    twostate lemma LoaderKept()
      requires unchanged(this`loader) && unchanged(ChainObject()) && forall l | l in old(Loaders()) :: unchanged(l)
      ensures Loaders() == old(Loaders()) && Caches(Loaders()) == old(Caches(Loaders()))
    {
    }

    /**
     * triggerEvent(event, arguments): load the event as hasEventListeners
     * does; then hand one new Event to the listeners in weight order, stopping
     * after the first one that sets prevent default. The callbacks' effect on
     * the event and on the world is given by invoke.
     */
    method TriggerEvent<W>(event: string, arguments: map<string, Value>, invoke: Invoke<W>, world: W)
      returns (r: Result<Run<W>, EventError>)
      requires Valid()
      modifies this`events, this`loaded, (set l | l in Loaders())
      ensures Valid()
      ensures Loading(event, ErrorOf(r)) && events == LoadedEvents(event)
      ensures r.Success? ==> r.value == Dispatch(Ordered(SlotsOf(events, event)), EventState(arguments, false), world, invoke)
    {
      var has := HasEventListeners(event);
      if has.Failure? {
        return Failure(has.error);
      }
      var listeners := Ordered(SlotsOf(events, event));
      var state := EventState(arguments, false);
      var w := world;
      var i := 0;
      assert DispatchedSoFar(listeners, state, w, invoke, 0, state, w) by {
        DispatchStart(listeners, state, w, invoke);
      }
      while i < |listeners|
        invariant i <= |listeners|
        invariant DispatchedSoFar(listeners, EventState(arguments, false), world, invoke, i, state, w)
      {
        var next := invoke(listeners[i].callback, state, w);
        assert DispatchAdvanced(listeners, EventState(arguments, false), world, invoke, i, next) by {
          DispatchStep(listeners, EventState(arguments, false), world, invoke, i, state, w);
        }
        state, w := next.0, next.1;
        i := i + 1;
        if state.preventDefault {
          break;
        }
      }
      if !state.preventDefault {
        assert Dispatch(listeners, EventState(arguments, false), world, invoke) == Run(state, w, i) by {
          DispatchDone(listeners, EventState(arguments, false), world, invoke, state, w);
        }
      }
      return Success(Run(state, w, i));
    }
  }

  /** The exception a call threw, if any. */
  function ErrorOf<T>(r: Result<T, EventError>): Option<EventError>
  {
    if r.Failure? then Some(r.error) else None
  }

  /** The event removeEventListener works on: the listener's own event, else the name given; none reads as "". */
  function RemovalEvent(event: Option<string>, selector: Option<Selector>): string
  {
    if selector.Some? && selector.value.ByListener? then selector.value.listener.event else event.GetOr("")
  }

  /**
   * The search of removeEventListener: by weight the slot when it is set;
   * otherwise walk the listeners in weight order and stop at the first match.
   */
  method FindTarget(slots: Slots, sel: Selector) returns (target: Option<int>)
    ensures target == Target(slots, sel)
  {
    if sel.ByWeight? {
      return if sel.weight in slots then Some(sel.weight) else None;
    }
    var ws := SortedWeights(slots.Keys);
    assert forall j | 0 <= j < |ws| :: ws[j] in slots;
    var k := FirstMatch(ws, slots, sel);
    return if k < |ws| then Some(ws[k]) else None;
  }

  /** The loop of that search: the first position of `ws` whose listener the selector picks. */
  method FirstMatch(ws: seq<int>, slots: Slots, sel: Selector) returns (k: nat)
    requires forall j | 0 <= j < |ws| :: ws[j] in slots
    ensures k == FirstSelected(ws, slots, sel)
  {
    k := 0;
    while k < |ws|
      invariant k <= |ws|
      invariant forall j | 0 <= j < k :: !Selects(sel, ws[j], slots[ws[j]])
    {
      if Selects(sel, ws[k], slots[ws[k]]) {
        break;
      }
      k := k + 1;
    }
    FirstSelectedIs(ws, slots, sel, k);
  }
}
