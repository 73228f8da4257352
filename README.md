# ride-lib-event in Dafny

A model of the event library of ride (pallo): an in-process registry of
event listeners with lazy loading of listener definitions.

- `GenericEventManager` keeps, for every event name, a map from an integer
  weight to a listener.
  - Weights lie below `maxEventListeners`.
  - A listener added without a weight gets the first free weight from
    `defaultWeight = floor(max / 2)` on.
  - An explicit weight that is too large or already used throws.
- Removal works by weight, by callback or by listener object. An event that
  loses its last listener disappears.
- `hasEventListeners` asks the lazy loader for an event the first time the
  event is named.
- `triggerEvent` hands one `Event` to the listeners in ascending weight
  order. It stops right after a listener sets "prevent default".
- `GenericEventLoader` reads its IO once and caches the definitions. It
  registers an event's definitions through `addEventListener`, then evicts
  them from its cache.
- `ChainedEventLoader` asks its loaders in order.
- `ChainedEventListenerIO` merges several definition sources by
  concatenating each event's lists in chain order.

## Layout

- `wrappers.dfy`: `Option`, `Result`, `Outcome` and the reasons an
  `EventException` is thrown.
- `event.dfy` (`EventObject`): the `Event` class and its argument bag.
- `listener.dfy` (`Listeners`):
  - the callback and listener values;
  - the validation done by the `EventListener` setters;
  - `__toString`;
  - the `EventListener` class.
- `registry.dfy` (`Registry`): the registry as a value.
  - `Add` is `addEventListener`, with `getNewWeight` as `FirstFree`.
  - `Ordered` is the `ksort` iteration order.
  - `Remove` is `removeEventListener`; `Target` picks the listener to remove.
- `sets.dfy` (`Sets`): a non-empty set has an element.
- `chains.dfy` (`Chains`): append/prepend and remove-first-identical on the
  two chain classes.
- `listener_io.dfy` (`ListenerIO`): definitions maps, their merge, and the
  `ChainedEventListenerIO` class with its nested merge loops.
- `trigger.dfy` (`Triggering`): the listener walk of `triggerEvent` as
  `Dispatch`, and the lemmas about where it stops.
- `trigger_examples.dfy` (`TriggerExamples`): the two trigger scenarios of
  the manager's tests, worked out from their `addEventListener` calls.
- `loading.dfy` (`Loading`): what one generic loader and a chain of loaders do
  to the registry and to the caches, as values.
- `manager.dfy` (`EventManager`): the classes.
  - `GenericEventLoader`, `ChainedEventLoader` and `GenericEventManager`
    update their fields in place.
  - Each method is proved against the functions above.

Callbacks are values (a function name, or an array such as `[class, method]`).
What invoking one does is a parameter of `TriggerEvent`:
`invoke(callback, eventState, world)` returns the new event state and the new
state of the rest of the program. The reflection-based invoker is therefore
not modelled. Exceptions are `Failure` results; the listeners registered
before an exception stay registered, as in PHP.

The two `GenericEventLoader` classes (pallo and ride) differ only in their
namespace, so one class models both.

## Model

| member | source | states |
|---|---|---|
| EventObject.Event.New | src/pallo/library/event/Event.php:38-66 | construction fails exactly for an empty name; a new event has the given name (also its string form), the given arguments and prevent-default off |
| EventObject.Event.Init | src/pallo/library/event/Event.php:38-43 | the constructor stores name and arguments and clears the flag |
| EventObject.ArgumentsAfterSet | src/pallo/library/event/Event.php:83-99 | a null value removes the key, another value is stored under it, every other key keeps its value |
| EventObject.Event.SetArgument | src/pallo/library/event/Event.php:83-99 | the bag becomes ArgumentsAfterSet of the old bag; a later getArgument returns the value set, or the default after a removal |
| EventObject.Event.GetArgument | src/pallo/library/event/Event.php:109-115 | the stored value when the key is set, the default otherwise |
| EventObject.Event.SetPreventDefault | src/pallo/library/event/Event.php:134-144 | isPreventDefault returns the flag just set |
| Listeners.CheckWeight | src/pallo/library/event/EventListener.php:119-131 | setWeight accepts null or a positive weight and throws for any weight <= 0 |
| Listeners.Validate | src/pallo/library/event/EventListener.php:37-41 | a listener is valid iff its name is non-empty, its callback is not empty ('', '0', empty array) and its weight is null or positive; the first failing setter names the error |
| Listeners.EventListener.New | src/pallo/library/event/EventListener.php:37-41 | construction fails exactly when Validate fails, with its error; otherwise the getters return exactly the arguments |
| Listeners.EventListener.Init | src/pallo/library/event/EventListener.php:37-41 | the constructor stores the validated triple |
| Listeners.EventListener.SetWeight | src/pallo/library/event/EventListener.php:119-131 | the outcome is CheckWeight; an accepted weight is stored, a rejected one leaves the old weight |
| Listeners.NatToString | src/pallo/library/event/EventListener.php:64 | the decimal text of a weight is a non-empty digit string without a leading zero |
| Listeners.NatToStringRoundTrip | src/pallo/library/event/EventListener.php:64 | the decimal text of a number reads back as that number |
| Listeners.ListenerTextExamples | test/src/ride/library/event/EventListenerTest.php:43-60 | the tested string forms: "event function", "event someClass::someMethod" for a [class, method] array and "event Array" for an array with other keys |
| Listeners.ListenerTextWeightExample | test/src/ride/library/event/EventListenerTest.php:62-64 | weight 15 adds the suffix " #15"; the test's callback is an object, which is not modelled, so a class-name array stands for it |
| Listeners.ListenerTextWeight | src/pallo/library/event/EventListener.php:47-65 | the string form is "event callback", followed by " #" and the weight's decimal text when the weight is set and positive, and by nothing without a weight |
| Registry.DefaultWeight | src/pallo/library/event/GenericEventManager.php:85-92 | the default weight is floor(max / 2) and lies in [0, max) |
| Registry.FirstFree | src/pallo/library/event/GenericEventManager.php:177-189 | the result is the smallest free weight in [from, max); none exactly when all of them are used |
| Registry.AddExplicitWeight | src/pallo/library/event/GenericEventManager.php:145-155 | an explicit weight is accepted iff the listener is valid, the weight is below the maximum and the slot is free; out of range and taken give their own errors; the stored listener carries that weight |
| Registry.AddAutomaticWeight | src/pallo/library/event/GenericEventManager.php:145-150 | without a weight, the add succeeds iff max > 1 and some weight in [default, max) is free; the listener gets the smallest free one; with max = 1 setWeight rejects weight 0 |
| Registry.AddStoresOnlyThatListener | src/pallo/library/event/GenericEventManager.php:157-165 | a successful add stores the listener under its weight in its event, at a weight that was free, and changes no other slot and no other event |
| Registry.AddPreservesWellFormed | src/pallo/library/event/GenericEventManager.php:145-168 | adding keeps the registry invariant: no empty event, every listener under its own positive weight below the maximum and its own event name |
| Registry.ThirdAutomaticAddFails | test/src/ride/library/event/GenericEventManagerTest.php:88-96 | with max 3 two adds without weight take 1 and 2 and the third finds no free weight |
| Registry.SortedWeights | src/pallo/library/event/GenericEventManager.php:165 | the ksort order lists exactly the weights of the event |
| Registry.SortedWeightsAscending | src/pallo/library/event/GenericEventManager.php:165 | that listing is strictly ascending |
| Registry.SortedWeightsUnique | src/pallo/library/event/GenericEventManager.php:165 | any strictly ascending listing of the weights is that listing |
| Registry.OrderedFollowsListing | src/pallo/library/event/GenericEventManager.php:262-263 | the listeners are visited in the order of the ascending weights |
| Registry.FirstSelected | src/pallo/library/event/GenericEventManager.php:222-240 | the first position whose listener the selector picks, none before it picked |
| Registry.TargetIsLowestMatch | src/pallo/library/event/GenericEventManager.php:214-240 | the weight removed holds a matching listener and no lower weight does; nothing is removed iff no listener matches |
| Registry.RemoveAt | src/pallo/library/event/GenericEventManager.php:242-244 | the slot goes, the event goes iff it has no listener left, every other event stays |
| Registry.RemoveRemovesTarget | src/pallo/library/event/GenericEventManager.php:198-247 | removal returns true iff the event has a matching listener, then removes exactly that target; otherwise the registry is unchanged |
| Registry.RemovePreservesWellFormed | src/pallo/library/event/GenericEventManager.php:242-246 | removal keeps the registry invariant, so no event is left empty |
| Registry.RemoveByListener | src/pallo/library/event/GenericEventManager.php:205-230 | removing by listener object succeeds iff that listener is registered under its own event and weight |
| Chains.Added | src/pallo/library/event/loader/ChainedEventLoader.php:25-31 | append puts the new entry last after the old chain; prepend puts it first before the old chain |
| Chains.FirstIndex | src/pallo/library/event/loader/ChainedEventLoader.php:40-41 | the position of the first identical entry, the length when there is none |
| Chains.RemoveFirstSpec | src/pallo/library/event/loader/ChainedEventLoader.php:39-49 | removal succeeds iff the entry is in the chain; it then drops exactly its first occurrence and keeps the others in order; otherwise the chain is unchanged |
| ListenerIO.MergeInto | src/pallo/library/event/loader/io/ChainedEventListenerIO.php:60-68 | one source merged in: the events of both, each list extended by the source's list |
| ListenerIO.Merge | src/pallo/library/event/loader/io/ChainedEventListenerIO.php:54-72 | each event's merged list is the concatenation of the sources' lists in chain order |
| ListenerIO.MergeKeys | src/pallo/library/event/loader/io/ChainedEventListenerIO.php:57-63 | the merged map has exactly the events some source defines |
| ListenerIO.MergeEmpty | src/pallo/library/event/loader/io/ChainedEventListenerIO.php:55-71 | an empty chain reads as an empty map |
| ListenerIO.ChainedEventListenerIO.AddEventListenerIO | src/pallo/library/event/loader/io/ChainedEventListenerIO.php:23-29 | the chain becomes Chains.Added of the old chain |
| ListenerIO.ChainedEventListenerIO.RemoveEventListenerIO | src/pallo/library/event/loader/io/ChainedEventListenerIO.php:37-47 | the chain and the result are RemoveFirst of the old chain |
| ListenerIO.ChainedEventListenerIO.ReadEventListeners | src/pallo/library/event/loader/io/ChainedEventListenerIO.php:54-72 | reading each source once, in chain order, gives Merge of the sources |
| ListenerIO.MergeSource | src/pallo/library/event/loader/io/ChainedEventListenerIO.php:60-68 | the two inner loops merge one source in as MergeInto says |
| ListenerIO.MergeEvent | src/pallo/library/event/loader/io/ChainedEventListenerIO.php:61-67 | one event of a source: its list is created if missing and extended by the source's list; the other events are as they were |
| ListenerIO.AppendEach | src/pallo/library/event/loader/io/ChainedEventListenerIO.php:65-67 | appending one listener at a time gives the list followed by the listeners |
| Triggering.Dispatch | src/pallo/library/event/GenericEventManager.php:263-269 | at most all listeners run, at least one when there is one, and fewer than all only when prevent default was set |
| Triggering.DispatchIsStoppedRun | src/pallo/library/event/GenericEventManager.php:263-269 | the walk is the plain run of its first n listeners; none of the earlier ones set the flag, and the n-th one did when listeners were skipped |
| Triggering.StopSkipsLaterListeners | src/pallo/library/event/GenericEventManager.php:266-268 | listeners after the one that stopped the event never run |
| Triggering.DispatchContinues | src/pallo/library/event/GenericEventManager.php:263-269 | when a first part does not stop the event, the rest runs on the state it left and the counts add up |
| Triggering.DispatchStep | src/pallo/library/event/GenericEventManager.php:264-268 | one round of the loop: the listener either stops the walk there or the walk goes on from the state it left |
| TriggerExamples.TestRegistry | test/src/ride/library/event/GenericEventManagerTest.php:256-268 | the test's four addEventListener calls on a new manager all succeed; the one without a weight gets the default weight 50, and the others get 20, 99 and 10 |
| TriggerExamples.StoppingRegistry | test/src/ride/library/event/GenericEventManagerTest.php:280-293 | the stopping test's five calls all succeed, with weights 50, 20, 70, 99 and 10 |
| TriggerExamples.TriggerWithWeightsExample | test/src/ride/library/event/GenericEventManagerTest.php:255-277 | the registry those calls build, triggered with value 7 from 10, runs weights 10, 20, 50 and 99 in that order and leaves 42 |
| TriggerExamples.TriggerWithPreventDefaultExample | test/src/ride/library/event/GenericEventManagerTest.php:279-304 | the registry the stopping test's calls build stops at the listener at 70, skips 99 and leaves 49 |
| Loading.AddAllPreservesWellFormed | src/pallo/library/event/loader/GenericEventLoader.php:58-65 | registering a list of definitions keeps the registry invariant, also when it stops at an exception |
| Loading.AddAllOnlyAdds | src/pallo/library/event/loader/GenericEventLoader.php:58-65 | registering only adds to its event: existing listeners keep their weights, other events are unchanged, and without an exception the event gains one listener per definition |
| Loading.AddOnlyAdds | src/pallo/library/event/GenericEventManager.php:157-165 | one successful add keeps every listener and adds exactly one to its event |
| Loading.GenericLoadReadsOnce | src/pallo/library/event/loader/GenericEventLoader.php:41-44 | once the cache is filled the load no longer depends on the IO; the first load behaves as a load from the IO's contents |
| Loading.GenericLoadSpec | src/pallo/library/event/loader/GenericEventLoader.php:41-51 | an event that is not cached calls nothing and keeps the cache; a cached one is registered from its list in order and evicted unless that threw; other entries stay |
| Loading.SecondLoadAddsNothing | src/pallo/library/event/loader/GenericEventLoader.php:46-49 | after a successful load of an event, loading it again adds nothing and changes nothing |
| Loading.ChainLoad | src/pallo/library/event/loader/ChainedEventLoader.php:57-61 | a chained load touches only the caches of the loaders in the chain |
| Loading.ChainLoadInOrder | src/pallo/library/event/loader/ChainedEventLoader.php:57-61 | a chain split in two loads the first part, then, unless that threw, the second from where the first left off |
| Loading.SingleLoaderChain | src/pallo/library/event/GenericEventManager.php:124-125 | a chain of one loader behaves as that loader |
| Loading.ChainLoadPreservesWellFormed | src/pallo/library/event/loader/ChainedEventLoader.php:57-61 | a chained load keeps the registry invariant |
| EventManager.ReadEventListeners | src/pallo/library/event/loader/GenericEventLoader.php:43 | reading the IO returns what that IO holds |
| EventManager.GenericEventLoader.constructor | src/pallo/library/event/loader/GenericEventLoader.php:30-33 | a new loader has its IO and nothing read yet |
| EventManager.GenericEventLoader.LoadEventListeners | src/pallo/library/event/loader/GenericEventLoader.php:41-51 | the new cache and registry are GenericLoad of the old cache, the IO's contents and the old registry; the registry stays well formed |
| EventManager.GenericEventLoader.RegisterEventListeners | src/pallo/library/event/loader/GenericEventLoader.php:58-65 | the registry becomes AddAll of the cached list, stopping at the first exception |
| EventManager.ChainedEventLoader.constructor | src/pallo/library/event/loader/ChainedEventLoader.php:16 | a new chain is empty |
| EventManager.ChainedEventLoader.AddEventLoader | src/pallo/library/event/loader/ChainedEventLoader.php:25-31 | the chain becomes Chains.Added of the old chain |
| EventManager.ChainedEventLoader.RemoveEventLoader | src/pallo/library/event/loader/ChainedEventLoader.php:39-49 | the chain and the result are RemoveFirst of the old chain |
| EventManager.ChainedEventLoader.LoadEventListeners | src/pallo/library/event/loader/ChainedEventLoader.php:57-61 | the loaders' new caches and the registry are ChainLoad of their old caches, their IOs and the old registry |
| EventManager.LoadChain | src/pallo/library/event/loader/ChainedEventLoader.php:58-60 | the loop over the loaders computes ChainLoad and keeps the registry well formed |
| EventManager.LoadAt | src/pallo/library/event/loader/ChainedEventLoader.php:59 | one round: the rest of the chained load goes on from the caches the loader leaves, or stops at its exception |
| EventManager.GenericEventManager.Init | src/pallo/library/event/GenericEventManager.php:65-76 | a new manager has the maximum, an empty registry and no loader |
| EventManager.GenericEventManager.New | src/pallo/library/event/GenericEventManager.php:65-92 | construction fails exactly for a maximum <= 0; otherwise the default weight is floor(max / 2) |
| EventManager.GenericEventManager.SetEventLoader | src/pallo/library/event/GenericEventManager.php:99-102 | the loader is set and no event counts as loaded |
| EventManager.GenericEventManager.Load | src/pallo/library/event/GenericEventManager.php:124-128 | with a loader and an event not yet loaded, the loaders load it and the event is marked loaded unless that threw; otherwise nothing changes |
| EventManager.GenericEventManager.AskLoader | src/pallo/library/event/GenericEventManager.php:125 | asking the generic or the chained loader gives the chained load of its loaders |
| EventManager.GenericEventManager.HasEventListeners | src/pallo/library/event/GenericEventManager.php:119-131 | an empty name throws and loads nothing; otherwise the event is loaded as Load says and the answer is whether it then has a listener |
| EventManager.GenericEventManager.HasEventListenersTwice | src/pallo/library/event/GenericEventManager.php:119-131 | after a first hasEventListeners call that did not throw, a second one gives the same answer and asks no loader: the two calls leave the registry, the loaders' caches and the loaded marks exactly as one call does. This covers a successful first call only; after an exception the event stays unmarked and the loader is asked again, as Load states |
| EventManager.GenericEventManager.AddEventListener | src/pallo/library/event/GenericEventManager.php:145-168 | succeeds iff Registry.Add does, with the same error; on failure the registry is unchanged, on success it is Add's and the returned listener is a new object holding a copy of the stored listener |
| EventManager.GenericEventManager.GetNewWeight | src/pallo/library/event/GenericEventManager.php:177-189 | the result is FirstFree from the default weight; the error when there is none |
| EventManager.GenericEventManager.RemoveEventListener | src/pallo/library/event/GenericEventManager.php:198-247 | with neither argument the registry is cleared and nothing is loaded; otherwise the event, the listener's own when a listener is given, is loaded as by hasEventListeners and Registry.Remove is applied to what was loaded |
| EventManager.GenericEventManager.RemoveLoaded | src/pallo/library/event/GenericEventManager.php:214-246 | the registry and the result are Registry.Remove of the loaded registry |
| EventManager.FindTarget | src/pallo/library/event/GenericEventManager.php:216-240 | the search returns Registry.Target: the slot by weight, else the first match in weight order |
| EventManager.FirstMatch | src/pallo/library/event/GenericEventManager.php:222-240 | the loop stops at FirstSelected |
| EventManager.GenericEventManager.TriggerEvent | src/pallo/library/event/GenericEventManager.php:256-270 | the event is loaded as by hasEventListeners; then the listeners run in weight order on one event state, starting from the given arguments with the flag off, exactly as Dispatch says |

## Left out

- EventManager.GenericEventManager.AddEventListener: the registry stores listener values, so the returned `EventListener` is a new object holding a copy of the stored listener. PHP returns the stored object itself; a later `setWeight` on it changes the registered listener too, while in the model it does not reach the registry. A later removal by that listener then finds nothing in the model, where PHP would remove it.
- The invoker (`Invoker`/`ReflectionHelper`) and reflective invocation: what a callback does is the `invoke` parameter of `TriggerEvent`.
- Object callbacks, closures and the `Callback` wrapper are not modelled. `__toString` therefore has no `get_class(...)->method` form.
- PHP's dynamic type checks are left out: `is_string` on names, `is_numeric` with numeric strings or floats before the `(integer)` cast, and `is_integer` on the maximum. Inputs are typed `string`, `int` and `Option<int>`; only the empty-name, empty-callback, `<= 0` and `>= max` checks remain.
- PHP's loose `==` in `removeEventListener` is left out. Callbacks and listeners are compared structurally, and the argument is a tagged selector: by weight, by callback or by listener. After a removal by weight, PHP's callback loop still compares each callback with the integer; the model does not run that loop.
- `removeEventListener` with an event name and a null listener is modelled as no selector: the event is loaded and nothing is removed.
- `removeEventListener()` with both arguments null returns null in PHP; the model returns false. It does not reset the loaded marks, as in PHP.
- `triggerEvent` returns false or null in PHP; the model returns the run: the final event state, the final world and the number of listeners invoked. The `Event` object that `triggerEvent` creates is modelled by its state (arguments and flag). Its name is the non-empty event name already checked by `hasEventListeners`.
- Exceptions thrown by callbacks are not modelled, and neither are callbacks that re-enter the manager.
- A `ChainedEventLoader` holds `GenericEventLoader`s only, and a `ChainedEventListenerIO` holds plain definition sources only: nested chains are not modelled.
- A concrete `EventListenerIO` (a file, a configuration) is I/O. A `DefinitionSource` stands for one, with its contents as an input map.
- PHP's `unset` leaves holes in an array's indices. The model keeps only the order of the remaining entries.
- `GenericEventManager.loaded` is `null` before a loader is set; the model uses the empty set.
- Argument values are never null in the model. PHP's constructor could receive a null value, and `getArgument` (an `isset` test) then returns the default; the model cannot express such a bag.
- `Event.getArguments` turns null arguments into the empty array; the model always holds a map, empty when nothing is set.
- `ProcessCallback` is the identity hook of `GenericEventLoader` (lines 72-74). It has no contract of its own: `RegisterEventListeners` states the registration with the callback unchanged.
- The interface-only files (`EventManager`, `EventLoader`, `EventListenerIO`) carry no logic. The loader and the IO are datatypes over the concrete classes.
- The older pallo `EventManagerTest` targets an API these sources do not contain, so it is not part of this model.
