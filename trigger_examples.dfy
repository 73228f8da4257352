/**
 * The trigger examples of GenericEventManagerTest (testTriggerEventWithWeights
 * and testTriggerEventWithPreventDefault) replayed on the model.
 */
module TriggerExamples {
  import opened Wrappers
  import opened EventObject
  import opened Listeners
  import opened Registry
  import opened Triggering
  import opened Loading

  /** The test's listeners are methods of the test object; here they are named by their method. */
  function TestCallback(name: string): Callback
  {
    Function(name)
  }

  function ValueArgument(s: EventState): int
  {
    if "value" in s.arguments && s.arguments["value"].Int? then s.arguments["value"].i else 0
  }

  /** The test's callbacks: they combine the "value" argument into a counter, or stop the event. */
  function TestInvoke(c: Callback, s: EventState, counter: int): (EventState, int)
  {
    if !c.Function? then (s, counter)
    else if c.name == "eventCallbackMethod" then (s, ValueArgument(s))
    else if c.name == "eventCallbackMethodSum" then (s, counter + ValueArgument(s))
    else if c.name == "eventCallbackMethodMultiply" then (s, counter * ValueArgument(s))
    else if c.name == "eventCallbackMethodSubstract" then (s, counter - ValueArgument(s))
    else if c.name == "eventCallbackMethodPreventDefault" then (s.(preventDefault := true), counter)
    else (s, counter)
  }

  function TestListener(name: string, weight: int): Listener
  {
    Listener("event", TestCallback(name), Some(weight))
  }

  /** The test's addEventListener calls, in order: multiply without a weight, then 20, 99 and 10. */
  function TestCalls(): seq<Listener>
  {
    [Listener("event", TestCallback("eventCallbackMethodMultiply"), None),
     TestListener("eventCallbackMethod", 20), TestListener("eventCallbackMethodSubstract", 99),
     TestListener("eventCallbackMethodSum", 10)]
  }

  /** With the listener that stops the event added at 70 after the one at 20. */
  function StoppingCalls(): seq<Listener>
  {
    [Listener("event", TestCallback("eventCallbackMethodMultiply"), None),
     TestListener("eventCallbackMethod", 20), TestListener("eventCallbackMethodPreventDefault", 70),
     TestListener("eventCallbackMethodSubstract", 99), TestListener("eventCallbackMethodSum", 10)]
  }

  /** The registry a new manager with the default maximum holds after the given calls on "event". */
  function RegistryAfter(calls: seq<Listener>): Registered
  {
    AddAll(map[], DEFAULT_MAX_EVENT_LISTENERS, "event", calls)
  }

  /** The slots the test's calls leave: the listener without a weight gets the default weight 50. */
  function TestSlots(): Slots
  {
    map[
      50 := TestListener("eventCallbackMethodMultiply", 50),
      20 := TestListener("eventCallbackMethod", 20),
      99 := TestListener("eventCallbackMethodSubstract", 99),
      10 := TestListener("eventCallbackMethodSum", 10)]
  }

  function TestArguments(): EventState
  {
    EventState(map["value" := Int(7)], false)
  }

  /** The slots the stopping test's calls leave. */
  function StoppingSlots(): Slots
  {
    map[
      50 := TestListener("eventCallbackMethodMultiply", 50),
      20 := TestListener("eventCallbackMethod", 20),
      70 := TestListener("eventCallbackMethodPreventDefault", 70),
      99 := TestListener("eventCallbackMethodSubstract", 99),
      10 := TestListener("eventCallbackMethodSum", 10)]
  }

  /** The test's calls all succeed and fill the slots TestSlots lists. */
  lemma TestRegistry()
    ensures RegistryAfter(TestCalls()) == Registered(map["event" := TestSlots()], None)
  {
    var calls := TestCalls();
    var mult := TestListener("eventCallbackMethodMultiply", 50);
    assert FirstFree(map[], 50, 100) == Some(50);
    var e1 := map["event" := map[50 := mult]];
    assert Add(map[], 100, "event", calls[0].callback, None) == Success(Added(e1, mult));
    var e2 := ExplicitAdd(e1, calls[1].callback.name, 20);
    var e3 := ExplicitAdd(e2, calls[2].callback.name, 99);
    var e4 := ExplicitAdd(e3, calls[3].callback.name, 10);
    assert e4["event"] == TestSlots();
    assert calls[1..][1..][1..][1..] == [];
  }

  /** The stopping test's calls all succeed and fill the slots StoppingSlots lists. */
  lemma StoppingRegistry()
    ensures RegistryAfter(StoppingCalls()) == Registered(map["event" := StoppingSlots()], None)
  {
    var calls := StoppingCalls();
    var mult := TestListener("eventCallbackMethodMultiply", 50);
    assert FirstFree(map[], 50, 100) == Some(50);
    var e1 := map["event" := map[50 := mult]];
    assert Add(map[], 100, "event", calls[0].callback, None) == Success(Added(e1, mult));
    var e2 := ExplicitAdd(e1, calls[1].callback.name, 20);
    var e3 := ExplicitAdd(e2, calls[2].callback.name, 70);
    var e4 := ExplicitAdd(e3, calls[3].callback.name, 99);
    var e5 := ExplicitAdd(e4, calls[4].callback.name, 10);
    assert e5["event"] == StoppingSlots();
    assert calls[1..][1..][1..][1..][1..] == [];
  }

  /** One of the tests' adds with a free explicit weight: the listener is stored under it. */
  lemma ExplicitAdd(events: Events, name: string, w: int) returns (after: Events)
    requires "event" in events && w !in events["event"] && 0 < w < 100
    requires name != "" && name != "0"
    ensures after == events["event" := events["event"][w := TestListener(name, w)]]
    ensures Add(events, 100, "event", TestCallback(name), Some(w)) == Success(Added(after, TestListener(name, w)))
  {
    after := events["event" := events["event"][w := TestListener(name, w)]];
  }

  /** ksort leaves the test's weights ascending: 10, 20, 50, 99. */
  lemma TestListing()
    ensures Ordered(TestSlots()) == ListenersAt([10, 20, 50, 99], TestSlots())
  {
    assert TestSlots().Keys == {10, 20, 50, 99};
    OrderedFollowsListing(TestSlots(), [10, 20, 50, 99]);
  }

  /** With the stopping listener: 10, 20, 50, 70, 99. */
  lemma StoppingListing()
    ensures Ordered(StoppingSlots()) == ListenersAt([10, 20, 50, 70, 99], StoppingSlots())
  {
    assert StoppingSlots().Keys == {10, 20, 50, 70, 99};
    OrderedFollowsListing(StoppingSlots(), [10, 20, 50, 70, 99]);
  }

  function TestListeners(): seq<Listener>
  {
    [TestListener("eventCallbackMethodSum", 10), TestListener("eventCallbackMethod", 20),
     TestListener("eventCallbackMethodMultiply", 50), TestListener("eventCallbackMethodSubstract", 99)]
  }

  function StoppingListeners(): seq<Listener>
  {
    [TestListener("eventCallbackMethodSum", 10), TestListener("eventCallbackMethod", 20),
     TestListener("eventCallbackMethodMultiply", 50), TestListener("eventCallbackMethodPreventDefault", 70),
     TestListener("eventCallbackMethodSubstract", 99)]
  }

  lemma TestListeningOrder()
    ensures ListenersAt([10, 20, 50, 99], TestSlots()) == TestListeners()
  {
    assert [10, 20, 50, 99][1..] == [20, 50, 99];
  }

  lemma StoppingListeningOrder()
    ensures ListenersAt([10, 20, 50, 70, 99], StoppingSlots()) == StoppingListeners()
  {
    assert [10, 20, 50, 70, 99][1..] == [20, 50, 70, 99];
  }

  /** Starting from 10 with value 7, the listeners run at weights 10, 20, 50 and 99 and leave 42. */
  lemma DispatchTestListeners()
    ensures var d := Dispatch(TestListeners(), TestArguments(), 10, TestInvoke);
      d.world == 42 && d.invoked == 4 && !d.state.preventDefault
  {
    var ls := TestListeners();
    var s := TestArguments();
    assert ValueArgument(s) == 7;
    assert Dispatch(ls[3..], s, 49, TestInvoke) == Run(s, 42, 1);
    assert Dispatch(ls[2..], s, 7, TestInvoke) == Run(s, 42, 2);
    assert Dispatch(ls[1..], s, 17, TestInvoke) == Run(s, 42, 3);
  }

  /** With a listener at 70 that stops the event, the one at 99 is skipped and 49 is left. */
  lemma DispatchStoppingListeners()
    ensures var d := Dispatch(StoppingListeners(), TestArguments(), 10, TestInvoke);
      d.world == 49 && d.invoked == 4 && d.state.preventDefault
  {
    var ls := StoppingListeners();
    var s := TestArguments();
    assert ValueArgument(s) == 7;
    var stopped := s.(preventDefault := true);
    assert Dispatch(ls[3..], s, 49, TestInvoke) == Run(stopped, 49, 1);
    assert Dispatch(ls[2..], s, 7, TestInvoke) == Run(stopped, 49, 2);
    assert Dispatch(ls[1..], s, 17, TestInvoke) == Run(stopped, 49, 3);
  }

  /** The registry the test's calls leave, triggered in weight order, leaves 42. */
  lemma TriggerWithWeightsExample()
    ensures RegistryAfter(TestCalls()).error.None?
    ensures var d := Dispatch(Ordered(SlotsOf(RegistryAfter(TestCalls()).events, "event")), TestArguments(), 10, TestInvoke);
      d.world == 42 && d.invoked == 4
  {
    TestRegistry();
    TestListing();
    TestListeningOrder();
    DispatchTestListeners();
  }

  /**
   * The registry the stopping test's calls leave, triggered in weight order,
   * stops after the listener at 70 and leaves 49.
   */
  lemma TriggerWithPreventDefaultExample()
    ensures RegistryAfter(StoppingCalls()).error.None?
    ensures var d := Dispatch(Ordered(SlotsOf(RegistryAfter(StoppingCalls()).events, "event")), TestArguments(), 10, TestInvoke);
      d.world == 49 && d.invoked == 4 && d.state.preventDefault
  {
    StoppingRegistry();
    StoppingListing();
    StoppingListeningOrder();
    DispatchStoppingListeners();
  }
}
