/**
 * Sources of listener definitions: a map from event name to the listeners
 * defined for it, in definition order. A concrete source (a file, a
 * configuration) is an input map here; ChainedEventListenerIO merges several
 * sources by concatenating each event's lists in chain order.
 */
module ListenerIO {
  import opened Listeners
  import opened Chains
  import opened Sets

  /** What readEventListeners returns: event name -> listener definitions. */
  type Definitions = map<string, seq<Listener>>

  /** An event's definitions in one map, the empty list when it has none. */
  function ListFor(d: Definitions, event: string): seq<Listener>
  {
    if event in d then d[event] else []
  }

  /** An event's definitions across a chain of maps: each map's list, in chain order. */
  function Concatenated(ds: seq<Definitions>, event: string): (r: seq<Listener>)
    decreases |ds|
  {
    if ds == [] then [] else Concatenated(ds[..|ds| - 1], event) + ListFor(ds[|ds| - 1], event)
  }

  /** One round of the outer loop of readEventListeners: add one source's lists to the result. */
  function MergeInto(acc: Definitions, d: Definitions): (r: Definitions)
    ensures r.Keys == acc.Keys + d.Keys
    ensures forall e :: ListFor(r, e) == ListFor(acc, e) + ListFor(d, e)
  {
    map e | e in acc.Keys + d.Keys :: ListFor(acc, e) + ListFor(d, e)
  }

  /**
   * readEventListeners of a chain: the events of all sources, each with the
   * concatenation of the sources' lists in chain order.
   */
  function Merge(ds: seq<Definitions>): (r: Definitions)
    ensures forall e :: ListFor(r, e) == Concatenated(ds, e)
    decreases |ds|
  {
    if ds == [] then map[] else MergeInto(Merge(ds[..|ds| - 1]), ds[|ds| - 1])
  }

  /** The merged map has exactly the events that some source of the chain defines. */
  lemma {:induction false} MergeKeys(ds: seq<Definitions>, event: string)
    ensures event in Merge(ds) <==> exists i | 0 <= i < |ds| :: event in ds[i]
    decreases |ds|
  {
    if ds != [] {
      var prefix := ds[..|ds| - 1];
      MergeKeys(prefix, event);
      assert event in Merge(ds) <==> event in Merge(prefix) || event in ds[|ds| - 1];
      SomeSourceSplit(ds, prefix, event);
    }
  }

  /** Some source of a chain defines the event when one of all but the last does, or the last does. */
  lemma SomeSourceSplit(ds: seq<Definitions>, prefix: seq<Definitions>, event: string)
    requires ds != [] && prefix == ds[..|ds| - 1]
    ensures (exists i | 0 <= i < |ds| :: event in ds[i])
        <==> (exists i | 0 <= i < |prefix| :: event in prefix[i]) || event in ds[|ds| - 1]
  {
    if i :| 0 <= i < |ds| && event in ds[i] {
      if i < |prefix| {
        assert event in prefix[i];
      }
    }
    if i :| 0 <= i < |prefix| && event in prefix[i] {
      assert event in ds[i];
    }
  }

  /** An empty chain reads as no definitions at all. */
  lemma MergeEmpty()
    ensures Merge([]) == map[]
  {
  }

  /** A source of definitions: what its readEventListeners returns. */
  class DefinitionSource {
    const definitions: Definitions

    constructor (definitions: Definitions)
      ensures this.definitions == definitions
    {
      this.definitions := definitions;
    }
  }

  function Contents(sources: seq<DefinitionSource>): (ds: seq<Definitions>)
    ensures |ds| == |sources|
    ensures forall i | 0 <= i < |sources| :: ds[i] == sources[i].definitions
  {
    seq(|sources|, i requires 0 <= i < |sources| => sources[i].definitions)
  }

  class ChainedEventListenerIO {
    var eventListenerIOs: seq<DefinitionSource>

    constructor ()
      ensures eventListenerIOs == []
    {
      eventListenerIOs := [];
    }

    /** What readEventListeners returns for the current chain. */
    function Read(): Definitions
      reads this
    {
      Merge(Contents(eventListenerIOs))
    }

    /** addEventListenerIO(io, prepend): append, or put it first. */
    method AddEventListenerIO(io: DefinitionSource, prepend: bool := false)
      modifies this`eventListenerIOs
      ensures eventListenerIOs == Added(old(eventListenerIOs), io, prepend)
    {
      if prepend {
        eventListenerIOs := [io] + eventListenerIOs;
      } else {
        eventListenerIOs := eventListenerIOs + [io];
      }
    }

    /** removeEventListenerIO(io): remove the first entry that is this very object. */
    method RemoveEventListenerIO(io: DefinitionSource) returns (removed: bool)
      modifies this`eventListenerIOs
      ensures (eventListenerIOs, removed) == RemoveFirst(old(eventListenerIOs), io)
    {
      var i := 0;
      while i < |eventListenerIOs|
        invariant 0 <= i <= |eventListenerIOs|
        invariant forall j | 0 <= j < i :: eventListenerIOs[j] != io
      {
        if eventListenerIOs[i] == io {
          assert FirstIndex(eventListenerIOs, io) == i by {
            FirstIndexIsFirst(eventListenerIOs, io, i);
          }
          eventListenerIOs := eventListenerIOs[..i] + eventListenerIOs[i + 1..];
          return true;
        }
        i := i + 1;
      }
      FirstIndexIsFirst(eventListenerIOs, io, |eventListenerIOs|);
      return false;
    }

    /**
     * readEventListeners(): ask every source once, in chain order, and append
     * each listener of each of its events to that event's list.
     */
    method ReadEventListeners() returns (merged: Definitions)
      ensures merged == Read()
    {
      merged := map[];
      var n := 0;
      while n < |eventListenerIOs|
        invariant 0 <= n <= |eventListenerIOs|
        invariant merged == Merge(Contents(eventListenerIOs[..n]))
      {
        var read := eventListenerIOs[n].definitions;
        merged := MergeSource(merged, read);
        assert Contents(eventListenerIOs[..n + 1])[..n] == Contents(eventListenerIOs[..n]);
        n := n + 1;
      }
      assert eventListenerIOs[..n] == eventListenerIOs;
    }
  }

  /** The merge state once the events in `done` have been handled: their lists are extended, the others not yet. */
  ghost predicate MergedSoFar(merged: Definitions, acc: Definitions, read: Definitions, done: set<string>)
    requires done <= read.Keys
  {
    && merged.Keys == acc.Keys + done
    && forall e :: ListFor(merged, e) == ListFor(acc, e) + (if e in done then read[e] else [])
  }

  /** Two definition maps with the same events and the same lists are equal. */
  lemma SameLists(a: Definitions, b: Definitions)
    requires a.Keys == b.Keys
    requires forall e :: ListFor(a, e) == ListFor(b, e)
    ensures a == b
  {
    forall e | e in a ensures a[e] == b[e] {
      assert ListFor(a, e) == ListFor(b, e);
    }
  }

  lemma MergedSoFarNone(acc: Definitions, read: Definitions)
    ensures MergedSoFar(acc, acc, read, {})
  {
  }

  lemma MergedSoFarAll(merged: Definitions, acc: Definitions, read: Definitions)
    requires MergedSoFar(merged, acc, read, read.Keys)
    ensures merged == MergeInto(acc, read)
  {
    var expected := MergeInto(acc, read);
    forall e ensures ListFor(merged, e) == ListFor(expected, e) {
      assert ListFor(read, e) == (if e in read.Keys then read[e] else []);
    }
    SameLists(merged, expected);
  }

  /** The innermost loop: append the listeners to the event's list one at a time. */
  method AppendEach(list: seq<Listener>, listeners: seq<Listener>) returns (r: seq<Listener>)
    ensures r == list + listeners
  {
    r := list;
    var j := 0;
    while j < |listeners|
      invariant 0 <= j <= |listeners|
      invariant r == list + listeners[..j]
    {
      r := r + [listeners[j]];
      assert listeners[..j + 1] == listeners[..j] + [listeners[j]];
      j := j + 1;
    }
    assert listeners[..j] == listeners;
  }

  /** One round of the middle loop: give the event a list if it has none, then append its listeners. */
  method MergeEvent(acc: Definitions, read: Definitions, ghost done: set<string>, merged: Definitions, event: string)
    returns (r: Definitions)
    requires done <= read.Keys && event in read && event !in done
    requires MergedSoFar(merged, acc, read, done)
    ensures MergedSoFar(r, acc, read, done + {event})
  {
    assert ListFor(merged, event) == ListFor(acc, event);
    r := merged;
    if event !in r {
      r := r[event := []];
    }
    var list := AppendEach(r[event], read[event]);
    r := r[event := list];
    forall e ensures ListFor(r, e) == ListFor(acc, e) + (if e in done + {event} then read[e] else []) {
      if e != event {
        assert ListFor(r, e) == ListFor(merged, e);
      }
    }
  }

  /**
   * The two inner loops of readEventListeners for one source: for each of its
   * events, make sure the event has a list, then append its listeners one by one.
   */
  method MergeSource(acc: Definitions, read: Definitions) returns (merged: Definitions)
    ensures merged == MergeInto(acc, read)
  {
    merged := acc;
    ghost var done: set<string> := {};
    var todo := read.Keys;
    MergedSoFarNone(acc, read);
    while todo != {}
      invariant done !! todo && done + todo == read.Keys
      invariant MergedSoFar(merged, acc, read, done)
      decreases todo
    {
      ghost var some := NonEmptyHasMember(todo);
      var event :| event in todo;
      merged := MergeEvent(acc, read, done, merged, event);
      done := done + {event};
      todo := todo - {event};
    }
    assert done == read.Keys;
    MergedSoFarAll(merged, acc, read);
  }
}
