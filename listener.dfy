/**
 * An event listener: the event name, the callback to invoke and the weight
 * that orders it among the other listeners of the same event.
 */
module Listeners {
  import opened Wrappers

  /** A key of a PHP array used as callback. */
  datatype ArrayKey = Index(i: int) | Key(s: string)

  /**
   * A callback: a function name, or an array such as [class, method].
   * Object callbacks and closures are not represented (see README).
   */
  datatype Callback = Function(name: string) | ArrayCallback(entries: map<ArrayKey, string>)

  /** PHP's empty() on a callback value: '', '0' and the empty array are empty. */
  predicate IsEmptyCallback(c: Callback)
  {
    match c
    case Function(n) => n == "" || n == "0"
    case ArrayCallback(m) => m == map[]
  }

  /** The value of an EventListener object: what two listeners compare by. */
  datatype Listener = Listener(event: string, callback: Callback, weight: Option<int>)

  /** The check setWeight performs: null is accepted, otherwise the weight must be positive. */
  function CheckWeight(weight: Option<int>): (r: Outcome<EventError>)
    ensures r.Pass? <==> weight.None? || weight.value > 0
    ensures r.Fail? ==> r.error == InvalidWeight
  {
    if weight.Some? && weight.value <= 0 then Fail(InvalidWeight) else Pass
  }

  /**
   * new EventListener(event, callback, weight): setEvent, setCallback and
   * setWeight run in this order, and the first one that fails throws.
   */
  function Validate(event: string, callback: Callback, weight: Option<int>): (r: Result<Listener, EventError>)
    ensures r.Success? <==> event != "" && !IsEmptyCallback(callback) && (weight.None? || weight.value > 0)
    ensures r.Success? ==> r.value == Listener(event, callback, weight)
    ensures event == "" ==> r == Failure(InvalidEventName)
    ensures event != "" && IsEmptyCallback(callback) ==> r == Failure(EmptyCallback)
    ensures event != "" && !IsEmptyCallback(callback) && weight.Some? && weight.value <= 0 ==> r == Failure(InvalidWeight)
  {
    if event == "" then Failure(InvalidEventName)
    else if IsEmptyCallback(callback) then Failure(EmptyCallback)
    else match CheckWeight(weight)
      case Fail(e) => Failure(e)
      case Pass => Success(Listener(event, callback, weight))
  }

  // ----- decimal rendering of the weight in __toString -----

  function Digit(d: nat): char
    requires d < 10
  {
    "0123456789"[d]
  }

  function DigitValue(c: char): nat
  {
    if '0' <= c <= '9' then (c - '0') as nat else 0
  }

  predicate IsDigits(s: string)
  {
    forall i | 0 <= i < |s| :: '0' <= s[i] <= '9'
  }

  /** PHP's conversion of a non-negative integer to its decimal string. */
  function NatToString(n: nat): (s: string)
    ensures |s| >= 1 && IsDigits(s)
    ensures s[0] == '0' ==> n == 0
    decreases n
  {
    if n < 10 then [Digit(n)] else NatToString(n / 10) + [Digit(n % 10)]
  }

  /** Reads a string of decimal digits back as a number. */
  function ParseNat(s: string): nat
    decreases |s|
  {
    if s == [] then 0 else 10 * ParseNat(s[..|s| - 1]) + DigitValue(s[|s| - 1])
  }

  /** The decimal string of a number reads back as that number. */
  lemma {:induction false} NatToStringRoundTrip(n: nat)
    ensures ParseNat(NatToString(n)) == n
    decreases n
  {
    var s := NatToString(n);
    if n < 10 {
      assert s == [Digit(n)];
      assert s[..0] == [];
    } else {
      NatToStringRoundTrip(n / 10);
      assert s[..|s| - 1] == NatToString(n / 10);
      assert s[|s| - 1] == Digit(n % 10);
    }
  }

  function IntToString(i: int): string
  {
    if i < 0 then "-" + NatToString(-i) else NatToString(i)
  }

  /** The callback part of __toString: [class, method] becomes class::method, another array "Array". */
  function CallbackText(c: Callback): string
  {
    match c
    case Function(n) => n
    case ArrayCallback(m) =>
      if Index(0) in m && Index(1) in m then m[Index(0)] + "::" + m[Index(1)] else "Array"
  }

  /** __toString: "event callback", followed by " #weight" when the weight is set and not zero. */
  function ListenerText(l: Listener): string
  {
    l.event + " " + CallbackText(l.callback)
    + (if l.weight.Some? && l.weight.value != 0 then " #" + IntToString(l.weight.value) else "")
  }

  /**
   * The string form starts with the event name and a space; a positive weight
   * appears after " #" in decimal and reads back as the weight, and a listener
   * without weight has no suffix.
   */
  lemma ListenerTextWeight(l: Listener)
    ensures l.weight.None? ==> ListenerText(l) == l.event + " " + CallbackText(l.callback)
    ensures l.weight.Some? && l.weight.value > 0 ==>
      var digits := NatToString(l.weight.value);
      && ListenerText(l) == l.event + " " + CallbackText(l.callback) + " #" + digits
      && IsDigits(digits) && ParseNat(digits) == l.weight.value
  {
    if l.weight.Some? && l.weight.value > 0 {
      NatToStringRoundTrip(l.weight.value);
    }
  }

  /**
   * The string forms the listener tests expect: a function name as is, a
   * [class, method] array as class::method and an array with other keys as
   * "Array".
   */
  lemma ListenerTextExamples()
    ensures ListenerText(Listener("event", Function("function"), None)) == "event function"
    ensures ListenerText(Listener("event", ArrayCallback(map[Index(0) := "someClass", Index(1) := "someMethod"]), None))
      == "event someClass::someMethod"
    ensures ListenerText(Listener("event", ArrayCallback(map[Key("class") := "someClass", Key("method") := "someMethod"]), None))
      == "event Array"
  {
    assert CallbackText(ArrayCallback(map[Index(0) := "someClass", Index(1) := "someMethod"])) == "someClass" + "::" + "someMethod";
    assert "event" + " " + ("someClass" + "::" + "someMethod") == "event someClass::someMethod";
    assert CallbackText(ArrayCallback(map[Key("class") := "someClass", Key("method") := "someMethod"])) == "Array";
  }

  /** The tested string form with weight 15: the suffix " #15". */
  lemma ListenerTextWeightExample()
    ensures ListenerText(Listener("event", ArrayCallback(map[Index(0) := "someClass", Index(1) := "someMethod"]), Some(15)))
      == "event someClass::someMethod #15"
  {
    assert CallbackText(ArrayCallback(map[Index(0) := "someClass", Index(1) := "someMethod"])) == "someClass" + "::" + "someMethod";
    assert "event" + " " + ("someClass" + "::" + "someMethod") == "event someClass::someMethod";
    assert IntToString(15) == "15" by {
      assert NatToString(15) == NatToString(1) + [Digit(5)];
    }
    assert "event someClass::someMethod" + (" #" + "15") == "event someClass::someMethod #15";
  }

  /** The listener object. Its fields are set by the validating setters. */
  class EventListener {
    var event: string
    var callback: Callback
    var weight: Option<int>

    ghost predicate Valid()
      reads this
    {
      Validate(event, callback, weight).Success?
    }

    /** The listener's value: what the manager stores and compares. */
    function Value(): Listener
      reads this
    {
      Listener(event, callback, weight)
    }

    /** The constructor once the three setters have accepted their arguments. */
    constructor Init(event: string, callback: Callback, weight: Option<int>)
      requires Validate(event, callback, weight).Success?
      ensures Valid() && Value() == Listener(event, callback, weight)
    {
      this.event := event;
      this.callback := callback;
      this.weight := weight;
    }

    /**
     * new EventListener(event, callback, weight): throws when a setter rejects
     * its argument; otherwise the getters return exactly what was passed.
     */
    static method New(event: string, callback: Callback, weight: Option<int> := None)
      returns (r: Result<EventListener, EventError>)
      ensures r.Failure? <==> Validate(event, callback, weight).Failure?
      ensures r.Failure? ==> r.error == Validate(event, callback, weight).error
      ensures r.Success? ==> fresh(r.value) && r.value.Valid()
      ensures r.Success? ==> r.value.event == event && r.value.callback == callback && r.value.weight == weight
    {
      var v := Validate(event, callback, weight);
      if v.Failure? {
        return Failure(v.error);
      }
      var l := new EventListener.Init(event, callback, weight);
      return Success(l);
    }

    /** setWeight(weight): null clears the weight, a weight <= 0 throws and leaves it as it was. */
    method SetWeight(w: Option<int>) returns (r: Outcome<EventError>)
      modifies this`weight
      ensures r == CheckWeight(w)
      ensures r.Pass? ==> weight == w
      ensures r.Fail? ==> weight == old(weight)
    {
      if w.None? {
        weight := None;
        return Pass;
      }
      if w.value <= 0 {
        return Fail(InvalidWeight);
      }
      weight := w;
      return Pass;
    }

    function ToString(): string
      reads this
    {
      ListenerText(Value())
    }
  }
}
