/**
 * The event object handed to every listener of one trigger: a fixed name,
 * a bag of named arguments and the "prevent default" flag that stops the
 * listener chain.
 */
module EventObject {
  import opened Wrappers

  /** An argument value. PHP's null is not a value here: it means "absent". */
  datatype Value = Int(i: int) | Str(s: string) | Bool(b: bool)

  /** What a listener can observe and change of the event it is given. */
  datatype EventState = EventState(arguments: map<string, Value>, preventDefault: bool)

  /** The argument bag after setArgument(name, value): null removes the key. */
  function ArgumentsAfterSet(arguments: map<string, Value>, name: string, value: Option<Value>): (r: map<string, Value>)
    ensures value.Some? ==> name in r && r[name] == value.value
    ensures value.None? ==> name !in r
    ensures forall k | k != name :: (k in r <==> k in arguments) && (k in r ==> r[k] == arguments[k])
  {
    match value
    case None => arguments - {name}
    case Some(v) => arguments[name := v]
  }

  class Event {
    const name: string
    var arguments: map<string, Value>
    var preventDefault: bool

    ghost predicate Valid()
      reads this
    {
      name != ""
    }

    /** The constructor once setName has accepted the name. */
    constructor Init(name: string, arguments: map<string, Value>)
      requires name != ""
      ensures Valid()
      ensures this.name == name && this.arguments == arguments && !preventDefault
    {
      this.name := name;
      this.arguments := arguments;
      preventDefault := false;
    }

    /** new Event(name, arguments): throws unless the name is a non-empty string. */
    static method New(name: string, arguments: map<string, Value> := map[]) returns (r: Result<Event, EventError>)
      ensures r.Failure? <==> name == ""
      ensures r.Failure? ==> r.error == InvalidEventName
      ensures r.Success? ==> fresh(r.value) && r.value.Valid()
      ensures r.Success? ==> r.value.name == name && r.value.ToString() == name
      ensures r.Success? ==> r.value.GetArguments() == arguments && !r.value.IsPreventDefault()
    {
      if name == "" {
        return Failure(InvalidEventName);
      }
      var e := new Event.Init(name, arguments);
      return Success(e);
    }

    /** The string form of an event is its name. */
    function ToString(): string
    {
      name
    }

    /** getArgument(name, default): the value, or the default when the key is not set. */
    function GetArgument(key: string, default: Option<Value> := None): (r: Option<Value>)
      reads this
      ensures key in arguments ==> r == Some(arguments[key])
      ensures key !in arguments ==> r == default
    {
      if key in arguments then Some(arguments[key]) else default
    }

    /** getArguments(): the whole bag, the empty map when nothing is set. */
    function GetArguments(): map<string, Value>
      reads this
    {
      arguments
    }

    /** setArgument(name, value): a null value unsets the key, any other value is stored. */
    method SetArgument(key: string, value: Option<Value> := None)
      modifies this`arguments
      ensures arguments == ArgumentsAfterSet(old(arguments), key, value)
      ensures forall d :: GetArgument(key, d) == (if value.Some? then value else d)
    {
      if value.None? {
        if key in arguments {
          arguments := arguments - {key};
        }
      } else {
        arguments := arguments[key := value.value];
      }
    }

    /** setPreventDefault(flag = true). */
    method SetPreventDefault(flag: bool := true)
      modifies this`preventDefault
      ensures IsPreventDefault() == flag
    {
      preventDefault := flag;
    }

    function IsPreventDefault(): bool
      reads this
    {
      preventDefault
    }

    /** The part of the event a listener may change. */
    function State(): (s: EventState)
      reads this
    {
      EventState(arguments, preventDefault)
    }
  }
}
