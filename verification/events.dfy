/** Toolkit events and the return codes state functions hand back to their
    machine (event.go, with RetCode from fsm.go).  Only the integer and
    string payload slots are modelled; channel and pass-through payloads
    are never filled by the core. */
module Events {
  import Results

  /** The vocabulary a state function uses to request a transition. */
  datatype RetCode = Fail | Ok | Repeat | Nop {
    function Code(): int {
      match this
      case Fail => -1
      case Ok => 0
      case Repeat => 1
      case Nop => 2
    }
  }

  /** The return code an integer denotes, if any. */
  function RetCodeOf(c: int): (r: Results.Option<RetCode>)
    ensures r.Some? <==> -1 <= c <= 2
    ensures r.Some? ==> r.value.Code() == c
  {
    if c == -1 then Results.Some(Fail)
    else if c == 0 then Results.Some(Ok)
    else if c == 1 then Results.Some(Repeat)
    else if c == 2 then Results.Some(Nop)
    else Results.None
  }

  lemma RetCodeRoundTrip(rc: RetCode)
    ensures RetCodeOf(rc.Code()) == Results.Some(rc)
  {
  }

  datatype EventType =
    | WindEventNone | WindEventInit | WindEventExit | WindEventError
    | WindEventRestart | WindEventOutput | WindEventMove | WindEventResize
  {
    function Code(): int {
      match this
      case WindEventNone => 0
      case WindEventInit => 1
      case WindEventExit => 2
      case WindEventError => 3
      case WindEventRestart => 4
      case WindEventOutput => 5
      case WindEventMove => 6
      case WindEventResize => 7
    }
  }

  /** Which payload slot of a result is populated. */
  datatype PayloadType = Int | String | Channel | PassThru | None {
    function Code(): int {
      match this
      case Int => 0
      case String => 1
      case Channel => 2
      case PassThru => 3
      case None => 4
    }
  }

  /** The payload kind an integer denotes, if any. */
  function PayloadTypeOf(c: int): (r: Results.Option<PayloadType>)
    ensures r.Some? <==> 0 <= c <= 4
    ensures r.Some? ==> r.value.Code() == c
  {
    if c == 0 then Results.Some(Int)
    else if c == 1 then Results.Some(String)
    else if c == 2 then Results.Some(Channel)
    else if c == 3 then Results.Some(PassThru)
    else if c == 4 then Results.Some(None)
    else Results.None
  }

  /** The payload kinds have distinct codes, and None has the largest. */
  lemma PayloadCodes(a: PayloadType, b: PayloadType)
    ensures a.Code() == b.Code() ==> a == b
    ensures a.Code() <= None.Code()
    ensures PayloadTypeOf(a.Code()) == Results.Some(a)
  {
  }

  /** The result part of an event: return code, payload kind, and the integer
      and string payloads. */
  datatype ResultType = ResultType(rc: RetCode, kind: PayloadType, val: seq<int>, sval: seq<string>)

  /** The argument part of an event. */
  datatype ArgType = ArgType(kind: PayloadType, val: seq<int>, sval: seq<string>)

  datatype Event = Event(eventType: EventType, args: Results.Option<ArgType>, result: Results.Option<ResultType>)

  /** A value passed through an untyped variadic parameter. */
  datatype Arg = IntArg(i: int) | StringArg(s: string) | OtherArg

  /** A freshly allocated result: every field holds its zero value. */
  function ZeroResult(): (r: ResultType)
    ensures r.rc == Ok && r.kind == Int
    ensures r.val == [] && r.sval == []
  {
    ResultType(RetCodeOf(0).value, PayloadTypeOf(0).value, [], [])
  }

  /** A new event of type et with a fresh result and no arguments.  The
      variadic arguments are accepted and ignored. */
  function NewEvent(et: EventType, extra: seq<Arg>): (e: Event)
    ensures e.eventType == et
    ensures e.args == Results.None
    ensures e.result == Results.Some(ZeroResult())
  {
    Event(et, Results.None, Results.Some(ZeroResult()))
  }

  lemma NewEventIgnoresArguments(et: EventType, a: seq<Arg>, b: seq<Arg>)
    ensures NewEvent(et, a) == NewEvent(et, b)
  {
  }
}
