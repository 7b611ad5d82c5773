/** Running the tool calls of a model's response against the registered capabilities. */
module Dispatch {
  import opened Prelude
  import opened Utf8
  import opened ToolCalls

  const DISPATCH_CALLS_MAX := 8
  const DISPATCH_ARGUMENT_MAX_BYTES := 32 * 1024
  const DISPATCH_DEPTH_MAX := 4
  const UNNAMED := "unknown"
  const UNIDENTIFIED := "call_unidentified"

  /** What happened inside handlers, in order. */
  datatype Trace = Parsed(name: string) | Ran(name: string)

  /** A capability. `None` is a throw; a run may depend on everything that happened before it. */
  datatype Handler = Handler(
    requiredScope: string,
    parse: Json -> Option<Json>,
    run: (seq<Trace>, Json) -> Option<Json>)

  datatype Refusal = InvalidToolCall | InvalidToolArguments | ToolArgumentsTooLarge | UnknownCapability
                   | CapabilityForbidden | CapabilityFailed | DispatchDepthExceeded

  datatype Outcome = Done(id: string, name: string, output: Json) | Refused(id: string, name: string, code: Refusal)

  datatype BatchError = CallsShape | TooManyCalls

  /** The registry, and the scopes of the caller when they are a usable set. */
  datatype Deployment<!S> = Deployment(
    platform: Platform<S>,
    registry: map<string, Handler>,
    granted: Option<set<string>>)

  predicate IsCapabilityName(name: string) {
    && 3 <= |name| <= 64 && 'a' <= name[0] <= 'z'
    && forall i :: 0 <= i < |name| ==> 'a' <= name[i] <= 'z' || '0' <= name[i] <= '9' || name[i] in ['_', '.', '-']
  }

  function ReportableId(entry: Json): string {
    if entry.Obj? && "id" in entry.fields && entry.fields["id"].Str? && IsCallId(entry.fields["id"].s)
    then entry.fields["id"].s else UNIDENTIFIED
  }

  function ReportableName(entry: Json): string {
    if entry.Obj? && "function" in entry.fields && entry.fields["function"].Obj?
       && "name" in entry.fields["function"].fields && entry.fields["function"].fields["name"].Str?
       && IsCapabilityName(entry.fields["function"].fields["name"].s)
    then entry.fields["function"].fields["name"].s else UNNAMED
  }

  /** The name and the raw arguments of a call envelope. */
  function ReadEnvelope(entry: Json): Option<(string, string)> {
    if !entry.Obj? || !(entry.fields.Keys <= {"id", "type", "function", "index"}) then None
    else if "type" !in entry.fields || entry.fields["type"] != Str("function") then None
    else if "id" !in entry.fields || !entry.fields["id"].Str? || !IsCallId(entry.fields["id"].s) then None
    else if "function" !in entry.fields || !entry.fields["function"].Obj? then None
    else
      var fn := entry.fields["function"].fields;
      if !(fn.Keys <= {"name", "arguments"}) || "name" !in fn || !fn["name"].Str? then None
      else if "arguments" !in fn || !fn["arguments"].Str? || fn["arguments"].s == "" then None
      else Some((fn["name"].s, fn["arguments"].s))
  }

  predicate Satisfies(granted: set<string>, required: string) {
    required in granted || "admin" in granted
  }

  datatype Verdict = Refuse(code: Refusal) | Proceed(name: string, raw: Json)

  /** Everything that is checked before a handler sees anything. */
  function Screen<S>(d: Deployment<S>, depth: int, entry: Json): (v: Verdict)
    ensures v.Proceed? ==>
              v.name in d.registry && d.granted.Some? && Satisfies(d.granted.value, d.registry[v.name].requiredScope)
  {
    if depth < 1 || depth > DISPATCH_DEPTH_MAX then Refuse(DispatchDepthExceeded)
    else
      var envelope := ReadEnvelope(entry);
      if envelope.None? then Refuse(InvalidToolCall)
      else
        var (name, args) := envelope.value;
        if |Encode(args)| > DISPATCH_ARGUMENT_MAX_BYTES then Refuse(ToolArgumentsTooLarge)
        else
          var raw := d.platform.parse(args);
          if raw.None? || !raw.value.Obj? then Refuse(InvalidToolArguments)
          else if name !in d.registry then Refuse(UnknownCapability)
          else if d.granted.None? || !Satisfies(d.granted.value, d.registry[name].requiredScope)
          then Refuse(CapabilityForbidden)
          else Proceed(name, raw.value)
  }

  /** What may be sent back of a handler's result. */
  predicate Printable<S>(d: Deployment<S>, output: Json) {
    var text := d.platform.stringify(output);
    text.Some? && |Encode(text.value)| <= DISPATCH_ARGUMENT_MAX_BYTES
  }

  function One<S>(d: Deployment<S>, depth: int, entry: Json, trace: seq<Trace>): (Outcome, seq<Trace>) {
    var id, reported := ReportableId(entry), ReportableName(entry);
    match Screen(d, depth, entry)
    case Refuse(code) => (Refused(id, reported, code), trace)
    case Proceed(name, raw) =>
      var input := d.registry[name].parse(raw);
      var parsed := trace + [Parsed(name)];
      if input.None? then (Refused(id, reported, InvalidToolArguments), parsed)
      else
        var output := d.registry[name].run(parsed, input.value);
        if output.None? || !Printable(d, output.value)
        then (Refused(id, reported, CapabilityFailed), parsed + [Ran(name)])
        else (Done(id, name, output.value), parsed + [Ran(name)])
  }

  /** The calls one after the other. */
  function All<S>(d: Deployment<S>, depth: int, entries: seq<Json>, trace: seq<Trace>): (r: (seq<Outcome>, seq<Trace>))
    ensures |r.0| == |entries|
  {
    if entries == [] then ([], trace)
    else
      var (early, before) := All(d, depth, entries[..|entries| - 1], trace);
      var (outcome, after) := One(d, depth, entries[|entries| - 1], before);
      (early + [outcome], after)
  }

  function DispatchAll<S>(d: Deployment<S>, depth: int, calls: Json, trace: seq<Trace>):
    (r: (Result<seq<Outcome>, BatchError>, seq<Trace>))
    ensures r.0.Ok? ==> calls.Arr? && |r.0.value| == |calls.items|
  {
    if !calls.Arr? || calls.items == [] then (Err(CallsShape), trace)
    else if |calls.items| > DISPATCH_CALLS_MAX then (Err(TooManyCalls), trace)
    else
      var (outcomes, after) := All(d, depth, calls.items, trace);
      (Ok(outcomes), after)
  }

  /** A batch that is refused whole reaches no handler: it is no list or empty, or it has more than eight calls. */
  lemma BatchRefusedExactly<S>(d: Deployment<S>, depth: int, calls: Json, trace: seq<Trace>)
    ensures var (r, after) := DispatchAll(d, depth, calls, trace);
            && (r == Err(CallsShape) <==> !calls.Arr? || |calls.items| == 0)
            && (r == Err(TooManyCalls) <==> calls.Arr? && |calls.items| > 8)
            && (r.Err? ==> after == trace) && (r.Ok? ==> |r.value| == |calls.items|)
  {
  }

  /** The capability exists, and the caller holds its scope or administers everything. */
  ghost predicate Authorized<S>(d: Deployment<S>, name: string) {
    && name in d.registry && d.granted.Some?
    && ("admin" in d.granted.value || d.registry[name].requiredScope in d.granted.value)
  }

  /** `after` continues `before`, and only authorized handlers were given anything. */
  ghost predicate ExtendsAuthorized<S>(d: Deployment<S>, before: seq<Trace>, after: seq<Trace>) {
    before <= after && forall i :: |before| <= i < |after| ==> Authorized(d, after[i].name)
  }

  lemma OneIsAuthorized<S>(d: Deployment<S>, depth: int, entry: Json, trace: seq<Trace>)
    ensures ExtendsAuthorized(d, trace, One(d, depth, entry, trace).1)
    ensures !(1 <= depth <= DISPATCH_DEPTH_MAX) ==> One(d, depth, entry, trace).1 == trace
  {
  }

  /** No handler parses or runs anything on behalf of a caller without its scope, or past the depth bound. */
  lemma {:induction false} OnlyAuthorizedHandlersSeeInput<S>(d: Deployment<S>, depth: int, entries: seq<Json>,
                                                             trace: seq<Trace>)
    ensures ExtendsAuthorized(d, trace, All(d, depth, entries, trace).1)
    ensures !(1 <= depth <= DISPATCH_DEPTH_MAX) ==> All(d, depth, entries, trace).1 == trace
    decreases |entries|
  {
    if entries != [] {
      var front := entries[..|entries| - 1];
      OnlyAuthorizedHandlersSeeInput(d, depth, front, trace);
      OneIsAuthorized(d, depth, entries[|entries| - 1], All(d, depth, front, trace).1);
    }
  }

  ghost predicate AllDone(outcomes: seq<Outcome>) {
    forall i :: 0 <= i < |outcomes| ==> outcomes[i].Done?
  }

  function Names(calls: seq<ToolCall>): (names: seq<string>)
    ensures |names| == |calls|
  {
    seq(|calls|, i requires 0 <= i < |calls| => calls[i].name)
  }

  lemma EnvelopeOf(call: ToolCall)
    requires IsCallId(call.id) && call.arguments != ""
    ensures ReadEnvelope(CallJson(call)) == Some((call.name, call.arguments)) && ReportableId(CallJson(call)) == call.id
  {
    var fields := CallJson(call).fields;
    assert fields.Keys == {"id", "type", "function"};
    assert fields["function"].fields.Keys == {"name", "arguments"};
  }

  /** An envelope is exactly the entry of a call, with an index or without; its name need not be one of a tool. */
  lemma EnvelopesRead(call: ToolCall, index: Option<Json>)
    requires IsCallId(call.id) && call.arguments != ""
    ensures ReadEnvelope(IndexedCall(call, index)) == Some((call.name, call.arguments))
    ensures ReportableId(IndexedCall(call, index)) == call.id
  {
    var fields := IndexedCall(call, index).fields;
    assert fields.Keys <= {"id", "type", "function", "index"};
    assert fields["function"] == CallJson(call).fields["function"];
    assert fields["function"].fields.Keys == {"name", "arguments"};
  }

  lemma OnlyEnvelopesRead(entry: Json) returns (call: ToolCall, index: Option<Json>)
    requires ReadEnvelope(entry).Some?
    ensures IsCallId(call.id) && call.arguments != "" && entry == IndexedCall(call, index)
  {
    var fields := entry.fields;
    var fn := fields["function"].fields;
    call := ToolCall(fields["id"].s, fn["name"].s, fn["arguments"].s);
    index := if "index" in fields then Some(fields["index"]) else None;
    assert fn == map["name" := Str(call.name), "arguments" := Str(call.arguments)];
    var same := IndexedCall(call, index).fields;
    assert same.Keys == fields.Keys;
    assert forall key :: key in fields ==> fields[key] == same[key];
    assert fields == same;
  }

  /** What happens in the handlers of calls that are served, one after the other. */
  function Handled(names: seq<string>): seq<Trace> {
    if names == [] then []
    else Handled(names[..|names| - 1]) + [Parsed(names[|names| - 1]), Ran(names[|names| - 1])]
  }

  /** What the handler registered under the call's name makes of the call's own arguments, behind `before`. */
  function Returned<S>(d: Deployment<S>, call: ToolCall, before: seq<Trace>): Option<Json> {
    var raw := d.platform.parse(call.arguments);
    if call.name !in d.registry || raw.None? then None
    else
      var handler := d.registry[call.name];
      var input := handler.parse(raw.value);
      if input.None? then None else handler.run(before + [Parsed(call.name)], input.value)
  }

  /** The call is authorized, and its handler returns something that may be sent back. */
  ghost predicate IsServed<S>(d: Deployment<S>, call: ToolCall, before: seq<Trace>) {
    && Authorized(d, call.name) && Returned(d, call, before).Some?
    && var text := d.platform.stringify(Returned(d, call, before).value);
       text.Some? && |Encode(text.value)| <= 32768
  }

  /** Why a call is not served, within the depth bound. */
  ghost function WhyNot<S>(d: Deployment<S>, call: ToolCall): Refusal {
    if call.name !in d.registry then UnknownCapability
    else if !Authorized(d, call.name) then CapabilityForbidden
    else
      var raw := d.platform.parse(call.arguments);
      if raw.None? || d.registry[call.name].parse(raw.value).None? then InvalidToolArguments else CapabilityFailed
  }

  lemma ScreenedCall<S>(d: Deployment<S>, depth: int, call: ToolCall)
    requires WellFormedCall(d.platform, call)
    ensures ReportableId(CallJson(call)) == call.id
    ensures Screen(d, depth, CallJson(call))
         == if !(1 <= depth <= DISPATCH_DEPTH_MAX) then Refuse(DispatchDepthExceeded)
            else if !Authorized(d, call.name) then Refuse(WhyNot(d, call))
            else Proceed(call.name, d.platform.parse(call.arguments).value)
  {
    EnvelopeOf(call);
  }

  /**
   * One call of the router's: it is served exactly when it may be, with what its handler returned
   * for its own arguments, under its own id; otherwise it is refused for the first reason there is.
   */
  lemma OneIsServedExactly<S>(d: Deployment<S>, depth: int, call: ToolCall, trace: seq<Trace>)
    requires WellFormedCall(d.platform, call)
    ensures var (outcome, after) := One(d, depth, CallJson(call), trace);
            && outcome.id == call.id
            && (outcome.Done? <==> 1 <= depth <= DISPATCH_DEPTH_MAX && IsServed(d, call, trace))
            && (outcome.Done? ==>
                  && outcome == Done(call.id, call.name, Returned(d, call, trace).value)
                  && after == trace + Handled([call.name]))
            && (outcome.Refused? ==>
                  outcome.code == if !(1 <= depth <= DISPATCH_DEPTH_MAX) then DispatchDepthExceeded
                                  else WhyNot(d, call))
  {
    ScreenedCall(d, depth, call);
    assert [call.name][..0] == [];
    assert Handled([call.name]) == [Parsed(call.name), Ran(call.name)];
    assert trace + [Parsed(call.name)] + [Ran(call.name)] == trace + [Parsed(call.name), Ran(call.name)];
  }

  lemma AllSnoc<S>(d: Deployment<S>, depth: int, entries: seq<Json>, entry: Json, trace: seq<Trace>)
    ensures var (early, before) := All(d, depth, entries, trace);
            var (outcome, after) := One(d, depth, entry, before);
            All(d, depth, entries + [entry], trace) == (early + [outcome], after)
  {
    assert (entries + [entry])[..|entries|] == entries;
  }

  /** What the trace is when call `i` of a batch begins, all calls before it having been served. */
  function TraceAt(calls: seq<ToolCall>, before: seq<Trace>, i: nat): seq<Trace>
    requires i <= |calls|
  {
    before + Handled(Names(calls[..i]))
  }

  ghost predicate AllServed<S>(d: Deployment<S>, calls: seq<ToolCall>, before: seq<Trace>) {
    forall i :: 0 <= i < |calls| ==> IsServed(d, calls[i], TraceAt(calls, before, i))
  }

  /** Each call ran exactly once, in order, and is answered under its own id with what its handler returned. */
  ghost predicate RanInOrder<S>(d: Deployment<S>, calls: seq<ToolCall>, trace: seq<Trace>, outcomes: seq<Outcome>,
                                after: seq<Trace>)
  {
    && |outcomes| == |calls| && AllServed(d, calls, trace) && after == TraceAt(calls, trace, |calls|)
    && forall i :: 0 <= i < |calls| ==>
         outcomes[i] == Done(calls[i].id, calls[i].name, Returned(d, calls[i], TraceAt(calls, trace, i)).value)
  }

  lemma AllDoneFront(early: seq<Outcome>, last: Outcome)
    ensures AllDone(early + [last]) <==> AllDone(early) && last.Done?
  {
    assert forall i :: 0 <= i < |early| ==> (early + [last])[i] == early[i];
    assert (early + [last])[|early|] == last;
  }

  lemma NamesSnoc(front: seq<ToolCall>, last: ToolCall)
    ensures Names(front + [last]) == Names(front) + [last.name]
  {
  }

  lemma HandledSnoc(names: seq<string>, name: string)
    ensures Handled(names + [name]) == Handled(names) + Handled([name])
  {
    assert (names + [name])[..|names|] == names;
    assert [name][..0] == [];
    assert Handled([name]) == [Parsed(name), Ran(name)];
  }

  lemma TraceAtSnoc(front: seq<ToolCall>, last: ToolCall, trace: seq<Trace>)
    ensures forall i :: 0 <= i <= |front| ==> TraceAt(front + [last], trace, i) == TraceAt(front, trace, i)
    ensures TraceAt(front + [last], trace, |front| + 1) == TraceAt(front, trace, |front|) + Handled([last.name])
  {
    forall i | 0 <= i <= |front| ensures TraceAt(front + [last], trace, i) == TraceAt(front, trace, i) {
      assert (front + [last])[..i] == front[..i];
    }
    assert (front + [last])[..|front| + 1] == front + [last] && front[..|front|] == front;
    NamesSnoc(front, last);
    HandledSnoc(Names(front), last.name);
    Associates(trace, Handled(Names(front)), Handled([last.name]));
  }

  lemma ServedSnoc<S>(d: Deployment<S>, front: seq<ToolCall>, last: ToolCall, trace: seq<Trace>)
    ensures AllServed(d, front + [last], trace)
       <==> AllServed(d, front, trace) && IsServed(d, last, TraceAt(front, trace, |front|))
  {
    TraceAtSnoc(front, last, trace);
    assert forall i :: 0 <= i < |front| ==> (front + [last])[i] == front[i];
    assert (front + [last])[|front|] == last;
  }

  lemma RanSnoc<S>(d: Deployment<S>, front: seq<ToolCall>, last: ToolCall, trace: seq<Trace>, early: seq<Outcome>,
                   before: seq<Trace>, outcome: Outcome, after: seq<Trace>)
    requires RanInOrder(d, front, trace, early, before) && IsServed(d, last, before)
    requires outcome == Done(last.id, last.name, Returned(d, last, before).value)
    requires after == before + Handled([last.name])
    ensures RanInOrder(d, front + [last], trace, early + [outcome], after)
  {
    TraceAtSnoc(front, last, trace);
    ServedSnoc(d, front, last, trace);
  }

  lemma ServedMore<S>(d: Deployment<S>, depth: int, front: seq<ToolCall>, last: ToolCall, trace: seq<Trace>,
                      early: seq<Outcome>, before: seq<Trace>, outcome: Outcome, after: seq<Trace>)
    requires WellFormedCall(d.platform, last) && 1 <= depth <= DISPATCH_DEPTH_MAX
    requires (outcome, after) == One(d, depth, CallJson(last), before)
    requires AllDone(early) <==> AllServed(d, front, trace)
    requires AllDone(early) ==> RanInOrder(d, front, trace, early, before)
    ensures AllDone(early + [outcome]) <==> AllServed(d, front + [last], trace)
    ensures AllDone(early + [outcome]) ==> RanInOrder(d, front + [last], trace, early + [outcome], after)
  {
    AllDoneFront(early, outcome);
    ServedSnoc(d, front, last, trace);
    OneIsServedExactly(d, depth, last, before);
    if AllDone(early + [outcome]) {
      RanSnoc(d, front, last, trace, early, before, outcome, after);
    }
  }

  lemma CallsJsonSnoc(front: seq<ToolCall>, last: ToolCall)
    ensures CallsJson(front + [last]) == CallsJson(front) + [CallJson(last)]
  {
  }

  /**
   * A batch is served whole exactly when every call of it may be, each behind the ones in front
   * of it; then each ran exactly once, in order, and is answered with its own result.
   */
  lemma {:induction false} DoneMeansRunInOrder<S>(d: Deployment<S>, depth: int, calls: seq<ToolCall>, trace: seq<Trace>)
    requires forall i :: 0 <= i < |calls| ==> WellFormedCall(d.platform, calls[i])
    requires 1 <= depth <= DISPATCH_DEPTH_MAX
    ensures var (outcomes, after) := All(d, depth, CallsJson(calls), trace);
            && (AllDone(outcomes) <==> AllServed(d, calls, trace))
            && (AllDone(outcomes) ==> RanInOrder(d, calls, trace, outcomes, after))
    decreases |calls|
  {
    if calls == [] {
      assert TraceAt(calls, trace, 0) == trace;
    } else {
      var front, last := calls[..|calls| - 1], calls[|calls| - 1];
      var (early, before) := All(d, depth, CallsJson(front), trace);
      var (outcome, after) := One(d, depth, CallJson(last), before);
      DoneMeansRunInOrder(d, depth, front, trace);
      FrontAndLast(calls);
      CallsJsonSnoc(front, last);
      AllSnoc(d, depth, CallsJson(front), CallJson(last), trace);
      ServedMore(d, depth, front, last, trace, early, before, outcome, after);
    }
  }

  class Dispatcher<!S> {
    const deployment: Deployment<S>
    var trace: seq<Trace>

    constructor (deployment: Deployment<S>)
      ensures this.deployment == deployment && trace == []
    {
      this.deployment, trace := deployment, [];
    }

    /** depth, envelope, byte cap, JSON, shape, lookup, scope, parse, run, output. */
    method DispatchOne(entry: Json, depth: int) returns (outcome: Outcome)
      modifies this
      ensures (outcome, trace) == One(deployment, depth, entry, old(trace))
    {
      var id, reported := ReportableId(entry), ReportableName(entry);
      if depth < 1 || depth > DISPATCH_DEPTH_MAX {
        return Refused(id, reported, DispatchDepthExceeded);
      }
      var envelope := ReadEnvelope(entry);
      if envelope.None? {
        return Refused(id, reported, InvalidToolCall);
      }
      var (name, args) := envelope.value;
      if |Encode(args)| > DISPATCH_ARGUMENT_MAX_BYTES {
        return Refused(id, reported, ToolArgumentsTooLarge);
      }
      var raw := deployment.platform.parse(args);
      if raw.None? || !raw.value.Obj? {
        return Refused(id, reported, InvalidToolArguments);
      }
      if name !in deployment.registry {
        return Refused(id, reported, UnknownCapability);
      }
      var handler := deployment.registry[name];
      if deployment.granted.None? || !Satisfies(deployment.granted.value, handler.requiredScope) {
        return Refused(id, reported, CapabilityForbidden);
      }
      outcome := Serve(id, reported, name, raw.value);
    }

    method Serve(id: string, reported: string, name: string, raw: Json) returns (outcome: Outcome)
      requires name in deployment.registry
      modifies this
      ensures var handler := deployment.registry[name];
              var input := handler.parse(raw);
              var parsed := old(trace) + [Parsed(name)];
              if input.None? then outcome == Refused(id, reported, InvalidToolArguments) && trace == parsed
              else
                var output := handler.run(parsed, input.value);
                && trace == parsed + [Ran(name)]
                && outcome == if output.Some? && Printable(deployment, output.value) then Done(id, name, output.value)
                              else Refused(id, reported, CapabilityFailed)
    {
      var handler := deployment.registry[name];
      trace := trace + [Parsed(name)];
      var input := handler.parse(raw);
      if input.None? {
        return Refused(id, reported, InvalidToolArguments);
      }
      var output := handler.run(trace, input.value);
      trace := trace + [Ran(name)];
      if output.None? || !Printable(deployment, output.value) {
        return Refused(id, reported, CapabilityFailed);
      }
      return Done(id, name, output.value);
    }

    method DispatchToolCalls(calls: Json, depth: int) returns (r: Result<seq<Outcome>, BatchError>)
      modifies this
      ensures (r, trace) == DispatchAll(deployment, depth, calls, old(trace))
    {
      if !calls.Arr? || calls.items == [] {
        return Err(CallsShape);
      }
      if |calls.items| > DISPATCH_CALLS_MAX {
        return Err(TooManyCalls);
      }
      var outcomes: seq<Outcome> := [];
      for i := 0 to |calls.items|
        invariant (outcomes, trace) == All(deployment, depth, calls.items[..i], old(trace))
      {
        assert calls.items[..i + 1][..i] == calls.items[..i];
        var outcome := DispatchOne(calls.items[i], depth);
        outcomes := outcomes + [outcome];
      }
      assert calls.items[..|calls.items|] == calls.items;
      return Ok(outcomes);
    }
  }
}
