/** Tool calls, tool results and the conversation that carries them, as the router validates them. */
module ToolCalls {
  import opened Prelude
  import opened Utf8
  import opened Text
  import opened Numerals

  const MAX_MESSAGES := 256
  const MAX_CONTENT_CHARS := 128000
  const MAX_REQUEST_BYTES := 1024 * 1024
  const MAX_TOOL_CALLS := 8
  const MAX_TOOL_ARGUMENT_BYTES := 32 * 1024
  const MAX_MESSAGE_NAME_LENGTH := 64

  /** Untrusted values; `Alien` is any object without an ordinary prototype. */
  datatype Json = Null | Bool(value: bool) | Number(text: string) | Str(s: string) | Arr(items: seq<Json>)
                | Obj(fields: map<string, Json>) | Alien

  /** The JSON functions of the platform, and the parts of a request that are not its messages. */
  datatype Platform<!Settings> = Platform(
    parse: string -> Option<Json>,
    stringify: Json -> Option<string>,
    validSettings: Settings -> bool,
    requestBytes: (Settings, seq<Message>) -> nat)

  datatype ToolCall = ToolCall(id: string, name: string, arguments: string)

  datatype Message = Message(role: string, content: Option<string>, toolCalls: Option<seq<ToolCall>>,
                             toolCallId: Option<string>)

  /** Letters and digits, then also hyphens and underscores: 1 to 128 characters. */
  predicate IsCallId(id: string) {
    1 <= |id| <= 128 && IsAlphanumeric(id[0])
    && forall i :: 0 <= i < |id| ==> IsAlphanumeric(id[i]) || id[i] == '_' || id[i] == '-'
  }

  predicate IsToolName(name: string) {
    && 1 <= |name| <= 64 && !('0' <= name[0] <= '9') && name[0] != '-' && !("__" <= name)
    && forall i :: 0 <= i < |name| ==> IsAlphanumeric(name[i]) || name[i] == '_' || name[i] == '-'
  }

  ghost predicate WordChars(s: string) {
    forall c :: c in s ==> IsAlphanumeric(c) || c in {'_', '-'}
  }

  lemma CallIdsAre(id: string)
    ensures IsCallId(id) <==> 1 <= |id| <= 128 && IsAlphanumeric(id[0]) && WordChars(id)
  {
    assert forall i :: 0 <= i < |id| ==> id[i] in id;
  }

  /** A tool's name is a word that starts with a letter or one underscore. */
  lemma ToolNamesAre(name: string)
    ensures IsToolName(name)
       <==> && 1 <= |name| <= 64 && WordChars(name) && !("__" <= name)
            && (name[0] == '_' || (IsAlphanumeric(name[0]) && Digit(name[0]) > 9))
  {
    assert forall i :: 0 <= i < |name| ==> name[i] in name;
  }

  /** How many UTF-16 units a text has. */
  function Utf16Length(s: string): nat {
    if s == "" then 0 else Utf16Length(s[..|s| - 1]) + (if s[|s| - 1] as int >= 0x10000 then 2 else 1)
  }

  function CountSupplementary(s: string): nat {
    if s == "" then 0 else (if s[0] > '\U{FFFF}' then 1 else 0) + CountSupplementary(s[1..])
  }

  /** A character has one unit, and one more when it lies outside the basic plane. */
  lemma {:induction false} Utf16LengthCounts(s: string)
    ensures Utf16Length(s) == |s| + CountSupplementary(s)
  {
    if s != "" {
      Utf16LengthCounts(s[1..]);
      Utf16LengthFirst(s);
    }
  }

  lemma {:induction false} Utf16LengthFirst(s: string)
    requires s != ""
    ensures Utf16Length(s) == (if s[0] > '\U{FFFF}' then 2 else 1) + Utf16Length(s[1..])
  {
    var n := |s| - 1;
    if n > 0 {
      Utf16LengthFirst(s[..n]);
      assert s[1..][..n - 1] == s[..n][1..] && s[1..][n - 1] == s[n];
    } else {
      assert s[1..] == "" && s[..0] == "";
    }
  }

  // ---- tool calls --------------------------------------------------------------------------------

  function ParseToolCall<S>(platform: Platform<S>, entry: Json): Option<ToolCall> {
    if !entry.Obj? || !(entry.fields.Keys <= {"id", "type", "function", "index"}) then None
    else if "type" !in entry.fields || entry.fields["type"] != Str("function") then None
    else if "id" !in entry.fields || !entry.fields["id"].Str? || !IsCallId(entry.fields["id"].s) then None
    else if "function" !in entry.fields || !entry.fields["function"].Obj? then None
    else
      var fn := entry.fields["function"].fields;
      if !(fn.Keys <= {"name", "arguments"}) || "name" !in fn || !fn["name"].Str? || !IsToolName(fn["name"].s) then None
      else if "arguments" !in fn || !fn["arguments"].Str? || fn["arguments"].s == "" then None
      else
        var args := fn["arguments"].s;
        if |Encode(args)| > MAX_TOOL_ARGUMENT_BYTES then None
        else
          var parsed := platform.parse(args);
          if parsed.None? || !parsed.value.Obj? then None
          else Some(ToolCall(entry.fields["id"].s, fn["name"].s, args))
  }

  predicate HasId(calls: seq<ToolCall>, id: string) {
    exists i :: 0 <= i < |calls| && calls[i].id == id
  }

  /** One call after the other, no id twice. */
  function ParseCallList<S>(platform: Platform<S>, items: seq<Json>): (calls: Option<seq<ToolCall>>)
    ensures calls.Some? ==> |calls.value| == |items|
  {
    if items == [] then Some([])
    else
      var early := ParseCallList(platform, items[..|items| - 1]);
      var call := ParseToolCall(platform, items[|items| - 1]);
      if early.None? || call.None? || HasId(early.value, call.value.id) then None
      else Some(early.value + [call.value])
  }

  function ParseToolCalls<S>(platform: Platform<S>, input: Json): Option<seq<ToolCall>> {
    if !input.Arr? || input.items == [] || |input.items| > MAX_TOOL_CALLS then None
    else ParseCallList(platform, input.items)
  }

  lemma CallListSnoc<S>(platform: Platform<S>, items: seq<Json>, calls: seq<ToolCall>, item: Json)
    requires ParseCallList(platform, items) == Some(calls)
    ensures ParseCallList(platform, items + [item])
         == match ParseToolCall(platform, item)
            case None => None
            case Some(call) => if HasId(calls, call.id) then None else Some(calls + [call])
  {
    assert (items + [item])[..|items|] == items;
  }

  method ReadToolCalls<S>(platform: Platform<S>, input: Json) returns (r: Option<seq<ToolCall>>)
    ensures r == ParseToolCalls(platform, input)
  {
    if !input.Arr? || input.items == [] || |input.items| > MAX_TOOL_CALLS {
      return None;
    }
    r := ReadCalls(platform, input.items);
  }

  /** The source's own loop, with the set of ids seen. */
  method ReadCalls<S>(platform: Platform<S>, items: seq<Json>) returns (r: Option<seq<ToolCall>>)
    ensures r == ParseCallList(platform, items)
  {
    var seen: set<string> := {};
    var calls: seq<ToolCall> := [];
    for i := 0 to |items|
      invariant ParseCallList(platform, items[..i]) == Some(calls)
      invariant forall id :: id in seen <==> HasId(calls, id)
    {
      NextCall(platform, items, i, calls);
      var call := ParseToolCall(platform, items[i]);
      if call.None? || call.value.id in seen {
        return None;
      }
      HasIdSnoc(calls, call.value);
      seen := seen + {call.value.id};
      calls := calls + [call.value];
    }
    assert items[..|items|] == items;
    return Some(calls);
  }

  lemma NextCall<S>(platform: Platform<S>, items: seq<Json>, i: nat, calls: seq<ToolCall>)
    requires i < |items| && ParseCallList(platform, items[..i]) == Some(calls)
    ensures var call := ParseToolCall(platform, items[i]);
            if call.None? || HasId(calls, call.value.id) then ParseCallList(platform, items).None?
            else ParseCallList(platform, items[..i + 1]) == Some(calls + [call.value])
  {
    TakeNext(items, i);
    CallListSnoc(platform, items[..i], calls, items[i]);
    var call := ParseToolCall(platform, items[i]);
    if call.None? || HasId(calls, call.value.id) {
      CallPrefixFails(platform, items, i + 1);
    }
  }

  lemma HasIdSnoc(calls: seq<ToolCall>, call: ToolCall)
    ensures forall id :: HasId(calls + [call], id) <==> HasId(calls, id) || id == call.id
  {
    forall id ensures HasId(calls + [call], id) <==> HasId(calls, id) || id == call.id {
      if HasId(calls, id) {
        var i :| 0 <= i < |calls| && calls[i].id == id;
        assert (calls + [call])[i].id == id;
      }
      if id == call.id {
        assert (calls + [call])[|calls|].id == id;
      }
    }
  }

  lemma {:induction false} CallPrefixFails<S>(platform: Platform<S>, items: seq<Json>, n: nat)
    requires n <= |items| && ParseCallList(platform, items[..n]).None?
    ensures ParseCallList(platform, items).None?
    decreases |items|
  {
    if n == |items| {
      assert items[..n] == items;
    } else {
      assert items[..|items| - 1][..n] == items[..n];
      CallPrefixFails(platform, items[..|items| - 1], n);
    }
  }

  // ---- messages ----------------------------------------------------------------------------------

  function ParseToolMessage(fields: map<string, Json>, known: set<string>): Option<Message> {
    if "tool_call_id" !in fields || !fields["tool_call_id"].Str? || !IsCallId(fields["tool_call_id"].s)
       || fields["tool_call_id"].s !in known then None
    else if "content" !in fields || !fields["content"].Str? || fields["content"].s == "" then None
    else if |Encode(fields["content"].s)| > MAX_TOOL_ARGUMENT_BYTES then None
    else Some(Message("tool", Some(fields["content"].s), None, Some(fields["tool_call_id"].s)))
  }

  predicate IsRole(role: string) {
    role == "system" || role == "user" || role == "assistant" || role == "tool"
  }

  predicate NameIsFine(fields: map<string, Json>) {
    "name" in fields ==> fields["name"].Str? && 1 <= Utf16Length(fields["name"].s) <= MAX_MESSAGE_NAME_LENGTH
  }

  function ParseMessage<S>(platform: Platform<S>, entry: Json, known: set<string>): Option<Message> {
    if !entry.Obj? || !(entry.fields.Keys <= {"role", "content", "tool_calls", "tool_call_id", "name"}) then None
    else if "role" !in entry.fields || !entry.fields["role"].Str? || !IsRole(entry.fields["role"].s) then None
    else if !NameIsFine(entry.fields) then None
    else if entry.fields["role"].s == "tool" then ParseToolMessage(entry.fields, known)
    else ParseSpoken(platform, entry.fields, entry.fields["role"].s)
  }

  /** A message that is not a tool result. */
  function ParseSpoken<S>(platform: Platform<S>, fields: map<string, Json>, role: string): Option<Message> {
    var calls := if "tool_calls" in fields then ParseToolCalls(platform, fields["tool_calls"]) else None;
    if "tool_calls" in fields && (calls.None? || role != "assistant") then None
    else if "content" !in fields || fields["content"].Null? then
      if calls.Some? then Some(Message(role, None, calls, None)) else None
    else if !fields["content"].Str? then None
    else
      var content := fields["content"].s;
      if (content == "" && calls.None?) || Utf16Length(content) > MAX_CONTENT_CHARS then None
      else Some(Message(role, Some(content), calls, None))
  }

  function IdsOf(message: Message): set<string> {
    if message.toolCalls.None? then {}
    else set i | 0 <= i < |message.toolCalls.value| :: message.toolCalls.value[i].id
  }

  /** The call ids declared so far. */
  function Known(messages: seq<Message>): set<string> {
    if messages == [] then {} else Known(messages[..|messages| - 1]) + IdsOf(messages[|messages| - 1])
  }

  function ParseMessageList<S>(platform: Platform<S>, entries: seq<Json>): (messages: Option<seq<Message>>)
    ensures messages.Some? ==> |messages.value| == |entries|
  {
    if entries == [] then Some([])
    else
      var early := ParseMessageList(platform, entries[..|entries| - 1]);
      if early.None? then None
      else
        var message := ParseMessage(platform, entries[|entries| - 1], Known(early.value));
        if message.None? then None else Some(early.value + [message.value])
  }

  function ParseMessages<S>(platform: Platform<S>, input: Json): Option<seq<Message>> {
    if !input.Arr? || input.items == [] || |input.items| > MAX_MESSAGES then None
    else ParseMessageList(platform, input.items)
  }

  lemma KnownSnoc(messages: seq<Message>, message: Message)
    ensures Known(messages + [message]) == Known(messages) + IdsOf(message)
  {
    assert (messages + [message])[..|messages|] == messages;
  }

  lemma ListSnoc<S>(platform: Platform<S>, entries: seq<Json>, messages: seq<Message>, entry: Json)
    requires ParseMessageList(platform, entries) == Some(messages)
    ensures ParseMessageList(platform, entries + [entry])
         == match ParseMessage(platform, entry, Known(messages))
            case None => None
            case Some(message) => Some(messages + [message])
  {
    assert (entries + [entry])[..|entries|] == entries;
  }

  /** The source's own loop, with the set of known ids carried forward. */
  method ReadMessages<S>(platform: Platform<S>, input: Json) returns (r: Option<seq<Message>>)
    ensures r == ParseMessages(platform, input)
  {
    if !input.Arr? || input.items == [] || |input.items| > MAX_MESSAGES {
      return None;
    }
    r := ReadEntries(platform, input.items);
  }

  /** One more entry, or a failure of the whole. */
  lemma NextEntry<S>(platform: Platform<S>, entries: seq<Json>, i: nat, messages: seq<Message>)
    requires i < |entries| && ParseMessageList(platform, entries[..i]) == Some(messages)
    ensures match ParseMessage(platform, entries[i], Known(messages))
            case None => ParseMessageList(platform, entries).None?
            case Some(message) =>
              && ParseMessageList(platform, entries[..i + 1]) == Some(messages + [message])
              && Known(messages + [message]) == Known(messages) + IdsOf(message)
  {
    TakeNext(entries, i);
    ListSnoc(platform, entries[..i], messages, entries[i]);
    match ParseMessage(platform, entries[i], Known(messages))
    case None => MessagePrefixFails(platform, entries, i + 1);
    case Some(message) => KnownSnoc(messages, message);
  }

  method ReadEntries<S>(platform: Platform<S>, entries: seq<Json>) returns (r: Option<seq<Message>>)
    ensures r == ParseMessageList(platform, entries)
  {
    var knownCallIds: set<string> := {};
    var messages: seq<Message> := [];
    for i := 0 to |entries|
      invariant ParseMessageList(platform, entries[..i]) == Some(messages) && knownCallIds == Known(messages)
    {
      NextEntry(platform, entries, i, messages);
      var message := ParseMessage(platform, entries[i], knownCallIds);
      if message.None? {
        return None;
      }
      knownCallIds := knownCallIds + IdsOf(message.value);
      messages := messages + [message.value];
    }
    assert entries[..|entries|] == entries;
    return Some(messages);
  }

  lemma {:induction false} MessagePrefixFails<S>(platform: Platform<S>, entries: seq<Json>, n: nat)
    requires n <= |entries| && ParseMessageList(platform, entries[..n]).None?
    ensures ParseMessageList(platform, entries).None?
    decreases |entries|
  {
    if n == |entries| {
      assert entries[..n] == entries;
    } else {
      assert entries[..|entries| - 1][..n] == entries[..n];
      MessagePrefixFails(platform, entries[..|entries| - 1], n);
    }
  }

  // ---- a message is its entry ----------------------------------------------------------------------

  /** An accepted message has the role, text, calls and id of its entry, and nothing else. */
  lemma MessageIsItsEntry<S>(platform: Platform<S>, entry: Json, known: set<string>)
    requires ParseMessage(platform, entry, known).Some?
    ensures entry.Obj?
    ensures var m, fields := ParseMessage(platform, entry, known).value, entry.fields;
            && m.role in {"system", "user", "assistant", "tool"}
            && "role" in fields && fields["role"] == Str(m.role)
            && (match m.content
                case None => "content" !in fields || fields["content"] == Null
                case Some(text) => "content" in fields && fields["content"] == Str(text))
            && (match m.toolCallId
                case None => m.role != "tool"
                case Some(id) => m.role == "tool" && id in known && "tool_call_id" in fields
                                 && fields["tool_call_id"] == Str(id))
            && (match m.toolCalls
                case None => m.role == "tool" || "tool_calls" !in fields
                case Some(calls) => m.role == "assistant" && "tool_calls" in fields
                                    && ParseToolCalls(platform, fields["tool_calls"]) == Some(calls))
            && (m.content.None? || m.content.value == "" ==> m.toolCalls.Some?)
  {
  }

  /** Exactly which entries are accepted as messages. */
  lemma MessageIsAccepted<S>(platform: Platform<S>, entry: Json, known: set<string>)
    ensures ParseMessage(platform, entry, known).Some?
       <==> && entry.Obj? && entry.fields.Keys <= {"role", "content", "tool_calls", "tool_call_id", "name"}
            && var fields := entry.fields;
               && "role" in fields && fields["role"].Str? && fields["role"].s in {"system", "user", "assistant", "tool"}
               && ("name" in fields ==> fields["name"].Str? && 1 <= Utf16Length(fields["name"].s) <= 64)
               && if fields["role"].s == "tool" then
                    && "tool_call_id" in fields && fields["tool_call_id"].Str? && fields["tool_call_id"].s in known
                    && IsCallId(fields["tool_call_id"].s)
                    && "content" in fields && fields["content"].Str? && fields["content"].s != ""
                    && |Encode(fields["content"].s)| <= 32768
                  else
                    && ("tool_calls" in fields ==>
                          fields["role"].s == "assistant" && ParseToolCalls(platform, fields["tool_calls"]).Some?)
                    && if "content" !in fields || fields["content"].Null? then "tool_calls" in fields
                       else fields["content"].Str? && Utf16Length(fields["content"].s) <= 128000
                            && (fields["content"].s == "" ==> "tool_calls" in fields)
  {
  }

  /** Plain text within the cap is accepted in every role but that of a tool. */
  lemma PlainTextIsAccepted<S>(platform: Platform<S>, role: string, content: string, known: set<string>)
    requires role in {"system", "user", "assistant"} && content != "" && Utf16Length(content) <= MAX_CONTENT_CHARS
    ensures ParseMessage(platform, Obj(map["role" := Str(role), "content" := Str(content)]), known)
         == Some(Message(role, Some(content), None, None))
  {
    var fields := map["role" := Str(role), "content" := Str(content)];
    assert fields.Keys == {"role", "content"};
  }

  // ---- no result without its call ----------------------------------------------------------------

  /** Every tool result answers a call declared in an earlier message. */
  ghost predicate Justified(messages: seq<Message>) {
    forall i :: 0 <= i < |messages| && messages[i].toolCallId.Some? ==>
      exists j :: 0 <= j < i && messages[i].toolCallId.value in IdsOf(messages[j])
  }

  lemma {:induction false} KnownIsDeclared(messages: seq<Message>, id: string)
    requires id in Known(messages)
    ensures exists j :: 0 <= j < |messages| && id in IdsOf(messages[j])
  {
    if id in IdsOf(messages[|messages| - 1]) {
    } else {
      KnownIsDeclared(messages[..|messages| - 1], id);
      var j :| 0 <= j < |messages| - 1 && id in IdsOf(messages[..|messages| - 1][j]);
      assert id in IdsOf(messages[j]);
    }
  }

  /** An accepted conversation has no result for a call that never happened. */
  lemma {:induction false} AcceptedIsJustified<S>(platform: Platform<S>, entries: seq<Json>)
    requires ParseMessageList(platform, entries).Some?
    ensures Justified(ParseMessageList(platform, entries).value)
    decreases |entries|
  {
    if entries != [] {
      AcceptedIsJustified(platform, entries[..|entries| - 1]);
      var early := ParseMessageList(platform, entries[..|entries| - 1]).value;
      var message := ParseMessage(platform, entries[|entries| - 1], Known(early)).value;
      var all := early + [message];
      forall i | 0 <= i < |all| && all[i].toolCallId.Some?
        ensures exists j :: 0 <= j < i && all[i].toolCallId.value in IdsOf(all[j])
      {
        if i < |early| {
          var j :| 0 <= j < i && early[i].toolCallId.value in IdsOf(early[j]);
          assert all[i].toolCallId.value in IdsOf(all[j]);
        } else {
          KnownIsDeclared(early, message.toolCallId.value);
          var j :| 0 <= j < |early| && message.toolCallId.value in IdsOf(early[j]);
          assert all[i].toolCallId.value in IdsOf(all[j]);
        }
      }
    }
  }

  // ---- replaying a batch and its results -----------------------------------------------------------

  function CallJson(call: ToolCall): Json {
    Obj(map["id" := Str(call.id), "type" := Str("function"),
            "function" := Obj(map["name" := Str(call.name), "arguments" := Str(call.arguments)])])
  }

  function CallsJson(calls: seq<ToolCall>): seq<Json> {
    seq(|calls|, i requires 0 <= i < |calls| => CallJson(calls[i]))
  }

  function AssistantJson(calls: seq<ToolCall>): Json {
    Obj(map["role" := Str("assistant"), "content" := Null, "tool_calls" := Arr(CallsJson(calls))])
  }

  function ResultJson(id: string, content: string): Json {
    Obj(map["role" := Str("tool"), "tool_call_id" := Str(id), "content" := Str(content)])
  }

  function ResultsJson(calls: seq<ToolCall>, outputs: seq<string>): seq<Json>
    requires |outputs| <= |calls|
  {
    seq(|outputs|, i requires 0 <= i < |outputs| => ResultJson(calls[i].id, outputs[i]))
  }

  /** The conversation sent back: the old one, the calls, and one result for each. */
  function Replay(entries: seq<Json>, calls: seq<ToolCall>, outputs: seq<string>): seq<Json>
    requires |outputs| <= |calls|
  {
    entries + [AssistantJson(calls)] + ResultsJson(calls, outputs)
  }

  function ResultMessages(calls: seq<ToolCall>, outputs: seq<string>): seq<Message>
    requires |outputs| <= |calls|
  {
    seq(|outputs|, i requires 0 <= i < |outputs| => Message("tool", Some(outputs[i]), None, Some(calls[i].id)))
  }

  /** A batch the router's parser has accepted. */
  ghost predicate WellFormed<S>(platform: Platform<S>, calls: seq<ToolCall>) {
    && 1 <= |calls| <= MAX_TOOL_CALLS
    && (forall i :: 0 <= i < |calls| ==> WellFormedCall(platform, calls[i]))
    && forall i, j :: 0 <= i < j < |calls| ==> calls[i].id != calls[j].id
  }

  predicate WellFormedCall<S>(platform: Platform<S>, call: ToolCall) {
    && IsCallId(call.id) && IsToolName(call.name) && call.arguments != ""
    && |Encode(call.arguments)| <= MAX_TOOL_ARGUMENT_BYTES
    && platform.parse(call.arguments).Some? && platform.parse(call.arguments).value.Obj?
  }

  predicate Sendable(output: string) {
    output != "" && |Encode(output)| <= MAX_TOOL_ARGUMENT_BYTES
  }

  lemma {:induction false} ParsedIsWellFormed<S>(platform: Platform<S>, items: seq<Json>)
    requires ParseCallList(platform, items).Some?
    ensures var calls := ParseCallList(platform, items).value;
            && (forall i :: 0 <= i < |calls| ==> WellFormedCall(platform, calls[i]))
            && forall i, j :: 0 <= i < j < |calls| ==> calls[i].id != calls[j].id
    decreases |items|
  {
    if items != [] {
      ParsedIsWellFormed(platform, items[..|items| - 1]);
      var early := ParseCallList(platform, items[..|items| - 1]).value;
      var call := ParseToolCall(platform, items[|items| - 1]).value;
      forall i | 0 <= i < |early| ensures early[i].id != call.id {
        assert early[i].id == call.id ==> HasId(early, call.id);
      }
    }
  }

  lemma CallReadsBack<S>(platform: Platform<S>, call: ToolCall)
    requires WellFormedCall(platform, call)
    ensures ParseToolCall(platform, CallJson(call)) == Some(call)
  {
    var fields := CallJson(call).fields;
    assert fields.Keys == {"id", "type", "function"};
    assert fields["function"].fields.Keys == {"name", "arguments"};
  }

  lemma CallsSnoc(calls: seq<ToolCall>)
    requires calls != []
    ensures var n := |calls| - 1;
            CallsJson(calls) == CallsJson(calls[..n]) + [CallJson(calls[n])] && calls[..n] + [calls[n]] == calls
  {
  }

  lemma {:induction false} CallsReadBack<S>(platform: Platform<S>, calls: seq<ToolCall>)
    requires forall i :: 0 <= i < |calls| ==> WellFormedCall(platform, calls[i])
    requires forall i, j :: 0 <= i < j < |calls| ==> calls[i].id != calls[j].id
    ensures ParseCallList(platform, CallsJson(calls)) == Some(calls)
  {
    if calls != [] {
      var n := |calls| - 1;
      CallsReadBack(platform, calls[..n]);
      CallReadsBack(platform, calls[n]);
      CallsSnoc(calls);
      CallListSnoc(platform, CallsJson(calls[..n]), calls[..n], CallJson(calls[n]));
    }
  }

  lemma SpokenCalls<S>(platform: Platform<S>, fields: map<string, Json>, calls: seq<ToolCall>)
    requires "tool_calls" in fields && "content" in fields && fields["content"] == Null
    requires ParseToolCalls(platform, fields["tool_calls"]) == Some(calls)
    ensures ParseSpoken(platform, fields, "assistant") == Some(Message("assistant", None, Some(calls), None))
  {
  }

  lemma AssistantReadsBack<S>(platform: Platform<S>, calls: seq<ToolCall>, known: set<string>)
    requires WellFormed(platform, calls)
    ensures ParseMessage(platform, AssistantJson(calls), known) == Some(Message("assistant", None, Some(calls), None))
  {
    var fields := AssistantJson(calls).fields;
    assert fields.Keys == {"role", "content", "tool_calls"};
    CallsReadBack(platform, calls);
    assert CallsJson(calls) != [];
    SpokenCalls(platform, fields, calls);
  }

  lemma ResultReadsBack<S>(platform: Platform<S>, id: string, content: string, known: set<string>)
    requires IsCallId(id) && id in known && Sendable(content)
    ensures ParseMessage(platform, ResultJson(id, content), known)
         == Some(Message("tool", Some(content), None, Some(id)))
  {
    var fields := ResultJson(id, content).fields;
    assert fields.Keys == {"role", "tool_call_id", "content"};
  }

  lemma {:induction false} KnownGrows(messages: seq<Message>, more: seq<Message>)
    ensures Known(messages) <= Known(messages + more)
    decreases |more|
  {
    if more == [] {
      assert messages + more == messages;
    } else {
      var n := |more| - 1;
      KnownGrows(messages, more[..n]);
      assert (messages + more)[..|messages + more| - 1] == messages + more[..n];
    }
  }

  /** The entries up to and including the assistant's calls. */
  lemma CallsAreKnown<S>(platform: Platform<S>, entries: seq<Json>, calls: seq<ToolCall>)
    requires ParseMessageList(platform, entries).Some? && WellFormed(platform, calls)
    ensures var before := ParseMessageList(platform, entries).value + [Message("assistant", None, Some(calls), None)];
            && ParseMessageList(platform, entries + [AssistantJson(calls)]) == Some(before)
            && forall i :: 0 <= i < |calls| ==> calls[i].id in Known(before)
  {
    var parsed := ParseMessageList(platform, entries).value;
    var said := Message("assistant", None, Some(calls), None);
    AssistantReadsBack(platform, calls, Known(parsed));
    ListSnoc(platform, entries, parsed, AssistantJson(calls));
    KnownSnoc(parsed, said);
    forall i | 0 <= i < |calls| ensures calls[i].id in IdsOf(said) {
    }
  }

  lemma ResultFollows<S>(platform: Platform<S>, entries: seq<Json>, messages: seq<Message>, id: string, content: string)
    requires ParseMessageList(platform, entries) == Some(messages)
    requires IsCallId(id) && id in Known(messages) && Sendable(content)
    ensures ParseMessageList(platform, entries + [ResultJson(id, content)])
         == Some(messages + [Message("tool", Some(content), None, Some(id))])
  {
    ResultReadsBack(platform, id, content, Known(messages));
    ListSnoc(platform, entries, messages, ResultJson(id, content));
  }

  lemma ReplaySnoc(entries: seq<Json>, calls: seq<ToolCall>, outputs: seq<string>, before: seq<Message>)
    requires outputs != [] && |outputs| <= |calls|
    ensures var n := |outputs| - 1;
            && Replay(entries, calls, outputs)
            == Replay(entries, calls, outputs[..n]) + [ResultJson(calls[n].id, outputs[n])]
            && before + ResultMessages(calls, outputs)
            == before + ResultMessages(calls, outputs[..n])
               + [Message("tool", Some(outputs[n]), None, Some(calls[n].id))]
  {
  }

  /** Every replayed result is accepted, in order, after the message that declared its call. */
  lemma {:induction false} ResultsParse<S>(platform: Platform<S>, entries: seq<Json>, before: seq<Message>,
                                           calls: seq<ToolCall>, outputs: seq<string>)
    requires ParseMessageList(platform, entries + [AssistantJson(calls)]) == Some(before)
    requires |outputs| <= |calls| && forall i :: 0 <= i < |outputs| ==> Sendable(outputs[i])
    requires forall i :: 0 <= i < |calls| ==> IsCallId(calls[i].id) && calls[i].id in Known(before)
    ensures ParseMessageList(platform, Replay(entries, calls, outputs)) == Some(before + ResultMessages(calls, outputs))
    decreases |outputs|
  {
    if outputs == [] {
      assert Replay(entries, calls, outputs) == entries + [AssistantJson(calls)];
      assert before + ResultMessages(calls, outputs) == before;
    } else {
      var n := |outputs| - 1;
      ResultsParse(platform, entries, before, calls, outputs[..n]);
      KnownGrows(before, ResultMessages(calls, outputs[..n]));
      ResultFollows(platform, Replay(entries, calls, outputs[..n]), before + ResultMessages(calls, outputs[..n]),
                    calls[n].id, outputs[n]);
      ReplaySnoc(entries, calls, outputs, before);
    }
  }

  lemma ReplayParses<S>(platform: Platform<S>, entries: seq<Json>, calls: seq<ToolCall>, outputs: seq<string>)
    requires ParseMessageList(platform, entries).Some? && WellFormed(platform, calls)
    requires |outputs| <= |calls| && forall i :: 0 <= i < |outputs| ==> Sendable(outputs[i])
    ensures ParseMessageList(platform, Replay(entries, calls, outputs))
         == Some(ParseMessageList(platform, entries).value + [Message("assistant", None, Some(calls), None)]
                 + ResultMessages(calls, outputs))
  {
    var before := ParseMessageList(platform, entries).value + [Message("assistant", None, Some(calls), None)];
    CallsAreKnown(platform, entries, calls);
    ResultsParse(platform, entries, before, calls, outputs);
  }

  /** The entry of a call as a model's response may have it, with an index or without. */
  function IndexedCall(call: ToolCall, index: Option<Json>): Json {
    var fields := CallJson(call).fields;
    Obj(if index.Some? then fields["index" := index.value] else fields)
  }

  lemma IndexedReads<S>(platform: Platform<S>, call: ToolCall, index: Option<Json>)
    requires WellFormedCall(platform, call)
    ensures ParseToolCall(platform, IndexedCall(call, index)) == Some(call)
  {
    var fields := IndexedCall(call, index).fields;
    assert fields.Keys <= {"id", "type", "function", "index"};
    assert fields["function"] == CallJson(call).fields["function"];
    assert fields["function"].fields.Keys == {"name", "arguments"};
  }

  /** The other way round: an accepted entry is the entry of a well-formed call, and nothing else is in it. */
  lemma AcceptedIsIndexed<S>(platform: Platform<S>, entry: Json) returns (index: Option<Json>)
    requires ParseToolCall(platform, entry).Some?
    ensures WellFormedCall(platform, ParseToolCall(platform, entry).value)
    ensures entry == IndexedCall(ParseToolCall(platform, entry).value, index)
  {
    var call, fields := ParseToolCall(platform, entry).value, entry.fields;
    index := if "index" in fields then Some(fields["index"]) else None;
    var fn := fields["function"].fields;
    assert fn == map["name" := Str(call.name), "arguments" := Str(call.arguments)];
    var same := IndexedCall(call, index).fields;
    assert same.Keys == fields.Keys;
    assert forall key :: key in fields ==> fields[key] == same[key];
    assert fields == same;
  }

  // ---- requests ----------------------------------------------------------------------------------

  datatype Request<S> = Request(settings: S, messages: Json)

  /** Validation as a whole; the size is checked last, on the validated copy. */
  function ParseRequest<S>(platform: Platform<S>, request: Request<S>): Option<seq<Message>> {
    if !platform.validSettings(request.settings) then None
    else
      var messages := ParseMessages(platform, request.messages);
      if messages.None? || platform.requestBytes(request.settings, messages.value) > MAX_REQUEST_BYTES then None
      else messages
  }

  /** The request of the next turn. */
  function Grown<S>(request: Request<S>, calls: seq<ToolCall>, outputs: seq<string>): Request<S>
    requires request.messages.Arr? && |outputs| <= |calls|
  {
    request.(messages := Arr(Replay(request.messages.items, calls, outputs)))
  }

  function GrownMessages(messages: seq<Message>, calls: seq<ToolCall>, outputs: seq<string>): seq<Message>
    requires |outputs| <= |calls|
  {
    messages + [Message("assistant", None, Some(calls), None)] + ResultMessages(calls, outputs)
  }

  /**
   * A conversation that grew by a batch of calls and their results is refused only for its
   * number of messages or its size; when it is accepted, each call of the batch is answered
   * exactly once, in order, behind the message that declared it.
   */
  lemma GrownConversation<S>(platform: Platform<S>, request: Request<S>, calls: seq<ToolCall>, outputs: seq<string>)
    requires ParseRequest(platform, request).Some? && WellFormed(platform, calls)
    requires |outputs| == |calls| && forall i :: 0 <= i < |outputs| ==> Sendable(outputs[i])
    ensures var messages := GrownMessages(ParseRequest(platform, request).value, calls, outputs);
            ParseRequest(platform, Grown(request, calls, outputs))
            == if |request.messages.items| + 1 + |calls| <= MAX_MESSAGES
                  && platform.requestBytes(request.settings, messages) <= MAX_REQUEST_BYTES
               then Some(messages) else None
  {
    ReplayParses(platform, request.messages.items, calls, outputs);
  }
}
