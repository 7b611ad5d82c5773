/** Chatting in turns: dispatch the tool calls this deployment serves, hand everything else to the client. */
module ToolLoop {
  import opened Prelude
  import opened ToolCalls
  import opened Dispatch

  const MAX_DISPATCH_TURNS := 4

  /** What a provider answers, before the router has validated it. */
  datatype Reply = Failed | Answer(content: string, toolCalls: Option<Json>)

  datatype ChatResult = ChatResult(content: string, toolCalls: seq<ToolCall>)

  datatype LoopError = InvalidRequest | UpstreamFailed | InvalidResponse | DispatchSplit | DispatchExhausted
                     | BatchRefused(batch: BatchError) | CallRefused(code: Refusal)

  datatype Server<!S> = Server(deployment: Deployment<S>, answer: (seq<Request<S>>, Request<S>) -> Reply)

  /** The requests that reached a provider, and what handlers did. */
  datatype World<S> = World(asked: seq<Request<S>>, trace: seq<Trace>)

  function Chat<S>(server: Server<S>, w: World<S>, request: Request<S>): (Result<ChatResult, LoopError>, World<S>) {
    if ParseRequest(server.deployment.platform, request).None? then (Err(InvalidRequest), w)
    else
      var after := w.(asked := w.asked + [request]);
      match server.answer(w.asked, request)
      case Failed => (Err(UpstreamFailed), after)
      case Answer(content, None) => (Ok(ChatResult(content, [])), after)
      case Answer(content, Some(json)) =>
        match ParseToolCalls(server.deployment.platform, json)
        case None => (Err(InvalidResponse), after)
        case Some(calls) => (Ok(ChatResult(content, calls)), after)
  }

  /** How many calls of a batch this deployment serves. */
  function CountOurs<S>(d: Deployment<S>, calls: seq<ToolCall>): (n: nat)
    ensures n <= |calls|
  {
    if calls == [] then 0
    else CountOurs(d, calls[..|calls| - 1]) + if calls[|calls| - 1].name in d.registry then 1 else 0
  }

  function Outputs<S>(d: Deployment<S>, outcomes: seq<Outcome>): (outputs: seq<string>)
    ensures |outputs| == |outcomes|
  {
    seq(|outcomes|, i requires 0 <= i < |outcomes| =>
          d.platform.stringify(if outcomes[i].Done? then outcomes[i].output else Null).GetOr(""))
  }

  ghost predicate RefusedFirst(outcomes: seq<Outcome>, i: nat, code: Refusal)
    requires i < |outcomes|
  {
    outcomes[i].Refused? && outcomes[i].code == code && forall j :: 0 <= j < i ==> outcomes[j].Done?
  }

  /** The refusal of the first call that is refused. */
  function FirstRefusal(outcomes: seq<Outcome>): (code: Option<Refusal>)
    ensures code.None? <==> AllDone(outcomes)
    ensures code.Some? ==> exists i :: 0 <= i < |outcomes| && RefusedFirst(outcomes, i, code.value)
  {
    if outcomes == [] then None
    else
      var last := |outcomes| - 1;
      var early := FirstRefusal(outcomes[..last]);
      if early.Some? then
        assert forall i :: 0 <= i < last && RefusedFirst(outcomes[..last], i, early.value) ==>
                           RefusedFirst(outcomes, i, early.value);
        early
      else if outcomes[last].Refused? then
        assert RefusedFirst(outcomes, last, outcomes[last].code);
        Some(outcomes[last].code)
      else None
  }

  datatype Step<S> = Finished(result: Result<ChatResult, LoopError>, world: World<S>)
                   | Continue(pending: Request<S>, world: World<S>)

  /** One turn. */
  function Turn<S>(server: Server<S>, w: World<S>, pending: Request<S>, turn: nat): Step<S> {
    var (chat, after) := Chat(server, w, pending);
    if chat.Err? || chat.value.toolCalls == [] then Finished(chat, after)
    else
      var calls := chat.value.toolCalls;
      var ours := CountOurs(server.deployment, calls);
      if ours == 0 then Finished(chat, after)
      else if ours != |calls| then Finished(Err(DispatchSplit), after)
      else if turn == MAX_DISPATCH_TURNS then Finished(Err(DispatchExhausted), after)
      else Dispatched(server, after, pending, calls)
  }

  function Dispatched<S>(server: Server<S>, w: World<S>, pending: Request<S>, calls: seq<ToolCall>): Step<S>
    requires pending.messages.Arr?
  {
    var (outcomes, trace) := DispatchAll(server.deployment, 1, Arr(CallsJson(calls)), w.trace);
    var after := w.(trace := trace);
    if outcomes.Err? then Finished(Err(BatchRefused(outcomes.error)), after)
    else
      var refused := FirstRefusal(outcomes.value);
      if refused.Some? then Finished(Err(CallRefused(refused.value)), after)
      else Continue(Grown(pending, calls, Outputs(server.deployment, outcomes.value)), after)
  }

  datatype Ending<S> = Ending(result: Result<ChatResult, LoopError>, world: World<S>, last: Request<S>)

  /** Turns until one finishes, at most four. */
  function Loop<S>(turnOf: (World<S>, Request<S>, nat) -> Step<S>, w: World<S>, pending: Request<S>, turn: nat):
    Ending<S>
    requires turn <= MAX_DISPATCH_TURNS + 1
    decreases MAX_DISPATCH_TURNS + 1 - turn
  {
    if turn == MAX_DISPATCH_TURNS + 1 then Ending(Err(DispatchExhausted), w, pending)
    else
      match turnOf(w, pending, turn)
      case Finished(result, world) => Ending(result, world, pending)
      case Continue(next, world) => Loop(turnOf, world, next, turn + 1)
  }

  function TurnsOf<S>(server: Server<S>): (World<S>, Request<S>, nat) -> Step<S> {
    (w, pending, turn: nat) => Turn(server, w, pending, turn)
  }

  /** The tool loop of a request. */
  function Run<S>(server: Server<S>, w: World<S>, request: Request<S>): Ending<S> {
    Loop(TurnsOf(server), w, request, 1)
  }

  // ---- one turn ----------------------------------------------------------------------------------

  /** Printed values are never empty. */
  ghost predicate Lawful<S(!new)>(platform: Platform<S>) {
    forall value :: platform.stringify(value).Some? ==> platform.stringify(value).value != ""
  }

  lemma {:induction false} CountsAll<S>(d: Deployment<S>, calls: seq<ToolCall>)
    ensures CountOurs(d, calls) == |calls| <==> forall i :: 0 <= i < |calls| ==> calls[i].name in d.registry
    ensures CountOurs(d, calls) == 0 <==> forall i :: 0 <= i < |calls| ==> calls[i].name !in d.registry
    decreases |calls|
  {
    if calls != [] {
      CountsAll(d, calls[..|calls| - 1]);
    }
  }

  ghost predicate Mixed<S>(d: Deployment<S>, calls: seq<ToolCall>) {
    && (exists i :: 0 <= i < |calls| && calls[i].name in d.registry)
    && (exists i :: 0 <= i < |calls| && calls[i].name !in d.registry)
  }

  /** A batch with any call of the client's beside one of ours is refused, and nothing of it has been touched. */
  lemma MixedBatchTouchesNothing<S>(server: Server<S>, w: World<S>, pending: Request<S>, turn: nat)
    requires Chat(server, w, pending).0.Ok?
    ensures var calls := Chat(server, w, pending).0.value.toolCalls;
            var step := Turn(server, w, pending, turn);
            && (Mixed(server.deployment, calls) <==> step.Finished? && step.result == Err(DispatchSplit))
            && (Mixed(server.deployment, calls) ==> step.world.trace == w.trace)
  {
    CountsAll(server.deployment, Chat(server, w, pending).0.value.toolCalls);
  }

  lemma ChatCallsAreWellFormed<S>(server: Server<S>, w: World<S>, pending: Request<S>)
    requires Chat(server, w, pending).0.Ok? && Chat(server, w, pending).0.value.toolCalls != []
    ensures WellFormed(server.deployment.platform, Chat(server, w, pending).0.value.toolCalls)
  {
    var json := server.answer(w.asked, pending).toolCalls.value;
    ParsedIsWellFormed(server.deployment.platform, json.items);
  }

  /** The provider was sent `request` after `asked`, and answered with this content and these calls. */
  ghost predicate Answers<S>(server: Server<S>, asked: seq<Request<S>>, request: Request<S>, content: string,
                             calls: seq<ToolCall>)
  {
    match server.answer(asked, request)
    case Failed => false
    case Answer(said, None) => content == said && calls == []
    case Answer(said, Some(json)) =>
      content == said && ParseToolCalls(server.deployment.platform, json) == Some(calls)
  }

  /** `output` is the printed form of what the call's own handler returned for its own arguments. */
  ghost predicate IsResult<S>(d: Deployment<S>, call: ToolCall, before: seq<Trace>, output: string) {
    && IsServed(d, call, before)
    && d.platform.stringify(Returned(d, call, before).value) == Some(output)
  }

  ghost predicate AreResults<S>(d: Deployment<S>, calls: seq<ToolCall>, before: seq<Trace>, outputs: seq<string>) {
    && |outputs| == |calls|
    && forall i :: 0 <= i < |calls| ==> IsResult(d, calls[i], TraceAt(calls, before, i), outputs[i])
  }

  /** The world once `pending` was sent and every call of its answer served. */
  function Later<S>(w: World<S>, pending: Request<S>, calls: seq<ToolCall>): World<S> {
    World(w.asked + [pending], TraceAt(calls, w.trace, |calls|))
  }

  /**
   * What a turn that goes on has done: run each call the provider answered with once, in order,
   * and grown the conversation by the calls and each one's own result.
   */
  ghost predicate Threads<S>(server: Server<S>, w: World<S>, pending: Request<S>, calls: seq<ToolCall>,
                             outputs: seq<string>, next: Request<S>, after: World<S>)
  {
    && pending.messages.Arr? && WellFormed(server.deployment.platform, calls)
    && (exists content :: Answers(server, w.asked, pending, content, calls))
    && AreResults(server.deployment, calls, w.trace, outputs)
    && next == Grown(pending, calls, outputs)
    && after == Later(w, pending, calls)
  }

  lemma ResultsAreSendable<S(!new)>(d: Deployment<S>, calls: seq<ToolCall>, before: seq<Trace>, outputs: seq<string>)
    requires Lawful(d.platform) && AreResults(d, calls, before, outputs)
    ensures forall i :: 0 <= i < |outputs| ==> Sendable(outputs[i])
  {
    forall i | 0 <= i < |outputs| ensures Sendable(outputs[i]) {
      assert IsResult(d, calls[i], TraceAt(calls, before, i), outputs[i]);
    }
  }

  lemma OutputsAreResults<S>(d: Deployment<S>, calls: seq<ToolCall>, before: seq<Trace>, outcomes: seq<Outcome>,
                             after: seq<Trace>)
    requires RanInOrder(d, calls, before, outcomes, after)
    ensures AreResults(d, calls, before, Outputs(d, outcomes))
  {
    forall i | 0 <= i < |calls| ensures IsResult(d, calls[i], TraceAt(calls, before, i), Outputs(d, outcomes)[i]) {
      assert IsServed(d, calls[i], TraceAt(calls, before, i));
      assert outcomes[i] == Done(calls[i].id, calls[i].name, Returned(d, calls[i], TraceAt(calls, before, i)).value);
    }
  }

  /**
   * A batch of the router's own calls is within the dispatcher's bound, so only single calls can be
   * refused. It is dispatched and threads the conversation exactly when every call is served.
   */
  lemma DispatchedThreads<S>(server: Server<S>, w: World<S>, pending: Request<S>, calls: seq<ToolCall>)
    requires WellFormed(server.deployment.platform, calls) && pending.messages.Arr?
    ensures var d, step := server.deployment, Dispatched(server, w, pending, calls);
            && ExtendsAuthorized(d, w.trace, step.world.trace) && step.world.asked == w.asked
            && (step.Continue? <==> AllServed(d, calls, w.trace))
            && (step.Finished? ==> step.result.Err? && step.result.error.CallRefused?)
            && (step.Continue? ==>
                  && step.world.trace == TraceAt(calls, w.trace, |calls|)
                  && exists outputs: seq<string> ::
                       AreResults(d, calls, w.trace, outputs) && step.pending == Grown(pending, calls, outputs))
  {
    var d := server.deployment;
    var (outcomes, trace) := All(d, 1, CallsJson(calls), w.trace);
    OnlyAuthorizedHandlersSeeInput(d, 1, CallsJson(calls), w.trace);
    DispatchedIsAll(server, w, pending, calls);
    DoneMeansRunInOrder(d, 1, calls, w.trace);
    if AllDone(outcomes) {
      OutputsAreResults(d, calls, w.trace, outcomes, trace);
    }
  }

  /** A batch of the router's own calls is never refused whole. */
  lemma DispatchedIsAll<S>(server: Server<S>, w: World<S>, pending: Request<S>, calls: seq<ToolCall>)
    requires WellFormed(server.deployment.platform, calls) && pending.messages.Arr?
    ensures var step := Dispatched(server, w, pending, calls);
            var (outcomes, trace) := All(server.deployment, 1, CallsJson(calls), w.trace);
            && step.world == w.(trace := trace) && (step.Continue? <==> AllDone(outcomes))
            && (step.Finished? ==> step.result.Err? && step.result.error.CallRefused?)
            && (step.Continue? ==> step.pending == Grown(pending, calls, Outputs(server.deployment, outcomes)))
  {
    assert CallsJson(calls) != [];
  }

  /** What the client gets is what the provider answered last, with no call in it that is ours. */
  ghost predicate IsDelivered<S>(server: Server<S>, asked: seq<Request<S>>, request: Request<S>, result: ChatResult) {
    && Answers(server, asked, request, result.content, result.toolCalls)
    && forall i :: 0 <= i < |result.toolCalls| ==> result.toolCalls[i].name !in server.deployment.registry
  }

  /** What every turn keeps to. */
  ghost predicate Keeps<S>(server: Server<S>, w: World<S>, pending: Request<S>, turn: nat, step: Step<S>) {
    && ExtendsAuthorized(server.deployment, w.trace, step.world.trace)
    && (step.world.asked == w.asked || step.world.asked == w.asked + [pending])
    && (step.Finished? && step.result == Err(InvalidRequest) ==>
          ParseRequest(server.deployment.platform, pending).None?)
    && (step.Finished? && step.result == Err(DispatchExhausted) ==>
          turn == MAX_DISPATCH_TURNS && step.world.asked == w.asked + [pending])
    && (step.Finished? && step.result.Ok? ==>
          step.world.asked == w.asked + [pending] && IsDelivered(server, w.asked, pending, step.result.value))
    && (step.Continue? ==>
          && turn != MAX_DISPATCH_TURNS && ParseRequest(server.deployment.platform, pending).Some?
          && exists calls, outputs :: Threads(server, w, pending, calls, outputs, step.pending, step.world))
  }

  lemma ChatKeeps<S>(server: Server<S>, w: World<S>, pending: Request<S>)
    ensures var (chat, after) := Chat(server, w, pending);
            && after.trace == w.trace && (after.asked == w.asked || after.asked == w.asked + [pending])
            && (chat == Err(InvalidRequest) ==> ParseRequest(server.deployment.platform, pending).None?)
            && chat != Err(DispatchExhausted)
            && (chat.Ok? ==>
                  && ParseRequest(server.deployment.platform, pending).Some? && after.asked == w.asked + [pending]
                  && Answers(server, w.asked, pending, chat.value.content, chat.value.toolCalls))
  {
  }

  /** What a turn comes to, by what the provider answers. */
  lemma TurnOutcomes<S>(server: Server<S>, w: World<S>, pending: Request<S>, turn: nat)
    ensures var (chat, after) := Chat(server, w, pending);
            var step := Turn(server, w, pending, turn);
            if chat.Err? then step == Finished(chat, after)
            else
              var calls := chat.value.toolCalls;
              if forall i :: 0 <= i < |calls| ==> calls[i].name !in server.deployment.registry
              then step == Finished(chat, after)
              else if Mixed(server.deployment, calls) then step == Finished(Err(DispatchSplit), after)
              else if turn == MAX_DISPATCH_TURNS then step == Finished(Err(DispatchExhausted), after)
              else calls != [] && pending.messages.Arr? && step == Dispatched(server, after, pending, calls)
  {
    if Chat(server, w, pending).0.Ok? {
      CountsAll(server.deployment, Chat(server, w, pending).0.value.toolCalls);
    }
  }

  lemma DispatchedKeeps<S>(server: Server<S>, w: World<S>, after: World<S>, pending: Request<S>,
                           content: string, calls: seq<ToolCall>, turn: nat)
    requires WellFormed(server.deployment.platform, calls) && pending.messages.Arr?
    requires after.trace == w.trace && after.asked == w.asked + [pending] && turn != MAX_DISPATCH_TURNS
    requires ParseRequest(server.deployment.platform, pending).Some?
    requires Answers(server, w.asked, pending, content, calls)
    ensures Keeps(server, w, pending, turn, Dispatched(server, after, pending, calls))
  {
    DispatchedThreads(server, after, pending, calls);
    var step := Dispatched(server, after, pending, calls);
    if step.Continue? {
      var outputs: seq<string> :| AreResults(server.deployment, calls, w.trace, outputs)
                                  && step.pending == Grown(pending, calls, outputs);
      assert Threads(server, w, pending, calls, outputs, step.pending, step.world);
    }
  }

  /** A turn that goes on has threaded the conversation; any other leaves a trace of authorized handlers only. */
  lemma TurnKeeps<S>(server: Server<S>, w: World<S>, pending: Request<S>, turn: nat)
    ensures Keeps(server, w, pending, turn, Turn(server, w, pending, turn))
  {
    var (chat, after) := Chat(server, w, pending);
    ChatKeeps(server, w, pending);
    TurnOutcomes(server, w, pending, turn);
    if Turn(server, w, pending, turn).Continue? {
      ChatCallsAreWellFormed(server, w, pending);
      DispatchedKeeps(server, w, after, pending, chat.value.content, chat.value.toolCalls, turn);
    } else if chat.Ok? && chat.value.toolCalls != [] {
      ChatCallsAreWellFormed(server, w, pending);
      if turn != MAX_DISPATCH_TURNS && pending.messages.Arr? {
        DispatchedKeeps(server, w, after, pending, chat.value.content, chat.value.toolCalls, turn);
      }
    }
  }

  // ---- the whole loop ------------------------------------------------------------------------------

  /** Too many messages, or too many bytes once validated: nothing else is wrong with a request. */
  ghost predicate OverCaps<S>(platform: Platform<S>, request: Request<S>) {
    && platform.validSettings(request.settings) && request.messages.Arr? && request.messages.items != []
    && var messages := ParseMessageList(platform, request.messages.items);
       && messages.Some? && Justified(messages.value)
       && (|request.messages.items| > MAX_MESSAGES
           || platform.requestBytes(request.settings, messages.value) > MAX_REQUEST_BYTES)
  }

  lemma GrownIsFineOrOverCaps<S>(platform: Platform<S>, request: Request<S>, calls: seq<ToolCall>, outputs: seq<string>)
    requires ParseRequest(platform, request).Some? && WellFormed(platform, calls)
    requires |outputs| == |calls| && forall i :: 0 <= i < |outputs| ==> Sendable(outputs[i])
    ensures var grown := Grown(request, calls, outputs);
            ParseRequest(platform, grown).None? ==> OverCaps(platform, grown)
  {
    ReplayParses(platform, request.messages.items, calls, outputs);
    AcceptedIsJustified(platform, Replay(request.messages.items, calls, outputs));
  }

  ghost predicate AllKeep<S(!new)>(server: Server<S>, turnOf: (World<S>, Request<S>, nat) -> Step<S>) {
    forall w, pending, turn :: Keeps(server, w, pending, turn, turnOf(w, pending, turn))
  }

  ghost predicate Counts<S>(w: World<S>, turn: nat, ending: Ending<S>) {
    && w.asked <= ending.world.asked && |ending.world.asked| + turn <= |w.asked| + MAX_DISPATCH_TURNS + 1
    && (ending.result == Err(DispatchExhausted) ==>
          |ending.world.asked| + turn == |w.asked| + MAX_DISPATCH_TURNS + 1)
  }

  ghost predicate Delivers<S>(server: Server<S>, ending: Ending<S>) {
    ending.result.Ok? ==>
      var n := |ending.world.asked| - 1;
      && n >= 0 && ending.world.asked[n] == ending.last
      && IsDelivered(server, ending.world.asked[..n], ending.last, ending.result.value)
  }

  ghost predicate Refuses<S>(server: Server<S>, pending: Request<S>, ending: Ending<S>) {
    ending.result == Err(InvalidRequest) ==>
      && ParseRequest(server.deployment.platform, ending.last).None?
      && (ending.last == pending || OverCaps(server.deployment.platform, ending.last))
  }

  ghost predicate Bounded<S>(server: Server<S>, w: World<S>, pending: Request<S>, turn: nat, ending: Ending<S>) {
    && Counts(w, turn, ending) && Delivers(server, ending) && Refuses(server, pending, ending)
    && ExtendsAuthorized(server.deployment, w.trace, ending.world.trace)
  }

  lemma RefusesMore<S(!new)>(server: Server<S>, w: World<S>, pending: Request<S>, step: Step<S>, calls: seq<ToolCall>,
                             outputs: seq<string>, ending: Ending<S>)
    requires Lawful(server.deployment.platform) && ParseRequest(server.deployment.platform, pending).Some?
    requires step.Continue? && Threads(server, w, pending, calls, outputs, step.pending, step.world)
    requires Refuses(server, step.pending, ending)
    ensures Refuses(server, pending, ending)
  {
    ResultsAreSendable(server.deployment, calls, w.trace, outputs);
    GrownIsFineOrOverCaps(server.deployment.platform, pending, calls, outputs);
  }

  lemma CountsMore<S>(w: World<S>, next: World<S>, pending: Request<S>, turn: nat, ending: Ending<S>)
    requires next.asked == w.asked + [pending] && Counts(next, turn + 1, ending)
    ensures Counts(w, turn, ending)
  {
  }

  lemma ExtendsMore<S>(d: Deployment<S>, a: seq<Trace>, b: seq<Trace>, c: seq<Trace>)
    requires ExtendsAuthorized(d, a, b) && ExtendsAuthorized(d, b, c)
    ensures ExtendsAuthorized(d, a, c)
  {
  }

  lemma BoundedMore<S(!new)>(server: Server<S>, w: World<S>, pending: Request<S>, turn: nat, step: Step<S>,
                             ending: Ending<S>)
    requires Keeps(server, w, pending, turn, step) && step.Continue?
    requires Bounded(server, step.world, step.pending, turn + 1, ending) && Lawful(server.deployment.platform)
    ensures Bounded(server, w, pending, turn, ending)
  {
    var calls, outputs :| Threads(server, w, pending, calls, outputs, step.pending, step.world);
    RefusesMore(server, w, pending, step, calls, outputs, ending);
    CountsMore(w, step.world, pending, turn, ending);
    ExtendsMore(server.deployment, w.trace, step.world.trace, ending.world.trace);
  }

  lemma BoundedNow<S>(server: Server<S>, w: World<S>, pending: Request<S>, turn: nat, step: Step<S>)
    requires turn <= MAX_DISPATCH_TURNS && Keeps(server, w, pending, turn, step) && step.Finished?
    ensures Bounded(server, w, pending, turn, Ending(step.result, step.world, pending))
  {
    assert (w.asked + [pending])[..|w.asked|] == w.asked;
  }

  lemma LoopIsBounded<S(!new)>(server: Server<S>, turnOf: (World<S>, Request<S>, nat) -> Step<S>,
                               w: World<S>, pending: Request<S>, turn: nat)
    requires turn <= MAX_DISPATCH_TURNS + 1 && AllKeep(server, turnOf) && Lawful(server.deployment.platform)
    ensures Bounded(server, w, pending, turn, Loop(turnOf, w, pending, turn))
  {
    var keeps := (w, p, t: nat, step) => Keeps(server, w, p, t, step);
    var good := (w, p, t: nat, ending) => Bounded(server, w, p, t, ending);
    forall w, p, t: nat, step: Step<S> | t <= MAX_DISPATCH_TURNS && keeps(w, p, t, step) && step.Finished?
      ensures good(w, p, t, Ending(step.result, step.world, p))
    {
      BoundedNow(server, w, p, t, step);
    }
    forall w, p, t: nat, step: Step<S>, u: nat, ending |
      t <= MAX_DISPATCH_TURNS && u == t + 1 && keeps(w, p, t, step) && step.Continue?
      && good(step.world, step.pending, u, ending)
      ensures good(w, p, t, ending)
    {
      BoundedMore(server, w, p, t, step, ending);
    }
    LoopInduction(turnOf, keeps, good, w, pending, turn);
  }

  lemma TurnsKeep<S(!new)>(server: Server<S>)
    ensures AllKeep(server, TurnsOf(server))
  {
    forall w, pending, turn ensures Keeps(server, w, pending, turn, TurnsOf(server)(w, pending, turn)) {
      TurnKeeps(server, w, pending, turn);
    }
  }

  /**
   * A run asks the provider at most four times, and exactly four when it is given up. It gives only
   * authorized handlers anything, hands on only what the provider answered last and with no call
   * of ours in it, and is refused as an invalid request only for what the client sent, or because
   * the conversation it grew has too many messages or bytes, and nothing else wrong with it.
   */
  lemma RunIsBounded<S(!new)>(server: Server<S>, w: World<S>, request: Request<S>)
    requires Lawful(server.deployment.platform)
    ensures var ending := Run(server, w, request);
            var n := |ending.world.asked|;
            && w.asked <= ending.world.asked && n <= |w.asked| + MAX_DISPATCH_TURNS
            && (ending.result == Err(DispatchExhausted) ==> n == |w.asked| + MAX_DISPATCH_TURNS)
            && (ending.result.Ok? ==>
                  && n > 0 && ending.world.asked[n - 1] == ending.last
                  && IsDelivered(server, ending.world.asked[..n - 1], ending.last, ending.result.value))
            && ExtendsAuthorized(server.deployment, w.trace, ending.world.trace)
            && (ending.result == Err(InvalidRequest) ==>
                  || (ending.last == request && ParseRequest(server.deployment.platform, request).None?)
                  || OverCaps(server.deployment.platform, ending.last))
  {
    TurnsKeep(server);
    LoopIsBounded(server, TurnsOf(server), w, request, 1);
  }

  // ---- the conversation ----------------------------------------------------------------------------

  /**
   * The requests of a run from `w` on, each grown out of the one before it by the calls the provider
   * answered that one with and by each call's own result.
   */
  ghost predicate Conversation<S>(server: Server<S>, w: World<S>, first: Request<S>, sent: seq<Request<S>>)
    decreases |sent|
  {
    sent != [] ==>
      && sent[0] == first
      && (|sent| > 1 ==>
            exists calls: seq<ToolCall>, outputs: seq<string> ::
              Threads(server, w, first, calls, outputs, sent[1], Later(w, first, calls))
              && Conversation(server, Later(w, first, calls), sent[1], sent[1..]))
  }

  lemma ConversationGrows<S>(server: Server<S>, w: World<S>, pending: Request<S>, turn: nat, step: Step<S>,
                             sent: seq<Request<S>>)
    requires Keeps(server, w, pending, turn, step) && step.Continue?
    requires Conversation(server, step.world, step.pending, sent)
    ensures Conversation(server, w, pending, [pending] + sent)
  {
    var calls, outputs :| Threads(server, w, pending, calls, outputs, step.pending, step.world);
    var all := [pending] + sent;
    assert all[1..] == sent;
    if sent != [] {
      assert all[1] == step.pending;
    }
  }

  /** A turn that goes on has sent its request; the rest of the loop sends the rest. */
  lemma SentFirst<S>(asked: seq<Request<S>>, before: seq<Request<S>>, pending: Request<S>)
    requires before + [pending] <= asked
    ensures before <= asked && asked[|before|..] == [pending] + asked[|before| + 1..]
  {
  }

  lemma AskedByContinuing<S>(server: Server<S>, w: World<S>, pending: Request<S>, turn: nat, step: Step<S>)
    requires Keeps(server, w, pending, turn, step) && step.Continue?
    ensures step.world.asked == w.asked + [pending]
  {
    var calls, outputs :| Threads(server, w, pending, calls, outputs, step.pending, step.world);
  }

  /** What a step leads to. */
  function Resume<S>(turnOf: (World<S>, Request<S>, nat) -> Step<S>, step: Step<S>, last: Request<S>, turn: nat):
    Ending<S>
    requires turn <= MAX_DISPATCH_TURNS + 1
  {
    match step
    case Finished(result, world) => Ending(result, world, last)
    case Continue(next, world) => Loop(turnOf, world, next, turn)
  }

  lemma LoopOnce<S>(turnOf: (World<S>, Request<S>, nat) -> Step<S>, w: World<S>, pending: Request<S>, turn: nat)
    requires turn <= MAX_DISPATCH_TURNS
    ensures Loop(turnOf, w, pending, turn) == Resume(turnOf, turnOf(w, pending, turn), pending, turn + 1)
  {
  }

  /** Induction over a loop, for any property of turns and of endings. */
  lemma {:induction false} LoopInduction<S(!new)>(
    turnOf: (World<S>, Request<S>, nat) -> Step<S>, keeps: (World<S>, Request<S>, nat, Step<S>) -> bool,
    good: (World<S>, Request<S>, nat, Ending<S>) -> bool, w: World<S>, pending: Request<S>, turn: nat)
    requires turn <= MAX_DISPATCH_TURNS + 1
    requires forall w, p, t: nat :: keeps(w, p, t, turnOf(w, p, t))
    requires forall w, p, t: nat :: t == MAX_DISPATCH_TURNS + 1 ==> good(w, p, t, Ending(Err(DispatchExhausted), w, p))
    requires forall w, p, t: nat, step: Step<S> ::
               t <= MAX_DISPATCH_TURNS && keeps(w, p, t, step) && step.Finished? ==>
                 good(w, p, t, Ending(step.result, step.world, p))
    requires forall w, p, t: nat, step: Step<S>, u: nat, ending ::
               (t <= MAX_DISPATCH_TURNS && u == t + 1 && keeps(w, p, t, step) && step.Continue?
                && good(step.world, step.pending, u, ending)) ==> good(w, p, t, ending)
    ensures good(w, pending, turn, Loop(turnOf, w, pending, turn))
    decreases MAX_DISPATCH_TURNS + 1 - turn
  {
    if turn <= MAX_DISPATCH_TURNS {
      var step := turnOf(w, pending, turn);
      LoopOnce(turnOf, w, pending, turn);
      assert keeps(w, pending, turn, step);
      if step.Continue? {
        LoopInduction(turnOf, keeps, good, step.world, step.pending, turn + 1);
      }
    }
  }

  /** Everything asked from here on is one conversation. */
  ghost predicate Converses<S>(server: Server<S>, w: World<S>, pending: Request<S>, turn: nat, ending: Ending<S>) {
    var asked := ending.world.asked;
    w.asked <= asked && Conversation(server, w, pending, asked[|w.asked|..])
  }

  lemma ConversesNow<S>(server: Server<S>, w: World<S>, pending: Request<S>, turn: nat, ending: Ending<S>)
    requires ending.world.asked == w.asked || ending.world.asked == w.asked + [pending]
    ensures Converses(server, w, pending, turn, ending)
  {
  }

  lemma ConversesMore<S>(server: Server<S>, w: World<S>, pending: Request<S>, turn: nat, step: Step<S>,
                         ending: Ending<S>)
    requires Keeps(server, w, pending, turn, step) && step.Continue?
    requires Converses(server, step.world, step.pending, turn + 1, ending)
    ensures Converses(server, w, pending, turn, ending)
  {
    var asked := ending.world.asked;
    AskedByContinuing(server, w, pending, turn, step);
    SentFirst(asked, w.asked, pending);
    ConversationGrows(server, w, pending, turn, step, asked[|w.asked| + 1..]);
  }

  lemma LoopConverses<S(!new)>(server: Server<S>, turnOf: (World<S>, Request<S>, nat) -> Step<S>,
                               w: World<S>, pending: Request<S>, turn: nat)
    requires turn <= MAX_DISPATCH_TURNS + 1 && AllKeep(server, turnOf)
    ensures Converses(server, w, pending, turn, Loop(turnOf, w, pending, turn))
  {
    var keeps := (w, p, t: nat, step) => Keeps(server, w, p, t, step);
    var good := (w, p, t: nat, ending) => Converses(server, w, p, t, ending);
    forall w, p, t: nat | t == MAX_DISPATCH_TURNS + 1 ensures good(w, p, t, Ending(Err(DispatchExhausted), w, p)) {
      ConversesNow(server, w, p, t, Ending(Err(DispatchExhausted), w, p));
    }
    forall w, p, t: nat, step: Step<S> | t <= MAX_DISPATCH_TURNS && keeps(w, p, t, step) && step.Finished?
      ensures good(w, p, t, Ending(step.result, step.world, p))
    {
      ConversesNow(server, w, p, t, Ending(step.result, step.world, p));
    }
    forall w, p, t: nat, step: Step<S>, u: nat, ending |
      t <= MAX_DISPATCH_TURNS && u == t + 1 && keeps(w, p, t, step) && step.Continue?
      && good(step.world, step.pending, u, ending)
      ensures good(w, p, t, ending)
    {
      ConversesMore(server, w, p, t, step, ending);
    }
    LoopInduction(turnOf, keeps, good, w, pending, turn);
  }

  /**
   * Everything a run sends is the client's request, grown by one batch after the other: the calls
   * are those the provider answered with, and each is answered with its own handler's result.
   */
  lemma EveryRequestGrewOut<S(!new)>(server: Server<S>, w: World<S>, request: Request<S>)
    ensures var asked := Run(server, w, request).world.asked;
            w.asked <= asked && Conversation(server, w, request, asked[|w.asked|..])
  {
    TurnsKeep(server);
    LoopConverses(server, TurnsOf(server), w, request, 1);
  }

  // ---- the server ----------------------------------------------------------------------------------

  class ToolServer<!S> {
    const server: Server<S>
    const dispatcher: Dispatcher<S>
    var asked: seq<Request<S>>

    ghost predicate Valid()
      reads this
    {
      dispatcher.deployment == server.deployment
    }

    ghost function State(): World<S>
      reads this, dispatcher
    {
      World(asked, dispatcher.trace)
    }

    constructor (server: Server<S>)
      ensures Valid() && this.server == server && fresh(dispatcher) && State() == World([], [])
    {
      this.server := server;
      dispatcher := new Dispatcher(server.deployment);
      asked := [];
    }

    method AskRouter(request: Request<S>) returns (r: Result<ChatResult, LoopError>)
      requires Valid()
      modifies this`asked
      ensures (r, State()) == Chat(server, old(State()), request)
    {
      var parsed := ParseRequest(server.deployment.platform, request);
      if parsed.None? {
        return Err(InvalidRequest);
      }
      var reply := server.answer(asked, request);
      asked := asked + [request];
      if reply.Failed? {
        return Err(UpstreamFailed);
      }
      if reply.toolCalls.None? {
        return Ok(ChatResult(reply.content, []));
      }
      var calls := ReadToolCalls(server.deployment.platform, reply.toolCalls.value);
      if calls.None? {
        return Err(InvalidResponse);
      }
      return Ok(ChatResult(reply.content, calls.value));
    }

    /** One turn, on the state. */
    method TakeTurn(pending: Request<S>, turn: nat) returns (step: Step<S>)
      requires Valid()
      modifies this`asked, dispatcher
      ensures step == Turn(server, old(State()), pending, turn) && step.world == State()
    {
      var result := AskRouter(pending);
      if result.Err? || result.value.toolCalls == [] {
        return Finished(result, World(asked, dispatcher.trace));
      }
      var calls := result.value.toolCalls;
      var dispatchable := CountOurs(server.deployment, calls);
      if dispatchable == 0 {
        return Finished(result, World(asked, dispatcher.trace));
      }
      if dispatchable != |calls| {
        return Finished(Err(DispatchSplit), World(asked, dispatcher.trace));
      }
      if turn == MAX_DISPATCH_TURNS {
        return Finished(Err(DispatchExhausted), World(asked, dispatcher.trace));
      }
      step := Serve(pending, calls);
    }

    method Serve(pending: Request<S>, calls: seq<ToolCall>) returns (step: Step<S>)
      requires Valid() && pending.messages.Arr?
      modifies dispatcher
      ensures step == Dispatched(server, old(State()), pending, calls) && step.world == State()
    {
      var outcomes := dispatcher.DispatchToolCalls(Arr(CallsJson(calls)), 1);
      if outcomes.Err? {
        return Finished(Err(BatchRefused(outcomes.error)), World(asked, dispatcher.trace));
      }
      var refused := FirstRefusal(outcomes.value);
      if refused.Some? {
        return Finished(Err(CallRefused(refused.value)), World(asked, dispatcher.trace));
      }
      var outputs := Outputs(server.deployment, outcomes.value);
      return Continue(Grown(pending, calls, outputs), World(asked, dispatcher.trace));
    }

    method RunToolLoop(request: Request<S>) returns (r: Result<ChatResult, LoopError>)
      requires Valid()
      modifies this`asked, dispatcher
      ensures var ending := Run(server, old(State()), request);
              r == ending.result && State() == ending.world
    {
      r := TakeTurns(request, 1);
    }

    /** The loop over the turns from `first` on. */
    method TakeTurns(request: Request<S>, first: nat) returns (r: Result<ChatResult, LoopError>)
      requires Valid() && first <= MAX_DISPATCH_TURNS
      modifies this`asked, dispatcher
      ensures var ending := Loop(TurnsOf(server), old(State()), request, first);
              r == ending.result && State() == ending.world
    {
      var pending := request;
      var step: Step<S> := Continue(request, World(asked, dispatcher.trace));
      var turn := first;
      ghost var turnOf := TurnsOf(server);
      while turn <= MAX_DISPATCH_TURNS && step.Continue?
        invariant turn <= MAX_DISPATCH_TURNS + 1 && step.world == State()
        invariant step.Continue? ==> step.pending == pending
        invariant Resume(turnOf, step, pending, turn) == Loop(turnOf, old(State()), request, first)
      {
        LoopOnce(turnOf, State(), pending, turn);
        step := TakeTurn(pending, turn);
        turn := turn + 1;
        if step.Continue? {
          pending := step.pending;
        }
      }
      r := if step.Finished? then step.result else Err(DispatchExhausted);
    }
  }
}
