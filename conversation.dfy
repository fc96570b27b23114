/**
 The conversation loop of `AIAgent`: the message history it keeps, one call
 of `chat`, and the inference client it talks to.

 The client is a `ScriptedClient` that answers each request with the next
 outcome of a script (a reply, or an exception it raises) and records the
 requests it received; once the script is used up it raises. `Turn` is the
 specification of one call of `chat` on such a script, and `Agent.Chat` is
 proved to follow it; the lemmas about `Turn` state what the loop promises.
 */
module Conversation {
  import opened Wrappers
  import opened Files
  import opened Tools
  import opened Declarations

  /** One requested call: `{"id": ..., "function": {"name": ..., "arguments": ...}}`.
      A missing id or name is `None`. */
  datatype ToolCall = ToolCall(id: Option<string>, name: Option<string>, arguments: map<string, string>)

  /** The `message` of a response; a missing `content` or `tool_calls` is `None`. */
  datatype Reply = Reply(content: Option<string>, toolCalls: Option<seq<ToolCall>>)

  /** What the client does with one request: reply, or raise an exception
      whose `str` is `error`. */
  datatype Outcome = Replied(reply: Reply) | Raised(error: string)

  /** A history entry, by role. */
  datatype Message =
    | User(content: string)
    | Assistant(content: string, toolCalls: seq<ToolCall>)
    | ToolResult(content: string, toolCallId: string)
    | System(content: string)

  /** The arguments of one `client.chat` call. */
  datatype Request = Request(model: string, messages: seq<Message>, tools: seq<OllamaTool>)

  /** What every request of a turn carries besides the history: the model
      name, the system instruction placed in front of the history, and the
      offered tools. */
  datatype Settings = Settings(model: string, instruction: string, offered: seq<OllamaTool>)

  /** The system instruction `chat` sends in front of the history. */
  const SystemInstruction: string := "You are a helpful coding assistant operating in a terminal environment. Output only plain text without markdown formatting, as your responses appear directly in the terminal. Be concise but thorough, providing clear and practical advice with a friendly tone. Don't use any asterisk characters in your responses."

  /** What the scripted client raises once its script is used up. */
  const Exhausted: string := "no scripted reply left"

  /** `message.get("content", "")`. */
  function ContentOf(r: Reply): string {
    match r.content
    case None => ""
    case Some(c) => c
  }

  /** `message.get("tool_calls", [])`. */
  function CallsOf(r: Reply): seq<ToolCall> {
    match r.toolCalls
    case None => []
    case Some(calls) => calls
  }

  /** `tool_call.get("id", "")`. */
  function IdOf(c: ToolCall): string {
    match c.id
    case None => ""
    case Some(i) => i
  }

  /** The outcome the client gives for the next request. */
  function Next(script: seq<Outcome>): Outcome {
    if script == [] then Raised(Exhausted) else script[0]
  }

  /** The script left after one request. */
  function Rest(script: seq<Outcome>): (r: seq<Outcome>)
    ensures script == [] ==> r == []
    ensures script != [] ==> script == [script[0]] + r
  {
    if script == [] then [] else script[1..]
  }

  /** The inference client, as a script of outcomes. */
  class ScriptedClient {
    var script: seq<Outcome>
    var requests: seq<Request>

    constructor(script: seq<Outcome>)
      ensures this.script == script && requests == []
    {
      this.script := script;
      requests := [];
    }

    /** `client.chat(model=..., messages=..., tools=...)`. */
    method Chat(request: Request) returns (outcome: Outcome)
      modifies this
      ensures requests == old(requests) + [request]
      ensures outcome == Next(old(script)) && script == Rest(old(script))
    {
      requests := requests + [request];
      outcome := Next(script);
      script := Rest(script);
    }
  }

  // ---------------------------------------------------------------------
  // The specification of one turn

  /** The tool messages of a batch of calls and the filesystem after them. */
  datatype Batch = Batch(results: seq<Message>, fs: FileSystem)

  /** Running `calls` one after another, each on the filesystem the previous
      one left, as the `for tool_call in tool_calls` loop does: one tool
      message per call, in order, each answering its call by the call's id. */
  ghost function RunCalls(fs: FileSystem, calls: seq<ToolCall>): (r: Batch)
    ensures |r.results| == |calls|
    ensures forall k :: 0 <= k < |calls| ==>
      r.results[k].ToolResult? && r.results[k].toolCallId == IdOf(calls[k])
    decreases |calls|
  {
    if calls == [] then Batch([], fs)
    else
      var front := calls[..|calls| - 1];
      var before := RunCalls(fs, front);
      var call := calls[|calls| - 1];
      var e := Exec(before.fs, call.name, call.arguments);
      assert forall k :: 0 <= k < |front| ==> front[k] == calls[k];
      Batch(before.results + [ToolResult(e.output, IdOf(call))], e.fs)
  }

  /** The `for tool_call in tool_calls` loop of `chat`: runs each call in
      order, collecting one tool message per call. */
  method RunToolCalls(fs: FileSystem, calls: seq<ToolCall>) returns (results: seq<Message>, fs': FileSystem)
    ensures Batch(results, fs') == RunCalls(fs, calls)
  {
    fs' := fs;
    results := [];
    for i := 0 to |calls|
      invariant RunCalls(fs, calls[..i]) == Batch(results, fs')
    {
      var call := calls[i];
      var output, after := ExecuteTool(fs', call.name, call.arguments);
      assert calls[..i + 1][..i] == calls[..i];
      results := results + [ToolResult(output, IdOf(call))];
      fs' := after;
    }
    assert calls[..|calls|] == calls;
  }

  /** What one call of `chat` returns and leaves behind. */
  datatype TurnResult = TurnResult(
    answer: string, history: seq<Message>, fs: FileSystem, script: seq<Outcome>, requests: seq<Request>)

  /** The `while True` loop of `chat`, from a history that already ends with
      the user's message: send the history behind the system instruction,
      record the reply, run its tool calls and go round again, until a reply
      has no tool calls or the client raises. */
  ghost function Turn(cfg: Settings, fs: FileSystem,
                      history: seq<Message>, script: seq<Outcome>): (r: TurnResult)
    ensures 1 <= |r.requests| <= |script| + 1
    ensures r.requests[0] == Request(cfg.model, [System(cfg.instruction)] + history, cfg.offered)
    decreases |script|
  {
    var request := Request(cfg.model, [System(cfg.instruction)] + history, cfg.offered);
    match Next(script)
    case Raised(e) => TurnResult("Error: " + e, history, fs, Rest(script), [request])
    case Replied(reply) =>
      var calls := CallsOf(reply);
      var recorded := history + [Assistant(ContentOf(reply), calls)];
      if calls == [] then TurnResult(ContentOf(reply), recorded, fs, Rest(script), [request])
      else
        var batch := RunCalls(fs, calls);
        var rest := Turn(cfg, batch.fs, recorded + batch.results, Rest(script));
        rest.(requests := [request] + rest.requests)
  }

  /** One round of `Turn` with tool calls: the request, then the rest of the
      turn from the history with the round added. */
  lemma TurnStep(cfg: Settings, fs: FileSystem,
                 history: seq<Message>, script: seq<Outcome>, reply: Reply)
    requires Next(script) == Replied(reply) && CallsOf(reply) != []
    ensures var batch := RunCalls(fs, CallsOf(reply));
      var rest := Turn(cfg, batch.fs,
                       history + [Assistant(ContentOf(reply), CallsOf(reply))] + batch.results, Rest(script));
      Turn(cfg, fs, history, script) ==
        rest.(requests := [Request(cfg.model, [System(cfg.instruction)] + history, cfg.offered)] + rest.requests)
  {
  }

  /** A turn whose next outcome is an exception ends with it. */
  lemma TurnRaised(cfg: Settings, fs: FileSystem, history: seq<Message>, script: seq<Outcome>, e: string)
    requires Next(script) == Raised(e)
    ensures Turn(cfg, fs, history, script) ==
      TurnResult("Error: " + e, history, fs, Rest(script), [Request(cfg.model, [System(cfg.instruction)] + history, cfg.offered)])
  {
  }

  /** A turn whose next reply has no tool calls ends with its content. */
  lemma TurnAnswered(cfg: Settings, fs: FileSystem, history: seq<Message>, script: seq<Outcome>, reply: Reply)
    requires Next(script) == Replied(reply) && CallsOf(reply) == []
    ensures Turn(cfg, fs, history, script) ==
      TurnResult(ContentOf(reply), history + [Assistant(ContentOf(reply), [])], fs, Rest(script),
                 [Request(cfg.model, [System(cfg.instruction)] + history, cfg.offered)])
  {
  }

  /** The loop's view of a round with tool calls: if `goal` is what is left
      of the turn after the requests `earlier`, it is still that after one
      more request, once the round is recorded and the calls have run. */
  lemma TurnContinues(cfg: Settings, fs: FileSystem, history: seq<Message>, script: seq<Outcome>,
                      reply: Reply, results: seq<Message>, after: FileSystem,
                      goal: TurnResult, earlier: seq<Request>)
    requires Next(script) == Replied(reply) && CallsOf(reply) != []
    requires Batch(results, after) == RunCalls(fs, CallsOf(reply))
    requires var now := Turn(cfg, fs, history, script);
      goal == now.(requests := earlier + now.requests)
    ensures var now := Turn(cfg, after, history + [Assistant(ContentOf(reply), CallsOf(reply))] + results, Rest(script));
      goal == now.(requests := earlier + [Request(cfg.model, [System(cfg.instruction)] + history, cfg.offered)] + now.requests)
  {
    TurnStep(cfg, fs, history, script, reply);
    var request := Request(cfg.model, [System(cfg.instruction)] + history, cfg.offered);
    var now := Turn(cfg, after, history + [Assistant(ContentOf(reply), CallsOf(reply))] + results, Rest(script));
    assert earlier + ([request] + now.requests) == earlier + [request] + now.requests;
  }

  // ---------------------------------------------------------------------
  // The agent

  class Agent {
    var model: string
    var messages: seq<Message>
    var tools: seq<Tool>
    var fs: FileSystem
    const client: ScriptedClient
    /** The system instruction `chat` sends in front of the history. */
    const instruction: string

    /** `AIAgent.__init__`: an empty history and the three tools. */
    constructor(model: string, fs: FileSystem, client: ScriptedClient)
      ensures this.model == model && this.fs == fs && this.client == client
      ensures messages == [] && tools == Declarations.SetupTools()
      ensures instruction == SystemInstruction
    {
      this.model := model;
      this.fs := fs;
      this.client := client;
      instruction := SystemInstruction;
      messages := [];
      tools := [];
      new;
      SetupTools();
    }

    /** `_setup_tools`: installs the tool table. */
    method SetupTools()
      modifies this
      ensures tools == Declarations.SetupTools()
      ensures model == old(model) && messages == old(messages) && fs == old(fs)
    {
      tools := Declarations.SetupTools();
    }

    /** `chat(user_input)`. */
    method Chat(userInput: string) returns (answer: string)
      modifies this, client
      ensures var t := Turn(Settings(model, instruction, ToOllama(tools)), old(fs), old(messages) + [User(userInput)], old(client.script));
        && answer == t.answer && messages == t.history && fs == t.fs
        && client.script == t.script && client.requests == old(client.requests) + t.requests
      ensures model == old(model) && tools == old(tools)
      ensures old(messages) + [User(userInput)] <= messages
      ensures RoundsFrom(messages, |old(messages)| + 1)
    {
      messages := messages + [User(userInput)];
      var cfg := Settings(model, instruction, ToOllama(tools));
      ghost var goal := Turn(cfg, fs, messages, client.script);
      TurnRounds(cfg, fs, messages, client.script);
      ghost var sent: seq<Request> := [];
      while true
        invariant model == old(model) && tools == old(tools) && cfg == Settings(model, instruction, ToOllama(tools))
        invariant client.requests == old(client.requests) + sent
        invariant var now := Turn(cfg, fs, messages, client.script);
          goal == now.(requests := sent + now.requests)
        invariant old(messages) + [User(userInput)] <= goal.history
        invariant RoundsFrom(goal.history, |old(messages)| + 1)
        decreases |client.script|
      {
        ghost var history, script, earlier := messages, client.script, sent;
        var request := Request(cfg.model, [System(cfg.instruction)] + messages, cfg.offered);
        var outcome := client.Chat(request);
        Associative(old(client.requests), sent, [request]);
        sent := sent + [request];
        match outcome {
          case Raised(e) =>
            TurnRaised(cfg, fs, history, script, e);
            return "Error: " + e;
          case Replied(reply) =>
            var calls := CallsOf(reply);
            messages := messages + [Assistant(ContentOf(reply), calls)];
            if calls == [] {
              TurnAnswered(cfg, fs, history, script, reply);
              return ContentOf(reply);
            }
            var results, after := RunToolCalls(fs, calls);
            TurnContinues(cfg, fs, history, script, reply, results, after, goal, earlier);
            messages := messages + results;
            fs := after;
        }
      }
    }
  }

  lemma Associative<T>(a: seq<T>, b: seq<T>, c: seq<T>)
    ensures a + b + c == a + (b + c)
  {
  }

  // ---------------------------------------------------------------------
  // What the loop promises

  /** The `k`-th tool message of running `calls` answers the `k`-th call
      with the result of running it after the calls before it. */
  ghost predicate ResultAt(fs: FileSystem, calls: seq<ToolCall>, k: int)
    requires 0 <= k < |calls|
  {
    RunCalls(fs, calls).results[k] ==
      ToolResult(Exec(RunCalls(fs, calls[..k]).fs, calls[k].name, calls[k].arguments).output, IdOf(calls[k]))
  }

  /** Every tool message answers its call, in order, with the result of
      running it after the calls before it. */
  lemma {:induction false} RunCallsShape(fs: FileSystem, calls: seq<ToolCall>)
    ensures |RunCalls(fs, calls).results| == |calls|
    ensures forall k :: 0 <= k < |calls| ==> ResultAt(fs, calls, k)
    decreases |calls|
  {
    if calls != [] {
      var front := calls[..|calls| - 1];
      RunCallsShape(fs, front);
      forall k | 0 <= k < |calls| ensures ResultAt(fs, calls, k) {
        if k < |front| {
          ResultAtFront(fs, calls, k);
        } else {
          ResultAtLast(fs, calls);
        }
      }
    }
  }

  /** Running one more call leaves the earlier tool messages as they were. */
  lemma ResultAtFront(fs: FileSystem, calls: seq<ToolCall>, k: int)
    requires 0 <= k < |calls| - 1 && ResultAt(fs, calls[..|calls| - 1], k)
    ensures ResultAt(fs, calls, k)
  {
    var front := calls[..|calls| - 1];
    assert front[..k] == calls[..k];
    assert front[k] == calls[k];
    assert RunCalls(fs, calls).results[k] == RunCalls(fs, front).results[k];
  }

  /** The last tool message answers the last call, run after the others. */
  lemma ResultAtLast(fs: FileSystem, calls: seq<ToolCall>)
    requires calls != []
    ensures ResultAt(fs, calls, |calls| - 1)
  {
  }

  /** From index `i` on, the history the loop keeps is a sequence of rounds:
      an assistant message with its tool calls, followed by one tool message
      per call, in the same order, with the call's id; a reply without calls
      ends it. */
  ghost predicate RoundsFrom(ms: seq<Message>, i: nat)
    decreases |ms| - i
  {
    if i >= |ms| then true
    else
      && ms[i].Assistant?
      && var calls := ms[i].toolCalls;
      if calls == [] then i + 1 == |ms|
      else Answers(ms, i, calls) && RoundsFrom(ms, i + 1 + |calls|)
  }

  /** The messages after index `i` answer `calls`: one tool message per
      call, in the same order, with the call's id. */
  ghost predicate Answers(ms: seq<Message>, i: nat, calls: seq<ToolCall>) {
    i + |calls| < |ms| && Replies(ms[i + 1 .. i + 1 + |calls|], calls)
  }

  /** `results` answer `calls`: one tool message per call, in the same
      order, with the call's id. */
  ghost predicate Replies(results: seq<Message>, calls: seq<ToolCall>) {
    && |results| == |calls|
    && forall k :: 0 <= k < |calls| ==> results[k].ToolResult? && results[k].toolCallId == IdOf(calls[k])
  }

  /** A round with tool calls at the end of `history`, followed by rounds. */
  lemma RoundsStep(ms: seq<Message>, history: seq<Message>, a: Message, results: seq<Message>)
    requires a.Assistant? && a.toolCalls != [] && Replies(results, a.toolCalls)
    requires history + [a] + results <= ms
    requires RoundsFrom(ms, |history| + 1 + |results|)
    ensures history <= ms
    ensures RoundsFrom(ms, |history|)
  {
    var i := |history|;
    var next := history + [a] + results;
    var front := ms[..|next|];
    assert front == next;
    assert ms[i] == a by {
      assert front[i] == ms[i] && next[i] == a;
    }
    assert ms[i + 1 .. i + 1 + |results|] == results by {
      assert front[i + 1 ..] == ms[i + 1 .. i + 1 + |results|] && next[i + 1 ..] == results;
    }
    assert history == ms[..i] by {
      assert front[..i] == ms[..i] && next[..i] == history;
    }
    RoundAt(ms, i, a, results);
  }

  /** A round with tool calls at index `i`, followed by rounds. */
  lemma RoundAt(ms: seq<Message>, i: nat, a: Message, results: seq<Message>)
    requires a.Assistant? && a.toolCalls != [] && Replies(results, a.toolCalls)
    requires i + |results| < |ms| && ms[i] == a && ms[i + 1 .. i + 1 + |results|] == results
    requires RoundsFrom(ms, i + 1 + |results|)
    ensures RoundsFrom(ms, i)
  {
  }

  /** A turn keeps the history it started from and adds a sequence of
      rounds to it. */
  lemma {:induction false} TurnRounds(cfg: Settings, fs: FileSystem,
                                      history: seq<Message>, script: seq<Outcome>)
    ensures history <= Turn(cfg, fs, history, script).history
    ensures RoundsFrom(Turn(cfg, fs, history, script).history, |history|)
    decreases |script|
  {
    match Next(script)
    case Raised(e) =>
      TurnRaised(cfg, fs, history, script, e);
    case Replied(reply) =>
      var calls := CallsOf(reply);
      var a := Assistant(ContentOf(reply), calls);
      if calls == [] {
        TurnAnswered(cfg, fs, history, script, reply);
        assert (history + [a])[|history|] == a;
      } else {
        var batch := RunCalls(fs, calls);
        var next := history + [a] + batch.results;
        var rest := Turn(cfg, batch.fs, next, Rest(script));
        TurnStep(cfg, fs, history, script, reply);
        TurnRounds(cfg, batch.fs, next, Rest(script));
        RoundOfCalls(rest.history, history, ContentOf(reply), fs, calls);
      }
  }

  /** The round a reply with tool calls adds, followed by rounds. */
  lemma RoundOfCalls(ms: seq<Message>, history: seq<Message>, content: string,
                     fs: FileSystem, calls: seq<ToolCall>)
    requires calls != []
    requires history + [Assistant(content, calls)] + RunCalls(fs, calls).results <= ms
    requires RoundsFrom(ms, |history| + 1 + |RunCalls(fs, calls).results|)
    ensures history <= ms
    ensures RoundsFrom(ms, |history|)
  {
    RoundsStep(ms, history, Assistant(content, calls), RunCalls(fs, calls).results);
  }

  /** A request with the settings `cfg` that sends the system instruction
      followed by a history between `lo` and `hi`. */
  ghost predicate Carries(r: Request, cfg: Settings, lo: seq<Message>, hi: seq<Message>) {
    && r.model == cfg.model && r.tools == cfg.offered
    && |r.messages| >= 1 && r.messages[0] == System(cfg.instruction)
    && lo <= r.messages[1..] <= hi
  }

  /** Every request carries the model, the offered tools, and the system
      instruction followed by a history between the one the turn started
      from and the final one. */
  lemma {:induction false} TurnRequests(cfg: Settings, fs: FileSystem,
                                        history: seq<Message>, script: seq<Outcome>)
    ensures var t := Turn(cfg, fs, history, script);
      forall i :: 0 <= i < |t.requests| ==> Carries(t.requests[i], cfg, history, t.history)
    decreases |script|
  {
    var t := Turn(cfg, fs, history, script);
    var request := Request(cfg.model, [System(cfg.instruction)] + history, cfg.offered);
    assert request.messages[1..] == history;
    match Next(script)
    case Raised(e) =>
    case Replied(reply) =>
      var calls := CallsOf(reply);
      if calls != [] {
        var batch := RunCalls(fs, calls);
        var next := history + [Assistant(ContentOf(reply), calls)] + batch.results;
        TurnStep(cfg, fs, history, script, reply);
        TurnRequests(cfg, batch.fs, next, Rest(script));
        var rest := Turn(cfg, batch.fs, next, Rest(script));
        assert t.requests == [request] + rest.requests && t.history == rest.history;
        forall i | 0 <= i < |t.requests| ensures Carries(t.requests[i], cfg, history, t.history) {
          if i > 0 {
            assert t.requests[i] == rest.requests[i - 1];
            assert Carries(rest.requests[i - 1], cfg, next, rest.history);
            assert history <= next;
          }
        }
      }
  }

  /** `h'` is `h` followed by one round with tool calls: the assistant
      message asking for them and, per call in order, a tool message
      carrying that call's id. */
  ghost predicate NextRound(h: seq<Message>, h': seq<Message>) {
    && |h| < |h'| && h'[..|h|] == h
    && h'[|h|].Assistant? && h'[|h|].toolCalls != []
    && |h'| == |h| + 1 + |h'[|h|].toolCalls|
    && Replies(h'[|h| + 1..], h'[|h|].toolCalls)
  }

  /** The history request `i + 1` sends is that of request `i` followed by
      one round with tool calls. */
  ghost predicate RoundApart(rs: seq<Request>, i: int)
    requires 0 <= i < |rs| - 1
  {
    |rs[i].messages| >= 1 && |rs[i + 1].messages| >= 1 &&
    NextRound(rs[i].messages[1..], rs[i + 1].messages[1..])
  }

  /** Each request sends the whole history so far: the history of each
      request is that of the one before followed by exactly one round with
      tool calls. */
  lemma {:induction false} TurnRequestsSuccessive(cfg: Settings, fs: FileSystem,
                                                  history: seq<Message>, script: seq<Outcome>)
    ensures var rs := Turn(cfg, fs, history, script).requests;
      forall i :: 0 <= i < |rs| - 1 ==> RoundApart(rs, i)
    decreases |script|
  {
    match Next(script)
    case Raised(e) =>
      TurnRaised(cfg, fs, history, script, e);
    case Replied(reply) =>
      var calls := CallsOf(reply);
      if calls == [] {
        TurnAnswered(cfg, fs, history, script, reply);
      } else {
        var request := Request(cfg.model, [System(cfg.instruction)] + history, cfg.offered);
        var batch := RunCalls(fs, calls);
        var next := history + [Assistant(ContentOf(reply), calls)] + batch.results;
        TurnStep(cfg, fs, history, script, reply);
        TurnRequestsSuccessive(cfg, batch.fs, next, Rest(script));
        var rest := Turn(cfg, batch.fs, next, Rest(script));
        assert request.messages[1..] == history;
        FirstRound(history, ContentOf(reply), calls, batch.results);
        RoundApartCons(request, rest.requests);
      }
  }

  /** The final history of `t` is the one its last request sent, with at
      most one message added. */
  ghost predicate LastSent(t: TurnResult) {
    && |t.requests| >= 1
    && var last := t.requests[|t.requests| - 1].messages;
      |last| >= 1 && last[1..] <= t.history && |t.history| <= |last|
  }

  /** The final history is the one the last request sent, with the last
      reply added when there was one. */
  lemma {:induction false} TurnLastRequest(cfg: Settings, fs: FileSystem,
                                           history: seq<Message>, script: seq<Outcome>)
    ensures LastSent(Turn(cfg, fs, history, script))
    decreases |script|
  {
    var request := Request(cfg.model, [System(cfg.instruction)] + history, cfg.offered);
    match Next(script)
    case Raised(e) =>
      TurnRaised(cfg, fs, history, script, e);
      LastSentOne(Turn(cfg, fs, history, script), request, history, history);
    case Replied(reply) =>
      var calls := CallsOf(reply);
      if calls == [] {
        TurnAnswered(cfg, fs, history, script, reply);
        LastSentOne(Turn(cfg, fs, history, script), request, history,
                    history + [Assistant(ContentOf(reply), [])]);
      } else {
        var batch := RunCalls(fs, calls);
        var next := history + [Assistant(ContentOf(reply), calls)] + batch.results;
        TurnStep(cfg, fs, history, script, reply);
        TurnLastRequest(cfg, batch.fs, next, Rest(script));
        LastSentCons(Turn(cfg, fs, history, script), Turn(cfg, batch.fs, next, Rest(script)), request);
      }
  }

  /** A turn that sent one request and kept its history, with at most one
      message added. */
  lemma LastSentOne(t: TurnResult, request: Request, history: seq<Message>, final: seq<Message>)
    requires |request.messages| >= 1 && request.messages[1..] == history
    requires t.requests == [request] && t.history == final
    requires history <= final && |final| <= |history| + 1
    ensures LastSent(t)
  {
  }

  /** A request sent before the requests of a turn. */
  lemma LastSentCons(t: TurnResult, rest: TurnResult, request: Request)
    requires LastSent(rest) && t == rest.(requests := [request] + rest.requests)
    ensures LastSent(t)
  {
    assert t.requests[|t.requests| - 1] == rest.requests[|rest.requests| - 1];
  }

  /** A request one round before the first of a sequence of requests each
      one round apart. */
  lemma RoundApartCons(r: Request, rs: seq<Request>)
    requires rs != [] && |r.messages| >= 1 && |rs[0].messages| >= 1
    requires NextRound(r.messages[1..], rs[0].messages[1..])
    requires forall i :: 0 <= i < |rs| - 1 ==> RoundApart(rs, i)
    ensures forall i :: 0 <= i < |[r] + rs| - 1 ==> RoundApart([r] + rs, i)
  {
    var all := [r] + rs;
    forall i | 0 <= i < |all| - 1 ensures RoundApart(all, i) {
      if i > 0 {
        assert RoundApart(rs, i - 1);
        assert all[i] == rs[i - 1] && all[i + 1] == rs[i];
      }
    }
  }

  /** The history with one round of tool calls added is its next round. */
  lemma FirstRound(history: seq<Message>, content: string, calls: seq<ToolCall>, results: seq<Message>)
    requires calls != [] && Replies(results, calls)
    ensures NextRound(history, history + [Assistant(content, calls)] + results)
  {
    var next := history + [Assistant(content, calls)] + results;
    assert next[..|history|] == history;
    assert next[|history|] == Assistant(content, calls);
    assert next[|history| + 1..] == results;
  }

  /** How a turn that made the requests of `t` ends on `script`. Each
      request consumes one scripted outcome; every outcome before the last
      was a reply with tool calls. If the last one is a reply, it
      had no tool calls, its content is the answer and it is the last message
      of the history; if it is an exception, the answer is `"Error: "` and its
      message, as it is when the script runs out. */
  ghost predicate EndsAsScripted(t: TurnResult, script: seq<Outcome>) {
    var n := |t.requests|;
    && 1 <= n <= |script| + 1
    && (forall k :: 0 <= k < n - 1 ==> script[k].Replied? && CallsOf(script[k].reply) != [])
    && (n <= |script| ==> t.script == script[n..])
    && (n > |script| ==> n == |script| + 1 && t.script == [] && t.answer == "Error: " + Exhausted)
    && (n <= |script| && script[n - 1].Raised? ==> t.answer == "Error: " + script[n - 1].error)
    && (n <= |script| && script[n - 1].Replied? ==>
          var r := script[n - 1].reply;
          && CallsOf(r) == []
          && t.answer == ContentOf(r)
          && |t.history| >= 1
          && t.history[|t.history| - 1] == Assistant(ContentOf(r), []))
  }

  /** A turn ends as its script says. */
  lemma {:induction false} TurnEnds(cfg: Settings, fs: FileSystem,
                                    history: seq<Message>, script: seq<Outcome>)
    ensures EndsAsScripted(Turn(cfg, fs, history, script), script)
    decreases |script|
  {
    match Next(script)
    case Raised(e) =>
      TurnRaised(cfg, fs, history, script, e);
    case Replied(reply) =>
      var calls := CallsOf(reply);
      if calls == [] {
        TurnAnswered(cfg, fs, history, script, reply);
      } else {
        var batch := RunCalls(fs, calls);
        var rest := Turn(cfg, batch.fs, history + [Assistant(ContentOf(reply), calls)] + batch.results, Rest(script));
        TurnStep(cfg, fs, history, script, reply);
        TurnEnds(cfg, batch.fs, history + [Assistant(ContentOf(reply), calls)] + batch.results, Rest(script));
        assert script != [] && script[0] == Replied(reply);
        EndsShift(rest, script, Request(cfg.model, [System(cfg.instruction)] + history, cfg.offered));
      }
  }

  /** A round with tool calls consumes the first outcome; the rest of the
      turn ends as the rest of the script says. */
  lemma EndsShift(rest: TurnResult, script: seq<Outcome>, request: Request)
    requires script != [] && script[0].Replied? && CallsOf(script[0].reply) != []
    requires EndsAsScripted(rest, script[1..])
    ensures EndsAsScripted(rest.(requests := [request] + rest.requests), script)
  {
    var n := |rest.requests|;
    forall k | 1 <= k < n ensures script[k] == script[1..][k - 1] {
    }
    if n <= |script[1..]| {
      assert script[1..][n - 1] == script[n];
      assert script[1..][n..] == script[n + 1..];
    }
  }

  /** Tool calls leave a well-formed tree well-formed, and a turn whose
      replies have no tool calls leaves the filesystem as it was. */
  lemma {:induction false} RunCallsValid(fs: FileSystem, calls: seq<ToolCall>)
    requires Valid(fs)
    ensures Valid(RunCalls(fs, calls).fs)
    decreases |calls|
  {
    if calls != [] {
      RunCallsValid(fs, calls[..|calls| - 1]);
      var before := RunCalls(fs, calls[..|calls| - 1]);
      ExecValid(before.fs, calls[|calls| - 1].name, calls[|calls| - 1].arguments);
    }
  }

  lemma {:induction false} TurnValid(cfg: Settings, fs: FileSystem,
                                     history: seq<Message>, script: seq<Outcome>)
    requires Valid(fs)
    ensures Valid(Turn(cfg, fs, history, script).fs)
    decreases |script|
  {
    match Next(script)
    case Raised(e) =>
    case Replied(reply) =>
      var calls := CallsOf(reply);
      if calls != [] {
        RunCallsValid(fs, calls);
        var batch := RunCalls(fs, calls);
        TurnValid(cfg, batch.fs, history + [Assistant(ContentOf(reply), calls)] + batch.results, Rest(script));
      }
  }

  /** A client that answers with plain content: one request, and the history
      grows by the user's message and the reply. */
  lemma PlainReply(cfg: Settings, fs: FileSystem, history: seq<Message>, text: string)
    ensures var t := Turn(cfg, fs, history + [User("hello")], [Replied(Reply(Some(text), None))]);
      && t.answer == text
      && t.history == history + [User("hello"), Assistant(text, [])]
      && |t.requests| == 1 && t.fs == fs && t.script == []
  {
  }

  /** A client that asks for one tool call and then answers: two requests,
      one tool run, and four new messages (user, assistant, tool, assistant). */
  lemma OneToolRound(cfg: Settings, fs: FileSystem, history: seq<Message>,
                     call: ToolCall, text: string)
    ensures var t := Turn(cfg, fs, history + [User("hello")],
                          [Replied(Reply(Some(""), Some([call]))), Replied(Reply(Some(text), Some([])))]);
      var e := Exec(fs, call.name, call.arguments);
      && t.answer == text
      && t.history == history + [User("hello"), Assistant("", [call]), ToolResult(e.output, IdOf(call)),
                                 Assistant(text, [])]
      && |t.requests| == 2 && t.fs == e.fs
  {
    var script := [Replied(Reply(Some(""), Some([call]))), Replied(Reply(Some(text), Some([])))];
    var e := Exec(fs, call.name, call.arguments);
    assert [call][..0] == [];
    assert RunCalls(fs, [call]) == Batch([ToolResult(e.output, IdOf(call))], e.fs);
    var h := history + [User("hello")];
    var next := h + [Assistant("", [call])] + [ToolResult(e.output, IdOf(call))];
    assert Rest(script) == [Replied(Reply(Some(text), Some([])))];
    assert Rest(Rest(script)) == [];
    var last := Turn(cfg, e.fs, next, Rest(script));
    assert last.history == next + [Assistant(text, [])] && |last.requests| == 1;
  }
}
