/** execute as it changes the tables, the budget and the messages. */
module Orchestrator {
  import opened Common
  import opened Conversation
  import opened MemoryStore
  import opened Limits
  import opened Agent
  import opened AgentProperties

  /** What the environment configures, and whether the opening rows are stored. */
  datatype Setting = Setting(prompt: string, callsEnv: int, stepsEnv: int, promptStored: bool, queryStored: bool)

  datatype Outcome = PermissionDenied | Ended(ending: Ending)

  /** The log after execute, and its outcome. */
  function Executed(
    tools: set<string>, allowed: bool, log: seq<Entry>, query: string, s: Setting, replies: seq<Reply>): (seq<Entry>, Outcome)
  {
    var prompted := if log == [] then [TextEntry(SYSTEM, s.prompt)] else log;
    if !allowed then (log, PermissionDenied)
    else if log == [] && !s.promptStored then (log, Ended(Raised(StorageFailed)))
    else if !s.queryStored then (prompted, Ended(Raised(StorageFailed)))
    else
      var (t, ending) := Run(tools, log, s.prompt, query, NewBudget(None, None, s.callsEnv, s.stepsEnv), replies);
      (t.log, Ended(ending))
  }

  /**
   * Without permission nothing is written. Otherwise the opening rows come first, and a run that returns ends
   * its log with the text that says what was decided.
   */
  predicate TellsTheVerdict(
    allowed: bool, log: seq<Entry>, prompt: string, query: string, log': seq<Entry>, outcome: Outcome)
  {
    (outcome.PermissionDenied? <==> !allowed) && (!allowed ==> log' == log) &&
    (outcome.Ended? && outcome.ending.Returned? ==> Told(log', outcome.ending.response)) &&
    (outcome.Ended? && outcome.ending != Raised(StorageFailed) ==> OpeningRows(log, prompt, query) <= log')
  }

  lemma ExecutedTellsTheVerdict(
      tools: set<string>, allowed: bool, log: seq<Entry>, query: string, s: Setting, replies: seq<Reply>)
    ensures var (log', outcome) := Executed(tools, allowed, log, query, s, replies);
            TellsTheVerdict(allowed, log, s.prompt, query, log', outcome)
  {
    if allowed && (log == [] ==> s.promptStored) && s.queryStored {
      var b := NewBudget(None, None, s.callsEnv, s.stepsEnv);
      var (t, ending) := Run(tools, log, s.prompt, query, b, replies);
      RunOpens(tools, log, s.prompt, query, b, replies);
      if ending.Returned? {
        ResponseIsTold(tools, log, s.prompt, query, b, replies);
      }
    }
  }

  class AgentOrchestrator {
    const memory: ConversationMemory
    const registry: set<string>

    constructor (memory: ConversationMemory, registry: set<string>)
      ensures this.memory == memory && this.registry == registry
    {
      this.memory, this.registry := memory, registry;
    }

    method Execute(conversation: Id, query: string, s: Setting, replies: seq<Reply>) returns (outcome: Outcome)
      modifies memory
      ensures (Log(memory.rows, conversation), outcome) ==
                Executed(registry, old(memory.Allowed(conversation)), old(Log(memory.rows, conversation)), query, s, replies)
      ensures TellsTheVerdict(old(memory.Allowed(conversation)), old(Log(memory.rows, conversation)), s.prompt, query,
                              Log(memory.rows, conversation), outcome)
    {
      ExecutedTellsTheVerdict(registry, memory.Allowed(conversation), Log(memory.rows, conversation), query, s, replies);
      var budget := new ExecutionBudget(None, None, s.callsEnv, s.stepsEnv);
      var ok, messages := memory.GetMessages(conversation);
      if !ok {
        return PermissionDenied;
      }
      ghost var log := Log(memory.rows, conversation);
      if messages == [] {
        ok := memory.AddMessage(conversation, TextEntry(SYSTEM, s.prompt), s.promptStored);
        if !ok {
          return Ended(Raised(StorageFailed));
        }
        messages := messages + [TextMessage(SYSTEM, s.prompt)];
      }
      assert Log(memory.rows, conversation) == if log == [] then [TextEntry(SYSTEM, s.prompt)] else log;
      ok := memory.AddMessage(conversation, TextEntry(USER, query), s.queryStored);
      if !ok {
        return Ended(Raised(StorageFailed));
      }
      messages := messages + [TextMessage(USER, query)];
      ghost var t := Begin(log, s.prompt, query, budget.Value());
      assert Log(memory.rows, conversation) == t.log;
      var ending := Turns(conversation, messages, budget, replies, t);
      outcome := Ended(ending);
    }

    /** The outer loop; `t` is the turn that the variables hold. */
    method Turns(conversation: Id, messages: seq<Message>, budget: ExecutionBudget, replies: seq<Reply>, ghost t: Turn)
      returns (ending: Ending)
      requires memory.Allowed(conversation) && Log(memory.rows, conversation) == t.log
      requires messages == t.messages && budget.Value() == t.budget && t.decision == None
      modifies memory, budget
      ensures var (t', e) := Loop(registry, t, replies); Log(memory.rows, conversation) == t'.log && ending == e
    {
      var said := messages;
      var decision: Option<Decision> := None;
      var k := 0;
      ghost var now := t;
      while true
        invariant 0 <= k <= |replies|
        invariant Loop(registry, t, replies) == Loop(registry, now, replies[k..])
        invariant memory.Allowed(conversation) && Log(memory.rows, conversation) == now.log
        invariant said == now.messages && budget.Value() == now.budget && decision == now.decision
        decreases |replies| - k
      {
        var ok := budget.IncrementStep();
        if !ok {
          return Raised(BudgetExhausted);
        }
        if k == |replies| {
          return Waiting;
        }
        var reply := replies[k];
        if reply.ApiError? {
          return Raised(ApiFailed);
        }
        if reply.calls == [] {
          var content := AuthorityMessage(decision);
          ok := memory.AddMessage(conversation, TextEntry(ASSISTANT, content), reply.stored);
          if !ok {
            return Raised(StorageFailed);
          }
          return Returned(ResponseFor(decision));
        }
        var data := DataOf(reply.calls);
        ok := memory.AddMessage(conversation, CallsEntry(data), reply.stored);
        if !ok {
          return Raised(StorageFailed);
        }
        said := said + [CallsMessage(data)];
        ghost var posted := Post(Ask(now), reply.calls);
        ok, said, decision := HandleCalls(conversation, said, budget, decision, reply.calls, posted);
        if !ok {
          return Raised(StorageFailed);
        }
        assert replies[k..][1..] == replies[k + 1..];
        now := HandleAll(registry, posted, reply.calls).0;
        k := k + 1;
      }
    }

    /** The inner loop over the calls of one reply. */
    method HandleCalls(
      conversation: Id, messages: seq<Message>, budget: ExecutionBudget, before: Option<Decision>, calls: seq<ToolCall>,
      ghost t: Turn)
      returns (ok: bool, said: seq<Message>, decision: Option<Decision>)
      requires memory.Allowed(conversation) && Log(memory.rows, conversation) == t.log
      requires messages == t.messages && budget.Value() == t.budget && before == t.decision
      modifies memory, budget
      ensures memory.Allowed(conversation)
      ensures var (t', o) := HandleAll(registry, t, calls);
              Log(memory.rows, conversation) == t'.log && ok == o &&
              (ok ==> said == t'.messages && budget.Value() == t'.budget && decision == t'.decision)
    {
      said, decision, ok := messages, before, true;
      ghost var now := t;
      for k := 0 to |calls|
        invariant HandleAll(registry, t, calls) == HandleAll(registry, now, calls[k..])
        invariant memory.Allowed(conversation) && Log(memory.rows, conversation) == now.log
        invariant said == now.messages && budget.Value() == now.budget && decision == now.decision && ok
      {
        var call := calls[k];
        ghost var b, d := budget.Value(), decision;
        var text: string;
        decision, text := CallTool(budget, decision, call);
        ok := memory.AddMessage(conversation, ToolEntry(call, text), call.stored);
        if !ok {
          return;
        }
        said := said + [ToolMessage(call, text)];
        assert calls[k..][1..] == calls[k + 1..];
        now := Handle(registry, now, call).0;
      }
      assert calls[|calls|..] == [];
    }

    /** The five ways one call can go. */
    method CallTool(budget: ExecutionBudget, before: Option<Decision>, call: ToolCall)
      returns (decision: Option<Decision>, text: string)
      modifies budget
      ensures var e := EffectOf(registry, old(budget.Value()), before, call);
              budget.Value() == e.budget && decision == e.decision && text == e.text
    {
      var name := call.data.name;
      decision := before;
      if name == EVALUATE {
        decision := None;
      }
      if name !in registry {
        return decision, NotFound(name);
      }
      if call.normal.None? {
        return decision, BAD_JSON;
      }
      var refusal := CheckBudget(budget, name, call.normal.value);
      if refusal.Some? {
        return decision, refusal.value;
      }
      decision, text := RunHandler(decision, call);
    }

    /** Counts the call; the text with which it is refused, if it is. */
    method CheckBudget(budget: ExecutionBudget, name: string, arguments: string) returns (refusal: Option<string>)
      modifies budget
      ensures var (b, check) := Record(old(budget.Value()), Signature(name, arguments));
              budget.Value() == b && refusal == Refusal(check, name, old(budget.maxToolCalls))
    {
      var limit := budget.maxToolCalls;
      var check := budget.RecordToolCall(name, arguments);
      match check {
        case CallsExhausted => return Some(Exhausted(limit));
        case Cycle => return Some(Repeated(name));
        case Accepted => return None;
      }
    }

    /** The handler of an accepted call; what it raises becomes the text. */
    method RunHandler(before: Option<Decision>, call: ToolCall) returns (decision: Option<Decision>, text: string)
      ensures var (d, t) := HandlerEffect(before, call); decision == d && text == t
    {
      decision := if call.data.name == EVALUATE then None else before;
      if call.handler.Fails? {
        return decision, call.handler.error;
      }
      if call.data.name == EVALUATE {
        match call.handler.reading {
          case Invalid(error) => return decision, error;
          case Valid(d) =>
            if d.result !in RESULTS {
              return None, INTERNAL;
            }
            decision := Some(d);
          case NotADictionary =>
        }
      }
      text := if call.handler.text.Some? then call.handler.text.value else INTERNAL;
    }
  }
}
