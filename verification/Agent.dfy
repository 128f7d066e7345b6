/** The budget of one orchestrated run, as it counts steps and tool calls. */
module Limits {
  import opened Common

  /** A tool name with its arguments in normal form. */
  datatype Signature = Signature(name: string, arguments: string)

  datatype Budget = Budget(maxCalls: int, maxSteps: int, calls: int, steps: int, history: seq<Signature>)

  datatype Check = Accepted | CallsExhausted | Cycle

  const CALL_CAP := 10
  const STEP_CAP := 20

  function Min(a: int, b: int): int {
    if a <= b then a else b
  }

  /** An argument of zero counts as missing; the environment then decides, under a hard cap. */
  function Limit(argument: Option<int>, environment: int, cap: int): int {
    Min(if argument.Some? && argument.value != 0 then argument.value else environment, cap)
  }

  function NewBudget(calls: Option<int>, steps: Option<int>, callsEnv: int, stepsEnv: int): Budget {
    Budget(Limit(calls, callsEnv, CALL_CAP), Limit(steps, stepsEnv, STEP_CAP), 0, 0, [])
  }

  function Stepped(b: Budget): Budget {
    b.(steps := b.steps + 1)
  }

  predicate StepsLeft(b: Budget) {
    b.steps <= b.maxSteps
  }

  function Record(b: Budget, s: Signature): (Budget, Check) {
    var counted := b.(calls := b.calls + 1);
    if counted.calls > b.maxCalls then (counted, CallsExhausted)
    else if b.history != [] && b.history[|b.history| - 1] == s then (counted, Cycle)
    else (counted.(history := b.history + [s]), Accepted)
  }

  class ExecutionBudget {
    var maxToolCalls: int
    var maxSteps: int
    var currentToolCalls: int
    var currentSteps: int
    var callHistory: seq<Signature>

    function Value(): Budget
      reads this
    {
      Budget(maxToolCalls, maxSteps, currentToolCalls, currentSteps, callHistory)
    }

    constructor (calls: Option<int>, steps: Option<int>, callsEnv: int, stepsEnv: int)
      ensures Value() == NewBudget(calls, steps, callsEnv, stepsEnv)
      ensures maxToolCalls <= 10 && maxSteps <= 20 && currentToolCalls == currentSteps == 0 && callHistory == []
      ensures var asked := if calls in {None, Some(0)} then callsEnv else calls.value; asked <= 10 ==> maxToolCalls == asked
      ensures var asked := if steps in {None, Some(0)} then stepsEnv else steps.value; asked <= 20 ==> maxSteps == asked
    {
      var c := if calls.Some? && calls.value != 0 then calls.value else callsEnv;
      var s := if steps.Some? && steps.value != 0 then steps.value else stepsEnv;
      maxToolCalls := if c <= CALL_CAP then c else CALL_CAP;
      maxSteps := if s <= STEP_CAP then s else STEP_CAP;
      currentToolCalls, currentSteps, callHistory := 0, 0, [];
    }

    method IncrementStep() returns (ok: bool)
      modifies this`currentSteps
      ensures Value() == Stepped(old(Value())) && ok == StepsLeft(Value())
    {
      currentSteps := currentSteps + 1;
      ok := currentSteps <= maxSteps;
    }

    method RecordToolCall(name: string, arguments: string) returns (check: Check)
      modifies this`currentToolCalls, this`callHistory
      ensures var (b, c) := Record(old(Value()), Signature(name, arguments)); Value() == b && check == c
    {
      currentToolCalls := currentToolCalls + 1;
      if currentToolCalls > maxToolCalls {
        return CallsExhausted;
      }
      var signature := Signature(name, arguments);
      if callHistory != [] && callHistory[|callHistory| - 1] == signature {
        return Cycle;
      }
      callHistory := callHistory + [signature];
      check := Accepted;
    }
  }
}

/**
 * One run of the orchestrator. The model, the tools and the database are adversaries: a reply says which calls
 * the model asks for, and each call carries what its handler would do.
 */
module Agent {
  import opened Common
  import opened Conversation
  import opened Limits
  import opened EvaluationKey

  datatype Decision = Decision(id: Id, result: string)

  /** What validating the returned dictionary as a decision gives. */
  datatype Reading = NotADictionary | Invalid(error: string) | Valid(decision: Decision)

  /** What running a handler gives: an exception text, or a result with its JSON text when it has one. */
  datatype Handler = Fails(error: string) | Returns(text: Option<string>, reading: Reading)

  /** `normal` is the parsed argument object in normal form, absent when the text is not JSON. */
  datatype ToolCall = ToolCall(data: CallData, normal: Option<string>, handler: Handler, stored: bool)

  /** `stored` flags say whether the database takes the row of a reply or a call, provided that it fits. */
  datatype Reply = ApiError | Reply(calls: seq<ToolCall>, stored: bool)

  datatype Response = Response(message: string, decision: string, source: Option<string>, authoritative: Option<Decision>)

  datatype Failure = BudgetExhausted | StorageFailed | ApiFailed

  datatype Ending = Waiting | Returned(response: Response) | Raised(failure: Failure)

  const EVALUATE := "evaluate_eligibility"
  const NO_DECISION := "Eligibility has not been verified. No authoritative decision is available."
  const ELIGIBLE_TEXT := "You are eligible for the evaluated opportunity."
  const NOT_ELIGIBLE_TEXT := "You are not eligible for the evaluated opportunity."
  const UNKNOWN_TEXT := "Eligibility could not be determined from the authoritative information."
  const RESULTS: set<string> := {"ELIGIBLE", "NOT_ELIGIBLE", "UNKNOWN"}
  const BAD_JSON := "Error: Invalid JSON arguments."
  const INTERNAL := "Error: Internal tool execution failed."

  function AuthorityMessage(decision: Option<Decision>): string {
    if decision.None? then NO_DECISION
    else if decision.value.result == "ELIGIBLE" then ELIGIBLE_TEXT
    else if decision.value.result == "NOT_ELIGIBLE" then NOT_ELIGIBLE_TEXT
    else UNKNOWN_TEXT
  }

  function NotFound(name: string): string {
    "Error: Tool '" + name + "' not found."
  }

  function IntText(n: int): string {
    if n < 0 then "-" + Decimal(-n) else Decimal(n)
  }

  function Exhausted(limit: int): string {
    "System Error: Maximum tool calls (" + IntText(limit) + ") exceeded. Please formulate a final response."
  }

  function Repeated(name: string): string {
    "System Error: Duplicate consecutive tool call detected: " + name + " Please formulate a final response."
  }

  /** What one call adds to the history of a run: whether its handler was run. */
  datatype Handled = Handled(call: ToolCall, ran: bool)

  /** The model was asked with these messages while the log was this. */
  datatype Question = Question(messages: seq<Message>, log: seq<Entry>)

  /** `handled` and `asked` record the run; the program itself keeps only the other four. */
  datatype Turn = Turn(
    log: seq<Entry>, messages: seq<Message>, budget: Budget, decision: Option<Decision>,
    handled: seq<Handled>, asked: seq<Question>)

  // ---------- what is written to the log, and what is kept in memory ----------

  function TextEntry(role: Role, text: string): Entry {
    Entry(role, Some(text), None, None, None)
  }

  function TextMessage(role: Role, text: string): Message {
    Message(role, Some(text), None, None, None)
  }

  function CallsEntry(calls: seq<CallData>): Entry {
    Entry(ASSISTANT, None, None, None, Some(calls))
  }

  function CallsMessage(calls: seq<CallData>): Message {
    Message(ASSISTANT, None, None, None, Some(calls))
  }

  function ToolEntry(call: ToolCall, text: string): Entry {
    Entry(TOOL, Some(text), Some(call.data.name), Some(call.data.id), None)
  }

  function ToolMessage(call: ToolCall, text: string): Message {
    Message(TOOL, Some(text), Some(call.data.name), Some(call.data.id), None)
  }

  /** The name and the id come from the model; nothing shortens them before they reach their columns. */
  predicate Stored(call: ToolCall) {
    call.stored && |call.data.name| <= COLUMN && |call.data.id| <= COLUMN
  }

  function DataOf(calls: seq<ToolCall>): seq<CallData> {
    seq(|calls|, i requires 0 <= i < |calls| => calls[i].data)
  }

  // ---------- one call ----------

  /** The decision and the text after running the handler of an evaluation. */
  function Evaluated(handler: Handler): (Option<Decision>, string) {
    match handler
    case Fails(error) => (None, error)
    case Returns(_, Invalid(error)) => (None, error)
    case Returns(text, NotADictionary) => (None, if text.Some? then text.value else INTERNAL)
    case Returns(text, Valid(d)) =>
      // the decision is taken before the result is serialised
      if d.result in RESULTS then (Some(d), if text.Some? then text.value else INTERNAL) else (None, INTERNAL)
  }

  /** The text after running any other handler. */
  function ResultText(handler: Handler): string {
    match handler
    case Fails(error) => error
    case Returns(text, _) => if text.Some? then text.value else INTERNAL
  }

  /** The text for a call that the budget refuses. */
  function Refusal(check: Check, name: string, limit: int): Option<string> {
    match check
    case CallsExhausted => Some(Exhausted(limit))
    case Cycle => Some(Repeated(name))
    case Accepted => None
  }

  /** The decision and the text after running the handler of an accepted call. */
  function HandlerEffect(before: Option<Decision>, call: ToolCall): (Option<Decision>, string) {
    if call.data.name == EVALUATE then Evaluated(call.handler) else (before, ResultText(call.handler))
  }

  /** Budget, decision and tool text after one call, and whether the handler was run. */
  datatype Effect = Effect(budget: Budget, decision: Option<Decision>, text: string, ran: bool)

  function EffectOf(tools: set<string>, b: Budget, decision: Option<Decision>, call: ToolCall): Effect {
    var name := call.data.name;
    var before := if name == EVALUATE then None else decision;
    if name !in tools then Effect(b, before, NotFound(name), false)
    else if call.normal.None? then Effect(b, before, BAD_JSON, false)
    else
      var (b', check) := Record(b, Signature(name, call.normal.value));
      var refusal := Refusal(check, name, b.maxCalls);
      if refusal.Some? then Effect(b', before, refusal.value, false)
      else
        var (d, text) := HandlerEffect(before, call);
        Effect(b', d, text, true)
  }

  /** One iteration of the inner loop; the last component says whether the row was stored. */
  function Handle(tools: set<string>, t: Turn, call: ToolCall): (Turn, bool) {
    var e := EffectOf(tools, t.budget, t.decision, call);
    var t' := t.(budget := e.budget, decision := e.decision, handled := t.handled + [Handled(call, e.ran)]);
    if Stored(call)
    then (t'.(log := t.log + [ToolEntry(call, e.text)], messages := t.messages + [ToolMessage(call, e.text)]), true)
    else (t', false)
  }

  function HandleAll(tools: set<string>, t: Turn, calls: seq<ToolCall>): (Turn, bool)
    decreases |calls|
  {
    if calls == [] then (t, true)
    else
      var (t', ok) := Handle(tools, t, calls[0]);
      if ok then HandleAll(tools, t', calls[1..]) else (t', false)
  }

  // ---------- the outer loop ----------

  function Ask(t: Turn): Turn {
    t.(budget := Stepped(t.budget), asked := t.asked + [Question(t.messages, t.log)])
  }

  /** The assistant row with its calls. */
  function Post(t: Turn, calls: seq<ToolCall>): Turn {
    t.(log := t.log + [CallsEntry(DataOf(calls))], messages := t.messages + [CallsMessage(DataOf(calls))])
  }

  function Exchange(tools: set<string>, t: Turn, reply: Reply): (Turn, bool)
    requires reply.Reply?
  {
    if reply.stored then HandleAll(tools, Post(t, reply.calls), reply.calls) else (t, false)
  }

  function ResponseFor(decision: Option<Decision>): Response {
    if decision.None? then Response(AuthorityMessage(None), "UNKNOWN", None, None)
    else Response(AuthorityMessage(decision), decision.value.result, Some("M5_ENGINE"), decision)
  }

  function Finish(t: Turn, stored: bool): (Turn, Ending) {
    if stored
    then (t.(log := t.log + [TextEntry(ASSISTANT, AuthorityMessage(t.decision))]), Returned(ResponseFor(t.decision)))
    else (t, Raised(StorageFailed))
  }

  /** `Waiting` is the state of a run whose model has given only these replies so far. */
  function Loop(tools: set<string>, t: Turn, replies: seq<Reply>): (Turn, Ending)
    decreases |replies|
  {
    if !StepsLeft(Stepped(t.budget)) then (t.(budget := Stepped(t.budget)), Raised(BudgetExhausted))
    else
      var asked := Ask(t);
      if replies == [] then (asked, Waiting)
      else
        match replies[0]
        case ApiError => (asked, Raised(ApiFailed))
        case Reply(calls, stored) =>
          if calls == [] then Finish(asked, stored)
          else
            var (t', ok) := Exchange(tools, asked, replies[0]);
            if ok then Loop(tools, t', replies[1..]) else (t', Raised(StorageFailed))
  }

  /** The rows that precede the first question: the prompt in a new conversation, then the query. */
  function Opening(log: seq<Entry>, prompt: string, query: string): seq<Entry> {
    log + (if log == [] then [TextEntry(SYSTEM, prompt)] else []) + [TextEntry(USER, query)]
  }

  function Begin(log: seq<Entry>, prompt: string, query: string, b: Budget): Turn {
    var loaded := Transcript(log);
    var prompted := if loaded == [] then loaded + [TextMessage(SYSTEM, prompt)] else loaded;
    Turn(Opening(log, prompt, query), prompted + [TextMessage(USER, query)], b, None, [], [])
  }

  /** execute, once the opening rows are stored. */
  function Run(tools: set<string>, log: seq<Entry>, prompt: string, query: string, b: Budget, replies: seq<Reply>): (Turn, Ending) {
    Loop(tools, Begin(log, prompt, query, b), replies)
  }
}
