/** What every run of the orchestrator keeps, whatever the model, the tools and the database do. */
module AgentProperties {
  import opened Common
  import opened Conversation
  import opened Limits
  import opened Agent

  // ---------- the shape of the transcript ----------

  /** The row answers the call. */
  predicate AnswerTo(e: Entry, call: CallData) {
    e.role == TOOL && e.toolCallId == Some(call.id) && e.toolName == Some(call.name) && e.toolCalls == None
  }

  /** One tool row for each call, in order. */
  predicate Answers(entries: seq<Entry>, calls: seq<CallData>) {
    |entries| == |calls| &&
    forall i | 0 <= i < |calls| :: AnswerTo(entries[i], calls[i])
  }

  /** A row together with the answers it asks for. */
  function BlockLength(log: seq<Entry>): nat
    requires log != []
  {
    if log[0].toolCalls.Some? then |log[0].toolCalls.value| + 1 else 1
  }

  predicate Block(block: seq<Entry>) {
    block != [] &&
    if block[0].toolCalls.Some? then Answers(block[1..], block[0].toolCalls.value) else block[0].role != TOOL
  }

  /** Every row with calls is followed at once by the answers to them, and no other tool row occurs. */
  predicate Complete(log: seq<Entry>)
    decreases |log|
  {
    log == [] ||
    var n := BlockLength(log);
    n <= |log| && Block(log[..n]) && Complete(log[n..])
  }

  /** What follows a complete log decides alone whether the whole is complete. */
  lemma {:induction false} CompleteConcat(a: seq<Entry>, b: seq<Entry>)
    requires Complete(a)
    ensures Complete(a + b) <==> Complete(b)
    decreases |a|
  {
    if a == [] {
      assert a + b == b;
    } else {
      var n := BlockLength(a);
      CompleteConcat(a[n..], b);
      assert (a + b)[n..] == a[n..] + b && (a + b)[..n] == a[..n];
    }
  }

  /** A log that is not complete stays so, once a row follows that answers no call. */
  lemma {:induction false} BrokenStays(a: seq<Entry>, e: Entry, rest: seq<Entry>)
    requires !Complete(a) && e.role != TOOL
    ensures !Complete(a + [e] + rest)
    decreases |a|
  {
    var n := BlockLength(a);
    var whole := a + [e] + rest;
    assert whole[|a|] == e;
    if n <= |a| {
      assert whole[..n] == a[..n] && whole[n..] == a[n..] + [e] + rest;
      if Block(a[..n]) {
        BrokenStays(a[n..], e, rest);
      }
    } else if n <= |whole| {
      assert whole[..n][1..][|a| - 1] == e;
    }
  }

  lemma CompleteBlock(block: seq<Entry>)
    requires Block(block) && |block| == BlockLength(block)
    ensures Complete(block)
  {
  }

  lemma CompleteText(role: Role, text: string)
    requires role != TOOL
    ensures Complete([TextEntry(role, text)])
  {
  }

  // ---------- mirroring ----------

  predicate Mirrors(t: Turn) {
    t.messages == Transcript(t.log)
  }

  predicate AskedAsLogged(t: Turn) {
    forall q | q in t.asked :: q.messages == Transcript(q.log)
  }

  lemma TranscriptAppend(log: seq<Entry>, e: Entry)
    ensures Transcript(log + [e]) == Transcript(log) + [Format(e)]
  {
  }

  lemma HandleAnswers(tools: set<string>, t: Turn, call: ToolCall)
    ensures var (t', ok) := Handle(tools, t, call);
            t'.asked == t.asked && (Mirrors(t) ==> Mirrors(t')) &&
            if ok then t'.log == t.log + [t'.log[|t.log|]] && AnswerTo(t'.log[|t.log|], call.data) else t'.log == t.log
  {
    TranscriptAppend(t.log, ToolEntry(call, EffectOf(tools, t.budget, t.decision, call).text));
  }

  lemma FirstOfRest(log: seq<Entry>, n: nat)
    requires n < |log|
    ensures log[n..] == [log[n]] + log[n + 1..]
  {
  }

  lemma AnswersStep(e: Entry, rest: seq<Entry>, calls: seq<ToolCall>)
    requires calls != [] && AnswerTo(e, calls[0].data) && Answers(rest, DataOf(calls[1..]))
    ensures Answers([e] + rest, DataOf(calls))
  {
    assert DataOf(calls) == [calls[0].data] + DataOf(calls[1..]);
  }

  /** Handling calls adds their answers to the log; a row that is not stored cuts them short. */
  lemma {:induction false} HandleAllAnswers(tools: set<string>, t: Turn, calls: seq<ToolCall>)
    ensures var (t', ok) := HandleAll(tools, t, calls);
            t.log <= t'.log && t'.asked == t.asked && (Mirrors(t) ==> Mirrors(t')) &&
            if ok then Answers(t'.log[|t.log|..], DataOf(calls)) else |t'.log| < |t.log| + |calls|
    decreases |calls|
  {
    if calls != [] {
      HandleAnswers(tools, t, calls[0]);
      var (t1, ok1) := Handle(tools, t, calls[0]);
      if ok1 {
        HandleAllAnswers(tools, t1, calls[1..]);
        var (t', ok) := HandleAll(tools, t1, calls[1..]);
        if ok {
          AnswersStep(t'.log[|t.log|], t'.log[|t1.log|..], calls);
          FirstOfRest(t'.log, |t.log|);
        }
      }
    }
  }

  lemma ExchangeMirrors(tools: set<string>, t: Turn, reply: Reply)
    requires Mirrors(t) && reply.Reply?
    ensures var t' := Exchange(tools, t, reply).0; Mirrors(t') && t'.asked == t.asked && t.log <= t'.log
  {
    TranscriptAppend(t.log, CallsEntry(DataOf(reply.calls)));
    HandleAllAnswers(tools, Post(t, reply.calls), reply.calls);
  }

  lemma {:induction false} LoopMirrors(tools: set<string>, t: Turn, replies: seq<Reply>)
    requires Mirrors(t) && AskedAsLogged(t)
    ensures var t' := Loop(tools, t, replies).0; t.log <= t'.log && AskedAsLogged(t')
    decreases |replies|
  {
    if StepsLeft(Stepped(t.budget)) && replies != [] && replies[0].Reply? && replies[0].calls != [] {
      ExchangeMirrors(tools, Ask(t), replies[0]);
      var (t1, ok) := Exchange(tools, Ask(t), replies[0]);
      if ok {
        LoopMirrors(tools, t1, replies[1..]);
      }
    }
  }

  lemma BeginMirrors(log: seq<Entry>, prompt: string, query: string, b: Budget)
    ensures Mirrors(Begin(log, prompt, query, b))
    ensures Opening(log, prompt, query) == (if log == [] then [TextEntry(SYSTEM, prompt)] else log) + [TextEntry(USER, query)]
  {
  }

  /** Whatever the log held before, at every question the messages in memory are the transcript of the log. */
  lemma TranscriptMirrorsTheLog(tools: set<string>, log: seq<Entry>, prompt: string, query: string, b: Budget, replies: seq<Reply>)
    ensures var t := Run(tools, log, prompt, query, b, replies).0;
            log <= t.log && forall q | q in t.asked :: q.messages == Transcript(q.log)
  {
    BeginMirrors(log, prompt, query, b);
    LoopMirrors(tools, Begin(log, prompt, query, b), replies);
  }

  // ---------- completeness ----------

  lemma ExchangeCompletesIff(tools: set<string>, t: Turn, reply: Reply)
    requires Complete(t.log) && reply.Reply?
    ensures var (t', ok) := Exchange(tools, t, reply); Complete(t'.log) <==> ok || !reply.stored
  {
    if reply.stored {
      var data := DataOf(reply.calls);
      HandleAllAnswers(tools, Post(t, reply.calls), reply.calls);
      var (t', ok) := Exchange(tools, t, reply);
      var block := t'.log[|t.log|..];
      assert t'.log == t.log + block && block[0] == CallsEntry(data);
      CompleteConcat(t.log, block);
      if ok {
        assert block[1..] == t'.log[|t.log| + 1..];
        CompleteBlock(block);
      } else {
        assert BlockLength(block) > |block|;
      }
    }
  }

  predicate SameLimits(b: Budget, b': Budget) {
    b.maxCalls == b'.maxCalls && b.maxSteps == b'.maxSteps && b.steps == b'.steps
  }

  /** A reply after which the loop goes on. */
  predicate Continues(reply: Reply) {
    reply.Reply? && reply.stored && reply.calls != [] && forall c | c in reply.calls :: Stored(c)
  }

  /** Only the budget check changes the budget. */
  function BudgetAfter(tools: set<string>, b: Budget, call: ToolCall): Budget {
    if call.data.name in tools && call.normal.Some? then Record(b, Signature(call.data.name, call.normal.value)).0 else b
  }

  lemma EffectBudget(tools: set<string>, b: Budget, decision: Option<Decision>, call: ToolCall)
    ensures EffectOf(tools, b, decision, call).budget == BudgetAfter(tools, b, call)
  {
  }

  lemma HandleStores(tools: set<string>, t: Turn, call: ToolCall)
    ensures Handle(tools, t, call).1 == Stored(call) && SameLimits(t.budget, Handle(tools, t, call).0.budget)
  {
    EffectBudget(tools, t.budget, t.decision, call);
    assert SameLimits(t.budget, BudgetAfter(tools, t.budget, call));
  }

  lemma {:induction false} HandleAllStores(tools: set<string>, t: Turn, calls: seq<ToolCall>)
    ensures HandleAll(tools, t, calls).1 <==> forall c | c in calls :: Stored(c)
    ensures SameLimits(t.budget, HandleAll(tools, t, calls).0.budget)
    decreases |calls|
  {
    if calls != [] {
      HandleStores(tools, t, calls[0]);
      HandleAllStores(tools, Handle(tools, t, calls[0]).0, calls[1..]);
      assert calls == [calls[0]] + calls[1..];
    }
  }

  predicate AllContinue(replies: seq<Reply>, n: int)
    requires n <= |replies|
  {
    forall i | 0 <= i < n :: Continues(replies[i])
  }

  lemma AllContinueStep(replies: seq<Reply>, n: int)
    requires 0 < n <= |replies|
    ensures AllContinue(replies, n) <==> Continues(replies[0]) && AllContinue(replies[1..], n - 1)
  {
    var rest := replies[1..];
    if Continues(replies[0]) && AllContinue(rest, n - 1) {
      forall i | 0 <= i < n ensures Continues(replies[i]) {
        assert i == 0 || Continues(rest[i - 1]);
      }
    }
    if AllContinue(replies, n) {
      forall i | 0 <= i < n - 1 ensures Continues(rest[i]) {
        assert Continues(replies[i + 1]);
      }
    }
  }

  /** The loop reaches this reply and stores the row of its calls, but not the rows of all of them. */
  predicate CutAt(replies: seq<Reply>, k: int) {
    0 <= k < |replies| && AllContinue(replies, k) &&
    replies[k].Reply? && replies[k].stored && replies[k].calls != [] && exists c | c in replies[k].calls :: !Stored(c)
  }

  predicate CutWithin(replies: seq<Reply>, steps: int) {
    exists k | 0 <= k < steps :: CutAt(replies, k)
  }

  lemma CutLater(replies: seq<Reply>, k: nat)
    requires replies != []
    ensures CutAt(replies, k + 1) <==> Continues(replies[0]) && CutAt(replies[1..], k)
  {
    if k + 1 < |replies| {
      AllContinueStep(replies, k + 1);
    }
  }

  lemma CutWithinStep(replies: seq<Reply>, steps: int)
    requires replies != [] && steps > 0
    ensures CutWithin(replies, steps) <==> CutAt(replies, 0) || (Continues(replies[0]) && CutWithin(replies[1..], steps - 1))
  {
    if CutWithin(replies, steps) {
      var k :| 0 <= k < steps && CutAt(replies, k);
      if k > 0 {
        CutLater(replies, k - 1);
      }
    }
    if Continues(replies[0]) && CutWithin(replies[1..], steps - 1) {
      var k :| 0 <= k < steps - 1 && CutAt(replies[1..], k);
      CutLater(replies, k);
    }
  }

  predicate AskedComplete(t: Turn) {
    forall q | q in t.asked :: Complete(q.log)
  }

  lemma FinishCompletes(t: Turn, stored: bool)
    requires Complete(t.log)
    ensures Complete(Finish(t, stored).0.log) && Finish(t, stored).0.asked == t.asked
  {
    CompleteText(ASSISTANT, AuthorityMessage(t.decision));
    CompleteConcat(t.log, [TextEntry(ASSISTANT, AuthorityMessage(t.decision))]);
  }

  lemma ExchangeStores(tools: set<string>, t: Turn, reply: Reply)
    requires reply.Reply?
    ensures var (t', ok) := Exchange(tools, t, reply);
            t'.asked == t.asked && (reply.stored ==> SameLimits(t.budget, t'.budget)) &&
            (ok <==> reply.stored && forall c | c in reply.calls :: Stored(c))
  {
    HandleAllAnswers(tools, Post(t, reply.calls), reply.calls);
    HandleAllStores(tools, Post(t, reply.calls), reply.calls);
  }

  lemma {:induction false} LoopCompletesIff(tools: set<string>, t: Turn, replies: seq<Reply>)
    requires Complete(t.log) && AskedComplete(t)
    ensures var t' := Loop(tools, t, replies).0;
            AskedComplete(t') && (Complete(t'.log) <==> !CutWithin(replies, t.budget.maxSteps - t.budget.steps))
    decreases |replies|
  {
    if StepsLeft(Stepped(t.budget)) && replies != [] {
      CutWithinStep(replies, t.budget.maxSteps - t.budget.steps);
      if replies[0].Reply? {
        if replies[0].calls == [] {
          FinishCompletes(Ask(t), replies[0].stored);
        } else {
          ExchangeCompletesIff(tools, Ask(t), replies[0]);
          ExchangeStores(tools, Ask(t), replies[0]);
          var (t1, ok) := Exchange(tools, Ask(t), replies[0]);
          if ok {
            LoopCompletesIff(tools, t1, replies[1..]);
          }
        }
      }
    }
  }

  predicate AskedAfter(t: Turn, opening: seq<Entry>) {
    forall q | q in t.asked :: opening <= q.log
  }

  lemma {:induction false} LoopExtends(tools: set<string>, t: Turn, opening: seq<Entry>, replies: seq<Reply>)
    requires opening <= t.log && AskedAfter(t, opening)
    ensures var t' := Loop(tools, t, replies).0; opening <= t'.log && AskedAfter(t', opening)
    decreases |replies|
  {
    if StepsLeft(Stepped(t.budget)) && replies != [] && replies[0].Reply? && replies[0].calls != [] {
      HandleAllAnswers(tools, Post(Ask(t), replies[0].calls), replies[0].calls);
      var (t1, ok) := Exchange(tools, Ask(t), replies[0]);
      if ok {
        LoopExtends(tools, t1, opening, replies[1..]);
      }
    }
  }

  lemma BrokenOpening(log: seq<Entry>, prompt: string, query: string, longer: seq<Entry>)
    requires !Complete(log) && Opening(log, prompt, query) <= longer
    ensures !Complete(longer)
  {
    var rest := longer[|log| + 1..];
    BrokenStays(log, TextEntry(USER, query), rest);
    assert Opening(log, prompt, query) == log + [TextEntry(USER, query)];
    assert longer == log + [TextEntry(USER, query)] + rest;
  }

  lemma OpeningComplete(log: seq<Entry>, prompt: string, query: string)
    requires Complete(log)
    ensures Complete(Opening(log, prompt, query))
  {
    CompleteText(SYSTEM, prompt);
    CompleteText(USER, query);
    BeginMirrors(log, prompt, query, Budget(0, 0, 0, 0, []));
    CompleteConcat(if log == [] then [TextEntry(SYSTEM, prompt)] else log, [TextEntry(USER, query)]);
  }

  lemma CompleteRun(tools: set<string>, log: seq<Entry>, prompt: string, query: string, b: Budget, replies: seq<Reply>)
    requires Complete(log)
    ensures var t := Run(tools, log, prompt, query, b, replies).0;
            AskedComplete(t) && (Complete(t.log) <==> !CutWithin(replies, b.maxSteps - b.steps))
  {
    OpeningComplete(log, prompt, query);
    LoopCompletesIff(tools, Begin(log, prompt, query, b), replies);
  }

  lemma BrokenRun(tools: set<string>, log: seq<Entry>, prompt: string, query: string, b: Budget, replies: seq<Reply>)
    requires !Complete(log)
    ensures var t := Run(tools, log, prompt, query, b, replies).0;
            !Complete(t.log) && forall q | q in t.asked :: !Complete(q.log)
  {
    var opening := Opening(log, prompt, query);
    var t := Run(tools, log, prompt, query, b, replies).0;
    LoopExtends(tools, Begin(log, prompt, query, b), opening, replies);
    BrokenOpening(log, prompt, query, t.log);
    forall q | q in t.asked ensures !Complete(q.log) {
      BrokenOpening(log, prompt, query, q.log);
    }
  }

  /**
   * A run asks on complete logs if and only if it found a complete one, and leaves one if and only if, besides,
   * no reply within its steps has a call whose row is refused after the row of the reply was stored. What is once
   * incomplete stays so.
   */
  lemma TranscriptCompleteIff(tools: set<string>, log: seq<Entry>, prompt: string, query: string, b: Budget, replies: seq<Reply>)
    ensures var t := Run(tools, log, prompt, query, b, replies).0;
            (forall q | q in t.asked :: Complete(q.log) <==> Complete(log)) &&
            (Complete(t.log) <==> Complete(log) && !exists k | 0 <= k < b.maxSteps - b.steps :: CutAt(replies, k))
  {
    if Complete(log) {
      CompleteRun(tools, log, prompt, query, b, replies);
    } else {
      BrokenRun(tools, log, prompt, query, b, replies);
    }
  }

  /** One call, under a tool name longer than its column. */
  function LongName(id: string): Reply {
    Reply([ToolCall(CallData(id, "function", seq(COLUMN + 1, _ => 'x'), "{}"), None, Fails(""), true)], true)
  }

  /**
   * A database that takes every row that fits is not enough: with one step left, such a reply
   * leaves the log incomplete, and then every later run, whatever it does, asks on an incomplete log.
   */
  lemma LongNameBreaksForGood(
      tools: set<string>, log: seq<Entry>, prompt: string, query: string, b: Budget, id: string, more: seq<Reply>,
      tools': set<string>, query': string, b': Budget, later: seq<Reply>)
    requires Complete(log) && b.steps < b.maxSteps
    ensures var broken := Run(tools, log, prompt, query, b, [LongName(id)] + more).0.log;
            var t := Run(tools', broken, prompt, query', b', later).0;
            !Complete(broken) && !Complete(t.log) && forall q | q in t.asked :: !Complete(q.log)
  {
    var replies := [LongName(id)] + more;
    TranscriptCompleteIff(tools, log, prompt, query, b, replies);
    var call := LongName(id).calls[0];
    assert !Stored(call) && call in replies[0].calls;
    assert CutAt(replies, 0);
    BrokenRun(tools', Run(tools, log, prompt, query, b, replies).0.log, prompt, query', b', later);
  }

  // ---------- the decision ----------

  predicate Evaluation(h: Handled) {
    h.call.data.name == EVALUATE
  }

  /** The handler ran and returned a decision with one of the three results. */
  predicate Decides(h: Handled, d: Decision) {
    h.ran && h.call.handler.Returns? && h.call.handler.reading == Valid(d) && d.result in RESULTS
  }

  /** Some evaluation request decided so, and no evaluation was requested after it. */
  predicate LastDecided(handled: seq<Handled>, d: Decision) {
    exists i | 0 <= i < |handled| ::
      Evaluation(handled[i]) && Decides(handled[i], d) && forall j | i < j < |handled| :: !Evaluation(handled[j])
  }

  ghost predicate DecisionIsLast(t: Turn) {
    forall d :: t.decision == Some(d) <==> LastDecided(t.handled, d)
  }

  lemma LastDecidedAppend(handled: seq<Handled>, h: Handled, d: Decision)
    ensures LastDecided(handled + [h], d) <==> if Evaluation(h) then Decides(h, d) else LastDecided(handled, d)
  {
    var all := handled + [h];
    var n := |handled|;
    assert all[n] == h;
    if Evaluation(h) {
      if LastDecided(all, d) {
        var i :| 0 <= i < |all| && Evaluation(all[i]) && Decides(all[i], d) && forall j | i < j < |all| :: !Evaluation(all[j]);
        assert i == n;
      }
    } else {
      assert forall i | 0 <= i < n :: all[i] == handled[i];
      if LastDecided(handled, d) {
        var i :| 0 <= i < n && Evaluation(handled[i]) && Decides(handled[i], d) && forall j | i < j < n :: !Evaluation(handled[j]);
        assert Evaluation(all[i]) && Decides(all[i], d);
      }
      if LastDecided(all, d) {
        var i :| 0 <= i < |all| && Evaluation(all[i]) && Decides(all[i], d) && forall j | i < j < |all| :: !Evaluation(all[j]);
        assert Evaluation(handled[i]) && Decides(handled[i], d);
      }
    }
  }

  lemma EffectDecides(tools: set<string>, b: Budget, decision: Option<Decision>, call: ToolCall, d: Decision)
    ensures var e := EffectOf(tools, b, decision, call);
            var h := Handled(call, e.ran);
            e.decision == Some(d) <==> if Evaluation(h) then Decides(h, d) else decision == Some(d)
  {
  }

  lemma HandleKeepsDecision(tools: set<string>, t: Turn, call: ToolCall)
    requires DecisionIsLast(t)
    ensures DecisionIsLast(Handle(tools, t, call).0)
  {
    var e := EffectOf(tools, t.budget, t.decision, call);
    var t' := Handle(tools, t, call).0;
    forall d ensures t'.decision == Some(d) <==> LastDecided(t'.handled, d) {
      EffectDecides(tools, t.budget, t.decision, call, d);
      LastDecidedAppend(t.handled, Handled(call, e.ran), d);
    }
  }

  lemma {:induction false} HandleAllKeepsDecision(tools: set<string>, t: Turn, calls: seq<ToolCall>)
    requires DecisionIsLast(t)
    ensures DecisionIsLast(HandleAll(tools, t, calls).0)
    decreases |calls|
  {
    if calls != [] {
      HandleKeepsDecision(tools, t, calls[0]);
      HandleAllKeepsDecision(tools, Handle(tools, t, calls[0]).0, calls[1..]);
    }
  }

  lemma {:induction false} LoopKeepsDecision(tools: set<string>, t: Turn, replies: seq<Reply>)
    requires DecisionIsLast(t)
    ensures DecisionIsLast(Loop(tools, t, replies).0)
    ensures var (t', ending) := Loop(tools, t, replies);
            ending.Returned? ==> ending.response == ResponseFor(t'.decision) && t'.log != [] &&
                                 t'.log[|t'.log| - 1] == TextEntry(ASSISTANT, ending.response.message)
    decreases |replies|
  {
    if StepsLeft(Stepped(t.budget)) && replies != [] && replies[0].Reply? && replies[0].calls != [] && replies[0].stored {
      var t1 := Post(Ask(t), replies[0].calls);
      HandleAllKeepsDecision(tools, t1, replies[0].calls);
      if HandleAll(tools, t1, replies[0].calls).1 {
        LoopKeepsDecision(tools, HandleAll(tools, t1, replies[0].calls).0, replies[1..]);
      }
    }
  }

  // ---------- which calls are handled ----------

  function Calls(handled: seq<Handled>): seq<ToolCall> {
    seq(|handled|, i requires 0 <= i < |handled| => handled[i].call)
  }

  function AllCalls(replies: seq<Reply>): seq<ToolCall> {
    if replies == [] then []
    else (if replies[0].Reply? then replies[0].calls else []) + AllCalls(replies[1..])
  }

  lemma FirstThenRest(before: seq<ToolCall>, calls: seq<ToolCall>)
    requires calls != []
    ensures before + [calls[0]] + calls[1..] == before + calls
  {
  }

  lemma HandleHandles(tools: set<string>, t: Turn, call: ToolCall)
    ensures Calls(Handle(tools, t, call).0.handled) == Calls(t.handled) + [call] && Handle(tools, t, call).0.asked == t.asked
  {
  }

  lemma {:induction false} HandleAllHandles(tools: set<string>, t: Turn, calls: seq<ToolCall>)
    requires HandleAll(tools, t, calls).1
    ensures Calls(HandleAll(tools, t, calls).0.handled) == Calls(t.handled) + calls
    ensures HandleAll(tools, t, calls).0.asked == t.asked
    decreases |calls|
  {
    if calls == [] {
      assert Calls(t.handled) + calls == Calls(t.handled);
    } else {
      HandleHandles(tools, t, calls[0]);
      HandleAllHandles(tools, Handle(tools, t, calls[0]).0, calls[1..]);
      FirstThenRest(Calls(t.handled), calls);
    }
  }

  lemma AllCallsPrefix(before: seq<ToolCall>, replies: seq<Reply>, n: nat)
    requires 0 < n <= |replies| && replies[0].Reply?
    ensures before + AllCalls(replies[..n]) == before + replies[0].calls + AllCalls(replies[1..][..n - 1])
  {
    assert replies[..n][1..] == replies[1..][..n - 1];
    assert AllCalls(replies[..n]) == replies[0].calls + AllCalls(replies[1..][..n - 1]);
  }

  /** What the first reply of a run that returns was, and how the run went on. */
  lemma FirstReply(tools: set<string>, t: Turn, replies: seq<Reply>)
    requires Loop(tools, t, replies).1.Returned?
    ensures replies != [] && replies[0].Reply?
    ensures var t' := Loop(tools, t, replies).0;
            if replies[0].calls == [] then t'.handled == t.handled && |t'.asked| == |t.asked| + 1
            else
              var (t2, ok) := HandleAll(tools, Post(Ask(t), replies[0].calls), replies[0].calls);
              ok && Loop(tools, t, replies) == Loop(tools, t2, replies[1..])
  {
  }

  lemma {:induction false} LoopHandlesAll(tools: set<string>, t: Turn, replies: seq<Reply>)
    requires Loop(tools, t, replies).1.Returned?
    ensures var t' := Loop(tools, t, replies).0;
            |t.asked| < |t'.asked| <= |t.asked| + |replies| &&
            Calls(t'.handled) == Calls(t.handled) + AllCalls(replies[..|t'.asked| - |t.asked|])
    decreases |replies|
  {
    FirstReply(tools, t, replies);
    var t' := Loop(tools, t, replies).0;
    if replies[0].calls == [] {
      AllCallsPrefix(Calls(t.handled), replies, 1);
      assert replies[1..][..0] == [];
      assert Calls(t.handled) + [] + [] == Calls(t.handled);
    } else {
      var t1 := Post(Ask(t), replies[0].calls);
      HandleAllHandles(tools, t1, replies[0].calls);
      LoopHandlesAll(tools, HandleAll(tools, t1, replies[0].calls).0, replies[1..]);
      AllCallsPrefix(Calls(t.handled), replies, |t'.asked| - |t.asked|);
    }
  }

  lemma ResponseMeans(decision: Option<Decision>)
    ensures var r := ResponseFor(decision);
            r.authoritative == decision && r.message == AuthorityMessage(decision) &&
            r.decision == (if decision.None? then "UNKNOWN" else decision.value.result) &&
            r.source == if decision.None? then None else Some("M5_ENGINE")
  {
  }

  lemma BeginHandlesNothing(log: seq<Entry>, prompt: string, query: string, b: Budget, calls: seq<ToolCall>)
    ensures DecisionIsLast(Begin(log, prompt, query, b)) && Calls(Begin(log, prompt, query, b).handled) + calls == calls
  {
  }

  /**
   * A run that returns has handled every call of every reply in order, its decision is what the last evaluation
   * request among them returned if that one succeeded and none otherwise, and the last row of the log is the
   * authority message for that decision.
   */
  lemma LastEvaluationHasAuthority(
      tools: set<string>, log: seq<Entry>, prompt: string, query: string, b: Budget, replies: seq<Reply>)
    requires Run(tools, log, prompt, query, b, replies).1.Returned?
    ensures var (t, ending) := Run(tools, log, prompt, query, b, replies);
            var r := ending.response;
            0 < |t.asked| <= |replies| && Calls(t.handled) == AllCalls(replies[..|t.asked|]) &&
            (forall d :: r.authoritative == Some(d) <==> LastDecided(t.handled, d)) &&
            (r.authoritative.None? ==> r.decision == "UNKNOWN" && r.source == None) &&
            (r.authoritative.Some? ==> r.decision == r.authoritative.value.result && r.source == Some("M5_ENGINE")) &&
            r.message == AuthorityMessage(r.authoritative) &&
            t.log != [] && t.log[|t.log| - 1] == TextEntry(ASSISTANT, r.message)
  {
    var t0 := Begin(log, prompt, query, b);
    var t := Loop(tools, t0, replies).0;
    BeginHandlesNothing(log, prompt, query, b, []);
    LoopKeepsDecision(tools, t0, replies);
    LoopHandlesAll(tools, t0, replies);
    BeginHandlesNothing(log, prompt, query, b, AllCalls(replies[..|t.asked|]));
    ResponseMeans(t.decision);
  }

  /** The student reads one of four texts, and which one depends on the decision alone. */
  predicate SaysVerdict(message: string, decision: Option<Decision>) {
    (message == "You are eligible for the evaluated opportunity." <==>
       decision.Some? && decision.value.result == "ELIGIBLE") &&
    (message == "You are not eligible for the evaluated opportunity." <==>
       decision.Some? && decision.value.result == "NOT_ELIGIBLE") &&
    (message == "Eligibility could not be determined from the authoritative information." <==>
       decision.Some? && decision.value.result == "UNKNOWN") &&
    (message == "Eligibility has not been verified. No authoritative decision is available." <==> decision.None?)
  }

  lemma {:induction false} FourTexts(decision: Option<Decision>)
    requires decision.Some? ==> decision.value.result in RESULTS
    ensures SaysVerdict(AuthorityMessage(decision), decision)
  {
    assert |ELIGIBLE_TEXT| == 47 && |NOT_ELIGIBLE_TEXT| == 51 && |UNKNOWN_TEXT| == 71 && |NO_DECISION| == 74;
    assert "ELIGIBLE"[0] == 'E' && "NOT_ELIGIBLE"[0] == 'N' && "UNKNOWN"[0] == 'U';
  }

  /** The last evaluation that was requested ran and returned this result. */
  predicate LastResult(handled: seq<Handled>, result: string) {
    exists i | 0 <= i < |handled| ::
      handled[i].call.data.name == "evaluate_eligibility" && handled[i].ran && handled[i].call.handler.Returns? &&
      handled[i].call.handler.reading.Valid? && handled[i].call.handler.reading.decision.result == result &&
      forall j | i < j < |handled| :: handled[j].call.data.name != "evaluate_eligibility"
  }

  lemma LastResultIsDecision(handled: seq<Handled>, decision: Option<Decision>, result: string)
    requires forall d :: decision == Some(d) <==> LastDecided(handled, d)
    requires result in RESULTS
    ensures LastResult(handled, result) <==> decision.Some? && decision.value.result == result
    ensures decision.Some? ==> decision.value.result in RESULTS
  {
    if LastResult(handled, result) {
      var i :| 0 <= i < |handled| &&
        handled[i].call.data.name == "evaluate_eligibility" && handled[i].ran && handled[i].call.handler.Returns? &&
        handled[i].call.handler.reading.Valid? && handled[i].call.handler.reading.decision.result == result &&
        forall j | i < j < |handled| :: handled[j].call.data.name != "evaluate_eligibility";
      assert Evaluation(handled[i]) && Decides(handled[i], handled[i].call.handler.reading.decision);
      assert LastDecided(handled, handled[i].call.handler.reading.decision);
    }
    if decision.Some? {
      assert LastDecided(handled, decision.value);
      var i :| 0 <= i < |handled| &&
        Evaluation(handled[i]) && Decides(handled[i], decision.value) && forall j | i < j < |handled| :: !Evaluation(handled[j]);
      assert handled[i].call.handler.reading.decision == decision.value;
      assert LastResult(handled, decision.value.result);
    }
  }

  /** The last row holds the text that is returned, and that text says what was decided. */
  predicate Told(log: seq<Entry>, r: Response) {
    SaysVerdict(r.message, r.authoritative) && log != [] &&
    log[|log| - 1] == Entry(ASSISTANT, Some(r.message), None, None, None) &&
    r.decision == (if r.authoritative.Some? then r.authoritative.value.result else "UNKNOWN")
  }

  lemma ResponseIsTold(
      tools: set<string>, log: seq<Entry>, prompt: string, query: string, b: Budget, replies: seq<Reply>)
    requires Run(tools, log, prompt, query, b, replies).1.Returned?
    ensures var (t, ending) := Run(tools, log, prompt, query, b, replies);
            var decision := ending.response.authoritative;
            Told(t.log, ending.response) && (decision.Some? ==> decision.value.result in RESULTS) &&
            forall result | result in RESULTS ::
              LastResult(t.handled, result) <==> decision.Some? && decision.value.result == result
  {
    LastEvaluationHasAuthority(tools, log, prompt, query, b, replies);
    var (t, ending) := Run(tools, log, prompt, query, b, replies);
    var decision := ending.response.authoritative;
    assert "UNKNOWN" in RESULTS;
    forall result | result in RESULTS
      ensures LastResult(t.handled, result) <==> decision.Some? && decision.value.result == result
      ensures decision.Some? ==> decision.value.result in RESULTS
    {
      LastResultIsDecision(t.handled, decision, result);
    }
    FourTexts(decision);
  }

  /**
   * The student is told to be eligible exactly when the last evaluation requested in this run returned ELIGIBLE,
   * not to be eligible exactly when it returned NOT_ELIGIBLE, and so on; the last row of the log holds the same text.
   */
  lemma StudentIsToldTheVerdict(
      tools: set<string>, log: seq<Entry>, prompt: string, query: string, b: Budget, replies: seq<Reply>)
    requires Run(tools, log, prompt, query, b, replies).1.Returned?
    ensures var (t, ending) := Run(tools, log, prompt, query, b, replies);
            var message := ending.response.message;
            (message == "You are eligible for the evaluated opportunity." <==> LastResult(t.handled, "ELIGIBLE")) &&
            (message == "You are not eligible for the evaluated opportunity." <==> LastResult(t.handled, "NOT_ELIGIBLE")) &&
            (message == "Eligibility could not be determined from the authoritative information." <==>
               LastResult(t.handled, "UNKNOWN")) &&
            (message == "Eligibility has not been verified. No authoritative decision is available." <==>
               !LastResult(t.handled, "ELIGIBLE") && !LastResult(t.handled, "NOT_ELIGIBLE") &&
               !LastResult(t.handled, "UNKNOWN")) &&
            t.log != [] && t.log[|t.log| - 1] == Entry(ASSISTANT, Some(message), None, None, None)
  {
    ResponseIsTold(tools, log, prompt, query, b, replies);
    assert "ELIGIBLE" in RESULTS && "NOT_ELIGIBLE" in RESULTS && "UNKNOWN" in RESULTS;
  }

  /** The prompt only in a new conversation, then the query. */
  function OpeningRows(log: seq<Entry>, prompt: string, query: string): seq<Entry> {
    var user := Entry(USER, Some(query), None, None, None);
    if log == [] then [Entry(SYSTEM, Some(prompt), None, None, None), user] else log + [user]
  }

  lemma RunOpens(tools: set<string>, log: seq<Entry>, prompt: string, query: string, b: Budget, replies: seq<Reply>)
    ensures OpeningRows(log, prompt, query) <= Run(tools, log, prompt, query, b, replies).0.log
  {
    LoopExtends(tools, Begin(log, prompt, query, b), Opening(log, prompt, query), replies);
    assert Opening(log, prompt, query) == OpeningRows(log, prompt, query);
  }

  /** The text for a call whose handler is not run, by what the budget had counted before the call. */
  predicate RefusedWith(tools: set<string>, b: Budget, call: ToolCall, text: string) {
    var name := call.data.name;
    if name !in tools then text == "Error: Tool '" + name + "' not found."
    else if call.normal.None? then text == "Error: Invalid JSON arguments."
    else if b.calls >= b.maxCalls then
      text == "System Error: Maximum tool calls (" + IntText(b.maxCalls) + ") exceeded. Please formulate a final response."
    else
      b.history != [] && b.history[|b.history| - 1] == Signature(name, call.normal.value) &&
      text == "System Error: Duplicate consecutive tool call detected: " + name + " Please formulate a final response."
  }

  /** The text for a call whose handler is run. */
  predicate AnsweredWith(call: ToolCall, text: string) {
    var evaluation := call.data.name == "evaluate_eligibility";
    if call.handler.Fails? then text == call.handler.error
    else if evaluation && call.handler.reading.Invalid? then text == call.handler.reading.error
    else if call.handler.text.None? || (evaluation && call.handler.reading.Valid? && !Known(call.handler.reading.decision)) then
      text == "Error: Internal tool execution failed."
    else call.handler.text == Some(text)
  }

  predicate Known(d: Decision) {
    d.result == "ELIGIBLE" || d.result == "NOT_ELIGIBLE" || d.result == "UNKNOWN"
  }

  lemma HandlerAnswers(decision: Option<Decision>, call: ToolCall)
    ensures AnsweredWith(call, HandlerEffect(decision, call).1)
  {
    assert RESULTS == {"ELIGIBLE", "NOT_ELIGIBLE", "UNKNOWN"};
  }

  lemma ReadableIsRefused(tools: set<string>, b: Budget, call: ToolCall)
    requires call.data.name in tools && call.normal.Some?
    ensures var check := Record(b, Signature(call.data.name, call.normal.value)).1;
            var refusal := Refusal(check, call.data.name, b.maxCalls);
            refusal.Some? ==> RefusedWith(tools, b, call, refusal.value)
  {
  }

  lemma EffectAnswers(tools: set<string>, b: Budget, decision: Option<Decision>, call: ToolCall)
    ensures var e := EffectOf(tools, b, decision, call);
            if e.ran then AnsweredWith(call, e.text) else RefusedWith(tools, b, call, e.text)
  {
    if call.data.name in tools && call.normal.Some? {
      var refusal := Refusal(Record(b, Signature(call.data.name, call.normal.value)).1, call.data.name, b.maxCalls);
      if refusal.None? {
        HandlerAnswers(if call.data.name == EVALUATE then None else decision, call);
      } else {
        ReadableIsRefused(tools, b, call);
      }
    }
  }

  /** The log and the messages get the same answer to each call, whether its handler ran or not. */
  lemma AnswerIsLogged(tools: set<string>, t: Turn, call: ToolCall)
    requires Stored(call)
    ensures var t' := Handle(tools, t, call).0;
            |t'.handled| == |t.handled| + 1 &&
            exists text: string ::
              (if t'.handled[|t.handled|].ran then AnsweredWith(call, text) else RefusedWith(tools, t.budget, call, text)) &&
              t'.log == t.log + [Entry(TOOL, Some(text), Some(call.data.name), Some(call.data.id), None)] &&
              t'.messages == t.messages + [Message(TOOL, Some(text), Some(call.data.name), Some(call.data.id), None)]
  {
    EffectAnswers(tools, t.budget, t.decision, call);
  }

  // ---------- budgets ----------

  function SignatureOf(call: ToolCall): Signature {
    Signature(call.data.name, if call.normal.Some? then call.normal.value else "")
  }

  /** The signatures of the calls whose handler was run, in order. */
  function Ran(handled: seq<Handled>): seq<Signature> {
    if handled == [] then []
    else
      var last := handled[|handled| - 1];
      var front := Ran(handled[..|handled| - 1]);
      if last.ran then front + [SignatureOf(last.call)] else front
  }

  predicate NoneTwiceInARow(history: seq<Signature>) {
    forall i | 0 < i < |history| :: history[i] != history[i - 1]
  }

  function AtLeastZero(n: int): nat {
    if n < 0 then 0 else n
  }

  predicate WithinBudget(t: Turn) {
    t.budget.history == Ran(t.handled) && NoneTwiceInARow(t.budget.history) && |t.budget.history| <= t.budget.calls &&
    |t.budget.history| <= AtLeastZero(t.budget.maxCalls) && |t.asked| <= AtLeastZero(t.budget.maxSteps) &&
    (t.budget.steps == |t.asked| || t.budget.steps == |t.asked| + 1)
  }

  lemma RecordWithinBudget(b: Budget, s: Signature)
    requires NoneTwiceInARow(b.history) && |b.history| <= b.calls && |b.history| <= AtLeastZero(b.maxCalls)
    ensures var (b', check) := Record(b, s);
            SameLimits(b, b') && NoneTwiceInARow(b'.history) && |b'.history| <= b'.calls &&
            |b'.history| <= AtLeastZero(b'.maxCalls) && b'.history == if check == Accepted then b.history + [s] else b.history
  {
  }

  lemma RanAppend(handled: seq<Handled>, h: Handled)
    ensures Ran(handled + [h]) ==
              Ran(handled) + if h.ran then [SignatureOf(h.call)] else []
  {
  }

  predicate Callable(tools: set<string>, call: ToolCall) {
    call.data.name in tools && call.normal.Some?
  }

  lemma EffectRuns(tools: set<string>, b: Budget, decision: Option<Decision>, call: ToolCall)
    ensures EffectOf(tools, b, decision, call).ran <==>
              Callable(tools, call) && b.calls < b.maxCalls &&
              (b.history == [] || b.history[|b.history| - 1] != SignatureOf(call))
  {
  }

  lemma BudgetAfterCounts(tools: set<string>, b: Budget, call: ToolCall)
    ensures var b' := BudgetAfter(tools, b, call);
            b'.maxCalls == b.maxCalls && b'.calls == b.calls + (if Callable(tools, call) then 1 else 0) &&
            b'.history == b.history +
              if Callable(tools, call) && b.calls < b.maxCalls &&
                 (b.history == [] || b.history[|b.history| - 1] != SignatureOf(call)) then [SignatureOf(call)] else []
  {
  }

  lemma HandleWithinBudget(tools: set<string>, t: Turn, call: ToolCall)
    requires WithinBudget(t)
    ensures var t' := Handle(tools, t, call).0;
            WithinBudget(t') && SameLimits(t.budget, t'.budget) && t'.asked == t.asked
  {
    var e := EffectOf(tools, t.budget, t.decision, call);
    RanAppend(t.handled, Handled(call, e.ran));
    EffectRuns(tools, t.budget, t.decision, call);
    EffectBudget(tools, t.budget, t.decision, call);
    BudgetAfterCounts(tools, t.budget, call);
    if Callable(tools, call) {
      RecordWithinBudget(t.budget, SignatureOf(call));
    }
  }

  lemma {:induction false} HandleAllWithinBudget(tools: set<string>, t: Turn, calls: seq<ToolCall>)
    requires WithinBudget(t)
    ensures var t' := HandleAll(tools, t, calls).0;
            WithinBudget(t') && SameLimits(t.budget, t'.budget) && t'.asked == t.asked
    decreases |calls|
  {
    if calls != [] {
      HandleWithinBudget(tools, t, calls[0]);
      HandleAllWithinBudget(tools, Handle(tools, t, calls[0]).0, calls[1..]);
    }
  }

  lemma {:induction false} LoopWithinBudget(tools: set<string>, t: Turn, replies: seq<Reply>)
    requires WithinBudget(t) && t.budget.steps == |t.asked|
    ensures var t' := Loop(tools, t, replies).0;
            WithinBudget(t') && t'.budget.maxCalls == t.budget.maxCalls && t'.budget.maxSteps == t.budget.maxSteps
    decreases |replies|
  {
    if StepsLeft(Stepped(t.budget)) && replies != [] && replies[0].Reply? && replies[0].calls != [] && replies[0].stored {
      var t1 := Post(Ask(t), replies[0].calls);
      HandleAllWithinBudget(tools, t1, replies[0].calls);
      if HandleAll(tools, t1, replies[0].calls).1 {
        LoopWithinBudget(tools, HandleAll(tools, t1, replies[0].calls).0, replies[1..]);
      }
    }
  }

  /** Whatever is configured, a run asks the model at most 20 times and runs at most 10 handlers, none twice in a row. */
  lemma BudgetsHold(
      tools: set<string>, log: seq<Entry>, prompt: string, query: string, callsEnv: int, stepsEnv: int, replies: seq<Reply>)
    ensures var (t, _) := Run(tools, log, prompt, query, NewBudget(None, None, callsEnv, stepsEnv), replies);
            |t.asked| <= AtLeastZero(Min(stepsEnv, 20)) && |Ran(t.handled)| <= AtLeastZero(Min(callsEnv, 10)) &&
            NoneTwiceInARow(Ran(t.handled))
  {
    LoopWithinBudget(tools, Begin(log, prompt, query, NewBudget(None, None, callsEnv, stepsEnv)), replies);
  }

  // ---------- which handlers are run ----------

  /** The calls of known tools with readable arguments, accepted or not. */
  function Attempts(tools: set<string>, handled: seq<Handled>): nat {
    if handled == [] then 0
    else
      Attempts(tools, handled[..|handled| - 1]) + if Callable(tools, handled[|handled| - 1].call) then 1 else 0
  }

  /** There is budget left after the attempts before, and the call does not repeat the one that was run last. */
  predicate MayRun(tools: set<string>, limit: int, before: seq<Handled>, call: ToolCall) {
    Callable(tools, call) && Attempts(tools, before) < limit &&
    (Ran(before) == [] || Ran(before)[|Ran(before)| - 1] != SignatureOf(call))
  }

  predicate RanAsAllowed(tools: set<string>, limit: int, handled: seq<Handled>) {
    forall i | 0 <= i < |handled| :: handled[i].ran <==> MayRun(tools, limit, handled[..i], handled[i].call)
  }

  predicate Counted(tools: set<string>, t: Turn) {
    t.budget.calls == Attempts(tools, t.handled) && t.budget.history == Ran(t.handled) &&
    RanAsAllowed(tools, t.budget.maxCalls, t.handled)
  }

  lemma AllowedAppend(tools: set<string>, limit: int, handled: seq<Handled>, h: Handled)
    requires RanAsAllowed(tools, limit, handled) && (h.ran <==> MayRun(tools, limit, handled, h.call))
    ensures RanAsAllowed(tools, limit, handled + [h])
  {
    var all := handled + [h];
    forall i | 0 <= i < |all| ensures all[i].ran <==> MayRun(tools, limit, all[..i], all[i].call) {
      if i < |handled| {
        assert all[..i] == handled[..i];
      } else {
        assert all[..i] == handled;
      }
    }
  }

  lemma AttemptsAppend(tools: set<string>, handled: seq<Handled>, h: Handled)
    ensures Attempts(tools, handled + [h]) == Attempts(tools, handled) + if Callable(tools, h.call) then 1 else 0
  {
    assert (handled + [h])[..|handled|] == handled;
  }

  lemma HandleCounts(tools: set<string>, t: Turn, call: ToolCall)
    requires Counted(tools, t)
    ensures Counted(tools, Handle(tools, t, call).0) && Handle(tools, t, call).0.budget.maxCalls == t.budget.maxCalls
  {
    var h := Handled(call, EffectOf(tools, t.budget, t.decision, call).ran);
    EffectRuns(tools, t.budget, t.decision, call);
    EffectBudget(tools, t.budget, t.decision, call);
    BudgetAfterCounts(tools, t.budget, call);
    RanAppend(t.handled, h);
    AttemptsAppend(tools, t.handled, h);
    AllowedAppend(tools, t.budget.maxCalls, t.handled, h);
  }

  lemma {:induction false} HandleAllCounts(tools: set<string>, t: Turn, calls: seq<ToolCall>)
    requires Counted(tools, t)
    ensures var t' := HandleAll(tools, t, calls).0; Counted(tools, t') && t'.budget.maxCalls == t.budget.maxCalls
    decreases |calls|
  {
    if calls != [] {
      HandleCounts(tools, t, calls[0]);
      HandleAllCounts(tools, Handle(tools, t, calls[0]).0, calls[1..]);
    }
  }

  lemma {:induction false} LoopCounts(tools: set<string>, t: Turn, replies: seq<Reply>)
    requires Counted(tools, t)
    ensures var t' := Loop(tools, t, replies).0; Counted(tools, t') && t'.budget.maxCalls == t.budget.maxCalls
    decreases |replies|
  {
    if StepsLeft(Stepped(t.budget)) && replies != [] && replies[0].Reply? && replies[0].calls != [] && replies[0].stored {
      var t1 := Post(Ask(t), replies[0].calls);
      HandleAllCounts(tools, t1, replies[0].calls);
      if HandleAll(tools, t1, replies[0].calls).1 {
        LoopCounts(tools, HandleAll(tools, t1, replies[0].calls).0, replies[1..]);
      }
    }
  }

  /**
   * The handler of a call is run exactly when its tool is known, its arguments are JSON, fewer such calls than
   * the limit came before it, and it does not repeat the call that was run last.
   */
  lemma HandlersRunIff(
      tools: set<string>, log: seq<Entry>, prompt: string, query: string, callsEnv: int, stepsEnv: int, replies: seq<Reply>)
    ensures var (t, _) := Run(tools, log, prompt, query, NewBudget(None, None, callsEnv, stepsEnv), replies);
            forall i | 0 <= i < |t.handled| ::
              t.handled[i].ran <==> MayRun(tools, Min(callsEnv, 10), t.handled[..i], t.handled[i].call)
  {
    LoopCounts(tools, Begin(log, prompt, query, NewBudget(None, None, callsEnv, stepsEnv)), replies);
  }

  // ---------- how a run ends ----------

  /** The loop gives up exactly when as many replies as steps are left all ask for calls. */
  lemma {:induction false} LoopGivesUpIff(tools: set<string>, t: Turn, replies: seq<Reply>)
    ensures var left := AtLeastZero(t.budget.maxSteps - t.budget.steps);
            var ending := Loop(tools, t, replies).1;
            (ending == Raised(BudgetExhausted) <==> |replies| >= left && AllContinue(replies, left)) &&
            (ending == Waiting <==> |replies| < left && AllContinue(replies, |replies|))
    decreases |replies|
  {
    var left := AtLeastZero(t.budget.maxSteps - t.budget.steps);
    if StepsLeft(Stepped(t.budget)) && replies != [] {
      AllContinueStep(replies, |replies|);
      if |replies| >= left {
        AllContinueStep(replies, left);
      }
      if replies[0].Reply? && replies[0].calls != [] {
        ExchangeStores(tools, Ask(t), replies[0]);
        var (t1, ok) := Exchange(tools, Ask(t), replies[0]);
        if ok {
          LoopGivesUpIff(tools, t1, replies[1..]);
        }
      }
    }
  }

  /** No run waits for more replies than its steps, and only a run whose model never stops asking for tools is cut off. */
  lemma EveryRunEnds(
      tools: set<string>, log: seq<Entry>, prompt: string, query: string, callsEnv: int, stepsEnv: int, replies: seq<Reply>)
    ensures var limit := AtLeastZero(Min(stepsEnv, 20));
            var ending := Run(tools, log, prompt, query, NewBudget(None, None, callsEnv, stepsEnv), replies).1;
            (|replies| >= limit ==> ending != Waiting) &&
            (ending == Raised(BudgetExhausted) <==> |replies| >= limit && AllContinue(replies, limit))
  {
    LoopGivesUpIff(tools, Begin(log, prompt, query, NewBudget(None, None, callsEnv, stepsEnv)), replies);
  }
}
