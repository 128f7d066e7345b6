/** The durable conversation log: rows numbered within their session, written by any number of writers. */
module Conversation {
  import opened Common

  datatype Role = SYSTEM | USER | ASSISTANT | TOOL

  /** A tool call as the assistant row keeps it in its metadata. */
  datatype CallData = CallData(id: string, kind: string, name: string, arguments: string)

  datatype Entry = Entry(
    role: Role, content: Option<string>, toolName: Option<string>, toolCallId: Option<string>, toolCalls: Option<seq<CallData>>)

  /** Length limit of the two columns with a tool name and a call id. */
  const COLUMN := 100

  predicate Short(text: Option<string>) {
    text.Some? ==> |text.value| <= COLUMN
  }

  predicate Fits(e: Entry) {
    Short(e.toolName) && Short(e.toolCallId)
  }

  /** The table has a unique constraint on session and sequence. */
  datatype Row = Row(session: Id, sequence: int, entry: Entry)

  /** A message dictionary for the model; a key that is absent is None. */
  datatype Message = Message(
    role: Role, content: Option<string>, name: Option<string>, toolCallId: Option<string>, toolCalls: Option<seq<CallData>>)

  /** The student who may use a session. */
  datatype Owner = Owner(tenant: Id, student: Id)

  // ---------- queries ----------

  /** The highest number in a session, 0 when it is empty. */
  function LastSequence(rows: seq<Row>, session: Id): int {
    if rows == [] then 0
    else
      var last := rows[|rows| - 1];
      var best := LastSequence(rows[..|rows| - 1], session);
      if last.session == session && best < last.sequence then last.sequence else best
  }

  predicate Taken(rows: seq<Row>, session: Id, sequence: int) {
    exists r | r in rows :: r.session == session && r.sequence == sequence
  }

  function Place(ordered: seq<Row>, r: Row): seq<Row> {
    if ordered == [] || ordered[|ordered| - 1].sequence <= r.sequence then ordered + [r]
    else Place(ordered[..|ordered| - 1], r) + [ordered[|ordered| - 1]]
  }

  /** The rows of a session, ordered by their numbers. */
  function Ordered(rows: seq<Row>, session: Id): seq<Row> {
    if rows == [] then []
    else
      var last := rows[|rows| - 1];
      var front := Ordered(rows[..|rows| - 1], session);
      if last.session == session then Place(front, last) else front
  }

  function Entries(rows: seq<Row>): seq<Entry> {
    seq(|rows|, i requires 0 <= i < |rows| => rows[i].entry)
  }

  /** What a session says, in order. */
  function Log(rows: seq<Row>, session: Id): seq<Entry> {
    Entries(Ordered(rows, session))
  }

  function Format(e: Entry): Message {
    Message(e.role, e.content, e.toolName, e.toolCallId, e.toolCalls)
  }

  function Transcript(log: seq<Entry>): seq<Message> {
    seq(|log|, i requires 0 <= i < |log| => Format(log[i]))
  }

  // ---------- writers ----------

  /** add_message reads the highest number, then inserts; other writers may come in between. */
  datatype Writer =
    | Opened(session: Id, entry: Entry)
    | Numbered(session: Id, entry: Entry, next: int)
    | Written(session: Id, sequence: int)
    | Collided(session: Id)
    | Rejected(session: Id)
    | Denied

  datatype Machine = Machine(sessions: map<Id, Owner>, rows: seq<Row>, writers: map<nat, Writer>)

  datatype Step =
    | Opens(writer: nat, owner: Owner, session: Id, entry: Entry)
    | Reads(writer: nat)
    | Inserts(writer: nat)

  predicate MayUse(sessions: map<Id, Owner>, owner: Owner, session: Id) {
    session !in sessions || sessions[session] == owner
  }

  function Open(m: Machine, w: nat, owner: Owner, session: Id, entry: Entry): Machine {
    if !MayUse(m.sessions, owner, session) then m.(writers := m.writers[w := Denied])
    else Machine(m.sessions[session := owner], m.rows, m.writers[w := Opened(session, entry)])
  }

  function Insert(m: Machine, w: nat, session: Id, entry: Entry, next: int): Machine {
    if !Fits(entry) then m.(writers := m.writers[w := Rejected(session)])
    else if Taken(m.rows, session, next) then m.(writers := m.writers[w := Collided(session)])
    else m.(rows := m.rows + [Row(session, next, entry)], writers := m.writers[w := Written(session, next)])
  }

  /** A step that is not possible in a state leaves it as it is. */
  function Next(m: Machine, s: Step): Machine {
    match s
    case Opens(w, owner, session, entry) => if w in m.writers then m else Open(m, w, owner, session, entry)
    case Reads(w) =>
      if w in m.writers && m.writers[w].Opened? then
        var Opened(session, entry) := m.writers[w];
        m.(writers := m.writers[w := Numbered(session, entry, LastSequence(m.rows, session) + 1)])
      else m
    case Inserts(w) =>
      if w in m.writers && m.writers[w].Numbered?
      then Insert(m, w, m.writers[w].session, m.writers[w].entry, m.writers[w].next) else m
  }

  function Execution(m: Machine, steps: seq<Step>): Machine
    decreases |steps|
  {
    if steps == [] then m else Execution(Next(m, steps[0]), steps[1..])
  }

  const NEW_MACHINE: Machine := Machine(map[], [], map[])

  ghost predicate Reachable(m: Machine) {
    exists steps :: Execution(NEW_MACHINE, steps) == m
  }

  // ---------- what every interleaving keeps ----------

  /** The numbers of a session are exactly 1 to n. */
  predicate GapFree(rows: seq<Row>, session: Id) {
    var rs := Ordered(rows, session);
    forall i | 0 <= i < |rs| :: rs[i].sequence == i + 1
  }

  predicate WriterOk(rows: seq<Row>, w: Writer) {
    match w
    case Numbered(session, _, next) => 1 <= next <= |Ordered(rows, session)| + 1
    case Written(session, sequence) => 1 <= sequence <= |Ordered(rows, session)|
    case _ => true
  }

  ghost predicate Inv(m: Machine) {
    (forall session :: GapFree(m.rows, session)) &&
    (forall w | w in m.writers :: WriterOk(m.rows, m.writers[w]))
  }

  lemma {:induction false} PlaceElements(ordered: seq<Row>, r: Row)
    ensures forall x :: x in Place(ordered, r) <==> x in ordered || x == r
  {
    if ordered != [] {
      var n := |ordered| - 1;
      assert ordered == ordered[..n] + [ordered[n]];
      PlaceElements(ordered[..n], r);
    }
  }

  lemma {:induction false} OrderedElements(rows: seq<Row>, session: Id)
    ensures forall r :: r in Ordered(rows, session) <==> r in rows && r.session == session
  {
    if rows != [] {
      var n := |rows| - 1;
      assert rows == rows[..n] + [rows[n]];
      OrderedElements(rows[..n], session);
      PlaceElements(Ordered(rows[..n], session), rows[n]);
    }
  }

  lemma {:induction false} LastSequenceMeaning(rows: seq<Row>, session: Id)
    ensures forall r | r in rows && r.session == session :: r.sequence <= LastSequence(rows, session)
    ensures LastSequence(rows, session) == 0 || Taken(rows, session, LastSequence(rows, session))
  {
    if rows != [] {
      var n := |rows| - 1;
      assert rows == rows[..n] + [rows[n]];
      LastSequenceMeaning(rows[..n], session);
    }
  }

  /** Without gaps the highest number is the number of rows, and the numbers taken are those up to it. */
  lemma GapFreeMeaning(rows: seq<Row>, session: Id)
    requires GapFree(rows, session)
    ensures LastSequence(rows, session) == |Ordered(rows, session)|
    ensures forall k :: Taken(rows, session, k) <==> 1 <= k <= |Ordered(rows, session)|
  {
    var rs := Ordered(rows, session);
    OrderedElements(rows, session);
    forall k ensures Taken(rows, session, k) <==> 1 <= k <= |rs| {
      if 1 <= k <= |rs| {
        assert rs[k - 1] in rs;
      } else {
        assert forall r | r in rows && r.session == session :: r in rs && 1 <= r.sequence <= |rs|;
      }
    }
    LastSequenceMeaning(rows, session);
    if rs != [] {
      assert rs[|rs| - 1] in rs;
    }
  }

  lemma OrderedAppend(rows: seq<Row>, r: Row, session: Id)
    ensures Ordered(rows + [r], session) ==
              if r.session == session then Place(Ordered(rows, session), r) else Ordered(rows, session)
  {
  }

  lemma LastOrdered(rows: seq<Row>, session: Id)
    ensures var rs := Ordered(rows, session); rs != [] ==> rs[|rs| - 1].sequence <= LastSequence(rows, session)
  {
    OrderedElements(rows, session);
    LastSequenceMeaning(rows, session);
    var rs := Ordered(rows, session);
    assert rs != [] ==> rs[|rs| - 1] in rs;
  }

  /** A number above all others comes last. */
  lemma AppendIsLast(rows: seq<Row>, session: Id, e: Entry)
    ensures Ordered(rows + [Row(session, LastSequence(rows, session) + 1, e)], session) ==
              Ordered(rows, session) + [Row(session, LastSequence(rows, session) + 1, e)]
    ensures Log(rows + [Row(session, LastSequence(rows, session) + 1, e)], session) == Log(rows, session) + [e]
  {
    var r := Row(session, LastSequence(rows, session) + 1, e);
    var rs := Ordered(rows, session);
    OrderedAppend(rows, r, session);
    LastOrdered(rows, session);
    assert Place(rs, r) == rs + [r];
    assert Entries(rs + [r]) == Entries(rs) + [e];
  }

  /** The number a writer read is either still the next one or taken by now; it never skips one. */
  lemma StaleInsertCollides(m: Machine, w: nat)
    requires Inv(m) && w in m.writers && m.writers[w].Numbered?
    ensures var Numbered(session, _, next) := m.writers[w];
            Taken(m.rows, session, next) <==> next != LastSequence(m.rows, session) + 1
  {
    assert WriterOk(m.rows, m.writers[w]);
    GapFreeMeaning(m.rows, m.writers[w].session);
  }

  lemma AppendHere(rows: seq<Row>, r: Row)
    requires GapFree(rows, r.session) && r.sequence == LastSequence(rows, r.session) + 1
    ensures GapFree(rows + [r], r.session)
    ensures |Ordered(rows + [r], r.session)| == |Ordered(rows, r.session)| + 1 == r.sequence
  {
    GapFreeMeaning(rows, r.session);
    AppendIsLast(rows, r.session, r.entry);
    assert Ordered(rows + [r], r.session) == Ordered(rows, r.session) + [r];
  }

  lemma AppendKeepsNumbers(rows: seq<Row>, r: Row, session: Id)
    requires GapFree(rows, session) && r.sequence == LastSequence(rows, r.session) + 1
    ensures GapFree(rows + [r], session) && |Ordered(rows, session)| <= |Ordered(rows + [r], session)|
  {
    if session == r.session {
      AppendHere(rows, r);
    } else {
      OrderedAppend(rows, r, session);
    }
  }

  lemma WriterStaysOk(rows: seq<Row>, r: Row, w: Writer)
    requires forall session :: |Ordered(rows, session)| <= |Ordered(rows + [r], session)|
    requires WriterOk(rows, w)
    ensures WriterOk(rows + [r], w)
  {
  }

  lemma AppendKeepsSessions(rows: seq<Row>, r: Row)
    requires forall session :: GapFree(rows, session)
    requires r.sequence == LastSequence(rows, r.session) + 1
    ensures forall session :: GapFree(rows + [r], session) && |Ordered(rows, session)| <= |Ordered(rows + [r], session)|
  {
    forall session ensures GapFree(rows + [r], session) && |Ordered(rows, session)| <= |Ordered(rows + [r], session)| {
      AppendKeepsNumbers(rows, r, session);
    }
  }

  lemma InsertKeepsWriters(m: Machine, w: nat, r: Row)
    requires r.sequence == LastSequence(m.rows, r.session) + 1 && GapFree(m.rows, r.session)
    requires forall session :: |Ordered(m.rows, session)| <= |Ordered(m.rows + [r], session)|
    requires forall x | x in m.writers :: WriterOk(m.rows, m.writers[x])
    ensures var writers := m.writers[w := Written(r.session, r.sequence)];
            forall x | x in writers :: WriterOk(m.rows + [r], writers[x])
  {
    AppendHere(m.rows, r);
    forall x | x in m.writers ensures WriterOk(m.rows + [r], m.writers[x]) {
      WriterStaysOk(m.rows, r, m.writers[x]);
    }
  }

  lemma InsertKeepsInv(m: Machine, w: nat)
    requires Inv(m) && w in m.writers && m.writers[w].Numbered?
    ensures Inv(Next(m, Inserts(w)))
  {
    var Numbered(session, entry, next) := m.writers[w];
    StaleInsertCollides(m, w);
    if Fits(entry) && !Taken(m.rows, session, next) {
      AppendKeepsSessions(m.rows, Row(session, next, entry));
      InsertKeepsWriters(m, w, Row(session, next, entry));
    }
  }

  lemma NextKeepsInv(m: Machine, s: Step)
    requires Inv(m)
    ensures Inv(Next(m, s))
  {
    match s
    case Opens(_, _, _, _) =>
    case Reads(w) =>
      if w in m.writers && m.writers[w].Opened? {
        GapFreeMeaning(m.rows, m.writers[w].session);
      }
    case Inserts(w) =>
      if w in m.writers && m.writers[w].Numbered? {
        InsertKeepsInv(m, w);
      }
  }

  lemma {:induction false} ExecutionKeepsInv(m: Machine, steps: seq<Step>)
    requires Inv(m)
    ensures Inv(Execution(m, steps))
    decreases |steps|
  {
    if steps != [] {
      NextKeepsInv(m, steps[0]);
      ExecutionKeepsInv(Next(m, steps[0]), steps[1..]);
    }
  }

  lemma ReachableIsSound(m: Machine)
    requires Reachable(m)
    ensures Inv(m)
  {
    var steps :| Execution(NEW_MACHINE, steps) == m;
    ExecutionKeepsInv(NEW_MACHINE, steps);
  }

  /**
   * Whatever the interleaving, the numbers of a session are exactly 1 to n, and an insert goes through if and
   * only if its texts fit their columns and no other writer has taken the number it read.
   */
  lemma LogIsGapFree(m: Machine, session: Id)
    requires Reachable(m)
    ensures GapFree(m.rows, session)
    ensures forall k :: Taken(m.rows, session, k) <==> 1 <= k <= |Ordered(m.rows, session)|
    ensures forall w | w in m.writers && m.writers[w].Numbered? ::
              Next(m, Inserts(w)).writers[w].Written? <==>
              Fits(m.writers[w].entry) && m.writers[w].next == LastSequence(m.rows, m.writers[w].session) + 1
  {
    ReachableIsSound(m);
    GapFreeMeaning(m.rows, session);
    forall w | w in m.writers && m.writers[w].Numbered?
      ensures Next(m, Inserts(w)).writers[w].Written? <==>
              Fits(m.writers[w].entry) && m.writers[w].next == LastSequence(m.rows, m.writers[w].session) + 1
    {
      StaleInsertCollides(m, w);
    }
  }

  /** Of the writers that read one number, at most one keeps it: the row of the other never appears. */
  lemma OneRowPerNumber(m: Machine, a: Row, b: Row)
    requires Reachable(m) && a in m.rows && b in m.rows && a.session == b.session && a.sequence == b.sequence
    ensures a == b
  {
    ReachableIsSound(m);
    assert GapFree(m.rows, a.session);
    OrderedElements(m.rows, a.session);
    var rs := Ordered(m.rows, a.session);
    assert rs[a.sequence - 1] == a && rs[b.sequence - 1] == b;
  }

  // ---------- owners ----------

  lemma NextKeepsOwner(m: Machine, s: Step, session: Id)
    requires session in m.sessions
    ensures session in Next(m, s).sessions && Next(m, s).sessions[session] == m.sessions[session]
  {
  }

  lemma {:induction false} OwnerStays(m: Machine, steps: seq<Step>, session: Id)
    requires session in m.sessions
    ensures var m' := Execution(m, steps); session in m'.sessions && m'.sessions[session] == m.sessions[session]
    decreases |steps|
  {
    if steps != [] {
      NextKeepsOwner(m, steps[0], session);
      OwnerStays(Next(m, steps[0]), steps[1..], session);
    }
  }

  /**
   * A session belongs to the student who opened it first, whatever happens later: after any run the same student
   * is let in, everyone else is denied, and opening it writes nothing.
   */
  lemma SessionKeepsItsOwner(m: Machine, steps: seq<Step>, w: nat, owner: Owner, session: Id, entry: Entry)
    requires session in m.sessions && w !in Execution(m, steps).writers
    ensures var m1 := Execution(m, steps);
            var m2 := Next(m1, Opens(w, owner, session, entry));
            m2.rows == m1.rows && m2.sessions == m1.sessions && w in m2.writers &&
            m2.writers[w] == if owner == m.sessions[session] then Opened(session, entry) else Denied
  {
    OwnerStays(m, steps, session);
    var m1 := Execution(m, steps);
    assert m1.sessions[session := m.sessions[session]] == m1.sessions;
  }
}

/** The memory of one caller as it changes the tables. */
module MemoryStore {
  import opened Common
  import opened Conversation

  class ConversationMemory {
    /** The student behind the principal, when there is an active one. */
    const owner: Option<Owner>
    var sessions: map<Id, Owner>
    var rows: seq<Row>

    constructor (owner: Option<Owner>, sessions: map<Id, Owner>, rows: seq<Row>)
      ensures this.owner == owner && this.sessions == sessions && this.rows == rows
    {
      this.owner, this.sessions, this.rows := owner, sessions, rows;
    }

    predicate Allowed(session: Id)
      reads this
    {
      owner.Some? && MayUse(sessions, owner.value, session)
    }

    method GetOrCreateSession(session: Id) returns (ok: bool)
      modifies this`sessions
      ensures ok == old(Allowed(session))
      ensures ok <==> owner.Some? && (session in old(sessions) ==> old(sessions)[session] == owner.value)
      ensures sessions == if ok then old(sessions)[session := owner.value] else old(sessions)
    {
      if owner.None? {
        return false;
      }
      if session in sessions {
        return sessions[session] == owner.value;
      }
      sessions := sessions[session := owner.value];
      ok := true;
    }

    /** `stored` says whether the database takes a row that fits; with no other writer the number is free. */
    method AddMessage(session: Id, e: Entry, stored: bool) returns (ok: bool)
      modifies this`sessions, this`rows
      ensures ok <==> old(Allowed(session)) && stored && (e.toolName.Some? ==> |e.toolName.value| <= 100) &&
                      (e.toolCallId.Some? ==> |e.toolCallId.value| <= 100)
      ensures old(Allowed(session)) <==> owner.Some? && (session in old(sessions) ==> old(sessions)[session] == owner.value)
      ensures rows == if ok then old(rows) + [Row(session, LastSequence(old(rows), session) + 1, e)] else old(rows)
      ensures Log(rows, session) == if ok then Log(old(rows), session) + [e] else Log(old(rows), session)
      ensures sessions == if old(Allowed(session)) then old(sessions)[session := owner.value] else old(sessions)
    {
      var allowed := GetOrCreateSession(session);
      if !allowed || !stored || !Fits(e) {
        return false;
      }
      var next := LastSequence(rows, session) + 1;
      AppendIsLast(rows, session, e);
      rows := rows + [Row(session, next, e)];
      ok := true;
    }

    method GetMessages(session: Id) returns (ok: bool, formatted: seq<Message>)
      modifies this`sessions
      ensures ok == old(Allowed(session))
      ensures ok <==> owner.Some? && (session in old(sessions) ==> old(sessions)[session] == owner.value)
      ensures ok ==> formatted == Transcript(Log(rows, session))
      ensures ok ==> |formatted| == |Log(rows, session)| &&
                     forall k | 0 <= k < |formatted| ::
                       var e := Log(rows, session)[k];
                       formatted[k] == Message(e.role, e.content, e.toolName, e.toolCallId, e.toolCalls)
      ensures sessions == if ok then old(sessions)[session := owner.value] else old(sessions)
    {
      formatted := [];
      ok := GetOrCreateSession(session);
      if !ok {
        return;
      }
      var messages := Ordered(rows, session);
      for k := 0 to |messages|
        invariant formatted == Transcript(Entries(messages[..k]))
      {
        var m := messages[k].entry;
        var msg := Message(m.role, None, None, None, None);
        if m.content.Some? {
          msg := msg.(content := m.content);
        }
        if m.toolName.Some? {
          msg := msg.(name := m.toolName);
        }
        if m.toolCallId.Some? {
          msg := msg.(toolCallId := m.toolCallId);
        }
        if m.toolCalls.Some? {
          msg := msg.(toolCalls := m.toolCalls);
        }
        formatted := formatted + [msg];
      }
    }
  }

  function AddAlone(w: nat, owner: Owner, session: Id, e: Entry): seq<Step> {
    [Opens(w, owner, session, e), Reads(w), Inserts(w)]
  }

  /** A writer that nobody interrupts writes the row AddMessage writes, or none if the entry does not fit. */
  lemma AloneAddsTheRow(m: Machine, w: nat, owner: Owner, session: Id, e: Entry)
    requires w !in m.writers && MayUse(m.sessions, owner, session)
    ensures Execution(m, AddAlone(w, owner, session, e)).rows ==
              if Fits(e) then m.rows + [Row(session, LastSequence(m.rows, session) + 1, e)] else m.rows
    ensures Execution(m, AddAlone(w, owner, session, e)).sessions == m.sessions[session := owner]
  {
    var s := AddAlone(w, owner, session, e);
    var m1 := Next(m, s[0]);
    var m2 := Next(m1, s[1]);
    var m3 := Next(m2, s[2]);
    LastSequenceMeaning(m.rows, session);
    assert m1.writers[w] == Opened(session, e) && m2.writers[w] == Numbered(session, e, LastSequence(m.rows, session) + 1);
    assert s[1..][1..] == [s[2]] && [s[2]][1..] == [];
    assert Execution(m, s) == Execution(m1, s[1..]) == Execution(m2, [s[2]]) == Execution(m3, []) == m3;
  }
}
