/**
 * Binding revisions and their events for one tenant: the tables with the triggers and constraints that guard
 * them, and the service that checks the same rules once more before it inserts.
 */
module Bindings {
  import opened Common

  datatype State = PROPOSED | APPROVED | REVOKED

  datatype Source = Source(id: Id, document: Id, hash: string)

  datatype Binding = Binding(
    id: Id, source: Id, policy: Id, revision: int, previous: Option<Id>, hash: string, reason: string, actor: Id, request: Id)

  datatype Event = Event(binding: Id, sequence: int, status: State, hash: string, reason: string, actor: Id, request: Id)

  /** The events of a binding are kept apart from it; rows are only ever added. */
  datatype Tables = Tables(
    users: set<Id>, documents: map<Id, string>, policies: set<Id>, sources: seq<Source>, bindings: seq<Binding>, events: seq<Event>)

  const LONGEST_REASON := 1000

  // ---------- queries ----------

  function SourceOf(sources: seq<Source>, document: Id): (r: Option<Source>)
    ensures r.Some? ==> r.value in sources && r.value.document == document
    ensures r.None? ==> forall x | x in sources :: x.document != document
  {
    if sources == [] then None
    else if sources[0].document == document then Some(sources[0])
    else SourceOf(sources[1..], document)
  }

  function SourceRow(sources: seq<Source>, id: Id): (r: Option<Source>)
    ensures r.Some? ==> r.value in sources && r.value.id == id
    ensures r.None? ==> forall x | x in sources :: x.id != id
  {
    if sources == [] then None
    else if sources[0].id == id then Some(sources[0])
    else SourceRow(sources[1..], id)
  }

  function BindingRow(bindings: seq<Binding>, id: Id): (r: Option<Binding>)
    ensures r.Some? ==> r.value in bindings && r.value.id == id
    ensures r.None? ==> forall x | x in bindings :: x.id != id
  {
    if bindings == [] then None
    else if bindings[0].id == id then Some(bindings[0])
    else BindingRow(bindings[1..], id)
  }

  function ProposalRequest(bindings: seq<Binding>, request: Id): (r: Option<Binding>)
    ensures r.Some? ==> r.value in bindings && r.value.request == request
    ensures r.None? ==> forall x | x in bindings :: x.request != request
  {
    if bindings == [] then None
    else if bindings[0].request == request then Some(bindings[0])
    else ProposalRequest(bindings[1..], request)
  }

  function EventRequest(events: seq<Event>, request: Id): (r: Option<Event>)
    ensures r.Some? ==> r.value in events && r.value.request == request
    ensures r.None? ==> forall x | x in events :: x.request != request
  {
    if events == [] then None
    else if events[0].request == request then Some(events[0])
    else EventRequest(events[1..], request)
  }

  /** The highest revision of a source for a policy version. */
  function LatestRevision(bindings: seq<Binding>, source: Id, policy: Id): Option<Binding> {
    if bindings == [] then None
    else
      var last := bindings[|bindings| - 1];
      var best := LatestRevision(bindings[..|bindings| - 1], source, policy);
      if last.source == source && last.policy == policy && (best.None? || best.value.revision < last.revision) then Some(last)
      else best
  }

  function InSequence(ordered: seq<Event>, e: Event): seq<Event> {
    if ordered == [] || ordered[|ordered| - 1].sequence <= e.sequence then ordered + [e]
    else InSequence(ordered[..|ordered| - 1], e) + [ordered[|ordered| - 1]]
  }

  /** The events of a binding, ordered by sequence. */
  function History(events: seq<Event>, binding: Id): seq<Event> {
    if events == [] then []
    else
      var last := events[|events| - 1];
      var front := History(events[..|events| - 1], binding);
      if last.binding == binding then InSequence(front, last) else front
  }

  function MaxSequence(events: seq<Event>, binding: Id): int {
    if events == [] then 0
    else
      var last := events[|events| - 1];
      var best := MaxSequence(events[..|events| - 1], binding);
      if last.binding == binding && best < last.sequence then last.sequence else best
  }

  // ---------- guards of the database ----------

  /** PostgreSQL has no text with a zero character. */
  predicate NoNul(s: string) {
    forall i | 0 <= i < |s| :: s[i] != '\0'
  }

  predicate ReasonColumn(reason: string) {
    !OnlyBlanks(reason) && |reason| <= LONGEST_REASON && NoNul(reason)
  }

  predicate SequenceState(sequence: int, status: State) {
    (sequence == 1 && status == PROPOSED) || (sequence == 2 && status == APPROVED) || (sequence == 3 && status == REVOKED)
  }

  /** The status of the latest event, when there is one. */
  function LatestStatus(events: seq<Event>, binding: Id): Option<State> {
    var h := History(events, binding);
    if h == [] then None else Some(h[|h| - 1].status)
  }

  predicate SourceGuard(t: Tables, row: Binding) {
    var source := SourceRow(t.sources, row.source);
    source.Some? && source.value.hash == row.hash &&
    source.value.document in t.documents && t.documents[source.value.document] == row.hash
  }

  predicate PredecessorGuard(t: Tables, row: Binding) {
    match LatestRevision(t.bindings, row.source, row.policy)
    case None => row.revision == 1 && row.previous == None
    case Some(prior) =>
      LatestStatus(t.events, prior.id) == Some(REVOKED) && row.revision == prior.revision + 1 && row.previous == Some(prior.id)
  }

  predicate BindingConstraints(t: Tables, row: Binding) {
    row.policy in t.policies && row.actor in t.users && row.revision > 0 && ReasonColumn(row.reason) &&
    (row.previous.Some? ==> BindingRow(t.bindings, row.previous.value).Some?) &&
    (forall b | b in t.bindings ::
       b.id != row.id && b.request != row.request &&
       !(b.source == row.source && b.policy == row.policy && b.revision == row.revision))
  }

  predicate EventGuard(t: Tables, row: Event) {
    var binding := BindingRow(t.bindings, row.binding);
    binding.Some? && row.hash == binding.value.hash &&
    row.sequence == MaxSequence(t.events, row.binding) + 1 && row.sequence <= 3 &&
    (row.sequence == 1 ==>
       row.actor == binding.value.actor && row.request == binding.value.request && row.reason == binding.value.reason)
  }

  predicate EventConstraints(t: Tables, row: Event) {
    SequenceState(row.sequence, row.status) && row.actor in t.users && ReasonColumn(row.reason) &&
    (forall e | e in t.events :: e.request != row.request && !(e.binding == row.binding && e.sequence == row.sequence))
  }

  function InsertEvent(t: Tables, row: Event): Option<Tables> {
    if EventGuard(t, row) && EventConstraints(t, row) then Some(t.(events := t.events + [row])) else None
  }

  function FirstEvent(b: Binding): Event {
    Event(b.id, 1, PROPOSED, b.hash, b.reason, b.actor, b.request)
  }

  /** A trigger adds the first event in the same statement, so a refused event refuses the revision. */
  function InsertRevision(t: Tables, row: Binding): Option<Tables> {
    if SourceGuard(t, row) && PredecessorGuard(t, row) && BindingConstraints(t, row)
    then InsertEvent(t.(bindings := t.bindings + [row]), FirstEvent(row))
    else None
  }

  /** A source is recorded once for a document, with the hash the document has at that time. */
  function InsertSource(t: Tables, row: Source): Option<Tables> {
    if row.document in t.documents && t.documents[row.document] == row.hash &&
       (forall s | s in t.sources :: s.id != row.id && s.document != row.document)
    then Some(t.(sources := t.sources + [row]))
    else None
  }

  // ---------- the service ----------

  datatype Principal = Principal(staff: bool, actor: Id)

  datatype Failure =
    | Forbidden | InvalidReason | PolicyNotFound | SourceNotFound | SourceUnavailable | SourceMismatch | StoreFailure
    | IdempotencyConflict | RevisionStillOpen | BindingNotFound | HistoryInvalid | InvalidTransition | DatabaseRefusal

  datatype View = View(binding: Binding, history: seq<Event>) {
    function Current(): State
      requires history != []
    {
      history[|history| - 1].status
    }
  }

  datatype Reply = Viewed(view: View) | Refused(failure: Failure)

  datatype Call =
    | Propose(who: Principal, request: Id, reason: string, document: Id, policy: Id)
    | Move(who: Principal, request: Id, reason: string, binding: Id, target: State)

  /** What a call meets outside the tables: whether the stored bytes verify, and the id drawn for a new row. */
  datatype Surroundings = Surroundings(readable: bool, newId: Id)

  /** What str.strip removes. */
  predicate IsSpace(c: char) {
    var n := c as int;
    9 <= n <= 13 || 28 <= n <= 32 || n == 0x85 || n == 0xA0 || n == 0x1680 || 0x2000 <= n <= 0x200A ||
    n == 0x2028 || n == 0x2029 || n == 0x202F || n == 0x205F || n == 0x3000
  }

  predicate ValidReason(reason: string) {
    !(forall i | 0 <= i < |reason| :: IsSpace(reason[i])) && |reason| <= LONGEST_REASON
  }

  predicate ValidTransition(current: State, target: State) {
    (current == PROPOSED && target == APPROVED) || (current == APPROVED && target == REVOKED)
  }

  function ViewOf(t: Tables, b: Binding): (r: Reply)
    ensures r.Viewed? ==> r.view.history != []
  {
    var h := History(t.events, b.id);
    if h == [] then Refused(HistoryInvalid) else Viewed(View(b, h))
  }

  /** The failure of reading the source of a document for review. */
  function ReadFailure(t: Tables, document: Id, readable: bool): Option<Failure> {
    if document !in t.documents then Some(SourceNotFound)
    else
      match SourceOf(t.sources, document)
      case None => Some(SourceUnavailable)
      case Some(source) =>
        if source.hash != t.documents[document] then Some(SourceMismatch)
        else if !readable then Some(StoreFailure)
        else None
  }

  function RevisionFor(source: Source, policy: Id, previous: Option<Binding>, call: Call, newId: Id): Binding {
    var revision := if previous.None? then 1 else previous.value.revision + 1;
    var link := if previous.None? then None else Some(previous.value.id);
    Binding(newId, source.id, policy, revision, link, source.hash, call.reason, call.who.actor, call.request)
  }

  function EventFor(b: Binding, h: seq<Event>, call: Call): Event
    requires call.Move?
  {
    Event(b.id, |h| + 1, call.target, b.hash, call.reason, call.who.actor, call.request)
  }

  /** What the service checks of a new request: the predecessor, if any, must be revoked. */
  function StillOpen(t: Tables, previous: Option<Binding>): Option<Failure> {
    match previous
    case None => None
    case Some(b) =>
      match ViewOf(t, b)
      case Refused(f) => Some(f)
      case Viewed(view) => if view.Current() == REVOKED then None else Some(RevisionStillOpen)
  }

  function NewRevision(t: Tables, call: Call, source: Source, newId: Id): (Tables, Reply)
    requires call.Propose?
  {
    var previous := LatestRevision(t.bindings, source.id, call.policy);
    var open := StillOpen(t, previous);
    if open.Some? then (t, Refused(open.value))
    else
      var row := RevisionFor(source, call.policy, previous, call, newId);
      match InsertRevision(t, row)
      case None => (t, Refused(DatabaseRefusal))
      case Some(t') => (t', ViewOf(t', row))
  }

  function ProposeRevision(t: Tables, call: Call, s: Surroundings): (Tables, Reply)
    requires call.Propose?
  {
    if !call.who.staff then (t, Refused(Forbidden))
    else if !ValidReason(call.reason) then (t, Refused(InvalidReason))
    else if call.policy !in t.policies then (t, Refused(PolicyNotFound))
    else
      var unreadable := ReadFailure(t, call.document, s.readable);
      if unreadable.Some? then (t, Refused(unreadable.value))
      else
        var source := SourceOf(t.sources, call.document).value;
        match ProposalRequest(t.bindings, call.request)
        case None => NewRevision(t, call, source, s.newId)
        case Some(b) =>
          if b.source != source.id || b.policy != call.policy || b.actor != call.who.actor || b.reason != call.reason
          then (t, Refused(IdempotencyConflict))
          else (t, ViewOf(t, b))
  }

  /** Approval reads the source once more; revocation does not need it. */
  function ApprovalFailure(t: Tables, b: Binding, readable: bool): Option<Failure> {
    match SourceRow(t.sources, b.source)
    case None => Some(SourceUnavailable)
    case Some(source) =>
      var unreadable := ReadFailure(t, source.document, readable);
      if unreadable.Some? then unreadable
      else if SourceOf(t.sources, source.document).value.hash != b.hash then Some(SourceMismatch)
      else None
  }

  function NewEvent(t: Tables, call: Call, b: Binding, h: seq<Event>, readable: bool): (Tables, Reply)
    requires call.Move? && h != []
  {
    if !ValidTransition(h[|h| - 1].status, call.target) then (t, Refused(InvalidTransition))
    else
      var failure := if call.target == APPROVED then ApprovalFailure(t, b, readable) else None;
      if failure.Some? then (t, Refused(failure.value))
      else
        match InsertEvent(t, EventFor(b, h, call))
        case None => (t, Refused(DatabaseRefusal))
        case Some(t') => (t', ViewOf(t', b))
  }

  predicate SameMove(e: Event, call: Call)
    requires call.Move?
  {
    e.binding == call.binding && e.status == call.target && e.actor == call.who.actor && e.reason == call.reason
  }

  function MoveBinding(t: Tables, call: Call, s: Surroundings): (Tables, Reply)
    requires call.Move?
  {
    if !call.who.staff then (t, Refused(Forbidden))
    else if !ValidReason(call.reason) then (t, Refused(InvalidReason))
    else
      match BindingRow(t.bindings, call.binding)
      case None => (t, Refused(BindingNotFound))
      case Some(b) =>
        match ViewOf(t, b)
        case Refused(f) => (t, Refused(f))
        case Viewed(view) =>
          match EventRequest(t.events, call.request)
          case Some(e) => (t, if SameMove(e, call) then Viewed(view) else Refused(IdempotencyConflict))
          case None => NewEvent(t, call, b, view.history, s.readable)
  }

  function Perform(t: Tables, call: Call, s: Surroundings): (Tables, Reply) {
    match call
    case Propose(_, _, _, _, _) => ProposeRevision(t, call, s)
    case Move(_, _, _, _, _) => MoveBinding(t, call, s)
  }

  // ---------- runs ----------

  /** Besides calls of the service, any other client may insert rows; the guards see those as well. */
  datatype Step =
    | Issue(call: Call, surroundings: Surroundings)
    | RawRevision(revision: Binding)
    | RawEvent(event: Event)
    | ImportSource(source: Source)
    | SetDocument(document: Id, hash: string)
    | AddPolicy(policy: Id)
    | AddUser(user: Id)

  function OrUnchanged(t: Tables, result: Option<Tables>): Tables {
    if result.Some? then result.value else t
  }

  function Next(t: Tables, s: Step): Tables {
    match s
    case Issue(call, surroundings) => Perform(t, call, surroundings).0
    case RawRevision(row) => OrUnchanged(t, InsertRevision(t, row))
    case RawEvent(row) => OrUnchanged(t, InsertEvent(t, row))
    case ImportSource(row) => OrUnchanged(t, InsertSource(t, row))
    case SetDocument(document, hash) => t.(documents := t.documents[document := hash])
    case AddPolicy(policy) => t.(policies := t.policies + {policy})
    case AddUser(user) => t.(users := t.users + {user})
  }

  function Execution(t: Tables, steps: seq<Step>): Tables
    decreases |steps|
  {
    if steps == [] then t else Execution(Next(t, steps[0]), steps[1..])
  }

  const EMPTY: Tables := Tables({}, map[], {}, [], [], [])
}
