/** The service as it changes the tables. */
module BindingStore {
  import opened Common
  import opened Bindings
  import opened BindingLifecycle

  lemma EventKept(t: Tables, row: Event)
    ensures Inv(t) ==> Inv(OrUnchanged(t, InsertEvent(t, row)))
  {
    if Inv(t) {
      EventKeepsInv(t, row);
    }
  }

  lemma RevisionKept(t: Tables, row: Binding)
    ensures Inv(t) ==> Inv(OrUnchanged(t, InsertRevision(t, row)))
  {
    if Inv(t) {
      RevisionKeepsInv(t, row);
    }
  }

  lemma CallSettles(t: Tables, call: Call, s: Surroundings)
    ensures var (t', reply) := Perform(t, call, s); Inv(t) ==> forall later :: Settled(t, call, t', reply, later)
  {
    if Inv(t) {
      var (t', reply) := Perform(t, call, s);
      forall later ensures Settled(t, call, t', reply, later) {
        PerformSettles(t, call, s, later);
      }
    }
  }

  /** What the caller may rely on: nothing is written, and hardly anything answered, on bytes that do not verify. */
  predicate ReadsFirst(t: Tables, call: Call, t': Tables, reply: Reply, readable: bool) {
    (t' != t || (call.Propose? && reply.Viewed?) ==>
       readable &&
       match call
       case Propose(_, _, _, document, _) => Unchanged(t, document)
       case Move(_, _, _, binding, _) =>
         exists b, x | b in t.bindings && x in t.sources ::
           b.id == binding && x.id == b.source && Unchanged(t, x.document)) &&
    (!readable && reply.Viewed? ==>
       call.Move? &&
       exists e | e in t.events ::
         e.request == call.request && e.binding == call.binding && e.status == call.target &&
         e.actor == call.who.actor && e.reason == call.reason)
  }

  lemma CallReadsFirst(t: Tables, call: Call, s: Surroundings)
    requires call.Propose? || call.target == APPROVED
    ensures var (t', reply) := Perform(t, call, s); ReadsFirst(t, call, t', reply, s.readable)
  {
    var (t', reply) := Perform(t, call, s);
    if t' != t {
      WritesOnlyWhatWasRead(t, call, s);
    }
    if call.Propose? && reply.Viewed? {
      ProposalReads(t, call, s);
    }
    if !s.readable {
      UnreadableIsRefused(t, call, s);
    }
  }

  /** Revocation stays possible when the stored source cannot be read. */
  lemma RevocationNeedsNoSource(t: Tables, call: Call, s: Surroundings)
    requires call.Move? && call.target == REVOKED
    ensures forall anyway :: Perform(t, call, Surroundings(anyway, s.newId)) == Perform(t, call, s)
  {
  }

  class BindingService {
    var users: set<Id>
    var documents: map<Id, string>
    var policies: set<Id>
    var sources: seq<Source>
    var bindings: seq<Binding>
    var events: seq<Event>

    function Rows(): Tables
      reads this
    {
      Tables(users, documents, policies, sources, bindings, events)
    }

    constructor ()
      ensures Rows() == EMPTY && Inv(Rows())
    {
      users, documents, policies, sources, bindings, events := {}, map[], {}, [], [], [];
    }

    /** An INSERT on the event table: the trigger before it, then the constraints. */
    method AddEvent(row: Event) returns (ok: bool)
      modifies this`events
      ensures ok == InsertEvent(old(Rows()), row).Some?
      ensures Rows() == OrUnchanged(old(Rows()), InsertEvent(old(Rows()), row))
      ensures Inv(old(Rows())) ==> Inv(Rows())
    {
      EventKept(Rows(), row);
      if !EventGuard(Rows(), row) || !EventConstraints(Rows(), row) {
        return false;
      }
      events := events + [row];
      ok := true;
    }

    /** An INSERT on the revision table, with the trigger that adds the first event after it. */
    method AddRevision(row: Binding) returns (ok: bool)
      modifies this`bindings, this`events
      ensures ok == InsertRevision(old(Rows()), row).Some?
      ensures Rows() == OrUnchanged(old(Rows()), InsertRevision(old(Rows()), row))
      ensures Inv(old(Rows())) ==> Inv(Rows())
    {
      RevisionKept(Rows(), row);
      if !SourceGuard(Rows(), row) || !PredecessorGuard(Rows(), row) || !BindingConstraints(Rows(), row) {
        return false;
      }
      var saved := bindings;
      bindings := bindings + [row];
      ok := AddEvent(FirstEvent(row));
      if !ok {
        bindings := saved;
      }
    }

    method ProposeBinding(call: Call, s: Surroundings) returns (reply: Reply)
      requires call.Propose?
      modifies this`bindings, this`events
      ensures (Rows(), reply) == Perform(old(Rows()), call, s)
      ensures Inv(old(Rows())) ==> forall later :: Settled(old(Rows()), call, Rows(), reply, later)
      ensures ReadsFirst(old(Rows()), call, Rows(), reply, s.readable)
      ensures reply == Refused(Forbidden) <==> !call.who.staff
    {
      CallSettles(Rows(), call, s);
      CallReadsFirst(Rows(), call, s);
      if !call.who.staff {
        return Refused(Forbidden);
      }
      if !ValidReason(call.reason) {
        return Refused(InvalidReason);
      }
      if call.policy !in policies {
        return Refused(PolicyNotFound);
      }
      var unreadable := ReadFailure(Rows(), call.document, s.readable);
      if unreadable.Some? {
        return Refused(unreadable.value);
      }
      var source := SourceOf(sources, call.document).value;
      var existing := ProposalRequest(bindings, call.request);
      if existing.Some? {
        var b := existing.value;
        if b.source != source.id || b.policy != call.policy || b.actor != call.who.actor || b.reason != call.reason {
          return Refused(IdempotencyConflict);
        }
        return ViewOf(Rows(), b);
      }
      var previous := LatestRevision(bindings, source.id, call.policy);
      if previous.Some? {
        var view := ViewOf(Rows(), previous.value);
        if view.Refused? {
          return view;
        }
        if view.view.Current() != REVOKED {
          return Refused(RevisionStillOpen);
        }
      }
      var row := RevisionFor(source, call.policy, previous, call, s.newId);
      var ok := AddRevision(row);
      reply := if ok then ViewOf(Rows(), row) else Refused(DatabaseRefusal);
    }

    method Approve(who: Principal, request: Id, reason: string, binding: Id, s: Surroundings) returns (reply: Reply)
      modifies this`events
      ensures (Rows(), reply) == Perform(old(Rows()), Move(who, request, reason, binding, APPROVED), s)
      ensures reply == Refused(Forbidden) <==> !who.staff
      ensures Inv(old(Rows())) ==>
                forall later :: Settled(old(Rows()), Move(who, request, reason, binding, APPROVED), Rows(), reply, later)
      ensures ReadsFirst(old(Rows()), Move(who, request, reason, binding, APPROVED), Rows(), reply, s.readable)
    {
      CallReadsFirst(Rows(), Move(who, request, reason, binding, APPROVED), s);
      reply := Transition(Move(who, request, reason, binding, APPROVED), s);
    }

    method Revoke(who: Principal, request: Id, reason: string, binding: Id, s: Surroundings) returns (reply: Reply)
      modifies this`events
      ensures (Rows(), reply) == Perform(old(Rows()), Move(who, request, reason, binding, REVOKED), s)
      ensures reply == Refused(Forbidden) <==> !who.staff
      ensures Inv(old(Rows())) ==>
                forall later :: Settled(old(Rows()), Move(who, request, reason, binding, REVOKED), Rows(), reply, later)
      ensures forall anyway ::
                (Rows(), reply) == Perform(old(Rows()), Move(who, request, reason, binding, REVOKED), Surroundings(anyway, s.newId))
    {
      RevocationNeedsNoSource(Rows(), Move(who, request, reason, binding, REVOKED), s);
      reply := Transition(Move(who, request, reason, binding, REVOKED), s);
    }

    method Transition(call: Call, s: Surroundings) returns (reply: Reply)
      requires call.Move?
      modifies this`events
      ensures (Rows(), reply) == Perform(old(Rows()), call, s)
      ensures reply == Refused(Forbidden) <==> !call.who.staff
      ensures Inv(old(Rows())) ==> forall later :: Settled(old(Rows()), call, Rows(), reply, later)
    {
      CallSettles(Rows(), call, s);
      if !call.who.staff {
        return Refused(Forbidden);
      }
      if !ValidReason(call.reason) {
        return Refused(InvalidReason);
      }
      var found := BindingRow(bindings, call.binding);
      if found.None? {
        return Refused(BindingNotFound);
      }
      var b := found.value;
      reply := ViewOf(Rows(), b);
      if reply.Refused? {
        return;
      }
      var existing := EventRequest(events, call.request);
      if existing.Some? {
        if !SameMove(existing.value, call) {
          reply := Refused(IdempotencyConflict);
        }
        return;
      }
      if !ValidTransition(reply.view.Current(), call.target) {
        return Refused(InvalidTransition);
      }
      if call.target == APPROVED {
        var failure := ApprovalFailure(Rows(), b, s.readable);
        if failure.Some? {
          return Refused(failure.value);
        }
      }
      var ok := AddEvent(EventFor(b, reply.view.history, call));
      reply := if ok then ViewOf(Rows(), b) else Refused(DatabaseRefusal);
    }
  }
}
