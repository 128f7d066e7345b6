/** The facts of a student, counted from revisioned rows: each item counts by its latest event alone. */
module StudentFacts {
  import opened Common
  import opened EvaluationKey

  /** A backlog or an offer of a student. */
  datatype Item = Item(id: Id, student: Uuid)

  datatype BacklogKind = OPENED | CLEARED | BACKLOG_CORRECTED

  datatype OfferKind = RECEIVED | ACCEPTED | REJECTED | REVOKED | WITHDRAWN | EXPIRED | TERMS_REVISED | OFFER_CORRECTED

  datatype Kind = Backlog(backlog: BacklogKind) | Offer(offer: OfferKind)

  /** An item has at most one event of each version. */
  datatype Event = Event(item: Id, version: int, kind: Kind)

  datatype Record = Record(student: Uuid, version: int, known: bool, cgpa: Option<Cgpa>)

  datatype Tables = Tables(
    backlogs: seq<Item>, backlogEvents: seq<Event>, offers: seq<Item>, offerEvents: seq<Event>, records: seq<Record>)

  predicate DistinctItems(items: seq<Item>) {
    forall i, j | 0 <= i < j < |items| :: items[i].id != items[j].id
  }

  predicate DistinctEvents(events: seq<Event>) {
    forall a, b | a in events && b in events && a.item == b.item && a.version == b.version :: a == b
  }

  predicate DistinctRecords(records: seq<Record>) {
    forall a, b | a in records && b in records && a.student == b.student && a.version == b.version :: a == b
  }

  /** Constraints of the tables; the two event tables have kinds of their own. */
  predicate Constrained(t: Tables) {
    (forall e | e in t.backlogEvents :: e.kind.Backlog?) && (forall e | e in t.offerEvents :: e.kind.Offer?) &&
    DistinctItems(t.backlogs) && DistinctEvents(t.backlogEvents) && DistinctItems(t.offers) && DistinctEvents(t.offerEvents) &&
    DistinctRecords(t.records)
  }

  // ---------- queries ----------

  function IdsOf(items: seq<Item>, student: Uuid): seq<Id> {
    if items == [] then []
    else (if items[0].student == student then [items[0].id] else []) + IdsOf(items[1..], student)
  }

  function Latest(events: seq<Event>, item: Id): (r: Option<Event>)
    ensures r.Some? ==> r.value in events && r.value.item == item
    ensures forall e | e in events && e.item == item :: r.Some? && e.version <= r.value.version
  {
    if events == [] then None
    else
      var rest := Latest(events[1..], item);
      if events[0].item == item && (rest.None? || rest.value.version <= events[0].version) then Some(events[0]) else rest
  }

  function LatestRecord(records: seq<Record>, student: Uuid): (r: Option<Record>)
    ensures r.Some? ==> r.value in records && r.value.student == student
    ensures forall e | e in records && e.student == student :: r.Some? && e.version <= r.value.version
  {
    if records == [] then None
    else
      var rest := LatestRecord(records[1..], student);
      if records[0].student == student && (rest.None? || rest.value.version <= records[0].version) then Some(records[0]) else rest
  }

  predicate Counts(kind: Kind) {
    kind in {Backlog(OPENED), Offer(RECEIVED), Offer(ACCEPTED), Offer(TERMS_REVISED)}
  }

  predicate Live(events: seq<Event>, item: Id) {
    Latest(events, item).Some? && Counts(Latest(events, item).value.kind)
  }

  /** The items of a student that are open or active. */
  function LiveItems(items: seq<Item>, events: seq<Event>, student: Uuid): set<Id> {
    set x | x in items && x.student == student && Live(events, x.id) :: x.id
  }

  function KnownCgpa(records: seq<Record>, student: Uuid): Option<Cgpa> {
    var r := LatestRecord(records, student);
    if r.Some? && r.value.known then r.value.cgpa else None
  }

  // ---------- what is counted ----------

  /** The event of an item with the highest version is of this kind. */
  predicate LastKind(events: seq<Event>, item: Id, kind: Kind) {
    exists e | e in events ::
      e.item == item && e.kind == kind && forall o | o in events && o.item == item :: o.version <= e.version
  }

  /** The backlogs of a student that were opened and neither cleared nor corrected since. */
  function OpenBacklogs(t: Tables, student: Uuid): set<Id> {
    set x | x in t.backlogs && x.student == student && LastKind(t.backlogEvents, x.id, Backlog(OPENED)) :: x.id
  }

  /** The offers of a student that were last received, accepted or given new terms. */
  function ActiveOffers(t: Tables, student: Uuid): set<Id> {
    set x | x in t.offers && x.student == student &&
            (LastKind(t.offerEvents, x.id, Offer(RECEIVED)) || LastKind(t.offerEvents, x.id, Offer(ACCEPTED)) ||
             LastKind(t.offerEvents, x.id, Offer(TERMS_REVISED))) :: x.id
  }

  /** The record of a student with the highest version is known and has this grade. */
  predicate LastGrade(records: seq<Record>, student: Uuid, cgpa: Cgpa) {
    exists r | r in records ::
      r.student == student && r.known && r.cgpa == Some(cgpa) &&
      forall o | o in records && o.student == student :: o.version <= r.version
  }

  lemma LastKindIff(events: seq<Event>, item: Id, kind: Kind)
    requires DistinctEvents(events)
    ensures LastKind(events, item, kind) <==> Latest(events, item).Some? && Latest(events, item).value.kind == kind
  {
  }

  lemma BacklogsMean(t: Tables, student: Uuid)
    requires Constrained(t)
    ensures LiveItems(t.backlogs, t.backlogEvents, student) == OpenBacklogs(t, student)
  {
    forall x | x in t.backlogs ensures Live(t.backlogEvents, x.id) <==> LastKind(t.backlogEvents, x.id, Backlog(OPENED)) {
      LastKindIff(t.backlogEvents, x.id, Backlog(OPENED));
    }
  }

  lemma OffersMean(t: Tables, student: Uuid)
    requires Constrained(t)
    ensures LiveItems(t.offers, t.offerEvents, student) == ActiveOffers(t, student)
  {
    forall x | x in t.offers
      ensures Live(t.offerEvents, x.id) <==>
                LastKind(t.offerEvents, x.id, Offer(RECEIVED)) || LastKind(t.offerEvents, x.id, Offer(ACCEPTED)) ||
                LastKind(t.offerEvents, x.id, Offer(TERMS_REVISED))
    {
      LastKindIff(t.offerEvents, x.id, Offer(RECEIVED));
      LastKindIff(t.offerEvents, x.id, Offer(ACCEPTED));
      LastKindIff(t.offerEvents, x.id, Offer(TERMS_REVISED));
    }
  }

  lemma GradeMeans(records: seq<Record>, student: Uuid, cgpa: Cgpa)
    requires DistinctRecords(records)
    ensures KnownCgpa(records, student) == Some(cgpa) <==> LastGrade(records, student, cgpa)
  {
  }

  // ---------- build_snapshot ----------

  function LiveIn(ids: seq<Id>, events: seq<Event>): set<Id> {
    set id | id in ids && Live(events, id)
  }

  lemma LiveInStep(ids: seq<Id>, k: nat, events: seq<Event>)
    requires DistinctIds(ids) && k < |ids|
    ensures LiveIn(ids[..k + 1], events) == LiveIn(ids[..k], events) + if Live(events, ids[k]) then {ids[k]} else {}
    ensures ids[k] !in LiveIn(ids[..k], events)
  {
  }

  lemma LiveInIsLiveItems(items: seq<Item>, events: seq<Event>, student: Uuid)
    ensures LiveIn(IdsOf(items, student), events) == LiveItems(items, events, student)
  {
    IdsElements(items, student);
    forall id ensures id in LiveIn(IdsOf(items, student), events) <==> id in LiveItems(items, events, student) {
    }
  }

  method CountLive(items: seq<Item>, events: seq<Event>, student: Uuid) returns (count: nat)
    requires DistinctItems(items)
    ensures count == |LiveItems(items, events, student)|
  {
    var ids := IdsOf(items, student);
    IdsAreDistinct(items, student);
    count := 0;
    for k := 0 to |ids|
      invariant count == |LiveIn(ids[..k], events)|
    {
      LiveInStep(ids, k, events);
      var latest := Latest(events, ids[k]);
      if latest.Some? && Counts(latest.value.kind) {
        count := count + 1;
      }
    }
    assert ids[..|ids|] == ids;
    LiveInIsLiveItems(items, events, student);
  }

  method BuildSnapshot(t: Tables, student: Uuid, opportunity: Uuid) returns (facts: Facts)
    requires Constrained(t)
    ensures facts.student == student && facts.opportunity == opportunity
    ensures forall cgpa :: facts.cgpa == Some(cgpa) <==> LastGrade(t.records, student, cgpa)
    ensures facts.backlogs == |OpenBacklogs(t, student)| && facts.offers == |ActiveOffers(t, student)|
  {
    BacklogsMean(t, student);
    OffersMean(t, student);
    forall cgpa ensures KnownCgpa(t.records, student) == Some(cgpa) <==> LastGrade(t.records, student, cgpa) {
      GradeMeans(t.records, student, cgpa);
    }
    var record := LatestRecord(t.records, student);
    var cgpa := if record.Some? && record.value.known && record.value.cgpa.Some? then record.value.cgpa else None;
    var backlogs := CountLive(t.backlogs, t.backlogEvents, student);
    var offers := CountLive(t.offers, t.offerEvents, student);
    facts := Facts(student, opportunity, cgpa, backlogs, offers);
  }

  lemma {:induction false} IdsElements(items: seq<Item>, student: Uuid)
    ensures forall id :: id in IdsOf(items, student) <==> exists x | x in items :: x.student == student && x.id == id
  {
    if items != [] {
      IdsElements(items[1..], student);
      assert items == [items[0]] + items[1..];
    }
  }

  predicate DistinctIds(ids: seq<Id>) {
    forall i, j | 0 <= i < j < |ids| :: ids[i] != ids[j]
  }

  lemma PrependDistinct(id: Id, rest: seq<Id>)
    requires DistinctIds(rest) && id !in rest
    ensures DistinctIds([id] + rest)
  {
  }

  lemma {:induction false} IdsAreDistinct(items: seq<Item>, student: Uuid)
    requires DistinctItems(items)
    ensures DistinctIds(IdsOf(items, student))
  {
    if items != [] {
      var rest := IdsOf(items[1..], student);
      IdsAreDistinct(items[1..], student);
      IdsElements(items[1..], student);
      forall x | x in items[1..] ensures x.id != items[0].id {
        var k :| 0 <= k < |items[1..]| && items[1..][k] == x;
        assert items[k + 1] == x;
      }
      PrependDistinct(items[0].id, rest);
      assert [] + rest == rest;
    }
  }

  // ---------- what the counts depend on ----------

  predicate SameRows<T(==)>(a: seq<T>, b: seq<T>) {
    (forall x | x in a :: x in b) && (forall x | x in b :: x in a)
  }

  /** The facts of a student, and with them the key of a decision, do not depend on the order of any rows. */
  lemma FactsIgnoreRowOrder(t: Tables, u: Tables, student: Uuid)
    requires Constrained(t)
    requires SameRows(t.backlogs, u.backlogs) && SameRows(t.backlogEvents, u.backlogEvents)
    requires SameRows(t.offers, u.offers) && SameRows(t.offerEvents, u.offerEvents) && SameRows(t.records, u.records)
    ensures LiveItems(t.backlogs, t.backlogEvents, student) == LiveItems(u.backlogs, u.backlogEvents, student)
    ensures LiveItems(t.offers, t.offerEvents, student) == LiveItems(u.offers, u.offerEvents, student)
    ensures KnownCgpa(t.records, student) == KnownCgpa(u.records, student)
  {
  }

  /** A new latest event decides about its own item and about no other. */
  lemma EventDecidesItsItem(items: seq<Item>, events: seq<Event>, e: Event, student: Uuid)
    requires forall x | x in events && x.item == e.item :: x.version < e.version
    ensures var before, after := LiveItems(items, events, student), LiveItems(items, events + [e], student);
            var owned := exists x | x in items :: x.student == student && x.id == e.item;
            var counted := e.kind in {Backlog(OPENED), Offer(RECEIVED), Offer(ACCEPTED), Offer(TERMS_REVISED)};
            after == if owned && counted then before + {e.item} else before - {e.item}
  {
    assert e in events + [e];
    forall id ensures Latest(events + [e], id) == if id == e.item then Some(e) else Latest(events, id) {
      LatestAppend(events, e, id);
    }
  }

  lemma {:induction false} LatestAppend(events: seq<Event>, e: Event, item: Id)
    requires forall x | x in events && x.item == e.item :: x.version < e.version
    ensures Latest(events + [e], item) == if item == e.item then Some(e) else Latest(events, item)
  {
    if events == [] {
      assert [] + [e] == [e];
    } else {
      assert (events + [e])[1..] == events[1..] + [e];
      assert events[0] in events && forall x | x in events[1..] :: x in events;
      LatestAppend(events[1..], e, item);
    }
  }
}
