/** `FaultObserver`: wraps the connector's transport and the journal's receipts, counts the
    writes the target accepted, and injects one fault. */
module FaultObserver {
  import opened Wrappers

  datatype Fault = NoFault | BeforeDispatch | AfterCommit | AfterReceipt | KnownRejection | UnknownOutcome

  /** `payload["ids"]`, or the payload itself, as far as the observer looks at it. */
  datatype Ids = One(id: int) | Many(ids: seq<int>) | Neither

  datatype Reply = Reply(status: int, ids: Ids)

  /** What a client does through the observer: a call, with the reply the target gives to it or
      would give, or the record of a journal boundary, which may itself fail. */
  datatype Event =
    | CallEvent(write: bool, reply: Option<Reply>)
    | RecordEvent(boundary: Fault, recorded: bool)

  datatype Outcome = Returned(reply: Reply) | OriginalRaised | TimedOut | Interrupted | Recorded

  /** How an event ends for the client, and whether it got to the target or the journal. */
  datatype Ending = Ending(forwarded: bool, outcome: Outcome)

  predicate Accepts(write: bool, reply: Reply) {
    write && reply.status == 200 &&
    match reply.ids
    case One(id) => id > 0
    case Many(ids) => ids != [] && forall id :: id in ids ==> id > 0
    case Neither => false
  }

  function RowsOf(ids: Ids): nat {
    match ids case Many(list) => |list| case _ => 1
  }

  /** Accepted is a write answered with status 200 and one positive id, or a list of some, all
      positive; it counts as one row, or as many as the list has. */
  lemma AcceptedMeans(write: bool, status: int, ids: Ids)
    ensures ids.One? ==> (Accepts(write, Reply(status, ids)) <==> write && status == 200 && ids.id >= 1)
    ensures ids.Many? ==> (Accepts(write, Reply(status, ids)) <==>
      write && status == 200 && |ids.ids| > 0 && forall i :: 0 <= i < |ids.ids| ==> ids.ids[i] >= 1)
    ensures ids.Neither? ==> !Accepts(write, Reply(status, ids))
    ensures RowsOf(ids) == if ids.Many? then |ids.ids| else 1
  {
    if ids.Many? {
      var list := ids.ids;
      if forall i :: 0 <= i < |list| ==> list[i] >= 1 {
        forall id | id in list ensures id > 0 { var i :| 0 <= i < |list| && list[i] == id; }
      }
      if forall id :: id in list ==> id > 0 {
        forall i | 0 <= i < |list| ensures list[i] >= 1 { assert list[i] in list; }
      }
    }
  }

  // ---------- Runs ----------

  /** The event meets the fault's condition. */
  predicate Triggers(fault: Fault, e: Event) {
    match e
    case CallEvent(write, reply) =>
      || (fault == KnownRejection && write)
      || (fault in {AfterCommit, UnknownOutcome} && reply.Some? && Accepts(write, reply.value))
    case RecordEvent(boundary, recorded) => recorded && boundary == fault && boundary in {BeforeDispatch, AfterReceipt}
  }

  /** How the event ends without an observer. */
  function Plain(e: Event): Ending {
    match e
    case CallEvent(write, reply) => Ending(true, if reply.Some? then Returned(reply.value) else OriginalRaised)
    case RecordEvent(boundary, recorded) => Ending(true, if recorded then Recorded else OriginalRaised)
  }

  /** How it ends through the observer. */
  function Observed(fault: Fault, fired: bool, e: Event): Ending {
    if fired || !Triggers(fault, e) then Plain(e)
    else if fault == KnownRejection then Ending(false, Returned(Reply(403, Neither)))
    else Ending(true, if fault == UnknownOutcome then TimedOut else Interrupted)
  }

  ghost predicate Fired(fault: Fault, events: seq<Event>) {
    exists i :: 0 <= i < |events| && Triggers(fault, events[i])
  }

  function Contacted(fault: Fault, fired: bool, e: Event): bool {
    e.CallEvent? && Observed(fault, fired, e).forwarded
  }

  /** The calls of a run that reach the target. */
  ghost function Contacts(fault: Fault, events: seq<Event>): seq<Event> {
    if events == [] then []
    else
      var earlier, last := events[..|events| - 1], events[|events| - 1];
      Contacts(fault, earlier) + if Contacted(fault, Fired(fault, earlier), last) then [last] else []
  }

  ghost function Calls(events: seq<Event>): seq<Event> {
    if events == [] then []
    else
      var last := events[|events| - 1];
      Calls(events[..|events| - 1]) + if last.CallEvent? then [last] else []
  }

  /** The events of a run that the client sees end otherwise than without an observer. */
  ghost function Injections(fault: Fault, events: seq<Event>): nat {
    if events == [] then 0
    else
      var earlier, last := events[..|events| - 1], events[|events| - 1];
      Injections(fault, earlier) + if Observed(fault, Fired(fault, earlier), last) != Plain(last) then 1 else 0
  }

  lemma FiredGrows(fault: Fault, events: seq<Event>, e: Event)
    ensures Fired(fault, events + [e]) <==> Fired(fault, events) || Triggers(fault, e)
  {
    if i :| 0 <= i < |events| && Triggers(fault, events[i]) {
      assert (events + [e])[i] == events[i];
    }
    assert (events + [e])[|events|] == e;
  }

  /** In every run the fault is injected once if some event meets its condition, and never
      otherwise; every call reaches the target, but for the one that is rejected here. */
  lemma {:induction false} InjectsOnce(fault: Fault, events: seq<Event>)
    ensures Injections(fault, events) == if exists e :: e in events && Triggers(fault, e) then 1 else 0
    ensures |Contacts(fault, events)| ==
      |Calls(events)| - if fault == KnownRejection && Fired(fault, events) then 1 else 0
    ensures fault != KnownRejection ==> Contacts(fault, events) == Calls(events)
    ensures (exists e :: e in events && Triggers(fault, e)) <==> Fired(fault, events)
  {
    if events != [] {
      var earlier, last := events[..|events| - 1], events[|events| - 1];
      InjectsOnce(fault, earlier);
      assert events == earlier + [last];
      FiredGrows(fault, earlier, last);
      assert forall e :: e in events <==> e in earlier || e == last;
    }
  }

  /** Rows the target accepted, over all calls that reached it. */
  ghost function AcceptedRows(contacts: seq<Event>): nat {
    if contacts == [] then 0
    else
      var last := contacts[|contacts| - 1];
      AcceptedRows(contacts[..|contacts| - 1]) + if IsAccepted(last) then RowsOf(last.reply.value.ids) else 0
  }

  ghost function AcceptedBatches(contacts: seq<Event>): nat {
    if contacts == [] then 0
    else AcceptedBatches(contacts[..|contacts| - 1]) + if IsAccepted(contacts[|contacts| - 1]) then 1 else 0
  }

  predicate IsAccepted(e: Event) {
    e.CallEvent? && e.reply.Some? && Accepts(e.write, e.reply.value)
  }

  lemma ContactsGrow(fault: Fault, events: seq<Event>, e: Event)
    ensures Contacts(fault, events + [e]) ==
      if Contacted(fault, Fired(fault, events), e) then Contacts(fault, events) + [e] else Contacts(fault, events)
  {
    assert (events + [e])[..|events|] == events;
  }

  lemma TotalsGrow(contacts: seq<Event>, e: Event)
    ensures AcceptedRows(contacts + [e]) ==
      AcceptedRows(contacts) + if IsAccepted(e) then RowsOf(e.reply.value.ids) else 0
    ensures AcceptedBatches(contacts + [e]) == AcceptedBatches(contacts) + if IsAccepted(e) then 1 else 0
  {
    assert (contacts + [e])[..|contacts|] == contacts;
  }

  // ---------- The object ----------

  class Observer {
    const fault: Fault
    var fired: bool
    var acceptedBatches: nat
    var acceptedRows: nat
    /** All that has been done through this observer. */
    ghost var events: seq<Event>
    /** The calls that have reached the target. */
    ghost var contacts: seq<Event>

    /** The totals are the target's own, and fault and contacts are those of the run. */
    ghost predicate Valid()
      reads this
    {
      && acceptedRows == AcceptedRows(contacts)
      && acceptedBatches == AcceptedBatches(contacts)
      && fired == Fired(fault, events)
      && contacts == Contacts(fault, events)
    }

    constructor (fault: Fault)
      ensures Valid() && this.fault == fault && !fired && events == []
    {
      this.fault, fired, acceptedBatches, acceptedRows := fault, false, 0, 0;
      events, contacts := [], [];
    }

    /** The original transport. */
    ghost method Forward(e: Event)
      modifies this`contacts
      ensures contacts == old(contacts) + [e]
    {
      contacts := contacts + [e];
    }

    /** The call that `transport` returns. The target's reply is arbitrary, or none at all. */
    method Call(write: bool, reply: Option<Reply>) returns (r: Outcome)
      requires Valid()
      modifies this
      ensures Valid() && events == old(events) + [CallEvent(write, reply)]
      ensures Ending(contacts != old(contacts), r) == Observed(fault, old(fired), CallEvent(write, reply))
      ensures contacts == old(contacts) || contacts == old(contacts) + [CallEvent(write, reply)]
      ensures contacts == old(contacts) <==> write && !old(fired) && fault == KnownRejection
      ensures var counted := contacts != old(contacts) && reply.Some? && Accepts(write, reply.value);
        && fired == (old(fired) || contacts == old(contacts) || (counted && fault in {AfterCommit, UnknownOutcome}))
        && acceptedRows == old(acceptedRows) + (if counted then RowsOf(reply.value.ids) else 0)
        && acceptedBatches == old(acceptedBatches) + (if counted then 1 else 0)
    {
      hide Fired, Accepts, Contacts, AcceptedRows, AcceptedBatches, RowsOf;
      ghost var e := CallEvent(write, reply);
      ContactsGrow(fault, events, e);
      TotalsGrow(contacts, e);
      FiredGrows(fault, events, e);
      events := events + [e];
      if write && !fired && fault == KnownRejection {
        fired := true;
        return Returned(Reply(403, Neither));
      }
      Forward(e);
      assert |contacts| == |old(contacts)| + 1;
      if reply.None? { return OriginalRaised; }
      if Accepts(write, reply.value) {
        acceptedBatches := acceptedBatches + 1;
        acceptedRows := acceptedRows + RowsOf(reply.value.ids);
        if !fired && fault in {AfterCommit, UnknownOutcome} {
          fired := true;
          return if fault == UnknownOutcome then TimedOut else Interrupted;
        }
      }
      return Returned(reply.value);
    }

    /** The recorder that `receipt(original, boundary)` returns: the record is durable before
        the interruption, and a failed record injects nothing. */
    method Record(boundary: Fault, recorded: bool) returns (interrupted: bool)
      requires Valid() && boundary in {BeforeDispatch, AfterReceipt}
      modifies this`fired, this`events
      ensures Valid() && events == old(events) + [RecordEvent(boundary, recorded)]
      ensures interrupted <==> Observed(fault, old(fired), RecordEvent(boundary, recorded)).outcome == Interrupted
      ensures interrupted <==> recorded && !old(fired) && fault == boundary
      ensures fired == (old(fired) || interrupted)
    {
      ghost var e := RecordEvent(boundary, recorded);
      events := events + [e];
      assert events[..|events| - 1] == old(events);
      FiredGrows(fault, old(events), e);
      if !recorded { return false; }
      if !fired && fault == boundary {
        fired := true;
        return true;
      }
      return false;
    }
  }
}
