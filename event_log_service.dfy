/**
 * The integration-event outbox: entries are saved inside the business transaction, fetched per
 * transaction in creation order for publishing, and then marked with their publication state.
 * The database table is a sequence of rows in storage order; `EventId` identifies a row.
 */
module EventLogService {
  import opened Wrappers
  import opened Text
  import opened Int32
  import opened ParameterCheck
  import opened EventLogEntry
  import opened Collections

  /** A database transaction, as far as the outbox uses it. */
  datatype Transaction = Transaction(TransactionId: Guid)

  const IntegrationEventSuffix := "IntegrationEvent"
  const NullTransactionMessage := "transaction must not be null when saving an event"
  const UnknownTypeMessage := "event type not discovered: "
  const MissingEntryMessage := "no event log entry with the given id"

  /** The names, in order, of the loaded types that the outbox treats as event types. */
  function EventTypeNames(loadedTypeNames: seq<string>): (r: seq<string>)
    ensures forall n :: n in r <==> n in loadedTypeNames && EndsWith(n, IntegrationEventSuffix)
    ensures |r| <= |loadedTypeNames|
  {
    if |loadedTypeNames| == 0 then []
    else
      var rest := EventTypeNames(loadedTypeNames[1..]);
      if EndsWith(loadedTypeNames[0], IntegrationEventSuffix) then [loadedTypeNames[0]] + rest else rest
  }

  predicate SortedByCreatedTime(s: seq<IntegrationEventLogEntry>) {
    forall i, j :: 0 <= i < j < |s| ==> s[i].CreatedTime <= s[j].CreatedTime
  }

  lemma SortedCons(x: IntegrationEventLogEntry, t: seq<IntegrationEventLogEntry>)
    requires SortedByCreatedTime(t)
    requires forall k :: 0 <= k < |t| ==> x.CreatedTime <= t[k].CreatedTime
    ensures SortedByCreatedTime([x] + t)
  {
    var r := [x] + t;
    forall i, j | 0 <= i < j < |r| ensures r[i].CreatedTime <= r[j].CreatedTime {
      assert r[j] == t[j - 1];
      if i > 0 {
        assert r[i] == t[i - 1];
      }
    }
  }

  /** The step case of the insertion: `s[0]` goes in front of `e` inserted into the rest. */
  lemma InsertStep(e: IntegrationEventLogEntry, s: seq<IntegrationEventLogEntry>, tail: seq<IntegrationEventLogEntry>)
    requires |s| > 0 && SortedByCreatedTime(s) && s[0].CreatedTime < e.CreatedTime
    requires SortedByCreatedTime(tail)
    requires multiset(tail) == multiset(s[1..]) + multiset{e}
    requires |tail| == |s| && forall k :: 0 <= k < |tail| ==> tail[k] == e || tail[k] in s[1..]
    ensures SortedByCreatedTime([s[0]] + tail)
    ensures multiset([s[0]] + tail) == multiset(s) + multiset{e}
    ensures forall k :: 0 <= k < |[s[0]] + tail| ==> ([s[0]] + tail)[k] == e || ([s[0]] + tail)[k] in s
  {
    assert s == [s[0]] + s[1..];
    forall k | 0 <= k < |tail| ensures s[0].CreatedTime <= tail[k].CreatedTime {
      if tail[k] != e {
        var j :| 0 <= j < |s[1..]| && s[1..][j] == tail[k];
        assert s[j + 1] == tail[k];
      }
    }
    SortedCons(s[0], tail);
    var r := [s[0]] + tail;
    assert forall k :: 1 <= k < |r| ==> r[k] == tail[k - 1];
  }

  /** Places `e` before the first entry created no earlier than it. */
  function InsertByCreatedTime(e: IntegrationEventLogEntry, s: seq<IntegrationEventLogEntry>): (r: seq<IntegrationEventLogEntry>)
    requires SortedByCreatedTime(s)
    ensures SortedByCreatedTime(r)
    ensures multiset(r) == multiset(s) + multiset{e}
    ensures |r| == |s| + 1 && forall k :: 0 <= k < |r| ==> r[k] == e || r[k] in s
  {
    if |s| == 0 || e.CreatedTime <= s[0].CreatedTime then
      SortedCons(e, s);
      [e] + s
    else
      var tail := InsertByCreatedTime(e, s[1..]);
      InsertStep(e, s, tail);
      [s[0]] + tail
  }

  /** `OrderBy(e => e.CreatedTime)`: the same entries, earliest first. */
  function OrderByCreatedTime(s: seq<IntegrationEventLogEntry>): (r: seq<IntegrationEventLogEntry>)
    ensures SortedByCreatedTime(r)
    ensures multiset(r) == multiset(s)
  {
    if |s| == 0 then []
    else
      assert s == [s[0]] + s[1..];
      InsertByCreatedTime(s[0], OrderByCreatedTime(s[1..]))
  }

  lemma OrderByKeepsRows(s: seq<IntegrationEventLogEntry>)
    ensures forall k :: 0 <= k < |OrderByCreatedTime(s)| ==> OrderByCreatedTime(s)[k] in s
    ensures forall k :: 0 <= k < |s| ==> s[k] in OrderByCreatedTime(s)
  {
    var r := OrderByCreatedTime(s);
    forall k | 0 <= k < |r| ensures r[k] in s {
      assert r[k] in multiset(r);
    }
    forall k | 0 <= k < |s| ensures s[k] in r {
      assert s[k] in multiset(s);
    }
  }

  /** Ordering by creation time keeps exactly the rows it was given. */
  lemma OrderByMembers(s: seq<IntegrationEventLogEntry>)
    ensures forall x :: x in OrderByCreatedTime(s) <==> x in s
  {
    var r := OrderByCreatedTime(s);
    forall x ensures x in r <==> x in s {
      calc {
        x in r;
        x in multiset(r);
        x in multiset(s);
        x in s;
      }
    }
  }

  /** Rows each found in the table are members of the table. */
  lemma SubsetByIndex(rows: seq<IntegrationEventLogEntry>, table: seq<IntegrationEventLogEntry>)
    requires forall k :: 0 <= k < |rows| ==> rows[k] in table
    ensures forall x :: x in rows ==> x in table
  {
  }

  /** No two rows share an `EventId` (it is the table's primary key). */
  predicate UniqueIds(rows: seq<IntegrationEventLogEntry>) {
    forall i, j :: 0 <= i < j < |rows| ==> rows[i].EventId != rows[j].EventId
  }

  /** `FirstOrDefault(e => e.EventId == id)`: the position of the first row with that id, if there is one. */
  function FindEntry(rows: seq<IntegrationEventLogEntry>, id: Guid): (r: Option<nat>)
    ensures r.Some? ==> r.value < |rows| && rows[r.value].EventId == id
    ensures r.Some? ==> forall k :: 0 <= k < r.value ==> rows[k].EventId != id
    ensures r.None? <==> forall k :: 0 <= k < |rows| ==> rows[k].EventId != id
  {
    if |rows| == 0 then None
    else if rows[0].EventId == id then Some(0)
    else
      match FindEntry(rows[1..], id)
      case None => None
      case Some(k) => Some(k + 1)
  }

  /** A row that a retrieval for `transactionId` must return. */
  predicate IsPendingFor(e: IntegrationEventLogEntry, transactionId: Guid)
    reads e
  {
    e.TransactionId == transactionId && e.State == NotPublished
  }

  /** The `Where(...)` of the retrieval query: the rows pending for the transaction, in table order. */
  function PendingRows(rows: seq<IntegrationEventLogEntry>, transactionId: Guid): (r: seq<IntegrationEventLogEntry>)
    reads rows
    ensures forall k :: 0 <= k < |r| ==> r[k] in rows && IsPendingFor(r[k], transactionId)
    ensures forall k :: 0 <= k < |rows| && IsPendingFor(rows[k], transactionId) ==> rows[k] in r
  {
    if |rows| == 0 then []
    else
      var init := rows[..|rows| - 1];
      var last := rows[|rows| - 1];
      assert rows == init + [last];
      var rest := PendingRows(init, transactionId);
      if IsPendingFor(last, transactionId) then rest + [last] else rest
  }

  lemma PendingRowsMembers(rows: seq<IntegrationEventLogEntry>, transactionId: Guid)
    ensures forall x :: x in PendingRows(rows, transactionId) <==> x in rows && IsPendingFor(x, transactionId)
  {
    var r := PendingRows(rows, transactionId);
    forall x | x in r ensures x in rows && IsPendingFor(x, transactionId) {
      var k :| 0 <= k < |r| && r[k] == x;
    }
    forall x | x in rows && IsPendingFor(x, transactionId) ensures x in r {
      var k :| 0 <= k < |rows| && rows[k] == x;
    }
  }

  lemma {:induction false} PendingRowsUnique(rows: seq<IntegrationEventLogEntry>, transactionId: Guid)
    requires UniqueIds(rows)
    ensures UniqueIds(PendingRows(rows, transactionId))
  {
    if |rows| > 0 {
      var init := rows[..|rows| - 1];
      var last := rows[|rows| - 1];
      assert UniqueIds(init);
      PendingRowsUnique(init, transactionId);
      var rest := PendingRows(init, transactionId);
      if IsPendingFor(last, transactionId) {
        forall k | 0 <= k < |rest| ensures rest[k].EventId != last.EventId {
          assert rest[k] in init;
        }
        var r := rest + [last];
        forall i, j | 0 <= i < j < |r| ensures r[i].EventId != r[j].EventId {
          if j == |rest| {
            assert r[i] == rest[i];
          } else {
            assert r[i] == rest[i] && r[j] == rest[j];
          }
        }
      }
    }
  }

  /**
   * What a successful retrieval returns: every pending row of the transaction, each once, and
   * nothing else, earliest first.
   */
  lemma RetrievedRows(rows: seq<IntegrationEventLogEntry>, transactionId: Guid)
    requires UniqueIds(rows)
    ensures var ordered := OrderByCreatedTime(PendingRows(rows, transactionId));
      && SortedByCreatedTime(ordered)
      && Distinct(ordered)
      && (forall x :: x in ordered <==> x in rows && IsPendingFor(x, transactionId))
  {
    var pending := PendingRows(rows, transactionId);
    var ordered := OrderByCreatedTime(pending);
    PendingRowsUnique(rows, transactionId);
    assert Distinct(pending) by {
      forall i, j | 0 <= i < j < |pending| ensures pending[i] != pending[j] {
        assert pending[i].EventId != pending[j].EventId;
      }
    }
    PermutationKeepsDistinct(pending, ordered);
    OrderByKeepsRows(pending);
  }

  class IntegrationEventLogService {
    /** The `IntegrationEventLog` table, in storage order. */
    var entries: seq<IntegrationEventLogEntry>
    /** The `Name`s of the event types discovered when the service was built. */
    const eventTypes: seq<string>

    ghost predicate Valid()
      reads this
    {
      UniqueIds(entries)
    }

    /**
     * Keeps, of the loaded type names, those ending in "IntegrationEvent"; the scan of the entry
     * assembly that lists them is not modelled.
     */
    constructor (loadedTypeNames: seq<string>, table: seq<IntegrationEventLogEntry>)
      requires UniqueIds(table)
      ensures Valid() && entries == table
      ensures eventTypes == EventTypeNames(loadedTypeNames)
    {
      entries := table;
      eventTypes := EventTypeNames(loadedTypeNames);
    }

    /** The entry's short type name names a discovered type and its content reads as that type. */
    predicate Resolvable(e: IntegrationEventLogEntry, decode: Decoder) {
      e.EventTypeShortName() in eventTypes && decode(e.Content, e.EventTypeShortName()).Read?
    }

    /** Runs the `Where(...)` query over the table. */
    method CollectPending(transactionId: Guid) returns (rows: seq<IntegrationEventLogEntry>)
      ensures rows == PendingRows(entries, transactionId)
    {
      rows := [];
      var i := 0;
      while i < |entries|
        invariant 0 <= i <= |entries|
        invariant rows == PendingRows(entries[..i], transactionId)
      {
        assert entries[..i + 1][..i] == entries[..i];
        if IsPendingFor(entries[i], transactionId) {
          rows := rows + [entries[i]];
        }
        i := i + 1;
      }
      assert entries[..i] == entries;
    }

    /**
     * The `Select(...)`: in order, resolves each row's short type name among the discovered
     * types and reads its content back as that type, stopping at the first row for which either
     * fails. Rows before that one keep their new `IntegrationEvent`.
     */
    method ResolveEvents(ordered: seq<IntegrationEventLogEntry>, decode: Decoder) returns (r: Outcome<OutboxError>)
      modifies (set x | x in ordered)`IntegrationEvent
      ensures r.Fail? <==> exists e :: e in ordered && !Resolvable(e, decode)
      ensures r.Pass? ==> forall e :: e in ordered ==> e.IntegrationEvent == decode(e.Content, e.EventTypeShortName()).event
    {
      var i := 0;
      while i < |ordered|
        invariant 0 <= i <= |ordered|
        invariant forall k :: 0 <= k < i ==> Resolvable(ordered[k], decode)
        invariant forall k :: 0 <= k < i ==> ordered[k].IntegrationEvent == decode(ordered[k].Content, ordered[k].EventTypeShortName()).event
      {
        var e := ordered[i];
        var shortName := e.EventTypeShortName();
        if shortName !in eventTypes {
          assert e in ordered && !Resolvable(e, decode);
          return Fail(Guard(ArgumentNullException(UnknownTypeMessage + shortName)));
        }
        label Before:
        var decoded := e.DeserializeJsonContent(shortName, decode);
        if decoded.Failure? {
          assert e in ordered && !Resolvable(e, decode);
          return Fail(decoded.error);
        }
        forall k | 0 <= k < i
          ensures ordered[k].IntegrationEvent == decode(ordered[k].Content, ordered[k].EventTypeShortName()).event
        {
          if ordered[k] != e {
            assert ordered[k].IntegrationEvent == old@Before(ordered[k].IntegrationEvent);
          }
        }
        i := i + 1;
      }
      return Pass;
    }

    /**
     * `RetrieveEventLogsPendingToPublishAsync`: the pending rows of the transaction ordered by
     * creation time (see `RetrievedRows`), each with its event read back from `Content`. One row
     * whose type is unknown (or whose content does not read) fails the whole call; rows
     * deserialized before it keep their new `IntegrationEvent`, and no other row changes.
     */
    method RetrieveEventLogsPendingToPublish(transactionId: Guid, decode: Decoder)
      returns (r: Result<seq<IntegrationEventLogEntry>, OutboxError>)
      modifies entries`IntegrationEvent
      ensures r.Success? ==> r.value == OrderByCreatedTime(old(PendingRows(entries, transactionId)))
      ensures r.Success? ==> forall e :: e in r.value ==>
                Resolvable(e, decode) && e.IntegrationEvent == decode(e.Content, e.EventTypeShortName()).event
      ensures r.Failure? <==> exists e :: e in OrderByCreatedTime(old(PendingRows(entries, transactionId))) && !Resolvable(e, decode)
      ensures old(PendingRows(entries, transactionId)) == [] ==> r == Success([])
      ensures forall x :: x in entries && x !in old(PendingRows(entries, transactionId)) ==>
                x.IntegrationEvent == old(x.IntegrationEvent)
    {
      var rows := CollectPending(transactionId);
      if |rows| == 0 {
        return Success([]);
      }
      var ordered := OrderByCreatedTime(rows);
      OrderByMembers(rows);
      SubsetByIndex(rows, entries);
      var resolved := ResolveEvents(ordered, decode);
      if resolved.Fail? {
        return Failure(resolved.error);
      }
      return Success(ordered);
    }

    /**
     * `SaveEventAsync`: with a transaction, appends exactly one fresh entry for the event, stamped
     * with the transaction's id and not yet published. A null transaction, a blank event type
     * name or an id already in the table fails and adds nothing.
     */
    method SaveEvent(event: IntegrationEvent, transaction: Option<Transaction>, serialize: IntegrationEvent -> string)
      returns (r: Outcome<OutboxError>)
      requires Valid()
      modifies this`entries
      ensures Valid()
      ensures r.Fail? <==> transaction.None? || IsNullOrWhiteSpace(event.TypeFullName) || FindEntry(old(entries), event.Id).Some?
      ensures transaction.None? ==> r == Fail(Guard(ArgumentNullException(NullTransactionMessage)))
      ensures r.Fail? ==> entries == old(entries)
      ensures r.Pass? ==> |entries| == |old(entries)| + 1 && entries[..|old(entries)|] == old(entries)
      ensures r.Pass? ==> var e := entries[|old(entries)|];
                fresh(e) && e.EventId == event.Id
                && e.TransactionId == transaction.value.TransactionId && e.CreatedTime == event.CreatedTime
                && e.EventTypeName == event.TypeFullName.value && e.Content == serialize(event)
                && e.State == NotPublished && e.SentTimes == 0 && e.IntegrationEvent == None
    {
      var check := IsNotNull(transaction, NullTransactionMessage);
      if check.Fail? {
        return Fail(Guard(check.error));
      }
      var created := IntegrationEventLogEntry.New(event, transaction.value.TransactionId, serialize);
      if created.Failure? {
        return Fail(created.error);
      }
      if FindEntry(entries, event.Id).Some? {
        return Fail(DuplicateEventId(event.Id));
      }
      entries := entries + [created.value];
      return Pass;
    }

    /**
     * `UpdateEventStateAsync`: the entry with the id takes the new state whatever its previous
     * one; only a move to `InPublishProgress` counts one more attempt (with C# `int` wrap-around).
     * No other field and no other entry changes. A missing id fails and changes nothing.
     */
    method UpdateEventState(eventId: Guid, state: EventState) returns (r: Outcome<OutboxError>)
      requires Valid()
      modifies entries
      ensures r.Fail? <==> FindEntry(entries, eventId).None?
      ensures r.Fail? ==> r.error == Guard(ArgumentNullException(MissingEntryMessage))
      ensures forall k :: 0 <= k < |entries| && entries[k].EventId == eventId ==>
                entries[k].State == state
                && entries[k].SentTimes ==
                     (if state == InPublishProgress then Inc(old(entries[k].SentTimes)) else old(entries[k].SentTimes))
                && entries[k].IntegrationEvent == old(entries[k].IntegrationEvent)
      ensures forall k :: 0 <= k < |entries| && entries[k].EventId != eventId ==>
                entries[k].State == old(entries[k].State) && entries[k].SentTimes == old(entries[k].SentTimes)
                && entries[k].IntegrationEvent == old(entries[k].IntegrationEvent)
    {
      var found := FindEntry(entries, eventId);
      var entry := if found.Some? then Some(entries[found.value]) else None;
      var check := IsNotNull(entry, MissingEntryMessage);
      if check.Fail? {
        return Fail(Guard(check.error));
      }
      var target := entry.value;
      target.State := state;
      if state == InPublishProgress {
        target.SentTimes := Inc(target.SentTimes);
      }
      return Pass;
    }

    /** `MarkEventAsPublishedAsync`. */
    method MarkEventAsPublished(eventId: Guid) returns (r: Outcome<OutboxError>)
      requires Valid()
      modifies entries
      ensures r.Fail? <==> FindEntry(entries, eventId).None?
      ensures forall k :: 0 <= k < |entries| && entries[k].EventId == eventId ==>
                entries[k].State == Published && entries[k].SentTimes == old(entries[k].SentTimes)
                && entries[k].IntegrationEvent == old(entries[k].IntegrationEvent)
      ensures forall k :: 0 <= k < |entries| && entries[k].EventId != eventId ==>
                entries[k].State == old(entries[k].State) && entries[k].SentTimes == old(entries[k].SentTimes)
                && entries[k].IntegrationEvent == old(entries[k].IntegrationEvent)
    {
      r := UpdateEventState(eventId, Published);
    }

    /** `MarkEventAsInPublishProgressAsync`: the id's entry counts one more send attempt. */
    method MarkEventAsInPublishProgress(eventId: Guid) returns (r: Outcome<OutboxError>)
      requires Valid()
      modifies entries
      ensures r.Fail? <==> FindEntry(entries, eventId).None?
      ensures forall k :: 0 <= k < |entries| && entries[k].EventId == eventId ==>
                entries[k].State == InPublishProgress && entries[k].SentTimes == Inc(old(entries[k].SentTimes))
                && entries[k].IntegrationEvent == old(entries[k].IntegrationEvent)
      ensures forall k :: 0 <= k < |entries| && entries[k].EventId != eventId ==>
                entries[k].State == old(entries[k].State) && entries[k].SentTimes == old(entries[k].SentTimes)
                && entries[k].IntegrationEvent == old(entries[k].IntegrationEvent)
    {
      r := UpdateEventState(eventId, InPublishProgress);
    }

    /** `MarkEventAsPublishedFailedAsync`. */
    method MarkEventAsPublishedFailed(eventId: Guid) returns (r: Outcome<OutboxError>)
      requires Valid()
      modifies entries
      ensures r.Fail? <==> FindEntry(entries, eventId).None?
      ensures forall k :: 0 <= k < |entries| && entries[k].EventId == eventId ==>
                entries[k].State == PublishedFailed && entries[k].SentTimes == old(entries[k].SentTimes)
                && entries[k].IntegrationEvent == old(entries[k].IntegrationEvent)
      ensures forall k :: 0 <= k < |entries| && entries[k].EventId != eventId ==>
                entries[k].State == old(entries[k].State) && entries[k].SentTimes == old(entries[k].SentTimes)
                && entries[k].IntegrationEvent == old(entries[k].IntegrationEvent)
    {
      r := UpdateEventState(eventId, PublishedFailed);
    }
  }
}
