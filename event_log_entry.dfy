/**
 * One row of the integration-event outbox log: an event's identity, type name, creation time,
 * serialized content, publication state, attempt counter and the database transaction it was
 * written in.
 */
module EventLogEntry {
  import opened Wrappers
  import opened Text
  import opened Int32
  import opened ParameterCheck

  /** A 128-bit UUID; only equality matters to the model. */
  type Guid = int

  /** A `DateTime`, as its tick count. */
  type DateTime = int

  const EmptyGuid: Guid := 0

  /** The publication states, in the order of their numeric values 0..3. */
  datatype EventState = NotPublished | InPublishProgress | Published | PublishedFailed

  /**
   * An integration event. `Id` is excluded from its JSON form; `Payload` stands for the
   * properties a concrete event type adds, and `TypeFullName` for `GetType().FullName`
   * (which the runtime may report as null).
   */
  datatype IntegrationEvent = IntegrationEvent(
    Id: Guid,
    CreatedTime: DateTime,
    TypeFullName: Option<string>,
    Payload: string)

  /**
   * What reading `Content` back yields: a JSON error, or a value, which is `None` when the JSON
   * is `null` or does not deserialize to an integration event (`as IntegrationEvent`).
   */
  datatype Decoded = JsonFailure | Read(event: Option<IntegrationEvent>)

  /** Reading `Content` back as the event type with the given short name. */
  type Decoder = (string, string) -> Decoded

  /** What the outbox operations can fail with. */
  datatype OutboxError =
    | Guard(check: CheckError)
    | JsonError(typeName: string)
    | DuplicateEventId(id: Guid)

  const BlankTypeNameMessage := "event type name must not be blank"

  class IntegrationEventLogEntry {
    /** The fields no code of the outbox writes after construction. */
    const EventId: Guid
    const EventTypeName: string
    const CreatedTime: DateTime
    const Content: string
    const TransactionId: Guid

    /** The fields the outbox changes in place. */
    var State: EventState
    var SentTimes: int32
    var IntegrationEvent: Option<IntegrationEvent>

    /** The parameterless constructor used when the database materialises a row. */
    constructor Empty()
      ensures EventTypeName == "" && Content == ""
      ensures EventId == EmptyGuid && TransactionId == EmptyGuid && CreatedTime == 0
      ensures State == NotPublished && SentTimes == 0 && IntegrationEvent == None
    {
      EventId := EmptyGuid;
      EventTypeName := "";
      CreatedTime := 0;
      Content := "";
      TransactionId := EmptyGuid;
      State := NotPublished;
      SentTimes := 0;
      IntegrationEvent := None;
    }

    /** The field assignments of the event constructor, once its type-name guard has passed. */
    constructor FromEvent(event: IntegrationEvent, transactionId: Guid, serialize: IntegrationEvent -> string)
      requires !IsNullOrWhiteSpace(event.TypeFullName)
      ensures EventId == event.Id && CreatedTime == event.CreatedTime && TransactionId == transactionId
      ensures EventTypeName == event.TypeFullName.value && Content == serialize(event)
      ensures State == NotPublished && SentTimes == 0 && IntegrationEvent == None
    {
      EventId := event.Id;
      CreatedTime := event.CreatedTime;
      EventTypeName := event.TypeFullName.value;
      Content := serialize(event);
      State := NotPublished;
      SentTimes := 0;
      TransactionId := transactionId;
      IntegrationEvent := None;
    }

    /**
     * `new IntegrationEventLogEntry(event, transactionId)`: refuses an event whose type name is
     * null or white space, and otherwise builds a fresh, not yet published entry.
     */
    static method New(event: IntegrationEvent, transactionId: Guid, serialize: IntegrationEvent -> string)
      returns (r: Result<IntegrationEventLogEntry, OutboxError>)
      ensures r.Failure? <==> IsNullOrWhiteSpace(event.TypeFullName)
      ensures r.Failure? ==> r.error == Guard(ArgumentException(BlankTypeNameMessage))
      ensures r.Success? ==> fresh(r.value)
      ensures r.Success? ==> r.value.EventId == event.Id && r.value.CreatedTime == event.CreatedTime
      ensures r.Success? ==> r.value.TransactionId == transactionId
      ensures r.Success? ==> r.value.EventTypeName == event.TypeFullName.value
      ensures r.Success? ==> r.value.Content == serialize(event)
      ensures r.Success? ==> r.value.State == NotPublished && r.value.SentTimes == 0
      ensures r.Success? ==> r.value.IntegrationEvent == None
    {
      var check := IsNotNullOrWhitespace(event.TypeFullName, BlankTypeNameMessage);
      if check.Fail? {
        return Failure(Guard(check.error));
      }
      var entry := new IntegrationEventLogEntry.FromEvent(event, transactionId, serialize);
      return Success(entry);
    }

    /** `EventTypeName.Split('.').Last()`: the unqualified type name (see `ShortNameShape`). */
    function EventTypeShortName(): string {
      var parts := Split(EventTypeName, ['.']);
      SplitLast(EventTypeName, '.');
      parts[|parts| - 1]
    }

    /**
     * The short name holds no '.', ends the full name, is preceded by a '.' whenever it is
     * shorter than the full name, and is the full name when that has no '.'.
     */
    lemma ShortNameShape()
      ensures var r := EventTypeShortName();
        && '.' !in r
        && EndsWith(EventTypeName, r)
        && (|r| < |EventTypeName| ==> EventTypeName[|EventTypeName| - |r| - 1] == '.')
        && ('.' !in EventTypeName ==> r == EventTypeName)
    {
      SplitLast(EventTypeName, '.');
      assert EventTypeShortName() == LastSegment(EventTypeName, '.');
      LastSegmentShape(EventTypeName, '.');
    }

    /**
     * `DeserializeJsonContent(type)`: reads `Content` as the given type, stores the event in
     * `IntegrationEvent` (null when the content reads as null) and returns this same entry; a
     * JSON error leaves the entry unchanged.
     */
    method DeserializeJsonContent(typeName: string, decode: Decoder) returns (r: Result<IntegrationEventLogEntry, OutboxError>)
      modifies this`IntegrationEvent
      ensures r.Success? <==> decode(Content, typeName).Read?
      ensures r.Success? ==> r.value == this && IntegrationEvent == decode(Content, typeName).event
      ensures r.Failure? ==> r.error == JsonError(typeName) && IntegrationEvent == old(IntegrationEvent)
    {
      var decoded := decode(Content, typeName);
      if decoded.JsonFailure? {
        return Failure(JsonError(typeName));
      }
      IntegrationEvent := decoded.event;
      return Success(this);
    }
  }
}
