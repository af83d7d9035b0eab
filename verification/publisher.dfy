/** `CustomerEventPublisher`: builds a CUSTOMER_CREATED envelope (schema
    version 2) and enqueues it as one outbox row. */
module Publisher {
  import opened Wrappers
  import opened Text
  import opened Json
  import opened ApiErrors
  import opened Store
  import opened Outbox
  import opened CorrelationFilter
  import opened EventConsumer

  const SCHEMA_VERSION := 2
  const SOURCE := "ops-api"
  const AGGREGATE_TYPE := "CUSTOMER"
  const EVENT_TYPE := "CUSTOMER_CREATED"
  const PUBLISH_FAILURE := "Failed to build outbox event"

  /** The correlation id the request's diagnostic context holds, if any. */
  function CurrentCorrelationId(mdc: Mdc): (r: Option<string>)
    reads mdc
    ensures r.Some? <==> MDC_KEY in mdc.entries
    ensures r.Some? ==> r.value == mdc.entries[MDC_KEY]
  {
    if MDC_KEY in mdc.entries then Some(mdc.entries[MDC_KEY]) else None
  }

  /** The envelope: the version 1 fields, then `schemaVersion` and, from
      version 2 on, `source`. A missing correlation id is written as null.
      `ts` is the ISO-8601 text of the publishing instant. */
  function Envelope(eventId: Uuid, ts: string, customer: Customer, correlationId: Option<string>): (j: Json)
    ensures TextField(j, "eventId") == Some(eventId)
    ensures TextField(j, "type") == Some(EVENT_TYPE)
    ensures TextField(j, "ts") == Some(ts)
    ensures TextField(j, "customerId") == Some(customer.id)
    ensures TextField(j, "name") == Some(customer.name)
    ensures TextField(j, "email") == Some(customer.email)
    ensures TextField(j, "correlationId") == correlationId && Has(j, "correlationId")
    ensures SchemaVersion(j) == SCHEMA_VERSION
    ensures TextField(j, "source") == Some(SOURCE)
    ensures j.JObject? && j.fields.Keys ==
      {"eventId", "type", "ts", "customerId", "name", "email", "correlationId", "schemaVersion", "source"}
  {
    var base := map[
      "eventId" := JText(eventId),
      "type" := JText(EVENT_TYPE),
      "ts" := JText(ts),
      "customerId" := JText(customer.id),
      "name" := JText(customer.name),
      "email" := JText(customer.email),
      "correlationId" := if correlationId.Some? then JText(correlationId.value) else JNull,
      "schemaVersion" := JInt(SCHEMA_VERSION)];
    var fields := if SCHEMA_VERSION >= 2 then base["source" := JText(SOURCE)] else base;
    assert IsInt32(SCHEMA_VERSION);
    JObject(fields)
  }

  /** An envelope with a fresh event id is accepted by the consumer, which
      records it under its own type and correlation id and takes the
      version 2 branch with the publisher as source. */
  lemma {:induction false} EnvelopeIsProcessedAsV2(ledger: map<string, ProcessedEvent>, eventId: Uuid, ts: string,
                                                   customer: Customer, correlationId: Option<string>, now: Instant)
    requires CanonicalUuid(eventId) && eventId !in ledger
    ensures HandleMessage(ledger, Some(Envelope(eventId, ts, customer, correlationId)), now)
      == (Processed(ProcessedEvent(eventId, EVENT_TYPE, correlationId, now), V2(Some(SOURCE))),
          ledger[eventId := ProcessedEvent(eventId, EVENT_TYPE, correlationId, now)])
  {
    CanonicalUuidIsClean(eventId);
  }

  /** `publishCustomerCreated`. `serialize` stands for Jackson's
      `writeValueAsString` (`None` when it throws) and `saveFails` for an
      exception from the outbox insert; either is rethrown as a
      RuntimeException and no row is added. */
  method PublishCustomerCreated(table: OutboxTable, mdc: Mdc, customer: Customer, eventId: Uuid, rowId: Uuid,
                                ts: string, now: Instant, serialize: Json -> Option<string>, saveFails: bool)
    returns (r: Result<OutboxEvent, ApiException>)
    requires table.Valid()
    modifies table
    ensures table.Valid()
    ensures
      var payload := serialize(Envelope(eventId, ts, customer, CurrentCorrelationId(mdc)));
      && (payload.None? || saveFails ==> r == Err(Runtime(PUBLISH_FAILURE)) && table.rows == old(table.rows))
      && (payload.Some? && !saveFails ==>
            && r.Ok? && fresh(r.value)
            && table.rows == old(table.rows) + [r.value]
            && r.value.id == rowId && r.value.aggregateType == AGGREGATE_TYPE
            && r.value.aggregateId == customer.id && r.value.eventType == EVENT_TYPE
            && r.value.payload == payload.value
            && r.value.correlationId == CurrentCorrelationId(mdc)
            && r.value.createdAt == now
            && r.value.State() == DeliveryState(None, 0, None))
  {
    var correlationId := CurrentCorrelationId(mdc);
    var event := Envelope(eventId, ts, customer, correlationId);
    var payload := serialize(event);
    if payload.None? {
      return Err(Runtime(PUBLISH_FAILURE));
    }
    var row := new OutboxEvent(rowId, AGGREGATE_TYPE, customer.id, EVENT_TYPE, payload.value, correlationId, now);
    if saveFails {
      return Err(Runtime(PUBLISH_FAILURE));
    }
    table.Save(row);
    r := Ok(row);
  }
}
