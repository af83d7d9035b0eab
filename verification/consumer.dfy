/** `CustomerEventsConsumer`: reads customer events from the
    "customer-events" topic, records each event id once in the
    `processed_events` ledger and branches on the envelope's schema version. */
module EventConsumer {
  import opened Wrappers
  import opened Text
  import opened Json

  /** A row of the `processed_events` ledger, keyed by event id. */
  datatype ProcessedEvent = ProcessedEvent(eventId: string, eventType: string,
                                           correlationId: Option<string>, processedAt: Instant)

  /** The event type recorded when the envelope has none. */
  const UNKNOWN_TYPE := "UNKNOWN"
  /** The schema version taken when the envelope does not say. */
  const DEFAULT_SCHEMA_VERSION := 1

  /** `text(root, field)`: the field's text, or `None` when it is absent or
      null. */
  function TextField(root: Json, field: string): (r: Option<string>)
    ensures r.Some? <==> HasNonNull(root, field)
    ensures r.Some? ==> r.value == AsText(root.fields[field])
  {
    if HasNonNull(root, field) then Some(AsText(root.fields[field])) else None
  }

  /** `intOrDefault(root, field, default)`. */
  function IntOrDefault(root: Json, field: string, default: int): (r: int)
    ensures !Has(root, field) || root.fields[field] == JNull ==> r == default
    ensures Has(root, field) && IsIntNode(root.fields[field]) ==> r == root.fields[field].n
    ensures Has(root, field) && root.fields[field].JText? ==>
      r == (match ParseInt(root.fields[field].s) case Some(v) => v case None => default)
    ensures Has(root, field) && !(root.fields[field].JNull? || IsIntNode(root.fields[field]) || root.fields[field].JText?) ==>
      r == default
    ensures r == default || IsInt32(r)
  {
    if !Has(root, field) || root.fields[field].JNull? then default
    else
      var n := root.fields[field];
      if IsIntNode(n) then n.n
      else if n.JText? then
        match ParseInt(n.s)
        case Some(v) => v
        case None => default
      else default
  }

  /** An integer written as text is read back as that integer. */
  lemma IntOrDefaultReadsText(root: Json, field: string, default: int, n: int)
    requires IsInt32(n) && Has(root, field) && root.fields[field] == JText(IntToString(n))
    ensures IntOrDefault(root, field, default) == n
  {
    ParseIntToString(n);
  }

  /** The handling the envelope's schema version selects. */
  datatype Branch =
    | V1
    | V2(source: Option<string>)
    | UnknownVersion(version: int)

  /** What one delivery of a message comes to. */
  datatype Handling =
    | ParseFailed
    | MissingEventId
    | Duplicate(eventId: string)
    | Processed(event: ProcessedEvent, branch: Branch)

  /** The envelope's event id when it has a non-blank one. */
  function EventId(root: Json): (r: Option<string>)
    ensures r.Some? <==> TextField(root, "eventId").Some? && !IsBlank(TextField(root, "eventId").value)
    ensures r.Some? ==> r == TextField(root, "eventId")
  {
    match TextField(root, "eventId")
    case Some(id) => if IsBlank(id) then None else Some(id)
    case None => None
  }

  function SchemaVersion(root: Json): int
  {
    IntOrDefault(root, "schemaVersion", DEFAULT_SCHEMA_VERSION)
  }

  /** Versions 1 and 2 each have their own branch, version 2 also reading
      the optional `source`; any other version is logged as unknown. */
  function BranchFor(root: Json): (r: Branch)
    ensures SchemaVersion(root) == 1 <==> r.V1?
    ensures SchemaVersion(root) == 2 <==> r.V2?
    ensures r.V2? ==> r.source == TextField(root, "source")
    ensures r.UnknownVersion? ==> r.version == SchemaVersion(root) && r.version != 1 && r.version != 2
  {
    var v := SchemaVersion(root);
    if v == 1 then V1
    else if v == 2 then V2(TextField(root, "source"))
    else UnknownVersion(v)
  }

  /** The ledger row written for an accepted envelope. */
  function LedgerRow(root: Json, id: string, now: Instant): (e: ProcessedEvent)
    ensures e.eventId == id && e.processedAt == now
    ensures e.eventType == (match TextField(root, "type") case Some(t) => t case None => UNKNOWN_TYPE)
    ensures e.correlationId == TextField(root, "correlationId")
  {
    ProcessedEvent(id, match TextField(root, "type") case Some(t) => t case None => UNKNOWN_TYPE,
                   TextField(root, "correlationId"), now)
  }

  /** `onMessage` on a payload that parsed to `parsed` (`None` when it did
      not parse), against the ledger `ledger`: the handling and the ledger
      afterwards. */
  function HandleMessage(ledger: map<string, ProcessedEvent>, parsed: Option<Json>, now: Instant)
    : (r: (Handling, map<string, ProcessedEvent>))
    ensures parsed.None? ==> r.0 == ParseFailed
    ensures parsed.Some? && EventId(parsed.value).None? ==> r.0 == MissingEventId
    ensures r.0.Duplicate? <==> parsed.Some? && EventId(parsed.value).Some? && EventId(parsed.value).value in ledger
    ensures r.0.Processed? <==> parsed.Some? && EventId(parsed.value).Some? && EventId(parsed.value).value !in ledger
    ensures !r.0.Processed? ==> r.1 == ledger
    ensures r.0.Processed? ==>
      var id := EventId(parsed.value).value;
      && r.0.event == LedgerRow(parsed.value, id, now)
      && r.0.branch == BranchFor(parsed.value)
      && r.1 == ledger[id := r.0.event]
      && r.1.Keys == ledger.Keys + {id}
  {
    match parsed
    case None => (ParseFailed, ledger)
    case Some(root) =>
      match EventId(root)
      case None => (MissingEventId, ledger)
      case Some(id) =>
        if id in ledger then (Duplicate(id), ledger)
        else
          var e := LedgerRow(root, id, now);
          (Processed(e, BranchFor(root)), ledger[id := e])
  }

  /** Delivering a message a second time changes nothing: the ledger after
      two deliveries is the ledger after one. */
  lemma RedeliveryIsIgnored(ledger: map<string, ProcessedEvent>, parsed: Option<Json>, t1: Instant, t2: Instant)
    ensures
      var once := HandleMessage(ledger, parsed, t1);
      var twice := HandleMessage(once.1, parsed, t2);
      && twice.1 == once.1
      && !twice.0.Processed?
      && (once.0.Processed? || once.0.Duplicate? ==> twice.0.Duplicate?)
  {
  }

  /** `processed_events`, the ledger of handled event ids. */
  class ProcessedEventTable {
    var rows: map<string, ProcessedEvent>

    constructor()
      ensures rows == map[]
    {
      rows := map[];
    }
  }

  /** `onMessage`: parse the payload (`parse` stands for Jackson's
      `readTree`, `None` for a parse error), then record the event id
      unless it is missing or already recorded. It never fails. */
  method OnMessage(ledger: ProcessedEventTable, payload: string, parse: string -> Option<Json>, now: Instant)
    returns (h: Handling)
    modifies ledger
    ensures (h, ledger.rows) == HandleMessage(old(ledger.rows), parse(payload), now)
  {
    var parsed := parse(payload);
    if parsed.None? {
      return ParseFailed;
    }
    var root := parsed.value;
    var eventId := TextField(root, "eventId");
    var version := SchemaVersion(root);
    if eventId.None? || IsBlank(eventId.value) {
      return MissingEventId;
    }
    var id := eventId.value;
    if id in ledger.rows {
      // The insert violates the primary key: a duplicate delivery.
      return Duplicate(id);
    }
    var e := LedgerRow(root, id, now);
    ledger.rows := ledger.rows[id := e];
    var branch;
    if version == 1 {
      branch := V1;
    } else if version == 2 {
      branch := V2(TextField(root, "source"));
    } else {
      branch := UnknownVersion(version);
    }
    h := Processed(e, branch);
  }
}
