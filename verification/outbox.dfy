/** The transactional outbox: `OutboxEventEntity`, a row that goes from
    pending to sent and counts failed deliveries, the `outbox_events` table
    holding the rows, and `OutboxEventRepository.findUnsentOrdered`. */
module Outbox {
  import opened Wrappers
  import opened Json
  import opened ApiErrors
  import opened Sorting

  /** The delivery bookkeeping of a row. */
  datatype DeliveryState = DeliveryState(sentAt: Option<Instant>, attempts: nat, lastError: Option<string>)

  /** One outbox row. What the event is never changes once built; only the
      delivery bookkeeping (sentAt, attempts, lastError) is updated. */
  class OutboxEvent {
    const id: Uuid
    const aggregateType: string
    const aggregateId: Uuid
    const eventType: string
    const payload: string
    const correlationId: Option<string>
    const createdAt: Instant
    var sentAt: Option<Instant>
    var attempts: nat
    var lastError: Option<string>

    /** A new row is pending, with no attempt made and no error recorded. */
    constructor(id: Uuid, aggregateType: string, aggregateId: Uuid, eventType: string,
                payload: string, correlationId: Option<string>, now: Instant)
      ensures this.id == id && this.aggregateType == aggregateType && this.aggregateId == aggregateId
      ensures this.eventType == eventType && this.payload == payload && this.correlationId == correlationId
      ensures createdAt == now
      ensures sentAt == None && attempts == 0 && lastError == None
    {
      this.id := id;
      this.aggregateType := aggregateType;
      this.aggregateId := aggregateId;
      this.eventType := eventType;
      this.payload := payload;
      this.correlationId := correlationId;
      this.createdAt := now;
      this.sentAt := None;
      this.attempts := 0;
      this.lastError := None;
    }

    function State(): DeliveryState
      reads this
    {
      DeliveryState(sentAt, attempts, lastError)
    }

    /** Delivery succeeded: the row is no longer pending; the failure
        bookkeeping stays as it was. */
    method MarkSent(now: Instant)
      modifies this
      ensures sentAt == Some(now)
      ensures attempts == old(attempts) && lastError == old(lastError)
    {
      sentAt := Some(now);
    }

    /** Delivery failed: one more attempt is counted and the error kept;
        the row stays as pending as it was. */
    method MarkFailed(err: string)
      modifies this
      ensures attempts == old(attempts) + 1 && lastError == Some(err)
      ensures sentAt == old(sentAt)
    {
      attempts := attempts + 1;
      lastError := Some(err);
    }
  }

  /** The rows of `rows` still pending, in table order. */
  function PendingRows(rows: seq<OutboxEvent>): (r: seq<OutboxEvent>)
    reads set e | e in rows
    ensures forall i :: 0 <= i < |r| ==> r[i] in rows && r[i].sentAt.None?
    ensures forall e | e in rows :: multiset(r)[e] == if e.sentAt.None? then multiset(rows)[e] else 0
  {
    if rows == [] then []
    else
      assert rows == [rows[0]] + rows[1..];
      var rest := PendingRows(rows[1..]);
      if rows[0].sentAt.None? then [rows[0]] + rest else rest
  }

  function CreatedAt(e: OutboxEvent): int { e.createdAt }

  /** `findUnsentOrdered`: the pending rows, oldest first. Every row
      returned is pending, every pending row is returned as often as the
      table holds it, and the creation times do not decrease. */
  function FindUnsentOrdered(rows: seq<OutboxEvent>): (r: seq<OutboxEvent>)
    reads set e | e in rows
    ensures forall i :: 0 <= i < |r| ==> r[i] in rows && r[i].sentAt.None?
    ensures forall e | e in rows :: multiset(r)[e] == if e.sentAt.None? then multiset(rows)[e] else 0
    ensures forall i, j :: 0 <= i < j < |r| ==> r[i].createdAt <= r[j].createdAt
  {
    var pending := PendingRows(rows);
    var sorted := SortBy(pending, CreatedAt);
    assert forall i :: 0 <= i < |sorted| ==> sorted[i] in multiset(pending);
    sorted
  }

  /** A row already sent is never offered for delivery again. */
  lemma SentRowIsNeverOffered(rows: seq<OutboxEvent>, e: OutboxEvent)
    requires e in rows && e.sentAt.Some?
    ensures e !in FindUnsentOrdered(rows)
  {
    assert multiset(FindUnsentOrdered(rows))[e] == 0;
  }

  /** In a table without duplicate rows, each pending row is offered
      exactly once. */
  lemma PendingOfferedExactlyOnce(rows: seq<OutboxEvent>, e: OutboxEvent)
    requires Distinct(rows) && e in rows && e.sentAt.None?
    ensures multiset(FindUnsentOrdered(rows))[e] == 1
  {
    DistinctCountsAtMostOne(rows, e);
  }

  /** In a table without duplicate rows, no row is offered twice. */
  lemma OfferedRowsDistinct(rows: seq<OutboxEvent>)
    requires Distinct(rows)
    ensures Distinct(FindUnsentOrdered(rows))
  {
    var r := FindUnsentOrdered(rows);
    assert multiset(r) <= multiset(rows) by {
      forall x ensures multiset(r)[x] <= multiset(rows)[x] {
        if x !in rows {
          assert x !in r;
        }
      }
    }
    DistinctOfSubMultiset(rows, r);
  }

  /** The `outbox_events` table. */
  class OutboxTable {
    var rows: seq<OutboxEvent>

    /** No row is stored twice. */
    predicate Valid()
      reads this
    {
      Distinct(rows)
    }

    constructor()
      ensures rows == [] && Valid()
    {
      rows := [];
    }

    /** `save` of a new row: it is appended; the other rows are untouched. */
    method Save(e: OutboxEvent)
      requires Valid() && e !in rows
      modifies this
      ensures rows == old(rows) + [e] && Valid()
    {
      rows := rows + [e];
    }
  }
}
