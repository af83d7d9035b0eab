/** `OutboxPoller.poll`: hands a capped batch of pending outbox rows to the
    broker, oldest first, marking each row sent or failed on its own. The
    broker is an oracle: `sendError(i)` is the error text of the exception
    the send of the i-th row of the batch throws, if it throws. */
module OutboxPolling {
  import opened Wrappers
  import opened Json
  import opened Sorting
  import opened Outbox

  const TOPIC := "customer-events"
  /** `toString` of the exception the simulated crash throws. */
  const CRASH_ERROR := "java.lang.RuntimeException: SIMULATED_CRASH_AFTER_SEND"

  /** A record handed to the broker: topic, key and value. */
  datatype Message = Message(topic: string, key: string, payload: string)

  /** What happened to one row of the batch. */
  datatype RowOutcome =
    | Delivered             // sent and marked sent
    | SendFailed(error: string)  // the send threw; marked failed
    | CrashedAfterSend      // sent, then the simulated crash; marked failed

  /** The outcome of one row, given the error its send threw, if any, and
      whether the crash latch is still open when it is reached. */
  function RowVerdict(err: Option<string>, latchOpen: bool): (o: RowOutcome)
    ensures o.SendFailed? <==> err.Some?
    ensures o.CrashedAfterSend? <==> latchOpen && err.None?
  {
    if err.Some? then SendFailed(err.value)
    else if latchOpen then CrashedAfterSend
    else Delivered
  }

  /** Whether some send among the first `n` rows of the batch went
      through. */
  predicate SentBefore(sendError: nat -> Option<string>, n: nat)
  {
    n > 0 && (sendError(n - 1).None? || SentBefore(sendError, n - 1))
  }

  /** `SentBefore` says exactly that some earlier send did not throw. */
  lemma {:induction false} SentBeforeMeans(sendError: nat -> Option<string>, n: nat)
    ensures SentBefore(sendError, n) <==> exists k :: 0 <= k < n && sendError(k).None?
  {
    if n > 0 {
      SentBeforeMeans(sendError, n - 1);
      if sendError(n - 1).None? {
        assert 0 <= n - 1 < n && sendError(n - 1).None?;
      }
    }
  }

  /** Whether the latch, armed at the start of the batch, is still open when
      the i-th row is reached: no earlier send went through. */
  predicate LatchOpen(sendError: nat -> Option<string>, armed: bool, i: nat)
  {
    armed && !SentBefore(sendError, i)
  }

  /** The latch of a poller whose latch was `startFired` at the start of
      the batch, before and after the i-th row: open exactly when
      `LatchOpen` says so, and fired once some send went through. */
  lemma LatchStep(sendError: nat -> Option<string>, simulate: bool, startFired: bool, i: nat)
    ensures var armed := simulate && !startFired;
      var fired := startFired || (armed && SentBefore(sendError, i));
      && (simulate && !fired) == LatchOpen(sendError, armed, i)
      && (fired || (simulate && !fired && sendError(i).None?))
         == (startFired || (armed && SentBefore(sendError, i + 1)))
  {
  }

  /** The outcome of the i-th row. The crash latch, when armed, fires on the
      first row whose send did not throw, and only there. */
  function Outcome(sendError: nat -> Option<string>, armed: bool, i: nat): (o: RowOutcome)
    ensures o.SendFailed? <==> sendError(i).Some?
    ensures o.CrashedAfterSend? ==> armed && sendError(i).None?
    ensures o.Delivered? ==> sendError(i).None?
  {
    RowVerdict(sendError(i), LatchOpen(sendError, armed, i))
  }

  /** A row's bookkeeping after its outcome: a delivered row is stamped
      sent; a failed or crashed one counts one more attempt and keeps the
      error, and stays pending. */
  function After(o: RowOutcome, s: DeliveryState, now: Instant): (t: DeliveryState)
    ensures o.Delivered? ==> t == s.(sentAt := Some(now))
    ensures !o.Delivered? ==> t.sentAt == s.sentAt && t.attempts == s.attempts + 1
    ensures o.SendFailed? ==> t.lastError == Some(o.error)
    ensures o.CrashedAfterSend? ==> t.lastError == Some(CRASH_ERROR)
  {
    match o
    case Delivered => s.(sentAt := Some(now))
    case SendFailed(err) => s.(attempts := s.attempts + 1, lastError := Some(err))
    case CrashedAfterSend => s.(attempts := s.attempts + 1, lastError := Some(CRASH_ERROR))
  }

  /** The crash hits at most one row. */
  lemma CrashHitsAtMostOneRow(sendError: nat -> Option<string>, armed: bool, i: nat, j: nat)
    requires i < j && Outcome(sendError, armed, j).CrashedAfterSend?
    ensures !Outcome(sendError, armed, i).CrashedAfterSend?
  {
    SentBeforeMeans(sendError, j);
    assert sendError(i).Some?;
  }

  /** How many of the first `n` rows were delivered. */
  function DeliveredCount(sendError: nat -> Option<string>, armed: bool, n: nat): nat
  {
    if n == 0 then 0
    else DeliveredCount(sendError, armed, n - 1) + (if Outcome(sendError, armed, n - 1).Delivered? then 1 else 0)
  }

  /** When no send throws, every row but the one the armed latch hits is
      delivered. */
  lemma {:induction false} DeliveredCountWithoutErrors(sendError: nat -> Option<string>, armed: bool, n: nat)
    requires forall k :: 0 <= k < n ==> sendError(k).None?
    ensures DeliveredCount(sendError, armed, n) == if armed && n > 0 then n - 1 else n
  {
    if n > 0 {
      DeliveredCountWithoutErrors(sendError, armed, n - 1);
      if armed && n > 1 {
        SentBeforeMeans(sendError, n - 1);
        assert sendError(0).None?;
      }
    }
  }

  /** The records handed to the broker for the rows of `batch`, in order:
      one per row whose send did not throw, keyed by the aggregate id. */
  function Handed(batch: seq<OutboxEvent>, sendError: nat -> Option<string>): (r: seq<Message>)
    ensures |r| <= |batch|
  {
    if batch == [] then []
    else
      var n := |batch| - 1;
      var e := batch[n];
      Handed(batch[..n], sendError) + (if sendError(n).None? then [Message(TOPIC, e.aggregateId, e.payload)] else [])
  }

  /** Handing one more row of the batch appends its record, if its send
      did not throw. */
  lemma HandedStep(batch: seq<OutboxEvent>, sendError: nat -> Option<string>, i: nat)
    requires i < |batch|
    ensures Handed(batch[..i + 1], sendError) == Handed(batch[..i], sendError)
              + (if sendError(i).None? then [Message(TOPIC, batch[i].aggregateId, batch[i].payload)] else [])
  {
    assert batch[..i + 1][..i] == batch[..i];
  }

  /** Every handed record is on the customer-events topic, keyed by the
      aggregate id of a row of the batch and carrying its payload; a batch
      whose sends all go through hands one record per row. */
  lemma {:induction false} HandedMessages(batch: seq<OutboxEvent>, sendError: nat -> Option<string>)
    ensures forall m | m in Handed(batch, sendError) ::
              (m.topic == TOPIC && exists e | e in batch :: m.key == e.aggregateId && m.payload == e.payload)
    ensures (forall k :: 0 <= k < |batch| ==> sendError(k).None?) ==> |Handed(batch, sendError)| == |batch|
  {
    if batch != [] {
      var n := |batch| - 1;
      HandedMessages(batch[..n], sendError);
      forall m | m in Handed(batch, sendError)
        ensures m.topic == TOPIC && exists e | e in batch :: m.key == e.aggregateId && m.payload == e.payload
      {
        if m in Handed(batch[..n], sendError) {
          var e :| e in batch[..n] && m.key == e.aggregateId && m.payload == e.payload;
          assert e in batch;
        } else {
          assert batch[n] in batch;
        }
      }
    }
  }

  class OutboxPoller {
    const simulateCrashAfterSendOnce: bool
    var crashFired: bool

    constructor(simulateCrashAfterSendOnce: bool)
      ensures this.simulateCrashAfterSendOnce == simulateCrashAfterSendOnce && !crashFired
    {
      this.simulateCrashAfterSendOnce := simulateCrashAfterSendOnce;
      crashFired := false;
    }

    /** The body of the batch loop for one row: hand it to the broker, then
        either fire the latch or mark it sent; a thrown send marks it
        failed. */
    method HandleRow(e: OutboxEvent, err: Option<string>, now: Instant)
      returns (msg: Option<Message>, delivered: bool)
      modifies this, e
      ensures var o := RowVerdict(err, simulateCrashAfterSendOnce && !old(crashFired));
        && e.State() == After(o, old(e.State()), now)
        && delivered == o.Delivered?
      ensures crashFired == (old(crashFired) || (simulateCrashAfterSendOnce && err.None?))
      ensures msg == if err.None? then Some(Message(TOPIC, e.aggregateId, e.payload)) else None
    {
      match err {
        case Some(error) =>
          e.MarkFailed(error);
          return None, false;
        case None =>
          msg := Some(Message(TOPIC, e.aggregateId, e.payload));
          if simulateCrashAfterSendOnce && !crashFired {
            crashFired := true;
            e.MarkFailed(CRASH_ERROR);
            delivered := false;
          } else {
            e.MarkSent(now);
            delivered := true;
          }
      }
    }

    /** The batch loop: every row of `batch` handled in order, each on its
        own; no row outside the batch is touched. */
    method ProcessBatch(batch: seq<OutboxEvent>, sendError: nat -> Option<string>, now: Instant)
      returns (sentCount: nat, handed: seq<Message>)
      requires Distinct(batch)
      modifies this, set e | e in batch
      ensures var armed := simulateCrashAfterSendOnce && !old(crashFired);
        && (forall k :: 0 <= k < |batch| ==>
              batch[k].State() == After(Outcome(sendError, armed, k), old(batch[k].State()), now))
        && sentCount == DeliveredCount(sendError, armed, |batch|)
        && handed == Handed(batch, sendError)
        && crashFired == (old(crashFired) || (armed && SentBefore(sendError, |batch|)))
    {
      ghost var armed := simulateCrashAfterSendOnce && !crashFired;
      sentCount, handed := 0, [];
      var i := 0;
      while i < |batch|
        invariant 0 <= i <= |batch|
        invariant forall k :: 0 <= k < |batch| ==>
              batch[k].State() == (if k < i then After(Outcome(sendError, armed, k), old(batch[k].State()), now)
                                   else old(batch[k].State()))
        invariant sentCount == DeliveredCount(sendError, armed, i)
        invariant handed == Handed(batch[..i], sendError)
        invariant crashFired == (old(crashFired) || (armed && SentBefore(sendError, i)))
      {
        var e := batch[i];
        assert forall k :: 0 <= k < |batch| && k != i ==> batch[k] != e;
        LatchStep(sendError, simulateCrashAfterSendOnce, old(crashFired), i);
        HandedStep(batch, sendError, i);
        var msg, delivered := HandleRow(e, sendError(i), now);
        if delivered {
          sentCount := sentCount + 1;
        }
        if msg.Some? {
          handed := handed + [msg.value];
        }
        i := i + 1;
      }
      assert batch[..i] == batch;
    }

    /** `poll`: the first `batchSize` pending rows, oldest first, each
        handed to the broker and then marked; a failing row does not stop
        the batch and nothing is thrown. Rows outside the batch keep their
        state. The latch is armed only while it has not fired. */
    method Poll(table: OutboxTable, batchSize: nat, sendError: nat -> Option<string>, now: Instant)
      returns (sentCount: nat, handed: seq<Message>)
      requires table.Valid()
      modifies this, set e | e in table.rows
      ensures var unsent := old(FindUnsentOrdered(table.rows));
        var batch := unsent[..Min(batchSize, |unsent|)];
        var armed := simulateCrashAfterSendOnce && !old(crashFired);
        && (forall k :: 0 <= k < |batch| ==>
              batch[k].State() == After(Outcome(sendError, armed, k), old(batch[k].State()), now))
        && (forall e | e in table.rows && e !in batch :: e.State() == old(e.State()))
        && sentCount == DeliveredCount(sendError, armed, |batch|)
        && handed == Handed(batch, sendError)
        && crashFired == (old(crashFired) || (armed && SentBefore(sendError, |batch|)))
    {
      var unsent := FindUnsentOrdered(table.rows);
      if |unsent| == 0 {
        return 0, [];
      }
      var batch := unsent[..Min(batchSize, |unsent|)];
      OfferedRowsDistinct(table.rows);
      assert Distinct(batch);
      sentCount, handed := ProcessBatch(batch, sendError, now);
    }
  }
}
