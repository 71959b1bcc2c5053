/** What the columns of the event table say, over all runs of the protocol. */
module DeliveryCounts {
  import opened Wrappers
  import opened EventQueues
  import opened DeliveryProtocol
  import opened Delivery
  import opened FairnessExactly

  // ----- attempt_count is the number of requests -----

  function Crashes(steps: seq<Step>): nat {
    if steps == [] then 0 else Crashes(steps[..|steps| - 1]) + if steps[|steps| - 1].Crash? then 1 else 0
  }

  /** A request has been made for the event, and is not counted yet. */
  predicate Uncounted(phase: Phase, id: string) {
    phase.Sent? && phase.todo != [] && phase.todo[0].edgeEventId == id
  }

  /** The requests made for the event of each row are those counted, the one that is not counted yet, and not more
      others than there were crashes. */
  predicate CountsOk(w: World, crashes: nat) {
    forall i :: 0 <= i < |w.rows| ==> CountOk(w, w.rows[i], crashes)
  }

  predicate CountOk(w: World, r: Row, crashes: nat) {
    var made := r.attemptCount + if Uncounted(w.phase, r.edgeEventId) then 1 else 0;
    made <= Sends(w, r.edgeEventId) <= made + crashes
  }

  predicate InHandIsKnown(w: World) {
    !w.phase.Idle? && w.phase.todo != [] ==> HasEvent(w.rows, w.phase.todo[0].edgeEventId)
  }

  lemma StepCounts(w: World, step: Step, crashes: nat)
    requires CountsOk(w, crashes) && UniqueEvents(w.rows) && InHandIsKnown(w)
    requires forall id :: id in w.sends ==> HasEvent(w.rows, id)
    ensures CountsOk(Do(w, step), crashes + if step.Crash? then 1 else 0)
  {
    var after := Do(w, step);
    StepProgress(w, step);
    forall i | 0 <= i < |after.rows|
      ensures CountOk(after, after.rows[i], crashes + if step.Crash? then 1 else 0)
    {
      if i < |w.rows| {
        RowCount(w, step, crashes, i);
      } else {
        assert !HasEvent(w.rows, after.rows[i].edgeEventId);
      }
    }
  }

  lemma RowCount(w: World, step: Step, crashes: nat, i: nat)
    requires i < |w.rows| && CountOk(w, w.rows[i], crashes)
    ensures i < |Do(w, step).rows|
    ensures CountOk(Do(w, step), Do(w, step).rows[i], crashes + if step.Crash? then 1 else 0)
  {
    if !step.Enqueue? && !w.phase.Idle? && w.phase.todo != [] {
      var id := w.phase.todo[0].edgeEventId;
      assert w.rows[i].edgeEventId == id || w.rows[i].edgeEventId != id;
    }
  }

  lemma SafeIsKnown(w: World)
    requires Safe(w)
    ensures InHandIsKnown(w)
  {
    if !w.phase.Idle? && w.phase.todo != [] {
      assert IsFirst(w.first, w.phase.todo[0].edgeEventId, w.phase.todo[0].payload);
    }
  }

  lemma {:induction false} RunCounts(steps: seq<Step>)
    ensures CountsOk(Run(FRESH, steps), Crashes(steps))
  {
    if steps != [] {
      var n := |steps| - 1;
      var w := Run(FRESH, steps[..n]);
      RunCounts(steps[..n]);
      RunIsSafe(FRESH, steps[..n]);
      SendsAreKnown(steps[..n]);
      SafeIsKnown(w);
      assert forall id :: id in w.sends ==> HasEvent(w.rows, id);
      StepCounts(w, steps[n], Crashes(steps[..n]));
    }
  }

  /** After any run, between two rounds: attempt_count is the number of requests made for the event, but for at most
      one lost in each crash; exactly that number when there was no crash. */
  lemma AttemptsAreRequests(steps: seq<Step>, i: nat)
    requires Run(FRESH, steps).phase.Idle? && i < |Run(FRESH, steps).rows|
    ensures var w := Run(FRESH, steps);
            w.rows[i].attemptCount <= Sends(w, w.rows[i].edgeEventId) <= w.rows[i].attemptCount + Crashes(steps)
  {
    RunCounts(steps);
    assert CountOk(Run(FRESH, steps), Run(FRESH, steps).rows[i], Crashes(steps));
  }

  // ----- the columns agree -----

  /** delivered_at is set exactly in DELIVERED rows, last_attempt_at exactly in rows that were tried; only tried
      rows are DELIVERED or show an error, and a DELIVERED row shows none. */
  predicate ColumnsAgree(r: Row) {
    && (r.deliveredAt.Some? <==> r.status == DELIVERED)
    && (r.lastAttemptAt.Some? <==> r.attemptCount > 0)
    && (r.status == DELIVERED ==> r.attemptCount > 0 && r.lastError.None?)
    && (r.lastError.Some? ==> r.attemptCount > 0)
  }

  /** The rows whose turn is not over are pending, and each has one turn. */
  predicate Awaits(rows: Table, todo: seq<Row>) {
    && Distinct(todo)
    && forall i, k :: 0 <= i < |rows| && 0 <= k < |todo| && rows[i].edgeEventId == todo[k].edgeEventId ==>
         rows[i].status == PENDING
  }

  predicate PhaseAwaits(rows: Table, phase: Phase) {
    phase.Idle? ||
    (&& Awaits(rows, phase.todo)
     && (phase.Attempted? && phase.todo != [] ==>
           forall i :: 0 <= i < |rows| && rows[i].edgeEventId == phase.todo[0].edgeEventId ==>
             rows[i].attemptCount > 0))
  }

  predicate ColumnsOk(w: World) {
    (forall i :: 0 <= i < |w.rows| ==> ColumnsAgree(w.rows[i])) && PhaseAwaits(w.rows, w.phase)
  }

  lemma StartAwaits(rows: Table, nextId: nat, limit: int)
    requires TableOk(rows, nextId)
    ensures Awaits(rows, Fetched(rows, limit))
  {
    var batch := Fetched(rows, limit);
    FetchedAreTheOldest(rows, limit);
    BatchIsDistinct(rows, nextId, limit);
    forall i, k | 0 <= i < |rows| && 0 <= k < |batch| && rows[i].edgeEventId == batch[k].edgeEventId
      ensures rows[i].status == PENDING
    {
      assert batch[k] in rows;
      var j :| 0 <= j < |rows| && rows[j] == batch[k];
      assert i == j;
    }
  }

  lemma EnqueueAwaits(w: World, payload: Payload, now: real)
    requires ColumnsOk(w) && InHandIsKnown(w)
    ensures ColumnsOk(Do(w, Enqueue(payload, now)))
  {
  }

  lemma RestAwaits(rows: Table, todo: seq<Row>, id: string, c: Change)
    requires Awaits(rows, todo) && todo != [] && id == todo[0].edgeEventId
    ensures Awaits(UpdateWhere(rows, id, c), todo[1..])
  {
    var updated := UpdateWhere(rows, id, c);
    forall i, k | 0 <= i < |updated| && 0 < k < |todo| && updated[i].edgeEventId == todo[k].edgeEventId
      ensures updated[i].status == PENDING
    {
      assert rows[i].edgeEventId == todo[k].edgeEventId != id;
    }
  }

  lemma AttemptColumns(w: World, now: real)
    requires ColumnsOk(w)
    ensures ColumnsOk(Do(w, SaveAttempt(now)))
  {
    if w.phase.Sent? && w.phase.todo != [] {
      var id, c := w.phase.todo[0].edgeEventId, CountAttempt(now, KeptError(ErrorOf(w.phase.reply)));
      RestAwaits(w.rows, w.phase.todo, id, c);
      var updated := UpdateWhere(w.rows, id, c);
      assert forall i :: 0 <= i < |updated| ==>
               updated[i].edgeEventId == w.rows[i].edgeEventId && updated[i].status == w.rows[i].status;
    }
  }

  lemma DeliveredColumns(w: World, now: real)
    requires ColumnsOk(w)
    ensures ColumnsOk(Do(w, SaveDelivered(now)))
  {
    if w.phase.Attempted? && w.phase.todo != [] {
      RestAwaits(w.rows, w.phase.todo, w.phase.todo[0].edgeEventId, SetDelivered(now));
    }
  }

  lemma StepColumns(w: World, step: Step)
    requires ColumnsOk(w) && InHandIsKnown(w) && TableOk(w.rows, w.nextId)
    ensures ColumnsOk(Do(w, step))
  {
    match step
    case StartRound(limit) =>
      if w.phase.Idle? {
        StartAwaits(w.rows, w.nextId, limit);
      }
    case Enqueue(payload, now) => EnqueueAwaits(w, payload, now);
    case SaveAttempt(now) => AttemptColumns(w, now);
    case SaveDelivered(now) => DeliveredColumns(w, now);
    case SavePayload(sendAt) =>
    case Send(reply) =>
    case EndRound =>
    case Crash =>
  }

  /** After any run whatever, in mid-round and after crashes too, the columns of every row agree. */
  lemma {:induction false} ColumnsAlwaysAgree(steps: seq<Step>)
    ensures ColumnsOk(Run(FRESH, steps))
  {
    if steps != [] {
      var n := |steps| - 1;
      ColumnsAlwaysAgree(steps[..n]);
      RunIsSafe(FRESH, steps[..n]);
      SafeIsKnown(Run(FRESH, steps[..n]));
      StepColumns(Run(FRESH, steps[..n]), steps[n]);
    }
  }

  // ----- what is sent is saved -----

  /** The payload that is about to be sent is in the row of its event. */
  predicate SavedFirst(w: World) {
    w.phase.Sending? && w.phase.todo != [] ==>
      && HasEvent(w.rows, w.phase.todo[0].edgeEventId)
      && forall i :: 0 <= i < |w.rows| && w.rows[i].edgeEventId == w.phase.todo[0].edgeEventId ==>
           w.rows[i].payload == w.phase.payload
  }

  lemma StepSaves(w: World, step: Step)
    requires SavedFirst(w) && InHandIsKnown(w)
    ensures SavedFirst(Do(w, step))
  {
    var after := Do(w, step);
    if after.phase.Sending? && after.phase.todo != [] {
      var id := after.phase.todo[0].edgeEventId;
      var i :| 0 <= i < |w.rows| && w.rows[i].edgeEventId == id;
      StepProgress(w, step);
      assert after.rows[i].edgeEventId == id;
    }
  }

  lemma {:induction false} AlwaysSavedFirst(steps: seq<Step>)
    ensures SavedFirst(Run(FRESH, steps))
  {
    if steps != [] {
      var n := |steps| - 1;
      AlwaysSavedFirst(steps[..n]);
      RunIsSafe(FRESH, steps[..n]);
      SafeIsKnown(Run(FRESH, steps[..n]));
      StepSaves(Run(FRESH, steps[..n]), steps[n]);
    }
  }

  /** Whatever has happened before: a request is made only for a pending event, and its payload, edge_send_at included,
      is in the row of that event by then. */
  lemma RequestsAreSavedFirst(steps: seq<Step>, reply: Reply, payload: Payload) returns (i: nat)
    requires ActsOfStep(Run(FRESH, steps), Send(reply)) == [Requests(payload, reply)]
    ensures var rows := Run(FRESH, steps).rows;
            && i < |rows| && rows[i].payload == payload && rows[i].edgeEventId == payload.edgeEventId
            && rows[i].status == PENDING
  {
    var w := Run(FRESH, steps);
    AlwaysSavedFirst(steps);
    ColumnsAlwaysAgree(steps);
    RunIsSafe(FRESH, steps);
    i :| i < |w.rows| && w.rows[i].edgeEventId == w.phase.todo[0].edgeEventId;
    assert Awaits(w.rows, w.phase.todo);
  }
}
