/** One delivery round, as the code runs it (src/mvd_edge/app.py process_pending_deliveries). */
module Delivery {
  import opened Wrappers
  import opened Streams
  import opened Health
  import opened EventQueues
  import opened DeliveryProtocol
  import Seqs

  /** What a heartbeat reports: the health flags, and how many events are pending. */
  datatype Beat = Beat(vitals: Vitals, queuePending: nat)

  datatype DeliveryResult = DeliveryResult(success: bool, error: Option<string>)

  /** The transport and the deduplicating cloud behind it. What happens to a request is up to reply. */
  class CloudTransport {
    const journal: Journal
    var stored: Cloud
    var beats: seq<Beat>

    constructor (journal: Journal)
      ensures stored == [] && beats == [] && this.journal == journal
    {
      this.journal := journal;
      stored, beats := [], [];
    }

    method SendPayload(payload: Payload, reply: Reply) returns (result: DeliveryResult)
      modifies this`stored, journal
      ensures stored == Arrived(old(stored), payload, reply)
      ensures journal.acts == old(journal.acts) + [Requests(payload, reply)]
      ensures result == DeliveryResult(reply.Acknowledged?, ErrorOf(reply))
    {
      journal.Note(Requests(payload, reply));
      stored := Arrived(stored, payload, reply);
      result := DeliveryResult(reply.Acknowledged?, ErrorOf(reply));
    }

    /** A heartbeat is sent, whatever becomes of it. */
    method SendHeartbeat(beat: Beat, reply: Reply) returns (result: DeliveryResult)
      modifies this`beats
      ensures beats == old(beats) + [beat]
      ensures result == DeliveryResult(reply.Acknowledged?, ErrorOf(reply))
    {
      beats := beats + [beat];
      result := DeliveryResult(reply.Acknowledged?, ErrorOf(reply));
    }
  }

  /** What the environment does with one event of a round: the clock readings and the reply. */
  datatype Trip = Trip(sendAt: string, reply: Reply, attemptAt: real, deliveredAt: real)

  /** The trips of one round after the other. */
  datatype RoundTrips = RoundTrips(given: imap<nat, Stream<Trip>>, rest: Stream<Trip>) {
    function At(k: nat): Stream<Trip> {
      if k in given then given[k] else rest
    }
  }

  function Outgoing(event: Row, trip: Trip): Payload {
    event.payload.(edgeSendAt := trip.sendAt)
  }

  /** A row after the turn of the event that is in it. */
  function Settled(r: Row, event: Row, trip: Trip): Row {
    var tried := r.(payload := Outgoing(event, trip), attemptCount := r.attemptCount + 1,
                    lastAttemptAt := Some(trip.attemptAt), lastError := KeptError(ErrorOf(trip.reply)));
    if trip.reply.Acknowledged? then
      tried.(status := DELIVERED, deliveredAt := Some(trip.deliveredAt), lastError := None)
    else tried
  }

  /** The table after the turn of one event. */
  function OneTrip(rows: Table, event: Row, trip: Trip): (after: Table)
    ensures |after| == |rows|
    ensures forall i :: 0 <= i < |rows| ==>
              after[i] == if rows[i].edgeEventId == event.edgeEventId then Settled(rows[i], event, trip) else rows[i]
  {
    seq(|rows|, i requires 0 <= i < |rows| =>
      if rows[i].edgeEventId == event.edgeEventId then Settled(rows[i], event, trip) else rows[i])
  }

  /** The same as successive updates, which is how it comes about. */
  lemma TripIsUpdates(rows: Table, event: Row, trip: Trip)
    ensures var id := event.edgeEventId;
            var saved := UpdateWhere(rows, id, SetPayload(Outgoing(event, trip)));
            var tried := UpdateWhere(saved, id, CountAttempt(trip.attemptAt, KeptError(ErrorOf(trip.reply))));
            OneTrip(rows, event, trip)
            == if trip.reply.Acknowledged? then UpdateWhere(tried, id, SetDelivered(trip.deliveredAt)) else tried
  {
  }

  /** The table after the first n events of the batch. */
  function RoundRows(rows: Table, batch: seq<Row>, trips: Stream<Trip>, n: nat): (after: Table)
    requires n <= |batch|
    ensures |after| == |rows|
  {
    if n == 0 then rows else OneTrip(RoundRows(rows, batch, trips, n - 1), batch[n - 1], trips.At(n - 1))
  }

  function Acks(trips: Stream<Trip>, n: nat): nat {
    if n == 0 then 0 else Acks(trips, n - 1) + AckOf(trips, n - 1)
  }

  function AckOf(trips: Stream<Trip>, k: nat): nat {
    if trips.At(k).reply.Acknowledged? then 1 else 0
  }

  /** What the cloud holds after the requests for the first n events of the batch. */
  function RoundCloud(cloud: Cloud, batch: seq<Row>, trips: Stream<Trip>, n: nat): Cloud
    requires n <= |batch|
  {
    if n == 0 then cloud
    else Arrived(RoundCloud(cloud, batch, trips, n - 1), Outgoing(batch[n - 1], trips.At(n - 1)), trips.At(n - 1).reply)
  }

  /** What is done for one event, in this order: save the payload that is to go out, make the request,
      count the attempt, and only for an acknowledged request mark the event delivered. */
  function TripActs(event: Row, trip: Trip): seq<Act> {
    TriedActs(event, trip)
    + if trip.reply.Acknowledged? then [Updates(event.edgeEventId, SetDelivered(trip.deliveredAt))] else []
  }

  function TriedActs(event: Row, trip: Trip): seq<Act> {
    var id := event.edgeEventId;
    [Updates(id, SetPayload(Outgoing(event, trip))), Requests(Outgoing(event, trip), trip.reply),
     Updates(id, CountAttempt(trip.attemptAt, KeptError(ErrorOf(trip.reply))))]
  }

  function RoundActs(batch: seq<Row>, trips: Stream<Trip>, n: nat): seq<Act>
    requires n <= |batch|
  {
    if n == 0 then [] else RoundActs(batch, trips, n - 1) + TripActs(batch[n - 1], trips.At(n - 1))
  }

  /** Two objects that note their acts in one journal. */
  ghost predicate Wired(queue: EventQueue, transport: CloudTransport)
    reads queue
  {
    queue.Valid() && transport.journal == queue.journal
  }

  /** The body of the loop in process_pending_deliveries. */
  method DeliverOne(queue: EventQueue, transport: CloudTransport, queuedEvent: Row, trip: Trip) returns (success: bool)
    requires Wired(queue, transport)
    modifies queue, transport`stored, queue.journal
    ensures Wired(queue, transport) && queue.nextId == old(queue.nextId)
    ensures queue.rows == OneTrip(old(queue.rows), queuedEvent, trip)
    ensures transport.stored == Arrived(old(transport.stored), Outgoing(queuedEvent, trip), trip.reply)
    ensures queue.journal.acts == old(queue.journal.acts) + TripActs(queuedEvent, trip)
    ensures success == trip.reply.Acknowledged?
  {
    TripIsUpdates(queue.rows, queuedEvent, trip);
    var payload := queuedEvent.payload.(edgeSendAt := trip.sendAt);
    queue.UpdatePayload(queuedEvent.edgeEventId, payload);
    var result := transport.SendPayload(payload, trip.reply);
    queue.MarkAttempt(queuedEvent.edgeEventId, if result.success then None else result.error, trip.attemptAt);
    if result.success {
      queue.MarkDelivered(queuedEvent.edgeEventId, trip.deliveredAt);
    }
    success := result.success;
  }

  /** process_pending_deliveries */
  method ProcessPendingDeliveries(queue: EventQueue, transport: CloudTransport, batchSize: int, trips: Stream<Trip>)
    returns (deliveredCount: nat)
    requires Wired(queue, transport)
    modifies queue, transport`stored, queue.journal
    ensures Wired(queue, transport) && queue.nextId == old(queue.nextId)
    ensures queue.rows == Round(old(queue.rows), batchSize, trips)
    ensures var batch := Fetched(old(queue.rows), batchSize);
            && transport.stored == RoundCloud(old(transport.stored), batch, trips, |batch|)
            && queue.journal.acts == old(queue.journal.acts) + RoundActs(batch, trips, |batch|)
            && deliveredCount == Acks(trips, |batch|)
  {
    var batch := queue.FetchPending(batchSize);
    deliveredCount := DeliverBatch(queue, transport, batch, trips);
  }

  /** Its loop. */
  method DeliverBatch(queue: EventQueue, transport: CloudTransport, batch: seq<Row>, trips: Stream<Trip>)
    returns (deliveredCount: nat)
    requires Wired(queue, transport)
    modifies queue, transport`stored, queue.journal
    ensures Wired(queue, transport) && queue.nextId == old(queue.nextId)
    ensures queue.rows == RoundRows(old(queue.rows), batch, trips, |batch|)
    ensures transport.stored == RoundCloud(old(transport.stored), batch, trips, |batch|)
    ensures queue.journal.acts == old(queue.journal.acts) + RoundActs(batch, trips, |batch|)
    ensures deliveredCount == Acks(trips, |batch|)
  {
    deliveredCount := 0;
    for k := 0 to |batch|
      invariant Wired(queue, transport) && queue.nextId == old(queue.nextId)
      invariant queue.rows == RoundRows(old(queue.rows), batch, trips, k)
      invariant transport.stored == RoundCloud(old(transport.stored), batch, trips, k)
      invariant queue.journal.acts == old(queue.journal.acts) + RoundActs(batch, trips, k)
      invariant deliveredCount == Acks(trips, k)
    {
      var success := DeliverOne(queue, transport, batch[k], trips.At(k));
      if success {
        deliveredCount := deliveredCount + 1;
      }
      Seqs.Assoc(old(queue.journal.acts), RoundActs(batch, trips, k), TripActs(batch[k], trips.At(k)));
    }
  }

  // ----- a round is a run of the protocol -----

  function TripSteps(trip: Trip): seq<Step> {
    [SavePayload(trip.sendAt), Send(trip.reply), SaveAttempt(trip.attemptAt)]
    + if trip.reply.Acknowledged? then [SaveDelivered(trip.deliveredAt)] else []
  }

  function BatchSteps(trips: Stream<Trip>, n: nat): seq<Step> {
    if n == 0 then [] else BatchSteps(trips, n - 1) + TripSteps(trips.At(n - 1))
  }

  function RoundSteps(rows: Table, limit: int, trips: Stream<Trip>): seq<Step> {
    [StartRound(limit)] + BatchSteps(trips, |Fetched(rows, limit)|) + [EndRound]
  }

  /** One turn of the loop takes the protocol through the same acts, to the same rows and cloud. */
  lemma TripIsSteps(w: World, todo: seq<Row>, trip: Trip) returns (later: World)
    requires w.phase == Next(todo) && todo != []
    ensures Leads(w, TripSteps(trip), later, TripActs(todo[0], trip))
    ensures later.rows == OneTrip(w.rows, todo[0], trip) && later.nextId == w.nextId
    ensures later.cloud == Arrived(w.cloud, Outgoing(todo[0], trip), trip.reply)
    ensures later.phase == Next(todo[1..])
  {
    var three := [SavePayload(trip.sendAt), Send(trip.reply), SaveAttempt(trip.attemptAt)];
    TripIsUpdates(w.rows, todo[0], trip);
    var tried := FirstThree(w, todo, trip);
    if trip.reply.Acknowledged? {
      later := Marked(tried, todo, trip.deliveredAt);
      LeadsOn(w, three, tried, TriedActs(todo[0], trip),
              [SaveDelivered(trip.deliveredAt)], later, [Updates(todo[0].edgeEventId, SetDelivered(trip.deliveredAt))]);
    } else {
      later := tried;
      assert TripSteps(trip) == three && TripActs(todo[0], trip) == TriedActs(todo[0], trip);
    }
  }

  /** Its first three steps. */
  lemma FirstThree(w: World, todo: seq<Row>, trip: Trip) returns (tried: World)
    requires w.phase == Next(todo) && todo != []
    ensures Leads(w, [SavePayload(trip.sendAt), Send(trip.reply), SaveAttempt(trip.attemptAt)],
                  tried, TriedActs(todo[0], trip))
    ensures var event := todo[0];
            && tried.rows == UpdateWhere(UpdateWhere(w.rows, event.edgeEventId, SetPayload(Outgoing(event, trip))),
                                         event.edgeEventId,
                                         CountAttempt(trip.attemptAt, KeptError(ErrorOf(trip.reply))))
            && tried.nextId == w.nextId
            && tried.cloud == Arrived(w.cloud, Outgoing(event, trip), trip.reply)
            && tried.phase == (if trip.reply.Acknowledged? then Attempted(todo) else Next(todo[1..]))
  {
    var id, payload := todo[0].edgeEventId, Outgoing(todo[0], trip);
    var save, send, count := SavePayload(trip.sendAt), Send(trip.reply), SaveAttempt(trip.attemptAt);
    var saved := PayloadSaved(w, todo, trip.sendAt);
    var sent := PayloadSent(saved, todo, payload, trip.reply);
    tried := AttemptSaved(sent, todo, trip.reply, trip.attemptAt);
    LeadsOn(w, [save], saved, [Updates(id, SetPayload(payload))], [send], sent, [Requests(payload, trip.reply)]);
    LeadsOn(w, [save] + [send], sent, [Updates(id, SetPayload(payload))] + [Requests(payload, trip.reply)],
            [count], tried, [Updates(id, CountAttempt(trip.attemptAt, KeptError(ErrorOf(trip.reply))))]);
    assert [save] + [send] + [count] == [save, send, count];
  }

  lemma PayloadSaved(w: World, todo: seq<Row>, sendAt: string) returns (later: World)
    requires w.phase == Next(todo) && todo != []
    ensures var id, payload := todo[0].edgeEventId, todo[0].payload.(edgeSendAt := sendAt);
            && Leads(w, [SavePayload(sendAt)], later, [Updates(id, SetPayload(payload))])
            && later == w.(rows := UpdateWhere(w.rows, id, SetPayload(payload)), phase := Sending(todo, payload))
  {
    later := Do(w, SavePayload(sendAt));
    StepLeads(w, SavePayload(sendAt));
  }

  lemma PayloadSent(w: World, todo: seq<Row>, payload: Payload, reply: Reply) returns (later: World)
    requires w.phase == Sending(todo, payload) && todo != []
    ensures Leads(w, [Send(reply)], later, [Requests(payload, reply)])
    ensures later.rows == w.rows && later.nextId == w.nextId && later.phase == Sent(todo, reply)
    ensures later.cloud == Arrived(w.cloud, payload, reply)
  {
    later := Do(w, Send(reply));
    StepLeads(w, Send(reply));
  }

  lemma AttemptSaved(w: World, todo: seq<Row>, reply: Reply, at: real) returns (later: World)
    requires w.phase == Sent(todo, reply) && todo != []
    ensures var id, count := todo[0].edgeEventId, CountAttempt(at, KeptError(ErrorOf(reply)));
            && Leads(w, [SaveAttempt(at)], later, [Updates(id, count)])
            && later == w.(rows := UpdateWhere(w.rows, id, count),
                           phase := if reply.Acknowledged? then Attempted(todo) else Next(todo[1..]))
  {
    later := Do(w, SaveAttempt(at));
    StepLeads(w, SaveAttempt(at));
  }

  /** The fourth, of an acknowledged request. */
  lemma Marked(w: World, todo: seq<Row>, at: real) returns (later: World)
    requires w.phase == Attempted(todo) && todo != []
    ensures Leads(w, [SaveDelivered(at)], later, [Updates(todo[0].edgeEventId, SetDelivered(at))])
    ensures later == w.(rows := UpdateWhere(w.rows, todo[0].edgeEventId, SetDelivered(at)), phase := Next(todo[1..]))
  {
    later := Do(w, SaveDelivered(at));
    StepLeads(w, SaveDelivered(at));
  }

  /** Where the protocol is when n events of the batch are done. */
  ghost predicate Done(w: World, now: World, batch: seq<Row>, trips: Stream<Trip>, n: nat)
    requires n <= |batch|
  {
    && now.rows == RoundRows(w.rows, batch, trips, n) && now.nextId == w.nextId
    && now.cloud == RoundCloud(w.cloud, batch, trips, n)
    && now.phase == Next(batch[n..])
  }

  lemma OneMoreTrip(w: World, now: World, batch: seq<Row>, trips: Stream<Trip>, n: nat) returns (later: World)
    requires n < |batch| && Done(w, now, batch, trips, n)
    ensures Done(w, later, batch, trips, n + 1)
    ensures Leads(now, TripSteps(trips.At(n)), later, TripActs(batch[n], trips.At(n)))
  {
    later := TripIsSteps(now, batch[n..], trips.At(n));
    Seqs.DropDrop(batch, n, 1);
  }

  lemma {:induction false} BatchIsSteps(w: World, batch: seq<Row>, trips: Stream<Trip>, n: nat) returns (later: World)
    requires w.phase == Next(batch) && n <= |batch|
    ensures Leads(w, BatchSteps(trips, n), later, RoundActs(batch, trips, n)) && Done(w, later, batch, trips, n)
  {
    if n == 0 {
      later := w;
    } else {
      var now := BatchIsSteps(w, batch, trips, n - 1);
      later := OneMoreTrip(w, now, batch, trips, n - 1);
      LeadsOn(w, BatchSteps(trips, n - 1), now, RoundActs(batch, trips, n - 1),
              TripSteps(trips.At(n - 1)), later, TripActs(batch[n - 1], trips.At(n - 1)));
    }
  }

  /** The code's round is a run of the protocol: the same acts in the same order, and the same outcome. */
  lemma RoundIsSteps(w: World, limit: int, trips: Stream<Trip>) returns (later: World)
    requires w.phase.Idle?
    ensures var batch := Fetched(w.rows, limit);
            && Leads(w, RoundSteps(w.rows, limit, trips), later, RoundActs(batch, trips, |batch|))
            && later.rows == Round(w.rows, limit, trips) && later.nextId == w.nextId
            && later.cloud == RoundCloud(w.cloud, batch, trips, |batch|)
            && later.phase.Idle?
  {
    var batch := Fetched(w.rows, limit);
    var started := RoundStarts(w, limit);
    var done := BatchIsSteps(started, batch, trips, |batch|);
    later := RoundEnds(done);
    LeadsOn(w, [StartRound(limit)], started, [], BatchSteps(trips, |batch|), done, RoundActs(batch, trips, |batch|));
    LeadsOn(w, [StartRound(limit)] + BatchSteps(trips, |batch|), done, [] + RoundActs(batch, trips, |batch|),
            [EndRound], later, []);
    assert [] + RoundActs(batch, trips, |batch|) + [] == RoundActs(batch, trips, |batch|);
  }

  lemma RoundStarts(w: World, limit: int) returns (started: World)
    requires w.phase.Idle?
    ensures Leads(w, [StartRound(limit)], started, [])
    ensures started == w.(phase := Next(Fetched(w.rows, limit)))
  {
    started := Do(w, StartRound(limit));
    StepLeads(w, StartRound(limit));
  }

  lemma RoundEnds(w: World) returns (ended: World)
    requires w.phase == Next([])
    ensures Leads(w, [EndRound], ended, []) && ended == w.(phase := Idle)
  {
    ended := Do(w, EndRound);
    StepLeads(w, EndRound);
  }

  // ----- what a round does to the table -----

  predicate Distinct(batch: seq<Row>) {
    forall i, j :: 0 <= i < j < |batch| ==> batch[i].edgeEventId != batch[j].edgeEventId
  }

  /** One row after n turns of a round. */
  function Turned(r: Row, batch: seq<Row>, trips: Stream<Trip>, n: nat): (after: Row)
    requires n <= |batch|
    ensures after.edgeEventId == r.edgeEventId
  {
    if n == 0 then r else TurnOf(Turned(r, batch, trips, n - 1), batch[n - 1], trips.At(n - 1))
  }

  function TurnOf(r: Row, event: Row, trip: Trip): (after: Row)
    ensures after.edgeEventId == r.edgeEventId
  {
    if r.edgeEventId == event.edgeEventId then Settled(r, event, trip) else r
  }

  lemma {:induction false} RowsTurn(rows: Table, batch: seq<Row>, trips: Stream<Trip>, n: nat, i: nat)
    requires n <= |batch| && i < |rows|
    ensures RoundRows(rows, batch, trips, n)[i] == Turned(rows[i], batch, trips, n)
  {
    if n > 0 {
      RowsTurn(rows, batch, trips, n - 1, i);
    }
  }

  /** A row stays as it is through the turns of other events. */
  lemma {:induction false} RowStays(r: Row, batch: seq<Row>, trips: Stream<Trip>, m: nat, n: nat)
    requires m <= n <= |batch|
    requires forall k :: m <= k < n ==> batch[k].edgeEventId != r.edgeEventId
    ensures Turned(r, batch, trips, n) == Turned(r, batch, trips, m)
  {
    if m < n {
      RowStays(r, batch, trips, m, n - 1);
    }
  }

  /** The row of the k-th event is settled by the k-th trip, and by no other. */
  lemma BatchRowSettles(batch: seq<Row>, trips: Stream<Trip>, k: nat)
    requires k < |batch|
    requires forall j :: 0 <= j < |batch| && j != k ==> batch[j].edgeEventId != batch[k].edgeEventId
    ensures Turned(batch[k], batch, trips, |batch|) == Settled(batch[k], batch[k], trips.At(k))
  {
    RowStays(batch[k], batch, trips, 0, k);
    assert Turned(batch[k], batch, trips, k + 1) == TurnOf(batch[k], batch[k], trips.At(k));
    RowStays(batch[k], batch, trips, k + 1, |batch|);
  }

  /** Rows whose event is not among the first n of the batch are as they were. */
  lemma OthersStay(rows: Table, batch: seq<Row>, trips: Stream<Trip>, n: nat, i: nat)
    requires n <= |batch| && i < |rows|
    requires forall k :: 0 <= k < n ==> batch[k].edgeEventId != rows[i].edgeEventId
    ensures RoundRows(rows, batch, trips, n)[i] == rows[i]
  {
    RowsTurn(rows, batch, trips, n, i);
    RowStays(rows[i], batch, trips, 0, n);
  }

  lemma OnlyOnce(batch: seq<Row>, k: nat)
    requires k < |batch| && Distinct(batch)
    ensures forall j :: 0 <= j < |batch| && j != k ==> batch[j].edgeEventId != batch[k].edgeEventId
  {
  }

  lemma BatchIsDistinct(rows: Table, nextId: nat, limit: int)
    requires TableOk(rows, nextId)
    ensures Distinct(Fetched(rows, limit))
  {
    FetchedAreTheOldest(rows, limit);
    var batch := Fetched(rows, limit);
    forall i, j | 0 <= i < j < |batch|
      ensures batch[i].edgeEventId != batch[j].edgeEventId
    {
      assert batch[i] in rows && batch[j] in rows && Older(batch[i], batch[j]);
    }
  }

  /** A crash-free round settles the rows of its batch, each by its own trip, and no others. */
  lemma RoundSettlesItsBatch(rows: Table, nextId: nat, limit: int, trips: Stream<Trip>, i: nat)
    requires TableOk(rows, nextId) && i < |rows|
    ensures var batch := Fetched(rows, limit);
            var after := RoundRows(rows, batch, trips, |batch|);
            && (forall k :: 0 <= k < |batch| && rows[i] == batch[k] ==>
                  after[i] == Settled(rows[i], rows[i], trips.At(k)))
            && (rows[i] !in batch ==> after[i] == rows[i])
  {
    var batch := Fetched(rows, limit);
    FetchedAreTheOldest(rows, limit);
    BatchIsDistinct(rows, nextId, limit);
    forall k | 0 <= k < |batch| && rows[i] == batch[k]
      ensures RoundRows(rows, batch, trips, |batch|)[i] == Settled(rows[i], rows[i], trips.At(k))
    {
      OnlyOnce(batch, k);
      RowsTurn(rows, batch, trips, |batch|, i);
      BatchRowSettles(batch, trips, k);
    }
    if rows[i] !in batch {
      forall k | 0 <= k < |batch|
        ensures batch[k].edgeEventId != rows[i].edgeEventId
      {
        assert batch[k] in rows;
      }
      OthersStay(rows, batch, trips, |batch|, i);
    }
  }

  /** Column by column: a row of the batch has its attempt counted and timed, and its payload sent at the time given;
      if the request was acknowledged it is DELIVERED, with that time and no error, and otherwise it stays as it was and
      keeps what there is of an error text. */
  lemma RoundInColumns(rows: Table, nextId: nat, limit: int, trips: Stream<Trip>, i: nat, k: nat)
    requires TableOk(rows, nextId) && i < |rows| && k < |Fetched(rows, limit)| && Fetched(rows, limit)[k] == rows[i]
    ensures i < |Round(rows, limit, trips)|
    ensures var r, after, trip := rows[i], Round(rows, limit, trips)[i], trips.At(k);
            && after.id == r.id && after.edgeEventId == r.edgeEventId && after.createdAt == r.createdAt
            && after.payload == r.payload.(edgeSendAt := trip.sendAt)
            && after.attemptCount == r.attemptCount + 1 && after.lastAttemptAt == Some(trip.attemptAt)
            && (if trip.reply.Acknowledged? then
                  after.status == DELIVERED && after.deliveredAt == Some(trip.deliveredAt) && after.lastError == None
                else
                  && after.status == r.status && after.deliveredAt == r.deliveredAt
                  && after.lastError == KeptError(Some(trip.reply.error)))
  {
    RoundSettlesItsBatch(rows, nextId, limit, trips, i);
  }

  // ----- how many events stay pending -----

  function PendingWith(rows: Table, id: string): nat {
    if rows == [] then 0 else
      var last := rows[|rows| - 1];
      PendingWith(rows[..|rows| - 1], id) + if last.edgeEventId == id && last.status == PENDING then 1 else 0
  }

  lemma {:induction false} UpdateCounts(rows: Table, id: string, c: Change)
    ensures |Pending(UpdateWhere(rows, id, c))|
            == |Pending(rows)| - if c.SetDelivered? then PendingWith(rows, id) else 0
    ensures !c.SetDelivered? ==> PendingWith(UpdateWhere(rows, id, c), id) == PendingWith(rows, id)
  {
    if rows != [] {
      var n := |rows| - 1;
      UpdateCounts(rows[..n], id, c);
      assert UpdateWhere(rows, id, c)[..n] == UpdateWhere(rows[..n], id, c);
    }
  }

  lemma {:induction false} NoneWith(rows: Table, id: string)
    requires forall i :: 0 <= i < |rows| ==> rows[i].edgeEventId != id
    ensures PendingWith(rows, id) == 0
  {
    if rows != [] {
      NoneWith(rows[..|rows| - 1], id);
    }
  }

  lemma {:induction false} OneWith(rows: Table, i: nat)
    requires UniqueEvents(rows) && i < |rows| && rows[i].status == PENDING
    ensures PendingWith(rows, rows[i].edgeEventId) == 1
  {
    var n := |rows| - 1;
    if i == n {
      NoneWith(rows[..n], rows[n].edgeEventId);
    } else {
      OneWith(rows[..n], i);
    }
  }

  lemma TripKeepsTable(rows: Table, nextId: nat, event: Row, trip: Trip)
    requires TableOk(rows, nextId)
    ensures TableOk(OneTrip(rows, event, trip), nextId)
  {
    TripIsUpdates(rows, event, trip);
    var id := event.edgeEventId;
    var r1 := UpdateWhere(rows, id, SetPayload(Outgoing(event, trip)));
    var r2 := UpdateWhere(r1, id, CountAttempt(trip.attemptAt, KeptError(ErrorOf(trip.reply))));
    UpdateKeepsSchema(rows, nextId, id, SetPayload(Outgoing(event, trip)));
    UpdateKeepsSchema(r1, nextId, id, CountAttempt(trip.attemptAt, KeptError(ErrorOf(trip.reply))));
    UpdateKeepsSchema(r2, nextId, id, SetDelivered(trip.deliveredAt));
  }

  lemma {:induction false} RoundKeepsTable(rows: Table, nextId: nat, batch: seq<Row>, trips: Stream<Trip>, n: nat)
    requires n <= |batch| && TableOk(rows, nextId)
    ensures TableOk(RoundRows(rows, batch, trips, n), nextId)
  {
    if n > 0 {
      RoundKeepsTable(rows, nextId, batch, trips, n - 1);
      TripKeepsTable(RoundRows(rows, batch, trips, n - 1), nextId, batch[n - 1], trips.At(n - 1));
    }
  }

  /** An event is pending, in one row, until its turn comes. */
  lemma PendingUntilItsTurn(rows: Table, nextId: nat, batch: seq<Row>, trips: Stream<Trip>, n: nat)
    requires n < |batch| && TableOk(rows, nextId) && Distinct(batch)
    requires batch[n] in rows && batch[n].status == PENDING
    ensures PendingWith(RoundRows(rows, batch, trips, n), batch[n].edgeEventId) == 1
  {
    var i :| 0 <= i < |rows| && rows[i] == batch[n];
    RoundKeepsTable(rows, nextId, batch, trips, n);
    OthersStay(rows, batch, trips, n, i);
    OneWith(RoundRows(rows, batch, trips, n), i);
  }

  predicate FromPending(batch: seq<Row>, rows: Table) {
    forall k :: 0 <= k < |batch| ==> batch[k] in rows && batch[k].status == PENDING
  }

  lemma OneLessPending(rows: Table, nextId: nat, batch: seq<Row>, trips: Stream<Trip>, n: nat)
    requires n < |batch| && TableOk(rows, nextId) && Distinct(batch) && FromPending(batch, rows)
    ensures PendingAfter(rows, batch, trips, n + 1) + AckOf(trips, n) == PendingAfter(rows, batch, trips, n)
  {
    PendingUntilItsTurn(rows, nextId, batch, trips, n);
    TripCounts(RoundRows(rows, batch, trips, n), batch[n], trips.At(n));
  }

  /** Each acknowledged request of a round takes one event off the pending ones, and nothing else does. */
  lemma PendingLessAcks(rows: Table, nextId: nat, batch: seq<Row>, trips: Stream<Trip>)
    requires TableOk(rows, nextId) && Distinct(batch) && FromPending(batch, rows)
    ensures PendingAfter(rows, batch, trips, |batch|) == |Pending(rows)| - Acks(trips, |batch|)
  {
    var counts := PendingCounts(rows, batch, trips);
    forall n | 0 <= n < |batch|
      ensures counts[n + 1] + AckOf(trips, n) == counts[n]
    {
      OneLessPending(rows, nextId, batch, trips, n);
    }
    AddedUp(counts, trips, |batch|);
  }

  function PendingCounts(rows: Table, batch: seq<Row>, trips: Stream<Trip>): (counts: seq<int>)
    ensures |counts| == |batch| + 1 && counts[0] == |Pending(rows)|
    ensures forall n :: 0 <= n <= |batch| ==> counts[n] == PendingAfter(rows, batch, trips, n)
  {
    seq(|batch| + 1, n requires 0 <= n <= |batch| => PendingAfter(rows, batch, trips, n))
  }

  function PendingAfter(rows: Table, batch: seq<Row>, trips: Stream<Trip>, n: nat): nat
    requires n <= |batch|
  {
    |Pending(RoundRows(rows, batch, trips, n))|
  }

  lemma {:induction false} AddedUp(counts: seq<int>, trips: Stream<Trip>, n: nat)
    requires n < |counts|
    requires forall k :: 0 <= k < n ==> counts[k + 1] + AckOf(trips, k) == counts[k]
    ensures counts[n] == counts[0] - Acks(trips, n)
  {
    if n > 0 {
      AddedUp(counts, trips, n - 1);
      assert counts[n - 1 + 1] + AckOf(trips, n - 1) == counts[n - 1];
    }
  }

  lemma TripCounts(rows: Table, event: Row, trip: Trip)
    requires PendingWith(rows, event.edgeEventId) == 1
    ensures |Pending(OneTrip(rows, event, trip))| == |Pending(rows)| - if trip.reply.Acknowledged? then 1 else 0
  {
    TripIsUpdates(rows, event, trip);
    var id := event.edgeEventId;
    var r1 := UpdateWhere(rows, id, SetPayload(Outgoing(event, trip)));
    var r2 := UpdateWhere(r1, id, CountAttempt(trip.attemptAt, KeptError(ErrorOf(trip.reply))));
    UpdateCounts(rows, id, SetPayload(Outgoing(event, trip)));
    UpdateCounts(r1, id, CountAttempt(trip.attemptAt, KeptError(ErrorOf(trip.reply))));
    UpdateCounts(r2, id, SetDelivered(trip.deliveredAt));
  }

  function Round(rows: Table, limit: int, trips: Stream<Trip>): Table {
    RoundRows(rows, Fetched(rows, limit), trips, |Fetched(rows, limit)|)
  }

  /** The number a round returns is the pending count before less the pending count after. */
  lemma RoundReturnsTheDifference(rows: Table, nextId: nat, limit: int, trips: Stream<Trip>)
    requires TableOk(rows, nextId)
    ensures Acks(trips, |Fetched(rows, limit)|) == |Pending(rows)| - |Pending(Round(rows, limit, trips))|
    ensures TableOk(Round(rows, limit, trips), nextId)
  {
    var batch := Fetched(rows, limit);
    FetchedAreTheOldest(rows, limit);
    BatchIsDistinct(rows, nextId, limit);
    assert FromPending(batch, rows);
    PendingLessAcks(rows, nextId, batch, trips);
    RoundKeepsTable(rows, nextId, batch, trips, |batch|);
  }

  function Rounds(rows: Table, limit: int, trips: RoundTrips, m: nat): Table {
    if m == 0 then rows else Round(Rounds(rows, limit, trips, m - 1), limit, trips.At(m - 1))
  }

  ghost predicate EverySendSucceeds(trips: Stream<Trip>) {
    forall k: nat :: trips.At(k).reply.Acknowledged?
  }

  lemma {:induction false} AllAcknowledged(trips: Stream<Trip>, n: nat)
    requires EverySendSucceeds(trips)
    ensures Acks(trips, n) == n
  {
    if n > 0 {
      AllAcknowledged(trips, n - 1);
    }
  }

  /** Draining: with every request acknowledged and nothing enqueued, m rounds of at most limit events
      leave n - m * limit of n pending events, so the queue is empty from round ceil(n / limit) on. */
  lemma {:induction false} RoundsDrain(rows: Table, nextId: nat, limit: int, trips: RoundTrips, m: nat)
    requires TableOk(rows, nextId) && limit >= 1
    requires forall i: nat :: EverySendSucceeds(trips.At(i))
    ensures |Pending(Rounds(rows, limit, trips, m))| == Left(|Pending(rows)|, m * limit)
    ensures TableOk(Rounds(rows, limit, trips, m), nextId)
  {
    if m > 0 {
      RoundsDrain(rows, nextId, limit, trips, m - 1);
      OneMoreRound(rows, nextId, limit, trips, m);
      OneLimitLess(m, limit);
      LeftTwice(|Pending(rows)|, (m - 1) * limit, limit);
    } else {
      assert 0 * limit == 0;
    }
  }

  lemma OneMoreRound(rows: Table, nextId: nat, limit: int, trips: RoundTrips, m: nat)
    requires m > 0 && TableOk(Rounds(rows, limit, trips, m - 1), nextId) && limit >= 1
    requires EverySendSucceeds(trips.At(m - 1))
    ensures |Pending(Rounds(rows, limit, trips, m))| == Left(|Pending(Rounds(rows, limit, trips, m - 1))|, limit)
    ensures TableOk(Rounds(rows, limit, trips, m), nextId)
  {
    RoundDrains(Rounds(rows, limit, trips, m - 1), nextId, limit, trips.At(m - 1));
  }

  lemma OneLimitLess(m: nat, limit: nat)
    requires m > 0
    ensures 0 <= (m - 1) * limit == m * limit - limit
  {
  }

  lemma LeftTwice(n: nat, a: int, b: int)
    requires a >= 0 && b >= 0
    ensures Left(Left(n, a), b) == Left(n, a + b)
  {
  }

  function Left(n: nat, taken: int): nat {
    if n <= taken then 0 else if taken <= 0 then n else n - taken
  }

  lemma RoundDrains(rows: Table, nextId: nat, limit: int, trips: Stream<Trip>)
    requires TableOk(rows, nextId) && limit >= 1
    requires EverySendSucceeds(trips)
    ensures |Pending(Round(rows, limit, trips))| == Left(|Pending(rows)|, limit)
    ensures TableOk(Round(rows, limit, trips), nextId)
  {
    RoundReturnsTheDifference(rows, nextId, limit, trips);
    FetchedAreTheOldest(rows, limit);
    AllAcknowledged(trips, |Fetched(rows, limit)|);
  }
}
